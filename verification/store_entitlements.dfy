/** The on-device entitlement fold: `updatePurchaseStatus` walks the current
    entitlements in the order the store yields them, keeps the verified ones,
    and tracks one expiration date and one "current" product. A later
    lifetime entitlement resets the tracking, so the result depends on order. */
module StoreEntitlements {
  import opened Wrappers
  import Strings

  const ProductIds: seq<string> := [
    "brain_dumpster_monthly_premium",
    "brain_dumpster_yearly_premium",
    "brain_dumpster_lifetime_premium"
  ]

  /** A signed transaction; `expirationDate` is `None` for the lifetime purchase. */
  datatype Transaction = Transaction(productId: string, expirationDate: Option<int>)

  datatype VerificationResult = Verified(transaction: Transaction) | Unverified(error: string)

  /** `checkVerified`: the transaction of a verified result; an unverified one throws. */
  function CheckVerified(v: VerificationResult): (r: Option<Transaction>)
    ensures r.Some? <==> v.Verified?
    ensures r.Some? ==> r.value == v.transaction
  {
    match v
    case Verified(t) => Some(t)
    case Unverified(_) => None
  }

  /** The fold's running variables. */
  datatype Tracking = Tracking(purchasedIds: set<string>, latestExpiration: Option<int>, activeProduct: Option<string>)

  /** The published result of `updatePurchaseStatus`. */
  datatype PurchaseStatus = PurchaseStatus(
    purchasedProductIds: set<string>,
    isPremium: bool,
    premiumExpirationDate: Option<int>,
    currentPremiumProductId: Option<string>)

  const Start: Tracking := Tracking({}, None, None)

  /** One loop iteration: an unverified result changes nothing; a verified one
      adds its id, a lifetime one takes over the tracking and clears the date,
      and a dated one takes over only when nothing is dated yet or its date is
      strictly later. */
  function Step(s: Tracking, v: VerificationResult): (r: Tracking)
    ensures !v.Verified? ==> r == s
    ensures v.Verified? ==> r.purchasedIds == s.purchasedIds + {v.transaction.productId}
    ensures Lifetime(v) ==> r.latestExpiration.None? && r.activeProduct == Some(v.transaction.productId)
    ensures Dated(v) && (s.latestExpiration.None? || Expiry(v) > s.latestExpiration.value) ==>
      r.latestExpiration == Some(Expiry(v)) && r.activeProduct == Some(v.transaction.productId)
    ensures Dated(v) && s.latestExpiration.Some? && Expiry(v) <= s.latestExpiration.value ==>
      r.latestExpiration == s.latestExpiration && r.activeProduct == s.activeProduct
  {
    match CheckVerified(v)
    case None => s
    case Some(t) =>
      var ids := s.purchasedIds + {t.productId};
      match t.expirationDate
      case Some(e) =>
        if s.latestExpiration.None? || e > s.latestExpiration.value
        then Tracking(ids, Some(e), Some(t.productId))
        else Tracking(ids, s.latestExpiration, s.activeProduct)
      case None => Tracking(ids, None, Some(t.productId))
  }

  /** The loop over all entitlements, in order. Whenever a date is tracked a
      product is too, and the current product is always one of the purchased. */
  function Scan(rs: seq<VerificationResult>): (r: Tracking)
    ensures r.latestExpiration.Some? ==> r.activeProduct.Some?
    ensures r.activeProduct.Some? ==> r.activeProduct.value in r.purchasedIds
    decreases |rs|
  {
    if |rs| == 0 then Start else Step(Scan(rs[..|rs| - 1]), rs[|rs| - 1])
  }

  predicate Dated(v: VerificationResult) {
    v.Verified? && v.transaction.expirationDate.Some?
  }

  predicate Lifetime(v: VerificationResult) {
    v.Verified? && v.transaction.expirationDate.None?
  }

  function Expiry(v: VerificationResult): int
    requires Dated(v)
  {
    v.transaction.expirationDate.value
  }

  /** No verified lifetime entitlement comes after position `j`. */
  ghost predicate AfterLastLifetime(rs: seq<VerificationResult>, j: int) {
    forall m :: 0 <= m < |rs| && j < m ==> !Lifetime(rs[m])
  }

  /** Reference definition of the tracked subscription: `w` is a dated
      entitlement after the last lifetime one whose expiry is the latest there,
      and no earlier such entitlement shares that expiry. */
  ghost predicate Governing(rs: seq<VerificationResult>, w: int) {
    && 0 <= w < |rs| && Dated(rs[w]) && AfterLastLifetime(rs, w)
    && forall j :: 0 <= j < |rs| && Dated(rs[j]) && AfterLastLifetime(rs, j) ==>
         Expiry(rs[j]) <= Expiry(rs[w]) && (j < w ==> Expiry(rs[j]) < Expiry(rs[w]))
  }

  /** `k` is the last verified lifetime entitlement. */
  ghost predicate LastLifetime(rs: seq<VerificationResult>, k: int) {
    0 <= k < |rs| && Lifetime(rs[k]) && AfterLastLifetime(rs, k)
  }

  /** `updatePurchaseStatus`. */
  function UpdatePurchaseStatus(rs: seq<VerificationResult>): (st: PurchaseStatus)
    ensures st.purchasedProductIds == set i | 0 <= i < |rs| && rs[i].Verified? :: rs[i].transaction.productId
    ensures st.isPremium <==> exists i :: 0 <= i < |rs| && rs[i].Verified?
    ensures st.premiumExpirationDate.Some? ==>
      exists w :: Governing(rs, w) && st.premiumExpirationDate == Some(Expiry(rs[w]))
        && st.currentPremiumProductId == Some(rs[w].transaction.productId)
    ensures st.premiumExpirationDate.None? ==>
      forall j :: 0 <= j < |rs| && Dated(rs[j]) ==> !AfterLastLifetime(rs, j)
    ensures st.premiumExpirationDate.None? && (exists k :: LastLifetime(rs, k)) ==>
      exists k :: LastLifetime(rs, k) && st.currentPremiumProductId == Some(rs[k].transaction.productId)
    ensures (forall i :: 0 <= i < |rs| ==> !rs[i].Verified?) ==>
      st.premiumExpirationDate.None? && st.currentPremiumProductId.None?
  {
    var t := Scan(rs);
    PurchasedIdsExact(rs);
    PremiumIffVerified(rs);
    ScanMatchesReference(rs);
    PurchaseStatus(t.purchasedIds, t.purchasedIds != {}, t.latestExpiration, t.activeProduct)
  }

  // ---------------------------------------------------------------------------
  // Properties

  /** The purchased set is exactly the ids of verified entitlements. */
  lemma {:induction false} PurchasedIdsExact(rs: seq<VerificationResult>)
    ensures Scan(rs).purchasedIds == set i | 0 <= i < |rs| && rs[i].Verified? :: rs[i].transaction.productId
    decreases |rs|
  {
    if |rs| > 0 {
      var pre := rs[..|rs| - 1];
      PurchasedIdsExact(pre);
      var A := set i | 0 <= i < |pre| && pre[i].Verified? :: pre[i].transaction.productId;
      var B := set i | 0 <= i < |rs| && rs[i].Verified? :: rs[i].transaction.productId;
      assert forall i :: 0 <= i < |pre| ==> pre[i] == rs[i];
      if rs[|rs| - 1].Verified? {
        assert B == A + {rs[|rs| - 1].transaction.productId};
      } else {
        assert B == A;
      }
    }
  }

  /** Some product is purchased exactly when some entitlement is verified. */
  lemma PremiumIffVerified(rs: seq<VerificationResult>)
    ensures (set i | 0 <= i < |rs| && rs[i].Verified? :: rs[i].transaction.productId) != {}
      <==> exists i :: 0 <= i < |rs| && rs[i].Verified?
  {
    var ids := set i | 0 <= i < |rs| && rs[i].Verified? :: rs[i].transaction.productId;
    if exists i :: 0 <= i < |rs| && rs[i].Verified? {
      var i :| 0 <= i < |rs| && rs[i].Verified?;
      assert rs[i].transaction.productId in ids;
    } else {
      assert ids == {};
    }
  }

  /** What the reference definition says of a tracking state after `rs`. */
  ghost predicate Agrees(rs: seq<VerificationResult>, s: Tracking) {
    && (s.latestExpiration.Some? ==>
         exists w :: Governing(rs, w) && s.latestExpiration == Some(Expiry(rs[w]))
           && s.activeProduct == Some(rs[w].transaction.productId))
    && (s.latestExpiration.None? ==>
         forall j :: 0 <= j < |rs| && Dated(rs[j]) ==> !AfterLastLifetime(rs, j))
    && (s.latestExpiration.None? && (exists k :: LastLifetime(rs, k)) ==>
         exists k :: LastLifetime(rs, k) && s.activeProduct == Some(rs[k].transaction.productId))
    && (s.latestExpiration.None? && (forall k :: 0 <= k < |rs| ==> !Lifetime(rs[k])) ==>
         s.activeProduct.None?)
  }

  /** Appending a non-lifetime entitlement leaves earlier positions' standing
      unchanged and puts the new one after the last lifetime entitlement. */
  lemma AfterLastSnocOther(pre: seq<VerificationResult>, v: VerificationResult)
    requires !Lifetime(v)
    ensures forall j :: 0 <= j < |pre| ==>
      (AfterLastLifetime(pre + [v], j) <==> AfterLastLifetime(pre, j))
    ensures AfterLastLifetime(pre + [v], |pre|)
  {
    var rs := pre + [v];
    forall j | 0 <= j < |pre|
      ensures AfterLastLifetime(rs, j) <==> AfterLastLifetime(pre, j)
    {
      if AfterLastLifetime(pre, j) {
        forall m | 0 <= m < |rs| && j < m ensures !Lifetime(rs[m]) {
          if m < |pre| { assert rs[m] == pre[m]; }
        }
      }
      if AfterLastLifetime(rs, j) {
        forall m | 0 <= m < |pre| && j < m ensures !Lifetime(pre[m]) {
          assert rs[m] == pre[m];
        }
      }
    }
  }

  lemma StepUnverified(pre: seq<VerificationResult>, v: VerificationResult, s: Tracking)
    requires !v.Verified? && Agrees(pre, s)
    ensures Agrees(pre + [v], Step(s, v))
  {
    var rs := pre + [v];
    AfterLastSnocOther(pre, v);
    assert forall i :: 0 <= i < |pre| ==> rs[i] == pre[i];
    if s.latestExpiration.Some? {
      var w :| Governing(pre, w) && s.latestExpiration == Some(Expiry(pre[w]))
        && s.activeProduct == Some(pre[w].transaction.productId);
      assert Governing(rs, w);
    } else if exists k :: LastLifetime(rs, k) {
      var k :| LastLifetime(rs, k);
      assert LastLifetime(pre, k);
    }
  }

  lemma StepLifetime(pre: seq<VerificationResult>, v: VerificationResult, s: Tracking)
    requires Lifetime(v)
    ensures Agrees(pre + [v], Step(s, v))
  {
    var rs := pre + [v];
    assert LastLifetime(rs, |pre|);
    forall j | 0 <= j < |rs| && Dated(rs[j]) ensures !AfterLastLifetime(rs, j) {
      assert j < |pre| && Lifetime(rs[|pre|]);
    }
  }

  lemma StepDated(pre: seq<VerificationResult>, v: VerificationResult, s: Tracking)
    requires Dated(v) && Agrees(pre, s)
    ensures Agrees(pre + [v], Step(s, v))
  {
    var rs := pre + [v];
    var n := |pre|;
    AfterLastSnocOther(pre, v);
    assert forall i :: 0 <= i < n ==> rs[i] == pre[i];
    var e := Expiry(v);
    if s.latestExpiration.None? {
      assert Governing(rs, n);
    } else {
      var w :| Governing(pre, w) && s.latestExpiration == Some(Expiry(pre[w]))
        && s.activeProduct == Some(pre[w].transaction.productId);
      if e > s.latestExpiration.value {
        assert Governing(rs, n);
      } else {
        assert Governing(rs, w);
      }
    }
  }

  /** The fold computes the reference definition. */
  lemma {:induction false} ScanMatchesReference(rs: seq<VerificationResult>)
    ensures Agrees(rs, Scan(rs))
    decreases |rs|
  {
    if |rs| > 0 {
      var pre := rs[..|rs| - 1];
      var v := rs[|rs| - 1];
      ScanMatchesReference(pre);
      assert rs == pre + [v];
      if !v.Verified? {
        StepUnverified(pre, v, Scan(pre));
      } else if Lifetime(v) {
        StepLifetime(pre, v, Scan(pre));
      } else {
        StepDated(pre, v, Scan(pre));
      }
    }
  }

  /** A dated entitlement takes over the tracking only when nothing is tracked
      or its date is strictly later. */
  lemma DatedStep(s: Tracking, t: Transaction)
    requires t.expirationDate.Some?
    ensures var s' := Step(s, Verified(t));
      (s'.activeProduct == Some(t.productId) && s'.latestExpiration == t.expirationDate)
      || (s'.latestExpiration == s.latestExpiration && s'.activeProduct == s.activeProduct)
    ensures s.latestExpiration.Some? && t.expirationDate.value <= s.latestExpiration.value ==>
      Step(s, Verified(t)).activeProduct == s.activeProduct
  {
  }

  /** A lifetime entitlement clears the tracked expiration and becomes current. */
  lemma LifetimeStep(s: Tracking, id: string)
    ensures Step(s, Verified(Transaction(id, None))).latestExpiration.None?
    ensures Step(s, Verified(Transaction(id, None))).activeProduct == Some(id)
  {
  }

  /** Order matters: a subscription after a lifetime purchase is reported with
      its date, and a lifetime purchase after a subscription wins. */
  lemma OrderDependence(sub: string, life: string, e: int)
    ensures var a := UpdatePurchaseStatus([Verified(Transaction(life, None)), Verified(Transaction(sub, Some(e)))]);
      a.premiumExpirationDate == Some(e) && a.currentPremiumProductId == Some(sub)
    ensures var b := UpdatePurchaseStatus([Verified(Transaction(sub, Some(e))), Verified(Transaction(life, None))]);
      b.premiumExpirationDate.None? && b.currentPremiumProductId == Some(life)
  {
    var xs := [Verified(Transaction(life, None)), Verified(Transaction(sub, Some(e)))];
    assert xs[..1] == [xs[0]] && xs[..1][..0] == [];
    var ys := [Verified(Transaction(sub, Some(e))), Verified(Transaction(life, None))];
    assert ys[..1] == [ys[0]] && ys[..1][..0] == [];
  }

  /** Unverified results contribute nothing. */
  lemma UnverifiedIgnored(rs: seq<VerificationResult>, err: string)
    ensures Scan(rs + [Unverified(err)]) == Scan(rs)
  {
    assert (rs + [Unverified(err)])[..|rs|] == rs;
  }

  // ---------------------------------------------------------------------------
  // Loaded products

  datatype Product = Product(id: string, displayName: string, displayPrice: string)

  /** Index of the first product satisfying `p`. */
  function FirstWhere(products: seq<Product>, p: Product -> bool): (r: Option<nat>)
    ensures r.Some? ==> r.value < |products| && p(products[r.value])
    ensures r.Some? ==> forall j :: 0 <= j < r.value ==> !p(products[j])
    ensures r.None? ==> forall j :: 0 <= j < |products| ==> !p(products[j])
    decreases |products|
  {
    if |products| == 0 then None
    else if p(products[0]) then Some(0)
    else match FirstWhere(products[1..], p)
      case None => None
      case Some(k) => Some(k + 1)
  }

  /** `product(for:)`: the first loaded product with exactly that id. */
  function ProductFor(products: seq<Product>, id: string): (r: Option<Product>)
    ensures r.None? <==> forall j :: 0 <= j < |products| ==> products[j].id != id
    ensures r.Some? ==> r.value.id == id
    ensures r.Some? ==>
      (exists i :: 0 <= i < |products| && products[i] == r.value
         && forall j :: 0 <= j < i ==> products[j].id != id)
  {
    match FirstWhere(products, (q: Product) => q.id == id)
    case None => None
    case Some(i) => Some(products[i])
  }

  /** `monthlyProduct`, `yearlyProduct`, `lifetimeProduct`: the first loaded
      product whose id contains the plan name. */
  function ProductContaining(products: seq<Product>, plan: string): (r: Option<Product>)
    ensures r.None? <==> forall j :: 0 <= j < |products| ==> !Strings.Contains(products[j].id, plan)
    ensures r.Some? ==> Strings.Contains(r.value.id, plan)
    ensures r.Some? ==>
      (exists i :: 0 <= i < |products| && products[i] == r.value
         && forall j :: 0 <= j < i ==> !Strings.Contains(products[j].id, plan))
  {
    match FirstWhere(products, (q: Product) => Strings.HasSubstring(q.id, plan))
    case None => None
    case Some(i) => Some(products[i])
  }
}
