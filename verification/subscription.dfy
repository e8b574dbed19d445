/** The subscription-management screen: reading the backend's status
    dictionary into a `SubscriptionInfo`, naming tiers and plans, and which
    controls the screen shows. Dates are read by a `parseDate` oracle that
    stands for the two ISO 8601 attempts (with, then without, fractional
    seconds). */
module Subscription {
  import opened Wrappers
  import Strings
  import StoreEntitlements

  /** A value of the decoded JSON dictionary. */
  datatype Json = JString(s: string) | JBool(b: bool) | JNumber(n: int) | JNull | JArray(items: seq<Json>) | JObject

  /** `as? String`. */
  function AsString(v: Json): (r: Option<string>)
    ensures r.Some? <==> v.JString?
  {
    match v
    case JString(s) => Some(s)
    case _ => None
  }

  /** `as? Bool`: a JSON boolean, or a number that bridges to one exactly
      (0 or 1). */
  function AsBool(v: Json): (r: Option<bool>)
    ensures v.JBool? ==> r == Some(v.b)
    ensures v.JNumber? ==> (r.Some? <==> v.n == 0 || v.n == 1) && (r == Some(true) <==> v.n == 1)
    ensures !v.JBool? && !v.JNumber? ==> r.None?
  {
    match v
    case JBool(b) => Some(b)
    case JNumber(n) => if n == 0 then Some(false) else if n == 1 then Some(true) else None
    case _ => None
  }

  function StringField(response: map<string, Json>, key: string): Option<string> {
    if key in response then AsString(response[key]) else None
  }

  function BoolField(response: map<string, Json>, key: string): Option<bool> {
    if key in response then AsBool(response[key]) else None
  }

  datatype SubscriptionInfo = SubscriptionInfo(
    tier: string, isActive: bool, willRenew: bool,
    expirationDate: Option<int>, cancelledAt: Option<int>, status: string)

  /** `loadSubscription` on a successful response: the fields with their
      defaults, and a subscription only for a premium or active user. */
  function LoadSubscription(response: map<string, Json>, parseDate: string -> Option<int>): (r: Option<SubscriptionInfo>)
    ensures r.Some? <==> BoolField(response, "is_premium") == Some(true) || BoolField(response, "is_active") == Some(true)
    ensures r.Some? ==>
      && r.value.tier == StringField(response, "tier").GetOr(StringField(response, "current_tier").GetOr("unknown"))
      && r.value.isActive == BoolField(response, "is_active").GetOr(false)
      && r.value.willRenew == BoolField(response, "will_renew").GetOr(true)
      && r.value.status == StringField(response, "status").GetOr("unknown")
    ensures r.Some? && StringField(response, "expiration_date").None? ==> r.value.expirationDate.None?
    ensures r.Some? && StringField(response, "expiration_date").Some? ==>
      r.value.expirationDate == parseDate(StringField(response, "expiration_date").value)
    ensures r.Some? && StringField(response, "cancelled_at").None? ==> r.value.cancelledAt.None?
    ensures r.Some? && StringField(response, "cancelled_at").Some? ==>
      r.value.cancelledAt == parseDate(StringField(response, "cancelled_at").value)
  {
    var tier := StringField(response, "tier").GetOr(StringField(response, "current_tier").GetOr("unknown"));
    var isActive := BoolField(response, "is_active").GetOr(false);
    var isPremium := BoolField(response, "is_premium").GetOr(false);
    var willRenew := BoolField(response, "will_renew").GetOr(true);
    var status := StringField(response, "status").GetOr("unknown");
    if isPremium || isActive then
      var expiration := match StringField(response, "expiration_date") case Some(s) => parseDate(s) case None => None;
      var cancelled := match StringField(response, "cancelled_at") case Some(s) => parseDate(s) case None => None;
      Some(SubscriptionInfo(tier, isActive, willRenew, expiration, cancelled, status))
    else None
  }

  /** A response that only says the user is premium gets every default: an
      unknown, renewing, inactive subscription with no dates. */
  lemma PremiumOnlyDefaults(parseDate: string -> Option<int>)
    ensures LoadSubscription(map["is_premium" := JBool(true)], parseDate)
      == Some(SubscriptionInfo("unknown", false, true, None, None, "unknown"))
  {
  }

  /** `tier` wins over `current_tier`, which is read only when `tier` is not a string. */
  lemma TierPrecedence(response: map<string, Json>, parseDate: string -> Option<int>, t: string, c: string)
    requires "is_active" in response && response["is_active"] == JBool(true)
    requires "current_tier" in response && response["current_tier"] == JString(c)
    ensures "tier" in response && response["tier"] == JString(t) ==>
      LoadSubscription(response, parseDate).value.tier == t
    ensures ("tier" !in response || !response["tier"].JString?) ==>
      LoadSubscription(response, parseDate).value.tier == c
  {
  }

  /** A flag sent as text is not read as true: no subscription follows. */
  lemma TextualFlagsIgnored(parseDate: string -> Option<int>)
    ensures LoadSubscription(map["is_premium" := JString("true"), "is_active" := JString("true")], parseDate).None?
  {
  }

  // ---------------------------------------------------------------------------
  // Tiers and plans

  /** `productIDToTier`: substring tests in the order yearly, monthly, lifetime. */
  function ProductIdToTier(productId: string): (r: string)
    ensures r == "yearly" <==> Strings.Contains(productId, "yearly")
    ensures r == "monthly" <==> !Strings.Contains(productId, "yearly") && Strings.Contains(productId, "monthly")
    ensures r == "lifetime" <==>
      !Strings.Contains(productId, "yearly") && !Strings.Contains(productId, "monthly") && Strings.Contains(productId, "lifetime")
    ensures r == "unknown" <==>
      !Strings.Contains(productId, "yearly") && !Strings.Contains(productId, "monthly") && !Strings.Contains(productId, "lifetime")
  {
    if Strings.HasSubstring(productId, "yearly") then "yearly"
    else if Strings.HasSubstring(productId, "monthly") then "monthly"
    else if Strings.HasSubstring(productId, "lifetime") then "lifetime"
    else "unknown"
  }

  /** The store's three products map to the tiers their names carry. */
  lemma StoreProductTiers()
    ensures ProductIdToTier(StoreEntitlements.ProductIds[0]) == "monthly"
    ensures ProductIdToTier(StoreEntitlements.ProductIds[1]) == "yearly"
    ensures ProductIdToTier(StoreEntitlements.ProductIds[2]) == "lifetime"
  {
    MonthlyProductTier();
    YearlyProductTier();
    LifetimeProductTier();
  }

  lemma MonthlyProductTier()
    ensures ProductIdToTier(StoreEntitlements.ProductIds[0]) == "monthly"
  {
    var m := StoreEntitlements.ProductIds[0];
    assert Strings.OccursAt(m, "monthly", 15);
    assert m == "brain_dumpster_monthl" + ['y'] + "_premium";
    Strings.AbsentAround("brain_dumpster_monthl", 'y', "_premium", "yearly");
  }

  lemma YearlyProductTier()
    ensures ProductIdToTier(StoreEntitlements.ProductIds[1]) == "yearly"
  {
    assert Strings.OccursAt(StoreEntitlements.ProductIds[1], "yearly", 15);
  }

  lemma LifetimeProductTier()
    ensures ProductIdToTier(StoreEntitlements.ProductIds[2]) == "lifetime"
  {
    var l := StoreEntitlements.ProductIds[2];
    assert Strings.OccursAt(l, "lifetime", 15);
    Strings.AbsentChar(l, "yearly", 0);
    Strings.AbsentChar(l, "monthly", 1);
  }

  /** `planDisplayName`. */
  function PlanDisplayName(tier: string): (r: string)
    ensures tier == "yearly" ==> r == "Yearly Premium"
    ensures tier == "monthly" ==> r == "Monthly Premium"
    ensures tier == "lifetime" ==> r == "Lifetime Premium"
    ensures r == "Premium" <==> tier != "yearly" && tier != "monthly" && tier != "lifetime"
  {
    match tier
    case "yearly" => "Yearly Premium"
    case "monthly" => "Monthly Premium"
    case "lifetime" => "Lifetime Premium"
    case _ => "Premium"
  }

  /** The plan name of a product is the generic one exactly when its id names
      no tier. */
  lemma GenericPlanName(productId: string)
    ensures PlanDisplayName(ProductIdToTier(productId)) == "Premium" <==> ProductIdToTier(productId) == "unknown"
  {
  }

  // ---------------------------------------------------------------------------
  // Controls

  /** The cancel button: an active subscription that will renew and is not lifetime. */
  predicate ShowsCancel(s: SubscriptionInfo) {
    s.isActive && s.willRenew && s.tier != "lifetime"
  }

  /** The auto-renewal row. */
  predicate ShowsAutoRenewal(s: SubscriptionInfo) {
    s.tier != "lifetime"
  }

  /** The plan comparison, decided by the status rather than the tier. */
  predicate ShowsPlans(s: SubscriptionInfo) {
    s.status != "lifetime"
  }

  /** A lifetime tier can never be cancelled, and whenever cancel is offered
      the auto-renewal row is on screen too; the plans can still show for a
      lifetime tier whose status says otherwise. */
  lemma ControlsAgree(s: SubscriptionInfo)
    ensures ShowsCancel(s) ==> ShowsAutoRenewal(s) && s.willRenew
    ensures s.tier == "lifetime" ==> !ShowsCancel(s) && !ShowsAutoRenewal(s)
    ensures s.tier == "lifetime" && s.status == "active" ==> ShowsPlans(s)
  {
  }

  /** The cancel button shows on a loaded subscription exactly when the response
      marks it active, does not turn renewal off, and names a tier other than
      lifetime. */
  lemma CancelFromResponse(response: map<string, Json>, parseDate: string -> Option<int>)
    requires LoadSubscription(response, parseDate).Some?
    ensures var s := LoadSubscription(response, parseDate).value;
      ShowsCancel(s) <==>
        BoolField(response, "is_active") == Some(true)
        && BoolField(response, "will_renew") != Some(false)
        && s.tier != "lifetime"
  {
  }
}
