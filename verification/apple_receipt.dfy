/** Server-side receipt verification for the premium products: the redirect
    protocol of Apple's verifyReceipt service (production first, one sandbox
    retry on status 21007), the resolver that picks the governing purchase,
    and the route handler that maps outcomes to HTTP statuses.

    The upstream service is an oracle `Call -> Upstream`; time is an integer
    count of milliseconds and "now" is a parameter, so every operation is a
    pure function of its inputs. Every place where the Python code raises on
    a value of the wrong JSON type is modelled as a raise, which the handler
    turns into status 500. */
module AppleReceipt {
  import opened Wrappers
  import Strings

  const ExpectedBundleId: string := "com.braindumpster.app"
  const SharedSecret: string := "your_app_specific_shared_secret_here"
  const MonthlyId: string := "brain_dumpster_monthly_premium"
  const YearlyId: string := "brain_dumpster_yearly_premium"
  const LifetimeId: string := "brain_dumpster_lifetime_premium"

  /** The catalog of premium products; the lifetime one never expires. */
  const PremiumProducts: seq<string> := [MonthlyId, YearlyId, LifetimeId]

  /** Seconds allowed for each upstream call. */
  const UpstreamTimeout: int := 30

  const StatusSuccess: int := 0
  /** "This receipt is from the test environment": retry against sandbox. */
  const StatusSandboxReceipt: int := 21007

  /** Human messages for the authority's status codes. */
  const StatusMessages: map<int, string> := map[
    0 := "Success",
    21000 := "The App Store could not read the JSON object you provided",
    21002 := "The data in the receipt-data property was malformed or missing",
    21003 := "The receipt could not be authenticated",
    21004 := "The shared secret you provided does not match",
    21005 := "The receipt server is not currently available",
    21006 := "This receipt is valid but the subscription has expired",
    21007 := "This receipt is from the test environment",
    21008 := "This receipt is from the production environment",
    21009 := "Internal data access error. Try again later",
    21010 := "The user account cannot be found or has been deleted"
  ]

  // ---------------------------------------------------------------------------
  // Data model

  /** A purchase's `expires_date_ms` as the scan reads it: falsy (absent, null,
      "", 0), a value `int()` accepts together with the number it yields, or a
      truthy value `int()` rejects (a non-numeric string, an array, an object). */
  datatype Expiry = NoExpiry | Millis(ms: int) | Malformed

  /** One entry of `in_app` or `latest_receipt_info`. `productId` is `None` when
      `product_id` is absent, null or not a string; an entry that is not a JSON
      object at all is `NotAnObject`. */
  datatype Purchase = Purchase(productId: Option<string>, expires: Expiry) | NotAnObject

  /** A key the code reads with `dict.get(key, default)`: absent (the default
      applies), present with a value of the type the code needs, or present
      with null or a value of another JSON type. */
  datatype Field<T> = Absent | Present(value: T) | Unusable

  /** The `receipt` section. `bundleId` is `None` when `bundle_id` is absent,
      null or not a string. */
  datatype Receipt = Receipt(bundleId: Option<string>, inApp: Field<seq<Purchase>>)

  /** The authority's JSON answer, reduced to the fields the resolver reads.
      `status` is `None` when the key is absent or null. */
  datatype Payload = Payload(
    status: Option<int>,
    receipt: Field<Receipt>,
    environment: Field<string>,
    latestReceiptInfo: Field<seq<Purchase>>)

  datatype Endpoint = Production | Sandbox

  /** The JSON body posted upstream, with the timeout of the call. */
  datatype AppleRequest = AppleRequest(
    receiptData: string,
    password: string,
    excludeOldTransactions: bool,
    timeoutSeconds: int)

  datatype Call = Call(endpoint: Endpoint, request: AppleRequest)

  /** What one upstream call yields: a timeout, any other exception (connection
      error, a body that is not JSON or not a JSON object), or a decoded answer. */
  datatype Upstream = Timeout | Failure | Answer(payload: Payload)

  /** The result dictionary; absent keys are `None`. The expiry is kept as the
      millisecond count the reported date is rendered from. */
  datatype Outcome = Outcome(
    success: bool,
    isPremium: bool,
    productId: Option<string>,
    expirationMs: Option<int>,
    environment: Option<string>,
    message: string)

  /** What `verify_with_apple` does: return a result or raise. */
  datatype Raised = TimedOut | Crashed
  datatype VerifyResult = Returned(outcome: Outcome) | Raise(error: Raised)

  /** A verification together with the upstream calls it issued, in order. */
  datatype Verification = Verification(result: VerifyResult, calls: seq<Call>)

  /** The purchase `find_active_premium` selects. */
  datatype ActiveProduct = ActiveProduct(productId: string, expiresMs: Option<int>)

  /** What `find_active_premium` does: return a purchase, return `None`, or raise. */
  datatype Selection = Active(product: ActiveProduct) | NoActive | ScanRaised

  function Failed(message: string): (o: Outcome)
    ensures !o.success && !o.isPremium && o.productId.None?
    ensures o.expirationMs.None? && o.environment.None? && o.message == message
  {
    Outcome(false, false, None, None, None, message)
  }

  // ---------------------------------------------------------------------------
  // Resolver

  /** An object entry naming a catalog product. */
  predicate Premium(p: Purchase) {
    p.Purchase? && p.productId.Some? && p.productId.value in PremiumProducts
  }

  predicate IsLifetime(p: Purchase) {
    p.Purchase? && p.productId == Some(LifetimeId)
  }

  /** A purchase is active when its product is in the catalog and it is either
      the lifetime product or a subscription expiring strictly after `now`. */
  predicate Qualifies(p: Purchase, now: int) {
    && Premium(p)
    && (p.productId.value == LifetimeId || (p.expires.Millis? && p.expires.ms > now))
  }

  /** An entry on which the scan raises: it is not an object, or it is a catalog
      subscription whose expiry `int()` rejects. */
  predicate Raises(p: Purchase) {
    || p.NotAnObject?
    || (Premium(p) && p.productId.value != LifetimeId && p.expires.Malformed?)
  }

  /** An entry at which the scan ends, by returning or by raising. */
  predicate Stops(p: Purchase, now: int) {
    Qualifies(p, now) || Raises(p)
  }

  /** The record reported for a qualifying purchase: lifetime carries no expiry. */
  function Selected(p: Purchase, now: int): (a: ActiveProduct)
    requires Qualifies(p, now)
    ensures a.productId == p.productId.value
    ensures a.expiresMs.None? <==> p.productId.value == LifetimeId
    ensures a.expiresMs.Some? ==> p.expires.Millis? && a.expiresMs.value == p.expires.ms
  {
    if p.productId.value == LifetimeId then ActiveProduct(LifetimeId, None)
    else ActiveProduct(p.productId.value, Some(p.expires.ms))
  }

  /** Index of the first entry at which the scan stops, in list order. */
  function FirstStop(ps: seq<Purchase>, now: int): (r: Option<nat>)
    ensures r.Some? ==> r.value < |ps| && Stops(ps[r.value], now)
    ensures r.Some? ==> forall j :: 0 <= j < r.value ==> !Stops(ps[j], now)
    ensures r.None? ==> forall j :: 0 <= j < |ps| ==> !Stops(ps[j], now)
    decreases |ps|
  {
    if |ps| == 0 then None
    else if Stops(ps[0], now) then Some(0)
    else
      match FirstStop(ps[1..], now)
      case None => None
      case Some(k) => Some(k + 1)
  }

  /** Any entry that stops the scan with no stopping entry before it is the
      one `FirstStop` finds. */
  lemma FirstStopAt(ps: seq<Purchase>, k: nat, now: int)
    requires k < |ps| && Stops(ps[k], now)
    requires forall j :: 0 <= j < k ==> !Stops(ps[j], now)
    ensures FirstStop(ps, now) == Some(k)
  {
  }

  /** `find_active_premium`: the first purchase in list order that qualifies,
      unless an entry before it makes the scan raise. */
  function FindActivePremium(ps: seq<Purchase>, now: int): (r: Selection)
    ensures r.NoActive? <==> forall i :: 0 <= i < |ps| ==> !Stops(ps[i], now)
    ensures r.Active? <==> exists i :: 0 <= i < |ps| && Qualifies(ps[i], now) && (forall j :: 0 <= j < i ==> !Stops(ps[j], now))
    ensures r.Active? ==> exists i :: 0 <= i < |ps| && Qualifies(ps[i], now) && (forall j :: 0 <= j < i ==> !Stops(ps[j], now))
                                   && r.product == Selected(ps[i], now)
    ensures r.ScanRaised? <==> exists i :: 0 <= i < |ps| && Raises(ps[i]) && (forall j :: 0 <= j < i ==> !Stops(ps[j], now))
    ensures r.Active? ==> r.product.productId in PremiumProducts
    ensures r.Active? ==> (r.product.expiresMs.None? <==> r.product.productId == LifetimeId)
    ensures r.Active? && r.product.expiresMs.Some? ==> r.product.expiresMs.value > now
  {
    match FirstStop(ps, now)
    case None => NoActive
    case Some(i) =>
      if Qualifies(ps[i], now) then Active(Selected(ps[i], now)) else ScanRaised
  }

  /** The receipt section as `get('receipt', {})` reads it; `None` when it is null
      or not an object, so that reading `bundle_id` raises. */
  function ReceiptOf(f: Field<Receipt>): Option<Receipt> {
    match f
    case Absent => Some(Receipt(None, Absent))
    case Present(r) => Some(r)
    case Unusable => None
  }

  /** A purchase list as `get(key, [])` reads it; `None` when the value cannot be
      concatenated with a list. */
  function ListOf(f: Field<seq<Purchase>>): Option<seq<Purchase>> {
    match f
    case Absent => Some([])
    case Present(ps) => Some(ps)
    case Unusable => None
  }

  /** The environment as `get('environment', 'Production')` reads it. */
  function EnvironmentOr(f: Field<string>): string {
    match f
    case Absent => "Production"
    case Present(e) => e
    case Unusable => ""
  }

  /** The receipt section can be read and names the app's bundle. */
  predicate BundleMatches(p: Payload) {
    ReceiptOf(p.receipt).Some? && ReceiptOf(p.receipt).value.bundleId == Some(ExpectedBundleId)
  }

  /** The candidate list: `in_app` followed by `latest_receipt_info`, without
      deduplication; `None` when the section or either list cannot be used. */
  function Candidates(p: Payload): Option<seq<Purchase>> {
    match ReceiptOf(p.receipt)
    case None => None
    case Some(r) =>
      if ListOf(r.inApp).Some? && ListOf(p.latestReceiptInfo).Some?
      then Some(ListOf(r.inApp).value + ListOf(p.latestReceiptInfo).value)
      else None
  }

  /** `parse_apple_response`: the bundle check, then the candidate scan. */
  function ParseAppleResponse(p: Payload, now: int): (v: VerifyResult)
    ensures v.Raise? ==> v.error == Crashed
    ensures v.Raise? <==>
      || ReceiptOf(p.receipt).None?
      || (BundleMatches(p) && Candidates(p).None?)
      || (BundleMatches(p) && Candidates(p).Some? && FindActivePremium(Candidates(p).value, now).ScanRaised?)
      || (BundleMatches(p) && Candidates(p).Some? && FindActivePremium(Candidates(p).value, now).Active?
          && p.environment.Unusable?)
    ensures v.Returned? ==> (v.outcome.success <==> BundleMatches(p))
    ensures v.Returned? && !v.outcome.success ==> v.outcome == Failed("Bundle ID mismatch")
    ensures v.Returned? && v.outcome.isPremium ==>
      && v.outcome.success && Candidates(p).Some? && v.outcome.productId.Some?
      && FindActivePremium(Candidates(p).value, now) == Active(ActiveProduct(v.outcome.productId.value, v.outcome.expirationMs))
      && v.outcome.environment == Some(Strings.Lower(EnvironmentOr(p.environment)))
      && v.outcome.message == "Receipt verified successfully"
    ensures (BundleMatches(p) && Candidates(p).Some? && FindActivePremium(Candidates(p).value, now).Active?
             && !p.environment.Unusable?) ==> v.Returned? && v.outcome.isPremium
    ensures v.Returned? && v.outcome.success && !v.outcome.isPremium ==>
      && v.outcome.productId.None? && v.outcome.expirationMs.None? && v.outcome.environment.None?
      && (v.outcome.message == "No purchases found" <==> Candidates(p) == Some([]))
      && (v.outcome.message == "No active subscriptions" <==>
            Candidates(p).Some? && |Candidates(p).value| > 0 && FindActivePremium(Candidates(p).value, now).NoActive?)
  {
    match ReceiptOf(p.receipt)
    case None => Raise(Crashed)
    case Some(r) =>
      if r.bundleId != Some(ExpectedBundleId) then Returned(Failed("Bundle ID mismatch"))
      else
        match Candidates(p)
        case None => Raise(Crashed)
        case Some(all) =>
          if |all| == 0 then Returned(Outcome(true, false, None, None, None, "No purchases found"))
          else
            match FindActivePremium(all, now)
            case Active(a) =>
              if p.environment.Unusable? then Raise(Crashed)
              else
                Returned(Outcome(true, true, Some(a.productId), a.expiresMs,
                                 Some(Strings.Lower(EnvironmentOr(p.environment))),
                                 "Receipt verified successfully"))
            case NoActive => Returned(Outcome(true, false, None, None, None, "No active subscriptions"))
            case ScanRaised => Raise(Crashed)
  }

  // ---------------------------------------------------------------------------
  // Verifier

  /** The message for a final status other than success. */
  function StatusMessage(status: Option<int>): (m: string)
    ensures status.Some? && status.value in StatusMessages ==> m == StatusMessages[status.value]
    ensures status.Some? && status.value !in StatusMessages ==>
      m == "Unknown error (status " + Strings.IntToString(status.value) + ")"
    ensures status.None? ==> m == "Unknown error (status None)"
  {
    match status
    case Some(c) =>
      if c in StatusMessages then StatusMessages[c]
      else "Unknown error (status " + Strings.IntToString(c) + ")"
    case None => "Unknown error (status None)"
  }

  /** The body posted for a receipt: it carries the shared secret and asks to
      exclude old transactions. */
  function RequestFor(receiptData: string): AppleRequest {
    AppleRequest(receiptData, SharedSecret, true, UpstreamTimeout)
  }

  /** What a final answer turns into: status 0 goes to the resolver, anything
      else is a terminal failure with the table's message. */
  function Finish(p: Payload, now: int): (v: VerifyResult)
    ensures p.status != Some(StatusSuccess) ==>
      v.Returned? && !v.outcome.success && !v.outcome.isPremium && v.outcome.productId.None?
    ensures v.Raise? ==> p.status == Some(StatusSuccess) && v.error == Crashed
    ensures v.Returned? && v.outcome.success ==> p.status == Some(StatusSuccess) && BundleMatches(p)
    ensures v.Returned? && v.outcome.isPremium ==>
      p.status == Some(StatusSuccess) && Candidates(p).Some?
      && FindActivePremium(Candidates(p).value, now).Active?
    ensures p.status != Some(StatusSuccess) ==> v.outcome.message == StatusMessage(p.status)
    ensures p.status == Some(StatusSuccess) ==> v == ParseAppleResponse(p, now)
  {
    if p.status == Some(StatusSuccess) then ParseAppleResponse(p, now)
    else Returned(Failed(StatusMessage(p.status)))
  }

  /** Outcome of an upstream answer that is final (no further call follows). */
  function Conclude(u: Upstream, now: int): VerifyResult {
    match u
    case Timeout => Raise(TimedOut)
    case Failure => Raise(Crashed)
    case Answer(p) => Finish(p, now)
  }

  /** The last call of a non-empty trace. */
  function LastCall(calls: seq<Call>): Call
    requires |calls| > 0
  {
    calls[|calls| - 1]
  }

  /** `verify_with_apple`: production first; on status 21007 exactly one sandbox
      call with the same request; the last answer decides the outcome. */
  function VerifyWithApple(receiptData: string, upstream: Call -> Upstream, now: int): (v: Verification)
    ensures 1 <= |v.calls| <= 2
    ensures v.calls[0] == Call(Production, RequestFor(receiptData))
    ensures |v.calls| == 2 <==>
      (upstream(v.calls[0]).Answer? && upstream(v.calls[0]).payload.status == Some(StatusSandboxReceipt))
    ensures |v.calls| == 2 ==> v.calls[1] == Call(Sandbox, v.calls[0].request)
    ensures v.result == Conclude(upstream(LastCall(v.calls)), now)
  {
    var first := Call(Production, RequestFor(receiptData));
    var u := upstream(first);
    if u.Answer? && u.payload.status == Some(StatusSandboxReceipt) then
      var second := Call(Sandbox, first.request);
      Verification(Conclude(upstream(second), now), [first, second])
    else
      Verification(Conclude(u, now), [first])
  }

  // ---------------------------------------------------------------------------
  // Route handler

  /** A JSON value of the request body. Numbers are integers, and an array is
      reduced to its length: the handler only tests an array's truthiness. */
  datatype Json = JNull | JBool(b: bool) | JNum(n: int) | JStr(s: string) | JArray(len: nat)
                | JObject(fields: map<string, Json>)

  /** Python truthiness of a decoded JSON value. */
  predicate Truthy(j: Json) {
    match j
    case JNull => false
    case JBool(b) => b
    case JNum(n) => n != 0
    case JStr(s) => s != ""
    case JArray(len) => len > 0
    case JObject(m) => |m| > 0
  }

  /** `dict.get(key)`: the value under the key, or null when it is absent. */
  function Get(m: map<string, Json>, key: string): Json {
    if key in m then m[key] else JNull
  }

  /** The `userId` of a body that is an object, and null otherwise. */
  function UserIdOf(body: Option<Json>): Json {
    if body.Some? && body.value.JObject? then Get(body.value.fields, "userId") else JNull
  }

  /** The arguments handed to the persistence collaborator. */
  datatype SaveRecord = SaveRecord(
    userId: Json,
    productId: Option<string>,
    expirationMs: Option<int>,
    environment: Option<string>)

  datatype HandlerResult = HandlerResult(
    httpStatus: int,
    body: Outcome,
    calls: seq<Call>,
    saved: Option<SaveRecord>)

  /** The handler's checks before any upstream call: refuse with a message,
      raise on a value of the wrong type, or go on with the receipt string. */
  datatype Gate = Refuse(message: string) | GateRaised | Proceed(receiptData: string)

  function Precheck(body: Option<Json>): (g: Gate)
    ensures (g == Refuse("Missing request body")) <==> body.None? || !Truthy(body.value)
    ensures g.Proceed? ==>
      && body.Some? && body.value.JObject?
      && Get(body.value.fields, "receiptData") == JStr(g.receiptData) && g.receiptData != ""
      && (!Truthy(Get(body.value.fields, "bundleId")) || Get(body.value.fields, "bundleId") == JStr(ExpectedBundleId))
    ensures body.Some? && Truthy(body.value) && body.value.JObject? && !Truthy(Get(body.value.fields, "receiptData")) ==>
      g == Refuse("Missing receipt data")
    ensures body.Some? && Truthy(body.value) && !body.value.JObject? ==> g.GateRaised?
    ensures (body.Some? && body.value.JObject? && Truthy(Get(body.value.fields, "receiptData"))
             && !Get(body.value.fields, "receiptData").JStr?) ==> g.GateRaised?
    ensures g.Refuse? ==> g.message in {"Missing request body", "Missing receipt data", "Invalid bundle ID"}
  {
    if body.None? || !Truthy(body.value) then Refuse("Missing request body")
    else if !body.value.JObject? then GateRaised
    else
      var m := body.value.fields;
      var receipt := Get(m, "receiptData");
      var bundle := Get(m, "bundleId");
      if !Truthy(receipt) then Refuse("Missing receipt data")
      else if !receipt.JStr? then GateRaised
      else if "deviceInfo" in m && !m["deviceInfo"].JObject? then GateRaised
      else if Truthy(bundle) && bundle != JStr(ExpectedBundleId) then Refuse("Invalid bundle ID")
      else Proceed(receipt.s)
  }

  /** `verify_receipt`: validate, verify, persist a premium result for a known
      user, and map the outcome to 200/400/504/500. */
  function HandleVerifyReceipt(body: Option<Json>, upstream: Call -> Upstream, now: int): (r: HandlerResult)
    ensures r.httpStatus in {200, 400, 500, 504}
    ensures Precheck(body).Refuse? ==> r == HandlerResult(400, Failed(Precheck(body).message), [], None)
    ensures Precheck(body).GateRaised? ==> r == HandlerResult(500, Failed("Internal server error"), [], None)
    ensures r.calls != [] <==> Precheck(body).Proceed?
    ensures Precheck(body).Proceed? ==> r.calls == VerifyWithApple(Precheck(body).receiptData, upstream, now).calls
    ensures Precheck(body).Proceed? && VerifyWithApple(Precheck(body).receiptData, upstream, now).result.Returned? ==>
      r.body == VerifyWithApple(Precheck(body).receiptData, upstream, now).result.outcome
    ensures r.httpStatus == 200 <==> r.body.success
    ensures !r.body.success ==> !r.body.isPremium
    ensures r.httpStatus == 504 <==> r.calls != [] && upstream(LastCall(r.calls)).Timeout?
    ensures r.httpStatus == 504 ==> r.body == Failed("Request timed out")
    ensures r.httpStatus == 500 <==>
      Precheck(body).GateRaised? ||
      (Precheck(body).Proceed? && VerifyWithApple(Precheck(body).receiptData, upstream, now).result == Raise(Crashed))
    ensures r.httpStatus == 500 ==> r.body == Failed("Internal server error")
    ensures r.saved.Some? <==> r.body.success && r.body.isPremium && Truthy(UserIdOf(body))
    ensures r.saved.Some? ==> r.saved.value == SaveRecord(UserIdOf(body), r.body.productId,
                                                           r.body.expirationMs, r.body.environment)
  {
    match Precheck(body)
    case Refuse(msg) => HandlerResult(400, Failed(msg), [], None)
    case GateRaised => HandlerResult(500, Failed("Internal server error"), [], None)
    case Proceed(receiptData) =>
      var v := VerifyWithApple(receiptData, upstream, now);
      match v.result
      case Raise(TimedOut) => HandlerResult(504, Failed("Request timed out"), v.calls, None)
      case Raise(Crashed) => HandlerResult(500, Failed("Internal server error"), v.calls, None)
      case Returned(o) =>
        var user := UserIdOf(body);
        var saved :=
          if o.success && o.isPremium && Truthy(user)
          then Some(SaveRecord(user, o.productId, o.expirationMs, o.environment))
          else None;
        HandlerResult(if o.success then 200 else 400, o, v.calls, saved)
  }

  // ---------------------------------------------------------------------------
  // Properties

  /** A subscription expiring exactly at `now` is not active. */
  lemma ExpiryIsStrict(id: string, now: int)
    requires id in PremiumProducts && id != LifetimeId
    ensures !Qualifies(Purchase(Some(id), Millis(now)), now)
    ensures FindActivePremium([Purchase(Some(id), Millis(now))], now).NoActive?
    ensures Qualifies(Purchase(Some(id), Millis(now + 1)), now)
  {
  }

  /** Purchases outside the catalog and subscriptions without an expiry are
      passed over; a catalog subscription with an unreadable expiry, or an
      entry that is not an object, ends the scan by raising. */
  lemma SkippedEntries(p: Purchase, now: int)
    ensures p.Purchase? && p.productId.None? ==> !Stops(p, now)
    ensures p.Purchase? && p.productId.Some? && p.productId.value !in PremiumProducts ==> !Stops(p, now)
    ensures Premium(p) && p.productId.value != LifetimeId && p.expires.NoExpiry? ==> !Stops(p, now)
    ensures Premium(p) && p.productId.value != LifetimeId && p.expires.Malformed? ==> Raises(p) && !Qualifies(p, now)
    ensures p.NotAnObject? ==> Raises(p)
  {
  }

  /** Entries that do not stop the scan, in front of the list, only shift the
      index of the entry where it stops. */
  lemma NonQualifyingPrefixIgnored(pre: seq<Purchase>, ps: seq<Purchase>, now: int)
    requires forall j :: 0 <= j < |pre| ==> !Stops(pre[j], now)
    ensures FirstStop(pre + ps, now) ==
      (match FirstStop(ps, now) case None => None case Some(k) => Some(k + |pre|))
    ensures FindActivePremium(pre + ps, now) == FindActivePremium(ps, now)
  {
    FirstStopSkipsPrefix(pre, ps, now);
    match FirstStop(ps, now)
    case None =>
    case Some(k) => assert (pre + ps)[k + |pre|] == ps[k];
  }

  lemma {:induction false} FirstStopSkipsPrefix(pre: seq<Purchase>, ps: seq<Purchase>, now: int)
    requires forall j :: 0 <= j < |pre| ==> !Stops(pre[j], now)
    ensures FirstStop(pre + ps, now) ==
      (match FirstStop(ps, now) case None => None case Some(k) => Some(k + |pre|))
    decreases |pre|
  {
    if |pre| > 0 {
      assert (pre + ps)[1..] == pre[1..] + ps;
      FirstStopSkipsPrefix(pre[1..], ps, now);
      assert !Stops((pre + ps)[0], now);
    } else {
      assert pre + ps == ps;
    }
  }

  /** Without entries that make the scan raise, a product is found exactly when
      some purchase qualifies. */
  lemma ActiveIffSomeQualifies(ps: seq<Purchase>, now: int)
    requires forall i :: 0 <= i < |ps| ==> !Raises(ps[i])
    ensures FindActivePremium(ps, now).Active? <==> exists i :: 0 <= i < |ps| && Qualifies(ps[i], now)
    ensures !FindActivePremium(ps, now).ScanRaised?
  {
    if i :| 0 <= i < |ps| && Qualifies(ps[i], now) {
      var k := FirstStop(ps, now).value;
      assert Qualifies(ps[k], now);
    }
  }

  /** A lifetime entry beats every subscription that is not active, wherever it sits. */
  lemma LifetimeBeatsInactive(ps: seq<Purchase>, k: nat, now: int)
    requires k < |ps| && IsLifetime(ps[k])
    requires forall j :: 0 <= j < |ps| && !IsLifetime(ps[j]) ==> !Stops(ps[j], now)
    ensures FindActivePremium(ps, now) == Active(ActiveProduct(LifetimeId, None))
  {
    assert Qualifies(ps[k], now);
  }

  /** An active subscription earlier in the list is chosen over a later lifetime entry. */
  lemma EarlierActiveSubscriptionWins(ps: seq<Purchase>, i: nat, k: nat, now: int)
    requires i < k < |ps|
    requires IsLifetime(ps[k])
    requires Qualifies(ps[i], now) && !IsLifetime(ps[i])
    requires forall j :: 0 <= j < i ==> !Stops(ps[j], now)
    ensures FindActivePremium(ps, now) == Active(ActiveProduct(ps[i].productId.value, Some(ps[i].expires.ms)))
    ensures FindActivePremium(ps, now).product.productId != LifetimeId
  {
    FirstStopAt(ps, i, now);
  }

  /** Of two active subscriptions the earlier one is selected, in both orders. */
  lemma FirstOfTwoActiveWins(a: Purchase, b: Purchase, now: int)
    requires Qualifies(a, now) && Qualifies(b, now)
    ensures FindActivePremium([a, b], now) == Active(Selected(a, now))
    ensures FindActivePremium([b, a], now) == Active(Selected(b, now))
  {
    assert FirstStop([a, b], now) == Some(0);
    assert FirstStop([b, a], now) == Some(0);
  }

  /** A readable receipt with a wrong or missing bundle id fails, whatever
      purchases and environment the payload holds. */
  lemma BundleMismatchIsFatal(p: Payload, now: int)
    requires ReceiptOf(p.receipt).Some? && ReceiptOf(p.receipt).value.bundleId != Some(ExpectedBundleId)
    ensures ParseAppleResponse(p, now) == Returned(Failed("Bundle ID mismatch"))
  {
  }

  /** Absent purchase lists read as empty: a matching receipt without them is a
      successful, non-premium outcome. */
  lemma EmptyPurchasesSucceed(p: Payload, now: int)
    requires p.receipt == Present(Receipt(Some(ExpectedBundleId), Absent))
          || p.receipt == Present(Receipt(Some(ExpectedBundleId), Present([])))
    requires p.latestReceiptInfo == Absent || p.latestReceiptInfo == Present([])
    ensures ParseAppleResponse(p, now) == Returned(Outcome(true, false, None, None, None, "No purchases found"))
  {
  }

  /** Purchases present but none stopping the scan: success, not premium, with
      the "No active subscriptions" message rather than "No purchases found". */
  lemma OnlyForeignPurchases(p: Payload, now: int)
    requires BundleMatches(p) && Candidates(p).Some? && |Candidates(p).value| > 0
    requires forall i :: 0 <= i < |Candidates(p).value| ==> !Stops(Candidates(p).value[i], now)
    ensures ParseAppleResponse(p, now) == Returned(Outcome(true, false, None, None, None, "No active subscriptions"))
  {
  }

  /** `in_app` entries take precedence over `latest_receipt_info` entries: the
      first `in_app` entry at which the scan stops decides, whatever the latest
      receipt info holds. */
  lemma InAppBeforeLatest(p: Payload, k: nat, now: int)
    requires BundleMatches(p) && Candidates(p).Some?
    requires var inApp := ListOf(ReceiptOf(p.receipt).value.inApp).value;
      && k < |inApp| && Qualifies(inApp[k], now)
      && forall j :: 0 <= j < k ==> !Stops(inApp[j], now)
    requires !p.environment.Unusable?
    ensures var inApp := ListOf(ReceiptOf(p.receipt).value.inApp).value;
      var v := ParseAppleResponse(p, now);
      && v.Returned? && v.outcome.isPremium
      && Active(ActiveProduct(v.outcome.productId.value, v.outcome.expirationMs)) == Active(Selected(inApp[k], now))
  {
    var inApp := ListOf(ReceiptOf(p.receipt).value.inApp).value;
    var all := Candidates(p).value;
    assert all == inApp + ListOf(p.latestReceiptInfo).value;
    assert all[k] == inApp[k];
    assert forall j :: 0 <= j < k ==> all[j] == inApp[j];
    FirstStopAt(all, k, now);
  }

  /** A sandbox answer of 21007 is not followed again: the verification fails
      with the table's message after exactly two calls. */
  lemma NoRedirectLoop(receiptData: string, upstream: Call -> Upstream, now: int, p1: Payload, p2: Payload)
    requires upstream(Call(Production, RequestFor(receiptData))) == Answer(p1)
    requires p1.status == Some(StatusSandboxReceipt)
    requires upstream(Call(Sandbox, RequestFor(receiptData))) == Answer(p2)
    requires p2.status == Some(StatusSandboxReceipt)
    ensures var v := VerifyWithApple(receiptData, upstream, now);
      && |v.calls| == 2
      && v.result == Returned(Failed("This receipt is from the test environment"))
  {
  }

  /** A sandbox success is resolved from the sandbox payload. */
  lemma SandboxFallbackResolves(receiptData: string, upstream: Call -> Upstream, now: int, p1: Payload, p2: Payload)
    requires upstream(Call(Production, RequestFor(receiptData))) == Answer(p1)
    requires p1.status == Some(StatusSandboxReceipt)
    requires upstream(Call(Sandbox, RequestFor(receiptData))) == Answer(p2)
    requires p2.status == Some(StatusSuccess)
    ensures VerifyWithApple(receiptData, upstream, now).result == ParseAppleResponse(p2, now)
  {
  }

  /** Any final status other than 0 is a failure carrying the table's message, or
      "Unknown error (status N)" for an unlisted code. */
  lemma RejectedStatusMessage(p: Payload, now: int, code: int)
    requires p.status == Some(code) && code != StatusSuccess
    ensures Finish(p, now).Returned?
    ensures !Finish(p, now).outcome.success && !Finish(p, now).outcome.isPremium
    ensures code in StatusMessages ==> Finish(p, now).outcome.message == StatusMessages[code]
    ensures code !in StatusMessages ==> Finish(p, now).outcome.message == "Unknown error (status " + Strings.IntToString(code) + ")"
  {
  }

  /** A production timeout is not followed by a sandbox call. */
  lemma TimeoutDoesNotFallBack(receiptData: string, upstream: Call -> Upstream, now: int)
    requires upstream(Call(Production, RequestFor(receiptData))) == Timeout
    ensures VerifyWithApple(receiptData, upstream, now) ==
      Verification(Raise(TimedOut), [Call(Production, RequestFor(receiptData))])
  {
  }

  /** The client's bundle id is checked only when it is truthy: a foreign one is
      refused before any upstream call, an absent, null or empty one lets the
      request through. */
  lemma ClientBundleCheck(m: map<string, Json>, receiptData: string, upstream: Call -> Upstream, now: int)
    requires Get(m, "receiptData") == JStr(receiptData) && receiptData != ""
    requires "deviceInfo" !in m
    ensures var r := HandleVerifyReceipt(Some(JObject(m)), upstream, now);
      (Truthy(Get(m, "bundleId")) && Get(m, "bundleId") != JStr(ExpectedBundleId)) <==>
        (r.httpStatus == 400 && r.calls == [] && r.body.message == "Invalid bundle ID")
    ensures !Truthy(Get(m, "bundleId")) || Get(m, "bundleId") == JStr(ExpectedBundleId) ==>
      HandleVerifyReceipt(Some(JObject(m)), upstream, now).calls != []
  {
    assert Truthy(JObject(m));
  }

  /** A body whose receipt key holds null is a non-empty object: it is refused
      as missing its receipt, not as missing its body. */
  lemma NullReceiptData(upstream: Call -> Upstream, now: int)
    ensures HandleVerifyReceipt(Some(JObject(map["receiptData" := JNull])), upstream, now)
              == HandlerResult(400, Failed("Missing receipt data"), [], None)
    ensures HandleVerifyReceipt(Some(JObject(map[])), upstream, now)
              == HandlerResult(400, Failed("Missing request body"), [], None)
  {
    NullReceiptRefused();
  }

  lemma NullReceiptRefused()
    ensures Precheck(Some(JObject(map["receiptData" := JNull]))) == Refuse("Missing receipt data")
    ensures Precheck(Some(JObject(map[]))) == Refuse("Missing request body")
  {
    assert Get(map["receiptData" := JNull], "receiptData") == JNull;
  }

  /** Values of the wrong JSON type make the handler raise before any upstream
      call: a receipt that is not a string, or device info that is not an object. */
  lemma WrongTypesRaise(m: map<string, Json>, upstream: Call -> Upstream, now: int)
    requires Truthy(Get(m, "receiptData"))
    requires !Get(m, "receiptData").JStr? || ("deviceInfo" in m && !m["deviceInfo"].JObject?)
    ensures HandleVerifyReceipt(Some(JObject(m)), upstream, now)
              == HandlerResult(500, Failed("Internal server error"), [], None)
  {
    assert "receiptData" in m;
  }

  /** A premium result whose environment is null or not a string raises at the
      lower-casing, and the handler answers 500 instead of saving anything. */
  lemma UnusableEnvironmentOnPremium(receiptData: string, upstream: Call -> Upstream, now: int, p: Payload)
    requires upstream(Call(Production, RequestFor(receiptData))) == Answer(p)
    requires p.status == Some(StatusSuccess)
    requires BundleMatches(p) && Candidates(p).Some? && FindActivePremium(Candidates(p).value, now).Active?
    requires p.environment.Unusable?
    ensures VerifyWithApple(receiptData, upstream, now).result == Raise(Crashed)
  {
  }

  // End-to-end examples.

  const FarFuture: int := 4102444800000

  function OneAnswer(p: Payload): Call -> Upstream {
    (c: Call) => Answer(p)
  }

  function GoodBody(userId: Json): Option<Json> {
    Some(JObject(map["receiptData" := JStr("receipt-blob"), "userId" := userId]))
  }

  function ReceiptWith(ps: seq<Purchase>): Field<Receipt> {
    Present(Receipt(Some(ExpectedBundleId), Present(ps)))
  }

  lemma GoodBodyProceeds(userId: Json)
    ensures Precheck(GoodBody(userId)) == Proceed("receipt-blob")
    ensures UserIdOf(GoodBody(userId)) == userId
  {
    var m := map["receiptData" := JStr("receipt-blob"), "userId" := userId];
    assert Get(m, "receiptData") == JStr("receipt-blob");
    assert Get(m, "bundleId") == JNull;
    assert "deviceInfo" !in m;
    assert Get(m, "userId") == userId;
  }

  lemma MonthlyExample(now: int)
    requires now < FarFuture
    ensures var p := Payload(Some(0), ReceiptWith([Purchase(Some(MonthlyId), Millis(FarFuture))]), Absent, Absent);
      var r := HandleVerifyReceipt(GoodBody(JStr("u1")), OneAnswer(p), now);
      && r.httpStatus == 200
      && r.body == Outcome(true, true, Some(MonthlyId), Some(FarFuture), Some("production"), "Receipt verified successfully")
      && r.saved == Some(SaveRecord(JStr("u1"), Some(MonthlyId), Some(FarFuture), Some("production")))
  {
    var p := Payload(Some(0), ReceiptWith([Purchase(Some(MonthlyId), Millis(FarFuture))]), Absent, Absent);
    GoodBodyProceeds(JStr("u1"));
    MonthlyParsed(p, now);
  }

  lemma MonthlyParsed(p: Payload, now: int)
    requires now < FarFuture
    requires p == Payload(Some(0), ReceiptWith([Purchase(Some(MonthlyId), Millis(FarFuture))]), Absent, Absent)
    ensures ParseAppleResponse(p, now)
      == Returned(Outcome(true, true, Some(MonthlyId), Some(FarFuture), Some("production"), "Receipt verified successfully"))
  {
    assert Candidates(p).value[0] == Purchase(Some(MonthlyId), Millis(FarFuture));
    assert FirstStop(Candidates(p).value, now) == Some(0);
    assert Strings.Lower("Production") == "production";
  }

  lemma LifetimeExample(now: int)
    ensures var p := Payload(Some(0), ReceiptWith([Purchase(Some(LifetimeId), NoExpiry)]), Present("Sandbox"), Absent);
      var r := HandleVerifyReceipt(GoodBody(JNull), OneAnswer(p), now);
      && r.httpStatus == 200
      && r.body == Outcome(true, true, Some(LifetimeId), None, Some("sandbox"), "Receipt verified successfully")
      && r.saved.None?
  {
    var p := Payload(Some(0), ReceiptWith([Purchase(Some(LifetimeId), NoExpiry)]), Present("Sandbox"), Absent);
    GoodBodyProceeds(JNull);
    LifetimeParsed(p, now);
  }

  lemma LifetimeParsed(p: Payload, now: int)
    requires p == Payload(Some(0), ReceiptWith([Purchase(Some(LifetimeId), NoExpiry)]), Present("Sandbox"), Absent)
    ensures ParseAppleResponse(p, now)
      == Returned(Outcome(true, true, Some(LifetimeId), None, Some("sandbox"), "Receipt verified successfully"))
  {
    assert Candidates(p).value[0] == Purchase(Some(LifetimeId), NoExpiry);
    assert FirstStop(Candidates(p).value, now) == Some(0);
    assert Strings.Lower("Sandbox") == "sandbox";
  }

  lemma UnauthenticatedExample(now: int)
    ensures var p := Payload(Some(21003), Absent, Absent, Absent);
      var r := HandleVerifyReceipt(GoodBody(JStr("u1")), OneAnswer(p), now);
      && r.httpStatus == 400
      && r.body == Failed("The receipt could not be authenticated")
      && r.saved.None?
  {
    GoodBodyProceeds(JStr("u1"));
  }
}
