/** The app-side client of the receipt endpoint: the receipt precheck, the
    classification of the HTTP answer, and the retry policy with its delay
    schedule. Each request's fate is an oracle indexed by the attempt number;
    the sleeps between attempts are recorded as the delays they would wait. */
module ReceiptRetry {
  import opened Wrappers

  /** Seconds a single request may take. */
  const RequestTimeoutSeconds: int := 30
  /** Retries allowed after the first request. */
  const MaxRetryAttempts: int := 2
  /** Back-off delays in seconds, indexed by attempt - 1 and clamped to the last. */
  const RetryDelays: seq<int> := [2, 4]

  datatype ValidationError =
    | NoReceiptAvailable
    | NetworkError(cause: string)
    | ServerError(statusCode: int, message: Option<string>)
    | InvalidResponse
    | Timeout
    | MaxRetriesExceeded

  /** The decoded body of a 2xx answer; the expiration date is kept as an
      instant. */
  datatype VerificationResponse = VerificationResponse(
    success: bool,
    isPremium: bool,
    productId: Option<string>,
    expirationDate: Option<int>,
    message: Option<string>,
    environment: Option<string>)

  /** What one request meets on the way out and back. */
  datatype Attempt =
    /** The sign-in service gives no token. */
    | TokenUnavailable(cause: string)
    /** Encoding or the transport throws (URLSession reports its own timeouts this way). */
    | TransportError(cause: string)
    /** The response is not an HTTP response. */
    | NotHttp
    /** An HTTP answer; `body` is the UTF-8 text if it decodes as such, and
        `decoded` the JSON response if it decodes as one. */
    | Http(statusCode: int, body: Option<string>, decoded: Option<VerificationResponse>)

  /** `sendVerificationRequest`: a response, a `ValidationError`, or some other error. */
  datatype SendResult = Sent(response: VerificationResponse) | Rejected(error: ValidationError) | Thrown(cause: string)

  /** The cause recorded when a 2xx body does not decode. */
  const DecodingFailure: string := "The data couldn't be read because it isn't in the correct format."

  function SendVerificationRequest(a: Attempt): (r: SendResult)
    ensures a.Http? && 200 <= a.statusCode <= 299 ==>
      (if a.decoded.Some? then r == Sent(a.decoded.value) else r.Thrown?)
    ensures a.Http? && 400 <= a.statusCode <= 599 ==> r == Rejected(ServerError(a.statusCode, a.body))
    ensures a.Http? && !(200 <= a.statusCode <= 299) && !(400 <= a.statusCode <= 599) ==> r == Rejected(InvalidResponse)
    ensures a.NotHttp? ==> r == Rejected(InvalidResponse)
    ensures a.TokenUnavailable? ==> r == Rejected(NetworkError(a.cause))
    ensures a.TransportError? ==> r == Thrown(a.cause)
    ensures r.Rejected? ==> !r.error.Timeout? && !r.error.MaxRetriesExceeded? && !r.error.NoReceiptAvailable?
  {
    match a
    case TokenUnavailable(c) => Rejected(NetworkError(c))
    case TransportError(c) => Thrown(c)
    case NotHttp => Rejected(InvalidResponse)
    case Http(code, body, decoded) =>
      if 200 <= code <= 299 then
        (match decoded
         case Some(v) => Sent(v)
         case None => Thrown(DecodingFailure))
      else if 400 <= code <= 499 then Rejected(ServerError(code, body))
      else if 500 <= code <= 599 then Rejected(ServerError(code, body))
      else Rejected(InvalidResponse)
  }

  /** `shouldRetry`: only within the attempt budget, and only for 5xx server
      errors, timeouts and network errors. */
  predicate ShouldRetry(e: ValidationError, attempt: int) {
    attempt <= MaxRetryAttempts &&
    match e
    case ServerError(code, _) => code >= 500
    case Timeout => true
    case NetworkError(_) => true
    case _ => false
  }

  /** Index into `RetryDelays` used after a failed `attempt`. */
  function DelayIndex(attempt: int): (i: int)
    requires attempt >= 1
    ensures 0 <= i < |RetryDelays|
    ensures i == attempt - 1 || (i == |RetryDelays| - 1 && attempt - 1 > i)
  {
    if attempt - 1 < |RetryDelays| - 1 then attempt - 1 else |RetryDelays| - 1
  }

  function DelayAfter(attempt: int): (d: int)
    requires attempt >= 1
    ensures attempt <= |RetryDelays| ==> d == RetryDelays[attempt - 1]
    ensures attempt >= |RetryDelays| ==> d == RetryDelays[|RetryDelays| - 1]
  {
    RetryDelays[DelayIndex(attempt)]
  }

  datatype Verified = Verified(response: VerificationResponse) | Failed(error: ValidationError)

  /** A run of the retry loop: its verdict, the attempt numbers used (one
      request each), and the delays waited between them. */
  datatype RetryRun = RetryRun(result: Verified, attempts: seq<int>, delays: seq<int>)

  /** `verifyWithRetry`: send; on a `ValidationError` that `ShouldRetry` admits,
      wait and try again with the next attempt number; any other error becomes
      a network error without consulting the retry policy. */
  function VerifyWithRetry(send: int -> Attempt, attempt: int): (r: RetryRun)
    requires attempt >= 1
    ensures |r.attempts| >= 1 && |r.delays| == |r.attempts| - 1
    ensures forall i :: 0 <= i < |r.attempts| ==> r.attempts[i] == attempt + i
    ensures forall i :: 0 <= i < |r.delays| ==> r.delays[i] == DelayAfter(attempt + i)
    ensures attempt <= MaxRetryAttempts ==> |r.attempts| <= MaxRetryAttempts + 2 - attempt
    ensures attempt > MaxRetryAttempts ==> |r.attempts| == 1
    ensures forall i :: 0 <= i < |r.attempts| - 1 ==>
      var s := SendVerificationRequest(send(r.attempts[i]));
      s.Rejected? && ShouldRetry(s.error, r.attempts[i])
    ensures var last := attempt + |r.attempts| - 1;
      var s := SendVerificationRequest(send(last));
      match s
      case Sent(v) => r.result == Verified(v)
      case Thrown(c) => r.result == Failed(NetworkError(c))
      case Rejected(e) => r.result == Failed(e) && !ShouldRetry(e, last)
    decreases if attempt <= MaxRetryAttempts then MaxRetryAttempts + 1 - attempt else 0
  {
    match SendVerificationRequest(send(attempt))
    case Sent(v) => RetryRun(Verified(v), [attempt], [])
    case Thrown(c) => RetryRun(Failed(NetworkError(c)), [attempt], [])
    case Rejected(e) =>
      if ShouldRetry(e, attempt) then
        var rest := VerifyWithRetry(send, attempt + 1);
        var r := RetryRun(rest.result, [attempt] + rest.attempts, [DelayAfter(attempt)] + rest.delays);
        assert forall i :: 1 <= i < |r.attempts| ==> r.attempts[i] == rest.attempts[i - 1];
        assert forall i :: 1 <= i < |r.delays| ==> r.delays[i] == rest.delays[i - 1];
        r
      else RetryRun(Failed(e), [attempt], [])
  }

  /** `verifyReceipt`: without a receipt no request is built; otherwise the
      retry loop starts at attempt 1. */
  function VerifyReceipt(receipt: Option<seq<bv8>>, send: int -> Attempt): (r: RetryRun)
    ensures receipt.None? ==> r == RetryRun(Failed(NoReceiptAvailable), [], [])
    ensures receipt.Some? ==> 1 <= |r.attempts| <= MaxRetryAttempts + 1 && r.attempts[0] == 1
    ensures receipt.Some? ==> forall i :: 0 <= i < |r.attempts| ==> r.attempts[i] == i + 1
    ensures receipt.Some? ==> |r.delays| <= |RetryDelays|
    ensures receipt.Some? ==> forall i :: 0 <= i < |r.delays| ==> r.delays[i] == RetryDelays[i]
    ensures receipt.Some? && r.result.Failed? ==> !r.result.error.NoReceiptAvailable?
    ensures receipt.Some? ==> forall i :: 0 <= i < |r.attempts| - 1 ==>
      var s := SendVerificationRequest(send(r.attempts[i]));
      s.Rejected? && ShouldRetry(s.error, r.attempts[i])
    ensures receipt.Some? ==>
      var s := SendVerificationRequest(send(|r.attempts|));
      match s
      case Sent(v) => r.result == Verified(v)
      case Thrown(c) => r.result == Failed(NetworkError(c))
      case Rejected(e) => r.result == Failed(e) && !ShouldRetry(e, |r.attempts|)
  {
    if receipt.None? then RetryRun(Failed(NoReceiptAvailable), [], [])
    else
      VerifyWithRetry(send, 1)
  }

  // ---------------------------------------------------------------------------
  // Properties

  /** Exactly these errors are retried while the budget lasts. */
  lemma RetryableErrors(e: ValidationError, attempt: int)
    requires attempt <= MaxRetryAttempts
    ensures ShouldRetry(e, attempt) <==>
      (e.ServerError? && e.statusCode >= 500) || e.Timeout? || e.NetworkError?
    ensures e.ServerError? && e.statusCode < 500 ==> !ShouldRetry(e, attempt)
    ensures e.InvalidResponse? || e.NoReceiptAvailable? || e.MaxRetriesExceeded? ==> !ShouldRetry(e, attempt)
  {
  }

  /** Past the budget nothing is retried. */
  lemma NoRetryPastBudget(e: ValidationError, attempt: int)
    requires attempt > MaxRetryAttempts
    ensures !ShouldRetry(e, attempt)
  {
  }

  /** An HTTP answer is retried exactly when it is a 5xx. */
  lemma HttpRetriedIffServerError(code: int, body: Option<string>, decoded: Option<VerificationResponse>)
    requires !(200 <= code <= 299)
    ensures var s := SendVerificationRequest(Http(code, body, decoded));
      s.Rejected? && (ShouldRetry(s.error, 1) <==> 500 <= code <= 599)
  {
  }

  /** The first wait is 2 s and the second 4 s; later ones stay at 4 s. */
  lemma DelaySchedule(attempt: int)
    requires attempt >= 1
    ensures DelayAfter(1) == 2 && DelayAfter(2) == 4
    ensures attempt >= 2 ==> DelayAfter(attempt) == 4
  {
  }

  /** Errors other than `ValidationError` (transport failures, undecodable
      bodies) end the verification at once, as a network error. */
  lemma TransportErrorsAreNotRetried(send: int -> Attempt, cause: string)
    requires send(1) == TransportError(cause)
    ensures VerifyReceipt(Some([]), send) == RetryRun(Failed(NetworkError(cause)), [1], [])
  {
  }

  /** Server errors on every attempt: three requests, waits of 2 s and 4 s, and
      the last server error is reported (`maxRetriesExceeded` never is). */
  lemma PersistentServerError(send: int -> Attempt, code: int)
    requires 500 <= code <= 599
    requires forall k :: send(k) == Http(code, None, None)
    ensures VerifyReceipt(Some([]), send) == RetryRun(Failed(ServerError(code, None)), [1, 2, 3], [2, 4])
  {
    var r1 := VerifyWithRetry(send, 3);
    assert r1 == RetryRun(Failed(ServerError(code, None)), [3], []);
    var r2 := VerifyWithRetry(send, 2);
    assert r2 == RetryRun(Failed(ServerError(code, None)), [2, 3], [4]);
  }

  /** The client never produces `timeout` or `maxRetriesExceeded` itself. */
  lemma NeverTimeoutOrMaxRetries(send: int -> Attempt, attempt: int)
    requires attempt >= 1
    ensures var r := VerifyWithRetry(send, attempt);
      r.result.Failed? ==> !r.result.error.Timeout? && !r.result.error.MaxRetriesExceeded?
  {
  }
}
