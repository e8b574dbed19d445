/** Helpers of the backend client: spreading out reminders that share a time,
    the upload MIME type, the user-facing error texts, and reminder
    suggestion identity. Date strings are read by a `parse` oracle giving
    whole seconds and written back by a `format` oracle (the "yyyy-MM-dd
    HH:mm:ss" formatter). */
module BraindumpsterApi {
  import opened Wrappers
  import opened Strings

  datatype ReminderSuggestion = ReminderSuggestion(reminderTime: string, message: string, kind: string)

  // ---------------------------------------------------------------------------
  // String order

  /** Lexicographic order on characters, as `<` on the time strings. */
  predicate StrLess(a: string, b: string)
    decreases |a|
  {
    if |a| == 0 then |b| > 0
    else if |b| == 0 then false
    else if a[0] != b[0] then a[0] < b[0]
    else StrLess(a[1..], b[1..])
  }

  lemma {:induction false} StrLessIrreflexive(a: string)
    ensures !StrLess(a, a)
    decreases |a|
  {
    if |a| > 0 {
      StrLessIrreflexive(a[1..]);
    }
  }

  lemma {:induction false} StrLessTrans(a: string, b: string, c: string)
    requires StrLess(a, b) && StrLess(b, c)
    ensures StrLess(a, c)
    decreases |a|
  {
    if |a| > 0 && |b| > 0 && |c| > 0 && a[0] == b[0] && b[0] == c[0] {
      StrLessTrans(a[1..], b[1..], c[1..]);
    }
  }

  lemma {:induction false} StrLessTotal(a: string, b: string)
    ensures a == b || StrLess(a, b) || StrLess(b, a)
    decreases |a|
  {
    if |a| > 0 && |b| > 0 && a[0] == b[0] {
      StrLessTotal(a[1..], b[1..]);
      if a[1..] == b[1..] {
        assert a == [a[0]] + a[1..] && b == [b[0]] + b[1..];
      }
    }
  }

  /** "Not after": the order's reflexive closure. */
  lemma NotAfterTrans(a: string, b: string, c: string)
    requires !StrLess(b, a) && !StrLess(c, b)
    ensures !StrLess(c, a)
  {
    if StrLess(c, a) {
      StrLessTotal(a, b);
      if StrLess(a, b) {
        StrLessTrans(c, a, b);
      }
    }
  }

  ghost predicate Sorted(s: seq<ReminderSuggestion>) {
    forall i, j :: 0 <= i < j < |s| ==> !StrLess(s[j].reminderTime, s[i].reminderTime)
  }

  // ---------------------------------------------------------------------------
  // Sorting

  /** Inserts `x` before the first element not earlier than it. */
  function Insert(x: ReminderSuggestion, s: seq<ReminderSuggestion>): (r: seq<ReminderSuggestion>)
    requires Sorted(s)
    ensures multiset(r) == multiset(s) + multiset{x}
    ensures Sorted(r)
    decreases |s|
  {
    if |s| == 0 then [x]
    else if !StrLess(s[0].reminderTime, x.reminderTime) then
      InsertFront(x, s);
      [x] + s
    else
      var rest := Insert(x, s[1..]);
      assert s == [s[0]] + s[1..];
      InsertBehind(x, s, rest);
      [s[0]] + rest
  }

  lemma InsertFront(x: ReminderSuggestion, s: seq<ReminderSuggestion>)
    requires Sorted(s) && |s| > 0 && !StrLess(s[0].reminderTime, x.reminderTime)
    ensures Sorted([x] + s)
  {
    forall j | 0 <= j < |s| ensures !StrLess(s[j].reminderTime, x.reminderTime) {
      if j > 0 {
        NotAfterTrans(x.reminderTime, s[0].reminderTime, s[j].reminderTime);
      }
    }
  }

  lemma InsertBehind(x: ReminderSuggestion, s: seq<ReminderSuggestion>, rest: seq<ReminderSuggestion>)
    requires Sorted(s) && |s| > 0 && StrLess(s[0].reminderTime, x.reminderTime)
    requires Sorted(rest) && multiset(rest) == multiset(s[1..]) + multiset{x}
    ensures Sorted([s[0]] + rest)
  {
    forall j | 0 <= j < |rest| ensures !StrLess(rest[j].reminderTime, s[0].reminderTime) {
      assert rest[j] in multiset(rest);
      if rest[j] == x {
        if StrLess(x.reminderTime, s[0].reminderTime) {
          StrLessTrans(x.reminderTime, s[0].reminderTime, x.reminderTime);
          StrLessIrreflexive(x.reminderTime);
        }
      } else {
        assert rest[j] in multiset(s[1..]);
        var k :| 0 <= k < |s[1..]| && s[1..][k] == rest[j];
        assert s[k + 1] == rest[j];
      }
    }
  }

  /** The reminders ordered by time; among equal times the input order is kept. */
  function SortByTime(rs: seq<ReminderSuggestion>): (r: seq<ReminderSuggestion>)
    ensures multiset(r) == multiset(rs)
    ensures |r| == |rs|
    ensures Sorted(r)
    decreases |rs|
  {
    if |rs| == 0 then []
    else
      assert rs == [rs[0]] + rs[1..];
      var r := Insert(rs[0], SortByTime(rs[1..]));
      assert |r| == |multiset(r)|;
      r
  }

  // ---------------------------------------------------------------------------
  // Spacing

  /** Both times read and `cur` is less than 30 s after `prev`. */
  predicate TooClose(prev: ReminderSuggestion, cur: ReminderSuggestion, parse: string -> Option<int>) {
    parse(cur.reminderTime).Some? && parse(prev.reminderTime).Some?
      && parse(cur.reminderTime).value - parse(prev.reminderTime).value < 30
  }

  /** One step of the loop: `cur` follows the already adjusted `prev`. When both
      times read and `cur` is less than 30 s after `prev`, it moves to
      `prev` + 30 s, keeping its message and kind. */
  function Step(prev: ReminderSuggestion, cur: ReminderSuggestion, parse: string -> Option<int>, format: int -> string): (r: ReminderSuggestion)
    ensures r.message == cur.message && r.kind == cur.kind
    ensures TooClose(prev, cur, parse) ==>
      r == cur.(reminderTime := format(parse(prev.reminderTime).value + 30))
    ensures !TooClose(prev, cur, parse) ==> r == cur
  {
    match (parse(cur.reminderTime), parse(prev.reminderTime))
    case (Some(c), Some(p)) =>
      if c - p < 30 then ReminderSuggestion(format(p + 30), cur.message, cur.kind) else cur
    case _ => cur
  }

  /** The adjusting loop over an already sorted list. */
  function Spread(s: seq<ReminderSuggestion>, parse: string -> Option<int>, format: int -> string): (r: seq<ReminderSuggestion>)
    ensures |r| == |s|
    ensures |s| > 0 ==> r[0] == s[0]
    ensures forall i :: 1 <= i < |s| ==> r[i] == Step(r[i - 1], s[i], parse, format)
    ensures forall i :: 0 <= i < |s| ==> r[i].message == s[i].message && r[i].kind == s[i].kind
    decreases |s|
  {
    if |s| <= 1 then s
    else
      var a := Spread(s[..|s| - 1], parse, format);
      a + [Step(a[|a| - 1], s[|s| - 1], parse, format)]
  }

  /** `adjustReminderTimesIfNeeded`. */
  function AdjustReminderTimes(rs: seq<ReminderSuggestion>, parse: string -> Option<int>, format: int -> string): (r: seq<ReminderSuggestion>)
    ensures |r| == |rs|
    ensures |rs| <= 1 ==> r == rs
    ensures |rs| > 1 ==>
      var s := SortByTime(rs);
      r[0] == s[0] && forall i :: 0 <= i < |r| ==> r[i].message == s[i].message && r[i].kind == s[i].kind
  {
    if |rs| <= 1 then rs else Spread(SortByTime(rs), parse, format)
  }

  /** When the formatter's output reads back as the instant it wrote, any two
      neighbours of the result whose times both read are at least 30 s apart. */
  lemma SpreadSpacing(rs: seq<ReminderSuggestion>, parse: string -> Option<int>, format: int -> string, i: int)
    requires forall t :: parse(format(t)) == Some(t)
    requires 1 <= i < |rs|
    ensures var r := AdjustReminderTimes(rs, parse, format);
      parse(r[i - 1].reminderTime).Some? && parse(r[i].reminderTime).Some? ==>
        parse(r[i].reminderTime).value >= parse(r[i - 1].reminderTime).value + 30
  {
    var s := SortByTime(rs);
    var r := Spread(s, parse, format);
    assert r[i] == Step(r[i - 1], s[i], parse, format);
  }

  /** Reminders already 30 s apart or more are left as they are. */
  lemma WellSpacedUnchanged(s: seq<ReminderSuggestion>, parse: string -> Option<int>, format: int -> string)
    requires forall i :: 0 <= i < |s| ==> parse(s[i].reminderTime).Some?
    requires forall i :: 1 <= i < |s| ==>
      parse(s[i].reminderTime).value - parse(s[i - 1].reminderTime).value >= 30
    ensures Spread(s, parse, format) == s
  {
    SpreadPrefixUnchanged(s, parse, format, |s|);
    assert Spread(s, parse, format)[..|s|] == Spread(s, parse, format);
    assert s[..|s|] == s;
  }

  lemma {:induction false} SpreadPrefixUnchanged(s: seq<ReminderSuggestion>, parse: string -> Option<int>, format: int -> string, n: nat)
    requires n <= |s|
    requires forall i :: 0 <= i < |s| ==> parse(s[i].reminderTime).Some?
    requires forall i :: 1 <= i < |s| ==>
      parse(s[i].reminderTime).value - parse(s[i - 1].reminderTime).value >= 30
    ensures Spread(s, parse, format)[..n] == s[..n]
    decreases n
  {
    if n > 1 {
      SpreadPrefixUnchanged(s, parse, format, n - 1);
      var r := Spread(s, parse, format);
      assert r[n - 2] == s[n - 2] by {
        assert r[..n - 1][n - 2] == s[..n - 1][n - 2];
      }
      assert r[n - 1] == s[n - 1];
      assert r[..n] == r[..n - 1] + [r[n - 1]];
      assert s[..n] == s[..n - 1] + [s[n - 1]];
    }
  }

  // ---------------------------------------------------------------------------
  // MIME type

  const AudioExtensions: seq<string> := ["m4a", "mp3", "wav", "aac"]

  /** `getMimeType(for:)` on the file's extension. */
  function MimeType(ext: string): (r: string)
    ensures Lower(ext) in AudioExtensions ==> r == "audio/" + Lower(ext)
    ensures Lower(ext) !in AudioExtensions ==> r == "audio/m4a"
  {
    match Lower(ext)
    case "m4a" => "audio/m4a"
    case "mp3" => "audio/mp3"
    case "wav" => "audio/wav"
    case "aac" => "audio/aac"
    case _ => "audio/m4a"
  }

  /** The MIME type ignores the extension's case and is always one of four. */
  lemma MimeTypeCaseInsensitive(ext: string)
    ensures MimeType(ext) == MimeType(Lower(ext))
    ensures exists i :: 0 <= i < |AudioExtensions| && MimeType(ext) == "audio/" + AudioExtensions[i]
  {
    LowerIdempotent(ext);
    if Lower(ext) !in AudioExtensions {
      assert MimeType(ext) == "audio/" + AudioExtensions[0];
    }
  }

  // ---------------------------------------------------------------------------
  // Errors

  datatype ApiError =
    | Unauthorized
    | InvalidResponse
    | ServerError(message: string)
    | HttpError(code: int)
    /** A transport error, with its localized description. */
    | NetworkError(description: string)

  const SessionExpired: string := "Session expired 🔐 Sign in again to continue"
  const ServerHiccup: string := "Our servers hiccuped 😅 Give it another shot"
  const CoffeeBreak: string := "Our servers are taking a coffee break ☕ Try again soon"
  const Offline: string := "You're offline 🌐 Check your connection and try again"
  const TooLong: string := "That's taking too long ⏰ Check your connection?"
  const Unreachable: string := "Can't reach the server 📡 Check your internet?"
  const WeirdResponse: string := "Got a weird response from the server 🤔 Try again?"
  const BadRequest: string := "Something's not quite right with that request 🤔"
  const Forbidden: string := "You don't have permission for that 🚫"
  const NotFound: string := "Couldn't find what you're looking for 🔍"
  const SlowDown: string := "Slow down there, speedy! Try again in a moment ⏱️"
  const Unexpected: string := "Something unexpected happened 😕 Let's try that again"

  /** The HTTP codes with a text of their own besides the 5xx range. */
  const NamedCodes: set<int> := {400, 401, 403, 404, 429}

  /** A transport error that reads as being offline. */
  predicate SaysOffline(d: string) {
    Contains(d, "internet") || Contains(d, "offline") || Contains(d, "network")
  }

  /** `errorDescription`: a 401 reads like an expired session; a server
      message passes through unless it looks like an internal error; the
      transport error's description picks offline, slow or unreachable. */
  function ErrorDescription(e: ApiError): (r: string)
    ensures e.Unauthorized? || e == HttpError(401) ==> r == SessionExpired
    ensures e.InvalidResponse? ==> r == WeirdResponse
    ensures e.ServerError? ==>
      r == (if HasSubstring(Lower(e.message), "internal") || HasSubstring(Lower(e.message), "500")
            then ServerHiccup else e.message)
    ensures e == HttpError(400) ==> r == BadRequest
    ensures e == HttpError(403) ==> r == Forbidden
    ensures e == HttpError(404) ==> r == NotFound
    ensures e == HttpError(429) ==> r == SlowDown
    ensures e.HttpError? && 500 <= e.code <= 599 ==> r == CoffeeBreak
    ensures e.HttpError? && e.code !in NamedCodes && !(500 <= e.code <= 599) ==> r == Unexpected
    ensures e.NetworkError? ==>
      var d := Lower(e.description);
      && (r == Offline <==> SaysOffline(d))
      && (r == TooLong <==> !SaysOffline(d) && Contains(d, "timeout"))
      && (r == Unreachable <==> !SaysOffline(d) && !Contains(d, "timeout"))
  {
    match e
    case Unauthorized => SessionExpired
    case InvalidResponse => WeirdResponse
    case ServerError(m) =>
      var l := Lower(m);
      if HasSubstring(l, "internal") || HasSubstring(l, "500") then ServerHiccup else m
    case HttpError(code) =>
      if code == 400 then BadRequest
      else if code == 401 then SessionExpired
      else if code == 403 then Forbidden
      else if code == 404 then NotFound
      else if code == 429 then SlowDown
      else if 500 <= code <= 599 then CoffeeBreak
      else Unexpected
    case NetworkError(desc) =>
      var l := Lower(desc);
      if HasSubstring(l, "internet") || HasSubstring(l, "offline") || HasSubstring(l, "network") then Offline
      else if HasSubstring(l, "timeout") then TooLong
      else Unreachable
  }

  /** `friendlyTitle`: each title belongs to exactly one kind of error, and
      HTTP errors split at 500. */
  function FriendlyTitle(e: ApiError): (r: string)
    ensures r == "Session Expired" <==> e.Unauthorized?
    ensures r == "Oops!" <==> e.InvalidResponse? || e.ServerError?
    ensures r == "Server Issues" <==> e.HttpError? && e.code >= 500
    ensures r == "Something's Wrong" <==> e.HttpError? && e.code < 500
    ensures r == "Connection Problem" <==> e.NetworkError?
  {
    match e
    case Unauthorized => "Session Expired"
    case InvalidResponse => "Oops!"
    case ServerError(_) => "Oops!"
    case HttpError(code) => if code >= 500 then "Server Issues" else "Something's Wrong"
    case NetworkError(_) => "Connection Problem"
  }

  /** An HTTP 401 reads like an expired session; only codes from 500 are titled
      server issues. */
  lemma HttpErrorTexts(code: int)
    ensures ErrorDescription(HttpError(401)) == ErrorDescription(Unauthorized)
    ensures FriendlyTitle(HttpError(code)) == "Server Issues" <==> code >= 500
    ensures FriendlyTitle(HttpError(code)) != FriendlyTitle(Unauthorized)
  {
  }

  /** A server message that is not technical is shown as sent. */
  lemma PlainServerMessageShown(m: string)
    requires !Contains(Lower(m), "internal") && !Contains(Lower(m), "500")
    ensures ErrorDescription(ServerError(m)) == m
  {
  }

  // ---------------------------------------------------------------------------
  // Suggestion identity

  /** `==` on suggestions: the time alone decides. */
  predicate SameReminder(a: ReminderSuggestion, b: ReminderSuggestion) {
    a.reminderTime == b.reminderTime
  }

  /** `hash(into:)`: `h` stands for the hasher, fed the time only. */
  function HashValue(a: ReminderSuggestion, h: string -> int): int {
    h(a.reminderTime)
  }

  /** Equality is an equivalence, and equal suggestions hash alike, whatever
      their messages and kinds. */
  lemma IdentityByTime(a: ReminderSuggestion, b: ReminderSuggestion, c: ReminderSuggestion, h: string -> int)
    ensures SameReminder(a, a)
    ensures SameReminder(a, b) ==> SameReminder(b, a)
    ensures SameReminder(a, b) && SameReminder(b, c) ==> SameReminder(a, c)
    ensures SameReminder(a, b) ==> HashValue(a, h) == HashValue(b, h)
    ensures SameReminder(a, a.(message := b.message, kind := b.kind))
  {
  }
}
