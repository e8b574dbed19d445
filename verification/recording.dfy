/** Meeting recordings: the duration label, speaker and task counts, the
    decoder's defaults for fields still missing while a recording is
    processed, and the key-point sentiment emoji. The duration is taken in
    whole seconds (`Int(duration)`). */
module Recording {
  import opened Wrappers
  import opened Strings
  import opened SwiftArith

  datatype TranscriptSegment = TranscriptSegment(speaker: string, text: string, timestamp: string)
  datatype ActionItem = ActionItem(
    task: string, assignee: string, dueDate: Option<string>, priority: string,
    timestamp: string, context: string, isCompleted: bool)
  datatype KeyPoint = KeyPoint(timestamp: string, point: string, category: string, sentiment: Option<string>)
  datatype Decision = Decision(decision: string, timestamp: string, participants: seq<string>, impact: string)

  datatype RecordingType = Meeting | Lecture | Personal
  datatype RecordingStatus = Processing | Completed | Failed

  datatype Recording = Recording(
    id: string, title: string, seconds: int, kind: RecordingType, aiDetected: bool,
    status: RecordingStatus, transcript: seq<TranscriptSegment>, actionItems: seq<ActionItem>,
    keyPoints: seq<KeyPoint>, decisions: seq<Decision>, audioFileUrl: Option<string>)

  // ---------------------------------------------------------------------------
  // Duration

  /** Hours, minutes and seconds as `durationFormatted` computes them. */
  datatype Clock = Clock(hours: int, minutes: int, seconds: int)

  /** The parts recompose the duration, for any whole number of seconds, and
      a non-negative duration has minutes and seconds below 60. */
  function Split(secs: int): (c: Clock)
    ensures ClockSeconds(c.hours, c.minutes, c.seconds) == secs
    ensures secs >= 0 ==> c.hours >= 0 && 0 <= c.minutes < 60 && 0 <= c.seconds < 60
  {
    TruncatedPartsRecompose(secs);
    Clock(TruncDiv(secs, 3600), TruncDiv(TruncMod(secs, 3600), 60), TruncMod(secs, 60))
  }

  /** `durationFormatted`: h:mm:ss from one hour on, m:ss below. The label of a
      non-negative duration reads back as that duration. */
  function DurationFormatted(secs: int): (r: string)
    ensures secs >= 0 ==> ParseDuration(r) == Some(secs)
  {
    var c := Split(secs);
    if secs >= 0 then
      LabelReadsBack(c);
      Label(c)
    else Label(c)
  }

  function Label(c: Clock): string {
    if c.hours > 0 then IntToString(c.hours) + ":" + Pad2(c.minutes) + ":" + Pad2(c.seconds)
    else IntToString(c.minutes) + ":" + Pad2(c.seconds)
  }

  /** The seconds an hours, minutes and seconds reading stands for. */
  function ClockSeconds(h: int, m: int, s: int): int {
    h * 3600 + m * 60 + s
  }

  /** The seconds of a duration are the seconds of its last partial hour. */
  lemma SecondsOfLastHour(p: nat)
    ensures (p % 3600) % 60 == p % 60
  {
    var q := p / 3600;
    assert p == 60 * (60 * q) + p % 3600;
    ShiftMod(60 * q, p % 3600);
  }

  lemma ShiftMod(k: nat, r: nat)
    ensures (60 * k + r) % 60 == r % 60
  {
  }

  /** Truncating division and remainder by an hour and a minute recompose the
      duration. */
  lemma TruncatedPartsRecompose(secs: int)
    ensures var h, m, s := TruncDiv(secs, 3600), TruncDiv(TruncMod(secs, 3600), 60), TruncMod(secs, 60);
      ClockSeconds(h, m, s) == secs && (secs >= 0 ==> h >= 0 && 0 <= m < 60 && 0 <= s < 60)
  {
    var r := TruncMod(secs, 3600);
    DivModIdentity(secs, 3600);
    DivModIdentity(r, 60);
    if secs >= 0 {
      SecondsOfLastHour(secs);
    } else {
      SecondsOfLastHour(-secs);
    }
    assert TruncMod(secs, 60) == TruncMod(r, 60);
  }

  /** The text between colons. */
  function Fields(s: string): (r: seq<string>)
    ensures |r| >= 1
    decreases |s|
  {
    var head := FirstComponent(s, ':');
    if |head| == |s| then [s] else [head] + Fields(s[|head| + 1..])
  }

  lemma FieldsCons(a: string, b: string)
    requires ':' !in a
    ensures Fields(a + ":" + b) == [a] + Fields(b)
  {
    var s := a + ":" + b;
    FirstComponentUpTo(a, ':', b);
    assert s[|a| + 1..] == b;
  }

  lemma FieldsWhole(a: string)
    requires ':' !in a
    ensures Fields(a) == [a]
  {
    FirstComponentWhole(a, ':');
  }

  lemma DigitsHaveNoColon(a: string)
    requires IsDigits(a)
    ensures ':' !in a
  {
    assert forall i :: 0 <= i < |a| ==> '0' <= a[i] <= '9';
  }

  /** Reads a label back: two or three colon-separated decimal fields. */
  function ParseDuration(s: string): Option<int> {
    var f := Fields(s);
    if |f| == 3 && IsDigits(f[0]) && IsDigits(f[1]) && IsDigits(f[2]) then
      Some(ClockSeconds(ParseDigits(f[0]), ParseDigits(f[1]), ParseDigits(f[2])))
    else if |f| == 2 && IsDigits(f[0]) && IsDigits(f[1]) then
      Some(ClockSeconds(0, ParseDigits(f[0]), ParseDigits(f[1])))
    else None
  }

  /** A label reads back as the seconds its parts stand for. */
  lemma LabelReadsBack(c: Clock)
    requires c.hours >= 0 && 0 <= c.minutes < 60 && 0 <= c.seconds < 60
    ensures ParseDuration(Label(c)) == Some(ClockSeconds(c.hours, c.minutes, c.seconds))
    ensures |Fields(Label(c))| == (if c.hours > 0 then 3 else 2)
  {
    if c.hours > 0 {
      LongLabel(c);
    } else {
      ShortLabel(c);
    }
  }

  /** From one hour on the label has the three parts as its fields. */
  lemma LongLabel(c: Clock)
    requires c.hours > 0 && 0 <= c.minutes < 60 && 0 <= c.seconds < 60
    ensures Fields(Label(c)) == [IntToString(c.hours), Pad2(c.minutes), Pad2(c.seconds)]
    ensures ParseDuration(Label(c)) == Some(ClockSeconds(c.hours, c.minutes, c.seconds))
  {
    var hh, mm, ss := IntToString(c.hours), Pad2(c.minutes), Pad2(c.seconds);
    DigitsHaveNoColon(hh);
    DigitsHaveNoColon(mm);
    DigitsHaveNoColon(ss);
    LongFields(hh, mm, ss);
    NatToStringRoundTrip(c.hours);
    ParseThree(Label(c), hh, mm, ss);
  }

  lemma LongFields(hh: string, mm: string, ss: string)
    requires ':' !in hh && ':' !in mm && ':' !in ss
    ensures Fields(hh + ":" + mm + ":" + ss) == [hh, mm, ss]
  {
    var t := mm + ":" + ss;
    FieldsWhole(ss);
    FieldsCons(mm, ss);
    assert Fields(t) == [mm, ss];
    FieldsCons(hh, t);
    assert hh + ":" + mm + ":" + ss == hh + ":" + t;
  }

  /** Three digit fields read as hours, minutes and seconds. */
  lemma ParseThree(l: string, a: string, b: string, c: string)
    requires Fields(l) == [a, b, c] && IsDigits(a) && IsDigits(b) && IsDigits(c)
    ensures ParseDuration(l) == Some(ClockSeconds(ParseDigits(a), ParseDigits(b), ParseDigits(c)))
  {
    var f := Fields(l);
    assert |f| == 3 && f[0] == a && f[1] == b && f[2] == c;
  }

  /** Two digit fields read as minutes and seconds. */
  lemma ParseTwo(l: string, a: string, b: string)
    requires Fields(l) == [a, b] && IsDigits(a) && IsDigits(b)
    ensures ParseDuration(l) == Some(ClockSeconds(0, ParseDigits(a), ParseDigits(b)))
  {
    var f := Fields(l);
    assert |f| == 2 && f[0] == a && f[1] == b;
  }

  /** Below one hour the label has minutes and seconds as its fields. */
  lemma ShortLabel(c: Clock)
    requires c.hours <= 0 && 0 <= c.minutes < 60 && 0 <= c.seconds < 60
    ensures Fields(Label(c)) == [IntToString(c.minutes), Pad2(c.seconds)]
    ensures ParseDuration(Label(c)) == Some(ClockSeconds(0, c.minutes, c.seconds))
  {
    var mm, ss := IntToString(c.minutes), Pad2(c.seconds);
    NatToStringRoundTrip(c.minutes);
    DigitsHaveNoColon(mm);
    DigitsHaveNoColon(ss);
    FieldsWhole(ss);
    FieldsCons(mm, ss);
    ParseTwo(Label(c), mm, ss);
  }

  /** The label of a non-negative duration reads back as that duration, and has
      three fields exactly from one hour on. */
  lemma DurationRoundTrip(secs: int)
    requires secs >= 0
    ensures ParseDuration(DurationFormatted(secs)) == Some(secs)
    ensures |Fields(DurationFormatted(secs))| == (if secs >= 3600 then 3 else 2)
  {
    DivModIdentity(secs, 3600);
    LabelReadsBack(Split(secs));
  }

  // ---------------------------------------------------------------------------
  // Counts

  /** The distinct speakers of a transcript. */
  function Speakers(t: seq<TranscriptSegment>): (r: set<string>)
    ensures |r| <= |t|
    ensures |t| > 0 ==> |r| > 0
    ensures forall x :: x in r <==> exists i :: 0 <= i < |t| && t[i].speaker == x
    decreases |t|
  {
    if |t| == 0 then {}
    else
      var pre := t[..|t| - 1];
      assert forall i :: 0 <= i < |pre| ==> pre[i] == t[i];
      Speakers(pre) + {t[|t| - 1].speaker}
  }

  /** `speakerCount`. */
  function SpeakerCount(r: Recording): (n: nat)
    ensures n <= |r.transcript|
    ensures n == 0 <==> |r.transcript| == 0
  {
    |Speakers(r.transcript)|
  }

  /** A transcript with a single voice counts one speaker. */
  lemma OneVoice(r: Recording, who: string)
    requires |r.transcript| > 0
    requires forall i :: 0 <= i < |r.transcript| ==> r.transcript[i].speaker == who
    ensures SpeakerCount(r) == 1
  {
    assert Speakers(r.transcript) == {who} by {
      assert r.transcript[0].speaker == who;
    }
  }

  /** `taskCount`. */
  function TaskCount(r: Recording): nat {
    |r.actionItems|
  }

  // ---------------------------------------------------------------------------
  // Decoding

  /** A stored recording; the processing results may still be missing. */
  datatype Stored = Stored(
    id: string, title: string, seconds: int, kind: RecordingType, aiDetected: Option<bool>,
    status: RecordingStatus, transcript: Option<seq<TranscriptSegment>>,
    actionItems: Option<seq<ActionItem>>, keyPoints: Option<seq<KeyPoint>>,
    decisions: Option<seq<Decision>>, audioFileUrl: Option<string>)

  /** `init(from:)`: missing lists decode as empty and a missing flag as false. */
  function Decode(s: Stored): (r: Recording)
    ensures r.id == s.id && r.title == s.title && r.seconds == s.seconds
      && r.kind == s.kind && r.status == s.status && r.audioFileUrl == s.audioFileUrl
    ensures r.aiDetected <==> s.aiDetected == Some(true)
    ensures s.transcript.None? ==> r.transcript == []
    ensures s.transcript.Some? ==> r.transcript == s.transcript.value
    ensures s.actionItems.None? ==> r.actionItems == []
    ensures s.actionItems.Some? ==> r.actionItems == s.actionItems.value
    ensures s.keyPoints.None? ==> r.keyPoints == []
    ensures s.keyPoints.Some? ==> r.keyPoints == s.keyPoints.value
    ensures s.decisions.None? ==> r.decisions == []
    ensures s.decisions.Some? ==> r.decisions == s.decisions.value
  {
    Recording(s.id, s.title, s.seconds, s.kind, s.aiDetected.GetOr(false), s.status,
      s.transcript.GetOr([]), s.actionItems.GetOr([]), s.keyPoints.GetOr([]),
      s.decisions.GetOr([]), s.audioFileUrl)
  }

  /** A recording still processing, with nothing but its identity, has no
      speakers and no tasks. */
  lemma ProcessingRecordingIsEmpty(s: Stored)
    requires s.transcript.None? && s.actionItems.None?
    ensures SpeakerCount(Decode(s)) == 0 && TaskCount(Decode(s)) == 0
  {
  }

  /** The task count of a stored recording is the length of its action-item
      list, and zero while that list is missing. */
  lemma StoredTaskCount(s: Stored)
    ensures TaskCount(Decode(s)) == (if s.actionItems.Some? then |s.actionItems.value| else 0)
    ensures TaskCount(Decode(s)) == 0 <==> s.actionItems.None? || s.actionItems.value == []
  {
  }

  // ---------------------------------------------------------------------------
  // Key points

  const Positive: string := "😊"
  const Negative: string := "😔"
  const Neutral: string := "😐"

  /** `KeyPoint.emoji`: the sentiment, compared case-insensitively. */
  function Emoji(k: KeyPoint): (r: string)
    ensures r == Positive <==> k.sentiment.Some? && Lower(k.sentiment.value) == "positive"
    ensures r == Negative <==> k.sentiment.Some? && Lower(k.sentiment.value) == "negative"
    ensures k.sentiment.None? ==> r == Neutral
  {
    match k.sentiment
    case None => Neutral
    case Some(s) =>
      var l := Lower(s);
      if l == "positive" then Positive else if l == "negative" then Negative else Neutral
  }

  /** The emoji ignores the sentiment's case. */
  lemma EmojiIgnoresCase(k: KeyPoint)
    requires k.sentiment.Some?
    ensures Emoji(k) == Emoji(k.(sentiment := Some(Lower(k.sentiment.value))))
  {
    LowerIdempotent(k.sentiment.value);
  }
}
