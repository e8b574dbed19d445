/** Spoken labels for VoiceOver: tasks, streaks, progress, calendar days and
    the time picker. */
module Accessibility {
  import opened Wrappers
  import opened Strings

  // ---------------------------------------------------------------------------
  // Time picker

  /** The 12-hour reading of an hour: the displayed hour and whether it is PM. */
  function TwelveHour(hour: int): (r: (int, bool))
    ensures r.1 <==> hour >= 12
    ensures 0 <= hour < 24 ==> 1 <= r.0 <= 12
  {
    (if hour > 12 then hour - 12 else if hour == 0 then 12 else hour, hour >= 12)
  }

  /** The 24-hour clock's reading of a 12-hour time, the reference for `TwelveHour`. */
  function To24(display: int, pm: bool): int {
    if pm then (if display == 12 then 12 else display + 12)
    else (if display == 12 then 0 else display)
  }

  /** Every hour of the day survives the 12-hour reading: midnight is 12 AM,
      noon 12 PM, 13 h is 1 PM. */
  lemma TwelveHourRoundTrip(hour: int)
    requires 0 <= hour < 24
    ensures To24(TwelveHour(hour).0, TwelveHour(hour).1) == hour
  {
  }

  /** The closing " AM" or " PM" of a time label. */
  function MeridiemSuffix(pm: bool): string {
    if pm then " PM" else " AM"
  }

  /** `timeValue`: "h:mm AM" or "h:mm PM", minutes always two digits. The
      label says PM exactly from noon on, and every time of day reads back
      from its label. */
  function TimeValue(hour: int, minute: int): (r: string)
    ensures EndsWith(r, " PM") <==> hour >= 12
    ensures EndsWith(r, " AM") <==> hour < 12
    ensures 0 <= hour < 24 && 0 <= minute < 60 ==> ReadTime(r) == Some((hour, minute))
  {
    var (display, pm) := TwelveHour(hour);
    var head := IntToString(display) + ":" + Pad2(minute);
    MeridiemCloses(head, pm);
    if 0 <= hour < 24 && 0 <= minute < 60 then
      NatToStringRoundTrip(display);
      ReadTimeParts(NatToString(display), Pad2(minute), pm);
      TwelveHourRoundTrip(hour);
      head + MeridiemSuffix(pm)
    else head + MeridiemSuffix(pm)
  }

  /** A text closed by the suffix ends in " PM" exactly when the suffix is the
      PM one. */
  lemma MeridiemCloses(head: string, pm: bool)
    ensures EndsWith(head + MeridiemSuffix(pm), " PM") <==> pm
    ensures EndsWith(head + MeridiemSuffix(pm), " AM") <==> !pm
  {
    var r := head + MeridiemSuffix(pm);
    EndsWithConcat(head, MeridiemSuffix(pm));
    if EndsWith(r, MeridiemSuffix(!pm)) {
      EndsWithAt(r, MeridiemSuffix(!pm), 1);
      EndsWithAt(r, MeridiemSuffix(pm), 1);
    }
  }

  /** Reads a time label back into a 24-hour hour and a minute. */
  function ReadTime(s: string): Option<(int, int)> {
    var h := FirstComponent(s, ':');
    if |h| == |s| || |h| == 0 || !IsDigits(h) then None
    else
      var rest := s[|h| + 1..];
      if |rest| != 5 || !IsDigits(rest[..2])
        || (rest[2..] != MeridiemSuffix(false) && rest[2..] != MeridiemSuffix(true)) then None
      else
        var d := ParseDigits(h);
        if d < 1 || d > 12 then None
        else Some((To24(d, rest[2..] == MeridiemSuffix(true)), ParseDigits(rest[..2])))
  }

  /** A label built from an hour's digits, two minute digits and a suffix reads
      back as those parts. */
  lemma ReadTimeParts(hh: string, mm: string, pm: bool)
    requires |hh| > 0 && IsDigits(hh) && 1 <= ParseDigits(hh) <= 12
    requires |mm| == 2 && IsDigits(mm)
    ensures ReadTime(hh + ":" + mm + MeridiemSuffix(pm)) == Some((To24(ParseDigits(hh), pm), ParseDigits(mm)))
  {
    var tail := mm + MeridiemSuffix(pm);
    var s := hh + ":" + mm + MeridiemSuffix(pm);
    assert s == hh + [':'] + tail;
    assert ':' !in hh by {
      assert forall i :: 0 <= i < |hh| ==> '0' <= hh[i] <= '9';
    }
    FirstComponentUpTo(hh, ':', tail);
    assert s[|hh| + 1..] == tail;
    assert tail[..2] == mm && tail[2..] == MeridiemSuffix(pm);
    assert MeridiemSuffix(true) != MeridiemSuffix(false) by {
      assert MeridiemSuffix(true)[1] != MeridiemSuffix(false)[1];
    }
  }

  // ---------------------------------------------------------------------------
  // Labels

  /** The count in a calendar day's label. */
  function CountPhrase(taskCount: int): string {
    if taskCount == 0 then "no tasks"
    else if taskCount == 1 then "1 task"
    else IntToString(taskCount) + " tasks"
  }

  /** `calendarDayLabel`: the label opens with the month and day and closes
      with the count phrase, which is singular exactly for one task. */
  function CalendarDayLabel(day: int, month: string, taskCount: int): (r: string)
    ensures StartsWith(r, month + " " + IntToString(day) + ", ")
    ensures EndsWith(r, CountPhrase(taskCount))
    ensures taskCount == 0 ==> EndsWith(r, "no tasks")
    ensures EndsWith(r, "1 task") <==> taskCount == 1
  {
    var head := month + " " + IntToString(day) + ", ";
    StartsWithConcat(head, CountPhrase(taskCount));
    EndsWithConcat(head, CountPhrase(taskCount));
    CountPhraseSingular(head, taskCount);
    head + CountPhrase(taskCount)
  }

  /** Only the count of one closes with "1 task": any other phrase ends in "s". */
  lemma CountPhraseSingular(head: string, taskCount: int)
    ensures EndsWith(head + CountPhrase(taskCount), "1 task") <==> taskCount == 1
  {
    var r := head + CountPhrase(taskCount);
    EndsWithConcat(head, CountPhrase(taskCount));
    CountPhrasePlural(taskCount);
    if taskCount != 1 && EndsWith(r, "1 task") {
      EndsWithTrans(r, CountPhrase(taskCount), "s");
      EndsWithAt(r, "1 task", 0);
      EndsWithAt(r, "s", 0);
    }
  }

  /** The count reads "no tasks" exactly for none, and is singular exactly for
      one task. */
  lemma CountPhrasePlural(taskCount: int)
    ensures CountPhrase(taskCount) == "no tasks" <==> taskCount == 0
    ensures !EndsWith(CountPhrase(taskCount), "s") <==> taskCount == 1
  {
    var p := CountPhrase(taskCount);
    if taskCount != 0 && taskCount != 1 {
      var n := IntToString(taskCount);
      assert p[0] == n[0];
      assert n[0] == '-' || '0' <= n[0] <= '9';
      EndsWithConcat(n + " task", "s");
      assert p == (n + " task") + "s";
    } else if taskCount == 1 {
      if EndsWith(p, "s") {
        EndsWithAt(p, "s", 0);
      }
    } else {
      EndsWithConcat("no task", "s");
    }
  }

  const NoStreak: string := "No active streak."
  const OneDay: string := "1 day streak."

  /** The opening sentence of a streak label. */
  function StreakOpening(current: int): string {
    if current == 0 then NoStreak + " Complete a task to start your streak."
    else if current == 1 then OneDay + " Keep going!"
    else IntToString(current) + " day streak. You're on fire!"
  }

  function LongestSentence(longest: int): string {
    "Longest streak: " + IntToString(longest) + " days"
  }

  /** `streakLabel`: the label opens with the current streak's sentence and
      closes with the longest streak. */
  function StreakLabel(current: int, longest: int): (r: string)
    ensures StartsWith(r, StreakOpening(current))
    ensures EndsWith(r, LongestSentence(longest))
  {
    JoinedParts(StreakOpening(current), " ", LongestSentence(longest));
    StreakOpening(current) + " " + LongestSentence(longest)
  }

  /** The three openings: no streak exactly at zero, the singular exactly at one. */
  lemma StreakOpeningCases(current: int)
    ensures StartsWith(StreakOpening(current), NoStreak) <==> current == 0
    ensures StartsWith(StreakOpening(current), OneDay) <==> current == 1
    ensures current != 0 && current != 1 ==>
      StreakOpening(current) == IntToString(current) + " day streak. You're on fire!"
  {
    var o := StreakOpening(current);
    if current == 0 {
      StartsWithConcat(NoStreak, " Complete a task to start your streak.");
      if StartsWith(o, OneDay) {
        StartsWithAt(o, OneDay, 0);
      }
    } else if current == 1 {
      StartsWithConcat(OneDay, " Keep going!");
      if StartsWith(o, NoStreak) {
        StartsWithAt(o, NoStreak, 0);
      }
    } else {
      var n := IntToString(current);
      assert o[0] == n[0];
      if StartsWith(o, NoStreak) {
        StartsWithAt(o, NoStreak, 0);
      }
      if current < 0 {
        assert o[0] == '-';
        if StartsWith(o, OneDay) {
          StartsWithAt(o, OneDay, 0);
        }
      } else if current < 10 {
        assert n == [DigitChar(current)];
        assert o[0] != '1';
        if StartsWith(o, OneDay) {
          StartsWithAt(o, OneDay, 0);
        }
      } else {
        assert o[1] == n[1];
        assert '0' <= o[1] <= '9';
        if StartsWith(o, OneDay) {
          StartsWithAt(o, OneDay, 1);
        }
      }
    }
  }

  /** `progressLabel`; `percent` stands for the floating-point percentage
      `Int(Double(completed) / Double(total) * 100)`. "No tasks today" is said
      exactly when there are no tasks; otherwise the label opens with the
      counts and closes with the percentage. */
  function ProgressLabel(completed: int, total: int, percent: int): (r: string)
    ensures r == "No tasks today" <==> total == 0
    ensures total != 0 ==>
      StartsWith(r, IntToString(completed) + " of " + IntToString(total) + " tasks completed, ")
    ensures total != 0 ==> EndsWith(r, IntToString(percent) + " percent progress")
  {
    if total == 0 then "No tasks today"
    else
      var head := IntToString(completed) + " of " + IntToString(total) + " tasks completed, ";
      var tail := IntToString(percent) + " percent progress";
      var r := head + tail;
      StartsWithConcat(head, tail);
      EndsWithConcat(head, tail);
      assert r[0] == '-' || '0' <= r[0] <= '9';
      r
  }

  /** The separator between the parts of a label. */
  const Sep: string := ", "

  /** The status word that closes a task label. */
  function StatusWord(isCompleted: bool): string {
    if isCompleted then "Completed" else "Not completed"
  }

  /** The close of a task label: the priority, then the status. */
  function PriorityStatus(priority: string, isCompleted: bool): string {
    priority + " priority" + Sep + StatusWord(isCompleted)
  }

  /** The due date and time of a task label. */
  function DueAt(d: string, time: string): string {
    "due " + d + " at " + time
  }

  /** Everything after the title and its separator: the due date and time when
      there is a due date, then the priority and the status. */
  function LabelRest(dueDate: Option<string>, time: string, priority: string, isCompleted: bool): string {
    match dueDate
    case Some(d) => DueAt(d, time) + Sep + PriorityStatus(priority, isCompleted)
    case None => PriorityStatus(priority, isCompleted)
  }

  /** `taskLabel`: the due date and time appear only with a due date. The label
      opens with the title and closes with the priority and a status that says
      "Completed" exactly for a completed task. */
  function TaskLabel(title: string, dueDate: Option<string>, time: string, priority: string, isCompleted: bool): (r: string)
    ensures StartsWith(r, title + ", ")
    ensures EndsWith(r, PriorityStatus(priority, isCompleted))
    ensures EndsWith(r, "Completed") <==> isCompleted
  {
    var rest := LabelRest(dueDate, time, priority, isCompleted);
    StartsWithConcat(title + Sep, rest);
    LabelCloses(title, dueDate, time, priority, isCompleted);
    StatusWordsDiffer(title + Sep + rest);
    title + Sep + rest
  }

  lemma {:induction false} LabelCloses(title: string, dueDate: Option<string>, time: string, priority: string, isCompleted: bool)
    ensures var r := title + Sep + LabelRest(dueDate, time, priority, isCompleted);
      EndsWith(r, PriorityStatus(priority, isCompleted)) && EndsWith(r, StatusWord(isCompleted))
  {
    var ps := PriorityStatus(priority, isCompleted);
    var rest := LabelRest(dueDate, time, priority, isCompleted);
    match dueDate {
      case Some(d) => EndsWithConcat(DueAt(d, time) + Sep, ps);
      case None => EndsWithConcat([], ps);
    }
    EndsWithPrepend(title + Sep, rest, ps);
    EndsWithConcat(priority + " priority" + Sep, StatusWord(isCompleted));
    EndsWithTrans(title + Sep + rest, ps, StatusWord(isCompleted));
  }

  /** "Completed" and "Not completed" differ at the letter the shorter one
      opens with, so no text ends with both. */
  lemma StatusWordsDiffer(r: string)
    ensures EndsWith(r, StatusWord(true)) ==> !EndsWith(r, StatusWord(false))
  {
    if EndsWith(r, StatusWord(true)) && EndsWith(r, StatusWord(false)) {
      EndsWithAt(r, StatusWord(true), 0);
      EndsWithAt(r, StatusWord(false), 4);
    }
  }

  /** A due date adds "due <date> at <time>" right after the title and leaves
      the rest of the label as it is without one. */
  lemma DueDateInserted(title: string, d: string, time: string, priority: string, isCompleted: bool)
    ensures TaskLabel(title, Some(d), time, priority, isCompleted)
      == title + Sep + DueAt(d, time) + TaskLabel(title, None, time, priority, isCompleted)[|title|..]
  {
    InsertAfterHead(title, Sep, DueAt(d, time), PriorityStatus(priority, isCompleted));
  }

  /** Inserting a part after the head of a separated list. */
  lemma InsertAfterHead(h: string, sep: string, x: string, rest: string)
    ensures h + sep + (x + sep + rest) == h + sep + x + (h + sep + rest)[|h|..]
  {
    assert (h + sep + rest)[|h|..] == sep + rest;
  }
}
