/** Daily completion streaks. Dates are whole day numbers (the start of the
    day in the user's calendar); "today" is a parameter. */
module Streak {
  import opened Wrappers
  import Strings

  datatype Milestone = Milestone(days: int, title: string, message: string, emoji: string)

  const MilestoneDays: seq<int> := [3, 7, 14, 30, 60, 100]

  /** `StreakMilestone.milestone(for:)`. */
  function MilestoneFor(days: int): (r: Option<Milestone>)
    ensures r.Some? <==> days in MilestoneDays
    ensures r.Some? ==> r.value.days == days
  {
    match days
    case 3 => Some(Milestone(3, "3 Day Streak!", "You're building momentum 💪", "🔥"))
    case 7 => Some(Milestone(7, "One Week Streak!", "A whole week of crushing it! 🎯", "🔥🔥"))
    case 14 => Some(Milestone(14, "Two Week Streak!", "You're unstoppable! 🚀", "🔥🔥🔥"))
    case 30 => Some(Milestone(30, "30 Day Streak!", "Legend status unlocked! 👑", "🏆"))
    case 60 => Some(Milestone(60, "60 Day Streak!", "Productivity master! 🌟", "⭐"))
    case 100 => Some(Milestone(100, "100 Day Streak!", "You're in the hall of fame! 🎖️", "💎"))
    case _ => None
  }

  /** `allMilestones`: the milestones of `MilestoneDays`, in that order. */
  function AllMilestones(): (r: seq<Milestone>)
    ensures |r| == |MilestoneDays|
    ensures forall i :: 0 <= i < |r| ==> r[i].days == MilestoneDays[i] && MilestoneFor(MilestoneDays[i]) == Some(r[i])
  {
    Collect(MilestoneDays)
  }

  /** `compactMap` of `MilestoneFor` over `ds`. */
  function Collect(ds: seq<int>): (r: seq<Milestone>)
    ensures |r| <= |ds|
    ensures (forall i :: 0 <= i < |ds| ==> MilestoneFor(ds[i]).Some?) ==>
      |r| == |ds| && forall i :: 0 <= i < |r| ==> MilestoneFor(ds[i]) == Some(r[i])
  {
    if |ds| == 0 then []
    else match MilestoneFor(ds[0])
      case Some(m) => [m] + Collect(ds[1..])
      case None => Collect(ds[1..])
  }

  datatype StreakState = StreakState(
    current: int,
    longest: int,
    lastDay: Option<int>,
    showMilestone: bool,
    milestoneReached: Option<Milestone>)

  /** A state the streak logic keeps sensible. */
  predicate Valid(s: StreakState) {
    0 <= s.current <= s.longest
  }

  /** `checkForMilestone`: raise the celebration on a milestone day; never lower it. */
  function CheckForMilestone(s: StreakState): (r: StreakState)
    ensures r.current == s.current && r.longest == s.longest && r.lastDay == s.lastDay
    ensures s.current in MilestoneDays ==> r.showMilestone && r.milestoneReached == MilestoneFor(s.current)
    ensures s.current !in MilestoneDays ==> r == s
  {
    match MilestoneFor(s.current)
    case Some(m) => s.(milestoneReached := Some(m), showMilestone := true)
    case None => s
  }

  /** `recordTaskCompletion` on day `today`. */
  function RecordTaskCompletion(s: StreakState, today: int): (r: StreakState)
    ensures s.lastDay == Some(today) ==> r == s
    ensures r.lastDay == Some(today)
    ensures s.lastDay == Some(today - 1) ==> r.current == s.current + 1
    ensures s.lastDay != Some(today) && s.lastDay != Some(today - 1) ==> r.current == 1
    ensures s.lastDay != Some(today) ==> r.longest == if r.current > s.longest then r.current else s.longest
    ensures s.lastDay != Some(today) && r.current in MilestoneDays ==>
      r.showMilestone && r.milestoneReached == MilestoneFor(r.current)
    ensures r.current !in MilestoneDays ==>
      r.showMilestone == s.showMilestone && r.milestoneReached == s.milestoneReached
  {
    var next :=
      match s.lastDay
      case None => 1
      case Some(last) =>
        var gap := today - last;
        if gap == 0 then s.current
        else if gap == 1 then s.current + 1
        else 1;
    if s.lastDay == Some(today) then s
    else
      var longest := if next > s.longest then next else s.longest;
      CheckForMilestone(s.(current := next, longest := longest, lastDay := Some(today)))
  }

  /** What `loadStreak` finds in storage (a missing integer reads as 0). */
  datatype Stored = Stored(current: int, longest: int, lastDay: Option<int>)

  /** `loadStreak`: a streak whose last day is more than one day ago is reset. */
  function LoadStreak(st: Stored, today: int): (r: StreakState)
    ensures r.longest == st.longest && r.lastDay == st.lastDay && !r.showMilestone
    ensures r.current == 0 <==> st.current == 0 || (st.lastDay.Some? && today - st.lastDay.value > 1)
    ensures r.current != 0 ==> r.current == st.current
  {
    var current :=
      if st.lastDay.Some? && today - st.lastDay.value > 1 then 0 else st.current;
    StreakState(current, st.longest, st.lastDay, false, None)
  }

  /** `streakEmoji`. */
  function StreakEmoji(current: int): string {
    if current == 0 then "💪"
    else if 1 <= current <= 2 then "🔥"
    else if 3 <= current <= 6 then "🔥🔥"
    else if 7 <= current <= 13 then "🔥🔥🔥"
    else "🚀"
  }

  /** The emoji's bucket: the length of streak it stands for. */
  function Bucket(current: int): int {
    if current == 0 then 0
    else if 1 <= current <= 2 then 1
    else if 3 <= current <= 6 then 2
    else if 7 <= current <= 13 then 3
    else 4
  }

  /** `streakMessage`. */
  function StreakMessage(current: int): (r: string)
    ensures current !in {0, 1, 2, 3, 7, 14, 30} ==>
      r == Strings.IntToString(current) + " days strong! Keep going"
  {
    match current
    case 0 => "Complete a task to start your streak!"
    case 1 => "Great start! Keep it going tomorrow"
    case 2 => "Two days strong! You're on a roll"
    case 3 => "Three day streak! You're crushing it"
    case 7 => "One week streak! Incredible!"
    case 14 => "Two weeks! You're unstoppable"
    case 30 => "30 days! You're a productivity legend"
    case _ => Strings.IntToString(current) + " days strong! Keep going"
  }

  // ---------------------------------------------------------------------------
  // Properties

  /** Recording a completion keeps the streak valid. */
  lemma RecordKeepsValid(s: StreakState, today: int)
    requires Valid(s)
    ensures Valid(RecordTaskCompletion(s, today))
    ensures s.lastDay != Some(today) ==> RecordTaskCompletion(s, today).current >= 1
    ensures RecordTaskCompletion(s, today).longest >= s.longest
  {
  }

  /** A second completion on the same day changes nothing. */
  lemma RecordIdempotent(s: StreakState, today: int)
    ensures RecordTaskCompletion(RecordTaskCompletion(s, today), today) == RecordTaskCompletion(s, today)
  {
  }

  /** Loading a valid stored streak gives a valid one. */
  lemma LoadKeepsValid(st: Stored, today: int)
    requires 0 <= st.current <= st.longest
    ensures Valid(LoadStreak(st, today))
  {
  }

  /** Completions on the given days, in order. */
  function RecordAll(s: StreakState, days: seq<int>): StreakState
    decreases |days|
  {
    if |days| == 0 then s else RecordAll(RecordTaskCompletion(s, days[0]), days[1..])
  }

  /** The `k` consecutive days starting at `start`. */
  function Consecutive(start: int, k: nat): (r: seq<int>)
    ensures |r| == k
    decreases k
  {
    if k == 0 then [] else [start] + Consecutive(start + 1, k - 1)
  }

  /** Completions on `k` consecutive days continuing yesterday's streak add `k`. */
  lemma {:induction false} ConsecutiveDaysExtend(s: StreakState, start: int, k: nat)
    requires s.lastDay == Some(start - 1)
    ensures RecordAll(s, Consecutive(start, k)).current == s.current + k
    ensures RecordAll(s, Consecutive(start, k)).lastDay == Some(start + k - 1)
    decreases k
  {
    if k > 0 {
      var s1 := RecordTaskCompletion(s, start);
      assert Consecutive(start, k)[1..] == Consecutive(start + 1, k - 1);
      ConsecutiveDaysExtend(s1, start + 1, k - 1);
    }
  }

  /** After a gap, `k` consecutive days give a streak of exactly `k`. */
  lemma {:induction false} ConsecutiveDaysAfterGap(s: StreakState, start: int, k: nat)
    requires k >= 1
    requires s.lastDay.None? || s.lastDay.value < start - 1 || s.lastDay.value > start
    ensures RecordAll(s, Consecutive(start, k)).current == k
  {
    RestartAfterGap(s, start);
    RecordFirstDay(s, start, k);
    ConsecutiveDaysExtend(RecordTaskCompletion(s, start), start + 1, k - 1);
  }

  /** After recording a non-empty list of days, the last of them is the last day. */
  lemma {:induction false} RecordAllLastDay(s: StreakState, days: seq<int>)
    requires |days| > 0
    ensures RecordAll(s, days).lastDay == Some(days[|days| - 1])
  {
    var pre, d := days[..|days| - 1], days[|days| - 1];
    assert days == pre + [d];
    RecordAllSnoc(s, pre, d);
  }

  /** The `i`-th of the consecutive days is `i` days after the start. */
  lemma {:induction false} ConsecutiveAt(start: int, k: nat, i: int)
    requires 0 <= i < k
    ensures Consecutive(start, k)[i] == start + i
    decreases k
  {
    if i > 0 {
      ConsecutiveAt(start + 1, k - 1, i - 1);
    }
  }

  /** A completion after a gap starts a new streak of one. */
  lemma {:induction false} RestartAfterGap(s: StreakState, today: int)
    requires s.lastDay.None? || s.lastDay.value < today - 1 || s.lastDay.value > today
    ensures RecordTaskCompletion(s, today).current == 1
    ensures RecordTaskCompletion(s, today).lastDay == Some(today)
  {
  }

  /** Recording consecutive days is recording the first, then the rest. */
  lemma {:induction false} RecordFirstDay(s: StreakState, start: int, k: nat)
    requires k >= 1
    ensures RecordAll(s, Consecutive(start, k))
      == RecordAll(RecordTaskCompletion(s, start), Consecutive(start + 1, k - 1))
  {
    RecordAllCons(s, start, Consecutive(start + 1, k - 1));
  }

  lemma {:induction false} RecordAllCons(s: StreakState, d: int, days: seq<int>)
    ensures RecordAll(s, [d] + days) == RecordAll(RecordTaskCompletion(s, d), days)
  {
    assert ([d] + days)[1..] == days;
  }

  /** The longest streak never falls below the current one while recording. */
  lemma {:induction false} RecordAllKeepsValid(s: StreakState, days: seq<int>)
    requires Valid(s)
    ensures Valid(RecordAll(s, days))
    ensures RecordAll(s, days).longest >= s.longest
    decreases |days|
  {
    if |days| > 0 {
      RecordKeepsValid(s, days[0]);
      RecordAllKeepsValid(RecordTaskCompletion(s, days[0]), days[1..]);
    }
  }

  /** The seventh consecutive day from a fresh start raises the one-week milestone. */
  lemma {:induction false} WeekMilestone(start: int)
    ensures var r := RecordAll(StreakState(0, 0, None, false, None), Consecutive(start, 7));
      r.current == 7 && r.showMilestone && r.milestoneReached == MilestoneFor(7)
      && r.milestoneReached.value.title == "One Week Streak!"
  {
    var s := StreakState(0, 0, None, false, None);
    var pre := Consecutive(start, 6);
    ConsecutiveDaysAfterGap(s, start, 6);
    RecordAllLastDay(s, pre);
    ConsecutiveAt(start, 6, 5);
    ConsecutiveSnoc(start, 6);
    RecordAllSnoc(s, pre, start + 6);
    var r := RecordTaskCompletion(RecordAll(s, pre), start + 6);
    assert r.current == 7;
  }

  lemma {:induction false} RecordAllSnoc(s: StreakState, days: seq<int>, d: int)
    ensures RecordAll(s, days + [d]) == RecordTaskCompletion(RecordAll(s, days), d)
    decreases |days|
  {
    if |days| == 0 {
      assert [d][1..] == [];
    } else {
      assert (days + [d])[1..] == days[1..] + [d];
      RecordAllSnoc(RecordTaskCompletion(s, days[0]), days[1..], d);
    }
  }

  lemma {:induction false} ConsecutiveSnoc(start: int, k: nat)
    ensures Consecutive(start, k + 1) == Consecutive(start, k) + [start + k]
    decreases k
  {
    if k > 0 {
      ConsecutiveSnoc(start + 1, k - 1);
    }
  }

  /** The emoji depends on the streak only through its bucket, and different
      buckets show different emoji. */
  lemma EmojiByBucket(a: int, b: int)
    requires a >= 0 && b >= 0
    ensures StreakEmoji(a) == StreakEmoji(b) <==> Bucket(a) == Bucket(b)
  {
  }
}
