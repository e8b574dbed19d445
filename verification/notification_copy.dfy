/** The notification copy: the predefined templates and their placeholder
    substitution. A replacement dictionary is given as its key/value pairs in
    the order the dictionary yields them. */
module NotificationCopy {
  import opened Strings

  /** Where tapping a notification leads. */
  datatype Action = OpenTask | OpenDashboard | OpenPremium

  /** The action's identifier in the notification's payload; distinct actions
      have distinct identifiers. */
  function ActionId(a: Action): (r: string)
    ensures r in {"open_task", "open_dashboard", "open_premium"}
    ensures a == OpenTask <==> r == "open_task"
    ensures a == OpenPremium <==> r == "open_premium"
  {
    match a
    case OpenTask => "open_task"
    case OpenDashboard => "open_dashboard"
    case OpenPremium => "open_premium"
  }

  datatype Template = Template(title: string, body: string, action: Action)

  const DueSoonRest: string := " is due in 15 minutes"

  /** The due-soon body, "{task_title} is due in 15 minutes", is written as its
      placeholder followed by the rest of the sentence. */
  const TaskDueSoon: Template := Template("Heads up! 👋", Placeholder("task_title") + DueSoonRest, OpenTask)
  const TaskDueNow: Template := Template("Time to act! ⏰", "{task_title} is due now", OpenTask)
  const TaskOverdue: Template := Template("Hey, don't forget! 🔔", "{task_title} needs your attention", OpenTask)
  const DailyMorningReminder: Template :=
    Template("Good morning! ☀️", "You have {count} tasks today. Let's crush them!", OpenDashboard)
  const DailyAfternoonReminder: Template :=
    Template("Afternoon check-in 👋", "{count} tasks left. You're doing great!", OpenDashboard)
  const DailyEveningReminder: Template :=
    Template("Evening wind-down 🌙", "{count} tasks remaining. Almost there!", OpenDashboard)
  const StreakAtRisk: Template :=
    Template("Don't break the streak! 🔥", "Complete one task to keep your {streak_days} day streak alive", OpenDashboard)
  const StreakMilestone: Template :=
    Template("Milestone reached! 🎉", "{streak_days} day streak! You're crushing it!", OpenDashboard)
  const WeeklyProgress: Template :=
    Template("Weekly wins! 🌟", "You completed {count} tasks this week. Keep going!", OpenDashboard)
  const AiTasksCreated: Template :=
    Template("Tasks created! ✓", "I created {count} tasks from your message", OpenDashboard)
  const AiSuggestion: Template :=
    Template("Smart suggestion 💡", "Based on your tasks, try {suggestion}", OpenDashboard)
  const TaskCompleted: Template := Template("Task done! 🎯", "{task_title} is now complete", OpenDashboard)
  const AllTasksComplete: Template :=
    Template("All done! Time to chill 😎", "Every task is checked off. You earned a break!", OpenDashboard)
  const RecurringTaskCreated: Template := Template("New task added 📝", "{task_title} is ready for you", OpenTask)
  const PremiumTrialEnding: Template :=
    Template("Trial ending soon ⏰", "3 days left to try premium. Loving it?", OpenPremium)
  const NewFeature: Template :=
    Template("New feature! ✨", "{feature_name} is now available. Check it out!", OpenDashboard)
  const ComeBackNudge: Template :=
    Template("We miss you! 👋", "Your tasks are waiting. Come back when you're ready", OpenDashboard)
  const MotivationalNudge: Template :=
    Template("You got this! 💪", "Small steps add up. Complete one task today?", OpenDashboard)
  const HighPriorityDue: Template := Template("Urgent! 🚨", "{task_title} needs attention now", OpenTask)
  const MultipleOverdue: Template :=
    Template("Catching up time 📚", "{count} tasks are overdue. Let's tackle them!", OpenDashboard)

  /** Every predefined template, in declaration order. */
  const Templates: seq<Template> := [
    TaskDueSoon, TaskDueNow, TaskOverdue, DailyMorningReminder, DailyAfternoonReminder,
    DailyEveningReminder, StreakAtRisk, StreakMilestone, WeeklyProgress, AiTasksCreated,
    AiSuggestion, TaskCompleted, AllTasksComplete, RecurringTaskCreated, PremiumTrialEnding,
    NewFeature, ComeBackNudge, MotivationalNudge, HighPriorityDue, MultipleOverdue
  ]

  /** The templates that deep-link to the task itself. */
  predicate OpensTask(t: Template) {
    t in [TaskDueSoon, TaskDueNow, TaskOverdue, RecurringTaskCreated, HighPriorityDue]
  }

  /** Every template deep-links to the task for the five task-specific ones, to
      the premium screen for the trial ending, and to the dashboard otherwise. */
  lemma TemplateActions()
    ensures |Templates| == 20
    ensures forall i :: 0 <= i < |Templates| ==>
      (Templates[i].action == OpenTask <==> OpensTask(Templates[i]))
    ensures forall i :: 0 <= i < |Templates| ==>
      (Templates[i].action == OpenPremium <==> Templates[i] == PremiumTrialEnding)
  {
  }

  // ---------------------------------------------------------------------------
  // Substitution

  /** The placeholder for a key. */
  function Placeholder(key: string): (p: string)
    ensures |p| == |key| + 2 && p[0] == '{' && p[|p| - 1] == '}'
    ensures p[1..|p| - 1] == key
  {
    "{" + key + "}"
  }

  /** Replaces each key's placeholder in turn, in the dictionary's order. */
  function Substitute(text: string, pairs: seq<(string, string)>): (r: string)
    ensures |pairs| == 0 ==> r == text
    ensures |pairs| == 1 ==> r == ReplaceAll(text, Placeholder(pairs[0].0), pairs[0].1)
    decreases |pairs|
  {
    if |pairs| == 0 then text
    else Substitute(ReplaceAll(text, Placeholder(pairs[0].0), pairs[0].1), pairs[1..])
  }

  /** Substituting one dictionary after another is substituting their
      concatenation. */
  lemma {:induction false} SubstituteAppend(text: string, a: seq<(string, string)>, b: seq<(string, string)>)
    ensures Substitute(text, a + b) == Substitute(Substitute(text, a), b)
    decreases |a|
  {
    if |a| > 0 {
      assert (a + b)[0] == a[0];
      assert (a + b)[1..] == a[1..] + b;
      SubstituteAppend(ReplaceAll(text, Placeholder(a[0].0), a[0].1), a[1..], b);
    } else {
      assert a + b == b;
    }
  }

  /** `format(replacements:)`: the same replacements applied to title and body. */
  function Format(t: Template, pairs: seq<(string, string)>): (r: (string, string))
    ensures pairs == [] ==> r == (t.title, t.body)
    ensures |pairs| == 1 ==>
      var p := Placeholder(pairs[0].0);
      r == (ReplaceAll(t.title, p, pairs[0].1), ReplaceAll(t.body, p, pairs[0].1))
  {
    (Substitute(t.title, pairs), Substitute(t.body, pairs))
  }

  /** Title and body are treated alike: swapping them swaps the results. */
  lemma FormatTreatsFieldsAlike(t: Template, pairs: seq<(string, string)>)
    ensures Format(Template(t.body, t.title, t.action), pairs) == (Format(t, pairs).1, Format(t, pairs).0)
    ensures Format(t, pairs).0 == Format(Template(t.title, t.title, t.action), pairs).1
  {
  }

  /** A text in which no key's placeholder occurs comes back unchanged. */
  lemma {:induction false} SubstituteAbsent(text: string, pairs: seq<(string, string)>)
    requires forall i :: 0 <= i < |pairs| ==> !Contains(text, Placeholder(pairs[i].0))
    ensures Substitute(text, pairs) == text
    decreases |pairs|
  {
    if |pairs| > 0 {
      SubstituteAbsent(text, pairs[1..]);
    }
  }

  /** A text without an opening brace has no placeholder to fill. */
  lemma NoBraceNoChange(text: string, pairs: seq<(string, string)>)
    requires '{' !in text
    ensures Substitute(text, pairs) == text
  {
    forall i | 0 <= i < |pairs| ensures !Contains(text, Placeholder(pairs[i].0)) {
      AbsentChar(text, Placeholder(pairs[i].0), 0);
    }
    SubstituteAbsent(text, pairs);
  }

  /** A placeholder at the head of a text is replaced, the rest scanned on. */
  lemma ReplaceAtHead(pat: string, rest: string, rep: string)
    requires |pat| > 0
    ensures ReplaceAll(pat + rest, pat, rep) == rep + ReplaceAll(rest, pat, rep)
  {
    assert (pat + rest)[..|pat|] == pat;
    assert (pat + rest)[|pat|..] == rest;
  }

  /** A body that opens with one placeholder and has no other brace, under a
      title with no brace, is filled by naming the value in front of the rest. */
  lemma LeadingPlaceholderFilled(t: Template, key: string, rest: string, value: string)
    requires t.body == Placeholder(key) + rest
    requires '{' !in t.title && '{' !in rest
    ensures Format(t, [(key, value)]) == (t.title, value + rest)
  {
    var p := Placeholder(key);
    ReplaceAtHead(p, rest, value);
    AbsentChar(rest, p, 0);
    NoBraceNoChange(t.title, [(key, value)]);
    assert Substitute(t.body, [(key, value)]) == Substitute(ReplaceAll(t.body, p, value), []);
  }

  /** Nothing in the due-soon template but its placeholder has a brace. */
  lemma TaskDueSoonShape()
    ensures '{' !in TaskDueSoon.title && '{' !in DueSoonRest
  {
  }

  /** Filling the due-soon reminder names the task in the body and leaves the
      title as written. */
  lemma TaskDueSoonFilled(name: string)
    ensures Format(TaskDueSoon, [("task_title", name)]) == (TaskDueSoon.title, name + DueSoonRest)
  {
    TaskDueSoonShape();
    LeadingPlaceholderFilled(TaskDueSoon, "task_title", DueSoonRest, name);
  }
}
