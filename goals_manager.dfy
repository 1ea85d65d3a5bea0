/**
 * The savings-goals page: each goal's progress, the days left until its
 * target date, the status badge chosen by precedence, the completion flag
 * written when progress is added, and the "Add Progress" arithmetic.
 */
module GoalsManager {
  import opened Calendar
  import opened Text
  import opened Records

  /** Progress in percent, `current / target * 100`; the target must be positive, the division is not guarded. */
  function Progress(g: Goal): (p: real)
    requires g.targetAmount > 0
    ensures p * (g.targetAmount as real) == (g.currentAmount as real) * 100.0
  {
    (g.currentAmount as real / g.targetAmount as real) * 100.0
  }

  /**
   * `daysLeft`: whole days, rounded up, from `now` to midnight of the
   * target date; nothing when the goal has no target date.
   */
  function DaysLeft(g: Goal, now: Moment): Option<int>
    requires ValidMoment(now)
  {
    match g.targetDate
    case None => None
    case Some(td) => Some(CeilDiv(TimeOf(Moment(td, 0)) - TimeOf(now), MsPerDay))
  }

  /**
   * Rounding up cancels the time of day: the days left are the number of
   * calendar days from today to the target date, negative once it has passed.
   */
  lemma {:induction false} DaysLeftIsDayDifference(g: Goal, now: Moment)
    requires ValidMoment(now) && g.targetDate.Some?
    ensures DaysLeft(g, now) == Some(DayOf(g.targetDate.value) - DayOf(now.date))
  {
    var diff := TimeOf(Moment(g.targetDate.value, 0)) - TimeOf(now);
    var r := CeilDiv(diff, MsPerDay);
    var n := DayOf(g.targetDate.value) - DayOf(now.date);
    assert diff == n * MsPerDay - now.msOfDay;
    assert (r - n + 1) * MsPerDay > 0;
    assert (r - n - 1) * MsPerDay < 0;
  }

  datatype GoalStatus = Completed | Overdue | AlmostThere | OnTrack | JustStarted

  /** The badge text of a status. */
  function StatusText(s: GoalStatus): string
  {
    match s
    case Completed => "Completed"
    case Overdue => "Overdue"
    case AlmostThere => "Almost There"
    case OnTrack => "On Track"
    case JustStarted => "Just Started"
  }

  /** The badge style of a status. */
  function StatusVariant(s: GoalStatus): string
  {
    match s
    case Completed => "default"
    case Overdue => "destructive"
    case AlmostThere => "default"
    case OnTrack => "secondary"
    case JustStarted => "secondary"
  }

  /** The text colour of a status. */
  function StatusColor(s: GoalStatus): string
  {
    match s
    case Completed => "text-income"
    case Overdue => "text-expense"
    case AlmostThere => "text-savings"
    case OnTrack => "text-primary"
    case JustStarted => "text-muted-foreground"
  }

  /** JavaScript's `daysLeft && daysLeft < 0`: a present, non-zero, negative count. */
  predicate IsOverdue(daysLeft: Option<int>)
  {
    daysLeft.Some? && daysLeft.value != 0 && daysLeft.value < 0
  }

  /**
   * `getGoalStatus`: completed first, then overdue, then by uncapped
   * progress at 75% and 50%.
   */
  function GetGoalStatus(g: Goal, now: Moment): GoalStatus
    requires g.targetAmount > 0 && ValidMoment(now)
  {
    var progress := Progress(g);
    if g.isCompleted then Completed
    else if IsOverdue(DaysLeft(g, now)) then Overdue
    else if progress >= 75.0 then AlmostThere
    else if progress >= 50.0 then OnTrack
    else JustStarted
  }

  /**
   * The status by the goal's own figures: a completed goal is "Completed"
   * whatever its progress or date; otherwise it is "Overdue" exactly when
   * it has a target date before today; otherwise the thresholds are three
   * quarters and one half of the target.
   */
  lemma {:induction false} GoalStatusSpec(g: Goal, now: Moment)
    requires g.targetAmount > 0 && ValidMoment(now)
    ensures GetGoalStatus(g, now) == Completed <==> g.isCompleted
    ensures GetGoalStatus(g, now) == Overdue <==>
      !g.isCompleted && g.targetDate.Some? && DayOf(g.targetDate.value) < DayOf(now.date)
    ensures var notDue := !g.isCompleted && !(g.targetDate.Some? && DayOf(g.targetDate.value) < DayOf(now.date));
      && (GetGoalStatus(g, now) == AlmostThere <==> notDue && 4 * g.currentAmount >= 3 * g.targetAmount)
      && (GetGoalStatus(g, now) == OnTrack <==>
            notDue && 2 * g.currentAmount >= g.targetAmount && 4 * g.currentAmount < 3 * g.targetAmount)
      && (GetGoalStatus(g, now) == JustStarted <==> notDue && 2 * g.currentAmount < g.targetAmount)
  {
    assert g.targetDate.Some? ==> DaysLeft(g, now) == Some(DayOf(g.targetDate.value) - DayOf(now.date)) by {
      if g.targetDate.Some? {
        DaysLeftIsDayDifference(g, now);
      }
    }
    ProgressThreshold(g, 75.0, 3, 4);
    ProgressThreshold(g, 50.0, 1, 2);
  }

  /** Progress reaches `k` percent exactly when `den * current >= num * target`, where `k == 100 * num / den`. */
  lemma {:induction false} ProgressThreshold(g: Goal, k: real, num: int, den: int)
    requires g.targetAmount > 0 && den > 0 && k * (den as real) == 100.0 * (num as real)
    ensures Progress(g) >= k <==> den * g.currentAmount >= num * g.targetAmount
  {
    var p, t, c := Progress(g), g.targetAmount as real, g.currentAmount as real;
    var d := den as real;
    assert p * t == c * 100.0;
    assert p >= k <==> p * t * d >= k * t * d by {
      assert p * t * d - k * t * d == (p - k) * (t * d);
      assert t * d > 0.0;
    }
    assert k * t * d == 100.0 * (num as real) * t;
    assert p * t * d == c * 100.0 * d;
    assert (den * g.currentAmount) as real == d * c;
    assert (num * g.targetAmount) as real == (num as real) * t;
  }

  /** A goal without a target date is never "Overdue". */
  lemma {:induction false} NoTargetDateNeverOverdue(g: Goal, now: Moment)
    requires g.targetAmount > 0 && ValidMoment(now) && g.targetDate.None?
    ensures GetGoalStatus(g, now) != Overdue
  {
  }

  /** Position `i` holds the first goal with id `id`. */
  predicate IsFirstWithId(goals: seq<Goal>, id: string, i: int)
  {
    0 <= i < |goals| && goals[i].id == id && forall j :: 0 <= j < i ==> goals[j].id != id
  }

  /** `goals.find(g => g.id === id)`: the first goal with that id. */
  function Find(goals: seq<Goal>, id: string): (r: Option<Goal>)
    ensures r.None? <==> forall i :: 0 <= i < |goals| ==> goals[i].id != id
    ensures r.Some? ==> exists i :: IsFirstWithId(goals, id, i) && goals[i] == r.value
  {
    if goals == [] then None
    else if goals[0].id == id then
      assert IsFirstWithId(goals, id, 0);
      Some(goals[0])
    else
      var r := Find(goals[1..], id);
      if r.Some? then
        var i :| IsFirstWithId(goals[1..], id, i) && goals[1..][i] == r.value;
        assert IsFirstWithId(goals, id, i + 1);
        r
      else r
  }

  /** The fields `updateGoalProgress` writes. */
  datatype GoalPatch = GoalPatch(currentAmount: Cents, isCompleted: bool)

  /**
   * `updateGoalProgress(goalId, newAmount)`: the new amount, and the
   * completion flag `newAmount >= target`, false when no goal has the id
   * (a comparison with `undefined`).
   */
  function ProgressPatch(goals: seq<Goal>, goalId: string, newAmount: Cents): (p: GoalPatch)
    ensures p.currentAmount == newAmount
    ensures p.isCompleted <==> exists i :: IsFirstWithId(goals, goalId, i) && newAmount >= goals[i].targetAmount
  {
    var target := Find(goals, goalId);
    if target.Some? then
      var i :| IsFirstWithId(goals, goalId, i) && goals[i] == target.value;
      assert forall k :: IsFirstWithId(goals, goalId, k) ==> k == i;
      GoalPatch(newAmount, newAmount >= target.value.targetAmount)
    else
      GoalPatch(newAmount, false)
  }

  /**
   * "Add Progress" on goal `g`: `entered` is the prompt's answer (None when
   * cancelled) and `number` is JavaScript's `Number` on text (None for NaN).
   * An update is made only for a non-empty, numeric answer, and then sets
   * the amount to the current amount plus the entered one.
   */
  function AddProgress(goals: seq<Goal>, g: Goal, entered: Option<string>, number: string -> Option<Cents>): (r: Option<GoalPatch>)
    ensures r.Some? <==> entered.Some? && entered.value != "" && number(entered.value).Some?
    ensures r.Some? ==> r.value.currentAmount == g.currentAmount + number(entered.value).value
  {
    if entered.Some? && entered.value != "" && number(entered.value).Some? then
      Some(ProgressPatch(goals, g.id, g.currentAmount + number(entered.value).value))
    else None
  }

  /** For a goal listed first under its id, added progress completes it exactly when it reaches the target. */
  lemma {:induction false} AddProgressCompletes(goals: seq<Goal>, k: int, entered: Option<string>, number: string -> Option<Cents>)
    requires 0 <= k < |goals| && IsFirstWithId(goals, goals[k].id, k)
    ensures var r := AddProgress(goals, goals[k], entered, number);
      r.Some? ==> (r.value.isCompleted <==> r.value.currentAmount >= goals[k].targetAmount)
  {
    assert forall i :: IsFirstWithId(goals, goals[k].id, i) ==> i == k;
  }

  /**
   * The days label: while the count is positive, its decimal digits and
   * " days left"; otherwise the digits of its magnitude and " days overdue".
   */
  function DaysLabel(n: int): (s: string)
    ensures n > 0 ==>
      |s| > 10 && s[|s| - 10..] == " days left" && CanonicalDigits(s[..|s| - 10]) && DecimalValue(s[..|s| - 10]) == n
    ensures n <= 0 ==>
      |s| > 13 && s[|s| - 13..] == " days overdue" && CanonicalDigits(s[..|s| - 13]) && DecimalValue(s[..|s| - 13]) == -n
  {
    if n > 0 then
      var digits := IntToDecimal(n);
      NatToDecimalValue(n);
      var s := digits + " days left";
      assert s[..|s| - 10] == digits;
      s
    else
      var digits := NatToDecimal(-n);
      NatToDecimalValue(-n);
      var s := digits + " days overdue";
      assert s[..|s| - 13] == digits;
      s
  }

  /** What a goal's card shows. */
  datatype GoalCard = GoalCard(
    bar: real,
    progress: real,
    remaining: Cents,
    status: GoalStatus,
    daysLabel: Option<string>,
    showControls: bool)

  /**
   * A goal's card: the bar is the progress capped at 100 while the status
   * uses the uncapped figure, the remaining amount is target minus current
   * (negative past the target), the days label appears with a target date,
   * and the update and delete controls only on goals not completed.
   */
  function Card(g: Goal, now: Moment): (c: GoalCard)
    requires g.targetAmount > 0 && ValidMoment(now)
    ensures c.bar <= 100.0 && (c.progress <= 100.0 ==> c.bar == c.progress) && (c.progress > 100.0 ==> c.bar == 100.0)
    ensures c.progress == Progress(g) && c.status == GetGoalStatus(g, now)
    ensures c.remaining + g.currentAmount == g.targetAmount
    ensures c.daysLabel ==
      if g.targetDate.Some? then Some(DaysLabel(DayOf(g.targetDate.value) - DayOf(now.date))) else None
    ensures c.showControls <==> !g.isCompleted
  {
    assert g.targetDate.Some? ==> DaysLeft(g, now) == Some(DayOf(g.targetDate.value) - DayOf(now.date)) by {
      if g.targetDate.Some? {
        DaysLeftIsDayDifference(g, now);
      }
    }
    var progress := Progress(g);
    var days := DaysLeft(g, now);
    GoalCard(
      if progress < 100.0 then progress else 100.0,
      progress,
      g.targetAmount - g.currentAmount,
      GetGoalStatus(g, now),
      if days.Some? then Some(DaysLabel(days.value)) else None,
      !g.isCompleted)
  }
}
