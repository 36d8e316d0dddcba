/** The daily-goal service: one goal per user and day with a target and the
    minutes done, an `achieved` flag kept equal to "done reaches target", the
    default goal of a day without one, and the streak of consecutive days
    with an achieved goal. */
module DailyGoals {
  import opened Common

  /** A row of the `DailyGoals` collection. */
  datatype Goal = Goal(user: UserId, date: Day, targetMinutes: int, completedMinutes: int, achieved: bool)

  /** The fields a caller passes to `saveDailyGoal`. */
  datatype GoalData = GoalData(targetMinutes: int, completedMinutes: int)

  /** What `getTodayGoal` reports. */
  datatype GoalView = GoalView(targetMinutes: int, completedMinutes: int, achieved: bool)

  /** The target of a goal created by the first minutes of a day. */
  const DefaultTargetMinutes: int := 30

  predicate IsToday(g: Goal, user: UserId, today: Day) {
    g.user == user && g.date == today
  }

  /** The first goal of the user for the day, as a one-item query returns it. */
  function FindGoal(goals: seq<Goal>, user: UserId, today: Day): (m: Option<nat>)
    ensures m.None? <==> forall i :: 0 <= i < |goals| ==> !IsToday(goals[i], user, today)
    ensures m.Some? ==> m.value < |goals| && IsToday(goals[m.value], user, today)
  {
    if goals == [] then None
    else if IsToday(goals[0], user, today) then Some(0)
    else
      match FindGoal(goals[1..], user, today)
      case None => None
      case Some(i) => Some(i + 1)
  }

  /** Every stored goal is flagged achieved exactly when its minutes reach its target. */
  ghost predicate AchievedConsistent(goals: seq<Goal>) {
    forall i :: 0 <= i < |goals| ==> (goals[i].achieved <==> goals[i].completedMinutes >= goals[i].targetMinutes)
  }

  /** No user has two goals for the same day. */
  ghost predicate OneGoalPerDay(goals: seq<Goal>) {
    forall i, j :: 0 <= i < j < |goals| ==> !(goals[i].user == goals[j].user && goals[i].date == goals[j].date)
  }

  /** The collection after `saveDailyGoal`: today's goal takes the data and a
      recomputed flag, or a new goal is appended when there is none. */
  function Saved(goals: seq<Goal>, user: UserId, data: GoalData, today: Day): (r: seq<Goal>)
    ensures FindGoal(goals, user, today).Some? ==> |r| == |goals|
    ensures FindGoal(goals, user, today).Some? ==>
      var i := FindGoal(goals, user, today).value;
      && r[i] == Goal(user, today, data.targetMinutes, data.completedMinutes, data.completedMinutes >= data.targetMinutes)
      && forall j :: 0 <= j < |goals| && j != i ==> r[j] == goals[j]
    ensures FindGoal(goals, user, today).None? ==> r == goals + [Goal(user, today, data.targetMinutes, data.completedMinutes, data.completedMinutes >= data.targetMinutes)]
  {
    var achieved := data.completedMinutes >= data.targetMinutes;
    match FindGoal(goals, user, today)
    case Some(i) => goals[i := goals[i].(targetMinutes := data.targetMinutes, completedMinutes := data.completedMinutes, achieved := achieved)]
    case None => goals + [Goal(user, today, data.targetMinutes, data.completedMinutes, achieved)]
  }

  /** The collection after `updateCompletedMinutes`: the minutes are added to
      today's goal, whose target stays, or a goal with the default target is
      created holding just these minutes. */
  function Credited(goals: seq<Goal>, user: UserId, minutes: int, today: Day): (r: seq<Goal>)
    ensures FindGoal(goals, user, today).Some? ==> |r| == |goals|
    ensures FindGoal(goals, user, today).Some? ==>
      var i := FindGoal(goals, user, today).value;
      && IsToday(r[i], user, today) && r[i].targetMinutes == goals[i].targetMinutes
      && r[i].completedMinutes == goals[i].completedMinutes + minutes
      && (r[i].achieved <==> r[i].completedMinutes >= r[i].targetMinutes)
      && forall j :: 0 <= j < |goals| && j != i ==> r[j] == goals[j]
    ensures FindGoal(goals, user, today).None? ==> r == goals + [Goal(user, today, DefaultTargetMinutes, minutes, minutes >= DefaultTargetMinutes)]
  {
    match FindGoal(goals, user, today)
    case Some(i) =>
      var done := goals[i].completedMinutes + minutes;
      goals[i := goals[i].(completedMinutes := done, achieved := done >= goals[i].targetMinutes)]
    case None => goals + [Goal(user, today, DefaultTargetMinutes, minutes, minutes >= DefaultTargetMinutes)]
  }

  /** `getTodayGoal`'s answer for a collection: today's goal, or the default
      of 30 minutes with none done. */
  function TodayView(goals: seq<Goal>, user: UserId, today: Day): (v: GoalView)
    ensures FindGoal(goals, user, today).None? ==> v == GoalView(DefaultTargetMinutes, 0, false)
    ensures FindGoal(goals, user, today).Some? ==>
      var g := goals[FindGoal(goals, user, today).value];
      v == GoalView(g.targetMinutes, g.completedMinutes, g.achieved)
  {
    match FindGoal(goals, user, today)
    case None => GoalView(DefaultTargetMinutes, 0, false)
    case Some(i) => GoalView(goals[i].targetMinutes, goals[i].completedMinutes, goals[i].achieved)
  }

  /** Saving keeps every flag consistent and at most one goal per day, and
      touches no goal of another user or day. */
  lemma SavedKeepsInvariants(goals: seq<Goal>, user: UserId, data: GoalData, today: Day)
    requires AchievedConsistent(goals) && OneGoalPerDay(goals)
    ensures AchievedConsistent(Saved(goals, user, data, today)) && OneGoalPerDay(Saved(goals, user, data, today))
    ensures forall i :: 0 <= i < |goals| && !IsToday(goals[i], user, today) ==> Saved(goals, user, data, today)[i] == goals[i]
  {
  }

  /** Crediting minutes keeps every flag consistent and at most one goal per
      day, and touches no goal of another user or day. */
  lemma CreditedKeepsInvariants(goals: seq<Goal>, user: UserId, minutes: int, today: Day)
    requires AchievedConsistent(goals) && OneGoalPerDay(goals)
    ensures AchievedConsistent(Credited(goals, user, minutes, today)) && OneGoalPerDay(Credited(goals, user, minutes, today))
    ensures forall i :: 0 <= i < |goals| && !IsToday(goals[i], user, today) ==> Credited(goals, user, minutes, today)[i] == goals[i]
  {
  }

  /** The default view and the creation rule agree: after crediting m minutes,
      today's view shows the earlier minutes (0 by default) plus m, the same
      target, and the flag "done reaches target". */
  lemma CreditThenView(goals: seq<Goal>, user: UserId, minutes: int, today: Day)
    requires OneGoalPerDay(goals)
    ensures var before := TodayView(goals, user, today);
      var after := TodayView(Credited(goals, user, minutes, today), user, today);
      && after.targetMinutes == before.targetMinutes
      && after.completedMinutes == before.completedMinutes + minutes
      && (after.achieved <==> after.completedMinutes >= after.targetMinutes)
  {
    var r := Credited(goals, user, minutes, today);
    match FindGoal(goals, user, today)
    case None =>
      assert IsToday(r[|goals|], user, today);
      assert FindGoal(r, user, today) == Some(|goals|);
    case Some(i) =>
      assert FindGoal(r, user, today) == Some(i) by { FindGoalUnique(r, user, today, i); }
  }

  /** In a collection with one goal per day, a goal of the user for the day is
      the one the query finds. */
  lemma FindGoalUnique(goals: seq<Goal>, user: UserId, today: Day, i: nat)
    requires i < |goals| && IsToday(goals[i], user, today)
    requires forall j :: 0 <= j < |goals| && j != i ==> !IsToday(goals[j], user, today)
    ensures FindGoal(goals, user, today) == Some(i)
  {
  }

  class GoalStore {
    /** The `DailyGoals` collection. */
    var goals: seq<Goal>

    constructor ()
      ensures goals == []
    {
      goals := [];
    }

    /** `saveDailyGoal`. */
    method SaveDailyGoal(auth: Option<UserId>, data: GoalData, today: Day) returns (r: Outcome<Goal>)
      modifies this
      ensures auth.None? ==> r == Failure(NotAuthenticated) && goals == old(goals)
      ensures auth.Some? ==> goals == Saved(old(goals), auth.value, data, today)
      ensures auth.Some? ==> r.Success? && IsToday(r.data, auth.value, today) && r.data in goals
      ensures auth.Some? ==> r.data.targetMinutes == data.targetMinutes && r.data.completedMinutes == data.completedMinutes
      ensures auth.Some? ==> (r.data.achieved <==> data.completedMinutes >= data.targetMinutes)
    {
      if auth.None? {
        return Failure(NotAuthenticated);
      }
      var userId := auth.value;
      var existing := FindGoal(goals, userId, today);
      var achieved := data.completedMinutes >= data.targetMinutes;
      if existing.Some? {
        var updated := goals[existing.value].(targetMinutes := data.targetMinutes,
                                              completedMinutes := data.completedMinutes, achieved := achieved);
        goals := goals[existing.value := updated];
        assert goals[existing.value] == updated;
        r := Success(updated);
      } else {
        var created := Goal(userId, today, data.targetMinutes, data.completedMinutes, achieved);
        goals := goals + [created];
        r := Success(created);
      }
    }

    /** `getTodayGoal`. */
    function GetTodayGoal(auth: Option<UserId>, today: Day): (r: Outcome<GoalView>)
      reads this
      ensures auth.None? ==> r == Failure(NotAuthenticated)
      ensures auth.Some? ==> r == Success(TodayView(goals, auth.value, today))
    {
      if auth.None? then Failure(NotAuthenticated) else Success(TodayView(goals, auth.value, today))
    }

    /** `updateCompletedMinutes`. */
    method UpdateCompletedMinutes(auth: Option<UserId>, additionalMinutes: int, today: Day) returns (r: Outcome<Goal>)
      modifies this
      ensures auth.None? ==> r == Failure(NotAuthenticated) && goals == old(goals)
      ensures auth.Some? ==> goals == Credited(old(goals), auth.value, additionalMinutes, today)
      ensures auth.Some? ==> r.Success? && IsToday(r.data, auth.value, today) && r.data in goals
      ensures auth.Some? ==> (r.data.achieved <==> r.data.completedMinutes >= r.data.targetMinutes)
      // the goal returned is the one just credited or created
      ensures auth.Some? ==>
        var f := FindGoal(old(goals), auth.value, today);
        && r.data.completedMinutes == (if f.Some? then old(goals)[f.value].completedMinutes else 0) + additionalMinutes
        && r.data.targetMinutes == (if f.Some? then old(goals)[f.value].targetMinutes else DefaultTargetMinutes)
    {
      if auth.None? {
        return Failure(NotAuthenticated);
      }
      var userId := auth.value;
      var existing := FindGoal(goals, userId, today);
      if existing.None? {
        var created := Goal(userId, today, DefaultTargetMinutes, additionalMinutes, additionalMinutes >= DefaultTargetMinutes);
        goals := goals + [created];
        r := Success(created);
      } else {
        var existingGoal := goals[existing.value];
        var newCompletedMinutes := existingGoal.completedMinutes + additionalMinutes;
        var updated := existingGoal.(completedMinutes := newCompletedMinutes,
                                     achieved := newCompletedMinutes >= existingGoal.targetMinutes);
        goals := goals[existing.value := updated];
        assert goals[existing.value] == updated;
        r := Success(updated);
      }
    }
  }

  // ---------------------------------------------------------------------------
  // Streak
  // ---------------------------------------------------------------------------

  /** `getList(1, 100, …)`. */
  const StreakPageSize: nat := 100

  /** Number of leading adjacent pairs exactly one day apart. */
  function LeadingRun(dates: seq<Day>): (n: nat)
    ensures |dates| > 0 ==> n <= |dates| - 1
    ensures |dates| <= 1 ==> n == 0
  {
    if |dates| < 2 then 0
    else if dates[0] - dates[1] == 1 then 1 + LeadingRun(dates[1..])
    else 0
  }

  /** The streak for the achieved goals' dates, newest first: none without
      goals or when the newest is older than yesterday; otherwise the newest
      day plus every following day that continues the run. */
  function Streak(dates: seq<Day>, today: Day): (n: nat)
    ensures dates == [] || today - dates[0] > 1 ==> n == 0
    ensures dates != [] && today - dates[0] <= 1 ==> 1 <= n <= |dates|
  {
    if dates == [] || today - dates[0] > 1 then 0 else 1 + LeadingRun(dates)
  }

  /** The streak is a run of consecutive days ending no earlier than yesterday,
      and the day after the run (if any) breaks it. */
  lemma {:induction false} LeadingRunIsConsecutive(dates: seq<Day>)
    ensures forall i :: 0 <= i < LeadingRun(dates) ==> dates[i] - dates[i + 1] == 1
    ensures LeadingRun(dates) + 1 < |dates| ==> dates[LeadingRun(dates)] - dates[LeadingRun(dates) + 1] != 1
  {
    if |dates| >= 2 && dates[0] - dates[1] == 1 {
      LeadingRunIsConsecutive(dates[1..]);
      forall i | 0 <= i < LeadingRun(dates) ensures dates[i] - dates[i + 1] == 1 {
        if i > 0 {
          assert dates[1..][i - 1] == dates[i] && dates[1..][i] == dates[i + 1];
        }
      }
    }
  }

  function Dates(goals: seq<Goal>): (ds: seq<Day>)
    ensures |ds| == |goals|
    ensures forall i :: 0 <= i < |goals| ==> ds[i] == goals[i].date
  {
    seq(|goals|, i requires 0 <= i < |goals| => goals[i].date)
  }

  /** `getGoalStreak`. `achievedGoals` is the user's achieved goals newest
      first, as the server lists them; the loop walks the first page and stops
      at the first gap that is not exactly one day. */
  method GetGoalStreak(auth: Option<UserId>, achievedGoals: seq<Goal>, today: Day) returns (r: Outcome<nat>)
    ensures auth.None? ==> r == Failure(NotAuthenticated)
    ensures auth.Some? ==> r == Success(Streak(Dates(Page(achievedGoals)), today))
  {
    if auth.None? {
      return Failure(NotAuthenticated);
    }
    var items := Page(achievedGoals);
    if |items| == 0 {
      return Success(0);
    }
    var streak: nat := 1;
    var dayDifference := today - items[0].date;
    if dayDifference > 1 {
      return Success(0);
    }
    ghost var ds := Dates(items);
    var i := 0;
    while i < |items| - 1
      invariant 0 <= i <= |items| - 1
      invariant streak == 1 + i
      invariant LeadingRun(ds) == i + LeadingRun(ds[i..])
    {
      var diffDays := items[i].date - items[i + 1].date;
      if diffDays == 1 {
        assert ds[i..][1..] == ds[i + 1..];
        streak := streak + 1;
      } else {
        break;
      }
      i := i + 1;
    }
    r := Success(streak);
  }

  /** The first page of the listing. */
  function Page(goals: seq<Goal>): (page: seq<Goal>)
    ensures |page| <= StreakPageSize && |page| <= |goals|
    ensures forall i :: 0 <= i < |page| ==> page[i] == goals[i]
  {
    if |goals| <= StreakPageSize then goals else goals[..StreakPageSize]
  }
}
