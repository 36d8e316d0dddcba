/** The achievement service: speed, accuracy and streak milestones. A check
    picks the highest threshold the value reaches and creates that one
    achievement for the user unless an achievement of the same type and
    description already exists. */
module Achievements {
  import opened Common

  /** A row of the `Achievements` collection. */
  datatype Achievement = Achievement(user: UserId, kind: string, description: string)

  /** The three milestone families. */
  datatype Family = Speed | Accuracy | Streak

  /** The `data` of a check: whether an achievement was created, and which. */
  datatype Award = Award(awarded: bool, achievement: Option<Achievement>)

  const SpeedMilestones: seq<nat> := [20, 30, 40, 50, 60, 70, 80, 90, 100]
  const AccuracyMilestones: seq<nat> := [70, 80, 90, 95, 98, 99, 100]
  const StreakMilestones: seq<nat> := [3, 7, 14, 30, 60, 90, 180, 365]

  predicate StrictlyAscending(ts: seq<nat>) {
    forall i, j :: 0 <= i < j < |ts| ==> ts[i] < ts[j]
  }

  function Thresholds(f: Family): (ts: seq<nat>)
    ensures |ts| > 0 && StrictlyAscending(ts) && ts[0] > 0
  {
    match f
    case Speed => SpeedMilestones
    case Accuracy => AccuracyMilestones
    case Streak => StreakMilestones
  }

  /** The achievement type of a family. */
  function KindOf(f: Family): (k: string)
    ensures f == Speed <==> k == "speed_milestone"
    ensures f == Accuracy <==> k == "accuracy_milestone"
    ensures f == Streak <==> k == "streak"
  {
    match f
    case Speed => "speed_milestone"
    case Accuracy => "accuracy_milestone"
    case Streak => "streak"
  }

  /** `thresholds.filter(m => value >= m)`. */
  function Reached(ts: seq<nat>, value: int): seq<nat> {
    if ts == [] then []
    else
      var pre := Reached(ts[..|ts| - 1], value);
      if ts[|ts| - 1] <= value then pre + [ts[|ts| - 1]] else pre
  }

  /** `.pop()` of the reached thresholds: the last one, if any. */
  function HighestMilestone(ts: seq<nat>, value: int): (m: Option<nat>)
  {
    var r := Reached(ts, value);
    if r == [] then None else Some(r[|r| - 1])
  }

  /** With ascending thresholds the filter keeps exactly the thresholds the
      value reaches, which form a prefix: the first threshold after it lies
      above the value. */
  lemma {:induction false} ReachedIsPrefix(ts: seq<nat>, value: int)
    requires StrictlyAscending(ts)
    ensures |Reached(ts, value)| <= |ts|
    ensures Reached(ts, value) == ts[..|Reached(ts, value)|]
    ensures forall i :: 0 <= i < |Reached(ts, value)| ==> ts[i] <= value
    ensures |Reached(ts, value)| < |ts| ==> ts[|Reached(ts, value)|] > value
  {
    if ts != [] {
      var pre, x := ts[..|ts| - 1], ts[|ts| - 1];
      assert StrictlyAscending(pre) by {
        forall i, j | 0 <= i < j < |pre| ensures pre[i] < pre[j] {
          assert pre[i] == ts[i] && pre[j] == ts[j];
        }
      }
      ReachedIsPrefix(pre, value);
      var r, k := Reached(pre, value), |Reached(pre, value)|;
      assert Reached(ts, value) == if x <= value then r + [x] else r;
      if x <= value {
        assert ts == pre + [x];
      } else {
        assert ts[..k] == pre[..k];
      }
    }
  }

  /** With ascending thresholds, the pick is the largest threshold the value
      reaches; there is none exactly when the value is below the smallest. */
  lemma HighestMilestoneIsLargestReached(ts: seq<nat>, value: int)
    requires StrictlyAscending(ts) && |ts| > 0
    ensures HighestMilestone(ts, value).None? <==> value < ts[0]
    ensures HighestMilestone(ts, value).Some? ==>
      var m := HighestMilestone(ts, value).value;
      && m in ts && m <= value
      && forall i :: 0 <= i < |ts| && ts[i] <= value ==> ts[i] <= m
  {
    ReachedIsPrefix(ts, value);
    var k := |Reached(ts, value)|;
    if k > 0 {
      assert Reached(ts, value)[0] == ts[0];
      forall i | 0 <= i < |ts| && ts[i] <= value
        ensures ts[i] <= ts[k - 1]
      {
      }
    }
  }

  /** The description of a family's milestone m. */
  function Description(f: Family, m: nat): string {
    match f
    case Speed => "Reached " + NatToString(m) + " WPM"
    case Accuracy => "Reached " + NatToString(m) + "% accuracy"
    case Streak => NatToString(m) + " day streak"
  }

  /** Equal strings with the same prefix and suffix have the same middle. */
  lemma SameMiddle(prefix: string, s1: string, s2: string, suffix: string)
    requires prefix + s1 + suffix == prefix + s2 + suffix
    ensures s1 == s2
  {
    var d1, d2 := prefix + s1 + suffix, prefix + s2 + suffix;
    assert s1 == d1[|prefix|..|prefix| + |s1|];
    assert s2 == d2[|prefix|..|prefix| + |s2|];
  }

  /** A description names one milestone: distinct milestones of a family have
      distinct descriptions, so awarding one never blocks another. */
  lemma DescriptionInjective(f: Family, m1: nat, m2: nat)
    requires Description(f, m1) == Description(f, m2)
    ensures m1 == m2
  {
    var s1, s2 := NatToString(m1), NatToString(m2);
    match f {
      case Speed => SameMiddle("Reached ", s1, s2, " WPM");
      case Accuracy => SameMiddle("Reached ", s1, s2, "% accuracy");
      case Streak =>
        assert "" + s1 == s1 && "" + s2 == s2;
        SameMiddle("", s1, s2, " day streak");
    }
    NatToStringInjective(m1, m2);
  }

  predicate SameAward(a: Achievement, user: UserId, kind: string, description: string) {
    a.user == user && a.kind == kind && a.description == description
  }

  /** The achievement a check creates for a value: the highest reached
      milestone's, unless the user already holds it; none below the first
      threshold. */
  function AwardFor(achievements: seq<Achievement>, user: UserId, f: Family, value: int): (a: Option<Achievement>)
    ensures a.Some? ==> a.value.user == user && a.value.kind == KindOf(f)
    ensures a.Some? ==>
      (&& HighestMilestone(Thresholds(f), value).Some?
       && a.value.description == Description(f, HighestMilestone(Thresholds(f), value).value))
    ensures a.Some? ==> forall i :: 0 <= i < |achievements| ==> !SameAward(achievements[i], user, a.value.kind, a.value.description)
    ensures a.None? && HighestMilestone(Thresholds(f), value).Some? ==>
      exists i :: 0 <= i < |achievements| &&
        SameAward(achievements[i], user, KindOf(f), Description(f, HighestMilestone(Thresholds(f), value).value))
  {
    match HighestMilestone(Thresholds(f), value)
    case None => None
    case Some(m) =>
      var candidate := Achievement(user, KindOf(f), Description(f, m));
      if exists i :: 0 <= i < |achievements| && SameAward(achievements[i], user, candidate.kind, candidate.description)
      then None
      else Some(candidate)
  }

  /** The collection after a check. */
  function AfterCheck(achievements: seq<Achievement>, user: UserId, f: Family, value: int): (r: seq<Achievement>)
    ensures |achievements| <= |r| <= |achievements| + 1
    ensures r[..|achievements|] == achievements
  {
    match AwardFor(achievements, user, f, value)
    case None => achievements
    case Some(a) => achievements + [a]
  }

  /** Checking twice with the same value creates nothing the second time. */
  lemma CheckIsIdempotent(achievements: seq<Achievement>, user: UserId, f: Family, value: int)
    ensures var once := AfterCheck(achievements, user, f, value);
      AfterCheck(once, user, f, value) == once
  {
    var once := AfterCheck(achievements, user, f, value);
    match AwardFor(achievements, user, f, value)
    case None =>
    case Some(a) =>
      assert SameAward(once[|achievements|], user, a.kind, a.description);
  }

  /** A value below the first threshold creates nothing. */
  lemma BelowFirstThresholdAwardsNothing(achievements: seq<Achievement>, user: UserId, f: Family, value: int)
    requires value < Thresholds(f)[0]
    ensures AwardFor(achievements, user, f, value).None?
  {
    HighestMilestoneIsLargestReached(Thresholds(f), value);
  }

  /** Only the highest milestone is awarded: when a value reaches several
      thresholds, the lower ones are not back-filled. */
  lemma OnlyHighestIsAwarded(achievements: seq<Achievement>, user: UserId, f: Family, value: int, m: nat)
    requires m in Thresholds(f) && m <= value
    requires AwardFor(achievements, user, f, value).Some?
    requires AwardFor(achievements, user, f, value).value.description == Description(f, m)
    ensures forall t :: t in Thresholds(f) && t <= value ==> t <= m
  {
    HighestMilestoneIsLargestReached(Thresholds(f), value);
    DescriptionInjective(f, m, HighestMilestone(Thresholds(f), value).value);
  }

  /** The data a caller passes to `createAchievement`. */
  datatype AchievementData = AchievementData(kind: string, description: string)

  class AchievementStore {
    /** The `Achievements` collection. */
    var achievements: seq<Achievement>

    constructor ()
      ensures achievements == []
    {
      achievements := [];
    }

    /** `createAchievement`: the data plus the signed-in user's id. */
    method CreateAchievement(auth: Option<UserId>, data: AchievementData) returns (r: Outcome<Achievement>)
      modifies this
      ensures auth.None? ==> r == Failure(NotAuthenticated) && achievements == old(achievements)
      ensures auth.Some? ==>
        && r == Success(Achievement(auth.value, data.kind, data.description))
        && achievements == old(achievements) + [r.data]
    {
      if auth.None? {
        return Failure(NotAuthenticated);
      }
      var created := Achievement(auth.value, data.kind, data.description);
      achievements := achievements + [created];
      r := Success(created);
    }

    /** The body shared by the three checks: pick the highest milestone, look
        for an existing achievement of that type and description, and create
        it when there is none. */
    method CheckMilestone(auth: Option<UserId>, f: Family, value: int) returns (r: Outcome<Award>)
      modifies this
      ensures auth.None? ==> r == Failure(NotAuthenticated) && achievements == old(achievements)
      ensures auth.Some? ==> achievements == AfterCheck(old(achievements), auth.value, f, value)
      ensures auth.Some? ==>
        var a := AwardFor(old(achievements), auth.value, f, value);
        r == Success(Award(a.Some?, a))
    {
      if auth.None? {
        return Failure(NotAuthenticated);
      }
      var userId := auth.value;
      var milestone := HighestMilestone(Thresholds(f), value);
      if milestone.None? {
        return Success(Award(false, None));
      }
      var kind := KindOf(f);
      var description := Description(f, milestone.value);
      var found := false;
      var i := 0;
      while i < |achievements| && !found
        invariant 0 <= i <= |achievements|
        invariant found <==> exists j :: 0 <= j < i && SameAward(achievements[j], userId, kind, description)
      {
        found := SameAward(achievements[i], userId, kind, description);
        i := i + 1;
      }
      if found {
        return Success(Award(false, None));
      }
      var record := Achievement(userId, kind, description);
      achievements := achievements + [record];
      r := Success(Award(true, Some(record)));
    }

    /** `checkSpeedMilestone`. */
    method CheckSpeedMilestone(auth: Option<UserId>, wpm: int) returns (r: Outcome<Award>)
      modifies this
      ensures auth.None? ==> r == Failure(NotAuthenticated) && achievements == old(achievements)
      ensures auth.Some? ==> achievements == AfterCheck(old(achievements), auth.value, Speed, wpm)
      ensures auth.Some? ==>
        var a := AwardFor(old(achievements), auth.value, Speed, wpm);
        r == Success(Award(a.Some?, a))
    {
      r := CheckMilestone(auth, Speed, wpm);
    }

    /** `checkAccuracyMilestone`. */
    method CheckAccuracyMilestone(auth: Option<UserId>, accuracy: int) returns (r: Outcome<Award>)
      modifies this
      ensures auth.None? ==> r == Failure(NotAuthenticated) && achievements == old(achievements)
      ensures auth.Some? ==> achievements == AfterCheck(old(achievements), auth.value, Accuracy, accuracy)
      ensures auth.Some? ==>
        var a := AwardFor(old(achievements), auth.value, Accuracy, accuracy);
        r == Success(Award(a.Some?, a))
    {
      r := CheckMilestone(auth, Accuracy, accuracy);
    }

    /** `checkStreakMilestone`. */
    method CheckStreakMilestone(auth: Option<UserId>, streak: int) returns (r: Outcome<Award>)
      modifies this
      ensures auth.None? ==> r == Failure(NotAuthenticated) && achievements == old(achievements)
      ensures auth.Some? ==> achievements == AfterCheck(old(achievements), auth.value, Streak, streak)
      ensures auth.Some? ==>
        var a := AwardFor(old(achievements), auth.value, Streak, streak);
        r == Success(Award(a.Some?, a))
    {
      r := CheckMilestone(auth, Streak, streak);
    }
  }
}
