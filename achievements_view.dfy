/** The achievements panel: the user's achievements grouped by type, each
    group under a heading and an icon chosen by the type. */
module AchievementsView {
  import opened Common
  import opened Achievements

  /** The types of the achievements, in order. */
  function Kinds(xs: seq<Achievement>): (ks: seq<string>)
    ensures |ks| == |xs|
    ensures forall i :: 0 <= i < |xs| ==> ks[i] == xs[i].kind
  {
    if xs == [] then [] else Kinds(xs[..|xs| - 1]) + [xs[|xs| - 1].kind]
  }

  /** The achievements of one type, in input order. */
  function OfType(xs: seq<Achievement>, t: string): seq<Achievement> {
    if xs == [] then []
    else OfType(xs[..|xs| - 1], t) + (if xs[|xs| - 1].kind == t then [xs[|xs| - 1]] else [])
  }

  /** A group holds exactly the achievements of its type. */
  lemma {:induction false} OfTypeMembers(xs: seq<Achievement>, t: string)
    ensures forall a :: a in OfType(xs, t) <==> a in xs && a.kind == t
    ensures |OfType(xs, t)| == CountOf(Kinds(xs), t)
  {
    if xs != [] {
      var pre := xs[..|xs| - 1];
      OfTypeMembers(pre, t);
      assert xs == pre + [xs[|xs| - 1]];
      assert Kinds(xs)[..|xs| - 1] == Kinds(pre);
    }
  }

  /** Filtering by type distributes over concatenation: whatever came first in
      the input comes first in its group. */
  lemma {:induction false} OfTypeKeepsOrder(a: seq<Achievement>, b: seq<Achievement>, t: string)
    ensures OfType(a + b, t) == OfType(a, t) + OfType(b, t)
  {
    if b == [] {
      assert a + b == a;
    } else {
      var pre := b[..|b| - 1];
      OfTypeKeepsOrder(a, pre, t);
      assert (a + b)[..|a + b| - 1] == a + pre;
    }
  }

  /** One step of the `reduce`: the achievement is pushed onto its type's
      group, which is created empty when missing. */
  function Push(groups: map<string, seq<Achievement>>, a: Achievement): (r: map<string, seq<Achievement>>)
    ensures r.Keys == groups.Keys + {a.kind}
  {
    groups[a.kind := (if a.kind in groups then groups[a.kind] else []) + [a]]
  }

  /** `groupedAchievements`. */
  function Grouped(xs: seq<Achievement>): map<string, seq<Achievement>> {
    if xs == [] then map[] else Push(Grouped(xs[..|xs| - 1]), xs[|xs| - 1])
  }

  /** The groups are keyed by exactly the types that occur, and each holds the
      achievements of its type in input order. */
  lemma {:induction false} GroupedIsOfType(xs: seq<Achievement>)
    ensures forall t :: t in Grouped(xs) <==> t in Kinds(xs)
    ensures forall t :: t in Grouped(xs) ==> Grouped(xs)[t] == OfType(xs, t)
  {
    if xs != [] {
      var pre, a := xs[..|xs| - 1], xs[|xs| - 1];
      GroupedIsOfType(pre);
      assert Kinds(xs) == Kinds(pre) + [a.kind];
      forall t | t in Grouped(xs) ensures Grouped(xs)[t] == OfType(xs, t) {
        if t != a.kind {
          assert Grouped(xs)[t] == Grouped(pre)[t];
        } else if t !in Grouped(pre) {
          OfTypeMembers(pre, t);
          assert OfType(pre, t) == [];
        }
      }
    }
  }

  /** Every achievement sits in the group of its type, and only there. */
  lemma EachAchievementInItsGroup(xs: seq<Achievement>)
    ensures forall i :: 0 <= i < |xs| ==> xs[i].kind in Grouped(xs) && xs[i] in Grouped(xs)[xs[i].kind]
    ensures forall t, a :: t in Grouped(xs) && a in Grouped(xs)[t] ==> a.kind == t && a in xs
  {
    GroupedIsOfType(xs);
    forall t | t in Grouped(xs) ensures forall a :: a in Grouped(xs)[t] <==> a in xs && a.kind == t {
      OfTypeMembers(xs, t);
    }
    forall i | 0 <= i < |xs| ensures xs[i].kind in Grouped(xs) && xs[i] in Grouped(xs)[xs[i].kind] {
      assert Kinds(xs)[i] == xs[i].kind;
    }
  }

  /** The sizes of the groups listed in `order`. */
  function GroupTotal(groups: map<string, seq<Achievement>>, order: seq<string>): nat
    requires forall t :: t in order ==> t in groups
  {
    if order == [] then 0 else |groups[order[0]]| + GroupTotal(groups, order[1..])
  }

  lemma {:induction false} GroupTotalIsSumCounts(xs: seq<Achievement>, order: seq<string>)
    requires forall t :: t in order ==> t in Grouped(xs)
    ensures GroupTotal(Grouped(xs), order) == SumCounts(Kinds(xs), order)
  {
    if order != [] {
      GroupedIsOfType(xs);
      OfTypeMembers(xs, order[0]);
      GroupTotalIsSumCounts(xs, order[1..]);
    }
  }

  /** The groups, listed in the order their types first occur, hold every
      achievement once: their sizes add up to the number of achievements. */
  lemma GroupSizesSum(xs: seq<Achievement>)
    ensures forall t :: t in FirstOccurrences(Kinds(xs)) ==> t in Grouped(xs)
    ensures GroupTotal(Grouped(xs), FirstOccurrences(Kinds(xs))) == |xs|
  {
    FirstOccurrencesFacts(Kinds(xs));
    GroupedIsOfType(xs);
    GroupTotalIsSumCounts(xs, FirstOccurrences(Kinds(xs)));
    SumCountsFirstOccurrences(Kinds(xs));
  }

  /** The `reduce` that fills the groups object; `order` is the order of
      `Object.entries` over it. */
  method GroupByType(xs: seq<Achievement>) returns (groups: map<string, seq<Achievement>>, order: seq<string>)
    ensures groups == Grouped(xs)
    ensures order == FirstOccurrences(Kinds(xs))
  {
    groups := map[];
    order := [];
    for i := 0 to |xs|
      invariant groups == Grouped(xs[..i])
      invariant order == FirstOccurrences(Kinds(xs[..i]))
    {
      var achievement := xs[i];
      GroupedStep(xs, i, order);
      groups := Push(groups, achievement);
      if achievement.kind !in order {
        order := order + [achievement.kind];
      }
    }
    assert xs[..|xs|] == xs;
  }

  /** One step of the `reduce`: the achievement at i is pushed onto its group,
      and its type is listed if it is new. */
  lemma GroupedStep(xs: seq<Achievement>, i: nat, order: seq<string>)
    requires i < |xs| && order == FirstOccurrences(Kinds(xs[..i]))
    ensures Grouped(xs[..i + 1]) == Push(Grouped(xs[..i]), xs[i])
    ensures FirstOccurrences(Kinds(xs[..i + 1])) ==
      if xs[i].kind in order then order else order + [xs[i].kind]
  {
    assert xs[..i + 1][..i] == xs[..i];
    assert Kinds(xs[..i + 1]) == Kinds(xs[..i]) + [xs[i].kind];
    FirstOccurrencesSnoc(Kinds(xs[..i]), xs[i].kind);
  }

  /** The heading of a group. */
  function Heading(kind: string): (h: string)
    ensures kind == KindOf(Speed) ==> h == "Speed Milestones"
    ensures kind == KindOf(Accuracy) ==> h == "Accuracy Milestones"
    ensures kind == KindOf(Streak) ==> h == "Practice Streaks"
    ensures kind != KindOf(Speed) && kind != KindOf(Accuracy) && kind != KindOf(Streak) ==> h == "Other Achievements"
  {
    if kind == "speed_milestone" then "Speed Milestones"
    else if kind == "accuracy_milestone" then "Accuracy Milestones"
    else if kind == "streak" then "Practice Streaks"
    else "Other Achievements"
  }

  /** The emoji shown beside each achievement of a group. */
  datatype Icon = Rocket | Target | Fire | Trophy

  function IconOf(kind: string): (i: Icon)
    ensures kind == KindOf(Speed) <==> i == Rocket
    ensures kind == KindOf(Accuracy) <==> i == Target
    ensures kind == KindOf(Streak) <==> i == Fire
  {
    if kind == "speed_milestone" then Rocket
    else if kind == "accuracy_milestone" then Target
    else if kind == "streak" then Fire
    else Trophy
  }

  /** The three families the service awards get three distinct headings, none
      of them the catch-all. */
  lemma FamiliesHaveOwnHeadings(f: Family, g: Family)
    ensures Heading(KindOf(f)) != "Other Achievements"
    ensures f != g ==> Heading(KindOf(f)) != Heading(KindOf(g))
  {
  }
}
