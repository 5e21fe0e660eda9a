/** The leaderboard: renderRankings and its top-3 selection. */
module Rankings {
  import opened Data
  import opened Sorting

  /** One of the three cards a ranking container receives. */
  datatype Slot =
    | Medal(rank: nat, name: Option<string>, points: int)  // rank 1, 2, 3 select the medal symbol
    | Placeholder(noun: string)                             // "This <noun> spot is up for grabs"

  /** A ranking container (top-users or top-universities); its content only ever grows. */
  class RankingBox {
    var slots: seq<Slot>

    constructor ()
      ensures slots == []
    {
      slots := [];
    }
  }

  /** The comparator `b.total_points - a.total_points` read as "a may come before b". */
  function ByPointsDesc(a: Entity, b: Entity): bool {
    a.totalPoints >= b.totalPoints
  }

  /** `full_name || university`: an absent or empty full name falls back to the university. */
  function DisplayName(e: Entity): (r: Option<string>)
    ensures e.fullName.Some? && e.fullName.value != [] ==> r == e.fullName
    ensures (e.fullName.None? || e.fullName.value == []) ==> r == e.university
  {
    if e.fullName.Some? && e.fullName.value != [] then e.fullName else e.university
  }

  /** `[...list].sort(...).slice(0, 3)`. */
  function TopThree(list: seq<Entity>): (r: seq<Entity>)
    ensures |r| == if |list| < 3 then |list| else 3
  {
    var sorted := SortBy(list, ByPointsDesc);
    sorted[..if |sorted| < 3 then |sorted| else 3]
  }

  /** The three slots renderRankings appends, in order. */
  function RankingSlots(list: seq<Entity>, noun: string): (r: seq<Slot>)
    ensures |r| == 3
    ensures forall i :: 0 <= i < 3 ==> (r[i].Medal? <==> i < |list|)
    ensures forall i :: 0 <= i < 3 && |list| <= i ==> r[i] == Placeholder(noun)
  {
    var top := TopThree(list);
    seq(3, i requires 0 <= i < 3 =>
      if i < |top| then Medal(i + 1, DisplayName(top[i]), top[i].totalPoints) else Placeholder(noun))
  }

  lemma PointsDescIsTotalPreorder()
    ensures TotalPreorder(ByPointsDesc)
  {
  }

  /** The cards are ordered best first. */
  lemma TopThreeDescending(list: seq<Entity>)
    ensures forall i, j :: 0 <= i < j < |TopThree(list)| ==>
              TopThree(list)[i].totalPoints >= TopThree(list)[j].totalPoints
  {
    PointsDescIsTotalPreorder();
    SortBySorted(list, ByPointsDesc);
  }

  /** The cards show entities of the list, and no entity left out scores more than a shown one. */
  lemma TopThreeAreBest(list: seq<Entity>)
    ensures multiset(TopThree(list)) <= multiset(list)
    ensures forall x, i :: x in multiset(list) - multiset(TopThree(list)) && 0 <= i < |TopThree(list)| ==>
              x.totalPoints <= TopThree(list)[i].totalPoints
  {
    var sorted := SortBy(list, ByPointsDesc);
    var top := TopThree(list);
    PointsDescIsTotalPreorder();
    SortBySorted(list, ByPointsDesc);
    assert sorted == top + sorted[|top|..];
    assert multiset(list) - multiset(top) == multiset(sorted[|top|..]);
    PrefixDominates(sorted, |top|);
  }

  /** In a list sorted by descending points, nothing after position `n` outscores anything before it. */
  lemma PrefixDominates(s: seq<Entity>, n: nat)
    requires n <= |s|
    requires Sorted(s, ByPointsDesc)
    ensures forall x, i :: x in multiset(s[n..]) && 0 <= i < n ==> x.totalPoints <= s[i].totalPoints
  {
    forall x, i | x in multiset(s[n..]) && 0 <= i < n
      ensures x.totalPoints <= s[i].totalPoints
    {
      assert x in s[n..];
      var k :| 0 <= k < |s| - n && s[n..][k] == x;
      assert ByPointsDesc(s[i], s[n + k]);
    }
  }

  /** Among equal scores the entity earlier in the list is shown first (the sort is stable). */
  lemma TopThreeStable(list: seq<Entity>)
    ensures forall e :: Tied(TopThree(list), e, ByPointsDesc) <= Tied(list, e, ByPointsDesc)
  {
    var sorted := SortBy(list, ByPointsDesc);
    var top := TopThree(list);
    var rest := sorted[|top|..];
    PointsDescIsTotalPreorder();
    assert sorted == top + rest;
    forall e
      ensures Tied(top, e, ByPointsDesc) <= Tied(list, e, ByPointsDesc)
    {
      SortByStable(list, e, ByPointsDesc);
      TiedConcat(top, rest, e, ByPointsDesc);
    }
  }

  /** Slot `i` carries the `i`-th best entity's display name and points, with rank `i + 1`. */
  lemma MedalSlots(list: seq<Entity>, noun: string, i: nat)
    requires i < 3 && i < |list|
    ensures RankingSlots(list, noun)[i] ==
              Medal(i + 1, DisplayName(TopThree(list)[i]), TopThree(list)[i].totalPoints)
  {
  }

  /** renderRankings: appends three cards to whatever the container already shows. */
  method RenderRankings(box: RankingBox, list: seq<Entity>, noun: string)
    modifies box
    ensures box.slots == old(box.slots) + RankingSlots(list, noun)
  {
    var sorted := TopThree(list);
    for i := 0 to 3
      invariant box.slots == old(box.slots) + RankingSlots(list, noun)[..i]
    {
      if i < |sorted| {
        var name := DisplayName(sorted[i]);
        var points := sorted[i].totalPoints;
        box.slots := box.slots + [Medal(i + 1, name, points)];
      } else {
        box.slots := box.slots + [Placeholder(noun)];
      }
      assert RankingSlots(list, noun)[..i + 1] == RankingSlots(list, noun)[..i] + [RankingSlots(list, noun)[i]];
    }
  }

  /** Rendering twice without clearing shows every card twice: renderRankings is not idempotent. */
  method RenderRankingsTwice(box: RankingBox, list: seq<Entity>, noun: string)
    modifies box
    ensures |box.slots| == |old(box.slots)| + 6
    ensures box.slots == old(box.slots) + RankingSlots(list, noun) + RankingSlots(list, noun)
  {
    RenderRankings(box, list, noun);
    RenderRankings(box, list, noun);
  }
}
