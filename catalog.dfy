/** The catalog part of loadModules: grouping by difficulty, tier columns and their labels. */
module Catalog {
  import opened Data
  import opened Text
  import opened Tiles

  const Uncategorized: string := "Uncategorized"

  /** The only tiers that get a column, in display order. */
  const Tiers: seq<string> := ["foundational", "intermediate", "advanced"]

  /** The mapping used when the dataset has no `difficulty_points`. */
  const DefaultPoints: map<string, int> := map["foundational" := 50, "intermediate" := 100, "advanced" := 300]

  /** `pkg.difficulty || "Uncategorized"`. */
  function DifficultyKey(p: Package): (k: string)
    ensures p.difficulty.Some? && p.difficulty.value != [] ==> k == p.difficulty.value
    ensures (p.difficulty.None? || p.difficulty.value == []) ==> k == Uncategorized
  {
    if p.difficulty.Some? && p.difficulty.value != [] then p.difficulty.value else Uncategorized
  }

  /** The input-order subsequence of the packages whose key is `k`. */
  function Bucket(ps: seq<Package>, k: string): (r: seq<Package>)
    ensures |r| <= |ps|
  {
    if ps == [] then []
    else Bucket(ps[..|ps| - 1], k) + (if DifficultyKey(ps[|ps| - 1]) == k then [ps[|ps| - 1]] else [])
  }

  /** Every package lies in exactly one bucket: the one of its own key. */
  lemma {:induction false} BucketMembership(ps: seq<Package>, p: Package, k: string)
    ensures p in Bucket(ps, k) <==> p in ps && DifficultyKey(p) == k
  {
    if ps != [] {
      var init := ps[..|ps| - 1];
      BucketMembership(init, p, k);
      assert ps == init + [ps[|ps| - 1]];
    }
  }

  /** A bucket is non-empty exactly when some package has its key. */
  lemma BucketNonEmpty(ps: seq<Package>, k: string)
    ensures Bucket(ps, k) != [] <==> exists i :: 0 <= i < |ps| && DifficultyKey(ps[i]) == k
  {
    if Bucket(ps, k) != [] {
      BucketMembership(ps, Bucket(ps, k)[0], k);
    }
    if i :| 0 <= i < |ps| && DifficultyKey(ps[i]) == k {
      BucketMembership(ps, ps[i], k);
    }
  }

  /** `grouped` holds exactly the non-empty buckets of `ps`, each under its own key. */
  ghost predicate GroupedBy(grouped: map<string, seq<Package>>, ps: seq<Package>) {
    forall k :: (k in grouped <==> Bucket(ps, k) != []) && (k in grouped ==> grouped[k] == Bucket(ps, k))
  }

  /** The `grouped` dictionary: a key per difficulty that occurs, holding that bucket. */
  method GroupByDifficulty(ps: seq<Package>) returns (grouped: map<string, seq<Package>>)
    ensures GroupedBy(grouped, ps)
  {
    grouped := map[];
    for i := 0 to |ps|
      invariant forall k :: k in grouped ==> grouped[k] == Bucket(ps[..i], k) != []
      invariant forall k :: k !in grouped ==> Bucket(ps[..i], k) == []
    {
      assert ps[..i + 1][..i] == ps[..i];
      var diff := DifficultyKey(ps[i]);
      if diff !in grouped {
        grouped := grouped[diff := []];
      }
      grouped := grouped[diff := grouped[diff] + [ps[i]]];
    }
    assert ps[..|ps|] == ps;
  }

  /** The label beside a column title: a number of points, or "?". */
  datatype Points = Pts(value: int) | Unknown

  /** `data.difficulty_points || { ...defaults }`. */
  function PointsPerLevel(difficultyPoints: Option<map<string, int>>): (m: map<string, int>)
    ensures difficultyPoints.Some? ==> m == difficultyPoints.value
    ensures difficultyPoints.None? ==> m == DefaultPoints
  {
    match difficultyPoints
    case Some(m) => m
    case None => DefaultPoints
  }

  /** `pointsPerLevel[tier] || "?"`: a missing or zero value shows "?". */
  function PointsLabel(perLevel: map<string, int>, tier: string): (p: Points)
    ensures p.Pts? <==> tier in perLevel && perLevel[tier] != 0
    ensures p.Pts? ==> p.value == perLevel[tier]
  {
    if tier in perLevel && perLevel[tier] != 0 then Pts(perLevel[tier]) else Unknown
  }

  /** A tier missing from the dataset's own mapping shows "?": the defaults are not consulted per tier. */
  lemma PointsLabels(difficultyPoints: Option<map<string, int>>, tier: string)
    ensures difficultyPoints.None? && tier in Tiers ==>
              PointsLabel(PointsPerLevel(difficultyPoints), tier) == Pts(DefaultPoints[tier])
    ensures difficultyPoints.None? ==>
              PointsLabel(PointsPerLevel(difficultyPoints), "foundational") == Pts(50) &&
              PointsLabel(PointsPerLevel(difficultyPoints), "intermediate") == Pts(100) &&
              PointsLabel(PointsPerLevel(difficultyPoints), "advanced") == Pts(300)
    ensures difficultyPoints.Some? && tier !in difficultyPoints.value ==>
              PointsLabel(PointsPerLevel(difficultyPoints), tier) == Unknown
  {
  }

  /** A catalog column: title, points label and one tile per package of its tier. */
  datatype Column = Column(title: string, points: Points, tiles: seq<Tile>)

  /** The tiles of `ps`, in order. */
  function TilesOf(ps: seq<Package>): (r: seq<Tile>)
    ensures |r| == |ps|
  {
    if ps == [] then [] else TilesOf(ps[..|ps| - 1]) + [CreateModuleTile(ps[|ps| - 1])]
  }

  lemma {:induction false} TilesOfAt(ps: seq<Package>, i: nat)
    requires i < |ps|
    ensures TilesOf(ps)[i] == CreateModuleTile(ps[i])
  {
    if i < |ps| - 1 {
      TilesOfAt(ps[..|ps| - 1], i);
    }
  }

  lemma {:induction false} TilesOfConcat(a: seq<Package>, b: seq<Package>)
    ensures TilesOf(a + b) == TilesOf(a) + TilesOf(b)
    decreases |b|
  {
    if b == [] {
      assert a + b == a;
    } else {
      assert (a + b)[..|a + b| - 1] == a + b[..|b| - 1];
      TilesOfConcat(a, b[..|b| - 1]);
    }
  }

  /** The column one tier gets when its bucket is `packs`. */
  function TierColumn(tier: string, packs: seq<Package>, perLevel: map<string, int>): (c: Column) {
    Column(TitleCase(tier), PointsLabel(perLevel, tier), TilesOf(packs))
  }

  /** The column for `tier` if it has packages, else nothing. */
  function IfPresent(tier: string, ps: seq<Package>, perLevel: map<string, int>): (r: seq<Column>) {
    if Bucket(ps, tier) != [] then [TierColumn(tier, Bucket(ps, tier), perLevel)] else []
  }

  /** The columns of `tiers`, in order, skipping those without packages. */
  function ColumnsFor(tiers: seq<string>, ps: seq<Package>, perLevel: map<string, int>): (r: seq<Column>) {
    if tiers == [] then []
    else ColumnsFor(tiers[..|tiers| - 1], ps, perLevel) + IfPresent(tiers[|tiers| - 1], ps, perLevel)
  }

  /** The columns loadModules appends to the difficulty-columns container. */
  function CatalogColumns(ps: seq<Package>, difficultyPoints: Option<map<string, int>>): (r: seq<Column>) {
    ColumnsFor(Tiers, ps, PointsPerLevel(difficultyPoints))
  }

  lemma ColumnsForPrefix(tiers: seq<string>, i: nat, ps: seq<Package>, perLevel: map<string, int>)
    requires i < |tiers|
    ensures ColumnsFor(tiers[..i + 1], ps, perLevel) == ColumnsFor(tiers[..i], ps, perLevel) + IfPresent(tiers[i], ps, perLevel)
  {
    assert tiers[..i + 1][..i] == tiers[..i];
  }

  /**
   * Columns appear for foundational, intermediate and advanced, in that order, each only when
   * its bucket is non-empty.
   */
  lemma CatalogColumnsByTier(ps: seq<Package>, difficultyPoints: Option<map<string, int>>)
    ensures CatalogColumns(ps, difficultyPoints) ==
              IfPresent("foundational", ps, PointsPerLevel(difficultyPoints))
              + IfPresent("intermediate", ps, PointsPerLevel(difficultyPoints))
              + IfPresent("advanced", ps, PointsPerLevel(difficultyPoints))
  {
    var perLevel := PointsPerLevel(difficultyPoints);
    var f, i, a := IfPresent("foundational", ps, perLevel), IfPresent("intermediate", ps, perLevel),
                   IfPresent("advanced", ps, perLevel);
    assert Tiers[..2] == ["foundational", "intermediate"];
    assert ["foundational", "intermediate"][..1] == ["foundational"];
    assert ["foundational"][..0] == [];
    assert ColumnsFor(["foundational"], ps, perLevel) == [] + f == f;
    assert ColumnsFor(["foundational", "intermediate"], ps, perLevel) == f + i;
  }

  /** Column titles are the tier names with the first letter capitalised. */
  lemma TierTitles()
    ensures TitleCase("foundational") == "Foundational"
    ensures TitleCase("intermediate") == "Intermediate"
    ensures TitleCase("advanced") == "Advanced"
  {
  }

  /** The packages the catalog shows, in column order. */
  function ShownPackages(ps: seq<Package>): seq<Package> {
    Bucket(ps, "foundational") + Bucket(ps, "intermediate") + Bucket(ps, "advanced")
  }

  /** A package is shown exactly when its key is one of the three tiers. */
  lemma ShownPackagesExactly(ps: seq<Package>, p: Package)
    ensures p in ShownPackages(ps) <==> p in ps && DifficultyKey(p) in Tiers
  {
    BucketMembership(ps, p, "foundational");
    BucketMembership(ps, p, "intermediate");
    BucketMembership(ps, p, "advanced");
  }

  function AllTiles(cols: seq<Column>): (r: seq<Tile>) {
    if cols == [] then [] else AllTiles(cols[..|cols| - 1]) + cols[|cols| - 1].tiles
  }

  lemma {:induction false} AllTilesConcat(a: seq<Column>, b: seq<Column>)
    ensures AllTiles(a + b) == AllTiles(a) + AllTiles(b)
    decreases |b|
  {
    if b == [] {
      assert a + b == a;
    } else {
      assert (a + b)[..|a + b| - 1] == a + b[..|b| - 1];
      AllTilesConcat(a, b[..|b| - 1]);
    }
  }

  lemma AllTilesIfPresent(tier: string, ps: seq<Package>, perLevel: map<string, int>)
    ensures AllTiles(IfPresent(tier, ps, perLevel)) == TilesOf(Bucket(ps, tier))
  {
    var c := IfPresent(tier, ps, perLevel);
    if c != [] {
      assert c[..0] == [];
    }
  }

  /** The tiles across all columns are those of the tier packages; no other bucket contributes. */
  lemma CatalogShowsOnlyTierPackages(ps: seq<Package>, difficultyPoints: Option<map<string, int>>)
    ensures AllTiles(CatalogColumns(ps, difficultyPoints)) == TilesOf(ShownPackages(ps))
  {
    var perLevel := PointsPerLevel(difficultyPoints);
    var f := IfPresent("foundational", ps, perLevel);
    var i := IfPresent("intermediate", ps, perLevel);
    var a := IfPresent("advanced", ps, perLevel);
    CatalogColumnsByTier(ps, difficultyPoints);
    AllTilesConcat(f + i, a);
    AllTilesConcat(f, i);
    AllTilesIfPresent("foundational", ps, perLevel);
    AllTilesIfPresent("intermediate", ps, perLevel);
    AllTilesIfPresent("advanced", ps, perLevel);
    TilesOfConcat(Bucket(ps, "foundational"), Bucket(ps, "intermediate"));
    TilesOfConcat(Bucket(ps, "foundational") + Bucket(ps, "intermediate"), Bucket(ps, "advanced"));
  }

  /** An empty catalog creates no column at all. */
  lemma EmptyCatalogHasNoColumns(difficultyPoints: Option<map<string, int>>)
    ensures CatalogColumns([], difficultyPoints) == []
  {
    CatalogColumnsByTier([], difficultyPoints);
  }

  /** The difficulty-columns container. */
  class ColumnsBox {
    var columns: seq<Column>

    constructor ()
      ensures columns == []
    {
      columns := [];
    }
  }

  /** Builds one column: the header, then `packs.forEach(pkg => column.appendChild(tile))`. */
  method BuildColumn(tier: string, packs: seq<Package>, perLevel: map<string, int>) returns (column: Column)
    ensures column == TierColumn(tier, packs, perLevel)
  {
    var title := TitleCase(tier);
    var points := PointsLabel(perLevel, tier);
    var tiles: seq<Tile> := [];
    for i := 0 to |packs|
      invariant tiles == TilesOf(packs[..i])
    {
      assert packs[..i + 1][..i] == packs[..i];
      tiles := tiles + [CreateModuleTile(packs[i])];
    }
    assert packs[..|packs|] == packs;
    column := Column(title, points, tiles);
  }

  /** One step of the tier loop: `if (!packs) return;` else build the column and append it. */
  method AppendTierColumn(box: ColumnsBox, tier: string, grouped: map<string, seq<Package>>,
                          ps: seq<Package>, perLevel: map<string, int>)
    requires GroupedBy(grouped, ps)
    modifies box
    ensures box.columns == old(box.columns) + IfPresent(tier, ps, perLevel)
  {
    if tier in grouped {
      var column := BuildColumn(tier, grouped[tier], perLevel);
      box.columns := box.columns + [column];
    }
  }

  /** `tiers.forEach(...)`: one step per tier, in order. */
  method AppendColumns(box: ColumnsBox, tiers: seq<string>, grouped: map<string, seq<Package>>,
                       ps: seq<Package>, perLevel: map<string, int>)
    requires GroupedBy(grouped, ps)
    modifies box
    ensures box.columns == old(box.columns) + ColumnsFor(tiers, ps, perLevel)
  {
    ghost var start := box.columns;
    for i := 0 to |tiers|
      invariant box.columns == start + ColumnsFor(tiers[..i], ps, perLevel)
    {
      ghost var done := ColumnsFor(tiers[..i], ps, perLevel);
      ghost var next := IfPresent(tiers[i], ps, perLevel);
      ColumnsForPrefix(tiers, i, ps, perLevel);
      AppendTierColumn(box, tiers[i], grouped, ps, perLevel);
      assert (start + done) + next == start + (done + next);
    }
    assert tiers[..|tiers|] == tiers;
  }

  /** The catalog half of loadModules: group, choose the mapping, walk the fixed tiers. */
  method RenderColumns(box: ColumnsBox, ps: seq<Package>, difficultyPoints: Option<map<string, int>>)
    modifies box
    ensures box.columns == old(box.columns) + CatalogColumns(ps, difficultyPoints)
  {
    var grouped := GroupByDifficulty(ps);
    var perLevel := PointsPerLevel(difficultyPoints);
    AppendColumns(box, Tiers, grouped, ps, perLevel);
  }
}
