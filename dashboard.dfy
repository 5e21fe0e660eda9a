/** loadModules as a whole, the tile buttons wired to the modal, and end-to-end facts. */
module Dashboard {
  import opened Data
  import opened Sorting
  import opened Text
  import opened Rankings
  import opened Tiles
  import opened Catalog
  import opened Modal

  /** loadModules, from the decoded dataset onwards. */
  method LoadModules(data: Dataset, topUsers: RankingBox, topUniversities: RankingBox, columns: ColumnsBox)
    requires topUsers != topUniversities
    modifies topUsers, topUniversities, columns
    ensures topUsers.slots == old(topUsers.slots) + RankingSlots(data.users, "user")
    ensures topUniversities.slots == old(topUniversities.slots) + RankingSlots(data.universities, "school")
    ensures columns.columns == old(columns.columns) + CatalogColumns(data.packages, data.difficultyPoints)
  {
    RenderRankings(topUsers, data.users, "user");
    RenderRankings(topUniversities, data.universities, "school");
    RenderColumns(columns, data.packages, data.difficultyPoints);
  }

  /** With no packages, users or universities: no column and three placeholders per leaderboard. */
  lemma EmptyDatasetRendering(difficultyPoints: Option<map<string, int>>)
    ensures CatalogColumns([], difficultyPoints) == []
    ensures RankingSlots([], "user") == [Placeholder("user"), Placeholder("user"), Placeholder("user")]
    ensures RankingSlots([], "school") == [Placeholder("school"), Placeholder("school"), Placeholder("school")]
  {
    EmptyCatalogHasNoColumns(difficultyPoints);
  }

  /**
   * Opening either modal from a tile (with the lists the corrected buttons pass) lists one row
   * per claim counted on the button, or the single empty-state row when the count is 0.
   */
  lemma TileButtonsOpenMatchingModal(pkg: Package, nameLe: (string, string) -> bool)
    requires TotalPreorder(nameLe)
    ensures var t := CreateModuleTile(pkg);
      && |UniversityItems(SortBy(CorrectedUniversityArg(t), UniversityOrder(nameLe)))| == (if t.universityCount == 0 then 1 else t.universityCount)
      && |UserItems(SortBy(CorrectedUserArg(t), UserOrder(nameLe)))| == (if t.userCount == 0 then 1 else t.userCount)
  {
    var t := CreateModuleTile(pkg);
    UniversityModalContents(CorrectedUniversityArg(t), nameLe);
    UserModalContents(CorrectedUserArg(t), nameLe);
  }

  /** "Beta" does not collate before "alpha" when case is ignored. */
  lemma BetaAfterAlpha()
    ensures !CaseInsensitiveLe("Beta", "alpha")
  {
    assert AsciiLower("Beta") == "beta";
    assert AsciiLower("alpha") == "alpha";
    assert !LexLe("beta", "alpha");
  }

  lemma UniversityRowExamples()
    ensures UniversityRowText(UniversityClaim("alpha", 1)) == "alpha \U{2014} 1 user"
    ensures UniversityRowText(UniversityClaim("Beta", 2)) == "Beta \U{2014} 2 users"
  {
    assert Decimal(1) == "1" && Decimal(2) == "2";
  }

  /** University modal example: "Beta" (2) and "alpha" (1) list as alpha, then Beta. */
  lemma UniversityModalExample()
    ensures var sorted := SortBy([UniversityClaim("Beta", 2), UniversityClaim("alpha", 1)], UniversityOrder(CaseInsensitiveLe));
      && sorted == [UniversityClaim("alpha", 1), UniversityClaim("Beta", 2)]
      && UniversityItems(sorted) == ["alpha \U{2014} 1 user", "Beta \U{2014} 2 users"]
  {
    var alpha, beta := UniversityClaim("alpha", 1), UniversityClaim("Beta", 2);
    BetaAfterAlpha();
    assert !UniversityOrder(CaseInsensitiveLe)(beta, alpha);
    assert [beta, alpha][1..] == [alpha];
    var sorted := [alpha, beta];
    assert SortBy([beta, alpha], UniversityOrder(CaseInsensitiveLe)) == sorted;
    UniversityRowExamples();
    assert sorted[..1][..0] == [];
    assert UniversityRows(sorted) == UniversityRows(sorted[..1]) + [UniversityRowText(sorted[1])];
  }

  /** Equal points: "Bob" does not collate before "Amy". */
  lemma BobAfterAmy()
    ensures !UserOrder(CaseInsensitiveLe)(UserClaim("Bob", 50), UserClaim("Amy", 50))
  {
    assert AsciiLower("Bob") == "bob" && AsciiLower("Amy") == "amy";
    assert !LexLe("bob", "amy");
    assert !CaseInsensitiveLe("Bob", "Amy");
  }

  /** Zoe (90) goes ahead of Amy (50). */
  lemma ZoeBeforeAmy()
    ensures SortBy([UserClaim("Amy", 50), UserClaim("Zoe", 90)], UserOrder(CaseInsensitiveLe))
              == [UserClaim("Zoe", 90), UserClaim("Amy", 50)]
  {
    var le := UserOrder(CaseInsensitiveLe);
    var amy, zoe := UserClaim("Amy", 50), UserClaim("Zoe", 90);
    assert !le(amy, zoe);
    assert [amy, zoe][1..] == [zoe];
    assert SortBy([zoe], le) == [zoe];
  }

  /** Bob (50) goes after both Zoe (90) and Amy (50). */
  lemma BobAfterZoeAndAmy()
    ensures Insert(UserClaim("Bob", 50), [UserClaim("Zoe", 90), UserClaim("Amy", 50)], UserOrder(CaseInsensitiveLe))
              == [UserClaim("Zoe", 90), UserClaim("Amy", 50), UserClaim("Bob", 50)]
  {
    var le := UserOrder(CaseInsensitiveLe);
    var bob, amy, zoe := UserClaim("Bob", 50), UserClaim("Amy", 50), UserClaim("Zoe", 90);
    BobAfterAmy();
    assert !le(bob, zoe);
    assert [zoe, amy][1..] == [amy] && [amy][1..] == [];
    assert Insert(bob, [amy], le) == [amy, bob];
  }

  /** User modal example: Bob (50), Amy (50), Zoe (90) list as Zoe, Amy, Bob. */
  lemma UserModalExample()
    ensures SortBy([UserClaim("Bob", 50), UserClaim("Amy", 50), UserClaim("Zoe", 90)], UserOrder(CaseInsensitiveLe))
              == [UserClaim("Zoe", 90), UserClaim("Amy", 50), UserClaim("Bob", 50)]
  {
    var bob, amy, zoe := UserClaim("Bob", 50), UserClaim("Amy", 50), UserClaim("Zoe", 90);
    assert [bob, amy, zoe][1..] == [amy, zoe];
    ZoeBeforeAmy();
    BobAfterZoeAndAmy();
  }
}
