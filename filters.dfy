/** applyModuleFilters: which tiles stay visible for the four filter controls. */
module Filters {
  import opened Data
  import opened Text
  import opened Tiles

  /** The raw values of user-search, university-search, module-search and claimed-filter. */
  datatype FilterInputs = FilterInputs(userSearch: string, universitySearch: string, moduleSearch: string, claimedFilter: string)

  /** The three queries after `toLowerCase` (`lower`), and the selector as read. */
  datatype Queries = Queries(user: string, university: string, moduleName: string, claimed: string)

  function Lowered(f: FilterInputs, lower: string -> string): Queries {
    Queries(lower(f.userSearch), lower(f.universitySearch), lower(f.moduleSearch), f.claimedFilter)
  }

  /** `users.some(u => lower(u.full_name).includes(q))`. */
  predicate SomeUserMatches(users: seq<UserClaim>, q: string, lower: string -> string) {
    exists i :: 0 <= i < |users| && Contains(lower(users[i].fullName), q)
  }

  /** `universities.some(u => lower(u.name).includes(q))`. */
  predicate SomeUniversityMatches(universities: seq<UniversityClaim>, q: string, lower: string -> string) {
    exists i :: 0 <= i < |universities| && Contains(lower(universities[i].name), q)
  }

  /** The claimed/unclaimed selector; any value other than the two words admits every tile. */
  predicate ClaimSelectorAdmits(selector: string, hasClaims: bool) {
    !(selector == "claimed" && !hasClaims) && !(selector == "unclaimed" && hasClaims)
  }

  /** The four tests ANDed; each text test is vacuous for an empty query. */
  predicate Passes(t: TileAttrs, q: Queries, lower: string -> string) {
    && (q.moduleName == "" || Contains(lower(t.moduleName), q.moduleName))
    && (q.user == "" || SomeUserMatches(t.users, q.user, lower))
    && (q.university == "" || SomeUniversityMatches(t.universities, q.university, lower))
    && ClaimSelectorAdmits(q.claimed, |t.users| > 0)
  }

  /** Whether a tile stays visible for the controls' current values. */
  predicate Visible(t: TileAttrs, f: FilterInputs, lower: string -> string) {
    Passes(t, Lowered(f, lower), lower)
  }

  /** The per-tile callback: `visible` starts true and each failing test clears it. */
  method TileVisibility(t: TileAttrs, q: Queries, lower: string -> string) returns (visible: bool)
    ensures visible <==> Passes(t, q, lower)
  {
    var hasClaims := |t.users| > 0;
    visible := true;
    if q.moduleName != "" && !Contains(lower(t.moduleName), q.moduleName) {
      visible := false;
    }
    if q.user != "" && !SomeUserMatches(t.users, q.user, lower) {
      visible := false;
    }
    if q.university != "" && !SomeUniversityMatches(t.universities, q.university, lower) {
      visible := false;
    }
    if q.claimed == "claimed" && !hasClaims {
      visible := false;
    }
    if q.claimed == "unclaimed" && hasClaims {
      visible := false;
    }
  }

  /** applyModuleFilters: one display decision per tile, in document order. */
  method ApplyModuleFilters(tiles: seq<TileAttrs>, f: FilterInputs, lower: string -> string) returns (shown: seq<bool>)
    ensures |shown| == |tiles|
    ensures forall i :: 0 <= i < |tiles| ==> (shown[i] <==> Visible(tiles[i], f, lower))
  {
    var q := Lowered(f, lower);
    shown := [];
    for i := 0 to |tiles|
      invariant |shown| == i
      invariant forall k :: 0 <= k < i ==> (shown[k] <==> Visible(tiles[k], f, lower))
    {
      var visible := TileVisibility(tiles[i], q, lower);
      shown := shown + [visible];
    }
  }

  /** The "unclaimed" selector hides every tile with user claims, whatever the text queries. */
  lemma UnclaimedHidesClaimed(t: TileAttrs, f: FilterInputs, lower: string -> string)
    requires f.claimedFilter == "unclaimed" && t.users != []
    ensures !Visible(t, f, lower)
  {
  }

  /** A selector value other than "claimed" and "unclaimed" imposes nothing. */
  lemma OtherSelectorImposesNothing(t: TileAttrs, f: FilterInputs, lower: string -> string)
    requires f.claimedFilter != "claimed" && f.claimedFilter != "unclaimed"
    ensures Visible(t, f, lower) <==> Visible(t, f.(claimedFilter := ""), lower)
  {
  }

  /** With every lowered query empty and no selector, every tile is visible. */
  lemma EmptyFiltersShowAll(t: TileAttrs, f: FilterInputs, lower: string -> string)
    requires lower(f.userSearch) == "" && lower(f.universitySearch) == "" && lower(f.moduleSearch) == ""
    requires f.claimedFilter == ""
    ensures Visible(t, f, lower)
  {
  }

  /** Any single failing test hides the tile; passing all of them shows it. */
  lemma VisibleIsConjunction(t: TileAttrs, f: FilterInputs, lower: string -> string)
    requires lower("") == ""
    ensures Visible(t, f, lower) <==>
      && Visible(t, FilterInputs("", "", f.moduleSearch, ""), lower)
      && Visible(t, FilterInputs(f.userSearch, "", "", ""), lower)
      && Visible(t, FilterInputs("", f.universitySearch, "", ""), lower)
      && Visible(t, FilterInputs("", "", "", f.claimedFilter), lower)
  {
  }

  /**
   * The filter re-derives the claimed status from the `data-users` attribute, and it agrees with
   * the tile's styling: "claimed" admits only `tile-hasclaims`, "unclaimed" only `tile-noclaims`.
   */
  lemma FilterAgreesWithStyling(pkg: Package, f: FilterInputs, lower: string -> string)
    ensures var t := CreateModuleTile(pkg);
      && (f.claimedFilter == "claimed" && Visible(t.attrs, f, lower) ==> t.variant == HasClaims)
      && (f.claimedFilter == "unclaimed" && Visible(t.attrs, f, lower) ==> t.variant == NoClaims)
      && (t.variant == HasClaims <==> |t.attrs.users| > 0)
  {
  }

  /** A text query matches "Intro to Networks" but not "Advanced Topics" (ASCII lowercasing). */
  lemma ModuleQueryExample()
    ensures Visible(TileAttrs("Intro to Networks", [], []), FilterInputs("", "", "intro", ""), AsciiLower)
    ensures !Visible(TileAttrs("Advanced Topics", [], []), FilterInputs("", "", "intro", ""), AsciiLower)
  {
    var hit := AsciiLower("Intro to Networks");
    assert hit[..5] == "intro";
    assert OccursAt(hit, "intro", 0);
    assert AsciiLower("") == "";
    assert AsciiLower("intro") == "intro";
    assert Contains(hit, "intro");
    var miss := AsciiLower("Advanced Topics");
    assert miss == "advanced topics";
    assert miss == ['a', 'd', 'v', 'a', 'n', 'c', 'e', 'd', ' ', 't', 'o', 'p', 'i', 'c', 's'];
    forall i: nat | i <= |miss|
      ensures !OccursAt(miss, "intro", i)
    {
      if i + 5 <= |miss| {
        assert miss[i..i + 5][0] == miss[i] && miss[i..i + 5][1] == miss[i + 1];
      }
    }
  }
}
