/** createModuleTile: the tile of one package, and the claim data it carries. */
module Tiles {
  import opened Data

  /** The `tile-hasclaims` / `tile-noclaims` styling class. */
  datatype Variant = HasClaims | NoClaims

  /**
   * The attributes the filter reads back: `data-module-name`, `data-users` and
   * `data-universities` (the JSON text of a list stands for the list itself).
   */
  datatype TileAttrs = TileAttrs(moduleName: string, users: seq<UserClaim>, universities: seq<UniversityClaim>)

  /**
   * A rendered tile: styling, attributes, the header link id, the two info lines, the two
   * button counts and the arguments the two buttons pass to the modal. A button pastes
   * `JSON.stringify` of the raw field into its onclick call, so an absent list arrives
   * as `undefined` (None).
   */
  datatype Tile = Tile(
    variant: Variant,
    attrs: TileAttrs,
    packageId: string,
    passingThreshold: int,
    releaseDate: string,
    universityCount: nat,
    userCount: nat,
    universityArg: Option<seq<UniversityClaim>>,
    userArg: Option<seq<UserClaim>>)

  /**
   * The tile of `pkg`. Its styling depends on the users list alone; the counts and attributes
   * read an absent list as empty, while the buttons pass the fields on unchanged.
   */
  function CreateModuleTile(pkg: Package): (t: Tile)
    ensures t.variant == HasClaims <==> pkg.users.Some? && |pkg.users.value| > 0
    ensures t.universityCount == |OrEmpty(pkg.universities)| && t.userCount == |OrEmpty(pkg.users)|
    ensures t.attrs == TileAttrs(pkg.packageName, OrEmpty(pkg.users), OrEmpty(pkg.universities))
    ensures t.universityArg == pkg.universities && t.userArg == pkg.users
  {
    var universities := OrEmpty(pkg.universities);
    var users := OrEmpty(pkg.users);
    var hasClaims := |users| > 0;
    Tile(
      if hasClaims then HasClaims else NoClaims,
      TileAttrs(pkg.packageName, users, universities),
      pkg.packageId, pkg.passingThreshold, pkg.releaseDate,
      |universities|, |users|, pkg.universities, pkg.users)
  }

  /** The styling ignores the universities list entirely. */
  lemma VariantIgnoresUniversities(pkg: Package, other: Option<seq<UniversityClaim>>)
    ensures CreateModuleTile(pkg).variant == CreateModuleTile(pkg.(universities := other)).variant
  {
  }

  // ---- The button arguments ----

  /** `list.length` as the modal evaluates it: None when `list` is `undefined` (a TypeError). */
  function ArgLength<T>(arg: Option<seq<T>>): (r: Option<nat>)
    ensures r.Some? <==> arg.Some?
    ensures arg.Some? ==> r.value == |arg.value|
  {
    match arg
    case None => None
    case Some(s) => Some(|s|)
  }

  /**
   * A package without a `universities` (or `users`) field: its tile reads "(0)" on the button,
   * but the button hands `undefined` to the modal, whose `.length` then throws.
   */
  lemma AbsentListReachesModalUndefined()
    ensures exists pkg: Package ::
              && CreateModuleTile(pkg).universityCount == 0
              && ArgLength(CreateModuleTile(pkg).universityArg).None?
              && CreateModuleTile(pkg).userCount == 0
              && ArgLength(CreateModuleTile(pkg).userArg).None?
  {
    var pkg := Package("42", "Intro", Some("foundational"), 80, "2024-01-01", None, None);
    assert CreateModuleTile(pkg).universityCount == 0;
  }

  /** Corrected university button argument: `pkg.universities || []`, as the count reads it. */
  function CorrectedUniversityArg(t: Tile): (r: seq<UniversityClaim>) {
    OrEmpty(t.universityArg)
  }

  /** Corrected user button argument: `pkg.users || []`. */
  function CorrectedUserArg(t: Tile): (r: seq<UserClaim>) {
    OrEmpty(t.userArg)
  }

  /**
   * Corrected: each button opens the modal with a list whose length is the count it shows,
   * the list the filter reads from the tile's attributes, and the field itself when present.
   */
  lemma ButtonPayloadMatchesCount(pkg: Package)
    ensures var t := CreateModuleTile(pkg);
      && ArgLength(Some(CorrectedUniversityArg(t))) == Some(t.universityCount)
      && ArgLength(Some(CorrectedUserArg(t))) == Some(t.userCount)
      && CorrectedUniversityArg(t) == t.attrs.universities
      && CorrectedUserArg(t) == t.attrs.users
      && (pkg.universities.Some? ==> CorrectedUniversityArg(t) == pkg.universities.value)
      && (pkg.users.Some? ==> CorrectedUserArg(t) == pkg.users.value)
  {
  }
}
