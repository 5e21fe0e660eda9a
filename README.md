# Simspace training dashboard: the decision layer of main.js

`main.js` drives a static dashboard. The dashboard shows two leaderboards (top users and top
universities) and a catalog of training modules arranged in one column per difficulty tier. Each
module tile carries two buttons that open a detail modal listing the universities or users that
claimed the module. Four filter controls hide or show the tiles.

This project models the deterministic part of that script in Dafny and proves what it does.
DOM elements are replaced by records, and containers that the script appends to become classes
whose fields grow. The parts are:

- **Leaderboards** (`renderRankings`). The list is copied, stably sorted by `total_points`
  descending and cut to the first three. Exactly three slots are always appended: medal cards,
  then placeholders that name the entity type.
- **Catalog** (`loadModules`). Packages are grouped by `difficulty`, falling back to
  "Uncategorized". One column is created for each of the fixed tiers foundational, intermediate
  and advanced, in that order, and only when the tier's bucket is non-empty. Each column has a
  title-cased name and a points label. The label comes from `difficulty_points`, or from the
  default 50/100/300 mapping when that field is absent, and shows "?" when the value is missing
  or zero.
- **Tiles** (`createModuleTile`). The claimed styling depends only on the users list. The claim
  lists are stored on the tile as attributes for the filter to read back. The two buttons pass
  the raw claim fields on to the modal (see "## Findings").
- **Detail modal** (`showStats`, `showUserStats`).
  - The argument array is sorted in place: universities by name, users by points descending
    with name as the tie-breaker.
  - One row of text is listed per claim.
  - An empty list gives a single empty-state row.
- **Filters** (`applyModuleFilters`). A tile is visible exactly when all of these hold:
  - three case-insensitive substring tests, each vacuous for an empty query;
  - the claimed/unclaimed selector admits the tile.

Library behaviour enters the model as parameters:

- Array.prototype.sort is the stable insertion sort `Sorting.SortBy`. It works over a relation
  `le(a, b)` meaning "comparator(a, b) <= 0", and its properties are proved for any transitive,
  total `le`.
- `localeCompare` is an abstract `nameLe` relation that is assumed to be a total preorder.
- `toLowerCase` is an abstract `lower` function.
- `JSON.stringify` followed by `JSON.parse` of a tile attribute is the identity on the list.
- The network load is left out: `Dashboard.LoadModules` starts from the decoded `Data.Dataset`.

Modules: `Data` (records), `Sorting` (the sort), `Text` (`includes`, number rendering,
title-casing), `Rankings`, `Tiles`, `Catalog`, `Modal`, `Filters`, and `Dashboard` (the
composition, the modal buttons and worked examples).

## Model

| member | source | states |
|---|---|---|
| Sorting.SortByCorrect | main.js:45 | for a transitive, total comparator, the sort's result is ordered, is a permutation of the input, and keeps every class of tied elements in input order (stability) |
| Sorting.SortBy | main.js:45 | the sorted copy has the input's length and is a permutation of it; the input list itself is not changed |
| Sorting.SortBySorted | main.js:45 | the sorted copy is ordered by the comparator |
| Sorting.SortByStable | main.js:45 | the elements tied with any `e` appear in the output in the same order as in the input |
| Sorting.SortArray | main.js:131-132 | sorting in place leaves the array holding the stable sorted order of its old contents |
| Rankings.DisplayName | main.js:49 | the card shows `full_name` when it is present and non-empty, else `university` |
| Rankings.ByPointsDesc | main.js:45 | the comparator `b.total_points - a.total_points` lets `a` come first exactly when it has at least `b`'s points |
| Rankings.PointsDescIsTotalPreorder | main.js:45 | that comparator is transitive and total, so the sort's guarantees apply |
| Rankings.TopThree | main.js:45 | the cut keeps min(3, length) entities |
| Rankings.RankingSlots | main.js:47-63 | exactly three slots; slot i is a medal card iff i < length of the list, otherwise a placeholder naming the entity type |
| Rankings.TopThreeDescending | main.js:45 | the cards are in descending order of points |
| Rankings.TopThreeAreBest | main.js:45 | the cards are entities of the list, and no entity left out has more points than any card |
| Rankings.PrefixDominates | main.js:45 | in a list sorted by descending points, nothing after a position outscores anything before it |
| Rankings.TopThreeStable | main.js:45 | among entities with equal points, the cards keep their input order |
| Rankings.MedalSlots | main.js:48-50 | medal slot i has rank i + 1 and carries the display name and points of the i-th best entity |
| Rankings.RenderRankings | main.js:42-65 | the container's slots become its old slots followed by the three ranking slots (append, not replace) |
| Rankings.RenderRankingsTwice | main.js:51 | rendering twice appends six slots, the three ranking slots twice over |
| Catalog.DifficultyKey | main.js:15 | the key is the difficulty when present and non-empty, else "Uncategorized" |
| Catalog.Bucket | main.js:13-18 | the bucket of a key filters the input in order, keeping the packages with that key; it is never longer than the input, and BucketMembership states which packages it holds |
| Catalog.BucketMembership | main.js:13-18 | a package is in the bucket of key k iff it is in the input and its key is k, so each package lands in exactly one bucket |
| Catalog.BucketNonEmpty | main.js:16 | a bucket exists exactly when some package has its key |
| Catalog.GroupByDifficulty | main.js:13-18 | the dictionary has a key exactly for each non-empty bucket, and holds under it the input-order subsequence of packages with that key |
| Catalog.PointsPerLevel | main.js:20-24 | the dataset's `difficulty_points` when present, else the 50/100/300 default |
| Catalog.PointsLabel | main.js:34 | the label is the mapped number iff the tier is in the mapping with a non-zero value, otherwise "?" |
| Catalog.PointsLabels | main.js:20-24 | without `difficulty_points` the tiers show 50, 100 and 300; with it, a tier it omits shows "?" (the defaults are not merged in) |
| Catalog.TilesOf | main.js:37 | one tile per package, as many as there are packages |
| Catalog.TierColumn | main.js:31-37 | a tier's column: title-cased name, points label, tiles of its bucket |
| Catalog.IfPresent | main.js:28-29 | a tier gives its column when its bucket is non-empty, and nothing otherwise |
| Catalog.ColumnsFor | main.js:27-39 | the tiers' columns in tier order, skipping tiers with empty buckets |
| Catalog.CatalogColumns | main.js:27-39 | the columns for the three fixed tiers under the chosen points mapping |
| Catalog.TilesOfAt | main.js:37 | tile i of a column is the tile of the i-th package of its bucket |
| Catalog.TilesOfConcat | main.js:37 | the tiles of two package lists placed together are the tiles of each list together |
| Catalog.CatalogColumnsByTier | main.js:27-39 | the columns are foundational, intermediate and advanced in that order, each present only when its bucket is non-empty |
| Catalog.TierTitles | main.js:33 | the three column titles read "Foundational", "Intermediate" and "Advanced" |
| Catalog.ShownPackagesExactly | main.js:27-29 | a package is shown iff its key is one of the three tiers |
| Catalog.ShownPackages | main.js:27-37 | the packages the columns show, in column order: the foundational, then intermediate, then advanced bucket |
| Catalog.CatalogShowsOnlyTierPackages | main.js:27-39 | the tiles across all columns are exactly the tiles of the three tier buckets, in column order; no other bucket contributes |
| Catalog.EmptyCatalogHasNoColumns | main.js:27-29 | no packages gives no column |
| Catalog.BuildColumn | main.js:31-37 | a column has the title-cased tier, its points label and one tile per package, in order |
| Catalog.AppendTierColumn | main.js:28-38 | one tier step appends that tier's column when its bucket exists, else nothing |
| Catalog.AppendColumns | main.js:27-39 | walking the tiers appends their present columns in order to what the container held |
| Catalog.RenderColumns | main.js:13-39 | the container receives exactly the catalog columns of the packages |
| Text.TitleCase | main.js:33 | same length; the first character is upper-cased and the rest is unchanged |
| Text.Decimal | main.js:135 | `${n}` of an integer (also main.js:163): canonical decimal text, with no leading zero except "0" itself, no "-0", and a leading '-' exactly when negative |
| Text.DecimalRoundTrip | main.js:135 | the rendered count reads back as the number it renders |
| Text.DecimalUnique | main.js:135 | canonical decimal text is exactly the rendering of the number it denotes, so the printed digits are fixed, not only their value |
| Text.NatDigits | main.js:163 | a natural number renders as a non-empty run of digits |
| Text.Contains | main.js:186 | `includes`: the needle occurs at some position of the text |
| Data.OrEmpty | main.js:70-76 | `list \|\| []`: an absent list reads as empty, a present one as itself |
| Tiles.CreateModuleTile | main.js:67-111 | the styling is "hasclaims" iff the users list is non-empty; the counts are the list lengths with an absent list as 0; the attributes hold the name and both lists with an absent list as empty; the buttons pass the raw fields on, absent included |
| Tiles.VariantIgnoresUniversities | main.js:72 | changing the universities list never changes the styling |
| Tiles.ArgLength | main.js:124 | `.length` of an absent argument fails; of a list it is its length |
| Tiles.AbsentListReachesModalUndefined | main.js:106-111 | a package without claim lists shows "(0)" on both buttons, yet each button passes `undefined` to the modal, whose `.length` fails |
| Tiles.CorrectedUniversityArg | main.js:106 | the corrected university button argument, `pkg.universities \|\| []` |
| Tiles.CorrectedUserArg | main.js:109 | the corrected user button argument, `pkg.users \|\| []` |
| Tiles.ButtonPayloadMatchesCount | main.js:70-76 | the corrected arguments always have a length equal to the count each button displays; they are the lists the filter reads from the attributes, and the field itself whenever it is present |
| Modal.UniversityRowReads | main.js:135 | the row is the name, " — ", the count in canonical decimal form (which reads back as the number), then exactly " users" when the count exceeds 1 and " user" otherwise (so 0 and 1 both read "user") |
| Modal.UserRowReads | main.js:163 | the row is the full name, " — ", the points in canonical decimal form (which read back as the number) and " pts" |
| Modal.UniversityRowText | main.js:135 | the text of one university row (its reading is stated by UniversityRowReads) |
| Modal.UserRowText | main.js:163 | the text of one user row (its reading is stated by UserRowReads) |
| Modal.UniversityRows | main.js:133-137 | one row per claim: row i is the text of claim i |
| Modal.UserRows | main.js:161-165 | one row per claim: row i is the text of claim i |
| Modal.UniversityItems | main.js:128-137 | an empty list gives only the "No universities" row, otherwise row i is the text of claim i |
| Modal.UserItems | main.js:151-165 | an empty list gives only the "No users" row, otherwise row i is the text of claim i |
| Modal.UniversityOrder | main.js:132 | `a` may come before `b` when its name collates no later |
| Modal.UserOrder | main.js:155-160 | `a` may come before `b` when it has more points, or equal points and a name that collates no later |
| Modal.UniversityOrderIsTotalPreorder | main.js:132 | the university comparator is a total preorder when `localeCompare` is |
| Modal.UserOrderIsTotalPreorder | main.js:155-160 | the user comparator (points descending, then name) is a total preorder when `localeCompare` is |
| Modal.UniversityModalContents | main.js:128-137 | the listed claims are a permutation of the input in ascending name order, and row i is the text of the i-th sorted claim; an empty list shows only the "No universities" row |
| Modal.UserModalContents | main.js:151-165 | the listed claims are a permutation of the input by points descending, ties by name ascending, and row i is the text of the i-th sorted claim; an empty list shows only the "No users" row |
| Modal.StatsModal.AppendUniversityRows | main.js:133-137 | one row per university is appended in order; the title is untouched |
| Modal.StatsModal.AppendUserRows | main.js:161-165 | one row per user is appended in order; the title is untouched |
| Modal.StatsModal.ShowStats | main.js:119-138 | the title is the module name, the array is sorted in place, and the list shows its rows or the empty-state row |
| Modal.StatsModal.ShowUserStats | main.js:143-166 | the title is the module name, the array is sorted in place, and the list shows its rows or the empty-state row |
| Filters.TileVisibility | main.js:183-202 | the step-by-step flag ends true iff all four tests pass |
| Filters.Lowered | main.js:172-175 | the three text queries pass through `toLowerCase`; the selector is read as is |
| Filters.SomeUserMatches | main.js:191 | some user's lowered full name includes the query |
| Filters.SomeUniversityMatches | main.js:196 | some university's lowered name includes the query |
| Filters.ClaimSelectorAdmits | main.js:201-202 | "claimed" rejects tiles without user claims, "unclaimed" rejects tiles with them, any other value rejects nothing |
| Filters.Passes | main.js:183-202 | the four tests ANDed, each text test vacuous for an empty query |
| Filters.Visible | main.js:172-202 | a tile passes for the lowered control values |
| Filters.ApplyModuleFilters | main.js:171-207 | one decision per tile, in order, and tile i is shown iff it is visible for the lowered queries |
| Filters.UnclaimedHidesClaimed | main.js:202 | "unclaimed" hides every tile with user claims |
| Filters.OtherSelectorImposesNothing | main.js:201-202 | a selector other than "claimed" and "unclaimed" acts as no selector |
| Filters.EmptyFiltersShowAll | main.js:183-202 | empty queries and no selector show every tile |
| Filters.VisibleIsConjunction | main.js:183-202 | a tile is visible iff it passes each of the four filters taken alone |
| Filters.FilterAgreesWithStyling | main.js:179-182 | the filter's claimed status, re-derived from `data-users`, agrees with the tile's styling |
| Filters.ModuleQueryExample | main.js:186 | the query "intro" keeps "Intro to Networks" and hides "Advanced Topics" |
| Dashboard.LoadModules | main.js:9-39 | the users board gets the "user" slots, the universities board the "school" slots, and the catalog its columns, each appended |
| Dashboard.EmptyDatasetRendering | main.js:9-39 | an empty dataset gives no column and three placeholders per board |
| Dashboard.TileButtonsOpenMatchingModal | main.js:106-111 | with the corrected buttons, the modal shows one row per claim counted on the button, or one row when the count is 0 |
| Dashboard.UniversityModalExample | main.js:131-135 | "Beta" (2) and "alpha" (1) list as "alpha — 1 user" then "Beta — 2 users" under a case-insensitive order |
| Dashboard.UserModalExample | main.js:154-160 | Bob (50), Amy (50), Zoe (90) list as Zoe, Amy, Bob |

## Left out

- The `fetch` of `training_winners_data.json` and its JSON decoding (main.js:4-5). This is network I/O, so `Dashboard.LoadModules` takes the decoded dataset as a parameter. In that dataset `users`, `universities` and `packages` are always present lists. In the source, an absent `users` or `universities` throws at `[...list]` (main.js:45) and stops loadModules before the catalog. An absent `packages` throws at `modules.forEach` (main.js:14) after both boards are drawn.
- The HTML templates, the medal symbols, the SVG icon, the catalog URL and the inline styles. A card, column and tile are records instead. The `Tile` record keeps the package id, threshold and release date the template shows.
- Quote escaping inside the `onclick` attribute. A package name or claim containing a quote would break the generated call; this is not modelled.
- Modal opening and closing through `style.display`, `closeModal`, and the event-listener wiring (main.js:140, 168, 210-218). These are UI plumbing.
- The real Unicode semantics of `localeCompare`, `toLowerCase` and `toUpperCase`.
  - Collation and lowercasing are parameters (`nameLe`, `lower`).
  - Text.TitleCase upper-cases only ASCII letters, which covers the three fixed tier names it is applied to.
  - `AsciiLower` and `CaseInsensitiveLe` appear only in the worked examples.
- Catalog.GroupByDifficulty: does not model a difficulty equal to a JavaScript object-prototype key such as "constructor". For such a key, `grouped[diff]` finds the inherited member and `push` throws; the model treats every key as an ordinary dictionary key.
- Catalog.DifficultyKey: treats a difficulty as a string, absent or present. Non-string JSON values (numbers, `false`) are not modelled.
- Rankings.ByPointsDesc: points are unbounded integers. Floating-point points, `NaN`, and the subtraction comparator's rounding are not modelled.
- Modal.UserOrder: `challenge_points_earned` is an unbounded integer, so the subtraction comparator of main.js:156 is exact. `NaN`, non-numeric values and floating-point rounding are not modelled; the same holds for `Data.UniversityClaim.users`.
- Modal.UniversityRowText and Modal.UserRowText render the count and the points with Text.Decimal. Text.Decimal writes every integer as plain decimal digits. JavaScript's `${n}` uses exponent form from 1e21 upwards and shows fractional digits for non-integers; neither is modelled.
- An absent `package_name`, which the script renders as the text "undefined", is not modelled: the name is always a string.
- An absent `full_name` or `name` inside a claim is not modelled: claim names are always strings. In the source such a claim may throw: the modal throws when the sort's comparator reads it as its first argument, and the filter throws when a non-empty query's `some` reaches it. Otherwise it shows the text "undefined": in its row (for instance a one-element list, which never calls the comparator), or when it is the comparator's second argument.
- The sort is modelled as one specific stable algorithm. JavaScript fixes only its result, and for a total preorder every stable sort gives that same result.

## Findings

| source | as written | input that shows it | evidently intended | confidence | as-written member | corrected member |
|---|---|---|---|---|---|---|
| main.js:106-111 | the buttons pass `JSON.stringify(pkg.universities)` and `JSON.stringify(pkg.users)` unguarded, so a package without the field hands `undefined` to `showStats`/`showUserStats`, whose `.length` (main.js:124, main.js:151) throws while the button reads "(0)" | a package with no `universities` and no `users` field, e.g. id "42", name "Intro", difficulty "foundational" | pass `pkg.universities \|\| []` and `pkg.users \|\| []`, as the tile's counts and attributes already do, so the modal shows the empty-state row | not executed | Tiles.AbsentListReachesModalUndefined | Tiles.ButtonPayloadMatchesCount |
