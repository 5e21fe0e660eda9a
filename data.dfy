/** Record shapes of the decoded dataset (training_winners_data.json). */
module Data {

  /** An optional JSON field: None stands for an absent (or null) value. */
  datatype Option<+T> = None | Some(value: T)

  /** A user or a university in the leaderboard lists. */
  datatype Entity = Entity(fullName: Option<string>, university: Option<string>, totalPoints: int)

  /** One entry of a package's `universities` list: a university and how many of its users finished. */
  datatype UniversityClaim = UniversityClaim(name: string, users: int)

  /** One entry of a package's `users` list. */
  datatype UserClaim = UserClaim(fullName: string, challengePointsEarned: int)

  /** A training module ("package") of the catalog. */
  datatype Package = Package(
    packageId: string,
    packageName: string,
    difficulty: Option<string>,
    passingThreshold: int,
    releaseDate: string,
    universities: Option<seq<UniversityClaim>>,
    users: Option<seq<UserClaim>>)

  /** The whole payload; `difficultyPoints` is the optional tier-to-points mapping. */
  datatype Dataset = Dataset(
    users: seq<Entity>,
    universities: seq<Entity>,
    packages: seq<Package>,
    difficultyPoints: Option<map<string, int>>)

  /** `list || []`: an absent list reads as empty. */
  function OrEmpty<T>(list: Option<seq<T>>): (r: seq<T>)
    ensures list.None? ==> r == []
    ensures list.Some? ==> r == list.value
  {
    match list
    case None => []
    case Some(s) => s
  }
}
