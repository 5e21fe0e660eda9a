/** The shared detail modal: showStats (university claims) and showUserStats (user claims). */
module Modal {
  import opened Data
  import opened Sorting
  import opened Text

  const NoUniversitiesText: string := "No universities have completed this module yet."
  const NoUsersText: string := "No users have earned points on this module yet."

  /** The " — " separator of every row. */
  const Dash: string := " \U{2014} "

  /** `(a, b) => a.name.localeCompare(b.name)`, with `nameLe(x, y)` for `x.localeCompare(y) <= 0`. */
  function UniversityOrder(nameLe: (string, string) -> bool): (UniversityClaim, UniversityClaim) -> bool {
    (a: UniversityClaim, b: UniversityClaim) => nameLe(a.name, b.name)
  }

  /** Points descending; equal points fall back to `a.full_name.localeCompare(b.full_name)`. */
  function UserOrder(nameLe: (string, string) -> bool): (UserClaim, UserClaim) -> bool {
    (a: UserClaim, b: UserClaim) =>
      a.challengePointsEarned > b.challengePointsEarned
      || (a.challengePointsEarned == b.challengePointsEarned && nameLe(a.fullName, b.fullName))
  }

  /** `${u.name} — ${u.users} user${u.users > 1 ? 's' : ''}`. */
  function UniversityRowText(u: UniversityClaim): (r: string) {
    u.name + Dash + Decimal(u.users) + " user" + (if u.users > 1 then "s" else "")
  }

  /** `${user.full_name} — ${user.challenge_points_earned} pts`. */
  function UserRowText(u: UserClaim): (r: string) {
    u.fullName + Dash + Decimal(u.challengePointsEarned) + " pts"
  }

  /** One row per claim, in the given order. */
  function UniversityRows(s: seq<UniversityClaim>): (r: seq<string>)
    ensures |r| == |s|
    ensures forall i :: 0 <= i < |s| ==> r[i] == UniversityRowText(s[i])
  {
    if s == [] then []
    else
      var init := s[..|s| - 1];
      assert forall i :: 0 <= i < |init| ==> init[i] == s[i];
      UniversityRows(init) + [UniversityRowText(s[|s| - 1])]
  }

  function UserRows(s: seq<UserClaim>): (r: seq<string>)
    ensures |r| == |s|
    ensures forall i :: 0 <= i < |s| ==> r[i] == UserRowText(s[i])
  {
    if s == [] then []
    else
      var init := s[..|s| - 1];
      assert forall i :: 0 <= i < |init| ==> init[i] == s[i];
      UserRows(init) + [UserRowText(s[|s| - 1])]
  }

  /** The list items of the university modal, given the list in its display order. */
  function UniversityItems(sorted: seq<UniversityClaim>): (r: seq<string>)
    ensures sorted == [] ==> r == [NoUniversitiesText]
    ensures sorted != [] ==> |r| == |sorted| && forall i :: 0 <= i < |sorted| ==> r[i] == UniversityRowText(sorted[i])
  {
    if sorted == [] then [NoUniversitiesText] else UniversityRows(sorted)
  }

  function UserItems(sorted: seq<UserClaim>): (r: seq<string>)
    ensures sorted == [] ==> r == [NoUsersText]
    ensures sorted != [] ==> |r| == |sorted| && forall i :: 0 <= i < |sorted| ==> r[i] == UserRowText(sorted[i])
  {
    if sorted == [] then [NoUsersText] else UserRows(sorted)
  }

  /**
   * A university row starts with the name, then the separator, then the count (which reads
   * back as `u.users`), then " user", with a final 's' exactly when the count exceeds 1.
   */
  lemma UniversityRowReads(u: UniversityClaim)
    ensures var r, n, d := UniversityRowText(u), |u.name|, |Decimal(u.users)|;
      && n + 3 + d <= |r|
      && r[..n] == u.name
      && r[n..n + 3] == Dash
      && r[n + 3..n + 3 + d] == Decimal(u.users)
      && IsCanonical(r[n + 3..n + 3 + d])
      && ParseDecimal(r[n + 3..n + 3 + d]) == u.users
      && r[n + 3 + d..] == (if u.users > 1 then " users" else " user")
      && (r[|r| - 1] == 's' <==> u.users > 1)
  {
    var r, n, d := UniversityRowText(u), |u.name|, |Decimal(u.users)|;
    var suffix := " user" + (if u.users > 1 then "s" else "");
    assert r == u.name + Dash + Decimal(u.users) + suffix;
    assert r[..n] == u.name;
    assert r[n..n + 3] == Dash;
    assert r[n + 3..n + 3 + d] == Decimal(u.users);
    assert r[n + 3 + d..] == suffix;
    assert r[|r| - 1] == suffix[|suffix| - 1];
    DecimalRoundTrip(u.users);
  }

  /** A user row starts with the full name, then the separator and the points, then " pts". */
  lemma UserRowReads(u: UserClaim)
    ensures var r, n, d := UserRowText(u), |u.fullName|, |Decimal(u.challengePointsEarned)|;
      && |r| == n + 3 + d + 4
      && r[..n] == u.fullName
      && r[n..n + 3] == Dash
      && IsCanonical(r[n + 3..n + 3 + d])
      && ParseDecimal(r[n + 3..n + 3 + d]) == u.challengePointsEarned
      && r[n + 3 + d..] == " pts"
  {
    var r, n, d := UserRowText(u), |u.fullName|, |Decimal(u.challengePointsEarned)|;
    assert r[..n] == u.fullName;
    assert r[n..n + 3] == Dash;
    assert r[n + 3..n + 3 + d] == Decimal(u.challengePointsEarned);
    assert r[n + 3 + d..] == " pts";
    DecimalRoundTrip(u.challengePointsEarned);
  }

  lemma UniversityOrderIsTotalPreorder(nameLe: (string, string) -> bool)
    requires TotalPreorder(nameLe)
    ensures TotalPreorder(UniversityOrder(nameLe))
  {
    var le := UniversityOrder(nameLe);
    forall x, y, z | le(x, y) && le(y, z)
      ensures le(x, z)
    {
      assert nameLe(x.name, y.name) && nameLe(y.name, z.name);
    }
    forall x, y
      ensures le(x, y) || le(y, x)
    {
      assert nameLe(x.name, y.name) || nameLe(y.name, x.name);
    }
  }

  lemma UserOrderIsTotalPreorder(nameLe: (string, string) -> bool)
    requires TotalPreorder(nameLe)
    ensures TotalPreorder(UserOrder(nameLe))
  {
    var le := UserOrder(nameLe);
    forall x, y, z | le(x, y) && le(y, z)
      ensures le(x, z)
    {
      if x.challengePointsEarned == y.challengePointsEarned == z.challengePointsEarned {
        assert nameLe(x.fullName, y.fullName) && nameLe(y.fullName, z.fullName);
      }
    }
    forall x, y
      ensures le(x, y) || le(y, x)
    {
      assert nameLe(x.fullName, y.fullName) || nameLe(y.fullName, x.fullName);
    }
  }

  /**
   * The university modal lists a permutation of the claims, ascending by name, one row each;
   * an empty list shows the single empty-state row.
   */
  lemma UniversityModalContents(s: seq<UniversityClaim>, nameLe: (string, string) -> bool)
    requires TotalPreorder(nameLe)
    ensures var sorted := SortBy(s, UniversityOrder(nameLe));
      && multiset(sorted) == multiset(s)
      && (forall i, j :: 0 <= i < j < |sorted| ==> nameLe(sorted[i].name, sorted[j].name))
      && |UniversityItems(sorted)| == (if s == [] then 1 else |s|)
      && (s == [] ==> UniversityItems(sorted) == [NoUniversitiesText])
      && (forall i :: 0 <= i < |sorted| ==> UniversityItems(sorted)[i] == UniversityRowText(sorted[i]))
  {
    var sorted := SortBy(s, UniversityOrder(nameLe));
    UniversityOrderIsTotalPreorder(nameLe);
    SortBySorted(s, UniversityOrder(nameLe));
    forall i, j | 0 <= i < j < |sorted|
      ensures nameLe(sorted[i].name, sorted[j].name)
    {
      assert UniversityOrder(nameLe)(sorted[i], sorted[j]);
    }
  }

  /**
   * The user modal lists a permutation of the claims by points descending, ties by name
   * ascending; an empty list shows the single empty-state row.
   */
  lemma UserModalContents(s: seq<UserClaim>, nameLe: (string, string) -> bool)
    requires TotalPreorder(nameLe)
    ensures var sorted := SortBy(s, UserOrder(nameLe));
      && multiset(sorted) == multiset(s)
      && (forall i, j :: 0 <= i < j < |sorted| ==>
            sorted[i].challengePointsEarned >= sorted[j].challengePointsEarned)
      && (forall i, j :: 0 <= i < j < |sorted| && sorted[i].challengePointsEarned == sorted[j].challengePointsEarned ==>
            nameLe(sorted[i].fullName, sorted[j].fullName))
      && |UserItems(sorted)| == (if s == [] then 1 else |s|)
      && (s == [] ==> UserItems(sorted) == [NoUsersText])
      && (forall i :: 0 <= i < |sorted| ==> UserItems(sorted)[i] == UserRowText(sorted[i]))
  {
    var sorted := SortBy(s, UserOrder(nameLe));
    UserOrderIsTotalPreorder(nameLe);
    SortBySorted(s, UserOrder(nameLe));
    forall i, j | 0 <= i < j < |sorted|
      ensures sorted[i].challengePointsEarned >= sorted[j].challengePointsEarned
      ensures sorted[i].challengePointsEarned == sorted[j].challengePointsEarned ==>
                nameLe(sorted[i].fullName, sorted[j].fullName)
    {
      assert UserOrder(nameLe)(sorted[i], sorted[j]);
    }
  }

  /** The modal's title and list region (its visibility is not modelled). */
  class StatsModal {
    var title: string
    var items: seq<string>

    constructor ()
      ensures title == "" && items == []
    {
      title := "";
      items := [];
    }

    /** `sorted.forEach(u => content.appendChild(li))` for university claims. */
    method AppendUniversityRows(sorted: seq<UniversityClaim>)
      modifies this
      ensures title == old(title)
      ensures items == old(items) + UniversityRows(sorted)
    {
      ghost var start := items;
      for i := 0 to |sorted|
        invariant title == old(title)
        invariant items == start + UniversityRows(sorted[..i])
      {
        ghost var done := UniversityRows(sorted[..i]);
        var row := UniversityRowText(sorted[i]);
        assert sorted[..i + 1][..i] == sorted[..i];
        assert UniversityRows(sorted[..i + 1]) == done + [row];
        items := items + [row];
        assert (start + done) + [row] == start + (done + [row]);
      }
      assert sorted[..|sorted|] == sorted;
    }

    /** The same for user claims. */
    method AppendUserRows(sorted: seq<UserClaim>)
      modifies this
      ensures title == old(title)
      ensures items == old(items) + UserRows(sorted)
    {
      ghost var start := items;
      for i := 0 to |sorted|
        invariant title == old(title)
        invariant items == start + UserRows(sorted[..i])
      {
        ghost var done := UserRows(sorted[..i]);
        var row := UserRowText(sorted[i]);
        assert sorted[..i + 1][..i] == sorted[..i];
        assert UserRows(sorted[..i + 1]) == done + [row];
        items := items + [row];
        assert (start + done) + [row] == start + (done + [row]);
      }
      assert sorted[..|sorted|] == sorted;
    }

    /** showStats: sorts the argument array in place by name and lists one row per university. */
    method ShowStats(name: string, universities: array<UniversityClaim>, nameLe: (string, string) -> bool)
      modifies this, universities
      ensures title == name
      ensures universities[..] == SortBy(old(universities[..]), UniversityOrder(nameLe))
      ensures items == UniversityItems(universities[..])
    {
      var count := universities.Length;
      title := name;
      items := [];
      if count == 0 {
        items := [NoUniversitiesText];
      } else {
        SortArray(universities, UniversityOrder(nameLe));
        AppendUniversityRows(universities[..]);
      }
    }

    /** showUserStats: sorts the argument array in place by points then name and lists one row per user. */
    method ShowUserStats(packageName: string, users: array<UserClaim>, nameLe: (string, string) -> bool)
      modifies this, users
      ensures title == packageName
      ensures users[..] == SortBy(old(users[..]), UserOrder(nameLe))
      ensures items == UserItems(users[..])
    {
      title := packageName;
      items := [];
      if users.Length == 0 {
        items := [NoUsersText];
      } else {
        SortArray(users, UserOrder(nameLe));
        AppendUserRows(users[..]);
      }
    }
  }
}
