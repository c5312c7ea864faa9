/**
 The administrator's member list: per-member leg statistics, the search box,
 and the two profile updates (display name and team, role).
 */
module UserManagement {
  import opened Wrappers
  import opened Text
  import opened Records

  datatype UserStats = UserStats(userId: Id, totalLegs: nat, approvedLegs: nat, pendingLegs: nat, rejectedLegs: nat)

  /** The number of `user`'s legs in `legs` whose status is in `ss`. */
  function CountLegs(legs: seq<Leg>, user: Id, ss: set<LegStatus>): (n: nat)
    ensures n <= |legs|
  {
    if legs == [] then 0
    else (if legs[0].userId == user && legs[0].status in ss then 1 else 0) + CountLegs(legs[1..], user, ss)
  }

  /** Counts over disjoint status sets add up. */
  lemma {:induction false} CountLegsSplit(legs: seq<Leg>, user: Id, a: set<LegStatus>, b: set<LegStatus>)
    requires a !! b
    ensures CountLegs(legs, user, a) + CountLegs(legs, user, b) == CountLegs(legs, user, a + b)
  {
    if legs != [] {
      CountLegsSplit(legs[1..], user, a, b);
    }
  }

  function StatsFor(legs: seq<Leg>, user: Id): (s: UserStats)
    ensures s.userId == user
    ensures s.approvedLegs + s.pendingLegs + s.rejectedLegs <= s.totalLegs
    ensures s.totalLegs == s.approvedLegs + s.pendingLegs + s.rejectedLegs
      + CountLegs(legs, user, {DUPLICATE, CONFLICT})
  {
    CountLegsSplit(legs, user, {OK}, {PENDING});
    assert {OK} + {PENDING} == {OK, PENDING};
    CountLegsSplit(legs, user, {OK, PENDING}, {REJECTED});
    assert {OK, PENDING} + {REJECTED} == {OK, PENDING, REJECTED};
    CountLegsSplit(legs, user, {OK, PENDING, REJECTED}, {DUPLICATE, CONFLICT});
    assert {OK, PENDING, REJECTED} + {DUPLICATE, CONFLICT} == AllLegStatuses;
    UserStats(user, CountLegs(legs, user, AllLegStatuses), CountLegs(legs, user, {OK}),
      CountLegs(legs, user, {PENDING}), CountLegs(legs, user, {REJECTED}))
  }

  /**
   The statistics map built after loading: one entry per member, with zero counts
   for a member without legs. A failed legs query (`None`) counts as no legs.
   */
  function StatsMap(users: seq<Profile>, legsData: Option<seq<Leg>>): (m: map<Id, UserStats>)
    ensures forall u :: u in m <==> exists i :: 0 <= i < |users| && users[i].userId == u
    ensures forall u :: u in m ==> m[u] == StatsFor(legsData.GetOr([]), u)
  {
    if users == [] then map[]
    else
      var rest := StatsMap(users[..|users| - 1], legsData);
      var u := users[|users| - 1].userId;
      assert forall i :: 0 <= i < |users| - 1 ==> users[..|users| - 1][i] == users[i];
      rest[u := StatsFor(legsData.GetOr([]), u)]
  }

  /** A member without legs still has an entry, with every count at zero. */
  lemma MemberWithoutLegs(users: seq<Profile>, legs: seq<Leg>, i: int)
    requires 0 <= i < |users| && forall k :: 0 <= k < |legs| ==> legs[k].userId != users[i].userId
    ensures users[i].userId in StatsMap(users, Some(legs))
    ensures StatsMap(users, Some(legs))[users[i].userId] == UserStats(users[i].userId, 0, 0, 0, 0)
  {
    NoLegsCountZero(legs, users[i].userId, AllLegStatuses);
    NoLegsCountZero(legs, users[i].userId, {OK});
    NoLegsCountZero(legs, users[i].userId, {PENDING});
    NoLegsCountZero(legs, users[i].userId, {REJECTED});
  }

  lemma {:induction false} NoLegsCountZero(legs: seq<Leg>, user: Id, ss: set<LegStatus>)
    requires forall k :: 0 <= k < |legs| ==> legs[k].userId != user
    ensures CountLegs(legs, user, ss) == 0
  {
    if legs != [] {
      NoLegsCountZero(legs[1..], user, ss);
    }
  }

  /** The search: the lower-cased term in the lower-cased name, e-mail or team name. */
  predicate Matches(u: Profile, term: string) {
    var t := LowerStr(term);
    Contains(LowerStr(u.name), t) || Contains(LowerStr(u.email), t)
    || (u.teamName.Some? && Contains(LowerStr(u.teamName.value), t))
  }

  /** `filteredUsers`: the members that match, in the list's order. */
  function FilterUsers(users: seq<Profile>, term: string): (r: seq<Profile>)
    ensures |r| <= |users|
    ensures forall i :: 0 <= i < |r| ==> r[i] in users && Matches(r[i], term)
    ensures forall i :: 0 <= i < |users| && Matches(users[i], term) ==> users[i] in r
  {
    if users == [] then []
    else
      var init := users[..|users| - 1];
      var last := users[|users| - 1];
      assert users == init + [last];
      FilterUsers(init, term) + (if Matches(last, term) then [last] else [])
  }

  /** Filtering keeps the list's order: a list grown at its end filters to the old result, grown likewise. */
  lemma FilterUsersAppend(users: seq<Profile>, u: Profile, term: string)
    ensures FilterUsers(users + [u], term) == FilterUsers(users, term) + (if Matches(u, term) then [u] else [])
  {
    assert (users + [u])[..|users|] == users;
  }

  /** An empty search keeps every member. */
  lemma {:induction false} EmptySearchKeepsAll(users: seq<Profile>)
    ensures FilterUsers(users, "") == users
  {
    if users != [] {
      var init := users[..|users| - 1];
      EmptySearchKeepsAll(init);
      EmptyContained(LowerStr(users[|users| - 1].name));
      assert users == init + [users[|users| - 1]];
    }
  }

  /** `updateUserInfo`: every profile row of the user gets the name and the team name, an empty team name as null. */
  function UpdateUserInfo(rows: seq<Profile>, userId: Id, name: string, teamName: string): (r: seq<Profile>)
    ensures |r| == |rows|
    ensures forall i :: 0 <= i < |rows| && rows[i].userId != userId ==> r[i] == rows[i]
    ensures forall i :: 0 <= i < |rows| && rows[i].userId == userId ==>
      r[i] == rows[i].(name := name, teamName := OrNull(teamName))
  {
    seq(|rows|, i requires 0 <= i < |rows| =>
      if rows[i].userId == userId then rows[i].(name := name, teamName := OrNull(teamName)) else rows[i])
  }

  /** Opening the edit dialog and saving it unchanged keeps a profile, except that an empty team name becomes null. */
  lemma UnchangedEditKeepsProfile(rows: seq<Profile>, i: int)
    requires 0 <= i < |rows|
    ensures var p := rows[i];
      UpdateUserInfo(rows, p.userId, p.name, OrEmpty(p.teamName))[i]
        == p.(teamName := if p.teamName == Some("") then None else p.teamName)
  {
    OrNullOrEmpty(rows[i].teamName);
  }

  /** `updateUserRole`: every profile row of the user gets the new role. */
  function UpdateUserRole(rows: seq<Profile>, userId: Id, role: Role): (r: seq<Profile>)
    ensures |r| == |rows|
    ensures forall i :: 0 <= i < |rows| ==>
      r[i] == (if rows[i].userId == userId then rows[i].(role := role) else rows[i])
  {
    seq(|rows|, i requires 0 <= i < |rows| => if rows[i].userId == userId then rows[i].(role := role) else rows[i])
  }

  /** The two updates write different columns and commute. */
  lemma InfoAndRoleCommute(rows: seq<Profile>, userId: Id, name: string, teamName: string, role: Role)
    ensures UpdateUserRole(UpdateUserInfo(rows, userId, name, teamName), userId, role)
         == UpdateUserInfo(UpdateUserRole(rows, userId, role), userId, name, teamName)
  {
  }
}
