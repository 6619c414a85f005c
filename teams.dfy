/**
 * The team service: create a team, list and fetch the teams a user may see,
 * add a member by email and remove a member by id. The collection of teams
 * is an object whose map the handlers update in place; listing and fetching
 * are lookups on that map.
 */
module Teams {
  import opened Common
  import opened Text
  import opened Sequences

  /** A team: its name, its manager, and its member list in insertion order. */
  datatype Team = Team(name: string, manager: UserId, members: seq<UserId>)

  const NameRequired := Failure(BadRequest, "Team name is required")
  const TeamNotFound := Failure(NotFound, "Team not found")
  const TeamAccessDenied := Failure(Forbidden, "Access denied")
  const OnlyManagerAdds := Failure(Forbidden, "Only the team manager can add members")
  const EmailRequired := Failure(BadRequest, "Email is required")
  const NoUserWithEmail := Failure(NotFound, "User not found with this email")
  const AlreadyMember := Failure(BadRequest, "User is already a team member")
  const OnlyManagerRemoves := Failure(Forbidden, "Only the team manager can remove members")
  const ManagerNotRemovable := Failure(BadRequest, "Cannot remove the manager from the team")
  const MemberNotFound := Failure(NotFound, "Member not found in team")

  /** What every stored team satisfies: the manager is a member, and nobody
      is listed twice. */
  predicate TeamInvariant(t: Team) {
    t.manager in t.members && NoDuplicates(t.members)
  }

  predicate AllTeamsValid(teams: map<TeamId, Team>) {
    forall id :: id in teams ==> TeamInvariant(teams[id])
  }

  /** `members` with the first occurrence of `x` taken out. */
  function RemoveFirst(s: seq<UserId>, x: UserId): (r: seq<UserId>)
    ensures x !in s ==> r == s
    ensures |r| == if x in s then |s| - 1 else |s|
    ensures forall y :: y in r ==> y in s
  {
    if s == [] then []
    else if s[0] == x then s[1..]
    else [s[0]] + RemoveFirst(s[1..], x)
  }

  /** Removing the first occurrence at index `i` is splicing one element out
      at `i`: the others keep their order. */
  lemma {:induction false} RemoveFirstIsSplice(s: seq<UserId>, x: UserId, i: nat)
    requires i < |s| && s[i] == x && x !in s[..i]
    ensures RemoveFirst(s, x) == s[..i] + s[i + 1..]
  {
    if i > 0 {
      assert s[0] in s[..i];
      assert s[1..][..i - 1] == s[1..i];
      RemoveFirstIsSplice(s[1..], x, i - 1);
      assert [s[0]] + s[1..i] == s[..i];
    }
  }

  /** `RemoveFirst` takes away exactly one copy of `x`, when there is one. */
  lemma {:induction false} RemoveFirstMultiset(s: seq<UserId>, x: UserId)
    ensures multiset(RemoveFirst(s, x)) == multiset(s) - multiset{x}
    ensures x in s ==> |RemoveFirst(s, x)| == |s| - 1
    ensures x !in s ==> RemoveFirst(s, x) == s
  {
    if s != [] {
      RemoveFirstMultiset(s[1..], x);
      assert s == [s[0]] + s[1..];
      if s[0] != x {
        assert x in s ==> x in s[1..];
      }
    }
  }

  /** Splicing index `i` out of a duplicate-free list keeps it
      duplicate-free, drops the element that was there and keeps every
      other one. */
  lemma SpliceOutDistinct(s: seq<UserId>, i: nat, r: seq<UserId>)
    requires NoDuplicates(s) && i < |s| && r == s[..i] + s[i + 1..]
    ensures NoDuplicates(r)
    ensures s[i] !in r
    ensures forall y :: y != s[i] ==> (y in r <==> y in s)
  {
    assert |r| == |s| - 1;
    assert forall k :: 0 <= k < i ==> r[k] == s[k];
    assert forall k :: i <= k < |r| ==> r[k] == s[k + 1];
    forall a, b | 0 <= a < b < |r| ensures r[a] != r[b] {
      var a' := if a < i then a else a + 1;
      var b' := if b < i then b else b + 1;
      assert r[a] == s[a'] && r[b] == s[b'];
    }
    forall k | 0 <= k < |r| ensures r[k] != s[i] && r[k] in s {
      var k' := if k < i then k else k + 1;
      assert r[k] == s[k'];
    }
    forall y | y != s[i] && y in s ensures y in r {
      var k :| 0 <= k < |s| && s[k] == y;
      assert r[if k < i then k else k - 1] == y;
    }
  }

  /** Removing from a duplicate-free list keeps it duplicate-free, removes
      every trace of `x` and keeps everyone else. */
  lemma RemoveFirstFromDistinct(s: seq<UserId>, x: UserId)
    requires NoDuplicates(s)
    ensures NoDuplicates(RemoveFirst(s, x))
    ensures x !in RemoveFirst(s, x)
    ensures forall y :: y != x ==> (y in RemoveFirst(s, x) <==> y in s)
  {
    if x !in s {
      RemoveFirstMultiset(s, x);
    } else {
      var i :| 0 <= i < |s| && s[i] == x;
      assert x !in s[..i];
      RemoveFirstIsSplice(s, x, i);
      SpliceOutDistinct(s, i, s[..i] + s[i + 1..]);
    }
  }

  /** Appending a non-member keeps a team valid; earlier members stay where
      they were. */
  lemma AddPreservesInvariant(t: Team, u: UserId)
    requires TeamInvariant(t) && u !in t.members
    ensures TeamInvariant(t.(members := t.members + [u]))
  {
    var m := t.members + [u];
    forall i, j | 0 <= i < j < |m| ensures m[i] != m[j] {
      if j == |m| - 1 { assert m[i] == t.members[i]; }
    }
  }

  /** Removing anyone but the manager keeps a team valid, and the removed
      user is no longer a member. */
  lemma RemovePreservesInvariant(t: Team, x: UserId)
    requires TeamInvariant(t) && x != t.manager
    ensures TeamInvariant(t.(members := RemoveFirst(t.members, x)))
    ensures x !in RemoveFirst(t.members, x)
  {
    RemoveFirstFromDistinct(t.members, x);
  }

  /** `members.findIndex(m => m === x)`: the first index holding `x`, or -1. */
  method FindIndex(members: seq<UserId>, x: UserId) returns (i: int)
    ensures i == -1 <==> x !in members
    ensures i != -1 ==> 0 <= i < |members| && members[i] == x && x !in members[..i]
  {
    i := 0;
    while i < |members|
      invariant 0 <= i <= |members|
      invariant x !in members[..i]
    {
      if members[i] == x {
        return;
      }
      assert members[..i + 1] == members[..i] + [members[i]];
      i := i + 1;
    }
    assert members[..i] == members;
    i := -1;
  }

  /** GET /teams: a manager sees the teams they manage; anyone else sees the
      teams that list them as a member. */
  function ListTeams(teams: map<TeamId, Team>, actor: Actor): (r: set<TeamId>)
    ensures r <= teams.Keys
    ensures actor.role == Manager ==>
              forall id :: id in r <==> id in teams && teams[id].manager == actor.id
    ensures actor.role != Manager ==>
              forall id :: id in r <==> id in teams && actor.id in teams[id].members
  {
    if actor.role == Manager then set id | id in teams && teams[id].manager == actor.id
    else set id | id in teams && actor.id in teams[id].members
  }

  /** GET /teams/:id: an absent team is 404; a user who is neither a member
      nor the manager is refused; otherwise the stored team is returned. */
  function GetTeam(teams: map<TeamId, Team>, id: TeamId, actor: Actor): (r: Result<Team>)
    ensures id !in teams ==> r == Err(TeamNotFound)
    ensures id in teams ==>
              (r.Ok? <==> actor.id in teams[id].members || actor.id == teams[id].manager)
    ensures r.Ok? ==> id in teams && r.value == teams[id]
    ensures id in teams && r.Err? ==> r == Err(TeamAccessDenied)
  {
    if id !in teams then Err(TeamNotFound)
    else
      var team := teams[id];
      var isMember := actor.id in team.members;
      var isManager := team.manager == actor.id;
      if !isMember && !isManager then Err(TeamAccessDenied) else Ok(team)
  }

  /** Every team a user is shown in the list can also be fetched by that user. */
  lemma ListedTeamsAreReadable(teams: map<TeamId, Team>, actor: Actor, id: TeamId)
    requires id in ListTeams(teams, actor)
    ensures GetTeam(teams, id, actor) == Ok(teams[id])
  {
  }

  /** For a user who is not a manager, the list is exactly the set of teams
      they can fetch, because every manager is a member of their team. */
  lemma NonManagerListIsReadableSet(teams: map<TeamId, Team>, actor: Actor)
    requires AllTeamsValid(teams) && actor.role != Manager
    ensures forall id :: id in ListTeams(teams, actor) <==> id in teams && GetTeam(teams, id, actor).Ok?
  {
    forall id | id in teams && GetTeam(teams, id, actor).Ok?
      ensures id in ListTeams(teams, actor)
    {
      assert TeamInvariant(teams[id]);
    }
  }

  /** The team store. */
  class TeamCollection {
    var teams: map<TeamId, Team>
    var nextId: nat

    ghost predicate Valid()
      reads this
    {
      AllTeamsValid(teams) && forall id :: id in teams ==> id < nextId
    }

    constructor ()
      ensures Valid() && teams == map[]
    {
      teams := map[];
      nextId := 0;
    }

    /** POST /teams. */
    method Create(actor: Actor, name: Option<string>) returns (r: Result<TeamId>)
      requires Valid()
      modifies this
      ensures Valid()
      ensures actor.role != Manager ==> r == Err(Failure(Forbidden, RoleCheckMessage))
      ensures actor.role == Manager && (name.None? || Blank(name.value)) ==> r == Err(NameRequired)
      ensures r.Ok? <==> actor.role == Manager && name.Some? && !Blank(name.value)
      ensures r.Ok? ==> r.value !in old(teams)
                        && teams == old(teams)[r.value := Team(Trim(name.value), actor.id, [actor.id])]
      ensures r.Err? ==> teams == old(teams)
    {
      var denied := RoleCheck(actor, Manager);
      if denied.Some? {
        return Err(denied.value);
      }
      if name.None? || Blank(name.value) {
        return Err(NameRequired);
      }
      var team := Team(Trim(name.value), actor.id, [actor.id]);
      var id := nextId;
      teams := teams[id := team];
      nextId := nextId + 1;
      r := Ok(id);
    }

    /** PUT /teams/:id/members. `emailIndex` is the user collection's unique
        email index. */
    method AddMember(actor: Actor, id: TeamId, email: Option<string>,
                     emailIndex: map<string, UserId>) returns (r: Result<Team>)
      requires Valid()
      modifies this
      ensures Valid()
      ensures r.Err? ==> teams == old(teams)
      ensures actor.role != Manager ==> r == Err(Failure(Forbidden, RoleCheckMessage))
      ensures actor.role == Manager && id !in old(teams) ==> r == Err(TeamNotFound)
      ensures actor.role == Manager && id in old(teams) ==>
                var t := old(teams)[id];
                && (t.manager != actor.id ==> r == Err(OnlyManagerAdds))
                && (t.manager == actor.id && (email.None? || email.value == "") ==> r == Err(EmailRequired))
                && (t.manager == actor.id && email.Some? && email.value != "" ==>
                      && (email.value !in emailIndex ==> r == Err(NoUserWithEmail))
                      && (email.value in emailIndex && emailIndex[email.value] in t.members ==>
                            r == Err(AlreadyMember))
                      && (email.value in emailIndex && emailIndex[email.value] !in t.members ==>
                            && r == Ok(t.(members := t.members + [emailIndex[email.value]]))
                            && teams == old(teams)[id := r.value]))
    {
      var denied := RoleCheck(actor, Manager);
      if denied.Some? {
        return Err(denied.value);
      }
      if id !in teams {
        return Err(TeamNotFound);
      }
      var team := teams[id];
      if team.manager != actor.id {
        return Err(OnlyManagerAdds);
      }
      if email.None? || email.value == "" {
        return Err(EmailRequired);
      }
      if email.value !in emailIndex {
        return Err(NoUserWithEmail);
      }
      var user := emailIndex[email.value];
      if user in team.members {
        return Err(AlreadyMember);
      }
      AddPreservesInvariant(team, user);
      team := team.(members := team.members + [user]);
      teams := teams[id := team];
      r := Ok(team);
    }

    /** DELETE /teams/:id/members/:memberId. */
    method RemoveMember(actor: Actor, id: TeamId, memberId: UserId) returns (r: Result<Team>)
      requires Valid()
      modifies this
      ensures Valid()
      ensures r.Err? ==> teams == old(teams)
      ensures actor.role != Manager ==> r == Err(Failure(Forbidden, RoleCheckMessage))
      ensures actor.role == Manager && id !in old(teams) ==> r == Err(TeamNotFound)
      ensures actor.role == Manager && id in old(teams) ==>
                var t := old(teams)[id];
                && (t.manager != actor.id ==> r == Err(OnlyManagerRemoves))
                && (t.manager == actor.id && memberId == t.manager ==> r == Err(ManagerNotRemovable))
                && (t.manager == actor.id && memberId != t.manager && memberId !in t.members ==>
                      r == Err(MemberNotFound))
                && (t.manager == actor.id && memberId != t.manager && memberId in t.members ==>
                      && r == Ok(t.(members := RemoveFirst(t.members, memberId)))
                      && teams == old(teams)[id := r.value])
    {
      var denied := RoleCheck(actor, Manager);
      if denied.Some? {
        return Err(denied.value);
      }
      if id !in teams {
        return Err(TeamNotFound);
      }
      var team := teams[id];
      if team.manager != actor.id {
        return Err(OnlyManagerRemoves);
      }
      if memberId == team.manager {
        return Err(ManagerNotRemovable);
      }
      var index := FindIndex(team.members, memberId);
      if index == -1 {
        return Err(MemberNotFound);
      }
      RemoveFirstIsSplice(team.members, memberId, index);
      RemovePreservesInvariant(team, memberId);
      team := team.(members := team.members[..index] + team.members[index + 1..]);
      teams := teams[id := team];
      r := Ok(team);
    }
  }
}
