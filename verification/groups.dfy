/** Study groups: the member list of a group with its role predicates, and
    the group service's guards in front of it. The group repository is a map
    from group id to group; `save` is a map update. */
module Groups {
  import opened Common

  /** The outcome of a service call: a value, or the exception it throws. */
  datatype Outcome<T> =
    | Ok(value: T)
    | NotFound(message: string)
    | Unauthorized(message: string)
    | Invalid(message: string)

  /** Only the owner and administrator roles are consulted; every other role
      behaves as `Member`. */
  datatype Role = Owner | Admin | Member

  datatype GroupMember = GroupMember(userId: string, role: Role, joinedAt: nat)

  datatype Settings = Settings(allowMemberSharing: bool)

  datatype Group = Group(id: string, name: string, description: string, createdAt: nat, ownerId: string,
                         members: seq<GroupMember>, avatarUrl: string, settings: Settings)

  // --------------------------------------------------------- member list

  predicate IsMember(g: Group, u: string) {
    exists i :: 0 <= i < |g.members| && g.members[i].userId == u
  }

  /** Index of the first member entry for `u`: `getMember` returns that
      entry. */
  function FirstIndex(ms: seq<GroupMember>, u: string): (r: Option<nat>)
    ensures r.None? <==> forall i :: 0 <= i < |ms| ==> ms[i].userId != u
    ensures r.Some? ==> r.value < |ms| && ms[r.value].userId == u &&
                        forall j :: 0 <= j < r.value ==> ms[j].userId != u
  {
    if |ms| == 0 then None
    else if ms[0].userId == u then Some(0)
    else
      var r := FirstIndex(ms[1..], u);
      assert forall i :: 1 <= i < |ms| ==> ms[i] == ms[1..][i - 1];
      if r.None? then None else Some(r.value + 1)
  }

  /** The first entry for `u`, as `getMember` finds it. */
  function Find(ms: seq<GroupMember>, u: string): (r: Option<GroupMember>)
    ensures r.None? <==> forall i :: 0 <= i < |ms| ==> ms[i].userId != u
    ensures r.Some? ==> r.value in ms && r.value.userId == u
  {
    if |ms| == 0 then None
    else if ms[0].userId == u then Some(ms[0])
    else
      var r := Find(ms[1..], u);
      assert forall i :: 1 <= i < |ms| ==> ms[i] == ms[1..][i - 1];
      r
  }

  /** `Find` returns the entry at the first index. */
  lemma {:induction false} FindAtFirstIndex(ms: seq<GroupMember>, u: string)
    ensures FirstIndex(ms, u).Some? ==> Find(ms, u) == Some(ms[FirstIndex(ms, u).value])
  {
    if |ms| > 0 && ms[0].userId != u {
      FindAtFirstIndex(ms[1..], u);
    }
  }

  /** The first index depends on the user ids only. */
  lemma {:induction false} FirstIndexByIds(ms: seq<GroupMember>, ns: seq<GroupMember>, u: string)
    requires |ms| == |ns| && forall i :: 0 <= i < |ms| ==> ms[i].userId == ns[i].userId
    ensures FirstIndex(ms, u) == FirstIndex(ns, u)
  {
    if |ms| > 0 && ms[0].userId != u {
      FirstIndexByIds(ms[1..], ns[1..], u);
    }
  }

  function GetMember(g: Group, u: string): (r: Option<GroupMember>)
    ensures r.Some? <==> IsMember(g, u)
    ensures r.Some? ==> r.value in g.members && r.value.userId == u
  {
    Find(g.members, u)
  }

  /** `new Group(name, description, ownerId)`: the owner is the only member,
      with the owner role. Settings start from the defaults given. */
  function NewGroup(name: string, description: string, ownerId: string, now: nat, defaults: Settings): (g: Group)
    ensures g.ownerId == ownerId && |g.members| == 1
    ensures g.members[0].userId == ownerId && g.members[0].role == Owner
    ensures IsMember(g, ownerId) && forall u :: IsMember(g, u) ==> u == ownerId
  {
    Group("", name, description, now, ownerId, [GroupMember(ownerId, Owner, now)], "", defaults)
  }

  predicate IsOwnerOrAdmin(g: Group, u: string) {
    var m := GetMember(g, u);
    m.Some? && (m.value.role == Owner || m.value.role == Admin)
  }

  /** The owner-or-admin test looks at the FIRST entry for the user only. */
  lemma OwnerOrAdminByFirstEntry(g: Group, u: string)
    ensures IsOwnerOrAdmin(g, u) <==>
              exists i :: 0 <= i < |g.members| && g.members[i].userId == u &&
                          (g.members[i].role == Owner || g.members[i].role == Admin) &&
                          forall j :: 0 <= j < i ==> g.members[j].userId != u
  {
    FindAtFirstIndex(g.members, u);
    var f := FirstIndex(g.members, u);
    if f.Some? {
      var i := f.value;
      if exists k :: 0 <= k < |g.members| && g.members[k].userId == u &&
                     (g.members[k].role == Owner || g.members[k].role == Admin) &&
                     forall j :: 0 <= j < k ==> g.members[j].userId != u {
        var k :| 0 <= k < |g.members| && g.members[k].userId == u &&
                 (g.members[k].role == Owner || g.members[k].role == Admin) &&
                 forall j :: 0 <= j < k ==> g.members[j].userId != u;
        assert !(k < i) && !(i < k);
      }
    }
  }

  /** `isOwner` compares the owner id only; the member list plays no part. */
  predicate IsOwner(g: Group, u: string) {
    g.ownerId == u
  }

  /** No two entries of the member list share a user id. */
  predicate UniqueIds(ms: seq<GroupMember>) {
    forall i, j :: 0 <= i < j < |ms| ==> ms[i].userId != ms[j].userId
  }

  /** `addMember`: appends a new entry unless the user is already a member. */
  function AddMember(g: Group, u: string, role: Role, now: nat): (r: Group)
    ensures IsMember(g, u) ==> r == g
    ensures !IsMember(g, u) ==> r == g.(members := g.members + [GroupMember(u, role, now)])
    ensures IsMember(r, u)
    ensures UniqueIds(g.members) ==> UniqueIds(r.members)
  {
    if IsMember(g, u) then g
    else
      var r := g.(members := g.members + [GroupMember(u, role, now)]);
      assert r.members[|g.members|].userId == u;
      r
  }

  /** Adding the same user twice is the same as adding once. */
  lemma AddMemberIdempotent(g: Group, u: string, role: Role, role2: Role, now: nat, now2: nat)
    ensures AddMember(AddMember(g, u, role, now), u, role2, now2) == AddMember(g, u, role, now)
  {
  }

  function Without(ms: seq<GroupMember>, u: string): (r: seq<GroupMember>)
    ensures forall x :: x in r <==> x in ms && x.userId != u
    ensures |r| <= |ms|
  {
    if |ms| == 0 then []
    else (if ms[0].userId == u then [] else [ms[0]]) + Without(ms[1..], u)
  }

  /** `removeMember`: every entry for the user goes, every other entry
      stays. */
  function RemoveMember(g: Group, u: string): (r: Group)
    ensures !IsMember(r, u)
    ensures forall x :: x in r.members <==> x in g.members && x.userId != u
    ensures r == g.(members := r.members)
  {
    g.(members := Without(g.members, u))
  }

  /** Removing one user changes no other user's membership. */
  lemma RemoveMemberKeepsOthers(g: Group, u: string, v: string)
    requires v != u
    ensures IsMember(RemoveMember(g, u), v) <==> IsMember(g, v)
  {
    var r := RemoveMember(g, u);
    if IsMember(g, v) {
      var i :| 0 <= i < |g.members| && g.members[i].userId == v;
      assert g.members[i] in r.members;
    }
    if IsMember(r, v) {
      var i :| 0 <= i < |r.members| && r.members[i].userId == v;
      assert r.members[i] in g.members;
    }
  }

  /** `updateMemberRole`: the first entry for the user takes the new role;
      nothing happens for a non-member. */
  function UpdateMemberRole(g: Group, u: string, role: Role): (r: Group)
    ensures !IsMember(g, u) ==> r == g
    ensures |r.members| == |g.members| && r == g.(members := r.members)
    ensures IsMember(g, u) ==>
              var i := FirstIndex(g.members, u).value;
              && r.members[i] == g.members[i].(role := role)
              && forall j :: 0 <= j < |g.members| && j != i ==> r.members[j] == g.members[j]
    ensures forall j :: 0 <= j < |g.members| ==> r.members[j].userId == g.members[j].userId
  {
    match FirstIndex(g.members, u)
    case None => g
    case Some(i) => g.(members := g.members[i := g.members[i].(role := role)])
  }

  /** After a role update the user's role is the new one. */
  lemma UpdateMemberRoleTakes(g: Group, u: string, role: Role)
    requires IsMember(g, u)
    ensures GetMember(UpdateMemberRole(g, u, role), u).value.role == role
  {
    var r := UpdateMemberRole(g, u, role);
    FirstIndexByIds(g.members, r.members, u);
    FindAtFirstIndex(r.members, u);
  }

  /** Removing one user leaves every other user's first entry as it was. */
  lemma {:induction false} WithoutKeepsFind(ms: seq<GroupMember>, u: string, v: string)
    requires u != v
    ensures Find(Without(ms, u), v) == Find(ms, v)
  {
    if |ms| > 0 {
      var rest := Without(ms[1..], u);
      WithoutKeepsFind(ms[1..], u, v);
      if ms[0].userId == u {
        assert Without(ms, u) == [] + rest == rest;
      } else {
        var w := Without(ms, u);
        assert w == [ms[0]] + rest;
        assert w[0] == ms[0] && w[1..] == rest;
      }
    }
  }

  /** Appending an entry leaves the first entry of a present user as it
      was. */
  lemma {:induction false} AppendKeepsFind(ms: seq<GroupMember>, x: GroupMember, v: string)
    requires Find(ms, v).Some?
    ensures Find(ms + [x], v) == Find(ms, v)
  {
    if ms[0].userId != v {
      assert (ms + [x])[1..] == ms[1..] + [x];
      AppendKeepsFind(ms[1..], x, v);
    }
  }

  /** Changing the role of an entry for another user leaves the first entry
      of `v` as it was. */
  lemma {:induction false} UpdateKeepsFind(ms: seq<GroupMember>, i: nat, role: Role, v: string)
    requires i < |ms| && ms[i].userId != v
    ensures Find(ms[i := ms[i].(role := role)], v) == Find(ms, v)
  {
    var ns := ms[i := ms[i].(role := role)];
    if ms[0].userId != v && i > 0 {
      assert ns[1..] == ms[1..][i - 1 := ms[i].(role := role)];
      UpdateKeepsFind(ms[1..], i - 1, role, v);
    }
  }

  // -------------------------------------------------------------- service

  type Repo = map<string, Group>

  function NotFoundText(groupId: string): string {
    "Group not found with id: " + groupId
  }

  function GetGroupById(repo: Repo, groupId: string): (r: Outcome<Group>)
    ensures r.Ok? <==> groupId in repo
    ensures r.Ok? ==> r.value == repo[groupId]
    ensures !r.Ok? ==> r == NotFound(NotFoundText(groupId))
  {
    if groupId in repo then Ok(repo[groupId]) else NotFound(NotFoundText(groupId))
  }

  /** `updateGroup`: the acting user is taken from the update's `ownerId`;
      only name, description, avatar and settings are copied. */
  function UpdateGroup(repo: Repo, groupId: string, update: Group): (r: Outcome<Repo>)
    ensures groupId !in repo ==> r == NotFound(NotFoundText(groupId))
    ensures groupId in repo && !IsOwnerOrAdmin(repo[groupId], update.ownerId) ==>
              r == Unauthorized("Only group owner or admin can update the group")
    ensures r.Ok? <==> groupId in repo && IsOwnerOrAdmin(repo[groupId], update.ownerId)
    ensures r.Ok? ==> r.value.Keys == repo.Keys && forall k :: k in repo && k != groupId ==> r.value[k] == repo[k]
    ensures r.Ok? ==> var g, n := repo[groupId], r.value[groupId];
              && n.name == update.name && n.description == update.description
              && n.avatarUrl == update.avatarUrl && n.settings == update.settings
              && n.id == g.id && n.createdAt == g.createdAt && n.ownerId == g.ownerId && n.members == g.members
  {
    match GetGroupById(repo, groupId)
    case Ok(g) =>
      if !IsOwnerOrAdmin(g, update.ownerId) then Unauthorized("Only group owner or admin can update the group")
      else Ok(repo[groupId := g.(name := update.name, description := update.description,
                                 avatarUrl := update.avatarUrl, settings := update.settings)])
    case NotFound(e) => NotFound(e)
    case Unauthorized(e) => Unauthorized(e)
    case Invalid(e) => Invalid(e)
  }

  function DeleteGroup(repo: Repo, groupId: string): (r: Outcome<Repo>)
    ensures r.Ok? <==> groupId in repo
    ensures r.Ok? ==> r.value == repo - {groupId}
    ensures !r.Ok? ==> r == NotFound(NotFoundText(groupId))
  {
    if groupId in repo then Ok(repo - {groupId}) else NotFound(NotFoundText(groupId))
  }

  function AddMemberToGroup(repo: Repo, groupId: string, u: string, role: Role, now: nat): (r: Outcome<Repo>)
    ensures r.Ok? <==> groupId in repo
    ensures r.Ok? ==> r.value == repo[groupId := AddMember(repo[groupId], u, role, now)]
  {
    if groupId in repo then Ok(repo[groupId := AddMember(repo[groupId], u, role, now)])
    else NotFound(NotFoundText(groupId))
  }

  const CannotRemoveOwner := "Cannot remove the owner from the group"
  const CannotChangeOwner := "Cannot change the role of the group owner"

  /** `removeMember` in the service: the owner can never be removed. */
  function RemoveMemberFromGroup(repo: Repo, groupId: string, u: string): (r: Outcome<Repo>)
    ensures groupId !in repo ==> r == NotFound(NotFoundText(groupId))
    ensures groupId in repo && repo[groupId].ownerId == u ==> r == Unauthorized(CannotRemoveOwner)
    ensures r.Ok? <==> groupId in repo && repo[groupId].ownerId != u
    ensures r.Ok? ==> r.value == repo[groupId := RemoveMember(repo[groupId], u)]
  {
    if groupId !in repo then NotFound(NotFoundText(groupId))
    else if repo[groupId].ownerId == u then Unauthorized(CannotRemoveOwner)
    else Ok(repo[groupId := RemoveMember(repo[groupId], u)])
  }

  /** `updateMemberRole` in the service: the owner's role can never be
      changed. */
  function ChangeMemberRole(repo: Repo, groupId: string, u: string, role: Role): (r: Outcome<Repo>)
    ensures groupId !in repo ==> r == NotFound(NotFoundText(groupId))
    ensures groupId in repo && repo[groupId].ownerId == u ==> r == Unauthorized(CannotChangeOwner)
    ensures r.Ok? <==> groupId in repo && repo[groupId].ownerId != u
    ensures r.Ok? ==> r.value == repo[groupId := UpdateMemberRole(repo[groupId], u, role)]
  {
    if groupId !in repo then NotFound(NotFoundText(groupId))
    else if repo[groupId].ownerId == u then Unauthorized(CannotChangeOwner)
    else Ok(repo[groupId := UpdateMemberRole(repo[groupId], u, role)])
  }

  /** The owner is a member and the first entry for the owner carries the
      owner role. A new group has this shape. */
  predicate OwnerInPlace(g: Group) {
    var m := GetMember(g, g.ownerId);
    m.Some? && m.value.role == Owner
  }

  /** Adding, removing and re-ranking members through the service never
      displaces the owner. */
  lemma ServiceKeepsOwner(repo: Repo, groupId: string, u: string, role: Role, now: nat)
    requires groupId in repo && OwnerInPlace(repo[groupId])
    ensures var r := AddMemberToGroup(repo, groupId, u, role, now); OwnerInPlace(r.value[groupId])
    ensures var r := RemoveMemberFromGroup(repo, groupId, u); r.Ok? ==> OwnerInPlace(r.value[groupId])
    ensures var r := ChangeMemberRole(repo, groupId, u, role); r.Ok? ==> OwnerInPlace(r.value[groupId])
  {
    var g := repo[groupId];
    var o := g.ownerId;
    if !IsMember(g, u) {
      AppendKeepsFind(g.members, GroupMember(u, role, now), o);
    }
    if u != o {
      WithoutKeepsFind(g.members, u, o);
      var f := FirstIndex(g.members, u);
      if f.Some? {
        UpdateKeepsFind(g.members, f.value, role, o);
      }
    }
  }

  function IsUserMemberOfGroup(repo: Repo, groupId: string, u: string): (r: Outcome<bool>)
    ensures r.Ok? <==> groupId in repo
    ensures r.Ok? ==> (r.value <==> IsMember(repo[groupId], u))
  {
    if groupId in repo then Ok(IsMember(repo[groupId], u)) else NotFound(NotFoundText(groupId))
  }

  /** `canUserShareInGroup`. */
  function CanUserShareInGroup(repo: Repo, groupId: string, u: string): (r: Outcome<bool>)
    ensures r.Ok? <==> groupId in repo
    ensures !r.Ok? ==> r == NotFound(NotFoundText(groupId))
    ensures r.Ok? ==> var g := repo[groupId];
              (r.value <==> IsOwnerOrAdmin(g, u) || (IsMember(g, u) && g.settings.allowMemberSharing))
  {
    match GetGroupById(repo, groupId)
    case Ok(g) => Ok(if IsOwnerOrAdmin(g, u) then true else IsMember(g, u) && g.settings.allowMemberSharing)
    case NotFound(e) => NotFound(e)
    case Unauthorized(e) => Unauthorized(e)
    case Invalid(e) => Invalid(e)
  }

  /** Whoever may share is a member of the group. */
  lemma SharersAreMembers(repo: Repo, groupId: string, u: string)
    requires CanUserShareInGroup(repo, groupId, u) == Ok(true)
    ensures IsMember(repo[groupId], u)
  {
  }
}
