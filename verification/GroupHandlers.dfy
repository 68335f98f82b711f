/** The group handlers as they run: reads, checks and record updates in the source's order, each handler
    proved to take the step that GroupModel.Apply describes or to refuse with the same error. */
module GroupHandlers {
  import opened Wrappers
  import opened Sequences
  import opened GroupModel

  datatype Outcome = Done | Refused(error: GroupError)

  /** The stored records of one group conversation. */
  class GroupStore {
    var members: map<UserId, Member>
    var ownerId: UserId
    var admins: seq<UserId>
    var membersCount: int
    var blocked: set<UserId>
    var settings: Settings

    function State(): Group
      reads this
    {
      Group(members, ownerId, admins, membersCount, blocked, settings)
    }

    ghost predicate Answers(before: Group, op: GroupOp, r: Outcome)
      reads this
    {
      State() == Apply(before, op) &&
      match r { case Done => Refusal(before, op).None? case Refused(e) => Refusal(before, op) == Some(e) }
    }

    constructor Create(creator: UserId, memberIds: seq<UserId>)
      requires CreatableWith(creator, memberIds)
      ensures State() == NewGroup(creator, memberIds)
    {
      ownerId, admins, membersCount, blocked, settings := creator, [], |memberIds| + 1, {}, DEFAULT_SETTINGS;
      members := map[creator := Member(Owner, Active, None)];
      new;
      for i := 0 to |memberIds|
        modifies this`members
        invariant members == map u | u in Elements(memberIds[..i]) + {creator} ::
            if u == creator then Member(Owner, Active, None) else Member(Regular, Active, None)
      {
        assert memberIds[..i + 1] == memberIds[..i] + [memberIds[i]];
        members := members[memberIds[i] := Member(Regular, Active, None)];
      }
      assert memberIds[..|memberIds|] == memberIds;
    }

    method AddMembers(requester: UserId, memberIds: seq<UserId>, directory: Directory) returns (r: Outcome)
      modifies this
      ensures Answers(old(State()), Add(requester, memberIds, directory), r)
    {
      if !IsActiveMember(State(), requester) { return Refused(NotMember); }
      if !settings.allowMemberInvite { return Refused(InvitesDisabled); }
      if settings.onlyAdminsAdd && !IsManager(State(), requester) { return Refused(Forbidden); }
      var listRefusal := ValidateAdd(requester, memberIds, membersCount, directory);
      if listRefusal.Some? { return Refused(listRefusal.value); }
      var anyBlocked := AnyBlocked(memberIds);
      if anyBlocked { return Refused(GroupBlocked); }
      var status := if settings.requireApproval && !IsManager(State(), requester) then Pending else Active;
      var allNew, toInsert, toUpdate := SplitNewcomers(memberIds);
      if !allNew { return Refused(AlreadyMember); }
      WriteMembers(toInsert + toUpdate, status);
      assert Elements(toInsert + toUpdate) == Elements(toInsert) + Elements(toUpdate);
      var activeAdded := if status == Active then |toInsert| + |toUpdate| else 0;
      if activeAdded > 0 { membersCount := membersCount + activeAdded; }
      return Done;
    }

    method AnyBlocked(memberIds: seq<UserId>) returns (r: bool)
      ensures r <==> exists u :: u in memberIds && u in blocked
    {
      for i := 0 to |memberIds|
        invariant forall u :: u in memberIds[..i] ==> u !in blocked
      {
        if memberIds[i] in blocked { return true; }
        assert memberIds[..i + 1] == memberIds[..i] + [memberIds[i]];
      }
      assert memberIds[..|memberIds|] == memberIds;
      return false;
    }

    /** Sorts the listed users into new records and records to restore, unless one of them is present already. */
    method SplitNewcomers(memberIds: seq<UserId>)
      returns (allNew: bool, toInsert: seq<UserId>, toUpdate: seq<UserId>)
      ensures !allNew <==> exists u :: u in memberIds && u in members && members[u].leftAt.None?
      ensures allNew ==>
        Elements(toInsert) + Elements(toUpdate) == Elements(memberIds) && |toInsert| + |toUpdate| == |memberIds|
      ensures allNew ==> forall u :: u in toInsert ==> u !in members
      ensures allNew ==> forall u :: u in toUpdate ==> u in members && members[u].leftAt.Some?
    {
      toInsert, toUpdate := [], [];
      for i := 0 to |memberIds|
        invariant Elements(toInsert) + Elements(toUpdate) == Elements(memberIds[..i])
        invariant |toInsert| + |toUpdate| == i
        invariant forall u :: u in toInsert ==> u !in members
        invariant forall u :: u in toUpdate ==> u in members && members[u].leftAt.Some?
        invariant forall u :: u in memberIds[..i] ==> u !in members || members[u].leftAt.Some?
      {
        var u := memberIds[i];
        assert memberIds[..i + 1] == memberIds[..i] + [u];
        AppendElement(memberIds[..i], u);
        if u !in members {
          AppendElement(toInsert, u);
          toInsert := toInsert + [u];
        } else if members[u].leftAt.Some? {
          AppendElement(toUpdate, u);
          toUpdate := toUpdate + [u];
        } else {
          assert u in memberIds;
          return false, toInsert, toUpdate;
        }
      }
      assert memberIds[..|memberIds|] == memberIds;
      allNew := true;
    }

    method WriteMembers(users: seq<UserId>, status: Status)
      modifies this`members
      ensures members == map u | u in old(members).Keys + Elements(users) ::
        if u in Elements(users) then Member(Regular, status, None) else old(members)[u]
    {
      for i := 0 to |users|
        invariant members == map u | u in old(members).Keys + Elements(users[..i]) ::
            if u in Elements(users[..i]) then Member(Regular, status, None) else old(members)[u]
      {
        assert users[..i + 1] == users[..i] + [users[i]];
        members := members[users[i] := Member(Regular, status, None)];
      }
      assert users[..|users|] == users;
    }

    method JoinGroup(linkUsable: bool, requester: UserId) returns (r: Outcome)
      modifies this
      ensures Answers(old(State()), JoinByInvite(linkUsable, requester), r)
    {
      if !linkUsable { return Refused(BadInviteLink); }
      if !settings.allowMemberInvite { return Refused(InvitesDisabled); }
      if requester in blocked { return Refused(GroupBlocked); }
      if requester in members && members[requester].status == Active && members[requester].leftAt.None? {
        return Done;
      }
      if settings.requireApproval {
        if requester in members {
          members := members[requester := members[requester].(status := Pending, leftAt := None)];
        } else {
          members := members[requester := Member(Regular, Pending, None)];
        }
        return Done;
      }
      members := members[requester := Member(Regular, Active, None)];
      membersCount := membersCount + 1;
      return Done;
    }

    method LeaveGroup(userId: UserId, newOwner: Option<UserId>, autoTransfer: bool, now: Time) returns (r: Outcome)
      modifies this
      ensures Answers(old(State()), Leave(userId, newOwner, autoTransfer, now), r)
    {
      if !IsActiveMember(State(), userId) { return Refused(NotMember); }
      var isOwnerLeaving := IsOwnerMember(State(), userId);
      var nextAdmins := Without(admins, userId);
      var nextMembersCount := OneFewer(membersCount);
      if isOwnerLeaving {
        var next: UserId;
        if newOwner.Some? {
          next := newOwner.value;
          if !IsActiveMember(State(), next) { return Refused(InvalidNewOwner); }
          if members[next].role == Admin { nextAdmins := Without(nextAdmins, next); }
        } else if autoTransfer {
          next := FirstRecord(members);
          if members[next].leftAt.Some? { return Refused(NoActiveAdmin); }
          nextAdmins := Without(nextAdmins, next);
        } else {
          return Refused(NewOwnerRequired);
        }
        members := members[next := members[next].(role := Owner)];
        members := members[userId := members[userId].(leftAt := Some(now), role := Admin)];
        ownerId := next;
      } else {
        members := members[userId := members[userId].(leftAt := Some(now))];
      }
      admins, membersCount := nextAdmins, nextMembersCount;
      return Done;
    }

    method TransferOwnership(requester: UserId, newOwner: UserId) returns (r: Outcome)
      modifies this
      ensures Answers(old(State()), TransferOwner(requester, newOwner), r)
    {
      if !IsActiveMember(State(), requester) || !IsOwnerMember(State(), requester) { return Refused(Forbidden); }
      if newOwner !in members { return Refused(TargetMissing); }
      if !IsActive(members[newOwner]) { return Refused(TargetLeft); }
      ownerId := newOwner;
      admins := Unique(Without(admins, newOwner) + [requester]);
      members := members[requester := members[requester].(role := Admin)];
      members := members[newOwner := members[newOwner].(role := Owner)];
      return Done;
    }

    method RemoveMember(requester: UserId, target: UserId, block: bool, now: Time) returns (r: Outcome)
      modifies this
      ensures Answers(old(State()), Remove(requester, target, block, now), r)
    {
      if !IsActiveMember(State(), requester) { return Refused(NotMember); }
      if !IsManager(State(), requester) && requester != target { return Refused(Forbidden); }
      if !IsActiveMember(State(), target) { return Refused(TargetMissing); }
      if IsOwnerMember(State(), target) { return Refused(TargetIsOwner); }
      if members[target].role == Admin { admins := Without(admins, target); }
      members := members[target := members[target].(leftAt := Some(now))];
      membersCount := OneFewer(membersCount);
      if block && target !in blocked { blocked := blocked + {target}; }
      return Done;
    }

    method BlockMember(requester: UserId, target: UserId, now: Time) returns (r: Outcome)
      modifies this
      ensures Answers(old(State()), Block(requester, target, now), r)
    {
      if !IsActiveMember(State(), requester) { return Refused(NotMember); }
      if members[requester].role != Owner && members[requester].role != Admin { return Refused(Forbidden); }
      if target in blocked { return Refused(AlreadyBlocked); }
      if IsActiveMember(State(), target) {
        if members[target].role == Owner { return Refused(TargetIsOwner); }
        var wasAdmin := members[target].role == Admin;
        members := members[target := members[target].(leftAt := Some(now))];
        membersCount := OneFewer(membersCount);
        if wasAdmin { admins := Without(admins, target); }
      }
      blocked := blocked + {target};
      return Done;
    }

    method UnblockMember(requester: UserId, target: UserId) returns (r: Outcome)
      modifies this
      ensures Answers(old(State()), Unblock(requester, target), r)
    {
      if !IsActiveMember(State(), requester) { return Refused(NotMember); }
      if members[requester].role != Owner && members[requester].role != Admin { return Refused(Forbidden); }
      if target !in blocked { return Refused(NotBlocked); }
      blocked := blocked - {target};
      return Done;
    }

    method ApproveMember(requester: UserId, target: UserId) returns (r: Outcome)
      modifies this
      ensures Answers(old(State()), Approve(requester, target), r)
    {
      if !IsActiveMember(State(), requester) || !IsManager(State(), requester) { return Refused(Forbidden); }
      if target !in members { return Refused(TargetMissing); }
      if members[target].status == Active { return Refused(AlreadyActive); }
      if members[target].status == Rejected { return Refused(AlreadyRejected); }
      members := members[target := members[target].(status := Active)];
      membersCount := membersCount + 1;
      return Done;
    }

    method RejectPending(requester: UserId, target: UserId) returns (r: Outcome)
      modifies this
      ensures Answers(old(State()), RejectMember(requester, target), r)
    {
      if !IsActiveMember(State(), requester) || !IsManager(State(), requester) { return Refused(Forbidden); }
      if target !in members { return Refused(TargetMissing); }
      if members[target].status == Rejected { return Refused(AlreadyRejected); }
      if members[target].status == Active { return Refused(AlreadyActive); }
      members := members[target := members[target].(status := Rejected)];
      return Done;
    }

    method SetAdminRole(requester: UserId, target: UserId, isAdmin: bool) returns (r: Outcome)
      modifies this
      ensures Answers(old(State()), SetAdmin(requester, target, isAdmin), r)
    {
      if !IsActiveMember(State(), requester) || !IsOwnerMember(State(), requester) { return Refused(Forbidden); }
      if target !in members { return Refused(TargetMissing); }
      if !IsActive(members[target]) { return Refused(TargetLeft); }
      if IsOwnerMember(State(), target) { return Refused(TargetIsOwner); }
      members := members[target := members[target].(role := if isAdmin then Admin else Regular)];
      if isAdmin {
        admins := Unique(admins + [target]);
      } else {
        admins := Without(admins, target);
      }
      return Done;
    }
  }

  method CreateGroup(creator: UserId, memberIds: seq<UserId>, directory: Directory)
    returns (r: Result<GroupStore, GroupError>)
    ensures match r
      case Failure(e) => CreateRefusal(creator, memberIds, directory) == Some(e)
      case Success(store) =>
        CreateRefusal(creator, memberIds, directory).None? && fresh(store) &&
        store.State() == NewGroup(creator, memberIds)
  {
    var refusal := CreateRefusal(creator, memberIds, directory);
    if refusal.Some? { return Failure(refusal.value); }
    var store := new GroupStore.Create(creator, memberIds);
    return Success(store);
  }

  /** The access policy's checks on a list of users to add. */
  method ValidateAdd(requester: UserId, ids: seq<UserId>, currentCount: int, d: Directory)
    returns (r: Option<GroupError>)
    ensures r == AddListRefusal(requester, ids, currentCount, d)
  {
    if |ids| < 1 { return Some(TooFewMembers); }
    if |ids| > MAX_MEMBERS - 1 || currentCount + |ids| > MAX_MEMBERS { return Some(TooManyMembers); }
    if |Unique(ids)| != |ids| { return Some(DuplicateMember); }
    if requester in ids { return Some(SelfListed); }
    for i := 0 to |ids|
      invariant DirectoryRefusal(d, requester, ids) == DirectoryRefusal(d, requester, ids[i..])
    {
      var u := ids[i];
      if u !in d.users { return Some(UserMissing); }
      if u !in d.enabled { return Some(UserDisabled); }
      if BlockedBetween(d, requester, u) { return Some(UsersBlocked); }
    }
    return None;
  }
}
