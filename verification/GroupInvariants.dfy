/** What every reachable group satisfies, and exactly which ownership changes break it. */
module GroupInvariants {
  import opened Wrappers
  import opened Sequences
  import opened GroupModel

  // ---------- The invariant ----------

  ghost predicate CountExact(g: Group) {
    g.membersCount == |ActiveMembers(g)|
  }

  /** Only active members ever leave, so a pending or rejected record has no leaving time. */
  ghost predicate OnlyActiveLeave(g: Group) {
    forall u :: u in g.members && g.members[u].leftAt.Some? ==> g.members[u].status == Active
  }

  ghost predicate OneOwner(g: Group) {
    IsActiveMember(g, g.ownerId) &&
    forall u :: u in g.members ==> (g.members[u].role == Owner <==> u == g.ownerId)
  }

  ghost predicate AdminsSound(g: Group) {
    NoDuplicates(g.admins) &&
    forall u :: u in g.admins ==> IsActiveMember(g, u) && g.members[u].role == Admin
  }

  ghost predicate Inv(g: Group) {
    CountExact(g) && OnlyActiveLeave(g) && OneOwner(g) && AdminsSound(g)
  }

  // ---------- Counting ----------

  lemma ActiveMembersAre(g: Group)
    ensures forall u :: u in ActiveMembers(g) <==> IsActiveMember(g, u)
  {
  }

  lemma ActiveGains(g: Group, h: Group, u: UserId)
    requires CountExact(g) && !IsActiveMember(g, u) && IsActiveMember(h, u)
    requires forall v :: v != u ==> (IsActiveMember(h, v) <==> IsActiveMember(g, v))
    ensures |ActiveMembers(h)| == g.membersCount + 1
  {
    ActiveMembersAre(g);
    ActiveMembersAre(h);
    assert ActiveMembers(h) == ActiveMembers(g) + {u};
  }

  lemma ActiveLoses(g: Group, h: Group, u: UserId)
    requires CountExact(g) && IsActiveMember(g, u) && !IsActiveMember(h, u)
    requires forall v :: v != u ==> (IsActiveMember(h, v) <==> IsActiveMember(g, v))
    ensures |ActiveMembers(h)| == g.membersCount - 1
    ensures OneFewer(g.membersCount) == g.membersCount - 1
  {
    ActiveMembersAre(g);
    ActiveMembersAre(h);
    assert ActiveMembers(g) == ActiveMembers(h) + {u};
  }

  lemma ActiveSame(g: Group, h: Group)
    requires forall v :: IsActiveMember(h, v) <==> IsActiveMember(g, v)
    ensures ActiveMembers(h) == ActiveMembers(g)
  {
    ActiveMembersAre(g);
    ActiveMembersAre(h);
  }

  // ---------- Each handler ----------

  lemma NewGroupInv(creator: UserId, ids: seq<UserId>)
    requires CreatableWith(creator, ids)
    ensures Inv(NewGroup(creator, ids))
  {
    var g := NewGroup(creator, ids);
    UniqueContains(ids);
    LengthVersusSize(ids);
    LengthVersusSize(Unique(ids));
    assert Elements(Unique(ids)) == Elements(ids);
    assert ActiveMembers(g) == Elements(ids) + {creator};
  }

  lemma DistinctIdsCount(ids: seq<UserId>)
    requires |Unique(ids)| == |ids|
    ensures |Elements(ids)| == |ids|
  {
    hide Unique, NoDuplicates;
    UniqueContains(ids);
    LengthVersusSize(Unique(ids));
    assert Elements(Unique(ids)) == Elements(ids);
  }

  lemma ActiveGainsMany(g: Group, h: Group, users: set<UserId>)
    requires CountExact(g) && forall u :: u in users ==> !IsActiveMember(g, u)
    requires forall v :: IsActiveMember(h, v) <==> IsActiveMember(g, v) || v in users
    ensures |ActiveMembers(h)| == g.membersCount + |users|
  {
    hide IsActiveMember;
    ActiveMembersAre(g);
    ActiveMembersAre(h);
    assert ActiveMembers(h) == ActiveMembers(g) + users;
  }

  lemma AddedCount(g: Group, r: UserId, ids: seq<UserId>)
    requires CountExact(g) && r in g.members && |Unique(ids)| == |ids|
    requires forall u :: u in ids ==> !IsActiveMember(g, u)
    ensures CountExact(AfterAdd(g, r, ids))
  {
    hide Unique, NoDuplicates;
    var h := AfterAdd(g, r, ids);
    DistinctIdsCount(ids);
    if JoinStatus(g, r) == Active {
      ActiveGainsMany(g, h, Elements(ids));
    } else {
      ActiveSame(g, h);
    }
  }

  lemma AddKeepsInv(g: Group, op: GroupOp)
    requires Inv(g) && op.Add? && Refusal(g, op).None?
    ensures Inv(Apply(g, op))
  {
    AddedCount(g, op.requester, op.memberIds);
  }

  lemma JoinKeepsInv(g: Group, op: GroupOp)
    requires Inv(g) && op.JoinByInvite? && Refusal(g, op).None?
    ensures Inv(Apply(g, op))
  {
    var h := Apply(g, op);
    if IsActiveMember(g, op.requester) {
    } else if g.settings.requireApproval {
      ActiveSame(g, h);
    } else {
      ActiveGains(g, h, op.requester);
    }
  }

  /** The successor a leaving owner may hand the group to without harm: another active member. */
  predicate FitSuccessor(g: Group, op: GroupOp)
    requires op.Leave? && op.requester in g.members
  {
    IsOwnerMember(g, op.requester) && Successor(g, op).Success? ==>
      Successor(g, op).value != op.requester && IsActiveMember(g, Successor(g, op).value)
  }

  lemma LeaveCount(g: Group, op: GroupOp)
    requires Inv(g) && op.Leave? && Refusal(g, op).None?
    ensures CountExact(Apply(g, op))
  {
    ActiveLoses(g, Apply(g, op), op.requester);
  }

  lemma LeaveAdmins(g: Group, op: GroupOp)
    requires Inv(g) && op.Leave? && Refusal(g, op).None? && FitSuccessor(g, op)
    ensures AdminsSound(Apply(g, op))
  {
    WithoutContains(g.admins, op.requester);
    if IsOwnerMember(g, op.requester) {
      WithoutContains(Without(g.admins, op.requester), Successor(g, op).value);
    }
  }

  /** Leaving keeps the invariant exactly when the owner hands over to another active member. */
  lemma LeaveKeepsInvIffSuccessorFits(g: Group, op: GroupOp)
    requires Inv(g) && op.Leave? && Refusal(g, op).None?
    ensures Inv(Apply(g, op)) <==> FitSuccessor(g, op)
  {
    LeaveCount(g, op);
    if FitSuccessor(g, op) {
      LeaveAdmins(g, op);
    }
  }

  /** Naming a successor is harmless exactly when the owner does not name himself. */
  lemma NamedSuccessorFits(g: Group, op: GroupOp)
    requires Inv(g) && op.Leave? && Refusal(g, op).None? && op.newOwner.Some? && IsOwnerMember(g, op.requester)
    ensures FitSuccessor(g, op) <==> op.newOwner.value != op.requester
  {
  }

  /** Automatic transfer is harmless exactly when the group's first record is an active member other than the owner. */
  lemma AutomaticSuccessorFits(g: Group, op: GroupOp)
    requires Inv(g) && op.Leave? && Refusal(g, op).None? && op.newOwner.None? && IsOwnerMember(g, op.requester)
    ensures FitSuccessor(g, op) <==>
      FirstRecord(g.members) != op.requester && g.members[FirstRecord(g.members)].status == Active
  {
  }

  lemma TransferAdmins(g: Group, r: UserId, t: UserId)
    requires Inv(g) && r == g.ownerId && IsActiveMember(g, t) && r != t
    ensures AdminsSound(AfterTransfer(g, r, t))
  {
    hide Unique, Without, NoDuplicates;
    WithoutContains(g.admins, t);
    UniqueContains(Without(g.admins, t) + [r]);
    var admins := AfterTransfer(g, r, t).admins;
    forall u | u in admins ensures u == r || (u in g.admins && u != t) {
      assert u in Without(g.admins, t) + [r];
    }
  }

  /** Transferring keeps the invariant exactly when the owner does not transfer to himself. */
  lemma TransferKeepsInvIffToAnother(g: Group, op: GroupOp)
    requires Inv(g) && op.TransferOwner? && Refusal(g, op).None?
    ensures Inv(Apply(g, op)) <==> op.target != op.requester
  {
    var h := Apply(g, op);
    ActiveSame(g, h);
    if op.target != op.requester {
      TransferAdmins(g, op.requester, op.target);
    } else {
      UniqueContains(Without(g.admins, op.target) + [op.requester]);
      assert op.requester in h.admins && h.members[op.requester].role == Owner;
    }
  }

  lemma RemoveKeepsInv(g: Group, t: UserId, block: bool, now: Time)
    requires Inv(g) && IsActiveMember(g, t) && t != g.ownerId
    ensures Inv(AfterRemove(g, t, block, now))
  {
    ActiveLoses(g, AfterRemove(g, t, block, now), t);
    WithoutContains(g.admins, t);
  }

  lemma BlockKeepsInv(g: Group, t: UserId, now: Time)
    requires Inv(g) && t != g.ownerId
    ensures Inv(AfterBlock(g, t, now))
  {
    if IsActiveMember(g, t) {
      RemoveKeepsInv(g, t, true, now);
    }
  }

  lemma ApprovalKeepsInv(g: Group, op: GroupOp)
    requires Inv(g) && (op.Approve? || op.RejectMember?) && Refusal(g, op).None?
    ensures Inv(Apply(g, op))
  {
    var h := Apply(g, op);
    if op.Approve? {
      ActiveGains(g, h, op.target);
    } else {
      ActiveSame(g, h);
    }
  }

  lemma SetAdminKeepsInv(g: Group, t: UserId, isAdmin: bool)
    requires Inv(g) && IsActiveMember(g, t) && t != g.ownerId
    ensures Inv(AfterSetAdmin(g, t, isAdmin))
  {
    ActiveSame(g, AfterSetAdmin(g, t, isAdmin));
    UniqueContains(g.admins + [t]);
    WithoutContains(g.admins, t);
  }

  // ---------- Runs ----------

  /** The two calls that can harm a group: handing it to oneself, and an automatic transfer to an unfit first record. */
  predicate Careful(g: Group, op: GroupOp) {
    match op
    case Leave(r, newOwner, auto, _) =>
      r == g.ownerId && r in g.members ==>
        (newOwner.Some? && newOwner.value != r) ||
        (newOwner.None? &&
         (auto ==> FirstRecord(g.members) != r && g.members[FirstRecord(g.members)].status == Active))
    case TransferOwner(r, t) => r != t
    case _ => true
  }

  lemma StepKeepsInv(g: Group, op: GroupOp)
    requires Inv(g) && Careful(g, op)
    ensures Inv(Apply(g, op))
  {
    if Refusal(g, op).None? {
      match op
      case Add(_, _, _) => AddKeepsInv(g, op);
      case JoinByInvite(_, _) => JoinKeepsInv(g, op);
      case Leave(_, _, _, _) => LeaveKeepsInvIffSuccessorFits(g, op);
      case TransferOwner(_, _) => TransferKeepsInvIffToAnother(g, op);
      case Remove(_, t, block, now) => RemoveKeepsInv(g, t, block, now);
      case Block(_, t, now) => BlockKeepsInv(g, t, now);
      case Unblock(_, _) =>
      case Approve(_, _) => ApprovalKeepsInv(g, op);
      case RejectMember(_, _) => ApprovalKeepsInv(g, op);
      case SetAdmin(_, t, isAdmin) => SetAdminKeepsInv(g, t, isAdmin);
      case ChangeSettings(_) =>
    }
  }

  /** The exact form: what has to be so of a step that is not refused. */
  predicate Harmless(g: Group, op: GroupOp) {
    Refusal(g, op).Some? || Careful(g, op)
  }

  /** Being careful is what fits a successor who leaves or transfers. */
  lemma CarefulMeansFit(g: Group, op: GroupOp)
    requires Inv(g) && Refusal(g, op).None?
    ensures op.Leave? ==> (Careful(g, op) <==> FitSuccessor(g, op))
    ensures op.TransferOwner? ==> (Careful(g, op) <==> op.target != op.requester)
    ensures !op.Leave? && !op.TransferOwner? ==> Careful(g, op)
  {}

  /** A step keeps the invariant exactly when it is refused or careful. */
  lemma StepKeepsInvIff(g: Group, op: GroupOp)
    requires Inv(g)
    ensures Inv(Apply(g, op)) <==> Harmless(g, op)
  {
    if Careful(g, op) {
      StepKeepsInv(g, op);
    } else if Refusal(g, op).None? {
      CarefulMeansFit(g, op);
      if op.Leave? { LeaveKeepsInvIffSuccessorFits(g, op); } else { TransferKeepsInvIffToAnother(g, op); }
    }
  }

  /**
   * Up to any point of a run the member count, the single owner and the admin list have been right if and only if
   * every call until then was refused or careful.
   */
  lemma {:induction false} ReachableGroupsKeepInvIff(groups: seq<Group>, ops: seq<GroupOp>, creator: UserId, ids: seq<UserId>, n: nat)
    requires IsRun(groups, ops, creator, ids) && n <= |ops|
    ensures (forall i :: 0 <= i <= n ==> Inv(groups[i])) <==> (forall k :: 0 <= k < n ==> Harmless(groups[k], ops[k]))
  {
    hide Inv, Harmless, Apply;
    if n == 0 {
      NewGroupInv(creator, ids);
    } else {
      ReachableGroupsKeepInvIff(groups, ops, creator, ids, n - 1);
      assert groups[n] == Apply(groups[n - 1], ops[n - 1]);
      if Inv(groups[n - 1]) { StepKeepsInvIff(groups[n - 1], ops[n - 1]); }
    }
  }

  /** The member count, the single owner and the admin list are right after every run of careful calls. */
  lemma {:induction false} ReachableGroupsKeepInv(groups: seq<Group>, ops: seq<GroupOp>, creator: UserId, ids: seq<UserId>, i: nat)
    requires IsRun(groups, ops, creator, ids) && i < |groups|
    requires forall k :: 0 <= k < |ops| ==> Careful(groups[k], ops[k])
    ensures Inv(groups[i])
  {
    if i == 0 {
      NewGroupInv(creator, ids);
    } else {
      ReachableGroupsKeepInv(groups, ops, creator, ids, i - 1);
      StepKeepsInv(groups[i - 1], ops[i - 1]);
    }
  }

  /** The guards against a negative or missing count never act. */
  lemma CountNeverClamped(g: Group, op: GroupOp)
    requires Inv(g) && Refusal(g, op).None?
    requires op.Leave? || op.Remove? || (op.Block? && IsActiveMember(g, op.target))
    ensures Apply(g, op).membersCount == g.membersCount - 1 && g.membersCount >= 1
    ensures !op.Leave? ==> g.membersCount >= 2
  {
    var gone := if op.Leave? then op.requester else op.target;
    var h := Apply(g, op);
    assert gone in ActiveMembers(g) && g.ownerId in ActiveMembers(g);
    assert ActiveMembers(g) >= {gone, g.ownerId};
    assert |{gone, g.ownerId}| <= |ActiveMembers(g)| by { SubsetSize({gone, g.ownerId}, ActiveMembers(g)); }
  }

  // ---------- Access ----------

  /** A user under a group block becomes active only by approval of an older request. */
  lemma BlockedUsersEnterOnlyByApproval(g: Group, op: GroupOp, u: UserId)
    requires u in g.blocked && !IsActiveMember(g, u) && IsActiveMember(Apply(g, op), u)
    ensures op.Approve? && op.target == u && g.members[u].status == Pending
  {
  }

  /** Adding members never takes a group past fifty. */
  lemma AddRespectsLimit(g: Group, op: GroupOp)
    requires Inv(g) && op.Add? && Refusal(g, op).None?
    ensures |ActiveMembers(Apply(g, op))| <= MAX_MEMBERS
  {
    AddKeepsInv(g, op);
  }

  /** Leaving and coming back by an open invite restores the head count, with the ordinary role. */
  lemma LeaveThenRejoin(g: Group, u: UserId, now: Time)
    requires Inv(g) && IsActiveMember(g, u) && u != g.ownerId && u !in g.blocked
    requires g.settings.allowMemberInvite && !g.settings.requireApproval
    ensures var back := Apply(Apply(g, Leave(u, None, false, now)), JoinByInvite(true, u));
      back.members == g.members[u := Member(Regular, Active, None)] &&
      back.membersCount == g.membersCount && back.ownerId == g.ownerId && back.admins == Without(g.admins, u)
  {
    LeaveCount(g, Leave(u, None, false, now));
    ActiveLoses(g, Apply(g, Leave(u, None, false, now)), u);
  }

  // ---------- What goes wrong otherwise ----------

  /** An owner whose own record comes first leaves with automatic transfer: the group is left with an owner who is gone. */
  lemma AutomaticTransferToTheLeaver(now: Time)
    ensures var g := NewGroup(1, [2, 3]);
      var h := Apply(g, Leave(1, None, true, now));
      Inv(g) && h != g && h.ownerId == 1 && !IsActiveMember(h, 1)
  {
    var g := NewGroup(1, [2, 3]);
    assert [2, 3][0] == 2 && [2, 3][1] == 3;
    assert Unique([3]) == [3];
    assert Unique([2, 3]) == [2, 3];
    NewGroupInv(1, [2, 3]);
    assert g.members.Keys == {1, 2, 3};
    assert FirstRecord(g.members) == 1;
  }
}
