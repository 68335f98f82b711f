/**
 * Who may do what in a group, and what it does to whom: the rights of each handler, the records and lists it leaves,
 * and the ways in and out, all read off the stored member records.
 */
module GroupAccess {
  import opened Wrappers
  import opened Sequences
  import opened GroupModel
  import opened GroupInvariants

  // ---------- Standing ----------

  predicate In(g: Group, u: UserId) {
    u in g.members && g.members[u].leftAt == None && g.members[u].status == Active
  }

  predicate Heads(g: Group, u: UserId) {
    In(g, u) && (u == g.ownerId || g.members[u].role == Owner)
  }

  /** An active member who is the owner or an admin. */
  predicate Runs(g: Group, u: UserId) {
    Heads(g, u) || (In(g, u) && g.members[u].role == Admin)
  }

  predicate Waits(g: Group, u: UserId) {
    u in g.members && g.members[u].status == Pending
  }

  /** The users are registered and enabled, and neither side blocks the other. */
  predicate Welcome(d: Directory, host: UserId, u: UserId) {
    u in d.users && u in d.enabled && (u == host || ((host, u) !in d.blocks && (u, host) !in d.blocks))
  }

  predicate Addable(g: Group, u: UserId) {
    u !in g.blocked && (u in g.members ==> g.members[u].leftAt.Some?)
  }

  /** `n` is whom a leaving owner hands the group: an active member he names, or else the first record, if it has not left. */
  predicate Succeeds(g: Group, op: GroupOp, n: UserId)
    requires op.Leave?
  {
    match op.newOwner
    case Some(named) => n == named && In(g, n)
    case None => op.autoTransfer && n in g.members && g.members[n].leftAt == None && forall v :: v in g.members ==> n <= v
  }

  // ---------- Who may do what ----------

  /** What has to be so of the group, and of what is asked, for the handler to act. */
  ghost predicate Allows(g: Group, op: GroupOp) {
    match op
    case Add(r, ids, d) =>
      In(g, r) && g.settings.allowMemberInvite && (g.settings.onlyAdminsAdd ==> Runs(g, r)) &&
      1 <= |ids| <= 49 && g.membersCount + |ids| <= 50 && NoDuplicates(ids) && r !in ids &&
      forall u :: u in ids ==> Welcome(d, r, u) && Addable(g, u)
    case JoinByInvite(usable, r) => usable && g.settings.allowMemberInvite && r !in g.blocked
    case Leave(r, _, _, _) => In(g, r) && (r == g.ownerId ==> exists n :: n in g.members && Succeeds(g, op, n))
    case TransferOwner(r, t) => Heads(g, r) && In(g, t)
    case Remove(r, t, _, _) => In(g, r) && (Runs(g, r) || r == t) && In(g, t) && t != g.ownerId
    case Block(r, t, _) => Runs(g, r) && t !in g.blocked && t != g.ownerId
    case Unblock(r, t) => Runs(g, r) && t in g.blocked
    case Approve(r, t) => Runs(g, r) && Waits(g, t)
    case RejectMember(r, t) => Runs(g, r) && Waits(g, t)
    case SetAdmin(r, t, _) => Heads(g, r) && In(g, t) && t != g.ownerId
    case ChangeSettings(_) => true
  }

  lemma {:induction false} DirectoryAllows(d: Directory, r: UserId, ids: seq<UserId>)
    ensures DirectoryRefusal(d, r, ids).None? <==> forall u :: u in ids ==> Welcome(d, r, u)
  {
    if ids != [] {
      DirectoryAllows(d, r, ids[1..]);
      assert forall u :: u in ids <==> u == ids[0] || u in ids[1..] by { assert ids == [ids[0]] + ids[1..]; }
      assert DirectoryRefusal(d, r, ids).None? <==> Welcome(d, r, ids[0]) && DirectoryRefusal(d, r, ids[1..]).None?;
    }
  }

  lemma AddAllowed(g: Group, op: GroupOp)
    requires op.Add?
    ensures Refusal(g, op).None? <==> Allows(g, op)
  {
    hide DirectoryRefusal, Unique, Welcome;
    DirectoryAllows(op.directory, op.requester, op.memberIds);
    UniqueLength(op.memberIds);
  }

  lemma UniqueLength(ids: seq<UserId>)
    ensures |Unique(ids)| == |ids| <==> NoDuplicates(ids)
  {
    hide Unique;
    UniqueContains(ids);
    LengthVersusSize(ids);
    LengthVersusSize(Unique(ids));
    assert Elements(Unique(ids)) == Elements(ids);
  }

  lemma LeaveAllowed(g: Group, op: GroupOp)
    requires Inv(g) && op.Leave?
    ensures Refusal(g, op).None? <==> Allows(g, op)
    ensures forall n: UserId :: Refusal(g, op).None? && op.requester == g.ownerId && Succeeds(g, op, n) ==> Successor(g, op) == Success(n)
  {
    hide FirstRecord;
  }

  /** A handler acts exactly when it is allowed, and otherwise leaves the group as it was. */
  lemma ActsIffAllowed(g: Group, op: GroupOp)
    requires Inv(g)
    ensures Refusal(g, op).None? <==> Allows(g, op)
    ensures !Allows(g, op) ==> Apply(g, op) == g
  {
    hide Unique, DirectoryRefusal, FirstRecord, NoDuplicates, Welcome, CountExact, AdminsSound;
    if op.Add? { AddAllowed(g, op); } else if op.Leave? { LeaveAllowed(g, op); }
  }

  // ---------- What a handler does to the records ----------

  /** The record that a user has after a handler that acts, if he has one. */
  ghost predicate RecordAfter(g: Group, op: GroupOp, u: UserId, after: Option<Member>) {
    var before := if u in g.members then Some(g.members[u]) else None;
    match op
    case Add(r, ids, _) =>
      after == if u in ids then Some(Member(Regular, if g.settings.requireApproval && !Runs(g, r) then Pending else Active, None)) else before
    case JoinByInvite(_, r) =>
      after ==
        if u != r || In(g, r) then before
        else if g.settings.requireApproval then Some(Member(if before.Some? then before.value.role else Regular, Pending, None))
        else Some(Member(Regular, Active, None))
    case Leave(r, _, _, now) =>
      if u == r then
        before.Some? &&
        after == Some(before.value.(leftAt := Some(now), role := if r == g.ownerId then Admin else before.value.role))
      else if r == g.ownerId && Succeeds(g, op, u) then before.Some? && after == Some(before.value.(role := Owner))
      else after == before
    case TransferOwner(r, t) =>
      if u == t then before.Some? && after == Some(before.value.(role := Owner))
      else if u == r then before.Some? && after == Some(before.value.(role := Admin))
      else after == before
    case Remove(_, t, _, now) =>
      if u == t then before.Some? && after == Some(before.value.(leftAt := Some(now))) else after == before
    case Block(_, t, now) =>
      if u == t && In(g, t) then after == Some(g.members[t].(leftAt := Some(now))) else after == before
    case Unblock(_, _) => after == before
    case Approve(_, t) => if u == t then before.Some? && after == Some(before.value.(status := Active)) else after == before
    case RejectMember(_, t) => if u == t then before.Some? && after == Some(before.value.(status := Rejected)) else after == before
    case SetAdmin(_, t, isAdmin) =>
      if u == t then before.Some? && after == Some(before.value.(role := if isAdmin then Admin else Regular)) else after == before
    case ChangeSettings(_) => after == before
  }

  function RecordOf(g: Group, u: UserId): Option<Member> {
    if u in g.members then Some(g.members[u]) else None
  }

  /** Each handler leaves every record so. */
  lemma RecordsComeOut(g: Group, op: GroupOp, u: UserId)
    requires Inv(g) && Allows(g, op)
    ensures RecordAfter(g, op, u, RecordOf(Apply(g, op), u))
  {
    hide Unique, Without, NoDuplicates, FirstRecord, DirectoryRefusal, AddListRefusal, Welcome, CountExact, AdminsSound;
    ActsIffAllowed(g, op);
    if op.Leave? { LeaveAllowed(g, op); }
  }

  /** Who is the owner afterwards, who is listed as an admin, who is under a group block, and what the settings are. */
  lemma ListsComeOut(g: Group, op: GroupOp, u: UserId)
    requires Inv(g) && Allows(g, op)
    ensures var h := Apply(g, op);
      (op.TransferOwner? ==> h.ownerId == op.target) &&
      (op.Leave? && op.requester == g.ownerId ==> Succeeds(g, op, h.ownerId)) &&
      (!op.TransferOwner? && !(op.Leave? && op.requester == g.ownerId) ==> h.ownerId == g.ownerId)
    ensures var h := Apply(g, op);
      u in h.admins <==>
        match op {
          case Leave(r, _, _, _) => u in g.admins && u != r && !(r == g.ownerId && u == h.ownerId)
          case TransferOwner(r, t) => u == r || (u in g.admins && u != t)
          case Remove(_, t, _, _) => u in g.admins && u != t
          case Block(_, t, _) => u in g.admins && u != t
          case SetAdmin(_, t, isAdmin) => if u == t then isAdmin else u in g.admins
          case _ => u in g.admins
        }
    ensures u in Apply(g, op).blocked <==>
      if (op.Block? || (op.Remove? && op.block)) && op.target == u then true
      else if op.Unblock? && op.target == u then false
      else u in g.blocked
    ensures Apply(g, op).settings == if op.ChangeSettings? then op.settings else g.settings
  {
    hide NoDuplicates, FirstRecord, DirectoryRefusal, AddListRefusal, Welcome, CountExact, Unique, Without;
    ActsIffAllowed(g, op);
    if op.Leave? {
      LeaveAllowed(g, op);
      WithoutContains(g.admins, op.requester);
      if op.requester == g.ownerId { WithoutContains(Without(g.admins, op.requester), Apply(g, op).ownerId); }
    } else if op.TransferOwner? {
      WithoutContains(g.admins, op.target);
      UniqueContains(Without(g.admins, op.target) + [op.requester]);
    } else if op.Remove? || op.Block? || op.SetAdmin? {
      WithoutContains(g.admins, op.target);
      if op.SetAdmin? { UniqueContains(g.admins + [op.target]); }
    }
  }

  // ---------- Ways in and out ----------

  /** An active member stops being one exactly by leaving, or by being removed or blocked by whoever has the right to. */
  lemma GoesOutIff(g: Group, op: GroupOp, u: UserId)
    requires Inv(g) && In(g, u)
    ensures !In(Apply(g, op), u) <==>
      (op.Leave? && op.requester == u && Allows(g, op)) ||
      (op.Remove? && op.target == u && u != g.ownerId && In(g, op.requester) && (Runs(g, op.requester) || op.requester == u)) ||
      (op.Block? && op.target == u && u != g.ownerId && u !in g.blocked && Runs(g, op.requester))
  {
    hide Inv, Apply, Succeeds, RecordAfter;
    ActsIffAllowed(g, op);
    if Allows(g, op) {
      RecordsComeOut(g, op, u);
      RecordShows(g, op, u);
    }
  }

  lemma RecordShows(g: Group, op: GroupOp, u: UserId)
    requires RecordAfter(g, op, u, RecordOf(Apply(g, op), u)) && In(g, u) && Allows(g, op)
    requires op.Add? ==> u !in op.memberIds
    ensures !In(Apply(g, op), u) <==>
      ((op.Leave? && op.requester == u) || (op.Remove? && op.target == u) || (op.Block? && op.target == u))
  {
    hide Apply;
  }

  /** And somebody who is none becomes one exactly by being added, joining or being approved, without a further approval to wait for. */
  lemma ComesInIff(g: Group, op: GroupOp, u: UserId)
    requires Inv(g) && !In(g, u)
    ensures In(Apply(g, op), u) <==>
      Allows(g, op) &&
      ((op.Add? && u in op.memberIds && (!g.settings.requireApproval || Runs(g, op.requester))) ||
       (op.JoinByInvite? && op.requester == u && !g.settings.requireApproval) ||
       (op.Approve? && op.target == u))
  {
    hide Apply, CountExact, AdminsSound, OneOwner, Welcome;
    ActsIffAllowed(g, op);
    if Allows(g, op) { RecordsComeOut(g, op, u); }
  }

  /** Only an owner or admin turns a pending record active or rejected. */
  lemma PendingIsAnsweredIff(g: Group, op: GroupOp, u: UserId)
    requires Inv(g) && Waits(g, u)
    ensures var h := Apply(g, op);
      u in h.members &&
      (op.Approve? && op.target == u && Runs(g, op.requester) <==> op.Approve? && h.members[u].status == Active) &&
      (op.RejectMember? && op.target == u && Runs(g, op.requester) <==> h.members[u].status == Rejected) &&
      (h.members[u].status == Active ==>
        op.Approve? || (op.JoinByInvite? && op.requester == u && !g.settings.requireApproval && u !in g.blocked))
  {
    hide Apply, CountExact, AdminsSound, OneOwner, Welcome;
    ActsIffAllowed(g, op);
    if Allows(g, op) { RecordsComeOut(g, op, u); }
  }

  predicate IsAdmin(g: Group, u: UserId) {
    u in g.members && g.members[u].role == Admin
  }

  /** Only the owner makes admins, by appointing them or by handing over the group and keeping the role. */
  lemma BecomesAdminOnlyByTheOwner(g: Group, op: GroupOp, u: UserId)
    requires Inv(g) && !IsAdmin(g, u) && IsAdmin(Apply(g, op), u)
    ensures (op.SetAdmin? && op.target == u && op.isAdmin && Heads(g, op.requester)) ||
            ((op.TransferOwner? || op.Leave?) && op.requester == u && u == g.ownerId)
  {
    hide Apply, CountExact, AdminsSound, Welcome;
    ActsIffAllowed(g, op);
    if Allows(g, op) { RecordsComeOut(g, op, u); }
  }

  /** An admin loses the role to the owner, by becoming the owner, or by coming back as an ordinary member. */
  lemma StopsBeingAdminIff(g: Group, op: GroupOp, u: UserId)
    requires Inv(g) && IsAdmin(g, u)
    ensures !IsAdmin(Apply(g, op), u) <==>
      Allows(g, op) &&
      ((op.SetAdmin? && op.target == u && !op.isAdmin) || (op.TransferOwner? && op.target == u) ||
       (op.Leave? && op.requester == g.ownerId && Succeeds(g, op, u)) || (op.Add? && u in op.memberIds) ||
       (op.JoinByInvite? && op.requester == u && !In(g, u) && !g.settings.requireApproval))
  {
    hide Apply, CountExact, AdminsSound, Welcome;
    ActsIffAllowed(g, op);
    if Allows(g, op) { RecordsComeOut(g, op, u); }
  }

  /** A group block is set and lifted only by an owner or admin, except that a member who leaves by removing himself may ask for one. */
  lemma BlocksChangeIff(g: Group, op: GroupOp, u: UserId)
    requires Inv(g)
    ensures u !in g.blocked && u in Apply(g, op).blocked <==>
      u !in g.blocked && u != g.ownerId &&
      ((op.Block? && op.target == u && Runs(g, op.requester)) ||
       (op.Remove? && op.target == u && op.block && In(g, u) && In(g, op.requester) && (Runs(g, op.requester) || op.requester == u)))
    ensures u in g.blocked && u !in Apply(g, op).blocked <==>
      u in g.blocked && op.Unblock? && op.target == u && Runs(g, op.requester)
  {
    hide Apply, CountExact, AdminsSound, Welcome, OneOwner, OnlyActiveLeave;
    ActsIffAllowed(g, op);
    if Allows(g, op) { ListsComeOut(g, op, u); }
  }

  /** The group changes hands only from its owner, to whom he names or who comes first. */
  lemma ChangesHandsIff(g: Group, op: GroupOp)
    requires Inv(g) && Apply(g, op).ownerId != g.ownerId
    ensures op.requester == g.ownerId && In(g, g.ownerId)
    ensures (op.TransferOwner? && op.target == Apply(g, op).ownerId && In(g, op.target)) ||
            (op.Leave? && Succeeds(g, op, Apply(g, op).ownerId))
  {
    hide Apply, CountExact, AdminsSound, Welcome, OnlyActiveLeave;
    ActsIffAllowed(g, op);
    if Allows(g, op) { ListsComeOut(g, op, g.ownerId); }
  }

  // ---------- Creating a group ----------

  lemma {:induction false} AccountsAllow(d: Directory, ids: seq<UserId>)
    ensures AccountRefusal(d, ids).None? <==> forall u :: u in ids ==> u in d.users && u in d.enabled
  {
    if ids != [] {
      AccountsAllow(d, ids[1..]);
      assert forall u :: u in ids <==> u == ids[0] || u in ids[1..] by { assert ids == [ids[0]] + ids[1..]; }
    }
  }

  /** A group can be created for 2 to 49 distinct others, all registered, enabled and unblocked, the creator too. */
  lemma MayCreateIff(creator: UserId, ids: seq<UserId>, d: Directory)
    ensures CreateRefusal(creator, ids, d).None? <==>
      2 <= |ids| <= 49 && NoDuplicates(ids) && creator !in ids && creator in d.users && creator in d.enabled &&
      forall u :: u in ids ==> Welcome(d, creator, u)
    ensures CreatableWith(creator, ids) <==> 2 <= |ids| <= 49 && NoDuplicates(ids) && creator !in ids
  {
    hide Unique, AccountRefusal;
    UniqueLength(ids);
    AccountsAllow(d, [creator] + ids);
    assert forall u :: u in [creator] + ids <==> u == creator || u in ids;
  }

  /** Its creator owns it, everybody else is an ordinary member, and anyone may invite without approval. */
  lemma NewGroupMeans(creator: UserId, ids: seq<UserId>, u: UserId)
    requires creator !in ids
    ensures var g := NewGroup(creator, ids);
      g.ownerId == creator && g.admins == [] && g.blocked == {} && g.membersCount == |ids| + 1 &&
      g.settings.allowMemberInvite && !g.settings.requireApproval && !g.settings.onlyAdminsAdd &&
      RecordOf(g, u) ==
        if u == creator then Some(Member(Owner, Active, None)) else if u in ids then Some(Member(Regular, Active, None)) else None
  {}

  // ---------- Errors ----------

  /** An error is true of the group or of what was asked. */
  lemma ErrorsAreTrue(g: Group, op: GroupOp)
    requires Inv(g) && Refusal(g, op).Some?
    ensures var e := Refusal(g, op).value;
      match e {
        case NotMember => !op.ChangeSettings? && !In(g, op.requester)
        case Forbidden => !op.ChangeSettings? && !Heads(g, op.requester) && (op.TransferOwner? || op.SetAdmin? || !Runs(g, op.requester))
        case InvitesDisabled => !g.settings.allowMemberInvite
        case TooFewMembers => op.Add? && op.memberIds == []
        case TooManyMembers => op.Add? && (|op.memberIds| > 49 || g.membersCount + |op.memberIds| > 50)
        case DuplicateMember => op.Add? && !NoDuplicates(op.memberIds)
        case SelfListed => op.Add? && op.requester in op.memberIds
        case UserMissing => op.Add? && exists u :: u in op.memberIds && u !in op.directory.users
        case UserDisabled => op.Add? && exists u :: u in op.memberIds && u !in op.directory.enabled
        case UsersBlocked => op.Add? && exists u :: u in op.memberIds && Blocking(op.directory, op.requester, u)
        case GroupBlocked => if op.Add? then exists u :: u in op.memberIds && u in g.blocked else op.JoinByInvite? && op.requester in g.blocked
        case AlreadyMember => op.Add? && op.requester !in op.memberIds && exists u :: u in op.memberIds && u in g.members && g.members[u].leftAt == None
        case InvalidNewOwner => op.Leave? && op.newOwner.Some? && !In(g, op.newOwner.value)
        case NoActiveAdmin => op.Leave? && op.newOwner.None? && op.autoTransfer
        case NewOwnerRequired => op.Leave? && op.newOwner.None? && !op.autoTransfer
        case BadInviteLink => op.JoinByInvite? && !op.linkUsable
        case TargetMissing => (Aims(op) && op.target !in g.members) || (op.Remove? && !In(g, op.target))
        case TargetLeft => Aims(op) && op.target in g.members && !In(g, op.target)
        case TargetIsOwner => Aims(op) && op.target == g.ownerId
        case AlreadyActive => Aims(op) && op.target in g.members && g.members[op.target].status == Active
        case AlreadyRejected => Aims(op) && op.target in g.members && g.members[op.target].status == Rejected
        case AlreadyBlocked => op.Block? && op.target in g.blocked
        case NotBlocked => op.Unblock? && op.target !in g.blocked
      }
  {
    hide Unique, FirstRecord, CountExact, AdminsSound;
    if op.Add? {
      UniqueLength(op.memberIds);
      if DirectoryRefusal(op.directory, op.requester, op.memberIds).Some? {
        DirectoryErrorsAreTrue(op.directory, op.requester, op.memberIds);
      }
    }
  }

  predicate Blocking(d: Directory, u: UserId, v: UserId) {
    (u, v) in d.blocks || (v, u) in d.blocks
  }

  predicate Aims(op: GroupOp) {
    op.TransferOwner? || op.Remove? || op.Block? || op.Unblock? || op.Approve? || op.RejectMember? || op.SetAdmin?
  }

  lemma {:induction false} DirectoryErrorsAreTrue(d: Directory, r: UserId, ids: seq<UserId>)
    requires DirectoryRefusal(d, r, ids).Some?
    ensures match DirectoryRefusal(d, r, ids).value {
        case UserMissing => exists u :: u in ids && u !in d.users
        case UserDisabled => exists u :: u in ids && u !in d.enabled
        case UsersBlocked => exists u :: u in ids && Blocking(d, r, u)
        case _ => false
      }
  {
    assert ids[0] in ids;
    if DirectoryRefusal(d, r, ids) == DirectoryRefusal(d, r, ids[1..]) { DirectoryErrorsAreTrue(d, r, ids[1..]); }
  }
}
