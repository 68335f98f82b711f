/** Group membership: the conversation record and its member records, and the handlers that edit them. */
module GroupModel {
  import opened Wrappers
  import opened Sequences

  /** Users are v7 UUIDs, whose text order is the order of the numbers they spell. */
  type UserId = nat
  type Time = int

  const MAX_MEMBERS := 50

  datatype Role = Owner | Admin | Regular
  datatype Status = Active | Pending | Rejected

  /** A stored `leftAt` of null reads back as absent. */
  datatype Member = Member(role: Role, status: Status, leftAt: Option<Time>)

  datatype Settings = Settings(allowMemberInvite: bool, requireApproval: bool, onlyAdminsAdd: bool)

  const DEFAULT_SETTINGS := Settings(true, false, false)

  datatype Group = Group(
    members: map<UserId, Member>,
    ownerId: UserId,
    admins: seq<UserId>,
    membersCount: int,
    blocked: set<UserId>,
    settings: Settings
  )

  /** What the handlers look up outside the group: registered users, the enabled ones, and who blocks whom. */
  datatype Directory = Directory(users: set<UserId>, enabled: set<UserId>, blocks: set<(UserId, UserId)>)

  datatype GroupError =
    | NotMember | Forbidden | InvitesDisabled | TooFewMembers | TooManyMembers | DuplicateMember | SelfListed
    | UserMissing | UserDisabled | UsersBlocked | GroupBlocked | AlreadyMember | InvalidNewOwner | NoActiveAdmin
    | NewOwnerRequired | TargetMissing | TargetLeft | TargetIsOwner | AlreadyActive | AlreadyRejected
    | AlreadyBlocked | NotBlocked | BadInviteLink

  datatype GroupOp =
    | Add(requester: UserId, memberIds: seq<UserId>, directory: Directory)
    | JoinByInvite(linkUsable: bool, requester: UserId)
    | Leave(requester: UserId, newOwner: Option<UserId>, autoTransfer: bool, now: Time)
    | TransferOwner(requester: UserId, target: UserId)
    | Remove(requester: UserId, target: UserId, block: bool, now: Time)
    | Block(requester: UserId, target: UserId, now: Time)
    | Unblock(requester: UserId, target: UserId)
    | Approve(requester: UserId, target: UserId)
    | RejectMember(requester: UserId, target: UserId)
    | SetAdmin(requester: UserId, target: UserId, isAdmin: bool)
    | ChangeSettings(settings: Settings)

  // ---------- Permissions ----------

  predicate IsActive(m: Member) {
    m.leftAt.None? && m.status == Active
  }

  predicate IsActiveMember(g: Group, u: UserId) {
    u in g.members && IsActive(g.members[u])
  }

  predicate IsOwnerMember(g: Group, u: UserId)
    requires u in g.members
  {
    g.members[u].role == Owner || u == g.ownerId
  }

  predicate IsManager(g: Group, u: UserId)
    requires u in g.members
  {
    IsOwnerMember(g, u) || g.members[u].role == Admin
  }

  function ActiveMembers(g: Group): set<UserId> {
    set u | u in g.members && IsActive(g.members[u])
  }

  // ---------- Validation of member lists ----------

  predicate BlockedBetween(d: Directory, a: UserId, b: UserId) {
    a != b && ((a, b) in d.blocks || (b, a) in d.blocks)
  }

  /** What the access policy objects to first, going through the list in order. */
  function DirectoryRefusal(d: Directory, requester: UserId, ids: seq<UserId>): Option<GroupError> {
    if ids == [] then None
    else if ids[0] !in d.users then Some(UserMissing)
    else if ids[0] !in d.enabled then Some(UserDisabled)
    else if BlockedBetween(d, requester, ids[0]) then Some(UsersBlocked)
    else DirectoryRefusal(d, requester, ids[1..])
  }

  function AddListRefusal(requester: UserId, ids: seq<UserId>, currentCount: int, d: Directory): Option<GroupError> {
    if |ids| < 1 then Some(TooFewMembers)
    else if |ids| > MAX_MEMBERS - 1 || currentCount + |ids| > MAX_MEMBERS then Some(TooManyMembers)
    else if |Unique(ids)| != |ids| then Some(DuplicateMember)
    else if requester in ids then Some(SelfListed)
    else DirectoryRefusal(d, requester, ids)
  }

  /** A group is created for at least two and at most 49 distinct other members. */
  predicate CreatableWith(creator: UserId, ids: seq<UserId>) {
    2 <= |ids| <= MAX_MEMBERS - 1 && |Unique(ids)| == |ids| && creator !in ids
  }

  function AccountRefusal(d: Directory, ids: seq<UserId>): Option<GroupError> {
    if ids == [] then None
    else if ids[0] !in d.users then Some(UserMissing)
    else if ids[0] !in d.enabled then Some(UserDisabled)
    else AccountRefusal(d, ids[1..])
  }

  function CreateRefusal(creator: UserId, ids: seq<UserId>, d: Directory): (r: Option<GroupError>)
    ensures r.None? ==> CreatableWith(creator, ids) && forall u :: u in ids ==> !BlockedBetween(d, creator, u)
  {
    if |ids| < 2 then Some(TooFewMembers)
    else if |ids| > MAX_MEMBERS - 1 then Some(TooManyMembers)
    else if |Unique(ids)| != |ids| then Some(DuplicateMember)
    else if creator in ids then Some(SelfListed)
    else if AccountRefusal(d, [creator] + ids).Some? then AccountRefusal(d, [creator] + ids)
    else if exists u :: u in ids && BlockedBetween(d, creator, u) then Some(UsersBlocked)
    else None
  }

  function NewGroup(creator: UserId, ids: seq<UserId>): Group {
    Group(map u | u in Elements(ids) + {creator} ::
            if u == creator then Member(Owner, Active, None) else Member(Regular, Active, None),
          creator, [], |ids| + 1, {}, DEFAULT_SETTINGS)
  }

  // ---------- Refusals ----------

  /** What the member lookup by role finds: the member repository looks at the conversation only, so it
      returns the conversation's first record by key whatever its role and status. */
  function FirstRecord(members: map<UserId, Member>): (u: UserId)
    requires members != map[]
    ensures u in members && forall v :: v in members ==> u <= v
  {
    assert exists u :: u in members && forall v :: v in members ==> u <= v by {
      var least := Least(members.Keys);
      assert least in members;
    }
    var u :| u in members && forall v :: v in members ==> u <= v;
    u
  }

  /** The member to whom a leaving owner hands the group. */
  function Successor(g: Group, op: GroupOp): Result<UserId, GroupError>
    requires op.Leave? && op.requester in g.members
  {
    if op.newOwner.Some? then
      if IsActiveMember(g, op.newOwner.value) then Success(op.newOwner.value) else Failure(InvalidNewOwner)
    else if op.autoTransfer then
      var first := FirstRecord(g.members);
      if g.members[first].leftAt.None? then Success(first) else Failure(NoActiveAdmin)
    else Failure(NewOwnerRequired)
  }

  function ManagerRefusal(g: Group, requester: UserId): Option<GroupError> {
    if IsActiveMember(g, requester) && IsManager(g, requester) then None else Some(Forbidden)
  }

  function Refusal(g: Group, op: GroupOp): Option<GroupError> {
    match op
    case Add(r, ids, d) =>
      if !IsActiveMember(g, r) then Some(NotMember)
      else if !g.settings.allowMemberInvite then Some(InvitesDisabled)
      else if g.settings.onlyAdminsAdd && !IsManager(g, r) then Some(Forbidden)
      else
        var listRefusal := AddListRefusal(r, ids, g.membersCount, d);
        if listRefusal.Some? then listRefusal
        else if exists u :: u in ids && u in g.blocked then Some(GroupBlocked)
        else if exists u :: u in ids && u in g.members && g.members[u].leftAt.None? then Some(AlreadyMember)
        else None
    case JoinByInvite(usable, r) =>
      if !usable then Some(BadInviteLink)
      else if !g.settings.allowMemberInvite then Some(InvitesDisabled)
      else if r in g.blocked then Some(GroupBlocked)
      else None
    case Leave(r, _, _, _) =>
      if !IsActiveMember(g, r) then Some(NotMember)
      else if !IsOwnerMember(g, r) then None
      else match Successor(g, op) { case Success(_) => None case Failure(e) => Some(e) }
    case TransferOwner(r, t) =>
      if !IsActiveMember(g, r) || !IsOwnerMember(g, r) then Some(Forbidden)
      else if t !in g.members then Some(TargetMissing)
      else if !IsActiveMember(g, t) then Some(TargetLeft)
      else None
    case Remove(r, t, _, _) =>
      if !IsActiveMember(g, r) then Some(NotMember)
      else if !IsManager(g, r) && r != t then Some(Forbidden)
      else if !IsActiveMember(g, t) then Some(TargetMissing)
      else if IsOwnerMember(g, t) then Some(TargetIsOwner)
      else None
    case Block(r, t, _) =>
      if !IsActiveMember(g, r) then Some(NotMember)
      else if g.members[r].role == Regular then Some(Forbidden)
      else if t in g.blocked then Some(AlreadyBlocked)
      else if IsActiveMember(g, t) && g.members[t].role == Owner then Some(TargetIsOwner)
      else None
    case Unblock(r, t) =>
      if !IsActiveMember(g, r) then Some(NotMember)
      else if g.members[r].role == Regular then Some(Forbidden)
      else if t !in g.blocked then Some(NotBlocked)
      else None
    case Approve(r, t) =>
      if ManagerRefusal(g, r).Some? then ManagerRefusal(g, r)
      else if t !in g.members then Some(TargetMissing)
      else if g.members[t].status == Active then Some(AlreadyActive)
      else if g.members[t].status == Rejected then Some(AlreadyRejected)
      else None
    case RejectMember(r, t) =>
      if ManagerRefusal(g, r).Some? then ManagerRefusal(g, r)
      else if t !in g.members then Some(TargetMissing)
      else if g.members[t].status == Rejected then Some(AlreadyRejected)
      else if g.members[t].status == Active then Some(AlreadyActive)
      else None
    case SetAdmin(r, t, _) =>
      if !IsActiveMember(g, r) || !IsOwnerMember(g, r) then Some(Forbidden)
      else if t !in g.members then Some(TargetMissing)
      else if !IsActiveMember(g, t) then Some(TargetLeft)
      else if IsOwnerMember(g, t) then Some(TargetIsOwner)
      else None
    case ChangeSettings(_) => None
  }

  // ---------- Effects ----------

  /** `Math.max(0, (membersCount || 1) - 1)` */
  function OneFewer(count: int): int {
    var n := if count == 0 then 1 else count;
    if n - 1 < 0 then 0 else n - 1
  }

  function Gone(m: Member, now: Time): Member {
    m.(leftAt := Some(now))
  }

  function JoinStatus(g: Group, requester: UserId): Status
    requires requester in g.members
  {
    if g.settings.requireApproval && !IsManager(g, requester) then Pending else Active
  }

  function AfterAdd(g: Group, r: UserId, ids: seq<UserId>): Group
    requires r in g.members
  {
    var status := JoinStatus(g, r);
    g.(members := map u | u in g.members.Keys + Elements(ids) ::
         if u in Elements(ids) then Member(Regular, status, None) else g.members[u],
       membersCount := g.membersCount + (if status == Active then |ids| else 0))
  }

  function AfterJoin(g: Group, r: UserId): Group {
    if IsActiveMember(g, r) then g
    else if g.settings.requireApproval then
      var role := if r in g.members then g.members[r].role else Regular;
      g.(members := g.members[r := Member(role, Pending, None)])
    else
      g.(members := g.members[r := Member(Regular, Active, None)], membersCount := g.membersCount + 1)
  }

  function AfterLeave(g: Group, op: GroupOp): Group
    requires op.Leave? && op.requester in g.members
    requires IsOwnerMember(g, op.requester) ==> Successor(g, op).Success? && Successor(g, op).value in g.members
  {
    var u := op.requester;
    var left := g.(admins := Without(g.admins, u), membersCount := OneFewer(g.membersCount));
    if !IsOwnerMember(g, u) then
      left.(members := g.members[u := Gone(g.members[u], op.now)])
    else
      var n := Successor(g, op).value;
      var members := g.members[n := g.members[n].(role := Owner)];
      left.(members := members[u := Gone(members[u], op.now).(role := Admin)],
            ownerId := n,
            admins := if op.newOwner.Some? && g.members[n].role != Admin then left.admins
                      else Without(left.admins, n))
  }

  function AfterTransfer(g: Group, r: UserId, t: UserId): Group
    requires r in g.members && t in g.members
  {
    var members := g.members[r := g.members[r].(role := Admin)];
    g.(ownerId := t,
       admins := Unique(Without(g.admins, t) + [r]),
       members := members[t := members[t].(role := Owner)])
  }

  function AfterRemove(g: Group, t: UserId, block: bool, now: Time): Group
    requires t in g.members
  {
    g.(admins := if g.members[t].role == Admin then Without(g.admins, t) else g.admins,
       members := g.members[t := Gone(g.members[t], now)],
       membersCount := OneFewer(g.membersCount),
       blocked := if block then g.blocked + {t} else g.blocked)
  }

  function AfterBlock(g: Group, t: UserId, now: Time): Group {
    if IsActiveMember(g, t) then AfterRemove(g, t, true, now) else g.(blocked := g.blocked + {t})
  }

  function AfterSetAdmin(g: Group, t: UserId, isAdmin: bool): Group
    requires t in g.members
  {
    g.(members := g.members[t := g.members[t].(role := if isAdmin then Admin else Regular)],
       admins := if isAdmin then Unique(g.admins + [t]) else Without(g.admins, t))
  }

  function Apply(g: Group, op: GroupOp): Group {
    if Refusal(g, op).Some? then g else
    match op
    case Add(r, ids, _) => AfterAdd(g, r, ids)
    case JoinByInvite(_, r) => AfterJoin(g, r)
    case Leave(_, _, _, _) => AfterLeave(g, op)
    case TransferOwner(r, t) => AfterTransfer(g, r, t)
    case Remove(_, t, block, now) => AfterRemove(g, t, block, now)
    case Block(_, t, now) => AfterBlock(g, t, now)
    case Unblock(_, t) => g.(blocked := g.blocked - {t})
    case Approve(_, t) =>
      g.(members := g.members[t := g.members[t].(status := Active)], membersCount := g.membersCount + 1)
    case RejectMember(_, t) => g.(members := g.members[t := g.members[t].(status := Rejected)])
    case SetAdmin(_, t, isAdmin) => AfterSetAdmin(g, t, isAdmin)
    case ChangeSettings(settings) => g.(settings := settings)
  }

  ghost predicate IsRun(groups: seq<Group>, ops: seq<GroupOp>, creator: UserId, ids: seq<UserId>) {
    |groups| == |ops| + 1 && CreatableWith(creator, ids) && groups[0] == NewGroup(creator, ids) &&
    forall i :: 0 <= i < |ops| ==> groups[i + 1] == Apply(groups[i], ops[i])
  }
}
