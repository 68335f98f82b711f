/** Polls: voter lists, their counts, and the steps that create, vote, extend and close. */
module PollModel {
  import opened Wrappers
  import opened Sequences

  type UserId = string
  type OptionId = string
  type PollId = string
  type Time = int

  /** `key` is the option's text, trimmed and in lower case. */
  datatype PollOption = PollOption(id: OptionId, key: string, votedUserIds: seq<UserId>, voteCount: int)

  datatype Poll = Poll(
    options: seq<PollOption>,
    isMultipleChoice: bool,
    allowAddOption: bool,
    allowChangeVote: bool,
    closed: bool,
    expiresAt: Option<Time>,
    totalVotes: int
  )

  datatype PollError =
    | PollNotFound | PollExpired | PollClosed | NotMember | NoOptions | UnknownOption | OnlyOneOption
    | CannotChangeVote | OptionsFixed | OptionExists | Forbidden | TooFewOptions

  datatype PollOp =
    | Vote(userId: UserId, isMember: bool, optionIds: seq<OptionId>, now: Time)
    | AddOption(isMember: bool, optionId: OptionId, key: string, now: Time)
    | ClosePoll(isMember: bool, mayManage: bool)
    | CloseExpired(now: Time)

  // ---------- Derived lists and counts ----------

  function Normalize(options: seq<PollOption>): (r: seq<PollOption>)
    ensures |r| == |options|
    ensures forall i :: 0 <= i < |r| ==>
      r[i] == options[i].(votedUserIds := Unique(options[i].votedUserIds), voteCount := |Unique(options[i].votedUserIds)|)
  {
    seq(|options|, i requires 0 <= i < |options| =>
      options[i].(votedUserIds := Unique(options[i].votedUserIds), voteCount := |Unique(options[i].votedUserIds)|))
  }

  function Voters(options: seq<PollOption>): set<UserId> {
    set o, u | o in options && u in o.votedUserIds :: u
  }

  /** The ids of the options the user is in, in poll order. */
  function SelectedOptionIds(options: seq<PollOption>, u: UserId): seq<OptionId> {
    if options == [] then []
    else (if u in options[0].votedUserIds then [options[0].id] else []) + SelectedOptionIds(options[1..], u)
  }

  predicate HaveSameSelection(current: seq<OptionId>, requested: seq<OptionId>) {
    |current| == |requested| && forall id :: id in current ==> id in requested
  }

  // ---------- Voting ----------

  /** One option's voters after `u` has asked for `requested`. */
  function Recast(o: PollOption, u: UserId, requested: seq<OptionId>, isMultipleChoice: bool): PollOption {
    var was, will := u in o.votedUserIds, o.id in requested;
    var voters :=
      if isMultipleChoice then
        if will && !was then o.votedUserIds + [u]
        else if !will && was then Without(o.votedUserIds, u)
        else o.votedUserIds
      else if will then Without(o.votedUserIds, u) + [u]
      else Without(o.votedUserIds, u);
    o.(votedUserIds := voters, voteCount := |voters|)
  }

  function RecastAll(options: seq<PollOption>, u: UserId, requested: seq<OptionId>, isMultipleChoice: bool)
    : (r: seq<PollOption>)
    ensures |r| == |options|
    ensures forall i :: 0 <= i < |r| ==> r[i] == Recast(options[i], u, requested, isMultipleChoice)
  {
    seq(|options|, i requires 0 <= i < |options| => Recast(options[i], u, requested, isMultipleChoice))
  }

  /** The repository normalizes whatever options it is given and counts the voters itself. */
  function WriteOptions(p: Poll, options: seq<PollOption>): Poll {
    p.(options := Normalize(options), totalVotes := |Voters(Normalize(options))|)
  }

  predicate Expired(p: Poll, now: Time) {
    p.expiresAt.Some? && now > p.expiresAt.value
  }

  predicate SelectionUnchanged(p: Poll, u: UserId, optionIds: seq<OptionId>) {
    HaveSameSelection(SelectedOptionIds(Normalize(p.options), u), Unique(optionIds))
  }

  function VoteRefusal(p: Poll, op: PollOp): Option<PollError>
    requires op.Vote?
  {
    var options, requested := Normalize(p.options), Unique(op.optionIds);
    if Expired(p, op.now) then Some(PollExpired)
    else if p.closed then Some(PollClosed)
    else if !op.isMember then Some(NotMember)
    else if |p.options| == 0 then Some(NoOptions)
    else if exists id :: id in requested && forall o :: o in options ==> o.id != id then Some(UnknownOption)
    else if !p.isMultipleChoice && |requested| > 1 then Some(OnlyOneOption)
    else if SelectionUnchanged(p, op.userId, op.optionIds) then None
    else if |SelectedOptionIds(options, op.userId)| > 0 && !p.allowChangeVote then Some(CannotChangeVote)
    else None
  }

  function Refusal(p: Poll, op: PollOp): Option<PollError> {
    match op
    case Vote(_, _, _, _) => VoteRefusal(p, op)
    case AddOption(isMember, _, key, now) =>
      if !p.allowAddOption then Some(OptionsFixed)
      else if p.closed || Expired(p, now) then Some(PollClosed)
      else if !isMember then Some(NotMember)
      else if exists o :: o in p.options && o.key == key then Some(OptionExists)
      else None
    case ClosePoll(isMember, mayManage) =>
      if !isMember then Some(NotMember) else if !mayManage then Some(Forbidden) else None
    case CloseExpired(_) => None
  }

  function Apply(p: Poll, op: PollOp): Poll {
    if Refusal(p, op).Some? then p else
    match op
    case Vote(u, _, optionIds, _) =>
      if SelectionUnchanged(p, u, optionIds) then p
      else WriteOptions(p, RecastAll(Normalize(p.options), u, Unique(optionIds), p.isMultipleChoice))
    case AddOption(_, id, key, _) => WriteOptions(p, p.options + [PollOption(id, key, [], 0)])
    case ClosePoll(_, _) => p.(closed := true)
    case CloseExpired(now) => if !p.closed && p.expiresAt.Some? && p.expiresAt.value <= now then p.(closed := true) else p
  }

  /** New options get fresh ids. */
  predicate Allowed(p: Poll, op: PollOp) {
    op.AddOption? ==> forall o :: o in p.options ==> o.id != op.optionId
  }

  ghost predicate DistinctIds(options: seq<PollOption>) {
    forall i, j :: 0 <= i < j < |options| ==> options[i].id != options[j].id
  }

  predicate IsNewPoll(p: Poll) {
    |p.options| >= 2 && !p.closed && p.totalVotes == 0 &&
    forall o :: o in p.options ==> o.votedUserIds == [] && o.voteCount == 0
  }

  ghost predicate IsRun(polls: seq<Poll>, ops: seq<PollOp>) {
    |polls| == |ops| + 1 && IsNewPoll(polls[0]) && DistinctIds(polls[0].options) &&
    forall i :: 0 <= i < |ops| ==> Allowed(polls[i], ops[i]) && polls[i + 1] == Apply(polls[i], ops[i])
  }
}
