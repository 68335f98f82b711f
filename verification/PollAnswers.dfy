/** Which poll operations are accepted, what they leave of the poll, and which of its parts nothing ever changes. */
module PollAnswers {
  import opened Wrappers
  import opened Sequences
  import opened PollModel
  import opened PollInvariants

  predicate Over(p: Poll, now: Time) {
    p.expiresAt.Some? && p.expiresAt.value < now
  }

  predicate HasOption(p: Poll, id: OptionId) {
    exists o :: o in p.options && o.id == id
  }

  predicate HasChosen(p: Poll, u: UserId) {
    exists o :: o in p.options && u in o.votedUserIds
  }

  /** The user is in exactly the options asked for. */
  ghost predicate HasChosenExactly(p: Poll, u: UserId, ids: seq<OptionId>) {
    (forall o :: o in p.options ==> (u in o.votedUserIds <==> o.id in ids)) &&
    forall id :: id in ids ==> HasOption(p, id)
  }

  ghost predicate Accepts(p: Poll, op: PollOp) {
    match op
    case Vote(u, isMember, ids, now) =>
      !p.closed && !Over(p, now) && isMember && p.options != [] && (forall id :: id in ids ==> HasOption(p, id)) &&
      (!p.isMultipleChoice ==> forall a, b :: a in ids && b in ids ==> a == b) &&
      (p.allowChangeVote || !HasChosen(p, u) || HasChosenExactly(p, u, ids))
    case AddOption(isMember, _, key, now) =>
      p.allowAddOption && !p.closed && !Over(p, now) && isMember && forall o :: o in p.options ==> o.key != key
    case ClosePoll(isMember, mayManage) => isMember && mayManage
    case CloseExpired(_) => true
  }

  lemma MoreThanOne(ids: seq<OptionId>)
    ensures |Unique(ids)| > 1 <==> exists a, b :: a in ids && b in ids && a != b
  {
    hide Unique;
    UniqueContains(ids);
    var xs := Unique(ids);
    if |xs| > 1 {
      assert xs[0] in ids && xs[1] in ids && xs[0] != xs[1];
    } else {
      AtMostOne(ids);
    }
  }

  lemma {:induction false} SelectsSomething(options: seq<PollOption>, u: UserId)
    ensures |SelectedOptionIds(options, u)| > 0 <==> exists o :: o in options && u in o.votedUserIds
  {
    if options != [] {
      SelectsSomething(options[1..], u);
      assert forall o :: o in options <==> o == options[0] || o in options[1..] by { assert options == [options[0]] + options[1..]; }
    }
  }

  lemma UnchangedIsChosen(p: Poll, u: UserId, ids: seq<OptionId>)
    requires Inv(p)
    ensures SelectionUnchanged(p, u, ids) <==> HasChosenExactly(p, u, ids)
  {
    hide SelectionUnchanged, Inv;
    UnchangedMeansAlreadySelected(p, u, ids);
    IdsAreDistinct(p);
    if HasChosenExactly(p, u, ids) {
      forall id | id in ids ensures id in Selection(p, u) {
        var o :| o in p.options && o.id == id;
      }
    }
    if Selection(p, u) == Elements(ids) {
      forall id | id in ids ensures HasOption(p, id) { assert id in Selection(p, u); }
      forall o | o in p.options ensures u in o.votedUserIds <==> o.id in ids {
        if o.id in ids {
          assert o.id in Selection(p, u);
          var x :| x in p.options && u in x.votedUserIds && x.id == o.id;
          assert x == o;
        }
        if u in o.votedUserIds { assert o.id in Selection(p, u); }
      }
    }
  }

  lemma IdsAreDistinct(p: Poll)
    requires Inv(p)
    ensures forall x, y :: x in p.options && y in p.options && x.id == y.id ==> x == y
  {
    forall x, y | x in p.options && y in p.options && x.id == y.id ensures x == y {
      var i :| 0 <= i < |p.options| && p.options[i] == x;
      var j :| 0 <= j < |p.options| && p.options[j] == y;
    }
  }

  /** An operation acts exactly when it is accepted, and otherwise the poll stays as it is. */
  lemma ActsIffAccepted(p: Poll, op: PollOp)
    requires Inv(p)
    ensures Refusal(p, op).None? <==> Accepts(p, op)
    ensures !Accepts(p, op) ==> Apply(p, op) == p
  {
    hide SelectionUnchanged, SelectedOptionIds, Unique;
    assert Normalize(p.options) == p.options by { NormalizeIdempotent(p.options); }
    if op.Vote? {
      UnchangedIsChosen(p, op.userId, op.optionIds);
      MoreThanOne(op.optionIds);
      SelectsSomething(p.options, op.userId);
      UniqueContains(op.optionIds);
    }
  }

  /** No operation changes what kind of poll it is, and it closes exactly by being closed or by its time. */
  lemma PollComesOut(p: Poll, op: PollOp)
    requires Inv(p)
    ensures var q := Apply(p, op);
      q.isMultipleChoice == p.isMultipleChoice && q.allowAddOption == p.allowAddOption &&
      q.allowChangeVote == p.allowChangeVote && q.expiresAt == p.expiresAt
    ensures Apply(p, op).closed <==>
      p.closed || (op.ClosePoll? && op.isMember && op.mayManage) ||
      (op.CloseExpired? && p.expiresAt.Some? && p.expiresAt.value <= op.now)
    ensures op.AddOption? && Accepts(p, op) ==> Apply(p, op).options == p.options + [PollOption(op.optionId, op.key, [], 0)]
    ensures op.AddOption? || op.ClosePoll? || op.CloseExpired? ==> Apply(p, op).totalVotes == p.totalVotes
    ensures op.ClosePoll? || op.CloseExpired? ==> Apply(p, op).options == p.options
  {
    hide SelectionUnchanged, Unique, VoteRefusal, Voters, Recast;
    ActsIffAccepted(p, op);
    if op.AddOption? && Accepts(p, op) {
      var added := p.options + [PollOption(op.optionId, op.key, [], 0)];
      forall i | 0 <= i < |added| ensures OptionConsistent(added[i]) {
        if i == |p.options| { NothingRepeats<UserId>(); }
      }
      NormalizeIdempotent(added);
      assert Voters(added) == Voters(p.options) by { NewOptionHasNoVoters(p.options, PollOption(op.optionId, op.key, [], 0)); }
    }
  }

  lemma NewOptionHasNoVoters(options: seq<PollOption>, o: PollOption)
    requires o.votedUserIds == []
    ensures Voters(options + [o]) == Voters(options)
  {
    forall u ensures u in Voters(options + [o]) <==> u in Voters(options) {
      if u in Voters(options + [o]) {
        var x :| x in options + [o] && u in x.votedUserIds;
        assert x in options;
      }
      if u in Voters(options) {
        var x :| x in options && u in x.votedUserIds;
        assert x in options + [o];
      }
    }
  }

  /** An accepted vote that asks for something new puts the voter at the end of each option asked for and takes him out of the others. */
  lemma VoterListsComeOut(p: Poll, op: PollOp, i: nat)
    requires Inv(p) && op.Vote? && Accepts(p, op) && !HasChosenExactly(p, op.userId, op.optionIds) && i < |p.options|
    ensures |Apply(p, op).options| == |p.options|
    ensures var o, after, u := p.options[i], Apply(p, op).options[i], op.userId;
      after.id == o.id && after.key == o.key && after.voteCount == |after.votedUserIds| &&
      after.votedUserIds ==
        if o.id !in op.optionIds then Without(o.votedUserIds, u)
        else if p.isMultipleChoice && u in o.votedUserIds then o.votedUserIds
        else Without(o.votedUserIds, u) + [u]
  {
    hide SelectionUnchanged, Unique, NoDuplicates, VoteRefusal, Without;
    ActsIffAccepted(p, op);
    UnchangedIsChosen(p, op.userId, op.optionIds);
    NormalizeIdempotent(p.options);
    UniqueContains(op.optionIds);
    var recast := RecastAll(p.options, op.userId, Unique(op.optionIds), p.isMultipleChoice);
    forall k | 0 <= k < |recast| ensures OptionConsistent(recast[k]) {
      RecastMembership(p.options[k], op.userId, Unique(op.optionIds), p.isMultipleChoice);
    }
    NormalizeIdempotent(recast);
    WithoutContains(p.options[i].votedUserIds, op.userId);
  }

  lemma UnchangedVoteChangesNothing(p: Poll, op: PollOp)
    requires Inv(p) && op.Vote? && HasChosenExactly(p, op.userId, op.optionIds)
    ensures Apply(p, op) == p
  {
    hide SelectionUnchanged, VoteRefusal;
    UnchangedIsChosen(p, op.userId, op.optionIds);
  }

  /** An error is true of the poll or of what was asked. */
  lemma ErrorsAreTrue(p: Poll, op: PollOp)
    requires Inv(p) && Refusal(p, op).Some?
    ensures match Refusal(p, op).value {
        case PollExpired => op.Vote? && Over(p, op.now)
        case PollClosed => (op.Vote? && p.closed) || (op.AddOption? && (p.closed || Over(p, op.now)))
        case NotMember => !op.CloseExpired? && !op.isMember
        case NoOptions => op.Vote? && p.options == []
        case UnknownOption => op.Vote? && exists id :: id in op.optionIds && !HasOption(p, id)
        case OnlyOneOption => op.Vote? && !p.isMultipleChoice && exists a, b :: a in op.optionIds && b in op.optionIds && a != b
        case CannotChangeVote => op.Vote? && !p.allowChangeVote && HasChosen(p, op.userId)
        case OptionsFixed => op.AddOption? && !p.allowAddOption
        case OptionExists => op.AddOption? && exists o :: o in p.options && o.key == op.key
        case Forbidden => op.ClosePoll? && !op.mayManage
        case PollNotFound => false
        case TooFewOptions => false
      }
  {
    hide SelectionUnchanged, SelectedOptionIds, Unique;
    assert Normalize(p.options) == p.options by { NormalizeIdempotent(p.options); }
    if op.Vote? {
      MoreThanOne(op.optionIds);
      SelectsSomething(p.options, op.userId);
      UniqueContains(op.optionIds);
    }
  }
}
