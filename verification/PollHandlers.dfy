/** The poll handlers and the worker's closing loop, over the stored polls. */
module PollHandlers {
  import opened Wrappers
  import opened Sequences
  import opened PollModel

  /** Fills one set with the voters of every option. */
  method CountUniqueVoters(options: seq<PollOption>) returns (count: nat)
    ensures count == |Voters(options)|
  {
    var voters: set<UserId> := {};
    for i := 0 to |options|
      invariant voters == Voters(options[..i])
    {
      var ids := options[i].votedUserIds;
      for j := 0 to |ids|
        invariant voters == Voters(options[..i]) + Elements(ids[..j])
      {
        assert ids[..j + 1] == ids[..j] + [ids[j]];
        AppendElement(ids[..j], ids[j]);
        voters := voters + {ids[j]};
      }
      assert ids[..|ids|] == ids;
      VotersAppend(options[..i], options[i]);
      assert options[..i + 1] == options[..i] + [options[i]];
    }
    assert options[..|options|] == options;
    return |voters|;
  }

  lemma VotersAppend(options: seq<PollOption>, o: PollOption)
    ensures Voters(options + [o]) == Voters(options) + Elements(o.votedUserIds)
  {
    assert o in options + [o] by { assert (options + [o])[|options|] == o; }
    assert forall x :: x in options + [o] <==> x in options || x == o;
  }

  datatype VoteAnswer = VoteAnswer(poll: Poll, changed: bool)

  class PollStore {
    var polls: map<PollId, Poll>

    constructor ()
      ensures polls == map[]
    {
      polls := map[];
    }

    /** How a handler on one poll answers; the other polls are untouched. */
    ghost predicate Steps(before: map<PollId, Poll>, id: PollId, op: PollOp, error: Option<PollError>)
      reads this
    {
      if id !in before then polls == before && error == Some(PollNotFound)
      else polls == before[id := Apply(before[id], op)] && error == Refusal(before[id], op)
    }

    method CreatePoll(id: PollId, ids: seq<OptionId>, keys: seq<string>, isMultipleChoice: bool, allowAddOption: bool,
                      allowChangeVote: bool, expiresAt: Option<Time>) returns (r: Result<Poll, PollError>)
      requires id !in polls && |ids| == |keys| && NoDuplicates(ids)
      modifies this
      ensures |keys| < 2 ==> r == Failure(TooFewOptions) && polls == old(polls)
      ensures |keys| >= 2 ==> r.Success? && polls == old(polls)[id := r.value]
      ensures r.Success? ==> IsNewPoll(r.value) && DistinctIds(r.value.options) && |r.value.options| == |keys|
      ensures r.Success? ==>
        forall i :: 0 <= i < |keys| ==> r.value.options[i].id == ids[i] && r.value.options[i].key == keys[i]
      ensures r.Success? ==>
        r.value.isMultipleChoice == isMultipleChoice && r.value.allowAddOption == allowAddOption &&
        r.value.allowChangeVote == allowChangeVote && r.value.expiresAt == expiresAt && !r.value.closed &&
        r.value.totalVotes == 0 && forall o :: o in r.value.options ==> o.votedUserIds == [] && o.voteCount == 0
    {
      if |keys| < 2 { return Failure(TooFewOptions); }
      var options := seq(|keys|, i requires 0 <= i < |keys| => PollOption(ids[i], keys[i], [], 0));
      var poll := Poll(options, isMultipleChoice, allowAddOption, allowChangeVote, false, expiresAt, 0);
      polls := polls[id := poll];
      return Success(poll);
    }

    method VotePoll(id: PollId, userId: UserId, isMember: bool, optionIds: seq<OptionId>, now: Time)
      returns (r: Result<VoteAnswer, PollError>)
      modifies this
      ensures Steps(old(polls), id, Vote(userId, isMember, optionIds, now),
                    match r { case Success(_) => None case Failure(e) => Some(e) })
      ensures r.Success? ==> id in old(polls)
      ensures r.Success? ==> (r.value.changed <==> !SelectionUnchanged(old(polls)[id], userId, optionIds))
      ensures r.Success? && r.value.changed ==> r.value.poll == polls[id]
      ensures r.Success? && !r.value.changed ==> r.value.poll == WriteOptions(old(polls)[id], old(polls)[id].options)
    {
      if id !in polls { return Failure(PollNotFound); }
      var poll := polls[id];
      var requested := Unique(optionIds);
      if Expired(poll, now) { return Failure(PollExpired); }
      if poll.closed { return Failure(PollClosed); }
      if !isMember { return Failure(NotMember); }
      if |poll.options| == 0 { return Failure(NoOptions); }
      var options := Normalize(poll.options);
      if exists x :: x in requested && forall o :: o in options ==> o.id != x { return Failure(UnknownOption); }
      if !poll.isMultipleChoice && |requested| > 1 { return Failure(OnlyOneOption); }
      var current := SelectedOptionIds(options, userId);
      if HaveSameSelection(current, requested) {
        var total := CountUniqueVoters(options);
        return Success(VoteAnswer(poll.(options := options, totalVotes := total), false));
      }
      if |current| > 0 && !poll.allowChangeVote { return Failure(CannotChangeVote); }
      WritePollOptions(id, RecastAll(options, userId, requested, poll.isMultipleChoice));
      return Success(VoteAnswer(polls[id], true));
    }

    /** The repository's update of a poll's options. */
    method WritePollOptions(id: PollId, options: seq<PollOption>)
      requires id in polls
      modifies this
      ensures polls == old(polls)[id := WriteOptions(old(polls)[id], options)]
    {
      var normalized := Normalize(options);
      var total := CountUniqueVoters(normalized);
      polls := polls[id := polls[id].(options := normalized, totalVotes := total)];
    }

    method AddPollOption(id: PollId, isMember: bool, optionId: OptionId, key: string, now: Time)
      returns (error: Option<PollError>)
      modifies this
      ensures Steps(old(polls), id, AddOption(isMember, optionId, key, now), error)
    {
      if id !in polls { return Some(PollNotFound); }
      var poll := polls[id];
      if !poll.allowAddOption { return Some(OptionsFixed); }
      if poll.closed || Expired(poll, now) { return Some(PollClosed); }
      if !isMember { return Some(NotMember); }
      if exists o :: o in poll.options && o.key == key { return Some(OptionExists); }
      WritePollOptions(id, poll.options + [PollOption(optionId, key, [], 0)]);
      return None;
    }

    method Close(id: PollId, isMember: bool, mayManage: bool) returns (error: Option<PollError>)
      modifies this
      ensures Steps(old(polls), id, ClosePoll(isMember, mayManage), error)
    {
      if id !in polls { return Some(PollNotFound); }
      if !isMember { return Some(NotMember); }
      if !mayManage { return Some(Forbidden); }
      if !polls[id].closed { polls := polls[id := polls[id].(closed := true)]; }
      return None;
    }

    /** The worker's loop over the polls the query reported as expired. */
    method CloseExpiredPolls(due: seq<PollId>, now: Time)
      modifies this
      ensures polls == map id | id in old(polls) ::
        if id in Elements(due) then Apply(old(polls)[id], CloseExpired(now)) else old(polls)[id]
    {
      for i := 0 to |due|
        invariant polls == map id | id in old(polls) ::
            if id in Elements(due[..i]) then Apply(old(polls)[id], CloseExpired(now)) else old(polls)[id]
      {
        var id := due[i];
        assert due[..i + 1] == due[..i] + [id];
        AppendElement(due[..i], id);
        if id in polls && !polls[id].closed && polls[id].expiresAt.Some? && polls[id].expiresAt.value <= now {
          polls := polls[id := polls[id].(closed := true)];
        }
      }
      assert due[..|due|] == due;
    }
  }
}
