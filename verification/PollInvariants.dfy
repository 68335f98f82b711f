/** What every reachable poll satisfies, and what a vote does to everybody's selection. */
module PollInvariants {
  import opened Wrappers
  import opened Sequences
  import opened PollModel

  ghost predicate OptionConsistent(o: PollOption) {
    NoDuplicates(o.votedUserIds) && o.voteCount == |o.votedUserIds|
  }

  ghost predicate OneOptionEach(options: seq<PollOption>) {
    forall i, j, u :: 0 <= i < j < |options| && u in options[i].votedUserIds ==> u !in options[j].votedUserIds
  }

  ghost predicate Inv(p: Poll) {
    DistinctIds(p.options) &&
    (forall i :: 0 <= i < |p.options| ==> OptionConsistent(p.options[i])) &&
    p.totalVotes == |Voters(p.options)| &&
    (!p.isMultipleChoice ==> OneOptionEach(p.options))
  }

  /** The options a user has chosen. */
  ghost function Selection(p: Poll, u: UserId): set<OptionId> {
    set o | o in p.options && u in o.votedUserIds :: o.id
  }

  // ---------- The list functions mean what their names say ----------

  /** Normalizing consistent options changes nothing. */
  lemma NormalizeIdempotent(options: seq<PollOption>)
    requires forall i :: 0 <= i < |options| ==> OptionConsistent(options[i])
    ensures Normalize(options) == options
  {
    forall i | 0 <= i < |options| ensures Normalize(options)[i] == options[i] {
      UniqueContains(options[i].votedUserIds);
    }
  }

  lemma {:induction false} SelectedAreTheSelection(options: seq<PollOption>, u: UserId)
    requires DistinctIds(options)
    ensures NoDuplicates(SelectedOptionIds(options, u))
    ensures forall id :: id in SelectedOptionIds(options, u) <==>
      exists o :: o in options && u in o.votedUserIds && o.id == id
  {
    if options != [] {
      SelectedAreTheSelection(options[1..], u);
      assert options == [options[0]] + options[1..];
      forall o | o in options[1..] ensures o.id != options[0].id {
        var k :| 0 <= k < |options[1..]| && options[1..][k] == o;
        assert o == options[k + 1];
      }
      if u in options[0].votedUserIds {
        ExtendNoDuplicates(SelectedOptionIds(options[1..], u), options[0].id);
      }
    }
  }

  /** The selection comparison decides set equality. */
  lemma SameSelectionIsSetEquality(current: seq<OptionId>, requested: seq<OptionId>)
    requires NoDuplicates(current) && NoDuplicates(requested)
    ensures HaveSameSelection(current, requested) <==> Elements(current) == Elements(requested)
  {
    LengthVersusSize(current);
    LengthVersusSize(requested);
    if HaveSameSelection(current, requested) {
      var extra := Elements(requested) - Elements(current);
      assert Elements(current) <= Elements(requested);
      assert |extra| == 0;
    }
    if Elements(current) == Elements(requested) {
      forall id | id in current ensures id in requested {
        assert id in Elements(requested);
      }
    }
  }

  // ---------- A vote ----------

  lemma RecastMembership(o: PollOption, u: UserId, requested: seq<OptionId>, multi: bool)
    requires OptionConsistent(o)
    ensures OptionConsistent(Recast(o, u, requested, multi))
    ensures Recast(o, u, requested, multi).id == o.id
    ensures u in Recast(o, u, requested, multi).votedUserIds <==> o.id in requested
    ensures forall v :: v != u ==> (v in Recast(o, u, requested, multi).votedUserIds <==> v in o.votedUserIds)
  {
    WithoutContains(o.votedUserIds, u);
    ExtendNoDuplicates(Without(o.votedUserIds, u), u);
  }

  /** What an accepted vote that changes something writes: each option keeps its id and its other voters, and holds
      the voter exactly if it was asked for. */
  ghost predicate Voted(before: seq<PollOption>, after: seq<PollOption>, u: UserId, requested: seq<OptionId>) {
    |after| == |before| &&
    forall i :: 0 <= i < |after| ==>
      OptionConsistent(after[i]) && after[i].id == before[i].id &&
      (u in after[i].votedUserIds <==> before[i].id in requested) &&
      (forall v :: v != u ==> (v in after[i].votedUserIds <==> v in before[i].votedUserIds))
  }

  lemma VoteWrites(p: Poll, op: PollOp)
    requires Inv(p) && op.Vote? && Refusal(p, op).None? && !SelectionUnchanged(p, op.userId, op.optionIds)
    ensures Voted(p.options, Apply(p, op).options, op.userId, op.optionIds)
    ensures Apply(p, op).totalVotes == |Voters(Apply(p, op).options)|
  {
    NormalizeIdempotent(p.options);
    UniqueContains(op.optionIds);
    var recast := RecastAll(p.options, op.userId, Unique(op.optionIds), p.isMultipleChoice);
    forall i | 0 <= i < |p.options| ensures OptionConsistent(recast[i]) {
      RecastMembership(p.options[i], op.userId, Unique(op.optionIds), p.isMultipleChoice);
    }
    NormalizeIdempotent(recast);
    forall i | 0 <= i < |p.options|
      ensures recast[i].id == p.options[i].id && (op.userId in recast[i].votedUserIds <==> p.options[i].id in op.optionIds)
      ensures forall v :: v != op.userId ==> (v in recast[i].votedUserIds <==> v in p.options[i].votedUserIds)
    {
      RecastMembership(p.options[i], op.userId, Unique(op.optionIds), p.isMultipleChoice);
    }
  }

  lemma AtMostOne(xs: seq<OptionId>)
    requires |Unique(xs)| <= 1
    ensures forall a, b :: a in xs && b in xs ==> a == b
  {
    UniqueContains(xs);
    forall a, b | a in xs && b in xs ensures a == b {
      assert a in Unique(xs) && b in Unique(xs);
    }
  }

  lemma VoteKeepsOneOptionEach(p: Poll, op: PollOp)
    requires Inv(p) && op.Vote? && Refusal(p, op).None? && !SelectionUnchanged(p, op.userId, op.optionIds)
    requires !p.isMultipleChoice
    ensures OneOptionEach(Apply(p, op).options)
  {
    VoteWrites(p, op);
    AtMostOne(op.optionIds);
    var after := Apply(p, op).options;
    forall i, j, u | 0 <= i < j < |after| && u in after[i].votedUserIds ensures u !in after[j].votedUserIds {
      if u == op.userId {
        assert p.options[i].id != p.options[j].id;
      } else {
        assert u in p.options[i].votedUserIds;
      }
    }
  }

  lemma VoteKeepsInv(p: Poll, op: PollOp)
    requires Inv(p) && op.Vote?
    ensures Inv(Apply(p, op))
  {
    if Refusal(p, op).None? && !SelectionUnchanged(p, op.userId, op.optionIds) {
      VoteWrites(p, op);
      if !p.isMultipleChoice { VoteKeepsOneOptionEach(p, op); }
    }
  }

  lemma AddOptionKeepsInv(p: Poll, op: PollOp)
    requires Inv(p) && op.AddOption? && Allowed(p, op)
    ensures Inv(Apply(p, op))
    ensures forall u :: Selection(Apply(p, op), u) == Selection(p, u)
  {
    if Refusal(p, op).None? {
      var options := p.options + [PollOption(op.optionId, op.key, [], 0)];
      NormalizeIdempotent(options);
      assert forall o :: o in options <==> o in p.options || o == options[|p.options|];
      assert Voters(options) == Voters(p.options);
    }
  }

  lemma StepKeepsInv(p: Poll, op: PollOp)
    requires Inv(p) && Allowed(p, op)
    ensures Inv(Apply(p, op))
  {
    if op.Vote? {
      VoteKeepsInv(p, op);
    } else if op.AddOption? {
      AddOptionKeepsInv(p, op);
    }
  }

  lemma NewPollInv(p: Poll)
    requires IsNewPoll(p) && DistinctIds(p.options)
    ensures Inv(p)
  {
    assert Voters(p.options) == {};
  }

  /** Voter lists, counts and totals agree after every run. */
  lemma {:induction false} ReachablePollsKeepInv(polls: seq<Poll>, ops: seq<PollOp>, i: nat)
    requires IsRun(polls, ops) && i < |polls|
    ensures Inv(polls[i])
  {
    if i == 0 {
      NewPollInv(polls[0]);
    } else {
      ReachablePollsKeepInv(polls, ops, i - 1);
      StepKeepsInv(polls[i - 1], ops[i - 1]);
    }
  }

  // ---------- Selections ----------

  lemma UnchangedMeansAlreadySelected(p: Poll, u: UserId, optionIds: seq<OptionId>)
    requires Inv(p)
    ensures SelectionUnchanged(p, u, optionIds) <==> Selection(p, u) == Elements(optionIds)
  {
    NormalizeIdempotent(p.options);
    SelectedAreTheSelection(p.options, u);
    UniqueContains(optionIds);
    SameSelectionIsSetEquality(SelectedOptionIds(p.options, u), Unique(optionIds));
    assert Elements(SelectedOptionIds(p.options, u)) == Selection(p, u);
    assert Elements(Unique(optionIds)) == Elements(optionIds);
  }

  /** After an accepted vote the voter's selection is exactly what was asked for, whatever it was before. */
  lemma VoteSetsSelection(p: Poll, op: PollOp)
    requires Inv(p) && op.Vote? && Refusal(p, op).None?
    ensures Selection(Apply(p, op), op.userId) == Elements(op.optionIds)
  {
    UnchangedMeansAlreadySelected(p, op.userId, op.optionIds);
    if !SelectionUnchanged(p, op.userId, op.optionIds) {
      VoteWrites(p, op);
      var after := Apply(p, op);
      forall id | id in op.optionIds ensures id in Selection(after, op.userId) {
        NormalizeIdempotent(p.options);
        UniqueContains(op.optionIds);
        assert id in Unique(op.optionIds);
        var o :| o in p.options && o.id == id;
        var i :| 0 <= i < |p.options| && p.options[i] == o;
        assert after.options[i] in after.options && after.options[i].id == id;
      }
    }
  }

  /** Nobody else's selection moves. */
  lemma VoteKeepsOtherSelections(p: Poll, op: PollOp, v: UserId)
    requires Inv(p) && op.Vote? && v != op.userId
    ensures Selection(Apply(p, op), v) == Selection(p, v)
  {
    if Refusal(p, op).None? && !SelectionUnchanged(p, op.userId, op.optionIds) {
      VoteWrites(p, op);
      var before, after := p.options, Apply(p, op).options;
      forall o | o in before && v in o.votedUserIds ensures o.id in Selection(Apply(p, op), v) {
        var i :| 0 <= i < |before| && before[i] == o;
        assert after[i] in after && v in after[i].votedUserIds;
      }
      forall o | o in after && v in o.votedUserIds ensures o.id in Selection(p, v) {
        var i :| 0 <= i < |after| && after[i] == o;
        assert before[i] in before && v in before[i].votedUserIds;
      }
    }
  }

  lemma VotersAreSelectors(p: Poll, u: UserId)
    ensures u in Voters(p.options) <==> Selection(p, u) != {}
  {
    if u in Voters(p.options) {
      var o :| o in p.options && u in o.votedUserIds;
      assert o.id in Selection(p, u);
    }
  }

  lemma VoterBecomes(p: Poll, op: PollOp)
    requires Inv(p) && op.Vote? && Refusal(p, op).None?
    ensures op.userId in Voters(Apply(p, op).options) <==> op.optionIds != []
  {
    VoteSetsSelection(p, op);
    VotersAreSelectors(Apply(p, op), op.userId);
    if op.optionIds != [] { assert op.optionIds[0] in Elements(op.optionIds); }
  }

  lemma OthersStayVoters(p: Poll, op: PollOp, v: UserId)
    requires Inv(p) && op.Vote? && v != op.userId
    ensures v in Voters(Apply(p, op).options) <==> v in Voters(p.options)
  {
    VoteKeepsOtherSelections(p, op, v);
    VotersAreSelectors(p, v);
    VotersAreSelectors(Apply(p, op), v);
  }

  /** The total moves by one when somebody starts or stops voting, and not otherwise. */
  lemma VoteMovesTotal(p: Poll, op: PollOp)
    requires Inv(p) && op.Vote? && Refusal(p, op).None?
    ensures Apply(p, op).totalVotes == p.totalVotes
      + (if op.optionIds != [] then 1 else 0) - (if Selection(p, op.userId) != {} then 1 else 0)
  {
    var after := Apply(p, op);
    StepKeepsInv(p, op);
    VoterBecomes(p, op);
    VotersAreSelectors(p, op.userId);
    forall v | v != op.userId ensures v in Voters(after.options) <==> v in Voters(p.options) {
      OthersStayVoters(p, op, v);
    }
    SizesDiffer(Voters(p.options), Voters(after.options), op.userId);
  }

  lemma SizesDiffer(a: set<UserId>, b: set<UserId>, u: UserId)
    requires forall v :: v != u ==> (v in b <==> v in a)
    ensures |b| == |a| + (if u in b then 1 else 0) - (if u in a then 1 else 0)
  {
    assert a - {u} == b - {u};
    SizeWithout(a, u);
    SizeWithout(b, u);
  }

  lemma SizeWithout(a: set<UserId>, u: UserId)
    ensures |a - {u}| == |a| - if u in a then 1 else 0
  {
    if u !in a { assert a - {u} == a; }
  }

  // ---------- Single choice ----------

  function SumOfCounts(options: seq<PollOption>): int {
    if options == [] then 0 else options[0].voteCount + SumOfCounts(options[1..])
  }

  lemma {:induction false} SumCountsVoters(options: seq<PollOption>)
    requires OneOptionEach(options) && forall i :: 0 <= i < |options| ==> OptionConsistent(options[i])
    ensures SumOfCounts(options) == |Voters(options)|
  {
    if options == [] {
      assert Voters(options) == {};
    } else {
      var rest := options[1..];
      SumCountsVoters(rest);
      LengthVersusSize(options[0].votedUserIds);
      FirstVotersApart(options);
    }
  }

  lemma FirstVotersApart(options: seq<PollOption>)
    requires options != [] && OneOptionEach(options)
    ensures Voters(options) == Elements(options[0].votedUserIds) + Voters(options[1..])
    ensures Elements(options[0].votedUserIds) !! Voters(options[1..])
  {
    var rest := options[1..];
    assert options == [options[0]] + rest;
    forall u | u in options[0].votedUserIds ensures u !in Voters(rest) {
      forall o | o in rest ensures u !in o.votedUserIds {
        var k :| 0 <= k < |rest| && rest[k] == o;
        assert options[k + 1] == o;
      }
    }
  }

  /** In a reachable single-choice poll the total is the sum of the option counts. */
  lemma SingleChoiceTotals(polls: seq<Poll>, ops: seq<PollOp>, i: nat)
    requires IsRun(polls, ops) && i < |polls| && !polls[i].isMultipleChoice
    ensures polls[i].totalVotes == SumOfCounts(polls[i].options)
  {
    ReachablePollsKeepInv(polls, ops, i);
    SumCountsVoters(polls[i].options);
  }

  // ---------- Whole runs ----------

  lemma StepSelections(p: Poll, op: PollOp, u: UserId)
    requires Inv(p) && Allowed(p, op) && Selection(p, u) != {} && (!p.allowChangeVote || p.closed)
    ensures Selection(Apply(p, op), u) == Selection(p, u)
    ensures Apply(p, op).allowChangeVote == p.allowChangeVote && (p.closed ==> Apply(p, op).closed)
  {
    if op.AddOption? {
      AddOptionKeepsInv(p, op);
    } else if op.Vote? && u != op.userId {
      VoteKeepsOtherSelections(p, op, u);
    } else if op.Vote? && Refusal(p, op).None? {
      UnchangedMeansAlreadySelected(p, u, op.optionIds);
      NormalizeIdempotent(p.options);
      SelectedAreTheSelection(p.options, u);
      var id :| id in Selection(p, u);
      assert id in SelectedOptionIds(p.options, u);
    }
  }

  /** Without permission to change votes, and on any closed poll, a vote once cast stays as it is for good. */
  lemma {:induction false} VotesStick(polls: seq<Poll>, ops: seq<PollOp>, i: nat, j: nat, u: UserId)
    requires IsRun(polls, ops) && i <= j < |polls|
    requires Selection(polls[i], u) != {} && (!polls[i].allowChangeVote || polls[i].closed)
    ensures Selection(polls[j], u) == Selection(polls[i], u)
    ensures polls[j].allowChangeVote == polls[i].allowChangeVote && (polls[i].closed ==> polls[j].closed)
    decreases j
  {
    if i < j {
      VotesStick(polls, ops, i, j - 1, u);
      ReachablePollsKeepInv(polls, ops, j - 1);
      StepSelections(polls[j - 1], ops[j - 1], u);
    }
  }
}
