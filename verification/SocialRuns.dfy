/** Runs in which a limited look-up misses the request it is after. */
module SocialRuns {
  import opened Wrappers
  import opened Sequences
  import opened SocialModel
  import opened SocialTheorems

  lemma ExtendRun(states: seq<Social>, ops: seq<SocialOp>, op: SocialOp, after: Social)
    returns (longer: seq<Social>, more: seq<SocialOp>)
    requires IsRun(states, ops) && IsStep(states[|states| - 1], op, after)
    ensures longer == states + [after] && more == ops + [op] && IsRun(longer, more)
  {
    hide IsStep;
    longer, more := states + [after], ops + [op];
    forall i | 0 <= i < |more| ensures IsStep(longer[i], more[i], longer[i + 1]) {
      if i < |ops| { assert IsStep(states[i], ops[i], states[i + 1]); }
    }
  }

  lemma EmptyRun()
    ensures IsRun([EMPTY], [])
  {}

  // ---------- User 0 writes to one user after the other ----------

  /** The requests 0 to n - 1, the `i`th from user 0 to user i + 1. */
  function Letters(n: nat): (letters: map<RequestId, Request>)
    ensures forall i: nat :: i in letters <==> i < n
    ensures forall i: nat :: i < n ==> letters[i] == Request(0, i + 1, PENDING)
  {
    if n == 0 then map[] else Letters(n - 1)[n - 1 := Request(0, n, PENDING)]
  }

  function Written(n: nat): Social {
    Social(Letters(n), map[], {})
  }

  lemma WriteNext(n: nat)
    ensures IsStep(Written(n), Send(n, 0, n + 1, true), Written(n + 1))
  {
    hide Evaluated;
    assert !Finds(Written(n), 0, n + 1, PENDING) && !Finds(Written(n), n + 1, 0, PENDING);
    assert Letters(n + 1) == Letters(n)[n := Request(0, n + 1, PENDING)];
  }

  lemma {:induction false} WriteTo(n: nat) returns (states: seq<Social>, ops: seq<SocialOp>)
    ensures IsRun(states, ops) && states[|states| - 1] == Written(n)
  {
    hide IsRun, IsStep;
    if n == 0 {
      EmptyRun();
      assert Letters(0) == map[];
      states, ops := [EMPTY], [];
    } else {
      states, ops := WriteTo(n - 1);
      WriteNext(n - 1);
      states, ops := ExtendRun(states, ops, Send(n - 1, 0, n, true), Written(n));
    }
  }

  function Below(n: nat): (ids: set<nat>)
    ensures forall i: nat :: i in ids <==> i < n
    ensures |ids| == n
  {
    if n == 0 then {} else Below(n - 1) + {n - 1}
  }

  /** A request has as many ahead of it as user 0 wrote before. */
  lemma LettersAhead(s: Social, n: nat, id: RequestId)
    requires forall i :: i in s.requests && s.requests[i].fromUserId == 0 && i < id ==> i < n
    requires n <= id && forall i: nat :: i < n ==> i in s.requests && s.requests[i].fromUserId == 0
    ensures |Ahead(s, 0, id)| == n
  {
    assert Ahead(s, 0, id) == Below(n);
  }

  // ---------- Two pending requests for one pair ----------

  /**
   * User 0 writes to users 1, 2 and 3, and to user 3 again: the look-up evaluates the first two and finds nothing.
   * Once one of the two is accepted the friends still have one pending, and accepting it is refused.
   */
  lemma SecondRequestGetsThrough() returns (states: seq<Social>, ops: seq<SocialOp>)
    ensures IsRun(states, ops) && |ops| == 5
    ensures ops[3] == Send(3, 0, 3, true) && Refusal(states[3], ops[3]).None?
    ensures Matches(states[4], 2, 0, 3, PENDING) && Matches(states[4], 3, 0, 3, PENDING)
    ensures AreFriends(states[5], 0, 3) && Matches(states[5], 3, 0, 3, PENDING)
    ensures Refusal(states[5], Accept(3, 3)) == Some(AlreadyFriends)
    ensures !Inv(states[4]) && !Inv(states[5])
  {
    hide IsRun, IsStep;
    states, ops := [EMPTY], [];
    EmptyRun();
    assert EMPTY == Written(0) by { assert Letters(0) == map[]; }
    WriteNext(0);
    states, ops := ExtendRun(states, ops, Send(0, 0, 1, true), Written(1));
    WriteNext(1);
    states, ops := ExtendRun(states, ops, Send(1, 0, 2, true), Written(2));
    WriteNext(2);
    states, ops := ExtendRun(states, ops, Send(2, 0, 3, true), Written(3));
    WriteAgain();
    states, ops := ExtendRun(states, ops, Send(3, 0, 3, true), WrittenTwice());
    AcceptFirst();
    states, ops := ExtendRun(states, ops, Accept(2, 3), Apply(WrittenTwice(), Accept(2, 3)));
  }

  function WrittenTwice(): Social {
    Social(Letters(3)[3 := Request(0, 3, PENDING)], map[], {})
  }

  lemma WriteAgain()
    ensures IsStep(Written(3), Send(3, 0, 3, true), WrittenTwice())
    ensures Refusal(Written(3), Send(3, 0, 3, true)).None? && !Inv(WrittenTwice())
    ensures Matches(WrittenTwice(), 2, 0, 3, PENDING) && Matches(WrittenTwice(), 3, 0, 3, PENDING)
  {
    LettersAhead(Written(3), 2, 2);
    assert !Finds(Written(3), 0, 3, PENDING) && !Finds(Written(3), 3, 0, PENDING);
    var s := WrittenTwice();
    assert PendingBetween(s.requests[2], 0, 3) && PendingBetween(s.requests[3], 0, 3);
    assert !PairSound(s, 0, 3);
  }

  lemma AcceptFirst()
    ensures var s := WrittenTwice(); var after := Apply(s, Accept(2, 3));
      IsStep(s, Accept(2, 3), after) && AreFriends(after, 0, 3) && Matches(after, 3, 0, 3, PENDING) && !Inv(after) &&
      Refusal(after, Accept(3, 3)) == Some(AlreadyFriends)
  {
    hide Evaluated;
    var after := Apply(WrittenTwice(), Accept(2, 3));
    assert PendingBetween(after.requests[3], 0, 3) && !PairSound(after, 0, 3);
  }

  // ---------- A block that leaves a request ----------

  /** User 0 writes to a hundred and one users and blocks the last: the listing evaluates a hundred, and one stays. */
  lemma BlockLeavesARequest() returns (states: seq<Social>, ops: seq<SocialOp>)
    ensures IsRun(states, ops)
    ensures var last := states[|states| - 1]; Block(0, 101) in last.blocks && Matches(last, 100, 0, 101, PENDING) && !Inv(last)
  {
    hide IsRun, IsStep;
    states, ops := WriteTo(101);
    BlockTheLast();
    states, ops := ExtendRun(states, ops, BlockUser(0, 101, true), Apply(Written(101), BlockUser(0, 101, true)));
  }

  lemma BlockTheLast()
    ensures var s := Written(101); var after := Apply(s, BlockUser(0, 101, true));
      IsStep(s, BlockUser(0, 101, true), after) && Block(0, 101) in after.blocks &&
      Matches(after, 100, 0, 101, PENDING) && !Inv(after)
  {
    var s := Written(101);
    var after := Apply(s, BlockUser(0, 101, true));
    LettersAhead(s, 100, 100);
    assert !Evaluated(s, 100, LISTING_LIMIT);
    assert PendingBetween(after.requests[100], 0, 101) && !PairSound(after, 0, 101);
  }
}
