/**
 * Sends with one client message id: any number of calls for the same conversation, sender and id,
 * interleaved step by step. The repository's reservation is atomic and is never released.
 */
module SendProtocol {
  import opened Wrappers
  import opened SendContent

  type CallId = nat
  type MessageId = nat

  const ATTEMPTS := 10

  /** Where a call stands; `batch` is the messages it would insert. */
  datatype Phase =
    | Looking
    | Reserving
    | Inserting(done: nat)
    | Raised
    | Waiting(attempts: nat)
    | Returned(messages: seq<MessageId>)
    | Failed
    | Crashed

  datatype Call = Call(batch: seq<MessageId>, phase: Phase)

  /** The stored messages with the key in the order they were inserted, and the reservation record. */
  datatype Store = Store(
    calls: map<CallId, Call>,
    reserved: Option<CallId>,
    inserted: seq<MessageId>,
    completed: seq<MessageId>,
    unreadRaises: nat
  )

  datatype Step =
    | Begin(id: CallId, batch: seq<MessageId>)
    | Look(id: CallId)
    | Reserve(id: CallId)
    | Insert(id: CallId)
    | RaiseUnread(id: CallId)
    | Complete(id: CallId)
    | Poll(id: CallId)
    | GiveUp(id: CallId)
    | Crash(id: CallId)

  /** The completed batch when it is recorded, and otherwise whatever is stored under the key so far. */
  function FindByClientMessageId(s: Store): seq<MessageId> {
    if s.completed != [] then s.completed else s.inserted
  }

  predicate Enabled(s: Store, step: Step) {
    match step
    case Begin(id, batch) => id !in s.calls && batch != []
    case Look(id) => id in s.calls && s.calls[id].phase.Looking?
    case Reserve(id) => id in s.calls && s.calls[id].phase.Reserving?
    case Insert(id) => id in s.calls && s.calls[id].phase.Inserting? && s.calls[id].phase.done < |s.calls[id].batch|
    case RaiseUnread(id) => id in s.calls && s.calls[id].phase.Inserting? && s.calls[id].phase.done == |s.calls[id].batch|
    case Complete(id) => id in s.calls && s.calls[id].phase.Raised?
    case Poll(id) => id in s.calls && s.calls[id].phase.Waiting? && s.calls[id].phase.attempts < ATTEMPTS
    case GiveUp(id) => id in s.calls && s.calls[id].phase.Waiting? && s.calls[id].phase.attempts == ATTEMPTS
    case Crash(id) => id in s.calls && !s.calls[id].phase.Returned? && !s.calls[id].phase.Failed?
  }

  function MoveTo(s: Store, id: CallId, p: Phase): Store
    requires id in s.calls
  {
    s.(calls := s.calls[id := s.calls[id].(phase := p)])
  }

  function Apply(s: Store, step: Step): Store
    requires Enabled(s, step)
  {
    match step
    case Begin(id, batch) => s.(calls := s.calls[id := Call(batch, Looking)])
    case Look(id) => MoveTo(s, id, if FindByClientMessageId(s) != [] then Waiting(0) else Reserving)
    case Reserve(id) =>
      if s.reserved.Some? then MoveTo(s, id, Waiting(0))
      else MoveTo(s, id, Inserting(0)).(reserved := Some(id))
    case Insert(id) =>
      var call := s.calls[id];
      MoveTo(s, id, Inserting(call.phase.done + 1)).(inserted := s.inserted + [call.batch[call.phase.done]])
    case RaiseUnread(id) => MoveTo(s, id, Raised).(unreadRaises := s.unreadRaises + 1)
    case Complete(id) => MoveTo(s, id, Returned(s.calls[id].batch)).(completed := s.calls[id].batch)
    case Poll(id) =>
      var found := FindByClientMessageId(s);
      MoveTo(s, id, if found != [] then Returned(found) else Waiting(s.calls[id].phase.attempts + 1))
    case GiveUp(id) => MoveTo(s, id, Failed)
    case Crash(id) => MoveTo(s, id, Crashed)
  }

  const EMPTY := Store(map[], None, [], [], 0)

  ghost predicate IsRun(states: seq<Store>, steps: seq<Step>) {
    |states| == |steps| + 1 && states[0] == EMPTY &&
    forall i :: 0 <= i < |steps| ==> IsStep(states[i], steps[i], states[i + 1])
  }

  ghost predicate IsStep(s: Store, step: Step, after: Store) {
    Enabled(s, step) && after == Apply(s, step)
  }

  // ---------- The invariant ----------

  predicate PastReservation(p: Phase) {
    p.Inserting? || p.Raised?
  }

  /** Nothing is stored, or the reserving call's batch is stored up to where that call has come. */
  ghost predicate StoreSound(s: Store) {
    match s.reserved
    case None => s.inserted == [] && s.completed == [] && s.unreadRaises == 0
    case Some(w) =>
      w in s.calls && s.inserted <= s.calls[w].batch && s.unreadRaises <= 1 &&
      (s.unreadRaises == 1 ==> s.inserted == s.calls[w].batch) &&
      (s.completed != [] ==> s.completed == s.inserted == s.calls[w].batch && s.unreadRaises == 1) &&
      match s.calls[w].phase
      case Inserting(done) => |s.inserted| == done && s.unreadRaises == 0 && s.completed == []
      case Raised => s.unreadRaises == 1 && s.completed == []
      case Returned(messages) => messages == s.calls[w].batch == s.completed && s.unreadRaises == 1
      case Crashed => true
      case Looking => false
      case Reserving => false
      case Waiting(_) => false
      case Failed => false
  }

  /** Only the reserving call writes, and what any call returned is a non-empty part of the reserved batch. */
  ghost predicate CallSound(s: Store, id: CallId) {
    id in s.calls ==>
      s.calls[id].batch != [] &&
      (PastReservation(s.calls[id].phase) ==> s.reserved == Some(id)) &&
      (s.calls[id].phase.Waiting? ==> s.calls[id].phase.attempts <= ATTEMPTS) &&
      (s.calls[id].phase.Returned? ==>
        s.reserved.Some? && s.calls[id].phase.messages != [] && s.calls[id].phase.messages <= s.inserted)
  }

  ghost predicate Inv(s: Store) {
    StoreSound(s) && forall id {:trigger CallSound(s, id)} :: CallSound(s, id)
  }

  lemma StepKeepsStore(s: Store, step: Step)
    requires Inv(s) && Enabled(s, step)
    ensures StoreSound(Apply(s, step))
  {
    assert CallSound(s, step.id);
  }

  lemma StepKeepsCall(s: Store, step: Step, id: CallId)
    requires Inv(s) && Enabled(s, step)
    ensures CallSound(Apply(s, step), id)
  {
    assert CallSound(s, step.id) && CallSound(s, id);
    match step
    case Complete(c) => assert s.reserved == Some(c);
    case Poll(c) =>
    case Begin(_, _) =>
    case Look(_) =>
    case Reserve(_) =>
    case Insert(_) =>
    case RaiseUnread(_) =>
    case GiveUp(_) =>
    case Crash(_) =>
  }

  lemma StepKeepsInv(s: Store, step: Step)
    requires Inv(s) && Enabled(s, step)
    ensures Inv(Apply(s, step))
  {
    hide StoreSound, CallSound, Enabled, Apply;
    StepKeepsStore(s, step);
    forall id ensures CallSound(Apply(s, step), id) { StepKeepsCall(s, step, id); }
  }

  lemma {:induction false} ReachableStatesKeepInv(states: seq<Store>, steps: seq<Step>)
    requires IsRun(states, steps)
    ensures forall i :: 0 <= i < |states| ==> Inv(states[i])
  {
    hide Inv, Enabled, Apply;
    if steps == [] {
      assert Inv(EMPTY) by { EmptyIsSound(); }
    } else {
      var n := |steps| - 1;
      assert IsRun(states[..n + 1], steps[..n]);
      ReachableStatesKeepInv(states[..n + 1], steps[..n]);
      assert Inv(states[..n + 1][n]);
      assert IsStep(states[n], steps[n], states[n + 1]);
      StepKeepsInv(states[n], steps[n]);
      forall i | 0 <= i < |states| ensures Inv(states[i]) {
        if i <= n { assert Inv(states[..n + 1][i]); }
      }
    }
  }

  lemma EmptyIsSound()
    ensures Inv(EMPTY)
  {}

  // ---------- Safety over runs ----------

  predicate Inserts(step: Step, id: CallId) {
    (step.Insert? || step.RaiseUnread?) && step.id == id
  }

  /** The reservation, once made, stays with the call that made it, whose batch is fixed. */
  lemma {:induction false} ReservationStays(states: seq<Store>, steps: seq<Step>, i: nat, j: nat)
    requires IsRun(states, steps) && i <= j < |states| && states[i].reserved.Some?
    ensures states[j].reserved == states[i].reserved
    ensures forall id :: id in states[i].calls ==> id in states[j].calls && states[j].calls[id].batch == states[i].calls[id].batch
    ensures states[i].inserted <= states[j].inserted
    decreases j
  {
    if i < j {
      ReservationStays(states, steps, i, j - 1);
      assert IsStep(states[j - 1], steps[j - 1], states[j]);
    }
  }

  lemma InsertingIsReserving(s: Store, step: Step)
    requires Inv(s) && Enabled(s, step) && Inserts(step, step.id)
    ensures s.reserved == Some(step.id)
  {
    assert CallSound(s, step.id);
  }

  /** At most one call ever inserts messages or raises unread counts, whatever the interleaving. */
  lemma OneCallInserts(states: seq<Store>, steps: seq<Step>, i: nat, j: nat)
    requires IsRun(states, steps) && i <= j < |steps|
    requires Inserts(steps[i], steps[i].id) && Inserts(steps[j], steps[j].id)
    ensures steps[i].id == steps[j].id
  {
    hide Inv, Apply, Enabled;
    ReachableStatesKeepInv(states, steps);
    assert IsStep(states[i], steps[i], states[i + 1]) && IsStep(states[j], steps[j], states[j + 1]);
    InsertingIsReserving(states[i], steps[i]);
    InsertingIsReserving(states[j], steps[j]);
    ReservationStays(states, steps, i, j);
  }

  /** In every reachable state unread counts were raised at most once, and what is stored is a part of one batch. */
  lemma UnreadRaisedOnce(states: seq<Store>, steps: seq<Step>, i: nat)
    requires IsRun(states, steps) && i < |states|
    ensures states[i].unreadRaises <= 1
    ensures states[i].reserved.Some? ==>
      states[i].reserved.value in states[i].calls && states[i].inserted <= states[i].calls[states[i].reserved.value].batch
    ensures states[i].reserved.None? ==> states[i].inserted == []
  {
    ReachableStatesKeepInv(states, steps);
    assert Inv(states[i]);
  }

  /** Two calls that return, at whatever points of the run, return comparable parts of one and the same batch. */
  lemma ReturnsArePrefixesOfOneBatch(states: seq<Store>, steps: seq<Step>, i: nat, id: CallId)
    requires IsRun(states, steps) && i < |states|
    requires id in states[i].calls && states[i].calls[id].phase.Returned?
    ensures states[i].reserved.Some? && states[i].reserved.value in states[i].calls
    ensures var winner, messages := states[i].reserved.value, states[i].calls[id].phase.messages;
      messages != [] && messages <= states[i].calls[winner].batch &&
      (id == winner ==> messages == states[i].calls[winner].batch)
  {
    ReachableStatesKeepInv(states, steps);
    assert Inv(states[i]) && CallSound(states[i], id);
  }

  /** A waiting call is handed what the winner has inserted by then, or the whole batch once it is recorded. */
  lemma WaiterGetsWhatIsInserted(states: seq<Store>, steps: seq<Step>, i: nat)
    requires IsRun(states, steps) && i < |steps| && steps[i].Poll?
    requires FindByClientMessageId(states[i]) != []
    ensures states[i].reserved.Some? && states[i].reserved.value in states[i].calls
    ensures steps[i].id in states[i + 1].calls && states[i + 1].calls[steps[i].id].phase == Returned(states[i].inserted)
    ensures states[i].completed != [] ==> states[i].inserted == states[i].calls[states[i].reserved.value].batch
  {
    ReachableStatesKeepInv(states, steps);
    assert Inv(states[i]) && IsStep(states[i], steps[i], states[i + 1]);
  }

  /** Once the winner has returned, every later answer is its whole batch, and no call inserts any more. */
  lemma AfterTheWinnerReturned(states: seq<Store>, steps: seq<Step>, i: nat, winner: CallId)
    requires IsRun(states, steps) && i < |states| && states[i].reserved == Some(winner)
    requires winner in states[i].calls && states[i].calls[winner].phase.Returned?
    ensures FindByClientMessageId(states[i]) == states[i].calls[winner].batch
    ensures forall step :: Enabled(states[i], step) ==> !Inserts(step, step.id) && !step.Complete?
  {
    ReachableStatesKeepInv(states, steps);
    var s := states[i];
    assert Inv(s);
    assert CallSound(s, winner);
    forall step | Enabled(s, step) ensures !Inserts(step, step.id) && !step.Complete? {
      assert CallSound(s, step.id);
    }
  }

  lemma ExtendRun(states: seq<Store>, steps: seq<Step>, step: Step, after: Store) returns (longer: seq<Store>, more: seq<Step>)
    requires IsRun(states, steps) && IsStep(states[|states| - 1], step, after)
    ensures longer == states + [after] && more == steps + [step] && IsRun(longer, more)
  {
    hide IsStep;
    longer, more := states + [after], steps + [step];
    forall i | 0 <= i < |more| ensures IsStep(longer[i], more[i], longer[i + 1]) {
      if i < |steps| { assert IsStep(states[i], steps[i], states[i + 1]); }
    }
  }

  /** A run in which call 1 has reserved its messages and inserted the first. */
  lemma FirstInserted(b: seq<MessageId>) returns (states: seq<Store>, steps: seq<Step>)
    requires b != []
    ensures IsRun(states, steps)
    ensures states[|states| - 1] == Store(map[1 := Call(b, Inserting(1))], Some(1), [b[0]], [], 0)
  {
    hide IsRun;
    assert IsRun([EMPTY], []) by { EmptyRun(); }
    states, steps := ExtendRun([EMPTY], [], Begin(1, b), Store(map[1 := Call(b, Looking)], None, [], [], 0));
    states, steps := ExtendRun(states, steps, Look(1), Store(map[1 := Call(b, Reserving)], None, [], [], 0));
    states, steps := ExtendRun(states, steps, Reserve(1), Store(map[1 := Call(b, Inserting(0))], Some(1), [], [], 0));
    states, steps := ExtendRun(states, steps, Insert(1), Store(map[1 := Call(b, Inserting(1))], Some(1), [b[0]], [], 0));
  }

  lemma EmptyRun()
    ensures IsRun([EMPTY], [])
  {}

  lemma RunLength(states: seq<Store>, steps: seq<Step>)
    requires IsRun(states, steps)
    ensures |states| == |steps| + 1
  {}

  /** A waiter can be handed the first message alone: it polls right after the winner's first insert. */
  lemma WaiterMayGetOne(b: seq<MessageId>) returns (states: seq<Store>, steps: seq<Step>)
    requires b != []
    ensures IsRun(states, steps) && IsAnswer(states[|states| - 1], b, 2, [b[0]])
  {
    hide IsRun;
    var winner := Call(b, Inserting(1));
    states, steps := FirstInserted(b);
    states, steps := ExtendRun(states, steps, Begin(2, b), Store(map[1 := winner, 2 := Call(b, Looking)], Some(1), [b[0]], [], 0));
    states, steps := ExtendRun(states, steps, Look(2), Store(map[1 := winner, 2 := Call(b, Waiting(0))], Some(1), [b[0]], [], 0));
    states, steps := ExtendRun(states, steps, Poll(2), Store(map[1 := winner, 2 := Call(b, Returned([b[0]]))], Some(1), [b[0]], [], 0));
  }

  /** Call `id` has returned `answer` in a state whose reserving call sends `b`. */
  predicate IsAnswer(s: Store, b: seq<MessageId>, id: CallId, answer: seq<MessageId>) {
    s.reserved.Some? && s.reserved.value in s.calls && s.calls[s.reserved.value].batch == b &&
    id in s.calls && s.calls[id].phase == Returned(answer)
  }

  ghost predicate EveryAnswerIsWhole(b: seq<MessageId>) {
    forall states: seq<Store>, steps: seq<Step>, i: nat, id: CallId, answer: seq<MessageId> ::
      IsRun(states, steps) && i < |states| && IsAnswer(states[i], b, id, answer) ==> answer == b
  }

  /** Every answer of every call in every run is the winner's whole batch exactly when that batch is one message. */
  lemma AnswersAreWholeIff(b: seq<MessageId>)
    requires b != []
    ensures EveryAnswerIsWhole(b) <==> |b| == 1
  {
    hide IsRun;
    if |b| == 1 {
      forall states: seq<Store>, steps: seq<Step>, i: nat, id: CallId, answer: seq<MessageId> |
        IsRun(states, steps) && i < |states| && IsAnswer(states[i], b, id, answer)
        ensures answer == b
      {
        ReturnsArePrefixesOfOneBatch(states, steps, i, id);
        assert answer == b[..|answer|];
      }
    } else {
      var states, steps := WaiterMayGetOne(b);
      assert |states| > 0 by { RunLength(states, steps); }
      assert IsAnswer(states[|states| - 1], b, 2, [b[0]]) && [b[0]] != b;
    }
  }

  /** So repeating a send is answered in full, whatever the interleaving, when it has at most one attachment and no link beside one. */
  lemma SendIsAnsweredInFullIff(text: Option<string>, hasLinks: bool, media: seq<Media>, b: seq<MessageId>)
    requires |b| == |Split(text, hasLinks, media)|
    ensures EveryAnswerIsWhole(b) <==> media == [] || (|media| == 1 && !hasLinks)
  {
    hide EveryAnswerIsWhole;
    AnswersAreWholeIff(b);
    SplitIsOneIff(text, hasLinks, media);
  }

  // ---------- Giving up ----------

  /** How often the call has polled in the first `n` steps. */
  function Polls(steps: seq<Step>, n: nat, id: CallId): nat
    requires n <= |steps|
  {
    if n == 0 then 0 else Polls(steps, n - 1, id) + if steps[n - 1] == Poll(id) then 1 else 0
  }

  ghost predicate PollsCounted(s: Store, polls: nat, id: CallId) {
    (id !in s.calls ==> polls == 0) &&
    (id in s.calls ==>
       match s.calls[id].phase
       case Waiting(attempts) => polls == attempts <= 10
       case Failed => polls == 10
       case Returned(_) => polls <= 10
       case Crashed => polls <= 10
       case Looking => polls == 0
       case Reserving => polls == 0
       case Inserting(_) => polls == 0
       case Raised => polls == 0)
  }

  /** A call gives up after exactly ten polls, and none polls more often. */
  lemma {:induction false} GivesUpAfterTenPolls(states: seq<Store>, steps: seq<Step>, i: nat, id: CallId)
    requires IsRun(states, steps) && i < |states|
    ensures PollsCounted(states[i], Polls(steps, i, id), id)
  {
    hide PollsCounted, Apply, Enabled;
    if i == 0 {
      assert PollsCounted(EMPTY, 0, id) by { NothingPolled(id); }
    } else {
      GivesUpAfterTenPolls(states, steps, i - 1, id);
      assert IsStep(states[i - 1], steps[i - 1], states[i]);
      PollIsCounted(states[i - 1], steps[i - 1], Polls(steps, i - 1, id), id);
    }
  }

  lemma NothingPolled(id: CallId)
    ensures PollsCounted(EMPTY, 0, id)
  {}

  lemma PollIsCounted(s: Store, step: Step, polls: nat, id: CallId)
    requires Enabled(s, step) && PollsCounted(s, polls, id)
    ensures PollsCounted(Apply(s, step), polls + (if step == Poll(id) then 1 else 0), id)
  {}

  predicate IsOver(p: Phase) {
    p.Returned? || p.Failed? || p.Crashed?
  }

  /** What a call has answered stays its answer, and a call that is not over can crash at any time. */
  lemma AnswersStay(s: Store, step: Step, id: CallId)
    requires Enabled(s, step) && id in s.calls
    ensures (s.calls[id].phase.Returned? || s.calls[id].phase.Failed?) ==> Apply(s, step).calls[id] == s.calls[id]
    ensures !IsOver(s.calls[id].phase) ==> Enabled(s, Crash(id)) && Apply(s, Crash(id)).calls[id].phase == Crashed
  {}

  // ---------- The waiting loop ----------

  datatype SendError = InProgress

  /** `answers` is what the repository returns at each attempt. */
  method WaitForClientMessages(answers: seq<seq<MessageId>>) returns (r: Result<seq<MessageId>, SendError>)
    requires |answers| == ATTEMPTS
    ensures r.Success? ==> r.value != [] && exists k: nat :: FirstAnswer(answers, k) && r.value == answers[k]
    ensures r.Failure? <==> forall k :: 0 <= k < ATTEMPTS ==> answers[k] == []
  {
    var attempt := 0;
    while attempt < ATTEMPTS
      invariant 0 <= attempt <= ATTEMPTS
      invariant forall k :: 0 <= k < attempt ==> answers[k] == []
    {
      var existing := answers[attempt];
      if |existing| > 0 {
        assert FirstAnswer(answers, attempt);
        return Success(existing);
      }
      attempt := attempt + 1;
    }
    return Failure(InProgress);
  }

  ghost predicate FirstAnswer(answers: seq<seq<MessageId>>, k: nat) {
    k < |answers| && answers[k] != [] && forall j :: 0 <= j < k ==> answers[j] == []
  }
}
