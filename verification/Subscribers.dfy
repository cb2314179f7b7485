/** What a subscriber to a node's state changes receives. */
module Subscribers {
  import opened Lifecycle

  datatype StateChange = StateChange(oldState: State, newState: State)

  const BUFFER_SIZE: nat := 16

  /** A subscriber's channel: what waits in it, what was read from it, and how many changes
      found it full. */
  datatype Mailbox = Mailbox(buffer: seq<StateChange>, received: seq<StateChange>, dropped: nat)

  function Offer(m: Mailbox, c: StateChange): Mailbox {
    if |m.buffer| < BUFFER_SIZE then m.(buffer := m.buffer + [c]) else m.(dropped := m.dropped + 1)
  }

  function Take(m: Mailbox): Mailbox {
    if m.buffer == [] then m
    else m.(buffer := m.buffer[1..], received := m.received + [m.buffer[0]])
  }

  /** What happens to a channel: a broadcast, or a read by the subscriber. */
  datatype MailOp = Offered(change: StateChange) | Taken

  function Handle(m: Mailbox, op: MailOp): Mailbox {
    match op
    case Offered(c) => Offer(m, c)
    case Taken => Take(m)
  }

  function Delivered(ops: seq<MailOp>): Mailbox {
    if ops == [] then Mailbox([], [], 0) else Handle(Delivered(ops[..|ops| - 1]), ops[|ops| - 1])
  }

  function Offers(ops: seq<MailOp>): seq<StateChange> {
    if ops == [] then [] else Offers(ops[..|ops| - 1]) + Offering(ops[|ops| - 1])
  }

  function Offering(op: MailOp): seq<StateChange> {
    if op.Offered? then [op.change] else []
  }

  predicate Subsequence(a: seq<StateChange>, b: seq<StateChange>) {
    a == [] ||
    (b != [] &&
     (Subsequence(a, b[..|b| - 1]) || (a[|a| - 1] == b[|b| - 1] && Subsequence(a[..|a| - 1], b[..|b| - 1]))))
  }

  lemma SubsequenceNext(a: seq<StateChange>, b: seq<StateChange>, c: StateChange)
    requires Subsequence(a, b)
    ensures Subsequence(a, b + [c]) && Subsequence(a + [c], b + [c])
  {
    assert (a + [c])[..|a|] == a && (b + [c])[..|b|] == b;
  }

  /** What was read, followed by what waits, is an in-order selection of the changes `cs`
      that misses exactly the dropped ones. */
  predicate InOrder(m: Mailbox, cs: seq<StateChange>) {
    var kept := m.received + m.buffer;
    && |m.buffer| <= BUFFER_SIZE
    && Subsequence(kept, cs)
    && |kept| + m.dropped == |cs|
    && (m.dropped == 0 ==> kept == cs)
  }

  lemma OfferKeepsOrder(m: Mailbox, cs: seq<StateChange>, c: StateChange)
    requires InOrder(m, cs)
    ensures InOrder(Offer(m, c), cs + [c])
  {
    hide Subsequence;
    SubsequenceNext(m.received + m.buffer, cs, c);
    assert m.received + (m.buffer + [c]) == (m.received + m.buffer) + [c];
  }

  lemma TakeKeepsOrder(m: Mailbox, cs: seq<StateChange>)
    requires InOrder(m, cs)
    ensures InOrder(Take(m), cs)
  {
    hide Subsequence;
    if m.buffer != [] {
      assert (m.received + [m.buffer[0]]) + m.buffer[1..] == m.received + m.buffer;
    }
  }

  /** However broadcasts and reads interleave, the buffer never exceeds its size and the
      subscriber gets an in-order selection of what was broadcast, all of it if the buffer
      was never full. */
  lemma {:induction false} DeliveredInOrder(ops: seq<MailOp>)
    ensures InOrder(Delivered(ops), Offers(ops))
  {
    if ops != [] {
      var init, op := ops[..|ops| - 1], ops[|ops| - 1];
      DeliveredInOrder(init);
      HandledInOrder(Delivered(init), Offers(init), op);
    }
  }

  lemma HandledInOrder(m: Mailbox, cs: seq<StateChange>, op: MailOp)
    requires InOrder(m, cs)
    ensures InOrder(Handle(m, op), cs + Offering(op))
  {
    hide InOrder, Offer, Take;
    match op
    case Offered(c) => OfferKeepsOrder(m, cs, c);
    case Taken =>
      assert cs + [] == cs;
      TakeKeepsOrder(m, cs);
  }

  /** The changes waiting in the channel after the first `k` operations. */
  function Waiting(ops: seq<MailOp>, k: nat): seq<StateChange>
    requires k <= |ops|
  {
    Delivered(ops[..k]).buffer
  }

  /** The k-th operation broadcasts a change while 16 are waiting. */
  predicate Overflows(ops: seq<MailOp>, k: nat) {
    k < |ops| && ops[k].Offered? && |Waiting(ops, k)| == 16
  }

  /** A broadcast with room puts its change last in the channel and drops nothing; one that
      finds 16 waiting drops it; a read takes the change that has waited longest. */
  lemma StepExactly(ops: seq<MailOp>, k: nat)
    requires k < |ops|
    ensures var m, n := Delivered(ops[..k]), Delivered(ops[..k + 1]);
            match ops[k]
            case Offered(c) =>
              && n.received == m.received
              && n.buffer == (if Overflows(ops, k) then m.buffer else m.buffer + [c])
              && n.dropped == m.dropped + if Overflows(ops, k) then 1 else 0
            case Taken =>
              && n.dropped == m.dropped
              && n.received + n.buffer == m.received + m.buffer
              && |n.received| == |m.received| + if m.buffer == [] then 0 else 1
  {
    DeliveredInOrder(ops[..k]);
    hide Subsequence;
    var m := Delivered(ops[..k]);
    assert ops[..k + 1][..k] == ops[..k] && ops[..k + 1][k] == ops[k];
    if ops[k].Taken? && m.buffer != [] {
      assert (m.received + [m.buffer[0]]) + m.buffer[1..] == m.received + m.buffer;
    }
  }

  /** Nothing is dropped if and only if no broadcast found 16 changes waiting, and then the
      subscriber has received, or has waiting, everything that was broadcast. */
  lemma {:induction false} NothingDroppedExactly(ops: seq<MailOp>)
    ensures Delivered(ops).dropped == 0 <==> forall k: nat :: !Overflows(ops, k)
    ensures (forall k: nat :: !Overflows(ops, k)) ==> Delivered(ops).received + Delivered(ops).buffer == Offers(ops)
  {
    hide Delivered, Offers, Subsequence;
    DeliveredInOrder(ops);
    if ops == [] {
      NothingDelivered();
    } else {
      var init := ops[..|ops| - 1];
      NothingDroppedExactly(init);
      StepExactly(ops, |init|);
      assert ops[..|init| + 1] == ops;
      assert Overflows(ops, |init|) ==> Delivered(ops).dropped > 0;
      forall k: nat | k < |init|
        ensures Overflows(ops, k) <==> Overflows(init, k)
      {
        assert init[..k] == ops[..k];
      }
    }
  }

  lemma NothingDelivered()
    ensures Delivered([]) == Mailbox([], [], 0)
  {
  }

  // ---- Changes along a run -----------------------------------------------------------

  function Change(from: State, to: State): seq<StateChange> {
    if from == to then [] else [StateChange(from, to)]
  }

  /** The changes that a walk through `states` from `start` broadcasts. */
  function Changes(start: State, states: seq<State>): seq<StateChange> {
    if states == [] then []
    else Changes(start, states[..|states| - 1]) + Change(LastState(start, states[..|states| - 1]), states[|states| - 1])
  }

  ghost predicate Chained(cs: seq<StateChange>) {
    forall i | 0 <= i < |cs| - 1 :: cs[i].newState == cs[i + 1].oldState
  }

  /** An unbroken chain of real changes from one state to another. */
  ghost predicate ChainsTo(from: State, cs: seq<StateChange>, to: State) {
    && Chained(cs)
    && (forall i | 0 <= i < |cs| :: cs[i].oldState != cs[i].newState)
    && (if cs == [] then from == to else cs[0].oldState == from && cs[|cs| - 1].newState == to)
  }

  lemma ChainsNext(from: State, cs: seq<StateChange>, mid: State, to: State)
    requires ChainsTo(from, cs, mid)
    ensures ChainsTo(from, cs + Change(mid, to), to)
  {
    if mid == to {
      assert cs + [] == cs;
    }
  }

  /** The changes of a walk lead unbroken from its first state to its last. */
  lemma {:induction false} ChangesChain(start: State, states: seq<State>)
    ensures ChainsTo(start, Changes(start, states), LastState(start, states))
  {
    hide ChainsTo, Change;
    if states == [] {
      NoChange(start);
    } else {
      var init := states[..|states| - 1];
      ChangesChain(start, init);
      ChainsNext(start, Changes(start, init), LastState(start, init), states[|states| - 1]);
    }
  }

  lemma NoChange(s: State)
    ensures ChainsTo(s, [], s)
  {
  }

  /** A subscriber that is sent any stretch of a run's changes, no broadcast of which finds
      16 changes waiting, reads an unbroken chain: each change starts from the state the one
      before it led to. */
  lemma RunReadsChain(cfg: Settings, startup: Startup, rounds: seq<Round>, i: nat, j: nat, ops: seq<MailOp>)
    requires i <= j <= |Changes(Init, Run(cfg, startup, rounds).states)|
    requires Offers(ops) == Changes(Init, Run(cfg, startup, rounds).states)[i..j]
    requires forall k: nat :: !Overflows(ops, k)
    ensures Delivered(ops).received + Delivered(ops).buffer == Changes(Init, Run(cfg, startup, rounds).states)[i..j]
    ensures Chained(Delivered(ops).received + Delivered(ops).buffer) && Chained(Delivered(ops).received)
  {
    hide Run, Delivered, Offers, Changes, Subsequence, Overflows;
    NothingDroppedExactly(ops);
    var cs := Changes(Init, Run(cfg, startup, rounds).states);
    ChangesChain(Init, Run(cfg, startup, rounds).states);
    assert forall k | 0 <= k < j - i :: cs[i..j][k] == cs[i + k];
    var m := Delivered(ops);
    assert forall k | 0 <= k < |m.received| :: m.received[k] == (m.received + m.buffer)[k];
  }

  // ---- Many subscribers --------------------------------------------------------------

  /** What happened to a channel since its subscription, made when `since` changes had been
      broadcast. */
  datatype Log = Log(since: nat, ops: seq<MailOp>)

  /** The channel was offered every change of the history since its subscription. */
  predicate Kept(m: Mailbox, log: Log, history: seq<StateChange>) {
    log.since <= |history| && m == Delivered(log.ops) && Offers(log.ops) == history[log.since..]
  }

  predicate AllKept(boxes: seq<Mailbox>, logs: seq<Log>, history: seq<StateChange>) {
    |boxes| == |logs| && forall i | 0 <= i < |boxes| :: Kept(boxes[i], logs[i], history)
  }

  /** The same subscriptions, each with what happened before and perhaps more. */
  ghost predicate Continues(before: seq<Log>, after: seq<Log>) {
    |before| == |after| && forall i | 0 <= i < |before| :: Extends(before[i], after[i])
  }

  predicate Extends(a: Log, b: Log) {
    a.since == b.since && a.ops <= b.ops
  }

  lemma ContinuesItself(a: seq<Log>)
    ensures Continues(a, a)
  {
  }

  lemma ContinuesThen(a: seq<Log>, b: seq<Log>, c: seq<Log>)
    requires Continues(a, b) && Continues(b, c)
    ensures Continues(a, c)
  {
    forall i | 0 <= i < |a|
      ensures Extends(a[i], c[i])
    {
      assert Extends(a[i], b[i]) && Extends(b[i], c[i]);
    }
  }

  lemma DeliveredNext(ops: seq<MailOp>, op: MailOp)
    ensures Delivered(ops + [op]) == Handle(Delivered(ops), op)
    ensures Offers(ops + [op]) == Offers(ops) + Offering(op)
  {
    hide Handle, Offering;
    assert (ops + [op])[..|ops|] == ops;
  }

  lemma KeptAfter(m: Mailbox, log: Log, history: seq<StateChange>, op: MailOp)
    requires Kept(m, log, history)
    ensures Kept(Handle(m, op), log.(ops := log.ops + [op]), history + Offering(op))
  {
    hide Handle, Delivered, Offers, Offering;
    DeliveredNext(log.ops, op);
    assert (history + Offering(op))[log.since..] == history[log.since..] + Offering(op);
  }

  lemma ChangesNext(start: State, states: seq<State>, s: State)
    ensures Changes(start, states + [s]) == Changes(start, states) + Change(LastState(start, states), s)
  {
    assert (states + [s])[..|states|] == states;
  }
}
