/** One node's bootstrap run as a function of what the world answers, and the laws of its
    state trace, its backoff and its bootstrap flag. */
module Lifecycle {
  import opened Options
  import opened Mdns

  datatype State =
    | Init | MDNSAdvertiserUp | GossipUp | Discovering | Joining | Bootstrapping | Retrying | Running | Failed

  datatype Settings = Settings(nodeID: string, canBootstrap: bool, maxDiscoveryRetries: nat)

  // ---- Backoff -------------------------------------------------------------------

  /** Durations are in nanoseconds. */
  const INITIAL_BACKOFF: nat := 250_000_000
  const MAX_BACKOFF: nat := 15_000_000_000
  const JITTER_FACTOR: real := 0.5

  function NextBackoff(current: nat): nat {
    if current * 2 > MAX_BACKOFF then MAX_BACKOFF else current * 2
  }

  /** The backoff before the k-th wait, as the loop computes it. */
  function BackoffAt(k: nat): nat {
    if k == 0 then INITIAL_BACKOFF else NextBackoff(BackoffAt(k - 1))
  }

  function Pow2(k: nat): nat {
    if k == 0 then 1 else 2 * Pow2(k - 1)
  }

  /** The smaller of 250 ms * 2^k and 15 s. */
  function Capped(k: nat): nat {
    if 250_000_000 * Pow2(k) < 15_000_000_000 then 250_000_000 * Pow2(k) else 15_000_000_000
  }

  /** The backoff doubles from 250 ms and stays at 15 s once it gets there. */
  lemma {:induction false} BackoffDoubles(k: nat)
    ensures BackoffAt(k) == Capped(k)
  {
    if k > 0 {
      BackoffDoubles(k - 1);
    }
  }

  /** What `rand.Float64` may return. */
  type Fraction = x: real | 0.0 <= x < 1.0 witness 0.0

  /** How long a wait lasts: the backoff and its jitter, unless it is cut short. */
  function Waited(backoff: nat, jitter: Fraction, cutShort: Option<real>): real {
    var full := backoff as real + backoff as real * JITTER_FACTOR * jitter;
    if cutShort.Some? && cutShort.value < full then (if cutShort.value < 0.0 then 0.0 else cutShort.value) else full
  }

  lemma Scaled(x: real, fraction: Fraction)
    requires 0.0 <= x
    ensures 0.0 <= x * fraction <= x
  {
    assert x - x * fraction == x * (1.0 - fraction);
  }

  lemma WaitedBounds(backoff: nat, jitter: Fraction, cutShort: Option<real>)
    ensures 0.0 <= Waited(backoff, jitter, cutShort) <= 1.5 * backoff as real
    ensures cutShort.None? ==> Waited(backoff, jitter, cutShort) >= backoff as real
  {
    var half := backoff as real * JITTER_FACTOR;
    assert half == backoff as real * 0.5;
    Scaled(half, jitter);
    var full := backoff as real + half * jitter;
    assert backoff as real <= full <= 1.5 * backoff as real;
    assert Waited(backoff, jitter, cutShort) == full || (cutShort.Some? && 0.0 <= Waited(backoff, jitter, cutShort) < full);
  }

  // ---- Discovery -----------------------------------------------------------------

  datatype GossipMember = GossipMember(id: string, bootstrapped: bool)

  /** What the discoverer and, on the address-only path, gossip report. */
  datatype DiscoveryReply =
    | NoDiscoverer
    | Broken
    | Peers(peers: seq<PeerInfo>)
    | Addresses(addrs: seq<string>, joined: bool, members: seq<GossipMember>)

  datatype Discovery = Discovery(addrs: seq<string>, bootstrapped: bool)

  function PeerAddresses(peers: seq<PeerInfo>): seq<string> {
    if peers == [] then [] else PeerAddresses(peers[..|peers| - 1]) + [peers[|peers| - 1].address]
  }

  function Discovered(self: string, reply: DiscoveryReply): Discovery {
    match reply
    case NoDiscoverer => Discovery([], false)
    case Broken => Discovery([], false)
    case Peers(peers) => Discovery(PeerAddresses(peers), exists p | p in peers :: p.bootstrapped)
    case Addresses(addrs, joined, members) =>
      Discovery(addrs, addrs != [] && joined && |members| > 1 && exists m | m in members :: m.id != self && m.bootstrapped)
  }

  // ---- The loop ------------------------------------------------------------------

  datatype Signal = Proceed | ContextDone | StopRequested

  /** What one turn of the loop meets: the signal at its top, the discovery, whether the
      join succeeds, whether the slot wait completes, the recheck, whether gossip has other
      members by then, and the wait should the turn end in a retry. */
  datatype Round = Round(
    signal: Signal,
    found: DiscoveryReply,
    joinOk: bool,
    slot: bool,
    recheck: DiscoveryReply,
    others: bool,
    jitter: Fraction,
    cutShort: Option<real>)

  /** How a run stands when the turns given have been used up. */
  datatype End = Joined | Bootstrapped | Exhausted | Cancelled | Stopped | StartupFailed | Open

  datatype Result = Result(states: seq<State>, end: End, waits: seq<real>)

  predicate FoundCluster(cfg: Settings, r: Round) {
    var d := Discovered(cfg.nodeID, r.found);
    d.bootstrapped && d.addrs != []
  }

  predicate ShouldBootstrap(cfg: Settings, r: Round) {
    r.slot && !Discovered(cfg.nodeID, r.recheck).bootstrapped && !r.others
  }

  predicate ShouldFail(cfg: Settings, attempt: nat) {
    cfg.maxDiscoveryRetries != 0 && attempt >= cfg.maxDiscoveryRetries
  }

  /** The states of a turn that ends in a retry. */
  function Retried(joining: bool): seq<State> {
    if joining then [Discovering, Joining, Retrying] else [Discovering, Retrying]
  }

  /** The loop from its `attempt`-th turn on, over the turns in `rounds`. */
  function RunFrom(cfg: Settings, rounds: seq<Round>, attempt: nat, backoff: nat): Result
    decreases |rounds|, 1
  {
    if rounds == [] then Result([], Open, [])
    else
      var r := rounds[0];
      if r.signal.ContextDone? then Result([Failed], Cancelled, [])
      else if r.signal.StopRequested? then Result([], Stopped, [])
      else if FoundCluster(cfg, r) then
        if r.joinOk then Result([Discovering, Joining, Running], Joined, [])
        else Retry(cfg, rounds, attempt, backoff, Retried(true))
      else if cfg.canBootstrap && ShouldBootstrap(cfg, r) then
        Result([Discovering, Bootstrapping, Running], Bootstrapped, [])
      else Retry(cfg, rounds, attempt, backoff, Retried(false))
  }

  /** A turn that visited `turn` gives up or waits and goes round again. */
  function Retry(cfg: Settings, rounds: seq<Round>, attempt: nat, backoff: nat, turn: seq<State>): Result
    requires rounds != []
    decreases |rounds|, 0
  {
    if ShouldFail(cfg, attempt + 1) then Result(turn + [Failed], Exhausted, [])
    else
      var r := rounds[0];
      var rest := RunFrom(cfg, rounds[1..], attempt + 1, NextBackoff(backoff));
      Result(turn + rest.states, rest.end, [Waited(backoff, r.jitter, r.cutShort)] + rest.waits)
  }

  /** What the loop does from a turn that proceeds. */
  lemma TurnCases(cfg: Settings, rounds: seq<Round>, attempt: nat, backoff: nat)
    requires rounds != []
    ensures var r := rounds[0];
            var result := RunFrom(cfg, rounds, attempt, backoff);
            && (r.signal.ContextDone? ==> result == Result([Failed], Cancelled, []))
            && (r.signal.StopRequested? ==> result == Result([], Stopped, []))
            && (r.signal.Proceed? && FoundCluster(cfg, r) && r.joinOk ==>
                  result == Result([Discovering, Joining, Running], Joined, []))
            && (r.signal.Proceed? && FoundCluster(cfg, r) && !r.joinOk ==>
                  result == Retry(cfg, rounds, attempt, backoff, Retried(true)))
            && (r.signal.Proceed? && !FoundCluster(cfg, r) && cfg.canBootstrap && ShouldBootstrap(cfg, r) ==>
                  result == Result([Discovering, Bootstrapping, Running], Bootstrapped, []))
            && (r.signal.Proceed? && !FoundCluster(cfg, r) && !(cfg.canBootstrap && ShouldBootstrap(cfg, r)) ==>
                  result == Retry(cfg, rounds, attempt, backoff, Retried(false)))
  {
    hide FoundCluster, ShouldBootstrap, Retry;
  }

  /** What fails to come up: the advertiser's server, gossip, or the server restarted with
      the bootstrapped flag. */
  datatype Startup = Startup(advertiserFails: bool, gossipFails: bool, restartFails: bool)

  function Run(cfg: Settings, startup: Startup, rounds: seq<Round>): Result {
    if startup.advertiserFails then Result([Failed], StartupFailed, [])
    else if startup.gossipFails then Result([MDNSAdvertiserUp, Failed], StartupFailed, [])
    else
      var rest := RunFrom(cfg, rounds, 0, INITIAL_BACKOFF);
      rest.(states := [MDNSAdvertiserUp, GossipUp] + rest.states)
  }

  // ---- The shape of a trace --------------------------------------------------------

  /** The states of failed turns; each says whether it got as far as joining. */
  function Turns(turns: seq<bool>): seq<State> {
    if turns == [] then []
    else Retried(turns[0]) + Turns(turns[1..])
  }

  function Tail(end: End): seq<State> {
    match end
    case Joined => [Discovering, Joining, Running]
    case Bootstrapped => [Discovering, Bootstrapping, Running]
    case Exhausted => [Failed]
    case Cancelled => [Failed]
    case StartupFailed => [Failed]
    case Stopped => []
    case Open => []
  }

  function Count(states: seq<State>, s: State): nat {
    if states == [] then 0 else (if states[0] == s then 1 else 0) + Count(states[1..], s)
  }

  /** The loop's trace is its failed turns, then the tail its end dictates; every failed
      turn but a last one that gives up is followed by a wait. */
  ghost predicate Shaped(r: Result, turns: seq<bool>) {
    && r.states == Turns(turns) + Tail(r.end)
    && |r.waits| + (if r.end.Exhausted? then 1 else 0) == |turns|
    && r.end != StartupFailed
  }

  /** The law of a loop that made `turns` in at most `given` turns from its `attempt`-th. */
  ghost predicate Lawful(cfg: Settings, given: nat, attempt: nat, r: Result, turns: seq<bool>) {
    && Shaped(r, turns) && |turns| <= given
    && (cfg.maxDiscoveryRetries > attempt ==>
          && attempt + |turns| <= cfg.maxDiscoveryRetries
          && (r.end.Exhausted? <==> attempt + |turns| == cfg.maxDiscoveryRetries))
    && (r.end.Exhausted? ==> cfg.maxDiscoveryRetries > 0)
    && (r.end.Open? ==> |turns| == given)
    && (r.end.Joined? || r.end.Bootstrapped? || r.end.Stopped? || r.end.Cancelled? ==> |turns| < given)
  }

  lemma LastTurn(cfg: Settings, given: nat, attempt: nat, end: End)
    requires if given == 0 then end.Open? else end in {Joined, Bootstrapped, Stopped, Cancelled}
    ensures Lawful(cfg, given, attempt, Result(Tail(end), end, []), [])
  {
    assert [] + Tail(end) == Tail(end);
  }

  lemma TurnGivesUp(cfg: Settings, given: nat, attempt: nat, found: bool)
    requires given > 0 && ShouldFail(cfg, attempt + 1)
    ensures Lawful(cfg, given, attempt, Result(Retried(found) + [Failed], Exhausted, []), [found])
  {
    hide Retried;
    assert [found][1..] == [] && Turns([found]) == Retried(found) + Turns([]);
    assert Retried(found) + [] + [Failed] == Retried(found) + [Failed];
  }

  lemma TurnRetries(cfg: Settings, given: nat, attempt: nat, found: bool, wait: real, rest: Result, turns: seq<bool>)
    requires !ShouldFail(cfg, attempt + 1) && Lawful(cfg, given, attempt + 1, rest, turns)
    ensures Lawful(cfg, given + 1, attempt, Result(Retried(found) + rest.states, rest.end, [wait] + rest.waits), [found] + turns)
  {
    hide Retried, Tail;
    assert ([found] + turns)[1..] == turns;
    assert Retried(found) + Turns(turns) + Tail(rest.end) == Retried(found) + (Turns(turns) + Tail(rest.end));
  }

  lemma {:induction false} LoopShape(cfg: Settings, rounds: seq<Round>, attempt: nat, backoff: nat) returns (turns: seq<bool>)
    ensures Lawful(cfg, |rounds|, attempt, RunFrom(cfg, rounds, attempt, backoff), turns)
    decreases |rounds|
  {
    hide FoundCluster, ShouldBootstrap, Waited, NextBackoff, Lawful, ShouldFail, Retried;
    var result := RunFrom(cfg, rounds, attempt, backoff);
    turns := [];
    if rounds == [] {
      LastTurn(cfg, 0, attempt, Open);
    } else {
      TurnCases(cfg, rounds, attempt, backoff);
      var found := FoundCluster(cfg, rounds[0]);
      if result != Retry(cfg, rounds, attempt, backoff, Retried(found)) {
        LastTurn(cfg, |rounds|, attempt, result.end);
      } else if ShouldFail(cfg, attempt + 1) {
        TurnGivesUp(cfg, |rounds|, attempt, found);
        turns := [found];
      } else {
        var r := rounds[0];
        var rest := LoopShape(cfg, rounds[1..], attempt + 1, NextBackoff(backoff));
        TurnRetries(cfg, |rounds| - 1, attempt, found, Waited(backoff, r.jitter, r.cutShort),
                    RunFrom(cfg, rounds[1..], attempt + 1, NextBackoff(backoff)), rest);
        turns := [found] + rest;
      }
    }
  }

  lemma {:induction false} TurnsCount(turns: seq<bool>, tail: seq<State>)
    ensures Count(Turns(turns) + tail, Discovering) == |turns| + Count(tail, Discovering)
  {
    if turns == [] {
      assert Turns(turns) + tail == tail;
    } else {
      var turn := if turns[0] then [Discovering, Joining, Retrying] else [Discovering, Retrying];
      var rest := Turns(turns[1..]) + tail;
      assert Turns(turns) + tail == turn + rest;
      TurnsCount(turns[1..], tail);
      assert turn[0] == Discovering && (turn + rest)[1..] == turn[1..] + rest;
      NoDiscovery(turn[1..], rest);
    }
  }

  lemma {:induction false} NoDiscovery(states: seq<State>, rest: seq<State>)
    requires Discovering !in states
    ensures Count(states + rest, Discovering) == Count(rest, Discovering)
  {
    if states == [] {
      assert states + rest == rest;
    } else {
      assert (states + rest)[1..] == states[1..] + rest;
      NoDiscovery(states[1..], rest);
    }
  }

  lemma TailCount(end: End)
    ensures Count(Tail(end), Discovering) == if end.Joined? || end.Bootstrapped? then 1 else 0
  {
    match end
    case Joined => CountThree(Joining);
    case Bootstrapped => CountThree(Bootstrapping);
    case Exhausted => assert [Failed][1..] == [];
    case Cancelled => assert [Failed][1..] == [];
    case StartupFailed => assert [Failed][1..] == [];
    case Stopped =>
    case Open =>
  }

  lemma CountThree(s: State)
    requires s != Discovering
    ensures Count([Discovering, s, Running], Discovering) == 1
  {
    assert [Running][1..] == [] && Count([Running], Discovering) == 0;
    assert [s, Running][1..] == [Running] && Count([s, Running], Discovering) == 0;
    assert [Discovering, s, Running][1..] == [s, Running];
  }

  /** Every run goes through MDNSAdvertiserUp and GossipUp unless start-up fails, then
      through failed turns, and ends as its outcome dictates. With M > 0 retries it makes
      at most M discovery rounds, exactly M when it gives up, and given M turns it is over. */
  lemma RunShape(cfg: Settings, startup: Startup, rounds: seq<Round>) returns (turns: seq<bool>)
    ensures var r := Run(cfg, startup, rounds);
            var m := cfg.maxDiscoveryRetries;
            && r.states == (if startup.advertiserFails then [] else if startup.gossipFails then [MDNSAdvertiserUp]
                            else [MDNSAdvertiserUp, GossipUp]) + Turns(turns) + Tail(r.end)
            && (r.end.StartupFailed? <==> startup.advertiserFails || startup.gossipFails)
            && (r.end.StartupFailed? ==> turns == [] && r.waits == [])
            && (!r.end.StartupFailed? ==> |r.waits| + (if r.end.Exhausted? then 1 else 0) == |turns|)
            && (r.end.Exhausted? ==> m > 0 && Count(r.states, Discovering) == m)
            && (m > 0 ==> Count(r.states, Discovering) <= m)
            && (m > 0 && |rounds| >= m ==> !r.end.Open?)
  {
    hide Turns, Tail, Count, RunFrom;
    var r := Run(cfg, startup, rounds);
    TailCount(r.end);
    if startup.advertiserFails || startup.gossipFails {
      turns := [];
      StartupTraces();
    } else {
      turns := LoopShape(cfg, rounds, 0, INITIAL_BACKOFF);
      TurnsCount(turns, Tail(r.end));
      NoDiscovery([MDNSAdvertiserUp, GossipUp], Turns(turns) + Tail(r.end));
      assert r.states == [MDNSAdvertiserUp, GossipUp] + Turns(turns) + Tail(r.end);
      assert r.states == [MDNSAdvertiserUp, GossipUp] + (Turns(turns) + Tail(r.end));
    }
  }

  lemma StartupTraces()
    ensures Turns([]) == [] && Tail(StartupFailed) == [Failed]
    ensures [] + [] + [Failed] == [Failed] && [MDNSAdvertiserUp] + [] + [Failed] == [MDNSAdvertiserUp, Failed]
    ensures Count([Failed], Discovering) == 0 && Count([MDNSAdvertiserUp, Failed], Discovering) == 0
  {
    assert [Failed][1..] == [] && [MDNSAdvertiserUp, Failed][1..] == [Failed];
  }

  // ---- Waiting ---------------------------------------------------------------------

  function Sum(waits: seq<real>): real {
    if waits == [] then 0.0 else Sum(waits[..|waits| - 1]) + waits[|waits| - 1]
  }

  /** The sum of the first `n` backoffs. */
  function BackoffSum(n: nat): nat {
    if n == 0 then 0 else BackoffSum(n - 1) + Capped(n - 1)
  }

  lemma {:induction false} LoopWaits(cfg: Settings, rounds: seq<Round>, attempt: nat, k: nat)
    ensures var r := RunFrom(cfg, rounds, attempt, BackoffAt(k));
            forall i | 0 <= i < |r.waits| :: 0.0 <= r.waits[i] <= 1.5 * BackoffAt(k + i) as real
    decreases |rounds|
  {
    hide Waited, FoundCluster, ShouldBootstrap, NextBackoff, BackoffAt;
    if rounds != [] {
      WaitedBounds(BackoffAt(k), rounds[0].jitter, rounds[0].cutShort);
      BackoffStep(k);
      LoopWaits(cfg, rounds[1..], attempt + 1, k + 1);
      var r := RunFrom(cfg, rounds, attempt, BackoffAt(k));
      var rest := RunFrom(cfg, rounds[1..], attempt + 1, BackoffAt(k + 1));
      NextWait(cfg, rounds, attempt, BackoffAt(k));
      forall i | 0 <= i < |r.waits|
        ensures 0.0 <= r.waits[i] <= 1.5 * BackoffAt(k + i) as real
      {
        if i == 0 {
          assert k + i == k;
        } else {
          assert k + i == (k + 1) + (i - 1) && r.waits[i] == rest.waits[i - 1];
        }
      }
    }
  }

  lemma NextWait(cfg: Settings, rounds: seq<Round>, attempt: nat, backoff: nat)
    requires rounds != []
    ensures var waits := RunFrom(cfg, rounds, attempt, backoff).waits;
            || waits == []
            || waits == [Waited(backoff, rounds[0].jitter, rounds[0].cutShort)]
                        + RunFrom(cfg, rounds[1..], attempt + 1, NextBackoff(backoff)).waits
  {
    hide Waited, FoundCluster, ShouldBootstrap, NextBackoff;
    assert RunFrom(cfg, rounds, attempt, backoff).waits == []
        || RunFrom(cfg, rounds, attempt, backoff) == Retry(cfg, rounds, attempt, backoff, Retried(true))
        || RunFrom(cfg, rounds, attempt, backoff) == Retry(cfg, rounds, attempt, backoff, Retried(false));
  }

  lemma BackoffStep(k: nat)
    ensures BackoffAt(k + 1) == NextBackoff(BackoffAt(k))
  {
  }

  lemma {:induction false} SumBounded(waits: seq<real>)
    requires forall i | 0 <= i < |waits| :: waits[i] <= 1.5 * Capped(i) as real
    ensures Sum(waits) <= 1.5 * BackoffSum(|waits|) as real
  {
    if waits != [] {
      SumBounded(waits[..|waits| - 1]);
    }
  }

  lemma {:induction false} BackoffSumGrows(m: nat, n: nat)
    requires m <= n
    ensures BackoffSum(m) <= BackoffSum(n)
  {
    if m < n {
      BackoffSumGrows(m, n - 1);
    }
  }

  /** The k-th wait lasts at most 1.5 times min(250 ms * 2^k, 15 s), and a run with M > 0
      retries waits in all at most 1.5 times the sum of the first M - 1 backoffs. */
  lemma WaitsBounded(cfg: Settings, startup: Startup, rounds: seq<Round>)
    ensures var waits := Run(cfg, startup, rounds).waits;
            && (forall k | 0 <= k < |waits| :: 0.0 <= waits[k] <= 1.5 * Capped(k) as real)
            && Sum(waits) <= 1.5 * BackoffSum(|waits|) as real
            && (cfg.maxDiscoveryRetries > 0 ==>
                  |waits| < cfg.maxDiscoveryRetries
                  && Sum(waits) <= 1.5 * BackoffSum(cfg.maxDiscoveryRetries - 1) as real)
  {
    hide Capped, RunFrom, BackoffAt;
    var waits := Run(cfg, startup, rounds).waits;
    var turns := LoopShape(cfg, rounds, 0, INITIAL_BACKOFF);
    FirstBackoff();
    LoopWaits(cfg, rounds, 0, 0);
    forall k | 0 <= k < |waits|
      ensures 0.0 <= waits[k] <= 1.5 * Capped(k) as real
    {
      BackoffDoubles(k);
    }
    SumBounded(waits);
    if cfg.maxDiscoveryRetries > 0 {
      BackoffSumGrows(|waits|, cfg.maxDiscoveryRetries - 1);
    }
  }

  lemma FirstBackoff()
    ensures BackoffAt(0) == INITIAL_BACKOFF
  {
  }

  // ---- Where a run ends ------------------------------------------------------------

  function LastState(start: State, states: seq<State>): State {
    if states == [] then start else states[|states| - 1]
  }

  lemma {:induction false} TurnsVisit(turns: seq<bool>)
    ensures forall s | s in Turns(turns) :: s in {Discovering, Joining, Retrying}
  {
    if turns != [] {
      TurnsVisit(turns[1..]);
    }
  }

  /** A run visits Running or Bootstrapping only at its end, as its outcome says, and never
      comes back to Init. */
  lemma RunEnds(cfg: Settings, startup: Startup, rounds: seq<Round>)
    ensures var r := Run(cfg, startup, rounds);
            && (LastState(Init, r.states) == Running <==> r.end.Joined? || r.end.Bootstrapped?)
            && (Bootstrapping in r.states <==> r.end.Bootstrapped?)
            && LastState(Init, r.states) != Init
  {
    var turns := RunShape(cfg, startup, rounds);
    TurnsVisit(turns);
    hide Run, Turns;
    var r := Run(cfg, startup, rounds);
    var ts, tail := Turns(turns), Tail(r.end);
    var head := if startup.advertiserFails then [] else if startup.gossipFails then [MDNSAdvertiserUp]
                else [MDNSAdvertiserUp, GossipUp];
    assert r.states == head + ts + tail;
    LastOfThree(head, ts, tail);
    assert Bootstrapping in tail <==> r.end.Bootstrapped?;
  }

  lemma LastOfThree(a: seq<State>, b: seq<State>, c: seq<State>)
    ensures var all := a + b + c;
            && (forall s :: s in all <==> s in a || s in b || s in c)
            && (c != [] ==> LastState(Init, all) == c[|c| - 1])
            && (c == [] && b != [] ==> LastState(Init, all) == b[|b| - 1] && b[|b| - 1] in b)
            && (c == [] && b == [] && a != [] ==> LastState(Init, all) == a[|a| - 1])
  {
  }
}
