/** The edges of the bootstrap state machine: the walks along them are exactly the
    beginnings of traces that runs can leave. */
module Walks {
  import opened Options
  import opened Lifecycle
  import opened Mdns

  predicate Edge(from: State, to: State) {
    match from
    case Init => to == MDNSAdvertiserUp || to == Failed
    case MDNSAdvertiserUp => to == GossipUp || to == Failed
    case GossipUp => to == Discovering || to == Failed
    case Discovering => to == Joining || to == Bootstrapping || to == Retrying
    case Joining => to == Running || to == Retrying
    case Bootstrapping => to == Running
    case Retrying => to == Discovering || to == Failed
    case Running => false
    case Failed => false
  }

  predicate Walk(from: State, states: seq<State>)
    decreases |states|
  {
    states == [] || (Edge(from, states[0]) && Walk(states[0], states[1..]))
  }

  lemma {:induction false} WalkSplit(from: State, a: seq<State>, b: seq<State>)
    ensures Walk(from, a + b) <==> Walk(from, a) && Walk(LastState(from, a), b)
    decreases |a|
  {
    if a == [] {
      assert a + b == b;
    } else {
      assert (a + b)[1..] == a[1..] + b;
      WalkSplit(a[0], a[1..], b);
    }
  }

  lemma WalkOne(from: State, a: State)
    ensures Walk(from, [a]) <==> Edge(from, a)
  {
    assert [a][1..] == [];
  }

  lemma WalkTwo(from: State, a: State, b: State)
    ensures Walk(from, [a, b]) <==> Edge(from, a) && Edge(a, b)
  {
    hide Edge;
    assert [a, b][1..] == [b];
    WalkOne(a, b);
  }

  lemma WalkThree(from: State, a: State, b: State, c: State)
    ensures Walk(from, [a, b, c]) <==> Edge(from, a) && Edge(a, b) && Edge(b, c)
  {
    hide Edge;
    assert [a, b, c][1..] == [b, c];
    WalkTwo(a, b, c);
  }

  // ---- Runs walk ---------------------------------------------------------------------

  lemma {:induction false} TurnsWalk(from: State, turns: seq<bool>)
    requires from == GossipUp || from == Retrying
    ensures Walk(from, Turns(turns)) && LastState(from, Turns(turns)) in {GossipUp, Retrying}
    decreases |turns|
  {
    hide Walk;
    if turns == [] {
      WalkNothing(from);
    } else {
      var turn := if turns[0] then [Discovering, Joining, Retrying] else [Discovering, Retrying];
      WalkTwo(from, Discovering, Retrying);
      WalkThree(from, Discovering, Joining, Retrying);
      TurnsWalk(Retrying, turns[1..]);
      WalkSplit(from, turn, Turns(turns[1..]));
    }
  }

  lemma WalkNothing(from: State)
    ensures Walk(from, [])
  {
  }

  lemma TailWalks(from: State, end: End)
    requires from == GossipUp || from == Retrying
    ensures Walk(from, Tail(end))
  {
    WalkThree(from, Discovering, Joining, Running);
    WalkThree(from, Discovering, Bootstrapping, Running);
  }

  lemma RunWalks(cfg: Settings, startup: Startup, rounds: seq<Round>)
    ensures Walk(Init, Run(cfg, startup, rounds).states)
  {
    hide RunFrom, Turns, Tail, Walk, Edge;
    WalkOpening();
    if !startup.advertiserFails && !startup.gossipFails {
      var turns := LoopShape(cfg, rounds, 0, INITIAL_BACKOFF);
      var r := RunFrom(cfg, rounds, 0, INITIAL_BACKOFF);
      TurnsWalk(GossipUp, turns);
      TailWalks(LastState(GossipUp, Turns(turns)), r.end);
      WalkSplit(GossipUp, Turns(turns), Tail(r.end));
      WalkSplit(Init, [MDNSAdvertiserUp, GossipUp], r.states);
    }
  }

  lemma WalkOpening()
    ensures Walk(Init, [Failed]) && Walk(Init, [MDNSAdvertiserUp, Failed]) && Walk(Init, [MDNSAdvertiserUp, GossipUp])
  {
    assert [Failed][1..] == [];
    WalkTwo(Init, MDNSAdvertiserUp, Failed);
    WalkTwo(Init, MDNSAdvertiserUp, GossipUp);
  }

  // ---- Walks run ---------------------------------------------------------------------

  /** A node that may bootstrap and never gives up by counting. */
  const PATIENT := Settings("n", true, 0)

  function Turned(signal: Signal, found: bool, joinOk: bool, slot: bool): Round {
    Round(signal, if found then Peers([PeerInfo("p", true)]) else NoDiscoverer, joinOk, slot, NoDiscoverer, false, 0.0, None)
  }

  /** Turns on which the patient node takes the walk `states`. */
  function Script(states: seq<State>): seq<Round>
    decreases |states|
  {
    if states == [] then []
    else if states[0] == Failed then [Turned(ContextDone, false, false, false)]
    else if |states| == 1 then [Turned(Proceed, false, false, false)]
    else
      match states[1]
      case Joining =>
        if |states| == 2 || states[2] == Running then [Turned(Proceed, true, true, false)]
        else [Turned(Proceed, true, false, false)] + Script(states[3..])
      case Bootstrapping => [Turned(Proceed, false, false, true)]
      case _ => [Turned(Proceed, false, false, false)] + Script(states[2..])
  }

  lemma TurnedMeans(signal: Signal, found: bool, joinOk: bool, slot: bool)
    ensures var r := Turned(signal, found, joinOk, slot);
            r.signal == signal && r.joinOk == joinOk && (FoundCluster(PATIENT, r) <==> found) && (ShouldBootstrap(PATIENT, r) <==> slot)
  {
    var peers := [PeerInfo("p", true)];
    assert peers[0] in peers && peers[..0] == [];
    assert PeerAddresses(peers) == ["p"];
  }

  /** What the patient node does on one scripted turn. */
  lemma PatientTurn(signal: Signal, found: bool, joinOk: bool, slot: bool, rest: seq<Round>, attempt: nat, backoff: nat)
    ensures var states := RunFrom(PATIENT, [Turned(signal, found, joinOk, slot)] + rest, attempt, backoff).states;
            var next := RunFrom(PATIENT, rest, attempt + 1, NextBackoff(backoff)).states;
            && (signal.ContextDone? ==> states == [Failed])
            && (signal.Proceed? && found && joinOk ==> states == [Discovering, Joining, Running])
            && (signal.Proceed? && found && !joinOk ==> states == [Discovering, Joining, Retrying] + next)
            && (signal.Proceed? && !found && slot ==> states == [Discovering, Bootstrapping, Running])
            && (signal.Proceed? && !found && !slot ==> states == [Discovering, Retrying] + next)
  {
    hide FoundCluster, ShouldBootstrap, NextBackoff, Waited, Turned;
    TurnedMeans(signal, found, joinOk, slot);
    var rounds := [Turned(signal, found, joinOk, slot)] + rest;
    assert rounds[0] == Turned(signal, found, joinOk, slot) && rounds[1..] == rest;
  }

  lemma {:induction false} ScriptRuns(from: State, states: seq<State>, attempt: nat, backoff: nat)
    requires from == GossipUp || from == Retrying
    requires Walk(from, states)
    ensures states <= RunFrom(PATIENT, Script(states), attempt, backoff).states
    decreases |states|, 2
  {
    hide RunFrom, Turned, NextBackoff;
    if states == [] {
    } else if states[0] == Failed {
      assert Walk(Failed, states[1..]);
      assert states == [Failed];
      ScriptSingle(ContextDone, false, false, false, attempt, backoff);
    } else {
      assert states[0] == Discovering;
      ScriptTurn(states, attempt, backoff);
    }
  }

  lemma ScriptSingle(signal: Signal, found: bool, joinOk: bool, slot: bool, attempt: nat, backoff: nat)
    ensures var states := RunFrom(PATIENT, [Turned(signal, found, joinOk, slot)], attempt, backoff).states;
            && (signal.ContextDone? ==> states == [Failed])
            && (signal.Proceed? && found && joinOk ==> states == [Discovering, Joining, Running])
            && (signal.Proceed? && !found && slot ==> states == [Discovering, Bootstrapping, Running])
            && (signal.Proceed? && !found && !slot ==> [Discovering, Retrying] <= states)
  {
    hide RunFrom, Turned, NextBackoff;
    PatientTurn(signal, found, joinOk, slot, [], attempt, backoff);
    assert [Turned(signal, found, joinOk, slot)] + [] == [Turned(signal, found, joinOk, slot)];
  }

  lemma {:induction false} ScriptTurn(states: seq<State>, attempt: nat, backoff: nat)
    requires states != [] && states[0] == Discovering && Walk(Discovering, states[1..])
    ensures states <= RunFrom(PATIENT, Script(states), attempt, backoff).states
    decreases |states|, 1
  {
    hide RunFrom, Turned, NextBackoff;
    if |states| == 1 {
      ScriptSingle(Proceed, false, false, false, attempt, backoff);
    } else {
      assert states[1..][0] == states[1] && states[1..][1..] == states[2..];
      if states[1] == Joining {
        ScriptJoin(states, attempt, backoff);
      } else if states[1] == Bootstrapping {
        ScriptSingle(Proceed, false, false, true, attempt, backoff);
        Terminal(states[2..]);
      } else {
        ScriptRuns(Retrying, states[2..], attempt + 1, NextBackoff(backoff));
        PatientTurn(Proceed, false, false, false, Script(states[2..]), attempt, backoff);
        assert states == [Discovering, Retrying] + states[2..];
      }
    }
  }

  /** After Bootstrapping a walk can only enter Running, and there it ends. */
  lemma Terminal(states: seq<State>)
    requires Walk(Bootstrapping, states)
    ensures states == [] || states == [Running]
  {
    if states != [] {
      assert Walk(Running, states[1..]);
    }
  }

  lemma {:induction false} ScriptJoin(states: seq<State>, attempt: nat, backoff: nat)
    requires |states| >= 2 && states[0] == Discovering && states[1] == Joining && Walk(Joining, states[2..])
    ensures states <= RunFrom(PATIENT, Script(states), attempt, backoff).states
    decreases |states|, 0
  {
    hide RunFrom, Turned, NextBackoff;
    if |states| == 2 {
      ScriptSingle(Proceed, true, true, false, attempt, backoff);
    } else {
      assert states[2..][0] == states[2] && states[2..][1..] == states[3..];
      if states[2] == Running {
        ScriptSingle(Proceed, true, true, false, attempt, backoff);
        assert states[3..] == [];
      } else {
        ScriptRuns(Retrying, states[3..], attempt + 1, NextBackoff(backoff));
        PatientTurn(Proceed, true, false, false, Script(states[3..]), attempt, backoff);
        assert states == [Discovering, Joining, Retrying] + states[3..];
      }
    }
  }

  /** Some run begins with these states. */
  ghost predicate Traceable(states: seq<State>) {
    exists cfg, startup, rounds :: states <= Run(cfg, startup, rounds).states
  }

  lemma WalkIsTraced(states: seq<State>)
    requires Walk(Init, states)
    ensures Traceable(states)
  {
    hide RunFrom, Script;
    if states == [] {
      assert states <= Run(PATIENT, Startup(true, false, false), []).states;
    } else if states[0] == Failed {
      assert states[1..] == [];
      assert states <= Run(PATIENT, Startup(true, false, false), []).states;
    } else if |states| == 1 {
      assert states <= Run(PATIENT, Startup(false, true, false), []).states;
    } else {
      assert states[1..][0] == states[1] && states[1..][1..] == states[2..];
      if states[1] == Failed {
        assert Walk(Failed, states[2..]);
        assert states == [MDNSAdvertiserUp, Failed];
        assert states <= Run(PATIENT, Startup(false, true, false), []).states;
      } else {
        ScriptRuns(GossipUp, states[2..], 0, INITIAL_BACKOFF);
        assert states == [MDNSAdvertiserUp, GossipUp] + states[2..];
        assert states <= Run(PATIENT, Startup(false, false, false), Script(states[2..])).states;
      }
    }
  }

  /** The edges are exact: a sequence of states begins the trace of some run if and only
      if it walks along them. */
  lemma TracesAreWalks(states: seq<State>)
    ensures Traceable(states) <==> Walk(Init, states)
  {
    hide Run, Walk;
    if Traceable(states) {
      var cfg, startup, rounds :| states <= Run(cfg, startup, rounds).states;
      var all := Run(cfg, startup, rounds).states;
      RunWalks(cfg, startup, rounds);
      assert all == states + all[|states|..];
      WalkSplit(Init, states, all[|states|..]);
    }
    if Walk(Init, states) {
      WalkIsTraced(states);
    }
  }
}
