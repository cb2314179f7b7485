/** The bootstrapper object: its run changes the node's state, its advertisements and its
    subscribers step by step, as the laws of Lifecycle and Subscribers say. */
module Bootstrapper {
  import opened Lifecycle
  import opened Lives
  import opened Options
  import opened Subscribers
  import M = Mdns
  import D = Delegate

  /** One step of the retry loop seen from the whole of it: `done` and `waits` so far, then
      whatever the loop does from its i-th turn on. */
  ghost predicate Partway(cfg: Settings, rounds: seq<Round>, i: nat, attempt: nat, backoff: nat,
                          done: seq<State>, waits: seq<real>)
    requires i <= |rounds|
  {
    var whole, rest := RunFrom(cfg, rounds, 0, INITIAL_BACKOFF), RunFrom(cfg, rounds[i..], attempt, backoff);
    whole == Result(done + rest.states, rest.end, waits + rest.waits)
  }

  lemma PartwayStart(cfg: Settings, rounds: seq<Round>)
    ensures Partway(cfg, rounds, 0, 0, INITIAL_BACKOFF, [], [])
  {
    hide RunFrom;
    var whole := RunFrom(cfg, rounds, 0, INITIAL_BACKOFF);
    assert rounds[0..] == rounds;
    assert [] + whole.states == whole.states && [] + whole.waits == whole.waits;
  }

  lemma PartwayEnd(cfg: Settings, rounds: seq<Round>, i: nat, attempt: nat, backoff: nat,
                   done: seq<State>, waits: seq<real>, tail: seq<State>, end: End)
    requires i <= |rounds| && Partway(cfg, rounds, i, attempt, backoff, done, waits)
    requires RunFrom(cfg, rounds[i..], attempt, backoff) == Result(tail, end, [])
    ensures RunFrom(cfg, rounds, 0, INITIAL_BACKOFF) == Result(done + tail, end, waits)
  {
    hide RunFrom;
    assert waits + [] == waits;
  }

  lemma PartwayAll(cfg: Settings, rounds: seq<Round>, attempt: nat, backoff: nat, done: seq<State>, waits: seq<real>)
    requires Partway(cfg, rounds, |rounds|, attempt, backoff, done, waits)
    ensures RunFrom(cfg, rounds, 0, INITIAL_BACKOFF) == Result(done, Open, waits)
  {
    assert done + [] == done;
    PartwayEnd(cfg, rounds, |rounds|, attempt, backoff, done, waits, [], Open);
  }

  lemma PartwayNext(cfg: Settings, rounds: seq<Round>, i: nat, attempt: nat, backoff: nat,
                    done: seq<State>, waits: seq<real>, turn: seq<State>)
    requires i < |rounds| && Partway(cfg, rounds, i, attempt, backoff, done, waits)
    requires RunFrom(cfg, rounds[i..], attempt, backoff) == Retry(cfg, rounds[i..], attempt, backoff, turn)
    ensures ShouldFail(cfg, attempt + 1) ==>
              RunFrom(cfg, rounds, 0, INITIAL_BACKOFF) == Result(done + (turn + [Failed]), Exhausted, waits)
    ensures !ShouldFail(cfg, attempt + 1) ==>
              Partway(cfg, rounds, i + 1, attempt + 1, NextBackoff(backoff), done + turn,
                      waits + [Waited(backoff, rounds[i].jitter, rounds[i].cutShort)])
  {
    hide RunFrom, ShouldFail, NextBackoff, Waited;
    if ShouldFail(cfg, attempt + 1) {
      PartwayEnd(cfg, rounds, i, attempt, backoff, done, waits, turn + [Failed], Exhausted);
    } else {
      assert rounds[i..][1..] == rounds[i + 1..] && rounds[i..][0] == rounds[i];
      var rest := RunFrom(cfg, rounds[i + 1..], attempt + 1, NextBackoff(backoff));
      var w := [Waited(backoff, rounds[i].jitter, rounds[i].cutShort)];
      assert done + (turn + rest.states) == (done + turn) + rest.states;
      assert waits + (w + rest.waits) == (waits + w) + rest.waits;
    }
  }

  class Bootstrapper {
    const config: Settings
    const clusterID: string
    const gossipAddr: string
    const raftAddr: string
    var state: State
    var advertiser: M.MDNSAdvertiser?
    /** The delegate of the gossip instance held, and whether that instance is up. */
    var gossip: D.Delegate?
    var gossipStarted: bool
    var didBootstrap: bool
    var subscribers: seq<Mailbox>

    /** The changes broadcast before the last start or stop, and the states entered since. */
    ghost var earlier: seq<StateChange>
    ghost var path: seq<State>

    /** What happened to each subscriber's channel, up to the last start or stop and to now. */
    ghost var mark: seq<Log>
    ghost var logs: seq<Log>

    /** The servers left up by advertisers that a later start replaced. */
    ghost var stranded: seq<M.MdnsServer>

    /** How many gossip instances that a later start replaced are still up. */
    ghost var strandedGossips: nat

    ghost function History(): seq<StateChange>
      reads this
    {
      earlier + Changes(Init, path)
    }

    /** Both the mDNS advertiser and the gossip delegate carry the bootstrapped flag. */
    ghost predicate Advertised()
      reads this, advertiser, gossip
    {
      advertiser != null && gossip != null && advertiser.bootstrapped && gossip.bootstrapped
    }

    /** The advertiser's server is up. */
    predicate Up()
      reads this, advertiser
    {
      advertiser != null && advertiser.server.Some? && advertiser.server.value.up
    }

    /** A node that can be started has no flag on the air. */
    ghost predicate Unflagged()
      reads this, advertiser
    {
      Up() ==> !advertiser.bootstrapped
    }

    /** Running is advertised, and every subscriber was offered every change since it
        subscribed. Servers left up say the node is not bootstrapped, whatever it is now. */
    ghost predicate Valid()
      reads this, advertiser, gossip
    {
      && (advertiser != null ==>
            advertiser.Valid() && advertiser.clusterID == clusterID && advertiser.gossipAddr == gossipAddr)
      && (state.Running? ==> Advertised())
      && (CanStart(state) ==> Unflagged())
      && (gossipStarted ==> gossip != null)
      && state == LastState(Init, path)
      && AllKept(subscribers, logs, History()) && Continues(mark, logs)
      && (forall s | s in stranded :: s == M.MdnsServer(M.Records(clusterID, gossipAddr, false), true))
    }

    constructor (config: Settings, clusterID: string, gossipAddr: string, raftAddr: string)
      ensures Valid() && this.config == config && LifeOf() == Lived(config, []) && subscribers == []
    {
      this.config, this.clusterID, this.gossipAddr, this.raftAddr := config, clusterID, gossipAddr, raftAddr;
      state, advertiser, gossip, gossipStarted, didBootstrap, subscribers := Init, null, null, false, false, [];
      earlier, path, mark, logs, stranded, strandedGossips := [], [], [], [], [], 0;
    }

    lemma AtPath()
      requires Valid()
      ensures state == LastState(Init, path)
    {
    }

    ghost function Servers(): Instances
      reads this, advertiser
    {
      Instances(Up(), |stranded|)
    }

    ghost function Gossips(): Instances
      reads this
    {
      Instances(gossipStarted, strandedGossips)
    }

    ghost function LifeOf(): Life
      reads this, advertiser
    {
      Life(state, didBootstrap, Servers(), Gossips())
    }

    method Subscribe()
      requires Valid()
      modifies this`subscribers, this`logs, this`mark
      ensures Valid()
      ensures subscribers == old(subscribers) + [Mailbox([], [], 0)]
      ensures logs == old(logs) + [Log(|History()|, [])]
    {
      hide Changes;
      subscribers := subscribers + [Mailbox([], [], 0)];
      logs := logs + [Log(|History()|, [])];
      mark := mark + [Log(|History()|, [])];
    }

    /** A subscriber reads from its channel. */
    method Receive(i: nat)
      requires i < |subscribers| == |logs|
      modifies this`subscribers, this`logs
      ensures subscribers == old(subscribers)[i := Take(old(subscribers)[i])]
      ensures logs == old(logs)[i := old(logs)[i].(ops := old(logs)[i].ops + [Taken])]
    {
      subscribers := subscribers[i := Take(subscribers[i])];
      logs := logs[i := logs[i].(ops := logs[i].ops + [Taken])];
    }

    /** Subscribers read as much as they like. */
    method SubscribersRead(ghost history: seq<StateChange>)
      requires AllKept(subscribers, logs, history)
      modifies this`subscribers, this`logs
      ensures AllKept(subscribers, logs, history) && Continues(old(logs), logs)
    {
      hide Delivered, Offers, Take, Kept;
      var count: nat := *;
      while count > 0
        invariant AllKept(subscribers, logs, history) && Continues(old(logs), logs)
        invariant |subscribers| == |logs| == |old(logs)|
      {
        count := count - 1;
        var i: int := *;
        if 0 <= i < |subscribers| {
          assert Kept(subscribers[i], logs[i], history) && Extends(old(logs)[i], logs[i]);
          KeptAfter(subscribers[i], logs[i], history, Taken);
          assert history + [] == history;
          Receive(i);
        }
      }
    }

    /** Offers the change to every subscriber, between whatever reads of theirs. */
    method Broadcast(change: StateChange, ghost history: seq<StateChange>)
      requires AllKept(subscribers, logs, history)
      modifies this`subscribers, this`logs
      ensures AllKept(subscribers, logs, history + [change]) && Continues(old(logs), logs)
    {
      hide Delivered, Offers, Offer, Kept;
      SubscribersRead(history);
      ghost var before := logs;
      ghost var boxes := subscribers;
      var i := 0;
      while i < |subscribers|
        invariant i <= |subscribers| == |logs| == |before| == |boxes|
        invariant forall j | 0 <= j < i :: Kept(subscribers[j], logs[j], history + [change]) && Extends(before[j], logs[j])
        invariant forall j | i <= j < |logs| :: subscribers[j] == boxes[j] && logs[j] == before[j]
      {
        assert Kept(boxes[i], before[i], history);
        KeptAfter(subscribers[i], logs[i], history, Offered(change));
        subscribers := subscribers[i := Offer(subscribers[i], change)];
        logs := logs[i := logs[i].(ops := logs[i].ops + [Offered(change)])];
        i := i + 1;
      }
      ContinuesThen(old(logs), before, logs);
    }

    /** `Running` may be entered only once both advertisements carry the flag. */
    method TransitionTo(s: State)
      requires Valid() && (s.Running? ==> Advertised()) && (CanStart(s) ==> Unflagged())
      modifies this`state, this`subscribers, this`logs, this`path
      ensures Valid() && state == s && path == old(path) + [s]
    {
      hide AllKept, Changes, Continues;
      ghost var history := History();
      var before := state;
      state := s;
      if before != s {
        Broadcast(StateChange(before, s), history);
        ContinuesThen(mark, old(logs), logs);
      } else {
        assert history + [] == history;
      }
      ChangesNext(Init, path, s);
      path := path + [s];
      assert earlier + (Changes(Init, old(path)) + Change(before, s)) == history + Change(before, s);
    }

    method SetBootstrapped(b: bool, restartFails: bool)
      requires Valid() && (state.Running? ==> b) && (CanStart(state) ==> !b)
      modifies advertiser, gossip
      ensures Valid()
      ensures advertiser != null ==> advertiser.bootstrapped == b
      ensures gossip != null ==> gossip.bootstrapped == b
      ensures Up() == if advertiser == null || old(advertiser.server).None? then false
                      else if old(advertiser.bootstrapped) == b then old(Up()) else !restartFails
    {
      if advertiser != null {
        advertiser.SetBootstrapped(b, restartFails);
      }
      if gossip != null {
        gossip.SetBootstrapped(b);
      }
    }

    method RunDiscovery(reply: DiscoveryReply) returns (d: Discovery)
      ensures d == Discovered(config.nodeID, reply)
    {
      match reply
      case NoDiscoverer => return Discovery([], false);
      case Broken => return Discovery([], false);
      case Peers(peers) =>
        var addrs: seq<string> := [];
        var hasBootstrapped := false;
        for i := 0 to |peers|
          invariant addrs == PeerAddresses(peers[..i])
          invariant hasBootstrapped <==> exists p | p in peers[..i] :: p.bootstrapped
        {
          assert peers[..i + 1] == peers[..i] + [peers[i]];
          addrs := addrs + [peers[i].address];
          if peers[i].bootstrapped {
            hasBootstrapped := true;
          }
        }
        assert peers[..|peers|] == peers;
        return Discovery(addrs, hasBootstrapped);
      case Addresses(addrs, joined, members) =>
        if |addrs| > 0 && joined && |members| > 1 {
          for i := 0 to |members|
            invariant forall j | 0 <= j < i :: !(members[j].id != config.nodeID && members[j].bootstrapped)
          {
            if members[i].id != config.nodeID && members[i].bootstrapped {
              assert members[i] in members;
              return Discovery(addrs, true);
            }
          }
        }
        return Discovery(addrs, false);
    }

    /** The decision after the slot wait: discover again, then ask gossip. */
    method DecideBootstrap(r: Round) returns (b: bool)
      ensures b == ShouldBootstrap(config, r)
    {
      if !r.slot {
        return false;
      }
      var again := RunDiscovery(r.recheck);
      if again.bootstrapped {
        return false;
      }
      if r.others {
        return false;
      }
      return true;
    }

    /** Starts the node and follows its run over the turns given. */
    method Start(startup: Startup, rounds: seq<Round>) returns (ok: bool, end: End, waits: seq<real>)
      requires Valid()
      modifies this
      ensures Valid()
      ensures ok <==> old(state) == Init || old(state) == Failed
      ensures ok ==> Result(path, end, waits) == Run(config, startup, rounds)
      ensures ok ==> earlier == old(History()) && mark == old(logs)
      ensures LifeOf() == Live(config, old(LifeOf()), StartRun(startup, rounds))
      ensures !ok ==> unchanged(this)
    {
      hide AllKept, Changes, RunFrom, Continues, Valid;
      ok, end, waits := false, Open, [];
      if state != Init && state != Failed {
        return;
      }
      ok := true;
      var up := BringUp(startup);
      if !up {
        end := StartupFailed;
        return;
      }
      end, waits := Loop(rounds, startup.restartFails);
      AtPath();
    }

    /** The part of a run before its loop. */
    method BringUp(startup: Startup) returns (up: bool)
      requires Valid() && CanStart(state)
      modifies this
      ensures Valid() && didBootstrap == old(didBootstrap)
      ensures up <==> !startup.advertiserFails && !startup.gossipFails
      ensures earlier == old(History()) && mark == old(logs)
      ensures path == if startup.advertiserFails then [Failed] else if startup.gossipFails then [MDNSAdvertiserUp, Failed]
                      else [MDNSAdvertiserUp, GossipUp]
      ensures state == if up then GossipUp else Failed
      ensures advertiser != null && fresh(advertiser) && !advertiser.bootstrapped
      ensures up ==> gossip != null && fresh(gossip)
      ensures Servers() == Replaced(old(Servers()), !startup.advertiserFails)
      ensures Gossips() == if up then Replaced(old(Gossips()), true) else old(Gossips())
    {
      hide AllKept, Changes, Continues, Valid, LastState;
      Reset();
      up := StartMDNSAdvertiser(startup.advertiserFails);
      if !up {
        TransitionTo(Failed);
        return;
      }
      up := StartGossip(startup.gossipFails);
      if !up {
        TransitionTo(Failed);
      }
    }

    /** Goes back to Init without telling anyone. */
    method Reset()
      requires Valid() && (CanStart(state) || Unflagged())
      modifies this`state, this`earlier, this`path, this`mark
      ensures Valid() && state == Init && path == [] && earlier == old(History()) && mark == logs
    {
      ContinuesItself(logs);
      earlier, path, mark := History(), [], logs;
      state := Init;
      assert earlier + [] == earlier;
    }

    /** The node's advertiser is replaced whether or not it was stopped. */
    method StartMDNSAdvertiser(fails: bool) returns (ok: bool)
      requires Valid() && CanStart(state)
      modifies this`advertiser, this`stranded, this`state, this`subscribers, this`logs, this`path
      ensures Valid() && ok == !fails && advertiser != null && fresh(advertiser)
      ensures Up() == ok && !advertiser.bootstrapped
      ensures stranded == old(stranded) + if old(Up()) then [old(advertiser.server.value)] else []
      ensures state == (if ok then MDNSAdvertiserUp else old(state))
      ensures path == old(path) + if ok then [MDNSAdvertiserUp] else []
    {
      hide AllKept, Changes, Continues;
      stranded := stranded + if Up() then [advertiser.server.value] else [];
      advertiser := new M.MDNSAdvertiser(clusterID, gossipAddr);
      ok := advertiser.Start(fails);
      if ok {
        TransitionTo(MDNSAdvertiserUp);
      }
    }

    /** The node's gossip instance is replaced whether or not it was stopped, but only once
        the new one is up. */
    method StartGossip(fails: bool) returns (ok: bool)
      requires Valid() && state == MDNSAdvertiserUp
      modifies this`gossip, this`gossipStarted, this`strandedGossips, this`state, this`subscribers, this`logs, this`path
      ensures Valid() && ok == !fails
      ensures if ok then gossip != null && fresh(gossip) else gossip == old(gossip)
      ensures Gossips() == if ok then Replaced(old(Gossips()), true) else old(Gossips())
      ensures state == (if ok then GossipUp else old(state))
      ensures path == old(path) + if ok then [GossipUp] else []
    {
      hide AllKept, Changes, Continues;
      ok := !fails;
      if ok {
        strandedGossips := strandedGossips + if gossipStarted then 1 else 0;
        gossip := new D.Delegate(gossipAddr, raftAddr);
        gossip.SetBroadcastQueue(Some([]));
        gossipStarted := true;
        TransitionTo(GossipUp);
      }
    }

    method RecordBootstrap()
      requires Valid()
      modifies this`didBootstrap
      ensures Valid() && didBootstrap
    {
      didBootstrap := true;
    }

    /** Advertises on both channels, then runs. */
    method EnterRunning(restartFails: bool)
      requires Valid() && advertiser != null && gossip != null && !CanStart(state)
      requires Up() && !advertiser.bootstrapped
      modifies this`state, this`subscribers, this`logs, this`path, advertiser, gossip
      ensures Valid() && state == Running && path == old(path) + [Running]
      ensures Up() == !restartFails
    {
      hide AllKept, Changes, LastState, Continues, Valid;
      SetBootstrapped(true, restartFails);
      TransitionTo(Running);
    }

    /** One turn of the retry loop, up to where it runs or has decided to retry. */
    method Turn(r: Round, restartFails: bool) returns (end: End)
      requires Valid() && advertiser != null && gossip != null && !CanStart(state) && !state.Running?
      requires Up() && !advertiser.bootstrapped
      modifies this`state, this`subscribers, this`logs, this`path, this`didBootstrap, advertiser, gossip
      ensures Valid()
      ensures end == if FoundCluster(config, r) then (if r.joinOk then Joined else Open)
                     else if config.canBootstrap && ShouldBootstrap(config, r) then Bootstrapped else Open
      ensures path == old(path) + match end
                                  case Joined => [Discovering, Joining, Running]
                                  case Bootstrapped => [Discovering, Bootstrapping, Running]
                                  case _ => Retried(FoundCluster(config, r))
      ensures if end.Open? then state == Retrying && Up() && !advertiser.bootstrapped
              else state == Running && Up() == !restartFails
      ensures didBootstrap == (old(didBootstrap) || end.Bootstrapped?)
    {
      hide AllKept, Changes, ShouldBootstrap, Discovered, LastState, Continues, Valid, Advertised, Unflagged;
      TransitionTo(Discovering);
      var d := RunDiscovery(r.found);
      if d.bootstrapped && |d.addrs| > 0 {
        TransitionTo(Joining);
        if !r.joinOk {
          TransitionTo(Retrying);
          return Open;
        }
        EnterRunning(restartFails);
        return Joined;
      }
      if config.canBootstrap {
        var should := DecideBootstrap(r);
        if should {
          TransitionTo(Bootstrapping);
          RecordBootstrap();
          EnterRunning(restartFails);
          return Bootstrapped;
        }
      }
      TransitionTo(Retrying);
      return Open;
    }

    /** The retry loop, over the turns given. */
    method Loop(rounds: seq<Round>, restartFails: bool) returns (end: End, waits: seq<real>)
      requires Valid() && advertiser != null && gossip != null && state == GossipUp
      requires Up() && !advertiser.bootstrapped
      modifies this`state, this`subscribers, this`logs, this`path, this`didBootstrap, advertiser, gossip
      ensures Valid()
      ensures var r := RunFrom(config, rounds, 0, INITIAL_BACKOFF);
              path == old(path) + r.states && end == r.end && waits == r.waits
      ensures didBootstrap == (old(didBootstrap) || end.Bootstrapped?)
      ensures Up() == !(state.Running? && restartFails)
    {
      hide AllKept, Changes, RunFrom, Retry, ShouldBootstrap, FoundCluster, Discovered, Waited, NextBackoff,
           ShouldFail, Partway, LastState, Valid, Retried, Continues;
      waits := [];
      var attempt, backoff := 0, INITIAL_BACKOFF;
      ghost var done: seq<State> := [];
      PartwayStart(config, rounds);
      var i := 0;
      while i < |rounds|
        invariant i <= |rounds|
        invariant Valid() && didBootstrap == old(didBootstrap)
        invariant (state == GossipUp || state == Retrying) && Up() && !advertiser.bootstrapped
        invariant path == old(path) + done
        invariant Partway(config, rounds, i, attempt, backoff, done, waits)
      {
        var r := rounds[i];
        TurnCases(config, rounds[i..], attempt, backoff);
        if r.signal.ContextDone? {
          PartwayEnd(config, rounds, i, attempt, backoff, done, waits, [Failed], Cancelled);
          TransitionTo(Failed);
          return Cancelled, waits;
        }
        if r.signal.StopRequested? {
          PartwayEnd(config, rounds, i, attempt, backoff, done, waits, [], Stopped);
          return Stopped, waits;
        }
        end := Turn(r, restartFails);
        if !end.Open? {
          PartwayEnd(config, rounds, i, attempt, backoff, done, waits, Tail(end), end);
          return;
        }
        ghost var turn := Retried(FoundCluster(config, r));
        PartwayNext(config, rounds, i, attempt, backoff, done, waits, turn);
        attempt := attempt + 1;
        if ShouldFail(config, attempt) {
          TransitionTo(Failed);
          return Exhausted, waits;
        }
        waits := waits + [Waited(backoff, r.jitter, r.cutShort)];
        backoff := NextBackoff(backoff);
        done := done + turn;
        i := i + 1;
      }
      PartwayAll(config, rounds, attempt, backoff, done, waits);
      return Open, waits;
    }

    /** Stops a started node: gossip leaves unless it fails to, the advertiser goes down, and
        the state goes back to Init. What earlier starts replaced stays up. */
    method Stop(gossipStays: bool) returns (ok: bool)
      requires Valid()
      modifies this`state, this`earlier, this`path, this`mark, this`gossipStarted, advertiser
      ensures Valid()
      ensures ok <==> old(state) != Init
      ensures LifeOf() == Live(config, old(LifeOf()), StopRun(gossipStays))
      ensures ok ==> !Up() && earlier == old(History()) && path == [] && mark == logs
      ensures ok && gossipStarted ==> gossipStays
    {
      hide AllKept, Changes, Continues;
      if state == Init {
        return false;
      }
      if gossipStarted {
        gossipStarted := gossipStays;
      }
      if advertiser != null {
        advertiser.Stop();
      }
      Reset();
      ok := true;
    }
  }
}
