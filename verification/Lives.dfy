/** A node started and stopped any number of times: what `DidBootstrap` remembers, and which
    mDNS servers and gossip instances are left up. */
module Lives {
  import opened Options
  import opened Mdns
  import opened Lifecycle

  /** A start with what its run meets, or a stop and whether gossip then fails to leave. */
  datatype Op = StartRun(startup: Startup, rounds: seq<Round>) | StopRun(gossipStays: bool)

  /** Whether the instance the node holds is up, and how many instances it has replaced that
      still are. */
  datatype Instances = Instances(up: bool, stranded: nat)

  function AllUp(held: Instances): nat {
    held.stranded + if held.up then 1 else 0
  }

  /** A new instance takes the place of the one held, which nobody stops. */
  function Replaced(held: Instances, up: bool): Instances {
    Instances(up, AllUp(held))
  }

  datatype Life = Life(state: State, didBootstrap: bool, server: Instances, gossip: Instances)

  predicate CanStart(state: State) {
    state == Init || state == Failed
  }

  function Live(cfg: Settings, life: Life, op: Op): Life {
    match op
    case StartRun(startup, rounds) =>
      if !CanStart(life.state) then life
      else
        var r := Run(cfg, startup, rounds);
        var last := LastState(Init, r.states);
        Life(last,
             life.didBootstrap || r.end.Bootstrapped?,
             Replaced(life.server, !startup.advertiserFails && !(last == Running && startup.restartFails)),
             if startup.advertiserFails || startup.gossipFails then life.gossip else Replaced(life.gossip, true))
    case StopRun(gossipStays) =>
      if life.state == Init then life
      else life.(state := Init,
                 server := life.server.(up := false),
                 gossip := life.gossip.(up := life.gossip.up && gossipStays))
  }

  const NONE_UP := Instances(false, 0)

  function Lived(cfg: Settings, ops: seq<Op>): Life {
    if ops == [] then Life(Init, false, NONE_UP, NONE_UP) else Live(cfg, Lived(cfg, ops[..|ops| - 1]), ops[|ops| - 1])
  }

  lemma LivedNext(cfg: Settings, ops: seq<Op>, op: Op)
    ensures Lived(cfg, ops + [op]) == Live(cfg, Lived(cfg, ops), op)
  {
    hide Live;
    assert (ops + [op])[..|ops + [op]| - 1] == ops;
  }

  /** The i-th operation is a start that is not refused. */
  predicate Ran(cfg: Settings, ops: seq<Op>, i: nat) {
    i < |ops| && ops[i].StartRun? && CanStart(Lived(cfg, ops[..i]).state)
  }

  function RunAt(cfg: Settings, ops: seq<Op>, i: nat): Result
    requires Ran(cfg, ops, i)
  {
    Run(cfg, ops[i].startup, ops[i].rounds)
  }

  // ---- What DidBootstrap remembers -----------------------------------------------------

  function DidBootstrap(life: Life): bool {
    life.state == Running && life.didBootstrap
  }

  predicate BootstrappedAt(cfg: Settings, ops: seq<Op>, i: nat) {
    Ran(cfg, ops, i) && Bootstrapping in RunAt(cfg, ops, i).states
  }

  /** Some run visited Bootstrapping. */
  predicate EverBootstrapped(cfg: Settings, ops: seq<Op>) {
    exists i: nat | i < |ops| :: BootstrappedAt(cfg, ops, i)
  }

  lemma BootstrappedNext(cfg: Settings, ops: seq<Op>, op: Op, i: nat)
    requires i < |ops|
    ensures BootstrappedAt(cfg, ops + [op], i) <==> BootstrappedAt(cfg, ops, i)
  {
    hide Run, Lived;
    assert (ops + [op])[..i] == ops[..i];
  }

  lemma EverNext(cfg: Settings, ops: seq<Op>, op: Op)
    ensures EverBootstrapped(cfg, ops + [op]) <==> EverBootstrapped(cfg, ops) || BootstrappedAt(cfg, ops + [op], |ops|)
  {
    hide BootstrappedAt;
    forall i: nat | i < |ops|
      ensures BootstrappedAt(cfg, ops + [op], i) <==> BootstrappedAt(cfg, ops, i)
    {
      BootstrappedNext(cfg, ops, op, i);
    }
  }

  /** The flag is set exactly when some run visited Bootstrapping. */
  lemma {:induction false} FlagRemembers(cfg: Settings, ops: seq<Op>)
    ensures Lived(cfg, ops).didBootstrap <==> EverBootstrapped(cfg, ops)
  {
    hide Run;
    if ops != [] {
      var init, op := ops[..|ops| - 1], ops[|ops| - 1];
      FlagRemembers(cfg, init);
      assert ops == init + [op];
      EverNext(cfg, init, op);
      if op.StartRun? {
        RunEnds(cfg, op.startup, op.rounds);
      }
    }
  }

  /** What `DidBootstrap` says at any time: the node is Running and some run of it visited
      Bootstrapping. */
  lemma DidBootstrapMeans(cfg: Settings, ops: seq<Op>)
    ensures DidBootstrap(Lived(cfg, ops)) <==> Lived(cfg, ops).state == Running && EverBootstrapped(cfg, ops)
  {
    hide EverBootstrapped, Lived;
    FlagRemembers(cfg, ops);
  }

  /** After this start `DidBootstrap` says how it reached Running. */
  ghost predicate Told(cfg: Settings, before: seq<Op>, startup: Startup, rounds: seq<Round>) {
    var life := Lived(cfg, before + [StartRun(startup, rounds)]);
    life.state == Running ==> (DidBootstrap(life) <==> Bootstrapping in Run(cfg, startup, rounds).states)
  }

  lemma ToldUnless(cfg: Settings, before: seq<Op>, startup: Startup, rounds: seq<Round>)
    requires CanStart(Lived(cfg, before).state)
    ensures Told(cfg, before, startup, rounds) <==>
            !(EverBootstrapped(cfg, before) && Run(cfg, startup, rounds).end.Joined?)
  {
    hide Run, EverBootstrapped, Lived;
    LivedNext(cfg, before, StartRun(startup, rounds));
    FlagRemembers(cfg, before);
    RunEnds(cfg, startup, rounds);
  }

  const ALL_UP := Startup(false, false, false)
  const UNMET := Round(Proceed, NoDiscoverer, false, true, NoDiscoverer, false, 0.0, None)
  const WELCOMED := Round(Proceed, Peers([PeerInfo("p", true)]), true, true, NoDiscoverer, false, 0.0, None)

  /** On these turns a node joins, and one that may bootstrap does. */
  lemma JoinsOrBootstraps(cfg: Settings)
    ensures Run(cfg, ALL_UP, [WELCOMED]).end.Joined?
    ensures cfg.canBootstrap ==> Run(cfg, ALL_UP, [UNMET]).end.Bootstrapped?
  {
    var peers := [PeerInfo("p", true)];
    assert peers[0] in peers && peers[..0] == [];
    assert PeerAddresses(peers) == ["p"];
  }

  /** Whatever a start may meet, `DidBootstrap` afterwards says how it reached Running, if
      and only if no run visited Bootstrapping before it: the flag is never cleared. */
  lemma DidBootstrapExactly(cfg: Settings, before: seq<Op>)
    requires CanStart(Lived(cfg, before).state)
    ensures (forall startup, rounds :: Told(cfg, before, startup, rounds)) <==> !EverBootstrapped(cfg, before)
  {
    hide Told, EverBootstrapped, Run;
    forall startup, rounds
      ensures Told(cfg, before, startup, rounds) <==>
              !(EverBootstrapped(cfg, before) && Run(cfg, startup, rounds).end.Joined?)
    {
      ToldUnless(cfg, before, startup, rounds);
    }
    JoinsOrBootstraps(cfg);
    assert Told(cfg, before, ALL_UP, [WELCOMED]) <==> !EverBootstrapped(cfg, before);
  }

  /** Before the first Running no run has bootstrapped. */
  lemma NoneBootstrappedYet(cfg: Settings, ops: seq<Op>)
    requires forall i | 0 <= i <= |ops| :: Lived(cfg, ops[..i]).state != Running
    ensures !EverBootstrapped(cfg, ops)
  {
    hide Run, Lived;
    forall i: nat | i < |ops|
      ensures !BootstrappedAt(cfg, ops, i)
    {
      if Ran(cfg, ops, i) {
        LivedNext(cfg, ops[..i], ops[i]);
        assert ops[..i] + [ops[i]] == ops[..i + 1];
        RunEnds(cfg, ops[i].startup, ops[i].rounds);
      }
    }
  }

  /** From New, over any number of failed starts and stops, to the first Running,
      `DidBootstrap` holds exactly when that Running was reached through Bootstrapping. */
  lemma FirstRunningIsTold(cfg: Settings, before: seq<Op>, startup: Startup, rounds: seq<Round>)
    requires forall i | 0 <= i <= |before| :: Lived(cfg, before[..i]).state != Running
    requires Lived(cfg, before + [StartRun(startup, rounds)]).state == Running
    ensures DidBootstrap(Lived(cfg, before + [StartRun(startup, rounds)]))
            <==> Bootstrapping in Run(cfg, startup, rounds).states
  {
    hide Run;
    LivedNext(cfg, before, StartRun(startup, rounds));
    assert before[..|before|] == before;
    NoneBootstrappedYet(cfg, before);
    ToldUnless(cfg, before, startup, rounds);
  }

  /** Bootstrapping, stopping, then joining leaves the flag set. */
  lemma FlagOutlivesStop()
    ensures var cfg := Settings("n", true, 0);
            var ops := [StartRun(ALL_UP, [UNMET])] + [StopRun(false)];
            && Bootstrapping !in Run(cfg, ALL_UP, [WELCOMED]).states
            && DidBootstrap(Lived(cfg, ops + [StartRun(ALL_UP, [WELCOMED])]))
  {
    hide Run;
    var cfg := Settings("n", true, 0);
    var start, again := StartRun(ALL_UP, [UNMET]), StartRun(ALL_UP, [WELCOMED]);
    JoinsOrBootstraps(cfg);
    RunEnds(cfg, ALL_UP, [WELCOMED]);
    RunEnds(cfg, ALL_UP, [UNMET]);
    LivedNext(cfg, [], start);
    LivedNext(cfg, [start], StopRun(false));
    LivedNext(cfg, [start] + [StopRun(false)], again);
    assert [] + [start] == [start];
  }

  // ---- Which mDNS servers are left up -------------------------------------------------------

  /** A run that failed with its advertiser's server up. */
  predicate FailedUp(cfg: Settings, ops: seq<Op>, i: nat) {
    Ran(cfg, ops, i) && !ops[i].startup.advertiserFails && LastState(Init, RunAt(cfg, ops, i).states) == Failed
  }

  /** The node was started again right after such a run, without a stop between. */
  predicate Strands(cfg: Settings, ops: seq<Op>, i: nat) {
    i + 1 < |ops| && FailedUp(cfg, ops, i) && ops[i + 1].StartRun?
  }

  lemma FailedUpNext(cfg: Settings, ops: seq<Op>, op: Op, i: nat)
    requires i < |ops|
    ensures FailedUp(cfg, ops + [op], i) <==> FailedUp(cfg, ops, i)
  {
    hide Run, Lived;
    assert (ops + [op])[..i] == ops[..i];
  }

  /** A node that can be started has its server up exactly when its last run failed so. */
  lemma {:induction false} UpExactly(cfg: Settings, ops: seq<Op>)
    ensures CanStart(Lived(cfg, ops).state) ==>
              (Lived(cfg, ops).server.up <==> ops != [] && FailedUp(cfg, ops, |ops| - 1))
    ensures ops != [] && FailedUp(cfg, ops, |ops| - 1) ==> Lived(cfg, ops).state == Failed
  {
    hide Run;
    if ops != [] {
      var init, op := ops[..|ops| - 1], ops[|ops| - 1];
      UpExactly(cfg, init);
      if op.StartRun? {
        RunEnds(cfg, op.startup, op.rounds);
      }
    }
  }

  /** The operation starts the node again right after it failed with its server up. */
  predicate Restrands(cfg: Settings, ops: seq<Op>, op: Op) {
    ops != [] && FailedUp(cfg, ops, |ops| - 1) && op.StartRun?
  }

  lemma StrandsNext(cfg: Settings, ops: seq<Op>, op: Op, i: nat)
    ensures Strands(cfg, ops + [op], i) <==>
            Strands(cfg, ops, i) || (i == |ops| - 1 && Restrands(cfg, ops, op))
  {
    hide FailedUp;
    if i < |ops| {
      FailedUpNext(cfg, ops, op, i);
    }
  }

  lemma StrandsAfter(cfg: Settings, ops: seq<Op>, op: Op)
    ensures (exists i: nat :: Strands(cfg, ops + [op], i)) <==>
            (exists i: nat :: Strands(cfg, ops, i)) || Restrands(cfg, ops, op)
  {
    hide Strands, Restrands;
    if i: nat :| Strands(cfg, ops + [op], i) {
      StrandsNext(cfg, ops, op, i);
    }
    if i: nat :| Strands(cfg, ops, i) {
      StrandsNext(cfg, ops, op, i);
    }
    if Restrands(cfg, ops, op) {
      RestrandsLast(cfg, ops, op);
      StrandsNext(cfg, ops, op, |ops| - 1);
    }
  }

  lemma RestrandsLast(cfg: Settings, ops: seq<Op>, op: Op)
    ensures Restrands(cfg, ops, op) ==> ops != []
  {
  }

  lemma StrandedNext(cfg: Settings, ops: seq<Op>, op: Op)
    ensures Lived(cfg, ops + [op]).server.stranded == Lived(cfg, ops).server.stranded + if Restrands(cfg, ops, op) then 1 else 0
  {
    hide Run, Lived, FailedUp;
    LivedNext(cfg, ops, op);
    UpExactly(cfg, ops);
  }

  lemma {:induction false} StrandedExactly(cfg: Settings, ops: seq<Op>)
    ensures Lived(cfg, ops).server.stranded > 0 <==> exists i: nat :: Strands(cfg, ops, i)
  {
    if ops == [] {
      assert forall i: nat :: !Strands(cfg, ops, i);
    } else {
      hide Strands, Restrands, Live;
      var init, op := ops[..|ops| - 1], ops[|ops| - 1];
      assert ops == init + [op];
      StrandedExactly(cfg, init);
      StrandedNext(cfg, init, op);
      StrandsAfter(cfg, init, op);
    }
  }

  /** A stop leaves a server of the node up if and only if the node was ever started again
      right after a run that failed with its server up: such a server is out of reach for
      every later stop. */
  lemma StopLeavesNothingUp(cfg: Settings, ops: seq<Op>, gossipStays: bool)
    requires Lived(cfg, ops).state != Init
    ensures AllUp(Lived(cfg, ops + [StopRun(gossipStays)]).server) > 0 <==> exists i: nat :: Strands(cfg, ops, i)
  {
    hide Strands, Lived;
    LivedNext(cfg, ops, StopRun(gossipStays));
    StrandedExactly(cfg, ops);
  }

  // ---- Which gossip instances are left up ----------------------------------------------------

  /** The i-th operation brings a gossip instance up. */
  predicate GossipStarted(cfg: Settings, ops: seq<Op>, i: nat) {
    Ran(cfg, ops, i) && !ops[i].startup.advertiserFails && !ops[i].startup.gossipFails
  }

  /** The k-th operation stops gossip: a refused stop does not, nor one gossip fails in. */
  predicate GossipStopped(cfg: Settings, ops: seq<Op>, k: nat) {
    k < |ops| && ops[k].StopRun? && !ops[k].gossipStays && Lived(cfg, ops[..k]).state != Init
  }

  /** Gossip came up at `i`, and no operation between there and `j` stopped it. */
  ghost predicate StaysUp(cfg: Settings, ops: seq<Op>, i: nat, j: nat) {
    i < j <= |ops| && GossipStarted(cfg, ops, i) && forall k | i < k < j :: !GossipStopped(cfg, ops, k)
  }

  /** At `j` another instance came up while one that came up at `i` was still there. */
  ghost predicate GossipStrands(cfg: Settings, ops: seq<Op>, i: nat, j: nat) {
    StaysUp(cfg, ops, i, j) && GossipStarted(cfg, ops, j)
  }

  lemma EarlierSame(cfg: Settings, ops: seq<Op>, op: Op, i: nat)
    requires i < |ops|
    ensures GossipStarted(cfg, ops + [op], i) <==> GossipStarted(cfg, ops, i)
    ensures GossipStopped(cfg, ops + [op], i) <==> GossipStopped(cfg, ops, i)
  {
    hide Run, Lived;
    assert (ops + [op])[..i] == ops[..i];
  }

  lemma StaysUpSame(cfg: Settings, ops: seq<Op>, op: Op, i: nat, j: nat)
    requires j <= |ops|
    ensures StaysUp(cfg, ops + [op], i, j) <==> StaysUp(cfg, ops, i, j)
  {
    hide GossipStarted, GossipStopped;
    if i < j {
      EarlierSame(cfg, ops, op, i);
      forall k | i < k < j
        ensures GossipStopped(cfg, ops + [op], k) <==> GossipStopped(cfg, ops, k)
      {
        EarlierSame(cfg, ops, op, k);
      }
    }
  }

  lemma StaysUpNext(cfg: Settings, ops: seq<Op>, op: Op, i: nat)
    ensures StaysUp(cfg, ops + [op], i, |ops| + 1) <==>
            if i == |ops| then GossipStarted(cfg, ops + [op], |ops|)
            else StaysUp(cfg, ops, i, |ops|) && !GossipStopped(cfg, ops + [op], |ops|)
  {
    hide GossipStarted, GossipStopped;
    StaysUpSame(cfg, ops, op, i, |ops|);
  }

  /** What one more operation does to the gossip instances. */
  lemma GossipNext(cfg: Settings, ops: seq<Op>, op: Op)
    ensures var before, after := Lived(cfg, ops).gossip, Lived(cfg, ops + [op]).gossip;
            var started := GossipStarted(cfg, ops + [op], |ops|);
            && after.up == (started || (before.up && !GossipStopped(cfg, ops + [op], |ops|)))
            && after.stranded == before.stranded + if started && before.up then 1 else 0
  {
    hide Run, Lived;
    LivedNext(cfg, ops, op);
    assert (ops + [op])[..|ops|] == ops;
  }

  lemma NothingStarted(cfg: Settings, ops: seq<Op>)
    requires ops == []
    ensures !Lived(cfg, ops).gossip.up && Lived(cfg, ops).gossip.stranded == 0
    ensures forall i: nat, j: nat :: !StaysUp(cfg, ops, i, j) && !GossipStrands(cfg, ops, i, j)
  {
  }

  lemma {:induction false} GossipUpExactly(cfg: Settings, ops: seq<Op>)
    ensures Lived(cfg, ops).gossip.up <==> exists i: nat :: StaysUp(cfg, ops, i, |ops|)
  {
    hide StaysUp, GossipStarted, GossipStopped, GossipStrands, Lived;
    if ops == [] {
      NothingStarted(cfg, ops);
    } else {
      var init, op := ops[..|ops| - 1], ops[|ops| - 1];
      assert ops == init + [op];
      GossipUpExactly(cfg, init);
      GossipNext(cfg, init, op);
      BeforeEnd(cfg, init);
      StaysUpNext(cfg, init, op, |init|);
      if i: nat :| StaysUp(cfg, ops, i, |ops|) {
        StaysUpNext(cfg, init, op, i);
      }
      if i: nat :| StaysUp(cfg, init, i, |init|) {
        StaysUpNext(cfg, init, op, i);
      }
    }
  }

  lemma BeforeEnd(cfg: Settings, ops: seq<Op>)
    ensures forall i: nat, j: nat | StaysUp(cfg, ops, i, j) :: i < j <= |ops|
  {
  }

  lemma StrandsSame(cfg: Settings, ops: seq<Op>, op: Op, i: nat, j: nat)
    ensures GossipStrands(cfg, ops + [op], i, j) <==>
            GossipStrands(cfg, ops, i, j) || (j == |ops| && StaysUp(cfg, ops, i, |ops|) && GossipStarted(cfg, ops + [op], |ops|))
  {
    hide StaysUp, GossipStopped, Lived, Run;
    BeforeEnd(cfg, ops);
    BeforeEnd(cfg, ops + [op]);
    if j < |ops| {
      StaysUpSame(cfg, ops, op, i, j);
      EarlierSame(cfg, ops, op, j);
    } else if j == |ops| {
      StaysUpSame(cfg, ops, op, i, j);
    }
  }

  lemma {:induction false} GossipStrandedExactly(cfg: Settings, ops: seq<Op>)
    ensures Lived(cfg, ops).gossip.stranded > 0 <==> exists i: nat, j: nat :: GossipStrands(cfg, ops, i, j)
  {
    hide StaysUp, GossipStarted, GossipStopped, GossipStrands, Lived;
    if ops == [] {
      NothingStarted(cfg, ops);
    } else {
      var init, op := ops[..|ops| - 1], ops[|ops| - 1];
      assert ops == init + [op];
      GossipStrandedExactly(cfg, init);
      GossipUpExactly(cfg, init);
      GossipNext(cfg, init, op);
      if i: nat, j: nat :| GossipStrands(cfg, ops, i, j) {
        StrandsSame(cfg, init, op, i, j);
      }
      if i: nat, j: nat :| GossipStrands(cfg, init, i, j) {
        StrandsSame(cfg, init, op, i, j);
      }
      if i: nat :| StaysUp(cfg, init, i, |init|) {
        StrandsSame(cfg, init, op, i, |init|);
      }
    }
  }

  /** A stop leaves a gossip instance of the node up if and only if one ever came up while
      another that no stop had reached was still there, or this stop fails to take the last
      one down. */
  lemma StopLeavesNoGossip(cfg: Settings, ops: seq<Op>, gossipStays: bool)
    requires Lived(cfg, ops).state != Init
    ensures AllUp(Lived(cfg, ops + [StopRun(gossipStays)]).gossip) > 0 <==>
            || (exists i: nat, j: nat :: GossipStrands(cfg, ops, i, j))
            || (gossipStays && exists i: nat :: StaysUp(cfg, ops, i, |ops|))
  {
    hide GossipStrands, StaysUp, Lived;
    LivedNext(cfg, ops, StopRun(gossipStays));
    GossipStrandedExactly(cfg, ops);
    GossipUpExactly(cfg, ops);
  }

  const CANCELLED := Round(ContextDone, NoDiscoverer, false, false, NoDiscoverer, false, 0.0, None)

  /** A node whose first run is cancelled and whose second joins keeps, after a clean stop,
      a server and a gossip instance up. */
  lemma RestartLeavesBothUp()
    ensures var cfg := Settings("n", true, 0);
            var ops := [StartRun(ALL_UP, [CANCELLED])] + [StartRun(ALL_UP, [WELCOMED])];
            var life := Lived(cfg, ops + [StopRun(false)]);
            && Lived(cfg, ops).state == Running
            && life.state == Init && AllUp(life.server) == 1 && AllUp(life.gossip) == 1
  {
    var cfg := Settings("n", true, 0);
    var first, second := StartRun(ALL_UP, [CANCELLED]), StartRun(ALL_UP, [WELCOMED]);
    assert Run(cfg, ALL_UP, [CANCELLED]).states == [MDNSAdvertiserUp, GossipUp] + [Failed];
    hide Run;
    JoinsOrBootstraps(cfg);
    RunEnds(cfg, ALL_UP, [WELCOMED]);
    LivedNext(cfg, [], first);
    LivedNext(cfg, [first], second);
    LivedNext(cfg, [first] + [second], StopRun(false));
    assert [] + [first] == [first];
  }

  /** A run that fails because gossip does is enough to leave a server up. */
  lemma RestartLeavesServerUp()
    ensures var ops := [StartRun(Startup(false, true, false), [])] + [StartRun(ALL_UP, [WELCOMED])];
            AllUp(Lived(Settings("n", true, 0), ops + [StopRun(false)]).server) == 1
  {
    var cfg := Settings("n", true, 0);
    var first, second := StartRun(Startup(false, true, false), []), StartRun(ALL_UP, [WELCOMED]);
    JoinsOrBootstraps(cfg);
    RunEnds(cfg, ALL_UP, [WELCOMED]);
    RunEnds(cfg, first.startup, []);
    LivedNext(cfg, [], first);
    LivedNext(cfg, [first], second);
    LivedNext(cfg, [first] + [second], StopRun(false));
    assert [] + [first] == [first];
  }
}
