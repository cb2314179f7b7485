/** What decides how a run ends, in terms of what its turns meet. */
module Decisions {
  import opened Options
  import opened Mdns
  import opened Lifecycle

  /** A discoverer of peers lists a bootstrapped one; one of addresses finds some, gossip
      joins through them, and then has another bootstrapped member among more than one. */
  predicate Sees(self: string, reply: DiscoveryReply) {
    match reply
    case Peers(peers) => exists i | 0 <= i < |peers| :: peers[i].bootstrapped
    case Addresses(addrs, joined, members) =>
      |addrs| > 0 && joined && |members| > 1 && exists i | 0 <= i < |members| :: members[i].id != self && members[i].bootstrapped
    case _ => false
  }

  lemma {:induction false} PeerAddressesAre(peers: seq<PeerInfo>)
    ensures |PeerAddresses(peers)| == |peers|
    ensures forall i | 0 <= i < |peers| :: PeerAddresses(peers)[i] == peers[i].address
  {
    if peers != [] {
      PeerAddressesAre(peers[..|peers| - 1]);
    }
  }

  /** What discovery reports: the addresses it was told, in order, and whether it sees a
      cluster, which then has an address. */
  lemma DiscoveryReports(self: string, reply: DiscoveryReply)
    ensures var d := Discovered(self, reply);
            && (d.bootstrapped <==> Sees(self, reply))
            && (d.bootstrapped ==> d.addrs != [])
            && d.addrs == match reply
                          case Peers(peers) => seq(|peers|, i requires 0 <= i < |peers| => peers[i].address)
                          case Addresses(addrs, joined, members) => addrs
                          case _ => []
  {
    if reply.Peers? {
      PeerAddressesAre(reply.peers);
      assert forall p :: p in reply.peers <==> exists i | 0 <= i < |reply.peers| :: reply.peers[i] == p;
    }
  }

  // ---- What a turn comes to --------------------------------------------------------------

  /** The turn joins the cluster it finds. */
  predicate Joins(cfg: Settings, r: Round) {
    r.signal == Proceed && Sees(cfg.nodeID, r.found) && r.joinOk
  }

  /** The turn finds no cluster, the node may bootstrap, its slot wait completes, the recheck
      sees nobody bootstrapped either, and gossip has no other member. */
  predicate Founds(cfg: Settings, r: Round) {
    && r.signal == Proceed && !Sees(cfg.nodeID, r.found)
    && cfg.canBootstrap && r.slot && !Sees(cfg.nodeID, r.recheck) && !r.others
  }

  predicate Fails(cfg: Settings, r: Round) {
    r.signal == Proceed && !Joins(cfg, r) && !Founds(cfg, r)
  }

  /** The turns before the k-th all fail and leave retries. */
  predicate Comes(cfg: Settings, rounds: seq<Round>, attempt: nat, k: nat) {
    k <= |rounds| && forall i | 0 <= i < k :: Fails(cfg, rounds[i]) && !Last(cfg, attempt + i)
  }

  /** The turn after `attempt` failed ones is the last that is allowed. */
  predicate Last(cfg: Settings, attempt: nat) {
    cfg.maxDiscoveryRetries > 0 && attempt + 1 >= cfg.maxDiscoveryRetries
  }

  /** A turn after `attempt` failed ones ends the run in this way. */
  ghost predicate EndsBy(cfg: Settings, r: Round, attempt: nat, end: End) {
    match end
    case Joined => Joins(cfg, r)
    case Bootstrapped => Founds(cfg, r)
    case Exhausted => Fails(cfg, r) && Last(cfg, attempt)
    case Cancelled => r.signal == ContextDone
    case Stopped => r.signal == StopRequested
    case _ => false
  }

  /** The run ends at its k-th turn in this way, or runs out of turns. */
  ghost predicate EndsAt(cfg: Settings, rounds: seq<Round>, attempt: nat, k: nat, end: End) {
    && Comes(cfg, rounds, attempt, k)
    && if k == |rounds| then end == Open else EndsBy(cfg, rounds[k], attempt + k, end)
  }

  lemma TurnMeans(cfg: Settings, r: Round)
    ensures FoundCluster(cfg, r) <==> Sees(cfg.nodeID, r.found)
    ensures ShouldBootstrap(cfg, r) <==> r.slot && !r.others && !Sees(cfg.nodeID, r.recheck)
  {
    hide Discovered, Sees;
    DiscoveryReports(cfg.nodeID, r.found);
    DiscoveryReports(cfg.nodeID, r.recheck);
  }

  /** A first turn that does not fail, or fails for the last time, ends the run. */
  lemma FirstTurnEnds(cfg: Settings, rounds: seq<Round>, attempt: nat, backoff: nat)
    requires rounds != [] && !(Fails(cfg, rounds[0]) && !Last(cfg, attempt))
    ensures EndsAt(cfg, rounds, attempt, 0, RunFrom(cfg, rounds, attempt, backoff).end)
  {
    hide Sees, RunFrom, FoundCluster, ShouldBootstrap;
    TurnMeans(cfg, rounds[0]);
    TurnCases(cfg, rounds, attempt, backoff);
  }

  lemma FirstTurnFails(cfg: Settings, rounds: seq<Round>, attempt: nat, backoff: nat)
    requires rounds != [] && Fails(cfg, rounds[0]) && !Last(cfg, attempt)
    ensures RunFrom(cfg, rounds, attempt, backoff).end == RunFrom(cfg, rounds[1..], attempt + 1, NextBackoff(backoff)).end
  {
    hide Sees, RunFrom, FoundCluster, ShouldBootstrap, NextBackoff;
    TurnMeans(cfg, rounds[0]);
    TurnCases(cfg, rounds, attempt, backoff);
  }

  lemma ComesLater(cfg: Settings, rounds: seq<Round>, attempt: nat, k: nat)
    requires rounds != [] && Fails(cfg, rounds[0]) && !Last(cfg, attempt)
    requires Comes(cfg, rounds[1..], attempt + 1, k)
    ensures Comes(cfg, rounds, attempt, k + 1)
  {
    hide Fails, Last;
    forall i | 0 <= i < k + 1
      ensures Fails(cfg, rounds[i]) && !Last(cfg, attempt + i)
    {
      if i > 0 {
        ComesThrough(cfg, rounds[1..], attempt + 1, i - 1, k);
        assert attempt + 1 + (i - 1) == attempt + i && rounds[1..][i - 1] == rounds[i];
      }
    }
  }

  lemma EndsLater(cfg: Settings, rounds: seq<Round>, attempt: nat, k: nat, end: End)
    requires rounds != [] && Fails(cfg, rounds[0]) && !Last(cfg, attempt)
    requires EndsAt(cfg, rounds[1..], attempt + 1, k, end)
    ensures EndsAt(cfg, rounds, attempt, k + 1, end)
  {
    hide Fails, Last, EndsBy, Comes;
    ComesLater(cfg, rounds, attempt, k);
    WithinRounds(cfg, rounds[1..], attempt + 1, k);
    assert attempt + 1 + k == attempt + (k + 1);
    assert k < |rounds| - 1 ==> rounds[1..][k] == rounds[k + 1];
  }

  lemma {:induction false} LoopEndsAt(cfg: Settings, rounds: seq<Round>, attempt: nat, backoff: nat) returns (k: nat)
    ensures EndsAt(cfg, rounds, attempt, k, RunFrom(cfg, rounds, attempt, backoff).end)
    decreases |rounds|
  {
    hide Sees, RunFrom, Fails, Last, NextBackoff, EndsAt;
    if rounds == [] {
      k := 0;
      NothingEnds(cfg, attempt, backoff);
    } else if Fails(cfg, rounds[0]) && !Last(cfg, attempt) {
      k := LoopEndsAt(cfg, rounds[1..], attempt + 1, NextBackoff(backoff));
      FirstTurnFails(cfg, rounds, attempt, backoff);
      EndsLater(cfg, rounds, attempt, k, RunFrom(cfg, rounds, attempt, backoff).end);
      k := k + 1;
    } else {
      k := 0;
      FirstTurnEnds(cfg, rounds, attempt, backoff);
    }
  }

  lemma NothingEnds(cfg: Settings, attempt: nat, backoff: nat)
    ensures EndsAt(cfg, [], attempt, 0, RunFrom(cfg, [], attempt, backoff).end)
  {
  }

  /** A run ends in one place and one way only. */
  lemma EndsOnce(cfg: Settings, rounds: seq<Round>, attempt: nat, j: nat, k: nat, d: End, e: End)
    requires EndsAt(cfg, rounds, attempt, j, d) && EndsAt(cfg, rounds, attempt, k, e)
    ensures j == k && d == e
  {
    hide Sees;
    if j < k {
      ComesThrough(cfg, rounds, attempt, j, k);
    } else if k < j {
      ComesThrough(cfg, rounds, attempt, k, j);
    }
  }

  lemma ComesThrough(cfg: Settings, rounds: seq<Round>, attempt: nat, j: nat, k: nat)
    requires Comes(cfg, rounds, attempt, k) && j < k
    ensures Fails(cfg, rounds[j]) && !Last(cfg, attempt + j)
  {
  }

  /** How a run ends, exactly: a start-up failure, or the first turn that does not fail with
      retries left decides. In particular it bootstraps if and only if that turn founds. */
  lemma EndsExactly(cfg: Settings, startup: Startup, rounds: seq<Round>, end: End)
    ensures Run(cfg, startup, rounds).end == end <==>
            if startup.advertiserFails || startup.gossipFails then end == StartupFailed
            else exists k: nat :: EndsAt(cfg, rounds, 0, k, end)
  {
    hide EndsAt, RunFrom;
    if !startup.advertiserFails && !startup.gossipFails {
      var j := LoopEndsAt(cfg, rounds, 0, INITIAL_BACKOFF);
      if k: nat :| EndsAt(cfg, rounds, 0, k, end) {
        EndsOnce(cfg, rounds, 0, j, k, Run(cfg, startup, rounds).end, end);
      }
    }
  }

  /** A trace visits Bootstrapping exactly when start-up succeeds and some turn founds after
      turns that all failed with retries left. */
  lemma BootstrapsExactly(cfg: Settings, startup: Startup, rounds: seq<Round>)
    ensures Bootstrapping in Run(cfg, startup, rounds).states <==>
            && !startup.advertiserFails && !startup.gossipFails
            && exists k: nat :: k < |rounds| && Comes(cfg, rounds, 0, k) && Founds(cfg, rounds[k])
  {
    hide Run, Comes, Founds, Fails, Joins, Last;
    RunEnds(cfg, startup, rounds);
    EndsExactly(cfg, startup, rounds, Bootstrapped);
    forall k: nat
      ensures EndsAt(cfg, rounds, 0, k, Bootstrapped) <==> k < |rounds| && Comes(cfg, rounds, 0, k) && Founds(cfg, rounds[k])
    {
      WithinRounds(cfg, rounds, 0, k);
    }
  }

  lemma WithinRounds(cfg: Settings, rounds: seq<Round>, attempt: nat, k: nat)
    ensures Comes(cfg, rounds, attempt, k) ==> k <= |rounds|
  {
  }

  // ---- Waits -----------------------------------------------------------------------------

  /** Every wait of a run uses its own turn: the k-th backoff, stretched by that turn's
      jitter, cut where that turn cuts it. */
  lemma {:induction false} LoopWaitsAre(cfg: Settings, rounds: seq<Round>, attempt: nat, n: nat)
    ensures var waits := RunFrom(cfg, rounds, attempt, BackoffAt(n)).waits;
            && |waits| <= |rounds|
            && forall k | 0 <= k < |waits| :: waits[k] == Waited(BackoffAt(n + k), rounds[k].jitter, rounds[k].cutShort)
    decreases |rounds|
  {
    hide Waited, BackoffAt, NextBackoff, FoundCluster, ShouldBootstrap;
    if rounds != [] {
      BackoffStep(n);
      NextWait(cfg, rounds, attempt, BackoffAt(n));
      LoopWaitsAre(cfg, rounds[1..], attempt + 1, n + 1);
      var waits := RunFrom(cfg, rounds, attempt, BackoffAt(n)).waits;
      forall k | 0 <= k < |waits|
        ensures waits[k] == Waited(BackoffAt(n + k), rounds[k].jitter, rounds[k].cutShort)
      {
        if k > 0 {
          assert n + 1 + (k - 1) == n + k && rounds[1..][k - 1] == rounds[k];
        } else {
          assert n + k == n;
        }
      }
    }
  }

  lemma WaitsAre(cfg: Settings, startup: Startup, rounds: seq<Round>)
    ensures var waits := Run(cfg, startup, rounds).waits;
            && |waits| <= |rounds|
            && forall k | 0 <= k < |waits| ::
                 waits[k] == Waited(Capped(k), rounds[k].jitter, rounds[k].cutShort)
  {
    hide RunFrom, Waited, BackoffAt, Capped;
    FirstBackoff();
    LoopWaitsAre(cfg, rounds, 0, 0);
    forall k: nat
      ensures BackoffAt(k) == Capped(k)
    {
      BackoffDoubles(k);
    }
  }

  /** A wait that a stop or a cancellation cuts ends at the cut, and any other is not cut. */
  lemma WaitIsCut(backoff: nat, jitter: Fraction, cut: real)
    requires 0.0 <= cut
    ensures var full := Waited(backoff, jitter, None);
            Waited(backoff, jitter, Some(cut)) == if cut < full then cut else full
  {
  }

  /** The uncut waits after a backoff are exactly the durations from it up to half as long
      again. */
  lemma WaitsSpread(backoff: nat, duration: real)
    requires backoff > 0
    ensures (exists jitter: Fraction :: Waited(backoff, jitter, None) == duration) <==>
            backoff as real <= duration < 1.5 * backoff as real
  {
    var half := 0.5 * backoff as real;
    assert forall jitter: Fraction :: Waited(backoff, jitter, None) == backoff as real + half * jitter;
    if backoff as real <= duration < backoff as real + half {
      var over := duration - backoff as real;
      Quotient(over, half);
      var jitter: Fraction := over / half;
      assert Waited(backoff, jitter, None) == duration;
    }
    forall jitter: Fraction
      ensures backoff as real <= Waited(backoff, jitter, None) < backoff as real + half
    {
      BelowWhole(half, jitter);
    }
  }

  lemma Quotient(over: real, half: real)
    requires 0.0 <= over < half
    ensures 0.0 <= over / half < 1.0 && half * (over / half) == over
  {
  }

  lemma BelowWhole(half: real, jitter: Fraction)
    requires half > 0.0
    ensures 0.0 <= half * jitter < half
  {
    assert half - half * jitter == half * (1.0 - jitter);
  }
}
