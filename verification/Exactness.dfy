/** Exactly which goroutines may run beside a pass without keeping it from its target. */
module Exactness {
  import opened Options
  import opened Cluster
  import opened Membership
  import opened Convergence
  import opened Interleaving

  // ---- Running goroutines one after another ------------------------------------------------

  ghost predicate AllSmooth(ls: seq<Label>) {
    forall l | l in ls :: Smooth(l)
  }

  lemma SmoothAppend(ls: seq<Label>, ms: seq<Label>)
    requires AllSmooth(ls) && AllSmooth(ms)
    ensures AllSmooth(ls + ms)
  {
  }

  lemma {:induction false} PerformCommits(acts: seq<Action>, n: nat)
    ensures forall e | e in Perform(acts, [], n) :: e.reply == Committed
  {
    if acts != [] {
      PerformCommits(acts[..|acts| - 1], n);
    }
  }

  lemma SendsSmooth(p: nat, es: seq<Event>)
    requires forall e | e in es :: e.reply == Committed
    ensures AllSmooth(Sends(p, es))
  {
    forall l | l in Sends(p, es)
      ensures Smooth(l)
    {
      var i: nat :| i < |es| && Sends(p, es)[i] == l;
      assert es[i] in es;
    }
  }

  /** The list a goroutine leaves when it runs alone and every call commits. */
  function Remains(self: Id, proc: Proc, servers: seq<Server>): seq<Server> {
    Issue(RaftState(servers, []), Plan(self, proc, true, true, servers), []).servers
  }

  lemma RunAlone(self: Id, w: World, p: nat) returns (ls: seq<Label>)
    requires p < |w.procs| && !w.procs[p].Working? && Distinct(w.servers)
    ensures AllSmooth(ls)
    ensures Exec(self, w, ls) == World(Remains(self, w.procs[p], w.servers), w.procs[p := Working([])])
    ensures Distinct(Exec(self, w, ls).servers)
  {
    hide Plan, Perform, View, Distinct, Exec, Smooth;
    var acts := Plan(self, w.procs[p], true, true, w.servers);
    var es := Perform(acts, [], 0);
    PerformCommits(acts, 0);
    SendsSmooth(p, es);
    BeginSmooth(p);
    SmoothAppend([Begin(p, true, true)], Sends(p, es));
    ls := [Begin(p, true, true)] + Sends(p, es);
    AloneIsHandler(self, w, p, true, true, [], []);
    IssueView(RaftState(w.servers, []), acts, []);
  }

  lemma BeginSmooth(p: nat)
    ensures AllSmooth([Begin(p, true, true)]) && AllSmooth([])
  {
  }

  ghost predicate AllDue(procs: seq<Proc>) {
    forall i | 0 <= i < |procs| :: !procs[i].Working?
  }

  /** The first `k` goroutines but `h` have finished, the others have not begun. */
  ghost predicate HalfDone(procs: seq<Proc>, v: World, h: nat, k: nat) {
    |v.procs| == |procs| && forall i | 0 <= i < |procs| :: v.procs[i] == if i < k && i != h then Working([]) else procs[i]
  }

  lemma {:induction false} RunOthers(self: Id, w: World, h: nat, k: nat) returns (ls: seq<Label>)
    requires AllDue(w.procs) && Distinct(w.servers) && h < |w.procs| && k <= |w.procs|
    ensures AllSmooth(ls) && HalfDone(w.procs, Exec(self, w, ls), h, k) && Distinct(Exec(self, w, ls).servers)
  {
    hide Next, Distinct, Remains;
    if k == 0 {
      ls := [];
      BeginSmooth(h);
    } else {
      ls := RunOthers(self, w, h, k - 1);
      if k - 1 != h {
        var v := Exec(self, w, ls);
        var ms := RunAlone(self, v, k - 1);
        ExecAppend(self, w, ls, ms);
        SmoothAppend(ls, ms);
        ls := ls + ms;
      }
    }
  }

  /** Goroutine `h` can finish last, alone, from some list. */
  lemma RunLast(self: Id, w: World, h: nat) returns (ls: seq<Label>, before: seq<Server>)
    requires AllDue(w.procs) && Distinct(w.servers) && h < |w.procs|
    ensures AllSmooth(ls) && Distinct(before)
    ensures Finished(Exec(self, w, ls)) && Exec(self, w, ls).servers == Remains(self, w.procs[h], before)
  {
    hide Next, Distinct, Remains, AllSmooth, Exec;
    ls := RunOthers(self, w, h, |w.procs|);
    var v := Exec(self, w, ls);
    before := v.servers;
    var ms := RunAlone(self, v, h);
    ExecAppend(self, w, ls, ms);
    SmoothAppend(ls, ms);
    ls := ls + ms;
  }

  // ---- What a harmful goroutine does last ----------------------------------------------------

  /** Alone, a join that is not ignored leaves its peer at its address. */
  lemma JoinLeaves(self: Id, peer: Peer, gossip: Option<seq<Member>>, servers: seq<Server>)
    requires Distinct(servers) && !IgnoredJoin(self, peer, gossip)
    ensures var v := View(Remains(self, JoinDue(peer, gossip), servers));
            peer.id in v && v[peer.id] == peer.raftAddr
  {
    hide View, Distinct, Perform, EffectAll;
    var c := View(servers);
    var acts := Plan(self, JoinDue(peer, gossip), true, true, servers);
    IssueView(RaftState(servers, []), acts, []);
    if acts == [] {
      NothingPerformed(c);
    } else {
      assert acts == [acts[0]];
      OnePerformed(c, acts[0]);
    }
  }

  lemma NothingPerformed(c: Config)
    ensures EffectAll(c, Perform([], [], 0)) == c
  {
  }

  lemma OnePerformed(c: Config, a: Action)
    ensures EffectAll(c, Perform([a], [], 0)) == if a.Remove? then c - {a.id} else c[a.id := a.addr]
  {
    hide One, EffectAll;
    assert [a][..0] == [];
    assert Perform([a], [], 0) == [] + One(a, [], 0);
    assert [] + One(a, [], 0) == One(a, [], 0);
    SettleOne(c, a, [], 0);
  }

  lemma LeaveLeaves(self: Id, id: Id, servers: seq<Server>)
    requires Distinct(servers) && id != self
    ensures id !in View(Remains(self, LeaveDue(id), servers))
  {
    hide View, Distinct, Perform, EffectAll;
    IssueView(RaftState(servers, []), [Remove(id)], []);
    OnePerformed(View(servers), Remove(id));
  }

  lemma PassLeaves(self: Id, ms: seq<Member>, servers: seq<Server>)
    requires Distinct(servers) && UniqueIds(ms)
    ensures View(Remains(self, PassDue(ms), servers)) == Target(Goals(self, ms), View(servers))
  {
    hide View, Distinct, PassActions, Issue, Target;
    PassReachesTarget(self, ms, RaftState(servers, []), []);
  }

  /** A start list from which a harmful goroutine that finishes last misses the target. */
  lemma HarmShows(self: Id, members: seq<Member>, proc: Proc) returns (start: seq<Server>)
    requires !proc.Working? && Orderly(proc) && !Harmless(self, members, proc)
    ensures Distinct(start)
    ensures forall before | Distinct(before) :: View(Remains(self, proc, before)) != Target(Goals(self, members), View(start))
  {
    hide Remains, View, Desired, UniqueIds, Distinct;
    GoalsValid(self, members);
    EmptyList();
    match proc
    case JoinDue(peer, gossip) =>
      start := [];
      forall before | Distinct(before)
        ensures View(Remains(self, proc, before)) != Target(Goals(self, members), View(start))
      {
        JoinLeaves(self, peer, gossip, before);
      }
    case LeaveDue(id) =>
      start := [Server(id, "a")];
      SingleList(id);
      forall before | Distinct(before)
        ensures View(Remains(self, proc, before)) != Target(Goals(self, members), View(start))
      {
        LeaveLeaves(self, id, before);
      }
    case PassDue(ms) =>
      start := PassHarmShows(self, members, ms);
  }

  lemma PassHarmShows(self: Id, members: seq<Member>, ms: seq<Member>) returns (start: seq<Server>)
    requires UniqueIds(ms) && !Harmless(self, members, PassDue(ms))
    ensures Distinct(start)
    ensures forall before | Distinct(before) :: View(Remains(self, PassDue(ms), before)) != Target(Goals(self, members), View(start))
  {
    hide Remains, View, Desired, UniqueIds, Distinct;
    GoalsValid(self, members);
    GoalsValid(self, ms);
    EmptyList();
    if x :| x in Desired(self, ms) && !Wanted(self, members, x, Desired(self, ms)[x]) {
      start := [];
      forall before | Distinct(before)
        ensures View(Remains(self, PassDue(ms), before)) != Target(Goals(self, members), View(start))
      {
        PassLeaves(self, ms, before);
        assert x in Target(Goals(self, ms), View(before));
      }
    } else {
      var x :| x in Ids(members) && x !in Ids(ms) + {self};
      start := [Server(x, "a")];
      SingleList(x);
      forall before | Distinct(before)
        ensures View(Remains(self, PassDue(ms), before)) != Target(Goals(self, members), View(start))
      {
        PassLeaves(self, ms, before);
        assert x !in Target(Goals(self, ms), View(before));
        assert x in Target(Goals(self, members), View(start));
      }
    }
  }

  lemma EmptyList()
    ensures Distinct([]) && View([]) == map[]
  {
  }

  lemma SingleList(x: Id)
    ensures Distinct([Server(x, "a")]) && x in View([Server(x, "a")])
  {
    assert [Server(x, "a")][..0] == [];
  }

  // ---- The exact condition -----------------------------------------------------------------

  /** From every server list, every run of the goroutines to their ends in which calls
      commit reaches the target. */
  ghost predicate Converges(self: Id, members: seq<Member>, procs: seq<Proc>) {
    forall servers, ls | Distinct(servers) && AllSmooth(ls) && Finished(Exec(self, World(servers, procs), ls)) ::
      View(Exec(self, World(servers, procs), ls).servers) == Target(Goals(self, members), View(servers))
  }

  /** Passes, joins and leaves, each with its own reading of gossip, one of them a pass over
      the current members: they converge to what current gossip asks for, from every server
      list and in every interleaving, if and only if each of them is harmless. */
  lemma ConvergesExactly(self: Id, members: seq<Member>, procs: seq<Proc>, pass: nat)
    requires UniqueIds(members) && AllDue(procs)
    requires forall i | 0 <= i < |procs| :: Orderly(procs[i])
    requires pass < |procs| && procs[pass] == PassDue(members)
    ensures Converges(self, members, procs) <==> forall i | 0 <= i < |procs| :: Harmless(self, members, procs[i])
  {
    hide View, Distinct, Harmless, Exec, Target, Goals, UniqueIds, Finished;
    if h :| 0 <= h < |procs| && !Harmless(self, members, procs[h]) {
      var start := HarmShows(self, members, procs[h]);
      var ls, before := RunLast(self, World(start, procs), h);
    } else {
      forall servers, ls | Distinct(servers) && AllSmooth(ls) && Finished(Exec(self, World(servers, procs), ls))
        ensures View(Exec(self, World(servers, procs), ls).servers) == Target(Goals(self, members), View(servers))
      {
        PassAmongHandlersConverges(self, members, World(servers, procs), ls, pass);
      }
    }
  }
}
