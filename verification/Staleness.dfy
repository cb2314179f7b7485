/** Event handlers under failures: from fresh snapshots they only make progress; a stale
    snapshot can cost a server that was already right. */
module Staleness {
  import opened Options
  import opened Cluster
  import opened Membership
  import opened Convergence
  import opened Progress
  import opened Interleaving

  // ---- Fresh snapshots ---------------------------------------------------------------------

  /** A call that changes the configuration lowers the measure, and no call touches a server
      that is right. */
  ghost predicate Closer(g: Goal, c: Config, e: Event) {
    var v := Effect(c, e);
    && Measure(g, v) + (if v == c then 0 else 1) <= Measure(g, c)
    && forall x | !OffTarget(g, c, x) :: SameEntry(v, c, x)
  }

  ghost predicate Approaches(g: Goal, c: Config, es: seq<Event>) {
    es == [] ||
    (Approaches(g, c, es[..|es| - 1]) && Closer(g, EffectAll(c, es[..|es| - 1]), es[|es| - 1]))
  }

  /** How many calls changed the configuration. */
  function Changed(c: Config, es: seq<Event>): nat {
    if es == [] then 0
    else
      var v := EffectAll(c, es[..|es| - 1]);
      Changed(c, es[..|es| - 1]) + if Effect(v, es[|es| - 1]) == v then 0 else 1
  }

  lemma {:induction false} ApproachesKeeps(g: Goal, c: Config, es: seq<Event>)
    requires Approaches(g, c, es)
    ensures Changed(c, es) + Measure(g, EffectAll(c, es)) <= Measure(g, c)
    ensures forall x | !OffTarget(g, c, x) :: SameEntry(EffectAll(c, es), c, x)
    ensures Target(g, EffectAll(c, es)) == Target(g, c)
  {
    hide Measure, Target;
    if es != [] {
      var init := es[..|es| - 1];
      ApproachesKeeps(g, c, init);
      var v := EffectAll(c, init);
      forall x | !OffTarget(g, c, x)
        ensures SameEntry(EffectAll(c, es), c, x)
      {
        assert SameEntry(v, c, x) && !OffTarget(g, v, x);
        assert SameEntry(Effect(v, es[|es| - 1]), v, x);
      }
    }
    RetainedTarget(g, c, EffectAll(c, es));
  }

  lemma {:induction false} ApproachesAppend(g: Goal, c: Config, es: seq<Event>, fs: seq<Event>)
    requires Approaches(g, c, es) && Approaches(g, EffectAll(c, es), fs)
    ensures Approaches(g, c, es + fs)
  {
    hide Closer;
    if fs == [] {
      assert es + fs == es;
    } else {
      var init := fs[..|fs| - 1];
      ApproachesAppend(g, c, es, init);
      EffectAllAppend(c, es, init);
      assert (es + fs)[..|es + fs| - 1] == es + init;
    }
  }

  lemma HelpsLowers(g: Goal, c: Config, e: Event)
    requires g.Valid() && Helps(g, c, e.call)
    ensures Measure(g, Effect(c, e)) + (if Applied(e) then 1 else 0) <= Measure(g, c)
  {
    hide Measure, Helps, Effect;
    MeasureGauges(g);
    assert Lowers(Gauge(g), c, e);
  }

  lemma HelpsCloser(g: Goal, c: Config, e: Event)
    requires g.Valid() && Helps(g, c, e.call)
    ensures Closer(g, c, e)
  {
    hide Measure, OffTarget;
    HelpsLowers(g, c, e);
    EffectIsLocal(c, e);
    assert OffTarget(g, c, e.call.id);
  }

  lemma IdleCloser(g: Goal, c: Config, id: Id, reply: Reply)
    requires id !in c
    ensures Closer(g, c, Event(RemoveServer(id), reply))
  {
    hide Measure, OffTarget;
    assert c - {id} == c;
  }

  lemma OneCloser(g: Goal, c: Config, e: Event)
    requires Closer(g, c, e)
    ensures Approaches(g, c, [e]) && EffectAll(c, [e]) == Effect(c, e)
  {
    hide Closer;
    assert [e][..0] == [];
    EffectAllOne(c, e);
    assert EffectAll(c, []) == c && Approaches(g, c, []);
  }

  /** Decided from the configuration as it is. */
  predicate Current(g: Goal, c: Config, a: Action) {
    Sound(g, a) &&
    match a
    case Add(id, addr) => id !in c
    case Replace(id, addr, insist) => id in c && c[id] != addr
    case Remove(id) => true
  }

  lemma FirstCloser(g: Goal, c: Config, a: Action, reply: Reply)
    requires g.Valid() && Current(g, c, a)
    ensures Closer(g, c, Event(FirstCall(a), reply))
    ensures a.Replace? ==> OffTarget(g, Effect(c, Event(FirstCall(a), reply)), a.id)
  {
    hide Closer;
    var e := Event(FirstCall(a), reply);
    if a.Remove? && a.id !in c {
      IdleCloser(g, c, a.id, reply);
    } else {
      HelpsCloser(g, c, e);
    }
  }

  lemma ActionApproaches(g: Goal, c: Config, a: Action, answers: seq<Reply>, n: nat)
    requires g.Valid() && Current(g, c, a)
    ensures Approaches(g, c, One(a, answers, n))
  {
    hide Closer, OffTarget, Approaches, Measure, Effect;
    var es := One(a, answers, n);
    FirstCloser(g, c, a, es[0].reply);
    OneCloser(g, c, es[0]);
    if |es| == 1 {
      assert es == [es[0]];
    } else {
      assert es == [es[0]] + [es[1]];
      var v := Effect(c, es[0]);
      HelpsCloser(g, v, es[1]);
      OneCloser(g, v, es[1]);
      ApproachesAppend(g, c, [es[0]], [es[1]]);
    }
  }

  lemma EventIsCurrent(self: Id, members: seq<Member>, servers: seq<Server>, ev: PeerEvent)
    requires UniqueIds(members) && MatchesGossip(members, ev)
    ensures var acts := EventActions(self, members, servers, ev);
            |acts| <= 1 && (acts != [] ==> Current(Goals(self, members), View(servers), acts[0]))
  {
    EventCovers(self, members, servers, ev);
    var acts := EventActions(self, members, servers, ev);
    assert acts != [] ==> acts[0] in acts;
  }

  lemma EventApproaches(self: Id, members: seq<Member>, r: RaftState, ev: PeerEvent, answers: seq<Reply>)
    requires UniqueIds(members) && MatchesGossip(members, ev)
    ensures Approaches(Goals(self, members), View(r.servers),
                       Perform(EventActions(self, members, r.servers, ev), answers, |r.trace|))
  {
    hide View, EventActions, Approaches, Current, One, Goals;
    var g, c, acts := Goals(self, members), View(r.servers), EventActions(self, members, r.servers, ev);
    GoalsValid(self, members);
    EventIsCurrent(self, members, r.servers, ev);
    if acts == [] {
      NothingApproaches(g, c);
    } else {
      assert acts == [acts[0]] && acts[..0] == [];
      ActionApproaches(g, c, acts[0], answers, |r.trace|);
      assert [] + One(acts[0], answers, |r.trace|) == One(acts[0], answers, |r.trace|);
    }
  }

  lemma NothingApproaches(g: Goal, c: Config)
    ensures Approaches(g, c, []) && EffectAll(c, []) == c
  {
  }

  /** The calls a run of events issued. */
  ghost predicate Fed(self: Id, members: seq<Member>, r: RaftState, s: RaftState, es: seq<Event>) {
    && Distinct(s.servers)
    && s.trace == r.trace + es
    && View(s.servers) == EffectAll(View(r.servers), es)
    && Approaches(Goals(self, members), View(r.servers), es)
  }

  lemma FedNext(self: Id, members: seq<Member>, r: RaftState, s: RaftState, es: seq<Event>, ev: PeerEvent, answers: seq<Reply>)
    requires UniqueIds(members) && MatchesGossip(members, ev) && Fed(self, members, r, s, es)
    ensures var acts := EventActions(self, members, s.servers, ev);
            Fed(self, members, r, Issue(s, acts, answers), es + Perform(acts, answers, |s.trace|))
  {
    hide View, EventActions, Approaches, Goals, Distinct, Perform, MatchesGossip, UniqueIds;
    var acts := EventActions(self, members, s.servers, ev);
    var more := Perform(acts, answers, |s.trace|);
    EventApproaches(self, members, s, ev, answers);
    IssueView(s, acts, answers);
    EffectAllAppend(View(r.servers), es, more);
    ApproachesAppend(Goals(self, members), View(r.servers), es, more);
    Associative(r.trace, es, more);
  }

  lemma {:induction false} FeedIsFed(self: Id, members: seq<Member>, r: RaftState, evs: seq<PeerEvent>, answers: seq<Reply>)
      returns (es: seq<Event>)
    requires UniqueIds(members) && Distinct(r.servers)
    requires forall ev | ev in evs :: MatchesGossip(members, ev)
    ensures Fed(self, members, r, Feed(self, members, r, evs, answers), es)
  {
    if evs == [] {
      es := [];
      NothingApproaches(Goals(self, members), View(r.servers));
      assert r.trace + [] == r.trace;
    } else {
      hide Fed, Issue, EventActions, MatchesGossip, UniqueIds, Distinct;
      var init, ev := evs[..|evs| - 1], evs[|evs| - 1];
      assert evs == init + [ev] && ev in evs;
      var fs := FeedIsFed(self, members, r, init, answers);
      var s := Feed(self, members, r, init, answers);
      FedNext(self, members, r, s, fs, ev, answers);
      es := fs + Perform(EventActions(self, members, s.servers, ev), answers, |s.trace|);
    }
  }

  /** Events handled in turn from fresh snapshots, under any replies: the target stands
      still, servers already right stay right, the measure never rises, and every call that
      changes the configuration strictly lowers it. */
  lemma FeedProgresses(self: Id, members: seq<Member>, r: RaftState, evs: seq<PeerEvent>, answers: seq<Reply>)
    requires UniqueIds(members) && Distinct(r.servers)
    requires forall ev | ev in evs :: MatchesGossip(members, ev)
    ensures var g, c, s := Goals(self, members), View(r.servers), Feed(self, members, r, evs, answers);
            && r.trace <= s.trace
            && var es := s.trace[|r.trace|..];
            && View(s.servers) == EffectAll(c, es)
            && Approaches(g, c, es)
            && Changed(c, es) + Measure(g, View(s.servers)) <= Measure(g, c)
            && Target(g, View(s.servers)) == Target(g, c)
            && (forall x | !OffTarget(g, c, x) :: SameEntry(View(s.servers), c, x))
  {
    hide Feed, View, Approaches, Goals, Distinct, Measure, Target, OffTarget, MatchesGossip, UniqueIds;
    var es := FeedIsFed(self, members, r, evs, answers);
    assert Feed(self, members, r, evs, answers).trace[|r.trace|..] == es;
    ApproachesKeeps(Goals(self, members), View(r.servers), es);
  }

  // ---- Stale snapshots ---------------------------------------------------------------------

  /** The call takes effect and removes a peer that is where gossip wants it. */
  predicate Undoes(g: Goal, c: Config, a: Action, reply: Reply) {
    a.Replace? && !reply.Refused? && AtDesired(g, c, a.id)
  }

  lemma UndoesExactly(g: Goal, c: Config, a: Action, reply: Reply)
    requires g.Valid() && Sound(g, a)
    ensures var v := Effect(c, Event(FirstCall(a), reply));
            && (Measure(g, v) > Measure(g, c) <==> Undoes(g, c, a, reply))
            && ((exists x :: !OffTarget(g, c, x) && OffTarget(g, v, x)) <==> Undoes(g, c, a, reply))
  {
    var e := Event(FirstCall(a), reply);
    var v := Effect(c, e);
    if Undoes(g, c, a, reply) {
      RemoveSets(g, c, v, a.id);
      Size(Wrong(g, c), a.id);
      Size(Missing(g, c), a.id);
      Size(Stale(g, c), a.id);
      assert !OffTarget(g, c, a.id) && OffTarget(g, v, a.id);
    } else {
      HarmlessCall(g, c, a, reply);
    }
  }

  lemma HarmlessCall(g: Goal, c: Config, a: Action, reply: Reply)
    requires g.Valid() && Sound(g, a) && !Undoes(g, c, a, reply)
    ensures var v := Effect(c, Event(FirstCall(a), reply));
            Measure(g, v) <= Measure(g, c) && forall x | !OffTarget(g, c, x) :: !OffTarget(g, v, x)
  {
    var e := Event(FirstCall(a), reply);
    if Helps(g, c, e.call) {
      HelpsCloser(g, c, e);
    } else if a.Remove? || (a.Replace? && a.id !in c) {
      IdleCloser(g, c, a.id, reply);
    } else {
      assert reply.Refused? || a.Add?;
      assert a.Add? && !reply.Refused? ==> c[a.id := a.addr] == c;
      assert Effect(c, e) == c;
    }
    hide Measure;
  }

  /** Goroutines informed by current gossip, from whatever snapshots and under any replies:
      a call sets the configuration back, and takes away a server that was right, if and
      only if it is the removal half of a replacement decided before the peer was put
      right, and takes effect. */
  lemma StaleReplaceUndoes(self: Id, members: seq<Member>, w: World, p: nat, reply: Reply)
    requires Distinct(w.servers) && AllInformed(self, members, w)
    requires p < |w.procs| && w.procs[p].Working? && w.procs[p].actions != []
    ensures var g, a := Goals(self, members), w.procs[p].actions[0];
            var c, v := View(w.servers), View(Next(self, w, Send(p, reply)).servers);
            && (Measure(g, v) > Measure(g, c) <==> Undoes(g, c, a, reply))
            && ((exists x :: !OffTarget(g, c, x) && OffTarget(g, v, x)) <==> Undoes(g, c, a, reply))
  {
    hide View, Distinct, Effect, After, Measure, OffTarget, Undoes, Goals, Sound;
    var a := w.procs[p].actions[0];
    assert Informed(self, members, w.procs[p]) && a in w.procs[p].actions;
    GoalsValid(self, members);
    AfterView(w.servers, Event(FirstCall(a), reply));
    UndoesExactly(Goals(self, members), View(w.servers), a, reply);
  }

  lemma ClashPlans(members: seq<Member>)
    requires members == [Member("p", "new", true)]
    ensures View([Server("p", "old")]) == map["p" := "old"] && View([Server("p", "new")]) == map["p" := "new"] && View([]) == map[]
    ensures JoinActions("n", Peer("p", "new"), Some(members), Some(map["p" := "old"])) == [Replace("p", "new", true)]
    ensures Target(Goals("n", members), map["p" := "old"]) == map["p" := "new"]
  {
    assert members[..0] == [] && "n" != "p" && "old"[0] != "new"[0];
    assert [Server("p", "new")][..0] == [] && [Server("p", "old")][..0] == [];
    assert Desired("n", members) == map["p" := "new"];
    assert members[0].bootstrapped && FirstBootstrapped("p", members);
  }

  lemma ClashBegins(members: seq<Member>, join: Proc)
    requires members == [Member("p", "new", true)] && join == JoinDue(Peer("p", "new"), Some(members))
    ensures var wrong := [Server("p", "old")];
            var replacing := Working([Replace("p", "new", true)]);
            && Next("n", Pair(wrong, join, join), Begin(0, true, true)) == Pair(wrong, replacing, join)
            && Next("n", Pair(wrong, replacing, join), Begin(1, true, true)) == Pair(wrong, replacing, replacing)
  {
    ClashPlans(members);
    hide JoinActions, View;
  }

  lemma ClashSends()
    ensures var wrong, right := [Server("p", "old")], [Server("p", "new")];
            var replacing, adding := Working([Replace("p", "new", true)]), Working([Add("p", "new")]);
            && Next("n", Pair(wrong, replacing, replacing), Send(0, Committed)) == Pair([], adding, replacing)
            && Next("n", Pair([], adding, replacing), Send(0, Committed)) == Pair(right, Working([]), replacing)
            && Next("n", Pair(right, Working([]), replacing), Send(1, Committed)) == Pair([], Working([]), adding)
            && Next("n", Pair([], Working([]), adding), Send(1, Refused)) == Pair([], Working([]), Working([]))
  {
    var wrong, right := [Server("p", "old")], [Server("p", "new")];
    var replacing, adding := Working([Replace("p", "new", true)]), Working([Add("p", "new")]);
    SendLast("n", Pair(wrong, replacing, replacing), 0, Replace("p", "new", true), Committed);
    SendLast("n", Pair([], adding, replacing), 0, Add("p", "new"), Committed);
    SendLast("n", Pair(right, Working([]), replacing), 1, Replace("p", "new", true), Committed);
    SendLast("n", Pair([], Working([]), adding), 1, Add("p", "new"), Refused);
  }

  /** Two joins of one peer that both read the old configuration: the first puts the peer
      right, the second takes it away again, and when its addition is refused the peer is
      gone although every other call committed. */
  lemma StaleJoinCanLosePeer()
    ensures var members := [Member("p", "new", true)];
            var join := JoinDue(Peer("p", "new"), Some(members));
            var w := Pair([Server("p", "old")], join, join);
            var four := [Begin(0, true, true)] + [Begin(1, true, true)] + [Send(0, Committed)] + [Send(0, Committed)];
            var six := four + [Send(1, Committed)] + [Send(1, Refused)];
            && View(Exec("n", w, four).servers) == Target(Goals("n", members), View(w.servers)) == map["p" := "new"]
            && Finished(Exec("n", w, six)) && View(Exec("n", w, six).servers) == map[]
  {
    hide Next, JoinActions, Goals, Target, View, Exec;
    var members := [Member("p", "new", true)];
    var join := JoinDue(Peer("p", "new"), Some(members));
    var w := Pair([Server("p", "old")], join, join);
    ClashPlans(members);
    ClashBegins(members, join);
    ClashSends();
    ExecOne("n", w, Begin(0, true, true));
    var ls := [Begin(0, true, true)];
    ExecStep("n", w, ls, Begin(1, true, true));
    ExecStep("n", w, ls + [Begin(1, true, true)], Send(0, Committed));
    ExecStep("n", w, ls + [Begin(1, true, true)] + [Send(0, Committed)], Send(0, Committed));
    var four := ls + [Begin(1, true, true)] + [Send(0, Committed)] + [Send(0, Committed)];
    ExecStep("n", w, four, Send(1, Committed));
    ExecStep("n", w, four + [Send(1, Committed)], Send(1, Refused));
  }
}
