/** Exactly when goroutines working from current gossip can take away a server that one of
    them has put right. */
module Clashes {
  import opened Options
  import opened Cluster
  import opened Membership
  import opened Convergence
  import opened Progress
  import opened Interleaving
  import opened Exactness
  import opened Staleness

  /** The goroutine may come to add or replace server `x`. */
  predicate Business(self: Id, proc: Proc, x: Id) {
    match proc
    case PassDue(ms) => x in Desired(self, ms)
    case JoinDue(peer, gossip) => peer.id == x && !IgnoredJoin(self, peer, gossip)
    case LeaveDue(id) => false
    case Working(actions) => false
  }

  /** Server `x` is listed at a wrong address and is the business of two goroutines. */
  ghost predicate Contested(self: Id, members: seq<Member>, w: World, x: Id) {
    x in Wrong(Goals(self, members), View(w.servers)) &&
    exists p, q :: 0 <= p < |w.procs| && 0 <= q < |w.procs| && p != q && Both(self, w, x, p, q)
  }

  predicate Both(self: Id, w: World, x: Id, p: nat, q: nat)
    requires p < |w.procs| && q < |w.procs|
  {
    Business(self, w.procs[p], x) && Business(self, w.procs[q], x)
  }

  /** After the steps `ls`, the next one takes a server that is right off target. */
  ghost predicate Loses(self: Id, members: seq<Member>, w: World, ls: seq<Label>, l: Label) {
    var before := Exec(self, w, ls);
    SetsBack(Goals(self, members), View(before.servers), View(Next(self, before, l).servers))
  }

  ghost predicate SetsBack(g: Goal, c: Config, v: Config) {
    exists x :: !OffTarget(g, c, x) && OffTarget(g, v, x)
  }

  // ---- What a run keeps ----------------------------------------------------------------------

  /** A wanted server is at its address or where it was at the start. */
  ghost predicate Traced(g: Goal, start: Config, c: Config) {
    forall x | x in g.desired && x in c :: c[x] == g.desired[x] || (x in start && start[x] == c[x])
  }

  /** The goroutine has not begun, or what it has left is its business, each server once,
      and replaces only servers that were wrong at the start. */
  ghost predicate Planned(self: Id, g: Goal, start: Config, due: Proc, proc: Proc) {
    match proc
    case Working(actions) => DistinctIds(actions) && forall a | a in actions :: Due(self, g, start, due, a)
    case _ => proc == due
  }

  ghost predicate Due(self: Id, g: Goal, start: Config, due: Proc, a: Action) {
    && Sound(g, a)
    && (a.Remove? || Business(self, due, a.id))
    && (a.Replace? ==> a.id in Wrong(g, start))
  }

  predicate Replaces(proc: Proc, x: Id) {
    proc.Working? && exists a | a in proc.actions :: a.Replace? && a.id == x
  }

  /** A goroutine whose business `x` is has planned, and has no replacement of it left. */
  ghost predicate DoneWith(self: Id, due: Proc, proc: Proc, x: Id) {
    Business(self, due, x) && proc.Working? && !Replaces(proc, x)
  }

  /** A server that was wrong and is right was put right by such a goroutine. */
  ghost predicate Accounted(self: Id, g: Goal, start: World, w: World, x: Id) {
    x in Wrong(g, View(start.servers)) && AtDesired(g, View(w.servers), x) ==>
      exists i: nat :: i < |w.procs| == |start.procs| && DoneWith(self, start.procs[i], w.procs[i], x)
  }

  ghost predicate AllPlanned(self: Id, g: Goal, start: World, w: World) {
    |w.procs| == |start.procs| &&
    forall i | 0 <= i < |w.procs| :: Planned(self, g, View(start.servers), start.procs[i], w.procs[i])
  }

  ghost predicate Upheld(self: Id, g: Goal, start: World, w: World) {
    && Distinct(w.servers)
    && AllPlanned(self, g, start, w)
    && Traced(g, View(start.servers), View(w.servers))
    && forall x :: Accounted(self, g, start, w, x)
  }

  lemma JoinPlanned(self: Id, members: seq<Member>, start: Config, due: Proc, leader: bool, readable: bool, servers: seq<Server>)
    requires due.JoinDue? && Informed(self, members, due) && Traced(Goals(self, members), start, View(servers))
    ensures Planned(self, Goals(self, members), start, due, Working(Plan(self, due, leader, readable, servers)))
  {
    hide View;
  }

  lemma PassPlanned(self: Id, members: seq<Member>, start: Config, due: Proc, leader: bool, readable: bool, servers: seq<Server>)
    requires due.PassDue? && Informed(self, members, due) && Traced(Goals(self, members), start, View(servers))
    requires Distinct(servers)
    ensures Planned(self, Goals(self, members), start, due, Working(Plan(self, due, leader, readable, servers)))
  {
    hide View, Distinct, PassActions, Desired, UniqueIds;
    var g, c := Goals(self, members), View(servers);
    PlanSound(self, members, due, leader, readable, servers);
    PassCovers(self, due.members, servers);
    PassActionIds(self, due.members, servers);
    forall a | a in PassActions(self, due.members, servers)
      ensures a.Remove? || Business(self, due, a.id)
      ensures a.Replace? ==> a.id in Wrong(g, start)
    {
      assert Fresh(Goals(self, due.members), c, a);
      if a.Replace? {
        assert Wanted(self, members, a.id, Desired(self, due.members)[a.id]);
      }
    }
  }

  lemma PlanPlanned(self: Id, members: seq<Member>, start: Config, due: Proc, leader: bool, readable: bool, servers: seq<Server>)
    requires !due.Working? && Informed(self, members, due) && Traced(Goals(self, members), start, View(servers))
    requires Distinct(servers)
    ensures Planned(self, Goals(self, members), start, due, Working(Plan(self, due, leader, readable, servers)))
  {
    if due.PassDue? {
      PassPlanned(self, members, start, due, leader, readable, servers);
    } else if due.JoinDue? {
      JoinPlanned(self, members, start, due, leader, readable, servers);
    } else {
      PlanSound(self, members, due, leader, readable, servers);
    }
  }

  lemma DistinctRest(actions: seq<Action>, reply: Reply)
    requires actions != [] && DistinctIds(actions)
    ensures DistinctIds(Rest(actions[0], reply) + actions[1..])
    ensures forall a | a in actions[1..] :: a.id != actions[0].id
  {
    var rest := Rest(actions[0], reply) + actions[1..];
    assert forall i | 0 <= i < |rest| :: rest[i].id == actions[i + |actions| - |rest|].id;
  }

  lemma RestPlanned(self: Id, g: Goal, start: Config, due: Proc, actions: seq<Action>, reply: Reply)
    requires actions != [] && Planned(self, g, start, due, Working(actions))
    ensures Planned(self, g, start, due, Working(Rest(actions[0], reply) + actions[1..]))
  {
    hide Business, Sound, DistinctIds;
    DistinctRest(actions, reply);
    var rest := Rest(actions[0], reply) + actions[1..];
    assert actions[0] in actions;
    DueFirst(self, g, start, due, actions[0], reply);
    forall a | a in rest
      ensures Due(self, g, start, due, a)
    {
      assert a in actions[1..] ==> a in actions;
    }
  }

  lemma DueFirst(self: Id, g: Goal, start: Config, due: Proc, a: Action, reply: Reply)
    requires Due(self, g, start, due, a)
    ensures forall b | b in Rest(a, reply) :: Due(self, g, start, due, b)
  {
    hide Business;
  }

  /** What is left of a plan replaces nothing it did not, and not the server just added. */
  lemma RestReplaces(actions: seq<Action>, reply: Reply, x: Id)
    requires actions != [] && DistinctIds(actions)
    ensures Replaces(Working(Rest(actions[0], reply) + actions[1..]), x) ==> Replaces(Working(actions), x) && x != actions[0].id
  {
    DistinctRest(actions, reply);
    var rest := Rest(actions[0], reply) + actions[1..];
    if a :| a in rest && a.Replace? && a.id == x {
      assert a in actions[1..] && a in actions;
    }
  }

  lemma TracedNext(g: Goal, start: Config, c: Config, a: Action, reply: Reply)
    requires Traced(g, start, c) && Sound(g, a)
    ensures Traced(g, start, Effect(c, Event(FirstCall(a), reply)))
  {
  }

  /** Only an addition puts a server right. */
  lemma PutRight(g: Goal, c: Config, a: Action, reply: Reply, x: Id)
    requires Sound(g, a) && !AtDesired(g, c, x) && AtDesired(g, Effect(c, Event(FirstCall(a), reply)), x)
    ensures a == Add(x, g.desired[x])
  {
  }

  lemma SendAccounted(self: Id, g: Goal, start: World, w: World, p: nat, reply: Reply, x: Id)
    requires Distinct(w.servers) && AllPlanned(self, g, start, w) && Accounted(self, g, start, w, x)
    requires p < |w.procs| && w.procs[p].Working? && w.procs[p].actions != []
    ensures Accounted(self, g, start, Next(self, w, Send(p, reply)), x)
  {
    hide View, Distinct, After, Effect, Business, Sound, AtDesired, Replaces, DistinctIds, Wrong, Rest;
    var v := Next(self, w, Send(p, reply));
    var actions := w.procs[p].actions;
    var a := actions[0];
    assert Planned(self, g, View(start.servers), start.procs[p], w.procs[p]) && a in actions;
    AfterView(w.servers, Event(FirstCall(a), reply));
    RestReplaces(actions, reply, x);
    if x in Wrong(g, View(start.servers)) && AtDesired(g, View(v.servers), x) {
      if AtDesired(g, View(w.servers), x) {
        var i: nat :| i < |w.procs| && DoneWith(self, start.procs[i], w.procs[i], x);
        assert DoneWith(self, start.procs[i], v.procs[i], x);
      } else {
        PutRight(g, View(w.servers), a, reply, x);
        assert Due(self, g, View(start.servers), start.procs[p], a);
        assert DoneWith(self, start.procs[p], v.procs[p], x);
      }
    }
  }

  lemma SendUpholds(self: Id, g: Goal, start: World, w: World, p: nat, reply: Reply)
    requires Upheld(self, g, start, w)
    requires p < |w.procs| && w.procs[p].Working? && w.procs[p].actions != []
    ensures Upheld(self, g, start, Next(self, w, Send(p, reply)))
  {
    hide View, Distinct, After, Effect, Accounted, Planned, Rest, Traced;
    var v := Next(self, w, Send(p, reply));
    var a := w.procs[p].actions[0];
    PlannedSound(self, g, View(start.servers), start.procs[p], w.procs[p].actions);
    AfterView(w.servers, Event(FirstCall(a), reply));
    TracedNext(g, View(start.servers), View(w.servers), a, reply);
    RestPlanned(self, g, View(start.servers), start.procs[p], w.procs[p].actions, reply);
    forall x
      ensures Accounted(self, g, start, v, x)
    {
      SendAccounted(self, g, start, w, p, reply, x);
    }
  }

  lemma PlannedSound(self: Id, g: Goal, start: Config, due: Proc, actions: seq<Action>)
    requires actions != [] && Planned(self, g, start, due, Working(actions))
    ensures Due(self, g, start, due, actions[0]) && Sound(g, actions[0])
  {
    assert actions[0] in actions;
  }

  lemma BeginAccounted(self: Id, g: Goal, start: World, w: World, p: nat, leader: bool, readable: bool, x: Id)
    requires Accounted(self, g, start, w, x) && p < |w.procs| && !w.procs[p].Working?
    ensures Accounted(self, g, start, Next(self, w, Begin(p, leader, readable)), x)
  {
    hide View, Business, AtDesired, Wrong, Plan, Replaces;
    var v := Next(self, w, Begin(p, leader, readable));
    if x in Wrong(g, View(start.servers)) && AtDesired(g, View(v.servers), x) {
      var i: nat :| i < |w.procs| == |start.procs| && DoneWith(self, start.procs[i], w.procs[i], x);
      assert DoneWith(self, start.procs[i], v.procs[i], x);
    }
  }

  lemma BeginUpholds(self: Id, members: seq<Member>, start: World, w: World, p: nat, leader: bool, readable: bool)
    requires Upheld(self, Goals(self, members), start, w) && AllInformed(self, members, start)
    requires p < |w.procs| && !w.procs[p].Working?
    ensures Upheld(self, Goals(self, members), start, Next(self, w, Begin(p, leader, readable)))
  {
    hide View, Distinct, Accounted, Traced, Goals, Plan, Informed;
    var v := Next(self, w, Begin(p, leader, readable));
    assert w.procs[p] == start.procs[p];
    PlanPlanned(self, members, View(start.servers), start.procs[p], leader, readable, w.servers);
    forall x
      ensures Accounted(self, Goals(self, members), start, v, x)
    {
      BeginAccounted(self, Goals(self, members), start, w, p, leader, readable, x);
    }
  }

  lemma StartUpholds(self: Id, g: Goal, w: World)
    requires Distinct(w.servers) && AllDue(w.procs)
    ensures Upheld(self, g, w, w)
  {
  }

  lemma {:induction false} RunUpholds(self: Id, members: seq<Member>, w: World, ls: seq<Label>)
    requires Distinct(w.servers) && AllDue(w.procs) && AllInformed(self, members, w)
    ensures Upheld(self, Goals(self, members), w, Exec(self, w, ls))
  {
    hide Upheld, Distinct, AllInformed, Goals, Plan, After, Rest;
    if ls == [] {
      StartUpholds(self, Goals(self, members), w);
    } else {
      var init, l := ls[..|ls| - 1], ls[|ls| - 1];
      RunUpholds(self, members, w, init);
      var v := Exec(self, w, init);
      if l.p < |v.procs| {
        if l.Begin? && !v.procs[l.p].Working? {
          BeginUpholds(self, members, w, v, l.p, l.leader, l.readable);
        } else if l.Send? && v.procs[l.p].Working? && v.procs[l.p].actions != [] {
          SendUpholds(self, Goals(self, members), w, v, l.p, l.reply);
        }
      }
    }
  }

  // ---- A loss is a clash -----------------------------------------------------------------------

  lemma LossIsUndoing(self: Id, members: seq<Member>, v: World, l: Label)
    requires Distinct(v.servers) && AllInformed(self, members, v)
    requires SetsBack(Goals(self, members), View(v.servers), View(Next(self, v, l).servers))
    ensures l.Send? && l.p < |v.procs| && v.procs[l.p].Working? && v.procs[l.p].actions != []
    ensures Undoes(Goals(self, members), View(v.servers), v.procs[l.p].actions[0], l.reply)
  {
    hide View, Distinct, Goals, OffTarget, Undoes, Informed, After, Plan;
    if l.Send? && l.p < |v.procs| && v.procs[l.p].Working? && v.procs[l.p].actions != [] {
      StaleReplaceUndoes(self, members, v, l.p, l.reply);
    }
  }

  lemma LossIsClash(self: Id, members: seq<Member>, w: World, ls: seq<Label>, l: Label) returns (x: Id)
    requires UniqueIds(members) && Distinct(w.servers) && AllDue(w.procs) && AllInformed(self, members, w)
    requires Loses(self, members, w, ls, l)
    ensures Contested(self, members, w, x)
  {
    hide View, Distinct, Goals, OffTarget, Informed, Next, Exec, AtDesired, Business, Wrong, UniqueIds;
    var g, v := Goals(self, members), Exec(self, w, ls);
    RunKeepsEntries(self, members, w, ls);
    RunUpholds(self, members, w, ls);
    LossIsUndoing(self, members, v, l);
    var q, a := l.p, v.procs[l.p].actions[0];
    x := a.id;
    PlannedSound(self, g, View(w.servers), w.procs[q], v.procs[q].actions);
    assert Accounted(self, g, w, v, x);
    var i: nat :| i < |v.procs| && DoneWith(self, w.procs[i], v.procs[i], x);
    assert a in v.procs[q].actions;
    assert Replaces(v.procs[q], x);
    assert Both(self, w, x, i, q);
  }

  // ---- A clash is a loss -----------------------------------------------------------------------

  /** A goroutine that begins at the start plans to replace a wrong server that is its
      business. */
  lemma PlanReplaces(self: Id, members: seq<Member>, proc: Proc, servers: seq<Server>, x: Id) returns (k: nat)
    requires UniqueIds(members) && Informed(self, members, proc) && Business(self, proc, x)
    requires x in Wrong(Goals(self, members), View(servers))
    ensures var acts := Plan(self, proc, true, true, servers);
            k < |acts| && acts[k].Replace? && acts[k].id == x
  {
    hide View, PassActions, Desired, UniqueIds;
    var acts := Plan(self, proc, true, true, servers);
    PlanHonours(self, members, proc, servers, x);
    var a :| a in acts && a.id == x;
    k :| k < |acts| && acts[k] == a;
    PlanSound(self, members, proc, true, true, servers);
    GoalsValid(self, members);
    if proc.PassDue? {
      PassCovers(self, proc.members, servers);
      assert Fresh(Goals(self, proc.members), View(servers), a);
    }
    assert Sound(Goals(self, members), a);
  }

  /** A committed plan leaves a wanted server right if it names it or finds it right. */
  lemma PlanKeepsRight(self: Id, g: Goal, servers: seq<Server>, acts: seq<Action>, x: Id)
    requires Distinct(servers) && x in g.desired
    requires forall a | a in acts :: Sound(g, a)
    requires Touches(acts, x) || AtDesired(g, View(servers), x)
    ensures var after := AfterAll(servers, Perform(acts, [], 0));
            Distinct(after) && AtDesired(g, View(after), x)
  {
    hide View, Distinct, Perform, EffectAll, AfterAll, Sound, Touches;
    PlanSettles(g, View(servers), acts, [], 0, x);
    AfterAllView(servers, Perform(acts, [], 0));
  }

  /** Both goroutines begin; the first runs to its end, the second up to its replacement. */
  function ClashRun(self: Id, w: World, p: nat, q: nat, k: nat): seq<Label>
    requires p < |w.procs| && q < |w.procs| && k <= |Plan(self, w.procs[q], true, true, w.servers)|
  {
    [Begin(p, true, true)] + [Begin(q, true, true)]
    + Sends(p, Perform(Plan(self, w.procs[p], true, true, w.servers), [], 0))
    + Sends(q, Perform(Plan(self, w.procs[q], true, true, w.servers)[..k], [], 0))
  }

  lemma ClashRunReaches(self: Id, w: World, p: nat, q: nat, k: nat)
    requires p < |w.procs| && q < |w.procs| && p != q && !w.procs[p].Working? && !w.procs[q].Working?
    requires k <= |Plan(self, w.procs[q], true, true, w.servers)|
    ensures var first, second := Plan(self, w.procs[p], true, true, w.servers), Plan(self, w.procs[q], true, true, w.servers);
            var v := Exec(self, w, ClashRun(self, w, p, q, k));
            && v.servers == AfterAll(AfterAll(w.servers, Perform(first, [], 0)), Perform(second[..k], [], 0))
            && |v.procs| == |w.procs| && v.procs[q] == Working(second[k..])
  {
    hide Plan, Perform, AfterAll;
    var first, second := Plan(self, w.procs[p], true, true, w.servers), Plan(self, w.procs[q], true, true, w.servers);
    var es, fs := Perform(first, [], 0), Perform(second[..k], [], 0);
    var begin := [Begin(p, true, true)];
    var w1 := World(w.servers, w.procs[p := Working(first)]);
    ExecOne(self, w, Begin(p, true, true));
    ExecStep(self, w, begin, Begin(q, true, true));
    var w2 := World(w.servers, w1.procs[q := Working(second)]);
    assert Exec(self, w, begin + [Begin(q, true, true)]) == w2;
    hide Next;
    ExecAppend(self, w, begin + [Begin(q, true, true)], Sends(p, es));
    assert first + [] == first;
    PlanAlone(self, w2, p, first, [], [], 0);
    var w3 := World(AfterAll(w.servers, es), w2.procs[p := Working([])]);
    ExecAppend(self, w, begin + [Begin(q, true, true)] + Sends(p, es), Sends(q, fs));
    assert second[..k] + second[k..] == second;
    PlanAlone(self, w3, q, second[..k], second[k..], [], 0);
  }

  lemma ClashRunSmooth(self: Id, w: World, p: nat, q: nat, k: nat)
    requires p < |w.procs| && q < |w.procs| && k <= |Plan(self, w.procs[q], true, true, w.servers)|
    ensures AllSmooth(ClashRun(self, w, p, q, k))
  {
    hide Plan, Perform, AllSmooth;
    var es := Perform(Plan(self, w.procs[p], true, true, w.servers), [], 0);
    var fs := Perform(Plan(self, w.procs[q], true, true, w.servers)[..k], [], 0);
    PerformCommits(Plan(self, w.procs[p], true, true, w.servers), 0);
    PerformCommits(Plan(self, w.procs[q], true, true, w.servers)[..k], 0);
    SendsSmooth(p, es);
    SendsSmooth(q, fs);
    BeginSmooth(p);
    BeginSmooth(q);
    SmoothAppend([Begin(p, true, true)], [Begin(q, true, true)]);
    SmoothAppend([Begin(p, true, true)] + [Begin(q, true, true)], Sends(p, es));
    SmoothAppend([Begin(p, true, true)] + [Begin(q, true, true)] + Sends(p, es), Sends(q, fs));
  }

  lemma ClashIsLoss(self: Id, members: seq<Member>, w: World, x: Id) returns (ls: seq<Label>, l: Label)
    requires UniqueIds(members) && Distinct(w.servers) && AllDue(w.procs) && AllInformed(self, members, w)
    requires Contested(self, members, w, x)
    ensures AllSmooth(ls) && Smooth(l) && Loses(self, members, w, ls, l)
  {
    hide View, Distinct, Goals, OffTarget, Informed, Next, Exec, Plan, AtDesired, Business, Wrong, UniqueIds, AllSmooth,
         ClashRun, AfterAll, Perform, Sound, Touches, Undoes;
    var g := Goals(self, members);
    var p, q :| 0 <= p < |w.procs| && 0 <= q < |w.procs| && p != q && Both(self, w, x, p, q);
    assert Informed(self, members, w.procs[p]) && Informed(self, members, w.procs[q]);
    var i := PlanReplaces(self, members, w.procs[p], w.servers, x);
    var k := PlanReplaces(self, members, w.procs[q], w.servers, x);
    var first, second := Plan(self, w.procs[p], true, true, w.servers), Plan(self, w.procs[q], true, true, w.servers);
    ls, l := ClashRun(self, w, p, q, k), Send(q, Committed);
    ClashRunSmooth(self, w, p, q, k);
    ClashRunReaches(self, w, p, q, k);
    SoundPlan(self, members, w.procs[p], w.servers);
    SoundPlan(self, members, w.procs[q], w.servers);
    WrongIsWanted(g, View(w.servers), x);
    TouchesAt(first, i);
    PlanKeepsRight(self, g, w.servers, first, x);
    assert forall a | a in second[..k] :: a in second;
    PlanKeepsRight(self, g, AfterAll(w.servers, Perform(first, [], 0)), second[..k], x);
    var v := Exec(self, w, ls);
    RunKeepsEntries(self, members, w, ls);
    UndoesNow(g, View(v.servers), second[k]);
    StaleReplaceUndoes(self, members, v, q, Committed);
  }

  lemma SoundPlan(self: Id, members: seq<Member>, proc: Proc, servers: seq<Server>)
    requires Informed(self, members, proc) && !proc.Working?
    ensures forall a | a in Plan(self, proc, true, true, servers) :: Sound(Goals(self, members), a)
  {
    hide Plan, Goals, Sound;
    PlanSound(self, members, proc, true, true, servers);
  }

  lemma WrongIsWanted(g: Goal, c: Config, x: Id)
    requires x in Wrong(g, c)
    ensures x in g.desired
  {
  }

  lemma TouchesAt(acts: seq<Action>, i: nat)
    requires i < |acts|
    ensures Touches(acts, acts[i].id)
  {
    assert acts[i] in acts;
  }

  lemma UndoesNow(g: Goal, c: Config, a: Action)
    requires a.Replace? && AtDesired(g, c, a.id)
    ensures Undoes(g, c, a, Committed)
  {
  }

  /** Harmless goroutines, whatever their snapshots, interleaving and replies, can take a
      server that is right off target if and only if some server listed at a wrong address
      at the start is the business of two of them; and then they can although every call
      commits. */
  lemma LosesExactly(self: Id, members: seq<Member>, w: World)
    requires UniqueIds(members) && Distinct(w.servers) && AllDue(w.procs) && AllInformed(self, members, w)
    ensures (exists ls, l :: Loses(self, members, w, ls, l)) <==> exists x :: Contested(self, members, w, x)
    ensures (exists ls, l :: Loses(self, members, w, ls, l)) <==>
            exists ls, l :: AllSmooth(ls) && Smooth(l) && Loses(self, members, w, ls, l)
  {
    hide Loses, Contested, Distinct, AllInformed, UniqueIds, AllSmooth, Smooth;
    if x :| Contested(self, members, w, x) {
      var ls, l := ClashIsLoss(self, members, w, x);
    }
    if ls, l :| Loses(self, members, w, ls, l) {
      var x := LossIsClash(self, members, w, ls, l);
    }
  }
}
