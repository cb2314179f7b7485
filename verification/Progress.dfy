/** Sequential passes under arbitrary failures: the target stands still and every call
    that takes effect brings the configuration closer to it. */
module Progress {
  import opened Cluster
  import opened Membership
  import opened Convergence

  function Wrong(g: Goal, c: Config): set<Id> {
    set x | x in g.desired && x in c && c[x] != g.desired[x]
  }

  function Missing(g: Goal, c: Config): set<Id> {
    g.desired.Keys - c.Keys
  }

  function Stale(g: Goal, c: Config): set<Id> {
    c.Keys - g.known
  }

  /** 2 for a peer at a wrong address, 1 for a missing one, 1 for a stale server. */
  function Measure(g: Goal, c: Config): nat {
    2 * |Wrong(g, c)| + |Missing(g, c)| + |Stale(g, c)|
  }

  /** The measure is zero exactly at the target. */
  lemma MeasureZero(g: Goal, c: Config)
    requires g.Valid()
    ensures Measure(g, c) == 0 <==> c == Target(g, c)
  {
    var w, m, s := Wrong(g, c), Missing(g, c), Stale(g, c);
    assert forall x :: OffTarget(g, c, x) <==> x in w + m + s;
    if Measure(g, c) == 0 {
      OnTargetIsTarget(g, c, c);
    } else {
      var x :| x in w + m + s;
      assert OffTarget(g, c, x);
      assert !SameEntry(c, Target(g, c), x);
    }
  }

  /** A call a pass may issue: it moves a server that is off target towards it. */
  predicate Helps(g: Goal, c: Config, call: Call) {
    && OffTarget(g, c, call.id)
    && match call
       case AddVoter(id, addr) => id in g.desired && addr == g.desired[id]
       case RemoveServer(id) => id in c
  }

  lemma Size(s: set<Id>, x: Id)
    ensures |s - {x}| == |s| - if x in s then 1 else 0
    ensures |s + {x}| == |s| + if x in s then 0 else 1
  {
    if x in s {
      assert s + {x} == s;
    } else {
      assert s - {x} == s;
    }
  }

  lemma AddSets(g: Goal, c: Config, v: Config, x: Id)
    requires g.Valid() && x in g.desired && v == c[x := g.desired[x]]
    ensures Wrong(g, v) == Wrong(g, c) - {x}
    ensures Missing(g, v) == Missing(g, c) - {x}
    ensures Stale(g, v) == Stale(g, c)
  {
  }

  lemma RemoveSets(g: Goal, c: Config, v: Config, x: Id)
    requires g.Valid() && x in c && v == c - {x}
    ensures Wrong(g, v) == Wrong(g, c) - {x}
    ensures Missing(g, v) == if x in g.desired then Missing(g, c) + {x} else Missing(g, c)
    ensures Stale(g, v) == Stale(g, c) - {x}
  {
    assert forall y :: y in v.Keys <==> y in c.Keys && y != x;
  }

  lemma AddLowers(g: Goal, c: Config, v: Config, x: Id)
    requires g.Valid() && x in g.desired && !AtDesired(g, c, x) && v == c[x := g.desired[x]]
    ensures Measure(g, v) + 1 <= Measure(g, c)
  {
    AddSets(g, c, v, x);
    Size(Wrong(g, c), x);
    Size(Missing(g, c), x);
    assert x in Wrong(g, c) || x in Missing(g, c);
  }

  lemma RemoveLowers(g: Goal, c: Config, v: Config, x: Id)
    requires g.Valid() && x in c && OffTarget(g, c, x) && v == c - {x}
    ensures Measure(g, v) + 1 <= Measure(g, c)
  {
    RemoveSets(g, c, v, x);
    Size(Wrong(g, c), x);
    Size(Missing(g, c), x);
    Size(Stale(g, c), x);
    assert if x in g.desired then x in Wrong(g, c) && x !in Stale(g, c) else x in Stale(g, c);
  }

  // ---- Descent -------------------------------------------------------------------

  function Gauge(g: Goal): Config -> nat {
    c => Measure(g, c)
  }

  /** The call lowers the gauge when it takes effect and leaves it when it does not. */
  predicate Lowers(gauge: Config -> nat, c: Config, e: Event) {
    gauge(Effect(c, e)) + (if Applied(e) then 1 else 0) <= gauge(c)
  }

  predicate Descends(gauge: Config -> nat, c: Config, es: seq<Event>) {
    es == [] ||
    (Descends(gauge, c, es[..|es| - 1]) && Lowers(gauge, EffectAll(c, es[..|es| - 1]), es[|es| - 1]))
  }

  function AppliedCount(es: seq<Event>): nat {
    if es == [] then 0
    else AppliedCount(es[..|es| - 1]) + if Applied(es[|es| - 1]) then 1 else 0
  }

  lemma {:induction false} DescentBoundsCalls(gauge: Config -> nat, c: Config, es: seq<Event>)
    requires Descends(gauge, c, es)
    ensures AppliedCount(es) + gauge(EffectAll(c, es)) <= gauge(c)
  {
    if es != [] {
      DescentBoundsCalls(gauge, c, es[..|es| - 1]);
    }
  }

  lemma {:induction false} DescendsAppend(gauge: Config -> nat, c: Config, es: seq<Event>, fs: seq<Event>)
    requires Descends(gauge, c, es) && Descends(gauge, EffectAll(c, es), fs)
    ensures Descends(gauge, c, es + fs)
  {
    if fs == [] {
      assert es + fs == es;
    } else {
      var init := fs[..|fs| - 1];
      DescendsAppend(gauge, c, es, init);
      EffectAllAppend(c, es, init);
      assert (es + fs)[..|es + fs| - 1] == es + init;
    }
  }

  lemma DescendsOne(gauge: Config -> nat, c: Config, e: Event)
    requires Lowers(gauge, c, e)
    ensures Descends(gauge, c, [e]) && EffectAll(c, [e]) == Effect(c, e)
  {
    EffectAllOne(c, e);
    assert [e][..0] == [];
    assert EffectAll(c, []) == c && Descends(gauge, c, []);
  }

  /** The gauge goes down with every helpful call. */
  ghost predicate Gauges(gauge: Config -> nat, g: Goal) {
    forall c, e: Event | Helps(g, c, e.call) :: Lowers(gauge, c, e)
  }

  lemma MeasureGauges(g: Goal)
    requires g.Valid()
    ensures Gauges(Gauge(g), g)
  {
    forall c, e: Event | Helps(g, c, e.call)
      ensures Lowers(Gauge(g), c, e)
    {
      if Applied(e) {
        match e.call
        case AddVoter(id, addr) => AddLowers(g, c, Effect(c, e), id);
        case RemoveServer(id) => RemoveLowers(g, c, Effect(c, e), id);
      }
    }
  }

  lemma OneDescends(gauge: Config -> nat, g: Goal, c: Config, a: Action, answers: seq<Reply>, n: nat)
    requires Gauges(gauge, g) && Fresh(g, c, a)
    ensures Descends(gauge, c, One(a, answers, n))
    ensures DifferOnlyAt(c, EffectAll(c, One(a, answers, n)), a.id)
  {
    var es := One(a, answers, n);
    assert Helps(g, c, es[0].call);
    DescendsOne(gauge, c, es[0]);
    if |es| == 2 {
      var v := Effect(c, es[0]);
      assert Helps(g, v, es[1].call);
      DescendsOne(gauge, v, es[1]);
      DescendsAppend(gauge, c, [es[0]], [es[1]]);
      EffectAllAppend(c, [es[0]], [es[1]]);
      assert es == [es[0]] + [es[1]];
    } else {
      assert es == [es[0]];
    }
  }

  ghost predicate Untouched(c: Config, v: Config, acts: seq<Action>) {
    forall x | !Touches(acts, x) :: SameEntry(v, c, x)
  }

  lemma DescentStep(gauge: Config -> nat, g: Goal, c: Config, es: seq<Event>, acts: seq<Action>, a: Action,
                    answers: seq<Reply>, n: nat)
    requires Gauges(gauge, g) && Fresh(g, c, a) && !Touches(acts, a.id)
    requires Settling(gauge, c, acts, es)
    ensures Settling(gauge, c, acts + [a], es + One(a, answers, n))
  {
    var v, more := EffectAll(c, es), One(a, answers, n);
    assert SameEntry(v, c, a.id);
    OneDescends(gauge, g, v, a, answers, n);
    DescendsAppend(gauge, c, es, more);
    EffectAllAppend(c, es, more);
    forall x | !Touches(acts + [a], x)
      ensures SameEntry(EffectAll(v, more), c, x)
    {
      assert a in acts + [a] && forall b | b in acts :: b in acts + [a];
      assert SameEntry(v, c, x);
      assert SameEntry(v, EffectAll(v, more), x);
    }
  }

  /** The plan's calls descend and leave alone every server it does not name. */
  ghost predicate Settling(gauge: Config -> nat, c: Config, acts: seq<Action>, es: seq<Event>) {
    Descends(gauge, c, es) && Untouched(c, EffectAll(c, es), acts)
  }

  lemma SettlingNothing(gauge: Config -> nat, c: Config, answers: seq<Reply>, n: nat)
    ensures Settling(gauge, c, [], Perform([], answers, n))
  {
    assert EffectAll(c, []) == c;
  }

  lemma {:induction false} PlanDescends(
      gauge: Config -> nat, g: Goal, c: Config, acts: seq<Action>, answers: seq<Reply>, n: nat)
    requires Gauges(gauge, g) && DistinctIds(acts)
    requires forall a | a in acts :: Fresh(g, c, a)
    ensures Settling(gauge, c, acts, Perform(acts, answers, n))
  {
    hide Settling, Gauges, Fresh, Perform, One, Touches, DistinctIds;
    if acts == [] {
      SettlingNothing(gauge, c, answers, n);
    } else {
      var init, a := acts[..|acts| - 1], acts[|acts| - 1];
      var es := Perform(init, answers, n);
      assert acts == init + [a] && a in acts;
      DistinctInit(init, a);
      PlanDescends(gauge, g, c, init, answers, n);
      DescentStep(gauge, g, c, es, init, a, answers, n + |es|);
      PerformLast(init, a, answers, n);
    }
  }

  lemma DistinctInit(acts: seq<Action>, a: Action)
    requires DistinctIds(acts + [a])
    ensures DistinctIds(acts) && !Touches(acts, a.id)
  {
    var all := acts + [a];
    assert forall i | 0 <= i < |acts| :: all[i] == acts[i];
    assert all[|acts|] == a;
  }

  predicate DistinctIds(acts: seq<Action>) {
    forall i, j | 0 <= i < j < |acts| :: acts[i].id != acts[j].id
  }

  lemma {:induction false} MemberActionIds(self: Id, members: seq<Member>, c: Config)
    requires UniqueIds(members)
    ensures var acts := AllMemberActions(self, members, c);
            && (forall a | a in acts :: a.id in Ids(members))
            && DistinctIds(acts)
  {
    if members != [] {
      var init, m := members[..|members| - 1], members[|members| - 1];
      MemberActionIds(self, init, c);
      var acts := AllMemberActions(self, init, c);
      assert m in members && Ids(init) <= Ids(members);
      assert m.id !in Ids(init);
      assert forall i | 0 <= i < |acts| :: acts[i] in acts;
    }
  }

  lemma {:induction false} StaleActionIds(self: Id, listed: set<Id>, servers: seq<Server>)
    requires Distinct(servers)
    ensures var acts := StaleActions(self, listed, servers);
            && (forall a | a in acts :: a.id !in listed && a.id in View(servers))
            && DistinctIds(acts)
  {
    if servers != [] {
      var init := servers[..|servers| - 1];
      StaleActionIds(self, listed, init);
      var acts := StaleActions(self, listed, init);
      assert forall i | 0 <= i < |acts| :: acts[i] in acts;
    }
  }

  /** No server is the object of two actions of one pass. */
  lemma PassActionIds(self: Id, members: seq<Member>, servers: seq<Server>)
    requires UniqueIds(members) && Distinct(servers)
    ensures DistinctIds(PassActions(self, members, servers))
  {
    var adds, drops := AllMemberActions(self, members, View(servers)), StaleActions(self, Ids(members), servers);
    MemberActionIds(self, members, View(servers));
    StaleActionIds(self, Ids(members), servers);
    assert forall i | 0 <= i < |adds| :: adds[i] in adds;
    assert forall i | 0 <= i < |drops| :: drops[i] in drops;
    assert PassActions(self, members, servers) == adds + drops;
  }

  // ---- Runs of passes -----------------------------------------------------------

  /** `k` passes in a row, each from a fresh snapshot, answered by `answers`. */
  function Passes(self: Id, members: seq<Member>, r: RaftState, answers: seq<Reply>, k: nat): RaftState {
    if k == 0 then r
    else
      var s := Passes(self, members, r, answers, k - 1);
      Issue(s, PassActions(self, members, s.servers), answers)
  }

  /** What every run from `c` to `v` through the calls `es` keeps. */
  ghost predicate Progressed(gauge: Config -> nat, g: Goal, c: Config, v: Config, es: seq<Event>) {
    && v == EffectAll(c, es)
    && Descends(gauge, c, es)
    && AppliedCount(es) + gauge(v) <= gauge(c)
    && Target(g, v) == Target(g, c)
    && (forall x | !OffTarget(g, c, x) :: SameEntry(v, c, x))
  }

  lemma RetainedTarget(g: Goal, c: Config, v: Config)
    requires Retained(g, c, v)
    ensures Target(g, v) == Target(g, c)
  {
    var s, t := Target(g, v), Target(g, c);
    forall x
      ensures SameEntry(s, t, x)
    {
      if x in g.known && x !in g.desired {
        assert SameEntry(v, c, x);
      }
    }
    assert forall x :: x in s ==> SameEntry(s, t, x);
    assert forall x :: x in t ==> SameEntry(s, t, x);
  }

  lemma PlanProgresses(gauge: Config -> nat, g: Goal, c: Config, acts: seq<Action>, answers: seq<Reply>, n: nat)
    requires Gauges(gauge, g) && DistinctIds(acts)
    requires forall a | a in acts :: Fresh(g, c, a)
    ensures Progressed(gauge, g, c, EffectAll(c, Perform(acts, answers, n)), Perform(acts, answers, n))
  {
    var es := Perform(acts, answers, n);
    PlanDescends(gauge, g, c, acts, answers, n);
    DescentBoundsCalls(gauge, c, es);
    forall x | !OffTarget(g, c, x)
      ensures SameEntry(EffectAll(c, es), c, x)
    {
      assert !Touches(acts, x);
    }
    RetainedTarget(g, c, EffectAll(c, es));
  }

  lemma PassProgresses(gauge: Config -> nat, self: Id, members: seq<Member>, r: RaftState, answers: seq<Reply>)
    requires UniqueIds(members) && Distinct(r.servers) && Gauges(gauge, Goals(self, members))
    ensures var acts := PassActions(self, members, r.servers);
            var s := Issue(r, acts, answers);
            && Distinct(s.servers)
            && s.trace == r.trace + Perform(acts, answers, |r.trace|)
            && Progressed(gauge, Goals(self, members), View(r.servers), View(s.servers), Perform(acts, answers, |r.trace|))
  {
    var acts := PassActions(self, members, r.servers);
    PassCovers(self, members, r.servers);
    PassActionIds(self, members, r.servers);
    PlanProgresses(gauge, Goals(self, members), View(r.servers), acts, answers, |r.trace|);
    IssueView(r, acts, answers);
  }

  lemma ProgressedThen(gauge: Config -> nat, g: Goal, c: Config, v: Config, w: Config, es: seq<Event>, fs: seq<Event>)
    requires Progressed(gauge, g, c, v, es) && Progressed(gauge, g, v, w, fs)
    ensures Progressed(gauge, g, c, w, es + fs)
  {
    DescendsAppend(gauge, c, es, fs);
    EffectAllAppend(c, es, fs);
    DescentBoundsCalls(gauge, c, es + fs);
    forall x | !OffTarget(g, c, x)
      ensures SameEntry(w, c, x)
    {
      assert SameEntry(v, c, x);
      assert !OffTarget(g, v, x);
      assert SameEntry(w, v, x);
    }
  }

  /** The calls the last of `k` passes issued. */
  function PassCalls(self: Id, members: seq<Member>, s: RaftState, answers: seq<Reply>): seq<Event> {
    Perform(PassActions(self, members, s.servers), answers, |s.trace|)
  }

  function AllCalls(self: Id, members: seq<Member>, r: RaftState, answers: seq<Reply>, k: nat): seq<Event> {
    if k == 0 then []
    else
      AllCalls(self, members, r, answers, k - 1)
      + PassCalls(self, members, Passes(self, members, r, answers, k - 1), answers)
  }

  lemma IssueTrace(start: seq<Event>, es: seq<Event>, s: RaftState, acts: seq<Action>, answers: seq<Reply>)
    requires s.trace == start + es
    ensures Issue(s, acts, answers).trace == start + (es + Perform(acts, answers, |s.trace|))
  {
  }

  lemma {:induction false} PassesTrace(self: Id, members: seq<Member>, r: RaftState, answers: seq<Reply>, k: nat)
    ensures Passes(self, members, r, answers, k).trace == r.trace + AllCalls(self, members, r, answers, k)
  {
    hide PassActions, AfterAll, Perform;
    if k > 0 {
      PassesTrace(self, members, r, answers, k - 1);
      var p := Passes(self, members, r, answers, k - 1);
      IssueTrace(r.trace, AllCalls(self, members, r, answers, k - 1), p, PassActions(self, members, p.servers), answers);
    }
  }

  lemma PassThen(gauge: Config -> nat, self: Id, members: seq<Member>, c: Config, p: RaftState, es: seq<Event>,
                 answers: seq<Reply>)
    requires UniqueIds(members) && Distinct(p.servers) && Gauges(gauge, Goals(self, members))
    requires Progressed(gauge, Goals(self, members), c, View(p.servers), es)
    ensures var s := Issue(p, PassActions(self, members, p.servers), answers);
            && Distinct(s.servers)
            && Progressed(gauge, Goals(self, members), c, View(s.servers), es + PassCalls(self, members, p, answers))
  {
    PassProgresses(gauge, self, members, p, answers);
    var s := Issue(p, PassActions(self, members, p.servers), answers);
    ProgressedThen(gauge, Goals(self, members), c, View(p.servers), View(s.servers), es, PassCalls(self, members, p, answers));
  }

  lemma NothingProgressed(gauge: Config -> nat, g: Goal, c: Config)
    ensures Progressed(gauge, g, c, c, [])
  {
    assert EffectAll(c, []) == c;
  }

  lemma {:induction false} PassesDescend(gauge: Config -> nat, self: Id, members: seq<Member>, r: RaftState,
                                         answers: seq<Reply>, k: nat)
    requires UniqueIds(members) && Distinct(r.servers) && Gauges(gauge, Goals(self, members))
    ensures Distinct(Passes(self, members, r, answers, k).servers)
    ensures Progressed(gauge, Goals(self, members), View(r.servers), View(Passes(self, members, r, answers, k).servers),
                       AllCalls(self, members, r, answers, k))
  {
    hide Progressed, Gauges, Goals, View, Distinct, PassCalls, PassActions, Issue, UniqueIds;
    NothingProgressed(gauge, Goals(self, members), View(r.servers));
    if k > 0 {
      var p := Passes(self, members, r, answers, k - 1);
      PassesDescend(gauge, self, members, r, answers, k - 1);
      PassThen(gauge, self, members, View(r.servers), p, AllCalls(self, members, r, answers, k - 1), answers);
    }
  }

  /** Under any failures, a run of passes keeps the target and every server that is right;
      each call that takes effect strictly lowers the measure, so the number of such calls
      is bounded by the measure at the start. */
  lemma PassesProgress(self: Id, members: seq<Member>, r: RaftState, answers: seq<Reply>, k: nat)
    requires UniqueIds(members) && Distinct(r.servers)
    ensures var g, c, s := Goals(self, members), View(r.servers), Passes(self, members, r, answers, k);
            && r.trace <= s.trace
            && var es := s.trace[|r.trace|..];
            && View(s.servers) == EffectAll(c, es)
            && Descends(Gauge(g), c, es)
            && AppliedCount(es) + Measure(g, View(s.servers)) <= Measure(g, c)
            && Target(g, View(s.servers)) == Target(g, c)
            && (forall x | !OffTarget(g, c, x) :: SameEntry(View(s.servers), c, x))
  {
    GoalsValid(self, members);
    MeasureGauges(Goals(self, members));
    PassesDescend(Gauge(Goals(self, members)), self, members, r, answers, k);
    PassesTrace(self, members, r, answers, k);
    assert Passes(self, members, r, answers, k).trace[|r.trace|..] == AllCalls(self, members, r, answers, k);
  }

  /** After any run of passes, however many calls failed, one pass whose calls all commit
      reaches the target of the configuration the run began with. */
  lemma CleanPassRepairs(self: Id, members: seq<Member>, r: RaftState, answers: seq<Reply>, k: nat, good: seq<Reply>)
    requires UniqueIds(members) && Distinct(r.servers) && AllCommit(good)
    ensures var s := Passes(self, members, r, answers, k);
            View(Issue(s, PassActions(self, members, s.servers), good).servers)
            == Target(Goals(self, members), View(r.servers))
  {
    GoalsValid(self, members);
    MeasureGauges(Goals(self, members));
    PassesDescend(Gauge(Goals(self, members)), self, members, r, answers, k);
    PassReachesTarget(self, members, Passes(self, members, r, answers, k), good);
  }
}
