/** Passes and event handlers as goroutines: each decides once, from its own snapshot,
    and issues its calls one at a time while the others do the same. */
module Interleaving {
  import opened Options
  import opened Cluster
  import opened Membership
  import opened Convergence
  import opened Progress

  /** A goroutine that has not taken its snapshot yet, or the actions it has left. */
  datatype Proc =
    | PassDue(members: seq<Member>)
    | JoinDue(peer: Peer, gossip: Option<seq<Member>>)
    | LeaveDue(id: Id)
    | Working(actions: seq<Action>)

  datatype World = World(servers: seq<Server>, procs: seq<Proc>)

  /** Goroutine `p` starts, or issues its next call and gets `reply`. */
  datatype Label =
    | Begin(p: nat, leader: bool, readable: bool)
    | Send(p: nat, reply: Reply)

  function Plan(self: Id, proc: Proc, leader: bool, readable: bool, servers: seq<Server>): seq<Action> {
    if !leader then []
    else match proc
      case PassDue(members) => if readable then PassActions(self, members, servers) else []
      case JoinDue(peer, gossip) => JoinActions(self, peer, gossip, if readable then Some(View(servers)) else None)
      case LeaveDue(id) => LeaveActions(self, id)
      case Working(actions) => actions
  }

  function FirstCall(a: Action): Call {
    match a
    case Add(id, addr) => AddVoter(id, addr)
    case Remove(id) => RemoveServer(id)
    case Replace(id, addr, insist) => RemoveServer(id)
  }

  /** What is left of an action once its first call has been answered. */
  function Rest(a: Action, reply: Reply): seq<Action> {
    if a.Replace? && (reply.Committed? || a.insist) then [Add(a.id, a.addr)] else []
  }

  /** A label that does not apply changes nothing. */
  function Next(self: Id, w: World, l: Label): World {
    if l.p >= |w.procs| then w
    else
      var proc := w.procs[l.p];
      match l
      case Begin(p, leader, readable) =>
        if proc.Working? then w
        else w.(procs := w.procs[p := Working(Plan(self, proc, leader, readable, w.servers))])
      case Send(p, reply) =>
        if !proc.Working? || proc.actions == [] then w
        else
          var a := proc.actions[0];
          World(After(w.servers, Event(FirstCall(a), reply)),
                w.procs[p := Working(Rest(a, reply) + proc.actions[1..])])
  }

  function Exec(self: Id, w: World, ls: seq<Label>): World {
    if ls == [] then w
    else Next(self, Exec(self, w, ls[..|ls| - 1]), ls[|ls| - 1])
  }

  // ---- A goroutine left alone is the handler -------------------------------------

  function Sends(p: nat, es: seq<Event>): seq<Label> {
    seq(|es|, i requires 0 <= i < |es| => Send(p, es[i].reply))
  }

  lemma {:induction false} ExecAppend(self: Id, w: World, ls: seq<Label>, ms: seq<Label>)
    ensures Exec(self, w, ls + ms) == Exec(self, Exec(self, w, ls), ms)
  {
    hide Next;
    if ms == [] {
      assert ls + ms == ls;
    } else {
      assert (ls + ms)[..|ls + ms| - 1] == ls + ms[..|ms| - 1];
      ExecAppend(self, w, ls, ms[..|ms| - 1]);
    }
  }

  lemma ExecOne(self: Id, w: World, l: Label)
    ensures Exec(self, w, [l]) == Next(self, w, l)
  {
    hide Next;
    assert [l][..0] == [];
    assert Exec(self, w, []) == w;
  }

  /** Uninterrupted, an action's calls are those the sequential handler issues. */
  lemma OneAlone(self: Id, w: World, p: nat, a: Action, tail: seq<Action>, answers: seq<Reply>, n: nat)
    requires p < |w.procs| && w.procs[p] == Working([a] + tail)
    ensures var es := One(a, answers, n);
            Exec(self, w, Sends(p, es)) == World(AfterAll(w.servers, es), w.procs[p := Working(tail)])
  {
    hide After, AfterAll;
    var es := One(a, answers, n);
    AfterAllFew(w.servers, es[0], es[|es| - 1]);
    var l := Send(p, es[0].reply);
    ExecOne(self, w, l);
    var v := Next(self, w, l);
    assert ([a] + tail)[1..] == tail;
    if |es| == 1 {
      assert Sends(p, es) == [l];
      assert es == [es[0]];
      assert Rest(a, es[0].reply) + tail == tail;
    } else {
      var m := Send(p, es[1].reply);
      assert Sends(p, es) == [l] + [m] && es == [es[0], es[1]];
      ExecAppend(self, w, [l], [m]);
      ExecOne(self, v, m);
      assert v.procs[p] == Working([Add(a.id, a.addr)] + tail);
      assert ([Add(a.id, a.addr)] + tail)[1..] == tail;
      assert [] + tail == tail;
    }
  }

  lemma {:induction false} PlanAlone(self: Id, w: World, p: nat, acts: seq<Action>, tail: seq<Action>, answers: seq<Reply>, n: nat)
    requires p < |w.procs| && w.procs[p] == Working(acts + tail)
    ensures var es := Perform(acts, answers, n);
            Exec(self, w, Sends(p, es)) == World(AfterAll(w.servers, es), w.procs[p := Working(tail)])
  {
    hide Next, One, AfterAll;
    if acts == [] {
      assert Sends(p, Perform([], answers, n)) == [];
      assert [] + tail == tail;
      NoEvents(w.servers);
    } else {
      var init, a := acts[..|acts| - 1], acts[|acts| - 1];
      var es := Perform(init, answers, n);
      var more := One(a, answers, n + |es|);
      assert acts == init + [a] && acts + tail == init + ([a] + tail);
      PlanAlone(self, w, p, init, [a] + tail, answers, n);
      PerformLast(init, a, answers, n);
      assert Sends(p, es + more) == Sends(p, es) + Sends(p, more);
      ExecAppend(self, w, Sends(p, es), Sends(p, more));
      OneAlone(self, Exec(self, w, Sends(p, es)), p, a, tail, answers, n + |es|);
      AfterAllAppend(w.servers, es, more);
    }
  }

  lemma NoEvents(servers: seq<Server>)
    ensures AfterAll(servers, []) == servers
  {
  }

  /** A goroutine that starts and runs to its end undisturbed issues the calls of the
      sequential handler and leaves the server list the handler leaves. */
  lemma AloneIsHandler(self: Id, w: World, p: nat, leader: bool, readable: bool, answers: seq<Reply>, trace: seq<Event>)
    requires p < |w.procs| && !w.procs[p].Working?
    ensures var acts := Plan(self, w.procs[p], leader, readable, w.servers);
            var ls := [Begin(p, leader, readable)] + Sends(p, Perform(acts, answers, |trace|));
            Exec(self, w, ls)
            == World(Issue(RaftState(w.servers, trace), acts, answers).servers, w.procs[p := Working([])])
  {
    hide Plan, Perform, AfterAll;
    var acts := Plan(self, w.procs[p], leader, readable, w.servers);
    var begin := Begin(p, leader, readable);
    ExecAppend(self, w, [begin], Sends(p, Perform(acts, answers, |trace|)));
    ExecOne(self, w, begin);
    assert acts + [] == acts;
    PlanAlone(self, Next(self, w, begin), p, acts, [], answers, |trace|);
  }

  // ---- Safety: any gossip, any interleaving, any failures -------------------------

  /** No goroutine has a call about the node itself left. */
  ghost predicate Spared(self: Id, w: World) {
    forall i | 0 <= i < |w.procs| && w.procs[i].Working? :: !Touches(w.procs[i].actions, self)
  }

  lemma {:induction false} MemberActionsSpare(self: Id, members: seq<Member>, known: Config)
    ensures !Touches(AllMemberActions(self, members, known), self)
  {
    if members != [] {
      MemberActionsSpare(self, members[..|members| - 1], known);
      assert forall a | a in AllMemberActions(self, members[..|members| - 1], known) :: a.id != self;
    }
  }

  lemma {:induction false} StaleActionsSpare(self: Id, listed: set<Id>, servers: seq<Server>)
    ensures !Touches(StaleActions(self, listed, servers), self)
  {
    if servers != [] {
      StaleActionsSpare(self, listed, servers[..|servers| - 1]);
      assert forall a | a in StaleActions(self, listed, servers[..|servers| - 1]) :: a.id != self;
    }
  }

  lemma PlanSpares(self: Id, proc: Proc, leader: bool, readable: bool, servers: seq<Server>)
    requires !proc.Working?
    ensures !Touches(Plan(self, proc, leader, readable, servers), self)
  {
    if proc.PassDue? {
      var adds := AllMemberActions(self, proc.members, View(servers));
      var drops := StaleActions(self, Ids(proc.members), servers);
      MemberActionsSpare(self, proc.members, View(servers));
      StaleActionsSpare(self, Ids(proc.members), servers);
      assert forall a | a in adds :: a.id != self;
      assert forall a | a in drops :: a.id != self;
    }
  }

  /** One step: the list stays well formed and changes in at most the server the issued
      call names, and a goroutine's remaining calls are those it had. */
  lemma NextIsLocal(self: Id, w: World, l: Label) returns (x: Id)
    requires Distinct(w.servers) && Spared(self, w)
    ensures var v := Next(self, w, l);
            && Distinct(v.servers) && Spared(self, v)
            && DifferOnlyAt(View(w.servers), View(v.servers), x)
            && SameEntry(View(v.servers), View(w.servers), self)
  {
    hide View, Distinct, After, Plan;
    x := self;
    var v := Next(self, w, l);
    if l.p < |w.procs| {
      var proc := w.procs[l.p];
      if l.Begin? && !proc.Working? {
        PlanSpares(self, proc, l.leader, l.readable, w.servers);
      } else if l.Send? && proc.Working? && proc.actions != [] {
        var a := proc.actions[0];
        var e := Event(FirstCall(a), l.reply);
        assert a in proc.actions;
        assert forall b | b in proc.actions[1..] :: b in proc.actions;
        x := a.id;
        AfterView(w.servers, e);
        EffectIsLocal(View(w.servers), e);
        assert SameEntry(View(w.servers), View(v.servers), self);
      }
    }
  }

  lemma {:induction false} RunKeeps(self: Id, w: World, ls: seq<Label>)
    requires Distinct(w.servers) && Spared(self, w)
    ensures var v := Exec(self, w, ls);
            && Distinct(v.servers) && Spared(self, v)
            && SameEntry(View(v.servers), View(w.servers), self)
  {
    hide Next, Distinct, Spared, View;
    if ls != [] {
      RunKeeps(self, w, ls[..|ls| - 1]);
      var x := NextIsLocal(self, Exec(self, w, ls[..|ls| - 1]), ls[|ls| - 1]);
    }
  }

  /** Over any run, whatever the goroutines read from gossip and however calls fail, each
      step changes at most one server, so a majority before it and a majority after it
      share a member, and the node's own entry is never added, changed or removed. */
  lemma RunsAreSafe(self: Id, w: World, ls: seq<Label>, i: nat, q: set<Id>, r: set<Id>)
    requires Distinct(w.servers) && Spared(self, w)
    requires i < |ls|
    ensures var c, d := View(Exec(self, w, ls[..i]).servers), View(Exec(self, w, ls[..i + 1]).servers);
            && (exists x :: DifferOnlyAt(c, d, x))
            && (IsMajority(q, c) && IsMajority(r, d) ==> q * r != {})
            && SameEntry(d, View(w.servers), self)
  {
    hide Next, Distinct, Spared, View, DifferOnlyAt, IsMajority;
    var before := Exec(self, w, ls[..i]);
    assert ls[..i + 1][..i] == ls[..i];
    RunKeeps(self, w, ls[..i]);
    RunKeeps(self, w, ls[..i + 1]);
    var x := NextIsLocal(self, before, ls[i]);
    var c, d := View(before.servers), View(Exec(self, w, ls[..i + 1]).servers);
    assert DifferOnlyAt(c, d, x);
    if IsMajority(q, c) && IsMajority(r, d) {
      QuorumsOverlap(c, d, x, q, r);
    }
  }

  // ---- Gossip standing still -------------------------------------------------------

  /** What the goroutine may come to do agrees with the gossip state `members`. A pass read
      gossip with the same members wanted at the same addresses and at least the same IDs
      listed; a join names a wanted peer at its address, or is one the handler ignores; a
      leave names an unlisted ID, or is ignored. */
  ghost predicate Harmless(self: Id, members: seq<Member>, proc: Proc) {
    match proc
    case PassDue(ms) =>
      && (forall x | x in Desired(self, ms) :: Wanted(self, members, x, Desired(self, ms)[x]))
      && Ids(members) <= Ids(ms) + {self}
    case JoinDue(peer, gossip) => IgnoredJoin(self, peer, gossip) || Wanted(self, members, peer.id, peer.raftAddr)
    case LeaveDue(id) => id == self || id !in Ids(members)
    case Working(actions) => forall a | a in actions :: Sound(Goals(self, members), a)
  }

  predicate Wanted(self: Id, members: seq<Member>, x: Id, addr: Addr) {
    x in Desired(self, members) && Desired(self, members)[x] == addr
  }

  predicate IgnoredJoin(self: Id, peer: Peer, gossip: Option<seq<Member>>) {
    peer.id == self || peer.raftAddr == "" || !Vouched(peer.id, gossip)
  }

  /** Gossip lists no ID twice, whenever it is read. */
  ghost predicate Orderly(proc: Proc) {
    proc.PassDue? ==> UniqueIds(proc.members)
  }

  /** The goroutine may run beside a pass over `members` without harm. */
  ghost predicate Informed(self: Id, members: seq<Member>, proc: Proc) {
    Orderly(proc) && Harmless(self, members, proc)
  }

  /** Working from the current gossip with matching events is harmless. */
  lemma MatchingIsHarmless(self: Id, members: seq<Member>, proc: Proc)
    requires UniqueIds(members)
    requires match proc
             case PassDue(ms) => ms == members
             case JoinDue(peer, gossip) => gossip == Some(members) && MatchesGossip(members, Joined(peer))
             case LeaveDue(id) => MatchesGossip(members, Left(id))
             case Working(actions) => actions == []
    ensures Informed(self, members, proc)
  {
    if proc.JoinDue? && !IgnoredJoin(self, proc.peer, proc.gossip) {
      FirstBootstrappedIsMember(proc.peer.id, members);
      var m :| m in members && m.id == proc.peer.id && m.bootstrapped;
      DesiredOfMember(self, members, m);
    }
  }

  ghost predicate AllInformed(self: Id, members: seq<Member>, w: World) {
    forall i | 0 <= i < |w.procs| :: Informed(self, members, w.procs[i])
  }

  lemma PlanSound(self: Id, members: seq<Member>, proc: Proc, leader: bool, readable: bool, servers: seq<Server>)
    requires Informed(self, members, proc) && !proc.Working?
    ensures Informed(self, members, Working(Plan(self, proc, leader, readable, servers)))
  {
    GoalsValid(self, members);
    if proc.PassDue? {
      hide PassActions, Desired;
      PassCovers(self, proc.members, servers);
      forall a | a in PassActions(self, proc.members, servers)
        ensures Sound(Goals(self, members), a)
      {
        assert Fresh(Goals(self, proc.members), View(servers), a);
      }
    }
  }

  lemma SoundRest(g: Goal, a: Action, reply: Reply)
    requires Sound(g, a)
    ensures forall b | b in Rest(a, reply) :: Sound(g, b)
  {
  }

  lemma SoundKeeps(g: Goal, c: Config, v: Config, a: Action, reply: Reply)
    requires g.Valid() && Sound(g, a) && Retained(g, c, v)
    ensures Retained(g, c, Effect(v, Event(FirstCall(a), reply)))
  {
    forall x | x in g.known && x !in g.desired
      ensures SameEntry(Effect(v, Event(FirstCall(a), reply)), c, x)
    {
      assert SameEntry(v, c, x);
    }
  }

  lemma NextKeeps(self: Id, members: seq<Member>, c: Config, w: World, l: Label)
    requires UniqueIds(members) && Distinct(w.servers) && AllInformed(self, members, w)
    requires Retained(Goals(self, members), c, View(w.servers))
    ensures var v := Next(self, w, l);
            Distinct(v.servers) && AllInformed(self, members, v) && Retained(Goals(self, members), c, View(v.servers))
  {
    hide View, Distinct, After, Plan, Goals, Sound, Retained, Rest, UniqueIds, Effect;
    var v := Next(self, w, l);
    if l.p < |w.procs| {
      var proc := w.procs[l.p];
      assert Informed(self, members, proc);
      if l.Begin? && !proc.Working? {
        PlanSound(self, members, proc, l.leader, l.readable, w.servers);
      } else if l.Send? && proc.Working? && proc.actions != [] {
        var a := proc.actions[0];
        assert a in proc.actions;
        assert forall b | b in proc.actions[1..] :: b in proc.actions;
        GoalsValid(self, members);
        SoundRest(Goals(self, members), a, l.reply);
        AfterView(w.servers, Event(FirstCall(a), l.reply));
        SoundKeeps(Goals(self, members), c, View(w.servers), a, l.reply);
      }
    }
  }

  /** Whatever the interleaving and the failures, goroutines informed by one gossip state
      never touch an entry reconciliation must keep. */
  lemma {:induction false} RunKeepsEntries(self: Id, members: seq<Member>, w: World, ls: seq<Label>)
    requires UniqueIds(members) && Distinct(w.servers) && AllInformed(self, members, w)
    ensures var v := Exec(self, w, ls);
            && Distinct(v.servers) && AllInformed(self, members, v)
            && Retained(Goals(self, members), View(w.servers), View(v.servers))
  {
    RetainedSelf(Goals(self, members), View(w.servers));
    hide Next, Distinct, AllInformed, View, Retained, Goals, UniqueIds;
    if ls != [] {
      RunKeepsEntries(self, members, w, ls[..|ls| - 1]);
      NextKeeps(self, members, View(w.servers), Exec(self, w, ls[..|ls| - 1]), ls[|ls| - 1]);
    }
  }

  lemma RetainedSelf(g: Goal, c: Config)
    ensures Retained(g, c, c)
  {
  }

  /** So the target never moves, and a clean pass after any such run reaches the target of
      the configuration the run began with. */
  lemma TargetStandsStill(self: Id, members: seq<Member>, w: World, ls: seq<Label>, trace: seq<Event>, good: seq<Reply>)
    requires UniqueIds(members) && Distinct(w.servers) && AllInformed(self, members, w) && AllCommit(good)
    ensures var g, v := Goals(self, members), Exec(self, w, ls);
            var r := RaftState(v.servers, trace);
            && Target(g, View(v.servers)) == Target(g, View(w.servers))
            && View(Issue(r, PassActions(self, members, v.servers), good).servers) == Target(g, View(w.servers))
  {
    hide Next, View, Distinct, AllInformed, PassActions, Issue;
    RunKeepsEntries(self, members, w, ls);
    RetainedTarget(Goals(self, members), View(w.servers), View(Exec(self, w, ls).servers));
    PassReachesTarget(self, members, RaftState(Exec(self, w, ls).servers, trace), good);
  }

  // ---- Convergence of interleaved goroutines ----------------------------------------

  /** The goroutine will still see to server `x`. */
  ghost predicate Owes(self: Id, g: Goal, proc: Proc, x: Id) {
    match proc
    case PassDue(ms) => x in Desired(self, ms) || x !in Ids(ms) + {self}
    case JoinDue(peer, gossip) => peer.id == x && x in g.desired && !IgnoredJoin(self, peer, gossip)
    case LeaveDue(id) => id == x && x !in g.known
    case Working(actions) => Touches(actions, x)
  }

  ghost predicate Covered(self: Id, g: Goal, w: World, x: Id) {
    exists i :: 0 <= i < |w.procs| && Owes(self, g, w.procs[i], x)
  }

  /** Every server away from its target is some goroutine's business. */
  ghost predicate Pending(self: Id, g: Goal, w: World) {
    forall x | OffTarget(g, View(w.servers), x) :: Covered(self, g, w, x)
  }

  predicate Smooth(l: Label) {
    match l
    case Begin(p, leader, readable) => leader && readable
    case Send(p, reply) => reply.Committed?
  }

  lemma OtherStillOwes(self: Id, g: Goal, w: World, v: World, p: nat, x: Id)
    requires p < |w.procs| && Covered(self, g, w, x)
    requires |v.procs| == |w.procs| && forall i | 0 <= i < |w.procs| && i != p :: v.procs[i] == w.procs[i]
    requires Owes(self, g, w.procs[p], x) ==> Owes(self, g, v.procs[p], x)
    ensures Covered(self, g, v, x)
  {
    var i :| 0 <= i < |w.procs| && Owes(self, g, w.procs[i], x);
    assert Owes(self, g, v.procs[i], x);
  }

  /** A committed call settles its server or leaves the rest of the action to do so. */
  lemma SendSettles(g: Goal, c: Config, a: Action, x: Id)
    requires g.Valid() && Sound(g, a)
    requires OffTarget(g, Effect(c, Event(FirstCall(a), Committed)), x)
    ensures if x == a.id then Touches(Rest(a, Committed), x) else OffTarget(g, c, x)
  {
    if x == a.id {
      assert a.Replace?;
      assert Rest(a, Committed)[0].id == x;
    }
  }

  lemma TouchesSplit(acts: seq<Action>, a: Action, rest: seq<Action>, x: Id)
    requires acts != [] && acts[0] == a
    requires if x == a.id then Touches(rest, x) else Touches(acts, x)
    ensures Touches(rest + acts[1..], x)
  {
    if x == a.id {
      var b :| b in rest && b.id == x;
      assert b in rest + acts[1..];
    } else {
      var b :| b in acts && b.id == x;
      assert acts == [a] + acts[1..];
      assert b in rest + acts[1..];
    }
  }

  /** A goroutine that starts plans something for every server it owes that is off target. */
  lemma PlanHonours(self: Id, members: seq<Member>, proc: Proc, servers: seq<Server>, x: Id)
    requires UniqueIds(members) && Informed(self, members, proc) && !proc.Working?
    requires Owes(self, Goals(self, members), proc, x) && OffTarget(Goals(self, members), View(servers), x)
    ensures Touches(Plan(self, proc, true, true, servers), x)
  {
    var acts := Plan(self, proc, true, true, servers);
    match proc
    case PassDue(ms) =>
      hide PassActions;
      PassCovers(self, ms, servers);
      GoalsValid(self, members);
      assert OffTarget(Goals(self, ms), View(servers), x);
    case JoinDue(peer, gossip) => assert acts[0].id == x;
    case LeaveDue(id) => assert acts[0].id == x;
  }

  lemma BeginPending(self: Id, members: seq<Member>, w: World, p: nat)
    requires UniqueIds(members) && AllInformed(self, members, w) && Pending(self, Goals(self, members), w)
    requires p < |w.procs| && !w.procs[p].Working?
    ensures Pending(self, Goals(self, members), Next(self, w, Begin(p, true, true)))
  {
    hide View, Plan, Goals, OffTarget, Touches, Informed;
    var g, v := Goals(self, members), Next(self, w, Begin(p, true, true));
    forall x | OffTarget(g, View(v.servers), x)
      ensures Covered(self, g, v, x)
    {
      assert Covered(self, g, w, x);
      if Owes(self, g, w.procs[p], x) {
        PlanHonours(self, members, w.procs[p], w.servers, x);
      }
      OtherStillOwes(self, g, w, v, p, x);
    }
  }

  lemma SendPending(self: Id, members: seq<Member>, w: World, p: nat)
    requires Distinct(w.servers) && AllInformed(self, members, w) && Pending(self, Goals(self, members), w)
    requires p < |w.procs| && w.procs[p].Working? && w.procs[p].actions != []
    ensures Pending(self, Goals(self, members), Next(self, w, Send(p, Committed)))
  {
    hide View, Goals, OffTarget, Touches, Sound, Effect, After, Distinct, Rest;
    var g, v := Goals(self, members), Next(self, w, Send(p, Committed));
    var acts := w.procs[p].actions;
    var a := acts[0];
    assert Informed(self, members, w.procs[p]) && a in acts;
    GoalsValid(self, members);
    AfterView(w.servers, Event(FirstCall(a), Committed));
    forall x | OffTarget(g, View(v.servers), x)
      ensures Covered(self, g, v, x)
    {
      SendSettles(g, View(w.servers), a, x);
      if x == a.id {
        TouchesSplit(acts, a, Rest(a, Committed), x);
        assert Owes(self, g, v.procs[p], x);
      } else {
        assert Covered(self, g, w, x);
        if Owes(self, g, w.procs[p], x) {
          TouchesSplit(acts, a, Rest(a, Committed), x);
        }
        OtherStillOwes(self, g, w, v, p, x);
      }
    }
  }

  lemma {:induction false} RunPending(self: Id, members: seq<Member>, w: World, ls: seq<Label>)
    requires UniqueIds(members) && Distinct(w.servers) && AllInformed(self, members, w)
    requires Pending(self, Goals(self, members), w)
    requires forall l | l in ls :: Smooth(l)
    ensures Pending(self, Goals(self, members), Exec(self, w, ls))
  {
    hide Distinct, AllInformed, View, Goals, UniqueIds, Pending, Plan, After, Rest;
    if ls != [] {
      var init, l := ls[..|ls| - 1], ls[|ls| - 1];
      var v := Exec(self, w, init);
      assert l in ls && forall k | k in init :: k in ls;
      RunPending(self, members, w, init);
      RunKeepsEntries(self, members, w, init);
      if l.p < |v.procs| {
        if l.Begin? && !v.procs[l.p].Working? {
          BeginPending(self, members, v, l.p);
        } else if l.Send? && v.procs[l.p].Working? && v.procs[l.p].actions != [] {
          SendPending(self, members, v, l.p);
        }
      }
    }
  }

  predicate Finished(w: World) {
    forall i | 0 <= i < |w.procs| :: w.procs[i] == Working([])
  }

  lemma NobodyOwes(self: Id, g: Goal, w: World, x: Id)
    requires Finished(w)
    ensures !Covered(self, g, w, x)
  {
  }

  /** With gossip fixed, goroutines informed by it and every call committed, any
      interleaving of passes, join handlers and leave handlers, each on its own stale
      snapshot, ends at the target once all have finished, provided each server away from
      its target is due to be seen to by one of them. */
  lemma InterleavingsConverge(self: Id, members: seq<Member>, w: World, ls: seq<Label>)
    requires UniqueIds(members) && Distinct(w.servers) && AllInformed(self, members, w)
    requires Pending(self, Goals(self, members), w)
    requires forall l | l in ls :: Smooth(l)
    requires Finished(Exec(self, w, ls))
    ensures View(Exec(self, w, ls).servers) == Target(Goals(self, members), View(w.servers))
  {
    hide Next, View, Distinct, AllInformed, Goals, OffTarget, UniqueIds, Retained, Target, Finished, Covered;
    var g, v := Goals(self, members), Exec(self, w, ls);
    RunPending(self, members, w, ls);
    RunKeepsEntries(self, members, w, ls);
    GoalsValid(self, members);
    forall x
      ensures !OffTarget(g, View(v.servers), x)
    {
      NobodyOwes(self, g, v, x);
    }
    OnTargetIsTarget(g, View(w.servers), View(v.servers));
  }

  lemma PassOwes(self: Id, members: seq<Member>, w: World, pass: nat)
    requires pass < |w.procs| && w.procs[pass] == PassDue(members)
    ensures Pending(self, Goals(self, members), w)
  {
    hide View;
    forall x | OffTarget(Goals(self, members), View(w.servers), x)
      ensures Covered(self, Goals(self, members), w, x)
    {
      assert Owes(self, Goals(self, members), w.procs[pass], x);
    }
  }

  /** One full pass among the goroutines is enough, whatever joins and leaves run beside it. */
  lemma PassAmongHandlersConverges(self: Id, members: seq<Member>, w: World, ls: seq<Label>, pass: nat)
    requires UniqueIds(members) && Distinct(w.servers) && AllInformed(self, members, w)
    requires pass < |w.procs| && w.procs[pass] == PassDue(members)
    requires forall l | l in ls :: Smooth(l)
    requires Finished(Exec(self, w, ls))
    ensures View(Exec(self, w, ls).servers) == Target(Goals(self, members), View(w.servers))
  {
    hide Next, View, Distinct, AllInformed, Goals, OffTarget, UniqueIds, Target, Finished;
    PassOwes(self, members, w, pass);
    InterleavingsConverge(self, members, w, ls);
  }

  lemma SendLast(self: Id, w: World, p: nat, a: Action, reply: Reply)
    requires p < |w.procs| && w.procs[p] == Working([a])
    ensures Next(self, w, Send(p, reply))
         == World(After(w.servers, Event(FirstCall(a), reply)), w.procs[p := Working(Rest(a, reply))])
  {
    assert Rest(a, reply) + [a][1..] == Rest(a, reply);
  }

  lemma ExecStep(self: Id, w: World, ls: seq<Label>, l: Label)
    ensures Exec(self, w, ls + [l]) == Next(self, Exec(self, w, ls), l)
  {
    hide Next;
    ExecAppend(self, w, ls, [l]);
    ExecOne(self, Exec(self, w, ls), l);
  }

  /** A world of two goroutines. */
  function Pair(servers: seq<Server>, a: Proc, b: Proc): World {
    World(servers, [a, b])
  }

  lemma OldJoinBegins(members: seq<Member>, pass: Proc, join: Proc)
    requires members == [Member("p", "new", true)]
    requires pass == PassDue(members) && join == JoinDue(Peer("p", "old"), Some(members))
    ensures Next("n", Pair([], pass, join), Begin(0, true, true)) == Pair([], Working([Add("p", "new")]), join)
    ensures Next("n", Pair([Server("p", "new")], Working([]), join), Begin(1, true, true))
         == Pair([Server("p", "new")], Working([]), Working([Replace("p", "old", true)]))
  {
    OldJoinPlans(members);
    hide PassActions, JoinActions, View;
  }

  lemma OldJoinSends(join: Proc)
    ensures Next("n", Pair([], Working([Add("p", "new")]), join), Send(0, Committed))
         == Pair([Server("p", "new")], Working([]), join)
    ensures Next("n", Pair([Server("p", "new")], Working([]), Working([Replace("p", "old", true)])), Send(1, Committed))
         == Pair([], Working([]), Working([Add("p", "old")]))
    ensures Next("n", Pair([], Working([]), Working([Add("p", "old")])), Send(1, Committed))
         == Pair([Server("p", "old")], Working([]), Working([]))
  {
    SendLast("n", Pair([], Working([Add("p", "new")]), join), 0, Add("p", "new"), Committed);
    SendLast("n", Pair([Server("p", "new")], Working([]), Working([Replace("p", "old", true)])), 1, Replace("p", "old", true), Committed);
    SendLast("n", Pair([], Working([]), Working([Add("p", "old")])), 1, Add("p", "old"), Committed);
  }

  /** A join that carries an address gossip has since replaced can finish last and leave the
      peer at the old address. */
  lemma OldJoinCanWin()
    ensures var members := [Member("p", "new", true)];
            var w := Pair([], PassDue(members), JoinDue(Peer("p", "old"), Some(members)));
            var ls := [Begin(0, true, true)] + [Send(0, Committed)] + [Begin(1, true, true)] + [Send(1, Committed)]
                      + [Send(1, Committed)];
            && Finished(Exec("n", w, ls))
            && View(Exec("n", w, ls).servers) == map["p" := "old"]
            && Target(Goals("n", members), View(w.servers)) == map["p" := "new"]
  {
    hide Next, PassActions, JoinActions, Goals, Target, View, Exec;
    var members := [Member("p", "new", true)];
    var pass, join := PassDue(members), JoinDue(Peer("p", "old"), Some(members));
    var w := Pair([], pass, join);
    OldJoinPlans(members);
    OldJoinBegins(members, pass, join);
    OldJoinSends(join);
    ExecOne("n", w, Begin(0, true, true));
    var ls := [Begin(0, true, true)];
    ExecStep("n", w, ls, Send(0, Committed));
    ExecStep("n", w, ls + [Send(0, Committed)], Begin(1, true, true));
    ExecStep("n", w, ls + [Send(0, Committed)] + [Begin(1, true, true)], Send(1, Committed));
    ExecStep("n", w, ls + [Send(0, Committed)] + [Begin(1, true, true)] + [Send(1, Committed)], Send(1, Committed));
  }

  /** The plans and views the run above goes through. */
  lemma OldJoinPlans(members: seq<Member>)
    requires members == [Member("p", "new", true)]
    ensures PassActions("n", members, []) == [Add("p", "new")]
    ensures View([Server("p", "new")]) == map["p" := "new"] && View([Server("p", "old")]) == map["p" := "old"]
    ensures JoinActions("n", Peer("p", "old"), Some(members), Some(map["p" := "new"])) == [Replace("p", "old", true)]
    ensures Target(Goals("n", members), View([])) == map["p" := "new"]
  {
    assert members[..0] == [] && "n" != "p" && "old"[0] != "new"[0];
    assert [Server("p", "new")][..0] == [] && [Server("p", "old")][..0] == [];
    assert Desired("n", members) == map["p" := "new"];
    assert AllMemberActions("n", members[..0], map[]) == [] && MemberActions("n", members[0], map[]) == [Add("p", "new")];
    assert AllMemberActions("n", members, View([])) == [] + [Add("p", "new")];
    assert members[0].bootstrapped && FirstBootstrapped("p", members);
  }
}
