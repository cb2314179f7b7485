/** Where committed plans lead: a full pass and the event handlers, run one after
    another, both end at the target. */
module Convergence {
  import opened Options
  import opened Cluster
  import opened Membership

  ghost predicate AllCommit(answers: seq<Reply>) {
    forall k | 0 <= k < |answers| :: answers[k] == Committed
  }

  lemma SettleOne(c: Config, a: Action, answers: seq<Reply>, n: nat)
    requires AllCommit(answers)
    ensures EffectAll(c, One(a, answers, n)) == if a.Remove? then c - {a.id} else c[a.id := a.addr]
  {
    var es := One(a, answers, n);
    assert Answer(answers, n) == Committed && Answer(answers, n + 1) == Committed;
    EffectAllOne(c, es[0]);
    if a.Replace? {
      EffectAllOne(Effect(c, es[0]), es[1]);
      EffectAllAppend(c, [es[0]], [es[1]]);
      assert es == [es[0]] + [es[1]];
    } else {
      assert es == [es[0]];
    }
  }

  /** A committed plan puts every server it names on target and leaves the rest alone. */
  ghost predicate PlanEntry(g: Goal, c: Config, v: Config, acts: seq<Action>, x: Id) {
    if Touches(acts, x) then if x in g.desired then AtDesired(g, v, x) else x !in v
    else SameEntry(v, c, x)
  }

  lemma PlanOne(g: Goal, c: Config, v: Config, acts: seq<Action>, a: Action, x: Id)
    requires PlanEntry(g, c, v, acts, x) && Sound(g, a)
    ensures PlanEntry(g, c, if a.Remove? then v - {a.id} else v[a.id := a.addr], acts + [a], x)
  {
    assert a in acts + [a];
    assert forall b | b in acts :: b in acts + [a];
    assert Touches(acts + [a], x) <==> Touches(acts, x) || a.id == x;
  }

  lemma PlanNothing(g: Goal, c: Config, answers: seq<Reply>, n: nat, x: Id)
    ensures PlanEntry(g, c, EffectAll(c, Perform([], answers, n)), [], x)
  {
    assert EffectAll(c, []) == c;
  }

  lemma {:induction false} PlanSettles(g: Goal, c: Config, acts: seq<Action>, answers: seq<Reply>, n: nat, x: Id)
    requires AllCommit(answers)
    requires forall a | a in acts :: Sound(g, a)
    ensures PlanEntry(g, c, EffectAll(c, Perform(acts, answers, n)), acts, x)
  {
    hide PlanEntry, EffectAll, One, Perform, Sound;
    if acts == [] {
      PlanNothing(g, c, answers, n, x);
    } else {
      var init, a := acts[..|acts| - 1], acts[|acts| - 1];
      var es := Perform(init, answers, n);
      assert acts == init + [a] && a in acts;
      PlanSettles(g, c, init, answers, n, x);
      PerformLast(init, a, answers, n);
      EffectAllAppend(c, es, One(a, answers, n + |es|));
      SettleOne(EffectAll(c, es), a, answers, n + |es|);
      PlanOne(g, c, EffectAll(c, es), init, a, x);
    }
  }

  /** The entries reconciliation must not touch are as they were. */
  ghost predicate Retained(g: Goal, c: Config, v: Config) {
    forall x | x in g.known && x !in g.desired :: SameEntry(v, c, x)
  }

  lemma OnTargetIsTarget(g: Goal, c: Config, v: Config)
    requires g.Valid() && Retained(g, c, v)
    requires forall x :: !OffTarget(g, v, x)
    ensures v == Target(g, c)
  {
    var t := Target(g, c);
    forall x
      ensures SameEntry(v, t, x)
    {
      assert !OffTarget(g, v, x);
      if x in g.known && x !in g.desired {
        assert SameEntry(v, c, x);
      }
    }
    assert forall x :: x in v ==> SameEntry(v, t, x);
    assert forall x :: x in t ==> SameEntry(v, t, x);
  }

  /** A pass whose calls all commit ends exactly at the target, and a second pass
      then plans nothing. */
  lemma PassReachesTarget(self: Id, members: seq<Member>, r: RaftState, answers: seq<Reply>)
    requires UniqueIds(members) && Distinct(r.servers) && AllCommit(answers)
    ensures var after := Issue(r, PassActions(self, members, r.servers), answers).servers;
            && View(after) == Target(Goals(self, members), View(r.servers))
            && PassActions(self, members, after) == []
  {
    var g, c, acts := Goals(self, members), View(r.servers), PassActions(self, members, r.servers);
    var after := Issue(r, acts, answers).servers;
    GoalsValid(self, members);
    PassCovers(self, members, r.servers);
    IssueView(r, acts, answers);
    forall x
      ensures !OffTarget(g, View(after), x)
      ensures x in g.known && x !in g.desired ==> SameEntry(View(after), c, x)
    {
      PlanSettles(g, c, acts, answers, |r.trace|, x);
    }
    OnTargetIsTarget(g, c, View(after));
    PassCovers(self, members, after);
  }

  // ---- Event handlers one after another -----------------------------------------

  /** The events handled in turn, each from a fresh snapshot. */
  function Feed(self: Id, members: seq<Member>, r: RaftState, evs: seq<PeerEvent>, answers: seq<Reply>): RaftState {
    if evs == [] then r
    else
      var s := Feed(self, members, r, evs[..|evs| - 1], answers);
      Issue(s, EventActions(self, members, s.servers, evs[|evs| - 1]), answers)
  }

  predicate HasJoin(evs: seq<PeerEvent>, x: Id) {
    exists ev | ev in evs :: ev.Joined? && ev.peer.id == x
  }

  /** After the events, a server gossip wants is in place once a join named it, a stale
      one is gone once a leave named it, and every other server is as it was. */
  ghost predicate FedEntry(g: Goal, c: Config, v: Config, evs: seq<PeerEvent>, x: Id) {
    if x in g.desired then HasJoin(evs, x) ==> AtDesired(g, v, x)
    else if x !in g.known then Left(x) in evs || x !in c ==> x !in v
    else SameEntry(v, c, x)
  }

  lemma EventCovers(self: Id, members: seq<Member>, servers: seq<Server>, ev: PeerEvent)
    requires UniqueIds(members) && MatchesGossip(members, ev)
    ensures var g, acts := Goals(self, members), EventActions(self, members, servers, ev);
            && (forall a | a in acts :: Sound(g, a))
            && (ev.Joined? && ev.peer.id in g.desired && !AtDesired(g, View(servers), ev.peer.id) ==> Touches(acts, ev.peer.id))
            && (ev.Left? && ev.id !in g.known ==> Touches(acts, ev.id))
  {
    GoalsValid(self, members);
    match ev
    case Joined(peer) => JoinCovers(self, members, peer, Some(View(servers)));
    case Left(id) => assert id != self ==> EventActions(self, members, servers, ev)[0] == Remove(id);
  }

  lemma FeedEntryStep(g: Goal, c: Config, now: Config, v: Config, evs: seq<PeerEvent>, ev: PeerEvent, acts: seq<Action>, x: Id)
    requires g.Valid() && FedEntry(g, c, now, evs, x) && PlanEntry(g, now, v, acts, x)
    requires forall a | a in acts :: Sound(g, a)
    requires ev.Joined? && ev.peer.id in g.desired && !AtDesired(g, now, ev.peer.id) ==> Touches(acts, ev.peer.id)
    requires ev.Left? && ev.id !in g.known ==> Touches(acts, ev.id)
    ensures FedEntry(g, c, v, evs + [ev], x)
  {
    assert HasJoin(evs + [ev], x) ==> HasJoin(evs, x) || (ev.Joined? && ev.peer.id == x);
    assert Left(x) in evs + [ev] ==> Left(x) in evs || ev == Left(x);
  }

  lemma FeedOne(self: Id, members: seq<Member>, c: Config, r: RaftState, evs: seq<PeerEvent>, ev: PeerEvent,
                answers: seq<Reply>, x: Id)
    requires UniqueIds(members) && Distinct(r.servers) && AllCommit(answers)
    requires MatchesGossip(members, ev)
    requires FedEntry(Goals(self, members), c, View(r.servers), evs, x)
    ensures var s := Issue(r, EventActions(self, members, r.servers, ev), answers).servers;
            Distinct(s) && FedEntry(Goals(self, members), c, View(s), evs + [ev], x)
  {
    hide FedEntry, Goals, View, Distinct, Issue, EventActions, MatchesGossip, AllCommit, UniqueIds, PlanEntry,
         Perform, EffectAll, Sound, AtDesired, Touches;
    var g, now := Goals(self, members), View(r.servers);
    var acts := EventActions(self, members, r.servers, ev);
    GoalsValid(self, members);
    EventCovers(self, members, r.servers, ev);
    PlanSettles(g, now, acts, answers, |r.trace|, x);
    IssueView(r, acts, answers);
    FeedEntryStep(g, c, now, EffectAll(now, Perform(acts, answers, |r.trace|)), evs, ev, acts, x);
  }

  lemma {:induction false} FeedSettles(self: Id, members: seq<Member>, r: RaftState, evs: seq<PeerEvent>,
                                       answers: seq<Reply>, x: Id)
    requires UniqueIds(members) && Distinct(r.servers) && AllCommit(answers)
    requires forall ev | ev in evs :: MatchesGossip(members, ev)
    ensures var s := Feed(self, members, r, evs, answers).servers;
            Distinct(s) && FedEntry(Goals(self, members), View(r.servers), View(s), evs, x)
  {
    if evs != [] {
      hide FedEntry, Goals, View, Distinct, Issue, EventActions, MatchesGossip, AllCommit, UniqueIds;
      var init, ev := evs[..|evs| - 1], evs[|evs| - 1];
      assert evs == init + [ev] && ev in evs;
      FeedSettles(self, members, r, init, answers, x);
      FeedOne(self, members, View(r.servers), Feed(self, members, r, init, answers), init, ev, answers, x);
      assert FedEntry(Goals(self, members), View(r.servers), View(Feed(self, members, r, evs, answers).servers), evs, x);
    }
  }

  /** Handing every gossip member to the join handler and every server gossip lacks to
      the leave handler, in any order and with repeats, does what one full pass does. */
  lemma EventsMatchPass(self: Id, members: seq<Member>, r: RaftState, evs: seq<PeerEvent>, answers: seq<Reply>)
    requires UniqueIds(members) && Distinct(r.servers) && AllCommit(answers)
    requires forall ev | ev in evs :: MatchesGossip(members, ev)
    requires forall m | m in members :: Joined(Peer(m.id, m.raftAddr)) in evs
    requires forall x | x in View(r.servers) && x !in Ids(members) :: Left(x) in evs
    ensures View(Feed(self, members, r, evs, answers).servers)
         == View(Issue(r, PassActions(self, members, r.servers), answers).servers)
         == Target(Goals(self, members), View(r.servers))
  {
    var g, c := Goals(self, members), View(r.servers);
    var v := View(Feed(self, members, r, evs, answers).servers);
    PassReachesTarget(self, members, r, answers);
    GoalsValid(self, members);
    forall x
      ensures !OffTarget(g, v, x)
      ensures x in g.known && x !in g.desired ==> SameEntry(v, c, x)
    {
      FeedSettles(self, members, r, evs, answers, x);
      if x in g.desired {
        DesiredIsMember(self, members, x);
        var m := Member(x, g.desired[x], true);
        assert m in members && Joined(Peer(m.id, m.raftAddr)) in evs;
      }
    }
    OnTargetIsTarget(g, c, v);
  }
}
