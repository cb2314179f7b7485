/** What one reconciliation pass or one gossip event asks of Raft, decided from a
    snapshot of the server list, and where running those requests leads. */
module Membership {
  import opened Options
  import opened Cluster

  /** The fields of a gossip member that reconciliation reads. */
  datatype Member = Member(id: Id, raftAddr: Addr, bootstrapped: bool)

  datatype Peer = Peer(id: Id, raftAddr: Addr)

  // ---- The configuration gossip asks for -------------------------------------

  predicate Eligible(self: Id, m: Member) {
    m.id != self && m.bootstrapped && m.raftAddr != ""
  }

  function Ids(members: seq<Member>): set<Id> {
    set m | m in members :: m.id
  }

  ghost predicate UniqueIds(members: seq<Member>) {
    forall i, j | 0 <= i < j < |members| :: members[i].id != members[j].id
  }

  /** The address of every bootstrapped peer that has one. */
  function Desired(self: Id, members: seq<Member>): (d: Config) {
    if members == [] then map[]
    else
      var m := members[|members| - 1];
      var d := Desired(self, members[..|members| - 1]);
      if Eligible(self, m) then d[m.id := m.raftAddr] else d
  }

  lemma {:induction false} DesiredIsMember(self: Id, members: seq<Member>, x: Id)
    requires x in Desired(self, members)
    ensures x in Ids(members) && x != self
    ensures Member(x, Desired(self, members)[x], true) in members && Desired(self, members)[x] != ""
  {
    var init, last := members[..|members| - 1], members[|members| - 1];
    if last.id == x && Eligible(self, last) {
      assert last in members;
    } else {
      DesiredIsMember(self, init, x);
      assert Member(x, Desired(self, members)[x], true) in members;
    }
  }

  lemma {:induction false} DesiredOfMember(self: Id, members: seq<Member>, m: Member)
    requires UniqueIds(members) && m in members
    ensures m.id in Desired(self, members) <==> m.id != self && m.bootstrapped && m.raftAddr != ""
    ensures m.id in Desired(self, members) ==> Desired(self, members)[m.id] == m.raftAddr
  {
    var init, last := members[..|members| - 1], members[|members| - 1];
    var i :| 0 <= i < |members| && members[i] == m;
    if i < |init| {
      assert init[i] == m;
      assert m.id != last.id;
      DesiredOfMember(self, init, m);
    } else {
      assert m.id !in Ids(init);
      if m.id in Desired(self, init) {
        DesiredIsMember(self, init, m.id);
      }
    }
  }

  /** What gossip asks for: the addresses it wants, and the IDs it knows, the node's own
      included. */
  datatype Goal = Goal(desired: Config, known: set<Id>) {
    predicate Valid() {
      desired.Keys <= known
    }
  }

  function Goals(self: Id, members: seq<Member>): Goal {
    Goal(Desired(self, members), Ids(members) + {self})
  }

  lemma GoalsValid(self: Id, members: seq<Member>)
    ensures Goals(self, members).Valid()
  {
    forall x | x in Desired(self, members)
      ensures x in Ids(members)
    {
      DesiredIsMember(self, members, x);
    }
  }

  /** Bootstrapped peers at their gossip address, other gossip members and the node
      itself as they are, every other server gone. */
  function Target(g: Goal, c: Config): (t: Config) {
    map x | x in c.Keys + g.desired.Keys && (x in g.desired || x in g.known)
      :: if x in g.desired then g.desired[x] else c[x]
  }

  predicate AtDesired(g: Goal, c: Config, x: Id) {
    x in g.desired && x in c && c[x] == g.desired[x]
  }

  /** The server is away from where gossip wants it. */
  predicate OffTarget(g: Goal, c: Config, x: Id) {
    if x in g.desired then !AtDesired(g, c, x) else x in c && x !in g.known
  }

  // ---- Decisions taken from a snapshot ---------------------------------------

  /** `Replace` removes the server and adds it again; `insist` says whether a failed
      removal still leads to the addition. */
  datatype Action =
    | Add(id: Id, addr: Addr)
    | Replace(id: Id, addr: Addr, insist: bool)
    | Remove(id: Id)

  function MemberActions(self: Id, m: Member, known: Config): seq<Action> {
    if !Eligible(self, m) then []
    else if m.id !in known then [Add(m.id, m.raftAddr)]
    else if known[m.id] == m.raftAddr then []
    else [Replace(m.id, m.raftAddr, false)]
  }

  function AllMemberActions(self: Id, members: seq<Member>, known: Config): seq<Action> {
    if members == [] then []
    else
      AllMemberActions(self, members[..|members| - 1], known)
      + MemberActions(self, members[|members| - 1], known)
  }

  function StaleActions(self: Id, listed: set<Id>, servers: seq<Server>): seq<Action> {
    if servers == [] then []
    else
      var x := servers[|servers| - 1].id;
      StaleActions(self, listed, servers[..|servers| - 1])
      + if x == self || x in listed then [] else [Remove(x)]
  }

  /** The calls a full pass plans: additions and replacements, then removals. */
  function PassActions(self: Id, members: seq<Member>, servers: seq<Server>): seq<Action> {
    AllMemberActions(self, members, View(servers)) + StaleActions(self, Ids(members), servers)
  }

  lemma MemberActionsLast(self: Id, members: seq<Member>, m: Member, known: Config)
    ensures AllMemberActions(self, members + [m], known)
         == AllMemberActions(self, members, known) + MemberActions(self, m, known)
    ensures Ids(members + [m]) == Ids(members) + {m.id}
  {
    var all := members + [m];
    assert all[..|all| - 1] == members && all[|all| - 1] == m;
  }

  lemma StaleActionsLast(self: Id, listed: set<Id>, servers: seq<Server>, s: Server)
    ensures StaleActions(self, listed, servers + [s])
         == StaleActions(self, listed, servers) + if s.id == self || s.id in listed then [] else [Remove(s.id)]
  {
    var all := servers + [s];
    assert all[..|all| - 1] == servers && all[|all| - 1] == s;
  }

  /** Whether gossip vouches for the peer; it does when there is no gossip to ask. */
  predicate Vouched(id: Id, gossip: Option<seq<Member>>) {
    match gossip
    case None => true
    case Some(members) => FirstBootstrapped(id, members)
  }

  predicate FirstBootstrapped(id: Id, members: seq<Member>) {
    members != [] &&
    if members[0].id == id then members[0].bootstrapped else FirstBootstrapped(id, members[1..])
  }

  /** The calls for a peer that has joined; `None` is a snapshot that could not be read. */
  function PeerActions(peer: Peer, gossip: Option<seq<Member>>, snapshot: Option<Config>): seq<Action> {
    if peer.raftAddr == "" || !Vouched(peer.id, gossip) then []
    else match snapshot
      case Some(known) =>
        if peer.id !in known then [Add(peer.id, peer.raftAddr)]
        else if known[peer.id] == peer.raftAddr then []
        else [Replace(peer.id, peer.raftAddr, true)]
      case None => [Add(peer.id, peer.raftAddr)]
  }

  /** The calls a peer-join event plans: none for the node itself. */
  function JoinActions(self: Id, peer: Peer, gossip: Option<seq<Member>>, snapshot: Option<Config>): seq<Action> {
    if peer.id == self then [] else PeerActions(peer, gossip, snapshot)
  }

  function LeaveActions(self: Id, id: Id): seq<Action> {
    if id == self then [] else [Remove(id)]
  }

  // ---- Running a plan ----------------------------------------------------------

  /** The answer to the k-th call ever issued, counting from 0: whatever `answers` says,
      and success once it has run out. */
  function Answer(answers: seq<Reply>, k: nat): Reply {
    if k < |answers| then answers[k] else Committed
  }

  /** The calls one action issues after `n` earlier ones. */
  function One(a: Action, answers: seq<Reply>, n: nat): (es: seq<Event>) {
    match a
    case Add(id, addr) => [Event(AddVoter(id, addr), Answer(answers, n))]
    case Remove(id) => [Event(RemoveServer(id), Answer(answers, n))]
    case Replace(id, addr, insist) =>
      var removal := Event(RemoveServer(id), Answer(answers, n));
      if removal.reply.Committed? || insist
      then [removal, Event(AddVoter(id, addr), Answer(answers, n + 1))]
      else [removal]
  }

  function Perform(acts: seq<Action>, answers: seq<Reply>, n: nat): (es: seq<Event>) {
    if acts == [] then []
    else
      var es := Perform(acts[..|acts| - 1], answers, n);
      es + One(acts[|acts| - 1], answers, n + |es|)
  }

  /** The server list and every call issued so far. */
  datatype RaftState = RaftState(servers: seq<Server>, trace: seq<Event>)

  function Issue(r: RaftState, acts: seq<Action>, answers: seq<Reply>): RaftState {
    var es := Perform(acts, answers, |r.trace|);
    RaftState(AfterAll(r.servers, es), r.trace + es)
  }

  lemma IssueView(r: RaftState, acts: seq<Action>, answers: seq<Reply>)
    requires Distinct(r.servers)
    ensures var s := Issue(r, acts, answers).servers;
            Distinct(s) && View(s) == EffectAll(View(r.servers), Perform(acts, answers, |r.trace|))
  {
    AfterAllView(r.servers, Perform(acts, answers, |r.trace|));
  }

  lemma PerformLast(acts: seq<Action>, a: Action, answers: seq<Reply>, n: nat)
    ensures var es := Perform(acts, answers, n);
            Perform(acts + [a], answers, n) == es + One(a, answers, n + |es|)
  {
    hide One;
    var all := acts + [a];
    assert all[..|all| - 1] == acts && all[|all| - 1] == a;
  }

  /** One call submitted to Raft. */
  function Submit(r: RaftState, call: Call, answers: seq<Reply>): RaftState {
    var e := Event(call, Answer(answers, |r.trace|));
    RaftState(After(r.servers, e), r.trace + [e])
  }

  /** One action, call by call. */
  function Act(r: RaftState, a: Action, answers: seq<Reply>): RaftState {
    match a
    case Add(id, addr) => Submit(r, AddVoter(id, addr), answers)
    case Remove(id) => Submit(r, RemoveServer(id), answers)
    case Replace(id, addr, insist) =>
      var removed := Submit(r, RemoveServer(id), answers);
      if Answer(answers, |r.trace|).Committed? || insist
      then Submit(removed, AddVoter(id, addr), answers)
      else removed
  }

  lemma ActIsOne(r: RaftState, a: Action, answers: seq<Reply>)
    ensures var es := One(a, answers, |r.trace|);
            Act(r, a, answers) == RaftState(AfterAll(r.servers, es), r.trace + es)
  {
    hide After, AfterAll;
    var es := One(a, answers, |r.trace|);
    AfterAllFew(r.servers, es[0], es[|es| - 1]);
    if |es| == 1 {
      assert es == [es[0]];
    } else {
      assert es == [es[0], es[1]];
      assert r.trace + [es[0], es[1]] == (r.trace + [es[0]]) + [es[1]];
    }
  }

  lemma Associative(a: seq<Event>, b: seq<Event>, c: seq<Event>)
    ensures (a + b) + c == a + (b + c)
  {
  }

  /** A plan extended by one action issues that action's calls last. */
  lemma IssueLast(r: RaftState, acts: seq<Action>, a: Action, answers: seq<Reply>)
    ensures Issue(r, acts + [a], answers) == Act(Issue(r, acts, answers), a, answers)
  {
    hide One, AfterAll, Perform, Act;
    var es := Perform(acts, answers, |r.trace|);
    var more := One(a, answers, |r.trace| + |es|);
    PerformLast(acts, a, answers, |r.trace|);
    AfterAllAppend(r.servers, es, more);
    Associative(r.trace, es, more);
    ActIsOne(Issue(r, acts, answers), a, answers);
  }

  lemma IssueNothing(r: RaftState, answers: seq<Reply>)
    ensures Issue(r, [], answers) == r
  {
    assert r.trace + [] == r.trace;
    assert AfterAll(r.servers, []) == r.servers;
  }

  lemma {:induction false} IssueAppend(r: RaftState, acts: seq<Action>, more: seq<Action>, answers: seq<Reply>)
    ensures Issue(r, acts + more, answers) == Issue(Issue(r, acts, answers), more, answers)
  {
    hide Issue, Act;
    if more == [] {
      assert acts + more == acts;
      IssueNothing(Issue(r, acts, answers), answers);
    } else {
      var init, a := more[..|more| - 1], more[|more| - 1];
      assert acts + more == (acts + init) + [a] && more == init + [a];
      IssueAppend(r, acts, init, answers);
      IssueLast(r, acts + init, a, answers);
      IssueLast(Issue(r, acts, answers), init, a, answers);
    }
  }

  lemma IssueOne(r: RaftState, a: Action, answers: seq<Reply>)
    ensures Issue(r, [a], answers) == Act(r, a, answers)
  {
    hide Issue, Act;
    IssueNothing(r, answers);
    IssueLast(r, [], a, answers);
    assert [] + [a] == [a];
  }

  // ---- What the plans call ------------------------------------------------------

  /** Gossip vouches for a peer when there is none to ask, or when the first member with the
      peer's ID is bootstrapped. */
  lemma {:induction false} FirstDecides(id: Id, members: seq<Member>)
    ensures FirstBootstrapped(id, members) <==>
            exists i | 0 <= i < |members| :: IsFirst(id, members, i) && members[i].bootstrapped
  {
    if members != [] {
      var rest := members[1..];
      FirstDecides(id, rest);
      if members[0].id == id {
        assert IsFirst(id, members, 0);
      } else {
        if i :| 0 <= i < |rest| && IsFirst(id, rest, i) && rest[i].bootstrapped {
          assert IsFirst(id, members, i + 1) && members[i + 1] == rest[i];
        }
        if i :| 0 <= i < |members| && IsFirst(id, members, i) && members[i].bootstrapped {
          assert forall j | 0 <= j < |rest| :: rest[j] == members[j + 1];
          assert IsFirst(id, rest, i - 1) && rest[i - 1] == members[i];
        }
      }
    }
  }

  predicate IsFirst(id: Id, members: seq<Member>, i: nat) {
    i < |members| && members[i].id == id && forall j | 0 <= j < i :: members[j].id != id
  }

  function CallAdd(id: Id, addr: Addr, answers: seq<Reply>, n: nat): Event {
    Event(AddVoter(id, addr), Answer(answers, n))
  }

  function CallRemove(id: Id, answers: seq<Reply>, n: nat): Event {
    Event(RemoveServer(id), Answer(answers, n))
  }

  lemma PerformOne(a: Action, answers: seq<Reply>, n: nat)
    ensures Perform([a], answers, n) == One(a, answers, n) && Perform([], answers, n) == []
  {
    hide One;
    assert [a][..0] == [] && Perform([], answers, n) == [];
    assert [] + One(a, answers, n) == One(a, answers, n);
  }

  /** What a joined peer's handler calls, for every peer, gossip, snapshot and answers. A
      peer listed elsewhere is removed and then added whatever became of the removal. */
  lemma JoinCalls(self: Id, peer: Peer, gossip: Option<seq<Member>>, snapshot: Option<Config>, answers: seq<Reply>, n: nat)
    ensures Perform(JoinActions(self, peer, gossip, snapshot), answers, n) ==
            if peer.id == self || peer.raftAddr == "" || !Vouched(peer.id, gossip) then []
            else if snapshot == None || peer.id !in snapshot.value then [CallAdd(peer.id, peer.raftAddr, answers, n)]
            else if snapshot.value[peer.id] == peer.raftAddr then []
            else [CallRemove(peer.id, answers, n), CallAdd(peer.id, peer.raftAddr, answers, n + 1)]
  {
    hide Perform, Vouched;
    PerformOne(Add(peer.id, peer.raftAddr), answers, n);
    PerformOne(Replace(peer.id, peer.raftAddr, true), answers, n);
  }

  /** What a pass calls for one gossip member. A member listed elsewhere is removed, and
      added only if the removal is reported to have committed. */
  lemma MemberCalls(self: Id, m: Member, known: Config, answers: seq<Reply>, n: nat)
    ensures Perform(MemberActions(self, m, known), answers, n) ==
            if m.id == self || !m.bootstrapped || m.raftAddr == "" then []
            else if m.id !in known then [CallAdd(m.id, m.raftAddr, answers, n)]
            else if known[m.id] == m.raftAddr then []
            else if Answer(answers, n) == Committed
            then [CallRemove(m.id, answers, n), CallAdd(m.id, m.raftAddr, answers, n + 1)]
            else [CallRemove(m.id, answers, n)]
  {
    hide Perform;
    PerformOne(Add(m.id, m.raftAddr), answers, n);
    PerformOne(Replace(m.id, m.raftAddr, false), answers, n);
  }

  // ---- What the plans contain --------------------------------------------------

  predicate Touches(acts: seq<Action>, x: Id) {
    exists a | a in acts :: a.id == x
  }

  /** An action in the direction of the target. */
  predicate Sound(g: Goal, a: Action) {
    if a.Remove? then a.id !in g.desired && a.id !in g.known
    else a.id in g.desired && a.addr == g.desired[a.id]
  }

  /** An addition is planned for an unlisted peer only, a replacement for a listed one
      at another address. */
  predicate Fresh(g: Goal, c: Config, a: Action) {
    && Sound(g, a)
    && OffTarget(g, c, a.id)
    && (if a.Add? then a.id !in c else a.id in c)
    && (a.Replace? ==> !a.insist)
  }

  lemma MemberPlanned(self: Id, all: seq<Member>, m: Member, c: Config)
    requires UniqueIds(all) && m in all
    ensures forall a | a in MemberActions(self, m, c) :: a.id == m.id && !a.Remove? && Fresh(Goals(self, all), c, a)
    ensures m.id in Desired(self, all) && !AtDesired(Goals(self, all), c, m.id) ==> MemberActions(self, m, c) != []
  {
    DesiredOfMember(self, all, m);
  }

  lemma {:induction false} MembersPlanned(self: Id, all: seq<Member>, members: seq<Member>, c: Config)
    requires UniqueIds(all) && members <= all
    ensures forall a | a in AllMemberActions(self, members, c) ::
              !a.Remove? && a.id in Ids(members) && Fresh(Goals(self, all), c, a)
  {
    if members != [] {
      var init, m := members[..|members| - 1], members[|members| - 1];
      MembersPlanned(self, all, init, c);
      assert m in all && m in members;
      assert Ids(init) <= Ids(members);
      MemberPlanned(self, all, m, c);
    }
  }

  lemma {:induction false} MembersCovered(self: Id, all: seq<Member>, members: seq<Member>, c: Config, x: Id)
    requires UniqueIds(all) && members <= all
    requires x in Desired(self, all) && x in Ids(members) && !AtDesired(Goals(self, all), c, x)
    ensures Touches(AllMemberActions(self, members, c), x)
  {
    var init, m := members[..|members| - 1], members[|members| - 1];
    var acts, more := AllMemberActions(self, init, c), MemberActions(self, m, c);
    assert members == init + [m];
    if x == m.id {
      assert m in all;
      MemberPlanned(self, all, m, c);
      assert more[0] in more;
      assert (acts + more)[|acts|].id == x;
    } else {
      MembersCovered(self, all, init, c, x);
      var a :| a in acts && a.id == x;
      assert a in acts + more;
    }
  }

  lemma {:induction false} StalePlanned(self: Id, known: set<Id>, servers: seq<Server>)
    requires self in known
    ensures forall a | a in StaleActions(self, known, servers) :: a.Remove? && a.id !in known && a.id in View(servers)
  {
    if servers != [] {
      StalePlanned(self, known, servers[..|servers| - 1]);
    }
  }

  lemma {:induction false} StaleCovered(self: Id, known: set<Id>, servers: seq<Server>, x: Id)
    requires x in View(servers) && x !in known && x != self
    ensures Touches(StaleActions(self, known, servers), x)
  {
    var init, s := servers[..|servers| - 1], servers[|servers| - 1];
    var acts := StaleActions(self, known, servers);
    if x == s.id {
      assert acts[|acts| - 1].id == x;
    } else {
      StaleCovered(self, known, init, x);
      var a :| a in StaleActions(self, known, init) && a.id == x;
      assert a in acts;
    }
  }

  /** Listing the node itself among the known IDs changes no decision. */
  lemma {:induction false} StaleIgnoresSelf(self: Id, listed: set<Id>, servers: seq<Server>)
    ensures StaleActions(self, listed, servers) == StaleActions(self, listed + {self}, servers)
  {
    if servers != [] {
      StaleIgnoresSelf(self, listed, servers[..|servers| - 1]);
    }
  }

  /** A pass plans only calls towards the target, plans nothing for a server that is on
      target, and leaves out no server that is off it. */
  lemma PassCovers(self: Id, members: seq<Member>, servers: seq<Server>)
    requires UniqueIds(members)
    ensures var g, c, acts := Goals(self, members), View(servers), PassActions(self, members, servers);
            && (forall a | a in acts :: Fresh(g, c, a))
            && (forall x | OffTarget(g, c, x) :: Touches(acts, x))
            && (acts != [] ==> exists x :: OffTarget(g, c, x))
  {
    var g, c, acts := Goals(self, members), View(servers), PassActions(self, members, servers);
    var adds, drops := AllMemberActions(self, members, c), StaleActions(self, g.known, servers);
    GoalsValid(self, members);
    StaleIgnoresSelf(self, Ids(members), servers);
    MembersPlanned(self, members, members, c);
    StalePlanned(self, g.known, servers);
    assert acts == adds + drops;
    assert acts != [] ==> acts[0] in acts;
    forall x | OffTarget(g, c, x)
      ensures Touches(acts, x)
    {
      if x in g.desired {
        DesiredIsMember(self, members, x);
        MembersCovered(self, members, members, c, x);
        var a :| a in adds && a.id == x;
        assert a in acts;
      } else {
        StaleCovered(self, g.known, servers, x);
        var a :| a in drops && a.id == x;
        assert a in acts;
      }
    }
  }

  lemma {:induction false} FirstBootstrappedIsMember(id: Id, members: seq<Member>)
    requires FirstBootstrapped(id, members)
    ensures exists m | m in members :: m.id == id && m.bootstrapped
  {
    if members[0].id == id {
      assert members[0] in members;
    } else {
      FirstBootstrappedIsMember(id, members[1..]);
      var m :| m in members[1..] && m.id == id && m.bootstrapped;
      assert m in members;
    }
  }

  lemma {:induction false} MemberIsFirstBootstrapped(m: Member, members: seq<Member>)
    requires UniqueIds(members) && m in members && m.bootstrapped
    ensures FirstBootstrapped(m.id, members)
  {
    var i :| 0 <= i < |members| && members[i] == m;
    if i > 0 {
      assert members[0].id != members[i].id;
      assert members[1..][i - 1] == m;
      MemberIsFirstBootstrapped(m, members[1..]);
    }
  }

  /** The event carries what gossip says: a join, the member's Raft address; a leave,
      an ID gossip no longer lists. */
  datatype PeerEvent = Joined(peer: Peer) | Left(id: Id)

  ghost predicate MatchesGossip(members: seq<Member>, ev: PeerEvent) {
    match ev
    case Joined(peer) => forall m | m in members && m.id == peer.id :: m.raftAddr == peer.raftAddr
    case Left(id) => id !in Ids(members)
  }

  function EventActions(self: Id, members: seq<Member>, servers: seq<Server>, ev: PeerEvent): seq<Action> {
    match ev
    case Joined(peer) => JoinActions(self, peer, Some(members), Some(View(servers)))
    case Left(id) => LeaveActions(self, id)
  }

  lemma JoinCovers(self: Id, members: seq<Member>, peer: Peer, snapshot: Option<Config>)
    requires UniqueIds(members) && MatchesGossip(members, Joined(peer))
    ensures var g, acts := Goals(self, members), JoinActions(self, peer, Some(members), snapshot);
            && (forall a | a in acts :: Sound(g, a) && !a.Remove? && a.id == peer.id)
            && (peer.id in g.desired && (snapshot.None? || !AtDesired(g, snapshot.value, peer.id))
                ==> Touches(acts, peer.id))
  {
    var acts := JoinActions(self, peer, Some(members), snapshot);
    if peer.id != self && peer.raftAddr != "" && FirstBootstrapped(peer.id, members) {
      FirstBootstrappedIsMember(peer.id, members);
      var m :| m in members && m.id == peer.id && m.bootstrapped;
      DesiredOfMember(self, members, m);
    }
    if peer.id in Desired(self, members) {
      DesiredIsMember(self, members, peer.id);
      MemberIsFirstBootstrapped(Member(peer.id, Desired(self, members)[peer.id], true), members);
    }
    assert acts != [] ==> acts[0] in acts;
  }
}
