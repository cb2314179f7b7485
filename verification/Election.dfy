/** Many nodes bootstrapping at once, as steps over the set of nodes that advertise
    themselves as bootstrapped. */
module Election {
  import opened Options
  import opened Lifecycle
  import opened Walks

  /** A node's place in the state machine and the state it came from; while its recheck
      runs, `due` is who was advertised when the recheck began. */
  datatype Status = Status(state: State, came: State, due: Option<set<nat>>)

  datatype World = World(nodes: map<nat, Status>, advertised: set<nat>)

  /** What a node does next. `found` and `others` are what the recheck and gossip said. A
      stop is met at the top of a turn, or after a run that failed. */
  datatype Deed =
    | Move(to: State)
    | BeginRecheck
    | EndRecheck(found: bool, others: bool)
    | Advertise
    | Restart
    | Stop

  datatype Step = Step(id: nat, act: Deed)

  function Enter(s: Status, to: State): Status {
    Status(to, s.state, None)
  }

  /** Bootstrapping is entered only from a recheck that found nobody, Running only by a
      node that advertises itself, and an advertised node no longer fails. */
  predicate MayMove(s: Status, advertised: bool, to: State) {
    && s.due.None?
    && Edge(s.state, to)
    && to != Bootstrapping
    && (to == Running ==> advertised)
    && (s.state == Joining && advertised ==> to == Running)
  }

  predicate Enabled(w: World, step: Step) {
    step.id in w.nodes &&
    var s := w.nodes[step.id];
    match step.act
    case Move(to) => MayMove(s, step.id in w.advertised, to)
    case BeginRecheck => s.state == Discovering && s.due.None?
    case EndRecheck(_, _) => s.state == Discovering && s.due.Some?
    case Advertise => s.state == Joining || s.state == Bootstrapping
    case Restart => s.state == Failed
    case Stop => s.due.None? && s.state in {GossipUp, Retrying, Failed}
  }

  function Enact(w: World, id: nat, s: Status, act: Deed): World {
    match act
    case Move(to) => w.(nodes := w.nodes[id := Enter(s, to)])
    case BeginRecheck => w.(nodes := w.nodes[id := s.(due := Some(w.advertised))])
    case EndRecheck(found, others) =>
      w.(nodes := w.nodes[id := Enter(s, if found || others then Retrying else Bootstrapping)])
    case Advertise => w.(advertised := w.advertised + {id})
    case Restart => w.(nodes := w.nodes[id := Enter(s, Init)])
    case Stop => w.(nodes := w.nodes[id := Enter(s, Init)])
  }

  /** A step that is not possible changes nothing. */
  function Next(w: World, step: Step): World {
    if Enabled(w, step) then Enact(w, step.id, w.nodes[step.id], step.act) else w
  }

  function Reached(w: World, steps: seq<Step>): World {
    if steps == [] then w else Next(Reached(w, steps[..|steps| - 1]), steps[|steps| - 1])
  }

  predicate Unstarted(w: World) {
    w.advertised == {} && forall i | i in w.nodes :: w.nodes[i] == Status(Init, Init, None)
  }

  /** From the start of its recheck until it declines or has advertised itself. */
  predicate InWindow(w: World, id: nat) {
    id in w.nodes && (w.nodes[id].due.Some? || (w.nodes[id].state == Bootstrapping && id !in w.advertised))
  }

  predicate Exclusive(w: World) {
    forall i, j | i in w.nodes && j in w.nodes && InWindow(w, i) && InWindow(w, j) :: i == j
  }

  /** A recheck reports some other node if one was advertised before it began. */
  predicate Reliable(w: World, step: Step) {
    Enabled(w, step) && step.act.EndRecheck? && w.nodes[step.id].due.value - {step.id} != {} ==> step.act.found
  }

  /** Recheck-to-advertise windows never overlap. */
  predicate AllExclusive(w: World, steps: seq<Step>) {
    Exclusive(Reached(w, steps)) && (steps != [] ==> AllExclusive(w, steps[..|steps| - 1]))
  }

  predicate AllReliable(w: World, steps: seq<Step>) {
    steps != [] ==>
      AllReliable(w, steps[..|steps| - 1]) && Reliable(Reached(w, steps[..|steps| - 1]), steps[|steps| - 1])
  }

  // ---- One node's walk -----------------------------------------------------------------

  /** Every step moves at most the acting node, and along an edge of the state machine
      unless it restarts a failed node or stops one at the top of a turn. */
  lemma StepsFollowEdges(w: World, step: Step, id: nat)
    requires id in w.nodes
    ensures id in Next(w, step).nodes
    ensures var from, to := w.nodes[id].state, Next(w, step).nodes[id].state;
            from == to || (id == step.id &&
              match step.act
              case Restart => from == Failed && to == Init
              case Stop => from in {GossipUp, Retrying, Failed} && to == Init
              case _ => Edge(from, to))
  {
  }

  /** Every edge can be taken: by a move, or, into Bootstrapping, by the end of a recheck. */
  lemma EdgesHappen(from: State, to: State) returns (w: World, step: Step)
    requires Edge(from, to)
    ensures w.nodes.Keys == {0} && w.nodes[0].state == from && Next(w, step).nodes[0] == Status(to, from, None)
  {
    var due := if to == Bootstrapping then Some({}) else None;
    w := World(map[0 := Status(from, from, due)], if to == Running then {0} else {});
    step := Step(0, if to == Bootstrapping then EndRecheck(false, false) else Move(to));
  }

  /** A node comes to be advertised exactly by its own step, while joining or bootstrapping. */
  lemma AdvertisedExactly(w: World, step: Step, id: nat)
    ensures id in Next(w, step).advertised <==>
            id in w.advertised ||
            (step == Step(id, Advertise) && id in w.nodes && w.nodes[id].state in {Joining, Bootstrapping})
  {
  }

  // ---- Safety ------------------------------------------------------------------------

  /** Decided to bootstrap, whether or not already Running. */
  predicate Bootstraps(s: Status) {
    s.state == Bootstrapping || (s.state == Running && s.came == Bootstrapping)
  }

  ghost predicate SafeNode(w: World, id: nat, s: Status) {
    && (id in w.advertised ==> s.state in {Joining, Bootstrapping, Running})
    && (s.state == Running ==> id in w.advertised && s.came in {Joining, Bootstrapping})
    && (s.due.Some? ==> s.state == Discovering)
  }

  ghost predicate SafeNodes(w: World) {
    forall i | i in w.nodes :: SafeNode(w, i, w.nodes[i])
  }

  /** If its recheck is open, node `i` is due to hear of node `j` once that has decided. */
  ghost predicate Foreseen(w: World, i: nat, j: nat) {
    i in w.nodes && j in w.nodes && w.nodes[i].due.Some? && Bootstraps(w.nodes[j]) ==> j in w.nodes[i].due.value
  }

  /** Both have decided to bootstrap. */
  predicate Rivals(w: World, i: nat, j: nat) {
    i in w.nodes && j in w.nodes && Bootstraps(w.nodes[i]) && Bootstraps(w.nodes[j])
  }

  ghost predicate PairSafe(w: World, i: nat, j: nat) {
    Foreseen(w, i, j) && Foreseen(w, j, i) && !Rivals(w, i, j)
  }

  ghost predicate Safe(w: World) {
    SafeNodes(w) && forall i, j | i in w.nodes && j in w.nodes && i != j :: PairSafe(w, i, j)
  }

  lemma KeepsNodes(w: World, step: Step)
    requires SafeNodes(w)
    ensures SafeNodes(Next(w, step))
  {
  }

  /** Only the end of a recheck lets a node decide to bootstrap. */
  lemma Deciding(w: World, step: Step, id: nat)
    requires SafeNodes(w) && id in w.nodes && !Bootstraps(w.nodes[id]) && Bootstraps(Next(w, step).nodes[id])
    ensures Enabled(w, step) && step.id == id && step.act.EndRecheck? && !step.act.found && !step.act.others
    ensures InWindow(w, id)
  {
    assert SafeNode(w, id, w.nodes[id]);
  }

  /** A recheck in progress ends by deciding to bootstrap exactly when neither discovery nor
      gossip reported anyone; otherwise the node goes back to retrying. */
  lemma RecheckDecides(w: World, id: nat, found: bool, others: bool)
    requires id in w.nodes && w.nodes[id].state == Discovering && w.nodes[id].due.Some?
    ensures var s := Next(w, Step(id, EndRecheck(found, others))).nodes[id];
            s.due.None? && s.state == if found || others then Retrying else Bootstrapping
  {
  }

  lemma KeepsForeseen(w: World, step: Step, i: nat, j: nat)
    requires SafeNodes(w) && Foreseen(w, i, j) && i in w.nodes && j in w.nodes && i != j
    requires !(InWindow(w, i) && InWindow(w, j)) && !(InWindow(Next(w, step), i) && InWindow(Next(w, step), j))
    ensures Foreseen(Next(w, step), i, j)
  {
    assert SafeNode(w, j, w.nodes[j]);
    var v := Next(w, step);
    if v.nodes[i].due.Some? && w.nodes[i].due.Some? {
      assert InWindow(w, i);
      if !Bootstraps(w.nodes[j]) && Bootstraps(v.nodes[j]) {
        Deciding(w, step, j);
      }
    }
  }

  /** A node that ends its recheck while another has decided to bootstrap declines. */
  lemma SecondDeclines(w: World, step: Step, i: nat, j: nat)
    requires SafeNodes(w) && Foreseen(w, i, j) && Reliable(w, step)
    requires i in w.nodes && j in w.nodes && i != j && Bootstraps(w.nodes[j])
    ensures Bootstraps(Next(w, step).nodes[i]) ==> Bootstraps(w.nodes[i])
  {
    assert w.nodes[i].due.Some? ==> j in w.nodes[i].due.value - {i};
    if Bootstraps(Next(w, step).nodes[i]) && !Bootstraps(w.nodes[i]) {
      Deciding(w, step, i);
    }
  }

  lemma KeepsPair(w: World, step: Step, i: nat, j: nat)
    requires SafeNodes(w) && PairSafe(w, i, j) && Reliable(w, step) && i in w.nodes && j in w.nodes && i != j
    requires !(InWindow(w, i) && InWindow(w, j)) && !(InWindow(Next(w, step), i) && InWindow(Next(w, step), j))
    ensures PairSafe(Next(w, step), i, j)
  {
    hide SafeNodes, Foreseen, Reliable, InWindow, Enabled;
    KeepsForeseen(w, step, i, j);
    KeepsForeseen(w, step, j, i);
    if Rivals(Next(w, step), i, j) {
      if Bootstraps(w.nodes[j]) {
        SecondDeclines(w, step, i, j);
      } else if Bootstraps(w.nodes[i]) {
        SecondDeclines(w, step, j, i);
      } else {
        Deciding(w, step, i);
        Deciding(w, step, j);
      }
    }
  }

  // ---- Rivals overlapped -------------------------------------------------------------

  /** At some moment of the run both nodes were in their windows. */
  ghost predicate Overlapped(w: World, steps: seq<Step>, i: nat, j: nat) {
    exists k: nat :: OverlapAt(w, steps, i, j, k)
  }

  predicate OverlapAt(w: World, steps: seq<Step>, i: nat, j: nat, k: nat) {
    k <= |steps| && InWindow(Reached(w, steps[..k]), i) && InWindow(Reached(w, steps[..k]), j)
  }

  lemma OverlapNow(w: World, steps: seq<Step>, i: nat, j: nat)
    requires InWindow(Reached(w, steps), i) && InWindow(Reached(w, steps), j)
    ensures Overlapped(w, steps, i, j)
  {
    assert steps[..|steps|] == steps;
    assert OverlapAt(w, steps, i, j, |steps|);
  }

  lemma OverlapBefore(w: World, steps: seq<Step>, i: nat, j: nat)
    requires steps != [] && Overlapped(w, steps[..|steps| - 1], i, j)
    ensures Overlapped(w, steps, i, j)
  {
    hide Reached, InWindow;
    var init := steps[..|steps| - 1];
    var k: nat :| OverlapAt(w, init, i, j, k);
    assert init[..k] == steps[..k];
    assert OverlapAt(w, steps, i, j, k);
  }

  lemma {:induction false} RunKeepsNodes(w: World, steps: seq<Step>)
    requires Unstarted(w)
    ensures SafeNodes(Reached(w, steps)) && Reached(w, steps).nodes.Keys == w.nodes.Keys
  {
    hide Next;
    if steps != [] {
      hide SafeNodes;
      var init := steps[..|steps| - 1];
      RunKeepsNodes(w, init);
      KeepsNodes(Reached(w, init), steps[|steps| - 1]);
      KeepsKeys(Reached(w, init), steps[|steps| - 1]);
    }
  }

  lemma KeepsKeys(w: World, step: Step)
    ensures Next(w, step).nodes.Keys == w.nodes.Keys
  {
  }

  lemma {:induction false} PairOrOverlap(w: World, steps: seq<Step>, i: nat, j: nat)
    requires Unstarted(w) && AllReliable(w, steps) && i in w.nodes && j in w.nodes && i != j
    ensures PairSafe(Reached(w, steps), i, j) || Overlapped(w, steps, i, j)
  {
    hide Next, SafeNodes, PairSafe, Overlapped, InWindow, Reliable, Unstarted;
    if steps == [] {
      StartIsSafe(w, i, j);
    } else {
      var init := steps[..|steps| - 1];
      PairOrOverlap(w, init, i, j);
      RunKeepsNodes(w, init);
      var before, v := Reached(w, init), Reached(w, steps);
      if Overlapped(w, init, i, j) {
        OverlapBefore(w, steps, i, j);
      } else if InWindow(before, i) && InWindow(before, j) {
        OverlapNow(w, init, i, j);
      } else if InWindow(v, i) && InWindow(v, j) {
        OverlapNow(w, steps, i, j);
      } else {
        KeepsPair(before, steps[|steps| - 1], i, j);
      }
    }
  }

  lemma StartIsSafe(w: World, i: nat, j: nat)
    requires Unstarted(w)
    ensures PairSafe(w, i, j)
  {
  }

  /** Whatever else happens, two nodes both decide to bootstrap, with reliable rechecks, only
      if at some moment both were between the start of a recheck and their advertisement. */
  lemma RivalsOverlapped(w: World, steps: seq<Step>, a: nat, b: nat)
    requires Unstarted(w) && AllReliable(w, steps) && a != b
    requires Rivals(Reached(w, steps), a, b)
    ensures Overlapped(w, steps, a, b)
  {
    hide Next, Reached, Overlapped, Unstarted, AllReliable, Bootstraps;
    RunKeepsNodes(w, steps);
    PairOrOverlap(w, steps, a, b);
  }

  lemma ExclusiveNeverOverlaps(w: World, steps: seq<Step>, i: nat, j: nat)
    requires AllExclusive(w, steps) && i != j
    ensures !Overlapped(w, steps, i, j)
  {
    hide Reached, Exclusive;
    forall k: nat
      ensures !OverlapAt(w, steps, i, j, k)
    {
      if k <= |steps| {
        ExclusivePrefix(w, steps, k);
        ExclusiveApart(Reached(w, steps[..k]), i, j);
      }
    }
  }

  lemma ExclusiveApart(w: World, i: nat, j: nat)
    requires Exclusive(w) && i != j
    ensures !(InWindow(w, i) && InWindow(w, j))
  {
  }

  lemma {:induction false} ExclusivePrefix(w: World, steps: seq<Step>, k: nat)
    requires k <= |steps| && AllExclusive(w, steps)
    ensures AllExclusive(w, steps[..k]) && Exclusive(Reached(w, steps[..k]))
  {
    hide Next, Exclusive;
    if k == |steps| {
      assert steps[..k] == steps;
    } else {
      var init := steps[..|steps| - 1];
      assert init[..k] == steps[..k];
      ExclusivePrefix(w, init, k);
    }
  }

  lemma RunIsSafe(w: World, steps: seq<Step>)
    requires Unstarted(w) && AllExclusive(w, steps) && AllReliable(w, steps)
    ensures Safe(Reached(w, steps))
  {
    hide Reached, Overlapped, Unstarted, AllReliable, AllExclusive, PairSafe, SafeNodes;
    RunKeepsNodes(w, steps);
    forall i, j | i in w.nodes && j in w.nodes && i != j
      ensures PairSafe(Reached(w, steps), i, j)
    {
      PairOrOverlap(w, steps, i, j);
      ExclusiveNeverOverlaps(w, steps, i, j);
    }
  }

  // ---- The whole run -----------------------------------------------------------------

  /** Running is never left, and neither is the way it was reached. */
  lemma {:induction false} RunningStays(w: World, steps: seq<Step>, k: nat, id: nat)
    requires k <= |steps| && id in w.nodes
    ensures id in Reached(w, steps[..k]).nodes && id in Reached(w, steps).nodes
    ensures Reached(w, steps[..k]).nodes[id].state == Running && Reached(w, steps[..k]).nodes[id].due.None? ==>
              Reached(w, steps).nodes[id] == Reached(w, steps[..k]).nodes[id]
  {
    hide Next;
    if k == |steps| {
      assert steps[..k] == steps;
      NodesStay(w, steps, id);
    } else {
      var init := steps[..|steps| - 1];
      assert init[..k] == steps[..k];
      RunningStays(w, init, k, id);
      RunningStep(Reached(w, init), steps[|steps| - 1], id);
    }
  }

  lemma {:induction false} NodesStay(w: World, steps: seq<Step>, id: nat)
    requires id in w.nodes
    ensures id in Reached(w, steps).nodes
  {
    if steps != [] {
      NodesStay(w, steps[..|steps| - 1], id);
    }
  }

  lemma RunningStep(w: World, step: Step, id: nat)
    requires id in w.nodes
    ensures id in Next(w, step).nodes
    ensures w.nodes[id].state == Running && w.nodes[id].due.None? ==> Next(w, step).nodes[id] == w.nodes[id]
  {
  }

  /** The number of nodes does not matter, nor do joins, failures, stops and restarts: if
      rechecks are reliable and their windows do not overlap, then whichever nodes ever
      reach Running through Bootstrapping, at whatever moments, are one and the same; every
      other Running node joined. */
  lemma AtMostOneBootstraps(w: World, steps: seq<Step>, k: nat, l: nat, a: nat, b: nat)
    requires Unstarted(w) && AllExclusive(w, steps) && AllReliable(w, steps)
    requires k <= |steps| && l <= |steps| && a in w.nodes && b in w.nodes
    ensures a in Reached(w, steps[..k]).nodes && b in Reached(w, steps[..l]).nodes
    ensures var s, t := Reached(w, steps[..k]).nodes[a], Reached(w, steps[..l]).nodes[b];
            s.state == Running && t.state == Running ==>
              && s.came in {Joining, Bootstrapping}
              && (s.came == Bootstrapping && t.came == Bootstrapping ==> a == b)
              && (s.came == Bootstrapping && a != b ==> t.came == Joining)
  {
    hide AllExclusive, AllReliable, Unstarted, Reached, Overlapped;
    RanHow(w, steps, k, a);
    RanHow(w, steps, l, b);
    if a != b && Rivals(Reached(w, steps), a, b) {
      RivalsOverlapped(w, steps, a, b);
      ExclusiveNeverOverlaps(w, steps, a, b);
    }
  }

  lemma RanHow(w: World, steps: seq<Step>, k: nat, a: nat)
    requires Unstarted(w) && k <= |steps| && a in w.nodes
    ensures a in Reached(w, steps[..k]).nodes && a in Reached(w, steps).nodes
    ensures var s := Reached(w, steps[..k]).nodes[a];
            s.state == Running ==> s.came in {Joining, Bootstrapping} && Reached(w, steps).nodes[a] == s
  {
    hide Unstarted, Reached;
    RunKeepsNodes(w, steps[..k]);
    RunningStays(w, steps, k, a);
    assert SafeNode(Reached(w, steps[..k]), a, Reached(w, steps[..k]).nodes[a]);
  }

  // ---- Both assumptions are needed ------------------------------------------------------

  lemma ReachedNext(w: World, steps: seq<Step>, step: Step)
    ensures Reached(w, steps + [step]) == Next(Reached(w, steps), step)
    ensures AllExclusive(w, steps + [step]) <==> AllExclusive(w, steps) && Exclusive(Next(Reached(w, steps), step))
    ensures AllReliable(w, steps + [step]) <==> AllReliable(w, steps) && Reliable(Reached(w, steps), step)
  {
    hide Next, Exclusive, Reliable;
    assert (steps + [step])[..|steps|] == steps;
  }

  /** The acts by which a node that sees nobody bootstraps. */
  const ALONE := [Move(MDNSAdvertiserUp), Move(GossipUp), Move(Discovering), BeginRecheck,
                  EndRecheck(false, false), Advertise, Move(Running)]

  /** Nodes 0 and 1 taking each of these acts in turn. */
  function Together(acts: seq<Deed>): seq<Step> {
    if acts == [] then []
    else Together(acts[..|acts| - 1]) + [Step(0, acts[|acts| - 1])] + [Step(1, acts[|acts| - 1])]
  }

  function Two(s: Status, advertised: set<nat>): World {
    World(map[0 := s, 1 := s], advertised)
  }

  lemma TogetherNext(w: World, acts: seq<Deed>, act: Deed, s: Status, t: Status, before: set<nat>, after: set<nat>)
    requires AllReliable(w, Together(acts)) && Reached(w, Together(acts)) == Two(s, before)
    requires Abreast(act, s, t, before, after)
    ensures AllReliable(w, Together(acts + [act])) && Reached(w, Together(acts + [act])) == Two(t, after)
  {
    hide Next, Reliable;
    assert (acts + [act])[..|acts|] == acts;
    ReachedNext(w, Together(acts), Step(0, act));
    ReachedNext(w, Together(acts) + [Step(0, act)], Step(1, act));
  }

  /** Taking the act reliably moves both nodes from one status to the other. */
  predicate Abreast(act: Deed, s: Status, t: Status, before: set<nat>, after: set<nat>) {
    var mid := Next(Two(s, before), Step(0, act));
    && Reliable(Two(s, before), Step(0, act))
    && Reliable(mid, Step(1, act))
    && Next(mid, Step(1, act)) == Two(t, after)
  }

  lemma AbreastMoves(s: Status, advertised: set<nat>, to: State)
    requires 0 in advertised <==> 1 in advertised
    requires MayMove(s, 0 in advertised, to)
    ensures Abreast(Move(to), s, Enter(s, to), advertised, advertised)
  {
    hide MayMove;
    assert Two(s, advertised).nodes[0 := Enter(s, to)][1 := Enter(s, to)] == Two(Enter(s, to), advertised).nodes;
  }

  lemma AbreastRechecks(s: Status)
    requires s.state == Discovering && s.due.None?
    ensures Abreast(BeginRecheck, s, s.(due := Some({})), {}, {})
    ensures Abreast(EndRecheck(false, false), s.(due := Some({})), Status(Bootstrapping, Discovering, None), {}, {})
  {
    var open, done := s.(due := Some({})), Status(Bootstrapping, Discovering, None);
    assert Two(s, {}).nodes[0 := open][1 := open] == Two(open, {}).nodes;
    assert Two(open, {}).nodes[0 := done][1 := done] == Two(done, {}).nodes;
  }

  lemma AbreastAdvertises(s: Status)
    requires s.state == Bootstrapping
    ensures Abreast(Advertise, s, s, {}, {0, 1})
  {
  }

  /** Two nodes whose windows overlap both bootstrap, though every recheck is reliable. */
  lemma OverlapElectsTwo()
    ensures var w := Two(Status(Init, Init, None), {});
            && Unstarted(w) && AllReliable(w, Together(ALONE))
            && Reached(w, Together(ALONE)) == Two(Status(Running, Bootstrapping, None), {0, 1})
  {
    hide Reached, AllReliable, Together, Abreast, Two;
    var start := Status(Init, Init, None);
    var w := Two(start, {});
    NothingYet();
    var up, gossip, looking := Enter(start, MDNSAdvertiserUp), Status(GossipUp, MDNSAdvertiserUp, None), Status(Discovering, GossipUp, None);
    var chosen := Status(Bootstrapping, Discovering, None);
    AbreastMoves(start, {}, MDNSAdvertiserUp);
    AbreastMoves(up, {}, GossipUp);
    AbreastMoves(gossip, {}, Discovering);
    AbreastRechecks(looking);
    AbreastAdvertises(chosen);
    AbreastMoves(chosen, {0, 1}, Running);
    TogetherNext(w, [], ALONE[0], start, up, {}, {});
    TogetherNext(w, [] + [ALONE[0]], ALONE[1], up, gossip, {}, {});
    TogetherNext(w, [] + [ALONE[0]] + [ALONE[1]], ALONE[2], gossip, looking, {}, {});
    TogetherNext(w, [] + [ALONE[0]] + [ALONE[1]] + [ALONE[2]], ALONE[3], looking, looking.(due := Some({})), {}, {});
    var four := [] + [ALONE[0]] + [ALONE[1]] + [ALONE[2]] + [ALONE[3]];
    TogetherNext(w, four, ALONE[4], looking.(due := Some({})), chosen, {}, {});
    TogetherNext(w, four + [ALONE[4]], ALONE[5], chosen, chosen, {}, {0, 1});
    TogetherNext(w, four + [ALONE[4]] + [ALONE[5]], ALONE[6], chosen, Status(Running, Bootstrapping, None), {0, 1}, {0, 1});
    assert four + [ALONE[4]] + [ALONE[5]] + [ALONE[6]] == ALONE;
  }

  lemma NothingYet()
    ensures var w := Two(Status(Init, Init, None), {});
            Unstarted(w) && Together([]) == [] && Reached(w, []) == w && AllReliable(w, [])
  {
  }

  /** Node `id` taking each of these acts. */
  function Solo(id: nat, acts: seq<Deed>): seq<Step> {
    seq(|acts|, i requires 0 <= i < |acts| => Step(id, acts[i]))
  }

  predicate Quiet(w: World) {
    forall i | i in w.nodes :: !InWindow(w, i)
  }

  function At(w: World, id: nat, s: Status, more: set<nat>): World {
    World(w.nodes[id := s], w.advertised + more)
  }

  lemma OneWindow(w: World, id: nat, s: Status, more: set<nat>)
    requires Quiet(w)
    ensures Exclusive(At(w, id, s, more))
  {
    var v := At(w, id, s, more);
    forall i, j | i in v.nodes && j in v.nodes && InWindow(v, i) && InWindow(v, j)
      ensures i == j
    {
      assert i != id ==> i in w.nodes && !InWindow(w, i);
      assert j != id ==> j in w.nodes && !InWindow(w, j);
    }
  }

  lemma SoloNext(w: World, steps: seq<Step>, v: World, id: nat, acts: seq<Deed>, act: Deed,
                 s: Status, t: Status, before: set<nat>, after: set<nat>)
    requires Quiet(v) && AllExclusive(w, steps + Solo(id, acts))
    requires Reached(w, steps + Solo(id, acts)) == At(v, id, s, before)
    requires Next(At(v, id, s, before), Step(id, act)) == At(v, id, t, after)
    ensures AllExclusive(w, steps + Solo(id, acts + [act]))
    ensures Reached(w, steps + Solo(id, acts + [act])) == At(v, id, t, after)
  {
    hide Next, Quiet, Exclusive, At;
    OneWindow(v, id, t, after);
    ReachedNext(w, steps + Solo(id, acts), Step(id, act));
    assert Solo(id, acts + [act]) == Solo(id, acts) + [Step(id, act)];
    assert steps + (Solo(id, acts) + [Step(id, act)]) == (steps + Solo(id, acts)) + [Step(id, act)];
  }

  lemma SoloMoves(v: World, id: nat, s: Status, more: set<nat>, to: State)
    requires id in v.nodes && MayMove(s, id in v.advertised + more, to)
    ensures Next(At(v, id, s, more), Step(id, Move(to))) == At(v, id, Enter(s, to), more)
  {
    hide MayMove;
    assert v.nodes[id := s][id := Enter(s, to)] == v.nodes[id := Enter(s, to)];
  }

  lemma SoloRechecks(v: World, id: nat, s: Status)
    requires id in v.nodes && s.state == Discovering && s.due.None?
    ensures var open := s.(due := Some(v.advertised));
            && Next(At(v, id, s, {}), Step(id, BeginRecheck)) == At(v, id, open, {})
            && Next(At(v, id, open, {}), Step(id, EndRecheck(false, false))) == At(v, id, Status(Bootstrapping, Discovering, None), {})
  {
    var open, done := s.(due := Some(v.advertised)), Status(Bootstrapping, Discovering, None);
    assert v.advertised + {} == v.advertised;
    assert v.nodes[id := s][id := open] == v.nodes[id := open];
    assert v.nodes[id := open][id := done] == v.nodes[id := done];
  }

  lemma SoloAdvertises(v: World, id: nat, s: Status)
    requires id in v.nodes && s.state == Bootstrapping
    ensures Next(At(v, id, s, {}), Step(id, Advertise)) == At(v, id, s, {id})
  {
    assert v.advertised + {} + {id} == v.advertised + {id};
  }

  /** A node whose recheck comes back empty bootstraps, whoever is advertised. */
  lemma SoloBoots(w: World, steps: seq<Step>, id: nat)
    requires AllExclusive(w, steps) && Quiet(Reached(w, steps))
    requires id in Reached(w, steps).nodes && Reached(w, steps).nodes[id] == Status(Init, Init, None)
    ensures AllExclusive(w, steps + Solo(id, ALONE))
    ensures Reached(w, steps + Solo(id, ALONE)) == At(Reached(w, steps), id, Status(Running, Bootstrapping, None), {id})
  {
    hide Reached, AllExclusive, Quiet, At, Next, Solo;
    var v := Reached(w, steps);
    var start := Status(Init, Init, None);
    var up, gossip, looking := Enter(start, MDNSAdvertiserUp), Status(GossipUp, MDNSAdvertiserUp, None), Status(Discovering, GossipUp, None);
    var open, chosen := looking.(due := Some(v.advertised)), Status(Bootstrapping, Discovering, None);
    SoloNothing(v, id, start, steps);
    SoloMoves(v, id, start, {}, MDNSAdvertiserUp);
    SoloMoves(v, id, up, {}, GossipUp);
    SoloMoves(v, id, gossip, {}, Discovering);
    SoloRechecks(v, id, looking);
    SoloAdvertises(v, id, chosen);
    SoloMoves(v, id, chosen, {id}, Running);
    SoloNext(w, steps, v, id, [], ALONE[0], start, up, {}, {});
    SoloNext(w, steps, v, id, [] + [ALONE[0]], ALONE[1], up, gossip, {}, {});
    SoloNext(w, steps, v, id, [] + [ALONE[0]] + [ALONE[1]], ALONE[2], gossip, looking, {}, {});
    SoloNext(w, steps, v, id, [] + [ALONE[0]] + [ALONE[1]] + [ALONE[2]], ALONE[3], looking, open, {}, {});
    var four := [] + [ALONE[0]] + [ALONE[1]] + [ALONE[2]] + [ALONE[3]];
    SoloNext(w, steps, v, id, four, ALONE[4], open, chosen, {}, {});
    SoloNext(w, steps, v, id, four + [ALONE[4]], ALONE[5], chosen, chosen, {}, {id});
    SoloNext(w, steps, v, id, four + [ALONE[4]] + [ALONE[5]], ALONE[6], chosen, Status(Running, Bootstrapping, None), {id}, {id});
    assert four + [ALONE[4]] + [ALONE[5]] + [ALONE[6]] == ALONE;
  }

  lemma SoloNothing(v: World, id: nat, s: Status, steps: seq<Step>)
    requires id in v.nodes && v.nodes[id] == s
    ensures At(v, id, s, {}) == v && steps + Solo(id, []) == steps
  {
    assert v.nodes[id := s] == v.nodes;
  }

  /** Two nodes whose windows are apart both bootstrap if the second one's recheck misses
      the first. */
  lemma MissedRecheckElectsTwo()
    ensures var w := Two(Status(Init, Init, None), {});
            var steps := [] + Solo(0, ALONE) + Solo(1, ALONE);
            && Unstarted(w) && AllExclusive(w, steps)
            && Reached(w, steps) == Two(Status(Running, Bootstrapping, None), {0, 1})
  {
    hide Reached, AllExclusive, Solo;
    var w := Two(Status(Init, Init, None), {});
    QuietStart();
    SoloBoots(w, [], 0);
    SoloBoots(w, [] + Solo(0, ALONE), 1);
    var last := Status(Running, Bootstrapping, None);
    assert w.nodes[0 := last][1 := last] == Two(last, {0, 1}).nodes;
    assert {} + {0} + {1} == {0, 1};
  }

  lemma QuietStart()
    ensures var w := Two(Status(Init, Init, None), {});
            Unstarted(w) && Quiet(w) && AllExclusive(w, []) && Reached(w, []) == w
  {
  }
}
