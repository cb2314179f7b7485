/** Commands forwarded to the leader: the server that answers them and the bounded chain of
    redirects that looks for one that will. */
module Forward {
  import opened Options

  const MAX_REDIRECT_HOPS: nat := 2

  /** What applying the forwarded command would yield. */
  datatype ApplyResult = Done(result: string) | Refused(error: string)

  /** A server's function fields: `None` for one that was never set. */
  datatype Endpoint = Endpoint(isLeader: Option<bool>, leaderAddr: Option<string>, apply: Option<ApplyResult>)

  datatype Response = Response(success: bool, result: string, error: string, leaderAddr: string)

  datatype Invocation = Invocation(command: string, timeoutMs: nat)

  predicate Leads(p: Endpoint) {
    p.isLeader == Some(true)
  }

  function Respond(p: Endpoint): Response {
    if !Leads(p) then Response(false, "", "", if p.leaderAddr.Some? then p.leaderAddr.value else "")
    else match p.apply
      case None => Response(false, "", "apply function not set", "")
      case Some(Done(result)) => Response(true, result, "", "")
      case Some(Refused(error)) => Response(false, "", error, "")
  }

  /** The calls of the apply function a request causes. */
  function Invocations(p: Endpoint, command: string, timeoutMs: nat): seq<Invocation> {
    if Leads(p) && p.apply.Some?
    then [Invocation(command, if timeoutMs == 0 then 5000 else timeoutMs)]
    else []
  }

  // ---- The server ------------------------------------------------------------------

  class Server {
    var addr: string
    var started: bool
    var registrars: seq<string>
    var applyFn: Option<ApplyResult>
    var isLeaderFn: Option<bool>
    var leaderFn: Option<string>
    var invocations: seq<Invocation>

    constructor ()
      ensures !started && addr == "" && registrars == [] && invocations == []
      ensures View() == Endpoint(None, None, None)
    {
      addr, started, registrars, invocations := "", false, [], [];
      applyFn, isLeaderFn, leaderFn := None, None, None;
    }

    function View(): Endpoint
      reads this
    {
      Endpoint(isLeaderFn, leaderFn, applyFn)
    }

    /** `listening` is the address the operating system grants, if it does. */
    method Start(listening: Option<string>) returns (ok: bool)
      modifies this`addr, this`started
      ensures ok <==> !old(started) && listening.Some?
      ensures started == (old(started) || ok)
      ensures addr == if ok then listening.value else old(addr)
    {
      if started || listening.None? {
        return false;
      }
      addr := listening.value;
      started := true;
      ok := true;
    }

    method Stop()
      modifies this`started
      ensures !started
    {
      if !started {
        return;
      }
      started := false;
    }

    /** Services registered once the server is up are ignored. */
    method RegisterService(service: string)
      modifies this`registrars
      ensures registrars == if started then old(registrars) else old(registrars) + [service]
    {
      if started {
        return;
      }
      registrars := registrars + [service];
    }

    method SetApplyFunc(apply: ApplyResult)
      modifies this`applyFn
      ensures View() == old(View()).(apply := Some(apply))
    {
      applyFn := Some(apply);
    }

    method SetLeaderCheck(leads: bool)
      modifies this`isLeaderFn
      ensures View() == old(View()).(isLeader := Some(leads))
    {
      isLeaderFn := Some(leads);
    }

    method SetLeaderAddrFunc(leader: string)
      modifies this`leaderFn
      ensures View() == old(View()).(leaderAddr := Some(leader))
    {
      leaderFn := Some(leader);
    }

    method ForwardCommand(command: string, timeoutMs: nat) returns (resp: Response)
      modifies this`invocations
      ensures resp == Respond(View())
      ensures invocations == old(invocations) + Invocations(View(), command, timeoutMs)
    {
      if isLeaderFn.None? || !isLeaderFn.value {
        var leaderAddr := "";
        if leaderFn.Some? {
          leaderAddr := leaderFn.value;
        }
        return Response(false, "", "", leaderAddr);
      }
      if applyFn.None? {
        return Response(false, "", "apply function not set", "");
      }
      var timeout := timeoutMs;
      if timeout == 0 {
        timeout := 5000;
      }
      invocations := invocations + [Invocation(command, timeout)];
      match applyFn.value
      case Refused(error) => return Response(false, "", error, "");
      case Done(result) => return Response(true, result, "", "");
    }
  }

  // ---- The forwarder ---------------------------------------------------------------

  /** How the call of one hop fares: the address cannot be dialled, or the call is lost
      before or after the server handled it. */
  datatype Link = Good | NoDial | LostBefore | LostAfter

  datatype Error = MaxHopsExceeded | NoLeader | Dial | Transport | Remote(message: string) | ForwardFailed

  datatype Reply = Ok(result: string) | Err(error: Error)

  /** The answer, the addresses called, and for each apply the call that caused it. */
  datatype Outcome = Outcome(reply: Reply, calls: seq<string>, applies: seq<Invocation>)

  function LinkAt(links: seq<Link>, hop: nat): Link {
    if hop < |links| then links[hop] else Good
  }

  function Milliseconds(timeoutNs: nat): nat {
    timeoutNs / 1_000_000
  }

  function ForwardWithHops(net: map<string, Endpoint>, links: seq<Link>, leaderAddr: string, command: string,
                           timeoutNs: nat, hops: nat): Outcome
    decreases MAX_REDIRECT_HOPS - hops
  {
    if hops >= MAX_REDIRECT_HOPS then Outcome(Err(MaxHopsExceeded), [], [])
    else if leaderAddr == "" then Outcome(Err(NoLeader), [], [])
    else
      var link := LinkAt(links, hops);
      if link.NoDial? then Outcome(Err(Dial), [], [])
      else if leaderAddr !in net || link.LostBefore? then Outcome(Err(Transport), [leaderAddr], [])
      else
        var server := net[leaderAddr];
        var applies := Invocations(server, command, Milliseconds(timeoutNs));
        if link.LostAfter? then Outcome(Err(Transport), [leaderAddr], applies)
        else
          var resp := Respond(server);
          if resp.leaderAddr != "" && !resp.success then
            var rest := ForwardWithHops(net, links, resp.leaderAddr, command, timeoutNs, hops + 1);
            Outcome(rest.reply, [leaderAddr] + rest.calls, applies + rest.applies)
          else if !resp.success then
            Outcome(Err(if resp.error != "" then Remote(resp.error) else ForwardFailed), [leaderAddr], applies)
          else Outcome(Ok(resp.result), [leaderAddr], applies)
  }

  function ForwardTo(net: map<string, Endpoint>, links: seq<Link>, leaderAddr: string, command: string, timeoutNs: nat): Outcome {
    ForwardWithHops(net, links, leaderAddr, command, timeoutNs, 0)
  }

  // ---- What forwarding guarantees ------------------------------------------------------

  /** The address a server redirects to: one it knows while it does not know itself leader. */
  function Redirect(p: Endpoint): Option<string> {
    if p.isLeader != Some(true) && p.leaderAddr.Some? && p.leaderAddr.value != "" then p.leaderAddr else None
  }

  /** The address reached after `k` redirects. */
  function Chain(net: map<string, Endpoint>, start: string, k: nat): Option<string> {
    if k == 0 then Some(start)
    else
      var p := Chain(net, start, k - 1);
      if p.None? || p.value !in net then None else Redirect(net[p.value])
  }

  lemma {:induction false} ChainShift(net: map<string, Endpoint>, start: string, next: string, k: nat)
    requires start in net && Redirect(net[start]) == Some(next)
    ensures Chain(net, next, k) == Chain(net, start, k + 1)
  {
    if k > 0 {
      ChainShift(net, start, next, k - 1);
    }
  }

  /** A redirect and an apply never come from the same answer. */
  lemma RedirectsDoNotApply(p: Endpoint, command: string, timeoutMs: nat)
    ensures var resp := Respond(p);
            && (resp.leaderAddr != "" && !resp.success <==> Redirect(p).Some?)
            && (Redirect(p).Some? ==> Redirect(p).value == resp.leaderAddr && Invocations(p, command, timeoutMs) == [])
            && (resp.success ==> |Invocations(p, command, timeoutMs)| == 1)
  {
  }

  /** At most `room` calls, along the redirect chain, and at most one apply, of the given
      command; a success comes from that apply. */
  ghost predicate Bounded(net: map<string, Endpoint>, addr: string, command: string, o: Outcome, room: nat) {
    && |o.calls| <= room
    && (forall i | 0 <= i < |o.calls| :: Chain(net, addr, i) == Some(o.calls[i]))
    && |o.applies| <= 1
    && (forall a | a in o.applies :: a.command == command && a.timeoutMs > 0)
    && (o.reply.Ok? ==> |o.applies| == 1)
  }

  lemma RedirectBounded(net: map<string, Endpoint>, addr: string, next: string, command: string, rest: Outcome, room: nat)
    requires addr in net && Redirect(net[addr]) == Some(next) && Bounded(net, next, command, rest, room)
    ensures Bounded(net, addr, command, Outcome(rest.reply, [addr] + rest.calls, rest.applies), room + 1)
  {
    forall i | 0 <= i < |rest.calls|
      ensures Chain(net, addr, i + 1) == Some(rest.calls[i])
    {
      ChainShift(net, addr, next, i);
    }
  }

  lemma {:induction false} BoundedFrom(net: map<string, Endpoint>, links: seq<Link>, addr: string, command: string, timeoutNs: nat, hops: nat)
    requires hops <= MAX_REDIRECT_HOPS
    ensures Bounded(net, addr, command, ForwardWithHops(net, links, addr, command, timeoutNs, hops), MAX_REDIRECT_HOPS - hops)
    decreases MAX_REDIRECT_HOPS - hops
  {
    if hops < MAX_REDIRECT_HOPS && addr in net {
      hide Respond, Invocations;
      var server, ms := net[addr], Milliseconds(timeoutNs);
      RedirectsDoNotApply(server, command, ms);
      InvokesOnce(server, command, ms);
      if Redirect(server).Some? {
        var next := Redirect(server).value;
        var rest := ForwardWithHops(net, links, next, command, timeoutNs, hops + 1);
        BoundedFrom(net, links, next, command, timeoutNs, hops + 1);
        RedirectBounded(net, addr, next, command, rest, MAX_REDIRECT_HOPS - hops - 1);
        assert [] + rest.applies == rest.applies;
      }
    }
  }

  lemma InvokesOnce(p: Endpoint, command: string, timeoutMs: nat)
    ensures |Invocations(p, command, timeoutMs)| <= 1
    ensures forall a | a in Invocations(p, command, timeoutMs) :: a.command == command && a.timeoutMs > 0
  {
  }

  /** Whatever the table of servers, cyclic redirects included, and however calls fail,
      forwarding makes at most MAX_REDIRECT_HOPS calls and applies at most once. */
  lemma ForwardBounded(net: map<string, Endpoint>, links: seq<Link>, addr: string, command: string, timeoutNs: nat)
    ensures Bounded(net, addr, command, ForwardTo(net, links, addr, command, timeoutNs), MAX_REDIRECT_HOPS)
  {
    BoundedFrom(net, links, addr, command, timeoutNs, 0);
  }

  // ---- Exactly which reply ---------------------------------------------------------------

  /** The call of hop `k` is made: the first `k` hops redirected, over good links. */
  predicate Arrives(net: map<string, Endpoint>, links: seq<Link>, start: string, k: nat) {
    start != "" && k < 2 && Chain(net, start, k).Some? && forall i | 0 <= i < k :: LinkAt(links, i) == Good
  }

  /** The call of hop `k` reaches a server and its answer comes back. */
  predicate Answered(net: map<string, Endpoint>, links: seq<Link>, start: string, k: nat) {
    Arrives(net, links, start, k) && LinkAt(links, k) == Good && Chain(net, start, k).value in net
  }

  function AnswererAt(net: map<string, Endpoint>, links: seq<Link>, start: string, k: nat): Endpoint
    requires Answered(net, links, start, k)
  {
    net[Chain(net, start, k).value]
  }

  /** What a server that does not redirect says. */
  ghost predicate Tells(p: Endpoint, reply: Reply) {
    match reply
    case Ok(result) => p.isLeader == Some(true) && p.apply == Some(Done(result))
    case Err(Remote(message)) =>
      p.isLeader == Some(true) && message != "" &&
      (p.apply == Some(Refused(message)) || (p.apply == None && message == "apply function not set"))
    case Err(ForwardFailed) =>
      if p.isLeader == Some(true) then p.apply == Some(Refused("")) else p.leaderAddr.None? || p.leaderAddr == Some("")
    case _ => false
  }

  /** How hop `k` ends the forwarding with this reply. */
  ghost predicate RepliesAt(net: map<string, Endpoint>, links: seq<Link>, start: string, k: nat, reply: Reply) {
    match reply
    case Err(Dial) => Arrives(net, links, start, k) && LinkAt(links, k) == NoDial
    case Err(Transport) =>
      Arrives(net, links, start, k) && LinkAt(links, k) != NoDial &&
      (LinkAt(links, k) != Good || Chain(net, start, k).value !in net)
    case _ => Answered(net, links, start, k) && Tells(AnswererAt(net, links, start, k), reply)
  }

  /** The reply of a hop that does not go on. */
  function HopReply(net: map<string, Endpoint>, link: Link, addr: string): Reply {
    if link == NoDial then Err(Dial)
    else if link != Good || addr !in net then Err(Transport)
    else
      var p := net[addr];
      if p.isLeader != Some(true) then Err(ForwardFailed)
      else match p.apply
        case None => Err(Remote("apply function not set"))
        case Some(Done(result)) => Ok(result)
        case Some(Refused(error)) => Err(if error == "" then ForwardFailed else Remote(error))
  }

  /** A hop either goes on to the address its server redirects to, or replies. */
  lemma HopStep(net: map<string, Endpoint>, links: seq<Link>, addr: string, command: string, timeoutNs: nat, hops: nat)
    requires hops < MAX_REDIRECT_HOPS && addr != ""
    ensures var reply := ForwardWithHops(net, links, addr, command, timeoutNs, hops).reply;
            if LinkAt(links, hops) == Good && addr in net && Redirect(net[addr]).Some?
            then reply == ForwardWithHops(net, links, Redirect(net[addr]).value, command, timeoutNs, hops + 1).reply
            else reply == HopReply(net, LinkAt(links, hops), addr)
  {
  }

  lemma HopEnds(net: map<string, Endpoint>, links: seq<Link>, start: string, k: nat, reply: Reply)
    requires Arrives(net, links, start, k)
    ensures var addr := Chain(net, start, k).value;
            RepliesAt(net, links, start, k, reply) <==>
              reply == HopReply(net, LinkAt(links, k), addr)
              && !(LinkAt(links, k) == Good && addr in net && Redirect(net[addr]).Some?)
  {
    hide Chain, LinkAt;
  }

  lemma SecondHop(net: map<string, Endpoint>, links: seq<Link>, start: string)
    ensures Arrives(net, links, start, 0) <==> start != ""
    ensures Arrives(net, links, start, 1) <==>
            start != "" && LinkAt(links, 0) == Good && start in net && Redirect(net[start]).Some?
    ensures Arrives(net, links, start, 1) ==> Chain(net, start, 1) == Redirect(net[start])
  {
    assert Chain(net, start, 0) == Some(start);
  }

  /** Two redirects in a row over good links. */
  predicate RedirectsTwice(net: map<string, Endpoint>, links: seq<Link>, start: string) {
    && start != "" && LinkAt(links, 0) == Good && LinkAt(links, 1) == Good
    && Chain(net, start, 2).Some?
  }

  lemma TwiceOrEnds(net: map<string, Endpoint>, links: seq<Link>, start: string)
    requires Arrives(net, links, start, 1)
    ensures var next := Chain(net, start, 1).value;
            RedirectsTwice(net, links, start) <==>
              LinkAt(links, 1) == Good && next in net && Redirect(net[next]).Some?
  {
    SecondHop(net, links, start);
    assert Chain(net, start, 2).Some? <==> Chain(net, start, 1).value in net && Redirect(net[Chain(net, start, 1).value]).Some?;
  }

  /** The reply, over any table of servers and any links: no leader for an empty address, too
      many hops after two redirects, otherwise what the hop says where forwarding ends. */
  lemma RepliesExactly(net: map<string, Endpoint>, links: seq<Link>, addr: string, command: string, timeoutNs: nat, reply: Reply)
    ensures ForwardTo(net, links, addr, command, timeoutNs).reply == reply <==>
            match reply
            case Err(NoLeader) => addr == ""
            case Err(MaxHopsExceeded) => RedirectsTwice(net, links, addr)
            case _ => exists k: nat :: RepliesAt(net, links, addr, k, reply)
  {
    hide ForwardWithHops, Chain, LinkAt, HopReply, RepliesAt, Redirect, RedirectsTwice, Arrives;
    NoFurtherHops(net, links, addr, command, timeoutNs);
    LaterHops(net, links, addr, reply);
    SecondHop(net, links, addr);
    NeverFrom(net, links, addr);
    if addr != "" {
      StartOf(net, addr);
      HopStep(net, links, addr, command, timeoutNs, 0);
      HopEnds(net, links, addr, 0, reply);
      if Arrives(net, links, addr, 1) {
        var next := Chain(net, addr, 1).value;
        NextNonempty(net, links, addr);
        HopStep(net, links, next, command, timeoutNs, 1);
        HopEnds(net, links, addr, 1, reply);
        TwiceOrEnds(net, links, addr);
        if LinkAt(links, 1) == Good && next in net && Redirect(net[next]).Some? {
          NoFurtherHops(net, links, Redirect(net[next]).value, command, timeoutNs);
        }
      }
    }
  }

  lemma StartOf(net: map<string, Endpoint>, addr: string)
    ensures Chain(net, addr, 0) == Some(addr)
  {
  }

  lemma NoFurtherHops(net: map<string, Endpoint>, links: seq<Link>, addr: string, command: string, timeoutNs: nat)
    ensures ForwardWithHops(net, links, addr, command, timeoutNs, 2).reply == Err(MaxHopsExceeded)
    ensures ForwardWithHops(net, links, "", command, timeoutNs, 0).reply == Err(NoLeader)
  {
  }

  lemma LaterHops(net: map<string, Endpoint>, links: seq<Link>, addr: string, reply: Reply)
    ensures forall k: nat | RepliesAt(net, links, addr, k, reply) :: Arrives(net, links, addr, k) && (k == 0 || k == 1)
    ensures forall k: nat, r: Reply | RepliesAt(net, links, addr, k, r) :: r != Err(NoLeader) && r != Err(MaxHopsExceeded)
  {
    hide Chain, LinkAt;
  }

  lemma NeverFrom(net: map<string, Endpoint>, links: seq<Link>, addr: string)
    ensures forall link, a :: HopReply(net, link, a) != Err(NoLeader) && HopReply(net, link, a) != Err(MaxHopsExceeded)
    ensures RedirectsTwice(net, links, addr) ==> Arrives(net, links, addr, 1)
  {
    if RedirectsTwice(net, links, addr) {
      assert Chain(net, addr, 1).Some?;
    }
  }

  lemma NextNonempty(net: map<string, Endpoint>, links: seq<Link>, addr: string)
    requires Arrives(net, links, addr, 1)
    ensures Chain(net, addr, 1).value != ""
  {
    SecondHop(net, links, addr);
  }

  // ---- What the leader is asked ----------------------------------------------------------

  /** Whole milliseconds of the timeout, or 5000 if there are none. */
  ghost predicate AskedWithin(timeoutMs: nat, timeoutNs: nat) {
    if timeoutNs < 1_000_000 then timeoutMs == 5000
    else timeoutMs * 1_000_000 <= timeoutNs < (timeoutMs + 1) * 1_000_000
  }

  lemma MillisecondsWithin(timeoutNs: nat, p: Endpoint, command: string)
    ensures forall a | a in Invocations(p, command, Milliseconds(timeoutNs)) :: AskedWithin(a.timeoutMs, timeoutNs)
  {
  }

  lemma {:induction false} AppliesWithin(net: map<string, Endpoint>, links: seq<Link>, addr: string, command: string, timeoutNs: nat, hops: nat)
    requires hops <= MAX_REDIRECT_HOPS
    ensures forall a | a in ForwardWithHops(net, links, addr, command, timeoutNs, hops).applies :: AskedWithin(a.timeoutMs, timeoutNs)
    decreases MAX_REDIRECT_HOPS - hops
  {
    hide AskedWithin, Invocations, Milliseconds;
    if hops < MAX_REDIRECT_HOPS && addr in net {
      MillisecondsWithin(timeoutNs, net[addr], command);
      AppliesWithin(net, links, Respond(net[addr]).leaderAddr, command, timeoutNs, hops + 1);
    }
  }

  /** An apply happens exactly when a call gets to a leader with an apply function, whether
      or not its answer comes back. */
  predicate AppliesAt(net: map<string, Endpoint>, links: seq<Link>, start: string, k: nat) {
    Arrives(net, links, start, k) && (LinkAt(links, k) == Good || LinkAt(links, k) == LostAfter) &&
    var addr := Chain(net, start, k).value;
    addr in net && net[addr].isLeader == Some(true) && net[addr].apply.Some?
  }

  lemma HopApplies(net: map<string, Endpoint>, links: seq<Link>, addr: string, command: string, timeoutNs: nat, hops: nat)
    requires hops < MAX_REDIRECT_HOPS && addr != ""
    ensures var o := ForwardWithHops(net, links, addr, command, timeoutNs, hops);
            if LinkAt(links, hops) == Good && addr in net && Redirect(net[addr]).Some?
            then o.applies == ForwardWithHops(net, links, Redirect(net[addr]).value, command, timeoutNs, hops + 1).applies
            else o.applies != [] <==>
              (LinkAt(links, hops) == Good || LinkAt(links, hops) == LostAfter) && addr in net
              && net[addr].isLeader == Some(true) && net[addr].apply.Some?
  {
    var rest := if addr in net && Redirect(net[addr]).Some?
                then ForwardWithHops(net, links, Redirect(net[addr]).value, command, timeoutNs, hops + 1).applies else [];
    assert [] + rest == rest;
  }

  lemma ForwardApplies(net: map<string, Endpoint>, links: seq<Link>, addr: string, command: string, timeoutNs: nat)
    ensures var o := ForwardTo(net, links, addr, command, timeoutNs);
            && (o.applies != [] <==> exists k: nat :: AppliesAt(net, links, addr, k))
            && (forall a | a in o.applies :: a.command == command && AskedWithin(a.timeoutMs, timeoutNs))
  {
    ForwardBounded(net, links, addr, command, timeoutNs);
    AppliesWithin(net, links, addr, command, timeoutNs, 0);
    hide ForwardWithHops, Chain, LinkAt, Redirect, AskedWithin;
    NothingApplied(net, links, addr, command, timeoutNs);
    SecondHop(net, links, addr);
    if addr != "" {
      StartOf(net, addr);
      HopApplies(net, links, addr, command, timeoutNs, 0);
      if Arrives(net, links, addr, 1) {
        var next := Chain(net, addr, 1).value;
        NextNonempty(net, links, addr);
        HopApplies(net, links, next, command, timeoutNs, 1);
        LeadersStay(net, addr);
        LeadersStay(net, next);
        if LinkAt(links, 1) == Good && next in net && Redirect(net[next]).Some? {
          NothingApplied(net, links, Redirect(net[next]).value, command, timeoutNs);
        }
      }
      assert AppliesAt(net, links, addr, 0) || AppliesAt(net, links, addr, 1) || forall k: nat :: !AppliesAt(net, links, addr, k);
    }
  }

  lemma NothingApplied(net: map<string, Endpoint>, links: seq<Link>, addr: string, command: string, timeoutNs: nat)
    ensures ForwardWithHops(net, links, addr, command, timeoutNs, 2).applies == []
    ensures ForwardWithHops(net, links, "", command, timeoutNs, 0).applies == []
  {
  }

  lemma LeadersStay(net: map<string, Endpoint>, addr: string)
    ensures addr in net && Redirect(net[addr]).Some? ==> net[addr].isLeader != Some(true)
  {
  }

  // ---- Which calls are made --------------------------------------------------------------

  /** Hop `k` makes its call: it is come to, and its address can be dialled. */
  predicate CallsAt(net: map<string, Endpoint>, links: seq<Link>, start: string, k: nat) {
    Arrives(net, links, start, k) && LinkAt(links, k) != NoDial
  }

  lemma HopCalls(net: map<string, Endpoint>, links: seq<Link>, addr: string, command: string, timeoutNs: nat, hops: nat)
    requires hops < MAX_REDIRECT_HOPS && addr != ""
    ensures var o := ForwardWithHops(net, links, addr, command, timeoutNs, hops);
            |o.calls| ==
              if LinkAt(links, hops) == NoDial then 0
              else if LinkAt(links, hops) == Good && addr in net && Redirect(net[addr]).Some?
              then 1 + |ForwardWithHops(net, links, Redirect(net[addr]).value, command, timeoutNs, hops + 1).calls|
              else 1
  {
  }

  lemma NothingCalled(net: map<string, Endpoint>, links: seq<Link>, addr: string, command: string, timeoutNs: nat)
    ensures ForwardWithHops(net, links, addr, command, timeoutNs, 2).calls == []
    ensures ForwardWithHops(net, links, "", command, timeoutNs, 0).calls == []
  {
  }

  /** The calls made are those of the first hops that make theirs, each to the address the
      redirects led to. */
  lemma CallsExactly(net: map<string, Endpoint>, links: seq<Link>, addr: string, command: string, timeoutNs: nat, k: nat)
    ensures var calls := ForwardTo(net, links, addr, command, timeoutNs).calls;
            && (k < |calls| <==> CallsAt(net, links, addr, k))
            && (k < |calls| ==> Chain(net, addr, k) == Some(calls[k]))
  {
    ForwardBounded(net, links, addr, command, timeoutNs);
    hide ForwardWithHops, Chain, LinkAt, Redirect;
    NothingCalled(net, links, addr, command, timeoutNs);
    SecondHop(net, links, addr);
    if addr != "" {
      StartOf(net, addr);
      HopCalls(net, links, addr, command, timeoutNs, 0);
      if Arrives(net, links, addr, 1) {
        var next := Chain(net, addr, 1).value;
        NextNonempty(net, links, addr);
        HopCalls(net, links, next, command, timeoutNs, 1);
        if LinkAt(links, 1) == Good && next in net && Redirect(net[next]).Some? {
          NothingCalled(net, links, Redirect(net[next]).value, command, timeoutNs);
        }
      }
    }
  }

  // ---- Success ---------------------------------------------------------------------------

  /** The server at position `k` of the chain leads and its apply yields `result`. */
  ghost predicate LeaderAt(net: map<string, Endpoint>, start: string, k: nat, result: string) {
    var a := Chain(net, start, k);
    a.Some? && a.value in net && net[a.value].isLeader == Some(true) && net[a.value].apply == Some(Done(result))
  }

  /** With no transport errors, forwarding yields `result` exactly when a leader whose apply
      yields it lies within the first two addresses of the redirect chain. */
  lemma ForwardSucceeds(net: map<string, Endpoint>, links: seq<Link>, addr: string, command: string, timeoutNs: nat, result: string)
    requires forall i | 0 <= i < |links| :: links[i] == Good
    ensures ForwardTo(net, links, addr, command, timeoutNs).reply == Ok(result)
            <==> addr != "" && exists k: nat :: k < 2 && LeaderAt(net, addr, k, result)
  {
    hide ForwardTo, Chain;
    RepliesExactly(net, links, addr, command, timeoutNs, Ok(result));
    assert forall k: nat :: LinkAt(links, k) == Good;
    forall k: nat
      ensures RepliesAt(net, links, addr, k, Ok(result)) <==> addr != "" && k < 2 && LeaderAt(net, addr, k, result)
    {
    }
  }
}
