/** The Raft side of membership: the server list, the calls that change it one
    server at a time, and what any history of such calls keeps. */
module Cluster {

  type Id = string
  type Addr = string

  datatype Server = Server(id: Id, addr: Addr)

  /** A server list read as a finite map. */
  type Config = map<Id, Addr>

  datatype Call =
    | AddVoter(id: Id, addr: Addr)
    | RemoveServer(id: Id)

  /** `Lost` is an error reported for a call that took effect all the same,
      such as a timeout after the entry was appended. */
  datatype Reply = Committed | Refused | Lost

  datatype Event = Event(call: Call, reply: Reply)

  predicate Applied(e: Event) {
    !e.reply.Refused?
  }

  /** The map a loop over the list fills, later entries winning. */
  function View(servers: seq<Server>): (c: Config) {
    if servers == [] then map[]
    else
      var last := servers[|servers| - 1];
      View(servers[..|servers| - 1])[last.id := last.addr]
  }

  /** No server ID is listed twice. */
  predicate Distinct(servers: seq<Server>) {
    servers == [] ||
    (Distinct(servers[..|servers| - 1]) && servers[|servers| - 1].id !in View(servers[..|servers| - 1]))
  }

  lemma {:induction false} ViewOfDistinct(servers: seq<Server>, i: nat)
    requires Distinct(servers) && i < |servers|
    ensures servers[i].id in View(servers) && View(servers)[servers[i].id] == servers[i].addr
  {
    if i < |servers| - 1 {
      ViewOfDistinct(servers[..|servers| - 1], i);
    }
  }

  lemma {:induction false} ViewListed(servers: seq<Server>, x: Id) returns (i: nat)
    requires x in View(servers)
    ensures i < |servers| && servers[i] == Server(x, View(servers)[x])
  {
    i := |servers| - 1;
    if servers[i].id != x {
      i := ViewListed(servers[..i], x);
    }
  }

  /** AddVoter replaces the address of a listed server and appends an unlisted one. */
  function Put(servers: seq<Server>, id: Id, addr: Addr): (r: seq<Server>) {
    if servers == [] then [Server(id, addr)]
    else
      var init, last := servers[..|servers| - 1], servers[|servers| - 1];
      if last.id == id then init + [Server(id, addr)] else Put(init, id, addr) + [last]
  }

  function Drop(servers: seq<Server>, id: Id): (r: seq<Server>) {
    if servers == [] then []
    else
      var init, last := servers[..|servers| - 1], servers[|servers| - 1];
      if last.id == id then Drop(init, id) else Drop(init, id) + [last]
  }

  lemma ViewSnoc(init: seq<Server>, s: Server)
    ensures View(init + [s]) == View(init)[s.id := s.addr]
    ensures Distinct(init + [s]) <==> Distinct(init) && s.id !in View(init)
  {
    var all := init + [s];
    assert all[..|all| - 1] == init && all[|all| - 1] == s;
  }

  lemma MapFacts(c: Config, id: Id, addr: Addr, x: Id, y: Addr)
    ensures x == id ==> c[x := y][id := addr] == c[id := addr] && c[x := y] - {id} == c - {id}
    ensures x != id ==> c[x := y][id := addr] == c[id := addr][x := y] && c[x := y] - {id} == (c - {id})[x := y]
  {
  }

  lemma PutEmpty(id: Id, addr: Addr)
    ensures var r := Put([], id, addr); View(r) == View([])[id := addr] && Distinct(r)
  {
    ViewSnoc([], Server(id, addr));
    assert [] + [Server(id, addr)] == [Server(id, addr)];
  }

  lemma {:induction false} PutView(servers: seq<Server>, id: Id, addr: Addr)
    requires Distinct(servers)
    ensures View(Put(servers, id, addr)) == View(servers)[id := addr]
    ensures Distinct(Put(servers, id, addr))
  {
    hide View, Distinct;
    if servers == [] {
      PutEmpty(id, addr);
    } else {
      var init, last := servers[..|servers| - 1], servers[|servers| - 1];
      assert servers == init + [last];
      ViewSnoc(init, last);
      MapFacts(View(init), id, addr, last.id, last.addr);
      if last.id == id {
        ViewSnoc(init, Server(id, addr));
      } else {
        PutView(init, id, addr);
        ViewSnoc(Put(init, id, addr), last);
      }
    }
  }

  lemma {:induction false} DropView(servers: seq<Server>, id: Id)
    requires Distinct(servers)
    ensures View(Drop(servers, id)) == View(servers) - {id}
    ensures Distinct(Drop(servers, id))
  {
    assert View([]) == map[];
    hide View, Distinct;
    if servers != [] {
      var init, last := servers[..|servers| - 1], servers[|servers| - 1];
      assert servers == init + [last];
      ViewSnoc(init, last);
      MapFacts(View(init), id, last.addr, last.id, last.addr);
      DropView(init, id);
      if last.id != id {
        ViewSnoc(Drop(init, id), last);
      }
    }
  }

  /** One call's effect on the list. */
  function After(servers: seq<Server>, e: Event): (r: seq<Server>) {
    if !Applied(e) then servers
    else match e.call
      case AddVoter(id, addr) => Put(servers, id, addr)
      case RemoveServer(id) => Drop(servers, id)
  }

  function AfterAll(servers: seq<Server>, es: seq<Event>): (r: seq<Server>) {
    if es == [] then servers
    else After(AfterAll(servers, es[..|es| - 1]), es[|es| - 1])
  }

  /** The same effect on the map. */
  function Effect(c: Config, e: Event): (r: Config) {
    if !Applied(e) then c
    else match e.call
      case AddVoter(id, addr) => c[id := addr]
      case RemoveServer(id) => c - {id}
  }

  lemma AfterView(servers: seq<Server>, e: Event)
    requires Distinct(servers)
    ensures Distinct(After(servers, e))
    ensures View(After(servers, e)) == Effect(View(servers), e)
  {
    match e.call
    case AddVoter(id, addr) => PutView(servers, id, addr);
    case RemoveServer(id) => DropView(servers, id);
  }

  function EffectAll(c: Config, es: seq<Event>): (r: Config) {
    if es == [] then c
    else Effect(EffectAll(c, es[..|es| - 1]), es[|es| - 1])
  }

  /** Running the calls on the list or on the map comes to the same. */
  lemma {:induction false} AfterAllView(servers: seq<Server>, es: seq<Event>)
    requires Distinct(servers)
    ensures Distinct(AfterAll(servers, es))
    ensures View(AfterAll(servers, es)) == EffectAll(View(servers), es)
  {
    if es != [] {
      AfterAllView(servers, es[..|es| - 1]);
      AfterView(AfterAll(servers, es[..|es| - 1]), es[|es| - 1]);
    }
  }

  lemma EffectAllOne(c: Config, e: Event)
    ensures EffectAll(c, [e]) == Effect(c, e)
  {
    assert [e][..0] == [] && EffectAll(c, []) == c;
  }

  lemma {:induction false} EffectAllAppend(c: Config, es: seq<Event>, fs: seq<Event>)
    ensures EffectAll(c, es + fs) == EffectAll(EffectAll(c, es), fs)
  {
    if fs == [] {
      assert es + fs == es;
    } else {
      var init := fs[..|fs| - 1];
      assert (es + fs)[..|es + fs| - 1] == es + init;
      EffectAllAppend(c, es, init);
    }
  }

  lemma AfterAllFew(servers: seq<Server>, e: Event, f: Event)
    ensures AfterAll(servers, [e]) == After(servers, e)
    ensures AfterAll(servers, [e, f]) == After(After(servers, e), f)
  {
    hide After;
    assert [e][..0] == [] && [e, f][..1] == [e];
    assert AfterAll(servers, []) == servers;
  }

  lemma {:induction false} AfterAllAppend(servers: seq<Server>, es: seq<Event>, fs: seq<Event>)
    ensures AfterAll(servers, es + fs) == AfterAll(AfterAll(servers, es), fs)
  {
    if fs == [] {
      assert es + fs == es;
    } else {
      var init := fs[..|fs| - 1];
      assert (es + fs)[..|es + fs| - 1] == es + init;
      AfterAllAppend(servers, es, init);
    }
  }

  // ---- Single-server changes ------------------------------------------------

  ghost predicate SameEntry(c: Config, d: Config, x: Id) {
    (x in c <==> x in d) && (x in c ==> c[x] == d[x])
  }

  /** The two configurations agree on every server but `x`. */
  ghost predicate DifferOnlyAt(c: Config, d: Config, x: Id) {
    forall y | y != x :: SameEntry(c, d, y)
  }

  lemma EffectIsLocal(c: Config, e: Event)
    ensures DifferOnlyAt(c, Effect(c, e), e.call.id)
  {
  }

  predicate IsMajority(quorum: set<Id>, c: Config) {
    quorum <= c.Keys && 2 * |quorum| > |c.Keys|
  }

  /** Section 4.1 of Ongaro's dissertation: a majority of a configuration and a
      majority of one that differs in a single server share a member. */
  lemma QuorumsOverlap(c: Config, d: Config, x: Id, q: set<Id>, r: set<Id>)
    requires DifferOnlyAt(c, d, x)
    requires IsMajority(q, c) && IsMajority(r, d)
    ensures q * r != {}
  {
    if q * r == {} {
      forall y | y != x ensures y in c.Keys <==> y in d.Keys {
        assert SameEntry(c, d, y);
      }
      Disjoint(c.Keys, d.Keys, x, q, r);
    }
  }

  lemma Disjoint(a: set<Id>, b: set<Id>, x: Id, q: set<Id>, r: set<Id>)
    requires q <= a && r <= b && q * r == {} && a - {x} == b - {x}
    ensures 2 * |q| <= |a| || 2 * |r| <= |b|
  {
    var common := a - {x};
    var all := if x in a || x in b then common + {x} else common;
    assert q + r <= all;
    Subset(q + r, all);
    assert |q + r| == |q| + |r|;
    assert a == common || a == common + {x};
    assert b == common || b == common + {x};
  }

  lemma {:induction false} Subset(a: set<Id>, b: set<Id>)
    requires a <= b
    ensures |a| <= |b|
  {
    if a != {} {
      var x :| x in a;
      Subset(a - {x}, b - {x});
    }
  }
}
