/** TXT records from advertiser to discoverer, and the merge of everything discovered. */
module Mdns {
  import opened Options
  import opened Tags

  datatype PeerInfo = PeerInfo(address: string, bootstrapped: bool)

  /** What mDNS hands over: TXT fields in any order, an IPv4 address and a port. */
  datatype Entry = Entry(fields: seq<string>, addrV4: Option<string>, port: int)

  // ---- TXT records ---------------------------------------------------------------

  function FlagRecord(bootstrapped: bool): string {
    if bootstrapped then "bootstrapped=1" else "bootstrapped=0"
  }

  function Records(clusterID: string, gossipAddr: string, bootstrapped: bool): seq<string> {
    (if clusterID == "" then [] else ["cluster=" + clusterID])
    + (if gossipAddr == "" then [] else ["gossip=" + gossipAddr])
    + [FlagRecord(bootstrapped)]
  }

  datatype Txt = Txt(cluster: string, gossip: string, bootstrapped: bool)

  function ReadField(t: Txt, field: string): Txt {
    if "cluster=" <= field then t.(cluster := field[8..])
    else if "gossip=" <= field then t.(gossip := field[7..])
    else if field == "bootstrapped=1" then t.(bootstrapped := true)
    else t
  }

  /** Later fields override earlier ones. */
  function ReadFields(fields: seq<string>): Txt {
    if fields == [] then Txt("", "", false)
    else ReadField(ReadFields(fields[..|fields| - 1]), fields[|fields| - 1])
  }

  function Decimal(n: nat): string {
    if n < 10 then [(n + '0' as int) as char] else Decimal(n / 10) + [(n % 10 + '0' as int) as char]
  }

  /** The peer an entry stands for, if the discoverer accepts it. */
  function Accept(ownCluster: string, entry: Entry): Option<PeerInfo> {
    var t := ReadFields(entry.fields);
    if ownCluster != "" && t.cluster != ownCluster then None
    else if t.gossip != "" then Some(PeerInfo(t.gossip, t.bootstrapped))
    else if entry.addrV4.Some? && entry.port > 0
    then Some(PeerInfo(entry.addrV4.value + ":" + Decimal(entry.port), t.bootstrapped))
    else None
  }

  // ---- What the printed port reads as ----------------------------------------------

  predicate IsDigit(c: char) {
    '0' <= c <= '9'
  }

  /** The number a text of digits stands for, read from left to right. */
  function NumberOf(text: string): nat
    requires forall c | c in text :: IsDigit(c)
  {
    if text == "" then 0
    else
      assert text[|text| - 1] in text && IsDigit(text[|text| - 1]);
      10 * NumberOf(text[..|text| - 1]) + (text[|text| - 1] as int - '0' as int)
  }

  /** The text is the decimal numeral of `n`: digits only, no leading zero. */
  predicate Numeral(text: string, n: nat) {
    && text != ""
    && (forall c | c in text :: IsDigit(c))
    && (|text| > 1 ==> text[0] != '0')
    && NumberOf(text) == n
  }

  lemma {:induction false} DecimalIsNumeral(n: nat)
    ensures Numeral(Decimal(n), n)
    ensures n > 0 ==> Decimal(n)[0] != '0'
  {
    if n < 10 {
      assert Decimal(n)[..0] == "";
    } else {
      DecimalIsNumeral(n / 10);
      var init, last := Decimal(n / 10), (n % 10 + '0' as int) as char;
      assert Decimal(n) == init + [last] && Decimal(n)[..|init|] == init;
      assert forall c | c in init + [last] :: c in init || c == last;
    }
  }

  /** A number has one numeral. */
  lemma {:induction false} NumeralUnique(a: string, b: string, n: nat)
    requires Numeral(a, n) && Numeral(b, n)
    ensures a == b
  {
    NumeralSize(a, n);
    NumeralSize(b, n);
    if |a| > 1 {
      var x, y := a[..|a| - 1], b[..|b| - 1];
      assert a[|a| - 1] in a && b[|b| - 1] in b;
      assert forall c | c in x :: c in a;
      assert forall c | c in y :: c in b;
      assert x[0] == a[0] && y[0] == b[0];
      NumeralUnique(x, y, n / 10);
      assert a == x + [a[|a| - 1]] && b == y + [b[|b| - 1]];
    } else {
      assert a[..0] == "" && b[..0] == "" && a[0] in a && b[0] in b;
      assert a == [a[0]] && b == [b[0]];
    }
  }

  lemma {:induction false} NumeralSize(a: string, n: nat)
    requires Numeral(a, n)
    ensures |a| == 1 <==> n < 10
    ensures |a| > 1 ==> a[0] != '0' && n >= 10
  {
    assert a[|a| - 1] in a && a[0] in a;
    var x := a[..|a| - 1];
    assert forall c | c in x :: c in a;
    assert NumberOf(a) == 10 * NumberOf(x) + (a[|a| - 1] as int - '0' as int);
    if |a| > 1 {
      LeadingDigit(x);
    } else {
      assert x == "";
    }
  }

  lemma {:induction false} LeadingDigit(x: string)
    requires x != "" && (forall c | c in x :: IsDigit(c)) && x[0] != '0'
    ensures NumberOf(x) > 0
  {
    assert x[0] in x && x[|x| - 1] in x;
    if |x| > 1 {
      assert forall c | c in x[..|x| - 1] :: c in x;
      LeadingDigit(x[..|x| - 1]);
    }
  }

  // ---- What an entry says --------------------------------------------------------------

  lemma TagsApart(field: string)
    ensures "cluster=" <= field ==> !("gossip=" <= field) && field != "bootstrapped=1"
    ensures "gossip=" <= field ==> field != "bootstrapped=1"
  {
    assert "cluster="[0] == 'c' && "gossip="[0] == 'g' && "bootstrapped=1"[0] == 'b';
    assert "cluster=" <= field ==> field[0] == 'c';
    assert "gossip=" <= field ==> field[0] == 'g';
  }

  /** Reading any fields at all: the last of each tag counts, and the flag is exactly
      `bootstrapped=1`. */
  lemma {:induction false} FieldsMean(fields: seq<string>)
    ensures var t := ReadFields(fields);
            && LastTagged(fields, "cluster=", t.cluster)
            && LastTagged(fields, "gossip=", t.gossip)
            && (t.bootstrapped <==> "bootstrapped=1" in fields)
  {
    if fields != [] {
      hide LastTagged;
      var init, field := fields[..|fields| - 1], fields[|fields| - 1];
      FieldsMean(init);
      TagsApart(field);
      LastNext(init, "cluster=", ReadFields(init).cluster, field);
      LastNext(init, "gossip=", ReadFields(init).gossip, field);
      assert fields == init + [field];
    }
  }

  /** The answer to an entry whose last cluster ID is `c` and last gossip address `g`. */
  ghost predicate Answers(own: string, entry: Entry, peer: Option<PeerInfo>, c: string, g: string) {
    && LastTagged(entry.fields, "cluster=", c)
    && LastTagged(entry.fields, "gossip=", g)
    && (peer.None? <==> (own != "" && c != own) || (g == "" && (entry.addrV4.None? || entry.port <= 0)))
    && (peer.Some? ==>
          && (peer.value.bootstrapped <==> "bootstrapped=1" in entry.fields)
          && (if g != "" then peer.value.address == g
              else exists text | Numeral(text, entry.port) :: peer.value.address == entry.addrV4.value + ":" + text))
  }

  lemma AcceptMeans(own: string, entry: Entry)
    ensures exists c, g :: Answers(own, entry, Accept(own, entry), c, g)
  {
    hide LastTagged, Numeral, Decimal, ReadFields;
    var t := ReadFields(entry.fields);
    FieldsMean(entry.fields);
    if entry.port > 0 {
      DecimalIsNumeral(entry.port);
    }
    assert Answers(own, entry, Accept(own, entry), t.cluster, t.gossip);
  }

  lemma ReadCluster(t: Txt, v: string)
    ensures ReadField(t, "cluster=" + v) == t.(cluster := v)
  {
    assert ("cluster=" + v)[8..] == v;
  }

  lemma ReadGossip(t: Txt, v: string)
    ensures ReadField(t, "gossip=" + v) == t.(gossip := v)
  {
    var f := "gossip=" + v;
    assert f[7..] == v && f[0] == 'g' && "cluster="[0] == 'c';
  }

  lemma ReadFlag(t: Txt, b: bool)
    ensures ReadField(t, FlagRecord(b)) == if b then t.(bootstrapped := true) else t
  {
    var f := FlagRecord(b);
    assert f[0] == 'b' && "cluster="[0] == 'c' && "gossip="[0] == 'g';
    assert "bootstrapped=0"[13] == '0' && "bootstrapped=1"[13] == '1';
  }

  lemma RecordsDiffer(c: string, g: string, b: bool)
    ensures "cluster=" + c != "gossip=" + g && "cluster=" + c != FlagRecord(b) && "gossip=" + g != FlagRecord(b)
  {
    assert ("cluster=" + c)[0] == 'c' && ("gossip=" + g)[0] == 'g' && FlagRecord(b)[0] == 'b';
  }

  /** What an advertiser puts on the air: its cluster ID and gossip address if it has them,
      and always one of two flags. */
  lemma RecordsAre(c: string, g: string, b: bool, record: string)
    ensures record in Records(c, g, b) <==>
            || (c != "" && record == "cluster=" + c)
            || (g != "" && record == "gossip=" + g)
            || record == if b then "bootstrapped=1" else "bootstrapped=0"
    ensures |Records(c, g, b)| == 1 + (if c == "" then 0 else 1) + (if g == "" then 0 else 1)
  {
    var flag: seq<string> := [FlagRecord(b)];
    var cs: seq<string> := if c == "" then [] else ["cluster=" + c];
    var gs: seq<string> := if g == "" then [] else ["gossip=" + g];
    assert Records(c, g, b) == cs + gs + flag;
    assert record in cs + gs + flag <==> record in cs || record in gs || record in flag;
  }

  /** Reading any selection of an advertiser's records, in any order and with repeats. */
  lemma {:induction false} ReadRecords(c: string, g: string, b: bool, fields: seq<string>)
    requires forall f | f in fields :: f in Records(c, g, b)
    ensures ReadFields(fields) == Txt(if c != "" && "cluster=" + c in fields then c else "",
                                      if g != "" && "gossip=" + g in fields then g else "",
                                      b && FlagRecord(b) in fields)
  {
    hide ReadField, FlagRecord;
    if fields != [] {
      var init, f := fields[..|fields| - 1], fields[|fields| - 1];
      assert fields == init + [f] && f in fields;
      assert forall x | x in init :: x in fields;
      ReadRecords(c, g, b, init);
      ReadCluster(ReadFields(init), c);
      ReadGossip(ReadFields(init), g);
      ReadFlag(ReadFields(init), b);
      RecordsDiffer(c, g, b);
    }
  }

  /** The discoverer accepts the records of an advertiser, in whatever order they arrive,
      if and only if it has no cluster ID or the same one; it then reads back the gossip
      address and the flag. Without a gossip address it falls back on the entry's own. */
  lemma RecordsRoundTrip(own: string, c: string, g: string, b: bool, entry: Entry)
    requires forall f :: f in entry.fields <==> f in Records(c, g, b)
    ensures var peer := Accept(own, entry);
            if own != "" && own != c then peer == None
            else if g != "" then peer == Some(PeerInfo(g, b))
            else if entry.addrV4.Some? && entry.port > 0
            then exists text | Numeral(text, entry.port) :: peer == Some(PeerInfo(entry.addrV4.value + ":" + text, b))
            else peer == None
  {
    hide ReadFields, FlagRecord, Decimal, Numeral;
    if entry.port > 0 {
      DecimalIsNumeral(entry.port);
    }
    ReadRecords(c, g, b, entry.fields);
    var rs := Records(c, g, b);
    assert rs[|rs| - 1] == FlagRecord(b) && rs[|rs| - 1] in rs;
    if c != "" {
      assert rs[0] == "cluster=" + c;
    }
    if g != "" {
      assert rs[|rs| - 2] == "gossip=" + g;
    }
  }

  method ParseEntry(ownCluster: string, entry: Entry) returns (peer: Option<PeerInfo>)
    ensures peer == Accept(ownCluster, entry)
    ensures exists c, g :: Answers(ownCluster, entry, peer, c, g)
  {
    hide Answers, LastTagged, Numeral;
    AcceptMeans(ownCluster, entry);
    var clusterID, gossipAddr, bootstrapped := "", "", false;
    for i := 0 to |entry.fields|
      invariant Txt(clusterID, gossipAddr, bootstrapped) == ReadFields(entry.fields[..i])
    {
      var field := entry.fields[i];
      assert entry.fields[..i + 1][..i] == entry.fields[..i];
      if "cluster=" <= field {
        clusterID := field[8..];
      } else if "gossip=" <= field {
        gossipAddr := field[7..];
      } else if field == "bootstrapped=1" {
        bootstrapped := true;
      }
    }
    assert entry.fields[..|entry.fields|] == entry.fields;
    if ownCluster != "" && clusterID != ownCluster {
      return None;
    }
    if gossipAddr == "" {
      if entry.addrV4.Some? && entry.port > 0 {
        gossipAddr := entry.addrV4.value + ":" + Decimal(entry.port);
      } else {
        return None;
      }
    }
    return Some(PeerInfo(gossipAddr, bootstrapped));
  }

  // ---- The merge -------------------------------------------------------------------

  /** The peers accepted from a stream; `None` is a nil entry. */
  ghost function Accepted(own: string, stream: seq<Option<Entry>>): set<PeerInfo> {
    set e | e in stream && e.Some? && Accept(own, e.value).Some? :: Accept(own, e.value).value
  }

  /** One peer per address, bootstrapped when any report of the address was. */
  ghost function Merge(peers: set<PeerInfo>): map<string, PeerInfo> {
    map p | p in peers :: p.address := PeerInfo(p.address, PeerInfo(p.address, true) in peers)
  }

  lemma AcceptedNext(own: string, stream: seq<Option<Entry>>, e: Option<Entry>)
    ensures Accepted(own, stream + [e]) ==
            if e.Some? && Accept(own, e.value).Some? then Accepted(own, stream) + {Accept(own, e.value).value}
            else Accepted(own, stream)
  {
    hide Accept;
    forall p
      ensures p in Accepted(own, stream + [e]) <==>
              p in Accepted(own, stream) || (e.Some? && Accept(own, e.value) == Some(p))
    {
      if p in Accepted(own, stream) {
        var f :| f in stream && f.Some? && Accept(own, f.value) == Some(p);
        assert f in stream + [e];
      }
      if e.Some? && Accept(own, e.value) == Some(p) {
        assert e in stream + [e];
      }
    }
  }

  /** The merged entry for an address. */
  lemma MergeAt(peers: set<PeerInfo>, a: string)
    ensures a in Merge(peers) <==> PeerInfo(a, true) in peers || PeerInfo(a, false) in peers
    ensures a in Merge(peers) ==> Merge(peers)[a] == PeerInfo(a, PeerInfo(a, true) in peers)
  {
    if a in Merge(peers) {
      var q :| q in peers && q.address == a;
      assert q == PeerInfo(a, q.bootstrapped);
    }
    assert PeerInfo(a, true).address == a && PeerInfo(a, false).address == a;
  }

  /** What the merge loop does with one more accepted peer. */
  lemma MergeNext(peers: set<PeerInfo>, p: PeerInfo)
    ensures var m := Merge(peers);
            Merge(peers + {p}) == if p.address in m && !(p.bootstrapped && !m[p.address].bootstrapped) then m
                                  else m[p.address := p]
  {
    hide Merge;
    var m, n := Merge(peers), Merge(peers + {p});
    assert p == PeerInfo(p.address, p.bootstrapped);
    MergeAt(peers, p.address);
    forall a
      ensures a in n <==> a in m || a == p.address
      ensures a in n && a != p.address ==> n[a] == m[a]
      ensures a == p.address ==> n[a] == PeerInfo(a, p.bootstrapped || PeerInfo(a, true) in peers)
    {
      MergeAt(peers, a);
      MergeAt(peers + {p}, a);
    }
  }

  ghost predicate Lists(peers: seq<PeerInfo>, m: map<string, PeerInfo>) {
    && (forall p | p in peers :: p.address in m && m[p.address] == p)
    && (forall a | a in m :: m[a] in peers)
    && (forall i, j | 0 <= i < j < |peers| :: peers[i].address != peers[j].address)
  }

  /** Reads the stream until it closes or the query times out after `limit` entries. */
  method DiscoverPeers(own: string, stream: seq<Option<Entry>>, limit: nat) returns (result: seq<PeerInfo>)
    ensures var seen := if limit < |stream| then stream[..limit] else stream;
            Lists(result, Merge(Accepted(own, seen)))
  {
    hide Accept, Merge, Accepted;
    var peers: map<string, PeerInfo> := map[];
    MergeNothing(own);
    var n := 0;
    while n < |stream| && n < limit
      invariant n <= |stream| && n <= limit
      invariant peers == Merge(Accepted(own, stream[..n]))
    {
      var entry := stream[n];
      assert stream[..n + 1] == stream[..n] + [entry];
      AcceptedNext(own, stream[..n], entry);
      n := n + 1;
      if entry.None? {
        continue;
      }
      var parsed := ParseEntry(own, entry.value);
      if parsed.None? {
        continue;
      }
      var peer := parsed.value;
      MergeNext(Accepted(own, stream[..n - 1]), peer);
      if peer.address in peers {
        if peer.bootstrapped && !peers[peer.address].bootstrapped {
          peers := peers[peer.address := peer];
        }
      } else {
        peers := peers[peer.address := peer];
      }
    }
    assert stream[..n] == if limit < |stream| then stream[..limit] else stream;
    MergeKeyed(Accepted(own, stream[..n]));
    result := PeerMapToSlice(peers);
  }

  lemma MergeNothing(own: string)
    ensures Merge(Accepted(own, [])) == map[]
  {
  }

  lemma MergeKeyed(peers: set<PeerInfo>)
    ensures forall a | a in Merge(peers) :: Merge(peers)[a].address == a
  {
  }

  method PeerMapToSlice(m: map<string, PeerInfo>) returns (result: seq<PeerInfo>)
    requires forall a | a in m :: m[a].address == a
    ensures Lists(result, m)
  {
    result := [];
    var left := m.Keys;
    while left != {}
      invariant left <= m.Keys
      invariant forall p | p in result :: p.address in m && m[p.address] == p && p.address !in left
      invariant forall a | a in m && a !in left :: m[a] in result
      invariant forall i, j | 0 <= i < j < |result| :: result[i].address != result[j].address
      decreases |left|
    {
      var a :| a in left;
      assert forall i | 0 <= i < |result| :: result[i] in result;
      result := result + [m[a]];
      left := left - {a};
    }
  }

  /** The merge in the discoverer's own terms: one peer per valid address, flagged exactly
      when some valid entry for that address was. */
  lemma MergeMeans(own: string, stream: seq<Option<Entry>>, result: seq<PeerInfo>, a: string, b: bool)
    requires Lists(result, Merge(Accepted(own, stream)))
    ensures (exists c :: PeerInfo(a, c) in result) <==> (exists c :: PeerInfo(a, c) in Accepted(own, stream))
    ensures PeerInfo(a, true) in result <==> PeerInfo(a, true) in Accepted(own, stream)
    ensures PeerInfo(a, false) in result <==>
            PeerInfo(a, false) in Accepted(own, stream) && PeerInfo(a, true) !in Accepted(own, stream)
  {
    hide Accepted, Merge;
    MergeAt(Accepted(own, stream), a);
    assert a in Merge(Accepted(own, stream)) ==> Merge(Accepted(own, stream))[a] in result;
  }

  /** The order and repetition of entries do not matter. */
  lemma OrderIrrelevant(own: string, stream: seq<Option<Entry>>, other: seq<Option<Entry>>)
    requires forall e :: e in stream <==> e in other
    ensures Merge(Accepted(own, stream)) == Merge(Accepted(own, other))
  {
    hide Accept;
    assert Accepted(own, stream) == Accepted(own, other);
  }

  /** A longer stream loses no peer and no flag. */
  lemma GrowsWithStream(own: string, stream: seq<Option<Entry>>, more: seq<Option<Entry>>)
    ensures var m, n := Merge(Accepted(own, stream)), Merge(Accepted(own, stream + more));
            forall a | a in m :: a in n && (m[a].bootstrapped ==> n[a].bootstrapped)
  {
    hide Accept;
    var ps, qs := Accepted(own, stream), Accepted(own, stream + more);
    assert ps <= qs by {
      assert forall e | e in stream :: e in stream + more;
    }
    forall a | a in Merge(ps)
      ensures a in Merge(qs) && (Merge(ps)[a].bootstrapped ==> Merge(qs)[a].bootstrapped)
    {
      var q :| q in ps && q.address == a;
      assert q in qs;
    }
  }

  // ---- The advertiser ----------------------------------------------------------------

  /** A running mDNS server and the records it answers with; `up` is false once it has been
      shut down. */
  datatype MdnsServer = MdnsServer(txt: seq<string>, up: bool)

  class MDNSAdvertiser {
    const clusterID: string
    const gossipAddr: string
    var server: Option<MdnsServer>
    var started: bool
    var bootstrapped: bool

    /** A server that is up tells the truth about the flag. */
    ghost predicate Valid()
      reads this
    {
      && (started <==> server.Some?)
      && (server.Some? && server.value.up ==> server.value.txt == Records(clusterID, gossipAddr, bootstrapped))
    }

    constructor (clusterID: string, gossipAddr: string)
      ensures Valid() && !started && !bootstrapped
      ensures this.clusterID == clusterID && this.gossipAddr == gossipAddr
    {
      this.clusterID, this.gossipAddr := clusterID, gossipAddr;
      server, started, bootstrapped := None, false, false;
    }

    method BuildTXTRecords() returns (records: seq<string>)
      ensures records == Records(clusterID, gossipAddr, bootstrapped)
    {
      records := [];
      if clusterID != "" {
        records := records + ["cluster=" + clusterID];
      }
      if gossipAddr != "" {
        records := records + ["gossip=" + gossipAddr];
      }
      if bootstrapped {
        records := records + ["bootstrapped=1"];
      } else {
        records := records + ["bootstrapped=0"];
      }
    }

    /** `fails` says whether the mDNS library refuses to start a server. */
    method StartServer(fails: bool) returns (ok: bool)
      modifies this`server
      ensures ok == !fails
      ensures server == if fails then old(server) else Some(MdnsServer(Records(clusterID, gossipAddr, bootstrapped), true))
    {
      var txt := BuildTXTRecords();
      ok := !fails;
      if ok {
        server := Some(MdnsServer(txt, true));
      }
    }

    method Start(fails: bool) returns (ok: bool)
      requires Valid()
      modifies this`server, this`started
      ensures Valid()
      ensures ok <==> old(started) || !fails
      ensures started == ok
      ensures server == if old(started) || fails then old(server)
                        else Some(MdnsServer(Records(clusterID, gossipAddr, bootstrapped), true))
    {
      if started {
        return true;
      }
      ok := StartServer(fails);
      if !ok {
        return false;
      }
      started := true;
    }

    method Stop()
      requires Valid()
      modifies this`server, this`started
      ensures Valid() && !started && server == None
    {
      if !started {
        return;
      }
      if server.Some? {
        server := None;
      }
      started := false;
    }

    /** Changing the flag restarts a running server with the new records; if the restart
        fails the old one stays down, so stale records are never served. */
    method SetBootstrapped(b: bool, restartFails: bool)
      requires Valid()
      modifies this`server, this`bootstrapped
      ensures Valid() && bootstrapped == b
      ensures server == if old(bootstrapped) == b || old(server).None? then old(server)
                        else if restartFails then Some(old(server).value.(up := false))
                        else Some(MdnsServer(Records(clusterID, gossipAddr, b), true))
    {
      if bootstrapped == b {
        return;
      }
      bootstrapped := b;
      if started && server.Some? {
        server := Some(server.value.(up := false));
        var ok := StartServer(restartFails);
      }
    }
  }
}
