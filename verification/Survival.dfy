/** Exactly what a receiver reads from a text cut at a given limit. */
module Survival {
  import opened Options
  import opened Base64
  import opened Metadata

  /** The first `n` characters, or all if there are fewer; none if `n` is negative. */
  function First(s: string, n: int): string {
    if n <= 0 then "" else if n >= |s| then s else s[..n]
  }

  // ---- Where the fields lie ----------------------------------------------------------------

  /** The limit at which the value of each field begins, its tag included in what precedes. */
  function RaftStart(d: Meta): nat {
    |d.address| + 6
  }

  function GrpcStart(d: Meta): nat {
    |d.address| + (if d.raftAddr == "" then 0 else 6 + |d.raftAddr|) + 6
  }

  function FlagEnd(d: Meta): nat {
    GrpcStart(d) - 6 + (if d.grpcAddr == "" then 0 else 6 + |d.grpcAddr|) + 13
  }

  function AppStart(d: Meta): nat {
    FlagEnd(d) - (if d.bootstrapped then 0 else 13) + 5
  }

  /** The application bytes read from `n` characters of their encoding: all of them if it is
      whole, those of the whole quanta if the cut falls between quanta, none otherwise. */
  function FirstBytes(bs: seq<Byte>, n: int): seq<Byte> {
    if n < 0 then []
    else if n >= |Encode(bs)| then bs
    else if n % 4 == 0 then Whole(bs, n)
    else []
  }

  function Surviving(d: Meta, limit: nat): Meta {
    Meta(First(d.address, limit),
         First(d.raftAddr, limit - RaftStart(d)),
         First(d.grpcAddr, limit - GrpcStart(d)),
         d.bootstrapped && limit >= FlagEnd(d),
         FirstBytes(d.appMeta, limit - AppStart(d)))
  }

  // ---- Cutting joined parts ----------------------------------------------------------------

  function CutAt(parts: seq<string>, limit: nat): (r: seq<string>)
    requires parts != []
    ensures r != []
  {
    if |parts| == 1 then [First(parts[0], limit)]
    else
      var init := parts[..|parts| - 1];
      if limit <= |Join(init)| then CutAt(init, limit)
      else init + [First(parts[|parts| - 1], limit - |Join(init)| - 1)]
  }

  lemma FirstNoBar(s: string, n: int)
    requires NoBar(s)
    ensures NoBar(First(s, n))
  {
    assert forall c | c in First(s, n) :: c in s;
  }

  lemma CutOfJoin(head: string, last: string, limit: nat)
    ensures Cut(head + "|" + last, limit) ==
            if limit <= |head| then Cut(head, limit) else head + "|" + First(last, limit - |head| - 1)
  {
    var s := head + "|" + last;
    if limit <= |head| {
      assert s[..limit] == head[..limit];
      assert head[..|head|] == head;
    } else if limit < |s| {
      assert s[..limit] == head + "|" + last[..limit - |head| - 1];
    }
  }

  lemma {:induction false} SplitCutAt(parts: seq<string>, limit: nat)
    requires parts != [] && forall p | p in parts :: NoBar(p)
    ensures Split(Cut(Join(parts), limit)) == CutAt(parts, limit)
  {
    hide Split, NoBar, First, Cut;
    assert parts[|parts| - 1] in parts;
    FirstNoBar(parts[|parts| - 1], if |parts| == 1 then limit else limit - |Join(parts[..|parts| - 1])| - 1);
    if |parts| == 1 {
      CutIsFirst(parts[0], limit);
      SplitSingle(First(parts[0], limit));
    } else {
      var init, last := parts[..|parts| - 1], parts[|parts| - 1];
      assert forall p | p in init :: p in parts;
      CutOfJoin(Join(init), last, limit);
      if limit <= |Join(init)| {
        SplitCutAt(init, limit);
      } else {
        SplitJoin(init);
        SplitPart(Join(init), First(last, limit - |Join(init)| - 1));
      }
    }
  }

  lemma CutIsFirst(s: string, limit: nat)
    ensures Cut(s, limit) == First(s, limit)
  {
  }

  lemma {:induction false} CutBeyond(parts: seq<string>, limit: nat)
    requires parts != [] && limit >= |Join(parts)|
    ensures CutAt(parts, limit) == parts
  {
    if |parts| == 1 {
      assert parts == [parts[0]];
    } else {
      assert parts == parts[..|parts| - 1] + [parts[|parts| - 1]];
    }
  }

  /** One more field, if there is one. */
  lemma ParseCutNext(parts: seq<string>, field: seq<string>, limit: nat)
    requires parts != [] && |field| <= 1
    ensures Parse(CutAt(parts + field, limit)) ==
            if field == [] || limit <= |Join(parts)| then Parse(CutAt(parts, limit))
            else Read(Parse(CutAt(parts, limit)), First(field[0], limit - |Join(parts)| - 1))
  {
    hide Read, First, Join;
    if field == [] {
      assert parts + field == parts;
    } else {
      assert (parts + field)[..|parts|] == parts && (parts + field)[|parts|] == field[0];
      if limit > |Join(parts)| {
        CutBeyond(parts, limit);
        ParseLast(parts, First(field[0], limit - |Join(parts)| - 1));
      }
    }
  }

  // ---- Reading one cut field -----------------------------------------------------------------

  lemma FirstTagged(tag: string, v: string, n: int)
    requires tag != ""
    ensures n >= |tag| ==> First(tag + v, n) == tag + First(v, n - |tag|)
    ensures n < |tag| ==> !(tag <= First(tag + v, n)) && First(tag + v, n) == First(tag, n)
  {
    assert tag + "" == tag;
    if 0 < n < |tag| + |v| {
      assert n >= |tag| ==> (tag + v)[..n] == tag + v[..n - |tag|];
      assert n < |tag| ==> (tag + v)[..n] == tag[..n];
    }
  }

  lemma ReadCutRaft(m: Meta, v: string, n: int)
    requires m.raftAddr == ""
    ensures Read(m, First("raft=" + v, n)) == m.(raftAddr := First(v, n - 5))
  {
    FirstTagged("raft=", v, n);
    if n >= 5 {
      ReadRaft(m, First(v, n - 5));
    } else {
      ReadNothing(m, "raft=", n);
    }
  }

  lemma ReadCutGrpc(m: Meta, v: string, n: int)
    requires m.grpcAddr == ""
    ensures Read(m, First("grpc=" + v, n)) == m.(grpcAddr := First(v, n - 5))
  {
    FirstTagged("grpc=", v, n);
    if n >= 5 {
      ReadGrpc(m, First(v, n - 5));
    } else {
      ReadNothing(m, "grpc=", n);
    }
  }

  lemma ReadCutFlag(m: Meta, n: int)
    ensures Read(m, First("bootstrapped", n)) == m.(bootstrapped := m.bootstrapped || n >= 12)
  {
    if n >= 12 {
      ReadFlag(m);
    } else {
      ReadNothing(m, "bootstrapped", n);
    }
  }

  lemma ReadCutApp(m: Meta, bs: seq<Byte>, n: int)
    requires m.appMeta == []
    ensures Read(m, First("app=" + Encode(bs), n)) == m.(appMeta := FirstBytes(bs, n - 4))
  {
    hide Encode, Decode, Whole;
    FirstTagged("app=", Encode(bs), n);
    if n >= 4 {
      var k := if n - 4 >= |Encode(bs)| then |Encode(bs)| else n - 4;
      assert First(Encode(bs), n - 4) == Encode(bs)[..k];
      DecodeOfCut(bs, k);
      ReadAppText(m, First(Encode(bs), n - 4));
    } else {
      ReadNothing(m, "app=", n);
    }
  }

  lemma ReadAppText(m: Meta, text: string)
    ensures Read(m, "app=" + text) == match Decode(text) case Some(bs) => m.(appMeta := bs) case None => m
  {
    hide Decode;
    var part := "app=" + text;
    assert part[4..] == text && part[0] == 'a';
  }

  /** A cut tag says nothing. */
  lemma ReadNothing(m: Meta, tag: string, n: int)
    requires tag in {"raft=", "grpc=", "app=", "bootstrapped"} && n < |tag|
    ensures Read(m, First(tag, n)) == m
  {
    hide Decode;
    var part := First(tag, n);
    assert |part| > 0 ==> part[0] == tag[0];
    assert "raft="[0] == 'r' && "grpc="[0] == 'g' && "app="[0] == 'a' && "bootstrapped"[0] == 'b';
  }

  // ---- All fields ------------------------------------------------------------------------------

  lemma JoinLengths(d: Meta)
    ensures var f0 := [d.address];
            var f1 := f0 + RaftField(d);
            var f2 := f1 + GrpcField(d);
            var f3 := f2 + FlagField(d);
            && |Join(f0)| == |d.address|
            && |Join(f1)| == GrpcStart(d) - 6
            && |Join(f2)| == FlagEnd(d) - 13
            && |Join(f3)| == AppStart(d) - 5
  {
    TextIs(d);
    FieldCounts(d);
    JoinAddress(d.address);
    hide Join, Text, RaftField, GrpcField, FlagField, AppField, Encode;
    var f0 := [d.address];
    JoinOptional(f0, RaftField(d));
    JoinOptional(f0 + RaftField(d), GrpcField(d));
    JoinOptional(f0 + RaftField(d) + GrpcField(d), FlagField(d));
  }

  lemma RaftSurvives(d: Meta, limit: nat)
    ensures Parse(CutAt([d.address] + RaftField(d), limit))
         == Meta(First(d.address, limit), First(d.raftAddr, limit - RaftStart(d)), "", false, [])
  {
    hide Read, Join;
    JoinAddress(d.address);
    ParseCutNext([d.address], RaftField(d), limit);
    ReadCutRaft(Meta(First(d.address, limit), "", "", false, []), d.raftAddr, limit - |d.address| - 1);
  }

  lemma GrpcSurvives(d: Meta, limit: nat)
    ensures Parse(CutAt([d.address] + RaftField(d) + GrpcField(d), limit))
         == Meta(First(d.address, limit), First(d.raftAddr, limit - RaftStart(d)), First(d.grpcAddr, limit - GrpcStart(d)), false, [])
  {
    FieldCounts(d);
    hide Read, Join, RaftField, Parse, CutAt;
    JoinLengths(d);
    RaftSurvives(d, limit);
    var f1 := [d.address] + RaftField(d);
    ParseCutNext(f1, GrpcField(d), limit);
    ReadCutGrpc(Parse(CutAt(f1, limit)), d.grpcAddr, limit - |Join(f1)| - 1);
  }

  lemma FlagSurvives(d: Meta, limit: nat)
    ensures Parse(CutAt([d.address] + RaftField(d) + GrpcField(d) + FlagField(d), limit)) == Surviving(d, limit).(appMeta := [])
  {
    FieldCounts(d);
    hide Read, Join, RaftField, GrpcField, Parse, CutAt, First;
    JoinLengths(d);
    GrpcSurvives(d, limit);
    var f2 := [d.address] + RaftField(d) + GrpcField(d);
    ParseCutNext(f2, FlagField(d), limit);
    ReadCutFlag(Parse(CutAt(f2, limit)), limit - |Join(f2)| - 1);
  }

  /** For addresses free of the separator: at every limit the receiver reads exactly this
      much of each field. */
  lemma ReceivedIs(d: Meta, limit: nat)
    requires BarFree(d)
    ensures Received(d, limit) == Surviving(d, limit)
  {
    FieldCounts(d);
    FieldsBarFree(d);
    hide Read, Join, RaftField, GrpcField, FlagField, Parse, CutAt, First, Encode, Split, BarFree;
    JoinLengths(d);
    FlagSurvives(d, limit);
    var f3 := [d.address] + RaftField(d) + GrpcField(d) + FlagField(d);
    SplitCutAt(Fields(d), limit);
    ParseCutNext(f3, AppField(d), limit);
    ReadCutApp(Parse(CutAt(f3, limit)), d.appMeta, limit - |Join(f3)| - 1);
  }

  /** The exact limit from which each field is read whole. */
  lemma WholeFrom(d: Meta, limit: nat)
    requires BarFree(d)
    ensures var m := Received(d, limit);
            && (m.address == d.address <==> limit >= |d.address|)
            && (m.raftAddr == d.raftAddr <==> d.raftAddr == "" || limit >= RaftStart(d) + |d.raftAddr|)
            && (m.grpcAddr == d.grpcAddr <==> d.grpcAddr == "" || limit >= GrpcStart(d) + |d.grpcAddr|)
            && (m.bootstrapped == d.bootstrapped <==> !d.bootstrapped || limit >= FlagEnd(d))
            && (m.appMeta == d.appMeta <==> d.appMeta == [] || limit >= AppStart(d) + |Encode(d.appMeta)|)
  {
    hide Received, Encode, BarFree;
    ReceivedIs(d, limit);
    BytesWhole(d.appMeta, limit - AppStart(d));
  }

  lemma BytesWhole(bs: seq<Byte>, n: int)
    ensures FirstBytes(bs, n) == bs <==> bs == [] || n >= |Encode(bs)|
  {
    hide Encode;
    EncodeLength(bs);
  }
}
