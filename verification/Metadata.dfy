/** The text a node gossips about itself: fields separated by '|', printed, cut to a length
    limit, and parsed by the receiver. Go strings are sequences of chars, one per byte. */
module Metadata {
  import opened Base64
  import opened Options
  import opened Tags

  datatype Meta = Meta(address: string, raftAddr: string, grpcAddr: string, bootstrapped: bool, appMeta: seq<Byte>)

  predicate NoBar(s: string) {
    forall c | c in s :: c != '|'
  }

  // ---- Splitting -----------------------------------------------------------------

  function Join(parts: seq<string>): string
    requires parts != []
  {
    if |parts| == 1 then parts[0] else Join(parts[..|parts| - 1]) + "|" + parts[|parts| - 1]
  }

  /** strings.Split(s, "|") */
  function Split(s: string): (parts: seq<string>)
    ensures parts != []
  {
    if s == "" then [""]
    else
      var parts := Split(s[..|s| - 1]);
      var c := s[|s| - 1];
      if c == '|' then parts + [""]
      else parts[..|parts| - 1] + [parts[|parts| - 1] + [c]]
  }

  lemma SplitChar(s: string, c: char)
    ensures var parts := Split(s);
            Split(s + [c]) == if c == '|' then parts + [""] else parts[..|parts| - 1] + [parts[|parts| - 1] + [c]]
  {
    var t := s + [c];
    assert t[..|t| - 1] == s && t[|t| - 1] == c;
  }

  lemma {:induction false} SplitBar(a: string, b: string)
    ensures Split(a + "|" + b) == Split(a) + Split(b)
  {
    SplitEmpty();
    hide Split;
    if b == "" {
      assert a + "|" + "" == a + ['|'];
      SplitChar(a, '|');
    } else {
      var init, c := b[..|b| - 1], b[|b| - 1];
      SplitBar(a, init);
      assert b == init + [c] && a + "|" + b == (a + "|" + init) + [c];
      SplitChar(a + "|" + init, c);
      SplitChar(init, c);
      var parts := Split(a) + Split(init);
      assert parts[..|parts| - 1] == Split(a) + Split(init)[..|Split(init)| - 1];
    }
  }

  lemma {:induction false} SplitSingle(s: string)
    requires NoBar(s)
    ensures Split(s) == [s]
  {
    if s != "" {
      var init, c := s[..|s| - 1], s[|s| - 1];
      assert c in s && forall d | d in init :: d in s;
      SplitSingle(init);
      SplitChar(init, c);
      assert s == init + [c] && [init][..0] == [];
    }
  }

  lemma SplitPart(s: string, part: string)
    requires NoBar(part)
    ensures Split(s + "|" + part) == Split(s) + [part]
  {
    SplitBar(s, part);
    SplitSingle(part);
  }

  lemma {:induction false} SplitJoin(parts: seq<string>)
    requires parts != [] && forall p | p in parts :: NoBar(p)
    ensures Split(Join(parts)) == parts
  {
    hide Split, NoBar;
    assert parts[0] in parts && parts[|parts| - 1] in parts;
    if |parts| == 1 {
      assert parts == [parts[0]];
      SplitSingle(parts[0]);
    } else {
      var init := parts[..|parts| - 1];
      assert forall p | p in init :: p in parts;
      SplitJoin(init);
      SplitPart(Join(init), parts[|parts| - 1]);
    }
  }

  lemma SplitEmpty()
    ensures Split("") == [""] && Join([""]) == ""
  {
  }

  lemma JoinLast(parts: seq<string>, part: string)
    requires parts != []
    ensures Join(parts + [part]) == Join(parts) + "|" + part
  {
    assert (parts + [part])[..|parts|] == parts;
  }

  /** Parts never contain the separator, and joining them gives the text back. */
  lemma {:induction false} JoinSplit(s: string)
    ensures forall p | p in Split(s) :: NoBar(p)
    ensures Join(Split(s)) == s
  {
    SplitEmpty();
    hide Split, Join;
    if s != "" {
      var init, c := s[..|s| - 1], s[|s| - 1];
      JoinSplit(init);
      SplitChar(init, c);
      assert s == init + [c];
      var parts := Split(init);
      if c == '|' {
        JoinLast(parts, "");
        assert s == Join(parts) + "|" + "";
      } else {
        assert parts[|parts| - 1] in parts;
        assert NoBar(parts[|parts| - 1] + [c]);
        JoinExtend(parts, c);
      }
    }
  }

  lemma JoinExtend(parts: seq<string>, c: char)
    requires parts != []
    ensures Join(parts[..|parts| - 1] + [parts[|parts| - 1] + [c]]) == Join(parts) + [c]
  {
    var more := parts[..|parts| - 1] + [parts[|parts| - 1] + [c]];
    assert more[..|more| - 1] == parts[..|parts| - 1];
    if |parts| > 1 {
      var head := Join(parts[..|parts| - 1]) + "|";
      assert head + (parts[|parts| - 1] + [c]) == (head + parts[|parts| - 1]) + [c];
    }
  }

  /** The parts of a cut text: whole parts, then what is left of the next one. */
  ghost predicate CutParts(whole: seq<string>, cut: seq<string>) {
    && 0 < |cut| <= |whole|
    && (forall i | 0 <= i < |cut| - 1 :: cut[i] == whole[i])
    && cut[|cut| - 1] <= whole[|cut| - 1]
  }

  lemma {:induction false} SplitCut(s: string, n: nat)
    requires n <= |s|
    ensures CutParts(Split(s), Split(s[..n]))
  {
    hide Split, CutParts;
    if n == |s| {
      assert s[..n] == s;
      CutNothing(Split(s));
    } else {
      var init, c := s[..|s| - 1], s[|s| - 1];
      assert s[..n] == init[..n];
      SplitCut(init, n);
      SplitChar(init, c);
      assert s == init + [c];
      CutGrows(Split(init), Split(s[..n]), c);
    }
  }

  lemma CutNothing(parts: seq<string>)
    requires parts != []
    ensures CutParts(parts, parts)
  {
  }

  lemma CutGrows(whole: seq<string>, cut: seq<string>, c: char)
    requires CutParts(whole, cut)
    ensures CutParts(whole + [""], cut)
    ensures CutParts(whole[..|whole| - 1] + [whole[|whole| - 1] + [c]], cut)
  {
  }

  // ---- Printing ------------------------------------------------------------------

  /** The fields a node prints, in order. */
  function RaftField(m: Meta): seq<string> {
    if m.raftAddr == "" then [] else ["raft=" + m.raftAddr]
  }

  function GrpcField(m: Meta): seq<string> {
    if m.grpcAddr == "" then [] else ["grpc=" + m.grpcAddr]
  }

  function FlagField(m: Meta): seq<string> {
    if m.bootstrapped then ["bootstrapped"] else []
  }

  function AppField(m: Meta): seq<string> {
    if m.appMeta == [] then [] else ["app=" + Encode(m.appMeta)]
  }

  function Fields(m: Meta): (fs: seq<string>)
    ensures fs != []
  {
    [m.address] + RaftField(m) + GrpcField(m) + FlagField(m) + AppField(m)
  }

  function Print(m: Meta): string {
    Join(Fields(m))
  }

  /** The text NodeMeta returns. */
  function Cut(s: string, limit: nat): string {
    if |s| > limit then s[..limit] else s
  }

  // ---- Parsing -------------------------------------------------------------------

  /** What one field after the first adds to what was read before it. */
  function Read(m: Meta, part: string): Meta {
    if "raft=" <= part then m.(raftAddr := part[5..])
    else if "grpc=" <= part then m.(grpcAddr := part[5..])
    else if "app=" <= part then
      var decoded := Decode(part[4..]);
      if decoded.Some? then m.(appMeta := decoded.value) else m
    else if part == "bootstrapped" then m.(bootstrapped := true)
    else m
  }

  function Parse(parts: seq<string>): Meta
    requires parts != []
  {
    if |parts| == 1 then Meta(parts[0], "", "", false, [])
    else Read(Parse(parts[..|parts| - 1]), parts[|parts| - 1])
  }

  lemma ParseLast(parts: seq<string>, part: string)
    requires parts != []
    ensures Parse(parts + [part]) == Read(Parse(parts), part)
  {
    assert (parts + [part])[..|parts|] == parts;
  }

  /** The application bytes of the last field that decodes, none if there is none. */
  ghost predicate LastDecoded(fields: seq<string>, bs: seq<Byte>) {
    || (bs == [] && forall i | 0 <= i < |fields| :: !Decodes(fields[i]))
    || exists i :: DecodedAt(fields, bs, i)
  }

  predicate Decodes(field: string) {
    "app=" <= field && Decode(field[4..]).Some?
  }

  predicate DecodedAt(fields: seq<string>, bs: seq<Byte>, i: int) {
    && 0 <= i < |fields| && Decodes(fields[i]) && Decode(fields[i][4..]) == Some(bs)
    && forall j | i < j < |fields| :: !Decodes(fields[j])
  }

  lemma LastDecodedNext(fields: seq<string>, bs: seq<Byte>, field: string)
    requires LastDecoded(fields, bs)
    ensures LastDecoded(fields + [field], if Decodes(field) then Decode(field[4..]).value else bs)
  {
    hide Decode;
    var all := fields + [field];
    if Decodes(field) {
      assert DecodedAt(all, Decode(field[4..]).value, |fields|);
    } else if i :| DecodedAt(fields, bs, i) {
      assert DecodedAt(all, bs, i);
    }
  }

  lemma PartsApart(part: string)
    ensures "raft=" <= part ==> !("grpc=" <= part) && !("app=" <= part) && part != "bootstrapped"
    ensures "grpc=" <= part ==> !("app=" <= part) && part != "bootstrapped"
    ensures "app=" <= part ==> part != "bootstrapped"
  {
    assert "raft="[0] == 'r' && "grpc="[0] == 'g' && "app="[0] == 'a' && "bootstrapped"[0] == 'b';
    assert "raft=" <= part ==> part[0] == 'r';
    assert "grpc=" <= part ==> part[0] == 'g';
    assert "app=" <= part ==> part[0] == 'a';
  }

  /** What one more part changes. */
  lemma ReadMeans(m: Meta, part: string)
    ensures var n := Read(m, part);
            && n.address == m.address
            && n.raftAddr == (if "raft=" <= part then part[5..] else m.raftAddr)
            && n.grpcAddr == (if "grpc=" <= part then part[5..] else m.grpcAddr)
            && n.bootstrapped == (m.bootstrapped || part == "bootstrapped")
            && n.appMeta == (if Decodes(part) then Decode(part[4..]).value else m.appMeta)
  {
    hide Decode;
    PartsApart(part);
  }

  lemma ParseAlone(part: string)
    ensures Parse([part]) == Meta(part, "", "", false, [])
    ensures LastTagged([], "raft=", "") && LastTagged([], "grpc=", "") && LastDecoded([], [])
  {
  }

  /** Parsing any parts at all: the first is the address, the last of each tag counts, the
      flag is exactly the word, and application bytes are those that last decoded. */
  lemma {:induction false} ParseMeans(parts: seq<string>)
    requires parts != []
    ensures var m, rest := Parse(parts), parts[1..];
            && m.address == parts[0]
            && LastTagged(rest, "raft=", m.raftAddr)
            && LastTagged(rest, "grpc=", m.grpcAddr)
            && (m.bootstrapped <==> "bootstrapped" in rest)
            && LastDecoded(rest, m.appMeta)
  {
    hide LastTagged, LastDecoded, Read, Decodes, Decode, Parse;
    if |parts| == 1 {
      ParseAlone(parts[0]);
      assert parts == [parts[0]] && parts[1..] == [];
    } else {
      var init, part := parts[..|parts| - 1], parts[|parts| - 1];
      assert parts == init + [part];
      ParseMeans(init);
      ParseLast(init, part);
      var m := Parse(init);
      ReadMeans(m, part);
      LastNext(init[1..], "raft=", m.raftAddr, part);
      LastNext(init[1..], "grpc=", m.grpcAddr, part);
      LastDecodedNext(init[1..], m.appMeta, part);
      assert parts[1..] == init[1..] + [part];
    }
  }

  // ---- The round trip --------------------------------------------------------------

  lemma ReadRaft(m: Meta, v: string)
    ensures Read(m, "raft=" + v) == m.(raftAddr := v)
  {
    assert ("raft=" + v)[5..] == v;
  }

  lemma ReadGrpc(m: Meta, v: string)
    ensures Read(m, "grpc=" + v) == m.(grpcAddr := v)
  {
    var part := "grpc=" + v;
    assert part[5..] == v && part[0] == 'g';
  }

  lemma ReadApp(m: Meta, bs: seq<Byte>)
    ensures Read(m, "app=" + Encode(bs)) == m.(appMeta := bs)
  {
    var part := "app=" + Encode(bs);
    assert part[4..] == Encode(bs) && part[0] == 'a';
    RoundTrip(bs);
  }

  lemma ReadFlag(m: Meta)
    ensures Read(m, "bootstrapped") == m.(bootstrapped := true)
  {
    assert "bootstrapped"[0] == 'b';
  }

  /** Fields added one by one, as NodeMeta adds them. */
  lemma ParseFields(m: Meta)
    ensures Parse(Fields(m)) == m
  {
    hide Read, Encode;
    var f0 := [m.address];
    var f1 := f0 + RaftField(m);
    var f2 := f1 + GrpcField(m);
    var f3 := f2 + FlagField(m);
    assert Parse(f0) == Meta(m.address, "", "", false, []);
    assert f0 + [] == f0 && f1 + [] == f1 && f2 + [] == f2 && f3 + [] == f3;
    ParseLast(f0, "raft=" + m.raftAddr);
    ReadRaft(Parse(f0), m.raftAddr);
    assert Parse(f1) == Meta(m.address, m.raftAddr, "", false, []);
    ParseLast(f1, "grpc=" + m.grpcAddr);
    ReadGrpc(Parse(f1), m.grpcAddr);
    assert Parse(f2) == Meta(m.address, m.raftAddr, m.grpcAddr, false, []);
    ParseLast(f2, "bootstrapped");
    ReadFlag(Parse(f2));
    assert Parse(f3) == Meta(m.address, m.raftAddr, m.grpcAddr, m.bootstrapped, []);
    ParseLast(f3, "app=" + Encode(m.appMeta));
    ReadApp(Parse(f3), m.appMeta);
  }

  predicate BarFree(m: Meta) {
    NoBar(m.address) && NoBar(m.raftAddr) && NoBar(m.grpcAddr)
  }

  lemma FieldsBarFree(m: Meta)
    requires BarFree(m)
    ensures forall p | p in Fields(m) :: NoBar(p)
  {
    EncodeClean(m.appMeta);
    assert NoBar("raft=" + m.raftAddr) && NoBar("grpc=" + m.grpcAddr) && NoBar("bootstrapped");
    assert NoBar("app=" + Encode(m.appMeta));
  }

  /** What a receiver makes of the text. */
  function Received(m: Meta, limit: nat): Meta {
    Parse(Split(Cut(Print(m), limit)))
  }

  // ---- Exactly when everything survives -----------------------------------------------

  function PrintLength(m: Meta): nat {
    |m.address|
    + (if m.raftAddr == "" then 0 else 6 + |m.raftAddr|)
    + (if m.grpcAddr == "" then 0 else 6 + |m.grpcAddr|)
    + (if m.bootstrapped then 13 else 0)
    + (if m.appMeta == [] then 0 else 5 + EncodedSize(|m.appMeta|))
  }

  /** A field, if present, with the separator before it. */
  function Text(field: seq<string>): string {
    if field == [] then "" else "|" + field[0]
  }

  lemma JoinOptional(parts: seq<string>, field: seq<string>)
    requires parts != [] && |field| <= 1
    ensures Join(parts + field) == Join(parts) + Text(field)
  {
    if field == [] {
      assert parts + field == parts && Join(parts) + "" == Join(parts);
    } else {
      assert field == [field[0]];
      JoinLast(parts, field[0]);
      assert Join(parts) + "|" + field[0] == Join(parts) + ("|" + field[0]);
    }
  }

  lemma FieldCounts(m: Meta)
    ensures |RaftField(m)| <= 1 && |GrpcField(m)| <= 1 && |FlagField(m)| <= 1 && |AppField(m)| <= 1
  {
  }

  /** Joining the fields is appending each with its separator. */
  lemma PrintIs(m: Meta)
    ensures Print(m) == m.address + Text(RaftField(m)) + Text(GrpcField(m)) + Text(FlagField(m)) + Text(AppField(m))
  {
    FieldCounts(m);
    hide Join, RaftField, GrpcField, FlagField, AppField, Text;
    var f0 := [m.address];
    var f1 := f0 + RaftField(m);
    var f2 := f1 + GrpcField(m);
    var f3 := f2 + FlagField(m);
    JoinAddress(m.address);
    JoinOptional(f0, RaftField(m));
    JoinOptional(f1, GrpcField(m));
    JoinOptional(f2, FlagField(m));
    JoinOptional(f3, AppField(m));
  }

  lemma TextIs(m: Meta)
    ensures Text(RaftField(m)) == if m.raftAddr == "" then "" else "|raft=" + m.raftAddr
    ensures Text(GrpcField(m)) == if m.grpcAddr == "" then "" else "|grpc=" + m.grpcAddr
    ensures Text(FlagField(m)) == if m.bootstrapped then "|bootstrapped" else ""
    ensures Text(AppField(m)) == if m.appMeta == [] then "" else "|app=" + Encode(m.appMeta)
  {
    hide Encode;
    assert "|" + ("raft=" + m.raftAddr) == "|raft=" + m.raftAddr;
    assert "|" + ("grpc=" + m.grpcAddr) == "|grpc=" + m.grpcAddr;
    assert "|" + ("app=" + Encode(m.appMeta)) == "|app=" + Encode(m.appMeta);
    assert "|" + "bootstrapped" == "|bootstrapped";
  }

  lemma JoinAddress(s: string)
    ensures Join([s]) == s
  {
  }

  lemma PrintHasLength(m: Meta)
    ensures |Print(m)| == PrintLength(m)
  {
    PrintIs(m);
    TextIs(m);
    EncodeLength(m.appMeta);
    hide Encode, Print, Text, RaftField, GrpcField, FlagField, AppField;
  }

  lemma ReadLength(m: Meta, part: string)
    ensures PrintLength(Read(m, part)) <= PrintLength(m) + 1 + |part|
  {
    hide Encode, Decode, EncodedSize;
    if "app=" <= part {
      DecodeShrinks(part[4..]);
    }
  }

  /** Printing what was parsed never takes more room than the text that was parsed. */
  lemma {:induction false} ParseLength(parts: seq<string>)
    requires parts != []
    ensures PrintLength(Parse(parts)) <= |Join(parts)|
  {
    hide Read, PrintLength;
    if |parts| == 1 {
      AddressOnly(parts[0]);
    } else {
      ParseLength(parts[..|parts| - 1]);
      ReadLength(Parse(parts[..|parts| - 1]), parts[|parts| - 1]);
    }
  }

  lemma AddressOnly(s: string)
    ensures PrintLength(Meta(s, "", "", false, [])) == |s|
  {
  }

  lemma ReadBarFree(m: Meta, part: string)
    requires BarFree(m) && NoBar(part)
    ensures BarFree(Read(m, part))
  {
    hide Decode;
    if |part| >= 5 {
      assert forall c | c in part[5..] :: c in part;
    }
  }

  lemma {:induction false} ParsedBarFree(parts: seq<string>)
    requires parts != [] && forall p | p in parts :: NoBar(p)
    ensures BarFree(Parse(parts))
  {
    assert parts[|parts| - 1] in parts;
    if |parts| > 1 {
      hide Read;
      var init := parts[..|parts| - 1];
      assert forall p | p in init :: p in parts;
      ParsedBarFree(init);
      ReadBarFree(Parse(init), parts[|parts| - 1]);
    }
  }

  /** The receiver reads exactly what the sender set if and only if the text fits the limit
      and no address contains the separator; the application bytes may be anything. */
  lemma ReceivedExactly(d: Meta, limit: nat)
    ensures Received(d, limit) == d <==> |Print(d)| <= limit && BarFree(d)
  {
    hide Parse, Fields, Split, BarFree, PrintLength;
    var cut := Split(Cut(Print(d), limit));
    JoinSplit(Cut(Print(d), limit));
    ParsedBarFree(cut);
    ParseLength(cut);
    PrintHasLength(d);
    if |Print(d)| <= limit && BarFree(d) {
      FieldsBarFree(d);
      SplitJoin(Fields(d));
      ParseFields(d);
    }
  }
}
