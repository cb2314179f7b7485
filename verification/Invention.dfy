/** What a receiver may be made to believe by a text that was cut, or by a separator hidden
    in an address. */
module Invention {
  import opened Base64
  import opened Metadata

  /** The fields whose values follow a tag or are a mark. */
  datatype Kind = RaftKind | GrpcKind | FlagKind | AppKind

  /** What `m` says in this field is not more than is so of `d`. */
  predicate True(kind: Kind, m: Meta, d: Meta) {
    match kind
    case RaftKind => m.raftAddr <= d.raftAddr
    case GrpcKind => m.grpcAddr <= d.grpcAddr
    case FlagKind => m.bootstrapped ==> d.bootstrapped
    case AppKind => m.appMeta <= d.appMeta
  }

  /** `m` says nothing that is not so of `d`. */
  predicate Below(m: Meta, d: Meta) {
    m.address <= d.address && forall kind: Kind :: True(kind, m, d)
  }

  /** Read as one field, the part says nothing false. */
  predicate Says(kind: Kind, d: Meta, part: string) {
    match kind
    case RaftKind => "raft=" <= part ==> part[5..] <= d.raftAddr
    case GrpcKind => "grpc=" <= part ==> part[5..] <= d.grpcAddr
    case FlagKind => part == "bootstrapped" ==> d.bootstrapped
    case AppKind => "app=" <= part && Decode(part[4..]).Some? ==> Decode(part[4..]).value <= d.appMeta
  }

  /** However it is cut, the part says nothing false. */
  predicate Honest(kind: Kind, d: Meta, part: string) {
    match kind
    case RaftKind => "raft=" <= part ==> part[5..] <= d.raftAddr
    case GrpcKind => "grpc=" <= part ==> part[5..] <= d.grpcAddr
    case FlagKind => "bootstrapped" <= part ==> d.bootstrapped
    case AppKind => forall n | 4 <= n <= |part| :: Says(AppKind, d, part[..n])
  }

  lemma HonestSays(kind: Kind, d: Meta, part: string)
    ensures Honest(kind, d, part) <==> forall n | 0 <= n <= |part| :: Says(kind, d, part[..n])
  {
    hide Decode;
    assert part[..|part|] == part;
    if !Honest(kind, d, part) {
      assert !kind.AppKind? && !kind.FlagKind? ==> !Says(kind, d, part[..|part|]);
      assert kind.FlagKind? ==> part[..12] == "bootstrapped" && !Says(kind, d, part[..12]);
    } else if kind.RaftKind? {
      TagCut("raft=", part, d.raftAddr);
    } else if kind.GrpcKind? {
      TagCut("grpc=", part, d.grpcAddr);
    }
  }

  lemma TagCut(tag: string, part: string, value: string)
    requires tag <= part ==> part[|tag|..] <= value
    ensures forall n | 0 <= n <= |part| :: tag <= part[..n] ==> part[..n][|tag|..] <= value
  {
    forall n | 0 <= n <= |part| && tag <= part[..n]
      ensures part[..n][|tag|..] <= value
    {
      assert part[..n][|tag|..] == part[|tag|..][..n - |tag|];
    }
  }

  lemma ReadTrue(kind: Kind, m: Meta, d: Meta, part: string)
    ensures True(kind, m, d) && Says(kind, d, part) ==> True(kind, Read(m, part), d)
    ensures !Says(kind, d, part) ==> !True(kind, Read(m, part), d)
  {
    hide Decode;
    assert "raft="[0] == 'r' && "grpc="[0] == 'g' && "app="[0] == 'a' && "bootstrapped"[0] == 'b';
    assert "raft=" <= part ==> part[0] == 'r';
    assert "grpc=" <= part ==> part[0] == 'g';
    assert "app=" <= part ==> part[0] == 'a';
  }

  lemma {:induction false} ParseTrue(kind: Kind, d: Meta, parts: seq<string>)
    requires parts != [] && forall k | 0 < k < |parts| :: Says(kind, d, parts[k])
    ensures True(kind, Parse(parts), d) && Parse(parts).address == parts[0]
  {
    if |parts| > 1 {
      hide Says, True, Decode;
      ParseTrue(kind, d, parts[..|parts| - 1]);
      ReadTrue(kind, Parse(parts[..|parts| - 1]), d, parts[|parts| - 1]);
    }
  }

  // ---- The parts of a printed text -------------------------------------------------------

  /** What follows separators inside addresses. */
  function Hidden(d: Meta): seq<string> {
    Split(d.address)[1..] + Split(d.raftAddr)[1..] + Split(d.grpcAddr)[1..]
  }

  /** The parts that begin where a printed field begins. */
  function Genuine(d: Meta): seq<string> {
    (if d.raftAddr == "" then [] else ["raft=" + Split(d.raftAddr)[0]])
    + (if d.grpcAddr == "" then [] else ["grpc=" + Split(d.grpcAddr)[0]])
    + FlagField(d) + AppField(d)
  }

  lemma {:induction false} SplitTagged(tag: string, v: string)
    requires NoBar(tag)
    ensures Split(tag + v) == [tag + Split(v)[0]] + Split(v)[1..]
  {
    SplitEmpty();
    hide Split;
    if v == "" {
      assert tag + "" == tag;
      SplitSingle(tag);
    } else {
      var init, c := v[..|v| - 1], v[|v| - 1];
      SplitTagged(tag, init);
      assert v == init + [c] && tag + v == (tag + init) + [c];
      SplitChar(tag + init, c);
      SplitChar(init, c);
      TaggedLast(tag, Split(init), c);
    }
  }

  lemma TaggedLast(tag: string, parts: seq<string>, c: char)
    requires parts != []
    ensures var tagged := [tag + parts[0]] + parts[1..];
            var more := parts[..|parts| - 1] + [parts[|parts| - 1] + [c]];
            && tagged[..|tagged| - 1] + [tagged[|tagged| - 1] + [c]] == [tag + more[0]] + more[1..]
            && tagged + [""] == [tag + (parts + [""])[0]] + (parts + [""])[1..]
  {
    if |parts| == 1 {
      assert (tag + parts[0]) + [c] == tag + (parts[0] + [c]);
    }
  }

  lemma {:induction false} JoinAt(parts: seq<string>, k: nat) returns (rest: string)
    requires 0 < k < |parts|
    ensures Join(parts) == Join(parts[..k]) + "|" + parts[k] + rest
  {
    var init := parts[..|parts| - 1];
    if k == |init| {
      rest := "";
    } else {
      var r := JoinAt(init, k);
      rest := r + "|" + parts[|parts| - 1];
      assert init[..k] == parts[..k];
    }
  }

  lemma FirstPart(s: string)
    ensures Split(s)[0] <= s
  {
    JoinSplit(s);
    var parts := Split(s);
    if |parts| > 1 {
      var rest := JoinAt(parts, 1);
      assert parts[..1] == [parts[0]];
    }
  }

  lemma SplitText(s: string, field: seq<string>)
    requires |field| <= 1
    ensures Split(s + Text(field)) == Split(s) + if field == [] then [] else Split(field[0])
  {
    hide Split;
    if field == [] {
      assert s + "" == s;
    } else {
      SplitBar(s, field[0]);
      assert s + ("|" + field[0]) == s + "|" + field[0];
    }
  }

  function Parts(field: seq<string>): seq<string> {
    if field == [] then [] else Split(field[0])
  }

  lemma PrintedParts(d: Meta)
    ensures Split(Print(d)) == Split(d.address) + Parts(RaftField(d)) + Parts(GrpcField(d)) + Parts(FlagField(d)) + Parts(AppField(d))
  {
    FieldCounts(d);
    hide Split, Text, RaftField, GrpcField, FlagField, AppField, Print;
    PrintIs(d);
    SplitText(d.address, RaftField(d));
    SplitText(d.address + Text(RaftField(d)), GrpcField(d));
    SplitText(d.address + Text(RaftField(d)) + Text(GrpcField(d)), FlagField(d));
    SplitText(d.address + Text(RaftField(d)) + Text(GrpcField(d)) + Text(FlagField(d)), AppField(d));
  }

  lemma FieldParts(d: Meta, p: string)
    ensures p in Parts(RaftField(d)) <==> d.raftAddr != "" && (p == "raft=" + Split(d.raftAddr)[0] || p in Split(d.raftAddr)[1..])
    ensures p in Parts(GrpcField(d)) <==> d.grpcAddr != "" && (p == "grpc=" + Split(d.grpcAddr)[0] || p in Split(d.grpcAddr)[1..])
    ensures Parts(FlagField(d)) == FlagField(d) && Parts(AppField(d)) == AppField(d)
  {
    EncodeClean(d.appMeta);
    hide Split, Encode;
    SplitTagged("raft=", d.raftAddr);
    SplitTagged("grpc=", d.grpcAddr);
    SplitSingle("bootstrapped");
    SplitSingle("app=" + Encode(d.appMeta));
  }

  /** Every part after the first begins a printed field or is hidden in an address. */
  lemma PartsKnown(d: Meta, p: string)
    ensures p in Split(Print(d))[1..] <==> p in Hidden(d) || p in Genuine(d)
  {
    SplitEmpty();
    hide Split, Print, RaftField, GrpcField, FlagField, AppField, Parts;
    PrintedParts(d);
    FieldParts(d, p);
    var rest := Parts(RaftField(d)) + Parts(GrpcField(d)) + Parts(FlagField(d)) + Parts(AppField(d));
    assert Split(Print(d)) == Split(d.address) + rest;
    assert Split(Print(d))[1..] == Split(d.address)[1..] + rest;
  }

  lemma GenuineIsHonest(kind: Kind, d: Meta, p: string)
    requires p in Genuine(d)
    ensures Honest(kind, d, p)
  {
    FirstPart(d.raftAddr);
    FirstPart(d.grpcAddr);
    hide Split, Decode, Encode;
    assert p[0] == if p in AppField(d) then 'a' else if p in FlagField(d) then 'b' else p[0];
    if kind.AppKind? && p in AppField(d) {
      forall n | 4 <= n <= |p|
        ensures Says(AppKind, d, p[..n])
      {
        assert p[..n][4..] == Encode(d.appMeta)[..n - 4];
        DecodeOfCut(d.appMeta, n - 4);
      }
    }
  }

  // ---- Every cut is possible -------------------------------------------------------------

  /** Some limit cuts the text inside any given part, at any given place. */
  lemma CutAnywhere(s: string, k: nat, n: nat) returns (limit: nat)
    requires 0 < k < |Split(s)| && n <= |Split(s)[k]|
    ensures Split(Cut(s, limit)) == Split(s)[..k] + [Split(s)[k][..n]]
  {
    hide Split, Join, NoBar;
    var parts := Split(s);
    JoinSplit(s);
    var rest := JoinAt(parts, k);
    var head := Join(parts[..k]);
    limit := |head| + 1 + n;
    assert Cut(s, limit) == head + "|" + parts[k][..n];
    assert parts[k] in parts;
    CutNoBar(parts[k], n);
    assert forall p | p in parts[..k] :: p in parts;
    SplitPart(head, parts[k][..n]);
    SplitJoin(parts[..k]);
  }

  lemma CutNoBar(s: string, n: nat)
    requires NoBar(s) && n <= |s|
    ensures NoBar(s[..n])
  {
    assert forall c | c in s[..n] :: c in s;
  }

  lemma CutIsParts(s: string, limit: nat)
    ensures CutParts(Split(s), Split(Cut(s, limit)))
  {
    hide Split, CutParts;
    assert s[..|s|] == s;
    SplitCut(s, if |s| > limit then limit else |s|);
  }

  // ---- Exactly when nothing is invented ----------------------------------------------------

  /** The address read is a prefix of the real one, whatever else happens. */
  lemma AddressIsPrefix(d: Meta, limit: nat)
    ensures Received(d, limit).address <= d.address
  {
    hide Split, Print, Read;
    CutIsParts(Print(d), limit);
    PrintedParts(d);
    FirstPart(d.address);
    ParseAddress(Split(Cut(Print(d), limit)));
  }

  lemma {:induction false} ParseAddress(parts: seq<string>)
    requires parts != []
    ensures Parse(parts).address == parts[0]
  {
    if |parts| > 1 {
      ParseAddress(parts[..|parts| - 1]);
    }
  }

  /** No limit makes a receiver read something false in the field. */
  ghost predicate NeverFalse(kind: Kind, d: Meta) {
    forall limit: nat :: True(kind, Received(d, limit), d)
  }

  predicate HiddenHonest(kind: Kind, d: Meta) {
    forall p | p in Hidden(d) :: Honest(kind, d, p)
  }

  lemma HonestIsSafe(kind: Kind, d: Meta, limit: nat)
    requires HiddenHonest(kind, d)
    ensures True(kind, Received(d, limit), d)
  {
    hide Split, Print, Read, Parse, Honest, Says, Hidden, Genuine, True;
    var whole, cut := Split(Print(d)), Split(Cut(Print(d), limit));
    CutIsParts(Print(d), limit);
    forall k | 0 < k < |cut|
      ensures Says(kind, d, cut[k])
    {
      var p := whole[k];
      assert p == whole[1..][k - 1];
      PartsKnown(d, p);
      if p in Genuine(d) {
        GenuineIsHonest(kind, d, p);
      }
      HonestSays(kind, d, p);
      assert cut[k] == p[..|cut[k]|];
    }
    ParseTrue(kind, d, cut);
  }

  lemma LieIsRead(kind: Kind, d: Meta, p: string) returns (limit: nat)
    requires p in Hidden(d) && !Honest(kind, d, p)
    ensures !True(kind, Received(d, limit), d)
  {
    hide Split, Print, Read, Parse, Honest, Says, Hidden, Genuine, True;
    HonestSays(kind, d, p);
    var n: nat :| n <= |p| && !Says(kind, d, p[..n]);
    PartsKnown(d, p);
    var whole := Split(Print(d));
    var j: nat :| j < |whole| - 1 && whole[1..][j] == p;
    var k := j + 1;
    limit := CutAnywhere(Print(d), k, n);
    ParseLast(whole[..k], p[..n]);
    ReadTrue(kind, Parse(whole[..k]), d, p[..n]);
  }

  /** No limit makes a receiver read something false in a field if and only if no part
      hidden behind a separator in an address says something false of it, however cut. */
  lemma InventsNothingExactly(kind: Kind, d: Meta)
    ensures NeverFalse(kind, d) <==> HiddenHonest(kind, d)
  {
    hide True, Received, Hidden, Honest;
    if p :| p in Hidden(d) && !Honest(kind, d, p) {
      var limit := LieIsRead(kind, d, p);
    } else {
      forall limit: nat
        ensures True(kind, Received(d, limit), d)
      {
        HonestIsSafe(kind, d, limit);
      }
    }
  }

  /** And so for all fields at once; only what hides in addresses matters. */
  lemma NothingInventedExactly(d: Meta)
    ensures (forall limit: nat :: Below(Received(d, limit), d)) <==> forall kind: Kind :: HiddenHonest(kind, d)
  {
    hide Received, HiddenHonest, True;
    forall limit: nat
      ensures Received(d, limit).address <= d.address
    {
      AddressIsPrefix(d, limit);
    }
    forall kind: Kind
      ensures NeverFalse(kind, d) <==> HiddenHonest(kind, d)
    {
      InventsNothingExactly(kind, d);
    }
    if kind: Kind, limit: nat :| !True(kind, Received(d, limit), d) {
      assert !NeverFalse(kind, d) && !Below(Received(d, limit), d);
    } else {
      assert forall kind: Kind :: NeverFalse(kind, d);
    }
  }

  // ---- The flag --------------------------------------------------------------------------

  predicate OccursAt(s: string, t: string, i: nat) {
    i + |t| <= |s| && s[i..i + |t|] == t
  }

  ghost predicate Contains(s: string, t: string) {
    exists i: nat :: OccursAt(s, t, i)
  }

  predicate SomeStarts(parts: seq<string>, word: string) {
    exists p | p in parts :: word <= p
  }

  lemma PartContained(s: string, word: string, p: string)
    requires p in Split(s)[1..] && word <= p
    ensures Contains(s, "|" + word)
  {
    hide Split, Join;
    var j: nat :| j < |Split(s)| - 1 && Split(s)[1..][j] == p;
    JoinSplit(s);
    var rest := JoinAt(Split(s), j + 1);
    assert OccursAt(s, "|" + word, |Join(Split(s)[..j + 1])|);
  }

  lemma ContainedPart(s: string, word: string)
    requires NoBar(word) && Contains(s, "|" + word)
    ensures SomeStarts(Split(s)[1..], word)
  {
    hide Split, NoBar;
    var i: nat :| OccursAt(s, "|" + word, i);
    var after := s[i + 1 + |word|..];
    assert s == s[..i] + "|" + (word + after);
    SplitBar(s[..i], word + after);
    SplitTagged(word, after);
    var p := word + Split(after)[0];
    assert Split(word + after)[0] == p;
    var parts := Split(s[..i]);
    assert Split(s) == parts + Split(word + after);
    assert Split(s)[1..][|parts| - 1] == p;
    assert p in Split(s)[1..] && word <= p;
  }

  /** A part after the first begins with the word exactly where the word follows a
      separator. */
  lemma StartsExactly(s: string, word: string)
    requires NoBar(word)
    ensures SomeStarts(Split(s)[1..], word) <==> Contains(s, "|" + word)
  {
    hide Split, NoBar, Contains;
    if SomeStarts(Split(s)[1..], word) {
      var p :| p in Split(s)[1..] && word <= p;
      PartContained(s, word, p);
    } else if Contains(s, "|" + word) {
      ContainedPart(s, word);
    }
  }

  lemma SomeOfThree(a: seq<string>, b: seq<string>, c: seq<string>, word: string)
    ensures SomeStarts(a + b + c, word) <==> SomeStarts(a, word) || SomeStarts(b, word) || SomeStarts(c, word)
  {
    assert forall p :: p in a + b + c <==> p in a || p in b || p in c;
  }

  /** A node that is not bootstrapped is taken for one, at some limit, if and only if one of
      its addresses contains `|bootstrapped`. */
  lemma FlagInventedExactly(d: Meta)
    requires !d.bootstrapped
    ensures (exists limit: nat :: Received(d, limit).bootstrapped) <==>
            Contains(d.address, "|bootstrapped") || Contains(d.raftAddr, "|bootstrapped") || Contains(d.grpcAddr, "|bootstrapped")
  {
    hide Received, Split, Contains, SomeStarts;
    InventsNothingExactly(FlagKind, d);
    assert "|" + "bootstrapped" == "|bootstrapped";
    StartsExactly(d.address, "bootstrapped");
    StartsExactly(d.raftAddr, "bootstrapped");
    StartsExactly(d.grpcAddr, "bootstrapped");
    SomeOfThree(Split(d.address)[1..], Split(d.raftAddr)[1..], Split(d.grpcAddr)[1..], "bootstrapped");
    FlagHonesty(d);
    forall limit: nat
      ensures True(FlagKind, Received(d, limit), d) <==> !Received(d, limit).bootstrapped
    {
    }
  }

  lemma FlagHonesty(d: Meta)
    requires !d.bootstrapped
    ensures HiddenHonest(FlagKind, d) <==> !SomeStarts(Hidden(d), "bootstrapped")
  {
    hide Hidden;
    assert forall p :: Honest(FlagKind, d, p) <==> !("bootstrapped" <= p);
  }

  /** However short the limit, a text whose addresses are free of the separator invents
      nothing: each address read is a prefix of the real one, the application bytes a prefix
      of the real ones, and the flag is read only if it was set. */
  lemma CutNeverInvents(d: Meta, limit: nat)
    requires BarFree(d)
    ensures Below(Received(d, limit), d)
  {
    hide Received, Honest, True;
    SplitSingle(d.address);
    SplitSingle(d.raftAddr);
    SplitSingle(d.grpcAddr);
    AddressIsPrefix(d, limit);
    forall kind: Kind
      ensures True(kind, Received(d, limit), d)
    {
      HonestIsSafe(kind, d, limit);
    }
  }

  /** The separator in an address lets a field be invented. */
  lemma BarInvents()
    ensures var d := Meta("a|bootstrapped", "", "", false, []);
            Received(d, 100).bootstrapped && !d.bootstrapped
  {
    var d := Meta("a|bootstrapped", "", "", false, []);
    assert Fields(d) == ["a|bootstrapped"];
    assert "a|bootstrapped" == "a" + "|" + "bootstrapped";
    SplitSingle("a");
    SplitPart("a", "bootstrapped");
    assert Split(Print(d)) == ["a"] + ["bootstrapped"];
    ParseLast(["a"], "bootstrapped");
    ReadFlag(Parse(["a"]));
  }
}
