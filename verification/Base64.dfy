/** Standard base64 (section 4 of RFC 4648) as Go's StdEncoding reads and writes it:
    padded, carriage returns and line feeds skipped on input, unused trailing bits ignored. */
module Base64 {
  import opened Options

  type Byte = x: int | 0 <= x < 256

  function Symbol(i: int): char
    requires 0 <= i < 64
  {
    if i < 26 then ('A' as int + i) as char
    else if i < 52 then ('a' as int + i - 26) as char
    else if i < 62 then ('0' as int + i - 52) as char
    else if i == 62 then '+' else '/'
  }

  /** The index of an alphabet character, 64 for any other. */
  function Value(c: char): (i: int)
    ensures 0 <= i <= 64
  {
    if 'A' <= c <= 'Z' then c as int - 'A' as int
    else if 'a' <= c <= 'z' then c as int - 'a' as int + 26
    else if '0' <= c <= '9' then c as int - '0' as int + 52
    else if c == '+' then 62
    else if c == '/' then 63 else 64
  }

  predicate IsNewline(c: char) {
    c == '\n' || c == '\r'
  }

  /** Characters that never occur in an encoding. */
  predicate Foreign(c: char) {
    IsNewline(c) || c == '|'
  }

  lemma SymbolValue(i: int)
    requires 0 <= i < 64
    ensures Value(Symbol(i)) == i && Symbol(i) != '=' && !Foreign(Symbol(i))
  {
  }

  // ---- Quanta ------------------------------------------------------------------

  function Encode3(a: Byte, b: Byte, c: Byte): string {
    [Symbol(a / 4), Symbol(a % 4 * 16 + b / 16), Symbol(b % 16 * 4 + c / 64), Symbol(c % 64)]
  }

  function Encode2(a: Byte, b: Byte): string {
    [Symbol(a / 4), Symbol(a % 4 * 16 + b / 16), Symbol(b % 16 * 4), '=']
  }

  function Encode1(a: Byte): string {
    [Symbol(a / 4), Symbol(a % 4 * 16), '=', '=']
  }

  function Encode(bs: seq<Byte>): (s: string) {
    if bs == [] then ""
    else if |bs| == 1 then Encode1(bs[0])
    else if |bs| == 2 then Encode2(bs[0], bs[1])
    else Encode3(bs[0], bs[1], bs[2]) + Encode(bs[3..])
  }

  function High(i: int, j: int): Byte
    requires 0 <= i < 64 && 0 <= j < 64
  {
    i * 4 + j / 16
  }

  function Middle(j: int, k: int): Byte
    requires 0 <= j < 64 && 0 <= k < 64
  {
    j % 16 * 16 + k / 4
  }

  function Low(k: int, l: int): Byte
    requires 0 <= k < 64 && 0 <= l < 64
  {
    k % 4 * 64 + l
  }

  /** One group of four characters; `last` says whether it ends the text, as a padded
      group must. */
  function Quantum(c0: char, c1: char, c2: char, c3: char, last: bool): Option<seq<Byte>> {
    var i, j, k, l := Value(c0), Value(c1), Value(c2), Value(c3);
    if i == 64 || j == 64 then None
    else if c2 == '=' then if c3 == '=' && last then Some([High(i, j)]) else None
    else if k == 64 then None
    else if c3 == '=' then if last then Some([High(i, j), Middle(j, k)]) else None
    else if l == 64 then None
    else Some([High(i, j), Middle(j, k), Low(k, l)])
  }

  function Quanta(s: string): Option<seq<Byte>> {
    if s == "" then Some([])
    else if |s| < 4 then None
    else
      var head := Quantum(s[0], s[1], s[2], s[3], |s| == 4);
      var tail := Quanta(s[4..]);
      if head.None? || tail.None? then None else Some(head.value + tail.value)
  }

  function DropNewlines(s: string): (r: string)
    ensures |r| <= |s|
  {
    if s == "" then ""
    else (if IsNewline(s[0]) then "" else [s[0]]) + DropNewlines(s[1..])
  }

  function Decode(s: string): Option<seq<Byte>> {
    Quanta(DropNewlines(s))
  }

  // ---- Laws ----------------------------------------------------------------------

  lemma HighBack(a: Byte, b: Byte)
    ensures 0 <= a / 4 < 64 && 0 <= a % 4 * 16 + b / 16 < 64
    ensures High(a / 4, a % 4 * 16 + b / 16) == a
  {
    assert (a % 4 * 16 + b / 16) / 16 == a % 4;
  }

  lemma MiddleBack(a: Byte, b: Byte, c: Byte)
    ensures 0 <= a % 4 * 16 + b / 16 < 64 && 0 <= b % 16 * 4 + c / 64 < 64
    ensures Middle(a % 4 * 16 + b / 16, b % 16 * 4 + c / 64) == b
  {
    assert (a % 4 * 16 + b / 16) % 16 == b / 16;
    assert (b % 16 * 4 + c / 64) / 4 == b % 16;
  }

  lemma LowBack(b: Byte, c: Byte)
    ensures 0 <= b % 16 * 4 + c / 64 < 64 && 0 <= c % 64 < 64
    ensures Low(b % 16 * 4 + c / 64, c % 64) == c
  {
    assert (b % 16 * 4 + c / 64) % 4 == c / 64;
  }

  lemma Quantum3(a: Byte, b: Byte, c: Byte, last: bool)
    ensures var e := Encode3(a, b, c);
            Quantum(e[0], e[1], e[2], e[3], last) == Some([a, b, c]) && forall x | x in e :: !Foreign(x)
  {
    hide Symbol, Value, Foreign, High, Middle, Low;
    HighBack(a, b);
    MiddleBack(a, b, c);
    LowBack(b, c);
    SymbolValue(a / 4);
    SymbolValue(a % 4 * 16 + b / 16);
    SymbolValue(b % 16 * 4 + c / 64);
    SymbolValue(c % 64);
  }

  lemma Quantum2(a: Byte, b: Byte)
    ensures var e := Encode2(a, b);
            Quantum(e[0], e[1], e[2], e[3], true) == Some([a, b]) && forall x | x in e :: !Foreign(x)
  {
    assert !Foreign('=');
    hide Symbol, Value, Foreign, High, Middle;
    HighBack(a, b);
    MiddleBack(a, b, 0);
    SymbolValue(a / 4);
    SymbolValue(a % 4 * 16 + b / 16);
    SymbolValue(b % 16 * 4);
  }

  lemma Quantum1(a: Byte)
    ensures var e := Encode1(a);
            Quantum(e[0], e[1], e[2], e[3], true) == Some([a]) && forall x | x in e :: !Foreign(x)
  {
    assert !Foreign('=');
    hide Symbol, Value, Foreign, High;
    HighBack(a, 0);
    SymbolValue(a / 4);
    SymbolValue(a % 4 * 16);
  }

  /** No encoding contains a newline or the metadata separator. */
  lemma {:induction false} EncodeClean(bs: seq<Byte>)
    ensures forall c | c in Encode(bs) :: !Foreign(c)
  {
    if |bs| == 1 {
      Quantum1(bs[0]);
    } else if |bs| == 2 {
      Quantum2(bs[0], bs[1]);
    } else if |bs| > 2 {
      Quantum3(bs[0], bs[1], bs[2], false);
      EncodeClean(bs[3..]);
    }
  }

  lemma {:induction false} CleanKept(s: string)
    requires forall c | c in s :: !Foreign(c)
    ensures DropNewlines(s) == s
  {
    if s != "" {
      assert s[0] in s;
      assert forall c | c in s[1..] :: c in s;
      CleanKept(s[1..]);
    }
  }

  lemma QuantaOf3(a: Byte, b: Byte, c: Byte, rest: string)
    ensures var d := Quanta(rest);
            Quanta(Encode3(a, b, c) + rest) == if d.None? then None else Some([a, b, c] + d.value)
  {
    var e := Encode3(a, b, c);
    Quantum3(a, b, c, |e + rest| == 4);
    assert (e + rest)[4..] == rest;
  }

  lemma QuantaOfPadded(a: Byte, b: Byte)
    ensures Quanta(Encode1(a)) == Some([a]) && Quanta(Encode2(a, b)) == Some([a, b])
  {
    Quantum1(a);
    Quantum2(a, b);
    assert Encode1(a)[4..] == "" && Encode2(a, b)[4..] == "";
    assert [a] + [] == [a] && [a, b] + [] == [a, b];
  }

  lemma QuantaOfShort(s: string)
    requires |s| < 4
    ensures Quanta(s) == if s == "" then Some([]) else None
  {
  }

  /** The bytes in the whole quanta among the first `n` characters of an encoding. */
  function Whole(bs: seq<Byte>, n: nat): seq<Byte> {
    if n / 4 * 3 >= |bs| then bs else bs[..n / 4 * 3]
  }

  lemma QuantaOfFew(bs: seq<Byte>, n: nat)
    requires 0 < |bs| <= 2 && 4 <= n <= |Encode(bs)|
    ensures n == 4 && Whole(bs, n) == bs && Quanta(Encode(bs)[..n]) == Some(bs)
  {
    EncodeLength(bs);
    QuantaOfPadded(bs[0], bs[|bs| - 1]);
    hide Quanta, Encode1, Encode2;
    assert bs == if |bs| == 1 then [bs[0]] else [bs[0], bs[1]];
    assert Encode(bs)[..n] == Encode(bs);
  }

  lemma WholeOf3(bs: seq<Byte>, n: nat)
    requires |bs| > 2 && n >= 4
    ensures Whole(bs, n) == [bs[0], bs[1], bs[2]] + Whole(bs[3..], n - 4)
  {
    assert (n - 4) / 4 == n / 4 - 1;
    assert bs == [bs[0], bs[1], bs[2]] + bs[3..];
  }

  /** An encoding cut after `n` characters decodes exactly when the cut falls between
      quanta, and then to the bytes of the whole ones. */
  lemma {:induction false} QuantaOfCut(bs: seq<Byte>, n: nat)
    requires n <= |Encode(bs)|
    ensures Quanta(Encode(bs)[..n]) == if n % 4 == 0 then Some(Whole(bs, n)) else None
  {
    EncodeLength(bs);
    hide Quanta, Encode, Encode3, Whole;
    if n < 4 {
      QuantaOfShort(Encode(bs)[..n]);
      WholeOfNone(bs, n);
    } else if |bs| <= 2 {
      QuantaOfFew(bs, n);
    } else {
      CutOf3(bs, n);
      WholeOf3(bs, n);
      QuantaOf3(bs[0], bs[1], bs[2], Encode(bs[3..])[..n - 4]);
      QuantaOfCut(bs[3..], n - 4);
    }
  }

  lemma WholeOfNone(bs: seq<Byte>, n: nat)
    requires n < 4
    ensures Whole(bs, n) == []
  {
  }

  lemma CutOf3(bs: seq<Byte>, n: nat)
    requires |bs| > 2 && 4 <= n <= |Encode(bs)|
    ensures n - 4 <= |Encode(bs[3..])|
    ensures Encode(bs)[..n] == Encode3(bs[0], bs[1], bs[2]) + Encode(bs[3..])[..n - 4]
  {
    hide Symbol;
    var e, tail := Encode3(bs[0], bs[1], bs[2]), Encode(bs[3..]);
    assert (e + tail)[..n] == e + tail[..n - 4];
  }

  /** How many characters `n` bytes take. */
  function EncodedSize(n: nat): nat {
    (n + 2) / 3 * 4
  }

  lemma {:induction false} EncodeLength(bs: seq<Byte>)
    ensures |Encode(bs)| == EncodedSize(|bs|)
  {
    hide Symbol;
    if |bs| > 2 {
      EncodeLength(bs[3..]);
    }
  }

  lemma WholeIsPrefix(bs: seq<Byte>, n: nat)
    ensures Whole(bs, n) <= bs
    ensures n == EncodedSize(|bs|) ==> n % 4 == 0 && Whole(bs, n) == bs
  {
  }

  lemma CutKept(bs: seq<Byte>, n: nat)
    requires n <= |Encode(bs)|
    ensures DropNewlines(Encode(bs)[..n]) == Encode(bs)[..n]
  {
    hide Encode, DropNewlines;
    EncodeClean(bs);
    assert forall c | c in Encode(bs)[..n] :: c in Encode(bs);
    CleanKept(Encode(bs)[..n]);
  }

  /** What a receiver decodes from a cut encoding: nothing unless the cut falls between
      quanta, and then a prefix of the bytes. */
  lemma DecodeOfCut(bs: seq<Byte>, n: nat)
    requires n <= |Encode(bs)|
    ensures Decode(Encode(bs)[..n]) == if n % 4 == 0 then Some(Whole(bs, n)) else None
    ensures Whole(bs, n) <= bs && (n == |Encode(bs)| ==> n % 4 == 0 && Whole(bs, n) == bs)
  {
    hide Encode, Quanta, Whole, EncodedSize, DropNewlines;
    EncodeLength(bs);
    WholeIsPrefix(bs, n);
    CutKept(bs, n);
    QuantaOfCut(bs, n);
  }

  /** Decoding undoes encoding, for every byte string. */
  lemma RoundTrip(bs: seq<Byte>)
    ensures Decode(Encode(bs)) == Some(bs)
  {
    hide Encode, Decode;
    DecodeOfCut(bs, |Encode(bs)|);
    assert Encode(bs)[..|Encode(bs)|] == Encode(bs);
  }

  lemma QuantumSize(c0: char, c1: char, c2: char, c3: char, last: bool)
    ensures var d := Quantum(c0, c1, c2, c3, last); d.Some? ==> |d.value| == 3 || (last && 1 <= |d.value| <= 2)
  {
    hide High, Middle, Low, Value;
  }

  lemma SizeOfQuantum(n: nat, rest: nat)
    requires n == 3 || (1 <= n <= 2 && rest == 0)
    ensures EncodedSize(n + rest) == 4 + EncodedSize(rest)
  {
  }

  lemma {:induction false} QuantaLength(s: string, bs: seq<Byte>)
    requires Quanta(s) == Some(bs)
    ensures EncodedSize(|bs|) == |s|
  {
    hide Quantum, EncodedSize;
    SizeOfNothing();
    if |s| >= 4 {
      var head, tail := Quantum(s[0], s[1], s[2], s[3], |s| == 4), Quanta(s[4..]);
      QuantaLength(s[4..], tail.value);
      QuantumSize(s[0], s[1], s[2], s[3], |s| == 4);
      SizeOfQuantum(|head.value|, |tail.value|);
    }
  }

  lemma SizeOfNothing()
    ensures EncodedSize(0) == 0 && Quanta("") == Some([])
  {
  }

  /** Re-encoding what was decoded never takes more room. */
  lemma DecodeShrinks(s: string)
    ensures var d := Decode(s); d.Some? ==> EncodedSize(|d.value|) <= |s|
  {
    hide Quanta, EncodedSize;
    if Decode(s).Some? {
      QuantaLength(DropNewlines(s), Decode(s).value);
    }
  }

  // ---- Against the RFC -------------------------------------------------------------

  /** The alphabet of section 4 of RFC 4648: three runs of consecutive characters, then '+'
      and '/'. */
  lemma AlphabetIs(i: int)
    requires 0 <= i < 64
    ensures Symbol(0) == 'A' && Symbol(26) == 'a' && Symbol(52) == '0' && Symbol(62) == '+' && Symbol(63) == '/'
    ensures i !in {0, 26, 52, 62, 63} ==> Symbol(i) as int == Symbol(i - 1) as int + 1
  {
  }

  /** Three bytes and their four characters are one 24-bit number; fewer bytes are padded
      with zero bits on the right and '=' signs. */
  lemma GroupsMean(a: Byte, b: Byte, c: Byte)
    ensures var e := Encode3(a, b, c);
            ((Value(e[0]) * 64 + Value(e[1])) * 64 + Value(e[2])) * 64 + Value(e[3]) == (a * 256 + b) * 256 + c
    ensures var e := Encode2(a, b); e[3] == '=' && (Value(e[0]) * 64 + Value(e[1])) * 64 + Value(e[2]) == (a * 256 + b) * 4
    ensures var e := Encode1(a); e[2..] == "==" && Value(e[0]) * 64 + Value(e[1]) == a * 16
  {
    hide Symbol, Value;
    SymbolValue(a / 4);
    SymbolValue(a % 4 * 16 + b / 16);
    SymbolValue(a % 4 * 16);
    SymbolValue(b % 16 * 4 + c / 64);
    SymbolValue(b % 16 * 4);
    SymbolValue(c % 64);
  }

  /** The g-th group of characters encodes the g-th three bytes. */
  lemma {:induction false} GroupAt(bs: seq<Byte>, g: nat)
    requires 3 * g + 3 <= |bs|
    ensures 4 * g + 4 <= |Encode(bs)|
    ensures Encode(bs)[4 * g..4 * g + 4] == Encode3(bs[3 * g], bs[3 * g + 1], bs[3 * g + 2])
  {
    hide Symbol;
    var head, tail := Encode3(bs[0], bs[1], bs[2]), bs[3..];
    assert Encode(bs) == head + Encode(tail);
    if g > 0 {
      GroupAt(tail, g - 1);
      assert 4 * g == |head| + 4 * (g - 1);
      assert Encode(bs)[4 * g..4 * g + 4] == Encode(tail)[4 * (g - 1)..4 * (g - 1) + 4];
    } else {
      assert (head + Encode(tail))[..4] == head;
    }
  }

  lemma BytesMean(i: int, j: int, k: int, l: int)
    requires 0 <= i < 64 && 0 <= j < 64 && 0 <= k < 64 && 0 <= l < 64
    ensures High(i, j) as int == (i * 64 + j) / 16
    ensures High(i, j) as int * 256 + Middle(j, k) as int == ((i * 64 + j) * 64 + k) / 4
    ensures (High(i, j) as int * 256 + Middle(j, k) as int) * 256 + Low(k, l) as int == ((i * 64 + j) * 64 + k) * 64 + l
  {
  }

  /** What a group decodes to, as a number; unused bits do not matter. */
  lemma QuantumMeans(c0: char, c1: char, c2: char, c3: char, bs: seq<Byte>, last: bool)
    requires Quantum(c0, c1, c2, c3, last) == Some(bs)
    ensures var n := Value(c0) * 64 + Value(c1);
            if |bs| == 3 then (bs[0] as int * 256 + bs[1] as int) * 256 + bs[2] as int == (n * 64 + Value(c2)) * 64 + Value(c3)
            else if |bs| == 2 then bs[0] as int * 256 + bs[1] as int == (n * 64 + Value(c2)) / 4 && c3 == '='
            else |bs| == 1 && bs[0] as int == n / 16 && c2 == '=' && c3 == '='
  {
    hide Value, High, Middle, Low;
    BytesMean(Value(c0), Value(c1), if Value(c2) < 64 then Value(c2) else 0, if Value(c3) < 64 then Value(c3) else 0);
  }

  /** Whole groups of alphabet characters, the last of which may end in one '=' or two. */
  predicate Wellformed(s: string) {
    && |s| % 4 == 0
    && forall i | 0 <= i < |s| :: Value(s[i]) < 64 || (s[i] == '=' && i >= |s| - 2 && s[|s| - 1] == '=')
  }

  lemma QuantumExactly(c0: char, c1: char, c2: char, c3: char, last: bool)
    ensures Quantum(c0, c1, c2, c3, last).Some? <==>
            Value(c0) < 64 && Value(c1) < 64 &&
            ((Value(c2) < 64 && Value(c3) < 64) || (last && c3 == '=' && (Value(c2) < 64 || c2 == '=')))
  {
  }

  lemma {:induction false} QuantaExactly(s: string)
    ensures Quanta(s).Some? <==> Wellformed(s)
  {
    hide Quantum, Value;
    if |s| >= 4 {
      QuantumExactly(s[0], s[1], s[2], s[3], |s| == 4);
      QuantaExactly(s[4..]);
      WellformedNext(s);
    }
  }

  lemma WellformedNext(s: string)
    requires |s| >= 4
    ensures Wellformed(s) <==>
            && Wellformed(s[4..]) && Value(s[0]) < 64 && Value(s[1]) < 64
            && ((Value(s[2]) < 64 && Value(s[3]) < 64) || (|s| == 4 && s[3] == '=' && (Value(s[2]) < 64 || s[2] == '=')))
  {
    hide Value;
    PaddingIsForeign();
    var t := s[4..];
    assert forall i | 0 <= i < |t| :: t[i] == s[i + 4];
    if Wellformed(s) {
      assert Wellformed(t);
    }
    if Wellformed(t) && Value(s[0]) < 64 && Value(s[1]) < 64 && Value(s[2]) < 64 && Value(s[3]) < 64 {
      forall i | 0 <= i < |s|
        ensures Value(s[i]) < 64 || (s[i] == '=' && i >= |s| - 2 && s[|s| - 1] == '=')
      {
        if i >= 4 {
          assert t[i - 4] == s[i];
        }
      }
    }
  }

  lemma PaddingIsForeign()
    ensures Value('=') == 64
  {
  }

  /** A text decodes if and only if it is well formed once line breaks are left out. */
  lemma DecodesExactly(s: string)
    ensures Decode(s).Some? <==> Wellformed(DropNewlines(s))
  {
    hide Quanta, Wellformed;
    QuantaExactly(DropNewlines(s));
  }

  /** A line feed or carriage return anywhere makes no difference. */
  lemma {:induction false} NewlineIgnored(a: string, c: char, b: string)
    requires c == '\n' || c == '\r'
    ensures DropNewlines(a + [c] + b) == DropNewlines(a + b)
  {
    if a == "" {
      assert "" + [c] + b == [c] + b && "" + b == b;
      assert ([c] + b)[1..] == b;
    } else {
      hide IsNewline;
      NewlineIgnored(a[1..], c, b);
      assert a + [c] + b == [a[0]] + (a[1..] + [c] + b) && a + b == [a[0]] + (a[1..] + b);
      FirstDropped(a[0], a[1..] + [c] + b);
      FirstDropped(a[0], a[1..] + b);
    }
  }

  lemma FirstDropped(c: char, s: string)
    ensures DropNewlines([c] + s) == (if IsNewline(c) then "" else [c]) + DropNewlines(s)
  {
    assert ([c] + s)[1..] == s;
  }
}
