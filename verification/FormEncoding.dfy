/** Query strings built from form fields, and the parser that takes them apart again. */
module FormEncoding {
  import opened Wrappers

  type byte = n: int | 0 <= n < 256

  type Bytes = seq<byte>

  const SPACE: byte := 0x20
  const PERCENT: byte := 0x25
  const AMPERSAND: byte := 0x26
  const PLUS: byte := 0x2B
  const EQUALS: byte := 0x3D

  /** Section 2.3 of RFC 3986: letters, digits, '-', '.', '_' and '~'. */
  predicate Unreserved(b: byte) {
    0x41 <= b <= 0x5A || 0x61 <= b <= 0x7A || 0x30 <= b <= 0x39 || b == 0x2D || b == 0x2E || b == 0x5F || b == 0x7E
  }

  /** The upper-case hexadecimal digit for a value below 16. */
  function HexDigit(n: int): byte
    requires 0 <= n < 16
  {
    if n < 10 then 0x30 + n else 0x37 + n
  }

  function EncodedByte(b: byte): Bytes {
    if Unreserved(b) then [b] else if b == SPACE then [PLUS] else [PERCENT, HexDigit(b / 16), HexDigit(b % 16)]
  }

  function Encoded(s: Bytes): Bytes {
    if s == [] then [] else Encoded(s[..|s| - 1]) + EncodedByte(s[|s| - 1])
  }

  method PercentEncode(s: Bytes) returns (out: Bytes)
    ensures out == Encoded(s)
  {
    out := [];
    for i := 0 to |s|
      invariant out == Encoded(s[..i])
    {
      assert s[..i + 1][..i] == s[..i];
      var b := s[i];
      if Unreserved(b) {
        out := out + [b];
      } else if b == SPACE {
        out := out + [PLUS];
      } else {
        out := out + [PERCENT];
        out := out + [HexDigit(b / 16), HexDigit(b % 16)];
      }
      assert out == Encoded(s[..i]) + EncodedByte(b);
    }
    assert s[..|s|] == s;
  }

  datatype Pair = Pair(name: Bytes, value: Bytes)

  function EncodedPair(p: Pair): Bytes { Encoded(p.name) + [EQUALS] + Encoded(p.value) }

  function Joined(parts: seq<Bytes>, sep: byte): Bytes {
    if parts == [] then []
    else if |parts| == 1 then parts[0]
    else parts[0] + [sep] + Joined(parts[1..], sep)
  }

  function EncodedPairs(pairs: seq<Pair>): seq<Bytes> {
    seq(|pairs|, i requires 0 <= i < |pairs| => EncodedPair(pairs[i]))
  }

  function EncodeQuery(pairs: seq<Pair>): Bytes { Joined(EncodedPairs(pairs), AMPERSAND) }

  // ---- the parser of section 5.1 of the WHATWG URL Standard -----------------------

  /** The pieces between separators. */
  function SplitOn(s: Bytes, sep: byte): (parts: seq<Bytes>)
    ensures |parts| > 0
  {
    if s == [] then [[]]
    else
      var rest := SplitOn(s[1..], sep);
      if s[0] == sep then [[]] + rest else [[s[0]] + rest[0]] + rest[1..]
  }

  /** What is before the first '=' and what is after it; without one, all of it and nothing. */
  function CutAtEquals(s: Bytes): Pair {
    if s == [] then Pair([], [])
    else if s[0] == EQUALS then Pair([], s[1..])
    else
      var rest := CutAtEquals(s[1..]);
      Pair([s[0]] + rest.name, rest.value)
  }

  function PlusToSpace(s: Bytes): Bytes {
    seq(|s|, i requires 0 <= i < |s| => if s[i] == PLUS then SPACE else s[i])
  }

  predicate IsHex(b: byte) { 0x30 <= b <= 0x39 || 0x41 <= b <= 0x46 || 0x61 <= b <= 0x66 }

  function HexValue(b: byte): (v: int)
    requires IsHex(b)
    ensures 0 <= v < 16
  {
    if b <= 0x39 then b - 0x30 else if b <= 0x46 then b - 0x37 else b - 0x57
  }

  function PercentDecoded(s: Bytes): Bytes {
    if s == [] then []
    else if s[0] == PERCENT && |s| >= 3 && IsHex(s[1]) && IsHex(s[2]) then
      [HexValue(s[1]) * 16 + HexValue(s[2])] + PercentDecoded(s[3..])
    else [s[0]] + PercentDecoded(s[1..])
  }

  function Decoded(s: Bytes): Bytes { PercentDecoded(PlusToSpace(s)) }

  function ParsedPair(s: Bytes): Pair {
    var cut := CutAtEquals(s);
    Pair(Decoded(cut.name), Decoded(cut.value))
  }

  function ParsedPairs(parts: seq<Bytes>): seq<Pair> {
    if parts == [] then []
    else (if parts[0] == [] then [] else [ParsedPair(parts[0])]) + ParsedPairs(parts[1..])
  }

  function Parse(s: Bytes): seq<Pair> { ParsedPairs(SplitOn(s, AMPERSAND)) }

  // ---- one component ----------------------------------------------------------------

  predicate Safe(s: Bytes) { forall b <- s :: Unreserved(b) || b == PERCENT || b == PLUS }

  /** Nothing in an encoded component can be taken for a separator. */
  lemma {:induction false} EncodedIsSafe(s: Bytes)
    ensures Safe(Encoded(s))
    ensures AMPERSAND !in Encoded(s) && EQUALS !in Encoded(s)
    decreases |s|
  {
    if s != [] {
      EncodedIsSafe(s[..|s| - 1]);
    }
  }

  lemma EncodedSnoc(s: Bytes)
    requires s != []
    ensures Encoded(s) == Encoded(s[..|s| - 1]) + EncodedByte(s[|s| - 1])
  {}

  lemma {:induction false} EncodedCons(s: Bytes)
    requires s != []
    ensures Encoded(s) == EncodedByte(s[0]) + Encoded(s[1..])
    decreases |s|
  {
    NothingDecodes();
    hide Encoded, EncodedByte;
    var n := |s| - 1;
    EncodedSnoc(s);
    if n == 0 {
      assert s[..0] == [] && s[1..] == [];
      assert [] + EncodedByte(s[0]) == EncodedByte(s[0]) + [];
    } else {
      EncodedCons(s[..n]);
      EncodedSnoc(s[1..]);
      assert s[..n][1..] == s[1..][..n - 1] && s[1..][n - 1] == s[n] && s[..n][0] == s[0];
      Associates(EncodedByte(s[0]), Encoded(s[1..][..n - 1]), EncodedByte(s[n]));
    }
  }

  lemma Associates(x: Bytes, y: Bytes, z: Bytes)
    ensures x + y + z == x + (y + z)
  {}

  /** The two digits of an escape give its byte back. */
  lemma EscapeDecodes(b: byte, rest: Bytes)
    ensures PercentDecoded([PERCENT, HexDigit(b / 16), HexDigit(b % 16)] + rest) == [b] + PercentDecoded(rest)
  {
    var s := [PERCENT, HexDigit(b / 16), HexDigit(b % 16)] + rest;
    assert s[3..] == rest;
    assert HexValue(s[1]) == b / 16 && HexValue(s[2]) == b % 16;
  }

  lemma LiteralDecodes(b: byte, rest: Bytes)
    requires b != PERCENT
    ensures PercentDecoded([b] + rest) == [b] + PercentDecoded(rest)
  {
    assert ([b] + rest)[1..] == rest;
  }

  lemma PlusConcat(a: Bytes, b: Bytes)
    ensures PlusToSpace(a + b) == PlusToSpace(a) + PlusToSpace(b)
  {}

  lemma PlusOfByte(b: byte)
    ensures PlusToSpace(EncodedByte(b)) ==
            if Unreserved(b) || b == SPACE then [b] else [PERCENT, HexDigit(b / 16), HexDigit(b % 16)]
  {}

  lemma {:induction false} DecodeInvertsEncode(s: Bytes)
    ensures Decoded(Encoded(s)) == s
    decreases |s|
  {
    hide Encoded, PercentDecoded, PlusToSpace, EncodedByte;
    if s == [] {
      NothingDecodes();
    } else {
      var b, rest := s[0], s[1..];
      EncodedCons(s);
      PlusConcat(EncodedByte(b), Encoded(rest));
      PlusOfByte(b);
      DecodeInvertsEncode(rest);
      if Unreserved(b) || b == SPACE {
        LiteralDecodes(b, PlusToSpace(Encoded(rest)));
      } else {
        EscapeDecodes(b, PlusToSpace(Encoded(rest)));
      }
      assert s == [b] + rest;
    }
  }

  lemma NothingDecodes()
    ensures Encoded([]) == [] && Decoded([]) == []
  {}

  // ---- whole queries -------------------------------------------------------------------

  lemma {:induction false} CutPair(k: Bytes, v: Bytes)
    requires EQUALS !in k
    ensures CutAtEquals(k + [EQUALS] + v) == Pair(k, v)
    decreases |k|
  {
    var s := k + [EQUALS] + v;
    if k == [] {
      assert s[1..] == v;
    } else {
      assert s[1..] == k[1..] + [EQUALS] + v;
      assert k[0] in k && forall b <- k[1..] :: b in k;
      CutPair(k[1..], v);
      assert k == [k[0]] + k[1..];
    }
  }

  lemma {:induction false} SplitFree(s: Bytes, sep: byte)
    requires sep !in s
    ensures SplitOn(s, sep) == [s]
    decreases |s|
  {
    if s != [] {
      assert s[0] in s && forall b <- s[1..] :: b in s;
      SplitFree(s[1..], sep);
      assert s == [s[0]] + s[1..];
    }
  }

  lemma {:induction false} SplitFirst(a: Bytes, sep: byte, b: Bytes)
    requires sep !in a
    ensures SplitOn(a + [sep] + b, sep) == [a] + SplitOn(b, sep)
    decreases |a|
  {
    var s := a + [sep] + b;
    if a == [] {
      assert s[1..] == b;
    } else {
      assert s[0] == a[0] && s[1..] == a[1..] + [sep] + b;
      assert a[0] in a && forall x <- a[1..] :: x in a;
      SplitFirst(a[1..], sep, b);
      assert a == [a[0]] + a[1..];
    }
  }

  lemma {:induction false} SplitInvertsJoin(parts: seq<Bytes>, sep: byte)
    requires parts != [] && forall p <- parts :: sep !in p
    ensures SplitOn(Joined(parts, sep), sep) == parts
    decreases |parts|
  {
    assert parts[0] in parts;
    if |parts| == 1 {
      SplitFree(parts[0], sep);
    } else {
      assert forall p <- parts[1..] :: p in parts;
      SplitInvertsJoin(parts[1..], sep);
      SplitFirst(parts[0], sep, Joined(parts[1..], sep));
      assert parts == [parts[0]] + parts[1..];
    }
  }

  lemma PairParses(p: Pair)
    ensures EncodedPair(p) != [] && AMPERSAND !in EncodedPair(p) && ParsedPair(EncodedPair(p)) == p
  {
    hide Encoded, Decoded;
    EncodedIsSafe(p.name);
    EncodedIsSafe(p.value);
    CutPair(Encoded(p.name), Encoded(p.value));
    DecodeInvertsEncode(p.name);
    DecodeInvertsEncode(p.value);
  }

  lemma PairsCons(pairs: seq<Pair>)
    requires pairs != []
    ensures EncodedPairs(pairs) == [EncodedPair(pairs[0])] + EncodedPairs(pairs[1..])
  {
    hide EncodedPair;
  }

  lemma PartsCons(part: Bytes, rest: seq<Bytes>)
    requires part != []
    ensures ParsedPairs([part] + rest) == [ParsedPair(part)] + ParsedPairs(rest)
  {
    hide ParsedPair;
    assert ([part] + rest)[1..] == rest;
  }

  lemma NoPairs()
    ensures ParsedPairs(EncodedPairs([])) == []
  {}

  lemma {:induction false} PairsParse(pairs: seq<Pair>)
    ensures ParsedPairs(EncodedPairs(pairs)) == pairs
    decreases |pairs|
  {
    hide EncodedPair, ParsedPair, EncodedPairs, ParsedPairs;
    if pairs == [] {
      NoPairs();
    } else {
      PairParses(pairs[0]);
      PairsParse(pairs[1..]);
      PairsCons(pairs);
      PartsCons(EncodedPair(pairs[0]), EncodedPairs(pairs[1..]));
      assert pairs == [pairs[0]] + pairs[1..];
    }
  }

  /** The standard parser gives back exactly the pairs a query was built from, in order, whatever
      bytes they hold, empty names and values included. */
  lemma ParseInvertsEncode(pairs: seq<Pair>)
    ensures Parse(EncodeQuery(pairs)) == pairs
  {
    hide EncodedPair, ParsedPair;
    if pairs == [] {
      assert SplitOn([], AMPERSAND) == [[]];
      assert ParsedPairs([[]]) == [];
    } else {
      var parts := EncodedPairs(pairs);
      forall p <- parts ensures AMPERSAND !in p {
        var i :| 0 <= i < |parts| && parts[i] == p;
        PairParses(pairs[i]);
      }
      SplitInvertsJoin(parts, AMPERSAND);
      PairsParse(pairs);
    }
  }

  /** A query is empty exactly when there are no fields: `?` is then left off the URL. */
  lemma EmptyQueryIff(pairs: seq<Pair>)
    ensures EncodeQuery(pairs) == [] <==> pairs == []
  {
    hide EncodedPair;
    if pairs != [] {
      PairParses(pairs[0]);
    }
  }

  // ---- reading the query of a URL -------------------------------------------------------

  const HASH: byte := 0x23
  const QUESTION: byte := 0x3F

  function BeforeHash(url: Bytes): Bytes {
    if url == [] || url[0] == HASH then [] else [url[0]] + BeforeHash(url[1..])
  }

  function AfterQuestion(s: Bytes): Option<Bytes> {
    if s == [] then None else if s[0] == QUESTION then Some(s[1..]) else AfterQuestion(s[1..])
  }

  /** What a URL reader takes for the query: behind the first '?' and before any '#'. */
  function QueryOf(url: Bytes): Option<Bytes> { AfterQuestion(BeforeHash(url)) }

  /** The fields a URL reader finds. */
  function FieldsOf(url: Bytes): Option<seq<Pair>> {
    var query := QueryOf(url);
    if query.Some? then Some(Parse(query.value)) else None
  }

  lemma {:induction false} BeforeHashAppend(a: Bytes, b: Bytes)
    ensures BeforeHash(a + b) == if HASH in a then BeforeHash(a) else a + BeforeHash(b)
    decreases |a|
  {
    if a == [] {
      assert a + b == b;
    } else {
      assert (a + b)[1..] == a[1..] + b && a == [a[0]] + a[1..];
      BeforeHashAppend(a[1..], b);
    }
  }

  lemma {:induction false} AfterQuestionAppend(a: Bytes, b: Bytes)
    ensures AfterQuestion(a).Some? <==> QUESTION in a
    ensures AfterQuestion(a + b) ==
            if QUESTION in a then Some(AfterQuestion(a).value + b) else AfterQuestion(b)
    decreases |a|
  {
    if a == [] {
      assert a + b == b;
    } else {
      assert (a + b)[1..] == a[1..] + b && a == [a[0]] + a[1..];
      AfterQuestionAppend(a[1..], b);
    }
  }

  lemma {:induction false} JoinedHas(parts: seq<Bytes>, sep: byte, b: byte)
    requires b != sep && forall p <- parts :: b !in p
    ensures b !in Joined(parts, sep)
    decreases |parts|
  {
    if parts != [] {
      assert parts[0] in parts && forall p <- parts[1..] :: p in parts;
      JoinedHas(parts[1..], sep, b);
    }
  }

  /** An encoded query has neither '?' nor '#'. */
  lemma QueryIsPlain(pairs: seq<Pair>)
    ensures QUESTION !in EncodeQuery(pairs) && HASH !in EncodeQuery(pairs)
  {
    hide Encoded;
    var parts := EncodedPairs(pairs);
    forall p <- parts ensures QUESTION !in p && HASH !in p {
      var i :| 0 <= i < |parts| && parts[i] == p;
      EncodedIsSafe(pairs[i].name);
      EncodedIsSafe(pairs[i].value);
    }
    JoinedHas(parts, AMPERSAND, QUESTION);
    JoinedHas(parts, AMPERSAND, HASH);
  }

  // A '?' inside a query stays in what is parsed: the fields then hold more bytes than were encoded.

  /** An escape begins the text. */
  predicate Escapes(s: Bytes) { |s| >= 3 && s[0] == PERCENT && IsHex(s[1]) && IsHex(s[2]) }

  lemma DecodeHead(s: Bytes)
    requires s != []
    ensures PercentDecoded(s) ==
            if Escapes(s) then [HexValue(s[1]) * 16 + HexValue(s[2])] + PercentDecoded(s[3..])
            else [s[0]] + PercentDecoded(s[1..])
  {}

  /** A byte that is no digit and begins no escape ends every escape before it. */
  lemma EscapesAlike(a: Bytes, c: byte, b: Bytes)
    requires a != [] && !IsHex(c)
    ensures var s := a + [c] + b;
            && s[0] == a[0] && (Escapes(s) <==> Escapes(a)) && s[1..] == a[1..] + [c] + b
            && (Escapes(a) ==> s[1] == a[1] && s[2] == a[2] && s[3..] == a[3..] + [c] + b)
  {
    var s := a + [c] + b;
    assert |a| == 1 ==> s[1] == c;
    assert |a| == 2 ==> s[2] == c;
  }

  lemma {:induction false} DecodeAround(a: Bytes, c: byte, b: Bytes)
    requires !IsHex(c) && c != PERCENT
    ensures PercentDecoded(a + [c] + b) == PercentDecoded(a) + [c] + PercentDecoded(b)
    decreases |a|, 1
  {
    NothingToDecode();
    hide PercentDecoded, IsHex;
    if a == [] {
      assert a + [c] + b == [c] + b;
      LiteralDecodes(c, b);
      assert [] + [c] + PercentDecoded(b) == [c] + PercentDecoded(b);
    } else {
      EscapesAlike(a, c, b);
      DecodeHead(a + [c] + b);
      DecodeHead(a);
      DecodeRest(a, c, b);
      var rest := if Escapes(a) then a[3..] else a[1..];
      Regroup(PercentDecoded(a)[..1], PercentDecoded(rest), [c], PercentDecoded(b));
    }
  }

  lemma NothingToDecode()
    ensures PercentDecoded([]) == []
  {}

  lemma Regroup(w: Bytes, x: Bytes, y: Bytes, z: Bytes)
    ensures w + (x + y + z) == (w + x) + y + z
  {}

  lemma DecodeRest(a: Bytes, c: byte, b: Bytes)
    requires a != [] && !IsHex(c) && c != PERCENT
    ensures PercentDecoded(a[1..] + [c] + b) == PercentDecoded(a[1..]) + [c] + PercentDecoded(b)
    ensures Escapes(a) ==> PercentDecoded(a[3..] + [c] + b) == PercentDecoded(a[3..]) + [c] + PercentDecoded(b)
    decreases |a|, 0
  {
    hide PercentDecoded;
    DecodeAround(a[1..], c, b);
    if Escapes(a) { DecodeAround(a[3..], c, b); }
  }

  lemma DecodedAround(a: Bytes, c: byte, b: Bytes)
    requires !IsHex(c) && c != PERCENT && c != PLUS
    ensures Decoded(a + [c] + b) == Decoded(a) + [c] + Decoded(b)
  {
    hide PercentDecoded;
    assert PlusToSpace(a + [c] + b) == PlusToSpace(a) + [c] + PlusToSpace(b);
    DecodeAround(PlusToSpace(a), c, PlusToSpace(b));
  }

  lemma CutHead(s: Bytes)
    requires s != []
    ensures CutAtEquals(s) ==
            if s[0] == EQUALS then Pair([], s[1..])
            else Pair([s[0]] + CutAtEquals(s[1..]).name, CutAtEquals(s[1..]).value)
  {}

  lemma {:induction false} CutAppend(a: Bytes, b: Bytes)
    ensures CutAtEquals(a + b) ==
            if EQUALS in a then Pair(CutAtEquals(a).name, CutAtEquals(a).value + b)
            else Pair(a + CutAtEquals(b).name, CutAtEquals(b).value)
    decreases |a|
  {
    hide CutAtEquals;
    if a == [] {
      assert a + b == b && a + CutAtEquals(b).name == CutAtEquals(b).name;
    } else {
      CutHead(a + b);
      CutHead(a);
      assert (a + b)[0] == a[0] && (a + b)[1..] == a[1..] + b;
      assert EQUALS in a <==> a[0] == EQUALS || EQUALS in a[1..] by { assert a == [a[0]] + a[1..]; }
      CutAppend(a[1..], b);
      HeadBack(a, CutAtEquals(b).name);
    }
  }

  lemma HeadBack(a: Bytes, x: Bytes)
    requires a != []
    ensures [a[0]] + (a[1..] + x) == a + x
  {}

  lemma {:induction false} CutIsAll(s: Bytes)
    ensures var cut := CutAtEquals(s);
            if EQUALS in s then s == cut.name + [EQUALS] + cut.value else cut == Pair(s, [])
    decreases |s|
  {
    hide CutAtEquals;
    if s == [] {
      NothingToCut();
    } else {
      var rest := CutAtEquals(s[1..]);
      assert s == [s[0]] + s[1..];
      CutHead(s);
      CutIsAll(s[1..]);
      if s[0] == EQUALS {
        assert [] + [EQUALS] + s[1..] == s;
      } else if EQUALS in s[1..] {
        Associates4(s[0], rest.name, rest.value);
      }
    }
  }

  lemma NothingToCut()
    ensures CutAtEquals([]) == Pair([], [])
  {}

  lemma Associates4(c: byte, x: Bytes, y: Bytes)
    ensures [c] + (x + [EQUALS] + y) == ([c] + x) + [EQUALS] + y
  {}

  function Weight(p: Pair): nat { |p.name| + |p.value| }

  function TotalWeight(parts: seq<Bytes>): nat {
    if parts == [] then 0 else Weight(ParsedPair(parts[0])) + TotalWeight(parts[1..])
  }

  function PairsWeight(pairs: seq<Pair>): nat {
    if pairs == [] then 0 else Weight(pairs[0]) + PairsWeight(pairs[1..])
  }

  /** A piece that is skipped as empty would weigh nothing. */
  lemma {:induction false} ParsedWeight(parts: seq<Bytes>)
    ensures PairsWeight(ParsedPairs(parts)) == TotalWeight(parts)
    decreases |parts|
  {
    if parts != [] {
      ParsedWeight(parts[1..]);
      if parts[0] == [] {
        NothingDecodes();
        assert [] + ParsedPairs(parts[1..]) == ParsedPairs(parts[1..]);
      } else {
        assert ([ParsedPair(parts[0])] + ParsedPairs(parts[1..]))[1..] == ParsedPairs(parts[1..]);
      }
    }
  }

  lemma WholeWeight(b: Bytes)
    ensures Weight(ParsedPair(b)) <= |Decoded(b)|
  {
    hide Decoded;
    CutIsAll(b);
    var cut := CutAtEquals(b);
    if EQUALS in b { DecodedAround(cut.name, EQUALS, cut.value); }
    assert Decoded([]) == [] by { NothingDecodes(); }
  }

  lemma PieceGrows(a: Bytes, b: Bytes)
    ensures Weight(ParsedPair(a + [QUESTION] + b)) > Weight(ParsedPair(b))
  {
    hide Decoded, CutAtEquals;
    var front := a + [QUESTION];
    CutAppend(a, [QUESTION] + b);
    CutAppend(front, b);
    assert a + ([QUESTION] + b) == front + b;
    assert EQUALS in front <==> EQUALS in a;
    WholeWeight(b);
    if EQUALS in a {
      var cut := CutAtEquals(a);
      assert cut.value + ([QUESTION] + b) == cut.value + [QUESTION] + b;
      DecodedAround(cut.value, QUESTION, b);
    } else {
      DecodedAround(a, QUESTION, CutAtEquals(b).name);
    }
  }

  lemma SplitHead(s: Bytes, sep: byte)
    requires s != []
    ensures var rest := SplitOn(s[1..], sep);
            SplitOn(s, sep) == if s[0] == sep then [[]] + rest else [[s[0]] + rest[0]] + rest[1..]
  {}

  lemma {:induction false} SplitAppend(a: Bytes, b: Bytes, sep: byte)
    ensures var x, y := SplitOn(a, sep), SplitOn(b, sep); var n := |x| - 1;
            SplitOn(a + b, sep) == x[..n] + [x[n] + y[0]] + y[1..]
    decreases |a|
  {
    SplitFree([], sep);
    hide SplitOn;
    var y := SplitOn(b, sep);
    if a == [] {
      assert a + b == b && [] + y[0] == y[0];
      assert y == [] + [y[0]] + y[1..];
    } else {
      assert (a + b)[1..] == a[1..] + b && (a + b)[0] == a[0];
      SplitHead(a, sep);
      SplitHead(a + b, sep);
      SplitAppend(a[1..], b, sep);
      GlueFirst(a[0], sep, SplitOn(a[1..], sep), y);
    }
  }

  lemma GlueFirst(c: byte, sep: byte, x: seq<Bytes>, y: seq<Bytes>)
    requires x != [] && y != []
    ensures var n := |x| - 1; var whole := x[..n] + [x[n] + y[0]] + y[1..];
            if c == sep then [[]] + whole == ([[]] + x)[..n + 1] + [([[]] + x)[n + 1] + y[0]] + y[1..]
            else
              var x' := [[c] + x[0]] + x[1..];
              [[c] + whole[0]] + whole[1..] == x'[..n] + [x'[n] + y[0]] + y[1..]
  {
    if c != sep && |x| == 1 {
      assert [c] + (x[0] + y[0]) == ([c] + x[0]) + y[0];
    }
  }

  lemma {:induction false} WeightAppend(a: seq<Bytes>, b: seq<Bytes>)
    ensures TotalWeight(a + b) == TotalWeight(a) + TotalWeight(b)
    decreases |a|
  {
    hide ParsedPair;
    if a == [] {
      assert a + b == b;
    } else {
      assert (a + b)[1..] == a[1..] + b;
      WeightAppend(a[1..], b);
    }
  }

  /** Anything and a '?' in front of a query changes what it parses to. */
  lemma MarkInFrontDiffers(front: Bytes, query: Bytes)
    ensures Parse(front + [QUESTION] + query) != Parse(query)
  {
    hide ParsedPairs, SplitOn, TotalWeight, ParsedPair;
    var f := front + [QUESTION];
    var x, y := SplitOn(f, AMPERSAND), SplitOn(query, AMPERSAND);
    var n := |x| - 1;
    SplitAppend(f, query, AMPERSAND);
    LastPieceMarked(front);
    var whole := x[..n] + [x[n] + y[0]] + y[1..];
    var last := x[n][..|x[n]| - 1];
    assert x[n] + y[0] == last + [QUESTION] + y[0];
    PieceGrows(last, y[0]);
    WeightAppend(x[..n] + [x[n] + y[0]], y[1..]);
    WeightAppend(x[..n], [x[n] + y[0]]);
    WeightAppend([y[0]], y[1..]);
    assert y == [y[0]] + y[1..];
    WeightOne(x[n] + y[0]);
    WeightOne(y[0]);
    ParsedWeight(whole);
    ParsedWeight(y);
  }

  lemma WeightOne(p: Bytes)
    ensures TotalWeight([p]) == Weight(ParsedPair(p))
  {
    hide ParsedPair;
    assert [p][1..] == [];
  }

  lemma LastPieceMarked(front: Bytes)
    ensures var x := SplitOn(front + [QUESTION], AMPERSAND); var last := x[|x| - 1];
            last != [] && last[|last| - 1] == QUESTION
  {
    SplitAppend(front, [QUESTION], AMPERSAND);
    SplitFree([QUESTION], AMPERSAND);
  }
}
