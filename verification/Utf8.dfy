/** UTF-8: well-formed octet sequences as in section 4 of RFC 3629, and lossy decoding
    that replaces maximal subparts by U+FFFD as in section 3.9 of the Unicode Standard. */
module Utf8 {
  newtype byte = x: int | 0 <= x < 256

  /** U+FFFD in UTF-8. */
  const REPLACEMENT: seq<byte> := [0xEF, 0xBF, 0xBD]

  // ---- The grammar -------------------------------------------------------------

  predicate Tail(b: byte) { 0x80 <= b <= 0xBF }

  /** The first two octets of UTF8-3. */
  predicate Lead3(a: byte, b: byte) {
    || (a == 0xE0 && 0xA0 <= b <= 0xBF)
    || (0xE1 <= a <= 0xEC && Tail(b))
    || (a == 0xED && 0x80 <= b <= 0x9F)
    || (0xEE <= a <= 0xEF && Tail(b))
  }

  /** The first two octets of UTF8-4. */
  predicate Lead4(a: byte, b: byte) {
    || (a == 0xF0 && 0x90 <= b <= 0xBF)
    || (0xF1 <= a <= 0xF3 && Tail(b))
    || (a == 0xF4 && 0x80 <= b <= 0x8F)
  }

  /** UTF8-char. */
  predicate IsChar(c: seq<byte>) {
    || (|c| == 1 && c[0] <= 0x7F)
    || (|c| == 2 && 0xC2 <= c[0] <= 0xDF && Tail(c[1]))
    || (|c| == 3 && Lead3(c[0], c[1]) && Tail(c[2]))
    || (|c| == 4 && Lead4(c[0], c[1]) && Tail(c[2]) && Tail(c[3]))
  }

  function Flatten(cs: seq<seq<byte>>): seq<byte> {
    if cs == [] then [] else cs[0] + Flatten(cs[1..])
  }

  /** UTF8-octets: some sequence of characters, one after the other. */
  ghost predicate WellFormed(s: seq<byte>) {
    exists cs: seq<seq<byte>> :: Flatten(cs) == s && forall i :: 0 <= i < |cs| ==> IsChar(cs[i])
  }

  /** A proper initial subsequence of a character. */
  ghost predicate IsInitial(p: seq<byte>) {
    exists c: seq<byte> :: IsChar(c) && p < c
  }

  // ---- The grammar against the code points -------------------------------------------

  /** A Unicode scalar value: a code point that is not a surrogate. */
  predicate IsScalar(v: nat) {
    v <= 0xD7FF || 0xE000 <= v <= 0x10FFFF
  }

  /** The octet that carries the last six bits of `v`, and what carries the others. */
  function LowOctet(v: nat): byte { (0x80 + v % 0x40) as byte }

  /** Section 3 of RFC 3629: distribute the bits of a scalar value over the octets. */
  function Encode(v: nat): seq<byte>
    requires IsScalar(v)
  {
    if v < 0x80 then [v as byte]
    else if v < 0x800 then [(0xC0 + v / 0x40) as byte, LowOctet(v)]
    else if v < 0x1_0000 then [(0xE0 + v / 0x1000) as byte, LowOctet(v / 0x40), LowOctet(v)]
    else [(0xF0 + v / 0x4_0000) as byte, LowOctet(v / 0x1000), LowOctet(v / 0x40), LowOctet(v)]
  }

  function Join(high: nat, octet: byte): nat
    requires Tail(octet)
  {
    high * 0x40 + (octet as nat - 0x80)
  }

  /** Put the bits of the octets together again. */
  function Decode(c: seq<byte>): nat
    requires IsChar(c)
  {
    if |c| == 1 then c[0] as nat
    else if |c| == 2 then Join(c[0] as nat - 0xC0, c[1])
    else if |c| == 3 then Join(Join(c[0] as nat - 0xE0, c[1]), c[2])
    else Join(Join(Join(c[0] as nat - 0xF0, c[1]), c[2]), c[3])
  }

  lemma SplitJoin(high: nat, octet: byte)
    requires Tail(octet)
    ensures Join(high, octet) / 0x40 == high && LowOctet(Join(high, octet)) == octet
  {
  }

  lemma JoinSplit(v: nat)
    ensures Tail(LowOctet(v)) && Join(v / 0x40, LowOctet(v)) == v
  {
  }

  lemma DecodeEncode(v: nat)
    requires IsScalar(v)
    ensures IsChar(Encode(v)) && Decode(Encode(v)) == v
  {
    JoinSplit(v);
    JoinSplit(v / 0x40);
    JoinSplit(v / 0x1000);
    NestedShifts(v);
  }

  lemma NestedShifts(v: nat)
    ensures v / 0x1000 == v / 0x40 / 0x40 && v / 0x4_0000 == v / 0x1000 / 0x40
  {
  }

  lemma EncodeDecode2(a: nat, b: byte)
    requires 2 <= a < 0x20 && Tail(b)
    ensures var v := Join(a, b); 0x80 <= v < 0x800 && v / 0x40 == a && LowOctet(v) == b
  {
    SplitJoin(a, b);
  }

  lemma EncodeDecode3(a: nat, b: byte, c: byte)
    requires a < 0x10 && Lead3((0xE0 + a) as byte, b) && Tail(c)
    ensures var v := Join(Join(a, b), c);
            0x800 <= v < 0x1_0000 && IsScalar(v) && v / 0x1000 == a && LowOctet(v / 0x40) == b && LowOctet(v) == c
  {
    SplitJoin(a, b);
    SplitJoin(Join(a, b), c);
    NestedShifts(Join(Join(a, b), c));
  }

  lemma EncodeDecode4(a: nat, b: byte, c: byte, d: byte)
    requires a < 5 && Lead4((0xF0 + a) as byte, b) && Tail(c) && Tail(d)
    ensures var v := Join(Join(Join(a, b), c), d);
            0x1_0000 <= v && IsScalar(v) && v / 0x4_0000 == a
            && LowOctet(v / 0x1000) == b && LowOctet(v / 0x40) == c && LowOctet(v) == d
  {
    SplitJoin(a, b);
    SplitJoin(Join(a, b), c);
    SplitJoin(Join(Join(a, b), c), d);
    NestedShifts(Join(Join(Join(a, b), c), d));
  }

  lemma EncodeDecode(c: seq<byte>)
    requires IsChar(c)
    ensures IsScalar(Decode(c)) && Encode(Decode(c)) == c
  {
    hide Join, LowOctet;
    if |c| == 2 {
      EncodeDecode2(c[0] as nat - 0xC0, c[1]);
    } else if |c| == 3 {
      EncodeDecode3(c[0] as nat - 0xE0, c[1], c[2]);
    } else if |c| == 4 {
      EncodeDecode4(c[0] as nat - 0xF0, c[1], c[2], c[3]);
    }
  }

  /** The octet ranges of the grammar are exactly the encodings of the scalar values: no
      surrogates, no overlong forms, nothing above U+10FFFF. */
  lemma CharactersAreScalars(c: seq<byte>)
    ensures IsChar(c) <==> exists v: nat :: IsScalar(v) && Encode(v) == c
  {
    if IsChar(c) {
      EncodeDecode(c);
    }
    if v: nat :| IsScalar(v) && Encode(v) == c {
      DecodeEncode(v);
    }
  }

  /** `a` comes before `b` in the order of their octets. */
  predicate Before(a: seq<byte>, b: seq<byte>) {
    b != [] && (a == [] || a[0] < b[0] || (a[0] == b[0] && Before(a[1..], b[1..])))
  }

  lemma BeforeMeans(a: seq<byte>, b: seq<byte>, k: nat)
    requires k < |a| && k < |b| && a[..k] == b[..k] && a[k] < b[k]
    ensures Before(a, b)
    decreases k
  {
    if k > 0 {
      assert a[0] == a[..k][0] == b[..k][0] == b[0];
      assert a[1..][..k - 1] == a[..k][1..] && b[1..][..k - 1] == b[..k][1..];
      BeforeMeans(a[1..], b[1..], k - 1);
    }
  }

  lemma OctetOrder(v: nat, w: nat)
    requires v < w
    ensures v / 0x40 < w / 0x40 || (v / 0x40 == w / 0x40 && LowOctet(v) < LowOctet(w))
  {
  }

  lemma LongerIsLater(v: nat, w: nat)
    requires IsScalar(v) && IsScalar(w) && |Encode(v)| < |Encode(w)|
    ensures Encode(v)[0] < Encode(w)[0]
  {
  }

  /** Where the encodings of equal length differ first. */
  lemma FirstDifference(v: nat, w: nat) returns (k: nat)
    requires IsScalar(v) && IsScalar(w) && v < w && |Encode(v)| == |Encode(w)|
    ensures k < |Encode(v)| && Encode(v)[..k] == Encode(w)[..k] && Encode(v)[k] < Encode(w)[k]
  {
    hide LowOctet;
    NestedShifts(v);
    NestedShifts(w);
    k := |Encode(v)| - 1;
    OctetOrder(v, w);
    if k >= 1 && v / 0x40 < w / 0x40 {
      k := k - 1;
      OctetOrder(v / 0x40, w / 0x40);
      if k >= 1 && v / 0x1000 < w / 0x1000 {
        k := k - 1;
        OctetOrder(v / 0x1000, w / 0x1000);
        if k >= 1 && v / 0x4_0000 < w / 0x4_0000 { k := k - 1; }
      }
    }
  }

  /** Section 1 of RFC 3629: octet sequences are ordered like the scalar values they encode. */
  lemma EncodeKeepsOrder(v: nat, w: nat)
    requires IsScalar(v) && IsScalar(w) && v < w
    ensures Before(Encode(v), Encode(w))
  {
    hide Encode, Before;
    EncodeLengths(v, w);
    if |Encode(v)| < |Encode(w)| {
      LongerIsLater(v, w);
      BeforeMeans(Encode(v), Encode(w), 0);
    } else {
      var k := FirstDifference(v, w);
      BeforeMeans(Encode(v), Encode(w), k);
    }
  }

  lemma EncodeLengths(v: nat, w: nat)
    requires IsScalar(v) && IsScalar(w) && v < w
    ensures 0 < |Encode(v)| <= |Encode(w)|
  {
  }

  // ---- Characters and maximal subparts at the front of a sequence ----------------

  /** The length of the character that `s` begins with, or zero. */
  function CharLen(s: seq<byte>): (n: nat)
    ensures n <= |s| && n <= 4
    ensures n > 0 ==> IsChar(s[..n])
  {
    if |s| >= 1 && IsChar(s[..1]) then 1
    else if |s| >= 2 && IsChar(s[..2]) then 2
    else if |s| >= 3 && IsChar(s[..3]) then 3
    else if |s| >= 4 && IsChar(s[..4]) then 4
    else 0
  }

  /** No character is a prefix of another one, and `CharLen` misses none. */
  lemma CharLenIsUnique(s: seq<byte>, n: nat)
    requires n <= |s| && IsChar(s[..n])
    ensures CharLen(s) == n
  {
  }

  /** A computable form of `IsInitial`, for nonempty sequences. */
  predicate IsStart(p: seq<byte>) {
    || (|p| == 1 && 0xC2 <= p[0] <= 0xF4)
    || (|p| == 2 && (Lead3(p[0], p[1]) || Lead4(p[0], p[1])))
    || (|p| == 3 && Lead4(p[0], p[1]) && Tail(p[2]))
  }

  lemma StartIsInitial(p: seq<byte>)
    requires p != []
    ensures IsStart(p) <==> IsInitial(p)
  {
    if IsStart(p) {
      var t: seq<byte> := [0x80];
      var c :=
        if |p| == 3 then p + t
        else if |p| == 2 then (if Lead3(p[0], p[1]) then p + t else p + t + t)
        else if p[0] <= 0xDF then p + t
        else if p[0] == 0xE0 then p + [0xA0] + t
        else if p[0] <= 0xEF then p + t + t
        else if p[0] == 0xF0 then p + [0x90] + t + t
        else p + t + t + t;
      assert IsChar(c) && p < c;
    }
    if IsInitial(p) {
      var c :| IsChar(c) && p < c;
    }
  }

  /** How many bytes one U+FFFD stands for where no character begins. */
  function SubpartLen(s: seq<byte>): (n: nat)
    requires s != []
    ensures 1 <= n <= |s| && n <= 3
  {
    if |s| >= 3 && IsStart(s[..3]) then 3
    else if |s| >= 2 && IsStart(s[..2]) then 2
    else 1
  }

  /** Definition D93b: the longest initial subsequence of a character at the front of `s`,
      or one byte if there is none. */
  ghost predicate IsMaximalSubpart(s: seq<byte>, n: nat) {
    && 1 <= n <= |s|
    && (n == 1 || IsInitial(s[..n]))
    && forall m :: n < m <= |s| ==> !IsInitial(s[..m])
  }

  /** `SubpartLen` is the one and only length of a maximal subpart. */
  lemma SubpartIsMaximal(s: seq<byte>, n: nat)
    requires s != []
    ensures IsMaximalSubpart(s, n) <==> n == SubpartLen(s)
  {
    forall m | 0 < m <= |s| ensures IsInitial(s[..m]) <==> IsStart(s[..m]) {
      StartIsInitial(s[..m]);
    }
    assert |s| >= 3 ==> s[..3][..2] == s[..2];
  }

  // ---- Well-formedness -------------------------------------------------------------

  predicate Valid(s: seq<byte>)
    decreases |s|
  {
    s == [] || (CharLen(s) > 0 && Valid(s[CharLen(s)..]))
  }

  lemma {:induction false} PrependChar(c: seq<byte>, s: seq<byte>)
    requires IsChar(c)
    ensures CharLen(c + s) == |c| && (c + s)[|c|..] == s
    ensures Valid(c + s) <==> Valid(s)
  {
    assert (c + s)[..|c|] == c;
    CharLenIsUnique(c + s, |c|);
  }

  /** The recursive test accepts just what the grammar generates. */
  lemma ValidIsWellFormed(s: seq<byte>)
    ensures Valid(s) <==> WellFormed(s)
  {
    if Valid(s) {
      var cs := Parse(s);
      assert Flatten(cs) == s;
    }
    if WellFormed(s) {
      var cs :| Flatten(cs) == s && forall i :: 0 <= i < |cs| ==> IsChar(cs[i]);
      GeneratedIsValid(cs);
    }
  }

  lemma {:induction false} Parse(s: seq<byte>) returns (cs: seq<seq<byte>>)
    requires Valid(s)
    ensures Flatten(cs) == s && forall i :: 0 <= i < |cs| ==> IsChar(cs[i])
    decreases |s|
  {
    if s == [] {
      cs := [];
    } else {
      var n := CharLen(s);
      var rest := Parse(s[n..]);
      cs := [s[..n]] + rest;
      assert cs[1..] == rest && s == s[..n] + s[n..];
    }
  }

  lemma {:induction false} GeneratedIsValid(cs: seq<seq<byte>>)
    requires forall i :: 0 <= i < |cs| ==> IsChar(cs[i])
    ensures Valid(Flatten(cs))
  {
    if cs != [] {
      GeneratedIsValid(cs[1..]);
      PrependChar(cs[0], Flatten(cs[1..]));
    }
  }

  /** What comes after the first character does not change it. */
  lemma CharLenAppend(a: seq<byte>, b: seq<byte>)
    requires CharLen(a) > 0
    ensures var n := CharLen(a);
            CharLen(a + b) == n && (a + b)[..n] == a[..n] && (a + b)[n..] == a[n..] + b
  {
    var n := CharLen(a);
    assert (a + b)[..n] == a[..n];
    CharLenIsUnique(a + b, n);
  }

  lemma {:induction false} ValidAppend(a: seq<byte>, b: seq<byte>)
    requires Valid(a) && Valid(b)
    ensures Valid(a + b)
    decreases |a|
  {
    if a == [] {
      assert a + b == b;
    } else {
      hide IsChar, CharLen;
      CharLenAppend(a, b);
      ValidAppend(a[CharLen(a)..], b);
    }
  }

  // ---- Lossy decoding ----------------------------------------------------------------

  /** Keep the characters and put one U+FFFD for every maximal subpart. */
  function Lossy(s: seq<byte>): seq<byte>
    decreases |s|
  {
    if s == [] then []
    else if CharLen(s) > 0 then s[..CharLen(s)] + Lossy(s[CharLen(s)..])
    else REPLACEMENT + Lossy(s[SubpartLen(s)..])
  }

  /** A piece of a message: a character, or a maximal subpart that takes the place of one. */
  datatype Part = Text(bytes: seq<byte>) | Garbage(bytes: seq<byte>)

  /** `parts` cuts `s` up the way section 3.9 says, in terms of the grammar alone. */
  ghost predicate IsDecomposition(s: seq<byte>, parts: seq<Part>)
    decreases |parts|
  {
    if parts == [] then s == []
    else
      var b := parts[0].bytes;
      && b != [] && b <= s
      && (if parts[0].Text? then IsChar(b)
          else (forall m :: 0 <= m <= |s| ==> !IsChar(s[..m])) && IsMaximalSubpart(s, |b|))
      && IsDecomposition(s[|b|..], parts[1..])
  }

  function TextOf(parts: seq<Part>): seq<byte> {
    if parts == [] then []
    else (if parts[0].Text? then parts[0].bytes else Encode(0xFFFD)) + TextOf(parts[1..])
  }

  lemma ReplacementIsFffd()
    ensures REPLACEMENT == Encode(0xFFFD)
  {
  }

  /** Every decomposition yields the lossy decoding ... */
  lemma {:induction false} DecompositionsYieldLossy(s: seq<byte>, parts: seq<Part>)
    requires IsDecomposition(s, parts)
    ensures TextOf(parts) == Lossy(s)
    decreases |parts|
  {
    if parts != [] {
      var b := parts[0].bytes;
      DecompositionsYieldLossy(s[|b|..], parts[1..]);
      assert s[..|b|] == b;
      if parts[0].Text? {
        CharLenIsUnique(s, |b|);
      } else {
        SubpartIsMaximal(s, |b|);
        ReplacementIsFffd();
      }
    }
  }

  /** ... and every message has one. */
  lemma {:induction false} Decompose(s: seq<byte>) returns (parts: seq<Part>)
    ensures IsDecomposition(s, parts)
    decreases |s|
  {
    if s == [] { return []; }
    var n := CharLen(s);
    if n > 0 {
      var rest := Decompose(s[n..]);
      parts := [Text(s[..n])] + rest;
      assert parts[1..] == rest;
    } else {
      n := SubpartLen(s);
      SubpartIsMaximal(s, n);
      forall m | 0 <= m <= |s| ensures !IsChar(s[..m]) {
        if IsChar(s[..m]) { CharLenIsUnique(s, m); }
      }
      var rest := Decompose(s[n..]);
      parts := [Garbage(s[..n])] + rest;
      assert parts[1..] == rest;
    }
  }

  lemma {:induction false} LossyIsValid(s: seq<byte>)
    ensures Valid(Lossy(s))
    decreases |s|
  {
    if s == [] {
    } else if CharLen(s) > 0 {
      LossyIsValid(s[CharLen(s)..]);
      PrependChar(s[..CharLen(s)], Lossy(s[CharLen(s)..]));
    } else {
      LossyIsValid(s[SubpartLen(s)..]);
      PrependChar(REPLACEMENT, Lossy(s[SubpartLen(s)..]));
    }
  }

  lemma {:induction false} LossyKeepsValid(s: seq<byte>)
    requires Valid(s)
    ensures Lossy(s) == s
    decreases |s|
  {
    if s != [] { LossyKeepsValid(s[CharLen(s)..]); }
  }

  /** Lossy decoding changes nothing just when there is nothing to repair, and its output
      never needs repair. */
  lemma LossyFixpoints(s: seq<byte>)
    ensures Lossy(s) == s <==> WellFormed(s)
    ensures WellFormed(Lossy(s))
    ensures Lossy(Lossy(s)) == Lossy(s)
  {
    LossyIsValid(s);
    LossyKeepsValid(Lossy(s));
    ValidIsWellFormed(s);
    ValidIsWellFormed(Lossy(s));
    if Valid(s) { LossyKeepsValid(s); }
  }

  lemma Associative(a: seq<byte>, b: seq<byte>, c: seq<byte>)
    ensures (a + b) + c == a + (b + c)
  {
  }

  /** One step of lossy decoding, where a character begins and where none does. */
  lemma LossyStep(s: seq<byte>)
    requires s != []
    ensures Lossy(s) == if CharLen(s) > 0 then s[..CharLen(s)] + Lossy(s[CharLen(s)..])
                        else REPLACEMENT + Lossy(s[SubpartLen(s)..])
  {
  }

  /** A valid front is copied and does not influence what follows. */
  lemma {:induction false} LossyAppend(a: seq<byte>, b: seq<byte>)
    requires Valid(a)
    ensures Lossy(a + b) == a + Lossy(b)
    decreases |a|
  {
    if a == [] {
      assert a + b == b;
    } else {
      hide IsChar, CharLen, SubpartLen, Lossy;
      var n := CharLen(a);
      var front, rest := a[..n], a[n..];
      LossyAppend(rest, b);
      calc {
        Lossy(a + b);
        { CharLenAppend(a, b); LossyStep(a + b); }
        front + Lossy(rest + b);
        front + (rest + Lossy(b));
        { Associative(front, rest, Lossy(b)); }
        (front + rest) + Lossy(b);
        { assert front + rest == a; }
        a + Lossy(b);
      }
    }
  }

  lemma {:induction false} LossyLength(s: seq<byte>)
    ensures |Lossy(s)| <= 3 * |s|
    decreases |s|
  {
    if s == [] {
    } else if CharLen(s) > 0 {
      LossyLength(s[CharLen(s)..]);
    } else {
      LossyLength(s[SubpartLen(s)..]);
    }
  }

  /** The bound of three is attained at every length, by bytes that never occur in UTF-8. */
  lemma {:induction false} LossyLengthIsTight(s: seq<byte>)
    requires forall i :: 0 <= i < |s| ==> s[i] == 0xFF
    ensures |Lossy(s)| == 3 * |s|
    decreases |s|
  {
    if s != [] {
      assert CharLen(s) == 0 && SubpartLen(s) == 1;
      LossyLengthIsTight(s[1..]);
    }
  }

  // ---- Chunks ------------------------------------------------------------------------

  /** A chunk of a message: text, and the maximal subpart that ends it unless the message does. */
  datatype Chunk = Chunk(valid: seq<byte>, invalid: seq<byte>)

  /** `valid` and `invalid` are the first chunk of `s`, and `rest` is what follows. */
  predicate IsFirstChunk(s: seq<byte>, c: Chunk, rest: seq<byte>) {
    && s == c.valid + c.invalid + rest
    && Valid(c.valid)
    && (c.invalid == [] ==> rest == [])
    && (c.invalid != [] ==> CharLen(c.invalid + rest) == 0 && |c.invalid| == SubpartLen(c.invalid + rest))
  }

  /** What a chunk contributes to the lossy decoding. */
  function ChunkText(c: Chunk): seq<byte> {
    c.valid + if c.invalid == [] then [] else REPLACEMENT
  }

  lemma LossyOfChunk(s: seq<byte>, c: Chunk, rest: seq<byte>)
    requires IsFirstChunk(s, c, rest)
    ensures Lossy(s) == ChunkText(c) + Lossy(rest)
    ensures c.invalid == [] <==> Valid(s)
  {
    hide IsChar, CharLen, SubpartLen, Valid, Lossy;
    if c.invalid == [] {
      assert s == c.valid;
      LossyKeepsValid(s);
      LossyStep0();
    } else {
      var tail := c.invalid + rest;
      assert s == c.valid + tail;
      calc {
        Lossy(s);
        { LossyAppend(c.valid, tail); }
        c.valid + Lossy(tail);
        { LossyStep(tail); assert tail[|c.invalid|..] == rest; }
        c.valid + (REPLACEMENT + Lossy(rest));
        { Associative(c.valid, REPLACEMENT, Lossy(rest)); }
        ChunkText(c) + Lossy(rest);
      }
      InvalidChunk(c.valid, tail);
    }
  }

  lemma LossyStep0()
    ensures Lossy([]) == []
  {
  }

  lemma {:induction false} InvalidChunk(a: seq<byte>, b: seq<byte>)
    requires Valid(a) && b != [] && CharLen(b) == 0
    ensures !Valid(a + b)
    decreases |a|
  {
    if a == [] {
      assert a + b == b;
    } else {
      CharLenAppend(a, b);
      InvalidChunk(a[CharLen(a)..], b);
    }
  }

  /** The valid part of a first chunk is the longest valid front of the message. */
  lemma FirstChunkIsLongest(s: seq<byte>, c: Chunk, rest: seq<byte>, m: nat)
    requires IsFirstChunk(s, c, rest) && m <= |s| && Valid(s[..m])
    ensures m <= |c.valid|
  {
    if m > |c.valid| {
      hide IsChar, CharLen, SubpartLen, Valid;
      var tail := c.invalid + rest;
      assert |s| == |c.valid| + |tail| && c.invalid != [];
      var t := tail[..m - |c.valid|];
      assert s == c.valid + tail;
      assert s[..m] == c.valid + t && |t| > 0;
      NoCharAhead(tail, |t|);
      InvalidChunk(c.valid, t);
    }
  }

  lemma NoCharAhead(s: seq<byte>, m: nat)
    requires CharLen(s) == 0 && m <= |s|
    ensures CharLen(s[..m]) == 0
  {
    var k := CharLen(s[..m]);
    assert s[..m][..k] == s[..k];
    if k > 0 { CharLenIsUnique(s, k); }
  }
}
