/** UTF-8 validity and span checks, in the three languages of the repository.

    Section 4 of RFC 3629 gives the well-formed byte sequences as a grammar; section 3 gives the
    encoding of each scalar value.  The C++ validator works on neither: it assembles a code point
    and compares numbers.  Bit masks are written as division and remainder: `d & 0xC0 == 0x80`
    is `d / 64 == 2`, `d & 63` is `d % 64`, and `(cp << 6) | x` is `cp * 64 + x`. */
module Utf8 {

  type Byte = x: nat | x < 256

  // ---------------------------------------------------------------- the grammar

  predicate Tail(b: Byte) { 0x80 <= b <= 0xBF }

  /** The first `n` bytes are a UTF8-n of the grammar. */
  predicate Char(s: seq<Byte>, n: nat) {
    && n <= |s|
    && match n {
         case 1 => s[0] <= 0x7F
         case 2 => 0xC2 <= s[0] <= 0xDF && Tail(s[1])
         case 3 =>
           && Tail(s[1]) && Tail(s[2])
           && (|| (s[0] == 0xE0 && 0xA0 <= s[1] <= 0xBF)
               || 0xE1 <= s[0] <= 0xEC
               || (s[0] == 0xED && 0x80 <= s[1] <= 0x9F)
               || 0xEE <= s[0] <= 0xEF)
         case 4 =>
           && Tail(s[1]) && Tail(s[2]) && Tail(s[3])
           && (|| (s[0] == 0xF0 && 0x90 <= s[1] <= 0xBF)
               || 0xF1 <= s[0] <= 0xF3
               || (s[0] == 0xF4 && 0x80 <= s[1] <= 0x8F))
         case _ => false
       }
  }

  /** The length of the character at the front, or 0 if there is none. */
  function CharLength(s: seq<Byte>): (n: nat)
    ensures n > 0 ==> Char(s, n)
    ensures n == 0 ==> forall m: nat :: !Char(s, m)
    ensures n <= |s|
  {
    if Char(s, 1) then 1 else if Char(s, 2) then 2 else if Char(s, 3) then 3 else if Char(s, 4) then 4
    else
      assert forall m: nat :: m != 1 && m != 2 && m != 3 && m != 4 ==> !Char(s, m);
      0
  }

  /** UTF8-octets: a sequence of characters. */
  predicate WellFormed(s: seq<Byte>) {
    s == [] || (CharLength(s) > 0 && WellFormed(s[CharLength(s)..]))
  }

  lemma {:induction false} LengthIsUnique(s: seq<Byte>, m: nat, n: nat)
    requires Char(s, m) && Char(s, n)
    ensures m == n
  {
  }

  // ---------------------------------------------------------------- the encoding

  predicate IsScalar(cp: nat) { cp <= 0x10FFFF && !(0xD800 <= cp <= 0xDFFF) }

  function Encode(cp: nat): seq<Byte>
    requires IsScalar(cp)
  {
    if cp < 0x80 then [cp]
    else if cp < 0x800 then [0xC0 + cp / 64, 0x80 + cp % 64]
    else if cp < 0x10000 then [0xE0 + cp / 64 / 64, 0x80 + cp / 64 % 64, 0x80 + cp % 64]
    else [0xF0 + cp / 64 / 64 / 64, 0x80 + cp / 64 / 64 % 64, 0x80 + cp / 64 % 64, 0x80 + cp % 64]
  }

  function Value(b: Byte): nat { b }

  /** The code point after `k` of the `n` bytes that follow the lead byte. */
  function Partial(s: seq<Byte>, n: nat, k: nat): nat
    requires 0 < n <= 3 && k <= n < |s|
  {
    if k == 0 then (if n == 1 then Value(s[0]) % 32 else if n == 2 then Value(s[0]) % 16 else Value(s[0]) % 8)
    else Partial(s, n, k - 1) * 64 + Value(s[k]) % 64
  }

  /** The code point the validator assembles from a lead byte and `n - 1` more. */
  function Assembled(s: seq<Byte>, n: nat): nat
    requires 0 < n <= 4 && n <= |s|
  {
    if n == 1 then Value(s[0]) else Partial(s, n - 1, n - 1)
  }

  lemma {:induction false} Split64(q: nat, r: nat)
    requires r < 64
    ensures (q * 64 + r) / 64 == q && (q * 64 + r) % 64 == r
  {
  }

  lemma {:induction false} TailBits(d: Byte)
    ensures Tail(d) <==> Value(d) / 64 == 2
    ensures Tail(d) ==> Value(d) % 64 == d - 0x80
  {
  }

  lemma {:induction false} LeadBits(c: Byte)
    ensures 0xC0 <= c <= 0xDF ==> Value(c) % 32 == c - 0xC0
    ensures 0xE0 <= c <= 0xEF ==> Value(c) % 16 == c - 0xE0
    ensures 0xF0 <= c <= 0xF7 ==> Value(c) % 8 == c - 0xF0
  {
  }

  lemma {:induction false} Assembled2(s: seq<Byte>)
    requires |s| >= 2 && 0xC0 <= s[0] <= 0xDF && Tail(s[1])
    ensures Assembled(s, 2) == (Value(s[0]) - 0xC0) * 64 + (Value(s[1]) - 0x80)
  {
    LeadBits(s[0]);
    TailBits(s[1]);
    assert Partial(s, 1, 1) == Partial(s, 1, 0) * 64 + Value(s[1]) % 64;
  }

  lemma {:induction false} Assembled3(s: seq<Byte>)
    requires |s| >= 3 && 0xE0 <= s[0] <= 0xEF && Tail(s[1]) && Tail(s[2])
    ensures Assembled(s, 3) == ((Value(s[0]) - 0xE0) * 64 + (Value(s[1]) - 0x80)) * 64 + (Value(s[2]) - 0x80)
  {
    LeadBits(s[0]);
    TailBits(s[1]);
    TailBits(s[2]);
    assert Partial(s, 2, 1) == Partial(s, 2, 0) * 64 + Value(s[1]) % 64;
    assert Partial(s, 2, 2) == Partial(s, 2, 1) * 64 + Value(s[2]) % 64;
  }

  lemma {:induction false} Assembled4(s: seq<Byte>)
    requires |s| >= 4 && 0xF0 <= s[0] <= 0xF7 && Tail(s[1]) && Tail(s[2]) && Tail(s[3])
    ensures Assembled(s, 4) == (((Value(s[0]) - 0xF0) * 64 + (Value(s[1]) - 0x80)) * 64 + (Value(s[2]) - 0x80)) * 64
        + (Value(s[3]) - 0x80)
  {
    LeadBits(s[0]);
    TailBits(s[1]);
    TailBits(s[2]);
    TailBits(s[3]);
    assert Partial(s, 3, 1) == Partial(s, 3, 0) * 64 + Value(s[1]) % 64;
    assert Partial(s, 3, 2) == Partial(s, 3, 1) * 64 + Value(s[2]) % 64;
    assert Partial(s, 3, 3) == Partial(s, 3, 2) * 64 + Value(s[3]) % 64;
  }

  /** A character of the grammar is the encoding of the scalar value it assembles to. */
  lemma {:induction false} CharEncodes(s: seq<Byte>, n: nat)
    requires Char(s, n)
    ensures IsScalar(Assembled(s, n)) && Encode(Assembled(s, n)) == s[..n]
  {
    hide Assembled;
    match n {
      case 1 => AssembledOne(s);
      case 2 =>
        Assembled2(s);
        Split64(Value(s[0]) - 0xC0, Value(s[1]) - 0x80);
      case 3 =>
        Assembled3(s);
        Split64((Value(s[0]) - 0xE0) * 64 + (Value(s[1]) - 0x80), Value(s[2]) - 0x80);
        Split64(Value(s[0]) - 0xE0, Value(s[1]) - 0x80);
      case 4 =>
        Assembled4(s);
        Split64(((Value(s[0]) - 0xF0) * 64 + (Value(s[1]) - 0x80)) * 64 + (Value(s[2]) - 0x80), Value(s[3]) - 0x80);
        Split64((Value(s[0]) - 0xF0) * 64 + (Value(s[1]) - 0x80), Value(s[2]) - 0x80);
        Split64(Value(s[0]) - 0xF0, Value(s[1]) - 0x80);
    }
  }

  lemma {:induction false} AssembledOne(s: seq<Byte>)
    requires s != []
    ensures Assembled(s, 1) == s[0]
  {
  }

  /** The encoding of a scalar value is one character of the grammar. */
  lemma {:induction false} EncodeIsChar(cp: nat, rest: seq<Byte>)
    requires IsScalar(cp)
    ensures Char(Encode(cp) + rest, |Encode(cp)|)
    ensures Assembled(Encode(cp) + rest, |Encode(cp)|) == cp
  {
    var s, n := Encode(cp) + rest, |Encode(cp)|;
    assert s[..n] == Encode(cp);
    match n {
      case 1 => AssembledOne(s);
      case 2 => Assembled2(s);
      case 3 => Assembled3(s);
      case 4 => Assembled4(s);
    }
  }

  function EncodeAll(cps: seq<nat>): seq<Byte>
    requires forall i :: 0 <= i < |cps| ==> IsScalar(cps[i])
  {
    if cps == [] then []
    else
      assert IsScalar(cps[0]);
      Encode(cps[0]) + EncodeAll(cps[1..])
  }

  function DecodeAll(s: seq<Byte>): seq<nat>
    requires WellFormed(s)
  {
    if s == [] then [] else [Assembled(s, CharLength(s))] + DecodeAll(s[CharLength(s)..])
  }

  /** Well-formed text is exactly the encodings of sequences of scalar values. */
  lemma {:induction false} DecodeThenEncode(s: seq<Byte>)
    requires WellFormed(s)
    ensures forall i :: 0 <= i < |DecodeAll(s)| ==> IsScalar(DecodeAll(s)[i])
    ensures EncodeAll(DecodeAll(s)) == s
  {
    if s != [] {
      var n := CharLength(s);
      var cp, rest := Assembled(s, n), s[n..];
      assert DecodeAll(s) == [cp] + DecodeAll(rest) && WellFormed(rest);
      CharEncodes(s, n);
      assert s == s[..n] + rest;
      hide Char, Encode, Assembled, IsScalar, DecodeAll, WellFormed;
      DecodeThenEncode(rest);
      EncodeCons(cp, DecodeAll(rest));
    }
  }

  lemma {:induction false} EncodeCons(cp: nat, cps: seq<nat>)
    requires IsScalar(cp) && forall i :: 0 <= i < |cps| ==> IsScalar(cps[i])
    ensures EncodeAll([cp] + cps) == Encode(cp) + EncodeAll(cps)
  {
    assert ([cp] + cps)[1..] == cps;
  }

  lemma {:induction false} EncodeThenDecode(cps: seq<nat>)
    requires forall i :: 0 <= i < |cps| ==> IsScalar(cps[i])
    ensures WellFormed(EncodeAll(cps)) && DecodeAll(EncodeAll(cps)) == cps
  {
    if cps != [] {
      var rest := EncodeAll(cps[1..]);
      EncodeThenDecode(cps[1..]);
      EncodeIsChar(cps[0], rest);
      var s := EncodeAll(cps);
      LengthIsUnique(s, CharLength(s), |Encode(cps[0])|);
      assert s[|Encode(cps[0])|..] == rest;
    }
  }

  // ---------------------------------------------------------------- strings

  /** A character is a scalar value. */
  function Scalars(s: string): (r: seq<nat>)
    ensures |r| == |s| && forall i :: 0 <= i < |r| ==> r[i] == s[i] as int && IsScalar(r[i])
  {
    seq(|s|, i requires 0 <= i < |s| => s[i] as int)
  }

  function Character(cp: nat): (c: char)
    requires IsScalar(cp)
    ensures c as int == cp
  {
    cp as char
  }

  function Characters(cps: seq<nat>): (r: string)
    requires forall i :: 0 <= i < |cps| ==> IsScalar(cps[i])
    ensures |r| == |cps| && forall i :: 0 <= i < |r| ==> r[i] as int == cps[i]
  {
    seq(|cps|, i requires 0 <= i < |cps| => Character(cps[i]))
  }

  /** The bytes of a string. */
  function TextBytes(s: string): seq<Byte> { EncodeAll(Scalars(s)) }

  /** The string of well-formed bytes. */
  function TextOf(b: seq<Byte>): string
    requires WellFormed(b)
  {
    DecodeThenEncode(b);
    Characters(DecodeAll(b))
  }

  lemma {:induction false} TextRoundTrip(s: string)
    ensures WellFormed(TextBytes(s)) && TextOf(TextBytes(s)) == s
  {
    EncodeThenDecode(Scalars(s));
    assert Characters(Scalars(s)) == s;
  }

  // ---------------------------------------------------------------- valid_utf8

  /** How many bytes must follow a lead byte, if it can lead, and the least code point. */
  function Follow(c: Byte): (r: nat) {
    if 0xC2 <= c <= 0xDF then 1 else if 0xE0 <= c <= 0xEF then 2 else if 0xF0 <= c <= 0xF4 then 3 else 0
  }

  /** The numeric test accepts exactly the characters of the grammar. */
  lemma {:induction false} NumericTest(s: seq<Byte>, n: nat)
    requires s != [] && s[0] >= 0x80 && n == 1 + Follow(s[0]) && 2 <= n <= |s|
    requires forall i :: 1 <= i < n ==> Tail(s[i])
    ensures
      var cp, min := Assembled(s, n), if n == 2 then 0x80 else if n == 3 then 0x800 else 0x10000;
      Char(s, n) <==> !(cp < min || cp > 0x10FFFF || 0xD800 <= cp <= 0xDFFF)
  {
    hide Assembled;
    if n == 2 { Assembled2(s); } else if n == 3 { Assembled3(s); } else { Assembled4(s); }
  }

  lemma {:induction false} LeadDecides(s: seq<Byte>, n: nat)
    requires Char(s, n)
    ensures n == if s[0] < 0x80 then 1 else 1 + Follow(s[0])
    ensures forall i :: 1 <= i < n ==> Tail(s[i])
    ensures !Tail(s[0]) && (n == 1 <==> s[0] < 0x80)
  {
  }

  /** Text begins with the character its lead byte announces. */
  lemma {:induction false} Front(s: seq<Byte>, n: nat)
    requires s != [] && n == if s[0] < 0x80 then 1 else 1 + Follow(s[0])
    ensures WellFormed(s) <==> Char(s, n) && WellFormed(s[n..])
    ensures Char(s, n) ==> n <= |s| && (n == 1 <==> s[0] < 0x80) && forall i :: 1 <= i < n ==> Tail(s[i])
  {
    var m := CharLength(s);
    if m > 0 { LeadDecides(s, m); }
    if Char(s, n) { LengthIsUnique(s, m, n); LeadDecides(s, n); }
    hide Char, Tail;
  }

  /** The following bytes of a character: whether all are tails, and the code point. */
  method AssembleTails(s: seq<Byte>, n: nat) returns (ok: bool, cp: nat)
    requires 0 < n <= 3 && n < |s|
    ensures ok <==> forall j :: 1 <= j <= n ==> Tail(s[j])
    ensures ok ==> cp == Assembled(s, n + 1)
  {
    cp := if n == 1 then Value(s[0]) % 32 else if n == 2 then Value(s[0]) % 16 else Value(s[0]) % 8;
    var k := 0;
    while k < n
      invariant k <= n && cp == Partial(s, n, k)
      invariant forall j :: 1 <= j <= k ==> Tail(s[j])
    {
      k := k + 1;
      TailBits(s[k]);
      if Value(s[k]) / 64 != 2 { return false, cp; }
      cp := cp * 64 + Value(s[k]) % 64;
    }
    ok := true;
  }

  method ValidUtf8(s: seq<Byte>) returns (ok: bool)
    ensures ok <==> WellFormed(s)
  {
    hide Char, Tail, WellFormed, Assembled;
    var i := 0;
    while i < |s|
      invariant i <= |s| && (WellFormed(s) <==> WellFormed(s[i..]))
    {
      var rest, c := s[i..], s[i];
      Front(rest, if c < 0x80 then 1 else 1 + Follow(c));
      i := i + 1;
      if c < 0x80 {
        Ascii(rest);
        assert s[i..] == rest[1..];
        continue;
      }
      var n := Follow(c);
      var min := if n == 1 then 0x80 else if n == 2 then 0x800 else 0x10000;
      if n == 0 || i + n > |s| { return false; }
      var tails, cp := AssembleTails(rest, n);
      if !tails { return false; }
      NumericTest(rest, n + 1);
      if cp < min || cp > 0x10FFFF || 0xD800 <= cp <= 0xDFFF { return false; }
      i := i + n;
      assert s[i..] == rest[n + 1..];
    }
    assert s[i..] == [];
    ok := true;
    assert WellFormed([]) by { EmptyText(); }
  }

  lemma {:induction false} EmptyText()
    ensures WellFormed([])
  {
  }

  lemma {:induction false} Ascii(s: seq<Byte>)
    requires s != [] && s[0] < 0x80
    ensures Char(s, 1)
  {
  }

  // ---------------------------------------------------------------- boundaries

  predicate Boundary(s: seq<Byte>, i: nat)
    requires i <= |s|
  {
    i == |s| || Value(s[i]) / 64 != 2
  }

  /** A proper prefix of a character is not text. */
  lemma {:induction false} TruncatedIsIllFormed(s: seq<Byte>, n: nat, i: nat)
    requires Char(s, n) && 0 < i < n
    ensures !WellFormed(s[..i])
  {
    var m := CharLength(s[..i]);
    if m > 0 {
      assert Char(s, m);
      LengthIsUnique(s, m, n);
    }
  }

  lemma {:induction false} CharPrefix(s: seq<Byte>, n: nat, i: nat)
    requires n <= i <= |s|
    ensures Char(s[..i], n) <==> Char(s, n)
  {
  }

  lemma {:induction false} Slices(s: seq<Byte>, n: nat, i: nat)
    requires n <= i <= |s|
    ensures s[..i][n..] == s[n..][..i - n] && s[n..][i - n..] == s[i..]
    ensures i < |s| ==> s[n..][i - n] == s[i]
  {
  }

  /** In well-formed text a position is a character boundary exactly when the text before it is
      well formed; the text after it then is too. */
  lemma {:induction false} BoundaryExactly(s: seq<Byte>, i: nat)
    requires WellFormed(s) && i <= |s|
    ensures Boundary(s, i) <==> WellFormed(s[..i])
    ensures Boundary(s, i) ==> WellFormed(s[i..])
  {
    if s == [] || i == 0 {
      assert s[..0] == [] && s[0..] == s;
      if s != [] { LeadDecides(s, CharLength(s)); }
    } else {
      var n := CharLength(s);
      LeadDecides(s, n);
      if i < n {
        TruncatedIsIllFormed(s, n, i);
        TailBits(s[i]);
      } else {
        CharPrefix(s, n, i);
        LengthIsUnique(s[..i], CharLength(s[..i]), n);
        Slices(s, n, i);
        hide Char, Tail;
        BoundaryExactly(s[n..], i - n);
      }
    }
  }

  // ---------------------------------------------------------------- the three span checks

  predicate CppAccepts(s: seq<Byte>, start: nat, end: nat) {
    WellFormed(s) && start <= end <= |s| && Boundary(s, start) && Boundary(s, end)
  }

  /** str::is_char_boundary */
  predicate IsCharBoundary(s: seq<Byte>, i: nat) {
    i == 0 || (if i >= |s| then i == |s| else !(0x80 <= s[i] < 0xC0))
  }

  predicate RustAccepts(s: seq<Byte>, start: nat, end: nat) {
    WellFormed(s) && start <= end <= |s| && IsCharBoundary(s, start) && IsCharBoundary(s, end)
  }

  predicate PythonAccepts(s: seq<Byte>, start: int, end: int) {
    WellFormed(s) && 0 <= start <= end <= |s| && WellFormed(s[..start]) && WellFormed(s[..end])
  }

  /** The three implementations agree on every input, and what they accept is text. */
  lemma {:induction false} SpanChecksAgree(s: seq<Byte>, start: nat, end: nat)
    ensures CppAccepts(s, start, end) <==> RustAccepts(s, start, end)
    ensures CppAccepts(s, start, end) <==> PythonAccepts(s, start, end)
    ensures CppAccepts(s, start, end) ==> WellFormed(s[start..end])
  {
    if WellFormed(s) && start <= end <= |s| {
      BoundaryExactly(s, start);
      BoundaryExactly(s, end);
      FirstIsBoundary(s);
      if Boundary(s, start) && Boundary(s, end) {
        BoundaryExactly(s[..end], start);
        assert s[..end][start..] == s[start..end];
      }
    }
  }

  lemma {:induction false} FirstIsBoundary(s: seq<Byte>)
    requires WellFormed(s)
    ensures Boundary(s, 0)
  {
    if s != [] { LeadDecides(s, CharLength(s)); }
  }
}
