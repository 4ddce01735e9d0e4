/**
  * UTF-8 as sections 3 and 4 of RFC 3629 define it, the incremental scanner the
  * event stream relies on (`std::str::from_utf8`), and lossy decoding.
  *
  * Two independent descriptions are related here: the byte automaton (`Head`,
  * `Scan`) and the encoder from code points (`Encode`).
  */
module Utf8 {
  import opened Common

  /** A Unicode scalar value: section 3 of RFC 3629 excludes the surrogates. */
  type Scalar = c: int | 0 <= c < 0xD800 || 0xE000 <= c < 0x110000

  const REPLACEMENT: Scalar := 0xFFFD

  // ----- The encoder (section 3) -----

  /** `lead` marks the length, then six bits per continuation byte, most significant first. */
  function EncodeChar(c: Scalar): seq<byte> {
    if c < 0x80 then [c]
    else if c < 0x800 then [0xC0 + c / 64, Continuation(c)]
    else if c < 0x10000 then [0xE0 + c / 64 / 64, Continuation(c / 64), Continuation(c)]
    else [0xF0 + c / 64 / 64 / 64, Continuation(c / 64 / 64), Continuation(c / 64), Continuation(c)]
  }

  function Continuation(bits: nat): byte {
    0x80 + bits % 64
  }

  function Encode(cs: seq<Scalar>): seq<byte> {
    if cs == [] then [] else EncodeChar(cs[0]) + Encode(cs[1..])
  }

  // ----- The automaton (section 4) -----

  /** What the first bytes of a non-empty input are. */
  datatype Head =
    | Char(len: nat)     // a whole character of `len` bytes
    | Incomplete         // every byte is right so far, but the input stops too early
    | Bad(len: nat)      // `len` bytes that no character starts with

  /** Number of bytes a lead byte announces; 0 when it cannot start a character. */
  function Width(b: byte): nat {
    if b < 0x80 then 1
    else if 0xC2 <= b < 0xE0 then 2
    else if 0xE0 <= b < 0xF0 then 3
    else if 0xF0 <= b < 0xF5 then 4
    else 0
  }

  predicate Tail(b: byte) {
    0x80 <= b < 0xC0
  }

  /** UTF8-3 and UTF8-4 narrow the second byte: no overlong form, no surrogate, nothing above U+10FFFF. */
  predicate Second(lead: byte, b: byte) {
    && Tail(b)
    && (lead == 0xE0 ==> 0xA0 <= b)
    && (lead == 0xED ==> b < 0xA0)
    && (lead == 0xF0 ==> 0x90 <= b)
    && (lead == 0xF4 ==> b < 0x90)
  }

  function Classify(s: seq<byte>): (h: Head)
    requires s != []
    ensures h.Char? ==> 1 <= h.len <= 4 && h.len <= |s|
    ensures h.Bad? ==> 1 <= h.len <= 3 && h.len <= |s|
    ensures h.Incomplete? ==> |s| <= 3
  {
    var w := Width(s[0]);
    if w == 0 then Bad(1)
    else if w == 1 then Char(1)
    else if |s| == 1 then Incomplete
    else if !Second(s[0], s[1]) then Bad(1)
    else if w == 2 then Char(2)
    else if |s| == 2 then Incomplete
    else if !Tail(s[2]) then Bad(2)
    else if w == 3 then Char(3)
    else if |s| == 3 then Incomplete
    else if !Tail(s[3]) then Bad(3)
    else Char(4)
  }

  /** The result of `std::str::from_utf8`: all valid, or where and how it stopped. */
  datatype ScanResult = Valid | Invalid(validUpTo: nat, errorLen: Option<nat>)

  function Scan(s: seq<byte>): ScanResult {
    if s == [] then Valid
    else
      match Classify(s)
      case Incomplete => Invalid(0, None)
      case Bad(n) => Invalid(0, Some(n))
      case Char(n) =>
        match Scan(s[n..])
        case Valid => Valid
        case Invalid(v, e) => Invalid(n + v, e)
  }

  predicate IsValid(s: seq<byte>) {
    Scan(s).Valid?
  }

  // ----- Decoding -----

  /** The six bits of a continuation byte appended to `high`. */
  function Shift(high: int, b: byte): int {
    high * 64 + (b as int - 0x80)
  }

  /** The number in the bytes of one character. */
  function CharValue(s: seq<byte>): int
    requires 1 <= |s| <= 4
  {
    if |s| == 1 then s[0]
    else if |s| == 2 then Shift(s[0] as int - 0xC0, s[1])
    else if |s| == 3 then Shift(Shift(s[0] as int - 0xE0, s[1]), s[2])
    else Shift(Shift(Shift(s[0] as int - 0xF0, s[1]), s[2]), s[3])
  }

  function DecodeChar(s: seq<byte>): Scalar
    requires s != [] && Classify(s).Char?
  {
    CharValue(s[..Classify(s).len])
  }

  /** `String::from_utf8_lossy`: each ill-formed run becomes one replacement character. */
  function Decode(s: seq<byte>): seq<Scalar> {
    if s == [] then []
    else
      match Classify(s)
      case Incomplete => [REPLACEMENT]
      case Bad(n) => [REPLACEMENT] + Decode(s[n..])
      case Char(n) => [DecodeChar(s)] + Decode(s[n..])
  }

  // ----- The two descriptions agree -----

  lemma ShiftInverts(c: nat)
    ensures Shift(c / 64, Continuation(c)) == c
  {
  }

  lemma ClassifyEncoded(c: Scalar, rest: seq<byte>)
    ensures var s := EncodeChar(c) + rest;
            Classify(s) == Char(|EncodeChar(c)|) && DecodeChar(s) == c
  {
    var s := EncodeChar(c) + rest;
    ShiftInverts(c);
    ShiftInverts(c / 64);
    ShiftInverts(c / 64 / 64);
    assert s[..|EncodeChar(c)|] == EncodeChar(c);
  }

  lemma ContinuationInverts(high: nat, b: byte)
    requires Tail(b)
    ensures Shift(high, b) / 64 == high && Continuation(Shift(high, b)) == b
  {
  }

  lemma EncodeTwo(a: byte, b: byte)
    requires 0xC2 <= a < 0xE0 && Tail(b)
    ensures var c := Shift(a as int - 0xC0, b); 0x80 <= c < 0x800 && EncodeChar(c) == [a, b]
  {
    ContinuationInverts(a as int - 0xC0, b);
  }

  lemma EncodeThree(a: byte, b: byte, c: byte)
    requires 0xE0 <= a < 0xF0 && Second(a, b) && Tail(c)
    ensures var v := Shift(Shift(a as int - 0xE0, b), c);
            0x800 <= v < 0x10000 && !(0xD800 <= v < 0xE000) && EncodeChar(v) == [a, b, c]
  {
    ContinuationInverts(a as int - 0xE0, b);
    ContinuationInverts(Shift(a as int - 0xE0, b), c);
  }

  lemma FourBytesInRange(a: byte, b: byte, c: byte, d: byte)
    requires 0xF0 <= a < 0xF5 && Second(a, b) && Tail(c) && Tail(d)
    ensures 0x10000 <= Shift(Shift(Shift(a as int - 0xF0, b), c), d) < 0x110000
  {
    assert 0x10 <= Shift(a as int - 0xF0, b) < 0x110;
  }

  /** The encoding of a character above U+FFFF, by what is left of it after each shift. */
  lemma EncodeFromParts(v: Scalar, third: int, second: int, first: int)
    requires 0x10000 <= v && v / 64 == third && third / 64 == second && second / 64 == first
    ensures EncodeChar(v) == [0xF0 + first, Continuation(second), Continuation(third), Continuation(v)]
  {
  }

  lemma EncodeFour(a: byte, b: byte, c: byte, d: byte)
    requires 0xF0 <= a < 0xF5 && Second(a, b) && Tail(c) && Tail(d)
    ensures var v := Shift(Shift(Shift(a as int - 0xF0, b), c), d);
            0x10000 <= v < 0x110000 && EncodeChar(v) == [a, b, c, d]
  {
    FourBytesInRange(a, b, c, d);
    var first := a as int - 0xF0;
    var second := Shift(first, b);
    var third := Shift(second, c);
    ContinuationInverts(first, b);
    ContinuationInverts(second, c);
    ContinuationInverts(third, d);
    EncodeFromParts(Shift(third, d), third, second, first);
  }

  lemma DecodedTwo(s: seq<byte>)
    requires s != [] && Classify(s) == Char(2)
    ensures EncodeChar(DecodeChar(s)) == s[..2]
  {
    EncodeTwo(s[0], s[1]);
    assert s[..2] == [s[0], s[1]];
  }

  lemma DecodedThree(s: seq<byte>)
    requires s != [] && Classify(s) == Char(3)
    ensures EncodeChar(DecodeChar(s)) == s[..3]
  {
    EncodeThree(s[0], s[1], s[2]);
    assert s[..3] == [s[0], s[1], s[2]];
  }

  lemma DecodedFour(s: seq<byte>)
    requires s != [] && Classify(s) == Char(4)
    ensures EncodeChar(DecodeChar(s)) == s[..4]
  {
    EncodeFour(s[0], s[1], s[2], s[3]);
    assert s[..4] == [s[0], s[1], s[2], s[3]];
  }

  /** The automaton accepts exactly one byte string per code point: its encoding. */
  lemma EncodeDecodedChar(s: seq<byte>)
    requires s != [] && Classify(s).Char?
    ensures EncodeChar(DecodeChar(s)) == s[..Classify(s).len]
  {
    match Classify(s).len
    case 1 => assert s[..1] == [s[0]];
    case 2 => DecodedTwo(s);
    case 3 => DecodedThree(s);
    case 4 => DecodedFour(s);
  }

  lemma AfterChar(s: seq<byte>)
    requires s != [] && Classify(s).Char?
    ensures IsValid(s) <==> IsValid(s[Classify(s).len..])
    ensures Decode(s) == [DecodeChar(s)] + Decode(s[Classify(s).len..])
  {
  }

  lemma {:induction false} EncodingIsValid(cs: seq<Scalar>)
    ensures IsValid(Encode(cs)) && Decode(Encode(cs)) == cs
  {
    if cs != [] {
      var first, rest := EncodeChar(cs[0]), Encode(cs[1..]);
      ClassifyEncoded(cs[0], rest);
      assert (first + rest)[|first|..] == rest;
      AfterChar(first + rest);
      EncodingIsValid(cs[1..]);
      assert cs == [cs[0]] + cs[1..];
    }
  }

  lemma EncodeCons(c: Scalar, cs: seq<Scalar>)
    ensures Encode([c] + cs) == EncodeChar(c) + Encode(cs)
  {
    assert ([c] + cs)[1..] == cs;
  }

  lemma {:induction false} ValidIsEncoding(s: seq<byte>)
    requires IsValid(s)
    ensures Encode(Decode(s)) == s
  {
    if s != [] {
      var n := Classify(s).len;
      calc {
        Encode(Decode(s));
      ==
        Encode([DecodeChar(s)] + Decode(s[n..]));
      == { EncodeCons(DecodeChar(s), Decode(s[n..])); }
        EncodeChar(DecodeChar(s)) + Encode(Decode(s[n..]));
      == { EncodeDecodedChar(s); ValidIsEncoding(s[n..]); }
        s[..n] + s[n..];
      ==
        s;
      }
    }
  }

  /** Scanning accepts exactly the encodings of code point sequences, each of one sequence only. */
  lemma ValidIffEncoding(s: seq<byte>)
    ensures IsValid(s) <==> exists cs :: Encode(cs) == s
    ensures forall cs | Encode(cs) == s :: cs == Decode(s)
  {
    if IsValid(s) {
      ValidIsEncoding(s);
    }
    forall cs | Encode(cs) == s ensures IsValid(s) && cs == Decode(s) {
      EncodingIsValid(cs);
    }
  }

  // ----- Cutting and joining -----

  /** Input that follows a whole character does not change how it is read. */
  lemma ClassifyStable(s: seq<byte>, rest: seq<byte>)
    requires s != []
    ensures !Classify(s).Incomplete? ==> Classify(s + rest) == Classify(s)
    ensures Classify(s).Char? ==> DecodeChar(s + rest) == DecodeChar(s)
  {
    if Classify(s).Char? {
      var n := Classify(s).len;
      assert (s + rest)[..n] == s[..n];
    }
  }

  /** After a valid piece the scan goes on as if it started there. */
  lemma {:induction false} ScanConcat(a: seq<byte>, b: seq<byte>)
    requires IsValid(a)
    ensures IsValid(a + b) <==> IsValid(b)
    ensures Decode(a + b) == Decode(a) + Decode(b)
  {
    if a == [] {
      assert a + b == b;
    } else {
      var n := Classify(a).len;
      ClassifyStable(a, b);
      assert (a + b)[n..] == a[n..] + b;
      ScanConcat(a[n..], b);
    }
  }

  /** One whole character is a valid text. */
  lemma CharIsValid(s: seq<byte>)
    requires s != [] && Classify(s).Char?
    ensures IsValid(s[..Classify(s).len])
  {
    var c := s[..Classify(s).len];
    assert Classify(c) == Classify(s);
    assert c[|c|..] == [];
  }

  /** A scan stops inside its input, and a cut character is at most three bytes long. */
  lemma {:induction false} ScanStops(s: seq<byte>)
    requires Scan(s).Invalid?
    ensures Scan(s).validUpTo < |s|
    ensures Scan(s).errorLen.None? ==> |s| - Scan(s).validUpTo <= 3
  {
    if Classify(s).Char? {
      ScanStops(s[Classify(s).len..]);
    }
  }

  lemma ValidAppends(a: seq<byte>, b: seq<byte>)
    requires IsValid(a) && IsValid(b)
    ensures IsValid(a + b)
  {
    ScanConcat(a, b);
  }

  /** What a scan has passed is a valid text. */
  lemma {:induction false} ScannedIsValid(s: seq<byte>)
    requires Scan(s).Invalid?
    ensures Scan(s).validUpTo < |s| && IsValid(s[..Scan(s).validUpTo])
  {
    ScanStops(s);
    if Classify(s).Char? {
      var n := Classify(s).len;
      var v := Scan(s[n..]).validUpTo;
      ScannedIsValid(s[n..]);
      CharIsValid(s);
      ValidAppends(s[..n], s[n..][..v]);
      assert s[..n + v] == s[..n] + s[n..][..v];
    }
  }

  /** A valid text cut anywhere scans as valid or as cut short, never as wrong. */
  lemma {:induction false} CutValidText(p: seq<byte>, q: seq<byte>)
    requires IsValid(p + q)
    ensures IsValid(p) || Scan(p).errorLen.None?
  {
    if p != [] && Classify(p).Char? {
      var n := Classify(p).len;
      ClassifyStable(p, q);
      assert (p + q)[n..] == p[n..] + q;
      CutValidText(p[n..], q);
    } else if p != [] {
      ClassifyStable(p, q);
    }
  }

  /** Where a scan stops for want of bytes there is the start of a character. */
  lemma {:induction false} StopsInACharacter(s: seq<byte>)
    requires Scan(s).Invalid? && Scan(s).errorLen.None?
    ensures Scan(s).validUpTo < |s| && Classify(s[Scan(s).validUpTo..]).Incomplete?
  {
    ScanStops(s);
    if Classify(s).Char? {
      var n := Classify(s).len;
      StopsInACharacter(s[n..]);
      assert s[n..][Scan(s[n..]).validUpTo..] == s[Scan(s).validUpTo..];
    } else {
      assert s[0..] == s;
    }
  }

  /** Bytes that make a character of `s`, if it is one cut short. */
  function Completion(s: seq<byte>): seq<byte>
    requires s != []
  {
    var second: byte := if s[0] == 0xE0 then 0xA0 else if s[0] == 0xF0 then 0x90 else 0x80;
    if |s| == 1 then [second, 0x80, 0x80] else [0x80, 0x80]
  }

  lemma CompletionIsAChar(s: seq<byte>)
    requires s != [] && Classify(s).Incomplete?
    ensures var whole := s + Completion(s); Classify(whole).Char? && |s| < Classify(whole).len
  {
    var whole := s + Completion(s);
    assert whole[0] == s[0];
    assert |s| >= 2 ==> whole[1] == s[1];
    assert |s| >= 3 ==> whole[2] == s[2];
  }

  /** Incomplete means a character cut short, and nothing else. */
  lemma IncompleteIsACutCharacter(s: seq<byte>) returns (c: Scalar)
    requires s != [] && Classify(s).Incomplete?
    ensures s <= EncodeChar(c) && |s| < |EncodeChar(c)|
  {
    var whole := s + Completion(s);
    CompletionIsAChar(s);
    EncodeDecodedChar(whole);
    c := DecodeChar(whole);
    assert whole[..Classify(whole).len][..|s|] == s;
  }
}
