/**
  * Squad tokens `name|expiry|signature` (crates/common/src/squad_token.rs). The clock is a parameter,
  * and so is `hmac`: the hexadecimal HMAC-SHA256 of a message under a key.
  */
module SquadToken {
  import opened Common
  import opened Decimals

  /** UTF-8 text. */
  type Text = seq<byte>
  type Mac = (Text, Text) -> Text

  const BAR: byte := '|' as int
  const PLUS: byte := '+' as int
  const ZERO: byte := '0' as int
  const NINE: byte := '9' as int
  const U64: nat := 0x1_0000_0000_0000_0000

  // ----- Numbers -----

  function Decimal(n: nat): Text {
    DigitsDenote(n);
    Bytes(DigitsOf(n))
  }

  function Bytes(ds: seq<int>): Text
    requires AreDigits(ds)
  {
    if ds == [] then []
    else Bytes(ds[..|ds| - 1]) + [ZERO + ds[|ds| - 1]]
  }

  predicate Digits(s: Text) {
    forall c | c in s :: ZERO <= c <= NINE
  }

  function Value(s: Text): int {
    if s == [] then 0 else 10 * Value(s[..|s| - 1]) + (s[|s| - 1] - ZERO)
  }

  /** `str::parse::<u64>`: digits, after a plus sign if there is one. */
  function ParseU64(s: Text): Option<nat> {
    var digits := if s != [] && s[0] == PLUS then s[1..] else s;
    if digits != [] && Digits(digits) && 0 <= Value(digits) < U64 then Some(Value(digits)) else None
  }

  lemma {:induction false} BytesDenote(ds: seq<int>)
    requires AreDigits(ds)
    ensures |Bytes(ds)| == |ds| && Digits(Bytes(ds)) && Value(Bytes(ds)) == ValueOf(ds)
  {
    if ds != [] {
      BytesDenote(ds[..|ds| - 1]);
      assert Bytes(ds)[..|ds| - 1] == Bytes(ds[..|ds| - 1]);
    }
  }

  lemma DecimalReads(n: nat)
    ensures Decimal(n) != [] && Digits(Decimal(n)) && Value(Decimal(n)) == n
  {
    DigitsDenote(n);
    BytesDenote(DigitsOf(n));
  }

  lemma DecimalParses(n: nat)
    ensures ParseU64(Decimal(n)) == if n < U64 then Some(n) else None
    ensures BAR !in Decimal(n)
  {
    DecimalReads(n);
    assert Decimal(n)[0] in Decimal(n);
  }

  // ----- Comparing signatures -----

  /** Exclusive or, bit by bit. */
  function Xor(x: nat, y: nat): nat {
    if x == 0 && y == 0 then 0 else 2 * Xor(x / 2, y / 2) + (if x % 2 == y % 2 then 0 else 1)
  }

  /** Inclusive or, bit by bit. */
  function Or(x: nat, y: nat): nat {
    if x == 0 && y == 0 then 0 else 2 * Or(x / 2, y / 2) + (if x % 2 == 0 && y % 2 == 0 then 0 else 1)
  }

  /** The fold of `constant_time_eq`: every byte is looked at, whatever the others were. */
  function Differences(a: seq<byte>, b: seq<byte>, acc: nat): nat
    requires |a| == |b|
  {
    if a == [] then acc else Differences(a[1..], b[1..], Or(acc, Xor(a[0], b[0])))
  }

  predicate ConstantTimeEq(a: seq<byte>, b: seq<byte>) {
    |a| == |b| && Differences(a, b, 0) == 0
  }

  lemma {:induction false} XorIsZero(x: nat, y: nat)
    ensures Xor(x, y) == 0 <==> x == y
  {
    if x != 0 || y != 0 {
      XorIsZero(x / 2, y / 2);
    }
  }

  lemma {:induction false} OrIsZero(x: nat, y: nat)
    ensures Or(x, y) == 0 <==> x == 0 && y == 0
  {
    if x != 0 || y != 0 {
      OrIsZero(x / 2, y / 2);
    }
  }

  lemma {:induction false} DifferencesFound(a: seq<byte>, b: seq<byte>, acc: nat)
    requires |a| == |b|
    ensures Differences(a, b, acc) == 0 <==> acc == 0 && a == b
  {
    if a != [] {
      DifferencesFound(a[1..], b[1..], Or(acc, Xor(a[0], b[0])));
      OrIsZero(acc, Xor(a[0], b[0]));
      XorIsZero(a[0], b[0]);
      assert a == [a[0]] + a[1..] && b == [b[0]] + b[1..];
    }
  }

  /** The comparison that looks at everything is equality. */
  lemma ConstantTimeIsEquality(a: seq<byte>, b: seq<byte>)
    ensures ConstantTimeEq(a, b) <==> a == b
  {
    if |a| == |b| {
      DifferencesFound(a, b, 0);
    }
  }

  // ----- Tokens -----

  function Payload(name: Text, expiry: nat): Text {
    name + [BAR] + Decimal(expiry)
  }

  function Sign(hmac: Mac, key: Text, name: Text, expiry: nat): Text {
    hmac(key, Payload(name, expiry))
  }

  /** The sum of two `u64` wraps. */
  function Expiry(now: nat, ttl: nat): nat {
    (now + ttl) % U64
  }

  function Mint(hmac: Mac, key: Text, name: Text, ttl: nat, now: nat): Text {
    var expiry := Expiry(now, ttl);
    Payload(name, expiry) + [BAR] + Sign(hmac, key, name, expiry)
  }

  /** What is before the first bar, and what is after it. */
  function SplitOnce(s: Text): Option<(Text, Text)> {
    if s == [] then None
    else if s[0] == BAR then Some(([], s[1..]))
    else
      match SplitOnce(s[1..])
      case None => None
      case Some((a, b)) => Some(([s[0]] + a, b))
  }

  datatype Refusal = Malformed | NotANumber | BadSignature | Expired

  function Verify(hmac: Mac, key: Text, token: Text, now: nat): Result<Text, Refusal> {
    match SplitOnce(token)
    case None => Err(Malformed)
    case Some((name, rest)) =>
      match SplitOnce(rest)
      case None => Err(Malformed)
      case Some((expiryText, signature)) =>
        match ParseU64(expiryText)
        case None => Err(NotANumber)
        case Some(expiry) =>
          if !ConstantTimeEq(Sign(hmac, key, name, expiry), signature) then Err(BadSignature)
          else if now > expiry then Err(Expired)
          else Ok(name)
  }

  // ----- Splitting -----

  lemma {:induction false} SplitJoined(a: Text, b: Text)
    requires BAR !in a
    ensures SplitOnce(a + [BAR] + b) == Some((a, b))
  {
    var s := a + [BAR] + b;
    if a == [] {
      assert s[0] == BAR && s[1..] == b;
    } else {
      SplitJoined(a[1..], b);
      assert s[0] == a[0] && s[1..] == a[1..] + [BAR] + b;
      assert a == [a[0]] + a[1..];
    }
  }

  lemma {:induction false} SplitJoins(s: Text)
    ensures match SplitOnce(s)
            case None => BAR !in s
            case Some((a, b)) => BAR !in a && s == a + [BAR] + b
  {
    if s != [] && s[0] != BAR {
      SplitJoins(s[1..]);
      assert s == [s[0]] + s[1..];
    }
  }

  // ----- What is accepted -----

  /** `token` is `name|expiryText|signature`, duly signed. */
  predicate Signed(hmac: Mac, key: Text, token: Text, name: Text, expiryText: Text, now: nat) {
    && BAR !in name && BAR !in expiryText
    && ParseU64(expiryText).Some? && now <= ParseU64(expiryText).value
    && token == name + [BAR] + (expiryText + [BAR] + hmac(key, name + [BAR] + Decimal(ParseU64(expiryText).value)))
  }

  /** A token is accepted for a name exactly when it is that name and an expiry not past, signed together. */
  lemma AcceptedExactlyWhenSigned(hmac: Mac, key: Text, token: Text, name: Text, now: nat)
    ensures Verify(hmac, key, token, now) == Ok(name) <==>
              exists expiryText :: Signed(hmac, key, token, name, expiryText, now)
  {
    if Verify(hmac, key, token, now) == Ok(name) {
      SplitJoins(token);
      var rest := SplitOnce(token).value.1;
      SplitJoins(rest);
      var expiryText := SplitOnce(rest).value.0;
      ConstantTimeIsEquality(Sign(hmac, key, name, ParseU64(expiryText).value), SplitOnce(rest).value.1);
      assert Signed(hmac, key, token, name, expiryText, now);
    }
    if expiryText :| Signed(hmac, key, token, name, expiryText, now) {
      VerifyParts(hmac, key, name, expiryText, Sign(hmac, key, name, ParseU64(expiryText).value), now);
    }
  }

  /** A minted token is accepted under its name exactly until it expires, if its name has no bar; otherwise never. */
  lemma MintedIsAccepted(hmac: Mac, key: Text, name: Text, ttl: nat, minted: nat, now: nat)
    ensures Verify(hmac, key, Mint(hmac, key, name, ttl, minted), now) == Ok(name) <==>
              BAR !in name && now <= Expiry(minted, ttl)
    ensures BAR !in name && now > Expiry(minted, ttl) ==>
              Verify(hmac, key, Mint(hmac, key, name, ttl, minted), now) == Err(Expired)
  {
    var token, expiry := Mint(hmac, key, name, ttl, minted), Expiry(minted, ttl);
    if BAR in name {
      AcceptedExactlyWhenSigned(hmac, key, token, name, now);
    } else {
      var signature := Sign(hmac, key, name, expiry);
      assert token == name + [BAR] + (Decimal(expiry) + [BAR] + signature);
      DecimalParses(expiry);
      VerifyParts(hmac, key, name, Decimal(expiry), signature, now);
    }
  }

  lemma VerifyParts(hmac: Mac, key: Text, name: Text, expiryText: Text, signature: Text, now: nat)
    requires BAR !in name && BAR !in expiryText && ParseU64(expiryText).Some?
    ensures Verify(hmac, key, name + [BAR] + (expiryText + [BAR] + signature), now)
         == if signature != Sign(hmac, key, name, ParseU64(expiryText).value) then Err(BadSignature)
            else if now > ParseU64(expiryText).value then Err(Expired)
            else Ok(name)
  {
    SplitJoined(name, expiryText + [BAR] + signature);
    SplitJoined(expiryText, signature);
    ConstantTimeIsEquality(Sign(hmac, key, name, ParseU64(expiryText).value), signature);
  }

  lemma NoOverflow(minted: nat, ttl: nat)
    requires minted + ttl < U64
    ensures Expiry(minted, ttl) == minted + ttl
  {
  }

  /** Without overflow, that is until `minted + ttl`. */
  lemma MintedUntilItsTtl(hmac: Mac, key: Text, name: Text, ttl: nat, minted: nat, now: nat)
    requires BAR !in name && minted + ttl < U64
    ensures Verify(hmac, key, Mint(hmac, key, name, ttl, minted), now)
         == if now <= minted + ttl then Ok(name) else Err(Expired)
  {
    NoOverflow(minted, ttl);
    MintedIsAccepted(hmac, key, name, ttl, minted, now);
  }

  /** What is signed tells the name and the expiry apart, for all names. */
  lemma PayloadIsInjective(name1: Text, expiry1: nat, name2: Text, expiry2: nat)
    requires name1 + [BAR] + Decimal(expiry1) == name2 + [BAR] + Decimal(expiry2)
    ensures name1 == name2 && expiry1 == expiry2
  {
    DecimalParses(expiry1);
    DecimalParses(expiry2);
    LastBar(name1, Decimal(expiry1), name2, Decimal(expiry2));
    DecimalReads(expiry1);
    DecimalReads(expiry2);
  }

  /** Different messages have different signatures under this key. */
  ghost predicate Injective(hmac: Mac, key: Text) {
    forall m1, m2 | hmac(key, m1) == hmac(key, m2) :: m1 == m2
  }

  /** So a signature serves one name and one expiry only: with any other, a token that carries it is refused. */
  lemma SignatureServesOneToken(hmac: Mac, key: Text, name: Text, expiry: nat, otherName: Text, otherExpiry: Text, now: nat)
    requires Injective(hmac, key) && BAR !in otherName && BAR !in otherExpiry
    ensures var token := otherName + [BAR] + (otherExpiry + [BAR] + Sign(hmac, key, name, expiry));
            Verify(hmac, key, token, now).Ok? ==> otherName == name && ParseU64(otherExpiry) == Some(expiry)
  {
    var signature := Sign(hmac, key, name, expiry);
    var token := otherName + [BAR] + (otherExpiry + [BAR] + signature);
    SplitJoined(otherName, otherExpiry + [BAR] + signature);
    SplitJoined(otherExpiry, signature);
    if ParseU64(otherExpiry).Some? {
      var parsed := ParseU64(otherExpiry).value;
      ConstantTimeIsEquality(Sign(hmac, key, otherName, parsed), signature);
      if Sign(hmac, key, otherName, parsed) == signature {
        assert otherName + [BAR] + Decimal(parsed) == name + [BAR] + Decimal(expiry);
        PayloadIsInjective(otherName, parsed, name, expiry);
      }
    }
  }

  /** A plus sign and leading zeros are accepted. */
  lemma ParseAccepts(n: nat)
    requires n < U64
    ensures ParseU64([PLUS] + Decimal(n)) == Some(n) && ParseU64([ZERO] + Decimal(n)) == Some(n)
  {
    DecimalReads(n);
    var s := Decimal(n);
    assert ([PLUS] + s)[1..] == s;
    LeadingZero(s);
    forall c | c in [ZERO] + s ensures ZERO <= c <= NINE {
      assert c == ZERO || c in s;
    }
  }

  /** Nothing, a plus sign alone, or anything that starts with a minus sign is not. */
  lemma ParseRefuses(s: Text)
    ensures ParseU64([]) == None && ParseU64([PLUS]) == None && ParseU64(['-' as int] + s) == None
  {
    assert [PLUS][1..] == [];
    assert (['-' as int] + s)[0] in ['-' as int] + s;
  }

  lemma {:induction false} LeadingZero(s: Text)
    ensures Value([ZERO] + s) == Value(s)
  {
    if s == [] {
      assert [ZERO] + s == [ZERO] && [ZERO][..0] == [];
    } else {
      LeadingZero(s[..|s| - 1]);
      assert ([ZERO] + s)[..|s|] == [ZERO] + s[..|s| - 1];
    }
  }

  lemma {:induction false} LastBar(a: Text, x: Text, b: Text, y: Text)
    requires a + [BAR] + x == b + [BAR] + y && BAR !in x && BAR !in y
    ensures a == b && x == y
    decreases x
  {
    var s, t := a + [BAR] + x, b + [BAR] + y;
    if x == [] || y == [] {
      assert s[|s| - 1] == t[|t| - 1];
      assert x == [] && y == [];
      assert a == s[..|s| - 1] && b == t[..|t| - 1];
    } else {
      var x', y' := x[..|x| - 1], y[..|y| - 1];
      assert s[..|s| - 1] == a + [BAR] + x' && t[..|t| - 1] == b + [BAR] + y';
      LastBar(a, x', b, y');
      assert x == x' + [s[|s| - 1]] && y == y' + [t[|t| - 1]];
    }
  }
}
