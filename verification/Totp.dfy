/**
 One-time codes: HOTP truncation (section 5.3 of RFC 4226) and the time-window check (sections 4.2
 and 5.2 of RFC 6238). The keyed hash is a parameter; all that is used of it is that a digest has
 twenty bytes.
 */
module Totp {
  import opened Prelude
  import opened Bits
  import opened Base32

  const STEP_MS := 30_000

  type Digest = d: seq<byte> | |d| == 20 witness seq(20, i => 0)

  type Mac = (seq<byte>, seq<byte>) -> Digest

  // ---------- truncation ----------

  // Four bytes, big endian, without the top bit.
  function BigEndian31(a: byte, b: byte, c: byte, d: byte): (v: nat)
    ensures v < 0x8000_0000
  {
    (0x100_0000 * (a as int) + 0x1_0000 * (b as int) + 0x100 * (c as int) + d as int) % 0x8000_0000
  }

  // The standard's definition: the four bytes from the offset that the last byte names.
  function TruncatedValue(d: Digest): (v: nat)
    ensures v < 0x8000_0000
  {
    var o := d[19] as int % 16;
    BigEndian31(d[o], d[o + 1], d[o + 2], d[o + 3])
  }

  // What the code computes with bitwise operators.
  function Truncate(d: Digest): nat {
    var offset := And(d[|d| - 1], 0x0f);
    OffsetIsSmall(d);
    PutTogether(d[offset], d[offset + 1], d[offset + 2], d[offset + 3])
  }

  function PutTogether(a: byte, b: byte, c: byte, d: byte): nat {
    Or(Or(Or(Shl(And(a, 0x7f), 24), Shl(And(b, 0xff), 16)), Shl(And(c, 0xff), 8)), And(d, 0xff))
  }

  lemma OffsetIsSmall(d: Digest)
    ensures And(d[19], 0x0f) == d[19] % 16
  {
    SmallPowers();
    AndOnes(d[19], 4);
  }

  lemma SmallPowers()
    ensures Pow2(4) == 16 && Pow2(7) == 128 && Pow2(8) == 256 && Pow2(16) == 0x1_0000 && Pow2(24) == 0x100_0000
  {
    PowersOfTwo();
    assert Pow2(2) == 4 && Pow2(7) * 2 == Pow2(8);
    Pow2Add(2, 2);
    Pow2Add(8, 8);
    Pow2Add(16, 8);
  }

  lemma ShlIs(a: nat, n: nat, p: nat)
    requires Pow2(n) == p && a * p < WORD
    ensures Shl(a, n) == a * p
  {
  }

  lemma OrIs(a: nat, low: nat, n: nat, p: nat)
    requires Pow2(n) == p && low < p
    ensures Or(a * p, low) == a * p + low
  {
    OrBelow(a, low, n);
  }

  lemma LowSeven(b: nat)
    ensures And(b, 0x7f) == b % 128
  {
    assert Pow2(7) == 128 by { SmallPowers(); }
    AndOnes(b, 7);
  }

  lemma LowEight(b: nat)
    requires b < 256
    ensures And(b, 0xff) == b
  {
    assert Pow2(8) == 256 by { SmallPowers(); }
    AndFitting(b, 8, 0xff);
  }

  lemma JoinFour(a: nat, b: nat, c: nat, d: nat)
    requires a < 128 && b < 256 && c < 256 && d < 256
    ensures Or(Or(Or(Shl(a, 24), Shl(b, 16)), Shl(c, 8)), d) == 0x100_0000 * a + 0x1_0000 * b + 0x100 * c + d
  {
    SmallPowers();
    ShlIs(a, 24, 0x100_0000);
    ShlIs(b, 16, 0x1_0000);
    ShlIs(c, 8, 0x100);
    OrIs(a, b * 0x1_0000, 24, 0x100_0000);
    OrIs(0x100 * a + b, c * 0x100, 16, 0x1_0000);
    OrIs(0x1_0000 * a + 0x100 * b + c, d, 8, 0x100);
  }

  // The top byte has seven bits, so the sum stays below 2^31 and JavaScript reads it as a
  // non-negative number.
  lemma PutTogetherIsSum(a: byte, b: byte, c: byte, d: byte)
    ensures PutTogether(a, b, c, d) == 0x100_0000 * (a as int % 128) + 0x1_0000 * (b as int) + 0x100 * (c as int) + d
  {
    LowSeven(a);
    LowEight(b);
    LowEight(c);
    LowEight(d);
    JoinFour(a as int % 128, b, c, d);
  }

  lemma TruncateFrom(d: Digest, o: nat)
    requires o == d[19] % 16
    ensures Truncate(d) == PutTogether(d[o], d[o + 1], d[o + 2], d[o + 3])
  {
    OffsetIsSmall(d);
  }

  lemma TruncateMeetsTheStandard(d: Digest)
    ensures Truncate(d) == TruncatedValue(d) < 0x8000_0000
  {
    var o := d[19] % 16;
    TruncateFrom(d, o);
    PutTogetherIsTruncated(d[o], d[o + 1], d[o + 2], d[o + 3]);
  }

  lemma PutTogetherIsTruncated(a: byte, b: byte, c: byte, d: byte)
    ensures PutTogether(a, b, c, d) == BigEndian31(a, b, c, d)
  {
    PutTogetherIsSum(a, b, c, d);
    TopBitFalls(a, b, c, d);
  }

  lemma TopBitFalls(a: nat, b: nat, c: nat, d: nat)
    requires b < 256 && c < 256 && d < 256
    ensures (0x100_0000 * a + 0x1_0000 * b + 0x100 * c + d) % 0x8000_0000
              == 0x100_0000 * (a % 128) + 0x1_0000 * b + 0x100 * c + d
  {
    var rest := 0x1_0000 * b + 0x100 * c + d;
    DivModUnique(0x100_0000 * a + rest, 0x8000_0000, a / 128, 0x100_0000 * (a % 128) + rest);
  }

  // ---------- decimal codes ----------

  function Digit(n: nat): char
    requires n < 10
  {
    '0' + n as char
  }

  predicate IsDigit(c: char) { '0' <= c <= '9' }

  // n.toString()
  function Decimal(n: nat): (s: string)
    ensures |s| > 0
  {
    if n < 10 then [Digit(n)] else Decimal(n / 10) + [Digit(n % 10)]
  }

  // s.padStart(width, '0')
  function PadStart(s: string, width: nat): string
    decreases width - |s|
  {
    if |s| >= width then s else PadStart("0" + s, width)
  }

  function CodeValue(code: string): nat
    requires forall c | c in code :: IsDigit(c)
  {
    if code == [] then 0
    else
      assert IsDigit(code[|code| - 1]) by { assert code[|code| - 1] in code; }
      assert forall c | c in code[..|code| - 1] :: c in code;
      10 * CodeValue(code[..|code| - 1]) + (code[|code| - 1] - '0') as int
  }

  predicate SixDigits(code: string) { |code| == 6 && forall c | c in code :: IsDigit(c) }

  function Pow10(n: nat): (r: nat)
    ensures r > 0
  {
    if n == 0 then 1 else 10 * Pow10(n - 1)
  }

  // The width-digit numeral of n.
  function Numeral(n: nat, width: nat): (s: string)
    ensures |s| == width && forall c | c in s :: IsDigit(c)
  {
    if width == 0 then "" else Numeral(n / 10, width - 1) + [Digit(n % 10)]
  }

  lemma {:induction false} PadFront(s: string, c: char, width: nat)
    requires |s| <= width
    ensures PadStart(s + [c], width + 1) == PadStart(s, width) + [c]
    decreases width - |s|
  {
    if |s| < width {
      assert "0" + (s + [c]) == ("0" + s) + [c];
      PadFront("0" + s, c, width);
    }
  }

  lemma {:induction false} DecimalLength(n: nat, width: nat)
    requires n < Pow10(width) && width > 0
    ensures |Decimal(n)| <= width
    decreases width
  {
    if n >= 10 {
      DecimalLength(n / 10, width - 1);
    }
  }

  lemma {:induction false} PaddedIsNumeral(n: nat, width: nat)
    requires n < Pow10(width) && width > 0
    ensures PadStart(Decimal(n), width) == Numeral(n, width)
    decreases width
  {
    if width == 1 {
      assert Pow10(1) == 10;
      assert Numeral(n, 1) == Numeral(n / 10, 0) + [Digit(n)];
    } else if n < 10 {
      PadFront("", Digit(n), width - 1);
      assert "" + [Digit(n)] == [Digit(n)];
      PadZeros(width - 1);
    } else {
      DecimalLength(n / 10, width - 1);
      PadFront(Decimal(n / 10), Digit(n % 10), width - 1);
      PaddedIsNumeral(n / 10, width - 1);
    }
  }

  lemma {:induction false} PadZeros(width: nat)
    ensures PadStart("", width) == Numeral(0, width)
    decreases width
  {
    if width > 0 {
      PadFront("", '0', width - 1);
      assert "" + ['0'] == "0" + "";
      PadZeros(width - 1);
      assert PadStart("", width) == PadStart("0" + "", width);
    }
  }

  lemma {:induction false} NumeralValue(code: string, n: nat, width: nat)
    requires |code| == width && (forall c | c in code :: IsDigit(c)) && n < Pow10(width)
    ensures Numeral(n, width) == code <==> n == CodeValue(code)
    decreases width
  {
    if width > 0 {
      var k := width - 1;
      assert code[k] in code && forall c | c in code[..k] :: c in code;
      NumeralValue(code[..k], n / 10, k);
      assert Numeral(n, width)[..k] == Numeral(n / 10, k) && Numeral(n, width)[k] == Digit(n % 10);
      assert code == code[..k] + [code[k]];
      var digit := (code[k] - '0') as int;
      assert Digit(n % 10) == code[k] <==> n % 10 == digit;
      assert n == 10 * (n / 10) + n % 10;
    }
  }

  // ---------- hotp ----------

  // writeBigUInt64BE: the eight bytes of the counter, most significant first.
  function CounterBytes(counter: nat, n: nat): (bytes: seq<byte>)
    ensures |bytes| == n
  {
    if n == 0 then [] else CounterBytes(counter / 256, n - 1) + [counter % 256]
  }

  function BigEndian(bytes: seq<byte>): nat {
    if bytes == [] then 0 else 256 * BigEndian(bytes[..|bytes| - 1]) + bytes[|bytes| - 1]
  }

  function Pow256(n: nat): nat { if n == 0 then 1 else 256 * Pow256(n - 1) }

  lemma {:induction false} CounterReadsBack(counter: nat, n: nat)
    requires counter < Pow256(n)
    ensures BigEndian(CounterBytes(counter, n)) == counter
    decreases n
  {
    if n > 0 {
      CounterReadsBack(counter / 256, n - 1);
      assert CounterBytes(counter, n)[..n - 1] == CounterBytes(counter / 256, n - 1);
    }
  }

  // The eight bytes, read as a big-endian number, are the counter.
  lemma EightBytesReadBack(counter: nat)
    requires counter < 0x1_0000_0000_0000_0000
    ensures |CounterBytes(counter, 8)| == 8 && BigEndian(CounterBytes(counter, 8)) == counter
  {
    assert Pow256(2) == 0x1_0000;
    assert Pow256(4) == 0x1_0000_0000;
    assert Pow256(6) == 0x1_0000_0000_0000;
    assert Pow256(8) == 0x1_0000_0000_0000_0000;
    CounterReadsBack(counter, 8);
  }

  function Hotp(mac: Mac, key: seq<byte>, counter: nat): string {
    PadStart(Decimal(Truncate(mac(key, CounterBytes(counter, 8))) % 1_000_000), 6)
  }

  ghost predicate Matches(mac: Mac, key: seq<byte>, counter: nat, code: string)
    requires SixDigits(code)
  {
    TruncatedValue(mac(key, CounterBytes(counter, 8))) % 1_000_000 == CodeValue(code)
  }

  // Comparing the strings is comparing the truncated value with the number the six digits write.
  lemma HotpMatches(mac: Mac, key: seq<byte>, counter: nat, code: string)
    requires SixDigits(code)
    ensures Hotp(mac, key, counter) == code <==> Matches(mac, key, counter, code)
    ensures SixDigits(Hotp(mac, key, counter)) && Matches(mac, key, counter, Hotp(mac, key, counter))
  {
    var d := mac(key, CounterBytes(counter, 8));
    TruncateMeetsTheStandard(d);
    var n := Truncate(d) % 1_000_000;
    SixZeros();
    PaddedIsNumeral(n, 6);
    NumeralValue(code, n, 6);
    NumeralValue(Numeral(n, 6), n, 6);
  }

  lemma SixZeros()
    ensures Pow10(6) == 1_000_000
  {
    assert Pow10(2) == 100;
    assert Pow10(4) == 10_000;
  }

  // ---------- verifyTotp ----------

  // What JavaScript's \s matches.
  predicate IsSpace(c: char) {
    || '\t' <= c <= '\r' || c == ' ' || c == '\U{00A0}' || c == '\U{1680}' || '\U{2000}' <= c <= '\U{200A}'
    || c == '\U{2028}' || c == '\U{2029}' || c == '\U{202F}' || c == '\U{205F}' || c == '\U{3000}' || c == '\U{FEFF}'
  }

  // The control characters from tab to carriage return, the space, and the other space separators of
  // Unicode with the byte order mark.
  lemma SpacesAre(c: char)
    ensures IsSpace(c)
       <==> c in "\t\n\U{000B}\U{000C}\r \U{00A0}\U{1680}\U{2000}\U{2001}\U{2002}\U{2003}\U{2004}\U{2005}\U{2006}"
                 + "\U{2007}\U{2008}\U{2009}\U{200A}\U{2028}\U{2029}\U{202F}\U{205F}\U{3000}\U{FEFF}"
  {
  }

  function Strip(s: string): string {
    if s == [] then [] else if IsSpace(s[0]) then Strip(s[1..]) else [s[0]] + Strip(s[1..])
  }

  // Exactly the spaces are removed, wherever they are.
  lemma {:induction false} StripRemovesSpaces(a: string, c: char, b: string)
    ensures Strip(a + [c] + b) == Strip(a) + (if IsSpace(c) then [] else [c]) + Strip(b)
  {
    if a == [] {
      assert a + [c] + b == [c] + b && ([c] + b)[1..] == b;
    } else {
      assert (a + [c] + b)[1..] == a[1..] + [c] + b;
      StripRemovesSpaces(a[1..], c, b);
    }
  }

  datatype Verdict = Accepted | Rejected | Throws

  // Counters an unsigned 64-bit field holds; writing any other one throws.
  predicate Writable(counter: int) { 0 <= counter < 0x1_0000_0000_0000_0000 }

  // Some counter from low up to high matches.
  ghost predicate MatchIn(mac: Mac, key: seq<byte>, code: string, low: int, high: int)
    requires SixDigits(code) && low >= 0
  {
    exists c: nat :: low <= c <= high && Matches(mac, key, c, code)
  }

  lemma MatchExtends(mac: Mac, key: seq<byte>, code: string, low: int, high: int)
    requires SixDigits(code) && 0 <= low <= high
    ensures MatchIn(mac, key, code, low, high)
       <==> MatchIn(mac, key, code, low, high - 1) || Matches(mac, key, high, code)
  {
  }

  // The verdict on a six-digit code over the counters from low to high: the first counter that
  // cannot be written throws, unless an earlier one has matched.
  ghost function VerdictOf(mac: Mac, key: seq<byte>, code: string, low: int, high: int): Verdict
    requires SixDigits(code)
  {
    if high < low then Rejected
    else if !Writable(low) then Throws
    else
      var last := if Writable(high) then high else 0xFFFF_FFFF_FFFF_FFFF;
      if MatchIn(mac, key, code, low, last) then Accepted else if last < high then Throws else Rejected
  }

  method VerifyTotp(mac: Mac, token: Option<string>, secret: string, window: int, now: int) returns (r: Verdict)
    ensures
      var code := Strip(if token.Some? then token.value else "");
      r == if !SixDigits(code) then Rejected
           else VerdictOf(mac, DecodeSpec(secret), code, now / STEP_MS - window, now / STEP_MS + window)
  {
    var code := Strip(if token.Some? then token.value else "");
    if !SixDigits(code) {
      return Rejected;
    }
    var counter := now / STEP_MS;
    var key := Base32Decode(secret);
    r := CheckWindow(mac, key, code, counter, window);
  }

  method CheckWindow(mac: Mac, key: seq<byte>, code: string, counter: int, window: int) returns (r: Verdict)
    requires SixDigits(code)
    ensures r == VerdictOf(mac, key, code, counter - window, counter + window)
  {
    ghost var low := counter - window;
    var i := -window;
    while i <= window
      invariant -window <= i && (window >= 0 ==> i <= window + 1)
      invariant i > -window ==>
                  Writable(low) && Writable(counter + i - 1) && !MatchIn(mac, key, code, low, counter + i - 1)
    {
      if !Writable(counter + i) {
        return Throws;
      }
      var same := SameCode(mac, key, counter + i, code);
      MatchExtends(mac, key, code, low, counter + i);
      if same {
        assert MatchIn(mac, key, code, low,
                       if Writable(counter + window) then counter + window else 0xFFFF_FFFF_FFFF_FFFF);
        return Accepted;
      }
      i := i + 1;
    }
    return Rejected;
  }

  method SameCode(mac: Mac, key: seq<byte>, counter: nat, code: string) returns (same: bool)
    requires SixDigits(code)
    ensures same <==> Matches(mac, key, counter, code)
  {
    HotpMatches(mac, key, counter, code);
    return Hotp(mac, key, counter) == code;
  }

  lemma {:induction false} DigitsAreKept(s: string)
    requires forall c | c in s :: IsDigit(c)
    ensures Strip(s) == s
  {
    if s != [] {
      assert s[0] in s && forall c | c in s[1..] :: c in s;
      DigitsAreKept(s[1..]);
    }
  }

  // A code made at one time is accepted up to one step before or after, as long as no counter in
  // the window is out of range.
  lemma CodesOutliveAStep(mac: Mac, key: seq<byte>, made: int, now: int)
    requires -30_000 <= now - made <= 30_000 && made / STEP_MS >= 0
    requires Writable(now / STEP_MS - 1) && Writable(now / STEP_MS + 1)
    ensures
      var code := Hotp(mac, key, made / STEP_MS);
      SixDigits(code) && Strip(code) == code
          && VerdictOf(mac, key, code, now / STEP_MS - 1, now / STEP_MS + 1) == Accepted
  {
    var c := made / STEP_MS;
    var code := Hotp(mac, key, c);
    HotpMatches(mac, key, c, "000000");
    DigitsAreKept(code);
    assert now / STEP_MS - 1 <= c <= now / STEP_MS + 1;
    assert Matches(mac, key, c, code);
  }
}
