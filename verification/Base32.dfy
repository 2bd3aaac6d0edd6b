/**
 Base32 as the TOTP secrets use it (section 6 of RFC 4648, without padding): the encoder and the
 decoder with their never-masked 32-bit accumulator, and the bit stream they must follow.
 */
module Base32 {
  import opened Prelude
  import opened Bits

  type symbol = x: int | 0 <= x < 32

  const ALPHABET := "ABCDEFGHIJKLMNOPQRSTUVWXYZ234567"

  // ---------- the bit stream ----------

  function Stream(bytes: seq<byte>): (bs: seq<bool>)
    ensures |bs| == 8 * |bytes|
  {
    if bytes == [] then [] else Stream(bytes[..|bytes| - 1]) + BitsOf(bytes[|bytes| - 1], 8)
  }

  // Five bits a symbol; a last group that is short is filled up with zeros.
  function Symbols(bs: seq<bool>): seq<symbol>
    decreases |bs|
  {
    if bs == [] then []
    else if |bs| < 5 then [SymbolValue(bs + Zeros(5 - |bs|))]
    else [SymbolValue(bs[..5])] + Symbols(bs[5..])
  }

  function SymbolValue(g: seq<bool>): symbol
    requires |g| == 5
  {
    BitsOfValue(g);
    PowersOfTwo();
    ValueOf(g)
  }

  function ByteValue(g: seq<bool>): byte
    requires |g| == 8
  {
    BitsOfValue(g);
    PowersOfTwo();
    ValueOf(g)
  }

  lemma SymbolBits(g: seq<bool>)
    requires |g| == 5
    ensures BitsOf(SymbolValue(g), 5) == g
  {
    BitsOfValue(g);
  }

  lemma SymbolOfBits(v: symbol)
    ensures SymbolValue(BitsOf(v, 5)) == v
  {
    assert Pow2(5) == 32 by { PowersOfTwo(); }
    ValueOfFittingBits(v, 5);
  }

  lemma ByteOfBits(v: byte)
    ensures ByteValue(BitsOf(v, 8)) == v
  {
    assert Pow2(8) == 256 by { PowersOfTwo(); }
    ValueOfFittingBits(v, 8);
  }

  function Payload(symbols: seq<symbol>): (bs: seq<bool>)
    ensures |bs| == 5 * |symbols|
  {
    if symbols == [] then [] else Payload(symbols[..|symbols| - 1]) + BitsOf(symbols[|symbols| - 1], 5)
  }

  // Eight bits a byte; a last group that is short is dropped.
  function Bytes(bs: seq<bool>): seq<byte>
    decreases |bs|
  {
    if |bs| < 8 then [] else [ByteValue(bs[..8])] + Bytes(bs[8..])
  }

  // ALPHABET[v]
  function Letter(v: symbol): char
  {
    if v < 26 then 'A' + v as char else '2' + (v - 26) as char
  }

  function Text(symbols: seq<symbol>): (s: string)
    ensures |s| == |symbols|
  {
    if symbols == [] then [] else Text(symbols[..|symbols| - 1]) + [Letter(symbols[|symbols| - 1])]
  }

  function EncodeSpec(bytes: seq<byte>): string { Text(Symbols(Stream(bytes))) }

  // ---------- characters ----------

  // toUpperCase, character by character. Characters outside ASCII are listed when their upper case
  // contains an ASCII letter; of the others it only matters that it contains none.
  function UpperCase(c: char): string {
    match c
    case '\U{00DF}' => "SS"
    case '\U{0131}' => "I"
    case '\U{0149}' => "\U{02BC}N"
    case '\U{017F}' => "S"
    case '\U{01F0}' => "J\U{030C}"
    case '\U{1E96}' => "H\U{0331}"
    case '\U{1E97}' => "T\U{0308}"
    case '\U{1E98}' => "W\U{030A}"
    case '\U{1E99}' => "Y\U{030A}"
    case '\U{1E9A}' => "A\U{02BE}"
    case '\U{FB00}' => "FF"
    case '\U{FB01}' => "FI"
    case '\U{FB02}' => "FL"
    case '\U{FB03}' => "FFI"
    case '\U{FB04}' => "FFL"
    case '\U{FB05}' => "ST"
    case '\U{FB06}' => "ST"
    case _ => [if 'a' <= c <= 'z' then c - 'a' + 'A' else c]
  }

  // Each character replaced by a text.
  function Spread(f: char -> string, s: string): string {
    if s == [] then [] else Spread(f, s[..|s| - 1]) + f(s[|s| - 1])
  }

  function UpperAll(s: string): string { Spread(UpperCase, s) }

  function Lower(c: char): char { if 'A' <= c <= 'Z' then c - 'A' + 'a' else c }

  // ALPHABET.indexOf(c)
  function IndexIn(s: string, c: char): int {
    if s == [] then -1
    else if s[0] == c then 0
    else
      var i := IndexIn(s[1..], c);
      if i < 0 then -1 else i + 1
  }

  lemma {:induction false} IndexInFinds(s: string, c: char)
    ensures -1 <= IndexIn(s, c) < |s|
    ensures IndexIn(s, c) == -1 <==> c !in s
    ensures IndexIn(s, c) >= 0 ==> s[IndexIn(s, c)] == c && c !in s[..IndexIn(s, c)]
  {
    if s != [] && s[0] != c {
      IndexInFinds(s[1..], c);
      var i := IndexIn(s[1..], c);
      if i >= 0 {
        assert s[..i + 1] == [s[0]] + s[1..][..i];
      }
    }
  }

  predicate InAlphabet(c: char) { 'A' <= c <= 'Z' || '2' <= c <= '7' }

  // ALPHABET.indexOf(c)
  function SymbolOf(c: char): (i: int)
    ensures -1 <= i < 32 && (i == -1 <==> !InAlphabet(c))
  {
    if 'A' <= c <= 'Z' then (c - 'A') as int
    else if '2' <= c <= '7' then (c - '2') as int + 26
    else -1
  }

  lemma LetterIsAlphabet(v: symbol)
    ensures ALPHABET[v] == Letter(v) && SymbolOf(Letter(v)) == v && UpperCase(Letter(v)) == [Letter(v)]
  {
  }

  lemma LetterOfSymbol(c: char)
    requires InAlphabet(c)
    ensures Letter(SymbolOf(c)) == c
  {
  }

  lemma AlphabetHas(c: char)
    ensures c in ALPHABET <==> InAlphabet(c)
  {
    forall i | 0 <= i < |ALPHABET| ensures InAlphabet(ALPHABET[i]) {
      LetterIsAlphabet(i);
    }
    if InAlphabet(c) {
      LetterOfSymbol(c);
      LetterIsAlphabet(SymbolOf(c));
    }
  }

  lemma SymbolIsIndexOf(c: char)
    ensures IndexIn(ALPHABET, c) == SymbolOf(c)
  {
    IndexInFinds(ALPHABET, c);
    AlphabetHas(c);
    var i := IndexIn(ALPHABET, c);
    if i >= 0 {
      LetterIsAlphabet(i);
    }
  }

  // str.replace(/=+$/, '')
  function TrimPadding(s: string): string {
    if s != [] && s[|s| - 1] == '=' then TrimPadding(s[..|s| - 1]) else s
  }

  // The symbols in a text, other characters skipped.
  function Letters(s: string): seq<symbol> {
    if s == [] then []
    else
      var before, i := Letters(s[..|s| - 1]), SymbolOf(s[|s| - 1]);
      if i < 0 then before else before + [i]
  }

  // The symbols a text stands for, whatever the case of its letters.
  function Significant(s: string): seq<symbol> { Letters(UpperAll(s)) }

  function DecodeSpec(s: string): seq<byte> { Bytes(Payload(Significant(s))) }

  // ---------- groups ----------

  // flushed is n whole groups.
  lemma {:induction false} SymbolsAppend(flushed: seq<bool>, n: nat, rest: seq<bool>)
    requires |flushed| == 5 * n
    ensures Symbols(flushed + rest) == Symbols(flushed) + Symbols(rest)
    decreases n
  {
    if n == 0 {
      assert flushed + rest == rest;
    } else {
      var bs := flushed + rest;
      assert bs[..5] == flushed[..5] && bs[5..] == flushed[5..] + rest;
      SymbolsAppend(flushed[5..], n - 1, rest);
      var first := [SymbolValue(bs[..5])];
      assert first + (Symbols(flushed[5..]) + Symbols(rest)) == (first + Symbols(flushed[5..])) + Symbols(rest);
    }
  }

  lemma OneSymbol(group: seq<bool>)
    requires 0 < |group| <= 5
    ensures Symbols(group) == [SymbolValue(group + Zeros(5 - |group|))]
  {
    if |group| == 5 {
      assert group[..5] == group && group[5..] == [];
      assert group + Zeros(0) == group;
    }
  }

  lemma {:induction false} BytesAppend(flushed: seq<bool>, n: nat, rest: seq<bool>)
    requires |flushed| == 8 * n
    ensures Bytes(flushed + rest) == Bytes(flushed) + Bytes(rest)
    decreases n
  {
    if n == 0 {
      assert flushed + rest == rest;
    } else {
      var bs := flushed + rest;
      assert bs[..8] == flushed[..8] && bs[8..] == flushed[8..] + rest;
      BytesAppend(flushed[8..], n - 1, rest);
      var first := [ByteValue(bs[..8])];
      assert first + (Bytes(flushed[8..]) + Bytes(rest)) == (first + Bytes(flushed[8..])) + Bytes(rest);
    }
  }

  lemma OneByte(group: seq<bool>)
    requires |group| == 8
    ensures Bytes(group) == [ByteValue(group)]
  {
    assert group[..8] == group && group[8..] == [];
  }

  lemma LeftoverIsDropped(flushed: seq<bool>, n: nat, rest: seq<bool>)
    requires |flushed| == 8 * n && |rest| < 8
    ensures Bytes(flushed + rest) == Bytes(flushed)
  {
    BytesAppend(flushed, n, rest);
  }

  lemma TextAppend(a: seq<symbol>, v: symbol)
    ensures Text(a + [v]) == Text(a) + [Letter(v)]
  {
    assert (a + [v])[..|a|] == a;
  }

  // Taking the top n of the pending bits out of the word.
  lemma TakeBits(value: nat, bits: nat, n: nat, p: nat)
    requires n <= bits && p == Pow2(n)
    ensures
      var top := And(Shr(value, bits - n), p - 1);
      && BitsOf(value, bits) == BitsOf(top, n) + BitsOf(value, bits - n)
      && top < p
  {
    var shifted := Shr(value, bits - n);
    AndOnes(shifted, n);
    BitsSplit(value, n, bits - n);
    BitsOfMod(shifted, n, n);
    Euclid(shifted, p);
  }

  // ---------- the encoder ----------

  lemma TakeByte(stream: seq<bool>, flushed: seq<bool>, value: nat, bits: nat, b: byte)
    requires bits < 5 && stream == flushed + BitsOf(value, bits)
    ensures
      var next := Or(Shl(value, 8), b);
      next < WORD && stream + BitsOf(b, 8) == flushed + BitsOf(next, bits + 8)
  {
    PowersOfTwo();
    AppendBits(value, bits, b, 8);
    Regrouped(flushed, BitsOf(value, bits), BitsOf(b, 8));
  }

  lemma EmitSymbol(flushed: seq<bool>, n: nat, value: nat, bits: nat)
    requires bits >= 5 && |flushed| == 5 * n
    ensures
      var v := And(Shr(value, bits - 5), 31);
      var more := flushed + BitsOf(v, 5);
      && v < 32 && flushed + BitsOf(value, bits) == more + BitsOf(value, bits - 5)
      && Text(Symbols(more)) == Text(Symbols(flushed)) + [Letter(v)]
  {
    assert Pow2(5) == 32 by { PowersOfTwo(); }
    TakeBits(value, bits, 5, 32);
    var v := And(Shr(value, bits - 5), 31);
    Regrouped(flushed, BitsOf(v, 5), BitsOf(value, bits - 5));
    AppendSymbol(flushed, n, v as symbol);
  }

  lemma Regrouped(a: seq<bool>, b: seq<bool>, c: seq<bool>)
    ensures a + (b + c) == (a + b) + c
  {
  }

  lemma AppendSymbol(flushed: seq<bool>, n: nat, v: symbol)
    requires |flushed| == 5 * n
    ensures Text(Symbols(flushed + BitsOf(v, 5))) == Text(Symbols(flushed)) + [Letter(v)]
  {
    var group := BitsOf(v, 5);
    SymbolsAppend(flushed, n, group);
    OneSymbol(group);
    assert group + Zeros(0) == group;
    SymbolOfBits(v);
    TextAppend(Symbols(flushed), v);
  }

  lemma EmitLast(flushed: seq<bool>, n: nat, value: nat, bits: nat)
    requires 0 < bits < 5 && |flushed| == 5 * n
    ensures
      var v := And(Shl(value, 5 - bits), 31);
      v < 32 && Text(Symbols(flushed + BitsOf(value, bits))) == Text(Symbols(flushed)) + [Letter(v)]
  {
    var v := And(Shl(value, 5 - bits), 31);
    FilledUp(value, bits);
    SymbolsAppend(flushed, n, BitsOf(value, bits));
    OneSymbol(BitsOf(value, bits));
    TextAppend(Symbols(flushed), v);
  }

  lemma FilledUp(value: nat, bits: nat)
    requires 0 < bits < 5
    ensures And(Shl(value, 5 - bits), 31) == SymbolValue(BitsOf(value, bits) + Zeros(5 - bits))
  {
    var n := 5 - bits;
    var kept := value % Pow2(32 - n);
    PowersOfTwo();
    AndOnes(Shl(value, n), 5);
    ShiftedWord(value, n);
    Pow2Add(bits, n);
    ScaledMod(kept, Pow2(bits), Pow2(n));
    BitsOfMod(value, bits, 32 - n);
    ValueOfBits(kept, bits);
    ValueOfPadded(BitsOf(value, bits), n);
  }

  // All the whole groups of five among the pending bits.
  method EmitSymbols(ghost flushed: seq<bool>, out0: string, value: nat, bits0: nat)
    returns (ghost emitted: seq<bool>, out: string, bits: nat)
    requires bits0 < 13 && |flushed| == 5 * |out0| && out0 == Text(Symbols(flushed))
    ensures bits < 5 && |emitted| == 5 * |out| && out == Text(Symbols(emitted))
    ensures flushed + BitsOf(value, bits0) == emitted + BitsOf(value, bits)
  {
    emitted, out, bits := flushed, out0, bits0;
    while bits >= 5
      invariant bits < 13 && |emitted| == 5 * |out| && out == Text(Symbols(emitted))
      invariant flushed + BitsOf(value, bits0) == emitted + BitsOf(value, bits)
    {
      EmitSymbol(emitted, |out|, value, bits);
      var v := And(Shr(value, bits - 5), 31);
      emitted := emitted + BitsOf(v, 5);
      out := out + [Letter(v)];
      bits := bits - 5;
    }
  }

  method Base32Encode(buf: seq<byte>) returns (out: string)
    ensures out == EncodeSpec(buf)
  {
    var bits: nat, value: nat := 0, 0;
    out := "";
    ghost var flushed: seq<bool> := [];
    var i := 0;
    while i < |buf|
      invariant 0 <= i <= |buf| && bits < 5 && value < WORD
      invariant |flushed| == 5 * |out| && Stream(buf[..i]) == flushed + BitsOf(value, bits)
      invariant out == Text(Symbols(flushed))
    {
      TakeByte(Stream(buf[..i]), flushed, value, bits, buf[i]);
      assert buf[..i + 1][..i] == buf[..i];
      value := Or(Shl(value, 8), buf[i]);
      flushed, out, bits := EmitSymbols(flushed, out, value, bits + 8);
      i := i + 1;
    }
    assert buf[..i] == buf;
    if bits > 0 {
      EmitLast(flushed, |out|, value, bits);
      out := out + [Letter(And(Shl(value, 5 - bits), 31))];
    } else {
      assert flushed + BitsOf(value, 0) == flushed;
    }
  }

  // ---------- the decoder ----------

  lemma TakeSymbol(symbols: seq<symbol>, flushed: seq<bool>, value: nat, bits: nat, idx: symbol)
    requires bits < 8 && Payload(symbols) == flushed + BitsOf(value, bits)
    ensures
      var next := Or(Shl(value, 5), idx);
      next < WORD && Payload(symbols + [idx]) == flushed + BitsOf(next, bits + 5)
  {
    PowersOfTwo();
    AppendBits(value, bits, idx, 5);
    assert (symbols + [idx])[..|symbols|] == symbols;
    Regrouped(flushed, BitsOf(value, bits), BitsOf(idx, 5));
  }

  lemma EmitByte(flushed: seq<bool>, n: nat, value: nat, bits: nat)
    requires bits >= 8 && |flushed| == 8 * n
    ensures
      var b := And(Shr(value, bits - 8), 0xff);
      var more := flushed + BitsOf(b, 8);
      && b < 256 && flushed + BitsOf(value, bits) == more + BitsOf(value, bits - 8)
      && Bytes(more) == Bytes(flushed) + [b]
  {
    assert Pow2(8) == 256 by { PowersOfTwo(); }
    TakeBits(value, bits, 8, 256);
    var b := And(Shr(value, bits - 8), 0xff);
    AppendByte(flushed, n, b);
    Regrouped(flushed, BitsOf(b, 8), BitsOf(value, bits - 8));
  }

  lemma AppendByte(flushed: seq<bool>, n: nat, b: byte)
    requires |flushed| == 8 * n
    ensures Bytes(flushed + BitsOf(b, 8)) == Bytes(flushed) + [b]
  {
    BytesAppend(flushed, n, BitsOf(b, 8));
    OneByte(BitsOf(b, 8));
    ByteOfBits(b);
  }

  method Base32Decode(str: string) returns (out: seq<byte>)
    ensures out == DecodeSpec(str)
  {
    out := DecodeUpper(UpperAll(TrimPadding(str)));
    PaddingIsInsignificant(str);
  }

  // The loop over the characters.
  method DecodeUpper(text: string) returns (out: seq<byte>)
    ensures out == Bytes(Payload(Letters(text)))
  {
    var bits: nat, value: nat := 0, 0;
    out := [];
    ghost var flushed: seq<bool> := [];
    var i := 0;
    while i < |text|
      invariant 0 <= i <= |text| && bits < 8 && value < WORD
      invariant |flushed| == 8 * |out| && Payload(Letters(text[..i])) == flushed + BitsOf(value, bits)
      invariant out == Bytes(flushed)
    {
      LettersStep(text, i);
      var idx := SymbolOf(text[i]);
      if idx != -1 {
        TakeSymbol(Letters(text[..i]), flushed, value, bits, idx);
        value := Or(Shl(value, 5), idx);
        flushed, out, bits := EmitIfFull(flushed, out, value, bits + 5);
      }
      i := i + 1;
    }
    assert text[..i] == text;
    LeftoverIsDropped(flushed, |out|, BitsOf(value, bits));
  }

  // The first eight pending bits, once there are that many.
  method EmitIfFull(ghost flushed: seq<bool>, out0: seq<byte>, value: nat, bits0: nat)
    returns (ghost emitted: seq<bool>, out: seq<byte>, bits: nat)
    requires bits0 < 16 && |flushed| == 8 * |out0| && out0 == Bytes(flushed)
    ensures bits < 8 && |emitted| == 8 * |out| && out == Bytes(emitted)
    ensures flushed + BitsOf(value, bits0) == emitted + BitsOf(value, bits)
  {
    emitted, out, bits := flushed, out0, bits0;
    if bits >= 8 {
      EmitByte(flushed, |out|, value, bits);
      var b := And(Shr(value, bits - 8), 0xff);
      emitted := flushed + BitsOf(b, 8);
      out := out + [b];
      bits := bits - 8;
    }
  }

  lemma LettersStep(s: string, i: nat)
    requires i < |s|
    ensures
      var before, idx := Letters(s[..i]), SymbolOf(s[i]);
      Letters(s[..i + 1]) == if idx < 0 then before else before + [idx]
  {
    assert s[..i + 1][..i] == s[..i];
  }

  lemma {:induction false} PaddingIsInsignificant(s: string)
    ensures Significant(TrimPadding(s)) == Significant(s)
  {
    if s != [] && s[|s| - 1] == '=' {
      var front := s[..|s| - 1];
      PaddingIsInsignificant(front);
      OnePaddingIsInsignificant(front);
      assert s == front + "=";
    }
  }

  lemma OnePaddingIsInsignificant(s: string)
    ensures Significant(s + "=") == Significant(s)
  {
    SignificantAppend(s, "=");
    assert Significant("=") == [] by {
      AsciiJunkIsSkipped("=");
      JunkIsInsignificant("=");
    }
  }

  // ---------- what the pair guarantees ----------

  lemma {:induction false} LettersAppend(a: string, b: string)
    ensures Letters(a + b) == Letters(a) + Letters(b)
    decreases |b|
  {
    if b == [] {
      assert a + b == a;
    } else {
      assert (a + b)[..|a + b| - 1] == a + b[..|b| - 1];
      LettersAppend(a, b[..|b| - 1]);
    }
  }

  lemma {:induction false} SpreadAppend(f: char -> string, a: string, b: string)
    ensures Spread(f, a + b) == Spread(f, a) + Spread(f, b)
    decreases |b|
  {
    if b == [] {
      assert a + b == a;
    } else {
      assert (a + b)[..|a + b| - 1] == a + b[..|b| - 1];
      SpreadAppend(f, a, b[..|b| - 1]);
    }
  }

  lemma {:induction false} SpreadKeeps(f: char -> string, s: string)
    requires forall i | 0 <= i < |s| :: f(s[i]) == [s[i]]
    ensures Spread(f, s) == s
  {
    if s != [] {
      var front, c := s[..|s| - 1], s[|s| - 1];
      assert s == front + [c];
      SpreadKeeps(f, front);
    }
  }

  lemma {:induction false} SpreadAlike(f: char -> string, s: string, r: string)
    requires |s| == |r| && forall i | 0 <= i < |s| :: f(s[i]) == f(r[i])
    ensures Spread(f, s) == Spread(f, r)
  {
    if s != [] {
      SpreadAlike(f, s[..|s| - 1], r[..|s| - 1]);
    }
  }

  lemma {:induction false} SpreadHasNoLetters(f: char -> string, s: string)
    requires forall c | c in s :: forall u | u in f(c) :: !InAlphabet(u)
    ensures Letters(Spread(f, s)) == []
  {
    if s != [] {
      var c := s[|s| - 1];
      assert c in s;
      SpreadHasNoLetters(f, s[..|s| - 1]);
      LettersAppend(Spread(f, s[..|s| - 1]), f(c));
      NoLetters(f(c));
    }
  }

  lemma {:induction false} NoLetters(s: string)
    requires forall u | u in s :: !InAlphabet(u)
    ensures Letters(s) == []
  {
    if s != [] {
      assert s[|s| - 1] in s;
      NoLetters(s[..|s| - 1]);
    }
  }

  lemma SignificantAppend(a: string, b: string)
    ensures Significant(a + b) == Significant(a) + Significant(b)
  {
    SpreadAppend(UpperCase, a, b);
    LettersAppend(UpperAll(a), UpperAll(b));
  }

  lemma LettersSnoc(s: string, v: symbol)
    ensures Letters(s + [Letter(v)]) == Letters(s) + [v]
  {
    assert (s + [Letter(v)])[..|s|] == s;
    LetterIsAlphabet(v);
  }

  lemma {:induction false} LettersOfText(symbols: seq<symbol>)
    ensures Letters(Text(symbols)) == symbols
  {
    if symbols != [] {
      var k := |symbols| - 1;
      LettersOfText(symbols[..k]);
      LettersSnoc(Text(symbols[..k]), symbols[k]);
    }
  }

  lemma {:induction false} TextIsInAlphabet(symbols: seq<symbol>, i: nat)
    requires i < |symbols|
    ensures InAlphabet(Text(symbols)[i])
  {
    var k := |symbols| - 1;
    if i < k {
      TextIsInAlphabet(symbols[..k], i);
    } else {
      LetterInAlphabet(symbols[k]);
    }
  }

  lemma LetterInAlphabet(v: symbol)
    ensures InAlphabet(Letter(v))
  {
  }

  lemma SignificantText(symbols: seq<symbol>)
    ensures Significant(Text(symbols)) == symbols
  {
    LettersOfText(symbols);
    forall i | 0 <= i < |symbols| ensures UpperCase(Text(symbols)[i]) == [Text(symbols)[i]] {
      TextIsInAlphabet(symbols, i);
      AlphabetIsUpper(Text(symbols)[i]);
    }
    SpreadKeeps(UpperCase, Text(symbols));
  }

  lemma AlphabetIsUpper(c: char)
    requires InAlphabet(c)
    ensures UpperCase(c) == [c]
  {
  }

  // Reading the symbols of a bit string back gives the bit string, filled up with n zeros.
  lemma {:induction false} PayloadOfSymbols(bs: seq<bool>) returns (n: nat)
    ensures n < 5 && Payload(Symbols(bs)) == bs + Zeros(n)
    decreases |bs|
  {
    if bs == [] {
      n := 0;
    } else if |bs| < 5 {
      n := 5 - |bs|;
      PayloadFront(bs + Zeros(n), []);
      assert [SymbolValue(bs + Zeros(n))] + [] == [SymbolValue(bs + Zeros(n))];
    } else {
      n := PayloadOfSymbols(bs[5..]);
      PayloadFront(bs[..5], Symbols(bs[5..]));
      assert bs[..5] + (bs[5..] + Zeros(n)) == bs + Zeros(n);
    }
  }

  lemma {:induction false} PayloadFront(group: seq<bool>, symbols: seq<symbol>)
    requires |group| == 5
    ensures Payload([SymbolValue(group)] + symbols) == group + Payload(symbols)
  {
    var v := SymbolValue(group);
    if symbols == [] {
      SymbolBits(group);
      assert [v] + symbols == [v] && [v][..0] == [];
    } else {
      var k := |symbols| - 1;
      assert ([v] + symbols)[..k + 1] == [v] + symbols[..k];
      PayloadFront(group, symbols[..k]);
      var last := BitsOf(symbols[k], 5);
      assert group + (Payload(symbols[..k]) + last) == group + Payload(symbols[..k]) + last;
    }
  }

  lemma {:induction false} BytesOfStream(bytes: seq<byte>)
    ensures Bytes(Stream(bytes)) == bytes
  {
    if bytes != [] {
      var k := |bytes| - 1;
      BytesOfStream(bytes[..k]);
      AppendByte(Stream(bytes[..k]), k, bytes[k]);
    }
  }

  // Decoding undoes encoding, for every byte sequence.
  lemma RoundTrip(bytes: seq<byte>)
    ensures DecodeSpec(EncodeSpec(bytes)) == bytes
  {
    var bs := Stream(bytes);
    SignificantText(Symbols(bs));
    var n := PayloadOfSymbols(bs);
    LeftoverIsDropped(bs, |bytes|, Zeros(n));
    BytesOfStream(bytes);
  }

  // Outside ASCII only these characters are read as letters.
  lemma ForeignLetters(c: char)
    requires c >= 128 as char
    ensures !Skipped([c])
       <==> || c == '\U{00DF}' || c == '\U{0131}' || c == '\U{0149}' || c == '\U{017F}' || c == '\U{01F0}'
            || '\U{1E96}' <= c <= '\U{1E9A}' || '\U{FB00}' <= c <= '\U{FB06}'
  {
    var up := UpperCase(c);
    assert Skipped([c]) <==> forall u | u in up :: !InAlphabet(u) by {
      assert c in [c];
    }
    if up != [c] {
      assert InAlphabet(if c == '\U{0149}' then up[1] else up[0]);
    }
  }

  // Nothing of the alphabet is left of these characters in upper case.
  predicate Skipped(junk: string) { forall c | c in junk :: forall u | u in UpperCase(c) :: !InAlphabet(u) }

  // Such characters can be put in anywhere, trailing padding included.
  lemma InsertionsAreSkipped(a: string, junk: string, b: string)
    requires Skipped(junk)
    ensures DecodeSpec(a + junk + b) == DecodeSpec(a + b)
  {
    JunkIsInsignificant(junk);
    SignificantAppend(a + junk, b);
    SignificantAppend(a, junk);
    SignificantAppend(a, b);
    assert Significant(a) + [] == Significant(a);
  }

  lemma JunkIsInsignificant(junk: string)
    requires Skipped(junk)
    ensures Significant(junk) == []
  {
    SpreadHasNoLetters(UpperCase, junk);
  }

  // ASCII characters other than letters and the digits 2 to 7 are of this kind.
  lemma AsciiJunkIsSkipped(junk: string)
    requires forall c | c in junk :: c < 128 as char && !InAlphabet(c) && !('a' <= c <= 'z')
    ensures Skipped(junk)
  {
  }

  function LowerAll(s: string): (r: string)
    ensures |r| == |s|
  {
    seq(|s|, i requires 0 <= i < |s| => Lower(s[i]))
  }

  lemma LowerIsUppered(c: char)
    ensures UpperCase(Lower(c)) == UpperCase(c)
  {
  }

  // Letter case does not matter.
  lemma CaseIsIgnored(s: string)
    ensures Significant(LowerAll(s)) == Significant(s)
    ensures DecodeSpec(LowerAll(s)) == DecodeSpec(s)
  {
    forall i | 0 <= i < |s| ensures UpperCase(LowerAll(s)[i]) == UpperCase(s[i]) {
      LowerIsUppered(s[i]);
    }
    SpreadAlike(UpperCase, LowerAll(s), s);
  }
}
