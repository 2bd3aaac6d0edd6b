/**
 Encryption at rest: the text form of a ciphertext and the tolerant decryption that passes through
 whatever does not look like one. The authenticated cipher itself is a parameter.
 */
module Cipher {
  import opened Prelude

  // seal: initialisation vector and plaintext to tag and ciphertext; unseal: the inverse, failing
  // on anything else.
  datatype Gcm = Gcm(
    seal: (seq<byte>, string) -> (seq<byte>, seq<byte>),
    unseal: (seq<byte>, seq<byte>, seq<byte>) -> Option<string>)

  // A stream cipher keeps the length, and unsealing undoes sealing.
  ghost predicate Sound(g: Gcm) {
    forall iv: seq<byte>, v: string ::
      && g.seal(iv, v).0 != []
      && (g.seal(iv, v).1 == [] <==> v == "")
      && g.unseal(iv, g.seal(iv, v).0, g.seal(iv, v).1) == Some(v)
  }

  // ---------- hexadecimal ----------

  function HexDigit(n: int): char
    requires 0 <= n < 16
  {
    if n < 10 then '0' + n as char else 'a' + (n - 10) as char
  }

  predicate IsHex(c: char) { '0' <= c <= '9' || 'a' <= c <= 'f' || 'A' <= c <= 'F' }

  function HexValue(c: char): int
    requires IsHex(c)
  {
    if c <= '9' then (c - '0') as int else if c <= 'F' then (c - 'A') as int + 10 else (c - 'a') as int + 10
  }

  function Hex(bytes: seq<byte>): (s: string)
    ensures |s| == 2 * |bytes| && forall c | c in s :: IsHex(c)
  {
    if bytes == [] then "" else [HexDigit(bytes[0] / 16), HexDigit(bytes[0] % 16)] + Hex(bytes[1..])
  }

  // Buffer.from(s, 'hex'): whole pairs of digits, up to the first that is not one.
  function FromHex(s: string): seq<byte> {
    if |s| < 2 || !IsHex(s[0]) || !IsHex(s[1]) then [] else [16 * HexValue(s[0]) + HexValue(s[1])] + FromHex(s[2..])
  }

  lemma {:induction false} FromHexOfHex(bytes: seq<byte>)
    ensures FromHex(Hex(bytes)) == bytes
  {
    if bytes != [] {
      FromHexOfHex(bytes[1..]);
      assert Hex(bytes)[2..] == Hex(bytes[1..]);
    }
  }

  // Each byte is written as its two digits, the higher one first, in lower case.
  lemma {:induction false} HexWritesBytes(bytes: seq<byte>, i: nat)
    requires i < |bytes|
    ensures
      var high, low := Hex(bytes)[2 * i], Hex(bytes)[2 * i + 1];
      && 16 * HexValue(high) + HexValue(low) == bytes[i]
      && !('A' <= high <= 'F') && !('A' <= low <= 'F')
  {
    if i > 0 {
      HexWritesBytes(bytes[1..], i - 1);
      assert Hex(bytes)[2..] == Hex(bytes[1..]);
      assert Hex(bytes)[2 * i] == Hex(bytes[1..])[2 * (i - 1)];
      assert Hex(bytes)[2 * i + 1] == Hex(bytes[1..])[2 * (i - 1) + 1];
    }
  }

  // ---------- the text form ----------

  lemma ReadPair(b: byte, rest: string)
    ensures FromHex([HexDigit(b / 16), HexDigit(b % 16)] + rest) == [b] + FromHex(rest)
  {
    assert ([HexDigit(b / 16), HexDigit(b % 16)] + rest)[2..] == rest;
  }

  // Reading ends at a pair that is not one: a lone last character, or two that are not both digits.
  lemma {:induction false} ReadingStops(bytes: seq<byte>, tail: string)
    requires |tail| < 2 || !IsHex(tail[0]) || !IsHex(tail[1])
    ensures FromHex(Hex(bytes) + tail) == bytes
  {
    if bytes == [] {
      assert Hex(bytes) + tail == tail;
    } else {
      var rest := Hex(bytes[1..]) + tail;
      ReadingStops(bytes[1..], tail);
      assert Hex(bytes) + tail == [HexDigit(bytes[0] / 16), HexDigit(bytes[0] % 16)] + rest;
      ReadPair(bytes[0], rest);
    }
  }

  // s.split(':')
  function Split(s: string): (parts: seq<string>)
    ensures |parts| > 0
  {
    if s == "" then [""]
    else
      var rest := Split(s[1..]);
      if s[0] == ':' then [""] + rest else [[s[0]] + rest[0]] + rest[1..]
  }

  lemma {:induction false} SplitWord(word: string)
    requires forall c | c in word :: IsHex(c)
    ensures Split(word) == [word]
  {
    if word != "" {
      assert word[0] in word && forall c | c in word[1..] :: c in word;
      SplitWord(word[1..]);
      assert [word[0]] + word[1..] == word;
    }
  }

  lemma {:induction false} SplitFirst(word: string, rest: string)
    requires forall c | c in word :: IsHex(c)
    ensures Split(word + ":" + rest) == [word] + Split(rest)
  {
    var s := word + ":" + rest;
    if word == "" {
      assert s[1..] == rest;
    } else {
      assert word[0] in word && forall c | c in word[1..] :: c in word;
      SplitFirst(word[1..], rest);
      assert s[1..] == word[1..] + ":" + rest;
      assert [word[0]] + word[1..] == word;
      assert Split(s) == [[word[0]] + Split(s[1..])[0]] + Split(s[1..])[1..];
    }
  }

  function Encrypt(g: Gcm, v: string, iv: seq<byte>): string {
    var (tag, data) := g.seal(iv, v);
    Hex(iv) + ":" + (Hex(tag) + ":" + Hex(data))
  }

  // None when decryption throws.
  function Decrypt(g: Gcm, payload: string): Option<string> {
    var parts := Split(payload);
    if |parts| < 3 then None else g.unseal(FromHex(parts[0]), FromHex(parts[1]), FromHex(parts[2]))
  }

  // /^[0-9a-f]+:[0-9a-f]+:[0-9a-f]+$/i
  predicate LooksEncrypted(s: string) {
    var parts := Split(s);
    |parts| == 3 && forall i | 0 <= i < 3 :: parts[i] != "" && forall c | c in parts[i] :: IsHex(c)
  }

  function DecryptSafe(g: Gcm, stored: string): string {
    if stored == "" then ""
    else if !LooksEncrypted(stored) then stored
    else Decrypt(g, stored).GetOr(stored)
  }

  lemma EncryptedParts(g: Gcm, v: string, iv: seq<byte>)
    ensures Split(Encrypt(g, v, iv)) == [Hex(iv), Hex(g.seal(iv, v).0), Hex(g.seal(iv, v).1)]
  {
    var (tag, data) := g.seal(iv, v);
    SplitFirst(Hex(iv), Hex(tag) + ":" + Hex(data));
    SplitFirst(Hex(tag), Hex(data));
    SplitWord(Hex(data));
  }

  // Text that holds any character but hexadecimal digits and colons is not taken for a ciphertext, and
  // passes through.
  lemma PlainTextPasses(g: Gcm, s: string, i: nat)
    requires i < |s| && !IsHex(s[i]) && s[i] != ':'
    ensures DecryptSafe(g, s) == s
  {
    PartsHoldTheText(s, i);
  }

  lemma {:induction false} PartsHoldTheText(s: string, i: nat)
    requires i < |s| && s[i] != ':'
    ensures exists p :: 0 <= p < |Split(s)| && s[i] in Split(s)[p]
  {
    var rest := Split(s[1..]);
    if i == 0 {
      assert s[i] in Split(s)[0];
    } else {
      PartsHoldTheText(s[1..], i - 1);
      var p :| 0 <= p < |rest| && s[i] in rest[p];
      if s[0] == ':' {
        assert Split(s)[p + 1] == rest[p];
      } else if p == 0 {
        assert s[i] in Split(s)[0];
      } else {
        assert Split(s)[p] == rest[p];
      }
    }
  }

  // Reading back what was encrypted works for every text but the empty one, whose ciphertext is
  // empty too and is then taken for plain text.
  lemma DecryptSafeInvertsIffNonEmpty(g: Gcm, v: string, iv: seq<byte>)
    requires Sound(g) && iv != []
    ensures DecryptSafe(g, Encrypt(g, v, iv)) == v <==> v != ""
  {
    EncryptedParts(g, v, iv);
    var (tag, data) := g.seal(iv, v);
    FromHexOfHex(iv);
    FromHexOfHex(tag);
    FromHexOfHex(data);
    assert Encrypt(g, v, iv) != "";
    assert g.unseal(iv, tag, data) == Some(v);
  }

  // Anything behind a third colon is ignored.
  lemma MorePartsAreIgnored(g: Gcm, v: string, iv: seq<byte>, more: string)
    requires Sound(g)
    ensures Decrypt(g, Encrypt(g, v, iv) + ":" + more) == Some(v)
  {
    var (tag, data) := g.seal(iv, v);
    ThreeParts(Hex(iv), Hex(tag), Hex(data), more);
    FromHexOfHex(iv);
    FromHexOfHex(tag);
    FromHexOfHex(data);
    assert g.unseal(iv, tag, data) == Some(v);
  }

  lemma ThreeParts(a: string, b: string, c: string, more: string)
    requires forall x | x in a + b + c :: IsHex(x)
    ensures Split(a + ":" + (b + ":" + c) + ":" + more) == [a, b, c] + Split(more)
  {
    assert a + ":" + (b + ":" + c) + ":" + more == a + ":" + (b + ":" + (c + ":" + more));
    SplitFirst(a, b + ":" + (c + ":" + more));
    SplitFirst(b, c + ":" + more);
    SplitFirst(c, more);
  }

  // Fewer than two colons make decryption throw, and what cannot be decrypted passes through.
  lemma WhatThrows(g: Gcm, s: string)
    ensures (forall i | 0 <= i < |s| :: s[i] != ':') ==> Decrypt(g, s) == None && Decrypt(g, s + ":") == None
    ensures Decrypt(g, s) == None ==> DecryptSafe(g, s) == s
  {
    if forall i | 0 <= i < |s| :: s[i] != ':' {
      SplitPlain(s);
    }
  }

  lemma {:induction false} SplitPlain(s: string)
    requires forall i | 0 <= i < |s| :: s[i] != ':'
    ensures |Split(s)| == 1 && |Split(s + ":")| == 2
  {
    if s == "" {
      assert (s + ":")[1..] == "";
    } else {
      SplitPlain(s[1..]);
      assert (s + ":")[1..] == s[1..] + ":";
    }
  }
}
