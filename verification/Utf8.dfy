/** UTF-8 as defined in section 3 of RFC 3629, and the arithmetic that both decoders of the repository share. */
module Utf8 {
  import opened Bytes

  predicate Scalar(cp: int) { 0 <= cp <= 0x10FFFF && !(0xD800 <= cp <= 0xDFFF) }

  function EncodeOne(cp: int): (s: seq<byte>)
    requires Scalar(cp)
    ensures 1 <= |s| <= 4
  {
    if cp < 0x80 then [cp]
    else if cp < 0x800 then [0xC0 + cp / 64, 0x80 + cp % 64]
    else if cp < 0x10000 then [0xE0 + cp / 4096, 0x80 + cp / 64 % 64, 0x80 + cp % 64]
    else [0xF0 + cp / 262144, 0x80 + cp / 4096 % 64, 0x80 + cp / 64 % 64, 0x80 + cp % 64]
  }

  predicate Scalars(cps: seq<int>) { forall i :: 0 <= i < |cps| ==> Scalar(cps[i]) }

  function Encode(cps: seq<int>): seq<byte>
    requires Scalars(cps)
  {
    if cps == [] then [] else EncodeOne(cps[0]) + Encode(cps[1..])
  }

  /** The text `s` begins with the character `cp`. */
  predicate StartsWith(s: seq<byte>, cp: int) { Scalar(cp) && EncodeOne(cp) <= s }

  /** Some character begins the text. */
  ghost predicate Starts(s: seq<byte>) { exists cp :: StartsWith(s, cp) }

  predicate Continuation(b: byte) { 0x80 <= b <= 0xBF }

  /** The code point that lead bits and continuation bytes make up. */
  function Fold(lead: int, tail: seq<byte>): int {
    if tail == [] then lead else Fold(lead, tail[..|tail| - 1]) * 64 + tail[|tail| - 1] % 64
  }

  /** How many continuation bytes a lead byte calls for; 0 for a byte that cannot lead. */
  function Trailing(c: byte): nat {
    if 0xC0 <= c <= 0xDF then 1 else if 0xE0 <= c <= 0xEF then 2 else if 0xF0 <= c <= 0xF7 then 3 else 0
  }

  function LeadBits(c: byte): int {
    if Trailing(c) == 1 then c - 0xC0
    else if Trailing(c) == 2 then c - 0xE0
    else if Trailing(c) == 3 then c - 0xF0 else c
  }

  /** Neither overlong nor a surrogate nor too large, for a sequence with `n` continuation bytes. */
  predicate Proper(cp: int, n: nat) {
    && cp >= (if n == 1 then 0x80 else if n == 2 then 0x800 else 0x10000)
    && Scalar(cp)
  }

  predicate Continuations(s: seq<byte>, n: nat) {
    n < |s| && forall i :: 1 <= i <= n ==> Continuation(s[i])
  }

  lemma FoldOne(lead: int, a: byte)
    ensures Fold(lead, [a]) == lead * 64 + a % 64
  {
    assert [a][..0] == [] && Fold(lead, []) == lead;
  }

  lemma FoldTwo(lead: int, a: byte, b: byte)
    ensures Fold(lead, [a, b]) == (lead * 64 + a % 64) * 64 + b % 64
  {
    assert [a, b][..1] == [a];
    FoldOne(lead, a);
  }

  lemma FoldThree(lead: int, a: byte, b: byte, c: byte)
    ensures Fold(lead, [a, b, c]) == ((lead * 64 + a % 64) * 64 + b % 64) * 64 + c % 64
  {
    assert [a, b, c][..2] == [a, b];
    FoldTwo(lead, a, b);
  }

  lemma FoldTail(lead: int, s: seq<byte>, n: nat)
    requires 1 <= n <= 3 && Continuations(s, n)
    ensures Fold(lead, s[1..n + 1]) ==
      if n == 1 then lead * 64 + (s[1] - 0x80)
      else if n == 2 then (lead * 64 + (s[1] - 0x80)) * 64 + (s[2] - 0x80)
      else ((lead * 64 + (s[1] - 0x80)) * 64 + (s[2] - 0x80)) * 64 + (s[3] - 0x80)
  {
    hide Fold;
    assert Continuation(s[1]);
    if n == 1 {
      assert s[1..2] == [s[1]];
      FoldOne(lead, s[1]);
    } else if n == 2 {
      assert Continuation(s[2]) && s[1..3] == [s[1], s[2]];
      FoldTwo(lead, s[1], s[2]);
    } else {
      assert Continuation(s[2]) && Continuation(s[3]) && s[1..4] == [s[1], s[2], s[3]];
      FoldThree(lead, s[1], s[2], s[3]);
    }
  }

  /** Base-64 digits of a number put together from them. */
  lemma Digits(a: int, b: int, c: int, d: int)
    requires 0 <= b < 64 && 0 <= c < 64 && 0 <= d < 64
    ensures (c * 64 + d) / 64 == c && (c * 64 + d) % 64 == d
    ensures ((b * 64 + c) * 64 + d) / 4096 == b && ((b * 64 + c) * 64 + d) / 64 % 64 == c
    ensures (((a * 64 + b) * 64 + c) * 64 + d) / 262144 == a
    ensures (((a * 64 + b) * 64 + c) * 64 + d) / 4096 % 64 == b
    ensures (((a * 64 + b) * 64 + c) * 64 + d) / 64 % 64 == c && (((a * 64 + b) * 64 + c) * 64 + d) % 64 == d
  {
    var u := a * 64 + b;
    var v := u * 64 + c;
    var w := v * 64 + d;
    assert w / 64 == v && v / 64 == u && u / 64 == a;
  }

  /** A number put together again from its base-64 digits. */
  lemma Compose(cp: int)
    requires cp >= 0
    ensures cp / 64 * 64 + cp % 64 == cp
    ensures (cp / 4096 * 64 + cp / 64 % 64) * 64 + cp % 64 == cp
    ensures ((cp / 262144 * 64 + cp / 4096 % 64) * 64 + cp / 64 % 64) * 64 + cp % 64 == cp
  {
    var v := cp / 64;
    var u := v / 64;
    assert cp / 4096 == u && cp / 262144 == u / 64;
  }

  lemma EncodesTwo(c: int, a: int)
    requires 0 <= c < 32 && 0 <= a < 64 && Proper(c * 64 + a, 1)
    ensures EncodeOne(c * 64 + a) == [0xC0 + c, 0x80 + a]
  {
    Digits(0, 0, c, a);
  }

  lemma EncodesThree(c: int, a: int, b: int)
    requires 0 <= c < 16 && 0 <= a < 64 && 0 <= b < 64 && Proper((c * 64 + a) * 64 + b, 2)
    ensures EncodeOne((c * 64 + a) * 64 + b) == [0xE0 + c, 0x80 + a, 0x80 + b]
  {
    Digits(0, c, a, b);
  }

  lemma EncodesFour(c: int, a: int, b: int, d: int)
    requires 0 <= c < 8 && 0 <= a < 64 && 0 <= b < 64 && 0 <= d < 64 && Proper(((c * 64 + a) * 64 + b) * 64 + d, 3)
    ensures EncodeOne(((c * 64 + a) * 64 + b) * 64 + d) == [0xF0 + c, 0x80 + a, 0x80 + b, 0x80 + d]
  {
    Digits(c, a, b, d);
  }

  /** A complete, proper sequence is the encoding of its code point. */
  lemma ProperEncodes(s: seq<byte>, n: nat)
    requires |s| > 0 && n == Trailing(s[0]) && n > 0 && Continuations(s, n)
    requires Proper(Fold(LeadBits(s[0]), s[1..n + 1]), n)
    ensures StartsWith(s, Fold(LeadBits(s[0]), s[1..n + 1])) && |EncodeOne(Fold(LeadBits(s[0]), s[1..n + 1]))| == n + 1
  {
    var lead := LeadBits(s[0]);
    FoldTail(lead, s, n);
    hide Fold, Proper, EncodeOne;
    assert Continuation(s[1]);
    if n == 1 {
      EncodesTwo(lead, s[1] - 0x80);
    } else if n == 2 {
      assert Continuation(s[2]);
      EncodesThree(lead, s[1] - 0x80, s[2] - 0x80);
    } else {
      assert Continuation(s[2]) && Continuation(s[3]);
      EncodesFour(lead, s[1] - 0x80, s[2] - 0x80, s[3] - 0x80);
    }
    assert Scalar(Fold(lead, s[1..n + 1])) by { ProperIsScalar(Fold(lead, s[1..n + 1]), n); }
  }

  lemma ProperIsScalar(cp: int, n: nat)
    requires Proper(cp, n)
    ensures Scalar(cp)
  {
  }

  lemma EncodedBytes(s: seq<byte>, cp: int)
    requires StartsWith(s, cp) && s[0] >= 0x80
    ensures var n := |EncodeOne(cp)| - 1; n == Trailing(s[0]) > 0 && Continuations(s, n)
    ensures LeadBits(s[0]) == EncodeOne(cp)[0] - (if |EncodeOne(cp)| == 2 then 0xC0
      else if |EncodeOne(cp)| == 3 then 0xE0 else 0xF0)
    ensures forall i :: 0 <= i < |EncodeOne(cp)| ==> s[i] == EncodeOne(cp)[i]
  {
    var e := EncodeOne(cp);
    forall i | 0 <= i < |e| ensures s[i] == e[i] {}
  }

  /** An encoded character has a leading byte of the right class, its continuation bytes, and a proper value. */
  lemma EncodedIsProper(s: seq<byte>, cp: int)
    requires StartsWith(s, cp) && s[0] >= 0x80
    ensures var n := Trailing(s[0]);
      n > 0 && Continuations(s, n) && Fold(LeadBits(s[0]), s[1..n + 1]) == cp && Proper(cp, n)
  {
    EncodedBytes(s, cp);
    FoldTail(LeadBits(s[0]), s, Trailing(s[0]));
    hide Fold;
    Compose(cp);
  }

  /** At most one character begins a text. */
  lemma StartsOnce(s: seq<byte>, a: int, b: int)
    requires StartsWith(s, a) && StartsWith(s, b)
    ensures a == b
  {
    if s[0] >= 0x80 {
      EncodedIsProper(s, a);
      EncodedIsProper(s, b);
    } else {
      assert EncodeOne(a)[0] == s[0] == EncodeOne(b)[0];
    }
  }

  /** A missing or wrong continuation byte, or an improper value, rules out every character. */
  lemma BadTail(s: seq<byte>)
    requires |s| > 0 && s[0] >= 0x80
    requires var n := Trailing(s[0]); Continuations(s, n) ==> !Proper(Fold(LeadBits(s[0]), s[1..n + 1]), n)
    ensures !Starts(s)
  {
    if cp :| StartsWith(s, cp) { EncodedIsProper(s, cp); }
  }

  lemma FoldNone(lead: int, s: seq<byte>)
    requires s == []
    ensures Fold(lead, s) == lead
  {
  }

  lemma FoldMore(lead: int, s: seq<byte>, b: byte)
    ensures Fold(lead, s + [b]) == Fold(lead, s) * 64 + b % 64
  {
    assert (s + [b])[..|s|] == s;
  }

  // ---------------------------------------------------------------- texts

  /** A UTF-8 text without the character NUL. */
  ghost predicate IsText(s: seq<byte>) { exists cps :: IsTextOf(s, cps) }

  predicate IsTextOf(s: seq<byte>, cps: seq<int>) { Scalars(cps) && 0 !in cps && Encode(cps) == s }

  /** Text-ness can be checked one character at a time. */
  lemma TextStep(s: seq<byte>, cp: int)
    requires StartsWith(s, cp) && cp != 0
    ensures IsText(s) <==> IsText(s[|EncodeOne(cp)|..])
  {
    var e := EncodeOne(cp);
    var rest := s[|e|..];
    if cps :| IsTextOf(rest, cps) {
      assert ([cp] + cps)[1..] == cps;
      assert Encode([cp] + cps) == e + rest == s;
      assert IsTextOf(s, [cp] + cps);
    }
    if cps :| IsTextOf(s, cps) {
      assert s != [];
      assert StartsWith(s, cps[0]);
      StartsOnce(s, cp, cps[0]);
      assert IsTextOf(rest, cps[1..]);
    }
  }

  lemma TextStarts(s: seq<byte>)
    requires IsText(s) && s != []
    ensures s[0] != 0 && Starts(s)
  {
    var cps :| IsTextOf(s, cps);
    assert StartsWith(s, cps[0]);
  }
}
