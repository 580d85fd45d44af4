/**
 * File names on their way to the browser and back: JSON escaping into a growing buffer, a JSON reader, UTF-8,
 * and the conversion of the received text into name bytes.
 */
module Names {
  import opened Bytes
  import opened Utf8

  const QUOTE: byte := 34
  const BACKSLASH: byte := 92
  const LETTER_U: byte := 117

  predicate NulFree(s: seq<byte>) { 0 !in s }

  // ---------------------------------------------------------------- escaping

  /** A lower-case hexadecimal digit. */
  function HexDigit(d: int): byte
    requires 0 <= d < 16
  {
    if d < 10 then 48 + d else 87 + d
  }

  /** The letter of a two-character escape, if the byte has one. */
  function ShortEscape(c: byte): Option<byte> {
    if c == QUOTE || c == BACKSLASH then Some(c)
    else if c == 8 then Some(98)
    else if c == 12 then Some(102)
    else if c == 10 then Some(110)
    else if c == 13 then Some(114)
    else if c == 9 then Some(116)
    else None
  }

  /** One byte of a name inside a JSON string; bytes outside ASCII become one code point each. */
  function EscapeOne(c: byte): (s: seq<byte>)
    ensures 1 <= |s| <= 6
  {
    if ShortEscape(c).Some? then [BACKSLASH, ShortEscape(c).value]
    else if c < 0x20 || c >= 0x80 then [BACKSLASH, LETTER_U, 48, 48, HexDigit(c / 16), HexDigit(c % 16)]
    else [c]
  }

  function EscapeAll(s: seq<byte>): seq<byte> {
    if s == [] then [] else EscapeAll(s[..|s| - 1]) + EscapeOne(s[|s| - 1])
  }

  lemma EscapeNothing(s: seq<byte>)
    requires s == []
    ensures EscapeAll(s) == []
  {
  }

  lemma EscapeMore(s: seq<byte>, i: nat)
    requires i < |s|
    ensures EscapeAll(s[..i + 1]) == EscapeAll(s[..i]) + EscapeOne(s[i])
  {
    assert s[..i + 1][..i] == s[..i];
  }

  function JsonString(s: seq<byte>): seq<byte> { [QUOTE] + EscapeAll(s) + [QUOTE] }

  /** The growing buffer: contents, a terminator, and room that doubles from 4096. */
  class StrBuf {
    var data: array<byte>
    var len: nat
    var cap: nat

    ghost predicate Valid()
      reads this, data
    {
      data.Length == cap && if cap == 0 then len == 0 else len < cap
    }

    ghost function Contents(): seq<byte>
      reads this, data
      requires Valid()
    {
      data[..len]
    }

    ghost predicate Terminated()
      reads this, data
      requires Valid()
    {
      cap > 0 && data[len] == 0
    }

    constructor ()
      ensures Valid() && Contents() == [] && fresh(data)
    {
      data, len, cap := new byte[0], 0, 0;
    }

    /** Makes room for `extra` more bytes and a terminator; the contents move along unchanged. */
    method Reserve(extra: nat)
      requires Valid()
      modifies this`data, this`cap
      ensures Valid() && Contents() == old(Contents()) && cap >= len + extra + 1
      ensures data == old(data) || fresh(data)
      ensures cap == old(cap) || old(cap) < len + extra + 1
      ensures cap <= old(cap) || cap == 4096 || cap < 2 * (len + extra + 1)
    {
      var need := len + extra + 1;
      if need <= cap { return; }
      var grown := if cap != 0 then cap else 4096;
      while grown < need
        invariant 0 < grown && (grown == 4096 || grown < 2 * need) && cap <= grown
        decreases need - grown
      {
        grown := grown * 2;
      }
      var moved := new byte[grown](
        i requires 0 <= i < grown reads this, data => if i < data.Length then data[i] else 0);
      assert moved[..len] == data[..len];
      data, cap := moved, grown;
    }

    method Append(s: seq<byte>)
      requires Valid()
      modifies this, data
      ensures Valid() && Terminated() && Contents() == old(Contents()) + s && (data == old(data) || fresh(data))
    {
      Reserve(|s|);
      ghost var before := Contents();
      forall i | 0 <= i < |s| { data[len + i] := s[i]; }
      data[len + |s|] := 0;
      assert data[..len + |s|] == before + s;
      len := len + |s|;
    }

    /** Escaping a C string into the buffer, byte by byte. */
    method JsonEscape(s: seq<byte>)
      requires Valid() && NulFree(s)
      modifies this, data
      ensures Valid() && Terminated() && Contents() == old(Contents()) + JsonString(s)
      ensures data == old(data) || fresh(data)
    {
      hide EscapeAll, EscapeOne;
      ghost var start := Contents();
      Append([QUOTE]);
      var i := 0;
      EscapeNothing(s[..0]);
      while i < |s|
        invariant i <= |s| && Valid() && (data == old(data) || fresh(data))
        invariant Contents() == start + [QUOTE] + EscapeAll(s[..i])
      {
        EscapeMore(s, i);
        ghost var before := EscapeAll(s[..i]);
        Append(EscapeOne(s[i]));
        assert start + [QUOTE] + before + EscapeOne(s[i]) == start + [QUOTE] + (before + EscapeOne(s[i]));
        i := i + 1;
      }
      assert s[..i] == s;
      Append([QUOTE]);
    }
  }

  // ---------------------------------------------------------------- a JSON reader

  function HexValue(b: byte): Option<int> {
    if 48 <= b <= 57 then Some(b - 48)
    else if 97 <= b <= 102 then Some(b - 87)
    else if 65 <= b <= 70 then Some(b - 55)
    else None
  }

  /** Four hexadecimal digits. */
  function Hex4(s: seq<byte>): Option<int>
    requires |s| == 4
  {
    var a, b, c, d := HexValue(s[0]), HexValue(s[1]), HexValue(s[2]), HexValue(s[3]);
    if a == None || b == None || c == None || d == None then None
    else Some(((a.value * 16 + b.value) * 16 + c.value) * 16 + d.value)
  }

  function Unescape(b: byte): Option<int> {
    if b == QUOTE || b == BACKSLASH || b == 47 then Some(b)
    else if b == 98 then Some(8)
    else if b == 102 then Some(12)
    else if b == 110 then Some(10)
    else if b == 114 then Some(13)
    else if b == 116 then Some(9)
    else None
  }

  /** One character of a string body after its first byte was seen, as section 7 of RFC 8259 has it. */
  function ReadOne(j: seq<byte>): Option<(int, nat)>
    requires j != []
  {
    if j[0] != BACKSLASH then (if 0x20 <= j[0] < 0x80 && j[0] != QUOTE then Some((j[0], 1)) else None)
    else if |j| < 2 then None
    else if Unescape(j[1]).Some? then Some((Unescape(j[1]).value, 2))
    else if j[1] != LETTER_U || |j| < 6 || Hex4(j[2..6]) == None || !Scalar(Hex4(j[2..6]).value) then None
    else Some((Hex4(j[2..6]).value, 6))
  }

  /** The code points of a string body up to its closing quote, which must be the end. */
  function ReadBody(j: seq<byte>): Option<seq<int>>
    decreases |j|
  {
    if j == [] then None
    else if j[0] == QUOTE then (if |j| == 1 then Some([]) else None)
    else
      var one := ReadOne(j);
      if one == None || one.value.1 == 0 || one.value.1 > |j| then None
      else
        var rest := ReadBody(j[one.value.1..]);
        if rest == None then None else Some([one.value.0] + rest.value)
  }

  function JsonDecode(j: seq<byte>): Option<seq<int>> {
    if j == [] || j[0] != QUOTE then None else ReadBody(j[1..])
  }

  function Prepend(done: seq<int>, rest: Option<seq<int>>): Option<seq<int>> {
    if rest == None then None else Some(done + rest.value)
  }

  lemma PrependTwice(a: seq<int>, b: seq<int>, d: Option<seq<int>>)
    ensures Prepend(a, Prepend(b, d)) == Prepend(a + b, d)
  {
    if d.Some? { assert a + (b + d.value) == a + b + d.value; }
  }

  lemma Unprefixed(d: Option<seq<int>>)
    ensures Prepend([], d) == d
  {
    if d.Some? { assert [] + d.value == d.value; }
  }

  lemma HexRoundTrip(c: byte)
    ensures Hex4([48, 48, HexDigit(c / 16), HexDigit(c % 16)]) == Some(c as int)
  {
  }

  lemma EscapedReadsBack(c: byte, rest: seq<byte>)
    requires c != 0
    ensures EscapeOne(c)[0] != QUOTE && ReadOne(EscapeOne(c) + rest) == Some((c as int, |EscapeOne(c)|))
  {
    HexRoundTrip(c);
    var e := EscapeOne(c);
    var j := e + rest;
    if ShortEscape(c) == None && (c < 0x20 || c >= 0x80) {
      assert j[2..6] == [48, 48, HexDigit(c / 16), HexDigit(c % 16)];
    }
  }

  lemma ReadBodyStep(c: byte, rest: seq<byte>)
    requires c != 0
    ensures ReadBody(EscapeOne(c) + rest) == Prepend([c as int], ReadBody(rest))
  {
    EscapedReadsBack(c, rest);
    hide EscapeOne, ReadOne;
    var j := EscapeOne(c) + rest;
    assert j[|EscapeOne(c)|..] == rest && j[0] == EscapeOne(c)[0];
  }

  lemma Assoc(a: seq<byte>, b: seq<byte>, c: seq<byte>)
    ensures a + b + c == a + (b + c)
  {
  }

  lemma {:induction false} BodyReadsBack(s: seq<byte>, rest: seq<byte>)
    requires NulFree(s)
    ensures ReadBody(EscapeAll(s) + rest) == Prepend(s, ReadBody(rest))
  {
    hide EscapeAll, EscapeOne, ReadBody, Prepend;
    if s == [] {
      EscapeNothing(s);
      assert EscapeAll(s) + rest == rest;
      Unprefixed(ReadBody(rest));
    } else {
      var front, c := s[..|s| - 1], s[|s| - 1];
      EscapeMore(s, |s| - 1);
      assert s[..|s|] == s;
      Assoc(EscapeAll(front), EscapeOne(c), rest);
      BodyReadsBack(front, EscapeOne(c) + rest);
      ReadBodyStep(c, rest);
      PrependTwice(front, [c as int], ReadBody(rest));
      assert front + [c as int] == s;
    }
  }

  /** A JSON reader sees one code point, equal to the byte, for every byte of the name. */
  lemma JsonRoundTrip(s: seq<byte>)
    requires NulFree(s)
    ensures JsonDecode(JsonString(s)) == Some(s)
  {
    var j := JsonString(s);
    assert j[1..] == EscapeAll(s) + [QUOTE];
    assert ReadBody([QUOTE]) == Some([]);
    BodyReadsBack(s, [QUOTE]);
    assert s + [] == s;
  }

  // ---------------------------------------------------------------- the way back

  /** The code points of a UTF-8 text, or None. */
  ghost function Decoded(s: seq<byte>): Option<seq<int>>
    decreases |s|
  {
    if s == [] then Some([])
    else if Starts(s) then
      var cp :| StartsWith(s, cp);
      var rest := Decoded(s[|Utf8.EncodeOne(cp)|..]);
      if rest == None then None else Some([cp] + rest.value)
    else None
  }

  lemma DecodedStep(s: seq<byte>, cp: int)
    requires StartsWith(s, cp)
    ensures Decoded(s) == Prepend([cp], Decoded(s[|Utf8.EncodeOne(cp)|..]))
  {
    var c :| StartsWith(s, c) && Decoded(s) == Prepend([c], Decoded(s[|Utf8.EncodeOne(c)|..]));
    StartsOnce(s, c, cp);
  }

  lemma {:induction false} DecodedEncode(cps: seq<int>)
    requires Scalars(cps)
    ensures Decoded(Encode(cps)) == Some(cps)
  {
    if cps != [] {
      var e, s := Utf8.EncodeOne(cps[0]), Encode(cps);
      assert s[|e|..] == Encode(cps[1..]);
      DecodedStep(s, cps[0]);
      DecodedEncode(cps[1..]);
      assert [cps[0]] + cps[1..] == cps;
    }
  }

  predicate ByteTokens(cps: seq<int>) { forall i :: 0 <= i < |cps| ==> 0 <= cps[i] <= 0xFF }

  predicate HasByteToken(cps: seq<int>) { exists i :: 0 <= i < |cps| && 0x80 <= cps[i] <= 0xFF }

  function ToBytes(cps: seq<int>): seq<byte>
    requires ByteTokens(cps)
  {
    seq(|cps|, i requires 0 <= i < |cps| => cps[i])
  }

  /** The name bytes for a received text: unchanged unless all its characters are bytes and one is not ASCII. */
  ghost function FsPath(s: seq<byte>): seq<byte> {
    var cps := Decoded(s);
    if cps.Some? && ByteTokens(cps.value) && HasByteToken(cps.value) then ToBytes(cps.value) else s
  }

  /** The decoder over a C string: the byte after the last one reads as NUL. */
  method DecodeChar(s: seq<byte>, p: nat) returns (r: Option<(int, nat)>)
    requires p < |s| && NulFree(s)
    ensures r.Some? ==> StartsWith(s[p..], r.value.0) && r.value.1 == p + |Utf8.EncodeOne(r.value.0)| <= |s|
    ensures r.None? ==> !Starts(s[p..])
  {
    hide Proper, Fold;
    var c := s[p];
    ghost var rest := s[p..];
    if c < 0x80 { return Some((c, p + 1)); }
    var n := if 0xC0 <= c <= 0xDF then 2 else if 0xE0 <= c <= 0xEF then 3 else if 0xF0 <= c <= 0xF7 then 4 else 0;
    if n == 0 {
      NoLead(rest);
      return None;
    }
    var cp := LeadBits(c);
    var i := 1;
    FoldNone(cp, s[p + 1..p + 1]);
    while i < n
      invariant 1 <= i <= n && p + i <= |s|
      invariant forall k :: p + 1 <= k < p + i ==> Continuation(s[k])
      invariant cp == Fold(LeadBits(c), s[p + 1..p + i])
    {
      var t := if p + i < |s| then s[p + i] else 0;
      if t == 0 || !(0x80 <= t <= 0xBF) {
        if p + i < |s| { assert rest[i] == t && !Continuation(rest[i]); }
        BadTail(rest);
        return None;
      }
      FoldMore(LeadBits(c), s[p + 1..p + i], t);
      SliceGrows(s, p + 1, p + i);
      cp := cp * 64 + t % 64;
      i := i + 1;
    }
    SliceOfTail(s, p, 1, n);
    forall k | 1 <= k <= n - 1 ensures Continuation(rest[k]) { assert rest[k] == s[p + k]; }
    if (n == 2 && cp < 0x80) || (n == 3 && cp < 0x800) || (n == 4 && (cp < 0x10000 || cp > 0x10FFFF))
        || 0xD800 <= cp <= 0xDFFF {
      RejectedImproper(n, cp);
      BadTail(rest);
      return None;
    }
    AcceptedProper(rest, n, cp);
    ProperEncodes(rest, n - 1);
    return Some((cp, p + n));
  }

  lemma SliceGrows(s: seq<byte>, lo: nat, hi: nat)
    requires lo <= hi < |s|
    ensures s[lo..hi + 1] == s[lo..hi] + [s[hi]]
  {
  }

  lemma SliceOfTail(s: seq<byte>, at: nat, lo: nat, hi: nat)
    requires lo <= hi && at + hi <= |s|
    ensures s[at..][lo..hi] == s[at + lo..at + hi]
  {
  }

  lemma NoLead(s: seq<byte>)
    requires |s| > 0 && s[0] >= 0x80 && Trailing(s[0]) == 0
    ensures !Starts(s)
  {
    BadTail(s);
  }

  lemma RejectedImproper(n: nat, cp: int)
    requires 2 <= n <= 4
    requires (n == 2 && cp < 0x80) || (n == 3 && cp < 0x800) || (n == 4 && (cp < 0x10000 || cp > 0x10FFFF))
      || 0xD800 <= cp <= 0xDFFF
    ensures !Proper(cp, n - 1)
  {
  }

  lemma AcceptedProper(s: seq<byte>, n: nat, cp: int)
    requires |s| > 0 && n == Trailing(s[0]) + 1 && 2 <= n <= 4 && Continuations(s, n - 1)
    requires cp == Fold(LeadBits(s[0]), s[1..n])
    requires !((n == 2 && cp < 0x80) || (n == 3 && cp < 0x800) || (n == 4 && (cp < 0x10000 || cp > 0x10FFFF))
      || 0xD800 <= cp <= 0xDFFF)
    ensures Proper(cp, n - 1)
  {
    FoldTail(LeadBits(s[0]), s, n - 1);
    assert Continuation(s[1]) && (n >= 3 ==> Continuation(s[2])) && (n == 4 ==> Continuation(s[3]));
  }

  lemma DecodeMore(s: seq<byte>, p: nat, done: seq<int>, cp: int, next: nat)
    requires p < |s| && StartsWith(s[p..], cp) && next == p + |Utf8.EncodeOne(cp)| <= |s|
    requires Decoded(s) == Prepend(done, Decoded(s[p..]))
    ensures Decoded(s) == Prepend(done + [cp], Decoded(s[next..]))
  {
    DecodedStep(s[p..], cp);
    hide Decoded, StartsWith, Utf8.EncodeOne;
    assert s[p..][|Utf8.EncodeOne(cp)|..] == s[next..];
    PrependTwice(done, [cp], Decoded(s[next..]));
  }

  lemma NotDecoded(s: seq<byte>, p: nat, done: seq<int>)
    requires p < |s| && Decoded(s) == Prepend(done, Decoded(s[p..])) && !Starts(s[p..])
    ensures Decoded(s) == None
  {
  }

  /** A character beyond U+00FF keeps the text as it is. */
  lemma BeyondBytes(s: seq<byte>, done: seq<int>, cp: int, rest: Option<seq<int>>)
    requires Decoded(s) == Prepend(done + [cp], rest) && cp > 0xFF
    ensures FsPath(s) == s
  {
    if Decoded(s).Some? { assert Decoded(s).value[|done|] == cp; }
  }

  lemma AllDecoded(s: seq<byte>, done: seq<int>)
    requires Decoded(s) == Prepend(done, Decoded([]))
    ensures Decoded(s) == Some(done)
  {
    assert done + [] == done;
  }

  /** Two passes over the text: one to decide, one to write the bytes. */
  method FsPathValue(path: seq<byte>) returns (out: seq<byte>)
    requires NulFree(path)
    ensures out == FsPath(path)
  {
    hide Decoded, StartsWith, Starts;
    var p, hasByteToken := 0, false;
    ghost var done: seq<int> := [];
    assert path[0..] == path;
    Unprefixed(Decoded(path));
    while p < |path|
      invariant p <= |path| && Decoded(path) == Prepend(done, Decoded(path[p..]))
      invariant ByteTokens(done) && |done| <= p && (hasByteToken <==> HasByteToken(done))
    {
      var r := DecodeChar(path, p);
      if r == None {
        NotDecoded(path, p, done);
        return path;
      }
      var (cp, next) := r.value;
      DecodeMore(path, p, done, cp, next);
      if cp > 0xFF {
        BeyondBytes(path, done, cp, Decoded(path[next..]));
        return path;
      }
      CodePoint(path[p..], cp);
      OneMoreToken(done, cp);
      hasByteToken := hasByteToken || 0x80 <= cp;
      done := done + [cp];
      p := next;
    }
    assert path[p..] == [];
    AllDecoded(path, done);
    if !hasByteToken { return path; }
    out := Narrow(path, done);
  }

  lemma CodePoint(s: seq<byte>, cp: int)
    requires StartsWith(s, cp)
    ensures 0 <= cp
  {
  }

  lemma OneMoreToken(done: seq<int>, cp: int)
    requires ByteTokens(done) && 0 <= cp <= 0xFF
    ensures ByteTokens(done + [cp]) && (HasByteToken(done + [cp]) <==> HasByteToken(done) || 0x80 <= cp)
  {
    if HasByteToken(done) {
      var i :| 0 <= i < |done| && 0x80 <= done[i] <= 0xFF;
      assert (done + [cp])[i] == done[i];
    }
    assert (done + [cp])[|done|] == cp;
  }

  /** The second pass. */
  method Narrow(path: seq<byte>, ghost cps: seq<int>) returns (out: seq<byte>)
    requires NulFree(path) && Decoded(path) == Some(cps) && ByteTokens(cps)
    ensures out == ToBytes(cps)
  {
    hide Decoded, StartsWith, Starts;
    var p := 0;
    out := [];
    ghost var done: seq<int> := [];
    assert path[0..] == path;
    Unprefixed(Decoded(path));
    while p < |path|
      invariant p <= |path| && Decoded(path) == Prepend(done, Decoded(path[p..])) == Some(cps)
      invariant |done| == |out| && forall i :: 0 <= i < |done| ==> done[i] == out[i]
    {
      var r := DecodeChar(path, p);
      if r == None {
        NotDecoded(path, p, done);
        return path;
      }
      var (cp, next) := r.value;
      DecodeMore(path, p, done, cp, next);
      assert cps[|done|] == cp;
      done := done + [cp];
      out := out + [cp % 256];
      p := next;
    }
    assert path[p..] == [];
    AllDecoded(path, done);
  }

  lemma AsciiEncodes(s: seq<byte>)
    requires forall i :: 0 <= i < |s| ==> s[i] < 0x80
    ensures Scalars(s) && Encode(s) == s
  {
    if s != [] {
      AsciiEncodes(s[1..]);
      assert [s[0]] + s[1..] == s;
    }
  }

  /**
   * Every file name survives the trip: escaped to JSON, read by a JSON reader, sent back as UTF-8 and converted,
   * it is the same string of bytes, whether or not it was UTF-8 to begin with.
   */
  lemma NameSurvives(s: seq<byte>)
    requires NulFree(s)
    ensures JsonDecode(JsonString(s)).Some? && Scalars(JsonDecode(JsonString(s)).value)
    ensures FsPath(Encode(JsonDecode(JsonString(s)).value)) == s
  {
    JsonRoundTrip(s);
    var cps: seq<int> := s;
    assert Scalars(cps);
    DecodedEncode(cps);
    if HasByteToken(cps) {
      assert ToBytes(cps) == s;
    } else {
      forall i | 0 <= i < |s| ensures s[i] < 0x80 { assert cps[i] == s[i]; }
      AsciiEncodes(s);
    }
  }

  // ---------------------------------------------------------------- exactly which texts are converted

  /** `cps` is what the UTF-8 text stands for, its characters are bytes, and one of them is not ASCII. */
  ghost predicate Latin(s: seq<byte>, cps: seq<int>) {
    && Scalars(cps) && Encode(cps) == s && (forall i :: 0 <= i < |cps| ==> cps[i] <= 0xFF)
    && exists i :: 0 <= i < |cps| && 0x80 <= cps[i]
  }

  lemma {:induction false} DecodedIsEncoded(s: seq<byte>)
    requires Decoded(s).Some?
    ensures Scalars(Decoded(s).value) && Encode(Decoded(s).value) == s
    decreases |s|
  {
    if s == [] {
    } else {
      hide Decoded, StartsWith, Starts, Encode, Utf8.EncodeOne;
      var cp := FirstDecoded(s);
      var rest := s[|Utf8.EncodeOne(cp)|..];
      DecodedIsEncoded(rest);
      EncodeCons(cp, Decoded(rest).value);
    }
  }

  lemma FirstDecoded(s: seq<byte>) returns (cp: int)
    requires s != [] && Decoded(s).Some?
    ensures Scalar(cp) && |Utf8.EncodeOne(cp)| <= |s| && Utf8.EncodeOne(cp) + s[|Utf8.EncodeOne(cp)|..] == s
    ensures var rest := Decoded(s[|Utf8.EncodeOne(cp)|..]); rest.Some? && Decoded(s).value == [cp] + rest.value
  {
    hide Utf8.EncodeOne;
    cp :| StartsWith(s, cp);
    DecodedStep(s, cp);
  }

  lemma EncodeCons(cp: int, cps: seq<int>)
    requires Scalar(cp) && Scalars(cps)
    ensures Scalars([cp] + cps) && Encode([cp] + cps) == Utf8.EncodeOne(cp) + Encode(cps)
  {
    hide Utf8.EncodeOne;
    assert ([cp] + cps)[1..] == cps;
  }

  /** Such a text becomes the bytes it stands for, and every other one stays as it is. */
  lemma ConvertedExactly(s: seq<byte>)
    ensures forall cps :: Latin(s, cps) ==> FsPath(s) == cps
    ensures (forall cps :: !Latin(s, cps)) ==> FsPath(s) == s
  {
    hide Decoded;
    forall cps | Latin(s, cps) ensures FsPath(s) == cps {
      DecodedEncode(cps);
      var i :| 0 <= i < |cps| && 0x80 <= cps[i];
      assert ToBytes(cps) == cps;
    }
    if FsPath(s) != s {
      DecodedIsEncoded(s);
      assert Latin(s, Decoded(s).value);
    }
  }

  // ---------------------------------------------------------------- exactly what is escaped

  /** Printable ASCII that needs no escape. */
  predicate Plain(b: byte) { 0x20 <= b < 0x80 && b != 0x22 && b != 0x5C }

  lemma {:induction false} EscapedAscii(s: seq<byte>)
    ensures forall i :: 0 <= i < |EscapeAll(s)| ==> 0x20 <= EscapeAll(s)[i] < 0x80
    ensures (forall i :: 0 <= i < |s| ==> Plain(s[i])) ==> EscapeAll(s) == s
  {
    hide EscapeOne, Plain;
    if s == [] {
    } else {
      var front, c := s[..|s| - 1], s[|s| - 1];
      EscapedAscii(front);
      OneEscaped(c);
      assert s == front + [c];
    }
  }

  lemma OneEscaped(c: byte)
    ensures forall i :: 0 <= i < |EscapeOne(c)| ==> 0x20 <= EscapeOne(c)[i] < 0x80
    ensures Plain(c) ==> EscapeOne(c) == [c]
  {
  }

  /** A JSON string is printable ASCII from end to end, and a name that needs no escape stands in it unchanged. */
  lemma JsonIsAscii(s: seq<byte>)
    ensures forall i :: 0 <= i < |JsonString(s)| ==> 0x20 <= JsonString(s)[i] < 0x80
    ensures (forall i :: 0 <= i < |s| ==> Plain(s[i])) ==> JsonString(s) == [0x22] + s + [0x22]
  {
    hide EscapeAll;
    EscapedAscii(s);
  }
}
