/** Saving from the text editor: UTF-8 validation, newline detection, and writing a text in the file's own style. */
module Text {
  import opened Bytes
  import opened Utf8

  const MAX_SIZE: nat := 1024 * 1024
  const CR_BYTE: byte := 13
  const LF_BYTE: byte := 10
  const BOM: seq<byte> := [0xEF, 0xBB, 0xBF]

  // ---------------------------------------------------------------- validation

  /** Lead bytes the validator rejects at once cannot begin a character. */
  lemma BadLead(s: seq<byte>)
    requires |s| > 0 && (0x80 <= s[0] < 0xC2 || s[0] > 0xF4)
    ensures !Starts(s)
  {
    if cp :| StartsWith(s, cp) {
      EncodedIsProper(s, cp);
      FoldTail(LeadBits(s[0]), s, Trailing(s[0]));
      if s[0] < 0xC2 {
        assert Continuation(s[1]);
      } else {
        assert Continuation(s[1]) && Continuation(s[2]) && Continuation(s[3]);
      }
    }
  }

  /** The bytes of one character after its lead byte. */
  method DecodeTail(data: seq<byte>, at: nat, trailing: nat) returns (r: Option<int>)
    requires at < |data| && 0xC2 <= data[at] <= 0xF4 && trailing == Trailing(data[at])
    ensures r.Some? ==> StartsWith(data[at..], r.value) && |EncodeOne(r.value)| == trailing + 1 && r.value >= 0x80
    ensures r.None? ==> !Starts(data[at..])
  {
    hide Proper, Fold;
    var c := data[at];
    ghost var s := data[at..];
    var i := at + 1;
    if trailing > |data| - i {
      BadTail(s);
      return None;
    }
    var cp := LeadBits(c);
    assert Fold(cp, data[i..i]) == cp by { FoldNone(cp, data[i..i]); }
    while i < at + 1 + trailing
      invariant at + 1 <= i <= at + 1 + trailing
      invariant forall k :: at + 1 <= k < i ==> Continuation(data[k])
      invariant cp == Fold(LeadBits(c), data[at + 1..i])
    {
      var next := data[i];
      if !(0x80 <= next <= 0xBF) {
        assert s[i - at] == next && !Continuation(s[i - at]);
        BadTail(s);
        return None;
      }
      FoldMore(LeadBits(c), data[at + 1..i], next);
      assert data[at + 1..i + 1] == data[at + 1..i] + [next];
      cp := cp * 64 + next % 64;
      i := i + 1;
    }
    assert s[1..trailing + 1] == data[at + 1..i];
    forall k | 1 <= k <= trailing ensures Continuation(s[k]) { assert s[k] == data[at + k]; }
    if 0xD800 <= cp <= 0xDFFF || cp > 0x10FFFF || (cp < 0x800 && c >= 0xE0) || (cp < 0x10000 && c >= 0xF0) {
      Improper(c, cp);
      BadTail(s);
      return None;
    }
    FoldAtLeast(s, trailing);
    assert Proper(cp, trailing) by { ProperLead(c, cp); }
    ProperEncodes(s, trailing);
    r := Some(cp);
  }

  lemma Improper(c: byte, cp: int)
    requires 0xC2 <= c <= 0xF4
    requires 0xD800 <= cp <= 0xDFFF || cp > 0x10FFFF || (cp < 0x800 && c >= 0xE0) || (cp < 0x10000 && c >= 0xF0)
    ensures !Proper(cp, Trailing(c))
  {
  }

  lemma ProperLead(c: byte, cp: int)
    requires 0xC2 <= c <= 0xF4 && cp >= (if c <= 0xDF then 0x80 else 0)
    requires !(0xD800 <= cp <= 0xDFFF || cp > 0x10FFFF || (cp < 0x800 && c >= 0xE0) || (cp < 0x10000 && c >= 0xF0))
    ensures Proper(cp, Trailing(c)) && cp >= 0x80
  {
  }

  /** A two-byte sequence with an accepted lead byte is never overlong. */
  lemma FoldAtLeast(s: seq<byte>, n: nat)
    requires |s| > 0 && 0xC2 <= s[0] <= 0xF4 && n == Trailing(s[0]) && Continuations(s, n)
    ensures Fold(LeadBits(s[0]), s[1..n + 1]) >= 0
    ensures s[0] <= 0xDF ==> Fold(LeadBits(s[0]), s[1..n + 1]) >= 0x80
  {
    FoldTail(LeadBits(s[0]), s, n);
    assert Continuation(s[1]) && (n >= 2 ==> Continuation(s[2])) && (n == 3 ==> Continuation(s[3]));
  }

  /** The validator accepts exactly the UTF-8 texts without NUL. */
  method ValidUtf8(data: seq<byte>) returns (ok: bool)
    ensures ok <==> IsText(data)
  {
    hide IsText, Starts;
    var i := 0;
    assert data[0..] == data;
    while i < |data|
      invariant i <= |data| && (IsText(data) <==> IsText(data[i..]))
    {
      var c := data[i];
      ghost var s := data[i..];
      if c == 0 {
        Rejected(s);
        return false;
      }
      if c < 0x80 {
        TextStep(s, c);
        assert s[1..] == data[i + 1..];
        i := i + 1;
        continue;
      }
      if !(0xC2 <= c <= 0xF4) {
        BadLead(s);
        Rejected(s);
        return false;
      }
      var trailing := if c <= 0xDF then 1 else if c <= 0xEF then 2 else 3;
      var cp := DecodeTail(data, i, trailing);
      if cp == None {
        Rejected(s);
        return false;
      }
      TextStep(s, cp.value);
      assert s[trailing + 1..] == data[i + trailing + 1..];
      i := i + trailing + 1;
    }
    NothingIsText(data[i..]);
    return true;
  }

  lemma Rejected(s: seq<byte>)
    requires s != [] && (s[0] == 0 || !Starts(s))
    ensures !IsText(s)
  {
    if IsText(s) { TextStarts(s); }
  }

  lemma NothingIsText(s: seq<byte>)
    requires s == []
    ensures IsText(s)
  {
    assert IsTextOf([], []);
  }

  // ---------------------------------------------------------------- newlines

  datatype Newline = LF | CRLF | CR

  /** A text as plain bytes and line breaks; a carriage return before a line feed is one break. */
  datatype Token = Plain(b: byte) | Break(n: Newline)

  function Tokens(s: seq<byte>): seq<Token>
    decreases |s|
  {
    if s == [] then []
    else if s[0] == CR_BYTE && |s| > 1 && s[1] == LF_BYTE then [Break(CRLF)] + Tokens(s[2..])
    else
      (if s[0] == CR_BYTE then [Break(CR)] else if s[0] == LF_BYTE then [Break(LF)] else [Plain(s[0])]) +
      Tokens(s[1..])
  }

  function BreakBytes(n: Newline): (s: seq<byte>)
    ensures 1 <= |s| <= 2
  {
    match n case LF => [LF_BYTE] case CRLF => [CR_BYTE, LF_BYTE] case CR => [CR_BYTE]
  }

  function TokenBytes(t: Token): seq<byte> { if t.Plain? then [t.b] else BreakBytes(t.n) }

  function Render(ts: seq<Token>): seq<byte> {
    if ts == [] then [] else TokenBytes(ts[0]) + Render(ts[1..])
  }

  function Count(ts: seq<Token>, n: Newline): nat {
    if ts == [] then 0 else (if ts[0] == Break(n) then 1 else 0) + Count(ts[1..], n)
  }

  /** The style of a text: the most frequent break, with line feed as the fallback. */
  function Style(s: seq<byte>): Newline {
    var lf, crlf, cr := Count(Tokens(s), LF), Count(Tokens(s), CRLF), Count(Tokens(s), CR);
    if crlf > lf && crlf >= cr then CRLF else if cr > lf && cr > crlf then CR else LF
  }

  /** How often a break occurs. */
  lemma {:induction false} CountIs(ts: seq<Token>, n: Newline)
    ensures Count(ts, n) == multiset(ts)[Break(n)]
  {
    if ts != [] {
      CountIs(ts[1..], n);
      assert ts == [ts[0]] + ts[1..];
    }
  }

  function Occurs(s: seq<byte>, n: Newline): nat { multiset(Tokens(s))[Break(n)] }

  /**
   * The style of a text is one of its most frequent breaks; line feed wherever it is among them, and otherwise
   * carriage return with line feed on a tie with carriage return alone.
   */
  lemma StyleIsMajority(s: seq<byte>)
    ensures forall m :: Occurs(s, Style(s)) >= Occurs(s, m)
    ensures (forall m :: Occurs(s, LF) >= Occurs(s, m)) ==> Style(s) == LF
    ensures Occurs(s, CRLF) == Occurs(s, CR) > Occurs(s, LF) ==> Style(s) == CRLF
    ensures (forall i :: 0 <= i < |Tokens(s)| ==> Tokens(s)[i].Plain?) ==> Style(s) == LF
  {
    hide Tokens, Count;
    var ts := Tokens(s);
    CountIs(ts, LF);
    CountIs(ts, CRLF);
    CountIs(ts, CR);
    assert Occurs(s, LF) == Count(ts, LF) && Occurs(s, CRLF) == Count(ts, CRLF) && Occurs(s, CR) == Count(ts, CR);
    forall m ensures Occurs(s, Style(s)) >= Occurs(s, m) {
      assert m == LF || m == CRLF || m == CR by { match m case LF => case CRLF => case CR => }
    }
    if forall i :: 0 <= i < |ts| ==> ts[i].Plain? {
      forall m ensures Occurs(s, m) == 0 { assert Break(m) !in ts; }
    }
  }

  function With(ts: seq<Token>, n: Newline): (r: seq<Token>)
    ensures |r| == |ts|
  {
    if ts == [] then [] else [if ts[0].Plain? then ts[0] else Break(n)] + With(ts[1..], n)
  }

  /** Every break replaced by one style. */
  function Convert(s: seq<byte>, n: Newline): seq<byte> { Render(With(Tokens(s), n)) }

  predicate HasBom(s: seq<byte>) { BOM <= s }

  function StripBom(s: seq<byte>): seq<byte> { if HasBom(s) then s[3..] else s }

  /** What is written for `body` over a file that holds `current`. */
  function Format(body: seq<byte>, current: seq<byte>): Result<seq<byte>> {
    var out := (if HasBom(current) then BOM else []) + Convert(StripBom(body), Style(StripBom(current)));
    if |out| > MAX_SIZE then Err(EFBIG) else Ok(out)
  }

  /** The scan that counts the breaks. */
  method DetectNewline(data: seq<byte>) returns (n: Newline)
    ensures n == Style(data)
  {
    var lf, crlf, cr, i := 0, 0, 0, 0;
    assert data[0..] == data;
    while i < |data|
      invariant i <= |data|
      invariant lf + Count(Tokens(data[i..]), LF) == Count(Tokens(data), LF)
      invariant crlf + Count(Tokens(data[i..]), CRLF) == Count(Tokens(data), CRLF)
      invariant cr + Count(Tokens(data[i..]), CR) == Count(Tokens(data), CR)
    {
      CountStep(data[i..]);
      assert data[i..][1..] == data[i + 1..];
      if data[i] == CR_BYTE {
        if i + 1 < |data| && data[i + 1] == LF_BYTE {
          assert data[i..][2..] == data[i + 2..];
          crlf := crlf + 1;
          i := i + 1;
        } else {
          cr := cr + 1;
        }
      } else if data[i] == LF_BYTE {
        lf := lf + 1;
      }
      i := i + 1;
    }
    assert Tokens(data[i..]) == [];
    n := if crlf > lf && crlf >= cr then CRLF else if cr > lf && cr > crlf then CR else LF;
  }

  /** The first token of a text, and the text after it. */
  function First(s: seq<byte>): (t: Token)
    requires s != []
    ensures |TokenBytes(t)| <= |s|
  {
    if s[0] == CR_BYTE && |s| > 1 && s[1] == LF_BYTE then Break(CRLF)
    else if s[0] == CR_BYTE then Break(CR)
    else if s[0] == LF_BYTE then Break(LF)
    else Plain(s[0])
  }

  function After(s: seq<byte>): seq<byte>
    requires s != []
  {
    s[|TokenBytes(First(s))|..]
  }

  lemma TokensStep(s: seq<byte>)
    requires s != []
    ensures Tokens(s) == [First(s)] + Tokens(After(s)) && s == TokenBytes(First(s)) + After(s)
  {
  }

  lemma CountStep(s: seq<byte>)
    requires s != []
    ensures forall n :: Count(Tokens(s), n) == (if First(s) == Break(n) then 1 else 0) + Count(Tokens(After(s)), n)
  {
    TokensStep(s);
    hide Tokens;
    assert ([First(s)] + Tokens(After(s)))[1..] == Tokens(After(s));
  }

  lemma ConvertStep(s: seq<byte>, n: Newline)
    requires s != []
    ensures Convert(s, n) == (if First(s).Plain? then [First(s).b] else BreakBytes(n)) + Convert(After(s), n)
  {
    TokensStep(s);
    hide Tokens;
    var rest := Tokens(After(s));
    assert ([First(s)] + rest)[1..] == rest;
    var t := if First(s).Plain? then First(s) else Break(n);
    assert With([First(s)] + rest, n) == [t] + With(rest, n);
    assert ([t] + With(rest, n))[1..] == With(rest, n);
  }

  method Emit(out: array<byte>, len: nat, s: seq<byte>)
    requires len + |s| <= out.Length
    modifies out
    ensures out[..len + |s|] == old(out[..len]) + s
  {
    forall k | 0 <= k < |s| { out[len + k] := s[k]; }
  }

  /** The bytes for the token at `i`, and where the next one starts. */
  method NextPiece(input: seq<byte>, i: nat, newline: Newline) returns (piece: seq<byte>, next: nat)
    requires i < |input|
    ensures i < next <= |input| && |piece| <= |BreakBytes(newline)|
    ensures Convert(input[i..], newline) == piece + Convert(input[next..], newline)
  {
    hide Convert;
    ConvertStep(input[i..], newline);
    var c := input[i];
    next := i + 1;
    if c != CR_BYTE && c != LF_BYTE {
      piece := [c];
    } else {
      if c == CR_BYTE && i + 1 < |input| && input[i + 1] == LF_BYTE { next := i + 2; }
      piece := BreakBytes(newline);
    }
    assert After(input[i..]) == input[next..];
  }

  /** Writing the body into a buffer of the computed capacity, which is never exceeded, terminator included. */
  method FormatText(body: seq<byte>, current: seq<byte>) returns (r: Result<seq<byte>>)
    ensures r == Format(body, current)
  {
    hide Convert, Style;
    var keepBom := HasBom(current);
    var newline := DetectNewline(if keepBom then current[3..] else current);
    var unit := if newline == CRLF then 2 else 1;
    var capacity := |body| * unit + 3 + 1;
    var input := if HasBom(body) then body[3..] else body;
    var formatted := new byte[capacity](_ => 0);
    var len: nat := 0;
    ghost var head := if keepBom then BOM else [];
    if keepBom {
      Emit(formatted, len, BOM);
      len := len + 3;
    }
    assert formatted[..len] == head;
    assert |BreakBytes(newline)| == unit;
    var i := 0;
    assert input[0..] == input;
    Room(|body|, |input|, 0, 0, unit);
    while i < |input|
      invariant i <= |input| && len <= 3 + i * unit <= 3 + |body| * unit < capacity == formatted.Length
      invariant formatted[..len] + Convert(input[i..], newline) == head + Convert(input, newline)
    {
      var piece, next := NextPiece(input, i, newline);
      Room(|body|, |input|, i, next, unit);
      ghost var done := formatted[..len];
      Emit(formatted, len, piece);
      len := len + |piece|;
      i := next;
      assert done + (piece + Convert(input[i..], newline)) == done + piece + Convert(input[i..], newline);
    }
    ConvertNothing(input[i..], newline);
    assert formatted[..len] == head + Convert(input, newline);
    if len > MAX_SIZE { return Err(EFBIG); }
    ghost var result := formatted[..len];
    formatted[len] := 0;
    assert formatted[..len] == result;
    return Ok(formatted[..len]);
  }

  lemma ConvertNothing(s: seq<byte>, n: Newline)
    requires s == []
    ensures Convert(s, n) == []
  {
  }

  lemma Room(body: nat, input: nat, at: nat, next: nat, unit: nat)
    requires at <= next <= input <= body && 1 <= unit <= 2
    ensures 0 <= at * unit <= next * unit <= body * unit
    ensures at < next ==> at * unit + unit <= next * unit
  {
  }

  // ---------------------------------------------------------------- stability

  /** Tokens as a scan produces them: plain bytes are not breaks, and no CR stands before an LF. */
  predicate Canonical(ts: seq<Token>) {
    && (forall i :: 0 <= i < |ts| && ts[i].Plain? ==> ts[i].b != CR_BYTE && ts[i].b != LF_BYTE)
    && (forall i :: 0 <= i < |ts| - 1 && ts[i] == Break(CR) ==> ts[i + 1] != Break(LF))
  }

  lemma {:induction false} RenderTokens(s: seq<byte>)
    ensures Render(Tokens(s)) == s
    decreases |s|
  {
    if s != [] {
      TokensStep(s);
      RenderTokens(After(s));
      hide Tokens;
      assert ([First(s)] + Tokens(After(s)))[1..] == Tokens(After(s));
    }
  }

  lemma {:induction false} TokensRender(ts: seq<Token>)
    requires Canonical(ts)
    ensures Tokens(Render(ts)) == ts
  {
    if ts != [] {
      var rest := ts[1..];
      assert Canonical(rest);
      TokensRender(rest);
      RenderFirst(ts);
      TokensStep(Render(ts));
      hide Tokens, Render;
      assert ts == [ts[0]] + rest;
    }
  }

  /** The scan finds a token again where it was written, unless a CR now stands before an LF. */
  lemma FirstOf(t: Token, r: seq<byte>)
    requires t.Plain? ==> t.b != CR_BYTE && t.b != LF_BYTE
    requires t == Break(CR) ==> r == [] || r[0] != LF_BYTE
    ensures First(TokenBytes(t) + r) == t && After(TokenBytes(t) + r) == r
  {
    var s := TokenBytes(t) + r;
    assert s[0] == TokenBytes(t)[0];
    if t == Break(CR) && r != [] { assert s[1] == r[0]; }
    assert First(s) == t;
  }

  lemma RenderStep(t: Token, ts: seq<Token>)
    ensures Render([t] + ts) == TokenBytes(t) + Render(ts)
  {
    assert ([t] + ts)[1..] == ts;
  }

  lemma RenderFirst(ts: seq<Token>)
    requires ts != [] && Canonical(ts)
    ensures Render(ts) != [] && First(Render(ts)) == ts[0] && After(Render(ts)) == Render(ts[1..])
  {
    hide Render;
    assert ts == [ts[0]] + ts[1..];
    RenderStep(ts[0], ts[1..]);
    if |ts| > 1 {
      assert ts[1..] == [ts[1]] + ts[2..];
      RenderStep(ts[1], ts[2..]);
    } else {
      assert ts[1..] == [] && Render([]) == [] by { RenderNothing(); }
    }
    FirstOf(ts[0], Render(ts[1..]));
  }

  lemma RenderNothing()
    ensures Render([]) == []
  {
  }

  lemma {:induction false} TokensCanonical(s: seq<byte>)
    ensures Canonical(Tokens(s))
    decreases |s|
  {
    if s != [] {
      TokensStep(s);
      TokensCanonical(After(s));
      var rest := Tokens(After(s));
      if After(s) != [] { TokensStep(After(s)); }
      assert Tokens(After(s)) != [] ==> After(s) != [];
    }
  }

  /** All breaks have one style. */
  predicate Uniform(ts: seq<Token>, n: Newline) { forall i :: 0 <= i < |ts| && ts[i].Break? ==> ts[i].n == n }

  lemma {:induction false} WithIs(ts: seq<Token>, n: Newline)
    ensures forall i :: 0 <= i < |ts| ==> With(ts, n)[i] == if ts[i].Plain? then ts[i] else Break(n)
  {
    if ts != [] {
      WithIs(ts[1..], n);
      forall i | 0 <= i < |ts| ensures With(ts, n)[i] == if ts[i].Plain? then ts[i] else Break(n) {
        if i > 0 { assert With(ts, n)[i] == With(ts[1..], n)[i - 1] && ts[i] == ts[1..][i - 1]; }
      }
    }
  }

  /** Scanning a converted text gives the same tokens with every break in the new style. */
  lemma TokensOfConverted(s: seq<byte>, n: Newline)
    ensures Tokens(Convert(s, n)) == With(Tokens(s), n) && Uniform(Tokens(Convert(s, n)), n)
  {
    TokensCanonical(s);
    WithIs(Tokens(s), n);
    TokensRender(With(Tokens(s), n));
  }

  lemma WithSame(ts: seq<Token>, n: Newline)
    requires Uniform(ts, n)
    ensures With(ts, n) == ts
  {
    WithIs(ts, n);
  }

  /** Conversion changes nothing exactly when the text already has that one style. */
  lemma ConvertFixed(s: seq<byte>, n: Newline)
    ensures Convert(s, n) == s <==> Uniform(Tokens(s), n)
  {
    hide Tokens, Render, With, Uniform;
    TokensOfConverted(s, n);
    if Uniform(Tokens(s), n) {
      WithSame(Tokens(s), n);
      RenderTokens(s);
    }
  }

  lemma {:induction false} CountNone(ts: seq<Token>, n: Newline)
    ensures Count(ts, n) > 0 <==> exists i :: 0 <= i < |ts| && ts[i] == Break(n)
  {
    if ts != [] {
      CountNone(ts[1..], n);
      if i :| 0 <= i < |ts| && ts[i] == Break(n) { if i > 0 { assert ts[1..][i - 1] == Break(n); } }
      if Count(ts[1..], n) > 0 {
        var i :| 0 <= i < |ts[1..]| && ts[1..][i] == Break(n);
        assert ts[i + 1] == Break(n);
      }
    }
  }

  /** A text of one style is recognised as that style, or has no breaks at all. */
  lemma UniformStyle(s: seq<byte>, n: Newline)
    requires Uniform(Tokens(s), n)
    ensures Uniform(Tokens(s), Style(s))
  {
    var ts := Tokens(s);
    CountNone(ts, LF);
    CountNone(ts, CRLF);
    CountNone(ts, CR);
    if i :| 0 <= i < |ts| && ts[i] == Break(n) { assert Count(ts, n) > 0; }
  }

  /** A converted text, saved in its own style, stays as it is. */
  lemma ConvertSettles(s: seq<byte>, n: Newline)
    ensures Convert(Convert(s, n), Style(Convert(s, n))) == Convert(s, n)
    ensures Convert(Convert(s, n), n) == Convert(s, n)
  {
    TokensOfConverted(s, n);
    UniformStyle(Convert(s, n), n);
    ConvertFixed(Convert(s, n), Style(Convert(s, n)));
    ConvertFixed(Convert(s, n), n);
  }

  lemma BomFront(s: seq<byte>)
    ensures HasBom(BOM + s) && StripBom(BOM + s) == s
    ensures HasBom(s) ==> s == BOM + StripBom(s)
  {
  }

  lemma ConvertPlain(b: byte, s: seq<byte>, n: Newline)
    requires b != CR_BYTE && b != LF_BYTE
    ensures Convert([b] + s, n) == [b] + Convert(s, n)
  {
    assert After([b] + s) == s;
    ConvertStep([b] + s, n);
  }

  /** Converting leaves a leading mark alone. */
  lemma ConvertBom(s: seq<byte>, n: Newline)
    ensures Convert(BOM + s, n) == BOM + Convert(s, n)
  {
    hide Convert;
    var a, b := [0xBB] + ([0xBF] + s), [0xBF] + s;
    assert BOM + s == [0xEF] + a;
    ConvertPlain(0xEF, a, n);
    ConvertPlain(0xBB, b, n);
    ConvertPlain(0xBF, s, n);
    assert [0xEF] + ([0xBB] + ([0xBF] + Convert(s, n))) == BOM + Convert(s, n);
  }

  /** What was written, opened and saved again, is written unchanged. */
  lemma SavedTextIsStable(body: seq<byte>, current: seq<byte>)
    requires Format(body, current).Ok?
    ensures Format(Format(body, current).value, Format(body, current).value) == Format(body, current)
  {
    var out := Format(body, current).value;
    var text, n := StripBom(body), Style(StripBom(current));
    ConvertSettles(text, n);
    BomFront(Convert(text, n));
    if HasBom(current) {
      assert StripBom(out) == Convert(text, n);
    } else {
      assert out == Convert(text, n);
      BomFront(out);
      if HasBom(out) {
        ConvertBom(StripBom(out), Style(StripBom(out)));
        ConvertBom(StripBom(out), n);
        StripSettles(out, n);
      }
    }
  }

  lemma StripSettles(out: seq<byte>, n: Newline)
    requires HasBom(out) && Convert(out, n) == out
    ensures Convert(StripBom(out), Style(StripBom(out))) == StripBom(out)
  {
    var rest := StripBom(out);
    BomFront(out);
    ConvertBom(rest, n);
    assert Convert(rest, n) == rest by {
      assert BOM + Convert(rest, n) == BOM + rest;
      assert (BOM + Convert(rest, n))[3..] == Convert(rest, n) && (BOM + rest)[3..] == rest;
    }
    ConvertFixed(rest, n);
    UniformStyle(rest, n);
    ConvertFixed(rest, Style(rest));
  }

  /**
   * Saving the written bytes again over the same earlier file gives the same bytes, unless the mark of a body
   * that began with two was kept only because the file has none.
   */
  lemma SavingTwiceExactly(body: seq<byte>, current: seq<byte>)
    requires Format(body, current).Ok?
    ensures Format(Format(body, current).value, current) == Format(body, current)
      <==> HasBom(current) || !HasBom(StripBom(body))
  {
    hide Convert, Style;
    var out := Format(body, current).value;
    var text, n := StripBom(body), Style(StripBom(current));
    ConvertSettles(text, n);
    BomFront(Convert(text, n));
    ConvertKeepsBom(text, n);
    if HasBom(current) {
      assert StripBom(out) == Convert(text, n);
    } else if !HasBom(text) {
      assert StripBom(out) == out == Convert(text, n);
    } else {
      var rest := StripBom(text);
      BomFront(text);
      ConvertBom(rest, n);
      ConvertSettles(rest, n);
      BomFront(Convert(rest, n));
      assert out == Convert(text, n) == BOM + Convert(rest, n);
      assert StripBom(out) == Convert(rest, n);
      assert |Convert(StripBom(out), n)| == |out| - 3;
    }
  }

  lemma ConvertKeepsBom(s: seq<byte>, n: Newline)
    ensures HasBom(Convert(s, n)) <==> HasBom(s)
  {
    BomFront(s);
    if HasBom(s) {
      ConvertBom(StripBom(s), n);
    } else if HasBom(Convert(s, n)) {
      var c := Convert(s, n);
      BomFront(c);
      TokensOfConverted(s, n);
      WithIs(Tokens(s), n);
      RenderTokens(s);
      PlainFront(c);
      var ts := Tokens(s);
      assert ts[0] == Plain(0xEF) && ts[1] == Plain(0xBB) && ts[2] == Plain(0xBF);
      FrontPlain(s);
    }
  }

  lemma PlainFront(c: seq<byte>)
    requires HasBom(c)
    ensures |Tokens(c)| >= 3 && Tokens(c)[0] == Plain(0xEF) && Tokens(c)[1] == Plain(0xBB)
    ensures Tokens(c)[2] == Plain(0xBF)
  {
    var a, b := c[1..], c[1..][1..];
    assert a[0] == 0xBB && b[0] == 0xBF;
    TokensStep(c);
    TokensStep(a);
    TokensStep(b);
  }

  lemma FrontPlain(s: seq<byte>)
    requires |Tokens(s)| >= 3 && Tokens(s)[0] == Plain(0xEF) && Tokens(s)[1] == Plain(0xBB)
    requires Tokens(s)[2] == Plain(0xBF)
    ensures HasBom(s)
  {
    RenderTokens(s);
    var ts := Tokens(s);
    assert Render(ts) == [0xEF] + Render(ts[1..]);
    assert Render(ts[1..]) == [0xBB] + Render(ts[1..][1..]);
    assert Render(ts[1..][1..]) == [0xBF] + Render(ts[1..][1..][1..]);
  }

  /** How many bytes are not part of a break. */
  function PlainCount(ts: seq<Token>): nat {
    if ts == [] then 0 else (if ts[0].Plain? then 1 else 0) + PlainCount(ts[1..])
  }

  lemma {:induction false} WithKeepsPlain(ts: seq<Token>, n: Newline)
    ensures PlainCount(With(ts, n)) == PlainCount(ts)
  {
    if ts != [] {
      WithKeepsPlain(ts[1..], n);
      assert With(ts, n)[1..] == With(ts[1..], n);
    }
  }

  /** The text an editor shows: no mark, line feeds only. */
  function Shown(file: seq<byte>): seq<byte> { Convert(StripBom(file), LF) }

  lemma ConvertAgain(s: seq<byte>, m: Newline, n: Newline)
    ensures Convert(Convert(s, m), n) == Convert(s, n)
  {
    TokensOfConverted(s, m);
    WithIs(Tokens(s), m);
    WithIs(Tokens(s), n);
    WithIs(With(Tokens(s), m), n);
    assert With(With(Tokens(s), m), n) == With(Tokens(s), n);
  }

  /**
   * Saving what the editor shows reproduces the file exactly, if and only if its breaks all have one style and
   * it begins with at most one mark.
   */
  lemma UnchangedTextReproducesTheFile(file: seq<byte>)
    requires |file| <= MAX_SIZE
    ensures Format(Shown(file), file) == Ok(file)
      <==> Uniform(Tokens(StripBom(file)), Style(StripBom(file))) && !HasBom(StripBom(file))
  {
    hide Convert, Style, Tokens, Uniform;
    var g := StripBom(file);
    var n := Style(g);
    var head := if HasBom(file) then BOM else [];
    BomFront(file);
    assert file == head + g;
    ConvertKeepsBom(g, LF);
    ConvertFixed(g, n);
    if !HasBom(g) {
      ConvertAgain(g, LF, n);
      assert StripBom(Shown(file)) == Convert(g, LF);
      SameHead(head, Convert(g, n), g);
    } else {
      BomFront(g);
      var h := StripBom(g);
      ConvertBom(h, LF);
      BomFront(Convert(h, LF));
      ConvertAgain(h, LF, n);
      assert StripBom(Shown(file)) == Convert(h, LF);
      DoubledBomLost(g, n);
      SameHead(head, Convert(h, n), g);
    }
  }

  lemma SameHead(head: seq<byte>, a: seq<byte>, b: seq<byte>)
    ensures head + a == head + b <==> a == b
  {
    assert (head + a)[|head|..] == a && (head + b)[|head|..] == b;
  }

  /** Dropping a second mark loses three bytes that no break could make up for. */
  lemma DoubledBomLost(g: seq<byte>, n: Newline)
    requires HasBom(g)
    ensures Convert(StripBom(g), n) != g
  {
    var h := StripBom(g);
    TokensOfConverted(h, n);
    WithKeepsPlain(Tokens(h), n);
    var a, b := g[1..], g[1..][1..];
    assert a[0] == 0xBB && b[0] == 0xBF && b[1..] == h;
    TokensStep(g);
    TokensStep(a);
    TokensStep(b);
    hide Tokens, PlainCount;
    PlainCountStep(Plain(0xEF), Tokens(a));
    PlainCountStep(Plain(0xBB), Tokens(b));
    PlainCountStep(Plain(0xBF), Tokens(h));
  }

  lemma PlainCountStep(t: Token, ts: seq<Token>)
    ensures PlainCount([t] + ts) == (if t.Plain? then 1 else 0) + PlainCount(ts)
  {
    assert ([t] + ts)[1..] == ts;
  }

  /** The smallest file concerned: two marks, of which saving what the editor shows keeps one, and then none. */
  lemma DoubledMarkIsLost()
    ensures Format(Shown(BOM + BOM), BOM + BOM) == Ok(BOM)
    ensures Format(BOM + BOM, []) == Ok(BOM) && Format(BOM, []) == Ok([])
  {
    hide Convert, Style;
    BomFront(BOM);
    BomFront([]);
    MarkConverts(LF);
    MarkConverts(Style(BOM));
    MarkConverts(Style([]));
    assert BOM + [] == BOM && [] + BOM == BOM;
    assert StripBom(BOM) == [] && StripBom([]) == [] && StripBom(BOM + BOM) == BOM;
  }

  lemma MarkConverts(n: Newline)
    ensures Convert([], n) == [] && Convert(BOM, n) == BOM
  {
    ConvertBom([], n);
    assert BOM + [] == BOM;
  }
}
