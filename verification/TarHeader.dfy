/** The 512-byte ustar header: how the writer splits names and fills the fields, and how a reader takes them apart. */
module TarHeader {
  import opened Bytes

  const BLOCK: nat := 512
  const SLASH: byte := 47
  const SPACE: byte := 32
  const ZERO: byte := 48
  const REGULAR: byte := 48
  const DIRECTORY: byte := 53
  const USTAR: seq<byte> := [117, 115, 116, 97, 114]
  const VERSION: seq<byte> := [48, 48]
  const MAGIC: seq<byte> := USTAR + [0] + VERSION
  const NAME_FIELD: nat := 100
  const PREFIX_FIELD: nat := 155
  const MAX_SIZE: nat := 0x1_FFFF_FFFF

  /** A C string: no byte of it is zero. */
  predicate Text(s: seq<byte>) { forall i :: 0 <= i < |s| ==> s[i] != 0 }

  // ---------------------------------------------------------------- octal fields

  /** The `n` low-order octal digits, most significant first. */
  function Octal(n: nat, v: nat): (s: seq<byte>)
    ensures |s| == n
  {
    if n == 0 then [] else Octal(n - 1, v / 8) + [ZERO + v % 8]
  }

  function Pow8(n: nat): nat { if n == 0 then 1 else 8 * Pow8(n - 1) }

  /** How a reader takes an octal field. */
  function OctalValue(s: seq<byte>): int {
    if s == [] then 0 else 8 * OctalValue(s[..|s| - 1]) + (s[|s| - 1] - ZERO)
  }

  lemma {:induction false} OctalRoundTrip(n: nat, v: nat)
    requires v < Pow8(n)
    ensures OctalValue(Octal(n, v)) == v
  {
    if n > 0 {
      OctalRoundTrip(n - 1, v / 8);
      assert Octal(n, v)[..n - 1] == Octal(n - 1, v / 8);
    }
  }

  lemma Widths()
    ensures Pow8(6) == 0x4_0000 && Pow8(7) == 0x20_0000 && Pow8(11) == MAX_SIZE + 1
  {
    assert Pow8(3) == 8 * (8 * (8 * Pow8(0)));
    assert Pow8(6) == 8 * (8 * (8 * Pow8(3)));
    assert Pow8(7) == 8 * Pow8(6);
    assert Pow8(9) == 8 * (8 * Pow8(7));
    assert Pow8(11) == 8 * (8 * Pow8(9));
  }

  /** Digits needed for `v`, at least `width` of them. */
  function Digits(width: nat, v: nat): (n: nat)
    ensures n >= width
    ensures v < Pow8(width) ==> n == width
    decreases Pow8(width) <= v, v - Pow8(width)
  {
    if v < Pow8(width) then width else Wider(width); Digits(width + 1, v)
  }

  lemma Wider(width: nat)
    ensures Pow8(width) < Pow8(width + 1)
  {
    Pow8Positive(width);
  }

  lemma {:induction false} Pow8Positive(width: nat)
    ensures Pow8(width) > 0
  {
    if width > 0 { Pow8Positive(width - 1); }
  }

  /** The time field keeps the eleven leading digits of a number that may need more. */
  function Stamp(mtime: nat): (s: seq<byte>)
    ensures |s| == 11
    ensures mtime <= MAX_SIZE ==> s == Octal(11, mtime)
  {
    Widths();
    Octal(Digits(11, mtime), mtime)[..11]
  }

  // ---------------------------------------------------------------- names

  /** The name may be cut at this slash: both halves fit their fields. */
  predicate SplitsAt(name: seq<byte>, k: nat) {
    0 < k < |name| && name[k] == SLASH && k < PREFIX_FIELD && 0 < |name| - k - 1 < NAME_FIELD
  }

  /** The last usable slash below `k`. */
  function LastSplit(name: seq<byte>, k: nat): (r: Option<nat>)
    requires k <= |name|
    ensures r.Some? ==> r.value < k
  {
    if k == 0 then None else if SplitsAt(name, k - 1) then Some(k - 1) else LastSplit(name, k - 1)
  }

  datatype Names = Names(name: seq<byte>, prefix: seq<byte>)

  function Split(name: seq<byte>): Option<Names> {
    if |name| < NAME_FIELD then Some(Names(name, []))
    else
      var k := LastSplit(name, |name|);
      if k == None then None else Some(Names(name[k.value + 1..], name[..k.value]))
  }

  function Whole(n: Names): seq<byte> { if n.prefix == [] then n.name else n.prefix + [SLASH] + n.name }

  lemma {:induction false} LastSplitIs(name: seq<byte>, k: nat)
    requires k <= |name|
    ensures LastSplit(name, k).None? <==> forall j :: 0 <= j < k ==> !SplitsAt(name, j)
    ensures LastSplit(name, k).Some? ==> LastSplit(name, k).value < k && SplitsAt(name, LastSplit(name, k).value)
    ensures LastSplit(name, k).Some? ==> forall j :: LastSplit(name, k).value < j < k ==> !SplitsAt(name, j)
  {
    if k > 0 { LastSplitIs(name, k - 1); }
  }

  /** A name is accepted exactly if it is short or has a usable slash, and the reader can put it together again. */
  lemma SplitIsLossless(name: seq<byte>)
    ensures Split(name).Some? <==> |name| < NAME_FIELD || exists k :: SplitsAt(name, k)
    ensures Split(name).Some? ==> Whole(Split(name).value) == name
    ensures Split(name).Some? ==> |Split(name).value.name| < NAME_FIELD && |Split(name).value.prefix| < PREFIX_FIELD
    ensures Split(name).Some? && |name| >= NAME_FIELD ==>
      SplitsAt(name, |Split(name).value.prefix|) && forall j :: |Split(name).value.prefix| < j ==> !SplitsAt(name, j)
  {
    if |name| >= NAME_FIELD {
      LastSplitIs(name, |name|);
      var k := LastSplit(name, |name|);
      if k.Some? {
        assert name[..k.value] + [SLASH] + name[k.value + 1..] == name;
      } else {
        assert forall j: nat :: SplitsAt(name, j) ==> j < |name|;
      }
    }
  }

  // ---------------------------------------------------------------- the header

  /** A string in a field of `n` bytes, padded with zeros. */
  function Field(s: seq<byte>, n: nat): (f: seq<byte>)
    requires |s| <= n
    ensures |f| == n
  {
    s + Zeros(n - |s|)
  }

  /** How a reader takes a string field. */
  function CString(f: seq<byte>): seq<byte> {
    if f == [] || f[0] == 0 then [] else [f[0]] + CString(f[1..])
  }

  lemma {:induction false} CStringOfField(s: seq<byte>, n: nat)
    requires |s| <= n && Text(s)
    ensures CString(Field(s, n)) == s
  {
    if s != [] {
      CStringOfField(s[1..], n - 1);
      assert Field(s, n)[1..] == Field(s[1..], n - 1);
    }
  }

  function Sum(s: seq<byte>): nat {
    if s == [] then 0 else Sum(s[..|s| - 1]) + s[|s| - 1]
  }

  lemma {:induction false} SumSplits(s: seq<byte>, t: seq<byte>)
    ensures Sum(s + t) == Sum(s) + Sum(t)
  {
    if t == [] {
      assert s + t == s;
    } else {
      SumSplits(s, t[..|t| - 1]);
      assert (s + t)[..|s + t| - 1] == s + t[..|t| - 1];
    }
  }

  lemma {:induction false} SumBound(s: seq<byte>)
    ensures Sum(s) <= 255 * |s|
  {
    if s != [] { SumBound(s[..|s| - 1]); }
  }

  /** Every field before the checksum. */
  function Front(name: seq<byte>, mode: nat, size: nat, mtime: nat): (s: seq<byte>)
    requires |name| < NAME_FIELD
    ensures |s| == 148
  {
    Field(name, NAME_FIELD) + (Octal(7, mode) + [0]) + (Octal(7, 0) + [0]) + (Octal(7, 0) + [0])
    + (Octal(11, size) + [0]) + (Stamp(mtime) + [0])
  }

  /** Every field after the checksum. */
  function Back(kind: byte, prefix: seq<byte>): (s: seq<byte>)
    requires |prefix| < PREFIX_FIELD
    ensures |s| == 356
  {
    [kind] + Zeros(100) + MAGIC + Zeros(80) + Field(prefix, PREFIX_FIELD) + Zeros(12)
  }

  function Blanks(): seq<byte> { [SPACE, SPACE, SPACE, SPACE, SPACE, SPACE, SPACE, SPACE] }

  /** The header: the checksum is taken with its own field blank. */
  function Assemble(front: seq<byte>, back: seq<byte>): (h: seq<byte>)
    requires |front| == 148 && |back| == 356
    ensures |h| == BLOCK
  {
    front + (Octal(6, Sum(front + Blanks() + back)) + [0, SPACE]) + back
  }

  datatype Meta = Meta(mode: nat, mtime: nat)

  /** The header of an entry, if its name and size can be recorded. */
  function Header(name: seq<byte>, kind: byte, size: nat, meta: Meta): (h: Option<seq<byte>>)
    ensures h.Some? ==> |h.value| == BLOCK
  {
    var n := Split(name);
    if n == None || size > MAX_SIZE then None
    else
      SplitIsLossless(name);
      Some(Assemble(Front(n.value.name, meta.mode, size, meta.mtime), Back(kind, n.value.prefix)))
  }

  // ---------------------------------------------------------------- reading a header

  datatype Entry = Entry(name: seq<byte>, kind: byte, size: nat, meta: Meta)

  predicate ChecksumOk(h: seq<byte>)
    requires |h| == BLOCK
  {
    OctalValue(h[148..154]) == Sum(h[..148] + Blanks() + h[156..])
  }

  /** A reader that follows the ustar layout. */
  function ParseHeader(h: seq<byte>): Option<Entry>
    requires |h| == BLOCK
  {
    var mode, size, mtime := OctalValue(h[100..107]), OctalValue(h[124..135]), OctalValue(h[136..147]);
    if h[257..265] != MAGIC || !ChecksumOk(h) || mode < 0 || size < 0 || mtime < 0 then None
    else Some(Entry(Whole(Names(CString(h[0..100]), CString(h[345..500]))), h[156], size, Meta(mode, mtime)))
  }

  lemma FrontFields(name: seq<byte>, mode: nat, size: nat, mtime: nat, h: seq<byte>)
    requires |name| < NAME_FIELD && |h| == BLOCK && h[..148] == Front(name, mode, size, mtime)
    ensures h[0..100] == Field(name, NAME_FIELD) && h[100..107] == Octal(7, mode)
    ensures h[124..135] == Octal(11, size) && h[136..147] == Stamp(mtime)
  {
    var f := Front(name, mode, size, mtime);
    var a, b := Field(name, NAME_FIELD), Octal(7, mode);
    var c, d, e := Octal(7, 0), Octal(11, size), Stamp(mtime);
    hide Field, Octal, Stamp;
    assert f == a + (b + [0]) + (c + [0]) + (c + [0]) + (d + [0]) + (e + [0]);
    PrefixSlice(h, 148, 0, 100);
    PrefixSlice(h, 148, 100, 107);
    PrefixSlice(h, 148, 124, 135);
    PrefixSlice(h, 148, 136, 147);
    assert f[0..100] == a;
    assert f[100..107] == b;
    assert f[124..135] == d;
    assert f[136..147] == e;
  }

  lemma BackFields(kind: byte, prefix: seq<byte>, h: seq<byte>)
    requires |prefix| < PREFIX_FIELD && |h| == BLOCK && h[156..] == Back(kind, prefix)
    ensures h[156] == kind && h[257..265] == MAGIC && h[345..500] == Field(prefix, PREFIX_FIELD)
  {
    var b, p := Back(kind, prefix), Field(prefix, PREFIX_FIELD);
    hide Field;
    assert h[156..156 + |b|] == b;
    SubSlice(h, 156, b, 101, 109);
    SubSlice(h, 156, b, 189, 344);
    assert b == [kind] + Zeros(100) + MAGIC + Zeros(80) + p + Zeros(12);
    assert b[101..109] == MAGIC;
    assert b[189..344] == p;
    assert h[156] == b[0];
  }

  lemma ChecksumHolds(front: seq<byte>, back: seq<byte>)
    requires |front| == 148 && |back| == 356
    ensures var h := Assemble(front, back); h[..148] == front && h[156..] == back && ChecksumOk(h)
  {
    var total := Sum(front + Blanks() + back);
    SumBound(front + Blanks() + back);
    Widths();
    OctalRoundTrip(6, total);
    var field := Octal(6, total);
    hide Sum, Octal, OctalValue;
    var h := front + (field + [0, SPACE]) + back;
    assert h[..148] == front && h[156..] == back && h[148..154] == field;
  }

  /** A reader gets back the name, the kind, the size, the mode and the time of every header the writer makes. */
  lemma HeaderRoundTrip(name: seq<byte>, kind: byte, size: nat, meta: Meta)
    requires Text(name) && meta.mode < 0x20_0000 && meta.mtime <= MAX_SIZE && Header(name, kind, size, meta).Some?
    ensures ParseHeader(Header(name, kind, size, meta).value) == Some(Entry(name, kind, size, meta))
  {
    SplitIsLossless(name);
    var n := Split(name).value;
    var front, back := Front(n.name, meta.mode, size, meta.mtime), Back(kind, n.prefix);
    hide Front, Back;
    var h := Assemble(front, back);
    ChecksumHolds(front, back);
    hide Assemble, ChecksumOk;
    FrontFields(n.name, meta.mode, size, meta.mtime, h);
    BackFields(kind, n.prefix, h);
    Widths();
    OctalRoundTrip(7, meta.mode);
    OctalRoundTrip(11, size);
    OctalRoundTrip(11, meta.mtime);
    SplitText(name);
    CStringOfField(n.name, NAME_FIELD);
    CStringOfField(n.prefix, PREFIX_FIELD);
    hide Octal, OctalValue, Pow8, Stamp, Field, CString;
  }

  /** An entry is refused exactly if it is 8 GiB or larger, or its name neither is short nor has a usable slash. */
  lemma RecordedExactly(name: seq<byte>, kind: byte, size: nat, meta: Meta)
    ensures Header(name, kind, size, meta).Some? <==>
      && size < 0x2_0000_0000
      && (|name| < 100 || exists k :: 0 < k < |name| && name[k] == 0x2F && k < 155 && 0 < |name| - k - 1 < 100)
  {
    hide Front, Back, Assemble;
    SplitIsLossless(name);
    if k: nat :| SplitsAt(name, k) { assert name[k] == 0x2F; }
    if k :| 0 < k < |name| && name[k] == 0x2F && k < 155 && 0 < |name| - k - 1 < 100 { assert SplitsAt(name, k); }
  }

  /** What a reader does not ask for: user and group 0, no link name, no owner names, no device numbers. */
  lemma PlainFields(name: seq<byte>, kind: byte, size: nat, meta: Meta)
    requires Header(name, kind, size, meta).Some?
    ensures var h := Header(name, kind, size, meta).value;
            && h[108..124] == [48, 48, 48, 48, 48, 48, 48, 0, 48, 48, 48, 48, 48, 48, 48, 0]
            && h[157..257] == Zeros(100) && h[265..345] == Zeros(80) && h[500..512] == Zeros(12)
  {
    SplitIsLossless(name);
    var n := Split(name).value;
    var front, back := Front(n.name, meta.mode, size, meta.mtime), Back(kind, n.prefix);
    ChecksumHolds(front, back);
    FrontOwners(n.name, meta.mode, size, meta.mtime);
    BackZeros(kind, n.prefix);
    hide Front, Back, Assemble, ChecksumOk, Split;
    var h := Assemble(front, back);
    PrefixSlice(h, 148, 108, 124);
    assert h[156..156 + |back|] == back;
    SubSlice(h, 156, back, 1, 101);
    SubSlice(h, 156, back, 109, 189);
    SubSlice(h, 156, back, 344, 356);
  }

  lemma FrontOwners(name: seq<byte>, mode: nat, size: nat, mtime: nat)
    requires |name| < NAME_FIELD
    ensures Front(name, mode, size, mtime)[108..124] == [48, 48, 48, 48, 48, 48, 48, 0, 48, 48, 48, 48, 48, 48, 48, 0]
  {
    var a, c, d := Field(name, NAME_FIELD) + (Octal(7, mode) + [0]), Octal(7, 0) + [0], Octal(11, size) + [0];
    assert c == [48, 48, 48, 48, 48, 48, 48, 0] by { ZeroDigits(); }
    hide Field, Octal, Stamp;
    assert Front(name, mode, size, mtime) == a + c + c + d + (Stamp(mtime) + [0]);
    assert (a + c + c + d + (Stamp(mtime) + [0]))[108..124] == c + c;
  }

  lemma ZeroDigits()
    ensures Octal(7, 0) == [48, 48, 48, 48, 48, 48, 48]
  {
    assert Octal(3, 0) == [48, 48, 48] by { assert Octal(1, 0) == [48]; }
    assert Octal(5, 0) == [48, 48, 48, 48, 48];
  }

  lemma BackZeros(kind: byte, prefix: seq<byte>)
    requires |prefix| < PREFIX_FIELD
    ensures var b := Back(kind, prefix);
            b[1..101] == Zeros(100) && b[109..189] == Zeros(80) && b[344..356] == Zeros(12)
  {
    var p := Field(prefix, PREFIX_FIELD);
    hide Field;
    assert Back(kind, prefix) == [kind] + Zeros(100) + MAGIC + Zeros(80) + p + Zeros(12);
  }

  lemma SplitText(name: seq<byte>)
    requires Text(name) && Split(name).Some?
    ensures Text(Split(name).value.name) && Text(Split(name).value.prefix)
  {
  }

  // ---------------------------------------------------------------- building a header in place

  /** The search for the slash, from the end of the name. */
  method SplitName(name: seq<byte>) returns (r: Option<Names>)
    ensures r == Split(name)
  {
    if |name| < NAME_FIELD { return Some(Names(name, [])); }
    var k := |name|;
    while k > 0
      invariant 0 <= k <= |name| && LastSplit(name, |name|) == LastSplit(name, k)
    {
      k := k - 1;
      if SplitsAt(name, k) { return Some(Names(name[k + 1..], name[..k])); }
    }
    return None;
  }

  method Store(h: array<byte>, at: nat, s: seq<byte>)
    requires at + |s| <= h.Length
    modifies h
    ensures h[..] == old(h[..at]) + s + old(h[at + |s|..])
  {
    forall i | 0 <= i < |s| { h[at + i] := s[i]; }
  }

  /** The byte loop over the header, with the checksum field blanked first and filled afterwards. */
  method Checksum(h: array<byte>)
    requires h.Length == BLOCK
    modifies h
    ensures h[..] == Assemble(old(h[..148]), old(h[156..]))
  {
    ghost var front, back := h[..148], h[156..];
    Store(h, 148, Blanks());
    assert h[..] == front + Blanks() + back;
    var sum: nat, i := 0, 0;
    while i < BLOCK
      invariant i <= BLOCK && sum == Sum(h[..i]) && h[..] == front + Blanks() + back
    {
      assert h[..i + 1][..i] == h[..i];
      sum := sum + h[i];
      i := i + 1;
    }
    assert h[..BLOCK] == h[..];
    Store(h, 148, Octal(6, sum) + [0, SPACE]);
    assert h[..148] == front && h[156..] == back;
  }

  /** The fields so far, and zeros after them. */
  predicate FilledTo(h: seq<byte>, filled: seq<byte>) {
    |filled| <= |h| && h == filled + Zeros(|h| - |filled|)
  }

  /** The next field over zeros; `filled` is everything up to it. */
  method Fill(h: array<byte>, ghost filled: seq<byte>, at: nat, s: seq<byte>, width: nat)
    requires at == |filled| && at + width <= h.Length && |s| <= width && FilledTo(h[..], filled)
    modifies h
    ensures FilledTo(h[..], filled + Field(s, width))
  {
    Store(h, at, s);
  }

  method FillFront(h: array<byte>, name: seq<byte>, size: nat, meta: Meta)
    requires h.Length == BLOCK && FilledTo(h[..], []) && |name| < NAME_FIELD
    modifies h
    ensures FilledTo(h[..], Front(name, meta.mode, size, meta.mtime))
  {
    hide Octal, Stamp, Field, FilledTo;
    ghost var a, b, c := Field(name, NAME_FIELD), Field(Octal(7, meta.mode), 8), Field(Octal(7, 0), 8);
    ghost var d, e := Field(Octal(11, size), 12), Field(Stamp(meta.mtime), 12);
    assert [] + a == a;
    Fill(h, [], 0, name, NAME_FIELD);
    Fill(h, a, 100, Octal(7, meta.mode), 8);
    Fill(h, a + b, 108, Octal(7, 0), 8);
    Fill(h, a + b + c, 116, Octal(7, 0), 8);
    Fill(h, a + b + c + c, 124, Octal(11, size), 12);
    Fill(h, a + b + c + c + d, 136, Stamp(meta.mtime), 12);
    PadOne(Octal(7, meta.mode));
    PadOne(Octal(7, 0));
    PadOne(Octal(11, size));
    PadOne(Stamp(meta.mtime));
  }

  lemma PadOne(s: seq<byte>)
    ensures Field(s, |s| + 1) == s + [0]
  {
  }

  method FillBack(h: array<byte>, ghost front: seq<byte>, kind: byte, prefix: seq<byte>)
    requires h.Length == BLOCK && |front| == 148 && FilledTo(h[..], front) && |prefix| < PREFIX_FIELD
    modifies h
    ensures h[..] == front + Zeros(8) + Back(kind, prefix)
  {
    ghost var start := front + Zeros(8);
    SkipZeros(h[..], front, 8);
    ghost var k, u, v := Field([kind], 101), Field(USTAR, 6), Field(VERSION, 82);
    ghost var p := Field(prefix, PREFIX_FIELD);
    hide Field, FilledTo, Back;
    Fill(h, start, 156, [kind], 101);
    Fill(h, start + k, 257, USTAR, 6);
    Fill(h, start + k + u, 263, VERSION, 82);
    Fill(h, start + k + u + v, 345, prefix, PREFIX_FIELD);
    BackIs(kind, prefix);
    Complete(h[..], start + k + u + v + p);
    Regroup(start, k, u, v, p, Zeros(12));
  }

  lemma Regroup(a: seq<byte>, b: seq<byte>, c: seq<byte>, d: seq<byte>, e: seq<byte>, f: seq<byte>)
    ensures a + b + c + d + e + f == a + (b + c + d + e + f)
  {
  }

  lemma Complete(h: seq<byte>, filled: seq<byte>)
    requires FilledTo(h, filled) && |h| == |filled| + 12
    ensures h == filled + Zeros(12)
  {
  }

  lemma SkipZeros(h: seq<byte>, filled: seq<byte>, n: nat)
    requires FilledTo(h, filled) && |filled| + n <= |h|
    ensures FilledTo(h, filled + Zeros(n))
  {
  }

  lemma BackIs(kind: byte, prefix: seq<byte>)
    requires |prefix| < PREFIX_FIELD
    ensures Back(kind, prefix) == Field([kind], 101) + Field(USTAR, 6) + Field(VERSION, 82)
      + Field(prefix, PREFIX_FIELD) + Zeros(12)
  {
    assert Zeros(0) == [] && Zeros(1) == [0];
    assert MAGIC == Field(USTAR, 6) + VERSION;
    assert Field([kind], 101) == [kind] + Zeros(100);
    assert Field(VERSION, 82) == VERSION + Zeros(80);
  }

  /** The header is filled field by field over zeros. */
  method MakeHeader(name: seq<byte>, kind: byte, size: nat, meta: Meta) returns (r: Option<seq<byte>>)
    ensures r == Header(name, kind, size, meta)
  {
    var n := SplitName(name);
    if n == None || size > MAX_SIZE { return None; }
    SplitIsLossless(name);
    var h := new byte[BLOCK](_ => 0);
    FillFront(h, n.value.name, size, meta);
    ghost var front := Front(n.value.name, meta.mode, size, meta.mtime);
    FillBack(h, front, kind, n.value.prefix);
    hide Front, Back;
    assert h[..148] == front && h[156..] == Back(kind, n.value.prefix);
    Checksum(h);
    return Some(h[..]);
  }
}
