/** The PFSC container: the stream a conversion packs, and what the verifier reads back from it. */
module Pfsc {
  import opened Bytes

  const BLOCK: nat := 0x1_0000
  const MAGIC: nat := 0x4353_4650
  const HEADER_SIZE: nat := 0x30
  const TABLE_AT: nat := 0x400
  const MAX_TABLE_BYTES: nat := 64 * 1024 * 1024

  /** zlib at one compression level. */
  datatype Codec = Codec(compress: seq<byte> -> seq<byte>, uncompress: seq<byte> -> Option<seq<byte>>)

  ghost predicate Lossless(c: Codec) {
    forall b: seq<byte> :: |b| == BLOCK ==> c.uncompress(c.compress(b)) == Some(b)
  }

  // ---------------------------------------------------------------- the packed stream

  /** An empty input still occupies one block. */
  function BlockCount(size: nat): (n: nat)
    ensures n >= 1 && size <= n * BLOCK
    ensures n == 1 || (n - 1) * BLOCK < size
  {
    if size == 0 then 1 else (size + BLOCK - 1) / BLOCK
  }

  function TableBytes(blocks: nat): nat { (blocks + 1) * 8 }

  function DataOffset(blocks: nat): (at: nat)
    ensures TABLE_AT + TableBytes(blocks) <= at < TABLE_AT + TableBytes(blocks) + BLOCK && BLOCK <= at
    ensures at % BLOCK == 0
  {
    (TABLE_AT + TableBytes(blocks) + BLOCK - 1) / BLOCK * BLOCK
  }

  /** Inputs whose offset table fits the 64 MiB limit; larger ones are refused. */
  predicate Packable(size: nat) { TableBytes(BlockCount(size)) <= MAX_TABLE_BYTES }

  /** Input block `i`, the last one padded with zeros. */
  function Chunk(input: seq<byte>, i: nat): (b: seq<byte>)
    requires i < BlockCount(|input|)
    ensures |b| == BLOCK
  {
    var hi := Min((i + 1) * BLOCK, |input|);
    var lo := Min(i * BLOCK, hi);
    input[lo..hi] + Zeros(BLOCK - (hi - lo))
  }

  /** A block is kept uncompressed unless compression makes it smaller. */
  function Stored(c: Codec, b: seq<byte>): (s: seq<byte>)
    requires |b| == BLOCK
    ensures |s| <= BLOCK
  {
    if |c.compress(b)| < BLOCK then c.compress(b) else b
  }

  function Payload(c: Codec, input: seq<byte>, k: nat): (p: seq<byte>)
    requires k <= BlockCount(|input|)
    ensures |p| <= k * BLOCK
  {
    if k == 0 then [] else Payload(c, input, k - 1) + Stored(c, Chunk(input, k - 1))
  }

  /** Where block `k` starts, relative to the stream. */
  function Offset(c: Codec, input: seq<byte>, k: nat): nat
    requires k <= BlockCount(|input|)
  {
    DataOffset(BlockCount(|input|)) + |Payload(c, input, k)|
  }

  /** The first `k` entries of the offset table. */
  function Table(c: Codec, input: seq<byte>, k: nat): (t: seq<byte>)
    requires k <= BlockCount(|input|) + 1
    ensures |t| == 8 * k
  {
    if k == 0 then [] else Table(c, input, k - 1) + Le(8, Offset(c, input, k - 1))
  }

  function Header(blocks: nat): (h: seq<byte>)
    ensures |h| == HEADER_SIZE
  {
    Le(4, MAGIC) + Le(4, 0) + Le(4, 6) + Le(4, BLOCK) +
    Le(8, BLOCK) + Le(8, TABLE_AT) + Le(8, DataOffset(blocks)) + Le(8, blocks * BLOCK)
  }

  /** Everything in front of the payload once `k` table entries are written. */
  function Front(c: Codec, input: seq<byte>, k: nat): (f: seq<byte>)
    requires k <= BlockCount(|input|) + 1
    ensures |f| == DataOffset(BlockCount(|input|))
  {
    var n := BlockCount(|input|);
    Header(n) + Zeros(TABLE_AT - HEADER_SIZE) + Table(c, input, k) + Zeros(DataOffset(n) - TABLE_AT - 8 * k)
  }

  /** The whole stream for `input`. */
  function Image(c: Codec, input: seq<byte>): (f: seq<byte>)
    ensures |f| == Offset(c, input, BlockCount(|input|))
  {
    var n := BlockCount(|input|);
    Front(c, input, n + 1) + Payload(c, input, n)
  }

  // ---------------------------------------------------------------- what the verifier accepts

  /** The fields the verifier checks before it looks at any block. */
  predicate HeaderOk(f: seq<byte>, base: nat) {
    && base + HEADER_SIZE <= |f|
    && Word(f, base, 4) == MAGIC && Word(f, base + 4, 4) == 0 && Word(f, base + 8, 4) == 6
    && Word(f, base + 12, 4) == BLOCK && Word(f, base + 16, 8) == BLOCK
    && Word(f, base + 24, 8) == TABLE_AT
    && BLOCK <= DataAt(f, base) <= |f| - base
    && LogicalSize(f, base) != 0 && LogicalSize(f, base) % BLOCK == 0
  }

  function DataAt(f: seq<byte>, base: nat): nat
    requires base + HEADER_SIZE <= |f|
  {
    Word(f, base + 32, 8)
  }

  function LogicalSize(f: seq<byte>, base: nat): nat
    requires base + HEADER_SIZE <= |f|
  {
    Word(f, base + 40, 8)
  }

  function Blocks(f: seq<byte>, base: nat): nat
    requires base + HEADER_SIZE <= |f|
  {
    LogicalSize(f, base) / BLOCK
  }

  /** Table entries up to and including `i` lie inside the file. */
  predicate Readable(f: seq<byte>, base: nat, i: nat) { base + TABLE_AT + 8 * i + 8 <= |f| }

  function Entry(f: seq<byte>, base: nat, i: nat): nat
    requires Readable(f, base, i)
  {
    Word(f, base + TABLE_AT + 8 * i, 8)
  }

  /** The checks on the two table entries of block `i`. */
  predicate RangeOk(f: seq<byte>, base: nat, i: nat) {
    && Readable(f, base, i + 1)
    && (i == 0 ==> base + HEADER_SIZE <= |f| && Entry(f, base, 0) == DataAt(f, base))
    && Entry(f, base, i) <= Entry(f, base, i + 1) <= |f| - base
    && Entry(f, base, i + 1) - Entry(f, base, i) <= BLOCK
  }

  function StoredAt(f: seq<byte>, base: nat, i: nat): seq<byte>
    requires RangeOk(f, base, i)
  {
    f[base + Entry(f, base, i)..base + Entry(f, base, i + 1)]
  }

  /** The logical contents of block `i`; None when zlib rejects it or yields another length. */
  function Decoded(c: Codec, f: seq<byte>, base: nat, i: nat): (r: Option<seq<byte>>)
    requires RangeOk(f, base, i)
    ensures r.Some? ==> |r.value| == BLOCK
  {
    var s := StoredAt(f, base, i);
    if |s| == BLOCK then Some(s)
    else match c.uncompress(s)
      case None => None
      case Some(raw) => if |raw| == BLOCK then Some(raw) else None
  }

  predicate BlockOk(c: Codec, f: seq<byte>, base: nat, i: nat) {
    RangeOk(f, base, i) && Decoded(c, f, base, i).Some?
  }

  /** Blocks `lo..hi` all pass. */
  ghost predicate BlocksOk(c: Codec, f: seq<byte>, base: nat, lo: nat, hi: nat) {
    forall i :: lo <= i < hi ==> BlockOk(c, f, base, i)
  }

  /** One full pass over the stream succeeds. */
  ghost predicate Accepts(c: Codec, f: seq<byte>, base: nat) {
    HeaderOk(f, base) && BlocksOk(c, f, base, 0, Blocks(f, base))
  }

  /** The logical image held by blocks `0..k` of an accepted stream. */
  ghost function Unpacked(c: Codec, f: seq<byte>, base: nat, k: nat): (u: seq<byte>)
    requires BlocksOk(c, f, base, 0, k)
    ensures |u| == k * BLOCK
  {
    if k == 0 then [] else
    assert BlockOk(c, f, base, k - 1); Unpacked(c, f, base, k - 1) + Decoded(c, f, base, k - 1).value
  }

  // ---------------------------------------------------------------- round trip

  /** Entry `i` of a partial table is readable wherever the table has been placed. */
  lemma {:induction false} TableEntry(c: Codec, input: seq<byte>, k: nat, i: nat)
    requires i < k <= BlockCount(|input|) + 1
    ensures Table(c, input, k)[8 * i..8 * i + 8] == Le(8, Offset(c, input, i))
  {
    hide Offset, Le;
    var front, last := Table(c, input, k - 1), Le(8, Offset(c, input, k - 1));
    assert Table(c, input, k) == front + last;
    hide Table;
    if i == k - 1 {
      SliceEnd(front, last);
    } else {
      TableEntry(c, input, k - 1, i);
      SliceFront(front, last, 8 * i, 8 * i + 8);
    }
  }

  lemma SliceEnd(a: seq<byte>, b: seq<byte>)
    ensures (a + b)[|a|..|a| + |b|] == b
  {
  }

  lemma SliceFront(a: seq<byte>, b: seq<byte>, lo: nat, hi: nat)
    requires lo <= hi <= |a|
    ensures (a + b)[lo..hi] == a[lo..hi]
  {
  }

  lemma {:induction false} PayloadSlice(c: Codec, input: seq<byte>, i: nat, k: nat)
    requires i < k <= BlockCount(|input|)
    ensures |Payload(c, input, i)| <= |Payload(c, input, i + 1)| <= |Payload(c, input, k)|
    ensures Payload(c, input, k)[|Payload(c, input, i)|..|Payload(c, input, i + 1)|] == Stored(c, Chunk(input, i))
  {
    hide Stored, Chunk, DataOffset;
    if i < k - 1 {
      PayloadSlice(c, input, i, k - 1);
    }
  }

  /** Offsets of a packable input fit 64 bits. */
  lemma OffsetFits(c: Codec, input: seq<byte>, k: nat)
    requires Packable(|input|) && k <= BlockCount(|input|)
    ensures Offset(c, input, k) < Pow256(8)
    ensures BlockCount(|input|) * BLOCK < Pow256(8)
  {
    Powers();
  }

  /** `f` carries the packed stream of `input` at `base`. */
  ghost predicate Carries(c: Codec, input: seq<byte>, f: seq<byte>, base: nat) {
    base + |Image(c, input)| <= |f| && f[base..base + |Image(c, input)|] == Image(c, input)
  }

  lemma HeaderFields(n: nat)
    requires n * BLOCK < Pow256(8) && DataOffset(n) < Pow256(8)
    ensures var h := Header(n);
            && Word(h, 0, 4) == MAGIC && Word(h, 4, 4) == 0 && Word(h, 8, 4) == 6 && Word(h, 12, 4) == BLOCK
            && Word(h, 16, 8) == BLOCK && Word(h, 24, 8) == TABLE_AT
            && Word(h, 32, 8) == DataOffset(n) && Word(h, 40, 8) == n * BLOCK
  {
    Powers();
    var h0: seq<byte> := [];
    FieldAppend(h0, 4, MAGIC);
    var h1 := h0 + Le(4, MAGIC);
    assert h1 == Le(4, MAGIC);
    FieldAppend(h1, 4, 0);
    var h2 := h1 + Le(4, 0);
    FieldAppend(h2, 4, 6);
    var h3 := h2 + Le(4, 6);
    FieldAppend(h3, 4, BLOCK);
    var h4 := h3 + Le(4, BLOCK);
    FieldAppend(h4, 8, BLOCK);
    var h5 := h4 + Le(8, BLOCK);
    FieldAppend(h5, 8, TABLE_AT);
    var h6 := h5 + Le(8, TABLE_AT);
    FieldAppend(h6, 8, DataOffset(n));
    var h7 := h6 + Le(8, DataOffset(n));
    FieldAppend(h7, 8, n * BLOCK);
  }

  lemma ImageRoom(c: Codec, input: seq<byte>)
    ensures DataOffset(BlockCount(|input|)) <= |Image(c, input)|
    ensures Offset(c, input, 0) == DataOffset(BlockCount(|input|))
  {
    hide DataOffset, Front;
  }

  /** The words of a record read back where it lies in a file. */
  lemma HeaderWords(f: seq<byte>, base: nat, h: seq<byte>)
    requires |h| == HEADER_SIZE && base + |h| <= |f| && f[base..base + |h|] == h
    ensures Word(f, base, 4) == Word(h, 0, 4) && Word(f, base + 4, 4) == Word(h, 4, 4)
    ensures Word(f, base + 8, 4) == Word(h, 8, 4) && Word(f, base + 12, 4) == Word(h, 12, 4)
    ensures Word(f, base + 16, 8) == Word(h, 16, 8) && Word(f, base + 24, 8) == Word(h, 24, 8)
    ensures Word(f, base + 32, 8) == Word(h, 32, 8) && Word(f, base + 40, 8) == Word(h, 40, 8)
  {
    hide Word;
    WordShift(f, base, h, 0, 4);
    WordShift(f, base, h, 4, 4);
    WordShift(f, base, h, 8, 4);
    WordShift(f, base, h, 12, 4);
    WordShift(f, base, h, 16, 8);
    WordShift(f, base, h, 24, 8);
    WordShift(f, base, h, 32, 8);
    WordShift(f, base, h, 40, 8);
  }

  lemma CarriedHeader(c: Codec, input: seq<byte>, f: seq<byte>, base: nat)
    requires Packable(|input|) && Carries(c, input, f, base)
    ensures HeaderOk(f, base) && Blocks(f, base) == BlockCount(|input|)
    ensures LogicalSize(f, base) == BlockCount(|input|) * BLOCK && DataAt(f, base) == DataOffset(BlockCount(|input|))
  {
    hide FromLe, Word, Header, Image, DataOffset, Pow256;
    var n := BlockCount(|input|);
    OffsetFits(c, input, 0);
    ImageRoom(c, input);
    HeaderFields(n);
    HeaderInFront(c, input, f, base);
    HeaderWords(f, base, Header(n));
  }

  lemma HeaderInFront(c: Codec, input: seq<byte>, f: seq<byte>, base: nat)
    requires Carries(c, input, f, base)
    ensures f[base..base + HEADER_SIZE] == Header(BlockCount(|input|))
  {
    var image := Image(c, input);
    assert image[0..HEADER_SIZE] == Header(BlockCount(|input|));
    SubSlice(f, base, image, 0, HEADER_SIZE);
  }

  lemma TableInImage(c: Codec, input: seq<byte>)
    ensures var t := Table(c, input, BlockCount(|input|) + 1);
            TABLE_AT + |t| <= |Image(c, input)| && Image(c, input)[TABLE_AT..TABLE_AT + |t|] == t
  {
    hide Header, Table, Payload, DataOffset;
    var n := BlockCount(|input|);
    var t, z := Table(c, input, n + 1), Zeros(DataOffset(n) - TABLE_AT - 8 * (n + 1));
    var h := Header(n) + Zeros(TABLE_AT - HEADER_SIZE);
    assert Image(c, input) == h + t + z + Payload(c, input, n);
    assert (h + t)[TABLE_AT..TABLE_AT + |t|] == t;
    assert (h + t + z + Payload(c, input, n))[TABLE_AT..TABLE_AT + |t|] == (h + t)[TABLE_AT..TABLE_AT + |t|];
  }

  lemma CarriedEntry(c: Codec, input: seq<byte>, f: seq<byte>, base: nat, i: nat)
    requires Packable(|input|) && Carries(c, input, f, base) && i <= BlockCount(|input|)
    ensures Readable(f, base, i) && Entry(f, base, i) == Offset(c, input, i)
  {
    hide FromLe, Table, Payload, Front, DataOffset, Pow256;
    var n, image := BlockCount(|input|), Image(c, input);
    var t := Table(c, input, n + 1);
    TableInImage(c, input);
    TableEntry(c, input, n + 1, i);
    SubSlice(f, base, image, TABLE_AT + 8 * i, TABLE_AT + 8 * i + 8);
    SubSlice(image, TABLE_AT, t, 8 * i, 8 * i + 8);
    OffsetFits(c, input, i);
    FromLeOfLe(8, Offset(c, input, i));
  }

  lemma CarriedPayload(c: Codec, input: seq<byte>, f: seq<byte>, base: nat, i: nat)
    requires Carries(c, input, f, base) && i < BlockCount(|input|)
    ensures Offset(c, input, i) <= Offset(c, input, i + 1) <= |Image(c, input)|
    ensures f[base + Offset(c, input, i)..base + Offset(c, input, i + 1)] == Stored(c, Chunk(input, i))
  {
    hide Stored, Payload, Front, DataOffset;
    var n, image := BlockCount(|input|), Image(c, input);
    var p, d := Payload(c, input, n), DataOffset(n);
    PayloadSlice(c, input, i, n);
    assert image[d..d + |p|] == p;
    SubSlice(image, d, p, |Payload(c, input, i)|, |Payload(c, input, i + 1)|);
    SubSlice(f, base, image, Offset(c, input, i), Offset(c, input, i + 1));
  }

  lemma CarriedBlock(c: Codec, input: seq<byte>, f: seq<byte>, base: nat, i: nat)
    requires Lossless(c) && Packable(|input|) && Carries(c, input, f, base) && i < BlockCount(|input|)
    ensures BlockOk(c, f, base, i) && Decoded(c, f, base, i) == Some(Chunk(input, i))
  {
    hide Entry, Payload, Front, DataOffset, Chunk, Word;
    CarriedEntry(c, input, f, base, 0);
    CarriedEntry(c, input, f, base, i);
    CarriedEntry(c, input, f, base, i + 1);
    CarriedHeader(c, input, f, base);
    CarriedPayload(c, input, f, base, i);
    PayloadSteps(c, input, i);
    assert RangeOk(f, base, i);
    assert StoredAt(f, base, i) == Stored(c, Chunk(input, i));
  }

  /** Block `i` of the stream decodes to block `i` of the input. */
  ghost predicate HoldsChunk(c: Codec, input: seq<byte>, f: seq<byte>, base: nat, i: nat) {
    i < BlockCount(|input|) && BlockOk(c, f, base, i) && Decoded(c, f, base, i) == Some(Chunk(input, i))
  }

  lemma PayloadSteps(c: Codec, input: seq<byte>, i: nat)
    requires i < BlockCount(|input|)
    ensures Offset(c, input, i + 1) == Offset(c, input, i) + |Stored(c, Chunk(input, i))|
    ensures Offset(c, input, 0) == DataOffset(BlockCount(|input|))
  {
  }

  lemma ChunkExtends(input: seq<byte>, k: nat)
    requires 0 < k <= BlockCount(|input|)
    ensures Resize(input, k * BLOCK) == Resize(input, (k - 1) * BLOCK) + Chunk(input, k - 1)
  {
  }

  lemma {:induction false} ChunksJoin(input: seq<byte>, c: Codec, f: seq<byte>, base: nat, k: nat)
    requires k <= BlockCount(|input|) && BlocksOk(c, f, base, 0, k)
    requires forall i :: 0 <= i < k ==> HoldsChunk(c, input, f, base, i)
    ensures Unpacked(c, f, base, k) == Resize(input, k * BLOCK)
  {
    hide Decoded, RangeOk;
    if k > 0 {
      ChunksJoin(input, c, f, base, k - 1);
      assert HoldsChunk(c, input, f, base, k - 1);
      ChunkExtends(input, k);
    }
  }

  /**
   * Round trip: whatever surrounds it in the file, the packed stream of any packable input is
   * accepted, reports the padded size, and unpacks to the input followed by zeros.
   */
  lemma RoundTrip(c: Codec, input: seq<byte>, f: seq<byte>, base: nat)
    requires Lossless(c) && Packable(|input|) && Carries(c, input, f, base)
    ensures Accepts(c, f, base)
    ensures Blocks(f, base) == BlockCount(|input|) && LogicalSize(f, base) == BlockCount(|input|) * BLOCK
    ensures Unpacked(c, f, base, Blocks(f, base)) ==
            input + Zeros(BlockCount(|input|) * BLOCK - |input|)
  {
    CarriedHeader(c, input, f, base);
    forall i | 0 <= i < Blocks(f, base) ensures HoldsChunk(c, input, f, base, i) && BlockOk(c, f, base, i) {
      CarriedBlock(c, input, f, base, i);
    }
    assert BlocksOk(c, f, base, 0, Blocks(f, base));
    ChunksJoin(input, c, f, base, Blocks(f, base));
  }

  /** An accepted stream bounds every table entry and every gap. */
  lemma {:induction false} AcceptedTable(c: Codec, f: seq<byte>, base: nat, i: nat, j: nat)
    requires Accepts(c, f, base) && i <= j <= Blocks(f, base)
    ensures Readable(f, base, j) && Readable(f, base, i)
    ensures DataAt(f, base) <= Entry(f, base, i) <= Entry(f, base, j) <= |f| - base
    ensures Entry(f, base, j) - Entry(f, base, i) <= (j - i) * BLOCK
    ensures Entry(f, base, 0) == DataAt(f, base)
    decreases j
  {
    assert BlockOk(c, f, base, 0);
    if j > 0 {
      assert BlockOk(c, f, base, j - 1);
      AcceptedTable(c, f, base, Min(i, j - 1), j - 1);
    }
  }

  // ---------------------------------------------------------------- what compression is for

  /**
   * A carried stream holds each block in its smaller form: the table leaves it as many bytes as compression needs,
   * and 64 KiB at most; and they are the compressed block whenever that is smaller, else the block itself.
   */
  lemma BlockIsCompressed(c: Codec, input: seq<byte>, f: seq<byte>, base: nat, i: nat)
    requires Packable(|input|) && Carries(c, input, f, base) && i < BlockCount(|input|)
    ensures Readable(f, base, i) && Readable(f, base, i + 1)
    ensures var small, from, to := c.compress(Chunk(input, i)), Entry(f, base, i), Entry(f, base, i + 1);
      && to - from == Min(|small|, 0x1_0000) && from <= to && base + to <= |f|
      && f[base + from..base + to] == if |small| < 0x1_0000 then small else Chunk(input, i)
  {
    hide Entry, Readable, Payload, Front, DataOffset, Chunk, Image, Offset, BlockCount;
    CarriedEntry(c, input, f, base, i);
    CarriedEntry(c, input, f, base, i + 1);
    CarriedPayload(c, input, f, base, i);
    PayloadSteps(c, input, i);
  }

  // ---------------------------------------------------------------- what a header has to say

  /**
   * The verifier takes a header if and only if its bytes are these: the letters PFSC, the two constants, the block
   * size twice, the place of the table; a data offset from 64 KiB on inside the file; and a logical size that is a
   * positive multiple of 64 KiB. So a file with any other first bytes is refused.
   */
  lemma HeaderExactly(f: seq<byte>, base: nat)
    ensures HeaderOk(f, base) <==>
      && base + 48 <= |f|
      && f[base..base + 16] == [0x50, 0x46, 0x53, 0x43, 0, 0, 0, 0, 6, 0, 0, 0, 0, 0, 1, 0]
      && f[base + 16..base + 32] == [0, 0, 1, 0, 0, 0, 0, 0, 0, 4, 0, 0, 0, 0, 0, 0]
      && 0x1_0000 <= Word(f, base + 32, 8) <= |f| - base
      && f[base + 40] == 0 == f[base + 41] && f[base + 42..base + 48] != [0, 0, 0, 0, 0, 0]
  {
    if base + 48 <= |f| {
      hide Le, FromLe, Word, Pow256;
      FirstWords(f, base);
      NextWords(f, base);
      SizeBytes(f, base + 40);
    }
  }

  lemma FirstWords(f: seq<byte>, base: nat)
    requires base + 16 <= |f|
    ensures Word(f, base, 4) == MAGIC && Word(f, base + 4, 4) == 0 && Word(f, base + 8, 4) == 6
      && Word(f, base + 12, 4) == BLOCK
      <==> f[base..base + 16] == [0x50, 0x46, 0x53, 0x43, 0, 0, 0, 0, 6, 0, 0, 0, 0, 0, 1, 0]
  {
    hide Le, FromLe, Word, Pow256;
    LiteralWords();
    Powers();
    WordIs(f, base, 4, MAGIC);
    WordIs(f, base + 4, 4, 0);
    WordIs(f, base + 8, 4, 6);
    WordIs(f, base + 12, 4, BLOCK);
    FourWords(f, base, Le(4, MAGIC), Le(4, 0), Le(4, 6), Le(4, BLOCK));
  }

  lemma NextWords(f: seq<byte>, base: nat)
    requires base + 32 <= |f|
    ensures Word(f, base + 16, 8) == BLOCK && Word(f, base + 24, 8) == TABLE_AT
      <==> f[base + 16..base + 32] == [0, 0, 1, 0, 0, 0, 0, 0, 0, 4, 0, 0, 0, 0, 0, 0]
  {
    hide Le, FromLe, Word, Pow256;
    LiteralWords();
    Powers();
    WordIs(f, base + 16, 8, BLOCK);
    WordIs(f, base + 24, 8, TABLE_AT);
    Halves(f, base + 16, base + 24, base + 32, Le(8, BLOCK), Le(8, TABLE_AT));
  }

  lemma LiteralWords()
    ensures Le(4, MAGIC) + Le(4, 0) + Le(4, 6) + Le(4, BLOCK)
      == [0x50, 0x46, 0x53, 0x43, 0, 0, 0, 0, 6, 0, 0, 0, 0, 0, 1, 0]
    ensures Le(8, BLOCK) + Le(8, TABLE_AT) == [0, 0, 1, 0, 0, 0, 0, 0, 0, 4, 0, 0, 0, 0, 0, 0]
  {
    hide Le;
    LeFour(MAGIC);
    LeFour(0);
    LeFour(6);
    LeFour(BLOCK);
    LeEight(BLOCK);
    LeEight(TABLE_AT);
  }

  lemma Halves(f: seq<byte>, from: nat, mid: nat, to: nat, a: seq<byte>, b: seq<byte>)
    requires from <= mid <= to <= |f| && |a| == mid - from && |b| == to - mid
    ensures f[from..to] == a + b <==> f[from..mid] == a && f[mid..to] == b
  {
    var s, k := f[from..to], mid - from;
    assert s[..k] == f[from..mid] && s[k..] == f[mid..to];
    assert s == s[..k] + s[k..];
    assert (a + b)[..k] == a && (a + b)[k..] == b;
  }

  lemma FourWords(f: seq<byte>, at: nat, a: seq<byte>, b: seq<byte>, c: seq<byte>, d: seq<byte>)
    requires at + 16 <= |f| && |a| == |b| == |c| == |d| == 4
    ensures f[at..at + 16] == a + b + c + d <==>
      f[at..at + 4] == a && f[at + 4..at + 8] == b && f[at + 8..at + 12] == c && f[at + 12..at + 16] == d
  {
    Halves(f, at, at + 12, at + 16, a + b + c, d);
    Halves(f, at, at + 8, at + 12, a + b, c);
    Halves(f, at, at + 4, at + 8, a, b);
  }

  lemma LeFour(v: nat)
    ensures Le(4, v) == [v % 256, v / 256 % 256, v / 256 / 256 % 256, v / 256 / 256 / 256 % 256]
  {
    assert Le(2, v / 256 / 256) == [v / 256 / 256 % 256, v / 256 / 256 / 256 % 256] + Le(0, v / 256 / 256 / 256 / 256);
  }

  lemma LeEight(v: nat)
    requires v < 0x1_0000_0000
    ensures Le(8, v) == [v % 256, v / 256 % 256, v / 256 / 256 % 256, v / 256 / 256 / 256 % 256, 0, 0, 0, 0]
  {
    var w := v / 256 / 256 / 256 / 256;
    assert w == 0;
    LeFour(0);
    assert Le(6, v / 256 / 256) == [v / 256 / 256 % 256, v / 256 / 256 / 256 % 256] + Le(4, w);
  }

  /** A 64-bit size is a positive multiple of 64 KiB. */
  lemma SizeBytes(f: seq<byte>, at: nat)
    requires at + 8 <= |f|
    ensures Word(f, at, 8) != 0 && Word(f, at, 8) % 0x1_0000 == 0
      <==> f[at] == 0 == f[at + 1] && f[at + 2..at + 8] != [0, 0, 0, 0, 0, 0]
  {
    hide FromLe, Le, Pow256;
    SizeParts(f, at);
    ZeroBytes();
    WordIs(f, at + 2, 6, 0);
    Multiple(f[at], f[at + 1], Word(f, at + 2, 6));
  }

  lemma SizeParts(f: seq<byte>, at: nat)
    requires at + 8 <= |f|
    ensures Word(f, at, 8) == f[at] + 256 * (f[at + 1] + 256 * Word(f, at + 2, 6))
  {
    var s := f[at..at + 8];
    assert s[1..] == f[at + 1..at + 8] && s[1..][1..] == f[at + 2..at + 8];
    assert FromLe(s) == s[0] + 256 * FromLe(s[1..]);
    assert FromLe(s[1..]) == s[1..][0] + 256 * FromLe(s[1..][1..]);
  }

  lemma Multiple(a: byte, b: byte, rest: nat)
    ensures var n := a + 256 * (b + 256 * rest); n != 0 && n % 0x1_0000 == 0 <==> a == 0 == b && rest != 0
  {
    var n: nat := a + 256 * (b + 256 * rest);
    assert n == a + 256 * b + 0x1_0000 * rest;
    assert n % 0x1_0000 == a + 256 * b;
  }

  lemma ZeroBytes()
    ensures Le(6, 0) == [0, 0, 0, 0, 0, 0] && 0 < Pow256(6)
  {
    assert Le(6, 0) == [0, 0] + Le(4, 0);
    LeFour(0);
  }
}
