/** The in-line packing loop of a single-worker conversion, with its checkpoints and resume. */
module PfscPack {
  import opened Bytes
  import opened Pfsc
  import Resume

  const CHECKPOINT_BLOCKS: nat := 128

  /** The stage holds the header, table entries `0..k`, the gap behind the table and the first `k` blocks. */
  ghost predicate Holds(c: Codec, input: seq<byte>, f: seq<byte>, base: nat, k: nat) {
    && k <= BlockCount(|input|)
    && TableDone(c, input, f, base, k + 1) && GapDone(c, input, f, base) && PayloadDone(c, input, f, base, k)
  }

  /** The header and the first `m` table entries are in place. */
  ghost predicate TableDone(c: Codec, input: seq<byte>, f: seq<byte>, base: nat, m: nat) {
    && m <= BlockCount(|input|) + 1
    && base + TABLE_AT + 8 * m <= |f|
    && f[base..base + TABLE_AT + 8 * m] == Image(c, input)[..TABLE_AT + 8 * m]
  }

  /** The zeros between the table and the first block are in place. */
  ghost predicate GapDone(c: Codec, input: seq<byte>, f: seq<byte>, base: nat) {
    var n := BlockCount(|input|);
    && base + DataOffset(n) <= |f|
    && f[base + TABLE_AT + TableBytes(n)..base + DataOffset(n)]
        == Image(c, input)[TABLE_AT + TableBytes(n)..DataOffset(n)]
  }

  /** The first `k` blocks are in place. */
  ghost predicate PayloadDone(c: Codec, input: seq<byte>, f: seq<byte>, base: nat, k: nat) {
    && k <= BlockCount(|input|)
    && base + Offset(c, input, k) <= |f|
    && f[base + DataOffset(BlockCount(|input|))..base + Offset(c, input, k)] == Payload(c, input, k)
  }

  /** The first blocks are in place except for the tail still waiting in the write buffer. */
  ghost predicate Buffered(c: Codec, input: seq<byte>, f: seq<byte>, base: nat, pos: nat, buffer: seq<byte>, k: nat) {
    && k <= BlockCount(|input|)
    && base + DataOffset(BlockCount(|input|)) <= pos <= |f|
    && f[base + DataOffset(BlockCount(|input|))..pos] + buffer == Payload(c, input, k)
  }

  /** A durable record that describes the stage it was saved with. */
  ghost predicate SoundRecord(c: Codec, input: seq<byte>, base: nat, s: Resume.State, stage: seq<byte>) {
    && (s.phase == Resume.Pack || (s.phase == Resume.Verify && s.verifyNext == 0 && s.packNext == BlockCount(|input|)))
    && Holds(c, input, stage, base, s.packNext) && s.packStored == Offset(c, input, s.packNext)
  }

  // ---------------------------------------------------------------- facts about the target image

  lemma ImageParts(c: Codec, input: seq<byte>)
    ensures var n := BlockCount(|input|);
            var image := Image(c, input);
            && image[TABLE_AT..TABLE_AT + TableBytes(n)] == Table(c, input, n + 1)
            && image[DataOffset(n)..] == Payload(c, input, n)
            && image[..TABLE_AT] == Header(n) + Zeros(TABLE_AT - HEADER_SIZE)
            && image[TABLE_AT + TableBytes(n)..DataOffset(n)] == Zeros(DataOffset(n) - TABLE_AT - TableBytes(n))
  {
    hide Header, Table, Payload, DataOffset;
    TableInImage(c, input);
  }

  lemma {:induction false} PayloadPrefix(c: Codec, input: seq<byte>, k: nat, n: nat)
    requires k <= n <= BlockCount(|input|)
    ensures |Payload(c, input, k)| <= |Payload(c, input, n)|
    ensures Payload(c, input, n)[..|Payload(c, input, k)|] == Payload(c, input, k)
  {
    hide Stored, Chunk, DataOffset;
    if k < n {
      PayloadPrefix(c, input, k, n - 1);
    }
  }

  /** A finished stage carries the whole image. */
  lemma DoneCarries(c: Codec, input: seq<byte>, f: seq<byte>, base: nat)
    requires Holds(c, input, f, base, BlockCount(|input|))
    ensures Carries(c, input, f, base)
  {
    hide Header, Table, Payload, DataOffset, Image, Front;
    var n, image := BlockCount(|input|), Image(c, input);
    ImageParts(c, input);
    var a, b, d := TABLE_AT + TableBytes(n), DataOffset(n), |image|;
    assert f[base..base + a] + f[base + a..base + b] == f[base..base + b];
    assert f[base..base + b] + f[base + b..base + d] == f[base..base + d];
    assert image[..a] + image[a..b] == image[..b];
    assert image[..b] + image[b..] == image;
  }

  /** Entry `i` of a stage that holds `k` blocks is the offset of block `i`. */
  lemma HeldEntry(c: Codec, input: seq<byte>, f: seq<byte>, base: nat, k: nat, i: nat)
    requires Packable(|input|) && Holds(c, input, f, base, k) && i <= k
    ensures Readable(f, base, i) && Entry(f, base, i) == Offset(c, input, i)
  {
    hide FromLe, Le, Header, Table, Payload, DataOffset, Image, Front, Pow256;
    var n, image := BlockCount(|input|), Image(c, input);
    ImageParts(c, input);
    TableEntry(c, input, n + 1, i);
    SubSlice(image, TABLE_AT, Table(c, input, n + 1), 8 * i, 8 * i + 8);
    SubSlice(f, base, image[..TABLE_AT + 8 * (k + 1)], TABLE_AT + 8 * i, TABLE_AT + 8 * i + 8);
    PrefixSlice(image, TABLE_AT + 8 * (k + 1), TABLE_AT + 8 * i, TABLE_AT + 8 * i + 8);
    OffsetFits(c, input, i);
    FromLeOfLe(8, Offset(c, input, i));
  }

  // ---------------------------------------------------------------- effects of single writes

  /** Appending to the payload leaves the front alone. */
  lemma FrontKept(c: Codec, input: seq<byte>, f: seq<byte>, base: nat, at: nat, d: seq<byte>, m: nat)
    requires TableDone(c, input, f, base, m) && GapDone(c, input, f, base)
    requires at >= base + DataOffset(BlockCount(|input|))
    ensures TableDone(c, input, Put(f, at, d), base, m) && GapDone(c, input, Put(f, at, d), base)
  {
    hide Header, Table, Payload, DataOffset, Image, Front, Put;
    var n := BlockCount(|input|);
    PutKeeps(f, at, d, base, base + TABLE_AT + 8 * m);
    PutKeeps(f, at, d, base + TABLE_AT + TableBytes(n), base + DataOffset(n));
  }

  /** Flushing the buffer moves its bytes to the end of the payload. */
  lemma Flushed(c: Codec, input: seq<byte>, f: seq<byte>, base: nat, pos: nat, buffer: seq<byte>, k: nat)
    requires Buffered(c, input, f, base, pos, buffer, k)
    ensures Buffered(c, input, Put(f, pos, buffer), base, pos + |buffer|, [], k)
  {
    hide Payload, DataOffset, Put;
    var d := base + DataOffset(BlockCount(|input|));
    PutKeeps(f, pos, buffer, d, pos);
    PutReads(f, pos, buffer);
    var g := Put(f, pos, buffer);
    if buffer != [] { SliceJoin(g, d, pos, pos + |buffer|); }
    assert g[d..pos + |buffer|] + [] == g[d..pos + |buffer|];
  }

  /** A write in front of the gap and behind the entries that stay. */
  lemma TableGrown(c: Codec, input: seq<byte>, f: seq<byte>, base: nat, lo: nat, hi: nat)
    requires lo < hi <= BlockCount(|input|) + 1 && TableDone(c, input, f, base, lo) && GapDone(c, input, f, base)
    ensures var g := Put(f, base + TABLE_AT + 8 * lo, Table(c, input, BlockCount(|input|) + 1)[8 * lo..8 * hi]);
            TableDone(c, input, g, base, hi)
  {
    hide Header, Table, Payload, DataOffset, Image, Front, Put;
    var n, image := BlockCount(|input|), Image(c, input);
    var t := Table(c, input, n + 1)[8 * lo..8 * hi];
    var at := base + TABLE_AT + 8 * lo;
    var g := Put(f, at, t);
    ImageParts(c, input);
    PutKeeps(f, at, t, base, at);
    PutReads(f, at, t);
    SubSlice(image, TABLE_AT, Table(c, input, n + 1), 8 * lo, 8 * hi);
    SliceJoin(g, base, at, at + |t|);
    assert image[..TABLE_AT + 8 * hi] == image[..TABLE_AT + 8 * lo] + image[TABLE_AT + 8 * lo..TABLE_AT + 8 * hi];
  }

  /** Writing table entries `lo..hi` extends the finished part of the table and touches nothing else. */
  lemma TableWritten(c: Codec, input: seq<byte>, f: seq<byte>, base: nat, lo: nat, hi: nat, k: nat)
    requires lo < hi <= BlockCount(|input|) + 1
    requires TableDone(c, input, f, base, lo) && GapDone(c, input, f, base) && PayloadDone(c, input, f, base, k)
    ensures var g := Put(f, base + TABLE_AT + 8 * lo, Table(c, input, BlockCount(|input|) + 1)[8 * lo..8 * hi]);
            TableDone(c, input, g, base, hi) && GapDone(c, input, g, base) && PayloadDone(c, input, g, base, k)
            && |g| == |f|
  {
    hide Header, Table, Payload, DataOffset, Image, Front, Put, TableDone;
    var n := BlockCount(|input|);
    var t := Table(c, input, n + 1)[8 * lo..8 * hi];
    var at := base + TABLE_AT + 8 * lo;
    TableGrown(c, input, f, base, lo, hi);
    PutReads(f, at, t);
    PutKeeps(f, at, t, base + TABLE_AT + TableBytes(n), base + DataOffset(n));
    PutKeeps(f, at, t, base + DataOffset(n), base + Offset(c, input, k));
  }

  /** A fresh stream starts with the header followed by zeros up to the first block. */
  lemma FreshFront(c: Codec, input: seq<byte>, f: seq<byte>, base: nat)
    ensures var n := BlockCount(|input|);
            var g := Put(f, base, Header(n) + Zeros(DataOffset(n) - HEADER_SIZE));
            && TableDone(c, input, g, base, 0) && GapDone(c, input, g, base)
            && Buffered(c, input, g, base, base + DataOffset(n), [], 0)
            && g[..base] == Resize(f, base)
  {
    hide Table, DataOffset, Image, Front, Resize, Header, Zeros, Payload, Put, BlockCount, TableBytes;
    var n := BlockCount(|input|);
    var head, image, d, e := Header(n), Image(c, input), DataOffset(n), TABLE_AT + TableBytes(n);
    var h := head + Zeros(d - HEADER_SIZE);
    var g := Put(f, base, h);
    ImageParts(c, input);
    HeadSlices(head, d, e);
    PutFront(f, base, h);
    SubSlice(g, base, h, 0, TABLE_AT);
    SubSlice(g, base, h, e, d);
    NoPayload(c, input);
    assert g[base..base + TABLE_AT] == image[..TABLE_AT];
    assert g[base + e..base + d] == image[e..d];
  }

  lemma NoPayload(c: Codec, input: seq<byte>)
    ensures Payload(c, input, 0) == [] && Offset(c, input, 0) == DataOffset(BlockCount(|input|))
  {
  }

  lemma HeadSlices(head: seq<byte>, dataAt: nat, tableEnd: nat)
    requires |head| == HEADER_SIZE && TABLE_AT <= tableEnd <= dataAt
    ensures var h := head + Zeros(dataAt - HEADER_SIZE);
      && |h| == dataAt && h[0..TABLE_AT] == head + Zeros(TABLE_AT - HEADER_SIZE)
      && h[tableEnd..dataAt] == Zeros(dataAt - tableEnd)
  {
  }

  lemma PutFront(f: seq<byte>, base: nat, h: seq<byte>)
    requires h != []
    ensures var g := Put(f, base, h); |g| >= base + |h| && g[base..base + |h|] == h && g[..base] == Resize(f, base)
  {
    hide Resize;
    var g := Put(f, base, h);
    assert g == Resize(f, base) + h + Drop(f, base + |h|);
  }

  /** Cutting off everything behind block `k` keeps what the stage held. */
  lemma TruncatedHolds(c: Codec, input: seq<byte>, f: seq<byte>, base: nat, k: nat)
    requires Holds(c, input, f, base, k)
    ensures var g := Resize(f, base + Offset(c, input, k));
            Holds(c, input, g, base, k) && Buffered(c, input, g, base, base + Offset(c, input, k), [], k)
            && g[..base] == Resize(f, base)
  {
    hide Header, Table, Payload, DataOffset, Image, Front;
    var n := BlockCount(|input|);
    var g := Resize(f, base + Offset(c, input, k));
    assert g == f[..base + Offset(c, input, k)];
    assert g[base..base + TABLE_AT + 8 * (k + 1)] == f[base..base + TABLE_AT + 8 * (k + 1)];
    assert g[base + TABLE_AT + TableBytes(n)..base + DataOffset(n)]
        == f[base + TABLE_AT + TableBytes(n)..base + DataOffset(n)];
    assert g[base + DataOffset(n)..base + Offset(c, input, k)] == f[base + DataOffset(n)..base + Offset(c, input, k)];
  }

  /**
   * Resume is exact: a stage that holds `k` blocks still holds them after any later payload or
   * table write of the same run, so the record saved for it stays true.
   */
  lemma HeldForever(c: Codec, input: seq<byte>, f: seq<byte>, base: nat, k: nat, m: nat)
    requires Holds(c, input, f, base, m) && k <= m
    ensures Holds(c, input, f, base, k)
  {
    hide Image, Front, PayloadDone;
    TablePrefix(f, base, Image(c, input), TABLE_AT + 8 * (k + 1), TABLE_AT + 8 * (m + 1));
    PayloadShrinks(c, input, f, base, k, m);
  }

  lemma PayloadShrinks(c: Codec, input: seq<byte>, f: seq<byte>, base: nat, k: nat, m: nat)
    requires PayloadDone(c, input, f, base, m) && k <= m
    ensures PayloadDone(c, input, f, base, k)
  {
    hide Payload, DataOffset;
    PayloadPrefix(c, input, k, m);
    var p := Payload(c, input, m);
    assert p[..|p|] == p;
    TablePrefix(f, base + DataOffset(BlockCount(|input|)), p, |Payload(c, input, k)|, |p|);
  }

  lemma TablePrefix(f: seq<byte>, base: nat, image: seq<byte>, k: nat, m: nat)
    requires k <= m <= |image| && base + m <= |f| && f[base..base + m] == image[..m]
    ensures f[base..base + k] == image[..k]
  {
    SubSlice(f, base, image[..m], 0, k);
    PrefixSlice(image, m, 0, k);
    assert f[base + 0..base + k] == f[base..base + k];
  }

  // ---------------------------------------------------------------- the packing loop

  function EncodedOffsets(offsets: seq<nat>): seq<byte> {
    if offsets == [] then [] else EncodedOffsets(offsets[..|offsets| - 1]) + Le(8, offsets[|offsets| - 1])
  }

  /** The bytes of table entries `lo..hi`, encoded from the offsets collected so far. */
  method EncodeOffsets(offsets: array<nat>, lo: nat, hi: nat) returns (t: seq<byte>)
    requires lo <= hi <= offsets.Length
    ensures t == EncodedOffsets(offsets[lo..hi])
  {
    t := [];
    var i := lo;
    while i < hi
      invariant lo <= i <= hi
      invariant t == EncodedOffsets(offsets[lo..i])
    {
      t := t + Le(8, offsets[i]);
      assert offsets[lo..i + 1][..i - lo] == offsets[lo..i];
      i := i + 1;
    }
  }

  /** Encoding the offsets of blocks `lo..hi` yields that part of the table. */
  lemma {:induction false} EncodedTable(c: Codec, input: seq<byte>, offsets: array<nat>, lo: nat, hi: nat)
    requires lo <= hi <= BlockCount(|input|) + 1 == offsets.Length
    requires forall i :: lo <= i < hi ==> offsets[i] == Offset(c, input, i)
    ensures EncodedOffsets(offsets[lo..hi]) == Table(c, input, BlockCount(|input|) + 1)[8 * lo..8 * hi]
  {
    hide Offset, Le, Table;
    var table := Table(c, input, BlockCount(|input|) + 1);
    if lo < hi {
      EncodedTable(c, input, offsets, lo, hi - 1);
      assert offsets[lo..hi][..hi - lo - 1] == offsets[lo..hi - 1];
      TableEntry(c, input, BlockCount(|input|) + 1, hi - 1);
      assert table[8 * lo..8 * hi] == table[8 * lo..8 * (hi - 1)] + table[8 * (hi - 1)..8 * (hi - 1) + 8];
    } else {
      assert offsets[lo..hi] == [] && table[8 * lo..8 * hi] == [];
    }
  }

  /** Reads entries `0..=k` of a stage back into the offset array. */
  method ReadEntries(c: Codec, input: seq<byte>, f: seq<byte>, base: nat, k: nat, offsets: array<nat>)
    returns (ok: bool)
    requires Packable(|input|) && k <= BlockCount(|input|) == offsets.Length - 1
    modifies offsets
    ensures Holds(c, input, f, base, k) ==> ok && forall i :: 0 <= i <= k ==> offsets[i] == Offset(c, input, i)
  {
    hide Entry, Offset, Holds, BlockCount;
    ghost var good := Holds(c, input, f, base, k);
    if good { HeldEntry(c, input, f, base, k, k); }
    if !Readable(f, base, k) { return false; }
    var i := 0;
    while i <= k
      invariant i <= k + 1
      invariant forall j :: 0 <= j < i ==> good ==> offsets[j] == Offset(c, input, j)
    {
      if good { HeldEntry(c, input, f, base, k, i); }
      offsets[i] := Entry(f, base, i);
      i := i + 1;
    }
    return true;
  }

  /**
   * State of a run that has written `k` blocks and last saved a record at block `from`: the stage
   * holds that checkpoint, and the payload is complete up to the bytes still in the buffer.
   */
  ghost predicate Running(c: Codec, input: seq<byte>, f: seq<byte>, base: nat, pos: nat, buffer: seq<byte>, from: nat,
      k: nat) {
    && from <= k <= BlockCount(|input|)
    && TableDone(c, input, f, base, Written(from)) && GapDone(c, input, f, base)
    && Buffered(c, input, f, base, pos, buffer, k)
    && pos + |buffer| == base + Offset(c, input, k)
  }

  /** Table entries written by the checkpoint at block `from`. */
  function Written(from: nat): nat { if from == 0 then 0 else from + 1 }

  lemma FlushRunning(c: Codec, input: seq<byte>, f: seq<byte>, base: nat, pos: nat, buffer: seq<byte>,
      from: nat, k: nat)
    requires Running(c, input, f, base, pos, buffer, from, k)
    ensures Running(c, input, Put(f, pos, buffer), base, pos + |buffer|, [], from, k)
  {
    hide Buffered, TableDone, GapDone;
    assert pos >= base + DataOffset(BlockCount(|input|)) by { BufferedStart(c, input, f, base, pos, buffer, k); }
    FrontKept(c, input, f, base, pos, buffer, Written(from));
    Flushed(c, input, f, base, pos, buffer, k);
  }

  lemma BufferedStart(c: Codec, input: seq<byte>, f: seq<byte>, base: nat, pos: nat, buffer: seq<byte>, k: nat)
    requires Buffered(c, input, f, base, pos, buffer, k)
    ensures base + DataOffset(BlockCount(|input|)) <= pos
  {
  }

  lemma AppendRunning(c: Codec, input: seq<byte>, f: seq<byte>, base: nat, pos: nat, buffer: seq<byte>,
      from: nat, k: nat)
    requires Running(c, input, f, base, pos, buffer, from, k) && k < BlockCount(|input|)
    ensures Running(c, input, f, base, pos, buffer + Stored(c, Chunk(input, k)), from, k + 1)
  {
    hide TableDone, GapDone, Stored, Chunk, DataOffset;
    var s := Stored(c, Chunk(input, k));
    var d := base + DataOffset(BlockCount(|input|));
    assert Payload(c, input, k + 1) == Payload(c, input, k) + s;
    assert f[d..pos] + (buffer + s) == (f[d..pos] + buffer) + s;
  }

  /** A flushed run holds its blocks once table entries `from..k` are written. */
  lemma CheckpointRunning(c: Codec, input: seq<byte>, f: seq<byte>, base: nat, pos: nat, from: nat, k: nat)
    requires Running(c, input, f, base, pos, [], from, k) && 0 < k
    ensures
      var g := Put(f, base + TABLE_AT + 8 * from, Table(c, input, BlockCount(|input|) + 1)[8 * from..8 * (k + 1)]);
            Holds(c, input, g, base, k) && Running(c, input, g, base, pos, [], k, k)
  {
    hide Header, Table, Payload, DataOffset, Image, Front, Put;
    var d := base + DataOffset(BlockCount(|input|));
    assert f[d..pos] + [] == f[d..pos];
    assert TableDone(c, input, f, base, from) by {
      if from > 0 {
        TablePrefix(f, base, Image(c, input), TABLE_AT + 8 * from, TABLE_AT + 8 * (from + 1));
      }
    }
    TableWritten(c, input, f, base, from, k + 1, k);
    var g := Put(f, base + TABLE_AT + 8 * from, Table(c, input, BlockCount(|input|) + 1)[8 * from..8 * (k + 1)]);
    assert g[d..pos] + [] == g[d..pos];
  }

  /** Records saved by a run: each describes a held stage no later than block `from`. */
  ghost predicate Saved(c: Codec, input: seq<byte>, base: nat, j: Resume.Journal, before: seq<Resume.State>, from: nat)
    reads j
  {
    AllSound(c, input, base, j.saved, j.stages, before, from)
  }

  ghost predicate AllSound(c: Codec, input: seq<byte>, base: nat, saved: seq<Resume.State>, stages: seq<seq<byte>>,
      before: seq<Resume.State>, from: nat)
  {
    && |saved| == |stages| && |before| <= |saved| && saved[..|before|] == before
    && forall i :: |before| <= i < |saved| ==>
         SoundRecord(c, input, base, saved[i], stages[i]) && saved[i].packNext <= from
  }

  lemma NothingSound(c: Codec, input: seq<byte>, base: nat, saved: seq<Resume.State>, stages: seq<seq<byte>>, from: nat)
    requires |saved| == |stages|
    ensures AllSound(c, input, base, saved, stages, saved, from)
  {
  }

  lemma OneMoreSound(c: Codec, input: seq<byte>, base: nat, saved: seq<Resume.State>, stages: seq<seq<byte>>,
      before: seq<Resume.State>, from: nat, s: Resume.State, stage: seq<byte>)
    requires AllSound(c, input, base, saved, stages, before, from)
    requires SoundRecord(c, input, base, s, stage) && s.packNext <= from
    ensures AllSound(c, input, base, saved + [s], stages + [stage], before, from) && |before| <= |saved|
  {
    hide SoundRecord;
    assert (saved + [s])[..|before|] == saved[..|before|];
  }

  /** The block the newest record behind the first `before` ones leaves off at; `first` if there is none. */
  function LeftOff(saved: seq<Resume.State>, before: nat, first: nat): nat {
    if before < |saved| then saved[|saved| - 1].packNext else first
  }

  /** Records advance, by at most 128 blocks each. */
  ghost predicate Spaced(saved: seq<Resume.State>, before: nat, first: nat) {
    && before <= |saved|
    && forall i :: before <= i < |saved| ==>
         LeftOff(saved[..i], before, first) <= saved[i].packNext <= LeftOff(saved[..i], before, first) + 0x80
  }

  lemma NothingSpaced(saved: seq<Resume.State>, first: nat)
    ensures Spaced(saved, |saved|, first) && LeftOff(saved, |saved|, first) == first
  {
  }

  lemma SpacedMore(saved: seq<Resume.State>, before: nat, first: nat, s: Resume.State)
    requires Spaced(saved, before, first)
    requires LeftOff(saved, before, first) <= s.packNext <= LeftOff(saved, before, first) + 0x80
    ensures Spaced(saved + [s], before, first) && LeftOff(saved + [s], before, first) == s.packNext
  {
    var more := saved + [s];
    forall i | before <= i < |more|
      ensures LeftOff(more[..i], before, first) <= more[i].packNext <= LeftOff(more[..i], before, first) + 0x80
    {
      if i < |saved| { assert more[..i] == saved[..i]; } else { assert more[..i] == saved; }
    }
  }

  /** The packing loop from block `first`, whose checkpoint the stage already holds when `good`. */
  method PackBlocks(c: Codec, input: seq<byte>, out: File, base: nat, polls: nat -> bool, j: Resume.Journal,
                    offsets: array<nat>, first: nat, ghost good: bool) returns (r: Result<nat>)
    requires Packable(|input|) && first <= BlockCount(|input|) == offsets.Length - 1
    requires j.Valid() && base <= out.pos
    requires good ==> Running(c, input, out.data, base, out.pos, [], first, first)
    requires forall i :: 0 <= i <= first ==> good ==> offsets[i] == Offset(c, input, i)
    modifies out, j, offsets
    ensures j.Valid() && (good ==> Saved(c, input, base, j, old(j.saved), BlockCount(|input|)))
    ensures good && r.Ok? ==> Running(c, input, out.data, base, out.pos, [], BlockCount(|input|), BlockCount(|input|))
    ensures good && r.Ok? ==> r.value == Offset(c, input, BlockCount(|input|))
    ensures r.Ok? ==> forall i :: 0 <= i < offsets.Length ==> good ==> offsets[i] == Offset(c, input, i)
    ensures (forall i :: !polls(i)) && (forall i :: !j.failing(i)) ==> r.Ok?
    ensures Spaced(j.saved, |old(j.saved)|, first)
    ensures r.Ok? ==> LeftOff(j.saved, |old(j.saved)|, first) == BlockCount(|input|)
  {
    hide Running, SoundRecord, Payload, Table, Holds, Put, Chunk, DataOffset, Stored, Spaced, LeftOff, Offset;
    var n := BlockCount(|input|);
    var k, from, buffer := first, first, [];
    NothingSpaced(j.saved, first);
    var stored: nat := out.pos - base;
    while k < n
      invariant first <= from <= k <= n && k - from < CHECKPOINT_BLOCKS && (k == n ==> from == n)
      invariant j.Valid() && (good ==> Saved(c, input, base, j, old(j.saved), from))
      invariant Spaced(j.saved, |old(j.saved)|, first) && LeftOff(j.saved, |old(j.saved)|, first) == from
      invariant out.pos + |buffer| == base + stored && (from == k ==> buffer == [])
      invariant good ==> Running(c, input, out.data, base, out.pos, buffer, from, k)
      invariant forall i :: 0 <= i <= k ==> good ==> offsets[i] == Offset(c, input, i)
    {
      if polls(k) { return Err(ECANCELED); }
      var b := Chunk(input, k);
      buffer := AppendBlock(c, input, out, base, buffer, k, from, good);
      stored := stored + |Stored(c, b)|;
      k := k + 1;
      if good { OffsetOfRunning(c, input, out.data, base, out.pos, buffer, from, k); }
      offsets[k] := stored;
      if k == n || k - from >= CHECKPOINT_BLOCKS {
        ghost var saved := j.saved;
        var ok := SaveCheckpoint(c, input, out, base, buffer, j, offsets, from, k, stored, good);
        if !ok { return Err(EIO); }
        SpacedMore(saved, |old(j.saved)|, first, j.state);
        from, buffer := k, [];
      }
    }
    if good { OffsetOfRunning(c, input, out.data, base, out.pos, buffer, from, k); }
    return Ok(stored);
  }

  lemma OffsetOfRunning(c: Codec, input: seq<byte>, f: seq<byte>, base: nat, pos: nat, buffer: seq<byte>,
      from: nat, k: nat)
    requires Running(c, input, f, base, pos, buffer, from, k)
    ensures pos + |buffer| == base + Offset(c, input, k)
  {
  }

  /**
   * One block: a compressed block goes through the 64 KiB write buffer, which is flushed when it
   * would overflow; an incompressible one is written straight through behind the flushed buffer.
   */
  method AppendBlock(c: Codec, input: seq<byte>, out: File, base: nat, buffer: seq<byte>, k: nat, ghost from: nat,
      ghost good: bool)
    returns (rest: seq<byte>)
    requires k < BlockCount(|input|)
    requires good ==> Running(c, input, out.data, base, out.pos, buffer, from, k)
    modifies out
    ensures out.pos + |rest| == old(out.pos) + |buffer| + |Stored(c, Chunk(input, k))|
    ensures good ==> Running(c, input, out.data, base, out.pos, rest, from, k + 1)
  {
    hide Running, Payload, Put, Chunk, DataOffset;
    var b := Chunk(input, k);
    var z := c.compress(b);
    rest := buffer;
    if |z| < BLOCK {
      if |z| > BLOCK - |buffer| {
        if good { FlushRunning(c, input, out.data, base, out.pos, buffer, from, k); }
        out.Write(buffer);
        rest := [];
      }
      if good { AppendRunning(c, input, out.data, base, out.pos, rest, from, k); }
      rest := rest + z;
    } else {
      if good { FlushRunning(c, input, out.data, base, out.pos, buffer, from, k); }
      out.Write(buffer);
      rest := [];
      if good {
        AppendRunning(c, input, out.data, base, out.pos, [], from, k);
        assert [] + b == b;
        FlushRunning(c, input, out.data, base, out.pos, b, from, k + 1);
      }
      out.Write(b);
    }
  }

  /** Flushes the buffer and writes the table entries of the window. */
  method WriteWindow(c: Codec, input: seq<byte>, out: File, base: nat, buffer: seq<byte>, offsets: array<nat>,
                     from: nat, k: nat, stored: nat, ghost good: bool)
    requires from < k <= BlockCount(|input|) == offsets.Length - 1 && out.pos + |buffer| == base + stored
    requires good ==> Running(c, input, out.data, base, out.pos, buffer, from, k)
    requires forall i :: 0 <= i <= k ==> good ==> offsets[i] == Offset(c, input, i)
    modifies out
    ensures good ==> stored == Offset(c, input, k) && Holds(c, input, out.data, base, k)
    ensures good ==> Running(c, input, out.data, base, base + stored, [], k, k)
  {
    hide Running, Holds, Payload, Table, Put, Chunk, DataOffset, Stored, Offset, BlockCount, EncodedOffsets;
    if good { FlushRunning(c, input, out.data, base, out.pos, buffer, from, k); }
    out.Write(buffer);
    if good {
      CheckpointRunning(c, input, out.data, base, out.pos, from, k);
      OffsetOfRunning(c, input, out.data, base, out.pos, [], from, k);
    }
    out.Seek(base + TABLE_AT + 8 * from);
    var t := EncodeOffsets(offsets, from, k + 1);
    if good { EncodedTable(c, input, offsets, from, k + 1); }
    out.Write(t);
  }

  /** Flushes, writes the table entries of the window, and makes a record durable. */
  method SaveCheckpoint(c: Codec, input: seq<byte>, out: File, base: nat, buffer: seq<byte>, j: Resume.Journal,
                        offsets: array<nat>, from: nat, k: nat, stored: nat, ghost good: bool) returns (ok: bool)
    requires from < k <= BlockCount(|input|) == offsets.Length - 1 && out.pos + |buffer| == base + stored
    requires j.Valid() && k - from <= CHECKPOINT_BLOCKS
    requires good ==> Running(c, input, out.data, base, out.pos, buffer, from, k)
    requires forall i :: 0 <= i <= k ==> good ==> offsets[i] == Offset(c, input, i)
    modifies out, j
    ensures j.Valid() && ok == !j.failing(|old(j.saved)|)
    ensures out.pos == base + stored || !ok
    ensures j.state.phase == Resume.Pack && j.state.packNext == k && j.state.packStored == stored
    ensures j.saved == if ok then old(j.saved) + [j.state] else old(j.saved)
    ensures j.stages == if ok then old(j.stages) + [out.data] else old(j.stages)
    ensures good ==> Holds(c, input, out.data, base, k) && SoundRecord(c, input, base, j.state, out.data)
    ensures good && ok ==> Running(c, input, out.data, base, out.pos, [], k, k)
  {
    hide Running, Holds, SoundRecord, Offset, BlockCount;
    WriteWindow(c, input, out, base, buffer, offsets, from, k, stored, good);
    j.state := j.state.(phase := Resume.Pack, packNext := k, packStored := stored);
    if good { PackRecord(c, input, base, j.state, out.data); }
    ok := j.Checkpoint(out.data);
    if ok { out.Seek(base + stored); }
  }

  /** Validates the record against the stage and positions the stream behind the blocks it keeps. */
  method StartPacking(c: Codec, input: seq<byte>, out: File, base: nat, s: Resume.State, offsets: array<nat>)
    returns (r: Result<nat>)
    requires Packable(|input|) && offsets.Length == BlockCount(|input|) + 1
    modifies out, offsets
    ensures r.Ok? ==> r.value <= BlockCount(|input|) && base <= out.pos
    ensures r.Ok? ==> r.value == if s.phase == Resume.Pack then s.packNext else 0
    ensures TrueRecord(c, input, old(out.data), base, s) ==>
              r.Ok? && Running(c, input, out.data, base, out.pos, [], r.value, r.value)
              && forall i :: 0 <= i <= r.value ==> offsets[i] == Offset(c, input, i)
  {
    hide Running, Payload, Table, Holds, Put, Header, Image, Front, Resize, DataOffset;
    var n := BlockCount(|input|);
    var first := if s.phase == Resume.Pack then s.packNext else 0;
    ghost var good := TrueRecord(c, input, out.data, base, s);
    TrueRecordBounds(c, input, out.data, base, s);
    if first > 0 {
      if first > n || s.packStored < DataOffset(n) { return Err(EINVAL); }
      var ok := ReadEntries(c, input, out.data, base, first, offsets);
      if !ok || offsets[0] != DataOffset(n) || offsets[first] != s.packStored { return Err(EINVAL); }
      if good { ResumedRunning(c, input, out.data, base, first); }
      out.Truncate(base + s.packStored);
      out.Seek(base + s.packStored);
    } else {
      FreshRunning(c, input, out.data, base);
      out.Seek(base);
      out.Write(Header(n) + Zeros(DataOffset(n) - HEADER_SIZE));
      offsets[0] := DataOffset(n);
    }
    return Ok(first);
  }

  /** Writes the complete table and announces the verification phase. */
  method FinishPacking(c: Codec, input: seq<byte>, out: File, base: nat, j: Resume.Journal, offsets: array<nat>,
                       stored: nat, ghost good: bool) returns (ok: bool)
    requires offsets.Length == BlockCount(|input|) + 1 && j.Valid()
    requires good ==> stored == Offset(c, input, BlockCount(|input|))
    requires good ==> var n := BlockCount(|input|); Running(c, input, out.data, base, out.pos, [], n, n)
    requires forall i :: 0 <= i < offsets.Length ==> good ==> offsets[i] == Offset(c, input, i)
    modifies out, j
    ensures j.Valid() && ok == !j.failing(|old(j.saved)|)
    ensures j.state == old(j.state).(phase := Resume.Verify, packNext := BlockCount(|input|), packStored := stored,
      verifyNext := 0)
    ensures j.saved == if ok then old(j.saved) + [j.state] else old(j.saved)
    ensures j.stages == if ok then old(j.stages) + [out.data] else old(j.stages)
    ensures good ==> Carries(c, input, out.data, base) && SoundRecord(c, input, base, j.state, out.data)
  {
    hide Running, Payload, Table, Holds, Put, Image, SoundRecord, Carries;
    var n := BlockCount(|input|);
    if good { FinalTable(c, input, out.data, base, out.pos); }
    out.Seek(base + TABLE_AT);
    var t := EncodeOffsets(offsets, 0, n + 1);
    if good { EncodedTable(c, input, offsets, 0, n + 1); }
    out.Write(t);
    j.state := j.state.(phase := Resume.Verify, packNext := n, packStored := stored, verifyNext := 0);
    if good { DoneCarries(c, input, out.data, base); FinalRecord(c, input, base, j.state, out.data); }
    ok := j.Checkpoint(out.data);
  }

  /**
   * The whole packing phase. A record in phase PACK with blocks behind it is accepted only if the
   * table on the stage agrees with it; the stage is then cut back to that record and continued.
   */
  method PackStream(c: Codec, input: seq<byte>, out: File, base: nat, polls: nat -> bool, j: Resume.Journal)
    returns (r: Result<nat>)
    requires j.Valid()
    modifies out, j
    ensures j.Valid()
    ensures !Packable(|input|) ==> r == Err(EFBIG)
    ensures TrueRecord(c, input, old(out.data), base, old(j.state)) ==>
              && (r.Ok? ==> Carries(c, input, out.data, base) && r.value == |Image(c, input)|
                            && |j.saved| > |old(j.saved)| && j.saved[|j.saved| - 1] == j.state
                            && j.state.phase == Resume.Verify && j.state.verifyNext == 0
                            && j.state.packStored == r.value)
              && Saved(c, input, base, j, old(j.saved), BlockCount(|input|))
              && (Packable(|input|) && (forall i :: !polls(i)) && (forall i :: !j.failing(i)) ==> r.Ok?)
    ensures Spaced(j.saved, |old(j.saved)|, if old(j.state).phase == Resume.Pack then old(j.state).packNext else 0)
  {
    hide Running, SoundRecord, Payload, Table, TrueRecord, Carries, Image, Spaced, LeftOff, Offset, AllSound;
    ghost var first := if j.state.phase == Resume.Pack then j.state.packNext else 0;
    NothingSpaced(j.saved, first);
    NothingSound(c, input, base, j.saved, j.stages, BlockCount(|input|));
    if !Packable(|input|) { return Err(EFBIG); }
    var offsets := new nat[BlockCount(|input|) + 1](_ => 0);
    ghost var good := TrueRecord(c, input, out.data, base, j.state);
    r := StartPacking(c, input, out, base, j.state, offsets);
    if r.Err? { return; }
    r := PackBlocks(c, input, out, base, polls, j, offsets, r.value, good);
    if r.Err? { return; }
    ImageSize(c, input);
    ghost var before, stages := j.saved, j.stages;
    var saved := FinishPacking(c, input, out, base, j, offsets, r.value, good);
    if !saved { return Err(EIO); }
    SpacedMore(before, |old(j.saved)|, first, j.state);
    if good {
      OneMoreSound(c, input, base, before, stages, old(j.saved), BlockCount(|input|), j.state, out.data);
    }
  }

  lemma ImageSize(c: Codec, input: seq<byte>)
    ensures |Image(c, input)| == Offset(c, input, BlockCount(|input|))
  {
  }

  /** A record that packing can continue from: fresh, or describing blocks the stage really holds. */
  ghost predicate TrueRecord(c: Codec, input: seq<byte>, f: seq<byte>, base: nat, s: Resume.State) {
    s.phase == Resume.Pack && s.packNext > 0 ==>
      Holds(c, input, f, base, s.packNext) && s.packStored == Offset(c, input, s.packNext)
  }

  lemma TrueRecordBounds(c: Codec, input: seq<byte>, f: seq<byte>, base: nat, s: Resume.State)
    ensures TrueRecord(c, input, f, base, s) && s.phase == Resume.Pack && s.packNext > 0 ==>
              s.packNext <= BlockCount(|input|) && s.packStored >= DataOffset(BlockCount(|input|))
    ensures Offset(c, input, 0) == DataOffset(BlockCount(|input|))
  {
    hide Payload, Table, Image, Front, Header, DataOffset, TableDone, GapDone;
  }

  lemma ResumedRunning(c: Codec, input: seq<byte>, f: seq<byte>, base: nat, k: nat)
    requires Holds(c, input, f, base, k) && k > 0
    ensures var g := Resize(f, base + Offset(c, input, k));
            Running(c, input, g, base, base + Offset(c, input, k), [], k, k)
  {
    hide Payload, Table, Image, Front, Header, DataOffset, TableDone, GapDone, Resize;
    TruncatedHolds(c, input, f, base, k);
  }

  lemma FreshRunning(c: Codec, input: seq<byte>, f: seq<byte>, base: nat)
    ensures var n := BlockCount(|input|);
            var h := Header(n) + Zeros(DataOffset(n) - HEADER_SIZE);
            Running(c, input, Put(f, base, h), base, base + |h|, [], 0, 0) && |h| == Offset(c, input, 0)
  {
    hide Table, Image, Front, Header, DataOffset, TableDone, GapDone, Resize, Put, Buffered;
    FreshFront(c, input, f, base);
  }

  lemma FinalTable(c: Codec, input: seq<byte>, f: seq<byte>, base: nat, pos: nat)
    requires var n := BlockCount(|input|); Running(c, input, f, base, pos, [], n, n)
    ensures var n := BlockCount(|input|);
            Holds(c, input, Put(f, base + TABLE_AT, Table(c, input, n + 1)[8 * 0..8 * (n + 1)]), base, n)
  {
    hide Header, Table, Payload, DataOffset, Image, Front, Put;
    var n := BlockCount(|input|);
    var d := base + DataOffset(n);
    assert f[d..pos] + [] == f[d..pos];
    TablePrefix(f, base, Image(c, input), TABLE_AT, TABLE_AT + 8 * (n + 1));
    TableWritten(c, input, f, base, 0, n + 1, n);
  }

  lemma PackRecord(c: Codec, input: seq<byte>, base: nat, s: Resume.State, f: seq<byte>)
    requires s.phase == Resume.Pack && Holds(c, input, f, base, s.packNext)
    requires s.packStored == Offset(c, input, s.packNext)
    ensures SoundRecord(c, input, base, s, f)
  {
  }

  lemma FinalRecord(c: Codec, input: seq<byte>, base: nat, s: Resume.State, f: seq<byte>)
    requires Holds(c, input, f, base, BlockCount(|input|))
    requires s.phase == Resume.Verify && s.verifyNext == 0 && s.packNext == BlockCount(|input|)
    requires s.packStored == Offset(c, input, BlockCount(|input|))
    ensures SoundRecord(c, input, base, s, f)
  {
  }
}
