/** The windowed, resumable verification pass over a PFSC stream. */
module PfscVerify {
  import opened Bytes
  import opened Pfsc
  import Resume

  const WINDOW: nat := 4096

  /** Table entries `lo..hi` bound well-formed blocks. */
  ghost predicate RangesOk(f: seq<byte>, base: nat, lo: nat, hi: nat) {
    forall i :: lo <= i < hi ==> RangeOk(f, base, i)
  }

  /** What a pass starting at block `start` establishes. */
  ghost predicate AcceptsFrom(c: Codec, f: seq<byte>, base: nat, start: nat) {
    && HeaderOk(f, base) && start <= Blocks(f, base)
    && (start > 0 ==> Readable(f, base, start) && DataAt(f, base) <= Entry(f, base, start) <= |f| - base)
    && BlocksOk(c, f, base, start, Blocks(f, base))
  }

  /** A record vouches only for blocks that passed, and announces publication only after all of them did. */
  ghost predicate SoundRecord(c: Codec, f: seq<byte>, base: nat, start: nat, s: Resume.State) {
    && HeaderOk(f, base) && start <= s.verifyNext <= Blocks(f, base)
    && BlocksOk(c, f, base, start, s.verifyNext)
    && (s.phase == Resume.Verify || (s.phase == Resume.Publish && s.verifyNext == Blocks(f, base)))
  }

  /** Every record made durable after position `from` is sound. */
  ghost predicate Vouched(c: Codec, f: seq<byte>, base: nat, start: nat, saved: seq<Resume.State>, from: nat) {
    forall k :: from <= k < |saved| ==> SoundRecord(c, f, base, start, saved[k])
  }

  lemma VouchNothing(c: Codec, f: seq<byte>, base: nat, start: nat, saved: seq<Resume.State>)
    ensures Vouched(c, f, base, start, saved, |saved|)
  {
  }

  /** A record made after the blocks up to `index` passed is sound. */
  lemma VouchMore(c: Codec, f: seq<byte>, base: nat, start: nat, saved: seq<Resume.State>, from: nat, s: Resume.State)
    requires Vouched(c, f, base, start, saved, from)
    requires HeaderOk(f, base) && start <= s.verifyNext <= Blocks(f, base) && BlocksOk(c, f, base, start, s.verifyNext)
    requires s.phase == Resume.Verify || (s.phase == Resume.Publish && s.verifyNext == Blocks(f, base))
    ensures Vouched(c, f, base, start, saved + [s], from)
  {
    hide HeaderOk, BlocksOk;
    assert SoundRecord(c, f, base, start, s);
  }

  lemma BlocksJoin(c: Codec, f: seq<byte>, base: nat, lo: nat, mid: nat, hi: nat)
    requires lo <= mid <= hi
    ensures BlocksOk(c, f, base, lo, hi) <==> BlocksOk(c, f, base, lo, mid) && BlocksOk(c, f, base, mid, hi)
  {
  }

  lemma LastReadable(c: Codec, f: seq<byte>, base: nat, lo: nat, hi: nat)
    requires lo < hi && BlocksOk(c, f, base, lo, hi)
    ensures Readable(f, base, hi)
  {
    assert BlockOk(c, f, base, hi - 1);
  }

  /** The offset checks of one window; `previous` is the end of the block before it. */
  method CheckOffsets(f: seq<byte>, base: nat, index: nat, count: nat, previous: nat) returns (ok: bool)
    requires HeaderOk(f, base) && Readable(f, base, index + count)
    requires index > 0 ==> previous == Entry(f, base, index)
    requires index == 0 ==> previous == 0
    ensures ok <==> RangesOk(f, base, index, index + count)
  {
    var i, last := 0, previous;
    while i < count
      invariant i <= count
      invariant RangesOk(f, base, index, index + i)
      invariant index + i > 0 ==> last == Entry(f, base, index + i)
      invariant index + i == 0 ==> last == 0
    {
      var start, end := Entry(f, base, index + i), Entry(f, base, index + i + 1);
      if index + i == 0 && start != DataAt(f, base) {
        assert !RangeOk(f, base, index + i);
        return false;
      }
      if start < last || end < start || end > |f| - base || end - start > BLOCK {
        assert !RangeOk(f, base, index + i);
        return false;
      }
      last := end;
      i := i + 1;
    }
    return true;
  }

  /** Reads and decodes the blocks of one window whose offsets have been checked. */
  method CheckPayloads(c: Codec, f: seq<byte>, base: nat, index: nat, count: nat) returns (ok: bool)
    requires RangesOk(f, base, index, index + count)
    ensures ok <==> BlocksOk(c, f, base, index, index + count)
  {
    var i := 0;
    while i < count
      invariant i <= count
      invariant BlocksOk(c, f, base, index, index + i)
    {
      assert RangeOk(f, base, index + i);
      if Decoded(c, f, base, index + i) == None {
        assert !BlockOk(c, f, base, index + i);
        return false;
      }
      i := i + 1;
    }
    return true;
  }

  /** One window: its offsets are read and checked first, then its payloads. */
  method CheckWindow(c: Codec, f: seq<byte>, base: nat, index: nat, count: nat, previous: nat)
    returns (failure: Option<Error>)
    requires HeaderOk(f, base) && count > 0
    requires index > 0 ==> Readable(f, base, index) && previous == Entry(f, base, index)
    requires index == 0 ==> previous == 0
    ensures failure.None? <==> BlocksOk(c, f, base, index, index + count)
  {
    hide HeaderOk, DataAt, Word, Decoded;
    if !Readable(f, base, index + count) {
      assert !BlockOk(c, f, base, index + count - 1);
      return Some(EIO);
    }
    var ok := CheckOffsets(f, base, index, count, previous);
    if !ok {
      ghost var i :| index <= i < index + count && !RangeOk(f, base, i);
      assert !BlockOk(c, f, base, i);
      return Some(EINVAL);
    }
    ok := CheckPayloads(c, f, base, index, count);
    return if ok then None else Some(EINVAL);
  }

  /** The `k`-th record of a pass from block `start`: one for each window, and a last one that announces publication. */
  function Record(m: Resume.State, start: nat, blocks: nat, k: nat): Resume.State {
    if start + k * WINDOW < blocks then
      m.(phase := Resume.Verify, verifyNext := Min(start + (k + 1) * WINDOW, blocks))
    else
      m.(phase := Resume.Publish, verifyNext := blocks)
  }

  /** The records from position `from` on are the first ones of such a pass, saved with the file they are about. */
  ghost predicate InOrder(f: seq<byte>, m: Resume.State, start: nat, blocks: nat, saved: seq<Resume.State>,
      stages: seq<seq<byte>>, from: nat)
  {
    && |saved| == |stages|
    && forall i :: from <= i < |saved| ==> saved[i] == Record(m, start, blocks, i - from) && stages[i] == f
  }

  lemma NoneInOrder(f: seq<byte>, m: Resume.State, start: nat, blocks: nat, saved: seq<Resume.State>,
      stages: seq<seq<byte>>)
    requires |saved| == |stages|
    ensures InOrder(f, m, start, blocks, saved, stages, |saved|)
  {
  }

  lemma MoreInOrder(f: seq<byte>, m: Resume.State, start: nat, blocks: nat, saved: seq<Resume.State>,
      stages: seq<seq<byte>>, from: nat, next: Resume.State)
    requires InOrder(f, m, start, blocks, saved, stages, from) && from <= |saved|
    requires next == Record(m, start, blocks, |saved| - from)
    ensures InOrder(f, m, start, blocks, saved + [next], stages + [f], from)
  {
    hide Record;
  }

  /** How far a pass has come after `k` windows. */
  function Reached(start: nat, blocks: nat, k: nat): nat { Min(start + k * WINDOW, blocks) }

  lemma ReachedFirst(start: nat, blocks: nat)
    requires start <= blocks
    ensures Reached(start, blocks, 0) == start
  {
  }

  lemma WindowRecord(m: Resume.State, start: nat, blocks: nat, k: nat, state: Resume.State)
    requires Reached(start, blocks, k) < blocks
    requires state == m.(phase := state.phase, verifyNext := state.verifyNext)
    ensures var next := Reached(start, blocks, k) + Min(blocks - Reached(start, blocks, k), WINDOW);
      && next == Reached(start, blocks, k + 1)
      && state.(phase := Resume.Verify, verifyNext := next) == Record(m, start, blocks, k)
  {
  }

  lemma LastRecord(m: Resume.State, start: nat, blocks: nat, k: nat, state: Resume.State)
    requires Reached(start, blocks, k) == blocks
    requires state == m.(phase := state.phase, verifyNext := state.verifyNext)
    ensures state.(phase := Resume.Publish, verifyNext := blocks) == Record(m, start, blocks, k)
  {
  }

  lemma BlocksNone(c: Codec, f: seq<byte>, base: nat, i: nat)
    ensures BlocksOk(c, f, base, i, i)
  {
  }

  lemma HasHeader(f: seq<byte>, base: nat)
    requires HeaderOk(f, base)
    ensures base + HEADER_SIZE <= |f|
  {
    hide Word;
  }

  /** Takes the next record of a pass and makes it durable. */
  method SaveRecord(c: Codec, f: seq<byte>, base: nat, j: Resume.Journal, next: Resume.State,
      ghost m: Resume.State, ghost start: nat, ghost from: nat)
    returns (ok: bool)
    requires j.Valid() && from <= |j.saved| && HeaderOk(f, base) && SoundRecord(c, f, base, start, next)
    requires next == Record(m, start, Blocks(f, base), |j.saved| - from)
    requires Vouched(c, f, base, start, j.saved, from)
    requires InOrder(f, m, start, Blocks(f, base), j.saved, j.stages, from)
    modifies j
    ensures j.Valid() && j.state == next && ok == !j.failing(|old(j.saved)|)
    ensures j.saved == if ok then old(j.saved) + [next] else old(j.saved)
    ensures Vouched(c, f, base, start, j.saved, from)
    ensures InOrder(f, m, start, Blocks(f, base), j.saved, j.stages, from)
  {
    hide HeaderOk, Record, SoundRecord, InOrder, Blocks;
    HasHeader(f, base);
    MoreInOrder(f, m, start, Blocks(f, base), j.saved, j.stages, from, next);
    j.state := next;
    ok := j.Checkpoint(f);
  }

  lemma RecordSound(c: Codec, f: seq<byte>, base: nat, start: nat, s: Resume.State)
    requires HeaderOk(f, base) && start <= s.verifyNext <= Blocks(f, base)
    requires BlocksOk(c, f, base, start, s.verifyNext)
    requires s.phase == Resume.Verify || (s.phase == Resume.Publish && s.verifyNext == Blocks(f, base))
    ensures SoundRecord(c, f, base, start, s)
  {
    hide HeaderOk, BlocksOk;
  }

  /** The windows of a pass from block `start`, whose offset the caller has read, each with its record. */
  method VerifyWindows(c: Codec, f: seq<byte>, base: nat, polls: nat -> bool, j: Resume.Journal, start: nat,
      offset: nat)
    returns (failure: Option<Error>)
    requires j.Valid() && HeaderOk(f, base) && start <= Blocks(f, base)
    requires if start > 0 then Readable(f, base, start) && offset == Entry(f, base, start) else offset == 0
    modifies j
    ensures j.Valid() && |old(j.saved)| <= |j.saved| && j.saved[..|old(j.saved)|] == old(j.saved)
    ensures Vouched(c, f, base, start, j.saved, |old(j.saved)|)
    ensures InOrder(f, old(j.state), start, Blocks(f, base), j.saved, j.stages, |old(j.saved)|)
    ensures failure.None? ==>
      && BlocksOk(c, f, base, start, Blocks(f, base)) && j.state.phase == Resume.Publish
      && |j.saved| > |old(j.saved)| && j.saved[|j.saved| - 1] == j.state
    ensures BlocksOk(c, f, base, start, Blocks(f, base)) && (forall i :: !polls(i)) && (forall i :: !j.failing(i)) ==>
      failure.None?
  {
    hide Word, Entry, HeaderOk, DataAt, BlocksOk, Readable, Vouched, SoundRecord, InOrder, Record, Reached;
    HasHeader(f, base);
    var blocks, index, previous := Blocks(f, base), start, offset;
    ghost var from, m := |j.saved|, j.state;
    NoneInOrder(f, m, start, blocks, j.saved, j.stages);
    VouchNothing(c, f, base, start, j.saved);
    ReachedFirst(start, blocks);
    BlocksNone(c, f, base, start);
    while index < blocks
      invariant start <= index <= blocks
      invariant j.Valid()
      invariant from == |old(j.saved)| <= |j.saved| && j.saved[..from] == old(j.saved)
      invariant BlocksOk(c, f, base, start, index)
      invariant index > 0 ==> Readable(f, base, index) && previous == Entry(f, base, index)
      invariant index == 0 ==> previous == 0
      invariant Vouched(c, f, base, start, j.saved, from)
      invariant j.state == m.(phase := j.state.phase, verifyNext := j.state.verifyNext)
      invariant index == Reached(start, blocks, |j.saved| - from)
      invariant InOrder(f, m, start, blocks, j.saved, j.stages, from)
    {
      var count := Min(blocks - index, WINDOW);
      if polls(index) { return Some(ECANCELED); }
      failure := CheckWindow(c, f, base, index, count, previous);
      BlocksJoin(c, f, base, start, index, blocks);
      BlocksJoin(c, f, base, index, index + count, blocks);
      if failure.Some? { return; }
      BlocksJoin(c, f, base, start, index, index + count);
      LastReadable(c, f, base, index, index + count);
      WindowRecord(m, start, blocks, |j.saved| - from, j.state);
      index := index + count;
      previous := Entry(f, base, index);
      var next := j.state.(phase := Resume.Verify, verifyNext := index);
      RecordSound(c, f, base, start, next);
      var ok := SaveRecord(c, f, base, j, next, m, start, from);
      if !ok { return Some(EIO); }
    }
    LastRecord(m, start, blocks, |j.saved| - from, j.state);
    var last := j.state.(phase := Resume.Publish, verifyNext := blocks);
    RecordSound(c, f, base, start, last);
    var ok := SaveRecord(c, f, base, j, last, m, start, from);
    return if ok then None else Some(EIO);
  }

  /**
   * The verification pass. `polls(i)` is the cancellation flag as seen before the window at block
   * `i`. Without cancellation or a failing checkpoint the answer is exact, from any start index.
   */
  method VerifyStream(c: Codec, f: seq<byte>, base: nat, polls: nat -> bool, j: Resume.Journal)
    returns (r: Result<(nat, nat)>)
    requires j.Valid()
    modifies j
    ensures j.Valid()
    ensures var start := if old(j.state.phase) == Resume.Verify then old(j.state.verifyNext) else 0;
            && |old(j.saved)| <= |j.saved| && j.saved[..|old(j.saved)|] == old(j.saved)
            && (r.Ok? ==> AcceptsFrom(c, f, base, start) && r.value == (LogicalSize(f, base), Blocks(f, base)))
            && (AcceptsFrom(c, f, base, start) && (forall i :: !polls(i)) && (forall i :: !j.failing(i)) ==> r.Ok?)
            && Vouched(c, f, base, start, j.saved, |old(j.saved)|)
            && (r.Ok? ==> j.state.phase == Resume.Publish)
            && (r.Ok? ==> |j.saved| > |old(j.saved)| && j.saved[|j.saved| - 1] == j.state)
            && (if HeaderOk(f, base) then
                InOrder(f, old(j.state), start, Blocks(f, base), j.saved, j.stages, |old(j.saved)|)
                else j.saved == old(j.saved))
  {
    if !(base + HEADER_SIZE <= |f|) { return Err(EINVAL); }
    if !HeaderOk(f, base) { return Err(EINVAL); }
    hide Word, LogicalSize, Entry, HeaderOk, DataAt, BlocksOk, Readable, Vouched, SoundRecord, InOrder, Record;
    var blocks, start, previous := Blocks(f, base), 0, 0;
    NoneInOrder(f, j.state, if j.state.phase == Resume.Verify then j.state.verifyNext else 0, blocks, j.saved,
        j.stages);
    VouchNothing(c, f, base, if j.state.phase == Resume.Verify then j.state.verifyNext else 0, j.saved);
    if j.state.phase == Resume.Verify {
      start := j.state.verifyNext;
      if start > blocks { return Err(EINVAL); }
      if start > 0 {
        if !Readable(f, base, start) { return Err(EIO); }
        previous := Entry(f, base, start);
        if previous < DataAt(f, base) || previous > |f| - base { return Err(EINVAL); }
      }
    }
    var failure := VerifyWindows(c, f, base, polls, j, start, previous);
    return if failure.Some? then Err(failure.value) else Ok((LogicalSize(f, base), blocks));
  }

  /**
   * Resuming is exact: on a file whose first `k` blocks already passed, a pass from `k` succeeds
   * if and only if one full pass would.
   */
  lemma ResumeVerdict(c: Codec, f: seq<byte>, base: nat, k: nat)
    requires HeaderOk(f, base) && k <= Blocks(f, base) && BlocksOk(c, f, base, 0, k)
    ensures AcceptsFrom(c, f, base, k) <==> Accepts(c, f, base)
  {
    if Accepts(c, f, base) {
      AcceptedTable(c, f, base, 0, k);
    }
    if AcceptsFrom(c, f, base, k) {
      forall i | 0 <= i < Blocks(f, base) ensures BlockOk(c, f, base, i) {}
    }
  }

  /** A record vouched for by one pass is a sound start for the next. */
  lemma VouchedRecord(c: Codec, f: seq<byte>, base: nat, start: nat, saved: seq<Resume.State>, from: nat, k: nat)
    requires Vouched(c, f, base, start, saved, from) && from <= k < |saved|
    requires BlocksOk(c, f, base, 0, start)
    ensures BlocksOk(c, f, base, 0, saved[k].verifyNext)
    ensures saved[k].phase == Resume.Publish ==> Accepts(c, f, base)
  {
    assert SoundRecord(c, f, base, start, saved[k]);
    BlocksJoin(c, f, base, 0, start, saved[k].verifyNext);
  }

  /** One verification pass: the block it started at, and the records from position `from` on that it saved. */
  datatype Pass = Pass(start: nat, saved: seq<Resume.State>, from: nat)

  /** Some earlier pass saved a record that says to continue at block `start`. */
  predicate Continues(ps: seq<Pass>, i: nat, start: nat)
    requires i <= |ps|
  {
    exists j, k :: 0 <= j < i && ps[j].from <= k < |ps[j].saved| && ps[j].saved[k].verifyNext == start
  }

  /** Passes over one file, each from the beginning or from a record an earlier one saved. */
  ghost predicate Chained(c: Codec, f: seq<byte>, base: nat, ps: seq<Pass>) {
    forall i :: 0 <= i < |ps| ==>
      && Vouched(c, f, base, ps[i].start, ps[i].saved, ps[i].from)
      && (ps[i].start == 0 || Continues(ps, i, ps[i].start))
  }

  lemma {:induction false} SoundStart(c: Codec, f: seq<byte>, base: nat, ps: seq<Pass>, i: nat)
    requires Chained(c, f, base, ps) && i < |ps|
    ensures BlocksOk(c, f, base, 0, ps[i].start)
    decreases i
  {
    hide Vouched, BlocksOk;
    if ps[i].start == 0 {
      BlocksNone(c, f, base, 0);
    } else {
      var j, k :| 0 <= j < i && ps[j].from <= k < |ps[j].saved| && ps[j].saved[k].verifyNext == ps[i].start;
      SoundStart(c, f, base, ps, j);
      VouchedRecord(c, f, base, ps[j].start, ps[j].saved, ps[j].from, k);
    }
  }

  /**
   * However many passes it takes, interrupted anywhere and resumed from any saved record: each record vouches
   * only for blocks that passed, and one that announces publication means the whole stream is accepted.
   */
  lemma VouchedChain(c: Codec, f: seq<byte>, base: nat, ps: seq<Pass>, i: nat, k: nat)
    requires Chained(c, f, base, ps) && i < |ps| && ps[i].from <= k < |ps[i].saved|
    ensures BlocksOk(c, f, base, 0, ps[i].saved[k].verifyNext)
    ensures ps[i].saved[k].phase == Resume.Publish ==> Accepts(c, f, base)
  {
    hide Vouched, BlocksOk;
    SoundStart(c, f, base, ps, i);
    VouchedRecord(c, f, base, ps[i].start, ps[i].saved, ps[i].from, k);
  }
}
