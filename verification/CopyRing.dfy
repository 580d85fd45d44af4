/**
 * The two-thread copy pipeline: a reader fills a ring of three slots that a writer drains. Every
 * step is one critical section, one read or one write; a run is any interleaving of the two.
 */
module CopyRing {
  import opened Bytes

  const SLOTS: nat := 3
  const BUFFER: nat := 8 * 1024 * 1024

  datatype Slot = Slot(ready: bool, data: seq<byte>)

  /** Top: about to take the lock. Have: a read of `n` bytes returned; None is a read error. */
  datatype Reader = RTop | RAsleep | Reading(slot: nat) | Have(slot: nat, n: Option<nat>) | RExit

  datatype Writer = WTop | WAsleep | Writing(slot: nat, off: nat) | Finishing | WExit(ok: bool) | Returned(ok: bool)

  datatype State = State(
    slots: seq<Slot>,
    readIndex: nat,
    writeIndex: nat,
    done: bool,
    error: bool,
    reader: Reader,
    writer: Writer,
    cancelled: bool,
    pos: nat,
    dst: seq<byte>,
    // history: chunks published in order, slots taken by the reader, slots released by the writer
    chunks: seq<seq<byte>>,
    taken: nat,
    released: nat)

  function WakeReader(r: Reader): Reader { if r == RAsleep then RTop else r }

  function WakeWriter(w: Writer): Writer { if w == WAsleep then WTop else w }

  predicate Init(s: State) {
    && |s.slots| == SLOTS && (forall i :: 0 <= i < SLOTS ==> !s.slots[i].ready)
    && s.readIndex == 0 && s.writeIndex == 0 && !s.done && !s.error && s.reader == RTop && s.writer == WTop
    && s.pos == 0 && s.dst == [] && s.chunks == [] && s.taken == 0 && s.released == 0
  }

  // ---------------------------------------------------------------- the reader thread

  /** Under the lock: sleep while the next slot is still full, give up, or take the slot. */
  predicate Take(s: State, t: State) {
    && s.reader == RTop && |s.slots| == SLOTS && s.readIndex < SLOTS
    && t == if !s.error && !s.done && s.slots[s.readIndex].ready then s.(reader := RAsleep)
            else if s.error || s.done || s.cancelled then
              s.(done := true, reader := RExit, writer := WakeWriter(s.writer))
            else s.(reader := Reading(s.readIndex), readIndex := (s.readIndex + 1) % SLOTS, taken := s.taken + 1)
  }

  /** Outside the lock: the next bytes land in the slot; zero bytes mean end of file. */
  predicate Read(src: seq<byte>, s: State, t: State, n: nat) {
    && s.reader.Reading? && |s.slots| == SLOTS && s.reader.slot < SLOTS && s.pos + n <= |src| && n <= BUFFER
    && (n == 0 <==> s.pos == |src|)
    && var slot := s.slots[s.reader.slot].(data := src[s.pos..s.pos + n]);
       t == s.(slots := s.slots[s.reader.slot := slot], pos := s.pos + n, reader := Have(s.reader.slot, Some(n)))
  }

  predicate ReadFails(s: State, t: State) {
    s.reader.Reading? && t == s.(reader := Have(s.reader.slot, None))
  }

  /** Under the lock: publish the slot, or announce the end or the failure. */
  predicate Post(s: State, t: State) {
    && s.reader.Have? && |s.slots| == SLOTS && s.reader.slot < SLOTS
    && t == match s.reader.n
            case None => s.(error := true, done := true, reader := RTop, writer := WakeWriter(s.writer))
            case Some(n) =>
              if n == 0 then s.(done := true, reader := RTop, writer := WakeWriter(s.writer))
              else s.(slots := s.slots[s.reader.slot := s.slots[s.reader.slot].(ready := true)],
                      chunks := s.chunks + [s.slots[s.reader.slot].data], reader := RTop,
                          writer := WakeWriter(s.writer))
  }

  ghost predicate ReaderStep(src: seq<byte>, s: State, t: State) {
    Take(s, t) || (exists n: nat :: Read(src, s, t, n)) || ReadFails(s, t) || Post(s, t)
  }

  // ---------------------------------------------------------------- the writer thread

  /** Under the lock: sleep, fail, finish once everything is drained, or pick the next slot. */
  predicate Pick(s: State, t: State) {
    && s.writer == WTop && |s.slots| == SLOTS && s.writeIndex < SLOTS
    && var ready := s.slots[s.writeIndex].ready;
       t == if !s.error && !s.done && !ready then s.(writer := WAsleep)
            else if s.error then s.(writer := WExit(false), done := true, error := true, reader := WakeReader(s.reader))
            else if s.done && !ready then s.(writer := Finishing)
            else s.(writer := Writing(s.writeIndex, 0))
  }

  /** Outside the lock: one write, possibly short; it is refused once cancellation is requested. */
  predicate Write(s: State, t: State, n: nat) {
    && s.writer.Writing? && |s.slots| == SLOTS && s.writer.slot < SLOTS && !s.cancelled
    && var data := s.slots[s.writer.slot].data;
       && 0 < n && s.writer.off + n <= |data|
       && t == s.(dst := s.dst + data[s.writer.off..s.writer.off + n],
           writer := Writing(s.writer.slot, s.writer.off + n))
  }

  /** A failed or refused write ends the writer and stops the reader. */
  predicate WriteFails(s: State, t: State) {
    && s.writer.Writing? && |s.slots| == SLOTS && s.writer.slot < SLOTS && s.writer.off < |s.slots[s.writer.slot].data|
    && t == s.(writer := WExit(false), done := true, error := true, reader := WakeReader(s.reader))
  }

  predicate Release(s: State, t: State) {
    && s.writer.Writing? && |s.slots| == SLOTS && s.writer.slot < SLOTS && s.writer.off == |s.slots[s.writer.slot].data|
    && t == s.(slots := s.slots[s.writer.slot := s.slots[s.writer.slot].(ready := false)],
               writeIndex := (s.writeIndex + 1) % SLOTS, released := s.released + 1,
               writer := WTop, reader := WakeReader(s.reader))
  }

  /** The last checks before success. */
  predicate Finish(s: State, t: State, ok: bool) {
    && s.writer == Finishing && (ok ==> !s.cancelled)
    && t == s.(writer := WExit(ok), done := true, error := true, reader := WakeReader(s.reader))
  }

  /** Joining the reader, and the final look at the cancellation flag. */
  predicate Join(s: State, t: State) {
    s.writer.WExit? && s.reader == RExit && t == s.(writer := Returned(s.writer.ok && !s.cancelled))
  }

  ghost predicate WriterStep(s: State, t: State) {
    || Pick(s, t) || (exists n: nat :: Write(s, t, n)) || WriteFails(s, t) || Release(s, t)
    || (exists ok :: Finish(s, t, ok)) || Join(s, t)
  }

  ghost predicate Step(src: seq<byte>, s: State, t: State) { ReaderStep(src, s, t) || WriterStep(s, t) }

  /** Cancellation may be requested at any time and is never withdrawn; sleepers may wake spuriously. */
  predicate Outside(s: State, t: State) {
    || (!s.cancelled && t == s.(cancelled := true))
    || (s.reader == RAsleep && t == s.(reader := RTop))
    || (s.writer == WAsleep && t == s.(writer := WTop))
  }

  // ---------------------------------------------------------------- the invariant

  function Concat(cs: seq<seq<byte>>): seq<byte> {
    if cs == [] then [] else Concat(cs[..|cs| - 1]) + cs[|cs| - 1]
  }

  /** Published chunks the writer has not released yet. */
  function Queued(s: State): int { |s.chunks| - s.released }

  /** Bytes the reader has read but not published. */
  function InFlight(r: Reader): nat { if r.Have? && r.n.Some? then r.n.value else 0 }

  /** Chunk `k` lies, ready, in its slot. */
  predicate Full(s: State, k: nat) {
    && |s.slots| == SLOTS && k < |s.chunks|
    && s.slots[k % SLOTS].ready && s.slots[k % SLOTS].data == s.chunks[k]
  }

  predicate Free(s: State, k: nat) { |s.slots| == SLOTS && !s.slots[k % SLOTS].ready }

  /** The ready slots are exactly the cyclic range from the write index on, and hold the next chunks in order. */
  ghost predicate RingInv(s: State) {
    && |s.slots| == SLOTS && s.writeIndex == s.released % SLOTS && s.readIndex == s.taken % SLOTS
    && 0 <= Queued(s) <= SLOTS && |s.chunks| <= s.taken <= |s.chunks| + 1 && s.taken <= s.released + SLOTS
    && (forall k :: s.released <= k < |s.chunks| ==> Full(s, k))
    && (forall k :: |s.chunks| <= k < s.released + SLOTS ==> Free(s, k))
  }

  /** What has been read is what was published, then what the reader still holds. */
  ghost predicate ReaderInv(src: seq<byte>, s: State) {
    && |s.slots| == SLOTS && InFlight(s.reader) <= s.pos <= |src|
    && Concat(s.chunks) == src[..s.pos - InFlight(s.reader)]
    && match s.reader
       case Reading(i) => s.taken == |s.chunks| + 1 && i == |s.chunks| % SLOTS
       case Have(i, n) =>
         && s.taken == |s.chunks| + 1 && i == |s.chunks| % SLOTS
         && (n.Some? ==> s.slots[i].data == src[s.pos - n.value..s.pos] && (n.value == 0 ==> s.pos == |src|))
       case RAsleep => s.taken == |s.chunks| && !s.done && !s.error && Queued(s) == SLOTS
       case RExit => s.done
       case RTop => s.taken == |s.chunks| || s.done
  }

  /** The end is announced only with the whole file published, unless something failed or was cancelled. */
  ghost predicate DoneInv(src: seq<byte>, s: State) {
    && (s.error ==> s.done)
    && (s.done && !s.error ==> (s.reader == RTop || s.reader == RExit) && (s.cancelled || s.pos == |src|))
  }

  ghost predicate WriterInv(src: seq<byte>, s: State) {
    && 0 <= s.released <= |s.chunks|
    && match s.writer
       case Writing(i, off) =>
         && i == s.released % SLOTS && Queued(s) > 0 && off <= |s.chunks[s.released]|
         && s.dst == Concat(s.chunks[..s.released]) + s.chunks[s.released][..off]
       case WAsleep => s.dst == Concat(s.chunks[..s.released]) && !s.done && !s.error && Queued(s) == 0
       case WTop => s.dst == Concat(s.chunks[..s.released])
       case Finishing => s.dst == Concat(s.chunks) && s.done && !s.error && Queued(s) == 0
       case WExit(ok) => s.done && s.error && (ok ==> s.dst == src)
       case Returned(ok) => s.done && s.error && s.reader == RExit && (ok ==> s.dst == src)
  }

  ghost predicate Inv(src: seq<byte>, s: State) {
    RingInv(s) && ReaderInv(src, s) && DoneInv(src, s) && WriterInv(src, s) && s.dst <= src
  }

  // ---------------------------------------------------------------- every step keeps it

  lemma {:induction false} ConcatPush(cs: seq<seq<byte>>, c: seq<byte>)
    ensures Concat(cs + [c]) == Concat(cs) + c
  {
    assert (cs + [c])[..|cs|] == cs;
  }

  lemma {:induction false} ConcatPrefix(cs: seq<seq<byte>>, k: nat)
    requires k <= |cs|
    ensures Concat(cs[..k]) <= Concat(cs)
    ensures k < |cs| ==> Concat(cs[..k]) + cs[k] <= Concat(cs)
    decreases |cs|
  {
    if k == |cs| {
      assert cs[..k] == cs;
    } else {
      var front := cs[..|cs| - 1];
      ConcatPrefix(front, k);
      assert front[..k] == cs[..k];
      if k < |cs| - 1 { assert front[k] == cs[k]; }
    }
  }

  lemma SameRing(s: State, t: State)
    requires RingInv(s) && t.slots == s.slots && t.chunks == s.chunks && t.released == s.released
    requires t.writeIndex == s.writeIndex && t.readIndex == s.readIndex && t.taken == s.taken
    ensures RingInv(t)
  {
    assert forall k :: Full(s, k) ==> Full(t, k);
    assert forall k :: Free(s, k) ==> Free(t, k);
  }

  /** The slot the reader looks at is full exactly when all three are. */
  lemma NextSlot(s: State)
    requires RingInv(s) && s.taken == |s.chunks|
    ensures s.readIndex < SLOTS && (s.slots[s.readIndex].ready <==> Queued(s) == SLOTS)
  {
    if Queued(s) < SLOTS { assert Free(s, |s.chunks|); } else { assert Full(s, s.released); }
  }

  lemma TakeRing(s: State, t: State)
    requires RingInv(s) && t.slots == s.slots && t.chunks == s.chunks && t.released == s.released
    requires t.writeIndex == s.writeIndex
    requires (t.taken == s.taken && t.readIndex == s.readIndex)
      || (s.taken == |s.chunks| && Queued(s) < SLOTS && t.taken == s.taken + 1
          && t.readIndex == (s.readIndex + 1) % SLOTS)
    ensures RingInv(t)
  {
    assert forall k :: Full(s, k) ==> Full(t, k);
    assert forall k :: Free(s, k) ==> Free(t, k);
  }

  lemma {:induction false} TakeKeeps(src: seq<byte>, s: State, t: State)
    requires Inv(src, s) && Take(s, t)
    ensures Inv(src, t)
  {
    hide Concat, Full, Free;
    if s.taken == |s.chunks| { NextSlot(s); }
    TakeRing(s, t);
    hide RingInv;
  }

  lemma {:induction false} ReadKeeps(src: seq<byte>, s: State, t: State, n: nat)
    requires Inv(src, s) && Read(src, s, t, n)
    ensures Inv(src, t)
  {
    hide Concat;
    forall k | s.released <= k < |s.chunks| ensures Full(t, k) { assert Full(s, k); }
    forall k | |s.chunks| <= k < s.released + SLOTS ensures Free(t, k) { assert Free(s, k); }
    assert s.pos + n - n == s.pos;
  }

  lemma {:induction false} ReadFailsKeeps(src: seq<byte>, s: State, t: State)
    requires Inv(src, s) && ReadFails(s, t)
    ensures Inv(src, t)
  {
    hide Concat;
    SameRing(s, t);
    hide RingInv;
  }

  lemma {:induction false} PublishKeeps(src: seq<byte>, s: State, t: State)
    requires Inv(src, s) && Post(s, t) && s.reader.n.Some? && s.reader.n.value > 0
    ensures Inv(src, t)
  {
    hide Concat;
    var n := s.reader.n.value;
    var data := s.slots[s.reader.slot].data;
    ConcatPush(s.chunks, data);
    assert src[..s.pos - n] + src[s.pos - n..s.pos] == src[..s.pos];
    assert t.chunks[..s.released] == s.chunks[..s.released];
    forall k | t.released <= k < |t.chunks| ensures Full(t, k) {
      if k < |s.chunks| { assert Full(s, k); }
    }
    forall k | |t.chunks| <= k < t.released + SLOTS ensures Free(t, k) { assert Free(s, k); }
  }

  lemma {:induction false} EndKeeps(src: seq<byte>, s: State, t: State)
    requires Inv(src, s) && Post(s, t) && (s.reader.n.None? || s.reader.n.value == 0)
    ensures Inv(src, t)
  {
    hide Concat;
    SameRing(s, t);
    hide RingInv;
  }

  lemma {:induction false} PickKeeps(src: seq<byte>, s: State, t: State)
    requires Inv(src, s) && Pick(s, t)
    ensures Inv(src, t)
  {
    hide Concat;
    SameRing(s, t);
    assert Queued(s) == 0 ==> Free(s, s.released);
    assert Queued(s) > 0 ==> Full(s, s.released);
    hide RingInv;
    if Queued(s) == 0 {
      assert s.chunks[..s.released] == s.chunks;
    } else {
      assert Concat(s.chunks[..s.released]) + s.chunks[s.released][..0] == Concat(s.chunks[..s.released]);
    }
  }

  /** The slot being written holds the chunk that is due. */
  lemma WritingSlot(src: seq<byte>, s: State)
    requires Inv(src, s) && s.writer.Writing?
    ensures s.released < |s.chunks| && s.writer.slot < |s.slots|
    ensures s.slots[s.writer.slot].data == s.chunks[s.released]
  {
    hide Concat, ReaderInv, DoneInv;
    assert Full(s, s.released);
  }

  lemma {:induction false} WriteKeeps(src: seq<byte>, s: State, t: State, n: nat)
    requires Inv(src, s) && Write(s, t, n)
    ensures Inv(src, t)
  {
    hide Concat, RingInv, ReaderInv, DoneInv;
    WritingSlot(src, s);
    SameRing(s, t);
    SameReader(src, s, t);
    var c, off := s.chunks[s.released], s.writer.off;
    assert c[..off] + c[off..off + n] == c[..off + n];
    ConcatPrefix(s.chunks, s.released);
    ConcatStart(src, s);
  }

  /** What was read so far is a beginning of the source. */
  lemma ConcatStart(src: seq<byte>, s: State)
    requires ReaderInv(src, s)
    ensures Concat(s.chunks) <= src
  {
    hide Concat;
  }

  /** The reader's side does not depend on the writer's. */
  lemma SameReader(src: seq<byte>, s: State, t: State)
    requires ReaderInv(src, s) && DoneInv(src, s)
    requires t == s.(dst := t.dst, writer := t.writer)
    ensures ReaderInv(src, t) && DoneInv(src, t)
  {
    hide Concat;
  }

  lemma Neighbours(a: nat, b: nat)
    requires a < b < a + SLOTS
    ensures a % SLOTS != b % SLOTS
  {
    assert b == a + 1 || b == a + 2;
  }

  /** Releasing the oldest chunk leaves the others in place and adds its slot to the free end. */
  lemma {:induction false} ReleaseSlots(s: State, t: State, k: nat)
    requires |s.slots| == SLOTS && Release(s, t) && s.writer.slot == s.released % SLOTS
    ensures s.released < k < s.released + SLOTS && Full(s, k) ==> Full(t, k)
    ensures s.released < k < s.released + SLOTS && Free(s, k) ==> Free(t, k)
    ensures k == s.released + SLOTS ==> Free(t, k)
  {
    if s.released < k < s.released + SLOTS { Neighbours(s.released, k); }
  }

  lemma ReleaseFrame(s: State, t: State)
    requires Release(s, t) && s.writeIndex == s.released % SLOTS
    ensures |t.slots| == SLOTS && t.chunks == s.chunks && t.taken == s.taken && t.readIndex == s.readIndex
    ensures t.released == s.released + 1 && t.writeIndex == t.released % SLOTS
  {
  }

  lemma {:induction false} ReleaseRing(s: State, t: State)
    requires RingInv(s) && Queued(s) > 0 && Release(s, t) && s.writer.slot == s.released % SLOTS
    ensures RingInv(t)
  {
    hide Full, Free, Release;
    ReleaseFrame(s, t);
    var first := s.released;
    forall k | first < k < |s.chunks| ensures Full(t, k) {
      ReleaseSlots(s, t, k);
    }
    forall k | |s.chunks| <= k < first + 1 + SLOTS ensures Free(t, k) {
      ReleaseSlots(s, t, k);
    }
  }

  lemma {:induction false} ReleaseKeeps(src: seq<byte>, s: State, t: State)
    requires Inv(src, s) && Release(s, t)
    ensures Inv(src, t)
  {
    hide Concat;
    assert Full(s, s.released);
    ReleaseRing(s, t);
    hide RingInv;
    var c := s.chunks[s.released];
    assert c[..|c|] == c;
    ConcatPush(s.chunks[..s.released], c);
    assert s.chunks[..s.released] + [c] == s.chunks[..s.released + 1];
  }

  lemma {:induction false} LeaveKeeps(src: seq<byte>, s: State, t: State)
    requires Inv(src, s) && (WriteFails(s, t) || (exists ok :: Finish(s, t, ok)) || Join(s, t))
    ensures Inv(src, t)
  {
    hide Concat;
    SameRing(s, t);
    hide RingInv;
    assert src[..|src|] == src;
  }

  lemma {:induction false} OutsideKeeps(src: seq<byte>, s: State, t: State)
    requires Inv(src, s) && Outside(s, t)
    ensures Inv(src, t)
  {
    hide Concat;
    SameRing(s, t);
    hide RingInv;
  }

  lemma {:induction false} StepKeeps(src: seq<byte>, s: State, t: State)
    requires Inv(src, s) && (Step(src, s, t) || Outside(s, t))
    ensures Inv(src, t)
  {
    hide Inv, Take, Read, ReadFails, Pick, Write, WriteFails, Release, Finish, Join, Outside;
    if Take(s, t) { TakeKeeps(src, s, t); }
    else if n: nat :| Read(src, s, t, n) { ReadKeeps(src, s, t, n); }
    else if ReadFails(s, t) { ReadFailsKeeps(src, s, t); }
    else if Post(s, t) {
      if s.reader.n.Some? && s.reader.n.value > 0 { PublishKeeps(src, s, t); } else { EndKeeps(src, s, t); }
    }
    else if Pick(s, t) { PickKeeps(src, s, t); }
    else if n: nat :| Write(s, t, n) { WriteKeeps(src, s, t, n); }
    else if Release(s, t) { ReleaseKeeps(src, s, t); }
    else if Outside(s, t) { OutsideKeeps(src, s, t); }
    else { LeaveKeeps(src, s, t); }
  }

  // ---------------------------------------------------------------- results over every run

  ghost predicate IsRun(src: seq<byte>, run: seq<State>) {
    && run != [] && Init(run[0]) && !run[0].cancelled
    && forall k :: 0 <= k < |run| - 1 ==> Step(src, run[k], run[k + 1]) || Outside(run[k], run[k + 1])
  }

  lemma {:induction false} RunInv(src: seq<byte>, run: seq<State>, k: nat)
    requires IsRun(src, run) && k < |run|
    ensures Inv(src, run[k])
  {
    hide Step, Outside;
    if k == 0 {
      assert forall j :: Free(run[0], j);
    } else {
      RunInv(src, run, k - 1);
      assert Step(src, run[k - 1], run[k - 1 + 1]) || Outside(run[k - 1], run[k - 1 + 1]);
      hide Inv;
      StepKeeps(src, run[k - 1], run[k]);
    }
  }

  /** The destination is at all times a prefix of the source, and a copy that succeeds is the whole source. */
  lemma CopyIsFaithful(src: seq<byte>, run: seq<State>, k: nat)
    requires IsRun(src, run) && k < |run|
    ensures run[k].dst <= src
    ensures run[k].writer == Returned(true) ==> run[k].dst == src
  {
    RunInv(src, run, k);
  }

  /** A cancellation is never withdrawn, and once requested no step makes the copy return success. */
  lemma {:induction false} CancelStep(src: seq<byte>, s: State, t: State)
    requires Step(src, s, t) || Outside(s, t)
    requires s.cancelled && s.writer != Returned(true)
    ensures t.cancelled && t.writer != Returned(true)
  {
  }

  /** A copy that is cancelled before its last look at the flag, however late, returns failure. */
  lemma {:induction false} CancelledCopyFails(src: seq<byte>, run: seq<State>, k: nat, j: nat)
    requires IsRun(src, run) && k <= j < |run| && run[k].cancelled && !run[k].writer.Returned?
    ensures run[j].cancelled && run[j].writer != Returned(true)
    decreases j
  {
    hide Step, Outside;
    if k < j {
      CancelledCopyFails(src, run, k, j - 1);
      assert Step(src, run[j - 1], run[j - 1 + 1]) || Outside(run[j - 1], run[j - 1 + 1]);
      CancelStep(src, run[j - 1], run[j]);
    }
  }

  /** The slot `d` places after `start`. */
  function Around(start: nat, d: nat): nat { (start + d) % SLOTS }

  lemma ReadyIff(s: State, d: nat)
    requires RingInv(s) && d < SLOTS
    ensures s.slots[Around(s.writeIndex, d)].ready <==> d < Queued(s)
  {
    assert (s.released % SLOTS + d) % SLOTS == (s.released + d) % SLOTS;
    if d < Queued(s) { assert Full(s, s.released + d); } else { assert Free(s, s.released + d); }
  }

  /** The ready slots are the cyclic range that starts at the write index; while the reader looks for a slot,
      its read index is the end of that range. */
  lemma ReadySlots(src: seq<byte>, run: seq<State>, k: nat, i: nat)
    requires IsRun(src, run) && k < |run| && i < SLOTS
    ensures |run[k].slots| == SLOTS && Queued(run[k]) >= 0
    ensures run[k].slots[i].ready <==> exists d :: 0 <= d < Queued(run[k]) && i == Around(run[k].writeIndex, d)
    ensures run[k].reader in {RTop, RAsleep} && !run[k].done ==>
      run[k].readIndex == Around(run[k].writeIndex, Queued(run[k]))
  {
    RunInv(src, run, k);
    var s := run[k];
    ReadIndexIs(src, s);
    hide Full, Free, Inv;
    var d := PlaceOf(s.writeIndex, i);
    forall e | 0 <= e < SLOTS ensures s.slots[Around(s.writeIndex, e)].ready <==> e < Queued(s) { ReadyIff(s, e); }
    hide RingInv, Around;
    assert d < Queued(s) ==> s.slots[i].ready;
  }

  lemma ReadIndexIs(src: seq<byte>, s: State)
    requires Inv(src, s)
    ensures RingInv(s) && s.writeIndex < SLOTS && 0 <= Queued(s) <= SLOTS
    ensures s.reader in {RTop, RAsleep} && !s.done ==> s.readIndex == Around(s.writeIndex, Queued(s))
  {
    hide Full, Free, Concat;
  }

  lemma PlaceOf(start: nat, i: nat) returns (d: nat)
    requires start < SLOTS && i < SLOTS
    ensures d < SLOTS && i == Around(start, d)
  {
    d := (i + SLOTS - start) % SLOTS;
  }

  /** The reader never fills the slot that the writer is draining. */
  lemma SlotsNotShared(src: seq<byte>, run: seq<State>, k: nat)
    requires IsRun(src, run) && k < |run| && run[k].writer.Writing?
    ensures run[k].reader.Reading? || run[k].reader.Have? ==> run[k].reader.slot != run[k].writer.slot
  {
    RunInv(src, run, k);
    var s := run[k];
    if s.reader.Reading? || s.reader.Have? { Neighbours(s.released, |s.chunks|); }
  }

  // ---------------------------------------------------------------- no deadlock, and an end

  /** Steps that do not depend on a failing system call. */
  ghost predicate Sound(src: seq<byte>, s: State, t: State) {
    || Take(s, t) || (exists n: nat :: Read(src, s, t, n)) || Post(s, t)
    || Pick(s, t) || (exists n: nat :: Write(s, t, n)) || (s.cancelled && WriteFails(s, t)) || Release(s, t)
    || Finish(s, t, !s.cancelled) || Join(s, t)
  }

  function AfterTake(s: State): State
    requires |s.slots| == SLOTS && s.readIndex < SLOTS
  {
    if !s.error && !s.done && s.slots[s.readIndex].ready then s.(reader := RAsleep)
    else if s.error || s.done || s.cancelled then s.(done := true, reader := RExit, writer := WakeWriter(s.writer))
    else s.(reader := Reading(s.readIndex), readIndex := (s.readIndex + 1) % SLOTS, taken := s.taken + 1)
  }

  lemma ReaderCanStep(src: seq<byte>, s: State)
    requires Inv(src, s) && s.reader != RAsleep && s.reader != RExit
    ensures exists t :: Sound(src, s, t)
  {
    if s.reader == RTop {
      assert Take(s, AfterTake(s));
      assert Sound(src, s, AfterTake(s));
    } else if s.reader.Reading? {
      var n := if |src| - s.pos < BUFFER then |src| - s.pos else BUFFER;
      var slot := s.slots[s.reader.slot].(data := src[s.pos..s.pos + n]);
      var t := s.(slots := s.slots[s.reader.slot := slot], pos := s.pos + n, reader := Have(s.reader.slot, Some(n)));
      assert Read(src, s, t, n);
      assert Sound(src, s, t);
    } else {
      var i := s.reader.slot;
      var w := WakeWriter(s.writer);
      var t := match s.reader.n
        case None => s.(error := true, done := true, reader := RTop, writer := w)
        case Some(n) => if n == 0 then s.(done := true, reader := RTop, writer := w)
          else s.(slots := s.slots[i := s.slots[i].(ready := true)], chunks := s.chunks + [s.slots[i].data],
                  reader := RTop, writer := w);
      assert Post(s, t);
      assert Sound(src, s, t);
    }
  }

  lemma WriterCanStep(src: seq<byte>, s: State)
    requires Inv(src, s) && s.writer != WAsleep && !s.writer.Returned? && (s.writer.WExit? ==> s.reader == RExit)
    ensures exists t :: Sound(src, s, t)
  {
    hide Concat;
    var stop := s.(writer := WExit(false), done := true, error := true, reader := WakeReader(s.reader));
    if s.writer == WTop {
      var ready := s.slots[s.writeIndex].ready;
      var t := if !s.error && !s.done && !ready then s.(writer := WAsleep)
               else if s.error then stop
               else if s.done && !ready then s.(writer := Finishing)
               else s.(writer := Writing(s.writeIndex, 0));
      assert Pick(s, t);
      assert Sound(src, s, t);
    } else if s.writer.Writing? {
      assert Full(s, s.released);
      var i, off := s.writer.slot, s.writer.off;
      var data := s.slots[i].data;
      if off == |data| {
        var t := s.(slots := s.slots[i := s.slots[i].(ready := false)], writeIndex := (s.writeIndex + 1) % SLOTS,
                    released := s.released + 1, writer := WTop, reader := WakeReader(s.reader));
        assert Release(s, t);
        assert Sound(src, s, t);
      } else if s.cancelled {
        assert WriteFails(s, stop);
        assert Sound(src, s, stop);
      } else {
        var t := s.(dst := s.dst + data[off..off + 1], writer := Writing(i, off + 1));
        assert Write(s, t, 1);
        assert Sound(src, s, t);
      }
    } else if s.writer == Finishing {
      var t := s.(writer := WExit(!s.cancelled), done := true, error := true, reader := WakeReader(s.reader));
      assert Finish(s, t, !s.cancelled);
      assert Sound(src, s, t);
    } else {
      var t := s.(writer := Returned(s.writer.ok && !s.cancelled));
      assert Join(s, t);
      assert Sound(src, s, t);
    }
  }

  /** The two threads never wait for each other: until the copy returns, one of them can move. */
  lemma NeverStuck(src: seq<byte>, s: State)
    requires Inv(src, s) && !s.writer.Returned?
    ensures exists t :: Sound(src, s, t)
  {
    hide Concat, Sound;
    if s.reader != RAsleep && s.reader != RExit {
      ReaderCanStep(src, s);
    } else {
      WriterCanStep(src, s);
    }
  }

  function ReaderWork(s: State): nat {
    match s.reader
    case RTop => if s.done then 1 else 4
    case Reading(_) => 3
    case Have(_, n) => if n.Some? && n.value > 0 then 14 else 2
    case RAsleep => 0
    case RExit => 0
  }

  function WriterWork(s: State): nat {
    match s.writer
    case WTop => 3
    case Writing(_, _) => 2
    case Finishing => 2
    case WExit(_) => 1
    case WAsleep => 0
    case Returned(_) => 0
  }

  /** Bounds the steps that are left. */
  function Work(src: seq<byte>, s: State): int {
    12 * (|src| - s.pos) + 8 * (|src| - |s.dst|) + 6 * Queued(s) + (if s.done then 0 else 4) + ReaderWork(s)
        + WriterWork(s)
  }

  lemma ReaderUsesWork(src: seq<byte>, s: State, t: State)
    requires Inv(src, s) && ReaderStep(src, s, t)
    ensures Work(src, t) < Work(src, s)
  {
    hide Concat, Full, Free, RingInv;
    if n: nat :| Read(src, s, t, n) { assert n == 0 ==> t.pos == s.pos; }
  }

  lemma PickUsesWork(src: seq<byte>, s: State, t: State)
    requires Inv(src, s) && Pick(s, t)
    ensures Work(src, t) < Work(src, s)
  {
    hide Concat, Full, Free, RingInv;
  }

  lemma WriterUsesWork(src: seq<byte>, s: State, t: State)
    requires Inv(src, s) && WriterStep(s, t)
    ensures Work(src, t) < Work(src, s)
  {
    hide Concat, Full, Free, RingInv, Pick;
    if Pick(s, t) {
      PickUsesWork(src, s, t);
    } else if n: nat :| Write(s, t, n) {
      assert |t.dst| == |s.dst| + n;
    }
  }

  lemma StepUsesWork(src: seq<byte>, s: State, t: State)
    requires Inv(src, s) && Step(src, s, t)
    ensures 0 <= Work(src, t) < Work(src, s)
  {
    assert Inv(src, t) by { StepKeeps(src, s, t); }
    hide Concat, Full, Free, ReaderStep, WriterStep;
    if ReaderStep(src, s, t) { ReaderUsesWork(src, s, t); } else { WriterUsesWork(src, s, t); }
  }

  /** However the threads interleave, a copy takes boundedly many steps. */
  lemma {:induction false} CopiesEnd(src: seq<byte>, run: seq<State>)
    requires run != [] && Inv(src, run[0])
    requires forall k :: 0 <= k < |run| - 1 ==> Step(src, run[k], run[k + 1])
    ensures Inv(src, run[|run| - 1])
    ensures |run| - 1 + Work(src, run[|run| - 1]) <= Work(src, run[0])
  {
    hide Step, Inv, Work;
    var n := |run| - 1;
    if n > 0 {
      CopiesEnd(src, run[..n]);
      assert Step(src, run[n - 1], run[n - 1 + 1]);
      StepKeeps(src, run[n - 1], run[n]);
      StepUsesWork(src, run[n - 1], run[n]);
    }
  }

  /** No failing call and no request to cancel. */
  ghost predicate Undisturbed(src: seq<byte>, run: seq<State>) {
    && IsRun(src, run) && (forall k :: 0 <= k < |run| ==> !run[k].cancelled)
    && forall k :: 0 <= k < |run| - 1 ==> Sound(src, run[k], run[k + 1]) || Outside(run[k], run[k + 1])
  }

  ghost predicate Healthy(s: State) {
    && !(s.reader.Have? && s.reader.n.None?)
    && (s.error ==> s.writer.WExit? || s.writer.Returned?)
    && (s.writer.WExit? || s.writer.Returned? ==> s.writer.ok)
  }

  lemma HealthyStep(src: seq<byte>, s: State, t: State)
    requires Healthy(s) && !s.cancelled && (Sound(src, s, t) || Outside(s, t))
    ensures Healthy(t)
  {
  }

  /** So an undisturbed copy cannot report failure: when it returns, it returns success and the whole file. */
  lemma {:induction false} UndisturbedCopySucceeds(src: seq<byte>, run: seq<State>, k: nat)
    requires Undisturbed(src, run) && k < |run|
    ensures Healthy(run[k])
    ensures run[k].writer.Returned? ==> run[k].writer.ok && run[k].dst == src
  {
    CopyIsFaithful(src, run, k);
    hide Sound, Outside, IsRun;
    if k > 0 {
      UndisturbedCopySucceeds(src, run, k - 1);
      assert Sound(src, run[k - 1], run[k - 1 + 1]) || Outside(run[k - 1], run[k - 1 + 1]);
      HealthyStep(src, run[k - 1], run[k]);
    } else {
      assert Init(run[0]) by { assert IsRun(src, run); }
    }
  }

  // ---------------------------------------------------------------- the critical sections

  class Pipeline {
    const src: seq<byte>
    const slots: array<Slot>
    var readIndex: nat
    var writeIndex: nat
    var done: bool
    var error: bool
    var cancelled: bool
    var pos: nat
    var dst: seq<byte>
    var reader: Reader
    var writer: Writer
    ghost var chunks: seq<seq<byte>>
    ghost var taken: nat
    ghost var released: nat

    ghost function Now(): State
      reads this, slots
    {
      State(slots[..], readIndex, writeIndex, done, error, reader, writer, cancelled, pos, dst, chunks, taken, released)
    }

    ghost predicate Valid()
      reads this, slots
    {
      Inv(src, Now())
    }

    constructor (src: seq<byte>)
      ensures this.src == src && fresh(slots) && Init(Now()) && Valid()
    {
      this.src := src;
      slots := new Slot[SLOTS](_ => Slot(false, []));
      readIndex, writeIndex, done, error, cancelled := 0, 0, false, false, false;
      pos, dst, reader, writer := 0, [], RTop, WTop;
      chunks, taken, released := [], 0, 0;
      new;
      assert IsRun(src, [Now()]);
      RunInv(src, [Now()], 0);
    }

    /** The reader's wait loop and the choice of a slot. */
    method ReaderEnter()
      requires Valid() && reader == RTop
      modifies this`readIndex, this`done, this`reader, this`writer, this`taken
      ensures Valid() && Take(old(Now()), Now())
    {
      ghost var before := Now();
      if !error && !done && slots[readIndex].ready {
        reader := RAsleep;
      } else if error || done || cancelled {
        done := true;
        reader, writer := RExit, WakeWriter(writer);
      } else {
        reader := Reading(readIndex);
        readIndex := (readIndex + 1) % SLOTS;
        taken := taken + 1;
      }
      TakeKeeps(src, before, Now());
    }

    /** A read of at most one buffer, as much as `limit` allows. */
    method ReaderRead(limit: nat)
      requires Valid() && reader.Reading? && 0 < limit <= BUFFER
      modifies this`pos, this`reader, slots
      ensures Valid() && exists n: nat :: Read(src, old(Now()), Now(), n)
    {
      ghost var before := Now();
      var i := reader.slot;
      var n := if |src| - pos < limit then |src| - pos else limit;
      slots[i] := slots[i].(data := src[pos..pos + n]);
      pos := pos + n;
      reader := Have(i, Some(n));
      assert slots[..] == before.slots[i := slots[i]];
      assert Read(src, before, Now(), n);
      ReadKeeps(src, before, Now(), n);
    }

    /** Publishing a slot, announcing the end, or reporting a failed read. */
    method ReaderPost()
      requires Valid() && reader.Have?
      modifies this`error, this`done, this`reader, this`writer, this`chunks, slots
      ensures Valid() && Post(old(Now()), Now())
    {
      hide Concat, Full, Free, RingInv, DoneInv, WriterInv;
      ghost var before := Now();
      var i, n := reader.slot, reader.n;
      if n.None? || n.value == 0 {
        error := error || n.None?;
        done := true;
        reader, writer := RTop, WakeWriter(writer);
      } else {
        chunks := chunks + [slots[i].data];
        slots[i] := slots[i].(ready := true);
        reader, writer := RTop, WakeWriter(writer);
        assert slots[..] == before.slots[i := slots[i]];
      }
      StepKeeps(src, before, Now());
    }

    /** The writer's wait loop and the choice of a slot. */
    method WriterEnter()
      requires Valid() && writer == WTop
      modifies this`done, this`error, this`reader, this`writer
      ensures Valid() && Pick(old(Now()), Now())
    {
      ghost var before := Now();
      var ready := slots[writeIndex].ready;
      if !error && !done && !ready {
        writer := WAsleep;
      } else if error {
        Leave(false);
      } else if done && !ready {
        writer := Finishing;
      } else {
        writer := Writing(writeIndex, 0);
      }
      PickKeeps(src, before, Now());
    }

    /** The common exit: both flags are raised, so that the reader leaves too. */
    method Leave(ok: bool)
      requires slots.Length == SLOTS
      modifies this`done, this`error, this`reader, this`writer
      ensures Now() == old(Now()).(writer := WExit(ok), done := true, error := true, reader := WakeReader(old(reader)))
    {
      done, error := true, true;
      reader, writer := WakeReader(reader), WExit(ok);
    }

    /** One turn of the write loop: `accepted` bytes are taken, none on failure. */
    method WriterWrite(accepted: nat)
      requires Valid() && writer.Writing? && writer.slot < slots.Length && writer.off < |slots[writer.slot].data|
      modifies this`dst, this`done, this`error, this`reader, this`writer
      ensures Valid() && (WriteFails(old(Now()), Now()) || exists n: nat :: Write(old(Now()), Now(), n))
      ensures cancelled ==> dst == old(dst)
    {
      hide Concat, ReaderInv, DoneInv, Full, Free;
      ghost var before := Now();
      var i, off := writer.slot, writer.off;
      var size := |slots[i].data|;
      if cancelled || accepted == 0 {
        Leave(false);
        assert WriteFails(before, Now());
      } else {
        var n := if accepted < size - off then accepted else size - off;
        dst := dst + slots[i].data[off..off + n];
        writer := Writing(i, off + n);
        assert Write(before, Now(), n);
      }
      StepKeeps(src, before, Now());
    }

    /** Handing a drained slot back. */
    method WriterRelease()
      requires Valid() && writer.Writing? && writer.slot < slots.Length && writer.off == |slots[writer.slot].data|
      modifies this`writeIndex, this`released, this`reader, this`writer, slots
      ensures Valid() && Release(old(Now()), Now())
    {
      hide Concat, ReaderInv, DoneInv, Full, Free;
      ghost var before := Now();
      var i := writer.slot;
      slots[i] := slots[i].(ready := false);
      writeIndex := (writeIndex + 1) % SLOTS;
      released := released + 1;
      reader, writer := WakeReader(reader), WTop;
      assert slots[..] == before.slots[i := slots[i]];
      ReleaseKeeps(src, before, Now());
    }
  }
}
