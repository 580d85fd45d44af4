/**
 * Where the loops and the crash machine meet: the records the loops save, with the stages they are saved with, are
 * exactly those that the machine's checkpoint steps save.
 */
module ConversionLevels {
  import opened Bytes
  import opened Disks
  import opened Pfsc
  import opened Conversion
  import opened ConversionProof
  import ExfatWriter
  import PfscPack
  import PfscVerify
  import R = Resume

  // ---------------------------------------------------------------- packing

  /** `f` has the stream's bytes `lo..hi` behind `base`. */
  ghost predicate Same(f: seq<byte>, base: nat, stream: seq<byte>, lo: nat, hi: nat) {
    hi <= |stream| && base + hi <= |f| && forall p :: lo <= p < hi ==> f[base + p] == stream[p]
  }

  lemma SameSlice(f: seq<byte>, base: nat, stream: seq<byte>, lo: nat, hi: nat)
    requires lo <= hi <= |stream| && base + hi <= |f|
    ensures Same(f, base, stream, lo, hi) <==> f[base + lo..base + hi] == stream[lo..hi]
  {
    if f[base + lo..base + hi] == stream[lo..hi] {
      forall p | lo <= p < hi ensures f[base + p] == stream[p] {
        assert f[base + lo..base + hi][p - lo] == stream[lo..hi][p - lo];
      }
    }
  }

  lemma PayloadAt(c: Codec, input: seq<byte>, k: nat)
    requires k <= BlockCount(|input|)
    ensures DataOffset(BlockCount(|input|)) <= Offset(c, input, k) <= |Image(c, input)|
    ensures Image(c, input)[DataOffset(BlockCount(|input|))..Offset(c, input, k)] == Payload(c, input, k)
  {
    hide Header, Table, Payload, DataOffset, Front;
    var n, image := BlockCount(|input|), Image(c, input);
    PfscPack.ImageParts(c, input);
    PfscPack.PayloadPrefix(c, input, k, n);
    var d := DataOffset(n);
    assert image[d..d + |Payload(c, input, k)|] == image[d..][..|Payload(c, input, k)|];
  }

  /** What the packing loop says about its stage, byte by byte. */
  lemma HoldsBytes(c: Codec, input: seq<byte>, f: seq<byte>, base: nat, k: nat)
    requires k <= BlockCount(|input|)
    ensures var n := BlockCount(|input|);
      PfscPack.Holds(c, input, f, base, k) <==>
        && Same(f, base, Image(c, input), 0, TABLE_AT + 8 * (k + 1))
        && Same(f, base, Image(c, input), TABLE_AT + TableBytes(n), DataOffset(n))
        && Same(f, base, Image(c, input), DataOffset(n), Offset(c, input, k))
  {
    hide Image, Offset, DataOffset, Payload, Same;
    var n, image := BlockCount(|input|), Image(c, input);
    PayloadAt(c, input, k);
    SameRoom(f, base, image, 0, TABLE_AT + 8 * (k + 1));
    SameRoom(f, base, image, TABLE_AT + TableBytes(n), DataOffset(n));
    SameRoom(f, base, image, DataOffset(n), Offset(c, input, k));
    assert image[0..TABLE_AT + 8 * (k + 1)] == image[..TABLE_AT + 8 * (k + 1)];
  }

  lemma SameRoom(f: seq<byte>, base: nat, stream: seq<byte>, lo: nat, hi: nat)
    requires lo <= hi <= |stream|
    ensures Same(f, base, stream, lo, hi) <==> base + hi <= |f| && f[base + lo..base + hi] == stream[lo..hi]
  {
    if base + hi <= |f| { SameSlice(f, base, stream, lo, hi); }
  }

  /** Agreement with the target on a stretch of the stream. */
  lemma SameAgrees(w: World, j: R.State, f: seq<byte>, lo: nat, hi: nat)
    requires ValidWorld(w) && lo <= hi <= |Stream(w, j.fingerprint)| && BASE + hi <= |f|
    ensures Same(f, BASE, Stream(w, j.fingerprint), lo, hi) <==> Agrees(f, Target(w, j), Span(BASE + lo, BASE + hi))
  {
    hide ValidWorld, Target, Image;
    TargetShape(w, j);
    var s, t := Stream(w, j.fingerprint), Target(w, j);
    forall p | lo <= p < hi ensures t[BASE + p] == s[p] && BASE + p in Span(BASE + lo, BASE + hi) {
      assert t[BASE..][p] == s[p];
    }
  }

  lemma AgreesBoth(f: seq<byte>, t: seq<byte>, a: iset<nat>, b: iset<nat>)
    ensures Agrees(f, t, a + b) <==> Agrees(f, t, a) && Agrees(f, t, b)
  {
    if Agrees(f, t, a + b) {
      AgreesSubset(f, t, a + b, a);
      AgreesSubset(f, t, a + b, b);
    }
  }

  lemma LongEnough(w: World, j: R.State, f: seq<byte>, k: nat)
    requires ValidWorld(w) && k <= Count(w, j.fingerprint)
    requires BASE + DataOffset(Count(w, j.fingerprint)) <= |f|
    requires Agrees(f, Target(w, j), Packed(w, j.fingerprint, k + 1, k))
    ensures BASE + Offset(w.c, w.image(j.fingerprint), k) <= |f|
  {
    hide ValidWorld, Target, Image, DataOffset;
    var fp := j.fingerprint;
    TargetShape(w, j);
    OffsetBounds(w, fp, k);
    hide Offset;
    var top := Offset(w.c, w.image(fp), k);
    if top > DataOffset(Count(w, fp)) {
      assert BASE + top - 1 in Packed(w, fp, k + 1, k);
    }
  }

  /** The loop's statement about its stage is the machine's: they differ only on how long the file is. */
  lemma HoldsIsPacked(w: World, j: R.State, f: seq<byte>, k: nat)
    requires ValidWorld(w) && k <= Count(w, j.fingerprint)
    ensures PfscPack.Holds(w.c, w.image(j.fingerprint), f, BASE, k) <==>
      && BASE + DataOffset(Count(w, j.fingerprint)) <= |f|
      && Agrees(f, Target(w, j), Packed(w, j.fingerprint, k + 1, k))
  {
    hide ValidWorld, Target, Image, DataOffset, Offset, Agrees, PfscPack.Holds, Same;
    var fp := j.fingerprint;
    var n, s, t := Count(w, fp), Stream(w, fp), Target(w, j);
    var a, b, d, e := TABLE_AT + 8 * (k + 1), TABLE_AT + TableBytes(n), DataOffset(n), Offset(w.c, w.image(fp), k);
    HoldsBytes(w.c, w.image(fp), f, BASE, k);
    OffsetBounds(w, fp, k);
    AgreesBoth(f, t, Span(BASE, BASE + a), Span(BASE + b, BASE + e));
    if BASE + d <= |f| && Agrees(f, t, Packed(w, fp, k + 1, k)) { LongEnough(w, j, f, k); }
    if Same(f, BASE, s, 0, a) { SameBounds(f, BASE, s, 0, a); }
    if Same(f, BASE, s, b, d) { SameBounds(f, BASE, s, b, d); }
    if Same(f, BASE, s, d, e) { SameBounds(f, BASE, s, d, e); }
    if BASE + e <= |f| {
      SameAgrees(w, j, f, 0, a);
      SameAgrees(w, j, f, b, e);
      SameJoin(f, BASE, s, b, d, e);
    }
  }

  lemma SameBounds(f: seq<byte>, base: nat, stream: seq<byte>, lo: nat, hi: nat)
    requires Same(f, base, stream, lo, hi)
    ensures base + hi <= |f|
  {
  }

  lemma SameJoin(f: seq<byte>, base: nat, stream: seq<byte>, lo: nat, mid: nat, hi: nat)
    requires lo <= mid <= hi
    ensures Same(f, base, stream, lo, hi) ==> Same(f, base, stream, lo, mid) && Same(f, base, stream, mid, hi)
    ensures Same(f, base, stream, lo, mid) && Same(f, base, stream, mid, hi) ==> Same(f, base, stream, lo, hi)
  {
  }

  /** Some checkpoint step of the machine, taken where its invariant holds, saves this record with this stage. */
  ghost predicate SavesPack(w: World, rec: R.State, stage: seq<byte>) {
    exists s, t :: SavesPackAt(w, s, t, rec, stage)
  }

  ghost predicate SavesPackAt(w: World, s: State, t: State, rec: R.State, stage: seq<byte>) {
    && Inv(w, s) && (SavePack(w, s, t) || EnterVerify(w, s, t))
    && t.journal == rec && t.pfs == Some(Disk(stage, stage))
  }

  ghost predicate SoundPack(w: World, rec: R.State, stage: seq<byte>) {
    PfscPack.SoundRecord(w.c, w.image(rec.fingerprint), BASE, rec, stage) && Blank(stage, MetaGap())
  }

  lemma SavedIsSound(w: World, s: State, t: State, rec: R.State, stage: seq<byte>)
    requires ValidWorld(w) && SavesPackAt(w, s, t, rec, stage)
    requires BASE + DataOffset(Count(w, rec.fingerprint)) <= |stage|
    ensures SoundPack(w, rec, stage)
  {
    hide Inv, ValidWorld, Target, Agrees, Offset, BlockCount, DataOffset, PfscPack.Holds, Packed, Blank, SavePack,
      EnterVerify;
    PackedAgrees(w, s, t);
    HoldsIsPacked(w, rec, stage, rec.packNext);
  }

  /** What a packing checkpoint finds on both stages. */
  lemma PackedAgrees(w: World, s: State, t: State)
    requires ValidWorld(w) && Inv(w, s) && (SavePack(w, s, t) || EnterVerify(w, s, t))
    ensures var j := t.journal;
      && t.pfs.Some? && j.packNext <= Count(w, j.fingerprint) && Blank(t.pfs.value.now, MetaGap())
      && Agrees(t.pfs.value.now, Target(w, j), Packed(w, j.fingerprint, j.packNext + 1, j.packNext))
      && j.packStored == Offset(w.c, w.image(j.fingerprint), j.packNext)
      && (j.phase == R.Verify ==> j.verifyNext == 0 && j.packNext == Count(w, j.fingerprint))
    ensures t.journal.phase == R.Pack || t.journal.phase == R.Verify
  {
    hide ValidWorld, Target, Agrees, Image, Offset, BlockCount, DataOffset, Packable, Blank;
    SameTarget(w, s.journal, t.journal);
    var fp := s.journal.fingerprint;
    OffsetBounds(w, fp, Count(w, fp));
    if EnterVerify(w, s, t) {
      BodyIsPacked(w, fp);
      AgreesSubset(s.pfs.value.now, Target(w, s.journal), Body(w, fp), Packed(w, fp, Count(w, fp) + 1, Count(w, fp)));
    }
  }

  lemma BodyIsPacked(w: World, fp: nat)
    ensures forall p: nat :: p in Body(w, fp) <==> p in Packed(w, fp, Count(w, fp) + 1, Count(w, fp))
  {
    hide Image, BlockCount, DataOffset;
    OffsetBounds(w, fp, Count(w, fp));
    hide Offset;
  }

  /** A state in which the machine is about to save `rec`. */
  function BeforeSave(w: World, rec: R.State, stage: seq<byte>): State {
    var image := w.image(rec.fingerprint);
    State(0, [], rec.(phase := R.Pack, packNext := 0), rec, 0,
          if rec.phase == R.Pack then PackTable(rec.packNext) else PackDone,
          Some(Disk(image, image)), Some(Disk(stage, stage)), None)
  }

  lemma BeforeSaveInv(w: World, rec: R.State, stage: seq<byte>)
    requires ValidWorld(w) && Packable(|w.image(rec.fingerprint)|) && 0 < rec.packNext && SoundPack(w, rec, stage)
    ensures Inv(w, BeforeSave(w, rec, stage))
  {
    hide ValidWorld, Target, Agrees, Image, Offset, BlockCount, DataOffset, Packable, Blank, PfscPack.Holds;
    var s := BeforeSave(w, rec, stage);
    var fp := rec.fingerprint;
    assert rec.packNext <= Count(w, fp) by { HoldsBound(w.c, w.image(fp), stage, rec.packNext); }
    HoldsIsPacked(w, rec, stage, rec.packNext);
    SameTarget(w, rec, s.journal);
    BodyIsPacked(w, fp);
    if rec.phase == R.Verify {
      AgreesSubset(stage, Target(w, rec), Packed(w, fp, Count(w, fp) + 1, Count(w, fp)), Body(w, fp));
    }
  }

  lemma HoldsBound(c: Codec, input: seq<byte>, f: seq<byte>, k: nat)
    requires PfscPack.Holds(c, input, f, BASE, k)
    ensures k <= BlockCount(|input|)
    ensures BASE + DataOffset(BlockCount(|input|)) <= |f|
  {
    hide BlockCount, Image, Offset, DataOffset;
  }

  lemma SoundIsSaved(w: World, rec: R.State, stage: seq<byte>)
    requires ValidWorld(w) && Packable(|w.image(rec.fingerprint)|) && 0 < rec.packNext && SoundPack(w, rec, stage)
    ensures SavesPack(w, rec, stage)
  {
    BeforeSaveInv(w, rec, stage);
    HoldsBound(w.c, w.image(rec.fingerprint), stage, rec.packNext);
    hide Inv, ValidWorld, Offset, BlockCount, Packable, Blank, PfscPack.Holds, DataOffset;
    var s := BeforeSave(w, rec, stage);
    var t := s.(mem := rec, journal := rec,
                pc := if rec.phase == R.Pack then PackRun(rec.packNext, rec.packNext) else VerifyRun(0));
    assert SavePack(w, s, t) || EnterVerify(w, s, t);
    assert SavesPackAt(w, s, t, rec, stage);
  }

  /**
   * Packing: the records that the packing loop may save, with their stages, are exactly those that a checkpoint
   * step of the machine saves.
   */
  lemma PackRecordsAreSteps(w: World, rec: R.State, stage: seq<byte>)
    requires ValidWorld(w) && Packable(|w.image(rec.fingerprint)|) && 0 < rec.packNext
    ensures SoundPack(w, rec, stage) <==>
      BASE + DataOffset(Count(w, rec.fingerprint)) <= |stage| && SavesPack(w, rec, stage)
  {
    hide ValidWorld, SavesPackAt, BlockCount, DataOffset, PfscPack.Holds, Packable;
    if SoundPack(w, rec, stage) {
      SoundIsSaved(w, rec, stage);
      HoldsBound(w.c, w.image(rec.fingerprint), stage, rec.packNext);
    } else if BASE + DataOffset(Count(w, rec.fingerprint)) <= |stage| && SavesPack(w, rec, stage) {
      var s, t :| SavesPackAt(w, s, t, rec, stage);
      SavedIsSound(w, s, t, rec, stage);
    }
  }

  // ---------------------------------------------------------------- the exFAT stage

  ghost predicate SavesExfat(w: World, rec: R.State, stage: seq<byte>) {
    exists s, t :: SavesExfatAt(w, s, t, rec, stage)
  }

  ghost predicate SavesExfatAt(w: World, s: State, t: State, rec: R.State, stage: seq<byte>) {
    && Inv(w, s) && (EndPrologue(w, s, t) || CheckpointFile(w, s, t) || EndFiles(w, s, t))
    && t.journal == rec && t.exfat == Some(Disk(stage, stage))
  }

  /** What the exFAT writer's loop says about a record and the stage it is saved with. */
  ghost predicate SoundExfat(w: World, rec: R.State, stage: seq<byte>) {
    && ExfatWriter.Held(stage, w.image(rec.fingerprint), w.files(rec.fingerprint), rec.nextFile)
    && rec.stageSize == |stage|
  }

  lemma SavedIsHeld(w: World, s: State, t: State, rec: R.State, stage: seq<byte>)
    requires ValidWorld(w) && SavesExfatAt(w, s, t, rec, stage)
    ensures SoundExfat(w, rec, stage) && rec.phase == R.Exfat && rec.exfatSize == |w.image(rec.fingerprint)|
    ensures rec.fingerprint != 0
  {
    hide ValidWorld, Agrees, JournalInv, Target, Packable;
    if EndPrologue(w, s, t) { EndPrologueInv(w, s, t); }
  }

  /** A state in which the machine is about to save `rec`. */
  function BeforeCheckpoint(rec: R.State, stage: seq<byte>): State {
    State(rec.fingerprint, [], rec.(nextFile := 0), rec, 0, ExFiles(rec.nextFile), Some(Disk(stage, stage)), None, None)
  }

  /**
   * The exFAT stage: the records that the writer's loop may save, with their stages, are exactly those that a
   * checkpoint step of the machine saves.
   */
  lemma ExfatRecordsAreSteps(w: World, rec: R.State, stage: seq<byte>)
    requires ValidWorld(w)
    ensures SavesExfat(w, rec, stage) <==>
      && SoundExfat(w, rec, stage) && rec.phase == R.Exfat && rec.fingerprint != 0
      && rec.exfatSize == |w.image(rec.fingerprint)|
  {
    hide ValidWorld, SoundExfat, SavesExfatAt;
    if SoundExfat(w, rec, stage) && rec.phase == R.Exfat && rec.fingerprint != 0
        && rec.exfatSize == |w.image(rec.fingerprint)| {
      HeldIsSaved(w, rec, stage);
    }
    if SavesExfat(w, rec, stage) {
      var s, t :| SavesExfatAt(w, s, t, rec, stage);
      SavedIsHeld(w, s, t, rec, stage);
    }
  }

  lemma HeldIsSaved(w: World, rec: R.State, stage: seq<byte>)
    requires SoundExfat(w, rec, stage) && rec.phase == R.Exfat && rec.fingerprint != 0
    requires rec.exfatSize == |w.image(rec.fingerprint)|
    ensures SavesExfat(w, rec, stage)
  {
    hide Agrees, Target, Packable;
    var s := BeforeCheckpoint(rec, stage);
    assert SavesExfatAt(w, s, s.(journal := rec), rec, stage);
  }

  // ---------------------------------------------------------------- verification

  /** A run of the machine's verifier: windows, and then the step into publication. */
  ghost predicate VerifyPass(w: World, run: seq<State>) {
    run != [] && forall k :: 0 <= k < |run| - 1 ==>
      VerifyWindow(w, run[k], run[k + 1]) || EnterPublish(w, run[k], run[k + 1])
  }

  ghost predicate PassAt(s: State, first: State, f: seq<byte>, start: nat, blocks: nat, k: nat) {
    && s.pfs == first.pfs && s.mem == first.mem.(phase := s.mem.phase, verifyNext := s.mem.verifyNext)
    && (s.pc.VerifyRun? ==> s.pc.i == PfscVerify.Reached(start, blocks, k) == s.mem.verifyNext)
    && (k > 0 ==> s.journal == PfscVerify.Record(first.mem, start, blocks, k - 1))
  }

  lemma PassStep(w: World, s: State, t: State, first: State, f: seq<byte>, start: nat, blocks: nat, k: nat)
    requires first.pfs.Some? && first.pfs.value.now == f && HeaderOk(f, BASE) && Blocks(f, BASE) == blocks
    requires PassAt(s, first, f, start, blocks, k) && (VerifyWindow(w, s, t) || EnterPublish(w, s, t))
    ensures PassAt(t, first, f, start, blocks, k + 1)
  {
    hide HeaderOk, BlocksOk, PfscVerify.Record, PfscVerify.Reached, LogicalSize, Blocks;
    if VerifyWindow(w, s, t) {
      PfscVerify.WindowRecord(first.mem, start, blocks, k, s.mem);
    } else {
      PfscVerify.LastRecord(first.mem, start, blocks, k, s.mem);
    }
  }

  /**
   * Verification: over every run of the machine's verifier from block `start`, the records saved are, one after the
   * other, those that the verifier's loop saves (`PfscVerify.VerifyStream`), for the same file.
   */
  lemma {:induction false} VerifyRecordsAreSteps(w: World, run: seq<State>, start: nat, k: nat)
    requires VerifyPass(w, run) && 0 < k < |run| && run[0].pc == VerifyRun(start) && run[0].mem.verifyNext == start
    requires run[0].pfs.Some? && HeaderOk(run[0].pfs.value.now, BASE) && start <= Blocks(run[0].pfs.value.now, BASE)
    ensures run[k].journal == PfscVerify.Record(run[0].mem, start, Blocks(run[0].pfs.value.now, BASE), k - 1)
    ensures run[k].pfs == run[0].pfs
  {
    hide HeaderOk, VerifyWindow, EnterPublish, PfscVerify.Record, Blocks;
    PassAlways(w, run, start, k);
  }

  lemma {:induction false} PassAlways(w: World, run: seq<State>, start: nat, k: nat)
    requires VerifyPass(w, run) && k < |run| && run[0].pc == VerifyRun(start) && run[0].mem.verifyNext == start
    requires run[0].pfs.Some? && HeaderOk(run[0].pfs.value.now, BASE) && start <= Blocks(run[0].pfs.value.now, BASE)
    ensures var f := run[0].pfs.value.now; PassAt(run[k], run[0], f, start, Blocks(f, BASE), k)
  {
    var f := run[0].pfs.value.now;
    hide HeaderOk, VerifyWindow, EnterPublish, PfscVerify.Record;
    if k == 0 {
      PfscVerify.ReachedFirst(start, Blocks(f, BASE));
    } else {
      hide PassAt;
      PassAlways(w, run, start, k - 1);
      assert VerifyWindow(w, run[k - 1], run[k - 1 + 1]) || EnterPublish(w, run[k - 1], run[k - 1 + 1]);
      PassStep(w, run[k - 1], run[k], run[0], f, start, Blocks(f, BASE), k - 1);
    }
  }
}
