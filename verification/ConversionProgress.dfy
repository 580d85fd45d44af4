/** A conversion that is left alone publishes: from the beginning, and from a restart after a crash. */
module ConversionProgress {
  import opened Bytes
  import opened Disks
  import opened Pfsc
  import opened Conversion
  import opened ConversionProof
  import PfscVerify
  import R = Resume

  /** A step of an undisturbed run: no crash, no error, no cancellation, no change of the source. */
  ghost predicate Calm(w: World, s: State, t: State) {
    StartStep(w, s, t) || ExfatStep(w, s, t) || PackStep(w, s, t) || PublishStep(w, s, t) ||
    Link(w, s, t) || Unlink(w, s, t) || Sweep(w, s, t) || Complete(w, s, t)
  }

  // ---------------------------------------------------------------- what records say about sizes

  predicate Later(phase: R.Phase) { phase == R.Pack || phase == R.Verify || phase == R.Publish }

  predicate Recorded(w: World, m: R.State) {
    && (Later(m.phase) ==> m.exfatSize == |w.image(m.fingerprint)|)
    && (m.phase == R.Verify ==> m.verifyNext <= Count(w, m.fingerprint))
  }

  function PhaseAt(pc: Pc): R.Phase {
    match pc
    case Down => R.Done
    case ExPrologue(_) => R.Exfat
    case ExFiles(_) => R.Exfat
    case ExDone => R.Exfat
    case ExCleared => R.Exfat
    case PackFresh => R.Pack
    case PackRun(_, _) => R.Pack
    case PackTable(_) => R.Pack
    case PackDone => R.Pack
    case VerifyRun(_) => R.Verify
    case _ => R.Publish
  }

  predicate RecordInv(w: World, s: State) {
    && Recorded(w, s.journal)
    && (s.pc != Down ==> Recorded(w, s.mem) && s.mem.phase == PhaseAt(s.pc))
    && (s.pc.VerifyRun? ==> s.mem.verifyNext == s.pc.i)
  }

  lemma StartRecord(w: World, s: State, t: State)
    requires Inv(w, s) && RecordInv(w, s)
    requires StartStep(w, s, t) || FinalStep(w, s, t) || Crash(s, t) || Quit(s, t) || SourceChanges(s, t)
    ensures RecordInv(w, t)
  {
    hide Inv, StageThere, Cut, Packable, Readable, Entry, DataOffset, BlockCount, AfterCrash;
  }

  lemma ExfatRecord(w: World, s: State, t: State)
    requires Inv(w, s) && RecordInv(w, s) && ExfatStep(w, s, t)
    ensures RecordInv(w, t)
  {
    hide JournalInv, StageThere, Wrote, Packable, Agrees, ExHeld, Built, Bounded, Target;
  }

  predicate PackPlace(pc: Pc) { pc == PackFresh || pc.PackRun? || pc.PackTable? || pc == PackDone }

  /** Where a packing step leads, and what it finds on the exFAT stage. */
  lemma PackPlaces(w: World, s: State, t: State)
    requires PackStep(w, s, t) && !SavePack(w, s, t) && !EnterVerify(w, s, t)
    ensures t == s.(pfs := t.pfs, pc := t.pc) && s.exfat.Some?
    ensures match s.pc
      case PackFresh => t.pc == PackRun(0, 0)
      case PackRun(i, from) =>
        || (i < BlockCount(|s.exfat.value.now|) && t.pc == PackRun(i + 1, from))
        || (from < i && t.pc == PackTable(i))
        || (i == BlockCount(|s.exfat.value.now|) && t.pc == PackDone)
      case _ => false
  {
    hide Wrote, Table, Offset, Stored, Front, BlockCount;
  }

  lemma PackRecord(w: World, s: State, t: State)
    requires RecordInv(w, s) && PackStep(w, s, t)
    ensures RecordInv(w, t)
  {
    hide PackHeader, PackBlock, WriteEntries, WriteTable, Offset, BlockCount;
    if !SavePack(w, s, t) && !EnterVerify(w, s, t) { PackPlaces(w, s, t); }
  }

  /** While the record is in phase VERIFY or PUBLISH, the stage announces the blocks of the captured image. */
  lemma StageBlocks(w: World, s: State)
    requires ValidWorld(w) && Inv(w, s) && s.output == None
    requires s.journal.phase == R.Verify || s.journal.phase == R.Publish
    ensures s.pfs.Some? && HeaderOk(s.pfs.value.now, BASE)
    ensures Blocks(s.pfs.value.now, BASE) == Count(w, s.journal.fingerprint)
    ensures BlocksOk(w.c, s.pfs.value.now, BASE, 0, Count(w, s.journal.fingerprint))
  {
    assert Lossless(w.c);
    hide ValidWorld, Target, Agrees, Image, Blank, BlockCount, Body, HeaderOk, Blocks, BlocksOk, Lossless, PcInv;
    var j, f := s.journal, s.pfs.value.now;
    BodyCarries(w, j, f);
    CarriedHeader(w.c, w.image(j.fingerprint), f, BASE);
    RoundTrip(w.c, w.image(j.fingerprint), f, BASE);
  }

  lemma Verifying(w: World, s: State)
    requires Inv(w, s) && s.pc.VerifyRun?
    ensures s.output == None && s.journal.phase == R.Verify && SameCapture(s.mem, s.journal)
  {
    hide JournalInv, Target, Packable;
  }

  lemma WindowRecord(w: World, s: State, t: State)
    requires ValidWorld(w) && Inv(w, s) && RecordInv(w, s) && VerifyWindow(w, s, t)
    ensures RecordInv(w, t)
  {
    hide Inv, ValidWorld, HeaderOk, Blocks, BlocksOk, BlockCount;
    Verifying(w, s);
    StageBlocks(w, s);
  }

  lemma PublishRecord(w: World, s: State, t: State)
    requires RecordInv(w, s) && PublishStep(w, s, t) && !VerifyWindow(w, s, t)
    ensures RecordInv(w, t)
  {
    hide VerifyWindow, WritePfs, Cut, HeaderOk, Blocks, LogicalSize, BlockCount;
    if WriteMeta(w, s, t) || SealHeader(w, s, t) || !(EnterPublish(w, s, t) || TrimPfs(w, s, t) || SyncPfs(w, s, t)) {
      MetaOnly(w, s, t);
    }
  }

  lemma MetaOnly(w: World, s: State, t: State)
    requires WriteMeta(w, s, t) || SealHeader(w, s, t) || exists d :: DraftHeader(w, s, t, d)
    ensures t == s.(pfs := t.pfs, pc := t.pc) && PhaseAt(s.pc) == PhaseAt(t.pc) == R.Publish
  {
    hide Wrote;
  }

  lemma StepRecord(w: World, s: State, t: State)
    requires ValidWorld(w) && Inv(w, s) && RecordInv(w, s) && Next(w, s, t)
    ensures RecordInv(w, t)
  {
    hide ValidWorld, Inv, RecordInv, StartStep, ExfatStep, PackStep, PublishStep, FinalStep, Crash, Quit,
      SourceChanges, VerifyWindow;
    if ExfatStep(w, s, t) { ExfatRecord(w, s, t); }
    else if PackStep(w, s, t) { PackRecord(w, s, t); }
    else if PublishStep(w, s, t) {
      if VerifyWindow(w, s, t) { WindowRecord(w, s, t); } else { PublishRecord(w, s, t); }
    }
    else { StartRecord(w, s, t); }
  }

  // ---------------------------------------------------------------- what a run is going to convert

  /** Source and inner name: those of the record, once it has captured them. */
  function Goal(s: State): (nat, seq<byte>) {
    if s.pc != Down then (s.mem.fingerprint, s.mem.innerName)
    else if s.journal.phase == R.Exfat then (s.source, s.title)
    else (s.journal.fingerprint, s.journal.innerName)
  }

  /** The exFAT stage has the size and the number of files that were recorded with it. */
  predicate StageMatches(w: World, s: State) {
    && 0 < s.journal.nextFile <= s.journal.fileCount == |w.files(s.source)|
    && s.exfat.Some? && 0 < |s.exfat.value.now| == s.journal.stageSize <= |w.image(s.source)|
  }

  /** A conversion that can be started: in phase EXFAT a fresh one, or one whose source and stage are as recorded,
      of a source that fits; in a later phase any interrupted one. */
  predicate Startable(w: World, s: State) {
    && s.pc == Down && s.output == None && s.source != 0 && s.journal.phase != R.Done
    && (s.journal.phase == R.Exfat ==>
          && Packable(|w.image(s.source)|)
          && (s.journal.fingerprint == 0 || s.journal.fingerprint == s.source)
          && (s.journal.nextFile == 0 || StageMatches(w, s)))
  }

  /** A run that is under way or can be started. */
  predicate Active(w: World, s: State) {
    if s.pc == Down then Startable(w, s)
    else PhaseAt(s.pc) == R.Exfat ==> Packable(|w.image(s.mem.fingerprint)|)
  }

  predicate Done(w: World, s: State, goal: (nat, seq<byte>)) {
    && s.pc == Down && s.journal.phase == R.Done && (s.journal.fingerprint, s.journal.innerName) == goal
    && s.output == Some(Published(w, goal.0, goal.1))
  }

  ghost predicate Underway(w: World, s: State) { Inv(w, s) && RecordInv(w, s) && Active(w, s) }

  function Sub(a: nat, b: nat): nat { if a >= b then a - b else 0 }

  /** A bound on the steps left, apart from checkpoints between files. */
  function Work(w: World, s: State): nat {
    var n, p, f := Count(w, Goal(s).0), |w.prologue(Goal(s).0)|, |w.files(Goal(s).0)|;
    match s.pc
    case Down =>
      if s.journal.phase == R.Exfat then 21 + 4 * n + f + p
      else if s.journal.phase == R.Pack then 17 + 4 * n
      else if s.journal.phase == R.Done then 0
      else 14 + n
    case ExPrologue(i) => 20 + 4 * n + f + Sub(p, i)
    case ExFiles(i) => 19 + 4 * n + Sub(f, i)
    case ExDone => 18 + 4 * n
    case ExCleared => 17 + 4 * n
    case PackFresh => 16 + 4 * n
    case PackRun(i, from) => 15 + n + 3 * Sub(n, i) + (if from < i then 2 else 0)
    case PackTable(i) => 15 + n + 3 * Sub(n, i) + 1
    case PackDone => 14 + n
    case VerifyRun(i) => 13 + Sub(n, i)
    case Trim => 12
    case MetaDraft => 11
    case Meta(i) => 5 + Sub(6, i)
    case Sealed => 5
    case Ready => 4
    case Linked => 3
    case Unlinked => 2
    case Swept => 1
  }

  /** What each undisturbed step achieves. */
  ghost predicate Nearer(w: World, s: State, t: State) {
    && Goal(t) == Goal(s) && (Active(w, t) || Done(w, t, Goal(s)))
    && (Work(w, t) < Work(w, s) || (CheckpointFile(w, s, t) && Work(w, t) == Work(w, s)))
  }

  lemma StartNearer(w: World, s: State, t: State)
    requires Underway(w, s) && StartStep(w, s, t)
    ensures Nearer(w, s, t)
  {
    hide Inv, StageThere, Cut, Readable, Entry, DataOffset, BlockCount, Published, CheckpointFile;
    if ResumePack(w, s, t) { assert s.journal.packNext > 0; }
  }

  lemma ExfatNearer(w: World, s: State, t: State)
    requires Underway(w, s) && ExfatStep(w, s, t)
    ensures Nearer(w, s, t)
  {
    hide JournalInv, StageThere, Wrote, Agrees, Built, Bounded, Target, Published, BlockCount, Packable;
  }

  lemma PackStage(w: World, s: State)
    requires Inv(w, s) && PackPlace(s.pc)
    ensures s.output == None && Built(w, s.mem.fingerprint, s.exfat) && s.journal.phase == R.Pack
    ensures s.pc.PackRun? ==> s.pc.from <= s.pc.i <= Count(w, s.mem.fingerprint)
  {
    hide Agrees, Target, BothBlank, Packable, Body, Packed, BlockCount;
  }

  lemma PackNearer(w: World, s: State, t: State)
    requires Underway(w, s) && PackStep(w, s, t)
    ensures Nearer(w, s, t)
  {
    hide Inv, PackHeader, PackBlock, WriteEntries, WriteTable, Offset, BlockCount, Published, CheckpointFile;
    if !SavePack(w, s, t) && !EnterVerify(w, s, t) { PackPlaces(w, s, t); }
    assert PackPlace(s.pc);
    PackStage(w, s);
  }

  lemma WindowNearer(w: World, s: State, t: State)
    requires ValidWorld(w) && Underway(w, s) && VerifyWindow(w, s, t)
    ensures Nearer(w, s, t)
  {
    hide Inv, HeaderOk, Blocks, BlocksOk, BlockCount, ValidWorld, Published, CheckpointFile;
    Verifying(w, s);
    StageBlocks(w, s);
  }

  lemma PublishNearer(w: World, s: State, t: State)
    requires RecordInv(w, s) && PublishStep(w, s, t) && !VerifyWindow(w, s, t)
    ensures Nearer(w, s, t)
  {
    hide VerifyWindow, WriteMeta, SealHeader, Cut, HeaderOk, Blocks, LogicalSize, BlockCount, Published, CheckpointFile;
    if WriteMeta(w, s, t) || SealHeader(w, s, t) || !(EnterPublish(w, s, t) || TrimPfs(w, s, t) || SyncPfs(w, s, t)) {
      MetaOnly(w, s, t);
      MetaNext(w, s, t);
    }
  }

  lemma MetaNext(w: World, s: State, t: State)
    requires WriteMeta(w, s, t) || SealHeader(w, s, t) || exists d :: DraftHeader(w, s, t, d)
    ensures if s.pc == MetaDraft then t.pc == Meta(1)
      else s.pc.Meta? && (if s.pc.i < 5 then t.pc == Meta(s.pc.i + 1) else s.pc.i == 5 && t.pc == Sealed)
  {
    hide Wrote;
  }

  lemma FinalNearer(w: World, s: State, t: State)
    requires Underway(w, s) && (Link(w, s, t) || Unlink(w, s, t) || Sweep(w, s, t) || Complete(w, s, t))
    ensures Nearer(w, s, t)
  {
    hide JournalInv, Packable, Published, BlockCount;
  }

  /** Every step of an undisturbed run keeps the goal and comes nearer to it. */
  lemma CalmNearer(w: World, s: State, t: State)
    requires ValidWorld(w) && Underway(w, s) && Calm(w, s, t)
    ensures Inv(w, t) && RecordInv(w, t) && Nearer(w, s, t)
  {
    hide ValidWorld, Inv, RecordInv, Active, Nearer, StartStep, ExfatStep, PackStep, PublishStep, VerifyWindow,
      Link, Unlink, Sweep, Complete, Crash, Quit, SourceChanges;
    StepInv(w, s, t);
    StepRecord(w, s, t);
    if StartStep(w, s, t) { StartNearer(w, s, t); }
    else if ExfatStep(w, s, t) { ExfatNearer(w, s, t); }
    else if PackStep(w, s, t) { PackNearer(w, s, t); }
    else if PublishStep(w, s, t) {
      if VerifyWindow(w, s, t) { WindowNearer(w, s, t); } else { PublishNearer(w, s, t); }
    } else {
      FinalNearer(w, s, t);
    }
  }

  // ---------------------------------------------------------------- a next step always exists

  /** A write of which nothing is durable yet. */
  function Pending(d: Disk, at: nat, data: seq<byte>): Disk { Disk(Put(d.now, at, data), d.hard) }

  lemma PendingWrote(d: Disk, at: nat, data: seq<byte>)
    ensures Wrote(d, at, data, Pending(d, at, data))
  {
  }

  lemma HeldEntries(w: World, j: R.State, f: seq<byte>, k: nat, i: nat)
    requires ValidWorld(w) && Packable(|w.image(j.fingerprint)|) && i <= k <= Count(w, j.fingerprint)
    requires Agrees(f, Target(w, j), Packed(w, j.fingerprint, k + 1, k))
    ensures Readable(f, BASE, i) && Entry(f, BASE, i) == Offset(w.c, w.image(j.fingerprint), i)
  {
    var fp := j.fingerprint;
    var lo, hi := TABLE_AT + 8 * i, TABLE_AT + 8 * i + 8;
    hide ValidWorld, Target, Image, Offset, Table, FromLe, Le, Pow256, BlockCount;
    StreamTable(w, fp, i, i + 1);
    TargetSlice(w, j, lo, hi);
    TableEntry(w.c, w.image(fp), Count(w, fp) + 1, i);
    OffsetFits(w.c, w.image(fp), i);
    FromLeOfLe(8, Offset(w.c, w.image(fp), i));
    var t := Target(w, j);
    assert BASE + hi - 1 in Packed(w, fp, k + 1, k);
    forall p | BASE + lo <= p < BASE + hi ensures f[p] == t[p] {
      assert p in Packed(w, fp, k + 1, k);
    }
    assert f[BASE + lo..BASE + hi] == t[BASE + lo..BASE + hi];
  }

  /** The offsets a record needs are found on the stage, which is then cut back to it. */
  lemma ResumeAdvances(w: World, s: State) returns (t: State)
    requires ValidWorld(w) && Underway(w, s) && s.pc == Down && s.journal.phase == R.Pack && s.journal.packNext > 0
    ensures ResumePack(w, s, t) && t.pc != s.pc
  {
    hide Agrees, Target, Packed, BothBlank, Offset, DataOffset, Readable, Entry, Resize, BlockCount, ValidWorld,
      TableBytes;
    var j := s.journal;
    HeldEntries(w, j, s.pfs.value.now, j.packNext, 0);
    HeldEntries(w, j, s.pfs.value.now, j.packNext, j.packNext);
    OffsetBounds(w, j.fingerprint, j.packNext);
    var cut := Disk(Resize(s.pfs.value.now, BASE + j.packStored), s.pfs.value.hard);
    t := s.(pc := PackRun(j.packNext, j.packNext), mem := j, pfs := Some(cut));
  }

  lemma DownAdvances(w: World, s: State) returns (t: State)
    requires ValidWorld(w) && Underway(w, s) && s.pc == Down
    ensures StartStep(w, s, t) && t.pc != s.pc
  {
    var j := s.journal;
    match j.phase
    case Exfat =>
      hide JournalInv;
      var m := j.(innerName := s.title, fingerprint := s.source, exfatSize := |w.image(s.source)|);
      if j.nextFile == 0 {
        t := s.(exfat := Some(Disk([], [])), pc := ExPrologue(0), mem := m.(fileCount := |w.files(s.source)|));
        assert StartNew(w, s, t);
      } else {
        t := s.(pc := ExFiles(j.nextFile), mem := m);
        assert StartExfat(w, s, t);
      }
    case Pack =>
      hide Agrees, Target, Packed, BothBlank, Offset, DataOffset, Readable, Entry, Resize, BlockCount, ValidWorld;
      if j.packNext == 0 {
        t := s.(pc := PackFresh, mem := j, pfs := OrEmpty(s.pfs));
        assert StartPack(w, s, t);
      } else {
        t := ResumeAdvances(w, s);
      }
    case Verify =>
      hide Agrees, Target, Body, BothBlank, BlockCount;
      t := s.(pc := VerifyRun(j.verifyNext), mem := j, pfs := OrEmpty(s.pfs));
      assert StartVerify(w, s, t);
    case Publish =>
      hide Agrees, Target, Body, BothBlank, BlockCount;
      var m := j.(phase := R.Verify, verifyNext := 0);
      t := s.(pc := VerifyRun(0), mem := m, journal := m, pfs := OrEmpty(s.pfs));
      assert StartPublish(w, s, t);
  }

  lemma ExfatAdvances(w: World, s: State) returns (t: State)
    requires ValidWorld(w) && Underway(w, s) && s.pc != Down && PhaseAt(s.pc) == R.Exfat
    ensures ExfatStep(w, s, t) && t.pc != s.pc
  {
    hide JournalInv, Agrees, Target, Wrote, BlockCount, Put, Packable;
    var image := w.image(s.mem.fingerprint);
    match s.pc
    case ExPrologue(i) =>
      if i < |w.prologue(s.mem.fingerprint)| {
        var e := w.prologue(s.mem.fingerprint)[i];
        PendingWrote(s.exfat.value, e.0, image[e.0..e.1]);
        t := s.(exfat := Some(Pending(s.exfat.value, e.0, image[e.0..e.1])), pc := ExPrologue(i + 1));
        assert WritePrologue(w, s, t);
      } else {
        var m := s.mem.(stageSize := |s.exfat.value.now|);
        t := s.(exfat := Some(Synced(s.exfat.value)), mem := m, journal := m, pc := ExFiles(0));
        assert EndPrologue(w, s, t);
      }
    case ExFiles(i) =>
      if i < |w.files(s.mem.fingerprint)| {
        var e := w.files(s.mem.fingerprint)[i];
        PendingWrote(s.exfat.value, e.0, image[e.0..e.1]);
        t := s.(exfat := Some(Pending(s.exfat.value, e.0, image[e.0..e.1])), pc := ExFiles(i + 1),
                mem := s.mem.(nextFile := i + 1));
        assert WriteFile(w, s, t);
      } else {
        var m := s.mem.(stageSize := |s.exfat.value.now|);
        t := s.(exfat := Some(Synced(s.exfat.value)), mem := m, journal := m, pc := ExDone);
        assert EndFiles(w, s, t);
      }
    case ExDone =>
      t := s.(pfs := None, pc := ExCleared);
      assert ClearPfs(w, s, t);
    case ExCleared =>
      var m := s.mem.(phase := R.Pack, packNext := 0, packStored := 0, verifyNext := 0);
      t := s.(mem := m, journal := m, pfs := OrEmpty(s.pfs), pc := PackFresh);
      assert EnterPack(w, s, t);
  }

  lemma PackDisk(w: World, s: State)
    requires Inv(w, s) && PackPlace(s.pc)
    ensures s.pfs.Some? && (s.pc.PackTable? ==> s.pc.i <= Count(w, s.mem.fingerprint))
  {
    hide Agrees, Target, BothBlank, Packable, Body, Packed, BlockCount;
  }

  /** A packing write at `at`. */
  lemma PfsAdvances(s: State, at: nat, d: seq<byte>, next: Pc) returns (t: State)
    requires s.pfs.Some?
    ensures WritePfs(s, t, at, d, next) && t.pc == next
  {
    hide Wrote, Put;
    PendingWrote(s.pfs.value, at, d);
    t := s.(pfs := Some(Pending(s.pfs.value, at, d)), pc := next);
  }

  lemma BlockAdvances(w: World, s: State) returns (t: State)
    requires s.pc.PackRun? && s.exfat.Some? && s.pfs.Some?
    requires s.pc.i <= BlockCount(|s.exfat.value.now|)
    ensures PackStep(w, s, t) && t.pc != s.pc
  {
    hide WritePfs, Stored, Chunk, Offset, Table, BlockCount;
    var input, i := s.exfat.value.now, s.pc.i;
    var n := BlockCount(|input|);
    if i < n {
      t := PfsAdvances(s, BASE + Offset(w.c, input, i), Stored(w.c, Chunk(input, i)), PackRun(i + 1, s.pc.from));
      assert PackBlock(w, s, t);
    } else {
      TableWhole(w.c, input);
      t := PfsAdvances(s, BASE + TABLE_AT + 8 * 0, Table(w.c, input, n + 1)[8 * 0..8 * (n + 1)], PackDone);
      assert WriteTable(w, s, t);
    }
  }

  lemma PackAdvances(w: World, s: State) returns (t: State)
    requires ValidWorld(w) && Underway(w, s) && PackPlace(s.pc)
    ensures PackStep(w, s, t) && t.pc != s.pc
  {
    hide Inv, ValidWorld, WritePfs, Front, Offset, BlockCount, PackBlock, WriteTable, WriteEntries;
    PackStage(w, s);
    PackDisk(w, s);
    var input, n := s.exfat.value.now, Count(w, s.mem.fingerprint);
    match s.pc
    case PackFresh =>
      t := PfsAdvances(s, BASE, Front(w.c, input, 0), PackRun(0, 0));
      assert PackHeader(w, s, t);
    case PackRun(i, from) =>
      t := BlockAdvances(w, s);
    case PackTable(i) =>
      var m := s.mem.(phase := R.Pack, packNext := i, packStored := Offset(w.c, input, i));
      t := s.(pfs := Some(Synced(s.pfs.value)), mem := m, journal := m, pc := PackRun(i, i));
      assert SavePack(w, s, t);
    case PackDone =>
      var m := s.mem.(phase := R.Verify, packNext := n, packStored := Offset(w.c, input, n), verifyNext := 0);
      t := s.(pfs := Some(Synced(s.pfs.value)), mem := m, journal := m, pc := VerifyRun(0));
      assert EnterVerify(w, s, t);
  }

  lemma TableWhole(c: Codec, input: seq<byte>)
    ensures |Table(c, input, BlockCount(|input|) + 1)| == 8 * (BlockCount(|input|) + 1)
  {
  }

  lemma HeaderRoom(f: seq<byte>)
    requires HeaderOk(f, BASE)
    ensures BASE + HEADER_SIZE <= |f|
  {
    hide Word;
  }

  lemma VerifyAdvances(w: World, s: State) returns (t: State)
    requires ValidWorld(w) && Underway(w, s) && s.pc.VerifyRun?
    ensures PublishStep(w, s, t) && t.pc != s.pc
  {
    hide Inv, ValidWorld, HeaderOk, Blocks, BlockOk, BlockCount, LogicalSize;
    Verifying(w, s);
    StageBlocks(w, s);
    HeaderRoom(s.pfs.value.now);
    var i, f := s.pc.i, s.pfs.value.now;
    if i < Blocks(f, BASE) {
      var next := i + Min(Blocks(f, BASE) - i, PfscVerify.WINDOW);
      var m := s.mem.(phase := R.Verify, verifyNext := next);
      t := s.(mem := m, journal := m, pc := VerifyRun(next));
      assert VerifyWindow(w, s, t);
    } else {
      var m := s.mem.(phase := R.Publish);
      t := s.(mem := m, journal := m, raw := LogicalSize(f, BASE), pc := Trim);
      assert EnterPublish(w, s, t);
    }
  }

  /** The state of a publication that is under way, as far as the next step needs it. */
  lemma Publishing(w: World, s: State)
    requires ValidWorld(w) && Inv(w, s) && s.pc != Down && PhaseAt(s.pc) == R.Publish
    ensures s.pc in {Linked, Unlinked, Swept} || s.output == None
    ensures s.pc !in {Unlinked, Swept} ==> s.pfs.Some?
    ensures s.pc == Trim ==> s.mem.packStored >= BLOCK
    ensures s.pc.Meta? || s.pc == MetaDraft ==> BASE <= |s.pfs.value.now|
    ensures s.pc.Meta? ==> 0 < s.pc.i <= |META|
  {
    OffsetBounds(w, s.journal.fingerprint, 0);
    TargetShape(w, s.journal);
    hide ValidWorld, Agrees, Target, Packable, Body, BlockCount, DataOffset, Offset, Image, Blank;
  }

  lemma FrontWhole(w: World, name: seq<byte>, a: nat, b: nat)
    requires ValidWorld(w)
    ensures |w.front(name, a, b)| == BASE
  {
  }

  lemma MetaAdvances(w: World, s: State, e: (nat, nat), next: Pc) returns (t: State)
    requires ValidWorld(w) && s.pfs.Some? && BASE <= |s.pfs.value.now| && e.0 <= e.1 <= BASE
    ensures MetaSlice(w, s, t, e, next) && t.pc == next
  {
    hide ValidWorld, WritePfs;
    FrontWhole(w, s.mem.innerName, |s.pfs.value.now| - BASE, s.raw);
    t := PfsAdvances(s, e.0, w.front(s.mem.innerName, |s.pfs.value.now| - BASE, s.raw)[e.0..e.1], next);
  }

  lemma PublishAdvances(w: World, s: State) returns (t: State)
    requires ValidWorld(w) && Underway(w, s) && s.pc != Down && PhaseAt(s.pc) == R.Publish
    ensures Calm(w, s, t) && t.pc != s.pc
  {
    hide Inv, ValidWorld, MetaSlice, Wrote, Put, Resize;
    Publishing(w, s);
    match s.pc
    case Trim =>
      var d := s.pfs.value;
      t := s.(pfs := Some(Disk(Resize(d.now, BASE + s.mem.packStored), d.hard)), pc := MetaDraft);
      assert TrimPfs(w, s, t);
    case MetaDraft =>
      var d := Zeros(META[0].1);
      PendingWrote(s.pfs.value, 0, d);
      t := s.(pfs := Some(Pending(s.pfs.value, 0, d)), pc := Meta(1));
      assert DraftHeader(w, s, t, d);
    case Meta(i) =>
      if i < |META| {
        t := MetaAdvances(w, s, META[i], Meta(i + 1));
        assert WriteMeta(w, s, t);
      } else {
        t := MetaAdvances(w, s, META[0], Sealed);
        assert SealHeader(w, s, t);
      }
    case Sealed =>
      t := s.(pfs := Some(Synced(s.pfs.value)), pc := Conversion.Ready);
      assert SyncPfs(w, s, t);
    case Ready =>
      t := s.(output := Some(s.pfs.value.now), pc := Linked);
      assert Link(w, s, t);
    case Linked =>
      t := s.(pfs := None, pc := Unlinked);
      assert Unlink(w, s, t);
    case Unlinked =>
      t := s.(exfat := None, pc := Swept);
      assert Sweep(w, s, t);
    case Swept =>
      var m := s.mem.(phase := R.Done);
      t := s.(mem := m, journal := m, pc := Down);
      assert Complete(w, s, t);
  }

  /** Some step leads on. */
  lemma CalmAdvances(w: World, s: State) returns (t: State)
    requires ValidWorld(w) && Underway(w, s)
    ensures Calm(w, s, t) && t.pc != s.pc
  {
    hide ValidWorld, Underway, StartStep, ExfatStep, PackStep, PublishStep;
    if s.pc == Down { t := DownAdvances(w, s); }
    else if PhaseAt(s.pc) == R.Exfat { t := ExfatAdvances(w, s); }
    else if PackPlace(s.pc) { t := PackAdvances(w, s); }
    else if s.pc.VerifyRun? { t := VerifyAdvances(w, s); }
    else { t := PublishAdvances(w, s); }
  }

  /** A start is accepted in exactly these cases. */
  lemma StartsExactly(w: World, s: State)
    requires ValidWorld(w) && Inv(w, s) && RecordInv(w, s) && s.pc == Down
    requires s.journal.phase == R.Exfat ==> Packable(|w.image(s.source)|)
    ensures Startable(w, s) <==> exists t :: StartStep(w, s, t)
  {
    hide ValidWorld, Inv, RecordInv;
    if Startable(w, s) {
      var t := DownAdvances(w, s);
    }
    forall t | StartStep(w, s, t) ensures Startable(w, s) {
      StartedFrom(w, s, t);
    }
  }

  lemma StartedFrom(w: World, s: State, t: State)
    requires StartStep(w, s, t) && (s.journal.phase == R.Exfat ==> Packable(|w.image(s.source)|))
    ensures Startable(w, s)
  {
    hide StageThere, Cut, Readable, Entry, DataOffset, BlockCount, Packable;
  }

  // ---------------------------------------------------------------- whole runs

  ghost predicate IsCalm(w: World, run: seq<State>) {
    run != [] && forall k :: 0 <= k < |run| - 1 ==> Calm(w, run[k], run[k + 1])
  }

  lemma DoneIsIdle(w: World, s: State, t: State, goal: (nat, seq<byte>))
    requires Done(w, s, goal)
    ensures !Calm(w, s, t)
  {
    hide Published;
  }

  /** In every undisturbed run: the goal stays, and until it is reached the run is under way. */
  lemma {:induction false} CalmRun(w: World, run: seq<State>, k: nat)
    requires ValidWorld(w) && IsCalm(w, run) && Underway(w, run[0]) && k < |run|
    ensures Done(w, run[k], Goal(run[0])) || (Underway(w, run[k]) && Goal(run[k]) == Goal(run[0]))
    ensures Work(w, run[k]) <= Work(w, run[0])
  {
    hide ValidWorld, Inv, RecordInv, Active, Calm, Done, Work, Goal, CheckpointFile;
    if k > 0 {
      CalmRun(w, run, k - 1);
      assert Calm(w, run[k - 1], run[k - 1 + 1]);
      if Done(w, run[k - 1], Goal(run[0])) {
        DoneIsIdle(w, run[k - 1], run[k], Goal(run[0]));
      } else {
        CalmNearer(w, run[k - 1], run[k]);
      }
    }
  }

  /** A run that is left alone can only stop with the finished file under the final name. */
  lemma UndisturbedConversionPublishes(w: World, run: seq<State>, k: nat)
    requires ValidWorld(w) && IsCalm(w, run) && Underway(w, run[0]) && k < |run|
    ensures (forall t :: !Calm(w, run[k], t)) <==> Done(w, run[k], Goal(run[0]))
  {
    hide ValidWorld, Underway, Calm, Done, Work;
    CalmRun(w, run, k);
    if Done(w, run[k], Goal(run[0])) {
      forall t ensures !Calm(w, run[k], t) { DoneIsIdle(w, run[k], t, Goal(run[0])); }
    } else {
      var t := CalmAdvances(w, run[k]);
    }
  }

  /** The number of checkpoints between files. */
  ghost function Checkpoints(w: World, run: seq<State>): nat {
    if |run| <= 1 then 0
    else Checkpoints(w, run[..|run| - 1]) + (if CheckpointFile(w, run[|run| - 2], run[|run| - 1]) then 1 else 0)
  }

  /** And it does stop: apart from checkpoints between files, a run is no longer than the work it started with. */
  lemma {:induction false} UndisturbedRunsEnd(w: World, run: seq<State>)
    requires ValidWorld(w) && IsCalm(w, run) && Underway(w, run[0])
    ensures |run| - 1 + Work(w, run[|run| - 1]) <= Work(w, run[0]) + Checkpoints(w, run)
    decreases |run|
  {
    hide ValidWorld, Inv, RecordInv, Active, Calm, Done, Work, Goal, CheckpointFile;
    var n := |run| - 1;
    if n > 0 {
      var r := run[..n];
      forall k | 0 <= k < |r| - 1 ensures Calm(w, r[k], r[k + 1]) { assert Calm(w, run[k], run[k + 1]); }
      UndisturbedRunsEnd(w, r);
      CalmRun(w, run, n - 1);
      assert Calm(w, run[n - 1], run[n - 1 + 1]);
      if Done(w, run[n - 1], Goal(run[0])) {
        DoneIsIdle(w, run[n - 1], run[n], Goal(run[0]));
      } else {
        CalmNearer(w, run[n - 1], run[n]);
      }
    }
  }

  /** From every state under way, some undisturbed run publishes. */
  lemma {:induction false} Publishes(w: World, s: State) returns (run: seq<State>)
    requires ValidWorld(w) && Underway(w, s)
    ensures IsCalm(w, run) && run[0] == s && Done(w, run[|run| - 1], Goal(s))
    decreases Work(w, s)
  {
    hide ValidWorld, Inv, RecordInv, Active, Calm, Done, Work, Goal;
    var t := CalmAdvances(w, s);
    CalmNearer(w, s, t);
    if Done(w, t, Goal(s)) {
      run := [s, t];
    } else {
      run := Publishes(w, t);
      run := [s] + run;
    }
  }

  lemma {:induction false} RunRecord(w: World, run: seq<State>, k: nat)
    requires ValidWorld(w) && IsRun(w, run) && k < |run|
    ensures RecordInv(w, run[k])
  {
    hide ValidWorld, Next, Inv;
    if k > 0 {
      RunRecord(w, run, k - 1);
      RunInv(w, run, k - 1);
      hide RecordInv;
      assert Next(w, run[k - 1], run[k - 1 + 1]);
      StepRecord(w, run[k - 1], run[k]);
    }
  }

  /**
   * After any history of crashes, errors, restarts and source changes: every conversion whose start is accepted is
   * finished by a run that is left alone. Past the exFAT stage every start is accepted, and what is published is the
   * conversion of the source captured in the record, even if the source has changed since.
   */
  lemma InterruptedPublishes(w: World, run: seq<State>, k: nat) returns (more: seq<State>)
    requires ValidWorld(w) && IsRun(w, run) && k < |run| && Startable(w, run[k])
    ensures IsCalm(w, more) && more[0] == run[k] && Done(w, more[|more| - 1], Goal(run[k]))
  {
    hide ValidWorld, IsRun, Inv, RecordInv, Startable, Calm, Done, Goal;
    RunInv(w, run, k);
    RunRecord(w, run, k);
    assert run[k].pc == Down by { StartableDown(w, run[k]); }
    more := Publishes(w, run[k]);
  }

  lemma StartableDown(w: World, s: State)
    requires Startable(w, s)
    ensures s.pc == Down
  {
  }
}
