/**
 * The resumable conversion as a machine whose steps are single file operations. A crash, an
 * error exit, or a change of the source may happen between any two steps.
 */
module Conversion {
  import opened Bytes
  import opened Disks
  import opened Pfsc
  import PfscVerify
  import R = Resume

  /** The packed stream starts behind six 64 KiB blocks of PFS metadata. */
  const BASE: nat := 6 * 0x1_0000

  /** Where publication writes metadata: header, inodes, root directory, path table, uroot. */
  const META: seq<(nat, nat)> :=
    [(0, 0x1_0000), (0x1_0000, 0x1_0000 + 4 * 0xA8), (0x2_0000, 0x3_0000), (0x3_0000, 0x3_0008), (0x5_0000, 0x6_0000)]

  /**
   * What a conversion computes, as functions of the fingerprint of the captured source: the exFAT
   * image, the extents its structures and its files are written to, and the PFS metadata for an
   * inner name, a packed size and a logical size.
   */
  datatype World = World(
    c: Codec,
    image: nat -> seq<byte>,
    prologue: nat -> seq<(nat, nat)>,
    files: nat -> seq<(nat, nat)>,
    front: (seq<byte>, nat, nat) -> seq<byte>)

  datatype Pc =
    | Down
    | ExPrologue(i: nat) | ExFiles(i: nat) | ExDone | ExCleared
    | PackFresh | PackRun(i: nat, from: nat) | PackTable(i: nat) | PackDone
    | VerifyRun(i: nat)
    | Trim | MetaDraft | Meta(i: nat) | Sealed | Ready
    | Linked | Unlinked | Swept

  datatype State = State(
    source: nat,
    title: seq<byte>,
    journal: R.State,
    mem: R.State,
    raw: nat,
    pc: Pc,
    exfat: Option<Disk>,
    pfs: Option<Disk>,
    output: Option<seq<byte>>)

  // ---------------------------------------------------------------- regions

  /** Bytes in front of the stream that no publication ever writes. */
  ghost function MetaGap(): iset<nat> { iset p: nat | p < BASE && !InSome(p, META, 0, |META|) }

  function Count(w: World, fp: nat): nat { BlockCount(|w.image(fp)|) }

  function Stream(w: World, fp: nat): seq<byte> { Image(w.c, w.image(fp)) }

  /** The finished file for a captured source and inner name. */
  function Published(w: World, fp: nat, name: seq<byte>): seq<byte> {
    w.front(name, |Stream(w, fp)|, Count(w, fp) * BLOCK) + Stream(w, fp)
  }

  function Target(w: World, m: R.State): seq<byte> { Published(w, m.fingerprint, m.innerName) }

  /** Header, `m` table entries, the gap behind the table, and `k` blocks. */
  ghost function Packed(w: World, fp: nat, m: nat, k: nat): iset<nat>
    requires k <= Count(w, fp)
  {
    Span(BASE, BASE + TABLE_AT + 8 * m) +
    Span(BASE + TABLE_AT + TableBytes(Count(w, fp)), BASE + Offset(w.c, w.image(fp), k))
  }

  ghost function Body(w: World, fp: nat): iset<nat> { Span(BASE, BASE + |Stream(w, fp)|) }

  function Entries(from: nat): nat { if from == 0 then 0 else from + 1 }

  ghost predicate ValidWorld(w: World) {
    && Lossless(w.c)
    && (forall fp :: ValidExtents(w.prologue(fp), |w.image(fp)|))
    && (forall fp :: ValidExtents(w.files(fp), |w.image(fp)|))
    && (forall fp, p: nat :: p < |w.image(fp)| ==>
          InSome(p, w.prologue(fp), 0, |w.prologue(fp)|) || InSome(p, w.files(fp), 0, |w.files(fp)|))
    && (forall name, a, b :: |w.front(name, a, b)| == BASE && Blank(w.front(name, a, b), MetaGap()))
  }

  // ---------------------------------------------------------------- steps: starting

  ghost predicate MayStart(s: State) {
    s.pc == Down && s.output == None && s.source != 0
  }

  /** A run begins in phase EXFAT with nothing durable: the stage is recreated empty. */
  ghost predicate StartNew(w: World, s: State, t: State) {
    && MayStart(s) && s.journal.phase == R.Exfat && s.journal.nextFile == 0
    && (s.journal.fingerprint == 0 || s.journal.fingerprint == s.source)
    && t == s.(exfat := Some(Disk([], [])), pc := ExPrologue(0),
               mem := s.journal.(innerName := s.title, fingerprint := s.source, exfatSize := |w.image(s.source)|,
                                 fileCount := |w.files(s.source)|))
  }

  /** A run continues a stage whose size is exactly the one recorded with the last checkpoint. */
  ghost predicate StartExfat(w: World, s: State, t: State) {
    && MayStart(s) && s.journal.phase == R.Exfat && 0 < s.journal.nextFile <= s.journal.fileCount
    && (s.journal.fingerprint == 0 || s.journal.fingerprint == s.source) && s.journal.fileCount == |w.files(s.source)|
    && s.exfat.Some? && 0 < |s.exfat.value.now| == s.journal.stageSize <= |w.image(s.source)|
    && t == s.(pc := ExFiles(s.journal.nextFile),
               mem := s.journal.(innerName := s.title, fingerprint := s.source, exfatSize := |w.image(s.source)|))
  }

  ghost predicate StageThere(s: State, m: R.State) {
    s.exfat.Some? && (m.exfatSize == 0 || |s.exfat.value.now| == m.exfatSize)
  }

  function OrEmpty(d: Option<Disk>): Option<Disk> { if d.Some? then d else Some(Disk([], [])) }

  ghost predicate StartPack(w: World, s: State, t: State) {
    && MayStart(s) && s.journal.phase == R.Pack && s.journal.packNext == 0 && StageThere(s, s.journal)
    && Packable(|s.exfat.value.now|)
    && t == s.(pc := PackFresh, mem := s.journal, pfs := OrEmpty(s.pfs))
  }

  /** The recorded offsets must be found on the stage, which is then cut back to the record. */
  ghost predicate ResumePack(w: World, s: State, t: State) {
    && MayStart(s) && s.journal.phase == R.Pack && s.journal.packNext > 0 && StageThere(s, s.journal)
    && var n, k := BlockCount(|s.exfat.value.now|), s.journal.packNext;
       && Packable(|s.exfat.value.now|) && k <= n && s.journal.packStored >= DataOffset(n)
       && s.pfs.Some? && Readable(s.pfs.value.now, BASE, k) && Readable(s.pfs.value.now, BASE, 0)
       && Entry(s.pfs.value.now, BASE, 0) == DataOffset(n) && Entry(s.pfs.value.now, BASE, k) == s.journal.packStored
       && t.pfs.Some? && Cut(s.pfs.value, BASE + s.journal.packStored, t.pfs.value)
       && t == s.(pc := PackRun(k, k), mem := s.journal, pfs := t.pfs)
  }

  ghost predicate StartVerify(w: World, s: State, t: State) {
    && MayStart(s) && s.journal.phase == R.Verify && StageThere(s, s.journal)
    && t == s.(pc := VerifyRun(s.journal.verifyNext), mem := s.journal, pfs := OrEmpty(s.pfs))
  }

  /** An interrupted publication is verified again from the first block. */
  ghost predicate StartPublish(w: World, s: State, t: State) {
    && MayStart(s) && s.journal.phase == R.Publish && StageThere(s, s.journal)
    && var m := s.journal.(phase := R.Verify, verifyNext := 0);
       t == s.(pc := VerifyRun(0), mem := m, journal := m, pfs := OrEmpty(s.pfs))
  }

  // ---------------------------------------------------------------- steps: building the exFAT stage

  ghost predicate WriteExfat(w: World, s: State, t: State, e: (nat, nat), next: Pc, m: R.State) {
    && s.exfat.Some? && t.exfat.Some? && e.0 <= e.1 <= |w.image(s.mem.fingerprint)|
    && Wrote(s.exfat.value, e.0, w.image(s.mem.fingerprint)[e.0..e.1], t.exfat.value)
    && t == s.(exfat := t.exfat, pc := next, mem := m)
  }

  ghost predicate WritePrologue(w: World, s: State, t: State) {
    && s.pc.ExPrologue? && s.pc.i < |w.prologue(s.mem.fingerprint)|
    && WriteExfat(w, s, t, w.prologue(s.mem.fingerprint)[s.pc.i], ExPrologue(s.pc.i + 1), s.mem)
  }

  ghost predicate WriteFile(w: World, s: State, t: State) {
    && s.pc.ExFiles? && s.pc.i < |w.files(s.mem.fingerprint)|
    && WriteExfat(w, s, t, w.files(s.mem.fingerprint)[s.pc.i], ExFiles(s.pc.i + 1), s.mem.(nextFile := s.pc.i + 1))
  }

  /** Synchronize the stage, record its size, and make the record durable. */
  ghost predicate SaveExfat(s: State, t: State, next: Pc) {
    && s.exfat.Some?
    && var m := s.mem.(stageSize := |s.exfat.value.now|);
       t == s.(exfat := Some(Synced(s.exfat.value)), mem := m, journal := m, pc := next)
  }

  ghost predicate EndPrologue(w: World, s: State, t: State) {
    s.pc.ExPrologue? && s.pc.i == |w.prologue(s.mem.fingerprint)| && SaveExfat(s, t, ExFiles(0))
  }

  ghost predicate CheckpointFile(w: World, s: State, t: State) { s.pc.ExFiles? && SaveExfat(s, t, s.pc) }

  ghost predicate EndFiles(w: World, s: State, t: State) {
    s.pc.ExFiles? && s.pc.i == |w.files(s.mem.fingerprint)| && SaveExfat(s, t, ExDone)
  }

  ghost predicate ClearPfs(w: World, s: State, t: State) {
    s.pc == ExDone && t == s.(pfs := None, pc := ExCleared)
  }

  ghost predicate EnterPack(w: World, s: State, t: State) {
    && s.pc == ExCleared && StageThere(s, s.mem) && Packable(|s.exfat.value.now|)
    && var m := s.mem.(phase := R.Pack, packNext := 0, packStored := 0, verifyNext := 0);
       t == s.(mem := m, journal := m, pfs := OrEmpty(s.pfs), pc := PackFresh)
  }

  // ---------------------------------------------------------------- steps: packing

  ghost predicate WritePfs(s: State, t: State, at: nat, d: seq<byte>, next: Pc) {
    && s.pfs.Some? && t.pfs.Some? && Wrote(s.pfs.value, at, d, t.pfs.value)
    && t == s.(pfs := t.pfs, pc := next)
  }

  ghost predicate PackHeader(w: World, s: State, t: State) {
    && s.pc == PackFresh && s.exfat.Some?
    && WritePfs(s, t, BASE, Front(w.c, s.exfat.value.now, 0), PackRun(0, 0))
  }

  ghost predicate PackBlock(w: World, s: State, t: State) {
    && s.pc.PackRun? && s.exfat.Some? && s.pc.i < BlockCount(|s.exfat.value.now|)
    && var input := s.exfat.value.now;
       WritePfs(s, t, BASE + Offset(w.c, input, s.pc.i), Stored(w.c, Chunk(input, s.pc.i)),
           PackRun(s.pc.i + 1, s.pc.from))
  }

  ghost predicate TableSlice(w: World, s: State, t: State, lo: nat, hi: nat, next: Pc) {
    && s.exfat.Some?
    && var input := s.exfat.value.now;
       && lo <= hi <= BlockCount(|input|) + 1
       && WritePfs(s, t, BASE + TABLE_AT + 8 * lo, Table(w.c, input, BlockCount(|input|) + 1)[8 * lo..8 * hi], next)
  }

  ghost predicate WriteEntries(w: World, s: State, t: State) {
    s.pc.PackRun? && s.pc.from < s.pc.i && TableSlice(w, s, t, s.pc.from, s.pc.i + 1, PackTable(s.pc.i))
  }

  ghost predicate SavePack(w: World, s: State, t: State) {
    && s.pc.PackTable? && s.exfat.Some? && s.pfs.Some? && s.pc.i <= BlockCount(|s.exfat.value.now|)
    && var m := s.mem.(phase := R.Pack, packNext := s.pc.i, packStored := Offset(w.c, s.exfat.value.now, s.pc.i));
       t == s.(pfs := Some(Synced(s.pfs.value)), mem := m, journal := m, pc := PackRun(s.pc.i, s.pc.i))
  }

  ghost predicate WriteTable(w: World, s: State, t: State) {
    && s.pc.PackRun? && s.exfat.Some? && s.pc.i == BlockCount(|s.exfat.value.now|)
    && TableSlice(w, s, t, 0, s.pc.i + 1, PackDone)
  }

  ghost predicate EnterVerify(w: World, s: State, t: State) {
    && s.pc == PackDone && s.exfat.Some? && s.pfs.Some?
    && var n := BlockCount(|s.exfat.value.now|);
       var m := s.mem.(phase := R.Verify, packNext := n, packStored := Offset(w.c, s.exfat.value.now, n),
           verifyNext := 0);
       t == s.(pfs := Some(Synced(s.pfs.value)), mem := m, journal := m, pc := VerifyRun(0))
  }

  // ---------------------------------------------------------------- steps: verifying and publishing

  ghost predicate VerifyWindow(w: World, s: State, t: State) {
    && s.pc.VerifyRun? && s.pfs.Some? && HeaderOk(s.pfs.value.now, BASE) && s.pc.i < Blocks(s.pfs.value.now, BASE)
    && var next := s.pc.i + Min(Blocks(s.pfs.value.now, BASE) - s.pc.i, PfscVerify.WINDOW);
       && BlocksOk(w.c, s.pfs.value.now, BASE, s.pc.i, next)
       && var m := s.mem.(phase := R.Verify, verifyNext := next);
          t == s.(mem := m, journal := m, pc := VerifyRun(next))
  }

  ghost predicate EnterPublish(w: World, s: State, t: State) {
    && s.pc.VerifyRun? && s.pfs.Some? && HeaderOk(s.pfs.value.now, BASE) && s.pc.i == Blocks(s.pfs.value.now, BASE)
    && var m := s.mem.(phase := R.Publish);
       t == s.(mem := m, journal := m, raw := LogicalSize(s.pfs.value.now, BASE), pc := Trim)
  }

  ghost predicate TrimPfs(w: World, s: State, t: State) {
    && s.pc == Trim && s.pfs.Some? && t.pfs.Some? && s.mem.packStored >= BLOCK
    && Cut(s.pfs.value, BASE + s.mem.packStored, t.pfs.value)
    && t == s.(pfs := t.pfs, pc := MetaDraft)
  }

  /** The first header write still lacks the final block count; any 64 KiB are allowed here. */
  ghost predicate DraftHeader(w: World, s: State, t: State, d: seq<byte>) {
    s.pc == MetaDraft && |d| == META[0].1 && WritePfs(s, t, 0, d, Meta(1))
  }

  ghost predicate MetaSlice(w: World, s: State, t: State, e: (nat, nat), next: Pc) {
    && s.pfs.Some? && BASE <= |s.pfs.value.now|
    && var front := w.front(s.mem.innerName, |s.pfs.value.now| - BASE, s.raw);
       e.0 <= e.1 <= |front| && WritePfs(s, t, e.0, front[e.0..e.1], next)
  }

  ghost predicate WriteMeta(w: World, s: State, t: State) {
    s.pc.Meta? && 0 < s.pc.i < |META| && MetaSlice(w, s, t, META[s.pc.i], Meta(s.pc.i + 1))
  }

  ghost predicate SealHeader(w: World, s: State, t: State) {
    s.pc.Meta? && s.pc.i == |META| && MetaSlice(w, s, t, META[0], Sealed)
  }

  ghost predicate SyncPfs(w: World, s: State, t: State) {
    s.pc == Sealed && s.pfs.Some? && t == s.(pfs := Some(Synced(s.pfs.value)), pc := Ready)
  }

  /** The final name appears by a link that refuses to replace anything. */
  ghost predicate Link(w: World, s: State, t: State) {
    s.pc == Ready && s.pfs.Some? && s.output == None && t == s.(output := Some(s.pfs.value.now), pc := Linked)
  }

  ghost predicate Unlink(w: World, s: State, t: State) { s.pc == Linked && t == s.(pfs := None, pc := Unlinked) }

  /** When the stage name cannot be removed, the final name is withdrawn. */
  ghost predicate Withdraw(w: World, s: State, t: State) { s.pc == Linked && t == s.(output := None, pc := Down) }

  ghost predicate Sweep(w: World, s: State, t: State) { s.pc == Unlinked && t == s.(exfat := None, pc := Swept) }

  ghost predicate Complete(w: World, s: State, t: State) {
    s.pc == Swept && var m := s.mem.(phase := R.Done); t == s.(mem := m, journal := m, pc := Down)
  }

  // ---------------------------------------------------------------- steps: crash, error exit, surroundings

  function AfterCrash(d: Option<Disk>): Option<Disk> { if d.Some? then Some(Crashed(d.value)) else None }

  ghost predicate Crash(s: State, t: State) {
    t == s.(exfat := AfterCrash(s.exfat), pfs := AfterCrash(s.pfs), pc := Down, mem := t.mem, raw := t.raw)
  }

  /** Any error or cancellation ends the run; the files stay as they are. */
  ghost predicate Quit(s: State, t: State) { t == s.(pc := Down) }

  ghost predicate SourceChanges(s: State, t: State) { t == s.(source := t.source, title := t.title) }

  ghost predicate StartStep(w: World, s: State, t: State) {
    StartNew(w, s, t) || StartExfat(w, s, t) || StartPack(w, s, t) || ResumePack(w, s, t) || StartVerify(w, s, t)
        || StartPublish(w, s, t)
  }

  ghost predicate ExfatStep(w: World, s: State, t: State) {
    WritePrologue(w, s, t) || EndPrologue(w, s, t) || WriteFile(w, s, t) || CheckpointFile(w, s, t)
        || EndFiles(w, s, t) ||
    ClearPfs(w, s, t) || EnterPack(w, s, t)
  }

  ghost predicate PackStep(w: World, s: State, t: State) {
    PackHeader(w, s, t) || PackBlock(w, s, t) || WriteEntries(w, s, t) || SavePack(w, s, t) || WriteTable(w, s, t)
        || EnterVerify(w, s, t)
  }

  ghost predicate PublishStep(w: World, s: State, t: State) {
    VerifyWindow(w, s, t) || EnterPublish(w, s, t) || TrimPfs(w, s, t) || (exists d :: DraftHeader(w, s, t, d)) ||
    WriteMeta(w, s, t) || SealHeader(w, s, t) || SyncPfs(w, s, t)
  }

  ghost predicate FinalStep(w: World, s: State, t: State) {
    Link(w, s, t) || Unlink(w, s, t) || Withdraw(w, s, t) || Sweep(w, s, t) || Complete(w, s, t)
  }

  ghost predicate Next(w: World, s: State, t: State) {
    StartStep(w, s, t) || ExfatStep(w, s, t) || PackStep(w, s, t) || PublishStep(w, s, t) || FinalStep(w, s, t) ||
    Crash(s, t) || Quit(s, t) || SourceChanges(s, t)
  }

  /** Nothing converted yet: a fresh record, no output. Leftover stage files may exist. */
  ghost predicate Init(s: State) {
    && s.pc == Down && s.output == None
    && s.journal.phase == R.Exfat && s.journal.nextFile == 0 && s.journal.fingerprint == 0
  }

  // ---------------------------------------------------------------- the invariant

  ghost predicate Bounded(d: Disk, size: nat) { |d.now| <= size && |d.hard| <= size }

  /** The exFAT stage holds everything but the files from the `i`-th on. */
  ghost predicate ExHeld(w: World, fp: nat, d: Disk, i: nat) {
    Bounded(d, |w.image(fp)|) && i <= |w.files(fp)| && Agrees(d.now, w.image(fp), Outside(w.files(fp), i))
  }

  ghost predicate Built(w: World, fp: nat, exfat: Option<Disk>) {
    exfat == Some(Disk(w.image(fp), w.image(fp)))
  }

  ghost predicate PfsHeld(w: World, j: R.State, d: Disk, r: iset<nat>) {
    BothBlank(d, MetaGap()) && BothAgree(d, Target(w, j), r)
  }

  /** What the durable record promises about both views of the stages. */
  ghost predicate JournalInv(w: World, j: R.State, exfat: Option<Disk>, pfs: Option<Disk>) {
    match j.phase
    case Exfat =>
      j.nextFile > 0 ==>
        j.fingerprint != 0 && exfat.Some? && ExHeld(w, j.fingerprint, exfat.value, j.nextFile)
        && Agrees(exfat.value.hard, w.image(j.fingerprint), Outside(w.files(j.fingerprint), j.nextFile))
    case Pack =>
      && Built(w, j.fingerprint, exfat) && Packable(|w.image(j.fingerprint)|)
      && (pfs.Some? ==> BothBlank(pfs.value, MetaGap()))
      && (j.packNext > 0 ==>
            && pfs.Some? && j.packNext <= Count(w, j.fingerprint)
            && j.packStored == Offset(w.c, w.image(j.fingerprint), j.packNext)
            && PfsHeld(w, j, pfs.value, Packed(w, j.fingerprint, j.packNext + 1, j.packNext)))
    case Done => true
    case _ =>
      && Built(w, j.fingerprint, exfat) && Packable(|w.image(j.fingerprint)|) && pfs.Some?
      && j.packStored == |Stream(w, j.fingerprint)| && PfsHeld(w, j, pfs.value, Body(w, j.fingerprint))
  }

  ghost predicate SameCapture(m: R.State, j: R.State) {
    m.fingerprint == j.fingerprint && m.innerName == j.innerName && m.packStored == j.packStored
  }

  ghost predicate ExfatPc(w: World, s: State) {
    && s.mem.fingerprint != 0 && s.journal.phase == R.Exfat && s.mem.phase == R.Exfat
    && (s.journal.fingerprint == 0 || s.journal.fingerprint == s.mem.fingerprint)
    && s.exfat.Some? && Bounded(s.exfat.value, |w.image(s.mem.fingerprint)|)
    && s.mem.exfatSize == |w.image(s.mem.fingerprint)|
  }

  ghost predicate PackPc(w: World, s: State, m: nat, k: nat) {
    && s.journal.phase == R.Pack && s.mem.fingerprint == s.journal.fingerprint && s.mem.innerName == s.journal.innerName
    && s.pfs.Some? && BothBlank(s.pfs.value, MetaGap()) && k <= Count(w, s.journal.fingerprint)
    && Agrees(s.pfs.value.now, Target(w, s.journal), Packed(w, s.journal.fingerprint, m, k))
  }

  ghost predicate PublishPc(w: World, s: State) {
    && s.journal.phase == R.Publish && SameCapture(s.mem, s.journal)
    && s.raw == Count(w, s.journal.fingerprint) * BLOCK
  }

  /** What holds at each point of a run. */
  ghost predicate PcInv(w: World, s: State) {
    match s.pc
    case Down => true
    case ExPrologue(i) =>
      && ExfatPc(w, s) && s.journal.nextFile == 0 && s.mem.nextFile == 0 && i <= |w.prologue(s.mem.fingerprint)|
      && Agrees(s.exfat.value.now, w.image(s.mem.fingerprint), Extents(w.prologue(s.mem.fingerprint), 0, i))
    case ExFiles(i) =>
      && ExfatPc(w, s) && s.mem.nextFile == i && s.journal.nextFile <= i
      && ExHeld(w, s.mem.fingerprint, s.exfat.value, i)
      && (s.journal.nextFile > 0 ==> s.journal.fingerprint == s.mem.fingerprint)
    case ExDone => ExfatPc(w, s) && Built(w, s.mem.fingerprint, s.exfat)
    case ExCleared => ExfatPc(w, s) && Built(w, s.mem.fingerprint, s.exfat) && s.pfs == None
    case PackFresh =>
      && s.journal.phase == R.Pack && s.journal.packNext == 0 && s.pfs.Some?
      && s.mem.fingerprint == s.journal.fingerprint && s.mem.innerName == s.journal.innerName
    case PackRun(i, from) => PackPc(w, s, Entries(from), i) && s.journal.packNext == from <= i
    case PackTable(i) => PackPc(w, s, i + 1, i) && s.journal.packNext < i
    case PackDone =>
      && s.journal.phase == R.Pack && s.mem.fingerprint == s.journal.fingerprint
      && s.mem.innerName == s.journal.innerName
      && s.pfs.Some? && Agrees(s.pfs.value.now, Target(w, s.journal), Body(w, s.journal.fingerprint))
    case VerifyRun(i) => s.journal.phase == R.Verify && SameCapture(s.mem, s.journal)
    case Trim => PublishPc(w, s)
    case MetaDraft => PublishPc(w, s) && s.pfs.Some? && |s.pfs.value.now| == |Target(w, s.journal)|
    case Meta(i) =>
      && PublishPc(w, s) && s.pfs.Some? && |s.pfs.value.now| == |Target(w, s.journal)| && 0 < i <= |META|
      && Agrees(s.pfs.value.now, Target(w, s.journal), Extents(META, 1, i))
    case Sealed => PublishPc(w, s) && s.pfs.Some? && s.pfs.value.now == Target(w, s.journal)
    case Ready => PublishPc(w, s) && s.pfs == Some(Disk(Target(w, s.journal), Target(w, s.journal)))
    case Linked => PublishPc(w, s) && s.pfs == Some(Disk(Target(w, s.journal), Target(w, s.journal)))
                   && s.output == Some(Target(w, s.journal)) && JournalInv(w, s.journal, s.exfat, s.pfs)
    case _ => PublishPc(w, s) && s.output == Some(Target(w, s.journal))
  }

  ghost predicate Inv(w: World, s: State) {
    && PcInv(w, s)
    && (s.output.None? ==> JournalInv(w, s.journal, s.exfat, s.pfs))
    && (s.output.Some? ==> s.output.value == Target(w, s.journal) && Packable(|w.image(s.journal.fingerprint)|)
                           && s.pc in {Down, Linked, Unlinked, Swept})
  }
}
