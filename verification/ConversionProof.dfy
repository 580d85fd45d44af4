/** Every step of the conversion keeps its invariant, and what follows for whole runs. */
module ConversionProof {
  import opened Bytes
  import opened Disks
  import opened Pfsc
  import opened Conversion
  import PfscPack
  import R = Resume

  // ---------------------------------------------------------------- regions and slices

  lemma TargetShape(w: World, m: R.State)
    requires ValidWorld(w)
    ensures |Target(w, m)| == BASE + |Stream(w, m.fingerprint)|
    ensures Target(w, m)[BASE..] == Stream(w, m.fingerprint)
    ensures Blank(Target(w, m), MetaGap())
  {
    hide Image, BlockCount;
    var front := w.front(m.innerName, |Stream(w, m.fingerprint)|, Count(w, m.fingerprint) * BLOCK);
    assert |front| == BASE;
    forall p: nat | p in MetaGap() ensures Target(w, m)[p] == front[p] {}
  }

  lemma TargetSlice(w: World, m: R.State, lo: nat, hi: nat)
    requires ValidWorld(w) && lo <= hi <= |Stream(w, m.fingerprint)|
    ensures BASE + hi <= |Target(w, m)|
    ensures Target(w, m)[BASE + lo..BASE + hi] == Stream(w, m.fingerprint)[lo..hi]
  {
    hide Image, Target, ValidWorld;
    TargetShape(w, m);
    var t := Target(w, m);
    assert t[BASE..BASE + |Stream(w, m.fingerprint)|] == t[BASE..];
    SubSlice(t, BASE, Stream(w, m.fingerprint), lo, hi);
  }

  lemma StreamBlock(w: World, fp: nat, i: nat)
    requires i < Count(w, fp)
    ensures Offset(w.c, w.image(fp), i) <= Offset(w.c, w.image(fp), i + 1) <= |Stream(w, fp)|
    ensures Stream(w, fp)[Offset(w.c, w.image(fp), i)..Offset(w.c, w.image(fp), i + 1)]
      == Stored(w.c, Chunk(w.image(fp), i))
    ensures Offset(w.c, w.image(fp), i + 1) == Offset(w.c, w.image(fp), i) + |Stored(w.c, Chunk(w.image(fp), i))|
  {
    hide Image, Offset, Stored, Chunk;
    var s := Stream(w, fp);
    assert s[0..|s|] == s;
    PfscPack.ImageSize(w.c, w.image(fp));
    CarriedPayload(w.c, w.image(fp), s, 0, i) by { WholeCarries(w, fp); }
    PayloadSteps(w.c, w.image(fp), i);
  }

  lemma WholeCarries(w: World, fp: nat)
    ensures Carries(w.c, w.image(fp), Stream(w, fp), 0)
  {
  }

  lemma StreamTable(w: World, fp: nat, lo: nat, hi: nat)
    requires lo <= hi <= Count(w, fp) + 1
    ensures TABLE_AT + 8 * hi <= |Stream(w, fp)|
    ensures Stream(w, fp)[TABLE_AT + 8 * lo..TABLE_AT + 8 * hi] ==
            Table(w.c, w.image(fp), Count(w, fp) + 1)[8 * lo..8 * hi]
  {
    hide Image, Table, Front;
    TableInImage(w.c, w.image(fp));
    SubSlice(Stream(w, fp), TABLE_AT, Table(w.c, w.image(fp), Count(w, fp) + 1), 8 * lo, 8 * hi);
  }

  lemma OffsetBounds(w: World, fp: nat, k: nat)
    requires k <= Count(w, fp)
    ensures DataOffset(Count(w, fp)) <= Offset(w.c, w.image(fp), k) <= |Stream(w, fp)|
    ensures Offset(w.c, w.image(fp), Count(w, fp)) == |Stream(w, fp)|
    ensures Offset(w.c, w.image(fp), 0) == DataOffset(Count(w, fp))
    ensures TABLE_AT + TableBytes(Count(w, fp)) <= DataOffset(Count(w, fp)) && BLOCK <= DataOffset(Count(w, fp))
  {
    hide Front, DataOffset;
    PfscPack.PayloadPrefix(w.c, w.image(fp), k, Count(w, fp));
  }

  lemma MetaGapApart()
    ensures forall at: nat, n: nat :: at >= BASE ==> MetaGap() !! Span(at, n)
    ensures forall k :: 0 <= k < |META| ==> MetaGap() !! Span(META[k].0, META[k].1)
  {
    forall at: nat, n: nat | at >= BASE ensures MetaGap() !! Span(at, n) {
      forall p | p in MetaGap() ensures p !in Span(at, n) {}
    }
    forall k | 0 <= k < |META| ensures MetaGap() !! Span(META[k].0, META[k].1) {
      forall p | p in MetaGap() ensures p !in Span(META[k].0, META[k].1) {}
    }
  }

  // ---------------------------------------------------------------- exFAT steps

  lemma StartNewInv(w: World, s: State, t: State)
    requires ValidWorld(w) && Inv(w, s) && StartNew(w, s, t)
    ensures Inv(w, t)
  {
    hide ValidWorld, Target, Blank;
    forall p | p in Extents(w.prologue(t.mem.fingerprint), 0, 0) ensures false {}
  }

  lemma StartExfatInv(w: World, s: State, t: State)
    requires ValidWorld(w) && Inv(w, s) && StartExfat(w, s, t)
    ensures Inv(w, t)
  {
    hide ValidWorld, Target, Blank, Agrees;
  }

  /** Writing one extent of the image keeps the durable record true. */
  lemma ExtentWritten(w: World, s: State, t: State, e: (nat, nat), next: Pc, m: R.State, r: iset<nat>)
    requires ExfatPc(w, s) && WriteExfat(w, s, t, e, next, m) && JournalInv(w, s.journal, s.exfat, s.pfs)
    requires Agrees(s.exfat.value.now, w.image(s.mem.fingerprint), r)
    requires s.journal.nextFile > 0 ==> s.journal.fingerprint == s.mem.fingerprint
    ensures Bounded(t.exfat.value, |w.image(s.mem.fingerprint)|)
    ensures Agrees(t.exfat.value.now, w.image(s.mem.fingerprint), r + Span(e.0, e.1))
    ensures JournalInv(w, t.journal, t.exfat, t.pfs)
  {
    hide Wrote, Agrees, Target;
    var img := w.image(s.mem.fingerprint);
    WriteKeeps(s.exfat.value, img, r, e.0, e.1, t.exfat.value);
    if s.journal.nextFile > 0 {
      var held := Outside(w.files(s.mem.fingerprint), s.journal.nextFile);
      WriteKeeps(s.exfat.value, img, held, e.0, e.1, t.exfat.value);
      AgreesSubset(t.exfat.value.now, img, held + Span(e.0, e.1), held);
    }
  }

  lemma WritePrologueInv(w: World, s: State, t: State)
    requires ValidWorld(w) && Inv(w, s) && WritePrologue(w, s, t)
    ensures Inv(w, t)
  {
    hide ValidWorld, Target, Blank, Agrees, JournalInv, WriteExfat;
    var e, i := w.prologue(s.mem.fingerprint), s.pc.i;
    ExtentWritten(w, s, t, e[i], ExPrologue(i + 1), s.mem, Extents(e, 0, i));
    WroteExfat(w, s, t, e[i], ExPrologue(i + 1), s.mem);
    AgreesSubset(t.exfat.value.now, w.image(s.mem.fingerprint), Extents(e, 0, i) + Span(e[i].0, e[i].1),
        Extents(e, 0, i + 1));
  }

  lemma WroteExfat(w: World, s: State, t: State, e: (nat, nat), next: Pc, m: R.State)
    requires WriteExfat(w, s, t, e, next, m)
    ensures t == s.(exfat := t.exfat, pc := next, mem := m) && t.exfat.Some?
  {
  }

  lemma WriteFileInv(w: World, s: State, t: State)
    requires ValidWorld(w) && Inv(w, s) && WriteFile(w, s, t)
    ensures Inv(w, t)
  {
    hide ValidWorld, Target, Blank, Agrees, JournalInv, WriteExfat;
    var e, i := w.files(s.mem.fingerprint), s.pc.i;
    var m := s.mem.(nextFile := i + 1);
    ExtentWritten(w, s, t, e[i], ExFiles(i + 1), m, Outside(e, i));
    WroteExfat(w, s, t, e[i], ExFiles(i + 1), m);
    forall p | p in Outside(e, i + 1) ensures p in Outside(e, i) + Span(e[i].0, e[i].1) {}
    AgreesSubset(t.exfat.value.now, w.image(s.mem.fingerprint), Outside(e, i) + Span(e[i].0, e[i].1),
        Outside(e, i + 1));
  }

  lemma EndPrologueInv(w: World, s: State, t: State)
    requires ValidWorld(w) && Inv(w, s) && EndPrologue(w, s, t)
    ensures Inv(w, t)
  {
    hide Target, Blank, Agrees;
    var fp := s.mem.fingerprint;
    forall p | p in Outside(w.files(fp), 0) && p < |w.image(fp)|
      ensures p in Extents(w.prologue(fp), 0, |w.prologue(fp)|)
    {
    }
    AgreesSubset(s.exfat.value.now, w.image(fp), Extents(w.prologue(fp), 0, |w.prologue(fp)|), Outside(w.files(fp), 0));
  }

  lemma CheckpointFileInv(w: World, s: State, t: State)
    requires ValidWorld(w) && Inv(w, s) && CheckpointFile(w, s, t)
    ensures Inv(w, t)
  {
    hide ValidWorld, Target, Blank, Agrees;
  }

  lemma EndFilesInv(w: World, s: State, t: State)
    requires ValidWorld(w) && Inv(w, s) && EndFiles(w, s, t)
    ensures Inv(w, t)
  {
    hide ValidWorld, Target, Blank, Agrees;
    var fp := s.mem.fingerprint;
    var e := w.files(fp);
    forall p | p in Span(0, |w.image(fp)|) ensures p in Outside(e, |e|) {}
    AgreesSubset(s.exfat.value.now, w.image(fp), Outside(e, |e|), Span(0, |w.image(fp)|));
    AgreesAll(s.exfat.value.now, w.image(fp));
  }

  lemma EnterPackInv(w: World, s: State, t: State)
    requires ValidWorld(w) && Inv(w, s) && EnterPack(w, s, t)
    ensures Inv(w, t)
  {
    hide ValidWorld, Target, Agrees, Outside, ExHeld;
  }

  // ---------------------------------------------------------------- packing steps

  lemma StartPackInv(w: World, s: State, t: State)
    requires ValidWorld(w) && Inv(w, s) && (StartPack(w, s, t) || StartVerify(w, s, t) || StartPublish(w, s, t))
    ensures Inv(w, t)
  {
    hide ValidWorld, Target, Agrees, Outside, ExHeld, Body, Image, Offset, BlockCount;
    SameTarget(w, s.journal, t.journal);
  }

  lemma ResumePackInv(w: World, s: State, t: State)
    requires ValidWorld(w) && Inv(w, s) && ResumePack(w, s, t)
    ensures Inv(w, t)
  {
    hide ValidWorld, Target, Agrees, Image, Cut, Readable, Entry, Blank;
    var j := s.journal;
    var k := j.packNext;
    var r := Packed(w, j.fingerprint, k + 1, k);
    OffsetBounds(w, j.fingerprint, k);
    assert forall p :: p in r ==> p < BASE + j.packStored by { hide Offset, DataOffset; }
    CutKeeps(s.pfs.value, Target(w, j), r, BASE + j.packStored, t.pfs.value);
    CutBlank(s.pfs.value, MetaGap(), BASE + j.packStored, t.pfs.value);
  }

  /** Writing a slice of the stream behind BASE keeps the record true and adds the slice. */
  lemma SliceWritten(w: World, s: State, t: State, lo: nat, hi: nat, next: Pc, r: iset<nat>)
    requires ValidWorld(w) && s.journal.phase == R.Pack && JournalInv(w, s.journal, s.exfat, s.pfs)
    requires lo <= hi <= |Stream(w, s.journal.fingerprint)|
    requires WritePfs(s, t, BASE + lo, Stream(w, s.journal.fingerprint)[lo..hi], next)
    requires BothBlank(s.pfs.value, MetaGap()) && Agrees(s.pfs.value.now, Target(w, s.journal), r)
    ensures JournalInv(w, t.journal, t.exfat, t.pfs) && BothBlank(t.pfs.value, MetaGap())
    ensures Agrees(t.pfs.value.now, Target(w, s.journal), r + Span(BASE + lo, BASE + hi))
  {
    hide ValidWorld, Target, Agrees, Image, Wrote, Blank, Packed, BlockCount, Offset, Packable;
    var j := s.journal;
    TargetSlice(w, j, lo, hi);
    MetaGapApart();
    WriteBlank(s.pfs.value, MetaGap(), BASE + lo, Stream(w, j.fingerprint)[lo..hi], t.pfs.value);
    WriteKeeps(s.pfs.value, Target(w, j), r, BASE + lo, BASE + hi, t.pfs.value);
    if j.packNext > 0 {
      var held := Packed(w, j.fingerprint, j.packNext + 1, j.packNext);
      WriteKeeps(s.pfs.value, Target(w, j), held, BASE + lo, BASE + hi, t.pfs.value);
      AgreesSubset(t.pfs.value.now, Target(w, j), held + Span(BASE + lo, BASE + hi), held);
    }
  }

  lemma PackBlockInv(w: World, s: State, t: State)
    requires ValidWorld(w) && Inv(w, s) && PackBlock(w, s, t)
    ensures Inv(w, t)
  {
    hide ValidWorld, Target, Agrees, Image, Wrote, Blank, Offset, Chunk, Stored, BlockCount, DataOffset, Packable;
    var fp, i, m := s.journal.fingerprint, s.pc.i, Entries(s.pc.from);
    StreamBlock(w, fp, i);
    OffsetBounds(w, fp, i);
    var lo, hi := Offset(w.c, w.image(fp), i), Offset(w.c, w.image(fp), i + 1);
    SliceWritten(w, s, t, lo, hi, PackRun(i + 1, s.pc.from), Packed(w, fp, m, i));
    AgreesSubset(t.pfs.value.now, Target(w, s.journal), Packed(w, fp, m, i) + Span(BASE + lo, BASE + hi),
        Packed(w, fp, m, i + 1));
  }

  lemma WriteEntriesInv(w: World, s: State, t: State)
    requires ValidWorld(w) && Inv(w, s) && WriteEntries(w, s, t)
    ensures Inv(w, t)
  {
    hide ValidWorld, Target, Agrees, Image, Wrote, Blank, Offset, Table, BlockCount, DataOffset, Packable;
    var fp, i, from := s.journal.fingerprint, s.pc.i, s.pc.from;
    StreamTable(w, fp, from, i + 1);
    var lo, hi := TABLE_AT + 8 * from, TABLE_AT + 8 * (i + 1);
    SliceWritten(w, s, t, lo, hi, PackTable(i), Packed(w, fp, Entries(from), i));
    AgreesSubset(t.pfs.value.now, Target(w, s.journal), Packed(w, fp, Entries(from), i) + Span(BASE + lo, BASE + hi),
                 Packed(w, fp, i + 1, i));
  }

  lemma SavePackInv(w: World, s: State, t: State)
    requires ValidWorld(w) && Inv(w, s) && SavePack(w, s, t)
    ensures Inv(w, t)
  {
    hide ValidWorld, Target, Agrees, Image, Blank, Offset, BlockCount, DataOffset, Packable, Packed;
    SameTarget(w, s.journal, t.journal);
  }

  lemma WriteTableInv(w: World, s: State, t: State)
    requires ValidWorld(w) && Inv(w, s) && WriteTable(w, s, t)
    ensures Inv(w, t)
  {
    hide ValidWorld, Target, Agrees, Image, Wrote, Blank, Offset, Table, BlockCount, DataOffset, Packable;
    var fp, n := s.journal.fingerprint, s.pc.i;
    StreamTable(w, fp, 0, n + 1);
    OffsetBounds(w, fp, n);
    var lo, hi := TABLE_AT, TABLE_AT + 8 * (n + 1);
    SliceWritten(w, s, t, lo, hi, PackDone, Packed(w, fp, Entries(s.pc.from), n));
    AgreesSubset(t.pfs.value.now, Target(w, s.journal),
        Packed(w, fp, Entries(s.pc.from), n) + Span(BASE + lo, BASE + hi), Body(w, fp));
  }

  /** The target depends only on the captured source and the inner name. */
  lemma SameTarget(w: World, j: R.State, j': R.State)
    requires j.fingerprint == j'.fingerprint && j.innerName == j'.innerName
    ensures Target(w, j) == Target(w, j')
  {
    hide Image, BlockCount;
  }

  lemma EnterVerifyInv(w: World, s: State, t: State)
    requires ValidWorld(w) && Inv(w, s) && EnterVerify(w, s, t)
    ensures Inv(w, t)
  {
    hide ValidWorld, Agrees, Image, Blank, Offset, BlockCount, DataOffset, Packable, Packed, Body, Target;
    OffsetBounds(w, s.journal.fingerprint, Count(w, s.journal.fingerprint));
    SameTarget(w, s.journal, t.journal);
  }

  /** A fresh stream agrees with the image on the header and on the gap behind the table. */
  lemma FrontAgrees(w: World, fp: nat, p: nat)
    requires p < TABLE_AT || TABLE_AT + TableBytes(Count(w, fp)) <= p < DataOffset(Count(w, fp))
    ensures p < |Stream(w, fp)| && p < |Front(w.c, w.image(fp), 0)|
    ensures Stream(w, fp)[p] == Front(w.c, w.image(fp), 0)[p]
  {
    hide Table, Payload, DataOffset, Header;
    var n := Count(w, fp);
    var front := Front(w.c, w.image(fp), 0);
    PfscPack.ImageParts(w.c, w.image(fp));
    var h := Header(n) + Zeros(TABLE_AT - HEADER_SIZE);
    assert front == h + [] + Zeros(DataOffset(n) - TABLE_AT) by { EmptyTable(w, fp); }
    if p < TABLE_AT {
      assert Stream(w, fp)[p] == Stream(w, fp)[..TABLE_AT][p];
    } else {
      var a := TABLE_AT + TableBytes(n);
      assert Stream(w, fp)[p] == Stream(w, fp)[a..DataOffset(n)][p - a];
    }
  }

  lemma EmptyTable(w: World, fp: nat)
    ensures Table(w.c, w.image(fp), 0) == []
  {
  }

  lemma PackHeaderInv(w: World, s: State, t: State)
    requires ValidWorld(w) && Inv(w, s) && PackHeader(w, s, t)
    ensures Inv(w, t)
  {
    hide ValidWorld, Target, Image, Blank, BlockCount, DataOffset, Packable, Front, Put, Offset;
    var j := s.journal;
    var fp := j.fingerprint;
    var front := Front(w.c, w.image(fp), 0);
    OffsetBounds(w, fp, 0);
    TargetShape(w, j);
    MetaGapApart();
    WriteBlank(s.pfs.value, MetaGap(), BASE, front, t.pfs.value);
    PutGrows(s.pfs.value.now, BASE, front);
    assert |front| == DataOffset(Count(w, fp));
    forall p | p in Packed(w, fp, 0, 0) && p < |Target(w, j)|
      ensures p < |t.pfs.value.now| && t.pfs.value.now[p] == Target(w, j)[p]
    {
      FrontAgrees(w, fp, p - BASE);
      PutAt(s.pfs.value.now, BASE, front, p);
      assert Target(w, j)[p] == Target(w, j)[BASE..][p - BASE];
    }
  }

  // ---------------------------------------------------------------- verification and publication steps

  /** A stage that agrees with the target behind BASE carries the packed stream of the image. */
  lemma BodyCarries(w: World, j: R.State, f: seq<byte>)
    requires ValidWorld(w) && Agrees(f, Target(w, j), Body(w, j.fingerprint))
    ensures Carries(w.c, w.image(j.fingerprint), f, BASE)
  {
    hide ValidWorld, Target, Image;
    TargetShape(w, j);
    PfscPack.ImageSize(w.c, w.image(j.fingerprint));
    OffsetBounds(w, j.fingerprint, 0);
    hide Offset, DataOffset, BlockCount;
    var image, t := Stream(w, j.fingerprint), Target(w, j);
    assert BASE + |image| - 1 in Body(w, j.fingerprint);
    forall k | 0 <= k < |image| ensures f[BASE + k] == image[k] {
      assert BASE + k in Body(w, j.fingerprint);
      assert t[BASE + k] == t[BASE..][k];
    }
    assert f[BASE..BASE + |image|] == image;
  }

  lemma VerifyWindowInv(w: World, s: State, t: State)
    requires ValidWorld(w) && Inv(w, s) && VerifyWindow(w, s, t)
    ensures Inv(w, t)
  {
    hide ValidWorld, Target, Agrees, Image, Blank, BlockCount, Packable, Body, HeaderOk, BlocksOk, Blocks;
    SameTarget(w, s.journal, t.journal);
  }

  lemma EnterPublishInv(w: World, s: State, t: State)
    requires ValidWorld(w) && Inv(w, s) && EnterPublish(w, s, t)
    ensures Inv(w, t)
  {
    hide ValidWorld, Target, Agrees, Image, Blank, BlockCount, Packable, Body, HeaderOk, LogicalSize, Blocks;
    SameTarget(w, s.journal, t.journal);
    var j := s.journal;
    BodyCarries(w, j, s.pfs.value.now);
    CarriedHeader(w.c, w.image(j.fingerprint), s.pfs.value.now, BASE);
  }

  lemma TrimPfsInv(w: World, s: State, t: State)
    requires ValidWorld(w) && Inv(w, s) && TrimPfs(w, s, t)
    ensures Inv(w, t)
  {
    hide ValidWorld, Target, Agrees, Image, Blank, BlockCount, Packable;
    var j := s.journal;
    TargetShape(w, j);
    CutKeeps(s.pfs.value, Target(w, j), Body(w, j.fingerprint), BASE + j.packStored, t.pfs.value);
    CutBlank(s.pfs.value, MetaGap(), BASE + j.packStored, t.pfs.value);
  }

  lemma BodyApart(w: World, fp: nat)
    ensures forall at: nat, n: nat :: n <= BASE ==> Body(w, fp) !! Span(at, n)
  {
    hide Image;
    forall at: nat, n: nat | n <= BASE ensures Body(w, fp) !! Span(at, n) {
      forall p | p in Body(w, fp) ensures p !in Span(at, n) {}
    }
  }

  lemma DraftHeaderInv(w: World, s: State, t: State, d: seq<byte>)
    requires ValidWorld(w) && Inv(w, s) && DraftHeader(w, s, t, d)
    ensures Inv(w, t)
  {
    hide ValidWorld, Target, Agrees, Image, Blank, BlockCount, Packable, Body, Wrote;
    var j := s.journal;
    TargetShape(w, j);
    BodyApart(w, j.fingerprint);
    MetaGapApart();
    assert Span(0, META[0].1) == Span(META[0].0, META[0].1);
    WriteElsewhere(s.pfs.value, Target(w, j), Body(w, j.fingerprint), 0, d, t.pfs.value);
    WriteBlank(s.pfs.value, MetaGap(), 0, d, t.pfs.value);
    WroteLength(s.pfs.value, 0, d, t.pfs.value);
    forall p | p in Extents(META, 1, 1) ensures false {}
    NothingToAgree(t.pfs.value.now, Target(w, j), Extents(META, 1, 1));
  }

  lemma NothingToAgree(f: seq<byte>, t: seq<byte>, r: iset<nat>)
    requires forall p :: p in r ==> false
    ensures Agrees(f, t, r)
  {
  }

  lemma WroteLength(s: Disk, at: nat, d: seq<byte>, t: Disk)
    requires Wrote(s, at, d, t) && at + |d| <= |s.now|
    ensures |t.now| == |s.now|
  {
    hide Put;
    PutGrows(s.now, at, d);
  }

  /** The metadata written is the front of the target. */
  lemma FrontOfTarget(w: World, s: State)
    requires ValidWorld(w) && PublishPc(w, s) && s.pfs.Some? && |s.pfs.value.now| == |Target(w, s.journal)|
    ensures var front := w.front(s.mem.innerName, |s.pfs.value.now| - BASE, s.raw);
            |front| == BASE && Target(w, s.journal)[..BASE] == front
  {
    hide Image, BlockCount;
    TargetShape(w, s.journal);
  }

  lemma MetaWritten(w: World, s: State, t: State, k: nat, next: Pc, r: iset<nat>)
    requires ValidWorld(w) && PublishPc(w, s) && s.pfs.Some? && |s.pfs.value.now| == |Target(w, s.journal)|
    requires JournalInv(w, s.journal, s.exfat, s.pfs) && k < |META| && MetaSlice(w, s, t, META[k], next)
    requires Agrees(s.pfs.value.now, Target(w, s.journal), r)
    ensures t == s.(pfs := t.pfs, pc := next) && t.pfs.Some? && JournalInv(w, t.journal, t.exfat, t.pfs)
    ensures |t.pfs.value.now| == |s.pfs.value.now|
    ensures Agrees(t.pfs.value.now, Target(w, s.journal), r + Span(META[k].0, META[k].1))
  {
    hide ValidWorld, Target, Agrees, Image, Blank, BlockCount, Packable, Body, Wrote, MetaGap;
    var j, e := s.journal, META[k];
    var target := Target(w, j);
    FrontOfTarget(w, s);
    TargetShape(w, j);
    PrefixSlice(target, BASE, e.0, e.1);
    MetaGapApart();
    assert e.0 <= e.1 <= BASE;
    WriteBlank(s.pfs.value, MetaGap(), e.0, target[e.0..e.1], t.pfs.value);
    WriteKeeps(s.pfs.value, target, r, e.0, e.1, t.pfs.value);
    WriteKeeps(s.pfs.value, target, Body(w, j.fingerprint), e.0, e.1, t.pfs.value);
    AgreesSubset(t.pfs.value.now, target, Body(w, j.fingerprint) + Span(e.0, e.1), Body(w, j.fingerprint));
    WroteLength(s.pfs.value, e.0, target[e.0..e.1], t.pfs.value);
  }

  lemma WriteMetaInv(w: World, s: State, t: State)
    requires ValidWorld(w) && Inv(w, s) && WriteMeta(w, s, t)
    ensures Inv(w, t)
  {
    hide ValidWorld, Target, Agrees, JournalInv, MetaSlice, Count;
    var k := s.pc.i;
    MetaWritten(w, s, t, k, Meta(k + 1), Extents(META, 1, k));
    AgreesSubset(t.pfs.value.now, Target(w, s.journal), Extents(META, 1, k) + Span(META[k].0, META[k].1),
        Extents(META, 1, k + 1));
  }

  /** Body, metadata extents and the blank gap together are the whole target. */
  lemma SealedTarget(w: World, j: R.State, f: seq<byte>)
    requires ValidWorld(w) && |f| == |Target(w, j)| && Blank(f, MetaGap())
    requires Agrees(f, Target(w, j), Body(w, j.fingerprint)) && Agrees(f, Target(w, j), Extents(META, 0, |META|))
    ensures f == Target(w, j)
  {
    hide ValidWorld, Target, Image;
    TargetShape(w, j);
    forall p: nat | p < |f| ensures f[p] == Target(w, j)[p] {
      if p >= BASE {
        assert p in Body(w, j.fingerprint);
      } else if InSome(p, META, 0, |META|) {
        assert p in Extents(META, 0, |META|);
      } else {
        assert p in MetaGap();
      }
    }
  }

  lemma SealHeaderInv(w: World, s: State, t: State)
    requires ValidWorld(w) && Inv(w, s) && SealHeader(w, s, t)
    ensures Inv(w, t)
  {
    hide ValidWorld, Target, Agrees, MetaSlice, Blank, MetaGap, Body, Count;
    var e := Extents(META, 1, |META|);
    MetaWritten(w, s, t, 0, Sealed, e);
    AgreesSubset(t.pfs.value.now, Target(w, s.journal), e + Span(META[0].0, META[0].1), Extents(META, 0, |META|));
    SealedTarget(w, s.journal, t.pfs.value.now);
  }

  lemma SyncPfsInv(w: World, s: State, t: State)
    requires ValidWorld(w) && Inv(w, s) && SyncPfs(w, s, t)
    ensures Inv(w, t)
  {
    hide ValidWorld, Target, Agrees, Blank, Image, BlockCount, Packable;
  }

  lemma LinkInv(w: World, s: State, t: State)
    requires ValidWorld(w) && Inv(w, s) && (Link(w, s, t) || ClearPfs(w, s, t))
    ensures Inv(w, t)
  {
    hide ValidWorld, Target, Agrees, Blank, Image, BlockCount, Packable, Body, Packed, Outside;
  }

  lemma AfterLinkInv(w: World, s: State, t: State)
    requires ValidWorld(w) && Inv(w, s) && (Unlink(w, s, t) || Withdraw(w, s, t) || Sweep(w, s, t) || Complete(w, s, t))
    ensures Inv(w, t)
  {
    hide ValidWorld, Target, JournalInv, Count, Packable;
    SameTarget(w, s.journal, t.journal);
  }

  lemma StopInv(w: World, s: State, t: State)
    requires ValidWorld(w) && Inv(w, s) && (Crash(s, t) || Quit(s, t) || SourceChanges(s, t))
    ensures Inv(w, t)
  {
    hide ValidWorld, Target, Agrees, Blank, Image, BlockCount, Packable, Body, Packed, Outside;
  }

  // ---------------------------------------------------------------- whole runs

  lemma StepInv(w: World, s: State, t: State)
    requires ValidWorld(w) && Inv(w, s) && Next(w, s, t)
    ensures Inv(w, t)
  {
    hide ValidWorld, Inv, StartNew, StartExfat, StartPack, ResumePack, StartVerify, StartPublish, WritePrologue,
      EndPrologue, WriteFile, CheckpointFile, EndFiles, ClearPfs, EnterPack, PackHeader, PackBlock, WriteEntries,
      SavePack, WriteTable, EnterVerify, VerifyWindow, EnterPublish, TrimPfs, DraftHeader, WriteMeta, SealHeader,
      SyncPfs, Link, Unlink, Withdraw, Sweep, Complete, Crash, Quit, SourceChanges;
    if StartNew(w, s, t) { StartNewInv(w, s, t); }
    else if StartExfat(w, s, t) { StartExfatInv(w, s, t); }
    else if ResumePack(w, s, t) { ResumePackInv(w, s, t); }
    else if StartPack(w, s, t) || StartVerify(w, s, t) || StartPublish(w, s, t) { StartPackInv(w, s, t); }
    else if WritePrologue(w, s, t) { WritePrologueInv(w, s, t); }
    else if EndPrologue(w, s, t) { EndPrologueInv(w, s, t); }
    else if WriteFile(w, s, t) { WriteFileInv(w, s, t); }
    else if CheckpointFile(w, s, t) { CheckpointFileInv(w, s, t); }
    else if EndFiles(w, s, t) { EndFilesInv(w, s, t); }
    else if EnterPack(w, s, t) { EnterPackInv(w, s, t); }
    else if PackHeader(w, s, t) { PackHeaderInv(w, s, t); }
    else if PackBlock(w, s, t) { PackBlockInv(w, s, t); }
    else if WriteEntries(w, s, t) { WriteEntriesInv(w, s, t); }
    else if SavePack(w, s, t) { SavePackInv(w, s, t); }
    else if WriteTable(w, s, t) { WriteTableInv(w, s, t); }
    else if EnterVerify(w, s, t) { EnterVerifyInv(w, s, t); }
    else if VerifyWindow(w, s, t) { VerifyWindowInv(w, s, t); }
    else if EnterPublish(w, s, t) { EnterPublishInv(w, s, t); }
    else if TrimPfs(w, s, t) { TrimPfsInv(w, s, t); }
    else if WriteMeta(w, s, t) { WriteMetaInv(w, s, t); }
    else if SealHeader(w, s, t) { SealHeaderInv(w, s, t); }
    else if SyncPfs(w, s, t) { SyncPfsInv(w, s, t); }
    else if Link(w, s, t) || ClearPfs(w, s, t) { LinkInv(w, s, t); }
    else if Unlink(w, s, t) || Withdraw(w, s, t) || Sweep(w, s, t) || Complete(w, s, t) { AfterLinkInv(w, s, t); }
    else if Crash(s, t) || Quit(s, t) || SourceChanges(s, t) { StopInv(w, s, t); }
    else {
      var d :| DraftHeader(w, s, t, d);
      DraftHeaderInv(w, s, t, d);
    }
  }

  ghost predicate IsRun(w: World, run: seq<State>) {
    run != [] && Init(run[0]) && forall k :: 0 <= k < |run| - 1 ==> Next(w, run[k], run[k + 1])
  }

  lemma {:induction false} RunInv(w: World, run: seq<State>, k: nat)
    requires ValidWorld(w) && IsRun(w, run) && k < |run|
    ensures Inv(w, run[k])
  {
    hide ValidWorld, Next, Target;
    if k > 0 {
      RunInv(w, run, k - 1);
      assert Next(w, run[k - 1], run[k - 1 + 1]);
      StepInv(w, run[k - 1], run[k]);
    }
  }

  /**
   * Crash safety: in every state of every run, with crashes, error exits, restarts and source
   * changes anywhere, a file under the final name is the complete conversion of the captured source.
   */
  lemma CrashSafety(w: World, run: seq<State>, k: nat)
    requires ValidWorld(w) && IsRun(w, run) && k < |run|
    ensures run[k].output.Some? ==>
              run[k].output.value == Published(w, run[k].journal.fingerprint, run[k].journal.innerName)
  {
    hide ValidWorld, IsRun, Published;
    RunInv(w, run, k);
  }

  /** The published file verifies, and its stream unpacks to the exFAT image padded with zeros. */
  lemma OutputUnpacks(w: World, run: seq<State>, k: nat)
    requires ValidWorld(w) && IsRun(w, run) && k < |run| && run[k].output.Some?
    ensures var o, fp := run[k].output.value, run[k].journal.fingerprint;
            && Accepts(w.c, o, BASE)
            && Unpacked(w.c, o, BASE, Blocks(o, BASE)) ==
               w.image(fp) + Zeros(BlockCount(|w.image(fp)|) * BLOCK - |w.image(fp)|)
  {
    var j, o := run[k].journal, run[k].output.value;
    assert o == Target(w, j) && Packable(|w.image(j.fingerprint)|) by {
      hide ValidWorld, IsRun, Published;
      RunInv(w, run, k);
    }
    hide IsRun, Published, Image, Accepts, Unpacked;
    AgreesSelf(o, Body(w, j.fingerprint));
    BodyCarries(w, j, o);
    RoundTrip(w.c, w.image(j.fingerprint), o, BASE);
  }

  /**
   * Over every run, what is published in front of the stream is the metadata for the recorded name, the size of the
   * stream that follows, and the logical size which that stream itself announces.
   */
  lemma OutputAnnounces(w: World, run: seq<State>, k: nat)
    requires ValidWorld(w) && IsRun(w, run) && k < |run| && run[k].output.Some?
    ensures var o := run[k].output.value;
      && BASE <= |o| && HeaderOk(o, BASE)
      && o[..BASE] == w.front(run[k].journal.innerName, |o| - BASE, LogicalSize(o, BASE))
  {
    var j, o := run[k].journal, run[k].output.value;
    assert o == Target(w, j) && Packable(|w.image(j.fingerprint)|) by {
      hide ValidWorld, IsRun, Published;
      RunInv(w, run, k);
    }
    hide IsRun, Image, HeaderOk, LogicalSize, Packable;
    TargetShape(w, j);
    AgreesSelf(o, Body(w, j.fingerprint));
    BodyCarries(w, j, o);
    CarriedHeader(w.c, w.image(j.fingerprint), o, BASE);
    assert |w.front(j.innerName, |Stream(w, j.fingerprint)|, Count(w, j.fingerprint) * BLOCK)| == BASE;
  }

  lemma AgreesSelf(f: seq<byte>, r: iset<nat>)
    ensures Agrees(f, f, r)
  {
  }

  /**
   * Publication is reached only with a stage that one full verification pass accepts, in both the
   * current and the crash-surviving contents; and until then nothing is under the final name.
   */
  lemma PublishOnlyVerified(w: World, run: seq<State>, k: nat)
    requires ValidWorld(w) && IsRun(w, run) && k < |run|
    requires run[k].journal.phase == R.Publish && run[k].output.None?
    ensures run[k].pfs.Some?
    ensures Accepts(w.c, run[k].pfs.value.now, BASE) && Accepts(w.c, run[k].pfs.value.hard, BASE)
  {
    assert Lossless(w.c);
    hide IsRun, ValidWorld, Target, Image, Accepts, Agrees, Body, Blank, Lossless;
    RunInv(w, run, k);
    var j := run[k].journal;
    BodyCarries(w, j, run[k].pfs.value.now);
    BodyCarries(w, j, run[k].pfs.value.hard);
    RoundTrip(w.c, w.image(j.fingerprint), run[k].pfs.value.now, BASE);
    RoundTrip(w.c, w.image(j.fingerprint), run[k].pfs.value.hard, BASE);
  }

  ghost predicate CaptureKept(j: R.State, j': R.State) {
    && (j.fingerprint != 0 ==> j'.fingerprint == j.fingerprint)
    && (j.phase != R.Exfat ==> j'.phase != R.Exfat && j'.innerName == j.innerName)
  }

  lemma CaptureExfat(w: World, s: State, t: State)
    requires Inv(w, s) && (StartStep(w, s, t) || ExfatStep(w, s, t))
    ensures CaptureKept(s.journal, t.journal)
  {
    hide Target, Agrees, JournalInv, Built, ExHeld, Bounded, Wrote, Cut, Packable, StageThere;
  }

  lemma CapturePack(w: World, s: State, t: State)
    requires Inv(w, s) && PackStep(w, s, t)
    ensures CaptureKept(s.journal, t.journal)
  {
    hide Target, Agrees, JournalInv, Wrote, Packable, TableSlice, Packed, Body, BothBlank, Offset, BlockCount;
    if WriteEntries(w, s, t) || WriteTable(w, s, t) { TableSliceJournal(w, s, t); }
  }

  lemma TableSliceJournal(w: World, s: State, t: State)
    requires WriteEntries(w, s, t) || WriteTable(w, s, t)
    ensures t.journal == s.journal
  {
    hide Table, Wrote;
  }

  lemma CapturePublish(w: World, s: State, t: State)
    requires Inv(w, s)
    requires PublishStep(w, s, t) || FinalStep(w, s, t) || Crash(s, t) || Quit(s, t) || SourceChanges(s, t)
    ensures CaptureKept(s.journal, t.journal)
  {
    hide Target, Agrees, JournalInv, Wrote, Cut, Packable, Extents, HeaderOk, BlocksOk, Blocks, LogicalSize,
      BlockCount, Count;
  }

  /** Once a fingerprint is durable it never changes, and from phase PACK on neither does the inner name. */
  lemma CaptureFixed(w: World, run: seq<State>, k: nat)
    requires ValidWorld(w) && IsRun(w, run) && k + 1 < |run|
    ensures run[k].journal.fingerprint != 0 ==> run[k + 1].journal.fingerprint == run[k].journal.fingerprint
    ensures run[k].journal.phase != R.Exfat ==>
              run[k + 1].journal.phase != R.Exfat && run[k + 1].journal.innerName == run[k].journal.innerName
  {
    RunInv(w, run, k);
    assert Next(w, run[k], run[k + 1]);
    hide IsRun, ValidWorld, Inv, StartStep, ExfatStep, PackStep, PublishStep, FinalStep, Crash, Quit, SourceChanges;
    var s, t := run[k], run[k + 1];
    if StartStep(w, s, t) || ExfatStep(w, s, t) { CaptureExfat(w, s, t); }
    else if PackStep(w, s, t) { CapturePack(w, s, t); }
    else { CapturePublish(w, s, t); }
  }
}
