/** Over every run of the conversion, publication is entered only after each block has passed the verifier. */
module ConversionChecked {
  import opened Bytes
  import opened Disks
  import opened Pfsc
  import opened Conversion
  import opened ConversionProof
  import PfscVerify
  import R = Resume

  /** Which record each point of a run works with; nothing here depends on what the stages contain. */
  predicate Marked(s: State) {
    match s.pc
    case Down => true
    case ExPrologue(_) => s.mem.phase == s.journal.phase == R.Exfat
    case ExFiles(_) => s.mem.phase == s.journal.phase == R.Exfat
    case ExDone => s.mem.phase == s.journal.phase == R.Exfat
    case ExCleared => s.mem.phase == s.journal.phase == R.Exfat
    case PackFresh => s.journal.phase == R.Pack
    case PackRun(_, _) => s.journal.phase == R.Pack
    case PackTable(_) => s.journal.phase == R.Pack
    case PackDone => s.journal.phase == R.Pack
    case VerifyRun(i) => s.journal.phase == R.Verify && s.mem.verifyNext == s.journal.verifyNext == i
    case _ => s.journal.phase == R.Publish
  }

  predicate Checking(j: R.State) { j.phase == R.Verify || j.phase == R.Publish }

  /** How the number of blocks vouched for may change: not at all, back to zero, by a window, or into PUBLISH. */
  ghost predicate Moved(w: World, s: State, t: State) {
    Checking(t.journal) ==>
      || t.journal.verifyNext == 0
      || (t.journal.phase == s.journal.phase && t.journal.verifyNext == s.journal.verifyNext)
      || (VerifyWindow(w, s, t) && Checking(s.journal) && s.journal.verifyNext == s.pc.i)
      || (EnterPublish(w, s, t) && Checking(s.journal) && t.journal.verifyNext == s.journal.verifyNext == s.pc.i)
  }

  lemma StartMarked(w: World, s: State, t: State)
    requires Marked(s) && (StartStep(w, s, t) || FinalStep(w, s, t) || Crash(s, t) || Quit(s, t) || SourceChanges(s, t))
    ensures Marked(t) && Moved(w, s, t)
  {
    hide StageThere, Cut, Packable, Readable, Entry, DataOffset, BlockCount, AfterCrash;
  }

  lemma ExfatMarked(w: World, s: State, t: State)
    requires Marked(s) && ExfatStep(w, s, t)
    ensures Marked(t) && Moved(w, s, t)
  {
    hide StageThere, Wrote, Packable;
  }

  lemma PackMarked(w: World, s: State, t: State)
    requires Marked(s) && PackStep(w, s, t)
    ensures Marked(t) && Moved(w, s, t)
  {
    hide Wrote, Table, BlockCount, Offset, Stored, Front;
  }

  lemma PublishMarked(w: World, s: State, t: State)
    requires Marked(s) && PublishStep(w, s, t)
    ensures Marked(t) && Moved(w, s, t)
  {
    hide Wrote, Cut, HeaderOk, Blocks, BlocksOk, LogicalSize;
  }

  lemma StepMarked(w: World, s: State, t: State)
    requires Marked(s) && Next(w, s, t)
    ensures Marked(t) && Moved(w, s, t)
  {
    hide Marked, Moved, StartStep, ExfatStep, PackStep, PublishStep, FinalStep, Crash, Quit, SourceChanges;
    if ExfatStep(w, s, t) { ExfatMarked(w, s, t); }
    else if PackStep(w, s, t) { PackMarked(w, s, t); }
    else if PublishStep(w, s, t) { PublishMarked(w, s, t); }
    else { StartMarked(w, s, t); }
  }

  lemma {:induction false} RunMarked(w: World, run: seq<State>, k: nat)
    requires IsRun(w, run) && k < |run|
    ensures Marked(run[k])
  {
    hide Next, Marked;
    if k == 0 {
      assert Marked(run[0]) by { InitMarked(run[0]); }
    } else {
      RunMarked(w, run, k - 1);
      assert Next(w, run[k - 1], run[k - 1 + 1]);
      StepMarked(w, run[k - 1], run[k]);
    }
  }

  lemma InitMarked(s: State)
    requires Init(s)
    ensures Marked(s)
  {
  }

  /** Step `j` of the run is a window of the verifier that found block `b` of the stage well formed. */
  ghost predicate CheckedAt(w: World, run: seq<State>, j: nat, b: nat) {
    && j + 1 < |run| && run[j].pc.VerifyRun? && run[j].pfs.Some?
    && run[j].pc.i <= b < run[j + 1].journal.verifyNext && BlockOk(w.c, run[j].pfs.value.now, BASE, b)
  }

  /** The record stays past block `b`. */
  predicate Past(s: State, b: nat) { Checking(s.journal) && b < s.journal.verifyNext }

  /** Block `b` was checked before state `k`, and no restart has gone back behind it since. */
  ghost predicate CheckedSince(w: World, run: seq<State>, k: nat, b: nat)
    requires k < |run|
  {
    exists j :: 0 <= j < k && CheckedAt(w, run, j, b) && forall m :: j < m <= k ==> Past(run[m], b)
  }

  lemma CheckedNext(w: World, run: seq<State>, k: nat, b: nat)
    requires k + 1 < |run| && CheckedSince(w, run, k, b) && Past(run[k + 1], b)
    ensures CheckedSince(w, run, k + 1, b)
  {
    hide CheckedAt, Past;
    var j :| 0 <= j < k && CheckedAt(w, run, j, b) && forall m :: j < m <= k ==> Past(run[m], b);
    assert 0 <= j < k + 1 && forall m :: j < m <= k + 1 ==> Past(run[m], b);
  }

  /** One step of the induction: what was vouched for stays checked, and a window checks what it adds. */
  lemma CheckedStep(w: World, run: seq<State>, k: nat, b: nat)
    requires k + 1 < |run| && Moved(w, run[k], run[k + 1]) && Past(run[k + 1], b)
    requires forall a :: Past(run[k], a) ==> CheckedSince(w, run, k, a)
    ensures CheckedSince(w, run, k + 1, b)
  {
    var s, t := run[k], run[k + 1];
    if Past(s, b) {
      CheckedNext(w, run, k, b);
    } else {
      assert VerifyWindow(w, s, t) && s.pc.i <= b < t.journal.verifyNext by { hide BlocksOk, HeaderOk, Blocks; }
      hide HeaderOk, Blocks, BlockOk;
      assert BlockOk(w.c, s.pfs.value.now, BASE, b);
      assert CheckedAt(w, run, k, b);
    }
  }

  /** In every run, whatever the stages contain: each block the record vouches for was checked. */
  lemma {:induction false} VouchedWasChecked(w: World, run: seq<State>, k: nat, b: nat)
    requires IsRun(w, run) && k < |run| && Past(run[k], b)
    ensures CheckedSince(w, run, k, b)
    decreases k
  {
    hide Next, Moved, CheckedSince, Past, Init;
    if k == 0 {
      NothingVouched(run[0], b);
    } else {
      var i, before := k - 1, run[k - 1];
      assert Next(w, run[i], run[i + 1]);
      RunMarked(w, run, i);
      StepMarked(w, before, run[k]);
      forall a | Past(before, a) ensures CheckedSince(w, run, i, a) { VouchedWasChecked(w, run, i, a); }
      CheckedStep(w, run, i, b);
    }
  }

  lemma NothingVouched(s: State, b: nat)
    requires Init(s)
    ensures !Past(s, b)
  {
  }

  /**
   * PUBLISH is never entered unless every block of the stage was checked: each of them passed a window of the
   * verifier since the last time verification started from zero. This needs nothing about the stage's contents.
   */
  lemma PublishAfterEveryBlock(w: World, run: seq<State>, k: nat, b: nat)
    requires IsRun(w, run) && k + 1 < |run|
    requires run[k].journal.phase != R.Publish && run[k + 1].journal.phase == R.Publish
    ensures run[k].pfs.Some? && HeaderOk(run[k].pfs.value.now, BASE)
    ensures b < Blocks(run[k].pfs.value.now, BASE) ==> CheckedSince(w, run, k + 1, b)
  {
    assert Next(w, run[k], run[k + 1]);
    RunMarked(w, run, k);
    Entered(w, run[k], run[k + 1]);
    if b < Blocks(run[k].pfs.value.now, BASE) {
      hide Next, HeaderOk, Blocks, CheckedSince;
      VouchedWasChecked(w, run, k + 1, b);
    }
  }

  lemma Entered(w: World, s: State, t: State)
    requires Marked(s) && Next(w, s, t) && s.journal.phase != R.Publish && t.journal.phase == R.Publish
    ensures Announces(s, t.journal.verifyNext)
  {
    hide HeaderOk, Blocks, BlocksOk, Wrote, Cut, StageThere, Packable, Readable, Entry, DataOffset, BlockCount,
      Offset, Table, Stored, Front, LogicalSize, AfterCrash;
  }

  /** In PUBLISH the record vouches for all blocks of the captured image. */
  lemma {:induction false} PublishCountsAll(w: World, run: seq<State>, k: nat)
    requires ValidWorld(w) && IsRun(w, run) && k < |run| && run[k].journal.phase == R.Publish
    ensures run[k].journal.verifyNext == Count(w, run[k].journal.fingerprint)
  {
    assert Init(run[0]);
    hide ValidWorld, Next, Inv, Marked;
    if k > 0 {
      var i, s, t := k - 1, run[k - 1], run[k];
      assert Next(w, run[i], run[i + 1]);
      RunMarked(w, run, i);
      RunInv(w, run, i);
      if s.journal.phase == R.Publish {
        PublishCountsAll(w, run, i);
        StaysPublished(w, s, t);
      } else {
        Entered(w, s, t);
        EntersWhole(w, s, t);
      }
    }
  }

  /** The stage announces `n` blocks. */
  predicate Announces(s: State, n: nat) {
    s.pfs.Some? && HeaderOk(s.pfs.value.now, BASE) && Blocks(s.pfs.value.now, BASE) == n
  }

  lemma StaysPublished(w: World, s: State, t: State)
    requires Marked(s) && Next(w, s, t) && s.journal.phase == t.journal.phase == R.Publish
    ensures t.journal == s.journal
  {
    hide HeaderOk, Blocks, BlocksOk, Wrote, Cut, StageThere, Packable, Readable, Entry, DataOffset, BlockCount,
      Offset, Table, Stored, Front, LogicalSize, AfterCrash;
  }

  lemma EntersWhole(w: World, s: State, t: State)
    requires ValidWorld(w) && Marked(s) && Inv(w, s) && Next(w, s, t)
    requires s.journal.phase != R.Publish && t.journal.phase == R.Publish
    ensures Announces(s, Count(w, t.journal.fingerprint))
  {
    assert EnterPublish(w, s, t) by { OnlyEntry(w, s, t); }
    assert s.journal.phase == R.Verify && t.journal.fingerprint == s.journal.fingerprint;
    VerifiedBlocks(w, s);
  }

  lemma OnlyEntry(w: World, s: State, t: State)
    requires Marked(s) && Next(w, s, t) && s.journal.phase != R.Publish && t.journal.phase == R.Publish
    ensures EnterPublish(w, s, t)
  {
    hide HeaderOk, Blocks, BlocksOk, Wrote, Cut, StageThere, Packable, Readable, Entry, DataOffset, BlockCount,
      Offset, Table, Stored, Front, LogicalSize, AfterCrash;
  }

  lemma VerifiedBlocks(w: World, s: State)
    requires ValidWorld(w) && Inv(w, s) && Checking(s.journal) && s.output.None?
    ensures Announces(s, Count(w, s.journal.fingerprint))
  {
    hide ValidWorld, Target, Agrees, Image, Blank, BlockCount, Packable, Body, HeaderOk, Blocks;
    var j := s.journal;
    BodyCarries(w, j, s.pfs.value.now);
    CarriedHeader(w.c, w.image(j.fingerprint), s.pfs.value.now, BASE);
  }

  /**
   * While the journal says PUBLISH, every block of the captured image was checked by the verifier, and nothing
   * has taken that back since; and the stage would pass again, now and after a crash, until it is published.
   */
  lemma PublishedWasChecked(w: World, run: seq<State>, k: nat, b: nat)
    requires ValidWorld(w) && IsRun(w, run) && k < |run| && run[k].journal.phase == R.Publish
    requires b < Count(w, run[k].journal.fingerprint)
    ensures CheckedSince(w, run, k, b)
    ensures run[k].output.None? ==>
      run[k].pfs.Some? && Accepts(w.c, run[k].pfs.value.now, BASE) && Accepts(w.c, run[k].pfs.value.hard, BASE)
  {
    PublishCountsAll(w, run, k);
    hide ValidWorld, IsRun, CheckedSince, Accepts, Count;
    VouchedWasChecked(w, run, k, b);
    if run[k].output.None? { PublishOnlyVerified(w, run, k); }
  }
}
