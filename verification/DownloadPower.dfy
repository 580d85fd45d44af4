/**
 * The downloader when power is lost. The journal is synchronized whenever it is saved, the part file is not:
 * beside the part that the running system sees there is the part a power loss would leave.
 */
module DownloadPower {
  import opened Bytes
  import opened Disks
  import opened Download

  /** `hard` is the part as it would be found after losing power now. */
  datatype Durable = Durable(s: State, hard: Option<seq<byte>>)

  /** Flush: the system writes some of its pending data. PowerLoss: everything not written is gone. */
  datatype PowerEvent = Of(e: Event) | Flush | PowerLoss

  /** What an event of the downloader does to the durable part. */
  ghost predicate HardFollows(
    remote: seq<byte>, s: State, hard: Option<seq<byte>>, e: Event, t: State, hard': Option<seq<byte>>)
  {
    if t.part == None then hard' == None
    else match e
      case Chunk(n) => Appended(remote, s, hard, n, hard')
      case WriteFails(_, written) => Appended(remote, s, hard, written, hard')
      case Start => hard' == if hard == None then Some([]) else hard
      case Answer(_, _) => hard' == hard || (t.pc == Cleared && hard' == Some([]))
      case Recover => hard' == if t.part != s.part then t.part else hard
      case CancelLate => hard' == t.part
      case PublishFails(how) => hard' == if how == Untouched then hard else t.part
      case _ => hard' == hard
  }

  ghost predicate Appended(remote: seq<byte>, s: State, hard: Option<seq<byte>>, n: nat, hard': Option<seq<byte>>) {
    && s.part.Some? && hard.Some? && hard'.Some? && s.sent + n <= |remote|
    && Torn(hard.value, |s.part.value|, remote[s.sent..s.sent + n], hard'.value)
  }

  ghost predicate Step(remote: seq<byte>, d: Durable, p: PowerEvent, d': Durable) {
    match p
    case Of(e) =>
      Enabled(remote, d.s, e) && d'.s == Apply(remote, d.s, e) && HardFollows(remote, d.s, d.hard, e, d'.s, d'.hard)
    case Flush =>
      && d.s.part.Some? && d.hard.Some? && d'.s == d.s && d'.hard.Some?
      && Torn(d.hard.value, 0, d.s.part.value, d'.hard.value)
    case PowerLoss => d' == Durable(d.s.(part := d.hard, pc := Down), d.hard)
  }

  ghost predicate IsRun(remote: seq<byte>, run: seq<Durable>, ps: seq<PowerEvent>) {
    && |run| == |ps| + 1 && Init(run[0].s) && run[0].hard == None
    && forall k :: 0 <= k < |ps| ==> Step(remote, run[k], ps[k], run[k + 1])
  }

  // ---------------------------------------------------------------- exactly when recovery is safe

  /** The recorded number of bytes is there, and they are the remote ones; or too few are there to go on. */
  predicate HoldsJournaled(remote: seq<byte>, part: Option<seq<byte>>, journal: Option<Journal>) {
    part.Some? && journal.Some? && journal.value.done <= |part.value| ==> part.value[..journal.value.done] <= remote
  }

  /** Losing power now and recovering leaves a prefix of the remote content. */
  ghost predicate SafeToLosePower(remote: seq<byte>, d: Durable) {
    forall down, up :: Step(remote, d, PowerLoss, down) && Step(remote, down, Of(Recover), up) ==>
        PrefixOf(up.s.part, remote)
  }

  /** What recovery does with the durable part, as one condition on it; `DownloadLoss` says when it holds. */
  lemma LossDecided(remote: seq<byte>, d: Durable)
    requires d.s.dest == None
    ensures SafeToLosePower(remote, d) <==> HoldsJournaled(remote, d.hard, d.s.journal)
  {
    var down := Durable(d.s.(part := d.hard, pc := Down), d.hard);
    assert Step(remote, d, PowerLoss, down);
    if Enabled(remote, down.s, Recover) {
      var t := Apply(remote, down.s, Recover);
      var up := Durable(t, if t.part != down.s.part then t.part else d.hard);
      assert Step(remote, down, Of(Recover), up);
    }
  }

  // ---------------------------------------------------------------- runs whose power losses are safe

  predicate Underway(pc: Pc) { pc in {Asking, Cleared, Body, Saving, Publishing} }

  ghost predicate PowerInv(remote: seq<byte>, d: Durable) {
    && (d.hard.Some? <==> d.s.part.Some?)
    && (if d.s.pc == Down then HoldsJournaled(remote, d.s.part, d.s.journal) else Inv(remote, d.s))
    && PrefixOf(d.s.dest, remote) && ReleasesPrefix(remote, d.s.releases)
    && (Size(d.s.part) > 0 || Size(d.hard) > 0 || Underway(d.s.pc) ==> d.s.journal.Some?)
  }

  lemma KillKeeps(remote: seq<byte>, s: State)
    requires Inv(remote, s)
    ensures HoldsJournaled(remote, s.part, s.journal)
  {
  }

  lemma DownKeeps(remote: seq<byte>, d: Durable, e: Event, d': Durable)
    requires PowerInv(remote, d) && d.s.pc == Down && Step(remote, d, Of(e), d')
    ensures PowerInv(remote, d')
  {
    hide ReleasesPrefix, Torn;
  }

  lemma {:induction false} UpKeeps(remote: seq<byte>, d: Durable, e: Event, d': Durable)
    requires PowerInv(remote, d) && d.s.pc != Down && Step(remote, d, Of(e), d')
    ensures PowerInv(remote, d')
  {
    StepInv(remote, d.s, e);
    InvParts(remote, d.s);
    KillKeeps(remote, d'.s);
    hide Inv, HoldsJournaled, Torn, ReleasesPrefix, PrefixOf;
    assert PrefixOf(d'.s.dest, remote) && ReleasesPrefix(remote, d'.s.releases) by { InvParts(remote, d'.s); }
    JournalThere(remote, d, e, d');
  }

  lemma InvParts(remote: seq<byte>, s: State)
    requires Inv(remote, s)
    ensures PrefixOf(s.dest, remote) && ReleasesPrefix(remote, s.releases)
    ensures s.pc in {Opened, Asking} ==> s.part.Some?
  {
  }

  /** Both parts come and go together, and bytes appear only behind a journal. */
  lemma JournalThere(remote: seq<byte>, d: Durable, e: Event, d': Durable)
    requires d.s.pc != Down && Step(remote, d, Of(e), d') && (d.hard.Some? <==> d.s.part.Some?)
    requires d.s.pc in {Opened, Asking} ==> d.s.part.Some?
    requires Size(d.s.part) > 0 || Size(d.hard) > 0 || Underway(d.s.pc) ==> d.s.journal.Some?
    ensures d'.hard.Some? <==> d'.s.part.Some?
    ensures Size(d'.s.part) > 0 || Size(d'.hard) > 0 || Underway(d'.s.pc) ==> d'.s.journal.Some?
  {
    hide Torn, Count;
  }

  lemma {:induction false} PowerStep(remote: seq<byte>, d: Durable, p: PowerEvent, d': Durable)
    requires PowerInv(remote, d) && Step(remote, d, p, d')
    requires p == PowerLoss ==> HoldsJournaled(remote, d.hard, d.s.journal)
    ensures PowerInv(remote, d')
  {
    match p
    case Of(e) =>
      hide PowerInv, Enabled, Apply, HardFollows;
      if d.s.pc == Down { DownKeeps(remote, d, e, d'); } else { UpKeeps(remote, d, e, d'); }
    case Flush =>
      hide Inv, HoldsJournaled, ReleasesPrefix, PrefixOf;
    case PowerLoss =>
      hide Inv, ReleasesPrefix, PrefixOf;
  }

  lemma {:induction false} RunPower(remote: seq<byte>, run: seq<Durable>, ps: seq<PowerEvent>, k: nat)
    requires IsRun(remote, run, ps) && k < |run|
    requires forall j :: 0 <= j < |ps| && ps[j] == PowerLoss ==> HoldsJournaled(remote, run[j].hard, run[j].s.journal)
    ensures PowerInv(remote, run[k])
  {
    hide Step, PowerInv, HoldsJournaled;
    if k == 0 {
      assert PowerInv(remote, run[0]) by { FirstPower(remote, run[0]); }
    } else {
      RunPower(remote, run, ps, k - 1);
      assert Step(remote, run[k - 1], ps[k - 1], run[k - 1 + 1]);
      PowerStep(remote, run[k - 1], ps[k - 1], run[k]);
    }
  }

  lemma FirstPower(remote: seq<byte>, d: Durable)
    requires Init(d.s) && d.hard == None
    ensures PowerInv(remote, d)
  {
  }

  /**
   * If at each power loss the durable part holds the journaled prefix, then over the whole run, kills, power
   * losses and recoveries included, the part of a running download and everything published are prefixes of
   * the remote content.
   */
  lemma PrefixUnderSafeLosses(remote: seq<byte>, run: seq<Durable>, ps: seq<PowerEvent>, k: nat)
    requires IsRun(remote, run, ps) && k < |run|
    requires forall j :: 0 <= j < |ps| && ps[j] == PowerLoss ==> HoldsJournaled(remote, run[j].hard, run[j].s.journal)
    ensures run[k].s.pc != Down ==> PrefixOf(run[k].s.part, remote)
    ensures PrefixOf(run[k].s.dest, remote) && ReleasesPrefix(remote, run[k].s.releases)
  {
    hide Step;
    RunPower(remote, run, ps, k);
  }

  // ---------------------------------------------------------------- synchronizing before saving would be enough

  /** The event writes the counters into the journal. */
  predicate Saves(s: State, e: Event) {
    match e
    case SaveFirst(ok) => ok
    case SaveReset(ok) => ok
    case SaveCheckpoint(ok) => ok
    case Close(ok) => ok && s.pc != Closing(Canceled)
    case _ => false
  }

  /** The part is durable, and the counter does not run ahead of it. */
  predicate Synchronized(d: Durable) { d.hard == d.s.part && d.s.done <= Size(d.s.part) }

  /** The durable part holds the journaled prefix, or nothing at all was downloaded. */
  predicate Backed(remote: seq<byte>, d: Durable) {
    && (d.s.journal.Some? && d.hard.Some? ==>
          || (d.s.journal.value.done <= |d.hard.value| && d.hard.value[..d.s.journal.value.done] <= remote)
          || (d.hard == Some([]) && Size(d.s.part) == 0 && d.s.pc !in {Asking, Body, Saving}))
    && (d.s.pc == Down ==> Fronted(remote, d.s))
  }

  /** As far as the journal counts, the part is the remote content. */
  predicate Fronted(remote: seq<byte>, s: State) {
    s.part.Some? && s.journal.Some? ==> s.part.value[..Min(s.journal.value.done, |s.part.value|)] <= remote
  }

  lemma BackedHolds(remote: seq<byte>, d: Durable)
    requires Backed(remote, d)
    ensures HoldsJournaled(remote, d.hard, d.s.journal)
  {
  }

  lemma FrontedAlways(remote: seq<byte>, d: Durable)
    requires PowerInv(remote, d) && Backed(remote, d)
    ensures Fronted(remote, d.s)
  {
  }

  lemma TornKeepsPrefix(h: seq<byte>, at: nat, data: seq<byte>, h': seq<byte>, n: nat)
    requires Torn(h, at, data, h') && n <= at && n <= |h|
    ensures n <= |h'| && h'[..n] == h[..n]
  {
    forall p | 0 <= p < n ensures h'[p] == h[p] { assert p < |h'|; }
  }

  lemma FlushKeepsPrefix(h: seq<byte>, now: seq<byte>, h': seq<byte>, n: nat, remote: seq<byte>)
    requires Torn(h, 0, now, h') && n <= |h| && h[..n] <= remote && now[..Min(n, |now|)] <= remote
    ensures n <= |h'| && h'[..n] <= remote
  {
    forall p | 0 <= p < n ensures h'[p] == remote[p] {
      assert p < |h'|;
      assert h[..n][p] == remote[p];
      if p < |now| { assert now[..Min(n, |now|)][p] == remote[p]; }
    }
  }

  lemma SaveBacked(remote: seq<byte>, d: Durable, e: Event, d': Durable)
    requires PowerInv(remote, d) && Step(remote, d, Of(e), d') && Saves(d.s, e) && Synchronized(d)
    ensures Backed(remote, d')
  {
    hide ReleasesPrefix, Torn;
  }

  lemma AppendBacked(remote: seq<byte>, d: Durable, e: Event, d': Durable)
    requires PowerInv(remote, d) && Backed(remote, d) && Step(remote, d, Of(e), d') && (e.Chunk? || e.WriteFails?)
    requires d.s.journal.Some? ==> d.s.journal.value.done <= Size(d.s.part)
    ensures Backed(remote, d')
  {
    hide ReleasesPrefix;
    var n := if e.Chunk? then e.n else e.written;
    if d.s.journal.Some? {
      TornKeepsPrefix(d.hard.value, |d.s.part.value|, remote[d.s.sent..d.s.sent + n], d'.hard.value,
          d.s.journal.value.done);
    }
  }

  /** The journal never runs ahead of the part that is being extended. */
  predicate Covered(s: State) {
    s.pc in {Asking, Body, Saving, Publishing} && s.journal.Some? ==> s.journal.value.done <= Size(s.part)
  }

  lemma OtherBacked(remote: seq<byte>, d: Durable, e: Event, d': Durable)
    requires PowerInv(remote, d) && Backed(remote, d) && Covered(d.s) && Step(remote, d, Of(e), d')
    requires !Saves(d.s, e) && !e.Chunk? && !e.WriteFails?
    ensures Backed(remote, d')
  {
    hide ReleasesPrefix, Torn, Count;
  }

  lemma CoveredStep(remote: seq<byte>, d: Durable, e: Event, d': Durable)
    requires PowerInv(remote, d) && Covered(d.s) && Step(remote, d, Of(e), d')
    requires Saves(d.s, e) ==> Synchronized(d)
    ensures Covered(d'.s)
  {
    hide ReleasesPrefix, Torn, HoldsJournaled, Count;
  }

  /** Every save of the run finds the part durable. */
  ghost predicate SavesSynchronized(run: seq<Durable>, ps: seq<PowerEvent>)
    requires |run| == |ps| + 1
  {
    forall k :: 0 <= k < |ps| && ps[k].Of? && Saves(run[k].s, ps[k].e) ==> Synchronized(run[k])
  }

  lemma {:induction false} BackedStep(remote: seq<byte>, d: Durable, p: PowerEvent, d': Durable)
    requires PowerInv(remote, d) && Backed(remote, d) && Covered(d.s) && Step(remote, d, p, d')
    requires p.Of? && Saves(d.s, p.e) ==> Synchronized(d)
    ensures PowerInv(remote, d') && Backed(remote, d') && Covered(d'.s)
  {
    BackedHolds(remote, d);
    PowerStep(remote, d, p, d');
    match p
    case Of(e) =>
      CoveredStep(remote, d, e, d');
      if Saves(d.s, e) { SaveBacked(remote, d, e, d'); }
      else if e.Chunk? || e.WriteFails? {
        assert d.s.pc == Body by { hide PowerInv, Apply, HardFollows; }
        hide PowerInv, Step, Backed;
        AppendBacked(remote, d, e, d');
      } else {
        hide PowerInv, Step, Backed;
        OtherBacked(remote, d, e, d');
      }
    case Flush =>
      hide ReleasesPrefix, Torn;
      if d.s.journal.Some? && d.s.journal.value.done <= |d.hard.value| {
        FrontedAlways(remote, d);
        FlushKeepsPrefix(d.hard.value, d.s.part.value, d'.hard.value, d.s.journal.value.done, remote);
      }
    case PowerLoss =>
      hide ReleasesPrefix, PowerInv;
  }

  lemma {:induction false} RunBacked(remote: seq<byte>, run: seq<Durable>, ps: seq<PowerEvent>, k: nat)
    requires IsRun(remote, run, ps) && SavesSynchronized(run, ps) && k < |run|
    ensures PowerInv(remote, run[k]) && Backed(remote, run[k]) && Covered(run[k].s)
  {
    hide Step, PowerInv, Backed, Synchronized, Covered;
    if k == 0 {
      FirstPower(remote, run[0]);
      FirstBacked(remote, run[0]);
    } else {
      RunBacked(remote, run, ps, k - 1);
      assert Step(remote, run[k - 1], ps[k - 1], run[k - 1 + 1]);
      BackedStep(remote, run[k - 1], ps[k - 1], run[k]);
    }
  }

  lemma FirstBacked(remote: seq<byte>, d: Durable)
    requires Init(d.s) && d.hard == None
    ensures Backed(remote, d) && Covered(d.s)
  {
  }

  /**
   * Synchronizing the part before each save of the journal would make power losses harmless: then, over every
   * run, the part of a running download and everything published are prefixes of the remote content.
   */
  lemma SynchronizedSavesSuffice(remote: seq<byte>, run: seq<Durable>, ps: seq<PowerEvent>, k: nat)
    requires IsRun(remote, run, ps) && SavesSynchronized(run, ps) && k < |run|
    ensures run[k].s.pc != Down ==> PrefixOf(run[k].s.part, remote)
    ensures PrefixOf(run[k].s.dest, remote) && ReleasesPrefix(remote, run[k].s.releases)
    ensures run[k].s.dest == None ==> SafeToLosePower(remote, run[k])
  {
    hide Step, Backed;
    RunBacked(remote, run, ps, k);
    BackedHolds(remote, run[k]);
    if run[k].s.dest == None { LossDecided(remote, run[k]); }
  }

  // ---------------------------------------------------------------- as it is, a power loss may corrupt a download

  /** One step further along a run. */
  lemma Extend(remote: seq<byte>, run: seq<Durable>, ps: seq<PowerEvent>, p: PowerEvent, d: Durable)
    returns (run': seq<Durable>, ps': seq<PowerEvent>)
    requires IsRun(remote, run, ps) && Step(remote, run[|run| - 1], p, d)
    ensures IsRun(remote, run', ps') && run'[|run'| - 1] == d
  {
    hide Step;
    run', ps' := run + [d], ps + [p];
    forall k | 0 <= k < |ps'| ensures Step(remote, run'[k], ps'[k], run'[k + 1]) {
      if k < |ps| { assert Step(remote, run[k], ps[k], run[k + 1]); }
    }
  }

  /** An event that leaves the durable part alone. */
  lemma Quiet(remote: seq<byte>, run: seq<Durable>, ps: seq<PowerEvent>, e: Event)
    returns (run': seq<Durable>, ps': seq<PowerEvent>)
    requires IsRun(remote, run, ps)
    requires var d := run[|run| - 1];
      Enabled(remote, d.s, e) && HardFollows(remote, d.s, d.hard, e, Apply(remote, d.s, e), d.hard)
    ensures IsRun(remote, run', ps')
    ensures run'[|run'| - 1] == Durable(Apply(remote, run[|run| - 1].s, e), run[|run| - 1].hard)
  {
    var d := run[|run| - 1];
    hide HardFollows, Apply, Enabled;
    run', ps' := Extend(remote, run, ps, Of(e), Durable(Apply(remote, d.s, e), d.hard));
  }

  /** A fresh attempt has its answer. */
  lemma Answered(remote: seq<byte>) returns (run: seq<Durable>, ps: seq<PowerEvent>)
    requires |remote| >= 2
    ensures IsRun(remote, run, ps)
    ensures run[|run| - 1] == Durable(
      State(Some([]), Some(Journal(0, 0)), None, Body, 0, |remote|, 0, 0, 0, true, []), Some([]))
  {
    var none: Option<seq<byte>> := None;
    run, ps := [Durable(State(None, None, None, Down, 0, 0, 0, 0, 0, false, []), none)], [];
    run, ps := Quiet(remote, run, ps, New);
    var started := Apply(remote, run[|run| - 1].s, Start);
    run, ps := Extend(remote, run, ps, Of(Start), Durable(started, Some([])));
    run, ps := Quiet(remote, run, ps, SaveFirst(true));
    run, ps := Quiet(remote, run, ps, Answer(false, true));
  }

  /** The first byte is downloaded, its place in the file is durable, its value is not; the counters are saved. */
  lemma SavedTooEarly(remote: seq<byte>) returns (run: seq<Durable>, ps: seq<PowerEvent>)
    requires |remote| >= 2
    ensures IsRun(remote, run, ps)
    ensures var d := run[|run| - 1]; d.s.part == Some([remote[0]]) && d.hard == Some([0])
    ensures var s := run[|run| - 1].s; s.pc == Resting(Paused) && s.journal == Some(Journal(1, |remote|))
    ensures run[|run| - 1].s.dest == None && run[|run| - 1].s.releases == []
  {
    run, ps := Answered(remote);
    var s := Apply(remote, run[|run| - 1].s, Chunk(1));
    assert [] + remote[0..1] == [remote[0]];
    run, ps := Extend(remote, run, ps, Of(Chunk(1)), Durable(s, Some([0])));
    run, ps := Quiet(remote, run, ps, Stop(Paused));
    run, ps := Quiet(remote, run, ps, Close(true));
  }

  lemma OneByteRecovers(remote: seq<byte>, s: State)
    requires s.pc == Down && s.part == Some([0]) && s.journal == Some(Journal(1, |remote|)) && s.dest == None
    ensures Enabled(remote, s, Recover) && Apply(remote, s, Recover).part == s.part
    ensures Apply(remote, s, Recover)
      == s.(done := 1, total := |remote|, checkpoint := 1, pc := Resting(Queued))
  {
    assert s.part.value[..1] == s.part.value;
  }

  /**
   * The comment that calls a journaled offset durable is wrong: pausing after one byte and losing power leaves a
   * part that recovery accepts and that is not the remote content, and the download continues behind it.
   */
  lemma PowerLossMayCorrupt(remote: seq<byte>) returns (run: seq<Durable>, ps: seq<PowerEvent>)
    requires |remote| >= 2 && remote[0] != 0
    ensures IsRun(remote, run, ps)
    ensures var d := run[|run| - 1]; d.s.pc == Resting(Queued) && d.s.part == d.hard == Some([0]) && d.s.done == 1
    ensures run[|run| - 1].s.dest == None && run[|run| - 1].s.releases == []
    ensures !PrefixOf(run[|run| - 1].s.part, remote)
  {
    run, ps := SavedTooEarly(remote);
    var d := run[|run| - 1];
    run, ps := Extend(remote, run, ps, PowerLoss, Durable(d.s.(part := d.hard, pc := Down), d.hard));
    d := run[|run| - 1];
    OneByteRecovers(remote, d.s);
    run, ps := Quiet(remote, run, ps, Recover);
  }

  /** The part is synchronized when recovery cuts it, and before it is published; that the call may fail, or the
      publication after it, is PublishFails(Untouched). */
  predicate Synchronizes(s: State, e: Event, t: State) {
    (e == Recover && t.part != s.part) || e == CancelLate || (e.PublishFails? && e.how != Untouched)
  }

  /** What is durable if the system writes nothing on its own. */
  function Lazy(s: State, hard: Option<seq<byte>>, e: Event, t: State): Option<seq<byte>> {
    if t.part == None then None
    else if hard == None && (e == Start || e.Answer?) then Some([])
    else if Synchronizes(s, e, t) then t.part
    else hard
  }

  lemma LazyFollows(remote: seq<byte>, s: State, hard: Option<seq<byte>>, e: Event)
    requires Enabled(remote, s, e) && (s.part.Some? ==> hard.Some?)
    ensures var t := Apply(remote, s, e);
      HardFollows(remote, s, hard, e, t, Lazy(s, hard, e, t)) && (t.part.Some? ==> Lazy(s, hard, e, t).Some?)
  {
    hide Count;
  }

  /** Every run of the downloader is also one in which the durable part lags behind. */
  lemma {:induction false} Lift(remote: seq<byte>, run: seq<Durable>, ps: seq<PowerEvent>, es: seq<Event>)
    returns (run': seq<Durable>, ps': seq<PowerEvent>)
    requires IsRun(remote, run, ps) && Trace(remote, run[|run| - 1].s, es).Some?
    requires run[|run| - 1].s.part.Some? ==> run[|run| - 1].hard.Some?
    ensures IsRun(remote, run', ps') && run'[|run'| - 1].s == Trace(remote, run[|run| - 1].s, es).value
    decreases |es|
  {
    hide Enabled, Apply, HardFollows, Lazy;
    if es == [] {
      run', ps' := run, ps;
    } else {
      var d, e := run[|run| - 1], es[0];
      LazyFollows(remote, d.s, d.hard, e);
      var t := Apply(remote, d.s, e);
      run', ps' := Extend(remote, run, ps, Of(e), Durable(t, Lazy(d.s, d.hard, e, t)));
      run', ps' := Lift(remote, run', ps', es[1..]);
    }
  }

  /** A queued download with one byte continues with the rest and is published, whatever that byte is. */
  lemma ContinuesBehind(remote: seq<byte>, s: State) returns (es: seq<Event>, t: State)
    requires |remote| >= 2 && s.pc == Resting(Queued) && s.part == Some([0]) && s.dest == None && s.releases == []
    ensures Trace(remote, s, es) == Some(t)
    ensures t.releases == [Release([0] + remote[1..], true)]
  {
    TraceNil(remote, s);
    hide Trace;
    var u;
    es, u := Go(remote, s, [], s, Start);
    es, u := Go(remote, s, es, u, SaveFirst(true));
    es, u := Go(remote, s, es, u, Answer(true, true));
    var fs, v := Feed(remote, u, |remote| - 1);
    TraceAppend(remote, s, es, fs);
    t := Conclude(remote, v);
    TraceAppend(remote, s, es + fs, [Eof, PublishOk]);
    es := es + fs + [Eof, PublishOk];
    assert remote[1..1 + (|remote| - 1)] == remote[1..];
  }

  /**
   * As it is, losing power can publish a corrupted file under an announced length: the length check counts the
   * bytes and cannot see that one of them is not the remote one.
   */
  lemma PowerLossMayPublishCorruption(remote: seq<byte>) returns (run: seq<Durable>, ps: seq<PowerEvent>)
    requires |remote| >= 2 && remote[0] != 0
    ensures IsRun(remote, run, ps)
    ensures run[|run| - 1].s.releases == [Release([0] + remote[1..], true)]
    ensures !AllWhole(remote, run[|run| - 1].s.releases)
  {
    run, ps := PowerLossMayCorrupt(remote);
    var es, t := ContinuesBehind(remote, run[|run| - 1].s);
    run, ps := Lift(remote, run, ps, es);
    assert t.releases[0].bytes[0] == 0;
  }
}
