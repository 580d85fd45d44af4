/**
 * The resumable downloader, over one fixed remote byte string: a part file, a journal that is replaced
 * atomically, the counters of the download, and every point at which the process may be killed.
 */
module Download {
  import opened Bytes

  const CHUNK: nat := 64 * 1024
  const CHECKPOINT: nat := 4 * 1024 * 1024

  datatype Journal = Journal(done: nat, total: nat)

  datatype Phase = Queued | Paused | Failed | Canceled | Complete

  /** Where the worker is. `Down` is a process that is not running; `Resting` is a task without a worker. */
  datatype Pc =
    | Down
    | Resting(phase: Phase)
    | Opened
    | Asking
    | Cleared
    | Body
    | Saving
    | Publishing
    | Published
    | Closing(phase: Phase)

  /** A file that appeared under the final name. */
  datatype Release = Release(bytes: seq<byte>, announced: bool)

  datatype State = State(
    part: Option<seq<byte>>,
    journal: Option<Journal>,
    dest: Option<seq<byte>>,
    pc: Pc,
    // the counters of the download
    done: nat,
    total: nat,
    checkpoint: nat,
    // the answer being read: where it started, how far it was read, whether its length was announced
    resumeAt: nat,
    sent: nat,
    announced: bool,
    // history
    releases: seq<Release>)

  datatype Moved = Untouched | Linked | Renamed

  datatype Event =
    | New
    | Start
    | SaveFirst(ok: bool)
    | Refused
    | Answer(partial: bool, announced: bool)
    | SaveReset(ok: bool)
    | Chunk(n: nat)
    | WriteFails(n: nat, written: nat)
    | SaveCheckpoint(ok: bool)
    | Stop(why: Phase)
    | Eof
    | CancelLate
    | PublishOk
    | PublishFails(how: Moved)
    | Discard
    | Close(ok: bool)
    | Retry
    | CancelResting
    | Kill
    | Recover
    | LosePart
    | LoseDest

  function Size(p: Option<seq<byte>>): nat { if p.Some? then |p.value| else 0 }

  /** Counting `n` more bytes; the counter never passes a known total. */
  function Count(done: nat, total: nat, n: nat): nat {
    if total > 0 && done + n > total then total else done + n
  }

  /** The content length in effect; 0 when the answer did not announce one. */
  function Expected(remote: seq<byte>, s: State): nat { if s.announced then |remote| else 0 }

  predicate Enabled(remote: seq<byte>, s: State, e: Event) {
    match e
    case New =>
      (s.pc == Down || s.pc == Resting(Canceled) || s.pc == Resting(Complete)) && s.journal == None && s.dest == None
    case Start => s.pc == Resting(Queued)
    case SaveFirst(_) => s.pc == Opened
    case Refused => s.pc == Asking
    case Answer(partial, _) => s.pc == Asking && (partial ==> 0 < s.resumeAt < |remote|)
    case SaveReset(_) => s.pc == Cleared
    case Chunk(n) => s.pc == Body && 0 < n <= CHUNK && s.sent + n <= |remote| && s.part.Some?
    case WriteFails(n, written) => s.pc == Body && written < n <= CHUNK && s.sent + n <= |remote| && s.part.Some?
    case SaveCheckpoint(_) => s.pc == Saving
    case Stop(why) => s.pc == Body && why in {Paused, Failed, Canceled}
    case Eof => s.pc == Body
    case CancelLate => s.pc == Publishing
    case PublishOk => s.pc == Publishing && s.dest == None && s.part.Some?
    case PublishFails(how) => s.pc == Publishing && (how != Untouched ==> s.dest == None && s.part.Some?)
    case Discard => s.pc == Published
    case Close(_) => s.pc.Closing?
    case Retry => s.pc == Resting(Failed) || s.pc == Resting(Paused)
    case CancelResting => s.pc == Resting(Failed) || s.pc == Resting(Paused)
    case Kill => s.pc != Down
    case Recover =>
      s.pc == Down && s.journal.Some? && s.dest == None && s.part.Some? && s.journal.value.done <= |s.part.value|
    case LosePart => s.pc == Down || s.pc.Resting?
    case LoseDest => true
  }

  /** Opening the part file. An existing non-empty part sets the counters; an empty or missing one leaves them. */
  function Open(s: State): State {
    var size := Size(s.part);
    var t := s.(part := if s.part.Some? then s.part else Some([]), resumeAt := size, pc := Opened);
    if size > 0 then t.(done := size, checkpoint := size) else t
  }

  /** A 206 answer continues at the range asked for; a 200 answer starts over. */
  function Respond(remote: seq<byte>, s: State, partial: bool, announced: bool): State {
    var t := s.(announced := announced);
    if partial then Accept(remote, t.(sent := s.resumeAt))
    else if s.resumeAt > 0 then
      t.(part := Some([]), resumeAt := 0, sent := 0, done := 0, checkpoint := 0, pc := Cleared)
    else Accept(remote, t.(sent := 0))
  }

  function Accept(remote: seq<byte>, s: State): State {
    s.(total := if Expected(remote, s) > 0 then Expected(remote, s) else s.total, pc := Body)
  }

  function Save(s: State): State { s.(journal := Some(Journal(s.done, s.total))) }

  /** Bytes are appended and counted; every 4 MiB the counters are saved. */
  function Receive(remote: seq<byte>, s: State, n: nat): State
    requires s.part.Some? && s.sent + n <= |remote|
  {
    var done := Count(s.done, s.total, n);
    s.(part := Some(s.part.value + remote[s.sent..s.sent + n]), sent := s.sent + n, done := done,
       pc := if done >= s.checkpoint && done - s.checkpoint >= CHECKPOINT then Saving else Body)
  }

  function Finish(remote: seq<byte>, s: State): State {
    s.(pc := if Expected(remote, s) > 0 && s.done != Expected(remote, s) then Closing(Failed) else Publishing)
  }

  function Publish(remote: seq<byte>, s: State, keepPart: bool, next: Pc): State
    requires s.part.Some?
  {
    s.(dest := s.part, part := if keepPart then s.part else None, pc := next,
       releases := s.releases + [Release(s.part.value, Expected(remote, s) > 0)])
  }

  function Apply(remote: seq<byte>, s: State, e: Event): State
    requires Enabled(remote, s, e)
  {
    match e
    case New => s.(done := 0, total := 0, checkpoint := 0, pc := Resting(Queued))
    case Start => Open(s)
    case SaveFirst(ok) => if ok then Save(s).(pc := Asking) else s.(pc := Closing(Failed))
    case Refused => s.(pc := Closing(Failed))
    case Answer(partial, announced) => Respond(remote, s, partial, announced)
    case SaveReset(ok) => if ok then Accept(remote, Save(s)) else s.(pc := Closing(Failed))
    case Chunk(n) => Receive(remote, s, n)
    case WriteFails(n, written) =>
      s.(part := Some(s.part.value + remote[s.sent..s.sent + written]), pc := Closing(Failed))
    case SaveCheckpoint(ok) => if ok then Save(s).(checkpoint := s.done, pc := Body) else s.(pc := Closing(Failed))
    case Stop(why) => s.(pc := Closing(why))
    case Eof => Finish(remote, s)
    case CancelLate => s.(pc := Closing(Canceled))
    case PublishOk => Publish(remote, s, false, Published)
    case PublishFails(how) =>
      if how == Untouched then s.(pc := Closing(Failed)) else Publish(remote, s, how == Linked, Closing(Failed))
    case Discard => s.(part := None, journal := None, pc := Resting(Complete))
    case Close(ok) =>
      if s.pc.phase == Canceled then s.(part := None, journal := None, pc := Resting(Canceled))
      else if ok then Save(s).(pc := Resting(s.pc.phase))
      else s.(pc := Resting(Failed))
    case Retry => s.(pc := Resting(Queued))
    case CancelResting => s.(part := None, journal := None, pc := Resting(Canceled))
    case Kill => s.(pc := Down)
    case Recover =>
      var j := s.journal.value;
      s.(part := Some(s.part.value[..j.done]), done := j.done, total := j.total, checkpoint := j.done,
          pc := Resting(Queued))
    case LosePart => s.(part := None)
    case LoseDest => s.(dest := None)
  }

  function Trace(remote: seq<byte>, s: State, es: seq<Event>): Option<State>
    decreases |es|
  {
    if es == [] then Some(s)
    else if Enabled(remote, s, es[0]) then Trace(remote, Apply(remote, s, es[0]), es[1..])
    else None
  }

  predicate Init(s: State) {
    s.part == None && s.journal == None && s.dest == None && s.pc == Down && s.releases == []
    && s.done == 0 && s.total == 0 && s.checkpoint == 0
  }

  // ---------------------------------------------------------------- the part is always a prefix

  predicate PrefixOf(p: Option<seq<byte>>, remote: seq<byte>) { p.Some? ==> p.value <= remote }

  predicate ReleasesPrefix(remote: seq<byte>, rs: seq<Release>) {
    forall i :: 0 <= i < |rs| ==> rs[i].bytes <= remote
  }

  /** The part holds exactly what the answer has delivered so far. */
  predicate InStep(s: State) {
    && (s.pc in {Opened, Asking} ==> s.part.Some? && s.resumeAt == |s.part.value|)
    && (s.pc == Cleared ==> s.part == Some([]) && s.sent == 0 && s.done == 0)
    && (s.pc in {Body, Saving, Publishing} ==> s.part.Some? && s.sent == |s.part.value|)
  }

  predicate Inv(remote: seq<byte>, s: State) {
    PrefixOf(s.part, remote) && PrefixOf(s.dest, remote) && ReleasesPrefix(remote, s.releases) && InStep(s)
  }

  lemma AppendInv(remote: seq<byte>, s: State, k: nat, t: State)
    requires Inv(remote, s) && s.pc == Body && s.sent + k <= |remote|
    requires t
      == s.(part := Some(s.part.value + remote[s.sent..s.sent + k]), sent := t.sent, done := t.done, pc := t.pc)
    requires t.pc == Closing(Failed) || (t.pc in {Body, Saving} && t.sent == s.sent + k)
    ensures Inv(remote, t)
  {
    assert remote[..s.sent] + remote[s.sent..s.sent + k] == remote[..s.sent + k];
  }

  lemma {:induction false} StepInv(remote: seq<byte>, s: State, e: Event)
    requires Inv(remote, s) && Enabled(remote, s, e)
    ensures Inv(remote, Apply(remote, s, e))
  {
    hide Receive, Publish, Respond, Finish, Count, Open, ReleasesPrefix;
    match e
    case Start => OpenInv(remote, s);
    case Chunk(n) => ReceiveInv(remote, s, n);
    case WriteFails(n, written) => AppendInv(remote, s, written, Apply(remote, s, e));
    case PublishOk => PublishInv(remote, s, false, Published);
    case PublishFails(how) => if how != Untouched { PublishInv(remote, s, how == Linked, Closing(Failed)); }
    case Answer(partial, announced) => RespondInv(remote, s, partial, announced);
    case Eof => FinishPc(remote, s);
    case _ => if s.pc == Down || s.pc.Resting? { IdleInv(remote, s, e); }
  }

  lemma IdleInv(remote: seq<byte>, s: State, e: Event)
    requires Inv(remote, s) && Enabled(remote, s, e) && (s.pc == Down || s.pc.Resting?)
    ensures Inv(remote, Apply(remote, s, e))
  {
    hide Receive, Publish, Respond, Finish, Count, ReleasesPrefix;
  }

  lemma OpenInv(remote: seq<byte>, s: State)
    requires Inv(remote, s)
    ensures Inv(remote, Open(s))
  {
    hide ReleasesPrefix;
  }

  lemma ReceiveInv(remote: seq<byte>, s: State, n: nat)
    requires Inv(remote, s) && Enabled(remote, s, Chunk(n))
    ensures Inv(remote, Receive(remote, s, n))
  {
    AppendInv(remote, s, n, Receive(remote, s, n));
  }

  lemma FinishPc(remote: seq<byte>, s: State)
    ensures Finish(remote, s) == s.(pc := Finish(remote, s).pc) && Finish(remote, s).pc in {Closing(Failed), Publishing}
  {
  }

  lemma RespondInv(remote: seq<byte>, s: State, partial: bool, announced: bool)
    requires Inv(remote, s) && s.pc == Asking && (partial ==> 0 < s.resumeAt < |remote|)
    ensures Inv(remote, Respond(remote, s, partial, announced))
  {
    hide ReleasesPrefix;
  }

  lemma PublishInv(remote: seq<byte>, s: State, keepPart: bool, next: Pc)
    requires Inv(remote, s) && s.part.Some? && (next == Published || next.Closing?)
    ensures Inv(remote, Publish(remote, s, keepPart, next))
  {
  }

  lemma {:induction false} TraceInv(remote: seq<byte>, s: State, es: seq<Event>)
    requires Inv(remote, s) && Trace(remote, s, es).Some?
    ensures Inv(remote, Trace(remote, s, es).value)
    decreases |es|
  {
    hide Inv, Apply, Enabled;
    if es != [] {
      StepInv(remote, s, es[0]);
      TraceInv(remote, Apply(remote, s, es[0]), es[1..]);
    }
  }

  /**
   * Across fresh, resumed, restarted, failed, paused, killed and recovered attempts, in any order: the part
   * and everything ever published are prefixes of the remote content.
   */
  lemma PartIsPrefix(remote: seq<byte>, s: State, es: seq<Event>)
    requires Init(s) && Trace(remote, s, es).Some?
    ensures var t := Trace(remote, s, es).value;
      PrefixOf(t.part, remote) && PrefixOf(t.dest, remote) && ReleasesPrefix(remote, t.releases)
  {
    TraceInv(remote, s, es);
  }

  lemma {:induction false} TraceAppend(remote: seq<byte>, s: State, es: seq<Event>, fs: seq<Event>)
    requires Trace(remote, s, es).Some?
    ensures Trace(remote, s, es + fs) == Trace(remote, Trace(remote, s, es).value, fs)
    decreases |es|
  {
    hide Apply, Enabled;
    if es == [] {
      assert es + fs == fs;
    } else {
      assert (es + fs)[1..] == es[1..] + fs;
      TraceAppend(remote, Apply(remote, s, es[0]), es[1..], fs);
    }
  }

  lemma {:induction false} TraceMore(remote: seq<byte>, s: State, es: seq<Event>, t: State, e: Event)
    requires Trace(remote, s, es) == Some(t) && Enabled(remote, t, e)
    ensures Trace(remote, s, es + [e]) == Some(Apply(remote, t, e))
  {
    hide Apply, Enabled;
    TraceAppend(remote, s, es, [e]);
    assert [e][1..] == [];
  }

  // ---------------------------------------------------------------- announced lengths

  /** The counter agrees with the part whenever an attempt starts. */
  predicate Fresh(s: State) { Size(s.part) > 0 || s.done == 0 }

  predicate StartsFresh(remote: seq<byte>, s: State, es: seq<Event>)
    decreases |es|
  {
    es == [] || (Enabled(remote, s, es[0]) && (es[0] == Start ==> Fresh(s))
        && StartsFresh(remote, Apply(remote, s, es[0]), es[1..]))
  }

  predicate TotalKnown(remote: seq<byte>, total: nat) { total == 0 || total == |remote| }

  predicate AllWhole(remote: seq<byte>, rs: seq<Release>) {
    forall i :: 0 <= i < |rs| && rs[i].announced ==> rs[i].bytes == remote
  }

  /** During an attempt the counter is the size of the part, or is too large to be mistaken for it. */
  predicate Counted(remote: seq<byte>, s: State) {
    s.part.Some? && (s.done == |s.part.value| || (|remote| == 1 && (s.part.value == [] ==> s.done > 1)))
  }

  predicate Honest(remote: seq<byte>, s: State) {
    && TotalKnown(remote, s.total) && (s.journal.Some? ==> TotalKnown(remote, s.journal.value.total))
    && (s.pc in {Opened, Asking, Cleared, Body, Saving} ==> Counted(remote, s))
    && (s.pc == Publishing && Expected(remote, s) > 0 ==> s.part == Some(remote))
    && AllWhole(remote, s.releases)
  }

  lemma {:induction false} ReceiveHonest(remote: seq<byte>, s: State, n: nat)
    requires Inv(remote, s) && Honest(remote, s) && Enabled(remote, s, Chunk(n))
    ensures Honest(remote, Receive(remote, s, n))
  {
    hide AllWhole, ReleasesPrefix;
  }

  lemma {:induction false} FinishHonest(remote: seq<byte>, s: State)
    requires Inv(remote, s) && Honest(remote, s) && s.pc == Body
    ensures Honest(remote, Finish(remote, s))
  {
    hide AllWhole, ReleasesPrefix;
    var p := s.part.value;
    assert |p| == |remote| ==> p == remote[..|p|] == remote;
  }

  lemma {:induction false} PublishHonest(remote: seq<byte>, s: State, keepPart: bool, next: Pc)
    requires Honest(remote, s) && s.pc == Publishing && s.part.Some? && (next == Published || next.Closing?)
    ensures Honest(remote, Publish(remote, s, keepPart, next))
  {
  }

  lemma {:induction false} RespondHonest(remote: seq<byte>, s: State, partial: bool, announced: bool)
    requires Inv(remote, s) && Honest(remote, s) && s.pc == Asking
    ensures Honest(remote, Respond(remote, s, partial, announced))
  {
    hide AllWhole, ReleasesPrefix;
  }

  lemma {:induction false} StepHonest(remote: seq<byte>, s: State, e: Event)
    requires Inv(remote, s) && Honest(remote, s) && Enabled(remote, s, e)
    requires e == Start ==> Fresh(s) || (s.done > 1 && |remote| == 1)
    ensures Honest(remote, Apply(remote, s, e))
  {
    hide AllWhole, ReleasesPrefix, Receive, Finish, Publish, Respond;
    match e
    case Chunk(n) => ReceiveHonest(remote, s, n);
    case Eof => FinishHonest(remote, s);
    case PublishOk => PublishHonest(remote, s, false, Published);
    case PublishFails(how) => if how != Untouched { PublishHonest(remote, s, how == Linked, Closing(Failed)); }
    case Answer(partial, announced) => RespondHonest(remote, s, partial, announced);
    case _ =>
  }

  lemma {:induction false} TraceHonest(remote: seq<byte>, s: State, es: seq<Event>)
    requires Inv(remote, s) && Honest(remote, s) && StartsFresh(remote, s, es)
    ensures Trace(remote, s, es).Some? && Honest(remote, Trace(remote, s, es).value)
    decreases |es|
  {
    hide Inv, Honest, Apply, Enabled, Fresh;
    if es != [] {
      StepInv(remote, s, es[0]);
      StepHonest(remote, s, es[0]);
      TraceHonest(remote, Apply(remote, s, es[0]), es[1..]);
    }
  }

  /** A file published with an announced length is the whole remote content, as long as attempts start fresh. */
  lemma AnnouncedIsWhole(remote: seq<byte>, s: State, es: seq<Event>)
    requires Init(s) && StartsFresh(remote, s, es)
    ensures Trace(remote, s, es).Some? && AllWhole(remote, Trace(remote, s, es).value.releases)
  {
    TraceHonest(remote, s, es);
  }

  // ---------------------------------------------------------------- when attempts start fresh

  /** Nobody removed the part, and no publication failed after moving it. */
  predicate Undisturbed(es: seq<Event>) { LosePart !in es && PublishFails(Renamed) !in es }

  predicate Startable(pc: Pc) {
    pc in {Opened, Asking, Cleared, Body, Saving, Publishing, Resting(Queued), Resting(Paused), Resting(Failed),
           Closing(Paused), Closing(Failed)}
  }

  /** The counter never runs ahead of the part. */
  predicate Behind(s: State) { Startable(s.pc) ==> s.done <= Size(s.part) }

  lemma {:induction false} StepBehind(remote: seq<byte>, s: State, e: Event)
    requires Inv(remote, s) && Behind(s) && Enabled(remote, s, e) && e != LosePart && e != PublishFails(Renamed)
    requires s.pc.Closing? ==> s.pc.phase in {Paused, Failed, Canceled}
    ensures Behind(Apply(remote, s, e))
    ensures Apply(remote, s, e).pc.Closing? ==> Apply(remote, s, e).pc.phase in {Paused, Failed, Canceled}
  {
  }

  lemma BehindIsFresh(remote: seq<byte>, s: State)
    requires Behind(s) && Enabled(remote, s, Start)
    ensures Fresh(s)
  {
  }

  /** Without outside interference every attempt starts fresh, kills and recoveries included. */
  lemma {:induction false} UndisturbedStartsFresh(remote: seq<byte>, s: State, es: seq<Event>)
    requires Inv(remote, s) && Behind(s) && (s.pc.Closing? ==> s.pc.phase in {Paused, Failed, Canceled})
    requires Trace(remote, s, es).Some? && Undisturbed(es)
    ensures StartsFresh(remote, s, es)
    decreases |es|
  {
    hide Inv, Apply, Enabled, Behind;
    if es != [] {
      StepInv(remote, s, es[0]);
      StepBehind(remote, s, es[0]);
      UndisturbedStartsFresh(remote, Apply(remote, s, es[0]), es[1..]);
      if es[0] == Start { BehindIsFresh(remote, s); }
    }
  }

  lemma UndisturbedIsWhole(remote: seq<byte>, s: State, es: seq<Event>)
    requires Init(s) && Trace(remote, s, es).Some? && Undisturbed(es)
    ensures AllWhole(remote, Trace(remote, s, es).value.releases)
  {
    UndisturbedStartsFresh(remote, s, es);
    AnnouncedIsWhole(remote, s, es);
  }

  // ---------------------------------------------------------------- exactly when one attempt is safe

  /** The events of one attempt after it started. */
  predicate Within(es: seq<Event>) { Start !in es && Recover !in es }

  /** Whatever the server and the storage do, the attempt publishes nothing but the announced content. */
  ghost predicate AttemptSafe(remote: seq<byte>, s: State) {
    forall es :: Within(es) && Trace(remote, s, [Start] + es).Some? ==>
      AllWhole(remote, Trace(remote, s, [Start] + es).value.releases)
  }

  /** A queued task about to run, with nothing published under its name. */
  predicate Ready(remote: seq<byte>, s: State) {
    && s.pc == Resting(Queued) && s.dest == None && s.releases == [] && PrefixOf(s.part, remote)
    && TotalKnown(remote, s.total) && (s.journal.Some? ==> TotalKnown(remote, s.journal.value.total))
  }

  predicate SafeStart(remote: seq<byte>, s: State) {
    Size(s.part) > 0 || s.done == 0 || |remote| == 0 || (|remote| == 1 && s.done > 1)
  }

  lemma {:induction false} WithinHonest(remote: seq<byte>, s: State, es: seq<Event>)
    requires Inv(remote, s) && Honest(remote, s) && Within(es) && Trace(remote, s, es).Some?
    ensures Honest(remote, Trace(remote, s, es).value)
    decreases |es|
  {
    hide Inv, Honest, Apply, Enabled;
    if es != [] {
      StepInv(remote, s, es[0]);
      StepHonest(remote, s, es[0]);
      WithinHonest(remote, Apply(remote, s, es[0]), es[1..]);
    }
  }

  lemma {:induction false} NothingToAnnounce(s: State, es: seq<Event>)
    requires AllWhole([], s.releases) && Trace([], s, es).Some?
    ensures AllWhole([], Trace([], s, es).value.releases)
    decreases |es|
  {
    if es != [] {
      assert AllWhole([], Apply([], s, es[0]).releases);
      hide Apply, Enabled, AllWhole;
      NothingToAnnounce(Apply([], s, es[0]), es[1..]);
    }
  }

  lemma SafeStartSuffices(remote: seq<byte>, s: State, es: seq<Event>)
    requires Ready(remote, s) && SafeStart(remote, s) && Within(es) && Trace(remote, s, [Start] + es).Some?
    ensures AllWhole(remote, Trace(remote, s, [Start] + es).value.releases)
  {
    if |remote| == 0 {
      assert remote == [];
      NothingToAnnounce(s, [Start] + es);
    } else {
      assert ([Start] + es)[1..] == es;
      StepInv(remote, s, Start);
      StepHonest(remote, s, Start);
      WithinHonest(remote, Apply(remote, s, Start), es);
    }
  }

  /** One more byte of the body, with the save that may follow. */
  lemma {:induction false} FeedOne(remote: seq<byte>, s: State) returns (es: seq<Event>, t: State)
    requires s.pc == Body && s.part.Some? && s.sent < |remote|
    ensures Within(es) && Trace(remote, s, es) == Some(t)
    ensures t == s.(part := Some(s.part.value + remote[s.sent..s.sent + 1]), sent := s.sent + 1,
                    done := Count(s.done, s.total, 1), journal := t.journal, checkpoint := t.checkpoint)
  {
    var u := Apply(remote, s, Chunk(1));
    TraceMore(remote, s, [], s, Chunk(1));
    assert [] + [Chunk(1)] == [Chunk(1)];
    if u.pc == Saving {
      TraceMore(remote, s, [Chunk(1)], u, SaveCheckpoint(true));
      es, t := [Chunk(1)] + [SaveCheckpoint(true)], Apply(remote, u, SaveCheckpoint(true));
    } else {
      es, t := [Chunk(1)], u;
    }
  }

  /** A server can deliver any number of the remaining bytes and then stop. */
  lemma {:induction false} Feed(remote: seq<byte>, s: State, n: nat) returns (es: seq<Event>, t: State)
    requires s.pc == Body && s.part.Some? && s.sent + n <= |remote| && 0 < s.total
    ensures Within(es) && Trace(remote, s, es) == Some(t)
    ensures t.pc == Body && t.part == Some(s.part.value + remote[s.sent..s.sent + n]) && t.sent == s.sent + n
    ensures t.done == if n == 0 then s.done else Min(s.done + n, s.total)
    ensures t.total == s.total && t.announced == s.announced && t.dest == s.dest && t.releases == s.releases
    decreases n
  {
    hide Enabled, Apply, Trace;
    if n == 0 {
      es, t := [], s;
      assert s.part.value + remote[s.sent..s.sent] == s.part.value;
      TraceNil(remote, s);
    } else {
      var first, u := FeedOne(remote, s);
      var rest;
      rest, t := Feed(remote, u, n - 1);
      TraceAppend(remote, s, first, rest);
      es := first + rest;
      var p := s.part.value;
      assert (p + remote[s.sent..s.sent + 1]) + remote[s.sent + 1..s.sent + n] == p + remote[s.sent..s.sent + n];
    }
  }

  lemma TraceNil(remote: seq<byte>, s: State)
    ensures Trace(remote, s, []) == Some(s)
  {
  }

  /** The attempt up to the body of an announced answer. */
  lemma {:induction false} Introduce(remote: seq<byte>, s: State) returns (es: seq<Event>, t: State)
    requires s.pc == Resting(Queued) && Size(s.part) == 0
    ensures Within(es) && Trace(remote, s, [Start] + es) == Some(t)
    ensures t.pc == Body && t.part == Some([]) && t.sent == 0 && t.done == s.done && t.announced
    ensures t.total == (if |remote| > 0 then |remote| else s.total) && t.dest == s.dest && t.releases == s.releases
  {
    var a := Apply(remote, s, Start);
    var b := Apply(remote, a, SaveFirst(true));
    TraceMore(remote, s, [], s, Start);
    assert [] + [Start] == [Start];
    TraceMore(remote, s, [Start], a, SaveFirst(true));
    TraceMore(remote, s, [Start] + [SaveFirst(true)], b, Answer(false, true));
    es, t := [SaveFirst(true), Answer(false, true)], Apply(remote, b, Answer(false, true));
    assert [Start] + [SaveFirst(true)] + [Answer(false, true)] == [Start] + es;
  }

  /** A body that ends with the counter at the announced length is published. */
  lemma {:induction false} Conclude(remote: seq<byte>, s: State) returns (t: State)
    requires s.pc == Body && s.part.Some? && s.announced && s.done == |remote| > 0 && s.dest == None
    ensures Trace(remote, s, [Eof, PublishOk]) == Some(t) && t.releases == s.releases + [Release(s.part.value, true)]
  {
    var e := Apply(remote, s, Eof);
    TraceMore(remote, s, [], s, Eof);
    assert [] + [Eof] == [Eof];
    TraceMore(remote, s, [Eof], e, PublishOk);
    t := Apply(remote, e, PublishOk);
  }

  /** An empty or missing part with a non-zero counter lets a truncated answer pass for the whole. */
  lemma {:induction false} StaleCounterPublishesTruncation(remote: seq<byte>, s: State) returns (es: seq<Event>)
    requires Ready(remote, s) && !SafeStart(remote, s)
    ensures Within(es) && Trace(remote, s, [Start] + es).Some?
    ensures !AllWhole(remote, Trace(remote, s, [Start] + es).value.releases)
  {
    hide Enabled, Apply, Trace;
    var size := |remote|;
    var n := if s.done < size then size - s.done else if s.done == size then 0 else 1;
    var intro, c := Introduce(remote, s);
    var mid, d := Feed(remote, c, n);
    TraceAppend(remote, s, [Start] + intro, mid);
    var t := Conclude(remote, d);
    TraceAppend(remote, s, [Start] + intro + mid, [Eof, PublishOk]);
    es := intro + mid + [Eof, PublishOk];
    assert [Start] + es == [Start] + intro + mid + [Eof, PublishOk];
    assert t.releases[0] == Release([] + remote[0..n], true);
    assert |t.releases[0].bytes| == n < size;
  }

  /**
   * An attempt is safe, whatever happens in it, if and only if it starts with a non-empty part or a zero
   * counter; the two exceptions are an empty remote file and a counter beyond a one-byte one.
   */
  lemma AttemptSafeExactly(remote: seq<byte>, s: State)
    requires Ready(remote, s)
    ensures AttemptSafe(remote, s) <==> SafeStart(remote, s)
  {
    if SafeStart(remote, s) {
      forall es | Within(es) && Trace(remote, s, [Start] + es).Some?
        ensures AllWhole(remote, Trace(remote, s, [Start] + es).value.releases)
      {
        SafeStartSuffices(remote, s, es);
      }
    } else {
      var es := StaleCounterPublishesTruncation(remote, s);
      assert Within(es);
    }
  }

  lemma Go(remote: seq<byte>, s: State, es: seq<Event>, t: State, e: Event) returns (fs: seq<Event>, u: State)
    requires Trace(remote, s, es) == Some(t) && Enabled(remote, t, e)
    ensures fs == es + [e] && u == Apply(remote, t, e) && Trace(remote, s, fs) == Some(u)
  {
    TraceMore(remote, s, es, t, e);
    fs, u := es + [e], Apply(remote, t, e);
  }

  /** Pausing, losing the part and resuming leaves a counter without a part. */
  lemma PauseAndLose(remote: seq<byte>, s: State) returns (es: seq<Event>, t: State)
    requires s.pc == Body && TotalKnown(remote, s.total)
    ensures Trace(remote, s, es) == Some(t)
    ensures t == s.(part := None, journal := Some(Journal(s.done, s.total)), pc := Resting(Queued))
  {
    TraceNil(remote, s);
    hide Trace;
    es, t := Go(remote, s, [], s, Stop(Paused));
    es, t := Go(remote, s, es, t, Close(true));
    es, t := Go(remote, s, es, t, LosePart);
    es, t := Go(remote, s, es, t, Retry);
  }

  /** The finding is reachable: pausing after one byte, losing the part and resuming is enough. */
  lemma LosingThePartMayTruncate(remote: seq<byte>, s: State) returns (es: seq<Event>)
    requires Init(s) && |remote| >= 2
    ensures Trace(remote, s, es).Some? && !AllWhole(remote, Trace(remote, s, es).value.releases)
  {
    hide Trace;
    TraceNil(remote, s);
    var t;
    es, t := Go(remote, s, [], s, New);
    var fs, u := Introduce(remote, t);
    TraceAppend(remote, s, es, [Start] + fs);
    es := es + ([Start] + fs);
    fs, t := FeedOne(remote, u);
    TraceAppend(remote, s, es, fs);
    es := es + fs;
    fs, u := PauseAndLose(remote, t);
    TraceAppend(remote, s, es, fs);
    es := es + fs;
    hide Enabled, Apply;
    fs := StaleCounterPublishesTruncation(remote, u);
    TraceAppend(remote, s, es, [Start] + fs);
    es := es + ([Start] + fs);
  }

  /** Without an announced length nothing tells a truncated answer from a whole one. */
  lemma UnannouncedMayTruncate(remote: seq<byte>, s: State) returns (es: seq<Event>)
    requires Init(s) && remote != []
    ensures Undisturbed(es) && Trace(remote, s, es).Some?
    ensures Trace(remote, s, es).value.releases == [Release([], false)]
  {
    hide Trace;
    TraceNil(remote, s);
    var t;
    es, t := Go(remote, s, [], s, New);
    es, t := Go(remote, s, es, t, Start);
    es, t := Go(remote, s, es, t, SaveFirst(true));
    es, t := Go(remote, s, es, t, Answer(false, false));
    es, t := Go(remote, s, es, t, Eof);
    es, t := Go(remote, s, es, t, PublishOk);
  }

  predicate WholeWhen(remote: seq<byte>, rs: seq<Release>, announced: bool) {
    forall i :: 0 <= i < |rs| && rs[i].announced == announced ==> rs[i].bytes == remote
  }

  /** Whatever happens, nobody interfering: a file published with this flag is the whole remote content. */
  ghost predicate UndisturbedWhole(remote: seq<byte>, announced: bool) {
    forall s, es :: Init(s) && Trace(remote, s, es).Some? && Undisturbed(es) ==>
      WholeWhen(remote, Trace(remote, s, es).value.releases, announced)
  }

  /** The announced length is what makes a published file whole, and nothing else does. */
  lemma WholeExactly(remote: seq<byte>, announced: bool)
    ensures UndisturbedWhole(remote, announced) <==> announced || remote == []
  {
    hide Trace, Init, Undisturbed;
    if announced || remote == [] {
      forall s, es | Init(s) && Trace(remote, s, es).Some? && Undisturbed(es)
        ensures WholeWhen(remote, Trace(remote, s, es).value.releases, announced)
      {
        UndisturbedIsWhole(remote, s, es);
        PartIsPrefix(remote, s, es);
      }
    } else {
      var s := State(None, None, None, Down, 0, 0, 0, 0, 0, false, []);
      assert Init(s) by { Beginning(s); }
      var es := UnannouncedMayTruncate(remote, s);
      assert Trace(remote, s, es).value.releases[0] == Release([], false);
    }
  }

  lemma Beginning(s: State)
    requires s == State(None, None, None, Down, 0, 0, 0, 0, 0, false, [])
    ensures Init(s)
  {
  }

  /** After a kill, the part is cut back to the saved offset and the next request asks for exactly the rest. */
  lemma RecoveryAsksForTheRest(remote: seq<byte>, s: State)
    requires Inv(remote, s) && Enabled(remote, s, Recover)
    ensures var t := Apply(remote, Apply(remote, s, Recover), Start);
      && t.resumeAt == t.done == t.checkpoint == s.journal.value.done
      && t.part == Some(remote[..t.resumeAt])
  {
    var d := s.journal.value.done;
    assert s.part.value[..d] == remote[..d];
  }

  // ---------------------------------------------------------------- how much a kill can lose

  /** While bytes arrive, the counter is the size of the part and less than 4 MiB, or a read more, past the journal. */
  predicate Recent(s: State) {
    && (Startable(s.pc) ==> s.checkpoint <= s.done)
    && (s.pc in {Opened, Asking, Cleared, Body, Saving} ==> s.part.Some? && s.done == |s.part.value|)
    && (s.pc in {Asking, Body, Saving} ==> s.journal.Some? && s.journal.value.done == s.checkpoint)
    && (s.pc in {Opened, Asking, Cleared} ==> s.checkpoint == s.done)
    && (s.pc == Body ==> s.done < s.checkpoint + CHECKPOINT)
    && (s.pc == Saving ==> s.done < s.checkpoint + CHECKPOINT + CHUNK)
  }

  lemma ReceiveRecent(remote: seq<byte>, s: State, n: nat)
    requires Inv(remote, s) && TotalKnown(remote, s.total) && Recent(s) && Enabled(remote, s, Chunk(n))
    ensures Recent(Receive(remote, s, n))
  {
    hide ReleasesPrefix;
  }

  lemma RespondRecent(remote: seq<byte>, s: State, partial: bool, announced: bool)
    requires Recent(s) && s.pc == Asking
    ensures Recent(Respond(remote, s, partial, announced))
  {
  }

  lemma OpenRecent(s: State)
    requires Behind(s) && Recent(s) && s.pc == Resting(Queued)
    ensures Recent(Open(s))
  {
  }

  lemma FinishRecent(remote: seq<byte>, s: State)
    requires Recent(s) && s.pc == Body
    ensures Recent(Finish(remote, s))
  {
  }

  /** Outside an attempt only the order of the two counters matters. */
  lemma QuietRecent(remote: seq<byte>, s: State, e: Event)
    requires Recent(s) && Enabled(remote, s, e) && e != Start && s.pc !in {Opened, Asking, Cleared, Body, Saving}
    requires s.pc.Closing? ==> s.pc.phase in {Paused, Failed, Canceled}
    ensures Recent(Apply(remote, s, e))
  {
    hide Open, Receive, Respond, Finish;
  }

  lemma BusyRecent(remote: seq<byte>, s: State, e: Event)
    requires Recent(s) && Enabled(remote, s, e) && s.pc in {Opened, Asking, Cleared, Body, Saving}
    requires !e.Chunk? && !e.Answer? && e != Eof && e != LosePart
    ensures Recent(Apply(remote, s, e))
  {
    hide Open, Receive, Respond, Finish, Publish;
  }

  lemma {:induction false} StepRecent(remote: seq<byte>, s: State, e: Event)
    requires Inv(remote, s) && Behind(s) && TotalKnown(remote, s.total) && Recent(s) && Enabled(remote, s, e)
    requires e != LosePart && e != PublishFails(Renamed)
    requires s.pc.Closing? ==> s.pc.phase in {Paused, Failed, Canceled}
    ensures Recent(Apply(remote, s, e))
  {
    hide Inv, Behind, Recent, Receive, Respond, Open, Finish, Publish;
    match e
    case Start => OpenRecent(s);
    case Eof => FinishRecent(remote, s);
    case Chunk(n) => ReceiveRecent(remote, s, n);
    case Answer(partial, announced) => RespondRecent(remote, s, partial, announced);
    case _ =>
      if s.pc in {Opened, Asking, Cleared, Body, Saving} {
        BusyRecent(remote, s, e);
      } else {
        QuietRecent(remote, s, e);
      }
  }

  lemma {:induction false} TraceRecent(remote: seq<byte>, s: State, es: seq<Event>)
    requires Inv(remote, s) && Honest(remote, s) && Behind(s) && Recent(s)
    requires s.pc.Closing? ==> s.pc.phase in {Paused, Failed, Canceled}
    requires Trace(remote, s, es).Some? && Undisturbed(es)
    ensures Recent(Trace(remote, s, es).value)
    decreases |es|
  {
    hide Inv, Apply, Enabled, Behind, Recent, Fresh, AllWhole, Counted;
    if es != [] {
      StepInv(remote, s, es[0]);
      StepBehind(remote, s, es[0]);
      if es[0] == Start { BehindIsFresh(remote, s); }
      StepHonest(remote, s, es[0]);
      StepRecent(remote, s, es[0]);
      TraceRecent(remote, Apply(remote, s, es[0]), es[1..]);
    }
  }

  /**
   * Wherever a kill strikes while bytes arrive, less than 4 MiB, or 4 MiB and one read while the counters are being
   * saved, lie behind the offset that recovery cuts the part back to.
   */
  lemma KillLosesLittle(remote: seq<byte>, s: State, es: seq<Event>)
    requires Init(s) && Trace(remote, s, es).Some? && Undisturbed(es)
    requires Trace(remote, s, es).value.pc in {Body, Saving}
    ensures var t := Trace(remote, s, es).value;
      && t.part.Some? && t.journal.Some? && t.journal.value.done <= |t.part.value|
      && |t.part.value| - t.journal.value.done < (if t.pc == Body then 0x40_0000 else 0x41_0000)
  {
    TraceRecent(remote, s, es);
  }

  // ---------------------------------------------------------------- one attempt, as the worker runs it

  /** What the server does in one attempt. */
  datatype Server = NoAnswer | Server(partial: bool, announced: bool, chunks: seq<nat>, end: Option<Phase>)

  /** Which of the storage operations of one attempt succeed. */
  datatype Storage = Storage(first: bool, reset: bool, saves: bool, writes: bool, close: bool, publish: Option<Moved>)

  predicate Calm(storage: Storage) {
    storage.first && storage.reset && storage.saves && storage.writes && storage.close && storage.publish == None
  }

  /** How far the answer gets when it is read in pieces of these sizes; an empty piece ends it. */
  function Delivered(sent: nat, chunks: seq<nat>, size: nat): nat
    decreases |chunks|
  {
    if chunks == [] || sent >= size || chunks[0] == 0 then sent
    else Delivered(sent + Min(Min(chunks[0], CHUNK), size - sent), chunks[1..], size)
  }

  /** Where the answer to a request for the bytes from `size` on begins. */
  function AnswerStart(server: Server, size: nat, remote: nat): nat {
    if server.Server? && server.partial && 0 < size < remote then size else 0
  }

  /** The counter, the part and the answer agree. */
  predicate Exact(s: State) { s.part.Some? && s.done == s.sent == |s.part.value| }

  class Transfer {
    const remote: seq<byte>
    var part: Option<seq<byte>>
    var journal: Option<Journal>
    var dest: Option<seq<byte>>
    var done: nat
    var total: nat
    var checkpoint: nat
    var resumeAt: nat
    var sent: nat
    var announced: bool
    var pc: Pc
    ghost var releases: seq<Release>

    constructor (remote: seq<byte>)
      ensures this.remote == remote && Init(Now())
    {
      this.remote := remote;
      part, journal, dest, done, total, checkpoint := None, None, None, 0, 0, 0;
      resumeAt, sent, announced, pc, releases := 0, 0, false, Down, [];
    }

    ghost function Now(): State
      reads this
    {
      State(part, journal, dest, pc, done, total, checkpoint, resumeAt, sent, announced, releases)
    }

    ghost predicate Did(before: State, e: Event)
      reads this
    {
      Enabled(remote, before, e) && Now() == Apply(remote, before, e)
    }

    method OpenPart()
      requires pc == Resting(Queued)
      modifies this
      ensures Did(old(Now()), Start)
    {
      resumeAt := if part.Some? then |part.value| else 0;
      if part == None { part := Some([]); }
      if resumeAt > 0 { done, checkpoint := resumeAt, resumeAt; }
      pc := Opened;
    }

    method SaveJournal()
      modifies this`journal
      ensures Now() == Save(old(Now()))
    {
      journal := Some(Journal(done, total));
    }

    method AcceptAnswer()
      modifies this`total, this`pc
      ensures Now() == Accept(remote, old(Now()))
    {
      if announced && |remote| > 0 { total := |remote|; }
      pc := Body;
    }

    method TakeAnswer(partial: bool, length: bool)
      requires pc == Asking && (partial ==> 0 < resumeAt < |remote|)
      modifies this
      ensures Did(old(Now()), Answer(partial, length))
    {
      announced, sent := length, resumeAt;
      if !partial && resumeAt > 0 {
        part, resumeAt, sent, done, checkpoint, pc := Some([]), 0, 0, 0, 0, Cleared;
      } else {
        AcceptAnswer();
      }
    }

    /** The write loop for one read, then the accounting. */
    method TakeChunk(n: nat)
      requires pc == Body && part.Some? && 0 < n <= CHUNK && sent + n <= |remote|
      modifies this
      ensures Did(old(Now()), Chunk(n)) && sent == old(sent) + n && total == old(total) && dest == old(dest)
      ensures announced == old(announced) && part.Some? && |part.value| == |old(part).value| + n
      ensures done == Count(old(done), total, n)
    {
      part := Some(part.value + remote[sent..sent + n]);
      sent := sent + n;
      done := done + n;
      if total > 0 && done > total { done := total; }
      pc := if done >= checkpoint && done - checkpoint >= CHECKPOINT then Saving else Body;
    }

    /** Opening the part and saving the counters before asking for anything. */
    method Begin(storage: Storage) returns (ghost es: seq<Event>)
      requires pc == Resting(Queued)
      modifies this
      ensures Within(es) && Trace(remote, old(Now()), [Start] + es) == Some(Now())
      ensures if storage.first then pc == Asking else pc == Closing(Failed)
      ensures dest == old(dest) && total == old(total) && resumeAt == old(Size(part))
      ensures part.Some? && |part.value| == resumeAt && (old(Fresh(Now())) ==> done == resumeAt)
    {
      hide Trace;
      ghost var start := Now();
      TraceNil(remote, start);
      OpenPart();
      ghost var begun := Now();
      TraceMore(remote, start, [], start, Start);
      assert [] + [Start] == [Start];
      if storage.first { SaveJournal(); }
      pc := if storage.first then Asking else Closing(Failed);
      es := [SaveFirst(storage.first)];
      TraceMore(remote, start, [Start], begun, SaveFirst(storage.first));
    }

    /** The answer: refused, continuing at the range asked for, or starting over. */
    method Ask(server: Server, storage: Storage) returns (ghost es: seq<Event>)
      requires pc == Asking
      modifies this
      ensures Within(es) && Trace(remote, old(Now()), es) == Some(Now())
      ensures pc == Closing(Failed) || (server.Server? && pc == Body)
      ensures server.Server? && storage.reset ==> pc == Body
      ensures dest == old(dest)
      ensures pc == Body ==> sent == AnswerStart(server, old(resumeAt), |remote|) && announced == server.announced
      ensures pc == Body && old(TotalKnown(remote, total)) ==> TotalKnown(remote, total)
      ensures pc == Body && old(part.Some? && done == resumeAt == |part.value|) ==> Exact(Now())
    {
      hide Trace;
      ghost var start := Now();
      TraceNil(remote, start);
      if server == NoAnswer {
        pc := Closing(Failed);
        es := [Refused];
        TraceMore(remote, start, [], start, Refused);
        assert [] + [Refused] == [Refused];
        return;
      }
      var partial := server.partial && 0 < resumeAt < |remote|;
      TakeAnswer(partial, server.announced);
      es := [Answer(partial, server.announced)];
      TraceMore(remote, start, [], start, Answer(partial, server.announced));
      assert [] + es == es;
      ghost var answered := Now();
      if pc == Cleared {
        if storage.reset {
          SaveJournal();
          AcceptAnswer();
        } else {
          pc := Closing(Failed);
        }
        TraceMore(remote, start, es, answered, SaveReset(storage.reset));
        es := es + [SaveReset(storage.reset)];
      }
    }

    /** The read loop: it ends at the end of the answer, on a stop request or on a storage failure. */
    method Transmit(server: Server, storage: Storage) returns (failed: bool, ghost es: seq<Event>)
      requires Inv(remote, Now()) && pc == Body && server.Server?
      modifies this
      ensures Within(es) && Trace(remote, old(Now()), es) == Some(Now())
      ensures if failed then pc == Closing(Failed) else pc == Body && part.Some?
      ensures storage.writes && storage.saves ==> !failed
      ensures dest == old(dest) && announced == old(announced)
      ensures !failed ==> sent == Delivered(old(sent), server.chunks, |remote|)
      ensures !failed && old(Exact(Now()) && TotalKnown(remote, total)) ==> Exact(Now())
    {
      hide Inv, Enabled, Apply, Trace, Within, Exact;
      ghost var start := Now();
      var i := 0;
      failed, es := false, [];
      TraceNil(remote, start);
      InvBody(remote, start);
      assert Within([]) by { WithinNone(); }
      assert server.chunks[0..] == server.chunks;
      while i < |server.chunks| && !failed
        invariant i <= |server.chunks| && Within(es) && Trace(remote, start, es) == Some(Now())
        invariant if failed then pc == Closing(Failed) else pc == Body && part.Some? && sent <= |remote|
        invariant storage.writes && storage.saves ==> !failed
        invariant dest == start.dest && announced == start.announced && total == start.total
        invariant !failed ==>
          Delivered(sent, server.chunks[i..], |remote|) == Delivered(start.sent, server.chunks, |remote|)
        invariant !failed && Exact(start) && TotalKnown(remote, start.total) ==> Exact(Now())
      {
        var n := Min(Min(server.chunks[i], CHUNK), |remote| - sent);
        DeliveredStep(sent, server.chunks, i, |remote|);
        i := i + 1;
        if n == 0 { return; }
        ghost var before := Now();
        ghost var more;
        failed, more := TakeAndSave(n, storage, i == |server.chunks|);
        TraceAppend(remote, start, es, more);
        WithinBoth(es, more);
        es := es + more;
      }
      if !failed { NothingDelivered(sent, server.chunks[i..], |remote|); }
    }

    /** One read: written and counted, with a save when one is due; the last write may fail half way. */
    method TakeAndSave(n: nat, storage: Storage, last: bool) returns (failed: bool, ghost es: seq<Event>)
      requires pc == Body && part.Some? && 0 < n <= CHUNK && sent + n <= |remote|
      modifies this
      ensures Within(es) && Trace(remote, old(Now()), es) == Some(Now())
      ensures if failed then pc == Closing(Failed) else pc == Body && part.Some? && sent == old(sent) + n
      ensures storage.writes && storage.saves ==> !failed
      ensures dest == old(dest) && announced == old(announced) && total == old(total)
      ensures !failed && old(Exact(Now()) && TotalKnown(remote, total)) ==> Exact(Now())
    {
      hide Enabled, Apply, Trace;
      ghost var start := Now();
      TraceNil(remote, start);
      failed := false;
      if !storage.writes && last {
        part := Some(part.value + remote[sent..sent + n / 2]);
        failed, pc := true, Closing(Failed);
        CanFail(remote, start, n);
        es := [WriteFails(n, n / 2)];
        TraceMore(remote, start, [], start, es[0]);
        assert [] + es == es;
        return;
      }
      TakeChunk(n);
      es := [Chunk(n)];
      TraceMore(remote, start, [], start, es[0]);
      assert [] + es == es;
      Received(remote, start, n);
      if done >= checkpoint && done - checkpoint >= CHECKPOINT {
        ghost var full := Now();
        if storage.saves {
          SaveJournal();
          checkpoint := done;
          pc := Body;
        } else {
          failed, pc := true, Closing(Failed);
        }
        Checkpointed(remote, full, storage.saves);
        TraceMore(remote, start, es, full, SaveCheckpoint(storage.saves));
        es := es + [SaveCheckpoint(storage.saves)];
      }
    }

    /** Publication without overwriting: by link or by rename, either of which may fail half way. */
    method Move(storage: Storage) returns (ghost e: Event)
      requires pc == Publishing && part.Some?
      modifies this`part, this`dest, this`pc, this`releases
      ensures (e == PublishOk || e.PublishFails?) && Did(old(Now()), e)
      ensures if e == PublishOk then pc == Published && dest == old(part) else pc == Closing(Failed)
      ensures storage.publish == None && old(dest) == None ==> e == PublishOk
    {
      var moved := if storage.publish.Some? && (dest == None || storage.publish == Some(Untouched)) then storage.publish
                   else if dest == None then None else Some(Untouched);
      e := if moved == None then PublishOk else PublishFails(moved.value);
      if moved == Some(Untouched) {
        pc := Closing(Failed);
      } else {
        releases := releases + [Release(part.value, announced && |remote| > 0)];
        dest := part;
        if moved != Some(Linked) { part := None; }
        pc := if moved == None then Published else Closing(Failed);
      }
    }

    /** After the last read: a stop request, the length check, and the publication. */
    method Conclude(server: Server, storage: Storage) returns (ghost es: seq<Event>)
      requires pc == Body && part.Some? && server.Server?
      requires server.end.Some? ==> server.end.value in {Paused, Failed, Canceled}
      modifies this
      ensures Within(es) && Trace(remote, old(Now()), es) == Some(Now())
      ensures (pc.Closing? && pc.phase != Complete) || pc == Published
      ensures pc == Published ==> dest == old(part)
      ensures server.end.Some? ==> pc == Closing(server.end.value)
      ensures server.end.None? && old(announced && |remote| > 0 && done != |remote|) ==> pc == Closing(Failed)
      ensures server.end.None? && !old(announced && |remote| > 0 && done != |remote|) ==>
        storage.publish == None && old(dest) == None ==>
        pc == Published
    {
      hide Trace;
      ghost var start := Now();
      TraceNil(remote, start);
      if server.end.Some? {
        pc := Closing(server.end.value);
        es := [Stop(server.end.value)];
        TraceMore(remote, start, [], start, Stop(server.end.value));
        assert [] + es == es;
        return;
      }
      var short := announced && |remote| > 0 && done != |remote|;
      pc := if short then Closing(Failed) else Publishing;
      es := [Eof];
      TraceMore(remote, start, [], start, Eof);
      assert [] + [Eof] == [Eof];
      if short { return; }
      ghost var complete := Now();
      ghost var last := Move(storage);
      TraceMore(remote, start, es, complete, last);
      es := es + [last];
    }

    /** What remains on disk afterwards: nothing, or the part with its saved counters. */
    method Leave(storage: Storage) returns (phase: Phase, ghost es: seq<Event>)
      requires pc.Closing? || pc == Published
      modifies this
      ensures Within(es) && Trace(remote, old(Now()), es) == Some(Now())
      ensures pc == Resting(phase) && dest == old(dest)
      ensures phase == if old(pc) == Published then Complete
        else if storage.close || old(pc) == Closing(Canceled) then old(pc).phase else Failed
    {
      hide Trace;
      ghost var start := Now();
      TraceNil(remote, start);
      ghost var last := if pc == Published then Discard else Close(storage.close);
      if pc == Published || pc == Closing(Canceled) {
        phase := if pc == Published then Complete else Canceled;
        part, journal := None, None;
      } else if storage.close {
        SaveJournal();
        phase := pc.phase;
      } else {
        phase := Failed;
      }
      pc := Resting(phase);
      es := [last];
      TraceMore(remote, start, [], start, last);
      assert [] + es == es;
    }

    /**
     * One attempt of the worker. It is a run of the model; a queued task that starts safely publishes nothing
     * but the whole remote content when the length was announced.
     */
    method Run(server: Server, storage: Storage) returns (phase: Phase, ghost es: seq<Event>)
      requires Inv(remote, Now()) && pc == Resting(Queued)
      requires server.Server? && server.end.Some? ==> server.end.value in {Paused, Failed, Canceled}
      modifies this
      ensures Within(es) && Trace(remote, old(Now()), [Start] + es) == Some(Now())
      ensures Inv(remote, Now()) && pc == Resting(phase)
      ensures old(Ready(remote, Now())) && old(SafeStart(remote, Now())) ==> AllWhole(remote, releases)
      ensures server == NoAnswer ==> phase == Failed
      ensures Calm(storage) && server.Server? && server.end.Some? ==> phase == server.end.value
      ensures Calm(storage) && server.Server? && server.end.None? && !server.announced && old(dest) == None ==>
        phase == Complete && dest.Some?
      ensures Calm(storage) && server.Server? && server.end.None? && server.announced && |remote| > 0 ==>
        old(dest == None && Fresh(Now()) && TotalKnown(remote, total)) ==>
        (phase == Complete <==>
         Delivered(AnswerStart(server, old(Size(part)), |remote|), server.chunks, |remote|) == |remote|)
    {
      hide Trace, Enabled, Apply, Inv, Within, AllWhole, Ready, SafeStart, Fresh, Exact, TotalKnown, Delivered,
        AnswerStart;
      ghost var start := Now();
      es := Begin(storage);
      ghost var more;
      if pc == Asking {
        TraceInv(remote, start, [Start] + es);
        more := Exchange(server, storage);
        Extend(remote, start, es, more);
        es := es + more;
      }
      phase, more := Leave(storage);
      Extend(remote, start, es, more);
      es := es + more;
      TraceInv(remote, start, [Start] + es);
      if Ready(remote, start) && SafeStart(remote, start) { SafeStartSuffices(remote, start, es); }
    }

    /** Request, answer, body and publication. */
    method Exchange(server: Server, storage: Storage) returns (ghost es: seq<Event>)
      requires Inv(remote, Now()) && pc == Asking
      requires server.Server? && server.end.Some? ==> server.end.value in {Paused, Failed, Canceled}
      modifies this
      ensures Within(es) && Trace(remote, old(Now()), es) == Some(Now())
      ensures (pc.Closing? && pc.phase != Complete) || (pc == Published && dest.Some?)
      ensures server == NoAnswer ==> pc == Closing(Failed)
      ensures Calm(storage) && server.Server? && server.end.Some? ==> pc == Closing(server.end.value)
      ensures Calm(storage) && server.Server? && server.end.None? && !server.announced && old(dest) == None ==>
        pc == Published
      ensures Calm(storage) && server.Server? && server.end.None? && server.announced && |remote| > 0 ==>
        old(dest == None && part.Some? && done == resumeAt == |part.value| && TotalKnown(remote, total)) ==>
        (pc == Published <==>
         Delivered(AnswerStart(server, old(resumeAt), |remote|), server.chunks, |remote|) == |remote|)
    {
      hide Trace, Enabled, Apply, Inv, Within, TotalKnown, Delivered, AnswerStart;
      ghost var start := Now();
      es := Ask(server, storage);
      ghost var more;
      if pc == Body {
        TraceInv(remote, start, es);
        var failed;
        failed, more := Transmit(server, storage);
        TraceAppend(remote, start, es, more);
        WithinBoth(es, more);
        es := es + more;
        if !failed {
          more := Conclude(server, storage);
          TraceAppend(remote, start, es, more);
          WithinBoth(es, more);
          es := es + more;
        }
      }
    }
  }

  lemma Extend(remote: seq<byte>, start: State, es: seq<Event>, more: seq<Event>)
    requires Within(es) && Within(more) && Trace(remote, start, [Start] + es).Some?
    ensures Within(es + more)
    ensures Trace(remote, start, [Start] + (es + more)) == Trace(remote, Trace(remote, start, [Start] + es).value, more)
  {
    TraceAppend(remote, start, [Start] + es, more);
    assert [Start] + (es + more) == [Start] + es + more;
  }

  lemma WithinNone()
    ensures Within([])
  {
  }

  lemma WithinBoth(es: seq<Event>, fs: seq<Event>)
    requires Within(es) && Within(fs)
    ensures Within(es + fs)
  {
  }

  lemma DeliveredStep(sent: nat, chunks: seq<nat>, i: nat, size: nat)
    requires i < |chunks| && sent <= size
    ensures var n := Min(Min(chunks[i], CHUNK), size - sent);
      Delivered(sent, chunks[i..], size) == if n == 0 then sent else Delivered(sent + n, chunks[i + 1..], size)
  {
    assert chunks[i..][1..] == chunks[i + 1..] && chunks[i..][0] == chunks[i];
  }

  lemma NothingDelivered(sent: nat, chunks: seq<nat>, size: nat)
    requires chunks == []
    ensures Delivered(sent, chunks, size) == sent
  {
  }

  lemma InvBody(remote: seq<byte>, s: State)
    requires Inv(remote, s) && s.pc == Body
    ensures s.part.Some? && s.sent <= |remote|
  {
  }

  lemma CanFail(remote: seq<byte>, s: State, n: nat)
    requires s.pc == Body && s.part.Some? && 0 < n <= CHUNK && s.sent + n <= |remote|
    ensures Enabled(remote, s, WriteFails(n, n / 2))
    ensures Apply(remote, s, WriteFails(n, n / 2))
      == s.(part := Some(s.part.value + remote[s.sent..s.sent + n / 2]), pc := Closing(Failed))
  {
  }

  lemma Received(remote: seq<byte>, s: State, n: nat)
    requires Enabled(remote, s, Chunk(n))
    ensures var t := Apply(remote, s, Chunk(n));
      && t.part.Some? && t.sent <= |remote|
      && t.pc == if t.done >= t.checkpoint && t.done - t.checkpoint >= CHECKPOINT then Saving else Body
  {
  }

  lemma Checkpointed(remote: seq<byte>, s: State, ok: bool)
    requires s.pc == Saving
    ensures Enabled(remote, s, SaveCheckpoint(ok))
    ensures Apply(remote, s, SaveCheckpoint(ok))
      == if ok then Save(s).(checkpoint := s.done, pc := Body) else s.(pc := Closing(Failed))
  {
  }
}
