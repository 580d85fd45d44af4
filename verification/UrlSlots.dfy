/**
 * The bounded queue of URL workers: a counter of transfers under one lock, a condition variable, and the
 * requests that cancel, resume and retry tasks while workers come and go.
 */
module UrlSlots {
  import opened Bytes

  const LIMIT: nat := 2

  datatype TaskState = Queued | Running | Paused | Failed | Canceled | Done

  datatype Task = Task(state: TaskState, cancel: bool)

  /** Starting: the thread is about to be created. Passed: the wait loop is over and the lock still held.
      Leaving: the exit path of the worker. */
  datatype Phase =
    | Starting
    | Entering
    | Asleep
    | Passed
    | Admitted(slot: bool)
    | Preparing(slot: bool)
    | Transferring(slot: bool)
    | Finished(slot: bool, outcome: TaskState)
    | Reporting(outcome: TaskState)
    | Telling(outcome: TaskState)
    | Leaving(slot: bool)
    | Gone

  /** `acquired` and `released` count what the worker did to the counter. */
  datatype Worker = Worker(task: nat, phase: Phase, acquired: nat, released: nat)

  /** `broadcasts` are wake-ups that a cancellation has announced and not yet performed; `lock` is the worker
      that holds the lock of the counter between two of its steps. The flags are under another lock. */
  datatype State = State(tasks: seq<Task>, workers: seq<Worker>, count: nat, broadcasts: nat, lock: Option<nat>)

  datatype Event =
    | NewTask
    | Spawn(w: nat, ok: bool)
    | Test(w: nat)
    | Take(w: nat)
    | Spurious(w: nat)
    | Begin(w: nat)
    | Decide(w: nat)
    | End(w: nat, outcome: TaskState)
    | GiveBack(w: nat)
    | Judge(w: nat)
    | Report(w: nat)
    | Leave(w: nat)
    | Cancel(t: nat)
    | Broadcast
    | Resume(t: nat)

  predicate WorkerIn(s: State, w: nat) { w < |s.workers| && s.workers[w].task < |s.tasks| }

  predicate Active(st: TaskState) { st == Queued || st == Running }

  /** What can happen at all. A step that needs the lock waits until nobody holds it. */
  predicate Possible(s: State, e: Event) {
    match e
    case NewTask => true
    case Spawn(w, _) => WorkerIn(s, w) && s.workers[w].phase == Starting
    case Test(w) => WorkerIn(s, w) && s.workers[w].phase == Entering && s.lock == None
    case Take(w) => WorkerIn(s, w) && s.workers[w].phase == Passed
    case Spurious(w) => WorkerIn(s, w) && s.workers[w].phase == Asleep
    case Begin(w) => WorkerIn(s, w) && s.workers[w].phase.Admitted?
    case Decide(w) => WorkerIn(s, w) && s.workers[w].phase.Preparing?
    case End(w, outcome) =>
      WorkerIn(s, w) && s.workers[w].phase.Transferring? && outcome in {Paused, Failed, Canceled, Done}
    case GiveBack(w) => WorkerIn(s, w) && s.workers[w].phase.Finished? && (s.workers[w].phase.slot ==> s.lock == None)
    case Judge(w) => WorkerIn(s, w) && s.workers[w].phase.Reporting?
    case Report(w) => WorkerIn(s, w) && s.workers[w].phase.Telling?
    case Leave(w) => WorkerIn(s, w) && s.workers[w].phase.Leaving? && (s.workers[w].phase.slot ==> s.lock == None)
    case Cancel(t) => t < |s.tasks| && (Active(s.tasks[t].state) || Idle(s.tasks[t].state))
    case Broadcast => s.broadcasts > 0 && s.lock == None
    case Resume(t) => t < |s.tasks|
  }

  /** States from which a download may be resumed or retried. */
  predicate Idle(st: TaskState) { st == Paused || st == Failed }

  /** Only an idle download is resumed: this is the one rule about who may clear a cancellation flag. */
  predicate Guarded(s: State, e: Event) {
    e.Resume? && e.t < |s.tasks| ==> Idle(s.tasks[e.t].state)
  }

  predicate Enabled(s: State, e: Event) { Possible(s, e) && Guarded(s, e) }

  function Woken(w: Worker): Worker { if w.phase == Asleep then w.(phase := Entering) else w }

  function WakeAll(ws: seq<Worker>): (r: seq<Worker>)
    ensures |r| == |ws|
  {
    seq(|ws|, i requires 0 <= i < |ws| => Woken(ws[i]))
  }

  function Goto(s: State, w: nat, p: Phase): State
    requires w < |s.workers|
  {
    s.(workers := s.workers[w := s.workers[w].(phase := p)])
  }

  function Put(s: State, t: nat, st: TaskState): State
    requires t < |s.tasks|
  {
    s.(tasks := s.tasks[t := s.tasks[t].(state := st)])
  }

  /** The wait loop, with its look at the flag: sleep while every slot is taken, unless cancelled. */
  function Wait(s: State, w: nat): State
    requires WorkerIn(s, w)
  {
    if s.count >= LIMIT && !s.tasks[s.workers[w].task].cancel then Goto(s, w, Asleep)
    else Goto(s, w, Passed).(lock := Some(w))
  }

  /** After the loop, with a second look at the flag: a cancelled download takes no slot. The count is not
      looked at again. */
  function Admit(s: State, w: nat): State
    requires WorkerIn(s, w)
  {
    if s.tasks[s.workers[w].task].cancel then Goto(s, w, Admitted(false)).(lock := None)
    else
      var worker := s.workers[w].(phase := Admitted(true), acquired := s.workers[w].acquired + 1);
      s.(count := s.count + 1, workers := s.workers[w := worker], lock := None)
  }

  /** The counter is a 32-bit unsigned integer. */
  function Decrement(n: nat): nat { (n + 0xFFFF_FFFF) % 0x1_0000_0000 }

  /** Under the lock: the counter goes down and every sleeper is woken, if a slot is held at all. */
  function Return(s: State, w: nat, slot: bool, next: Phase): State
    requires w < |s.workers|
  {
    if slot then
      s.(count := Decrement(s.count),
         workers := WakeAll(s.workers[w := s.workers[w].(phase := next, released := s.workers[w].released + 1)]))
    else Goto(s, w, next)
  }

  /** The last look at the flag: a transfer that failed counts as cancelled if somebody asked for it. */
  function Verdict(outcome: TaskState, cancelled: bool): TaskState {
    if outcome == Failed && cancelled then Canceled else outcome
  }

  function Apply(s: State, e: Event): State
    requires Possible(s, e)
  {
    match e
    case NewTask =>
      s.(tasks := s.tasks + [Task(Queued, false)], workers := s.workers + [Worker(|s.tasks|, Starting, 0, 0)])
    case Spawn(w, ok) => if ok then Goto(s, w, Entering) else Goto(Put(s, s.workers[w].task, Failed), w, Gone)
    case Test(w) => Wait(s, w)
    case Take(w) => Admit(s, w)
    case Spurious(w) => Goto(s, w, Entering)
    case Begin(w) => Goto(Put(s, s.workers[w].task, Running), w, Preparing(s.workers[w].phase.slot))
    case Decide(w) =>
      if s.tasks[s.workers[w].task].cancel
      then Goto(Put(s, s.workers[w].task, Canceled), w, Leaving(s.workers[w].phase.slot))
      else Goto(s, w, Transferring(s.workers[w].phase.slot))
    case End(w, outcome) => Goto(s, w, Finished(s.workers[w].phase.slot, outcome))
    case GiveBack(w) => Return(s, w, s.workers[w].phase.slot, Reporting(s.workers[w].phase.outcome))
    case Judge(w) => Goto(s, w, Telling(Verdict(s.workers[w].phase.outcome, s.tasks[s.workers[w].task].cancel)))
    case Report(w) => Goto(Put(s, s.workers[w].task, s.workers[w].phase.outcome), w, Leaving(false))
    case Leave(w) => Return(s, w, s.workers[w].phase.slot, Gone)
    case Cancel(t) =>
      var st := s.tasks[t].state;
      s.(tasks := s.tasks[t := Task(if Active(st) then st else Canceled, true)], broadcasts := s.broadcasts + 1)
    case Broadcast => s.(workers := WakeAll(s.workers), broadcasts := s.broadcasts - 1)
    case Resume(t) =>
      s.(tasks := s.tasks[t := Task(Queued, false)], workers := s.workers + [Worker(t, Starting, 0, 0)])
  }

  // ---------------------------------------------------------------- the invariant

  predicate HasSlot(p: Phase) {
    (p.Admitted? || p.Preparing? || p.Transferring? || p.Finished? || p.Leaving?) && p.slot
  }

  function Held(w: Worker): nat { if HasSlot(w.phase) then 1 else 0 }

  function Holders(ws: seq<Worker>): nat {
    if ws == [] then 0 else Holders(ws[..|ws| - 1]) + Held(ws[|ws| - 1])
  }

  /** A worker that still has something to say about its task. */
  predicate Live(p: Phase) { !p.Leaving? && p != Gone }

  /** Each worker's own bookkeeping. */
  predicate WorkerOk(s: State, i: nat)
    requires i < |s.workers|
  {
    var w := s.workers[i];
    && w.task < |s.tasks|
    && w.acquired <= 1 && w.acquired == w.released + Held(w)
    && (w.phase in {Starting, Entering, Asleep, Passed} ==> w.acquired == 0)
    && (w.phase == Passed <==> s.lock == Some(i))
    && (w.phase == Passed && s.count >= LIMIT ==> s.tasks[w.task].cancel)
    && (Live(w.phase) ==> Active(s.tasks[w.task].state))
    && (w.phase.Transferring? || w.phase.Finished? ==> w.phase.slot)
    && ((w.phase.Admitted? || w.phase.Preparing?) && !w.phase.slot ==> s.tasks[w.task].cancel)
    && (w.phase == Asleep ==> s.broadcasts > 0 || (s.count >= LIMIT && !s.tasks[w.task].cancel))
    && (w.phase.Finished? || w.phase.Reporting? || w.phase.Telling? ==>
          w.phase.outcome in {Paused, Failed, Canceled, Done})
  }

  /** At most one live worker speaks for a task. */
  predicate Alone(s: State, i: nat, j: nat)
    requires i < |s.workers| && j < |s.workers|
  {
    i != j && Live(s.workers[i].phase) && Live(s.workers[j].phase) ==> s.workers[i].task != s.workers[j].task
  }

  ghost predicate Inv(s: State) {
    && s.count == Holders(s.workers) && s.count <= LIMIT
    && (s.lock.Some? ==> s.lock.value < |s.workers|)
    && (forall i :: 0 <= i < |s.workers| ==> WorkerOk(s, i))
    && (forall i, j :: 0 <= i < |s.workers| && 0 <= j < |s.workers| ==> Alone(s, i, j))
  }

  // ---------------------------------------------------------------- counting

  lemma {:induction false} HoldersUpdate(ws: seq<Worker>, i: nat, w: Worker)
    requires i < |ws|
    ensures Holders(ws[i := w]) == Holders(ws) - Held(ws[i]) + Held(w)
  {
    var n := |ws| - 1;
    if i == n {
      assert ws[i := w][..n] == ws[..n];
    } else {
      HoldersUpdate(ws[..n], i, w);
      assert ws[i := w][..n] == ws[..n][i := w];
    }
  }

  lemma HoldersPush(ws: seq<Worker>, w: Worker)
    ensures Holders(ws + [w]) == Holders(ws) + Held(w)
  {
    assert (ws + [w])[..|ws|] == ws;
  }

  lemma {:induction false} HoldersWake(ws: seq<Worker>)
    ensures Holders(WakeAll(ws)) == Holders(ws)
  {
    if ws != [] {
      HoldersWake(ws[..|ws| - 1]);
      assert WakeAll(ws)[..|ws| - 1] == WakeAll(ws[..|ws| - 1]);
    }
  }

  lemma {:induction false} HoldersAtLeast(ws: seq<Worker>, i: nat)
    requires i < |ws|
    ensures Holders(ws) >= Held(ws[i])
  {
    if i < |ws| - 1 {
      HoldersAtLeast(ws[..|ws| - 1], i);
      assert ws[..|ws| - 1][i] == ws[i];
    }
  }

  lemma {:induction false} NoHolders(ws: seq<Worker>)
    requires forall i :: 0 <= i < |ws| ==> !HasSlot(ws[i].phase)
    ensures Holders(ws) == 0
  {
    if ws != [] { NoHolders(ws[..|ws| - 1]); }
  }

  // ---------------------------------------------------------------- every step keeps it

  /** Events that move one worker and leave the others alone. */
  predicate Moves(e: Event) {
    e.Spawn? || e.Test? || e.Take? || e.Spurious? || e.Begin? || e.Decide? || e.End? || e.Judge? || e.Report?
  }

  lemma MoveOthers(s: State, e: Event, i: nat)
    requires Inv(s) && Enabled(s, e) && Moves(e) && i < |s.workers| && i != e.w
    ensures var t := Apply(s, e); |t.workers| == |s.workers| && t.workers[i] == s.workers[i] && WorkerOk(t, i)
  {
    hide Holders;
    assert WorkerOk(s, i) && WorkerOk(s, e.w) && Alone(s, i, e.w);
  }

  lemma MoveOwn(s: State, e: Event)
    requires Inv(s) && Enabled(s, e) && Moves(e) && e.w < |s.workers|
    ensures var t := Apply(s, e); |t.workers| == |s.workers| && WorkerOk(t, e.w)
    ensures Live(Apply(s, e).workers[e.w].phase) ==> Live(s.workers[e.w].phase)
    ensures Apply(s, e).workers[e.w].task == s.workers[e.w].task
  {
    hide Holders, Alone;
    assert WorkerOk(s, e.w);
  }

  lemma {:induction false} MoveWorkers(s: State, e: Event, i: nat)
    requires Inv(s) && Enabled(s, e) && Moves(e) && i < |s.workers|
    ensures var t := Apply(s, e); |t.workers| == |s.workers| && WorkerOk(t, i)
    ensures Live(Apply(s, e).workers[i].phase) ==> Live(s.workers[i].phase)
    ensures Apply(s, e).workers[i].task == s.workers[i].task
  {
    hide Inv, Enabled, Apply, WorkerOk;
    if i == e.w { MoveOwn(s, e); } else { MoveOthers(s, e, i); }
  }

  lemma {:induction false} MoveCount(s: State, e: Event)
    requires Inv(s) && Enabled(s, e) && Moves(e)
    ensures var t := Apply(s, e); t.count == Holders(t.workers) && t.count <= LIMIT
  {
    assert WorkerOk(s, e.w);
    HoldersUpdate(s.workers, e.w, Apply(s, e).workers[e.w]);
  }

  lemma {:induction false} MoveInv(s: State, e: Event)
    requires Inv(s) && Enabled(s, e) && Moves(e)
    ensures Inv(Apply(s, e))
  {
    MoveCount(s, e);
    var t := Apply(s, e);
    hide Apply, Enabled, WorkerOk, Holders;
    forall i | 0 <= i < |s.workers|
      ensures |t.workers| == |s.workers| && WorkerOk(t, i)
      ensures Live(t.workers[i].phase) ==> Live(s.workers[i].phase)
      ensures t.workers[i].task == s.workers[i].task
    {
      MoveWorkers(s, e, i);
    }
    assert |t.workers| == |s.workers| by { if s.workers == [] { MoveSize(s, e); } }
    forall i, j | 0 <= i < |t.workers| && 0 <= j < |t.workers| ensures Alone(t, i, j) {
      assert Alone(s, i, j);
    }
  }

  lemma MoveSize(s: State, e: Event)
    requires Enabled(s, e) && Moves(e)
    ensures |Apply(s, e).workers| == |s.workers|
  {
  }

  /** Returning a slot, or leaving without one. */
  lemma {:induction false} ReturnInv(s: State, w: nat, slot: bool, next: Phase)
    requires Inv(s) && WorkerIn(s, w) && slot == HasSlot(s.workers[w].phase)
    requires Ends(s.workers[w].phase, next)
    ensures Inv(Return(s, w, slot, next))
  {
    var t := Return(s, w, slot, next);
    ReturnCount(s, w, slot, next);
    forall i | 0 <= i < |t.workers| ensures WorkerOk(t, i) { ReturnOk(s, w, slot, next, i); }
    hide Holders, WorkerOk, Return;
    forall i, j | 0 <= i < |t.workers| && 0 <= j < |t.workers| ensures Alone(t, i, j) {
      assert Alone(s, i, j);
      ReturnMoves(s, w, slot, next, i);
      ReturnMoves(s, w, slot, next, j);
    }
  }

  predicate Ends(phase: Phase, next: Phase) {
    (phase.Leaving? && next == Gone) || (phase.Finished? && next == Reporting(phase.outcome))
  }

  lemma {:induction false} ReturnCount(s: State, w: nat, slot: bool, next: Phase)
    requires Inv(s) && WorkerIn(s, w) && slot == HasSlot(s.workers[w].phase) && Ends(s.workers[w].phase, next)
    ensures var t := Return(s, w, slot, next);
      && |t.workers| == |s.workers| && t.count == Holders(t.workers) <= s.count && t.lock == s.lock
      && t.tasks == s.tasks && t.broadcasts == s.broadcasts && (!slot ==> t.count == s.count)
  {
    var moved := s.workers[w].(
      phase := next, released := if slot then s.workers[w].released + 1 else s.workers[w].released);
    HoldersUpdate(s.workers, w, moved);
    HoldersAtLeast(s.workers, w);
    HoldersWake(s.workers[w := moved]);
    hide Holders, WorkerOk, Alone;
  }

  /** Returning moves one worker, and may wake sleepers. */
  lemma ReturnMoves(s: State, w: nat, slot: bool, next: Phase, i: nat)
    requires WorkerIn(s, w) && i < |s.workers| && Ends(s.workers[w].phase, next)
    ensures var t := Return(s, w, slot, next);
      && |t.workers| == |s.workers| && t.workers[i].task == s.workers[i].task
      && (Live(t.workers[i].phase) ==> Live(s.workers[i].phase))
  {
  }

  lemma ReturnOk(s: State, w: nat, slot: bool, next: Phase, i: nat)
    requires Inv(s) && WorkerIn(s, w) && slot == HasSlot(s.workers[w].phase) && Ends(s.workers[w].phase, next)
    requires i < |s.workers|
    ensures var t := Return(s, w, slot, next); |t.workers| == |s.workers| && WorkerOk(t, i)
  {
    hide Alone;
    ReturnCount(s, w, slot, next);
    hide Holders;
    assert WorkerOk(s, i);
  }

  lemma ArriveWorkers(s: State, e: Event, i: nat)
    requires Inv(s) && Enabled(s, e) && (e == NewTask || e.Resume?)
    ensures var t := Apply(s, e);
      && |t.workers| == |s.workers| + 1 && t.count == s.count && t.workers == s.workers + [t.workers[|s.workers|]]
      && !HasSlot(t.workers[|s.workers|].phase) && WorkerOk(t, |s.workers|)
      && (i < |s.workers| ==> WorkerOk(t, i) && Alone(t, i, |s.workers|) && Alone(t, |s.workers|, i))
  {
    hide Holders;
    if i < |s.workers| { assert WorkerOk(s, i); }
  }

  lemma {:induction false} ArriveInv(s: State, e: Event)
    requires Inv(s) && Enabled(s, e) && (e == NewTask || e.Resume?)
    ensures Inv(Apply(s, e))
  {
    var t := Apply(s, e);
    var n := |s.workers|;
    ArriveWorkers(s, e, n);
    HoldersPush(s.workers, t.workers[n]);
    hide Holders, Apply, Enabled, WorkerOk;
    forall i | 0 <= i < n ensures WorkerOk(t, i) && Alone(t, i, n) && Alone(t, n, i) { ArriveWorkers(s, e, i); }
    forall i, j | 0 <= i < n && 0 <= j < n ensures Alone(t, i, j) { assert Alone(s, i, j); }
  }

  lemma {:induction false} SignalInv(s: State, e: Event)
    requires Inv(s) && Enabled(s, e) && (e == Broadcast || e.Cancel?)
    ensures Inv(Apply(s, e))
  {
    var t := Apply(s, e);
    HoldersWake(s.workers);
    hide Holders;
    forall i | 0 <= i < |t.workers| ensures WorkerOk(t, i) { assert WorkerOk(s, i); }
    forall i, j | 0 <= i < |t.workers| && 0 <= j < |t.workers| ensures Alone(t, i, j) { assert Alone(s, i, j); }
  }

  lemma {:induction false} StepInv(s: State, e: Event)
    requires Inv(s) && Enabled(s, e)
    ensures Inv(Apply(s, e))
  {
    hide Inv, Goto, Put, Wait, Admit, Return, WakeAll;
    if Moves(e) {
      MoveInv(s, e);
    } else if e == NewTask || e.Resume? {
      ArriveInv(s, e);
    } else if e == Broadcast || e.Cancel? {
      SignalInv(s, e);
    } else if e.GiveBack? {
      SlotKept(s, e.w);
      ReturnInv(s, e.w, s.workers[e.w].phase.slot, Reporting(s.workers[e.w].phase.outcome));
    } else {
      ReturnInv(s, e.w, s.workers[e.w].phase.slot, Gone);
    }
  }

  lemma SlotKept(s: State, w: nat)
    requires Inv(s) && WorkerIn(s, w)
    ensures s.workers[w].phase.Transferring? || s.workers[w].phase.Finished? ==> s.workers[w].phase.slot
  {
    assert WorkerOk(s, w);
  }

  // ---------------------------------------------------------------- results over every run

  predicate Init(s: State) {
    s.tasks == [] && s.workers == [] && s.count == 0 && s.broadcasts == 0 && s.lock == None
  }

  function Trace(s: State, es: seq<Event>): Option<State>
    decreases |es|
  {
    if es == [] then Some(s) else if Enabled(s, es[0]) then Trace(Apply(s, es[0]), es[1..]) else None
  }

  lemma {:induction false} TraceInv(s: State, es: seq<Event>)
    requires Inv(s) && Trace(s, es).Some?
    ensures Inv(Trace(s, es).value)
    decreases |es|
  {
    hide Inv, Possible, Guarded, Apply;
    if es != [] {
      StepInv(s, es[0]);
      TraceInv(Apply(s, es[0]), es[1..]);
    }
  }

  /** The counter is the number of workers that hold a slot, never more than two; every transfer holds one. */
  lemma CounterIsExact(s: State, es: seq<Event>)
    requires Init(s) && Trace(s, es).Some?
    ensures var t := Trace(s, es).value;
      && t.count == Holders(t.workers) <= LIMIT
      && forall i :: 0 <= i < |t.workers| && t.workers[i].phase.Transferring? ==> HasSlot(t.workers[i].phase)
  {
    TraceInv(s, es);
    var t := Trace(s, es).value;
    forall i | 0 <= i < |t.workers| && t.workers[i].phase.Transferring? ensures HasSlot(t.workers[i].phase) {
      assert WorkerOk(t, i);
    }
  }

  /** Every way out, early cancellation and pause included, gives a slot back exactly as often as it was taken. */
  lemma SlotReturnedOnce(s: State, es: seq<Event>, i: nat)
    requires Init(s) && Trace(s, es).Some? && i < |Trace(s, es).value.workers|
    ensures var w := Trace(s, es).value.workers[i];
      w.phase == Gone ==> w.acquired == w.released <= 1
  {
    TraceInv(s, es);
    assert WorkerOk(Trace(s, es).value, i);
  }

  /** No two workers ever transfer for the same task. */
  lemma OneTransferPerTask(s: State, es: seq<Event>, i: nat, j: nat)
    requires Init(s) && Trace(s, es).Some? && i < |Trace(s, es).value.workers| && j < |Trace(s, es).value.workers|
    requires i != j
    requires Trace(s, es).value.workers[i].phase.Transferring? && Trace(s, es).value.workers[j].phase.Transferring?
    ensures Trace(s, es).value.workers[i].task != Trace(s, es).value.workers[j].task
  {
    TraceInv(s, es);
    assert Alone(Trace(s, es).value, i, j);
  }

  /** When every worker has gone, every slot is free again. */
  lemma AllSlotsFreeAtRest(s: State, es: seq<Event>)
    requires Init(s) && Trace(s, es).Some? && forall i :: 0 <= i < |Trace(s, es).value.workers| ==>
      Trace(s, es).value.workers[i].phase == Gone
    ensures Trace(s, es).value.count == 0
  {
    TraceInv(s, es);
    NoHolders(Trace(s, es).value.workers);
  }

  /** What the workers and a pending broadcast can do by themselves. */
  predicate Internal(e: Event) { !(e == NewTask || e.Spurious? || e.Cancel? || e.Resume?) }

  function NextOf(w: nat, p: Phase): Event
    requires p != Gone && p != Asleep
  {
    match p
    case Starting => Spawn(w, true)
    case Entering => Test(w)
    case Passed => Take(w)
    case Admitted(_) => Begin(w)
    case Preparing(_) => Decide(w)
    case Transferring(_) => End(w, Done)
    case Finished(_, _) => GiveBack(w)
    case Reporting(_) => Judge(w)
    case Telling(_) => Report(w)
    case Leaving(_) => Leave(w)
    case Asleep => assert false; Broadcast
    case Gone => assert false; Broadcast
  }

  lemma AwakeCanMove(s: State, i: nat)
    requires Inv(s) && i < |s.workers| && s.workers[i].phase != Gone && s.workers[i].phase != Asleep
    requires s.lock == None || s.workers[i].phase == Passed
    ensures Enabled(s, NextOf(i, s.workers[i].phase)) && Internal(NextOf(i, s.workers[i].phase))
  {
    assert WorkerOk(s, i);
  }

  /** While any worker is left, a worker or a pending broadcast can move. */
  lemma NeverStuck(s: State, i: nat)
    requires Inv(s) && i < |s.workers| && s.workers[i].phase != Gone
    ensures exists e :: Internal(e) && Enabled(s, e)
  {
    if s.lock.Some? {
      var k := s.lock.value;
      assert WorkerOk(s, k);
      AwakeCanMove(s, k);
      assert Enabled(s, NextOf(k, s.workers[k].phase));
    } else if k: nat :| k < |s.workers| && s.workers[k].phase != Gone && s.workers[k].phase != Asleep {
      AwakeCanMove(s, k);
      assert Enabled(s, NextOf(k, s.workers[k].phase));
    } else {
      assert WorkerOk(s, i);
      NoHolders(s.workers);
      assert Enabled(s, Broadcast);
    }
  }

  /** No wake-up is lost: a worker sleeps only while both slots are taken by others and nobody cancelled its
      download, or else a broadcast is on its way. */
  lemma NoLostWakeup(s: State, es: seq<Event>, i: nat)
    requires Init(s) && Trace(s, es).Some? && i < |Trace(s, es).value.workers|
    requires Trace(s, es).value.workers[i].phase == Asleep
    ensures var t := Trace(s, es).value;
      && t.workers[i].task < |t.tasks|
      && (t.broadcasts > 0 || (t.count == Holders(t.workers) == LIMIT && !t.tasks[t.workers[i].task].cancel))
  {
    TraceInv(s, es);
    assert WorkerOk(Trace(s, es).value, i);
  }

  // ---------------------------------------------------------------- how a download ends

  /** Worker `i` still speaks for download `t`. */
  predicate Speaks(s: State, t: nat, i: nat) {
    i < |s.workers| && s.workers[i].task == t && Live(s.workers[i].phase)
  }

  /** The state a transfer that ended with `outcome` leaves behind: `early` says whether a cancellation had been asked
      for when it ended, `since` whether one was asked for afterwards. */
  predicate Final(outcome: TaskState, early: bool, since: bool, st: TaskState) {
    if outcome == Failed && early then st == Canceled
    else st == outcome || (Idle(outcome) && since && st == Canceled)
  }

  /** The transfer of worker `w` ended with `outcome`: told, or still to be told, and by nobody else. */
  ghost predicate Ended(s: State, w: nat, outcome: TaskState, early: bool, since: bool) {
    && WorkerIn(s, w) && outcome in {Paused, Failed, Canceled, Done}
    && var t, p := s.workers[w].task, s.workers[w].phase;
       || ((p.Finished? || p.Reporting?) && p.outcome == outcome
           && (early ==> s.tasks[t].cancel) && (s.tasks[t].cancel ==> early || since))
       || (p.Telling? && Final(outcome, early, since, p.outcome))
       || ((p.Leaving? || p == Gone) && (forall i :: !Speaks(s, t, i))
           && Final(outcome, early, since, s.tasks[t].state))
  }

  /** One event leaves every other worker in its phase, or wakes it. */
  lemma OthersStay(s: State, e: Event, i: nat)
    requires Enabled(s, e) && i < |s.workers|
    ensures i < |Apply(s, e).workers| && Apply(s, e).workers[i].task == s.workers[i].task
    ensures Live(Apply(s, e).workers[i].phase) ==> Live(s.workers[i].phase)
  {
  }

  lemma OnlyNewSpeak(s: State, e: Event, t: nat, i: nat)
    requires Inv(s) && Enabled(s, e) && t < |s.tasks| && e != Resume(t) && Speaks(Apply(s, e), t, i)
    ensures Speaks(s, t, i)
  {
    hide Inv;
    if i < |s.workers| { OthersStay(s, e, i); }
  }

  /** Nothing but a cancellation changes a download that no worker speaks for. */
  lemma SilentTask(s: State, e: Event, t: nat)
    requires Enabled(s, e) && t < |s.tasks| && e != Resume(t) && forall i :: !Speaks(s, t, i)
    ensures t < |Apply(s, e).tasks|
    ensures var st := Apply(s, e).tasks[t].state;
      st == s.tasks[t].state || (e == Cancel(t) && Idle(s.tasks[t].state) && st == Canceled)
  {
    if Moves(e) { assert !Speaks(s, t, e.w); }
  }

  /** What becomes of a worker behind its transfer. */
  lemma EndedPhase(s: State, e: Event, w: nat)
    requires Enabled(s, e) && WorkerIn(s, w)
    ensures WorkerIn(Apply(s, e), w)
    ensures var p, q := s.workers[w].phase, Apply(s, e).workers[w].phase;
      && (p.Finished? ==> q == p || q == Reporting(p.outcome))
      && (p.Reporting? ==>
            q == if e == Judge(w) then Telling(Verdict(p.outcome, s.tasks[s.workers[w].task].cancel)) else p)
      && (p.Telling? ==> q == if e == Report(w) then Leaving(false) else p)
      && (p.Leaving? || p == Gone ==> q.Leaving? || q == Gone)
  {
  }

  /** Only a cancellation raises the flag, and none is lowered except by resuming. */
  lemma FlagStays(s: State, e: Event, t: nat)
    requires Enabled(s, e) && t < |s.tasks| && e != Resume(t)
    ensures t < |Apply(s, e).tasks|
    ensures Apply(s, e).tasks[t].cancel == (s.tasks[t].cancel || e == Cancel(t))
  {
  }

  lemma Reported(s: State, w: nat)
    requires Inv(s) && Enabled(s, Report(w))
    ensures var t, k := Apply(s, Report(w)), s.workers[w].task;
      k < |t.tasks| && t.tasks[k].state == s.workers[w].phase.outcome && forall i :: !Speaks(t, k, i)
  {
    var t, k := Apply(s, Report(w)), s.workers[w].task;
    forall i: nat ensures !Speaks(t, k, i) {
      if i < |s.workers| { assert Alone(s, i, w); }
    }
  }

  lemma EndedStep(s: State, e: Event, w: nat, outcome: TaskState, early: bool, since: bool)
    requires Inv(s) && Enabled(s, e) && Ended(s, w, outcome, early, since) && e != Resume(s.workers[w].task)
    ensures w < |Apply(s, e).workers| && Apply(s, e).workers[w].task == s.workers[w].task
    ensures Ended(Apply(s, e), w, outcome, early, since || e == Cancel(s.workers[w].task))
  {
    hide Inv, Apply, Possible, Guarded;
    var t, k, p := Apply(s, e), s.workers[w].task, s.workers[w].phase;
    OthersStay(s, e, w);
    EndedPhase(s, e, w);
    FlagStays(s, e, k);
    if p.Telling? && e == Report(w) {
      Reported(s, w);
    } else if p.Leaving? || p == Gone {
      SilentTask(s, e, k);
      forall i: nat ensures !Speaks(t, k, i) {
        if Speaks(t, k, i) { OnlyNewSpeak(s, e, k, i); }
      }
    }
  }

  lemma {:induction false} EndedTrace(s: State, es: seq<Event>, w: nat, outcome: TaskState, early: bool, since: bool)
    requires Inv(s) && Trace(s, es).Some? && Ended(s, w, outcome, early, since) && Resume(s.workers[w].task) !in es
    ensures var t := Trace(s, es).value;
      && Ended(t, w, outcome, early, since || Cancel(s.workers[w].task) in es)
      && t.workers[w].task == s.workers[w].task
    decreases |es|
  {
    hide Inv, Possible, Guarded, Apply, Ended;
    if es != [] {
      EndedWorker(s, w, outcome, early, since);
      EndedStep(s, es[0], w, outcome, early, since);
      StepInv(s, es[0]);
      EndedTrace(Apply(s, es[0]), es[1..], w, outcome, early, since || es[0] == Cancel(s.workers[w].task));
    }
  }

  lemma EndedWorker(s: State, w: nat, outcome: TaskState, early: bool, since: bool)
    requires Ended(s, w, outcome, early, since)
    ensures WorkerIn(s, w)
  {
  }

  /**
   * A download ends as its transfer did: once its worker has reported, and until it is resumed, it is in the state the
   * transfer ended with. Cancelling is the exception: a transfer that failed after somebody asked for it leaves a
   * cancelled download, and a request that comes later may turn a paused or failed one into a cancelled one.
   */
  lemma OutcomeStands(s: State, es: seq<Event>, w: nat, outcome: TaskState, later: seq<Event>)
    requires Init(s) && Trace(s, es).Some? && Enabled(Trace(s, es).value, End(w, outcome))
    requires Trace(Apply(Trace(s, es).value, End(w, outcome)), later).Some?
    requires Resume(Trace(s, es).value.workers[w].task) !in later
    ensures var u, t := Trace(s, es).value, Trace(Apply(Trace(s, es).value, End(w, outcome)), later).value;
      var k := u.workers[w].task;
      && w < |t.workers| && t.workers[w].task == k < |t.tasks|
      && (t.workers[w].phase.Leaving? || t.workers[w].phase == Gone ==>
            if outcome == Failed && u.tasks[k].cancel then t.tasks[k].state == Canceled
            else t.tasks[k].state == outcome
                 || (outcome in {Paused, Failed} && t.tasks[k].state == Canceled && Cancel(k) in later))
  {
    TraceInv(s, es);
    var u := Trace(s, es).value;
    var v := Apply(u, End(w, outcome));
    StepInv(u, End(w, outcome));
    hide Inv, Trace, Enabled;
    EndedTrace(v, later, w, outcome, u.tasks[u.workers[w].task].cancel, false);
  }

  /** A download that is waiting or running has a worker that speaks for it. */
  ghost predicate Attended(s: State) {
    forall t :: 0 <= t < |s.tasks| && Active(s.tasks[t].state) ==> exists i :: Speaks(s, t, i)
  }

  lemma StillSpeaks(s: State, e: Event, t: nat, i: nat)
    requires Inv(s) && Enabled(s, e) && Speaks(s, t, i) && t < |s.tasks| && t < |Apply(s, e).tasks|
    requires Active(Apply(s, e).tasks[t].state)
    ensures Speaks(Apply(s, e), t, i)
  {
    hide Holders;
    assert WorkerOk(s, i);
  }

  lemma MoveStaysEnded(s: State, e: Event, t: nat)
    requires Inv(s) && Enabled(s, e) && Moves(e) && t < |s.tasks| && !Active(s.tasks[t].state)
    ensures t < |Apply(s, e).tasks| && !Active(Apply(s, e).tasks[t].state)
  {
    hide Holders, Alone;
    assert WorkerOk(s, e.w);
  }

  lemma SpeaksAnew(s: State, e: Event, t: nat) returns (i: nat)
    requires Inv(s) && Enabled(s, e) && t < |Apply(s, e).tasks| && Active(Apply(s, e).tasks[t].state)
    requires t < |s.tasks| ==> !Active(s.tasks[t].state)
    ensures Speaks(Apply(s, e), t, i)
  {
    hide Inv;
    if Moves(e) && t < |s.tasks| { MoveStaysEnded(s, e, t); }
    i := |s.workers|;
  }

  lemma AttendedStep(s: State, e: Event)
    requires Inv(s) && Enabled(s, e) && Attended(s)
    ensures Attended(Apply(s, e))
  {
    hide Inv, Speaks, Possible, Guarded, Apply;
    var u := Apply(s, e);
    forall t | 0 <= t < |u.tasks| && Active(u.tasks[t].state) ensures exists i :: Speaks(u, t, i) {
      if t < |s.tasks| && Active(s.tasks[t].state) {
        var i: nat :| Speaks(s, t, i);
        StillSpeaks(s, e, t, i);
      } else {
        var i := SpeaksAnew(s, e, t);
      }
    }
  }

  lemma {:induction false} AttendedTrace(s: State, es: seq<Event>)
    requires Inv(s) && Attended(s) && Trace(s, es).Some?
    ensures Attended(Trace(s, es).value)
    decreases |es|
  {
    hide Inv, Possible, Guarded, Apply, Attended;
    if es != [] {
      AttendedStep(s, es[0]);
      StepInv(s, es[0]);
      AttendedTrace(Apply(s, es[0]), es[1..]);
    }
  }

  /** No download is left waiting or running: when its workers are done with it, it has come to an end. */
  lemma NoneAbandoned(s: State, es: seq<Event>, t: nat)
    requires Init(s) && Trace(s, es).Some? && t < |Trace(s, es).value.tasks|
    requires forall i :: 0 <= i < |Trace(s, es).value.workers| && Trace(s, es).value.workers[i].task == t ==>
      Trace(s, es).value.workers[i].phase == Gone
    ensures Trace(s, es).value.tasks[t].state in {Paused, Failed, Canceled, Done}
  {
    AttendedTrace(s, es);
  }

  // ---------------------------------------------------------------- why the guard matters

  /** Runs in which any download may be resumed at any time. */
  function Unguarded(s: State, es: seq<Event>): Option<State>
    decreases |es|
  {
    if es == [] then Some(s) else if Possible(s, es[0]) then Unguarded(Apply(s, es[0]), es[1..]) else None
  }

  /** Two workers with slots, and a third that a cancellation let through the wait loop. */
  lemma ThirdPasses(s: State) returns (es: seq<Event>, t: State)
    requires Init(s)
    ensures Unguarded(s, es) == Some(t) && Trace(s, es) == Some(t)
    ensures |t.tasks| == 3 && |t.workers| == 3 && t.count == LIMIT && t.lock == Some(2)
    ensures t.workers[2] == Worker(2, Passed, 0, 0) && t.tasks[2] == Task(Queued, true)
  {
    hide Unguarded, Trace;
    RunNothing(s);
    es, t := GoTwice(s, [], s, NewTask);
    es, t := GoTwice(s, es, t, NewTask);
    es, t := GoTwice(s, es, t, NewTask);
    es, t := GoTwice(s, es, t, Spawn(0, true));
    es, t := GoTwice(s, es, t, Spawn(1, true));
    es, t := GoTwice(s, es, t, Spawn(2, true));
    es, t := GoTwice(s, es, t, Test(0));
    es, t := GoTwice(s, es, t, Take(0));
    es, t := GoTwice(s, es, t, Test(1));
    es, t := GoTwice(s, es, t, Take(1));
    es, t := GoTwice(s, es, t, Cancel(2));
    es, t := GoTwice(s, es, t, Test(2));
  }

  /** The bound rests on the guard: a flag cleared between the two looks at it lets a third transfer start. */
  lemma UnguardedResumeBreaksTheBound(s: State) returns (es: seq<Event>)
    requires Init(s)
    ensures Unguarded(s, es).Some? && Unguarded(s, es).value.count == LIMIT + 1
  {
    var t;
    es, t := ThirdPasses(s);
    hide Unguarded, Trace;
    var u := Apply(t, Resume(2));
    UnguardedMore(s, es, t, Resume(2));
    UnguardedMore(s, es + [Resume(2)], u, Take(2));
    es := es + [Resume(2)] + [Take(2)];
  }

  lemma RunNothing(s: State)
    ensures Unguarded(s, []) == Some(s) && Trace(s, []) == Some(s)
  {
  }

  lemma {:induction false} UnguardedMore(s: State, es: seq<Event>, t: State, e: Event)
    requires Unguarded(s, es) == Some(t) && Possible(t, e)
    ensures Unguarded(s, es + [e]) == Some(Apply(t, e))
    decreases |es|
  {
    hide Apply, Possible;
    if es == [] {
      assert [e][1..] == [] && [] + [e] == [e];
    } else {
      assert (es + [e])[1..] == es[1..] + [e];
      UnguardedMore(Apply(s, es[0]), es[1..], t, e);
    }
  }

  lemma {:induction false} TraceMore(s: State, es: seq<Event>, t: State, e: Event)
    requires Trace(s, es) == Some(t) && Enabled(t, e)
    ensures Trace(s, es + [e]) == Some(Apply(t, e))
    decreases |es|
  {
    hide Apply, Possible, Guarded;
    if es == [] {
      assert [e][1..] == [] && [] + [e] == [e];
    } else {
      assert (es + [e])[1..] == es[1..] + [e];
      TraceMore(Apply(s, es[0]), es[1..], t, e);
    }
  }

  lemma GoTwice(s: State, es: seq<Event>, t: State, e: Event) returns (fs: seq<Event>, u: State)
    requires Unguarded(s, es) == Some(t) && Trace(s, es) == Some(t) && Enabled(t, e)
    ensures u == Apply(t, e) && Unguarded(s, fs) == Some(u) && Trace(s, fs) == Some(u)
  {
    UnguardedMore(s, es, t, e);
    TraceMore(s, es, t, e);
    fs, u := es + [e], Apply(t, e);
  }

  // ---------------------------------------------------------------- the critical sections

  class Queue {
    var tasks: seq<Task>
    var workers: seq<Worker>
    var count: nat
    var broadcasts: nat
    var lock: Option<nat>

    ghost function Now(): State
      reads this
    {
      State(tasks, workers, count, broadcasts, lock)
    }

    ghost predicate Did(before: State, e: Event)
      reads this
    {
      Inv(before) && Enabled(before, e) && Now() == Apply(before, e)
    }

    constructor ()
      ensures Init(Now()) && Inv(Now())
    {
      tasks, workers, count, broadcasts, lock := [], [], 0, 0, None;
    }

    /** One turn of the wait loop at the start of a worker. */
    method AwaitSlot(w: nat)
      requires Inv(Now()) && Enabled(Now(), Test(w))
      modifies this`workers, this`lock
      ensures Did(old(Now()), Test(w)) && Inv(Now())
    {
      StepInv(Now(), Test(w));
      var worker := workers[w];
      if count >= LIMIT && !tasks[worker.task].cancel {
        workers := workers[w := worker.(phase := Asleep)];
      } else {
        workers, lock := workers[w := worker.(phase := Passed)], Some(w);
      }
    }

    /** Behind the loop: the flag is read again, the count is not. */
    method Acquire(w: nat)
      requires Inv(Now()) && Enabled(Now(), Take(w))
      modifies this`workers, this`count, this`lock
      ensures Did(old(Now()), Take(w)) && Inv(Now()) && count <= LIMIT
    {
      StepInv(Now(), Take(w));
      var worker := workers[w];
      lock := None;
      if !tasks[worker.task].cancel {
        count := count + 1;
        workers := workers[w := worker.(phase := Admitted(true), acquired := worker.acquired + 1)];
      } else {
        workers := workers[w := worker.(phase := Admitted(false))];
      }
    }

    /** The check after a download was marked running. */
    method CheckCancel(w: nat)
      requires Inv(Now()) && Enabled(Now(), Decide(w))
      modifies this`workers, this`tasks
      ensures Did(old(Now()), Decide(w)) && Inv(Now())
      ensures workers[w].phase.Transferring? ==> HasSlot(workers[w].phase) && !tasks[workers[w].task].cancel
    {
      StepInv(Now(), Decide(w));
      assert WorkerOk(Now(), w);
      var worker := workers[w];
      var task := tasks[worker.task];
      if task.cancel {
        tasks := tasks[worker.task := task.(state := Canceled)];
        workers := workers[w := worker.(phase := Leaving(worker.phase.slot))];
      } else {
        workers := workers[w := worker.(phase := Transferring(worker.phase.slot))];
      }
    }

    /** The last look at the flag, after the slot went back. */
    method LookAgain(w: nat)
      requires Inv(Now()) && Enabled(Now(), Judge(w))
      modifies this`workers
      ensures Did(old(Now()), Judge(w)) && Inv(Now())
    {
      StepInv(Now(), Judge(w));
      var worker := workers[w];
      var outcome := worker.phase.outcome;
      if outcome == Failed && tasks[worker.task].cancel {
        outcome := Canceled;
      }
      workers := workers[w := worker.(phase := Telling(outcome))];
    }

    /** The final state of the download. */
    method Tell(w: nat)
      requires Inv(Now()) && Enabled(Now(), Report(w))
      modifies this`workers, this`tasks
      ensures Did(old(Now()), Report(w)) && Inv(Now())
    {
      StepInv(Now(), Report(w));
      var worker := workers[w];
      tasks := tasks[worker.task := tasks[worker.task].(state := worker.phase.outcome)];
      workers := workers[w := worker.(phase := Leaving(false))];
    }

    /** The exit path: a held slot goes back and everybody waiting is woken. */
    method Exit(w: nat)
      requires Inv(Now()) && Enabled(Now(), Leave(w))
      modifies this`workers, this`count
      ensures Did(old(Now()), Leave(w)) && Inv(Now())
      ensures workers[w].acquired == workers[w].released
    {
      StepInv(Now(), Leave(w));
      assert WorkerOk(Now(), w);
      HoldersAtLeast(workers, w);
      var worker := workers[w];
      if worker.phase.slot {
        count := count - 1;
        workers := WakeAll(workers[w := worker.(phase := Gone, released := worker.released + 1)]);
      } else {
        workers := workers[w := worker.(phase := Gone)];
      }
    }

    /** A cancellation request; `found` tells whether it could still be cancelled. */
    method RequestCancel(t: nat) returns (found: bool)
      requires Inv(Now())
      modifies this`tasks, this`broadcasts
      ensures found <==> old(Enabled(Now(), Cancel(t)))
      ensures if found then Did(old(Now()), Cancel(t)) else Now() == old(Now())
      ensures Inv(Now())
    {
      found := t < |tasks| && tasks[t].state in {Queued, Running, Paused, Failed};
      if found {
        StepInv(Now(), Cancel(t));
        var st := tasks[t].state;
        tasks := tasks[t := Task(if st == Paused || st == Failed then Canceled else st, true)];
        broadcasts := broadcasts + 1;
      }
    }

    /** Resuming a paused task or retrying a failed one; only these clear the cancellation flag. */
    method RequestResume(t: nat, retry: bool) returns (found: bool)
      requires Inv(Now())
      modifies this`tasks, this`workers
      ensures found <==> t < |old(tasks)| && old(tasks)[t].state == (if retry then Failed else Paused)
      ensures if found then Did(old(Now()), Resume(t)) else Now() == old(Now())
      ensures Inv(Now())
    {
      found := t < |tasks| && tasks[t].state == if retry then Failed else Paused;
      if found {
        StepInv(Now(), Resume(t));
        tasks := tasks[t := Task(Queued, false)];
        workers := workers + [Worker(t, Starting, 0, 0)];
      }
    }
  }
}
