/**
 * The multi-worker packing pool: a dispatcher and `count` workers share a ring of `count` slots
 * under one lock. Every step below is one critical section, or one stretch of unlocked work, of
 * the dispatcher or of one worker; a run is any interleaving of them.
 */
module PfscPool {
  import opened Bytes
  import opened Pfsc
  import PfscPack

  datatype Slot = Slot(pending: bool, claimed: bool, done: bool, failed: bool, index: nat, raw: seq<byte>,
      out: seq<byte>)

  /** Scanning: about to look for work. Waiting: asleep on the work condition. */
  datatype Worker = Scanning | Waiting | Claimed(slot: nat) | Compressed(slot: nat)

  /** Asleep: blocked on the result condition for the slot of the next block to write. */
  datatype Dispatcher = Loop | Filled | Asleep | Taken | Appended | Finished | Aborted

  /** What one packing run works on. */
  datatype Job = Job(c: Codec, input: seq<byte>, count: nat) {
    function Blocks(): nat { BlockCount(|input|) }
  }

  datatype State = State(
    slots: seq<Slot>,
    workers: seq<Worker>,
    pc: Dispatcher,
    nextDispatch: nat,
    nextWrite: nat,
    offsets: seq<nat>,
    stored: seq<byte>,
    cancelled: bool)

  // ---------------------------------------------------------------- steps

  predicate MayDispatch(r: Job, s: State) {
    s.nextDispatch < r.Blocks() && s.nextWrite <= s.nextDispatch < s.nextWrite + r.count
  }

  predicate Open(slot: Slot) { slot.pending && !slot.claimed && !slot.done }

  /** The slot block `j` passes through. */
  function Ix(j: nat, count: nat): nat requires count > 0 { j % count }

  function AtDispatch(r: Job, s: State): nat requires r.count > 0 { Ix(s.nextDispatch, r.count) }

  function AtWrite(r: Job, s: State): nat requires r.count > 0 { Ix(s.nextWrite, r.count) }

  predicate Shaped(r: Job, s: State) {
    r.count > 0 && |s.slots| == r.count && |s.workers| == r.count
  }

  /** The block is read into the slot outside the lock. */
  predicate Fill(r: Job, s: State, t: State) {
    && Shaped(r, s) && s.pc == Loop && MayDispatch(r, s)
    && var i := AtDispatch(r, s);
       t == s.(slots := s.slots[i := s.slots[i].(raw := Chunk(r.input, s.nextDispatch))], pc := Filled)
  }

  /** The slot is handed over and one waiting worker, if there is any, is woken. */
  predicate Publish(r: Job, s: State, t: State, w: nat) {
    && Shaped(r, s) && s.pc == Filled
    && var i := AtDispatch(r, s);
       var slot := s.slots[i].(pending := true, claimed := false, done := false, failed := false,
           index := s.nextDispatch);
       var rest := s.(slots := s.slots[i := slot], nextDispatch := s.nextDispatch + 1, pc := Loop);
       if w < |s.workers| then s.workers[w] == Waiting && t == rest.(workers := s.workers[w := Scanning])
       else Waiting !in s.workers && t == rest
  }

  /** With nothing left to dispatch, the dispatcher looks at the next block to write. */
  predicate Check(r: Job, s: State, t: State) {
    && Shaped(r, s) && s.pc == Loop && !MayDispatch(r, s)
    && var slot := s.slots[AtWrite(r, s)];
       t == s.(pc := if s.cancelled || (slot.done && slot.failed) then Aborted else if slot.done then Taken else Asleep)
  }

  predicate Append(r: Job, s: State, t: State) {
    && Shaped(r, s) && s.pc == Taken
    && var slot := s.slots[AtWrite(r, s)];
       t == s.(offsets := s.offsets + [DataOffset(r.Blocks()) + |s.stored|],
               stored := s.stored + if |slot.out| < BLOCK then slot.out else slot.raw,
               pc := Appended)
  }

  predicate Release(r: Job, s: State, t: State) {
    && Shaped(r, s) && s.pc == Appended
    && var i := AtWrite(r, s);
       t == s.(slots := s.slots[i := s.slots[i].(pending := false, done := false)], nextWrite := s.nextWrite + 1,
               pc := if s.nextWrite + 1 == r.Blocks() then Finished else Loop)
  }

  /** A worker claims the first open slot. */
  predicate Claim(r: Job, s: State, t: State, w: nat, i: nat) {
    && Shaped(r, s) && w < r.count && s.workers[w] == Scanning
    && i < r.count && Open(s.slots[i]) && (forall k :: 0 <= k < i ==> !Open(s.slots[k]))
    && t == s.(slots := s.slots[i := s.slots[i].(claimed := true)], workers := s.workers[w := Claimed(i)])
  }

  predicate Wait(r: Job, s: State, t: State, w: nat) {
    && Shaped(r, s) && w < r.count && s.workers[w] == Scanning
    && (forall k :: 0 <= k < r.count ==> !Open(s.slots[k]))
    && t == s.(workers := s.workers[w := Waiting])
  }

  /** Compression runs outside the lock on the claimed slot. */
  predicate Compress(r: Job, s: State, t: State, w: nat) {
    && Shaped(r, s) && w < r.count && s.workers[w].Claimed? && s.workers[w].slot < r.count
    && var i := s.workers[w].slot;
       t == s.(slots := s.slots[i := s.slots[i].(out := r.c.compress(s.slots[i].raw))],
           workers := s.workers[w := Compressed(i)])
  }

  function Woken(pc: Dispatcher): Dispatcher { if pc == Asleep then Loop else pc }

  /** The result is posted and the dispatcher is woken. */
  predicate Finish(r: Job, s: State, t: State, w: nat) {
    && Shaped(r, s) && w < r.count && s.workers[w].Compressed? && s.workers[w].slot < r.count
    && var i := s.workers[w].slot;
       t == s.(slots := s.slots[i := s.slots[i].(failed := false, claimed := false, done := true)],
               workers := s.workers[w := Scanning], pc := Woken(s.pc))
  }

  /** A worker that sees the cancellation flag posts an error instead. */
  predicate Bail(r: Job, s: State, t: State, w: nat) {
    && Shaped(r, s) && s.cancelled && w < r.count && s.workers[w].Claimed? && s.workers[w].slot < r.count
    && var i := s.workers[w].slot;
       t == s.(slots := s.slots[i := s.slots[i].(failed := true, claimed := false, done := true)],
               workers := s.workers[w := Scanning], pc := Woken(s.pc))
  }

  predicate DispatcherStep(r: Job, s: State, t: State) {
    Fill(r, s, t) || Check(r, s, t) || Append(r, s, t) || Release(r, s, t)
  }

  ghost predicate Handover(r: Job, s: State, t: State) { exists w: nat :: Publish(r, s, t, w) }

  ghost predicate WorkerStep(r: Job, s: State, t: State, w: nat) {
    (exists i: nat :: Claim(r, s, t, w, i)) || Wait(r, s, t, w) || Compress(r, s, t, w) || Finish(r, s, t, w)
        || Bail(r, s, t, w)
  }

  /** A step of the dispatcher or of some worker. */
  ghost predicate SystemStep(r: Job, s: State, t: State) {
    DispatcherStep(r, s, t) || Handover(r, s, t) || exists w: nat :: WorkerStep(r, s, t, w)
  }

  /** What the surroundings may do: request cancellation, or wake a sleeper for no reason. */
  ghost predicate Outside(r: Job, s: State, t: State) {
    || (!s.cancelled && t == s.(cancelled := true))
    || (s.pc == Asleep && t == s.(pc := Loop))
    || exists w: nat :: w < |s.workers| && s.workers[w] == Waiting && t == s.(workers := s.workers[w := Scanning])
  }

  /** A pool that starts, or starts again, with the first `first` blocks written. */
  ghost predicate StartsAt(r: Job, s: State, first: nat) {
    && Shaped(r, s) && s.nextDispatch == s.nextWrite == first <= r.Blocks()
    && s.pc == (if first == r.Blocks() then Finished else Loop)
    && s.stored == Payload(r.c, r.input, first) && |s.offsets| == first
    && (forall i :: 0 <= i < first ==> s.offsets[i] == Offset(r.c, r.input, i))
    && (forall i :: 0 <= i < r.count ==>
        s.slots[i] == s.slots[i].(pending := false, claimed := false, done := false, failed := false))
    && (forall w :: 0 <= w < r.count ==> s.workers[w] == Scanning)
  }

  ghost predicate Init(r: Job, s: State) { exists first: nat :: StartsAt(r, s, first) }

  // ---------------------------------------------------------------- the invariant

  /** Blocks already appended to the payload. */
  function Appends(s: State): nat { if s.pc == Appended then s.nextWrite + 1 else s.nextWrite }

  predicate Busy(w: Worker, i: nat) { (w.Claimed? || w.Compressed?) && w.slot == i }

  predicate SlotInv(r: Job, s: State, i: nat)
    requires Shaped(r, s) && i < r.count
  {
    var slot := s.slots[i];
    if slot.pending then
      && s.nextWrite <= slot.index < s.nextDispatch <= r.Blocks() && Ix(slot.index, r.count) == i
      && slot.raw == Chunk(r.input, slot.index)
      && (slot.claimed ==> !slot.done)
      && (slot.done && !slot.failed ==> slot.out == r.c.compress(slot.raw))
    else !slot.claimed && !slot.done
  }

  predicate WorkerInv(r: Job, s: State, w: nat)
    requires Shaped(r, s) && w < r.count
  {
    match s.workers[w]
    case Claimed(i) => i < r.count && s.slots[i].claimed
    case Compressed(i) => i < r.count && s.slots[i].claimed && s.slots[i].out == r.c.compress(s.slots[i].raw)
    case _ => true
  }

  ghost predicate DispatcherInv(r: Job, s: State)
    requires Shaped(r, s)
  {
    match s.pc
    case Loop => s.nextWrite < r.Blocks()
    case Filled => MayDispatch(r, s) && s.slots[AtDispatch(r, s)].raw == Chunk(r.input, s.nextDispatch)
    case Asleep => s.nextWrite < s.nextDispatch && !s.slots[AtWrite(r, s)].done
    case Taken => s.nextWrite < s.nextDispatch && s.slots[AtWrite(r, s)].done && !s.slots[AtWrite(r, s)].failed
    case Appended => s.nextWrite < s.nextDispatch && s.slots[AtWrite(r, s)].done
    case Finished => s.nextWrite == r.Blocks()
    case Aborted => true
  }

  /** The payload and offsets written so far are those of the in-order packer. */
  ghost predicate InOrder(r: Job, s: State) {
    && Appends(s) <= r.Blocks()
    && s.stored == Payload(r.c, r.input, Appends(s))
    && |s.offsets| == Appends(s)
    && forall i :: 0 <= i < Appends(s) ==> s.offsets[i] == Offset(r.c, r.input, i)
  }

  predicate InFlight(r: Job, s: State, j: nat)
    requires Shaped(r, s)
  {
    var i := Ix(j, r.count);
    i < r.count && s.slots[i].pending && s.slots[i].index == j
  }

  ghost predicate SlotsInv(r: Job, s: State)
    requires Shaped(r, s)
  {
    && (forall i :: 0 <= i < r.count ==> SlotInv(r, s, i))
    && (forall j :: s.nextWrite <= j < s.nextDispatch ==> InFlight(r, s, j))
  }

  ghost predicate WorkersInv(r: Job, s: State)
    requires Shaped(r, s)
  {
    forall w :: 0 <= w < r.count ==> WorkerInv(r, s, w)
  }

  /** A slot is claimed exactly when one worker is busy with it. */
  ghost predicate OwnersInv(slots: seq<Slot>, workers: seq<Worker>) {
    && (forall v, w, i :: 0 <= v < w < |workers| ==> !(Busy(workers[v], i) && Busy(workers[w], i)))
    && (forall i :: 0 <= i < |slots| && slots[i].claimed ==> exists w :: 0 <= w < |workers| && Busy(workers[w], i))
  }

  ghost predicate SumInv(slots: seq<Slot>, workers: seq<Worker>) {
    Sum(slots, OpenWeight) <= Sum(workers, AwakeWeight)
  }

  ghost predicate Inv(r: Job, s: State) {
    && Shaped(r, s)
    && s.nextWrite <= s.nextDispatch <= r.Blocks() && s.nextDispatch <= s.nextWrite + r.count
    && SlotsInv(r, s) && WorkersInv(r, s) && OwnersInv(s.slots, s.workers)
    && DispatcherInv(r, s) && InOrder(r, s) && SumInv(s.slots, s.workers)
  }

  // ---------------------------------------------------------------- sums over slots and workers

  function OpenWeight(slot: Slot): nat { if Open(slot) then 1 else 0 }

  function AwakeWeight(w: Worker): nat { if w == Waiting then 0 else 1 }

  function Sum<T>(s: seq<T>, f: T -> nat): nat {
    if s == [] then 0 else Sum(s[..|s| - 1], f) + f(s[|s| - 1])
  }

  lemma {:induction false} SumUpdate<T>(s: seq<T>, i: nat, x: T, f: T -> nat)
    requires i < |s|
    ensures Sum(s[i := x], f) + f(s[i]) == Sum(s, f) + f(x)
  {
    var n := |s| - 1;
    if i == n {
      assert s[i := x][..n] == s[..n];
    } else {
      SumUpdate(s[..n], i, x, f);
      assert s[i := x][..n] == s[..n][i := x];
    }
  }

  lemma {:induction false} SumPositive<T>(s: seq<T>, i: nat, f: T -> nat)
    requires i < |s| && f(s[i]) > 0
    ensures Sum(s, f) > 0
  {
    if i < |s| - 1 {
      SumPositive(s[..|s| - 1], i, f);
    }
  }

  lemma {:induction false} SumWitness<T>(s: seq<T>, f: T -> nat) returns (i: nat)
    requires Sum(s, f) > 0
    ensures i < |s| && f(s[i]) > 0
  {
    if f(s[|s| - 1]) > 0 {
      i := |s| - 1;
    } else {
      i := SumWitness(s[..|s| - 1], f);
    }
  }

  lemma {:induction false} SumZero<T>(s: seq<T>, f: T -> nat)
    requires forall i :: 0 <= i < |s| ==> f(s[i]) == 0
    ensures Sum(s, f) == 0
  {
    if s != [] {
      SumZero(s[..|s| - 1], f);
    }
  }

  lemma {:induction false} SumBound<T>(s: seq<T>, f: T -> nat)
    requires forall i :: 0 <= i < |s| ==> f(s[i]) <= 1
    ensures Sum(s, f) <= |s|
  {
    if s != [] {
      SumBound(s[..|s| - 1], f);
    }
  }

  lemma {:induction false} SumFull<T>(s: seq<T>, f: T -> nat)
    requires forall i :: 0 <= i < |s| ==> f(s[i]) == 1
    ensures Sum(s, f) == |s|
  {
    if s != [] {
      SumFull(s[..|s| - 1], f);
    }
  }

  /** Blocks less than `count` apart use different slots. */
  lemma SameSlot(a: nat, b: nat, count: nat)
    requires count > 0 && a <= b < a + count && Ix(a, count) == Ix(b, count)
    ensures a == b
  {
    assert b - a == count * (b / count - a / count);
    Multiple(count, b / count - a / count);
  }

  lemma Multiple(m: int, q: int)
    requires m > 0
    ensures q >= 1 ==> m * q >= m
    ensures q <= -1 ==> m * q <= -m
  {
  }

  lemma IxBound(j: nat, count: nat)
    requires count > 0
    ensures Ix(j, count) < count
  {
  }

  // ---------------------------------------------------------------- every step keeps the invariant

  lemma InitInv(r: Job, s: State)
    requires Init(r, s)
    ensures Inv(r, s)
  {
    var first: nat :| StartsAt(r, s, first);
    hide Payload, Offset;
    assert forall i :: 0 <= i < r.count ==> !Open(s.slots[i]) && SlotInv(r, s, i);
    SumZero(s.slots, OpenWeight);
  }

  lemma InOrderKept(r: Job, s: State, t: State)
    requires InOrder(r, s) && t.stored == s.stored && t.offsets == s.offsets && Appends(t) == Appends(s)
    ensures InOrder(r, t)
  {
  }

  /** Ownership survives a step that changes neither claims nor busy workers. */
  lemma OwnersKept(slots: seq<Slot>, workers: seq<Worker>, slots': seq<Slot>, workers': seq<Worker>)
    requires OwnersInv(slots, workers) && |slots'| == |slots| && |workers'| == |workers|
    requires forall i :: 0 <= i < |slots| ==> slots'[i].claimed == slots[i].claimed
    requires forall w, i :: 0 <= w < |workers| ==> Busy(workers'[w], i) == Busy(workers[w], i)
    ensures OwnersInv(slots', workers')
  {
    forall i | 0 <= i < |slots'| && slots'[i].claimed ensures exists w :: 0 <= w < |workers'| && Busy(workers'[w], i) {
      var w :| 0 <= w < |workers| && Busy(workers[w], i);
      assert Busy(workers'[w], i);
    }
  }

  lemma OwnersClaim(slots: seq<Slot>, workers: seq<Worker>, i: nat, w: nat, slot: Slot)
    requires OwnersInv(slots, workers) && i < |slots| && w < |workers| && workers[w] == Scanning
    requires forall v :: 0 <= v < |workers| ==> !Busy(workers[v], i)
    ensures OwnersInv(slots[i := slot], workers[w := Claimed(i)])
  {
    var slots', workers' := slots[i := slot], workers[w := Claimed(i)];
    forall k | 0 <= k < |slots'| && slots'[k].claimed ensures exists v :: 0 <= v < |workers'| && Busy(workers'[v], k) {
      if k == i {
        assert Busy(workers'[w], k);
      } else {
        var v :| 0 <= v < |workers| && Busy(workers[v], k);
        assert Busy(workers'[v], k);
      }
    }
  }

  lemma OwnersPost(slots: seq<Slot>, workers: seq<Worker>, i: nat, w: nat, slot: Slot)
    requires OwnersInv(slots, workers) && i < |slots| && w < |workers| && Busy(workers[w], i) && !slot.claimed
    ensures OwnersInv(slots[i := slot], workers[w := Scanning])
  {
    var slots', workers' := slots[i := slot], workers[w := Scanning];
    forall k | 0 <= k < |slots'| && slots'[k].claimed ensures exists v :: 0 <= v < |workers'| && Busy(workers'[v], k) {
      var v :| 0 <= v < |workers| && Busy(workers[v], k);
      assert Busy(workers'[v], k);
    }
  }

  /** One slot and one worker change, and what opens is covered by what wakes. */
  lemma SumsStep(slots: seq<Slot>, workers: seq<Worker>, i: nat, slot: Slot, w: nat, worker: Worker)
    requires SumInv(slots, workers) && i < |slots| && w < |workers|
    requires OpenWeight(slot) + AwakeWeight(workers[w]) <= OpenWeight(slots[i]) + AwakeWeight(worker)
    ensures SumInv(slots[i := slot], workers[w := worker])
  {
    SumUpdate(slots, i, slot, OpenWeight);
    SumUpdate(workers, w, worker, AwakeWeight);
  }

  /** The slot about to be filled is free: its previous block has been written. */
  lemma FreeSlot(r: Job, s: State)
    requires Inv(r, s) && MayDispatch(r, s)
    ensures var i := AtDispatch(r, s); i < r.count && !s.slots[i].pending && !s.slots[i].claimed && !s.slots[i].done
  {
    hide Ix, InOrder, DispatcherInv, WorkersInv, OwnersInv, SumInv;
    var i := AtDispatch(r, s);
    IxBound(s.nextDispatch, r.count);
    assert SlotInv(r, s, i);
    if s.slots[i].pending {
      SameSlot(s.slots[i].index, s.nextDispatch, r.count);
    }
  }

  /** The slot of the next block to write holds it, once it has been dispatched. */
  lemma WriteSlot(r: Job, s: State)
    requires Inv(r, s) && s.nextWrite < s.nextDispatch
    ensures var i := AtWrite(r, s);
      i < r.count && s.slots[i].pending && s.slots[i].index == s.nextWrite && SlotInv(r, s, i)
  {
    hide Ix, InOrder, DispatcherInv, WorkersInv, OwnersInv, SumInv;
    assert InFlight(r, s, s.nextWrite);
    assert SlotInv(r, s, AtWrite(r, s));
  }

  /** Slot and worker facts survive when slots keep their blocks and every owner keeps its claim. */
  lemma PartsKept(r: Job, s: State, t: State)
    requires Shaped(r, s) && SlotsInv(r, s) && WorkersInv(r, s) && Shaped(r, t)
    requires s.nextWrite == t.nextWrite && s.nextDispatch == t.nextDispatch && t.slots == s.slots
    requires forall w :: 0 <= w < r.count ==>
      t.workers[w] == s.workers[w] || t.workers[w].Scanning? || t.workers[w].Waiting?
    ensures SlotsInv(r, t) && WorkersInv(r, t)
  {
    hide Ix, Chunk;
    forall k | 0 <= k < r.count ensures SlotInv(r, t, k) { assert SlotInv(r, s, k); }
    forall j | t.nextWrite <= j < t.nextDispatch ensures InFlight(r, t, j) { assert InFlight(r, s, j); }
    forall v | 0 <= v < r.count ensures WorkerInv(r, t, v) { assert WorkerInv(r, s, v); }
  }

  lemma FillInv(r: Job, s: State, t: State)
    requires Inv(r, s) && Fill(r, s, t)
    ensures Inv(r, t)
  {
    FreeSlot(r, s);
    hide Ix, Chunk, InOrder, OwnersInv, SumInv;
    var i := AtDispatch(r, s);
    SumsStep(s.slots, s.workers, i, t.slots[i], 0, s.workers[0]);
    assert s.workers[0 := s.workers[0]] == s.workers;
    OwnersKept(s.slots, s.workers, t.slots, t.workers);
    forall k | 0 <= k < r.count ensures SlotInv(r, t, k) { assert SlotInv(r, s, k); }
    forall j | t.nextWrite <= j < t.nextDispatch ensures InFlight(r, t, j) { assert InFlight(r, s, j); }
    forall w | 0 <= w < r.count ensures WorkerInv(r, t, w) { assert WorkerInv(r, s, w); }
    InOrderKept(r, s, t);
  }

  lemma PublishSlots(r: Job, s: State, t: State, w: nat)
    requires Inv(r, s) && Publish(r, s, t, w)
    ensures Shaped(r, t) && SlotsInv(r, t)
  {
    FreeSlot(r, s);
    hide Ix, Chunk, InOrder, OwnersInv, SumInv, WorkersInv;
    forall k | 0 <= k < r.count ensures SlotInv(r, t, k) { assert SlotInv(r, s, k); }
    forall j | t.nextWrite <= j < t.nextDispatch ensures InFlight(r, t, j) {
      if j < s.nextDispatch { assert InFlight(r, s, j); }
    }
  }

  lemma PublishWorkers(r: Job, s: State, t: State, w: nat)
    requires Inv(r, s) && Publish(r, s, t, w) && Shaped(r, t)
    ensures WorkersInv(r, t)
  {
    FreeSlot(r, s);
    hide Ix, Chunk, InOrder, OwnersInv, SumInv;
    assert SlotInv(r, s, AtDispatch(r, s));
    hide SlotsInv;
    forall v | 0 <= v < r.count ensures WorkerInv(r, t, v) { assert WorkerInv(r, s, v); }
  }

  lemma PublishInv(r: Job, s: State, t: State, w: nat)
    requires Inv(r, s) && Publish(r, s, t, w)
    ensures Inv(r, t)
  {
    FreeSlot(r, s);
    PublishSums(r, s, t, w);
    PublishSlots(r, s, t, w);
    PublishWorkers(r, s, t, w);
    hide Ix, Chunk, InOrder, OwnersInv, SumInv, SlotsInv, WorkersInv;
    OwnersKept(s.slots, s.workers, t.slots, t.workers);
    InOrderKept(r, s, t);
  }

  /** The new open slot is matched by the worker the signal woke, or all workers were awake. */
  lemma PublishSums(r: Job, s: State, t: State, w: nat)
    requires Inv(r, s) && Publish(r, s, t, w)
    ensures SumInv(t.slots, t.workers)
  {
    FreeSlot(r, s);
    hide Ix, InOrder, DispatcherInv, WorkersInv, OwnersInv, SlotsInv;
    var i := AtDispatch(r, s);
    if w < |s.workers| {
      SumsStep(s.slots, s.workers, i, t.slots[i], w, Scanning);
    } else {
      SumFull(s.workers, AwakeWeight);
      SumBound(t.slots, OpenWeight);
    }
  }

  lemma CheckInv(r: Job, s: State, t: State)
    requires Inv(r, s) && Check(r, s, t)
    ensures Inv(r, t)
  {
    hide Ix, Chunk, InOrder, OwnersInv, SumInv, SlotsInv, WorkersInv;
    PartsKept(r, s, t);
    InOrderKept(r, s, t);
  }

  lemma AppendInv(r: Job, s: State, t: State)
    requires Inv(r, s) && Append(r, s, t)
    ensures Inv(r, t)
  {
    WriteSlot(r, s);
    AppendInOrder(r, s, t);
    hide Ix, Chunk, InOrder, OwnersInv, SumInv, SlotsInv, WorkersInv;
    PartsKept(r, s, t);
  }

  /** What the dispatcher appends is what the in-order packer stores next. */
  lemma TakenBlock(r: Job, s: State)
    requires Inv(r, s) && s.pc == Taken
    ensures s.nextWrite < r.Blocks() && AtWrite(r, s) < r.count
    ensures var slot := s.slots[AtWrite(r, s)];
      (if |slot.out| < BLOCK then slot.out else slot.raw) == Stored(r.c, Chunk(r.input, s.nextWrite))
  {
    hide Ix, Chunk, InOrder, OwnersInv, SumInv, SlotsInv, WorkersInv;
    WriteSlot(r, s);
  }

  lemma PayloadMore(r: Job, k: nat)
    requires k < r.Blocks()
    ensures Payload(r.c, r.input, k + 1) == Payload(r.c, r.input, k) + Stored(r.c, Chunk(r.input, k))
    ensures Offset(r.c, r.input, k) == DataOffset(r.Blocks()) + |Payload(r.c, r.input, k)|
  {
    hide Chunk, Stored, DataOffset;
  }

  lemma AppendInOrder(r: Job, s: State, t: State)
    requires Inv(r, s) && Append(r, s, t)
    ensures InOrder(r, t)
  {
    hide Ix, Chunk, Stored, Payload, Offset, DataOffset, OwnersInv, SumInv, SlotsInv, WorkersInv, DispatcherInv;
    TakenBlock(r, s);
    PayloadMore(r, s.nextWrite);
  }

  lemma ReleaseInv(r: Job, s: State, t: State)
    requires Inv(r, s) && Release(r, s, t)
    ensures Inv(r, t)
  {
    WriteSlot(r, s);
    hide Ix, Chunk, InOrder, OwnersInv, SumInv;
    var i := AtWrite(r, s);
    SumsStep(s.slots, s.workers, i, t.slots[i], 0, s.workers[0]);
    assert s.workers[0 := s.workers[0]] == s.workers;
    OwnersKept(s.slots, s.workers, t.slots, t.workers);
    forall k | 0 <= k < r.count ensures SlotInv(r, t, k) { assert SlotInv(r, s, k); }
    forall j | t.nextWrite <= j < t.nextDispatch ensures InFlight(r, t, j) { assert InFlight(r, s, j); }
    forall v | 0 <= v < r.count ensures WorkerInv(r, t, v) { assert WorkerInv(r, s, v); }
    InOrderKept(r, s, t);
  }

  lemma ClaimInv(r: Job, s: State, t: State, w: nat, i: nat)
    requires Inv(r, s) && Claim(r, s, t, w, i)
    ensures Inv(r, t)
  {
    hide Ix, Chunk, InOrder, OwnersInv, SumInv;
    SumsStep(s.slots, s.workers, i, t.slots[i], w, t.workers[w]);
    forall v | 0 <= v < r.count ensures !Busy(s.workers[v], i) && WorkerInv(r, t, v) { assert WorkerInv(r, s, v); }
    OwnersClaim(s.slots, s.workers, i, w, t.slots[i]);
    IxBound(s.nextWrite, r.count);
    IxBound(s.nextDispatch, r.count);
    forall k | 0 <= k < r.count ensures SlotInv(r, t, k) { assert SlotInv(r, s, k); }
    forall j | t.nextWrite <= j < t.nextDispatch ensures InFlight(r, t, j) { assert InFlight(r, s, j); }
    InOrderKept(r, s, t);
  }

  lemma WaitInv(r: Job, s: State, t: State, w: nat)
    requires Inv(r, s) && Wait(r, s, t, w)
    ensures Inv(r, t)
  {
    OwnersKept(s.slots, s.workers, t.slots, t.workers);
    hide Ix, Chunk, InOrder, OwnersInv, SlotsInv, WorkersInv;
    SumZero(s.slots, OpenWeight);
    PartsKept(r, s, t);
    InOrderKept(r, s, t);
    assert OwnersInv(t.slots, t.workers) && DispatcherInv(r, t) && SumInv(t.slots, t.workers);
  }

  lemma CompressInv(r: Job, s: State, t: State, w: nat)
    requires Inv(r, s) && Compress(r, s, t, w)
    ensures Inv(r, t)
  {
    hide Ix, Chunk, InOrder, SumInv;
    var i := s.workers[w].slot;
    assert WorkerInv(r, s, w) && SlotInv(r, s, i) && Busy(s.workers[w], i);
    SumsStep(s.slots, s.workers, i, t.slots[i], w, t.workers[w]);
    forall v | 0 <= v < r.count ensures WorkerInv(r, t, v) { assert WorkerInv(r, s, v); }
    OwnersKept(s.slots, s.workers, t.slots, t.workers);
    hide OwnersInv;
    IxBound(s.nextWrite, r.count);
    IxBound(s.nextDispatch, r.count);
    forall k | 0 <= k < r.count ensures SlotInv(r, t, k) { assert SlotInv(r, s, k); }
    forall j | t.nextWrite <= j < t.nextDispatch ensures InFlight(r, t, j) { assert InFlight(r, s, j); }
    InOrderKept(r, s, t);
  }

  /** Finish and Bail: the owner gives the slot back marked done. */
  lemma PostInv(r: Job, s: State, t: State, w: nat)
    requires Inv(r, s) && (Finish(r, s, t, w) || Bail(r, s, t, w))
    ensures Inv(r, t)
  {
    hide Ix, Chunk, InOrder, SumInv;
    var i := s.workers[w].slot;
    assert WorkerInv(r, s, w) && SlotInv(r, s, i) && Busy(s.workers[w], i);
    SumsStep(s.slots, s.workers, i, t.slots[i], w, Scanning);
    OwnersPost(s.slots, s.workers, i, w, t.slots[i]);
    forall v | 0 <= v < r.count ensures WorkerInv(r, t, v) { assert WorkerInv(r, s, v); }
    hide OwnersInv;
    forall k | 0 <= k < r.count ensures SlotInv(r, t, k) { assert SlotInv(r, s, k); }
    forall j | t.nextWrite <= j < t.nextDispatch ensures InFlight(r, t, j) { assert InFlight(r, s, j); }
    InOrderKept(r, s, t);
    PostDispatcher(r, s, t, i);
  }

  lemma PostDispatcher(r: Job, s: State, t: State, i: nat)
    requires Inv(r, s) && Shaped(r, t) && i < r.count && s.slots[i].claimed && !s.slots[i].done
    requires t.slots == s.slots[i := t.slots[i]] && t.pc == Woken(s.pc)
    requires t.nextWrite == s.nextWrite && t.nextDispatch == s.nextDispatch && t.slots[i].raw == s.slots[i].raw
    ensures DispatcherInv(r, t)
  {
    hide Ix, Chunk, InOrder, SlotsInv, WorkersInv, OwnersInv, SumInv;
    IxBound(s.nextWrite, r.count);
    IxBound(s.nextDispatch, r.count);
  }

  lemma OutsideInv(r: Job, s: State, t: State)
    requires Inv(r, s) && Outside(r, s, t)
    ensures Inv(r, t)
  {
    hide Ix, Chunk, InOrder, SlotsInv, WorkersInv;
    OwnersKept(s.slots, s.workers, t.slots, t.workers);
    PartsKept(r, s, t);
    InOrderKept(r, s, t);
    if t.workers != s.workers {
      var w: nat :| w < |s.workers| && s.workers[w] == Waiting && t == s.(workers := s.workers[w := Scanning]);
      SumUpdate(s.workers, w, Scanning, AwakeWeight);
    }
  }

  lemma StepInv(r: Job, s: State, t: State)
    requires Inv(r, s) && (SystemStep(r, s, t) || Outside(r, s, t))
    ensures Inv(r, t)
  {
    hide Inv, Fill, Publish, Check, Append, Release, Claim, Wait, Compress, Finish, Bail, Outside;
    if Fill(r, s, t) { FillInv(r, s, t); }
    else if Check(r, s, t) { CheckInv(r, s, t); }
    else if Append(r, s, t) { AppendInv(r, s, t); }
    else if Release(r, s, t) { ReleaseInv(r, s, t); }
    else if Outside(r, s, t) { OutsideInv(r, s, t); }
    else if Handover(r, s, t) {
      var w: nat :| Publish(r, s, t, w);
      PublishInv(r, s, t, w);
    } else {
      var w: nat :| WorkerStep(r, s, t, w);
      if Wait(r, s, t, w) { WaitInv(r, s, t, w); }
      else if Compress(r, s, t, w) { CompressInv(r, s, t, w); }
      else if Finish(r, s, t, w) || Bail(r, s, t, w) { PostInv(r, s, t, w); }
      else {
        var i: nat :| Claim(r, s, t, w, i);
        ClaimInv(r, s, t, w, i);
      }
    }
  }

  // ---------------------------------------------------------------- main results

  /** A run: any interleaving of steps, cancellations and spurious wake-ups. */
  ghost predicate IsRun(r: Job, run: seq<State>) {
    && run != [] && Init(r, run[0])
    && forall k :: 0 <= k < |run| - 1 ==> SystemStep(r, run[k], run[k + 1]) || Outside(r, run[k], run[k + 1])
  }

  lemma {:induction false} RunInv(r: Job, run: seq<State>, k: nat)
    requires IsRun(r, run) && k < |run|
    ensures Inv(r, run[k])
  {
    hide Inv, SystemStep, Outside, Init;
    if k == 0 {
      InitInv(r, run[0]);
    } else {
      RunInv(r, run, k - 1);
      assert SystemStep(r, run[k - 1], run[k - 1 + 1]) || Outside(r, run[k - 1], run[k - 1 + 1]);
      StepInv(r, run[k - 1], run[k]);
    }
  }

  /**
   * The pool refines the in-order packer: for any worker count and any interleaving, every prefix
   * it has written is the in-order prefix, and a finished run has written exactly the packed stream.
   */
  lemma PoolRefinesSequential(r: Job, run: seq<State>, k: nat)
    requires IsRun(r, run) && k < |run|
    ensures Appends(run[k]) <= r.Blocks() && run[k].stored == Payload(r.c, r.input, Appends(run[k]))
    ensures |run[k].offsets| == Appends(run[k])
    ensures forall i :: 0 <= i < Appends(run[k]) ==> run[k].offsets[i] == Offset(r.c, r.input, i)
    ensures run[k].pc == Finished ==> Front(r.c, r.input, r.Blocks() + 1) + run[k].stored == Image(r.c, r.input)
  {
    hide Payload, Offset, Front, SlotsInv, WorkersInv, OwnersInv, SumInv;
    RunInv(r, run, k);
  }

  /** Where block `i` of those already written ends. */
  function EndOf(r: Job, s: State, i: nat): nat
    requires i < |s.offsets|
  {
    if i + 1 < |s.offsets| then s.offsets[i + 1] else DataOffset(r.Blocks()) + |s.stored|
  }

  /**
   * In every reachable state, each block already written has as many bytes as compression needs, 64 KiB at most,
   * and they are the compressed block whenever that is smaller, else the block itself.
   */
  lemma WrittenIsCompressed(r: Job, run: seq<State>, k: nat, i: nat)
    requires IsRun(r, run) && k < |run| && i < |run[k].offsets|
    ensures i < r.Blocks()
    ensures var s, data := run[k], DataOffset(r.Blocks());
      var small := r.c.compress(Chunk(r.input, i));
      && EndOf(r, s, i) - s.offsets[i] == Min(|small|, 0x1_0000)
      && data <= s.offsets[i] && EndOf(r, s, i) <= data + |s.stored|
      && s.stored[s.offsets[i] - data..EndOf(r, s, i) - data]
         == if |small| < 0x1_0000 then small else Chunk(r.input, i)
  {
    hide Payload, Chunk, Offset, DataOffset, Front, IsRun;
    PoolRefinesSequential(r, run, k);
    WrittenBlock(r, i, Appends(run[k]));
  }

  lemma WrittenBlock(r: Job, i: nat, k: nat)
    requires i < k <= r.Blocks()
    ensures var p, data := Payload(r.c, r.input, k), DataOffset(r.Blocks());
      && data <= Offset(r.c, r.input, i) <= Offset(r.c, r.input, i + 1) <= data + |p|
      && Offset(r.c, r.input, k) == data + |p|
      && Offset(r.c, r.input, i + 1) == Offset(r.c, r.input, i) + |Stored(r.c, Chunk(r.input, i))|
      && p[Offset(r.c, r.input, i) - data..Offset(r.c, r.input, i + 1) - data] == Stored(r.c, Chunk(r.input, i))
  {
    hide Payload, Chunk, DataOffset, Stored;
    PayloadSlice(r.c, r.input, i, k);
    PayloadSteps(r.c, r.input, i);
  }

  /** A stage that holds the first `k` blocks, as every saved record does, is where a pool may start again. */
  lemma ResumedPoolStarts(r: Job, f: seq<byte>, base: nat, k: nat, s: State)
    requires Packable(|r.input|) && PfscPack.Holds(r.c, r.input, f, base, k) && Shaped(r, s)
    requires s.nextDispatch == s.nextWrite == k && s.pc == (if k == r.Blocks() then Finished else Loop)
    requires base + DataOffset(r.Blocks()) <= base + Offset(r.c, r.input, k) <= |f|
    requires s.stored == f[base + DataOffset(r.Blocks())..base + Offset(r.c, r.input, k)]
    requires |s.offsets| == k && forall i :: 0 <= i < k && Readable(f, base, i) ==> s.offsets[i] == Entry(f, base, i)
    requires forall i :: 0 <= i < r.count ==>
      s.slots[i] == s.slots[i].(pending := false, claimed := false, done := false, failed := false)
    requires forall w :: 0 <= w < r.count ==> s.workers[w] == Scanning
    ensures StartsAt(r, s, k)
  {
    hide Payload, Offset, Entry, Readable, DataOffset, PfscPack.TableDone, PfscPack.GapDone;
    forall i | 0 <= i < k ensures s.offsets[i] == Offset(r.c, r.input, i) {
      PfscPack.HeldEntry(r.c, r.input, f, base, k, i);
    }
  }

  /** Nothing failed as long as nobody cancelled. */
  predicate Healthy(r: Job, s: State) {
    s.pc != Aborted && |s.slots| == r.count && forall i :: 0 <= i < r.count ==> !s.slots[i].failed
  }

  lemma HealthyStep(r: Job, s: State, t: State)
    requires Healthy(r, s) && !s.cancelled && (SystemStep(r, s, t) || Outside(r, s, t))
    ensures Healthy(r, t)
  {
    if r.count > 0 {
      IxBound(s.nextWrite, r.count);
      IxBound(s.nextDispatch, r.count);
    }
    hide Ix, Chunk, Open;
  }

  /** A pool that nobody cancels never aborts, and can stop only when the whole stream is written. */
  lemma {:induction false} UndisturbedPoolFinishes(r: Job, run: seq<State>, k: nat)
    requires IsRun(r, run) && k < |run| && forall j :: 0 <= j < |run| ==> !run[j].cancelled
    ensures Healthy(r, run[k])
    ensures (forall t :: !SystemStep(r, run[k], t)) ==>
      run[k].pc == Finished && Front(r.c, r.input, r.Blocks() + 1) + run[k].stored == Image(r.c, r.input)
  {
    RunInv(r, run, k);
    PoolRefinesSequential(r, run, k);
    if k == 0 {
      assert Init(r, run[0]);
      hide SystemStep, Front, Image, Payload, Offset;
      var first: nat :| StartsAt(r, run[0], first);
      assert forall i :: 0 <= i < r.count ==> !run[0].slots[i].failed;
    } else {
      hide Inv, SystemStep, Outside, Init, Healthy, Front, Image;
      UndisturbedPoolFinishes(r, run, k - 1);
      assert SystemStep(r, run[k - 1], run[k - 1 + 1]) || Outside(r, run[k - 1], run[k - 1 + 1]);
      HealthyStep(r, run[k - 1], run[k]);
    }
    if (forall t :: !SystemStep(r, run[k], t)) && run[k].pc != Finished {
      NotAborted(r, run[k]);
      Progress(r, run[k]);
    }
  }

  lemma NotAborted(r: Job, s: State)
    requires Healthy(r, s)
    ensures s.pc != Aborted
  {
  }

  /** Each claimed slot has exactly one worker, and a slot is filled only when its last block is written. */
  lemma SlotOwnership(r: Job, run: seq<State>, k: nat, v: nat, w: nat, i: nat)
    requires IsRun(r, run) && k < |run| && v < r.count && w < r.count && i < r.count
    ensures Shaped(r, run[k])
    ensures Busy(run[k].workers[v], i) && Busy(run[k].workers[w], i) ==> v == w
    ensures run[k].slots[i].claimed <==> exists u :: 0 <= u < r.count && Busy(run[k].workers[u], i)
    ensures MayDispatch(r, run[k]) ==> !run[k].slots[AtDispatch(r, run[k])].pending
  {
    hide Ix, Payload, Offset, InOrder, Chunk;
    RunInv(r, run, k);
    var s := run[k];
    if MayDispatch(r, s) { FreeSlot(r, s); }
    forall u | 0 <= u < r.count && Busy(s.workers[u], i) ensures s.slots[i].claimed { assert WorkerInv(r, s, u); }
    assert v < w ==> !(Busy(s.workers[v], i) && Busy(s.workers[w], i));
    assert w < v ==> !(Busy(s.workers[w], i) && Busy(s.workers[v], i));
  }

  /** Work handed over but not yet claimed never exceeds the workers that are awake. */
  lemma AwakeCoversOpen(r: Job, run: seq<State>, k: nat)
    requires IsRun(r, run) && k < |run|
    ensures Sum(run[k].slots, OpenWeight) <= Sum(run[k].workers, AwakeWeight)
  {
    RunInv(r, run, k);
  }

  /** A worker that is not waiting can always take its next step. */
  lemma WorkerCanStep(r: Job, s: State, w: nat)
    requires Inv(r, s) && w < r.count && s.workers[w] != Waiting
    ensures exists t :: WorkerStep(r, s, t, w)
  {
    hide Ix, InOrder, OwnersInv, SumInv, DispatcherInv, SlotInv;
    assert WorkerInv(r, s, w);
    match s.workers[w] {
      case Claimed(i) =>
        var slot := s.slots[i].(out := r.c.compress(s.slots[i].raw));
        assert WorkerStep(r, s, s.(slots := s.slots[i := slot], workers := s.workers[w := Compressed(i)]), w);
      case Compressed(i) =>
        var slot := s.slots[i].(failed := false, claimed := false, done := true);
        assert WorkerStep(r, s, s.(slots := s.slots[i := slot], workers := s.workers[w := Scanning],
            pc := Woken(s.pc)), w);
      case Scanning =>
        var i := FirstOpen(s.slots);
        if i < r.count {
          var t := s.(slots := s.slots[i := s.slots[i].(claimed := true)], workers := s.workers[w := Claimed(i)]);
          assert Claim(r, s, t, w, i);
          assert WorkerStep(r, s, t, w);
        } else {
          assert WorkerStep(r, s, s.(workers := s.workers[w := Waiting]), w);
        }
    }
  }

  /** The index of the first open slot, or the number of slots. */
  function FirstOpen(slots: seq<Slot>): (i: nat)
    ensures i <= |slots| && (i < |slots| ==> Open(slots[i])) && forall k :: 0 <= k < i ==> !Open(slots[k])
  {
    if slots == [] then 0
    else var i := FirstOpen(slots[..|slots| - 1]);
         if i < |slots| - 1 then i else if Open(slots[|slots| - 1]) then |slots| - 1 else |slots|
  }

  /**
   * No deadlock: until the run is finished or given up, the dispatcher or some worker can take a
   * step, in every reachable state and without any outside help.
   */
  lemma Progress(r: Job, s: State)
    requires Inv(r, s) && s.pc != Finished && s.pc != Aborted
    ensures exists t :: SystemStep(r, s, t)
  {
    if s.pc == Asleep {
      var w := AwakeOwner(r, s);
      WorkerCanStep(r, s, w);
      var t :| WorkerStep(r, s, t, w);
      assert SystemStep(r, s, t);
    } else {
      DispatcherCanStep(r, s);
    }
  }

  /** While the dispatcher sleeps, the block it waits for is claimed, or an awake worker will find it. */
  lemma AwakeOwner(r: Job, s: State) returns (w: nat)
    requires Inv(r, s) && s.pc == Asleep
    ensures w < r.count && s.workers[w] != Waiting
  {
    WriteSlot(r, s);
    hide Ix, InOrder, SlotsInv, WorkersInv;
    var i := AtWrite(r, s);
    if s.slots[i].claimed {
      w :| 0 <= w < r.count && Busy(s.workers[w], i);
    } else {
      SumPositive(s.slots, i, OpenWeight);
      w := SumWitness(s.workers, AwakeWeight);
    }
  }

  lemma DispatcherCanStep(r: Job, s: State)
    requires Inv(r, s) && s.pc !in {Asleep, Finished, Aborted}
    ensures exists t :: SystemStep(r, s, t)
  {
    hide Ix, InOrder, SlotsInv, WorkersInv, OwnersInv, SumInv, Chunk;
    IxBound(s.nextWrite, r.count);
    IxBound(s.nextDispatch, r.count);
    match s.pc {
      case Loop =>
        if MayDispatch(r, s) {
          var i := AtDispatch(r, s);
          var t := s.(slots := s.slots[i := s.slots[i].(raw := Chunk(r.input, s.nextDispatch))], pc := Filled);
          assert Fill(r, s, t) && SystemStep(r, s, t);
        } else {
          var slot := s.slots[AtWrite(r, s)];
          var t := s.(
            pc := if s.cancelled || (slot.done && slot.failed) then Aborted else if slot.done then Taken else Asleep);
          assert Check(r, s, t) && SystemStep(r, s, t);
        }
      case Filled =>
        var i := AtDispatch(r, s);
        var slot := s.slots[i].(pending := true, claimed := false, done := false, failed := false,
            index := s.nextDispatch);
        var rest := s.(slots := s.slots[i := slot], nextDispatch := s.nextDispatch + 1, pc := Loop);
        if w: nat :| w < |s.workers| && s.workers[w] == Waiting {
          assert Publish(r, s, rest.(workers := s.workers[w := Scanning]), w);
          assert SystemStep(r, s, rest.(workers := s.workers[w := Scanning]));
        } else {
          var none: nat := |s.workers|;
          assert Publish(r, s, rest, none);
          assert SystemStep(r, s, rest);
        }
      case Taken =>
        var slot := s.slots[AtWrite(r, s)];
        var t := s.(offsets := s.offsets + [DataOffset(r.Blocks()) + |s.stored|],
                    stored := s.stored + if |slot.out| < BLOCK then slot.out else slot.raw, pc := Appended);
        assert Append(r, s, t) && SystemStep(r, s, t);
      case Appended =>
        var i := AtWrite(r, s);
        var t := s.(slots := s.slots[i := s.slots[i].(pending := false, done := false)], nextWrite := s.nextWrite + 1,
                    pc := if s.nextWrite + 1 == r.Blocks() then Finished else Loop);
        assert Release(r, s, t) && SystemStep(r, s, t);
    }
  }

  // ---------------------------------------------------------------- termination

  function SlotWork(slot: Slot): nat {
    if !slot.pending then 0 else if slot.done then 3 else if slot.claimed then 6 else 9
  }

  function WorkerWork(w: Worker): nat {
    match w
    case Waiting => 0
    case Scanning => 1
    case Claimed(_) => 3
    case Compressed(_) => 2
  }

  function DispatcherWork(pc: Dispatcher): nat {
    match pc
    case Loop => 3
    case Filled => 2
    case Taken => 2
    case Appended => 1
    case _ => 0
  }

  /** Steps a run can still take, at most. */
  function Work(r: Job, s: State): nat
    requires s.nextDispatch <= r.Blocks()
  {
    12 * (r.Blocks() - s.nextDispatch) + Sum(s.slots, SlotWork) + Sum(s.workers, WorkerWork) + DispatcherWork(s.pc)
  }

  lemma WorkStep(slots: seq<Slot>, workers: seq<Worker>, i: nat, slot: Slot, w: nat, worker: Worker)
    requires i < |slots| && w < |workers|
    ensures Sum(slots[i := slot], SlotWork) + SlotWork(slots[i]) == Sum(slots, SlotWork) + SlotWork(slot)
    ensures Sum(workers[w := worker], WorkerWork) + WorkerWork(workers[w]) == Sum(workers, WorkerWork)
      + WorkerWork(worker)
  {
    SumUpdate(slots, i, slot, SlotWork);
    SumUpdate(workers, w, worker, WorkerWork);
  }

  /**
   * Every step of the dispatcher or of a worker uses up work. With Progress: left alone, under any
   * schedule, a run reaches Finished or Aborted after at most Work(initial state) steps.
   */
  lemma Termination(r: Job, s: State, t: State)
    requires Inv(r, s) && SystemStep(r, s, t) && t.nextDispatch <= r.Blocks()
    ensures Work(r, t) < Work(r, s)
  {
    hide Ix, InOrder, OwnersInv, SumInv, Chunk, Payload;
    if DispatcherStep(r, s, t) {
      DispatcherUsesWork(r, s, t);
    } else if Handover(r, s, t) {
      var w: nat :| Publish(r, s, t, w);
      HandoverUsesWork(r, s, t, w);
    } else {
      var w: nat :| WorkerStep(r, s, t, w);
      WorkerUsesWork(r, s, t, w);
    }
  }

  lemma DispatcherUsesWork(r: Job, s: State, t: State)
    requires Inv(r, s) && DispatcherStep(r, s, t) && t.nextDispatch <= r.Blocks()
    ensures Work(r, t) < Work(r, s)
  {
    hide Ix, InOrder, OwnersInv, SumInv, SlotsInv, WorkersInv, Chunk, DataOffset, Sum;
    if s.pc == Loop && MayDispatch(r, s) { FreeSlot(r, s); }
    if s.pc == Taken || s.pc == Appended { WriteSlot(r, s); }
    var i := if s.pc == Loop then AtDispatch(r, s) else AtWrite(r, s);
    if i < r.count {
      WorkStep(s.slots, s.workers, i, t.slots[i], 0, s.workers[0]);
    }
  }

  lemma HandoverUsesWork(r: Job, s: State, t: State, w: nat)
    requires Inv(r, s) && Publish(r, s, t, w) && t.nextDispatch <= r.Blocks()
    ensures Work(r, t) < Work(r, s)
  {
    FreeSlot(r, s);
    hide Ix, InOrder, OwnersInv, SumInv, SlotsInv, WorkersInv, Chunk;
    var i, v := AtDispatch(r, s), if w < |s.workers| then w else 0;
    WorkStep(s.slots, s.workers, i, t.slots[i], v, Scanning);
  }

  lemma WorkerUsesWork(r: Job, s: State, t: State, w: nat)
    requires Inv(r, s) && WorkerStep(r, s, t, w) && t.nextDispatch <= r.Blocks()
    ensures Work(r, t) < Work(r, s)
  {
    hide Ix, InOrder, OwnersInv, SumInv, DispatcherInv, Chunk;
    assert WorkerInv(r, s, w);
    if Wait(r, s, t, w) {
      WorkStep(s.slots, s.workers, 0, s.slots[0], w, Waiting);
    } else if Compress(r, s, t, w) || Finish(r, s, t, w) || Bail(r, s, t, w) {
      var i := s.workers[w].slot;
      assert SlotInv(r, s, i);
      WorkStep(s.slots, s.workers, i, t.slots[i], w, t.workers[w]);
    } else {
      var i: nat :| Claim(r, s, t, w, i);
      WorkStep(s.slots, s.workers, i, t.slots[i], w, Claimed(i));
    }
  }

  /** Left alone, a run takes at most Work(its first state) steps, whatever the schedule. */
  lemma {:induction false} RunsEnd(r: Job, run: seq<State>)
    requires run != [] && Inv(r, run[0])
    requires forall k :: 0 <= k < |run| - 1 ==> SystemStep(r, run[k], run[k + 1])
    ensures Inv(r, run[|run| - 1])
    ensures Work(r, run[|run| - 1]) + |run| - 1 <= Work(r, run[0])
  {
    hide SystemStep, SlotsInv, WorkersInv, OwnersInv, DispatcherInv, InOrder, SumInv, Work;
    var n := |run| - 1;
    if n > 0 {
      RunsEnd(r, run[..n]);
      assert SystemStep(r, run[n - 1], run[n - 1 + 1]);
      StepInv(r, run[n - 1], run[n]);
      Termination(r, run[n - 1], run[n]);
    }
  }

  // ---------------------------------------------------------------- the critical sections

  /** The pool object and the code of its critical sections; each one is a step of the system above. */
  class Pool {
    const r: Job
    var slots: seq<Slot>
    var workers: seq<Worker>
    var pc: Dispatcher
    var nextDispatch: nat
    var nextWrite: nat
    var offsets: seq<nat>
    var stored: seq<byte>
    var cancelled: bool

    ghost function Now(): State
      reads this
    {
      State(slots, workers, pc, nextDispatch, nextWrite, offsets, stored, cancelled)
    }

    ghost predicate Valid()
      reads this
    {
      Inv(r, Now())
    }

    /** A pool for the blocks from `first` on; `offsets` and `stored` are what the stage already holds. */
    constructor (r: Job, first: nat, offsets: seq<nat>, stored: seq<byte>)
      requires r.count > 0 && first <= r.Blocks() && stored == Payload(r.c, r.input, first)
      requires |offsets| == first && forall i :: 0 <= i < first ==> offsets[i] == Offset(r.c, r.input, i)
      ensures this.r == r && StartsAt(r, Now(), first) && Valid()
    {
      this.r := r;
      slots := seq(r.count, _ => Slot(false, false, false, false, 0, [], []));
      workers := seq(r.count, _ => Scanning);
      pc, nextDispatch, nextWrite := if first == r.Blocks() then Finished else Loop, first, first;
      this.offsets, this.stored, cancelled := offsets, stored, false;
      new;
      assert StartsAt(r, Now(), first);
      InitInv(r, Now());
    }

    /** The scan at the top of the worker loop: claim the first open slot, or go to sleep. */
    method Scan(w: nat)
      requires Valid() && w < r.count && workers[w] == Scanning
      modifies this`slots, this`workers
      ensures Valid() && WorkerStep(r, old(Now()), Now(), w)
    {
      hide Ix, InOrder, OwnersInv, SumInv, DispatcherInv, SlotsInv, WorkersInv;
      ghost var before := Now();
      var i := 0;
      while i < r.count && !Open(slots[i])
        invariant i <= r.count && forall k :: 0 <= k < i ==> !Open(slots[k])
      {
        i := i + 1;
      }
      if i < r.count {
        slots := slots[i := slots[i].(claimed := true)];
        workers := workers[w := Claimed(i)];
        assert Claim(r, before, Now(), w, i);
        ClaimInv(r, before, Now(), w, i);
      } else {
        workers := workers[w := Waiting];
        assert Wait(r, before, Now(), w);
        WaitInv(r, before, Now(), w);
      }
    }

    /** Compression of a claimed slot, or an error once cancellation is requested. */
    method Work(w: nat)
      requires Valid() && w < r.count && workers[w].Claimed?
      modifies this`slots, this`workers, this`pc
      ensures Valid() && WorkerStep(r, old(Now()), Now(), w)
    {
      ghost var before := Now();
      assert WorkerInv(r, before, w);
      hide Ix, InOrder, OwnersInv, SumInv, DispatcherInv, SlotsInv, WorkersInv;
      var i := workers[w].slot;
      if cancelled {
        slots := slots[i := slots[i].(failed := true, claimed := false, done := true)];
        workers := workers[w := Scanning];
        pc := Woken(pc);
        assert Bail(r, before, Now(), w);
        PostInv(r, before, Now(), w);
      } else {
        slots := slots[i := slots[i].(out := r.c.compress(slots[i].raw))];
        workers := workers[w := Compressed(i)];
        assert Compress(r, before, Now(), w);
        CompressInv(r, before, Now(), w);
      }
    }

    /** Posting a result under the lock. */
    method Post(w: nat)
      requires Valid() && w < r.count && workers[w].Compressed?
      modifies this`slots, this`workers, this`pc
      ensures Valid() && WorkerStep(r, old(Now()), Now(), w)
    {
      ghost var before := Now();
      assert WorkerInv(r, before, w);
      hide Ix, InOrder, OwnersInv, SumInv, DispatcherInv, SlotsInv, WorkersInv;
      var i := workers[w].slot;
      slots := slots[i := slots[i].(failed := false, claimed := false, done := true)];
      workers := workers[w := Scanning];
      pc := Woken(pc);
      assert Finish(r, before, Now(), w);
      PostInv(r, before, Now(), w);
    }

    /** The dispatcher: fill the next slot, or look at the slot of the next block to write. */
    method Dispatch()
      requires Valid() && pc == Loop
      modifies this`slots, this`pc
      ensures Valid() && DispatcherStep(r, old(Now()), Now())
    {
      ghost var before := Now();
      IxBound(nextWrite, r.count);
      IxBound(nextDispatch, r.count);
      hide Ix, InOrder, OwnersInv, SumInv, SlotsInv, WorkersInv, Chunk;
      if MayDispatch(r, State(slots, workers, pc, nextDispatch, nextWrite, offsets, stored, cancelled)) {
        var i := Ix(nextDispatch, r.count);
        slots := slots[i := slots[i].(raw := Chunk(r.input, nextDispatch))];
        pc := Filled;
        assert Fill(r, before, Now());
        FillInv(r, before, Now());
      } else {
        var slot := slots[Ix(nextWrite, r.count)];
        pc := if cancelled || (slot.done && slot.failed) then Aborted else if slot.done then Taken else Asleep;
        assert Check(r, before, Now());
        CheckInv(r, before, Now());
      }
    }

    /** Handing a filled slot over and signalling one sleeper. */
    method Hand()
      requires Valid() && pc == Filled
      modifies this`slots, this`workers, this`pc, this`nextDispatch
      ensures Valid() && Handover(r, old(Now()), Now())
    {
      ghost var before := Now();
      IxBound(nextDispatch, r.count);
      hide Ix, InOrder, OwnersInv, SumInv, SlotsInv, WorkersInv;
      var i, w := Ix(nextDispatch, r.count), 0;
      while w < r.count && workers[w] != Waiting
        invariant w <= r.count && forall v :: 0 <= v < w ==> workers[v] != Waiting
      {
        w := w + 1;
      }
      slots := slots[i := slots[i].(pending := true, claimed := false, done := false, failed := false,
          index := nextDispatch)];
      nextDispatch := nextDispatch + 1;
      pc := Loop;
      if w < r.count { workers := workers[w := Scanning]; }
      assert Publish(r, before, Now(), w);
      PublishInv(r, before, Now(), w);
    }

    /** Writing the next block in order. */
    method Emit()
      requires Valid() && pc == Taken
      modifies this`pc, this`offsets, this`stored
      ensures Valid() && Append(r, old(Now()), Now())
      ensures stored == Payload(r.c, r.input, nextWrite + 1)
    {
      ghost var before := Now();
      WriteSlot(r, before);
      hide Ix, OwnersInv, SumInv, SlotsInv, WorkersInv, Payload, Offset;
      var i := Ix(nextWrite, r.count);
      offsets := offsets + [DataOffset(r.Blocks()) + |stored|];
      stored := stored + if |slots[i].out| < BLOCK then slots[i].out else slots[i].raw;
      pc := Appended;
      assert Append(r, before, Now());
      AppendInv(r, before, Now());
    }

    /** Recycling the slot of the block just written. */
    method Recycle()
      requires Valid() && pc == Appended
      modifies this`slots, this`pc, this`nextWrite
      ensures Valid() && Release(r, old(Now()), Now())
    {
      ghost var before := Now();
      WriteSlot(r, before);
      hide Ix, OwnersInv, SumInv, SlotsInv, WorkersInv, InOrder;
      var i := Ix(nextWrite, r.count);
      slots := slots[i := slots[i].(pending := false, done := false)];
      nextWrite := nextWrite + 1;
      pc := if nextWrite == r.Blocks() then Finished else Loop;
      assert Release(r, before, Now());
      ReleaseInv(r, before, Now());
    }
  }
}
