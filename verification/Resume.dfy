/** The resume record of a conversion and the callback that makes it durable. */
module Resume {
  import opened Bytes

  datatype Phase = Exfat | Pack | Verify | Publish | Done

  datatype State = State(
    phase: Phase,
    exfatSize: nat,
    nextFile: nat,
    fileCount: nat,
    fingerprint: nat,
    stageSize: nat,
    packNext: nat,
    packStored: nat,
    verifyNext: nat,
    innerName: seq<byte>)

  /**
   * `state` is the record in memory; `saved` lists the records made durable so far, oldest first,
   * and `stages` the synchronized stage contents each of them was saved with. The callback may
   * fail, in which case the last durable record stands.
   */
  class Journal {
    var state: State
    var saved: seq<State>
    ghost var stages: seq<seq<byte>>
    const failing: nat -> bool

    ghost predicate Valid()
      reads this
    {
      |saved| == |stages|
    }

    constructor (initial: State, failing: nat -> bool)
      ensures Valid() && state == initial && saved == [] && this.failing == failing
    {
      state, saved, stages, this.failing := initial, [], [], failing;
    }

    method Checkpoint(ghost stage: seq<byte>) returns (ok: bool)
      requires Valid()
      modifies this`saved, this`stages
      ensures Valid() && ok == !failing(|old(saved)|)
      ensures saved == if ok then old(saved) + [state] else old(saved)
      ensures stages == if ok then old(stages) + [stage] else old(stages)
    {
      ok := !failing(|saved|);
      if ok {
        saved, stages := saved + [state], stages + [stage];
      }
    }
  }
}
