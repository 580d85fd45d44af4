/**
 * The archive stream that the HTTP callback pulls piece by piece. Its future is a sequence of symbols: a byte
 * that is still to come, or a fault, an entry that cannot be archived. The machine is proved to serve exactly
 * that sequence, whatever the sizes of the buffers it is asked to fill.
 */
module TarStream {
  import opened Bytes
  import opened TarHeader

  /** `size` is what `lstat` reported; `data` is what reading the file yields, which may be shorter or longer.
      Odd stands for everything that cannot be started: not a regular file or directory, gone, or too long. */
  datatype Node =
    | File(name: seq<byte>, size: nat, data: seq<byte>, meta: Meta, opens: bool)
    | Dir(name: seq<byte>, children: seq<Node>, meta: Meta)
    | Odd(name: seq<byte>)

  datatype Frame = Frame(name: seq<byte>, headerSent: bool, children: seq<Node>, meta: Meta)

  /** A byte to come, or None for a fault. */
  type Symbol = Option<byte>

  function Lift(b: seq<byte>): (p: seq<Symbol>)
    ensures |p| == |b|
  {
    seq(|b|, i requires 0 <= i < |b| => Some(b[i]))
  }

  lemma LiftAppend(a: seq<byte>, b: seq<byte>)
    ensures Lift(a + b) == Lift(a) + Lift(b)
  {
  }

  function Padding(size: nat): nat { (BLOCK - size % BLOCK) % BLOCK }

  // ---------------------------------------------------------------- what a tree turns into

  /** The bytes after a file's header: padding follows only if the file is as long as announced. */
  function Content(data: seq<byte>, size: nat, padding: nat): seq<byte> {
    if |data| >= size then data[..size] + Zeros(padding) else data
  }

  function HeadPlan(h: Option<seq<byte>>): seq<Symbol> { if h.Some? then Lift(h.value) else [None] }

  function FilePlan(n: Node, name: seq<byte>): seq<Symbol>
    requires n.File?
  {
    var h := Header(name, REGULAR, n.size, n.meta);
    if h == None then [None]
    else if !n.opens then [None] + Lift(h.value)
    else Lift(h.value) + Lift(Content(n.data, n.size, Padding(n.size)))
  }

  function DirName(name: seq<byte>): seq<byte> {
    if name != [] && name[|name| - 1] == SLASH then name else name + [SLASH]
  }

  function NodePlan(n: Node, name: seq<byte>): seq<Symbol>
    decreases n, 1
  {
    match n
    case File(_, _, _, _, _) => FilePlan(n, name)
    case Dir(_, children, meta) =>
      HeadPlan(Header(DirName(name), DIRECTORY, 0, meta)) + Children(DirName(name), children)
    case Odd(_) => [None]
  }

  function Children(dir: seq<byte>, cs: seq<Node>): seq<Symbol>
    decreases cs, 0
  {
    if cs == [] then [] else NodePlan(cs[0], dir + cs[0].name) + Children(dir, cs[1..])
  }

  function Paths(ps: seq<Node>): seq<Symbol> { Children([], ps) }

  /** The whole archive of a selection. */
  function Plan(ps: seq<Node>): seq<Symbol> { Paths(ps) + Lift(Zeros(2 * BLOCK)) }

  function FramePlan(f: Frame): seq<Symbol> {
    (if f.headerSent then [] else HeadPlan(Header(f.name, DIRECTORY, 0, f.meta))) + Children(f.name, f.children)
  }

  function StackPlan(stack: seq<Frame>): seq<Symbol> {
    if stack == [] then [] else FramePlan(stack[0]) + StackPlan(stack[1..])
  }

  // ---------------------------------------------------------------- one call of the callback

  /** How many bytes come before a fault, the end, or `max`. */
  function Lead(p: seq<Symbol>, max: nat): (n: nat)
    ensures n <= max && n <= |p| && (forall i :: 0 <= i < n ==> p[i].Some?)
    ensures n < max && n < |p| ==> p[n] == None
  {
    if max == 0 || p == [] || p[0] == None then 0 else 1 + Lead(p[1..], max - 1)
  }

  function Lower(p: seq<Symbol>): (b: seq<byte>)
    requires forall i :: 0 <= i < |p| ==> p[i].Some?
    ensures |b| == |p| && Lift(b) == p
  {
    seq(|p|, i requires 0 <= i < |p| => p[i].value)
  }

  datatype Answer = Data(bytes: seq<byte>) | EndOfStream | EndWithError

  datatype Turn = Turn(answer: Answer, rest: seq<Symbol>)

  /** A fault ends the call; it is reported only if nothing was delivered in the same call. */
  function Call(p: seq<Symbol>, max: nat): Turn {
    var n := Lead(p, max);
    var fault := n < max && n < |p|;
    Turn(if n > 0 then Data(Lower(p[..n])) else if fault then EndWithError else EndOfStream,
         if fault then p[n + 1..] else p[n..])
  }

  lemma {:induction false} LeadIs(p: seq<Symbol>, max: nat, n: nat)
    requires n <= max && n <= |p| && (forall i :: 0 <= i < n ==> p[i].Some?)
    requires n == max || n == |p| || p[n] == None
    ensures Lead(p, max) == n
  {
    if n > 0 { LeadIs(p[1..], max - 1, n - 1); }
  }

  // ---------------------------------------------------------------- the machine

  function NodeWeight(n: Node): nat
    decreases n, 1
  {
    if n.Dir? then 3 + Weights(n.children) else 2
  }

  function Weights(ns: seq<Node>): nat
    decreases ns, 0
  {
    if ns == [] then 0 else NodeWeight(ns[0]) + Weights(ns[1..])
  }

  function StackWeight(stack: seq<Frame>): nat {
    if stack == [] then 0
    else 1 + (if stack[0].headerSent then 0 else 1) + Weights(stack[0].children) + StackWeight(stack[1..])
  }

  /** Sending the header of the topmost directory. */
  lemma HeaderGoes(frame: Frame, below: seq<Frame>, paths: seq<Node>, blocks: nat)
    requires !frame.headerSent
    ensures var sent := frame.(headerSent := true);
      && Remaining([frame] + below, paths, blocks)
        == HeadPlan(Header(frame.name, DIRECTORY, 0, frame.meta)) + Remaining([sent] + below, paths, blocks)
      && StackWeight([sent] + below) < StackWeight([frame] + below)
  {
    hide HeadPlan, Children, Header, Paths, Lift;
    var sent := frame.(headerSent := true);
    assert ([frame] + below)[1..] == below && ([sent] + below)[1..] == below;
  }

  /** What is still to come from directories, selected paths and final blocks. */
  function Remaining(stack: seq<Frame>, paths: seq<Node>, blocks: nat): seq<Symbol> {
    StackPlan(stack) + Paths(paths) + Lift(Zeros(BLOCK * blocks))
  }

  class TarStream {
    const paths: seq<Node>
    var pathIndex: nat
    var stack: seq<Frame>
    // the open file: what reading it still yields, and what is still wanted of it
    var file: Option<seq<byte>>
    var fileRemaining: nat
    var filePadding: nat
    var padRemaining: nat
    var pending: Option<seq<byte>>
    var pendingOffset: nat
    var finalBlocks: nat
    var done: bool

    ghost predicate Valid()
      reads this
    {
      && pathIndex <= |paths| && finalBlocks <= 2 && padRemaining < BLOCK
      && (pending.Some? ==> pendingOffset < |pending.value|)
      && (file.Some? ==> padRemaining == 0 && (fileRemaining == 0 ==> filePadding == 0) && filePadding < BLOCK)
      && (done ==>
            pending == None && file == None && padRemaining == 0 && stack == [] && pathIndex == |paths|
            && finalBlocks == 2)
    }

    /** What the stream will still deliver. */
    ghost function Future(): seq<Symbol>
      reads this
      requires Valid()
    {
      Queue() + Ahead()
    }

    ghost function Queue(): seq<Symbol>
      reads this
      requires Valid()
    {
      if pending.Some? then Lift(pending.value[pendingOffset..]) else []
    }

    ghost function Ahead(): seq<Symbol>
      reads this
      requires Valid()
    {
      (if file.Some? then Lift(Content(file.value, fileRemaining, filePadding)) else Lift(Zeros(padRemaining))) + Tail()
    }

    ghost function Tail(): seq<Symbol>
      reads this
      requires Valid()
    {
      Remaining(stack, paths[pathIndex..], 2 - finalBlocks)
    }

    /** Bounds the turns that deliver nothing. */
    ghost function Weight(): nat
      reads this
      requires Valid()
    {
      (if file.Some? then 1 else 0) + (if padRemaining > 0 then 1 else 0) + StackWeight(stack)
          + Weights(paths[pathIndex..])
      + (2 - finalBlocks) + (if done then 0 else 1)
    }

    constructor (paths: seq<Node>)
      ensures Valid() && this.paths == paths && Future() == Plan(paths)
    {
      this.paths := paths;
      pathIndex, stack, file, fileRemaining, filePadding := 0, [], None, 0, 0;
      padRemaining, pending, pendingOffset, finalBlocks, done := 0, None, 0, 0, false;
      new;
      assert paths[0..] == paths;
    }

    method StackDir(n: Node, name: seq<byte>)
      requires Valid() && pending == None && file == None && padRemaining == 0 && !done && n.Dir?
      modifies this`stack
      ensures Valid() && Weight() < old(Weight()) + NodeWeight(n)
      ensures Future() == NodePlan(n, name) + old(Future())
    {
      hide Children, HeadPlan, Header, Content, Paths, DirName;
      ghost var tail := Tail();
      stack := [Frame(DirName(name), false, n.children, n.meta)] + stack;
      assert stack[1..] == old(stack);
      assert Future() == NodePlan(n, name) + tail;
    }

    method OpenFile(n: Node, name: seq<byte>) returns (ok: bool)
      requires Valid() && pending == None && file == None && padRemaining == 0 && !done && n.File?
      modifies this`file, this`fileRemaining, this`filePadding, this`pending, this`pendingOffset
      ensures Valid() && Weight() < old(Weight()) + 2
      ensures (if ok then [] else [None]) + Future() == FilePlan(n, name) + old(Future())
    {
      hide Header, Content, StackPlan, Paths, StackWeight, Weights;
      ghost var tail := Tail();
      var h := MakeHeader(name, REGULAR, n.size, n.meta);
      if h == None { return false; }
      pending, pendingOffset := h, 0;
      assert h.value[0..] == h.value;
      if !n.opens { return false; }
      file, fileRemaining, filePadding := Some(n.data), n.size, Padding(n.size);
      assert Tail() == tail;
      return true;
    }

    /** A new path: a directory is stacked, a file gets its header queued and is opened. */
    method StartPath(n: Node, name: seq<byte>) returns (ok: bool)
      requires Valid() && pending == None && file == None && padRemaining == 0 && !done
      modifies this`stack, this`file, this`fileRemaining, this`filePadding, this`pending, this`pendingOffset
      ensures Valid() && Weight() < old(Weight()) + NodeWeight(n)
      ensures (if ok then [] else [None]) + Future() == NodePlan(n, name) + old(Future())
    {
      hide Children, FilePlan, HeadPlan, Header, Content, Paths, DirName, StackPlan, StackWeight, Weights, Future,
        Weight;
      ok := !n.Odd?;
      if n.Dir? {
        StackDir(n, name);
      } else if n.File? {
        ok := OpenFile(n, name);
      }
    }

    /** The dispatcher: padding first, then the innermost directory, then the next path, then the two zero blocks. */
    method PrepareNext() returns (ok: bool)
      requires Valid()
      modifies this
      ensures Valid()
      ensures (if ok then [] else [None]) + Future() == old(Future())
      ensures ok ==> pending.Some? || file.Some? || old(done) || Weight() < old(Weight())
      ensures ok ==> Weight() <= old(Weight())
    {
      hide Future, Weight;
      while pending == None && file == None && !done
        invariant Valid() && Future() == old(Future()) && Weight() <= old(Weight())
        invariant Weight() == old(Weight()) ==> pending == old(pending) && file == old(file) && done == old(done)
        decreases Weight()
      {
        if padRemaining > 0 {
          SendPadding();
          return true;
        }
        if stack != [] {
          if !stack[0].headerSent {
            ok := SendDirHeader();
            return;
          }
          if stack[0].children != [] {
            ok := NextChild();
            return;
          }
          Pop();
        } else if pathIndex < |paths| {
          ok := NextPath();
          if !ok { return; }
        } else {
          FinalBlock();
          if pending.Some? { return true; }
        }
      }
      return true;
    }

    method SendPadding()
      requires Valid() && pending == None && file == None && padRemaining > 0
      modifies this`padRemaining, this`pending, this`pendingOffset
      ensures Valid() && Weight() < old(Weight()) && Future() == old(Future()) && pending.Some?
    {
      hide StackPlan, Paths, StackWeight, Weights;
      ghost var tail := Tail();
      pending, pendingOffset, padRemaining := Some(Zeros(padRemaining)), 0, 0;
      assert pending.value[0..] == pending.value && Tail() == tail && Zeros(0) == [];
    }

    /** One of the two zero blocks, or the end. */
    method FinalBlock()
      requires Valid() && pending == None && file == None && padRemaining == 0 && stack == [] && pathIndex == |paths|
      requires !done
      modifies this`finalBlocks, this`pending, this`pendingOffset, this`done
      ensures Valid() && Weight() < old(Weight()) && Future() == old(Future())
    {
      if finalBlocks < 2 {
        pending, pendingOffset := Some(Zeros(BLOCK)), 0;
        finalBlocks := finalBlocks + 1;
        assert pending.value[0..] == Zeros(BLOCK);
        assert Zeros(BLOCK) + Zeros(BLOCK * (2 - finalBlocks)) == Zeros(BLOCK * (3 - finalBlocks));
        LiftAppend(Zeros(BLOCK), Zeros(BLOCK * (2 - finalBlocks)));
      } else {
        done := true;
      }
    }

    method SendDirHeader() returns (ok: bool)
      requires Valid() && pending == None && file == None && padRemaining == 0 && stack != [] && !stack[0].headerSent
      requires !done
      modifies this`stack, this`pending, this`pendingOffset
      ensures Valid() && Weight() < old(Weight()) && (ok ==> pending.Some?)
      ensures (if ok then [] else [None]) + Future() == old(Future())
    {
      hide Header, Remaining, StackWeight;
      var frame := stack[0];
      assert stack == [frame] + stack[1..];
      HeaderGoes(frame, stack[1..], paths[pathIndex..], 2 - finalBlocks);
      stack := [frame.(headerSent := true)] + stack[1..];
      var h := MakeHeader(frame.name, DIRECTORY, 0, frame.meta);
      if h == None { return false; }
      pending, pendingOffset := h, 0;
      assert h.value[0..] == h.value;
      return true;
    }

    method NextChild() returns (ok: bool)
      requires Valid() && pending == None && file == None && padRemaining == 0 && !done
      requires stack != [] && stack[0].headerSent && stack[0].children != []
      modifies this`stack, this`file, this`fileRemaining, this`filePadding, this`pending, this`pendingOffset
      ensures Valid() && Weight() < old(Weight())
      ensures (if ok then [] else [None]) + Future() == old(Future())
    {
      hide HeadPlan, Header, Paths, NodePlan, NodeWeight;
      var frame := stack[0];
      ghost var below := stack[1..];
      var child := frame.children[0];
      stack := [frame.(children := frame.children[1..])] + stack[1..];
      assert stack[1..] == below;
      assert old(Future()) == NodePlan(child, frame.name + child.name) + Future();
      ok := StartPath(child, frame.name + child.name);
    }

    method Pop()
      requires Valid() && pending == None && file == None && padRemaining == 0 && !done
      requires stack != [] && stack[0].headerSent && stack[0].children == []
      modifies this`stack
      ensures Valid() && Weight() < old(Weight()) && Future() == old(Future())
    {
      hide HeadPlan, Header, Paths;
      stack := stack[1..];
    }

    method NextPath() returns (ok: bool)
      requires Valid() && pending == None && file == None && padRemaining == 0 && stack == [] && pathIndex < |paths|
      requires !done
      modifies this`pathIndex, this`stack, this`file, this`fileRemaining, this`filePadding, this`pending,
          this`pendingOffset
      ensures Valid() && Weight() < old(Weight())
      ensures (if ok then [] else [None]) + Future() == old(Future())
    {
      hide HeadPlan, Header, NodePlan, NodeWeight;
      var path := paths[pathIndex];
      ghost var rest := paths[pathIndex..];
      pathIndex := pathIndex + 1;
      assert rest[1..] == paths[pathIndex..];
      assert [] + path.name == path.name;
      assert old(Future()) == NodePlan(path, path.name) + Future();
      ok := StartPath(path, path.name);
    }

    method TakePending(room: nat) returns (bytes: seq<byte>)
      requires Valid() && pending.Some? && room > 0
      modifies this`pending, this`pendingOffset
      ensures Valid() && 0 < |bytes| <= room && old(Future()) == Lift(bytes) + Future()
    {
      hide StackPlan, Paths, StackWeight, Weights, Content;
      ghost var ahead := Ahead();
      var left := |pending.value| - pendingOffset;
      var take := Min(left, room);
      bytes := pending.value[pendingOffset..pendingOffset + take];
      ghost var before := pending.value[pendingOffset..];
      pendingOffset := pendingOffset + take;
      assert before == bytes + pending.value[pendingOffset..];
      LiftAppend(bytes, pending.value[pendingOffset..]);
      if pendingOffset >= |pending.value| { pending, pendingOffset := None, 0; }
      assert Ahead() == ahead;
    }

    /** End of the open file with nothing read: announced, or early; then its padding is not sent. */
    method CloseFile()
      requires Valid() && pending == None && file.Some? && (fileRemaining == 0 || file.value == [])
      modifies this`file, this`fileRemaining
      ensures Valid() && Weight() < old(Weight()) && old(Future()) == Future()
    {
      hide StackPlan, Paths, StackWeight, Weights, Content, Lift, Zeros;
      ghost var tail := Tail();
      ContentEmpty(file.value, fileRemaining, filePadding);
      file, fileRemaining := None, 0;
      assert Tail() == tail;
    }

    /** `n` bytes read from the open file; the last announced one closes it and schedules the padding. */
    method Consume(n: nat) returns (bytes: seq<byte>)
      requires Valid() && pending == None && file.Some? && 0 < n <= fileRemaining && n <= |file.value|
      modifies this`file, this`fileRemaining, this`filePadding, this`padRemaining
      ensures Valid() && |bytes| == n && old(Future()) == Lift(bytes) + Future()
    {
      hide Remaining, Content, Lift, Zeros;
      ghost var tail, data, padding := Tail(), file.value, filePadding;
      bytes := file.value[..n];
      ContentSplits(data, fileRemaining, padding, n);
      file, fileRemaining := Some(file.value[n..]), fileRemaining - n;
      ContentEmpty(data[n..], fileRemaining, padding);
      if fileRemaining == 0 {
        file, padRemaining, filePadding := None, filePadding, 0;
      }
      assert Tail() == tail;
      assert Future() == Lift(Content(data[n..], fileRemaining, padding)) + tail;
    }

    /** One read of the open file, of any length the system chooses. */
    method ReadFile(room: nat) returns (bytes: seq<byte>)
      requires Valid() && pending == None && file.Some? && room > 0
      modifies this`file, this`fileRemaining, this`filePadding, this`padRemaining
      ensures Valid() && |bytes| <= room && old(Future()) == Lift(bytes) + Future()
      ensures bytes == [] ==> Weight() < old(Weight())
    {
      hide Future, Weight;
      var want := Min(Min(room, fileRemaining), |file.value|);
      if want == 0 {
        CloseFile();
        return [];
      }
      var n: nat :| 0 < n <= want;
      bytes := Consume(n);
    }

    /** One call of the callback. */
    method Read(max: nat) returns (answer: Answer)
      requires Valid() && max > 0
      modifies this
      ensures Valid() && Turn(answer, Future()) == Call(old(Future()), max)
    {
      hide Future, Weight, Call;
      ghost var start := Future();
      var out: seq<byte> := [];
      while |out| < max && !done
        invariant Valid() && |out| <= max && start == Lift(out) + Future()
        decreases max - |out|, Weight()
      {
        ghost var before := Future();
        var ok := PrepareNext();
        if !ok {
          answer := if out == [] then EndWithError else Data(out);
          assert start == Lift(out) + [None] + Future();
          CallFaults(start, max, out, Future());
          return;
        }
        var bytes: seq<byte> := [];
        ghost var ahead := Future();
        if pending.Some? {
          bytes := TakePending(max - |out|);
        } else if file.Some? {
          bytes := ReadFile(max - |out|);
        }
        LiftAppend(out, bytes);
        out := out + bytes;
        assert ahead == Lift(bytes) + Future();
      }
      answer := if out == [] then EndOfStream else Data(out);
      assert |out| < max ==> Future() == [] by { if done { AtEnd(); } }
      CallDelivers(start, max, out, Future());
    }

    lemma AtEnd()
      requires Valid() && done
      ensures Future() == []
    {
      assert paths[pathIndex..] == [];
    }
  }

  lemma ContentEmpty(data: seq<byte>, size: nat, padding: nat)
    ensures data == [] && size > 0 ==> Content(data, size, padding) == []
    ensures size == 0 && padding == 0 ==> Content(data, size, padding) == []
    ensures size == 0 ==> Content(data, size, padding) == Zeros(padding)
    ensures Lift([]) == [] && Zeros(0) == []
  {
  }

  lemma ContentSplits(data: seq<byte>, size: nat, padding: nat, n: nat)
    requires n <= size && n <= |data|
    ensures Lift(Content(data, size, padding)) == Lift(data[..n]) + Lift(Content(data[n..], size - n, padding))
  {
    assert Content(data, size, padding) == data[..n] + Content(data[n..], size - n, padding);
  }

  lemma CallFaults(p: seq<Symbol>, max: nat, out: seq<byte>, rest: seq<Symbol>)
    requires |out| < max && p == Lift(out) + [None] + rest
    ensures Call(p, max) == Turn(if out == [] then EndWithError else Data(out), rest)
  {
    assert p[|out|] == None && p[..|out|] == Lift(out) && p[|out| + 1..] == rest;
    LeadIs(p, max, |out|);
    LowerLift(out, p[..|out|]);
  }

  lemma CallDelivers(p: seq<Symbol>, max: nat, out: seq<byte>, rest: seq<Symbol>)
    requires |out| <= max && max > 0 && p == Lift(out) + rest && (|out| < max ==> rest == [])
    ensures Call(p, max) == Turn(if out == [] then EndOfStream else Data(out), rest)
  {
    assert p[..|out|] == Lift(out) && p[|out|..] == rest;
    LeadIs(p, max, |out|);
    LowerLift(out, p[..|out|]);
  }

  lemma LowerLift(b: seq<byte>, p: seq<Symbol>)
    requires p == Lift(b)
    ensures Lower(p) == b
  {
    forall i | 0 <= i < |b| ensures Lower(p)[i] == b[i] { assert p[i] == Some(b[i]); }
  }
}
