/** What the client of the archive stream receives: independence of the buffer sizes, and reading the archive back. */
module TarArchive {
  import opened Bytes
  import opened TarHeader
  import opened TarStream

  // ---------------------------------------------------------------- the stream as the client sees it

  /** Everything delivered by calls with these buffer sizes, until the stream ends. */
  function Output(p: seq<Symbol>, sizes: seq<nat>): seq<byte>
    decreases |sizes|
  {
    if sizes == [] then []
    else
      var turn := Call(p, sizes[0]);
      if turn.answer.Data? then turn.answer.bytes + Output(turn.rest, sizes[1..]) else []
  }

  function Total(sizes: seq<nat>): nat { if sizes == [] then 0 else sizes[0] + Total(sizes[1..]) }

  predicate Faultless(p: seq<Symbol>) { forall i :: 0 <= i < |p| ==> p[i].Some? }

  predicate Positive(sizes: seq<nat>) { forall i :: 0 <= i < |sizes| ==> sizes[i] > 0 }

  lemma OutputStep(p: seq<Symbol>, sizes: seq<nat>, turn: Turn)
    requires sizes != [] && Call(p, sizes[0]) == turn
    ensures Output(p, sizes) == if turn.answer.Data? then turn.answer.bytes + Output(turn.rest, sizes[1..]) else []
  {
  }

  lemma {:induction false} CallOnBytes(b: seq<byte>, max: nat)
    requires max > 0
    ensures Call(Lift(b), max)
      == if b == [] then Turn(EndOfStream, []) else Turn(Data(b[..Min(max, |b|)]), Lift(b[Min(max, |b|)..]))
  {
    var n := Min(max, |b|);
    assert b == b[..n] + b[n..];
    CallDelivers(Lift(b), max, b[..n], Lift(b[n..]));
  }

  lemma TakeTwice(b: seq<byte>, n: nat, m: nat)
    requires n + m <= |b|
    ensures b[..n] + b[n..][..m] == b[..n + m]
  {
  }

  /** Without faults the buffer sizes do not matter: the client gets the first bytes of the archive, in order. */
  lemma {:induction false} BufferSizesDoNotMatter(b: seq<byte>, sizes: seq<nat>)
    requires Positive(sizes)
    ensures Output(Lift(b), sizes) == b[..Min(Total(sizes), |b|)]
    decreases |sizes|
  {
    if sizes == [] {
    } else {
      hide Call, Output, Lift, Total;
      var max, more := sizes[0], sizes[1..];
      var n := Min(max, |b|);
      TotalStep(sizes);
      CallOnBytes(b, max);
      OutputStep(Lift(b), sizes, Call(Lift(b), max));
      if b != [] {
        assert Positive(more);
        BufferSizesDoNotMatter(b[n..], more);
        TakeTwice(b, n, Min(Total(more), |b| - n));
      }
    }
  }

  lemma TotalStep(sizes: seq<nat>)
    requires sizes != []
    ensures Total(sizes) == sizes[0] + Total(sizes[1..])
  {
  }

  // ---------------------------------------------------------------- faults

  /** The bytes before the first fault. */
  function Before(p: seq<Symbol>): (b: seq<byte>)
  {
    Lower(p[..Lead(p, |p|)])
  }

  /** However it is read, the stream delivers nothing from beyond its first fault. */
  ghost predicate StopsAtFault(p: seq<Symbol>) {
    forall sizes :: Positive(sizes) ==> Output(p, sizes) <= Before(p)
  }

  /** The first fault comes before any byte, or directly before another one, or last, or never. */
  predicate FaultsStop(p: seq<Symbol>) {
    var k := Lead(p, |p|);
    k == 0 || k + 1 >= |p| || p[k + 1] == None
  }

  lemma FaultSplits(p: seq<Symbol>) returns (b: seq<byte>, rest: seq<Symbol>)
    requires Lead(p, |p|) < |p|
    ensures b == Before(p) && p == Lift(b) + [None] + rest && |b| == Lead(p, |p|) && rest == p[|b| + 1..]
  {
    var k := Lead(p, |p|);
    b, rest := Before(p), p[k + 1..];
    assert p == p[..k] + [p[k]] + rest;
  }

  /** Reading up to a fault: one call stays before it, reaches it exactly, or steps over it. */
  lemma {:induction false} CallBeforeFault(b: seq<byte>, rest: seq<Symbol>, max: nat)
    requires max > 0
    ensures var p := Lift(b) + [None] + rest;
      Call(p, max) == if max <= |b| then Turn(Data(b[..max]), Lift(b[max..]) + [None] + rest)
                      else Turn(if b == [] then EndWithError else Data(b), rest)
  {
    var p := Lift(b) + [None] + rest;
    if max <= |b| {
      assert b == b[..max] + b[max..];
      LiftAppend(b[..max], b[max..]);
      assert p == Lift(b[..max]) + (Lift(b[max..]) + [None] + rest);
      CallDelivers(p, max, b[..max], Lift(b[max..]) + [None] + rest);
    } else {
      CallFaults(p, max, b, rest);
    }
  }

  lemma {:induction false} SecondFaultEnds(rest: seq<Symbol>, sizes: seq<nat>)
    requires Positive(sizes) && (rest == [] || rest[0] == None)
    ensures Output(rest, sizes) == []
  {
    if sizes != [] { LeadIs(rest, sizes[0], 0); }
  }

  lemma {:induction false} FaultsStopOutput(b: seq<byte>, rest: seq<Symbol>, sizes: seq<nat>)
    requires Positive(sizes) && (rest == [] || rest[0] == None)
    ensures Output(Lift(b) + [None] + rest, sizes) <= b
    decreases |sizes|
  {
    if sizes != [] {
      hide Call, Output, Lift;
      var max, more := sizes[0], sizes[1..];
      var p := Lift(b) + [None] + rest;
      assert Positive(more);
      CallBeforeFault(b, rest, max);
      OutputStep(p, sizes, Call(p, max));
      if max <= |b| {
        FaultsStopOutput(b[max..], rest, more);
        PrefixOfTail(b, max, Output(Lift(b[max..]) + [None] + rest, more));
      } else {
        SecondFaultEnds(rest, more);
      }
    } else {
      assert Output(Lift(b) + [None] + rest, sizes) == [];
    }
  }

  lemma PrefixOfTail(b: seq<byte>, n: nat, out: seq<byte>)
    requires n <= |b| && out <= b[n..]
    ensures b[..n] + out <= b
  {
  }

  lemma {:induction false} FirstFaultEnds(rest: seq<Symbol>, sizes: seq<nat>)
    requires Positive(sizes)
    ensures Output(Lift([]) + [None] + rest, sizes) == []
  {
    if sizes != [] { CallBeforeFault([], rest, sizes[0]); }
  }

  /** The calls after the one whose buffer reaches past `n` bytes; None if a call ends there, or none gets there. */
  function After(sizes: seq<nat>, n: nat): Option<seq<nat>> {
    if sizes == [] || sizes[0] == n then None
    else if sizes[0] < n then After(sizes[1..], n - sizes[0])
    else Some(sizes[1..])
  }

  /**
   * What every sequence of buffer sizes delivers around a fault: a call that reaches past it steps over the entry
   * that failed and the later calls deliver what follows; if a call ends exactly at it, the stream ends there.
   */
  lemma {:induction false} SkipsTheFault(b: seq<byte>, rest: seq<Symbol>, sizes: seq<nat>)
    requires b != [] && Positive(sizes)
    ensures Output(Lift(b) + [None] + rest, sizes) ==
      match After(sizes, |b|)
      case None => b[..Min(Total(sizes), |b|)]
      case Some(more) => b + Output(rest, more)
    decreases |sizes|
  {
    hide Call, Output, Lift, Total;
    var p := Lift(b) + [None] + rest;
    if sizes == [] {
      NothingAsked(p);
    } else {
      var max, more := sizes[0], sizes[1..];
      assert Positive(more);
      TotalStep(sizes);
      CallBeforeFault(b, rest, max);
      OutputStep(p, sizes, Call(p, max));
      if max < |b| {
        SkipsTheFault(b[max..], rest, more);
        if After(more, |b| - max).None? { TakeTwice(b, max, Min(Total(more), |b| - max)); }
        else { assert b == b[..max] + b[max..]; Rejoin(b, max, Output(rest, After(more, |b| - max).value)); }
      } else if max == |b| {
        assert b[max..] == [];
        FirstFaultEnds(rest, more);
      }
    }
  }

  lemma NothingAsked(p: seq<Symbol>)
    ensures Output(p, []) == [] && Total([]) == 0
  {
  }

  lemma Rejoin(b: seq<byte>, n: nat, out: seq<byte>)
    requires n <= |b|
    ensures b[..n] + (b[n..] + out) == b + out
  {
  }

  lemma OneMoreByte(rest: seq<Symbol>)
    requires rest != [] && rest[0].Some?
    ensures Output(rest, [1]) == [rest[0].value]
  {
    var out := [rest[0].value];
    assert rest == Lift(out) + rest[1..];
    hide Call, Lift;
    CallDelivers(rest, 1, out, rest[1..]);
    OutputStep(rest, [1], Turn(Data(out), rest[1..]));
    assert [1][1..] == [];
  }

  /**
   * An entry that cannot be archived ends the stream for every way of reading it if and only if it comes
   * first, or directly before another such entry. Otherwise a large enough buffer steps over it and the
   * client receives an archive in which the entry is missing.
   */
  lemma FaultsExactly(p: seq<Symbol>)
    ensures StopsAtFault(p) <==> FaultsStop(p) || Faultless(p)
  {
    var k := Lead(p, |p|);
    if k == |p| {
      assert p[..k] == p;
      forall sizes | Positive(sizes) ensures Output(p, sizes) <= Before(p) {
        BufferSizesDoNotMatter(Before(p), sizes);
      }
    } else {
      var b, rest := FaultSplits(p);
      assert p[k] == None;
      if b == [] || rest == [] || rest[0] == None {
        forall sizes | Positive(sizes) ensures Output(p, sizes) <= Before(p) {
          if b == [] { FirstFaultEnds(rest, sizes); } else { FaultsStopOutput(b, rest, sizes); }
        }
      } else {
        var sizes := [|b| + 1, 1];
        assert Positive(sizes) && sizes[1..] == [1];
        SkipsTheFault(b, rest, sizes);
        OneMoreByte(rest);
        assert Output(p, sizes) == b + [rest[0].value];
      }
    }
  }

  // ---------------------------------------------------------------- the archive as a list of members

  /** A member as recorded: its announced size, and the bytes that were really read for it. */
  datatype Member = Member(entry: Entry, data: seq<byte>)

  predicate Recordable(m: Member) {
    var e := m.entry;
    && Text(e.name) && e.meta.mode < 0x20_0000 && e.meta.mtime <= MAX_SIZE && |m.data| <= e.size
    && Header(e.name, e.kind, e.size, e.meta).Some?
  }

  /** The file did not shrink while it was archived. */
  predicate Intact(m: Member) { |m.data| == m.entry.size }

  function MemberBytes(m: Member): seq<byte>
    requires Recordable(m)
  {
    var e := m.entry;
    Header(e.name, e.kind, e.size, e.meta).value + m.data + (if Intact(m) then Zeros(Padding(e.size)) else [])
  }

  predicate AllRecordable(ms: seq<Member>) { forall i :: 0 <= i < |ms| ==> Recordable(ms[i]) }

  predicate AllIntact(ms: seq<Member>) { forall i :: 0 <= i < |ms| ==> Intact(ms[i]) }

  function MembersBytes(ms: seq<Member>): seq<byte>
    requires AllRecordable(ms)
  {
    if ms == [] then [] else MemberBytes(ms[0]) + MembersBytes(ms[1..])
  }

  function Archive(ms: seq<Member>): seq<byte>
    requires AllRecordable(ms)
  {
    MembersBytes(ms) + Zeros(2 * BLOCK)
  }

  predicate AtEnd(a: seq<byte>) { |a| >= 2 * BLOCK && a[..2 * BLOCK] == Zeros(2 * BLOCK) }

  function NextHeader(a: seq<byte>): Option<Entry>
    requires |a| >= BLOCK
  {
    ParseHeader(a[..BLOCK])
  }

  /** A reader: headers, announced bytes, padding, and two zero blocks at the end. */
  function Parse(a: seq<byte>): Option<seq<Member>>
    decreases |a|
  {
    if |a| < 2 * BLOCK then None
    else if AtEnd(a) then Some([])
    else
      var h := NextHeader(a);
      if h == None then None
      else
        var end := BLOCK + h.value.size;
        var next := end + Padding(h.value.size);
        if |a| < next then None
        else
          var rest := Parse(a[next..]);
          if rest == None then None else Some([Member(h.value, a[BLOCK..end])] + rest.value)
  }

  lemma HeaderNotZero(name: seq<byte>, kind: byte, size: nat, meta: Meta, a: seq<byte>)
    requires Header(name, kind, size, meta).Some? && Header(name, kind, size, meta).value <= a && |a| >= 2 * BLOCK
    ensures a[..2 * BLOCK] != Zeros(2 * BLOCK)
  {
    SplitIsLossless(name);
    var n := Split(name).value;
    var back := Back(kind, n.prefix);
    var h := Header(name, kind, size, meta).value;
    ChecksumHolds(Front(n.name, meta.mode, size, meta.mtime), back);
    BackFields(kind, n.prefix, h);
    hide Front, Back, Assemble, Header, Split, ChecksumOk;
    assert h[257] == h[257..265][0] == 117;
    assert a[..2 * BLOCK][257] == h[257];
  }

  /** One turn of the reader. */
  lemma ParseOne(a: seq<byte>, e: Entry)
    requires |a| >= 2 * BLOCK && !AtEnd(a) && NextHeader(a) == Some(e)
    ensures var next := BLOCK + e.size + Padding(e.size);
      Parse(a) == if |a| < next || Parse(a[next..]) == None then None
                  else Some([Member(e, a[BLOCK..BLOCK + e.size])] + Parse(a[next..]).value)
  {
    hide AtEnd, NextHeader, Padding;
  }

  /** One member at the front of an archive is read back if and only if it is intact. */
  lemma {:induction false} ParseStep(m: Member, rest: seq<byte>)
    requires Recordable(m) && |rest| >= 2 * BLOCK
    ensures Intact(m) && Parse(rest).Some? ==> Parse(MemberBytes(m) + rest) == Some([m] + Parse(rest).value)
    ensures Intact(m) && Parse(rest).None? ==> Parse(MemberBytes(m) + rest) == None
    ensures !Intact(m) && Parse(MemberBytes(m) + rest).Some? ==>
      Parse(MemberBytes(m) + rest).value != [] && Parse(MemberBytes(m) + rest).value[0] != m
  {
    var e := m.entry;
    HeaderRoundTrip(e.name, e.kind, e.size, e.meta);
    var h := Header(e.name, e.kind, e.size, e.meta).value;
    var pad := if Intact(m) then Zeros(Padding(e.size)) else [];
    var a := MemberBytes(m) + rest;
    var tail := m.data + pad + rest;
    hide Header, ParseHeader, Text, Parse, Padding, Zeros;
    assert MemberBytes(m) == h + m.data + pad;
    Regroup(h, m.data, pad, rest);
    hide MemberBytes;
    HeaderNotZero(e.name, e.kind, e.size, e.meta, a);
    assert a[..BLOCK] == h;
    ParseOne(a, e);
    if Intact(m) { Slices(h, m.data, pad, rest); }
  }

  lemma Regroup(a: seq<byte>, b: seq<byte>, c: seq<byte>, d: seq<byte>)
    ensures a + b + c + d == a + (b + c + d)
  {
  }

  lemma Slices(h: seq<byte>, data: seq<byte>, pad: seq<byte>, rest: seq<byte>)
    ensures var a := h + (data + pad + rest);
      && a[|h|..|h| + |data|] == data && a[|h| + |data| + |pad|..] == rest && |a| >= |h| + |data| + |pad|
  {
  }

  /** Reading the archive back yields exactly the members, if and only if no file shrank while it was read. */
  lemma {:induction false} ArchiveRoundTrip(ms: seq<Member>)
    requires AllRecordable(ms)
    ensures Parse(Archive(ms)) == Some(ms) <==> AllIntact(ms)
  {
    if ms == [] {
      assert Zeros(2 * BLOCK)[..2 * BLOCK] == Zeros(2 * BLOCK);
      assert Archive(ms) == Zeros(2 * BLOCK);
    } else {
      ArchiveRoundTrip(ms[1..]);
      ArchiveStep(ms);
    }
  }

  /** One member more in front of an archive. */
  lemma {:induction false} ArchiveStep(ms: seq<Member>)
    requires AllRecordable(ms) && ms != [] && (Parse(Archive(ms[1..])) == Some(ms[1..]) <==> AllIntact(ms[1..]))
    ensures Parse(Archive(ms)) == Some(ms) <==> AllIntact(ms)
  {
    hide Parse, Recordable, MemberBytes, Archive, Intact, AllIntact;
    ArchivePush(ms);
    IntactPush(ms);
    ParseStep(ms[0], Archive(ms[1..]));
    assert ms == [ms[0]] + ms[1..];
  }

  lemma ArchivePush(ms: seq<Member>)
    requires AllRecordable(ms) && ms != []
    ensures Archive(ms) == MemberBytes(ms[0]) + Archive(ms[1..]) && |Archive(ms)| >= 2 * BLOCK
    ensures |Archive(ms[1..])| >= 2 * BLOCK
  {
    hide MemberBytes, Recordable;
    assert MembersBytes(ms) == MemberBytes(ms[0]) + MembersBytes(ms[1..]);
  }

  lemma IntactPush(ms: seq<Member>)
    requires ms != []
    ensures AllIntact(ms) <==> Intact(ms[0]) && AllIntact(ms[1..])
  {
    assert forall i :: 0 < i < |ms| ==> ms[i] == ms[1..][i - 1];
  }

  lemma PaddingAligns(size: nat)
    ensures (size + Padding(size)) % BLOCK == 0
  {
  }

  /** An archive of intact members is a whole number of blocks and ends in two zero blocks. */
  lemma {:induction false} ArchiveAligned(ms: seq<Member>)
    requires AllRecordable(ms) && AllIntact(ms)
    ensures |Archive(ms)| % BLOCK == 0 && |Archive(ms)| >= 2 * BLOCK
    ensures Archive(ms)[|Archive(ms)| - 2 * BLOCK..] == Zeros(2 * BLOCK)
  {
    hide MemberBytes, Recordable, Archive, Zeros, AllIntact, Intact;
    if ms == [] {
      EmptyArchive(ms);
    } else {
      IntactPush(ms);
      ArchiveAligned(ms[1..]);
      MemberAligned(ms[0]);
      ArchivePush(ms);
      SameEnd(MemberBytes(ms[0]), Archive(ms[1..]), 2 * BLOCK);
    }
  }

  lemma EmptyArchive(ms: seq<Member>)
    requires ms == []
    ensures AllRecordable(ms) && |Archive(ms)| == 2 * BLOCK
    ensures Archive(ms)[|Archive(ms)| - 2 * BLOCK..] == Zeros(2 * BLOCK)
  {
    assert Archive(ms) == Zeros(2 * BLOCK);
  }

  lemma SameEnd(a: seq<byte>, b: seq<byte>, n: nat)
    requires n <= |b|
    ensures (a + b)[|a + b| - n..] == b[|b| - n..]
  {
  }

  lemma PaddingLength(size: nat)
    ensures |Zeros(Padding(size))| == Padding(size)
  {
  }

  lemma MemberAligned(m: Member)
    requires Recordable(m) && Intact(m)
    ensures |MemberBytes(m)| % BLOCK == 0
  {
    hide Padding, Header, Zeros;
    PaddingAligns(m.entry.size);
    PaddingLength(m.entry.size);
    assert |MemberBytes(m)| == BLOCK + (m.entry.size + Padding(m.entry.size));
  }

  // ---------------------------------------------------------------- from trees to members

  /** The members of a tree in the order of the stream. */
  function Members(n: Node, name: seq<byte>): seq<Member>
    decreases n, 1
  {
    match n
    case File(_, size, data, meta, _) =>
      [Member(Entry(name, REGULAR, size, meta), if |data| >= size then data[..size] else data)]
    case Dir(_, children, meta) =>
      [Member(Entry(DirName(name), DIRECTORY, 0, meta), [])] + MembersOf(DirName(name), children)
    case Odd(_) => []
  }

  function MembersOf(dir: seq<byte>, cs: seq<Node>): seq<Member>
    decreases cs, 0
  {
    if cs == [] then [] else Members(cs[0], dir + cs[0].name) + MembersOf(dir, cs[1..])
  }

  /** Every entry can be opened. */
  predicate Openable(n: Node)
    decreases n, 1
  {
    match n
    case File(_, _, _, _, opens) => opens
    case Dir(_, children, _) => AllOpenable(children)
    case Odd(_) => false
  }

  predicate AllOpenable(cs: seq<Node>)
    decreases cs, 0
  {
    cs == [] || (Openable(cs[0]) && AllOpenable(cs[1..]))
  }

  lemma {:induction false} MembersConcat(ms: seq<Member>, ns: seq<Member>)
    requires AllRecordable(ms + ns)
    ensures AllRecordable(ms) && AllRecordable(ns) && MembersBytes(ms + ns) == MembersBytes(ms) + MembersBytes(ns)
  {
    hide Recordable, MemberBytes;
    forall i | 0 <= i < |ms| ensures Recordable(ms[i]) { assert (ms + ns)[i] == ms[i]; }
    forall i | 0 <= i < |ns| ensures Recordable(ns[i]) { assert (ms + ns)[|ms| + i] == ns[i]; }
    if ms == [] {
      assert ms + ns == ns;
    } else {
      assert (ms + ns)[1..] == ms[1..] + ns;
      MembersConcat(ms[1..], ns);
    }
  }

  lemma {:induction false} FileBytes(n: Node, name: seq<byte>)
    requires n.File? && n.opens && AllRecordable(Members(n, name))
    ensures NodePlan(n, name) == Lift(MembersBytes(Members(n, name)))
  {
    var ms := Members(n, name);
    var m := ms[0];
    assert Recordable(m);
    var h := Header(name, REGULAR, n.size, n.meta);
    assert MembersBytes(ms) == MemberBytes(m) + MembersBytes([]) == MemberBytes(m);
    assert Content(n.data, n.size, Padding(n.size)) == m.data + (if Intact(m) then Zeros(Padding(n.size)) else []);
    assert MemberBytes(m) == h.value + Content(n.data, n.size, Padding(n.size));
    LiftAppend(h.value, Content(n.data, n.size, Padding(n.size)));
  }

  lemma {:induction false} NodeBytes(n: Node, name: seq<byte>)
    requires Openable(n) && AllRecordable(Members(n, name))
    ensures NodePlan(n, name) == Lift(MembersBytes(Members(n, name)))
    decreases n, 1
  {
    if n.File? {
      FileBytes(n, name);
    } else {
      var dir := DirName(name);
      var m := Member(Entry(dir, DIRECTORY, 0, n.meta), []);
      var rest := MembersOf(dir, n.children);
      assert Members(n, name) == [m] + rest;
      MembersConcat([m], rest);
      ChildrenBytes(dir, n.children);
      assert [m][0] == m && Recordable(m);
      var h := Header(dir, DIRECTORY, 0, n.meta);
      assert MembersBytes([m]) == MemberBytes(m) + MembersBytes([]) == h.value;
      LiftAppend(h.value, MembersBytes(rest));
    }
  }

  lemma {:induction false} ChildrenBytes(dir: seq<byte>, cs: seq<Node>)
    requires AllOpenable(cs) && AllRecordable(MembersOf(dir, cs))
    ensures Children(dir, cs) == Lift(MembersBytes(MembersOf(dir, cs)))
    decreases cs, 0
  {
    if cs != [] {
      var first, rest := Members(cs[0], dir + cs[0].name), MembersOf(dir, cs[1..]);
      MembersConcat(first, rest);
      NodeBytes(cs[0], dir + cs[0].name);
      ChildrenBytes(dir, cs[1..]);
      LiftAppend(MembersBytes(first), MembersBytes(rest));
    }
  }

  /**
   * A selection whose entries can all be recorded is delivered, for every sequence of buffer sizes that asks
   * for enough, as one archive; a reader recovers every entry and its bytes exactly when no file shrank.
   */
  lemma SelectionRecovered(paths: seq<Node>, sizes: seq<nat>)
    requires AllOpenable(paths) && AllRecordable(MembersOf([], paths)) && Positive(sizes)
    requires Total(sizes) >= |Plan(paths)|
    ensures Output(Plan(paths), sizes) == Archive(MembersOf([], paths))
    ensures Parse(Output(Plan(paths), sizes)) == Some(MembersOf([], paths)) <==> AllIntact(MembersOf([], paths))
  {
    var ms := MembersOf([], paths);
    ChildrenBytes([], paths);
    LiftAppend(MembersBytes(ms), Zeros(2 * BLOCK));
    assert Plan(paths) == Lift(Archive(ms));
    BufferSizesDoNotMatter(Archive(ms), sizes);
    ArchiveRoundTrip(ms);
  }

  // ---------------------------------------------------------------- an entry in the middle that fails

  lemma {:induction false} ChildrenAppend(dir: seq<byte>, cs: seq<Node>, ds: seq<Node>)
    ensures Children(dir, cs + ds) == Children(dir, cs) + Children(dir, ds)
    ensures MembersOf(dir, cs + ds) == MembersOf(dir, cs) + MembersOf(dir, ds)
  {
    hide NodePlan, Members;
    if cs == [] {
      assert cs + ds == ds;
    } else {
      assert (cs + ds)[1..] == cs[1..] + ds;
      ChildrenAppend(dir, cs[1..], ds);
    }
  }

  /** The stream of a selection with one entry in the middle that cannot be archived. */
  lemma {:induction false} PlanWithout(ps: seq<Node>, bad: Node, qs: seq<Node>)
    requires AllOpenable(ps) && AllOpenable(qs) && bad.Odd? && AllRecordable(MembersOf([], ps + qs))
    ensures MembersOf([], ps + qs) == MembersOf([], ps) + MembersOf([], qs)
    ensures AllRecordable(MembersOf([], ps)) && AllRecordable(MembersOf([], qs))
    ensures Plan(ps + [bad] + qs)
      == Lift(MembersBytes(MembersOf([], ps))) + [None] + Lift(Archive(MembersOf([], qs)))
    ensures Archive(MembersOf([], ps + qs)) == MembersBytes(MembersOf([], ps)) + Archive(MembersOf([], qs))
  {
    hide Children, MembersOf, MembersBytes, Archive, Recordable, Lift, Plan;
    var ms, ns := MembersOf([], ps), MembersOf([], qs);
    ChildrenAppend([], ps, qs);
    MembersConcat(ms, ns);
    ArchiveOfBoth(ms, ns);
    ChildrenAppend([], ps + [bad], qs);
    ChildrenAppend([], ps, [bad]);
    OddChild(bad);
    ChildrenBytes([], ps);
    ChildrenBytes([], qs);
    PlanOf(ps + [bad] + qs);
    LiftAppend(MembersBytes(ns), Zeros(2 * BLOCK));
    ArchiveOf(ns);
    LastTwo(Lift(MembersBytes(ms)) + [None], Lift(MembersBytes(ns)), Lift(Zeros(2 * BLOCK)));
  }

  lemma OddChild(bad: Node)
    requires bad.Odd?
    ensures Children([], [bad]) == [None]
  {
    assert [bad][1..] == [];
  }

  lemma PlanOf(ps: seq<Node>)
    ensures Plan(ps) == Children([], ps) + Lift(Zeros(2 * BLOCK))
  {
  }

  lemma ArchiveOf(ms: seq<Member>)
    requires AllRecordable(ms)
    ensures Archive(ms) == MembersBytes(ms) + Zeros(2 * BLOCK)
  {
  }

  lemma ArchiveOfBoth(ms: seq<Member>, ns: seq<Member>)
    requires AllRecordable(ms + ns) && AllRecordable(ms) && AllRecordable(ns)
    requires MembersBytes(ms + ns) == MembersBytes(ms) + MembersBytes(ns)
    ensures Archive(ms + ns) == MembersBytes(ms) + Archive(ns)
  {
    hide MembersBytes, Recordable;
  }

  lemma LastTwo<T>(a: seq<T>, b: seq<T>, c: seq<T>)
    ensures a + b + c == a + (b + c)
  {
  }

  lemma SomethingFirst(ps: seq<Node>)
    requires ps != [] && AllOpenable(ps) && AllRecordable(MembersOf([], ps))
    ensures MembersBytes(MembersOf([], ps)) != []
  {
    var first := Members(ps[0], [] + ps[0].name);
    assert MembersOf([], ps) == first + MembersOf([], ps[1..]);
    MembersConcat(first, MembersOf([], ps[1..]));
    assert first != [] && |MemberBytes(first[0])| >= BLOCK;
  }

  /**
   * A selection with one entry in the middle that cannot be archived is delivered as the complete archive of the
   * others, which a reader accepts, exactly when a buffer reaches past that entry and later ones ask for enough;
   * otherwise the client is left with a beginning of what comes before the entry, or of that archive.
   */
  lemma EntryDisappears(ps: seq<Node>, bad: Node, qs: seq<Node>, sizes: seq<nat>)
    requires ps != [] && AllOpenable(ps) && AllOpenable(qs) && bad.Odd? && AllRecordable(MembersOf([], ps + qs))
    requires Positive(sizes)
    ensures AllRecordable(MembersOf([], ps)) && AllRecordable(MembersOf([], qs))
    ensures var more := After(sizes, |MembersBytes(MembersOf([], ps))|);
      Output(Plan(ps + [bad] + qs), sizes) == Archive(MembersOf([], ps + qs))
      <==> more.Some? && Total(more.value) >= |Archive(MembersOf([], qs))|
    ensures Output(Plan(ps + [bad] + qs), sizes) <= Archive(MembersOf([], ps + qs))
    ensures Output(Plan(ps + [bad] + qs), sizes) == Archive(MembersOf([], ps + qs)) && AllIntact(MembersOf([], ps + qs))
      ==> Parse(Output(Plan(ps + [bad] + qs), sizes)) == Some(MembersOf([], ps + qs))
  {
    hide Plan, Parse, Output, Lift, MembersBytes, Archive, MembersOf, Members, Recordable, Total, After;
    PlanWithout(ps, bad, qs);
    SomethingFirst(ps);
    var b, r := MembersBytes(MembersOf([], ps)), Archive(MembersOf([], qs));
    SkipsTheFault(b, Lift(r), sizes);
    var more := After(sizes, |b|);
    if more.Some? {
      AfterPositive(sizes, |b|);
      BufferSizesDoNotMatter(r, more.value);
    }
    ArchiveRoundTrip(MembersOf([], ps + qs));
    assert r != [] by { ArchiveSome(MembersOf([], qs)); }
  }

  lemma {:induction false} AfterPositive(sizes: seq<nat>, n: nat)
    requires Positive(sizes) && After(sizes, n).Some?
    ensures Positive(After(sizes, n).value)
  {
    if sizes[0] < n { AfterPositive(sizes[1..], n - sizes[0]); }
  }

  lemma ArchiveSome(ms: seq<Member>)
    requires AllRecordable(ms)
    ensures |Archive(ms)| >= 2 * BLOCK
  {
    assert |Zeros(2 * BLOCK)| == 2 * BLOCK;
  }

  // ---------------------------------------------------------------- the smallest such selections

  const A_NAME: seq<byte> := [0x61]

  lemma SmallRecordable(size: nat, m: Member)
    requires m == Member(Entry(A_NAME, REGULAR, size, Meta(0, 0)), []) && size <= 1
    ensures Recordable(m)
  {
  }

  lemma OneMember(size: nat, m: Member)
    requires m == Member(Entry(A_NAME, REGULAR, size, Meta(0, 0)), []) && size <= 1
    ensures var ps := [File(A_NAME, size, [], Meta(0, 0), true)]; AllOpenable(ps) && MembersOf([], ps) == [m]
    ensures AllRecordable([m]) && |MembersBytes([m])| == BLOCK
  {
    var ps := [File(A_NAME, size, [], Meta(0, 0), true)];
    SmallRecordable(size, m);
    assert [] + A_NAME == A_NAME && ps[1..] == [] && [m][1..] == [];
    hide Recordable, Header;
    assert AllOpenable([]) && MembersOf([], []) == [] && Openable(ps[0]);
    assert AllOpenable(ps) && Members(ps[0], A_NAME) == [m];
    assert |MemberBytes(m)| == BLOCK;
  }

  lemma BeforeIs(b: seq<byte>, rest: seq<Symbol>)
    ensures Before(Lift(b) + [None] + rest) == b
  {
    var p := Lift(b) + [None] + rest;
    LeadIs(p, |p|, |b|);
    assert p[..|b|] == Lift(b);
  }

  /** An empty file followed by an entry that cannot be archived: a buffer of 513 bytes hides the failure. */
  lemma SmallestDisappearing(m: Member, bad: Node)
    requires m == Member(Entry(A_NAME, REGULAR, 0, Meta(0, 0)), []) && bad.Odd?
    ensures var p := Plan([File(A_NAME, 0, [], Meta(0, 0), true), bad]);
      Recordable(m) && Output(p, [513, 1024]) == Archive([m]) && !StopsAtFault(p)
  {
    var ps := [File(A_NAME, 0, [], Meta(0, 0), true)];
    hide Plan, Parse, Output, Lift, MembersBytes, Archive, MembersOf, Members, Before, AllOpenable, Recordable,
      Header;
    OneMember(0, m);
    assert ps + [] == ps && ps + [bad] + [] == [ps[0], bad];
    assert [513, 1024][1..] == [1024];
    PlanWithout(ps, bad, []);
    EntryDisappears(ps, bad, [], [513, 1024]);
    SmallRecordable(0, m);
    EmptyRest();
    BeforeIs(MembersBytes([m]), Lift(Archive([])));
    ArchiveSome([m]);
  }

  lemma EmptyRest()
    ensures MembersOf([], []) == [] && AllOpenable([]) && AllRecordable([]) && |Archive([])| == 2 * BLOCK
  {
  }

  /** A file that shrank from one byte to none: no way of reading the stream gives an archive that reads back. */
  lemma SmallestShrunk(m: Member, sizes: seq<nat>)
    requires m == Member(Entry(A_NAME, REGULAR, 1, Meta(0, 0)), [])
    requires Positive(sizes) && Total(sizes) >= |Plan([File(A_NAME, 1, [], Meta(0, 0), true)])|
    ensures Parse(Output(Plan([File(A_NAME, 1, [], Meta(0, 0), true)]), sizes)) != Some([m])
  {
    hide Plan, Parse, Output;
    OneMember(1, m);
    SelectionRecovered([File(A_NAME, 1, [], Meta(0, 0), true)], sizes);
    assert !Intact([m][0]);
  }

  // ---------------------------------------------------------------- the names in the archive

  /** Every directory entry ends in a slash. */
  lemma {:induction false} DirectoriesEndInSlash(dir: seq<byte>, cs: seq<Node>, i: nat)
    requires i < |MembersOf(dir, cs)| && MembersOf(dir, cs)[i].entry.kind == 0x35
    ensures var name := MembersOf(dir, cs)[i].entry.name; name != [] && name[|name| - 1] == 0x2F
    decreases cs, 0
  {
    var first := Members(cs[0], dir + cs[0].name);
    if i < |first| {
      DirectoryEndsInSlash(cs[0], dir + cs[0].name, i);
    } else {
      DirectoriesEndInSlash(dir, cs[1..], i - |first|);
    }
  }

  lemma {:induction false} DirectoryEndsInSlash(n: Node, name: seq<byte>, i: nat)
    requires i < |Members(n, name)| && Members(n, name)[i].entry.kind == 0x35
    ensures var name := Members(n, name)[i].entry.name; name != [] && name[|name| - 1] == 0x2F
    decreases n, 1
  {
    if n.Dir? && i > 0 { DirectoriesEndInSlash(DirName(name), n.children, i - 1); }
  }

  /** `path` leads, by positions among the children, from the selection to a node. */
  predicate Leads(cs: seq<Node>, path: seq<nat>)
    decreases |path|
  {
    && path != [] && path[0] < |cs|
    && (|path| > 1 ==> cs[path[0]].Dir? && Leads(cs[path[0]].children, path[1..]))
  }

  function Reached(cs: seq<Node>, path: seq<nat>): Node
    requires Leads(cs, path)
    decreases |path|
  {
    if |path| == 1 then cs[path[0]] else Reached(cs[path[0]].children, path[1..])
  }

  /** The names along a path, joined by slashes. */
  function Joined(cs: seq<Node>, path: seq<nat>): seq<byte>
    requires Leads(cs, path)
    decreases |path|
  {
    if |path| == 1 then cs[path[0]].name else cs[path[0]].name + [0x2F] + Joined(cs[path[0]].children, path[1..])
  }

  /** No name on the way is empty or ends in a slash. */
  predicate PlainNames(cs: seq<Node>, path: seq<nat>)
    requires Leads(cs, path)
    decreases |path|
  {
    var name := cs[path[0]].name;
    && name != [] && name[|name| - 1] != 0x2F
    && (|path| > 1 ==> PlainNames(cs[path[0]].children, path[1..]))
  }

  /** What the archive has to say about a file or a directory under this name. */
  predicate Describes(m: Member, n: Node, name: seq<byte>) {
    match n
    case File(_, size, data, meta, _) => m == Member(Entry(name, 0x30, size, meta), data[..Min(size, |data|)])
    case Dir(_, _, meta) => m == Member(Entry(name + [0x2F], 0x35, 0, meta), [])
    case Odd(_) => false
  }

  ghost predicate Has(ms: seq<Member>, n: Node, name: seq<byte>) {
    exists i :: 0 <= i < |ms| && Describes(ms[i], n, name)
  }

  lemma HasMore(a: seq<Member>, ms: seq<Member>, b: seq<Member>, n: Node, name: seq<byte>)
    requires Has(ms, n, name)
    ensures Has(a + ms + b, n, name)
  {
    var i :| 0 <= i < |ms| && Describes(ms[i], n, name);
    assert (a + ms + b)[|a| + i] == ms[i];
  }

  /** A node's own member. */
  lemma OwnMember(n: Node, name: seq<byte>)
    requires !n.Odd? && name != [] && name[|name| - 1] != 0x2F
    ensures Members(n, name) != [] && Describes(Members(n, name)[0], n, name)
    ensures n.Dir? ==> Members(n, name)[1..] == MembersOf(name + [0x2F], n.children)
  {
  }

  /** The members of one child lie together among those of its directory. */
  lemma {:induction false} ChildMembers(dir: seq<byte>, cs: seq<Node>, k: nat) returns (a: seq<Member>, b: seq<Member>)
    requires k < |cs|
    ensures MembersOf(dir, cs) == a + Members(cs[k], dir + cs[k].name) + b
    decreases k
  {
    hide Members;
    var first := Members(cs[0], dir + cs[0].name);
    if k == 0 {
      a, b := [], MembersOf(dir, cs[1..]);
    } else {
      a, b := ChildMembers(dir, cs[1..], k - 1);
      a := first + a;
    }
  }

  lemma AsOne(ms: seq<Member>, n: Node, name: seq<byte>)
    requires ms != [] && Describes(ms[0], n, name)
    ensures Has(ms, n, name)
  {
  }

  /** What a folder's members have, the folder's own ones have. */
  lemma Deeper(n: Node, name: seq<byte>, below: Node, full: seq<byte>)
    requires n.Dir? && name != [] && name[|name| - 1] != 0x2F
    requires Has(MembersOf(name + [0x2F], n.children), below, full)
    ensures Has(Members(n, name), below, full)
  {
    hide Members, MembersOf, Describes, Has;
    OwnMember(n, name);
    var own := Members(n, name);
    assert own == [own[0]] + MembersOf(name + [0x2F], n.children) + [];
    HasMore([own[0]], MembersOf(name + [0x2F], n.children), [], below, full);
  }

  /**
   * Every file and directory below the selection is in the archive, under the names on the way to it joined by
   * slashes, a directory with one more at its end.
   */
  lemma {:induction false} EveryNodeNamed(dir: seq<byte>, cs: seq<Node>, path: seq<nat>)
    requires Leads(cs, path) && PlainNames(cs, path) && !Reached(cs, path).Odd?
    ensures Has(MembersOf(dir, cs), Reached(cs, path), dir + Joined(cs, path))
    decreases |path|
  {
    hide Members, MembersOf, Describes, Has;
    var n := cs[path[0]];
    var name := dir + n.name;
    var a, b := ChildMembers(dir, cs, path[0]);
    if |path| == 1 {
      OwnMember(n, name);
      AsOne(Members(n, name), n, name);
    } else {
      EveryNodeNamed(name + [0x2F], n.children, path[1..]);
      assert name + [0x2F] + Joined(n.children, path[1..]) == dir + Joined(cs, path);
      Deeper(n, name, Reached(cs, path), dir + Joined(cs, path));
    }
    HasMore(a, Members(n, name), b, Reached(cs, path), dir + Joined(cs, path));
  }

  /** Files and directories in a tree. */
  function Entries(n: Node): nat
    decreases n, 1
  {
    if n.Odd? then 0 else 1 + (if n.Dir? then EntriesOf(n.children) else 0)
  }

  function EntriesOf(cs: seq<Node>): nat
    decreases cs, 0
  {
    if cs == [] then 0 else Entries(cs[0]) + EntriesOf(cs[1..])
  }

  /** And nothing else is in it. */
  lemma {:induction false} NothingElse(dir: seq<byte>, cs: seq<Node>)
    ensures |MembersOf(dir, cs)| == EntriesOf(cs)
    decreases cs, 0
  {
    if cs != [] {
      NothingMore(cs[0], dir + cs[0].name);
      NothingElse(dir, cs[1..]);
    }
  }

  lemma {:induction false} NothingMore(n: Node, name: seq<byte>)
    ensures |Members(n, name)| == Entries(n)
    decreases n, 1
  {
    if n.Dir? { NothingElse(DirName(name), n.children); }
  }

  /**
   * What a client unpacks: from an intact selection read in any way to its end, a reader gets as many entries as
   * there are files and directories, and among them each of these under its path, with its bytes.
   */
  lemma SelectionUnpacked(paths: seq<Node>, sizes: seq<nat>, path: seq<nat>)
    requires AllOpenable(paths) && AllRecordable(MembersOf([], paths)) && AllIntact(MembersOf([], paths))
    requires Positive(sizes) && Total(sizes) >= |Plan(paths)|
    requires Leads(paths, path) && PlainNames(paths, path) && !Reached(paths, path).Odd?
    ensures var got := Parse(Output(Plan(paths), sizes));
      got.Some? && |got.value| == EntriesOf(paths) && Has(got.value, Reached(paths, path), Joined(paths, path))
  {
    hide Parse, Output, Plan, MembersOf, Has, Recordable, AllOpenable, Joined, Reached, PlainNames;
    SelectionRecovered(paths, sizes);
    EveryNodeNamed([], paths, path);
    NothingElse([], paths);
    assert [] + Joined(paths, path) == Joined(paths, path);
  }
}
