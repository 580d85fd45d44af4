/**
 * Exactly when a downloader may lose power: what a power loss can leave of the part, computed along the events
 * of a history, and the bytes of the remote content that decide whether recovery is fooled by it.
 */
module DownloadLoss {
  import opened Bytes
  import opened Disks
  import opened Download
  import opened DownloadPower

  /** One shape of what a loss leaves: at most `len` bytes, of which the first `kept` are surely downloaded ones;
      each byte behind them is the downloaded one or zero. */
  datatype Remnant = Remnant(len: nat, kept: nat)

  function Grown(zs: seq<Remnant>, size: nat): (r: seq<Remnant>)
    ensures |r| == |zs|
  {
    seq(|zs|, i requires 0 <= i < |zs| => Remnant(Max(zs[i].len, size), zs[i].kept))
  }

  predicate Clears(e: Event, t: State) { e.Answer? && t.pc == Cleared }

  /** A part that is created is empty, synchronizing makes all of it sure, and clearing it may or may not be
      durable by the time power is lost. */
  function StepRemnants(s: State, e: Event, t: State, zs: seq<Remnant>): seq<Remnant> {
    if t.part == None then []
    else if s.part == None then [Remnant(0, 0)]
    else if Synchronizes(s, e, t) then [Remnant(|t.part.value|, |t.part.value|)]
    else if Clears(e, t) then zs + [Remnant(0, 0)]
    else if e.Chunk? || e.WriteFails? then Grown(zs, |t.part.value|)
    else zs
  }

  /** What a loss may leave after the events of a history. */
  function Remnants(remote: seq<byte>, s: State, es: seq<Event>, zs: seq<Remnant>): seq<Remnant>
    requires Trace(remote, s, es).Some?
    decreases |es|
  {
    if es == [] then zs
    else
      var t := Apply(remote, s, es[0]);
      Remnants(remote, t, es[1..], StepRemnants(s, es[0], t, zs))
  }

  /** All of the part is durable. */
  function Whole(s: State): seq<Remnant> { if s.part.Some? then [Remnant(Size(s.part), Size(s.part))] else [] }

  /** Nothing is pending, as in the beginning and after recovering from a loss. */
  predicate Settled(remote: seq<byte>, d: Durable) { Inv(remote, d.s) && d.hard == d.s.part }

  // ---------------------------------------------------------------- histories with flushes anywhere

  function EventsIn(ps: seq<PowerEvent>): seq<Event> {
    if ps == [] then [] else (if ps[0].Of? then [ps[0].e] else []) + EventsIn(ps[1..])
  }

  ghost predicate Leads(remote: seq<byte>, d: Durable, ps: seq<PowerEvent>, d': Durable)
    decreases |ps|
  {
    if ps == [] then d' == d else exists m :: Step(remote, d, ps[0], m) && Leads(remote, m, ps[1..], d')
  }

  /** However the system flushes during these events, power may be lost after them. */
  ghost predicate SafeAfter(remote: seq<byte>, d: Durable, es: seq<Event>) {
    forall ps, d' :: PowerLoss !in ps && EventsIn(ps) == es && Leads(remote, d, ps, d') ==>
      SafeToLosePower(remote, d')
  }

  /** If recovery accepts this remnant, the bytes it is not sure of are zeros anyway. */
  predicate Harmless(remote: seq<byte>, t: State, z: Remnant) {
    t.dest == None && t.journal.Some? && t.journal.value.done <= z.len ==>
      ZeroBetween(remote, z.kept, t.journal.value.done)
  }

  predicate ZeroBetween(remote: seq<byte>, lo: nat, hi: nat) {
    forall p :: lo <= p < hi && p < |remote| ==> remote[p] == 0
  }

  // ---------------------------------------------------------------- every loss leaves one of the remnants

  predicate Fits(remote: seq<byte>, h: seq<byte>, z: Remnant) {
    && z.kept <= |h| <= z.len && |h| <= |remote|
    && forall p :: 0 <= p < |h| ==> h[p] == remote[p] || (p >= z.kept && h[p] == 0)
  }

  predicate Suits(remote: seq<byte>, s: State, zs: seq<Remnant>) {
    && (s.part.Some? <==> zs != [])
    && forall i :: 0 <= i < |zs| ==> zs[i].kept <= zs[i].len <= |remote| && Size(s.part) <= zs[i].len
  }

  ghost predicate FitsSome(remote: seq<byte>, h: seq<byte>, zs: seq<Remnant>) {
    exists i :: 0 <= i < |zs| && Fits(remote, h, zs[i])
  }

  ghost predicate LossInv(remote: seq<byte>, d: Durable, zs: seq<Remnant>) {
    && Inv(remote, d.s) && Suits(remote, d.s, zs) && (d.hard.Some? <==> d.s.part.Some?)
    && (d.hard.Some? ==> FitsSome(remote, d.hard.value, zs))
  }

  lemma TornFits(remote: seq<byte>, h: seq<byte>, at: nat, data: seq<byte>, h': seq<byte>, z: Remnant, z': Remnant)
    requires Fits(remote, h, z) && Torn(h, at, data, h') && at + |data| <= |remote|
    requires data == remote[at..at + |data|] && z'.kept == z.kept && z'.len >= Max(z.len, at + |data|)
    ensures Fits(remote, h', z')
  {
    forall p | 0 <= p < |h'| ensures h'[p] == remote[p] || (p >= z.kept && h'[p] == 0) {
      if at <= p < at + |data| { assert data[p - at] == remote[p]; }
    }
  }

  lemma SettledFits(remote: seq<byte>, s: State)
    requires Inv(remote, s)
    ensures LossInv(remote, Durable(s, s.part), Whole(s))
  {
    hide ReleasesPrefix;
    if s.part.Some? { assert Fits(remote, s.part.value, Whole(s)[0]); }
  }

  /** How an event changes the part. */
  lemma PartMoves(remote: seq<byte>, s: State, e: Event)
    requires Inv(remote, s) && Enabled(remote, s, e)
    ensures var t := Apply(remote, s, e); Size(t.part) <= |remote| && (t.part.Some? ==>
      if s.part == None then t.part == Some([])
      else if e.Chunk? || e.WriteFails? then |s.part.value| <= |t.part.value|
      else Synchronizes(s, e, t) || (if Clears(e, t) then t.part == Some([]) else t.part == s.part))
    ensures e.Chunk? || e.WriteFails? ==> s.part.Some?
  {
    StepPrefix(remote, s, e);
    hide ReleasesPrefix, Count;
  }

  lemma StepPrefix(remote: seq<byte>, s: State, e: Event)
    requires Inv(remote, s) && Enabled(remote, s, e)
    ensures PrefixOf(Apply(remote, s, e).part, remote)
  {
    StepInv(remote, s, e);
    hide Apply, Enabled;
  }

  lemma SuitsStep(remote: seq<byte>, s: State, e: Event, zs: seq<Remnant>)
    requires Inv(remote, s) && Suits(remote, s, zs) && Enabled(remote, s, e)
    ensures var t := Apply(remote, s, e); Inv(remote, t) && Suits(remote, t, StepRemnants(s, e, t, zs))
  {
    hide Inv, Enabled, Apply;
    StepInv(remote, s, e);
    PartMoves(remote, s, e);
  }

  /** An appending event: what is appended is the next piece of the remote content. */
  lemma AppendFits(remote: seq<byte>, d: Durable, e: Event, d': Durable, zs: seq<Remnant>)
    requires LossInv(remote, d, zs) && Step(remote, d, Of(e), d') && (e.Chunk? || e.WriteFails?)
    ensures d'.hard.Some? && FitsSome(remote, d'.hard.value, StepRemnants(d.s, e, d'.s, zs))
  {
    hide ReleasesPrefix, Count, Fits, Torn;
    var n := if e.Chunk? then e.n else e.written;
    var i :| 0 <= i < |zs| && Fits(remote, d.hard.value, zs[i]);
    var next := Grown(zs, |d'.s.part.value|);
    assert next[i].kept == zs[i].kept;
    var at := d.s.sent;
    TornFits(remote, d.hard.value, at, remote[at..at + n], d'.hard.value, zs[i], next[i]);
  }

  lemma OtherFits(remote: seq<byte>, d: Durable, e: Event, d': Durable, zs: seq<Remnant>)
    requires LossInv(remote, d, zs) && Step(remote, d, Of(e), d') && !e.Chunk? && !e.WriteFails?
    requires Inv(remote, d'.s)
    ensures d'.hard.Some? <==> d'.s.part.Some?
    ensures d'.hard.Some? ==> FitsSome(remote, d'.hard.value, StepRemnants(d.s, e, d'.s, zs))
  {
    hide ReleasesPrefix, Count, Torn, Fits;
    var next := StepRemnants(d.s, e, d'.s, zs);
    if d'.s.part.Some? {
      FitsItself(remote, d'.s);
      if d.s.part == None || Synchronizes(d.s, e, d'.s) {
        assert Fits(remote, d'.hard.value, next[0]);
      } else {
        var i :| 0 <= i < |zs| && Fits(remote, d.hard.value, zs[i]);
        if d'.hard == d.hard {
          assert next[i] == zs[i];
        } else {
          assert Clears(e, d'.s) && d'.hard == Some([]) && next[|zs|] == Remnant(0, 0);
        }
      }
    }
  }

  lemma FitsItself(remote: seq<byte>, s: State)
    requires Inv(remote, s) && s.part.Some?
    ensures Fits(remote, s.part.value, Remnant(|s.part.value|, |s.part.value|)) && Fits(remote, [], Remnant(0, 0))
  {
  }

  lemma {:induction false} LossStep(remote: seq<byte>, d: Durable, e: Event, d': Durable, zs: seq<Remnant>)
    requires LossInv(remote, d, zs) && Step(remote, d, Of(e), d')
    ensures LossInv(remote, d', StepRemnants(d.s, e, d'.s, zs))
  {
    SuitsStep(remote, d.s, e, zs);
    if e.Chunk? || e.WriteFails? { AppendFits(remote, d, e, d', zs); } else { OtherFits(remote, d, e, d', zs); }
    hide Inv, HardFollows, StepRemnants, FitsSome, Suits;
  }

  lemma FlushFits(remote: seq<byte>, d: Durable, d': Durable, zs: seq<Remnant>)
    requires LossInv(remote, d, zs) && Step(remote, d, Flush, d')
    ensures LossInv(remote, d', zs)
  {
    hide ReleasesPrefix, Fits, Torn;
    var i :| 0 <= i < |zs| && Fits(remote, d.hard.value, zs[i]);
    TornFits(remote, d.hard.value, 0, d.s.part.value, d'.hard.value, zs[i], zs[i]);
  }

  lemma {:induction false} LeadsFits(remote: seq<byte>, d: Durable, ps: seq<PowerEvent>, d': Durable, zs: seq<Remnant>)
    requires LossInv(remote, d, zs) && Leads(remote, d, ps, d') && PowerLoss !in ps
    ensures Trace(remote, d.s, EventsIn(ps)) == Some(d'.s)
    ensures LossInv(remote, d', Remnants(remote, d.s, EventsIn(ps), zs))
    decreases |ps|
  {
    hide LossInv, HardFollows, StepRemnants, Enabled, Apply, Torn;
    if ps != [] {
      var m :| Step(remote, d, ps[0], m) && Leads(remote, m, ps[1..], d');
      match ps[0]
      case Of(e) =>
        LossStep(remote, d, e, m, zs);
        LeadsFits(remote, m, ps[1..], d', StepRemnants(d.s, e, m.s, zs));
        assert EventsIn(ps)[1..] == EventsIn(ps[1..]);
      case Flush =>
        FlushFits(remote, d, m, zs);
        LeadsFits(remote, m, ps[1..], d', zs);
        assert EventsIn(ps) == EventsIn(ps[1..]);
      case PowerLoss =>
    }
  }

  lemma HarmlessHolds(remote: seq<byte>, d: Durable, h: seq<byte>, z: Remnant)
    requires d.hard == Some(h) && Fits(remote, h, z) && Harmless(remote, d.s, z) && d.s.dest == None
    ensures HoldsJournaled(remote, d.hard, d.s.journal)
  {
  }

  /** If every remnant is harmless, power may be lost. */
  lemma SafeHalf(remote: seq<byte>, d: Durable, zs: seq<Remnant>)
    requires LossInv(remote, d, zs) && forall i :: 0 <= i < |zs| ==> Harmless(remote, d.s, zs[i])
    ensures SafeToLosePower(remote, d)
  {
    hide Inv, Fits, Harmless, HoldsJournaled;
    if d.s.dest == None {
      if d.hard.Some? {
        var i :| 0 <= i < |zs| && Fits(remote, d.hard.value, zs[i]);
        HarmlessHolds(remote, d, d.hard.value, zs[i]);
      } else {
        NothingHolds(remote, d);
      }
      LossDecided(remote, d);
    } else {
      PublishedStays(remote, d);
    }
  }

  lemma NothingHolds(remote: seq<byte>, d: Durable)
    requires d.hard == None
    ensures HoldsJournaled(remote, d.hard, d.s.journal)
  {
  }

  /** With a file under the final name nothing is recovered. */
  lemma PublishedStays(remote: seq<byte>, d: Durable)
    requires d.s.dest != None
    ensures SafeToLosePower(remote, d)
  {
  }

  // ---------------------------------------------------------------- every remnant is left by some run

  /** The sure bytes, and zeros as far as the remnant may reach. */
  function Worst(remote: seq<byte>, z: Remnant): seq<byte>
    requires z.kept <= z.len <= |remote|
  {
    remote[..z.kept] + Zeros(z.len - z.kept)
  }

  predicate Left(remote: seq<byte>, zs: seq<Remnant>, hard: Option<seq<byte>>, i: nat)
    requires forall j :: 0 <= j < |zs| ==> zs[j].kept <= zs[j].len <= |remote|
  {
    if zs == [] then hard == None else i < |zs| && hard == Some(Worst(remote, zs[i]))
  }

  lemma PrefixIsWorst(remote: seq<byte>, p: seq<byte>)
    requires p <= remote
    ensures Worst(remote, Remnant(|p|, |p|)) == p
  {
  }

  lemma ZerosReach(remote: seq<byte>, z: Remnant, at: nat, n: nat)
    requires z.kept <= z.len <= |remote| && at <= z.len && at + n <= |remote|
    ensures Torn(Worst(remote, z), at, remote[at..at + n], Worst(remote, Remnant(Max(z.len, at + n), z.kept)))
  {
  }

  lemma WorstAppend(remote: seq<byte>, s: State, e: Event, z: Remnant)
    requires Inv(remote, s) && Enabled(remote, s, e) && (e.Chunk? || e.WriteFails?)
    requires z.kept <= z.len <= |remote| && Size(s.part) <= z.len
    ensures var t := Apply(remote, s, e);
      && t.part.Some? && |t.part.value| <= |remote|
      && HardFollows(remote, s, Some(Worst(remote, z)), e, t,
           Some(Worst(remote, Remnant(Max(z.len, |t.part.value|), z.kept))))
  {
    StepInv(remote, s, e);
    hide ReleasesPrefix, Count, Torn, Worst;
    ZerosReach(remote, z, s.sent, if e.Chunk? then e.n else e.written);
  }

  /** An event that appends nothing: the worst case stays, or is what the event makes durable. */
  lemma WorstOther(remote: seq<byte>, s: State, e: Event, hard: Option<seq<byte>>)
    requires Inv(remote, s) && Enabled(remote, s, e) && !e.Chunk? && !e.WriteFails?
    requires hard.Some? <==> s.part.Some?
    ensures var t := Apply(remote, s, e);
      HardFollows(remote, s, hard, e, t,
        if t.part == None then None else if s.part == None then Some([])
        else if Synchronizes(s, e, t) then t.part else hard)
    ensures var t := Apply(remote, s, e); Clears(e, t) ==> HardFollows(remote, s, hard, e, t, Some([]))
  {
    hide ReleasesPrefix, Count;
  }

  lemma WorstGone(remote: seq<byte>, s: State, e: Event, hard: Option<seq<byte>>)
    requires Enabled(remote, s, e) && Apply(remote, s, e).part == None
    ensures HardFollows(remote, s, hard, e, Apply(remote, s, e), None)
  {
    hide Apply;
  }

  /** Each remnant after an event comes from one before it, the system writing nothing but the file's length. */
  lemma {:induction false} WorstStep(remote: seq<byte>, s: State, e: Event, zs: seq<Remnant>, i: nat)
    returns (j: nat, hard: Option<seq<byte>>, hard': Option<seq<byte>>)
    requires Inv(remote, s) && Suits(remote, s, zs) && Enabled(remote, s, e)
    requires Suits(remote, Apply(remote, s, e), StepRemnants(s, e, Apply(remote, s, e), zs))
    requires var next := StepRemnants(s, e, Apply(remote, s, e), zs); next != [] ==> i < |next|
    ensures var t := Apply(remote, s, e);
      && Left(remote, zs, hard, j) && Left(remote, StepRemnants(s, e, t, zs), hard', i)
      && HardFollows(remote, s, hard, e, t, hard')
  {
    var t := Apply(remote, s, e);
    var next := StepRemnants(s, e, t, zs);
    hide Inv, Worst, HardFollows, Enabled, Apply;
    PartMoves(remote, s, e);
    j := if i < |zs| && !Synchronizes(s, e, t) then i else 0;
    hard := if zs == [] then None else Some(Worst(remote, zs[j]));
    hard' := if next == [] then None else Some(Worst(remote, next[i]));
    if t.part == None {
      WorstGone(remote, s, e, hard);
    } else if e.Chunk? || e.WriteFails? {
      WorstAppend(remote, s, e, zs[i]);
    } else {
      WorstOther(remote, s, e, hard);
      StepPrefix(remote, s, e);
      PrefixIsWorst(remote, []);
      PrefixIsWorst(remote, t.part.value);
    }
  }

  function Plain(es: seq<Event>): (ps: seq<PowerEvent>)
    ensures |ps| == |es| && EventsIn(ps) == es && PowerLoss !in ps
  {
    if es == [] then [] else
      var ps := [Of(es[0])] + Plain(es[1..]);
      assert ps[1..] == Plain(es[1..]);
      ps
  }

  /** Each remnant of a history is left, at worst, by a run in which the system never flushes. */
  lemma {:induction false} WorstRun(remote: seq<byte>, s: State, es: seq<Event>, zs: seq<Remnant>, i: nat)
    returns (j: nat, hard: Option<seq<byte>>, d': Durable)
    requires Inv(remote, s) && Suits(remote, s, zs) && Trace(remote, s, es).Some?
    requires var last := Remnants(remote, s, es, zs); last != [] ==> i < |last|
    ensures Left(remote, zs, hard, j) && Leads(remote, Durable(s, hard), Plain(es), d')
    ensures d'.s == Trace(remote, s, es).value && Suits(remote, d'.s, Remnants(remote, s, es, zs))
    ensures Left(remote, Remnants(remote, s, es, zs), d'.hard, i)
    decreases |es|
  {
    hide Inv, Worst, HardFollows, Enabled, Apply, StepRemnants;
    if es == [] {
      j, hard := i, if zs == [] then None else Some(Worst(remote, zs[i]));
      d' := Durable(s, hard);
    } else {
      var t := Apply(remote, s, es[0]);
      var next := StepRemnants(s, es[0], t, zs);
      SuitsStep(remote, s, es[0], zs);
      var k, mid;
      k, mid, d' := WorstRun(remote, t, es[1..], next, i);
      var mid';
      j, hard, mid' := WorstStep(remote, s, es[0], zs, k);
      assert mid' == mid;
      assert Step(remote, Durable(s, hard), Of(es[0]), Durable(t, mid));
      assert Plain(es)[0] == Of(es[0]) && Plain(es)[1..] == Plain(es[1..]);
    }
  }

  lemma WorstFails(remote: seq<byte>, d: Durable, z: Remnant)
    requires z.kept <= z.len <= |remote| && d.hard == Some(Worst(remote, z)) && !Harmless(remote, d.s, z)
    ensures !SafeToLosePower(remote, d)
  {
    var n := d.s.journal.value.done;
    var p :| z.kept <= p < n && p < |remote| && remote[p] != 0;
    assert d.hard.value[..n][p] == 0;
    LossDecided(remote, d);
  }

  /** One remnant that is not harmless is enough to make losing power unsafe. */
  lemma UnsafeHalf(remote: seq<byte>, d: Durable, es: seq<Event>, i: nat)
    requires Settled(remote, d) && Trace(remote, d.s, es).Some?
    requires var zs := Remnants(remote, d.s, es, Whole(d.s));
      i < |zs| && !Harmless(remote, Trace(remote, d.s, es).value, zs[i])
    ensures !SafeAfter(remote, d, es)
  {
    hide Inv, Suits, Harmless, SafeToLosePower, Step, Worst, StepRemnants, Fits;
    var zs := Remnants(remote, d.s, es, Whole(d.s));
    SettledFits(remote, d.s);
    var j, hard, d' := WorstRun(remote, d.s, es, Whole(d.s), i);
    WholeIsWorst(remote, d.s, hard, j);
    SuitsWide(remote, d'.s, zs, i);
    WorstFails(remote, d', zs[i]);
    assert Leads(remote, d, Plain(es), d');
  }

  // ---------------------------------------------------------------- the exact condition

  /**
   * After any history without an earlier loss, and whatever the system flushed meanwhile: power may be lost if and
   * only if for each remnant that recovery would accept, the remote content is zero from the sure bytes up to the
   * journaled offset. Remnants, journal and destination follow from the events alone.
   */
  lemma LossSafeExactly(remote: seq<byte>, d: Durable, es: seq<Event>)
    requires Settled(remote, d) && Trace(remote, d.s, es).Some?
    ensures SafeAfter(remote, d, es) <==>
      (var t, zs := Trace(remote, d.s, es).value, Remnants(remote, d.s, es, Whole(d.s));
       forall i :: 0 <= i < |zs| ==> Harmless(remote, t, zs[i]))
  {
    hide Inv, Suits, Harmless, SafeToLosePower, Step, Worst, StepRemnants, Fits;
    var t, zs := Trace(remote, d.s, es).value, Remnants(remote, d.s, es, Whole(d.s));
    SettledFits(remote, d.s);
    if i: nat :| i < |zs| && !Harmless(remote, t, zs[i]) {
      UnsafeHalf(remote, d, es, i);
    } else {
      forall ps, d' | PowerLoss !in ps && EventsIn(ps) == es && Leads(remote, d, ps, d')
        ensures SafeToLosePower(remote, d')
      {
        LeadsFits(remote, d, ps, d', Whole(d.s));
        SafeHalf(remote, d', zs);
      }
    }
  }

  lemma SuitsWide(remote: seq<byte>, s: State, zs: seq<Remnant>, i: nat)
    requires Suits(remote, s, zs) && i < |zs|
    ensures zs[i].kept <= zs[i].len <= |remote|
  {
  }

  lemma WholeIsWorst(remote: seq<byte>, s: State, hard: Option<seq<byte>>, j: nat)
    requires Inv(remote, s) && Suits(remote, s, Whole(s)) && Left(remote, Whole(s), hard, j)
    ensures hard == s.part
  {
    hide ReleasesPrefix, InStep;
    if s.part.Some? { PrefixIsWorst(remote, s.part.value); }
  }

  // ---------------------------------------------------------------- in terms of the synchronized length

  function StepSynced(s: State, e: Event, t: State, n: nat): nat {
    if s.part == None || t.part == None then 0
    else if Synchronizes(s, e, t) then |t.part.value|
    else if Clears(e, t) then 0
    else n
  }

  /** The length of the part when it was last synchronized; 0 once it is created, lost or cleared. */
  function Synced(remote: seq<byte>, s: State, es: seq<Event>, n: nat): nat
    requires Trace(remote, s, es).Some?
    decreases |es|
  {
    if es == [] then n
    else
      var t := Apply(remote, s, es[0]);
      Synced(remote, t, es[1..], StepSynced(s, es[0], t, n))
  }

  /** The last remnant is the part itself, sure up to the synchronized length; no other one is less sure. */
  predicate Least(s: State, zs: seq<Remnant>, n: nat) {
    s.part.Some? ==>
      && zs != [] && zs[|zs| - 1] == Remnant(|s.part.value|, n)
      && forall i :: 0 <= i < |zs| ==> zs[i].kept >= n
  }

  lemma LeastStep(remote: seq<byte>, s: State, e: Event, zs: seq<Remnant>, n: nat)
    requires Inv(remote, s) && Suits(remote, s, zs) && Enabled(remote, s, e) && Least(s, zs, n)
    ensures var t := Apply(remote, s, e); Least(t, StepRemnants(s, e, t, zs), StepSynced(s, e, t, n))
  {
    hide Inv, Enabled, Apply;
    PartMoves(remote, s, e);
  }

  lemma {:induction false} LeastAlways(remote: seq<byte>, s: State, es: seq<Event>, zs: seq<Remnant>, n: nat)
    requires Inv(remote, s) && Suits(remote, s, zs) && Trace(remote, s, es).Some? && Least(s, zs, n)
    ensures Least(Trace(remote, s, es).value, Remnants(remote, s, es, zs), Synced(remote, s, es, n))
    decreases |es|
  {
    hide Inv, Suits, Enabled, Apply, StepRemnants, StepSynced, Least;
    if es != [] {
      var t := Apply(remote, s, es[0]);
      SuitsStep(remote, s, es[0], zs);
      LeastStep(remote, s, es[0], zs, n);
      LeastAlways(remote, t, es[1..], StepRemnants(s, es[0], t, zs), StepSynced(s, es[0], t, n));
    }
  }

  /**
   * While the journal does not count more than the part has: power may be lost if and only if every byte of the
   * remote content between the synchronized length and the journaled offset is zero.
   */
  lemma SyncedDecides(remote: seq<byte>, d: Durable, es: seq<Event>)
    requires Settled(remote, d) && Trace(remote, d.s, es).Some?
    requires var t := Trace(remote, d.s, es).value;
      t.dest == None && t.part.Some? && t.journal.Some? && t.journal.value.done <= |t.part.value|
    ensures SafeAfter(remote, d, es) <==>
      ZeroBetween(remote, Synced(remote, d.s, es, Size(d.s.part)), Trace(remote, d.s, es).value.journal.value.done)
  {
    hide Inv, Suits, SafeAfter, StepRemnants, StepSynced, Fits;
    SettledFits(remote, d.s);
    LossSafeExactly(remote, d, es);
    LeastAlways(remote, d.s, es, Whole(d.s), Size(d.s.part));
    var zs := Remnants(remote, d.s, es, Whole(d.s));
    assert Harmless(remote, Trace(remote, d.s, es).value, zs[|zs| - 1]) ==>
      ZeroBetween(remote, zs[|zs| - 1].kept, Trace(remote, d.s, es).value.journal.value.done);
  }

  /** After a harmless loss and the recovery from it, everything is durable again, and the results apply anew. */
  lemma RecoveredIsSettled(remote: seq<byte>, d: Durable, down: Durable, up: Durable)
    requires Inv(remote, d.s) && SafeToLosePower(remote, d)
    requires Step(remote, d, PowerLoss, down) && Step(remote, down, Of(Recover), up)
    ensures Settled(remote, up)
  {
    hide ReleasesPrefix;
  }
}
