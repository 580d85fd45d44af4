/**
 * Files across a crash. `now` is what the running program reads back; `hard` is what would be
 * found after a crash at this instant. Each write reaches `hard` in an arbitrary part, and only a
 * synchronization makes the two equal.
 */
module Disks {
  import opened Bytes

  datatype Disk = Disk(now: seq<byte>, hard: seq<byte>)

  /** `h'` is `h` with any part of the write of `d` at `at` applied. */
  ghost predicate Torn(h: seq<byte>, at: nat, d: seq<byte>, h': seq<byte>) {
    && |h| <= |h'| <= Max(|h|, at + |d|)
    && forall p :: 0 <= p < |h'| ==>
         || (p < |h| && h'[p] == h[p])
         || (at <= p < at + |d| && h'[p] == d[p - at])
         || (p >= |h| && h'[p] == 0)
  }

  ghost predicate Wrote(s: Disk, at: nat, d: seq<byte>, t: Disk) {
    t.now == Put(s.now, at, d) && Torn(s.hard, at, d, t.hard)
  }

  ghost predicate Cut(s: Disk, n: nat, t: Disk) {
    t.now == Resize(s.now, n) && (t.hard == s.hard || t.hard == Resize(s.hard, n))
  }

  function Synced(s: Disk): Disk { Disk(s.now, s.now) }

  function Crashed(s: Disk): Disk { Disk(s.hard, s.hard) }

  /** `f` has the bytes of `t` at every position in `r`. */
  ghost predicate Agrees(f: seq<byte>, t: seq<byte>, r: iset<nat>) {
    forall p :: p in r && p < |t| ==> p < |f| && f[p] == t[p]
  }

  predicate Within(p: nat, lo: nat, hi: nat) { lo <= p < hi }

  ghost function Span(lo: nat, hi: nat): iset<nat> { iset p: nat | Within(p, lo, hi) }

  predicate InSome(p: nat, e: seq<(nat, nat)>, i: nat, j: nat)
    requires j <= |e|
  {
    exists k :: i <= k < j && Within(p, e[k].0, e[k].1)
  }

  /** Positions in extents `i..j`. */
  ghost function Extents(e: seq<(nat, nat)>, i: nat, j: nat): iset<nat>
    requires j <= |e|
  {
    iset p: nat | InSome(p, e, i, j)
  }

  /** Everything except the extents from the `i`-th on. */
  ghost function Outside(e: seq<(nat, nat)>, i: nat): iset<nat> { iset p: nat | !InSome(p, e, i, |e|) }

  ghost predicate ValidExtents(e: seq<(nat, nat)>, size: nat) {
    forall k :: 0 <= k < |e| ==> e[k].0 <= e[k].1 <= size
  }

  /** Both views of the file agree with `t` on `r`. */
  ghost predicate BothAgree(s: Disk, t: seq<byte>, r: iset<nat>) { Agrees(s.now, t, r) && Agrees(s.hard, t, r) }

  /** Writing the target's own bytes never breaks agreement with it, however the write is torn. */
  lemma WriteKeeps(s: Disk, t: seq<byte>, r: iset<nat>, lo: nat, hi: nat, s': Disk)
    requires lo <= hi <= |t| && Wrote(s, lo, t[lo..hi], s')
    ensures Agrees(s.now, t, r) ==> Agrees(s'.now, t, r + Span(lo, hi))
    ensures Agrees(s.hard, t, r) ==> Agrees(s'.hard, t, r)
    ensures |s'.now| <= Max(|s.now|, hi) && |s'.hard| <= Max(|s.hard|, hi)
  {
    hide Put;
    var d := t[lo..hi];
    forall p: nat | p < |s'.now|
      ensures s'.now[p] == if lo <= p < hi then t[p] else if p < |s.now| then s.now[p] else 0
    {
      PutAt(s.now, lo, d, p);
    }
    PutGrows(s.now, lo, d);
  }

  lemma PutSlice(f: seq<byte>, t: seq<byte>, r: iset<nat>, lo: nat, hi: nat)
    requires lo <= hi <= |t| && Agrees(f, t, r)
    ensures Agrees(Put(f, lo, t[lo..hi]), t, r + Span(lo, hi)) && |Put(f, lo, t[lo..hi])| <= Max(|f|, hi)
  {
    hide Put;
    WriteKeeps(Disk(f, f), t, r, lo, hi, Disk(Put(f, lo, t[lo..hi]), f));
  }

  lemma AgreesSubset(f: seq<byte>, t: seq<byte>, r: iset<nat>, r': iset<nat>)
    requires Agrees(f, t, r) && forall p :: p in r' && p < |t| ==> p in r
    ensures Agrees(f, t, r')
  {
  }

  lemma PutGrows(f: seq<byte>, at: nat, d: seq<byte>)
    ensures |f| <= |Put(f, at, d)| && |Put(f, at, d)| == (if d == [] then |f| else Max(|f|, at + |d|))
  {
  }

  /** Any write keeps agreement on positions it does not touch. */
  lemma WriteElsewhere(s: Disk, t: seq<byte>, r: iset<nat>, at: nat, d: seq<byte>, s': Disk)
    requires Wrote(s, at, d, s') && r !! Span(at, at + |d|)
    ensures Agrees(s.now, t, r) ==> Agrees(s'.now, t, r)
    ensures Agrees(s.hard, t, r) ==> Agrees(s'.hard, t, r)
  {
    hide Put;
    PutGrows(s.now, at, d);
    forall p: nat | p < |s'.now| && p !in Span(at, at + |d|)
      ensures s'.now[p] == if p < |s.now| then s.now[p] else 0
    {
      PutAt(s.now, at, d, p);
    }
  }

  /** Truncation keeps agreement in front of the cut. */
  lemma CutKeeps(s: Disk, t: seq<byte>, r: iset<nat>, n: nat, s': Disk)
    requires Cut(s, n, s') && (forall p :: p in r && p < |t| ==> p < n)
    ensures Agrees(s.now, t, r) ==> Agrees(s'.now, t, r)
    ensures Agrees(s.hard, t, r) ==> Agrees(s'.hard, t, r)
  {
  }

  /** The file reads as zero, or ends, at every position in `r`. */
  ghost predicate Blank(f: seq<byte>, r: iset<nat>) { forall p :: p in r && p < |f| ==> f[p] == 0 }

  ghost predicate BothBlank(s: Disk, r: iset<nat>) { Blank(s.now, r) && Blank(s.hard, r) }

  lemma WriteBlank(s: Disk, r: iset<nat>, at: nat, d: seq<byte>, s': Disk)
    requires Wrote(s, at, d, s') && r !! Span(at, at + |d|) && BothBlank(s, r)
    ensures BothBlank(s', r)
  {
    hide Put;
    forall p: nat | p < |s'.now| && p in r ensures s'.now[p] == 0 {
      assert p !in Span(at, at + |d|);
      PutAt(s.now, at, d, p);
    }
    forall p: nat | p < |s'.hard| && p in r ensures s'.hard[p] == 0 {
      assert p !in Span(at, at + |d|);
    }
  }

  lemma CutBlank(s: Disk, r: iset<nat>, n: nat, s': Disk)
    requires Cut(s, n, s') && BothBlank(s, r)
    ensures BothBlank(s', r)
  {
  }

  /** A file of the target's length that agrees with it everywhere is the target. */
  lemma AgreesAll(f: seq<byte>, t: seq<byte>)
    requires |f| <= |t| && Agrees(f, t, Span(0, |t|))
    ensures f == t
  {
    if |t| > 0 {
      assert |t| - 1 in Span(0, |t|);
    }
    assert forall p :: 0 <= p < |t| ==> p in Span(0, |t|);
  }
}
