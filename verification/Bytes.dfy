/** Bytes, little-endian integers and files as byte sequences. */
module Bytes {

  type byte = x: int | 0 <= x < 256

  datatype Option<+T> = None | Some(value: T)

  datatype Error = EINVAL | EIO | EFBIG | EOVERFLOW | ECANCELED | ESTALE | EEXIST | ENAMETOOLONG | ENOTSUP

  datatype Result<+T> = Ok(value: T) | Err(error: Error)

  function Max(a: nat, b: nat): nat { if a < b then b else a }

  function Min(a: nat, b: nat): nat { if a < b then a else b }

  function Zeros(n: nat): seq<byte> { seq(n, _ => 0) }

  /** The `n` low-order bytes of `v`, least significant first. */
  function Le(n: nat, v: nat): (s: seq<byte>)
    ensures |s| == n
  {
    if n == 0 then [] else [v % 256] + Le(n - 1, v / 256)
  }

  function FromLe(s: seq<byte>): nat {
    if s == [] then 0 else s[0] + 256 * FromLe(s[1..])
  }

  function Pow256(n: nat): nat {
    if n == 0 then 1 else 256 * Pow256(n - 1)
  }

  lemma {:induction false} FromLeOfLe(n: nat, v: nat)
    requires v < Pow256(n)
    ensures FromLe(Le(n, v)) == v
  {
    if n > 0 {
      FromLeOfLe(n - 1, v / 256);
      assert Le(n, v)[1..] == Le(n - 1, v / 256);
    }
  }

  lemma {:induction false} LeOfFromLe(s: seq<byte>)
    ensures Le(|s|, FromLe(s)) == s && FromLe(s) < Pow256(|s|)
  {
    if s != [] {
      LeOfFromLe(s[1..]);
      assert s == [s[0]] + s[1..];
    }
  }

  /** A word has a value if and only if its bytes are those of the value. */
  lemma WordIs(f: seq<byte>, at: nat, n: nat, v: nat)
    requires at + n <= |f| && v < Pow256(n)
    ensures Word(f, at, n) == v <==> f[at..at + n] == Le(n, v)
  {
    hide Le, FromLe, Pow256;
    LeOfFromLe(f[at..at + n]);
    FromLeOfLe(n, v);
  }

  lemma Powers()
    ensures Pow256(2) == 0x1_0000 && Pow256(4) == 0x1_0000_0000 && Pow256(8) == 0x1_0000_0000_0000_0000
  {
    assert Pow256(2) == 256 * (256 * Pow256(0));
    assert Pow256(4) == 256 * (256 * Pow256(2));
    assert Pow256(6) == 256 * (256 * Pow256(4));
    assert Pow256(8) == 256 * (256 * Pow256(6));
  }

  /** The little-endian word of `n` bytes stored at `at`. */
  function Word(f: seq<byte>, at: nat, n: nat): nat
    requires at + n <= |f|
  {
    FromLe(f[at..at + n])
  }

  /** Appending leaves every earlier word in place. */
  lemma WordAppend(f: seq<byte>, g: seq<byte>, at: nat, n: nat)
    requires at + n <= |f|
    ensures Word(f + g, at, n) == Word(f, at, n)
  {
    assert (f + g)[at..at + n] == f[at..at + n];
  }

  /** A field appended to a record reads back, and leaves the earlier fields in place. */
  lemma FieldAppend(f: seq<byte>, n: nat, v: nat)
    requires v < Pow256(n)
    ensures |f + Le(n, v)| == |f| + n && Word(f + Le(n, v), |f|, n) == v
    ensures forall at: nat, w: nat :: at + w <= |f| ==> Word(f + Le(n, v), at, w) == Word(f, at, w)
  {
    FromLeOfLe(n, v);
    assert (f + Le(n, v))[|f|..|f| + n] == Le(n, v);
    forall at: nat, w: nat | at + w <= |f| ensures Word(f + Le(n, v), at, w) == Word(f, at, w) {
      WordAppend(f, Le(n, v), at, w);
    }
  }

  /** Slices of an embedded record are slices of the file. */
  lemma SubSlice(f: seq<byte>, base: nat, record: seq<byte>, lo: nat, hi: nat)
    requires base + |record| <= |f| && f[base..base + |record|] == record && lo <= hi <= |record|
    ensures f[base + lo..base + hi] == record[lo..hi]
  {
    forall j | 0 <= j < hi - lo ensures f[base + lo..base + hi][j] == record[lo..hi][j] {
      assert f[base..base + |record|][lo + j] == record[lo + j];
    }
  }

  /** A slice of a prefix is the slice. */
  lemma PrefixSlice(s: seq<byte>, m: nat, lo: nat, hi: nat)
    requires lo <= hi <= m <= |s|
    ensures s[..m][lo..hi] == s[lo..hi]
  {
    forall j | 0 <= j < hi - lo ensures s[..m][lo..hi][j] == s[lo..hi][j] {}
  }

  /** A word of an embedded record is the word at the shifted offset. */
  lemma WordShift(f: seq<byte>, base: nat, record: seq<byte>, at: nat, n: nat)
    requires base + |record| <= |f| && f[base..base + |record|] == record && at + n <= |record|
    ensures Word(f, base + at, n) == Word(record, at, n)
  {
    SubSlice(f, base, record, at, at + n);
  }

  /** A file after truncation or zero extension to exactly `n` bytes. */
  function Resize(f: seq<byte>, n: nat): (g: seq<byte>)
    ensures |g| == n
    ensures forall i :: 0 <= i < n ==> g[i] == if i < |f| then f[i] else 0
  {
    if n <= |f| then f[..n] else f + Zeros(n - |f|)
  }

  function Drop(f: seq<byte>, n: nat): seq<byte> {
    if n < |f| then f[n..] else []
  }

  /** A file after `d` has been written at offset `at`; a gap past the old end reads as zeros. */
  function Put(f: seq<byte>, at: nat, d: seq<byte>): seq<byte> {
    if d == [] then f else Resize(f, at) + d + Drop(f, at + |d|)
  }

  lemma PutAt(f: seq<byte>, at: nat, d: seq<byte>, i: nat)
    requires i < |Put(f, at, d)|
    ensures Put(f, at, d)[i] ==
            if at <= i < at + |d| then d[i - at] else if i < |f| then f[i] else 0
  {
  }

  /** A slice the write does not reach is unchanged. */
  lemma PutKeeps(f: seq<byte>, at: nat, d: seq<byte>, lo: nat, hi: nat)
    requires lo <= hi <= |f| && (hi <= at || at + |d| <= lo)
    ensures hi <= |Put(f, at, d)| && Put(f, at, d)[lo..hi] == f[lo..hi]
  {
    if d != [] {
      var g := Put(f, at, d);
      if hi <= at {
        assert g[..at] == Resize(f, at);
        assert g[lo..hi] == g[..at][lo..hi];
      } else {
        assert g[at + |d|..] == Drop(f, at + |d|);
        SubSlice(g, at + |d|, Drop(f, at + |d|), lo - at - |d|, hi - at - |d|);
      }
    }
  }

  /** A write reads back. */
  lemma PutReads(f: seq<byte>, at: nat, d: seq<byte>)
    requires at <= |f| || d != []
    ensures at + |d| <= |Put(f, at, d)| || d == []
    ensures d != [] ==> Put(f, at, d)[at..at + |d|] == d
    ensures |Put(f, at, d)| == if d == [] then |f| else Max(|f|, at + |d|)
  {
  }

  lemma SliceJoin(s: seq<byte>, lo: nat, mid: nat, hi: nat)
    requires lo <= mid <= hi <= |s|
    ensures s[lo..hi] == s[lo..mid] + s[mid..hi]
  {
  }

  lemma PutHead(f: seq<byte>, at: nat, d: seq<byte>)
    requires d != []
    ensures Resize(Put(f, at, d), at + |d|) == Resize(f, at) + d
  {
    var g := Put(f, at, d);
    assert g[..at + |d|] == Resize(f, at) + d;
  }

  lemma PutTail(f: seq<byte>, at: nat, d: seq<byte>, k: nat)
    requires d != [] && k >= at + |d|
    ensures Drop(Put(f, at, d), k) == Drop(f, k)
  {
    var g, t := Put(f, at, d), Drop(f, at + |d|);
    assert g == (Resize(f, at) + d) + t;
    if k < |g| {
      assert g[k..] == t[k - at - |d|..];
      assert t[k - at - |d|..] == f[k..];
    }
  }

  lemma PutTwice(f: seq<byte>, at: nat, d: seq<byte>, e: seq<byte>)
    ensures Put(Put(f, at, d), at + |d|, e) == Put(f, at, d + e)
  {
    hide Resize, Drop;
    if d == [] {
      assert d + e == e;
    } else if e == [] {
      assert d + e == d;
    } else {
      PutHead(f, at, d);
      PutTail(f, at, d, at + |d| + |e|);
      assert Resize(f, at) + d + e == Resize(f, at) + (d + e);
    }
  }

  /** An open stream: file contents plus the current position. */
  class File {
    var data: seq<byte>
    var pos: nat

    constructor (initial: seq<byte>)
      ensures data == initial && pos == 0
    {
      data, pos := initial, 0;
    }

    method Seek(at: nat)
      modifies this`pos
      ensures pos == at
    {
      pos := at;
    }

    method Write(d: seq<byte>)
      modifies this
      ensures data == Put(old(data), old(pos), d) && pos == old(pos) + |d|
    {
      data := Put(data, pos, d);
      pos := pos + |d|;
    }

    method Truncate(n: nat)
      modifies this`data
      ensures data == Resize(old(data), n)
    {
      data := Resize(data, n);
    }
  }
}
