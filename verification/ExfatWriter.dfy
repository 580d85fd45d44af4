/** The exFAT writer: directories first, then file data with checkpoints, skipping what a resume already holds. */
module ExfatWriter {
  import opened Bytes
  import opened Disks
  import opened ExfatLayout
  import opened ExfatDirectory
  import opened ExfatVolume
  import Resume
  import Workspace

  const CHECKPOINT_BYTES: nat := 128 * 1024 * 1024
  const CHECKPOINT_FILES: nat := 4096
  const PIECE: nat := 1024 * 1024

  // ---------------------------------------------------------------- where everything goes

  /** Byte offset of a cluster. */
  function ClusterOffset(heapAt: nat, c: nat): nat
    requires c >= 2
  {
    heapAt + (c - 2) * CLUSTER
  }

  /** Extents of the files of a subtree, in preorder. */
  function FileSpans(n: Node, at: nat, heapAt: nat): seq<(nat, nat)>
    requires at >= 2
    decreases n, 1
  {
    if n.File? then [(ClusterOffset(heapAt, at), ClusterOffset(heapAt, at) + CLUSTER * Own(n, false))]
    else FileSpansOf(n.children, at + Own(n, false), heapAt)
  }

  function FileSpansOf(ns: seq<Node>, next: nat, heapAt: nat): seq<(nat, nat)>
    requires next >= 2
    decreases ns, 0
  {
    if ns == [] then []
    else FileSpans(ns[0], next, heapAt) + FileSpansOf(ns[1..], next + Total(ns[0], false), heapAt)
  }

  /** Extents of the directories of a subtree, in preorder. */
  function DirSpans(n: Node, at: nat, heapAt: nat): seq<(nat, nat)>
    requires at >= 2
    decreases n, 1
  {
    if n.File? then []
    else [(ClusterOffset(heapAt, at), ClusterOffset(heapAt, at) + CLUSTER * Own(n, false))] +
         DirSpansOf(n.children, at + Own(n, false), heapAt)
  }

  function DirSpansOf(ns: seq<Node>, next: nat, heapAt: nat): seq<(nat, nat)>
    requires next >= 2
    decreases ns, 0
  {
    if ns == [] then []
    else DirSpans(ns[0], next, heapAt) + DirSpansOf(ns[1..], next + Total(ns[0], false), heapAt)
  }

  /** A position is in some extent of a list. */
  predicate Hit(p: nat, e: seq<(nat, nat)>) { InSome(p, e, 0, |e|) }

  lemma HitAppend(p: nat, a: seq<(nat, nat)>, b: seq<(nat, nat)>)
    ensures Hit(p, a + b) <==> Hit(p, a) || Hit(p, b)
  {
    if Hit(p, a) {
      var k :| 0 <= k < |a| && Within(p, a[k].0, a[k].1);
      assert (a + b)[k] == a[k];
    }
    if Hit(p, b) {
      var k :| 0 <= k < |b| && Within(p, b[k].0, b[k].1);
      assert (a + b)[|a| + k] == b[k];
    }
  }

  lemma ValidAppend(a: seq<(nat, nat)>, b: seq<(nat, nat)>, size: nat)
    requires ValidExtents(a, size) && ValidExtents(b, size)
    ensures ValidExtents(a + b, size)
  {
  }

  /** The clusters of a subtree are exactly its directory extents and its file extents. */
  lemma {:induction false} SpansTile(n: Node, at: nat, heapAt: nat, size: nat, p: nat)
    requires at >= 2 && ClusterOffset(heapAt, at) + CLUSTER * Total(n, false) <= size
    ensures ValidExtents(DirSpans(n, at, heapAt), size) && ValidExtents(FileSpans(n, at, heapAt), size)
    ensures Within(p, ClusterOffset(heapAt, at), ClusterOffset(heapAt, at) + CLUSTER * Total(n, false)) ==>
              Hit(p, DirSpans(n, at, heapAt)) || Hit(p, FileSpans(n, at, heapAt))
    decreases n, 1
  {
    var e := [(ClusterOffset(heapAt, at), ClusterOffset(heapAt, at) + CLUSTER * Own(n, false))];
    assert e[0] in e;
    if n.Dir? {
      SpansOfTile(n.children, at + Own(n, false), heapAt, size, p);
      HitAppend(p, e, DirSpansOf(n.children, at + Own(n, false), heapAt));
      ValidAppend(e, DirSpansOf(n.children, at + Own(n, false), heapAt), size);
    }
    hide Own;
    if Within(p, e[0].0, e[0].1) { assert Hit(p, e); }
  }

  lemma {:induction false} SpansOfTile(ns: seq<Node>, next: nat, heapAt: nat, size: nat, p: nat)
    requires next >= 2 && ClusterOffset(heapAt, next) + CLUSTER * TotalOf(ns) <= size
    ensures ValidExtents(DirSpansOf(ns, next, heapAt), size) && ValidExtents(FileSpansOf(ns, next, heapAt), size)
    ensures Within(p, ClusterOffset(heapAt, next), ClusterOffset(heapAt, next) + CLUSTER * TotalOf(ns)) ==>
              Hit(p, DirSpansOf(ns, next, heapAt)) || Hit(p, FileSpansOf(ns, next, heapAt))
    decreases ns, 0
  {
    if ns != [] {
      var after := next + Total(ns[0], false);
      SpansTile(ns[0], next, heapAt, size, p);
      SpansOfTile(ns[1..], after, heapAt, size, p);
      HitAppend(p, DirSpans(ns[0], next, heapAt), DirSpansOf(ns[1..], after, heapAt));
      HitAppend(p, FileSpans(ns[0], next, heapAt), FileSpansOf(ns[1..], after, heapAt));
      ValidAppend(DirSpans(ns[0], next, heapAt), DirSpansOf(ns[1..], after, heapAt), size);
      ValidAppend(FileSpans(ns[0], next, heapAt), FileSpansOf(ns[1..], after, heapAt), size);
      hide Total, Hit, DirSpans, FileSpans, ValidExtents;
    }
  }

  function HeapAt(root: Node): nat { SECTOR * HeapSector(root) }

  /** The end of the root directory's own clusters. */
  function RootEnd(root: Node): nat { HeapAt(root) + (RootCluster(root) - 2 + Own(root, true)) * CLUSTER }

  function NextAfterRoot(root: Node): (c: nat)
    ensures c >= 2
  {
    RootCluster(root) + Own(root, true)
  }

  /** The file extents of a volume. */
  function Files(root: Node): seq<(nat, nat)>
    requires root.Dir?
  {
    FileSpansOf(root.children, NextAfterRoot(root), HeapAt(root))
  }

  /** What is written before any file: everything up to the root directory, then the other directories. */
  function Prologue(root: Node): seq<(nat, nat)>
    requires root.Dir?
  {
    [(0, RootEnd(root))] + DirSpansOf(root.children, NextAfterRoot(root), HeapAt(root))
  }

  /** The extents stay inside the image and together cover it. */
  lemma VolumeTiled(root: Node, p: nat)
    requires root.Dir?
    ensures ValidExtents(Prologue(root), ImageSize(root)) && ValidExtents(Files(root), ImageSize(root))
    ensures p < ImageSize(root) ==> Hit(p, Prologue(root)) || Hit(p, Files(root))
  {
    var first := [(0, RootEnd(root))];
    var dirs := DirSpansOf(root.children, NextAfterRoot(root), HeapAt(root));
    assert RootEnd(root) == ClusterOffset(HeapAt(root), NextAfterRoot(root));
    assert RootEnd(root) + CLUSTER * TotalOf(root.children) == ImageSize(root);
    hide Own, TotalOf, RootEnd, ImageSize, RootCluster, HeapAt, NextAfterRoot;
    SpansOfTile(root.children, NextAfterRoot(root), HeapAt(root), ImageSize(root), p);
    HitAppend(p, first, dirs);
    ValidAppend(first, dirs, ImageSize(root));
    if p < RootEnd(root) { assert Within(p, first[0].0, first[0].1); assert Hit(p, first); }
  }

  // ---------------------------------------------------------------- what the stage holds

  /** The stage has every byte of the image outside the files from the `i`-th on. */
  ghost predicate Held(f: seq<byte>, img: seq<byte>, files: seq<(nat, nat)>, i: nat) {
    |f| <= |img| && i <= |files| && Agrees(f, img, Outside(files, i))
  }

  /** `bytes` lie in the image at `at`. */
  ghost predicate At(img: seq<byte>, at: nat, bytes: seq<byte>) {
    at + |bytes| <= |img| && img[at..at + |bytes|] == bytes
  }

  lemma AtSplit(img: seq<byte>, at: nat, a: seq<byte>, b: seq<byte>)
    requires At(img, at, a + b)
    ensures At(img, at, a) && At(img, at + |a|, b)
  {
    SubSlice(img, at, a + b, 0, |a|);
    SubSlice(img, at, a + b, |a|, |a| + |b|);
    assert (a + b)[0..|a|] == a && (a + b)[|a|..|a| + |b|] == b;
  }

  /** Writing the bytes the image has there keeps what agreed, and adds the extent. */
  lemma WriteAt(f: seq<byte>, img: seq<byte>, r: iset<nat>, at: nat, bytes: seq<byte>)
    requires At(img, at, bytes) && Agrees(f, img, r) && |f| <= |img|
    ensures Agrees(Put(f, at, bytes), img, r + Span(at, at + |bytes|)) && |Put(f, at, bytes)| <= |img|
  {
    hide Put, Agrees;
    PutSlice(f, img, r, at, at + |bytes|);
  }

  /** Writing file `i` whole completes one more file. */
  lemma FileWritten(f: seq<byte>, img: seq<byte>, files: seq<(nat, nat)>, i: nat, bytes: seq<byte>)
    requires Held(f, img, files, i) && i < |files| && files[i].1 == files[i].0 + |bytes| && At(img, files[i].0, bytes)
    ensures Held(Put(f, files[i].0, bytes), img, files, i + 1)
  {
    hide Put, Agrees;
    WriteAt(f, img, Outside(files, i), files[i].0, bytes);
    forall p | p in Outside(files, i + 1) ensures p in Outside(files, i) + Span(files[i].0, files[i].1) {}
    AgreesSubset(Put(f, files[i].0, bytes), img, Outside(files, i) + Span(files[i].0, files[i].1),
        Outside(files, i + 1));
  }

  /** An empty file needs no write. */
  lemma EmptyFile(f: seq<byte>, img: seq<byte>, files: seq<(nat, nat)>, i: nat)
    requires Held(f, img, files, i) && i < |files| && files[i].0 == files[i].1
    ensures Held(f, img, files, i + 1)
  {
    hide Agrees;
    forall p | p in Outside(files, i + 1) ensures p in Outside(files, i) {}
    AgreesSubset(f, img, Outside(files, i), Outside(files, i + 1));
  }

  /** A stage that holds all files is the image. */
  lemma AllHeld(f: seq<byte>, img: seq<byte>, files: seq<(nat, nat)>)
    requires Held(f, img, files, |files|)
    ensures f == img
  {
    hide Agrees;
    forall p | p in Span(0, |img|) ensures p in Outside(files, |files|) {}
    AgreesSubset(f, img, Outside(files, |files|), Span(0, |img|));
    AgreesAll(f, img);
  }

  /** The stage after the prologue holds everything but the files. */
  lemma PrologueHeld(root: Node, f: seq<byte>, img: seq<byte>)
    requires root.Dir? && |img| == ImageSize(root) && |f| <= |img|
    requires forall p: nat :: Hit(p, Prologue(root)) && p < |img| ==> p < |f| && f[p] == img[p]
    ensures Held(f, img, Files(root), 0)
  {
    hide ImageSize, Prologue, Files;
    forall p: nat | p in Outside(Files(root), 0) && p < |img| ensures p < |f| && f[p] == img[p] {
      VolumeTiled(root, p);
    }
  }

  // ---------------------------------------------------------------- directories

  /** The new contents keep every byte that already agreed with the image. */
  ghost predicate Grows(f: seq<byte>, g: seq<byte>, img: seq<byte>) {
    forall p: nat :: p < |f| && p < |img| && f[p] == img[p] ==> p < |g| && g[p] == img[p]
  }

  lemma PutAgrees(f: seq<byte>, img: seq<byte>, at: nat, bytes: seq<byte>)
    requires At(img, at, bytes) && |f| <= |img|
    ensures var g := Put(f, at, bytes);
            Grows(f, g, img) && |g| <= |img| && Agrees(g, img, Span(at, at + |bytes|))
  {
    hide Put;
    var g := Put(f, at, bytes);
    PutGrows(f, at, bytes);
    forall p: nat | p in Span(at, at + |bytes|) ensures p < |g| && p < |img| && g[p] == img[p] {
      PutAt(f, at, bytes, p);
      assert img[at..at + |bytes|][p - at] == bytes[p - at];
    }
    forall p: nat | p < |f| && p < |img| && f[p] == img[p] ensures p < |g| && g[p] == img[p] {
      PutAt(f, at, bytes, p);
    }
  }

  /** The directories below a list of children, each followed by those inside it. */
  method WriteDirectories(out: File, ns: seq<Node>, next: nat, heapAt: nat, ghost img: seq<byte>)
    requires next >= 2 && |out.data| <= |img| && At(img, ClusterOffset(heapAt, next), HeapOf(ns, next))
    modifies out
    ensures |out.data| <= |img| && Grows(old(out.data), out.data, img)
    ensures forall p: nat :: Hit(p, DirSpansOf(ns, next, heapAt)) ==>
      p < |out.data| && p < |img| && out.data[p] == img[p]
    decreases ns
  {
    hide Put, Heap, HeapOf, NodeBytes, Own, Total, DirSpans, DirSpansOf;
    if ns == [] {
      NoSpans(next, heapAt);
      return;
    }
    var n, rest := ns[0], ns[1..];
    var after := next + Total(n, false);
    HeapParts(ns, next, heapAt, img);
    ghost var g1, g2 := out.data, out.data;
    if n.Dir? {
      DirHeapParts(n, next, heapAt, img);
      out.Seek(ClusterOffset(heapAt, next));
      PutAgrees(out.data, img, ClusterOffset(heapAt, next), NodeBytes(n, false, next, []));
      out.Write(NodeBytes(n, false, next, []));
      g1 := out.data;
      WriteDirectories(out, n.children, next + Own(n, false), heapAt, img);
      g2 := out.data;
    }
    WriteDirectories(out, rest, after, heapAt, img);
    forall p: nat | Hit(p, DirSpansOf(ns, next, heapAt))
      ensures p < |out.data| && p < |img| && out.data[p] == img[p]
    {
      SpansStep(ns, next, heapAt, p);
      if n.Dir? && Within(p, ClusterOffset(heapAt, next), ClusterOffset(heapAt, next) + CLUSTER * Own(n, false)) {
        assert p in Span(ClusterOffset(heapAt, next), ClusterOffset(heapAt, next) + |NodeBytes(n, false, next, [])|);
        assert p < |img| by { hide Span; AtBounds(img, ClusterOffset(heapAt, next), NodeBytes(n, false, next, []), p); }
        assert p < |g1| && g1[p] == img[p];
      }
    }
  }

  lemma AtBounds(img: seq<byte>, at: nat, bytes: seq<byte>, p: nat)
    requires At(img, at, bytes) && p < at + |bytes|
    ensures p < |img|
  {
  }

  lemma NoSpans(next: nat, heapAt: nat)
    requires next >= 2
    ensures DirSpansOf([], next, heapAt) == []
  {
  }

  lemma SpansStep(ns: seq<Node>, next: nat, heapAt: nat, p: nat)
    requires next >= 2 && ns != [] && Hit(p, DirSpansOf(ns, next, heapAt))
    ensures Hit(p, DirSpansOf(ns[1..], next + Total(ns[0], false), heapAt)) ||
            (ns[0].Dir? &&
             (Within(p, ClusterOffset(heapAt, next), ClusterOffset(heapAt, next) + CLUSTER * Own(ns[0], false)) ||
                            Hit(p, DirSpansOf(ns[0].children, next + Own(ns[0], false), heapAt))))
  {
    HitAppend(p, DirSpans(ns[0], next, heapAt), DirSpansOf(ns[1..], next + Total(ns[0], false), heapAt));
    if ns[0].Dir? {
      var e := [(ClusterOffset(heapAt, next), ClusterOffset(heapAt, next) + CLUSTER * Own(ns[0], false))];
      HitAppend(p, e, DirSpansOf(ns[0].children, next + Own(ns[0], false), heapAt));
    }
  }

  lemma HeapParts(ns: seq<Node>, next: nat, heapAt: nat, img: seq<byte>)
    requires next >= 2 && ns != [] && At(img, ClusterOffset(heapAt, next), HeapOf(ns, next))
    ensures At(img, ClusterOffset(heapAt, next), Heap(ns[0], false, next, []))
    ensures var after := next + Total(ns[0], false); At(img, ClusterOffset(heapAt, after), HeapOf(ns[1..], after))
  {
    hide Heap, HeapOf, Total, At;
    var after := next + Total(ns[0], false);
    ListShape(ns, next);
    AtSplit(img, ClusterOffset(heapAt, next), Heap(ns[0], false, next, []), HeapOf(ns[1..], after));
  }

  lemma DirHeapParts(n: Node, at: nat, heapAt: nat, img: seq<byte>)
    requires at >= 2 && n.Dir? && At(img, ClusterOffset(heapAt, at), Heap(n, false, at, []))
    ensures At(img, ClusterOffset(heapAt, at), NodeBytes(n, false, at, []))
    ensures At(img, ClusterOffset(heapAt, at + Own(n, false)), HeapOf(n.children, at + Own(n, false)))
  {
    hide Heap, HeapOf, NodeBytes, Own, At;
    DirShape(n, false, at, []);
    AtSplit(img, ClusterOffset(heapAt, at), NodeBytes(n, false, at, []), HeapOf(n.children, at + Own(n, false)));
  }

  // ---------------------------------------------------------------- file data

  /** The state threaded through the file-data recursion. */
  class Writer {
    const root: Node
    const heapAt: nat
    ghost const img: seq<byte>
    ghost const before: seq<Resume.State>
    ghost const first: nat
    ghost var skipped: nat
    const out: File
    const j: Resume.Journal
    const polls: nat -> bool
    const changed: nat -> bool
    var fileIndex: nat
    var done: nat
    var checkpointBytes: nat
    var checkpointFiles: nat

    ghost predicate Valid()
      reads this, out, j
    {
      && root.Dir? && heapAt == HeapAt(root) && j.Valid()
      && fileIndex <= j.state.nextFile && Held(out.data, img, Files(root), j.state.nextFile)
      && Recorded(j.saved, j.stages)
    }

    /** The newest record is less than 4096 files old; `first` is the file the run began with. */
    ghost predicate RecentFiles()
      reads this, j
    {
      && checkpointFiles == (if |before| < |j.saved| then j.saved[|j.saved| - 1].nextFile else first)
      && j.state.nextFile == Max(first, fileIndex) && first <= checkpointFiles && fileIndex < checkpointFiles + 0x1000
    }

    /** Less than 128 MiB were copied since that record; `skipped` counts the bytes of files that were not copied. */
    ghost predicate RecentBytes()
      reads this
    {
      && skipped <= done && checkpointBytes <= done && done < Max(skipped, checkpointBytes) + 0x800_0000
      && (fileIndex < first ==> done == skipped)
    }

    ghost predicate Recent()
      reads this, j
    {
      RecentFiles() && RecentBytes()
    }

    /** No cancellation, no source file that changed, and no failing checkpoint. */
    ghost predicate Calm() {
      (forall i :: !polls(i)) && (forall i :: !changed(i)) && (forall i :: !j.failing(i))
    }

    /** Records made durable by this run describe the stage they were saved with. */
    ghost predicate Recorded(saved: seq<Resume.State>, stages: seq<seq<byte>>)
      requires root.Dir?
    {
      && |saved| == |stages| && |before| <= |saved| && saved[..|before|] == before
      && forall i :: |before| <= i < |saved| ==>
           Held(stages[i], img, Files(root), saved[i].nextFile) && saved[i].stageSize == |stages[i]|
    }

    constructor (root: Node, ghost img: seq<byte>, out: File, j: Resume.Journal, polls: nat -> bool,
        changed: nat -> bool)
      requires root.Dir? && j.Valid() && Held(out.data, img, Files(root), j.state.nextFile)
      ensures Valid() && this.root == root && this.img == img && this.out == out && this.j == j
      ensures fileIndex == 0 && this.polls == polls && this.changed == changed && before == j.saved
      ensures done == 0 && Recent()
    {
      first, skipped := j.state.nextFile, 0;
      this.root, this.heapAt, this.img, this.out, this.j := root, HeapAt(root), img, out, j;
      this.polls, this.changed, this.before := polls, changed, j.saved;
      fileIndex, done, checkpointBytes, checkpointFiles := 0, 0, 0, j.state.nextFile;
    }

    /** Synchronizes the stage and makes the current record durable. */
    method Checkpoint() returns (ok: bool)
      requires Valid()
      modifies j
      ensures Valid() && j.state.nextFile == old(j.state.nextFile) && (Calm() ==> ok)
      ensures j.saved == if ok then old(j.saved) + [j.state] else old(j.saved)
    {
      j.state := j.state.(stageSize := |out.data|);
      ok := j.Checkpoint(out.data);
    }

    /** Moves on behind a file whose clusters are written, and makes a record durable when one is due. */
    method MoveOn(copied: bool) returns (ok: bool)
      requires root.Dir? && heapAt == HeapAt(root) && j.Valid() && Recorded(j.saved, j.stages)
      requires RecentFiles() && j.state.nextFile == fileIndex
      requires Held(out.data, img, Files(root), fileIndex + 1)
      requires skipped <= done && checkpointBytes <= done && (!copied ==> RecentBytes())
      modifies this`fileIndex, this`checkpointBytes, this`checkpointFiles, j
      ensures Valid() && fileIndex == old(fileIndex) + 1 && (ok ==> Recent()) && (Calm() ==> ok)
    {
      hide Held, Files;
      fileIndex := fileIndex + 1;
      j.state := j.state.(nextFile := fileIndex);
      ok := true;
      if (copied && done - checkpointBytes >= CHECKPOINT_BYTES) || fileIndex - checkpointFiles >= CHECKPOINT_FILES {
        ok := Checkpoint();
        checkpointBytes, checkpointFiles := done, fileIndex;
      }
    }

    /** A file that the stage already holds is only counted. */
    method Skip(size: nat)
      requires Valid() && Recent() && fileIndex < j.state.nextFile
      modifies this`fileIndex, this`done, this`skipped
      ensures Valid() && Recent() && fileIndex == old(fileIndex) + 1 && done == old(done) + size
    {
      hide Held, Files, Recorded;
      done, skipped := done + size, skipped + size;
      fileIndex := fileIndex + 1;
    }

    /** One file: skipped, counted when empty, or copied in pieces and padded to whole clusters. */
    method WriteFile(n: Node, at: nat) returns (ok: bool)
      requires Valid() && Recent() && n.File? && at >= 2 && fileIndex < |Files(root)|
      requires Files(root)[fileIndex]
        == (ClusterOffset(heapAt, at), ClusterOffset(heapAt, at) + CLUSTER * Own(n, false))
      requires At(img, ClusterOffset(heapAt, at), PadTo(n.data, CLUSTER * Own(n, false)))
      modifies this, out, j
      ensures Valid() && (ok ==> fileIndex == old(fileIndex) + 1) && (Calm() ==> ok)
      ensures ok ==> Recent() && done == old(done) + |n.data|
    {
      hide Put, Held, Own, Files, Recorded, PadTo, ClusterOffset, HeapAt;
      if polls(fileIndex) { return false; }
      if fileIndex < j.state.nextFile {
        Skip(|n.data|);
        return true;
      }
      var copied := |n.data| > 0;
      if copied {
        if changed(fileIndex) { return false; }
        FileFits(n);
        FileWritten(out.data, img, Files(root), fileIndex, PadTo(n.data, CLUSTER * Own(n, false)));
        CopyData(n, at);
      } else {
        EmptyOwn(n);
        EmptyFile(out.data, img, Files(root), fileIndex);
      }
      ok := MoveOn(copied);
    }

    /** Copies the contents in pieces of at most 1 MiB, then writes the padding. */
    method CopyData(n: Node, at: nat)
      requires n.File? && at >= 2 && |n.data| <= CLUSTER * Own(n, false)
      modifies this`done, out
      ensures out.data == Put(old(out.data), ClusterOffset(heapAt, at), PadTo(n.data, CLUSTER * Own(n, false)))
      ensures done == old(done) + |n.data|
    {
      hide Put, Own;
      var start := ClusterOffset(heapAt, at);
      out.Seek(start);
      var k := 0;
      PutNothing(out.data, start);
      while k < |n.data|
        invariant k <= |n.data| && out.pos == start + k && done == old(done) + k
        invariant out.data == Put(old(out.data), start, n.data[..k])
      {
        var want := Min(|n.data| - k, PIECE);
        PutTwice(old(out.data), start, n.data[..k], n.data[k..k + want]);
        assert n.data[..k] + n.data[k..k + want] == n.data[..k + want];
        out.Write(n.data[k..k + want]);
        k, done := k + want, done + want;
      }
      assert n.data[..k] == n.data;
      PutTwice(old(out.data), start, n.data, Zeros(CLUSTER * Own(n, false) - |n.data|));
      out.Write(Zeros(CLUSTER * Own(n, false) - |n.data|));
    }
  }

  lemma PutNothing(f: seq<byte>, at: nat)
    ensures Put(f, at, []) == f
  {
  }

  lemma EmptyOwn(n: Node)
    requires n.File? && n.data == []
    ensures Own(n, false) == 0
  {
  }

  lemma FileFits(n: Node)
    requires n.File?
    ensures |n.data| <= CLUSTER * Own(n, false)
  {
  }

  /** The file-data recursion: files in preorder, stopping at the first failure. */
  method WriteFiles(w: Writer, ns: seq<Node>, next: nat) returns (ok: bool)
    requires w.Valid() && w.Recent() && next >= 2
    requires At(w.img, ClusterOffset(w.heapAt, next), HeapOf(ns, next))
    requires Follows(w, FileSpansOf(ns, next, w.heapAt))
    modifies w, w.out, w.j
    ensures w.Valid()
    ensures ok ==> w.fileIndex == old(w.fileIndex) + |FileSpansOf(ns, next, w.heapAt)|
    ensures w.Calm() ==> ok
    ensures ok ==> w.Recent() && w.done == old(w.done) + Workspace.SizeOf(ns)
    decreases ns
  {
    hide Heap, HeapOf, NodeBytes, Own, Total, FileSpans, FileSpansOf, Held, Put, At, Files, HeapAt, ClusterOffset,
      PadTo;
    if ns == [] {
      NoFiles(next, w.heapAt);
      return true;
    }
    var n, rest := ns[0], ns[1..];
    var after := next + Total(n, false);
    HeapParts(ns, next, w.heapAt, w.img);
    FilesStep(ns, next, w.heapAt);
    ghost var mine := FileSpans(n, next, w.heapAt);
    FollowsSplit(w, mine, FileSpansOf(rest, after, w.heapAt));
    if n.File? {
      FileHeap(n, next, w.heapAt, w.img);
      FileFits(n);
      ok := w.WriteFile(n, next);
    } else {
      DirHeapParts(n, next, w.heapAt, w.img);
      ok := WriteFiles(w, n.children, next + Own(n, false));
    }
    if ok {
      ok := WriteFiles(w, rest, after);
    }
  }

  /** The next files to visit are exactly `spans`. */
  ghost predicate Follows(w: Writer, spans: seq<(nat, nat)>)
    requires w.root.Dir?
    reads w
  {
    w.fileIndex + |spans| <= |Files(w.root)| && Files(w.root)[w.fileIndex..w.fileIndex + |spans|] == spans
  }

  lemma FollowsSplit(w: Writer, a: seq<(nat, nat)>, b: seq<(nat, nat)>)
    requires w.root.Dir? && Follows(w, a + b)
    ensures Follows(w, a)
    ensures w.fileIndex + |a| + |b| <= |Files(w.root)|
    ensures Files(w.root)[w.fileIndex + |a|..w.fileIndex + |a| + |b|] == b
    ensures |a| > 0 ==> Files(w.root)[w.fileIndex] == a[0]
  {
    hide Files;
    SpanSlices(Files(w.root), w.fileIndex, a, b);
  }

  lemma SpanSlices(f: seq<(nat, nat)>, i: nat, a: seq<(nat, nat)>, b: seq<(nat, nat)>)
    requires i + |a + b| <= |f| && f[i..i + |a + b|] == a + b
    ensures f[i..i + |a|] == a && f[i + |a|..i + |a| + |b|] == b
    ensures |a| > 0 ==> f[i] == a[0]
  {
    forall k | 0 <= k < |a| ensures f[i..i + |a|][k] == a[k] {
      assert f[i..i + |a + b|][k] == (a + b)[k];
    }
    forall k | 0 <= k < |b| ensures f[i + |a|..i + |a| + |b|][k] == b[k] {
      assert f[i..i + |a + b|][|a| + k] == (a + b)[|a| + k];
    }
    if |a| > 0 { assert f[i] == f[i..i + |a|][0]; }
  }

  lemma NoFiles(next: nat, heapAt: nat)
    requires next >= 2
    ensures FileSpansOf([], next, heapAt) == []
  {
  }

  lemma FilesStep(ns: seq<Node>, next: nat, heapAt: nat)
    requires next >= 2 && ns != []
    ensures FileSpansOf(ns, next, heapAt) ==
            FileSpans(ns[0], next, heapAt) + FileSpansOf(ns[1..], next + Total(ns[0], false), heapAt)
    ensures ns[0].File? ==>
              FileSpans(ns[0], next, heapAt)
                  == [(ClusterOffset(heapAt, next), ClusterOffset(heapAt, next) + CLUSTER * Own(ns[0], false))]
    ensures ns[0].Dir? ==>
              FileSpans(ns[0], next, heapAt) == FileSpansOf(ns[0].children, next + Own(ns[0], false), heapAt)
  {
    hide Own, Total;
  }

  lemma FileHeap(n: Node, at: nat, heapAt: nat, img: seq<byte>)
    requires at >= 2 && n.File? && At(img, ClusterOffset(heapAt, at), Heap(n, false, at, []))
    ensures |n.data| <= CLUSTER * Own(n, false)
    ensures At(img, ClusterOffset(heapAt, at), PadTo(n.data, CLUSTER * Own(n, false)))
  {
    assert NodeBytes(n, false, at, []) + [] == NodeBytes(n, false, at, []);
  }

  // ---------------------------------------------------------------- the whole stage

  /** The tree's part of the image. */
  lemma TreeAt(root: Node, upcase: seq<byte>)
    requires root.Dir? && |upcase| == UPCASE_SIZE
    ensures var img := Image(root, upcase);
            var front := Prefix(root, upcase) + NodeBytes(root, true, RootCluster(root), RootEntries(root));
            && |front| == RootEnd(root) <= |img| && At(img, 0, front)
            && At(img, ClusterOffset(HeapAt(root), NextAfterRoot(root)), HeapOf(root.children, NextAfterRoot(root)))
  {
    hide Prefix, NodeBytes, RootEntries, HeapOf, Own, HeapSector, RootCluster, At;
    var img := Image(root, upcase);
    var front := Prefix(root, upcase) + NodeBytes(root, true, RootCluster(root), RootEntries(root));
    var rest := HeapOf(root.children, NextAfterRoot(root));
    assert img == front + rest;
    assert At(img, 0, front + rest) by { WholeAt(img); }
    AtSplit(img, 0, front, rest);
  }

  lemma WholeAt(img: seq<byte>)
    ensures At(img, 0, img)
  {
    assert img[0..|img|] == img;
  }

  lemma PutEnd(f: seq<byte>, d: seq<byte>)
    ensures Put(f, |f|, d) == f + d
  {
    if d == [] { assert f + d == f; }
  }

  /** The FAT as the writer fills it in: reserved entries, bitmap, up-case table, then the tree. */
  method BuildFat(root: Node) returns (fat: seq<nat>)
    ensures fat == Fat(AllRuns(root))
  {
    hide Chain, Chains, Runs, Bitmap, Total, Sum;
    var bitmap, count := Bitmap(Content(root)), ClusterCount(root);
    var a := new nat[count + 2](_ => 0);
    a[0], a[1] := 0xFFFF_FFF8, END_OF_CHAIN;
    WriteChain(a, 2, bitmap);
    WriteChain(a, 2 + bitmap, UPCASE_CLUSTERS);
    ghost var front := a[..2 + bitmap + UPCASE_CLUSTERS];
    assert front == [0xFFFF_FFF8, END_OF_CHAIN] + Chain(2, bitmap) + Chain(2 + bitmap, UPCASE_CLUSTERS);
    ChainTree(a, root, true, 2 + bitmap + UPCASE_CLUSTERS);
    fat := a[..];
    FatShape(root);
    assert fat == front + Chains(Runs(root, true), 2 + bitmap + UPCASE_CLUSTERS);
  }

  lemma FatShape(root: Node)
    ensures var b := Bitmap(Content(root));
            Fat(AllRuns(root)) == [0xFFFF_FFF8, END_OF_CHAIN] + Chain(2, b) + Chain(2 + b, UPCASE_CLUSTERS) +
                                  Chains(Runs(root, true), 2 + b + UPCASE_CLUSTERS)
  {
    hide Chain, Runs, Bitmap, Total;
    var b, r := Bitmap(Content(root)), Runs(root, true);
    ChainsCons(UPCASE_CLUSTERS, r, 2 + b);
    ChainsCons(b, [UPCASE_CLUSTERS] + r, 2);
    assert AllRuns(root) == [b] + ([UPCASE_CLUSTERS] + r);
    hide Chains;
  }

  /** Boot regions, FAT, bitmap, up-case table and root directory, written one after the other. */
  method WriteFront(root: Node, upcase: seq<byte>, out: File)
    requires root.Dir? && |upcase| == UPCASE_SIZE && out.data == []
    modifies out
    ensures out.data == Prefix(root, upcase) + NodeBytes(root, true, RootCluster(root), RootEntries(root))
  {
    hide Boot, BitmapBytes, FatBytes, NodeBytes, RootEntries, PadTo, Put, Words, Fat, AllRuns, FatSectors, Bitmap,
      Total, Own, ClusterCount;
    out.Seek(0);
    PutEnd(out.data, Boot(root));
    out.Write(Boot(root));
    PutEnd(out.data, Boot(root));
    out.Write(Boot(root));
    PutEnd(out.data, Zeros(104 * SECTOR));
    out.Write(Zeros(104 * SECTOR));
    var fat := BuildFat(root);
    FatWords(root);
    PutEnd(out.data, FatBytes(root));
    out.Write(PadTo(Words(fat), SECTOR * FatSectors(ClusterCount(root) + 2)));
    PutEnd(out.data, BitmapBytes(root));
    out.Write(BitmapBytes(root));
    PutEnd(out.data, PadTo(upcase, CLUSTER));
    out.Write(PadTo(upcase, CLUSTER));
    assert [] + Boot(root) == Boot(root);
    PutEnd(out.data, NodeBytes(root, true, RootCluster(root), RootEntries(root)));
    out.Seek(ClusterOffset(HeapAt(root), RootCluster(root)));
    out.Write(NodeBytes(root, true, RootCluster(root), RootEntries(root)));
  }

  lemma FatWords(root: Node)
    ensures |Words(Fat(AllRuns(root)))| <= SECTOR * FatSectors(ClusterCount(root) + 2)
    ensures FatBytes(root) == PadTo(Words(Fat(AllRuns(root))), SECTOR * FatSectors(ClusterCount(root) + 2))
  {
    FatFits(root);
  }

  /** Front and directories together are the prologue. */
  lemma PrologueDone(root: Node, upcase: seq<byte>, front: seq<byte>, f: seq<byte>)
    requires root.Dir? && |upcase| == UPCASE_SIZE && |f| <= |Image(root, upcase)|
    requires |front| == RootEnd(root) && At(Image(root, upcase), 0, front) && Grows(front, f, Image(root, upcase))
    requires forall p: nat :: Hit(p, DirSpansOf(root.children, NextAfterRoot(root), HeapAt(root))) ==>
               p < |f| && p < |Image(root, upcase)| && f[p] == Image(root, upcase)[p]
    ensures Held(f, Image(root, upcase), Files(root), 0)
  {
    hide Image, RootEnd, Held, Files, NextAfterRoot, HeapAt, DirSpansOf, ImageSize;
    var img := Image(root, upcase);
    var e := [(0, RootEnd(root))];
    forall p: nat | Hit(p, Prologue(root)) && p < |img| ensures p < |f| && f[p] == img[p] {
      HitAppend(p, e, DirSpansOf(root.children, NextAfterRoot(root), HeapAt(root)));
      if p < |front| {
        assert img[0..|front|][p] == front[p];
      }
    }
    PrologueHeld(root, f, img);
  }

  lemma FilesFollow(root: Node, w: Writer)
    requires w.root == root && root.Dir? && w.fileIndex == 0 && w.heapAt == HeapAt(root)
    ensures Follows(w, FileSpansOf(root.children, NextAfterRoot(root), HeapAt(root)))
  {
    hide FileSpansOf;
    assert Files(root)[0..|Files(root)|] == Files(root);
  }

  /** Once every file has been visited, every file is held. */
  lemma FilesCounted(root: Node, w: Writer, f: seq<byte>, img: seq<byte>, nextFile: nat)
    requires root.Dir? && Held(f, img, Files(root), nextFile) && w.fileIndex <= nextFile
    requires w.fileIndex == |FileSpansOf(root.children, NextAfterRoot(root), HeapAt(root))|
    ensures nextFile == |Files(root)|
  {
    hide FileSpansOf;
  }

  /**
   * The stage of a conversion. A fresh stage gets the prologue and a first record; a resumed one,
   * which must hold everything but the files from the recorded one on, only the remaining files.
   * Either way the finished stage is the same image, byte for byte.
   */
  method WriteStage(root: Node, upcase: seq<byte>, out: File, j: Resume.Journal, polls: nat -> bool,
      changed: nat -> bool)
    returns (ok: bool)
    requires root.Dir? && |upcase| == UPCASE_SIZE && j.Valid()
    requires j.state.nextFile == 0 ==> out.data == []
    requires j.state.nextFile > 0 ==> Held(out.data, Image(root, upcase), Files(root), j.state.nextFile)
    modifies out, j
    ensures ok ==> out.data == Image(root, upcase)
    ensures (forall i :: !polls(i)) && (forall i :: !changed(i)) && (forall i :: !j.failing(i)) ==> ok
    ensures |old(j.saved)| <= |j.saved| && j.saved[..|old(j.saved)|] == old(j.saved)
    ensures j.Valid() && forall i :: |old(j.saved)| <= i < |j.saved| ==>
              Held(j.stages[i], Image(root, upcase), Files(root), j.saved[i].nextFile)
                  && j.saved[i].stageSize == |j.stages[i]|
  {
    hide Prefix, NodeBytes, RootEntries, HeapOf, Own, HeapSector, RootCluster, At, Image, Files, FileSpansOf, Held,
      Put, DirSpansOf, RootEnd, NextAfterRoot;
    ghost var img := Image(root, upcase);
    var next, heapAt := NextAfterRoot(root), HeapAt(root);
    TreeAt(root, upcase);
    if j.state.nextFile == 0 {
      WriteFront(root, upcase, out);
      ghost var front := out.data;
      WriteDirectories(out, root.children, next, heapAt, img);
      PrologueDone(root, upcase, front, out.data);
    }
    var w := new Writer(root, img, out, j, polls, changed);
    if j.state.nextFile == 0 {
      ok := w.Checkpoint();
      if !ok { return; }
      assert w.Recent();
    }
    FilesFollow(root, w);
    ok := WriteFiles(w, root.children, next);
    if !ok { return; }
    FilesCounted(root, w, out.data, img, j.state.nextFile);
    AllHeld(out.data, img, Files(root));
    j.state := j.state.(nextFile := |Files(root)|);
    ok := w.Checkpoint();
  }
}
