/** Where the exFAT writer puts a source tree: cluster counts, cluster runs and the FAT. */
module ExfatLayout {
  import opened Bytes

  const CLUSTER: nat := 0x1_0000
  const WORD32: nat := 0x1_0000_0000
  const END_OF_CHAIN: nat := 0xFFFF_FFFF
  const MAX_NODES: nat := 262144
  const UPCASE_CLUSTERS: nat := 1

  /** The largest content, in clusters, the writer lays out. */
  const MAX_CONTENT: nat := WORD32 - 1 - 65536

  /** A captured source tree, children in the writer's order. */
  datatype Node = File(name: seq<byte>, data: seq<byte>) | Dir(name: seq<byte>, children: seq<Node>)

  // ---------------------------------------------------------------- sizes in clusters

  function Ceil(n: nat, unit: nat): nat requires unit > 0 { (n + unit - 1) / unit }

  /** Directory entries of one child: file entry, stream entry, and 15 name characters per entry. */
  function EntryCount(name: seq<byte>): nat { 2 + (|name| + 14) / 15 }

  function EntriesOf(children: seq<Node>): nat {
    if children == [] then 0 else EntryCount(children[0].name) + EntriesOf(children[1..])
  }

  function DirEntries(children: seq<Node>, root: bool): nat { (if root then 3 else 0) + EntriesOf(children) }

  /** Clusters of a node itself; a directory always has at least one. */
  function Own(n: Node, root: bool): nat {
    match n
    case File(_, data) => Ceil(|data|, CLUSTER)
    case Dir(_, children) => Max(1, Ceil(32 * DirEntries(children, root), CLUSTER))
  }

  function Total(n: Node, root: bool): nat
    decreases n, 1
  {
    Own(n, root) + (if n.Dir? then TotalOf(n.children) else 0)
  }

  function TotalOf(ns: seq<Node>): nat
    decreases ns, 0
  {
    if ns == [] then 0 else Total(ns[0], false) + TotalOf(ns[1..])
  }

  function Nodes(n: Node): nat
    decreases n, 1
  {
    1 + (if n.Dir? then NodesOf(n.children) else 0)
  }

  function NodesOf(ns: seq<Node>): nat
    decreases ns, 0
  {
    if ns == [] then 0 else Nodes(ns[0]) + NodesOf(ns[1..])
  }

  /** Names of 1 to 255 bytes, and files whose size the scan admits. */
  predicate Named(n: Node)
    decreases n, 1
  {
    match n
    case File(name, data) => 1 <= |name| <= 255 && |data| <= (WORD32 - 3) * CLUSTER
    case Dir(name, children) => 1 <= |name| <= 255 && AllNamed(children)
  }

  predicate AllNamed(ns: seq<Node>)
    decreases ns, 0
  {
    ns == [] || (Named(ns[0]) && AllNamed(ns[1..]))
  }

  /** What the tree scan admits: a directory of at most MAX_NODES nodes. */
  predicate Scanned(root: Node) { root.Dir? && AllNamed(root.children) && Nodes(root) <= MAX_NODES }

  // ---------------------------------------------------------------- cluster runs in preorder

  /** Cluster counts of a subtree in the order clusters are assigned. */
  function Runs(n: Node, root: bool): seq<nat>
    decreases n, 1
  {
    [Own(n, root)] + (if n.Dir? then RunsOf(n.children) else [])
  }

  function RunsOf(ns: seq<Node>): seq<nat>
    decreases ns, 0
  {
    if ns == [] then [] else Runs(ns[0], false) + RunsOf(ns[1..])
  }

  function Sum(counts: seq<nat>): nat { if counts == [] then 0 else counts[0] + Sum(counts[1..]) }

  /** The first cluster of run `i` when assignment starts at `first`. */
  function Start(counts: seq<nat>, first: nat, i: nat): nat
    requires i <= |counts|
  {
    first + Sum(counts[..i])
  }

  lemma {:induction false} SumAppend(a: seq<nat>, b: seq<nat>)
    ensures Sum(a + b) == Sum(a) + Sum(b)
  {
    if a == [] {
      assert a + b == b;
    } else {
      SumAppend(a[1..], b);
      assert (a + b)[1..] == a[1..] + b;
    }
  }

  lemma {:induction false} RunsTotal(n: Node, root: bool)
    ensures Sum(Runs(n, root)) == Total(n, root)
    decreases n, 1
  {
    if n.Dir? {
      RunsOfTotal(n.children);
      SumAppend([Own(n, root)], RunsOf(n.children));
    }
    assert Sum([Own(n, root)]) == Own(n, root);
  }

  lemma {:induction false} RunsOfTotal(ns: seq<Node>)
    ensures Sum(RunsOf(ns)) == TotalOf(ns)
    decreases ns, 0
  {
    if ns != [] {
      RunsTotal(ns[0], false);
      RunsOfTotal(ns[1..]);
      SumAppend(Runs(ns[0], false), RunsOf(ns[1..]));
    }
  }

  lemma StartStep(counts: seq<nat>, first: nat, i: nat)
    requires i < |counts|
    ensures Start(counts, first, i + 1) == Start(counts, first, i) + counts[i]
  {
    assert counts[..i + 1] == counts[..i] + [counts[i]];
    SumAppend(counts[..i], [counts[i]]);
    assert Sum([counts[i]]) == counts[i];
  }

  lemma {:induction false} StartOrder(counts: seq<nat>, first: nat, i: nat, j: nat)
    requires i <= j <= |counts|
    ensures first <= Start(counts, first, i) <= Start(counts, first, j)
    decreases j - i
  {
    if i < j {
      StartStep(counts, first, i);
      StartOrder(counts, first, i + 1, j);
    }
  }

  predicate InRun(counts: seq<nat>, first: nat, i: nat, c: nat) {
    i < |counts| && Start(counts, first, i) <= c < Start(counts, first, i) + counts[i]
  }

  /** No two runs share a cluster. */
  lemma RunsDisjoint(counts: seq<nat>, first: nat, i: nat, j: nat, c: nat)
    requires InRun(counts, first, i, c) && InRun(counts, first, j, c)
    ensures i == j
  {
    if i < j {
      StartStep(counts, first, i);
      StartOrder(counts, first, i + 1, j);
    } else if j < i {
      StartStep(counts, first, j);
      StartOrder(counts, first, j + 1, i);
    }
  }

  /** Every cluster of the assigned range is in some run. */
  lemma {:induction false} RunsCover(counts: seq<nat>, first: nat, n: nat, c: nat) returns (i: nat)
    requires n <= |counts| && first <= c < Start(counts, first, n)
    ensures i < n && InRun(counts, first, i, c)
  {
    assert n > 0 by { assert counts[..0] == []; }
    StartStep(counts, first, n - 1);
    if c >= Start(counts, first, n - 1) {
      i := n - 1;
    } else {
      i := RunsCover(counts, first, n - 1, c);
    }
  }

  // ---------------------------------------------------------------- the bitmap fixed point

  /** Clusters a bitmap needs to describe itself and the content. */
  function Need(content: nat, bitmap: nat): nat { Ceil((bitmap + content + 7) / 8, CLUSTER) }

  /** Iterating Need from below until it settles. */
  function Settle(content: nat, bitmap: nat): (b: nat)
    requires 1 <= bitmap <= Need(content, bitmap) && bitmap <= content + 2
    ensures bitmap <= b <= content + 2 && Need(content, b) == b
    decreases content + 2 - bitmap
  {
    if Need(content, bitmap) == bitmap then bitmap else Settle(content, Need(content, bitmap))
  }

  function Bitmap(content: nat): nat { Settle(content, 1) }

  lemma NeedMonotone(content: nat, content': nat, b: nat, b': nat)
    requires content <= content' && b <= b'
    ensures Need(content, b) <= Need(content', b')
  {
    assert (b + content + 7) / 8 <= (b' + content' + 7) / 8;
  }

  lemma {:induction false} SettleBelow(content: nat, from: nat, b: nat)
    requires 1 <= from <= Need(content, from) && from <= content + 2
    requires from <= b && Need(content, b) <= b
    ensures Settle(content, from) <= b
    decreases content + 2 - from
  {
    if Need(content, from) != from {
      NeedMonotone(content, content, from, b);
      SettleBelow(content, Need(content, from), b);
    }
  }

  /** The loop stops at the least size that suffices, and larger content never needs a smaller bitmap. */
  lemma BitmapLeast(content: nat)
    ensures Need(content, Bitmap(content)) == Bitmap(content) >= 1
    ensures forall b :: b >= 1 && Need(content, b) <= b ==> Bitmap(content) <= b
  {
    forall b | b >= 1 && Need(content, b) <= b ensures Bitmap(content) <= b {
      SettleBelow(content, 1, b);
    }
  }

  lemma BitmapMonotone(content: nat, content': nat)
    requires content <= content'
    ensures Bitmap(content) <= Bitmap(content')
  {
    BitmapLeast(content');
    NeedMonotone(content, content', Bitmap(content'), Bitmap(content'));
    SettleBelow(content, 1, Bitmap(content'));
  }

  /** The bitmap has one bit for every cluster. */
  lemma BitmapCovers(content: nat)
    ensures 8 * CLUSTER * Bitmap(content) >= Bitmap(content) + content
  {
    var b := Bitmap(content);
    assert Need(content, b) == b;
    hide Settle;
    var bytes := (b + content + 7) / 8;
    assert CLUSTER * b >= bytes;
  }

  lemma BitmapSmall(content: nat)
    requires content <= MAX_CONTENT
    ensures Bitmap(content) <= 8193
  {
    var b := Bitmap(content);
    assert Need(content, b) == b;
    assert b <= content + 2;
  }

  function Need32(content: nat, bitmap: nat): nat {
    (((bitmap + content + 7) % WORD32 / 8 + 65535) % WORD32 / 65536) % WORD32
  }

  lemma Need32Exact(content: nat, bitmap: nat)
    requires content <= MAX_CONTENT && bitmap <= 8193
    ensures Need32(content, bitmap) == Need(content, bitmap) <= 8193
  {
    assert (bitmap + content + 7) % WORD32 == bitmap + content + 7;
    var bytes := (bitmap + content + 7) / 8;
    assert (bytes + 65535) % WORD32 == bytes + 65535;
  }

  /** The writer's loop, in its 32-bit arithmetic. */
  method FindBitmap(content: nat) returns (bitmap: nat)
    requires content <= MAX_CONTENT
    ensures bitmap == Bitmap(content)
  {
    hide Need, Need32;
    bitmap := 1;
    FirstNeed(content);
    Need32Exact(content, bitmap);
    while bitmap != Need32(content, bitmap)
      invariant 1 <= bitmap <= Need(content, bitmap) && bitmap <= content + 2 && bitmap <= 8193
      invariant Settle(content, bitmap) == Bitmap(content)
      invariant Need32(content, bitmap) == Need(content, bitmap) <= 8193
      decreases content + 2 - bitmap
    {
      SettleStep(content, bitmap);
      bitmap := Need32(content, bitmap);
      Need32Exact(content, bitmap);
    }
  }

  lemma FirstNeed(content: nat)
    ensures 1 <= Need(content, 1)
  {
  }

  lemma SettleStep(content: nat, b: nat)
    requires 1 <= b <= Need(content, b) && b <= content + 2 && Need(content, b) != b
    ensures var n := Need(content, b);
            b < n <= Need(content, n) && n <= content + 2 && Settle(content, b) == Settle(content, n)
  {
    NeedMonotone(content, content, b, Need(content, b));
  }

  // ---------------------------------------------------------------- volume geometry

  /** Sectors of a FAT with `entries` entries, a multiple of 128. */
  function FatSectors(entries: nat): nat { (Ceil(4 * entries, 512) + 127) / 128 * 128 }

  /** The same computed in 32-bit arithmetic, as the writer does. */
  function FatSectors32(entries: nat): nat {
    ((4 * entries % WORD32 + 511) % WORD32 / 512 + 127) / 128 * 128
  }

  /** The 32-bit computation is right exactly while the rounded byte count fits 32 bits. */
  lemma FatSectorsExact(entries: nat)
    requires entries < WORD32
    ensures FatSectors32(entries) == FatSectors(entries) <==> 4 * entries + 511 < WORD32
  {
    if 4 * entries + 511 >= WORD32 {
      WrapDrops(4 * entries);
      Coarser((4 * entries + 511) / 512, (4 * entries % WORD32 + 511) % WORD32 / 512);
    }
  }

  /** A sum that does not fit 32 bits loses 2^32 at least, and 2^23 sectors. */
  lemma WrapDrops(bytes: nat)
    requires bytes + 511 >= WORD32
    ensures (bytes % WORD32 + 511) % WORD32 / 512 + 0x80_0000 <= (bytes + 511) / 512
  {
    var x := bytes % WORD32;
    var y := (x + 511) % WORD32;
    if bytes >= WORD32 {
      assert x <= bytes - WORD32 && y <= x + 511;
    } else {
      assert x == bytes && y == bytes + 511 - WORD32;
    }
    assert y + WORD32 <= bytes + 511;
  }

  lemma Coarser(a: nat, b: nat)
    requires b + 0x80_0000 <= a
    ensures (b + 127) / 128 * 128 < (a + 127) / 128 * 128
  {
  }

  /** Clusters in use besides the bitmap. */
  function Content(root: Node): nat { Total(root, true) + UPCASE_CLUSTERS }

  function ClusterCount(root: Node): nat { Bitmap(Content(root)) + Content(root) }

  function HeapSector(root: Node): nat { 128 + FatSectors(ClusterCount(root) + 2) }

  function VolumeSectors(root: Node): nat { HeapSector(root) + 128 * ClusterCount(root) }

  function ImageSize(root: Node): nat { 512 * VolumeSectors(root) }

  /** The first sector of the cluster heap, in the writer's 32-bit arithmetic. */
  function HeapSector32(entries: nat): nat { (128 + FatSectors32(entries) + 127) % WORD32 / 128 * 128 }

  lemma HeapBehindFat(entries: nat)
    ensures HeapSector32(entries) == 128 + FatSectors32(entries)
  {
    var k := ((4 * entries % WORD32 + 511) % WORD32 / 512 + 127) / 128;
    assert FatSectors32(entries) == 128 * k && k <= 0x1_0001;
    hide FatSectors32;
    assert HeapSector32(entries) == (128 * k + 255) / 128 * 128;
  }

  /** The writer's 32-bit geometry is that of the volume exactly up to 2^30 - 128 FAT entries. */
  lemma Geometry32Exact(root: Node)
    requires Content(root) <= MAX_CONTENT
    ensures ClusterCount(root) + 2 < WORD32
    ensures ClusterCount(root) + 2 <= 0x4000_0000 - 128
      <==> FatSectors32(ClusterCount(root) + 2) == FatSectors(ClusterCount(root) + 2)
    ensures FatSectors32(ClusterCount(root) + 2) == FatSectors(ClusterCount(root) + 2)
      <==> HeapSector32(ClusterCount(root) + 2) == HeapSector(root)
  {
    hide Total, Bitmap, FatSectors, FatSectors32, HeapSector32;
    BitmapSmall(Content(root));
    FatSectorsExact(ClusterCount(root) + 2);
    HeapBehindFat(ClusterCount(root) + 2);
  }

  /** All runs of the volume: bitmap, up-case table, then the tree in preorder. */
  function AllRuns(root: Node): seq<nat> { [Bitmap(Content(root)), UPCASE_CLUSTERS] + Runs(root, true) }

  lemma AllRunsTotal(root: Node)
    ensures Sum(AllRuns(root)) == ClusterCount(root)
  {
    var b := [Bitmap(Content(root)), UPCASE_CLUSTERS];
    RunsTotal(root, true);
    SumAppend(b, Runs(root, true));
    assert b[1..] == [UPCASE_CLUSTERS];
    assert Sum(b[1..]) == UPCASE_CLUSTERS;
  }

  /** Tiling: every cluster of the heap belongs to exactly one run, and no run leaves the heap. */
  lemma Tiling(root: Node, c: nat)
    ensures 2 <= c < ClusterCount(root) + 2 <==> exists i :: InRun(AllRuns(root), 2, i, c)
    ensures forall i, j :: InRun(AllRuns(root), 2, i, c) && InRun(AllRuns(root), 2, j, c) ==> i == j
  {
    var r := AllRuns(root);
    AllRunsTotal(root);
    assert r[..|r|] == r;
    if 2 <= c < ClusterCount(root) + 2 {
      var i := RunsCover(r, 2, |r|, c);
    }
    forall i: nat | InRun(r, 2, i, c) ensures 2 <= c < ClusterCount(root) + 2 {
      StartStep(r, 2, i);
      StartOrder(r, 2, i, i);
      StartOrder(r, 2, i + 1, |r|);
    }
    forall i: nat, j: nat | InRun(r, 2, i, c) && InRun(r, 2, j, c) ensures i == j {
      RunsDisjoint(r, 2, i, j, c);
    }
  }

  // ---------------------------------------------------------------- the FAT

  /** FAT entries of one run starting at cluster `first`. */
  function Chain(first: nat, count: nat): (s: seq<nat>)
    ensures |s| == count
  {
    seq(count, i requires 0 <= i < count => if i + 1 < count then first + i + 1 else END_OF_CHAIN)
  }

  function Chains(counts: seq<nat>, first: nat): (f: seq<nat>)
    ensures |f| == Sum(counts)
  {
    if counts == [] then [] else Chain(first, counts[0]) + Chains(counts[1..], first + counts[0])
  }

  /** The whole FAT, one entry per cluster after the two reserved ones. */
  function Fat(counts: seq<nat>): seq<nat> { [0xFFFF_FFF8, END_OF_CHAIN] + Chains(counts, 2) }

  lemma {:induction false} ChainsAppend(a: seq<nat>, b: seq<nat>, first: nat)
    ensures Chains(a + b, first) == Chains(a, first) + Chains(b, first + Sum(a))
  {
    if a == [] {
      assert a + b == b;
    } else {
      hide Chain, Chains;
      assert a == [a[0]] + a[1..] && a + b == [a[0]] + (a[1..] + b);
      ChainsCons(a[0], a[1..] + b, first);
      ChainsCons(a[0], a[1..], first);
      ChainsAppend(a[1..], b, first + a[0]);
    }
  }

  /** The FAT entries of run `i` are its chain. */
  lemma FatOfRun(counts: seq<nat>, i: nat)
    requires i < |counts|
    ensures Start(counts, 2, i) + counts[i] <= |Fat(counts)|
    ensures Fat(counts)[Start(counts, 2, i)..Start(counts, 2, i) + counts[i]] == Chain(Start(counts, 2, i), counts[i])
  {
    var a, b := counts[..i], counts[i..];
    assert counts == a + b;
    ChainsAppend(a, b, 2);
    SumAppend(a, b);
    var s := Start(counts, 2, i);
    assert Chains(b, s)[..b[0]] == Chain(s, b[0]);
    assert Fat(counts)[s..s + counts[i]] == Chains(b, s)[..b[0]];
  }

  /** Following the FAT from a cluster; None when the walk leaves the table or does not end in time. */
  function Follow(fat: seq<nat>, c: nat, fuel: nat): Option<seq<nat>>
    decreases fuel
  {
    if fuel == 0 || c >= |fat| then None
    else if fat[c] == END_OF_CHAIN then Some([c])
    else match Follow(fat, fat[c], fuel - 1)
      case None => None
      case Some(rest) => Some([c] + rest)
  }

  function Range(first: nat, count: nat): seq<nat> { seq(count, i requires 0 <= i => first + i) }

  lemma {:induction false} FollowChain(fat: seq<nat>, first: nat, count: nat, k: nat, fuel: nat)
    requires k < count && first + count <= |fat| && |fat| <= END_OF_CHAIN
    requires forall c :: first <= c < first + count ==> fat[c] == if c + 1 < first + count then c + 1 else END_OF_CHAIN
    requires fuel >= count - k
    ensures Follow(fat, first + k, fuel) == Some(Range(first + k, count - k))
    decreases count - k
  {
    if k + 1 < count {
      FollowChain(fat, first, count, k + 1, fuel - 1);
      assert fat[first + k] == first + k + 1;
      assert Range(first + k, count - k) == [first + k] + Range(first + k + 1, count - k - 1);
    } else {
      assert Range(first + k, count - k) == [first + k];
    }
  }

  /** From the first cluster of a run, the FAT visits exactly the run, in order, and then ends. */
  lemma ChainFollowed(counts: seq<nat>, i: nat, fat: seq<nat>, fuel: nat)
    requires i < |counts| && counts[i] > 0 && fuel >= counts[i]
    requires |Fat(counts)| <= |fat| <= END_OF_CHAIN && fat[..|Fat(counts)|] == Fat(counts)
    ensures Follow(fat, Start(counts, 2, i), fuel) == Some(Range(Start(counts, 2, i), counts[i]))
  {
    var s, n := Start(counts, 2, i), counts[i];
    FatOfRun(counts, i);
    forall c | s <= c < s + n ensures fat[c] == if c + 1 < s + n then c + 1 else END_OF_CHAIN {
      assert fat[c] == fat[..|Fat(counts)|][c];
      assert Fat(counts)[s..s + n][c - s] == Chain(s, n)[c - s];
    }
    FollowChain(fat, s, n, 0, fuel);
  }

  /** The writer's loop over one run of the table. */
  method WriteChain(fat: array<nat>, first: nat, count: nat)
    requires first + count <= fat.Length
    modifies fat
    ensures fat[..] == old(fat[..first]) + Chain(first, count) + old(fat[first + count..])
  {
    if count == 0 { return; }
    var i := 0;
    while i + 1 < count
      invariant i < count
      invariant forall c :: first <= c < first + i ==> fat[c] == c + 1
      invariant forall k :: 0 <= k < fat.Length && !(first <= k < first + i) ==> fat[k] == old(fat[k])
    {
      fat[first + i] := first + i + 1;
      i := i + 1;
    }
    fat[first + count - 1] := END_OF_CHAIN;
  }

  /** The writer's recursion over a subtree whose clusters start at `first`. */
  method ChainTree(fat: array<nat>, n: Node, root: bool, first: nat)
    requires first + Total(n, root) <= fat.Length
    modifies fat
    ensures fat[..] == old(fat[..first]) + Chains(Runs(n, root), first) + old(fat[first + Total(n, root)..])
    decreases n, 1
  {
    hide Chain, Own, Chains, Runs, RunsOf, Sum, TotalOf;
    var own := Own(n, root);
    NodeChains(n, root, first);
    ghost var before := fat[..];
    WriteChain(fat, first, own);
    ghost var middle := fat[..];
    assert middle[..first + own] == before[..first] + Chain(first, own);
    if n.Dir? {
      ChainList(fat, n.children, first + own);
    }
  }

  lemma NodeChains(n: Node, root: bool, first: nat)
    ensures Chains(Runs(n, root), first) ==
            Chain(first, Own(n, root)) + (if n.Dir? then Chains(RunsOf(n.children), first + Own(n, root)) else [])
  {
    hide Own, Chain, RunsOf;
    var rest := if n.Dir? then RunsOf(n.children) else [];
    assert Runs(n, root) == [Own(n, root)] + rest;
    hide Runs;
    ChainsCons(Own(n, root), rest, first);
    NoChains(first + Own(n, root));
  }

  lemma ChainsCons(count: nat, rest: seq<nat>, first: nat)
    ensures Chains([count] + rest, first) == Chain(first, count) + Chains(rest, first + count)
  {
    hide Chain;
    assert ([count] + rest)[1..] == rest;
  }

  lemma NoChains(first: nat)
    ensures Chains([], first) == []
  {
  }

  method ChainList(fat: array<nat>, ns: seq<Node>, first: nat)
    requires first + TotalOf(ns) <= fat.Length
    modifies fat
    ensures fat[..] == old(fat[..first]) + Chains(RunsOf(ns), first) + old(fat[first + TotalOf(ns)..])
    decreases ns, 0
  {
    hide Chain, Own, Chains, Runs, Total, Sum;
    if ns == [] {
      assert Chains(RunsOf(ns), first) == [] by { NoChains(first); }
    } else {
      var next := first + Total(ns[0], false);
      ghost var last := next + TotalOf(ns[1..]);
      RunsTotal(ns[0], false);
      ChainsAppend(Runs(ns[0], false), RunsOf(ns[1..]), first);
      assert RunsOf(ns) == Runs(ns[0], false) + RunsOf(ns[1..]) && last == first + TotalOf(ns);
      hide RunsOf, TotalOf;
      ghost var before := fat[..];
      assert fat[..first] == before[..first] && fat[last..] == before[last..];
      ChainTree(fat, ns[0], false, first);
      ghost var middle := fat[..];
      assert middle == before[..first] + Chains(Runs(ns[0], false), first) + before[next..];
      Pieces(before, Chains(Runs(ns[0], false), first), Chains(RunsOf(ns[1..]), next), first, next, last);
      ChainList(fat, ns[1..], next);
      assert fat[..] == middle[..next] + Chains(RunsOf(ns[1..]), next) + middle[last..];
    }
  }

  /** Replacing one stretch and then the next is replacing both. */
  lemma Pieces(before: seq<nat>, c: seq<nat>, d: seq<nat>, first: nat, next: nat, last: nat)
    requires first + |c| == next <= last <= |before|
    ensures var middle := before[..first] + c + before[next..];
      |middle| == |before| && middle[..next] + d + middle[last..] == before[..first] + (c + d) + before[last..]
  {
  }
}
