/** The pre-flight workspace estimate and the bound it gives. */
module Workspace {
  import opened Bytes
  import opened ExfatLayout
  import Pfsc

  const WORD64: nat := 0x1_0000_0000_0000_0000

  /** What the folder scan counts: bytes and number of regular files, and directories below the root. */
  datatype Scan = Scan(totalBytes: nat, files: nat, dirs: nat)

  function Files(n: Node): nat
    decreases n, 1
  {
    if n.File? then 1 else FilesOf(n.children)
  }

  function FilesOf(ns: seq<Node>): nat
    decreases ns, 0
  {
    if ns == [] then 0 else Files(ns[0]) + FilesOf(ns[1..])
  }

  function Dirs(n: Node): nat
    decreases n, 1
  {
    if n.File? then 0 else 1 + DirsOf(n.children)
  }

  function DirsOf(ns: seq<Node>): nat
    decreases ns, 0
  {
    if ns == [] then 0 else Dirs(ns[0]) + DirsOf(ns[1..])
  }

  function Size(n: Node): nat
    decreases n, 1
  {
    if n.File? then |n.data| else SizeOf(n.children)
  }

  function SizeOf(ns: seq<Node>): nat
    decreases ns, 0
  {
    if ns == [] then 0 else Size(ns[0]) + SizeOf(ns[1..])
  }

  /** The scan saw at least the tree; it also counts names the tree leaves out. */
  predicate Covers(scan: Scan, root: Node) {
    root.Dir? && SizeOf(root.children) <= scan.totalBytes && FilesOf(root.children) <= scan.files
        && DirsOf(root.children) <= scan.dirs
  }

  // ---------------------------------------------------------------- the estimate without overflow

  function PaddedFiles(scan: Scan): nat { (scan.totalBytes + scan.files * 65535) / CLUSTER * CLUSTER }

  function DirectoryBytes(scan: Scan): nat { (scan.dirs + 1) * CLUSTER + 96 + (scan.files + scan.dirs) * 608 }

  function ContentBytes(scan: Scan): nat { PaddedFiles(scan) + DirectoryBytes(scan) + CLUSTER }

  function ContentClusters(scan: Scan): nat { ContentBytes(scan) / CLUSTER }

  /** Image bytes for a given content. */
  function ImageBytes(content: nat): nat {
    var clusters := Bitmap(content) + content;
    512 * (128 + FatSectors(clusters + 2) + 128 * clusters)
  }

  /** Stage and output together, when no block compresses. */
  function PeakFor(image: nat): nat {
    image + (Pfsc.DataOffset(image / CLUSTER) + image + 6 * CLUSTER)
  }

  predicate TableFits(image: nat) { Pfsc.TableBytes(image / CLUSTER) <= Pfsc.MAX_TABLE_BYTES }

  /** When an estimate is given at all. */
  predicate Fits(scan: Scan) {
    ContentClusters(scan) <= MAX_CONTENT && TableFits(ImageBytes(ContentClusters(scan)))
  }

  function Peak(scan: Scan): nat { PeakFor(ImageBytes(ContentClusters(scan))) }

  // ---------------------------------------------------------------- the checked 64-bit computation

  function AddChecked(a: nat, b: nat): Result<nat> { if a > WORD64 - 1 - b then Err(EOVERFLOW) else Ok(a + b) }

  function MulChecked(a: nat, b: nat): Result<nat> {
    if a > 0 && b > (WORD64 - 1) / a then Err(EOVERFLOW) else Ok(a * b)
  }

  lemma MulCheckedExact(a: nat, b: nat)
    ensures MulChecked(a, b).Ok? <==> a * b < WORD64
  {
    if a > 0 {
      var q := (WORD64 - 1) / a;
      if b > q {
        assert a * b >= a * (q + 1);
      } else {
        assert a * b <= a * q;
      }
    }
  }

  predicate InWord(n: nat) { n < WORD64 }

  /** The part of the estimate that starts from a finished exFAT image. */
  method EstimateFromExfat(image: nat) returns (r: Result<nat>)
    requires InWord(image)
    ensures r.Ok? <==> image != 0 && image % CLUSTER == 0 && TableFits(image)
    ensures r.Ok? ==> r.value == PeakFor(image)
  {
    if image == 0 || image % CLUSTER != 0 { return Err(EINVAL); }
    var blocks := image / CLUSTER;
    if blocks > (WORD64 - 1) / 8 - 1 { return Err(EOVERFLOW); }
    var offsets := (blocks + 1) * 8;
    if offsets > Pfsc.MAX_TABLE_BYTES { return Err(EFBIG); }
    if offsets > WORD64 - 1 - Pfsc.TABLE_AT - (CLUSTER - 1) { return Err(EOVERFLOW); }
    var data := (Pfsc.TABLE_AT + offsets + CLUSTER - 1) / CLUSTER * CLUSTER;
    var pfs := AddChecked(data, image);
    if pfs.Err? { return pfs; }
    pfs := AddChecked(pfs.value, 6 * CLUSTER);
    if pfs.Err? { return pfs; }
    r := AddChecked(image, pfs.value);
  }

  /** Content bytes of the estimate, each addition and multiplication checked. */
  method CheckedContent(scan: Scan) returns (r: Result<nat>)
    requires InWord(scan.totalBytes) && InWord(scan.files) && InWord(scan.dirs)
    ensures r.Ok? ==> r.value == ContentBytes(scan)
    ensures r.Err? ==> ContentBytes(scan) >= WORD64 - CLUSTER
  {
    if scan.files > (WORD64 - 1) / 65535 || scan.totalBytes > WORD64 - 1 - scan.files * 65535 { return Err(EOVERFLOW); }
    var padded := (scan.totalBytes + scan.files * 65535) / CLUSTER * CLUSTER;
    var nodes := AddChecked(scan.files, scan.dirs);
    if nodes.Err? { return nodes; }
    MulCheckedExact(nodes.value, 608);
    var entries := MulChecked(nodes.value, 608);
    if entries.Err? { return entries; }
    var dirs := AddChecked(scan.dirs, 1);
    if dirs.Err? { return dirs; }
    MulCheckedExact(dirs.value, CLUSTER);
    var bytes := MulChecked(dirs.value, CLUSTER);
    if bytes.Err? { return bytes; }
    bytes := AddChecked(bytes.value, 96);
    if bytes.Err? { return bytes; }
    bytes := AddChecked(bytes.value, entries.value);
    if bytes.Err? { return bytes; }
    bytes := AddChecked(padded, bytes.value);
    if bytes.Err? { return bytes; }
    r := AddChecked(bytes.value, CLUSTER);
  }

  lemma FatShape(entries: nat)
    ensures FatSectors(entries) % 128 == 0 && FatSectors(entries) == 128 * (FatSectors(entries) / 128)
    ensures FatSectors(entries) <= entries + 127
  {
    var x := Ceil(4 * entries, 512);
    assert x <= entries;
  }

  lemma ImageBytesShape(content: nat)
    requires content <= MAX_CONTENT
    ensures var clusters := Bitmap(content) + content;
            && clusters <= WORD32 - 3
            && FatSectors(clusters + 2) % 128 == 0 && FatSectors(clusters + 2) <= WORD32 + 127
            && ImageBytes(content) > 0 && ImageBytes(content) % CLUSTER == 0 && InWord(ImageBytes(content))
  {
    hide Bitmap, FatSectors;
    BitmapSmall(content);
    FatShape(Bitmap(content) + content + 2);
    var k := FatSectors(Bitmap(content) + content + 2) / 128;
    assert ImageBytes(content) == CLUSTER * (1 + k + Bitmap(content) + content);
  }

  /** The bitmap loop of the estimate, in 64-bit arithmetic. */
  method EstimateBitmap(content: nat) returns (bitmap: nat)
    requires content <= MAX_CONTENT
    ensures bitmap == Bitmap(content)
  {
    hide Need;
    bitmap := 1;
    FirstNeed(content);
    while Need(content, bitmap) != bitmap
      invariant 1 <= bitmap <= Need(content, bitmap) && bitmap <= content + 2
      invariant Settle(content, bitmap) == Bitmap(content)
      decreases content + 2 - bitmap
    {
      SettleStep(content, bitmap);
      bitmap := Need(content, bitmap);
    }
  }

  /** The estimate succeeds exactly when the content and the offset table fit, and is then the peak. */
  method EstimateWorkspace(scan: Scan) returns (r: Result<nat>)
    requires InWord(scan.totalBytes) && InWord(scan.files) && InWord(scan.dirs)
    ensures r.Ok? <==> Fits(scan)
    ensures r.Ok? ==> r.value == Peak(scan)
  {
    var bytes := CheckedContent(scan);
    if bytes.Err? { return bytes; }
    var content := bytes.value / CLUSTER;
    if content > MAX_CONTENT { return Err(EFBIG); }
    hide ContentBytes, Bitmap, TableFits, FatSectors;
    ImageBytesShape(content);
    var bitmap := EstimateBitmap(content);
    var clusters := bitmap + content;
    if clusters > WORD32 - 3 { return Err(EFBIG); }
    var fat := Sectors(clusters + 2);
    var heap := (128 + fat + 127) / 128 * 128;
    assert heap == 128 + fat;
    r := EstimateFromExfat((clusters * 128 + heap) * 512);
  }

  /** FAT sectors, rounded up first to sectors and then to 64 KiB. */
  method Sectors(entries: nat) returns (n: nat)
    ensures n == FatSectors(entries)
  {
    n := (4 * entries + 511) / 512;
    n := (n + 127) / 128 * 128;
  }

  // ---------------------------------------------------------------- the bound

  lemma {:induction false} EntriesBound(ns: seq<Node>)
    requires AllNamed(ns)
    ensures EntriesOf(ns) <= 19 * |ns|
  {
    if ns != [] {
      EntriesBound(ns[1..]);
    }
  }

  /** Clusters of the files of a subtree. */
  function Filed(n: Node): nat
    decreases n, 1
  {
    if n.File? then Own(n, false) else FiledOf(n.children)
  }

  function FiledOf(ns: seq<Node>): nat
    decreases ns, 0
  {
    if ns == [] then 0 else Filed(ns[0]) + FiledOf(ns[1..])
  }

  /** Files stay below their padded size, directories below one cluster each plus the entries they hold. */
  lemma {:induction false} TotalBound(n: Node)
    requires Named(n)
    ensures CLUSTER * Filed(n) <= Size(n) + 65535 * Files(n) && Filed(n) <= Total(n, false)
    ensures CLUSTER * (Total(n, false) - Filed(n)) <=
            CLUSTER * Dirs(n) + 608 * (if n.Dir? then FilesOf(n.children) + DirsOf(n.children) else 0)
    decreases n, 1
  {
    if n.Dir? {
      TotalOfBound(n.children);
      EntriesBound(n.children);
      OwnBound(n, false);
    }
  }

  lemma OwnBound(n: Node, root: bool)
    requires n.Dir?
    ensures CLUSTER * Own(n, root) <= CLUSTER + 32 * DirEntries(n.children, root)
  {
  }

  lemma {:induction false} TotalOfBound(ns: seq<Node>)
    requires AllNamed(ns)
    ensures CLUSTER * FiledOf(ns) <= SizeOf(ns) + 65535 * FilesOf(ns) && FiledOf(ns) <= TotalOf(ns)
    ensures CLUSTER * (TotalOf(ns) - FiledOf(ns)) + 608 * |ns| <= CLUSTER * DirsOf(ns)
      + 608 * (FilesOf(ns) + DirsOf(ns))
    decreases ns, 0
  {
    if ns != [] {
      TotalBound(ns[0]);
      TotalOfBound(ns[1..]);
    }
  }

  /** The estimated content is at least the content of the real volume. */
  lemma ContentBound(root: Node, scan: Scan)
    requires root.Dir? && AllNamed(root.children) && Covers(scan, root)
    ensures Content(root) <= ContentClusters(scan)
  {
    TotalOfBound(root.children);
    EntriesBound(root.children);
    OwnBound(root, true);
    hide Own;
    var ns := root.children;
    assert FiledOf(ns) <= (scan.totalBytes + 65535 * scan.files) / CLUSTER;
    assert CLUSTER * (Total(root, true) - FiledOf(ns)) <= DirectoryBytes(scan);
    assert CLUSTER * Content(root) <= ContentBytes(scan);
  }

  lemma FatMonotone(a: nat, b: nat)
    requires a <= b
    ensures FatSectors(a) <= FatSectors(b)
  {
    var x, y := (4 * a + 511) / 512, (4 * b + 511) / 512;
    assert x <= y;
    assert (x + 127) / 128 <= (y + 127) / 128;
  }

  lemma ImageMonotone(a: nat, b: nat)
    requires a <= b
    ensures ImageBytes(a) <= ImageBytes(b)
  {
    hide Bitmap, FatSectors;
    BitmapMonotone(a, b);
    FatMonotone(Bitmap(a) + a + 2, Bitmap(b) + b + 2);
  }

  /**
   * The estimate is a bound: whenever it is given, the finished exFAT stage and the largest file
   * packed from it fit in it together, the image can be packed at all, and no 32-bit expression of
   * the exFAT writer wraps.
   */
  lemma WorkspaceBound(root: Node, scan: Scan, c: Pfsc.Codec, image: seq<byte>)
    requires Scanned(root) && Covers(scan, root) && Fits(scan)
    requires |image| == ImageSize(root)
    ensures ImageSize(root) + (6 * CLUSTER + |Pfsc.Image(c, image)|) <= Peak(scan)
    ensures Pfsc.Packable(|image|)
    ensures Content(root) <= MAX_CONTENT && FatSectors32(ClusterCount(root) + 2) == FatSectors(ClusterCount(root) + 2)
  {
    hide Pfsc.Image, Pfsc.DataOffset, Bitmap, FatSectors, FatSectors32, Total;
    var content := ContentClusters(scan);
    ContentBound(root, scan);
    ImageMonotone(Content(root), content);
    ImageBytesShape(content);
    ImageBytesShape(Content(root));
    WholeBlocks(|image|);
    PackedBound(c, image);
    DataMonotone(|image| / CLUSTER, ImageBytes(content) / CLUSTER);
    NoWrap(root);
  }

  lemma WholeBlocks(size: nat)
    requires size > 0 && size % CLUSTER == 0
    ensures Pfsc.BlockCount(size) == size / CLUSTER && Pfsc.BlockCount(size) * CLUSTER == size
  {
  }

  /** No block of the packed stream is larger than the block it stores. */
  lemma PackedBound(c: Pfsc.Codec, image: seq<byte>)
    ensures var n := Pfsc.BlockCount(|image|); |Pfsc.Image(c, image)| <= Pfsc.DataOffset(n) + n * CLUSTER
  {
  }

  lemma DataMonotone(a: nat, b: nat)
    requires a <= b
    ensures Pfsc.DataOffset(a) <= Pfsc.DataOffset(b)
  {
  }

  // ---------------------------------------------------------------- how close the bound is

  /** The scan counted the tree itself and nothing besides. */
  predicate Counts(scan: Scan, root: Node) {
    root.Dir? && scan == Scan(SizeOf(root.children), FilesOf(root.children), DirsOf(root.children))
  }

  /** Every file is one byte longer than some whole number of clusters. */
  predicate OneOver(n: Node)
    decreases n, 1
  {
    if n.File? then |n.data| % CLUSTER == 1 else AllOneOver(n.children)
  }

  predicate AllOneOver(ns: seq<Node>)
    decreases ns, 0
  {
    ns == [] || (OneOver(ns[0]) && AllOneOver(ns[1..]))
  }

  lemma {:induction false} TotalLeast(n: Node)
    ensures Filed(n) + Dirs(n) <= Total(n, false) && Size(n) <= CLUSTER * Filed(n)
    ensures OneOver(n) ==> CLUSTER * Filed(n) == Size(n) + 65535 * Files(n)
    decreases n, 1
  {
    if n.Dir? {
      TotalOfLeast(n.children);
    }
  }

  lemma {:induction false} TotalOfLeast(ns: seq<Node>)
    ensures FiledOf(ns) + DirsOf(ns) <= TotalOf(ns) && SizeOf(ns) <= CLUSTER * FiledOf(ns)
    ensures AllOneOver(ns) ==> CLUSTER * FiledOf(ns) == SizeOf(ns) + 65535 * FilesOf(ns)
    decreases ns, 0
  {
    if ns != [] {
      TotalLeast(ns[0]);
      TotalOfLeast(ns[1..]);
    }
  }

  /**
   * The estimated content exceeds the real one by one cluster a file, and one for every 64 KiB of directory entries,
   * at most.
   */
  lemma ContentSlack(root: Node, scan: Scan)
    requires Counts(scan, root)
    ensures ContentClusters(scan) <= Content(root) + scan.files + (96 + 608 * (scan.files + scan.dirs)) / CLUSTER
  {
    TotalOfLeast(root.children);
    hide Own;
    var ns := root.children;
    var entries := 96 + 608 * (scan.files + scan.dirs);
    assert (scan.totalBytes + 65535 * scan.files) / CLUSTER <= FiledOf(ns) + scan.files;
    assert ContentBytes(scan) == CLUSTER * (PaddedFiles(scan) / CLUSTER + scan.dirs + 2) + entries;
    assert ContentClusters(scan) == PaddedFiles(scan) / CLUSTER + scan.dirs + 2 + entries / CLUSTER;
  }

  /** No smaller estimate would do: such trees are estimated exactly. */
  lemma ContentReached(root: Node, scan: Scan)
    requires Scanned(root) && Counts(scan, root)
    requires AllOneOver(root.children) && 96 + 608 * (scan.files + scan.dirs) < CLUSTER
    ensures ContentClusters(scan) == Content(root)
  {
    hide Own, Total, TotalOf, Filed, FiledOf, OneOver, AllOneOver, ContentBytes, Nodes, Named;
    var filed, dirs := FiledOf(root.children), scan.dirs;
    ContentBound(root, scan);
    TotalOfLeast(root.children);
    RootHasOne(root);
    ExactBytes(scan, filed);
    Floor(filed + dirs + 2, 96 + 608 * (scan.files + dirs));
  }

  lemma RootHasOne(root: Node)
    requires root.Dir?
    ensures Total(root, true) >= 1 + TotalOf(root.children)
  {
  }

  lemma ExactBytes(scan: Scan, filed: nat)
    requires scan.totalBytes + 65535 * scan.files == CLUSTER * filed
    ensures ContentBytes(scan) == CLUSTER * (filed + scan.dirs + 2) + (96 + 608 * (scan.files + scan.dirs))
  {
    assert PaddedFiles(scan) == CLUSTER * filed;
  }

  lemma Floor(n: nat, rest: nat)
    requires rest < CLUSTER
    ensures (CLUSTER * n + rest) / CLUSTER == n
  {
  }

  lemma {:induction false} NothingSmaller(c: Pfsc.Codec, input: seq<byte>, k: nat)
    requires k <= Pfsc.BlockCount(|input|) && forall b: seq<byte> :: |b| == CLUSTER ==> |c.compress(b)| >= CLUSTER
    ensures |Pfsc.Payload(c, input, k)| == k * CLUSTER
  {
    if k > 0 {
      NothingSmaller(c, input, k - 1);
    }
  }

  /**
   * The bound is reached: a tree of few nodes whose files are one byte longer than whole clusters, packed without any
   * block getting smaller, needs all of the estimate.
   */
  lemma BoundReached(root: Node, scan: Scan, c: Pfsc.Codec, image: seq<byte>)
    requires Scanned(root) && Counts(scan, root)
    requires AllOneOver(root.children) && 96 + 608 * (scan.files + scan.dirs) < CLUSTER
    requires forall b: seq<byte> :: |b| == CLUSTER ==> |c.compress(b)| >= CLUSTER
    requires |image| == ImageSize(root) && Fits(scan)
    ensures ImageSize(root) + (6 * CLUSTER + |Pfsc.Image(c, image)|) == Peak(scan)
  {
    hide Bitmap, FatSectors, Total, AllNamed, Nodes, AllOneOver, SizeOf, FilesOf, DirsOf, Pfsc.DataOffset, Pfsc.Image,
      Pfsc.Payload, ContentClusters;
    ContentReached(root, scan);
    ImageBytesShape(Content(root));
    WholeBlocks(|image|);
    NothingSmaller(c, image, Pfsc.BlockCount(|image|));
  }

  /** An image whose offset table fits has far fewer clusters than the 32-bit limit. */
  lemma NoWrap(root: Node)
    requires Content(root) <= MAX_CONTENT && TableFits(ImageSize(root))
    ensures FatSectors32(ClusterCount(root) + 2) == FatSectors(ClusterCount(root) + 2)
  {
    hide Bitmap, Total;
    FatSectorsExact(ClusterCount(root) + 2);
  }

  /** One file of 2^30 clusters. */
  function Huge(): Node { Dir([0x2F], [File([0x61], Zeros(0x4000_0000 * CLUSTER))]) }

  lemma HugeContent()
    ensures Scanned(Huge()) && Content(Huge()) == 0x4000_0002
  {
    var file := Huge().children[0];
    assert Huge().children == [file] && [file][1..] == [];
    assert TotalOf([]) == 0 && NodesOf([]) == 0 && EntriesOf([]) == 0;
    assert EntriesOf([file]) == 3 && Total(file, false) == 0x4000_0000;
    assert TotalOf([file]) == 0x4000_0000 && NodesOf([file]) == 1;
  }

  /**
   * Without the estimate the writer can wrap: for one file of 2^30 clusters, which the scan and the content
   * limit admit, it computes a FAT of 128 sectors where 0x80_0080 are needed.
   */
  lemma WriterWrapsAlone()
    ensures Scanned(Huge()) && Content(Huge()) <= MAX_CONTENT
    ensures FatSectors32(ClusterCount(Huge()) + 2) == 128
    ensures FatSectors(ClusterCount(Huge()) + 2) == 0x80_0080
  {
    hide Total, Huge;
    HugeContent();
    BitmapLeast(0x4000_0002);
    assert Need(0x4000_0002, 2049) == 2049;
    assert Bitmap(0x4000_0002) == 2049;
  }

  /** A granted estimate keeps the FAT of the tree clear of the wrap. */
  lemma GrantedFits(root: Node, scan: Scan)
    requires Scanned(root) && Covers(scan, root) && Fits(scan)
    ensures Content(root) <= MAX_CONTENT && 4 * (ClusterCount(root) + 2) + 511 < WORD32
  {
    hide Bitmap, FatSectors, FatSectors32, Total;
    var content := ContentClusters(scan);
    ContentBound(root, scan);
    ImageMonotone(Content(root), content);
    ImageBytesShape(content);
    ImageBytesShape(Content(root));
    NoWrap(root);
    BitmapSmall(Content(root));
    FatSectorsExact(ClusterCount(root) + 2);
  }

  /** Directory entry counts of an admitted tree, times 32, fit 32 bits. */
  lemma DirectoryFits(children: seq<Node>, isRoot: bool)
    requires AllNamed(children) && |children| <= MAX_NODES
    ensures 32 * DirEntries(children, isRoot) + 65535 < WORD32
  {
    EntriesBound(children);
  }
}
