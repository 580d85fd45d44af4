/** The conversion of real source trees: the machine instantiated with the exFAT writer's plan. */
module EndToEnd {
  import opened Bytes
  import opened Disks
  import ExfatDirectory
  import ExfatLayout
  import ExfatVolume
  import ExfatWriter
  import ExfatReader
  import Workspace
  import Pfsc
  import Conversion
  import ConversionProgress
  import ConversionProof
  import Resume

  /** What a fingerprint stands for, and the PFS metadata written in front of the stream. */
  datatype Setting = Setting(
    c: Pfsc.Codec,
    tree: nat -> ExfatLayout.Node,
    upcase: seq<byte>,
    front: (seq<byte>, nat, nat) -> seq<byte>)

  ghost predicate Sensible(g: Setting) {
    && Pfsc.Lossless(g.c) && |g.upcase| == ExfatVolume.UPCASE_SIZE
    && (forall fp :: g.tree(fp).Dir?)
    && (forall name, a, b ::
        |g.front(name, a, b)| == Conversion.BASE && Blank(g.front(name, a, b), Conversion.MetaGap()))
  }

  /** The assumptions can be met: a codec that stores, one empty directory, blank metadata. */
  lemma SettingExists() returns (g: Setting)
    ensures Sensible(g)
  {
    g := Setting(Pfsc.Codec(b => b, b => Some(b)), _ => ExfatLayout.Dir([0x2F], []), Zeros(ExfatVolume.UPCASE_SIZE),
                 (_, _, _) => Zeros(Conversion.BASE));
  }

  function ImageOf(g: Setting, fp: nat): seq<byte> {
    if |g.upcase| == ExfatVolume.UPCASE_SIZE then ExfatVolume.Image(g.tree(fp), g.upcase) else []
  }

  function PrologueOf(g: Setting, fp: nat): seq<(nat, nat)> {
    if g.tree(fp).Dir? then ExfatWriter.Prologue(g.tree(fp)) else []
  }

  function FilesOf(g: Setting, fp: nat): seq<(nat, nat)> {
    if g.tree(fp).Dir? then ExfatWriter.Files(g.tree(fp)) else []
  }

  function Plan(g: Setting): Conversion.World {
    Conversion.World(g.c, fp => ImageOf(g, fp), fp => PrologueOf(g, fp), fp => FilesOf(g, fp), g.front)
  }

  /** The writer's extents make a plan the crash-safety results apply to. */
  lemma PlanValid(g: Setting)
    requires Sensible(g)
    ensures Conversion.ValidWorld(Plan(g))
  {
    hide ExfatVolume.Image, ExfatWriter.Prologue, ExfatWriter.Files, ExfatLayout.ImageSize;
    var w := Plan(g);
    assert Pfsc.Lossless(w.c);
    forall fp: nat
      ensures ValidExtents(w.prologue(fp), |w.image(fp)|)
      ensures ValidExtents(w.files(fp), |w.image(fp)|)
    {
      ExfatWriter.VolumeTiled(g.tree(fp), 0);
      assert w.prologue(fp) == ExfatWriter.Prologue(g.tree(fp)) && w.files(fp) == ExfatWriter.Files(g.tree(fp));
    }
    forall fp: nat, p: nat | p < |w.image(fp)|
      ensures InSome(p, w.prologue(fp), 0, |w.prologue(fp)|) || InSome(p, w.files(fp), 0, |w.files(fp)|)
    {
      ExfatWriter.VolumeTiled(g.tree(fp), p);
      assert w.prologue(fp) == ExfatWriter.Prologue(g.tree(fp)) && w.files(fp) == ExfatWriter.Files(g.tree(fp));
    }
  }

  lemma ImageIsWhole(g: Setting, fp: nat)
    requires Sensible(g) && ExfatReader.NoWrap(g.tree(fp))
    ensures |ImageOf(g, fp)| == Pfsc.BlockCount(|ImageOf(g, fp)|) * Pfsc.BLOCK
  {
    hide ExfatVolume.Image, ExfatLayout.ClusterCount, ExfatLayout.FatSectors;
    var root := g.tree(fp);
    var clusters := ExfatLayout.ClusterCount(root);
    SectorsWhole(clusters + 2);
    assert |ImageOf(g, fp)| == 512 * (128 + ExfatLayout.FatSectors(clusters + 2) + 128 * clusters);
  }

  lemma SectorsWhole(entries: nat)
    ensures ExfatLayout.FatSectors(entries) % 128 == 0
  {
  }

  /** What a reader finds in a published file that the verifier accepts. */
  ghost function ReadBack(g: Setting, o: seq<byte>, depth: nat): Option<ExfatLayout.Node>
    requires Pfsc.Accepts(g.c, o, Conversion.BASE)
  {
    ExfatReader.ReadImage(Pfsc.Unpacked(g.c, o, Conversion.BASE, Pfsc.Blocks(o, Conversion.BASE)), depth)
  }

  /**
   * End to end: over every run with crashes and restarts anywhere, a file under the final name
   * verifies, unpacks to an exFAT image, and a reader of that image recovers the captured source
   * tree: every name, kind, size and content.
   */
  lemma ConvertedTreeRecovered(g: Setting, run: seq<Conversion.State>, k: nat, depth: nat)
    requires Sensible(g) && ConversionProof.IsRun(Plan(g), run) && k < |run| && run[k].output.Some?
    requires var root := g.tree(run[k].journal.fingerprint);
             root.name == [0x2F] && ExfatReader.AllFine(root.children) && ExfatReader.Nested(root, depth)
                 && ExfatReader.NoWrap(root)
    ensures var o, root := run[k].output.value, g.tree(run[k].journal.fingerprint);
            && Pfsc.Accepts(g.c, o, Conversion.BASE)
            && ReadBack(g, o, depth) == Some(root)
  {
    hide ExfatVolume.Image, ExfatReader.ReadImage, Pfsc.Accepts, Pfsc.Unpacked, Conversion.ValidWorld,
      ConversionProof.IsRun, ExfatReader.NoWrap, Pfsc.BlockCount;
    var fp := run[k].journal.fingerprint;
    PlanValid(g);
    ConversionProof.OutputUnpacks(Plan(g), run, k);
    ImageIsWhole(g, fp);
    ExfatReader.ImageRoundTrip(g.tree(fp), g.upcase, depth);
    var image := ImageOf(g, fp);
    assert image + Zeros(Pfsc.BlockCount(|image|) * Pfsc.BLOCK - |image|) == image;
  }

  /** Names the reader decodes without an up-case table. */
  predicate AsciiNames(ns: seq<ExfatLayout.Node>)
    decreases ns, 0
  {
    ns == [] || (AsciiName(ns[0]) && AsciiNames(ns[1..]))
  }

  predicate AsciiName(n: ExfatLayout.Node)
    decreases n, 1
  {
    ExfatDirectory.Ascii(n.name) && (n.Dir? ==> AsciiNames(n.children))
  }

  lemma {:induction false} ScannedFine(n: ExfatLayout.Node)
    requires ExfatLayout.Named(n) && AsciiName(n)
    ensures ExfatReader.Fine(n)
    decreases n, 1
  {
    if n.Dir? { ScannedAllFine(n.children); }
  }

  lemma {:induction false} ScannedAllFine(ns: seq<ExfatLayout.Node>)
    requires ExfatLayout.AllNamed(ns) && AsciiNames(ns)
    ensures ExfatReader.AllFine(ns)
    decreases ns, 0
  {
    if ns != [] {
      ScannedFine(ns[0]);
      ScannedAllFine(ns[1..]);
    }
  }

  lemma OutputSize(g: Setting, run: seq<Conversion.State>, k: nat)
    requires Sensible(g) && ConversionProof.IsRun(Plan(g), run) && k < |run| && run[k].output.Some?
    ensures var image := ImageOf(g, run[k].journal.fingerprint);
            && |image| == ExfatLayout.ImageSize(g.tree(run[k].journal.fingerprint))
            && |run[k].output.value| == Conversion.BASE + |Pfsc.Image(g.c, image)|
  {
    hide ExfatVolume.Image, Conversion.ValidWorld, ConversionProof.IsRun, Conversion.Published, Pfsc.Image,
      ExfatLayout.ImageSize;
    PlanValid(g);
    ConversionProof.CrashSafety(Plan(g), run, k);
    ConversionProof.TargetShape(Plan(g), run[k].journal);
  }

  lemma OutputInEstimate(g: Setting, scan: Workspace.Scan, run: seq<Conversion.State>, k: nat)
    requires Sensible(g) && ConversionProof.IsRun(Plan(g), run) && k < |run| && run[k].output.Some?
    requires var root := g.tree(run[k].journal.fingerprint);
             ExfatLayout.Scanned(root) && Workspace.Covers(scan, root) && Workspace.Fits(scan)
    ensures ExfatLayout.ImageSize(g.tree(run[k].journal.fingerprint)) + |run[k].output.value| <= Workspace.Peak(scan)
  {
    hide Sensible, ConversionProof.IsRun, Workspace.Peak, ExfatLayout.ImageSize, ExfatLayout.Scanned, ImageOf,
      Pfsc.Image;
    OutputSize(g, run, k);
    Workspace.WorkspaceBound(g.tree(run[k].journal.fingerprint), scan, g.c, ImageOf(g, run[k].journal.fingerprint));
  }

  /**
   * From the estimate to the reader: if the workspace estimate was granted for a scan of the captured tree, then
   * over every run a file under the final name unpacks to an image from which a reader recovers that tree, and
   * stage and file fit in the estimated space together.
   */
  lemma GrantedTreeRecovered(g: Setting, scan: Workspace.Scan, run: seq<Conversion.State>, k: nat, depth: nat)
    requires Sensible(g) && ConversionProof.IsRun(Plan(g), run) && k < |run| && run[k].output.Some?
    requires var root := g.tree(run[k].journal.fingerprint);
             && ExfatLayout.Scanned(root) && Workspace.Covers(scan, root) && Workspace.Fits(scan)
             && root.name == [0x2F] && AsciiNames(root.children) && ExfatReader.Nested(root, depth)
    ensures var o, root := run[k].output.value, g.tree(run[k].journal.fingerprint);
            && Pfsc.Accepts(g.c, o, Conversion.BASE)
            && ReadBack(g, o, depth) == Some(root)
            && ExfatLayout.ImageSize(root) + |o| <= Workspace.Peak(scan)
  {
    hide ExfatReader.ReadImage, Pfsc.Accepts, Pfsc.Unpacked, ConversionProof.IsRun, Sensible, Workspace.Covers,
      Workspace.Fits, ExfatReader.AllFine, AsciiNames, Workspace.Peak, ExfatLayout.ImageSize, ExfatReader.Nested;
    var root := g.tree(run[k].journal.fingerprint);
    OutputInEstimate(g, scan, run, k);
    Workspace.GrantedFits(root, scan);
    ScannedAllFine(root.children);
    ConvertedTreeRecovered(g, run, k, depth);
  }

  /** Every undisturbed run is a run. */
  lemma CalmIsRun(w: Conversion.World, run: seq<Conversion.State>)
    requires ConversionProgress.IsCalm(w, run) && Conversion.Init(run[0])
    ensures run != [] && ConversionProof.IsRun(w, run)
  {
    hide Conversion.StartStep, Conversion.ExfatStep, Conversion.PackStep, Conversion.PublishStep;
    forall k | 0 <= k < |run| - 1 ensures Conversion.Next(w, run[k], run[k + 1]) {
      assert ConversionProgress.Calm(w, run[k], run[k + 1]);
    }
  }

  lemma FreshIsStartable(w: Conversion.World, s: Conversion.State)
    requires Conversion.Init(s) && s.source != 0 && Pfsc.Packable(|w.image(s.source)|)
    ensures ConversionProgress.Underway(w, s) && ConversionProgress.Goal(s) == (s.source, s.title)
  {
    hide Pfsc.Packable, Conversion.Target;
  }

  lemma GrantedPackable(g: Setting, scan: Workspace.Scan, fp: nat)
    requires Sensible(g)
    requires ExfatLayout.Scanned(g.tree(fp)) && Workspace.Covers(scan, g.tree(fp)) && Workspace.Fits(scan)
    ensures Pfsc.Packable(|Plan(g).image(fp)|)
  {
    hide Workspace.Covers, Workspace.Fits, Workspace.Peak, ExfatLayout.Scanned, Pfsc.Packable, Pfsc.Image,
      ExfatVolume.Image, ExfatLayout.ImageSize;
    assert |ImageOf(g, fp)| == ExfatLayout.ImageSize(g.tree(fp));
    Workspace.WorkspaceBound(g.tree(fp), scan, g.c, ImageOf(g, fp));
  }

  /**
   * From the folder to the file: a fresh conversion of a source whose estimate was granted can be left alone; it
   * publishes, under the final name, a file from whose image a reader recovers the source tree.
   */
  lemma GrantedConversionPublishes(g: Setting, scan: Workspace.Scan, s: Conversion.State, depth: nat)
    returns (run: seq<Conversion.State>)
    requires Sensible(g) && Conversion.Init(s) && s.source != 0
    requires var root := g.tree(s.source);
             && ExfatLayout.Scanned(root) && Workspace.Covers(scan, root) && Workspace.Fits(scan)
             && root.name == [0x2F] && AsciiNames(root.children) && ExfatReader.Nested(root, depth)
    ensures ConversionProgress.IsCalm(Plan(g), run) && run[0] == s
    ensures var t := run[|run| - 1];
            && t.journal.phase == Resume.Done && t.output.Some? && Pfsc.Accepts(g.c, t.output.value, Conversion.BASE)
            && ReadBack(g, t.output.value, depth) == Some(g.tree(s.source))
  {
    hide Sensible, ExfatReader.ReadImage, Pfsc.Accepts, Pfsc.Unpacked, Conversion.ValidWorld, Conversion.Init,
      ConversionProgress.Underway, ConversionProgress.IsCalm, ConversionProof.IsRun, Pfsc.Packable, Plan,
      Workspace.Covers, Workspace.Fits, ExfatLayout.Scanned, AsciiNames, ExfatReader.Nested, Workspace.Peak;
    var w := Plan(g);
    PlanValid(g);
    GrantedPackable(g, scan, s.source);
    FreshIsStartable(w, s);
    run := ConversionProgress.Publishes(w, s);
    CalmIsRun(w, run);
    DoneOutput(w, run[|run| - 1], ConversionProgress.Goal(s));
    GrantedTreeRecovered(g, scan, run, |run| - 1, depth);
  }

  lemma DoneOutput(w: Conversion.World, s: Conversion.State, goal: (nat, seq<byte>))
    requires ConversionProgress.Done(w, s, goal)
    ensures s.output.Some? && s.journal.fingerprint == goal.0 && s.journal.phase == Resume.Done
  {
  }
}
