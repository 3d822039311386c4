/**
 * The missing-file auditor of check_missing.py. It walks the collector's grid
 * against a reference tree and an input tree and prints a message for every
 * missing input it is responsible for:
 *
 *   - a run whose reference directory does not exist is skipped silently;
 *   - a run whose input directory does not exist gets one
 *     `Missing input directory` message and nothing else;
 *   - a gene-tree type whose `g_{type}.trees` is not in the reference run is
 *     skipped silently;
 *   - a missing STRIDE score gets one `Missing file` message, and the DISCO
 *     scores of that (type, gene count, tree) are not examined;
 *   - otherwise every missing DISCO score gets one `Missing file` message.
 *
 * The file system is a value, so the auditor cannot change it. The
 * specification is the sequence of sites (run, check) that report, in loop
 * order; the printed messages are their rendering.
 */
module Auditor {
  import opened Seqs
  import opened Decimal
  import opened Grid

  /** What the script prints: `Missing input directory: {dir}` or `Missing file: {file}`. */
  datatype Message = MissingInputDirectory(dir: Path) | MissingFile(file: Path)

  function MessagePath(m: Message): Path
  {
    match m
    case MissingInputDirectory(dir) => dir
    case MissingFile(file) => file
  }

  /** The unrooted species trees whose STRIDE and DISCO scores are checked. */
  const AUDITED_TREES: seq<UnrootedTree> := [Astral, Astrid, Trues]

  /** A check within a run that can report a message. */
  datatype Check =
    | InputRun
    | Stride(t: GeneTrees, n: nat, u: UnrootedTree)
    | Disco(t: GeneTrees, n: nat, u: UnrootedTree, rt: Rooting, mult: nat)

  /** A place where a message can be reported: a run and a check in it. */
  datatype Site = Site(k: RunKey, check: Check)

  function StridePath(inp: Path, k: RunKey, t: GeneTrees, n: nat, u: UnrootedTree): Path
  {
    StrideScorePath(RunDir(inp, k), t, n, u)
  }

  /** The path the message of a site names. */
  function SitePath(inp: Path, s: Site): Path
  {
    match s.check
    case InputRun => RunDir(inp, s.k)
    case Stride(t, n, u) => StridePath(inp, s.k, t, n, u)
    case Disco(t, n, u, rt, mult) => DiscoScorePath(RunDir(inp, s.k), t, n, u, rt, mult)
  }

  function SiteMessage(inp: Path, s: Site): Message
  {
    if s.check.InputRun? then MissingInputDirectory(SitePath(inp, s)) else MissingFile(SitePath(inp, s))
  }

  /** The messages of a sequence of sites, in order. */
  function Render(inp: Path, sites: seq<Site>): seq<Message>
  {
    Map(sites, s => SiteMessage(inp, s))
  }

  // ---------------------------------------------------------------------------
  // Which sites report: the reference description.

  predicate CheckInGrid(c: Check)
  {
    match c
    case InputRun => true
    case Stride(t, n, u) => t in GENE_TREE_TYPES && n in GENE_COUNTS && u in AUDITED_TREES
    case Disco(t, n, u, rt, mult) =>
      t in GENE_TREE_TYPES && n in GENE_COUNTS && u in AUDITED_TREES && rt in ROOTINGS && mult in MULTIPLICITIES
  }

  /** The rooting and multiplicity of a DISCO check are among those examined. */
  predicate DiscoInGrid(c: Check)
  {
    c.Disco? ==> c.rt in ROOTINGS && c.mult in MULTIPLICITIES
  }

  /** The multiplicity of a DISCO check, 0 for the others. */
  function MultOf(c: Check): nat
  {
    if c.Disco? then c.mult else 0
  }

  /** The gene count of a file check, 0 for the input-run check. */
  function GenesOf(c: Check): nat
  {
    if c.InputRun? then 0 else c.n
  }

  /** A file check flags its file: the STRIDE score is missing, or the STRIDE
      score exists and the DISCO score is missing. */
  predicate Flagged(fs: FileSystem, inp: Path, s: Site)
  {
    match s.check
    case InputRun => false
    case Stride(t, n, u) => !fs.IsFile(StridePath(inp, s.k, t, n, u))
    case Disco(t, n, u, rt, mult) => fs.IsFile(StridePath(inp, s.k, t, n, u)) && !fs.IsFile(SitePath(inp, s))
  }

  /** Within its run, a site reports when the reference run directory exists
      and either the input run directory does not (the input-run check), or it
      does, the reference run holds the gene trees of the check's type, and
      the file check flags its file. */
  predicate Gates(fs: FileSystem, ref: Path, inp: Path, s: Site)
  {
    && CheckInGrid(s.check)
    && fs.Exists(RunDir(ref, s.k))
    && if s.check.InputRun? then !fs.Exists(RunDir(inp, s.k))
       else fs.Exists(RunDir(inp, s.k)) && fs.IsFile(GeneTreesFile(RunDir(ref, s.k), s.check.t)) && Flagged(fs, inp, s)
  }

  /** The sites of the grid that report. */
  predicate Reported(fs: FileSystem, ref: Path, inp: Path, s: Site)
  {
    InGrid(s.k) && Gates(fs, ref, inp, s)
  }

  // ---------------------------------------------------------------------------
  // What the loop nest reports, level by level.

  /** Lines 95-97 of the script: a DISCO score is reported when it is not a file. */
  function DiscoCheck(fs: FileSystem, inp: Path, s: Site): seq<Site>
  {
    if fs.IsFile(SitePath(inp, s)) then [] else [s]
  }

  function RootingSites(fs: FileSystem, inp: Path, k: RunKey, t: GeneTrees, n: nat, u: UnrootedTree, rt: Rooting)
    : seq<Site>
  {
    FlatMap(MULTIPLICITIES, mult => DiscoCheck(fs, inp, Site(k, Disco(t, n, u, rt, mult))))
  }

  /** A missing STRIDE score is reported alone; otherwise the DISCO scores. */
  function TreeSites(fs: FileSystem, inp: Path, k: RunKey, t: GeneTrees, n: nat, u: UnrootedTree): seq<Site>
  {
    if !fs.IsFile(StridePath(inp, k, t, n, u)) then [Site(k, Stride(t, n, u))]
    else FlatMap(ROOTINGS, rt => RootingSites(fs, inp, k, t, n, u, rt))
  }

  function GenesSites(fs: FileSystem, inp: Path, k: RunKey, t: GeneTrees, n: nat): seq<Site>
  {
    FlatMap(AUDITED_TREES, u => TreeSites(fs, inp, k, t, n, u))
  }

  /** A gene-tree type the reference run has no trees for is skipped. */
  function GeneTreesSites(fs: FileSystem, ref: Path, inp: Path, k: RunKey, t: GeneTrees): seq<Site>
  {
    if !fs.IsFile(GeneTreesFile(RunDir(ref, k), t)) then []
    else FlatMap(GENE_COUNTS, n => GenesSites(fs, inp, k, t, n))
  }

  /** A run missing from the reference is skipped; a run missing from the
      input is reported alone. */
  function RunSites(fs: FileSystem, ref: Path, inp: Path, k: RunKey): seq<Site>
  {
    if !fs.Exists(RunDir(ref, k)) then []
    else if !fs.Exists(RunDir(inp, k)) then [Site(k, InputRun)]
    else FlatMap(GENE_TREE_TYPES, t => GeneTreesSites(fs, ref, inp, k, t))
  }

  function SpeciesSites(fs: FileSystem, ref: Path, inp: Path, h: bool, l: nat, d: string, n: nat): seq<Site>
  {
    FlatMap(RUN_IDS, run => RunSites(fs, ref, inp, RunKey(h, l, d, n, run)))
  }

  function DupSites(fs: FileSystem, ref: Path, inp: Path, h: bool, l: nat, d: string): seq<Site>
  {
    FlatMap(SPECIES_COUNTS, n => SpeciesSites(fs, ref, inp, h, l, d, n))
  }

  function LossSites(fs: FileSystem, ref: Path, inp: Path, h: bool, l: nat): seq<Site>
  {
    FlatMap(DUP_RATES, d => DupSites(fs, ref, inp, h, l, d))
  }

  function HilsSites(fs: FileSystem, ref: Path, inp: Path, h: bool): seq<Site>
  {
    FlatMap(LOSS_INDICATORS, l => LossSites(fs, ref, inp, h, l))
  }

  /** Every reporting site, in loop order. */
  function AuditSites(fs: FileSystem, ref: Path, inp: Path): seq<Site>
  {
    FlatMap(HILS_VALUES, h => HilsSites(fs, ref, inp, h))
  }

  /** Everything the script prints, in order. */
  function Audit(fs: FileSystem, ref: Path, inp: Path): seq<Message>
  {
    Render(inp, AuditSites(fs, ref, inp))
  }

  // ---------------------------------------------------------------------------
  // Each level: no site twice, and exactly which sites it holds.

  lemma RootingSitesMembers(fs: FileSystem, inp: Path, k: RunKey, t: GeneTrees, n: nat, u: UnrootedTree, rt: Rooting)
    ensures NoDup(RootingSites(fs, inp, k, t, n, u, rt))
    ensures forall s: Site :: s in RootingSites(fs, inp, k, t, n, u, rt) <==>
      s.k == k && s.check.Disco? && s.check.t == t && s.check.n == n && s.check.u == u && s.check.rt == rt
      && s.check.mult in MULTIPLICITIES && !fs.IsFile(SitePath(inp, s))
  {
    var f := mult => DiscoCheck(fs, inp, Site(k, Disco(t, n, u, rt, mult)));
    assert NoDup(MULTIPLICITIES);
    FlatMapNoDup(MULTIPLICITIES, f, (s: Site) => MultOf(s.check));
    forall s: Site ensures s in FlatMap(MULTIPLICITIES, f) <==>
      s.k == k && s.check.Disco? && s.check.t == t && s.check.n == n && s.check.u == u && s.check.rt == rt
      && s.check.mult in MULTIPLICITIES && !fs.IsFile(SitePath(inp, s))
    {
      FlatMapMember(MULTIPLICITIES, f, s);
      if s.check.Disco? && s.check.mult in MULTIPLICITIES {
        assert s in f(s.check.mult) <==> (s.k == k && s.check.t == t && s.check.n == n && s.check.u == u
          && s.check.rt == rt && !fs.IsFile(SitePath(inp, s)));
      }
    }
  }

  lemma TreeSitesMembers(fs: FileSystem, inp: Path, k: RunKey, t: GeneTrees, n: nat, u: UnrootedTree)
    ensures NoDup(TreeSites(fs, inp, k, t, n, u))
    ensures forall s: Site :: s in TreeSites(fs, inp, k, t, n, u) <==>
      s.k == k && !s.check.InputRun? && s.check.t == t && s.check.n == n && s.check.u == u
      && DiscoInGrid(s.check) && Flagged(fs, inp, s)
  {
    if fs.IsFile(StridePath(inp, k, t, n, u)) {
      var f := rt => RootingSites(fs, inp, k, t, n, u, rt);
      forall rt | rt in ROOTINGS
        ensures NoDup(f(rt))
        ensures forall s: Site :: s in f(rt) <==>
          s.k == k && s.check.Disco? && s.check.t == t && s.check.n == n && s.check.u == u && s.check.rt == rt
          && s.check.mult in MULTIPLICITIES && !fs.IsFile(SitePath(inp, s))
      {
        RootingSitesMembers(fs, inp, k, t, n, u, rt);
      }
      assert NoDup(ROOTINGS);
      FlatMapNoDup(ROOTINGS, f, (s: Site) => if s.check.Disco? then s.check.rt else QR);
      forall s: Site ensures s in FlatMap(ROOTINGS, f) <==>
        s.k == k && !s.check.InputRun? && s.check.t == t && s.check.n == n && s.check.u == u
        && DiscoInGrid(s.check) && Flagged(fs, inp, s)
      {
        FlatMapMember(ROOTINGS, f, s);
        if s.check.Disco? && s.check.rt in ROOTINGS {
          assert s in f(s.check.rt) <==> (s.k == k && s.check.t == t && s.check.n == n && s.check.u == u
            && s.check.mult in MULTIPLICITIES && !fs.IsFile(SitePath(inp, s)));
        }
      }
    }
  }

  lemma GenesSitesMembers(fs: FileSystem, inp: Path, k: RunKey, t: GeneTrees, n: nat)
    ensures NoDup(GenesSites(fs, inp, k, t, n))
    ensures forall s: Site :: s in GenesSites(fs, inp, k, t, n) <==>
      s.k == k && !s.check.InputRun? && s.check.t == t && s.check.n == n && s.check.u in AUDITED_TREES
      && DiscoInGrid(s.check) && Flagged(fs, inp, s)
  {
    var f := u => TreeSites(fs, inp, k, t, n, u);
    forall u | u in AUDITED_TREES
      ensures NoDup(f(u))
      ensures forall s: Site :: s in f(u) <==>
        s.k == k && !s.check.InputRun? && s.check.t == t && s.check.n == n && s.check.u == u
        && DiscoInGrid(s.check) && Flagged(fs, inp, s)
    {
      TreeSitesMembers(fs, inp, k, t, n, u);
    }
    assert NoDup(AUDITED_TREES);
    FlatMapNoDup(AUDITED_TREES, f, (s: Site) => if s.check.InputRun? then Astral else s.check.u);
    forall s: Site ensures s in FlatMap(AUDITED_TREES, f) <==>
      s.k == k && !s.check.InputRun? && s.check.t == t && s.check.n == n && s.check.u in AUDITED_TREES
      && DiscoInGrid(s.check) && Flagged(fs, inp, s)
    {
      FlatMapMember(AUDITED_TREES, f, s);
      if !s.check.InputRun? && s.check.u in AUDITED_TREES {
        assert s in f(s.check.u) <==> (s.k == k && s.check.t == t && s.check.n == n
          && DiscoInGrid(s.check) && Flagged(fs, inp, s));
      }
    }
  }

  lemma GeneTreesSitesMembers(fs: FileSystem, ref: Path, inp: Path, k: RunKey, t: GeneTrees)
    ensures NoDup(GeneTreesSites(fs, ref, inp, k, t))
    ensures forall s: Site :: s in GeneTreesSites(fs, ref, inp, k, t) <==>
      s.k == k && !s.check.InputRun? && s.check.t == t && s.check.n in GENE_COUNTS && s.check.u in AUDITED_TREES
      && DiscoInGrid(s.check) && fs.IsFile(GeneTreesFile(RunDir(ref, k), t)) && Flagged(fs, inp, s)
  {
    if fs.IsFile(GeneTreesFile(RunDir(ref, k), t)) {
      var f := n => GenesSites(fs, inp, k, t, n);
      forall n | n in GENE_COUNTS
        ensures NoDup(f(n))
        ensures forall s: Site :: s in f(n) <==>
          s.k == k && !s.check.InputRun? && s.check.t == t && s.check.n == n && s.check.u in AUDITED_TREES
          && DiscoInGrid(s.check) && Flagged(fs, inp, s)
      {
        GenesSitesMembers(fs, inp, k, t, n);
      }
      GridListsDistinct();
      FlatMapNoDup(GENE_COUNTS, f, (s: Site) => GenesOf(s.check));
      forall s: Site ensures s in FlatMap(GENE_COUNTS, f) <==>
        s.k == k && !s.check.InputRun? && s.check.t == t && s.check.n in GENE_COUNTS
        && s.check.u in AUDITED_TREES && DiscoInGrid(s.check) && Flagged(fs, inp, s)
      {
        FlatMapMember(GENE_COUNTS, f, s);
        if !s.check.InputRun? && s.check.n in GENE_COUNTS {
          assert s in f(s.check.n) <==> (s.k == k && s.check.t == t && s.check.u in AUDITED_TREES
            && DiscoInGrid(s.check) && Flagged(fs, inp, s));
        }
      }
    }
  }

  lemma RunSitesMembers(fs: FileSystem, ref: Path, inp: Path, k: RunKey)
    ensures NoDup(RunSites(fs, ref, inp, k))
    ensures forall s: Site :: s in RunSites(fs, ref, inp, k) <==> s.k == k && Gates(fs, ref, inp, s)
  {
    if fs.Exists(RunDir(ref, k)) && fs.Exists(RunDir(inp, k)) {
      var f := t => GeneTreesSites(fs, ref, inp, k, t);
      forall t | t in GENE_TREE_TYPES
        ensures NoDup(f(t))
        ensures forall s: Site :: s in f(t) <==>
          s.k == k && !s.check.InputRun? && s.check.t == t && s.check.n in GENE_COUNTS
          && s.check.u in AUDITED_TREES && DiscoInGrid(s.check) && fs.IsFile(GeneTreesFile(RunDir(ref, k), t))
          && Flagged(fs, inp, s)
      {
        GeneTreesSitesMembers(fs, ref, inp, k, t);
      }
      GridListsDistinct();
      FlatMapNoDup(GENE_TREE_TYPES, f, (s: Site) => if s.check.InputRun? then TrueGeneTrees else s.check.t);
      forall s: Site ensures s in FlatMap(GENE_TREE_TYPES, f) <==> s.k == k && Gates(fs, ref, inp, s) {
        FlatMapMember(GENE_TREE_TYPES, f, s);
        if !s.check.InputRun? && s.check.t in GENE_TREE_TYPES {
          assert s in f(s.check.t) <==> s.k == k && Gates(fs, ref, inp, s);
        }
      }
    }
  }

  lemma SpeciesSitesMembers(fs: FileSystem, ref: Path, inp: Path, h: bool, l: nat, d: string, n: nat)
    ensures NoDup(SpeciesSites(fs, ref, inp, h, l, d, n))
    ensures forall s: Site :: s in SpeciesSites(fs, ref, inp, h, l, d, n) <==>
      s.k.hILS == h && s.k.lossIndicator == l && s.k.dupRate == d && s.k.species == n && s.k.run in RUN_IDS
      && Gates(fs, ref, inp, s)
  {
    var f := run => RunSites(fs, ref, inp, RunKey(h, l, d, n, run));
    forall run | run in RUN_IDS
      ensures NoDup(f(run))
      ensures forall s: Site :: s in f(run) <==> s.k == RunKey(h, l, d, n, run) && Gates(fs, ref, inp, s)
    {
      RunSitesMembers(fs, ref, inp, RunKey(h, l, d, n, run));
    }
    GridListsDistinct();
    FlatMapNoDup(RUN_IDS, f, (s: Site) => s.k.run);
    forall s: Site ensures s in FlatMap(RUN_IDS, f) <==>
      s.k.hILS == h && s.k.lossIndicator == l && s.k.dupRate == d && s.k.species == n && s.k.run in RUN_IDS
      && Gates(fs, ref, inp, s)
    {
      FlatMapMember(RUN_IDS, f, s);
      if s.k.run in RUN_IDS {
        assert s in f(s.k.run) <==> (s.k.hILS == h && s.k.lossIndicator == l && s.k.dupRate == d
          && s.k.species == n && Gates(fs, ref, inp, s));
      }
    }
  }

  lemma DupSitesMembers(fs: FileSystem, ref: Path, inp: Path, h: bool, l: nat, d: string)
    ensures NoDup(DupSites(fs, ref, inp, h, l, d))
    ensures forall s: Site :: s in DupSites(fs, ref, inp, h, l, d) <==>
      s.k.hILS == h && s.k.lossIndicator == l && s.k.dupRate == d && s.k.species in SPECIES_COUNTS
      && s.k.run in RUN_IDS && Gates(fs, ref, inp, s)
  {
    var f := n => SpeciesSites(fs, ref, inp, h, l, d, n);
    forall n | n in SPECIES_COUNTS
      ensures NoDup(f(n))
      ensures forall s: Site :: s in f(n) <==>
        s.k.hILS == h && s.k.lossIndicator == l && s.k.dupRate == d && s.k.species == n && s.k.run in RUN_IDS
        && Gates(fs, ref, inp, s)
    {
      SpeciesSitesMembers(fs, ref, inp, h, l, d, n);
    }
    GridListsDistinct();
    FlatMapNoDup(SPECIES_COUNTS, f, (s: Site) => s.k.species);
    forall s: Site ensures s in FlatMap(SPECIES_COUNTS, f) <==>
      s.k.hILS == h && s.k.lossIndicator == l && s.k.dupRate == d && s.k.species in SPECIES_COUNTS
      && s.k.run in RUN_IDS && Gates(fs, ref, inp, s)
    {
      FlatMapMember(SPECIES_COUNTS, f, s);
      if s.k.species in SPECIES_COUNTS {
        assert s in f(s.k.species) <==> (s.k.hILS == h && s.k.lossIndicator == l && s.k.dupRate == d
          && s.k.run in RUN_IDS && Gates(fs, ref, inp, s));
      }
    }
  }

  lemma LossSitesMembers(fs: FileSystem, ref: Path, inp: Path, h: bool, l: nat)
    ensures NoDup(LossSites(fs, ref, inp, h, l))
    ensures forall s: Site :: s in LossSites(fs, ref, inp, h, l) <==>
      s.k.hILS == h && s.k.lossIndicator == l && s.k.dupRate in DUP_RATES && s.k.species in SPECIES_COUNTS
      && s.k.run in RUN_IDS && Gates(fs, ref, inp, s)
  {
    var f := d => DupSites(fs, ref, inp, h, l, d);
    forall d | d in DUP_RATES
      ensures NoDup(f(d))
      ensures forall s: Site :: s in f(d) <==>
        s.k.hILS == h && s.k.lossIndicator == l && s.k.dupRate == d && s.k.species in SPECIES_COUNTS
        && s.k.run in RUN_IDS && Gates(fs, ref, inp, s)
    {
      DupSitesMembers(fs, ref, inp, h, l, d);
    }
    GridListsDistinct();
    FlatMapNoDup(DUP_RATES, f, (s: Site) => s.k.dupRate);
    forall s: Site ensures s in FlatMap(DUP_RATES, f) <==>
      s.k.hILS == h && s.k.lossIndicator == l && s.k.dupRate in DUP_RATES && s.k.species in SPECIES_COUNTS
      && s.k.run in RUN_IDS && Gates(fs, ref, inp, s)
    {
      FlatMapMember(DUP_RATES, f, s);
      if s.k.dupRate in DUP_RATES {
        assert s in f(s.k.dupRate) <==> (s.k.hILS == h && s.k.lossIndicator == l
          && s.k.species in SPECIES_COUNTS && s.k.run in RUN_IDS && Gates(fs, ref, inp, s));
      }
    }
  }

  lemma HilsSitesMembers(fs: FileSystem, ref: Path, inp: Path, h: bool)
    ensures NoDup(HilsSites(fs, ref, inp, h))
    ensures forall s: Site :: s in HilsSites(fs, ref, inp, h) <==>
      s.k.hILS == h && s.k.lossIndicator in LOSS_INDICATORS && s.k.dupRate in DUP_RATES
      && s.k.species in SPECIES_COUNTS && s.k.run in RUN_IDS && Gates(fs, ref, inp, s)
  {
    var f := l => LossSites(fs, ref, inp, h, l);
    forall l | l in LOSS_INDICATORS
      ensures NoDup(f(l))
      ensures forall s: Site :: s in f(l) <==>
        s.k.hILS == h && s.k.lossIndicator == l && s.k.dupRate in DUP_RATES && s.k.species in SPECIES_COUNTS
        && s.k.run in RUN_IDS && Gates(fs, ref, inp, s)
    {
      LossSitesMembers(fs, ref, inp, h, l);
    }
    GridListsDistinct();
    FlatMapNoDup(LOSS_INDICATORS, f, (s: Site) => s.k.lossIndicator);
    forall s: Site ensures s in FlatMap(LOSS_INDICATORS, f) <==>
      s.k.hILS == h && s.k.lossIndicator in LOSS_INDICATORS && s.k.dupRate in DUP_RATES
      && s.k.species in SPECIES_COUNTS && s.k.run in RUN_IDS && Gates(fs, ref, inp, s)
    {
      FlatMapMember(LOSS_INDICATORS, f, s);
      if s.k.lossIndicator in LOSS_INDICATORS {
        assert s in f(s.k.lossIndicator) <==> (s.k.hILS == h && s.k.dupRate in DUP_RATES
          && s.k.species in SPECIES_COUNTS && s.k.run in RUN_IDS && Gates(fs, ref, inp, s));
      }
    }
  }

  /** The reporting sites are exactly the sites of the grid that report, each once. */
  lemma AuditSitesMembers(fs: FileSystem, ref: Path, inp: Path)
    ensures NoDup(AuditSites(fs, ref, inp))
    ensures forall s: Site :: s in AuditSites(fs, ref, inp) <==> Reported(fs, ref, inp, s)
  {
    var f := h => HilsSites(fs, ref, inp, h);
    forall h | h in HILS_VALUES
      ensures NoDup(f(h))
      ensures forall s: Site :: s in f(h) <==>
        s.k.hILS == h && s.k.lossIndicator in LOSS_INDICATORS && s.k.dupRate in DUP_RATES
        && s.k.species in SPECIES_COUNTS && s.k.run in RUN_IDS && Gates(fs, ref, inp, s)
    {
      HilsSitesMembers(fs, ref, inp, h);
    }
    GridListsDistinct();
    FlatMapNoDup(HILS_VALUES, f, (s: Site) => s.k.hILS);
    forall s: Site ensures s in FlatMap(HILS_VALUES, f) <==> Reported(fs, ref, inp, s) {
      FlatMapMember(HILS_VALUES, f, s);
      assert s.k.hILS in HILS_VALUES;
      assert s in f(s.k.hILS) <==> Reported(fs, ref, inp, s);
    }
  }

  // ---------------------------------------------------------------------------
  // What the printed messages say.

  /** Two sites of the grid print the same message only if they are the same
      site: the three kinds of message name paths of different lengths, and
      each path names its run and its check. */
  lemma SiteMessageInjective(inp: Path, s: Site, s': Site)
    requires InGrid(s.k) && InGrid(s'.k)
    requires SiteMessage(inp, s) == SiteMessage(inp, s')
    ensures s == s'
  {
    GridDupRatesHaveNoUnderscore(s.k.dupRate);
    GridDupRatesHaveNoUnderscore(s'.k.dupRate);
    var p := SitePath(inp, s);
    assert p == SitePath(inp, s');
    var run, run' := RunDir(inp, s.k), RunDir(inp, s'.k);
    match s.check
    case InputRun =>
      assert s'.check.InputRun?;
      RunDirInjective(inp, s.k, s'.k);
    case Stride(t, n, u) =>
      assert |p| == |inp| + 7;
      assert s'.check.Stride?;
      StrideScorePathInjective(run, t, n, u, run', s'.check.t, s'.check.n, s'.check.u);
      RunDirInjective(inp, s.k, s'.k);
    case Disco(t, n, u, rt, mult) =>
      assert |p| == |inp| + 10;
      assert s'.check.Disco?;
      DiscoScorePathInjective(run, t, n, u, rt, mult, run', s'.check.t, s'.check.n, s'.check.u, s'.check.rt,
                              s'.check.mult);
      RunDirInjective(inp, s.k, s'.k);
  }

  /** The printed messages are exactly the messages of the sites of the grid
      that report, and no message is printed twice. */
  lemma AuditMembers(fs: FileSystem, ref: Path, inp: Path)
    ensures NoDup(Audit(fs, ref, inp))
    ensures forall m :: m in Audit(fs, ref, inp) <==> exists s :: Reported(fs, ref, inp, s) && m == SiteMessage(inp, s)
  {
    var sites := AuditSites(fs, ref, inp);
    var g := s => SiteMessage(inp, s);
    AuditSitesMembers(fs, ref, inp);
    forall s, s' | s in sites && s' in sites && g(s) == g(s') ensures s == s' {
      SiteMessageInjective(inp, s, s');
    }
    MapNoDup(sites, g);
    forall m ensures m in Map(sites, g) <==> exists s :: Reported(fs, ref, inp, s) && m == SiteMessage(inp, s) {
      MapMember(sites, g, m);
    }
  }

  /** What a message says holds: the input directory it names does not exist,
      or the file it names is not a regular file. */
  predicate Absent(fs: FileSystem, m: Message)
  {
    match m
    case MissingInputDirectory(dir) => !fs.Exists(dir)
    case MissingFile(file) => !fs.IsFile(file)
  }

  lemma ReportedSiteAbsent(fs: FileSystem, ref: Path, inp: Path, s: Site)
    requires Reported(fs, ref, inp, s)
    ensures Absent(fs, SiteMessage(inp, s))
  {
  }

  /** Nothing is reported that is there: every printed message holds. */
  lemma ReportsOnlyMissing(fs: FileSystem, ref: Path, inp: Path)
    ensures forall m :: m in Audit(fs, ref, inp) ==> Absent(fs, m)
  {
    AuditMembers(fs, ref, inp);
    forall m | m in Audit(fs, ref, inp) ensures Absent(fs, m) {
      var s :| Reported(fs, ref, inp, s) && m == SiteMessage(inp, s);
      ReportedSiteAbsent(fs, ref, inp, s);
    }
  }

  /** p lies in the directory dir or is dir itself. */
  predicate Under(p: Path, dir: Path)
  {
    |dir| <= |p| && p[..|dir|] == dir
  }

  /** A site's path lies in another run's input directory only if the runs agree. */
  lemma SiteUnderRun(inp: Path, s: Site, k: RunKey)
    requires InGrid(s.k) && InGrid(k)
    ensures Under(SitePath(inp, s), RunDir(inp, k)) ==> s.k == k
  {
    var p, run := SitePath(inp, s), RunDir(inp, s.k);
    assert p[..|run|] == run;
    if Under(p, RunDir(inp, k)) {
      GridDupRatesHaveNoUnderscore(s.k.dupRate);
      GridDupRatesHaveNoUnderscore(k.dupRate);
      RunDirInjective(inp, s.k, k);
    }
  }

  /** The field after the run directory in a site's path: none for the run
      check itself, the gene-tree directory for a file check. */
  lemma SiteGeneTreesField(inp: Path, s: Site)
    ensures s.check.InputRun? ==> |SitePath(inp, s)| == |inp| + 2
    ensures !s.check.InputRun? ==>
      |SitePath(inp, s)| > |inp| + 2 && SitePath(inp, s)[|inp| + 2] == GeneTreesDir(s.check.t)
  {
    var run := RunDir(inp, s.k);
    match s.check
    case InputRun =>
    case Stride(t, n, u) =>
      assert SitePath(inp, s) == run + [GeneTreesDir(t), NatToString(n), "stride", UnrootedName(u), SCORE_FILE];
    case Disco(t, n, u, rt, mult) =>
      assert SitePath(inp, s) == run + [GeneTreesDir(t), NatToString(n), "disco", UnrootedName(u), RootingName(rt),
                                         "le", NatToString(mult), SCORE_FILE];
  }

  /** A site's path lies in the gene-tree directory `{t}g` of a run only if it is
      a file check of that run and of gene-tree type t. */
  lemma SiteUnderGeneTrees(inp: Path, s: Site, k: RunKey, t: GeneTrees)
    requires InGrid(s.k) && InGrid(k)
    ensures Under(SitePath(inp, s), RunDir(inp, k) + [GeneTreesDir(t)]) ==>
      s.k == k && !s.check.InputRun? && s.check.t == t
  {
    var p, dir := SitePath(inp, s), RunDir(inp, k) + [GeneTreesDir(t)];
    if Under(p, dir) {
      SiteGeneTreesField(inp, s);
      assert p[|inp| + 2] == dir[|inp| + 2] == GeneTreesDir(t);
      assert p[..|inp| + 2] == dir[..|inp| + 2] == RunDir(inp, k);
      SiteUnderRun(inp, s, k);
      GeneTreesDirInjective(s.check.t, t);
    }
  }

  lemma SiteSilentWithoutReferenceRun(fs: FileSystem, ref: Path, inp: Path, s: Site, k: RunKey)
    requires Reported(fs, ref, inp, s) && InGrid(k) && !fs.Exists(RunDir(ref, k))
    ensures !Under(MessagePath(SiteMessage(inp, s)), RunDir(inp, k))
  {
    SiteUnderRun(inp, s, k);
  }

  lemma SiteSilentWithoutGeneTrees(fs: FileSystem, ref: Path, inp: Path, s: Site, k: RunKey, t: GeneTrees)
    requires Reported(fs, ref, inp, s) && InGrid(k) && !fs.IsFile(GeneTreesFile(RunDir(ref, k), t))
    ensures !Under(MessagePath(SiteMessage(inp, s)), RunDir(inp, k) + [GeneTreesDir(t)])
  {
    SiteUnderGeneTrees(inp, s, k, t);
  }

  /** A run missing from the reference tree produces no message about that run. */
  lemma MissingReferenceRunSilent(fs: FileSystem, ref: Path, inp: Path, k: RunKey)
    requires InGrid(k) && !fs.Exists(RunDir(ref, k))
    ensures forall m :: m in Audit(fs, ref, inp) ==> !Under(MessagePath(m), RunDir(inp, k))
  {
    AuditMembers(fs, ref, inp);
    forall m | m in Audit(fs, ref, inp) ensures !Under(MessagePath(m), RunDir(inp, k)) {
      var s :| Reported(fs, ref, inp, s) && m == SiteMessage(inp, s);
      SiteSilentWithoutReferenceRun(fs, ref, inp, s, k);
    }
  }

  /** A site of the grid that reports has its message printed. */
  lemma ReportedInAudit(fs: FileSystem, ref: Path, inp: Path, s: Site)
    requires InGrid(s.k) && Gates(fs, ref, inp, s)
    ensures SiteMessage(inp, s) in Audit(fs, ref, inp)
  {
    var sites, g := AuditSites(fs, ref, inp), s => SiteMessage(inp, s);
    AuditSitesMembers(fs, ref, inp);
    assert s in sites;
    MapMember(sites, g, g(s));
  }

  lemma InputRunSiteOnly(fs: FileSystem, ref: Path, inp: Path, k: RunKey, s: Site)
    requires InGrid(k) && !fs.Exists(RunDir(inp, k)) && Reported(fs, ref, inp, s)
    requires Under(MessagePath(SiteMessage(inp, s)), RunDir(inp, k))
    ensures SiteMessage(inp, s) == MissingInputDirectory(RunDir(inp, k))
  {
    SiteUnderRun(inp, s, k);
  }

  /** A run of the reference tree missing from the input tree is reported as a
      missing input directory, and nothing else under it is reported. */
  lemma MissingInputRunReported(fs: FileSystem, ref: Path, inp: Path, k: RunKey)
    requires InGrid(k) && fs.Exists(RunDir(ref, k)) && !fs.Exists(RunDir(inp, k))
    ensures MissingInputDirectory(RunDir(inp, k)) in Audit(fs, ref, inp)
    ensures forall m :: m in Audit(fs, ref, inp) && Under(MessagePath(m), RunDir(inp, k)) ==>
      m == MissingInputDirectory(RunDir(inp, k))
  {
    var site := Site(k, InputRun);
    assert SiteMessage(inp, site) == MissingInputDirectory(RunDir(inp, k));
    ReportedInAudit(fs, ref, inp, site);
    AuditMembers(fs, ref, inp);
    forall m | m in Audit(fs, ref, inp) && Under(MessagePath(m), RunDir(inp, k))
      ensures m == MissingInputDirectory(RunDir(inp, k))
    {
      var s :| Reported(fs, ref, inp, s) && m == SiteMessage(inp, s);
      InputRunSiteOnly(fs, ref, inp, k, s);
    }
  }

  /** A gene-tree type whose trees are not in the reference run produces no
      message about its directory in the input run. */
  lemma MissingGeneTreesSilent(fs: FileSystem, ref: Path, inp: Path, k: RunKey, t: GeneTrees)
    requires InGrid(k) && !fs.IsFile(GeneTreesFile(RunDir(ref, k), t))
    ensures forall m :: m in Audit(fs, ref, inp) ==> !Under(MessagePath(m), RunDir(inp, k) + [GeneTreesDir(t)])
  {
    AuditMembers(fs, ref, inp);
    forall m | m in Audit(fs, ref, inp) ensures !Under(MessagePath(m), RunDir(inp, k) + [GeneTreesDir(t)]) {
      var s :| Reported(fs, ref, inp, s) && m == SiteMessage(inp, s);
      SiteSilentWithoutGeneTrees(fs, ref, inp, s, k, t);
    }
  }

  /** A DISCO score is reported only when the STRIDE score of its (type, gene
      count, tree) is a file: a missing STRIDE score stops the search below it. */
  lemma DiscoReportedOnlyAfterStride(fs: FileSystem, ref: Path, inp: Path, k: RunKey, t: GeneTrees, n: nat,
                                     u: UnrootedTree, rt: Rooting, mult: nat)
    requires InGrid(k)
    ensures MissingFile(DiscoScorePath(RunDir(inp, k), t, n, u, rt, mult)) in Audit(fs, ref, inp) ==>
      fs.IsFile(StridePath(inp, k, t, n, u))
  {
    var site := Site(k, Disco(t, n, u, rt, mult));
    var m := SiteMessage(inp, site);
    assert m == MissingFile(DiscoScorePath(RunDir(inp, k), t, n, u, rt, mult));
    if m in Audit(fs, ref, inp) {
      AuditMembers(fs, ref, inp);
      var s :| Reported(fs, ref, inp, s) && m == SiteMessage(inp, s);
      SiteMessageInjective(inp, s, site);
      assert Flagged(fs, inp, site);
    }
  }

  /** Within a run the audit reaches, a missing STRIDE score is reported and
      none of the DISCO scores below it is. */
  lemma MissingStrideReported(fs: FileSystem, ref: Path, inp: Path, k: RunKey, t: GeneTrees, n: nat,
                              u: UnrootedTree)
    requires InGrid(k) && CheckInGrid(Stride(t, n, u))
    requires fs.Exists(RunDir(ref, k)) && fs.Exists(RunDir(inp, k)) && fs.IsFile(GeneTreesFile(RunDir(ref, k), t))
    requires !fs.IsFile(StridePath(inp, k, t, n, u))
    ensures MissingFile(StridePath(inp, k, t, n, u)) in Audit(fs, ref, inp)
    ensures forall rt, mult :: MissingFile(DiscoScorePath(RunDir(inp, k), t, n, u, rt, mult)) !in Audit(fs, ref, inp)
  {
    AuditMembers(fs, ref, inp);
    var site := Site(k, Stride(t, n, u));
    assert Reported(fs, ref, inp, site) && SiteMessage(inp, site) == MissingFile(StridePath(inp, k, t, n, u));
    forall rt, mult ensures MissingFile(DiscoScorePath(RunDir(inp, k), t, n, u, rt, mult)) !in Audit(fs, ref, inp) {
      DiscoReportedOnlyAfterStride(fs, ref, inp, k, t, n, u, rt, mult);
    }
  }

  /** Within a run the audit reaches, a missing DISCO score whose STRIDE score
      exists is reported. */
  lemma MissingDiscoReported(fs: FileSystem, ref: Path, inp: Path, k: RunKey, t: GeneTrees, n: nat,
                             u: UnrootedTree, rt: Rooting, mult: nat)
    requires InGrid(k) && CheckInGrid(Disco(t, n, u, rt, mult))
    requires fs.Exists(RunDir(ref, k)) && fs.Exists(RunDir(inp, k)) && fs.IsFile(GeneTreesFile(RunDir(ref, k), t))
    requires fs.IsFile(StridePath(inp, k, t, n, u)) && !fs.IsFile(DiscoScorePath(RunDir(inp, k), t, n, u, rt, mult))
    ensures MissingFile(DiscoScorePath(RunDir(inp, k), t, n, u, rt, mult)) in Audit(fs, ref, inp)
  {
    AuditMembers(fs, ref, inp);
    var site := Site(k, Disco(t, n, u, rt, mult));
    assert Reported(fs, ref, inp, site);
    assert SiteMessage(inp, site) == MissingFile(DiscoScorePath(RunDir(inp, k), t, n, u, rt, mult));
  }

  // ---------------------------------------------------------------------------
  // The script's loop nest, lines 43-97. Each method appends to the messages
  // printed so far what its loops print.

  /** One more iteration prints the messages of one more block of sites. */
  lemma RenderStep<T>(inp: Path, xs: seq<T>, i: nat, f: T -> seq<Site>)
    requires i < |xs|
    ensures Render(inp, FlatMap(xs[..i + 1], f)) == Render(inp, FlatMap(xs[..i], f)) + Render(inp, f(xs[i]))
  {
    FlatMapSnoc(xs, i, f);
    MapAppend(FlatMap(xs[..i], f), f(xs[i]), s => SiteMessage(inp, s));
  }

  lemma RenderSingleton(inp: Path, site: Site)
    ensures Render(inp, [site]) == [SiteMessage(inp, site)]
  {
    assert [site][..0] == [];
  }

  /** One more multiplicity prints the DISCO score's path when it is not a file. */
  lemma RootingStep(fs: FileSystem, inp: Path, key: RunKey, gType: GeneTrees, nGenes: nat, us: UnrootedTree,
                    rs: Rooting, i: nat, acc: seq<Message>)
    requires i < |MULTIPLICITIES|
    ensures var f := mult => DiscoCheck(fs, inp, Site(key, Disco(gType, nGenes, us, rs, mult)));
      var ncdFp := DiscoScorePath(RunDir(inp, key), gType, nGenes, us, rs, MULTIPLICITIES[i]);
      acc + Render(inp, FlatMap(MULTIPLICITIES[..i + 1], f)) ==
      acc + Render(inp, FlatMap(MULTIPLICITIES[..i], f)) + (if fs.IsFile(ncdFp) then [] else [MissingFile(ncdFp)])
  {
    var f := mult => DiscoCheck(fs, inp, Site(key, Disco(gType, nGenes, us, rs, mult)));
    var site := Site(key, Disco(gType, nGenes, us, rs, MULTIPLICITIES[i]));
    var ncdFp := DiscoScorePath(RunDir(inp, key), gType, nGenes, us, rs, MULTIPLICITIES[i]);
    assert f(MULTIPLICITIES[i]) == DiscoCheck(fs, inp, site);
    assert SitePath(inp, site) == ncdFp;
    if fs.IsFile(ncdFp) {
      assert Render(inp, f(MULTIPLICITIES[i])) == [];
    } else {
      RenderSingleton(inp, site);
      assert Render(inp, f(MULTIPLICITIES[i])) == [MissingFile(ncdFp)];
    }
    RenderStep(inp, MULTIPLICITIES, i, f);
    AppendAssoc(acc, Render(inp, FlatMap(MULTIPLICITIES[..i], f)), Render(inp, f(MULTIPLICITIES[i])));
  }

  /** Lines 82-97: the multiplicity loop of one rooting. */
  method CheckRooting(fs: FileSystem, inp: Path, key: RunKey, gType: GeneTrees, nGenes: nat, us: UnrootedTree,
                      rs: Rooting, acc: seq<Message>) returns (messages: seq<Message>)
    ensures messages == acc + Render(inp, RootingSites(fs, inp, key, gType, nGenes, us, rs))
  {
    var subinpDir := RunDir(inp, key);
    messages := acc;
    for i := 0 to |MULTIPLICITIES|
      invariant messages == acc + Render(inp, FlatMap(MULTIPLICITIES[..i],
        mult => DiscoCheck(fs, inp, Site(key, Disco(gType, nGenes, us, rs, mult)))))
    {
      var ncdFp := DiscoScorePath(subinpDir, gType, nGenes, us, rs, MULTIPLICITIES[i]);
      RootingStep(fs, inp, key, gType, nGenes, us, rs, i, acc);
      if !fs.IsFile(ncdFp) {
        messages := messages + [MissingFile(ncdFp)];
      }
    }
    assert MULTIPLICITIES[..|MULTIPLICITIES|] == MULTIPLICITIES;
  }

  /** Lines 68-81: the STRIDE check of one unrooted tree, which skips the DISCO
      scores when the STRIDE score is missing. */
  method CheckTree(fs: FileSystem, inp: Path, key: RunKey, gType: GeneTrees, nGenes: nat, us: UnrootedTree,
                   acc: seq<Message>) returns (messages: seq<Message>)
    ensures messages == acc + Render(inp, TreeSites(fs, inp, key, gType, nGenes, us))
  {
    var strideNcdFp := StrideScorePath(RunDir(inp, key), gType, nGenes, us);
    if !fs.IsFile(strideNcdFp) {
      messages := acc + [MissingFile(strideNcdFp)];
      RenderSingleton(inp, Site(key, Stride(gType, nGenes, us)));
    } else {
      messages := acc;
      for j := 0 to |ROOTINGS|
        invariant messages == acc + Render(inp, FlatMap(ROOTINGS[..j],
          rt => RootingSites(fs, inp, key, gType, nGenes, us, rt)))
      {
        messages := CheckRooting(fs, inp, key, gType, nGenes, us, ROOTINGS[j], messages);
        RenderStep(inp, ROOTINGS, j, rt => RootingSites(fs, inp, key, gType, nGenes, us, rt));
        AppendAssoc(acc, Render(inp, FlatMap(ROOTINGS[..j], rt => RootingSites(fs, inp, key, gType, nGenes, us, rt))),
                    Render(inp, RootingSites(fs, inp, key, gType, nGenes, us, ROOTINGS[j])));
      }
      assert ROOTINGS[..|ROOTINGS|] == ROOTINGS;
    }
  }

  /** Line 67: the unrooted-tree loop of one gene count. */
  method CheckGenes(fs: FileSystem, inp: Path, key: RunKey, gType: GeneTrees, nGenes: nat, acc: seq<Message>)
    returns (messages: seq<Message>)
    ensures messages == acc + Render(inp, GenesSites(fs, inp, key, gType, nGenes))
  {
    messages := acc;
    for i := 0 to |AUDITED_TREES|
      invariant messages == acc + Render(inp, FlatMap(AUDITED_TREES[..i], u => TreeSites(fs, inp, key, gType, nGenes, u)))
    {
      messages := CheckTree(fs, inp, key, gType, nGenes, AUDITED_TREES[i], messages);
      RenderStep(inp, AUDITED_TREES, i, u => TreeSites(fs, inp, key, gType, nGenes, u));
      AppendAssoc(acc, Render(inp, FlatMap(AUDITED_TREES[..i], u => TreeSites(fs, inp, key, gType, nGenes, u))),
                  Render(inp, TreeSites(fs, inp, key, gType, nGenes, AUDITED_TREES[i])));
    }
    assert AUDITED_TREES[..|AUDITED_TREES|] == AUDITED_TREES;
  }

  /** Lines 61-64: the gene-tree type loop of a run present in both trees,
      skipping the types the reference run has no trees for. */
  method CheckRun(fs: FileSystem, ref: Path, inp: Path, key: RunKey, acc: seq<Message>) returns (messages: seq<Message>)
    requires fs.Exists(RunDir(ref, key)) && fs.Exists(RunDir(inp, key))
    ensures messages == acc + Render(inp, RunSites(fs, ref, inp, key))
  {
    var subrefDir := RunDir(ref, key);
    messages := acc;
    for i := 0 to |GENE_TREE_TYPES|
      invariant messages == acc + Render(inp, FlatMap(GENE_TREE_TYPES[..i], t => GeneTreesSites(fs, ref, inp, key, t)))
    {
      var gType := GENE_TREE_TYPES[i];
      ghost var prev := messages;
      var gFp := GeneTreesFile(subrefDir, gType);
      if fs.IsFile(gFp) {
        messages := CheckGeneTrees(fs, ref, inp, key, gType, messages);
      }
      assert messages == prev + Render(inp, GeneTreesSites(fs, ref, inp, key, gType));
      RenderStep(inp, GENE_TREE_TYPES, i, t => GeneTreesSites(fs, ref, inp, key, t));
      AppendAssoc(acc, Render(inp, FlatMap(GENE_TREE_TYPES[..i], t => GeneTreesSites(fs, ref, inp, key, t))),
                  Render(inp, GeneTreesSites(fs, ref, inp, key, gType)));
    }
    assert GENE_TREE_TYPES[..|GENE_TREE_TYPES|] == GENE_TREE_TYPES;
  }

  /** Lines 66-97: the gene-count loop of a gene-tree type whose trees are in
      the reference run. */
  method CheckGeneTrees(fs: FileSystem, ref: Path, inp: Path, key: RunKey, gType: GeneTrees, acc: seq<Message>)
    returns (messages: seq<Message>)
    requires fs.IsFile(GeneTreesFile(RunDir(ref, key), gType))
    ensures messages == acc + Render(inp, GeneTreesSites(fs, ref, inp, key, gType))
  {
    messages := acc;
    for j := 0 to |GENE_COUNTS|
      invariant messages == acc + Render(inp, FlatMap(GENE_COUNTS[..j], n => GenesSites(fs, inp, key, gType, n)))
    {
      messages := CheckGenes(fs, inp, key, gType, GENE_COUNTS[j], messages);
      RenderStep(inp, GENE_COUNTS, j, n => GenesSites(fs, inp, key, gType, n));
      AppendAssoc(acc, Render(inp, FlatMap(GENE_COUNTS[..j], n => GenesSites(fs, inp, key, gType, n))),
                  Render(inp, GenesSites(fs, inp, key, gType, GENE_COUNTS[j])));
    }
    assert GENE_COUNTS[..|GENE_COUNTS|] == GENE_COUNTS;
  }

  /** Line 46: the species loop of one duplication rate. */
  method CheckDup(fs: FileSystem, ref: Path, inp: Path, hILS: bool, loss: nat, dup: string, acc: seq<Message>)
    returns (messages: seq<Message>)
    ensures messages == acc + Render(inp, DupSites(fs, ref, inp, hILS, loss, dup))
  {
    messages := acc;
    for i := 0 to |SPECIES_COUNTS|
      invariant messages == acc + Render(inp, FlatMap(SPECIES_COUNTS[..i],
        n => SpeciesSites(fs, ref, inp, hILS, loss, dup, n)))
    {
      var numSpecies := SPECIES_COUNTS[i];
      messages := CheckSpecies(fs, ref, inp, hILS, loss, dup, numSpecies, messages);
      RenderStep(inp, SPECIES_COUNTS, i, n => SpeciesSites(fs, ref, inp, hILS, loss, dup, n));
      AppendAssoc(acc, Render(inp, FlatMap(SPECIES_COUNTS[..i], n => SpeciesSites(fs, ref, inp, hILS, loss, dup, n))),
                  Render(inp, SpeciesSites(fs, ref, inp, hILS, loss, dup, numSpecies)));
    }
    assert SPECIES_COUNTS[..|SPECIES_COUNTS|] == SPECIES_COUNTS;
  }

  /** Lines 47-60: the run loop of one species count; a run missing from the
      reference is skipped, a run missing from the input is reported and
      skipped. */
  method CheckSpecies(fs: FileSystem, ref: Path, inp: Path, hILS: bool, loss: nat, dup: string, numSpecies: nat,
                      acc: seq<Message>) returns (messages: seq<Message>)
    ensures messages == acc + Render(inp, SpeciesSites(fs, ref, inp, hILS, loss, dup, numSpecies))
  {
    messages := acc;
    for j := 0 to |RUN_IDS|
      invariant messages == acc + Render(inp, FlatMap(RUN_IDS[..j],
        run => RunSites(fs, ref, inp, RunKey(hILS, loss, dup, numSpecies, run))))
    {
      var key := RunKey(hILS, loss, dup, numSpecies, RUN_IDS[j]);
      ghost var before := messages;
      var subrefDir := RunDir(ref, key);
      if fs.Exists(subrefDir) {
        var subinpDir := RunDir(inp, key);
        if !fs.Exists(subinpDir) {
          messages := messages + [MissingInputDirectory(subinpDir)];
          RenderSingleton(inp, Site(key, InputRun));
        } else {
          messages := CheckRun(fs, ref, inp, key, messages);
        }
      }
      assert messages == before + Render(inp, RunSites(fs, ref, inp, key));
      RenderStep(inp, RUN_IDS, j, run => RunSites(fs, ref, inp, RunKey(hILS, loss, dup, numSpecies, run)));
      AppendAssoc(acc, Render(inp, FlatMap(RUN_IDS[..j],
        run => RunSites(fs, ref, inp, RunKey(hILS, loss, dup, numSpecies, run)))), Render(inp, RunSites(fs, ref, inp, key)));
    }
    assert RUN_IDS[..|RUN_IDS|] == RUN_IDS;
  }

  /** Lines 44-45: the loss and duplication-rate loops of one hILS value. */
  method CheckHils(fs: FileSystem, ref: Path, inp: Path, hILS: bool, acc: seq<Message>) returns (messages: seq<Message>)
    ensures messages == acc + Render(inp, HilsSites(fs, ref, inp, hILS))
  {
    messages := acc;
    for i := 0 to |LOSS_INDICATORS|
      invariant messages == acc + Render(inp, FlatMap(LOSS_INDICATORS[..i], l => LossSites(fs, ref, inp, hILS, l)))
    {
      var loss := LOSS_INDICATORS[i];
      ghost var prev := messages;
      for j := 0 to |DUP_RATES|
        invariant messages == prev + Render(inp, FlatMap(DUP_RATES[..j], d => DupSites(fs, ref, inp, hILS, loss, d)))
      {
        messages := CheckDup(fs, ref, inp, hILS, loss, DUP_RATES[j], messages);
        RenderStep(inp, DUP_RATES, j, d => DupSites(fs, ref, inp, hILS, loss, d));
        AppendAssoc(prev, Render(inp, FlatMap(DUP_RATES[..j], d => DupSites(fs, ref, inp, hILS, loss, d))),
                    Render(inp, DupSites(fs, ref, inp, hILS, loss, DUP_RATES[j])));
      }
      assert DUP_RATES[..|DUP_RATES|] == DUP_RATES;
      RenderStep(inp, LOSS_INDICATORS, i, l => LossSites(fs, ref, inp, hILS, l));
      AppendAssoc(acc, Render(inp, FlatMap(LOSS_INDICATORS[..i], l => LossSites(fs, ref, inp, hILS, l))),
                  Render(inp, LossSites(fs, ref, inp, hILS, loss)));
    }
    assert LOSS_INDICATORS[..|LOSS_INDICATORS|] == LOSS_INDICATORS;
  }

  /** Lines 43-97: the whole audit prints exactly the messages of the
      reporting sites, in loop order. */
  method CheckMissing(fs: FileSystem, ref: Path, inp: Path) returns (messages: seq<Message>)
    ensures messages == Audit(fs, ref, inp)
  {
    messages := [];
    for i := 0 to |HILS_VALUES|
      invariant messages == Render(inp, FlatMap(HILS_VALUES[..i], h => HilsSites(fs, ref, inp, h)))
    {
      messages := CheckHils(fs, ref, inp, HILS_VALUES[i], messages);
      RenderStep(inp, HILS_VALUES, i, h => HilsSites(fs, ref, inp, h));
    }
    assert HILS_VALUES[..|HILS_VALUES|] == HILS_VALUES;
  }
}
