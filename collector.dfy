/**
 * The result collector of agg_result.py: walk the experiment grid, skip run
 * directories that do not exist, probe the four DISCO score files of every
 * (gene count, gene-tree type, multiplicity) cell, append one labelled record
 * per score file found, and finally sort the records by their eleven-field key.
 *
 * The specification is the function Collected: the concatenation, in loop
 * order, of the records of every grid point. Collect is the loop nest proved
 * to compute it; the lemmas below say what Collected contains.
 */
module Collector {
  import opened Seqs
  import opened Decimal
  import opened Grid

  /** One row of the aggregated table (the dictionary appended by the script). */
  datatype Record = Record(
    numSpecies: nat,
    trueSpeciesTree: bool,
    nGenes: nat,
    dupRate: string,
    lossRateIndicator: nat,
    hILS: bool,
    gType: GeneTrees,
    runId: nat,
    methodName: string,
    samplingMethod: string,
    samplingMult: nat,
    ncd: real)

  /** The three inner loop variables. */
  datatype GridCell = GridCell(nGenes: nat, gType: GeneTrees, mult: nat)

  const QR_LABEL := "DISCO+QR"
  const QRSTAR_LABEL := "DISCO+QR-STAR"
  const SAMPLING_LE := "le"

  /** The collector probes only trees from ASTRID and the true species trees. */
  predicate CollectedTree(u: UnrootedTree)
  {
    u == Astrid || u == Trues
  }

  function MethodLabel(r: Rooting): string
  {
    match r
    case QR => QR_LABEL
    case QRStar => QRSTAR_LABEL
  }

  /** One of the four score files probed in every cell. */
  datatype ProbeKind = ProbeKind(tree: UnrootedTree, rooting: Rooting)

  /** The probes of a cell, in script order: astrid/qr, astrid/qrstar, trues/qr, trues/qrstar. */
  const CELL_PROBES := [ProbeKind(Astrid, QR), ProbeKind(Astrid, QRStar), ProbeKind(Trues, QR), ProbeKind(Trues, QRStar)]

  predicate CellInGrid(c: GridCell)
  {
    c.nGenes in GENE_COUNTS && c.gType in GENE_TREE_TYPES && c.mult in MULTIPLICITIES
  }

  function RunKeyOf(r: Record): RunKey
  {
    RunKey(r.hILS, r.lossRateIndicator, r.dupRate, r.numSpecies, r.runId)
  }

  function CellOf(r: Record): GridCell
  {
    GridCell(r.nGenes, r.gType, r.samplingMult)
  }

  /** The probe a record's labels name: trues/astrid from true_species_tree,
      qr/qrstar from method. */
  function ProbeOf(r: Record): ProbeKind
  {
    ProbeKind(if r.trueSpeciesTree then Trues else Astrid, if r.methodName == QR_LABEL then QR else QRStar)
  }

  /** The method and sampling labels are among those the collector writes. */
  predicate Labelled(r: Record)
  {
    (r.methodName == QR_LABEL || r.methodName == QRSTAR_LABEL) && r.samplingMethod == SAMPLING_LE
  }

  /** The score file of probe p in cell c of run k. */
  function ProbePath(root: Path, k: RunKey, c: GridCell, p: ProbeKind): Path
  {
    DiscoScorePath(RunDir(root, k), c.gType, c.nGenes, p.tree, p.rooting, c.mult)
  }

  /** The score file a record's own fields and labels name. */
  function RecordPath(root: Path, r: Record): Path
  {
    ProbePath(root, RunKeyOf(r), CellOf(r), ProbeOf(r))
  }

  /** The record appended for the score file of probe (u, rt) in cell c of run k,
      holding ncd. Its fields give back the grid point and its labels give back
      the probe. */
  function ScoreRecord(k: RunKey, c: GridCell, u: UnrootedTree, rt: Rooting, ncd: real): (rec: Record)
    ensures RunKeyOf(rec) == k && CellOf(rec) == c && rec.ncd == ncd
    ensures Labelled(rec)
    ensures CollectedTree(u) ==> ProbeOf(rec) == ProbeKind(u, rt)
  {
    assert QRSTAR_LABEL != QR_LABEL by { assert |QRSTAR_LABEL| != |QR_LABEL|; }
    Record(k.species, u == Trues, c.nGenes, k.dupRate, k.lossIndicator, k.hILS, c.gType, k.run,
           MethodLabel(rt), SAMPLING_LE, c.mult, ncd)
  }

  /** A record read from its own file: correctly labelled, the file its fields
      and labels name exists, and it holds that file's score. */
  predicate FromOwnFile(fs: FileSystem, root: Path, r: Record)
  {
    Labelled(r) && fs.IsFile(RecordPath(root, r)) && r.ncd == fs.files[RecordPath(root, r)]
  }

  /** A record whose run directory exists, whose cell is in the grid, and which
      was read from its own file. */
  predicate Kept(fs: FileSystem, root: Path, r: Record)
  {
    fs.IsDir(RunDir(root, RunKeyOf(r))) && CellInGrid(CellOf(r)) && FromOwnFile(fs, root, r)
  }

  /** The reference description of the collector's output, independent of the
      loops: a grid point whose run directory exists and a correctly labelled
      record of one of its existing score files. */
  predicate Collectable(fs: FileSystem, root: Path, r: Record)
  {
    InGrid(RunKeyOf(r)) && Kept(fs, root, r)
  }

  // ---------------------------------------------------------------------------
  // What the loop nest appends, level by level.

  /** Probe one score path: a record if the file exists, nothing otherwise. */
  function Probe(fs: FileSystem, root: Path, k: RunKey, c: GridCell, p: ProbeKind): seq<Record>
  {
    var path := ProbePath(root, k, c, p);
    if fs.IsFile(path) then [ScoreRecord(k, c, p.tree, p.rooting, fs.files[path])] else []
  }

  /** The records of one cell: one per probe whose file exists, in probe order. */
  function CellRecords(fs: FileSystem, root: Path, k: RunKey, c: GridCell): seq<Record>
  {
    FlatMap(CELL_PROBES, p => Probe(fs, root, k, c, p))
  }

  function GeneTreesRecords(fs: FileSystem, root: Path, k: RunKey, g: nat, t: GeneTrees): seq<Record>
  {
    FlatMap(MULTIPLICITIES, m => CellRecords(fs, root, k, GridCell(g, t, m)))
  }

  function GenesRecords(fs: FileSystem, root: Path, k: RunKey, g: nat): seq<Record>
  {
    FlatMap(GENE_TREE_TYPES, t => GeneTreesRecords(fs, root, k, g, t))
  }

  /** The records of one run: none when its directory does not exist. */
  function RunRecords(fs: FileSystem, root: Path, k: RunKey): seq<Record>
  {
    if !fs.IsDir(RunDir(root, k)) then [] else FlatMap(GENE_COUNTS, g => GenesRecords(fs, root, k, g))
  }

  function SpeciesRecords(fs: FileSystem, root: Path, h: bool, l: nat, d: string, n: nat): seq<Record>
  {
    FlatMap(RUN_IDS, run => RunRecords(fs, root, RunKey(h, l, d, n, run)))
  }

  function DupRecords(fs: FileSystem, root: Path, h: bool, l: nat, d: string): seq<Record>
  {
    FlatMap(SPECIES_COUNTS, n => SpeciesRecords(fs, root, h, l, d, n))
  }

  function LossRecords(fs: FileSystem, root: Path, h: bool, l: nat): seq<Record>
  {
    FlatMap(DUP_RATES, d => DupRecords(fs, root, h, l, d))
  }

  function HilsRecords(fs: FileSystem, root: Path, h: bool): seq<Record>
  {
    FlatMap(LOSS_INDICATORS, l => LossRecords(fs, root, h, l))
  }

  /** Everything the collector appends, in loop order. */
  function Collected(fs: FileSystem, root: Path): seq<Record>
  {
    FlatMap(HILS_VALUES, h => HilsRecords(fs, root, h))
  }

  // ---------------------------------------------------------------------------
  // Each level: a bound on its length, no duplicates, and exactly which
  // records it holds.

  lemma ProbeMembers(fs: FileSystem, root: Path, k: RunKey, c: GridCell, p: ProbeKind)
    requires CollectedTree(p.tree)
    ensures |Probe(fs, root, k, c, p)| <= 1
    ensures forall r: Record :: r in Probe(fs, root, k, c, p) <==>
      RunKeyOf(r) == k && CellOf(r) == c && ProbeOf(r) == p && FromOwnFile(fs, root, r)
  {
    forall r | RunKeyOf(r) == k && CellOf(r) == c && ProbeOf(r) == p && FromOwnFile(fs, root, r)
      ensures r in Probe(fs, root, k, c, p)
    {
      var rec := ScoreRecord(k, c, p.tree, p.rooting, fs.files[ProbePath(root, k, c, p)]);
      assert r.methodName == MethodLabel(p.rooting);
      assert r == rec;
    }
  }

  /** The four probes of a cell, one after the other. */
  lemma CellRecordsUnfold(fs: FileSystem, root: Path, k: RunKey, c: GridCell)
    ensures CellRecords(fs, root, k, c)
      == Probe(fs, root, k, c, CELL_PROBES[0]) + Probe(fs, root, k, c, CELL_PROBES[1])
       + Probe(fs, root, k, c, CELL_PROBES[2]) + Probe(fs, root, k, c, CELL_PROBES[3])
  {
    FlatMapFour(CELL_PROBES, p => Probe(fs, root, k, c, p));
  }

  /** The four probes of a cell appended to what came before, one after the other. */
  lemma CellRecordsAfter(fs: FileSystem, root: Path, k: RunKey, c: GridCell, acc: seq<Record>)
    ensures acc + CellRecords(fs, root, k, c)
      == acc + Probe(fs, root, k, c, CELL_PROBES[0]) + Probe(fs, root, k, c, CELL_PROBES[1])
       + Probe(fs, root, k, c, CELL_PROBES[2]) + Probe(fs, root, k, c, CELL_PROBES[3])
  {
    var p0, p1 := Probe(fs, root, k, c, CELL_PROBES[0]), Probe(fs, root, k, c, CELL_PROBES[1]);
    var p2, p3 := Probe(fs, root, k, c, CELL_PROBES[2]), Probe(fs, root, k, c, CELL_PROBES[3]);
    CellRecordsUnfold(fs, root, k, c);
    AppendAssoc(acc, p0 + p1 + p2, p3);
    AppendAssoc(acc, p0 + p1, p2);
    AppendAssoc(acc, p0, p1);
  }

  lemma CellRecordsMembers(fs: FileSystem, root: Path, k: RunKey, c: GridCell)
    ensures |CellRecords(fs, root, k, c)| <= 4 && NoDup(CellRecords(fs, root, k, c))
    ensures forall r: Record :: r in CellRecords(fs, root, k, c) <==>
      RunKeyOf(r) == k && CellOf(r) == c && FromOwnFile(fs, root, r)
  {
    var f := p => Probe(fs, root, k, c, p);
    forall p | p in CELL_PROBES
      ensures |f(p)| <= 1
      ensures forall r: Record :: r in f(p) <==> RunKeyOf(r) == k && CellOf(r) == c && ProbeOf(r) == p && FromOwnFile(fs, root, r)
    {
      ProbeMembers(fs, root, k, c, p);
    }
    FlatMapLength(CELL_PROBES, f, 1);
    assert NoDup(CELL_PROBES);
    FlatMapNoDup(CELL_PROBES, f, ProbeOf);
    forall r: Record ensures r in FlatMap(CELL_PROBES, f) <==> RunKeyOf(r) == k && CellOf(r) == c && FromOwnFile(fs, root, r) {
      FlatMapMember(CELL_PROBES, f, r);
      if RunKeyOf(r) == k && CellOf(r) == c && FromOwnFile(fs, root, r) {
        assert ProbeOf(r) in CELL_PROBES;
        assert r in f(ProbeOf(r));
      }
    }
  }

  lemma GeneTreesRecordsMembers(fs: FileSystem, root: Path, k: RunKey, g: nat, t: GeneTrees)
    ensures |GeneTreesRecords(fs, root, k, g, t)| <= 16 && NoDup(GeneTreesRecords(fs, root, k, g, t))
    ensures forall r: Record :: r in GeneTreesRecords(fs, root, k, g, t) <==>
      RunKeyOf(r) == k && r.nGenes == g && r.gType == t && r.samplingMult in MULTIPLICITIES && FromOwnFile(fs, root, r)
  {
    var f := m => CellRecords(fs, root, k, GridCell(g, t, m));
    forall m | m in MULTIPLICITIES
      ensures |f(m)| <= 4 && NoDup(f(m))
      ensures forall r: Record :: r in f(m) <==> RunKeyOf(r) == k && CellOf(r) == GridCell(g, t, m) && FromOwnFile(fs, root, r)
    {
      CellRecordsMembers(fs, root, k, GridCell(g, t, m));
    }
    FlatMapLength(MULTIPLICITIES, f, 4);
    GridListsDistinct();
    FlatMapNoDup(MULTIPLICITIES, f, (r: Record) => r.samplingMult);
    forall r: Record ensures r in FlatMap(MULTIPLICITIES, f) <==>
      RunKeyOf(r) == k && r.nGenes == g && r.gType == t && r.samplingMult in MULTIPLICITIES && FromOwnFile(fs, root, r)
    {
      FlatMapMember(MULTIPLICITIES, f, r);
      if RunKeyOf(r) == k && r.nGenes == g && r.gType == t && r.samplingMult in MULTIPLICITIES && FromOwnFile(fs, root, r) {
        assert r in f(r.samplingMult);
      }
    }
  }

  lemma GenesRecordsMembers(fs: FileSystem, root: Path, k: RunKey, g: nat)
    ensures |GenesRecords(fs, root, k, g)| <= 64 && NoDup(GenesRecords(fs, root, k, g))
    ensures forall r: Record :: r in GenesRecords(fs, root, k, g) <==>
      RunKeyOf(r) == k && r.nGenes == g && r.gType in GENE_TREE_TYPES && r.samplingMult in MULTIPLICITIES
      && FromOwnFile(fs, root, r)
  {
    var f := t => GeneTreesRecords(fs, root, k, g, t);
    forall t | t in GENE_TREE_TYPES
      ensures |f(t)| <= 16 && NoDup(f(t))
      ensures forall r: Record :: r in f(t) <==>
        RunKeyOf(r) == k && r.nGenes == g && r.gType == t && r.samplingMult in MULTIPLICITIES && FromOwnFile(fs, root, r)
    {
      GeneTreesRecordsMembers(fs, root, k, g, t);
    }
    FlatMapLength(GENE_TREE_TYPES, f, 16);
    GridListsDistinct();
    FlatMapNoDup(GENE_TREE_TYPES, f, (r: Record) => r.gType);
    forall r: Record ensures r in FlatMap(GENE_TREE_TYPES, f) <==>
      RunKeyOf(r) == k && r.nGenes == g && r.gType in GENE_TREE_TYPES && r.samplingMult in MULTIPLICITIES
      && FromOwnFile(fs, root, r)
    {
      FlatMapMember(GENE_TREE_TYPES, f, r);
      if r.gType in GENE_TREE_TYPES {
        assert r in f(r.gType) <==> (RunKeyOf(r) == k && r.nGenes == g && r.samplingMult in MULTIPLICITIES
          && FromOwnFile(fs, root, r));
      }
    }
  }

  lemma RunRecordsMembers(fs: FileSystem, root: Path, k: RunKey)
    ensures |RunRecords(fs, root, k)| <= 256 && NoDup(RunRecords(fs, root, k))
    ensures forall r: Record :: r in RunRecords(fs, root, k) <==> RunKeyOf(r) == k && Kept(fs, root, r)
  {
    if fs.IsDir(RunDir(root, k)) {
      var f := g => GenesRecords(fs, root, k, g);
      forall g | g in GENE_COUNTS
        ensures |f(g)| <= 64 && NoDup(f(g))
        ensures forall r: Record :: r in f(g) <==>
          RunKeyOf(r) == k && r.nGenes == g && r.gType in GENE_TREE_TYPES && r.samplingMult in MULTIPLICITIES
          && FromOwnFile(fs, root, r)
      {
        GenesRecordsMembers(fs, root, k, g);
      }
      FlatMapLength(GENE_COUNTS, f, 64);
      GridListsDistinct();
      FlatMapNoDup(GENE_COUNTS, f, (r: Record) => r.nGenes);
      forall r: Record ensures r in FlatMap(GENE_COUNTS, f) <==> RunKeyOf(r) == k && Kept(fs, root, r) {
        FlatMapMember(GENE_COUNTS, f, r);
        if r.nGenes in GENE_COUNTS {
          assert r in f(r.nGenes) <==> RunKeyOf(r) == k && Kept(fs, root, r);
        }
      }
    }
  }

  lemma SpeciesRecordsMembers(fs: FileSystem, root: Path, h: bool, l: nat, d: string, n: nat)
    ensures |SpeciesRecords(fs, root, h, l, d, n)| <= 2560 && NoDup(SpeciesRecords(fs, root, h, l, d, n))
    ensures forall r: Record :: r in SpeciesRecords(fs, root, h, l, d, n) <==>
      r.hILS == h && r.lossRateIndicator == l && r.dupRate == d && r.numSpecies == n && r.runId in RUN_IDS
      && Kept(fs, root, r)
  {
    var f := run => RunRecords(fs, root, RunKey(h, l, d, n, run));
    forall run | run in RUN_IDS
      ensures |f(run)| <= 256 && NoDup(f(run))
      ensures forall r: Record :: r in f(run) <==> RunKeyOf(r) == RunKey(h, l, d, n, run) && Kept(fs, root, r)
    {
      RunRecordsMembers(fs, root, RunKey(h, l, d, n, run));
    }
    FlatMapLength(RUN_IDS, f, 256);
    GridListsDistinct();
    FlatMapNoDup(RUN_IDS, f, (r: Record) => r.runId);
    forall r: Record ensures r in FlatMap(RUN_IDS, f) <==>
      r.hILS == h && r.lossRateIndicator == l && r.dupRate == d && r.numSpecies == n && r.runId in RUN_IDS
      && Kept(fs, root, r)
    {
      FlatMapMember(RUN_IDS, f, r);
      if r.runId in RUN_IDS {
        assert r in f(r.runId) <==> (r.hILS == h && r.lossRateIndicator == l && r.dupRate == d && r.numSpecies == n
          && Kept(fs, root, r));
      }
    }
  }

  lemma DupRecordsMembers(fs: FileSystem, root: Path, h: bool, l: nat, d: string)
    ensures |DupRecords(fs, root, h, l, d)| <= 7680 && NoDup(DupRecords(fs, root, h, l, d))
    ensures forall r: Record :: r in DupRecords(fs, root, h, l, d) <==>
      r.hILS == h && r.lossRateIndicator == l && r.dupRate == d && r.numSpecies in SPECIES_COUNTS
      && r.runId in RUN_IDS && Kept(fs, root, r)
  {
    var f := n => SpeciesRecords(fs, root, h, l, d, n);
    forall n | n in SPECIES_COUNTS
      ensures |f(n)| <= 2560 && NoDup(f(n))
      ensures forall r: Record :: r in f(n) <==>
        r.hILS == h && r.lossRateIndicator == l && r.dupRate == d && r.numSpecies == n && r.runId in RUN_IDS
        && Kept(fs, root, r)
    {
      SpeciesRecordsMembers(fs, root, h, l, d, n);
    }
    FlatMapLength(SPECIES_COUNTS, f, 2560);
    GridListsDistinct();
    FlatMapNoDup(SPECIES_COUNTS, f, (r: Record) => r.numSpecies);
    forall r: Record ensures r in FlatMap(SPECIES_COUNTS, f) <==>
      r.hILS == h && r.lossRateIndicator == l && r.dupRate == d && r.numSpecies in SPECIES_COUNTS
      && r.runId in RUN_IDS && Kept(fs, root, r)
    {
      FlatMapMember(SPECIES_COUNTS, f, r);
      if r.numSpecies in SPECIES_COUNTS {
        assert r in f(r.numSpecies) <==> (r.hILS == h && r.lossRateIndicator == l && r.dupRate == d
          && r.runId in RUN_IDS && Kept(fs, root, r));
      }
    }
  }

  lemma LossRecordsMembers(fs: FileSystem, root: Path, h: bool, l: nat)
    ensures |LossRecords(fs, root, h, l)| <= 46080 && NoDup(LossRecords(fs, root, h, l))
    ensures forall r: Record :: r in LossRecords(fs, root, h, l) <==>
      r.hILS == h && r.lossRateIndicator == l && r.dupRate in DUP_RATES && r.numSpecies in SPECIES_COUNTS
      && r.runId in RUN_IDS && Kept(fs, root, r)
  {
    var f := d => DupRecords(fs, root, h, l, d);
    forall d | d in DUP_RATES
      ensures |f(d)| <= 7680 && NoDup(f(d))
      ensures forall r: Record :: r in f(d) <==>
        r.hILS == h && r.lossRateIndicator == l && r.dupRate == d && r.numSpecies in SPECIES_COUNTS
        && r.runId in RUN_IDS && Kept(fs, root, r)
    {
      DupRecordsMembers(fs, root, h, l, d);
    }
    FlatMapLength(DUP_RATES, f, 7680);
    GridListsDistinct();
    FlatMapNoDup(DUP_RATES, f, (r: Record) => r.dupRate);
    forall r: Record ensures r in FlatMap(DUP_RATES, f) <==>
      r.hILS == h && r.lossRateIndicator == l && r.dupRate in DUP_RATES && r.numSpecies in SPECIES_COUNTS
      && r.runId in RUN_IDS && Kept(fs, root, r)
    {
      FlatMapMember(DUP_RATES, f, r);
      if r.dupRate in DUP_RATES {
        assert r in f(r.dupRate) <==> (r.hILS == h && r.lossRateIndicator == l && r.numSpecies in SPECIES_COUNTS
          && r.runId in RUN_IDS && Kept(fs, root, r));
      }
    }
  }

  lemma HilsRecordsMembers(fs: FileSystem, root: Path, h: bool)
    ensures |HilsRecords(fs, root, h)| <= 92160 && NoDup(HilsRecords(fs, root, h))
    ensures forall r: Record :: r in HilsRecords(fs, root, h) <==>
      r.hILS == h && r.lossRateIndicator in LOSS_INDICATORS && r.dupRate in DUP_RATES
      && r.numSpecies in SPECIES_COUNTS && r.runId in RUN_IDS && Kept(fs, root, r)
  {
    var f := l => LossRecords(fs, root, h, l);
    forall l | l in LOSS_INDICATORS
      ensures |f(l)| <= 46080 && NoDup(f(l))
      ensures forall r: Record :: r in f(l) <==>
        r.hILS == h && r.lossRateIndicator == l && r.dupRate in DUP_RATES && r.numSpecies in SPECIES_COUNTS
        && r.runId in RUN_IDS && Kept(fs, root, r)
    {
      LossRecordsMembers(fs, root, h, l);
    }
    FlatMapLength(LOSS_INDICATORS, f, 46080);
    GridListsDistinct();
    FlatMapNoDup(LOSS_INDICATORS, f, (r: Record) => r.lossRateIndicator);
    forall r: Record ensures r in FlatMap(LOSS_INDICATORS, f) <==>
      r.hILS == h && r.lossRateIndicator in LOSS_INDICATORS && r.dupRate in DUP_RATES
      && r.numSpecies in SPECIES_COUNTS && r.runId in RUN_IDS && Kept(fs, root, r)
    {
      FlatMapMember(LOSS_INDICATORS, f, r);
      if r.lossRateIndicator in LOSS_INDICATORS {
        assert r in f(r.lossRateIndicator) <==> (r.hILS == h && r.dupRate in DUP_RATES
          && r.numSpecies in SPECIES_COUNTS && r.runId in RUN_IDS && Kept(fs, root, r));
      }
    }
  }

  /** The collected records are exactly the collectable ones, each once, and
      there are at most 4 per grid point: 2 * 2 * 6 * 3 * 10 * 4 * 4 * 4 * 4. */
  lemma CollectedMembers(fs: FileSystem, root: Path)
    ensures |Collected(fs, root)| <= 184320 && NoDup(Collected(fs, root))
    ensures forall r: Record :: r in Collected(fs, root) <==> Collectable(fs, root, r)
  {
    var f := h => HilsRecords(fs, root, h);
    forall h | h in HILS_VALUES
      ensures |f(h)| <= 92160 && NoDup(f(h))
      ensures forall r: Record :: r in f(h) <==>
        r.hILS == h && r.lossRateIndicator in LOSS_INDICATORS && r.dupRate in DUP_RATES
        && r.numSpecies in SPECIES_COUNTS && r.runId in RUN_IDS && Kept(fs, root, r)
    {
      HilsRecordsMembers(fs, root, h);
    }
    FlatMapLength(HILS_VALUES, f, 92160);
    GridListsDistinct();
    FlatMapNoDup(HILS_VALUES, f, (r: Record) => r.hILS);
    forall r: Record ensures r in FlatMap(HILS_VALUES, f) <==> Collectable(fs, root, r) {
      FlatMapMember(HILS_VALUES, f, r);
      assert r.hILS in HILS_VALUES;
      assert r in f(r.hILS) <==> Collectable(fs, root, r);
    }
  }

  /** A run whose directory does not exist contributes no record at all. */
  lemma MissingRunSkipped(fs: FileSystem, root: Path, k: RunKey)
    requires !fs.IsDir(RunDir(root, k))
    ensures RunRecords(fs, root, k) == []
    ensures forall r: Record :: r in Collected(fs, root) ==> RunKeyOf(r) != k
  {
    CollectedMembers(fs, root);
  }

  /** Every score file of the grid under an existing run directory is
      collected, with the labels of its probe and the score it holds. */
  lemma EveryScoreFileCollected(fs: FileSystem, root: Path, k: RunKey, c: GridCell, p: ProbeKind)
    requires InGrid(k) && CellInGrid(c) && p in CELL_PROBES
    requires fs.IsDir(RunDir(root, k)) && fs.IsFile(ProbePath(root, k, c, p))
    ensures ScoreRecord(k, c, p.tree, p.rooting, fs.files[ProbePath(root, k, c, p)]) in Collected(fs, root)
  {
    assert CollectedTree(p.tree);
    var rec := ScoreRecord(k, c, p.tree, p.rooting, fs.files[ProbePath(root, k, c, p)]);
    assert RecordPath(root, rec) == ProbePath(root, k, c, p);
    assert Collectable(fs, root, rec);
    CollectedMembers(fs, root);
  }

  /** The segments of the file a record's fields and labels name,
      `{root}/{id}/{run:02d}/{g_type}g/{n_genes}/disco/{tree}/{rooting}/le/{mult}/s_rooted_est.score`:
      the tree segment is `trues` exactly when true_species_tree is set, and the
      rooting segment is `qr` exactly for the "DISCO+QR" label. */
  lemma RecordPathSegments(root: Path, r: Record)
    ensures var p, i := RecordPath(root, r), |root| + 2;
      && |p| == i + 8
      && p[..i] == RunDir(root, RunKeyOf(r))
      && p[i] == GeneTreesDir(r.gType)
      && p[i + 1] == NatToString(r.nGenes)
      && p[i + 2] == "disco"
      && p[i + 3] == (if r.trueSpeciesTree then "trues" else "astrid")
      && p[i + 4] == (if r.methodName == QR_LABEL then "qr" else "qrstar")
      && p[i + 5] == SAMPLING_LE
      && p[i + 6] == NatToString(r.samplingMult)
  {
    var pr := ProbeOf(r);
    var run := RunDir(root, RunKeyOf(r));
    var tail := [GeneTreesDir(r.gType), NatToString(r.nGenes), "disco", UnrootedName(pr.tree), RootingName(pr.rooting),
                 "le", NatToString(r.samplingMult), SCORE_FILE];
    assert RecordPath(root, r) == run + tail;
  }

  /** A collected record carries one of the two method labels and the `le`
      sampling label, and holds the score of the file its labels name. */
  lemma CollectedRecordLabels(fs: FileSystem, root: Path, r: Record)
    requires r in Collected(fs, root)
    ensures r.methodName == QR_LABEL || r.methodName == QRSTAR_LABEL
    ensures r.samplingMethod == SAMPLING_LE
    ensures fs.IsFile(RecordPath(root, r)) && r.ncd == fs.files[RecordPath(root, r)]
  {
    CollectedMembers(fs, root);
    assert FromOwnFile(fs, root, r);
  }

  /** Two collected records read from the same file are the same record. */
  lemma OneRecordPerFile(fs: FileSystem, root: Path, r: Record, r': Record)
    requires r in Collected(fs, root) && r' in Collected(fs, root)
    requires RecordPath(root, r) == RecordPath(root, r')
    ensures r == r'
  {
    CollectedMembers(fs, root);
    var k, k' := RunKeyOf(r), RunKeyOf(r');
    var p, p' := ProbeOf(r), ProbeOf(r');
    DiscoScorePathInjective(RunDir(root, k), r.gType, r.nGenes, p.tree, p.rooting, r.samplingMult,
                            RunDir(root, k'), r'.gType, r'.nGenes, p'.tree, p'.rooting, r'.samplingMult);
    GridDupRatesHaveNoUnderscore(k.dupRate);
    GridDupRatesHaveNoUnderscore(k'.dupRate);
    RunDirInjective(root, k, k');
    assert r.methodName == r'.methodName;
  }

  /** For an existing run directory and one cell, the collector appends as many
      records as there are existing files among the cell's four score paths. */
  lemma CellRecordCount(fs: FileSystem, root: Path, k: RunKey, c: GridCell)
    ensures |CellRecords(fs, root, k, c)| == |Filter(CELL_PROBES, p => fs.IsFile(ProbePath(root, k, c, p)))|
  {
    FlatMapCount(CELL_PROBES, p => Probe(fs, root, k, c, p), p => fs.IsFile(ProbePath(root, k, c, p)));
  }

  // ---------------------------------------------------------------------------
  // The loop nest of the script.

  /** Lines 46-210 of the script: eight nested loops over the grid; a run whose
      directory is missing is skipped with `continue`; each existing score file
      appends one record to `results`. The hILS loop is here; the loops inside
      it are split over AppendHilsRecords (loss indicator, dup rate),
      AppendDupRecords (species count, run id) and AppendRunRecords (gene count,
      gene-tree type, multiplicity). */
  method Collect(fs: FileSystem, root: Path) returns (results: seq<Record>)
    ensures results == Collected(fs, root)
  {
    results := [];
    for i0 := 0 to |HILS_VALUES|
      invariant results == FlatMap(HILS_VALUES[..i0], h => HilsRecords(fs, root, h))
    {
      var hILS := HILS_VALUES[i0];
      results := AppendHilsRecords(fs, root, hILS, results);
      FlatMapSnoc(HILS_VALUES, i0, h => HilsRecords(fs, root, h));
    }
    assert HILS_VALUES[..|HILS_VALUES|] == HILS_VALUES;
  }

  /** Lines 48-210 of the script: the loss-indicator and dup-rate loops for one hILS value. */
  method AppendHilsRecords(fs: FileSystem, root: Path, hILS: bool, acc: seq<Record>) returns (results: seq<Record>)
    ensures results == acc + HilsRecords(fs, root, hILS)
  {
    results := acc;
    for i1 := 0 to |LOSS_INDICATORS|
      invariant results == acc + FlatMap(LOSS_INDICATORS[..i1], l => LossRecords(fs, root, hILS, l))
    {
      var lossRateIndicator := LOSS_INDICATORS[i1];
      ghost var before1 := results;
      for i2 := 0 to |DUP_RATES|
        invariant results == before1 + FlatMap(DUP_RATES[..i2], d => DupRecords(fs, root, hILS, lossRateIndicator, d))
      {
        var dupRate := DUP_RATES[i2];
        results := AppendDupRecords(fs, root, hILS, lossRateIndicator, dupRate, results);
        FlatMapSnoc(DUP_RATES, i2, d => DupRecords(fs, root, hILS, lossRateIndicator, d));
        AppendAssoc(before1, FlatMap(DUP_RATES[..i2], d => DupRecords(fs, root, hILS, lossRateIndicator, d)),
                    DupRecords(fs, root, hILS, lossRateIndicator, dupRate));
      }
      assert DUP_RATES[..|DUP_RATES|] == DUP_RATES;
      FlatMapSnoc(LOSS_INDICATORS, i1, l => LossRecords(fs, root, hILS, l));
      AppendAssoc(acc, FlatMap(LOSS_INDICATORS[..i1], l => LossRecords(fs, root, hILS, l)),
                  LossRecords(fs, root, hILS, lossRateIndicator));
    }
    assert LOSS_INDICATORS[..|LOSS_INDICATORS|] == LOSS_INDICATORS;
  }

  /** Lines 50-210 of the script: the species and run loops for one (hILS,
      loss, dup rate); a run whose directory does not exist is skipped. */
  method AppendDupRecords(fs: FileSystem, root: Path, hILS: bool, lossRateIndicator: nat, dupRate: string,
                          acc: seq<Record>) returns (results: seq<Record>)
    ensures results == acc + DupRecords(fs, root, hILS, lossRateIndicator, dupRate)
  {
    results := acc;
    for i3 := 0 to |SPECIES_COUNTS|
      invariant results == acc
        + FlatMap(SPECIES_COUNTS[..i3], n => SpeciesRecords(fs, root, hILS, lossRateIndicator, dupRate, n))
    {
      var numSpecies := SPECIES_COUNTS[i3];
      ghost var before3 := results;
      for i4 := 0 to |RUN_IDS|
        invariant results == before3
          + FlatMap(RUN_IDS[..i4], run => RunRecords(fs, root, RunKey(hILS, lossRateIndicator, dupRate, numSpecies, run)))
      {
        var runId := RUN_IDS[i4];
        var key := RunKey(hILS, lossRateIndicator, dupRate, numSpecies, runId);
        var subrootDir := RunDir(root, key);
        FlatMapSnoc(RUN_IDS, i4, run => RunRecords(fs, root, RunKey(hILS, lossRateIndicator, dupRate, numSpecies, run)));
        AppendAssoc(before3, FlatMap(RUN_IDS[..i4], run => RunRecords(fs, root, RunKey(hILS, lossRateIndicator, dupRate, numSpecies, run))),
                    RunRecords(fs, root, key));
        if !fs.IsDir(subrootDir) {
          continue;
        }
        results := AppendRunRecords(fs, root, key, results);
      }
      assert RUN_IDS[..|RUN_IDS|] == RUN_IDS;
      FlatMapSnoc(SPECIES_COUNTS, i3, n => SpeciesRecords(fs, root, hILS, lossRateIndicator, dupRate, n));
      AppendAssoc(acc, FlatMap(SPECIES_COUNTS[..i3], n => SpeciesRecords(fs, root, hILS, lossRateIndicator, dupRate, n)),
                  SpeciesRecords(fs, root, hILS, lossRateIndicator, dupRate, numSpecies));
    }
    assert SPECIES_COUNTS[..|SPECIES_COUNTS|] == SPECIES_COUNTS;
  }

  /** Lines 67-210 of the script, for one run whose directory exists: three
      nested loops over the cells of the run. */
  method AppendRunRecords(fs: FileSystem, root: Path, key: RunKey, acc: seq<Record>) returns (results: seq<Record>)
    requires fs.IsDir(RunDir(root, key))
    ensures results == acc + RunRecords(fs, root, key)
  {
    results := acc;
    for i5 := 0 to |GENE_COUNTS|
      invariant results == acc + FlatMap(GENE_COUNTS[..i5], g => GenesRecords(fs, root, key, g))
    {
      var nGenes := GENE_COUNTS[i5];
      ghost var before5 := results;
      for i6 := 0 to |GENE_TREE_TYPES|
        invariant results == before5
          + FlatMap(GENE_TREE_TYPES[..i6], t => GeneTreesRecords(fs, root, key, nGenes, t))
      {
        var gType := GENE_TREE_TYPES[i6];
        ghost var before6 := results;
        for i7 := 0 to |MULTIPLICITIES|
          invariant results == before6
            + FlatMap(MULTIPLICITIES[..i7], m => CellRecords(fs, root, key, GridCell(nGenes, gType, m)))
        {
          var mult := MULTIPLICITIES[i7];
          var cell := GridCell(nGenes, gType, mult);
          ghost var before7 := results;
          results := AppendCellRecords(fs, root, key, cell, results);
          FlatMapSnoc(MULTIPLICITIES, i7, m => CellRecords(fs, root, key, GridCell(nGenes, gType, m)));
          AppendAssoc(before6, FlatMap(MULTIPLICITIES[..i7], m => CellRecords(fs, root, key, GridCell(nGenes, gType, m))),
                      CellRecords(fs, root, key, cell));
        }
        assert MULTIPLICITIES[..|MULTIPLICITIES|] == MULTIPLICITIES;
        FlatMapSnoc(GENE_TREE_TYPES, i6, t => GeneTreesRecords(fs, root, key, nGenes, t));
        AppendAssoc(before5, FlatMap(GENE_TREE_TYPES[..i6], t => GeneTreesRecords(fs, root, key, nGenes, t)),
                    GeneTreesRecords(fs, root, key, nGenes, gType));
      }
      assert GENE_TREE_TYPES[..|GENE_TREE_TYPES|] == GENE_TREE_TYPES;
      FlatMapSnoc(GENE_COUNTS, i5, g => GenesRecords(fs, root, key, g));
      AppendAssoc(acc, FlatMap(GENE_COUNTS[..i5], g => GenesRecords(fs, root, key, g)), GenesRecords(fs, root, key, nGenes));
    }
    assert GENE_COUNTS[..|GENE_COUNTS|] == GENE_COUNTS;
  }

  /** Lines 70-210 of the script, for one cell: the four score files, each
      appending its record when it exists. */
  method AppendCellRecords(fs: FileSystem, root: Path, key: RunKey, cell: GridCell, acc: seq<Record>)
    returns (results: seq<Record>)
    ensures results == acc + CellRecords(fs, root, key, cell)
  {
    ghost var probe := p => Probe(fs, root, key, cell, p);
    var subrootDir := RunDir(root, key);
    var nGenes, gType, mult := cell.nGenes, cell.gType, cell.mult;
    results := acc;
    var ncdQrFp := DiscoScorePath(subrootDir, gType, nGenes, Astrid, QR, mult);
    if fs.IsFile(ncdQrFp) {
      results := results + [ScoreRecord(key, cell, Astrid, QR, fs.files[ncdQrFp])];
    }
    assert results == acc + probe(CELL_PROBES[0]);
    ghost var after0 := results;
    var ncdQrstarFp := DiscoScorePath(subrootDir, gType, nGenes, Astrid, QRStar, mult);
    if fs.IsFile(ncdQrstarFp) {
      results := results + [ScoreRecord(key, cell, Astrid, QRStar, fs.files[ncdQrstarFp])];
    }
    assert results == after0 + probe(CELL_PROBES[1]);
    ghost var after1 := results;
    var ncdQrTruesFp := DiscoScorePath(subrootDir, gType, nGenes, Trues, QR, mult);
    if fs.IsFile(ncdQrTruesFp) {
      results := results + [ScoreRecord(key, cell, Trues, QR, fs.files[ncdQrTruesFp])];
    }
    assert results == after1 + probe(CELL_PROBES[2]);
    ghost var after2 := results;
    var ncdQrstarTruesFp := DiscoScorePath(subrootDir, gType, nGenes, Trues, QRStar, mult);
    if fs.IsFile(ncdQrstarTruesFp) {
      results := results + [ScoreRecord(key, cell, Trues, QRStar, fs.files[ncdQrstarTruesFp])];
    }
    assert results == after2 + probe(CELL_PROBES[3]);
    CellRecordsAfter(fs, root, key, cell, acc);
  }
}
