/**
 * The experiment grid walked by both the result collector and the
 * missing-file auditor, the file-system model they probe, and the paths they
 * build from a grid point. Both scripts spell out the same parameter lists and
 * the same run-directory format; here they are defined once.
 *
 * A path is the sequence of its segments; `a / "b"` in the scripts is `a + ["b"]`.
 */
module Grid {
  import opened Seqs
  import opened Decimal

  type Path = seq<string>

  /** Gene-tree type: the true gene trees, or trees estimated from alignments
      of the given length. The scripts use the string "true" and the integers. */
  datatype GeneTrees = TrueGeneTrees | EstimatedFrom(seqLen: nat)

  /** Method that produced the unrooted species tree DISCO roots. */
  datatype UnrootedTree = Astral | Astrid | Trues

  /** Rooting method applied to that tree. */
  datatype Rooting = QR | QRStar

  const HILS_VALUES: seq<bool> := [false, true]
  const DUP_RATES: seq<string> := ["1e-9", "1e-10", "5e-10", "1e-11", "1e-12", "1e-13"]
  const LOSS_INDICATORS: seq<nat> := [0, 1]
  const SPECIES_COUNTS: seq<nat> := [20, 50, 100]
  const RUN_IDS: seq<nat> := [1, 2, 3, 4, 5, 6, 7, 8, 9, 10]
  const GENE_COUNTS: seq<nat> := [50, 100, 500, 1000]
  const GENE_TREE_TYPES: seq<GeneTrees> :=
    [TrueGeneTrees, EstimatedFrom(50), EstimatedFrom(100), EstimatedFrom(500)]
  const MULTIPLICITIES: seq<nat> := [1, 5, 10, 50]
  const ROOTINGS: seq<Rooting> := [QR, QRStar]

  const SCORE_FILE := "s_rooted_est.score"

  /** Every loop of the grid ranges over distinct values. */
  lemma GridListsDistinct()
    ensures NoDup(HILS_VALUES) && NoDup(LOSS_INDICATORS) && NoDup(DUP_RATES) && NoDup(SPECIES_COUNTS)
    ensures NoDup(RUN_IDS) && NoDup(GENE_COUNTS) && NoDup(GENE_TREE_TYPES) && NoDup(MULTIPLICITIES)
  {
  }

  /** The five outer loop variables: one simulated replicate. */
  datatype RunKey = RunKey(hILS: bool, lossIndicator: nat, dupRate: string, species: nat, run: nat)

  predicate InGrid(k: RunKey)
  {
    && k.hILS in HILS_VALUES
    && k.lossIndicator in LOSS_INDICATORS
    && k.dupRate in DUP_RATES
    && k.species in SPECIES_COUNTS
    && k.run in RUN_IDS
  }

  /** The abstract file system both scripts query: which paths are
      directories, and which are regular files with the score they hold. */
  datatype FileSystem = FileSystem(dirs: set<Path>, files: map<Path, real>)
  {
    /** `Path.is_dir()` */
    predicate IsDir(p: Path) { p in dirs }
    /** `Path.is_file()` */
    predicate IsFile(p: Path) { p in files }
    /** `Path.exists()`: a directory or a file */
    predicate Exists(p: Path) { p in dirs || p in files }
  }

  function HilsSuffix(hILS: bool): string
  {
    if hILS then "_hILS" else ""
  }

  /** `{num_species}_gdl_{dup_rate}_{loss_rate_indicator}`, then `_hILS` when
      hILS: the name ends in `_hILS` exactly for the high-ILS runs, since
      otherwise it ends in the last digit of the loss indicator. */
  function RunName(k: RunKey): (s: string)
    ensures k.hILS <==> |s| >= 5 && s[|s| - 5..] == "_hILS"
  {
    var loss := NatToString(k.lossIndicator);
    var s := NatToString(k.species) + "_gdl_" + k.dupRate + "_" + loss + HilsSuffix(k.hILS);
    assert !k.hILS ==> s[|s| - 1] == loss[|loss| - 1] && IsDigit(s[|s| - 1]);
    s
  }

  /** `{root}/{id}/{run_id:02d}` */
  function RunDir(root: Path, k: RunKey): (p: Path)
    ensures |p| == |root| + 2 && p[..|root|] == root
  {
    root + [RunName(k), ZeroPad2(k.run)]
  }

  /** `f"{g_type}"` */
  function GeneTreesName(t: GeneTrees): string
  {
    match t
    case TrueGeneTrees => "true"
    case EstimatedFrom(n) => NatToString(n)
  }

  /** `f"{g_type}g"`: the directory of one gene-tree type. */
  function GeneTreesDir(t: GeneTrees): string
  {
    GeneTreesName(t) + "g"
  }

  function UnrootedName(u: UnrootedTree): string
  {
    match u
    case Astral => "astral"
    case Astrid => "astrid"
    case Trues => "trues"
  }

  function RootingName(r: Rooting): string
  {
    match r
    case QR => "qr"
    case QRStar => "qrstar"
  }

  /** `{run}/{g_type}g/{n_genes}/disco/{unrooted}/{rooting}/le/{mult}/s_rooted_est.score` */
  function DiscoScorePath(run: Path, t: GeneTrees, nGenes: nat, u: UnrootedTree, r: Rooting, mult: nat): (p: Path)
    ensures |p| == |run| + 8 && p[..|run|] == run
  {
    run + [GeneTreesDir(t), NatToString(nGenes), "disco", UnrootedName(u), RootingName(r), "le",
           NatToString(mult), SCORE_FILE]
  }

  /** `{run}/{g_type}g/{n_genes}/stride/{unrooted}/s_rooted_est.score` */
  function StrideScorePath(run: Path, t: GeneTrees, nGenes: nat, u: UnrootedTree): (p: Path)
    ensures |p| == |run| + 5 && p[..|run|] == run
  {
    run + [GeneTreesDir(t), NatToString(nGenes), "stride", UnrootedName(u), SCORE_FILE]
  }

  /** `{run}/g_{g_type}.trees`: the gene trees of one type in a reference run. */
  function GeneTreesFile(run: Path, t: GeneTrees): (p: Path)
    ensures |p| == |run| + 1 && p[..|run|] == run
  {
    run + ["g_" + GeneTreesName(t) + ".trees"]
  }

  // ---------------------------------------------------------------------------
  // Injectivity of the paths. A dup rate of the grid never contains '_', so the
  // '_'-separated fields of a run name can be told apart.

  predicate NoUnderscore(s: string)
  {
    '_' !in s
  }

  lemma GridDupRatesHaveNoUnderscore(d: string)
    requires d in DUP_RATES
    ensures NoUnderscore(d)
  {
  }

  lemma DigitsHaveNoUnderscore(s: string)
    requires AllDigits(s)
    ensures NoUnderscore(s)
  {
    forall i | 0 <= i < |s| ensures s[i] != '_' {
      assert IsDigit(s[i]);
    }
  }

  /** Length of the leading field of a '_'-separated string. */
  function FieldEnd(w: string): (e: nat)
    ensures e <= |w|
  {
    if w == [] || w[0] == '_' then 0 else 1 + FieldEnd(w[1..])
  }

  lemma {:induction false} FieldEndOf(a: string, s: string)
    requires NoUnderscore(a)
    requires s == [] || s[0] == '_'
    ensures FieldEnd(a + s) == |a|
  {
    if a != [] {
      assert (a + s)[0] == a[0];
      assert (a + s)[1..] == a[1..] + s;
      FieldEndOf(a[1..], s);
    }
  }

  /** A field followed by the rest of a '_'-separated string is determined by it. */
  lemma SplitAtUnderscore(a: string, s: string, a': string, s': string)
    requires NoUnderscore(a) && NoUnderscore(a')
    requires s == [] || s[0] == '_'
    requires s' == [] || s'[0] == '_'
    requires a + s == a' + s'
    ensures a == a' && s == s'
  {
    FieldEndOf(a, s);
    FieldEndOf(a', s');
    assert a == (a + s)[..|a|] && a' == (a' + s')[..|a'|];
    assert s == (a + s)[|a|..] && s' == (a' + s')[|a'|..];
  }

  lemma DropPrefix(p: string, x: string, y: string)
    requires p + x == p + y
    ensures x == y
  {
    assert x == (p + x)[|p|..] && y == (p + y)[|p|..];
  }

  /** The run name after the species count: `_gdl_{dup_rate}_{loss}[_hILS]`. */
  function RunNameTail(k: RunKey): string
  {
    "_gdl_" + (k.dupRate + ("_" + (NatToString(k.lossIndicator) + HilsSuffix(k.hILS))))
  }

  lemma RunNameSplit(k: RunKey)
    ensures RunName(k) == NatToString(k.species) + RunNameTail(k)
  {
  }

  lemma RunNameTailInjective(k: RunKey, k': RunKey)
    requires NoUnderscore(k.dupRate) && NoUnderscore(k'.dupRate)
    requires RunNameTail(k) == RunNameTail(k')
    ensures k.hILS == k'.hILS && k.lossIndicator == k'.lossIndicator && k.dupRate == k'.dupRate
  {
    var ls, ls' := NatToString(k.lossIndicator), NatToString(k'.lossIndicator);
    var h, h' := HilsSuffix(k.hILS), HilsSuffix(k'.hILS);
    DropPrefix("_gdl_", k.dupRate + ("_" + (ls + h)), k'.dupRate + ("_" + (ls' + h')));
    SplitAtUnderscore(k.dupRate, "_" + (ls + h), k'.dupRate, "_" + (ls' + h'));
    DropPrefix("_", ls + h, ls' + h');
    DigitsHaveNoUnderscore(ls);
    DigitsHaveNoUnderscore(ls');
    SplitAtUnderscore(ls, h, ls', h');
    NatToStringInjective(k.lossIndicator, k'.lossIndicator);
  }

  /** The run name determines every run coordinate except the run id. */
  lemma RunNameInjective(k: RunKey, k': RunKey)
    requires NoUnderscore(k.dupRate) && NoUnderscore(k'.dupRate)
    requires RunName(k) == RunName(k')
    ensures k.hILS == k'.hILS && k.lossIndicator == k'.lossIndicator
    ensures k.dupRate == k'.dupRate && k.species == k'.species
  {
    var sp, sp' := NatToString(k.species), NatToString(k'.species);
    RunNameSplit(k);
    RunNameSplit(k');
    DigitsHaveNoUnderscore(sp);
    DigitsHaveNoUnderscore(sp');
    SplitAtUnderscore(sp, RunNameTail(k), sp', RunNameTail(k'));
    NatToStringInjective(k.species, k'.species);
    RunNameTailInjective(k, k');
  }

  /** Distinct grid points have distinct run directories. */
  lemma RunDirInjective(root: Path, k: RunKey, k': RunKey)
    requires NoUnderscore(k.dupRate) && NoUnderscore(k'.dupRate)
    requires RunDir(root, k) == RunDir(root, k')
    ensures k == k'
  {
    assert RunDir(root, k)[|root|] == RunName(k);
    assert RunDir(root, k')[|root|] == RunName(k');
    RunNameInjective(k, k');
    assert RunDir(root, k)[|root| + 1] == ZeroPad2(k.run);
    assert RunDir(root, k')[|root| + 1] == ZeroPad2(k'.run);
    ZeroPad2Injective(k.run, k'.run);
  }

  /** Only the true gene trees have a name starting with a letter. */
  lemma GeneTreesNameHead(t: GeneTrees)
    ensures |GeneTreesName(t)| >= 1
    ensures GeneTreesName(t)[0] == 't' <==> t.TrueGeneTrees?
  {
    if t.EstimatedFrom? {
      assert IsDigit(GeneTreesName(t)[0]);
    }
  }

  lemma GeneTreesNameInjective(t: GeneTrees, t': GeneTrees)
    requires GeneTreesName(t) == GeneTreesName(t')
    ensures t == t'
  {
    GeneTreesNameHead(t);
    GeneTreesNameHead(t');
    if t.EstimatedFrom? && t'.EstimatedFrom? {
      NatToStringInjective(t.seqLen, t'.seqLen);
    }
  }

  lemma GeneTreesDirInjective(t: GeneTrees, t': GeneTrees)
    requires GeneTreesDir(t) == GeneTreesDir(t')
    ensures t == t'
  {
    var s, s' := GeneTreesName(t), GeneTreesName(t');
    assert s == GeneTreesDir(t)[..|s|] && s' == GeneTreesDir(t')[..|s'|];
    GeneTreesNameInjective(t, t');
  }

  /** A DISCO score path names its run, gene-tree type, gene count, unrooted
      species-tree method, rooting method and multiplicity. */
  lemma DiscoScorePathInjective(run: Path, t: GeneTrees, n: nat, u: UnrootedTree, r: Rooting, m: nat,
                                run': Path, t': GeneTrees, n': nat, u': UnrootedTree, r': Rooting, m': nat)
    requires |run| == |run'|
    requires DiscoScorePath(run, t, n, u, r, m) == DiscoScorePath(run', t', n', u', r', m')
    ensures run == run' && t == t' && n == n' && u == u' && r == r' && m == m'
  {
    var p, p' := DiscoScorePath(run, t, n, u, r, m), DiscoScorePath(run', t', n', u', r', m');
    var b := |run|;
    assert run == p[..b] && run' == p'[..b];
    assert p[b] == GeneTreesDir(t) && p'[b] == GeneTreesDir(t');
    GeneTreesDirInjective(t, t');
    assert p[b + 1] == NatToString(n) && p'[b + 1] == NatToString(n');
    NatToStringInjective(n, n');
    assert p[b + 3] == UnrootedName(u) && p'[b + 3] == UnrootedName(u');
    assert p[b + 4] == RootingName(r) && p'[b + 4] == RootingName(r');
    assert p[b + 6] == NatToString(m) && p'[b + 6] == NatToString(m');
    NatToStringInjective(m, m');
  }

  lemma StrideScorePathInjective(run: Path, t: GeneTrees, n: nat, u: UnrootedTree,
                                 run': Path, t': GeneTrees, n': nat, u': UnrootedTree)
    requires |run| == |run'|
    requires StrideScorePath(run, t, n, u) == StrideScorePath(run', t', n', u')
    ensures run == run' && t == t' && n == n' && u == u'
  {
    var p, p' := StrideScorePath(run, t, n, u), StrideScorePath(run', t', n', u');
    var b := |run|;
    assert run == p[..b] && run' == p'[..b];
    assert p[b] == GeneTreesDir(t) && p'[b] == GeneTreesDir(t');
    GeneTreesDirInjective(t, t');
    assert p[b + 1] == NatToString(n) && p'[b + 1] == NatToString(n');
    NatToStringInjective(n, n');
    assert p[b + 3] == UnrootedName(u) && p'[b + 3] == UnrootedName(u');
  }

  /** `{run_id:02d}` over the run ids: two digits that read back as the id,
      with a leading zero exactly for the ids 1 to 9. */
  lemma RunIdNames(run: nat)
    requires run in RUN_IDS
    ensures |ZeroPad2(run)| == 2 && AllDigits(ZeroPad2(run))
    ensures ParseDecimal(ZeroPad2(run)) == run
    ensures ZeroPad2(run)[0] == '0' <==> run < 10
  {
    ParseZeroPad2(run);
  }
}
