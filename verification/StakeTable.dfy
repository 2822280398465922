/**
 * The worst-case economic floor of a stake configuration on the contract's own flat table
 * (backend/src/routes/stakeConfig.ts, worstCaseKappa).
 */
module StakeTable {
  import opened Arith
  import opened Wrappers

  const FULL_BPS: int := 10_000

  /** Contract-native configuration; refundTable is row-major, one row per size bucket. */
  datatype Config = Config(sizeThresholds: seq<int>, collateralRate: seq<int>, timeThresholds: seq<int>,
                           timeMult: seq<int>, ratioThresholds: seq<int>, refundTable: seq<int>, minCollateral: int)

  /** A breakeven edge and the cell (size row, fill-ratio bucket) it comes from. */
  datatype Worst = Worst(kappaBps: int, s: nat, idx: nat)

  /** What both representations describe: one refund row per size bucket, one column per fill-ratio bucket. */
  datatype Table = Table(rho: seq<int>, mult: seq<int>, thresholds: seq<int>, rows: seq<seq<int>>)
  {
    ghost predicate Rectangular() {
      |rows| == |rho| && forall s :: 0 <= s < |rows| ==> |rows[s]| == |thresholds| + 1
    }
  }

  function Combined(rho: int, mult: int): int {
    TruncDiv(rho * mult, FULL_BPS)
  }

  function Kappa(combined: int, penalty: int, x: int): int
    requires x != 0
  {
    TruncDiv(combined * penalty, x)
  }

  // ---------------------------------------------------------------- the shortcut, as a function

  /** Last of the first k cells that refunds less than everything, or -1. */
  function LastBelow(row: seq<int>, k: nat): (idx: int)
    requires k <= |row|
    ensures -1 <= idx < k
    ensures idx >= 0 ==> row[idx] < FULL_BPS
    ensures forall i :: idx < i < k ==> row[i] >= FULL_BPS
  {
    if k == 0 then -1 else if row[k - 1] < FULL_BPS then k - 1 else LastBelow(row, k - 1)
  }

  function Lower(best: Option<Worst>, candidate: Worst): Option<Worst> {
    if best.None? || candidate.kappaBps < best.value.kappaBps then Some(candidate) else best
  }

  /** Tries every multiplier from t on in one cell. */
  function ScanTimes(rho: int, mult: seq<int>, t: nat, penalty: int, x: int, s: nat, idx: nat,
                     best: Option<Worst>): Option<Worst>
    requires x != 0 && t <= |mult|
    decreases |mult| - t
  {
    if t == |mult| then best
    else ScanTimes(rho, mult, t + 1, penalty, x, s, idx,
                   Lower(best, Worst(Kappa(Combined(rho, mult[t]), penalty, x), s, idx)))
  }

  /** Tries one cell per row, from row s on. */
  function ScanRows(table: Table, s: nat, best: Option<Worst>): Option<Worst>
    requires table.Rectangular() && s <= |table.rho|
    decreases |table.rho| - s
  {
    if s == |table.rho| then best
    else
      var idx := LastBelow(table.rows[s], |table.thresholds|);
      if idx == -1 then Some(Worst(0, s, 0))
      else if table.thresholds[idx] == 0 then Some(Worst(0, s, idx))
      else ScanRows(table, s + 1,
                    ScanTimes(table.rho[s], table.mult, 0, FULL_BPS - table.rows[s][idx], table.thresholds[idx], s, idx,
                              best))
  }

  /** The shortcut over a whole table. */
  function WorstCell(table: Table): Option<Worst>
    requires table.Rectangular()
  {
    if table.thresholds == [] then Some(Worst(0, 0, 0)) else ScanRows(table, 0, None)
  }

  // ---------------------------------------------------------------- the flat method

  function Columns(cfg: Config): nat {
    |cfg.ratioThresholds| + 1
  }

  lemma CellInTable(s: nat, size: nat, r: nat, columns: nat)
    requires s < size && r < columns
    ensures 0 <= s * columns + r < size * columns
  {
    MulMono(s + 1, size, columns);
    Distribute(s, 1, columns);
    MulMono(0, s, columns);
  }

  /** The rows of a flat table. */
  function RowsOf(flat: seq<int>, size: nat, columns: nat): (rows: seq<seq<int>>)
    requires |flat| == size * columns
    ensures |rows| == size && forall s :: 0 <= s < size ==> |rows[s]| == columns
  {
    seq(size, s requires 0 <= s < size =>
      seq(columns, r requires 0 <= r < columns => (CellInTable(s, size, r, columns); flat[s * columns + r])))
  }

  predicate WellShaped(cfg: Config) {
    |cfg.refundTable| == |cfg.collateralRate| * Columns(cfg)
  }

  function TableOf(cfg: Config): (table: Table)
    requires WellShaped(cfg)
    ensures table.Rectangular()
  {
    Table(cfg.collateralRate, cfg.timeMult, cfg.ratioThresholds,
          RowsOf(cfg.refundTable, |cfg.collateralRate|, Columns(cfg)))
  }

  /** The inner walk back over one row, or -1 when every bucket refunds in full. */
  method LastNonHonest(cfg: Config, s: nat) returns (idx: int)
    requires WellShaped(cfg) && s < |cfg.collateralRate|
    ensures idx == LastBelow(TableOf(cfg).rows[s], |cfg.ratioThresholds|)
  {
    var R := Columns(cfg);
    ghost var row := TableOf(cfg).rows[s];
    var k := R - 1;
    while k > 0
      invariant 0 <= k <= R - 1
      invariant LastBelow(row, k) == LastBelow(row, R - 1)
    {
      CellInTable(s, |cfg.collateralRate|, k - 1, R);
      if cfg.refundTable[s * R + (k - 1)] < FULL_BPS {
        return k - 1;
      }
      k := k - 1;
    }
    return -1;
  }

  /** The inner loop over the time multipliers of one cell. */
  method LowestOverTimes(rho: int, mult: seq<int>, penalty: int, x: int, s: nat, idx: nat, start: Option<Worst>)
    returns (best: Option<Worst>)
    requires x != 0
    ensures best == ScanTimes(rho, mult, 0, penalty, x, s, idx, start)
  {
    best := start;
    var t := 0;
    while t < |mult|
      invariant 0 <= t <= |mult|
      invariant ScanTimes(rho, mult, t, penalty, x, s, idx, best) == ScanTimes(rho, mult, 0, penalty, x, s, idx, start)
    {
      var kappa := Kappa(Combined(rho, mult[t]), penalty, x);
      if best.None? || kappa < best.value.kappaBps {
        best := Some(Worst(kappa, s, idx));
      }
      t := t + 1;
    }
  }

  method WorstCaseKappa(cfg: Config) returns (r: Option<Worst>)
    ensures r == if |cfg.collateralRate| < 1 || |cfg.timeMult| < 1 || !WellShaped(cfg) then None
                 else WorstCell(TableOf(cfg))
  {
    var S, T, R := |cfg.collateralRate|, |cfg.timeMult|, Columns(cfg);
    if S < 1 || T < 1 || |cfg.refundTable| != S * R {
      return None;
    }
    if R < 2 {
      return Some(Worst(0, 0, 0));
    }
    ghost var table := TableOf(cfg);
    var best: Option<Worst> := None;
    var s := 0;
    while s < S
      invariant 0 <= s <= S
      invariant ScanRows(table, s, best) == WorstCell(table)
    {
      var idx := LastNonHonest(cfg, s);
      if idx == -1 {
        return Some(Worst(0, s, 0));
      }
      var x := cfg.ratioThresholds[idx];
      if x == 0 {
        return Some(Worst(0, s, idx));
      }
      CellInTable(s, S, idx, R);
      assert table.rows[s][idx] == cfg.refundTable[s * R + idx];
      var penalty := FULL_BPS - cfg.refundTable[s * R + idx];
      best := LowestOverTimes(cfg.collateralRate[s], cfg.timeMult, penalty, x, s, idx, best);
      s := s + 1;
    }
    return best;
  }

  // ---------------------------------------------------------------- the exhaustive search it replaces

  /** Bucket k of row s refunds less than everything, so stopping there costs something. */
  ghost predicate Exposed(table: Table, s: int, k: int)
    requires table.Rectangular()
  {
    0 <= s < |table.rho| && 0 <= k < |table.thresholds| && table.rows[s][k] < FULL_BPS
  }

  /** Breakeven edge at the upper end of an exposed bucket. */
  ghost function Edge(table: Table, s: int, t: int, k: int): int
    requires table.Rectangular() && Exposed(table, s, k) && 0 <= t < |table.mult| && table.thresholds[k] != 0
  {
    Kappa(Combined(table.rho[s], table.mult[t]), FULL_BPS - table.rows[s][k], table.thresholds[k])
  }

  /** What the validator guarantees before the floor is computed: refunds climb along ascending thresholds. */
  ghost predicate Climbing(table: Table) {
    && table.Rectangular()
    && (forall s, i, j ::
          0 <= s < |table.rows| && 0 <= i <= j < |table.rows[s]| ==> table.rows[s][i] <= table.rows[s][j])
    && (forall i, j :: 0 <= i < j < |table.thresholds| ==> table.thresholds[i] < table.thresholds[j])
  }

  /** Climbing, and no rate or multiplier is negative, which the validator checks of rates only. */
  ghost predicate Ordered(table: Table) {
    && Climbing(table)
    && (forall s :: 0 <= s < |table.rho| ==> 0 <= table.rho[s])
    && (forall t :: 0 <= t < |table.mult| ==> 0 <= table.mult[t])
  }

  ghost predicate Positive(thresholds: seq<int>) {
    forall k :: 0 <= k < |thresholds| ==> 0 < thresholds[k]
  }

  ghost predicate HasExposed(table: Table, s: int)
    requires table.Rectangular()
  {
    exists k :: Exposed(table, s, k)
  }

  lemma TruncOfNat(a: int, b: int)
    requires a >= 0 && b > 0
    ensures TruncDiv(a, b) == a / b && a / b >= 0
  {
    QuotientAtLeast(0, a, b);
  }

  /** A later exposed bucket is never the safer one: smaller penalty, larger fill. */
  lemma LaterBucketIsWorse(combined: int, penalty: int, x: int, penalty': int, x': int)
    requires 0 <= combined && 0 <= penalty' <= penalty && 0 < x <= x'
    ensures Kappa(combined, penalty', x') <= Kappa(combined, penalty, x)
  {
    MulMono(penalty', penalty, combined);
    MulMono(0, penalty', combined);
    var low := combined * penalty' / x';
    TruncOfNat(combined * penalty', x');
    DivBounds(combined * penalty', x');
    MulMono(x, x', low);
    QuotientAtLeast(low, combined * penalty, x);
    TruncOfNat(combined * penalty, x);
  }

  lemma ScanTimesFinds(rho: int, mult: seq<int>, t: nat, penalty: int, x: int, s: nat, idx: nat, best: Option<Worst>)
    requires x != 0 && t <= |mult|
    ensures var r := ScanTimes(rho, mult, t, penalty, x, s, idx, best);
            && (t < |mult| || best.Some? ==> r.Some?)
            && (best.Some? ==> r.value.kappaBps <= best.value.kappaBps)
            && (forall u :: t <= u < |mult| ==> r.value.kappaBps <= Kappa(Combined(rho, mult[u]), penalty, x))
            && (r == best
                || (r.Some?
                    && exists u ::
                         t <= u < |mult| && r.value == Worst(Kappa(Combined(rho, mult[u]), penalty, x), s, idx)))
    decreases |mult| - t
  {
    if t < |mult| {
      var candidate := Worst(Kappa(Combined(rho, mult[t]), penalty, x), s, idx);
      ScanTimesFinds(rho, mult, t + 1, penalty, x, s, idx, Lower(best, candidate));
    }
  }

  /** r is the least edge over the exposed buckets of rows [lo, hi). */
  ghost predicate IsLeast(table: Table, lo: nat, hi: nat, r: Option<Worst>)
    requires Ordered(table) && Positive(table.thresholds) && hi <= |table.rho|
  {
    && (lo < hi ==> r.Some?)
    && (r.Some? ==> exists t :: Attains(table, r.value, t))
    && (r.Some? ==> forall s, t, k ::
          lo <= s < hi && 0 <= t < |table.mult| && Exposed(table, s, k) ==> r.value.kappaBps <= Edge(table, s, t, k))
  }

  ghost predicate Attains(table: Table, w: Worst, t: int)
    requires Ordered(table) && Positive(table.thresholds)
  {
    Exposed(table, w.s, w.idx) && 0 <= t < |table.mult| && w.kappaBps == Edge(table, w.s, t, w.idx)
  }

  /** Within a row the last exposed bucket has the least edge, at every time. */
  lemma LastBucketIsWorst(table: Table, s: nat, t: nat, k: nat)
    requires Ordered(table) && Positive(table.thresholds) && t < |table.mult| && Exposed(table, s, k)
    ensures var idx := LastBelow(table.rows[s], |table.thresholds|);
            k <= idx && Exposed(table, s, idx) && Edge(table, s, t, idx) <= Edge(table, s, t, k)
  {
    var idx := LastBelow(table.rows[s], |table.thresholds|);
    assert k <= idx;
    CombinedIsNat(table.rho[s], table.mult[t]);
    LaterBucketIsWorse(Combined(table.rho[s], table.mult[t]), FULL_BPS - table.rows[s][k], table.thresholds[k],
                       FULL_BPS - table.rows[s][idx], table.thresholds[idx]);
  }

  /** One row: its last exposed bucket stands for all of them. */
  lemma RowKeepsLeast(table: Table, s: nat, best: Option<Worst>)
    requires Ordered(table) && Positive(table.thresholds) && s < |table.rho| && |table.mult| >= 1
    requires IsLeast(table, 0, s, best) && HasExposed(table, s)
    ensures var idx := LastBelow(table.rows[s], |table.thresholds|);
            && idx >= 0
            && IsLeast(table, 0, s + 1,
                 ScanTimes(table.rho[s], table.mult, 0, FULL_BPS - table.rows[s][idx], table.thresholds[idx], s, idx,
                           best))
  {
    var idx := LastBelow(table.rows[s], |table.thresholds|);
    var k0 :| Exposed(table, s, k0);
    LastBucketIsWorst(table, s, 0, k0);
    var penalty, x := FULL_BPS - table.rows[s][idx], table.thresholds[idx];
    ScanTimesFinds(table.rho[s], table.mult, 0, penalty, x, s, idx, best);
    var r := ScanTimes(table.rho[s], table.mult, 0, penalty, x, s, idx, best);
    if r != best {
      var u :| 0 <= u < |table.mult|
        && r.value == Worst(Kappa(Combined(table.rho[s], table.mult[u]), penalty, x), s, idx);
      assert Attains(table, r.value, u);
    }
    forall t, k | 0 <= t < |table.mult| && Exposed(table, s, k)
      ensures r.value.kappaBps <= Edge(table, s, t, k)
    {
      LastBucketIsWorst(table, s, t, k);
    }
  }

  lemma CombinedIsNat(rho: int, mult: int)
    requires 0 <= rho && 0 <= mult
    ensures 0 <= Combined(rho, mult)
  {
  }

  ghost predicate AllExposed(table: Table, lo: nat, hi: nat)
    requires table.Rectangular()
  {
    forall s :: lo <= s < hi ==> HasExposed(table, s)
  }

  lemma {:induction false} ScanRowsIsLeast(table: Table, s: nat, best: Option<Worst>)
    requires Ordered(table) && Positive(table.thresholds) && s <= |table.rho| && |table.mult| >= 1
    requires IsLeast(table, 0, s, best) && AllExposed(table, s, |table.rho|)
    ensures IsLeast(table, 0, |table.rho|, ScanRows(table, s, best))
    decreases |table.rho| - s
  {
    if s < |table.rho| {
      var idx := LastBelow(table.rows[s], |table.thresholds|);
      RowKeepsLeast(table, s, best);
      ScanRowsIsLeast(table, s + 1,
        ScanTimes(table.rho[s], table.mult, 0, FULL_BPS - table.rows[s][idx], table.thresholds[idx], s, idx, best));
    }
  }

  lemma {:induction false} ScanRowsStops(table: Table, s: nat, best: Option<Worst>, bad: nat)
    requires Ordered(table) && Positive(table.thresholds) && s <= bad < |table.rho|
    requires AllExposed(table, s, bad) && !HasExposed(table, bad)
    ensures ScanRows(table, s, best) == Some(Worst(0, bad, 0))
    decreases bad - s
  {
    var idx := LastBelow(table.rows[s], |table.thresholds|);
    if s < bad {
      assert HasExposed(table, s);
      var k :| Exposed(table, s, k);
      assert idx >= k;
      ScanRowsStops(table, s + 1,
        ScanTimes(table.rho[s], table.mult, 0, FULL_BPS - table.rows[s][idx], table.thresholds[idx], s, idx, best),
          bad);
    } else if idx >= 0 {
      assert Exposed(table, s, idx);
    }
  }

  /**
   * Looking at one bucket per row finds the least breakeven edge over every size, time and
   * fill-ratio bucket, and the cell it names attains it.
   */
  lemma ShortcutIsExhaustive(table: Table)
    requires Ordered(table) && Positive(table.thresholds) && |table.rho| >= 1 && |table.mult| >= 1
    requires AllExposed(table, 0, |table.rho|)
    ensures WorstCell(table).Some? && IsLeast(table, 0, |table.rho|, WorstCell(table))
  {
    assert HasExposed(table, 0);
    ScanRowsIsLeast(table, 0, None);
  }

  /** The first row without a deterrent makes the answer 0 and is the row named. */
  lemma UndeterredRowIsNamed(table: Table, bad: nat)
    requires Ordered(table) && Positive(table.thresholds) && bad < |table.rho|
    requires AllExposed(table, 0, bad) && !HasExposed(table, bad)
    ensures WorstCell(table) == Some(Worst(0, bad, 0))
  {
    if table.thresholds == [] {
      assert bad > 0 ==> HasExposed(table, 0);
    } else {
      ScanRowsStops(table, 0, None, bad);
    }
  }
}
