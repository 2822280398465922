/**
 * What the economic floor buys: a filler who fills part of an order and abandons the rest never
 * profits at a price edge up to the floor (frontend/src/pages/StakeConfig.tsx).
 */
module StakeSafety {
  import opened Arith
  import opened Wrappers
  import opened StakeTable
  import opened StakeForm
  import opened StakeValidator

  /** Fill-ratio bucket: the first threshold the fill is strictly below, else the last bucket. */
  function Bucket(thresholds: seq<int>, f: real): (k: nat)
    ensures k <= |thresholds|
    ensures k < |thresholds| ==> f < thresholds[k] as real
    ensures forall i :: 0 <= i < k ==> thresholds[i] as real <= f
  {
    BucketFrom(thresholds, f, 0)
  }

  function BucketFrom(thresholds: seq<int>, f: real, k: nat): (b: nat)
    requires k <= |thresholds|
    requires forall i :: 0 <= i < k ==> thresholds[i] as real <= f
    ensures k <= b <= |thresholds|
    ensures b < |thresholds| ==> f < thresholds[b] as real
    ensures forall i :: 0 <= i < b ==> thresholds[i] as real <= f
    decreases |thresholds| - k
  {
    if k == |thresholds| || f < thresholds[k] as real then k else BucketFrom(thresholds, f, k + 1)
  }

  /** What is forfeited, in bps of bps, after filling f bps of an order of size row s at time bucket t. */
  ghost function Forfeit(table: Table, s: nat, t: nat, f: real): int
    requires table.Rectangular() && s < |table.rho| && t < |table.mult|
  {
    Combined(table.rho[s], table.mult[t]) * (FULL_BPS - table.rows[s][Bucket(table.thresholds, f)])
  }

  /** A fill of f bps that does not refund in full gains e bps per unit delivered and no more than it forfeits. */
  ghost predicate Unprofitable(table: Table, s: nat, t: nat, f: real, e: real)
    requires table.Rectangular() && s < |table.rho| && t < |table.mult|
  {
    table.rows[s][Bucket(table.thresholds, f)] < FULL_BPS ==> e * f <= Forfeit(table, s, t, f) as real
  }

  ghost predicate RowSafe(table: Table, s: nat, e: real)
    requires table.Rectangular() && s < |table.rho|
  {
    forall t: nat, f: real :: t < |table.mult| && 0.0 <= f ==> Unprofitable(table, s, t, f, e)
  }

  ghost predicate NoSnipe(table: Table, e: real)
    requires table.Rectangular()
  {
    forall s: nat :: s < |table.rho| ==> RowSafe(table, s, e)
  }

  ghost predicate EndsInFull(table: Table)
    requires table.Rectangular()
  {
    forall s :: 0 <= s < |table.rows| ==> table.rows[s][|table.thresholds|] >= FULL_BPS
  }

  // ---------------------------------------------------------------- the table behind a consistent form

  lemma RowStepsUp(row: seq<Field>, ceiling: JsNumber, j: nat)
    requires AllNumbers(row) && RowClimbs(row, ceiling) && 0 < j < |row|
    ensures Truncated(row[j - 1]) <= Truncated(row[j])
  {
    CleanColumnIsWhole(row);
    assert row[j - 1] in row;
    assert !Less(Num(row[j]), Previous(row, j));
  }

  ghost predicate StepUp(xs: seq<int>, k: nat)
    requires 0 < k < |xs|
  {
    xs[k - 1] <= xs[k]
  }

  lemma {:induction false} StepsMakeMonotone(xs: seq<int>, i: nat, j: nat)
    requires i <= j < |xs| && forall k: nat :: 0 < k < |xs| ==> StepUp(xs, k)
    ensures xs[i] <= xs[j]
    decreases j - i
  {
    if i < j {
      StepsMakeMonotone(xs, i, j - 1);
      assert StepUp(xs, j);
    }
  }

  lemma RowIsMonotone(row: seq<Field>, ceiling: JsNumber, i: nat, j: nat)
    requires AllNumbers(row) && RowClimbs(row, ceiling) && i <= j < |row|
    ensures Truncated(row[i]) <= Truncated(row[j])
  {
    forall k: nat | 0 < k < |row|
      ensures StepUp(AllTruncated(row), k)
    {
      RowStepsUp(row, ceiling, k);
    }
    StepsMakeMonotone(AllTruncated(row), i, j);
  }

  lemma {:induction false} ThresholdsAscend(column: seq<Field>, i: nat, j: nat)
    requires AllNumbers(column) && StrictOrder(column, true) && i < j < |column|
    ensures Truncated(column[i]) < Truncated(column[j])
    decreases j - i
  {
    CleanColumnIsWhole(column);
    assert StepsAt(column, true, j);
    if i < j - 1 {
      ThresholdsAscend(column, i, j - 1);
    }
  }

  lemma RowEndsAtCeiling(row: seq<Field>, ceiling: nat)
    requires AllNumbers(row) && RowClimbs(row, Finite(ceiling as real)) && row != []
    ensures Truncated(row[|row| - 1]) == ceiling
  {
  }

  ghost predicate NonNegativeMultipliers(form: FormState) {
    forall t :: 0 <= t < |form.timeMult| ==> 0 <= Truncated(form.timeMult[t])
  }

  lemma ConsistentTable(form: FormState, c: Constants)
    requires Consistent(form, Some(c))
    ensures Climbing(FormTable(form)) && (NonNegativeMultipliers(form) ==> Ordered(FormTable(form)))
    ensures c.maxRefundBps == FULL_BPS ==> EndsInFull(FormTable(form))
  {
    var table := FormTable(form);
    forall s, i, j | 0 <= s < |table.rows| && 0 <= i <= j < |table.rows[s]|
      ensures table.rows[s][i] <= table.rows[s][j]
    {
      RowIsMonotone(form.refundTable[s], MaxRefund(Some(c)), i, j);
    }
    forall i, j | 0 <= i < j < |table.thresholds|
      ensures table.thresholds[i] < table.thresholds[j]
    {
      ThresholdsAscend(form.ratioThresholds, i, j);
    }
    RatesAreNonNegative(form, c);
    forall s | 0 <= s < |table.rows| && c.maxRefundBps == FULL_BPS
      ensures table.rows[s][|table.thresholds|] >= FULL_BPS
    {
      RowEndsAtCeiling(form.refundTable[s], c.maxRefundBps);
    }
  }

  lemma RatesAreNonNegative(form: FormState, c: Constants)
    requires NumbersClean(form) && RatesClean(form, Some(c))
    ensures forall s :: 0 <= s < |form.collateralRate| ==> 0 <= Truncated(form.collateralRate[s])
  {
  }

  // ---------------------------------------------------------------- an accepted form is safe

  lemma {:induction false} ScanRowsBelow(table: Table, s: nat, best: Option<Worst>)
    requires table.Rectangular() && s <= |table.rho| && best.Some?
    ensures var r := ScanRows(table, s, best);
            r.Some? && (r.value.kappaBps > 0 ==> r.value.kappaBps <= best.value.kappaBps)
    decreases |table.rho| - s
  {
    if s < |table.rho| {
      var idx := LastBelow(table.rows[s], |table.thresholds|);
      if idx >= 0 && table.thresholds[idx] != 0 {
        var penalty, x := FULL_BPS - table.rows[s][idx], table.thresholds[idx];
        ScanTimesFinds(table.rho[s], table.mult, 0, penalty, x, s, idx, best);
        ScanRowsBelow(table, s + 1, ScanTimes(table.rho[s], table.mult, 0, penalty, x, s, idx, best));
      }
    }
  }

  /** A positive answer bounds the edge of the last exposed bucket of every row it scanned. */
  lemma {:induction false} ScanRowsBounds(table: Table, s: nat, best: Option<Worst>, row: nat, t: nat)
    requires table.Rectangular() && s <= row < |table.rho| && t < |table.mult|
    requires ScanRows(table, s, best).Some? && ScanRows(table, s, best).value.kappaBps > 0
    ensures var idx := LastBelow(table.rows[row], |table.thresholds|);
            && idx >= 0 && table.thresholds[idx] != 0
            && ScanRows(table, s, best).value.kappaBps
               <= Kappa(Combined(table.rho[row], table.mult[t]), FULL_BPS - table.rows[row][idx], table.thresholds[idx])
    decreases row - s
  {
    var idx := LastBelow(table.rows[s], |table.thresholds|);
    var penalty, x := FULL_BPS - table.rows[s][idx], table.thresholds[idx];
    var next := ScanTimes(table.rho[s], table.mult, 0, penalty, x, s, idx, best);
    if s < row {
      ScanRowsBounds(table, s + 1, next, row, t);
    } else {
      ScanTimesFinds(table.rho[s], table.mult, 0, penalty, x, s, idx, best);
      ScanRowsBelow(table, s + 1, next);
    }
  }

  /** A positive breakeven edge of c * p over x caps the gain at c * p for every fill below x. */
  lemma EdgeCapsGain(c: int, p: int, x: int, kappa: int)
    requires 0 <= c && 0 <= p && x != 0 && 0 < kappa <= Kappa(c, p, x)
    ensures 0 < x && kappa * x <= c * p
  {
    MulMono(0, c, p);
    DivBounds(c * p, Abs(x));
    QuotientAtLeast(0, c * p, Abs(x));
    assert Kappa(c, p, x) == TruncDiv(c * p, x);
    MulMono(kappa, c * p / Abs(x), Abs(x));
  }

  lemma GainBelow(e: real, kappa: int, f: real, x: int, loss: int)
    requires e <= kappa as real && 0 < kappa && 0.0 <= f <= x as real && kappa * x <= loss
    ensures e * f <= loss as real
  {
  }

  lemma NoGainWithoutEdge(e: real, f: real, c: int, p: int)
    requires e <= 0.0 && 0.0 <= f && 0 <= c && 0 <= p
    ensures e * f <= (c * p) as real
  {
  }

  /** The edge is positive, or nothing in the table is negative. */
  ghost predicate SignsAgree(table: Table, w: Worst) {
    0 < w.kappaBps || Ordered(table)
  }

  /** A positive edge over a positive threshold needs a positive collateral. */
  lemma EdgeNeedsCollateral(c: int, p: int, x: int)
    requires 0 < p && 0 < x && 0 < Kappa(c, p, x)
    ensures 0 < c
  {
    assert Kappa(c, p, x) == TruncDiv(c * p, x);
    if c <= 0 {
      MulMono(c, 0, p);
      QuotientAtLeast(0, -(c * p), x);
    }
  }

  lemma PositiveFloorProtects(table: Table, w: Worst, s: nat, t: nat, f: real, e: real)
    requires Climbing(table) && EndsInFull(table) && WorstCell(table) == Some(w) && 0 < w.kappaBps
    requires s < |table.rho| && t < |table.mult| && 0.0 <= f && e <= w.kappaBps as real
    ensures Unprofitable(table, s, t, f, e)
  {
    var k := Bucket(table.thresholds, f);
    if table.rows[s][k] < FULL_BPS {
      assert k < |table.thresholds|;
      ScanRowsBounds(table, 0, None, s, t);
      var idx := LastBelow(table.rows[s], |table.thresholds|);
      assert k <= idx;
      var c, x := Combined(table.rho[s], table.mult[t]), table.thresholds[idx];
      var p, p' := FULL_BPS - table.rows[s][k], FULL_BPS - table.rows[s][idx];
      assert table.thresholds[k] <= x && f < x as real;
      EdgeNeedsCollateral(c, p', x);
      EdgeCapsGain(c, p', x, w.kappaBps);
      MulMono(p', p, c);
      GainBelow(e, w.kappaBps, f, x, c * p);
    }
  }

  /** Below the reported edge nothing is gained, whatever the size, time and fill. */
  lemma FloorProtects(table: Table, w: Worst, s: nat, t: nat, f: real, e: real)
    requires Climbing(table) && EndsInFull(table) && WorstCell(table) == Some(w) && SignsAgree(table, w)
    requires s < |table.rho| && t < |table.mult| && 0.0 <= f && e <= w.kappaBps as real
    ensures Unprofitable(table, s, t, f, e)
  {
    if w.kappaBps > 0 {
      PositiveFloorProtects(table, w, s, t, f, e);
    } else {
      var k := Bucket(table.thresholds, f);
      if table.rows[s][k] < FULL_BPS {
        CombinedIsNat(table.rho[s], table.mult[t]);
        NoGainWithoutEdge(e, f, Combined(table.rho[s], table.mult[t]), FULL_BPS - table.rows[s][k]);
      }
    }
  }

  lemma FloorProtectsRow(table: Table, w: Worst, s: nat, e: real)
    requires Climbing(table) && EndsInFull(table) && WorstCell(table) == Some(w) && SignsAgree(table, w)
    requires s < |table.rho| && e <= w.kappaBps as real
    ensures RowSafe(table, s, e)
  {
    forall t: nat, f: real | t < |table.mult| && 0.0 <= f
      ensures Unprofitable(table, s, t, f, e)
    {
      FloorProtects(table, w, s, t, f, e);
    }
  }

  lemma FloorProtectsEveryFill(table: Table, w: Worst, e: real)
    requires Climbing(table) && EndsInFull(table) && WorstCell(table) == Some(w) && SignsAgree(table, w)
    requires e <= w.kappaBps as real
    ensures NoSnipe(table, e)
  {
    forall s: nat | s < |table.rho|
      ensures RowSafe(table, s, e)
    {
      FloorProtectsRow(table, w, s, e);
    }
  }

  lemma FloorMessage(form: FormState, c: Constants)
    requires Consistent(form, Some(c)) && FormAnswer(form).Found?
    ensures (forall w :: !Violates(form, Some(c), KappaTooLow(w)))
            <==> c.minWorstCaseKappaBps <= FormAnswer(form).worst.kappaBps
  {
    var w := FormAnswer(form).worst;
    assert Violates(form, Some(c), KappaTooLow(w)) <==> w.kappaBps < c.minWorstCaseKappaBps;
  }

  lemma AcceptedIsConsistent(form: FormState, consts: Option<Constants>)
    requires forall issue :: !Violates(form, consts, issue)
    ensures Consistent(form, consts)
  {
    ConsistencyDecided(form, consts);
    assert Silent(form, consts, STRUCTURAL);
  }

  /**
   * No message with the limits loaded: at every price edge up to the configured minimum (indeed up to the
   * computed floor), partial fill and abandon never profits, at any size, time and fill ratio. A positive floor
   * settles the sign of every multiplier that matters, so only a floor of 0 needs them not to be negative.
   */
  lemma AcceptedFormIsSafe(form: FormState, c: Constants, e: real)
    requires forall issue :: !Violates(form, Some(c), issue)
    requires c.maxRefundBps == FULL_BPS
    ensures FormAnswer(form).Found? && c.minWorstCaseKappaBps <= FormAnswer(form).worst.kappaBps
    ensures FormTable(form).Rectangular()
    ensures 0 < FormAnswer(form).worst.kappaBps || NonNegativeMultipliers(form) ==>
              (e <= FormAnswer(form).worst.kappaBps as real ==> NoSnipe(FormTable(form), e))
    ensures 0 < c.minWorstCaseKappaBps ==> NoSnipe(FormTable(form), c.minWorstCaseKappaBps as real)
  {
    AcceptedIsConsistent(form, Some(c));
    ConsistentTableIsSafe(form, c, e);
    ConsistentTableIsSafe(form, c, c.minWorstCaseKappaBps as real);
    FloorMessage(form, c);
  }

  lemma ConsistentTableIsSafe(form: FormState, c: Constants, e: real)
    requires Consistent(form, Some(c)) && c.maxRefundBps == FULL_BPS
    ensures FormAnswer(form).Found? && FormTable(form).Rectangular()
    ensures 0 < FormAnswer(form).worst.kappaBps || NonNegativeMultipliers(form) ==>
              (e <= FormAnswer(form).worst.kappaBps as real ==> NoSnipe(FormTable(form), e))
  {
    FloorIsComputed(form, Some(c));
    ConsistentTable(form, c);
    var w := FormAnswer(form).worst;
    if e <= w.kappaBps as real && (0 < w.kappaBps || NonNegativeMultipliers(form)) {
      FloorProtectsEveryFill(FormTable(form), w, e);
    }
  }

  // ---------------------------------------------------------------- the gate is exact

  /** When floor(c * p / x) misses m, filling just under x at edge m gains more than c * p. */
  lemma JustBelowThreshold(c: int, p: int, x: int, m: int, lower: int)
    requires 0 <= c && 0 <= p && 0 < m && lower < x && 0 < x && Kappa(c, p, x) < m
    ensures var f := x as real - 0.5 / m as real;
            0.0 <= f < x as real && lower as real <= f && m as real * f > (c * p) as real
  {
    MulMono(0, c, p);
    TruncOfNat(c * p, x);
    DivBounds(c * p, x);
    MulMono(c * p / x + 1, m, x);
    Distribute(c * p / x, 1, x);
    HalfStep(m);
    var d := 0.5 / m as real;
    assert m as real * (x as real - d) == m as real * x as real - m as real * d;
    assert m as real * x as real == (m * x) as real;
  }

  lemma HalfStep(m: int)
    requires 0 < m
    ensures 0.0 < 0.5 / m as real <= 0.5 && m as real * (0.5 / m as real) == 0.5
  {
  }

  /** The edge is that of the last exposed bucket of its row, at this time. */
  ghost predicate AttainedAt(table: Table, w: Worst, t: int)
    requires table.Rectangular()
  {
    && w.s < |table.rho| && 0 <= t < |table.mult| && w.idx < |table.thresholds|
    && w.idx == LastBelow(table.rows[w.s], |table.thresholds|) && table.thresholds[w.idx] != 0
    && w.kappaBps == Kappa(Combined(table.rho[w.s], table.mult[t]), FULL_BPS - table.rows[w.s][w.idx],
                           table.thresholds[w.idx])
  }

  /** The last exposed bucket of the row ends above 0, so some fill lands in it. */
  ghost predicate RowReached(table: Table, s: nat)
    requires table.Rectangular() && s < |table.rho|
  {
    exists k :: Exposed(table, s, k) && 0 < table.thresholds[k]
  }

  ghost predicate RowsReached(table: Table)
    requires table.Rectangular()
  {
    forall s :: 0 <= s < |table.rho| && HasExposed(table, s) ==> RowReached(table, s)
  }

  lemma ReachedRowEnds(table: Table, s: nat)
    requires Climbing(table) && s < |table.rho| && RowReached(table, s)
    ensures var idx := LastBelow(table.rows[s], |table.thresholds|); idx >= 0 && 0 < table.thresholds[idx]
  {
    var k :| Exposed(table, s, k) && 0 < table.thresholds[k];
    assert k <= LastBelow(table.rows[s], |table.thresholds|);
  }

  /** The scan goes on past the row: it has a last exposed bucket, and not at 0. */
  ghost predicate Scanned(table: Table, s: nat)
    requires table.Rectangular() && s < |table.rho|
  {
    var idx := LastBelow(table.rows[s], |table.thresholds|); idx >= 0 && table.thresholds[idx] != 0
  }

  lemma {:induction false} ScanRowsAttains(table: Table, s: nat, best: Option<Worst>)
    requires table.Rectangular() && s <= |table.rho| && |table.mult| >= 1
    requires forall row: nat :: s <= row < |table.rho| ==> Scanned(table, row)
    ensures var r := ScanRows(table, s, best);
            && (s < |table.rho| || best.Some? ==> r.Some?)
            && (r == best || exists t :: AttainedAt(table, r.value, t))
    decreases |table.rho| - s
  {
    if s < |table.rho| {
      assert Scanned(table, s);
      var idx := LastBelow(table.rows[s], |table.thresholds|);
      var penalty, x := FULL_BPS - table.rows[s][idx], table.thresholds[idx];
      var next := ScanTimes(table.rho[s], table.mult, 0, penalty, x, s, idx, best);
      ScanTimesFinds(table.rho[s], table.mult, 0, penalty, x, s, idx, best);
      if next != best {
        var t :| 0 <= t < |table.mult|
          && next.value == Worst(Kappa(Combined(table.rho[s], table.mult[t]), penalty, x), s, idx);
        assert AttainedAt(table, next.value, t);
      }
      ScanRowsAttains(table, s + 1, next);
    }
  }

  /** Whatever the sign of c: filling at least `lower`, and less than x, gains more than c * p at edge m. */
  lemma SomeFillProfits(c: int, p: int, x: int, m: int, lower: nat) returns (f: real)
    requires 0 < p && lower < x && Kappa(c, p, x) < m && 0 < m
    ensures lower as real <= f < x as real && (c * p) as real < m as real * f
  {
    if 0 <= c {
      JustBelowThreshold(c, p, x, m, lower);
      f := x as real - 0.5 / m as real;
    } else {
      f := lower as real;
      NegativeStake(c, p, m, f);
    }
  }

  lemma BucketIs(thresholds: seq<int>, f: real, k: nat)
    requires k < |thresholds| && f < thresholds[k] as real
    requires forall i :: 0 <= i < k ==> thresholds[i] as real <= f
    ensures Bucket(thresholds, f) == k
  {
  }

  /** A reported edge below m is attained: some fill at edge m profits. */
  lemma LowFloorIsExploitable(table: Table, w: Worst, t: int, m: int)
    requires Climbing(table) && AttainedAt(table, w, t) && 0 < table.thresholds[w.idx] && w.kappaBps < m && 0 < m
    ensures !RowSafe(table, w.s, m as real) && !NoSnipe(table, m as real)
  {
    var k, x := w.idx, table.thresholds[w.idx];
    var lower := if k > 0 then Max(0, table.thresholds[k - 1]) else 0;
    var f := SomeFillProfits(Combined(table.rho[w.s], table.mult[t]), FULL_BPS - table.rows[w.s][k], x, m, lower);
    assert forall i :: 0 <= i < k ==> table.thresholds[i] <= lower;
    BucketIs(table.thresholds, f, k);
    assert !Unprofitable(table, w.s, t, f, m as real);
  }

  lemma NegativeStake(c: int, p: int, m: int, f: real)
    requires c < 0 && 0 < p && 0 < m && 0.0 <= f
    ensures (c * p) as real < m as real * f
  {
    MulMono(c, -1, p);
  }

  /** Over a negative threshold an edge reaches m exactly when c * p is as negative as m * x. */
  lemma NegativeEdge(c: int, p: int, x: int, m: int)
    requires x < 0 && 0 < m
    ensures m <= Kappa(c, p, x) <==> c * p <= m * x
  {
    var n := c * p;
    assert Kappa(c, p, x) == TruncDiv(n, x);
    if n < 0 {
      DivBounds(-n, -x);
      if m <= -n / -x {
        MulMono(m, -n / -x, -x);
      } else if n <= m * x {
        QuotientAtLeast(m, -n, -x);
      }
    } else {
      MulMono(1, m, -x);
      QuotientAtLeast(0, n, -x);
    }
  }

  /**
   * What the floor m asks of one row: a deterrent bucket whose last threshold is not 0; above 0 that no fill in the
   * row profits at edge m; below 0, where no fill lands, that the stake is as negative as m times the threshold.
   */
  ghost predicate RowPasses(table: Table, s: nat, m: int)
    requires table.Rectangular() && s < |table.rho|
  {
    && Scanned(table, s)
    && var idx := LastBelow(table.rows[s], |table.thresholds|);
       var p, x := FULL_BPS - table.rows[s][idx], table.thresholds[idx];
       if x > 0 then RowSafe(table, s, m as real)
       else forall t: nat :: t < |table.mult| ==> Combined(table.rho[s], table.mult[t]) * p <= m * x
  }

  lemma HighFloorPasses(table: Table, w: Worst, s: nat, m: int)
    requires Climbing(table) && EndsInFull(table) && WorstCell(table) == Some(w) && 0 < m <= w.kappaBps
    requires s < |table.rho| && |table.mult| >= 1
    ensures RowPasses(table, s, m)
  {
    ScanRowsBounds(table, 0, None, s, 0);
    var idx := LastBelow(table.rows[s], |table.thresholds|);
    if table.thresholds[idx] > 0 {
      FloorProtectsRow(table, w, s, m as real);
    } else {
      forall t: nat | t < |table.mult|
        ensures Combined(table.rho[s], table.mult[t]) * (FULL_BPS - table.rows[s][idx]) <= m * table.thresholds[idx]
      {
        ScanRowsBounds(table, 0, None, s, t);
        NegativeEdge(Combined(table.rho[s], table.mult[t]), FULL_BPS - table.rows[s][idx], table.thresholds[idx], m);
      }
    }
  }

  lemma LowFloorFailsARow(table: Table, w: Worst, m: int)
    requires Climbing(table) && WorstCell(table) == Some(w) && w.kappaBps < m && 0 < m
    requires |table.rho| >= 1 && |table.mult| >= 1
    ensures exists s: nat :: s < |table.rho| && !RowPasses(table, s, m)
  {
    if s: nat :| s < |table.rho| && !Scanned(table, s) {
      assert !RowPasses(table, s, m);
    } else {
      assert Scanned(table, 0);
      ScanRowsAttains(table, 0, None);
      var t :| AttainedAt(table, w, t);
      if 0 < table.thresholds[w.idx] {
        LowFloorIsExploitable(table, w, t, m);
      } else {
        NegativeEdge(Combined(table.rho[w.s], table.mult[t]), FULL_BPS - table.rows[w.s][w.idx],
                     table.thresholds[w.idx], m);
      }
      assert !RowPasses(table, w.s, m);
    }
  }

  lemma TableGateIsExact(table: Table, w: Worst, m: int)
    requires Climbing(table) && EndsInFull(table) && WorstCell(table) == Some(w)
    requires 0 < m && |table.rho| >= 1 && |table.mult| >= 1
    ensures m <= w.kappaBps <==> forall s: nat :: s < |table.rho| ==> RowPasses(table, s, m)
  {
    if m <= w.kappaBps {
      forall s: nat | s < |table.rho|
        ensures RowPasses(table, s, m)
      {
        HighFloorPasses(table, w, s, m);
      }
    } else {
      LowFloorFailsARow(table, w, m);
    }
  }

  /** Where no multiplier is negative, or fills land in every deterring row, passing means just that no fill profits. */
  lemma RowPassesWhenReached(table: Table, s: nat, m: int)
    requires Climbing(table) && 0 < m && s < |table.rho| && |table.mult| >= 1
    requires Ordered(table) || (HasExposed(table, s) ==> RowReached(table, s))
    ensures RowPasses(table, s, m) <==> HasExposed(table, s) && RowReached(table, s) && RowSafe(table, s, m as real)
  {
    var idx := LastBelow(table.rows[s], |table.thresholds|);
    if idx >= 0 {
      assert Exposed(table, s, idx);
      if RowReached(table, s) {
        ReachedRowEnds(table, s);
      } else if Ordered(table) {
        CombinedIsNat(table.rho[s], table.mult[0]);
        NegativeNeeds(Combined(table.rho[s], table.mult[0]), FULL_BPS - table.rows[s][idx], m, table.thresholds[idx]);
      }
    } else {
      assert forall k :: !Exposed(table, s, k);
    }
  }

  lemma NegativeNeeds(c: int, p: int, m: int, x: int)
    requires 0 <= c && 0 < p && 0 < m
    ensures x < 0 ==> c * p > m * x
  {
    MulMono(0, c, p);
    if x < 0 {
      MulMono(x, -1, m);
    }
  }

  /**
   * With everything else in order, the floor message is absent exactly when every row passes. Where no multiplier
   * is negative, or where fills land in each deterring row, that is: every size row has a bucket that forfeits
   * something, some fill lands in it, and no fill profits at the minimum edge. Negative multipliers and thresholds
   * both pass the validator.
   */
  lemma FloorGateIsExact(form: FormState, c: Constants)
    requires Consistent(form, Some(c)) && c.maxRefundBps == FULL_BPS && 0 < c.minWorstCaseKappaBps
    ensures FormTable(form).Rectangular()
    ensures (forall w :: !Violates(form, Some(c), KappaTooLow(w)))
        <==> forall s: nat :: s < |FormTable(form).rho| ==> RowPasses(FormTable(form), s, c.minWorstCaseKappaBps)
    ensures NonNegativeMultipliers(form) || RowsReached(FormTable(form)) ==>
              ((forall w :: !Violates(form, Some(c), KappaTooLow(w)))
               <==> AllExposed(FormTable(form), 0, |FormTable(form).rho|) && RowsReached(FormTable(form))
                    && NoSnipe(FormTable(form), c.minWorstCaseKappaBps as real))
  {
    FloorIsComputed(form, Some(c));
    ConsistentTable(form, c);
    FloorMessage(form, c);
    TableGateIsExact(FormTable(form), FormAnswer(form).worst, c.minWorstCaseKappaBps);
    if NonNegativeMultipliers(form) || RowsReached(FormTable(form)) {
      EveryRowPassesIff(FormTable(form), c.minWorstCaseKappaBps, c.minWorstCaseKappaBps as real);
    }
  }

  lemma EveryRowPassesIff(table: Table, m: int, e: real)
    requires Climbing(table) && 0 < m && e == m as real && |table.mult| >= 1 && (Ordered(table) || RowsReached(table))
    ensures (forall s: nat :: s < |table.rho| ==> RowPasses(table, s, m))
        <==> AllExposed(table, 0, |table.rho|) && RowsReached(table) && NoSnipe(table, e)
  {
    if forall s: nat :: s < |table.rho| ==> RowPasses(table, s, m) {
      forall s: nat | s < |table.rho|
        ensures HasExposed(table, s)
        ensures RowReached(table, s)
        ensures RowSafe(table, s, e)
      {
        assert RowPasses(table, s, m);
        RowPassesWhenReached(table, s, m);
      }
      assert AllExposed(table, 0, |table.rho|);
      assert RowsReached(table);
      assert NoSnipe(table, e);
    } else if AllExposed(table, 0, |table.rho|) && RowsReached(table) && NoSnipe(table, e) {
      forall s: nat | s < |table.rho|
        ensures RowPasses(table, s, m)
      {
        assert HasExposed(table, s) && RowSafe(table, s, e);
        RowPassesWhenReached(table, s, m);
      }
    }
  }
}
