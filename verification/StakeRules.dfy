/**
 * The rules of the stake form in plain numbers, without the validator's conversions and comparisons
 * (frontend/src/pages/StakeConfig.tsx, validateForm).
 */
module StakeRules {
  import opened Wrappers
  import opened StakeForm
  import opened StakeValidator

  // ---------------------------------------------------------------- readings

  /** Some number, perhaps a fraction or an infinity. */
  ghost predicate Number(f: Field) {
    f.Reads? && !f.number.NaN?
  }

  function IntOf(f: Field): int {
    if f.Reads? && f.number.Finite? then f.number.value.Floor else 0
  }

  ghost function Ints(column: seq<Field>): (ints: seq<int>)
    ensures |ints| == |column| && forall i :: 0 <= i < |column| ==> ints[i] == IntOf(column[i])
  {
    seq(|column|, i requires 0 <= i < |column| => IntOf(column[i]))
  }

  /** Every input of the column reads as the whole number at its place. */
  ghost predicate Holds(column: seq<Field>, ints: seq<int>) {
    |column| == |ints| && forall i :: 0 <= i < |column| ==> column[i] == Reads(Finite(ints[i] as real))
  }

  /** The comparison is the order of the reals between two infinities, and false on anything that is not a number. */
  lemma LessIsOrder(a: JsNumber, b: JsNumber)
    ensures Less(a, b) <==>
      !a.NaN? && !b.NaN? && a != b
      && (a == Infinite(true) || b == Infinite(false) || (a.Finite? && b.Finite? && a.value < b.value))
  {
  }

  // ---------------------------------------------------------------- the rules

  ghost predicate Rising(ints: seq<int>) {
    forall i :: 1 <= i < |ints| ==> ints[i - 1] < ints[i]
  }

  ghost predicate Falling(ints: seq<int>) {
    forall i :: 1 <= i < |ints| ==> ints[i - 1] > ints[i]
  }

  /** Size thresholds may be fractions, and the outermost ones infinite. */
  ghost predicate Below(f: Field, g: Field) {
    && Number(f) && Number(g) && f != g
    && (f.number == Infinite(true) || g.number == Infinite(false)
        || (f.number.Finite? && g.number.Finite? && f.number.value < g.number.value))
  }

  /** From no less than 0 up to exactly the ceiling, without a drop. */
  ghost predicate Climbs(row: seq<int>, ceiling: int) {
    && row != [] && 0 <= row[0] && row[|row| - 1] == ceiling
    && forall r :: 1 <= r < |row| ==> row[r - 1] <= row[r]
  }

  /** Whole numbers everywhere but in the sizes, which only have to be numbers. */
  ghost predicate Readable(form: FormState) {
    && (forall i :: 0 <= i < |form.sizeThresholds| ==> Number(form.sizeThresholds[i]))
    && Holds(form.collateralRate, Ints(form.collateralRate)) && Holds(form.timeThresholds, Ints(form.timeThresholds))
    && Holds(form.timeMult, Ints(form.timeMult)) && Holds(form.ratioThresholds, Ints(form.ratioThresholds))
    && forall s :: 0 <= s < |form.refundTable| ==> Holds(form.refundTable[s], Ints(form.refundTable[s]))
  }

  /** One threshold less than buckets, a full refund table, and no more buckets than allowed: 16 until it is known. */
  ghost predicate Measured(form: FormState, consts: Option<Constants>) {
    var most := if consts.Some? then consts.value.maxBuckets else 16;
    && 1 <= |form.collateralRate| <= most && 1 <= |form.timeMult| <= most && |form.ratioThresholds| < most
    && |form.sizeThresholds| + 1 == |form.collateralRate| && |form.timeThresholds| + 1 == |form.timeMult|
    && |form.refundTable| == |form.collateralRate|
    && forall s :: 0 <= s < |form.refundTable| ==> |form.refundTable[s]| == |form.ratioThresholds| + 1
  }

  /**
   * Sizes and ratios rise and times fall, strictly; rates lie within the bounds once these are known; every refund row
   * climbs to the ceiling, a full refund until it is known.
   */
  ghost predicate Ordered(form: FormState, consts: Option<Constants>) {
    && (forall i :: 1 <= i < |form.sizeThresholds| ==> Below(form.sizeThresholds[i - 1], form.sizeThresholds[i]))
    && Rising(Ints(form.ratioThresholds)) && Falling(Ints(form.timeThresholds))
    && (consts.Some? ==> forall i :: 0 <= i < |form.collateralRate| ==>
                           consts.value.minRate <= Ints(form.collateralRate)[i] <= consts.value.maxRate)
    && forall s :: 0 <= s < |form.refundTable| ==>
         Climbs(Ints(form.refundTable[s]), if consts.Some? then consts.value.maxRefundBps else 10_000)
  }

  // ---------------------------------------------------------------- the validator agrees

  lemma CleanIsHeld(column: seq<Field>)
    ensures AllNumbers(column) <==> Holds(column, Ints(column))
  {
    if AllNumbers(column) {
      forall i | 0 <= i < |column|
        ensures column[i] == Reads(Finite(Ints(column)[i] as real))
      {
        assert column[i] in column;
        assert !IsNaN(column[i]) && !NotWhole(column[i]);
      }
    }
    if Holds(column, Ints(column)) {
      forall v | v in column
        ensures !IsNaN(v) && !NotWhole(v)
      {
        var i :| 0 <= i < |column| && column[i] == v;
      }
    }
  }

  lemma NoNaNIsNumbers(column: seq<Field>)
    ensures !SomeNaN(column) <==> forall i :: 0 <= i < |column| ==> Number(column[i])
  {
    if !SomeNaN(column) {
      forall i | 0 <= i < |column|
        ensures Number(column[i])
      {
        assert column[i] in column;
        assert !IsNaN(column[i]);
      }
    }
  }

  lemma CleanIsReadable(form: FormState)
    ensures NumbersClean(form) <==> Readable(form)
  {
    NoNaNIsNumbers(form.sizeThresholds);
    CleanIsHeld(form.collateralRate);
    CleanIsHeld(form.timeThresholds);
    CleanIsHeld(form.timeMult);
    CleanIsHeld(form.ratioThresholds);
    forall s | 0 <= s < |form.refundTable|
      ensures AllNumbers(form.refundTable[s]) <==> Holds(form.refundTable[s], Ints(form.refundTable[s]))
    {
      CleanIsHeld(form.refundTable[s]);
    }
    RowsByIndex(form.refundTable);
  }

  lemma RowsByIndex(rows: seq<seq<Field>>)
    ensures (forall row :: row in rows ==> AllNumbers(row))
       <==> forall s :: 0 <= s < |rows| ==> AllNumbers(rows[s])
  {
  }

  lemma OrderOfInts(column: seq<Field>, up: bool)
    requires Holds(column, Ints(column))
    ensures StrictOrder(column, up) <==> if up then Rising(Ints(column)) else Falling(Ints(column))
  {
    forall i: nat | 1 <= i < |column|
      ensures StepsAt(column, up, i)
         <==> if up then Ints(column)[i - 1] < Ints(column)[i] else Ints(column)[i - 1] > Ints(column)[i]
    {
      assert column[i - 1] == Reads(Finite(Ints(column)[i - 1] as real));
      assert column[i] == Reads(Finite(Ints(column)[i] as real));
    }
  }

  lemma OrderOfSizes(column: seq<Field>)
    requires forall i :: 0 <= i < |column| ==> Number(column[i])
    ensures StrictOrder(column, true) <==> forall i :: 1 <= i < |column| ==> Below(column[i - 1], column[i])
  {
    forall i: nat | 1 <= i < |column|
      ensures StepsAt(column, true, i) <==> Below(column[i - 1], column[i])
    {
      assert Number(column[i - 1]) && Number(column[i]);
    }
    if forall i :: 1 <= i < |column| ==> Below(column[i - 1], column[i]) {
      forall i: nat | 1 <= i < |column|
        ensures StepsAt(column, true, i)
      {
      }
    }
  }

  /** In a row of whole numbers the previous cell is the one before. */
  lemma PreviousInt(row: seq<Field>, r: nat)
    requires Holds(row, Ints(row)) && r <= |row|
    ensures Previous(row, r) == Finite(if r == 0 then 0.0 else Ints(row)[r - 1] as real)
  {
    if r > 0 {
      assert row[r - 1] == Reads(Finite(Ints(row)[r - 1] as real));
    }
  }

  lemma {:induction false} ClimbingStaysBelow(row: seq<int>, ceiling: int, r: nat)
    requires Climbs(row, ceiling) && r < |row|
    ensures row[r] <= ceiling
    decreases |row| - r
  {
    if r + 1 < |row| {
      ClimbingStaysBelow(row, ceiling, r + 1);
    }
  }

  lemma ClimbingRowIsClean(row: seq<Field>, ceiling: int)
    requires Holds(row, Ints(row)) && Climbs(Ints(row), ceiling)
    ensures RowClimbs(row, Finite(ceiling as real))
  {
    var ints := Ints(row);
    forall r | 0 <= r < |row|
      ensures !Less(Finite(ceiling as real), Num(row[r])) && !Less(Num(row[r]), Previous(row, r))
    {
      ClimbingStaysBelow(ints, ceiling, r);
      PreviousInt(row, r);
      assert row[r] == Reads(Finite(ints[r] as real));
    }
    PreviousInt(row, |row|);
  }

  lemma CleanStepClimbs(row: seq<Field>, ceiling: int, r: nat)
    requires Holds(row, Ints(row)) && r < |row| && RowClimbs(row, Finite(ceiling as real))
    ensures (if r == 0 then 0 else Ints(row)[r - 1]) <= Ints(row)[r]
  {
    PreviousInt(row, r);
    assert !Less(Num(row[r]), Previous(row, r));
    assert row[r] == Reads(Finite(Ints(row)[r] as real));
  }

  lemma RowOfInts(row: seq<Field>, ceiling: int)
    requires Holds(row, Ints(row)) && row != []
    ensures RowClimbs(row, Finite(ceiling as real)) <==> Climbs(Ints(row), ceiling)
  {
    if Climbs(Ints(row), ceiling) {
      ClimbingRowIsClean(row, ceiling);
    } else if RowClimbs(row, Finite(ceiling as real)) {
      forall r | 0 <= r < |row|
        ensures (if r == 0 then 0 else Ints(row)[r - 1]) <= Ints(row)[r]
      {
        CleanStepClimbs(row, ceiling, r);
      }
      PreviousInt(row, |row|);
    }
  }

  lemma RatesOfInts(form: FormState, consts: Option<Constants>)
    requires Holds(form.collateralRate, Ints(form.collateralRate))
    ensures RatesClean(form, consts)
       <==> (consts.Some? ==> forall i :: 0 <= i < |form.collateralRate| ==>
                                consts.value.minRate <= Ints(form.collateralRate)[i] <= consts.value.maxRate)
  {
    var ints := Ints(form.collateralRate);
    if consts.Some? {
      forall i | 0 <= i < |form.collateralRate|
        ensures !IsNaN(form.collateralRate[i])
        ensures RateInBounds(consts.value, form.collateralRate[i])
           <==> consts.value.minRate <= ints[i] <= consts.value.maxRate
      {
        assert form.collateralRate[i] == Reads(Finite(ints[i] as real));
      }
    }
  }

  lemma RefundsOfInts(form: FormState, consts: Option<Constants>)
    requires forall s :: 0 <= s < |form.refundTable| ==>
               Holds(form.refundTable[s], Ints(form.refundTable[s])) && form.refundTable[s] != []
    ensures RefundsClean(form, consts)
       <==> forall s :: 0 <= s < |form.refundTable| ==>
              Climbs(Ints(form.refundTable[s]), if consts.Some? then consts.value.maxRefundBps else 10_000)
  {
    forall s | 0 <= s < |form.refundTable|
      ensures RowClimbs(form.refundTable[s], MaxRefund(consts))
         <==> Climbs(Ints(form.refundTable[s]), if consts.Some? then consts.value.maxRefundBps else 10_000)
    {
      RowOfInts(form.refundTable[s], if consts.Some? then consts.value.maxRefundBps else 10_000);
    }
  }

  /**
   * The structural messages are silent exactly on the forms that follow the rules: read as whole numbers, measured,
   * and in order.
   */
  lemma ConsistentIsPlain(form: FormState, consts: Option<Constants>)
    ensures Consistent(form, consts) <==> Readable(form) && Measured(form, consts) && Ordered(form, consts)
  {
    CleanIsReadable(form);
    if Readable(form) && Measured(form, consts) {
      OrderOfSizes(form.sizeThresholds);
      OrderOfInts(form.ratioThresholds, true);
      OrderOfInts(form.timeThresholds, false);
      RatesOfInts(form, consts);
      RefundsOfInts(form, consts);
    }
  }

  /** A blank input counts as 0 in both computations, but the validator never lets one through. */
  lemma BlankIsRefused(form: FormState, consts: Option<Constants>, s: nat, r: nat)
    requires s < |form.refundTable| && r < |form.refundTable[s]| && form.refundTable[s][r] == Blank
    ensures ToNumber(form.refundTable[s][r]) == Submitted(form.refundTable[s][r]) == Finite(0.0)
    ensures !Consistent(form, consts)
  {
    ConsistentIsPlain(form, consts);
  }
}
