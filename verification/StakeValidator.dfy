/**
 * The client-side validator of the stake form (frontend/src/pages/StakeConfig.tsx, validateForm)
 * and what an accepted form guarantees.
 */
module StakeValidator {
  import opened Wrappers
  import opened StakeTable
  import opened StakeForm

  /** Limits read from the contract; absent until they are loaded. */
  datatype Constants = Constants(maxBuckets: nat, minRate: nat, maxRate: nat, maxRefundBps: nat,
                                 minWorstCaseKappaBps: nat)

  datatype Issue =
    | SizesNotNumeric | RateNotWhole
    | TimesNotNumeric | TimeThresholdNotWhole | MultNotWhole
    | RatiosNotNumeric | RatioNotWhole | RefundNotWhole
    | SizeShape | TimeShape | RefundShape
    | SizeCount | TimeCount | RatioCount
    | SizeOrder(i: nat) | RatioOrder(i: nat) | TimeOrder(i: nat)
    | RateOutOfBounds(i: nat)
    | RefundTooHigh(s: nat, r: nat) | RefundDrops(s: nat, r: nat) | RefundEnd(s: nat)
    | KappaTooLow(worst: Worst)

  function MaxBuckets(consts: Option<Constants>): nat {
    if consts.Some? then consts.value.maxBuckets else 16
  }

  function MaxRefund(consts: Option<Constants>): JsNumber {
    Finite(if consts.Some? then consts.value.maxRefundBps as real else 10_000.0)
  }

  predicate IsNaN(f: Field) {
    Num(f).NaN?
  }

  /** A number, but not a whole one; an infinity is not whole. */
  predicate NotWhole(f: Field) {
    !IsNaN(f) && !IsWhole(Num(f))
  }

  predicate SomeNaN(column: seq<Field>) {
    exists v :: v in column && IsNaN(v)
  }

  predicate SomeNotWhole(column: seq<Field>) {
    exists v :: v in column && NotWhole(v)
  }

  predicate Bounded(count: nat, most: nat) {
    1 <= count <= most
  }

  predicate AscendsAt(column: seq<Field>, i: nat)
    requires 1 <= i < |column|
  {
    Less(Num(column[i - 1]), Num(column[i]))
  }

  predicate DescendsAt(column: seq<Field>, i: nat)
    requires 1 <= i < |column|
  {
    Less(Num(column[i]), Num(column[i - 1]))
  }

  predicate RateInBounds(c: Constants, f: Field) {
    !Less(Num(f), Finite(c.minRate as real)) && !Less(Finite(c.maxRate as real), Num(f))
  }

  /** The value a refund cell is compared with: the last readable cell before it, or 0. */
  function Previous(row: seq<Field>, r: nat): JsNumber
    requires r <= |row|
  {
    if r == 0 then Finite(0.0)
    else if IsNaN(row[r - 1]) then Previous(row, r - 1)
    else Num(row[r - 1])
  }

  /** What each message says about the form. */
  ghost predicate Violates(form: FormState, consts: Option<Constants>, e: Issue) {
    match e
    case SizesNotNumeric => SomeNaN(form.sizeThresholds) || SomeNaN(form.collateralRate)
    case RateNotWhole => SomeNotWhole(form.collateralRate)
    case TimesNotNumeric => SomeNaN(form.timeThresholds) || SomeNaN(form.timeMult)
    case TimeThresholdNotWhole => SomeNotWhole(form.timeThresholds)
    case MultNotWhole => SomeNotWhole(form.timeMult)
    case RatiosNotNumeric => SomeNaN(form.ratioThresholds) || exists row :: row in form.refundTable && SomeNaN(row)
    case RatioNotWhole => SomeNotWhole(form.ratioThresholds)
    case RefundNotWhole => exists row :: row in form.refundTable && SomeNotWhole(row)
    case SizeShape => |form.sizeThresholds| != |form.collateralRate| - 1
    case TimeShape => |form.timeThresholds| != |form.timeMult| - 1
    case RefundShape => !RefundShaped(form)
    case SizeCount => !Bounded(|form.collateralRate|, MaxBuckets(consts))
    case TimeCount => !Bounded(|form.timeMult|, MaxBuckets(consts))
    case RatioCount => !Bounded(|form.ratioThresholds| + 1, MaxBuckets(consts))
    case SizeOrder(i) => FirstBreak(form.sizeThresholds, true, i)
    case RatioOrder(i) => FirstBreak(form.ratioThresholds, true, i)
    case TimeOrder(i) => FirstBreak(form.timeThresholds, false, i)
    case RateOutOfBounds(i) =>
      consts.Some? && i < |form.collateralRate| && !IsNaN(form.collateralRate[i])
        && !RateInBounds(consts.value, form.collateralRate[i])
    case RefundTooHigh(s, r) =>
      s < |form.refundTable| && r < |form.refundTable[s]| && Less(MaxRefund(consts), Num(form.refundTable[s][r]))
    case RefundDrops(s, r) =>
      s < |form.refundTable| && r < |form.refundTable[s]|
        && Less(Num(form.refundTable[s][r]), Previous(form.refundTable[s], r))
    case RefundEnd(s) =>
      s < |form.refundTable| && Previous(form.refundTable[s], |form.refundTable[s]|) != MaxRefund(consts)
    case KappaTooLow(worst) => Consistent(form, consts) && BelowFloor(form, consts, worst)
  }

  ghost predicate BelowFloor(form: FormState, consts: Option<Constants>, worst: Worst) {
    consts.Some? && FormAnswer(form) == Found(worst) && worst.kappaBps < consts.value.minWorstCaseKappaBps
  }

  ghost predicate StepsAt(column: seq<Field>, up: bool, i: nat)
    requires 1 <= i < |column|
  {
    if up then AscendsAt(column, i) else DescendsAt(column, i)
  }

  /** i is the first position out of strict order. */
  ghost predicate FirstBreak(column: seq<Field>, up: bool, i: nat) {
    1 <= i < |column| && !StepsAt(column, up, i) && forall j: nat :: 1 <= j < i ==> StepsAt(column, up, j)
  }

  ghost predicate StrictOrder(column: seq<Field>, up: bool) {
    forall i: nat :: 1 <= i < |column| ==> StepsAt(column, up, i)
  }

  ghost predicate AllNumbers(column: seq<Field>) {
    !SomeNaN(column) && !SomeNotWhole(column)
  }

  ghost predicate NumbersClean(form: FormState) {
    && !SomeNaN(form.sizeThresholds) && AllNumbers(form.collateralRate)
    && AllNumbers(form.timeThresholds) && AllNumbers(form.timeMult) && AllNumbers(form.ratioThresholds)
    && forall row :: row in form.refundTable ==> AllNumbers(row)
  }

  ghost predicate ShapeClean(form: FormState, consts: Option<Constants>) {
    && |form.sizeThresholds| == |form.collateralRate| - 1 && |form.timeThresholds| == |form.timeMult| - 1
    && RefundShaped(form)
    && Bounded(|form.collateralRate|, MaxBuckets(consts)) && Bounded(|form.timeMult|, MaxBuckets(consts))
    && Bounded(|form.ratioThresholds| + 1, MaxBuckets(consts))
  }

  ghost predicate OrderClean(form: FormState) {
    && StrictOrder(form.sizeThresholds, true) && StrictOrder(form.ratioThresholds, true)
    && StrictOrder(form.timeThresholds, false)
  }

  ghost predicate RatesClean(form: FormState, consts: Option<Constants>) {
    consts.Some? ==> forall i :: 0 <= i < |form.collateralRate| && !IsNaN(form.collateralRate[i]) ==>
                       RateInBounds(consts.value, form.collateralRate[i])
  }

  ghost predicate RefundsClean(form: FormState, consts: Option<Constants>) {
    forall s :: 0 <= s < |form.refundTable| ==> RowClimbs(form.refundTable[s], MaxRefund(consts))
  }

  /** Every invariant but the economic floor. */
  ghost predicate Consistent(form: FormState, consts: Option<Constants>) {
    NumbersClean(form) && ShapeClean(form, consts) && OrderClean(form) && RatesClean(form, consts)
      && RefundsClean(form, consts)
  }

  /** A refund row never drops, never passes the ceiling and ends exactly at it. */
  ghost predicate RowClimbs(row: seq<Field>, ceiling: JsNumber) {
    && (forall r :: 0 <= r < |row| ==> !Less(ceiling, Num(row[r])) && !Less(Num(row[r]), Previous(row, r)))
    && Previous(row, |row|) == ceiling
  }

  // ---------------------------------------------------------------- the validator

  method FirstOutOfOrder(column: seq<Field>, up: bool) returns (at: Option<nat>)
    ensures at.None? ==> StrictOrder(column, up)
    ensures forall i: nat :: at == Some(i) <==> FirstBreak(column, up, i)
  {
    var i := 1;
    while i < |column|
      invariant 1 <= i
      invariant forall j: nat :: 1 <= j < i && j < |column| ==> StepsAt(column, up, j)
    {
      if !(if up then AscendsAt(column, i) else DescendsAt(column, i)) {
        assert !StepsAt(column, up, i);
        return Some(i);
      }
      i := i + 1;
    }
    return None;
  }

  /** The part of the validator an issue comes from. */
  datatype Kind = SizeNumbers | TimeNumbers | RatioNumbers | Lengths | Counts | Order | Rates | Refunds | Floor

  function KindOf(e: Issue): Kind {
    match e
    case SizesNotNumeric | RateNotWhole => SizeNumbers
    case TimesNotNumeric | TimeThresholdNotWhole | MultNotWhole => TimeNumbers
    case RatiosNotNumeric | RatioNotWhole | RefundNotWhole => RatioNumbers
    case SizeShape | TimeShape | RefundShape => Lengths
    case SizeCount | TimeCount | RatioCount => Counts
    case SizeOrder(_) | RatioOrder(_) | TimeOrder(_) => Order
    case RateOutOfBounds(_) => Rates
    case RefundTooHigh(_, _) | RefundDrops(_, _) | RefundEnd(_) => Refunds
    case KappaTooLow(_) => Floor
  }

  /** errs holds exactly the violated issues of these kinds. */
  ghost predicate Lists(form: FormState, consts: Option<Constants>, errs: seq<Issue>, kinds: set<Kind>) {
    forall e :: e in errs <==> KindOf(e) in kinds && Violates(form, consts, e)
  }

  ghost predicate Silent(form: FormState, consts: Option<Constants>, kinds: set<Kind>) {
    forall e :: KindOf(e) in kinds ==> !Violates(form, consts, e)
  }

  lemma Joined(form: FormState, consts: Option<Constants>, errs: seq<Issue>, kinds: set<Kind>, more: seq<Issue>,
               other: set<Kind>)
    requires Lists(form, consts, errs, kinds) && Lists(form, consts, more, other)
    ensures Lists(form, consts, errs + more, kinds + other)
  {
  }

  /** errs.push(e) under a condition. */
  function Report(errs: seq<Issue>, b: bool, e: Issue): (r: seq<Issue>)
    ensures forall x :: x in r <==> x in errs || (b && x == e)
  {
    if b then errs + [e] else errs
  }

  method SizeNumberIssues(form: FormState, ghost consts: Option<Constants>) returns (errs: seq<Issue>)
    ensures Lists(form, consts, errs, {SizeNumbers})
  {
    errs := Report([], SomeNaN(form.sizeThresholds) || SomeNaN(form.collateralRate), SizesNotNumeric);
    errs := Report(errs, SomeNotWhole(form.collateralRate), RateNotWhole);
  }

  method TimeNumberIssues(form: FormState, ghost consts: Option<Constants>) returns (errs: seq<Issue>)
    ensures Lists(form, consts, errs, {TimeNumbers})
  {
    errs := Report([], SomeNaN(form.timeThresholds) || SomeNaN(form.timeMult), TimesNotNumeric);
    errs := Report(errs, SomeNotWhole(form.timeThresholds), TimeThresholdNotWhole);
    errs := Report(errs, SomeNotWhole(form.timeMult), MultNotWhole);
  }

  lemma RefundNumberMessage(form: FormState, consts: Option<Constants>, e: Issue)
    ensures KindOf(e) == RatioNumbers && Violates(form, consts, e) <==>
      || (e == RatiosNotNumeric
          && (SomeNaN(form.ratioThresholds) || exists row :: row in form.refundTable && SomeNaN(row)))
      || (e == RatioNotWhole && SomeNotWhole(form.ratioThresholds))
      || (e == RefundNotWhole && exists row :: row in form.refundTable && SomeNotWhole(row))
  {
  }

  method RefundNumberIssues(form: FormState, ghost consts: Option<Constants>) returns (errs: seq<Issue>)
    ensures Lists(form, consts, errs, {RatioNumbers})
  {
    errs := Report([], SomeNaN(form.ratioThresholds) || exists row :: row in form.refundTable && SomeNaN(row),
                   RatiosNotNumeric);
    errs := Report(errs, SomeNotWhole(form.ratioThresholds), RatioNotWhole);
    errs := Report(errs, exists row :: row in form.refundTable && SomeNotWhole(row), RefundNotWhole);
    forall e
      ensures e in errs <==> KindOf(e) in {RatioNumbers} && Violates(form, consts, e)
    {
      RefundNumberMessage(form, consts, e);
    }
  }

  lemma LengthMessage(form: FormState, consts: Option<Constants>, e: Issue)
    ensures KindOf(e) == Lengths && Violates(form, consts, e) <==>
      || (e == SizeShape && |form.sizeThresholds| != |form.collateralRate| - 1)
      || (e == TimeShape && |form.timeThresholds| != |form.timeMult| - 1)
      || (e == RefundShape && !RefundShaped(form))
  {
  }

  method LengthIssues(form: FormState, ghost consts: Option<Constants>) returns (errs: seq<Issue>)
    ensures Lists(form, consts, errs, {Lengths})
  {
    var S, T, R := |form.collateralRate|, |form.timeMult|, |form.ratioThresholds| + 1;
    errs := Report([], |form.sizeThresholds| != S - 1, SizeShape);
    errs := Report(errs, |form.timeThresholds| != T - 1, TimeShape);
    var misshaped := |form.refundTable| != S || exists row :: row in form.refundTable && |row| != R;
    assert misshaped <==> !RefundShaped(form);
    errs := Report(errs, misshaped, RefundShape);
    forall e
      ensures e in errs <==> KindOf(e) in {Lengths} && Violates(form, consts, e)
    {
      LengthMessage(form, consts, e);
    }
  }

  method CountIssues(form: FormState, consts: Option<Constants>) returns (errs: seq<Issue>)
    ensures Lists(form, consts, errs, {Counts})
  {
    var S, T, R := |form.collateralRate|, |form.timeMult|, |form.ratioThresholds| + 1;
    var most := MaxBuckets(consts);
    errs := Report([], S < 1 || S > most, SizeCount);
    errs := Report(errs, T < 1 || T > most, TimeCount);
    errs := Report(errs, R < 1 || R > most, RatioCount);
  }

  ghost predicate OrderMessage(form: FormState, e: Issue) {
    || (e.SizeOrder? && FirstBreak(form.sizeThresholds, true, e.i))
    || (e.RatioOrder? && FirstBreak(form.ratioThresholds, true, e.i))
    || (e.TimeOrder? && FirstBreak(form.timeThresholds, false, e.i))
  }

  lemma OrderMessageIsViolation(form: FormState, consts: Option<Constants>, e: Issue)
    ensures OrderMessage(form, e) <==> KindOf(e) == Order && Violates(form, consts, e)
  {
  }

  method OrderIssues(form: FormState, ghost consts: Option<Constants>) returns (errs: seq<Issue>)
    ensures Lists(form, consts, errs, {Order})
  {
    errs := [];
    var size := FirstOutOfOrder(form.sizeThresholds, true);
    if size.Some? {
      errs := errs + [SizeOrder(size.value)];
    }
    assert forall e: Issue :: e in errs <==> e.SizeOrder? && size == Some(e.i);
    var ratio := FirstOutOfOrder(form.ratioThresholds, true);
    if ratio.Some? {
      errs := errs + [RatioOrder(ratio.value)];
    }
    assert forall e: Issue ::
        e in errs <==> (e.SizeOrder? && size == Some(e.i)) || (e.RatioOrder? && ratio == Some(e.i));
    var time := FirstOutOfOrder(form.timeThresholds, false);
    if time.Some? {
      errs := errs + [TimeOrder(time.value)];
    }
    forall e
      ensures e in errs <==> KindOf(e) in {Order} && Violates(form, consts, e)
    {
      OrderMessageIsViolation(form, consts, e);
    }
  }

  method RateIssues(form: FormState, consts: Option<Constants>) returns (errs: seq<Issue>)
    ensures Lists(form, consts, errs, {Rates})
  {
    errs := [];
    if consts.Some? {
      for i := 0 to |form.collateralRate|
        invariant forall e :: e in errs <==> e.RateOutOfBounds? && e.i < i && Violates(form, consts, e)
      {
        var f := form.collateralRate[i];
        if !IsNaN(f) && !RateInBounds(consts.value, f) {
          errs := errs + [RateOutOfBounds(i)];
        }
      }
    }
  }

  /** What is wrong with one refund row, before column n. */
  ghost predicate RowMessage(row: seq<Field>, ceiling: JsNumber, s: nat, n: nat, e: Issue)
    requires n <= |row|
  {
    || (e.RefundTooHigh? && e.s == s && e.r < n && Less(ceiling, Num(row[e.r])))
    || (e.RefundDrops? && e.s == s && e.r < n && Less(Num(row[e.r]), Previous(row, e.r)))
  }

  lemma RowMessageIsViolation(form: FormState, consts: Option<Constants>, s: nat, e: Issue)
    requires s < |form.refundTable|
    ensures var row, ceiling := form.refundTable[s], MaxRefund(consts);
            RowMessage(row, ceiling, s, |row|, e) || (e == RefundEnd(s) && Previous(row, |row|) != ceiling)
            <==> KindOf(e) == Refunds && e.s == s && Violates(form, consts, e)
  {
  }

  method RowIssues(form: FormState, consts: Option<Constants>, s: nat) returns (errs: seq<Issue>)
    requires s < |form.refundTable|
    ensures forall e :: e in errs <==> KindOf(e) == Refunds && e.s == s && Violates(form, consts, e)
  {
    errs := [];
    var row, ceiling, prev := form.refundTable[s], MaxRefund(consts), Finite(0.0);
    for r := 0 to |row|
      invariant prev == Previous(row, r)
      invariant forall e :: e in errs <==> RowMessage(row, ceiling, s, r, e)
    {
      var v := Num(row[r]);
      if !v.NaN? {
        errs := Report(errs, Less(ceiling, v), RefundTooHigh(s, r));
        errs := Report(errs, Less(v, prev), RefundDrops(s, r));
        prev := v;
      }
    }
    errs := Report(errs, prev != ceiling, RefundEnd(s));
    forall e
      ensures e in errs <==> KindOf(e) == Refunds && e.s == s && Violates(form, consts, e)
    {
      RowMessageIsViolation(form, consts, s, e);
    }
  }

  method RefundIssues(form: FormState, consts: Option<Constants>) returns (errs: seq<Issue>)
    ensures Lists(form, consts, errs, {Refunds})
  {
    errs := [];
    for s := 0 to |form.refundTable|
      invariant forall e :: e in errs <==> KindOf(e) == Refunds && e.s < s && Violates(form, consts, e)
    {
      var more := RowIssues(form, consts, s);
      errs := errs + more;
    }
  }

  lemma {:induction false} BreakHasFirst(column: seq<Field>, up: bool, i: nat)
    requires 1 <= i < |column| && !StepsAt(column, up, i)
    ensures exists j :: FirstBreak(column, up, j)
  {
    if j: nat :| 1 <= j < i && !StepsAt(column, up, j) {
      BreakHasFirst(column, up, j);
    } else {
      assert FirstBreak(column, up, i);
    }
  }

  lemma OrderedWithoutBreak(column: seq<Field>, up: bool)
    ensures StrictOrder(column, up) <==> forall i :: !FirstBreak(column, up, i)
  {
    if !StrictOrder(column, up) {
      var i: nat :| 1 <= i < |column| && !StepsAt(column, up, i);
      BreakHasFirst(column, up, i);
    }
  }

  lemma NumbersDecided(form: FormState, consts: Option<Constants>)
    ensures NumbersClean(form) <==> Silent(form, consts, {SizeNumbers, TimeNumbers, RatioNumbers})
  {
    assert NumbersClean(form) <==>
      && !Violates(form, consts, SizesNotNumeric) && !Violates(form, consts, RateNotWhole)
      && !Violates(form, consts, TimesNotNumeric) && !Violates(form, consts, TimeThresholdNotWhole)
      && !Violates(form, consts, MultNotWhole) && !Violates(form, consts, RatiosNotNumeric)
      && !Violates(form, consts, RatioNotWhole) && !Violates(form, consts, RefundNotWhole);
  }

  lemma ShapeDecided(form: FormState, consts: Option<Constants>)
    ensures ShapeClean(form, consts) <==> Silent(form, consts, {Lengths, Counts})
  {
    assert ShapeClean(form, consts) <==>
      && !Violates(form, consts, SizeShape) && !Violates(form, consts, TimeShape)
      && !Violates(form, consts, RefundShape)
      && !Violates(form, consts, SizeCount) && !Violates(form, consts, TimeCount)
      && !Violates(form, consts, RatioCount);
  }

  lemma OrderDecided(form: FormState, consts: Option<Constants>)
    ensures OrderClean(form) <==> Silent(form, consts, {Order})
  {
    OrderedWithoutBreak(form.sizeThresholds, true);
    OrderedWithoutBreak(form.ratioThresholds, true);
    OrderedWithoutBreak(form.timeThresholds, false);
    if Silent(form, consts, {Order}) {
      forall i: nat
        ensures !FirstBreak(form.sizeThresholds, true, i) && !FirstBreak(form.ratioThresholds, true, i)
             && !FirstBreak(form.timeThresholds, false, i)
      {
        assert !Violates(form, consts, SizeOrder(i)) && !Violates(form, consts, RatioOrder(i))
          && !Violates(form, consts, TimeOrder(i));
      }
    }
  }

  lemma RatesDecided(form: FormState, consts: Option<Constants>)
    ensures RatesClean(form, consts) <==> Silent(form, consts, {Rates})
  {
    if Silent(form, consts, {Rates}) {
      forall i | 0 <= i < |form.collateralRate|
        ensures IsNaN(form.collateralRate[i]) || consts.None? || RateInBounds(consts.value, form.collateralRate[i])
      {
        assert !Violates(form, consts, RateOutOfBounds(i));
      }
    }
  }

  lemma ClimbingRowHasNoIssue(form: FormState, consts: Option<Constants>, e: Issue)
    requires RefundsClean(form, consts) && KindOf(e) == Refunds
    ensures !Violates(form, consts, e)
  {
  }

  lemma SilentRowClimbs(form: FormState, consts: Option<Constants>, s: nat)
    requires s < |form.refundTable| && Silent(form, consts, {Refunds})
    ensures RowClimbs(form.refundTable[s], MaxRefund(consts))
  {
    var row, ceiling := form.refundTable[s], MaxRefund(consts);
    assert !Violates(form, consts, RefundEnd(s));
    forall r | 0 <= r < |row|
      ensures !Less(ceiling, Num(row[r])) && !Less(Num(row[r]), Previous(row, r))
    {
      assert !Violates(form, consts, RefundTooHigh(s, r));
      assert !Violates(form, consts, RefundDrops(s, r));
    }
  }

  lemma RefundsDecided(form: FormState, consts: Option<Constants>)
    ensures RefundsClean(form, consts) <==> Silent(form, consts, {Refunds})
  {
    if RefundsClean(form, consts) {
      forall e | KindOf(e) in {Refunds}
        ensures !Violates(form, consts, e)
      {
        ClimbingRowHasNoIssue(form, consts, e);
      }
    } else if Silent(form, consts, {Refunds}) {
      forall s | 0 <= s < |form.refundTable|
        ensures RowClimbs(form.refundTable[s], MaxRefund(consts))
      {
        SilentRowClimbs(form, consts, s);
      }
    }
  }

  const STRUCTURAL: set<Kind> := {SizeNumbers, TimeNumbers, RatioNumbers, Lengths, Counts, Order, Rates, Refunds}

  /** The other invariants hold exactly when no message but the floor's applies. */
  lemma ConsistencyDecided(form: FormState, consts: Option<Constants>)
    ensures Consistent(form, consts) <==> Silent(form, consts, STRUCTURAL)
  {
    NumbersDecided(form, consts);
    ShapeDecided(form, consts);
    OrderDecided(form, consts);
    RatesDecided(form, consts);
    RefundsDecided(form, consts);
    SilentParts(form, consts);
  }

  lemma SilentParts(form: FormState, consts: Option<Constants>)
    ensures Silent(form, consts, STRUCTURAL) <==>
      && Silent(form, consts, {SizeNumbers, TimeNumbers, RatioNumbers}) && Silent(form, consts, {Lengths, Counts})
      && Silent(form, consts, {Order}) && Silent(form, consts, {Rates}) && Silent(form, consts, {Refunds})
  {
  }

  // ---------------------------------------------------------------- adding buckets

  lemma CopiedCellClimbs(row: seq<Field>, ceiling: JsNumber)
    requires RowClimbs(row, ceiling) && row != [] && !IsNaN(row[|row| - 1])
    ensures RowClimbs(row + [row[|row| - 1]], ceiling)
  {
    var wider := row + [row[|row| - 1]];
    forall r | 0 <= r <= |row|
      ensures Previous(wider, r) == Previous(row, r)
    {
      PreviousIsPrefix(row, wider, r);
    }
    assert Previous(wider, |wider|) == Num(row[|row| - 1]) == Previous(row, |row|);
  }

  lemma {:induction false} PreviousIsPrefix(row: seq<Field>, wider: seq<Field>, r: nat)
    requires r <= |row| && row <= wider
    ensures Previous(wider, r) == Previous(row, r)
  {
    if r > 0 {
      PreviousIsPrefix(row, wider, r - 1);
    }
  }

  /** New buckets copy their neighbour, so adding one never introduces a refund or rate message. */
  lemma AddingKeepsRefundsAndRates(form: FormState, consts: Option<Constants>)
    requires Shaped(form) && NumbersClean(form) && RefundsClean(form, consts) && RatesClean(form, consts)
    ensures var wider := Apply(form, AddRatioBucket); RefundsClean(wider, consts) && RatesClean(wider, consts)
    ensures var taller := Apply(form, AddSizeBucket); RefundsClean(taller, consts) && RatesClean(taller, consts)
  {
    forall s | 0 <= s < |form.refundTable|
      ensures RowClimbs(Apply(form, AddRatioBucket).refundTable[s], MaxRefund(consts))
    {
      var row := form.refundTable[s];
      assert row in form.refundTable && row[|row| - 1] in row;
      CopiedCellClimbs(row, MaxRefund(consts));
    }
  }

  // ---------------------------------------------------------------- a consistent form is a well-formed table

  lemma CleanFieldIsWhole(f: Field)
    requires !IsNaN(f) && !NotWhole(f)
    ensures IsWhole(ToNumber(f)) && Num(f) == Finite(Truncated(f) as real)
  {
    TruncOfInt(Num(f).value.Floor);
  }

  lemma CleanColumnIsWhole(column: seq<Field>)
    requires AllNumbers(column)
    ensures WholeColumn(column) && forall i :: 0 <= i < |column| ==>
              Num(column[i]) == Finite(Truncated(column[i]) as real)
  {
    forall i | 0 <= i < |column|
      ensures IsWhole(ToNumber(column[i])) && Num(column[i]) == Finite(Truncated(column[i]) as real)
    {
      assert column[i] in column;
      CleanFieldIsWhole(column[i]);
    }
  }

  lemma CleanFormIsWhole(form: FormState, consts: Option<Constants>)
    requires Consistent(form, consts)
    ensures WholeForm(form)
  {
    CleanColumnIsWhole(form.collateralRate);
    CleanColumnIsWhole(form.timeMult);
    CleanColumnIsWhole(form.ratioThresholds);
    forall s | 0 <= s < |form.refundTable|
      ensures WholeColumn(form.refundTable[s])
    {
      CleanColumnIsWhole(form.refundTable[s]);
    }
  }

  lemma {:induction false} ScanRowsFinds(table: Table, s: nat, best: Option<Worst>)
    requires table.Rectangular() && s <= |table.rho| && |table.mult| >= 1 && (s < |table.rho| || best.Some?)
    ensures ScanRows(table, s, best).Some?
    decreases |table.rho| - s
  {
    if s < |table.rho| {
      var idx := LastBelow(table.rows[s], |table.thresholds|);
      if idx >= 0 && table.thresholds[idx] != 0 {
        var penalty, x := FULL_BPS - table.rows[s][idx], table.thresholds[idx];
        ScanTimesFinds(table.rho[s], table.mult, 0, penalty, x, s, idx, best);
        ScanRowsFinds(table, s + 1, ScanTimes(table.rho[s], table.mult, 0, penalty, x, s, idx, best));
      }
    }
  }

  /** Once the other invariants hold, the floor is computed: it neither throws nor gives up. */
  lemma FloorIsComputed(form: FormState, consts: Option<Constants>)
    requires Consistent(form, consts)
    ensures FormAnswer(form).Found? && WorstCell(FormTable(form)) == Some(FormAnswer(form).worst)
  {
    CleanFormIsWhole(form, consts);
    FormAnswerIsTableAnswer(form);
    if FormTable(form).thresholds != [] {
      ScanRowsFinds(FormTable(form), 0, None);
    }
  }

  lemma OnlyTheFloor(form: FormState, consts: Option<Constants>, errs: seq<Issue>)
    requires Consistent(form, consts)
    requires forall e: Issue :: e in errs <==> e.KappaTooLow? && BelowFloor(form, consts, e.worst)
    ensures Lists(form, consts, errs, {Floor})
  {
  }

  lemma NoFloorIssue(form: FormState, consts: Option<Constants>)
    requires !Consistent(form, consts)
    ensures Lists(form, consts, [], {Floor})
  {
  }

  lemma EveryKind(form: FormState, consts: Option<Constants>, errs: seq<Issue>)
    requires Lists(form, consts, errs, STRUCTURAL + {Floor})
    ensures forall e :: e in errs <==> Violates(form, consts, e)
  {
  }

  method FloorIssues(form: FormState, consts: Option<Constants>) returns (errs: seq<Issue>)
    requires Consistent(form, consts)
    ensures Lists(form, consts, errs, {Floor})
  {
    errs := [];
    if consts.Some? {
      FloorIsComputed(form, consts);
      var answer := WorstCaseKappaForm(form);
      if answer.Found? && answer.worst.kappaBps < consts.value.minWorstCaseKappaBps {
        errs := [KappaTooLow(answer.worst)];
      }
    }
    OnlyTheFloor(form, consts, errs);
  }

  method StructuralIssues(form: FormState, consts: Option<Constants>) returns (errs: seq<Issue>)
    ensures Lists(form, consts, errs, STRUCTURAL)
  {
    errs := SizeNumberIssues(form, consts);
    ghost var kinds := {SizeNumbers};
    var more := TimeNumberIssues(form, consts);
    Joined(form, consts, errs, kinds, more, {TimeNumbers});
    errs, kinds := errs + more, kinds + {TimeNumbers};
    more := RefundNumberIssues(form, consts);
    Joined(form, consts, errs, kinds, more, {RatioNumbers});
    errs, kinds := errs + more, kinds + {RatioNumbers};
    more := LengthIssues(form, consts);
    Joined(form, consts, errs, kinds, more, {Lengths});
    errs, kinds := errs + more, kinds + {Lengths};
    more := CountIssues(form, consts);
    Joined(form, consts, errs, kinds, more, {Counts});
    errs, kinds := errs + more, kinds + {Counts};
    more := OrderIssues(form, consts);
    Joined(form, consts, errs, kinds, more, {Order});
    errs, kinds := errs + more, kinds + {Order};
    more := RateIssues(form, consts);
    Joined(form, consts, errs, kinds, more, {Rates});
    errs, kinds := errs + more, kinds + {Rates};
    more := RefundIssues(form, consts);
    Joined(form, consts, errs, kinds, more, {Refunds});
    errs, kinds := errs + more, kinds + {Refunds};
    assert kinds == STRUCTURAL;
  }

  /** The messages are exactly the violated invariants; the floor is looked at only when nothing else is wrong. */
  method ValidateForm(form: FormState, consts: Option<Constants>) returns (errs: seq<Issue>)
    ensures forall e :: e in errs <==> Violates(form, consts, e)
  {
    errs := StructuralIssues(form, consts);
    ConsistencyDecided(form, consts);
    if errs == [] {
      var floor := FloorIssues(form, consts);
      Joined(form, consts, errs, STRUCTURAL, floor, {Floor});
      errs := errs + floor;
    } else {
      assert errs[0] in errs;
      NoFloorIssue(form, consts);
      Joined(form, consts, errs, STRUCTURAL, [], {Floor});
      assert errs + [] == errs;
    }
    EveryKind(form, consts, errs);
  }
}
