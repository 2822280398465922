/**
 * The editable stake form (frontend/src/pages/StakeConfig.tsx): text fields, a nested refund table,
 * bucket edits, and the same economic floor computed on it.
 */
module StakeForm {
  import opened Arith
  import opened Wrappers
  import opened StakeTable

  // ---------------------------------------------------------------- JavaScript numbers

  datatype JsNumber = NaN | Infinite(negative: bool) | Finite(value: real)

  /** Text of an input: blank, not a number, or what Number(...) reads from it. */
  datatype Field = Blank | Text | Reads(number: JsNumber)

  /** Number(v). */
  function ToNumber(f: Field): JsNumber {
    match f
    case Blank => Finite(0.0)
    case Text => NaN
    case Reads(n) => n
  }

  /** The validator's own conversion: blank is not a number. */
  function Num(f: Field): JsNumber {
    if f.Blank? then NaN else ToNumber(f)
  }

  /** The submit handler's conversion: blank is 0. */
  function Submitted(f: Field): JsNumber {
    if f.Blank? then Finite(0.0) else ToNumber(f)
  }

  /** a < b; false as soon as one side is NaN. */
  predicate Less(a: JsNumber, b: JsNumber) {
    match (a, b)
    case (NaN, _) => false
    case (_, NaN) => false
    case (Infinite(n), Infinite(m)) => n && !m
    case (Infinite(n), Finite(_)) => n
    case (Finite(_), Infinite(m)) => !m
    case (Finite(x), Finite(y)) => x < y
  }

  predicate IsWhole(n: JsNumber) {
    n.Finite? && n.value == n.value.Floor as real
  }

  /** The whole part, towards zero. */
  function Trunc(r: real): (i: int)
    ensures r >= 0.0 ==> 0.0 <= i as real <= r < i as real + 1.0
    ensures r <= 0.0 ==> i as real - 1.0 < r <= i as real <= 0.0
  {
    if r >= 0.0 then r.Floor else -((-r).Floor)
  }

  function OfInt(i: int): (f: Field)
    ensures ToNumber(f) == Finite(i as real) && Num(f) == Finite(i as real)
  {
    Reads(Finite(i as real))
  }

  // ---------------------------------------------------------------- the form and its edits

  datatype FormState = FormState(sizeThresholds: seq<Field>, collateralRate: seq<Field>, timeThresholds: seq<Field>,
                                 timeMult: seq<Field>, ratioThresholds: seq<Field>, refundTable: seq<seq<Field>>,
                                 minCollateral: Field)

  datatype Key = SizeThresholds | CollateralRate | TimeThresholds | TimeMult | RatioThresholds

  datatype Edit =
    | AddSizeBucket | RemoveSizeBucket
    | AddTimeBucket | RemoveTimeBucket
    | AddRatioBucket | RemoveRatioBucket
    | Set1D(key: Key, i: nat, v: Field)
    | SetCell(s: nat, r: nat, v: Field)

  function Column(form: FormState, key: Key): seq<Field> {
    match key
    case SizeThresholds => form.sizeThresholds
    case CollateralRate => form.collateralRate
    case TimeThresholds => form.timeThresholds
    case TimeMult => form.timeMult
    case RatioThresholds => form.ratioThresholds
  }

  function WithColumn(form: FormState, key: Key, column: seq<Field>): FormState {
    match key
    case SizeThresholds => form.(sizeThresholds := column)
    case CollateralRate => form.(collateralRate := column)
    case TimeThresholds => form.(timeThresholds := column)
    case TimeMult => form.(timeMult := column)
    case RatioThresholds => form.(ratioThresholds := column)
  }

  /** The inputs the page renders: every edit it can send addresses one of them. */
  predicate InRange(form: FormState, e: Edit) {
    match e
    case Set1D(key, i, _) => i < |Column(form, key)|
    case SetCell(s, r, _) => s < |form.refundTable| && r < |form.refundTable[s]|
    case _ => true
  }

  function LastOr<T>(s: seq<T>, default: T): T {
    if s == [] then default else s[|s| - 1]
  }

  /** JavaScript's slice(0, -1). */
  function DropLast<T>(s: seq<T>): seq<T> {
    if s == [] then [] else s[..|s| - 1]
  }

  function MapRows(rows: seq<seq<Field>>, f: seq<Field> -> seq<Field>): (r: seq<seq<Field>>)
    ensures |r| == |rows| && forall i :: 0 <= i < |rows| ==> r[i] == f(rows[i])
  {
    seq(|rows|, i requires 0 <= i < |rows| => f(rows[i]))
  }

  function Filled(n: nat, v: Field): (s: seq<Field>)
    ensures |s| == n
  {
    seq(n, _ => v)
  }

  function Apply(form: FormState, e: Edit): FormState
    requires InRange(form, e)
  {
    match e
    case AddSizeBucket =>
      var nextRate := LastOr(form.collateralRate, OfInt(10_000));
      var lastRow := LastOr(form.refundTable, Filled(|form.ratioThresholds| + 1, OfInt(10_000)));
      form.(sizeThresholds := form.sizeThresholds + [Blank], collateralRate := form.collateralRate + [nextRate],
            refundTable := form.refundTable + [lastRow])
    case RemoveSizeBucket =>
      if |form.collateralRate| <= 1 then form
      else form.(sizeThresholds := DropLast(form.sizeThresholds), collateralRate := DropLast(form.collateralRate),
                 refundTable := DropLast(form.refundTable))
    case AddTimeBucket =>
      form.(timeThresholds := form.timeThresholds + [Blank],
            timeMult := form.timeMult + [LastOr(form.timeMult, OfInt(10_000))])
    case RemoveTimeBucket =>
      if |form.timeMult| <= 1 then form
      else form.(timeThresholds := DropLast(form.timeThresholds), timeMult := DropLast(form.timeMult))
    case AddRatioBucket =>
      form.(ratioThresholds := form.ratioThresholds + [Blank],
            refundTable := MapRows(form.refundTable, row => row + [LastOr(row, OfInt(10_000))]))
    case RemoveRatioBucket =>
      if |form.ratioThresholds| == 0 then form
      else form.(ratioThresholds := DropLast(form.ratioThresholds),
                 refundTable := MapRows(form.refundTable, row => DropLast(row)))
    case Set1D(key, i, v) => WithColumn(form, key, Column(form, key)[i := v])
    case SetCell(s, r, v) => form.(refundTable := form.refundTable[s := form.refundTable[s][r := v]])
  }

  /** Editing a cell changes that cell and nothing else in the form. */
  lemma CellEdited(form: FormState, s: nat, r: nat, v: Field)
    requires s < |form.refundTable| && r < |form.refundTable[s]|
    ensures var after := Apply(form, SetCell(s, r, v));
            && after == form.(refundTable := after.refundTable) && |after.refundTable| == |form.refundTable|
            && (forall i :: 0 <= i < |form.refundTable| ==> |after.refundTable[i]| == |form.refundTable[i]|)
            && forall i, j :: 0 <= i < |form.refundTable| && 0 <= j < |form.refundTable[i]| ==>
                 after.refundTable[i][j] == if i == s && j == r then v else form.refundTable[i][j]
  {
  }

  /** Editing an input of a column changes that input and nothing else in the form. */
  lemma InputEdited(form: FormState, key: Key, i: nat, v: Field)
    requires InRange(form, Set1D(key, i, v))
    ensures var after := Apply(form, Set1D(key, i, v));
            match key
            case SizeThresholds =>
              i < |form.sizeThresholds| && after == form.(sizeThresholds := form.sizeThresholds[i := v])
            case CollateralRate =>
              i < |form.collateralRate| && after == form.(collateralRate := form.collateralRate[i := v])
            case TimeThresholds =>
              i < |form.timeThresholds| && after == form.(timeThresholds := form.timeThresholds[i := v])
            case TimeMult => i < |form.timeMult| && after == form.(timeMult := form.timeMult[i := v])
            case RatioThresholds =>
              i < |form.ratioThresholds| && after == form.(ratioThresholds := form.ratioThresholds[i := v])
  {
  }

  /** b is a with one more element: a copy of its last one, or `10000` without one. */
  ghost predicate RepeatsLast(a: seq<Field>, b: seq<Field>) {
    && |b| == |a| + 1 && a == b[..|a|]
    && b[|a|] == if |a| > 0 then a[|a| - 1] else Reads(Finite(10_000.0))
  }

  /** b is a with one more blank. */
  ghost predicate AddsBlank(a: seq<Field>, b: seq<Field>) {
    |b| == |a| + 1 && a == b[..|a|] && b[|a|] == Blank
  }

  /**
   * A new bucket has a blank threshold and repeats its neighbour: the rate and refund row, the multiplier, each cell.
   */
  lemma BucketAdded(form: FormState)
    ensures var after := Apply(form, AddSizeBucket);
            && AddsBlank(form.sizeThresholds, after.sizeThresholds)
            && RepeatsLast(form.collateralRate, after.collateralRate)
            && |after.refundTable| == |form.refundTable| + 1
            && form.refundTable == after.refundTable[..|form.refundTable|]
            && (form.refundTable != [] ==>
                  after.refundTable[|form.refundTable|] == form.refundTable[|form.refundTable| - 1])
            && after == form.(sizeThresholds := after.sizeThresholds, collateralRate := after.collateralRate,
                              refundTable := after.refundTable)
    ensures var after := Apply(form, AddTimeBucket);
            && AddsBlank(form.timeThresholds, after.timeThresholds) && RepeatsLast(form.timeMult, after.timeMult)
            && after == form.(timeThresholds := after.timeThresholds, timeMult := after.timeMult)
    ensures var after := Apply(form, AddRatioBucket);
            && AddsBlank(form.ratioThresholds, after.ratioThresholds) && |after.refundTable| == |form.refundTable|
            && (forall s :: 0 <= s < |form.refundTable| ==> RepeatsLast(form.refundTable[s], after.refundTable[s]))
            && after == form.(ratioThresholds := after.ratioThresholds, refundTable := after.refundTable)
  {
  }

  /** b is a without its last element, if it has one. */
  ghost predicate DropsLast<T(!new)>(a: seq<T>, b: seq<T>) {
    if a == [] then b == [] else |b| == |a| - 1 && b == a[..|a| - 1]
  }

  /** Removing drops the last bucket everywhere it shows; the last size or time bucket left stays. */
  lemma BucketRemoved(form: FormState)
    ensures var after := Apply(form, RemoveSizeBucket);
            if |form.collateralRate| <= 1 then after == form
            else
              && DropsLast(form.sizeThresholds, after.sizeThresholds)
              && DropsLast(form.collateralRate, after.collateralRate) && DropsLast(form.refundTable, after.refundTable)
              && after == form.(sizeThresholds := after.sizeThresholds, collateralRate := after.collateralRate,
                                refundTable := after.refundTable)
    ensures var after := Apply(form, RemoveTimeBucket);
            if |form.timeMult| <= 1 then after == form
            else
              && DropsLast(form.timeThresholds, after.timeThresholds) && DropsLast(form.timeMult, after.timeMult)
              && after == form.(timeThresholds := after.timeThresholds, timeMult := after.timeMult)
    ensures var after := Apply(form, RemoveRatioBucket);
            if form.ratioThresholds == [] then after == form
            else
              && DropsLast(form.ratioThresholds, after.ratioThresholds)
              && |after.refundTable| == |form.refundTable|
              && (forall s :: 0 <= s < |form.refundTable| ==> DropsLast(form.refundTable[s], after.refundTable[s]))
              && after == form.(ratioThresholds := after.ratioThresholds, refundTable := after.refundTable)
  {
  }

  /** Shape every consumer of the form relies on: S, S - 1, T, T - 1 and S x R. */
  ghost predicate Shaped(form: FormState) {
    && |form.collateralRate| >= 1 && |form.sizeThresholds| == |form.collateralRate| - 1
    && |form.timeMult| >= 1 && |form.timeThresholds| == |form.timeMult| - 1
    && RefundShaped(form)
  }

  ghost predicate RefundShaped(form: FormState) {
    && |form.refundTable| == |form.collateralRate|
    && forall s :: 0 <= s < |form.refundTable| ==> |form.refundTable[s]| == |form.ratioThresholds| + 1
  }

  lemma EditKeepsShape(form: FormState, e: Edit)
    requires Shaped(form) && InRange(form, e)
    ensures Shaped(Apply(form, e))
  {
  }

  /** A session: edits applied in order, each to an input that exists when it is made. */
  ghost predicate AllInRange(form: FormState, edits: seq<Edit>)
    decreases |edits|
  {
    edits == [] || (InRange(form, edits[0]) && AllInRange(Apply(form, edits[0]), edits[1..]))
  }

  ghost function ApplyAll(form: FormState, edits: seq<Edit>): FormState
    requires AllInRange(form, edits)
    decreases |edits|
  {
    if edits == [] then form else ApplyAll(Apply(form, edits[0]), edits[1..])
  }

  lemma {:induction false} EditsKeepShape(form: FormState, edits: seq<Edit>)
    requires Shaped(form) && AllInRange(form, edits)
    ensures Shaped(ApplyAll(form, edits))
    decreases |edits|
  {
    if edits != [] {
      EditKeepsShape(form, edits[0]);
      EditsKeepShape(Apply(form, edits[0]), edits[1..]);
    }
  }

  /** Removing a bucket undoes adding it. */
  lemma RemoveUndoesAdd(form: FormState)
    requires Shaped(form)
    ensures Apply(Apply(form, AddSizeBucket), RemoveSizeBucket) == form
    ensures Apply(Apply(form, AddTimeBucket), RemoveTimeBucket) == form
    ensures Apply(Apply(form, AddRatioBucket), RemoveRatioBucket) == form
  {
  }

  // ---------------------------------------------------------------- to the form and back

  /** refundTable[s * R + r]; a missing cell prints as text that is not a number. */
  function CellField(cfg: Config, s: nat, r: nat): Field {
    var i := s * Columns(cfg) + r;
    if 0 <= i < |cfg.refundTable| then OfInt(cfg.refundTable[i]) else Text
  }

  function Fields(column: seq<int>): (fields: seq<Field>)
    ensures |fields| == |column| && forall i :: 0 <= i < |column| ==> fields[i] == OfInt(column[i])
  {
    seq(|column|, i requires 0 <= i < |column| => OfInt(column[i]))
  }

  function InEther(wei: seq<int>): (fields: seq<Field>)
    ensures |fields| == |wei|
  {
    seq(|wei|, i requires 0 <= i < |wei| => Reads(Finite(wei[i] as real / WAD as real)))
  }

  function ToForm(cfg: Config): FormState {
    FormState(InEther(cfg.sizeThresholds), Fields(cfg.collateralRate), Fields(cfg.timeThresholds),
              Fields(cfg.timeMult), Fields(cfg.ratioThresholds),
              seq(|cfg.collateralRate|, s requires 0 <= s < |cfg.collateralRate| =>
                seq(Columns(cfg), r requires 0 <= r < Columns(cfg) => CellField(cfg, s, r))),
              Reads(Finite(cfg.minCollateral as real / WAD as real)))
  }

  function Flat(rows: seq<seq<Field>>): seq<Field> {
    if rows == [] then [] else Flat(rows[..|rows| - 1]) + rows[|rows| - 1]
  }

  /** The refund table the form submits. */
  function SubmittedTable(form: FormState): seq<JsNumber> {
    var flat := Flat(form.refundTable);
    seq(|flat|, i requires 0 <= i < |flat| => Submitted(flat[i]))
  }

  lemma {:induction false} FlatLength(rows: seq<seq<Field>>, columns: nat)
    requires forall s :: 0 <= s < |rows| ==> |rows[s]| == columns
    ensures |Flat(rows)| == |rows| * columns
  {
    if rows != [] {
      FlatLength(rows[..|rows| - 1], columns);
      Distribute(|rows| - 1, 1, columns);
    }
  }

  lemma {:induction false} FlatCell(rows: seq<seq<Field>>, columns: nat, s: nat, r: nat)
    requires forall s :: 0 <= s < |rows| ==> |rows[s]| == columns
    requires s < |rows| && r < columns
    ensures 0 <= s * columns + r < |Flat(rows)| && Flat(rows)[s * columns + r] == rows[s][r]
  {
    var init := rows[..|rows| - 1];
    FlatLength(init, columns);
    MulMono(0, s, columns);
    if s < |rows| - 1 {
      FlatCell(init, columns, s, r);
    }
  }

  lemma DivModCell(i: nat, size: nat, columns: nat)
    requires columns > 0 && i < size * columns
    ensures 0 <= i / columns < size && 0 <= i % columns < columns && i == i / columns * columns + i % columns
  {
  }

  /** Showing a configuration and submitting it unchanged gives its refund table back exactly when that is S x R. */
  lemma RefundTableRoundTrip(cfg: Config)
    ensures SubmittedTable(ToForm(cfg))
            == seq(|cfg.refundTable|, i requires 0 <= i < |cfg.refundTable| => Finite(cfg.refundTable[i] as real))
            <==> WellShaped(cfg)
  {
    var rows, columns := ToForm(cfg).refundTable, Columns(cfg);
    FlatLength(rows, columns);
    var flat := Flat(rows);
    if WellShaped(cfg) {
      forall i | 0 <= i < |flat|
        ensures flat[i] == OfInt(cfg.refundTable[i])
      {
        DivModCell(i, |rows|, columns);
        FlatCell(rows, columns, i / columns, i % columns);
      }
    } else {
      assert |SubmittedTable(ToForm(cfg))| == |cfg.collateralRate| * columns;
    }
  }

  // ---------------------------------------------------------------- the floor, on the form

  /** Null while a cell is unreadable; an exception when a used number is not finite. */
  datatype FormKappa = Incomplete | Throws | Found(worst: Worst)

  /** Number(form.refundTable[s]?.[k]): NaN when the cell does not exist. */
  function FormCell(form: FormState, s: nat, k: nat): JsNumber {
    if s < |form.refundTable| && k < |form.refundTable[s]| then ToNumber(form.refundTable[s][k]) else NaN
  }

  datatype Walk = Unreadable | Honest | At(idx: nat)

  /** The walk back over the first k cells of row s. */
  function WalkBack(form: FormState, s: nat, k: nat): Walk {
    if k == 0 then Honest
    else if !FormCell(form, s, k - 1).Finite? then Unreadable
    else if FormCell(form, s, k - 1).value < 10_000.0 then At(k - 1)
    else WalkBack(form, s, k - 1)
  }

  lemma {:induction false} WalkBackIndex(form: FormState, s: nat, k: nat)
    ensures WalkBack(form, s, k).At? ==>
              WalkBack(form, s, k).idx < k && FormCell(form, s, WalkBack(form, s, k).idx).Finite?
  {
    if k > 0 {
      WalkBackIndex(form, s, k - 1);
    }
  }

  /** The multipliers as integers, or None when BigInt would throw on one of them. */
  function AllFinite(fields: seq<Field>): bool {
    forall i :: 0 <= i < |fields| ==> ToNumber(fields[i]).Finite?
  }

  function Truncated(f: Field): int {
    if ToNumber(f).Finite? then Trunc(ToNumber(f).value) else 0
  }

  function AllTruncated(fields: seq<Field>): (ints: seq<int>)
    ensures |ints| == |fields| && forall i :: 0 <= i < |fields| ==> ints[i] == Truncated(fields[i])
  {
    seq(|fields|, i requires 0 <= i < |fields| => Truncated(fields[i]))
  }

  function ScanForm(form: FormState, s: nat, best: Option<Worst>): FormKappa
    requires s <= |form.collateralRate|
    decreases |form.collateralRate| - s
  {
    if s == |form.collateralRate| then
      if best.None? then Incomplete else Found(best.value)
    else
      WalkBackIndex(form, s, |form.ratioThresholds|);
      match WalkBack(form, s, |form.ratioThresholds|)
      case Unreadable => Incomplete
      case Honest => Found(Worst(0, s, 0))
      case At(idx) =>
        var x := Truncated(form.ratioThresholds[idx]);
        if !ToNumber(form.ratioThresholds[idx]).Finite? then Throws
        else if x == 0 then Found(Worst(0, s, idx))
        else if !ToNumber(form.collateralRate[s]).Finite? || !AllFinite(form.timeMult) then Throws
        else
          var penalty := FULL_BPS - Trunc(FormCell(form, s, idx).value);
          ScanForm(form, s + 1, ScanTimes(Truncated(form.collateralRate[s]), AllTruncated(form.timeMult), 0,
                                          penalty, x, s, idx, best))
  }

  method WorstCaseKappaForm(form: FormState) returns (r: FormKappa)
    ensures r == if |form.ratioThresholds| == 0 then Found(Worst(0, 0, 0)) else ScanForm(form, 0, None)
  {
    var S, T, R := |form.collateralRate|, |form.timeMult|, |form.ratioThresholds| + 1;
    if R < 2 {
      return Found(Worst(0, 0, 0));
    }
    var best: Option<Worst> := None;
    var s := 0;
    while s < S
      invariant 0 <= s <= S
      invariant ScanForm(form, s, best) == ScanForm(form, 0, None)
    {
      var walk := LastNonHonestForm(form, s);
      WalkBackIndex(form, s, |form.ratioThresholds|);
      if walk.Unreadable? {
        return Incomplete;
      }
      if walk.Honest? {
        return Found(Worst(0, s, 0));
      }
      if !ToNumber(form.ratioThresholds[walk.idx]).Finite? {
        return Throws;
      }
      var x := Truncated(form.ratioThresholds[walk.idx]);
      if x == 0 {
        return Found(Worst(0, s, walk.idx));
      }
      var penalty := FULL_BPS - Trunc(FormCell(form, s, walk.idx).value);
      if !ToNumber(form.collateralRate[s]).Finite? || !AllFinite(form.timeMult) {
        return Throws;
      }
      best := LowestOverTimes(Truncated(form.collateralRate[s]), AllTruncated(form.timeMult), penalty, x, s, walk.idx,
                              best);
      s := s + 1;
    }
    if best.None? {
      return Incomplete;
    }
    return Found(best.value);
  }

  method LastNonHonestForm(form: FormState, s: nat) returns (walk: Walk)
    ensures walk == WalkBack(form, s, |form.ratioThresholds|)
  {
    var k := |form.ratioThresholds|;
    while k > 0
      invariant 0 <= k <= |form.ratioThresholds|
      invariant WalkBack(form, s, k) == WalkBack(form, s, |form.ratioThresholds|)
    {
      var cell := FormCell(form, s, k - 1);
      if !cell.Finite? {
        return Unreadable;
      }
      if cell.value < 10_000.0 {
        return At(k - 1);
      }
      k := k - 1;
    }
    return Honest;
  }

  // ---------------------------------------------------------------- both representations agree

  ghost predicate WholeColumn(fields: seq<Field>) {
    forall i :: 0 <= i < |fields| ==> IsWhole(ToNumber(fields[i]))
  }

  /** Every number the floor reads is a whole number, in a table of the right shape. */
  ghost predicate WholeForm(form: FormState) {
    && RefundShaped(form)
    && WholeColumn(form.collateralRate) && WholeColumn(form.timeMult) && WholeColumn(form.ratioThresholds)
    && forall s :: 0 <= s < |form.refundTable| ==> WholeColumn(form.refundTable[s])
  }

  function FormTable(form: FormState): Table {
    Table(AllTruncated(form.collateralRate), AllTruncated(form.timeMult), AllTruncated(form.ratioThresholds),
          seq(|form.refundTable|, s requires 0 <= s < |form.refundTable| => AllTruncated(form.refundTable[s])))
  }

  lemma {:induction false} WalkBackAgrees(form: FormState, s: nat, k: nat)
    requires WholeForm(form) && s < |form.refundTable| && k <= |form.ratioThresholds|
    ensures var idx := LastBelow(FormTable(form).rows[s], k);
            WalkBack(form, s, k) == if idx == -1 then Honest else At(idx)
  {
    if k > 0 {
      assert IsWhole(ToNumber(form.refundTable[s][k - 1]));
      WalkBackAgrees(form, s, k - 1);
    }
  }

  /** What the scan reads of row s is what the table holds there. */
  ghost predicate RowMirrors(form: FormState, table: Table, s: int)
    requires table.Rectangular() && |table.thresholds| == |form.ratioThresholds|
             && 0 <= s < |table.rho| == |form.collateralRate|
  {
    var idx := LastBelow(table.rows[s], |table.thresholds|);
    && ToNumber(form.collateralRate[s]).Finite? && Truncated(form.collateralRate[s]) == table.rho[s]
    && WalkBack(form, s, |form.ratioThresholds|) == (if idx == -1 then Honest else At(idx))
    && (idx >= 0 ==>
          && ToNumber(form.ratioThresholds[idx]).Finite?
          && Truncated(form.ratioThresholds[idx]) == table.thresholds[idx]
          && FormCell(form, s, idx).Finite? && Trunc(FormCell(form, s, idx).value) == table.rows[s][idx])
  }

  lemma WholeRowMirrors(form: FormState, s: nat)
    requires WholeForm(form) && s < |form.refundTable|
    ensures RowMirrors(form, FormTable(form), s)
  {
    WalkBackAgrees(form, s, |form.ratioThresholds|);
    var idx := LastBelow(FormTable(form).rows[s], |form.ratioThresholds|);
    assert IsWhole(ToNumber(form.collateralRate[s]));
    if idx >= 0 {
      assert IsWhole(ToNumber(form.ratioThresholds[idx])) && IsWhole(ToNumber(form.refundTable[s][idx]));
    }
  }

  lemma {:induction false} ScanAgrees(form: FormState, table: Table, s: nat, best: Option<Worst>)
    requires table.Rectangular() && |table.thresholds| == |form.ratioThresholds|
             && s <= |table.rho| == |form.collateralRate|
    requires table.mult == AllTruncated(form.timeMult) && AllFinite(form.timeMult)
    requires forall i :: s <= i < |table.rho| ==> RowMirrors(form, table, i)
    ensures var r := ScanRows(table, s, best);
            ScanForm(form, s, best) == if r.None? then Incomplete else Found(r.value)
    decreases |table.rho| - s
  {
    if s < |table.rho| {
      assert RowMirrors(form, table, s);
      var idx := LastBelow(table.rows[s], |table.thresholds|);
      if idx >= 0 && table.thresholds[idx] != 0 {
        ScanAgrees(form, table, s + 1, ScanTimes(table.rho[s], table.mult, 0, FULL_BPS - table.rows[s][idx],
                                                 table.thresholds[idx], s, idx, best));
      }
    }
  }

  /** The form's answer, as a function. */
  function FormAnswer(form: FormState): FormKappa {
    if |form.ratioThresholds| == 0 then Found(Worst(0, 0, 0)) else ScanForm(form, 0, None)
  }

  lemma FormAnswerIsTableAnswer(form: FormState)
    requires WholeForm(form)
    ensures FormAnswer(form)
         == if WorstCell(FormTable(form)).None? then Incomplete else Found(WorstCell(FormTable(form)).value)
  {
    forall s | 0 <= s < |form.refundTable|
      ensures RowMirrors(form, FormTable(form), s)
    {
      WholeRowMirrors(form, s);
    }
    ScanAgrees(form, FormTable(form), 0, None);
  }

  /** The submit handler's conversion of one column gives these numbers. */
  ghost predicate SubmitsColumn(fields: seq<Field>, numbers: seq<int>) {
    |fields| == |numbers| && forall i :: 0 <= i < |fields| ==> Submitted(fields[i]) == Finite(numbers[i] as real)
  }

  /** Submitting the form sends this configuration, as far as the floor reads it. */
  ghost predicate Submits(form: FormState, cfg: Config) {
    && SubmitsColumn(form.collateralRate, cfg.collateralRate) && SubmitsColumn(form.timeMult, cfg.timeMult)
    && SubmitsColumn(form.ratioThresholds, cfg.ratioThresholds)
    && SubmitsColumn(Flat(form.refundTable), cfg.refundTable)
  }

  lemma TruncOfInt(i: int)
    ensures Trunc(i as real) == i
  {
  }

  lemma SubmittedColumn(fields: seq<Field>, numbers: seq<int>)
    requires SubmitsColumn(fields, numbers)
    ensures WholeColumn(fields) && AllTruncated(fields) == numbers
  {
    forall i | 0 <= i < |fields|
      ensures IsWhole(ToNumber(fields[i])) && Truncated(fields[i]) == numbers[i]
    {
      TruncOfInt(numbers[i]);
    }
  }

  lemma SubmittedCell(form: FormState, cfg: Config, s: nat, r: nat)
    requires RefundShaped(form) && Submits(form, cfg) && s < |form.refundTable| && r < Columns(cfg)
    ensures WellShaped(cfg)
    ensures IsWhole(ToNumber(form.refundTable[s][r]))
    ensures Truncated(form.refundTable[s][r]) == TableOf(cfg).rows[s][r]
  {
    FlatLength(form.refundTable, Columns(cfg));
    CellInTable(s, |form.refundTable|, r, Columns(cfg));
    FlatCell(form.refundTable, Columns(cfg), s, r);
    SubmittedColumn(Flat(form.refundTable), cfg.refundTable);
    assert AllTruncated(Flat(form.refundTable))[s * Columns(cfg) + r] == cfg.refundTable[s * Columns(cfg) + r];
  }

  lemma SubmittedRow(form: FormState, cfg: Config, s: nat)
    requires RefundShaped(form) && Submits(form, cfg) && s < |form.refundTable|
    ensures WellShaped(cfg)
    ensures WholeColumn(form.refundTable[s]) && FormTable(form).rows[s] == TableOf(cfg).rows[s]
  {
    SubmittedCell(form, cfg, s, 0);
    forall r | 0 <= r < Columns(cfg)
      ensures IsWhole(ToNumber(form.refundTable[s][r]))
      ensures FormTable(form).rows[s][r] == TableOf(cfg).rows[s][r]
    {
      SubmittedCell(form, cfg, s, r);
    }
  }

  /**
   * What the page warns about is what the backend reports for the configuration the form submits: on a form of the
   * right shape the nested and the flat table have the same worst case.
   */
  lemma RepresentationsAgree(form: FormState, cfg: Config)
    requires RefundShaped(form) && Submits(form, cfg)
    ensures WellShaped(cfg) && FormTable(form) == TableOf(cfg)
    ensures FormAnswer(form)
         == if WorstCell(TableOf(cfg)).None? then Incomplete else Found(WorstCell(TableOf(cfg)).value)
  {
    FlatLength(form.refundTable, Columns(cfg));
    SubmittedColumn(form.collateralRate, cfg.collateralRate);
    SubmittedColumn(form.timeMult, cfg.timeMult);
    SubmittedColumn(form.ratioThresholds, cfg.ratioThresholds);
    forall s | 0 <= s < |form.refundTable|
      ensures WholeColumn(form.refundTable[s]) && FormTable(form).rows[s] == TableOf(cfg).rows[s]
    {
      SubmittedRow(form, cfg, s);
    }
    FormAnswerIsTableAnswer(form);
  }

  /** The form that shows a well-shaped configuration submits it again, so the two floors agree on it. */
  lemma ShownConfigAgrees(cfg: Config)
    requires WellShaped(cfg)
    ensures RefundShaped(ToForm(cfg)) && Submits(ToForm(cfg), cfg)
    ensures FormAnswer(ToForm(cfg))
         == if WorstCell(TableOf(cfg)).None? then Incomplete else Found(WorstCell(TableOf(cfg)).value)
  {
    var form := ToForm(cfg);
    RefundTableRoundTrip(cfg);
    var expected := seq(|cfg.refundTable|, i requires 0 <= i < |cfg.refundTable| => Finite(cfg.refundTable[i] as real));
    assert SubmittedTable(form) == expected;
    forall i | 0 <= i < |cfg.refundTable|
      ensures Submitted(Flat(form.refundTable)[i]) == Finite(cfg.refundTable[i] as real)
    {
      assert SubmittedTable(form)[i] == expected[i];
    }
    RepresentationsAgree(form, cfg);
  }
}
