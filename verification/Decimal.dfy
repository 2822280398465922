/**
 * Printing raw amounts and ratios as decimal strings (filler/CoWFiller/src/cli/format.ts) and
 * reading decimal strings as raw amounts (filler/CoWFiller/src/orderbook/liveOrderbook.ts).
 */
module Decimal {
  import opened Arith
  import opened Wrappers
  import opened OrderBook

  // ---------------------------------------------------------------- digit strings

  predicate IsDigit(c: char) {
    '0' <= c <= '9'
  }

  predicate Digits(s: string) {
    forall i :: 0 <= i < |s| ==> IsDigit(s[i])
  }

  function DigitChar(d: nat): (c: char)
    requires d < 10
    ensures IsDigit(c) && DigitValue(c) == d
  {
    '0' + d as char
  }

  function DigitValue(c: char): (d: nat)
    requires IsDigit(c)
    ensures d < 10
  {
    (c - '0') as nat
  }

  /** The value of a digit string; the empty string is 0. */
  function Parse(s: string): nat
    requires Digits(s)
  {
    if s == "" then 0 else 10 * Parse(s[..|s| - 1]) + DigitValue(s[|s| - 1])
  }

  /** BigInt's toString on a non-negative number. */
  function Show(n: nat): (s: string)
    ensures Digits(s) && s != "" && Parse(s) == n
    ensures n < 10 ==> |s| == 1
  {
    if n < 10 then
      assert [DigitChar(n)][..0] == "";
      [DigitChar(n)]
    else
      var s := Show(n / 10) + [DigitChar(n % 10)];
      assert s[..|s| - 1] == Show(n / 10);
      s
  }

  function Zeros(n: nat): (s: string)
    ensures |s| == n && Digits(s) && forall i :: 0 <= i < n ==> s[i] == '0'
  {
    if n == 0 then "" else Zeros(n - 1) + "0"
  }

  lemma {:induction false} ParseConcat(a: string, b: string)
    requires Digits(a) && Digits(b)
    ensures Digits(a + b) && Parse(a + b) == Parse(a) * Pow10(|b|) + Parse(b)
  {
    if b == "" {
      assert a + b == a;
    } else {
      var init := b[..|b| - 1];
      ParseConcat(a, init);
      assert (a + b)[..|a + b| - 1] == a + init;
      Product(Parse(a), Pow10(|init|));
      assert Pow10(|b|) == 10 * Pow10(|init|);
      assert Parse(a + b) == 10 * Parse(a + init) + DigitValue(b[|b| - 1]);
    }
  }

  lemma {:induction false} ParseZeros(n: nat)
    ensures Parse(Zeros(n)) == 0
  {
    if n > 0 {
      assert Zeros(n)[..n - 1] == Zeros(n - 1);
      ParseZeros(n - 1);
    }
  }

  lemma {:induction false} ParseLeadingZeros(n: nat, s: string)
    requires Digits(s)
    ensures Digits(Zeros(n) + s) && Parse(Zeros(n) + s) == Parse(s)
  {
    if s == "" {
      assert Zeros(n) + s == Zeros(n);
      ParseZeros(n);
    } else {
      ParseLeadingZeros(n, s[..|s| - 1]);
      assert (Zeros(n) + s)[..|Zeros(n) + s| - 1] == Zeros(n) + s[..|s| - 1];
    }
  }

  function PadStart(s: string, length: nat): string {
    if |s| < length then Zeros(length - |s|) + s else s
  }

  /** Drops every trailing zero. */
  function TrimZeros(s: string): string {
    if s != "" && s[|s| - 1] == '0' then TrimZeros(s[..|s| - 1]) else s
  }

  lemma {:induction false} TrimThenPad(s: string)
    ensures |TrimZeros(s)| <= |s|
    ensures TrimZeros(s) + Zeros(|s| - |TrimZeros(s)|) == s
    ensures TrimZeros(s) == "" || TrimZeros(s)[|TrimZeros(s)| - 1] != '0'
  {
    if s != "" && s[|s| - 1] == '0' {
      var init := s[..|s| - 1];
      TrimThenPad(init);
      var k, trimmed := |init| - |TrimZeros(init)|, TrimZeros(init);
      assert trimmed == TrimZeros(s) && Zeros(k + 1) == Zeros(k) + "0";
      assert trimmed + (Zeros(k) + "0") == trimmed + Zeros(k) + "0";
      assert s == init + "0";
    }
  }

  // ---------------------------------------------------------------- printing and reading

  function Join(whole: string, frac: string): string {
    if frac != "" then whole + "." + frac else whole
  }

  /** Full-precision decimal string of a raw amount, trailing zeros trimmed. */
  function HumanRaw(raw: nat, decimals: nat): string {
    var s := PadStart(Show(raw), decimals + 1);
    Join(s[..|s| - decimals], TrimZeros(s[|s| - decimals..]))
  }

  /** The part before the first dot, and what follows it up to the next one. */
  function BeforeDot(s: string): string {
    if s == "" || s[0] == '.' then "" else [s[0]] + BeforeDot(s[1..])
  }

  function AfterDot(s: string): string {
    if s == "" then "" else if s[0] == '.' then BeforeDot(s[1..]) else AfterDot(s[1..])
  }

  /** Reads a decimal string at `decimals` digits, dropping further ones; None if it holds other characters. */
  function ToRaw(decimalStr: string, decimals: nat): Option<nat> {
    var digits := BeforeDot(decimalStr) + (AfterDot(decimalStr) + Zeros(decimals))[..decimals];
    if Digits(digits) then Some(Parse(digits)) else None
  }

  lemma {:induction false} SplitAtDot(whole: string, rest: string)
    requires '.' !in whole && (rest == "" || rest[0] == '.')
    ensures BeforeDot(whole + rest) == whole
    ensures AfterDot(whole + rest) == if rest == "" then "" else BeforeDot(rest[1..])
  {
    if whole == "" {
      assert whole + rest == rest;
    } else {
      assert (whole + rest)[1..] == whole[1..] + rest;
      SplitAtDot(whole[1..], rest);
    }
  }

  lemma SplitDigits(whole: string, rest: string)
    requires Digits(whole) && (rest == "" || rest[0] == '.')
    ensures BeforeDot(whole + rest) == whole
    ensures AfterDot(whole + rest) == if rest == "" then "" else BeforeDot(rest[1..])
  {
    SplitAtDot(whole, rest);
  }

  lemma SplitJoin(whole: string, frac: string)
    requires Digits(whole) && Digits(frac)
    ensures BeforeDot(Join(whole, frac)) == whole && AfterDot(Join(whole, frac)) == frac
  {
    if frac == "" {
      SplitDigits(whole, "");
      assert whole + "" == whole;
    } else {
      assert whole + "." + frac == whole + ("." + frac);
      SplitDigits(whole, "." + frac);
      SplitDigits(frac, "");
      assert frac + "" == frac;
    }
  }

  /** The digits read back from whole.frac are whole followed by frac padded to the precision. */
  lemma ReadDigits(whole: string, frac: string, decimals: nat)
    requires Digits(whole) && Digits(frac) && |frac| <= decimals
    ensures var s := Join(whole, TrimZeros(frac));
            BeforeDot(s) + (AfterDot(s) + Zeros(decimals))[..decimals] == whole + (frac + Zeros(decimals - |frac|))
  {
    TrimThenPad(frac);
    var trimmed := TrimZeros(frac);
    assert forall i :: 0 <= i < |trimmed| ==> trimmed[i] == (trimmed + Zeros(|frac| - |trimmed|))[i];
    SplitJoin(whole, trimmed);
    assert (trimmed + Zeros(decimals))[..decimals] == frac + Zeros(decimals - |frac|);
  }

  /** Reading back whole.frac, trimmed or not, gives the number its padded digits spell. */
  lemma ReadBack(whole: string, frac: string, decimals: nat)
    requires Digits(whole) && Digits(frac) && |frac| <= decimals
    ensures Digits(whole + (frac + Zeros(decimals - |frac|)))
    ensures ToRaw(Join(whole, TrimZeros(frac)), decimals) == Some(Parse(whole + (frac + Zeros(decimals - |frac|))))
  {
    ReadDigits(whole, frac, decimals);
  }

  // ---------------------------------------------------------------- what a string is read as

  lemma {:induction false} ParseBelow(s: string)
    requires Digits(s)
    ensures Parse(s) < Pow10(|s|)
  {
    if s != "" {
      ParseBelow(s[..|s| - 1]);
    }
  }

  /** Cutting digits off is dividing by a power of ten and rounding down. */
  lemma CutRoundsDown(kept: string, cut: string)
    requires Digits(kept) && Digits(cut)
    ensures Digits(kept + cut) && Parse(kept + cut) / Pow10(|cut|) == Parse(kept)
  {
    ParseConcat(kept, cut);
    ParseBelow(cut);
    QuotientIs(Parse(kept), Parse(kept + cut), Pow10(|cut|));
  }

  /** A common factor does not move a rounded quotient. */
  lemma ScaledQuotient(a: nat, b: nat, k: nat)
    requires b > 0 && k > 0
    ensures b * k > 0 && a * k / (b * k) == a / b
  {
    DivBounds(a, b);
    var q := a / b;
    MulMono(q * b, a, k);
    MulMono(a + 1, q * b + b, k);
    Distribute(a, 1, k);
    Distribute(q * b, b, k);
    MulMono(1, b, k);
    Regroup(q, b, k);
    QuotientIs(q, a * k, b * k);
  }

  lemma Regroup(q: nat, b: nat, k: nat)
    ensures q * b * k == q * (b * k)
  {
  }

  /** n digits short of the precision: multiplying by what is missing is the whole quotient. */
  lemma PaddedQuotient(n: nat, more: nat, have: nat)
    ensures 0 < Pow10(have) && n * Pow10(more + have) / Pow10(have) == n * Pow10(more)
  {
    Pow10Add(more, have);
    Regroup(n, Pow10(more), Pow10(have));
    MulMono(0, n, Pow10(more));
    QuotientIs(n * Pow10(more), n * Pow10(more + have), Pow10(have));
  }

  lemma CutQuotient(n: nat, less: nat, decimals: nat)
    ensures 0 < Pow10(less + decimals)
            && n * Pow10(decimals) / Pow10(less + decimals) == n / Pow10(less)
  {
    Pow10Add(less, decimals);
    ScaledQuotient(n, Pow10(less), Pow10(decimals));
  }

  lemma KeptPadded(whole: string, frac: string, decimals: nat)
    requires Digits(whole) && Digits(frac) && |frac| <= decimals
    ensures Digits(whole + frac) && Digits(whole + (frac + Zeros(decimals))[..decimals])
    ensures Parse(whole + (frac + Zeros(decimals))[..decimals]) == Parse(whole + frac) * Pow10(decimals - |frac|)
  {
    var more := decimals - |frac|;
    assert (frac + Zeros(decimals))[..decimals] == frac + Zeros(more);
    assert whole + (frac + Zeros(more)) == whole + frac + Zeros(more);
    ParsePadded(whole + frac, more);
  }

  lemma KeptCut(whole: string, frac: string, decimals: nat)
    requires Digits(whole) && Digits(frac) && |frac| > decimals
    ensures Digits(whole + frac) && Digits(whole + (frac + Zeros(decimals))[..decimals])
    ensures Parse(whole + (frac + Zeros(decimals))[..decimals]) == Parse(whole + frac) / Pow10(|frac| - decimals)
  {
    var kept, cut := frac[..decimals], frac[decimals..];
    assert (frac + Zeros(decimals))[..decimals] == kept;
    assert whole + frac == (whole + kept) + cut;
    CutRoundsDown(whole + kept, cut);
  }

  /** The digits read, padded or cut, are the decimal's value at the precision, rounded down. */
  lemma KeptValue(whole: string, frac: string, decimals: nat)
    requires Digits(whole) && Digits(frac)
    ensures Digits(whole + frac) && Digits(whole + (frac + Zeros(decimals))[..decimals])
    ensures Parse(whole + (frac + Zeros(decimals))[..decimals])
         == Parse(whole + frac) * Pow10(decimals) / Pow10(|frac|)
  {
    if |frac| <= decimals {
      KeptPadded(whole, frac, decimals);
      PaddedQuotient(Parse(whole + frac), decimals - |frac|, |frac|);
    } else {
      KeptCut(whole, frac, decimals);
      CutQuotient(Parse(whole + frac), |frac| - decimals, decimals);
    }
  }

  lemma Regrouped(a: string, b: string, c: string, d: string)
    ensures a + b + c + d == a + (b + (c + d))
  {
  }

  lemma SplitTail(whole: string, frac: string, tail: string)
    requires '.' !in whole && '.' !in frac && (tail == "" || tail[0] == '.')
    ensures BeforeDot(whole + "." + frac + tail) == whole && AfterDot(whole + "." + frac + tail) == frac
  {
    Regrouped(whole, ".", frac, tail);
    var rest := "." + (frac + tail);
    assert rest[1..] == frac + tail;
    SplitAtDot(whole, rest);
    SplitAtDot(frac, tail);
  }

  /**
   * A decimal is read as its value in units of the precision, rounded down, however many digits follow the dot. For
   * whole = "1718", frac = "72000000" and 6 digits that is 171872000000 * 10^6 / 10^8.
   */
  lemma ReadsFloor(whole: string, frac: string, decimals: nat)
    requires Digits(whole) && Digits(frac)
    ensures Digits(whole + frac)
    ensures ToRaw(whole + "." + frac, decimals)
         == Some(Parse(whole + frac) * Pow10(decimals) / Pow10(|frac|))
    ensures ToRaw(whole, decimals) == Some(Parse(whole) * Pow10(decimals))
  {
    SplitTail(whole, frac, "");
    assert whole + "." + frac + "" == whole + "." + frac;
    KeptValue(whole, frac, decimals);
    ReadsWhole(whole, decimals);
  }

  lemma ReadsWhole(whole: string, decimals: nat)
    requires Digits(whole)
    ensures ToRaw(whole, decimals) == Some(Parse(whole) * Pow10(decimals))
  {
    SplitAtDot(whole, "");
    assert whole + "" == whole;
    KeptPadded(whole, "", decimals);
  }

  /**
   * Any string splits at its first two dots, and is refused exactly when a part that counts holds a character other
   * than a digit: the part before the first dot, or the first `decimals` characters after it. What is past them, and
   * past a second dot, is never looked at.
   */
  lemma ReadsIff(whole: string, frac: string, tail: string, decimals: nat)
    requires '.' !in whole && '.' !in frac && (tail == "" || tail[0] == '.')
    ensures var kept := if |frac| <= decimals then frac else frac[..decimals];
            && (ToRaw(whole + "." + frac + tail, decimals).None? <==> !Digits(whole) || !Digits(kept))
            && ToRaw(whole + "." + frac + tail, decimals) == ToRaw(whole + "." + kept, decimals)
    ensures ToRaw(whole, decimals).None? <==> !Digits(whole)
  {
    var kept := if |frac| <= decimals then frac else frac[..decimals];
    SplitTail(whole, frac, tail);
    SplitTail(whole, kept, "");
    assert whole + "." + kept + "" == whole + "." + kept;
    assert (frac + Zeros(decimals))[..decimals] == (kept + Zeros(decimals))[..decimals];
    KeptDigits(whole, kept, decimals);
    SplitAtDot(whole, "");
    assert whole + "" == whole;
    KeptDigits(whole, "", decimals);
  }

  lemma KeptDigits(whole: string, kept: string, decimals: nat)
    requires |kept| <= decimals
    ensures Digits(whole + (kept + Zeros(decimals))[..decimals]) <==> Digits(whole) && Digits(kept)
  {
    var digits := whole + (kept + Zeros(decimals))[..decimals];
    assert forall i :: 0 <= i < |whole| ==> whole[i] == digits[i];
    assert forall i :: 0 <= i < |kept| ==> kept[i] == digits[|whole| + i];
  }

  /** No dot without digits behind it, and no zero at the end of them. */
  ghost predicate Trimmed(s: string) {
    && s == Join(BeforeDot(s), AfterDot(s))
    && (AfterDot(s) == "" || AfterDot(s)[|AfterDot(s)| - 1] != '0')
  }

  lemma JoinIsTrimmed(whole: string, frac: string)
    requires Digits(whole) && Digits(frac)
    ensures Trimmed(Join(whole, TrimZeros(frac)))
  {
    TrimThenPad(frac);
    var trimmed := TrimZeros(frac);
    assert forall i :: 0 <= i < |trimmed| ==> trimmed[i] == (trimmed + Zeros(|frac| - |trimmed|))[i];
    SplitJoin(whole, trimmed);
  }

  lemma ParsePadStart(s: string, length: nat)
    requires Digits(s)
    ensures Digits(PadStart(s, length)) && Parse(PadStart(s, length)) == Parse(s)
    ensures |PadStart(s, length)| >= length
  {
    if |s| < length {
      ParseLeadingZeros(length - |s|, s);
    }
  }

  /** The two parts a padded string is printed from. */
  lemma PaddedParts(s: string, decimals: nat)
    requires Digits(s) && |s| > decimals
    ensures var whole, frac := s[..|s| - decimals], s[|s| - decimals..];
            Digits(whole) && Digits(frac) && |frac| == decimals && whole + (frac + Zeros(0)) == s
  {
    var whole, frac := s[..|s| - decimals], s[|s| - decimals..];
    assert frac + Zeros(0) == frac;
  }

  /** Printing then reading a raw amount is the identity, at every precision. */
  lemma HumanRawRoundTrip(raw: nat, decimals: nat)
    ensures ToRaw(HumanRaw(raw, decimals), decimals) == Some(raw)
    ensures Trimmed(HumanRaw(raw, decimals))
  {
    var s := PadStart(Show(raw), decimals + 1);
    ParsePadStart(Show(raw), decimals + 1);
    PaddedParts(s, decimals);
    var whole, frac := s[..|s| - decimals], s[|s| - decimals..];
    ReadBack(whole, frac, decimals);
    JoinIsTrimmed(whole, frac);
  }

  /** So no two amounts print alike. */
  lemma HumanRawIsInjective(raw: nat, raw': nat, decimals: nat)
    requires HumanRaw(raw, decimals) == HumanRaw(raw', decimals)
    ensures raw == raw'
  {
    HumanRawRoundTrip(raw, decimals);
    HumanRawRoundTrip(raw', decimals);
  }

  // ---------------------------------------------------------------- long division

  /** The division found the quotient at `i` digits; without a remainder every further digit is 0. */
  lemma QuotientAtPrecision(num: nat, den: nat, quotient: nat, rem: nat, i: nat, precision: nat)
    requires i <= precision && rem < den && (i == precision || rem == 0)
    requires num * Pow10(i) == quotient * den + rem
    ensures num * Pow10(precision) / den == quotient * Pow10(precision - i)
  {
    var scale := Pow10(precision - i);
    Pow10Add(i, precision - i);
    if rem == 0 {
      Swap(num, Pow10(i), scale, quotient, den);
      DivBounds(num * Pow10(precision), den);
      QuotientAtLeast(quotient * scale, num * Pow10(precision), den);
      Distribute(quotient * scale, 1, den);
      QuotientBelow(quotient * scale + 1, num * Pow10(precision), den);
    } else {
      QuotientAtLeast(quotient, num * Pow10(precision), den);
      Distribute(quotient, 1, den);
      QuotientBelow(quotient + 1, num * Pow10(precision), den);
    }
  }

  lemma Swap(num: nat, a: nat, scale: nat, quotient: nat, den: nat)
    requires num * a == quotient * den
    ensures num * (a * scale) == quotient * scale * den
  {
  }

  /** One step of the division: what is left of ten times the number after its next digit. */
  lemma DigitStep(a: nat, value: nat, den: nat, rem: nat)
    requires den > 0 && rem < den && a == value * den + rem
    ensures 0 <= rem * 10 / den < 10
    ensures 10 * a == (10 * value + rem * 10 / den) * den + rem * 10 % den
  {
    QuotientBelow(10, rem * 10, den);
    QuotientAtLeast(0, rem * 10, den);
    Distribute(10 * value, rem * 10 / den, den);
    assert 10 * value * den == 10 * (value * den);
  }

  /** The same step for the number being divided and for the digits read so far. */
  lemma RatioStep(num: nat, scale: nat, intPart: nat, fracValue: nat, value: nat, den: nat, rem: nat)
    requires den > 0 && rem < den && value == intPart * scale + fracValue && num * scale == value * den + rem
    ensures 0 <= rem * 10 / den < 10
    ensures 10 * value + rem * 10 / den == intPart * (10 * scale) + (10 * fracValue + rem * 10 / den)
    ensures num * (10 * scale) == (10 * value + rem * 10 / den) * den + rem * 10 % den
  {
    DigitStep(num * scale, value, den, rem);
    Product(num, scale);
    Product(intPart, scale);
  }

  lemma AppendDigit(frac: string, digit: nat)
    requires Digits(frac) && digit < 10
    ensures var frac' := frac + Show(digit);
            Digits(frac') && |frac'| == |frac| + 1 && Parse(frac') == 10 * Parse(frac) + digit
  {
  }

  lemma ParsePadded(s: string, more: nat)
    requires Digits(s)
    ensures Digits(s + Zeros(more)) && Parse(s + Zeros(more)) == Parse(s) * Pow10(more)
  {
    ParseConcat(s, Zeros(more));
    ParseZeros(more);
  }

  /** What the padded digits of whole.frac are worth. */
  lemma PaddedValue(whole: string, frac: string, more: nat)
    requires Digits(whole) && Digits(frac)
    ensures Digits(whole + (frac + Zeros(more)))
    ensures Parse(whole + (frac + Zeros(more))) == (Parse(whole) * Pow10(|frac|) + Parse(frac)) * Pow10(more)
  {
    assert whole + (frac + Zeros(more)) == whole + frac + Zeros(more);
    ParseConcat(whole, frac);
    ParsePadded(whole + frac, more);
  }

  /** The division after `i` digits: `value` reads them without the dot, `rem` is left over. */
  ghost predicate Divided(num: nat, den: nat, intPart: nat, frac: string, value: nat, rem: nat, i: nat) {
    && rem < den && |frac| == i && Digits(frac)
    && value == intPart * Pow10(i) + Parse(frac)
    && num * Pow10(i) == value * den + rem
  }

  lemma DivisionStarts(num: nat, den: nat)
    requires den > 0
    ensures 0 <= num / den && Divided(num, den, num / den, "", num / den, num % den, 0)
  {
    DivBounds(num, den);
    assert num * Pow10(0) == num && num / den * Pow10(0) == num / den;
  }

  lemma DivisionStep(num: nat, den: nat, intPart: nat, frac: string, value: nat, rem: nat, i: nat)
    returns (value': nat)
    requires Divided(num, den, intPart, frac, value, rem, i)
    ensures 0 <= rem * 10 / den
    ensures Divided(num, den, intPart, frac + Show(rem * 10 / den), value', rem * 10 % den, i + 1)
  {
    RatioStep(num, Pow10(i), intPart, Parse(frac), value, den, rem);
    AppendDigit(frac, rem * 10 / den);
    value' := 10 * value + rem * 10 / den;
  }

  lemma DivisionEnds(num: nat, den: nat, intPart: nat, frac: string, value: nat, rem: nat, i: nat, precision: nat)
    requires Divided(num, den, intPart, frac, value, rem, i)
    requires i <= precision && (i == precision || rem == 0)
    ensures ToRaw(Join(Show(intPart), TrimZeros(frac)), precision) == Some(MulDiv(num, Pow10(precision), den))
    ensures Trimmed(Join(Show(intPart), TrimZeros(frac)))
  {
    QuotientAtPrecision(num, den, value, rem, i, precision);
    PaddedValue(Show(intPart), frac, precision - i);
    ReadBack(Show(intPart), frac, precision);
    JoinIsTrimmed(Show(intPart), frac);
  }

  /** Decimal string of num / den with at most `precision` digits after the dot. */
  method Ratio(num: nat, den: nat, precision: nat) returns (r: string)
    requires den > 0
    ensures ToRaw(r, precision) == Some(MulDiv(num, Pow10(precision), den))
    ensures Trimmed(r)
  {
    DivisionStarts(num, den);
    var intPart: nat, rem: nat := num / den, num % den;
    var frac := "";
    var i: nat := 0;
    ghost var value: nat := intPart;
    while i < precision && rem > 0
      invariant i <= precision
      invariant Divided(num, den, intPart, frac, value, rem, i)
    {
      value := DivisionStep(num, den, intPart, frac, value, rem, i);
      rem := rem * 10;
      frac := frac + Show(rem / den);
      rem := rem % den;
      i := i + 1;
    }
    DivisionEnds(num, den, intPart, frac, value, rem, i, precision);
    frac := TrimZeros(frac);
    r := Join(Show(intPart), frac);
  }

  /** Human price of a contract price, six digits after the dot. */
  method PriceHuman(price: nat, inDecimals: nat, outDecimals: nat) returns (r: string)
    ensures ToRaw(r, 6) == Some(MulDiv(price * Pow10(inDecimals), Pow10(6), WAD * Pow10(outDecimals)))
  {
    MulMono(0, price, Pow10(inDecimals));
    MulMono(1, Pow10(outDecimals), WAD);
    r := Ratio(price * Pow10(inDecimals), WAD * Pow10(outDecimals), 6);
  }
}
