/** Showing a micro-denomination deposit as a decimal figure, and reading that figure back. */
module Deposit {
  import opened Prelude
  import opened Digits

  const MICRO: nat := 1_000_000

  function Pow10(k: nat): nat {
    if k == 0 then 1 else 10 * Pow10(k - 1)
  }

  // ----- digits

  /** Exactly `k` digits, zero-padded on the left. */
  function Fixed(n: nat, k: nat): string {
    if k == 0 then "" else Fixed(n / 10, k - 1) + [DigitChar(n)]
  }

  function TrimZeros(s: string): string {
    if s != "" && s[|s| - 1] == '0' then TrimZeros(s[..|s| - 1]) else s
  }

  lemma {:induction false} ReadFixed(n: nat, k: nat)
    requires n < Pow10(k)
    ensures |Fixed(n, k)| == k && AllDigits(Fixed(n, k)) && ReadDigits(Fixed(n, k)) == n
  {
    if k > 0 {
      ReadFixed(n / 10, k - 1);
      assert Fixed(n, k)[..k - 1] == Fixed(n / 10, k - 1);
    }
  }

  /** Trailing zeros only scale the number read. */
  lemma {:induction false} ReadTrimmed(s: string)
    requires AllDigits(s)
    ensures var t := TrimZeros(s);
            && |t| <= |s| && AllDigits(t)
            && (t != "" ==> t[|t| - 1] != '0')
            && ReadDigits(s) == ReadDigits(t) * Pow10(|s| - |t|)
  {
    if s != "" && s[|s| - 1] == '0' {
      var shorter := s[..|s| - 1];
      ReadTrimmed(shorter);
      var t := TrimZeros(s);
      assert Pow10(|s| - |t|) == 10 * Pow10(|shorter| - |t|);
      Scale(ReadDigits(t), Pow10(|shorter| - |t|));
    }
  }

  lemma Scale(a: nat, p: nat)
    ensures 10 * (a * p) == a * (10 * p)
  {
  }

  // ----- the source

  /** `str::parse::<u128>`: an optional plus sign, then digits, within range. */
  function ParseU128(s: string): Option<nat> {
    var digits := if s != "" && s[0] == '+' then s[1..] else s;
    if digits == "" || !AllDigits(digits) || ReadDigits(digits) > U128_MAX then None else Some(ReadDigits(digits))
  }

  function Upper(s: string): string {
    seq(|s|, i requires 0 <= i < |s| => if 'a' <= s[i] <= 'z' then (s[i] as int - 32) as char else s[i])
  }

  function Figure(micro: nat): string {
    var whole, frac := micro / MICRO, micro % MICRO;
    if frac == 0 then Decimal(whole) else Decimal(whole) + ['.'] + TrimZeros(Fixed(frac, 6))
  }

  function FormatDeposit(amount: string, denom: string): string {
    var micro := ParseU128(amount);
    if micro.None? || denom == "" || denom[0] != 'u' then amount + [' '] + denom
    else Figure(micro.value) + [' '] + Upper(denom[1..])
  }

  // ----- reading back

  function Scaled(decimals: string, places: nat): nat {
    if places == 0 then ReadDigits(decimals) else 10 * Scaled(decimals, places - 1)
  }

  lemma {:induction false} ScaledIsProduct(decimals: string, places: nat)
    ensures Scaled(decimals, places) == ReadDigits(decimals) * Pow10(places)
  {
    if places > 0 {
      ScaledIsProduct(decimals, places - 1);
      Scale(ReadDigits(decimals), Pow10(places - 1));
    }
  }

  /** The micro-units of a whole part and at most six decimals. */
  function MicroUnits(whole: string, decimals: string): Option<nat> {
    if |decimals| > 6 then None else Some(ReadDigits(whole) * MICRO + Scaled(decimals, 6 - |decimals|))
  }

  function ReadFigure(s: string): Option<nat> {
    var k := Find(s, '.');
    MicroUnits(s[..k], if k == |s| then "" else s[k + 1..])
  }

  function ReadDeposit(s: string): Option<nat> {
    ReadFigure(s[..Find(s, ' ')])
  }

  lemma MicroIsPow()
    ensures Pow10(6) == MICRO
  {
  }

  /** The decimals shown: one to six digits, the last not zero, worth exactly the remainder. */
  lemma Decimals(frac: nat)
    requires 0 < frac < MICRO
    ensures var t := TrimZeros(Fixed(frac, 6));
            && 1 <= |t| <= 6 && AllDigits(t) && t[|t| - 1] != '0'
            && Scaled(t, 6 - |t|) == frac
  {
    MicroIsPow();
    ReadFixed(frac, 6);
    ReadTrimmed(Fixed(frac, 6));
    var t := TrimZeros(Fixed(frac, 6));
    ScaledIsProduct(t, 6 - |t|);
  }

  lemma ReadWhole(w: string)
    requires '.' !in w
    ensures ReadFigure(w) == MicroUnits(w, "")
  {
    FindAt(w, '.', "");
    assert w[..|w|] == w;
  }

  lemma ReadParts(w: string, t: string)
    requires '.' !in w
    ensures ReadFigure(w + ['.'] + t) == MicroUnits(w, t)
  {
    var s := w + ['.'] + t;
    FindAt(w, '.', t);
    assert s[..|w|] == w && s[|w| + 1..] == t;
  }

  lemma WholePart(n: nat)
    ensures '.' !in Decimal(n) && ' ' !in Decimal(n) && ReadDigits(Decimal(n)) == n
  {
    ReadDecimal(n);
    DigitsHold(Decimal(n), '.');
    DigitsHold(Decimal(n), ' ');
  }

  lemma FractionPart(frac: nat)
    requires 0 < frac < MICRO
    ensures var t := TrimZeros(Fixed(frac, 6)); |t| <= 6 && ' ' !in t && Scaled(t, 6 - |t|) == frac
  {
    Decimals(frac);
    DigitsHold(TrimZeros(Fixed(frac, 6)), ' ');
  }

  lemma PartsReadBack(w: string, t: string, whole: nat, frac: nat)
    requires '.' !in w && ' ' !in w && ' ' !in t && ReadDigits(w) == whole
    requires |t| <= 6 && Scaled(t, 6 - |t|) == frac
    ensures ReadFigure(w + ['.'] + t) == Some(whole * MICRO + frac) && ' ' !in w + ['.'] + t
  {
    ReadParts(w, t);
  }

  lemma FigureReadsBack(micro: nat)
    ensures ReadFigure(Figure(micro)) == Some(micro) && ' ' !in Figure(micro)
  {
    var whole, frac := micro / MICRO, micro % MICRO;
    WholePart(whole);
    if frac == 0 {
      ReadWhole(Decimal(whole));
      ScaledIsProduct("", 6);
    } else {
      FractionPart(frac);
      PartsReadBack(Decimal(whole), TrimZeros(Fixed(frac, 6)), whole, frac);
    }
  }

  /** Reading the displayed deposit back gives the original amount of micro-units. */
  lemma DepositReadsBack(amount: string, denom: string)
    requires ParseU128(amount).Some? && denom != "" && denom[0] == 'u'
    ensures ReadDeposit(FormatDeposit(amount, denom)) == ParseU128(amount)
  {
    var f := Figure(ParseU128(amount).value);
    FigureReadsBack(ParseU128(amount).value);
    FindAt(f, ' ', Upper(denom[1..]));
    assert FormatDeposit(amount, denom)[..|f|] == f;
  }

  /** The amount without the plus sign a number may start with. */
  function Unsigned(amount: string): string {
    if amount != "" && amount[0] == '+' then amount[1..] else amount
  }

  /** A micro denomination, and a decimal number of at most 128 bits. */
  predicate IsMicro(amount: string, denom: string) {
    && denom != "" && denom[0] == 'u'
    && Unsigned(amount) != "" && AllDigits(Unsigned(amount)) && ReadDigits(Unsigned(amount)) <= U128_MAX
  }

  /** Micro amounts are shown as the figure their digits spell, before the unit; all else is shown verbatim. */
  lemma DepositExactly(amount: string, denom: string)
    ensures IsMicro(amount, denom) ==>
              && ReadDeposit(FormatDeposit(amount, denom)) == Some(ReadDigits(Unsigned(amount)))
              && Split(FormatDeposit(amount, denom), ' ').1 == Upper(denom[1..])
    ensures !IsMicro(amount, denom) ==> FormatDeposit(amount, denom) == amount + " " + denom
  {
    if IsMicro(amount, denom) {
      DepositReadsBack(amount, denom);
      FigureReadsBack(ReadDigits(Unsigned(amount)));
      SplitAt(Figure(ReadDigits(Unsigned(amount))), ' ', Upper(denom[1..]));
    }
  }

  /** Different amounts are displayed differently, whatever their units. */
  lemma DisplaysDiffer(a: string, b: string, denom: string, other: string)
    requires ParseU128(a).Some? && ParseU128(b).Some? && ParseU128(a) != ParseU128(b)
    requires denom != "" && denom[0] == 'u' && other != "" && other[0] == 'u'
    ensures FormatDeposit(a, denom) != FormatDeposit(b, other)
  {
    DepositReadsBack(a, denom);
    DepositReadsBack(b, other);
  }
}
