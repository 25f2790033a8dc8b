/** Decimal text: writing numbers, reading them back, and finding separators. */
module Digits {
  predicate IsDigit(c: char) { '0' <= c <= '9' }

  predicate AllDigits(s: string) { forall i :: 0 <= i < |s| ==> IsDigit(s[i]) }

  function DigitValue(c: char): nat {
    if IsDigit(c) then c as int - '0' as int else 0
  }

  function DigitChar(n: nat): char { (n % 10 + '0' as int) as char }

  function ReadDigits(s: string): nat {
    if s == "" then 0 else 10 * ReadDigits(s[..|s| - 1]) + DigitValue(s[|s| - 1])
  }

  function Decimal(n: nat): string {
    if n < 10 then [DigitChar(n)] else Decimal(n / 10) + [DigitChar(n)]
  }

  lemma {:induction false} ReadDecimal(n: nat)
    ensures Decimal(n) != "" && AllDigits(Decimal(n)) && ReadDigits(Decimal(n)) == n
  {
    if n >= 10 {
      ReadDecimal(n / 10);
      assert Decimal(n)[..|Decimal(n)| - 1] == Decimal(n / 10);
    } else {
      assert Decimal(n)[..0] == "";
    }
  }

  lemma DigitsHold(s: string, c: char)
    requires AllDigits(s) && !IsDigit(c)
    ensures c !in s
  {
  }

  /** The position of the first `c`, or the length. */
  function Find(s: string, c: char): (k: nat)
    ensures k <= |s|
  {
    if s == "" || s[0] == c then 0 else 1 + Find(s[1..], c)
  }

  lemma {:induction false} FindAt(a: string, c: char, b: string)
    requires c !in a
    ensures Find(a, c) == |a|
    ensures Find(a + [c] + b, c) == |a|
  {
    if a == "" {
      assert a + [c] + b == [c] + b;
    } else {
      FindAt(a[1..], c, b);
      assert (a + [c] + b)[1..] == a[1..] + [c] + b;
    }
  }

  function Zeros(n: nat): string { seq(n, _ => '0') }

  /** At least `width` digits, zero-padded on the left. */
  function Padded(n: nat, width: nat): string {
    var d := Decimal(n);
    if |d| < width then Zeros(width - |d|) + d else d
  }

  lemma {:induction false} LeadingZeros(n: nat, d: string)
    ensures ReadDigits(Zeros(n) + d) == ReadDigits(d)
    decreases n + |d|
  {
    var s := Zeros(n) + d;
    if d != "" {
      LeadingZeros(n, d[..|d| - 1]);
      assert s[..|s| - 1] == Zeros(n) + d[..|d| - 1];
    } else if n > 0 {
      LeadingZeros(n - 1, "");
      assert s[..|s| - 1] == Zeros(n - 1) + "";
    }
  }

  lemma ReadPadded(n: nat, width: nat)
    ensures AllDigits(Padded(n, width)) && ReadDigits(Padded(n, width)) == n && |Padded(n, width)| >= width
  {
    ReadDecimal(n);
    if |Decimal(n)| < width {
      LeadingZeros(width - |Decimal(n)|, Decimal(n));
    }
  }

  /** What stands before the first `c`, and what stands after it. */
  function Split(s: string, c: char): (string, string) {
    var k := Find(s, c);
    (s[..k], if k == |s| then "" else s[k + 1..])
  }

  lemma SplitAt(a: string, c: char, b: string)
    requires c !in a
    ensures Split(a + [c] + b, c) == (a, b)
  {
    var s := a + [c] + b;
    FindAt(a, c, b);
    assert s[..|a|] == a && s[|a| + 1..] == b;
  }
}
