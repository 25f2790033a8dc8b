/** Bytes and big-endian numbers. */
module Bytes {
  type byte = x: int | 0 <= x < 256

  const TWO_160: nat := 0x1_0000_0000_0000_0000_0000_0000_0000_0000_0000_0000
  const TWO_256: nat :=
    0x1_0000_0000_0000_0000_0000_0000_0000_0000_0000_0000_0000_0000_0000_0000_0000_0000

  function Pow256(k: nat): nat {
    if k == 0 then 1 else 256 * Pow256(k - 1)
  }

  lemma PowConstants()
    ensures Pow256(32) == TWO_256 && Pow256(20) == TWO_160
  {
    PowSum(2, 2);
    PowSum(4, 4);
    PowSum(8, 8);
    PowSum(16, 4);
    PowSum(16, 16);
  }

  lemma {:induction false} PowSum(j: nat, k: nat)
    ensures Pow256(j + k) == Pow256(j) * Pow256(k)
  {
    if k > 0 {
      PowSum(j, k - 1);
    }
  }

  lemma {:induction false} PowPositive(k: nat)
    ensures Pow256(k) > 0
  {
    if k > 0 {
      PowPositive(k - 1);
    }
  }

  /** The low `k` bytes of `n`, most significant first. */
  function ToBytes(n: nat, k: nat): (b: seq<byte>)
    ensures |b| == k
  {
    seq(k, i requires 0 <= i < k => Digit(n, k - 1 - i))
  }

  function Digit(n: nat, place: nat): byte {
    PowPositive(place);
    (n / Pow256(place)) % 256
  }

  function FromBytes(b: seq<byte>): nat {
    if b == [] then 0 else 256 * FromBytes(b[..|b| - 1]) + b[|b| - 1]
  }

  lemma MulAtLeast(d: int, k: int)
    requires d >= 0
    ensures k >= 1 ==> d * k >= d
    ensures k <= -1 ==> d * k <= -d
  {
  }

  lemma DivUnique(d: nat, q: nat, r: nat)
    requires r < d
    ensures (d * q + r) / d == q
  {
    var n := d * q + r;
    assert n == d * (n / d) + n % d;
    assert d * (n / d - q) == r - n % d;
    MulAtLeast(d, n / d - q);
  }

  /** Dividing by 256 * p is dividing by 256 and then by p. */
  lemma DivDiv(n: nat, p: nat)
    requires p > 0
    ensures n / (256 * p) == (n / 256) / p
  {
    var m := n / 256;
    var a, b := m / p, m % p;
    assert n == 256 * (p * a + b) + n % 256 == (256 * p) * a + (256 * b + n % 256);
    DivUnique(256 * p, a, 256 * b + n % 256);
  }

  lemma DigitStep(n: nat, place: nat)
    ensures Digit(n, place + 1) == Digit(n / 256, place)
  {
    PowPositive(place);
    DivDiv(n, Pow256(place));
  }

  lemma ToBytesStep(n: nat, k: nat)
    requires k > 0
    ensures ToBytes(n, k) == ToBytes(n / 256, k - 1) + [n % 256]
  {
    forall i | 0 <= i < k
      ensures ToBytes(n, k)[i] == (ToBytes(n / 256, k - 1) + [n % 256])[i]
    {
      assert ToBytes(n, k)[i] == Digit(n, k - 1 - i);
      if i < k - 1 {
        DigitStep(n, k - 2 - i);
        assert ToBytes(n / 256, k - 1)[i] == Digit(n / 256, k - 2 - i);
      } else {
        assert Digit(n, 0) == n % 256;
      }
    }
  }

  lemma {:induction false} FromToBytes(n: nat, k: nat)
    requires n < Pow256(k)
    ensures FromBytes(ToBytes(n, k)) == n
  {
    if k > 0 {
      ToBytesStep(n, k);
      FromToBytes(n / 256, k - 1);
      assert ToBytes(n, k)[..k - 1] == ToBytes(n / 256, k - 1);
    }
  }

  lemma {:induction false} ToFromBytes(b: seq<byte>)
    ensures FromBytes(b) < Pow256(|b|)
    ensures ToBytes(FromBytes(b), |b|) == b
  {
    if b != [] {
      ToFromBytes(b[..|b| - 1]);
      ToBytesStep(FromBytes(b), |b|);
    }
  }

  /** Leading zero bytes do not change the number. */
  lemma {:induction false} FromBytesPrefix(zeros: seq<byte>, b: seq<byte>)
    requires forall i :: 0 <= i < |zeros| ==> zeros[i] == 0
    ensures FromBytes(zeros + b) == FromBytes(b)
  {
    if b == [] {
      assert zeros + b == zeros;
      if zeros != [] {
        FromBytesPrefix(zeros[..|zeros| - 1], []);
        assert zeros[..|zeros| - 1] + [] == zeros[..|zeros| - 1];
      }
    } else {
      FromBytesPrefix(zeros, b[..|b| - 1]);
      assert (zeros + b)[..|zeros + b| - 1] == zeros + b[..|b| - 1];
    }
  }

  /** All but the last `j` bytes are zero exactly when the number fits in `j` bytes. */
  lemma {:induction false} HighBytesZero(b: seq<byte>, j: nat)
    requires j <= |b|
    ensures (forall i :: 0 <= i < |b| - j ==> b[i] == 0) <==> FromBytes(b) < Pow256(j)
    ensures FromBytes(b) < Pow256(j) ==> FromBytes(b[|b| - j..]) == FromBytes(b)
    decreases |b|
  {
    var k := |b|;
    if forall i :: 0 <= i < k - j ==> b[i] == 0 {
      FromBytesPrefix(b[..k - j], b[k - j..]);
      assert b[..k - j] + b[k - j..] == b;
      ToFromBytes(b[k - j..]);
    } else if j == 0 {
      HighBytesZero(b[..k - 1], 0);
    } else {
      HighBytesZero(b[..k - 1], j - 1);
      assert Pow256(j) == 256 * Pow256(j - 1);
    }
  }
}
