/**
 The preimage of a CREATE address: the RLP encoding (Ethereum Yellow Paper, Appendix B) of the
 pair of a 20-byte sender and a 64-bit nonce.  Hashing the preimage is not modelled.
 */
module CreateAddress {
  import opened Prelude
  import opened Bytes

  /** Big-endian without leading zeros; zero is the empty string. */
  function MinimalBytes(n: nat): seq<byte> {
    if n == 0 then [] else MinimalBytes(n / 256) + [n % 256]
  }

  predicate NoLeadingZero(b: seq<byte>) { b == [] || b[0] != 0 }

  function SizeBytes(n: nat): (b: seq<byte>)
    requires n <= U64_MAX
    ensures b == MinimalBytes(n) && |b| <= 8
  {
    PowSum(4, 4);
    MinimalLength(n, 8);
    MinimalBytes(n)
  }

  function RlpString(b: seq<byte>): seq<byte>
    requires |b| <= U64_MAX
  {
    if |b| == 1 && b[0] < 0x80 then b
    else if |b| < 56 then [0x80 + |b|] + b
    else [0xb7 + |SizeBytes(|b|)|] + SizeBytes(|b|) + b
  }

  function RlpList(payload: seq<byte>): seq<byte>
    requires |payload| <= U64_MAX
  {
    if |payload| < 56 then [0xc0 + |payload|] + payload
    else [0xf7 + |SizeBytes(|payload|)|] + SizeBytes(|payload|) + payload
  }

  type Sender = b: seq<byte> | |b| == 20 witness seq(20, _ => 0)

  function Preimage(sender: Sender, nonce: u64): seq<byte> {
    RlpList(RlpString(sender) + RlpString(SizeBytes(nonce)))
  }

  // ----- minimal big-endian numbers

  lemma {:induction false} MinimalLength(n: nat, k: nat)
    requires n < Pow256(k)
    ensures |MinimalBytes(n)| <= k
  {
    if n > 0 {
      MinimalLength(n / 256, k - 1);
    }
  }

  lemma {:induction false} MinimalReads(n: nat)
    ensures FromBytes(MinimalBytes(n)) == n && NoLeadingZero(MinimalBytes(n))
  {
    if n > 0 {
      MinimalReads(n / 256);
      assert MinimalBytes(n)[..|MinimalBytes(n)| - 1] == MinimalBytes(n / 256);
    }
  }

  lemma {:induction false} MinimalUnique(b: seq<byte>)
    requires NoLeadingZero(b)
    ensures MinimalBytes(FromBytes(b)) == b
  {
    if b != [] {
      var rest, last := b[..|b| - 1], b[|b| - 1];
      MinimalUnique(rest);
      var n := FromBytes(b);
      assert b == rest + [last];
      assert n / 256 == FromBytes(rest) && n % 256 == last;
    }
  }

  lemma OneByte(n: byte)
    requires n > 0
    ensures MinimalBytes(n) == [n]
  {
  }

  lemma LargeNonce(nonce: nat, b: seq<byte>)
    requires nonce >= 0x80 && b == MinimalBytes(nonce) && |b| <= 8
    ensures |b| > 0 && RlpString(b) == [0x80 + |b|] + b
  {
  }

  /** `to_be_bytes` with the leading zeros removed one by one. */
  method StripZeros(nonce: u64) returns (b: seq<byte>)
    ensures b == SizeBytes(nonce)
  {
    assert nonce < Pow256(8) by {
      PowSum(4, 4);
    }
    FromToBytes(nonce, 8);
    b := ToBytes(nonce, 8);
    while b != [] && b[0] == 0
      invariant FromBytes(b) == nonce
    {
      FromBytesPrefix([0], b[1..]);
      assert [0] + b[1..] == b;
      b := b[1..];
    }
    MinimalUnique(b);
  }

  method EncodeNonce(nonce: u64) returns (item: seq<byte>)
    ensures item == RlpString(SizeBytes(nonce)) && 1 <= |item| <= 9
  {
    if nonce == 0 {
      item := [0x80];
    } else if nonce < 0x80 {
      OneByte(nonce);
      item := [nonce];
    } else {
      var b := StripZeros(nonce);
      LargeNonce(nonce, b);
      item := [0x80 + |b|] + b;
    }
  }

  /** The item bytes, then the list header; the long-list header is never needed. */
  method ComputePreimage(sender: Sender, nonce: u64) returns (stream: seq<byte>)
    ensures stream == Preimage(sender, nonce)
    ensures 23 <= |stream| <= 31
  {
    var items := [0x94] + sender;
    var item := EncodeNonce(nonce);
    assert items == RlpString(sender);
    items := items + item;
    if |items| < 56 {
      stream := [0xc0 + |items|] + items;
    } else {
      assert false;
    }
  }

  // ----- strict decoding

  /** Split a canonical string item off the front; any non-minimal form is rejected. */
  function DecodeString(s: seq<byte>): Option<(seq<byte>, seq<byte>)> {
    if s == [] then None
    else if s[0] < 0x80 then Some((s[..1], s[1..]))
    else if s[0] < 0xb8 then
      var n := s[0] - 0x80;
      if 1 + n > |s| || (n == 1 && s[1] < 0x80) then None else Some((s[1..1 + n], s[1 + n..]))
    else if s[0] < 0xc0 then DecodeLong(s, s[0] - 0xb7)
    else None
  }

  /** The long form: `k` length bytes without leading zero, a length of at least 56, then the bytes. */
  function DecodeLong(s: seq<byte>, k: nat): Option<(seq<byte>, seq<byte>)> {
    if 1 + k > |s| || !NoLeadingZero(s[1..1 + k]) then None else
    var n := FromBytes(s[1..1 + k]);
    if n < 56 || 1 + k + n > |s| then None else Some((s[1 + k..1 + k + n], s[1 + k + n..]))
  }

  function DecodeList(s: seq<byte>): Option<(seq<byte>, seq<byte>)> {
    if s == [] || s[0] < 0xc0 then None
    else if s[0] < 0xf8 then
      var n := s[0] - 0xc0;
      if 1 + n > |s| then None else Some((s[1..1 + n], s[1 + n..]))
    else DecodeLong(s, s[0] - 0xf7)
  }

  function DecodePair(s: seq<byte>): Option<(Sender, u64)> {
    var list := DecodeList(s);
    if list.None? || list.value.1 != [] then None else
    var first := DecodeString(list.value.0);
    if first.None? || |first.value.0| != 20 then None else
    var second := DecodeString(first.value.1);
    if second.None? || second.value.1 != [] || !NoLeadingZero(second.value.0) then None
    else if FromBytes(second.value.0) > U64_MAX then None
    else Some((first.value.0, FromBytes(second.value.0)))
  }

  lemma StringDecodes(b: seq<byte>, rest: seq<byte>)
    requires |b| < 56
    ensures DecodeString(RlpString(b) + rest) == Some((b, rest))
  {
  }

  lemma StringIsCanonical(s: seq<byte>)
    requires DecodeString(s).Some? && |DecodeString(s).value.0| < 56
    ensures s == RlpString(DecodeString(s).value.0) + DecodeString(s).value.1
  {
  }

  lemma ListDecodes(payload: seq<byte>)
    requires |payload| < 56
    ensures DecodeList(RlpList(payload)) == Some((payload, []))
  {
    var s := [0xc0 + |payload|] + payload;
    assert s[1..1 + |payload|] == payload && s[1 + |payload|..] == [];
  }

  /** The preimage decodes to the pair it was built from. */
  lemma PreimageDecodes(sender: Sender, nonce: u64)
    ensures DecodePair(Preimage(sender, nonce)) == Some((sender, nonce))
  {
    MinimalReads(nonce);
    var second := RlpString(SizeBytes(nonce));
    ListDecodes(RlpString(sender) + second);
    StringDecodes(sender, second);
    StringDecodes(SizeBytes(nonce), []);
    assert second + [] == second;
  }

  lemma ShortListIsCanonical(s: seq<byte>)
    requires DecodeList(s).Some? && DecodeList(s).value.1 == [] && |DecodeList(s).value.0| < 56
    ensures s == RlpList(DecodeList(s).value.0)
  {
  }

  /** Nothing else decodes: the preimage is the only canonical encoding of the pair. */
  lemma OnlyPreimagesDecode(s: seq<byte>)
    requires DecodePair(s).Some?
    ensures s == Preimage(DecodePair(s).value.0, DecodePair(s).value.1)
  {
    var payload := DecodeList(s).value.0;
    var (sender, tail) := DecodeString(payload).value;
    var number := DecodeString(tail).value.0;
    MinimalUnique(number);
    assert number == SizeBytes(FromBytes(number));
    StringIsCanonical(payload);
    StringIsCanonical(tail);
    assert RlpString(number) + [] == RlpString(number);
    ShortListIsCanonical(s);
  }
}
