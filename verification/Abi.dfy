/**
 The Solidity ABI encoding of a tuple of words and byte strings ("Formal Specification of the
 Encoding" in the Solidity Contract ABI Specification) and the decoder's reading of one, with the
 round trip for every tuple.
 */
module Abi {
  import opened Prelude
  import opened Bytes

  datatype SolType = Uint(bits: nat) | FixedBytes32 | Address | Bytes | Str

  /** A static value as the number in its word, or the bytes of a dynamic one. */
  datatype Value = Word(n: nat) | Blob(bytes: seq<byte>)

  predicate IsDynamic(t: SolType) { t.Bytes? || t.Str? }

  function WordLimit(t: SolType): nat {
    if t.Address? then TWO_160 else TWO_256
  }

  predicate Typed(v: Value, t: SolType) {
    if IsDynamic(t) then v.Blob? else v.Word? && v.n < WordLimit(t)
  }

  predicate AllTyped(vs: seq<Value>, ts: seq<SolType>) {
    |vs| == |ts| && forall i :: 0 <= i < |vs| ==> Typed(vs[i], ts[i])
  }

  // ----- encoding

  function Zeros(n: nat): seq<byte> { seq(n, _ => 0) }

  function Padding(n: nat): nat { (32 - n % 32) % 32 }

  /** A dynamic value's share of the tail: its length word and its padded bytes. */
  function TailOf(v: Value): seq<byte> {
    match v
    case Word(_) => []
    case Blob(b) => ToBytes(|b|, 32) + b + Zeros(Padding(|b|))
  }

  function Flat(parts: seq<seq<byte>>): seq<byte> {
    if parts == [] then [] else Flat(parts[..|parts| - 1]) + parts[|parts| - 1]
  }

  function Tails(vs: seq<Value>): seq<seq<byte>> {
    seq(|vs|, i requires 0 <= i < |vs| => TailOf(vs[i]))
  }

  /** Where value `i`'s part of the tail starts, from the beginning of the tuple. */
  function TailStart(vs: seq<Value>, i: nat): nat
    requires i <= |vs|
  {
    32 * |vs| + |Flat(Tails(vs)[..i])|
  }

  /** The word in the head for value `i`: itself, or the offset of its tail. */
  function HeadOf(vs: seq<Value>, i: nat): seq<byte>
    requires i < |vs|
  {
    match vs[i]
    case Word(n) => ToBytes(n, 32)
    case Blob(_) => ToBytes(TailStart(vs, i), 32)
  }

  function Head(vs: seq<Value>, k: nat): (h: seq<byte>)
    requires k <= |vs|
    ensures |h| == 32 * k
  {
    if k == 0 then [] else Head(vs, k - 1) + HeadOf(vs, k - 1)
  }

  function Encode(vs: seq<Value>): seq<byte> {
    Head(vs, |vs|) + Flat(Tails(vs))
  }

  // ----- decoding

  function WordAt(data: seq<byte>, at: nat): nat
    requires at + 32 <= |data|
  {
    FromBytes(data[at..at + 32])
  }

  /** Whether a length-prefixed byte string can be read at `at`. */
  predicate Readable(data: seq<byte>, at: nat) {
    at + 32 <= |data| && at + 32 + WordAt(data, at) <= |data|
  }

  function DecodeField(t: SolType, data: seq<byte>, i: nat): Option<Value> {
    if 32 * i + 32 > |data| then None else
    var w := WordAt(data, 32 * i);
    if t.Address? then Some(Word(w % TWO_160))
    else if !IsDynamic(t) then Some(Word(w))
    else if Readable(data, w) then Some(Blob(data[w + 32..w + 32 + WordAt(data, w)]))
    else None
  }

  /** `abi_decode_params`: every field in turn, failing if any fails. */
  function Decode(ts: seq<SolType>, data: seq<byte>): Option<seq<Value>> {
    if forall i :: 0 <= i < |ts| ==> DecodeField(ts[i], data, i).Some?
    then Some(seq(|ts|, i requires 0 <= i < |ts| => DecodeField(ts[i], data, i).value))
    else None
  }

  // ----- the round trip

  lemma {:induction false} HeadAt(vs: seq<Value>, k: nat, i: nat)
    requires i < k <= |vs|
    ensures Head(vs, k)[32 * i..32 * i + 32] == HeadOf(vs, i)
    decreases k
  {
    var shorter := Head(vs, k - 1);
    if i < k - 1 {
      HeadAt(vs, k - 1, i);
      assert Head(vs, k)[32 * i..32 * i + 32] == shorter[32 * i..32 * i + 32];
    }
  }

  lemma {:induction false} PartAt(parts: seq<seq<byte>>, i: nat)
    requires i < |parts|
    ensures var at := |Flat(parts[..i])|;
            && at + |parts[i]| <= |Flat(parts)|
            && Flat(parts)[at..at + |parts[i]|] == parts[i]
    decreases |parts|
  {
    var n := |parts| - 1;
    if i < n {
      PartAt(parts[..n], i);
      assert parts[..n][..i] == parts[..i];
    }
  }

  lemma SliceOfSum(a: seq<byte>, b: seq<byte>, i: nat, j: nat)
    requires i <= j <= |a|
    ensures (a + b)[i..j] == a[i..j]
  {
  }

  /** Where value `i` of an encoding sits. */
  lemma EncodedAt(vs: seq<Value>, i: nat)
    requires i < |vs| && |Encode(vs)| < TWO_256
    requires vs[i].Word? ==> vs[i].n < TWO_256
    ensures 32 * i + 32 <= |Encode(vs)|
    ensures vs[i].Word? ==> WordAt(Encode(vs), 32 * i) == vs[i].n
    ensures vs[i].Blob? ==> WordAt(Encode(vs), 32 * i) == TailStart(vs, i)
  {
    PowConstants();
    HeadAt(vs, |vs|, i);
    SliceOfSum(Head(vs, |vs|), Flat(Tails(vs)), 32 * i, 32 * i + 32);
    PartAt(Tails(vs), i);
    match vs[i]
    case Word(n) => FromToBytes(n, 32);
    case Blob(b) => FromToBytes(TailStart(vs, i), 32);
  }

  /** A length word, bytes and padding, found in the middle of `head + tail`. */
  lemma Embedded(head: seq<byte>, tail: seq<byte>, at: nat, size: seq<byte>, b: seq<byte>, padding: seq<byte>)
    requires |size| == 32 && at + 32 + |b| + |padding| <= |tail|
    requires tail[at..at + 32 + |b| + |padding|] == size + b + padding
    ensures (head + tail)[|head| + at..|head| + at + 32] == size
    ensures (head + tail)[|head| + at + 32..|head| + at + 32 + |b|] == b
  {
    var all := size + b + padding;
    var data := head + tail;
    var start := |head| + at;
    assert data[start..start + |all|] == all;
    SliceOfSlice(data, start, |all|, 0, 32);
    SliceOfSlice(data, start, |all|, 32, 32 + |b|);
    assert all[0..32] == size && all[32..32 + |b|] == b;
  }

  lemma SliceOfSlice(a: seq<byte>, at: nat, size: nat, i: nat, j: nat)
    requires i <= j <= size && at + size <= |a|
    ensures a[at + i..at + j] == a[at..at + size][i..j]
  {
    var s := a[at..at + size];
    forall k | 0 <= k < j - i
      ensures a[at + i..at + j][k] == s[i..j][k]
    {
      assert s[i + k] == a[at + i + k];
    }
  }

  lemma BlobAt(vs: seq<Value>, i: nat)
    requires i < |vs| && vs[i].Blob? && |Encode(vs)| < TWO_256
    ensures var at := TailStart(vs, i);
            && Readable(Encode(vs), at)
            && WordAt(Encode(vs), at) == |vs[i].bytes|
            && Encode(vs)[at + 32..at + 32 + |vs[i].bytes|] == vs[i].bytes
  {
    var b := vs[i].bytes;
    PartAt(Tails(vs), i);
    Embedded(Head(vs, |vs|), Flat(Tails(vs)), |Flat(Tails(vs)[..i])|, ToBytes(|b|, 32), b, Zeros(Padding(|b|)));
    PowConstants();
    FromToBytes(|b|, 32);
  }

  lemma ReadField(t: SolType, data: seq<byte>, i: nat, v: Value)
    requires Typed(v, t) && 32 * i + 32 <= |data|
    requires v.Word? ==> WordAt(data, 32 * i) == v.n
    requires v.Blob? ==>
      var at := WordAt(data, 32 * i);
      Readable(data, at) && WordAt(data, at) == |v.bytes| && data[at + 32..at + 32 + |v.bytes|] == v.bytes
    ensures DecodeField(t, data, i) == Some(v)
  {
  }

  lemma FieldRoundTrip(vs: seq<Value>, ts: seq<SolType>, i: nat)
    requires AllTyped(vs, ts) && |Encode(vs)| < TWO_256 && i < |vs|
    ensures DecodeField(ts[i], Encode(vs), i) == Some(vs[i])
  {
    EncodedAt(vs, i);
    if vs[i].Blob? {
      BlobAt(vs, i);
    }
    ReadField(ts[i], Encode(vs), i, vs[i]);
  }

  /** Decoding an encoded tuple gives the tuple back. */
  lemma RoundTrip(vs: seq<Value>, ts: seq<SolType>)
    requires AllTyped(vs, ts) && |Encode(vs)| < TWO_256
    ensures Decode(ts, Encode(vs)) == Some(vs)
  {
    forall i | 0 <= i < |vs|
      ensures DecodeField(ts[i], Encode(vs), i) == Some(vs[i])
    {
      FieldRoundTrip(vs, ts, i);
    }
    assert Decode(ts, Encode(vs)).value == vs;
  }
}
