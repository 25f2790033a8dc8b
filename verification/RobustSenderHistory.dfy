/**
 The envelopes one send signs, turn by turn, in every run: with any number of endpoints, any fees,
 any lost replies and any lookup answers.
 */
module RobustSenderHistory {
  import opened Prelude
  import opened Mempool
  import opened Probing
  import opened RobustSender
  import opened RobustSenderSafety

  /** The envelope is on the network: accepted, or rejected as landed and then some recorded hash is known. */
  ghost predicate Arrived(d: Delivery, sent: seq<Tx>, lookups: seq<Probe>) {
    d.error.None? || (d.error.value.Landed? && exists i :: Hit(d.world, sent, lookups, false, i))
  }

  /**
   One turn: its envelope, `anew` when filled anew rather than as a replacement, what the broadcast
   answered, whether the envelope arrived, and how the turn ended the send, if it did.
   */
  datatype Signing = Signing(tx: Tx, anew: bool, error: Option<SendError>, arrived: bool, done: Option<Outcome>)

  ghost function Signs(tx: Request, s: Sender, w: World, a: Answers, endpoints: nat): Signing
    requires endpoints > 0 && Fits(a, endpoints) && |s.sent| < MAX_SEND_ATTEMPTS
    requires Current(tx, s, a).Some?
  {
    var e := Current(tx, s, a).value;
    var d := Broadcast(w, e, a.plan);
    Signing(e, s.replacementFees.None?, d.error, Arrived(d, Recorded(s.sent, e), a.lookups),
            OneTurn(tx, s, w, a, endpoints).done)
  }

  ghost function History(tx: Request, s: Sender, w: World, tape: seq<Answers>, endpoints: nat): seq<Signing>
    requires endpoints > 0 && TapeFits(tape, endpoints) && |s.sent| + |tape| <= MAX_SEND_ATTEMPTS
    decreases |tape|
  {
    if tape == [] || s.round >= SEND_ROUNDS || Current(tx, s, tape[0]).None? then [] else
    var t := OneTurn(tx, s, w, tape[0], endpoints);
    [Signs(tx, s, w, tape[0], endpoints)]
    + if t.done.Some? then [] else History(tx, t.sender, t.world, tape[1..], endpoints)
  }

  /** A turn that goes on either abandons its nonce or leaves a replacement of its envelope due. */
  lemma TurnLeaves(tx: Request, s: Sender, w: World, a: Answers, endpoints: nat)
    requires endpoints > 0 && Fits(a, endpoints) && |s.sent| < MAX_SEND_ATTEMPTS
    requires Current(tx, s, a).Some?
    ensures var t := OneTurn(tx, s, w, a, endpoints);
            var e := Current(tx, s, a).value;
            && t.sender.sent == Recorded(s.sent, e)
            && (t.done.None? ==> t.sender.envelope.None?)
            && (t.done.None? && t.sender.replacementFees.Some? ==>
                  && t.sender.nonceOverride == Some(e.nonce)
                  && t.sender.gasOverride == Some(e.gas)
                  && t.sender.replacementFees == Some(Doubled(e.fees)))
  {
  }

  /** A signing that is not anew is the one before it with doubled fees. */
  lemma {:induction false} NextRung(
    tx: Request, s: Sender, w: World, tape: seq<Answers>, endpoints: nat, i: nat)
    requires endpoints > 0 && TapeFits(tape, endpoints) && |s.sent| + |tape| <= MAX_SEND_ATTEMPTS
    requires var h := History(tx, s, w, tape, endpoints); 0 < i < |h| && !h[i].anew
    ensures var h := History(tx, s, w, tape, endpoints);
            h[i].tx == Tx(Ours, h[i - 1].tx.nonce, h[i - 1].tx.gas, Doubled(h[i - 1].tx.fees))
    decreases |tape|
  {
    TurnLeaves(tx, s, w, tape[0], endpoints);
    var t := OneTurn(tx, s, w, tape[0], endpoints);
    var rest := History(tx, t.sender, t.world, tape[1..], endpoints);
    assert History(tx, s, w, tape, endpoints)[1..] == rest;
    if i > 1 {
      NextRung(tx, t.sender, t.world, tape[1..], endpoints, i - 1);
    }
  }

  /** Every envelope signed by a send that started without one is ours. */
  lemma {:induction false} FreshIsOurs(
    tx: Request, s: Sender, w: World, tape: seq<Answers>, endpoints: nat, i: nat)
    requires endpoints > 0 && TapeFits(tape, endpoints) && |s.sent| + |tape| <= MAX_SEND_ATTEMPTS
    requires s.envelope.None? && i < |History(tx, s, w, tape, endpoints)|
    ensures History(tx, s, w, tape, endpoints)[i].tx.origin.Ours?
    decreases |tape|
  {
    TurnLeaves(tx, s, w, tape[0], endpoints);
    var t := OneTurn(tx, s, w, tape[0], endpoints);
    if i > 0 {
      FreshIsOurs(tx, t.sender, t.world, tape[1..], endpoints, i - 1);
    }
  }

  /** Ours throughout, first filled anew, and every other signing the one before with doubled fees. */
  ghost predicate Climbing(h: seq<Signing>) {
    && (h != [] ==> h[0].anew)
    && (forall i :: 0 <= i < |h| ==> h[i].tx.origin.Ours?)
    && (forall i :: 0 < i < |h| && !h[i].anew ==>
          h[i].tx == Tx(Ours, h[i - 1].tx.nonce, h[i - 1].tx.gas, Doubled(h[i - 1].tx.fees)))
  }

  /** The envelope at `i` stands `k` replacements above the last fill made anew. */
  lemma {:induction false} Rung(h: seq<Signing>, i: nat) returns (k: nat)
    requires Climbing(h) && i < |h|
    ensures k <= i && h[i - k].anew && forall j :: i - k < j <= i ==> !h[j].anew
    ensures h[i].tx == Tx(Ours, h[i - k].tx.nonce, h[i - k].tx.gas, Raised(h[i - k].tx.fees, k))
    decreases i
  {
    if h[i].anew {
      k := 0;
    } else {
      k := Rung(h, i - 1);
      k := k + 1;
    }
  }

  lemma HistoryClimbs(tx: Request, w: World, tape: seq<Answers>, endpoints: nat)
    requires endpoints > 0 && TapeFits(tape, endpoints) && |tape| <= MAX_SEND_ATTEMPTS
    ensures Climbing(History(tx, Initial(tx), w, tape, endpoints))
  {
    var h := History(tx, Initial(tx), w, tape, endpoints);
    forall i | 0 <= i < |h|
      ensures h[i].tx.origin.Ours?
    {
      FreshIsOurs(tx, Initial(tx), w, tape, endpoints, i);
    }
    forall i | 0 < i < |h| && !h[i].anew
      ensures h[i].tx == Tx(Ours, h[i - 1].tx.nonce, h[i - 1].tx.gas, Doubled(h[i - 1].tx.fees))
    {
      NextRung(tx, Initial(tx), w, tape, endpoints, i);
    }
  }

  /**
   In every run, the envelope of turn `i` is the k-th replacement of the last fill made anew, `k`
   turns earlier: the same nonce and gas limit, and fees of exactly min(2^k times the fill's, 2^128 - 1).
   */
  lemma ReplacementChain(tx: Request, w: World, tape: seq<Answers>, endpoints: nat, i: nat) returns (k: nat)
    requires endpoints > 0 && TapeFits(tape, endpoints) && |tape| <= MAX_SEND_ATTEMPTS
    requires i < |History(tx, Initial(tx), w, tape, endpoints)|
    ensures var h := History(tx, Initial(tx), w, tape, endpoints);
            && k <= i && h[i - k].anew && (forall j :: i - k < j <= i ==> !h[j].anew)
            && h[i].tx.origin.Ours?
            && h[i].tx.nonce == h[i - k].tx.nonce && h[i].tx.gas == h[i - k].tx.gas
            && h[i].tx.fees.Legacy? == h[i - k].tx.fees.Legacy?
            && FeeCap(h[i].tx.fees) == Min(Pow2(k) * FeeCap(h[i - k].tx.fees), U128_MAX)
            && TipCap(h[i].tx.fees) == Min(Pow2(k) * TipCap(h[i - k].tx.fees), U128_MAX)
  {
    var h := History(tx, Initial(tx), w, tape, endpoints);
    HistoryClimbs(tx, w, tape, endpoints);
    k := Rung(h, i);
    RaisedIsPower(h[i - k].tx.fees, k);
  }

  ghost predicate Signed(h: seq<Signing>, e: Tx) {
    exists i :: 0 <= i < |h| && h[i].tx == e
  }

  lemma SignedFirst(first: Signing, rest: seq<Signing>, e: Tx)
    ensures Signed([first] + rest, e) <==> first.tx == e || Signed(rest, e)
  {
    var h := [first] + rest;
    assert h[0] == first;
    assert forall i :: 0 <= i < |rest| ==> rest[i] == h[i + 1];
  }

  /** The recorded hashes are exactly those of the envelopes signed. */
  lemma {:induction false} SignedIsRecorded(
    tx: Request, s: Sender, w: World, tape: seq<Answers>, endpoints: nat, e: Tx)
    requires endpoints > 0 && TapeFits(tape, endpoints) && |s.sent| + |tape| <= MAX_SEND_ATTEMPTS
    ensures e in Send(tx, s, w, tape, endpoints).sent
            <==> e in s.sent || Signed(History(tx, s, w, tape, endpoints), e)
    decreases |tape|
  {
    if History(tx, s, w, tape, endpoints) != [] {
      TurnLeaves(tx, s, w, tape[0], endpoints);
      var t := OneTurn(tx, s, w, tape[0], endpoints);
      var first := Signs(tx, s, w, tape[0], endpoints);
      if t.done.None? {
        SignedIsRecorded(tx, t.sender, t.world, tape[1..], endpoints, e);
        SignedFirst(first, History(tx, t.sender, t.world, tape[1..], endpoints), e);
      } else {
        SignedFirst(first, [], e);
      }
    }
  }
}
