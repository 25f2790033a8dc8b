/**
 The world the robust sender talks to: one account's mined history and one shared mempool with a
 single slot per nonce.  Between any two contacts the environment may mine, drop or admit other
 transactions of the same wallet.  A transaction value stands for its hash: signing is
 deterministic, so two of our envelopes are the same transaction exactly when they are equal.
 */
module Mempool {
  import opened Prelude

  datatype Fees = Legacy(price: u128) | Dynamic(cap: u128, tip: u128)

  function FeeCap(f: Fees): u128 { if f.Legacy? then f.price else f.cap }
  function TipCap(f: Fees): u128 { if f.Legacy? then f.price else f.tip }

  /** The pool's replacement rule: strictly more, and at least ten percent more, on both fees. */
  predicate Outbids(f: Fees, prior: Fees) {
    && FeeCap(f) > FeeCap(prior) && 10 * FeeCap(f) >= 11 * FeeCap(prior)
    && TipCap(f) > TipCap(prior) && 10 * TipCap(f) >= 11 * TipCap(prior)
  }

  /** `Ours` is any envelope of the one logical send under study. */
  datatype Origin = Ours | Foreign(id: nat)

  datatype Tx = Tx(origin: Origin, nonce: nat, gas: nat, fees: Fees)

  /** `mined[n]` is the transaction mined at nonce `n`; `|mined|` is the account nonce. */
  datatype World = World(mined: seq<Tx>, pool: map<nat, Tx>)

  ghost predicate WellFormed(w: World) {
    && (forall i :: 0 <= i < |w.mined| ==> w.mined[i].nonce == i)
    && (forall n :: n in w.pool ==> w.pool[n].nonce == n && n >= |w.mined|)
  }

  predicate IsMined(w: World, tx: Tx) { tx.nonce < |w.mined| && w.mined[tx.nonce] == tx }
  predicate IsPooled(w: World, tx: Tx) { tx.nonce in w.pool && w.pool[tx.nonce] == tx }
  predicate Visible(w: World, tx: Tx) { IsMined(w, tx) || IsPooled(w, tx) }

  datatype Verdict = Accepted | AlreadyKnown | NonceTooLow | Underpriced

  function Judge(w: World, tx: Tx): Verdict {
    if tx.nonce < |w.mined| then NonceTooLow
    else if tx.nonce !in w.pool then Accepted
    else if w.pool[tx.nonce] == tx then AlreadyKnown
    else if Outbids(tx.fees, w.pool[tx.nonce].fees) then Accepted
    else Underpriced
  }

  function Admit(w: World, tx: Tx): World {
    if Judge(w, tx).Accepted? then w.(pool := w.pool[tx.nonce := tx]) else w
  }

  datatype EnvStep =
    | Mine                 // the pooled transaction at the account nonce, if any
    | Drop(nonce: nat)     // a pooled transaction expires
    | Submit(tx: Tx)       // another run on the same wallet sends
    | MinePrivate(tx: Tx)  // another run's transaction is mined without passing the pool

  function Evolve(w: World, e: EnvStep): World {
    match e
    case Mine =>
      var n := |w.mined|;
      if n in w.pool then World(w.mined + [w.pool[n]], w.pool - {n}) else w
    case Drop(n) => w.(pool := w.pool - {n})
    case Submit(tx) => if tx.origin.Foreign? then Admit(w, tx) else w
    case MinePrivate(tx) =>
      if tx.origin.Foreign? && tx.nonce == |w.mined| then World(w.mined + [tx], w.pool - {tx.nonce}) else w
  }

  function EvolveAll(w: World, es: seq<EnvStep>): World
    decreases |es|
  {
    if es == [] then w else EvolveAll(Evolve(w, es[0]), es[1..])
  }

  lemma {:induction false} EvolveInTwo(w: World, a: seq<EnvStep>, b: seq<EnvStep>)
    ensures EvolveAll(w, a + b) == EvolveAll(EvolveAll(w, a), b)
    decreases |a|
  {
    if a == [] {
      assert a + b == b;
    } else {
      assert (a + b)[1..] == a[1..] + b;
      EvolveInTwo(Evolve(w, a[0]), a[1..], b);
    }
  }

  /** Every transaction of ours that is mined or pooled is one of `txs`. */
  ghost predicate OursWithin(w: World, txs: seq<Tx>) {
    && (forall i :: 0 <= i < |w.mined| && w.mined[i].origin.Ours? ==> w.mined[i] in txs)
    && (forall n :: n in w.pool && w.pool[n].origin.Ours? ==> w.pool[n] in txs)
  }

  ghost predicate AtMostOneMined(w: World) {
    forall i, j :: 0 <= i < |w.mined| && 0 <= j < |w.mined| ==>
      w.mined[i].origin.Ours? && w.mined[j].origin.Ours? ==> i == j
  }

  /** The environment never puts a transaction of ours back. */
  lemma {:induction false} EvolveAllKeeps(w: World, es: seq<EnvStep>, txs: seq<Tx>)
    requires WellFormed(w) && OursWithin(w, txs)
    ensures WellFormed(EvolveAll(w, es)) && OursWithin(EvolveAll(w, es), txs)
    ensures forall tx: Tx :: tx.origin.Ours? && !Visible(w, tx) ==> !Visible(EvolveAll(w, es), tx)
    decreases |es|
  {
    if es != [] {
      EvolveKeeps(w, es[0], txs);
      EvolveAllKeeps(Evolve(w, es[0]), es[1..], txs);
    }
  }

  lemma EvolveKeeps(w: World, e: EnvStep, txs: seq<Tx>)
    requires WellFormed(w) && OursWithin(w, txs)
    ensures WellFormed(Evolve(w, e)) && OursWithin(Evolve(w, e), txs)
    ensures forall tx: Tx :: tx.origin.Ours? && !Visible(w, tx) ==> !Visible(Evolve(w, e), tx)
  {
  }

  lemma OneNonceOneMined(w: World, txs: seq<Tx>, nonce: nat)
    requires WellFormed(w) && OursWithin(w, txs)
    requires forall i :: 0 <= i < |txs| ==> txs[i].nonce == nonce
    ensures AtMostOneMined(w)
  {
  }
}
