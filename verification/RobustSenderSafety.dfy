/**
 What every run of the robust sender guarantees: whatever is ours on the network was recorded
 before it was broadcast, and, with one endpoint and fees that clear their own replacement
 minimum, at most one envelope of the logical send is ever mined.
 */
module RobustSenderSafety {
  import opened Prelude
  import opened Mempool
  import opened Probing
  import opened RobustSender

  // ----- doubled fees

  /** Doubling either leaves the fees alone (the envelope is then the same one) or outbids them. */
  predicate Climbs(f: Fees) {
    Doubled(f) == f || Outbids(Doubled(f), f)
  }

  /** Both replacements a send can make clear the pool's minimum over what they replace. */
  predicate SelfReplacing(f: Fees) {
    Climbs(f) && Climbs(Doubled(f))
  }

  function Raised(f: Fees, k: nat): Fees {
    if k == 0 then f else Doubled(Raised(f, k - 1))
  }

  /** The k-th replacement's fees are exactly 2^k times the original's, capped at the 128-bit maximum. */
  lemma {:induction false} RaisedIsPower(f: Fees, k: nat)
    ensures FeeCap(Raised(f, k)) == Min(Pow2(k) * FeeCap(f), U128_MAX)
    ensures TipCap(Raised(f, k)) == Min(Pow2(k) * TipCap(f), U128_MAX)
    ensures Raised(f, k).Legacy? == f.Legacy?
  {
    if k > 0 {
      RaisedIsPower(f, k - 1);
      DoubleProduct(Pow2(k - 1), FeeCap(f));
      DoubleProduct(Pow2(k - 1), TipCap(f));
    }
  }

  lemma DoubleProduct(p: nat, x: nat)
    ensures (2 * p) * x == 2 * (p * x)
    ensures Min(2 * Min(p * x, U128_MAX), U128_MAX) == Min((2 * p) * x, U128_MAX)
  {
  }

  /** Positive fees that two doublings keep below the 128-bit maximum are self-replacing. */
  lemma PositiveFeesReplace(f: Fees)
    requires 0 < FeeCap(f) && 4 * FeeCap(f) <= U128_MAX
    requires 0 < TipCap(f) && 4 * TipCap(f) <= U128_MAX
    ensures SelfReplacing(f)
  {
  }

  lemma {:induction false} RaisedOutbids(f: Fees, j: nat, k: nat)
    requires SelfReplacing(f) && j <= k <= 2
    ensures Raised(f, k) == Raised(f, j) || Outbids(Raised(f, k), Raised(f, j))
  {
    assert Raised(f, 1) == Doubled(Raised(f, 0));
    assert Raised(f, 2) == Doubled(Raised(f, 1));
  }

  /** The envelopes signed at one nonce: the original and its replacements. */
  ghost predicate Ladder(chain: seq<Tx>, market: iset<Fees>) {
    forall k :: 0 <= k < |chain| ==>
      && chain[0].fees in market
      && chain[k] == Tx(Ours, chain[0].nonce, chain[0].gas, Raised(chain[0].fees, k))
  }

  // ----- broadcasting

  lemma OfferKeeps(w: World, tx: Tx, c: Contact, txs: seq<Tx>)
    requires WellFormed(w) && OursWithin(w, txs) && tx in txs
    ensures WellFormed(Offer(w, tx, c).0) && OursWithin(Offer(w, tx, c).0, txs)
  {
    EvolveAllKeeps(w, c.before, txs);
  }

  lemma {:induction false} AttemptKeeps(w: World, tx: Tx, contacts: seq<Contact>, txs: seq<Tx>)
    requires WellFormed(w) && OursWithin(w, txs) && tx in txs
    ensures WellFormed(Attempt(w, tx, contacts).world) && OursWithin(Attempt(w, tx, contacts).world, txs)
  {
    if contacts != [] {
      var before := contacts[..|contacts| - 1];
      AttemptKeeps(w, tx, before, txs);
      OfferKeeps(Attempt(w, tx, before).world, tx, contacts[|contacts| - 1], txs);
    }
  }

  lemma {:induction false} BroadcastKeeps(w: World, tx: Tx, plan: seq<seq<Contact>>, txs: seq<Tx>)
    requires plan != [] && forall k :: 0 <= k < |plan| ==> plan[k] != []
    requires WellFormed(w) && OursWithin(w, txs) && tx in txs
    ensures WellFormed(Broadcast(w, tx, plan).world) && OursWithin(Broadcast(w, tx, plan).world, txs)
    decreases |plan|
  {
    AttemptKeeps(w, tx, plan[0], txs);
    var a := Attempt(w, tx, plan[0]);
    if !a.accepted && |plan| > 1 && Pick(a.errors, 0).transient {
      BroadcastKeeps(a.world, tx, plan[1..], txs);
    }
  }

  predicate SaysHeld(error: Option<SendError>) {
    error.Some? && error.value.NonceHeld?
  }

  /** A "nonce held" reply is never about an earlier envelope of ours: the top of the ladder beats those. */
  lemma HeldMeansForeign(w: World, chain: seq<Tx>, c: Contact, market: iset<Fees>)
    requires WellFormed(w) && OursWithin(w, chain)
    requires Ladder(chain, market) && 0 < |chain| <= SEND_ROUNDS
    requires forall f :: f in market ==> SelfReplacing(f)
    requires SaysHeld(Offer(w, chain[|chain| - 1], c).1)
    ensures OursWithin(Offer(w, chain[|chain| - 1], c).0, [])
  {
    var top := chain[|chain| - 1];
    EvolveAllKeeps(w, c.before, chain);
    var v := EvolveAll(w, c.before);
    assert Judge(v, top).Underpriced?;
    if v.pool[top.nonce].origin.Ours? {
      var j :| 0 <= j < |chain| && chain[j] == v.pool[top.nonce];
      RaisedOutbids(chain[0].fees, j, |chain| - 1);
    }
  }

  /** With one endpoint an attempt is one offer, and its error is that offer's. */
  lemma SingleContact(w: World, tx: Tx, c: Contact)
    ensures var a := Attempt(w, tx, [c]);
            var (v, error) := Offer(w, tx, c);
            && a.world == v
            && (a.accepted <==> error.None?)
            && (error.Some? ==> a.errors == [error.value] && Pick(a.errors, 0) == error.value)
  {
  }

  /** In one pass over the endpoints no reply is lost after one was heard; trivial with one endpoint. */
  predicate NoLossAfterHeard(contacts: seq<Contact>) {
    forall i, j :: 0 <= i < j < |contacts| && contacts[i].reply.Heard? ==> !contacts[j].reply.Lost?
  }

  predicate AnyHeld(errors: seq<SendError>) {
    exists i :: 0 <= i < |errors| && errors[i].NonceHeld?
  }

  /** A "nonce held" error was heard from some endpoint. */
  lemma {:induction false} HeldWasHeard(w: World, tx: Tx, contacts: seq<Contact>)
    requires AnyHeld(Attempt(w, tx, contacts).errors)
    ensures exists i :: 0 <= i < |contacts| && contacts[i].reply.Heard?
  {
    var n := |contacts| - 1;
    if AnyHeld(Attempt(w, tx, contacts[..n]).errors) {
      HeldWasHeard(w, tx, contacts[..n]);
      var i :| 0 <= i < n && contacts[..n][i].reply.Heard?;
      assert contacts[i].reply.Heard?;
    } else {
      assert contacts[n].reply.Heard?;
    }
  }

  /** If such a pass fails with any "nonce held" among its errors, nothing of ours is alive. */
  lemma {:induction false} HeldAttempt(w: World, chain: seq<Tx>, contacts: seq<Contact>, market: iset<Fees>)
    requires NoLossAfterHeard(contacts)
    requires WellFormed(w) && OursWithin(w, chain)
    requires Ladder(chain, market) && 0 < |chain| <= SEND_ROUNDS
    requires forall f :: f in market ==> SelfReplacing(f)
    requires var a := Attempt(w, chain[|chain| - 1], contacts); !a.accepted && AnyHeld(a.errors)
    ensures OursWithin(Attempt(w, chain[|chain| - 1], contacts).world, [])
  {
    var top := chain[|chain| - 1];
    var n := |contacts| - 1;
    var a := Attempt(w, top, contacts[..n]);
    AttemptKeeps(w, top, contacts[..n], chain);
    if AnyHeld(a.errors) {
      HeldAttempt(w, chain, contacts[..n], market);
      HeldWasHeard(w, top, contacts[..n]);
      EvolveAllKeeps(a.world, contacts[n].before, []);
    } else {
      HeldMeansForeign(a.world, chain, contacts[n], market);
    }
  }

  lemma {:induction false} PickIsAnError(errors: seq<SendError>, i: nat)
    requires errors != []
    ensures Pick(errors, i) in errors
    decreases |errors| - i
  {
    if i < |errors| && !Telling(errors[i]) {
      PickIsAnError(errors, i + 1);
    }
  }

  /** A telling rejection is never hidden behind another error: the first one wins. */
  lemma {:induction false} PickPrefersTelling(errors: seq<SendError>, i: nat, k: nat)
    requires i <= k < |errors| && Telling(errors[k]) && forall j :: i <= j < k ==> !Telling(errors[j])
    ensures Pick(errors, i) == errors[k]
    decreases k - i
  {
    if i < k {
      PickPrefersTelling(errors, i + 1, k);
    }
  }

  lemma {:induction false} PickFallsBack(errors: seq<SendError>, i: nat)
    requires errors != [] && forall j :: 0 <= j < |errors| ==> !Telling(errors[j])
    ensures Pick(errors, i) == errors[0]
    decreases |errors| - i
  {
    if i < |errors| {
      PickFallsBack(errors, i + 1);
    }
  }

  lemma {:induction false} HeldBroadcast(w: World, chain: seq<Tx>, plan: seq<seq<Contact>>, market: iset<Fees>)
    requires plan != [] && forall k :: 0 <= k < |plan| ==> plan[k] != [] && NoLossAfterHeard(plan[k])
    requires WellFormed(w) && OursWithin(w, chain)
    requires Ladder(chain, market) && 0 < |chain| <= SEND_ROUNDS
    requires forall f :: f in market ==> SelfReplacing(f)
    requires SaysHeld(Broadcast(w, chain[|chain| - 1], plan).error)
    ensures OursWithin(Broadcast(w, chain[|chain| - 1], plan).world, [])
    decreases |plan|
  {
    var top := chain[|chain| - 1];
    var a := Attempt(w, top, plan[0]);
    if |plan| > 1 && Pick(a.errors, 0).transient {
      AttemptKeeps(w, top, plan[0], chain);
      HeldBroadcast(a.world, chain, plan[1..], market);
    } else {
      PickIsAnError(a.errors, 0);
      HeldAttempt(w, chain, plan[0], market);
    }
  }

  // ----- by-hash questions

  lemma {:induction false} ScanKeeps(w: World, asked: seq<Tx>, probes: seq<Probe>, wantMined: bool, txs: seq<Tx>)
    requires |asked| <= |probes|
    requires WellFormed(w) && OursWithin(w, txs)
    ensures var s := Scan(w, asked, probes, wantMined);
            && WellFormed(s.world) && OursWithin(s.world, txs)
            && (s.found.Some? ==> s.found.value in asked && Answer(s.world, s.found.value, wantMined))
            && (forall tx: Tx :: tx.origin.Ours? && !Visible(w, tx) ==> !Visible(s.world, tx))
    decreases |asked|
  {
    if asked != [] {
      EvolveAllKeeps(w, probes[0].before, txs);
      ScanKeeps(EvolveAll(w, probes[0].before), asked[1..], probes[1..], wantMined, txs);
    }
  }

  /** A complete lookup that finds nothing proves every envelope asked about dead. */
  lemma {:induction false} NothingFound(w: World, asked: seq<Tx>, probes: seq<Probe>, txs: seq<Tx>)
    requires |asked| <= |probes| && forall i :: 0 <= i < |probes| ==> probes[i].answered
    requires forall i :: 0 <= i < |asked| ==> asked[i].origin.Ours?
    requires WellFormed(w) && OursWithin(w, txs) && Scan(w, asked, probes, false).found.None?
    ensures forall tx :: tx in asked ==> !Visible(Scan(w, asked, probes, false).world, tx)
    decreases |asked|
  {
    if asked != [] {
      var v := EvolveAll(w, probes[0].before);
      EvolveAllKeeps(w, probes[0].before, txs);
      ScanKeeps(v, asked[1..], probes[1..], false, txs);
      NothingFound(v, asked[1..], probes[1..], txs);
    }
  }

  lemma {:induction false} AwaitKeeps(w: World, asked: seq<Tx>, polls: seq<seq<Probe>>, txs: seq<Tx>)
    requires forall k :: 0 <= k < |polls| ==> |asked| <= |polls[k]|
    requires WellFormed(w) && OursWithin(w, txs)
    ensures var s := Await(w, asked, polls);
            && WellFormed(s.world) && OursWithin(s.world, txs)
            && (s.found.Some? ==> s.found.value in asked && IsMined(s.world, s.found.value))
    decreases |polls|
  {
    if polls != [] {
      ScanKeeps(w, asked, polls[0], true, txs);
      AwaitKeeps(Scan(w, asked, polls[0], true).world, asked, polls[1..], txs);
    }
  }

  // ----- every envelope is recorded before it is broadcast

  lemma WiderOurs(w: World, txs: seq<Tx>, wider: seq<Tx>)
    requires OursWithin(w, txs) && forall tx :: tx in txs ==> tx in wider
    ensures OursWithin(w, wider)
  {
  }

  lemma {:induction false} ReactRecords(w: World, s: Sender, e: Tx, error: Option<SendError>, a: Answers)
    requires |s.sent| <= |a.lookups| && forall k :: 0 <= k < |a.polls| ==> |s.sent| <= |a.polls[k]|
    requires WellFormed(w) && OursWithin(w, s.sent)
    ensures var t := React(w, s, e, error, a);
            && WellFormed(t.world) && OursWithin(t.world, s.sent) && t.sender.sent == s.sent
            && (t.done.Some? && t.done.value.Receipt? ==>
                  t.done.value.tx in s.sent && IsMined(t.world, t.done.value.tx))
  {
    ScanKeeps(w, s.sent, a.lookups, false, s.sent);
    AwaitKeeps(w, s.sent, a.polls, s.sent);
    AwaitKeeps(Scan(w, s.sent, a.lookups, false).world, s.sent, a.polls, s.sent);
  }

  lemma {:induction false} TurnRecords(tx: Request, s: Sender, w: World, a: Answers, endpoints: nat)
    requires endpoints > 0 && Fits(a, endpoints) && |s.sent| < MAX_SEND_ATTEMPTS
    requires WellFormed(w) && OursWithin(w, s.sent)
    ensures var t := OneTurn(tx, s, w, a, endpoints);
            && WellFormed(t.world) && OursWithin(t.world, t.sender.sent)
            && |t.sender.sent| <= |s.sent| + 1
            && (t.done.Some? && t.done.value.Receipt? ==>
                  t.done.value.tx in t.sender.sent && IsMined(t.world, t.done.value.tx))
  {
    var current := Current(tx, s, a);
    if current.Some? {
      var e := current.value;
      var sent := Recorded(s.sent, e);
      WiderOurs(w, s.sent, sent);
      BroadcastKeeps(w, e, a.plan, sent);
      var d := Broadcast(w, e, a.plan);
      ReactRecords(d.world, s.(envelope := Some(e), sent := sent), e, d.error, a);
    }
  }

  /** With any endpoints: whatever of ours is pooled or mined was recorded, and a receipt is for a recorded hash. */
  lemma {:induction false} EverySendIsRecorded(tx: Request, s: Sender, w: World, tape: seq<Answers>, endpoints: nat)
    requires endpoints > 0 && TapeFits(tape, endpoints) && |s.sent| + |tape| <= MAX_SEND_ATTEMPTS
    requires WellFormed(w) && OursWithin(w, s.sent)
    ensures var r := Send(tx, s, w, tape, endpoints);
            && WellFormed(r.world) && OursWithin(r.world, r.sent)
            && (r.outcome.Receipt? ==> r.outcome.tx in r.sent && IsMined(r.world, r.outcome.tx))
    decreases |tape|
  {
    if tape != [] && s.round < SEND_ROUNDS {
      TurnRecords(tx, s, w, tape[0], endpoints);
      var t := OneTurn(tx, s, w, tape[0], endpoints);
      if t.done.None? {
        EverySendIsRecorded(tx, t.sender, t.world, tape[1..], endpoints);
      }
    }
  }

  // ----- at most once

  /**
   `chain` is what was signed at the current nonce.  Nothing else of ours is alive, and the next
   envelope is its top, its next replacement, or a fresh fill with nothing of ours alive at all.
   */
  ghost predicate Inv(w: World, s: Sender, chain: seq<Tx>, market: iset<Fees>) {
    && WellFormed(w) && OursWithin(w, chain) && Ladder(chain, market)
    && (forall tx :: tx in chain ==> tx in s.sent)
    && (forall i :: 0 <= i < |s.sent| ==> s.sent[i].origin.Ours?)
    && s.envelope.None?
    && |chain| <= s.round
    && (if s.replacementFees.None? then chain == [] && s.gasOverride.None?
        else
          && chain != []
          && s.nonceOverride == Some(chain[|chain| - 1].nonce)
          && s.gasOverride == Some(chain[|chain| - 1].gas)
          && s.replacementFees == Some(Doubled(chain[|chain| - 1].fees)))
  }

  ghost predicate Complete(a: Answers) {
    forall i :: 0 <= i < |a.lookups| ==> a.lookups[i].answered
  }

  ghost predicate LossesAreSafe(a: Answers) {
    forall k :: 0 <= k < |a.plan| ==> NoLossAfterHeard(a.plan[k])
  }

  ghost predicate Quoted(tx: Request, a: Answers, market: iset<Fees>) {
    && (tx.fees.Some? ==> tx.fees.value in market)
    && (a.quote.Some? ==> a.quote.value.fees in market)
  }

  lemma CurrentClimbs(tx: Request, s: Sender, w: World, a: Answers, chain: seq<Tx>, market: iset<Fees>)
    requires Inv(w, s, chain, market) && Quoted(tx, a, market) && a.quote.Some?
    ensures Ladder(chain + [Current(tx, s, a).value], market)
  {
  }

  lemma {:induction false} ReactKeeps(
    w: World, s: Sender, error: Option<SendError>, a: Answers, chain: seq<Tx>, market: iset<Fees>)
    returns (next: seq<Tx>)
    requires |s.sent| <= |a.lookups| && forall k :: 0 <= k < |a.polls| ==> |s.sent| <= |a.polls[k]|
    requires Complete(a) && chain != [] && |chain| <= s.round + 1
    requires WellFormed(w) && OursWithin(w, chain) && Ladder(chain, market)
    requires forall tx :: tx in chain ==> tx in s.sent
    requires forall i :: 0 <= i < |s.sent| ==> s.sent[i].origin.Ours?
    requires SaysHeld(error) ==> OursWithin(w, [])
    ensures var t := React(w, s, chain[|chain| - 1], error, a);
            && WellFormed(t.world) && OursWithin(t.world, next) && Ladder(next, market)
            && (t.done.None? ==> Inv(t.world, t.sender, next, market))
  {
    next := chain;
    AwaitKeeps(w, s.sent, a.polls, chain);
    if error.Some? && error.value.Landed? {
      ScanKeeps(w, s.sent, a.lookups, false, chain);
      var k := Scan(w, s.sent, a.lookups, false);
      if k.found.None? {
        NothingFound(w, s.sent, a.lookups, chain);
        next := [];
      } else {
        AwaitKeeps(k.world, s.sent, a.polls, chain);
      }
    } else if SaysHeld(error) {
      next := [];
    }
  }

  lemma {:induction false} TurnKeeps(
    tx: Request, s: Sender, w: World, a: Answers, endpoints: nat, chain: seq<Tx>, market: iset<Fees>)
    returns (next: seq<Tx>)
    requires endpoints > 0 && Fits(a, endpoints) && |s.sent| < MAX_SEND_ATTEMPTS
    requires Complete(a) && Quoted(tx, a, market) && LossesAreSafe(a)
    requires forall f :: f in market ==> SelfReplacing(f)
    requires Inv(w, s, chain, market) && s.round < SEND_ROUNDS
    ensures var t := OneTurn(tx, s, w, a, endpoints);
            && |t.sender.sent| <= |s.sent| + 1
            && WellFormed(t.world) && OursWithin(t.world, next) && Ladder(next, market)
            && (t.done.None? ==> Inv(t.world, t.sender, next, market))
  {
    next := chain;
    if a.quote.Some? {
      var e := Current(tx, s, a).value;
      var longer := chain + [e];
      CurrentClimbs(tx, s, w, a, chain, market);
      WiderOurs(w, chain, longer);
      BroadcastKeeps(w, e, a.plan, longer);
      var d := Broadcast(w, e, a.plan);
      if SaysHeld(d.error) {
        HeldBroadcast(w, longer, a.plan, market);
      }
      next := ReactKeeps(d.world, s.(envelope := Some(e), sent := Recorded(s.sent, e)), d.error, a, longer, market);
    }
  }

  lemma {:induction false} SendKeeps(
    tx: Request, s: Sender, w: World, tape: seq<Answers>, endpoints: nat, chain: seq<Tx>, market: iset<Fees>)
    returns (last: seq<Tx>)
    requires endpoints > 0 && TapeFits(tape, endpoints) && |s.sent| + |tape| <= MAX_SEND_ATTEMPTS
    requires forall k :: 0 <= k < |tape| ==>
               Complete(tape[k]) && Quoted(tx, tape[k], market) && LossesAreSafe(tape[k])
    requires forall f :: f in market ==> SelfReplacing(f)
    requires Inv(w, s, chain, market)
    ensures var r := Send(tx, s, w, tape, endpoints);
            WellFormed(r.world) && OursWithin(r.world, last) && Ladder(last, market)
    decreases |tape|
  {
    last := chain;
    if tape != [] && s.round < SEND_ROUNDS {
      last := TurnKeeps(tx, s, w, tape[0], endpoints, chain, market);
      var t := OneTurn(tx, s, w, tape[0], endpoints);
      if t.done.None? {
        last := SendKeeps(tx, t.sender, t.world, tape[1..], endpoints, last, market);
      }
    }
  }

  /** A full run: nothing of ours at the start, every lookup answered, every fill priced in `market`. */
  ghost predicate Run(tx: Request, w: World, tape: seq<Answers>, endpoints: nat, market: iset<Fees>) {
    && |tape| == MAX_SEND_ATTEMPTS && TapeFits(tape, endpoints)
    && WellFormed(w) && OursWithin(w, [])
    && forall k :: 0 <= k < |tape| ==> Complete(tape[k]) && Quoted(tx, tape[k], market)
  }

  /** At most one envelope of a send is ever mined, however long the network goes on afterwards. */
  lemma AtMostOnce(tx: Request, w: World, tape: seq<Answers>, endpoints: nat, later: seq<EnvStep>, market: iset<Fees>)
    requires endpoints > 0 && Run(tx, w, tape, endpoints, market)
    requires forall k :: 0 <= k < |tape| ==> LossesAreSafe(tape[k])
    requires forall f :: f in market ==> SelfReplacing(f)
    ensures AtMostOneMined(EvolveAll(Send(tx, Initial(tx), w, tape, endpoints).world, later))
  {
    var r := Send(tx, Initial(tx), w, tape, endpoints);
    var chain := SendKeeps(tx, Initial(tx), w, tape, endpoints, [], market);
    EvolveAllKeeps(r.world, later, chain);
    OneNonceOneMined(EvolveAll(r.world, later), chain, if chain == [] then 0 else chain[0].nonce);
  }

  /** With one endpoint, positive fees of at most a quarter of the 128-bit maximum are enough. */
  lemma OrdinaryFeesSendOnce(tx: Request, w: World, tape: seq<Answers>, later: seq<EnvStep>, market: iset<Fees>)
    requires Run(tx, w, tape, 1, market)
    requires forall f :: f in market ==> 0 < FeeCap(f) <= U128_MAX / 4 && 0 < TipCap(f) <= U128_MAX / 4
    ensures AtMostOneMined(EvolveAll(Send(tx, Initial(tx), w, tape, 1).world, later))
  {
    forall f | f in market
      ensures SelfReplacing(f)
    {
      PositiveFeesReplace(f);
    }
    AtMostOnce(tx, w, tape, 1, later, market);
  }
}
