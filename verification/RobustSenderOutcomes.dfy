/**
 What one turn and one whole send do, said by the answers on the tape alone: which probe showed a
 receipt, what the broadcasts answered, how often a round timed out or a nonce was held.
 */
module RobustSenderOutcomes {
  import opened Prelude
  import opened Mempool
  import opened Probing
  import opened RobustSender
  import opened RobustSenderSafety
  import opened RobustSenderHistory

  // ----- one turn

  /**
   A turn whose envelope is on the network ends with the receipt that shows first; without one it
   goes on, and leaves a replacement of the same nonce and gas at twice the fees due.
   */
  ghost predicate Polls(w: World, s: Sender, e: Tx, sent: seq<Tx>, polls: seq<seq<Probe>>, t: Turn)
    requires forall k :: 0 <= k < |polls| ==> |sent| <= |polls[k]|
  {
    && (t.done.Some? <==> exists k, i :: Receipted(w, sent, polls, k, i))
    && (t.done.Some? ==> exists k, i ::
          && FirstReceipt(w, sent, polls, k, i) && t.done == Some(Receipt(sent[i]))
          && t.world == At(w, Until(polls, |sent|, k, i)) && t.sender.sent == sent)
    && (t.done.None? ==>
          && t.world == At(w, Polled(polls, |sent|))
          && t.sender == Sender(None, Some(e.nonce), Some(e.gas), Some(Doubled(e.fees)), sent,
                                s.round + 1, s.contention))
  }

  lemma ConfirmPolls(w: World, s: Sender, e: Tx, a: Answers)
    requires forall k :: 0 <= k < |a.polls| ==> |s.sent| <= |a.polls[k]|
    ensures Polls(w, s, e, s.sent, a.polls, Confirm(w, s, e, a))
  {
    AwaitFindsFirst(w, s.sent, a.polls);
    var r := Await(w, s.sent, a.polls);
    if r.found.Some? {
      var k, i :| && FirstReceipt(w, s.sent, a.polls, k, i)
                  && r == Scanned(At(w, Until(a.polls, |s.sent|, k, i)), Some(s.sent[i]));
      assert Receipted(w, s.sent, a.polls, k, i);
    }
  }

  /** What a turn of envelope `e`, with `sent` recorded, does after delivery `d`: the whole new state, case by case. */
  ghost predicate TurnMeans(d: Delivery, s: Sender, e: Tx, sent: seq<Tx>, a: Answers, t: Turn)
    requires |sent| <= |a.lookups| && forall k :: 0 <= k < |a.polls| ==> |sent| <= |a.polls[k]|
  {
    match d.error
    case None => Polls(d.world, s, e, sent, a.polls, t)
    case Some(Landed(expected, _)) =>
      && ((forall i :: !Hit(d.world, sent, a.lookups, false, i)) ==>
            t == Turn(At(d.world, a.lookups[..|sent|]),
                      Sender(None, expected, None, None, sent, s.round, s.contention), None))
      && ((exists i :: Hit(d.world, sent, a.lookups, false, i)) ==>
            exists i :: FirstHit(d.world, sent, a.lookups, false, i)
                        && Polls(At(d.world, a.lookups[..i + 1]), s, e, sent, a.polls, t))
    case Some(NonceHeld(_)) =>
      if s.contention >= 5 then t.done == Some(StillHeld) && t.world == d.world && t.sender.sent == sent
      else t == Turn(d.world, Sender(None, None, None, None, sent, s.round, s.contention + 1), None)
    case Some(failed) => t.done == Some(BroadcastFailed(failed)) && t.world == d.world && t.sender.sent == sent
  }

  lemma PollsRecord(w: World, s: Sender, r: Sender, e: Tx, polls: seq<seq<Probe>>, t: Turn)
    requires forall k :: 0 <= k < |polls| ==> |r.sent| <= |polls[k]|
    requires r.round == s.round && r.contention == s.contention
    requires Polls(w, r, e, r.sent, polls, t)
    ensures Polls(w, s, e, r.sent, polls, t)
  {
  }

  lemma LandedMeans(w: World, s: Sender, r: Sender, e: Tx, error: SendError, a: Answers)
    requires |r.sent| <= |a.lookups| && forall k :: 0 <= k < |a.polls| ==> |r.sent| <= |a.polls[k]|
    requires r.round == s.round && r.contention == s.contention && error.Landed?
    ensures TurnMeans(Delivery(w, Some(error)), s, e, r.sent, a, React(w, r, e, Some(error), a))
  {
    ScanFindsFirst(w, r.sent, a.lookups, false);
    var k := Scan(w, r.sent, a.lookups, false);
    if k.found.Some? {
      var i :| FirstHit(w, r.sent, a.lookups, false, i)
               && k == Scanned(At(w, a.lookups[..i + 1]), Some(r.sent[i]));
      assert Polls(At(w, a.lookups[..i + 1]), s, e, r.sent, a.polls, Confirm(k.world, r, e, a)) by {
        ConfirmPolls(k.world, r, e, a);
        PollsRecord(k.world, s, r, e, a.polls, Confirm(k.world, r, e, a));
      }
    }
  }

  /** One turn, by what the network answered. */
  lemma TurnExactly(tx: Request, s: Sender, w: World, a: Answers, endpoints: nat, e: Tx, sent: seq<Tx>)
    requires endpoints > 0 && Fits(a, endpoints) && |s.sent| < MAX_SEND_ATTEMPTS
    requires Current(tx, s, a) == Some(e) && sent == if e in s.sent then s.sent else s.sent + [e]
    ensures TurnMeans(Broadcast(w, e, a.plan), s, e, sent, a, OneTurn(tx, s, w, a, endpoints))
  {
    var r := s.(envelope := Some(e), sent := sent);
    var d := Broadcast(w, e, a.plan);
    assert OneTurn(tx, s, w, a, endpoints) == React(d.world, r, e, d.error, a);
    if d.error.None? {
      ConfirmPolls(d.world, r, e, a);
      PollsRecord(d.world, s, r, e, a.polls, Confirm(d.world, r, e, a));
    } else if d.error.value.Landed? {
      LandedMeans(d.world, s, r, e, d.error.value, a);
    }
  }

  // ----- whole sends

  /** A round that timed out: the envelope arrived and no receipt showed. */
  predicate TimedOut(g: Signing) { g.arrived && g.done.None? }

  predicate Contended(g: Signing) { g.error.Some? && g.error.value.NonceHeld? }

  function Count(h: seq<Signing>, p: Signing -> bool): nat {
    if h == [] then 0 else (if p(h[0]) then 1 else 0) + Count(h[1..], p)
  }

  /** How one turn moves the two counters, and which outcomes it can have. */
  ghost predicate Moves(s: Sender, g: Signing, t: Turn) {
    && (t.done.None? ==>
          && t.sender.envelope.None?
          && t.sender.round == s.round + (if TimedOut(g) then 1 else 0)
          && t.sender.contention == s.contention + (if Contended(g) then 1 else 0))
    && (t.done.Some? ==> (g.arrived <==> t.done.value.Receipt?))
    && (Contended(g) ==> !g.arrived && (t.done.Some? <==> s.contention >= 5))
    && (t.done.Some? && !g.arrived ==>
          && g.error.Some?
          && t.done.value == if g.error.value.NonceHeld? then StillHeld else BroadcastFailed(g.error.value))
    && (t.done.Some? && t.done.value.BroadcastFailed? ==> g.error.value.Failed?)
  }

  lemma TurnMoves(tx: Request, s: Sender, w: World, a: Answers, endpoints: nat)
    requires endpoints > 0 && Fits(a, endpoints) && |s.sent| < MAX_SEND_ATTEMPTS
    requires Current(tx, s, a).Some?
    ensures Moves(s, Signs(tx, s, w, a, endpoints), OneTurn(tx, s, w, a, endpoints))
  {
    var e := Current(tx, s, a).value;
    TurnExactly(tx, s, w, a, endpoints, e, Recorded(s.sent, e));
  }

  ghost predicate GoesOn(h: seq<Signing>) {
    forall i :: 0 <= i < |h| ==> h[i].done.None?
  }

  /** The outcome of a send, read off its turns, when `round` and `contention` are where its counters began. */
  ghost predicate Ended(round: nat, contention: nat, h: seq<Signing>, tape: seq<Answers>, outcome: Outcome) {
    && |h| <= |tape|
    && (outcome.NoReceipt? <==> GoesOn(h) && (|h| == |tape| || round + Count(h, TimedOut) >= 3))
    && (outcome.StillHeld? <==> contention + Count(h, Contended) == 6)
    && (outcome.FillFailed? ==> GoesOn(h) && |h| < |tape| && tape[|h|].quote.None?)
    && (outcome.Receipt? || outcome.BroadcastFailed? || outcome.StillHeld? ==>
          h != [] && GoesOn(h[..|h| - 1]) && h[|h| - 1].done == Some(outcome))
    && (outcome.Receipt? ==> h[|h| - 1].arrived)
    && (outcome.BroadcastFailed? ==> h[|h| - 1].error == Some(outcome.error) && outcome.error.Failed?)
  }

  lemma LastTurn(s: Sender, g: Signing, t: Turn, tape: seq<Answers>)
    requires tape != [] && s.round < 3 && s.contention <= 5 && Moves(s, g, t) && g.done == t.done && t.done.Some?
    ensures Ended(s.round, s.contention, [g], tape, t.done.value)
  {
    assert [g][1..] == [] && [g][..0] == [];
    assert [g][0] == g;
  }

  lemma EarlierTurn(s: Sender, g: Signing, t: Turn, h: seq<Signing>, tape: seq<Answers>, outcome: Outcome)
    requires tape != [] && s.round < 3 && s.contention <= 5 && Moves(s, g, t) && g.done == t.done && t.done.None?
    requires Ended(t.sender.round, t.sender.contention, h, tape[1..], outcome)
    ensures Ended(s.round, s.contention, [g] + h, tape, outcome)
  {
    var all := [g] + h;
    assert all[1..] == h;
    assert GoesOn(all) <==> GoesOn(h) by {
      assert forall i :: 0 <= i < |h| ==> h[i] == all[i + 1];
    }
    if h != [] {
      var front := h[..|h| - 1];
      assert all[..|all| - 1] == [g] + front;
      assert forall i :: 0 <= i < |front| ==> front[i] == ([g] + front)[i + 1];
    }
  }

  lemma {:induction false} SendEnds(tx: Request, s: Sender, w: World, tape: seq<Answers>, endpoints: nat)
    requires endpoints > 0 && TapeFits(tape, endpoints) && |s.sent| + |tape| <= MAX_SEND_ATTEMPTS
    requires s.envelope.None? && s.round <= 3 && s.contention <= 5
    ensures Ended(s.round, s.contention, History(tx, s, w, tape, endpoints), tape,
                  Send(tx, s, w, tape, endpoints).outcome)
    decreases |tape|
  {
    if History(tx, s, w, tape, endpoints) != [] {
      TurnMoves(tx, s, w, tape[0], endpoints);
      var g := Signs(tx, s, w, tape[0], endpoints);
      var t := OneTurn(tx, s, w, tape[0], endpoints);
      if t.done.Some? {
        LastTurn(s, g, t, tape);
      } else {
        TurnLeaves(tx, s, w, tape[0], endpoints);
        SendEnds(tx, t.sender, t.world, tape[1..], endpoints);
        EarlierTurn(s, g, t, History(tx, t.sender, t.world, tape[1..], endpoints), tape,
                    Send(tx, t.sender, t.world, tape[1..], endpoints).outcome);
      }
    }
  }

  /**
   How a send ends.  Without a receipt exactly when every turn went on and three rounds timed out or
   all sixteen turns were used; on a held nonce exactly at the sixth such reply; on a failed broadcast
   only for an error that tells nothing; on a failed fill only when the quote is missing; otherwise with
   the receipt its last turn saw.
   */
  lemma OutcomeExactly(tx: Request, w: World, tape: seq<Answers>, endpoints: nat)
    requires endpoints > 0 && TapeFits(tape, endpoints) && |tape| == MAX_SEND_ATTEMPTS
    ensures var h := History(tx, Initial(tx), w, tape, endpoints);
            var outcome := Send(tx, Initial(tx), w, tape, endpoints).outcome;
            && (outcome.NoReceipt? <==> GoesOn(h) && (|h| == 16 || Count(h, TimedOut) >= 3))
            && (outcome.StillHeld? <==> Count(h, Contended) == 6)
            && (outcome.FillFailed? ==> GoesOn(h) && |h| < 16 && tape[|h|].quote.None?)
            && (outcome.BroadcastFailed? ==>
                  h != [] && h[|h| - 1].error == Some(outcome.error) && !Telling(outcome.error))
            && (outcome.Receipt? ==> h != [] && h[|h| - 1].arrived && h[|h| - 1].done == Some(outcome))
  {
    SendEnds(tx, Initial(tx), w, tape, endpoints);
  }

  // ----- fills made anew

  /** What a fill made anew holds: the request's own fields, and the quote's where it leaves them open. */
  ghost predicate FilledFrom(e: Tx, tx: Request, nonce: Option<nat>, quote: Option<Quote>) {
    && quote.Some?
    && e.nonce == (if nonce.Some? then nonce.value else quote.value.nonce)
    && e.gas == (if tx.gas.Some? then tx.gas.value else quote.value.gas)
    && e.fees == (if tx.fees.Some? then tx.fees.value else quote.value.fees)
  }

  /** The nonce a landed rejection named, if that was the answer. */
  function Named(error: Option<SendError>): Option<nat> {
    if error.Some? && error.value.Landed? then error.value.expected else None
  }

  /** Between turns there is no envelope, and nothing is carried over unless a replacement is due. */
  predicate Between(s: Sender) {
    s.envelope.None? && (s.replacementFees.None? ==> s.gasOverride.None?)
  }

  lemma TurnCarries(tx: Request, s: Sender, w: World, a: Answers, endpoints: nat)
    requires endpoints > 0 && Fits(a, endpoints) && |s.sent| < MAX_SEND_ATTEMPTS
    requires Current(tx, s, a).Some?
    ensures var t := OneTurn(tx, s, w, a, endpoints);
            t.done.None? ==>
              && Between(t.sender)
              && (t.sender.replacementFees.None? ==>
                    t.sender.nonceOverride == Named(Signs(tx, s, w, a, endpoints).error))
  {
  }

  lemma FilledNow(tx: Request, s: Sender, w: World, a: Answers, endpoints: nat)
    requires endpoints > 0 && Fits(a, endpoints) && |s.sent| < MAX_SEND_ATTEMPTS
    requires Between(s) && Current(tx, s, a).Some?
    ensures var g := Signs(tx, s, w, a, endpoints);
            g.anew ==> FilledFrom(g.tx, tx, s.nonceOverride, a.quote)
  {
  }

  lemma {:induction false} FilledAnew(
    tx: Request, s: Sender, w: World, tape: seq<Answers>, endpoints: nat, i: nat)
    requires endpoints > 0 && TapeFits(tape, endpoints) && |s.sent| + |tape| <= MAX_SEND_ATTEMPTS
    requires Between(s)
    requires var h := History(tx, s, w, tape, endpoints); i < |h| && h[i].anew
    ensures var h := History(tx, s, w, tape, endpoints);
            && i < |tape|
            && FilledFrom(h[i].tx, tx, if i == 0 then s.nonceOverride else Named(h[i - 1].error), tape[i].quote)
    decreases |tape|
  {
    FilledNow(tx, s, w, tape[0], endpoints);
    TurnCarries(tx, s, w, tape[0], endpoints);
    if i > 0 {
      var t := OneTurn(tx, s, w, tape[0], endpoints);
      var h, rest := History(tx, s, w, tape, endpoints), History(tx, t.sender, t.world, tape[1..], endpoints);
      assert h[1..] == rest && h[0] == Signs(tx, s, w, tape[0], endpoints);
      FilledAnew(tx, t.sender, t.world, tape[1..], endpoints, i - 1);
    }
  }

  /**
   In every run, a fill made anew keeps the gas and fees the request fixes.  The first also keeps its
   nonce; a later one takes the nonce that the rejection before it named; a quote supplies the rest.
   */
  lemma FillExactly(tx: Request, w: World, tape: seq<Answers>, endpoints: nat, i: nat)
    requires endpoints > 0 && TapeFits(tape, endpoints) && |tape| <= MAX_SEND_ATTEMPTS
    requires var h := History(tx, Initial(tx), w, tape, endpoints); i < |h| && h[i].anew
    ensures var h := History(tx, Initial(tx), w, tape, endpoints);
            && i < |tape|
            && FilledFrom(h[i].tx, tx, if i == 0 then tx.nonce else Named(h[i - 1].error), tape[i].quote)
  {
    FilledAnew(tx, Initial(tx), w, tape, endpoints, i);
  }
}
