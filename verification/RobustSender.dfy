/**
 The robust transaction sender: fill, broadcast, confirm; on a timeout, replace the envelope by one
 of the same nonce at twice the fees; re-resolve the nonce on a conflict; back off when it is held.

 Everything the network does is on a tape: one `Answers` per loop iteration.  Each contact lists
 what the environment did before it and whether the reply got through.  The functions say what
 the sender computes from the tape; the methods are the source's loops, proved against them.
 */
module RobustSender {
  import opened Prelude
  import opened Mempool
  import opened Probing
  import Retry

  const SEND_ROUNDS: nat := 3
  const NONCE_CONTENTION_ATTEMPTS: nat := 5
  const MAX_SEND_ATTEMPTS: nat := 16

  /**
   A reply heard (with the node's nonce report), or lost after or before taking effect.  Each
   carries whether the text of an error would pass the retry test, which reads the text alone.
   */
  datatype Reply =
    | Heard(expected: Option<nat>, transient: bool)
    | Lost(transient: bool)
    | Refused(transient: bool)

  datatype Contact = Contact(before: seq<EnvStep>, reply: Reply)

  datatype SendError =
    | Landed(expected: Option<nat>, transient: bool)
    | NonceHeld(transient: bool)
    | Failed(transient: bool)

  datatype Quote = Quote(nonce: nat, gas: nat, fees: Fees)

  datatype Request = Request(nonce: Option<nat>, gas: Option<nat>, fees: Option<Fees>)

  datatype Answers = Answers(
    quote: Option<Quote>,
    plan: seq<seq<Contact>>,
    lookups: seq<Probe>,
    polls: seq<seq<Probe>>)

  /** Six broadcast attempts of one contact per endpoint, at least one poll, and a probe for every hash ever sent. */
  ghost predicate Fits(a: Answers, endpoints: nat) {
    && |a.plan| == Retry.FALLBACK_ATTEMPTS
    && (forall k :: 0 <= k < |a.plan| ==> |a.plan[k]| == endpoints)
    && |a.lookups| == MAX_SEND_ATTEMPTS
    && a.polls != []
    && (forall k :: 0 <= k < |a.polls| ==> |a.polls[k]| == MAX_SEND_ATTEMPTS)
  }

  // ----- requests and fees

  function Doubled(f: Fees): Fees {
    match f
    case Legacy(price) => Legacy(Min(2 * price, U128_MAX))
    case Dynamic(cap, tip) => Dynamic(Min(2 * cap, U128_MAX), Min(2 * tip, U128_MAX))
  }

  function RoundRequest(tx: Request, nonce: Option<nat>, gas: Option<nat>, fees: Option<Fees>): Request {
    Request(nonce, if gas.Some? then gas else tx.gas, if fees.Some? then fees else tx.fees)
  }

  /** Filling keeps every field the request already fixes. */
  function Filled(r: Request, q: Quote): Tx {
    Tx(Ours,
       if r.nonce.Some? then r.nonce.value else q.nonce,
       if r.gas.Some? then r.gas.value else q.gas,
       if r.fees.Some? then r.fees.value else q.fees)
  }

  // ----- broadcast

  function Offer(w: World, tx: Tx, c: Contact): (World, Option<SendError>) {
    var w := EvolveAll(w, c.before);
    match c.reply
    case Refused(transient) => (w, Some(Failed(transient)))
    case Lost(transient) => (Admit(w, tx), Some(Failed(transient)))
    case Heard(expected, transient) =>
      match Judge(w, tx)
      case Accepted => (Admit(w, tx), None)
      case Underpriced => (w, Some(NonceHeld(transient)))
      case _ => (w, Some(Landed(expected, transient)))
  }

  datatype Attempted = Attempted(world: World, accepted: bool, errors: seq<SendError>)

  /** The bytes offered to every endpoint in turn. */
  function Attempt(w: World, tx: Tx, contacts: seq<Contact>): (a: Attempted)
    ensures a.accepted || |a.errors| == |contacts|
  {
    if contacts == [] then Attempted(w, false, []) else
    var a := Attempt(w, tx, contacts[..|contacts| - 1]);
    var (w, error) := Offer(a.world, tx, contacts[|contacts| - 1]);
    if error.None? then Attempted(w, true, a.errors) else Attempted(w, a.accepted, a.errors + [error.value])
  }

  predicate Telling(e: SendError) { e.Landed? || e.NonceHeld? }

  /** The first classifiable rejection, else the first error. */
  function Pick(errors: seq<SendError>, i: nat): SendError
    requires errors != []
    decreases |errors| - i
  {
    if i >= |errors| then errors[0] else if Telling(errors[i]) then errors[i] else Pick(errors, i + 1)
  }

  datatype Delivery = Delivery(world: World, error: Option<SendError>)

  function Broadcast(w: World, tx: Tx, plan: seq<seq<Contact>>): Delivery
    requires plan != [] && forall k :: 0 <= k < |plan| ==> plan[k] != []
    decreases |plan|
  {
    var a := Attempt(w, tx, plan[0]);
    if a.accepted then Delivery(a.world, None) else
    var e := Pick(a.errors, 0);
    if |plan| > 1 && e.transient then Broadcast(a.world, tx, plan[1..]) else Delivery(a.world, Some(e))
  }

  // ----- the loop

  datatype Sender = Sender(
    envelope: Option<Tx>,
    nonceOverride: Option<nat>,
    gasOverride: Option<nat>,
    replacementFees: Option<Fees>,
    sent: seq<Tx>,
    round: nat,
    contention: nat)

  datatype Outcome = Receipt(tx: Tx) | FillFailed | StillHeld | BroadcastFailed(error: SendError) | NoReceipt

  datatype Turn = Turn(world: World, sender: Sender, done: Option<Outcome>)

  function Initial(tx: Request): Sender {
    Sender(None, tx.nonce, None, None, [], 0, 0)
  }

  function Recorded(sent: seq<Tx>, e: Tx): seq<Tx> {
    if e in sent then sent else sent + [e]
  }

  /** Give up the current nonce: the next envelope is filled afresh. */
  function Abandoned(s: Sender, nonce: Option<nat>): Sender {
    s.(envelope := None, nonceOverride := nonce, gasOverride := None, replacementFees := None)
  }

  function Replacing(s: Sender, e: Tx): Sender {
    s.(envelope := None, nonceOverride := Some(e.nonce), gasOverride := Some(e.gas),
       replacementFees := Some(Doubled(e.fees)), round := s.round + 1)
  }

  function Current(tx: Request, s: Sender, a: Answers): Option<Tx> {
    if s.envelope.Some? then s.envelope
    else if a.quote.None? then None
    else Some(Filled(RoundRequest(tx, s.nonceOverride, s.gasOverride, s.replacementFees), a.quote.value))
  }

  function Confirm(w: World, s: Sender, e: Tx, a: Answers): Turn
    requires forall k :: 0 <= k < |a.polls| ==> |s.sent| <= |a.polls[k]|
  {
    var r := Await(w, s.sent, a.polls);
    if r.found.Some? then Turn(r.world, s, Some(Receipt(r.found.value)))
    else Turn(r.world, Replacing(s, e), None)
  }

  function React(w: World, s: Sender, e: Tx, error: Option<SendError>, a: Answers): Turn
    requires |s.sent| <= |a.lookups| && forall k :: 0 <= k < |a.polls| ==> |s.sent| <= |a.polls[k]|
  {
    match error
    case None => Confirm(w, s, e, a)
    case Some(Landed(expected, _)) =>
      var k := Scan(w, s.sent, a.lookups, false);
      if k.found.None? then Turn(k.world, Abandoned(s, expected), None) else Confirm(k.world, s, e, a)
    case Some(NonceHeld(_)) =>
      if s.contention >= NONCE_CONTENTION_ATTEMPTS then Turn(w, s, Some(StillHeld))
      else Turn(w, Abandoned(s, None).(contention := s.contention + 1), None)
    case Some(failed) => Turn(w, s, Some(BroadcastFailed(failed)))
  }

  function OneTurn(tx: Request, s: Sender, w: World, a: Answers, endpoints: nat): Turn
    requires endpoints > 0 && Fits(a, endpoints) && |s.sent| < MAX_SEND_ATTEMPTS
  {
    var current := Current(tx, s, a);
    if current.None? then Turn(w, s, Some(FillFailed)) else
    var e := current.value;
    var s := s.(envelope := Some(e), sent := Recorded(s.sent, e));
    var d := Broadcast(w, e, a.plan);
    React(d.world, s, e, d.error, a)
  }

  datatype Final = Final(world: World, sent: seq<Tx>, outcome: Outcome)

  ghost predicate TapeFits(tape: seq<Answers>, endpoints: nat) {
    forall k :: 0 <= k < |tape| ==> Fits(tape[k], endpoints)
  }

  function Send(tx: Request, s: Sender, w: World, tape: seq<Answers>, endpoints: nat): Final
    requires endpoints > 0 && TapeFits(tape, endpoints) && |s.sent| + |tape| <= MAX_SEND_ATTEMPTS
    decreases |tape|
  {
    if tape == [] || s.round >= SEND_ROUNDS then Final(w, s.sent, NoReceipt) else
    var t := OneTurn(tx, s, w, tape[0], endpoints);
    if t.done.Some? then Final(t.world, t.sender.sent, t.done.value)
    else Send(tx, t.sender, t.world, tape[1..], endpoints)
  }

  // ----- the source's loops

  method BroadcastRaw(w: World, tx: Tx, plan: seq<seq<Contact>>) returns (d: Delivery)
    requires plan != [] && forall k :: 0 <= k < |plan| ==> plan[k] != []
    ensures d == Broadcast(w, tx, plan)
  {
    var world := w;
    var attempt := 0;
    while true
      invariant 0 <= attempt < |plan|
      invariant Broadcast(w, tx, plan) == Broadcast(world, tx, plan[attempt..])
      decreases |plan| - attempt
    {
      var contacts := plan[attempt];
      var errors := [];
      var accepted := false;
      ghost var start := world;
      for i := 0 to |contacts|
        invariant Attempted(world, accepted, errors) == Attempt(start, tx, contacts[..i])
      {
        assert contacts[..i + 1][..i] == contacts[..i];
        var (after, error) := Offer(world, tx, contacts[i]);
        world := after;
        if error.None? {
          accepted := true;
        } else {
          errors := errors + [error.value];
        }
      }
      assert contacts[..|contacts|] == contacts;
      if accepted {
        return Delivery(world, None);
      }
      var error := Pick(errors, 0);
      if attempt + 1 < |plan| && error.transient {
        assert plan[attempt..][1..] == plan[attempt + 1..];
        attempt := attempt + 1;
      } else {
        return Delivery(world, Some(error));
      }
    }
  }

  /** The arms after a broadcast: confirm, look up, back off or fail. */
  method ReactTo(w: World, s: Sender, e: Tx, error: Option<SendError>, a: Answers) returns (t: Turn)
    requires |s.sent| <= |a.lookups| && forall k :: 0 <= k < |a.polls| ==> |s.sent| <= |a.polls[k]|
    ensures t == React(w, s, e, error, a)
  {
    var world := w;
    match error {
      case None =>
      case Some(Landed(expected, _)) =>
        var known := ScanAll(world, s.sent, a.lookups, false);
        world := known.world;
        if known.found.None? {
          return Turn(world, Abandoned(s, expected), None);
        }
      case Some(NonceHeld(_)) =>
        if s.contention >= NONCE_CONTENTION_ATTEMPTS {
          return Turn(world, s, Some(StillHeld));
        }
        return Turn(world, Abandoned(s, None).(contention := s.contention + 1), None);
      case Some(failed) =>
        return Turn(world, s, Some(BroadcastFailed(failed)));
    }
    var receipt := WaitReceiptAny(world, s.sent, a.polls);
    if receipt.found.Some? {
      return Turn(receipt.world, s, Some(Receipt(receipt.found.value)));
    }
    return Turn(receipt.world, Replacing(s, e), None);
  }

  /** One pass of the loop: fill if there is no envelope, record, broadcast, react. */
  method TakeTurn(tx: Request, sender: Sender, w: World, a: Answers, endpoints: nat) returns (t: Turn)
    requires endpoints > 0 && Fits(a, endpoints) && |sender.sent| < MAX_SEND_ATTEMPTS
    ensures t == OneTurn(tx, sender, w, a, endpoints) && |t.sender.sent| <= |sender.sent| + 1
  {
    var s := sender;
    if s.envelope.None? {
      if a.quote.None? {
        return Turn(w, s, Some(FillFailed));
      }
      var request := RoundRequest(tx, s.nonceOverride, s.gasOverride, s.replacementFees);
      s := s.(envelope := Some(Filled(request, a.quote.value)));
    }
    var e := s.envelope.value;
    if e !in s.sent {
      s := s.(sent := s.sent + [e]);
    }
    var d := BroadcastRaw(w, e, a.plan);
    t := ReactTo(d.world, s, e, d.error, a);
  }

  method SendTxRobust(tx: Request, start: World, tape: seq<Answers>, endpoints: nat) returns (r: Final)
    requires endpoints > 0 && |tape| == MAX_SEND_ATTEMPTS && TapeFits(tape, endpoints)
    ensures r == Send(tx, Initial(tx), start, tape, endpoints)
  {
    var world := start;
    var s := Initial(tx);
    for k := 0 to MAX_SEND_ATTEMPTS
      invariant |s.sent| <= k
      invariant Send(tx, Initial(tx), start, tape, endpoints) == Send(tx, s, world, tape[k..], endpoints)
    {
      if s.round >= SEND_ROUNDS {
        break;
      }
      assert tape[k..][0] == tape[k] && tape[k..][1..] == tape[k + 1..];
      var t := TakeTurn(tx, s, world, tape[k], endpoints);
      world, s := t.world, t.sender;
      if t.done.Some? {
        return Final(world, s.sent, t.done.value);
      }
    }
    return Final(world, s.sent, NoReceipt);
  }
}
