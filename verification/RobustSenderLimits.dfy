/**
 Where the at-most-once promise ends.  With two endpoints a "nonce held" rejection from one can
 hide that the other took the envelope and lost its reply; with fees that do not clear their own
 replacement minimum the held nonce can be our own.  Either way the sender abandons a live
 envelope.  The two conditions are exactly what separates safe from unsafe configurations.
 */
module RobustSenderLimits {
  import opened Prelude
  import opened Mempool
  import opened Probing
  import opened RobustSender
  import opened RobustSenderSafety
  import Retry

  const ANY := Request(None, None, None)
  const HEARD := Contact([], Heard(None, false))
  const QUIET := Contact([], Refused(false))

  function Quiet(n: nat): seq<Contact> { seq(n, _ => QUIET) }

  function Probes(): seq<Probe> { seq(MAX_SEND_ATTEMPTS, _ => Probe([], true)) }

  /** One iteration: a quote, what the first attempt meets, and no receipt within the timeout. */
  function Scripted(quote: Option<Quote>, contacts: seq<Contact>): Answers {
    Answers(quote, [contacts] + seq(Retry.FALLBACK_ATTEMPTS - 1, _ => contacts), Probes(), [Probes()])
  }

  function Taking(nonce: nat, f: Fees, endpoints: nat): Answers
    requires endpoints > 0
  {
    Scripted(Some(Quote(nonce, 0, f)), [HEARD] + Quiet(endpoints - 1))
  }

  /** Iterations in which filling fails, so the send ends. */
  function Stops(n: nat, endpoints: nat): seq<Answers> {
    seq(n, _ => Scripted(None, Quiet(endpoints)))
  }

  function Envelope(nonce: nat, f: Fees): Tx { Tx(Ours, nonce, 0, f) }

  function OneLive(e: Tx): World { World([], map[0 := e]) }

  lemma QuietStep(w: World, tx: Tx, contacts: seq<Contact>)
    ensures var a := Attempt(w, tx, contacts);
            Attempt(w, tx, contacts + [QUIET]) == Attempted(a.world, a.accepted, a.errors + [Failed(false)])
  {
    var all := contacts + [QUIET];
    assert all[..|all| - 1] == contacts && all[|all| - 1] == QUIET;
    assert EvolveAll(Attempt(w, tx, contacts).world, []) == Attempt(w, tx, contacts).world;
  }

  /** Endpoints that refuse the connection add errors and nothing else. */
  lemma {:induction false} QuietEndpoints(w: World, tx: Tx, contacts: seq<Contact>, n: nat)
    ensures var a := Attempt(w, tx, contacts);
            var b := Attempt(w, tx, contacts + Quiet(n));
            b.world == a.world && b.accepted == a.accepted && a.errors <= b.errors
  {
    if n == 0 {
      assert contacts + Quiet(0) == contacts;
    } else {
      QuietEndpoints(w, tx, contacts, n - 1);
      assert contacts + Quiet(n) == (contacts + Quiet(n - 1)) + [QUIET];
      QuietStep(w, tx, contacts + Quiet(n - 1));
    }
  }

  lemma {:induction false} NothingMinedYet(w: World, txs: seq<Tx>, probes: seq<Probe>)
    requires |txs| <= |probes| && w.mined == []
    requires forall i :: 0 <= i < |probes| ==> probes[i].before == []
    ensures Scan(w, txs, probes, true) == Scanned(w, None)
    decreases |txs|
  {
    if txs != [] {
      assert EvolveAll(w, []) == w;
      NothingMinedYet(w, txs[1..], probes[1..]);
    }
  }

  /** An uncontested nonce: the envelope is pooled, no receipt comes, and a replacement is due. */
  lemma TakingTurn(s: Sender, w: World, nonce: nat, f: Fees, endpoints: nat)
    requires endpoints > 0 && |s.sent| < MAX_SEND_ATTEMPTS && s.envelope.None? && w.mined == []
    requires var e := Current(ANY, s, Taking(nonce, f, endpoints)).value; Judge(w, e).Accepted?
    ensures Fits(Taking(nonce, f, endpoints), endpoints)
    ensures var e := Current(ANY, s, Taking(nonce, f, endpoints)).value;
            OneTurn(ANY, s, w, Taking(nonce, f, endpoints), endpoints)
            == Turn(Admit(w, e), Replacing(s.(envelope := Some(e), sent := Recorded(s.sent, e)), e), None)
  {
    var a := Taking(nonce, f, endpoints);
    var e := Current(ANY, s, a).value;
    SingleContact(w, e, HEARD);
    assert EvolveAll(w, []) == w;
    QuietEndpoints(w, e, [HEARD], endpoints - 1);
    assert Broadcast(w, e, a.plan) == Delivery(Admit(w, e), None);
    NothingMinedYet(Admit(w, e), Recorded(s.sent, e), Probes());
    assert a.polls[1..] == [];
  }

  /** One envelope alive at nonce 0 and a fresh fill at nonce 1: two of ours are pooled. */
  lemma SecondEnvelope(s: Sender, e: Tx, f: Fees, stops: nat, endpoints: nat)
    requires endpoints > 0 && |s.sent| + stops + 1 <= MAX_SEND_ATTEMPTS && stops > 0
    requires e.nonce == 0 && s.round < SEND_ROUNDS
    requires s == Abandoned(s, None)
    ensures var tape := [Taking(1, f, endpoints)] + Stops(stops, endpoints);
            && TapeFits(tape, endpoints)
            && Send(ANY, s, OneLive(e), tape, endpoints).world == World([], map[0 := e, 1 := Envelope(1, f)])
  {
    var tape := [Taking(1, f, endpoints)] + Stops(stops, endpoints);
    TakingTurn(s, OneLive(e), 1, f, endpoints);
    var t := OneTurn(ANY, s, OneLive(e), tape[0], endpoints);
    assert tape[1..] == Stops(stops, endpoints);
    assert t.world.pool == map[0 := e, 1 := Envelope(1, f)];
    var after := Send(ANY, t.sender, t.world, tape[1..], endpoints);
    assert after.world == t.world;
  }

  lemma BothMine(e: Tx, f: Fees)
    requires e.origin.Ours? && e.nonce == 0
    ensures !AtMostOneMined(EvolveAll(World([], map[0 := e, 1 := Envelope(1, f)]), [Mine, Mine]))
  {
    var w := World([], map[0 := e, 1 := Envelope(1, f)]);
    var w1 := Evolve(w, Mine);
    assert w1.mined == [e] && 1 in w1.pool && w1.pool[1] == Envelope(1, f);
    var w2 := Evolve(w1, Mine);
    assert w2.mined == [e, Envelope(1, f)];
    assert [Mine, Mine][1..] == [Mine] && [Mine][1..] == [];
    assert EvolveAll(w, [Mine, Mine]) == w2;
    assert w2.mined[0].origin.Ours? && w2.mined[1].origin.Ours?;
  }

  // ----- refuting safety

  /** In no run through `endpoints` endpoints, priced from `market`, are two envelopes mined. */
  ghost predicate Safe(endpoints: nat, market: iset<Fees>)
    requires endpoints > 0
  {
    forall tx: Request, w: World, tape: seq<Answers>, later: seq<EnvStep> | Run(tx, w, tape, endpoints, market) ::
      AtMostOneMined(EvolveAll(Send(tx, Initial(tx), w, tape, endpoints).world, later))
  }

  ghost predicate Script(a: Answers, f: Fees) {
    Complete(a) && (a.quote.Some? ==> a.quote.value.fees == f)
  }

  /** A scripted tape that ends with two of ours pooled refutes safety. */
  lemma {:induction false} Refutes(w: World, tape: seq<Answers>, e: Tx, f: Fees, endpoints: nat, market: iset<Fees>)
    requires endpoints > 0 && f in market && |tape| == MAX_SEND_ATTEMPTS
    requires TapeFits(tape, endpoints) && forall k :: 0 <= k < |tape| ==> Script(tape[k], f)
    requires WellFormed(w) && OursWithin(w, []) && e.origin.Ours? && e.nonce == 0
    requires Send(ANY, Initial(ANY), w, tape, endpoints).world == World([], map[0 := e, 1 := Envelope(1, f)])
    ensures !Safe(endpoints, market)
  {
    assert Run(ANY, w, tape, endpoints, market);
    BothMine(e, f);
  }

  lemma ScriptsFit(f: Fees, nonce: nat, endpoints: nat, n: nat)
    requires endpoints > 0
    ensures Script(Taking(nonce, f, endpoints), f)
    ensures forall k :: 0 <= k < n ==> Script(Stops(n, endpoints)[k], f)
  {
  }

  // ----- two endpoints

  /** The first endpoint rejects; the blocker expires; the second takes the bytes and loses its reply. */
  function Hiding(f: Fees, endpoints: nat): Answers
    requires endpoints >= 2
  {
    Scripted(Some(Quote(0, 0, f)), [HEARD, Contact([Drop(0)], Lost(true))] + Quiet(endpoints - 2))
  }

  const BLOCKED := World([], map[0 := Tx(Foreign(0), 0, 0, Legacy(U128_MAX))])

  /** The second endpoint's lost acceptance is outvoted by the first one's rejection. */
  lemma HidingBroadcast(f: Fees, endpoints: nat)
    requires endpoints >= 2
    ensures Fits(Hiding(f, endpoints), endpoints)
    ensures Broadcast(BLOCKED, Envelope(0, f), Hiding(f, endpoints).plan)
            == Delivery(OneLive(Envelope(0, f)), Some(NonceHeld(false)))
  {
    var e := Envelope(0, f);
    var lost := Contact([Drop(0)], Lost(true));
    assert EvolveAll(BLOCKED, []) == BLOCKED;
    SingleContact(BLOCKED, e, HEARD);
    assert EvolveAll(BLOCKED, [Drop(0)]) == Evolve(BLOCKED, Drop(0));
    assert [HEARD, lost][..1] == [HEARD];
    var b := Attempt(BLOCKED, e, [HEARD, lost]);
    assert b.world.pool == map[0 := e] && !b.accepted && b.errors == [NonceHeld(false), Failed(true)];
    QuietEndpoints(BLOCKED, e, [HEARD, lost], endpoints - 2);
  }

  lemma HidingTurn(f: Fees, endpoints: nat)
    requires endpoints >= 2
    ensures Fits(Hiding(f, endpoints), endpoints)
    ensures var t := OneTurn(ANY, Initial(ANY), BLOCKED, Hiding(f, endpoints), endpoints);
            && t.world == OneLive(Envelope(0, f)) && t.done.None?
            && t.sender == Abandoned(t.sender, None) && t.sender.sent == [Envelope(0, f)] && t.sender.round == 0
  {
    HidingBroadcast(f, endpoints);
  }

  lemma HidingSend(f: Fees, endpoints: nat)
    requires endpoints >= 2
    ensures var tape := [Hiding(f, endpoints)] + ([Taking(1, f, endpoints)] + Stops(14, endpoints));
            && TapeFits(tape, endpoints)
            && Send(ANY, Initial(ANY), BLOCKED, tape, endpoints).world
               == World([], map[0 := Envelope(0, f), 1 := Envelope(1, f)])
  {
    var rest := [Taking(1, f, endpoints)] + Stops(14, endpoints);
    var tape := [Hiding(f, endpoints)] + rest;
    HidingTurn(f, endpoints);
    var t := OneTurn(ANY, Initial(ANY), BLOCKED, tape[0], endpoints);
    SecondEnvelope(t.sender, Envelope(0, f), f, 14, endpoints);
    assert tape[1..] == rest;
  }

  lemma TwoEndpointsUnsafe(f: Fees, endpoints: nat, market: iset<Fees>)
    requires endpoints >= 2 && f in market
    ensures !Safe(endpoints, market)
  {
    var tape := [Hiding(f, endpoints)] + ([Taking(1, f, endpoints)] + Stops(14, endpoints));
    HidingSend(f, endpoints);
    ScriptsFit(f, 1, endpoints, 14);
    assert Script(Hiding(f, endpoints), f);
    Refutes(BLOCKED, tape, Envelope(0, f), f, endpoints, market);
  }

  // ----- fees that do not clear their own minimum

  /** The replacement is refused because of the envelope it should replace, and that one stays alive. */
  lemma OwnNonceHeld(s: Sender, g: Fees, f: Fees, stops: nat)
    requires !Climbs(g) && s.round < SEND_ROUNDS - 1 && stops > 0
    requires s.sent != [] && |s.sent| + stops + 2 <= MAX_SEND_ATTEMPTS && s.contention == 0
    ensures var tape := [Taking(0, f, 1)] + ([Taking(1, f, 1)] + Stops(stops, 1));
            && TapeFits(tape, 1)
            && Send(ANY, Replacing(s, Envelope(0, g)), OneLive(Envelope(0, g)), tape, 1).world
               == World([], map[0 := Envelope(0, g), 1 := Envelope(1, f)])
  {
    var rest := [Taking(1, f, 1)] + Stops(stops, 1);
    var tape := [Taking(0, f, 1)] + rest;
    var w := OneLive(Envelope(0, g));
    var e := Envelope(0, Doubled(g));
    var s' := Replacing(s, Envelope(0, g));
    assert tape[0].plan[0] == [HEARD];
    SingleContact(w, e, HEARD);
    assert EvolveAll(w, []) == w;
    assert Broadcast(w, e, tape[0].plan) == Delivery(w, Some(NonceHeld(false)));
    var t := OneTurn(ANY, s', w, tape[0], 1);
    assert t.world == w && t.done.None? && t.sender == Abandoned(t.sender, None) && t.sender.round == s'.round;
    SecondEnvelope(t.sender, Envelope(0, g), f, stops, 1);
    assert tape[1..] == rest;
  }

  lemma OneReplacement(f: Fees)
    requires !Climbs(f)
    ensures var tape := [Taking(0, f, 1)] + ([Taking(0, f, 1)] + ([Taking(1, f, 1)] + Stops(13, 1)));
            && TapeFits(tape, 1)
            && Send(ANY, Initial(ANY), World([], map[]), tape, 1).world
               == World([], map[0 := Envelope(0, f), 1 := Envelope(1, f)])
  {
    var rest := [Taking(0, f, 1)] + ([Taking(1, f, 1)] + Stops(13, 1));
    var tape := [Taking(0, f, 1)] + rest;
    TakingTurn(Initial(ANY), World([], map[]), 0, f, 1);
    var t := OneTurn(ANY, Initial(ANY), World([], map[]), tape[0], 1);
    assert t.world == OneLive(Envelope(0, f));
    OwnNonceHeld(Initial(ANY).(envelope := Some(Envelope(0, f)), sent := Recorded([], Envelope(0, f))), f, f, 13);
    assert tape[1..] == rest;
  }

  lemma FirstReplacementUnsafe(f: Fees, market: iset<Fees>)
    requires f in market && !Climbs(f)
    ensures !Safe(1, market)
  {
    var tape := [Taking(0, f, 1)] + ([Taking(0, f, 1)] + ([Taking(1, f, 1)] + Stops(13, 1)));
    OneReplacement(f);
    ScriptsFit(f, 0, 1, 13);
    ScriptsFit(f, 1, 1, 13);
    Refutes(World([], map[]), tape, Envelope(0, f), f, 1, market);
  }

  lemma TwoReplacements(f: Fees)
    requires Climbs(f) && !Climbs(Doubled(f))
    ensures var rest := [Taking(0, f, 1)] + ([Taking(1, f, 1)] + Stops(12, 1));
            var tape := [Taking(0, f, 1)] + ([Taking(0, f, 1)] + rest);
            && TapeFits(tape, 1)
            && Send(ANY, Initial(ANY), World([], map[]), tape, 1).world
               == World([], map[0 := Envelope(0, Doubled(f)), 1 := Envelope(1, f)])
  {
    var g := Doubled(f);
    var rest := [Taking(0, f, 1)] + ([Taking(1, f, 1)] + Stops(12, 1));
    var later := [Taking(0, f, 1)] + rest;
    var tape := [Taking(0, f, 1)] + later;
    TakingTurn(Initial(ANY), World([], map[]), 0, f, 1);
    var t := OneTurn(ANY, Initial(ANY), World([], map[]), tape[0], 1);
    assert t.world == OneLive(Envelope(0, f));
    TakingTurn(t.sender, t.world, 0, f, 1);
    var u := OneTurn(ANY, t.sender, t.world, later[0], 1);
    assert u.world == OneLive(Envelope(0, g));
    var s := t.sender.(envelope := Some(Envelope(0, g)), sent := Recorded(t.sender.sent, Envelope(0, g)));
    OwnNonceHeld(s, g, f, 12);
    assert tape[1..] == later && later[1..] == rest;
    assert Send(ANY, t.sender, t.world, later, 1) == Send(ANY, u.sender, u.world, rest, 1);
  }

  lemma SecondReplacementUnsafe(f: Fees, market: iset<Fees>)
    requires f in market && Climbs(f) && !Climbs(Doubled(f))
    ensures !Safe(1, market)
  {
    var tape := [Taking(0, f, 1)] + ([Taking(0, f, 1)] + ([Taking(0, f, 1)] + ([Taking(1, f, 1)] + Stops(12, 1))));
    TwoReplacements(f);
    ScriptsFit(f, 0, 1, 12);
    ScriptsFit(f, 1, 1, 12);
    Refutes(World([], map[]), tape, Envelope(0, Doubled(f)), f, 1, market);
  }

  // ----- lookups nobody answers

  /** The reply is lost, the retry is "already known", and no endpoint answers the lookup. */
  function Unanswered(f: Fees): Answers {
    Answers(Some(Quote(0, 0, f)), [[Contact([], Lost(true))]] + seq(Retry.FALLBACK_ATTEMPTS - 1, _ => [HEARD]),
            seq(MAX_SEND_ATTEMPTS, _ => Probe([], false)), [Probes()])
  }

  lemma UnansweredTurn(f: Fees)
    ensures Fits(Unanswered(f), 1)
    ensures var t := OneTurn(ANY, Initial(ANY), World([], map[]), Unanswered(f), 1);
            && t.world == OneLive(Envelope(0, f)) && t.done.None?
            && t.sender == Abandoned(t.sender, None) && |t.sender.sent| == 1 && t.sender.round == 0
  {
    var empty := World([], map[]);
    var a := Unanswered(f);
    var e := Envelope(0, f);
    var w := OneLive(e);
    assert EvolveAll(empty, []) == empty && EvolveAll(w, []) == w;
    assert Admit(empty, e) == w;
    SingleContact(empty, e, Contact([], Lost(true)));
    SingleContact(w, e, HEARD);
    assert a.plan[1..][0] == [HEARD];
    assert Broadcast(w, e, a.plan[1..]) == Delivery(w, Some(Landed(None, false)));
    assert Broadcast(empty, e, a.plan) == Delivery(w, Some(Landed(None, false)));
    var sent := Recorded([], e);
    assert sent == [e] && sent[1..] == [];
    assert Scan(w, sent, a.lookups, false) == Scanned(w, None);
  }

  /** Without answered lookups even one endpoint and good fees can mine two envelopes. */
  lemma UnansweredLookupUnsafe(f: Fees)
    ensures var tape := [Unanswered(f)] + ([Taking(1, f, 1)] + Stops(14, 1));
            && TapeFits(tape, 1)
            && !AtMostOneMined(EvolveAll(Send(ANY, Initial(ANY), World([], map[]), tape, 1).world, [Mine, Mine]))
  {
    var rest := [Taking(1, f, 1)] + Stops(14, 1);
    var tape := [Unanswered(f)] + rest;
    UnansweredTurn(f);
    var t := OneTurn(ANY, Initial(ANY), World([], map[]), tape[0], 1);
    SecondEnvelope(t.sender, Envelope(0, f), f, 14, 1);
    assert tape[1..] == rest;
    BothMine(Envelope(0, f), f);
  }

  // ----- bytes that arrive late

  /** Bytes of an attempt that timed out reach the pool after its call has returned. */
  function LateArrival(w: World, tx: Tx): World {
    Admit(w, tx)
  }

  /** The first attempt times out with its bytes on the way; the retry hears "nonce held". */
  function Delayed(f: Fees): Answers {
    Answers(Some(Quote(0, 0, f)), [[Contact([], Refused(true))]] + seq(Retry.FALLBACK_ATTEMPTS - 1, _ => [HEARD]),
            Probes(), [Probes()])
  }

  lemma DelayedTurn(f: Fees)
    ensures Fits(Delayed(f), 1)
    ensures var t := OneTurn(ANY, Initial(ANY), BLOCKED, Delayed(f), 1);
            && t.world == BLOCKED && t.done.None?
            && t.sender == Abandoned(t.sender, None) && t.sender.sent == [Envelope(0, f)] && t.sender.round == 0
  {
    var a := Delayed(f);
    var e := Envelope(0, f);
    assert EvolveAll(BLOCKED, []) == BLOCKED;
    SingleContact(BLOCKED, e, Contact([], Refused(true)));
    SingleContact(BLOCKED, e, HEARD);
    assert a.plan[1..][0] == [HEARD];
    assert Broadcast(BLOCKED, e, a.plan[1..]) == Delivery(BLOCKED, Some(NonceHeld(false)));
    assert Broadcast(BLOCKED, e, a.plan) == Delivery(BLOCKED, Some(NonceHeld(false)));
  }

  /**
   The nonce is abandoned, its holder expires, the late bytes are pooled, and the next fill mines as
   well: even one endpoint and good fees need submissions to take effect before their calls return.
   */
  lemma LateArrivalUnsafe(f: Fees)
    ensures Fits(Delayed(f), 1)
    ensures var t := OneTurn(ANY, Initial(ANY), BLOCKED, Delayed(f), 1);
            var rest := [Taking(1, f, 1)] + Stops(14, 1);
            var w := LateArrival(Evolve(t.world, Drop(0)), Envelope(0, f));
            && t.done.None? && Envelope(0, f) in t.sender.sent && TapeFits(rest, 1) && |t.sender.sent| == 1
            && !AtMostOneMined(EvolveAll(Send(ANY, t.sender, w, rest, 1).world, [Mine, Mine]))
  {
    DelayedTurn(f);
    var t := OneTurn(ANY, Initial(ANY), BLOCKED, Delayed(f), 1);
    var w := LateArrival(Evolve(t.world, Drop(0)), Envelope(0, f));
    assert w.pool == map[0 := Envelope(0, f)];
    SecondEnvelope(t.sender, Envelope(0, f), f, 14, 1);
    BothMine(Envelope(0, f), f);
  }

  // ----- the exact condition

  /** At-most-once holds exactly with a single endpoint and self-replacing fees. */
  lemma AtMostOnceExactly(endpoints: nat, market: iset<Fees>)
    requires endpoints > 0 && market != iset{}
    ensures Safe(endpoints, market) <==> endpoints == 1 && forall f :: f in market ==> SelfReplacing(f)
  {
    if endpoints >= 2 {
      var f :| f in market;
      TwoEndpointsUnsafe(f, endpoints, market);
    } else if f :| f in market && !SelfReplacing(f) {
      if !Climbs(f) {
        FirstReplacementUnsafe(f, market);
      } else {
        SecondReplacementUnsafe(f, market);
      }
    } else {
      forall tx: Request, w: World, tape: seq<Answers>, later: seq<EnvStep> | Run(tx, w, tape, 1, market)
        ensures AtMostOneMined(EvolveAll(Send(tx, Initial(tx), w, tape, 1).world, later))
      {
        AtMostOnce(tx, w, tape, 1, later, market);
      }
    }
  }
}
