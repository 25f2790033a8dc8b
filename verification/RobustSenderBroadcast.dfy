/**
 What a broadcast does, said by its contacts alone: which endpoint judged the bytes in which world,
 which error is reported, and after which pass over the endpoints the retries stop.
 */
module RobustSenderBroadcast {
  import opened Prelude
  import opened Mempool
  import opened RobustSender
  import opened RobustSenderSafety

  /** The world after the bytes were offered: they take effect unless the contact was refused. */
  function After(w: World, tx: Tx, contacts: seq<Contact>): World {
    if contacts == [] then w else
    var n := |contacts| - 1;
    var v := EvolveAll(After(w, tx, contacts[..n]), contacts[n].before);
    if contacts[n].reply.Refused? then v else Admit(v, tx)
  }

  /** The world in which contact `i` judges the bytes. */
  function Faced(w: World, tx: Tx, contacts: seq<Contact>, i: nat): World
    requires i < |contacts|
  {
    EvolveAll(After(w, tx, contacts[..i]), contacts[i].before)
  }

  predicate TakesIn(v: World, tx: Tx, reply: Reply) {
    reply.Heard? && Judge(v, tx).Accepted?
  }

  function ObjectionIn(v: World, tx: Tx, reply: Reply): SendError {
    match reply
    case Heard(expected, transient) =>
      if Judge(v, tx).Underpriced? then NonceHeld(transient) else Landed(expected, transient)
    case Lost(transient) => Failed(transient)
    case Refused(transient) => Failed(transient)
  }

  /** Contact `i` was heard to take the bytes. */
  ghost predicate Takes(w: World, tx: Tx, contacts: seq<Contact>, i: int) {
    0 <= i < |contacts| && TakesIn(Faced(w, tx, contacts, i), tx, contacts[i].reply)
  }

  /** The error of contact `i`. */
  function Objection(w: World, tx: Tx, contacts: seq<Contact>, i: nat): SendError
    requires i < |contacts|
  {
    ObjectionIn(Faced(w, tx, contacts, i), tx, contacts[i].reply)
  }

  lemma OfferExactly(w: World, tx: Tx, c: Contact)
    ensures var v := EvolveAll(w, c.before);
            Offer(w, tx, c) == (if c.reply.Refused? then v else Admit(v, tx),
                                if TakesIn(v, tx, c.reply) then None else Some(ObjectionIn(v, tx, c.reply)))
  {
  }

  lemma FrontFaces(w: World, tx: Tx, contacts: seq<Contact>, i: nat)
    requires i + 1 < |contacts|
    ensures Faced(w, tx, contacts, i) == Faced(w, tx, contacts[..|contacts| - 1], i)
  {
    assert contacts[..i] == contacts[..|contacts| - 1][..i];
  }

  lemma AttemptWorld(w: World, tx: Tx, contacts: seq<Contact>)
    ensures Attempt(w, tx, contacts).world == After(w, tx, contacts)
  {
    if contacts != [] {
      var n := |contacts| - 1;
      AttemptWorld(w, tx, contacts[..n]);
      OfferExactly(After(w, tx, contacts[..n]), tx, contacts[n]);
    }
  }

  /** Every endpoint is offered the bytes; one that takes them is enough, else each gives its own error. */
  lemma {:induction false} AttemptExactly(w: World, tx: Tx, contacts: seq<Contact>)
    ensures var a := Attempt(w, tx, contacts);
            && (a.accepted <==> exists i :: Takes(w, tx, contacts, i))
            && (!a.accepted ==>
                  && |a.errors| == |contacts|
                  && forall i :: 0 <= i < |contacts| ==> a.errors[i] == Objection(w, tx, contacts, i))
  {
    if contacts != [] {
      var n := |contacts| - 1;
      var front := contacts[..n];
      AttemptExactly(w, tx, front);
      AttemptWorld(w, tx, front);
      OfferExactly(After(w, tx, front), tx, contacts[n]);
      forall i | 0 <= i < n
        ensures Takes(w, tx, contacts, i) <==> Takes(w, tx, front, i)
        ensures Objection(w, tx, contacts, i) == Objection(w, tx, front, i)
      {
        FrontFaces(w, tx, contacts, i);
      }
      assert Takes(w, tx, contacts, n) <==> Offer(After(w, tx, front), tx, contacts[n]).1.None?;
    }
  }

  /** The first error that tells something, else the first error. */
  ghost predicate Reports(w: World, tx: Tx, contacts: seq<Contact>, i: int) {
    && 0 <= i < |contacts|
    && (forall j: nat :: j < i ==> Objection(w, tx, contacts, j).Failed?)
    && (Objection(w, tx, contacts, i).Failed? ==>
          i == 0 && forall j: nat :: j < |contacts| ==> Objection(w, tx, contacts, j).Failed?)
  }

  /** Among rejections, the reported one is the first that tells something, else the first. */
  lemma {:induction false} PickReports(w: World, tx: Tx, contacts: seq<Contact>) returns (i: nat)
    requires contacts != [] && !Attempt(w, tx, contacts).accepted
    ensures Reports(w, tx, contacts, i)
    ensures Pick(Attempt(w, tx, contacts).errors, 0) == Objection(w, tx, contacts, i)
  {
    AttemptExactly(w, tx, contacts);
    var errors := Attempt(w, tx, contacts).errors;
    i := 0;
    while i < |errors| && errors[i].Failed?
      invariant i <= |errors| && forall j: nat :: j < i ==> errors[j].Failed?
    {
      i := i + 1;
    }
    if i < |errors| {
      PickPrefersTelling(errors, 0, i);
    } else {
      PickFallsBack(errors, 0);
      i := 0;
    }
  }

  /** The contacts of these passes, one pass after the other. */
  function Offered(plan: seq<seq<Contact>>): seq<Contact> {
    if plan == [] then [] else plan[0] + Offered(plan[1..])
  }

  lemma {:induction false} AfterInTwo(w: World, tx: Tx, a: seq<Contact>, b: seq<Contact>)
    ensures After(w, tx, a + b) == After(After(w, tx, a), tx, b)
    decreases |b|
  {
    if b == [] {
      assert a + b == a;
    } else {
      var n := |b| - 1;
      assert (a + b)[..|a + b| - 1] == a + b[..n];
      AfterInTwo(w, tx, a, b[..n]);
    }
  }

  /** No endpoint takes the bytes, and the error reported is worth another pass. */
  ghost predicate Retries(w: World, tx: Tx, contacts: seq<Contact>) {
    && (forall i :: !Takes(w, tx, contacts, i))
    && exists i :: Reports(w, tx, contacts, i) && Objection(w, tx, contacts, i).transient
  }

  /** The delivery of a pass that is the last: some endpoint takes the bytes, or its error is reported. */
  ghost predicate Delivers(w: World, tx: Tx, contacts: seq<Contact>, error: Option<SendError>) {
    && (error.None? <==> exists i :: Takes(w, tx, contacts, i))
    && (error.Some? ==> exists i :: Reports(w, tx, contacts, i) && error.value == Objection(w, tx, contacts, i))
  }

  /** Pass `k` is the last: all before it are retried, and it succeeds, cannot be retried or is the final one. */
  ghost predicate Decides(w: World, tx: Tx, plan: seq<seq<Contact>>, d: Delivery, k: int) {
    && 0 <= k < |plan|
    && (forall j: nat :: j < k ==> Retries(After(w, tx, Offered(plan[..j])), tx, plan[j]))
    && Delivers(After(w, tx, Offered(plan[..k])), tx, plan[k], d.error)
    && (d.error.Some? && d.error.value.transient ==> k == |plan| - 1)
    && d.world == After(w, tx, Offered(plan[..k + 1]))
  }

  lemma OnePass(w: World, tx: Tx, contacts: seq<Contact>)
    requires contacts != []
    ensures var a := Attempt(w, tx, contacts);
            && a.world == After(w, tx, contacts)
            && Delivers(w, tx, contacts, if a.accepted then None else Some(Pick(a.errors, 0)))
            && (!a.accepted && Pick(a.errors, 0).transient ==> Retries(w, tx, contacts))
  {
    AttemptWorld(w, tx, contacts);
    AttemptExactly(w, tx, contacts);
    if !Attempt(w, tx, contacts).accepted {
      var i := PickReports(w, tx, contacts);
    }
  }

  lemma LaterPass(w: World, tx: Tx, plan: seq<seq<Contact>>, j: nat)
    requires 0 < j <= |plan|
    ensures After(w, tx, Offered(plan[..j])) == After(After(w, tx, plan[0]), tx, Offered(plan[1..][..j - 1]))
  {
    assert plan[..j][1..] == plan[1..][..j - 1];
    AfterInTwo(w, tx, plan[0], Offered(plan[1..][..j - 1]));
  }

  lemma DecidesLater(w: World, tx: Tx, plan: seq<seq<Contact>>, d: Delivery, k: nat)
    requires |plan| > 1 && Retries(w, tx, plan[0])
    requires Decides(After(w, tx, plan[0]), tx, plan[1..], d, k)
    ensures Decides(w, tx, plan, d, k + 1)
  {
    var rest := plan[1..];
    forall j: nat | j < k + 1
      ensures Retries(After(w, tx, Offered(plan[..j])), tx, plan[j])
    {
      if j > 0 {
        LaterPass(w, tx, plan, j);
        assert rest[j - 1] == plan[j];
        assert Retries(After(After(w, tx, plan[0]), tx, Offered(rest[..j - 1])), tx, rest[j - 1]);
      } else {
        assert plan[..0] == [];
      }
    }
    LaterPass(w, tx, plan, k + 1);
    LaterPass(w, tx, plan, k + 2);
  }

  /** A broadcast ends at the first pass that succeeds or reports an error not worth a retry, or at the last. */
  lemma {:induction false} BroadcastExactly(w: World, tx: Tx, plan: seq<seq<Contact>>) returns (k: nat)
    requires plan != [] && forall k :: 0 <= k < |plan| ==> plan[k] != []
    ensures Decides(w, tx, plan, Broadcast(w, tx, plan), k)
    decreases |plan|
  {
    OnePass(w, tx, plan[0]);
    var a := Attempt(w, tx, plan[0]);
    if !a.accepted && |plan| > 1 && Pick(a.errors, 0).transient {
      k := BroadcastExactly(a.world, tx, plan[1..]);
      DecidesLater(w, tx, plan, Broadcast(a.world, tx, plan[1..]), k);
      k := k + 1;
    } else {
      k := 0;
      assert plan[..0] == [] && plan[..1] == [plan[0]] && [plan[0]][1..] == [];
      assert Offered(plan[..1]) == plan[0];
    }
  }
}
