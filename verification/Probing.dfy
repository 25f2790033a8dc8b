/**
 By-hash questions to the network: whether any recorded hash is known, and the receipt poll.  Every
 probe lists what the environment did before it was answered, so the answer to the probe at one
 position depends on everything the environment did up to that position.
 */
module Probing {
  import opened Prelude
  import opened Mempool

  /** One by-hash question; `answered` when some endpoint replied. */
  datatype Probe = Probe(before: seq<EnvStep>, answered: bool)

  datatype Scanned = Scanned(world: World, found: Option<Tx>)

  predicate Answer(w: World, tx: Tx, wantMined: bool) {
    if wantMined then IsMined(w, tx) else Visible(w, tx)
  }

  function Scan(w: World, txs: seq<Tx>, probes: seq<Probe>, wantMined: bool): Scanned
    requires |txs| <= |probes|
    decreases |txs|
  {
    if txs == [] then Scanned(w, None) else
    var w := EvolveAll(w, probes[0].before);
    if probes[0].answered && Answer(w, txs[0], wantMined) then Scanned(w, Some(txs[0]))
    else Scan(w, txs[1..], probes[1..], wantMined)
  }

  function Await(w: World, txs: seq<Tx>, polls: seq<seq<Probe>>): Scanned
    requires forall k :: 0 <= k < |polls| ==> |txs| <= |polls[k]|
    decreases |polls|
  {
    if polls == [] then Scanned(w, None) else
    var s := Scan(w, txs, polls[0], true);
    if s.found.Some? then s else Await(s.world, txs, polls[1..])
  }

  // ----- what the answers mean, position by position

  /** All the environment did before these probes, in order. */
  function Steps(probes: seq<Probe>): seq<EnvStep> {
    if probes == [] then [] else probes[0].before + Steps(probes[1..])
  }

  lemma {:induction false} StepsInTwo(a: seq<Probe>, b: seq<Probe>)
    ensures Steps(a + b) == Steps(a) + Steps(b)
  {
    if a == [] {
      assert a + b == b;
    } else {
      assert (a + b)[1..] == a[1..] + b;
      StepsInTwo(a[1..], b);
    }
  }

  /** The world that the last of these probes looks at. */
  function At(w: World, probes: seq<Probe>): World {
    EvolveAll(w, Steps(probes))
  }

  lemma AtInTwo(w: World, a: seq<Probe>, b: seq<Probe>)
    ensures At(w, a + b) == At(At(w, a), b)
  {
    StepsInTwo(a, b);
    EvolveInTwo(w, Steps(a), Steps(b));
  }

  /** Probe `i` is answered and its hash is there by then: mined, or mined or pooled. */
  ghost predicate Hit(w: World, txs: seq<Tx>, probes: seq<Probe>, wantMined: bool, i: int) {
    && 0 <= i < |txs| && i < |probes| && probes[i].answered
    && var v := At(w, probes[..i + 1]);
       if wantMined then IsMined(v, txs[i]) else IsMined(v, txs[i]) || IsPooled(v, txs[i])
  }

  ghost predicate FirstHit(w: World, txs: seq<Tx>, probes: seq<Probe>, wantMined: bool, i: int) {
    Hit(w, txs, probes, wantMined, i) && forall j :: j < i ==> !Hit(w, txs, probes, wantMined, j)
  }

  /** The first hit decides; without one, nothing is found and every probe was made. */
  ghost predicate Finds(w: World, txs: seq<Tx>, probes: seq<Probe>, wantMined: bool, s: Scanned)
    requires |txs| <= |probes|
  {
    && (s.found.None? <==> forall i :: !Hit(w, txs, probes, wantMined, i))
    && (s.found.None? ==> s.world == At(w, probes[..|txs|]))
    && (s.found.Some? ==> exists i ::
          FirstHit(w, txs, probes, wantMined, i) && s == Scanned(At(w, probes[..i + 1]), Some(txs[i])))
  }

  lemma AtFirst(w: World, probes: seq<Probe>)
    requires probes != []
    ensures At(w, probes[..1]) == EvolveAll(w, probes[0].before)
  {
    assert probes[..1][1..] == [];
    assert Steps(probes[..1]) == probes[0].before;
  }

  lemma AllAt(w: World, probes: seq<Probe>, n: nat)
    requires 0 < n <= |probes|
    ensures At(w, probes[..n]) == At(EvolveAll(w, probes[0].before), probes[1..][..n - 1])
  {
    AtFirst(w, probes);
    AtInTwo(w, probes[..1], probes[1..][..n - 1]);
    assert probes[..1] + probes[1..][..n - 1] == probes[..n];
  }

  /** After the first probe, the later positions are those of the rest. */
  lemma HitShifts(w: World, txs: seq<Tx>, probes: seq<Probe>, wantMined: bool, i: nat)
    requires 0 < |txs| <= |probes| && i > 0
    ensures Hit(w, txs, probes, wantMined, i)
            <==> Hit(EvolveAll(w, probes[0].before), txs[1..], probes[1..], wantMined, i - 1)
  {
    if i < |probes| {
      AllAt(w, probes, i + 1);
    }
  }

  lemma HitAtOnce(w: World, txs: seq<Tx>, probes: seq<Probe>, wantMined: bool)
    requires |txs| <= |probes| && Hit(w, txs, probes, wantMined, 0)
    ensures Finds(w, txs, probes, wantMined, Scanned(EvolveAll(w, probes[0].before), Some(txs[0])))
  {
    AtFirst(w, probes);
    assert FirstHit(w, txs, probes, wantMined, 0);
  }

  lemma FirstHitLater(w: World, txs: seq<Tx>, probes: seq<Probe>, wantMined: bool, i: nat)
    requires 0 < |txs| <= |probes| && !Hit(w, txs, probes, wantMined, 0)
    requires FirstHit(EvolveAll(w, probes[0].before), txs[1..], probes[1..], wantMined, i)
    ensures FirstHit(w, txs, probes, wantMined, i + 1)
  {
    forall j: int | Hit(w, txs, probes, wantMined, j)
      ensures j > i
    {
      HitShifts(w, txs, probes, wantMined, j);
    }
    HitShifts(w, txs, probes, wantMined, i + 1);
  }

  lemma NoHitLater(w: World, txs: seq<Tx>, probes: seq<Probe>, wantMined: bool, i: int)
    requires 0 < |txs| <= |probes| && !Hit(w, txs, probes, wantMined, 0)
    requires forall j :: !Hit(EvolveAll(w, probes[0].before), txs[1..], probes[1..], wantMined, j)
    ensures !Hit(w, txs, probes, wantMined, i)
  {
    if i > 0 {
      HitShifts(w, txs, probes, wantMined, i);
    }
  }

  lemma HitLater(w: World, txs: seq<Tx>, probes: seq<Probe>, wantMined: bool, s: Scanned)
    requires 0 < |txs| <= |probes| && !Hit(w, txs, probes, wantMined, 0)
    requires Finds(EvolveAll(w, probes[0].before), txs[1..], probes[1..], wantMined, s)
    ensures Finds(w, txs, probes, wantMined, s)
  {
    var v := EvolveAll(w, probes[0].before);
    if s.found.Some? {
      var i :| FirstHit(v, txs[1..], probes[1..], wantMined, i)
               && s == Scanned(At(v, probes[1..][..i + 1]), Some(txs[1..][i]));
      FirstHitLater(w, txs, probes, wantMined, i);
      AllAt(w, probes, i + 2);
      assert s == Scanned(At(w, probes[..i + 2]), Some(txs[i + 1]));
    } else {
      forall i: int {
        NoHitLater(w, txs, probes, wantMined, i);
      }
      AllAt(w, probes, |txs|);
    }
  }

  /** The scan finds the hash at the first hit, and nothing exactly when there is none. */
  lemma {:induction false} ScanFindsFirst(w: World, txs: seq<Tx>, probes: seq<Probe>, wantMined: bool)
    requires |txs| <= |probes|
    ensures Finds(w, txs, probes, wantMined, Scan(w, txs, probes, wantMined))
    decreases |txs|
  {
    if txs == [] {
      assert probes[..0] == [];
    } else {
      var v := EvolveAll(w, probes[0].before);
      AtFirst(w, probes);
      if Hit(w, txs, probes, wantMined, 0) {
        HitAtOnce(w, txs, probes, wantMined);
      } else {
        ScanFindsFirst(v, txs[1..], probes[1..], wantMined);
        HitLater(w, txs, probes, wantMined, Scan(v, txs[1..], probes[1..], wantMined));
      }
    }
  }

  // ----- the same over several polls

  /** The probes of these polls in order, one per hash. */
  function Polled(polls: seq<seq<Probe>>, n: nat): seq<Probe>
    requires forall k :: 0 <= k < |polls| ==> n <= |polls[k]|
  {
    if polls == [] then [] else polls[0][..n] + Polled(polls[1..], n)
  }

  /** The probes made up to position `i` of poll `k`. */
  function Until(polls: seq<seq<Probe>>, n: nat, k: nat, i: nat): seq<Probe>
    requires forall k :: 0 <= k < |polls| ==> n <= |polls[k]|
    requires k < |polls| && i < n
  {
    Polled(polls[..k], n) + polls[k][..i + 1]
  }

  /** The probe for hash `i` in poll `k` is answered and the transaction is mined by then. */
  ghost predicate Receipted(w: World, txs: seq<Tx>, polls: seq<seq<Probe>>, k: int, i: int)
    requires forall k :: 0 <= k < |polls| ==> |txs| <= |polls[k]|
  {
    && 0 <= k < |polls| && 0 <= i < |txs| && polls[k][i].answered
    && IsMined(At(w, Until(polls, |txs|, k, i)), txs[i])
  }

  /** The first position at which a receipt shows, poll by poll and hash by hash. */
  ghost predicate FirstReceipt(w: World, txs: seq<Tx>, polls: seq<seq<Probe>>, k: int, i: int)
    requires forall k :: 0 <= k < |polls| ==> |txs| <= |polls[k]|
  {
    && Receipted(w, txs, polls, k, i)
    && forall l, j :: l < k || (l == k && j < i) ==> !Receipted(w, txs, polls, l, j)
  }

  /** The first receipt decides; without one, nothing is found after all the polls. */
  ghost predicate Awaited(w: World, txs: seq<Tx>, polls: seq<seq<Probe>>, s: Scanned)
    requires forall k :: 0 <= k < |polls| ==> |txs| <= |polls[k]|
  {
    && (s.found.None? <==> forall k, i :: !Receipted(w, txs, polls, k, i))
    && (s.found.None? ==> s.world == At(w, Polled(polls, |txs|)))
    && (s.found.Some? ==> exists k, i ::
          FirstReceipt(w, txs, polls, k, i) && s == Scanned(At(w, Until(polls, |txs|, k, i)), Some(txs[i])))
  }

  /** The first poll sees what one scan of it sees. */
  lemma FirstPoll(w: World, txs: seq<Tx>, polls: seq<seq<Probe>>, i: int)
    requires polls != [] && forall k :: 0 <= k < |polls| ==> |txs| <= |polls[k]|
    ensures Receipted(w, txs, polls, 0, i) <==> Hit(w, txs, polls[0], true, i)
    ensures 0 <= i < |txs| ==> Until(polls, |txs|, 0, i) == polls[0][..i + 1]
  {
    assert polls[..0] == [];
    assert 0 <= i < |txs| ==> Until(polls, |txs|, 0, i) == [] + polls[0][..i + 1] == polls[0][..i + 1];
  }

  /** Position `i` of poll `k > 0` is position `i` of poll `k - 1` once the first poll is over. */
  lemma LaterPoll(w: World, txs: seq<Tx>, polls: seq<seq<Probe>>, k: int, i: int)
    requires polls != [] && forall k :: 0 <= k < |polls| ==> |txs| <= |polls[k]|
    requires k > 0
    ensures var v := At(w, polls[0][..|txs|]);
            && (Receipted(w, txs, polls, k, i) <==> Receipted(v, txs, polls[1..], k - 1, i))
            && (k < |polls| && 0 <= i < |txs| ==>
                  At(w, Until(polls, |txs|, k, i)) == At(v, Until(polls[1..], |txs|, k - 1, i)))
  {
    if k < |polls| && 0 <= i < |txs| {
      assert polls[..k][1..] == polls[1..][..k - 1];
      assert Until(polls, |txs|, k, i) == polls[0][..|txs|] + Until(polls[1..], |txs|, k - 1, i);
      AtInTwo(w, polls[0][..|txs|], Until(polls[1..], |txs|, k - 1, i));
    }
  }

  lemma FoundAtOnce(w: World, txs: seq<Tx>, polls: seq<seq<Probe>>, s: Scanned)
    requires polls != [] && forall k :: 0 <= k < |polls| ==> |txs| <= |polls[k]|
    requires Finds(w, txs, polls[0], true, s) && s.found.Some?
    ensures Awaited(w, txs, polls, s)
  {
    var i :| FirstHit(w, txs, polls[0], true, i) && s == Scanned(At(w, polls[0][..i + 1]), Some(txs[i]));
    forall j {
      FirstPoll(w, txs, polls, j);
    }
    assert FirstReceipt(w, txs, polls, 0, i);
  }

  lemma FoundLater(w: World, txs: seq<Tx>, polls: seq<seq<Probe>>, s: Scanned)
    requires polls != [] && forall k :: 0 <= k < |polls| ==> |txs| <= |polls[k]|
    requires forall i :: !Hit(w, txs, polls[0], true, i)
    requires Awaited(At(w, polls[0][..|txs|]), txs, polls[1..], s)
    ensures Awaited(w, txs, polls, s)
  {
    var v := At(w, polls[0][..|txs|]);
    forall k, i
      ensures Receipted(w, txs, polls, k, i) <==> k > 0 && Receipted(v, txs, polls[1..], k - 1, i)
    {
      if k > 0 {
        LaterPoll(w, txs, polls, k, i);
      } else if k == 0 {
        FirstPoll(w, txs, polls, i);
      }
    }
    if s.found.Some? {
      var k, i :| && FirstReceipt(v, txs, polls[1..], k, i)
                  && s == Scanned(At(v, Until(polls[1..], |txs|, k, i)), Some(txs[i]));
      LaterPoll(w, txs, polls, k + 1, i);
      assert FirstReceipt(w, txs, polls, k + 1, i);
    } else {
      AtInTwo(w, polls[0][..|txs|], Polled(polls[1..], |txs|));
      forall k, i
        ensures !Receipted(w, txs, polls, k, i)
      {
        assert !Receipted(v, txs, polls[1..], k - 1, i);
      }
    }
  }

  /** The wait ends with the first receipt, by poll and then by hash, and in vain exactly when there is none. */
  lemma {:induction false} AwaitFindsFirst(w: World, txs: seq<Tx>, polls: seq<seq<Probe>>)
    requires forall k :: 0 <= k < |polls| ==> |txs| <= |polls[k]|
    ensures Awaited(w, txs, polls, Await(w, txs, polls))
    decreases |polls|
  {
    if polls != [] {
      ScanFindsFirst(w, txs, polls[0], true);
      var s := Scan(w, txs, polls[0], true);
      if s.found.Some? {
        FoundAtOnce(w, txs, polls, s);
      } else {
        AwaitFindsFirst(s.world, txs, polls[1..]);
        FoundLater(w, txs, polls, Await(s.world, txs, polls[1..]));
      }
    }
  }

  // ----- the source's loops

  /** `any_tx_known_by_hash`, and one pass of the receipt poll. */
  method ScanAll(w: World, txs: seq<Tx>, probes: seq<Probe>, wantMined: bool) returns (s: Scanned)
    requires |txs| <= |probes|
    ensures s == Scan(w, txs, probes, wantMined) && Finds(w, txs, probes, wantMined, s)
  {
    ScanFindsFirst(w, txs, probes, wantMined);
    var world := w;
    for i := 0 to |txs|
      invariant Scan(w, txs, probes, wantMined) == Scan(world, txs[i..], probes[i..], wantMined)
    {
      world := EvolveAll(world, probes[i].before);
      if probes[i].answered && Answer(world, txs[i], wantMined) {
        return Scanned(world, Some(txs[i]));
      }
      assert txs[i..][1..] == txs[i + 1..] && probes[i..][1..] == probes[i + 1..];
    }
    return Scanned(world, None);
  }

  method WaitReceiptAny(w: World, txs: seq<Tx>, polls: seq<seq<Probe>>) returns (s: Scanned)
    requires forall k :: 0 <= k < |polls| ==> |txs| <= |polls[k]|
    ensures s == Await(w, txs, polls) && Awaited(w, txs, polls, s)
  {
    AwaitFindsFirst(w, txs, polls);
    var world := w;
    for k := 0 to |polls|
      invariant Await(w, txs, polls) == Await(world, txs, polls[k..])
    {
      var pass := ScanAll(world, txs, polls[k], true);
      if pass.found.Some? {
        return pass;
      }
      world := pass.world;
      assert polls[k..][1..] == polls[k + 1..];
    }
    return Scanned(world, None);
  }
}
