/** The backwards scan of the gateway's approval logs in bounded block windows. */
module LogScan {
  import opened Prelude

  const LOG_WINDOW_BLOCKS: u64 := 100

  /** One gateway log; `decodes` is false when it is not a well-formed approval event. */
  datatype Log = Log(block: u64, payloadHash: nat, decodes: bool, contract: nat, sourceTx: nat, commandId: nat)

  datatype Wanted = Wanted(contract: nat, payloadHash: nat, sourceTx: Option<nat>)

  datatype RpcError = RpcError

  predicate Matches(l: Log, want: Wanted) {
    l.decodes && l.contract == want.contract && (want.sourceTx.None? || l.sourceTx == want.sourceTx.value)
  }

  predicate InWindow(l: Log, want: Wanted, from: nat, to: nat) {
    l.payloadHash == want.payloadHash && from <= l.block <= to
  }

  /** The chain's logs a query must return, in chain order. */
  function Filtered(chain: seq<Log>, want: Wanted, from: nat, to: nat): (r: seq<Log>)
    ensures forall l :: l in r <==> l in chain && InWindow(l, want, from, to)
  {
    if chain == [] then [] else
    var rest := Filtered(chain[1..], want, from, to);
    assert forall l :: l in chain <==> l == chain[0] || l in chain[1..];
    if InWindow(chain[0], want, from, to) then [chain[0]] + rest else rest
  }

  /** The server may fail, but what it answers is what the chain holds. */
  ghost predicate Honest(query: (u64, u64) -> Result<seq<Log>, RpcError>, chain: seq<Log>, want: Wanted) {
    forall from: u64, to: u64 :: query(from, to).Ok? ==> query(from, to).value == Filtered(chain, want, from, to)
  }

  /** Windows of at most 100 blocks, adjacent and descending from `latest`, none below `first`. */
  ghost predicate Tiles(windows: seq<(u64, u64)>, first: u64, latest: u64) {
    && (windows != [] ==> windows[0].1 == latest)
    && (forall i :: 0 <= i < |windows| ==>
          first <= windows[i].0 <= windows[i].1 && windows[i].1 - windows[i].0 < 100)
    && (forall i :: 0 < i < |windows| ==> windows[i].1 as int + 1 == windows[i - 1].0 as int)
  }

  /** No approval wanted lies in blocks `from` to `to`. */
  ghost predicate NoneIn(chain: seq<Log>, want: Wanted, from: int, to: int) {
    forall l :: l in chain && l.payloadHash == want.payloadHash && from <= l.block <= to ==> !Matches(l, want)
  }

  /** The approval looked for: a well-formed event in range with the payload hash, contract and source wanted. */
  predicate Approves(l: Log, want: Wanted, first: nat, latest: nat) {
    && first <= l.block <= latest && l.payloadHash == want.payloadHash
    && l.decodes && l.contract == want.contract && (want.sourceTx.Some? ==> l.sourceTx == want.sourceTx.value)
  }

  lemma NothingApproves(chain: seq<Log>, want: Wanted, first: nat, latest: nat)
    requires NoneIn(chain, want, first, latest)
    ensures forall l :: l in chain ==> !Approves(l, want, first, latest)
  {
  }

  lemma HitApproves(chain: seq<Log>, want: Wanted, first: nat, from: nat, high: nat, latest: nat, l: Log)
    requires first <= from <= high <= latest && l in Filtered(chain, want, from, high) && Matches(l, want)
    ensures l in chain && Approves(l, want, first, latest)
  {
  }

  lemma OneMoreWindow(windows: seq<(u64, u64)>, first: u64, latest: u64, start: u64, high: u64)
    requires Tiles(windows, first, latest)
    requires first <= start <= high && high - start < LOG_WINDOW_BLOCKS
    requires if windows == [] then high == latest else high as int + 1 == windows[|windows| - 1].0 as int
    ensures Tiles(windows + [(start, high)], first, latest)
  {
  }

  function FirstOf(logs: seq<Log>, want: Wanted): (hit: Option<Log>)
    ensures hit.None? <==> forall l :: l in logs ==> !Matches(l, want)
    ensures hit.Some? ==> hit.value in logs && Matches(hit.value, want)
  {
    if logs == [] then None
    else if Matches(logs[0], want) then Some(logs[0])
    else
      assert forall l :: l in logs <==> l == logs[0] || l in logs[1..];
      FirstOf(logs[1..], want)
  }

  /** The hit is the first log that matches: no earlier one does. */
  lemma {:induction false} FirstOfIsFirst(logs: seq<Log>, want: Wanted) returns (i: nat)
    requires FirstOf(logs, want).Some?
    ensures i < |logs| && FirstOf(logs, want) == Some(logs[i]) && Matches(logs[i], want)
    ensures forall j :: 0 <= j < i ==> !Matches(logs[j], want)
  {
    if Matches(logs[0], want) {
      i := 0;
    } else {
      i := FirstOfIsFirst(logs[1..], want);
      i := i + 1;
    }
  }

  method FirstMatch(logs: seq<Log>, want: Wanted) returns (hit: Option<Log>)
    ensures hit == FirstOf(logs, want)
  {
    for k := 0 to |logs|
      invariant FirstOf(logs, want) == FirstOf(logs[k..], want)
    {
      if Matches(logs[k], want) {
        return Some(logs[k]);
      }
      assert logs[k..][1..] == logs[k + 1..];
    }
    return None;
  }

  method FindContractCallApproved(
    query: (u64, u64) -> Result<seq<Log>, RpcError>, want: Wanted, latest: u64, first: u64, ghost chain: seq<Log>)
    returns (r: Result<Option<Log>, RpcError>, windows: seq<(u64, u64)>)
    requires Honest(query, chain, want)
    ensures Tiles(windows, first, latest)
    ensures r.Ok? ==> (r.value.None? <==> NoneIn(chain, want, first, latest))
    ensures r == Ok(None) && first <= latest ==> windows != [] && windows[|windows| - 1].0 == first
    ensures r.Ok? && r.value.Some? ==>
              && windows != []
              && r.value == FirstOf(Filtered(chain, want, windows[|windows| - 1].0, windows[|windows| - 1].1), want)
              && NoneIn(chain, want, windows[|windows| - 1].1 as int + 1, latest)
    ensures r.Ok? && r.value.Some? ==> r.value.value in chain && Approves(r.value.value, want, first, latest)
    ensures r == Ok(None) ==> forall l :: l in chain ==> !Approves(l, want, first, latest)
    ensures r.Err? ==> windows != [] && query(windows[|windows| - 1].0, windows[|windows| - 1].1).Err?
  {
    windows := [];
    var high := latest;
    while high >= first
      invariant Tiles(windows, first, latest)
      invariant windows == [] ==> high == latest
      invariant windows != [] ==> high + 1 == windows[|windows| - 1].0 && high >= first
      invariant NoneIn(chain, want, high + 1, latest)
      decreases high
    {
      var low := SatSub(high, LOG_WINDOW_BLOCKS - 1);
      var start := if low > first then low else first;
      OneMoreWindow(windows, first, latest, start, high);
      windows := windows + [(start, high)];
      var answer := query(start, high);
      if answer.Err? {
        return Err(RpcError), windows;
      }
      var hit := FirstMatch(answer.value, want);
      if hit.Some? {
        HitApproves(chain, want, first, start, high, latest, hit.value);
        return Ok(hit), windows;
      }
      assert NoneIn(chain, want, start, latest);
      if start == first {
        break;
      }
      high := start - 1;
    }
    NothingApproves(chain, want, first, latest);
    return Ok(None), windows;
  }
}
