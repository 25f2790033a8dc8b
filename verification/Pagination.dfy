/** Reading the hub's whole chain registry page by page. */
module Pagination {
  import opened Prelude

  const PAGE: nat := 100

  datatype RegisteredChain = RegisteredChain(chain: string, edgeContract: string, frozen: bool)

  datatype QueryError = QueryError

  /** Lexicographic key order. */
  predicate Less(a: string, b: string) {
    b != "" && (a == "" || a[0] < b[0] || (a[0] == b[0] && Less(a[1..], b[1..])))
  }

  lemma {:induction false} LessIsAsymmetric(a: string, b: string)
    ensures !(Less(a, b) && Less(b, a))
  {
    if a != "" && b != "" {
      LessIsAsymmetric(a[1..], b[1..]);
    }
  }

  ghost predicate Sorted(registry: seq<RegisteredChain>) {
    forall i, j :: 0 <= i < j < |registry| ==> Less(registry[i].chain, registry[j].chain)
  }

  /** The entries whose key is strictly after `start`. */
  function After(registry: seq<RegisteredChain>, start: Option<string>): seq<RegisteredChain> {
    if registry == [] then []
    else if start.None? || Less(start.value, registry[0].chain) then [registry[0]] + After(registry[1..], start)
    else After(registry[1..], start)
  }

  /** The server's answer: at most `limit` entries, in key order. */
  function Page(registry: seq<RegisteredChain>, start: Option<string>, limit: nat): seq<RegisteredChain> {
    var rest := After(registry, start);
    if |rest| <= limit then rest else rest[..limit]
  }

  lemma {:induction false} AllAfter(registry: seq<RegisteredChain>, start: Option<string>)
    requires start.None? || forall i :: 0 <= i < |registry| ==> Less(start.value, registry[i].chain)
    ensures After(registry, start) == registry
  {
    if registry != [] {
      AllAfter(registry[1..], start);
    }
  }

  /** Asking for what follows the k-th key gives exactly the entries behind position k. */
  lemma {:induction false} AfterKey(registry: seq<RegisteredChain>, k: nat)
    requires Sorted(registry) && k < |registry|
    ensures After(registry, Some(registry[k].chain)) == registry[k + 1..]
    decreases k
  {
    var key := registry[k].chain;
    var rest := registry[1..];
    LessIsAsymmetric(key, registry[0].chain);
    if k == 0 {
      AllAfter(rest, Some(key));
    } else {
      AfterKey(rest, k - 1);
      assert rest[k..] == registry[k + 1..];
    }
  }

  /** Unless a query fails, every entry once and in order, in floor(n/100) + 1 queries. */
  method RegisteredChains(registry: seq<RegisteredChain>, answers: nat -> bool)
    returns (r: Result<seq<RegisteredChain>, QueryError>, queries: nat)
    requires Sorted(registry)
    ensures r.Ok? ==> r.value == registry && queries == |registry| / PAGE + 1
    ensures r.Ok? <==> forall k :: 0 <= k <= |registry| / PAGE ==> answers(k)
    ensures r.Err? ==> 0 < queries && !answers(queries - 1)
  {
    var chains: seq<RegisteredChain> := [];
    var startAfter: Option<string> := None;
    queries := 0;
    while true
      invariant |chains| == PAGE * queries && chains <= registry
      invariant startAfter == if queries == 0 then None else Some(chains[|chains| - 1].chain)
      invariant forall k :: 0 <= k < queries ==> answers(k)
      decreases |registry| - |chains|
    {
      var answered := answers(queries);
      queries := queries + 1;
      if !answered {
        return Err(QueryError), queries;
      }
      var page := Page(registry, startAfter, PAGE);
      if startAfter.None? {
        AllAfter(registry, None);
        assert registry[0..] == registry;
      } else {
        AfterKey(registry, |chains| - 1);
      }
      assert After(registry, startAfter) == registry[|chains|..];
      var count := |page|;
      startAfter := if page == [] then None else Some(page[count - 1].chain);
      chains := chains + page;
      if count < PAGE {
        return Ok(chains), queries;
      }
    }
  }
}
