/**
 Every interleaving of the pipelined sender with its jobs and with the chain.

 A broadcast holds the lock for three steps: `Acquire` (lock taken, balances read, each possibly
 again later and at its own moment), `Commit`
 (prepare and reserve, bytes handed to the network) and `Finish` (the network's verdict).  The
 chain may mine deposits between any two steps, so the balances a commit checks can be stale, and
 a deposit can be mined before its own broadcast returns.  Receipts and timeouts need the lock.
 A step that is not enabled leaves the system as it is.
 */
module PipelineRuns {
  import opened Prelude
  import opened Pipeline

  datatype Job = InFlight | Awaiting | Settled | TimedOut | Lost

  /** A deposit whose bytes left the process: its job, and what it paid if it was mined. */
  datatype Record = Record(deposit: Deposit, job: Job, paid: Option<u256>)

  datatype Phase = Free | Reading(tx: Transaction, native: u256, tokens: u256) | Wire

  /** `fetched` remembers the starting nonce the sender was given. */
  datatype System = System(
    state: NonceState,
    fetched: Option<u64>,
    flag: bool,
    phase: Phase,
    log: seq<Record>,
    native: int,
    tokens: map<Address, int>)

  datatype Step =
    | Acquire(tx: Transaction)
    | ReadNative                // the two balances are separate calls, each possibly retried
    | ReadTokens
    | Commit(answers: Answers)  // the balances answered are those last read
    | Finish(delivered: bool)
    | Receipt(job: nat)
    | Timeout(job: nat)
    | Mine(job: nat, paid: u256, moved: bool)
    | Credit(native: nat, token: Address, amount: nat)

  function Balance(tokens: map<Address, int>, token: Address): int {
    if token in tokens then tokens[token] else 0
  }

  function AfterAcquire(y: System, tx: Transaction): System {
    if y.phase.Free? && y.state.stopped.None?
       && 0 <= y.native < U256_MAX && 0 <= Balance(y.tokens, tx.token) < U256_MAX
    then y.(phase := Reading(tx, y.native, Balance(y.tokens, tx.token))) else y
  }

  function AfterReadNative(y: System): System {
    if y.phase.Reading? && 0 <= y.native < U256_MAX then y.(phase := y.phase.(native := y.native)) else y
  }

  function AfterReadTokens(y: System): System {
    if y.phase.Reading? && 0 <= Balance(y.tokens, y.phase.tx.token) < U256_MAX
    then y.(phase := y.phase.(tokens := Balance(y.tokens, y.phase.tx.token))) else y
  }

  function AfterCommit(limits: Limits, y: System, a: Answers): System {
    if !y.phase.Reading? || (a.balances.Some? && a.balances.value != (y.phase.native, y.phase.tokens)) then y else
    var (s, committed) := Committed(y.state, limits, y.phase.tx, a);
    var fetched := if y.state.next.None? then a.startingNonce else y.fetched;
    match committed
    case Err(_) => y.(state := s, fetched := fetched, flag := s.stopped.Some?, phase := Free)
    case Ok(d) => y.(state := s, fetched := fetched, phase := Wire, log := y.log + [Record(d, InFlight, None)])
  }

  function AfterFinish(y: System, delivered: bool): System {
    if !y.phase.Wire? || y.log == [] then y else
    var last := y.log[|y.log| - 1];
    var s := Concluded(y.state, last.deposit, delivered);
    y.(state := s, flag := y.flag || s.stopped.Some?, phase := Free,
       log := y.log[|y.log| - 1 := last.(job := if delivered then Awaiting else Lost)])
  }

  function AfterReceipt(y: System, i: nat): System {
    if y.phase.Free? && i < |y.log| && y.log[i].job.Awaiting? && y.log[i].paid.Some? then
      y.(state := Released(y.state, y.log[i].deposit, y.log[i].paid.value),
         log := y.log[i := y.log[i].(job := Settled)])
    else y
  }

  function AfterTimeout(y: System, i: nat): System {
    if y.phase.Free? && i < |y.log| && y.log[i].job.Awaiting? then
      y.(state := y.state.(stopped := Some(Unconfirmed(y.log[i].deposit))), flag := true,
         log := y.log[i := y.log[i].(job := TimedOut)])
    else y
  }

  function AfterMine(y: System, i: nat, paid: u256, moved: bool): System {
    if i < |y.log| && y.log[i].paid.None? && paid <= y.log[i].deposit.gas then
      var d := y.log[i].deposit;
      y.(log := y.log[i := y.log[i].(paid := Some(paid))], native := y.native - paid,
         tokens := if moved then y.tokens[d.token := Balance(y.tokens, d.token) - d.amount] else y.tokens)
    else y
  }

  function AfterCredit(y: System, native: nat, token: Address, amount: nat): System {
    if y.native + native < U256_MAX && Balance(y.tokens, token) + amount < U256_MAX then
      y.(native := y.native + native, tokens := y.tokens[token := Balance(y.tokens, token) + amount])
    else y
  }

  function Next(limits: Limits, y: System, step: Step): System {
    match step
    case Acquire(tx) => AfterAcquire(y, tx)
    case ReadNative => AfterReadNative(y)
    case ReadTokens => AfterReadTokens(y)
    case Commit(answers) => AfterCommit(limits, y, answers)
    case Finish(delivered) => AfterFinish(y, delivered)
    case Receipt(i) => AfterReceipt(y, i)
    case Timeout(i) => AfterTimeout(y, i)
    case Mine(i, paid, moved) => AfterMine(y, i, paid, moved)
    case Credit(native, token, amount) => AfterCredit(y, native, token, amount)
  }

  function Run(limits: Limits, y: System, steps: seq<Step>): System
    decreases |steps|
  {
    if steps == [] then y else Run(limits, Next(limits, y, steps[0]), steps[1..])
  }

  /** A fresh sender in front of a wallet with representable balances. */
  ghost predicate Start(y: System) {
    && y.state == INITIAL && y.fetched.None? && !y.flag && y.phase.Free? && y.log == []
    && 0 <= y.native < U256_MAX
    && forall t :: 0 <= Balance(y.tokens, t) < U256_MAX
  }

  // ----- sums over the deposits ever broadcast

  function Sum(log: seq<Record>, f: Record -> nat): nat {
    if log == [] then 0 else Sum(log[..|log| - 1], f) + f(log[|log| - 1])
  }

  function HeldGas(r: Record): nat { if r.job.Settled? then 0 else r.deposit.gas }
  function UnminedGas(r: Record): nat { if r.paid.None? then r.deposit.gas else 0 }
  function PaidGas(r: Record): nat { if r.paid.None? then 0 else r.paid.value }
  function SettledGas(r: Record): nat { if r.job.Settled? then PaidGas(r) else 0 }
  function HeldTokens(t: Address): Record -> nat {
    (r: Record) => if r.deposit.token == t && !r.job.Settled? then r.deposit.amount else 0
  }
  function UnminedTokens(t: Address): Record -> nat {
    (r: Record) => if r.deposit.token == t && r.paid.None? then r.deposit.amount else 0
  }

  lemma {:induction false} SumUpdate(log: seq<Record>, i: nat, r: Record, f: Record -> nat)
    requires i < |log|
    ensures Sum(log[i := r], f) == Sum(log, f) - f(log[i]) + f(r)
  {
    var n := |log| - 1;
    if i == n {
      assert log[i := r][..n] == log[..n];
    } else {
      SumUpdate(log[..n], i, r, f);
      assert log[i := r][..n] == log[..n][i := r];
    }
  }

  lemma {:induction false} SumMonotone(log: seq<Record>, f: Record -> nat, g: Record -> nat)
    requires forall i :: 0 <= i < |log| ==> f(log[i]) <= g(log[i])
    ensures Sum(log, f) <= Sum(log, g)
  {
    if log != [] {
      SumMonotone(log[..|log| - 1], f, g);
    }
  }

  // ----- the invariant

  /** The counters are exact sums over the deposits broadcast and not yet settled. */
  ghost predicate Ledger(y: System) {
    && y.state.gasReserved == Sum(y.log, HeldGas)
    && y.state.gasSpent == Sum(y.log, SettledGas)
    && (forall t :: Held(y.state.tokensReserved, t) == Sum(y.log, HeldTokens(t)))
    && (forall i :: 0 <= i < |y.log| && y.log[i].job.Settled? ==> y.log[i].paid.Some?)
    && (forall i :: 0 <= i < |y.log| && y.log[i].paid.Some? ==> y.log[i].paid.value <= y.log[i].deposit.gas)
    && (forall i :: 0 <= i < |y.log| ==> y.log[i].deposit.gas == MaxCost(y.log[i].deposit.envelope))
  }

  /** The wallet covers its reserve and every deposit that can still be mined. */
  ghost predicate Floor(limits: Limits, y: System) {
    && (y.log != [] ==> y.native >= limits.nativeReserve + Sum(y.log, UnminedGas))
    && (forall t :: Balance(y.tokens, t) >= Sum(y.log, UnminedTokens(t)))
  }

  /** Mining after the balances were read only frees what it spends. */
  ghost predicate Snapshot(y: System) {
    y.phase.Reading? ==>
      && y.phase.native < U256_MAX && y.phase.tokens < U256_MAX
      && y.native - Sum(y.log, UnminedGas) >= y.phase.native - y.state.gasReserved
      && Balance(y.tokens, y.phase.tx.token) - Sum(y.log, UnminedTokens(y.phase.tx.token))
         >= y.phase.tokens - Held(y.state.tokensReserved, y.phase.tx.token)
  }

  ghost predicate Budget(limits: Limits, y: System) {
    limits.gasBudget.Some? ==> y.state.gasSpent + y.state.gasReserved <= limits.gasBudget.value
  }

  function NonceOf(r: Record): u64 { r.deposit.envelope.nonce }

  /** Consecutive nonces from the one fetched, at most one deposit on the wire, and a lost one is the last. */
  ghost predicate Nonces(y: System) {
    && (if y.log == [] then y.state.next == y.fetched else y.fetched == Some(NonceOf(y.log[0])))
    && (forall i :: 0 <= i < |y.log| ==> NonceOf(y.log[i]) == NonceOf(y.log[0]) + i)
    && (y.phase.Wire? ==> y.log != [])
    && (forall i :: 0 <= i < |y.log| ==> (y.log[i].job.InFlight? <==> y.phase.Wire? && i == |y.log| - 1))
    && (forall i :: 0 <= i < |y.log| && y.log[i].job.Lost? ==> i == |y.log| - 1 && y.state.stopped.Some?)
    && (forall i :: 0 <= i < |y.log| && y.log[i].job.TimedOut? ==> y.state.stopped.Some?)
    && (y.log != [] ==>
          var last := y.log[|y.log| - 1];
          if last.job.InFlight? || last.job.Lost? then y.state.next == Some(NonceOf(last))
          else y.state.next == NextNonce(NonceOf(last)) && (y.state.next.None? ==> y.state.stopped.Some?))
  }

  ghost predicate Flag(y: System) {
    && y.flag == y.state.stopped.Some?
    && (!y.phase.Free? ==> y.state.stopped.None?)
  }

  ghost predicate Inv(limits: Limits, y: System) {
    Ledger(y) && Floor(limits, y) && Snapshot(y) && Budget(limits, y) && Nonces(y) && Flag(y)
  }

  // ----- preservation

  lemma UnminedWithinHeld(y: System, t: Address)
    requires Ledger(y)
    ensures Sum(y.log, UnminedGas) <= Sum(y.log, HeldGas)
    ensures Sum(y.log, UnminedTokens(t)) <= Sum(y.log, HeldTokens(t))
  {
    SumMonotone(y.log, UnminedGas, HeldGas);
    SumMonotone(y.log, UnminedTokens(t), HeldTokens(t));
  }

  const MAX_COST: nat := U64_MAX * U128_MAX

  /** Distinct 64-bit nonces bound the deposits, so all their gas together fits 256 bits. */
  lemma {:induction false} GasNeverClamps(log: seq<Record>)
    requires forall i :: 0 <= i < |log| ==> NonceOf(log[i]) == NonceOf(log[0]) + i
    requires forall i :: 0 <= i < |log| ==> log[i].deposit.gas == MaxCost(log[i].deposit.envelope)
    requires forall i :: 0 <= i < |log| && log[i].paid.Some? ==> log[i].paid.value <= log[i].deposit.gas
    ensures |log| <= U64_MAX + 1
    ensures Sum(log, HeldGas) + Sum(log, SettledGas) <= |log| * MAX_COST <= U256_MAX
    ensures Sum(log, PaidGas) <= Sum(log, HeldGas) + Sum(log, SettledGas)
  {
    if log != [] {
      var n := |log| - 1;
      GasNeverClamps(log[..n]);
      GasFits(log[n].deposit.envelope.gasLimit, log[n].deposit.envelope.maxFeePerGas);
      assert |log| * MAX_COST == n * MAX_COST + MAX_COST;
      assert NonceOf(log[n]) == NonceOf(log[0]) + n;
      MulMonotone(|log|, U64_MAX + 1, MAX_COST);
    }
  }

  /** Replacing record `i` moves every sum by the difference at `i`. */
  lemma SumsUpdate(log: seq<Record>, i: nat, r: Record)
    requires i < |log|
    ensures Sum(log[i := r], HeldGas) == Sum(log, HeldGas) - HeldGas(log[i]) + HeldGas(r)
    ensures Sum(log[i := r], UnminedGas) == Sum(log, UnminedGas) - UnminedGas(log[i]) + UnminedGas(r)
    ensures Sum(log[i := r], SettledGas) == Sum(log, SettledGas) - SettledGas(log[i]) + SettledGas(r)
    ensures forall t :: Sum(log[i := r], HeldTokens(t))
                        == Sum(log, HeldTokens(t)) - HeldTokens(t)(log[i]) + HeldTokens(t)(r)
    ensures forall t :: Sum(log[i := r], UnminedTokens(t))
                        == Sum(log, UnminedTokens(t)) - UnminedTokens(t)(log[i]) + UnminedTokens(t)(r)
  {
    SumUpdate(log, i, r, HeldGas);
    SumUpdate(log, i, r, UnminedGas);
    SumUpdate(log, i, r, SettledGas);
    forall t {
      SumUpdate(log, i, r, HeldTokens(t));
    }
    forall t {
      SumUpdate(log, i, r, UnminedTokens(t));
    }
  }

  lemma SumsAppend(log: seq<Record>, r: Record)
    ensures Sum(log + [r], HeldGas) == Sum(log, HeldGas) + HeldGas(r)
    ensures Sum(log + [r], UnminedGas) == Sum(log, UnminedGas) + UnminedGas(r)
    ensures Sum(log + [r], SettledGas) == Sum(log, SettledGas) + SettledGas(r)
    ensures forall t :: Sum(log + [r], HeldTokens(t)) == Sum(log, HeldTokens(t)) + HeldTokens(t)(r)
    ensures forall t :: Sum(log + [r], UnminedTokens(t)) == Sum(log, UnminedTokens(t)) + UnminedTokens(t)(r)
  {
  }

  lemma AcquireKeeps(limits: Limits, y: System, tx: Transaction)
    requires Inv(limits, y)
    ensures Inv(limits, AfterAcquire(y, tx))
  {
    UnminedWithinHeld(y, tx.token);
  }

  lemma ReadNativeKeeps(limits: Limits, y: System)
    requires Inv(limits, y)
    ensures Inv(limits, AfterReadNative(y))
  {
    UnminedWithinHeld(y, 0);
  }

  lemma ReadTokensKeeps(limits: Limits, y: System)
    requires Inv(limits, y)
    ensures Inv(limits, AfterReadTokens(y))
  {
    if y.phase.Reading? {
      UnminedWithinHeld(y, y.phase.tx.token);
    }
  }

  /** A refused commit changes nothing but the nonce it fetched and, out of budget, the stop reason. */
  lemma RefusedCommit(s: NonceState, limits: Limits, tx: Transaction, a: Answers)
    requires s.stopped.None? && Committed(s, limits, tx, a).1.Err?
    ensures var z := Committed(s, limits, tx, a).0;
            && z == s.(next := z.next, stopped := z.stopped)
            && z.next == (if s.next.None? then a.startingNonce else s.next)
            && (z.stopped.Some? ==> z.stopped.value.BudgetReached?)
  {
  }

  /** An accepted commit was funded: nothing clamps, and the wallet covers the new deposit too. */
  lemma FundedCommit(s: NonceState, limits: Limits, tx: Transaction, a: Answers)
    requires s.stopped.None? && Committed(s, limits, tx, a).1.Ok?
    requires a.balances.Some? ==> a.balances.value.0 < U256_MAX && a.balances.value.1 < U256_MAX
    requires s.gasSpent + s.gasReserved + Committed(s, limits, tx, a).1.value.gas <= U256_MAX
    ensures var (z, c) := Committed(s, limits, tx, a);
            var d := c.value;
            && a.balances.Some?
            && z.stopped.None? && z.gasSpent == s.gasSpent
            && z.next == Some(d.envelope.nonce) == (if s.next.None? then a.startingNonce else s.next)
            && z.gasReserved == s.gasReserved + d.gas
            && a.balances.value.0 >= limits.nativeReserve + z.gasReserved
            && d.gas == MaxCost(d.envelope)
            && d.token == tx.token && d.amount == tx.amount
            && Held(z.tokensReserved, tx.token) == Held(s.tokensReserved, tx.token) + tx.amount
            && a.balances.value.1 >= Held(z.tokensReserved, tx.token)
            && (forall t :: t != tx.token ==> Held(z.tokensReserved, t) == Held(s.tokensReserved, t))
            && (limits.gasBudget.Some? ==> z.gasSpent + z.gasReserved <= limits.gasBudget.value)
  {
  }

  lemma CommitKeeps(limits: Limits, y: System, a: Answers)
    requires Inv(limits, y)
    ensures Inv(limits, AfterCommit(limits, y, a))
  {
    if y.phase.Reading? && (a.balances.Some? ==> a.balances.value == (y.phase.native, y.phase.tokens)) {
      var (s, committed) := Committed(y.state, limits, y.phase.tx, a);
      match committed
      case Err(_) =>
        RefusedCommit(y.state, limits, y.phase.tx, a);
        RefusalKeeps(limits, y, s, if y.state.next.None? then a.startingNonce else y.fetched);
      case Ok(d) =>
        OneMoreFits(y, d);
        FundedCommit(y.state, limits, y.phase.tx, a);
        ReservationKeeps(limits, y, s, if y.state.next.None? then a.startingNonce else y.fetched, d);
    }
  }

  /** One more deposit at the next nonce still fits: this is where distinct nonces bound all gas. */
  lemma OneMoreFits(y: System, d: Deposit)
    requires Ledger(y) && Nonces(y) && Flag(y) && y.phase.Reading?
    requires d.gas == MaxCost(d.envelope) && (y.state.next.Some? ==> d.envelope.nonce == y.state.next.value)
    ensures y.state.gasSpent + y.state.gasReserved + d.gas <= U256_MAX
  {
    SumsAppend(y.log, Record(d, InFlight, None));
    assert y.log != [] ==> d.envelope.nonce == NonceOf(y.log[0]) + |y.log|;
    GasNeverClamps(y.log + [Record(d, InFlight, None)]);
  }

  lemma RefusalKeeps(limits: Limits, y: System, s: NonceState, fetched: Option<u64>)
    requires Inv(limits, y) && y.phase.Reading?
    requires s == y.state.(next := s.next, stopped := s.stopped)
    requires if y.state.next.None? then s.next == fetched else s.next == y.state.next && fetched == y.fetched
    ensures Inv(limits, y.(state := s, fetched := fetched, flag := s.stopped.Some?, phase := Free))
  {
  }

  /** `s` reserves one more deposit `d`, covered by the balances read. */
  ghost predicate Books(limits: Limits, y: System, s: NonceState, d: Deposit) {
    && y.phase.Reading? && d.token == y.phase.tx.token && d.gas == MaxCost(d.envelope)
    && s.stopped.None? && s.gasSpent == y.state.gasSpent
    && s.gasReserved == y.state.gasReserved + d.gas
    && y.phase.native >= limits.nativeReserve + s.gasReserved
    && Held(s.tokensReserved, d.token) == Held(y.state.tokensReserved, d.token) + d.amount
    && y.phase.tokens >= Held(s.tokensReserved, d.token)
    && (forall t :: t != d.token ==> Held(s.tokensReserved, t) == Held(y.state.tokensReserved, t))
  }

  lemma BookedLedger(limits: Limits, y: System, s: NonceState, d: Deposit)
    requires Ledger(y) && Books(limits, y, s, d)
    ensures Ledger(y.(state := s, log := y.log + [Record(d, InFlight, None)]))
  {
    SumsAppend(y.log, Record(d, InFlight, None));
  }

  lemma BookedFloor(limits: Limits, y: System, s: NonceState, d: Deposit)
    requires Floor(limits, y) && Snapshot(y) && Books(limits, y, s, d)
    ensures Floor(limits, y.(state := s, log := y.log + [Record(d, InFlight, None)]))
  {
    SumsAppend(y.log, Record(d, InFlight, None));
  }

  lemma ReservationKeeps(limits: Limits, y: System, s: NonceState, fetched: Option<u64>, d: Deposit)
    requires Inv(limits, y) && Books(limits, y, s, d) && Budget(limits, y.(state := s))
    requires s.next == Some(d.envelope.nonce)
    requires if y.state.next.None? then s.next == fetched else s.next == y.state.next && fetched == y.fetched
    ensures Inv(limits, y.(state := s, fetched := fetched, phase := Wire, log := y.log + [Record(d, InFlight, None)]))
  {
    BookedLedger(limits, y, s, d);
    BookedFloor(limits, y, s, d);
  }

  /** Moving a job to another unsettled state leaves all the sums where they were. */
  lemma JobChange(limits: Limits, y: System, i: nat, z: System)
    requires Ledger(y) && Floor(limits, y) && Budget(limits, y)
    requires i < |y.log| && !y.log[i].job.Settled? && |z.log| == |y.log| && !z.log[i].job.Settled?
    requires z == y.(state := z.state, flag := z.flag, phase := Free,
                     log := y.log[i := y.log[i].(job := z.log[i].job)])
    requires z.state == y.state.(next := z.state.next, stopped := z.state.stopped)
    ensures Ledger(z) && Floor(limits, z) && Snapshot(z) && Budget(limits, z)
  {
    SumsUpdate(y.log, i, z.log[i]);
  }

  lemma FinishKeeps(limits: Limits, y: System, delivered: bool)
    requires Inv(limits, y)
    ensures Inv(limits, AfterFinish(y, delivered))
  {
    if y.phase.Wire? {
      JobChange(limits, y, |y.log| - 1, AfterFinish(y, delivered));
    }
  }

  lemma ReceiptKeeps(limits: Limits, y: System, i: nat)
    requires Inv(limits, y)
    ensures Inv(limits, AfterReceipt(y, i))
  {
    if y.phase.Free? && i < |y.log| && y.log[i].job.Awaiting? && y.log[i].paid.Some? {
      SettledLedger(y, i);
      SettledRest(limits, y, i, AfterReceipt(y, i));
    }
  }

  lemma SettledRest(limits: Limits, y: System, i: nat, z: System)
    requires Inv(limits, y) && y.phase.Free?
    requires i < |y.log| && y.log[i].job.Awaiting? && y.log[i].paid.Some?
    requires z == y.(state := z.state, log := y.log[i := y.log[i].(job := Settled)])
    requires z.state.next == y.state.next && z.state.stopped == y.state.stopped
    requires z.state.gasReserved == y.state.gasReserved - y.log[i].deposit.gas
    requires z.state.gasSpent == y.state.gasSpent + y.log[i].paid.value
    ensures Floor(limits, z) && Snapshot(z) && Budget(limits, z) && Nonces(z) && Flag(z)
  {
    SumsUpdate(y.log, i, y.log[i].(job := Settled));
  }

  lemma SettledTokens(y: System, i: nat, t: Address)
    requires Ledger(y) && i < |y.log| && y.log[i].job.Awaiting? && y.log[i].paid.Some?
    ensures Held(Released(y.state, y.log[i].deposit, y.log[i].paid.value).tokensReserved, t)
            == Sum(y.log[i := y.log[i].(job := Settled)], HeldTokens(t))
  {
    SumUpdate(y.log, i, y.log[i].(job := Settled), HeldTokens(t));
    assert Held(y.state.tokensReserved, t) == Sum(y.log, HeldTokens(t));
  }

  lemma SettledLedger(y: System, i: nat)
    requires Ledger(y) && Nonces(y)
    requires i < |y.log| && y.log[i].job.Awaiting? && y.log[i].paid.Some?
    ensures var s := Released(y.state, y.log[i].deposit, y.log[i].paid.value);
            && s.gasReserved == y.state.gasReserved - y.log[i].deposit.gas
            && s.gasSpent == y.state.gasSpent + y.log[i].paid.value
            && Ledger(y.(state := s, log := y.log[i := y.log[i].(job := Settled)]))
  {
    var log := y.log[i := y.log[i].(job := Settled)];
    SumUpdate(y.log, i, log[i], HeldGas);
    SumUpdate(y.log, i, log[i], SettledGas);
    GasNeverClamps(log);
    forall t {
      SettledTokens(y, i, t);
    }
  }

  lemma TimeoutKeeps(limits: Limits, y: System, i: nat)
    requires Inv(limits, y)
    ensures Inv(limits, AfterTimeout(y, i))
  {
    if AfterTimeout(y, i) != y {
      JobChange(limits, y, i, AfterTimeout(y, i));
    }
  }

  predicate CanMine(y: System, i: nat, paid: u256) {
    i < |y.log| && y.log[i].paid.None? && paid <= y.log[i].deposit.gas
  }

  lemma MinedLedger(y: System, i: nat, paid: u256, moved: bool)
    requires Ledger(y) && CanMine(y, i, paid)
    ensures Ledger(AfterMine(y, i, paid, moved))
  {
    SumsUpdate(y.log, i, y.log[i].(paid := Some(paid)));
  }

  lemma MinedGas(limits: Limits, y: System, i: nat, paid: u256, moved: bool)
    requires Floor(limits, y) && CanMine(y, i, paid)
    ensures var z := AfterMine(y, i, paid, moved);
            && z.native - Sum(z.log, UnminedGas) >= y.native - Sum(y.log, UnminedGas)
            && z.native >= limits.nativeReserve + Sum(z.log, UnminedGas)
  {
    SumUpdate(y.log, i, y.log[i].(paid := Some(paid)), UnminedGas);
  }

  lemma MinedTokens(limits: Limits, y: System, i: nat, paid: u256, moved: bool, t: Address)
    requires Floor(limits, y) && CanMine(y, i, paid)
    ensures var z := AfterMine(y, i, paid, moved);
            && Balance(z.tokens, t) - Sum(z.log, UnminedTokens(t))
               >= Balance(y.tokens, t) - Sum(y.log, UnminedTokens(t))
            && Balance(z.tokens, t) >= Sum(z.log, UnminedTokens(t))
  {
    SumUpdate(y.log, i, y.log[i].(paid := Some(paid)), UnminedTokens(t));
  }

  /** Mining spends at most what it frees, of gas and of tokens. */
  lemma MinedFloor(limits: Limits, y: System, i: nat, paid: u256, moved: bool)
    requires Floor(limits, y) && Snapshot(y) && CanMine(y, i, paid)
    ensures Floor(limits, AfterMine(y, i, paid, moved)) && Snapshot(AfterMine(y, i, paid, moved))
  {
    MinedGas(limits, y, i, paid, moved);
    forall t {
      MinedTokens(limits, y, i, paid, moved, t);
    }
  }

  lemma MineKeeps(limits: Limits, y: System, i: nat, paid: u256, moved: bool)
    requires Inv(limits, y)
    ensures Inv(limits, AfterMine(y, i, paid, moved))
  {
    if CanMine(y, i, paid) {
      MinedLedger(y, i, paid, moved);
      MinedFloor(limits, y, i, paid, moved);
    }
  }

  lemma CreditKeeps(limits: Limits, y: System, native: nat, token: Address, amount: nat)
    requires Inv(limits, y)
    ensures Inv(limits, AfterCredit(y, native, token, amount))
  {
    var z := AfterCredit(y, native, token, amount);
    assert forall t :: Balance(z.tokens, t) >= Balance(y.tokens, t);
    assert Ledger(z) && Floor(limits, z) && Snapshot(z);
  }

  lemma NextKeeps(limits: Limits, y: System, step: Step)
    requires Inv(limits, y)
    ensures Inv(limits, Next(limits, y, step))
  {
    match step
    case Acquire(tx) => AcquireKeeps(limits, y, tx);
    case ReadNative => ReadNativeKeeps(limits, y);
    case ReadTokens => ReadTokensKeeps(limits, y);
    case Commit(answers) => CommitKeeps(limits, y, answers);
    case Finish(delivered) => FinishKeeps(limits, y, delivered);
    case Receipt(i) => ReceiptKeeps(limits, y, i);
    case Timeout(i) => TimeoutKeeps(limits, y, i);
    case Mine(i, paid, moved) => MineKeeps(limits, y, i, paid, moved);
    case Credit(native, token, amount) => CreditKeeps(limits, y, native, token, amount);
  }

  lemma {:induction false} RunKeeps(limits: Limits, y: System, steps: seq<Step>)
    requires Inv(limits, y)
    ensures Inv(limits, Run(limits, y, steps))
    decreases |steps|
  {
    if steps != [] {
      NextKeeps(limits, y, steps[0]);
      RunKeeps(limits, Next(limits, y, steps[0]), steps[1..]);
    }
  }

  // ----- the main results, for every run of every fresh sender

  lemma Reachable(limits: Limits, y: System, steps: seq<Step>)
    requires Start(y)
    ensures Inv(limits, Run(limits, y, steps))
  {
    RunKeeps(limits, y, steps);
  }

  /** No run takes the wallet below its reserve plus what its unmined deposits may still cost. */
  lemma WalletFloor(limits: Limits, y: System, steps: seq<Step>, t: Address)
    requires Start(y)
    ensures var z := Run(limits, y, steps);
            && (z.log != [] ==> z.native >= limits.nativeReserve + Sum(z.log, UnminedGas))
            && Balance(z.tokens, t) >= Sum(z.log, UnminedTokens(t))
  {
    Reachable(limits, y, steps);
  }

  /** All gas ever paid, settled or not, stays within the budget, whatever the budget is. */
  lemma GasWithinBudget(limits: Limits, y: System, steps: seq<Step>)
    requires Start(y) && limits.gasBudget.Some?
    ensures var z := Run(limits, y, steps);
            Sum(z.log, PaidGas) <= z.state.gasSpent + z.state.gasReserved <= limits.gasBudget.value
  {
    Reachable(limits, y, steps);
    GasNeverClamps(Run(limits, y, steps).log);
  }

  /** The counters are the exact sums over the unsettled deposits: no saturating operator clamps. */
  lemma ReservationsAreExact(limits: Limits, y: System, steps: seq<Step>, t: Address)
    requires Start(y)
    ensures var z := Run(limits, y, steps);
            && z.state.gasReserved == Sum(z.log, HeldGas)
            && z.state.gasSpent == Sum(z.log, SettledGas)
            && Held(z.state.tokensReserved, t) == Sum(z.log, HeldTokens(t))
  {
    Reachable(limits, y, steps);
  }

  /**
   Broadcast nonces are the fetched starting nonce and its successors, without gap or reuse; a lost
   or timed-out deposit, or the last nonce, stops the sender.
   */
  lemma NonceDiscipline(limits: Limits, y: System, steps: seq<Step>)
    requires Start(y)
    ensures var z := Run(limits, y, steps);
            && (z.log != [] ==> z.fetched.Some?)
            && (forall i :: 0 <= i < |z.log| ==> NonceOf(z.log[i]) == z.fetched.value + i)
            && (forall i :: 0 <= i < |z.log| && (z.log[i].job.Lost? || z.log[i].job.TimedOut?) ==>
                  z.state.stopped.Some?)
            && (forall i :: 0 <= i < |z.log| && NonceOf(z.log[i]) == U64_MAX && !z.phase.Wire? ==>
                  z.state.stopped.Some?)
            && z.flag == z.state.stopped.Some?
  {
    Reachable(limits, y, steps);
  }

  /** The starting nonce is fetched once: a sender that has one keeps it in every run. */
  lemma {:induction false} FetchedOnce(limits: Limits, y: System, steps: seq<Step>)
    requires Inv(limits, y) && y.fetched.Some?
    ensures Run(limits, y, steps).fetched == y.fetched
    decreases |steps|
  {
    if steps != [] {
      NextKeeps(limits, y, steps[0]);
      FetchedOnce(limits, Next(limits, y, steps[0]), steps[1..]);
    }
  }

  /** Once stopped, always stopped: no further bytes leave the process. */
  lemma {:induction false} StopIsTerminal(limits: Limits, y: System, steps: seq<Step>)
    requires y.phase.Free? && y.state.stopped.Some?
    ensures var z := Run(limits, y, steps);
            z.phase.Free? && z.state.stopped.Some? && |z.log| == |y.log|
            && forall i :: 0 <= i < |y.log| ==> z.log[i].deposit == y.log[i].deposit
    decreases |steps|
  {
    if steps != [] {
      StopIsTerminal(limits, Next(limits, y, steps[0]), steps[1..]);
    }
  }

  /** What the funding check means over unbounded integers. */
  ghost predicate Funded(
    s: NonceState, limits: Limits, native: u256, tokens: u256, token: Address, amount: u256, gas: u256)
  {
    && (limits.gasBudget.Some? ==> s.gasSpent + s.gasReserved + gas <= limits.gasBudget.value)
    && limits.nativeReserve + s.gasReserved + gas <= native
    && Held(s.tokensReserved, token) + amount <= tokens
  }

  ghost predicate CheckIsExact(native: u256, tokens: u256) {
    forall s: NonceState, limits: Limits, token: Address, amount: u256, gas: u256 |
      s.gasSpent + s.gasReserved + gas <= U256_MAX ::
      FundingRefusal(s, limits, native, tokens, token, amount, gas).None?
      <==> Funded(s, limits, native, tokens, token, amount, gas)
  }

  /** The saturating check decides the exact condition precisely when both balances are below 2^256 - 1. */
  lemma FundingCheckExact(native: u256, tokens: u256)
    ensures CheckIsExact(native, tokens) <==> native < U256_MAX && tokens < U256_MAX
  {
    if native == U256_MAX {
      var limits := Limits(U256_MAX, None);
      assert FundingRefusal(INITIAL, limits, native, tokens, 0, 0, 1).None?;
      assert !Funded(INITIAL, limits, native, tokens, 0, 0, 1);
    } else if tokens == U256_MAX {
      var s := INITIAL.(tokensReserved := map[0 := U256_MAX]);
      var limits := Limits(0, None);
      assert FundingRefusal(s, limits, native, tokens, 0, 1, 0).None?;
      assert !Funded(s, limits, native, tokens, 0, 1, 0);
    }
  }
}
