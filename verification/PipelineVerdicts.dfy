/**
 When the pipelined sender sends a deposit and, when it does not, which refusal it gives: over
 unbounded integers, and in every state a run can reach.
 */
module PipelineVerdicts {
  import opened Prelude
  import opened Pipeline
  import opened PipelineRuns

  /** Not stopped, and both a nonce and a fill are at hand. */
  predicate Filled(s: NonceState, a: Answers) {
    s.stopped.None? && (s.next.Some? || a.startingNonce.Some?) && a.fill.Some?
  }

  /** The most the filled envelope can cost. */
  function Gas(a: Answers): u256
    requires a.fill.Some?
  {
    GasFits(a.fill.value.0, a.fill.value.1);
    a.fill.value.0 * a.fill.value.1
  }

  /** The gas already spent and this deposit alone pass the budget. */
  predicate Exhausts(s: NonceState, limits: Limits, gas: nat) {
    limits.gasBudget.Some? && s.gasSpent + gas > limits.gasBudget.value
  }

  /** Together with what is reserved they do. */
  predicate Crowds(s: NonceState, limits: Limits, gas: nat) {
    limits.gasBudget.Some? && s.gasSpent + s.gasReserved + gas > limits.gasBudget.value
  }

  /** Everything a broadcast needs before the deadline is looked at. */
  ghost predicate Ready(s: NonceState, limits: Limits, tx: Transaction, a: Answers) {
    && Filled(s, a) && a.balances.Some?
    && Funded(s, limits, a.balances.value.0, a.balances.value.1, tx.token, tx.amount, Gas(a))
  }

  /** Sums of gas fit 256 bits and the balances answered are below the maximum. */
  predicate Representable(s: NonceState, a: Answers) {
    && (a.fill.Some? ==> s.gasSpent + s.gasReserved + Gas(a) <= U256_MAX)
    && (a.balances.Some? ==> a.balances.value.0 < U256_MAX && a.balances.value.1 < U256_MAX)
  }

  /** The refusals that come before the balances are read. */
  ghost predicate EarlyVerdict(s: NonceState, limits: Limits, a: Answers, r: Result<Deposit, Refusal>) {
    && (r.Err? && r.error.Stopped? <==> s.stopped.Some?)
    && (s.stopped.Some? ==> r == Err(Stopped(s.stopped.value)))
    && (r == Err(NonceUnavailable) <==> s.stopped.None? && s.next.None? && a.startingNonce.None?)
    && (r == Err(FillFailed) <==>
        s.stopped.None? && (s.next.Some? || a.startingNonce.Some?) && a.fill.None?)
    && (r == Err(BudgetSpent) <==> Filled(s, a) && Exhausts(s, limits, Gas(a)))
    && (r == Err(BalancesUnavailable) <==> Filled(s, a) && !Exhausts(s, limits, Gas(a)) && a.balances.None?)
  }

  /** The refusals that need the balances. */
  ghost predicate LateVerdict(
    s: NonceState, limits: Limits, tx: Transaction, a: Answers, r: Result<Deposit, Refusal>)
  {
    && (r == Err(WaitingForGasReservations) <==>
        && Filled(s, a) && a.balances.Some?
        && !Exhausts(s, limits, Gas(a)) && Crowds(s, limits, Gas(a)))
    && (r == Err(NativeReserved) <==>
        && Filled(s, a) && a.balances.Some? && !Crowds(s, limits, Gas(a))
        && a.balances.value.0 < limits.nativeReserve + s.gasReserved + Gas(a))
    && (r == Err(TokensReserved) <==>
        && Filled(s, a) && a.balances.Some? && !Crowds(s, limits, Gas(a))
        && a.balances.value.0 >= limits.nativeReserve + s.gasReserved + Gas(a)
        && a.balances.value.1 < Held(s.tokensReserved, tx.token) + tx.amount)
    && (r == Err(QuoteExpired) <==> Ready(s, limits, tx, a) && a.expired)
  }

  /**
   A commit succeeds exactly when the sender is not stopped, a nonce, a fill and both balances are
   there, the deposit is funded and the quote has not expired.  Every refusal has its own condition,
   and the sender stops exactly when the budget cannot pay for this deposit at all.
   */
  lemma CommitExactly(s: NonceState, limits: Limits, tx: Transaction, a: Answers)
    requires Representable(s, a)
    ensures var (z, r) := Committed(s, limits, tx, a);
            && (r.Ok? <==> Ready(s, limits, tx, a) && !a.expired)
            && (r.Ok? ==>
                  var nonce := if s.next.Some? then s.next.value else a.startingNonce.value;
                  r.value == Deposit(Envelope(nonce, a.fill.value.0, a.fill.value.1), Gas(a), tx.token, tx.amount))
            && EarlyVerdict(s, limits, a, r)
            && LateVerdict(s, limits, tx, a, r)
            && z.stopped == (if Filled(s, a) && Exhausts(s, limits, Gas(a)) then Some(BudgetReached) else s.stopped)
  {
  }

  /** What a commit step answers; the balances are those the sender read. */
  predicate Answering(y: System, a: Answers) {
    y.phase.Reading? && (a.balances.Some? ==> a.balances.value == (y.phase.native, y.phase.tokens))
  }

  lemma ReachableFits(limits: Limits, y: System, a: Answers)
    requires Inv(limits, y) && Answering(y, a)
    ensures Representable(y.state, a)
  {
    if a.fill.Some? {
      var nonce := if y.state.next.Some? then y.state.next.value else 0;
      OneMoreFits(y, Deposit(Envelope(nonce, a.fill.value.0, a.fill.value.1), Gas(a), 0, 0));
    }
  }

  /** In every run, a commit puts a deposit on the wire exactly when it is ready and its quote is current. */
  lemma SendsExactly(limits: Limits, y: System, steps: seq<Step>, a: Answers)
    requires Start(y) && Answering(Run(limits, y, steps), a)
    ensures var z := Run(limits, y, steps);
            var after := AfterCommit(limits, z, a);
            var ready := Ready(z.state, limits, z.phase.tx, a) && !a.expired;
            && (after.phase.Wire? <==> ready)
            && |after.log| == |z.log| + (if ready then 1 else 0)
  {
    Reachable(limits, y, steps);
    ReachableFits(limits, Run(limits, y, steps), a);
    CommitExactly(Run(limits, y, steps).state, limits, Run(limits, y, steps).phase.tx, a);
  }

  /** In every run, once a deposit alone would pass the budget, nothing is broadcast any more. */
  lemma BudgetIsTerminal(limits: Limits, y: System, steps: seq<Step>, a: Answers, later: seq<Step>)
    requires Start(y) && Answering(Run(limits, y, steps), a)
    requires var z := Run(limits, y, steps); Filled(z.state, a) && Exhausts(z.state, limits, Gas(a))
    ensures var z := Run(limits, y, steps);
            var end := Run(limits, AfterCommit(limits, z, a), later);
            end.state.stopped.Some? && |end.log| == |z.log|
  {
    var z := Run(limits, y, steps);
    Reachable(limits, y, steps);
    ReachableFits(limits, z, a);
    CommitExactly(z.state, limits, z.phase.tx, a);
    StopIsTerminal(limits, AfterCommit(limits, z, a), later);
  }
}
