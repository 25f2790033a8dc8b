/**
 The pipelined deposit sender: one wallet, one lock, many concurrent jobs.

 `NonceState` is the value guarded by the lock.  The functions below give each operation's effect
 on that value; the class at the end performs the same operations in place and is proved against
 them.  Answers of the network (initial nonce, fill, balances, clock) arrive as parameters.
 */
module Pipeline {
  import opened Prelude

  type Address = nat

  /** A signed envelope; the value itself stands for its hash. */
  datatype Envelope = Envelope(nonce: u64, gasLimit: u64, maxFeePerGas: u128)

  datatype Deposit = Deposit(envelope: Envelope, gas: u256, token: Address, amount: u256)

  datatype Limits = Limits(nativeReserve: u256, gasBudget: Option<u256>)

  datatype Transaction = Transaction(token: Address, amount: u256)

  datatype StopReason =
    | Unconfirmed(deposit: Deposit)
    | Undelivered(deposit: Deposit)
    | NonceSpaceExhausted
    | BudgetReached

  datatype Refusal =
    | Stopped(reason: StopReason)
    | NonceUnavailable
    | FillFailed
    | BudgetSpent
    | BalancesUnavailable
    | WaitingForGasReservations
    | NativeReserved
    | TokensReserved
    | QuoteExpired

  datatype SendError = NotSent(refusal: Refusal) | Uncertain(reason: StopReason)

  datatype NonceState = NonceState(
    next: Option<u64>,
    gasReserved: u256,
    gasSpent: u256,
    tokensReserved: map<Address, u256>,
    stopped: Option<StopReason>)

  /** What the network and the clock answer while one broadcast holds the lock. */
  datatype Answers = Answers(
    startingNonce: Option<u64>,
    fill: Option<(u64, u128)>,
    balances: Option<(u256, u256)>,
    expired: bool)

  const INITIAL := NonceState(None, 0, 0, map[], None)

  function Held(tokens: map<Address, u256>, token: Address): u256 {
    if token in tokens then tokens[token] else 0
  }

  lemma GasFits(gasLimit: nat, fee: nat)
    requires gasLimit <= U64_MAX && fee <= U128_MAX
    ensures 0 <= gasLimit * fee <= U64_MAX * U128_MAX <= U256_MAX
  {
    calc {
      gasLimit * fee;
    <= { MulMonotone(gasLimit, U64_MAX, fee); }
      U64_MAX * fee;
    <= { MulMonotone(fee, U128_MAX, U64_MAX); }
      U64_MAX * U128_MAX;
    }
  }

  lemma MulMonotone(a: nat, b: nat, c: nat)
    requires a <= b
    ensures a * c <= b * c
  {
  }

  /** Gas times price; the 256-bit product never overflows. */
  function Cost(gas: u64, price: u128): u256 {
    GasFits(gas, price);
    gas * price
  }

  /** The most an envelope can cost. */
  function MaxCost(e: Envelope): u256 {
    Cost(e.gasLimit, e.maxFeePerGas)
  }

  predicate OverBudget(limits: Limits, spent: u256) {
    limits.gasBudget.Some? && spent > limits.gasBudget.value
  }

  /** The verdict on one more deposit of `amount` and `gas`; `None` means it is funded. */
  function FundingRefusal(
    s: NonceState, limits: Limits, native: u256, tokens: u256, token: Address, amount: u256, gas: u256
  ): Option<Refusal>
  {
    var reserved := SatAdd256(s.gasReserved, gas);
    if OverBudget(limits, SatAdd256(s.gasSpent, reserved)) then Some(WaitingForGasReservations)
    else if native < SatAdd256(limits.nativeReserve, reserved) then Some(NativeReserved)
    else if tokens < SatAdd256(Held(s.tokensReserved, token), amount) then Some(TokensReserved)
    else None
  }

  function Reserved(s: NonceState, d: Deposit): NonceState {
    s.(gasReserved := SatAdd256(s.gasReserved, d.gas),
       tokensReserved := s.tokensReserved[d.token := SatAdd256(Held(s.tokensReserved, d.token), d.amount)])
  }

  function Released(s: NonceState, d: Deposit, paid: u256): NonceState {
    s.(gasReserved := SatSub(s.gasReserved, d.gas),
       gasSpent := SatAdd256(s.gasSpent, paid),
       tokensReserved := s.tokensReserved[d.token := SatSub(Held(s.tokensReserved, d.token), d.amount)])
  }

  /** Nonce, fill, budget, balances, funding, deadline: in that order, the first failure wins. */
  function Prepared(s: NonceState, limits: Limits, tx: Transaction, a: Answers)
    : (NonceState, Result<Envelope, Refusal>)
  {
    if s.next.None? && a.startingNonce.None? then (s, Err(NonceUnavailable)) else
    var s := if s.next.None? then s.(next := a.startingNonce) else s;
    if a.fill.None? then (s, Err(FillFailed)) else
    var e := Envelope(s.next.value, a.fill.value.0, a.fill.value.1);
    var gas := MaxCost(e);
    if OverBudget(limits, SatAdd256(s.gasSpent, gas)) then
      (s.(stopped := Some(BudgetReached)), Err(BudgetSpent))
    else if a.balances.None? then (s, Err(BalancesUnavailable))
    else
      var refusal := FundingRefusal(s, limits, a.balances.value.0, a.balances.value.1, tx.token, tx.amount, gas);
      if refusal.Some? then (s, Err(refusal.value))
      else if a.expired then (s, Err(QuoteExpired))
      else (s, Ok(e))
  }

  /** Everything a broadcast does before its bytes reach the network. */
  function Committed(s: NonceState, limits: Limits, tx: Transaction, a: Answers)
    : (NonceState, Result<Deposit, Refusal>)
  {
    if s.stopped.Some? then (s, Err(Stopped(s.stopped.value))) else
    var (s, prepared) := Prepared(s, limits, tx, a);
    match prepared
    case Err(refusal) => (s, Err(refusal))
    case Ok(e) =>
      var d := Deposit(e, MaxCost(e), tx.token, tx.amount);
      (Reserved(s, d), Ok(d))
  }

  function NextNonce(nonce: u64): Option<u64> {
    if nonce == U64_MAX then None else Some(nonce + 1)
  }

  /** What it does once the network has answered; `delivered` = accepted, or known by hash. */
  function Concluded(s: NonceState, d: Deposit, delivered: bool): NonceState {
    if !delivered then s.(stopped := Some(Undelivered(d)))
    else
      var next := NextNonce(d.envelope.nonce);
      s.(next := next, stopped := if next.None? then Some(NonceSpaceExhausted) else s.stopped)
  }

  class PipelinedSender {
    const limits: Limits
    var next: Option<u64>
    var gasReserved: u256
    var gasSpent: u256
    var tokensReserved: map<Address, u256>
    var reason: Option<StopReason>
    var broadcasts: nat
    var stopped: bool

    function State(): NonceState
      reads this
    {
      NonceState(next, gasReserved, gasSpent, tokensReserved, reason)
    }

    /** Between operations the lock-free flag tells exactly whether a stop reason is set. */
    ghost predicate Valid()
      reads this
    {
      stopped == reason.Some?
    }

    constructor (limits: Limits)
      ensures Valid() && State() == INITIAL && broadcasts == 0 && this.limits == limits
    {
      this.limits := limits;
      next, gasReserved, gasSpent, tokensReserved := None, 0, 0, map[];
      reason, broadcasts, stopped := None, 0, false;
    }

    method CheckFunding(native: u256, tokens: u256, token: Address, amount: u256, gas: u256)
      returns (refusal: Option<Refusal>)
      ensures refusal == FundingRefusal(State(), limits, native, tokens, token, amount, gas)
    {
      var reserved := SatAdd256(gasReserved, gas);
      if limits.gasBudget.Some? && SatAdd256(gasSpent, reserved) > limits.gasBudget.value {
        return Some(WaitingForGasReservations);
      }
      if native < SatAdd256(limits.nativeReserve, reserved) {
        return Some(NativeReserved);
      }
      if tokens < SatAdd256(Held(tokensReserved, token), amount) {
        return Some(TokensReserved);
      }
      return None;
    }

    method Reserve(d: Deposit)
      modifies this
      ensures State() == Reserved(old(State()), d)
      ensures stopped == old(stopped) && broadcasts == old(broadcasts)
    {
      gasReserved := SatAdd256(gasReserved, d.gas);
      tokensReserved := tokensReserved[d.token := SatAdd256(Held(tokensReserved, d.token), d.amount)];
    }

    method Release(d: Deposit, paid: u256)
      modifies this
      ensures State() == Released(old(State()), d, paid)
      ensures stopped == old(stopped) && broadcasts == old(broadcasts)
    {
      gasReserved := SatSub(gasReserved, d.gas);
      gasSpent := SatAdd256(gasSpent, paid);
      tokensReserved := tokensReserved[d.token := SatSub(Held(tokensReserved, d.token), d.amount)];
    }

    method Prepare(tx: Transaction, a: Answers) returns (r: Result<Envelope, Refusal>)
      modifies this
      ensures (State(), r) == Prepared(old(State()), limits, tx, a)
      ensures stopped == old(stopped) && broadcasts == old(broadcasts)
    {
      if next.None? {
        if a.startingNonce.None? {
          return Err(NonceUnavailable);
        }
        next := a.startingNonce;
      }
      if a.fill.None? {
        return Err(FillFailed);
      }
      var e := Envelope(next.value, a.fill.value.0, a.fill.value.1);
      var gas := MaxCost(e);
      if limits.gasBudget.Some? && SatAdd256(gasSpent, gas) > limits.gasBudget.value {
        reason := Some(BudgetReached);
        return Err(BudgetSpent);
      }
      if a.balances.None? {
        return Err(BalancesUnavailable);
      }
      var refusal := CheckFunding(a.balances.value.0, a.balances.value.1, tx.token, tx.amount, gas);
      if refusal.Some? {
        return Err(refusal.value);
      }
      if a.expired {
        return Err(QuoteExpired);
      }
      return Ok(e);
    }

    method Broadcast(tx: Transaction, a: Answers, accepted: bool, knownByHash: bool)
      returns (r: Result<Deposit, SendError>)
      requires Valid()
      modifies this
      ensures Valid()
      ensures var (s, c) := Committed(old(State()), limits, tx, a);
              && (c.Err? ==> r == Err(NotSent(c.error)) && State() == s)
              && (c.Ok? ==> State() == Concluded(s, c.value, accepted || knownByHash))
              && (c.Ok? ==>
                    r == if accepted || knownByHash then Ok(c.value) else Err(Uncertain(Undelivered(c.value))))
      ensures r.Ok? ==> var d := r.value;
                        && d.token == tx.token && d.amount == tx.amount
                        && d.gas == d.envelope.gasLimit * d.envelope.maxFeePerGas
      ensures broadcasts == old(broadcasts) + if r.Ok? then 1 else 0
      ensures r.Err? && r.error.Uncertain? ==> reason == Some(r.error.reason) && r.error.reason.Undelivered?
      ensures r.Ok? ==> if r.value.envelope.nonce == U64_MAX then reason == Some(NonceSpaceExhausted)
                        else reason.None? && next == Some(r.value.envelope.nonce + 1)
    {
      if reason.Some? {
        return Err(NotSent(Stopped(reason.value)));
      }
      var prepared := Prepare(tx, a);
      if prepared.Err? {
        stopped := reason.Some?;
        return Err(NotSent(prepared.error));
      }
      var d := Deposit(prepared.value, MaxCost(prepared.value), tx.token, tx.amount);
      Reserve(d);
      if !accepted && !knownByHash {
        reason := Some(Undelivered(d));
        stopped := true;
        return Err(Uncertain(Undelivered(d)));
      }
      next := NextNonce(prepared.value.nonce);
      if next.None? {
        reason := Some(NonceSpaceExhausted);
        stopped := true;
      }
      broadcasts := broadcasts + 1;
      return Ok(d);
    }

    /** The second half of `send`: `receipt` is (gas used, effective price), `None` a timeout. */
    method Settle(d: Deposit, receipt: Option<(u64, u128)>) returns (r: Result<u256, SendError>)
      requires Valid()
      modifies this
      ensures Valid() && broadcasts == old(broadcasts)
      ensures receipt.None? ==> r == Err(Uncertain(Unconfirmed(d)))
                                && State() == old(State()).(stopped := Some(Unconfirmed(d)))
      ensures receipt.Some? ==> r.Ok? && r.value == receipt.value.0 * receipt.value.1
                                && State() == Released(old(State()), d, r.value)
    {
      match receipt
      case Some(paid) =>
        var cost := Cost(paid.0, paid.1);
        Release(d, cost);
        return Ok(cost);
      case None =>
        reason := Some(Unconfirmed(d));
        stopped := true;
        return Err(Uncertain(Unconfirmed(d)));
    }
  }
}
