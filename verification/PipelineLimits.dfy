/**
 Why the balances a broadcast checks must be current: an endpoint that still reports the balance
 from before a settled deposit lets a commit pass that the wallet cannot cover.
 */
module PipelineLimits {
  import opened Prelude
  import opened Pipeline
  import opened PipelineRuns

  /** A commit whose native balance comes from an endpoint lagging behind the chain. */
  function StaleCommit(limits: Limits, y: System, native: u256, a: Answers): System
    requires y.phase.Reading?
  {
    AfterCommit(limits, y.(phase := y.phase.(native := native)), a)
  }

  function Filled(nonce: u64, gas: u64, fee: u128, native: u256): Answers {
    Answers(Some(nonce), Some((gas, fee)), Some((native, 0)), false)
  }

  const JOB := Transaction(0, 0)

  /** One deposit broadcast, mined at full cost and settled; then the next job takes the lock. */
  function SettledOnce(nonce: u64, gas: u64, fee: u128, native: u256): seq<Step> {
    [Acquire(JOB), Commit(Filled(nonce, gas, fee, native)), Finish(true)]
    + [Mine(0, Cost(gas, fee), true), Receipt(0), Acquire(JOB)]
  }

  lemma RunFirst(limits: Limits, y: System, a: Step, rest: seq<Step>)
    ensures Run(limits, y, [a] + rest) == Run(limits, Next(limits, y, a), rest)
  {
    assert ([a] + rest)[1..] == rest;
  }

  lemma RunThree(limits: Limits, y: System, a: Step, b: Step, c: Step, rest: seq<Step>)
    ensures Run(limits, y, [a, b, c] + rest)
            == Run(limits, Next(limits, Next(limits, Next(limits, y, a), b), c), rest)
  {
    assert [a, b, c] + rest == [a] + ([b] + ([c] + rest));
    RunFirst(limits, y, a, [b] + ([c] + rest));
    RunFirst(limits, Next(limits, y, a), b, [c] + rest);
    RunFirst(limits, Next(limits, Next(limits, y, a), b), c, rest);
  }

  /** After the broadcast: one deposit awaits its receipt and all of its cost is reserved. */
  function Awaited(reserve: u256, nonce: u64, gas: u64, fee: u128): System
    requires nonce < U64_MAX && reserve + Cost(gas, fee) < U256_MAX
  {
    var d := Deposit(Envelope(nonce, gas, fee), Cost(gas, fee), 0, 0);
    System(NonceState(Some(nonce + 1), Cost(gas, fee), 0, map[0 := 0], None), Some(nonce), false, Free,
           [Record(d, Awaiting, None)], reserve + Cost(gas, fee), map[])
  }

  lemma BroadcastOnce(reserve: u256, nonce: u64, gas: u64, fee: u128)
    requires nonce < U64_MAX && reserve + Cost(gas, fee) < U256_MAX
    ensures var limits := Limits(reserve, None);
            var native := reserve + Cost(gas, fee);
            var y := System(INITIAL, None, false, Free, [], native, map[]);
            AfterFinish(AfterCommit(limits, AfterAcquire(y, JOB), Filled(nonce, gas, fee, native)), true)
            == Awaited(reserve, nonce, gas, fee)
  {
    var limits := Limits(reserve, None);
    var native := reserve + Cost(gas, fee);
    var y := AfterAcquire(System(INITIAL, None, false, Free, [], native, map[]), JOB);
    var z := AfterCommit(limits, y, Filled(nonce, gas, fee, native));
    var d := Deposit(Envelope(nonce, gas, fee), Cost(gas, fee), 0, 0);
    assert z.phase.Wire? && z.log == [Record(d, InFlight, None)];
    assert z.state == NonceState(Some(nonce), Cost(gas, fee), 0, map[0 := 0], None);
    assert AfterFinish(z, true).log == [Record(d, Awaiting, None)];
  }

  lemma SettleOnce(reserve: u256, nonce: u64, gas: u64, fee: u128)
    requires nonce < U64_MAX && reserve + Cost(gas, fee) < U256_MAX
    ensures var y := Awaited(reserve, nonce, gas, fee);
            var z := AfterAcquire(AfterReceipt(AfterMine(y, 0, Cost(gas, fee), true), 0), JOB);
            && z.phase == Reading(JOB, reserve, 0) && z.native == reserve && z.fetched == Some(nonce)
            && z.state == NonceState(Some(nonce + 1), 0, Cost(gas, fee), map[0 := 0], None)
            && |z.log| == 1 && z.log[0].paid.Some?
  {
  }

  lemma BreaksFloor(limits: Limits, z: System, native: u256, a: Answers)
    requires z.phase == Reading(JOB, limits.nativeReserve, 0) && z.native == limits.nativeReserve
    requires limits.gasBudget.None? && z.state.stopped.None? && z.state.next.Some?
    requires z.state.gasReserved == 0 && Held(z.state.tokensReserved, 0) == 0
    requires a.fill.Some? && 0 < Cost(a.fill.value.0, a.fill.value.1) && !a.expired
    requires native == limits.nativeReserve + Cost(a.fill.value.0, a.fill.value.1)
    requires a.balances == Some((native, 0))
    ensures !Floor(limits, StaleCommit(limits, z, native, a))
  {
    var w := StaleCommit(limits, z, native, a);
    assert w.phase.Wire?;
    SumsAppend(z.log, w.log[|z.log|]);
  }

  /** If the balance from before a settled deposit is still reported, the next deposit breaks the floor. */
  lemma StaleBalanceUnsafe(reserve: u256, nonce: u64, gas: u64, fee: u128)
    requires nonce < U64_MAX && 0 < Cost(gas, fee) && reserve + Cost(gas, fee) < U256_MAX
    ensures var limits := Limits(reserve, None);
            var native := reserve + Cost(gas, fee);
            var y := System(INITIAL, None, false, Free, [], native, map[]);
            var z := Run(limits, y, SettledOnce(nonce, gas, fee, native));
            && Start(y) && z.phase.Reading?
            && !Floor(limits, StaleCommit(limits, z, native, Filled(nonce, gas, fee, native)))
  {
    var limits := Limits(reserve, None);
    var native := reserve + Cost(gas, fee);
    var y := System(INITIAL, None, false, Free, [], native, map[]);
    var answers := Filled(nonce, gas, fee, native);
    var rest := [Mine(0, Cost(gas, fee), true), Receipt(0), Acquire(JOB)];
    RunThree(limits, y, Acquire(JOB), Commit(answers), Finish(true), rest);
    RunThree(limits, Awaited(reserve, nonce, gas, fee), rest[0], rest[1], rest[2], []);
    assert rest + [] == rest;
    BroadcastOnce(reserve, nonce, gas, fee);
    SettleOnce(reserve, nonce, gas, fee);
    var z := Run(limits, y, SettledOnce(nonce, gas, fee, native));
    BreaksFloor(limits, z, native, answers);
  }
}
