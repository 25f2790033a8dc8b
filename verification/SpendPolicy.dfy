/**
 The operator's spend caps with a count persisted across restarts.  A ledger write can succeed,
 fail leaving the file as it was, or fail leaving it unreadable; the process can die in the middle
 of an operation and be started again.
 */
module SpendPolicy {
  import opened Prelude

  datatype Limits = Limits(maxTxsPerRun: u64, maxTxsTotal: Option<u64>)

  datatype Violation =
    | RunTooLarge(requested: u64, max: u64)
    | BudgetExhausted(requested: u64, remaining: u64, max: u64)
    | LedgerUnavailable

  datatype File = Missing | Count(transactions: u64) | Unreadable

  datatype Write = Written | FailedUntouched | FailedTorn

  /** What has been admitted so far; `ledger` is `None` for a policy kept in memory only. */
  datatype Spent = Spent(count: u64, ledger: Option<File>)

  function SatAdd64(a: u64, b: u64): u64 {
    if a + b > U64_MAX then U64_MAX else a + b
  }

  function ReadLedger(f: File): Option<u64> {
    match f
    case Missing => Some(0)
    case Count(n) => Some(n)
    case Unreadable => None
  }

  /** The file after an attempt to write `count`. */
  function WriteLedger(f: File, count: u64, w: Write): File {
    match w
    case Written => Count(count)
    case FailedUntouched => f
    case FailedTorn => Unreadable
  }

  function Wrote(s: Spent, count: u64, w: Write): Spent {
    Spent(count, if s.ledger.None? then None else Some(WriteLedger(s.ledger.value, count, w)))
  }

  function ReserveRefusal(limits: Limits, count: u64, n: u64): Option<Violation> {
    if n > limits.maxTxsPerRun then Some(RunTooLarge(n, limits.maxTxsPerRun))
    else if limits.maxTxsTotal.Some? && SatAdd64(count, n) > limits.maxTxsTotal.value then
      Some(BudgetExhausted(n, SatSub(limits.maxTxsTotal.value, count), limits.maxTxsTotal.value))
    else None
  }

  function AfterReserve(limits: Limits, s: Spent, n: u64, w: Write): (Spent, Option<Violation>) {
    var refusal := ReserveRefusal(limits, s.count, n);
    if refusal.Some? then (s, refusal) else
    var wrote := Wrote(s, SatAdd64(s.count, n), w);
    if s.ledger.Some? && !w.Written? then (wrote.(count := s.count), Some(LedgerUnavailable)) else (wrote, None)
  }

  function AfterRelease(s: Spent, n: u64, w: Write): Spent {
    Wrote(s, SatSub(s.count, n), w)
  }

  /**
   A reservation is admitted exactly when it is within the per-run cap, within the lifetime cap, and
   written if there is a ledger; a lifetime cap of the 64-bit maximum never refuses.  Every violation
   has its own condition, and the state after each case is the one stated.
   */
  lemma ReserveExactly(limits: Limits, s: Spent, n: u64, w: Write)
    ensures var (after, violation) := AfterReserve(limits, s, n, w);
            var fitsRun := n <= limits.maxTxsPerRun;
            var fitsTotal := limits.maxTxsTotal.None? || s.count + n <= limits.maxTxsTotal.value
                             || limits.maxTxsTotal.value == U64_MAX;
            var persisted := s.ledger.None? || w.Written?;
            var count := Min(s.count + n, U64_MAX);
            && (violation.None? <==> fitsRun && fitsTotal && persisted)
            && (violation.None? ==>
                  after == Spent(count, if s.ledger.None? then None else Some(Count(count))))
            && (!fitsRun ==> violation == Some(RunTooLarge(n, limits.maxTxsPerRun)) && after == s)
            && (fitsRun && !fitsTotal ==>
                  var max := limits.maxTxsTotal.value;
                  && violation == Some(BudgetExhausted(n, if s.count <= max then max - s.count else 0, max))
                  && after == s)
            && (fitsRun && fitsTotal && !persisted ==>
                  && violation == Some(LedgerUnavailable)
                  && after == Spent(s.count, Some(if w.FailedTorn? then Unreadable else s.ledger.value)))
  {
  }

  /** A release lowers the count in memory whatever becomes of the write. */
  lemma ReleaseExactly(s: Spent, n: u64, w: Write)
    ensures var after := AfterRelease(s, n, w);
            && after.count == (if n <= s.count then s.count - n else 0)
            && (s.ledger.None? <==> after.ledger.None?)
            && (s.ledger.Some? ==>
                  after.ledger.value == if w.Written? then Count(after.count)
                                        else if w.FailedTorn? then Unreadable else s.ledger.value)
  {
  }

  class Policy {
    const limits: Limits
    var count: u64
    var ledger: Option<File>

    function State(): Spent
      reads this
    {
      Spent(count, ledger)
    }

    constructor (limits: Limits, count: u64, ledger: Option<File>)
      ensures this.limits == limits && State() == Spent(count, ledger)
    {
      this.limits, this.count, this.ledger := limits, count, ledger;
    }

    /** Starting on an unreadable ledger fails; a missing one counts as zero. */
    static method Persistent(limits: Limits, f: File) returns (p: Policy?)
      ensures p == null <==> f.Unreadable?
      ensures p != null ==> fresh(p) && p.limits == limits
                            && p.State() == Spent(if f.Missing? then 0 else f.transactions, Some(f))
    {
      match ReadLedger(f)
      case None => p := null;
      case Some(count) => p := new Policy(limits, count, Some(f));
    }

    method WriteCount(w: Write) returns (ok: bool)
      modifies this`ledger
      ensures State() == Wrote(old(State()), count, w)
      ensures ok <==> old(ledger).None? || w.Written?
    {
      if ledger.None? {
        return true;
      }
      ledger := Some(WriteLedger(ledger.value, count, w));
      return w.Written?;
    }

    method Reserve(n: u64, w: Write) returns (violation: Option<Violation>)
      modifies this
      ensures (State(), violation) == AfterReserve(limits, old(State()), n, w)
    {
      if n > limits.maxTxsPerRun {
        return Some(RunTooLarge(n, limits.maxTxsPerRun));
      }
      var total := SatAdd64(count, n);
      if limits.maxTxsTotal.Some? && total > limits.maxTxsTotal.value {
        return Some(BudgetExhausted(n, SatSub(limits.maxTxsTotal.value, count), limits.maxTxsTotal.value));
      }
      var before := count;
      count := total;
      var ok := WriteCount(w);
      if !ok {
        count := before;
        return Some(LedgerUnavailable);
      }
      return None;
    }

    method Release(n: u64, w: Write)
      modifies this
      ensures State() == AfterRelease(old(State()), n, w)
    {
      count := SatSub(count, n);
      var _ := WriteCount(w);
    }
  }

  // ----- lifetimes of one server at a time

  datatype Server = Down | Up(count: u64)

  /** `net` is what was admitted and not handed back over all lifetimes; `open`, what live runs may still return. */
  datatype System = System(server: Server, file: File, net: int, open: nat)

  datatype Step =
    | Reserve(n: u64, w: Write, dies: bool)  // `dies`: the process is killed before the caller hears back
    | Release(n: u64, w: Write, dies: bool)
    | Restart

  function Next(limits: Limits, y: System, step: Step): System {
    match step
    case Reserve(n, w, dies) =>
      if y.server.Down? then y else
      var (s, violation) := AfterReserve(limits, Spent(y.server.count, Some(y.file)), n, w);
      if dies then System(Down, s.ledger.value, y.net, 0)
      else if violation.Some? then y.(server := Up(s.count), file := s.ledger.value)
      else System(Up(s.count), s.ledger.value, y.net + n, y.open + n)
    case Release(n, w, dies) =>
      if y.server.Down? || n > y.open then y else
      var s := AfterRelease(Spent(y.server.count, Some(y.file)), n, w);
      if dies then System(Down, s.ledger.value, y.net - n, 0)
      else System(Up(s.count), s.ledger.value, y.net - n, y.open - n)
    case Restart =>
      var read := ReadLedger(y.file);
      y.(server := if read.None? then Down else Up(read.value), open := 0)
  }

  function Run(limits: Limits, y: System, steps: seq<Step>): System
    decreases |steps|
  {
    if steps == [] then y else Run(limits, Next(limits, y, steps[0]), steps[1..])
  }

  /** Persisted at least `n`; an unreadable file refuses every later start, so it counts as any amount. */
  predicate Persists(f: File, n: int) {
    f.Unreadable? || n <= ReadLedger(f).value
  }

  /** admitted + initial <= in memory <= on disk <= cap */
  ghost predicate Inv(max: u64, start: nat, y: System) {
    && y.open <= y.net
    && start + y.net <= max
    && Persists(y.file, start + y.net)
    && (y.file.Unreadable? || ReadLedger(y.file).value <= max)
    && (y.server.Up? ==> start + y.net <= y.server.count <= max && Persists(y.file, y.server.count))
  }

  lemma NextKeeps(limits: Limits, start: nat, y: System, step: Step)
    requires limits.maxTxsTotal.Some? && limits.maxTxsTotal.value < U64_MAX
    requires Inv(limits.maxTxsTotal.value, start, y)
    ensures Inv(limits.maxTxsTotal.value, start, Next(limits, y, step))
  {
  }

  lemma {:induction false} RunKeeps(limits: Limits, start: nat, y: System, steps: seq<Step>)
    requires limits.maxTxsTotal.Some? && limits.maxTxsTotal.value < U64_MAX
    requires Inv(limits.maxTxsTotal.value, start, y)
    ensures Inv(limits.maxTxsTotal.value, start, Run(limits, y, steps))
    decreases |steps|
  {
    if steps != [] {
      NextKeeps(limits, start, y, steps[0]);
      RunKeeps(limits, start, Next(limits, y, steps[0]), steps[1..]);
    }
  }

  /** A first start on a readable ledger within the cap. */
  predicate Fresh(max: u64, y: System) {
    y.server.Down? && y.net == 0 && y.open == 0 && !y.file.Unreadable? && ReadLedger(y.file).value <= max
  }

  /** Over any run, whatever state it ends in, admitted spending stays within the counts and the cap. */
  lemma LedgerBoundsSpending(limits: Limits, y: System, steps: seq<Step>)
    requires limits.maxTxsTotal.Some? && limits.maxTxsTotal.value < U64_MAX && Fresh(limits.maxTxsTotal.value, y)
    ensures var z := Run(limits, y, steps);
            var start := ReadLedger(y.file).value;
            && start + z.net <= limits.maxTxsTotal.value
            && (z.server.Up? ==> start + z.net <= z.server.count <= limits.maxTxsTotal.value)
            && (z.server.Up? && !z.file.Unreadable? ==> z.server.count <= ReadLedger(z.file).value)
            && (!z.file.Unreadable? ==> start + z.net <= ReadLedger(z.file).value <= limits.maxTxsTotal.value)
  {
    RunKeeps(limits, ReadLedger(y.file).value, y, steps);
  }

  /** The amounts admitted, in order, by reservations whose caller heard back. */
  function Admitted(limits: Limits, y: System, steps: seq<Step>): seq<u64>
    decreases |steps|
  {
    if steps == [] then [] else
    var z := Next(limits, y, steps[0]);
    (if steps[0].Reserve? && z.net > y.net then [steps[0].n] else []) + Admitted(limits, z, steps[1..])
  }

  /** No run admits more than the per-run cap at once, under any write failures, kills and restarts. */
  lemma {:induction false} EveryAdmissionFits(limits: Limits, y: System, steps: seq<Step>)
    ensures forall i :: 0 <= i < |Admitted(limits, y, steps)| ==>
              Admitted(limits, y, steps)[i] <= limits.maxTxsPerRun
    decreases |steps|
  {
    if steps != [] {
      EveryAdmissionFits(limits, Next(limits, y, steps[0]), steps[1..]);
    }
  }

  /** Nothing is killed and no write fails; clean restarts are allowed. */
  predicate Clean(step: Step) {
    step.Restart? || (step.w.Written? && !step.dies)
  }

  /** In memory and on disk, exactly what was there at first plus what was admitted and not handed back. */
  ghost predicate Exact(start: nat, y: System) {
    && y.open <= y.net
    && !y.file.Unreadable? && ReadLedger(y.file).value == start + y.net
    && (y.server.Up? ==> y.server.count == start + y.net)
  }

  /** While no write fails and nothing is killed, both counts are exact. */
  lemma {:induction false} CountIsExact(limits: Limits, start: nat, y: System, steps: seq<Step>)
    requires limits.maxTxsTotal.Some? && limits.maxTxsTotal.value < U64_MAX
    requires Exact(start, y) && forall i :: 0 <= i < |steps| ==> Clean(steps[i])
    ensures Exact(start, Run(limits, y, steps))
    decreases |steps|
  {
    if steps != [] {
      CountIsExact(limits, start, Next(limits, y, steps[0]), steps[1..]);
    }
  }

  ghost predicate Honoured(limits: Limits)
    requires limits.maxTxsTotal.Some?
  {
    forall y: System, steps: seq<Step> | Fresh(limits.maxTxsTotal.value, y) ::
      ReadLedger(y.file).value + Run(limits, y, steps).net <= limits.maxTxsTotal.value
  }

  /** The lifetime cap is honoured in every run exactly when it is below the 64-bit maximum. */
  lemma CapHonouredExactly(limits: Limits)
    requires limits.maxTxsTotal.Some? && limits.maxTxsPerRun > 0
    ensures Honoured(limits) <==> limits.maxTxsTotal.value < U64_MAX
  {
    if limits.maxTxsTotal.value < U64_MAX {
      forall y: System, steps: seq<Step> | Fresh(limits.maxTxsTotal.value, y)
        ensures ReadLedger(y.file).value + Run(limits, y, steps).net <= limits.maxTxsTotal.value
      {
        LedgerBoundsSpending(limits, y, steps);
      }
    } else {
      var y := System(Down, Count(U64_MAX), 0, 0);
      var y1 := Next(limits, y, Restart);
      var y2 := Next(limits, y1, Reserve(1, Written, false));
      var steps := [Restart, Reserve(1, Written, false)];
      assert steps[1..] == [Reserve(1, Written, false)] && steps[1..][1..] == [];
      assert Run(limits, y1, steps[1..]) == y2;
      assert Run(limits, y, steps) == y2;
    }
  }
}
