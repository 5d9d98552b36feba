/**
 The daily token budget: `DailyTokenBudget` and the part of `CodexCliRunner.run` that
 reserves before a request and settles after it.  Days are numbered.
 */
module TokenLedger {
  import opened Prelude

  datatype Reservation = Reservation(input: nat, output: nat, unlimited: bool)

  datatype Ledger = Ledger(limit: nat, day: int, allocatedTokens: int)

  /** `ValueError`, or the budget error with what it reports. */
  datatype Refusal = NotPositive | BudgetExceeded(limit: nat, allocatedTokens: int)

  const TOKEN_BYTES: nat := 4

  /** `_estimate_tokens` of so many bytes. */
  function EstimateTokens(bytes: nat): nat {
    var n := (bytes + TOKEN_BYTES - 1) / TOKEN_BYTES;
    if n < 1 then 1 else n
  }

  /** The cap on a process's output: `min(max_output_bytes, output_tokens * 4)`. */
  function OutputCap(maxBytes: nat, reservation: Reservation): nat {
    if maxBytes < reservation.output * TOKEN_BYTES then maxBytes else reservation.output * TOKEN_BYTES
  }

  function Min(a: int, b: int): int {
    if b < a then b else a
  }

  function Max(a: int, b: int): int {
    if a < b then b else a
  }

  function RollOver(l: Ledger, today: int): Ledger {
    if today != l.day then l.(day := today, allocatedTokens := 0) else l
  }

  function Reserve(l: Ledger, today: int, input: int, output: int): (Ledger, Result<Reservation, Refusal>) {
    if input < 1 || output < 1 then (l, Err(NotPositive))
    else if l.limit == 0 then (l, Ok(Reservation(input, output, true)))
    else
      var m := RollOver(l, today);
      var available := m.limit - m.allocatedTokens;
      if available < input + 1 then (m, Err(BudgetExceeded(m.limit, m.allocatedTokens)))
      else
        var allowed := Min(output, available - input);
        (m.(allocatedTokens := m.allocatedTokens + input + allowed), Ok(Reservation(input, allowed, false)))
  }

  function Finalize(l: Ledger, today: int, r: Reservation, actual: int): Ledger {
    if r.unlimited then l
    else
      var m := RollOver(l, today);
      m.(allocatedTokens := Max(0, m.allocatedTokens - (r.output - Min(Max(0, actual), r.output))))
  }

  function Release(l: Ledger, today: int, r: Reservation): Ledger {
    if r.unlimited then l
    else
      var m := RollOver(l, today);
      m.(allocatedTokens := Max(0, m.allocatedTokens - r.input - r.output))
  }

  class DailyTokenBudget {
    const limit: nat
    var day: int
    var allocatedTokens: int

    ghost function View(): Ledger
      reads this
    {
      Ledger(limit, day, allocatedTokens)
    }

    constructor (limit: nat, today: int)
      ensures View() == Ledger(limit, today, 0)
    {
      this.limit, day, allocatedTokens := limit, today, 0;
    }

    method RolloverIfNeeded(today: int)
      modifies this
      ensures View() == RollOver(old(View()), today)
    {
      if today != day {
        day, allocatedTokens := today, 0;
      }
    }

    method ReserveTokens(today: int, input: int, output: int) returns (result: Result<Reservation, Refusal>)
      modifies this
      ensures (View(), result) == Reserve(old(View()), today, input, output)
    {
      if input < 1 || output < 1 {
        return Err(NotPositive);
      }
      if limit == 0 {
        return Ok(Reservation(input, output, true));
      }
      RolloverIfNeeded(today);
      var available := limit - allocatedTokens;
      if available < input + 1 {
        return Err(BudgetExceeded(limit, allocatedTokens));
      }
      var allowed := Min(output, available - input);
      allocatedTokens := allocatedTokens + input + allowed;
      return Ok(Reservation(input, allowed, false));
    }

    method FinalizeTokens(today: int, r: Reservation, actual: int)
      modifies this
      ensures View() == Finalize(old(View()), today, r, actual)
    {
      if !r.unlimited {
        var used := Min(Max(0, actual), r.output);
        RolloverIfNeeded(today);
        allocatedTokens := Max(0, allocatedTokens - (r.output - used));
      }
    }

    method ReleaseTokens(today: int, r: Reservation)
      modifies this
      ensures View() == Release(old(View()), today, r)
    {
      if !r.unlimited {
        RolloverIfNeeded(today);
        allocatedTokens := Max(0, allocatedTokens - r.input - r.output);
      }
    }
  }

  // ---------- one day ----------

  /** The ledger, the reservations still open, and the tokens settled so far. */
  datatype World = World(ledger: Ledger, open: seq<Reservation>, settled: nat)

  /** What a request does; a settlement names its reservation by position. */
  datatype Action =
    | Ask(input: int, output: int)
    | Succeed(k: nat, bytes: nat, maxBytes: nat)
    | GiveUp(k: nat)

  function Cost(r: Reservation): nat {
    if r.unlimited then 0 else r.input + r.output
  }

  function OpenCost(open: seq<Reservation>): nat {
    if |open| == 0 then 0 else OpenCost(open[..|open| - 1]) + Cost(open[|open| - 1])
  }

  function Removed(open: seq<Reservation>, k: nat): seq<Reservation>
    requires k < |open|
  {
    open[..k] + open[k + 1..]
  }

  /** A success passed the size checks, so its final bytes are within the cap. */
  predicate Possible(w: World, action: Action) {
    match action
    case Ask(_, _) => true
    case Succeed(k, bytes, maxBytes) => k < |w.open| && bytes <= OutputCap(maxBytes, w.open[k])
    case GiveUp(k) => k < |w.open|
  }

  function Act(w: World, today: int, action: Action): World
    requires Possible(w, action)
  {
    match action
    case Ask(input, output) =>
      var (ledger, result) := Reserve(w.ledger, today, input, output);
      if result.Ok? then World(ledger, w.open + [result.value], w.settled) else w.(ledger := ledger)
    case Succeed(k, bytes, _) =>
      World(Finalize(w.ledger, today, w.open[k], EstimateTokens(bytes)), Removed(w.open, k),
            w.settled + if w.open[k].unlimited then 0 else w.open[k].input + EstimateTokens(bytes))
    case GiveUp(k) => World(Release(w.ledger, today, w.open[k]), Removed(w.open, k), w.settled)
  }

  /** Everything allocated is an open reservation or settled usage, within the limit. */
  predicate Balanced(w: World, today: int) {
    && w.ledger.day == today
    && w.ledger.allocatedTokens == OpenCost(w.open) + w.settled
    && w.ledger.allocatedTokens <= w.ledger.limit
    && forall k :: 0 <= k < |w.open| ==> w.open[k].input >= 1 && w.open[k].output >= 1
  }

  lemma {:induction false} RemovedCost(open: seq<Reservation>, k: nat)
    requires k < |open|
    ensures OpenCost(open) == OpenCost(Removed(open, k)) + Cost(open[k])
  {
    var n := |open| - 1;
    if k == n {
      assert Removed(open, k) == open[..n];
    } else {
      RemovedCost(open[..n], k);
      assert Removed(open, k)[..n - 1] == Removed(open[..n], k);
      assert Removed(open, k)[n - 1] == open[n];
    }
  }

  /** The byte cap keeps actual usage within the reservation: the clamp in `finalize` never bites. */
  lemma UsageWithinReservation(r: Reservation, bytes: nat, maxBytes: nat)
    requires r.output >= 1 && bytes <= OutputCap(maxBytes, r)
    ensures 1 <= EstimateTokens(bytes) <= r.output
    ensures Min(Max(0, EstimateTokens(bytes)), r.output) == EstimateTokens(bytes)
  {
  }

  /** Within a day no guard bites: what comes off the ledger is exactly the unused part. */
  lemma SettlesExactly(w: World, today: int, k: nat, bytes: nat, maxBytes: nat)
    requires Balanced(w, today) && k < |w.open| && !w.open[k].unlimited
    ensures Release(w.ledger, today, w.open[k]).allocatedTokens == w.ledger.allocatedTokens - w.open[k].input - w.open[k].output >= 0
    ensures bytes <= OutputCap(maxBytes, w.open[k]) ==>
      Finalize(w.ledger, today, w.open[k], EstimateTokens(bytes)).allocatedTokens
        == w.ledger.allocatedTokens - w.open[k].output + EstimateTokens(bytes) >= 0
  {
    RemovedCost(w.open, k);
    if bytes <= OutputCap(maxBytes, w.open[k]) {
      UsageWithinReservation(w.open[k], bytes, maxBytes);
    }
  }

  lemma ActBalances(w: World, today: int, action: Action)
    requires Balanced(w, today) && Possible(w, action)
    ensures Balanced(Act(w, today, action), today)
    ensures Act(w, today, action).ledger.limit == w.ledger.limit
  {
    match action
    case Ask(input, output) =>
      var (ledger, result) := Reserve(w.ledger, today, input, output);
      if result.Ok? {
        assert (w.open + [result.value])[..|w.open|] == w.open;
      }
    case Succeed(k, bytes, maxBytes) =>
      RemovedCost(w.open, k);
      UsageWithinReservation(w.open[k], bytes, maxBytes);
      if !w.open[k].unlimited {
        SettlesExactly(w, today, k, bytes, maxBytes);
      }
    case GiveUp(k) =>
      RemovedCost(w.open, k);
      if !w.open[k].unlimited {
        SettlesExactly(w, today, k, 0, 0);
      }
  }

  /** The worlds of one day, action by action. */
  ghost predicate Day(worlds: seq<World>, actions: seq<Action>, today: int) {
    && |worlds| == |actions| + 1
    && worlds[0].ledger.day == today && worlds[0].ledger.allocatedTokens == 0 && worlds[0].open == [] && worlds[0].settled == 0
    && forall i :: 0 <= i < |actions| ==> Follows(worlds[i], actions[i], worlds[i + 1], today)
  }

  ghost predicate Follows(w: World, action: Action, v: World, today: int) {
    Possible(w, action) && v == Act(w, today, action)
  }

  /** For any interleaving within a day, each reservation settled once, the ledger balances. */
  lemma {:induction false} DayBalances(worlds: seq<World>, actions: seq<Action>, today: int, k: nat)
    requires Day(worlds, actions, today) && k <= |actions|
    ensures Balanced(worlds[k], today)
    ensures worlds[k].settled <= worlds[k].ledger.limit == worlds[0].ledger.limit
  {
    if k != 0 {
      DayBalances(worlds, actions, today, k - 1);
      assert Follows(worlds[k - 1], actions[k - 1], worlds[k], today);
      ActBalances(worlds[k - 1], today, actions[k - 1]);
    }
  }

  /**
   A grant is what was asked for, or all that is left; none is given when nothing would be.
   What was held on another day counts for nothing, and without a limit nothing is held.
   */
  lemma GrantExact(l: Ledger, today: int, input: int, output: int)
    requires InRange(l) || l.limit == 0
    ensures var (m, result) := Reserve(l, today, input, output);
      var held := if l.day == today then l.allocatedTokens else 0;
      if input < 1 || output < 1 then m == l && result == Err(NotPositive)
      else if l.limit == 0 then m == l && result == Ok(Reservation(input, output, true))
      else
        && m.limit == l.limit && m.day == today
        && (result.Ok? <==> held + input < l.limit)
        && (result.Err? ==> m.allocatedTokens == held && result.error == BudgetExceeded(l.limit, held))
        && (result.Ok? ==>
              && result.value.input == input && !result.value.unlimited
              && 1 <= result.value.output <= output
              && m.allocatedTokens == held + input + result.value.output <= l.limit
              && (result.value.output < output ==> m.allocatedTokens == l.limit))
  {
  }

  /** Four bytes a token, rounded up, and at least one token. */
  lemma EstimateExact(bytes: nat)
    ensures var n := EstimateTokens(bytes);
      n >= 1 && bytes <= 4 * n && (n > 1 ==> 4 * (n - 1) < bytes)
  {
  }

  /** A process may write as many bytes as both its own limit and its reservation allow. */
  lemma CapExact(maxBytes: nat, r: Reservation, bytes: nat)
    ensures bytes <= OutputCap(maxBytes, r) <==> bytes <= maxBytes && bytes <= 4 * r.output
  {
  }

  // ---------- across days ----------

  predicate InRange(l: Ledger) {
    0 <= l.allocatedTokens <= l.limit
  }

  /** Whatever the days, the allocation stays between zero and the limit. */
  lemma RangeKept(l: Ledger, today: int, input: int, output: int, r: Reservation, actual: int)
    requires InRange(l)
    ensures InRange(Reserve(l, today, input, output).0)
    ensures InRange(Finalize(l, today, r, actual))
    ensures InRange(Release(l, today, r))
  {
  }

  /** A reservation with the day it was made on. */
  datatype Dated = Dated(day: int, reservation: Reservation)

  function CostOn(open: seq<Dated>, today: int): nat {
    if |open| == 0 then 0
    else
      var last := open[|open| - 1];
      CostOn(open[..|open| - 1], today) + if last.day == today then Cost(last.reservation) else 0
  }

  /** The day's allocation is what it has reserved and not settled, and what it has settled. */
  predicate BalancedOn(l: Ledger, open: seq<Dated>, settled: nat, today: int) {
    InRange(l) && RollOver(l, today).allocatedTokens == CostOn(open, today) + settled
  }

  /** A settlement: given up, or finished with so many output tokens. */
  datatype Outcome = GivenUp | Finished(actual: int)

  function Used(r: Reservation, outcome: Outcome): nat {
    match outcome
    case GivenUp => 0
    case Finished(actual) => if r.unlimited then 0 else r.input + Min(Max(0, actual), r.output)
  }

  /** What a settlement takes off the allocation. */
  function GivenBack(r: Reservation, outcome: Outcome): nat {
    match outcome
    case GivenUp => r.input + r.output
    case Finished(actual) => r.output - Min(Max(0, actual), r.output)
  }

  function Settle(l: Ledger, today: int, r: Reservation, outcome: Outcome): Ledger {
    match outcome
    case GivenUp => Release(l, today, r)
    case Finished(actual) => Finalize(l, today, r, actual)
  }

  lemma {:induction false} RemovedOn(open: seq<Dated>, k: nat, today: int)
    requires k < |open|
    ensures CostOn(open, today) ==
      CostOn(open[..k] + open[k + 1..], today) + if open[k].day == today then Cost(open[k].reservation) else 0
  {
    var n := |open| - 1;
    var rest := open[..k] + open[k + 1..];
    if k == n {
      assert rest == open[..n];
    } else {
      RemovedOn(open[..n], k, today);
      assert rest[..n - 1] == open[..n][..k] + open[..n][k + 1..];
      assert rest[n - 1] == open[n];
    }
  }

  /**
   When a settlement keeps the day's balance: exactly when the reservation was made that
   day, or there is nothing to take off, or nothing left to take it from.
   */
  lemma SettlementExact(l: Ledger, open: seq<Dated>, settled: nat, today: int, k: nat, outcome: Outcome)
    requires BalancedOn(l, open, settled, today) && k < |open|
    ensures var r := open[k].reservation;
      BalancedOn(Settle(l, today, r, outcome), open[..k] + open[k + 1..],
                 settled + (if open[k].day == today then Used(r, outcome) else 0), today)
      <==> open[k].day == today || r.unlimited || GivenBack(r, outcome) == 0 || RollOver(l, today).allocatedTokens == 0
  {
    RemovedOn(open, k, today);
  }

  /** So the balance is lost when yesterday's reservation is given up over one made today. */
  lemma MidnightLosesBalance(limit: nat, today: int, input: nat, output: nat)
    requires input >= 1 && output >= 1 && input + output <= limit
    ensures var (first, old_) := Reserve(Ledger(limit, today, 0), today, input, output);
      var (second, new_) := Reserve(first, today + 1, input, output);
      && old_.Ok? && new_.Ok?
      && second.allocatedTokens == Cost(new_.value)
      && Release(second, today + 1, old_.value).allocatedTokens == 0 < Cost(new_.value)
  {
  }
}
