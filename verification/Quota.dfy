/** The traffic quota of one user: a window that jumps by whole periods. */
module Quota {
  import opened Basics
  import Access

  datatype Window = Window(start: Time, limit: int, period: int, used: int) {
    // What RestoreQuotaWindow accepts, with the widths of the Go fields.
    predicate Valid() {
      start != NO_TIME && 0 < limit <= MAX_INT64 && 0 < period <= MAX_INT64 && 0 <= used <= MAX_INT64
    }

    predicate IsBlocked() {
      used >= limit
    }
  }

  datatype QuotaError = Predates | NegativeCounter | Overflow | InactiveAccount | InvalidLimit

  // time.Time.Sub saturates at the largest Duration.
  function Elapsed(now: Time, start: Time): int
    requires start <= now
  {
    if now - start > MAX_INT64 then MAX_INT64 else now - start
  }

  function AdvanceTo(w: Window, now: Time): (r: Window)
    requires w.Valid() && w.start <= now
    ensures r.Valid()
    ensures w.start <= r.start <= now
  {
    var elapsed := Elapsed(now, w.start);
    if elapsed >= w.period then
      PeriodsBound(elapsed, w.period);
      w.(start := w.start + elapsed / w.period * w.period, used := 0)
    else w
  }

  // The accounting of one sample, or why it is refused.
  function Record(w: Window, at: Time, uplink: int, downlink: int): (r: Result<Window, QuotaError>)
    requires w.Valid()
    ensures r.Ok? ==> r.value.Valid()
  {
    if at == NO_TIME || at < w.start then Err(Predates)
    else if uplink < 0 || downlink < 0 then Err(NegativeCounter)
    else if uplink + downlink > MAX_INT64 then Err(Overflow)
    else
      var moved := AdvanceTo(w, at);
      if moved.used + uplink + downlink > MAX_INT64 then Err(Overflow)
      else Ok(moved.(used := moved.used + uplink + downlink))
  }

  lemma PeriodsBound(elapsed: int, period: int)
    requires 0 < period && 0 <= elapsed
    ensures 0 <= elapsed / period * period <= elapsed < elapsed / period * period + period
  {
  }

  class QuotaWindow {
    var periodStartedAt: Time
    var limitBytes: int
    var period: int
    var usedBytes: int

    function Value(): Window
      reads this
    {
      Window(periodStartedAt, limitBytes, period, usedBytes)
    }

    constructor FromWindow(w: Window)
      ensures Value() == w
    {
      periodStartedAt, limitBytes, period, usedBytes := w.start, w.limit, w.period, w.used;
    }

    static method Restore(start: Time, limitBytes: int, period: int, usedBytes: int) returns (window: QuotaWindow?)
      requires limitBytes <= MAX_INT64 && period <= MAX_INT64 && usedBytes <= MAX_INT64
      ensures window != null <==> Window(start, limitBytes, period, usedBytes).Valid()
      ensures window != null ==> fresh(window) && window.Value() == Window(start, limitBytes, period, usedBytes)
    {
      if start == NO_TIME || limitBytes <= 0 || period <= 0 || usedBytes < 0 {
        return null;
      }
      window := new QuotaWindow.FromWindow(Window(start, limitBytes, period, usedBytes));
    }

    // A refused sample leaves the window alone, although the usage overflow is
    // only noticed after the window has been advanced in place.
    method RecordCounters(observedAt: Time, uplink: int, downlink: int) returns (r: Result<Window, QuotaError>)
      requires Value().Valid()
      requires uplink <= MAX_INT64 && downlink <= MAX_INT64
      modifies this
      ensures r == Record(old(Value()), observedAt, uplink, downlink)
      ensures Value() == if r.Ok? then r.value else old(Value())
    {
      if observedAt == NO_TIME || observedAt < periodStartedAt {
        return Err(Predates);
      }
      if uplink < 0 || downlink < 0 {
        return Err(NegativeCounter);
      }
      var sampleBytes := AddNonNegative(uplink, downlink);
      if sampleBytes.None? {
        return Err(Overflow);
      }
      AdvanceInPlace(observedAt);
      var total := AddNonNegative(usedBytes, sampleBytes.value);
      if total.None? {
        return Err(Overflow);
      }
      usedBytes := total.value;
      return Ok(Value());
    }

    method Advance(now: Time) returns (r: Result<Window, QuotaError>)
      requires Value().Valid()
      modifies this
      ensures r.Err? <==> now == NO_TIME || now < old(periodStartedAt)
      ensures Value() == if r.Ok? then AdvanceTo(old(Value()), now) else old(Value())
      ensures r.Ok? ==> r.value == Value()
    {
      if now == NO_TIME || now < periodStartedAt {
        return Err(Predates);
      }
      AdvanceInPlace(now);
      return Ok(Value());
    }

    method AdjustLimit(limit: int) returns (r: Result<Window, QuotaError>)
      requires Value().Valid() && limit <= MAX_INT64
      modifies this
      ensures r.Ok? <==> limit > 0
      ensures Value() == if limit > 0 then old(Value()).(limit := limit) else old(Value())
      ensures r.Ok? ==> r.value == Value()
    {
      if limit <= 0 {
        return Err(InvalidLimit);
      }
      limitBytes := limit;
      return Ok(Value());
    }

    method AdvanceInPlace(now: Time)
      requires Value().Valid() && periodStartedAt <= now
      modifies this
      ensures Value() == AdvanceTo(old(Value()), now)
    {
      var elapsed := Elapsed(now, periodStartedAt);
      if elapsed >= period {
        var elapsedPeriods := elapsed / period;
        PeriodsBound(elapsed, period);
        periodStartedAt := periodStartedAt + elapsedPeriods * period;
        usedBytes := 0;
      }
    }
  }

  // The overflow test subtracts, so that nothing exceeds an int64.
  function AddNonNegative(left: int, right: int): (r: Option<int>)
    requires 0 <= left <= MAX_INT64 && 0 <= right <= MAX_INT64
    ensures r.Some? <==> left + right <= MAX_INT64
    ensures r.Some? ==> r.value == left + right
  {
    if right > MAX_INT64 - left then None else Some(left + right)
  }

  // ---- jumping and stepping ----

  function StepPeriods(w: Window, k: nat): Window
    requires w.period > 0
    decreases k
  {
    if k == 0 then w else StepPeriods(w.(start := w.start + w.period, used := 0), k - 1)
  }

  lemma {:induction false} StepPeriodsStart(w: Window, k: nat)
    requires w.period > 0
    ensures StepPeriods(w, k) == if k == 0 then w else w.(start := w.start + k * w.period, used := 0)
    decreases k
  {
    if k > 0 {
      var next := w.(start := w.start + w.period, used := 0);
      StepPeriodsStart(next, k - 1);
      assert w.period + (k - 1) * w.period == k * w.period;
    }
  }

  /** One jump over k elapsed periods is k single-period steps. */
  lemma {:induction false} JumpIsSteps(w: Window, now: Time)
    requires w.Valid() && w.start <= now
    ensures AdvanceTo(w, now) == StepPeriods(w, Elapsed(now, w.start) / w.period)
  {
    var elapsed := Elapsed(now, w.start);
    PeriodsBound(elapsed, w.period);
    StepPeriodsStart(w, elapsed / w.period);
    if elapsed < w.period {
      SmallQuotient(elapsed, w.period);
    } else {
      PositiveQuotient(elapsed, w.period);
    }
  }

  lemma SmallQuotient(a: int, p: int)
    requires 0 <= a < p
    ensures a / p == 0
  {
  }

  lemma PositiveQuotient(a: int, p: int)
    requires 0 < p <= a
    ensures a / p >= 1
  {
  }

  lemma QuotientUnique(a: int, p: int, q: int)
    requires p > 0 && q * p <= a < q * p + p
    ensures a / p == q
  {
    PeriodsBound0(a, p);
    var d := a / p;
    MulOrder(d + 1, q, p);
    MulOrder(q + 1, d, p);
  }

  lemma MulOrder(a: int, b: int, p: int)
    requires p >= 0
    ensures a <= b ==> a * p <= b * p
  {
    if a <= b {
      MulMono(a, b, p);
    }
  }

  lemma PeriodsBound0(a: int, p: int)
    requires p > 0
    ensures a / p * p <= a < a / p * p + p
  {
  }

  lemma MulMono(a: int, b: int, p: int)
    requires a <= b && p >= 0
    ensures a * p <= b * p
  {
  }

  // The clock is below the last whole period a saturated Duration can express.
  predicate Reaches(w: Window, now: Time)
    requires w.period > 0
  {
    now - w.start < (MAX_INT64 / w.period + 1) * w.period
  }

  /** The window catches up with the clock exactly in that range. */
  lemma {:induction false} AdvanceCatchesUp(w: Window, now: Time)
    requires w.Valid() && w.start <= now
    ensures now < AdvanceTo(w, now).start + w.period <==> Reaches(w, now)
  {
    var elapsed := Elapsed(now, w.start);
    PeriodsBound(elapsed, w.period);
    PeriodsBound(MAX_INT64, w.period);
    assert (MAX_INT64 / w.period + 1) * w.period == MAX_INT64 / w.period * w.period + w.period;
    if elapsed < w.period {
      if elapsed == now - w.start {
        PositiveFloor(elapsed, w.period);
      }
    }
  }

  lemma PositiveFloor(elapsed: int, period: int)
    requires 0 <= elapsed < period <= MAX_INT64
    ensures elapsed < (MAX_INT64 / period + 1) * period
  {
    PeriodsBound(MAX_INT64, period);
    assert (MAX_INT64 / period + 1) * period == MAX_INT64 / period * period + period;
  }

  // A whole number of periods on, the usage starts over.
  function Shifted(w: Window, k: nat): Window
    requires w.period > 0
  {
    MulMono(0, k, w.period);
    if k == 0 then w else w.(start := w.start + k * w.period, used := 0)
  }

  // In range, an advance is a shift by the whole periods elapsed.
  lemma {:induction false} AdvanceShifts(w: Window, now: Time) returns (k: nat)
    requires w.Valid() && w.start <= now
    ensures AdvanceTo(w, now) == Shifted(w, k)
    ensures AdvanceTo(w, now).start == w.start + k * w.period
  {
    var elapsed := Elapsed(now, w.start);
    PeriodsBound(elapsed, w.period);
    k := if elapsed >= w.period then elapsed / w.period else 0;
    if elapsed >= w.period {
      PositiveQuotient(elapsed, w.period);
    }
  }

  // A window a whole number of periods on that has caught up is the only one.
  lemma CaughtUpOnce(w: Window, j: nat, k: nat, now: Time)
    requires w.Valid()
    requires w.start + j * w.period <= now < w.start + j * w.period + w.period
    requires w.start + k * w.period <= now < w.start + k * w.period + w.period
    ensures j == k
  {
    QuotientUnique(now - w.start, w.period, j);
    QuotientUnique(now - w.start, w.period, k);
  }

  // Where the window can reach a clock, it can from any advance on the way.
  lemma StillReaches(w: Window, mid: Time, now: Time)
    requires w.Valid() && w.start <= mid <= now && Reaches(w, now)
    ensures Reaches(w, mid) && Reaches(AdvanceTo(w, mid), now)
  {
  }

  lemma {:induction false} AdvanceInTwo(w: Window, mid: Time, now: Time)
    requires w.Valid() && w.start <= mid <= now && Reaches(w, now)
    ensures AdvanceTo(AdvanceTo(w, mid), now) == AdvanceTo(w, now)
  {
    var m := AdvanceTo(w, mid);
    StillReaches(w, mid, now);
    AdvanceCatchesUp(w, now);
    AdvanceCatchesUp(m, now);
    var i := AdvanceShifts(w, mid);
    var j := AdvanceShifts(m, now);
    var k := AdvanceShifts(w, now);
    assert (i + j) * w.period == i * w.period + j * w.period;
    CaughtUpOnce(w, i + j, k, now);
  }

  /** Advancing through intermediate instants changes nothing about the final
      window exactly when the window can reach that clock. */
  lemma {:induction false} AdvanceComposes(w: Window, now: Time)
    requires w.Valid() && w.start <= now
    ensures (forall mid: Time :: w.start <= mid <= now ==> AdvanceTo(AdvanceTo(w, mid), now) == AdvanceTo(w, now))
            <==> Reaches(w, now)
  {
    if Reaches(w, now) {
      forall mid: Time | w.start <= mid <= now
        ensures AdvanceTo(AdvanceTo(w, mid), now) == AdvanceTo(w, now)
      {
        AdvanceInTwo(w, mid, now);
      }
    } else {
      LaggingMovesAgain(w, now);
    }
  }

  lemma LaggingMovesAgain(w: Window, now: Time)
    requires w.Valid() && w.start <= now && !Reaches(w, now)
    ensures AdvanceTo(AdvanceTo(w, now), now) != AdvanceTo(w, now)
    ensures AdvanceTo(AdvanceTo(w, now), now).start >= AdvanceTo(w, now).start + w.period
    ensures AdvanceTo(AdvanceTo(w, now), now).used == 0
  {
    var m := AdvanceTo(w, now);
    AdvanceCatchesUp(w, now);
    var elapsed := Elapsed(now, m.start);
    PositiveQuotient(elapsed, w.period);
    MulMono(1, elapsed / w.period, w.period);
  }

  /** The period sweep's SQL: floor((now - start) / period) whole periods. */
  function SweepStart(start: Time, period: int, now: Time): int
    requires 0 < period
  {
    start + (now - start) / period * period
  }

  /** The sweep and the in-process window agree on a due window exactly in the
      range where the Duration arithmetic catches up. */
  lemma {:induction false} SweepAgrees(w: Window, now: Time)
    requires w.Valid() && w.start + w.period <= now
    ensures AdvanceTo(w, now).used == 0
    ensures AdvanceTo(w, now).start == SweepStart(w.start, w.period, now) <==> Reaches(w, now)
  {
    AdvanceCatchesUp(w, now);
    PeriodsBound(now - w.start, w.period);
    var elapsed := Elapsed(now, w.start);
    PeriodsBound(elapsed, w.period);
    if now < AdvanceTo(w, now).start + w.period {
      QuotientUnique(now - w.start, w.period, elapsed / w.period);
    }
  }

  // ---- whole histories of one window ----

  datatype Sample = Sample(at: Time, bytes: nat)

  datatype Op = RecordSample(at: Time, uplink: int, downlink: int) | AdvanceWindow(now: Time) | AdjustLimit(limit: int)

  datatype History = History(window: Window, accepted: seq<Sample>)

  function Do(h: History, op: Op): (r: History)
    requires h.window.Valid()
    ensures r.window.Valid()
  {
    match op
    case RecordSample(at, up, down) =>
      (match Record(h.window, at, up, down)
       case Ok(w) => History(w, h.accepted + [Sample(at, up + down)])
       case Err(_) => h)
    case AdvanceWindow(now) =>
      if now == NO_TIME || now < h.window.start then h else h.(window := AdvanceTo(h.window, now))
    case AdjustLimit(limit) =>
      if 0 < limit <= MAX_INT64 then h.(window := h.window.(limit := limit)) else h
  }

  function Run(h: History, ops: seq<Op>): (r: History)
    requires h.window.Valid()
    ensures r.window.Valid()
    decreases |ops|
  {
    if ops == [] then h else Run(Do(h, ops[0]), ops[1..])
  }

  function BytesSince(samples: seq<Sample>, start: Time): nat {
    if samples == [] then 0
    else BytesSince(samples[..|samples| - 1], start)
         + (var last := samples[|samples| - 1]; if last.at >= start then last.bytes else 0)
  }

  // An accepted record of traffic the window cannot reach.
  predicate Overshoots(w: Window, op: Op)
    requires w.Valid()
  {
    && op.RecordSample? && Record(w, op.at, op.uplink, op.downlink).Ok? && op.uplink + op.downlink > 0
    && !Reaches(w, op.at)
  }

  predicate NeverOvershoots(h: History, ops: seq<Op>)
    requires h.window.Valid()
    decreases |ops|
  {
    ops == [] || (!Overshoots(h.window, ops[0]) && NeverOvershoots(Do(h, ops[0]), ops[1..]))
  }

  // `origin` is the window as first created, holding `origin.used` bytes: the
  // window is whole periods on, its usage is the accepted bytes since its
  // start, and no accepted bytes lie beyond it.
  ghost predicate Consistent(origin: Window, h: History, periods: nat) {
    && origin.Valid() && h.window.Valid()
    && h.window.period == origin.period
    && h.window.start == origin.start + periods * origin.period
    && (forall i :: 0 <= i < |h.accepted| && h.accepted[i].bytes > 0 ==>
          h.accepted[i].at < h.window.start + origin.period)
    && h.window.used == BytesSince(h.accepted, h.window.start) + if periods == 0 then origin.used else 0
  }

  ghost predicate Sums(origin: Window, h: History) {
    exists periods: nat :: Consistent(origin, h, periods)
  }

  ghost predicate SumsThroughout(origin: Window, h: History, ops: seq<Op>)
    requires h.window.Valid()
    decreases |ops|
  {
    Sums(origin, h) && (ops != [] ==> SumsThroughout(origin, Do(h, ops[0]), ops[1..]))
  }

  lemma {:induction false} NothingSince(samples: seq<Sample>, start: Time)
    requires forall i :: 0 <= i < |samples| && samples[i].bytes > 0 ==> samples[i].at < start
    ensures BytesSince(samples, start) == 0
    decreases |samples|
  {
    if samples != [] {
      NothingSince(samples[..|samples| - 1], start);
    }
  }

  // An advance keeps the sum, however far the clock is.
  lemma {:induction false} AdvanceKeepsSum(origin: Window, h: History, periods: nat, now: Time) returns (periods': nat)
    requires Consistent(origin, h, periods) && h.window.start <= now
    ensures Consistent(origin, h.(window := AdvanceTo(h.window, now)), periods')
  {
    var w := h.window;
    var k := AdvanceShifts(w, now);
    periods' := periods + k;
    assert periods' * origin.period == periods * origin.period + k * origin.period;
    MulMono(0, periods, origin.period);
    if k > 0 {
      MulMono(1, k, origin.period);
      NothingSince(h.accepted, AdvanceTo(w, now).start);
    }
  }

  lemma {:induction false} RecordKeepsSum(origin: Window, h: History, op: Op)
    requires Sums(origin, h) && op.RecordSample? && Record(h.window, op.at, op.uplink, op.downlink).Ok?
    ensures Sums(origin, Do(h, op)) <==> !Overshoots(h.window, op)
  {
    var periods: nat :| Consistent(origin, h, periods);
    var moved := h.(window := AdvanceTo(h.window, op.at));
    var periods' := AdvanceKeepsSum(origin, h, periods, op.at);
    AdvanceCatchesUp(h.window, op.at);
    var h' := Do(h, op);
    var last := |h.accepted|;
    assert h'.accepted[..last] == h.accepted;
    assert h'.accepted[last] == Sample(op.at, op.uplink + op.downlink);
    if !Overshoots(h.window, op) {
      assert Consistent(origin, h', periods');
    }
  }

  lemma {:induction false} DoKeepsSum(origin: Window, h: History, op: Op)
    requires Sums(origin, h)
    ensures Sums(origin, Do(h, op)) <==> !Overshoots(h.window, op)
  {
    var periods: nat :| Consistent(origin, h, periods);
    match op {
      case RecordSample(at, up, down) =>
        if Record(h.window, at, up, down).Ok? {
          RecordKeepsSum(origin, h, op);
        }
      case AdvanceWindow(now) =>
        if now != NO_TIME && h.window.start <= now {
          var periods' := AdvanceKeepsSum(origin, h, periods, now);
          assert Consistent(origin, Do(h, op), periods');
        }
      case AdjustLimit(_) =>
        assert Consistent(origin, Do(h, op), periods);
    }
  }

  /** Over any sequence of records, advances and limit changes, in any order,
      accepted or refused, the window stays a whole number of periods after the
      original start with exactly the accepted bytes since its start as usage
      (plus the inherited usage while no period ended), and with no accepted
      bytes beyond it: exactly while no accepted record of traffic is further
      from the window then open than a Duration can count. */
  lemma {:induction false} SumsIffNeverOvershoots(origin: Window, h: History, ops: seq<Op>)
    requires Sums(origin, h) && h.window.Valid()
    ensures SumsThroughout(origin, h, ops) <==> NeverOvershoots(h, ops)
    decreases |ops|
  {
    hide Sums, Overshoots, Do;
    if ops != [] {
      DoKeepsSum(origin, h, ops[0]);
      if !Overshoots(h.window, ops[0]) {
        SumsIffNeverOvershoots(origin, Do(h, ops[0]), ops[1..]);
      }
    }
  }

  lemma {:induction false} RunSums(origin: Window, h: History, ops: seq<Op>)
    requires h.window.Valid() && SumsThroughout(origin, h, ops)
    ensures Sums(origin, Run(h, ops))
    decreases |ops|
  {
    if ops != [] {
      RunSums(origin, Do(h, ops[0]), ops[1..]);
    }
  }

  /** So after any run whose accepted traffic is in reach of the window open at
      the time, however long the run: the start is whole periods on and the
      usage is the accepted bytes since it. */
  lemma {:induction false} UsageIsWindowSum(origin: Window, ops: seq<Op>) returns (periods: nat)
    requires origin.Valid() && NeverOvershoots(History(origin, []), ops)
    ensures var h := Run(History(origin, []), ops);
            && h.window.start == origin.start + periods * origin.period
            && h.window.used == BytesSince(h.accepted, h.window.start) + if periods == 0 then origin.used else 0
  {
    var h := History(origin, []);
    assert Consistent(origin, h, 0);
    SumsIffNeverOvershoots(origin, h, ops);
    RunSums(origin, h, ops);
    periods :| Consistent(origin, Run(h, ops), periods);
  }

  /** And where a record of traffic overshoots, one advance to its own instant
      loses it: the usage is below the accepted bytes since the start. */
  lemma {:induction false} OvershootLosesUsage(origin: Window, h: History, op: Op)
    requires Sums(origin, h) && Overshoots(h.window, op)
    ensures var h' := Do(Do(h, op), AdvanceWindow(op.at));
            h'.window.used == 0 < BytesSince(h'.accepted, h'.window.start)
  {
    var h1 := Do(h, op);
    LaggingMovesAgain(h.window, op.at);
    assert h1.accepted[..|h.accepted|] == h.accepted;
    AdvanceIgnoresUsage(AdvanceTo(h.window, op.at), h1.window, op.at);
  }

  lemma AdvanceIgnoresUsage(a: Window, b: Window, now: Time)
    requires a.Valid() && b.Valid() && b == a.(used := b.used) && a.start <= now
    requires AdvanceTo(a, now).start >= a.start + a.period
    ensures AdvanceTo(b, now) == AdvanceTo(a, now)
  {
  }

  /** An input beyond that range: two samples of the same instant, both
      after the window's start, of which only the second is counted. */
  lemma SaturationLosesUsage()
    ensures var late := 1 + MAX_INT64 + 5;
            var ops := [RecordSample(late, 1, 0), RecordSample(late, 2, 0)];
            var h := Run(History(Window(1, 10, 1, 0), []), ops);
            h.accepted == [Sample(late, 1), Sample(late, 2)] && h.window.start <= late && h.window.used == 2
  {
    var late := 1 + MAX_INT64 + 5;
    var first, second := RecordSample(late, 1, 0), RecordSample(late, 2, 0);
    var h0 := History(Window(1, 10, 1, 0), []);
    var h1 := Do(h0, first);
    assert h1 == History(Window(1 + MAX_INT64, 10, 1, 1), [Sample(late, 1)]);
    var h2 := Do(h1, second);
    assert h2 == History(Window(late, 10, 1, 2), [Sample(late, 1), Sample(late, 2)]);
    var ops := [first, second];
    assert ops[1..] == [second] && ops[1..][1..] == [];
    assert Run(h1, ops[1..]) == Run(h2, []);
  }

  // ---- traffic_accounting.go: account and window together ----

  datatype Change = Change(window: Window, revoke: bool, restore: bool)

  datatype Accounted = Accounted(account: Access.AccessSnapshot, change: Change)

  function Account(account: Access.AccessSnapshot, w: Window, at: Time, uplink: int, downlink: int)
    : Result<Accounted, QuotaError>
    requires w.Valid()
  {
    match Record(w, at, uplink, downlink)
    case Err(e) => Err(e)
    case Ok(w') =>
      if uplink + downlink == 0 then Ok(Accounted(account, Edges(w, w')))
      else match Access.Apply(account, Access.RecordActivity(at, uplink + downlink))
           case Ok(a) => Ok(Accounted(a, Edges(w, w')))
           case Err(_) => Err(InactiveAccount)
  }

  function Edges(before: Window, after: Window): Change {
    Change(after, !before.IsBlocked() && after.IsBlocked(), before.IsBlocked() && !after.IsBlocked())
  }

  // Works on copies and writes both back only when everything succeeded.
  method RecordAccountTraffic(account: Access.AccessAccount, quota: QuotaWindow, at: Time, uplink: int, downlink: int)
    returns (r: Result<Change, QuotaError>)
    requires quota.Value().Valid()
    requires uplink <= MAX_INT64 && downlink <= MAX_INT64
    modifies account, quota
    ensures match Account(old(account.Snapshot()), old(quota.Value()), at, uplink, downlink)
            case Ok(done) =>
              r == Ok(done.change) && account.Snapshot() == done.account && quota.Value() == done.change.window
            case Err(e) =>
              r == Err(e) && account.Snapshot() == old(account.Snapshot()) && quota.Value() == old(quota.Value())
  {
    var accountCopy := new Access.AccessAccount.FromSnapshot(account.Snapshot());
    var quotaCopy := new QuotaWindow.FromWindow(quota.Value());
    var wasBlocked := quotaCopy.Value().IsBlocked();
    var recorded := quotaCopy.RecordCounters(at, uplink, downlink);
    if recorded.Err? {
      return Err(recorded.error);
    }
    var sampleBytes := AddNonNegative(uplink, downlink);
    if sampleBytes.None? {
      return Err(Overflow);
    }
    if sampleBytes.value > 0 {
      var ok := accountCopy.RecordActivity(at, sampleBytes.value);
      if !ok {
        return Err(InactiveAccount);
      }
    }
    account.eligible, account.status := accountCopy.eligible, accountCopy.status;
    account.generation, account.periodStartedAt := accountCopy.generation, accountCopy.periodStartedAt;
    account.lastActivityAt := accountCopy.lastActivityAt;
    quota.periodStartedAt, quota.limitBytes := quotaCopy.periodStartedAt, quotaCopy.limitBytes;
    quota.period, quota.usedBytes := quotaCopy.period, quotaCopy.usedBytes;
    var blocked := recorded.value.IsBlocked();
    return Ok(Change(recorded.value, !wasBlocked && blocked, wasBlocked && !blocked));
  }
}
