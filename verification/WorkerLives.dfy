/** The spacing of deployments across the worker's lives, and what a crash
    does to it. */
module WorkerLives {
  import opened Basics
  import Database
  import opened CoreActions
  import opened Worker
  import opened WorkerRuns
  import opened WorkerTiming

  // The last planned installation, whichever life it belongs to.
  function LastPlannedEver(trace: seq<Event>): Time {
    if trace == [] then NO_TIME
    else match trace[|trace| - 1]
      case Installed(at, true) => at
      case _ => LastPlannedEver(trace[..|trace| - 1])
  }

  // The worker crashed after the last planned installation.
  predicate CrashedSince(trace: seq<Event>) {
    trace != []
    && match trace[|trace| - 1]
       case Installed(_, true) => false
       case Crashed => LastPlannedEver(trace) != NO_TIME
       case _ => CrashedSince(trace[..|trace| - 1])
  }

  lemma {:induction false} MemoryOutlivesAllButCrashes(trace: seq<Event>)
    ensures LastPlanned(trace) == if CrashedSince(trace) then NO_TIME else LastPlannedEver(trace)
    decreases |trace|
  {
    if trace != [] {
      MemoryOutlivesAllButCrashes(trace[..|trace| - 1]);
    }
  }

  // A build with no revocation keeps clear of every planned installation
  // before it: by a minute, or by the notice if the worker crashed in between.
  predicate SpacedAcross(before: seq<Event>, e: Event) {
    e.Building? && !e.urgent && LastPlannedEver(before) != NO_TIME ==>
      e.at >= LastPlannedEver(before) + if CrashedSince(before) then NOTICE_PERIOD else RESTART_LIMIT
  }

  predicate AllSpacedAcross(trace: seq<Event>) {
    forall i :: 0 <= i < |trace| ==> SpacedAcross(trace[..i], trace[i])
  }

  // An open announcement was made after every planned installation.
  predicate NoticedAfter(trace: seq<Event>) {
    OpenNotice(trace) != NO_TIME ==> LastPlannedEver(trace) <= OpenNotice(trace)
  }

  predicate Onward(trace: seq<Event>, clock: Time) {
    LastPlannedEver(trace) <= clock && forall i :: 0 <= i <= |trace| ==> NoticedAfter(trace[..i])
  }

  lemma OnwardSpaces(trace: seq<Event>, clock: Time)
    requires AllWellSpaced(trace) && Onward(trace, clock)
    ensures AllSpacedAcross(trace)
  {
    forall i | 0 <= i < |trace| ensures SpacedAcross(trace[..i], trace[i]) {
      assert WellSpaced(trace[..i], trace[i]) && NoticedAfter(trace[..i]);
      MemoryOutlivesAllButCrashes(trace[..i]);
    }
  }

  lemma LogsOnward(trace: seq<Event>, e: Event, clock: Time)
    requires Onward(trace, clock)
    requires e.Noticed? ==> e.at == clock
    requires e.Installed? ==> e.at == clock && OpenNotice(trace) == NO_TIME
    ensures Onward(trace + [e], clock)
    ensures e.Building? ==> OpenNotice(trace + [e]) == NO_TIME
  {
    var trace' := trace + [e];
    assert trace'[..|trace|] == trace && trace'[..|trace'|] == trace';
    assert trace[..|trace|] == trace;
    forall i | 0 <= i <= |trace'| ensures NoticedAfter(trace'[..i]) {
      if i <= |trace| {
        assert trace'[..i] == trace[..i];
      } else {
        assert NoticedAfter(trace[..|trace|]);
      }
    }
  }

  lemma CompleteIsOnward(s: System, now: Time, outcome: Outcome, clock: Time)
    requires Onward(s.trace, clock)
    ensures Onward(CompleteOf(s, now, outcome).trace, clock)
  {
    hide Onward;
    LogsOnward(s.trace, Completed(PendingIds(s.memory.pending)), clock);
  }

  lemma DeployIsOnward(s: System, now: Time, planned: bool, urgent: bool, env: Env)
    requires Onward(s.trace, now)
    ensures Onward(DeployOf(s, now, planned, urgent, env).trace, now)
  {
    hide Onward, CompleteOf;
    var build, install := Building(now, urgent), Installed(now, planned);
    LogsOnward(s.trace, build, now);
    LogsOnward(s.trace + [build], install, now);
    CompleteIsOnward(System(s.rows, s.memory.(installedAt := now, installedPlanned := planned),
                            s.trace + [build] + [install]), now, env.complete, now);
  }

  lemma ActIsOnward(s: System, now: Time, env: Env)
    requires Onward(s.trace, now)
    ensures Onward(ActOf(s, now, env).trace, now)
  {
    hide Onward, DeployOf;
    LogsOnward(s.trace, Noticed(now), now);
    DeployIsOnward(s, now, HasKind(s.memory.pending, Database.Reconcile), true, env);
    DeployIsOnward(Told(s, now), now, true, false, env);
  }

  lemma NextIsOnward(s: System, h: Happening, clock: Time)
    requires Onward(s.trace, clock) && Possible(s, h) && (h.Poll? ==> clock <= h.now)
    ensures Onward(Next(s, h).trace, if h.Poll? then h.now else clock)
  {
    match h {
      case Poll(now, env, ids) =>
        assert Onward(s.trace, now);
        StepCases(s, now, env, ids);
        hide Onward, StepOf, ActOf, CompleteOf;
        CompleteIsOnward(s, now, env.complete, now);
        LogsOnward(s.trace, Claimed(now, ids), now);
        ActIsOnward(Taken(s, now, ids), now, env);
      case Arrival(_, _, _, _) =>
      case Crash => LogsOnward(s.trace, Crashed, clock);
    }
  }

  predicate PollsInOrder(hs: seq<Happening>, clock: Time)
    decreases |hs|
  {
    hs == []
    || (if hs[0].Poll? then clock <= hs[0].now && PollsInOrder(hs[1..], hs[0].now) else PollsInOrder(hs[1..], clock))
  }

  lemma {:induction false} RunIsOnward(s: System, hs: seq<Happening>, clock: Time)
    requires Timed(s) && Onward(s.trace, clock) && PossibleRun(s, hs) && PollsInOrder(hs, clock)
    ensures AllSpacedAcross(Run(s, hs).trace)
    decreases |hs|
  {
    hide Next, Possible, Timed, Onward;
    if hs == [] {
      TimedIsSpaced(s);
      OnwardSpaces(s.trace, clock);
    } else {
      NextKeepsTimed(s, hs[0]);
      NextIsOnward(s, hs[0], clock);
      RunIsOnward(Next(s, hs[0]), hs[1..], if hs[0].Poll? then hs[0].now else clock);
    }
  }

  lemma TimedIsSpaced(s: System)
    requires Timed(s)
    ensures AllWellSpaced(s.trace)
  {
  }

  /** Across all lives of the worker, polled in the order of its clock: a
      deployment without a revocation comes a minute after the last planned
      installation unless the worker crashed since, and 30 seconds after it
      all the same. */
  lemma DeploymentsAreSpacedAcrossLives(hs: seq<Happening>)
    requires PossibleRun(EMPTY, hs) && PollsInOrder(hs, NO_TIME)
    ensures AllSpacedAcross(Run(EMPTY, hs).trace)
  {
    RunIsOnward(EMPTY, hs, NO_TIME);
  }

  // ---- a crash does forget ----

  const CALM := Env(Succeeds, true, true, Succeeds, {})

  // One reconcile row is deployed as planned.
  function FirstLife(start: Time): seq<Happening> {
    [Arrival(1, 7, Database.Reconcile, start), Poll(start, CALM, [1]), Poll(start + NOTICE_PERIOD, CALM, [])]
  }

  // The worker crashes right after, and another row arrives.
  function SecondLife(start: Time): seq<Happening> {
    [Crash, Arrival(2, 7, Database.Reconcile, start), Poll(start, CALM, [2]), Poll(start + NOTICE_PERIOD, CALM, [])]
  }

  // What deploying one row takes: claimed and announced, then built.
  function Deployment(id: int, start: Time): seq<Event> {
    var at := start + NOTICE_PERIOD;
    [Claimed(start, [id]), Noticed(start), Claimed(at, []), Building(at, false), Installed(at, true), Completed([id])]
  }

  // Nothing waits but the row `id`, if that.
  predicate OnlyWaits(rows: Rows, id: int) {
    forall other :: other in rows && other != id ==> rows[other].completed
  }

  lemma ClaimedAndAnnounced(s: System, id: int, start: Time)
    requires s.memory == STARTED && start != NO_TIME && OnlyWaits(s.rows, id)
    requires id > 0 && id in s.rows && s.rows[id] == Row(7, Database.Reconcile, 0, start, false)
    ensures Possible(s, Poll(start, CALM, [id]))
    ensures Next(s, Poll(start, CALM, [id]))
         == System(Leased(s.rows, [id], start + LEASE),
                   STARTED.(pending := [CoreAction(id, 7, Database.Reconcile, 1)], noticeStartedAt := start),
                   s.trace + [Claimed(start, [id])] + [Noticed(start)])
  {
    ClaimIsPossible(s, id, start);
    var taken := Taken(s, start, [id]);
    StepTakes(s, id, start);
    assert taken.memory.pending[0].action == Database.Reconcile;
    hide StepOf, DeployOf, Leased, CompleteOf;
  }

  lemma ClaimIsPossible(s: System, id: int, start: Time)
    requires s.memory == STARTED && start != NO_TIME && OnlyWaits(s.rows, id)
    requires id in s.rows && s.rows[id] == Row(7, Database.Reconcile, 0, start, false)
    ensures Possible(s, Poll(start, CALM, [id]))
  {
  }

  lemma StepTakes(s: System, id: int, start: Time)
    requires s.memory == STARTED && start != NO_TIME
    requires id > 0 && id in s.rows && s.rows[id] == Row(7, Database.Reconcile, 0, start, false)
    ensures StepOf(s, start, CALM, [id]) == ActOf(Taken(s, start, [id]), start, CALM)
    ensures Taken(s, start, [id])
         == System(Leased(s.rows, [id], start + LEASE), STARTED.(pending := [CoreAction(id, 7, Database.Reconcile, 1)]),
                   s.trace + [Claimed(start, [id])])
  {
    hide ActOf;
    var action := CoreAction(id, 7, Database.Reconcile, 1);
    assert ActionsOf(Leased(s.rows, [id], start + LEASE), [id]) == [action];
    assert [] + [action] == [action];
  }

  lemma Deployed(s: System, id: int, start: Time)
    requires start != NO_TIME && OnlyWaits(s.rows, id)
    requires id > 0 && id in s.rows && s.rows[id].availableAt == start + LEASE
    requires s.memory == STARTED.(pending := [CoreAction(id, 7, Database.Reconcile, 1)], noticeStartedAt := start)
    ensures var at := start + NOTICE_PERIOD;
            var s' := Next(s, Poll(at, CALM, []));
            && Possible(s, Poll(at, CALM, []))
            && s'.trace == s.trace + [Claimed(at, []), Building(at, false), Installed(at, true), Completed([id])]
            && s'.rows == Done(s.rows, [id])
  {
    var at := start + NOTICE_PERIOD;
    NothingToClaim(s, id, at);
    var claimed := s.(trace := s.trace + [Claimed(at, [])]);
    PlannedBuild(claimed, id, at);
    var built := claimed.trace + [Building(at, false)] + [Installed(at, true)] + [Completed([id])];
    assert built == s.trace + [Claimed(at, []), Building(at, false), Installed(at, true), Completed([id])];
  }

  lemma NothingToClaim(s: System, id: int, at: Time)
    requires at != NO_TIME && s.memory.installedAt == NO_TIME && OnlyWaits(s.rows, id)
    requires id in s.rows ==> s.rows[id].availableAt > at
    ensures Possible(s, Poll(at, CALM, []))
    ensures Next(s, Poll(at, CALM, [])) == ActOf(s.(trace := s.trace + [Claimed(at, [])]), at, CALM)
  {
    hide ActOf;
    assert Leased(s.rows, [], at + LEASE) == s.rows;
    assert s.memory.pending + [] == s.memory.pending;
  }

  lemma PlannedBuild(s: System, id: int, at: Time)
    requires at >= NOTICE_PERIOD + s.memory.noticeStartedAt && s.memory.noticeStartedAt != NO_TIME && id > 0
    requires s.memory == STARTED.(pending := [CoreAction(id, 7, Database.Reconcile, 1)],
                                  noticeStartedAt := s.memory.noticeStartedAt)
    ensures ActOf(s, at, CALM).rows == Done(s.rows, [id])
    ensures ActOf(s, at, CALM).trace == s.trace + [Building(at, false)] + [Installed(at, true)] + [Completed([id])]
  {
    var action := CoreAction(id, 7, Database.Reconcile, 1);
    assert [action][0] == action && PendingIds([action]) == [id];
  }

  // The rows other than the new one are completed, and the worker starts afresh.
  lemma {:induction false} OneDeployment(s: System, id: int, start: Time)
    requires s.memory == STARTED && start != NO_TIME && id > 0 && id !in s.rows && OnlyWaits(s.rows, id)
    ensures var hs := [Arrival(id, 7, Database.Reconcile, start), Poll(start, CALM, [id]),
                       Poll(start + NOTICE_PERIOD, CALM, [])];
            && PossibleRun(s, hs) && Run(s, hs).trace == s.trace + Deployment(id, start)
            && (forall other :: other in Run(s, hs).rows ==> Run(s, hs).rows[other].completed)
            && Run(s, hs).rows.Keys == s.rows.Keys + {id}
  {
    var arrival, claim := Arrival(id, 7, Database.Reconcile, start), Poll(start, CALM, [id]);
    var deploy := Poll(start + NOTICE_PERIOD, CALM, []);
    OneArrival(s, id, start);
    hide Next, Possible, Waiting, Done, Leased;
    ArrivedRow(s.rows, id, start);
    var s1 := Next(s, arrival);
    ClaimedAndAnnounced(s1, id, start);
    var s2 := Next(s1, claim);
    Deployed(s2, id, start);
    ThreeSteps(s, arrival, claim, deploy);
    hide Run, PossibleRun, OnlyWaits;
    RowsAfter(s.rows, id, start);
    DeploymentParts(s.trace, id, start);
    hide Deployment;
  }

  lemma ThreeSteps(s: System, a: Happening, b: Happening, c: Happening)
    requires Possible(s, a) && Possible(Next(s, a), b) && Possible(Next(Next(s, a), b), c)
    ensures PossibleRun(s, [a, b, c]) && Run(s, [a, b, c]) == Next(Next(Next(s, a), b), c)
  {
    hide Next, Possible;
    assert [a, b, c][1..] == [b, c] && [b, c][1..] == [c] && [c][1..] == [];
    OneStep(Next(Next(s, a), b), [c]);
    OneStep(Next(s, a), [b, c]);
    OneStep(s, [a, b, c]);
  }

  lemma DeploymentParts(trace: seq<Event>, id: int, start: Time)
    ensures var at := start + NOTICE_PERIOD;
            (trace + [Claimed(start, [id])] + [Noticed(start)]
             + [Claimed(at, []), Building(at, false), Installed(at, true), Completed([id])])
            == trace + Deployment(id, start)
  {
  }

  // The rows once the new one has arrived and been claimed, then completed.
  lemma ArrivedRow(rows: Rows, id: int, start: Time)
    requires id !in rows && OnlyWaits(rows, id)
    ensures var rows1 := rows[id := Row(7, Database.Reconcile, 0, start, false)];
            && OnlyWaits(rows1, id) && OnlyWaits(Leased(rows1, [id], start + LEASE), id)
            && id in Leased(rows1, [id], start + LEASE)
            && Leased(rows1, [id], start + LEASE)[id].availableAt == start + LEASE
  {
  }

  lemma RowsAfter(rows: Rows, id: int, start: Time)
    requires id !in rows && OnlyWaits(rows, id)
    ensures var rows1 := rows[id := Row(7, Database.Reconcile, 0, start, false)];
            var rows' := Done(Leased(rows1, [id], start + LEASE), [id]);
            (forall other :: other in rows' ==> rows'[other].completed) && rows'.Keys == rows.Keys + {id}
  {
  }

  lemma OneArrival(s: System, id: int, start: Time)
    requires id > 0 && id !in s.rows && OnlyWaits(s.rows, id)
    ensures var arrival := Arrival(id, 7, Database.Reconcile, start);
            && Possible(s, arrival)
            && Next(s, arrival) == s.(rows := s.rows[id := Row(7, Database.Reconcile, 0, start, false)])
  {
  }

  /** After a crash half a minute is all: a planned installation, a crash, and
      the next planned build exactly the notice later. */
  lemma CrashForgetsSpacing(start: Time) returns (hs: seq<Happening>, k: nat, m: nat)
    requires start != NO_TIME
    ensures PossibleRun(EMPTY, hs) && PollsInOrder(hs, start)
    ensures var trace := Run(EMPTY, hs).trace;
            && k < m < |trace| && trace[k] == Installed(start + NOTICE_PERIOD, true)
            && trace[m] == Building(start + NOTICE_PERIOD + NOTICE_PERIOD, false)
            && CrashedSince(trace[..m])
  {
    var first, second := FirstLife(start), SecondLife(start + NOTICE_PERIOD);
    hs, k, m := first + second, 4, 10;
    TwoLives(start);
    InOrder(start);
    hide PossibleRun, Run, PollsInOrder, CrashedSince, LastPlannedEver, Deployment;
    WhereTheyAre(start);
  }

  lemma WhereTheyAre(start: Time)
    requires start != NO_TIME
    ensures var trace := Deployment(1, start) + [Crashed] + Deployment(2, start + NOTICE_PERIOD);
            && |trace| == 13 && trace[4] == Installed(start + NOTICE_PERIOD, true)
            && trace[10] == Building(start + NOTICE_PERIOD + NOTICE_PERIOD, false) && CrashedSince(trace[..10])
  {
    hide CrashedSince;
    var before, after := Deployment(1, start) + [Crashed], Deployment(2, start + NOTICE_PERIOD);
    assert (before + after)[..10] == before + after[..3];
    CrashShows(start);
    StillCrashed(before, after[..3]);
  }

  lemma CrashShows(start: Time)
    requires start != NO_TIME
    ensures CrashedSince(Deployment(1, start) + [Crashed])
  {
    var before := Deployment(1, start) + [Crashed];
    assert before[..6] == Deployment(1, start) && before[6] == Crashed;
    DeploymentIsPlanned(1, start);
  }

  lemma DeploymentIsPlanned(id: int, start: Time)
    ensures LastPlannedEver(Deployment(id, start)) == start + NOTICE_PERIOD
  {
    assert Deployment(id, start)[..5][4] == Installed(start + NOTICE_PERIOD, true);
  }

  lemma TwoLives(start: Time)
    requires start != NO_TIME
    ensures var hs := FirstLife(start) + SecondLife(start + NOTICE_PERIOD);
            && PossibleRun(EMPTY, hs)
            && Run(EMPTY, hs).trace == Deployment(1, start) + [Crashed] + Deployment(2, start + NOTICE_PERIOD)
  {
    hide Next, Possible, PossibleRun, Run, Deployment;
    var first, second := FirstLife(start), SecondLife(start + NOTICE_PERIOD);
    OneDeployment(EMPTY, 1, start);
    var s1 := Run(EMPTY, first);
    Crashes(s1);
    var s2 := Next(s1, Crash);
    assert 2 !in s2.rows;
    OneDeployment(s2, 2, start + NOTICE_PERIOD);
    var rest := [second[1], second[2], second[3]];
    assert second[1..] == rest;
    OneStep(s1, second);
    RunsCompose(EMPTY, first, second);
    assert EMPTY.trace + Deployment(1, start) == Deployment(1, start);
  }

  lemma Crashes(s: System)
    ensures Possible(s, Crash) && Next(s, Crash) == System(s.rows, STARTED, s.trace + [Crashed])
  {
  }

  lemma OneStep(s: System, hs: seq<Happening>)
    requires hs != [] && Possible(s, hs[0]) && PossibleRun(Next(s, hs[0]), hs[1..])
    ensures PossibleRun(s, hs) && Run(s, hs) == Run(Next(s, hs[0]), hs[1..])
  {
    hide Next, Possible;
  }

  lemma InOrder(start: Time)
    ensures PollsInOrder(FirstLife(start) + SecondLife(start + NOTICE_PERIOD), start)
  {
    var hs := FirstLife(start) + SecondLife(start + NOTICE_PERIOD);
    assert |hs| == 7;
    assert hs[1..][0] == hs[1] && hs[1..][1..] == hs[2..] && hs[2..][1..] == hs[3..] && hs[3..][1..] == hs[4..];
    assert hs[4..][1..] == hs[5..] && hs[5..][1..] == hs[6..] && hs[6..][1..] == [];
    assert PollsInOrder(hs[6..], start + NOTICE_PERIOD);
    assert PollsInOrder(hs[5..], start + NOTICE_PERIOD);
    assert PollsInOrder(hs[3..], start + NOTICE_PERIOD);
  }

  lemma {:induction false} StillCrashed(trace: seq<Event>, more: seq<Event>)
    requires CrashedSince(trace) && forall i :: 0 <= i < |more| ==> !more[i].Installed? && !more[i].Crashed?
    ensures CrashedSince(trace + more)
    decreases |more|
  {
    if more != [] {
      StillCrashed(trace, more[..|more| - 1]);
      assert (trace + more)[..|trace + more| - 1] == trace + more[..|more| - 1];
    } else {
      assert trace + more == trace;
    }
  }

  lemma {:induction false} RunsCompose(s: System, a: seq<Happening>, b: seq<Happening>)
    requires PossibleRun(s, a) && PossibleRun(Run(s, a), b)
    ensures PossibleRun(s, a + b) && Run(s, a + b) == Run(Run(s, a), b)
    decreases |a|
  {
    hide Next, Possible;
    if a == [] {
      assert a + b == b;
    } else {
      RunsCompose(Next(s, a[0]), a[1..], b);
      assert (a + b)[1..] == a[1..] + b;
    }
  }
}
