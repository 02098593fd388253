/** The worker's clocks: notice periods, restart spacing, leases and retries. */
module WorkerTiming {
  import opened Basics
  import Database
  import opened CoreActions
  import opened Worker
  import opened WorkerRuns

  // ---- notice and spacing, read off the trace ----

  // The last planned installation of the current life, if any.
  function LastPlanned(trace: seq<Event>): Time {
    if trace == [] then NO_TIME
    else match trace[|trace| - 1]
      case Installed(at, true) => at
      case Crashed => NO_TIME
      case _ => LastPlanned(trace[..|trace| - 1])
  }

  // The announcement no build has followed yet, if any.
  function OpenNotice(trace: seq<Event>): Time {
    if trace == [] then NO_TIME
    else match trace[|trace| - 1]
      case Noticed(at) => at
      case Building(_, _) => NO_TIME
      case Crashed => NO_TIME
      case _ => OpenNotice(trace[..|trace| - 1])
  }

  // A build with no revocation waits out its announcement and the restart limit.
  predicate WellSpaced(before: seq<Event>, e: Event) {
    e.Building? && !e.urgent ==>
      && OpenNotice(before) != NO_TIME && e.at >= OpenNotice(before) + NOTICE_PERIOD
      && (LastPlanned(before) != NO_TIME ==> e.at >= LastPlanned(before) + RESTART_LIMIT)
  }

  predicate AllWellSpaced(trace: seq<Event>) {
    forall i :: 0 <= i < |trace| ==> WellSpaced(trace[..i], trace[i])
  }

  predicate ClocksAgree(m: Memory, trace: seq<Event>) {
    if m.installedAt == NO_TIME
    then m.noticeStartedAt == OpenNotice(trace) && m.lastPlannedRestart == LastPlanned(trace)
    else OpenNotice(trace) == NO_TIME
         && LastPlanned(trace) == if m.installedPlanned then m.installedAt else m.lastPlannedRestart
  }

  predicate Timed(s: System) {
    AllWellSpaced(s.trace) && ClocksAgree(s.memory, s.trace)
  }

  lemma Logged(trace: seq<Event>, e: Event)
    requires AllWellSpaced(trace) && WellSpaced(trace, e)
    ensures AllWellSpaced(trace + [e])
    ensures (trace + [e])[..|trace|] == trace
  {
    var trace' := trace + [e];
    assert trace'[..|trace|] == trace;
    forall i | 0 <= i < |trace'| ensures WellSpaced(trace'[..i], trace'[i]) {
      if i < |trace| {
        assert trace'[..i] == trace[..i];
        assert WellSpaced(trace[..i], trace[i]);
      }
    }
  }

  lemma CompleteKeepsTimed(s: System, now: Time, outcome: Outcome)
    requires Timed(s) && s.memory.installedAt != NO_TIME
    ensures Timed(CompleteOf(s, now, outcome))
  {
    hide AllWellSpaced;
    Logged(s.trace, Completed(PendingIds(s.memory.pending)));
  }

  lemma DeployKeepsTimed(s: System, now: Time, planned: bool, urgent: bool, env: Env)
    requires Timed(s) && s.memory.installedAt == NO_TIME && now != NO_TIME
    requires WellSpaced(s.trace, Building(now, urgent))
    ensures Timed(DeployOf(s, now, planned, urgent, env))
  {
    hide AllWellSpaced, CompleteOf;
    var build, install := Building(now, urgent), Installed(now, planned);
    Logged(s.trace, build);
    Logged(s.trace + [build], install);
    if env.build && env.install {
      var installed := System(s.rows, s.memory.(installedAt := now, installedPlanned := planned),
                              s.trace + [build] + [install]);
      assert LastPlanned(s.trace + [build]) == s.memory.lastPlannedRestart;
      assert OpenNotice(s.trace + [build]) == NO_TIME;
      assert ClocksAgree(installed.memory, installed.trace);
      CompleteKeepsTimed(installed, now, env.complete);
    }
  }

  lemma ActKeepsTimed(s: System, now: Time, env: Env)
    requires Timed(s) && s.memory.installedAt == NO_TIME && now != NO_TIME
    ensures Timed(ActOf(s, now, env))
  {
    hide AllWellSpaced, DeployOf;
    if s.memory.pending != [] {
      if HasKind(s.memory.pending, Database.Revoke) {
        DeployKeepsTimed(s, now, HasKind(s.memory.pending, Database.Reconcile), true, env);
      } else {
        Logged(s.trace, Noticed(now));
        var told := Told(s, now);
        if now >= ReadyAt(told.memory) {
          DeployKeepsTimed(told, now, true, false, env);
        }
      }
    }
  }

  lemma {:induction false} NextKeepsTimed(s: System, h: Happening)
    requires Timed(s) && Possible(s, h)
    ensures Timed(Next(s, h))
  {
    hide AllWellSpaced;
    match h {
      case Poll(now, env, ids) =>
        StepCases(s, now, env, ids);
        hide StepOf, ActOf, CompleteOf;
        if s.memory.installedAt != NO_TIME {
          CompleteKeepsTimed(s, now, env.complete);
        } else if Acts(s, now, env, ids) {
          Logged(s.trace, Claimed(now, ids));
          ActKeepsTimed(Taken(s, now, ids), now, env);
        }
      case Arrival(_, _, _, _) =>
      case Crash => Logged(s.trace, Crashed);
    }
  }

  /** In every run, every deployment without a revocation starts at least 30
      seconds after its announcement and at least a minute after the last
      installation that included planned actions in this life of the worker. */
  lemma {:induction false} DeploymentsAreSpaced(s: System, hs: seq<Happening>)
    requires Timed(s) && PossibleRun(s, hs)
    ensures Timed(Run(s, hs)) && AllWellSpaced(Run(s, hs).trace)
    decreases |hs|
  {
    hide Next, Possible, AllWellSpaced, ClocksAgree;
    if hs != [] {
      NextKeepsTimed(s, hs[0]);
      DeploymentsAreSpaced(Next(s, hs[0]), hs[1..]);
    }
  }

  // ---- leases ----

  // When the worker last received a claim in this life.
  function LastClaim(trace: seq<Event>): Time {
    if trace == [] then NO_TIME
    else match trace[|trace| - 1]
      case Claimed(at, _) => at
      case Crashed => NO_TIME
      case _ => LastClaim(trace[..|trace| - 1])
  }

  // What is held is waiting, announced, and leased beyond the next claim.
  predicate Leases(s: System, clock: Time) {
    var m := s.memory;
    && m.lastPlannedRestart <= clock && m.installedAt <= clock && m.noticeStartedAt <= clock
    && (m.installedAt == NO_TIME && m.pending == [] ==> m.noticeStartedAt == NO_TIME)
    && (m.installedAt == NO_TIME && m.pending != [] ==>
          && m.noticeStartedAt != NO_TIME && m.lastPlannedRestart <= m.noticeStartedAt
          && LastClaim(s.trace) < ReadyAt(m)
          && forall i :: 0 <= i < |m.pending| ==>
               m.pending[i].id in s.rows && s.rows[m.pending[i].id].availableAt >= m.noticeStartedAt + LEASE)
  }

  // Polls follow the clock, and a claim made while rows are held comes less
  // than a minute after the previous one.
  predicate Prompt(s: System, h: Happening, clock: Time) {
    h.Poll? ==>
      && clock <= h.now
      && (s.memory.installedAt == NO_TIME && s.memory.pending != [] && !h.env.claim.FailsBefore? ==>
            h.now < LastClaim(s.trace) + MINUTE)
  }

  lemma DeployLeases(s: System, now: Time, planned: bool, urgent: bool, env: Env)
    requires now != NO_TIME && s.memory.installedAt == NO_TIME
    requires s.memory.lastPlannedRestart <= now && s.memory.noticeStartedAt <= now
    ensures Leases(DeployOf(s, now, planned, urgent, env), now)
  {
    hide RetriedAll, UniqueIds, PendingIds, LastClaim;
  }

  lemma ActLeases(s: System, now: Time, env: Env)
    requires now != NO_TIME && s.memory.installedAt == NO_TIME && LastClaim(s.trace) == now
    requires s.memory.lastPlannedRestart <= now && s.memory.noticeStartedAt <= now
    requires s.memory.pending == [] ==> s.memory.noticeStartedAt == NO_TIME
    requires s.memory.noticeStartedAt != NO_TIME ==> s.memory.lastPlannedRestart <= s.memory.noticeStartedAt
    requires forall i :: 0 <= i < |s.memory.pending| ==>
               s.memory.pending[i].id in s.rows && s.rows[s.memory.pending[i].id].availableAt
               >= (if s.memory.noticeStartedAt == NO_TIME then now else s.memory.noticeStartedAt) + LEASE
    ensures Leases(ActOf(s, now, env), now)
  {
    hide DeployOf;
    if s.memory.pending != [] {
      if HasKind(s.memory.pending, Database.Revoke) {
        DeployLeases(s, now, HasKind(s.memory.pending, Database.Reconcile), true, env);
      } else {
        var told := Told(s, now);
        assert told.trace == s.trace || told.trace[..|s.trace|] == s.trace;
        DeployLeases(told, now, true, false, env);
      }
    }
  }

  // A held row is not due when the next prompt claim is made.
  lemma HeldIsNotDue(s: System, clock: Time, h: Happening, i: nat)
    requires Leases(s, clock) && Possible(s, h) && h.Poll? && Prompt(s, h, clock)
    requires s.memory.installedAt == NO_TIME && !h.env.claim.FailsBefore? && i < |s.memory.pending|
    ensures s.memory.pending[i].id !in h.ids
  {
  }

  lemma PromptClaimsAppend(s: System, clock: Time, h: Happening)
    requires Basic(s) && Leases(s, clock) && Possible(s, h) && h.Poll? && Prompt(s, h, clock)
    requires s.memory.installedAt == NO_TIME && !h.env.claim.FailsBefore?
    ensures Appendable(s.memory.pending, ActionsOf(Leased(s.rows, h.ids, h.now + LEASE), h.ids))
  {
    var claimed := ActionsOf(Leased(s.rows, h.ids, h.now + LEASE), h.ids);
    forall i, j | 0 <= i < |s.memory.pending| && 0 <= j < |claimed| ensures s.memory.pending[i].id != claimed[j].id {
      HeldIsNotDue(s, clock, h, i);
      assert claimed[j].id in h.ids;
    }
    forall j | 0 <= j < |claimed| ensures claimed[j].id > 0 && claimed[j].user > 0 && claimed[j].attempts > 0 {
      assert h.ids[j] in h.ids;
    }
  }

  lemma {:induction false} NextKeepsLeases(s: System, h: Happening, clock: Time)
    requires Basic(s) && Leases(s, clock) && Possible(s, h) && Prompt(s, h, clock)
    ensures Leases(Next(s, h), if h.Poll? then h.now else clock)
  {
    if h.Poll? {
      var Poll(now, env, ids) := h;
      StepCases(s, now, env, ids);
      if s.memory.installedAt != NO_TIME {
        hide StepOf, ActOf, RetriedAll, LastClaim;
      } else if Acts(s, now, env, ids) {
        hide StepOf, ActOf, CompleteOf;
        ActLeases(Taken(s, now, ids), now, env) by {
          TakenIsLeased(s, clock, h);
        }
      } else {
        hide StepOf, ActOf, CompleteOf, LastClaim;
        LeasingKeepsLeases(s, ids, now, clock);
      }
    }
  }

  lemma TakenIsLeased(s: System, clock: Time, h: Happening)
    requires Basic(s) && Leases(s, clock) && Possible(s, h) && h.Poll? && Prompt(s, h, clock)
    requires Acts(s, h.now, h.env, h.ids)
    ensures var t := Taken(s, h.now, h.ids);
            && LastClaim(t.trace) == h.now
            && (t.memory.pending == [] ==> t.memory.noticeStartedAt == NO_TIME)
            && (t.memory.noticeStartedAt != NO_TIME ==> t.memory.lastPlannedRestart <= t.memory.noticeStartedAt)
            && forall i :: 0 <= i < |t.memory.pending| ==>
                 t.memory.pending[i].id in t.rows && t.rows[t.memory.pending[i].id].availableAt
                 >= (if t.memory.noticeStartedAt == NO_TIME then h.now else t.memory.noticeStartedAt) + LEASE
  {
    var t := Taken(s, h.now, h.ids);
    forall i | 0 <= i < |t.memory.pending|
      ensures t.memory.pending[i].id in t.rows
      ensures t.rows[t.memory.pending[i].id].availableAt
              >= (if t.memory.noticeStartedAt == NO_TIME then h.now else t.memory.noticeStartedAt) + LEASE
    {
      if i >= |s.memory.pending| {
        assert h.ids[i - |s.memory.pending|] in h.ids;
      } else {
        HeldIsNotDue(s, clock, h, i);
      }
    }
  }

  lemma LeasingKeepsLeases(s: System, ids: seq<int>, now: Time, clock: Time)
    requires Leases(s, clock) && clock <= now
    ensures Leases(s, now) && Leases(s.(rows := Leased(s.rows, ids, now + LEASE)), now)
  {
    hide LastClaim;
  }

  // A run whose claims are all prompt.
  ghost predicate PromptRun(s: System, hs: seq<Happening>, clock: Time)
    decreases |hs|
  {
    hs == []
    || (Prompt(s, hs[0], clock) && PromptRun(Next(s, hs[0]), hs[1..], if hs[0].Poll? then hs[0].now else clock))
  }

  // Every claim of the run that comes back can be appended: it brings no row
  // the worker already holds, and none twice.
  ghost predicate ClaimsAppend(s: System, hs: seq<Happening>)
    decreases |hs|
  {
    hs == [] || (
      && (hs[0].Poll? && s.memory.installedAt == NO_TIME && !hs[0].env.claim.FailsBefore? ==>
            && (forall id :: id in hs[0].ids ==> id in s.rows)
            && Appendable(s.memory.pending, ActionsOf(Leased(s.rows, hs[0].ids, hs[0].now + LEASE), hs[0].ids)))
      && ClaimsAppend(Next(s, hs[0]), hs[1..]))
  }

  /** While claims come less than a minute apart, no lease of a held row ever
      expires: no row is claimed twice while held, so no claim is ever thrown
      away as a duplicate. */
  lemma {:induction false} PromptClaimsNeverOverlap(s: System, hs: seq<Happening>, clock: Time)
    requires Basic(s) && Leases(s, clock) && PossibleRun(s, hs) && PromptRun(s, hs, clock)
    ensures ClaimsAppend(s, hs)
    decreases |hs|
  {
    if hs != [] {
      var h := hs[0];
      if h.Poll? && s.memory.installedAt == NO_TIME && !h.env.claim.FailsBefore? {
        PromptClaimsAppend(s, clock, h);
      }
      hide Next, Basic, Leases, Prompt, Appendable;
      NextKeepsBasic(s, h);
      NextKeepsLeases(s, h, clock);
      PromptClaimsNeverOverlap(Next(s, h), hs[1..], if h.Poll? then h.now else clock);
    }
  }

  // ---- nothing is lost ----

  const HORIZON: int := 15 * MINUTE

  // Every waiting row is claimable some time within the horizon.
  predicate DueBy(rows: Rows, latest: Time) {
    forall id :: id in rows && !rows[id].completed ==> rows[id].availableAt <= latest + HORIZON
  }

  function Latest(h: Happening, latest: Time): Time {
    var at := match h case Poll(now, _, _) => now case Arrival(_, _, _, at) => at case Crash => NO_TIME;
    if at > latest then at else latest
  }

  function LatestOf(hs: seq<Happening>, latest: Time): Time
    decreases |hs|
  {
    if hs == [] then latest else LatestOf(hs[1..], Latest(hs[0], latest))
  }

  lemma {:induction false} RetriesAreDueBy(
      rows: Rows, pending: seq<CoreAction>, now: Time, deaf: set<int>, latest: Time)
    requires DueBy(rows, latest) && now <= latest
    ensures DueBy(RetriedAll(rows, pending, now, deaf), latest)
    decreases |pending|
  {
    if pending != [] {
      RetriesAreDueBy(rows, pending[..|pending| - 1], now, deaf, latest);
    }
  }

  lemma DeployIsDueBy(s: System, now: Time, planned: bool, urgent: bool, env: Env, latest: Time)
    requires DueBy(s.rows, latest) && now <= latest
    ensures DueBy(DeployOf(s, now, planned, urgent, env).rows, latest)
    ensures s.rows.Keys == DeployOf(s, now, planned, urgent, env).rows.Keys
  {
    RetriesAreDueBy(s.rows, s.memory.pending, now, env.deaf, latest);
    RetriedKeepsRows(s.rows, s.memory.pending, now, env.deaf);
    hide RetriedAll;
  }

  lemma {:induction false} NextIsDueBy(s: System, h: Happening, latest: Time)
    requires DueBy(s.rows, latest) && Possible(s, h)
    ensures DueBy(Next(s, h).rows, Latest(h, latest)) && s.rows.Keys <= Next(s, h).rows.Keys
  {
    if h.Poll? {
      var Poll(now, env, ids) := h;
      StepCases(s, now, env, ids);
      hide StepOf, ActOf, CompleteOf;
      if Acts(s, now, env, ids) {
        ActingIsDueBy(Taken(s, now, ids), now, env, Latest(h, latest));
      } else {
        CompletingIsDueBy(s, now, env.complete, Latest(h, latest));
      }
    }
  }

  lemma ActingIsDueBy(s: System, now: Time, env: Env, latest: Time)
    requires DueBy(s.rows, latest) && now <= latest
    ensures DueBy(ActOf(s, now, env).rows, latest) && s.rows.Keys == ActOf(s, now, env).rows.Keys
  {
    hide DeployOf, DueBy;
    DeployIsDueBy(s, now, HasKind(s.memory.pending, Database.Reconcile), true, env, latest);
    DeployIsDueBy(Told(s, now), now, true, false, env, latest);
  }

  lemma CompletingIsDueBy(s: System, now: Time, outcome: Outcome, latest: Time)
    requires DueBy(s.rows, latest)
    ensures DueBy(CompleteOf(s, now, outcome).rows, latest) && s.rows.Keys <= CompleteOf(s, now, outcome).rows.Keys
  {
  }

  /** On every run no row is ever lost, even if retries fail or the worker
      crashes holding it: it stays in the table, and while uncompleted it is
      claimable again at the latest fifteen minutes after the last event. */
  lemma {:induction false} NoRowIsLost(s: System, hs: seq<Happening>, latest: Time)
    requires DueBy(s.rows, latest) && PossibleRun(s, hs)
    ensures s.rows.Keys <= Run(s, hs).rows.Keys
    ensures forall id, now: Time ::
              (id in Run(s, hs).rows && !Run(s, hs).rows[id].completed && now >= LatestOf(hs, latest) + HORIZON)
              ==> Due(Run(s, hs).rows, id, now)
    decreases |hs|
  {
    hide Next, Possible;
    if hs != [] {
      NextIsDueBy(s, hs[0], latest);
      NoRowIsLost(Next(s, hs[0]), hs[1..], Latest(hs[0], latest));
    }
  }
}
