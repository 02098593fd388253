/** Whole runs of the worker over the outbox, with enqueues between its polls
    and crashes that lose its memory. */
module WorkerRuns {
  import opened Basics
  import Database
  import opened CoreActions
  import opened Worker

  datatype Happening =
    | Poll(now: Time, env: Env, ids: seq<int>)
    | Arrival(id: int, user: int, action: Database.Action, at: Time)
    | Crash

  function Next(s: System, h: Happening): System {
    match h
    case Poll(now, env, ids) => if forall id :: id in ids ==> id in s.rows then StepOf(s, now, env, ids) else s
    case Arrival(id, user, action, at) =>
      if Waiting(s.rows, user, action) then s else s.(rows := s.rows[id := Row(user, action, 0, at, false)])
    case Crash => s.(memory := STARTED, trace := s.trace + [Crashed])
  }

  ghost predicate Possible(s: System, h: Happening) {
    match h
    case Poll(now, env, ids) => now != NO_TIME && Claims(s, now, env, ids)
    case Arrival(id, user, _, _) => id > 0 && user > 0 && id !in s.rows
    case Crash => true
  }

  ghost predicate PossibleRun(s: System, hs: seq<Happening>)
    decreases |hs|
  {
    hs == [] || (Possible(s, hs[0]) && PossibleRun(Next(s, hs[0]), hs[1..]))
  }

  function Run(s: System, hs: seq<Happening>): System
    decreases |hs|
  {
    if hs == [] then s else Run(Next(s, hs[0]), hs[1..])
  }

  const EMPTY := System(map[], STARTED, [])

  // ---- what the worker holds ----

  predicate RowsSane(rows: Rows) {
    forall id :: id in rows ==> id > 0 && rows[id].user > 0
  }

  predicate HoldsRows(rows: Rows, pending: seq<CoreAction>) {
    && (forall i :: 0 <= i < |pending| ==>
          pending[i].id > 0 && pending[i].id in rows && pending[i].action == rows[pending[i].id].action)
    && (forall i, j :: 0 <= i < j < |pending| ==> pending[i].id != pending[j].id)
  }

  predicate Basic(s: System) {
    && RowsSane(s.rows) && HoldsRows(s.rows, s.memory.pending)
    && (s.memory.installedAt != NO_TIME ==> s.memory.pending != [])
  }

  // Row updates that leave owners and kinds alone.
  predicate SameRows(a: Rows, b: Rows) {
    && a.Keys == b.Keys
    && (forall id :: id in a ==> b[id].user == a[id].user && b[id].action == a[id].action)
  }

  lemma {:induction false} RetriedKeepsRows(rows: Rows, pending: seq<CoreAction>, now: Time, deaf: set<int>)
    ensures SameRows(rows, RetriedAll(rows, pending, now, deaf))
    ensures forall id :: id in rows ==> RetriedAll(rows, pending, now, deaf)[id].completed == rows[id].completed
    decreases |pending|
  {
    if pending != [] {
      RetriedKeepsRows(rows, pending[..|pending| - 1], now, deaf);
    }
  }

  lemma CompleteKeepsBasic(s: System, now: Time, outcome: Outcome)
    requires Basic(s)
    ensures Basic(CompleteOf(s, now, outcome)) && SameRows(s.rows, CompleteOf(s, now, outcome).rows)
  {
  }

  lemma DeployKeepsBasic(s: System, now: Time, planned: bool, urgent: bool, env: Env)
    requires Basic(s) && s.memory.installedAt == NO_TIME && now != NO_TIME && s.memory.pending != []
    ensures Basic(DeployOf(s, now, planned, urgent, env))
    ensures SameRows(s.rows, DeployOf(s, now, planned, urgent, env).rows)
  {
    RetriedKeepsRows(s.rows, s.memory.pending, now, env.deaf);
    var building := s.(trace := s.trace + [Building(now, urgent)]);
    CompleteKeepsBasic(building.(trace := building.trace + [Installed(now, planned)],
                                 memory := s.memory.(installedAt := now, installedPlanned := planned)),
                       now, env.complete);
  }

  lemma ActKeepsBasic(s: System, now: Time, env: Env)
    requires Basic(s) && s.memory.installedAt == NO_TIME && now != NO_TIME
    ensures Basic(ActOf(s, now, env))
  {
    hide DeployOf;
    if s.memory.pending != [] {
      if HasKind(s.memory.pending, Database.Revoke) {
        DeployKeepsBasic(s, now, HasKind(s.memory.pending, Database.Reconcile), true, env);
      } else {
        var told := Told(s, now);
        DeployKeepsBasic(told, now, true, false, env);
      }
    }
  }

  // The state once the planned restart has been announced.
  function Told(s: System, now: Time): System {
    if s.memory.noticeStartedAt == NO_TIME
    then s.(memory := s.memory.(noticeStartedAt := now), trace := s.trace + [Noticed(now)]) else s
  }

  // The state once a claim has been appended.
  function Taken(s: System, now: Time, ids: seq<int>): System
    requires forall id :: id in ids ==> id in s.rows
  {
    var rows := Leased(s.rows, ids, now + LEASE);
    System(rows, s.memory.(pending := s.memory.pending + ActionsOf(rows, ids)), s.trace + [Claimed(now, ids)])
  }

  // A poll that acts is one whose claim came back and could be appended.
  predicate Acts(s: System, now: Time, env: Env, ids: seq<int>)
    requires forall id :: id in ids ==> id in s.rows
  {
    && now != NO_TIME && s.memory.installedAt == NO_TIME && env.claim.Succeeds?
    && Appendable(s.memory.pending, ActionsOf(Leased(s.rows, ids, now + LEASE), ids))
  }

  lemma StepCases(s: System, now: Time, env: Env, ids: seq<int>)
    requires now != NO_TIME && forall id :: id in ids ==> id in s.rows
    ensures var s' := StepOf(s, now, env, ids);
            || (s.memory.installedAt != NO_TIME && s' == CompleteOf(s, now, env.complete))
            || (s.memory.installedAt == NO_TIME && (s' == s || s' == s.(rows := Leased(s.rows, ids, now + LEASE)))
                && !Acts(s, now, env, ids))
            || (Acts(s, now, env, ids) && s' == ActOf(Taken(s, now, ids), now, env))
  {
    hide ActOf, CompleteOf;
  }

  lemma TakenKeepsBasic(s: System, now: Time, env: Env, ids: seq<int>)
    requires Basic(s) && (forall id :: id in ids ==> id in s.rows) && Acts(s, now, env, ids)
    ensures Basic(Taken(s, now, ids))
  {
  }

  lemma {:induction false} NextKeepsBasic(s: System, h: Happening)
    requires Basic(s) && Possible(s, h)
    ensures Basic(Next(s, h))
  {
    if h.Poll? {
      var Poll(now, env, ids) := h;
      StepCases(s, now, env, ids);
      hide StepOf, ActOf, CompleteOf;
      if Acts(s, now, env, ids) {
        TakenKeepsBasic(s, now, env, ids);
        ActKeepsBasic(Taken(s, now, ids), now, env);
      } else {
        CompleteKeepsBasic(s, now, env.complete);
      }
    }
  }

  // ---- a row is completed only for a configuration that could reflect it ----

  predicate NoCrash(trace: seq<Event>, from: nat, to: nat) {
    to <= |trace| && forall m :: from <= m < to ==> !trace[m].Crashed?
  }

  // The worker claimed `id` at `j` and has not crashed up to `to`.
  predicate ClaimedAt(trace: seq<Event>, j: nat, to: nat, id: int) {
    j < |trace| && trace[j].Claimed? && id in trace[j].ids && NoCrash(trace, j, to)
  }

  // Some build started at `k` and its configuration was installed.
  predicate InstalledAt(trace: seq<Event>, k: nat) {
    k + 1 < |trace| && trace[k].Building? && trace[k + 1].Installed?
  }

  ghost predicate Held(trace: seq<Event>, id: int) {
    exists j :: 0 <= j < |trace| && ClaimedAt(trace, j, |trace|, id)
  }

  // Before `to`: claimed, then built, then installed, in one life of the worker.
  ghost predicate Reflected(trace: seq<Event>, to: nat, id: int) {
    exists j, k :: 0 <= j < k && k + 1 < to && ClaimedAt(trace, j, to, id) && InstalledAt(trace, k)
  }

  ghost predicate Provenance(s: System) {
    && (forall i :: 0 <= i < |s.memory.pending| ==> Held(s.trace, s.memory.pending[i].id))
    && (s.memory.installedAt != NO_TIME ==>
          forall i :: 0 <= i < |s.memory.pending| ==> Reflected(s.trace, |s.trace|, s.memory.pending[i].id))
    && (forall i, id :: 0 <= i < |s.trace| && s.trace[i].Completed? && id in s.trace[i].ids ==>
          Reflected(s.trace, i, id))
    && (forall id :: id in s.rows && s.rows[id].completed ==>
          exists i :: 0 <= i < |s.trace| && s.trace[i].Completed? && id in s.trace[i].ids)
  }

  lemma ReflectedGrows(trace: seq<Event>, to: nat, id: int, e: Event)
    requires Reflected(trace, to, id)
    ensures Reflected(trace + [e], to, id)
    ensures to == |trace| && !e.Crashed? ==> Reflected(trace + [e], to + 1, id)
  {
    var j, k :| 0 <= j < k && k + 1 < to && ClaimedAt(trace, j, to, id) && InstalledAt(trace, k);
    var trace' := trace + [e];
    assert ClaimedAt(trace', j, to, id) && InstalledAt(trace', k);
    if to == |trace| && !e.Crashed? {
      assert ClaimedAt(trace', j, to + 1, id);
    }
  }

  lemma HeldGrows(trace: seq<Event>, id: int, e: Event)
    requires Held(trace, id) && !e.Crashed?
    ensures Held(trace + [e], id)
  {
    var j :| 0 <= j < |trace| && ClaimedAt(trace, j, |trace|, id);
    assert ClaimedAt(trace + [e], j, |trace| + 1, id);
  }

  // Any event but a crash or a completion can be logged.
  lemma LoggingKeepsProvenance(s: System, e: Event)
    requires Provenance(s) && !e.Crashed? && !e.Completed?
    ensures Provenance(s.(trace := s.trace + [e]))
  {
    var trace' := s.trace + [e];
    forall i | 0 <= i < |s.memory.pending|
      ensures Held(trace', s.memory.pending[i].id)
      ensures s.memory.installedAt != NO_TIME ==> Reflected(trace', |trace'|, s.memory.pending[i].id)
    {
      HeldGrows(s.trace, s.memory.pending[i].id, e);
      if s.memory.installedAt != NO_TIME {
        ReflectedGrows(s.trace, |s.trace|, s.memory.pending[i].id, e);
      }
    }
    LogKeepsCompletions(s.rows, s.trace, e);
  }

  ghost predicate CompletionsReflected(rows: Rows, trace: seq<Event>) {
    && (forall i, id :: 0 <= i < |trace| && trace[i].Completed? && id in trace[i].ids ==> Reflected(trace, i, id))
    && (forall id :: id in rows && rows[id].completed ==>
          exists i :: 0 <= i < |trace| && trace[i].Completed? && id in trace[i].ids)
  }

  lemma LogKeepsCompletions(rows: Rows, trace: seq<Event>, e: Event)
    requires CompletionsReflected(rows, trace) && !e.Completed?
    ensures CompletionsReflected(rows, trace + [e])
  {
    var trace' := trace + [e];
    forall i, id | 0 <= i < |trace'| && trace'[i].Completed? && id in trace'[i].ids ensures Reflected(trace', i, id) {
      ReflectedGrows(trace, i, id, e);
    }
    forall id | id in rows && rows[id].completed
      ensures exists i :: 0 <= i < |trace'| && trace'[i].Completed? && id in trace'[i].ids
    {
      var i :| 0 <= i < |trace| && trace[i].Completed? && id in trace[i].ids;
      assert trace'[i] == trace[i];
    }
  }

  lemma CompletingKeepsCompletions(rows: Rows, trace: seq<Event>, ids: seq<int>)
    requires CompletionsReflected(rows, trace) && forall id :: id in ids ==> Reflected(trace, |trace|, id)
    ensures CompletionsReflected(Done(rows, ids), trace + [Completed(ids)])
  {
    var e := Completed(ids);
    var trace' := trace + [e];
    forall i, id | 0 <= i < |trace'| && trace'[i].Completed? && id in trace'[i].ids ensures Reflected(trace', i, id) {
      ReflectedGrows(trace, i, id, e);
    }
    forall id | id in Done(rows, ids) && Done(rows, ids)[id].completed
      ensures exists i :: 0 <= i < |trace'| && trace'[i].Completed? && id in trace'[i].ids
    {
      if id in ids {
        assert trace'[|trace|] == e;
      } else {
        var i :| 0 <= i < |trace| && trace[i].Completed? && id in trace[i].ids;
        assert trace'[i] == trace[i];
      }
    }
  }

  lemma CompleteKeepsProvenance(s: System, now: Time, outcome: Outcome)
    requires Provenance(s) && s.memory.installedAt != NO_TIME
    ensures Provenance(CompleteOf(s, now, outcome))
  {
    var ids := PendingIds(s.memory.pending);
    if !(now == NO_TIME || !UniqueIds(ids) || outcome.FailsBefore?) {
      var e := Completed(ids);
      CompletingKeepsCompletions(s.rows, s.trace, ids);
      forall i | 0 <= i < |s.memory.pending|
        ensures Held(s.trace + [e], s.memory.pending[i].id)
        ensures Reflected(s.trace + [e], |s.trace| + 1, s.memory.pending[i].id)
      {
        HeldGrows(s.trace, s.memory.pending[i].id, e);
        ReflectedGrows(s.trace, |s.trace|, s.memory.pending[i].id, e);
      }
    }
  }

  // A build and its installation reflect everything held.
  lemma InstallingReflects(trace: seq<Event>, id: int, build: Event, install: Event)
    requires Held(trace, id) && build.Building? && install.Installed?
    ensures Reflected(trace + [build] + [install], |trace| + 2, id)
  {
    var j :| 0 <= j < |trace| && ClaimedAt(trace, j, |trace|, id);
    var trace' := trace + [build] + [install];
    assert ClaimedAt(trace', j, |trace'|, id) && InstalledAt(trace', |trace|);
  }

  lemma DeployKeepsProvenance(s: System, now: Time, planned: bool, urgent: bool, env: Env)
    requires Provenance(s) && s.memory.installedAt == NO_TIME && now != NO_TIME
    ensures Provenance(DeployOf(s, now, planned, urgent, env))
  {
    hide CompleteOf, Held, Reflected;
    var build, install := Building(now, urgent), Installed(now, planned);
    LoggingKeepsProvenance(s, build);
    var building := s.(trace := s.trace + [build]);
    if !env.build || !env.install {
      RetriedKeepsRows(s.rows, s.memory.pending, now, env.deaf);
    } else {
      LoggingKeepsProvenance(building, install);
      forall i | 0 <= i < |s.memory.pending|
        ensures Reflected(building.trace + [install], |building.trace| + 1, s.memory.pending[i].id)
      {
        InstallingReflects(s.trace, s.memory.pending[i].id, build, install);
      }
      CompleteKeepsProvenance(building.(trace := building.trace + [install],
                                        memory := s.memory.(installedAt := now, installedPlanned := planned)),
                              now, env.complete);
    }
  }

  lemma ActKeepsProvenance(s: System, now: Time, env: Env)
    requires Provenance(s) && s.memory.installedAt == NO_TIME && now != NO_TIME
    ensures Provenance(ActOf(s, now, env))
  {
    hide DeployOf, Held, Reflected;
    if s.memory.pending != [] {
      if HasKind(s.memory.pending, Database.Revoke) {
        DeployKeepsProvenance(s, now, HasKind(s.memory.pending, Database.Reconcile), true, env);
      } else {
        LoggingKeepsProvenance(s, Noticed(now));
        DeployKeepsProvenance(Told(s, now), now, true, false, env);
      }
    }
  }

  lemma TakenKeepsProvenance(s: System, now: Time, ids: seq<int>)
    requires Provenance(s) && s.memory.installedAt == NO_TIME && forall id :: id in ids ==> id in s.rows
    ensures Provenance(Taken(s, now, ids))
  {
    LoggingKeepsProvenance(s, Claimed(now, ids));
    var s' := Taken(s, now, ids);
    forall i | 0 <= i < |s'.memory.pending| ensures Held(s'.trace, s'.memory.pending[i].id) {
      if i >= |s.memory.pending| {
        assert ClaimedAt(s'.trace, |s.trace|, |s'.trace|, s'.memory.pending[i].id);
      }
    }
  }

  lemma LeasingKeepsProvenance(s: System, ids: seq<int>, until: Time)
    requires Provenance(s)
    ensures Provenance(s.(rows := Leased(s.rows, ids, until)))
  {
    hide Held, Reflected;
  }

  lemma CrashKeepsProvenance(s: System)
    requires Provenance(s)
    ensures Provenance(s.(memory := STARTED, trace := s.trace + [Crashed]))
  {
    LogKeepsCompletions(s.rows, s.trace, Crashed);
  }

  lemma {:induction false} NextKeepsProvenance(s: System, h: Happening)
    requires Provenance(s) && Possible(s, h)
    ensures Provenance(Next(s, h))
  {
    match h {
      case Poll(now, env, ids) =>
        StepCases(s, now, env, ids);
        hide StepOf, ActOf, CompleteOf, Provenance;
        if s.memory.installedAt != NO_TIME {
          CompleteKeepsProvenance(s, now, env.complete);
        } else {
          LeasingKeepsProvenance(s, ids, now + LEASE);
          TakenKeepsProvenance(s, now, ids);
          ActKeepsProvenance(Taken(s, now, ids), now, env);
        }
      case Arrival(_, _, _, _) => hide Held, Reflected;
      case Crash => CrashKeepsProvenance(s);
    }
  }

  lemma {:induction false} RunKeepsProvenance(s: System, hs: seq<Happening>)
    requires Provenance(s) && PossibleRun(s, hs)
    ensures Provenance(Run(s, hs))
    decreases |hs|
  {
    hide Provenance, Next, Possible;
    if hs != [] {
      NextKeepsProvenance(s, hs[0]);
      RunKeepsProvenance(Next(s, hs[0]), hs[1..]);
    }
  }

  /** On every run, with crashes and store failures anywhere: a row is completed
      only by a completion before which the worker claimed it, then started a
      build, then installed that build, all without crashing in between. */
  lemma {:induction false} CompletedMeansDeployed(hs: seq<Happening>, id: int)
    requires PossibleRun(EMPTY, hs)
    requires var rows := Run(EMPTY, hs).rows; id in rows && rows[id].completed
    ensures var trace := Run(EMPTY, hs).trace;
            exists i :: 0 <= i < |trace| && trace[i].Completed? && id in trace[i].ids && Reflected(trace, i, id)
  {
    RunKeepsProvenance(EMPTY, hs);
    var s := Run(EMPTY, hs);
    hide Reflected;
    var i :| 0 <= i < |s.trace| && s.trace[i].Completed? && id in s.trace[i].ids;
    assert Reflected(s.trace, i, id);
  }
}
