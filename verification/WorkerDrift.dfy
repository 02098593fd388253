/** The worker's own runs against the tables: what it deploys, what others
    write between its polls, and what the core is left serving. */
module WorkerDrift {
  import opened Basics
  import Database
  import Drift
  import opened CoreActions
  import W = Worker
  import WorkerRuns

  // The tables' outbox is the waiting part of the worker's rows; `core` is the
  // configuration the core runs.
  datatype Joint = Joint(worker: W.System, core: Drift.System)

  datatype Event =
    // A transaction, with the enqueues it commits.
    | Written(write: Drift.Write, arrivals: seq<WorkerRuns.Happening>)
    // A poll; `landed`: an install that reports a failure has taken hold.
    | Polled(now: Time, env: W.Env, ids: seq<int>, landed: bool)
    | Crashed

  function Requested(arrivals: seq<WorkerRuns.Happening>): Database.Pending {
    set i | 0 <= i < |arrivals| && arrivals[i].Arrival? :: (arrivals[i].user, arrivals[i].action)
  }

  ghost predicate Possible(j: Joint, e: Event) {
    match e
    case Written(write, arrivals) =>
      && (forall i :: 0 <= i < |arrivals| ==> arrivals[i].Arrival?)
      && WorkerRuns.PossibleRun(j.worker, arrivals)
      && j.core.tables.outbox + Requested(arrivals) == Drift.After(j.core.tables, write).outbox
    case Polled(now, env, ids, _) => WorkerRuns.Possible(j.worker, WorkerRuns.Poll(now, env, ids))
    case Crashed => true
  }

  // Since the n-th event a build was started, and one was installed.
  predicate BuiltSince(trace: seq<W.Event>, n: nat) {
    exists i :: n <= i < |trace| && trace[i].Building?
  }

  predicate InstalledSince(trace: seq<W.Event>, n: nat) {
    exists i :: n <= i < |trace| && trace[i].Installed?
  }

  function Next(j: Joint, e: Event): Joint {
    match e
    case Written(write, arrivals) =>
      Joint(WorkerRuns.Run(j.worker, arrivals), j.core.(tables := Drift.After(j.core.tables, write)))
    case Polled(now, env, ids, landed) =>
      var worker := WorkerRuns.Next(j.worker, WorkerRuns.Poll(now, env, ids));
      var n := |j.worker.trace|;
      var t := j.core.tables;
      Joint(worker,
            Drift.System(t.(outbox := PairsOf(worker.rows)),
                         if InstalledSince(worker.trace, n) || (landed && BuiltSince(worker.trace, n))
                         then Drift.Snapshot(t) else j.core.installed))
    case Crashed => j.(worker := WorkerRuns.Next(j.worker, WorkerRuns.Crash))
  }

  // The rows that the next completion removes: those of an installed
  // configuration whose completion is still to succeed.
  function Doomed(w: W.System): Database.Pending {
    if w.memory.installedAt == NO_TIME then {} else PairsHeld(w.rows, W.PendingIds(w.memory.pending))
  }

  // Whoever the core serves differently from the tables has a row waiting that
  // no completion is about to remove.
  ghost predicate Covers(j: Joint) {
    forall uid :: Drift.Installed(j.core, uid) != Drift.Served(j.core.tables, uid) ==>
      Drift.NeededRow(j.core.tables, uid) in j.core.tables.outbox - Doomed(j.worker)
  }

  ghost predicate Linked(j: Joint) {
    WorkerRuns.Basic(j.worker) && UniquePairs(j.worker.rows) && j.core.tables.outbox == PairsOf(j.worker.rows)
  }

  // Between an installation and its completion, no write changes a user away
  // from what was installed whose needed row is about to be completed.
  ghost predicate Undisturbed(j: Joint, e: Event) {
    e.Written? ==>
      var t := Drift.After(j.core.tables, e.write);
      forall uid :: Drift.Served(t, uid) != Drift.Served(j.core.tables, uid)
                    && Drift.Served(t, uid) != Drift.Installed(j.core, uid)
                    ==> Drift.NeededRow(t, uid) !in Doomed(j.worker)
  }

  // ---- arrivals ----

  lemma {:induction false} ArrivalsAddPairs(w: W.System, arrivals: seq<WorkerRuns.Happening>)
    requires WorkerRuns.Basic(w) && UniquePairs(w.rows)
    requires (forall i :: 0 <= i < |arrivals| ==> arrivals[i].Arrival?) && WorkerRuns.PossibleRun(w, arrivals)
    ensures var w' := WorkerRuns.Run(w, arrivals);
            && WorkerRuns.Basic(w') && UniquePairs(w'.rows) && w'.memory == w.memory
            && PairsOf(w'.rows) == PairsOf(w.rows) + Requested(arrivals)
            && (forall id :: id in w.rows ==> id in w'.rows && w'.rows[id] == w.rows[id])
    decreases |arrivals|
  {
    if arrivals == [] {
      assert Requested(arrivals) == {};
    } else {
      var a := arrivals[0];
      var w1 := WorkerRuns.Next(w, a);
      WorkerRuns.NextKeepsBasic(w, a);
      WaitingIsInPairs(w.rows, a.user, a.action);
      if !Waiting(w.rows, a.user, a.action) {
        RowAddsPair(w.rows, a.id, a.user, a.action, a.at);
      }
      RequestedSplits(arrivals);
      hide UniquePairs, WorkerRuns.Basic, PairsOf, Requested;
      ArrivalsAddPairs(w1, arrivals[1..]);
    }
  }

  lemma RequestedSplits(arrivals: seq<WorkerRuns.Happening>)
    requires arrivals != [] && arrivals[0].Arrival?
    ensures Requested(arrivals) == {(arrivals[0].user, arrivals[0].action)} + Requested(arrivals[1..])
  {
    var rest, first := arrivals[1..], (arrivals[0].user, arrivals[0].action);
    forall p ensures p in Requested(arrivals) <==> p == first || p in Requested(rest) {
      if i :| 1 <= i < |arrivals| && arrivals[i].Arrival? && p == (arrivals[i].user, arrivals[i].action) {
        assert rest[i - 1] == arrivals[i];
      }
      if i :| 0 <= i < |rest| && rest[i].Arrival? && p == (rest[i].user, rest[i].action) {
        assert arrivals[i + 1] == rest[i];
      }
      assert arrivals[0].Arrival?;
    }
  }

  /** A transaction leaves the drift covered, completions to come included,
      exactly when it does not disturb an installation under way. */
  lemma WritingKeepsCover(j: Joint, write: Drift.Write, arrivals: seq<WorkerRuns.Happening>)
    requires Linked(j) && Covers(j) && Possible(j, Written(write, arrivals))
    ensures Linked(Next(j, Written(write, arrivals)))
    ensures Covers(Next(j, Written(write, arrivals))) <==> Undisturbed(j, Written(write, arrivals))
  {
    var j' := Next(j, Written(write, arrivals));
    var t, t' := j.core.tables, j'.core.tables;
    ArrivalsAddPairs(j.worker, arrivals);
    Drift.WriteQueuesItsDrift(t, write);
    assert Doomed(j'.worker) == Doomed(j.worker) by {
      HeldRowsStay(j.worker.rows, j'.worker.rows, W.PendingIds(j.worker.memory.pending)) by {
        PendingAreRows(j.worker);
      }
    }
    hide Doomed, Linked;
    forall uid | Drift.Installed(j'.core, uid) != Drift.Served(t', uid)
      ensures Drift.NeededRow(t', uid) in t'.outbox
      ensures Drift.NeededRow(t', uid) in Doomed(j'.worker) ==> Drift.Served(t', uid) != Drift.Served(t, uid)
    {
      if Drift.Served(t', uid) == Drift.Served(t, uid) {
        assert Drift.NeededRow(t, uid) in t.outbox - Doomed(j.worker);
      }
    }
  }

  lemma PendingAreRows(w: W.System)
    requires WorkerRuns.Basic(w)
    ensures forall id :: id in W.PendingIds(w.memory.pending) ==> id in w.rows
  {
  }

  lemma HeldRowsStay(rows: Rows, rows': Rows, ids: seq<int>)
    requires forall id :: id in ids ==> id in rows
    requires forall id :: id in rows ==> id in rows' && rows'[id] == rows[id]
    ensures PairsHeld(rows', ids) == PairsHeld(rows, ids)
  {
  }

  // ---- polls ----

  lemma SameWaiting(a: Rows, b: Rows)
    requires WorkerRuns.SameRows(a, b) && forall id :: id in a ==> a[id].completed == b[id].completed
    ensures PairsOf(a) == PairsOf(b) && (UniquePairs(a) ==> UniquePairs(b))
  {
    forall p ensures p in PairsOf(a) <==> p in PairsOf(b) {
      if p in PairsOf(a) {
        var id :| id in a && !a[id].completed && p == (a[id].user, a[id].action);
        assert !b[id].completed;
      }
      if p in PairsOf(b) {
        var id :| id in b && !b[id].completed && p == (b[id].user, b[id].action);
        assert !a[id].completed;
      }
    }
  }

  // What a poll did to the waiting pairs: nothing, or it completed the doomed.
  ghost predicate Settles(w: W.System, w': W.System) {
    && UniquePairs(w'.rows)
    && ((PairsOf(w'.rows) == PairsOf(w.rows) && Doomed(w') == Doomed(w))
        || (PairsOf(w'.rows) == PairsOf(w.rows) - Doomed(w) && Doomed(w') == {}))
  }

  lemma CompletionSettles(w: W.System, now: Time, outcome: Outcome)
    requires UniquePairs(w.rows) && w.memory.installedAt != NO_TIME
    ensures Settles(w, W.CompleteOf(w, now, outcome))
  {
    CompleteIsDifference(w.rows, W.PendingIds(w.memory.pending));
    hide UniquePairs, PairsOf, PairsHeld, Done;
  }

  // An installation shows in the trace; without one nothing stops waiting.
  ghost predicate BuildsOrSettles(w: W.System, w': W.System, n: nat) {
    UniquePairs(w'.rows)
    && (InstalledSince(w'.trace, n) || (PairsOf(w'.rows) == PairsOf(w.rows) && w'.memory.installedAt == NO_TIME))
  }

  lemma DeployBuildsOrSettles(w: W.System, now: Time, planned: bool, urgent: bool, env: W.Env, n: nat)
    requires UniquePairs(w.rows) && w.memory.installedAt == NO_TIME && n <= |w.trace|
    ensures BuildsOrSettles(w, W.DeployOf(w, now, planned, urgent, env), n)
  {
    if env.build && env.install {
      var installed := W.System(w.rows, w.memory.(installedAt := now, installedPlanned := planned),
                                w.trace + [W.Building(now, urgent)] + [W.Installed(now, planned)]);
      CompleteIsDifference(w.rows, W.PendingIds(w.memory.pending));
      assert installed.trace[|w.trace| + 1] == W.Installed(now, planned);
      hide UniquePairs, Done;
      var w' := W.CompleteOf(installed, now, env.complete);
      assert w'.trace[|w.trace| + 1] == W.Installed(now, planned);
    } else {
      WorkerRuns.RetriedKeepsRows(w.rows, w.memory.pending, now, env.deaf);
      SameWaiting(w.rows, W.RetriedAll(w.rows, w.memory.pending, now, env.deaf));
    }
  }

  lemma ActBuildsOrSettles(w: W.System, now: Time, env: W.Env, n: nat)
    requires UniquePairs(w.rows) && w.memory.installedAt == NO_TIME && n <= |w.trace|
    ensures BuildsOrSettles(w, W.ActOf(w, now, env), n)
  {
    hide W.DeployOf;
    DeployBuildsOrSettles(w, now, W.HasKind(w.memory.pending, Database.Reconcile), true, env, n);
    DeployBuildsOrSettles(WorkerRuns.Told(w, now), now, true, false, env, n);
  }

  lemma PollSettles(w: W.System, now: Time, env: W.Env, ids: seq<int>)
    requires WorkerRuns.Basic(w) && UniquePairs(w.rows) && WorkerRuns.Possible(w, WorkerRuns.Poll(now, env, ids))
    ensures var w' := WorkerRuns.Next(w, WorkerRuns.Poll(now, env, ids));
            UniquePairs(w'.rows) && (InstalledSince(w'.trace, |w.trace|) || Settles(w, w'))
  {
    WorkerRuns.StepCases(w, now, env, ids);
    var leased := Leased(w.rows, ids, now + W.LEASE);
    SameWaiting(w.rows, leased);
    if w.memory.installedAt != NO_TIME {
      hide UniquePairs, W.StepOf, W.CompleteOf, Leased;
      CompletionSettles(w, now, env.complete);
    } else if WorkerRuns.Acts(w, now, env, ids) {
      hide UniquePairs, W.StepOf, W.ActOf;
      ActBuildsOrSettles(WorkerRuns.Taken(w, now, ids), now, env, |w.trace|);
    } else {
      hide UniquePairs, W.StepOf, W.ActOf, Leased;
    }
  }

  lemma PollingKeepsCover(j: Joint, e: Event)
    requires Linked(j) && Covers(j) && e.Polled? && Possible(j, e)
    ensures Linked(Next(j, e)) && Covers(Next(j, e))
  {
    var j' := Next(j, e);
    var poll := WorkerRuns.Poll(e.now, e.env, e.ids);
    PollSettles(j.worker, e.now, e.env, e.ids);
    WorkerRuns.NextKeepsBasic(j.worker, poll);
    hide WorkerRuns.Next, WorkerRuns.Possible, WorkerRuns.Basic, UniquePairs, PairsOf, Doomed;
    forall uid ensures Drift.Served(j'.core.tables, uid) == Drift.Served(j.core.tables, uid) {
    }
    if j'.core.installed != j.core.installed || InstalledSince(j'.worker.trace, |j.worker.trace|) {
      forall uid ensures Drift.Installed(j'.core, uid) == Drift.Served(j.core.tables, uid) {
        Drift.SnapshotIsServed(j.core.tables, uid);
      }
    }
  }

  lemma NextKeepsCover(j: Joint, e: Event)
    requires Linked(j) && Covers(j) && Possible(j, e) && Undisturbed(j, e)
    ensures Linked(Next(j, e)) && Covers(Next(j, e))
  {
    match e {
      case Written(write, arrivals) => WritingKeepsCover(j, write, arrivals);
      case Polled(_, _, _, _) => PollingKeepsCover(j, e);
      case Crashed =>
    }
  }

  // ---- whole runs ----

  ghost predicate PossibleRun(j: Joint, events: seq<Event>)
    decreases |events|
  {
    events == [] || (Possible(j, events[0]) && PossibleRun(Next(j, events[0]), events[1..]))
  }

  ghost predicate UndisturbedRun(j: Joint, events: seq<Event>)
    decreases |events|
  {
    events == [] || (Undisturbed(j, events[0]) && UndisturbedRun(Next(j, events[0]), events[1..]))
  }

  function Run(j: Joint, events: seq<Event>): Joint
    decreases |events|
  {
    if events == [] then j else Run(Next(j, events[0]), events[1..])
  }

  /** Over every run of transactions, polls and crashes, with deployments that
      fail anywhere and completions that fail and are repeated by later polls:
      the waiting rows cover the drift, as long as no transaction between an
      installation and its completion moves a user whose needed row is about to
      be completed. When no row waits, the core serves exactly the users the
      tables say it should. */
  lemma {:induction false} WorkerRunsCoverDrift(j: Joint, events: seq<Event>)
    requires Linked(j) && Covers(j) && PossibleRun(j, events) && UndisturbedRun(j, events)
    ensures Linked(Run(j, events)) && Covers(Run(j, events))
    ensures Drift.Covered(Run(j, events).core)
    ensures PairsOf(Run(j, events).worker.rows) == {} ==>
              forall uid :: Drift.Installed(Run(j, events).core, uid) == Drift.Served(Run(j, events).core.tables, uid)
    decreases |events|
  {
    if events != [] {
      hide Linked, Covers, Next, Possible, Undisturbed, PairsOf;
      NextKeepsCover(j, events[0]);
      WorkerRunsCoverDrift(Next(j, events[0]), events[1..]);
    }
  }

  /** And the condition is exact: a completion that succeeds leaves the drift
      covered exactly when no drifted user's needed row is among those it
      completes. */
  lemma CompletionCoversExactly(j: Joint, now: Time, env: W.Env, ids: seq<int>)
    requires Linked(j) && Drift.Covered(j.core) && j.worker.memory.installedAt != NO_TIME
    requires Possible(j, Polled(now, env, ids, false)) && env.complete.Succeeds?
    ensures Drift.Covered(Next(j, Polled(now, env, ids, false)).core) <==> Covers(j)
  {
    var j' := Next(j, Polled(now, env, ids, false));
    WorkerRuns.StepCases(j.worker, now, env, ids);
    CompleteIsDifference(j.worker.rows, W.PendingIds(j.worker.memory.pending));
    UniquelyHeld(j.worker);
    hide W.StepOf, W.ActOf, UniquePairs, PairsOf, PairsHeld, WorkerRuns.Basic, Done;
    assert j'.worker == W.CompleteOf(j.worker, now, env.complete);
    assert j'.core.tables.outbox == j.core.tables.outbox - Doomed(j.worker);
    assert j'.core.installed == j.core.installed;
    forall uid
      ensures Drift.Served(j'.core.tables, uid) == Drift.Served(j.core.tables, uid)
      ensures Drift.Installed(j'.core, uid) == Drift.Installed(j.core, uid)
      ensures Drift.NeededRow(j'.core.tables, uid) == Drift.NeededRow(j.core.tables, uid)
    {
    }
  }

  lemma UniquelyHeld(w: W.System)
    requires WorkerRuns.Basic(w) && w.memory.installedAt != NO_TIME
    ensures UniqueIds(W.PendingIds(w.memory.pending))
  {
  }
}
