/** The configuration the core runs against the tables that define it: every
    difference is covered by an uncompleted outbox row. */
module Drift {
  import opened Basics
  import Access
  import BatchId
  import TrafficHealth
  import opened Database

  // Who ListActive serves, and with which credential generation.
  function Served(t: Tables, uid: int): Option<nat> {
    if uid in t.users
       && Qualifies(t.users[uid]) && t.users[uid].quota.Some? && !t.users[uid].quota.value.blocked
       && !t.health.failClosed && t.tlsIssued
    then t.users[uid].bundle else None
  }

  datatype Write =
    | Qualify(uid: int, decision: Decision)
    | Provisioning(uid: int, issue: Issue, now: Time)
    | Managing(uid: int, op: ManageOp)
    | ChangeSettings(limit: int, days: int, confirmed: bool, now: Time)
    | SweepQuotas(taken: set<int>, now: Time)
    | SeeFailure(now: Time)
    | SeeRecovery(now: Time)
    | CountTraffic(at: Time, samples: seq<BatchId.Sample>, key: BatchKey)
    | CertificateIssued
    | ChangeCoreSettings

  function Effect(t: Tables, w: Write): Result<Tables, TxError> {
    match w
    case Qualify(uid, decision) => ApplyQualification(t, uid, decision)
    case Provisioning(uid, issue, now) => Provision(t, uid, issue, now)
    case Managing(uid, op) => Manage(t, uid, op)
    case ChangeSettings(limit, days, confirmed, now) => UpdateSettings(t, limit, days, confirmed, now)
    case SweepQuotas(taken, now) => AdvanceDue(t, taken, now)
    case SeeFailure(now) => ObserveFailure(t, now)
    case SeeRecovery(now) => ObserveRecovery(t, now)
    case CountTraffic(at, samples, key) =>
      (match RecordBatch(t, at, samples, key) case Ok(r) => Ok(r.tables) case Err(e) => Err(e))
    case CertificateIssued => Ok(RecordIssuance(t))
    case ChangeCoreSettings => Ok(UpdateCore(t))
  }

  // A refused or rolled-back transaction leaves the tables alone.
  function After(t: Tables, w: Write): Tables {
    match Effect(t, w) case Ok(t') => t' case Err(_) => t
  }

  function AfterAll(t: Tables, writes: seq<Write>): Tables
    decreases |writes|
  {
    if writes == [] then t else AfterAll(After(t, writes[0]), writes[1..])
  }

  // The row that must carry the news of `uid`: stopping service is urgent,
  // anything else is planned.
  function NeededRow(t: Tables, uid: int): (int, Action) {
    (uid, if Served(t, uid).None? then Revoke else Reconcile)
  }

  // `t'` keeps every queued row and queues the needed row of whoever changed.
  ghost predicate Queues(t: Tables, t': Tables) {
    && t.outbox <= t'.outbox
    && forall uid :: Served(t', uid) != Served(t, uid) ==> NeededRow(t', uid) in t'.outbox
  }

  lemma SettingsQueue(t: Tables, limit: int, days: int, confirmed: bool, now: Time)
    ensures UpdateSettings(t, limit, days, confirmed, now).Ok? ==>
              Queues(t, UpdateSettings(t, limit, days, confirmed, now).value)
  {
    if UpdateSettings(t, limit, days, confirmed, now).Ok? {
      var t' := UpdateSettings(t, limit, days, confirmed, now).value;
      forall uid | Served(t', uid) != Served(t, uid) ensures NeededRow(t', uid) in t'.outbox {
        assert uid in t.users;
        var action := LimitAction(t.users[uid], limit, t.health.failClosed);
        if t'.users[uid] == Relimit(t.users[uid], limit) {
          assert action == Some(NeededRow(t', uid).1);
        } else {
          assert NeededRow(t', uid) == (uid, Revoke);
        }
      }
    }
  }

  lemma SweepQueue(t: Tables, taken: set<int>, now: Time)
    ensures AdvanceDue(t, taken, now).Ok? ==> Queues(t, AdvanceDue(t, taken, now).value)
  {
    if AdvanceDue(t, taken, now).Ok? {
      var t' := AdvanceDue(t, taken, now).value;
      forall uid | Served(t', uid) != Served(t, uid) ensures NeededRow(t', uid) in t'.outbox {
        assert uid in t.users;
      }
    }
  }

  lemma {:induction false} RecordingQueues(t: Tables, p: Progress, at: Time, samples: seq<BatchId.Sample>)
    requires RecordAll(p, at, samples).Ok?
    ensures var p' := RecordAll(p, at, samples).value;
            Queues(t.(users := p.users, outbox := p.outbox), t.(users := p'.users, outbox := p'.outbox))
    decreases |samples|
  {
    if samples != [] {
      var p1 := RecordSample(p, at, samples[0]).value;
      OneSampleQueues(t, p, at, samples[0]);
      RecordingQueues(t, p1, at, samples[1..]);
    }
  }

  lemma OneSampleQueues(t: Tables, p: Progress, at: Time, s: BatchId.Sample)
    requires RecordSample(p, at, s).Ok?
    ensures var p' := RecordSample(p, at, s).value;
            Queues(t.(users := p.users, outbox := p.outbox), t.(users := p'.users, outbox := p'.outbox))
  {
    var p' := RecordSample(p, at, s).value;
    if s.telegramId in p.users && RecordRow(p.users[s.telegramId], at, s).value.Counted? {
      var row := p.users[s.telegramId];
      var Counted(row', change) := RecordRow(row, at, s).value;
      assert p'.users == p.users[s.telegramId := row'];
      assert Qualifies(row') == Qualifies(row) && row'.bundle == row.bundle;
      var blocked := row'.quota.value.blocked;
      assert blocked != row.quota.value.blocked ==> change.revoke == blocked && change.restore == !blocked;
    }
  }

  /** Every transaction queues the needed row of every user whose served status
      or credential generation it changes, in the same commit: a user who stops
      being served gets an immediate revoke row, never only a planned one. */
  lemma {:induction false} WriteQueuesItsDrift(t: Tables, w: Write)
    ensures Queues(t, After(t, w))
  {
    match w {
      case ChangeSettings(limit, days, confirmed, now) => SettingsQueue(t, limit, days, confirmed, now);
      case SweepQuotas(taken, now) => SweepQueue(t, taken, now);
      case CountTraffic(at, samples, key) =>
        if Effect(t, w).Ok? && After(t, w) != t {
          RecordingQueues(t, Progress(t.users, t.outbox, NOTHING), at, Positive(samples));
          var t' := After(t, w);
          assert t.(users := t.users, outbox := t.outbox) == t;
          assert forall uid :: Served(t', uid) == Served(t.(users := t'.users, outbox := t'.outbox), uid);
        }
      case _ =>
    }
  }

  lemma {:induction false} WritesQueueTheirDrift(t: Tables, writes: seq<Write>)
    ensures Queues(t, AfterAll(t, writes))
    decreases |writes|
  {
    if writes != [] {
      WriteQueuesItsDrift(t, writes[0]);
      WritesQueueTheirDrift(After(t, writes[0]), writes[1..]);
    }
  }

  // ---- the running core ----

  datatype System = System(tables: Tables, installed: map<int, nat>)

  function Installed(s: System, uid: int): Option<nat> {
    if uid in s.installed then Some(s.installed[uid]) else None
  }

  function Snapshot(t: Tables): map<int, nat> {
    map uid | uid in t.users && Served(t, uid).Some? :: Served(t, uid).value
  }

  // What a deployment of the rows `held` did before the store was touched again.
  datatype Deployed = Completed | InstalledOnly | NotInstalled

  datatype Step = Transaction(write: Write) | Deploy(held: Pending, outcome: Deployed)

  function Next(s: System, step: Step): System {
    match step
    case Transaction(w) => s.(tables := After(s.tables, w))
    case Deploy(held, Completed) =>
      System(s.tables.(outbox := s.tables.outbox - held), Snapshot(s.tables))
    case Deploy(_, InstalledOnly) => s.(installed := Snapshot(s.tables))
    case Deploy(_, NotInstalled) => s
  }

  function Run(s: System, steps: seq<Step>): System
    decreases |steps|
  {
    if steps == [] then s else Run(Next(s, steps[0]), steps[1..])
  }

  ghost predicate Covered(s: System) {
    forall uid :: Installed(s, uid) != Served(s.tables, uid) ==> NeededRow(s.tables, uid) in s.tables.outbox
  }

  lemma SnapshotIsServed(t: Tables, uid: int)
    ensures Installed(System(t, Snapshot(t)), uid) == Served(t, uid)
  {
  }

  lemma {:induction false} StepStaysCovered(s: System, step: Step)
    requires Covered(s)
    ensures Covered(Next(s, step))
  {
    var s' := Next(s, step);
    match step {
      case Transaction(w) =>
        WriteQueuesItsDrift(s.tables, w);
        forall uid | Installed(s', uid) != Served(s'.tables, uid)
          ensures NeededRow(s'.tables, uid) in s'.tables.outbox
        {
          assert Installed(s', uid) == Installed(s, uid);
        }
      case Deploy(_, _) =>
        if !step.outcome.NotInstalled? {
          forall uid ensures Installed(s', uid) == Served(s'.tables, uid) {
            SnapshotIsServed(s.tables, uid);
          }
        }
    }
  }

  /** In every reachable state the outbox covers the drift, so an empty outbox
      means the core serves exactly the users the tables say it should. */
  lemma {:induction false} OutboxCoversDrift(s: System, steps: seq<Step>)
    requires Covered(s)
    ensures Covered(Run(s, steps))
    ensures Run(s, steps).tables.outbox == {} ==>
              forall uid :: Installed(Run(s, steps), uid) == Served(Run(s, steps).tables, uid)
    decreases |steps|
  {
    if steps != [] {
      StepStaysCovered(s, steps[0]);
      OutboxCoversDrift(Next(s, steps[0]), steps[1..]);
    }
  }

  // ---- a deployment that is not atomic ----

  // Build, then transactions of others, then install and complete `held`. A
  // completion that fails first and is retried later has this shape too.
  function Interleaved(s: System, held: Pending, writes: seq<Write>): System {
    var t := AfterAll(s.tables, writes);
    System(t.(outbox := t.outbox - held), Snapshot(s.tables))
  }

  /** The drift stays covered across such a deployment exactly when none of the
      completed rows is the needed row of a user changed since the build. */
  lemma {:induction false} InterleavedCoverage(s: System, held: Pending, writes: seq<Write>)
    ensures var t := AfterAll(s.tables, writes);
            Covered(Interleaved(s, held, writes))
            <==> forall uid :: Served(t, uid) != Served(s.tables, uid) ==> NeededRow(t, uid) !in held
  {
    WritesQueueTheirDrift(s.tables, writes);
    var t, s' := AfterAll(s.tables, writes), Interleaved(s, held, writes);
    forall uid
      ensures Installed(s', uid) == Served(s.tables, uid) && Served(s'.tables, uid) == Served(t, uid)
      ensures NeededRow(s'.tables, uid) == NeededRow(t, uid)
    {
      SnapshotIsServed(s.tables, uid);
    }
  }

  /** A run where it is not: the rotation between build and completion is
      absorbed by the row being completed, and the core keeps the old generation
      with nothing queued. */
  lemma RotationIsAbsorbed() returns (s: System, held: Pending, writes: seq<Write>)
    ensures Covered(s) && held <= s.tables.outbox
    ensures Interleaved(s, held, writes).tables.outbox == {}
    ensures Installed(Interleaved(s, held, writes), 1) == Some(1)
    ensures Served(Interleaved(s, held, writes).tables, 1) == Some(2)
  {
    var account := Access.AccessSnapshot(1, true, Access.Active, 1, 5, 5);
    var row := UserRow(account, Some(1), Some(QuotaRow(5, 60, 100, 0, false)));
    var t := Tables(map[1 := row], TrafficHealth.HEALTHY, Settings(100, 60, 0), true, {(1, Reconcile)}, {});
    s, held, writes := System(t, map[]), {(1, Reconcile)}, [Provisioning(1, Rotate(false), 6)];
    forall uid | Installed(s, uid) != Served(t, uid) ensures NeededRow(t, uid) in t.outbox {
      assert uid == 1;
    }
    var t' := After(t, writes[0]);
    assert t'.users[1].bundle == Some(2);
    assert t'.outbox == {(1, Reconcile)};
    assert writes[1..] == [] && AfterAll(t', []) == t';
  }
}
