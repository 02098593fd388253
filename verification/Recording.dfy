/** Exactly when a collected batch can be recorded, on the stored values. */
module Recording {
  import opened Basics
  import Access
  import BatchId
  import opened Database
  import Drift

  // What the tables' constraints say of a user: the persisted account is one
  // that restores, and the quota row's counters and block agree.
  predicate Stored(row: UserRow) {
    && Access.Restorable(row.account) && row.account.generation <= MAX_INT64
    && (row.quota.Some? ==>
          var q := row.quota.value;
          && q.periodSeconds > 0 && 0 < q.limitBytes <= MAX_INT64 && 0 <= q.usedBytes <= MAX_INT64
          && (q.blocked <==> q.usedBytes >= q.limitBytes))
  }

  // The account and the quota are in one period, known to the batch's instant;
  // and unless the period ends first, the bytes fit.
  predicate Recordable(row: UserRow, at: Time, s: BatchId.Sample)
    requires row.quota.Some?
  {
    var q := row.quota.value;
    && q.periodSeconds <= MAX_INT64 / SECOND
    && row.account.periodStartedAt == q.periodStartedAt && row.account.lastActivityAt <= at
    && (at < q.periodStartedAt + q.periodSeconds * SECOND ==> q.usedBytes + s.uplink + s.downlink <= MAX_INT64)
  }

  /** On the row of an active user, recording traffic succeeds exactly when the
      two periods are equal, nothing later than the batch is stored, and the
      bytes fit the period the batch falls in. */
  lemma RowIsRecorded(row: UserRow, at: Time, s: BatchId.Sample)
    requires Stored(row) && Qualifies(row) && row.quota.Some?
    requires ValidSample(s) && s.uplink + s.downlink > 0
    ensures RecordRow(row, at, s).Ok? <==> Recordable(row, at, s)
  {
    var q := row.quota.value;
    if q.periodSeconds <= MAX_INT64 / SECOND {
      assert 0 < q.periodSeconds * SECOND <= MAX_INT64;
    }
  }

  // Whether the batch's sample of a user, if it counts, can be recorded.
  predicate SampleFits(users: Users, at: Time, s: BatchId.Sample) {
    (s.uplink + s.downlink > 0 && s.telegramId in users && Qualifies(users[s.telegramId])
     && users[s.telegramId].quota.Some?)
    ==> Recordable(users[s.telegramId], at, s)
  }

  // Sorted input stays sorted when the empty samples are dropped.
  lemma {:induction false} PositiveIsAscending(samples: seq<BatchId.Sample>)
    requires ValidSamples(samples)
    ensures Ascending(Positive(samples))
    decreases |samples|
  {
    if samples != [] {
      var rest := samples[..|samples| - 1];
      PositiveIsAscending(rest);
      PositiveMembers(rest);
      forall i | 0 <= i < |Positive(rest)| ensures Positive(rest)[i].telegramId < samples[|samples| - 1].telegramId {
        assert Positive(rest)[i] in rest;
      }
    }
  }

  lemma SampleIsAccepted(users: Users, at: Time, s: BatchId.Sample)
    requires forall uid :: uid in users ==> Stored(users[uid])
    requires ValidSample(s) && s.uplink + s.downlink > 0
    ensures Accepts(users, at, s) <==> SampleFits(users, at, s)
  {
    if s.telegramId in users && Qualifies(users[s.telegramId]) && users[s.telegramId].quota.Some? {
      RowIsRecorded(users[s.telegramId], at, s);
    }
  }

  /** A valid batch is recorded, or found recorded, exactly when its id is known
      or the traffic of every active user in it fits that user's stored row. */
  lemma BatchIsRecorded(t: Tables, at: Time, samples: seq<BatchId.Sample>, key: BatchKey)
    requires forall uid :: uid in t.users ==> Stored(t.users[uid])
    requires at != NO_TIME && ValidSamples(samples)
    ensures RecordBatch(t, at, samples, key).Ok?
            <==> key in t.ingested || forall i :: 0 <= i < |samples| ==> SampleFits(t.users, at, samples[i])
  {
    hide Stored, SampleFits, Accepts;
    var counted := Positive(samples);
    PositiveIsAscending(samples);
    PositiveMembers(samples);
    BatchAcceptance(Progress(t.users, t.outbox, NOTHING), at, counted);
    forall i | 0 <= i < |counted| ensures Accepts(t.users, at, counted[i]) <==> SampleFits(t.users, at, counted[i]) {
      assert counted[i] in samples;
      SampleIsAccepted(t.users, at, counted[i]);
    }
    EmptySamplesFit(t.users, at);
    forall i | 0 <= i < |samples| && samples[i].uplink + samples[i].downlink > 0 ensures samples[i] in counted {
      assert samples[i] in samples;
    }
    forall i | 0 <= i < |counted| ensures counted[i] in samples {
      assert counted[i] in counted;
    }
  }

  lemma EmptySamplesFit(users: Users, at: Time)
    ensures forall s: BatchId.Sample :: s.uplink + s.downlink <= 0 ==> SampleFits(users, at, s)
  {
  }

  // ---- the constraints are kept ----

  ghost predicate TablesStored(t: Tables) {
    && 0 < t.settings.quotaLimitBytes <= MAX_INT64 && t.settings.quotaPeriodSeconds > 0
    && forall uid :: uid in t.users ==> Stored(t.users[uid])
  }

  // The limit of a settings change is an int64.
  predicate Representable(w: Drift.Write) {
    w.ChangeSettings? ==> w.limit <= MAX_INT64
  }

  lemma RecordingKeepsStored(row: UserRow, at: Time, s: BatchId.Sample)
    requires Stored(row) && RowAfter(row, at, s).Ok?
    ensures Stored(RowAfter(row, at, s).value)
  {
  }

  lemma SweepingKeepsStored(row: UserRow, now: Time)
    requires Stored(row) && Due(row, now)
    ensures Stored(RollOver(row, now))
  {
  }

  /** The constraints the exact condition rests on hold in every reachable
      state: every transaction keeps them. */
  lemma WriteKeepsStored(t: Tables, w: Drift.Write)
    requires TablesStored(t) && Representable(w)
    ensures TablesStored(Drift.After(t, w))
  {
    match w {
      case CountTraffic(at, samples, key) =>
        if ValidSamples(samples) && Drift.After(t, w) != t {
          CountingKeepsStored(t, at, samples, key);
        }
      case SweepQuotas(taken, now) =>
        forall uid | uid in t.users && Due(t.users[uid], now) ensures Stored(RollOver(t.users[uid], now)) {
          SweepingKeepsStored(t.users[uid], now);
        }
        hide Stored, RecordBatch;
      case Provisioning(uid, issue, now) =>
        if Provision(t, uid, issue, now).Ok? {
          ProvisioningKeepsStored(t, uid, issue, now);
        }
        hide Provision, Stored;
      case Managing(uid, op) =>
        if Manage(t, uid, op).Ok? {
          ManagingKeepsStored(t, uid, op);
        }
        hide Manage, Stored;
      case _ => hide RecordBatch;
    }
  }

  lemma ProvisioningKeepsStored(t: Tables, uid: int, issue: Issue, now: Time)
    requires TablesStored(t) && Provision(t, uid, issue, now).Ok?
    ensures TablesStored(Provision(t, uid, issue, now).value)
  {
  }

  lemma ManagingKeepsStored(t: Tables, uid: int, op: ManageOp)
    requires TablesStored(t) && Manage(t, uid, op).Ok?
    ensures TablesStored(Manage(t, uid, op).value)
  {
  }

  lemma CountingKeepsStored(t: Tables, at: Time, samples: seq<BatchId.Sample>, key: BatchKey)
    requires TablesStored(t) && ValidSamples(samples) && RecordBatch(t, at, samples, key).Ok?
    ensures TablesStored(RecordBatch(t, at, samples, key).value.tables)
  {
    hide Stored;
    var t' := RecordBatch(t, at, samples, key).value.tables;
    if t'.users != t.users {
      PositiveIsAscending(samples);
      var p := Progress(t.users, t.outbox, NOTHING);
      forall uid | uid in t'.users ensures Stored(t'.users[uid]) {
        BatchIsPerUser(p, at, Positive(samples), uid);
        match SampleFor(Positive(samples), uid) {
          case None =>
          case Some(s) => RecordingKeepsStored(t.users[uid], at, s);
        }
      }
    }
  }

  // ---- what recording leaves behind ----

  /** Counted traffic makes the batch's instant the user's last activity, and
      nothing else of the account moves; so a removal for inactivity within the
      threshold of it passes the user by. */
  lemma TrafficIsActivity(row: UserRow, at: Time, s: BatchId.Sample, days: nat, now: Time)
    requires s.uplink + s.downlink > 0
    requires RecordRow(row, at, s).Ok? && RecordRow(row, at, s).value.Counted?
    ensures var row' := RecordRow(row, at, s).value.row;
            && row'.account == row.account.(lastActivityAt := at) && row'.bundle == row.bundle
            && (now < at + days * DAY ==> !IsInactive(row', days, now))
  {
  }

  predicate IsBlockedIn(users: Users, uid: int) {
    uid in users && users[uid].quota.Some? && users[uid].quota.value.blocked
  }

  // Whether a sample counts against its user's quota.
  predicate Counts(users: Users, s: BatchId.Sample) {
    s.telegramId in users && Qualifies(users[s.telegramId]) && users[s.telegramId].quota.Some?
  }

  function Counting(users: Users, samples: seq<BatchId.Sample>): nat {
    if samples == [] then 0 else (if Counts(users, samples[0]) then 1 else 0) + Counting(users, samples[1..])
  }

  // The report and the outbox rows of recording these samples.
  ghost predicate Reports(p: Progress, p': Progress, samples: seq<BatchId.Sample>) {
    && p.result.revoked <= p'.result.revoked && p.result.restored <= p'.result.restored
    && p'.result.applied == p.result.applied + Counting(p.users, samples)
    && (forall uid :: uid in p'.result.revoked[|p.result.revoked|..]
          <==> !IsBlockedIn(p.users, uid) && IsBlockedIn(p'.users, uid))
    && (forall uid :: uid in p'.result.restored[|p.result.restored|..]
          <==> IsBlockedIn(p.users, uid) && !IsBlockedIn(p'.users, uid))
    && (forall uid :: (uid, Revoke) in p'.outbox
          <==> (uid, Revoke) in p.outbox || (!IsBlockedIn(p.users, uid) && IsBlockedIn(p'.users, uid)))
    && (forall uid :: (uid, Reconcile) in p'.outbox
          <==> (uid, Reconcile) in p.outbox || (IsBlockedIn(p.users, uid) && !IsBlockedIn(p'.users, uid)))
  }

  lemma SampleReports(p: Progress, at: Time, s: BatchId.Sample)
    requires RecordSample(p, at, s).Ok?
    ensures Reports(p, RecordSample(p, at, s).value, [s])
    ensures var p' := RecordSample(p, at, s).value;
            && p'.users.Keys == p.users.Keys
            && (forall uid :: uid in p.users && uid != s.telegramId ==> p'.users[uid] == p.users[uid])
            && p.result.revoked <= p'.result.revoked <= p.result.revoked + [s.telegramId]
            && p.result.restored <= p'.result.restored <= p.result.restored + [s.telegramId]
  {
    assert Counting(p.users, [s][1..]) == 0;
    if s.telegramId in p.users && RecordRow(p.users[s.telegramId], at, s).value.Counted? {
      var Counted(row', change) := RecordRow(p.users[s.telegramId], at, s).value;
      assert Qualifies(p.users[s.telegramId]);
      assert change.revoke <==> !p.users[s.telegramId].quota.value.blocked && row'.quota.value.blocked;
      assert change.restore <==> p.users[s.telegramId].quota.value.blocked && !row'.quota.value.blocked;
      hide RecordRow;
    }
  }

  lemma CountingIgnoresOthers(users: Users, users': Users, samples: seq<BatchId.Sample>)
    requires users'.Keys == users.Keys
    requires forall i :: 0 <= i < |samples| && samples[i].telegramId in users ==>
               users'[samples[i].telegramId] == users[samples[i].telegramId]
    ensures Counting(users', samples) == Counting(users, samples)
    decreases |samples|
  {
    if samples != [] {
      CountingIgnoresOthers(users, users', samples[1..]);
    }
  }

  // The users whose block changes by the rest are not the first sample's.
  lemma ReportsCompose(p: Progress, p1: Progress, p': Progress, first: BatchId.Sample, rest: seq<BatchId.Sample>)
    requires Reports(p, p1, [first]) && Reports(p1, p', rest)
    requires Counting(p1.users, rest) == Counting(p.users, rest)
    requires p1.users.Keys == p.users.Keys && p'.users.Keys == p.users.Keys
    requires forall uid :: uid in p.users && uid != first.telegramId ==> p1.users[uid] == p.users[uid]
    requires first.telegramId in p.users ==> p'.users[first.telegramId] == p1.users[first.telegramId]
    ensures Reports(p, p', [first] + rest)
  {
    assert ([first] + rest)[1..] == rest && [first][1..] == [];
    assert Counting(p.users, [first] + rest) == Counting(p.users, [first]) + Counting(p.users, rest);
    var n, n1 := |p.result.revoked|, |p1.result.revoked|;
    assert p'.result.revoked[n..] == p1.result.revoked[n..] + p'.result.revoked[n1..];
    var m, m1 := |p.result.restored|, |p1.result.restored|;
    assert p'.result.restored[m..] == p1.result.restored[m..] + p'.result.restored[m1..];
    hide Counting;
    forall uid
      ensures IsBlockedIn(p1.users, uid) == IsBlockedIn(p.users, uid)
              || IsBlockedIn(p'.users, uid) == IsBlockedIn(p1.users, uid)
    {
    }
  }

  /** What recording a batch reports and queues is the truth about it: applied
      are the samples of active users with a quota; revoked, and given a revoke
      row, exactly the users it blocks; restored, and given a reconcile row,
      exactly those a new period unblocks. */
  lemma {:induction false} BatchReports(p: Progress, at: Time, samples: seq<BatchId.Sample>)
    requires Ascending(samples) && RecordAll(p, at, samples).Ok?
    ensures Reports(p, RecordAll(p, at, samples).value, samples)
    ensures RecordAll(p, at, samples).value.users.Keys == p.users.Keys
    decreases |samples|
  {
    if samples != [] {
      var first, rest := samples[0], samples[1..];
      var p1 := RecordSample(p, at, first).value;
      SampleReports(p, at, first);
      BatchReports(p1, at, rest);
      assert forall i :: 0 <= i < |rest| ==> rest[i] == samples[i + 1] && rest[i].telegramId != first.telegramId;
      CountingIgnoresOthers(p.users, p1.users, rest);
      BatchIsPerUser(p1, at, rest, first.telegramId);
      assert samples == [first] + rest;
      hide Reports, RecordSample, RecordRow, Counting;
      ReportsCompose(p, p1, RecordAll(p1, at, rest).value, first, rest);
    }
  }

  /** An accepted batch that is known or without traffic changes nothing and
      reports nothing; any other is ingested under its id, and its report and
      outbox rows are the truth about all its traffic. */
  lemma RecordedExactly(t: Tables, at: Time, samples: seq<BatchId.Sample>, key: BatchKey)
    requires RecordBatch(t, at, samples, key).Ok?
    ensures var r := RecordBatch(t, at, samples, key).value;
            if key in t.ingested || (forall s :: s in samples ==> s.uplink + s.downlink <= 0)
            then r == Recorded(t, NOTHING)
            else
              && r.tables == t.(users := r.tables.users, outbox := r.tables.outbox, ingested := t.ingested + {key})
              && Reports(Progress(t.users, t.outbox, NOTHING), Progress(r.tables.users, r.tables.outbox, r.result),
                         Positive(samples))
  {
    PositiveIsAscending(samples);
    PositiveMembers(samples);
    if |Positive(samples)| > 0 {
      assert Positive(samples)[0] in Positive(samples);
    }
    if key !in t.ingested && Positive(samples) != [] {
      BatchReports(Progress(t.users, t.outbox, NOTHING), at, Positive(samples));
    }
    hide Reports, RecordAll, Positive;
  }
}
