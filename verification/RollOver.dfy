/** What separates the quota period from the account period, and what that does
    to traffic recording. The roll-overs move the quota period only, and
    recording insists that it equals the account period. */
module RollOver {
  import opened Basics
  import Quota
  import BatchId
  import opened Database
  import opened Recording
  import Drift

  // The quota period has left the account period behind.
  predicate Stale(t: Tables, uid: int) {
    && uid in t.users && t.users[uid].quota.Some?
    && t.users[uid].account.periodStartedAt < t.users[uid].quota.value.periodStartedAt
  }

  // Traffic of instant `at` cannot be recorded: the periods differ, or both
  // begin after it.
  predicate Behind(t: Tables, uid: int, at: Time) {
    Stale(t, uid) || (uid in t.users && t.users[uid].quota.Some? && at < t.users[uid].account.periodStartedAt)
  }

  // A restart of the user's period that takes effect by the instant.
  predicate RestartsBy(w: Drift.Write, uid: int, at: Time) {
    w.Provisioning? && w.uid == uid && ResetsQuota(w.issue) && w.now <= at
  }

  predicate Carries(samples: seq<BatchId.Sample>, uid: int) {
    exists i :: 0 <= i < |samples| && samples[i].telegramId == uid && samples[i].uplink + samples[i].downlink > 0
  }

  /** A batch with traffic of an active user its instant is behind is refused as
      a whole. */
  lemma {:induction false} BehindRefusesBatch(
      t: Tables, uid: int, at: Time, samples: seq<BatchId.Sample>, key: BatchKey)
    requires Behind(t, uid, at) && Qualifies(t.users[uid]) && key !in t.ingested && Carries(samples, uid)
    ensures RecordBatch(t, at, samples, key).Err?
  {
    if at != NO_TIME && ValidSamples(samples) {
      var i :| 0 <= i < |samples| && samples[i].telegramId == uid && samples[i].uplink + samples[i].downlink > 0;
      PositiveIsAscending(samples);
      PositiveMembers(samples);
      assert samples[i] in Positive(samples);
      assert !Accepts(t.users, at, samples[i]);
      BatchAcceptance(Progress(t.users, t.outbox, NOTHING), at, Positive(samples));
    }
  }

  /** The user stays behind through every transaction but a restart of the
      period at or before the instant. */
  lemma {:induction false} StaysBehind(t: Tables, uid: int, at: Time, w: Drift.Write)
    requires Behind(t, uid, at) && !RestartsBy(w, uid, at)
    ensures Behind(Drift.After(t, w), uid, at)
  {
    match w {
      case CountTraffic(seen, samples, key) =>
        if ValidSamples(samples) && Drift.After(t, w) != t {
          CountingStaysBehind(t, uid, at, seen, samples, key);
        }
      case SweepQuotas(taken, now) =>
        if now != NO_TIME && Due(t.users[uid], now) {
          var q := t.users[uid].quota.value;
          Quota.PeriodsBound0(now - q.periodStartedAt, q.periodSeconds * SECOND);
          Quota.MulMono(0, (now - q.periodStartedAt) / (q.periodSeconds * SECOND), q.periodSeconds * SECOND);
        }
      case _ => hide RecordBatch;
    }
  }

  lemma CountingStaysBehind(
      t: Tables, uid: int, at: Time, seen: Time, samples: seq<BatchId.Sample>, key: BatchKey)
    requires Behind(t, uid, at) && ValidSamples(samples) && RecordBatch(t, seen, samples, key).Ok?
    ensures Behind(RecordBatch(t, seen, samples, key).value.tables, uid, at)
  {
    if RecordBatch(t, seen, samples, key).value.tables != t {
      PositiveIsAscending(samples);
      BatchIsPerUser(Progress(t.users, t.outbox, NOTHING), seen, Positive(samples), uid);
      match SampleFor(Positive(samples), uid) {
        case None =>
        case Some(s) => CountingMovesOn(t.users[uid], seen, s);
      }
      hide RowAfter, RecordAll, Positive, SampleFor;
    }
  }

  // Recording leaves the account's period alone and moves the quota's on.
  lemma CountingMovesOn(row: UserRow, at: Time, s: BatchId.Sample)
    requires RowAfter(row, at, s).Ok?
    ensures var row' := RowAfter(row, at, s).value;
            && row'.account.periodStartedAt == row.account.periodStartedAt
            && (row.quota.Some? ==>
                  row'.quota.Some? && row'.quota.value.periodStartedAt >= row.quota.value.periodStartedAt)
  {
  }

  lemma {:induction false} StaysBehindThrough(t: Tables, uid: int, at: Time, writes: seq<Drift.Write>)
    requires Behind(t, uid, at) && forall i :: 0 <= i < |writes| ==> !RestartsBy(writes[i], uid, at)
    ensures Behind(Drift.AfterAll(t, writes), uid, at)
    decreases |writes|
  {
    hide Behind;
    if writes != [] {
      StaysBehind(t, uid, at, writes[0]);
      StaysBehindThrough(Drift.After(t, writes[0]), uid, at, writes[1..]);
    }
  }

  /** What puts a user behind: the sweep of a period that ended ... */
  lemma {:induction false} SweepMakesStale(t: Tables, uid: int, taken: set<int>, now: Time)
    requires uid in taken && uid in t.users && Due(t.users[uid], now)
    requires t.users[uid].account.periodStartedAt <= t.users[uid].quota.value.periodStartedAt
    ensures Stale(Drift.After(t, Drift.SweepQuotas(taken, now)), uid)
  {
    var q := t.users[uid].quota.value;
    Quota.PeriodsBound0(now - q.periodStartedAt, q.periodSeconds * SECOND);
    Quota.PositiveQuotient(now - q.periodStartedAt, q.periodSeconds * SECOND);
    Quota.MulMono(1, (now - q.periodStartedAt) / (q.periodSeconds * SECOND), q.periodSeconds * SECOND);
  }

  /** ... the first traffic recorded after it ... */
  lemma {:induction false} RecordingMakesStale(row: UserRow, at: Time, s: BatchId.Sample)
    requires row.quota.Some? && Due(row, at)
    ensures var recorded := RecordRow(row, at, s);
            recorded.Ok? && recorded.value.Counted? ==>
              var row' := recorded.value.row;
              row'.quota.Some? && row'.account.periodStartedAt < row'.quota.value.periodStartedAt
  {
    var recorded := RecordRow(row, at, s);
    if recorded.Ok? && recorded.value.Counted? {
      var q := row.quota.value;
      var elapsed := Quota.Elapsed(at, q.periodStartedAt);
      Quota.PositiveQuotient(elapsed, q.periodSeconds * SECOND);
      Quota.MulMono(1, elapsed / (q.periodSeconds * SECOND), q.periodSeconds * SECOND);
    }
  }

  /** ... and a restart of the period itself, for what was collected before it.
      What is collected from the restart on can be recorded again. */
  lemma RestartDecides(t: Tables, uid: int, issue: Issue, now: Time, at: Time, s: BatchId.Sample)
    requires TablesStored(t) && t.settings.quotaPeriodSeconds <= MAX_INT64 / SECOND
    requires ResetsQuota(issue) && Provision(t, uid, issue, now).Ok?
    requires ValidSample(s) && s.uplink + s.downlink > 0
    ensures var t' := Drift.After(t, Drift.Provisioning(uid, issue, now));
            && (Behind(t', uid, at) <==> at < now)
            && (RecordRow(t'.users[uid], at, s).Ok? <==> now <= at)
  {
    var w := Drift.Provisioning(uid, issue, now);
    WriteKeepsStored(t, w);
    RowIsRecorded(Drift.After(t, w).users[uid], at, s);
  }

  /** So after a user's period has once rolled over, traffic of an instant is
      refused for good, until the period is restarted at or before it. */
  lemma {:induction false} RollOverEndsRecording(
      t: Tables, uid: int, taken: set<int>, now: Time, writes: seq<Drift.Write>,
      at: Time, samples: seq<BatchId.Sample>, key: BatchKey)
    requires uid in taken && uid in t.users && Due(t.users[uid], now)
    requires t.users[uid].account.periodStartedAt <= t.users[uid].quota.value.periodStartedAt
    requires forall i :: 0 <= i < |writes| ==> !RestartsBy(writes[i], uid, at)
    requires Carries(samples, uid)
    ensures Behind(Drift.AfterAll(Drift.After(t, Drift.SweepQuotas(taken, now)), writes), uid, at)
    ensures var t' := Drift.AfterAll(Drift.After(t, Drift.SweepQuotas(taken, now)), writes);
            Qualifies(t'.users[uid]) && key !in t'.ingested ==> RecordBatch(t', at, samples, key).Err?
  {
    var swept := Drift.After(t, Drift.SweepQuotas(taken, now));
    SweepMakesStale(t, uid, taken, now);
    StaysBehindThrough(swept, uid, at, writes);
    var t' := Drift.AfterAll(swept, writes);
    if Qualifies(t'.users[uid]) && key !in t'.ingested {
      BehindRefusesBatch(t', uid, at, samples, key);
    }
  }
}
