/** What the set-based transactions do to one user. */
module BulkUpdates {
  import opened Basics
  import Access
  import Quota
  import opened Database

  // A settings change removes the users inactive for that long.
  predicate Removes(t: Tables, row: UserRow, days: int, now: Time)
    requires days >= 0
  {
    && days > 0 && (t.settings.inactivityDays == 0 || days < t.settings.inactivityDays)
    && row.account.status == Access.Active && row.account.lastActivityAt + days * DAY <= now
  }

  /** A new limit blocks exactly who has used it up and leaves usage and period
      alone; a shorter inactivity threshold returns exactly the long inactive to
      self-service. Those newly blocked or removed get a revoke row, those newly
      unblocked a reconcile row unless the service is closed, nobody else any. */
  lemma SettingsPerUser(t: Tables, limit: int, days: int, confirmed: bool, now: Time, uid: int)
    requires UpdateSettings(t, limit, days, confirmed, now).Ok? && uid in t.users
    ensures var t', row := UpdateSettings(t, limit, days, confirmed, now).value, t.users[uid];
            && t'.users.Keys == t.users.Keys && t.outbox <= t'.outbox
            && var row' := t'.users[uid];
               && row'.bundle == row.bundle
               && row'.account == row.account.(status := if Removes(t, row, days, now) then Access.SelfService
                                                         else row.account.status)
               && (row'.quota.Some? <==> row.quota.Some?)
               && (row.quota.Some? ==>
                     row'.quota.value == row.quota.value.(limitBytes := limit,
                                                          blocked := row.quota.value.usedBytes >= limit))
               && var changes := row.quota.Some? && row.quota.value.blocked != row'.quota.value.blocked;
                  && ((uid, Revoke) in t'.outbox
                      <==> (uid, Revoke) in t.outbox || Removes(t, row, days, now)
                           || (changes && row'.quota.value.blocked && Qualifies(row)))
                  && ((uid, Reconcile) in t'.outbox
                      <==> (uid, Reconcile) in t.outbox
                           || (changes && row.quota.value.blocked && Qualifies(row) && !t.health.failClosed))
  {
  }

  /** The sweep moves the periods that ended, and only of the users it takes, a
      whole number of periods on to the one the clock is in, with nothing used
      and nothing blocked; who was blocked and is active gets a reconcile row
      unless the service is closed, nobody else any. */
  lemma SweepPerUser(t: Tables, taken: set<int>, now: Time, uid: int)
    requires now != NO_TIME && uid in t.users
    ensures var t', row := AdvanceDue(t, taken, now).value, t.users[uid];
            && t'.users.Keys == t.users.Keys
            && ((uid, Revoke) in t'.outbox <==> (uid, Revoke) in t.outbox)
            && ((uid, Reconcile) in t'.outbox
                <==> (uid, Reconcile) in t.outbox
                     || (uid in taken && Due(row, now) && row.quota.value.blocked && Qualifies(row)
                         && !t.health.failClosed))
            && if uid !in taken || !Due(row, now) then t'.users[uid] == row
               else
                 var q, row' := row.quota.value, t'.users[uid];
                 && row'.account == row.account && row'.bundle == row.bundle && row'.quota.Some?
                 && var q' := row'.quota.value;
                    && q'.periodSeconds == q.periodSeconds && q'.limitBytes == q.limitBytes
                    && q'.usedBytes == 0 && !q'.blocked
                    && q'.periodStartedAt <= now < q'.periodStartedAt + q.periodSeconds * SECOND
                    && exists k: nat :: q'.periodStartedAt == q.periodStartedAt + k * (q.periodSeconds * SECOND)
  {
    var row := t.users[uid];
    if uid in taken && Due(row, now) {
      var q := row.quota.value;
      var period := q.periodSeconds * SECOND;
      Quota.PeriodsBound0(now - q.periodStartedAt, period);
      Quota.PositiveQuotient(now - q.periodStartedAt, period);
      var k: nat := (now - q.periodStartedAt) / period;
      assert AdvanceDue(t, taken, now).value.users[uid].quota.value.periodStartedAt == q.periodStartedAt + k * period;
    }
  }

  /** A settings change is accepted exactly when its values make sense and, if
      it removes the inactive, it was confirmed; then the new limit and
      threshold are stored and nothing else of the settings moves. */
  lemma SettingsAreStored(t: Tables, limit: int, days: int, confirmed: bool, now: Time)
    ensures UpdateSettings(t, limit, days, confirmed, now).Ok?
            <==> now != NO_TIME && limit > 0 && days >= 0
                 && (days > 0 && (t.settings.inactivityDays == 0 || days < t.settings.inactivityDays) ==> confirmed)
    ensures UpdateSettings(t, limit, days, confirmed, now).Ok? ==>
              var t' := UpdateSettings(t, limit, days, confirmed, now).value;
              && t'.settings.quotaLimitBytes == limit && t'.settings.inactivityDays == days
              && t'.settings.quotaPeriodSeconds == t.settings.quotaPeriodSeconds
              && t'.health == t.health && t'.tlsIssued == t.tlsIssued && t'.ingested == t.ingested
  {
  }

  // An active user with a quota.
  predicate HasService(t: Tables, uid: int) {
    uid in t.users && Qualifies(t.users[uid]) && t.users[uid].quota.Some?
  }

  /** What an observation queues: the one that closes the service a revoke row
      for exactly the active users with a quota, the recovery that opens it a
      reconcile row for exactly those of them not blocked, any other nothing.
      No user row moves. */
  lemma ObservationsPerUser(t: Tables, now: Time, uid: int, action: Action)
    requires now != NO_TIME
    ensures var t' := ObserveFailure(t, now).value;
            && t' == t.(health := t'.health, outbox := t'.outbox)
            && ((uid, action) in t'.outbox
                <==> (uid, action) in t.outbox
                     || (action == Revoke && HasService(t, uid) && !t.health.failClosed && t'.health.failClosed))
    ensures var t' := ObserveRecovery(t, now).value;
            && t' == t.(health := t'.health, outbox := t'.outbox)
            && ((uid, action) in t'.outbox
                <==> (uid, action) in t.outbox
                     || (action == Reconcile && HasService(t, uid) && !t.users[uid].quota.value.blocked
                         && t.health.failureStartedAt.Some? && t.health.failClosed))
  {
  }

  /** A new certificate and a change of the core's settings queue a reconcile row
      for exactly the active users. */
  lemma CoreChangesPerUser(t: Tables, uid: int, action: Action)
    ensures (uid, action) in RecordIssuance(t).outbox
            <==> (uid, action) in t.outbox || (action == Reconcile && uid in t.users && Qualifies(t.users[uid]))
    ensures UpdateCore(t).outbox == RecordIssuance(t).outbox
    ensures RecordIssuance(t) == t.(tlsIssued := true, outbox := RecordIssuance(t).outbox)
    ensures UpdateCore(t) == t.(outbox := UpdateCore(t).outbox)
  {
  }
}
