/** The stores: each method runs one transaction statement by statement on
    working copies and writes the tables only when it commits. */
module Store {
  import opened Basics
  import Access
  import Quota
  import BatchId
  import TrafficHealth
  import opened Database

  // The tables and the reported result after a transaction meant to have the
  // effect `tx`, given what the commit itself did.
  predicate Transacted(
      before: Tables, tx: Result<Tables, TxError>, commit: Outcome, after: Tables, error: Option<TxError>)
  {
    match tx
    case Err(e) => after == before && error == Some(e)
    case Ok(t) =>
      (match commit
       case Succeeds => after == t && error == None
       case FailsBefore => after == before && error == Some(Unavailable)
       case FailsAfter => after == t && error == Some(Unavailable))
  }

  class Store {
    var users: Users
    var health: TrafficHealth.Health
    var settings: Settings
    var tlsIssued: bool
    var outbox: Pending
    var ingested: set<BatchKey>

    function Value(): Tables
      reads this
    {
      Tables(users, health, settings, tlsIssued, outbox, ingested)
    }

    constructor (t: Tables)
      ensures Value() == t
    {
      users, health, settings := t.users, t.health, t.settings;
      tlsIssued, outbox, ingested := t.tlsIssued, t.outbox, t.ingested;
    }

    method Commit(t: Tables, commit: Outcome) returns (error: Option<TxError>)
      modifies this
      ensures Transacted(old(Value()), Ok(t), commit, Value(), error)
    {
      if commit.FailsBefore? {
        return Some(Unavailable);
      }
      users, health, settings := t.users, t.health, t.settings;
      tlsIssued, outbox, ingested := t.tlsIssued, t.outbox, t.ingested;
      error := if commit.Succeeds? then None else Some(Unavailable);
    }

    // `revoke` reports that access ended at once; a failure reports nothing.
    method ApplyQualification(uid: int, decision: Decision, commit: Outcome)
      returns (revoke: bool, error: Option<TxError>)
      modifies this
      ensures uid > 0 && decision != Indeterminate ==>
                Transacted(old(Value()), Database.ApplyQualification(old(Value()), uid, decision), commit,
                           Value(), error)
      ensures uid <= 0 ==> Value() == old(Value()) && error == Some(BadInput)
      ensures uid > 0 && decision == Indeterminate ==> Value() == old(Value()) && error == None
      ensures revoke <==> error == None && decision.Ineligible? && uid in old(users)
                          && old(users)[uid].account.status == Access.Active
    {
      if uid <= 0 {
        return false, Some(BadInput);
      }
      if decision.Indeterminate? {
        return false, None;
      }
      var t := Value();
      if uid !in t.users {
        t := t.(users := t.users[uid := UserRow(Access.NewSnapshot(uid), None, None)]);
      }
      var row := t.users[uid];
      var account := Access.AccessAccount.Restore(row.account);
      if account == null {
        return false, Some(BadState);
      }
      var stopped := account.SetEligibility(decision.Eligible?);
      row := row.(account := account.Snapshot());
      t := t.(users := t.users[uid := row]);
      assert t.users == old(users)[uid := row];
      if stopped {
        t := t.(outbox := t.outbox + {(uid, Revoke)});
      }
      error := Commit(t, commit);
      revoke := stopped && error == None;
    }

    method Provision(uid: int, issue: Issue, now: Time, commit: Outcome) returns (error: Option<TxError>)
      modifies this
      ensures Transacted(old(Value()), Database.Provision(old(Value()), uid, issue, now), commit, Value(), error)
    {
      if uid <= 0 || now == NO_TIME {
        return Some(BadInput);
      }
      var t := Value();
      if uid !in t.users {
        return Some(NotFound);
      }
      var account := Access.AccessAccount.Restore(t.users[uid].account);
      if account == null {
        return Some(BadState);
      }
      var issued;
      match issue {
        case Claim => issued := account.Claim(now);
        case Approve => issued := account.Approve(now);
        case Rotate(reset) => issued := account.Rotate(now, reset);
      }
      if issued.Err? {
        return Some(AccessRefused(issued.error));
      }
      var resetQuota := match issue case Rotate(reset) => reset case _ => true;
      if resetQuota && (settings.quotaLimitBytes <= 0 || settings.quotaPeriodSeconds <= 0) {
        return Some(BadState);
      }
      if issued.value.generation > MAX_INT64 {
        return Some(BadState);
      }
      var row := t.users[uid].(account := account.Snapshot());
      row := row.(bundle := Some(issued.value.generation));
      if resetQuota {
        var window := QuotaRow(issued.value.periodStartedAt, settings.quotaPeriodSeconds, settings.quotaLimitBytes, 0,
                               false);
        row := row.(quota := Some(window));
      }
      t := t.(users := t.users[uid := row]);
      t := t.(outbox := t.outbox + {(uid, Reconcile)});
      error := Commit(t, commit);
    }

    method Manage(uid: int, op: ManageOp, commit: Outcome) returns (error: Option<TxError>)
      modifies this
      ensures Transacted(old(Value()), Database.Manage(old(Value()), uid, op), commit, Value(), error)
    {
      if uid <= 0 || (op.RevokeAccess? && op.mode == Access.UnknownMode) {
        return Some(BadInput);
      }
      var t := Value();
      if uid !in t.users {
        return Some(NotFound);
      }
      var account := Access.AccessAccount.Restore(t.users[uid].account);
      if account == null {
        return Some(BadState);
      }
      var revoke := false;
      match op {
        case RevokeAccess(mode) =>
          var revoked := account.Revoke(mode);
          if revoked.Err? {
            return Some(AccessRefused(revoked.error));
          }
          revoke := revoked.value;
        case RejectApproval =>
          var ok := account.RejectApproval();
          if !ok {
            return Some(AccessRefused(Access.Invalid));
          }
      }
      t := t.(users := t.users[uid := t.users[uid].(account := account.Snapshot())]);
      if revoke {
        t := t.(outbox := t.outbox + {(uid, Revoke)});
      }
      error := Commit(t, commit);
    }

    method UpdateSettings(limit: int, days: int, confirmed: bool, now: Time, commit: Outcome)
      returns (error: Option<TxError>)
      modifies this
      ensures Transacted(old(Value()), Database.UpdateSettings(old(Value()), limit, days, confirmed, now), commit,
                         Value(), error)
    {
      if now == NO_TIME || limit <= 0 || days < 0 {
        return Some(BadInput);
      }
      var t := Value();
      var removes := days > 0 && (t.settings.inactivityDays == 0 || days < t.settings.inactivityDays);
      if removes && !confirmed {
        return Some(ConfirmationRequired);
      }
      t := t.(settings := t.settings.(quotaLimitBytes := limit, inactivityDays := days));
      var queued := set uid, a | uid in t.users && a in {Revoke, Reconcile}
                                 && LimitAction(t.users[uid], limit, t.health.failClosed) == Some(a) :: (uid, a);
      t := t.(users := map uid | uid in t.users :: Relimit(t.users[uid], limit), outbox := t.outbox + queued);
      var gone := set uid | uid in t.users && removes && IsInactive(t.users[uid], days, now);
      t := t.(users := map uid | uid in t.users :: if uid in gone then Deactivate(t.users[uid]) else t.users[uid],
              outbox := t.outbox + set uid | uid in gone :: (uid, Revoke));
      error := Commit(t, commit);
    }

    method AdvanceDueQuotaPeriods(taken: set<int>, now: Time, commit: Outcome) returns (error: Option<TxError>)
      modifies this
      ensures Transacted(old(Value()), AdvanceDue(old(Value()), taken, now), commit, Value(), error)
    {
      if now == NO_TIME {
        return Some(BadInput);
      }
      var t := Value();
      var due := set uid | uid in taken && uid in t.users && Due(t.users[uid], now);
      var queued := set uid | uid in due && t.users[uid].quota.value.blocked
                              && Qualifies(t.users[uid]) && !t.health.failClosed :: (uid, Reconcile);
      t := t.(users := map uid | uid in t.users :: if uid in due then RollOver(t.users[uid], now) else t.users[uid],
              outbox := t.outbox + queued);
      error := Commit(t, commit);
    }

    method ObserveFailure(now: Time, commit: Outcome) returns (error: Option<TxError>)
      modifies this
      ensures Transacted(old(Value()), Database.ObserveFailure(old(Value()), now), commit, Value(), error)
    {
      if now == NO_TIME {
        return Some(BadInput);
      }
      var t := Value();
      var wasClosed := t.health.failClosed;
      t := t.(health := TrafficHealth.Failed(t.health, now));
      if !wasClosed && t.health.failClosed {
        t := t.(outbox := t.outbox + HealthActions(t.users, Revoke));
      }
      error := Commit(t, commit);
    }

    method ObserveRecovery(now: Time, commit: Outcome) returns (error: Option<TxError>)
      modifies this
      ensures Transacted(old(Value()), Database.ObserveRecovery(old(Value()), now), commit, Value(), error)
    {
      if now == NO_TIME {
        return Some(BadInput);
      }
      var t := Value();
      if t.health.failureStartedAt.Some? {
        var wasClosed := t.health.failClosed;
        t := t.(health := TrafficHealth.HEALTHY);
        if wasClosed {
          t := t.(outbox := t.outbox + HealthActions(t.users, Reconcile));
        }
      }
      error := Commit(t, commit);
    }

    // Validates and filters outside the transaction, then records sample by
    // sample; any refused sample rolls back the batch identity with the rest.
    method RecordBatch(at: Time, samples: seq<BatchId.Sample>, key: BatchKey, commit: Outcome)
      returns (result: BatchResult, error: Option<TxError>)
      modifies this
      ensures BatchTransacted(old(Value()), Database.RecordBatch(old(Value()), at, samples, key),
                              Positive(samples) == [],
                              commit, Value(), result, error)
    {
      result := NOTHING;
      if at == NO_TIME {
        return NOTHING, Some(BadInput);
      }
      var positive := Filter(samples);
      if positive.None? {
        return NOTHING, Some(BadInput);
      }
      if positive.value == [] {
        return NOTHING, None;
      }
      var t := Value();
      if key in t.ingested {
        error := Commit(t, commit);
        return NOTHING, error;
      }
      t := t.(ingested := t.ingested + {key});
      PositiveAreValid(samples);
      var p := RecordEach(Progress(t.users, t.outbox, NOTHING), at, positive.value);
      if p.Err? {
        return NOTHING, Some(p.error);
      }
      t := t.(users := p.value.users, outbox := p.value.outbox);
      error := Commit(t, commit);
      return p.value.result, error;
    }
  }

  // A batch with nothing to count commits nothing and cannot fail.
  predicate BatchTransacted(before: Tables, tx: Result<Recorded, TxError>, nothing: bool, commit: Outcome,
                            after: Tables, result: BatchResult, error: Option<TxError>) {
    match tx
    case Err(e) => after == before && error == Some(e)
    case Ok(r) =>
      && (error == None ==> result == r.result)
      && (if nothing then after == before && error == None
          else Transacted(before, Ok(r.tables), commit, after, error))
  }

  method Filter(samples: seq<BatchId.Sample>) returns (r: Option<seq<BatchId.Sample>>)
    ensures r == if ValidSamples(samples) then Some(Positive(samples)) else None
  {
    var positive: seq<BatchId.Sample> := [];
    for k := 0 to |samples|
      invariant forall i :: 0 <= i < k ==> ValidSample(samples[i])
      invariant forall i, j :: 0 <= i < j < k ==> samples[i].telegramId < samples[j].telegramId
      invariant positive == Positive(samples[..k])
    {
      var s := samples[k];
      assert samples[..k + 1][..k] == samples[..k];
      if s.telegramId <= 0 || s.uplink < 0 || s.downlink < 0 || s.uplink > MAX_INT64 - s.downlink {
        assert !ValidSample(samples[k]);
        return None;
      }
      if k > 0 && s.telegramId <= samples[k - 1].telegramId {
        return None;
      }
      if s.uplink + s.downlink > 0 {
        positive := positive + [s];
      }
    }
    assert samples[..|samples|] == samples;
    r := Some(positive);
  }

  method RecordEach(start: Progress, at: Time, samples: seq<BatchId.Sample>) returns (r: Result<Progress, TxError>)
    requires forall i :: 0 <= i < |samples| ==> ValidSample(samples[i])
    ensures r == RecordAll(start, at, samples)
  {
    var p := start;
    for k := 0 to |samples|
      invariant RecordAll(start, at, samples) == RecordAll(p, at, samples[k..])
    {
      assert samples[k..][0] == samples[k] && samples[k..][1..] == samples[k + 1..];
      var next := RecordOne(p, at, samples[k]);
      if next.Err? {
        return next;
      }
      p := next.value;
    }
    r := Ok(p);
  }

  // The body of the loop: lock the rows, account, persist, queue.
  method RecordOne(p: Progress, at: Time, s: BatchId.Sample) returns (r: Result<Progress, TxError>)
    requires ValidSample(s)
    ensures r == RecordSample(p, at, s)
  {
    if s.telegramId !in p.users || !Qualifies(p.users[s.telegramId]) || p.users[s.telegramId].quota.None? {
      return Ok(p);
    }
    var row := p.users[s.telegramId];
    var a, q := row.account, row.quota.value;
    if a.generation == 0 || a.periodStartedAt == NO_TIME || a.lastActivityAt == NO_TIME
       || q.periodSeconds <= 0 || q.periodSeconds > MAX_INT64 / SECOND {
      return Err(BadState);
    }
    if a.periodStartedAt != q.periodStartedAt {
      return Err(PeriodsDiffer);
    }
    var account := Access.AccessAccount.Restore(a);
    if account == null {
      return Err(BadState);
    }
    if q.limitBytes > MAX_INT64 || q.usedBytes > MAX_INT64 {
      return Err(BadState);  // not a BIGINT
    }
    var quota := Quota.QuotaWindow.Restore(q.periodStartedAt, q.limitBytes, q.periodSeconds * SECOND, q.usedBytes);
    if quota == null {
      return Err(BadState);
    }
    ghost var w := quota.Value();
    Quota.SmallQuotient(0, w.period);
    var before := quota.Advance(a.periodStartedAt);
    if before.Err? || before.value.IsBlocked() != q.blocked {
      return Err(BadState);
    }
    assert quota.Value() == w;
    var change := Quota.RecordAccountTraffic(account, quota, at, s.uplink, s.downlink);
    if change.Err? {
      return Err(QuotaRefused(change.error));
    }
    var w' := change.value.window;
    row := row.(account := a.(lastActivityAt := account.lastActivityAt));
    row := row.(quota := Some(q.(periodStartedAt := w'.start, usedBytes := w'.used, blocked := w'.IsBlocked())));
    var outbox, result := p.outbox, p.result;
    if change.value.revoke {
      outbox := outbox + {(s.telegramId, Revoke)};
      result := result.(revoked := result.revoked + [s.telegramId]);
    } else if change.value.restore {
      outbox := outbox + {(s.telegramId, Reconcile)};
      result := result.(restored := result.restored + [s.telegramId]);
    }
    return Ok(Progress(p.users[s.telegramId := row], outbox, result.(applied := result.applied + 1)));
  }
}
