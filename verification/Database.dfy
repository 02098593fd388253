/** The tables and the transactions that write them. Each transaction is one
    atomic step; an error rolls every table back. */
module Database {
  import opened Basics
  import Access
  import Quota
  import BatchId
  import TrafficHealth

  datatype Action = Revoke | Reconcile

  datatype QuotaRow =
    QuotaRow(periodStartedAt: Time, periodSeconds: int, limitBytes: int, usedBytes: int, blocked: bool)

  // One Telegram user across vpn_users, credential_bundles and quota_windows.
  datatype UserRow = UserRow(account: Access.AccessSnapshot, bundle: Option<nat>, quota: Option<QuotaRow>)

  datatype Settings = Settings(quotaLimitBytes: int, quotaPeriodSeconds: int, inactivityDays: nat)

  type Users = map<int, UserRow>

  // Uncompleted outbox rows are unique per (user, action), so a set of pairs
  // is the table's uncompleted part and ON CONFLICT DO NOTHING is set union.
  type Pending = set<(int, Action)>

  type BatchKey = seq<BatchId.Byte>

  datatype Tables = Tables(
    users: Users,
    health: TrafficHealth.Health,
    settings: Settings,
    tlsIssued: bool,
    outbox: Pending,
    ingested: set<BatchKey>
  )

  datatype TxError =
    | BadInput
    | NotFound
    | BadState
    | AccessRefused(reason: Access.AccessError)
    | ConfirmationRequired
    | PeriodsDiffer
    | QuotaRefused(cause: Quota.QuotaError)
    | Unavailable  // the database, not the request, is at fault

  // INSERT ... ON CONFLICT DO NOTHING, for a statement that only runs `when`.
  function Queue(outbox: Pending, when: bool, rows: Pending): Pending {
    if when then outbox + rows else outbox
  }

  predicate Qualifies(row: UserRow) {
    row.account.status == Access.Active && row.account.eligible
  }

  // ---- qualification, provisioning and management of one user ----

  datatype Decision = Eligible | Ineligible | Indeterminate

  function ApplyQualification(t: Tables, uid: int, decision: Decision): Result<Tables, TxError> {
    if uid <= 0 then Err(BadInput)
    else if decision.Indeterminate? then Ok(t)
    else
      var row := if uid in t.users then t.users[uid] else UserRow(Access.NewSnapshot(uid), None, None);
      if !Access.Restorable(row.account) then Err(BadState)
      else
        var account := Access.After(row.account, Access.SetEligibility(decision.Eligible?));
        var stopped := row.account.status == Access.Active && account.status != Access.Active;
        Ok(t.(users := t.users[uid := row.(account := account)],
              outbox := Queue(t.outbox, stopped, {(uid, Revoke)})))
  }

  datatype Issue = Claim | Approve | Rotate(resetPeriod: bool)

  function IssueOp(issue: Issue, now: Time): Access.Op {
    match issue
    case Claim => Access.Claim(now)
    case Approve => Access.Approve(now)
    case Rotate(reset) => Access.Rotate(now, reset)
  }

  predicate ResetsQuota(issue: Issue) {
    issue.Rotate? ==> issue.resetPeriod
  }

  function Provision(t: Tables, uid: int, issue: Issue, now: Time): Result<Tables, TxError> {
    if uid <= 0 || now == NO_TIME then Err(BadInput)
    else if uid !in t.users then Err(NotFound)
    else if !Access.Restorable(t.users[uid].account) then Err(BadState)
    else match Access.Apply(t.users[uid].account, IssueOp(issue, now))
      case Err(e) => Err(AccessRefused(e))
      case Ok(account) =>
        if ResetsQuota(issue) && (t.settings.quotaLimitBytes <= 0 || t.settings.quotaPeriodSeconds <= 0)
        then Err(BadState)
        else if account.generation > MAX_INT64 then Err(BadState)
        else
          var quota := if ResetsQuota(issue)
                       then Some(QuotaRow(account.periodStartedAt, t.settings.quotaPeriodSeconds,
                                          t.settings.quotaLimitBytes, 0, false))
                       else t.users[uid].quota;
          Ok(t.(users := t.users[uid := UserRow(account, Some(account.generation), quota)],
                outbox := t.outbox + {(uid, Reconcile)}))
  }

  datatype ManageOp = RevokeAccess(mode: Access.RevocationMode) | RejectApproval

  function Manage(t: Tables, uid: int, op: ManageOp): Result<Tables, TxError> {
    if uid <= 0 then Err(BadInput)
    else if op.RevokeAccess? && op.mode == Access.UnknownMode then Err(BadInput)
    else if uid !in t.users then Err(NotFound)
    else if !Access.Restorable(t.users[uid].account) then Err(BadState)
    else match Access.Apply(t.users[uid].account,
                            if op.RevokeAccess? then Access.Revoke(op.mode) else Access.RejectApproval)
      case Err(e) => Err(AccessRefused(e))
      case Ok(account) =>
        Ok(t.(users := t.users[uid := t.users[uid].(account := account)],
              outbox := Queue(t.outbox, op.RevokeAccess?, {(uid, Revoke)})))
  }

  // ---- set-based updates ----

  const DAY: int := 86_400 * SECOND

  function Relimit(row: UserRow, limit: int): UserRow {
    match row.quota
    case None => row
    case Some(q) => row.(quota := Some(q.(limitBytes := limit, blocked := q.usedBytes >= limit)))
  }

  function LimitAction(row: UserRow, limit: int, failClosed: bool): Option<Action> {
    match row.quota
    case None => None
    case Some(q) =>
      var blocked := q.usedBytes >= limit;
      if q.blocked == blocked || !Qualifies(row) || (!blocked && failClosed) then None
      else if blocked then Some(Revoke) else Some(Reconcile)
  }

  predicate IsInactive(row: UserRow, days: nat, now: Time) {
    row.account.status == Access.Active && row.account.lastActivityAt <= now - days * DAY
  }

  function UpdateSettings(t: Tables, limit: int, days: int, confirmed: bool, now: Time): Result<Tables, TxError> {
    if now == NO_TIME || limit <= 0 || days < 0 then Err(BadInput)
    else
      var removes := days > 0 && (t.settings.inactivityDays == 0 || days < t.settings.inactivityDays);
      if removes && !confirmed then Err(ConfirmationRequired)
      else
        var limited := map uid | uid in t.users :: Relimit(t.users[uid], limit);
        var queued := set uid, a | uid in t.users && a in {Revoke, Reconcile}
                                   && LimitAction(t.users[uid], limit, t.health.failClosed) == Some(a) :: (uid, a);
        var gone := set uid | uid in limited && removes && IsInactive(limited[uid], days, now);
        Ok(t.(users := map uid | uid in limited :: if uid in gone then Deactivate(limited[uid]) else limited[uid],
              settings := t.settings.(quotaLimitBytes := limit, inactivityDays := days),
              outbox := t.outbox + queued + set uid | uid in gone :: (uid, Revoke)))
  }

  function Deactivate(row: UserRow): UserRow {
    row.(account := row.account.(status := Access.SelfService))
  }

  // Periods the sweep may roll over: those that ended.
  predicate Due(row: UserRow, now: Time) {
    && row.quota.Some? && row.quota.value.periodSeconds > 0
    && row.quota.value.periodStartedAt + row.quota.value.periodSeconds * SECOND <= now
  }

  function RollOver(row: UserRow, now: Time): UserRow
    requires Due(row, now)
  {
    var q := row.quota.value;
    Quota.PeriodsBound0(now - q.periodStartedAt, q.periodSeconds * SECOND);
    Quota.MulMono(1, (now - q.periodStartedAt) / (q.periodSeconds * SECOND), q.periodSeconds * SECOND);
    row.(quota := Some(q.(periodStartedAt := Quota.SweepStart(q.periodStartedAt, q.periodSeconds * SECOND, now),
                          usedBytes := 0, blocked := false)))
  }

  // LIMIT and SKIP LOCKED let a sweep take any part of the due rows.
  function AdvanceDue(t: Tables, taken: set<int>, now: Time): Result<Tables, TxError> {
    if now == NO_TIME then Err(BadInput)
    else
      var rolled := set uid | uid in taken && uid in t.users && Due(t.users[uid], now);
      var queued := set uid | uid in rolled && t.users[uid].quota.value.blocked
                              && Qualifies(t.users[uid]) && !t.health.failClosed :: (uid, Reconcile);
      Ok(t.(users := map uid | uid in t.users :: if uid in rolled then RollOver(t.users[uid], now) else t.users[uid],
            outbox := t.outbox + queued))
  }

  // ---- traffic health ----

  function HealthActions(users: Users, action: Action): Pending {
    set uid | uid in users && Qualifies(users[uid]) && users[uid].quota.Some?
              && (action.Revoke? || !users[uid].quota.value.blocked) :: (uid, action)
  }

  function ObserveFailure(t: Tables, now: Time): Result<Tables, TxError> {
    if now == NO_TIME then Err(BadInput)
    else
      Ok(t.(health := TrafficHealth.Failed(t.health, now),
            outbox := Queue(t.outbox, TrafficHealth.Closes(t.health, now), HealthActions(t.users, Revoke))))
  }

  function ObserveRecovery(t: Tables, now: Time): Result<Tables, TxError> {
    if now == NO_TIME then Err(BadInput)
    else
      var reopens := t.health.failureStartedAt.Some? && t.health.failClosed;
      Ok(t.(health := TrafficHealth.Recovered(t.health),
            outbox := Queue(t.outbox, reopens, HealthActions(t.users, Reconcile))))
  }

  // ---- settings that reach every served user ----

  function AllQualified(users: Users): Pending {
    set uid | uid in users && Qualifies(users[uid]) :: (uid, Reconcile)
  }

  function RecordIssuance(t: Tables): Tables {
    t.(tlsIssued := true, outbox := t.outbox + AllQualified(t.users))
  }

  function UpdateCore(t: Tables): Tables {
    t.(outbox := t.outbox + AllQualified(t.users))
  }

  // ---- recording one collected batch ----

  predicate ValidSample(s: BatchId.Sample) {
    s.telegramId > 0 && s.uplink >= 0 && s.downlink >= 0 && s.uplink + s.downlink <= MAX_INT64
  }

  predicate ValidSamples(samples: seq<BatchId.Sample>) {
    && (forall i :: 0 <= i < |samples| ==> ValidSample(samples[i]))
    && (forall i, j :: 0 <= i < j < |samples| ==> samples[i].telegramId < samples[j].telegramId)
  }

  function Positive(samples: seq<BatchId.Sample>): seq<BatchId.Sample> {
    if samples == [] then []
    else
      var last := samples[|samples| - 1];
      var rest := Positive(samples[..|samples| - 1]);
      if last.uplink + last.downlink > 0 then rest + [last] else rest
  }

  lemma {:induction false} PositiveMembers(samples: seq<BatchId.Sample>)
    ensures forall s :: s in Positive(samples) <==> s in samples && s.uplink + s.downlink > 0
    decreases |samples|
  {
    if samples != [] {
      PositiveMembers(samples[..|samples| - 1]);
      assert samples == samples[..|samples| - 1] + [samples[|samples| - 1]];
    }
  }

  lemma PositiveAreValid(samples: seq<BatchId.Sample>)
    requires ValidSamples(samples)
    ensures forall i :: 0 <= i < |Positive(samples)| ==> ValidSample(Positive(samples)[i])
  {
    PositiveMembers(samples);
    forall i | 0 <= i < |Positive(samples)| ensures ValidSample(Positive(samples)[i]) {
      assert Positive(samples)[i] in samples;
    }
  }

  // What recording one positive sample does to its user's row.
  datatype RowChange = Skipped | Counted(row: UserRow, change: Quota.Change)

  function RecordRow(row: UserRow, at: Time, s: BatchId.Sample): Result<RowChange, TxError> {
    if !Qualifies(row) || row.quota.None? then Ok(Skipped)
    else
      var a, q := row.account, row.quota.value;
      if a.generation == 0 || a.periodStartedAt == NO_TIME || a.lastActivityAt == NO_TIME
         || q.periodSeconds <= 0 || q.periodSeconds > MAX_INT64 / SECOND then Err(BadState)
      else if a.periodStartedAt != q.periodStartedAt then Err(PeriodsDiffer)
      else if !Access.Restorable(a) then Err(BadState)
      else
        var w := Quota.Window(q.periodStartedAt, q.limitBytes, q.periodSeconds * SECOND, q.usedBytes);
        if !w.Valid() || w.IsBlocked() != q.blocked then Err(BadState)
        else match Quota.Account(a, w, at, s.uplink, s.downlink)
          case Err(e) => Err(QuotaRefused(e))
          case Ok(done) =>
            var w' := done.change.window;
            Ok(Counted(row.(account := a.(lastActivityAt := done.account.lastActivityAt),
                            quota := Some(q.(periodStartedAt := w'.start, usedBytes := w'.used,
                                             blocked := w'.IsBlocked()))),
                       done.change))
  }

  datatype BatchResult = BatchResult(applied: nat, revoked: seq<int>, restored: seq<int>)

  datatype Progress = Progress(users: Users, outbox: Pending, result: BatchResult)

  function RecordSample(p: Progress, at: Time, s: BatchId.Sample): Result<Progress, TxError> {
    if s.telegramId !in p.users then Ok(p)
    else match RecordRow(p.users[s.telegramId], at, s)
      case Err(e) => Err(e)
      case Ok(Skipped) => Ok(p)
      case Ok(Counted(row, change)) =>
        Ok(Progress(p.users[s.telegramId := row],
                    Queue(Queue(p.outbox, change.revoke, {(s.telegramId, Revoke)}),
                          change.restore && !change.revoke, {(s.telegramId, Reconcile)}),
                    BatchResult(p.result.applied + 1,
                                if change.revoke then p.result.revoked + [s.telegramId] else p.result.revoked,
                                if change.restore && !change.revoke then p.result.restored + [s.telegramId]
                                else p.result.restored)))
  }

  function RecordAll(p: Progress, at: Time, samples: seq<BatchId.Sample>): Result<Progress, TxError>
    decreases |samples|
  {
    if samples == [] then Ok(p)
    else match RecordSample(p, at, samples[0])
      case Err(e) => Err(e)
      case Ok(p') => RecordAll(p', at, samples[1..])
  }

  datatype Recorded = Recorded(tables: Tables, result: BatchResult)

  const NOTHING := BatchResult(0, [], [])

  function RecordBatch(t: Tables, at: Time, samples: seq<BatchId.Sample>, key: BatchKey): Result<Recorded, TxError> {
    if at == NO_TIME || !ValidSamples(samples) then Err(BadInput)
    else if Positive(samples) == [] || key in t.ingested then Ok(Recorded(t, NOTHING))
    else match RecordAll(Progress(t.users, t.outbox, NOTHING), at, Positive(samples))
      case Err(e) => Err(e)
      case Ok(p) =>
        Ok(Recorded(t.(users := p.users, outbox := p.outbox, ingested := t.ingested + {key}), p.result))
  }

  // A user's row after that user's own sample.
  function RowAfter(row: UserRow, at: Time, s: BatchId.Sample): Result<UserRow, TxError> {
    match RecordRow(row, at, s)
    case Err(e) => Err(e)
    case Ok(Skipped) => Ok(row)
    case Ok(Counted(row', _)) => Ok(row')
  }

  predicate Ascending(samples: seq<BatchId.Sample>) {
    forall i, j :: 0 <= i < j < |samples| ==> samples[i].telegramId < samples[j].telegramId
  }

  predicate Accepts(users: Users, at: Time, s: BatchId.Sample) {
    s.telegramId in users ==> RowAfter(users[s.telegramId], at, s).Ok?
  }

  lemma RecordSampleRow(p: Progress, at: Time, s: BatchId.Sample)
    ensures RecordSample(p, at, s).Ok? <==> Accepts(p.users, at, s)
    ensures RecordSample(p, at, s).Ok? ==>
              RecordSample(p, at, s).value.users
              == if s.telegramId !in p.users then p.users
                 else p.users[s.telegramId := RowAfter(p.users[s.telegramId], at, s).value]
  {
    if s.telegramId in p.users {
      var row := p.users[s.telegramId];
      match RecordRow(row, at, s) {
        case Ok(Skipped) => assert p.users[s.telegramId := row] == p.users;
        case _ =>
      }
    }
  }

  /** The loop over a batch has no cross-talk: it succeeds exactly when every
      sample is acceptable on its own user's row as it was before the batch ... */
  lemma {:induction false} BatchAcceptance(p: Progress, at: Time, samples: seq<BatchId.Sample>)
    requires Ascending(samples)
    ensures RecordAll(p, at, samples).Ok? <==> forall i :: 0 <= i < |samples| ==> Accepts(p.users, at, samples[i])
    decreases |samples|
  {
    if samples != [] {
      var first, rest := samples[0], samples[1..];
      RecordSampleRow(p, at, first);
      if Accepts(p.users, at, first) {
        var p' := RecordSample(p, at, first).value;
        BatchAcceptance(p', at, rest);
        assert forall i :: 0 <= i < |rest| ==> rest[i] == samples[i + 1] && rest[i].telegramId != first.telegramId;
        assert forall i :: 0 <= i < |rest| ==>
                 (Accepts(p'.users, at, rest[i]) <==> Accepts(p.users, at, samples[i + 1]));
        assert forall i :: 0 < i < |samples| ==> samples[i] == rest[i - 1];
      }
    }
  }

  function SampleFor(samples: seq<BatchId.Sample>, uid: int): (r: Option<BatchId.Sample>)
    ensures r.Some? ==> r.value in samples && r.value.telegramId == uid
    ensures r.None? ==> forall i :: 0 <= i < |samples| ==> samples[i].telegramId != uid
  {
    if samples == [] then None
    else if samples[0].telegramId == uid then Some(samples[0])
    else SampleFor(samples[1..], uid)
  }

  /** ... and then every user's row is that row after the user's own sample, or
      unchanged if the batch has none, whatever the rest of the batch holds. */
  lemma {:induction false} BatchIsPerUser(p: Progress, at: Time, samples: seq<BatchId.Sample>, uid: int)
    requires Ascending(samples) && RecordAll(p, at, samples).Ok?
    ensures var users' := RecordAll(p, at, samples).value.users;
            && users'.Keys == p.users.Keys
            && (uid in p.users ==>
                  match SampleFor(samples, uid)
                  case None => users'[uid] == p.users[uid]
                  case Some(s) => Ok(users'[uid]) == RowAfter(p.users[uid], at, s))
    decreases |samples|
  {
    if samples != [] {
      var first, rest := samples[0], samples[1..];
      RecordSampleRow(p, at, first);
      var p' := RecordSample(p, at, first).value;
      BatchIsPerUser(p', at, rest, uid);
      assert forall i :: 0 <= i < |rest| ==> rest[i].telegramId != first.telegramId;
      if first.telegramId == uid {
        assert SampleFor(rest, uid).None?;
      }
    }
  }
}
