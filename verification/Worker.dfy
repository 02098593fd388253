/** The worker that turns outbox rows into deployed configurations. */
module Worker {
  import opened Basics
  import Database
  import opened CoreActions

  const LEASE: int := 2 * MINUTE
  const BATCH_LIMIT: int := 1000
  const NOTICE_PERIOD: int := 30 * SECOND
  const RESTART_LIMIT: int := MINUTE

  function RetryDelay(attempts: nat): nat {
    match attempts
    case 1 => 5 * SECOND
    case 2 => 15 * SECOND
    case 3 => MINUTE
    case 4 => 5 * MINUTE
    case _ => 15 * MINUTE
  }

  datatype Memory = Memory(
    pending: seq<CoreAction>,
    noticeStartedAt: Time,
    lastPlannedRestart: Time,
    installedAt: Time,
    installedPlanned: bool
  )

  const STARTED := Memory([], NO_TIME, NO_TIME, NO_TIME, false)

  // What the worker did, in order, across its lives.
  datatype Event =
    | Claimed(at: Time, ids: seq<int>)
    | Noticed(at: Time)
    | Building(at: Time, urgent: bool)
    | Installed(at: Time, planned: bool)
    | Completed(ids: seq<int>)
    | Crashed

  datatype System = System(rows: Rows, memory: Memory, trace: seq<Event>)

  // What the calls of one step do; `deaf` are the ids whose Retry is lost.
  datatype Env = Env(claim: Outcome, build: bool, install: bool, complete: Outcome, deaf: set<int>)

  function PendingIds(pending: seq<CoreAction>): (ids: seq<int>)
    ensures |ids| == |pending| && forall i :: 0 <= i < |pending| ==> ids[i] == pending[i].id
  {
    if pending == [] then [] else PendingIds(pending[..|pending| - 1]) + [pending[|pending| - 1].id]
  }

  predicate HasKind(pending: seq<CoreAction>, action: Database.Action) {
    exists i :: 0 <= i < |pending| && pending[i].action == action
  }

  predicate Appendable(pending: seq<CoreAction>, claimed: seq<CoreAction>) {
    && (forall i :: 0 <= i < |claimed| ==> claimed[i].id > 0 && claimed[i].user > 0 && claimed[i].attempts > 0)
    && (forall i, j :: 0 <= i < |pending| && 0 <= j < |claimed| ==> pending[i].id != claimed[j].id)
    && (forall i, j :: 0 <= i < j < |claimed| ==> claimed[i].id != claimed[j].id)
  }

  function IdsOf(actions: seq<CoreAction>): set<int> {
    set i | 0 <= i < |actions| :: actions[i].id
  }

  lemma OneMoreId(actions: seq<CoreAction>, k: nat)
    requires k < |actions|
    ensures IdsOf(actions[..k + 1]) == IdsOf(actions[..k]) + {actions[k].id}
  {
    assert actions[..k + 1] == actions[..k] + [actions[k]];
  }

  // The loop's test is what makes one more claimed action appendable.
  lemma OneMoreClaimed(pending: seq<CoreAction>, claimed: seq<CoreAction>, k: nat)
    requires k < |claimed| && Appendable(pending, claimed[..k])
    ensures var a := claimed[k];
            var good := a.id > 0 && a.user > 0 && a.attempts > 0 && a.id !in IdsOf(pending) + IdsOf(claimed[..k]);
            && (good ==> Appendable(pending, claimed[..k + 1]))
            && (!good ==> !Appendable(pending, claimed))
  {
    var a := claimed[k];
    if a.id in IdsOf(pending) {
      var i :| 0 <= i < |pending| && pending[i].id == a.id;
    } else if a.id in IdsOf(claimed[..k]) {
      var i :| 0 <= i < k && claimed[..k][i].id == a.id;
      assert claimed[i].id == claimed[k].id;
    }
  }

  // ---- the step, given the rows the claim selects ----

  function CompleteOf(s: System, now: Time, outcome: Outcome): System {
    var ids := PendingIds(s.memory.pending);
    if now == NO_TIME || !UniqueIds(ids) || outcome.FailsBefore? then s
    else
      var done := s.(rows := Done(s.rows, ids), trace := s.trace + [Completed(ids)]);
      if outcome.FailsAfter? then done else done.(memory := Idle(s.memory))
  }

  function Idle(m: Memory): Memory {
    Memory([], NO_TIME, if m.installedPlanned then m.installedAt else m.lastPlannedRestart, NO_TIME, false)
  }

  function RetriedAll(rows: Rows, pending: seq<CoreAction>, now: Time, deaf: set<int>): Rows {
    if pending == [] then rows
    else
      var before := RetriedAll(rows, pending[..|pending| - 1], now, deaf);
      var a := pending[|pending| - 1];
      if a.id in deaf || a.id <= 0 then before else Postponed(before, a.id, now + RetryDelay(a.attempts))
  }

  function FailOf(s: System, now: Time, deaf: set<int>): System {
    s.(rows := RetriedAll(s.rows, s.memory.pending, now, deaf),
       memory := s.memory.(pending := [], noticeStartedAt := NO_TIME))
  }

  function DeployOf(s: System, now: Time, planned: bool, urgent: bool, env: Env): System {
    var building := s.(trace := s.trace + [Building(now, urgent)]);
    if !env.build || !env.install then FailOf(building, now, env.deaf)
    else CompleteOf(building.(trace := building.trace + [Installed(now, planned)],
                              memory := s.memory.(installedAt := now, installedPlanned := planned)),
                    now, env.complete)
  }

  function ReadyAt(m: Memory): Time {
    var afterNotice := m.noticeStartedAt + NOTICE_PERIOD;
    if m.lastPlannedRestart != NO_TIME && m.lastPlannedRestart + RESTART_LIMIT > afterNotice
    then m.lastPlannedRestart + RESTART_LIMIT else afterNotice
  }

  // With everything claimed in hand: deploy at once for a revocation, else
  // announce, wait, and deploy.
  function ActOf(s: System, now: Time, env: Env): System {
    var m := s.memory;
    if m.pending == [] then s
    else if HasKind(m.pending, Database.Revoke) then DeployOf(s, now, HasKind(m.pending, Database.Reconcile), true, env)
    else
      var told := if m.noticeStartedAt == NO_TIME
                  then s.(memory := m.(noticeStartedAt := now), trace := s.trace + [Noticed(now)]) else s;
      if now < ReadyAt(told.memory) then told else DeployOf(told, now, true, false, env)
  }

  function StepOf(s: System, now: Time, env: Env, ids: seq<int>): System
    requires forall id :: id in ids ==> id in s.rows
  {
    if now == NO_TIME then s
    else if s.memory.installedAt != NO_TIME then CompleteOf(s, now, env.complete)
    else if env.claim.FailsBefore? then s
    else
      var leased := s.(rows := Leased(s.rows, ids, now + LEASE));
      if env.claim.FailsAfter? then leased
      else
        var claimed := ActionsOf(leased.rows, ids);
        if !Appendable(s.memory.pending, claimed) then leased
        else ActOf(leased.(memory := s.memory.(pending := s.memory.pending + claimed),
                           trace := s.trace + [Claimed(now, ids)]), now, env)
  }

  // Which rows a poll can be given.
  ghost predicate Claims(s: System, now: Time, env: Env, ids: seq<int>) {
    && (forall id :: id in ids ==> id in s.rows)
    && (now != NO_TIME && s.memory.installedAt == NO_TIME && !env.claim.FailsBefore? ==>
          IsSelection(s.rows, now, BATCH_LIMIT, ids))
  }

  class Worker {
    const store: CoreActionStore
    var pending: seq<CoreAction>
    var noticeStartedAt: Time
    var lastPlannedRestart: Time
    var installedAt: Time
    var installedPlanned: bool
    ghost var trace: seq<Event>

    ghost function Value(): System
      reads this, store
    {
      System(store.rows, Memory(pending, noticeStartedAt, lastPlannedRestart, installedAt, installedPlanned), trace)
    }

    constructor (store: CoreActionStore, ghost trace: seq<Event>)
      ensures this.store == store && Value() == System(store.rows, STARTED, trace)
    {
      this.store, this.trace := store, trace;
      pending, noticeStartedAt, lastPlannedRestart := [], NO_TIME, NO_TIME;
      installedAt, installedPlanned := NO_TIME, false;
    }

    /** One poll: `StepOf` on the rows the claim selects. */
    method Step(now: Time, env: Env)
      modifies this, store
      ensures exists ids :: Claims(old(Value()), now, env, ids) && Value() == StepOf(old(Value()), now, env, ids)
      ensures store.nextId == old(store.nextId)
    {
      ghost var before := Value();
      if now == NO_TIME {
        assert Value() == StepOf(before, now, env, []);
        return;
      }
      if installedAt != NO_TIME {
        CompleteInstalled(now, env.complete);
        assert Value() == StepOf(before, now, env, []);
        return;
      }
      var claimed, ids := store.ClaimDue(now, LEASE, BATCH_LIMIT, env.claim);
      if claimed.Err? {
        assert Value() == StepOf(before, now, env, ids);
        return;
      }
      var ok := AppendClaimed(claimed.value);
      if !ok {
        assert Value() == StepOf(before, now, env, ids);
        return;
      }
      trace := trace + [Claimed(now, ids)];
      Act(now, env);
      assert Value() == StepOf(before, now, env, ids);
    }

    // Nothing is kept of a claim that holds a bad or already held action.
    method AppendClaimed(claimed: seq<CoreAction>) returns (ok: bool)
      modifies this`pending
      ensures ok <==> Appendable(old(pending), claimed)
      ensures pending == if ok then old(pending) + claimed else old(pending)
    {
      var existing: set<int> := {};
      for k := 0 to |pending|
        invariant pending == old(pending) && existing == IdsOf(pending[..k])
      {
        existing := existing + {pending[k].id};
        OneMoreId(pending, k);
      }
      assert pending[..|pending|] == pending && IdsOf(claimed[..0]) == {};
      for k := 0 to |claimed|
        invariant pending == old(pending) && existing == IdsOf(pending) + IdsOf(claimed[..k])
        invariant Appendable(pending, claimed[..k])
      {
        var a := claimed[k];
        OneMoreClaimed(pending, claimed, k);
        OneMoreId(claimed, k);
        if a.id <= 0 || a.user <= 0 || a.attempts == 0 || a.id in existing {
          return false;
        }
        existing := existing + {a.id};
      }
      assert claimed[..|claimed|] == claimed;
      pending := pending + claimed;
      ok := true;
    }

    method Act(now: Time, env: Env)
      requires now != NO_TIME
      modifies this, store
      ensures Value() == ActOf(old(Value()), now, env) && store.nextId == old(store.nextId)
    {
      if pending == [] {
        return;
      }
      var hasRevoke, hasReconcile := PendingKinds();
      if hasRevoke {
        Deploy(now, hasReconcile, true, env);
        return;
      }
      if noticeStartedAt == NO_TIME {
        noticeStartedAt := now;
        trace := trace + [Noticed(now)];
      }
      var readyAt := noticeStartedAt + NOTICE_PERIOD;
      if lastPlannedRestart != NO_TIME {
        var minimum := lastPlannedRestart + RESTART_LIMIT;
        if minimum > readyAt {
          readyAt := minimum;
        }
      }
      if now < readyAt {
        return;
      }
      Deploy(now, true, false, env);
    }

    method PendingKinds() returns (hasRevoke: bool, hasReconcile: bool)
      ensures hasRevoke == HasKind(pending, Database.Revoke) && hasReconcile == HasKind(pending, Database.Reconcile)
    {
      hasRevoke, hasReconcile := false, false;
      for k := 0 to |pending|
        invariant hasRevoke <==> exists i :: 0 <= i < k && pending[i].action == Database.Revoke
        invariant hasReconcile <==> exists i :: 0 <= i < k && pending[i].action == Database.Reconcile
      {
        match pending[k].action {
          case Revoke => hasRevoke := true;
          case Reconcile => hasReconcile := true;
        }
      }
    }

    method Deploy(now: Time, planned: bool, ghost urgent: bool, env: Env)
      requires now != NO_TIME
      modifies this, store
      ensures Value() == DeployOf(old(Value()), now, planned, urgent, env) && store.nextId == old(store.nextId)
    {
      trace := trace + [Building(now, urgent)];
      if !env.build {
        Fail(now, env.deaf);
        return;
      }
      if !env.install {
        Fail(now, env.deaf);
        return;
      }
      trace := trace + [Installed(now, planned)];
      installedAt := now;
      installedPlanned := planned;
      CompleteInstalled(now, env.complete);
    }

    method CompleteInstalled(now: Time, outcome: Outcome)
      modifies this, store
      ensures Value() == CompleteOf(old(Value()), now, outcome) && store.nextId == old(store.nextId)
    {
      var ids := PendingIds(pending);
      var ok := store.Complete(ids, now, outcome);
      if now != NO_TIME && UniqueIds(ids) && !outcome.FailsBefore? {
        trace := trace + [Completed(ids)];
      }
      if !ok {
        return;
      }
      if installedPlanned {
        lastPlannedRestart := installedAt;
      }
      pending := [];
      noticeStartedAt := NO_TIME;
      installedAt := NO_TIME;
      installedPlanned := false;
    }

    method Fail(now: Time, deaf: set<int>)
      modifies this`pending, this`noticeStartedAt, store
      ensures Value() == FailOf(old(Value()), now, deaf) && store.nextId == old(store.nextId)
    {
      ghost var rows := store.rows;
      for k := 0 to |pending|
        invariant pending == old(pending)
        invariant store.rows == RetriedAll(rows, pending[..k], now, deaf) && store.nextId == old(store.nextId)
      {
        var a := pending[k];
        assert pending[..k + 1][..k] == pending[..k];
        assert [a.id][0] == a.id;
        var _ := store.Retry(a.id, now + RetryDelay(a.attempts), if a.id in deaf then FailsBefore else Succeeds);
      }
      assert pending[..|pending|] == pending;
      pending := [];
      noticeStartedAt := NO_TIME;
    }
  }
}
