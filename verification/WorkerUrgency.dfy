/** When the worker deploys: a revocation in the poll that holds it, planned
    work in the first poll past its deadlines; and how failures wait. */
module WorkerUrgency {
  import opened Basics
  import Database
  import opened CoreActions
  import opened Worker
  import opened WorkerRuns

  // ---- what one poll logs ----

  // The events a poll added.
  function Added(s: System, s': System): seq<Event>
    requires s.trace <= s'.trace
  {
    s'.trace[|s.trace|..]
  }

  predicate Builds(events: seq<Event>, now: Time, urgent: bool) {
    exists i :: 0 <= i < |events| && events[i] == Building(now, urgent)
  }

  predicate Installs(events: seq<Event>, now: Time, planned: bool) {
    exists i :: 0 <= i < |events| && events[i] == Installed(now, planned)
  }

  // Past the notice, given now if not before, and past the restart limit.
  predicate DeadlinesPassed(m: Memory, now: Time) {
    && now >= (if m.noticeStartedAt == NO_TIME then now else m.noticeStartedAt) + NOTICE_PERIOD
    && (m.lastPlannedRestart != NO_TIME ==> now >= m.lastPlannedRestart + RESTART_LIMIT)
  }

  // What a deployment logs.
  function DeploymentLog(now: Time, planned: bool, urgent: bool, env: Env, ids: seq<int>): seq<Event> {
    [Building(now, urgent)]
    + if !env.build || !env.install then []
      else [Installed(now, planned)] + if env.complete.FailsBefore? then [] else [Completed(ids)]
  }

  lemma DeployLogs(s: System, now: Time, planned: bool, urgent: bool, env: Env)
    requires now != NO_TIME && UniqueIds(PendingIds(s.memory.pending)) && s.memory.installedAt == NO_TIME
    ensures var s', ids := DeployOf(s, now, planned, urgent, env), PendingIds(s.memory.pending);
            && s'.trace == s.trace + DeploymentLog(now, planned, urgent, env, ids)
            && (s'.memory.installedAt == NO_TIME <==> !env.build || !env.install || env.complete.Succeeds?)
            && (s'.memory.installedAt == NO_TIME ==> s'.memory.pending == [] && s'.memory.noticeStartedAt == NO_TIME)
            && (env.build && env.install && !env.complete.FailsBefore? ==> s'.rows == Done(s.rows, ids))
  {
    hide Done, RetriedAll;
  }

  lemma HeldAreUnique(s: System)
    requires Basic(s) && s.memory.pending != []
    ensures UniqueIds(PendingIds(s.memory.pending))
  {
  }

  // With everything claimed in hand.
  lemma ActsAccordingly(s: System, now: Time, env: Env)
    requires Basic(s) && s.memory.installedAt == NO_TIME && now != NO_TIME
    ensures var s', m := ActOf(s, now, env), s.memory;
            s.trace <= s'.trace
            && var events, ids := Added(s, s'), PendingIds(m.pending);
               if HasKind(m.pending, Database.Revoke) then
                 && events == DeploymentLog(now, HasKind(m.pending, Database.Reconcile), true, env, ids)
               else if m.pending == [] then events == []
               else
                 var notice := if m.noticeStartedAt == NO_TIME then [Noticed(now)] else [];
                 events == notice + if DeadlinesPassed(m, now) then DeploymentLog(now, true, false, env, ids) else []
    ensures var s' := ActOf(s, now, env);
            s'.memory.installedAt == NO_TIME ==> !HasKind(s'.memory.pending, Database.Revoke)
  {
    if s.memory.pending != [] {
      HeldAreUnique(s);
      DeployLogs(s, now, HasKind(s.memory.pending, Database.Reconcile), true, env);
      DeployLogs(Told(s, now), now, true, false, env);
      hide DeployOf, DeploymentLog, PendingIds;
    }
  }

  // With these rows held at `now`, the events of the poll show a build for a
  // revocation exactly if one is held, a planned build exactly if only planned
  // work is and both deadlines have passed, and an installation that is planned
  // exactly if planned work is held.
  ghost predicate BuildsAsDue(events: seq<Event>, m: Memory, now: Time, env: Env) {
    && (Builds(events, now, true) <==> HasKind(m.pending, Database.Revoke))
    && (Builds(events, now, false)
        <==> m.pending != [] && !HasKind(m.pending, Database.Revoke) && DeadlinesPassed(m, now))
    && (forall planned :: Installs(events, now, planned)
          <==> env.build && env.install
               && ((Builds(events, now, true) && planned == HasKind(m.pending, Database.Reconcile))
                   || (Builds(events, now, false) && planned)))
  }

  /** In every poll that holds a revocation, kept or just claimed, the worker
      builds for it in that same poll, and an installation counts as planned
      exactly when planned work is held too. A poll that holds planned work only
      builds exactly when both deadlines have passed; one that holds nothing, or
      whose claim fails, builds nothing. */
  lemma PollBuildsExactly(s: System, now: Time, env: Env, ids: seq<int>)
    requires Basic(s) && Possible(s, Poll(now, env, ids)) && s.memory.installedAt == NO_TIME
    ensures s.trace <= Next(s, Poll(now, env, ids)).trace
    ensures var events := Added(s, Next(s, Poll(now, env, ids)));
            if Acts(s, now, env, ids) then BuildsAsDue(events, Taken(s, now, ids).memory, now, env) else events == []
  {
    hide StepOf, ActOf, BuildsAsDue, Leased, DeploymentLog, HasKind, DeadlinesPassed;
    StepCases(s, now, env, ids);
    if Acts(s, now, env, ids) {
      TakenKeepsBasic(s, now, env, ids);
      var s', t := Next(s, Poll(now, env, ids)), Taken(s, now, ids);
      ClaimIsLogged(s, now, ids);
      hide Taken, Acts, Basic, Appendable, Added;
      ActsAccordingly(t, now, env);
      AddedThrough(s, t, s', Claimed(now, ids));
      LogShows(t.memory, now, env, ids, Added(t, s'));
    }
  }

  lemma ClaimIsLogged(s: System, now: Time, ids: seq<int>)
    requires forall id :: id in ids ==> id in s.rows
    ensures Taken(s, now, ids).trace == s.trace + [Claimed(now, ids)]
    ensures Taken(s, now, ids).memory.installedAt == s.memory.installedAt
  {
    hide Leased;
  }

  lemma AddedThrough(s: System, t: System, s': System, e: Event)
    requires t.trace == s.trace + [e] && t.trace <= s'.trace
    ensures s.trace <= s'.trace && Added(s, s') == [e] + Added(t, s')
  {
  }

  // What the events of a poll that acted contain.
  lemma LogShows(m: Memory, now: Time, env: Env, ids: seq<int>, acted: seq<Event>)
    requires if HasKind(m.pending, Database.Revoke) then
               acted == DeploymentLog(now, HasKind(m.pending, Database.Reconcile), true, env, PendingIds(m.pending))
             else if m.pending == [] then acted == []
             else
               var notice := if m.noticeStartedAt == NO_TIME then [Noticed(now)] else [];
               acted == notice + if DeadlinesPassed(m, now)
                                 then DeploymentLog(now, true, false, env, PendingIds(m.pending)) else []
    ensures BuildsAsDue([Claimed(now, ids)] + acted, m, now, env)
  {
    var events := [Claimed(now, ids)] + acted;
    var urgent := HasKind(m.pending, Database.Revoke);
    var planned := !urgent || HasKind(m.pending, Database.Reconcile);
    var k := if urgent || m.pending == [] || m.noticeStartedAt != NO_TIME then 1 else 2;
    if urgent || (m.pending != [] && DeadlinesPassed(m, now)) {
      assert events[k] == Building(now, urgent);
      if env.build && env.install {
        assert events[k + 1] == Installed(now, planned);
      }
    }
  }

  /** A poll that acts without building keeps everything it holds, announces
      planned work once, and only leases what it claimed. */
  lemma WaitingKeepsAll(s: System, now: Time, env: Env, ids: seq<int>)
    requires Basic(s) && Possible(s, Poll(now, env, ids)) && Acts(s, now, env, ids)
    requires var m := Taken(s, now, ids).memory;
             m.pending == [] || (!HasKind(m.pending, Database.Revoke) && !DeadlinesPassed(m, now))
    ensures var s', t := Next(s, Poll(now, env, ids)), Taken(s, now, ids);
            && s'.rows == t.rows
            && s'.memory
               == (if t.memory.pending != [] && t.memory.noticeStartedAt == NO_TIME
                   then t.memory.(noticeStartedAt := now) else t.memory)
  {
    StepCases(s, now, env, ids);
    hide StepOf, DeployOf, Taken, Acts, Basic;
  }

  /** After an installation whose completion is still to succeed a poll neither
      claims nor builds: it repeats the completion, and nothing else. */
  lemma PollCompletesInstalled(s: System, now: Time, env: Env, ids: seq<int>)
    requires Basic(s) && Possible(s, Poll(now, env, ids)) && s.memory.installedAt != NO_TIME
    ensures var s', held := Next(s, Poll(now, env, ids)), PendingIds(s.memory.pending);
            && s'.trace == s.trace + (if env.complete.FailsBefore? then [] else [Completed(held)])
            && s'.rows == (if env.complete.FailsBefore? then s.rows else Done(s.rows, held))
            && if env.complete.Succeeds? then
                 && s'.memory.pending == [] && s'.memory.installedAt == NO_TIME && s'.memory.noticeStartedAt == NO_TIME
                 && s'.memory.lastPlannedRestart
                    == (if s.memory.installedPlanned then s.memory.installedAt else s.memory.lastPlannedRestart)
               else s'.memory == s.memory
  {
    HeldAreUnique(s);
    StepCases(s, now, env, ids);
    hide StepOf, Done;
  }

  /** What a poll claims cannot be claimed again for exactly two minutes. */
  lemma LeaseLasts(s: System, now: Time, ids: seq<int>, id: int, later: Time)
    requires Basic(s) && id in ids && (forall x :: x in ids ==> x in s.rows) && !s.rows[id].completed
    ensures Due(Taken(s, now, ids).rows, id, later) <==> later >= now + 120 * SECOND
  {
  }

  // ---- over runs ----

  // No revocation waits in memory for anything but a completion.
  predicate Prompt(s: System) {
    s.memory.installedAt == NO_TIME ==> !HasKind(s.memory.pending, Database.Revoke)
  }

  lemma NextStaysPrompt(s: System, h: Happening)
    requires Basic(s) && Prompt(s) && Possible(s, h)
    ensures Prompt(Next(s, h))
  {
    if h.Poll? {
      var Poll(now, env, ids) := h;
      StepCases(s, now, env, ids);
      if Acts(s, now, env, ids) {
        TakenKeepsBasic(s, now, env, ids);
        ActsAccordingly(Taken(s, now, ids), now, env);
        hide StepOf, ActOf, Basic;
      } else {
        hide StepOf, ActOf, Basic;
      }
    }
  }

  /** In every run, no poll leaves a revocation held with nothing installed. */
  lemma {:induction false} NoRevocationWaits(s: System, hs: seq<Happening>)
    requires Basic(s) && Prompt(s) && PossibleRun(s, hs)
    ensures Prompt(Run(s, hs))
    decreases |hs|
  {
    hide Basic, Prompt, Next, Possible;
    if hs != [] {
      NextKeepsBasic(s, hs[0]);
      NextStaysPrompt(s, hs[0]);
      NoRevocationWaits(Next(s, hs[0]), hs[1..]);
    }
  }

  /** And when every call of a poll succeeds, whatever is claimed with a
      revocation is completed in that same poll, and nothing is held after. */
  lemma RevocationIsDoneAtOnce(s: System, now: Time, env: Env, ids: seq<int>)
    requires Basic(s) && Possible(s, Poll(now, env, ids)) && Acts(s, now, env, ids)
    requires HasKind(Taken(s, now, ids).memory.pending, Database.Revoke)
    requires env.build && env.install && env.complete.Succeeds?
    ensures var s' := Next(s, Poll(now, env, ids));
            && s'.memory.pending == []
            && forall id :: id in ids ==> id in s'.rows && s'.rows[id].completed
  {
    hide StepOf, DeployOf;
    StepCases(s, now, env, ids);
    TakenKeepsBasic(s, now, env, ids);
    var t := Taken(s, now, ids);
    HeldAreUnique(t);
    DeployLogs(t, now, HasKind(t.memory.pending, Database.Reconcile), true, env);
    forall id | id in ids ensures id in PendingIds(t.memory.pending) {
      var k :| 0 <= k < |ids| && ids[k] == id;
      assert PendingIds(t.memory.pending)[|s.memory.pending| + k] == id;
    }
  }

  // ---- failures and attempts ----

  /** Retries back off: 5 and 15 seconds, 1, 5 and then always 15 minutes. */
  lemma RetriesBackOff(a: nat, b: nat)
    ensures 1 <= a < b <= 5 ==> RetryDelay(a) < RetryDelay(b)
    ensures [RetryDelay(1), RetryDelay(2), RetryDelay(3), RetryDelay(4)]
         == [5 * SECOND, 15 * SECOND, 60 * SECOND, 300 * SECOND]
    ensures a >= 5 ==> RetryDelay(a) == 900 * SECOND
  {
  }

  lemma {:induction false} RetriedAt(rows: Rows, pending: seq<CoreAction>, now: Time, deaf: set<int>, id: int)
    requires HoldsRows(rows, pending) && id in rows
    ensures var rows' := RetriedAll(rows, pending, now, deaf);
            && id in rows'
            && rows'[id] == rows[id].(availableAt := rows'[id].availableAt)
            && (forall i :: 0 <= i < |pending| && pending[i].id == id && id !in deaf && !rows[id].completed ==>
                  rows'[id].availableAt == now + RetryDelay(pending[i].attempts))
            && ((id in deaf || rows[id].completed || forall i :: 0 <= i < |pending| ==> pending[i].id != id) ==>
                  rows'[id] == rows[id])
    decreases |pending|
  {
    if pending != [] {
      RetriedAt(rows, pending[..|pending| - 1], now, deaf, id);
    }
  }

  /** After a deployment that fails, every held row whose retry arrives waits
      exactly its own delay, and no other row moves. */
  lemma FailedRowsWait(s: System, now: Time, planned: bool, urgent: bool, env: Env, id: int)
    requires Basic(s) && id in s.rows && (!env.build || !env.install)
    ensures var s' := DeployOf(s, now, planned, urgent, env);
            && id in s'.rows && s'.rows[id] == s.rows[id].(availableAt := s'.rows[id].availableAt)
            && (forall i :: 0 <= i < |s.memory.pending| && s.memory.pending[i].id == id && id !in env.deaf
                            && !s.rows[id].completed ==>
                  s'.rows[id].availableAt == now + RetryDelay(s.memory.pending[i].attempts))
            && ((id in env.deaf || id !in PendingIds(s.memory.pending)) ==> s'.rows[id] == s.rows[id])
  {
    RetriedAt(s.rows, s.memory.pending, now, env.deaf, id);
    if id !in PendingIds(s.memory.pending) {
      forall i | 0 <= i < |s.memory.pending| ensures s.memory.pending[i].id != id {
        assert PendingIds(s.memory.pending)[i] in PendingIds(s.memory.pending);
      }
    }
    hide RetriedAll;
  }

  // The claims of a run that reach the table with a row.
  function ClaimsOf(s: System, hs: seq<Happening>, id: int): nat
    decreases |hs|
  {
    if hs == [] then 0
    else
      (if hs[0].Poll? && s.memory.installedAt == NO_TIME && !hs[0].env.claim.FailsBefore? && id in hs[0].ids
       then 1 else 0) + ClaimsOf(Next(s, hs[0]), hs[1..], id)
  }

  lemma NextCountsAttempts(s: System, h: Happening, id: int)
    requires Basic(s) && Possible(s, h) && id in s.rows
    ensures id in Next(s, h).rows
    ensures Next(s, h).rows[id].attempts == s.rows[id].attempts + ClaimsOf(s, [h], id)
  {
    assert [h][1..] == [];
    if h.Poll? {
      var Poll(now, env, ids) := h;
      StepCases(s, now, env, ids);
      if Acts(s, now, env, ids) {
        ActKeepsAttempts(Taken(s, now, ids), now, env, id);
        hide StepOf, ActOf, Basic;
      } else {
        hide StepOf, ActOf, Basic;
      }
    }
  }

  lemma ActKeepsAttempts(s: System, now: Time, env: Env, id: int)
    requires id in s.rows
    ensures id in ActOf(s, now, env).rows && ActOf(s, now, env).rows[id].attempts == s.rows[id].attempts
  {
    RetriedKeepsAttempts(s.rows, s.memory.pending, now, env.deaf, id);
    hide RetriedAll, HasKind;
  }

  lemma {:induction false} RetriedKeepsAttempts(
      rows: Rows, pending: seq<CoreAction>, now: Time, deaf: set<int>, id: int)
    requires id in rows
    ensures id in RetriedAll(rows, pending, now, deaf)
    ensures RetriedAll(rows, pending, now, deaf)[id].attempts == rows[id].attempts
    decreases |pending|
  {
    if pending != [] {
      RetriedKeepsAttempts(rows, pending[..|pending| - 1], now, deaf, id);
    }
  }

  /** Over every run a row's attempts count exactly the claims that reached the
      table with it, those whose reply was lost included. */
  lemma {:induction false} AttemptsCountClaims(s: System, hs: seq<Happening>, id: int)
    requires Basic(s) && PossibleRun(s, hs) && id in s.rows
    ensures id in Run(s, hs).rows
    ensures Run(s, hs).rows[id].attempts == s.rows[id].attempts + ClaimsOf(s, hs, id)
    decreases |hs|
  {
    hide Basic, Next, Possible;
    if hs != [] {
      NextKeepsBasic(s, hs[0]);
      NextCountsAttempts(s, hs[0], id);
      assert [hs[0]][1..] == [];
      AttemptsCountClaims(Next(s, hs[0]), hs[1..], id);
    }
  }
}
