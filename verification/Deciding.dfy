/** What qualification decisions and an administrator's revocations do to a
    user, at once and over every later run. */
module Deciding {
  import opened Basics
  import Access
  import opened Database
  import opened Recording
  import Drift

  // A user the tables do not know yet is one who never claimed.
  function RowOf(t: Tables, uid: int): UserRow {
    if uid in t.users then t.users[uid] else UserRow(Access.NewSnapshot(uid), None, None)
  }

  ghost predicate OnlyUserChanges(t: Tables, t': Tables, uid: int) {
    && t'.users.Keys == t.users.Keys + {uid}
    && (forall other :: other in t.users && other != uid ==> t'.users[other] == t.users[other])
    && t' == t.(users := t'.users, outbox := t'.outbox)
  }

  // ---- qualification ----

  /** A decision is stored as it was made. Ineligible takes the service away:
      exactly an active or self-service account awaits approval from then on,
      and exactly the active one gets a revoke row. Eligible changes no status
      and queues nothing. Nobody else changes, and an indeterminate decision
      changes nothing at all. */
  lemma DecisionIsApplied(t: Tables, uid: int, decision: Decision)
    requires TablesStored(t) && uid > 0
    ensures ApplyQualification(t, uid, decision).Ok?
    ensures var t', row := ApplyQualification(t, uid, decision).value, RowOf(t, uid);
            if decision.Indeterminate? then t' == t
            else
              && OnlyUserChanges(t, t', uid)
              && var row' := t'.users[uid];
                 && (row'.account.eligible <==> decision.Eligible?)
                 && row' == row.(account := row.account.(eligible := row'.account.eligible,
                                                         status := row'.account.status))
                 && row'.account.status
                    == (if decision.Ineligible? && row.account.status in {Access.Active, Access.SelfService}
                        then Access.PendingApproval else row.account.status)
                 && t'.outbox
                    == t.outbox + (if decision.Ineligible? && row.account.status == Access.Active
                                   then {(uid, Revoke)} else {})
                 && (decision.Ineligible? ==> Drift.Served(t', uid).None?)
  {
    if uid in t.users {
      assert Stored(t.users[uid]);
    }
  }

  // A decision that finds the user eligible.
  predicate Readmits(w: Drift.Write, uid: int) {
    w.Qualify? && w.uid == uid && w.decision.Eligible?
  }

  ghost predicate NotEligible(t: Tables, uid: int) {
    uid in t.users && !t.users[uid].account.eligible
  }

  lemma CountingKeepsAccounts(t: Tables, w: Drift.Write, uid: int)
    requires w.CountTraffic? && uid in t.users
    ensures uid in Drift.After(t, w).users
    ensures var a, a' := t.users[uid].account, Drift.After(t, w).users[uid].account;
            a' == a.(lastActivityAt := a'.lastActivityAt)
  {
    var t' := Drift.After(t, w);
    if t'.users != t.users {
      PositiveIsAscending(w.samples);
      BatchIsPerUser(Progress(t.users, t.outbox, NOTHING), w.at, Positive(w.samples), uid);
    }
  }

  lemma StaysNotEligible(t: Tables, w: Drift.Write, uid: int)
    requires NotEligible(t, uid) && !Readmits(w, uid)
    ensures NotEligible(Drift.After(t, w), uid)
  {
    if w.CountTraffic? {
      CountingKeepsAccounts(t, w, uid);
    }
    hide RecordBatch;
  }

  lemma {:induction false} StaysNotEligibleThrough(t: Tables, writes: seq<Drift.Write>, uid: int)
    requires NotEligible(t, uid) && forall i :: 0 <= i < |writes| ==> !Readmits(writes[i], uid)
    ensures NotEligible(Drift.AfterAll(t, writes), uid)
    decreases |writes|
  {
    if writes != [] {
      StaysNotEligible(t, writes[0], uid);
      hide NotEligible, Drift.After;
      StaysNotEligibleThrough(Drift.After(t, writes[0]), writes[1..], uid);
    }
  }

  /** Over every run, a user whose last decision was Ineligible is not served,
      whatever administrators or the user do. */
  lemma IneligibleIsNotServed(t: Tables, uid: int, writes: seq<Drift.Write>)
    requires TablesStored(t) && uid > 0
    requires forall i :: 0 <= i < |writes| ==> !Readmits(writes[i], uid)
    ensures Drift.Served(Drift.AfterAll(Drift.After(t, Drift.Qualify(uid, Ineligible)), writes), uid).None?
  {
    DecisionIsApplied(t, uid, Ineligible);
    StaysNotEligibleThrough(Drift.After(t, Drift.Qualify(uid, Ineligible)), writes, uid);
  }

  // ---- revocation and rejection ----

  /** A revocation is accepted exactly for a known active user and a known mode,
      and stops the service with a revoke row; a rejection exactly for a user who
      awaits approval, and queues nothing. Only the status changes, to the one
      that was asked for, and only of that user. */
  lemma ManagementIsApplied(t: Tables, uid: int, op: ManageOp)
    requires TablesStored(t) && uid > 0
    ensures Manage(t, uid, op).Ok?
            <==> && uid in t.users
                 && match op
                    case RevokeAccess(mode) =>
                      mode != Access.UnknownMode && t.users[uid].account.status == Access.Active
                    case RejectApproval => t.users[uid].account.status == Access.PendingApproval
    ensures Manage(t, uid, op).Ok? ==>
              var t', row := Manage(t, uid, op).value, t.users[uid];
              && OnlyUserChanges(t, t', uid)
              && t'.users[uid] == row.(account := row.account.(status := StatusFor(op)))
              && t'.outbox == t.outbox + (if op.RevokeAccess? then {(uid, Revoke)} else {})
              && Drift.Served(t', uid).None?
  {
    if uid in t.users {
      assert Stored(t.users[uid]);
    }
  }

  // What each operation of an administrator means.
  function StatusFor(op: ManageOp): Access.Status {
    match op
    case RevokeAccess(ToSelfService) => Access.SelfService
    case RevokeAccess(RequireApproval) => Access.PendingApproval
    case RevokeAccess(PermanentBlock) => Access.PermanentlyBlocked
    case RevokeAccess(UnknownMode) => Access.UnknownStatus
    case RejectApproval => Access.ApprovalRejected
  }

  ghost predicate IsBlocked(t: Tables, uid: int, generation: nat) {
    && uid in t.users && t.users[uid].account.status == Access.PermanentlyBlocked
    && t.users[uid].account.generation == generation
  }

  lemma StaysBlocked(t: Tables, w: Drift.Write, uid: int, generation: nat)
    requires IsBlocked(t, uid, generation)
    ensures IsBlocked(Drift.After(t, w), uid, generation)
  {
    if w.CountTraffic? {
      CountingKeepsAccounts(t, w, uid);
    }
    hide RecordBatch;
  }

  lemma {:induction false} StaysBlockedThrough(t: Tables, writes: seq<Drift.Write>, uid: int, generation: nat)
    requires IsBlocked(t, uid, generation)
    ensures IsBlocked(Drift.AfterAll(t, writes), uid, generation)
    decreases |writes|
  {
    if writes != [] {
      StaysBlocked(t, writes[0], uid, generation);
      hide IsBlocked, Drift.After;
      StaysBlockedThrough(Drift.After(t, writes[0]), writes[1..], uid, generation);
    }
  }

  /** After an accepted permanent block nothing that is ever written serves the
      user again or issues anything: the generation stands still. */
  lemma BlockedForGood(t: Tables, uid: int, writes: seq<Drift.Write>)
    requires TablesStored(t) && uid > 0 && Manage(t, uid, RevokeAccess(Access.PermanentBlock)).Ok?
    ensures var t' := Drift.AfterAll(Manage(t, uid, RevokeAccess(Access.PermanentBlock)).value, writes);
            && Drift.Served(t', uid).None?
            && uid in t'.users && t'.users[uid].account.generation == t.users[uid].account.generation
  {
    var op := RevokeAccess(Access.PermanentBlock);
    ManagementIsApplied(t, uid, op);
    StaysBlockedThrough(Manage(t, uid, op).value, writes, uid, t.users[uid].account.generation);
  }

  // ---- awaiting approval ----

  // An accepted approval of the user.
  predicate Approves(t: Tables, w: Drift.Write, uid: int) {
    w.Provisioning? && w.uid == uid && w.issue.Approve? && Provision(t, uid, w.issue, w.now).Ok?
  }

  predicate NeverApproves(t: Tables, writes: seq<Drift.Write>, uid: int)
    decreases |writes|
  {
    writes == [] || (!Approves(t, writes[0], uid) && NeverApproves(Drift.After(t, writes[0]), writes[1..], uid))
  }

  ghost predicate Awaits(t: Tables, uid: int, generation: nat) {
    && uid in t.users && Access.AwaitsDecision(t.users[uid].account)
    && t.users[uid].account.generation == generation
  }

  lemma StaysAwaiting(t: Tables, w: Drift.Write, uid: int, generation: nat)
    requires Awaits(t, uid, generation) && !Approves(t, w, uid)
    ensures Awaits(Drift.After(t, w), uid, generation)
  {
    if w.CountTraffic? {
      CountingKeepsAccounts(t, w, uid);
    }
    hide RecordBatch;
  }

  lemma {:induction false} StaysAwaitingThrough(t: Tables, writes: seq<Drift.Write>, uid: int, generation: nat)
    requires Awaits(t, uid, generation) && NeverApproves(t, writes, uid)
    ensures Awaits(Drift.AfterAll(t, writes), uid, generation)
    decreases |writes|
  {
    if writes != [] {
      StaysAwaiting(t, writes[0], uid, generation);
      hide Awaits, Drift.After, Approves;
      StaysAwaitingThrough(Drift.After(t, writes[0]), writes[1..], uid, generation);
    }
  }

  /** After a revocation that requires approval, or a decision that took an
      issued user's eligibility, the user is served again and issued anything
      only by an approval; the first eligible user's approval is accepted. */
  lemma ApprovalDecides(t: Tables, uid: int, writes: seq<Drift.Write>)
    requires TablesStored(t) && uid > 0 && Manage(t, uid, RevokeAccess(Access.RequireApproval)).Ok?
    ensures var t0 := Manage(t, uid, RevokeAccess(Access.RequireApproval)).value;
            var t' := Drift.AfterAll(t0, writes);
            && (NeverApproves(t0, writes, uid) ==>
                  && Drift.Served(t', uid).None? && uid in t'.users
                  && t'.users[uid].account.generation == t.users[uid].account.generation)
            && (forall now: Time :: now != NO_TIME ==>
                  (Provision(t0, uid, Approve, now).Ok?
                   <==> t.users[uid].account.eligible && t.users[uid].account.generation < MAX_INT64))
  {
    var op := RevokeAccess(Access.RequireApproval);
    ManagementIsApplied(t, uid, op);
    var t0 := Manage(t, uid, op).value;
    WriteKeepsStored(t, Drift.Managing(uid, op));
    if NeverApproves(t0, writes, uid) {
      StaysAwaitingThrough(t0, writes, uid, t.users[uid].account.generation);
    }
    hide TablesStored;
    forall now: Time | now != NO_TIME
      ensures Provision(t0, uid, Approve, now).Ok?
              <==> t.users[uid].account.eligible && t.users[uid].account.generation < MAX_INT64
    {
      ApprovalIsAccepted(t0, uid, now);
    }
  }

  lemma ApprovalIsAccepted(t: Tables, uid: int, now: Time)
    requires TablesStored(t) && uid > 0 && uid in t.users && now != NO_TIME
    ensures t.users[uid].account.status == Access.PendingApproval ==>
              (Provision(t, uid, Approve, now).Ok?
               <==> t.users[uid].account.eligible && t.users[uid].account.generation < MAX_INT64)
    ensures t.users[uid].account.status == Access.SelfService ==>
              (Provision(t, uid, Claim, now).Ok?
               <==> t.users[uid].account.eligible && t.users[uid].account.generation < MAX_INT64)
  {
    assert Stored(t.users[uid]);
  }

  /** After a revocation to self-service an eligible user can claim at once. */
  lemma SelfServiceClaims(t: Tables, uid: int, now: Time)
    requires TablesStored(t) && uid > 0 && now != NO_TIME
    requires Manage(t, uid, RevokeAccess(Access.ToSelfService)).Ok?
    ensures var t0 := Manage(t, uid, RevokeAccess(Access.ToSelfService)).value;
            Provision(t0, uid, Claim, now).Ok?
            <==> t.users[uid].account.eligible && t.users[uid].account.generation < MAX_INT64
  {
    var op := RevokeAccess(Access.ToSelfService);
    ManagementIsApplied(t, uid, op);
    WriteKeepsStored(t, Drift.Managing(uid, op));
    ApprovalIsAccepted(Manage(t, uid, op).value, uid, now);
  }
}
