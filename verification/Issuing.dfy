/** What an issuance leaves behind: the account, its credentials, its quota, and
    whether the core is to serve them. */
module Issuing {
  import opened Basics
  import Access
  import opened Database
  import opened Recording
  import Drift

  // A user has credentials exactly when some were issued, of the generation
  // last issued.
  ghost predicate BundlesAgree(t: Tables) {
    forall uid :: uid in t.users ==>
      t.users[uid].bundle
      == if t.users[uid].account.generation == 0 then None else Some(t.users[uid].account.generation)
  }

  /** An issuance is accepted exactly when the account may have it, the settings
      it needs are set, and the generation fits its column. */
  lemma ProvisionSucceeds(t: Tables, uid: int, issue: Issue, now: Time)
    requires TablesStored(t) && uid > 0
    ensures Provision(t, uid, issue, now).Ok?
            <==> && uid in t.users && now != NO_TIME
                 && var a := t.users[uid].account;
                    && a.generation < MAX_INT64
                    && match issue
                       case Claim => a.eligible && a.status in {Access.Unclaimed, Access.SelfService}
                       case Approve => a.eligible && a.status in {Access.PendingApproval, Access.ApprovalRejected}
                       case Rotate(_) => a.status == Access.Active && now >= a.periodStartedAt
  {
    if uid in t.users && now != NO_TIME {
      var reset := issue.Rotate? && issue.resetPeriod;
      assert Stored(t.users[uid]);
      Access.IssuanceDecides(t.users[uid].account, now, reset);
    }
  }

  /** An accepted issuance makes the user active with credentials one generation
      on, whatever the user had before. With it, unless it is a rotation within
      the period, a new period begins at that instant, with exactly the limit
      and length of the settings, unused and unblocked. Nobody else changes,
      and the user's reconcile row is queued. */
  lemma IssuanceLeaves(t: Tables, uid: int, issue: Issue, now: Time)
    requires TablesStored(t) && Provision(t, uid, issue, now).Ok?
    ensures var t', a := Provision(t, uid, issue, now).value, t.users[uid].account;
            && t'.users.Keys == t.users.Keys
            && (forall other :: other in t.users && other != uid ==> t'.users[other] == t.users[other])
            && t' == t.(users := t'.users, outbox := t.outbox + {(uid, Reconcile)})
            && var row' := t'.users[uid];
               && row'.account.status == Access.Active && row'.account.eligible == a.eligible
               && row'.account.telegramId == a.telegramId && row'.account.generation == a.generation + 1
               && row'.bundle == Some(a.generation + 1)
               && (if issue == Rotate(false) then
                     && row'.quota == t.users[uid].quota
                     && row'.account.periodStartedAt == a.periodStartedAt
                     && row'.account.lastActivityAt == a.lastActivityAt
                   else
                     && row'.quota == Some(QuotaRow(now, t.settings.quotaPeriodSeconds, t.settings.quotaLimitBytes, 0,
                                                    false))
                     && row'.account.periodStartedAt == now && row'.account.lastActivityAt == now)
  {
    assert Stored(t.users[uid]);
  }

  /** So while the service is open and has its certificate, whoever is issued
      credentials is served exactly those: the new generation, one above the
      old, unless a rotation finds the quota used up. */
  lemma IssuanceServes(t: Tables, uid: int, issue: Issue, now: Time)
    requires TablesStored(t) && Provision(t, uid, issue, now).Ok?
    requires issue == Rotate(false) ==> t.users[uid].quota.Some?
    ensures var t' := Provision(t, uid, issue, now).value;
            Drift.Served(t', uid)
            == if !t.health.failClosed && t.tlsIssued && (issue == Rotate(false) ==> !t.users[uid].quota.value.blocked)
               then Some(t.users[uid].account.generation + 1) else None
  {
    IssuanceLeaves(t, uid, issue, now);
    assert Stored(t.users[uid]);
    hide Provision;
  }

  lemma OthersKeepBundles(t: Tables, w: Drift.Write)
    requires BundlesAgree(t) && !w.Provisioning? && !w.CountTraffic?
    ensures BundlesAgree(Drift.After(t, w))
  {
    hide RecordBatch;
  }

  lemma CountingKeepsBundles(t: Tables, w: Drift.Write)
    requires BundlesAgree(t) && w.CountTraffic?
    ensures BundlesAgree(Drift.After(t, w))
  {
    var t' := Drift.After(t, w);
    if t'.users != t.users {
      PositiveIsAscending(w.samples);
      forall uid | uid in t'.users
        ensures uid in t.users && t'.users[uid].bundle == t.users[uid].bundle
        ensures t'.users[uid].account.generation == t.users[uid].account.generation
      {
        BatchIsPerUser(Progress(t.users, t.outbox, NOTHING), w.at, Positive(w.samples), uid);
      }
    }
  }

  lemma WriteKeepsBundles(t: Tables, w: Drift.Write)
    requires TablesStored(t) && BundlesAgree(t) && Representable(w)
    ensures BundlesAgree(Drift.After(t, w))
  {
    match w {
      case Provisioning(uid, issue, now) =>
        if Provision(t, uid, issue, now).Ok? {
          IssuanceLeaves(t, uid, issue, now);
          hide Provision;
        }
      case CountTraffic(_, _, _) => CountingKeepsBundles(t, w);
      case _ => OthersKeepBundles(t, w);
    }
  }

  /** Over every run of transactions a user has credentials exactly when some
      were issued, and they are those of the generation last issued: no old
      ones ever come back. */
  lemma {:induction false} CredentialsAreCurrent(t: Tables, writes: seq<Drift.Write>)
    requires TablesStored(t) && BundlesAgree(t) && forall i :: 0 <= i < |writes| ==> Representable(writes[i])
    ensures BundlesAgree(Drift.AfterAll(t, writes))
    ensures forall uid :: Drift.Served(Drift.AfterAll(t, writes), uid).Some? ==>
              && uid in Drift.AfterAll(t, writes).users
              && Drift.Served(Drift.AfterAll(t, writes), uid).value
                 == Drift.AfterAll(t, writes).users[uid].account.generation > 0
    decreases |writes|
  {
    if writes != [] {
      assert Representable(writes[0]);
      WriteKeepsBundles(t, writes[0]);
      WriteKeepsStored(t, writes[0]);
      hide TablesStored, BundlesAgree, Drift.After, Representable;
      CredentialsAreCurrent(Drift.After(t, writes[0]), writes[1..]);
    }
  }
}
