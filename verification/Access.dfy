/** The access account of one Telegram user and its lifecycle. */
module Access {
  import opened Basics

  datatype Status =
    | Unclaimed
    | Active
    | PendingApproval
    | ApprovalRejected
    | SelfService
    | PermanentlyBlocked
    | UnknownStatus  // any other persisted text

  datatype RevocationMode = ToSelfService | RequireApproval | PermanentBlock | UnknownMode

  datatype AccessSnapshot = AccessSnapshot(
    telegramId: int,
    eligible: bool,
    status: Status,
    generation: nat,
    periodStartedAt: Time,
    lastActivityAt: Time
  )

  datatype AccessError = NotEligible | ApprovalRequired | AlreadyActive | Blocked | Invalid

  datatype Issuance = Issuance(generation: nat, periodStartedAt: Time)

  datatype Op =
    | SetEligibility(nowEligible: bool)
    | Claim(claimedAt: Time)
    | Revoke(mode: RevocationMode)
    | Rotate(rotatedAt: Time, resetPeriod: bool)
    | RecordActivity(observedAt: Time, bytes: int)
    | RejectApproval
    | Approve(approvedAt: Time)

  // A generation is a uint64: the increment wraps.
  function NextGeneration(generation: nat): nat {
    (generation + 1) % UINT64_VALUES
  }

  function NewSnapshot(telegramId: int): AccessSnapshot {
    AccessSnapshot(telegramId, false, Unclaimed, 0, NO_TIME, NO_TIME)
  }

  function Issue(s: AccessSnapshot, now: Time): AccessSnapshot {
    s.(status := Active, generation := NextGeneration(s.generation), periodStartedAt := now, lastActivityAt := now)
  }

  // One account operation; a rejected operation leaves the account alone.
  function Apply(s: AccessSnapshot, op: Op): Result<AccessSnapshot, AccessError> {
    match op
    case SetEligibility(e) =>
      Ok(s.(eligible := e, status := if !e && s.status in {Active, SelfService} then PendingApproval else s.status))
    case Claim(now) =>
      if now == NO_TIME then Err(Invalid)
      else if !s.eligible then Err(NotEligible)
      else (match s.status
            case PermanentlyBlocked => Err(Blocked)
            case PendingApproval => Err(ApprovalRequired)
            case ApprovalRejected => Err(ApprovalRequired)
            case Active => Err(AlreadyActive)
            case _ => Ok(Issue(s, now)))
    case Revoke(mode) =>
      if s.status != Active || mode == UnknownMode then Err(Invalid)
      else Ok(s.(status := match mode
                           case ToSelfService => SelfService
                           case RequireApproval => PendingApproval
                           case _ => PermanentlyBlocked))
    case Rotate(now, reset) =>
      if s.status != Active || now == NO_TIME || now < s.periodStartedAt then Err(Invalid)
      else if reset then Ok(Issue(s, now))
      else Ok(s.(generation := NextGeneration(s.generation)))
    case RecordActivity(at, bytes) =>
      if s.status != Active || bytes <= 0 || at == NO_TIME || at < s.lastActivityAt then Err(Invalid)
      else Ok(s.(lastActivityAt := at))
    case RejectApproval =>
      if s.status != PendingApproval then Err(Invalid) else Ok(s.(status := ApprovalRejected))
    case Approve(now) =>
      if now == NO_TIME then Err(Invalid)
      else if !s.eligible then Err(NotEligible)
      else if s.status !in {PendingApproval, ApprovalRejected} then Err(Invalid)
      else Ok(Issue(s, now))
  }

  // The validation a persisted row passes before it becomes an account again.
  predicate Restorable(s: AccessSnapshot) {
    && s.telegramId > 0
    && (match s.status
        case Unclaimed => s.generation == 0 && s.periodStartedAt == NO_TIME && s.lastActivityAt == NO_TIME
        case UnknownStatus => false
        case _ =>
          && s.generation != 0 && s.periodStartedAt != NO_TIME && s.lastActivityAt != NO_TIME
          && s.periodStartedAt <= s.lastActivityAt)
    && (s.status == Active ==> s.eligible)
  }

  class AccessAccount {
    const telegramId: int
    var eligible: bool
    var status: Status
    var generation: nat
    var periodStartedAt: Time
    var lastActivityAt: Time

    function Snapshot(): AccessSnapshot
      reads this
    {
      AccessSnapshot(telegramId, eligible, status, generation, periodStartedAt, lastActivityAt)
    }

    constructor FromSnapshot(s: AccessSnapshot)
      ensures Snapshot() == s
    {
      telegramId, eligible, status := s.telegramId, s.eligible, s.status;
      generation, periodStartedAt, lastActivityAt := s.generation, s.periodStartedAt, s.lastActivityAt;
    }

    static method New(telegramId: int) returns (account: AccessAccount?)
      ensures account == null <==> telegramId <= 0
      ensures account != null ==> fresh(account) && account.Snapshot() == NewSnapshot(telegramId)
    {
      if telegramId <= 0 {
        return null;
      }
      account := new AccessAccount.FromSnapshot(NewSnapshot(telegramId));
    }

    static method Restore(s: AccessSnapshot) returns (account: AccessAccount?)
      ensures account != null <==> Restorable(s)
      ensures account != null ==> fresh(account) && account.Snapshot() == s
    {
      if s.telegramId <= 0 {
        return null;
      }
      match s.status {
        case Unclaimed =>
          if s.generation != 0 || s.periodStartedAt != NO_TIME || s.lastActivityAt != NO_TIME {
            return null;
          }
        case UnknownStatus =>
          return null;
        case _ =>
          if s.generation == 0 || s.periodStartedAt == NO_TIME || s.lastActivityAt == NO_TIME {
            return null;
          }
          if s.lastActivityAt < s.periodStartedAt {
            return null;
          }
      }
      if s.status == Active && !s.eligible {
        return null;
      }
      account := new AccessAccount.FromSnapshot(s);
    }

    method SetEligibility(e: bool) returns (revoke: bool)
      modifies this
      ensures Ok(Snapshot()) == Apply(old(Snapshot()), Op.SetEligibility(e))
      ensures revoke <==> old(status) == Active && status != Active
    {
      eligible := e;
      if !e && status == Active {
        status := PendingApproval;
        return true;
      }
      if !e && status == SelfService {
        status := PendingApproval;
      }
      revoke := false;
    }

    method Claim(now: Time) returns (r: Result<Issuance, AccessError>)
      modifies this
      ensures Follows(old(Snapshot()), Op.Claim(now), Snapshot())
      ensures r == Issued(old(Snapshot()), Op.Claim(now))
    {
      if now == NO_TIME {
        return Err(Invalid);
      }
      if !eligible {
        return Err(NotEligible);
      }
      match status {
        case PermanentlyBlocked => return Err(Blocked);
        case PendingApproval => return Err(ApprovalRequired);
        case ApprovalRejected => return Err(ApprovalRequired);
        case Active => return Err(AlreadyActive);
        case _ =>
          var issuance := IssueNow(now);
          return Ok(issuance);
      }
    }

    method Revoke(mode: RevocationMode) returns (r: Result<bool, AccessError>)
      modifies this
      ensures Follows(old(Snapshot()), Op.Revoke(mode), Snapshot())
      ensures r.Ok? <==> old(status) == Active && mode != UnknownMode
      ensures r.Ok? ==> r.value
      ensures r.Ok? && mode == ToSelfService ==> status == SelfService
      ensures r.Ok? && mode == RequireApproval ==> status == PendingApproval
      ensures r.Ok? && mode == PermanentBlock ==> status == PermanentlyBlocked
      ensures r.Err? ==> r.error == Invalid
    {
      if status != Active {
        return Err(Invalid);
      }
      match mode {
        case ToSelfService => status := SelfService;
        case RequireApproval => status := PendingApproval;
        case PermanentBlock => status := PermanentlyBlocked;
        case UnknownMode => return Err(Invalid);
      }
      return Ok(true);
    }

    method Rotate(now: Time, resetPeriod: bool) returns (r: Result<Issuance, AccessError>)
      modifies this
      ensures Follows(old(Snapshot()), Op.Rotate(now, resetPeriod), Snapshot())
      ensures r == Issued(old(Snapshot()), Op.Rotate(now, resetPeriod))
    {
      if status != Active {
        return Err(Invalid);
      }
      if now == NO_TIME || now < periodStartedAt {
        return Err(Invalid);
      }
      generation := NextGeneration(generation);
      if resetPeriod {
        periodStartedAt := now;
        lastActivityAt := now;
      }
      return Ok(Issuance.Issuance(generation, periodStartedAt));
    }

    method RecordActivity(observedAt: Time, bytes: int) returns (ok: bool)
      modifies this
      ensures Follows(old(Snapshot()), Op.RecordActivity(observedAt, bytes), Snapshot())
      ensures ok <==> Apply(old(Snapshot()), Op.RecordActivity(observedAt, bytes)).Ok?
    {
      if status != Active || bytes <= 0 || observedAt == NO_TIME || observedAt < lastActivityAt {
        return false;
      }
      lastActivityAt := observedAt;
      ok := true;
    }

    method RejectApproval() returns (ok: bool)
      modifies this
      ensures Follows(old(Snapshot()), Op.RejectApproval, Snapshot())
      ensures ok <==> old(status) == PendingApproval
    {
      if status != PendingApproval {
        return false;
      }
      status := ApprovalRejected;
      ok := true;
    }

    method Approve(now: Time) returns (r: Result<Issuance, AccessError>)
      modifies this
      ensures Follows(old(Snapshot()), Op.Approve(now), Snapshot())
      ensures r == Issued(old(Snapshot()), Op.Approve(now))
    {
      if now == NO_TIME {
        return Err(Invalid);
      }
      if !eligible {
        return Err(NotEligible);
      }
      if status != PendingApproval && status != ApprovalRejected {
        return Err(Invalid);
      }
      var issuance := IssueNow(now);
      return Ok(issuance);
    }

    method IssueNow(now: Time) returns (issuance: Issuance)
      modifies this
      ensures Snapshot() == Issue(old(Snapshot()), now)
      ensures issuance == Issuance.Issuance(generation, now)
    {
      status := Active;
      generation := NextGeneration(generation);
      periodStartedAt := now;
      lastActivityAt := now;
      issuance := Issuance.Issuance(generation, periodStartedAt);
    }
  }

  // The account after an operation: the new state if accepted, else unchanged.
  predicate Follows(before: AccessSnapshot, op: Op, after: AccessSnapshot) {
    match Apply(before, op)
    case Ok(s) => after == s
    case Err(_) => after == before
  }

  // What an issuing operation reports: the generation and period it leaves behind.
  function Issued(before: AccessSnapshot, op: Op): Result<Issuance, AccessError> {
    match Apply(before, op)
    case Ok(s) => Ok(Issuance.Issuance(s.generation, s.periodStartedAt))
    case Err(e) => Err(e)
  }

  predicate Issues(op: Op) {
    op.Claim? || op.Rotate? || op.Approve?
  }

  function After(s: AccessSnapshot, op: Op): AccessSnapshot {
    match Apply(s, op)
    case Ok(s') => s'
    case Err(_) => s
  }

  function Run(s: AccessSnapshot, ops: seq<Op>): AccessSnapshot
    decreases |ops|
  {
    if ops == [] then s else Run(After(s, ops[0]), ops[1..])
  }

  // How many operations of a run issued or rotated credentials.
  function Issuances(s: AccessSnapshot, ops: seq<Op>): nat
    decreases |ops|
  {
    if ops == [] then 0
    else (if Issues(ops[0]) && Apply(s, ops[0]).Ok? then 1 else 0) + Issuances(After(s, ops[0]), ops[1..])
  }

  // Everything a reachable account satisfies except the counter's wrap-around.
  predicate Sound(s: AccessSnapshot, issued: nat) {
    && s.telegramId > 0 && s.status != UnknownStatus
    && s.generation == issued % UINT64_VALUES
    && (s.status == Unclaimed <==> issued == 0)
    && (issued == 0 ==> s.periodStartedAt == NO_TIME && s.lastActivityAt == NO_TIME)
    && (issued > 0 ==> NO_TIME < s.periodStartedAt <= s.lastActivityAt)
    && (s.status == Active ==> s.eligible)
  }

  lemma StepStaysSound(s: AccessSnapshot, issued: nat, op: Op)
    requires Sound(s, issued)
    ensures Sound(After(s, op), issued + if Issues(op) && Apply(s, op).Ok? then 1 else 0)
  {
  }

  lemma {:induction false} RunStaysSound(s: AccessSnapshot, issued: nat, ops: seq<Op>)
    requires Sound(s, issued)
    ensures Sound(Run(s, ops), issued + Issuances(s, ops))
    decreases |ops|
  {
    if ops != [] {
      var step := if Issues(ops[0]) && Apply(s, ops[0]).Ok? then 1 else 0;
      StepStaysSound(s, issued, ops[0]);
      hide Sound, After, Apply;
      RunStaysSound(After(s, ops[0]), issued + step, ops[1..]);
    }
  }

  /** Restoring a reachable snapshot: it is accepted, and is then the same
      account, exactly when the uint64 generation has not wrapped back to 0. */
  lemma {:induction false} RestoreAcceptsReachable(telegramId: int, ops: seq<Op>)
    requires telegramId > 0
    ensures var issued := Issuances(NewSnapshot(telegramId), ops);
            Restorable(Run(NewSnapshot(telegramId), ops)) <==> issued == 0 || issued % UINT64_VALUES != 0
  {
    RunStaysSound(NewSnapshot(telegramId), 0, ops);
  }

  /** The generation of a reachable account counts its issuances and rotations,
      as a uint64 does, and nothing else moves it. */
  lemma {:induction false} GenerationCountsIssuances(telegramId: int, ops: seq<Op>)
    requires telegramId > 0
    ensures Run(NewSnapshot(telegramId), ops).generation == Issuances(NewSnapshot(telegramId), ops) % UINT64_VALUES
  {
    RunStaysSound(NewSnapshot(telegramId), 0, ops);
  }

  /** Permanent block is absorbing. */
  lemma {:induction false} BlockIsPermanent(s: AccessSnapshot, ops: seq<Op>)
    requires s.status == PermanentlyBlocked
    ensures Run(s, ops).status == PermanentlyBlocked
    ensures Issuances(s, ops) == 0
    decreases |ops|
  {
    if ops != [] {
      BlockIsPermanent(After(s, ops[0]), ops[1..]);
    }
  }

  predicate AwaitsDecision(s: AccessSnapshot) {
    s.status in {PendingApproval, ApprovalRejected, PermanentlyBlocked}
  }

  // No approval of the run is accepted where it stands.
  predicate NeverApproved(s: AccessSnapshot, ops: seq<Op>)
    decreases |ops|
  {
    ops == [] || (!(ops[0].Approve? && Apply(s, ops[0]).Ok?) && NeverApproved(After(s, ops[0]), ops[1..]))
  }

  /** An issued account that loses eligibility is served again only after an
      administrator approves it: without an accepted approval no sequence of
      operations, whatever else it contains, issues or reactivates; and with one
      something is issued. */
  lemma {:induction false} LostEligibilityNeedsApproval(s: AccessSnapshot, ops: seq<Op>)
    requires s.status != Unclaimed && s.status != UnknownStatus
    ensures var lost := After(s, SetEligibility(false));
            && (NeverApproved(lost, ops) ==> AwaitsDecision(Run(lost, ops)))
            && (Issuances(lost, ops) == 0 <==> NeverApproved(lost, ops))
  {
    StaysUndecided(After(s, SetEligibility(false)), ops);
  }

  lemma {:induction false} StaysUndecided(s: AccessSnapshot, ops: seq<Op>)
    requires AwaitsDecision(s)
    ensures NeverApproved(s, ops) ==> AwaitsDecision(Run(s, ops))
    ensures Issuances(s, ops) == 0 <==> NeverApproved(s, ops)
    decreases |ops|
  {
    if ops != [] && !(ops[0].Approve? && Apply(s, ops[0]).Ok?) {
      StaysUndecided(After(s, ops[0]), ops[1..]);
    }
  }

  /** What each mode of revocation leaves open. After a permanent block nothing
      is ever issued again; after one that requires approval something is issued
      exactly when an approval is accepted, which an eligible account's is; and
      after one to self-service an eligible account can claim at once. */
  lemma {:induction false} RevocationModes(s: AccessSnapshot, mode: RevocationMode, ops: seq<Op>, now: Time)
    requires Apply(s, Revoke(mode)).Ok?
    ensures var gone := After(s, Revoke(mode));
            && s.status == Active && gone == s.(status := gone.status) && gone.status != Active
            && (mode == PermanentBlock ==> Issuances(gone, ops) == 0)
            && (mode == RequireApproval ==>
                  && (Issuances(gone, ops) == 0 <==> NeverApproved(gone, ops))
                  && (Apply(gone, Approve(now)).Ok? <==> s.eligible && now != NO_TIME)
                  && Apply(gone, Claim(now)).Err?)
            && (mode == ToSelfService ==>
                  (Apply(gone, Claim(now)).Ok? <==> s.eligible && now != NO_TIME) && Apply(gone, Approve(now)).Err?)
  {
    var gone := After(s, Revoke(mode));
    if mode == PermanentBlock {
      BlockIsPermanent(gone, ops);
    } else if mode == RequireApproval {
      StaysUndecided(gone, ops);
    }
  }

  /** Who can be issued credentials, and why the others cannot. */
  lemma IssuanceDecides(s: AccessSnapshot, now: Time, reset: bool)
    requires now != NO_TIME && s.status != UnknownStatus
    ensures Apply(s, Claim(now)).Ok? <==> s.eligible && s.status in {Unclaimed, SelfService}
    ensures Apply(s, Claim(now)) == Err(NotEligible) <==> !s.eligible
    ensures Apply(s, Claim(now)) == Err(Blocked) <==> s.eligible && s.status == PermanentlyBlocked
    ensures Apply(s, Claim(now)) == Err(ApprovalRequired)
            <==> s.eligible && s.status in {PendingApproval, ApprovalRejected}
    ensures Apply(s, Claim(now)) == Err(AlreadyActive) <==> s.eligible && s.status == Active
    ensures Apply(s, Approve(now)).Ok? <==> s.eligible && s.status in {PendingApproval, ApprovalRejected}
    ensures Apply(s, Approve(now)) == Err(NotEligible) <==> !s.eligible
    ensures Apply(s, Rotate(now, reset)).Ok? <==> s.status == Active && now >= s.periodStartedAt
  {
  }
}
