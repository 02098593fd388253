/** The outbox table row by row: enqueue, claim under a lease, complete, retry. */
module CoreActions {
  import opened Basics
  import opened Ordering
  import Database

  datatype Row = Row(user: int, action: Database.Action, attempts: nat, availableAt: Time, completed: bool)

  type Rows = map<int, Row>

  datatype CoreAction = CoreAction(id: int, user: int, action: Database.Action, attempts: nat)

  // ---- claiming ----

  predicate Due(rows: Rows, id: int, now: Time) {
    id in rows && !rows[id].completed && rows[id].availableAt <= now
  }

  // Revocations first, then the row that has been due longest, then the id.
  predicate Before(rows: Rows, a: int, b: int)
    requires a in rows && b in rows
  {
    var ra, rb := rows[a], rows[b];
    if ra.action != rb.action then ra.action.Revoke?
    else ra.availableAt < rb.availableAt || (ra.availableAt == rb.availableAt && a < b)
  }

  // The first `limit` due rows, reported in id order.
  ghost predicate IsSelection(rows: Rows, now: Time, limit: nat, ids: seq<int>) {
    && Sorted(ids) && |ids| <= limit
    && (forall id :: id in ids ==> Due(rows, id, now))
    && (forall id :: Due(rows, id, now) && id !in ids ==>
          |ids| == limit && forall taken :: taken in ids ==> Before(rows, taken, id))
  }

  function Leased(rows: Rows, ids: seq<int>, until: Time): Rows {
    map id | id in rows ::
      if id in ids then rows[id].(attempts := rows[id].attempts + 1, availableAt := until) else rows[id]
  }

  function ActionsOf(rows: Rows, ids: seq<int>): (r: seq<CoreAction>)
    requires forall id :: id in ids ==> id in rows
    ensures |r| == |ids|
    ensures forall i :: 0 <= i < |ids| ==>
              && ids[i] in rows
              && r[i] == CoreAction(ids[i], rows[ids[i]].user, rows[ids[i]].action, rows[ids[i]].attempts)
  {
    if ids == [] then []
    else ActionsOf(rows, ids[..|ids| - 1])
         + [var id := ids[|ids| - 1]; CoreAction(id, rows[id].user, rows[id].action, rows[id].attempts)]
  }

  // ---- completing and retrying ----

  function Done(rows: Rows, ids: seq<int>): Rows {
    map id | id in rows :: if id in ids then rows[id].(completed := true) else rows[id]
  }

  function Postponed(rows: Rows, id: int, until: Time): Rows {
    if id in rows && !rows[id].completed then rows[id := rows[id].(availableAt := until)] else rows
  }

  predicate UniqueIds(ids: seq<int>) {
    ids != [] && (forall i :: 0 <= i < |ids| ==> ids[i] > 0) && forall i, j :: 0 <= i < j < |ids| ==> ids[i] != ids[j]
  }

  method ValidUniqueIds(ids: seq<int>) returns (ok: bool)
    ensures ok <==> UniqueIds(ids)
  {
    if ids == [] {
      return false;
    }
    var seen: set<int> := {};
    for k := 0 to |ids|
      invariant forall i :: 0 <= i < k ==> ids[i] > 0 && ids[i] in seen
      invariant forall id :: id in seen ==> exists i :: 0 <= i < k && ids[i] == id
      invariant forall i, j :: 0 <= i < j < k ==> ids[i] != ids[j]
    {
      if ids[k] <= 0 || ids[k] in seen {
        return false;
      }
      seen := seen + {ids[k]};
    }
    ok := true;
  }

  // ---- enqueueing ----

  predicate Waiting(rows: Rows, user: int, action: Database.Action) {
    exists id :: id in rows && !rows[id].completed && rows[id].user == user && rows[id].action == action
  }

  datatype Table = Table(rows: Rows, nextId: int)

  // INSERT ... ON CONFLICT (telegram_id, action) WHERE completed_at IS NULL DO NOTHING.
  function Inserted(t: Table, user: int, action: Database.Action, at: Time): Table {
    if Waiting(t.rows, user, action) then t
    else Table(t.rows[t.nextId := Row(user, action, 0, at, false)], t.nextId + 1)
  }

  class CoreActionStore {
    var rows: Rows
    var nextId: int

    function Value(): Table
      reads this
    {
      Table(rows, nextId)
    }

    constructor (t: Table)
      ensures Value() == t
    {
      rows, nextId := t.rows, t.nextId;
    }

    method Enqueue(user: int, action: Database.Action, at: Time)
      modifies this
      ensures Value() == Inserted(old(Value()), user, action, at)
    {
      if !exists id :: id in rows && !rows[id].completed && rows[id].user == user && rows[id].action == action {
        rows := rows[nextId := Row(user, action, 0, at, false)];
        nextId := nextId + 1;
      }
    }

    /** Leases the first `limit` due rows. A claim whose reply is lost has leased
        them all the same. */
    method ClaimDue(now: Time, lease: nat, limit: nat, outcome: Outcome)
      returns (r: Result<seq<CoreAction>, ()>, ghost ids: seq<int>)
      modifies this
      ensures now == NO_TIME || lease == 0 || !(1 <= limit <= 1000) || outcome.FailsBefore? ==>
                r.Err? && ids == [] && Value() == old(Value())
      ensures now != NO_TIME && lease > 0 && 1 <= limit <= 1000 && !outcome.FailsBefore? ==>
                && IsSelection(old(rows), now, limit, ids)
                && Value() == old(Value()).(rows := Leased(old(rows), ids, now + lease))
                && r == (if outcome.Succeeds? then Ok(ActionsOf(rows, ids)) else Err(()))
    {
      ids := [];
      if now == NO_TIME || lease == 0 || limit < 1 || limit > 1000 || outcome.FailsBefore? {
        return Err(()), ids;
      }
      var chosen := Select(rows, now, limit);
      rows := Leased(rows, chosen, now + lease);
      ids := chosen;
      if outcome.FailsAfter? {
        return Err(()), ids;
      }
      return Ok(ActionsOf(rows, chosen)), ids;
    }

    method Complete(ids: seq<int>, now: Time, outcome: Outcome) returns (ok: bool)
      modifies this
      ensures ok <==> now != NO_TIME && UniqueIds(ids) && outcome.Succeeds?
      ensures Value() == if now == NO_TIME || !UniqueIds(ids) || outcome.FailsBefore? then old(Value())
                         else old(Value()).(rows := Done(old(rows), ids))
    {
      var unique := ValidUniqueIds(ids);
      if now == NO_TIME || !unique || outcome.FailsBefore? {
        return false;
      }
      rows := Done(rows, ids);
      ok := outcome.Succeeds?;
    }

    method Retry(id: int, at: Time, outcome: Outcome) returns (ok: bool)
      modifies this
      ensures ok <==> at != NO_TIME && UniqueIds([id]) && outcome.Succeeds?
      ensures Value() == if at == NO_TIME || !UniqueIds([id]) || outcome.FailsBefore? then old(Value())
                         else old(Value()).(rows := Postponed(old(rows), id, at))
    {
      var unique := ValidUniqueIds([id]);
      if at == NO_TIME || !unique || outcome.FailsBefore? {
        return false;
      }
      rows := Postponed(rows, id, at);
      ok := outcome.Succeeds?;
    }
  }

  // ORDER BY ... LIMIT: repeatedly take the first of the rest.
  method Select(rows: Rows, now: Time, limit: nat) returns (ids: seq<int>)
    ensures IsSelection(rows, now, limit, ids)
  {
    var chosen: set<int> := {};
    var rest: set<int> := set id | id in rows && Due(rows, id, now);
    while |chosen| < limit && exists id :: id in rest
      invariant |chosen| <= limit
      invariant forall id :: Due(rows, id, now) <==> id in chosen || id in rest
      invariant forall id :: id in chosen ==> id !in rest
      invariant forall a, b :: a in chosen && b in rest ==> Before(rows, a, b)
      decreases rest
    {
      var first := FirstOf(rows, rest);
      chosen := chosen + {first};
      rest := rest - {first};
    }
    ids := SortIds(chosen);
  }

  method FirstOf(rows: Rows, ids: set<int>) returns (first: int)
    requires exists id :: id in ids
    requires forall id :: id in ids ==> id in rows
    ensures first in ids && forall id :: id in ids && id != first ==> Before(rows, first, id)
  {
    first :| first in ids;
    var rest := ids - {first};
    while exists id :: id in rest
      invariant rest <= ids && first in ids && first !in rest
      invariant forall id :: id in ids && id !in rest && id != first ==> Before(rows, first, id)
      decreases rest
    {
      var id :| id in rest;
      if Before(rows, id, first) {
        first := id;
      }
      rest := rest - {id};
    }
  }

  /** The order is total, so the selection is determined by the table. */
  lemma {:induction false} SelectionIsUnique(rows: Rows, now: Time, limit: nat, a: seq<int>, b: seq<int>)
    requires IsSelection(rows, now, limit, a) && IsSelection(rows, now, limit, b)
    ensures forall id :: id in a <==> id in b
  {
    forall id | id in a ensures id in b {
      if id !in b {
        OnlyOneSelection(rows, now, limit, a, b, id);
      }
    }
    forall id | id in b ensures id in a {
      if id !in a {
        OnlyOneSelection(rows, now, limit, b, a, id);
      }
    }
  }

  // A list that lacks a selected row would have to be full, and so hold a row
  // that comes both before and after it.
  lemma {:induction false} OnlyOneSelection(rows: Rows, now: Time, limit: nat, a: seq<int>, b: seq<int>, id: int)
    requires IsSelection(rows, now, limit, a) && id in a && id !in b
    ensures !IsSelection(rows, now, limit, b)
  {
    if Sorted(b) && |b| >= |a| {
      var x := Surplus(a, b, id);
    }
  }

  lemma {:induction false} Surplus(a: seq<int>, b: seq<int>, id: int) returns (x: int)
    requires Sorted(a) && Sorted(b) && |b| >= |a| && id in a && id !in b
    ensures x in b && x !in a
  {
    var sa, sb := set k | k in a, set k | k in b;
    SortedSize(a);
    SortedSize(b);
    if forall k :: k in sb ==> k in sa - {id} {
      SubsetSize(sb, sa - {id});
    }
    x :| x in sb && x !in sa - {id};
  }

  lemma {:induction false} SortedSize(ids: seq<int>)
    requires Sorted(ids)
    ensures |set x | x in ids| == |ids|
    decreases |ids|
  {
    if ids != [] {
      var rest := ids[1..];
      SortedSize(rest);
      assert (set x | x in ids) == (set x | x in rest) + {ids[0]};
    }
  }

  lemma {:induction false} SubsetSize(a: set<int>, b: set<int>)
    requires a <= b
    ensures |a| <= |b|
    decreases |a|
  {
    if exists x :: x in a {
      var x :| x in a;
      SubsetSize(a - {x}, b - {x});
    }
  }

  // ---- the table as the set of waiting pairs ----

  function PairsOf(rows: Rows): Database.Pending {
    set id | id in rows && !rows[id].completed :: (rows[id].user, rows[id].action)
  }

  // The pairs of the named rows that still wait.
  function PairsHeld(rows: Rows, ids: seq<int>): Database.Pending {
    set id | id in ids && id in rows && !rows[id].completed :: (rows[id].user, rows[id].action)
  }

  // The unique index on uncompleted rows.
  ghost predicate UniquePairs(rows: Rows) {
    forall a, b :: a in rows && b in rows && a != b && !rows[a].completed && !rows[b].completed ==>
      (rows[a].user, rows[a].action) != (rows[b].user, rows[b].action)
  }

  ghost predicate Indexed(t: Table) {
    (forall id :: id in t.rows ==> 0 < id < t.nextId) && UniquePairs(t.rows)
  }

  // A new row for a pair that does not wait yet.
  lemma RowAddsPair(rows: Rows, id: int, user: int, action: Database.Action, at: Time)
    requires UniquePairs(rows) && id !in rows && !Waiting(rows, user, action)
    ensures var rows' := rows[id := Row(user, action, 0, at, false)];
            UniquePairs(rows') && PairsOf(rows') == PairsOf(rows) + {(user, action)}
  {
    var rows' := rows[id := Row(user, action, 0, at, false)];
    forall p ensures p in PairsOf(rows') <==> p in PairsOf(rows) + {(user, action)} {
      if p in PairsOf(rows) {
        var other :| other in rows && !rows[other].completed && p == (rows[other].user, rows[other].action);
        assert rows'[other] == rows[other];
      }
      assert rows'[id].user == user;
    }
  }

  lemma WaitingIsInPairs(rows: Rows, user: int, action: Database.Action)
    ensures Waiting(rows, user, action) <==> (user, action) in PairsOf(rows)
  {
  }

  /** Enqueueing keeps the index and adds its pair to the waiting set: on that
      set it is a union. */
  lemma EnqueueIsUnion(t: Table, user: int, action: Database.Action, at: Time)
    requires Indexed(t) && t.nextId > 0
    ensures Indexed(Inserted(t, user, action, at))
    ensures PairsOf(Inserted(t, user, action, at).rows) == PairsOf(t.rows) + {(user, action)}
  {
    WaitingIsInPairs(t.rows, user, action);
    if !Waiting(t.rows, user, action) {
      RowAddsPair(t.rows, t.nextId, user, action, at);
    }
  }

  /** Completing rows removes exactly their pairs from the waiting set. */
  lemma CompleteIsDifference(rows: Rows, ids: seq<int>)
    requires UniquePairs(rows)
    ensures UniquePairs(Done(rows, ids)) && PairsHeld(Done(rows, ids), ids) == {}
    ensures PairsOf(Done(rows, ids)) == PairsOf(rows) - PairsHeld(rows, ids)
  {
    var rows' := Done(rows, ids);
    forall p ensures p in PairsOf(rows') <==> p in PairsOf(rows) - PairsHeld(rows, ids) {
      if p in PairsOf(rows) {
        var id :| id in rows && !rows[id].completed && p == (rows[id].user, rows[id].action);
        if id !in ids {
          assert rows'[id] == rows[id];
        }
      }
      if p in PairsOf(rows') {
        var id :| id in rows' && !rows'[id].completed && p == (rows'[id].user, rows'[id].action);
        assert rows[id] == rows'[id];
      }
    }
  }

  /** Leases and retries move times only. */
  lemma LeasesKeepPairs(rows: Rows, ids: seq<int>, id: int, until: Time)
    ensures PairsOf(Leased(rows, ids, until)) == PairsOf(rows) && PairsOf(Postponed(rows, id, until)) == PairsOf(rows)
  {
    var leased, postponed := Leased(rows, ids, until), Postponed(rows, id, until);
    forall k | k in rows
      ensures leased[k].completed == postponed[k].completed == rows[k].completed
      ensures leased[k].user == postponed[k].user == rows[k].user
      ensures leased[k].action == postponed[k].action == rows[k].action
    {
    }
    forall p ensures p in PairsOf(leased) <==> p in PairsOf(rows) {
      if p in PairsOf(rows) {
        var k :| k in rows && !rows[k].completed && p == (rows[k].user, rows[k].action);
        assert !leased[k].completed;
      }
    }
    forall p ensures p in PairsOf(postponed) <==> p in PairsOf(rows) {
      if p in PairsOf(rows) {
        var k :| k in rows && !rows[k].completed && p == (rows[k].user, rows[k].action);
        assert !postponed[k].completed;
      }
    }
  }

  /** No planned row is claimed while a due revocation is left out, and of one
      kind none before another that has been due longer. */
  lemma RevocationsComeFirst(rows: Rows, now: Time, limit: nat, ids: seq<int>, taken: int, left: int)
    requires IsSelection(rows, now, limit, ids) && taken in ids && Due(rows, left, now) && left !in ids
    ensures taken in rows && (rows[left].action == Database.Revoke ==> rows[taken].action == Database.Revoke)
    ensures rows[taken].action == rows[left].action ==> rows[taken].availableAt <= rows[left].availableAt
  {
    assert Before(rows, taken, left);
  }

  /** Of a claim that was not full, nothing due is left out. */
  lemma ShortClaimTakesAll(rows: Rows, now: Time, limit: nat, ids: seq<int>, id: int)
    requires IsSelection(rows, now, limit, ids) && |ids| < limit
    ensures Due(rows, id, now) <==> id in ids
  {
  }

  /** A row that is enqueued can be claimed from its instant on, and has not
      been tried yet; one that waits already is left alone. */
  lemma EnqueuedIsDue(t: Table, user: int, action: Database.Action, at: Time, now: Time)
    requires t.nextId !in t.rows
    ensures var t' := Inserted(t, user, action, at);
            if (user, action) in PairsOf(t.rows) then t' == t
            else
              && (Due(t'.rows, t.nextId, now) <==> at <= now) && t'.rows[t.nextId].attempts == 0
              && forall id :: id in t.rows ==> id in t'.rows && t'.rows[id] == t.rows[id]
  {
    WaitingIsInPairs(t.rows, user, action);
  }
}
