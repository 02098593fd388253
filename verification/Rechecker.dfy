/** One recheck of all known users, page by page. */
module Rechecker {
  import opened Basics

  datatype Decision = Eligible | Ineligible | Indeterminate | Unknown

  // Why a decision could not be made; both reasons can hold at once.
  datatype Evaluation = Evaluation(decision: Decision, temporary: bool, membership: bool)

  datatype Summary = Summary(
    checked: nat, eligible: nat, ineligible: nat, indeterminate: nat, revocations: nat,
    temporary: nat, membership: nat, unclassified: nat)

  const NOTHING := Summary(0, 0, 0, 0, 0, 0, 0, 0)

  // The page the provider answers for a cursor, the evaluation of a user, and
  // whether writing the decision revokes; Err is a failed call.
  type Pages = int -> Result<seq<Int64>, ()>
  type Evaluator = Int64 -> Result<Evaluation, ()>
  type Writer = (Int64, Decision) -> Result<bool, ()>

  // A write that was made: whose, and which decision.
  type Written = (Int64, Decision)

  predicate Increasing(ids: seq<Int64>) {
    forall i, j :: 0 <= i < j < |ids| ==> ids[i] < ids[j]
  }

  predicate ValidPage(ids: seq<Int64>, after: int, limit: nat) {
    |ids| <= limit && Increasing(ids) && (ids != [] ==> after < ids[0])
  }

  method ValidateKnownUserPage(ids: seq<Int64>, after: int, limit: nat) returns (ok: bool)
    ensures ok <==> ValidPage(ids, after, limit)
  {
    if |ids| > limit {
      return false;
    }
    var previous := after;
    for k := 0 to |ids|
      invariant Increasing(ids[..k]) && (k > 0 ==> after < ids[0])
      invariant previous == if k == 0 then after else ids[k - 1]
    {
      if ids[k] <= previous {
        return false;
      }
      previous := ids[k];
    }
    return true;
  }

  // ---- what a recheck of some users amounts to ----

  predicate Decides(decision: Decision) {
    decision.Eligible? || decision.Ineligible?
  }

  // Every call for the user works and says something valid.
  predicate Works(evaluate: Evaluator, write: Writer, id: Int64) {
    && evaluate(id).Ok? && !evaluate(id).value.decision.Unknown?
    && (Decides(evaluate(id).value.decision) ==> write(id, evaluate(id).value.decision).Ok?)
  }

  predicate AllWork(evaluate: Evaluator, write: Writer, ids: seq<Int64>) {
    forall i :: 0 <= i < |ids| ==> Works(evaluate, write, ids[i])
  }

  // The users whose decision is written, with the decision.
  function Decided(evaluate: Evaluator, ids: seq<Int64>): seq<Written> {
    if ids == [] then []
    else
      var before, id := Decided(evaluate, ids[..|ids| - 1]), ids[|ids| - 1];
      if evaluate(id).Ok? && Decides(evaluate(id).value.decision) then before + [(id, evaluate(id).value.decision)]
      else before
  }

  function Counted(s: Summary, e: Evaluation, revoked: bool): Summary {
    var t := s.(checked := s.checked + 1);
    match e.decision
    case Eligible => t.(eligible := t.eligible + 1, revocations := t.revocations + if revoked then 1 else 0)
    case Ineligible => t.(ineligible := t.ineligible + 1, revocations := t.revocations + if revoked then 1 else 0)
    case Indeterminate =>
      t.(indeterminate := t.indeterminate + 1,
         temporary := t.temporary + if e.temporary then 1 else 0,
         membership := t.membership + if e.membership then 1 else 0,
         unclassified := t.unclassified + if e.temporary || e.membership then 0 else 1)
    case Unknown => t
  }

  function SummaryOf(evaluate: Evaluator, write: Writer, ids: seq<Int64>): Summary
    requires AllWork(evaluate, write, ids)
  {
    if ids == [] then NOTHING
    else
      var id := ids[|ids| - 1];
      var e := evaluate(id).value;
      Counted(SummaryOf(evaluate, write, ids[..|ids| - 1]), e, Decides(e.decision) && write(id, e.decision).value)
  }

  // How many of the users have an id up to the cursor.
  function UpTo(users: seq<Int64>, after: int): (k: nat)
    ensures k <= |users|
    ensures Increasing(users) ==> forall i :: 0 <= i < |users| ==> (users[i] <= after <==> i < k)
  {
    if users == [] then 0
    else if users[|users| - 1] <= after then |users|
    else UpTo(users[..|users| - 1], after)
  }

  function PageAfter(users: seq<Int64>, after: int, limit: nat): seq<Int64> {
    var k := UpTo(users, after);
    if k + limit <= |users| then users[k..k + limit] else users[k..]
  }

  // The provider lists a fixed set of users.
  ghost predicate Lists(pages: Pages, users: seq<Int64>, limit: nat) {
    forall after: int :: pages(after) == Ok(PageAfter(users, after, limit))
  }

  datatype Ended = Finished | Unreported | Failed

  class Rechecker {
    const batchSize: nat

    // Pages hold 10 to 200 users.
    static method New(batchSize: int) returns (rechecker: Option<Rechecker>)
      ensures rechecker.Some? <==> 10 <= batchSize <= 200
      ensures rechecker.Some? ==> rechecker.value.batchSize == batchSize
    {
      if batchSize < 10 || batchSize > 200 {
        return None;
      }
      var r := new Rechecker(batchSize);
      return Some(r);
    }

    constructor (batchSize: nat)
      ensures this.batchSize == batchSize
    {
      this.batchSize := batchSize;
    }

    /** Whatever the provider answers, users are evaluated in ascending order and
        never twice. When it lists a fixed set of users, the recheck succeeds
        exactly when every call for them works, and then every user was
        evaluated once, exactly the decided ones were written, and the summary
        counts them. When it fails, exactly the users before the first whose
        calls do not work are done, and that one is evaluated if it could be. */
    method RunOnce(pages: Pages, evaluate: Evaluator, write: Writer, reports: bool, ghost users: seq<Int64>)
      returns (summary: Summary, evaluated: seq<Int64>, written: seq<Written>, ended: Ended)
      requires batchSize > 0
      ensures Increasing(evaluated) && forall i :: 0 <= i < |evaluated| ==> evaluated[i] > 0
      ensures ended != Failed ==>
                Tallied(evaluate, write, summary, evaluated, written) && (ended == Finished <==> reports)
      ensures ended == Failed ==> Abandoned(evaluate, write, summary, evaluated, written)
      ensures Known(users) && Lists(pages, users, batchSize) ==>
                && (ended != Failed <==> AllWork(evaluate, write, users))
                && WorkedThrough(evaluate, write, users, summary, evaluated, written)
    {
      summary, evaluated, written := NOTHING, [], [];
      var after := 0;
      NobodyIsUpToZero(users);
      StartsTallied(evaluate, write);
      hide Tallied, Abandoned, Lists, AllWork, WorkedThrough;
      while true
        invariant 0 <= after <= MAX_INT64
        invariant Increasing(evaluated) && forall i :: 0 <= i < |evaluated| ==> 0 < evaluated[i] <= after
        invariant Tallied(evaluate, write, summary, evaluated, written)
        invariant Known(users) && Lists(pages, users, batchSize) ==> evaluated == users[..UpTo(users, after)]
        decreases MAX_INT64 - after
      {
        var page := pages(after);
        ghost var listed := Known(users) && Lists(pages, users, batchSize);
        if listed {
          ListedPage(pages, users, batchSize, after);
        }
        if page.Err? {
          FailsBetween(evaluate, write, summary, evaluated, written);
          return summary, evaluated, written, Failed;
        }
        var ids := page.value;
        var valid := ValidateKnownUserPage(ids, after, batchSize);
        if !valid {
          FailsBetween(evaluate, write, summary, evaluated, written);
          return summary, evaluated, written, Failed;
        }
        ghost var before := evaluated;
        var ok;
        summary, evaluated, written, ok := CheckPage(ids, evaluate, write, summary, evaluated, written);
        if !ok {
          StoppedIsAbandoned(evaluate, write, before + ids, summary, evaluated, written);
          StoppedIsAscending(evaluate, write, before + ids, summary, evaluated, written);
          if listed {
            FailureShows(evaluate, write, before + ids, users);
            SameFirstNotWorking(evaluate, write, before + ids, users, summary, evaluated, written);
          }
          return summary, evaluated, written, Failed;
        }
        AllWorkedThrough(evaluate, write, before + ids, summary, evaluated, written);
        if |ids| < batchSize {
          break;
        }
        after := ids[|ids| - 1];
      }
      TalliedIsThrough(evaluate, write, summary, evaluated, written);
      ended := if reports then Finished else Unreported;
    }

    // The users of one page, on top of those before: exactly up to the first
    // whose calls do not work.
    method CheckPage(ids: seq<Int64>, evaluate: Evaluator, write: Writer,
                     summary0: Summary, evaluated0: seq<Int64>, written0: seq<Written>)
      returns (summary: Summary, evaluated: seq<Int64>, written: seq<Written>, ok: bool)
      requires Tallied(evaluate, write, summary0, evaluated0, written0)
      ensures ok <==> AllWork(evaluate, write, evaluated0 + ids)
      ensures WorkedThrough(evaluate, write, evaluated0 + ids, summary, evaluated, written)
    {
      hide WorkedThrough, Tallied, Works;
      summary, evaluated, written := summary0, evaluated0, written0;
      for k := 0 to |ids|
        invariant evaluated == evaluated0 + ids[..k] && Tallied(evaluate, write, summary, evaluated, written)
      {
        ghost var all, n, before := evaluated0 + ids, |evaluated|, summary;
        assert all[..n] == evaluated && all[..n + 1] == evaluated + [all[n]] && all[n] == ids[k];
        TalliedParts(evaluate, write, summary, evaluated, written);
        var works;
        summary, evaluated, written, works := CheckUser(ids[k], evaluate, write, summary, evaluated, written);
        if !works {
          StopsAt(evaluate, write, all, n, summary, evaluated, written);
          return summary, evaluated, written, false;
        }
      }
      ok := true;
      assert evaluated0 + ids[..|ids|] == evaluated0 + ids;
      TalliedIsThrough(evaluate, write, summary, evaluated, written);
    }

    // One user: evaluated, counted, and written if decided.
    method CheckUser(id: Int64, evaluate: Evaluator, write: Writer,
                     summary0: Summary, evaluated0: seq<Int64>, written0: seq<Written>)
      returns (summary: Summary, evaluated: seq<Int64>, written: seq<Written>, works: bool)
      requires Tallied(evaluate, write, summary0, evaluated0, written0)
      ensures works <==> Works(evaluate, write, id)
      ensures works ==> evaluated == evaluated0 + [id] && Tallied(evaluate, write, summary, evaluated, written)
      ensures !works ==>
                && written == written0
                && if evaluate(id).Ok? then
                     evaluated == evaluated0 + [id] && summary == Counted(summary0, evaluate(id).value, false)
                   else evaluated == evaluated0 && summary == summary0
    {
      summary, evaluated, written, works := summary0, evaluated0, written0, false;
      var evaluation := evaluate(id);
      if evaluation.Err? {
        return;
      }
      assert (evaluated0 + [id])[..|evaluated0|] == evaluated0;
      evaluated := evaluated0 + [id];
      var decision := evaluation.value.decision;
      summary := Counted(summary0, evaluation.value, false);
      if decision.Unknown? {
        return;
      }
      if decision.Indeterminate? {
        works := true;
        return;
      }
      var change := write(id, decision);
      if change.Err? {
        return;
      }
      written := written + [(id, decision)];
      summary := Counted(summary0, evaluation.value, change.value);
      works := true;
    }
  }

  // The first user whose calls do not all work, or the end of the list.
  function FirstNotWorking(evaluate: Evaluator, write: Writer, ids: seq<Int64>): (k: nat)
    ensures k <= |ids| && forall i :: 0 <= i < k ==> Works(evaluate, write, ids[i])
    ensures k < |ids| ==> !Works(evaluate, write, ids[k])
  {
    if ids == [] || !Works(evaluate, write, ids[0]) then 0 else 1 + FirstNotWorking(evaluate, write, ids[1..])
  }

  // Exactly the users before the first not working are done, and that one is
  // evaluated and counted if its evaluation succeeded.
  ghost predicate WorkedThrough(evaluate: Evaluator, write: Writer, ids: seq<Int64>,
                                summary: Summary, evaluated: seq<Int64>, written: seq<Written>)
  {
    var k := FirstNotWorking(evaluate, write, ids);
    var done := ids[..k];
    && written == Decided(evaluate, done)
    && if k < |ids| && evaluate(ids[k]).Ok?
       then evaluated == ids[..k + 1]
            && summary == Counted(SummaryOf(evaluate, write, done), evaluate(ids[k]).value, false)
       else evaluated == done && summary == SummaryOf(evaluate, write, done)
  }

  lemma FirstIsUnique(evaluate: Evaluator, write: Writer, ids: seq<Int64>, k: nat)
    requires k <= |ids| && AllWork(evaluate, write, ids[..k]) && (k < |ids| ==> !Works(evaluate, write, ids[k]))
    ensures FirstNotWorking(evaluate, write, ids) == k
  {
    assert forall i :: 0 <= i < k ==> ids[..k][i] == ids[i];
  }

  lemma StopsAt(evaluate: Evaluator, write: Writer, ids: seq<Int64>, k: nat,
                summary: Summary, evaluated: seq<Int64>, written: seq<Written>)
    requires k < |ids| && !Works(evaluate, write, ids[k])
    requires AllWork(evaluate, write, ids[..k]) && written == Decided(evaluate, ids[..k])
    requires if evaluate(ids[k]).Ok?
             then evaluated == ids[..k + 1]
                  && summary == Counted(SummaryOf(evaluate, write, ids[..k]), evaluate(ids[k]).value, false)
             else evaluated == ids[..k] && summary == SummaryOf(evaluate, write, ids[..k])
    ensures WorkedThrough(evaluate, write, ids, summary, evaluated, written) && !AllWork(evaluate, write, ids)
  {
    FirstIsUnique(evaluate, write, ids, k);
  }

  lemma TalliedParts(evaluate: Evaluator, write: Writer, summary: Summary, ids: seq<Int64>, written: seq<Written>)
    requires Tallied(evaluate, write, summary, ids, written)
    ensures AllWork(evaluate, write, ids)
    ensures summary == SummaryOf(evaluate, write, ids) && written == Decided(evaluate, ids)
  {
  }

  lemma TalliedIsThrough(evaluate: Evaluator, write: Writer,
                         summary: Summary, ids: seq<Int64>, written: seq<Written>)
    requires Tallied(evaluate, write, summary, ids, written)
    ensures WorkedThrough(evaluate, write, ids, summary, ids, written) && AllWork(evaluate, write, ids)
  {
    assert ids[..|ids|] == ids;
    FirstIsUnique(evaluate, write, ids, |ids|);
  }

  lemma AllWorkedThrough(evaluate: Evaluator, write: Writer, ids: seq<Int64>,
                         summary: Summary, evaluated: seq<Int64>, written: seq<Written>)
    requires AllWork(evaluate, write, ids) && WorkedThrough(evaluate, write, ids, summary, evaluated, written)
    ensures evaluated == ids && Tallied(evaluate, write, summary, evaluated, written)
  {
    assert ids[..|ids|] == ids;
    FirstIsUnique(evaluate, write, ids, |ids|);
  }

  lemma StoppedIsAbandoned(evaluate: Evaluator, write: Writer, ids: seq<Int64>,
                           summary: Summary, evaluated: seq<Int64>, written: seq<Written>)
    requires WorkedThrough(evaluate, write, ids, summary, evaluated, written)
    ensures Abandoned(evaluate, write, summary, evaluated, written)
  {
    var k := FirstNotWorking(evaluate, write, ids);
    if k < |ids| {
      assert ids[..k + 1][..k] == ids[..k];
    }
  }

  lemma StoppedIsAscending(evaluate: Evaluator, write: Writer, ids: seq<Int64>,
                           summary: Summary, evaluated: seq<Int64>, written: seq<Written>)
    requires WorkedThrough(evaluate, write, ids, summary, evaluated, written)
    ensures evaluated <= ids
  {
  }

  // Who stops the first part of a list stops all of it.
  lemma SameFirstNotWorking(evaluate: Evaluator, write: Writer, some: seq<Int64>, all: seq<Int64>,
                            summary: Summary, evaluated: seq<Int64>, written: seq<Written>)
    requires some <= all && !AllWork(evaluate, write, some)
    requires WorkedThrough(evaluate, write, some, summary, evaluated, written)
    ensures WorkedThrough(evaluate, write, all, summary, evaluated, written)
  {
    var k := FirstNotWorking(evaluate, write, some);
    assert all[..k] == some[..k] && all[k] == some[k] && all[..k + 1] == some[..k + 1];
    FirstIsUnique(evaluate, write, all, k);
  }

  // The summary and the written users are those of the evaluated ones.
  ghost predicate Tallied(
      evaluate: Evaluator, write: Writer, summary: Summary, evaluated: seq<Int64>, written: seq<Written>)
  {
    && AllWork(evaluate, write, evaluated) && summary == SummaryOf(evaluate, write, evaluated)
    && written == Decided(evaluate, evaluated)
  }

  // The last user evaluated may have been counted but not written.
  ghost predicate Abandoned(
      evaluate: Evaluator, write: Writer, summary: Summary, evaluated: seq<Int64>, written: seq<Written>)
  {
    || Tallied(evaluate, write, summary, evaluated, written)
    || (evaluated != [] && evaluate(evaluated[|evaluated| - 1]).Ok?
        && var before, e := evaluated[..|evaluated| - 1], evaluate(evaluated[|evaluated| - 1]).value;
           AllWork(evaluate, write, before) && written == Decided(evaluate, before)
           && summary == Counted(SummaryOf(evaluate, write, before), e, false))
  }

  lemma StartsTallied(evaluate: Evaluator, write: Writer)
    ensures Tallied(evaluate, write, NOTHING, [], [])
  {
  }

  lemma FailsBetween(evaluate: Evaluator, write: Writer, summary: Summary, evaluated: seq<Int64>, written: seq<Written>)
    requires Tallied(evaluate, write, summary, evaluated, written)
    ensures Abandoned(evaluate, write, summary, evaluated, written)
  {
  }

  lemma FailureShows(evaluate: Evaluator, write: Writer, some: seq<Int64>, all: seq<Int64>)
    requires some <= all && !AllWork(evaluate, write, some)
    ensures !AllWork(evaluate, write, all)
  {
    var i :| 0 <= i < |some| && !Works(evaluate, write, some[i]);
    assert all[i] == some[i];
  }

  lemma NobodyIsUpToZero(users: seq<Int64>)
    ensures Known(users) ==> UpTo(users, 0) == 0
  {
    if Known(users) && users != [] {
      assert users[0] > 0;
    }
  }

  // A page of the listed users follows those up to the cursor, and a page that
  // is not full ends them.
  lemma ListedPage(pages: Pages, users: seq<Int64>, limit: nat, after: int)
    requires limit > 0 && Known(users) && Lists(pages, users, limit)
    ensures pages(after).Ok? && ValidPage(pages(after).value, after, limit)
    ensures var ids := pages(after).value;
            && users[..UpTo(users, after)] + ids <= users
            && (|ids| < limit ==> users[..UpTo(users, after)] + ids == users)
            && (|ids| == limit ==> users[..UpTo(users, ids[|ids| - 1])] == users[..UpTo(users, after)] + ids)
  {
    var ids, k := PageAfter(users, after, limit), UpTo(users, after);
    assert pages(after) == Ok(ids);
    if |ids| == limit {
      assert ids[|ids| - 1] == users[k + limit - 1];
      var m := k + limit - 1;
      assert m < UpTo(users, users[m]);
      assert m + 1 < |users| ==> users[m] < users[m + 1];
    }
  }

  predicate Known(users: seq<Int64>) {
    Increasing(users) && forall i :: 0 <= i < |users| ==> users[i] > 0
  }

  /** The counters partition what was checked: every user is in exactly one of
      the three classes, the decided ones are those written, every undecided one
      has a reason counted or is unclassified, and only decided ones revoke. */
  lemma {:induction false} SummaryPartitions(evaluate: Evaluator, write: Writer, ids: seq<Int64>)
    requires AllWork(evaluate, write, ids)
    ensures var s := SummaryOf(evaluate, write, ids);
            && s.checked == |ids| == s.eligible + s.ineligible + s.indeterminate
            && s.eligible + s.ineligible == |Decided(evaluate, ids)|
            && s.temporary <= s.indeterminate && s.membership <= s.indeterminate
            && s.temporary + s.unclassified <= s.indeterminate && s.membership + s.unclassified <= s.indeterminate
            && s.indeterminate <= s.temporary + s.membership + s.unclassified
            && s.revocations <= s.eligible + s.ineligible
    decreases |ids|
  {
    if ids != [] {
      SummaryPartitions(evaluate, write, ids[..|ids| - 1]);
    }
  }

  // What a counter of the summary counts.
  datatype Class = Found(decision: Decision) | Temporary | Membership | Unclassified | Revoking

  predicate InClass(evaluate: Evaluator, write: Writer, id: Int64, class_: Class) {
    evaluate(id).Ok?
    && var e := evaluate(id).value;
       match class_
       case Found(d) => e.decision == d
       case Temporary => e.decision.Indeterminate? && e.temporary
       case Membership => e.decision.Indeterminate? && e.membership
       case Unclassified => e.decision.Indeterminate? && !e.temporary && !e.membership
       case Revoking => Decides(e.decision) && write(id, e.decision) == Ok(true)
  }

  ghost function Members(evaluate: Evaluator, write: Writer, ids: seq<Int64>, class_: Class): set<nat> {
    set i: nat | i < |ids| && InClass(evaluate, write, ids[i], class_)
  }

  function Counter(s: Summary, class_: Class): nat {
    match class_
    case Found(Eligible) => s.eligible
    case Found(Ineligible) => s.ineligible
    case Found(Indeterminate) => s.indeterminate
    case Found(Unknown) => 0
    case Temporary => s.temporary
    case Membership => s.membership
    case Unclassified => s.unclassified
    case Revoking => s.revocations
  }

  lemma MembersSnoc(evaluate: Evaluator, write: Writer, ids: seq<Int64>, class_: Class)
    requires ids != []
    ensures |Members(evaluate, write, ids, class_)|
         == |Members(evaluate, write, ids[..|ids| - 1], class_)|
            + if InClass(evaluate, write, ids[|ids| - 1], class_) then 1 else 0
  {
    hide InClass;
    var last := |ids| - 1;
    var before, after := Members(evaluate, write, ids[..last], class_), Members(evaluate, write, ids, class_);
    forall i: nat ensures i in after <==> i in before || (i == last && InClass(evaluate, write, ids[last], class_)) {
      assert i < last ==> ids[..last][i] == ids[i];
    }
    hide Members;
    assert last !in before by {
      MembersAreIndices(evaluate, write, ids[..last], class_);
    }
    assert after == if InClass(evaluate, write, ids[last], class_) then before + {last} else before;
  }

  lemma MembersAreIndices(evaluate: Evaluator, write: Writer, ids: seq<Int64>, class_: Class)
    ensures forall i :: i in Members(evaluate, write, ids, class_) ==> i < |ids|
  {
  }

  /** Each counter is the number of users it is named after. */
  lemma {:induction false} SummaryCounts(evaluate: Evaluator, write: Writer, ids: seq<Int64>, class_: Class)
    requires AllWork(evaluate, write, ids)
    ensures Counter(SummaryOf(evaluate, write, ids), class_) == |Members(evaluate, write, ids, class_)|
    decreases |ids|
  {
    if ids == [] {
      assert Members(evaluate, write, ids, class_) == {};
    } else {
      SummaryCounts(evaluate, write, ids[..|ids| - 1], class_);
      MembersSnoc(evaluate, write, ids, class_);
      assert Works(evaluate, write, ids[|ids| - 1]);
      hide Members;
    }
  }

  /** Written are exactly the users found eligible or ineligible, each with the
      decision that was found, and nobody else. */
  lemma {:induction false} DecidedExactly(evaluate: Evaluator, ids: seq<Int64>, w: Written)
    ensures w in Decided(evaluate, ids)
            <==> w.0 in ids && evaluate(w.0).Ok? && evaluate(w.0).value.decision == w.1
                 && w.1 in {Eligible, Ineligible}
    decreases |ids|
  {
    if ids != [] {
      DecidedExactly(evaluate, ids[..|ids| - 1], w);
      assert ids == ids[..|ids| - 1] + [ids[|ids| - 1]];
    }
  }
}
