/** The polling loop: every update is completed once, in order, however often
    its handlers fail. */
module TelegramRunner {
  import opened Basics

  // Which parts of an update the runner has a handler for.
  datatype Update = Update(id: int, callback: bool, membership: bool, message: bool)

  // After a failure the loop waits and polls again, unless the program is
  // stopping or the wait itself fails.
  datatype Pause = Resumes | Stops | Breaks

  // How the handlers of one update fare: None for success.
  datatype Handled = Handled(callback: Option<Pause>, membership: Option<Pause>)

  datatype Poll =
    | Stopping
    | Unanswered(pause: Pause)
    | Answered(count: nat, handled: int -> Handled)

  // What the runner did about an update, in order; a handler that fails leaves
  // its attempt behind, and nothing more.
  datatype Event =
    | CallbackTried(id: int)
    | CallbackDone(id: int)
    | MembershipTried(id: int)
    | MembershipDone(id: int)
    | MessageDone(id: int)
    | Completed(id: int)

  datatype End = Clean | WaitFailed | Running

  function EndOf(pause: Pause): End {
    match pause
    case Resumes => Running
    case Stops => Clean
    case Breaks => WaitFailed
  }

  predicate Ascending(updates: seq<Update>) {
    forall i, j :: 0 <= i < j < |updates| ==> updates[i].id < updates[j].id
  }

  // The first updates at or above the offset.
  function From(queue: seq<Update>, offset: int): (k: nat)
    ensures k <= |queue|
    ensures Ascending(queue) ==> forall i :: 0 <= i < |queue| ==> (queue[i].id < offset <==> i < k)
  {
    if queue == [] then 0
    else if queue[|queue| - 1].id < offset then |queue|
    else From(queue[..|queue| - 1], offset)
  }

  // What the source answers: at most `count` updates from the offset on, with
  // none left out between.
  function GetUpdates(queue: seq<Update>, offset: int, count: nat): seq<Update> {
    Page(queue, From(queue, offset), count)
  }

  // ---- what polls do, by how many updates are completed ----

  // The failure that ends the work on an update, if one does.
  function Failure(u: Update, h: Handled): Option<Pause> {
    if u.callback && h.callback.Some? then h.callback
    else if u.membership then h.membership
    else None
  }

  function CallbackLog(u: Update, h: Handled): seq<Event> {
    if !u.callback then []
    else if h.callback.Some? then [CallbackTried(u.id)]
    else [CallbackTried(u.id), CallbackDone(u.id)]
  }

  function MembershipLog(u: Update, h: Handled): seq<Event> {
    if !u.membership then []
    else if h.membership.Some? then [MembershipTried(u.id)]
    else [MembershipTried(u.id), MembershipDone(u.id)]
  }

  // The parts of an update in their order, up to the first that fails.
  function UpdateLog(u: Update, h: Handled): seq<Event> {
    if u.callback && h.callback.Some? then CallbackLog(u, h)
    else if u.membership && h.membership.Some? then CallbackLog(u, h) + MembershipLog(u, h)
    else CallbackLog(u, h) + MembershipLog(u, h) + (if u.message then [MessageDone(u.id)] else []) + [Completed(u.id)]
  }

  // The first update with a handler that fails, or the end of the batch.
  function FirstFailing(updates: seq<Update>, handled: int -> Handled): (k: nat)
    ensures k <= |updates|
    ensures forall i :: 0 <= i < k ==> Failure(updates[i], handled(updates[i].id)).None?
    ensures k < |updates| ==> Failure(updates[k], handled(updates[k].id)).Some?
  {
    if updates == [] || Failure(updates[0], handled(updates[0].id)).Some? then 0
    else 1 + FirstFailing(updates[1..], handled)
  }

  function BatchLog(updates: seq<Update>, handled: int -> Handled): seq<Event> {
    if updates == [] then []
    else
      var u := updates[0];
      var h := handled(u.id);
      if Failure(u, h).Some? then UpdateLog(u, h) else UpdateLog(u, h) + BatchLog(updates[1..], handled)
  }

  function BatchEnd(updates: seq<Update>, handled: int -> Handled): End {
    var k := FirstFailing(updates, handled);
    if k == |updates| then Running else EndOf(Failure(updates[k], handled(updates[k].id)).value)
  }

  // The batch after the first k updates.
  function Page(queue: seq<Update>, k: nat, count: nat): (updates: seq<Update>)
    requires k <= |queue|
    ensures k + |updates| <= |queue| && updates == queue[k..k + |updates|]
    ensures count > 0 && k < |queue| ==> |updates| > 0
  {
    if k + count <= |queue| then queue[k..k + count] else queue[k..]
  }

  function PollLog(queue: seq<Update>, k: nat, poll: Poll): seq<Event>
    requires k <= |queue|
  {
    if poll.Answered? then BatchLog(Page(queue, k, poll.count), poll.handled) else []
  }

  function PollNext(queue: seq<Update>, k: nat, poll: Poll): (k': nat)
    requires k <= |queue|
    ensures k <= k' <= |queue|
  {
    if poll.Answered? then k + FirstFailing(Page(queue, k, poll.count), poll.handled) else k
  }

  function PollEnd(queue: seq<Update>, k: nat, poll: Poll): End
    requires k <= |queue|
  {
    match poll
    case Stopping => Clean
    case Unanswered(pause) => EndOf(pause)
    case Answered(count, handled) => BatchEnd(Page(queue, k, count), handled)
  }

  // What a script of polls does from the first k updates on.
  datatype Outcome = Outcome(done: nat, log: seq<Event>, end: End)

  function RunOf(queue: seq<Update>, k: nat, script: seq<Poll>): (o: Outcome)
    requires k <= |queue|
    ensures k <= o.done <= |queue|
    decreases |script|
  {
    if script == [] then Outcome(k, [], Running)
    else
      var k', events := PollNext(queue, k, script[0]), PollLog(queue, k, script[0]);
      if PollEnd(queue, k, script[0]) != Running then Outcome(k', events, PollEnd(queue, k, script[0]))
      else
        var rest := RunOf(queue, k', script[1..]);
        rest.(log := events + rest.log)
  }

  // ---- what a log says ----

  function CompletedIn(log: seq<Event>): (ids: seq<int>) {
    if log == [] then []
    else
      var before, e := CompletedIn(log[..|log| - 1]), log[|log| - 1];
      if e.Completed? then before + [e.id] else before
  }

  function Ids(updates: seq<Update>): (ids: seq<int>)
    ensures |ids| == |updates| && forall i :: 0 <= i < |ids| ==> ids[i] == updates[i].id
  {
    if updates == [] then [] else Ids(updates[..|updates| - 1]) + [updates[|updates| - 1].id]
  }

  // The k-th update is only worked on while exactly those before it are done.
  ghost predicate InTurn(queue: seq<Update>, log: seq<Event>) {
    forall p :: 0 <= p < |log| ==>
      var done := CompletedIn(log[..p]);
      && |done| < |queue| && done == Ids(queue[..|done|]) && log[p].id == queue[|done|].id
  }

  // How often an update's message was handled.
  function Messages(log: seq<Event>, id: int): nat {
    if log == [] then 0
    else Messages(log[..|log| - 1], id) + if log[|log| - 1] == MessageDone(id) then 1 else 0
  }

  // The messages of exactly the first k updates have been handled, once each.
  ghost predicate MessagesOnce(queue: seq<Update>, log: seq<Event>, k: nat) {
    forall i :: 0 <= i < |queue| ==> Messages(log, queue[i].id) == (if i < k && queue[i].message then 1 else 0)
  }

  // Exactly the first k updates are completed, each in its turn.
  ghost predicate Progress(queue: seq<Update>, log: seq<Event>, k: nat) {
    k <= |queue| && CompletedIn(log) == Ids(queue[..k]) && InTurn(queue, log)
  }

  lemma Logs(queue: seq<Update>, log: seq<Event>, k: nat, e: Event)
    requires Progress(queue, log, k) && k < |queue| && e.id == queue[k].id
    ensures Progress(queue, log + [e], if e.Completed? then k + 1 else k)
    ensures !e.MessageDone? && MessagesOnce(queue, log, k) ==> MessagesOnce(queue, log + [e], k)
  {
    var log' := log + [e];
    assert log'[..|log|] == log;
    assert queue[..k + 1] == queue[..k] + [queue[k]];
    forall p | 0 <= p < |log'|
      ensures var done := CompletedIn(log'[..p]);
              |done| < |queue| && done == Ids(queue[..|done|]) && log'[p].id == queue[|done|].id
    {
      if p < |log| {
        assert log'[..p] == log[..p];
      }
    }
  }

  lemma MessageLogs(queue: seq<Update>, log: seq<Event>, k: nat)
    requires Ascending(queue) && k < |queue| && queue[k].message && MessagesOnce(queue, log, k)
    ensures MessagesOnce(queue, log + [MessageDone(queue[k].id)], k + 1)
  {
    assert (log + [MessageDone(queue[k].id)])[..|log|] == log;
  }

  lemma NoMessage(queue: seq<Update>, log: seq<Event>, k: nat)
    requires k < |queue| && !queue[k].message && MessagesOnce(queue, log, k)
    ensures MessagesOnce(queue, log, k + 1)
  {
  }

  lemma CompletionLogs(queue: seq<Update>, log: seq<Event>, k: nat, id: int)
    requires MessagesOnce(queue, log, k)
    ensures MessagesOnce(queue, log + [Completed(id)], k)
  {
    assert (log + [Completed(id)])[..|log|] == log;
  }

  lemma OffsetMoves(queue: seq<Update>, offset: int)
    requires Ascending(queue) && From(queue, offset) < |queue|
    ensures queue[From(queue, offset)].id >= offset
    ensures From(queue, queue[From(queue, offset)].id + 1) == From(queue, offset) + 1
  {
    var k := From(queue, offset);
    var next := From(queue, queue[k].id + 1);
    assert k < next;
    if k + 1 < |queue| {
      assert queue[k].id < queue[k + 1].id;
    }
  }

  /** The loop does exactly what the script says, and, over any script, in
      order: each update is completed exactly once, its message is handled
      exactly once, and nothing of an update is even tried before all lower ones
      are completed, however often handlers fail. */
  method Run(queue: seq<Update>, script: seq<Poll>) returns (offset: int, log: seq<Event>, end: End)
    requires Ascending(queue) && forall i :: 0 <= i < |queue| ==> queue[i].id >= 0
    ensures Outcome(From(queue, offset), log, end) == RunOf(queue, 0, script)
    ensures Progress(queue, log, From(queue, offset)) && MessagesOnce(queue, log, From(queue, offset))
  {
    offset, log, end := 0, [], Running;
    BeforeAnything(queue);
    hide Progress, MessagesOnce, From, Ascending, PollLog, PollNext, PollEnd;
    for n := 0 to |script|
      invariant end == Running
      invariant Progress(queue, log, From(queue, offset)) && MessagesOnce(queue, log, From(queue, offset))
      invariant RunOf(queue, 0, script) == After(log, RunOf(queue, From(queue, offset), script[n..]))
    {
      ghost var k, before := From(queue, offset), log;
      offset, log, end := PollOnce(queue, script[n], offset, log);
      RunUnfolds(queue, k, script[n..], before);
      assert script[n..][1..] == script[n + 1..];
      if end != Running {
        return;
      }
    }
  }

  // An outcome with more before it.
  function After(log: seq<Event>, o: Outcome): Outcome {
    o.(log := log + o.log)
  }

  lemma RunUnfolds(queue: seq<Update>, k: nat, script: seq<Poll>, log: seq<Event>)
    requires k <= |queue| && script != []
    ensures var log' := log + PollLog(queue, k, script[0]);
            After(log, RunOf(queue, k, script))
            == if PollEnd(queue, k, script[0]) != Running
               then Outcome(PollNext(queue, k, script[0]), log', PollEnd(queue, k, script[0]))
               else After(log', RunOf(queue, PollNext(queue, k, script[0]), script[1..]))
  {
    hide PollLog, PollNext, PollEnd;
  }

  method PollOnce(queue: seq<Update>, poll: Poll, start: int, before: seq<Event>)
    returns (offset: int, log: seq<Event>, end: End)
    requires Ascending(queue)
    requires Progress(queue, before, From(queue, start)) && MessagesOnce(queue, before, From(queue, start))
    ensures Progress(queue, log, From(queue, offset)) && MessagesOnce(queue, log, From(queue, offset))
    ensures log == before + PollLog(queue, From(queue, start), poll)
    ensures From(queue, offset) == PollNext(queue, From(queue, start), poll)
    ensures end == PollEnd(queue, From(queue, start), poll)
  {
    hide Progress, MessagesOnce, From, Ascending;
    offset, log := start, before;
    match poll {
      case Stopping =>
        end := Clean;
      case Unanswered(pause) =>
        end := EndOf(pause);
      case Answered(count, handled) =>
        var updates := GetUpdates(queue, offset, count);
        offset, log, end := HandleAll(queue, updates, handled, offset, log);
    }
  }

  /** One batch is left at the first update with a handler that fails: exactly
      the updates before it are completed, exactly its parts before the failure
      are done and its failing one tried, nothing after it is touched, and the
      loop goes on as that failure says. */
  method HandleAll(queue: seq<Update>, updates: seq<Update>, handled: int -> Handled, start: int, before: seq<Event>)
    returns (offset: int, log: seq<Event>, end: End)
    requires Ascending(queue) && From(queue, start) + |updates| <= |queue|
    requires updates == queue[From(queue, start)..From(queue, start) + |updates|]
    requires Progress(queue, before, From(queue, start)) && MessagesOnce(queue, before, From(queue, start))
    ensures Progress(queue, log, From(queue, offset)) && MessagesOnce(queue, log, From(queue, offset))
    ensures log == before + BatchLog(updates, handled)
    ensures From(queue, offset) == From(queue, start) + FirstFailing(updates, handled)
    ensures end == BatchEnd(updates, handled)
  {
    hide Progress, MessagesOnce, Ascending, From, UpdateLog, Failure, BatchLog, FirstFailing;
    offset, log, end := start, before, Running;
    BatchStops(updates[|updates|..], handled);
    assert updates[0..] == updates;
    for j := 0 to |updates|
      invariant end == Running
      invariant From(queue, offset) == From(queue, start) + j
      invariant Progress(queue, log, From(queue, offset)) && MessagesOnce(queue, log, From(queue, offset))
      invariant before + BatchLog(updates, handled) == log + BatchLog(updates[j..], handled)
      invariant FirstFailing(updates, handled) == j + FirstFailing(updates[j..], handled)
    {
      var u := updates[j];
      var failure;
      BatchUnfolds(updates, handled, j, log);
      log, failure := HandleUpdate(queue, From(queue, offset), handled(u.id), log);
      if failure.Some? {
        end := EndOf(failure.value);
        return;
      }
      OffsetMoves(queue, offset);
      if u.id >= offset {
        offset := u.id + 1;
      }
    }
  }

  lemma BatchUnfolds(updates: seq<Update>, handled: int -> Handled, j: nat, log: seq<Event>)
    requires j < |updates|
    ensures var u := updates[j];
            var log' := log + UpdateLog(u, handled(u.id));
            if Failure(u, handled(u.id)).Some? then
              log + BatchLog(updates[j..], handled) == log' && FirstFailing(updates[j..], handled) == 0
            else
              && log + BatchLog(updates[j..], handled) == log' + BatchLog(updates[j + 1..], handled)
              && FirstFailing(updates[j..], handled) == 1 + FirstFailing(updates[j + 1..], handled)
  {
    hide UpdateLog, Failure;
    var rest := updates[j..];
    assert rest[0] == updates[j] && rest[1..] == updates[j + 1..];
  }

  lemma BatchStops(updates: seq<Update>, handled: int -> Handled)
    requires updates == []
    ensures BatchLog(updates, handled) == [] && FirstFailing(updates, handled) == 0
  {
  }

  // The parts of the k-th update.
  method HandleUpdate(queue: seq<Update>, k: nat, h: Handled, before: seq<Event>)
    returns (log: seq<Event>, failure: Option<Pause>)
    requires Ascending(queue) && k < |queue| && Progress(queue, before, k) && MessagesOnce(queue, before, k)
    ensures log == before + UpdateLog(queue[k], h) && failure == Failure(queue[k], h)
    ensures var k' := if failure.None? then k + 1 else k;
            Progress(queue, log, k') && MessagesOnce(queue, log, k')
  {
    hide Progress, MessagesOnce, Ascending;
    var u := queue[k];
    log := before;
    if u.callback {
      Logs(queue, log, k, CallbackTried(u.id));
      log := log + [CallbackTried(u.id)];
      if h.callback.Some? {
        return log, h.callback;
      }
      Logs(queue, log, k, CallbackDone(u.id));
      log := log + [CallbackDone(u.id)];
    }
    assert log == before + CallbackLog(u, h);
    if u.membership {
      Logs(queue, log, k, MembershipTried(u.id));
      log := log + [MembershipTried(u.id)];
      if h.membership.Some? {
        return log, h.membership;
      }
      Logs(queue, log, k, MembershipDone(u.id));
      log := log + [MembershipDone(u.id)];
    }
    assert log == before + CallbackLog(u, h) + MembershipLog(u, h);
    if u.message {
      Logs(queue, log, k, MessageDone(u.id));
      MessageLogs(queue, log, k);
      log := log + [MessageDone(u.id)];
    } else {
      NoMessage(queue, log, k);
    }
    Logs(queue, log, k, Completed(u.id));
    CompletionLogs(queue, log, k + 1, u.id);
    log := log + [Completed(u.id)];
    failure := None;
  }

  lemma BeforeAnything(queue: seq<Update>)
    requires forall i :: 0 <= i < |queue| ==> queue[i].id >= 0
    ensures Ascending(queue) ==> From(queue, 0) == 0
    ensures Progress(queue, [], 0) && MessagesOnce(queue, [], 0)
  {
    assert queue[..0] == [];
  }

  // ---- progress under failure ----

  // The poll brings the next update, and its own handlers do not fail.
  predicate HeadSucceeds(queue: seq<Update>, k: nat, poll: Poll) {
    k < |queue| && poll.Answered? && poll.count > 0 && Failure(queue[k], poll.handled(queue[k].id)).None?
  }

  /** A poll completes anything exactly when the next update is handled in it,
      whatever fails behind that. */
  lemma PollAdvancesIffHeadSucceeds(queue: seq<Update>, k: nat, poll: Poll)
    requires k <= |queue|
    ensures PollNext(queue, k, poll) > k <==> HeadSucceeds(queue, k, poll)
  {
    if poll.Answered? && k < |queue| && poll.count > 0 {
      assert Page(queue, k, poll.count)[0] == queue[k];
    }
  }

  // How many polls of the script find the next update's handlers in order.
  function HeadSuccesses(queue: seq<Update>, k: nat, script: seq<Poll>): nat
    requires k <= |queue|
    decreases |script|
  {
    if script == [] then 0
    else
      (if HeadSucceeds(queue, k, script[0]) then 1 else 0)
      + HeadSuccesses(queue, PollNext(queue, k, script[0]), script[1..])
  }

  /** However often handlers fail, as long as the loop goes on, as many updates
      are completed as there are polls whose next update is handled: once for
      each update in the queue, and everything is completed. */
  lemma {:induction false} HeadSuccessesComplete(queue: seq<Update>, k: nat, script: seq<Poll>)
    requires k <= |queue| && RunOf(queue, k, script).end == Running
    ensures RunOf(queue, k, script).done >= k + HeadSuccesses(queue, k, script)
    ensures HeadSuccesses(queue, k, script) <= |queue| - k
    ensures HeadSuccesses(queue, k, script) == 0 ==> RunOf(queue, k, script).done == k
    decreases |script|
  {
    hide PollNext, HeadSucceeds;
    if script != [] {
      PollAdvancesIffHeadSucceeds(queue, k, script[0]);
      HeadSuccessesComplete(queue, PollNext(queue, k, script[0]), script[1..]);
    }
  }

  const MEMBERSHIP_FAILS: Poll := Answered(1, (id: int) => Handled(None, Some(Resumes)))
  const ALL_WORKS: Poll := Answered(1, (id: int) => Handled(None, None))

  /** A callback whose update's membership handler fails is tried again with the
      update: only completion and the message happen once. */
  lemma CallbackCanRepeat(id: int)
    ensures RunOf([Update(id, true, true, false)], 0, [MEMBERSHIP_FAILS, ALL_WORKS])
         == Outcome(1, [CallbackTried(id), CallbackDone(id), MembershipTried(id),
                        CallbackTried(id), CallbackDone(id), MembershipTried(id), MembershipDone(id), Completed(id)],
                    Running)
  {
    var queue := [Update(id, true, true, false)];
    MembershipFails(id);
    AllWorks(id);
    hide PollLog, PollNext, PollEnd;
    assert [MEMBERSHIP_FAILS, ALL_WORKS][1..] == [ALL_WORKS] && [ALL_WORKS][1..] == [];
    assert RunOf(queue, 1, []) == Outcome(1, [], Running);
  }

  lemma MembershipFails(id: int)
    ensures var queue := [Update(id, true, true, false)];
            && PollNext(queue, 0, MEMBERSHIP_FAILS) == 0 && PollEnd(queue, 0, MEMBERSHIP_FAILS) == Running
            && PollLog(queue, 0, MEMBERSHIP_FAILS) == [CallbackTried(id), CallbackDone(id), MembershipTried(id)]
  {
    assert Page([Update(id, true, true, false)], 0, 1) == [Update(id, true, true, false)];
  }

  lemma AllWorks(id: int)
    ensures var queue := [Update(id, true, true, false)];
            && PollNext(queue, 0, ALL_WORKS) == 1 && PollEnd(queue, 0, ALL_WORKS) == Running
            && PollLog(queue, 0, ALL_WORKS)
               == [CallbackTried(id), CallbackDone(id), MembershipTried(id), MembershipDone(id), Completed(id)]
  {
    var queue := [Update(id, true, true, false)];
    assert Page(queue, 0, 1) == queue && queue[1..] == [];
    BatchStops(queue[1..], ALL_WORKS.handled);
  }

  // ---- what is done of an update ----

  // The place of an event in the work on one update.
  function Rank(e: Event): nat {
    match e
    case CallbackTried(_) => 0
    case CallbackDone(_) => 1
    case MembershipTried(_) => 2
    case MembershipDone(_) => 3
    case MessageDone(_) => 4
    case Completed(_) => 5
  }

  // Events of one update whose ranks rise from `lo` to below `hi`.
  predicate Rising(log: seq<Event>, id: int, lo: nat, hi: nat) {
    && (forall p :: 0 <= p < |log| ==> lo <= Rank(log[p]) < hi && log[p].id == id)
    && (forall p, q :: 0 <= p < q < |log| ==> Rank(log[p]) < Rank(log[q]))
  }

  lemma RisingJoins(a: seq<Event>, b: seq<Event>, id: int, lo: nat, mid: nat, hi: nat)
    requires lo <= mid <= hi && Rising(a, id, lo, mid) && Rising(b, id, mid, hi)
    ensures Rising(a + b, id, lo, hi)
  {
  }

  /** The parts of an update come once each, in the order callback, membership,
      message, completion, each handler tried before it is done. */
  lemma PartsInOrder(u: Update, h: Handled)
    ensures Rising(UpdateLog(u, h), u.id, 0, 6)
  {
    CallbackRises(u, h);
    MembershipRises(u, h);
    MessageRises(u);
    hide CallbackLog, MembershipLog, Rising;
    var first, second := CallbackLog(u, h), MembershipLog(u, h);
    var third := if u.message then [MessageDone(u.id)] else [];
    RisingWidens(first, u.id, 2);
    RisingJoins(first, second, u.id, 0, 2, 4);
    RisingWidens(first + second, u.id, 4);
    RisingJoins(first + second, third, u.id, 0, 4, 5);
    RisingJoins(first + second + third, [Completed(u.id)], u.id, 0, 5, 6);
  }

  lemma CallbackRises(u: Update, h: Handled)
    ensures Rising(CallbackLog(u, h), u.id, 0, 2)
  {
  }

  lemma MembershipRises(u: Update, h: Handled)
    ensures Rising(MembershipLog(u, h), u.id, 2, 4)
  {
  }

  lemma MessageRises(u: Update)
    ensures Rising(if u.message then [MessageDone(u.id)] else [], u.id, 4, 5) && Rising([Completed(u.id)], u.id, 5, 6)
  {
  }

  lemma RisingWidens(log: seq<Event>, id: int, hi: nat)
    requires hi <= 6 && Rising(log, id, 0, hi)
    ensures Rising(log, id, 0, 6)
  {
  }

  lemma PartsSplit(u: Update, h: Handled, e: Event)
    ensures e in CallbackLog(u, h)
            <==> u.callback && (e == CallbackTried(u.id) || (h.callback.None? && e == CallbackDone(u.id)))
    ensures e in MembershipLog(u, h)
            <==> u.membership && (e == MembershipTried(u.id) || (h.membership.None? && e == MembershipDone(u.id)))
  {
  }

  /** Every part an update has is handled: its callback handler is tried whenever
      it has one, its membership handler when it has one and the callback did not
      fail, its message is handled and it is completed when neither failed. */
  lemma PartsOfAnUpdate(u: Update, h: Handled, e: Event)
    ensures var callbackWorks, membershipWorks := u.callback ==> h.callback.None?, u.membership ==> h.membership.None?;
            && (Failure(u, h).None? <==> callbackWorks && membershipWorks)
            && (!callbackWorks ==> Failure(u, h) == h.callback)
            && (callbackWorks && !membershipWorks ==> Failure(u, h) == h.membership)
            && (e in UpdateLog(u, h)
                <==> e.id == u.id
                     && match e
                        case CallbackTried(_) => u.callback
                        case CallbackDone(_) => u.callback && callbackWorks
                        case MembershipTried(_) => u.membership && callbackWorks
                        case MembershipDone(_) => u.membership && callbackWorks && membershipWorks
                        case MessageDone(_) => u.message && callbackWorks && membershipWorks
                        case Completed(_) => callbackWorks && membershipWorks)
  {
    PartsSplit(u, h, e);
    hide CallbackLog, MembershipLog;
  }

  // ---- how the loop ends ----

  // After this poll the loop pauses, and the pause goes this way.
  predicate Pauses(queue: seq<Update>, k: nat, poll: Poll, pause: Pause)
    requires k <= |queue|
  {
    match poll
    case Stopping => false
    case Unanswered(p) => p == pause
    case Answered(count, handled) =>
      var updates := Page(queue, k, count);
      var n := FirstFailing(updates, handled);
      n < |updates| && Failure(updates[n], handled(updates[n].id)) == Some(pause)
  }

  /** A poll ends the loop without an error exactly for a shutdown, before the
      poll or in the pause after a failure; with an error exactly when a pause
      itself breaks; and a failure alone never ends it. */
  lemma PollEndsExactly(queue: seq<Update>, k: nat, poll: Poll)
    requires k <= |queue|
    ensures PollEnd(queue, k, poll) == Clean <==> poll.Stopping? || Pauses(queue, k, poll, Stops)
    ensures PollEnd(queue, k, poll) == WaitFailed <==> Pauses(queue, k, poll, Breaks)
    ensures PollEnd(queue, k, poll) == Running
            <==> !poll.Stopping? && !Pauses(queue, k, poll, Stops) && !Pauses(queue, k, poll, Breaks)
  {
  }
}
