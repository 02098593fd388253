/** The recheck scheduler: triggers from other goroutines against its own
    cycle-and-wait loop. */
module Scheduler {
  import opened Basics

  // ---- the guarded fields ----

  // `wait` is the cancellation state of the registered wait, if one is.
  datatype Guarded = Guarded(wait: Option<bool>, pending: bool)

  // What one trigger does: cancel the registered wait, or leave a note.
  function TriggerOf(g: Guarded): Guarded {
    if g.wait.Some? then g.(wait := Some(true)) else g.(pending := true)
  }

  // After a cycle: use up the note, or register a wait.
  function SettleOf(g: Guarded): Guarded {
    if g.pending then g.(pending := false) else g.(wait := Some(false))
  }

  class WaitContext {
    var cancelled: bool

    constructor ()
      ensures !cancelled
    {
      cancelled := false;
    }

    method Cancel()
      modifies this
      ensures cancelled
    {
      cancelled := true;
    }
  }

  class RecheckScheduler {
    var wakeCancel: WaitContext?
    var wakePending: bool

    ghost function Value(): Guarded
      reads this, wakeCancel
    {
      Guarded(if wakeCancel == null then None else Some(wakeCancel.cancelled), wakePending)
    }

    constructor ()
      ensures Value() == Guarded(None, false)
    {
      wakeCancel, wakePending := null, false;
    }

    method Trigger()
      modifies this, wakeCancel
      ensures Value() == TriggerOf(old(Value())) && wakeCancel == old(wakeCancel)
    {
      if wakeCancel != null {
        wakeCancel.Cancel();
        return;
      }
      wakePending := true;
    }

    // The section after a cycle; nothing to wait for means another cycle.
    method Settle() returns (context: WaitContext?)
      requires wakeCancel == null
      modifies this
      ensures Value() == SettleOf(old(Value())) && wakeCancel == context
      ensures context == null <==> old(wakePending)
      ensures context != null ==> fresh(context)
    {
      if wakePending {
        wakePending := false;
        return null;
      }
      context := new WaitContext();
      wakeCancel := context;
    }

    // The section after a wait.
    method Unregister(context: WaitContext)
      requires wakeCancel == context
      modifies this`wakeCancel, context
      ensures Value() == old(Value()).(wait := None) && context.cancelled
    {
      context.Cancel();
      wakeCancel := null;
    }
  }

  // ---- the loop and its interleavings ----

  // What the wait returned: the time is up, its context ended, or it broke.
  datatype Waited = Elapsed | Interrupted | Broken

  datatype Phase =
    | Top
    | Cycling
    | Settling
    | Waiting
    | Returned(waited: Waited)
    | Cancelled(waited: Waited)
    | Unregistered(waited: Waited)
    | Stopped(clean: bool)

  // `context`: the latest wait's context is cancelled, which outlives its
  // registration. `owed`: a trigger came and no cycle has started since.
  datatype System = System(phase: Phase, guarded: Guarded, context: bool, shutdown: bool, cycles: nat, owed: bool)

  const START := System(Top, Guarded(None, false), false, false, 0, false)

  datatype Event = Trigger | Shutdown | Proceed(waited: Waited)

  predicate ContextEnded(s: System) {
    s.shutdown || s.context
  }

  // The loop can always proceed, except in an undisturbed wait that is not over.
  predicate CanProceed(s: System, waited: Waited) {
    match s.phase
    case Stopped(_) => false
    case Waiting => waited.Interrupted? ==> ContextEnded(s)
    case _ => true
  }

  function Proceeded(s: System, waited: Waited): System {
    match s.phase
    case Top =>
      if s.shutdown then s.(phase := Stopped(true))
      else s.(phase := Cycling, cycles := s.cycles + 1, owed := false)
    case Cycling => s.(phase := Settling)
    case Settling =>
      if s.shutdown then s.(phase := Stopped(true))
      else if s.guarded.pending then s.(phase := Top, guarded := SettleOf(s.guarded))
      else s.(phase := Waiting, guarded := SettleOf(s.guarded), context := false)
    case Waiting => s.(phase := Returned(waited))
    case Returned(w) =>
      s.(phase := Cancelled(w), context := true,
         guarded := s.guarded.(wait := if s.guarded.wait.Some? then Some(true) else None))
    case Cancelled(w) => s.(phase := Unregistered(w), guarded := s.guarded.(wait := None))
    case Unregistered(w) =>
      if w.Elapsed? then s.(phase := Top)
      else if s.shutdown then s.(phase := Stopped(true))
      else if w.Interrupted? || ContextEnded(s) then s.(phase := Top)
      else s.(phase := Stopped(false))
    case Stopped(_) => s
  }

  predicate Can(s: System, e: Event) {
    e.Proceed? ==> CanProceed(s, e.waited)
  }

  function Next(s: System, e: Event): System {
    match e
    case Trigger => s.(guarded := TriggerOf(s.guarded), context := s.context || s.guarded.wait.Some?, owed := true)
    case Shutdown => s.(shutdown := true)
    case Proceed(waited) => Proceeded(s, waited)
  }

  predicate CanRun(s: System, events: seq<Event>)
    decreases |events|
  {
    events == [] || (Can(s, events[0]) && CanRun(Next(s, events[0]), events[1..]))
  }

  function RunOf(s: System, events: seq<Event>): System
    decreases |events|
  {
    if events == [] then s else RunOf(Next(s, events[0]), events[1..])
  }

  // A wait is registered exactly around the waiting; whatever is owed is noted
  // or has cancelled the wait.
  predicate Kept(s: System) {
    && (s.guarded.wait.Some? <==> s.phase.Waiting? || s.phase.Returned? || s.phase.Cancelled?)
    && (s.guarded.wait.Some? ==> s.guarded.wait.value == s.context)
    && (s.phase.Cancelled? || s.phase.Unregistered? ==> s.context)
    && (s.owed && s.phase.Waiting? ==> s.context)
    && (s.owed && (s.phase.Cycling? || s.phase.Settling?) ==> s.guarded.pending)
    && (s.phase.Stopped? ==> s.shutdown && s.phase.clean)
  }

  lemma {:induction false} RunKeeps(s: System, events: seq<Event>)
    requires Kept(s) && CanRun(s, events)
    ensures Kept(RunOf(s, events)) && RunOf(s, events).cycles >= s.cycles
    decreases |events|
  {
    if events != [] {
      RunKeeps(Next(s, events[0]), events[1..]);
    }
  }

  /** No wake-up is lost: under every interleaving, once a trigger follows the
      start of a cycle, the loop never sits in a wait that is not cancelled
      until another cycle has started. */
  lemma NoLostWakeUp(events: seq<Event>)
    requires CanRun(START, events)
    ensures var s := RunOf(START, events);
            s.owed && s.phase.Waiting? ==> ContextEnded(s) && CanProceed(s, Interrupted)
  {
    RunKeeps(START, events);
  }

  /** The loop only ever stops for a shutdown: the context of a wait is cancelled
      before its error is looked at, so an error of the wait itself never gets
      out and the next cycle follows at once. */
  lemma OnlyShutdownStops(events: seq<Event>)
    requires CanRun(START, events)
    ensures RunOf(START, events).phase.Stopped? ==> RunOf(START, events).shutdown && RunOf(START, events).phase.clean
  {
    RunKeeps(START, events);
  }

  // How many steps of its own the loop is from the next start of a cycle.
  function Distance(s: System): nat {
    match s.phase
    case Top => 1
    case Unregistered(_) => 2
    case Settling => 2
    case Cancelled(_) => 3
    case Cycling => 3
    case Returned(_) => 4
    case Waiting => 5
    case Stopped(_) => 0
  }

  function Steps(events: seq<Event>): nat
    decreases |events|
  {
    if events == [] then 0 else (if events[0].Proceed? then 1 else 0) + Steps(events[1..])
  }

  /** What is owed comes: without a shutdown, within five steps of the loop,
      however many triggers fall between them, another cycle has started. */
  lemma {:induction false} OwedCycleStarts(s: System, events: seq<Event>)
    requires Kept(s) && s.owed && !s.shutdown && CanRun(s, events)
    requires Shutdown !in events && Steps(events) >= Distance(s)
    ensures RunOf(s, events).cycles > s.cycles
    decreases |events|
  {
    var e, rest := events[0], events[1..];
    var next := Next(s, e);
    if e.Proceed? && s.phase.Top? {
      RunKeeps(next, rest);
    } else {
      OwedCycleStarts(next, rest);
    }
  }

  // ---- no cycle without a reason ----

  // How often the loop starts over without waiting.
  function Skips(s: System, events: seq<Event>): nat
    decreases |events|
  {
    if events == [] then 0
    else
      (if events[0].Proceed? && s.phase.Settling? && !s.shutdown && Next(s, events[0]).phase.Top? then 1 else 0)
      + Skips(Next(s, events[0]), events[1..])
  }

  function Triggers(events: seq<Event>): nat
    decreases |events|
  {
    if events == [] then 0 else (if events[0].Trigger? then 1 else 0) + Triggers(events[1..])
  }

  /** The loop skips its wait at most once for each trigger: a note is used up
      by the cycle it starts. */
  lemma {:induction false} SkipsAreTriggered(s: System, events: seq<Event>)
    ensures Skips(s, events) + (if RunOf(s, events).guarded.pending then 1 else 0)
         <= Triggers(events) + (if s.guarded.pending then 1 else 0)
    decreases |events|
  {
    if events != [] {
      SkipsAreTriggered(Next(s, events[0]), events[1..]);
    }
  }
}
