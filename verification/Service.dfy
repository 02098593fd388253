/** The polling service: every step's outcome feeds the fail-closed machine. */
module Service {
  import opened Basics
  import BatchId
  import Collector
  import opened Spool
  import Database
  import Drift
  import RollOver
  import TrafficHealth
  import opened Ledger
  import LedgerRuns
  import opened Store

  function Observed(t: Database.Tables, failed: bool, now: Time): Result<Database.Tables, Database.TxError> {
    if failed then Database.ObserveFailure(t, now) else Database.ObserveRecovery(t, now)
  }

  class Service {
    const runner: Runner

    constructor (runner: Runner)
      ensures this.runner == runner
    {
      this.runner := runner;
    }

    method Step(now: Time, env: Env, commit: Outcome)
      returns (ghost middle: World, r: Result<Report, Stage>, error: Option<Database.TxError>)
      modifies runner, runner.spool, runner.store
      ensures exists c :: Answers(old(runner.Value()), now, env, c)
                          && StepOf(old(runner.Value()), now, env, c) == Stepped(middle, r)
      ensures Transacted(middle.tables, Observed(middle.tables, r.Err?, now), commit, runner.store.Value(), error)
      ensures runner.spool.Value() == middle.disk
    {
      r := runner.Step(now, env);
      middle := runner.Value();
      if r.Err? {
        error := runner.store.ObserveFailure(now, commit);
      } else {
        error := runner.store.ObserveRecovery(now, commit);
      }
    }
  }

  // ---- a spooled batch of a user whose quota period has rolled over ----

  datatype Poll = Poll(now: Time, env: Env, collected: Collected)

  // One poll whose health observation is stored.
  function Polled(w: World, p: Poll): World {
    var s := StepOf(w, p.now, p.env, p.collected);
    match Observed(s.world.tables, s.result.Err?, p.now)
    case Ok(t) => s.world.(tables := t)
    case Err(_) => s.world
  }

  function PolledAll(w: World, polls: seq<Poll>): World
    decreases |polls|
  {
    if polls == [] then w else PolledAll(Polled(w, polls[0]), polls[1..])
  }

  // The spool holds a batch with traffic of an active user that cannot be
  // recorded: the user's periods differ, or were restarted after the batch.
  predicate Wedged(w: World, b: PendingBatch, uid: int) {
    && w.disk.visible == Some(b) && b.id !in w.tables.ingested && RollOver.Carries(b.samples, uid)
    && RollOver.Behind(w.tables, uid, b.collectedAt) && Database.Qualifies(w.tables.users[uid])
  }

  /** A step gets there by itself: it collects traffic of an active user whose
      quota period has rolled over, and spools it. */
  lemma StepReachesWedge(w: World, now: Time, env: Env, samples: seq<BatchId.Sample>, uid: int)
    requires LedgerRuns.Spools(w, now, env, Ok(samples))
    requires RollOver.Stale(w.tables, uid) && Database.Qualifies(w.tables.users[uid]) && RollOver.Carries(samples, uid)
    requires NewBatch(now, samples).value.id !in w.tables.ingested
    ensures Wedged(StepOf(w, now, env, Ok(samples)).world, NewBatch(now, samples).value, uid)
  {
    var b := NewBatch(now, samples).value;
    LedgerRuns.CollectCases(w, now, env, Ok(samples));
    LedgerRuns.NewBatchIsValid(now, samples);
    RollOver.BehindRefusesBatch(w.tables, uid, b.collectedAt, b.samples, b.id);
    hide ValidBatch, NewBatch, CanSave, CollectOf, Database.RecordBatch, Database.Qualifies, RollOver.Carries;
  }

  /** Such a batch can be neither recorded nor replaced: every step fails and
      leaves the tables, the spool and the core's counters alone. */
  lemma {:induction false} WedgedStepFails(w: World, b: PendingBatch, uid: int, p: Poll)
    requires Wedged(w, b, uid)
    ensures StepOf(w, p.now, p.env, p.collected).world == w && StepOf(w, p.now, p.env, p.collected).result.Err?
  {
    hide ValidBatch, EnvelopeSize, CollectOf, Database.RecordBatch;
    RollOver.BehindRefusesBatch(w.tables, uid, b.collectedAt, b.samples, b.id);
  }

  lemma WedgedPoll(w: World, b: PendingBatch, uid: int, p: Poll)
    requires Wedged(w, b, uid) && p.now != NO_TIME
    ensures Wedged(Polled(w, p), b, uid)
    ensures Polled(w, p) == w.(tables := Polled(w, p).tables)
    ensures Polled(w, p).tables.health == TrafficHealth.Failed(w.tables.health, p.now)
  {
    hide StepOf, RollOver.Carries;
    WedgedStepFails(w, b, uid, p);
  }

  /** So one such batch waiting in the spool
      closes the service for everybody: once the polls have gone on for five
      minutes no user is served, and nothing but the health row and the outbox
      has changed. */
  lemma {:induction false} WedgeClosesService(w: World, b: PendingBatch, uid: int, polls: seq<Poll>)
    requires Wedged(w, b, uid)
    requires |polls| >= 2 && polls[|polls| - 1].now >= polls[0].now + TrafficHealth.CLOSE_AFTER
    requires forall i :: 0 <= i < |polls| ==> polls[i].now != NO_TIME
    requires w.tables.health.failureStartedAt.Some? ==> w.tables.health.failureStartedAt.value <= polls[0].now
    ensures var w' := PolledAll(w, polls);
            && Wedged(w', b, uid)
            && w' == w.(tables := w'.tables)
            && w'.tables.users == w.tables.users && w'.tables.ingested == w.tables.ingested
            && (forall anyone :: Drift.Served(w'.tables, anyone).None?)
  {
    var first := Polled(w, polls[0]);
    WedgedPoll(w, b, uid, polls[0]);
    ObservingKeepsUsers(w, b, uid, polls[0]);
    WedgeLasts(first, b, uid, polls[1..], first.tables.health.failureStartedAt.value);
  }

  lemma ObservingKeepsUsers(w: World, b: PendingBatch, uid: int, p: Poll)
    requires Wedged(w, b, uid)
    ensures Polled(w, p).tables.users == w.tables.users && Polled(w, p).tables.ingested == w.tables.ingested
  {
    hide StepOf, RollOver.Carries;
    WedgedStepFails(w, b, uid, p);
  }

  lemma {:induction false} WedgeLasts(w: World, b: PendingBatch, uid: int, polls: seq<Poll>, started: Time)
    requires Wedged(w, b, uid) && w.tables.health.failureStartedAt == Some(started)
    requires forall i :: 0 <= i < |polls| ==> polls[i].now != NO_TIME
    ensures var w' := PolledAll(w, polls);
            && Wedged(w', b, uid) && w' == w.(tables := w'.tables)
            && w'.tables.users == w.tables.users && w'.tables.ingested == w.tables.ingested
            && (w.tables.health.failClosed ==> w'.tables.health.failClosed)
            && (polls != [] && polls[|polls| - 1].now - started >= TrafficHealth.CLOSE_AFTER ==>
                  w'.tables.health.failClosed)
    decreases |polls|
  {
    hide Wedged, Polled;
    if polls != [] {
      var w1 := Polled(w, polls[0]);
      WedgedPoll(w, b, uid, polls[0]);
      ObservingKeepsUsers(w, b, uid, polls[0]);
      WedgeLasts(w1, b, uid, polls[1..], started);
    }
  }

  // ---- why the collection times have to increase ----

  // A collection that goes through, over tables without users.
  lemma {:induction false} SmoothCollection(w: World, now: Time, env: Env, b: PendingBatch)
    requires w.tables.users == map[] && w.disk == Disk(None, None)
    requires env.load == env.save == env.record == env.delete == Succeeds
    requires now != NO_TIME && b.samples != [] && NewBatch(now, b.samples) == Some(b)
    requires !Countless(b) && CanSave(w.disk, b)
    ensures StepOf(w, now, env, Ok(b.samples)).world
         == w.(drained := w.drained + Drained(env), saved := w.saved + [b],
               entered := if b.id in w.tables.ingested then w.entered else w.entered + [b],
               tables := w.tables.(ingested := w.tables.ingested + {b.id}))
  {
    hide Drained, Database.RecordAll, Countless, ValidBatch, CanSave, NewBatch;
    EmptyTablesAccept(Database.Progress(map[], w.tables.outbox, Database.NOTHING), b.collectedAt,
                      Database.Positive(b.samples));
    CanSaveIsValid(w.disk, b);
    SmoothRecording(w.tables, b);
  }

  lemma CanSaveIsValid(d: Disk, b: PendingBatch)
    requires CanSave(d, b)
    ensures ValidBatch(b) && Database.ValidSamples(b.samples) && b.collectedAt != NO_TIME
  {
  }

  lemma SmoothRecording(t: Database.Tables, b: PendingBatch)
    requires t.users == map[] && Database.ValidSamples(b.samples) && b.collectedAt != NO_TIME && !Countless(b)
    ensures Database.RecordBatch(t, b.collectedAt, b.samples, b.id)
         == Ok(Database.Recorded(t.(ingested := t.ingested + {b.id}), Database.NOTHING))
  {
    hide Database.ValidSamples, Database.RecordAll;
    EmptyTablesAccept(Database.Progress(map[], t.outbox, Database.NOTHING), b.collectedAt,
                      Database.Positive(b.samples));
    if b.id in t.ingested {
      assert t.ingested + {b.id} == t.ingested;
    }
  }

  /** Two collections at the same instant that report the same counters have one
      batch id: the second is dropped as a replay, and its bytes vanish. */
  lemma {:induction false} SameInstantLosesBytes(tables: Database.Tables, now: Time, env: Env, b: PendingBatch)
    requires tables.ingested == {} && tables.users == map[] && now != NO_TIME
    requires env.load == env.save == env.record == env.delete == Succeeds
    requires b.samples != [] && NewBatch(now, b.samples) == Some(b) && Collects(env, Ok(b.samples))
    requires !Countless(b) && CanSave(Disk(None, None), b)
    ensures var once := StepOf(LedgerRuns.Fresh(tables), now, env, Ok(b.samples)).world;
            var twice := StepOf(once, now, env, Ok(b.samples)).world;
            && once.entered == twice.entered == [b] && twice.disk.visible.None? && twice.lost == 0
            && once.drained == Collector.SampleBytes(b.samples) > 0 && twice.drained == 2 * once.drained
            && LedgerRuns.Conserved(once) && !LedgerRuns.Conserved(twice)
  {
    var w := LedgerRuns.Fresh(tables);
    SmoothCollection(w, now, env, b);
    LedgerRuns.CollectedBytes(env, b.samples);
    CanSaveIsValid(w.disk, b);
    LedgerRuns.BatchBytesAreTraffic(b);
    hide StepOf, Countless, NewBatch, CanSave, Drained, ValidBatch, Collects, LedgerRuns.Missing;
    var once := StepOf(w, now, env, Ok(b.samples)).world;
    assert once.entered == [] + [b] == [b];
    SmoothCollection(once, now, env, b);
    OneBatchIsMissing(once, b);
    OneBatchIsMissing(StepOf(once, now, env, Ok(b.samples)).world, b);
  }

  lemma OneBatchIsMissing(w: World, b: PendingBatch)
    requires w.entered == [b] && w.disk.visible.None? && w.lost == 0
    ensures LedgerRuns.Missing(w) == w.drained - Collector.SampleBytes(b.samples)
  {
    assert w.entered[..0] == [];
    assert LedgerRuns.BatchBytes([]) == 0;
  }

  lemma {:induction false} EmptyTablesAccept(p: Database.Progress, at: Time, samples: seq<BatchId.Sample>)
    requires p.users == map[]
    ensures Database.RecordAll(p, at, samples) == Ok(p)
    decreases |samples|
  {
    if samples != [] {
      EmptyTablesAccept(p, at, samples[1..]);
    }
  }
}
