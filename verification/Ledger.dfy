/** Collect with reset, spool, record once, delete the spool: the traffic
    pipeline as a whole, under failures and crashes at every call. */
module Ledger {
  import opened Basics
  import BatchId
  import Collector
  import opened Spool
  import Database
  import opened Store

  // The core's answer to a query that resets its counters. A call that fails
  // may have reset them all the same.
  datatype Reply = NoReply(resetAnyway: seq<Collector.Stat>) | Counters(stats: seq<Collector.Stat>)

  // What each external call of one step does; a crash is a failure of the call
  // it happens in, and of nothing after it.
  datatype Env = Env(load: Outcome, reply: Reply, save: Outcome, record: Outcome, delete: Outcome)

  datatype Stage = CollectStage | SpoolStage | RecordStage | CleanupStage | NoStage

  datatype Report = Report(replayed: bool, result: Database.BatchResult)

  // The persistent state, and a log of what crossed each boundary.
  datatype World = World(
    tables: Database.Tables,
    disk: Disk,
    drained: int,               // bytes the core has reset
    lost: int,                  // drained bytes that never became durable
    entered: seq<PendingBatch>, // batches applied to the tables, in order
    saved: seq<PendingBatch>    // batches whose spooling succeeded
  )

  type Collected = Result<seq<BatchId.Sample>, ()>

  function Drained(env: Env): int {
    Collector.StatBytes(match env.reply case NoReply(stats) => stats case Counters(stats) => stats)
  }

  ghost predicate Collects(env: Env, c: Collected) {
    match env.reply
    case NoReply(_) => c.Err?
    case Counters(stats) =>
      (c.Ok? <==> Collector.Acceptable(stats)) && (c.Ok? ==> Collector.SamplesOf(stats, c.value))
  }

  // The collector is only asked when the spool was read and found empty.
  ghost predicate Answers(w: World, now: Time, env: Env, c: Collected) {
    now != NO_TIME && env.load.Succeeds? && w.disk.visible.None? ==> Collects(env, c)
  }

  predicate Countless(b: PendingBatch) {
    Database.Positive(b.samples) == []
  }

  datatype Stepped = Stepped(world: World, result: Result<Report, Stage>)

  function CommitOf(w: World, b: PendingBatch, replayed: bool, env: Env): Stepped {
    if !ValidBatch(b) then Stepped(w, Err(RecordStage))
    else match Database.RecordBatch(w.tables, b.collectedAt, b.samples, b.id)
      case Err(_) => Stepped(w, Err(RecordStage))
      case Ok(r) => FinishOf(w, b, r, replayed, env)
  }

  // The transaction is acceptable; what happens depends on the commit, then
  // on the removal of the file.
  function FinishOf(w: World, b: PendingBatch, r: Database.Recorded, replayed: bool, env: Env): Stepped {
    if !Countless(b) && env.record.FailsBefore? then Stepped(w, Err(RecordStage))
    else
      var enters := !Countless(b) && b.id !in w.tables.ingested;
      var w1 := w.(tables := r.tables, entered := if enters then w.entered + [b] else w.entered);
      if !Countless(b) && env.record.FailsAfter? then Stepped(w1, Err(RecordStage))
      else if w1.disk.visible.None? then Stepped(w1, Ok(Report(replayed, r.result)))
      else Stepped(w1.(disk := Renamed(w1.disk, None, env.delete)),
                   if env.delete.Succeeds? then Ok(Report(replayed, r.result)) else Err(CleanupStage))
  }

  function StepOf(w: World, now: Time, env: Env, collected: Collected): Stepped {
    if now == NO_TIME then Stepped(w, Err(NoStage))
    else if !env.load.Succeeds? || Loaded(w.disk).Err? then Stepped(w, Err(SpoolStage))
    else match Loaded(w.disk).value
      case Some(b) => CommitOf(w, b, true, env)
      case None => CollectOf(w, now, env, collected)
  }

  // The spool is empty: what the core has reset is drained, whatever follows.
  function CollectOf(w: World, now: Time, env: Env, collected: Collected): Stepped {
    var taken := w.(drained := w.drained + Drained(env));
    if collected.Err? then Stepped(taken.(lost := w.lost + Drained(env)), Err(CollectStage))
    else if collected.value == [] then Stepped(taken, Ok(Report(false, Database.NOTHING)))
    else match NewBatch(now, collected.value)
      case None => Stepped(taken.(lost := w.lost + Drained(env)), Err(SpoolStage))
      case Some(b) =>
        if !CanSave(w.disk, b) || env.save.FailsBefore?
        then Stepped(taken.(lost := w.lost + Drained(env)), Err(SpoolStage))
        else SpoolOf(taken, b, env)
  }

  function SpoolOf(w: World, b: PendingBatch, env: Env): Stepped {
    var spooled := w.(disk := Renamed(w.disk, Some(b), env.save));
    if env.save.FailsAfter? then Stepped(spooled, Err(SpoolStage))
    else CommitOf(spooled.(saved := w.saved + [b]), b, false, env)
  }

  // The collector is not asked: the step is the same whatever it might answer.
  lemma StepWithoutAsking(w: World, now: Time, env: Env)
    requires now == NO_TIME || !env.load.Succeeds? || Loaded(w.disk).Err? || w.disk.visible.Some?
    ensures StepOf(w, now, env, Err(()))
         == if now == NO_TIME then Stepped(w, Err(NoStage))
            else if !env.load.Succeeds? || Loaded(w.disk).Err? then Stepped(w, Err(SpoolStage))
            else CommitOf(w, w.disk.visible.value, true, env)
    ensures Answers(w, now, env, Err(()))
  {
    hide CommitOf, CollectOf, Collects;
  }

  lemma StepThatAsks(w: World, now: Time, env: Env, collected: Collected)
    requires now != NO_TIME && env.load.Succeeds? && Loaded(w.disk) == Ok(None) && Collects(env, collected)
    ensures StepOf(w, now, env, collected) == CollectOf(w, now, env, collected)
    ensures Answers(w, now, env, collected)
  {
    hide CommitOf, CollectOf, Collects;
  }

  class Runner {
    const spool: FileSpool
    const store: Store
    ghost var drained: int
    ghost var lost: int
    ghost var entered: seq<PendingBatch>
    ghost var saved: seq<PendingBatch>

    ghost function Value(): World
      reads this, spool, store
    {
      World(store.Value(), spool.Value(), drained, lost, entered, saved)
    }

    constructor (spool: FileSpool, store: Store)
      ensures this.spool == spool && this.store == store
      ensures drained == lost == 0 && entered == saved == []
    {
      this.spool, this.store := spool, store;
      drained, lost, entered, saved := 0, 0, [], [];
    }

    /** One step is `StepOf` on whatever the collector made of the reply. */
    method Step(now: Time, env: Env) returns (r: Result<Report, Stage>)
      modifies this, spool, store
      ensures exists c :: Answers(old(Value()), now, env, c) && StepOf(old(Value()), now, env, c) == Stepped(Value(), r)
    {
      hide CommitOf, CollectOf, StepOf, Answers;
      ghost var before := Value();
      ghost var unasked: Collected := Err(());
      if now == NO_TIME {
        StepWithoutAsking(before, now, env);
        assert Answers(before, now, env, unasked);
        return Err(NoStage);
      }
      var loaded := spool.Load(env.load);
      if loaded.Err? {
        StepWithoutAsking(before, now, env);
        assert Answers(before, now, env, unasked);
        return Err(SpoolStage);
      }
      if loaded.value.Some? {
        r := CommitBatch(loaded.value.value, true, env);
        StepWithoutAsking(before, now, env);
        assert Answers(before, now, env, unasked);
        return;
      }
      ghost var collected;
      r, collected := CollectAndSpool(now, env);
      StepThatAsks(before, now, env, collected);
    }

    // The spool is empty: the core is asked, and its counters are drained.
    method CollectAndSpool(now: Time, env: Env) returns (r: Result<Report, Stage>, ghost collected: Collected)
      modifies this, spool, store
      ensures Collects(env, collected) && CollectOf(old(Value()), now, env, collected) == Stepped(Value(), r)
    {
      hide SpoolOf, Drained;
      drained := drained + Drained(env);
      if env.reply.NoReply? {
        lost := lost + Drained(env);
        collected := Err(());
        return Err(CollectStage), collected;
      }
      var answer := Collector.Collect(env.reply.stats);
      collected := answer;
      hide CollectOf;
      r := SpoolCollected(now, env, answer);
    }

    method SpoolCollected(now: Time, env: Env, collected: Collected) returns (r: Result<Report, Stage>)
      modifies this, spool, store
      ensures CollectOf(old(Value()).(drained := old(drained) - Drained(env)), now, env, collected)
           == Stepped(Value(), r)
    {
      if collected.Err? {
        lost := lost + Drained(env);
        return Err(CollectStage);
      }
      if collected.value == [] {
        return Ok(Report(false, Database.NOTHING));
      }
      var batch := NewBatch(now, collected.value);
      if batch.None? {
        lost := lost + Drained(env);
        return Err(SpoolStage);
      }
      ghost var disk := spool.Value();
      var ok := spool.Save(batch.value, env.save);
      if !ok {
        if !CanSave(disk, batch.value) || env.save.FailsBefore? {
          lost := lost + Drained(env);
        }
        return Err(SpoolStage);
      }
      saved := saved + [batch.value];
      r := CommitBatch(batch.value, false, env);
    }

    method CommitBatch(b: PendingBatch, replayed: bool, env: Env) returns (r: Result<Report, Stage>)
      modifies this, spool, store
      ensures CommitOf(old(Value()), b, replayed, env) == Stepped(Value(), r)
    {
      if !ValidBatch(b) {
        return Err(RecordStage);
      }
      ghost var tables := store.Value();
      ghost var tx := Database.RecordBatch(tables, b.collectedAt, b.samples, b.id);
      var result, error := store.RecordBatch(b.collectedAt, b.samples, b.id, env.record);
      assert tx.Ok? && Countless(b) ==> tx.value.tables == tables;
      if tx.Ok? && !Countless(b) && b.id !in tables.ingested && !env.record.FailsBefore? {
        entered := entered + [b];
      }
      if error.Some? {
        return Err(RecordStage);
      }
      var deleted := spool.Delete(env.delete);
      if !deleted {
        return Err(CleanupStage);
      }
      return Ok(Report(replayed, result));
    }
  }
}
