/** What the answer of a pipeline step says, and what a row of answers does to
    the service. */
module LedgerAnswers {
  import opened Basics
  import opened BatchId
  import Collector
  import opened Spool
  import Database
  import Drift
  import TrafficHealth
  import opened Ledger
  import LedgerRuns
  import opened Service

  // ---- one step ----

  // The batch is valid, its transaction is accepted, and the commit is heard
  // of; a batch without traffic opens no transaction.
  predicate Records(t: Database.Tables, b: PendingBatch, env: Env) {
    && ValidBatch(b) && Database.RecordBatch(t, b.collectedAt, b.samples, b.id).Ok?
    && (Countless(b) || env.record.Succeeds?)
  }

  // The spool can be read, whatever it holds.
  predicate Reads(w: World, env: Env) {
    env.load.Succeeds? && (w.disk.visible.Some? ==>
                             EnvelopeSize(w.disk.visible.value) <= MAX_SPOOL_BYTES && ValidBatch(w.disk.visible.value))
  }

  // The core answers with counters the collector accepts.
  ghost predicate Queries(env: Env) {
    env.reply.Counters? && Collector.Acceptable(env.reply.stats)
  }

  // The batch of the collected samples can be written and reaches the file.
  predicate Saves(now: Time, samples: seq<BatchId.Sample>, env: Env) {
    && env.save.Succeeds?
    && var b := NewBatch(now, samples); b.Some? && Marshals(b.value)
  }

  // With a waiting batch, or with a new one: what is left is to record and to
  // remove the file.
  ghost predicate StepWorks(w: World, now: Time, env: Env, collected: Collected) {
    && now != NO_TIME && Reads(w, env)
    && match w.disk.visible
       case Some(b) => Records(w.tables, b, env) && env.delete.Succeeds?
       case None =>
         && Queries(env) && collected.Ok?
         && (env.reply.stats == []
             || (Saves(now, collected.value, env)
                 && Records(w.tables, NewBatch(now, collected.value).value, env) && env.delete.Succeeds?))
  }

  lemma CommitSucceeds(w: World, b: PendingBatch, replayed: bool, env: Env)
    requires w.disk.visible == Some(b)
    ensures var r, w' := CommitOf(w, b, replayed, env).result, CommitOf(w, b, replayed, env).world;
            && (r.Ok? ==> w'.disk == Disk(None, None) && (Countless(b) || b.id in w'.tables.ingested))
            && (r == Err(RecordStage) ==> w'.disk == w.disk)
            && (r.Ok? <==> Records(w.tables, b, env) && env.delete.Succeeds?)
            && (r == Err(RecordStage) <==> !Records(w.tables, b, env))
            && (r == Err(CleanupStage) <==> Records(w.tables, b, env) && !env.delete.Succeeds?)
            && (r.Ok? ==> r.value.replayed == replayed) && r != Err(NoStage)
  {
    hide ValidBatch, Database.RecordBatch, Countless;
    if ValidBatch(b) && Database.RecordBatch(w.tables, b.collectedAt, b.samples, b.id).Ok? {
      LedgerRuns.RecordingIngests(w.tables, b, Database.RecordBatch(w.tables, b.collectedAt, b.samples, b.id).value);
    }
  }

  lemma NothingToCollect(stats: seq<Collector.Stat>, samples: seq<BatchId.Sample>)
    requires Collector.Acceptable(stats) && Collector.SamplesOf(stats, samples)
    ensures stats == [] <==> samples == []
  {
    if |stats| > 0 {
      assert Collector.WellFormed(stats[0]);
      assert Collector.Mentions(stats, stats[0].name.user);
    }
    if |samples| > 0 {
      assert Collector.Mentions(stats, samples[0].telegramId);
    }
  }

  // The step with an empty spool.
  lemma CollectionSucceeds(w: World, now: Time, env: Env, c: Collected)
    requires now != NO_TIME && env.load.Succeeds? && w.disk.visible.None? && Collects(env, c)
    ensures var r := CollectOf(w, now, env, c).result;
            && (r.Ok? <==> StepWorks(w, now, env, c))
            && (r == Err(CollectStage) <==> !Queries(env))
            && (r == Err(SpoolStage) <==> Queries(env) && env.reply.stats != [] && !Saves(now, c.value, env))
            && (r == Err(RecordStage)
                <==> Queries(env) && env.reply.stats != [] && Saves(now, c.value, env)
                     && !Records(w.tables, NewBatch(now, c.value).value, env))
            && (r == Err(CleanupStage)
                <==> Queries(env) && env.reply.stats != [] && Saves(now, c.value, env)
                     && Records(w.tables, NewBatch(now, c.value).value, env) && !env.delete.Succeeds?)
            && (r.Ok? ==> !r.value.replayed && CollectOf(w, now, env, c).world.disk.visible.None?) && r != Err(NoStage)
  {
    hide ValidBatch, Marshals, Records, Collector.Acceptable, Collector.SamplesOf, CommitOf, SpoolOf, NewBatch, Drained;
    if c.Ok? {
      NothingToCollect(env.reply.stats, c.value);
      if c.value != [] && NewBatch(now, c.value).Some? {
        LedgerRuns.NewBatchIsValid(now, c.value);
        SpoolingSucceeds(w.(drained := w.drained + Drained(env)), NewBatch(now, c.value).value, env);
      }
    }
  }

  /** What the collector accepts always makes a batch. */
  lemma CollectedIsBatch(now: Time, stats: seq<Collector.Stat>, samples: seq<BatchId.Sample>)
    requires now != NO_TIME && Collector.Acceptable(stats) && Collector.SamplesOf(stats, samples)
    ensures NewBatch(now, samples).Some?
  {
    Collector.CollectedIsStorable(stats, samples);
    assert Collector.StrictlyOrdered(samples);
    if |samples| > 0 {
      var last := |samples| - 1;
      IdsAreSpread(samples, last);
      var i :| 0 <= i < |stats| && stats[i].name.UserCounter? && stats[i].name.user == samples[last].telegramId;
      assert Collector.WellFormed(stats[i]);
    }
    hide Collector.Acceptable, Collector.SamplesOf, Preimage;
    assert Database.ValidSamples(samples);
  }

  lemma {:induction false} IdsAreSpread(samples: seq<BatchId.Sample>, i: nat)
    requires Collector.StrictlyOrdered(samples) && i < |samples|
    requires forall k :: 0 <= k < |samples| ==> samples[k].telegramId > 0
    ensures samples[i].telegramId > i
    decreases i
  {
    if i > 0 {
      IdsAreSpread(samples, i - 1);
    }
  }

  // The rest of the step, given the batch.
  lemma SpoolingSucceeds(w: World, b: PendingBatch, env: Env)
    ensures var r := SpoolOf(w, b, env).result;
            && (env.save.FailsAfter? ==> r == Err(SpoolStage))
            && (env.save.Succeeds? ==>
                  && (r.Ok? <==> Records(w.tables, b, env) && env.delete.Succeeds?)
                  && (r == Err(RecordStage) <==> !Records(w.tables, b, env))
                  && (r == Err(CleanupStage) <==> Records(w.tables, b, env) && !env.delete.Succeeds?)
                  && (r.Ok? ==> !r.value.replayed && SpoolOf(w, b, env).world.disk.visible.None?)
                  && r != Err(NoStage))
  {
    hide ValidBatch, Records, CommitOf;
    if env.save.Succeeds? {
      var spooled := w.(disk := Renamed(w.disk, Some(b), env.save));
      CommitSucceeds(spooled.(saved := w.saved + [b]), b, false, env);
    }
  }

  /** A step succeeds exactly when the clock is set, the spool can be read, and
      the rest of its path works: for a waiting batch its recording and the
      removal of its file; for an empty spool the query, and, if the core
      reports anything, the saving, the recording and the removal. A failure
      names the call that failed: nothing but an unset clock is nameless, only
      reading and saving are spool failures, only the query is a collection
      failure, only the transaction a record failure, only the removal a
      cleanup failure. A success leaves no file waiting and says whether one was
      replayed. */
  lemma StepSucceedsExactly(w: World, now: Time, env: Env, c: Collected)
    requires Answers(w, now, env, c)
    ensures var r := StepOf(w, now, env, c).result;
            && (r.Ok? <==> StepWorks(w, now, env, c))
            && (r.Ok? ==>
                  && (r.value.replayed <==> w.disk.visible.Some?)
                  && StepOf(w, now, env, c).world.disk.visible.None?)
            && (r == Err(NoStage) <==> now == NO_TIME)
            && (r == Err(CollectStage) <==> now != NO_TIME && Reads(w, env) && w.disk.visible.None? && !Queries(env))
            && (r == Err(SpoolStage)
                <==> now != NO_TIME
                     && (!Reads(w, env)
                         || (w.disk.visible.None? && Queries(env) && env.reply.stats != []
                             && !Saves(now, c.value, env))))
            && (r == Err(RecordStage)
                <==> now != NO_TIME && Reads(w, env)
                     && match w.disk.visible
                        case Some(b) => !Records(w.tables, b, env)
                        case None => Queries(env) && env.reply.stats != [] && Saves(now, c.value, env)
                                     && !Records(w.tables, NewBatch(now, c.value).value, env))
            && (r == Err(CleanupStage)
                <==> now != NO_TIME && Reads(w, env) && !env.delete.Succeeds?
                     && match w.disk.visible
                        case Some(b) => Records(w.tables, b, env)
                        case None => Queries(env) && env.reply.stats != [] && Saves(now, c.value, env)
                                     && Records(w.tables, NewBatch(now, c.value).value, env))
  {
    hide ValidBatch, CommitOf, CollectOf, Records, Queries, Saves, EnvelopeSize, Collects;
    if now != NO_TIME && Reads(w, env) {
      if w.disk.visible.Some? {
        CommitSucceeds(w, w.disk.visible.value, true, env);
      } else {
        CollectionSucceeds(w, now, env, c);
        StepIsCollection(w, now, env, c);
      }
    }
  }

  lemma StepIsCollection(w: World, now: Time, env: Env, c: Collected)
    requires now != NO_TIME && env.load.Succeeds? && w.disk.visible.None?
    ensures StepOf(w, now, env, c) == CollectOf(w, now, env, c)
    ensures StepWorks(w, now, env, c) ==> Queries(env)
  {
    hide CollectOf, Records, Queries, Saves;
  }

  // ---- a row of polls ----

  lemma StepKeepsHealth(w: World, now: Time, env: Env, c: Collected)
    ensures StepOf(w, now, env, c).world.tables.health == w.tables.health
  {
    hide ValidBatch, NewBatch, CanSave, Database.RecordAll, Database.ValidSamples, EnvelopeSize;
  }

  // The observation a poll makes.
  ghost function ObservationOf(w: World, p: Poll): TrafficHealth.Event {
    if StepWorks(w, p.now, p.env, p.collected) then TrafficHealth.Recovery(p.now) else TrafficHealth.Failure(p.now)
  }

  ghost function ObservationsOf(w: World, polls: seq<Poll>): (events: seq<TrafficHealth.Event>)
    ensures |events| == |polls| && forall i :: 0 <= i < |polls| ==> events[i].at == polls[i].now
    decreases |polls|
  {
    if polls == [] then [] else [ObservationOf(w, polls[0])] + ObservationsOf(Polled(w, polls[0]), polls[1..])
  }

  // Replies are what the collector can make of them, at times that are set.
  ghost predicate PossiblePolls(w: World, polls: seq<Poll>)
    decreases |polls|
  {
    polls == [] || (polls[0].now != NO_TIME && Answers(w, polls[0].now, polls[0].env, polls[0].collected)
                    && PossiblePolls(Polled(w, polls[0]), polls[1..]))
  }

  lemma PollTellsHealth(w: World, p: Poll)
    requires p.now != NO_TIME && Answers(w, p.now, p.env, p.collected)
    ensures Polled(w, p).tables.health == TrafficHealth.Step(w.tables.health, ObservationOf(w, p))
  {
    hide StepOf, StepWorks, Answers;
    StepKeepsHealth(w, p.now, p.env, p.collected);
    StepSucceedsExactly(w, p.now, p.env, p.collected);
  }

  lemma {:induction false} PollsTellHealth(w: World, polls: seq<Poll>, past: seq<TrafficHealth.Event>)
    requires w.tables.health == TrafficHealth.State(past) && PossiblePolls(w, polls)
    ensures PolledAll(w, polls).tables.health == TrafficHealth.State(past + ObservationsOf(w, polls))
    decreases |polls|
  {
    hide Polled, PolledAll, ObservationOf, ObservationsOf, Answers, TrafficHealth.State, TrafficHealth.Step;
    if polls == [] {
      NoPolls(w);
      assert past + [] == past;
    } else {
      var e, w' := ObservationOf(w, polls[0]), Polled(w, polls[0]);
      PollTellsHealth(w, polls[0]);
      StateSnoc(past, e);
      PollsTellHealth(w', polls[1..], past + [e]);
      PollsUnfold(w, polls);
      assert past + ObservationsOf(w, polls) == (past + [e]) + ObservationsOf(w', polls[1..]);
    }
  }

  lemma NoPolls(w: World)
    ensures PolledAll(w, []) == w && ObservationsOf(w, []) == []
  {
  }

  lemma PollsUnfold(w: World, polls: seq<Poll>)
    requires polls != []
    ensures PolledAll(w, polls) == PolledAll(Polled(w, polls[0]), polls[1..])
    ensures ObservationsOf(w, polls) == [ObservationOf(w, polls[0])] + ObservationsOf(Polled(w, polls[0]), polls[1..])
  {
    hide Polled, ObservationOf;
  }

  lemma StateSnoc(past: seq<TrafficHealth.Event>, e: TrafficHealth.Event)
    ensures TrafficHealth.State(past + [e]) == TrafficHealth.Step(TrafficHealth.State(past), e)
  {
    assert (past + [e])[..|past|] == past;
  }

  /** Over every row of polls at increasing times the service is closed exactly
      when the last polls have failed without a break for five minutes; while it
      is, nobody is served. A core that cannot be queried fails every poll with
      an empty spool. */
  lemma ClosedIffPollsFail(w: World, polls: seq<Poll>)
    requires w.tables.health == TrafficHealth.HEALTHY && PossiblePolls(w, polls)
    requires forall i, j :: 0 <= i < j < |polls| ==> polls[i].now < polls[j].now
    ensures var t := PolledAll(w, polls).tables;
            && (t.health.failClosed
                <==> TrafficHealth.StreakSpans(ObservationsOf(w, polls), TrafficHealth.CLOSE_AFTER))
            && (t.health.failClosed ==> forall uid :: Drift.Served(t, uid).None?)
  {
    PollsTellHealth(w, polls, []);
    var events := ObservationsOf(w, polls);
    assert [] + events == events;
    TrafficHealth.ClosedIffStreakIsLong(events);
  }

  // The poll's query fails, or its counters are refused.
  ghost predicate QueryFails(p: Poll) {
    !Queries(p.env)
  }

  lemma {:induction false} QueriesFailThroughout(w: World, polls: seq<Poll>)
    requires w.disk.visible.None? && PossiblePolls(w, polls)
    requires forall i :: 0 <= i < |polls| ==> QueryFails(polls[i])
    ensures forall i :: 0 <= i < |polls| ==> ObservationsOf(w, polls)[i].Failure?
    decreases |polls|
  {
    if polls != [] {
      var p := polls[0];
      assert QueryFails(p);
      FailedQueryLeavesSpool(w, p);
      hide Polled, Answers;
      QueriesFailThroughout(Polled(w, p), polls[1..]);
    }
  }

  lemma FailedQueryLeavesSpool(w: World, p: Poll)
    requires w.disk.visible.None? && QueryFails(p) && Answers(w, p.now, p.env, p.collected)
    ensures Polled(w, p).disk == w.disk && !StepWorks(w, p.now, p.env, p.collected)
  {
    hide Collector.Acceptable, Records, Saves;
  }

  /** So a core whose statistics cannot be had closes the service in five
      minutes. */
  lemma UnreachableCoreCloses(w: World, polls: seq<Poll>)
    requires w.tables.health == TrafficHealth.HEALTHY && w.disk.visible.None? && PossiblePolls(w, polls)
    requires forall i, j :: 0 <= i < j < |polls| ==> polls[i].now < polls[j].now
    requires forall i :: 0 <= i < |polls| ==> QueryFails(polls[i])
    requires polls != [] && polls[|polls| - 1].now - polls[0].now >= TrafficHealth.CLOSE_AFTER
    ensures PolledAll(w, polls).tables.health.failClosed
    ensures forall uid :: Drift.Served(PolledAll(w, polls).tables, uid).None?
  {
    QueriesFailThroughout(w, polls);
    ClosedIffPollsFail(w, polls);
    var events := ObservationsOf(w, polls);
    assert events[0].at == polls[0].now && events[|events| - 1].at == polls[|polls| - 1].now;
  }
}
