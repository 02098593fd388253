/** Whole runs of the traffic pipeline. */
module LedgerRuns {
  import opened Basics
  import BatchId
  import Collector
  import opened Spool
  import Database
  import opened Ledger

  datatype Event =
    | Collection(now: Time, env: Env, collected: Collected)
    | PowerLoss                                // the disk falls back to what was synchronised
    | OtherWriters(tables: Database.Tables)    // any transactions that leave the batch table alone

  type Keys = set<Database.BatchKey>

  // Spooled bytes that have not entered the tables.
  function PendingBytes(file: Option<PendingBatch>, ingested: Keys): int {
    match file
    case None => 0
    case Some(b) => if b.id in ingested then 0 else Collector.SampleBytes(b.samples)
  }

  function Next(w: World, e: Event): World {
    match e
    case Collection(now, env, collected) => StepOf(w, now, env, collected).world
    case PowerLoss =>
      w.(disk := Disk(w.disk.durable, w.disk.durable),
         lost := w.lost + if w.disk.visible == w.disk.durable then 0
                          else PendingBytes(w.disk.visible, w.tables.ingested))
    case OtherWriters(tables) => w.(tables := tables)
  }

  // Replies are what the collector can make of them; times are unrestricted.
  ghost predicate Possible(w: World, e: Event) {
    match e
    case Collection(now, env, collected) => Answers(w, now, env, collected)
    case PowerLoss => true
    case OtherWriters(tables) => tables.ingested == w.tables.ingested
  }

  ghost predicate PossibleRun(w: World, events: seq<Event>)
    decreases |events|
  {
    events == [] || (Possible(w, events[0]) && PossibleRun(Next(w, events[0]), events[1..]))
  }

  function Run(w: World, events: seq<Event>): World
    decreases |events|
  {
    if events == [] then w else Run(Next(w, events[0]), events[1..])
  }

  function BatchBytes(batches: seq<PendingBatch>): int {
    if batches == [] then 0
    else BatchBytes(batches[..|batches| - 1]) + Collector.SampleBytes(batches[|batches| - 1].samples)
  }

  // ---- what every run keeps, whatever its clock does ----

  predicate Settled(ingested: Keys, b: PendingBatch) {
    b.id in ingested || Countless(b)
  }

  // The ingested ids are exactly those of the batches entered, one each.
  ghost predicate EnteredOnce(ingested: Keys, entered: seq<PendingBatch>) {
    && (forall i :: 0 <= i < |entered| ==> ValidBatch(entered[i]) && entered[i].id in ingested)
    && (forall i, j :: 0 <= i < j < |entered| ==> entered[i].id != entered[j].id)
    && (forall id :: id in ingested ==> exists i :: 0 <= i < |entered| && entered[i].id == id)
  }

  // A file only a power loss can bring back has nothing left to say.
  predicate FilesSane(disk: Disk, ingested: Keys) {
    && (disk.visible.Some? ==> ValidBatch(disk.visible.value))
    && (disk.durable.Some? ==> ValidBatch(disk.durable.value))
    && (disk.durable.Some? && disk.durable != disk.visible ==> Settled(ingested, disk.durable.value))
  }

  // A batch that was spooled has entered the tables unless its file is there.
  predicate SavedKept(disk: Disk, ingested: Keys, saved: seq<PendingBatch>) {
    forall i :: 0 <= i < |saved| ==>
      && ValidBatch(saved[i])
      && (Settled(ingested, saved[i]) || (disk.visible == Some(saved[i]) && disk.durable == Some(saved[i])))
  }

  ghost predicate Safe(w: World) {
    && EnteredOnce(w.tables.ingested, w.entered)
    && FilesSane(w.disk, w.tables.ingested)
    && SavedKept(w.disk, w.tables.ingested, w.saved)
  }

  // Drained bytes that are nowhere: not entered, not spooled, not given up.
  function Missing(w: World): int {
    w.drained - BatchBytes(w.entered) - PendingBytes(w.disk.visible, w.tables.ingested) - w.lost
  }

  predicate Conserved(w: World) {
    Missing(w) == 0
  }

  // `w'` follows `w` safely, and `vanished` more bytes are missing.
  ghost predicate Follows(w: World, w': World, vanished: int) {
    Safe(w') && Missing(w') == Missing(w) + vanished
  }

  lemma {:induction false} CountlessHasNoBytes(samples: seq<BatchId.Sample>)
    requires Database.ValidSamples(samples)
    ensures Collector.SampleBytes(samples) >= 0
    ensures Collector.SampleBytes(samples) == 0 <==> Database.Positive(samples) == []
    decreases |samples|
  {
    Database.PositiveMembers(samples);
    forall s | s in samples ensures s.uplink + s.downlink >= 0 {
      var i :| 0 <= i < |samples| && samples[i] == s;
      assert Database.ValidSample(samples[i]);
    }
    if |Database.Positive(samples)| > 0 {
      assert Database.Positive(samples)[0] in Database.Positive(samples);
    }
    assert forall s :: s in samples && s.uplink + s.downlink > 0 ==> s in Database.Positive(samples);
    BytesAreTraffic(samples);
  }

  lemma {:induction false} BytesAreTraffic(samples: seq<BatchId.Sample>)
    requires forall s :: s in samples ==> s.uplink + s.downlink >= 0
    ensures Collector.SampleBytes(samples) >= 0
    ensures Collector.SampleBytes(samples) == 0 <==> forall s :: s in samples ==> s.uplink + s.downlink == 0
    decreases |samples|
  {
    if samples != [] {
      assert samples == [samples[0]] + samples[1..];
      BytesAreTraffic(samples[1..]);
    }
  }

  lemma BatchBytesAreTraffic(b: PendingBatch)
    requires ValidBatch(b)
    ensures Collector.SampleBytes(b.samples) >= 0
    ensures Collector.SampleBytes(b.samples) == 0 <==> Countless(b)
  {
    CountlessHasNoBytes(b.samples);
  }

  lemma EnteringKeepsOnce(ingested: Keys, entered: seq<PendingBatch>, b: PendingBatch)
    requires EnteredOnce(ingested, entered) && ValidBatch(b) && b.id !in ingested
    ensures EnteredOnce(ingested + {b.id}, entered + [b])
  {
    hide ValidBatch;
    var entered' := entered + [b];
    forall id | id in ingested + {b.id} ensures exists i :: 0 <= i < |entered'| && entered'[i].id == id {
      if id in ingested {
        var i :| 0 <= i < |entered| && entered[i].id == id;
        assert entered'[i].id == id;
      } else {
        assert entered'[|entered|].id == id;
      }
    }
  }

  // What recording does to the ids: one is added, by a batch that counts.
  lemma RecordingIngests(t: Database.Tables, b: PendingBatch, r: Database.Recorded)
    requires ValidBatch(b) && Database.RecordBatch(t, b.collectedAt, b.samples, b.id) == Ok(r)
    ensures r.tables.ingested == if Countless(b) then t.ingested else t.ingested + {b.id}
    ensures Countless(b) ==> r.tables == t
  {
    hide ValidBatch, Database.ValidSamples, Database.RecordAll;
    if !Countless(b) && b.id in t.ingested {
      assert t.ingested + {b.id} == t.ingested;
    }
  }

  lemma IngestedSettles(w: World, ingested: Keys)
    requires FilesSane(w.disk, w.tables.ingested) && SavedKept(w.disk, w.tables.ingested, w.saved)
    requires w.tables.ingested <= ingested
    ensures FilesSane(w.disk, ingested) && SavedKept(w.disk, ingested, w.saved)
  {
    hide ValidBatch, Countless;
  }

  function Entered(w: World, b: PendingBatch, tables: Database.Tables): World {
    w.(tables := tables, entered := if !Countless(b) && b.id !in w.tables.ingested then w.entered + [b] else w.entered)
  }

  // The transaction entered `b`: its bytes are in the tables, not in the file.
  lemma EnteredFollows(w: World, b: PendingBatch, tables: Database.Tables)
    requires Safe(w) && w.disk.visible == Some(b) && ValidBatch(b)
    requires tables.ingested == if Countless(b) then w.tables.ingested else w.tables.ingested + {b.id}
    ensures Follows(w, Entered(w, b, tables), 0) && Settled(tables.ingested, b)
  {
    hide ValidBatch, Countless, Collector.SampleBytes, FilesSane, SavedKept, EnteredOnce, BatchBytes;
    IngestedSettles(w, tables.ingested);
    if b.id !in w.tables.ingested && !Countless(b) {
      FirstEntryFollows(w, b, tables);
    } else {
      assert tables.ingested == w.tables.ingested;
    }
  }

  lemma FirstEntryFollows(w: World, b: PendingBatch, tables: Database.Tables)
    requires Safe(w) && w.disk.visible == Some(b) && ValidBatch(b)
    requires b.id !in w.tables.ingested && tables.ingested == w.tables.ingested + {b.id}
    ensures Follows(w, w.(tables := tables, entered := w.entered + [b]), 0)
  {
    hide ValidBatch, Countless, Collector.SampleBytes, FilesSane, SavedKept, EnteredOnce, BatchBytes;
    IngestedSettles(w, tables.ingested);
    EnteringKeepsOnce(w.tables.ingested, w.entered, b);
    OneMoreBatch(w.entered, b);
  }

  lemma OneMoreBatch(batches: seq<PendingBatch>, b: PendingBatch)
    ensures BatchBytes(batches + [b]) == BatchBytes(batches) + Collector.SampleBytes(b.samples)
  {
    assert (batches + [b])[..|batches|] == batches;
  }

  // Removing the file of a batch that has entered.
  lemma RemovalFollows(w: World, b: PendingBatch, outcome: Outcome)
    requires Safe(w) && w.disk.visible == Some(b) && ValidBatch(b) && Settled(w.tables.ingested, b)
    ensures Follows(w, w.(disk := Renamed(w.disk, None, outcome)), 0)
  {
    RemovalKeepsFiles(w, b, outcome);
    BatchBytesAreTraffic(b);
    hide ValidBatch, EnteredOnce, FilesSane, SavedKept, Countless, Collector.SampleBytes, BatchBytes;
  }

  lemma RemovalKeepsFiles(w: World, b: PendingBatch, outcome: Outcome)
    requires Safe(w) && w.disk.visible == Some(b) && Settled(w.tables.ingested, b)
    ensures FilesSane(Renamed(w.disk, None, outcome), w.tables.ingested)
    ensures SavedKept(Renamed(w.disk, None, outcome), w.tables.ingested, w.saved)
  {
    hide EnteredOnce, Settled, ValidBatch;
  }

  lemma SpooledIsValid(w: World, b: PendingBatch)
    requires Safe(w) && w.disk.visible == Some(b)
    ensures ValidBatch(b)
  {
    hide ValidBatch;
  }

  // Committing the batch that the spool file holds.
  lemma CommitFollows(w: World, b: PendingBatch, replayed: bool, env: Env)
    requires Safe(w) && w.disk.visible == Some(b)
    ensures Follows(w, CommitOf(w, b, replayed, env).world, 0)
  {
    hide Safe, Missing, ValidBatch, Countless, Settled, Database.RecordBatch;
    SpooledIsValid(w, b);
    var tx := Database.RecordBatch(w.tables, b.collectedAt, b.samples, b.id);
    if tx.Ok? {
      var r := tx.value;
      RecordingIngests(w.tables, b, r);
      EnteredFollows(w, b, r.tables);
      var w1 := Entered(w, b, r.tables);
      RemovalFollows(w1, b, env.delete);
    }
  }

  /** Committing a batch without traffic changes no table and leaves no id; its
      file goes all the same. */
  lemma CountlessLeavesNoId(w: World, b: PendingBatch, replayed: bool, env: Env)
    requires ValidBatch(b) && Countless(b) && w.disk.visible == Some(b)
    ensures CommitOf(w, b, replayed, env).world == w.(disk := Renamed(w.disk, None, env.delete))
    ensures CommitOf(w, b, replayed, env).result.Ok? <==> env.delete.Succeeds?
  {
    hide Database.ValidSamples;
  }

  // A new batch reaches the file, synchronised or not. If its id is known, its
  // bytes are in no account from then on.
  lemma SavingFollows(w: World, b: PendingBatch, env: Env)
    requires Safe(w) && w.disk.visible.None? && !env.save.FailsBefore? && ValidBatch(b)
    requires Collector.SampleBytes(b.samples) == Drained(env)
    ensures Follows(w, w.(drained := w.drained + Drained(env), disk := Renamed(w.disk, Some(b), env.save)),
                    if b.id in w.tables.ingested then Drained(env) else 0)
  {
    hide ValidBatch, Countless, EnteredOnce, Collector.SampleBytes, Drained, BatchBytes;
  }

  // Bytes drained and given up on the way to the spool; `dropped` may be 0.
  lemma WasteFollows(w: World, dropped: int)
    requires Safe(w)
    ensures Follows(w, w.(drained := w.drained + dropped, lost := w.lost + dropped), 0)
  {
    hide EnteredOnce, FilesSane, SavedKept;
  }

  // The step collects, and what it collected reaches the spool.
  predicate Spools(w: World, now: Time, env: Env, collected: Collected) {
    && now != NO_TIME && env.load.Succeeds? && w.disk.visible.None?
    && collected.Ok? && collected.value != [] && !env.save.FailsBefore?
    && var b := NewBatch(now, collected.value); b.Some? && CanSave(w.disk, b.value)
  }

  // The drained bytes that go into a batch whose id is already ingested.
  function Vanished(w: World, e: Event): int {
    if e.Collection? && Spools(w, e.now, e.env, e.collected)
       && NewBatch(e.now, e.collected.value).value.id in w.tables.ingested
    then Drained(e.env) else 0
  }

  lemma CollectCases(w: World, now: Time, env: Env, collected: Collected)
    requires now != NO_TIME && env.load.Succeeds? && w.disk.visible.None?
    ensures var w' := CollectOf(w, now, env, collected).world;
            var taken := w.(drained := w.drained + Drained(env));
            if Spools(w, now, env, collected)
            then w' == SpoolOf(taken, NewBatch(now, collected.value).value, env).world
            else w' == taken.(lost := w.lost + Drained(env)) || (collected == Ok([]) && w' == taken)
  {
    hide CanSave, NewBatch, SpoolOf, Drained;
  }

  lemma NewBatchIsValid(now: Time, samples: seq<BatchId.Sample>)
    requires NewBatch(now, samples).Some?
    ensures var b := NewBatch(now, samples).value; ValidBatch(b) && b.collectedAt == now && b.samples == samples
  {
  }

  lemma CollectedBytes(env: Env, samples: seq<BatchId.Sample>)
    requires Collects(env, Ok(samples))
    ensures Collector.SampleBytes(samples) == Drained(env)
  {
    hide Collector.Acceptable, Collector.SamplesOf, Collector.StatBytes, Collector.SampleBytes;
    Collector.CollectConserves(env.reply.stats, samples);
  }

  lemma SpoolingFollows(w: World, now: Time, env: Env, samples: seq<BatchId.Sample>)
    requires Safe(w) && Spools(w, now, env, Ok(samples)) && Collector.SampleBytes(samples) == Drained(env)
    ensures var b := NewBatch(now, samples).value;
            Follows(w, SpoolOf(w.(drained := w.drained + Drained(env)), b, env).world,
                    if b.id in w.tables.ingested then Drained(env) else 0)
  {
    var b := NewBatch(now, samples).value;
    NewBatchIsValid(now, samples);
    hide ValidBatch, NewBatch, CanSave, CommitOf, Drained, Collector.SampleBytes, Missing, Safe;
    SavingFollows(w, b, env);
    SpooledFollows(w.(drained := w.drained + Drained(env)), b, env);
  }

  // The rest of the step, once the file is there.
  lemma SpooledFollows(w: World, b: PendingBatch, env: Env)
    requires !env.save.FailsBefore? && ValidBatch(b)
    requires Safe(w.(disk := Renamed(w.disk, Some(b), env.save)))
    ensures Follows(w.(disk := Renamed(w.disk, Some(b), env.save)), SpoolOf(w, b, env).world, 0)
  {
    hide ValidBatch, CommitOf, Missing, Safe;
    if env.save.Succeeds? {
      var spooled := w.(disk := Renamed(w.disk, Some(b), env.save));
      SavedFollows(spooled, b);
      CommitFollows(spooled.(saved := w.saved + [b]), b, false, env);
    }
  }

  // The batch in the file, safely there, counts as saved.
  lemma SavedFollows(w: World, b: PendingBatch)
    requires Safe(w) && ValidBatch(b) && w.disk == Disk(Some(b), Some(b))
    ensures Follows(w, w.(saved := w.saved + [b]), 0)
  {
    hide ValidBatch, Countless, EnteredOnce, FilesSane;
  }

  lemma NoSamplesNoBytes()
    ensures Collector.SampleBytes([]) == 0
  {
  }

  lemma CollectingFollows(w: World, now: Time, env: Env, collected: Collected)
    requires Safe(w) && now != NO_TIME && env.load.Succeeds? && w.disk.visible.None? && Collects(env, collected)
    ensures Follows(w, CollectOf(w, now, env, collected).world, Vanished(w, Collection(now, env, collected)))
  {
    hide Safe, Missing, NewBatch, SpoolOf, CollectOf, Drained, Collects, Spools, Collector.SampleBytes;
    CollectCases(w, now, env, collected);
    WasteFollows(w, Drained(env));
    if Spools(w, now, env, collected) {
      SpoolsSomething(w, now, env, collected);
      CollectedBytes(env, collected.value);
      SpoolingFollows(w, now, env, collected.value);
    } else if collected == Ok([]) {
      CollectedBytes(env, []);
      NoSamplesNoBytes();
      WasteFollows(w, 0);
    }
  }

  lemma SpoolsSomething(w: World, now: Time, env: Env, collected: Collected)
    requires Spools(w, now, env, collected)
    ensures collected.Ok? && NewBatch(now, collected.value).Some?
  {
    hide NewBatch, CanSave;
  }

  lemma CollectionFollows(w: World, now: Time, env: Env, collected: Collected)
    requires Safe(w) && Answers(w, now, env, collected)
    ensures Follows(w, StepOf(w, now, env, collected).world, Vanished(w, Collection(now, env, collected)))
  {
    hide ValidBatch, Safe, Missing, CommitOf, CollectOf, Collects, Drained, NewBatch;
    if now != NO_TIME && env.load.Succeeds? && Loaded(w.disk).Ok? {
      if w.disk.visible.Some? {
        CommitFollows(w, w.disk.visible.value, true, env);
      } else {
        CollectingFollows(w, now, env, collected);
      }
    }
  }

  lemma PowerLossFollows(w: World)
    requires Safe(w)
    ensures Follows(w, Next(w, PowerLoss), 0)
  {
    hide EnteredOnce, ValidBatch, Collector.SampleBytes, Countless;
    if w.disk.durable.Some? {
      BatchBytesAreTraffic(w.disk.durable.value);
    }
  }

  lemma NextFollows(w: World, e: Event)
    requires Safe(w) && Possible(w, e)
    ensures Follows(w, Next(w, e), Vanished(w, e))
  {
    match e {
      case Collection(now, env, collected) =>
        CollectionFollows(w, now, env, collected);
        hide Safe, StepOf, Answers, Vanished;
      case PowerLoss => PowerLossFollows(w);
      case OtherWriters(tables) => hide EnteredOnce, ValidBatch;
    }
  }

  // ---- whole runs ----

  function AllVanished(w: World, events: seq<Event>): int
    decreases |events|
  {
    if events == [] then 0 else Vanished(w, events[0]) + AllVanished(Next(w, events[0]), events[1..])
  }

  lemma {:induction false} RunFollows(w: World, events: seq<Event>)
    requires Safe(w) && PossibleRun(w, events)
    ensures Follows(w, Run(w, events), AllVanished(w, events))
    decreases |events|
  {
    hide Safe, Missing, Next, Possible, Vanished;
    if events != [] {
      NextFollows(w, events[0]);
      RunFollows(Next(w, events[0]), events[1..]);
    }
  }

  lemma SavedIsAccountedFor(w: World, b: PendingBatch)
    requires Safe(w) && b in w.saved
    ensures b in w.entered || Countless(b) || w.disk.visible == Some(b)
  {
    hide ValidBatch, Countless;
    var i :| 0 <= i < |w.saved| && w.saved[i] == b;
    if b.id in w.tables.ingested {
      var j :| 0 <= j < |w.entered| && w.entered[j].id == b.id;
      IdIdentifiesBatch(w.entered[j], b);
    }
  }

  function Fresh(tables: Database.Tables): World {
    World(tables, Disk(None, None), 0, 0, [], [])
  }

  // A collection spools a batch with traffic that the tables already have.
  predicate Repeats(w: World, e: Event) {
    && e.Collection? && Spools(w, e.now, e.env, e.collected)
    && var b := NewBatch(e.now, e.collected.value).value; b.id in w.tables.ingested && !Countless(b)
  }

  predicate NeverRepeats(w: World, events: seq<Event>)
    decreases |events|
  {
    events == [] || (!Repeats(w, events[0]) && NeverRepeats(Next(w, events[0]), events[1..]))
  }

  predicate ConservedThroughout(w: World, events: seq<Event>)
    decreases |events|
  {
    Conserved(w) && (events != [] ==> ConservedThroughout(Next(w, events[0]), events[1..]))
  }

  // Bytes vanish in exactly the repeated collections.
  lemma RepeatsVanish(w: World, e: Event)
    requires Possible(w, e)
    ensures Vanished(w, e) >= 0 && (Vanished(w, e) > 0 <==> Repeats(w, e))
  {
    hide Collects, CanSave, NewBatch, Drained, Countless;
    if e.Collection? && Spools(w, e.now, e.env, e.collected) {
      var b := NewBatch(e.now, e.collected.value).value;
      NewBatchIsValid(e.now, e.collected.value);
      CollectedBytes(e.env, e.collected.value);
      BatchBytesAreTraffic(b);
    }
  }

  /** On every run, whatever its clock does, whichever calls fail or crash,
      before or after their effect, and whenever the power goes: no batch enters
      the tables twice; a batch that was spooled has entered them, or holds no
      traffic, or still has its file; and the bytes drained from the core are
      the bytes entered, those waiting in the spool, those that never became
      durable, and exactly those of collections whose batch id was known. */
  lemma {:induction false} ExactlyOnce(tables: Database.Tables, events: seq<Event>)
    requires tables.ingested == {} && PossibleRun(Fresh(tables), events)
    ensures var w := Run(Fresh(tables), events);
            && (forall i, j :: 0 <= i < j < |w.entered| ==> w.entered[i] != w.entered[j])
            && (forall i :: 0 <= i < |w.saved| ==>
                  w.saved[i] in w.entered || Countless(w.saved[i]) || w.disk.visible == Some(w.saved[i]))
            && w.drained == BatchBytes(w.entered) + PendingBytes(w.disk.visible, w.tables.ingested) + w.lost
                            + AllVanished(Fresh(tables), events)
  {
    RunFollows(Fresh(tables), events);
    var w := Run(Fresh(tables), events);
    forall i | 0 <= i < |w.saved|
      ensures w.saved[i] in w.entered || Countless(w.saved[i]) || w.disk.visible == Some(w.saved[i])
    {
      SavedIsAccountedFor(w, w.saved[i]);
    }
  }

  /** No byte goes missing at any point of a run exactly when no collection
      spools the instant and samples of a batch with traffic that the tables
      already have. */
  lemma {:induction false} ConservedIffNeverRepeats(w: World, events: seq<Event>)
    requires Safe(w) && Conserved(w) && PossibleRun(w, events)
    ensures ConservedThroughout(w, events) <==> NeverRepeats(w, events)
    decreases |events|
  {
    hide Safe, Missing, Next, Possible, Vanished, Repeats;
    if events != [] {
      var w' := Next(w, events[0]);
      NextFollows(w, events[0]);
      RepeatsVanish(w, events[0]);
      if !Repeats(w, events[0]) {
        ConservedIffNeverRepeats(w', events[1..]);
      }
    }
  }

  // ---- a clock that moves on never repeats ----

  // Collection times strictly increase.
  predicate Ordered(events: seq<Event>, last: Time)
    decreases |events|
  {
    events == []
    || (if events[0].Collection? then last < events[0].now && Ordered(events[1..], events[0].now)
        else Ordered(events[1..], last))
  }

  // Everything entered or on disk is stamped by then.
  predicate StampedBy(w: World, last: Time) {
    && (forall i :: 0 <= i < |w.entered| ==> w.entered[i].collectedAt <= last)
    && (w.disk.visible.Some? ==> w.disk.visible.value.collectedAt <= last)
    && (w.disk.durable.Some? ==> w.disk.durable.value.collectedAt <= last)
  }

  // A batch stamped later than everything ingested cannot have been ingested.
  lemma NewIdIsFresh(w: World, b: PendingBatch, last: Time)
    requires Safe(w) && StampedBy(w, last) && ValidBatch(b) && last < b.collectedAt
    ensures b.id !in w.tables.ingested
  {
    hide ValidBatch, FilesSane, SavedKept;
    if b.id in w.tables.ingested {
      var i :| 0 <= i < |w.entered| && w.entered[i].id == b.id;
      IdIdentifiesBatch(w.entered[i], b);
    }
  }

  lemma CommitKeepsStamps(w: World, b: PendingBatch, replayed: bool, env: Env, last: Time)
    requires StampedBy(w, last) && w.disk.visible == Some(b)
    ensures StampedBy(CommitOf(w, b, replayed, env).world, last)
  {
    hide ValidBatch, Countless, Database.RecordBatch;
  }

  lemma StepKeepsStamps(w: World, now: Time, env: Env, collected: Collected, last: Time)
    requires StampedBy(w, last) && last <= now
    ensures StampedBy(StepOf(w, now, env, collected).world, now)
  {
    hide ValidBatch, CommitOf, CollectOf, CanSave, NewBatch, Drained;
    if now != NO_TIME && env.load.Succeeds? && Loaded(w.disk).Ok? {
      if w.disk.visible.Some? {
        CommitKeepsStamps(w, w.disk.visible.value, true, env, now);
      } else {
        CollectCases(w, now, env, collected);
        if Spools(w, now, env, collected) {
          SpoolsSomething(w, now, env, collected);
          var b := NewBatch(now, collected.value).value;
          NewBatchIsValid(now, collected.value);
          var spooled := w.(drained := w.drained + Drained(env), disk := Renamed(w.disk, Some(b), env.save));
          CommitKeepsStamps(spooled.(saved := w.saved + [b]), b, false, env, now);
        }
      }
    }
  }

  lemma {:induction false} OrderedNeverRepeats(w: World, events: seq<Event>, last: Time)
    requires Safe(w) && StampedBy(w, last) && PossibleRun(w, events) && Ordered(events, last)
    ensures NeverRepeats(w, events)
    decreases |events|
  {
    hide Safe, StampedBy, Spools, Next, Possible, Missing, Vanished, NewBatch;
    if events != [] {
      var e := events[0];
      NextFollows(w, e);
      NextIsNew(w, e, last);
      OrderedNeverRepeats(Next(w, e), events[1..], if e.Collection? then e.now else last);
    }
  }

  lemma NextIsNew(w: World, e: Event, last: Time)
    requires Safe(w) && StampedBy(w, last) && (e.Collection? ==> last < e.now)
    ensures !Repeats(w, e) && StampedBy(Next(w, e), if e.Collection? then e.now else last)
  {
    if e.Collection? {
      if Spools(w, e.now, e.env, e.collected) {
        SpoolsSomething(w, e.now, e.env, e.collected);
        NewBatchIsValid(e.now, e.collected.value);
        NewIdIsFresh(w, NewBatch(e.now, e.collected.value).value, last);
      }
      StepKeepsStamps(w, e.now, e.env, e.collected, last);
      hide Safe, StampedBy, Spools, StepOf, NewBatch;
    }
  }

  /** So with strictly increasing collection times every drained byte is
      entered, waiting in the spool, or never became durable. */
  lemma OrderedRunsConserve(tables: Database.Tables, events: seq<Event>)
    requires tables.ingested == {} && PossibleRun(Fresh(tables), events) && Ordered(events, NO_TIME)
    ensures ConservedThroughout(Fresh(tables), events)
  {
    OrderedNeverRepeats(Fresh(tables), events, NO_TIME);
    ConservedIffNeverRepeats(Fresh(tables), events);
  }
}
