/** The one-file spool between collecting and recording. */
module Spool {
  import opened Basics
  import opened BatchId
  import Database

  const MAX_SPOOL_BYTES: int := 0x10_0000

  datatype PendingBatch = PendingBatch(id: seq<Byte>, collectedAt: Time, samples: seq<Sample>)

  predicate ValidSamples(collectedAt: Time, samples: seq<Sample>) {
    collectedAt != NO_TIME && Database.ValidSamples(samples) && |samples| <= MAX_INT64
  }

  lemma ValidIsEncodable(collectedAt: Time, samples: seq<Sample>)
    requires ValidSamples(collectedAt, samples)
    ensures Encodable(samples)
  {
    forall i | 0 <= i < |samples| ensures Storable(samples[i]) {
      assert Database.ValidSample(samples[i]);
    }
  }

  predicate ValidBatch(b: PendingBatch) {
    ValidSamples(b.collectedAt, b.samples)
    && (ValidIsEncodable(b.collectedAt, b.samples); b.id == Preimage(b.collectedAt, b.samples))
  }

  // The id ties a batch to its content, so two valid batches with one id are one batch.
  lemma IdIdentifiesBatch(a: PendingBatch, b: PendingBatch)
    requires ValidBatch(a) && ValidBatch(b)
    ensures a.id == b.id ==> a == b
  {
    ValidIsEncodable(a.collectedAt, a.samples);
    ValidIsEncodable(b.collectedAt, b.samples);
    PreimageInjective(a.collectedAt, a.samples, b.collectedAt, b.samples);
  }

  // The running comparison is against the previous user only; it amounts to a
  // strictly increasing batch.
  method Validate(collectedAt: Time, samples: seq<Sample>) returns (ok: bool)
    ensures ok <==> collectedAt != NO_TIME && Database.ValidSamples(samples)
  {
    if collectedAt == NO_TIME {
      return false;
    }
    var previous := 0;
    for k := 0 to |samples|
      invariant forall i :: 0 <= i < k ==> Database.ValidSample(samples[i])
      invariant forall i, j :: 0 <= i < j < k ==> samples[i].telegramId < samples[j].telegramId
      invariant k > 0 ==> previous == samples[k - 1].telegramId
    {
      var s := samples[k];
      if s.telegramId <= 0 || s.uplink < 0 || s.downlink < 0 || s.uplink > MAX_INT64 - s.downlink {
        assert !Database.ValidSample(samples[k]);
        return false;
      }
      if k > 0 && s.telegramId <= previous {
        return false;
      }
      previous := s.telegramId;
    }
    ok := true;
  }

  function NewBatch(collectedAt: Time, samples: seq<Sample>): Option<PendingBatch> {
    if ValidSamples(collectedAt, samples)
    then (ValidIsEncodable(collectedAt, samples);
          Some(PendingBatch(Preimage(collectedAt, samples), collectedAt, samples)))
    else None
  }

  // ---- the size of the JSON envelope ----

  function Digits(n: int): nat
    decreases if n < 0 then 1 - n else n
  {
    if n < 0 then 1 + Digits(-n) else if n < 10 then 1 else 1 + Digits(n / 10)
  }

  // {"telegram_id":N,"uplink":N,"downlink":N}
  function SampleSize(s: Sample): nat {
    38 + Digits(s.telegramId) + Digits(s.uplink) + Digits(s.downlink)
  }

  // Samples and the commas between them.
  function SamplesSize(samples: seq<Sample>): nat {
    if samples == [] then 0
    else SampleSize(samples[0]) + (if |samples| > 1 then 1 else 0) + SamplesSize(samples[1..])
  }

  // {"version":1,"id":"<64 hex>","collected_at":"<time>","samples":[...]} and a
  // newline; an empty list is written null.
  function EnvelopeSize(b: PendingBatch): nat {
    112 + |Stamp(CivilOf(b.collectedAt))| + if b.samples == [] then 8 else SamplesSize(b.samples) + 6
  }

  // json.Marshal refuses a year that RFC 3339 cannot write.
  predicate Marshals(b: PendingBatch) {
    CivilOf(b.collectedAt).date.year <= 9999
  }

  // ---- the file ----

  // `visible` is what a process sees; `durable` is what a power loss leaves:
  // only synchronising the directory makes the two agree.
  datatype Disk = Disk(visible: Option<PendingBatch>, durable: Option<PendingBatch>)

  // FailsAfter: the rename or removal happened, the directory sync did not.
  function Renamed(d: Disk, file: Option<PendingBatch>, outcome: Outcome): Disk {
    match outcome
    case Succeeds => Disk(file, file)
    case FailsBefore => d
    case FailsAfter => d.(visible := file)
  }

  predicate CanSave(d: Disk, b: PendingBatch) {
    ValidBatch(b) && d.visible.None? && Marshals(b)
  }

  function Loaded(d: Disk): Result<Option<PendingBatch>, ()> {
    match d.visible
    case None => Ok(None)
    case Some(b) => if EnvelopeSize(b) > MAX_SPOOL_BYTES || !ValidBatch(b) then Err(()) else Ok(Some(b))
  }

  class FileSpool {
    var visible: Option<PendingBatch>
    ghost var durable: Option<PendingBatch>

    ghost function Value(): Disk
      reads this
    {
      Disk(visible, durable)
    }

    constructor (d: Disk)
      ensures Value() == d
    {
      visible, durable := d.visible, d.durable;
    }

    method Save(b: PendingBatch, outcome: Outcome) returns (ok: bool)
      modifies this
      ensures ok <==> CanSave(old(Value()), b) && outcome.Succeeds?
      ensures Value() == if CanSave(old(Value()), b) then Renamed(old(Value()), Some(b), outcome) else old(Value())
    {
      if !ValidBatch(b) || visible.Some? || !Marshals(b) || outcome.FailsBefore? {
        return false;
      }
      visible := Some(b);
      if outcome.FailsAfter? {
        return false;
      }
      durable := Some(b);
      ok := true;
    }

    method Load(outcome: Outcome) returns (r: Result<Option<PendingBatch>, ()>)
      ensures r == if outcome.Succeeds? then Loaded(Value()) else Err(())
    {
      if !outcome.Succeeds? {
        return Err(());
      }
      if visible.None? {
        return Ok(None);
      }
      if EnvelopeSize(visible.value) > MAX_SPOOL_BYTES || !ValidBatch(visible.value) {
        return Err(());
      }
      r := Ok(visible);
    }

    // A missing file is already deleted: nothing is synchronised then.
    method Delete(outcome: Outcome) returns (ok: bool)
      modifies this
      ensures ok <==> old(visible).None? || outcome.Succeeds?
      ensures Value() == if old(visible).None? then old(Value()) else Renamed(old(Value()), None, outcome)
    {
      if visible.None? {
        return true;
      }
      if outcome.FailsBefore? {
        return false;
      }
      visible := None;
      if outcome.FailsAfter? {
        return false;
      }
      durable := None;
      ok := true;
    }
  }

  /** A saved batch is loaded back, bit for bit, exactly when its envelope is at
      most one mebibyte: saving does not check the limit that loading enforces. */
  lemma {:induction false} SaveLoadRoundTrip(d: Disk, b: PendingBatch)
    requires CanSave(d, b)
    ensures Loaded(Renamed(d, Some(b), Succeeds)) == Ok(Some(b)) <==> EnvelopeSize(b) <= MAX_SPOOL_BYTES
    ensures Loaded(Renamed(d, Some(b), Succeeds)).Err? <==> EnvelopeSize(b) > MAX_SPOOL_BYTES
  {
  }

  /** Such batches exist: every user adds more than forty bytes. */
  lemma {:induction false} EnvelopeGrows(samples: seq<Sample>)
    ensures SamplesSize(samples) >= 41 * |samples|
    decreases |samples|
  {
    if samples != [] {
      EnvelopeGrows(samples[1..]);
    }
  }

  function IdleUsers(n: nat): (samples: seq<Sample>)
    requires n <= MAX_INT64
    ensures |samples| == n
    ensures forall i :: 0 <= i < n ==>
              samples[i].telegramId == i + 1 && samples[i].uplink == samples[i].downlink == 0
  {
    if n == 0 then [] else IdleUsers(n - 1) + [Sample(n, 0, 0)]
  }

  lemma IdleUsersAreValid(n: nat)
    requires n <= MAX_INT64
    ensures Database.ValidSamples(IdleUsers(n))
  {
  }

  lemma {:induction false} OversizeBatchesAreSaved(collectedAt: Time, users: nat)
    requires collectedAt != NO_TIME && Marshals(PendingBatch([], collectedAt, []))
    requires 30_000 <= users <= MAX_INT64
    ensures NewBatch(collectedAt, IdleUsers(users)).Some?
    ensures var b := NewBatch(collectedAt, IdleUsers(users)).value;
            CanSave(Disk(None, None), b) && EnvelopeSize(b) > MAX_SPOOL_BYTES
  {
    IdleUsersAreValid(users);
    EnvelopeGrows(IdleUsers(users));
  }
}
