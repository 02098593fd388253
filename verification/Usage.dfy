/** What a user's stored usage is made of, over whole runs of transactions. */
module Usage {
  import opened Basics
  import BatchId
  import opened Database
  import opened Recording
  import opened Drift

  // What one transaction does to a user's usage: it begins anew, by a restart
  // of the period or by a roll-over, or bytes of a newly entered batch count.
  datatype Entry = Reset | Bytes(bytes: nat)

  function Used(t: Tables, uid: int): nat {
    if uid in t.users && t.users[uid].quota.Some? && t.users[uid].quota.value.usedBytes >= 0
    then t.users[uid].quota.value.usedBytes else 0
  }

  // The traffic of an active user in an accepted batch that was not known.
  function NewTraffic(t: Tables, samples: seq<BatchId.Sample>, key: BatchKey, uid: int): Option<BatchId.Sample> {
    if key !in t.ingested && uid in t.users && Qualifies(t.users[uid]) && t.users[uid].quota.Some?
    then SampleFor(Positive(samples), uid) else None
  }

  predicate PeriodEnded(row: UserRow, at: Time)
    requires row.quota.Some?
  {
    row.quota.value.periodStartedAt + row.quota.value.periodSeconds * SECOND <= at
  }

  function EntriesOf(t: Tables, w: Write, uid: int): seq<Entry> {
    if Effect(t, w).Err? then []
    else match w
      case Provisioning(who, issue, _) => if who == uid && ResetsQuota(issue) then [Reset] else []
      case SweepQuotas(taken, now) =>
        if uid in taken && uid in t.users && Due(t.users[uid], now) then [Reset] else []
      case CountTraffic(at, samples, key) =>
        (match NewTraffic(t, samples, key, uid)
         case None => []
         case Some(s) =>
           if s.uplink < 0 || s.downlink < 0 then []
           else (if PeriodEnded(t.users[uid], at) then [Reset] else []) + [Bytes(s.uplink + s.downlink)])
      case _ => []
  }

  function Entries(t: Tables, writes: seq<Write>, uid: int): seq<Entry>
    decreases |writes|
  {
    if writes == [] then [] else EntriesOf(t, writes[0], uid) + Entries(After(t, writes[0]), writes[1..], uid)
  }

  // The bytes counted since the last time the usage began anew.
  function SinceReset(entries: seq<Entry>): nat {
    if entries == [] then 0
    else match entries[|entries| - 1]
      case Reset => 0
      case Bytes(bytes) => SinceReset(entries[..|entries| - 1]) + bytes
  }

  // With what was there before, unless it began anew since.
  function Total(used: nat, entries: seq<Entry>): nat {
    SinceReset(entries) + if Reset in entries then 0 else used
  }

  lemma TotalSnoc(used: nat, entries: seq<Entry>, e: Entry)
    ensures Total(used, entries + [e]) == if e.Reset? then 0 else Total(used, entries) + e.bytes
  {
    assert (entries + [e])[..|entries|] == entries;
    assert (entries + [e])[|entries|] == e;
  }

  lemma {:induction false} TotalsCompose(used: nat, a: seq<Entry>, b: seq<Entry>)
    ensures Total(used, a + b) == Total(Total(used, a), b)
    decreases |b|
  {
    if b == [] {
      assert a + b == a;
      assert SinceReset([]) == 0;
    } else {
      var before, e := b[..|b| - 1], b[|b| - 1];
      TotalsCompose(used, a, before);
      assert b == before + [e] && a + b == (a + before) + [e];
      TotalSnoc(used, a + before, e);
      TotalSnoc(Total(used, a), before, e);
      hide Total;
    }
  }

  lemma SmallTotals(used: nat, bytes: int)
    ensures Total(used, []) == used
    ensures bytes >= 0 ==> Total(used, [] + [Bytes(bytes)]) == used + bytes
    ensures bytes >= 0 ==> Total(used, [Reset] + [Bytes(bytes)]) == bytes
  {
    if bytes >= 0 {
      assert ([] + [Bytes(bytes)])[..0] == [];
      assert ([Reset] + [Bytes(bytes)])[..1] == [Reset] && ([Reset] + [Bytes(bytes)])[0] == Reset;
      assert SinceReset([Reset]) == 0;
      assert [Bytes(bytes)] == [] + [Bytes(bytes)];
    }
  }

  // Recording an active user's traffic.
  lemma RowUsage(row: UserRow, at: Time, s: BatchId.Sample)
    requires Stored(row) && Qualifies(row) && row.quota.Some? && RowAfter(row, at, s).Ok?
    requires ValidSample(s) && s.uplink + s.downlink > 0
    ensures RowAfter(row, at, s).value.quota.Some?
    ensures RowAfter(row, at, s).value.quota.value.usedBytes
         == (if PeriodEnded(row, at) then 0 else row.quota.value.usedBytes) + s.uplink + s.downlink
  {
    RowIsRecorded(row, at, s);
  }

  lemma CountingUsage(t: Tables, at: Time, samples: seq<BatchId.Sample>, key: BatchKey, uid: int)
    requires TablesStored(t) && uid in t.users && Effect(t, CountTraffic(at, samples, key)).Ok?
    ensures var w := CountTraffic(at, samples, key);
            Used(After(t, w), uid) == Total(Used(t, uid), EntriesOf(t, w, uid))
  {
    var w := CountTraffic(at, samples, key);
    var counted := Positive(samples);
    PositiveIsAscending(samples);
    PositiveMembers(samples);
    if key !in t.ingested && counted != [] {
      BatchIsPerUser(Progress(t.users, t.outbox, NOTHING), at, counted, uid);
      match SampleFor(counted, uid) {
        case None =>
        case Some(s) =>
          assert s in samples;
          SmallTotals(Used(t, uid), s.uplink + s.downlink);
          if Qualifies(t.users[uid]) && t.users[uid].quota.Some? {
            RowUsage(t.users[uid], at, s);
            hide RecordRow, Stored, Positive, RecordAll, Total;
          }
      }
    }
  }

  lemma WriteUsage(t: Tables, w: Write, uid: int)
    requires TablesStored(t) && Representable(w)
    ensures Used(After(t, w), uid) == Total(Used(t, uid), EntriesOf(t, w, uid))
  {
    match w {
      case CountTraffic(at, samples, key) =>
        if Effect(t, w).Ok? && uid in t.users {
          CountingUsage(t, at, samples, key, uid);
        } else {
          UnknownUserUsage(t, w, uid);
        }
      case _ => hide RecordBatch;
    }
  }

  lemma UnknownUserUsage(t: Tables, w: Write, uid: int)
    requires TablesStored(t) && w.CountTraffic? && (Effect(t, w).Err? || uid !in t.users)
    ensures Used(After(t, w), uid) == Total(Used(t, uid), EntriesOf(t, w, uid))
  {
    if Effect(t, w).Ok? && w.key !in t.ingested && Positive(w.samples) != [] {
      PositiveIsAscending(w.samples);
      BatchIsPerUser(Progress(t.users, t.outbox, NOTHING), w.at, Positive(w.samples), uid);
    }
  }

  /** After any run of transactions, accepted or refused, a user's stored usage
      is the sum of that user's traffic in the batches entered since the usage
      last began anew, by a restart of the period or a roll-over; and of what
      was there before, if it never did. */
  lemma {:induction false} UsageIsEnteredTraffic(t: Tables, writes: seq<Write>, uid: int)
    requires TablesStored(t) && forall i :: 0 <= i < |writes| ==> Representable(writes[i])
    ensures Used(AfterAll(t, writes), uid) == Total(Used(t, uid), Entries(t, writes, uid))
    decreases |writes|
  {
    if writes != [] {
      assert Representable(writes[0]);
      WriteUsage(t, writes[0], uid);
      WriteKeepsStored(t, writes[0]);
      hide TablesStored, EntriesOf, After, Used, Representable, Total;
      UsageIsEnteredTraffic(After(t, writes[0]), writes[1..], uid);
      TotalsCompose(Used(t, uid), EntriesOf(t, writes[0], uid), Entries(After(t, writes[0]), writes[1..], uid));
    } else {
      assert Total(Used(t, uid), []) == Used(t, uid);
    }
  }

  // ---- each batch counts once ----

  lemma KeysStay(t: Tables, w: Write)
    ensures t.ingested <= After(t, w).ingested
    ensures w.CountTraffic? && Effect(t, w).Ok? && Positive(w.samples) != [] ==> w.key in After(t, w).ingested
  {
  }

  lemma {:induction false} KeysStayThrough(t: Tables, writes: seq<Write>)
    ensures t.ingested <= AfterAll(t, writes).ingested
    decreases |writes|
  {
    if writes != [] {
      KeysStay(t, writes[0]);
      KeysStayThrough(After(t, writes[0]), writes[1..]);
    }
  }

  /** A batch that was accepted counts nothing the next time, for any user,
      whatever was written in between. */
  lemma BatchCountsOnce(t: Tables, w: Write, between: seq<Write>, again: Write, uid: int)
    requires w.CountTraffic? && again.CountTraffic? && again.key == w.key
    requires Effect(t, w).Ok? && Positive(w.samples) != []
    ensures EntriesOf(AfterAll(After(t, w), between), again, uid) == []
  {
    KeysStay(t, w);
    KeysStayThrough(After(t, w), between);
  }
}
