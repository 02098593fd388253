/** The bytes hashed into a traffic batch id. SHA-256 is taken to be injective,
    so the id is represented by its preimage; what is proved here is that the
    preimage itself determines the collection instant and the samples. */
module BatchId {
  import opened Basics

  type Byte = x: int | 0 <= x < 256

  datatype Sample = Sample(telegramId: Int64, uplink: Int64, downlink: Int64)

  // What is written as an unsigned word.
  predicate Storable(s: Sample) {
    0 <= s.telegramId && 0 <= s.uplink && 0 <= s.downlink
  }

  // ---- civil time of an instant ----

  datatype Date = Date(year: nat, month: nat, day: nat)

  predicate IsLeap(year: nat) {
    year % 4 == 0 && (year % 100 != 0 || year % 400 == 0)
  }

  function DaysIn(year: nat, month: nat): nat {
    if month == 2 then (if IsLeap(year) then 29 else 28)
    else if month in {4, 6, 9, 11} then 30 else 31
  }

  function NextDate(d: Date): Date {
    if d.day < DaysIn(d.year, d.month) then d.(day := d.day + 1)
    else if d.month < 12 then Date(d.year, d.month + 1, 1)
    else Date(d.year + 1, 1, 1)
  }

  // Day 0 is 0001-01-01.
  function DateOf(day: nat): (d: Date)
    ensures 1 <= d.month <= 12 && 1 <= d.day <= 31 && d.year >= 1
  {
    if day == 0 then Date(1, 1, 1) else NextDate(DateOf(day - 1))
  }

  predicate Earlier(a: Date, b: Date) {
    a.year < b.year || (a.year == b.year && (a.month < b.month || (a.month == b.month && a.day < b.day)))
  }

  lemma {:induction false} DatesIncrease(a: nat, b: nat)
    requires a < b
    ensures Earlier(DateOf(a), DateOf(b))
    decreases b
  {
    if a < b - 1 {
      DatesIncrease(a, b - 1);
    }
  }

  const DAY: int := 86_400 * SECOND

  datatype Civil = Civil(date: Date, hour: nat, minute: nat, second: nat, nanos: nat)

  function CivilOf(t: Time): (c: Civil)
    ensures c.hour < 24 && c.minute < 60 && c.second < 60 && c.nanos < SECOND
    ensures c.date == DateOf(t / DAY)
    ensures t == t / DAY * DAY + ((c.hour * 60 + c.minute) * 60 + c.second) * SECOND + c.nanos
  {
    var inDay := t % DAY;
    var s := inDay / SECOND;
    ClockParts(s);
    assert s < 86_400;
    Civil(DateOf(t / DAY), s / 3600, s / 60 % 60, s % 60, inDay % SECOND)
  }

  lemma ClockParts(s: nat)
    ensures s == (s / 3600 * 60 + s / 60 % 60) * 60 + s % 60
  {
    assert s / 3600 == s / 60 / 60;
  }

  lemma CivilInjective(a: Time, b: Time)
    requires CivilOf(a) == CivilOf(b)
    ensures a == b
  {
    if a / DAY < b / DAY {
      DatesIncrease(a / DAY, b / DAY);
    } else if b / DAY < a / DAY {
      DatesIncrease(b / DAY, a / DAY);
    }
  }

  // ---- RFC 3339 text with trimmed nanoseconds ----

  const DASH: Byte := 45
  const DOT: Byte := 46
  const COLON: Byte := 58
  const LETTER_T: Byte := 84
  const LETTER_Z: Byte := 90

  function Digit(n: nat): Byte
    requires n < 10
  {
    48 + n
  }

  predicate AllDigits(s: seq<Byte>) {
    forall i :: 0 <= i < |s| ==> 48 <= s[i] <= 57
  }

  // Decimal digits of n, zero-padded to at least `width`.
  function Decimal(n: nat, width: nat): (s: seq<Byte>)
    ensures AllDigits(s)
    ensures |s| >= width
    ensures n == 0 ==> |s| == width
    decreases n, width
  {
    if n == 0 && width == 0 then []
    else Decimal(n / 10, if width == 0 then 0 else width - 1) + [Digit(n % 10)]
  }

  function DecimalValue(s: seq<Byte>): nat
    requires AllDigits(s)
  {
    if s == [] then 0 else 10 * DecimalValue(s[..|s| - 1]) + (s[|s| - 1] - 48)
  }

  lemma {:induction false} DecimalRoundTrip(n: nat, width: nat)
    ensures DecimalValue(Decimal(n, width)) == n
    decreases n, width
  {
    if !(n == 0 && width == 0) {
      var rest := Decimal(n / 10, if width == 0 then 0 else width - 1);
      DecimalRoundTrip(n / 10, if width == 0 then 0 else width - 1);
      assert Decimal(n, width)[..|rest|] == rest;
    }
  }

  function Power10(k: nat): nat {
    if k == 0 then 1 else 10 * Power10(k - 1)
  }

  lemma {:induction false} DecimalWidth(n: nat, width: nat)
    requires n < Power10(width)
    ensures |Decimal(n, width)| == width
    decreases width
  {
    if width > 0 {
      DecimalWidth(n / 10, width - 1);
    }
  }

  function TrimZeros(s: seq<Byte>): (r: seq<Byte>)
    requires AllDigits(s)
    ensures AllDigits(r) && |r| <= |s|
  {
    if s != [] && s[|s| - 1] == 48 then TrimZeros(s[..|s| - 1]) else s
  }

  lemma {:induction false} TrimInjective(a: seq<Byte>, b: seq<Byte>)
    requires AllDigits(a) && AllDigits(b) && |a| == |b|
    requires TrimZeros(a) == TrimZeros(b)
    ensures a == b
    decreases |a|
  {
    if a != [] {
      var a', b' := a[..|a| - 1], b[..|b| - 1];
      if a[|a| - 1] == 48 && b[|b| - 1] == 48 {
        TrimInjective(a', b');
        assert a == a' + [48] && b == b' + [48];
      }
    }
  }

  function Fraction(nanos: nat): seq<Byte> {
    var digits := TrimZeros(Decimal(nanos, 9));
    if digits == [] then [] else [DOT] + digits
  }

  function Clock(c: Civil): seq<Byte> {
    Decimal(c.hour, 2) + [COLON] + Decimal(c.minute, 2) + [COLON] + Decimal(c.second, 2)
  }

  // Month to fraction: everything but the fraction has a fixed width.
  function AfterYear(c: Civil): seq<Byte> {
    Decimal(c.date.month, 2) + [DASH] + Decimal(c.date.day, 2) + [LETTER_T] + Clock(c) + Fraction(c.nanos)
  }

  // The text without its final Z.
  function Stamp(c: Civil): seq<Byte> {
    Decimal(c.date.year, 4) + ([DASH] + AfterYear(c))
  }

  // ---- big-endian words ----

  function Power256(k: nat): nat {
    if k == 0 then 1 else 256 * Power256(k - 1)
  }

  function BigEndian(n: nat, width: nat): (s: seq<Byte>)
    ensures |s| == width
  {
    if width == 0 then [] else BigEndian(n / 256, width - 1) + [n % 256]
  }

  lemma {:induction false} BigEndianInjective(a: nat, b: nat, width: nat)
    requires a < Power256(width) && b < Power256(width)
    requires BigEndian(a, width) == BigEndian(b, width)
    ensures a == b
    decreases width
  {
    if width > 0 {
      var a', b' := BigEndian(a / 256, width - 1), BigEndian(b / 256, width - 1);
      assert BigEndian(a, width)[..width - 1] == a' && BigEndian(b, width)[..width - 1] == b';
      assert BigEndian(a, width)[width - 1] == a % 256 && BigEndian(b, width)[width - 1] == b % 256;
      BigEndianInjective(a / 256, b / 256, width - 1);
    }
  }

  lemma Word64Injective(a: nat, b: nat)
    requires a < UINT64_VALUES && b < UINT64_VALUES
    requires BigEndian(a, 8) == BigEndian(b, 8)
    ensures a == b
  {
    Power256Of8();
    BigEndianInjective(a, b, 8);
  }

  lemma Power256Of8()
    ensures Power256(8) == UINT64_VALUES
  {
    assert Power256(4) == 256 * Power256(3) && Power256(3) == 256 * Power256(2) && Power256(2) == 65536;
    assert Power256(8) == 256 * Power256(7) && Power256(7) == 256 * Power256(6);
    assert Power256(6) == 256 * Power256(5) && Power256(5) == 256 * Power256(4);
  }

  function Record(s: Sample): (r: seq<Byte>)
    requires Storable(s)
    ensures |r| == 24
  {
    BigEndian(s.telegramId, 8) + BigEndian(s.uplink, 8) + BigEndian(s.downlink, 8)
  }

  lemma RecordInjective(a: Sample, b: Sample)
    requires Storable(a) && Storable(b) && Record(a) == Record(b)
    ensures a == b
  {
    var ra, rb := Record(a), Record(b);
    assert ra[..8] == BigEndian(a.telegramId, 8) && rb[..8] == BigEndian(b.telegramId, 8);
    assert ra[8..16] == BigEndian(a.uplink, 8) && rb[8..16] == BigEndian(b.uplink, 8);
    assert ra[16..] == BigEndian(a.downlink, 8) && rb[16..] == BigEndian(b.downlink, 8);
    Word64Injective(a.telegramId, b.telegramId);
    Word64Injective(a.uplink, b.uplink);
    Word64Injective(a.downlink, b.downlink);
  }

  function Records(samples: seq<Sample>): (r: seq<Byte>)
    requires forall i :: 0 <= i < |samples| ==> Storable(samples[i])
    ensures |r| == 24 * |samples|
  {
    if samples == [] then [] else Record(samples[0]) + Records(samples[1..])
  }

  lemma {:induction false} RecordsInjective(a: seq<Sample>, b: seq<Sample>)
    requires forall i :: 0 <= i < |a| ==> Storable(a[i])
    requires forall i :: 0 <= i < |b| ==> Storable(b[i])
    requires Records(a) == Records(b)
    ensures a == b
    decreases |a|
  {
    assert |a| == |b|;
    if a != [] {
      assert Records(a)[..24] == Record(a[0]) && Records(b)[..24] == Record(b[0]);
      assert Records(a)[24..] == Records(a[1..]) && Records(b)[24..] == Records(b[1..]);
      RecordInjective(a[0], b[0]);
      RecordsInjective(a[1..], b[1..]);
      assert a == [a[0]] + a[1..] && b == [b[0]] + b[1..];
    }
  }

  // ---- the whole preimage ----

  // "s12ryt-traffic-batch-v1\0"
  const DOMAIN: seq<Byte> := [115, 49, 50, 114, 121, 116, 45, 116, 114, 97, 102, 102, 105, 99, 45,
                              98, 97, 116, 99, 104, 45, 118, 49, 0]

  predicate Encodable(samples: seq<Sample>) {
    |samples| <= MAX_INT64 && forall i :: 0 <= i < |samples| ==> Storable(samples[i])
  }

  function Preimage(collectedAt: Time, samples: seq<Sample>): seq<Byte>
    requires Encodable(samples)
  {
    DOMAIN + (Stamp(CivilOf(collectedAt)) + ([LETTER_Z] + (BigEndian(|samples|, 8) + Records(samples))))
  }

  predicate Avoids(s: seq<Byte>, b: Byte) {
    b !in s
  }

  // Two texts free of the separator are separated at the same place.
  lemma SplitAtFirst(a: seq<Byte>, b: seq<Byte>, ra: seq<Byte>, rb: seq<Byte>, z: Byte)
    requires Avoids(a, z) && Avoids(b, z)
    requires a + ([z] + ra) == b + ([z] + rb)
    ensures a == b && ra == rb
  {
    var left, right := a + ([z] + ra), b + ([z] + rb);
    assert left[|a|] == z && right[|b|] == z;
    assert forall i :: 0 <= i < |a| ==> left[i] == a[i];
    assert forall i :: 0 <= i < |b| ==> right[i] == b[i];
    assert |a| == |b|;
    assert left[..|a|] == a && right[..|b|] == b;
    assert left[|a| + 1..] == ra && right[|b| + 1..] == rb;
  }

  lemma DigitsAvoid(s: seq<Byte>, b: Byte)
    requires AllDigits(s) && !(48 <= b <= 57)
    ensures Avoids(s, b)
  {
  }

  lemma StampHasNoZ(c: Civil)
    ensures Avoids(Stamp(c), LETTER_Z)
  {
    DigitsAvoid(Decimal(c.date.year, 4), LETTER_Z);
    DigitsAvoid(TrimZeros(Decimal(c.nanos, 9)), LETTER_Z);
  }

  lemma DecimalInjective(a: nat, b: nat, width: nat)
    requires Decimal(a, width) == Decimal(b, width)
    ensures a == b
  {
    DecimalRoundTrip(a, width);
    DecimalRoundTrip(b, width);
  }

  lemma {:induction false} FractionInjective(a: nat, b: nat)
    requires a < SECOND && b < SECOND && Fraction(a) == Fraction(b)
    ensures a == b
  {
    NineDigits(a);
    NineDigits(b);
    var da, db := TrimZeros(Decimal(a, 9)), TrimZeros(Decimal(b, 9));
    assert da == (if Fraction(a) == [] then [] else Fraction(a)[1..]);
    assert db == (if Fraction(b) == [] then [] else Fraction(b)[1..]);
    TrimInjective(Decimal(a, 9), Decimal(b, 9));
    DecimalInjective(a, b, 9);
  }

  lemma NineDigits(n: nat)
    requires n < SECOND
    ensures |Decimal(n, 9)| == 9
  {
    assert Power10(3) == 1000;
    assert Power10(6) == 10 * Power10(5) && Power10(5) == 10 * Power10(4) && Power10(4) == 10 * Power10(3);
    assert Power10(9) == 10 * Power10(8) && Power10(8) == 10 * Power10(7) && Power10(7) == 10 * Power10(6);
    DecimalWidth(n, 9);
  }

  lemma TwoDigits(n: nat)
    requires n < 100
    ensures |Decimal(n, 2)| == 2
  {
    assert Power10(2) == 100;
    DecimalWidth(n, 2);
  }

  /** Two instants with the same text are the same instant. */
  lemma {:induction false} StampInjective(a: Time, b: Time)
    ensures Stamp(CivilOf(a)) == Stamp(CivilOf(b)) <==> a == b
  {
    if Stamp(CivilOf(a)) == Stamp(CivilOf(b)) {
      var ca, cb := CivilOf(a), CivilOf(b);
      var ya, yb := Decimal(ca.date.year, 4), Decimal(cb.date.year, 4);
      DigitsAvoid(ya, DASH);
      DigitsAvoid(yb, DASH);
      SplitAtFirst(ya, yb, AfterYear(ca), AfterYear(cb), DASH);
      DecimalInjective(ca.date.year, cb.date.year, 4);
      AfterYearInjective(ca, cb);
      CivilInjective(a, b);
    }
  }

  predicate TwoDigitFields(c: Civil) {
    c.date.month < 100 && c.date.day < 100 && c.hour < 100 && c.minute < 100 && c.second < 100 && c.nanos < SECOND
  }

  lemma {:induction false} AfterYearInjective(a: Civil, b: Civil)
    requires TwoDigitFields(a) && TwoDigitFields(b) && AfterYear(a) == AfterYear(b)
    ensures a == b.(date := b.date.(year := a.date.year))
  {
    FixedFields(a);
    FixedFields(b);
    DecimalInjective(a.date.month, b.date.month, 2);
    DecimalInjective(a.date.day, b.date.day, 2);
    DecimalInjective(a.hour, b.hour, 2);
    DecimalInjective(a.minute, b.minute, 2);
    DecimalInjective(a.second, b.second, 2);
    FractionInjective(a.nanos, b.nanos);
  }

  lemma FixedFields(c: Civil)
    requires TwoDigitFields(c)
    ensures |AfterYear(c)| >= 14
    ensures AfterYear(c)[..2] == Decimal(c.date.month, 2) && AfterYear(c)[3..5] == Decimal(c.date.day, 2)
    ensures AfterYear(c)[6..8] == Decimal(c.hour, 2) && AfterYear(c)[9..11] == Decimal(c.minute, 2)
    ensures AfterYear(c)[12..14] == Decimal(c.second, 2) && AfterYear(c)[14..] == Fraction(c.nanos)
  {
    TwoDigits(c.date.month);
    TwoDigits(c.date.day);
    TwoDigits(c.hour);
    TwoDigits(c.minute);
    TwoDigits(c.second);
    var clock := Clock(c);
    assert clock[..2] == Decimal(c.hour, 2) && clock[3..5] == Decimal(c.minute, 2);
    assert clock[6..] == Decimal(c.second, 2);
  }

  /** Two batches with the same hashed bytes have the same instant and samples. */
  lemma {:induction false} PreimageInjective(a: Time, samplesA: seq<Sample>, b: Time, samplesB: seq<Sample>)
    requires Encodable(samplesA) && Encodable(samplesB)
    ensures Preimage(a, samplesA) == Preimage(b, samplesB) <==> a == b && samplesA == samplesB
  {
    if Preimage(a, samplesA) == Preimage(b, samplesB) {
      var sa, sb := Stamp(CivilOf(a)), Stamp(CivilOf(b));
      var wa, wb := BigEndian(|samplesA|, 8), BigEndian(|samplesB|, 8);
      var ta, tb := wa + Records(samplesA), wb + Records(samplesB);
      assert Preimage(a, samplesA)[|DOMAIN|..] == sa + ([LETTER_Z] + ta);
      assert Preimage(b, samplesB)[|DOMAIN|..] == sb + ([LETTER_Z] + tb);
      StampHasNoZ(CivilOf(a));
      StampHasNoZ(CivilOf(b));
      SplitAtFirst(sa, sb, ta, tb, LETTER_Z);
      StampInjective(a, b);
      assert ta[8..] == Records(samplesA) && tb[8..] == Records(samplesB);
      RecordsInjective(samplesA, samplesB);
    }
  }
}
