/** Step 6 of the seed script: every child of the merged map is inserted,
    and with it each measurement that has a weight or a height. */
module SeedInsert {
  import opened Wrappers
  import opened SeedMerge
  import Store

  /** 1000 * 60 * 60 * 24 * 30.44: the script's month, in milliseconds. */
  const MonthMs: real := 2630016000.0

  /** `ageMonths < 24 ? TERLENTANG : BERDIRI`, where the age is the time
      since the birth instant `birth` in script months. */
  function PositionAt(nowMs: int, birth: int): (r: Store.Posisi) {
    if (nowMs - birth) as real / MonthMs < 24.0 then Store.Terlentang else Store.Berdiri
  }

  /** A child is measured lying down exactly when it is younger than 24
      script months (63 120 384 000 ms). */
  lemma LyingUnderTwo(nowMs: int, birth: int)
    ensures PositionAt(nowMs, birth) == Store.Terlentang <==> nowMs - birth < 63120384000
  {
    var age := (nowMs - birth) as real;
    assert age / MonthMs < 24.0 <==> age < 24.0 * MonthMs;
  }

  /** The skip test `!meas.beratBadan && !meas.tinggiBadan`, negated. */
  predicate Recorded(m: MeasurementData) {
    TruthyNumber(m.beratBadan) || TruthyNumber(m.tinggiBadan)
  }

  /** `x || 0` */
  function OrZero(x: Option<real>): (r: real) {
    if TruthyNumber(x) then x.value else 0.0
  }

  /** A measurement row the script creates. Its z-score statuses are drawn
      at random and are not part of this model. */
  datatype SeededMeasurement = SeededMeasurement(
    relawanId: string,
    beratBadan: real,
    tinggiBadan: real,
    lingkarKepala: real,
    lila: real,
    posisiUkur: Store.Posisi,
    notes: string)

  /** A child row the script creates, with its measurements. */
  datatype SeededBalita = SeededBalita(
    namaAnak: string,
    namaOrtu: string,
    tanggalLahir: string,
    jenisKelamin: Store.Gender,
    villageId: int,
    poskoId: Option<int>,
    measurements: seq<SeededMeasurement>)

  function SeedMeasurement(m: MeasurementData, relawanId: string, posisi: Store.Posisi): (r: SeededMeasurement) {
    SeededMeasurement(relawanId, OrZero(m.beratBadan), OrZero(m.tinggiBadan), OrZero(m.lingkarKepala), OrZero(m.lila), posisi, NoteText(m.source))
  }

  /** The rows created for the first `n` measurements of a child. */
  function SeededOf(ms: seq<MeasurementData>, n: nat, relawanId: string, posisi: Store.Posisi): (r: seq<SeededMeasurement>)
    requires n <= |ms|
    ensures |r| <= n
    decreases n
  {
    if n == 0 then []
    else
      SeededOf(ms, n - 1, relawanId, posisi)
      + (if Recorded(ms[n - 1]) then [SeedMeasurement(ms[n - 1], relawanId, posisi)] else [])
  }

  function SeedBalita(dto: BalitaDto, relawanId: string, nowMs: int, timeOf: string -> Option<int>): (r: SeededBalita)
    requires timeOf(dto.tanggalLahir).Some?
  {
    var posisi := PositionAt(nowMs, timeOf(dto.tanggalLahir).value);
    SeededBalita(dto.namaAnak, dto.namaOrtu, dto.tanggalLahir, dto.jenisKelamin, dto.villageId, dto.poskoId,
                 SeededOf(dto.measurements, |dto.measurements|, relawanId, posisi))
  }

  /** `prisma.balita.create` refuses a birth date `Date` cannot read (an
      Invalid Date), and the refusal ends the script. A child with an empty
      name is skipped before it reaches the database. */
  predicate Rejected(dto: BalitaDto, timeOf: string -> Option<int>) {
    dto.namaAnak != [] && timeOf(dto.tanggalLahir).None?
  }

  /** None of the children under the first `n` keys is rejected. */
  ghost predicate Accepted(c: Collected, n: nat, timeOf: string -> Option<int>)
    requires Ordered(c) && n <= |c.order|
  {
    forall k :: 0 <= k < n ==> !Rejected(c.entries[c.order[k]], timeOf)
  }

  /** The place of the first key from `i` on whose child the database
      rejects, or the number of keys when there is none. */
  function FirstRejectedFrom(c: Collected, i: nat, timeOf: string -> Option<int>): (r: nat)
    requires Ordered(c) && i <= |c.order|
    ensures i <= r <= |c.order|
    ensures forall k :: i <= k < r ==> !Rejected(c.entries[c.order[k]], timeOf)
    ensures r < |c.order| ==> Rejected(c.entries[c.order[r]], timeOf)
    decreases |c.order| - i
  {
    if i == |c.order| then i
    else
      assert c.order[i] in c.order;
      if Rejected(c.entries[c.order[i]], timeOf) then i else FirstRejectedFrom(c, i + 1, timeOf)
  }

  /** The script runs to the end exactly when no child is rejected. */
  lemma CompletesIffAllAccepted(c: Collected, timeOf: string -> Option<int>)
    requires Ordered(c)
    ensures FirstRejectedFrom(c, 0, timeOf) == |c.order| <==> Accepted(c, |c.order|, timeOf)
  {
  }

  /** The children created for the first `n` keys of the map's order. */
  function Plan(c: Collected, n: nat, relawanId: string, nowMs: int, timeOf: string -> Option<int>): (r: seq<SeededBalita>)
    requires Ordered(c) && n <= |c.order| && Accepted(c, n, timeOf)
    ensures |r| <= n
    decreases n
  {
    if n == 0 then []
    else
      var dto := c.entries[c.order[n - 1]];
      Plan(c, n - 1, relawanId, nowMs, timeOf)
      + (if dto.namaAnak == [] then [] else [SeedBalita(dto, relawanId, nowMs, timeOf)])
  }

  /** The insert loop: `for (const data of balitaMap.values())`, creating the
      child and then each of its measurements. The rows are returned in the
      order they are created. The first child the database rejects ends the
      script (`main` exits with code 1): `failed` is set and the children
      created before it are returned. */
  method InsertAll(balitaMap: BalitaMap, relawanId: string, nowMs: int, timeOf: string -> Option<int>)
    returns (created: seq<SeededBalita>, failed: bool)
    requires Ordered(balitaMap.Contents())
    ensures var stop := FirstRejectedFrom(balitaMap.Contents(), 0, timeOf);
      && (failed <==> stop < |balitaMap.order|)
      && created == Plan(balitaMap.Contents(), stop, relawanId, nowMs, timeOf)
  {
    created, failed := [], false;
    for k := 0 to |balitaMap.order|
      invariant FirstRejectedFrom(balitaMap.Contents(), 0, timeOf) == FirstRejectedFrom(balitaMap.Contents(), k, timeOf)
      invariant created == Plan(balitaMap.Contents(), k, relawanId, nowMs, timeOf)
    {
      assert balitaMap.order[k] in balitaMap.order;
      var data := balitaMap.entries[balitaMap.order[k]];
      if data.namaAnak == [] {
        continue;
      }
      var birth := timeOf(data.tanggalLahir);
      if birth.None? {
        failed := true;
        return;
      }
      var measurements: seq<SeededMeasurement> := [];
      for j := 0 to |data.measurements|
        invariant measurements == SeededOf(data.measurements, j, relawanId, PositionAt(nowMs, birth.value))
      {
        var meas := data.measurements[j];
        if !Recorded(meas) {
          continue;
        }
        var posisi := PositionAt(nowMs, birth.value);
        measurements := measurements + [SeedMeasurement(meas, relawanId, posisi)];
      }
      created := created + [SeededBalita(data.namaAnak, data.namaOrtu, data.tanggalLahir, data.jenisKelamin,
                                         data.villageId, data.poskoId, measurements)];
    }
  }

  /** On a well-formed map every key gives a child row. */
  lemma {:induction false} PlanLength(c: Collected, n: nat, relawanId: string, nowMs: int, timeOf: string -> Option<int>)
    requires WellFormed(c) && n <= |c.order| && Accepted(c, n, timeOf)
    ensures |Plan(c, n, relawanId, nowMs, timeOf)| == n
    decreases n
  {
    if n > 0 {
      PlanLength(c, n - 1, relawanId, nowMs, timeOf);
      assert c.order[n - 1] in c.order;
    }
  }

  /** The child row at place `k` is made from the entry under the `k`-th key. */
  lemma {:induction false} PlanRow(c: Collected, n: nat, relawanId: string, nowMs: int, timeOf: string -> Option<int>, k: nat)
    requires WellFormed(c) && k < n <= |c.order| && Accepted(c, n, timeOf)
    ensures k < |Plan(c, n, relawanId, nowMs, timeOf)|
    ensures Plan(c, n, relawanId, nowMs, timeOf)[k] == SeedBalita(c.entries[c.order[k]], relawanId, nowMs, timeOf)
    decreases n
  {
    PlanLength(c, n - 1, relawanId, nowMs, timeOf);
    assert c.order[n - 1] in c.order;
    var prev := Plan(c, n - 1, relawanId, nowMs, timeOf);
    var next := SeedBalita(c.entries[c.order[n - 1]], relawanId, nowMs, timeOf);
    assert Plan(c, n, relawanId, nowMs, timeOf) == prev + [next];
    if k < n - 1 {
      PlanRow(c, n - 1, relawanId, nowMs, timeOf, k);
      assert (prev + [next])[k] == prev[k];
    }
  }

  /** On a well-formed map no child is skipped: one child row per key, in
      the map's order, carrying that entry's fields. */
  lemma NoChildSkipped(c: Collected, n: nat, relawanId: string, nowMs: int, timeOf: string -> Option<int>)
    requires WellFormed(c) && n <= |c.order| && Accepted(c, n, timeOf)
    ensures |Plan(c, n, relawanId, nowMs, timeOf)| == n
    ensures forall k :: 0 <= k < n ==> Plan(c, n, relawanId, nowMs, timeOf)[k] == SeedBalita(c.entries[c.order[k]], relawanId, nowMs, timeOf)
  {
    PlanLength(c, n, relawanId, nowMs, timeOf);
    forall k | 0 <= k < n
      ensures Plan(c, n, relawanId, nowMs, timeOf)[k] == SeedBalita(c.entries[c.order[k]], relawanId, nowMs, timeOf)
    {
      PlanRow(c, n, relawanId, nowMs, timeOf, k);
    }
  }

  /** Every measurement row created has a positive weight or a positive
      height, when the numbers read were non-negative. */
  lemma {:induction false} SeededAreMeasured(ms: seq<MeasurementData>, n: nat, relawanId: string, posisi: Store.Posisi)
    requires n <= |ms|
    requires forall m :: m in ms ==> NonNegative(m)
    ensures forall s :: s in SeededOf(ms, n, relawanId, posisi) ==> s.beratBadan > 0.0 || s.tinggiBadan > 0.0
    decreases n
  {
    if n > 0 {
      SeededAreMeasured(ms, n - 1, relawanId, posisi);
      assert ms[n - 1] in ms;
    }
  }

  /** A measurement is created exactly for each recorded one, in order: the
      created rows of a child are as many as its measurements with a weight
      or a height. */
  lemma {:induction false} SeededCount(ms: seq<MeasurementData>, n: nat, relawanId: string, posisi: Store.Posisi)
    requires n <= |ms|
    ensures |SeededOf(ms, n, relawanId, posisi)| == |set i | 0 <= i < n && Recorded(ms[i])|
    decreases n
  {
    if n > 0 {
      SeededCount(ms, n - 1, relawanId, posisi);
      var before := set i | 0 <= i < n - 1 && Recorded(ms[i]);
      var now := set i | 0 <= i < n && Recorded(ms[i]);
      if Recorded(ms[n - 1]) {
        assert now == before + {n - 1};
      } else {
        assert now == before;
      }
    }
  }
}
