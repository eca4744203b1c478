/** The measurement service: the list filter, creation with server-computed
    statuses, the offline-sync partition into creates and updates, the
    delta-sync filter and the per-status counts. */
module MeasurementService {
  import opened Wrappers
  import opened Calendar
  import opened Types
  import opened Store
  import opened ZScoreCalculator
  import Pagination

  // ---------------------------------------------------------------------
  // findAll: filter and pagination

  datatype Filters = Filters(
    balitaId: Option<string>,
    relawanId: Option<string>,
    status: Option<Status>,
    updatedAfter: Option<int>,
    createdAfter: Option<int>)

  datatype CurrentUser = CurrentUser(role: Role, userId: string)

  /** The `where` object of the list query; None is an absent key.
      `updatedAtGt`/`createdAtGt` stand for `{ gt: date }`. */
  datatype Where = Where(
    relawanId: Option<string>,
    balitaId: Option<string>,
    statusAkhir: Option<Status>,
    updatedAtGt: Option<int>,
    createdAtGt: Option<int>)

  predicate IsRelawan(user: Option<CurrentUser>) {
    user.Some? && user.value.role == Relawan
  }

  /** The list filter: a RELAWAN caller is always restricted to their own
      measurements, whatever relawanId was requested; other callers get a
      relawanId condition only when they asked for one. Every other filter is
      added only when present. */
  function FindAllWhere(filters: Option<Filters>, user: Option<CurrentUser>): (w: Where)
    ensures IsRelawan(user) ==> w.relawanId == Some(user.value.userId)
    ensures !IsRelawan(user) ==> (w.relawanId.Some? <==> filters.Some? && TruthyString(filters.value.relawanId))
    ensures filters.None? ==> w.balitaId.None? && w.statusAkhir.None? && w.updatedAtGt.None? && w.createdAtGt.None?
  {
    var relawanId :=
      if IsRelawan(user) then Some(user.value.userId)
      else if filters.Some? && TruthyString(filters.value.relawanId) then filters.value.relawanId
      else None;
    match filters
    case None => Where(relawanId, None, None, None, None)
    case Some(f) =>
      Where(relawanId,
            if TruthyString(f.balitaId) then f.balitaId else None,
            f.status,
            f.updatedAfter,
            f.createdAfter)
  }

  /** Whether a row satisfies a `where` object, as the database evaluates it. */
  predicate Matches(w: Where, m: Measurement) {
    && (w.relawanId.Some? ==> m.relawanId == w.relawanId.value)
    && (w.balitaId.Some? ==> m.balitaId == w.balitaId.value)
    && (w.statusAkhir.Some? ==> m.statusAkhir == w.statusAkhir.value)
    && (w.updatedAtGt.Some? ==> m.updatedAt > w.updatedAtGt.value)
    && (w.createdAtGt.Some? ==> m.createdAt > w.createdAtGt.value)
  }

  /** The rows the list query selects, stated directly in terms of the
      request: the caller's role, then each filter that was given. */
  lemma FindAllSelects(filters: Option<Filters>, user: Option<CurrentUser>, m: Measurement)
    ensures Matches(FindAllWhere(filters, user), m) <==>
      && (IsRelawan(user) ==> m.relawanId == user.value.userId)
      && (!IsRelawan(user) && filters.Some? && TruthyString(filters.value.relawanId) ==> m.relawanId == filters.value.relawanId.value)
      && (filters.Some? && TruthyString(filters.value.balitaId) ==> m.balitaId == filters.value.balitaId.value)
      && (filters.Some? && filters.value.status.Some? ==> m.statusAkhir == filters.value.status.value)
      && (filters.Some? && filters.value.updatedAfter.Some? ==> m.updatedAt > filters.value.updatedAfter.value)
      && (filters.Some? && filters.value.createdAfter.Some? ==> m.createdAt > filters.value.createdAfter.value)
  {
  }

  /** A RELAWAN caller only ever sees their own measurements, even when the
      request names another relawan. */
  lemma RelawanSeesOnlyOwn(filters: Option<Filters>, user: Option<CurrentUser>, m: Measurement)
    requires IsRelawan(user)
    requires Matches(FindAllWhere(filters, user), m)
    ensures m.relawanId == user.value.userId
  {
  }

  /** The query findAll sends; its `meta` is Pagination.PageMeta. */
  datatype Query = Query(where: Where, skip: int, take: int)

  function FindAllQuery(page: int, limit: int, filters: Option<Filters>, user: Option<CurrentUser>): (q: Query)
    ensures q.where == FindAllWhere(filters, user) && q.take == limit
    ensures q.skip == Pagination.Skip(page, limit)
    ensures page >= 1 && limit >= 0 ==> q.skip >= 0
  {
    Query(FindAllWhere(filters, user), Pagination.Skip(page, limit), limit)
  }

  // ---------------------------------------------------------------------
  // create

  datatype MeasurementInput = MeasurementInput(
    balitaId: string,
    relawanId: string,
    beratBadan: real,
    tinggiBadan: real,
    lingkarKepala: real,
    lila: real,
    posisiUkur: Posisi,
    localId: Option<string>,
    isSynced: Option<bool>,
    notes: Option<string>,
    sanitationData: Option<Json>,
    medicalHistoryData: Option<Json>)

  /** What is written for one input: the input's own fields, the statuses the
      server computed, and the sync flag. */
  datatype RowData = RowData(input: MeasurementInput, assessment: Anthropometry, isSynced: bool)

  /** The server-side classification of a measurement of child `b`. */
  function Assess(b: Balita, beratBadan: real, tinggiBadan: real, today: Date): (r: Anthropometry) {
    CalculateAnthropometry(AgeInMonths(b.tanggalLahir, today) as real, beratBadan, tinggiBadan, GenderCode(b.jenisKelamin))
  }

  function ToRow(id: string, d: RowData, now: int): (m: Measurement)
    ensures m.id == id && m.balitaId == d.input.balitaId && m.relawanId == d.input.relawanId
    ensures m.statusAkhir == d.assessment.statusAkhir && m.isSynced == d.isSynced
  {
    var i := d.input;
    var a := d.assessment;
    Measurement(id, i.localId, i.balitaId, i.relawanId, i.beratBadan, i.tinggiBadan, i.lingkarKepala, i.lila,
                i.posisiUkur, i.notes, i.sanitationData, i.medicalHistoryData, a.bbUStatus, a.tbUStatus, a.bbTbStatus, a.statusAkhir, d.isSynced,
                now, now, None)
  }

  /** The row create writes for `data` about child `b`. */
  function CreatedRow(id: string, data: MeasurementInput, b: Balita, today: Date, now: int): (m: Measurement)
    ensures m.id == id && Stores(m, data, Assess(b, data.beratBadan, data.tinggiBadan, today))
    ensures m.localId == data.localId && m.notes == data.notes
    ensures m.sanitationData == data.sanitationData && m.medicalHistoryData == data.medicalHistoryData
    ensures m.isSynced == (data.isSynced == Some(true)) && m.createdAt == now && m.deletedAt.None?
  {
    ToRow(id, RowData(data, Assess(b, data.beratBadan, data.tinggiBadan, today), data.isSynced == Some(true)), now)
  }

  /** True when row `m` stores the required fields of input `i` with the
      statuses of assessment `a`. */
  predicate Stores(m: Measurement, i: MeasurementInput, a: Anthropometry) {
    && m.balitaId == i.balitaId && m.relawanId == i.relawanId
    && m.beratBadan == i.beratBadan && m.tinggiBadan == i.tinggiBadan
    && m.lingkarKepala == i.lingkarKepala && m.lila == i.lila && m.posisiUkur == i.posisiUkur
    && m.bbUStatus == a.bbUStatus && m.tbUStatus == a.tbUStatus && m.bbTbStatus == a.bbTbStatus
    && m.statusAkhir == a.statusAkhir
  }

  /** create: 404 and nothing written when the child does not exist; otherwise
      one new row whose statuses are exactly the calculator's result for the
      child's age in whole months and sex. The sync flag is the client's, false
      when absent. */
  method Create(db: Database, data: MeasurementInput, today: Date, now: int) returns (r: Result<Measurement>)
    requires db.Valid()
    modifies db
    ensures db.Valid()
    ensures db.balitas == old(db.balitas) && db.villages == old(db.villages) && db.poskos == old(db.poskos)
    ensures data.balitaId !in old(db.balitas) ==>
      r == Err(ApiError(404, BalitaNotFound)) && db.measurements == old(db.measurements)
    ensures data.balitaId in old(db.balitas) ==>
      && r.Ok?
      && db.measurements == old(db.measurements) + [r.value]
      && r.value == CreatedRow(r.value.id, data, old(db.balitas)[data.balitaId], today, now)
  {
    if data.balitaId !in db.balitas {
      return Err(ApiError(404, BalitaNotFound));
    }
    var balita := db.balitas[data.balitaId];
    var id := db.NewId();
    var row := CreatedRow(id, data, balita, today, now);
    AppendGenerated(db.measurements, db.issued - 1, row);
    db.measurements := db.measurements + [row];
    r := Ok(row);
  }

  // ---------------------------------------------------------------------
  // syncFromOffline

  /** The truthy localIds of a batch. */
  function LocalIds(ms: seq<MeasurementInput>): (ids: set<string>)
    ensures "" !in ids
    ensures forall m :: m in ms && TruthyString(m.localId) ==> m.localId.value in ids
  {
    set m | m in ms && TruthyString(m.localId) :: m.localId.value
  }

  /** `new Map(existing.map(m => [m.localId, m.id]))` over the rows whose
      localId is one of `ids`, in table order (a later row wins a key). */
  function ExistingMap(rows: seq<Measurement>, ids: set<string>): (e: map<string, string>)
    ensures forall l :: l in e ==> l in ids
    ensures forall l :: l in e ==> exists i :: 0 <= i < |rows| && rows[i].localId == Some(l) && rows[i].id == e[l]
    ensures forall i :: 0 <= i < |rows| && rows[i].localId.Some? && rows[i].localId.value in ids ==> rows[i].localId.value in e
    decreases |rows|
  {
    if rows == [] then map[]
    else
      var prefix := rows[..|rows| - 1];
      var e := ExistingMap(prefix, ids);
      var last := rows[|rows| - 1];
      assert forall i :: 0 <= i < |prefix| ==> prefix[i] == rows[i];
      if last.localId.Some? && last.localId.value in ids then e[last.localId.value := last.id] else e
  }

  /** Where one incoming record goes. */
  datatype Route = Skipped | Created | Updated(rowId: string)

  function RouteOf(m: MeasurementInput, existing: map<string, string>, balitas: map<string, Balita>): (r: Route) {
    if m.balitaId !in balitas then Skipped
    else if m.localId.Some? && m.localId.value in existing && existing[m.localId.value] != "" then
      Updated(existing[m.localId.value])
    else Created
  }

  /** The row data written for a synced record: statuses recomputed on the
      server and the sync flag set, whatever the client sent. */
  function SyncData(m: MeasurementInput, b: Balita, today: Date): (d: RowData)
    ensures d.isSynced && d.input == m
    ensures d.assessment == Assess(b, m.beratBadan, m.tinggiBadan, today)
  {
    RowData(m, Assess(b, m.beratBadan, m.tinggiBadan, today), true)
  }

  /** The `toCreate` list for a batch, in input order. */
  function Creates(ms: seq<MeasurementInput>, existing: map<string, string>, balitas: map<string, Balita>, today: Date): (r: seq<RowData>)
    decreases |ms|
  {
    if ms == [] then []
    else
      var m := ms[|ms| - 1];
      Creates(ms[..|ms| - 1], existing, balitas, today)
        + (if RouteOf(m, existing, balitas) == Created then [SyncData(m, balitas[m.balitaId], today)] else [])
  }

  /** The list of updates for a batch, in input order: target row id and data. */
  function Updates(ms: seq<MeasurementInput>, existing: map<string, string>, balitas: map<string, Balita>, today: Date): (r: seq<(string, RowData)>)
    decreases |ms|
  {
    if ms == [] then []
    else
      var m := ms[|ms| - 1];
      var route := RouteOf(m, existing, balitas);
      Updates(ms[..|ms| - 1], existing, balitas, today)
        + (if route.Updated? then [(route.rowId, SyncData(m, balitas[m.balitaId], today))] else [])
  }

  /** Number of records of a batch whose child exists. */
  function KnownCount(ms: seq<MeasurementInput>, balitas: map<string, Balita>): (n: nat)
    ensures n <= |ms|
    decreases |ms|
  {
    if ms == [] then 0
    else KnownCount(ms[..|ms| - 1], balitas) + (if ms[|ms| - 1].balitaId in balitas then 1 else 0)
  }

  /** The loop of syncFromOffline: each record with a known child goes to
      exactly one of the two lists. */
  method Partition(ms: seq<MeasurementInput>, existing: map<string, string>, balitas: map<string, Balita>, today: Date)
    returns (toCreate: seq<RowData>, toUpdate: seq<(string, RowData)>)
    ensures toCreate == Creates(ms, existing, balitas, today)
    ensures toUpdate == Updates(ms, existing, balitas, today)
    ensures |toCreate| + |toUpdate| == KnownCount(ms, balitas)
  {
    toCreate, toUpdate := [], [];
    var k := 0;
    while k < |ms|
      invariant 0 <= k <= |ms|
      invariant toCreate == Creates(ms[..k], existing, balitas, today)
      invariant toUpdate == Updates(ms[..k], existing, balitas, today)
      invariant |toCreate| + |toUpdate| == KnownCount(ms[..k], balitas)
    {
      var m := ms[k];
      PartitionStep(ms, k, existing, balitas, today);
      if m.balitaId !in balitas {
        k := k + 1;
        continue;
      }
      var data := SyncData(m, balitas[m.balitaId], today);
      if m.localId.Some? && m.localId.value in existing && existing[m.localId.value] != "" {
        toUpdate := toUpdate + [(existing[m.localId.value], data)];
      } else {
        toCreate := toCreate + [data];
      }
      k := k + 1;
    }
    assert ms[..k] == ms;
  }

  /** One more record of the batch extends the lists by its own route. */
  lemma PartitionStep(ms: seq<MeasurementInput>, k: nat, existing: map<string, string>, balitas: map<string, Balita>, today: Date)
    requires k < |ms|
    ensures var m := ms[k];
      var route := RouteOf(m, existing, balitas);
      && Creates(ms[..k + 1], existing, balitas, today)
         == Creates(ms[..k], existing, balitas, today) + (if route == Created then [SyncData(m, balitas[m.balitaId], today)] else [])
      && Updates(ms[..k + 1], existing, balitas, today)
         == Updates(ms[..k], existing, balitas, today) + (if route.Updated? then [(route.rowId, SyncData(m, balitas[m.balitaId], today))] else [])
      && KnownCount(ms[..k + 1], balitas) == KnownCount(ms[..k], balitas) + (if m.balitaId in balitas then 1 else 0)
  {
    assert ms[..k + 1][..k] == ms[..k];
  }

  /** A record with no localId (or an empty one) never matches an existing
      row: when its child is known it is created. */
  lemma NoLocalIdIsCreated(m: MeasurementInput, rows: seq<Measurement>, ms: seq<MeasurementInput>, balitas: map<string, Balita>)
    requires !TruthyString(m.localId)
    requires m.balitaId in balitas
    ensures RouteOf(m, ExistingMap(rows, LocalIds(ms)), balitas) == Created
  {
  }

  /** Every record placed in either list carries `isSynced = true` and the
      server's statuses. */
  lemma {:induction false} SyncedDataIsServerComputed(ms: seq<MeasurementInput>, existing: map<string, string>, balitas: map<string, Balita>, today: Date)
    ensures forall d :: d in Creates(ms, existing, balitas, today) ==>
      d.isSynced && d.input.balitaId in balitas && d.assessment == Assess(balitas[d.input.balitaId], d.input.beratBadan, d.input.tinggiBadan, today)
    ensures forall u :: u in Updates(ms, existing, balitas, today) ==>
      u.1.isSynced && u.1.input.balitaId in balitas && u.1.assessment == Assess(balitas[u.1.input.balitaId], u.1.input.beratBadan, u.1.input.tinggiBadan, today)
    decreases |ms|
  {
    if ms != [] {
      SyncedDataIsServerComputed(ms[..|ms| - 1], existing, balitas, today);
    }
  }

  /** An optional field of an update's data: `undefined` leaves the column
      as it is. */
  function Given<T>(o: Option<T>, current: Option<T>): (r: Option<T>) {
    if o.Some? then o else current
  }

  /** Rewrite of an existing row by a synced record: id, creation time and
      tombstone are kept, and so is every optional column the record leaves
      out. */
  function UpdateRow(row: Measurement, d: RowData, now: int): (m: Measurement)
    ensures m.id == row.id && m.createdAt == row.createdAt && m.deletedAt == row.deletedAt
    ensures Stores(m, d.input, d.assessment) && m.isSynced == d.isSynced && m.updatedAt == now
    ensures d.input.notes.None? ==> m.notes == row.notes
    ensures d.input.notes.Some? ==> m.notes == d.input.notes
    ensures d.input.sanitationData.None? ==> m.sanitationData == row.sanitationData
    ensures d.input.sanitationData.Some? ==> m.sanitationData == d.input.sanitationData
    ensures d.input.medicalHistoryData.None? ==> m.medicalHistoryData == row.medicalHistoryData
    ensures d.input.medicalHistoryData.Some? ==> m.medicalHistoryData == d.input.medicalHistoryData
    ensures d.input.localId.Some? ==> m.localId == d.input.localId
  {
    var i := d.input;
    var a := d.assessment;
    row.(localId := Given(i.localId, row.localId), balitaId := i.balitaId, relawanId := i.relawanId,
         beratBadan := i.beratBadan, tinggiBadan := i.tinggiBadan, lingkarKepala := i.lingkarKepala,
         lila := i.lila, posisiUkur := i.posisiUkur, notes := Given(i.notes, row.notes),
         sanitationData := Given(i.sanitationData, row.sanitationData),
         medicalHistoryData := Given(i.medicalHistoryData, row.medicalHistoryData),
         bbUStatus := a.bbUStatus, tbUStatus := a.tbUStatus, bbTbStatus := a.bbTbStatus,
         statusAkhir := a.statusAkhir, isSynced := d.isSynced, updatedAt := now)
  }

  /** `prisma.measurement.update({ where: { id }, data })` */
  function ApplyUpdate(rows: seq<Measurement>, id: string, d: RowData, now: int): (r: seq<Measurement>)
    ensures |r| == |rows| && forall i :: 0 <= i < |rows| ==> r[i].id == rows[i].id
  {
    seq(|rows|, i requires 0 <= i < |rows| => if rows[i].id == id then UpdateRow(rows[i], d, now) else rows[i])
  }

  /** The update transaction, applied in order. */
  function ApplyUpdates(rows: seq<Measurement>, ups: seq<(string, RowData)>, now: int): (r: seq<Measurement>)
    ensures |r| == |rows| && forall i :: 0 <= i < |rows| ==> r[i].id == rows[i].id
    decreases |ups|
  {
    if ups == [] then rows
    else ApplyUpdates(ApplyUpdate(rows, ups[0].0, ups[0].1, now), ups[1..], now)
  }

  /** The rows createMany inserts, with ids generated from `first` on. */
  function NewRows(toCreate: seq<RowData>, first: nat, now: int): (r: seq<Measurement>)
    ensures |r| == |toCreate|
    ensures forall k :: 0 <= k < |r| ==> r[k] == ToRow(GeneratedId(first + k), toCreate[k], now)
  {
    seq(|toCreate|, k requires 0 <= k < |toCreate| => ToRow(GeneratedId(first + k), toCreate[k], now))
  }

  /** syncFromOffline: look up existing rows by localId and the children of
      the batch, partition the batch, insert the creates, then run the
      updates. Returns the two counts. */
  method SyncFromOffline(db: Database, ms: seq<MeasurementInput>, today: Date, now: int) returns (created: nat, updated: nat)
    requires db.Valid()
    modifies db
    ensures db.Valid()
    ensures db.balitas == old(db.balitas) && db.villages == old(db.villages) && db.poskos == old(db.poskos)
    ensures var existing := ExistingMap(old(db.measurements), LocalIds(ms));
      var toCreate := Creates(ms, existing, old(db.balitas), today);
      var toUpdate := Updates(ms, existing, old(db.balitas), today);
      && created == |toCreate| && updated == |toUpdate|
      && db.measurements == ApplyUpdates(old(db.measurements) + NewRows(toCreate, old(db.issued), now), toUpdate, now)
    ensures created + updated == KnownCount(ms, old(db.balitas)) <= |ms|
  {
    var toCreate, toUpdate := PlanSync(db.measurements, db.balitas, ms, today);
    var inserted := NewRows(toCreate, db.issued, now);
    SyncKeepsIds(db.measurements, toCreate, toUpdate, db.issued, now);
    SyncedDataIsServerComputed(ms, ExistingMap(db.measurements, LocalIds(ms)), db.balitas, today);
    SyncKeepsLinks(db.measurements, toCreate, toUpdate, db.issued, now, db.balitas);
    var rows := ApplyUpdates(db.measurements + inserted, toUpdate, now);
    db.measurements, db.issued := rows, db.issued + |toCreate|;
    created, updated := |toCreate|, |toUpdate|;
  }

  /** The reads before the transaction: rows with the batch's local ids,
      the batch's children in one query, and the partition of the batch. */
  method PlanSync(rows: seq<Measurement>, balitas: map<string, Balita>, ms: seq<MeasurementInput>, today: Date)
    returns (toCreate: seq<RowData>, toUpdate: seq<(string, RowData)>)
    ensures var existing := ExistingMap(rows, LocalIds(ms));
      && toCreate == Creates(ms, existing, balitas, today)
      && toUpdate == Updates(ms, existing, balitas, today)
    ensures |toCreate| + |toUpdate| == KnownCount(ms, balitas) <= |ms|
  {
    var localIds := LocalIds(ms);
    var existing := ExistingMap(rows, localIds);
    var balitaMap := BatchChildren(ms, balitas);
    BatchLookupAgrees(ms, existing, balitaMap, balitas, today);
    toCreate, toUpdate := Partition(ms, existing, balitaMap, today);
  }

  /** The children a batch refers to, read from the table in one query. */
  function BatchChildren(ms: seq<MeasurementInput>, balitas: map<string, Balita>): (batch: map<string, Balita>)
    ensures forall m :: m in ms ==> (m.balitaId in batch <==> m.balitaId in balitas)
    ensures forall id :: id in batch ==> id in balitas && batch[id] == balitas[id]
  {
    var ids := set m | m in ms :: m.balitaId;
    map id | id in ids && id in balitas :: balitas[id]
  }

  /** Looking the children up in the batch's own map is the same as looking
      them up in the whole table. */
  lemma {:induction false} BatchLookupAgrees(ms: seq<MeasurementInput>, existing: map<string, string>,
                                             batch: map<string, Balita>, all: map<string, Balita>, today: Date)
    requires forall m :: m in ms ==> (m.balitaId in batch <==> m.balitaId in all)
    requires forall id :: id in batch ==> id in all && batch[id] == all[id]
    ensures Creates(ms, existing, batch, today) == Creates(ms, existing, all, today)
    ensures Updates(ms, existing, batch, today) == Updates(ms, existing, all, today)
    ensures KnownCount(ms, batch) == KnownCount(ms, all)
    decreases |ms|
  {
    if ms != [] {
      assert forall m :: m in ms[..|ms| - 1] ==> m in ms;
      BatchLookupAgrees(ms[..|ms| - 1], existing, batch, all, today);
    }
  }

  /** Appending the inserted rows and then running the updates keeps ids
      unique and generated. */
  lemma SyncKeepsIds(rows: seq<Measurement>, toCreate: seq<RowData>, ups: seq<(string, RowData)>, first: nat, now: int)
    requires RowIdsOk(rows, first)
    ensures RowIdsOk(ApplyUpdates(rows + NewRows(toCreate, first, now), ups, now), first + |toCreate|)
  {
    var all := rows + NewRows(toCreate, first, now);
    forall i | |rows| <= i < |all|
      ensures |all[i].id| == first + (i - |rows|) + 1
    {
    }
    assert RowIdsOk(all, first + |toCreate|);
    var r := ApplyUpdates(all, ups, now);
    assert forall i :: 0 <= i < |r| ==> r[i].id == all[i].id;
  }

  /** Inserting rows for known children and then running updates that name
      known children leaves no measurement without its child. */
  lemma SyncKeepsLinks(rows: seq<Measurement>, toCreate: seq<RowData>, ups: seq<(string, RowData)>,
                       first: nat, now: int, balitas: map<string, Balita>)
    requires RowsLinked(rows, balitas)
    requires forall d :: d in toCreate ==> d.input.balitaId in balitas
    requires forall u :: u in ups ==> u.1.input.balitaId in balitas
    ensures RowsLinked(ApplyUpdates(rows + NewRows(toCreate, first, now), ups, now), balitas)
  {
    var all := rows + NewRows(toCreate, first, now);
    forall i | |rows| <= i < |all|
      ensures all[i].balitaId in balitas
    {
      assert toCreate[i - |rows|] in toCreate;
    }
    UpdatesKeepLinks(all, ups, now, balitas);
  }

  /** Each update writes the balitaId of its own record. */
  lemma {:induction false} UpdatesKeepLinks(rows: seq<Measurement>, ups: seq<(string, RowData)>, now: int, balitas: map<string, Balita>)
    requires RowsLinked(rows, balitas)
    requires forall u :: u in ups ==> u.1.input.balitaId in balitas
    ensures RowsLinked(ApplyUpdates(rows, ups, now), balitas)
    decreases |ups|
  {
    if ups != [] {
      assert ups[0] in ups;
      var next := ApplyUpdate(rows, ups[0].0, ups[0].1, now);
      assert RowsLinked(next, balitas);
      assert forall u :: u in ups[1..] ==> u in ups;
      UpdatesKeepLinks(next, ups[1..], now, balitas);
    }
  }

  // ---------------------------------------------------------------------
  // getDeltaSync

  /** The downstream sync condition: changed or soft-deleted after lastSync,
      and owned by the relawan when one is given. */
  predicate DeltaMatches(m: Measurement, lastSync: int, relawanId: Option<string>) {
    && (m.updatedAt > lastSync || (m.deletedAt.Some? && m.deletedAt.value > lastSync))
    && (TruthyString(relawanId) ==> m.relawanId == relawanId.value)
  }

  /** The rows getDeltaSync returns, in table order. */
  function DeltaSync(rows: seq<Measurement>, lastSync: int, relawanId: Option<string>): (r: seq<Measurement>)
    ensures forall m :: m in r <==> m in rows && DeltaMatches(m, lastSync, relawanId)
    ensures |r| <= |rows|
    decreases |rows|
  {
    if rows == [] then []
    else
      var rest := DeltaSync(rows[1..], lastSync, relawanId);
      if DeltaMatches(rows[0], lastSync, relawanId) then [rows[0]] + rest else rest
  }

  /** A row soft-deleted after lastSync is always sent down (as a tombstone),
      even when it was not otherwise updated. */
  lemma TombstonesAreSent(rows: seq<Measurement>, lastSync: int, m: Measurement)
    requires m in rows && m.deletedAt.Some? && m.deletedAt.value > lastSync
    ensures m in DeltaSync(rows, lastSync, None)
  {
  }

  // ---------------------------------------------------------------------
  // getStatistics: per-status counts

  datatype StatusGroup = StatusGroup(status: Status, count: nat)
  datatype Counts = Counts(hijau: nat, kuning: nat, merah: nat) {
    function Get(s: Status): (r: nat) {
      match s
      case Hijau => hijau
      case Kuning => kuning
      case Merah => merah
    }
    function Set(s: Status, n: nat): (c: Counts)
      ensures c.Get(s) == n && forall t :: t != s ==> c.Get(t) == Get(t)
    {
      match s
      case Hijau => this.(hijau := n)
      case Kuning => this.(kuning := n)
      case Merah => this.(merah := n)
    }
  }

  /** The count of the last group for status `s`, 0 when there is none. */
  function LastCount(groups: seq<StatusGroup>, s: Status): (r: nat)
    decreases |groups|
  {
    if groups == [] then 0
    else if groups[|groups| - 1].status == s then groups[|groups| - 1].count
    else LastCount(groups[..|groups| - 1], s)
  }

  /** `statusCounts` starts at zero for each status and each group overwrites
      its own status's entry. */
  method StatusCounts(groups: seq<StatusGroup>) returns (counts: Counts)
    ensures forall s :: counts.Get(s) == LastCount(groups, s)
  {
    counts := Counts(0, 0, 0);
    for k := 0 to |groups|
      invariant forall s :: counts.Get(s) == LastCount(groups[..k], s)
    {
      assert groups[..k + 1][..k] == groups[..k];
      counts := counts.Set(groups[k].status, groups[k].count);
    }
    assert groups[..|groups|] == groups;
  }

  /** When each status appears in at most one group (as groupBy returns
      them), a status's count is its group's count, and 0 when absent. */
  lemma {:induction false} StatusCountOfGroup(groups: seq<StatusGroup>, s: Status)
    requires forall i, j :: 0 <= i < j < |groups| ==> groups[i].status != groups[j].status
    ensures (exists g :: g in groups && g.status == s) ==> exists g :: g in groups && g.status == s && LastCount(groups, s) == g.count
    ensures (forall g :: g in groups ==> g.status != s) ==> LastCount(groups, s) == 0
    decreases |groups|
  {
    if groups != [] {
      var prefix := groups[..|groups| - 1];
      StatusCountOfGroup(prefix, s);
      assert forall g :: g in prefix ==> g in groups;
      assert forall g :: g in groups ==> g in prefix || g == groups[|groups| - 1];
    }
  }
}
