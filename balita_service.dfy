/** The child (balita) service: the list filter with its case-insensitive
    name search, the age attached to every returned row, and the existence
    checks in front of each read and write. */
module BalitaService {
  import opened Wrappers
  import opened Calendar
  import opened Store
  import opened JsStrings
  import Pagination

  // ---------------------------------------------------------------------
  // findAll

  datatype Filters = Filters(villageId: Option<int>, poskoId: Option<int>, search: Option<string>)

  /** The `where` object of the list query; None is an absent key. */
  datatype Where = Where(villageId: Option<int>, poskoId: Option<int>, search: Option<string>)

  /** Each filter becomes a condition only when it is truthy: a village or
      posko id of 0 and an empty search string are ignored. */
  function FindAllWhere(filters: Option<Filters>): (w: Where)
    ensures w.villageId.Some? <==> filters.Some? && TruthyInt(filters.value.villageId)
    ensures w.poskoId.Some? <==> filters.Some? && TruthyInt(filters.value.poskoId)
    ensures w.search.Some? <==> filters.Some? && TruthyString(filters.value.search)
    ensures w.villageId.Some? ==> w.villageId == filters.value.villageId
    ensures w.poskoId.Some? ==> w.poskoId == filters.value.poskoId
    ensures w.search.Some? ==> w.search == filters.value.search
  {
    match filters
    case None => Where(None, None, None)
    case Some(f) =>
      Where(if TruthyInt(f.villageId) then f.villageId else None,
            if TruthyInt(f.poskoId) then f.poskoId else None,
            if TruthyString(f.search) then f.search else None)
  }

  /** `{ contains: needle, mode: "insensitive" }`, with case folded on ASCII
      letters. */
  predicate ContainsInsensitive(hay: string, needle: string) {
    Contains(Lower(hay), Lower(needle))
  }

  /** Whether a child row satisfies a `where` object: the search matches the
      child's name OR the parent's name. */
  predicate Matches(w: Where, b: Balita) {
    && (w.villageId.Some? ==> b.villageId == w.villageId.value)
    && (w.poskoId.Some? ==> b.poskoId == w.poskoId)
    && (w.search.Some? ==> ContainsInsensitive(b.namaAnak, w.search.value) || ContainsInsensitive(b.namaOrtu, w.search.value))
  }

  /** The rows the list query selects, stated in terms of the request. */
  lemma FindAllSelects(filters: Option<Filters>, b: Balita)
    ensures Matches(FindAllWhere(filters), b) <==>
      && (filters.Some? && TruthyInt(filters.value.villageId) ==> b.villageId == filters.value.villageId.value)
      && (filters.Some? && TruthyInt(filters.value.poskoId) ==> b.poskoId == filters.value.poskoId)
      && (filters.Some? && TruthyString(filters.value.search) ==>
            ContainsInsensitive(b.namaAnak, filters.value.search.value) || ContainsInsensitive(b.namaOrtu, filters.value.search.value))
  {
  }

  /** The search ignores ASCII case on both sides. */
  lemma {:induction false} SearchIgnoresCase(hay: string, needle: string)
    ensures ContainsInsensitive(hay, needle) <==> ContainsInsensitive(Lower(hay), Lower(needle))
  {
    LowerIdempotent(hay);
    LowerIdempotent(needle);
  }

  lemma {:induction false} LowerIdempotent(s: string)
    ensures Lower(Lower(s)) == Lower(s)
    decreases |s|
  {
    if s != [] {
      LowerIdempotent(s[1..]);
      assert Lower(s) == [LowerChar(s[0])] + Lower(s[1..]);
    }
  }

  /** The query findAll sends; its `meta` is Pagination.PageMeta. */
  datatype Query = Query(where: Where, skip: int, take: int)

  function FindAllQuery(page: int, limit: int, filters: Option<Filters>): (q: Query)
    ensures q.where == FindAllWhere(filters) && q.take == limit
    ensures q.skip == Pagination.Skip(page, limit)
    ensures page >= 1 && limit >= 0 ==> q.skip >= 0
  {
    Query(FindAllWhere(filters), Pagination.Skip(page, limit), limit)
  }

  /** A child as returned to the client: the stored row and its age. */
  datatype BalitaView = BalitaView(balita: Balita, umurBulan: nat)

  function View(b: Balita, today: Date): (r: BalitaView) {
    BalitaView(b, AgeInMonths(b.tanggalLahir, today))
  }

  /** `balitas.map(...)`: the fetched rows in the same order and number, each
      unchanged and carrying its age in whole months. */
  function WithAge(rows: seq<Balita>, today: Date): (r: seq<BalitaView>)
    ensures |r| == |rows|
    ensures forall i :: 0 <= i < |rows| ==> r[i].balita == rows[i]
    ensures forall i :: 0 <= i < |rows| ==> r[i].umurBulan == AgeInMonths(rows[i].tanggalLahir, today)
    decreases |rows|
  {
    if rows == [] then [] else [View(rows[0], today)] + WithAge(rows[1..], today)
  }

  // ---------------------------------------------------------------------
  // findById

  /** The measurements of one child, in table order. */
  function MeasurementsOf(rows: seq<Measurement>, balitaId: string): (r: seq<Measurement>)
    ensures forall m :: m in r <==> m in rows && m.balitaId == balitaId
    decreases |rows|
  {
    if rows == [] then []
    else
      var rest := MeasurementsOf(rows[1..], balitaId);
      if rows[0].balitaId == balitaId then [rows[0]] + rest else rest
  }

  datatype BalitaDetail = BalitaDetail(view: BalitaView, measurements: seq<Measurement>)

  const NotFound: Error := ApiError(404, BalitaNotFound)

  /** findById: the child with its age and its measurements, or 404. */
  function FindById(db: Database, id: string, today: Date): (r: Result<BalitaDetail>)
    reads db
    ensures r.Err? <==> id !in db.balitas
    ensures r.Err? ==> r.error == NotFound
    ensures r.Ok? ==> r.value.view.balita == db.balitas[id]
    ensures r.Ok? ==> r.value.view.umurBulan == AgeInMonths(db.balitas[id].tanggalLahir, today)
    ensures r.Ok? ==> forall m :: m in r.value.measurements <==> m in db.measurements && m.balitaId == id
  {
    if id !in db.balitas then Err(NotFound)
    else
      var b := db.balitas[id];
      Ok(BalitaDetail(View(b, today), MeasurementsOf(db.measurements, id)))
  }

  // ---------------------------------------------------------------------
  // create

  datatype CreateInput = CreateInput(
    namaAnak: string,
    namaOrtu: string,
    tanggalLahir: Date,
    jenisKelamin: Gender,
    villageId: int,
    poskoId: Option<int>)

  /** The row `prisma.balita.create({ data })` writes under a new id. */
  function NewBalita(id: string, data: CreateInput): (b: Balita)
    ensures b.id == id && b.villageId == data.villageId && b.poskoId == data.poskoId
    ensures b.namaAnak == data.namaAnak && b.namaOrtu == data.namaOrtu
    ensures b.tanggalLahir == data.tanggalLahir && b.jenisKelamin == data.jenisKelamin
  {
    Balita(id, data.namaAnak, data.namaOrtu, data.tanggalLahir, data.jenisKelamin, data.villageId, data.poskoId)
  }

  /** The outcome of a create against the given village and posko tables,
      before the row is written: the village must exist; the posko is looked
      up only when a truthy poskoId is given; a poskoId the lookup skipped
      (0) still has to satisfy the posko foreign key on insert. */
  function CreateCheck(data: CreateInput, villages: set<int>, poskos: set<int>): (r: Option<Error>)
    ensures r.None? <==> data.villageId in villages && (data.poskoId.Some? ==> data.poskoId.value in poskos)
    ensures data.villageId !in villages ==> r == Some(ApiError(404, VillageNotFound))
    ensures data.villageId in villages && TruthyInt(data.poskoId) && data.poskoId.value !in poskos ==>
      r == Some(ApiError(404, PoskoNotFound))
  {
    if data.villageId !in villages then Some(ApiError(404, VillageNotFound))
    else if TruthyInt(data.poskoId) && data.poskoId.value !in poskos then Some(ApiError(404, PoskoNotFound))
    else if data.poskoId.Some? && data.poskoId.value !in poskos then Some(DbError(ForeignKeyViolation))
    else None
  }

  /** create: checks, then insert under a fresh id; the result carries the
      new child's age. On any failure nothing is written. */
  method Create(db: Database, data: CreateInput, today: Date) returns (r: Result<BalitaView>)
    requires db.Valid()
    modifies db
    ensures db.Valid()
    ensures db.villages == old(db.villages) && db.poskos == old(db.poskos) && db.measurements == old(db.measurements)
    ensures var check := CreateCheck(data, old(db.villages), old(db.poskos));
      && (check.Some? ==> r == Err(check.value) && db.balitas == old(db.balitas))
      && (check.None? ==>
            && r.Ok?
            && r.value.balita.id !in old(db.balitas)
            && r.value == View(NewBalita(r.value.balita.id, data), today)
            && db.balitas == old(db.balitas)[r.value.balita.id := r.value.balita])
  {
    var check := CreateCheck(data, db.villages, db.poskos);
    if check.Some? {
      return Err(check.value);
    }
    var id := db.NewId();
    var b := NewBalita(id, data);
    db.balitas := db.balitas[id := b];
    r := Ok(View(b, today));
  }

  // ---------------------------------------------------------------------
  // update

  /** A partial update: an absent field is left as it is. */
  datatype UpdateInput = UpdateInput(
    namaAnak: Option<string>,
    namaOrtu: Option<string>,
    tanggalLahir: Option<Date>,
    jenisKelamin: Option<Gender>,
    villageId: Option<int>,
    poskoId: Option<int>)

  function Or<T>(o: Option<T>, otherwise: T): (r: T) {
    if o.Some? then o.value else otherwise
  }

  /** The row after `prisma.balita.update({ data })`: every given field
      replaced, every absent one and the id kept. */
  function Patched(b: Balita, data: UpdateInput): (p: Balita)
    ensures p.id == b.id
    ensures data.namaAnak.Some? ==> p.namaAnak == data.namaAnak.value
    ensures data.namaAnak.None? ==> p.namaAnak == b.namaAnak
    ensures data.namaOrtu.Some? ==> p.namaOrtu == data.namaOrtu.value
    ensures data.namaOrtu.None? ==> p.namaOrtu == b.namaOrtu
    ensures data.tanggalLahir.Some? ==> p.tanggalLahir == data.tanggalLahir.value
    ensures data.tanggalLahir.None? ==> p.tanggalLahir == b.tanggalLahir
    ensures data.jenisKelamin.Some? ==> p.jenisKelamin == data.jenisKelamin.value
    ensures data.jenisKelamin.None? ==> p.jenisKelamin == b.jenisKelamin
    ensures data.villageId.Some? ==> p.villageId == data.villageId.value
    ensures data.villageId.None? ==> p.villageId == b.villageId
    ensures data.poskoId.Some? ==> p.poskoId == data.poskoId
    ensures data.poskoId.None? ==> p.poskoId == b.poskoId
  {
    Balita(b.id, Or(data.namaAnak, b.namaAnak), Or(data.namaOrtu, b.namaOrtu),
           Or(data.tanggalLahir, b.tanggalLahir), Or(data.jenisKelamin, b.jenisKelamin),
           Or(data.villageId, b.villageId), if data.poskoId.Some? then data.poskoId else b.poskoId)
  }

  /** An update that gives no field changes nothing, and applying the same
      update twice is the same as applying it once. */
  lemma PatchedLaws(b: Balita, data: UpdateInput)
    ensures Patched(b, UpdateInput(None, None, None, None, None, None)) == b
    ensures Patched(Patched(b, data), data) == Patched(b, data)
  {
  }

  /** update: 404 when the child is missing; otherwise the patched row is
      written, unless it breaks a foreign key, which the database refuses. */
  method Update(db: Database, id: string, data: UpdateInput, today: Date) returns (r: Result<BalitaView>)
    requires db.Valid()
    modifies db
    ensures db.Valid()
    ensures db.villages == old(db.villages) && db.poskos == old(db.poskos) && db.measurements == old(db.measurements)
    ensures id !in old(db.balitas) ==> r == Err(NotFound) && db.balitas == old(db.balitas)
    ensures id in old(db.balitas) ==>
      var p := Patched(old(db.balitas)[id], data);
      && (Linked(p, db.villages, db.poskos) ==> r == Ok(View(p, today)) && db.balitas == old(db.balitas)[id := p])
      && (!Linked(p, db.villages, db.poskos) ==> r.Err? && r.error.DbError? && db.balitas == old(db.balitas))
  {
    if id !in db.balitas {
      return Err(NotFound);
    }
    var p := Patched(db.balitas[id], data);
    if !Linked(p, db.villages, db.poskos) {
      return Err(DbError(ForeignKeyViolation));
    }
    db.balitas := db.balitas[id := p];
    r := Ok(View(p, today));
  }

  // ---------------------------------------------------------------------
  // delete

  /** Whether some measurement row, soft-deleted or not, refers to child
      `id`. */
  predicate HasMeasurements(rows: seq<Measurement>, id: string) {
    exists i :: 0 <= i < |rows| && rows[i].balitaId == id
  }

  /** A child has measurement rows exactly when findById would list some. */
  lemma {:induction false} HasMeasurementsIffListed(rows: seq<Measurement>, id: string)
    ensures HasMeasurements(rows, id) <==> MeasurementsOf(rows, id) != []
  {
    if MeasurementsOf(rows, id) != [] {
      assert MeasurementsOf(rows, id)[0] in MeasurementsOf(rows, id);
    }
    if HasMeasurements(rows, id) {
      var i :| 0 <= i < |rows| && rows[i].balitaId == id;
      assert rows[i] in MeasurementsOf(rows, id);
    }
  }

  /** Removing a child none of whose measurements remain keeps every
      measurement linked to a stored child. */
  lemma RemoveKeepsLinks(rows: seq<Measurement>, balitas: map<string, Balita>, id: string)
    requires RowsLinked(rows, balitas) && !HasMeasurements(rows, id)
    ensures RowsLinked(rows, balitas - {id})
  {
  }

  /** delete: 404 when the child is missing. A child that still has
      measurement rows is refused by the database (the required relation
      restricts the delete), and nothing changes; otherwise the row is
      removed. */
  method Delete(db: Database, id: string) returns (r: Result<Message>)
    requires db.Valid()
    modifies db
    ensures db.Valid()
    ensures db.villages == old(db.villages) && db.poskos == old(db.poskos) && db.measurements == old(db.measurements)
    ensures id !in old(db.balitas) ==> r == Err(NotFound) && db.balitas == old(db.balitas)
    ensures id in old(db.balitas) && HasMeasurements(old(db.measurements), id) ==>
      r == Err(DbError(ForeignKeyViolation)) && db.balitas == old(db.balitas)
    ensures id in old(db.balitas) && !HasMeasurements(old(db.measurements), id) ==>
      r == Ok(BalitaDeleted) && db.balitas == old(db.balitas) - {id}
  {
    if id !in db.balitas {
      return Err(NotFound);
    }
    if HasMeasurements(db.measurements, id) {
      return Err(DbError(ForeignKeyViolation));
    }
    RemoveKeepsLinks(db.measurements, db.balitas, id);
    db.balitas := db.balitas - {id};
    r := Ok(BalitaDeleted);
  }
}
