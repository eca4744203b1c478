/** The rows the child and measurement services read and write, and the
    database holding them. Ids the database generates (uuids) are modelled as
    strings issued from a counter, so a new id never collides with an old one. */
module Store {
  import opened Wrappers
  import opened Calendar
  import ZScoreCalculator

  datatype Gender = L | P

  /** The string the calculator receives for a sex. */
  function GenderCode(g: Gender): (r: string) {
    match g
    case L => "L"
    case P => "P"
  }

  datatype Posisi = Terlentang | Berdiri

  /** A JSON column the services store and return without reading it
      (`sanitationData`, `medicalHistoryData`), kept as its text. */
  type Json = string

  /** A child (balita). */
  datatype Balita = Balita(
    id: string,
    namaAnak: string,
    namaOrtu: string,
    tanggalLahir: Date,
    jenisKelamin: Gender,
    villageId: int,
    poskoId: Option<int>)

  /** A measurement row. `createdAt`, `updatedAt` and `deletedAt` are instants
      in milliseconds. */
  datatype Measurement = Measurement(
    id: string,
    localId: Option<string>,
    balitaId: string,
    relawanId: string,
    beratBadan: real,
    tinggiBadan: real,
    lingkarKepala: real,
    lila: real,
    posisiUkur: Posisi,
    notes: Option<string>,
    sanitationData: Option<Json>,
    medicalHistoryData: Option<Json>,
    bbUStatus: ZScoreCalculator.Label,
    tbUStatus: ZScoreCalculator.Label,
    bbTbStatus: ZScoreCalculator.Label,
    statusAkhir: ZScoreCalculator.Status,
    isSynced: bool,
    createdAt: int,
    updatedAt: int,
    deletedAt: Option<int>)

  /** The `n`-th generated id: distinct ids for distinct `n`, never empty. */
  function GeneratedId(n: nat): (id: string)
    ensures |id| == n + 1
  {
    seq(n + 1, _ => '#')
  }

  /** Measurement ids are unique and were generated before the `issued`-th id. */
  ghost predicate RowIdsOk(rows: seq<Measurement>, issued: nat) {
    && (forall i :: 0 <= i < |rows| ==> |rows[i].id| <= issued)
    && (forall i, j :: 0 <= i < j < |rows| ==> rows[i].id != rows[j].id)
  }

  /** Appending a row with the next generated id keeps the ids well formed. */
  lemma AppendGenerated(rows: seq<Measurement>, issued: nat, row: Measurement)
    requires RowIdsOk(rows, issued) && |row.id| == issued + 1
    ensures RowIdsOk(rows + [row], issued + 1)
  {
  }

  /** Every measurement belongs to a stored child: `balitaId` is a required
      relation, so the database never holds a measurement without its child. */
  ghost predicate RowsLinked(rows: seq<Measurement>, balitas: map<string, Balita>) {
    forall i :: 0 <= i < |rows| ==> rows[i].balitaId in balitas
  }

  /** The foreign keys of a child row point at an existing village and, when
      set, an existing posko. */
  predicate Linked(b: Balita, villages: set<int>, poskos: set<int>) {
    b.villageId in villages && (b.poskoId.Some? ==> b.poskoId.value in poskos)
  }

  class Database {
    var villages: set<int>
    var poskos: set<int>
    var balitas: map<string, Balita>
    var measurements: seq<Measurement>
    /** number of ids generated so far */
    var issued: nat

    /** Every row is stored under its own id, every id was generated before,
        measurement ids are unique, and every foreign key points at a stored
        row. */
    ghost predicate Valid()
      reads this
    {
      && (forall id :: id in balitas ==> balitas[id].id == id && |id| <= issued && Linked(balitas[id], villages, poskos))
      && RowIdsOk(measurements, issued)
      && RowsLinked(measurements, balitas)
    }

    constructor(villages: set<int>, poskos: set<int>)
      ensures Valid()
      ensures this.villages == villages && this.poskos == poskos
      ensures balitas == map[] && measurements == []
    {
      this.villages := villages;
      this.poskos := poskos;
      balitas := map[];
      measurements := [];
      issued := 0;
    }

    /** Generates an id no stored row has. */
    method NewId() returns (id: string)
      requires Valid()
      modifies this`issued
      ensures Valid()
      ensures id != "" && id !in balitas
      ensures |id| == issued == old(issued) + 1
    {
      id := GeneratedId(issued);
      issued := issued + 1;
    }
  }
}
