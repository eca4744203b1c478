/** Step 5 of the seed script: the rows of the two spreadsheets are merged
    into one map of children keyed by lower-cased name and birth instant.
    The first file sets an entry per row; the second adds a measurement to
    a child already known and otherwise creates the child. */
module SeedMerge {
  import opened Wrappers
  import opened JsStrings
  import opened SeedCsv
  import opened SeedValues
  import Store

  /** A posko the script created, with the village it belongs to. */
  datatype Posko = Posko(id: int, villageId: int)

  /** The numbers faker draws for one new child: an index into the villages,
      an index into that village's poskos, and the sex. */
  datatype Draw = Draw(villagePick: nat, poskoPick: nat, boy: bool)

  /** What the script is given besides the files: the village ids and
      poskos it created, faker's draws for the row at index `row` of the
      first (0) or second (1) file, and `Date.getTime` of a date text (None
      for an invalid date, whose time is NaN). */
  datatype Env = Env(
    villages: seq<int>,
    poskos: seq<Posko>,
    draw: (nat, nat) -> Draw,
    timeOf: string -> Option<int>)

  /** `poskos.filter((p) => p.villageId === village.id)` */
  function PoskosIn(poskos: seq<Posko>, villageId: int): (r: seq<Posko>)
    ensures forall p :: p in r <==> p in poskos && p.villageId == villageId
  {
    if poskos == [] then []
    else (if poskos[0].villageId == villageId then [poskos[0]] else []) + PoskosIn(poskos[1..], villageId)
  }

  datatype Placement = Placement(villageId: int, poskoId: Option<int>)

  /** `getRandomVillagePosko`: a village, and a posko of that village when
      it has one. */
  function RandomPlacement(villages: seq<int>, poskos: seq<Posko>, d: Draw): (p: Placement)
    requires |villages| > 0
    ensures p.villageId in villages
    ensures p.poskoId.Some? ==> Posko(p.poskoId.value, p.villageId) in poskos
    ensures p.poskoId.None? ==> forall q :: q in poskos ==> q.villageId != p.villageId
  {
    var village := villages[d.villagePick % |villages|];
    var available := PoskosIn(poskos, village);
    if |available| > 0 then
      var chosen := available[d.poskoPick % |available|];
      assert chosen in available;
      Placement(village, Some(chosen.id))
    else
      Placement(village, None)
  }

  /** The map key `${namaAnak.toLowerCase().trim()}_${tanggalLahir.getTime()}`.
      The time part of that text never holds an underscore, so distinct
      pairs give distinct texts and the pair stands for the text. */
  datatype Key = Key(name: string, time: Option<int>)

  /** Where a measurement came from; NoteText gives the stored note. */
  datatype Source = DataBaru | DataPasien(nik: string, keterangan: string)

  function NoteText(s: Source): (r: string) {
    match s
    case DataBaru => "Sumber: Data Baru.csv"
    case DataPasien(nik, keterangan) => "Sumber: Data Pasien. NIK: " + nik + ". " + keterangan
  }

  datatype MeasurementData = MeasurementData(
    beratBadan: Option<real>,
    tinggiBadan: Option<real>,
    lingkarKepala: Option<real>,
    lila: Option<real>,
    source: Source)

  /** An entry of the map. `tanggalLahir` is the text given to `Date`. */
  datatype BalitaDto = BalitaDto(
    namaAnak: string,
    namaOrtu: string,
    tanggalLahir: string,
    jenisKelamin: Store.Gender,
    villageId: int,
    poskoId: Option<int>,
    measurements: seq<MeasurementData>)

  /** `row[i]`, undefined past the end. */
  function Cell(row: seq<string>, i: nat): (r: Option<string>)
    ensures r.Some? <==> i < |row|
    ensures r.Some? ==> r.value == row[i]
  {
    if i < |row| then Some(row[i]) else None
  }

  /** `Orang Tua ${namaAnak}` */
  function DefaultParent(namaAnak: string): (r: string) {
    "Orang Tua " + namaAnak
  }

  /** `faker.helpers.arrayElement([Gender.L, Gender.P])` */
  function DrawnGender(d: Draw): (r: Store.Gender) {
    if d.boy then Store.L else Store.P
  }

  /** The child name and date a row must have to be read: a date that
      parses and a name that is neither empty nor a dash. */
  predicate Readable(dateCell: string, name: string) {
    ParseDate(dateCell).Some? && name != [] && name != ['-']
  }

  function KeyOf(name: string, date: string, env: Env): (r: Key) {
    Key(Trim(Lower(name)), env.timeOf(date))
  }

  /** A row of the first file (its index is `i`): the key and the entry it
      sets, or nothing when the row is skipped. Columns: 1 birth date,
      2 name, 4 weight, 5 length, 6 head circumference, 7 parent. */
  function BaruRow(row: seq<string>, i: nat, env: Env): (r: Option<(Key, BalitaDto)>)
    requires |env.villages| > 0
  {
    if |row| < 3 || !Readable(row[1], row[2]) then None
    else
      var name := row[2];
      var date := ParseDate(row[1]).value;
      var d := env.draw(0, i);
      var place := RandomPlacement(env.villages, env.poskos, d);
      var parent := Cell(row, 7);
      Some((KeyOf(name, date, env),
            BalitaDto(name, if TruthyString(parent) then parent.value else DefaultParent(name), date,
                      DrawnGender(d), place.villageId, place.poskoId,
                      [MeasurementData(ParseNumber(Cell(row, 4)), ParseNumber(Cell(row, 5)), ParseNumber(Cell(row, 6)), None, DataBaru)])))
  }

  /** What a row of the second file contributes: its key, its measurement,
      and the entry to create when the key is new. */
  datatype PasienRead = PasienRead(key: Key, measurement: MeasurementData, newEntry: BalitaDto)

  /** A row of the second file (its index is `i`), or nothing when skipped.
      Columns: 1 NIK, 2 name, 3 birth date, 4 weight, 5 height, 6 upper-arm
      circumference, 7 head circumference, 8 remark. */
  function PasienRow(row: seq<string>, i: nat, env: Env): (r: Option<PasienRead>)
    requires |env.villages| > 0
  {
    if |row| < 4 || !Readable(row[3], row[2]) then None
    else
      var name := row[2];
      var date := ParseDate(row[3]).value;
      var remark := Cell(row, 8);
      var m := MeasurementData(ParseNumber(Cell(row, 4)), ParseNumber(Cell(row, 5)), ParseNumber(Cell(row, 7)), ParseNumber(Cell(row, 6)),
                               DataPasien(row[1], if TruthyString(remark) then remark.value else ""));
      var d := env.draw(1, i);
      var place := RandomPlacement(env.villages, env.poskos, d);
      Some(PasienRead(KeyOf(name, date, env), m,
                      BalitaDto(name, DefaultParent(name), date, DrawnGender(d), place.villageId, place.poskoId, [m])))
  }

  /** Which rows of the first file are read, and what a read row sets:
      the key from the trimmed lower-case name and the parsed date, the
      parent column or the default parent, and one measurement from the
      weight, length and head-circumference columns. */
  lemma BaruRowReads(row: seq<string>, i: nat, env: Env)
    requires |env.villages| > 0
    ensures var r := BaruRow(row, i, env);
      && (r.Some? <==> |row| >= 3 && Readable(row[1], row[2]))
      && (r.Some? ==> var (key, dto) := r.value;
        && key == KeyOf(row[2], ParseDate(row[1]).value, env)
        && dto.namaAnak == row[2] && dto.tanggalLahir == ParseDate(row[1]).value
        && dto.namaOrtu == (if TruthyString(Cell(row, 7)) then row[7] else DefaultParent(row[2]))
        && dto.measurements == [MeasurementData(ParseNumber(Cell(row, 4)), ParseNumber(Cell(row, 5)), ParseNumber(Cell(row, 6)), None, DataBaru)])
  {
  }

  /** Which rows of the second file are read, and what a read row gives:
      its key, its measurement (note from the NIK and the remark) and the
      entry to create with the default parent. */
  lemma PasienRowReads(row: seq<string>, i: nat, env: Env)
    requires |env.villages| > 0
    ensures var r := PasienRow(row, i, env);
      && (r.Some? <==> |row| >= 4 && Readable(row[3], row[2]))
      && (r.Some? ==>
        && r.value.key == KeyOf(row[2], ParseDate(row[3]).value, env)
        && r.value.measurement == MeasurementData(ParseNumber(Cell(row, 4)), ParseNumber(Cell(row, 5)), ParseNumber(Cell(row, 7)), ParseNumber(Cell(row, 6)),
                                                  DataPasien(row[1], if TruthyString(Cell(row, 8)) then row[8] else ""))
        && r.value.newEntry.namaAnak == row[2] && r.value.newEntry.namaOrtu == DefaultParent(row[2])
        && r.value.newEntry.measurements == [r.value.measurement])
  {
  }

  /** The map's contents: its entries and the order in which their keys
      were first set, which is the order `values()` visits them in. */
  datatype Collected = Collected(entries: map<Key, BalitaDto>, order: seq<Key>)

  /** Every key appears once in the order, and the order holds exactly the
      keys of the entries. */
  ghost predicate Ordered(c: Collected) {
    && (forall k :: k in c.entries <==> k in c.order)
    && (forall i, j :: 0 <= i < j < |c.order| ==> c.order[i] != c.order[j])
  }

  /** An entry the insert step can use: a real name and numbers read by
      `parseNumber`, which are never negative. */
  ghost predicate Sound(dto: BalitaDto) {
    && dto.namaAnak != [] && dto.namaAnak != ['-']
    && |dto.measurements| >= 1
    && forall m :: m in dto.measurements ==> NonNegative(m)
  }

  predicate NonNegative(m: MeasurementData) {
    && (m.beratBadan.Some? ==> m.beratBadan.value >= 0.0)
    && (m.tinggiBadan.Some? ==> m.tinggiBadan.value >= 0.0)
    && (m.lingkarKepala.Some? ==> m.lingkarKepala.value >= 0.0)
    && (m.lila.Some? ==> m.lila.value >= 0.0)
  }

  ghost predicate WellFormed(c: Collected) {
    Ordered(c) && forall k :: k in c.entries ==> Sound(c.entries[k])
  }

  /** `Map.prototype.set`: the value is replaced, and a new key goes last. */
  function SetEntry(c: Collected, key: Key, dto: BalitaDto): (r: Collected)
    ensures r.entries.Keys == c.entries.Keys + {key} && r.entries[key] == dto
    ensures forall k :: k in c.entries && k != key ==> r.entries[k] == c.entries[k]
  {
    Collected(c.entries[key := dto], if key in c.entries then c.order else c.order + [key])
  }

  /** `existing.measurements.push(m)` on the entry under `key`. */
  function PushMeasurement(c: Collected, key: Key, m: MeasurementData): (r: Collected)
    requires key in c.entries
    ensures r.entries.Keys == c.entries.Keys && r.order == c.order
    ensures r.entries[key] == c.entries[key].(measurements := c.entries[key].measurements + [m])
    ensures forall k :: k in c.entries && k != key ==> r.entries[k] == c.entries[k]
  {
    var old_ := c.entries[key];
    Collected(c.entries[key := old_.(measurements := old_.measurements + [m])], c.order)
  }

  /** The map after the rows of the first file before index `n` (the
      header, index 0, is skipped). */
  function AfterBaru(c: Collected, rows: seq<seq<string>>, n: nat, env: Env): (r: Collected)
    requires n <= |rows| && |env.villages| > 0
    decreases n
  {
    if n <= 1 then c
    else BaruStep(AfterBaru(c, rows, n - 1, env), BaruRow(rows[n - 1], n - 1, env))
  }

  /** One row of the first file applied to the map. */
  function BaruStep(c: Collected, read: Option<(Key, BalitaDto)>): (r: Collected) {
    if read.None? then c else SetEntry(c, read.value.0, read.value.1)
  }

  /** One row of the second file applied to the map. */
  function PasienStep(c: Collected, read: Option<PasienRead>): (r: Collected) {
    match read
    case None => c
    case Some(r) =>
      if r.key in c.entries then PushMeasurement(c, r.key, r.measurement)
      else SetEntry(c, r.key, r.newEntry)
  }

  /** The map after the rows of the second file before index `n`. */
  function AfterPasien(c: Collected, rows: seq<seq<string>>, n: nat, env: Env): (r: Collected)
    requires n <= |rows| && |env.villages| > 0
    decreases n
  {
    if n <= 1 then c
    else PasienStep(AfterPasien(c, rows, n - 1, env), PasienRow(rows[n - 1], n - 1, env))
  }

  /** `new Map<string, BalitaDTO>()` and the operations the script uses. */
  class BalitaMap {
    var entries: map<Key, BalitaDto>
    var order: seq<Key>

    function Contents(): (r: Collected)
      reads this
    {
      Collected(entries, order)
    }

    ghost predicate Valid()
      reads this
    {
      WellFormed(Contents())
    }

    constructor ()
      ensures Contents() == Collected(map[], []) && Valid()
    {
      entries := map[];
      order := [];
    }

    /** `balitaMap.set(key, dto)` */
    method Set(key: Key, dto: BalitaDto)
      modifies this
      ensures Contents() == SetEntry(old(Contents()), key, dto)
    {
      if key !in entries {
        order := order + [key];
      }
      entries := entries[key := dto];
    }

    /** `balitaMap.get(key)!.measurements.push(m)` */
    method Push(key: Key, m: MeasurementData)
      requires key in entries
      modifies this
      ensures Contents() == PushMeasurement(old(Contents()), key, m)
    {
      var dto := entries[key];
      entries := entries[key := dto.(measurements := dto.measurements + [m])];
    }
  }

  /** The loop over the first file. */
  method ReadDataBaru(balitaMap: BalitaMap, rows: seq<seq<string>>, env: Env)
    requires |env.villages| > 0
    modifies balitaMap
    ensures balitaMap.Contents() == AfterBaru(old(balitaMap.Contents()), rows, |rows|, env)
  {
    ghost var start := balitaMap.Contents();
    var i := 1;
    while i < |rows|
      invariant 1 <= i && (i <= |rows| || |rows| == 0)
      invariant balitaMap.Contents() == AfterBaru(start, rows, if |rows| == 0 then 0 else i, env)
    {
      var read := BaruRow(rows[i], i, env);
      AddBaruRow(balitaMap, read);
      i := i + 1;
    }
  }

  /** The body of the loop over the first file: a read row sets its entry. */
  method AddBaruRow(balitaMap: BalitaMap, read: Option<(Key, BalitaDto)>)
    modifies balitaMap
    ensures balitaMap.Contents() == BaruStep(old(balitaMap.Contents()), read)
  {
    if read.Some? {
      balitaMap.Set(read.value.0, read.value.1);
    }
  }

  /** The loop over the second file. */
  method ReadDataPasien(balitaMap: BalitaMap, rows: seq<seq<string>>, env: Env)
    requires |env.villages| > 0
    modifies balitaMap
    ensures balitaMap.Contents() == AfterPasien(old(balitaMap.Contents()), rows, |rows|, env)
  {
    ghost var start := balitaMap.Contents();
    var i := 1;
    while i < |rows|
      invariant 1 <= i && (i <= |rows| || |rows| == 0)
      invariant balitaMap.Contents() == AfterPasien(start, rows, if |rows| == 0 then 0 else i, env)
    {
      var read := PasienRow(rows[i], i, env);
      AddPasienRow(balitaMap, read);
      i := i + 1;
    }
  }

  /** The body of the loop over the second file: a known child gets the
      measurement, an unknown one is set with it. */
  method AddPasienRow(balitaMap: BalitaMap, read: Option<PasienRead>)
    modifies balitaMap
    ensures balitaMap.Contents() == PasienStep(old(balitaMap.Contents()), read)
  {
    if read.Some? {
      if read.value.key in balitaMap.entries {
        balitaMap.Push(read.value.key, read.value.measurement);
      } else {
        balitaMap.Set(read.value.key, read.value.newEntry);
      }
    }
  }

  /** The rows of a file that may be missing: none when it does not exist,
      a failure when it exists without a non-blank line. */
  function FileRows(file: Option<string>): (r: Option<seq<seq<string>>>) {
    match file
    case None => Some([])
    case Some(content) => CsvRows(content)
  }

  /** The map the script has built when it starts inserting, or nothing
      when it failed while reading a file. */
  function Collect(file1: Option<string>, file2: Option<string>, env: Env): (r: Option<Collected>)
    requires |env.villages| > 0
  {
    match FileRows(file1)
    case None => None
    case Some(rows1) =>
      match FileRows(file2)
      case None => None
      case Some(rows2) =>
        Some(AfterPasien(AfterBaru(Collected(map[], []), rows1, |rows1|, env), rows2, |rows2|, env))
  }

  /** Step 5 of the script on the two files' contents (None for a file that
      does not exist). */
  method CollectBalitas(file1: Option<string>, file2: Option<string>, env: Env) returns (r: Option<BalitaMap>)
    requires |env.villages| > 0
    ensures r.None? <==> Collect(file1, file2, env).None?
    ensures r.Some? ==> r.value.Contents() == Collect(file1, file2, env).value
  {
    var balitaMap := new BalitaMap();
    var rows1 := ReadFile(file1);
    if rows1.None? {
      return None;
    }
    ReadDataBaru(balitaMap, rows1.value, env);
    var rows2 := ReadFile(file2);
    if rows2.None? {
      return None;
    }
    ReadDataPasien(balitaMap, rows2.value, env);
    return Some(balitaMap);
  }

  /** `if (fs.existsSync(path))`: the rows of the file when it exists. */
  method ReadFile(file: Option<string>) returns (rows: Option<seq<seq<string>>>)
    ensures rows == FileRows(file)
  {
    if file.None? {
      return Some([]);
    }
    rows := ParseCsv(file.value);
  }

  lemma SetKeepsWellFormed(c: Collected, key: Key, dto: BalitaDto)
    requires WellFormed(c) && Sound(dto)
    ensures WellFormed(SetEntry(c, key, dto))
  {
    var r := SetEntry(c, key, dto);
    if key !in c.entries {
      assert key !in c.order;
      forall i, j | 0 <= i < j < |r.order| ensures r.order[i] != r.order[j] {
        if j == |c.order| {
          assert r.order[i] in c.order;
        }
      }
    }
  }

  lemma PushKeepsWellFormed(c: Collected, key: Key, m: MeasurementData)
    requires WellFormed(c) && key in c.entries && NonNegative(m)
    ensures WellFormed(PushMeasurement(c, key, m))
  {
    var ms := c.entries[key].measurements + [m];
    assert forall x :: x in ms ==> x in c.entries[key].measurements || x == m;
  }

  lemma BaruRowSound(row: seq<string>, i: nat, env: Env)
    requires |env.villages| > 0 && BaruRow(row, i, env).Some?
    ensures Sound(BaruRow(row, i, env).value.1)
  {
    var ms := BaruRow(row, i, env).value.1.measurements;
    assert forall x :: x in ms ==> x == ms[0];
  }

  lemma PasienRowSound(row: seq<string>, i: nat, env: Env)
    requires |env.villages| > 0 && PasienRow(row, i, env).Some?
    ensures Sound(PasienRow(row, i, env).value.newEntry)
    ensures NonNegative(PasienRow(row, i, env).value.measurement)
  {
    var ms := PasienRow(row, i, env).value.newEntry.measurements;
    assert forall x :: x in ms ==> x == ms[0];
  }

  /** Reading the first file keeps every key once in the order, every name
      real and every number non-negative. */
  lemma {:induction false} BaruKeepsWellFormed(c: Collected, rows: seq<seq<string>>, n: nat, env: Env)
    requires n <= |rows| && |env.villages| > 0 && WellFormed(c)
    ensures WellFormed(AfterBaru(c, rows, n, env))
    decreases n
  {
    if n > 1 {
      BaruKeepsWellFormed(c, rows, n - 1, env);
      var read := BaruRow(rows[n - 1], n - 1, env);
      if read.Some? {
        BaruRowSound(rows[n - 1], n - 1, env);
        SetKeepsWellFormed(AfterBaru(c, rows, n - 1, env), read.value.0, read.value.1);
      }
    }
  }

  /** So does reading the second file. */
  lemma {:induction false} PasienKeepsWellFormed(c: Collected, rows: seq<seq<string>>, n: nat, env: Env)
    requires n <= |rows| && |env.villages| > 0 && WellFormed(c)
    ensures WellFormed(AfterPasien(c, rows, n, env))
    decreases n
  {
    if n > 1 {
      PasienKeepsWellFormed(c, rows, n - 1, env);
      var prev := AfterPasien(c, rows, n - 1, env);
      var read := PasienRow(rows[n - 1], n - 1, env);
      if read.Some? {
        PasienRowSound(rows[n - 1], n - 1, env);
        if read.value.key in prev.entries {
          PushKeepsWellFormed(prev, read.value.key, read.value.measurement);
        } else {
          SetKeepsWellFormed(prev, read.value.key, read.value.newEntry);
        }
      }
    }
  }

  /** Whatever the files hold, the map the script inserts from lists each
      child once, with a real name and non-negative numbers. */
  lemma CollectWellFormed(file1: Option<string>, file2: Option<string>, env: Env)
    requires |env.villages| > 0 && Collect(file1, file2, env).Some?
    ensures WellFormed(Collect(file1, file2, env).value)
  {
    var rows1 := FileRows(file1).value;
    var rows2 := FileRows(file2).value;
    BaruKeepsWellFormed(Collected(map[], []), rows1, |rows1|, env);
    PasienKeepsWellFormed(AfterBaru(Collected(map[], []), rows1, |rows1|, env), rows2, |rows2|, env);
  }

  /** In the first file the last readable row of a child wins: its entry
      is exactly what that row sets, earlier rows being overwritten. */
  lemma BaruLastRowWins(c: Collected, rows: seq<seq<string>>, n: nat, env: Env, j: nat)
    requires n <= |rows| && |env.villages| > 0
    requires 1 <= j < n && BaruRow(rows[j], j, env).Some?
    requires forall i :: j < i < n && BaruRow(rows[i], i, env).Some? ==> BaruRow(rows[i], i, env).value.0 != BaruRow(rows[j], j, env).value.0
    ensures var set_ := BaruRow(rows[j], j, env).value;
      set_.0 in AfterBaru(c, rows, n, env).entries && AfterBaru(c, rows, n, env).entries[set_.0] == set_.1
  {
    var f := BaruReader(rows, env);
    AfterBaruReplays(c, rows, n, env);
    assert f(j) == BaruRow(rows[j], j, env);
    ReplayLastWins(c, f, n, j);
  }

  /** The rows of the first file as a function of their index. */
  function BaruReader(rows: seq<seq<string>>, env: Env): (r: nat -> Option<(Key, BalitaDto)>)
    requires |env.villages| > 0
  {
    (i: nat) => if i < |rows| then BaruRow(rows[i], i, env) else None
  }

  /** The map after the first `n` reads of `f`, the one at index 0 skipped. */
  function Replay(c: Collected, f: nat -> Option<(Key, BalitaDto)>, n: nat): (r: Collected)
    decreases n
  {
    if n <= 1 then c else BaruStep(Replay(c, f, n - 1), f(n - 1))
  }

  lemma {:induction false} AfterBaruReplays(c: Collected, rows: seq<seq<string>>, n: nat, env: Env)
    requires n <= |rows| && |env.villages| > 0
    ensures AfterBaru(c, rows, n, env) == Replay(c, BaruReader(rows, env), n)
    decreases n
  {
    if n > 1 {
      AfterBaruReplays(c, rows, n - 1, env);
    }
  }

  /** Of several sets, the last one under a key decides its entry. */
  lemma {:induction false} ReplayLastWins(c: Collected, f: nat -> Option<(Key, BalitaDto)>, n: nat, j: nat)
    requires 1 <= j < n && f(j).Some?
    requires forall i :: j < i < n && f(i).Some? ==> f(i).value.0 != f(j).value.0
    ensures f(j).value.0 in Replay(c, f, n).entries && Replay(c, f, n).entries[f(j).value.0] == f(j).value.1
    decreases n
  {
    if n - 1 > j {
      ReplayLastWins(c, f, n - 1, j);
    }
  }

  /** Reading the second file never changes a child already in the map
      except by appending measurements to it, and keeps its place. */
  lemma {:induction false} PasienOnlyAppends(c: Collected, rows: seq<seq<string>>, n: nat, env: Env, key: Key)
    requires n <= |rows| && |env.villages| > 0 && key in c.entries
    ensures var r := AfterPasien(c, rows, n, env);
      && key in r.entries
      && r.entries[key] == c.entries[key].(measurements := r.entries[key].measurements)
      && c.entries[key].measurements <= r.entries[key].measurements
    decreases n
  {
    if n > 1 {
      PasienOnlyAppends(c, rows, n - 1, env, key);
      var prev := AfterPasien(c, rows, n - 1, env);
      var read := PasienRow(rows[n - 1], n - 1, env);
      var r := PasienStep(prev, read);
      assert key in prev.entries;
      if read.Some? && read.value.key == key {
        var before := prev.entries[key].measurements;
        assert r.entries[key].measurements == before + [read.value.measurement];
        assert before <= r.entries[key].measurements;
      } else {
        assert r.entries[key] == prev.entries[key];
      }
    }
  }

  /** Neither file moves a key already in the order: new keys go last. */
  lemma {:induction false} OrderGrows(c: Collected, rows: seq<seq<string>>, n: nat, env: Env)
    requires n <= |rows| && |env.villages| > 0
    ensures c.order <= AfterBaru(c, rows, n, env).order
    ensures c.order <= AfterPasien(c, rows, n, env).order
    decreases n
  {
    if n > 1 {
      OrderGrows(c, rows, n - 1, env);
    }
  }

  /** The readable rows of the second file before index `n` that carry `key`. */
  function PasienHits(rows: seq<seq<string>>, n: nat, env: Env, key: Key): (r: nat)
    requires n <= |rows| && |env.villages| > 0
    decreases n
  {
    if n <= 1 then 0
    else
      var read := PasienRow(rows[n - 1], n - 1, env);
      PasienHits(rows, n - 1, env, key) + (if read.Some? && read.value.key == key then 1 else 0)
  }

  /** Every readable row of the second file lands as one measurement of its
      child: a child ends up with the measurements it had plus one per row
      carrying its key. */
  lemma {:induction false} PasienMeasurementCount(c: Collected, rows: seq<seq<string>>, n: nat, env: Env, key: Key)
    requires n <= |rows| && |env.villages| > 0
    ensures var r := AfterPasien(c, rows, n, env);
      key in r.entries ==>
        |r.entries[key].measurements| == (if key in c.entries then |c.entries[key].measurements| else 0) + PasienHits(rows, n, env, key)
    ensures var r := AfterPasien(c, rows, n, env);
      key !in r.entries <==> key !in c.entries && PasienHits(rows, n, env, key) == 0
    decreases n
  {
    if n > 1 {
      PasienMeasurementCount(c, rows, n - 1, env, key);
      var prev := AfterPasien(c, rows, n - 1, env);
      var read := PasienRow(rows[n - 1], n - 1, env);
      if read.Some? && read.value.key == key && key !in prev.entries {
        assert |read.value.newEntry.measurements| == 1;
      }
    }
  }
}
