/** The nutrition-status classifier. It compares raw measurements with the
    -3SD/-2SD threshold tables (no LMS Z-score is computed), sorts each of
    weight-for-age (BB/U), length-for-age (TB/U) and weight-for-length (BB/TB)
    into one of three bands, and combines the three colour scores into the
    worst one. */
module ZScoreCalculator {
  import opened Wrappers
  import opened ZScoreConstants

  /** Colour score of one indicator or of the whole assessment. */
  datatype Status = Hijau | Kuning | Merah

  /** HIJAU < KUNING < MERAH */
  function Severity(s: Status): (r: nat) {
    match s
    case Hijau => 0
    case Kuning => 1
    case Merah => 2
  }

  /** The per-indicator labels the calculator can return. */
  datatype Label =
    | SangatKurang | Kurang        // weight-for-age
    | SangatPendek | Pendek        // length-for-age
    | SangatKurus | Kurus          // weight-for-length
    | Normal                       // any indicator

  /** The exact string stored for a label. */
  function Text(l: Label): (r: string) {
    match l
    case SangatKurang => "Sangat Kurang (Gizi Buruk)"
    case Kurang => "Kurang (Gizi Kurang)"
    case SangatPendek => "Sangat Pendek (Severely Stunted)"
    case Pendek => "Pendek (Stunted)"
    case SangatKurus => "Sangat Kurus (Severe Wasting)"
    case Kurus => "Kurus (Wasting)"
    case Normal => "Normal"
  }

  /** Distinct labels are stored as distinct strings. */
  lemma TextInjective(a: Label, b: Label)
    requires Text(a) == Text(b)
    ensures a == b
  {
  }

  /** The label and colour score of one indicator. */
  datatype Band = Band(name: Label, score: Status)

  datatype Anthropometry = Anthropometry(
    bbUStatus: Label,    // weight-for-age label
    tbUStatus: Label,    // length-for-age label
    bbTbStatus: Label,   // weight-for-length label
    statusAkhir: Status) // combined score

  /** The table row used for an age: the floor of the age, capped at month 24. */
  function AgeIndex(ageInMonths: real): (i: int)
    ensures i <= Months - 1
    ensures ageInMonths >= 0.0 ==> 0 <= i < Months
    ensures ageInMonths >= 24.0 ==> i == 24
    ensures ageInMonths < 24.0 ==> i as real <= ageInMonths < i as real + 1.0
    ensures ageInMonths < 0.0 ==> i < 0
  {
    var f := ageInMonths.Floor;
    if f < 24 then f else 24
  }

  /** Sex "L" (laki-laki) selects the boys' tables; every other value the
      girls'. The result is the month's row of the table, `None` (JavaScript
      `undefined`) for a month outside the table. */
  function WeightRow(sex: string, i: int): (r: Option<Cutoffs>) {
    if sex == "L" then BbUBoy(i) else BbUGirl(i)
  }

  function LengthRow(sex: string, i: int): (r: Option<Cutoffs>) {
    if sex == "L" then TbUBoy(i) else TbUGirl(i)
  }

  /** The three-band ladder shared by BB/U and TB/U: strictly below the -3SD
      cut-off is MERAH, otherwise strictly below the -2SD cut-off is KUNING,
      otherwise HIJAU; a value exactly on a cut-off takes the milder band, and
      a comparison with a missing row (`x < undefined`) is false. */
  function Ladder(x: real, row: Option<Cutoffs>, severe: Label, moderate: Label): (b: Band)
    ensures b.score == Merah <==> row.Some? && x < row.value.minus3SD
    ensures b.score == Kuning <==> row.Some? && row.value.minus3SD <= x < row.value.minus2SD
    ensures b.name == (match b.score case Merah => severe case Kuning => moderate case Hijau => Normal)
  {
    if row.Some? && x < row.value.minus3SD then Band(severe, Merah)
    else if row.Some? && x < row.value.minus2SD then Band(moderate, Kuning)
    else Band(Normal, Hijau)
  }

  /** Weight-for-age (BB/U). */
  function WeightForAge(ageInMonths: real, weight: real, sex: string): (r: Band) {
    Ladder(weight, WeightRow(sex, AgeIndex(ageInMonths)), SangatKurang, Kurang)
  }

  /** Length-for-age (TB/U). */
  function LengthForAge(ageInMonths: real, height: real, sex: string): (r: Band) {
    Ladder(height, LengthRow(sex, AgeIndex(ageInMonths)), SangatPendek, Pendek)
  }

  /** The weight-for-length reference weight, 0.0013 * height^2 kg. */
  function MinWeightForHeight(height: real): (m: real)
    ensures m >= 0.0
  {
    height * height * 0.0013
  }

  /** Weight-for-length (BB/TB): below 80% of the reference weight is MERAH,
      otherwise below the reference weight is KUNING, otherwise HIJAU. */
  function WeightForLength(weight: real, height: real): (b: Band)
    ensures b.score == Merah <==> weight < 0.8 * MinWeightForHeight(height)
    ensures b.score == Kuning <==> 0.8 * MinWeightForHeight(height) <= weight < MinWeightForHeight(height)
    ensures b.score == Hijau <==> MinWeightForHeight(height) <= weight
  {
    var m := MinWeightForHeight(height);
    if weight < m * 0.8 then Band(SangatKurus, Merah)
    else if weight < m then Band(Kurus, Kuning)
    else Band(Normal, Hijau)
  }

  /** The combined score: MERAH if any indicator is MERAH, else KUNING if any
      is KUNING, else HIJAU. */
  function Worst(bbU: Status, tbU: Status, bbTb: Status): (s: Status)
    ensures Severity(s) >= Severity(bbU) && Severity(s) >= Severity(tbU) && Severity(s) >= Severity(bbTb)
    ensures s == bbU || s == tbU || s == bbTb
  {
    if bbU == Merah || bbTb == Merah || tbU == Merah then Merah
    else if bbU == Kuning || bbTb == Kuning || tbU == Kuning then Kuning
    else Hijau
  }

  /** calculateAnthropometry(ageInMonths, weight, height, gender). */
  function CalculateAnthropometry(ageInMonths: real, weight: real, height: real, gender: string): (r: Anthropometry)
    ensures r.bbUStatus in {SangatKurang, Kurang, Normal}
    ensures r.tbUStatus in {SangatPendek, Pendek, Normal}
    ensures r.bbTbStatus in {SangatKurus, Kurus, Normal}
  {
    var bbU := WeightForAge(ageInMonths, weight, gender);
    var tbU := LengthForAge(ageInMonths, height, gender);
    var bbTb := WeightForLength(weight, height);
    Anthropometry(bbU.name, tbU.name, bbTb.name, Worst(bbU.score, tbU.score, bbTb.score))
  }

  // ---------------------------------------------------------------------
  // Properties

  /** For every age from 0 on, the row read exists in both tables of both
      sexes, and its -3SD cut-off lies strictly below its -2SD cut-off. */
  lemma RowsExist(ageInMonths: real, sex: string)
    requires ageInMonths >= 0.0
    ensures var i := AgeIndex(ageInMonths);
      && WeightRow(sex, i).Some? && WeightRow(sex, i).value.minus3SD < WeightRow(sex, i).value.minus2SD
      && LengthRow(sex, i).Some? && LengthRow(sex, i).value.minus3SD < LengthRow(sex, i).value.minus2SD
  {
    var i := AgeIndex(ageInMonths);
    BbUBoyWellFormed();
    BbUGirlWellFormed();
    TbUBoyWellFormed();
    TbUGirlWellFormed();
    assert BbUBoy(i).Some? && BbUGirl(i).Some? && TbUBoy(i).Some? && TbUGirl(i).Some?;
  }

  /** Weight-for-age bands against the selected row, for every age from 0 on. */
  lemma WeightForAgeBands(ageInMonths: real, weight: real, sex: string)
    requires ageInMonths >= 0.0
    ensures var c, b := WeightRow(sex, AgeIndex(ageInMonths)).value, WeightForAge(ageInMonths, weight, sex);
      && (b.score == Merah <==> weight < c.minus3SD)
      && (b.score == Kuning <==> c.minus3SD <= weight < c.minus2SD)
      && (b.score == Hijau <==> c.minus2SD <= weight)
      && (b.name == SangatKurang <==> b.score == Merah)
      && (b.name == Kurang <==> b.score == Kuning)
      && (b.name == Normal <==> b.score == Hijau)
  {
    RowsExist(ageInMonths, sex);
  }

  /** Length-for-age bands against the selected row, for every age from 0 on. */
  lemma LengthForAgeBands(ageInMonths: real, height: real, sex: string)
    requires ageInMonths >= 0.0
    ensures var c, b := LengthRow(sex, AgeIndex(ageInMonths)).value, LengthForAge(ageInMonths, height, sex);
      && (b.score == Merah <==> height < c.minus3SD)
      && (b.score == Kuning <==> c.minus3SD <= height < c.minus2SD)
      && (b.score == Hijau <==> c.minus2SD <= height)
      && (b.name == SangatPendek <==> b.score == Merah)
      && (b.name == Pendek <==> b.score == Kuning)
      && (b.name == Normal <==> b.score == Hijau)
  {
    RowsExist(ageInMonths, sex);
  }

  /** A negative age reads outside the tables: every comparison is with
      `undefined`, so BB/U and TB/U are both "Normal". */
  lemma NegativeAgeIsNormal(ageInMonths: real, weight: real, height: real, sex: string)
    requires ageInMonths < 0.0
    ensures WeightForAge(ageInMonths, weight, sex) == Band(Normal, Hijau)
    ensures LengthForAge(ageInMonths, height, sex) == Band(Normal, Hijau)
  {
  }

  /** Every age from 24 months on is classified as month 24. */
  lemma AgeCappedAt24(ageInMonths: real, weight: real, height: real, sex: string)
    requires ageInMonths >= 24.0
    ensures CalculateAnthropometry(ageInMonths, weight, height, sex) == CalculateAnthropometry(24.0, weight, height, sex)
  {
  }

  /** Every sex other than "L" is classified as a girl. */
  lemma NonBoyIsGirl(ageInMonths: real, weight: real, height: real, sex: string)
    requires sex != "L"
    ensures CalculateAnthropometry(ageInMonths, weight, height, sex) == CalculateAnthropometry(ageInMonths, weight, height, "P")
  {
  }

  /** Weight-for-length depends neither on age nor on sex. */
  lemma WeightForLengthIgnoresAgeAndSex(age1: real, age2: real, weight: real, height: real, sex1: string, sex2: string)
    ensures CalculateAnthropometry(age1, weight, height, sex1).bbTbStatus
         == CalculateAnthropometry(age2, weight, height, sex2).bbTbStatus
  {
  }

  /** The score a result label stands for. */
  function ScoreOfLabel(l: Label): (r: Status) {
    match l
    case SangatKurang | SangatPendek | SangatKurus => Merah
    case Kurang | Pendek | Kurus => Kuning
    case Normal => Hijau
  }

  /** statusAkhir can be read off the three labels: it is the most severe of
      the scores they stand for. MERAH iff some label is a severe one (so a
      severely stunted child is MERAH too), KUNING iff none is severe and some
      is moderate, HIJAU iff all three are "Normal". */
  lemma StatusAkhirIsWorstLabel(ageInMonths: real, weight: real, height: real, sex: string)
    ensures var r := CalculateAnthropometry(ageInMonths, weight, height, sex);
      var s1, s2, s3 := ScoreOfLabel(r.bbUStatus), ScoreOfLabel(r.tbUStatus), ScoreOfLabel(r.bbTbStatus);
      && Severity(r.statusAkhir) == Max3(Severity(s1), Severity(s2), Severity(s3))
      && (r.statusAkhir == Merah <==> (s1 == Merah || s2 == Merah || s3 == Merah))
      && (r.statusAkhir == Kuning <==> (s1 != Merah && s2 != Merah && s3 != Merah && (s1 == Kuning || s2 == Kuning || s3 == Kuning)))
      && (r.statusAkhir == Hijau <==> (r.bbUStatus == Normal && r.tbUStatus == Normal && r.bbTbStatus == Normal))
  {
  }

  function Max3(a: nat, b: nat, c: nat): (r: nat) {
    if a >= b && a >= c then a else if b >= c then b else c
  }

  /** A heavier child never gets a worse weight-for-age score. */
  lemma WeightForAgeMonotone(ageInMonths: real, w1: real, w2: real, sex: string)
    requires w1 <= w2
    ensures Severity(WeightForAge(ageInMonths, w2, sex).score) <= Severity(WeightForAge(ageInMonths, w1, sex).score)
  {
  }

  /** A taller child never gets a worse length-for-age score. */
  lemma LengthForAgeMonotone(ageInMonths: real, h1: real, h2: real, sex: string)
    requires h1 <= h2
    ensures Severity(LengthForAge(ageInMonths, h2, sex).score) <= Severity(LengthForAge(ageInMonths, h1, sex).score)
  {
  }

  /** A heavier child of the same length never gets a worse weight-for-length
      score, and a longer child of the same weight never gets a better one. */
  lemma WeightForLengthMonotone(w1: real, w2: real, h1: real, h2: real)
    requires w1 <= w2 && 0.0 <= h1 <= h2
    ensures Severity(WeightForLength(w2, h1).score) <= Severity(WeightForLength(w1, h1).score)
    ensures Severity(WeightForLength(w1, h1).score) <= Severity(WeightForLength(w1, h2).score)
  {
    assert h1 * h1 <= h1 * h2 <= h2 * h2;
    assert h1 * h1 * 0.0013 <= h2 * h2 * 0.0013;
    assert MinWeightForHeight(h1) <= MinWeightForHeight(h2);
  }

  /** The combined score never improves when a single indicator worsens. */
  lemma WorstMonotone(a: Status, b: Status, c: Status, a': Status)
    requires Severity(a) <= Severity(a')
    ensures Severity(Worst(a, b, c)) <= Severity(Worst(a', b, c))
  {
  }
}
