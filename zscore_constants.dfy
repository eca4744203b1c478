/** Simplified WHO growth thresholds for months 0 to 24: for each sex, a
    weight-for-age (BB/U, kg) and a length-for-age (TB/U, cm) table holding
    the -3SD and -2SD cut-offs per month. */
module ZScoreConstants {
  import opened Wrappers

  /** The two cut-offs of one month of a table. */
  datatype Cutoffs = Cutoffs(minus3SD: real, minus2SD: real)

  /** Number of months tabulated: 0 through 24. */
  const Months: nat := 25

  /** Weight-for-age (kg), boys. Reading month `i` of the table is the JavaScript read
      `table.minus3SD[i]`, `table.minus2SD[i]`: outside months 0 to 24 it
      gives `undefined`. */
  function BbUBoy(month: int): (r: Option<Cutoffs>) {
    match month
    case 0 => Some(Cutoffs(2.1, 2.5))
    case 1 => Some(Cutoffs(2.9, 3.4))
    case 2 => Some(Cutoffs(3.8, 4.3))
    case 3 => Some(Cutoffs(4.4, 5.0))
    case 4 => Some(Cutoffs(4.9, 5.6))
    case 5 => Some(Cutoffs(5.3, 6.0))
    case 6 => Some(Cutoffs(5.7, 6.4))
    case 7 => Some(Cutoffs(5.9, 6.7))
    case 8 => Some(Cutoffs(6.2, 6.9))
    case 9 => Some(Cutoffs(6.4, 7.1))
    case 10 => Some(Cutoffs(6.6, 7.4))
    case 11 => Some(Cutoffs(6.8, 7.6))
    case 12 => Some(Cutoffs(6.9, 7.7))
    case 13 => Some(Cutoffs(7.1, 7.9))
    case 14 => Some(Cutoffs(7.2, 8.1))
    case 15 => Some(Cutoffs(7.4, 8.3))
    case 16 => Some(Cutoffs(7.5, 8.4))
    case 17 => Some(Cutoffs(7.7, 8.6))
    case 18 => Some(Cutoffs(7.8, 8.8))
    case 19 => Some(Cutoffs(8.0, 8.9))
    case 20 => Some(Cutoffs(8.1, 9.1))
    case 21 => Some(Cutoffs(8.2, 9.2))
    case 22 => Some(Cutoffs(8.4, 9.4))
    case 23 => Some(Cutoffs(8.5, 9.5))
    case 24 => Some(Cutoffs(8.6, 9.7))
    case _ => None
  }

  /** Weight-for-age (kg), girls. Reading month `i` of the table is the JavaScript read
      `table.minus3SD[i]`, `table.minus2SD[i]`: outside months 0 to 24 it
      gives `undefined`. */
  function BbUGirl(month: int): (r: Option<Cutoffs>) {
    match month
    case 0 => Some(Cutoffs(2.0, 2.4))
    case 1 => Some(Cutoffs(2.7, 3.2))
    case 2 => Some(Cutoffs(3.4, 3.9))
    case 3 => Some(Cutoffs(4.0, 4.5))
    case 4 => Some(Cutoffs(4.4, 5.0))
    case 5 => Some(Cutoffs(4.8, 5.4))
    case 6 => Some(Cutoffs(5.1, 5.7))
    case 7 => Some(Cutoffs(5.3, 6.0))
    case 8 => Some(Cutoffs(5.6, 6.3))
    case 9 => Some(Cutoffs(5.8, 6.5))
    case 10 => Some(Cutoffs(5.9, 6.7))
    case 11 => Some(Cutoffs(6.1, 6.9))
    case 12 => Some(Cutoffs(6.3, 7.0))
    case 13 => Some(Cutoffs(6.4, 7.2))
    case 14 => Some(Cutoffs(6.6, 7.4))
    case 15 => Some(Cutoffs(6.7, 7.6))
    case 16 => Some(Cutoffs(6.9, 7.7))
    case 17 => Some(Cutoffs(7.0, 7.9))
    case 18 => Some(Cutoffs(7.2, 8.1))
    case 19 => Some(Cutoffs(7.3, 8.2))
    case 20 => Some(Cutoffs(7.5, 8.4))
    case 21 => Some(Cutoffs(7.6, 8.6))
    case 22 => Some(Cutoffs(7.8, 8.7))
    case 23 => Some(Cutoffs(7.9, 8.9))
    case 24 => Some(Cutoffs(8.1, 9.0))
    case _ => None
  }

  /** Length-for-age (cm), boys. Reading month `i` of the table is the JavaScript read
      `table.minus3SD[i]`, `table.minus2SD[i]`: outside months 0 to 24 it
      gives `undefined`. */
  function TbUBoy(month: int): (r: Option<Cutoffs>) {
    match month
    case 0 => Some(Cutoffs(44.2, 46.1))
    case 1 => Some(Cutoffs(48.9, 50.8))
    case 2 => Some(Cutoffs(52.4, 54.4))
    case 3 => Some(Cutoffs(55.6, 57.6))
    case 4 => Some(Cutoffs(58.7, 60.0))
    case 5 => Some(Cutoffs(61.7, 61.9))
    case 6 => Some(Cutoffs(63.3, 63.6))
    case 7 => Some(Cutoffs(64.8, 65.1))
    case 8 => Some(Cutoffs(66.2, 66.5))
    case 9 => Some(Cutoffs(67.5, 67.9))
    case 10 => Some(Cutoffs(68.7, 69.2))
    case 11 => Some(Cutoffs(69.9, 70.4))
    case 12 => Some(Cutoffs(71.0, 71.5))
    case 13 => Some(Cutoffs(72.1, 72.6))
    case 14 => Some(Cutoffs(73.1, 73.7))
    case 15 => Some(Cutoffs(74.1, 74.7))
    case 16 => Some(Cutoffs(75.0, 75.6))
    case 17 => Some(Cutoffs(76.0, 76.5))
    case 18 => Some(Cutoffs(76.9, 77.4))
    case 19 => Some(Cutoffs(77.7, 78.2))
    case 20 => Some(Cutoffs(78.6, 79.1))
    case 21 => Some(Cutoffs(79.4, 79.9))
    case 22 => Some(Cutoffs(80.2, 80.7))
    case 23 => Some(Cutoffs(81.0, 81.6))
    case 24 => Some(Cutoffs(81.7, 82.3))
    case _ => None
  }

  /** Length-for-age (cm), girls. Reading month `i` of the table is the JavaScript read
      `table.minus3SD[i]`, `table.minus2SD[i]`: outside months 0 to 24 it
      gives `undefined`. */
  function TbUGirl(month: int): (r: Option<Cutoffs>) {
    match month
    case 0 => Some(Cutoffs(43.6, 45.4))
    case 1 => Some(Cutoffs(47.8, 49.8))
    case 2 => Some(Cutoffs(51.0, 53.2))
    case 3 => Some(Cutoffs(54.1, 56.4))
    case 4 => Some(Cutoffs(57.0, 59.0))
    case 5 => Some(Cutoffs(59.9, 60.9))
    case 6 => Some(Cutoffs(61.2, 62.5))
    case 7 => Some(Cutoffs(62.7, 64.1))
    case 8 => Some(Cutoffs(64.0, 65.5))
    case 9 => Some(Cutoffs(65.3, 66.9))
    case 10 => Some(Cutoffs(66.5, 68.2))
    case 11 => Some(Cutoffs(67.7, 69.5))
    case 12 => Some(Cutoffs(68.9, 70.7))
    case 13 => Some(Cutoffs(70.0, 71.8))
    case 14 => Some(Cutoffs(71.0, 72.9))
    case 15 => Some(Cutoffs(72.0, 73.9))
    case 16 => Some(Cutoffs(73.0, 74.9))
    case 17 => Some(Cutoffs(74.0, 75.8))
    case 18 => Some(Cutoffs(74.9, 76.8))
    case 19 => Some(Cutoffs(75.8, 77.7))
    case 20 => Some(Cutoffs(76.7, 78.6))
    case 21 => Some(Cutoffs(77.5, 79.4))
    case 22 => Some(Cutoffs(78.4, 80.3))
    case 23 => Some(Cutoffs(79.2, 81.1))
    case 24 => Some(Cutoffs(80.0, 82.0))
    case _ => None
  }

  /** A table fit for the -3SD/-2SD ladder: an entry for exactly the months
      0 to 24, every cut-off a positive measurement, and the -3SD cut-off
      strictly below the -2SD cut-off at every month. */
  ghost predicate WellFormed(table: int -> Option<Cutoffs>) {
    forall i :: (table(i).Some? <==> 0 <= i < Months) &&
      (table(i).Some? ==> 0.0 < table(i).value.minus3SD < table(i).value.minus2SD)
  }

  lemma BbUBoyWellFormed() ensures WellFormed(BbUBoy) { }
  lemma BbUGirlWellFormed() ensures WellFormed(BbUGirl) { }
  lemma TbUBoyWellFormed() ensures WellFormed(TbUBoy) { }
  lemma TbUGirlWellFormed() ensures WellFormed(TbUGirl) { }
}
