/** How the field values that occur in the examples are written. */
module WrittenFields {
  import opened Common
  import opened Lexing

  /** The Year field 2012 is written "2012". */
  lemma YearText2012()
    ensures Text(Year, 2012) == "2012"
  {
  }

  /** The Month field 4 is written "04". */
  lemma MonthText04()
    ensures Text(Month, 4) == "04"
  {
  }

  /** The Day field 28 is written "28". */
  lemma DayText28()
    ensures Text(Day, 28) == "28"
  {
  }

  /** The Month field 11 is written "11". */
  lemma MonthText11()
    ensures Text(Month, 11) == "11"
  {
  }

  /** The Day field 11 is written "11". */
  lemma DayText11()
    ensures Text(Day, 11) == "11"
  {
  }

  /** The Day field 40 is written "40". */
  lemma DayText40()
    ensures Text(Day, 40) == "40"
  {
  }

  /** The MonthName field 4 is written "Apr". */
  lemma MonthNameTextApr()
    ensures Text(MonthName, 4) == "Apr"
  {
  }

  /** The Day field 15 is written "15". */
  lemma DayText15()
    ensures Text(Day, 15) == "15"
  {
  }

  /** The Day field 20 is written "20". */
  lemma DayText20()
    ensures Text(Day, 20) == "20"
  {
  }

  /** The Year field 1211 is written "1211". */
  lemma YearText1211()
    ensures Text(Year, 1211) == "1211"
  {
  }

  /** The Day field 0 is written "00". */
  lemma DayText00()
    ensures Text(Day, 0) == "00"
  {
  }

  /** The Day field 22 is written "22". */
  lemma DayText22()
    ensures Text(Day, 22) == "22"
  {
  }

  /** The Hour24 field 20 is written "20". */
  lemma Hour24Text20()
    ensures Text(Hour24, 20) == "20"
  {
  }

  /** The Minute field 42 is written "42". */
  lemma MinuteText42()
    ensures Text(Minute, 42) == "42"
  {
  }

  /** The Second field 15 is written "15". */
  lemma SecondText15()
    ensures Text(Second, 15) == "15"
  {
  }

  /** The Hour24 field 2 is written "02". */
  lemma Hour24Text02()
    ensures Text(Hour24, 2) == "02"
  {
  }

  /** The Hour24 field 32 is written "32". */
  lemma Hour24Text32()
    ensures Text(Hour24, 32) == "32"
  {
  }

  /** The Hour12 field 11 is written "11". */
  lemma Hour12Text11()
    ensures Text(Hour12, 11) == "11"
  {
  }

  /** The Meridiem field AM is written "am". */
  lemma MeridiemTextAm()
    ensures Text(Meridiem, AM) == "am"
  {
  }

  /** The Meridiem field PM is written "pm". */
  lemma MeridiemTextPm()
    ensures Text(Meridiem, PM) == "pm"
  {
  }

  /** The Hour12 field 12 is written "12". */
  lemma Hour12Text12()
    ensures Text(Hour12, 12) == "12"
  {
  }

  /** The Minute field 2 is written "02". */
  lemma MinuteText02()
    ensures Text(Minute, 2) == "02"
  {
  }

  /** The Hour12 field 0 is written "00". */
  lemma Hour12Text00()
    ensures Text(Hour12, 0) == "00"
  {
  }
}
