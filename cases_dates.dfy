/** The compact date formats: fields with no separators between them. */
module DateExamples {
  import opened Common
  import opened Format
  import opened Lexing
  import opened Calendar
  import opened Matcher
  import opened MatcherFacts
  import opened RoundTrip
  import opened Strptime
  import opened WrittenFields

  /** The format the test suite calls `dateFormat1`. */
  const Date1Format := "%Y%m%d"

  /** The template of `Date1Format`, cut into blocks of at most three tokens. */
  lemma Date1Blocks() returns (t: seq<Token>, a: seq<Token>)
    ensures a == [Field(Year), Field(Month), Field(Day)]
    ensures t == a
  {
    a := [Field(Year), Field(Month), Field(Day)];
    t := a;
  }

  /** How the template renders, block by block and token by token. */
  lemma Date1Renders(t: seq<Token>, a: seq<Token>)
    requires a == [Field(Year), Field(Month), Field(Day)]
    requires t == a
    ensures Render(t) == ("%Y" + ("%m" + "%d"))
  {
    assert Render(a[2..]) == "%d";
    assert Render(a[1..]) == "%m%d";
  }

  /** The table keys the template captures. */
  lemma Date1Keys(t: seq<Token>, a: seq<Token>)
    requires a == [Field(Year), Field(Month), Field(Day)]
    requires t == a
    ensures Keys(t) == {Year, Month, Day}
  {
    assert Keys(a[2..]) == {Day};
    assert Keys(a[1..]) == {Month, Day};
  }

  /** The template meets the side conditions of the round trip. */
  lemma Date1Shape(t: seq<Token>, gap: string)
    requires t == [Field(Year), Field(Month), Field(Day)]
    ensures WellFormed(t) && FractionsDelimited(t) && GapsClear(t, gap) && FixedWidth(t)
  {
    WellFormedByIndex(t);
  }

  /** The format string, cut where its tokens are. */
  lemma Date1Spelling(format: string)
    requires format == Date1Format
    ensures format == ("%Y" + ("%m" + "%d"))
  {
  }

  /** The format compiles to exactly this template. */
  lemma Date1Compiles(format: string, t: seq<Token>, a: seq<Token>)
    requires format == Date1Format
    requires a == [Field(Year), Field(Month), Field(Day)]
    requires t == a
    ensures Compile(format) == Ok(t) && Render(t) == format && Keys(t) == {Year, Month, Day}
  {
    Date1Renders(t, a);
    Date1Keys(t, a);
    Date1Shape(t, "");
    Date1Spelling(format);
    CompileInvertsRender(t);
  }

  /** What one block of the template writes for the given values. */
  lemma Date1WritesA(a: seq<Token>, y: nat, mo: nat, d: nat)
    requires a == [Field(Year), Field(Month), Field(Day)]
    requires y < 10000 && mo < 100 && d < 100
    ensures Writable(a, map[Year := y, Month := mo, Day := d])
    ensures Emit(a, map[Year := y, Month := mo, Day := d], "0", "") == Text(Year, y) + (Text(Month, mo) + Text(Day, d))
  {
    var v := map[Year := y, Month := mo, Day := d];
    assert Emit(a[2..], v, "0", "") == Text(Day, d);
    assert Emit(a[1..], v, "0", "") == Text(Month, mo) + Text(Day, d);
  }

  /** What the whole template writes for the given values. */
  lemma Date1Writes(t: seq<Token>, a: seq<Token>, y: nat, mo: nat, d: nat)
    requires a == [Field(Year), Field(Month), Field(Day)]
    requires t == a
    requires y < 10000 && mo < 100 && d < 100
    ensures Writable(t, map[Year := y, Month := mo, Day := d])
    ensures Emit(t, map[Year := y, Month := mo, Day := d], "0", "") == (Text(Year, y) + (Text(Month, mo) + Text(Day, d)))
  {
    var v := map[Year := y, Month := mo, Day := d];
    assert Writable(t, v);
    Date1WritesA(a, y, mo, d);
  }

  /** The fields the values of the template are given for. */
  lemma Date1ValueKeys(y: nat, mo: nat, d: nat)
    ensures map[Year := y, Month := mo, Day := d].Keys == {Year, Month, Day}
  {
  }

  /** What the template of `Date1Format` is and writes, in the terms of the round-trip lemma. */
  lemma Date1Template(y: nat, mo: nat, d: nat, format: string) returns (t: seq<Token>)
    requires format == Date1Format
    requires y < 10000 && mo < 100 && d < 100
    ensures Render(t) == format && map[Year := y, Month := mo, Day := d].Keys == Keys(t)
    ensures WellFormed(t) && FractionsDelimited(t) && GapsClear(t, "")
    ensures Writable(t, map[Year := y, Month := mo, Day := d])
    ensures Emit(t, map[Year := y, Month := mo, Day := d], "0", "") == (Text(Year, y) + (Text(Month, mo) + Text(Day, d)))
  {
    var a;
    t, a := Date1Blocks();
    Date1Compiles(format, t, a);
    Date1Shape(t, "");
    Date1ValueKeys(y, mo, d);
    Date1Writes(t, a, y, mo, d);
  }

  /** Any date written as eight digits reads back as that date: the year takes exactly four of them. */
  lemma Date1Reads(y: nat, mo: nat, d: nat, format: string)
    requires format == Date1Format
    requires y < 10000 && mo < 100 && d < 100
    ensures Parsed((Text(Year, y) + (Text(Month, mo) + Text(Day, d))), format) == Build(map[Year := y, Month := mo, Day := d])
  {
    var t := Date1Template(y, mo, d, format);
    ParseWritten(t, map[Year := y, Month := mo, Day := d], "0", "", (Text(Year, y) + (Text(Month, mo) + Text(Day, d))), format);
  }

  /** The timestamp the calendar builds from the fields of a real date or time. */
  lemma Date1Builds(y: nat, mo: nat, d: nat)
    requires y < 10000 && 1 <= mo <= 12 && 1 <= d <= DaysInMonth(y, mo)
    ensures Build(map[Year := y, Month := mo, Day := d]) == Ok(DateTime(y, mo, d, 0, 0, 0))
  {
    BuildExact(map[Year := y, Month := mo, Day := d], DateTime(y, mo, d, 0, 0, 0));
  }

  /** Every real calendar date written into the template parses to that date at midnight. */
  lemma Date1Valid(y: nat, mo: nat, d: nat, format: string)
    requires format == Date1Format
    requires y < 10000 && 1 <= mo <= 12 && 1 <= d <= DaysInMonth(y, mo)
    ensures Parsed((Text(Year, y) + (Text(Month, mo) + Text(Day, d))), format) == Ok(DateTime(y, mo, d, 0, 0, 0))
  {
    Date1Reads(y, mo, d, format);
    Date1Builds(y, mo, d);
  }

  /** The subject "20120428", cut where the pieces of the template are. */
  lemma Date1AprilPieces(subject: string, p0: string, p1: string, p2: string)
    requires subject == "20120428" && p0 == "2012" && p1 == "04" && p2 == "28"
    ensures subject == (p0 + (p1 + p2))
  {
  }

  /** How the field values of "20120428" are written. */
  lemma Date1AprilTexts()
    ensures Text(Year, 2012) == "2012" && Text(Month, 4) == "04" && Text(Day, 28) == "28"
  {
    YearText2012();
    MonthText04();
    DayText28();
  }

  /** "20120428" is the template written with these field values. */
  lemma Date1AprilFields(y: nat, mo: nat, d: nat, subject: string, format: string)
    requires y == 2012 && mo == 4 && d == 28
    requires subject == "20120428" && format == Date1Format
    ensures Parsed(subject, format) == Build(map[Year := y, Month := mo, Day := d])
  {
    Date1AprilTexts();
    Date1AprilPieces(subject, Text(Year, y), Text(Month, mo), Text(Day, d));
    Date1Reads(y, mo, d, format);
  }

  /** "20120428" is 28 April 2012. */
  lemma Date1April(subject: string, format: string)
    requires subject == "20120428" && format == Date1Format
    ensures Parsed(subject, format) == Ok(DateTime(2012, 4, 28, 0, 0, 0))
  {
    Date1AprilFields(2012, 4, 28, subject, format);
  }

  /** The subject "20121111", cut where the pieces of the template are. */
  lemma Date1NovemberPieces(subject: string, p0: string, p1: string, p2: string)
    requires subject == "20121111" && p0 == "2012" && p1 == "11" && p2 == "11"
    ensures subject == (p0 + (p1 + p2))
  {
  }

  /** How the field values of "20121111" are written. */
  lemma Date1NovemberTexts()
    ensures Text(Year, 2012) == "2012" && Text(Month, 11) == "11" && Text(Day, 11) == "11"
  {
    YearText2012();
    MonthText11();
    DayText11();
  }

  /** "20121111" is the template written with these field values. */
  lemma Date1NovemberFields(y: nat, mo: nat, d: nat, subject: string, format: string)
    requires y == 2012 && mo == 11 && d == 11
    requires subject == "20121111" && format == Date1Format
    ensures Parsed(subject, format) == Build(map[Year := y, Month := mo, Day := d])
  {
    Date1NovemberTexts();
    Date1NovemberPieces(subject, Text(Year, y), Text(Month, mo), Text(Day, d));
    Date1Reads(y, mo, d, format);
  }

  /** "20121111" is 11 November 2012. */
  lemma Date1November(subject: string, format: string)
    requires subject == "20121111" && format == Date1Format
    ensures Parsed(subject, format) == Ok(DateTime(2012, 11, 11, 0, 0, 0))
  {
    Date1NovemberFields(2012, 11, 11, subject, format);
  }

  /** The subject "20120440", cut where the pieces of the template are. */
  lemma Date1DayFortyPieces(subject: string, p0: string, p1: string, p2: string)
    requires subject == "20120440" && p0 == "2012" && p1 == "04" && p2 == "40"
    ensures subject == (p0 + (p1 + p2))
  {
  }

  /** How the field values of "20120440" are written. */
  lemma Date1DayFortyTexts()
    ensures Text(Year, 2012) == "2012" && Text(Month, 4) == "04" && Text(Day, 40) == "40"
  {
    YearText2012();
    MonthText04();
    DayText40();
  }

  /** "20120440" is the template written with these field values. */
  lemma Date1DayFortyFields(y: nat, mo: nat, d: nat, subject: string, format: string)
    requires y == 2012 && mo == 4 && d == 40
    requires subject == "20120440" && format == Date1Format
    ensures Parsed(subject, format) == Build(map[Year := y, Month := mo, Day := d])
  {
    Date1DayFortyTexts();
    Date1DayFortyPieces(subject, Text(Year, y), Text(Month, mo), Text(Day, d));
    Date1Reads(y, mo, d, format);
  }

  /** "20120440" has the right shape but names day 40 of April, which is rejected rather than rolled over. */
  lemma Date1DayForty(subject: string, format: string)
    requires subject == "20120440" && format == Date1Format
    ensures Parsed(subject, format) == Err(OutOfRange(Day))
  {
    Date1DayFortyFields(2012, 4, 40, subject, format);
  }

  /** The format the test suite calls `dateFormat2`. */
  const Date2Format := "%b%d%Y"

  /** The template of `Date2Format`, cut into blocks of at most three tokens. */
  lemma Date2Blocks() returns (t: seq<Token>, a: seq<Token>)
    ensures a == [Field(MonthName), Field(Day), Field(Year)]
    ensures t == a
  {
    a := [Field(MonthName), Field(Day), Field(Year)];
    t := a;
  }

  /** How the template renders, block by block and token by token. */
  lemma Date2Renders(t: seq<Token>, a: seq<Token>)
    requires a == [Field(MonthName), Field(Day), Field(Year)]
    requires t == a
    ensures Render(t) == ("%b" + ("%d" + "%Y"))
  {
    assert Render(a[2..]) == "%Y";
    assert Render(a[1..]) == "%d%Y";
  }

  /** The table keys the template captures. */
  lemma Date2Keys(t: seq<Token>, a: seq<Token>)
    requires a == [Field(MonthName), Field(Day), Field(Year)]
    requires t == a
    ensures Keys(t) == {Month, Day, Year}
  {
    assert Keys(a[2..]) == {Year};
    assert Keys(a[1..]) == {Day, Year};
  }

  /** The template meets the side conditions of the round trip. */
  lemma Date2Shape(t: seq<Token>, gap: string)
    requires t == [Field(MonthName), Field(Day), Field(Year)]
    ensures WellFormed(t) && FractionsDelimited(t) && GapsClear(t, gap) && FixedWidth(t)
  {
    WellFormedByIndex(t);
  }

  /** The format string, cut where its tokens are. */
  lemma Date2Spelling(format: string)
    requires format == Date2Format
    ensures format == ("%b" + ("%d" + "%Y"))
  {
  }

  /** The format compiles to exactly this template. */
  lemma Date2Compiles(format: string, t: seq<Token>, a: seq<Token>)
    requires format == Date2Format
    requires a == [Field(MonthName), Field(Day), Field(Year)]
    requires t == a
    ensures Compile(format) == Ok(t) && Render(t) == format && Keys(t) == {Month, Day, Year}
  {
    Date2Renders(t, a);
    Date2Keys(t, a);
    Date2Shape(t, "");
    Date2Spelling(format);
    CompileInvertsRender(t);
  }

  /** What one block of the template writes for the given values. */
  lemma Date2WritesA(a: seq<Token>, mo: nat, d: nat, y: nat)
    requires a == [Field(MonthName), Field(Day), Field(Year)]
    requires 1 <= mo <= 12 && d < 100 && y < 10000
    ensures Writable(a, map[Month := mo, Day := d, Year := y])
    ensures Emit(a, map[Month := mo, Day := d, Year := y], "0", "") == Text(MonthName, mo) + (Text(Day, d) + Text(Year, y))
  {
    var v := map[Month := mo, Day := d, Year := y];
    assert Emit(a[2..], v, "0", "") == Text(Year, y);
    assert Emit(a[1..], v, "0", "") == Text(Day, d) + Text(Year, y);
  }

  /** What the whole template writes for the given values. */
  lemma Date2Writes(t: seq<Token>, a: seq<Token>, mo: nat, d: nat, y: nat)
    requires a == [Field(MonthName), Field(Day), Field(Year)]
    requires t == a
    requires 1 <= mo <= 12 && d < 100 && y < 10000
    ensures Writable(t, map[Month := mo, Day := d, Year := y])
    ensures Emit(t, map[Month := mo, Day := d, Year := y], "0", "") == (Text(MonthName, mo) + (Text(Day, d) + Text(Year, y)))
  {
    var v := map[Month := mo, Day := d, Year := y];
    assert Writable(t, v);
    Date2WritesA(a, mo, d, y);
  }

  /** The fields the values of the template are given for. */
  lemma Date2ValueKeys(mo: nat, d: nat, y: nat)
    ensures map[Month := mo, Day := d, Year := y].Keys == {Month, Day, Year}
  {
  }

  /** What the template of `Date2Format` is and writes, in the terms of the round-trip lemma. */
  lemma Date2Template(mo: nat, d: nat, y: nat, format: string) returns (t: seq<Token>)
    requires format == Date2Format
    requires 1 <= mo <= 12 && d < 100 && y < 10000
    ensures Render(t) == format && map[Month := mo, Day := d, Year := y].Keys == Keys(t)
    ensures WellFormed(t) && FractionsDelimited(t) && GapsClear(t, "")
    ensures Writable(t, map[Month := mo, Day := d, Year := y])
    ensures Emit(t, map[Month := mo, Day := d, Year := y], "0", "") == (Text(MonthName, mo) + (Text(Day, d) + Text(Year, y)))
  {
    var a;
    t, a := Date2Blocks();
    Date2Compiles(format, t, a);
    Date2Shape(t, "");
    Date2ValueKeys(mo, d, y);
    Date2Writes(t, a, mo, d, y);
  }

  /** Any date written as a month abbreviation, two day digits and four year digits reads back as that date. */
  lemma Date2Reads(mo: nat, d: nat, y: nat, format: string)
    requires format == Date2Format
    requires 1 <= mo <= 12 && d < 100 && y < 10000
    ensures Parsed((Text(MonthName, mo) + (Text(Day, d) + Text(Year, y))), format) == Build(map[Month := mo, Day := d, Year := y])
  {
    var t := Date2Template(mo, d, y, format);
    ParseWritten(t, map[Month := mo, Day := d, Year := y], "0", "", (Text(MonthName, mo) + (Text(Day, d) + Text(Year, y))), format);
  }

  /** The timestamp the calendar builds from the fields of a real date or time. */
  lemma Date2Builds(mo: nat, d: nat, y: nat)
    requires y < 10000 && 1 <= mo <= 12 && 1 <= d <= DaysInMonth(y, mo)
    ensures Build(map[Month := mo, Day := d, Year := y]) == Ok(DateTime(y, mo, d, 0, 0, 0))
  {
    BuildExact(map[Month := mo, Day := d, Year := y], DateTime(y, mo, d, 0, 0, 0));
  }

  /** Every real calendar date written into the template parses to that date at midnight. */
  lemma Date2Valid(mo: nat, d: nat, y: nat, format: string)
    requires format == Date2Format
    requires y < 10000 && 1 <= mo <= 12 && 1 <= d <= DaysInMonth(y, mo)
    ensures Parsed((Text(MonthName, mo) + (Text(Day, d) + Text(Year, y))), format) == Ok(DateTime(y, mo, d, 0, 0, 0))
  {
    Date2Reads(mo, d, y, format);
    Date2Builds(mo, d, y);
  }

  /** The subject "Apr152012", cut where the pieces of the template are. */
  lemma Date2AprilPieces(subject: string, p0: string, p1: string, p2: string)
    requires subject == "Apr152012" && p0 == "Apr" && p1 == "15" && p2 == "2012"
    ensures subject == (p0 + (p1 + p2))
  {
  }

  /** How the field values of "Apr152012" are written. */
  lemma Date2AprilTexts()
    ensures Text(MonthName, 4) == "Apr" && Text(Day, 15) == "15" && Text(Year, 2012) == "2012"
  {
    MonthNameTextApr();
    DayText15();
    YearText2012();
  }

  /** "Apr152012" is the template written with these field values. */
  lemma Date2AprilFields(mo: nat, d: nat, y: nat, subject: string, format: string)
    requires mo == 4 && d == 15 && y == 2012
    requires subject == "Apr152012" && format == Date2Format
    ensures Parsed(subject, format) == Build(map[Month := mo, Day := d, Year := y])
  {
    Date2AprilTexts();
    Date2AprilPieces(subject, Text(MonthName, mo), Text(Day, d), Text(Year, y));
    Date2Reads(mo, d, y, format);
  }

  /** "Apr152012" is 15 April 2012. */
  lemma Date2April(subject: string, format: string)
    requires subject == "Apr152012" && format == Date2Format
    ensures Parsed(subject, format) == Ok(DateTime(2012, 4, 15, 0, 0, 0))
  {
    Date2AprilFields(4, 15, 2012, subject, format);
  }

  /** The subject "Apr201211", cut where the pieces of the template are. */
  lemma Date2EarlyYearPieces(subject: string, p0: string, p1: string, p2: string)
    requires subject == "Apr201211" && p0 == "Apr" && p1 == "20" && p2 == "1211"
    ensures subject == (p0 + (p1 + p2))
  {
  }

  /** How the field values of "Apr201211" are written. */
  lemma Date2EarlyYearTexts()
    ensures Text(MonthName, 4) == "Apr" && Text(Day, 20) == "20" && Text(Year, 1211) == "1211"
  {
    MonthNameTextApr();
    DayText20();
    YearText1211();
  }

  /** "Apr201211" is the template written with these field values. */
  lemma Date2EarlyYearFields(mo: nat, d: nat, y: nat, subject: string, format: string)
    requires mo == 4 && d == 20 && y == 1211
    requires subject == "Apr201211" && format == Date2Format
    ensures Parsed(subject, format) == Build(map[Month := mo, Day := d, Year := y])
  {
    Date2EarlyYearTexts();
    Date2EarlyYearPieces(subject, Text(MonthName, mo), Text(Day, d), Text(Year, y));
    Date2Reads(mo, d, y, format);
  }

  /** "Apr201211" is 20 April 1211: the day takes two digits, the year the last four. */
  lemma Date2EarlyYear(subject: string, format: string)
    requires subject == "Apr201211" && format == Date2Format
    ensures Parsed(subject, format) == Ok(DateTime(1211, 4, 20, 0, 0, 0))
  {
    Date2EarlyYearFields(4, 20, 1211, subject, format);
  }

  /** The format the test suite calls `dateFormat3`. */
  const Date3Format := "%b%d"

  /** The template of `Date3Format`, cut into blocks of at most three tokens. */
  lemma Date3Blocks() returns (t: seq<Token>, a: seq<Token>)
    ensures a == [Field(MonthName), Field(Day)]
    ensures t == a
  {
    a := [Field(MonthName), Field(Day)];
    t := a;
  }

  /** How the template renders, block by block and token by token. */
  lemma Date3Renders(t: seq<Token>, a: seq<Token>)
    requires a == [Field(MonthName), Field(Day)]
    requires t == a
    ensures Render(t) == ("%b" + "%d")
  {
    assert Render(a[1..]) == "%d";
  }

  /** The table keys the template captures. */
  lemma Date3Keys(t: seq<Token>, a: seq<Token>)
    requires a == [Field(MonthName), Field(Day)]
    requires t == a
    ensures Keys(t) == {Month, Day}
  {
    assert Keys(a[1..]) == {Day};
  }

  /** The template meets the side conditions of the round trip. */
  lemma Date3Shape(t: seq<Token>, gap: string)
    requires t == [Field(MonthName), Field(Day)]
    ensures WellFormed(t) && FractionsDelimited(t) && GapsClear(t, gap) && FixedWidth(t)
  {
    WellFormedByIndex(t);
  }

  /** The format string, cut where its tokens are. */
  lemma Date3Spelling(format: string)
    requires format == Date3Format
    ensures format == ("%b" + "%d")
  {
  }

  /** The format compiles to exactly this template. */
  lemma Date3Compiles(format: string, t: seq<Token>, a: seq<Token>)
    requires format == Date3Format
    requires a == [Field(MonthName), Field(Day)]
    requires t == a
    ensures Compile(format) == Ok(t) && Render(t) == format && Keys(t) == {Month, Day}
  {
    Date3Renders(t, a);
    Date3Keys(t, a);
    Date3Shape(t, "");
    Date3Spelling(format);
    CompileInvertsRender(t);
  }

  /** What one block of the template writes for the given values. */
  lemma Date3WritesA(a: seq<Token>, mo: nat, d: nat)
    requires a == [Field(MonthName), Field(Day)]
    requires 1 <= mo <= 12 && d < 100
    ensures Writable(a, map[Month := mo, Day := d])
    ensures Emit(a, map[Month := mo, Day := d], "0", "") == Text(MonthName, mo) + Text(Day, d)
  {
    var v := map[Month := mo, Day := d];
    assert Emit(a[1..], v, "0", "") == Text(Day, d);
  }

  /** What the whole template writes for the given values. */
  lemma Date3Writes(t: seq<Token>, a: seq<Token>, mo: nat, d: nat)
    requires a == [Field(MonthName), Field(Day)]
    requires t == a
    requires 1 <= mo <= 12 && d < 100
    ensures Writable(t, map[Month := mo, Day := d])
    ensures Emit(t, map[Month := mo, Day := d], "0", "") == (Text(MonthName, mo) + Text(Day, d))
  {
    var v := map[Month := mo, Day := d];
    assert Writable(t, v);
    Date3WritesA(a, mo, d);
  }

  /** The fields the values of the template are given for. */
  lemma Date3ValueKeys(mo: nat, d: nat)
    ensures map[Month := mo, Day := d].Keys == {Month, Day}
  {
  }

  /** What the template of `Date3Format` is and writes, in the terms of the round-trip lemma. */
  lemma Date3Template(mo: nat, d: nat, format: string) returns (t: seq<Token>)
    requires format == Date3Format
    requires 1 <= mo <= 12 && d < 100
    ensures Render(t) == format && map[Month := mo, Day := d].Keys == Keys(t)
    ensures WellFormed(t) && FractionsDelimited(t) && GapsClear(t, "")
    ensures Writable(t, map[Month := mo, Day := d])
    ensures Emit(t, map[Month := mo, Day := d], "0", "") == (Text(MonthName, mo) + Text(Day, d))
  {
    var a;
    t, a := Date3Blocks();
    Date3Compiles(format, t, a);
    Date3Shape(t, "");
    Date3ValueKeys(mo, d);
    Date3Writes(t, a, mo, d);
  }

  /** Any month abbreviation and two day digits read back as that day of that month in year 0. */
  lemma Date3Reads(mo: nat, d: nat, format: string)
    requires format == Date3Format
    requires 1 <= mo <= 12 && d < 100
    ensures Parsed((Text(MonthName, mo) + Text(Day, d)), format) == Build(map[Month := mo, Day := d])
  {
    var t := Date3Template(mo, d, format);
    ParseWritten(t, map[Month := mo, Day := d], "0", "", (Text(MonthName, mo) + Text(Day, d)), format);
  }

  /** The timestamp the calendar builds from the fields of a real date or time. */
  lemma Date3Builds(mo: nat, d: nat)
    requires 1 <= mo <= 12 && 1 <= d <= DaysInMonth(0, mo)
    ensures Build(map[Month := mo, Day := d]) == Ok(DateTime(0, mo, d, 0, 0, 0))
  {
    BuildExact(map[Month := mo, Day := d], DateTime(0, mo, d, 0, 0, 0));
  }

  /** Every real day of a month, named by its abbreviation, parses to that day of year 0. */
  lemma Date3Valid(mo: nat, d: nat, format: string)
    requires format == Date3Format
    requires 1 <= mo <= 12 && 1 <= d <= DaysInMonth(0, mo)
    ensures Parsed((Text(MonthName, mo) + Text(Day, d)), format) == Ok(DateTime(0, mo, d, 0, 0, 0))
  {
    Date3Reads(mo, d, format);
    Date3Builds(mo, d);
  }

  /** The subject "Apr15", cut where the pieces of the template are. */
  lemma Date3April15Pieces(subject: string, p0: string, p1: string)
    requires subject == "Apr15" && p0 == "Apr" && p1 == "15"
    ensures subject == (p0 + p1)
  {
  }

  /** How the field values of "Apr15" are written. */
  lemma Date3April15Texts()
    ensures Text(MonthName, 4) == "Apr" && Text(Day, 15) == "15"
  {
    MonthNameTextApr();
    DayText15();
  }

  /** "Apr15" is the template written with these field values. */
  lemma Date3April15Fields(mo: nat, d: nat, subject: string, format: string)
    requires mo == 4 && d == 15
    requires subject == "Apr15" && format == Date3Format
    ensures Parsed(subject, format) == Build(map[Month := mo, Day := d])
  {
    Date3April15Texts();
    Date3April15Pieces(subject, Text(MonthName, mo), Text(Day, d));
    Date3Reads(mo, d, format);
  }

  /** "Apr15" is 15 April of year 0, since no year is given. */
  lemma Date3April15(subject: string, format: string)
    requires subject == "Apr15" && format == Date3Format
    ensures Parsed(subject, format) == Ok(DateTime(0, 4, 15, 0, 0, 0))
  {
    Date3April15Fields(4, 15, subject, format);
  }

  /** The subject "Apr20", cut where the pieces of the template are. */
  lemma Date3April20Pieces(subject: string, p0: string, p1: string)
    requires subject == "Apr20" && p0 == "Apr" && p1 == "20"
    ensures subject == (p0 + p1)
  {
  }

  /** How the field values of "Apr20" are written. */
  lemma Date3April20Texts()
    ensures Text(MonthName, 4) == "Apr" && Text(Day, 20) == "20"
  {
    MonthNameTextApr();
    DayText20();
  }

  /** "Apr20" is the template written with these field values. */
  lemma Date3April20Fields(mo: nat, d: nat, subject: string, format: string)
    requires mo == 4 && d == 20
    requires subject == "Apr20" && format == Date3Format
    ensures Parsed(subject, format) == Build(map[Month := mo, Day := d])
  {
    Date3April20Texts();
    Date3April20Pieces(subject, Text(MonthName, mo), Text(Day, d));
    Date3Reads(mo, d, format);
  }

  /** "Apr20" is 20 April of year 0. */
  lemma Date3April20(subject: string, format: string)
    requires subject == "Apr20" && format == Date3Format
    ensures Parsed(subject, format) == Ok(DateTime(0, 4, 20, 0, 0, 0))
  {
    Date3April20Fields(4, 20, subject, format);
  }

  /** The subject "Apr00", cut where the pieces of the template are. */
  lemma Date3DayZeroPieces(subject: string, p0: string, p1: string)
    requires subject == "Apr00" && p0 == "Apr" && p1 == "00"
    ensures subject == (p0 + p1)
  {
  }

  /** How the field values of "Apr00" are written. */
  lemma Date3DayZeroTexts()
    ensures Text(MonthName, 4) == "Apr" && Text(Day, 0) == "00"
  {
    MonthNameTextApr();
    DayText00();
  }

  /** "Apr00" is the template written with these field values. */
  lemma Date3DayZeroFields(mo: nat, d: nat, subject: string, format: string)
    requires mo == 4 && d == 0
    requires subject == "Apr00" && format == Date3Format
    ensures Parsed(subject, format) == Build(map[Month := mo, Day := d])
  {
    Date3DayZeroTexts();
    Date3DayZeroPieces(subject, Text(MonthName, mo), Text(Day, d));
    Date3Reads(mo, d, format);
  }

  /** "Apr00" names day 0, which this model rejects; the Go package's tests leave the outcome open. */
  lemma Date3DayZero(subject: string, format: string)
    requires subject == "Apr00" && format == Date3Format
    ensures Parsed(subject, format) == Err(OutOfRange(Day))
  {
    Date3DayZeroFields(4, 0, subject, format);
  }
}
