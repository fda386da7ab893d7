/** The date-path templates: literal prefixes, dates, and the `%-` wildcard. */
module DatePathExamples {
  import opened Common
  import opened Format
  import opened Lexing
  import opened Calendar
  import opened Matcher
  import opened MatcherFacts
  import opened RoundTrip
  import opened Strptime
  import opened WrittenFields

  /** The format the test suite calls `datepathFormat1`. */
  const DatePath1Format := "/path/with/dates/%Y/%m/%d"

  /** The template of `DatePath1Format`, cut into blocks of at most three tokens. */
  lemma DatePath1Blocks() returns (t: seq<Token>, a: seq<Token>, b: seq<Token>)
    ensures a == [Literal("/path/with/dates/"), Field(Year), Literal("/")]
    ensures b == [Field(Month), Literal("/"), Field(Day)]
    ensures t == a + b
  {
    a := [Literal("/path/with/dates/"), Field(Year), Literal("/")];
    b := [Field(Month), Literal("/"), Field(Day)];
    t := a + b;
  }

  /** How the template renders, block by block and token by token. */
  lemma DatePath1Renders(t: seq<Token>, a: seq<Token>, b: seq<Token>)
    requires a == [Literal("/path/with/dates/"), Field(Year), Literal("/")]
    requires b == [Field(Month), Literal("/"), Field(Day)]
    requires t == a + b
    ensures Render(t) == ("/path/with/dates/" + ("%Y" + "/")) + ("%m" + ("/" + "%d"))
  {
    assert Render(a[2..]) == "/";
    assert Render(a[1..]) == "%Y/";
    assert Render(b[2..]) == "%d";
    assert Render(b[1..]) == "/%d";
    RenderAppend(a, b);
  }

  /** The table keys the template captures. */
  lemma DatePath1Keys(t: seq<Token>, a: seq<Token>, b: seq<Token>)
    requires a == [Literal("/path/with/dates/"), Field(Year), Literal("/")]
    requires b == [Field(Month), Literal("/"), Field(Day)]
    requires t == a + b
    ensures Keys(t) == {Year, Month, Day}
  {
    assert Keys(a[2..]) == {};
    assert Keys(a[1..]) == {Year};
    assert Keys(b[2..]) == {Day};
    assert Keys(b[1..]) == {Day};
    KeysAppend(a, b);
  }

  /** No literal of the template holds a `%`. */
  lemma DatePath1Plain()
    ensures '%' !in "/path/with/dates/" && '%' !in "/"
  {
  }

  /** The template meets the side conditions of the round trip. */
  lemma DatePath1Shape(t: seq<Token>, gap: string)
    requires t == [Literal("/path/with/dates/"), Field(Year), Literal("/"), Field(Month), Literal("/"), Field(Day)]
    ensures WellFormed(t) && FractionsDelimited(t) && GapsClear(t, gap) && FixedWidth(t)
  {
    DatePath1Plain();
    WellFormedByIndex(t);
  }

  /** The format string, cut where its tokens are. */
  lemma DatePath1Spelling(format: string)
    requires format == DatePath1Format
    ensures format == ("/path/with/dates/" + ("%Y" + "/")) + ("%m" + ("/" + "%d"))
  {
  }

  /** The format compiles to exactly this template. */
  lemma DatePath1Compiles(format: string, t: seq<Token>, a: seq<Token>, b: seq<Token>)
    requires format == DatePath1Format
    requires a == [Literal("/path/with/dates/"), Field(Year), Literal("/")]
    requires b == [Field(Month), Literal("/"), Field(Day)]
    requires t == a + b
    ensures Compile(format) == Ok(t) && Render(t) == format && Keys(t) == {Year, Month, Day}
  {
    DatePath1Renders(t, a, b);
    DatePath1Keys(t, a, b);
    DatePath1Shape(t, "");
    DatePath1Spelling(format);
    CompileInvertsRender(t);
  }

  /** What one block of the template writes for the given values. */
  lemma DatePath1WritesA(a: seq<Token>, y: nat, mo: nat, d: nat)
    requires a == [Literal("/path/with/dates/"), Field(Year), Literal("/")]
    requires y < 10000 && mo < 100 && d < 100
    ensures Writable(a, map[Year := y, Month := mo, Day := d])
    ensures Emit(a, map[Year := y, Month := mo, Day := d], "0", "") == "/path/with/dates/" + (Text(Year, y) + "/")
  {
    var v := map[Year := y, Month := mo, Day := d];
    assert Emit(a[2..], v, "0", "") == "/";
    assert Emit(a[1..], v, "0", "") == Text(Year, y) + "/";
  }

  /** What one block of the template writes for the given values. */
  lemma DatePath1WritesB(b: seq<Token>, y: nat, mo: nat, d: nat)
    requires b == [Field(Month), Literal("/"), Field(Day)]
    requires y < 10000 && mo < 100 && d < 100
    ensures Writable(b, map[Year := y, Month := mo, Day := d])
    ensures Emit(b, map[Year := y, Month := mo, Day := d], "0", "") == Text(Month, mo) + ("/" + Text(Day, d))
  {
    var v := map[Year := y, Month := mo, Day := d];
    assert Emit(b[2..], v, "0", "") == Text(Day, d);
    assert Emit(b[1..], v, "0", "") == "/" + Text(Day, d);
  }

  /** What the whole template writes for the given values. */
  lemma DatePath1Writes(t: seq<Token>, a: seq<Token>, b: seq<Token>, y: nat, mo: nat, d: nat)
    requires a == [Literal("/path/with/dates/"), Field(Year), Literal("/")]
    requires b == [Field(Month), Literal("/"), Field(Day)]
    requires t == a + b
    requires y < 10000 && mo < 100 && d < 100
    ensures Writable(t, map[Year := y, Month := mo, Day := d])
    ensures Emit(t, map[Year := y, Month := mo, Day := d], "0", "") == ("/path/with/dates/" + (Text(Year, y) + "/")) + (Text(Month, mo) + ("/" + Text(Day, d)))
  {
    var v := map[Year := y, Month := mo, Day := d];
    assert Writable(t, v);
    DatePath1WritesA(a, y, mo, d);
    DatePath1WritesB(b, y, mo, d);
    EmitAppend(a, b, v, "0", "");
  }

  /** The fields the values of the template are given for. */
  lemma DatePath1ValueKeys(y: nat, mo: nat, d: nat)
    ensures map[Year := y, Month := mo, Day := d].Keys == {Year, Month, Day}
  {
  }

  /** What the template of `DatePath1Format` is and writes, in the terms of the round-trip lemma. */
  lemma DatePath1Template(y: nat, mo: nat, d: nat, format: string) returns (t: seq<Token>)
    requires format == DatePath1Format
    requires y < 10000 && mo < 100 && d < 100
    ensures Render(t) == format && map[Year := y, Month := mo, Day := d].Keys == Keys(t)
    ensures WellFormed(t) && FractionsDelimited(t) && GapsClear(t, "")
    ensures Writable(t, map[Year := y, Month := mo, Day := d])
    ensures Emit(t, map[Year := y, Month := mo, Day := d], "0", "") == ("/path/with/dates/" + (Text(Year, y) + "/")) + (Text(Month, mo) + ("/" + Text(Day, d)))
  {
    var a, b;
    t, a, b := DatePath1Blocks();
    DatePath1Compiles(format, t, a, b);
    DatePath1Shape(t, "");
    DatePath1ValueKeys(y, mo, d);
    DatePath1Writes(t, a, b, y, mo, d);
  }

  /** Any date written into the first date-path template reads back as that date. */
  lemma DatePath1Reads(y: nat, mo: nat, d: nat, format: string)
    requires format == DatePath1Format
    requires y < 10000 && mo < 100 && d < 100
    ensures Parsed(("/path/with/dates/" + (Text(Year, y) + "/")) + (Text(Month, mo) + ("/" + Text(Day, d))), format) == Build(map[Year := y, Month := mo, Day := d])
  {
    var t := DatePath1Template(y, mo, d, format);
    ParseWritten(t, map[Year := y, Month := mo, Day := d], "0", "", ("/path/with/dates/" + (Text(Year, y) + "/")) + (Text(Month, mo) + ("/" + Text(Day, d))), format);
  }

  /** The timestamp the calendar builds from the fields of a real date or time. */
  lemma DatePath1Builds(y: nat, mo: nat, d: nat)
    requires y < 10000 && 1 <= mo <= 12 && 1 <= d <= DaysInMonth(y, mo)
    ensures Build(map[Year := y, Month := mo, Day := d]) == Ok(DateTime(y, mo, d, 0, 0, 0))
  {
    BuildExact(map[Year := y, Month := mo, Day := d], DateTime(y, mo, d, 0, 0, 0));
  }

  /** Every real calendar date written into the template parses to that date at midnight. */
  lemma DatePath1Valid(y: nat, mo: nat, d: nat, format: string)
    requires format == DatePath1Format
    requires y < 10000 && 1 <= mo <= 12 && 1 <= d <= DaysInMonth(y, mo)
    ensures Parsed(("/path/with/dates/" + (Text(Year, y) + "/")) + (Text(Month, mo) + ("/" + Text(Day, d))), format) == Ok(DateTime(y, mo, d, 0, 0, 0))
  {
    DatePath1Reads(y, mo, d, format);
    DatePath1Builds(y, mo, d);
  }

  /** The subject "/path/with/dates/2012/04/28", cut where the pieces of the template are. */
  lemma DatePath1DatedPieces(subject: string, p0: string, p1: string, p2: string)
    requires subject == "/path/with/dates/2012/04/28" && p0 == "2012" && p1 == "04" && p2 == "28"
    ensures subject == ("/path/with/dates/" + (p0 + "/")) + (p1 + ("/" + p2))
  {
  }

  /** How the field values of "/path/with/dates/2012/04/28" are written. */
  lemma DatePath1DatedTexts()
    ensures Text(Year, 2012) == "2012" && Text(Month, 4) == "04" && Text(Day, 28) == "28"
  {
    YearText2012();
    MonthText04();
    DayText28();
  }

  /** "/path/with/dates/2012/04/28" is the template written with these field values. */
  lemma DatePath1DatedFields(y: nat, mo: nat, d: nat, subject: string, format: string)
    requires y == 2012 && mo == 4 && d == 28
    requires subject == "/path/with/dates/2012/04/28" && format == DatePath1Format
    ensures Parsed(subject, format) == Build(map[Year := y, Month := mo, Day := d])
  {
    DatePath1DatedTexts();
    DatePath1DatedPieces(subject, Text(Year, y), Text(Month, mo), Text(Day, d));
    DatePath1Reads(y, mo, d, format);
  }

  /** The first date path names 28 April 2012. */
  lemma DatePath1Dated(subject: string, format: string)
    requires subject == "/path/with/dates/2012/04/28" && format == DatePath1Format
    ensures Parsed(subject, format) == Ok(DateTime(2012, 4, 28, 0, 0, 0))
  {
    DatePath1DatedFields(2012, 4, 28, subject, format);
  }

  /** The format the test suite calls `datepathFormat2`. */
  const DatePath2Format := "/blog/%Y/%m/%d/%-"

  /** The template of `DatePath2Format`, cut into blocks of at most three tokens. */
  lemma DatePath2Blocks() returns (t: seq<Token>, a: seq<Token>, b: seq<Token>, c: seq<Token>)
    ensures a == [Literal("/blog/"), Field(Year), Literal("/")]
    ensures b == [Field(Month), Literal("/"), Field(Day)]
    ensures c == [Literal("/"), Wildcard]
    ensures t == a + b + c
  {
    a := [Literal("/blog/"), Field(Year), Literal("/")];
    b := [Field(Month), Literal("/"), Field(Day)];
    c := [Literal("/"), Wildcard];
    t := a + b + c;
  }

  /** How the template renders, block by block and token by token. */
  lemma DatePath2Renders(t: seq<Token>, a: seq<Token>, b: seq<Token>, c: seq<Token>)
    requires a == [Literal("/blog/"), Field(Year), Literal("/")]
    requires b == [Field(Month), Literal("/"), Field(Day)]
    requires c == [Literal("/"), Wildcard]
    requires t == a + b + c
    ensures Render(t) == ("/blog/" + ("%Y" + "/")) + ("%m" + ("/" + "%d")) + ("/" + "%-")
  {
    assert Render(a[2..]) == "/";
    assert Render(a[1..]) == "%Y/";
    assert Render(b[2..]) == "%d";
    assert Render(b[1..]) == "/%d";
    assert Render(c[1..]) == "%-";
    RenderAppend(a, b);
    RenderAppend(a + b, c);
  }

  /** The table keys the template captures. */
  lemma DatePath2Keys(t: seq<Token>, a: seq<Token>, b: seq<Token>, c: seq<Token>)
    requires a == [Literal("/blog/"), Field(Year), Literal("/")]
    requires b == [Field(Month), Literal("/"), Field(Day)]
    requires c == [Literal("/"), Wildcard]
    requires t == a + b + c
    ensures Keys(t) == {Year, Month, Day}
  {
    assert Keys(a[2..]) == {};
    assert Keys(a[1..]) == {Year};
    assert Keys(b[2..]) == {Day};
    assert Keys(b[1..]) == {Day};
    assert Keys(c[1..]) == {};
    KeysAppend(a, b);
    KeysAppend(a + b, c);
  }

  /** No literal of the template holds a `%`. */
  lemma DatePath2Plain()
    ensures '%' !in "/blog/" && '%' !in "/"
  {
  }

  /** The template meets the side conditions of the round trip. */
  lemma DatePath2Shape(t: seq<Token>, gap: string)
    requires t == [Literal("/blog/"), Field(Year), Literal("/"), Field(Month), Literal("/"), Field(Day), Literal("/"), Wildcard]
    ensures WellFormed(t) && FractionsDelimited(t) && GapsClear(t, gap)
  {
    DatePath2Plain();
    WellFormedByIndex(t);
  }

  /** The format string, cut where its tokens are. */
  lemma DatePath2Spelling(format: string)
    requires format == DatePath2Format
    ensures format == ("/blog/" + ("%Y" + "/")) + ("%m" + ("/" + "%d")) + ("/" + "%-")
  {
  }

  /** The format compiles to exactly this template. */
  lemma DatePath2Compiles(format: string, t: seq<Token>, a: seq<Token>, b: seq<Token>, c: seq<Token>)
    requires format == DatePath2Format
    requires a == [Literal("/blog/"), Field(Year), Literal("/")]
    requires b == [Field(Month), Literal("/"), Field(Day)]
    requires c == [Literal("/"), Wildcard]
    requires t == a + b + c
    ensures Compile(format) == Ok(t) && Render(t) == format && Keys(t) == {Year, Month, Day}
  {
    DatePath2Renders(t, a, b, c);
    DatePath2Keys(t, a, b, c);
    DatePath2Shape(t, "");
    DatePath2Spelling(format);
    CompileInvertsRender(t);
  }

  /** What one block of the template writes for the given values. */
  lemma DatePath2WritesA(a: seq<Token>, y: nat, mo: nat, d: nat, gap: string)
    requires a == [Literal("/blog/"), Field(Year), Literal("/")]
    requires y < 10000 && mo < 100 && d < 100
    ensures Writable(a, map[Year := y, Month := mo, Day := d])
    ensures Emit(a, map[Year := y, Month := mo, Day := d], "0", gap) == "/blog/" + (Text(Year, y) + "/")
  {
    var v := map[Year := y, Month := mo, Day := d];
    assert Emit(a[2..], v, "0", gap) == "/";
    assert Emit(a[1..], v, "0", gap) == Text(Year, y) + "/";
  }

  /** What one block of the template writes for the given values. */
  lemma DatePath2WritesB(b: seq<Token>, y: nat, mo: nat, d: nat, gap: string)
    requires b == [Field(Month), Literal("/"), Field(Day)]
    requires y < 10000 && mo < 100 && d < 100
    ensures Writable(b, map[Year := y, Month := mo, Day := d])
    ensures Emit(b, map[Year := y, Month := mo, Day := d], "0", gap) == Text(Month, mo) + ("/" + Text(Day, d))
  {
    var v := map[Year := y, Month := mo, Day := d];
    assert Emit(b[2..], v, "0", gap) == Text(Day, d);
    assert Emit(b[1..], v, "0", gap) == "/" + Text(Day, d);
  }

  /** What one block of the template writes for the given values. */
  lemma DatePath2WritesC(c: seq<Token>, y: nat, mo: nat, d: nat, gap: string)
    requires c == [Literal("/"), Wildcard]
    requires y < 10000 && mo < 100 && d < 100
    ensures Writable(c, map[Year := y, Month := mo, Day := d])
    ensures Emit(c, map[Year := y, Month := mo, Day := d], "0", gap) == "/" + gap
  {
    var v := map[Year := y, Month := mo, Day := d];
    assert Emit(c[1..], v, "0", gap) == gap;
  }

  /** What the whole template writes for the given values. */
  lemma DatePath2Writes(t: seq<Token>, a: seq<Token>, b: seq<Token>, c: seq<Token>, y: nat, mo: nat, d: nat, gap: string)
    requires a == [Literal("/blog/"), Field(Year), Literal("/")]
    requires b == [Field(Month), Literal("/"), Field(Day)]
    requires c == [Literal("/"), Wildcard]
    requires t == a + b + c
    requires y < 10000 && mo < 100 && d < 100
    ensures Writable(t, map[Year := y, Month := mo, Day := d])
    ensures Emit(t, map[Year := y, Month := mo, Day := d], "0", gap) == ("/blog/" + (Text(Year, y) + "/")) + (Text(Month, mo) + ("/" + Text(Day, d))) + ("/" + gap)
  {
    var v := map[Year := y, Month := mo, Day := d];
    assert Writable(t, v);
    DatePath2WritesA(a, y, mo, d, gap);
    DatePath2WritesB(b, y, mo, d, gap);
    DatePath2WritesC(c, y, mo, d, gap);
    EmitAppend(a, b, v, "0", gap);
    EmitAppend(a + b, c, v, "0", gap);
  }

  /** The fields the values of the template are given for. */
  lemma DatePath2ValueKeys(y: nat, mo: nat, d: nat)
    ensures map[Year := y, Month := mo, Day := d].Keys == {Year, Month, Day}
  {
  }

  /** What the template of `DatePath2Format` is and writes, in the terms of the round-trip lemma. */
  lemma DatePath2Template(y: nat, mo: nat, d: nat, gap: string, format: string) returns (t: seq<Token>)
    requires format == DatePath2Format
    requires y < 10000 && mo < 100 && d < 100
    ensures Render(t) == format && map[Year := y, Month := mo, Day := d].Keys == Keys(t)
    ensures WellFormed(t) && FractionsDelimited(t) && GapsClear(t, gap)
    ensures Writable(t, map[Year := y, Month := mo, Day := d])
    ensures Emit(t, map[Year := y, Month := mo, Day := d], "0", gap) == ("/blog/" + (Text(Year, y) + "/")) + (Text(Month, mo) + ("/" + Text(Day, d))) + ("/" + gap)
  {
    var a, b, c;
    t, a, b, c := DatePath2Blocks();
    DatePath2Compiles(format, t, a, b, c);
    DatePath2Shape(t, gap);
    DatePath2ValueKeys(y, mo, d);
    DatePath2Writes(t, a, b, c, y, mo, d, gap);
  }

  /** Any date written into the blog template, followed by any tail at all, reads back as that date: the trailing wildcard takes the rest. */
  lemma DatePath2Reads(y: nat, mo: nat, d: nat, gap: string, format: string)
    requires format == DatePath2Format
    requires y < 10000 && mo < 100 && d < 100
    ensures Parsed(("/blog/" + (Text(Year, y) + "/")) + (Text(Month, mo) + ("/" + Text(Day, d))) + ("/" + gap), format) == Build(map[Year := y, Month := mo, Day := d])
  {
    var t := DatePath2Template(y, mo, d, gap, format);
    ParseWritten(t, map[Year := y, Month := mo, Day := d], "0", gap, ("/blog/" + (Text(Year, y) + "/")) + (Text(Month, mo) + ("/" + Text(Day, d))) + ("/" + gap), format);
  }

  /** The timestamp the calendar builds from the fields of a real date or time. */
  lemma DatePath2Builds(y: nat, mo: nat, d: nat)
    requires y < 10000 && 1 <= mo <= 12 && 1 <= d <= DaysInMonth(y, mo)
    ensures Build(map[Year := y, Month := mo, Day := d]) == Ok(DateTime(y, mo, d, 0, 0, 0))
  {
    BuildExact(map[Year := y, Month := mo, Day := d], DateTime(y, mo, d, 0, 0, 0));
  }

  /** Every real calendar date written into the template parses to that date at midnight. */
  lemma DatePath2Valid(y: nat, mo: nat, d: nat, gap: string, format: string)
    requires format == DatePath2Format
    requires y < 10000 && 1 <= mo <= 12 && 1 <= d <= DaysInMonth(y, mo)
    ensures Parsed(("/blog/" + (Text(Year, y) + "/")) + (Text(Month, mo) + ("/" + Text(Day, d))) + ("/" + gap), format) == Ok(DateTime(y, mo, d, 0, 0, 0))
  {
    DatePath2Reads(y, mo, d, gap, format);
    DatePath2Builds(y, mo, d);
  }

  /** The subject "/blog/2012/04/22/a-post-slug", cut where the pieces of the template are. */
  lemma DatePath2SlugPieces(subject: string, p0: string, p1: string, p2: string, gap: string)
    requires subject == "/blog/2012/04/22/a-post-slug" && p0 == "2012" && p1 == "04" && p2 == "22" && gap == "a-post-slug"
    ensures subject == ("/blog/" + (p0 + "/")) + (p1 + ("/" + p2)) + ("/" + gap)
  {
  }

  /** How the field values of "/blog/2012/04/22/a-post-slug" are written. */
  lemma DatePath2SlugTexts()
    ensures Text(Year, 2012) == "2012" && Text(Month, 4) == "04" && Text(Day, 22) == "22"
  {
    YearText2012();
    MonthText04();
    DayText22();
  }

  /** "/blog/2012/04/22/a-post-slug" is the template written with these field values. */
  lemma DatePath2SlugFields(y: nat, mo: nat, d: nat, gap: string, subject: string, format: string)
    requires y == 2012 && mo == 4 && d == 22 && gap == "a-post-slug"
    requires subject == "/blog/2012/04/22/a-post-slug" && format == DatePath2Format
    ensures Parsed(subject, format) == Build(map[Year := y, Month := mo, Day := d])
  {
    DatePath2SlugTexts();
    DatePath2SlugPieces(subject, Text(Year, y), Text(Month, mo), Text(Day, d), gap);
    DatePath2Reads(y, mo, d, gap, format);
  }

  /** A blog path with a slug names 22 April 2012. */
  lemma DatePath2Slug(subject: string, format: string)
    requires subject == "/blog/2012/04/22/a-post-slug" && format == DatePath2Format
    ensures Parsed(subject, format) == Ok(DateTime(2012, 4, 22, 0, 0, 0))
  {
    DatePath2SlugFields(2012, 4, 22, "a-post-slug", subject, format);
  }

  /** The subject "/blog/2012/04/28/a-post-slug/page2", cut where the pieces of the template are. */
  lemma DatePath2PagePieces(subject: string, p0: string, p1: string, p2: string, gap: string)
    requires subject == "/blog/2012/04/28/a-post-slug/page2" && p0 == "2012" && p1 == "04" && p2 == "28" && gap == "a-post-slug/page2"
    ensures subject == ("/blog/" + (p0 + "/")) + (p1 + ("/" + p2)) + ("/" + gap)
  {
  }

  /** How the field values of "/blog/2012/04/28/a-post-slug/page2" are written. */
  lemma DatePath2PageTexts()
    ensures Text(Year, 2012) == "2012" && Text(Month, 4) == "04" && Text(Day, 28) == "28"
  {
    YearText2012();
    MonthText04();
    DayText28();
  }

  /** "/blog/2012/04/28/a-post-slug/page2" is the template written with these field values. */
  lemma DatePath2PageFields(y: nat, mo: nat, d: nat, gap: string, subject: string, format: string)
    requires y == 2012 && mo == 4 && d == 28 && gap == "a-post-slug/page2"
    requires subject == "/blog/2012/04/28/a-post-slug/page2" && format == DatePath2Format
    ensures Parsed(subject, format) == Build(map[Year := y, Month := mo, Day := d])
  {
    DatePath2PageTexts();
    DatePath2PagePieces(subject, Text(Year, y), Text(Month, mo), Text(Day, d), gap);
    DatePath2Reads(y, mo, d, gap, format);
  }

  /** The trailing wildcard swallows the slug and the page suffix alike. */
  lemma DatePath2Page(subject: string, format: string)
    requires subject == "/blog/2012/04/28/a-post-slug/page2" && format == DatePath2Format
    ensures Parsed(subject, format) == Ok(DateTime(2012, 4, 28, 0, 0, 0))
  {
    DatePath2PageFields(2012, 4, 28, "a-post-slug/page2", subject, format);
  }

  /** The format the test suite calls `datepathFormat3`. */
  const DatePath3Format := "/blog/%Y/%m/%d/%-/page2"

  /** The template of `DatePath3Format`, cut into blocks of at most three tokens. */
  lemma DatePath3Blocks() returns (t: seq<Token>, a: seq<Token>, b: seq<Token>, c: seq<Token>)
    ensures a == [Literal("/blog/"), Field(Year), Literal("/")]
    ensures b == [Field(Month), Literal("/"), Field(Day)]
    ensures c == [Literal("/"), Wildcard, Literal("/page2")]
    ensures t == a + b + c
  {
    a := [Literal("/blog/"), Field(Year), Literal("/")];
    b := [Field(Month), Literal("/"), Field(Day)];
    c := [Literal("/"), Wildcard, Literal("/page2")];
    t := a + b + c;
  }

  /** How the template renders, block by block and token by token. */
  lemma DatePath3Renders(t: seq<Token>, a: seq<Token>, b: seq<Token>, c: seq<Token>)
    requires a == [Literal("/blog/"), Field(Year), Literal("/")]
    requires b == [Field(Month), Literal("/"), Field(Day)]
    requires c == [Literal("/"), Wildcard, Literal("/page2")]
    requires t == a + b + c
    ensures Render(t) == ("/blog/" + ("%Y" + "/")) + ("%m" + ("/" + "%d")) + ("/" + ("%-" + "/page2"))
  {
    assert Render(a[2..]) == "/";
    assert Render(a[1..]) == "%Y/";
    assert Render(b[2..]) == "%d";
    assert Render(b[1..]) == "/%d";
    assert Render(c[2..]) == "/page2";
    assert Render(c[1..]) == "%-/page2";
    RenderAppend(a, b);
    RenderAppend(a + b, c);
  }

  /** The table keys the template captures. */
  lemma DatePath3Keys(t: seq<Token>, a: seq<Token>, b: seq<Token>, c: seq<Token>)
    requires a == [Literal("/blog/"), Field(Year), Literal("/")]
    requires b == [Field(Month), Literal("/"), Field(Day)]
    requires c == [Literal("/"), Wildcard, Literal("/page2")]
    requires t == a + b + c
    ensures Keys(t) == {Year, Month, Day}
  {
    assert Keys(a[2..]) == {};
    assert Keys(a[1..]) == {Year};
    assert Keys(b[2..]) == {Day};
    assert Keys(b[1..]) == {Day};
    assert Keys(c[2..]) == {};
    assert Keys(c[1..]) == {};
    KeysAppend(a, b);
    KeysAppend(a + b, c);
  }

  /** No literal of the template holds a `%`. */
  lemma DatePath3Plain()
    ensures '%' !in "/blog/" && '%' !in "/" && '%' !in "/page2"
  {
  }

  /** The template meets the side conditions of the round trip. */
  lemma DatePath3Shape(t: seq<Token>, gap: string)
    requires t == [Literal("/blog/"), Field(Year), Literal("/"), Field(Month), Literal("/"), Field(Day), Literal("/"), Wildcard, Literal("/page2")]
    requires NoPair(gap, '/', 'p')
    ensures WellFormed(t) && FractionsDelimited(t) && GapsClear(t, gap)
  {
    DatePath3Plain();
    WellFormedByIndex(t);
    ClearByPairs(gap, "/page2");
  }

  /** The format string, cut where its tokens are. */
  lemma DatePath3Spelling(format: string)
    requires format == DatePath3Format
    ensures format == ("/blog/" + ("%Y" + "/")) + ("%m" + ("/" + "%d")) + ("/" + ("%-" + "/page2"))
  {
  }

  /** The format compiles to exactly this template. */
  lemma DatePath3Compiles(format: string, t: seq<Token>, a: seq<Token>, b: seq<Token>, c: seq<Token>)
    requires format == DatePath3Format
    requires a == [Literal("/blog/"), Field(Year), Literal("/")]
    requires b == [Field(Month), Literal("/"), Field(Day)]
    requires c == [Literal("/"), Wildcard, Literal("/page2")]
    requires t == a + b + c
    ensures Compile(format) == Ok(t) && Render(t) == format && Keys(t) == {Year, Month, Day}
  {
    DatePath3Renders(t, a, b, c);
    DatePath3Keys(t, a, b, c);
    DatePath3Plain();
    WellFormedByIndex(t);
    DatePath3Spelling(format);
    CompileInvertsRender(t);
  }

  /** What one block of the template writes for the given values. */
  lemma DatePath3WritesA(a: seq<Token>, y: nat, mo: nat, d: nat, gap: string)
    requires a == [Literal("/blog/"), Field(Year), Literal("/")]
    requires y < 10000 && mo < 100 && d < 100
    ensures Writable(a, map[Year := y, Month := mo, Day := d])
    ensures Emit(a, map[Year := y, Month := mo, Day := d], "0", gap) == "/blog/" + (Text(Year, y) + "/")
  {
    var v := map[Year := y, Month := mo, Day := d];
    assert Emit(a[2..], v, "0", gap) == "/";
    assert Emit(a[1..], v, "0", gap) == Text(Year, y) + "/";
  }

  /** What one block of the template writes for the given values. */
  lemma DatePath3WritesB(b: seq<Token>, y: nat, mo: nat, d: nat, gap: string)
    requires b == [Field(Month), Literal("/"), Field(Day)]
    requires y < 10000 && mo < 100 && d < 100
    ensures Writable(b, map[Year := y, Month := mo, Day := d])
    ensures Emit(b, map[Year := y, Month := mo, Day := d], "0", gap) == Text(Month, mo) + ("/" + Text(Day, d))
  {
    var v := map[Year := y, Month := mo, Day := d];
    assert Emit(b[2..], v, "0", gap) == Text(Day, d);
    assert Emit(b[1..], v, "0", gap) == "/" + Text(Day, d);
  }

  /** What one block of the template writes for the given values. */
  lemma DatePath3WritesC(c: seq<Token>, y: nat, mo: nat, d: nat, gap: string)
    requires c == [Literal("/"), Wildcard, Literal("/page2")]
    requires y < 10000 && mo < 100 && d < 100
    ensures Writable(c, map[Year := y, Month := mo, Day := d])
    ensures Emit(c, map[Year := y, Month := mo, Day := d], "0", gap) == "/" + (gap + "/page2")
  {
    var v := map[Year := y, Month := mo, Day := d];
    assert Emit(c[2..], v, "0", gap) == "/page2";
    assert Emit(c[1..], v, "0", gap) == gap + "/page2";
  }

  /** What the whole template writes for the given values. */
  lemma DatePath3Writes(t: seq<Token>, a: seq<Token>, b: seq<Token>, c: seq<Token>, y: nat, mo: nat, d: nat, gap: string)
    requires a == [Literal("/blog/"), Field(Year), Literal("/")]
    requires b == [Field(Month), Literal("/"), Field(Day)]
    requires c == [Literal("/"), Wildcard, Literal("/page2")]
    requires t == a + b + c
    requires y < 10000 && mo < 100 && d < 100
    ensures Writable(t, map[Year := y, Month := mo, Day := d])
    ensures Emit(t, map[Year := y, Month := mo, Day := d], "0", gap) == ("/blog/" + (Text(Year, y) + "/")) + (Text(Month, mo) + ("/" + Text(Day, d))) + ("/" + (gap + "/page2"))
  {
    var v := map[Year := y, Month := mo, Day := d];
    assert Writable(t, v);
    DatePath3WritesA(a, y, mo, d, gap);
    DatePath3WritesB(b, y, mo, d, gap);
    DatePath3WritesC(c, y, mo, d, gap);
    EmitAppend(a, b, v, "0", gap);
    EmitAppend(a + b, c, v, "0", gap);
  }

  /** The fields the values of the template are given for. */
  lemma DatePath3ValueKeys(y: nat, mo: nat, d: nat)
    ensures map[Year := y, Month := mo, Day := d].Keys == {Year, Month, Day}
  {
  }

  /** What the template of `DatePath3Format` is and writes, in the terms of the round-trip lemma. */
  lemma DatePath3Template(y: nat, mo: nat, d: nat, gap: string, format: string) returns (t: seq<Token>)
    requires format == DatePath3Format
    requires y < 10000 && mo < 100 && d < 100
    requires NoPair(gap, '/', 'p')
    ensures Render(t) == format && map[Year := y, Month := mo, Day := d].Keys == Keys(t)
    ensures WellFormed(t) && FractionsDelimited(t) && GapsClear(t, gap)
    ensures Writable(t, map[Year := y, Month := mo, Day := d])
    ensures Emit(t, map[Year := y, Month := mo, Day := d], "0", gap) == ("/blog/" + (Text(Year, y) + "/")) + (Text(Month, mo) + ("/" + Text(Day, d))) + ("/" + (gap + "/page2"))
  {
    var a, b, c;
    t, a, b, c := DatePath3Blocks();
    DatePath3Compiles(format, t, a, b, c);
    DatePath3Shape(t, gap);
    DatePath3ValueKeys(y, mo, d);
    DatePath3Writes(t, a, b, c, y, mo, d, gap);
  }

  /** Any date written into the paged blog template, with any slug free of "/p", reads back as that date: the wildcard stops at "/page2". */
  lemma DatePath3Reads(y: nat, mo: nat, d: nat, gap: string, format: string)
    requires format == DatePath3Format
    requires y < 10000 && mo < 100 && d < 100
    requires NoPair(gap, '/', 'p')
    ensures Parsed(("/blog/" + (Text(Year, y) + "/")) + (Text(Month, mo) + ("/" + Text(Day, d))) + ("/" + (gap + "/page2")), format) == Build(map[Year := y, Month := mo, Day := d])
  {
    var t := DatePath3Template(y, mo, d, gap, format);
    ParseWritten(t, map[Year := y, Month := mo, Day := d], "0", gap, ("/blog/" + (Text(Year, y) + "/")) + (Text(Month, mo) + ("/" + Text(Day, d))) + ("/" + (gap + "/page2")), format);
  }

  /** The timestamp the calendar builds from the fields of a real date or time. */
  lemma DatePath3Builds(y: nat, mo: nat, d: nat)
    requires y < 10000 && 1 <= mo <= 12 && 1 <= d <= DaysInMonth(y, mo)
    ensures Build(map[Year := y, Month := mo, Day := d]) == Ok(DateTime(y, mo, d, 0, 0, 0))
  {
    BuildExact(map[Year := y, Month := mo, Day := d], DateTime(y, mo, d, 0, 0, 0));
  }

  /** Every real calendar date written into the template parses to that date at midnight. */
  lemma DatePath3Valid(y: nat, mo: nat, d: nat, gap: string, format: string)
    requires format == DatePath3Format
    requires y < 10000 && 1 <= mo <= 12 && 1 <= d <= DaysInMonth(y, mo)
    requires NoPair(gap, '/', 'p')
    ensures Parsed(("/blog/" + (Text(Year, y) + "/")) + (Text(Month, mo) + ("/" + Text(Day, d))) + ("/" + (gap + "/page2")), format) == Ok(DateTime(y, mo, d, 0, 0, 0))
  {
    DatePath3Reads(y, mo, d, gap, format);
    DatePath3Builds(y, mo, d);
  }

  /** The subject "/blog/2012/04/22/a-post-slug/page2", cut where the pieces of the template are. */
  lemma DatePath3SlugPieces(subject: string, p0: string, p1: string, p2: string, gap: string)
    requires subject == "/blog/2012/04/22/a-post-slug/page2" && p0 == "2012" && p1 == "04" && p2 == "22" && gap == "a-post-slug"
    ensures subject == ("/blog/" + (p0 + "/")) + (p1 + ("/" + p2)) + ("/" + (gap + "/page2"))
  {
  }

  /** How the field values of "/blog/2012/04/22/a-post-slug/page2" are written. */
  lemma DatePath3SlugTexts()
    ensures Text(Year, 2012) == "2012" && Text(Month, 4) == "04" && Text(Day, 22) == "22"
  {
    YearText2012();
    MonthText04();
    DayText22();
  }

  /** In "/blog/2012/04/22/a-post-slug/page2", the wildcard stands for "a-post-slug", which holds no "/" followed by "p". */
  lemma DatePath3SlugFree()
    ensures NoPair("a-post-slug", '/', 'p')
  {
  }

  /** "/blog/2012/04/22/a-post-slug/page2" is the template written with these field values. */
  lemma DatePath3SlugFields(y: nat, mo: nat, d: nat, gap: string, subject: string, format: string)
    requires y == 2012 && mo == 4 && d == 22 && gap == "a-post-slug"
    requires subject == "/blog/2012/04/22/a-post-slug/page2" && format == DatePath3Format
    ensures Parsed(subject, format) == Build(map[Year := y, Month := mo, Day := d])
  {
    DatePath3SlugTexts();
    DatePath3SlugFree();
    DatePath3SlugPieces(subject, Text(Year, y), Text(Month, mo), Text(Day, d), gap);
    DatePath3Reads(y, mo, d, gap, format);
  }

  /** A paged blog path names 22 April 2012; the wildcard ends where "/page2" begins. */
  lemma DatePath3Slug(subject: string, format: string)
    requires subject == "/blog/2012/04/22/a-post-slug/page2" && format == DatePath3Format
    ensures Parsed(subject, format) == Ok(DateTime(2012, 4, 22, 0, 0, 0))
  {
    DatePath3SlugFields(2012, 4, 22, "a-post-slug", subject, format);
  }

  /** The format the test suite calls `datepathFormat4`. */
  const DatePath4Format := "/random/02/03/-0700/numbers/%Y/%m/%d"

  /** The template of `DatePath4Format`, cut into blocks of at most three tokens. */
  lemma DatePath4Blocks() returns (t: seq<Token>, a: seq<Token>, b: seq<Token>)
    ensures a == [Literal("/random/02/03/-0700/numbers/"), Field(Year), Literal("/")]
    ensures b == [Field(Month), Literal("/"), Field(Day)]
    ensures t == a + b
  {
    a := [Literal("/random/02/03/-0700/numbers/"), Field(Year), Literal("/")];
    b := [Field(Month), Literal("/"), Field(Day)];
    t := a + b;
  }

  /** How the template renders, block by block and token by token. */
  lemma DatePath4Renders(t: seq<Token>, a: seq<Token>, b: seq<Token>)
    requires a == [Literal("/random/02/03/-0700/numbers/"), Field(Year), Literal("/")]
    requires b == [Field(Month), Literal("/"), Field(Day)]
    requires t == a + b
    ensures Render(t) == ("/random/02/03/-0700/numbers/" + ("%Y" + "/")) + ("%m" + ("/" + "%d"))
  {
    assert Render(a[2..]) == "/";
    assert Render(a[1..]) == "%Y/";
    assert Render(b[2..]) == "%d";
    assert Render(b[1..]) == "/%d";
    RenderAppend(a, b);
  }

  /** The table keys the template captures. */
  lemma DatePath4Keys(t: seq<Token>, a: seq<Token>, b: seq<Token>)
    requires a == [Literal("/random/02/03/-0700/numbers/"), Field(Year), Literal("/")]
    requires b == [Field(Month), Literal("/"), Field(Day)]
    requires t == a + b
    ensures Keys(t) == {Year, Month, Day}
  {
    assert Keys(a[2..]) == {};
    assert Keys(a[1..]) == {Year};
    assert Keys(b[2..]) == {Day};
    assert Keys(b[1..]) == {Day};
    KeysAppend(a, b);
  }

  /** No literal of the template holds a `%`. */
  lemma DatePath4Plain()
    ensures '%' !in "/random/02/03/-0700/numbers/" && '%' !in "/"
  {
  }

  /** The template meets the side conditions of the round trip. */
  lemma DatePath4Shape(t: seq<Token>, gap: string)
    requires t == [Literal("/random/02/03/-0700/numbers/"), Field(Year), Literal("/"), Field(Month), Literal("/"), Field(Day)]
    ensures WellFormed(t) && FractionsDelimited(t) && GapsClear(t, gap) && FixedWidth(t)
  {
    DatePath4Plain();
    WellFormedByIndex(t);
  }

  /** The format string, cut where its tokens are. */
  lemma DatePath4Spelling(format: string)
    requires format == DatePath4Format
    ensures format == ("/random/02/03/-0700/numbers/" + ("%Y" + "/")) + ("%m" + ("/" + "%d"))
  {
  }

  /** The format compiles to exactly this template. */
  lemma DatePath4Compiles(format: string, t: seq<Token>, a: seq<Token>, b: seq<Token>)
    requires format == DatePath4Format
    requires a == [Literal("/random/02/03/-0700/numbers/"), Field(Year), Literal("/")]
    requires b == [Field(Month), Literal("/"), Field(Day)]
    requires t == a + b
    ensures Compile(format) == Ok(t) && Render(t) == format && Keys(t) == {Year, Month, Day}
  {
    DatePath4Renders(t, a, b);
    DatePath4Keys(t, a, b);
    DatePath4Shape(t, "");
    DatePath4Spelling(format);
    CompileInvertsRender(t);
  }

  /** What one block of the template writes for the given values. */
  lemma DatePath4WritesA(a: seq<Token>, y: nat, mo: nat, d: nat)
    requires a == [Literal("/random/02/03/-0700/numbers/"), Field(Year), Literal("/")]
    requires y < 10000 && mo < 100 && d < 100
    ensures Writable(a, map[Year := y, Month := mo, Day := d])
    ensures Emit(a, map[Year := y, Month := mo, Day := d], "0", "") == "/random/02/03/-0700/numbers/" + (Text(Year, y) + "/")
  {
    var v := map[Year := y, Month := mo, Day := d];
    assert Emit(a[2..], v, "0", "") == "/";
    assert Emit(a[1..], v, "0", "") == Text(Year, y) + "/";
  }

  /** What one block of the template writes for the given values. */
  lemma DatePath4WritesB(b: seq<Token>, y: nat, mo: nat, d: nat)
    requires b == [Field(Month), Literal("/"), Field(Day)]
    requires y < 10000 && mo < 100 && d < 100
    ensures Writable(b, map[Year := y, Month := mo, Day := d])
    ensures Emit(b, map[Year := y, Month := mo, Day := d], "0", "") == Text(Month, mo) + ("/" + Text(Day, d))
  {
    var v := map[Year := y, Month := mo, Day := d];
    assert Emit(b[2..], v, "0", "") == Text(Day, d);
    assert Emit(b[1..], v, "0", "") == "/" + Text(Day, d);
  }

  /** What the whole template writes for the given values. */
  lemma DatePath4Writes(t: seq<Token>, a: seq<Token>, b: seq<Token>, y: nat, mo: nat, d: nat)
    requires a == [Literal("/random/02/03/-0700/numbers/"), Field(Year), Literal("/")]
    requires b == [Field(Month), Literal("/"), Field(Day)]
    requires t == a + b
    requires y < 10000 && mo < 100 && d < 100
    ensures Writable(t, map[Year := y, Month := mo, Day := d])
    ensures Emit(t, map[Year := y, Month := mo, Day := d], "0", "") == ("/random/02/03/-0700/numbers/" + (Text(Year, y) + "/")) + (Text(Month, mo) + ("/" + Text(Day, d)))
  {
    var v := map[Year := y, Month := mo, Day := d];
    assert Writable(t, v);
    DatePath4WritesA(a, y, mo, d);
    DatePath4WritesB(b, y, mo, d);
    EmitAppend(a, b, v, "0", "");
  }

  /** The fields the values of the template are given for. */
  lemma DatePath4ValueKeys(y: nat, mo: nat, d: nat)
    ensures map[Year := y, Month := mo, Day := d].Keys == {Year, Month, Day}
  {
  }

  /** What the template of `DatePath4Format` is and writes, in the terms of the round-trip lemma. */
  lemma DatePath4Template(y: nat, mo: nat, d: nat, format: string) returns (t: seq<Token>)
    requires format == DatePath4Format
    requires y < 10000 && mo < 100 && d < 100
    ensures Render(t) == format && map[Year := y, Month := mo, Day := d].Keys == Keys(t)
    ensures WellFormed(t) && FractionsDelimited(t) && GapsClear(t, "")
    ensures Writable(t, map[Year := y, Month := mo, Day := d])
    ensures Emit(t, map[Year := y, Month := mo, Day := d], "0", "") == ("/random/02/03/-0700/numbers/" + (Text(Year, y) + "/")) + (Text(Month, mo) + ("/" + Text(Day, d)))
  {
    var a, b;
    t, a, b := DatePath4Blocks();
    DatePath4Compiles(format, t, a, b);
    DatePath4Shape(t, "");
    DatePath4ValueKeys(y, mo, d);
    DatePath4Writes(t, a, b, y, mo, d);
  }

  /** Any date written after the long literal prefix reads back as that date. */
  lemma DatePath4Reads(y: nat, mo: nat, d: nat, format: string)
    requires format == DatePath4Format
    requires y < 10000 && mo < 100 && d < 100
    ensures Parsed(("/random/02/03/-0700/numbers/" + (Text(Year, y) + "/")) + (Text(Month, mo) + ("/" + Text(Day, d))), format) == Build(map[Year := y, Month := mo, Day := d])
  {
    var t := DatePath4Template(y, mo, d, format);
    ParseWritten(t, map[Year := y, Month := mo, Day := d], "0", "", ("/random/02/03/-0700/numbers/" + (Text(Year, y) + "/")) + (Text(Month, mo) + ("/" + Text(Day, d))), format);
  }

  /** The timestamp the calendar builds from the fields of a real date or time. */
  lemma DatePath4Builds(y: nat, mo: nat, d: nat)
    requires y < 10000 && 1 <= mo <= 12 && 1 <= d <= DaysInMonth(y, mo)
    ensures Build(map[Year := y, Month := mo, Day := d]) == Ok(DateTime(y, mo, d, 0, 0, 0))
  {
    BuildExact(map[Year := y, Month := mo, Day := d], DateTime(y, mo, d, 0, 0, 0));
  }

  /** Every real calendar date written into the template parses to that date at midnight. */
  lemma DatePath4Valid(y: nat, mo: nat, d: nat, format: string)
    requires format == DatePath4Format
    requires y < 10000 && 1 <= mo <= 12 && 1 <= d <= DaysInMonth(y, mo)
    ensures Parsed(("/random/02/03/-0700/numbers/" + (Text(Year, y) + "/")) + (Text(Month, mo) + ("/" + Text(Day, d))), format) == Ok(DateTime(y, mo, d, 0, 0, 0))
  {
    DatePath4Reads(y, mo, d, format);
    DatePath4Builds(y, mo, d);
  }

  /** The subject "/random/02/03/-0700/numbers/2012/04/28", cut where the pieces of the template are. */
  lemma DatePath4DatedPieces(subject: string, p0: string, p1: string, p2: string)
    requires subject == "/random/02/03/-0700/numbers/2012/04/28" && p0 == "2012" && p1 == "04" && p2 == "28"
    ensures subject == ("/random/02/03/-0700/numbers/" + (p0 + "/")) + (p1 + ("/" + p2))
  {
  }

  /** How the field values of "/random/02/03/-0700/numbers/2012/04/28" are written. */
  lemma DatePath4DatedTexts()
    ensures Text(Year, 2012) == "2012" && Text(Month, 4) == "04" && Text(Day, 28) == "28"
  {
    YearText2012();
    MonthText04();
    DayText28();
  }

  /** "/random/02/03/-0700/numbers/2012/04/28" is the template written with these field values. */
  lemma DatePath4DatedFields(y: nat, mo: nat, d: nat, subject: string, format: string)
    requires y == 2012 && mo == 4 && d == 28
    requires subject == "/random/02/03/-0700/numbers/2012/04/28" && format == DatePath4Format
    ensures Parsed(subject, format) == Build(map[Year := y, Month := mo, Day := d])
  {
    DatePath4DatedTexts();
    DatePath4DatedPieces(subject, Text(Year, y), Text(Month, mo), Text(Day, d));
    DatePath4Reads(y, mo, d, format);
  }

  /** Digits inside a literal are matched as text, not read as fields. */
  lemma DatePath4Dated(subject: string, format: string)
    requires subject == "/random/02/03/-0700/numbers/2012/04/28" && format == DatePath4Format
    ensures Parsed(subject, format) == Ok(DateTime(2012, 4, 28, 0, 0, 0))
  {
    DatePath4DatedFields(2012, 4, 28, subject, format);
  }

  /** The format the test suite calls `datepathFormat5`. */
  const DatePath5Format := "/random/%-/numbers/%Y/%m/%d"

  /** The template of `DatePath5Format`, cut into blocks of at most three tokens. */
  lemma DatePath5Blocks() returns (t: seq<Token>, a: seq<Token>, b: seq<Token>, c: seq<Token>)
    ensures a == [Literal("/random/"), Wildcard, Literal("/numbers/")]
    ensures b == [Field(Year), Literal("/"), Field(Month)]
    ensures c == [Literal("/"), Field(Day)]
    ensures t == a + b + c
  {
    a := [Literal("/random/"), Wildcard, Literal("/numbers/")];
    b := [Field(Year), Literal("/"), Field(Month)];
    c := [Literal("/"), Field(Day)];
    t := a + b + c;
  }

  /** How the template renders, block by block and token by token. */
  lemma DatePath5Renders(t: seq<Token>, a: seq<Token>, b: seq<Token>, c: seq<Token>)
    requires a == [Literal("/random/"), Wildcard, Literal("/numbers/")]
    requires b == [Field(Year), Literal("/"), Field(Month)]
    requires c == [Literal("/"), Field(Day)]
    requires t == a + b + c
    ensures Render(t) == ("/random/" + ("%-" + "/numbers/")) + ("%Y" + ("/" + "%m")) + ("/" + "%d")
  {
    assert Render(a[2..]) == "/numbers/";
    assert Render(a[1..]) == "%-/numbers/";
    assert Render(b[2..]) == "%m";
    assert Render(b[1..]) == "/%m";
    assert Render(c[1..]) == "%d";
    RenderAppend(a, b);
    RenderAppend(a + b, c);
  }

  /** The table keys the template captures. */
  lemma DatePath5Keys(t: seq<Token>, a: seq<Token>, b: seq<Token>, c: seq<Token>)
    requires a == [Literal("/random/"), Wildcard, Literal("/numbers/")]
    requires b == [Field(Year), Literal("/"), Field(Month)]
    requires c == [Literal("/"), Field(Day)]
    requires t == a + b + c
    ensures Keys(t) == {Year, Month, Day}
  {
    assert Keys(a[2..]) == {};
    assert Keys(a[1..]) == {};
    assert Keys(b[2..]) == {Month};
    assert Keys(b[1..]) == {Month};
    assert Keys(c[1..]) == {Day};
    KeysAppend(a, b);
    KeysAppend(a + b, c);
  }

  /** No literal of the template holds a `%`. */
  lemma DatePath5Plain()
    ensures '%' !in "/random/" && '%' !in "/numbers/" && '%' !in "/"
  {
  }

  /** The template meets the side conditions of the round trip. */
  lemma DatePath5Shape(t: seq<Token>, gap: string)
    requires t == [Literal("/random/"), Wildcard, Literal("/numbers/"), Field(Year), Literal("/"), Field(Month), Literal("/"), Field(Day)]
    requires NoPair(gap, '/', 'n')
    ensures WellFormed(t) && FractionsDelimited(t) && GapsClear(t, gap)
  {
    DatePath5Plain();
    WellFormedByIndex(t);
    ClearByPairs(gap, "/numbers/");
  }

  /** The format string, cut where its tokens are. */
  lemma DatePath5Spelling(format: string)
    requires format == DatePath5Format
    ensures format == ("/random/" + ("%-" + "/numbers/")) + ("%Y" + ("/" + "%m")) + ("/" + "%d")
  {
  }

  /** The format compiles to exactly this template. */
  lemma DatePath5Compiles(format: string, t: seq<Token>, a: seq<Token>, b: seq<Token>, c: seq<Token>)
    requires format == DatePath5Format
    requires a == [Literal("/random/"), Wildcard, Literal("/numbers/")]
    requires b == [Field(Year), Literal("/"), Field(Month)]
    requires c == [Literal("/"), Field(Day)]
    requires t == a + b + c
    ensures Compile(format) == Ok(t) && Render(t) == format && Keys(t) == {Year, Month, Day}
  {
    DatePath5Renders(t, a, b, c);
    DatePath5Keys(t, a, b, c);
    DatePath5Plain();
    WellFormedByIndex(t);
    DatePath5Spelling(format);
    CompileInvertsRender(t);
  }

  /** What one block of the template writes for the given values. */
  lemma DatePath5WritesA(a: seq<Token>, y: nat, mo: nat, d: nat, gap: string)
    requires a == [Literal("/random/"), Wildcard, Literal("/numbers/")]
    requires y < 10000 && mo < 100 && d < 100
    ensures Writable(a, map[Year := y, Month := mo, Day := d])
    ensures Emit(a, map[Year := y, Month := mo, Day := d], "0", gap) == "/random/" + (gap + "/numbers/")
  {
    var v := map[Year := y, Month := mo, Day := d];
    assert Emit(a[2..], v, "0", gap) == "/numbers/";
    assert Emit(a[1..], v, "0", gap) == gap + "/numbers/";
  }

  /** What one block of the template writes for the given values. */
  lemma DatePath5WritesB(b: seq<Token>, y: nat, mo: nat, d: nat, gap: string)
    requires b == [Field(Year), Literal("/"), Field(Month)]
    requires y < 10000 && mo < 100 && d < 100
    ensures Writable(b, map[Year := y, Month := mo, Day := d])
    ensures Emit(b, map[Year := y, Month := mo, Day := d], "0", gap) == Text(Year, y) + ("/" + Text(Month, mo))
  {
    var v := map[Year := y, Month := mo, Day := d];
    assert Emit(b[2..], v, "0", gap) == Text(Month, mo);
    assert Emit(b[1..], v, "0", gap) == "/" + Text(Month, mo);
  }

  /** What one block of the template writes for the given values. */
  lemma DatePath5WritesC(c: seq<Token>, y: nat, mo: nat, d: nat, gap: string)
    requires c == [Literal("/"), Field(Day)]
    requires y < 10000 && mo < 100 && d < 100
    ensures Writable(c, map[Year := y, Month := mo, Day := d])
    ensures Emit(c, map[Year := y, Month := mo, Day := d], "0", gap) == "/" + Text(Day, d)
  {
    var v := map[Year := y, Month := mo, Day := d];
    assert Emit(c[1..], v, "0", gap) == Text(Day, d);
  }

  /** What the whole template writes for the given values. */
  lemma DatePath5Writes(t: seq<Token>, a: seq<Token>, b: seq<Token>, c: seq<Token>, y: nat, mo: nat, d: nat, gap: string)
    requires a == [Literal("/random/"), Wildcard, Literal("/numbers/")]
    requires b == [Field(Year), Literal("/"), Field(Month)]
    requires c == [Literal("/"), Field(Day)]
    requires t == a + b + c
    requires y < 10000 && mo < 100 && d < 100
    ensures Writable(t, map[Year := y, Month := mo, Day := d])
    ensures Emit(t, map[Year := y, Month := mo, Day := d], "0", gap) == ("/random/" + (gap + "/numbers/")) + (Text(Year, y) + ("/" + Text(Month, mo))) + ("/" + Text(Day, d))
  {
    var v := map[Year := y, Month := mo, Day := d];
    assert Writable(t, v);
    DatePath5WritesA(a, y, mo, d, gap);
    DatePath5WritesB(b, y, mo, d, gap);
    DatePath5WritesC(c, y, mo, d, gap);
    EmitAppend(a, b, v, "0", gap);
    EmitAppend(a + b, c, v, "0", gap);
  }

  /** The fields the values of the template are given for. */
  lemma DatePath5ValueKeys(y: nat, mo: nat, d: nat)
    ensures map[Year := y, Month := mo, Day := d].Keys == {Year, Month, Day}
  {
  }

  /** What the template of `DatePath5Format` is and writes, in the terms of the round-trip lemma. */
  lemma DatePath5Template(y: nat, mo: nat, d: nat, gap: string, format: string) returns (t: seq<Token>)
    requires format == DatePath5Format
    requires y < 10000 && mo < 100 && d < 100
    requires NoPair(gap, '/', 'n')
    ensures Render(t) == format && map[Year := y, Month := mo, Day := d].Keys == Keys(t)
    ensures WellFormed(t) && FractionsDelimited(t) && GapsClear(t, gap)
    ensures Writable(t, map[Year := y, Month := mo, Day := d])
    ensures Emit(t, map[Year := y, Month := mo, Day := d], "0", gap) == ("/random/" + (gap + "/numbers/")) + (Text(Year, y) + ("/" + Text(Month, mo))) + ("/" + Text(Day, d))
  {
    var a, b, c;
    t, a, b, c := DatePath5Blocks();
    DatePath5Compiles(format, t, a, b, c);
    DatePath5Shape(t, gap);
    DatePath5ValueKeys(y, mo, d);
    DatePath5Writes(t, a, b, c, y, mo, d, gap);
  }

  /** Any date written after a wildcard segment free of "/n" reads back as that date: the wildcard stops at "/numbers/". */
  lemma DatePath5Reads(y: nat, mo: nat, d: nat, gap: string, format: string)
    requires format == DatePath5Format
    requires y < 10000 && mo < 100 && d < 100
    requires NoPair(gap, '/', 'n')
    ensures Parsed(("/random/" + (gap + "/numbers/")) + (Text(Year, y) + ("/" + Text(Month, mo))) + ("/" + Text(Day, d)), format) == Build(map[Year := y, Month := mo, Day := d])
  {
    var t := DatePath5Template(y, mo, d, gap, format);
    ParseWritten(t, map[Year := y, Month := mo, Day := d], "0", gap, ("/random/" + (gap + "/numbers/")) + (Text(Year, y) + ("/" + Text(Month, mo))) + ("/" + Text(Day, d)), format);
  }

  /** The timestamp the calendar builds from the fields of a real date or time. */
  lemma DatePath5Builds(y: nat, mo: nat, d: nat)
    requires y < 10000 && 1 <= mo <= 12 && 1 <= d <= DaysInMonth(y, mo)
    ensures Build(map[Year := y, Month := mo, Day := d]) == Ok(DateTime(y, mo, d, 0, 0, 0))
  {
    BuildExact(map[Year := y, Month := mo, Day := d], DateTime(y, mo, d, 0, 0, 0));
  }

  /** Every real calendar date written into the template parses to that date at midnight. */
  lemma DatePath5Valid(y: nat, mo: nat, d: nat, gap: string, format: string)
    requires format == DatePath5Format
    requires y < 10000 && 1 <= mo <= 12 && 1 <= d <= DaysInMonth(y, mo)
    requires NoPair(gap, '/', 'n')
    ensures Parsed(("/random/" + (gap + "/numbers/")) + (Text(Year, y) + ("/" + Text(Month, mo))) + ("/" + Text(Day, d)), format) == Ok(DateTime(y, mo, d, 0, 0, 0))
  {
    DatePath5Reads(y, mo, d, gap, format);
    DatePath5Builds(y, mo, d);
  }

  /** The subject "/random/02/03/-0700/numbers/2012/04/22", cut where the pieces of the template are. */
  lemma DatePath5FirstPieces(subject: string, p0: string, p1: string, p2: string, gap: string)
    requires subject == "/random/02/03/-0700/numbers/2012/04/22" && p0 == "2012" && p1 == "04" && p2 == "22" && gap == "02/03/-0700"
    ensures subject == ("/random/" + (gap + "/numbers/")) + (p0 + ("/" + p1)) + ("/" + p2)
  {
  }

  /** How the field values of "/random/02/03/-0700/numbers/2012/04/22" are written. */
  lemma DatePath5FirstTexts()
    ensures Text(Year, 2012) == "2012" && Text(Month, 4) == "04" && Text(Day, 22) == "22"
  {
    YearText2012();
    MonthText04();
    DayText22();
  }

  /** In "/random/02/03/-0700/numbers/2012/04/22", the wildcard stands for "02/03/-0700", which holds no "/" followed by "n". */
  lemma DatePath5FirstFree()
    ensures NoPair("02/03/-0700", '/', 'n')
  {
  }

  /** "/random/02/03/-0700/numbers/2012/04/22" is the template written with these field values. */
  lemma DatePath5FirstFields(y: nat, mo: nat, d: nat, gap: string, subject: string, format: string)
    requires y == 2012 && mo == 4 && d == 22 && gap == "02/03/-0700"
    requires subject == "/random/02/03/-0700/numbers/2012/04/22" && format == DatePath5Format
    ensures Parsed(subject, format) == Build(map[Year := y, Month := mo, Day := d])
  {
    DatePath5FirstTexts();
    DatePath5FirstFree();
    DatePath5FirstPieces(subject, Text(Year, y), Text(Month, mo), Text(Day, d), gap);
    DatePath5Reads(y, mo, d, gap, format);
  }

  /** A wildcard in the middle skips "02/03/-0700". */
  lemma DatePath5First(subject: string, format: string)
    requires subject == "/random/02/03/-0700/numbers/2012/04/22" && format == DatePath5Format
    ensures Parsed(subject, format) == Ok(DateTime(2012, 4, 22, 0, 0, 0))
  {
    DatePath5FirstFields(2012, 4, 22, "02/03/-0700", subject, format);
  }

  /** The subject "/random/04/28/-0500/numbers/2012/04/28", cut where the pieces of the template are. */
  lemma DatePath5SecondPieces(subject: string, p0: string, p1: string, p2: string, gap: string)
    requires subject == "/random/04/28/-0500/numbers/2012/04/28" && p0 == "2012" && p1 == "04" && p2 == "28" && gap == "04/28/-0500"
    ensures subject == ("/random/" + (gap + "/numbers/")) + (p0 + ("/" + p1)) + ("/" + p2)
  {
  }

  /** How the field values of "/random/04/28/-0500/numbers/2012/04/28" are written. */
  lemma DatePath5SecondTexts()
    ensures Text(Year, 2012) == "2012" && Text(Month, 4) == "04" && Text(Day, 28) == "28"
  {
    YearText2012();
    MonthText04();
    DayText28();
  }

  /** In "/random/04/28/-0500/numbers/2012/04/28", the wildcard stands for "04/28/-0500", which holds no "/" followed by "n". */
  lemma DatePath5SecondFree()
    ensures NoPair("04/28/-0500", '/', 'n')
  {
  }

  /** "/random/04/28/-0500/numbers/2012/04/28" is the template written with these field values. */
  lemma DatePath5SecondFields(y: nat, mo: nat, d: nat, gap: string, subject: string, format: string)
    requires y == 2012 && mo == 4 && d == 28 && gap == "04/28/-0500"
    requires subject == "/random/04/28/-0500/numbers/2012/04/28" && format == DatePath5Format
    ensures Parsed(subject, format) == Build(map[Year := y, Month := mo, Day := d])
  {
    DatePath5SecondTexts();
    DatePath5SecondFree();
    DatePath5SecondPieces(subject, Text(Year, y), Text(Month, mo), Text(Day, d), gap);
    DatePath5Reads(y, mo, d, gap, format);
  }

  /** A wildcard in the middle skips "04/28/-0500", which the literal template rejects. */
  lemma DatePath5Second(subject: string, format: string)
    requires subject == "/random/04/28/-0500/numbers/2012/04/28" && format == DatePath5Format
    ensures Parsed(subject, format) == Ok(DateTime(2012, 4, 28, 0, 0, 0))
  {
    DatePath5SecondFields(2012, 4, 28, "04/28/-0500", subject, format);
  }
}
