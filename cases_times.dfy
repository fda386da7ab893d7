/** The time formats: a 24-hour clock with a fraction, and a 12-hour clock with a meridiem. */
module TimeExamples {
  import opened Common
  import opened Format
  import opened Lexing
  import opened Calendar
  import opened Matcher
  import opened MatcherFacts
  import opened RoundTrip
  import opened Strptime
  import opened WrittenFields

  /** The format the test suite calls `timeFormat1`. */
  const Time1Format := "%H:%M:%S.%f"

  /** The template of `Time1Format`, cut into blocks of at most three tokens. */
  lemma Time1Blocks() returns (t: seq<Token>, a: seq<Token>, b: seq<Token>, c: seq<Token>)
    ensures a == [Field(Hour24), Literal(":"), Field(Minute)]
    ensures b == [Literal(":"), Field(Second), Literal(".")]
    ensures c == [Field(Fraction)]
    ensures t == a + b + c
  {
    a := [Field(Hour24), Literal(":"), Field(Minute)];
    b := [Literal(":"), Field(Second), Literal(".")];
    c := [Field(Fraction)];
    t := a + b + c;
  }

  /** How the template renders, block by block and token by token. */
  lemma Time1Renders(t: seq<Token>, a: seq<Token>, b: seq<Token>, c: seq<Token>)
    requires a == [Field(Hour24), Literal(":"), Field(Minute)]
    requires b == [Literal(":"), Field(Second), Literal(".")]
    requires c == [Field(Fraction)]
    requires t == a + b + c
    ensures Render(t) == ("%H" + (":" + "%M")) + (":" + ("%S" + ".")) + "%f"
  {
    assert Render(a[2..]) == "%M";
    assert Render(a[1..]) == ":%M";
    assert Render(b[2..]) == ".";
    assert Render(b[1..]) == "%S.";
    RenderAppend(a, b);
    RenderAppend(a + b, c);
  }

  /** The table keys the template captures. */
  lemma Time1Keys(t: seq<Token>, a: seq<Token>, b: seq<Token>, c: seq<Token>)
    requires a == [Field(Hour24), Literal(":"), Field(Minute)]
    requires b == [Literal(":"), Field(Second), Literal(".")]
    requires c == [Field(Fraction)]
    requires t == a + b + c
    ensures Keys(t) == {Hour24, Minute, Second}
  {
    assert Keys(a[2..]) == {Minute};
    assert Keys(a[1..]) == {Minute};
    assert Keys(b[2..]) == {};
    assert Keys(b[1..]) == {Second};
    KeysAppend(a, b);
    KeysAppend(a + b, c);
  }

  /** No literal of the template holds a `%`. */
  lemma Time1Plain()
    ensures '%' !in ":" && '%' !in "."
  {
  }

  /** The template meets the side conditions of the round trip. */
  lemma Time1Shape(t: seq<Token>, gap: string)
    requires t == [Field(Hour24), Literal(":"), Field(Minute), Literal(":"), Field(Second), Literal("."), Field(Fraction)]
    ensures WellFormed(t) && FractionsDelimited(t) && GapsClear(t, gap)
  {
    Time1Plain();
    WellFormedByIndex(t);
  }

  /** The format string, cut where its tokens are. */
  lemma Time1Spelling(format: string)
    requires format == Time1Format
    ensures format == ("%H" + (":" + "%M")) + (":" + ("%S" + ".")) + "%f"
  {
  }

  /** The format compiles to exactly this template. */
  lemma Time1Compiles(format: string, t: seq<Token>, a: seq<Token>, b: seq<Token>, c: seq<Token>)
    requires format == Time1Format
    requires a == [Field(Hour24), Literal(":"), Field(Minute)]
    requires b == [Literal(":"), Field(Second), Literal(".")]
    requires c == [Field(Fraction)]
    requires t == a + b + c
    ensures Compile(format) == Ok(t) && Render(t) == format && Keys(t) == {Hour24, Minute, Second}
  {
    Time1Renders(t, a, b, c);
    Time1Keys(t, a, b, c);
    Time1Shape(t, "");
    Time1Spelling(format);
    CompileInvertsRender(t);
  }

  /** What one block of the template writes for the given values. */
  lemma Time1WritesA(a: seq<Token>, h: nat, mi: nat, sec: nat, frac: string)
    requires a == [Field(Hour24), Literal(":"), Field(Minute)]
    requires h < 100 && mi < 100 && sec < 100
    ensures Writable(a, map[Hour24 := h, Minute := mi, Second := sec])
    ensures Emit(a, map[Hour24 := h, Minute := mi, Second := sec], frac, "") == Text(Hour24, h) + (":" + Text(Minute, mi))
  {
    var v := map[Hour24 := h, Minute := mi, Second := sec];
    assert Emit(a[2..], v, frac, "") == Text(Minute, mi);
    assert Emit(a[1..], v, frac, "") == ":" + Text(Minute, mi);
  }

  /** What one block of the template writes for the given values. */
  lemma Time1WritesB(b: seq<Token>, h: nat, mi: nat, sec: nat, frac: string)
    requires b == [Literal(":"), Field(Second), Literal(".")]
    requires h < 100 && mi < 100 && sec < 100
    ensures Writable(b, map[Hour24 := h, Minute := mi, Second := sec])
    ensures Emit(b, map[Hour24 := h, Minute := mi, Second := sec], frac, "") == ":" + (Text(Second, sec) + ".")
  {
    var v := map[Hour24 := h, Minute := mi, Second := sec];
    assert Emit(b[2..], v, frac, "") == ".";
    assert Emit(b[1..], v, frac, "") == Text(Second, sec) + ".";
  }

  /** What one block of the template writes for the given values. */
  lemma Time1WritesC(c: seq<Token>, h: nat, mi: nat, sec: nat, frac: string)
    requires c == [Field(Fraction)]
    requires h < 100 && mi < 100 && sec < 100
    ensures Writable(c, map[Hour24 := h, Minute := mi, Second := sec])
    ensures Emit(c, map[Hour24 := h, Minute := mi, Second := sec], frac, "") == frac
  {
    var v := map[Hour24 := h, Minute := mi, Second := sec];
  }

  /** What the whole template writes for the given values. */
  lemma Time1Writes(t: seq<Token>, a: seq<Token>, b: seq<Token>, c: seq<Token>, h: nat, mi: nat, sec: nat, frac: string)
    requires a == [Field(Hour24), Literal(":"), Field(Minute)]
    requires b == [Literal(":"), Field(Second), Literal(".")]
    requires c == [Field(Fraction)]
    requires t == a + b + c
    requires h < 100 && mi < 100 && sec < 100
    ensures Writable(t, map[Hour24 := h, Minute := mi, Second := sec])
    ensures Emit(t, map[Hour24 := h, Minute := mi, Second := sec], frac, "") == (Text(Hour24, h) + (":" + Text(Minute, mi))) + (":" + (Text(Second, sec) + ".")) + frac
  {
    var v := map[Hour24 := h, Minute := mi, Second := sec];
    assert Writable(t, v);
    Time1WritesA(a, h, mi, sec, frac);
    Time1WritesB(b, h, mi, sec, frac);
    Time1WritesC(c, h, mi, sec, frac);
    EmitAppend(a, b, v, frac, "");
    EmitAppend(a + b, c, v, frac, "");
  }

  /** The fields the values of the template are given for. */
  lemma Time1ValueKeys(h: nat, mi: nat, sec: nat)
    ensures map[Hour24 := h, Minute := mi, Second := sec].Keys == {Hour24, Minute, Second}
  {
  }

  /** What the template of `Time1Format` is and writes, in the terms of the round-trip lemma. */
  lemma Time1Template(h: nat, mi: nat, sec: nat, frac: string, format: string) returns (t: seq<Token>)
    requires format == Time1Format
    requires h < 100 && mi < 100 && sec < 100
    ensures Render(t) == format && map[Hour24 := h, Minute := mi, Second := sec].Keys == Keys(t)
    ensures WellFormed(t) && FractionsDelimited(t) && GapsClear(t, "")
    ensures Writable(t, map[Hour24 := h, Minute := mi, Second := sec])
    ensures Emit(t, map[Hour24 := h, Minute := mi, Second := sec], frac, "") == (Text(Hour24, h) + (":" + Text(Minute, mi))) + (":" + (Text(Second, sec) + ".")) + frac
  {
    var a, b, c;
    t, a, b, c := Time1Blocks();
    Time1Compiles(format, t, a, b, c);
    Time1Shape(t, "");
    Time1ValueKeys(h, mi, sec);
    Time1Writes(t, a, b, c, h, mi, sec, frac);
  }

  /** Any time written on the 24-hour clock, with any non-empty fraction, reads back as that time on the default date. */
  lemma Time1Reads(h: nat, mi: nat, sec: nat, frac: string, format: string)
    requires format == Time1Format
    requires h < 100 && mi < 100 && sec < 100
    requires frac != [] && AllDigits(frac)
    ensures Parsed((Text(Hour24, h) + (":" + Text(Minute, mi))) + (":" + (Text(Second, sec) + ".")) + frac, format) == Build(map[Hour24 := h, Minute := mi, Second := sec])
  {
    var t := Time1Template(h, mi, sec, frac, format);
    ParseWritten(t, map[Hour24 := h, Minute := mi, Second := sec], frac, "", (Text(Hour24, h) + (":" + Text(Minute, mi))) + (":" + (Text(Second, sec) + ".")) + frac, format);
  }

  /** The timestamp the calendar builds from the fields of a real date or time. */
  lemma Time1Builds(h: nat, mi: nat, sec: nat)
    requires h < 24 && mi < 60 && sec < 60
    ensures Build(map[Hour24 := h, Minute := mi, Second := sec]) == Ok(DateTime(0, 1, 1, h, mi, sec))
  {
    BuildExact(map[Hour24 := h, Minute := mi, Second := sec], DateTime(0, 1, 1, h, mi, sec));
  }

  /** Every real time of day on the 24-hour clock parses to that time, whatever its fraction. */
  lemma Time1Valid(h: nat, mi: nat, sec: nat, frac: string, format: string)
    requires format == Time1Format
    requires h < 24 && mi < 60 && sec < 60
    requires frac != [] && AllDigits(frac)
    ensures Parsed((Text(Hour24, h) + (":" + Text(Minute, mi))) + (":" + (Text(Second, sec) + ".")) + frac, format) == Ok(DateTime(0, 1, 1, h, mi, sec))
  {
    Time1Reads(h, mi, sec, frac, format);
    Time1Builds(h, mi, sec);
  }

  /** The subject "20:42:15.98", cut where the pieces of the template are. */
  lemma Time1EveningPieces(subject: string, p0: string, p1: string, p2: string, frac: string)
    requires subject == "20:42:15.98" && p0 == "20" && p1 == "42" && p2 == "15" && frac == "98"
    ensures subject == (p0 + (":" + p1)) + (":" + (p2 + ".")) + frac
  {
  }

  /** How the field values of "20:42:15.98" are written. */
  lemma Time1EveningTexts()
    ensures Text(Hour24, 20) == "20" && Text(Minute, 42) == "42" && Text(Second, 15) == "15"
  {
    Hour24Text20();
    MinuteText42();
    SecondText15();
  }

  /** In "20:42:15.98", the fraction stands for "98", which is all digits. */
  lemma Time1EveningFree()
    ensures AllDigits("98")
  {
  }

  /** "20:42:15.98" is the template written with these field values. */
  lemma Time1EveningFields(h: nat, mi: nat, sec: nat, frac: string, subject: string, format: string)
    requires h == 20 && mi == 42 && sec == 15 && frac == "98"
    requires subject == "20:42:15.98" && format == Time1Format
    ensures Parsed(subject, format) == Build(map[Hour24 := h, Minute := mi, Second := sec])
  {
    Time1EveningTexts();
    Time1EveningFree();
    Time1EveningPieces(subject, Text(Hour24, h), Text(Minute, mi), Text(Second, sec), frac);
    Time1Reads(h, mi, sec, frac, format);
  }

  /** "20:42:15.98" is 20:42:15; the fraction is dropped. */
  lemma Time1Evening(subject: string, format: string)
    requires subject == "20:42:15.98" && format == Time1Format
    ensures Parsed(subject, format) == Ok(DateTime(0, 1, 1, 20, 42, 15))
  {
    Time1EveningFields(20, 42, 15, "98", subject, format);
  }

  /** The subject "02:42:15.4", cut where the pieces of the template are. */
  lemma Time1NightPieces(subject: string, p0: string, p1: string, p2: string, frac: string)
    requires subject == "02:42:15.4" && p0 == "02" && p1 == "42" && p2 == "15" && frac == "4"
    ensures subject == (p0 + (":" + p1)) + (":" + (p2 + ".")) + frac
  {
  }

  /** How the field values of "02:42:15.4" are written. */
  lemma Time1NightTexts()
    ensures Text(Hour24, 2) == "02" && Text(Minute, 42) == "42" && Text(Second, 15) == "15"
  {
    Hour24Text02();
    MinuteText42();
    SecondText15();
  }

  /** In "02:42:15.4", the fraction stands for "4", which is all digits. */
  lemma Time1NightFree()
    ensures AllDigits("4")
  {
  }

  /** "02:42:15.4" is the template written with these field values. */
  lemma Time1NightFields(h: nat, mi: nat, sec: nat, frac: string, subject: string, format: string)
    requires h == 2 && mi == 42 && sec == 15 && frac == "4"
    requires subject == "02:42:15.4" && format == Time1Format
    ensures Parsed(subject, format) == Build(map[Hour24 := h, Minute := mi, Second := sec])
  {
    Time1NightTexts();
    Time1NightFree();
    Time1NightPieces(subject, Text(Hour24, h), Text(Minute, mi), Text(Second, sec), frac);
    Time1Reads(h, mi, sec, frac, format);
  }

  /** "02:42:15.4" is 02:42:15. */
  lemma Time1Night(subject: string, format: string)
    requires subject == "02:42:15.4" && format == Time1Format
    ensures Parsed(subject, format) == Ok(DateTime(0, 1, 1, 2, 42, 15))
  {
    Time1NightFields(2, 42, 15, "4", subject, format);
  }

  /** The subject "32:42:15.4", cut where the pieces of the template are. */
  lemma Time1HourThirtyTwoPieces(subject: string, p0: string, p1: string, p2: string, frac: string)
    requires subject == "32:42:15.4" && p0 == "32" && p1 == "42" && p2 == "15" && frac == "4"
    ensures subject == (p0 + (":" + p1)) + (":" + (p2 + ".")) + frac
  {
  }

  /** How the field values of "32:42:15.4" are written. */
  lemma Time1HourThirtyTwoTexts()
    ensures Text(Hour24, 32) == "32" && Text(Minute, 42) == "42" && Text(Second, 15) == "15"
  {
    Hour24Text32();
    MinuteText42();
    SecondText15();
  }

  /** In "32:42:15.4", the fraction stands for "4", which is all digits. */
  lemma Time1HourThirtyTwoFree()
    ensures AllDigits("4")
  {
  }

  /** "32:42:15.4" is the template written with these field values. */
  lemma Time1HourThirtyTwoFields(h: nat, mi: nat, sec: nat, frac: string, subject: string, format: string)
    requires h == 32 && mi == 42 && sec == 15 && frac == "4"
    requires subject == "32:42:15.4" && format == Time1Format
    ensures Parsed(subject, format) == Build(map[Hour24 := h, Minute := mi, Second := sec])
  {
    Time1HourThirtyTwoTexts();
    Time1HourThirtyTwoFree();
    Time1HourThirtyTwoPieces(subject, Text(Hour24, h), Text(Minute, mi), Text(Second, sec), frac);
    Time1Reads(h, mi, sec, frac, format);
  }

  /** "32:42:15.4" has the right shape but names hour 32, which is rejected. */
  lemma Time1HourThirtyTwo(subject: string, format: string)
    requires subject == "32:42:15.4" && format == Time1Format
    ensures Parsed(subject, format) == Err(OutOfRange(Hour24))
  {
    Time1HourThirtyTwoFields(32, 42, 15, "4", subject, format);
  }

  /** The format the test suite calls `timeFormat2`. */
  const Time2Format := "%I:%M%p"

  /** The template of `Time2Format`, cut into blocks of at most three tokens. */
  lemma Time2Blocks() returns (t: seq<Token>, a: seq<Token>, b: seq<Token>)
    ensures a == [Field(Hour12), Literal(":")]
    ensures b == [Field(Minute), Field(Meridiem)]
    ensures t == a + b
  {
    a := [Field(Hour12), Literal(":")];
    b := [Field(Minute), Field(Meridiem)];
    t := a + b;
  }

  /** How the template renders, block by block and token by token. */
  lemma Time2Renders(t: seq<Token>, a: seq<Token>, b: seq<Token>)
    requires a == [Field(Hour12), Literal(":")]
    requires b == [Field(Minute), Field(Meridiem)]
    requires t == a + b
    ensures Render(t) == ("%I" + ":") + ("%M" + "%p")
  {
    assert Render(a[1..]) == ":";
    assert Render(b[1..]) == "%p";
    RenderAppend(a, b);
  }

  /** The table keys the template captures. */
  lemma Time2Keys(t: seq<Token>, a: seq<Token>, b: seq<Token>)
    requires a == [Field(Hour12), Literal(":")]
    requires b == [Field(Minute), Field(Meridiem)]
    requires t == a + b
    ensures Keys(t) == {Hour12, Minute, Meridiem}
  {
    assert Keys(a[1..]) == {};
    assert Keys(b[1..]) == {Meridiem};
    KeysAppend(a, b);
  }

  /** No literal of the template holds a `%`. */
  lemma Time2Plain()
    ensures '%' !in ":"
  {
  }

  /** The template meets the side conditions of the round trip. */
  lemma Time2Shape(t: seq<Token>, gap: string)
    requires t == [Field(Hour12), Literal(":"), Field(Minute), Field(Meridiem)]
    ensures WellFormed(t) && FractionsDelimited(t) && GapsClear(t, gap) && FixedWidth(t)
  {
    Time2Plain();
    WellFormedByIndex(t);
  }

  /** The format string, cut where its tokens are. */
  lemma Time2Spelling(format: string)
    requires format == Time2Format
    ensures format == ("%I" + ":") + ("%M" + "%p")
  {
  }

  /** The format compiles to exactly this template. */
  lemma Time2Compiles(format: string, t: seq<Token>, a: seq<Token>, b: seq<Token>)
    requires format == Time2Format
    requires a == [Field(Hour12), Literal(":")]
    requires b == [Field(Minute), Field(Meridiem)]
    requires t == a + b
    ensures Compile(format) == Ok(t) && Render(t) == format && Keys(t) == {Hour12, Minute, Meridiem}
  {
    Time2Renders(t, a, b);
    Time2Keys(t, a, b);
    Time2Shape(t, "");
    Time2Spelling(format);
    CompileInvertsRender(t);
  }

  /** What one block of the template writes for the given values. */
  lemma Time2WritesA(a: seq<Token>, h: nat, mi: nat, half: nat)
    requires a == [Field(Hour12), Literal(":")]
    requires h < 100 && mi < 100 && (half == AM || half == PM)
    ensures Writable(a, map[Hour12 := h, Minute := mi, Meridiem := half])
    ensures Emit(a, map[Hour12 := h, Minute := mi, Meridiem := half], "0", "") == Text(Hour12, h) + ":"
  {
    var v := map[Hour12 := h, Minute := mi, Meridiem := half];
    assert Emit(a[1..], v, "0", "") == ":";
  }

  /** What one block of the template writes for the given values. */
  lemma Time2WritesB(b: seq<Token>, h: nat, mi: nat, half: nat)
    requires b == [Field(Minute), Field(Meridiem)]
    requires h < 100 && mi < 100 && (half == AM || half == PM)
    ensures Writable(b, map[Hour12 := h, Minute := mi, Meridiem := half])
    ensures Emit(b, map[Hour12 := h, Minute := mi, Meridiem := half], "0", "") == Text(Minute, mi) + Text(Meridiem, half)
  {
    var v := map[Hour12 := h, Minute := mi, Meridiem := half];
    assert Emit(b[1..], v, "0", "") == Text(Meridiem, half);
  }

  /** What the whole template writes for the given values. */
  lemma Time2Writes(t: seq<Token>, a: seq<Token>, b: seq<Token>, h: nat, mi: nat, half: nat)
    requires a == [Field(Hour12), Literal(":")]
    requires b == [Field(Minute), Field(Meridiem)]
    requires t == a + b
    requires h < 100 && mi < 100 && (half == AM || half == PM)
    ensures Writable(t, map[Hour12 := h, Minute := mi, Meridiem := half])
    ensures Emit(t, map[Hour12 := h, Minute := mi, Meridiem := half], "0", "") == (Text(Hour12, h) + ":") + (Text(Minute, mi) + Text(Meridiem, half))
  {
    var v := map[Hour12 := h, Minute := mi, Meridiem := half];
    assert Writable(t, v);
    Time2WritesA(a, h, mi, half);
    Time2WritesB(b, h, mi, half);
    EmitAppend(a, b, v, "0", "");
  }

  /** The fields the values of the template are given for. */
  lemma Time2ValueKeys(h: nat, mi: nat, half: nat)
    ensures map[Hour12 := h, Minute := mi, Meridiem := half].Keys == {Hour12, Minute, Meridiem}
  {
  }

  /** What the template of `Time2Format` is and writes, in the terms of the round-trip lemma. */
  lemma Time2Template(h: nat, mi: nat, half: nat, format: string) returns (t: seq<Token>)
    requires format == Time2Format
    requires h < 100 && mi < 100 && (half == AM || half == PM)
    ensures Render(t) == format && map[Hour12 := h, Minute := mi, Meridiem := half].Keys == Keys(t)
    ensures WellFormed(t) && FractionsDelimited(t) && GapsClear(t, "")
    ensures Writable(t, map[Hour12 := h, Minute := mi, Meridiem := half])
    ensures Emit(t, map[Hour12 := h, Minute := mi, Meridiem := half], "0", "") == (Text(Hour12, h) + ":") + (Text(Minute, mi) + Text(Meridiem, half))
  {
    var a, b;
    t, a, b := Time2Blocks();
    Time2Compiles(format, t, a, b);
    Time2Shape(t, "");
    Time2ValueKeys(h, mi, half);
    Time2Writes(t, a, b, h, mi, half);
  }

  /** Any time written on the 12-hour clock reads back through the 12-hour conversion. */
  lemma Time2Reads(h: nat, mi: nat, half: nat, format: string)
    requires format == Time2Format
    requires h < 100 && mi < 100 && (half == AM || half == PM)
    ensures Parsed((Text(Hour12, h) + ":") + (Text(Minute, mi) + Text(Meridiem, half)), format) == Build(map[Hour12 := h, Minute := mi, Meridiem := half])
  {
    var t := Time2Template(h, mi, half, format);
    ParseWritten(t, map[Hour12 := h, Minute := mi, Meridiem := half], "0", "", (Text(Hour12, h) + ":") + (Text(Minute, mi) + Text(Meridiem, half)), format);
  }

  /** The timestamp the calendar builds from the fields of a real date or time. */
  lemma Time2Builds(h: nat, mi: nat, half: nat)
    requires 1 <= h <= 12 && mi < 60 && (half == AM || half == PM)
    ensures Build(map[Hour12 := h, Minute := mi, Meridiem := half]) == Ok(DateTime(0, 1, 1, To24Hour(h, half), mi, 0))
  {
    BuildExact(map[Hour12 := h, Minute := mi, Meridiem := half], DateTime(0, 1, 1, To24Hour(h, half), mi, 0));
  }

  /** Every real time on the 12-hour clock parses to its 24-hour equivalent: twelve in the morning is hour 0, the afternoon adds twelve to the other hours. */
  lemma Time2Valid(h: nat, mi: nat, half: nat, format: string)
    requires format == Time2Format
    requires 1 <= h <= 12 && mi < 60 && (half == AM || half == PM)
    ensures Parsed((Text(Hour12, h) + ":") + (Text(Minute, mi) + Text(Meridiem, half)), format) == Ok(DateTime(0, 1, 1, To24Hour(h, half), mi, 0))
  {
    Time2Reads(h, mi, half, format);
    Time2Builds(h, mi, half);
  }

  /** The subject "11:42am", cut where the pieces of the template are. */
  lemma Time2MorningPieces(subject: string, p0: string, p1: string, p2: string)
    requires subject == "11:42am" && p0 == "11" && p1 == "42" && p2 == "am"
    ensures subject == (p0 + ":") + (p1 + p2)
  {
  }

  /** How the field values of "11:42am" are written. */
  lemma Time2MorningTexts()
    ensures Text(Hour12, 11) == "11" && Text(Minute, 42) == "42" && Text(Meridiem, AM) == "am"
  {
    Hour12Text11();
    MinuteText42();
    MeridiemTextAm();
  }

  /** "11:42am" is the template written with these field values. */
  lemma Time2MorningFields(h: nat, mi: nat, half: nat, subject: string, format: string)
    requires h == 11 && mi == 42 && half == AM
    requires subject == "11:42am" && format == Time2Format
    ensures Parsed(subject, format) == Build(map[Hour12 := h, Minute := mi, Meridiem := half])
  {
    Time2MorningTexts();
    Time2MorningPieces(subject, Text(Hour12, h), Text(Minute, mi), Text(Meridiem, half));
    Time2Reads(h, mi, half, format);
  }

  /** "11:42am" is 11:42. */
  lemma Time2Morning(subject: string, format: string)
    requires subject == "11:42am" && format == Time2Format
    ensures Parsed(subject, format) == Ok(DateTime(0, 1, 1, 11, 42, 0))
  {
    Time2MorningFields(11, 42, AM, subject, format);
  }

  /** The subject "11:42pm", cut where the pieces of the template are. */
  lemma Time2EveningPieces(subject: string, p0: string, p1: string, p2: string)
    requires subject == "11:42pm" && p0 == "11" && p1 == "42" && p2 == "pm"
    ensures subject == (p0 + ":") + (p1 + p2)
  {
  }

  /** How the field values of "11:42pm" are written. */
  lemma Time2EveningTexts()
    ensures Text(Hour12, 11) == "11" && Text(Minute, 42) == "42" && Text(Meridiem, PM) == "pm"
  {
    Hour12Text11();
    MinuteText42();
    MeridiemTextPm();
  }

  /** "11:42pm" is the template written with these field values. */
  lemma Time2EveningFields(h: nat, mi: nat, half: nat, subject: string, format: string)
    requires h == 11 && mi == 42 && half == PM
    requires subject == "11:42pm" && format == Time2Format
    ensures Parsed(subject, format) == Build(map[Hour12 := h, Minute := mi, Meridiem := half])
  {
    Time2EveningTexts();
    Time2EveningPieces(subject, Text(Hour12, h), Text(Minute, mi), Text(Meridiem, half));
    Time2Reads(h, mi, half, format);
  }

  /** "11:42pm" is 23:42. */
  lemma Time2Evening(subject: string, format: string)
    requires subject == "11:42pm" && format == Time2Format
    ensures Parsed(subject, format) == Ok(DateTime(0, 1, 1, 23, 42, 0))
  {
    Time2EveningFields(11, 42, PM, subject, format);
  }

  /** The subject "12:02am", cut where the pieces of the template are. */
  lemma Time2MidnightPieces(subject: string, p0: string, p1: string, p2: string)
    requires subject == "12:02am" && p0 == "12" && p1 == "02" && p2 == "am"
    ensures subject == (p0 + ":") + (p1 + p2)
  {
  }

  /** How the field values of "12:02am" are written. */
  lemma Time2MidnightTexts()
    ensures Text(Hour12, 12) == "12" && Text(Minute, 2) == "02" && Text(Meridiem, AM) == "am"
  {
    Hour12Text12();
    MinuteText02();
    MeridiemTextAm();
  }

  /** "12:02am" is the template written with these field values. */
  lemma Time2MidnightFields(h: nat, mi: nat, half: nat, subject: string, format: string)
    requires h == 12 && mi == 2 && half == AM
    requires subject == "12:02am" && format == Time2Format
    ensures Parsed(subject, format) == Build(map[Hour12 := h, Minute := mi, Meridiem := half])
  {
    Time2MidnightTexts();
    Time2MidnightPieces(subject, Text(Hour12, h), Text(Minute, mi), Text(Meridiem, half));
    Time2Reads(h, mi, half, format);
  }

  /** "12:02am" is 00:02: twelve in the morning is hour zero. */
  lemma Time2Midnight(subject: string, format: string)
    requires subject == "12:02am" && format == Time2Format
    ensures Parsed(subject, format) == Ok(DateTime(0, 1, 1, 0, 2, 0))
  {
    Time2MidnightFields(12, 2, AM, subject, format);
  }

  /** The subject "12:02pm", cut where the pieces of the template are. */
  lemma Time2NoonPieces(subject: string, p0: string, p1: string, p2: string)
    requires subject == "12:02pm" && p0 == "12" && p1 == "02" && p2 == "pm"
    ensures subject == (p0 + ":") + (p1 + p2)
  {
  }

  /** How the field values of "12:02pm" are written. */
  lemma Time2NoonTexts()
    ensures Text(Hour12, 12) == "12" && Text(Minute, 2) == "02" && Text(Meridiem, PM) == "pm"
  {
    Hour12Text12();
    MinuteText02();
    MeridiemTextPm();
  }

  /** "12:02pm" is the template written with these field values. */
  lemma Time2NoonFields(h: nat, mi: nat, half: nat, subject: string, format: string)
    requires h == 12 && mi == 2 && half == PM
    requires subject == "12:02pm" && format == Time2Format
    ensures Parsed(subject, format) == Build(map[Hour12 := h, Minute := mi, Meridiem := half])
  {
    Time2NoonTexts();
    Time2NoonPieces(subject, Text(Hour12, h), Text(Minute, mi), Text(Meridiem, half));
    Time2Reads(h, mi, half, format);
  }

  /** "12:02pm" is 12:02: twelve in the afternoon stays twelve. */
  lemma Time2Noon(subject: string, format: string)
    requires subject == "12:02pm" && format == Time2Format
    ensures Parsed(subject, format) == Ok(DateTime(0, 1, 1, 12, 2, 0))
  {
    Time2NoonFields(12, 2, PM, subject, format);
  }

  /** The subject "00:02am", cut where the pieces of the template are. */
  lemma Time2ZeroMorningPieces(subject: string, p0: string, p1: string, p2: string)
    requires subject == "00:02am" && p0 == "00" && p1 == "02" && p2 == "am"
    ensures subject == (p0 + ":") + (p1 + p2)
  {
  }

  /** How the field values of "00:02am" are written. */
  lemma Time2ZeroMorningTexts()
    ensures Text(Hour12, 0) == "00" && Text(Minute, 2) == "02" && Text(Meridiem, AM) == "am"
  {
    Hour12Text00();
    MinuteText02();
    MeridiemTextAm();
  }

  /** "00:02am" is the template written with these field values. */
  lemma Time2ZeroMorningFields(h: nat, mi: nat, half: nat, subject: string, format: string)
    requires h == 0 && mi == 2 && half == AM
    requires subject == "00:02am" && format == Time2Format
    ensures Parsed(subject, format) == Build(map[Hour12 := h, Minute := mi, Meridiem := half])
  {
    Time2ZeroMorningTexts();
    Time2ZeroMorningPieces(subject, Text(Hour12, h), Text(Minute, mi), Text(Meridiem, half));
    Time2Reads(h, mi, half, format);
  }

  /** "00:02am" names hour 0 on the 12-hour clock, which this model rejects; the Go package's tests leave the outcome open. */
  lemma Time2ZeroMorning(subject: string, format: string)
    requires subject == "00:02am" && format == Time2Format
    ensures Parsed(subject, format) == Err(OutOfRange(Hour12))
  {
    Time2ZeroMorningFields(0, 2, AM, subject, format);
  }

  /** The subject "00:02pm", cut where the pieces of the template are. */
  lemma Time2ZeroAfternoonPieces(subject: string, p0: string, p1: string, p2: string)
    requires subject == "00:02pm" && p0 == "00" && p1 == "02" && p2 == "pm"
    ensures subject == (p0 + ":") + (p1 + p2)
  {
  }

  /** How the field values of "00:02pm" are written. */
  lemma Time2ZeroAfternoonTexts()
    ensures Text(Hour12, 0) == "00" && Text(Minute, 2) == "02" && Text(Meridiem, PM) == "pm"
  {
    Hour12Text00();
    MinuteText02();
    MeridiemTextPm();
  }

  /** "00:02pm" is the template written with these field values. */
  lemma Time2ZeroAfternoonFields(h: nat, mi: nat, half: nat, subject: string, format: string)
    requires h == 0 && mi == 2 && half == PM
    requires subject == "00:02pm" && format == Time2Format
    ensures Parsed(subject, format) == Build(map[Hour12 := h, Minute := mi, Meridiem := half])
  {
    Time2ZeroAfternoonTexts();
    Time2ZeroAfternoonPieces(subject, Text(Hour12, h), Text(Minute, mi), Text(Meridiem, half));
    Time2Reads(h, mi, half, format);
  }

  /** "00:02pm" is rejected for the same reason. */
  lemma Time2ZeroAfternoon(subject: string, format: string)
    requires subject == "00:02pm" && format == Time2Format
    ensures Parsed(subject, format) == Err(OutOfRange(Hour12))
  {
    Time2ZeroAfternoonFields(0, 2, PM, subject, format);
  }
}
