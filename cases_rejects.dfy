/** The subjects the test suite expects to be rejected for their shape:
    a literal that differs, a literal that never occurs, a subject of the
    wrong length, and digits where a month name belongs. Each case first
    fixes what the format compiles to, then how the matcher fails on the
    subject, then joins the two. */
module RejectedCases {
  import opened Common
  import opened Format
  import opened Lexing
  import opened Matcher
  import opened MatcherFacts
  import opened RoundTrip
  import opened Strptime
  import opened DatePathExamples
  import opened DateExamples

  /** What the first date-path template starts with. */
  lemma DatePath1Head(format: string) returns (t: seq<Token>)
    requires format == DatePath1Format
    ensures Compile(format) == Ok(t) && t != [] && t[0] == Literal("/path/with/dates/")
  {
    var a, b;
    t, a, b := DatePath1Blocks();
    DatePath1Compiles(format, t, a, b);
  }

  lemma DatePath1UnmatchedScan(subject: string, t: seq<Token>)
    requires subject == "/unmatched/path/with/dates/2012/04/28"
    requires t != [] && t[0] == Literal("/path/with/dates/")
    ensures Scan(t, subject, 0, map[]) == Err(LiteralMismatch(0))
  {
    LiteralByteMismatch(t, subject, 0, map[], 1);
  }

  /** A subject with an extra leading segment fails on the template's first
      literal, at the very start. */
  lemma DatePath1Unmatched(subject: string, format: string)
    requires subject == "/unmatched/path/with/dates/2012/04/28" && format == DatePath1Format
    ensures Parsed(subject, format) == Err(LiteralMismatch(0))
  {
    var t := DatePath1Head(format);
    DatePath1UnmatchedScan(subject, t);
    MatchErrorIsParseError(subject, format, t, LiteralMismatch(0));
  }

  /** What the trailing-wildcard blog template starts with. */
  lemma DatePath2Head(format: string) returns (t: seq<Token>)
    requires format == DatePath2Format
    ensures Compile(format) == Ok(t) && t != [] && t[0] == Literal("/blog/")
  {
    var a, b, c;
    t, a, b, c := DatePath2Blocks();
    DatePath2Compiles(format, t, a, b, c);
  }

  /** What the paged blog template starts with, and the literal that ends it. */
  lemma DatePath3Head(format: string) returns (t: seq<Token>)
    requires format == DatePath3Format
    ensures Compile(format) == Ok(t) && |t| == 9 && t[0] == Literal("/blog/") && t[8] == Literal("/page2")
  {
    var a, b, c;
    t, a, b, c := DatePath3Blocks();
    DatePath3Compiles(format, t, a, b, c);
  }

  lemma BadBlogScan(subject: string, t: seq<Token>)
    requires subject == "/badblog/2012/04/28/a-post-slug" || subject == "/badblog/2012/04/28/a-post-slug/page2"
    requires t != [] && t[0] == Literal("/blog/")
    ensures Scan(t, subject, 0, map[]) == Err(LiteralMismatch(0))
  {
    LiteralByteMismatch(t, subject, 0, map[], 2);
  }

  /** "/badblog/" is not "/blog/": the blog template fails at the start. */
  lemma DatePath2BadBlog(subject: string, format: string)
    requires subject == "/badblog/2012/04/28/a-post-slug" && format == DatePath2Format
    ensures Parsed(subject, format) == Err(LiteralMismatch(0))
  {
    var t := DatePath2Head(format);
    BadBlogScan(subject, t);
    MatchErrorIsParseError(subject, format, t, LiteralMismatch(0));
  }

  /** The paged blog template fails on "/badblog/" the same way. */
  lemma DatePath3BadBlog(subject: string, format: string)
    requires subject == "/badblog/2012/04/28/a-post-slug/page2" && format == DatePath3Format
    ensures Parsed(subject, format) == Err(LiteralMismatch(0))
  {
    var t := DatePath3Head(format);
    BadBlogScan(subject, t);
    MatchErrorIsParseError(subject, format, t, LiteralMismatch(0));
  }

  lemma DatePath3NoPageScan(subject: string, t: seq<Token>)
    requires subject == "/blog/2012/04/28/a-post-slug"
    requires |t| == 9 && t[8] == Literal("/page2")
    ensures Scan(t, subject, 0, map[]).Err?
  {
    assert 'e' !in subject;
    forall j: nat ensures !At(subject, j, t[8].text) {
      AbsentCharNotAt(subject, t[8].text, 'e', j);
    }
    MissingLiteralFails(t, subject, 8);
  }

  /** The wildcard of the paged blog template must find "/page2"; a subject
      without it is rejected. */
  lemma DatePath3NoPage(subject: string, format: string)
    requires subject == "/blog/2012/04/28/a-post-slug" && format == DatePath3Format
    ensures Parsed(subject, format).Err?
  {
    var t := DatePath3Head(format);
    DatePath3NoPageScan(subject, t);
    MatchErrorIsParseError(subject, format, t, Scan(t, subject, 0, map[]).error);
  }

  /** What the template with the long literal prefix starts with. */
  lemma DatePath4Head(format: string) returns (t: seq<Token>)
    requires format == DatePath4Format
    ensures Compile(format) == Ok(t) && t != [] && t[0] == Literal("/random/02/03/-0700/numbers/")
  {
    var a, b;
    t, a, b := DatePath4Blocks();
    DatePath4Compiles(format, t, a, b);
  }

  lemma DatePath4OtherOffsetScan(subject: string, t: seq<Token>)
    requires subject == "/random/04/28/-0500/numbers/2012/04/28"
    requires t != [] && t[0] == Literal("/random/02/03/-0700/numbers/")
    ensures Scan(t, subject, 0, map[]) == Err(LiteralMismatch(0))
  {
    LiteralByteMismatch(t, subject, 0, map[], 9);
  }

  /** Digits inside a literal are compared, not read: "04/28/-0500" differs
      from the template's "02/03/-0700". */
  lemma DatePath4OtherOffset(subject: string, format: string)
    requires subject == "/random/04/28/-0500/numbers/2012/04/28" && format == DatePath4Format
    ensures Parsed(subject, format) == Err(LiteralMismatch(0))
  {
    var t := DatePath4Head(format);
    DatePath4OtherOffsetScan(subject, t);
    MatchErrorIsParseError(subject, format, t, LiteralMismatch(0));
  }

  /** "%Y%m%d" is fixed-width and takes eight characters. */
  lemma Date1Head(format: string) returns (t: seq<Token>)
    requires format == Date1Format
    ensures Compile(format) == Ok(t) && FixedWidth(t) && MinLength(t) == 8
  {
    var a;
    t, a := Date1Blocks();
    Date1Compiles(format, t, a);
    Date1Shape(t, "");
    assert MinLength(t[2..]) == 2;
    assert MinLength(t[1..]) == 4;
  }

  /** Seven digits cannot fill "%Y%m%d", which takes exactly eight. */
  lemma Date1Short(subject: string, format: string)
    requires subject == "2012111" && format == Date1Format
    ensures Parsed(subject, format).Err?
  {
    var t := Date1Head(format);
    WrongLengthFails(t, subject);
    MatchErrorIsParseError(subject, format, t, Scan(t, subject, 0, map[]).error);
  }

  /** "%b%d%Y" opens with a month name. */
  lemma Date2Head(format: string) returns (t: seq<Token>)
    requires format == Date2Format
    ensures Compile(format) == Ok(t) && t != [] && t[0] == Field(MonthName)
  {
    var a;
    t, a := Date2Blocks();
    Date2Compiles(format, t, a);
  }

  lemma DigitsFirstScan(subject: string, t: seq<Token>)
    requires |subject| >= 3 && IsDigit(subject[0])
    requires t != [] && t[0] == Field(MonthName)
    ensures Scan(t, subject, 0, map[]) == Err(FieldShape(0))
  {
    DigitStartsNoMonth(subject[0..3]);
  }

  /** A subject that opens with digits has no month abbreviation to read. */
  lemma Date2Short(subject: string, format: string)
    requires subject == "2012111" && format == Date2Format
    ensures Parsed(subject, format) == Err(FieldShape(0))
  {
    var t := Date2Head(format);
    DigitsFirstScan(subject, t);
    MatchErrorIsParseError(subject, format, t, FieldShape(0));
  }

  /** "04042012" is rejected the same way: "%b" does not read digits. */
  lemma Date2Digits(subject: string, format: string)
    requires subject == "04042012" && format == Date2Format
    ensures Parsed(subject, format) == Err(FieldShape(0))
  {
    var t := Date2Head(format);
    DigitsFirstScan(subject, t);
    MatchErrorIsParseError(subject, format, t, FieldShape(0));
  }

  /** "%b%d" is fixed-width and takes five characters. */
  lemma Date3Head(format: string) returns (t: seq<Token>)
    requires format == Date3Format
    ensures Compile(format) == Ok(t) && FixedWidth(t) && MinLength(t) == 5
  {
    var a;
    t, a := Date3Blocks();
    Date3Compiles(format, t, a);
    Date3Shape(t, "");
    assert MinLength(t[1..]) == 2;
  }

  /** "%b%d" takes exactly five characters, so "Apr2012" has input left over. */
  lemma Date3Long(subject: string, format: string)
    requires subject == "Apr2012" && format == Date3Format
    ensures Parsed(subject, format).Err?
  {
    var t := Date3Head(format);
    WrongLengthFails(t, subject);
    MatchErrorIsParseError(subject, format, t, Scan(t, subject, 0, map[]).error);
  }
}
