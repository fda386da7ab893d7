/**
 * The package's one operation: parse a subject against a format template
 * into a timestamp, or fail with one specific error.
 */
module Strptime {
  import opened Common
  import opened Format
  import opened Lexing
  import opened Calendar
  import opened Matcher
  import opened RoundTrip

  /** What parsing `subject` against `format` yields: compile the format,
      match the tokens from the start of the subject with an empty table,
      then build the timestamp from the captured fields. */
  function Parsed(subject: string, format: string): Result<DateTime>
  {
    match Compile(format)
    case Err(e) => Err(e)
    case Ok(toks) =>
      match Scan(toks, subject, 0, map[])
      case Err(e) => Err(e)
      case Ok(t) => Build(t)
  }

  /** Parses `subject` against `format`. A success is always a real calendar
      date and time of day. */
  method Parse(subject: string, format: string) returns (r: Result<DateTime>)
    ensures r == Parsed(subject, format)
    ensures r.Ok? ==> Valid(r.value)
  {
    var compiled := Compile(format);
    if compiled.Err? {
      return Err(compiled.error);
    }
    var matched := Match(compiled.value, subject);
    if matched.Err? {
      return Err(matched.error);
    }
    r := Build(matched.value);
  }

  /** A format that compiles and a subject its tokens do not match: the
      parse fails with the matcher's own error. */
  lemma MatchErrorIsParseError(subject: string, format: string, toks: seq<Token>, e: Error)
    requires Compile(format) == Ok(toks) && Scan(toks, subject, 0, map[]) == Err(e)
    ensures Parsed(subject, format) == Err(e)
  {
  }

  /** The first `%p` the matcher stores decides the half of the day that
      `Build` converts a `%I` hour with: the afternoon exactly when the
      subject says pm, in any letter case. */
  lemma MeridiemDecidesHalf(t: Table, s: string, pos: nat, c: Capture)
    requires pos <= |s| && Read(Meridiem, s, pos) == Ok(c) && Meridiem !in t
    ensures HalfOf(Store(t, Meridiem, c.value)) == c.value
    ensures HalfOf(Store(t, Meridiem, c.value)) == PM <==> [Lower(s[pos]), Lower(s[pos + 1])] == "pm"
  {
    ReadIsText(Meridiem, s, pos, c);
  }

  /** Render-then-parse for whole calls: parsing a subject written from a
      template, against that template's own format string, gives the
      timestamp built from exactly the written values of its fields. */
  lemma ParseRendered(toks: seq<Token>, v: Table, frac: string, gap: string)
    requires WellFormed(toks) && Writable(toks, v) && FractionsDelimited(toks) && GapsClear(toks, gap)
    requires frac != [] && AllDigits(frac)
    ensures Parsed(Emit(toks, v, frac, gap), Render(toks)) == Build(Restrict(v, Keys(toks)))
  {
    CompileInvertsRender(toks);
    EmittedMatches(toks, v, frac, gap);
  }

  /** The same, for a table that sets exactly the template's fields: the
      subject parses to the timestamp built from that table. */
  lemma ParseWritten(toks: seq<Token>, v: Table, frac: string, gap: string, subject: string, format: string)
    requires WellFormed(toks) && Writable(toks, v) && FractionsDelimited(toks) && GapsClear(toks, gap)
    requires frac != [] && AllDigits(frac)
    requires format == Render(toks) && subject == Emit(toks, v, frac, gap) && v.Keys == Keys(toks)
    ensures Parsed(subject, format) == Build(v)
  {
    ParseRendered(toks, v, frac, gap);
    RestrictToAllKeys(v, Keys(toks));
  }
}
