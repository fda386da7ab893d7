# strptime, modelled in Dafny

A model of the `strptime` Go package (`Parse(subject, format)`). `Parse` reads a
timestamp out of a string by matching it against a C-style format template.
The template mixes:

- literal text;
- fixed-width field directives (`%Y %m %d %H %I %M %S %b %p`);
- a digit-run directive `%f`;
- the wildcard `%-`, which skips free text.

The behaviour modelled is the one the package's test suite fixes
(`strptime_test.go`).

The model has three stages, as the package does:

- **Template compiler** (`format.dfy`, module `Format`): a format string
  becomes a sequence of `Token`s. A token is a literal run, a field, or the
  wildcard. `Compile` is proved to render back to its input, and to invert
  rendering on every well-formed template.
- **Match/extract engine** (`lexing.dfy`, `matcher.dfy`): `Match` is a loop
  over the tokens with a cursor into the subject. It fills a field table
  (`map<Kind, nat>`) and is proved equal to the recursive specification
  `Scan`. `Search` is the forward scan a wildcard uses to find the next
  literal, proved equal to `Find`. `Read` reads one field at the cursor.
- **Calendar construction** (`calendar.dfy`): `Build` turns the table into a
  `DateTime`. Absent fields take defaults (year 0, month 1, day 1, midnight),
  `%I`/`%p` go through the 12-hour conversion, and every value is
  range-checked, the day against its month and year.

Beyond this:

- `Parse` in `strptime.dfy` composes the three stages. Its result is a real
  date and time whenever it succeeds.
- `roundtrip.dfy` proves the general round trip for the engine
  (`RoundTrip.EmittedMatches`), and `strptime.dfy` lifts it to whole calls
  (`Strptime.ParseRendered`). Take a well-formed template and a table of
  values that fit their fields. Write each field's value, one text of
  digits wherever `%f` stands, and one gap text wherever `%-` stands. The
  result must satisfy two conditions:
  - a `%f` run is followed by the end or by a literal that does not start
    with a digit (`FractionsDelimited`);
  - the gap text cannot hide the literal that follows the wildcard
    (`GapsClear`).
  Then parsing the written subject against the template's own format string
  gives `Build` applied to the written values of the template's fields.
  That is the timestamp those values name, or a range error when they name
  no real date, such as 31 April.
- The `cases_*.dfy` files apply that round trip to each format of the test
  suite. For each format they prove:
  - a statement for all inputs (`…Reads`, `…Valid`);
  - every expectation of the suite, on its exact subject;
  - the rejections, in `cases_rejects.dfy`.
- `written_fields.dfy` (module `WrittenFields`) states how each field value
  that occurs in these cases is written.

## Model

| member | source | states |
|---|---|---|
| Format.Directive | strptime_test.go:11-15 | `%-` is the wildcard, and each field kind has exactly one directive letter (both directions) |
| Format.Compile | strptime_test.go:11-15 | a format that compiles yields a well-formed template that renders back to exactly that format |
| Format.CompileInvertsRender | strptime_test.go:95-97 | every well-formed template's format string compiles back to that very template |
| Lexing.DigitRun | strptime_test.go:176-187 | the `%f` run is all digits and maximal: it ends at the end of the subject or at a non-digit |
| Lexing.ValueOfDigits | strptime_test.go:99-104 | reading back the zero-padded digits of a number that fits the width gives the number |
| Lexing.DigitsOfValue | strptime_test.go:105-110 | writing out a digit string's value at its own width gives the string back |
| Lexing.MonthNumber | strptime_test.go:123-128 | a found month number is in 1..12 and its abbreviation is the name; no number means the name is not an abbreviation |
| Lexing.MonthAbbrevsDistinct | strptime_test.go:123-134 | the twelve abbreviations are pairwise distinct |
| Lexing.ReadMonthName | strptime_test.go:123-134 | each abbreviation reads as its own month |
| Lexing.DigitStartsNoMonth | strptime_test.go:136-143 | a name starting with a digit is no month |
| Lexing.HalfOfDay | strptime_test.go:193-204 | am in any letter case is AM, pm in any letter case is PM, nothing else is read |
| Lexing.Read | strptime_test.go:99-119 | a read field stays inside the subject and takes exactly its width (`%f` at least one digit); a failure is a shape error at the cursor |
| Lexing.ReadIsText | strptime_test.go:99-143 | a successful read consumed exactly the written text of the value it captured, and that value fits the field; `%p` matches am or pm in any letter case; `%f` takes the whole digit run |
| Lexing.ReadText | strptime_test.go:99-110 | reading a field's written text gives back the value and the field width |
| Lexing.ReadFraction | strptime_test.go:176-187 | `%f` takes a whole digit run that ends where the digits end |
| Calendar.DaysInMonth | strptime_test.go:116-119 | a month has 28..31 days; 29 exactly for February of a leap year, 28 exactly for February otherwise |
| Calendar.To24Hour | strptime_test.go:193-217 | the 24-hour hour is below 24, is 12 or more exactly in the afternoon, and agrees with the 12-hour hour modulo 12 |
| Calendar.From24Hour | strptime_test.go:193-217 | every hour of the day has a 12-hour reading in 1..12 with a meridiem |
| Calendar.ClockRoundTrip | strptime_test.go:193-217 | the two clock conversions invert each other |
| Calendar.HalfOf | strptime_test.go:193-204 | the half of the day is the captured `%p`, or am when no `%p` was captured |
| Calendar.Build | strptime_test.go:99-227 | a built timestamp is valid and carries the captured fields, or their defaults: year 0, month 1, day 1, hour 0 (the `%H` hour, or the converted `%I` hour when there is no `%H`); every failure is a range error |
| Calendar.BuildExact | strptime_test.go:99-227 | a valid timestamp whose fields the table holds (or leaves at their defaults) is exactly what is built from it, whichever clock the hour was read on |
| Calendar.BuildRecovers | strptime_test.go:229-242 | every valid timestamp with a non-negative year is built back from its own fields, on either clock |
| Calendar.DayIsNotRolledOver | strptime_test.go:116-119 | a day past the end of its month is an error, not a date in the next month |
| Matcher.Store | strptime_test.go:123-134 | a `%f` stores nothing; otherwise the key (`%b` shares `Month`) holds its first capture and no other key changes |
| Matcher.Find | strptime_test.go:48-53 | the found position holds the text and no earlier position does; no position means no occurrence at all |
| Matcher.NoPairNotAt | strptime_test.go:48-53 | a text whose first two characters never stand side by side in a string occurs nowhere in it |
| Matcher.Search | strptime_test.go:48-58 | the forward scan loop returns exactly `Find` |
| Matcher.Match | strptime_test.go:17-89 | the token loop with its cursor and table returns exactly `Scan` from the start with an empty table |
| MatcherFacts.ScanNeedsLength | strptime_test.go:112-115 | a successful match never reads past the end: the subject holds at least the template's minimum length |
| MatcherFacts.ShortSubjectFails | strptime_test.go:112-115 | a subject shorter than the template's minimum length is an error |
| MatcherFacts.ScanFixedLength | strptime_test.go:160-163 | a template without wildcard or `%f` only matches a subject of exactly its length |
| MatcherFacts.WrongLengthFails | strptime_test.go:112-115 | such a template rejects every subject of any other length |
| MatcherFacts.ScanFindsLiterals | strptime_test.go:55-58 | every literal of a matched template occurs in the subject |
| MatcherFacts.MissingLiteralFails | strptime_test.go:55-58 | a template whose literal never occurs in the subject rejects it |
| MatcherFacts.LiteralByteMismatch | strptime_test.go:24-27 | literals match byte for byte: one differing character is a literal mismatch at the cursor |
| MatcherFacts.AbsentCharNotAt | strptime_test.go:55-58 | a text holding a character the string lacks occurs nowhere in it |
| MatcherFacts.WildcardSkipsToLiteral | strptime_test.go:48-58 | a wildcard before a literal resumes at the literal's earliest occurrence, whatever precedes it, and fails when the literal never occurs |
| MatcherFacts.TrailingWildcardTakesRest | strptime_test.go:29-46 | a final wildcard accepts the rest of the subject, whatever it holds |
| RoundTrip.ClearByPairs | strptime_test.go:77-88 | when the literal's first two characters differ, a gap free of those two characters side by side cannot hide the literal |
| RoundTrip.ScanEmitted | strptime_test.go:99-110 | matching the text written from a table, from any cursor, captures exactly the written values of the template's fields |
| RoundTrip.EmittedMatches | strptime_test.go:99-110 | matching a written template from the start yields the written table restricted to the template's keys |
| Strptime.Parse | strptime_test.go:17-22 | parsing is compile, match, build, and a success is always a real date and time of day |
| Strptime.MatchErrorIsParseError | strptime_test.go:24-27 | a compiled format whose tokens reject the subject makes the parse fail with the matcher's error |
| Strptime.MeridiemDecidesHalf | strptime_test.go:193-217 | the `%p` the matcher stores is the half `Build` converts with: the afternoon exactly when the subject says pm |
| Strptime.ParseRendered | strptime_test.go:99-110 | parsing text written from a template, against that template's own format string, gives `Build` of the written values of its fields, when the values fit their fields, every `%f` run is delimited and the gap text cannot hide the literal after the wildcard |
| Strptime.ParseWritten | strptime_test.go:99-110 | the same, for a table that sets exactly the template's fields |
| DatePathExamples.DatePath1Reads | strptime_test.go:11 | any date written into `/path/with/dates/%Y/%m/%d` parses as the timestamp built from it |
| DatePathExamples.DatePath1Valid | strptime_test.go:17-22 | every real calendar date written into that template parses to exactly that date |
| DatePathExamples.DatePath1Dated | strptime_test.go:17-22 | `/path/with/dates/2012/04/28` is 28 April 2012 |
| DatePathExamples.DatePath2Reads | strptime_test.go:12 | any date and any tail written into `/blog/%Y/%m/%d/%-` parse as that date |
| DatePathExamples.DatePath2Valid | strptime_test.go:29-46 | every real date with any tail parses to exactly that date |
| DatePathExamples.DatePath2Slug | strptime_test.go:29-34 | the slug path is 22 April 2012 |
| DatePathExamples.DatePath2Page | strptime_test.go:41-46 | the final wildcard also swallows `/page2`: 28 April 2012 |
| DatePathExamples.DatePath3Reads | strptime_test.go:13 | any date and any slug free of "/p" parse as that date against `/blog/%Y/%m/%d/%-/page2` |
| DatePathExamples.DatePath3Valid | strptime_test.go:48-53 | every real date with such a slug parses to exactly that date |
| DatePathExamples.DatePath3Slug | strptime_test.go:48-53 | the wildcard stops at `/page2`: 22 April 2012 |
| DatePathExamples.DatePath4Reads | strptime_test.go:14 | any date after the literal prefix with digits parses as that date |
| DatePathExamples.DatePath4Valid | strptime_test.go:65-70 | every real date after that prefix parses to exactly that date |
| DatePathExamples.DatePath4Dated | strptime_test.go:65-70 | digits inside a literal are matched as text: 28 April 2012 |
| DatePathExamples.DatePath5Reads | strptime_test.go:15 | any date after a wildcard segment free of "/n" parses as that date against `/random/%-/numbers/%Y/%m/%d` |
| DatePathExamples.DatePath5Valid | strptime_test.go:77-89 | every real date after such a segment parses to exactly that date |
| DatePathExamples.DatePath5First | strptime_test.go:77-82 | a middle wildcard skips `02/03/-0700`: 22 April 2012 |
| DatePathExamples.DatePath5Second | strptime_test.go:84-89 | a middle wildcard skips `04/28/-0500`: 28 April 2012 |
| DateExamples.Date1Reads | strptime_test.go:95 | any date written as `%Y%m%d` parses as the timestamp built from it |
| DateExamples.Date1Valid | strptime_test.go:99-110 | every real date written as eight digits parses to exactly that date |
| DateExamples.Date1April | strptime_test.go:99-104 | `20120428` is 28 April 2012 |
| DateExamples.Date1November | strptime_test.go:105-110 | `20121111` is 11 November 2012 |
| DateExamples.Date1DayForty | strptime_test.go:116-119 | `20120440` fails with a day range error |
| DateExamples.Date2Reads | strptime_test.go:96 | any date written as `%b%d%Y` parses as the timestamp built from it |
| DateExamples.Date2Valid | strptime_test.go:123-134 | every real date written that way parses to exactly that date |
| DateExamples.Date2April | strptime_test.go:123-128 | `Apr152012` is 15 April 2012 |
| DateExamples.Date2EarlyYear | strptime_test.go:129-134 | `Apr201211` is 20 April 1211 |
| DateExamples.Date3Reads | strptime_test.go:97 | any month abbreviation and day parse as the timestamp built from them |
| DateExamples.Date3Valid | strptime_test.go:147-158 | every real day of a month parses to that day in year 0 |
| DateExamples.Date3April15 | strptime_test.go:147-152 | `Apr15` is 15 April of year 0 |
| DateExamples.Date3April20 | strptime_test.go:153-158 | `Apr20` is 20 April of year 0 |
| DateExamples.Date3DayZero | strptime_test.go:164-167 | `Apr00` fails with a day range error (a chosen policy, see below) |
| TimeExamples.Time1Reads | strptime_test.go:173 | any time and fraction written as `%H:%M:%S.%f` parse as the timestamp built from the time |
| TimeExamples.Time1Valid | strptime_test.go:176-187 | every real time of day parses to exactly that time on the default date |
| TimeExamples.Time1Evening | strptime_test.go:176-181 | `20:42:15.98` is 20:42:15 |
| TimeExamples.Time1Night | strptime_test.go:182-187 | `02:42:15.4` is 02:42:15 |
| TimeExamples.Time1HourThirtyTwo | strptime_test.go:188-191 | `32:42:15.4` fails with an hour range error |
| TimeExamples.Time2Reads | strptime_test.go:174 | any time written as `%I:%M%p` parses as the timestamp built from it |
| TimeExamples.Time2Valid | strptime_test.go:193-217 | every 12-hour reading parses to its 24-hour conversion, minute kept, second 0 |
| TimeExamples.Time2Morning | strptime_test.go:193-198 | `11:42am` is 11:42 |
| TimeExamples.Time2Evening | strptime_test.go:199-204 | `11:42pm` is 23:42 |
| TimeExamples.Time2Midnight | strptime_test.go:206-211 | `12:02am` is 00:02 |
| TimeExamples.Time2Noon | strptime_test.go:212-217 | `12:02pm` is 12:02 |
| TimeExamples.Time2ZeroMorning | strptime_test.go:219-222 | `00:02am` fails with a 12-hour range error (a chosen policy, see below) |
| TimeExamples.Time2ZeroAfternoon | strptime_test.go:223-226 | `00:02pm` fails the same way |
| RejectedCases.DatePath1Unmatched | strptime_test.go:24-27 | an extra leading segment is a literal mismatch at offset 0 |
| RejectedCases.DatePath2BadBlog | strptime_test.go:36-39 | `/badblog/` against `/blog/` is a literal mismatch at offset 0 |
| RejectedCases.DatePath3NoPage | strptime_test.go:55-58 | a subject without `/page2` is rejected by the paged template |
| RejectedCases.DatePath3BadBlog | strptime_test.go:60-63 | `/badblog/` is a literal mismatch at offset 0 for the paged template too |
| RejectedCases.DatePath4OtherOffset | strptime_test.go:72-75 | a different offset inside the literal prefix is a literal mismatch at offset 0 |
| RejectedCases.Date1Short | strptime_test.go:112-115 | seven digits are rejected by `%Y%m%d` |
| RejectedCases.Date2Short | strptime_test.go:136-139 | `2012111` has no month name to read: a shape error at offset 0 |
| RejectedCases.Date2Digits | strptime_test.go:140-143 | `04042012` is a shape error at offset 0 |
| RejectedCases.Date3Long | strptime_test.go:160-163 | `Apr2012` is rejected by `%b%d` |

## Left out

- The implementation file of the package is not part of this model. The
  behaviour is the one the test suite fixes. Where a plain reading of the
  directives would differ from the tests, the tests decide:
  - A greedy `%Y` would take all eight digits of `20120428` and then fail
    on `%m`, but the suite expects success (strptime_test.go:99-104). The
    model therefore reads `%Y` as exactly four digits.
  - `Apr201211` (strptime_test.go:129-134) agrees with this reading.
- `time.Time`, time zones and locations are not modelled. The result is a
  plain record of year, month, day, hour, minute and second. This record is
  all that `checkDate` and `checkTime` read (strptime_test.go:229-242).
- The value of `%f` is not kept. The directive reads a non-empty digit run
  and is checked for its shape only. `%f` does not demand that a `.` comes
  before it.
- The `testing.T` harness, `t.Error` and `t.Log` are not modelled. Each
  expectation is a lemma instead. Success cases state the whole timestamp,
  which implies the date or time check the test makes.
- `%I` with value `00`, and day `00`, are rejected with range errors. The
  suite only logs these cases (strptime_test.go:164-167, 219-226), so this is
  a chosen policy, not observed behaviour.
- A `%I` hour with no `%p` in the format reads as am, so `7` is 07:00. The
  suite only uses `%I` together with `%p` (strptime_test.go:193-226), so
  this is a chosen policy, not observed behaviour.
- The month range (1..12) is checked when the timestamp is built, not when
  the field is read. An out-of-range `%m` is therefore a month range error
  without a subject offset.
- A wildcard followed by a literal resumes at the literal's earliest
  occurrence. There is no backtracking to a later occurrence when the rest
  of the template then fails.
- A directive repeated in one format keeps its first capture.
- A `%-` followed by a field or by another `%-` is a compile error. The
  suite never uses either, so this is a chosen policy; consecutive
  wildcards are not collapsed into one.
- Every position in an error (`LiteralMismatch`, `FieldShape`,
  `WildcardUnresolved`, `TrailingInput`) counts characters of the subject.
  The Go package reports byte offsets into its string, so the two agree
  only for ASCII subjects; for a subject with multi-byte characters the
  model's positions are smaller.
- DatePathExamples.DatePath3Reads: asks for a slug with no "/" directly
  before a "p". This is sufficient, not necessary: the round trip needs only
  that "/page2" does not occur in the slug or run across its end.
- DatePathExamples.DatePath3Valid: the same condition on the slug.
- DatePathExamples.DatePath5Reads: asks for a wildcard segment with no "/"
  directly before an "n", rather than only no "/numbers/".
- DatePathExamples.DatePath5Valid: the same condition on the segment.
- RejectedCases.DatePath3NoPage, RejectedCases.Date1Short,
  RejectedCases.Date3Long: state only that the parse fails, as the suite
  does, without naming the error.
