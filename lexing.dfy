/**
 * Reading one field at the cursor: fixed-width digit groups, the `%f`
 * digit run, the month abbreviation table and the meridiem.
 */
module Lexing {
  import opened Common

  predicate IsDigit(c: char) { '0' <= c <= '9' }

  predicate AllDigits(s: string) { forall i :: 0 <= i < |s| ==> IsDigit(s[i]) }

  function Pow10(n: nat): (r: nat)
    ensures r >= 1
  {
    if n == 0 then 1 else 10 * Pow10(n - 1)
  }

  /** The decimal value of a digit string, most significant digit first. */
  function Value(s: string): nat
    requires AllDigits(s)
  {
    if s == [] then 0 else Value(s[..|s| - 1]) * 10 + (s[|s| - 1] as int - '0' as int)
  }

  /** The last `width` decimal digits of `n`, zero-padded on the left. */
  function Digits(n: nat, width: nat): (r: string)
    ensures |r| == width && AllDigits(r)
  {
    if width == 0 then "" else Digits(n / 10, width - 1) + [('0' as int + n % 10) as char]
  }

  /** A digit string of width w is worth less than 10^w. */
  lemma {:induction false} ValueBound(s: string)
    requires AllDigits(s)
    ensures Value(s) < Pow10(|s|)
  {
    if s != [] {
      ValueBound(s[..|s| - 1]);
    }
  }

  /** Reading back the digits of a number that fits the width gives the number. */
  lemma {:induction false} ValueOfDigits(n: nat, width: nat)
    requires n < Pow10(width)
    ensures Value(Digits(n, width)) == n
  {
    if width > 0 {
      var d := Digits(n, width);
      ValueOfDigits(n / 10, width - 1);
      assert d[..|d| - 1] == Digits(n / 10, width - 1);
    }
  }

  /** Writing out the value of a digit string at its own width gives the string. */
  lemma {:induction false} DigitsOfValue(s: string)
    requires AllDigits(s)
    ensures Digits(Value(s), |s|) == s
  {
    if s != [] {
      var init := s[..|s| - 1];
      var last := s[|s| - 1] as int - '0' as int;
      DigitsOfValue(init);
      assert (Value(init) * 10 + last) / 10 == Value(init);
      assert (Value(init) * 10 + last) % 10 == last;
      assert s == init + [s[|s| - 1]];
    }
  }

  /** The length of the maximal run of digits that starts at `pos`. */
  function DigitRun(s: string, pos: nat): (n: nat)
    requires pos <= |s|
    ensures pos + n <= |s| && AllDigits(s[pos..pos + n])
    ensures pos + n == |s| || !IsDigit(s[pos + n])
    decreases |s| - pos
  {
    if pos < |s| && IsDigit(s[pos]) then
      var n := DigitRun(s, pos + 1);
      assert s[pos..pos + 1 + n] == [s[pos]] + s[pos + 1..pos + 1 + n];
      1 + n
    else 0
  }

  /** The fixed month abbreviation table, in calendar order, matched with
      exactly this capitalisation. */
  const MonthAbbrevs: seq<string> :=
    ["Jan", "Feb", "Mar", "Apr", "May", "Jun", "Jul", "Aug", "Sep", "Oct", "Nov", "Dec"]

  /** The first index at which `name` occurs in `names`, if any. */
  function IndexOf(names: seq<string>, name: string): (r: Option<nat>)
    ensures r.Some? ==> r.value < |names| && names[r.value] == name && name !in names[..r.value]
    ensures r.None? ==> name !in names
  {
    if names == [] then None
    else if names[0] == name then Some(0)
    else match IndexOf(names[1..], name)
      case None => None
      case Some(i) =>
        assert names[..i + 1] == [names[0]] + names[1..][..i];
        Some(i + 1)
  }

  /** The month number (1 for January) an abbreviation stands for. */
  function MonthNumber(name: string): (r: Option<nat>)
    ensures r.Some? ==> 1 <= r.value <= 12 && MonthAbbrevs[r.value - 1] == name
    ensures r.None? ==> name !in MonthAbbrevs
  {
    match IndexOf(MonthAbbrevs, name)
    case None => None
    case Some(i) => Some(i + 1)
  }

  /** Every abbreviation starts with a capital letter, so a name that
      starts with a digit is no month. */
  lemma DigitStartsNoMonth(name: string)
    requires name != [] && IsDigit(name[0])
    ensures MonthNumber(name) == None
  {
    forall i | 0 <= i < |MonthAbbrevs| ensures MonthAbbrevs[i] != name {
      assert MonthAbbrevs[i][0] != name[0];
    }
  }

  /** Codes for the two halves of the day, as stored in the field table. */
  const AM: nat := 0
  const PM: nat := 1

  function Lower(c: char): char
  {
    if 'A' <= c <= 'Z' then (c as int - 'A' as int + 'a' as int) as char else c
  }

  /** The half of the day a two-letter meridiem names, in any letter case. */
  function HalfOfDay(text: string): (r: Option<nat>)
    requires |text| == 2
    ensures r == Some(AM) <==> text in {"am", "aM", "Am", "AM"}
    ensures r == Some(PM) <==> text in {"pm", "pM", "Pm", "PM"}
    ensures r.Some? ==> r.value in {AM, PM}
  {
    assert text == [text[0], text[1]];
    if Lower(text[1]) != 'm' then None
    else if Lower(text[0]) == 'a' then Some(AM)
    else if Lower(text[0]) == 'p' then Some(PM)
    else None
  }

  /** The number of characters a field takes: exact for every kind but
      `Fraction`, for which it is the least. */
  function Width(k: Kind): nat
  {
    match k
    case Year => 4
    case MonthName => 3
    case Fraction => 1
    case _ => 2
  }

  /** What reading a field captured: its value and how many characters it took. */
  datatype Capture = Capture(value: nat, width: nat)

  /** Reads the field `k` at `pos`. Digit fields need exactly their width in
      digits; `%f` takes every digit that follows (its value is not kept);
      `%b` needs a table abbreviation; `%p` needs am or pm. Any other text,
      or too little of it, is a shape error at the cursor. */
  function Read(k: Kind, s: string, pos: nat): (r: Result<Capture>)
    requires pos <= |s|
    ensures r.Ok? ==> pos + r.value.width <= |s|
    ensures r.Ok? ==> if k == Fraction then r.value.width >= 1 else r.value.width == Width(k)
    ensures r.Err? ==> r.error == FieldShape(pos)
  {
    match k
    case Fraction =>
      var n := DigitRun(s, pos);
      if n == 0 then Err(FieldShape(pos)) else Ok(Capture(0, n))
    case MonthName =>
      if pos + 3 <= |s| && MonthNumber(s[pos..pos + 3]).Some? then
        Ok(Capture(MonthNumber(s[pos..pos + 3]).value, 3))
      else Err(FieldShape(pos))
    case Meridiem =>
      if pos + 2 <= |s| && HalfOfDay(s[pos..pos + 2]).Some? then
        Ok(Capture(HalfOfDay(s[pos..pos + 2]).value, 2))
      else Err(FieldShape(pos))
    case _ =>
      var w := Width(k);
      if pos + w <= |s| && AllDigits(s[pos..pos + w]) then Ok(Capture(Value(s[pos..pos + w]), w))
      else Err(FieldShape(pos))
  }

  /** The values a capturing field can write out. */
  predicate Fits(k: Kind, v: nat)
  {
    match k
    case Year => v < 10000
    case MonthName => 1 <= v <= 12
    case Meridiem => v in {AM, PM}
    case Fraction => false
    case _ => v < 100
  }

  /** How a value is written for a capturing field: the inverse of `Read`. */
  function Text(k: Kind, v: nat): (r: string)
    requires Fits(k, v)
    ensures |r| == Width(k)
  {
    match k
    case Year => Digits(v, 4)
    case MonthName => MonthAbbrevs[v - 1]
    case Meridiem => if v == AM then "am" else "pm"
    case _ => Digits(v, 2)
  }

  /** Reading a written value back gives the value and its width. */
  lemma ReadText(k: Kind, v: nat, s: string, pos: nat)
    requires Fits(k, v)
    requires pos + Width(k) <= |s| && s[pos..pos + Width(k)] == Text(k, v)
    ensures Read(k, s, pos) == Ok(Capture(v, Width(k)))
  {
    match k
    case MonthName => ReadMonthName(v, s, pos);
    case Meridiem =>
    case Fraction =>
    case _ => ValueOfDigits(v, Width(k));
  }

  /** The converse of `ReadText`: a successful read consumed exactly the
      written text of the value it captured (for `%p` in any letter case),
      and `%f` consumed the whole digit run at the cursor. */
  lemma ReadIsText(k: Kind, s: string, pos: nat, c: Capture)
    requires pos <= |s| && Read(k, s, pos) == Ok(c)
    ensures k != Fraction ==> Fits(k, c.value) && c.width == Width(k)
    ensures k != Fraction && k != Meridiem ==> s[pos..pos + Width(k)] == Text(k, c.value)
    ensures k == Meridiem ==> [Lower(s[pos]), Lower(s[pos + 1])] == Text(Meridiem, c.value)
    ensures k == Fraction ==> c == Capture(0, DigitRun(s, pos))
  {
    match k
    case Fraction =>
    case MonthName =>
    case Meridiem =>
      assert s[pos..pos + 2] == [s[pos], s[pos + 1]];
    case _ =>
      DigitsReadAsText(k, s[pos..pos + Width(k)], c);
  }

  /** A digit field's value, written back at the field's width, is the
      digit text it was read from. */
  lemma DigitsReadAsText(k: Kind, d: string, c: Capture)
    requires k !in {Fraction, MonthName, Meridiem}
    requires |d| == Width(k) && AllDigits(d) && c == Capture(Value(d), Width(k))
    ensures Fits(k, c.value) && d == Text(k, c.value)
  {
    ValueBound(d);
    DigitsOfValue(d);
    assert Pow10(2) == 100 && Pow10(4) == 10000;
  }

  /** No two months share an abbreviation. */
  lemma MonthAbbrevsDistinct()
    ensures forall i, j :: 0 <= i < j < |MonthAbbrevs| ==> MonthAbbrevs[i] != MonthAbbrevs[j]
  {
    forall i, j | 0 <= i < j < |MonthAbbrevs| ensures MonthAbbrevs[i] != MonthAbbrevs[j] {
      var a, b := MonthAbbrevs[i], MonthAbbrevs[j];
      assert a[0] != b[0] || a[1] != b[1] || a[2] != b[2];
    }
  }

  /** Each abbreviation reads as its own month. */
  lemma ReadMonthName(v: nat, s: string, pos: nat)
    requires 1 <= v <= 12
    requires pos + 3 <= |s| && s[pos..pos + 3] == MonthAbbrevs[v - 1]
    ensures MonthNumber(s[pos..pos + 3]) == Some(v)
  {
    MonthAbbrevsDistinct();
  }

  /** `%f` takes a whole digit run that ends where the digits end. */
  lemma ReadFraction(frac: string, s: string, pos: nat)
    requires frac != [] && AllDigits(frac)
    requires pos + |frac| <= |s| && s[pos..pos + |frac|] == frac
    requires pos + |frac| == |s| || !IsDigit(s[pos + |frac|])
    ensures Read(Fraction, s, pos) == Ok(Capture(0, |frac|))
  {
  }
}
