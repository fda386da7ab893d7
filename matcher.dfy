/**
 * The match/extract engine: walks the compiled tokens left to right over the
 * subject with a cursor, filling the field table.
 */
module Matcher {
  import opened Common
  import opened Format
  import opened Lexing

  /** The table key a field is kept under: `%b` and `%m` share `Month`. */
  function Key(k: Kind): Kind
  {
    if k == MonthName then Month else k
  }

  /** Records a captured value. The first capture of a key wins; `%f`
      records nothing. */
  function Store(t: Table, k: Kind, v: nat): (r: Table)
    ensures k == Fraction ==> r == t
    ensures k != Fraction ==> Key(k) in r && r[Key(k)] == (if Key(k) in t then t[Key(k)] else v)
    ensures forall j :: j != Key(k) ==> (j in r <==> j in t)
    ensures forall j :: j in t ==> j in r && r[j] == t[j]
  {
    if k == Fraction || Key(k) in t then t else t[Key(k) := v]
  }

  /** `text` occurs in `s` at position `i`. */
  predicate At(s: string, i: nat, text: string)
  {
    i + |text| <= |s| && s[i..i + |text|] == text
  }

  /** The earliest position at or after `pos` where `text` occurs in `s`. */
  function Find(s: string, text: string, pos: nat): (r: Option<nat>)
    ensures r.Some? ==> pos <= r.value && At(s, r.value, text)
    ensures r.Some? ==> forall i :: pos <= i < r.value ==> !At(s, i, text)
    ensures r.None? ==> forall i :: pos <= i ==> !At(s, i, text)
    decreases |s| - pos
  {
    if pos + |text| > |s| then None
    else if s[pos..pos + |text|] == text then Some(pos)
    else Find(s, text, pos + 1)
  }

  /** No character `a` of `s` is directly followed by `b`. */
  predicate NoPair(s: string, a: char, b: char)
    decreases |s|
  {
    |s| < 2 || (!(s[0] == a && s[1] == b) && NoPair(s[1..], a, b))
  }

  /** A text whose first two characters never appear side by side in `s`
      occurs nowhere in `s`. */
  lemma {:induction false} NoPairNotAt(s: string, text: string, i: nat)
    requires |text| >= 2 && NoPair(s, text[0], text[1])
    ensures !At(s, i, text)
    decreases i
  {
    if At(s, i, text) {
      assert s[i] == text[0] && s[i + 1] == text[1] by {
        assert s[i..i + |text|][0] == s[i] && s[i..i + |text|][1] == s[i + 1];
      }
      if i > 0 {
        assert s[1..][i - 1..i - 1 + |text|] == s[i..i + |text|];
        NoPairNotAt(s[1..], text, i - 1);
      }
    }
  }

  /** What matching the tokens against `s` from `pos` yields, given the
      table filled so far. A literal must occur verbatim at the cursor; a
      field is read and stored; a final wildcard takes the rest of the
      subject; a wildcard before a literal skips to the earliest occurrence
      of that literal, and fails when there is none. Once the tokens are
      used up the subject must be too. */
  function Scan(toks: seq<Token>, s: string, pos: nat, t: Table): Result<Table>
    requires pos <= |s|
    decreases |toks|
  {
    if toks == [] then
      if pos == |s| then Ok(t) else Err(TrailingInput(pos))
    else match toks[0]
      case Literal(text) =>
        if At(s, pos, text) then Scan(toks[1..], s, pos + |text|, t) else Err(LiteralMismatch(pos))
      case Field(k) =>
        (match Read(k, s, pos)
         case Err(e) => Err(e)
         case Ok(c) => Scan(toks[1..], s, pos + c.width, Store(t, k, c.value)))
      case Wildcard =>
        if |toks| == 1 then Ok(t)
        else if toks[1].Literal? then
          (match Find(s, toks[1].text, pos)
           case None => Err(WildcardUnresolved(pos))
           case Some(j) => Scan(toks[1..], s, j, t))
        else Scan(toks[1..], s, pos, t)
  }

  /** Scans forward from `pos` for the earliest occurrence of `text`. */
  method Search(s: string, text: string, pos: nat) returns (r: Option<nat>)
    ensures r == Find(s, text, pos)
  {
    var i := pos;
    while i + |text| <= |s| && s[i..i + |text|] != text
      invariant pos <= i
      invariant Find(s, text, i) == Find(s, text, pos)
      decreases |s| - i
    {
      i := i + 1;
    }
    if i + |text| <= |s| {
      r := Some(i);
    } else {
      r := None;
    }
  }

  /** Matches a compiled template against a subject, token by token, with a
      cursor into the subject and a field table that starts empty. */
  method Match(toks: seq<Token>, s: string) returns (r: Result<Table>)
    ensures r == Scan(toks, s, 0, map[])
  {
    var ti: nat, pos: nat, t: Table := 0, 0, map[];
    while ti < |toks|
      invariant ti <= |toks| && pos <= |s|
      invariant Scan(toks[ti..], s, pos, t) == Scan(toks, s, 0, map[])
      decreases |toks| - ti
    {
      match toks[ti] {
        case Literal(text) =>
          if !(pos + |text| <= |s| && s[pos..pos + |text|] == text) {
            return Err(LiteralMismatch(pos));
          }
          pos := pos + |text|;
        case Field(k) =>
          var c := Read(k, s, pos);
          if c.Err? {
            return Err(c.error);
          }
          pos, t := pos + c.value.width, Store(t, k, c.value.value);
        case Wildcard =>
          if ti + 1 == |toks| {
            return Ok(t);
          }
          if toks[ti + 1].Literal? {
            var j := Search(s, toks[ti + 1].text, pos);
            if j.None? {
              return Err(WildcardUnresolved(pos));
            }
            pos := j.value;
          }
      }
      ti := ti + 1;
    }
    if pos != |s| {
      return Err(TrailingInput(pos));
    }
    return Ok(t);
  }
}

module MatcherFacts {
  import opened Common
  import opened Format
  import opened Lexing
  import opened Matcher

  /** The fewest subject characters a template can match. */
  function MinLength(toks: seq<Token>): nat
  {
    if toks == [] then 0
    else
      (match toks[0]
       case Literal(text) => |text|
       case Field(k) => Width(k)
       case Wildcard => 0) + MinLength(toks[1..])
  }

  /** A successful match never reads past the end: the subject holds at least
      the template's minimum length from the cursor on. */
  lemma {:induction false} ScanNeedsLength(toks: seq<Token>, s: string, pos: nat, t: Table)
    requires pos <= |s|
    ensures Scan(toks, s, pos, t).Ok? ==> pos + MinLength(toks) <= |s|
    decreases |toks|
  {
    if toks != [] && Scan(toks, s, pos, t).Ok? {
      match toks[0]
      case Literal(text) =>
        ScanNeedsLength(toks[1..], s, pos + |text|, t);
      case Field(k) =>
        var c := Read(k, s, pos).value;
        ScanNeedsLength(toks[1..], s, pos + c.width, Store(t, k, c.value));
      case Wildcard =>
        if |toks| > 1 {
          if toks[1].Literal? {
            ScanNeedsLength(toks[1..], s, Find(s, toks[1].text, pos).value, t);
          } else {
            ScanNeedsLength(toks[1..], s, pos, t);
          }
        }
    }
  }

  /** A subject shorter than the template's minimum length is an error, not
      a read out of bounds. */
  lemma ShortSubjectFails(toks: seq<Token>, s: string)
    requires |s| < MinLength(toks)
    ensures Scan(toks, s, 0, map[]).Err?
  {
    ScanNeedsLength(toks, s, 0, map[]);
  }

  /** A template without wildcards and without `%f`: every piece has one
      width. */
  predicate FixedWidth(toks: seq<Token>)
  {
    forall i :: 0 <= i < |toks| ==> toks[i] != Wildcard && toks[i] != Field(Fraction)
  }

  /** A fixed-width template matches only a subject of exactly its length:
      a shorter one runs out, a longer one leaves trailing input. */
  lemma {:induction false} ScanFixedLength(toks: seq<Token>, s: string, pos: nat, t: Table)
    requires pos <= |s| && FixedWidth(toks)
    ensures Scan(toks, s, pos, t).Ok? ==> pos + MinLength(toks) == |s|
    decreases |toks|
  {
    if toks != [] && Scan(toks, s, pos, t).Ok? {
      assert FixedWidth(toks[1..]) by {
        forall i | 0 <= i < |toks| - 1 ensures toks[1..][i] == toks[i + 1] { }
      }
      match toks[0]
      case Literal(text) =>
        ScanFixedLength(toks[1..], s, pos + |text|, t);
      case Field(k) =>
        var c := Read(k, s, pos).value;
        ScanFixedLength(toks[1..], s, pos + c.width, Store(t, k, c.value));
    }
  }

  lemma WrongLengthFails(toks: seq<Token>, s: string)
    requires FixedWidth(toks) && |s| != MinLength(toks)
    ensures Scan(toks, s, 0, map[]).Err?
  {
    ScanFixedLength(toks, s, 0, map[]);
  }

  /** Every literal of a template that matched occurs in the subject, at or
      after the place where matching started. */
  lemma {:induction false} ScanFindsLiterals(toks: seq<Token>, s: string, pos: nat, t: Table, i: nat)
    requires pos <= |s| && i < |toks| && toks[i].Literal? && Scan(toks, s, pos, t).Ok?
    ensures exists j :: pos <= j && At(s, j, toks[i].text)
    decreases |toks|
  {
    if i == 0 {
      assert At(s, pos, toks[0].text);
    } else {
      assert toks[1..][i - 1] == toks[i];
      match toks[0]
      case Literal(text) =>
        ScanFindsLiterals(toks[1..], s, pos + |text|, t, i - 1);
      case Field(k) =>
        var c := Read(k, s, pos).value;
        ScanFindsLiterals(toks[1..], s, pos + c.width, Store(t, k, c.value), i - 1);
      case Wildcard =>
        if toks[1].Literal? {
          ScanFindsLiterals(toks[1..], s, Find(s, toks[1].text, pos).value, t, i - 1);
        } else {
          ScanFindsLiterals(toks[1..], s, pos, t, i - 1);
        }
    }
  }

  /** A template whose literal does not occur in the subject fails on it. */
  lemma MissingLiteralFails(toks: seq<Token>, s: string, i: nat)
    requires i < |toks| && toks[i].Literal? && forall j :: !At(s, j, toks[i].text)
    ensures Scan(toks, s, 0, map[]).Err?
  {
    if Scan(toks, s, 0, map[]).Ok? {
      ScanFindsLiterals(toks, s, 0, map[], i);
    }
  }

  /** Literals match byte for byte: one differing character where a literal
      is expected is a mismatch at the cursor. */
  lemma LiteralByteMismatch(toks: seq<Token>, s: string, pos: nat, t: Table, i: nat)
    requires pos <= |s| && toks != [] && toks[0].Literal?
    requires i < |toks[0].text| && pos + i < |s| && s[pos + i] != toks[0].text[i]
    ensures Scan(toks, s, pos, t) == Err(LiteralMismatch(pos))
  {
    var text := toks[0].text;
    if pos + |text| <= |s| {
      assert s[pos..pos + |text|][i] != text[i];
    }
  }

  /** A text holding a character that `s` lacks occurs nowhere in `s`. */
  lemma AbsentCharNotAt(s: string, text: string, c: char, j: nat)
    requires c in text && c !in s
    ensures !At(s, j, text)
  {
    var k :| 0 <= k < |text| && text[k] == c;
    if j + |text| <= |s| {
      assert s[j..j + |text|][k] != text[k];
    }
  }

  /** A wildcard before a literal resumes matching at the earliest place the
      literal occurs, whatever text (separators included) lies before it,
      and the match fails when the literal does not occur at all. */
  lemma WildcardSkipsToLiteral(toks: seq<Token>, s: string, pos: nat, t: Table, j: nat)
    requires pos <= |s| && |toks| >= 2 && toks[0] == Wildcard && toks[1].Literal?
    ensures (forall i :: pos <= i ==> !At(s, i, toks[1].text)) ==>
              Scan(toks, s, pos, t) == Err(WildcardUnresolved(pos))
    ensures pos <= j && At(s, j, toks[1].text) && (forall i :: pos <= i < j ==> !At(s, i, toks[1].text)) ==>
              Scan(toks, s, pos, t) == Scan(toks[1..], s, j, t)
  {
  }

  /** A wildcard that ends the template takes the rest of the subject,
      whatever it holds. */
  lemma TrailingWildcardTakesRest(s: string, pos: nat, t: Table)
    requires pos <= |s|
    ensures Scan([Wildcard], s, pos, t) == Ok(t)
  {
  }
}
