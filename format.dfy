/**
 * The template compiler: a format string of literal text, `%<letter>` field
 * directives and the `%-` wildcard becomes a sequence of tokens.
 */
module Format {
  import opened Common

  datatype Token =
    | Literal(text: string)   // must occur verbatim in the subject
    | Field(kind: Kind)       // a directive that captures one value
    | Wildcard                // %-: skips text up to the next literal

  /** The directive letter that stands for each field kind. */
  function Letter(k: Kind): char
  {
    match k
    case Year => 'Y'
    case Month => 'm'
    case Day => 'd'
    case Hour24 => 'H'
    case Hour12 => 'I'
    case Minute => 'M'
    case Second => 'S'
    case Fraction => 'f'
    case MonthName => 'b'
    case Meridiem => 'p'
  }

  /** The token a directive letter after `%` stands for, if any. */
  function Directive(c: char): (r: Option<Token>)
    ensures r.Some? ==> !r.value.Literal?
    ensures r == Some(Wildcard) <==> c == '-'
    ensures forall k :: r == Some(Field(k)) <==> c == Letter(k)
  {
    match c
    case 'Y' => Some(Field(Year))
    case 'm' => Some(Field(Month))
    case 'd' => Some(Field(Day))
    case 'H' => Some(Field(Hour24))
    case 'I' => Some(Field(Hour12))
    case 'M' => Some(Field(Minute))
    case 'S' => Some(Field(Second))
    case 'f' => Some(Field(Fraction))
    case 'b' => Some(Field(MonthName))
    case 'p' => Some(Field(Meridiem))
    case '-' => Some(Wildcard)
    case _ => None
  }

  /** The format text a token is written as. */
  function Spelling(tok: Token): string
  {
    match tok
    case Literal(text) => text
    case Field(k) => ['%', Letter(k)]
    case Wildcard => "%-"
  }

  /** The format string that a token sequence is written as. */
  function Render(toks: seq<Token>): string
  {
    if toks == [] then "" else Spelling(toks[0]) + Render(toks[1..])
  }

  /** The shape of every compiled template: literal runs are non-empty, free
      of `%` and never adjacent to one another, and every wildcard is
      followed by a literal or ends the template. */
  predicate WellFormed(toks: seq<Token>)
  {
    toks == [] ||
    (&& (match toks[0]
         case Literal(text) => text != [] && '%' !in text && (|toks| == 1 || !toks[1].Literal?)
         case Field(_) => true
         case Wildcard => |toks| == 1 || toks[1].Literal?)
     && WellFormed(toks[1..]))
  }

  /** The condition `WellFormed` places on the token at index `i`. */
  predicate FormedAt(toks: seq<Token>, i: nat)
    requires i < |toks|
  {
    match toks[i]
    case Literal(text) => text != [] && '%' !in text && (i + 1 == |toks| || !toks[i + 1].Literal?)
    case Field(_) => true
    case Wildcard => i + 1 == |toks| || toks[i + 1].Literal?
  }

  /** `WellFormed` is the conjunction of its condition at every index. */
  lemma {:induction false} WellFormedByIndex(toks: seq<Token>)
    requires forall i :: 0 <= i < |toks| ==> FormedAt(toks, i)
    ensures WellFormed(toks)
    decreases |toks|
  {
    if toks != [] {
      var rest := toks[1..];
      assert FormedAt(toks, 0);
      forall i | 0 <= i < |rest| ensures FormedAt(rest, i) {
        assert FormedAt(toks, i + 1);
        assert rest[i] == toks[i + 1];
        assert i + 1 < |rest| ==> rest[i + 1] == toks[i + 2];
      }
      WellFormedByIndex(rest);
    }
  }

  /** Compiles `format[i..]`. Literal characters are gathered into maximal
      runs; `%` must be followed by a known directive letter, and `%-` by a
      literal or the end of the format. */
  function CompileFrom(format: string, i: nat): Result<seq<Token>>
    requires i <= |format|
    decreases |format| - i
  {
    if i == |format| then Ok([])
    else if format[i] == '%' then
      if i + 1 == |format| then Err(CompileError(i))
      else match Directive(format[i + 1])
        case None => Err(CompileError(i))
        case Some(tok) =>
          match CompileFrom(format, i + 2)
          case Err(e) => Err(e)
          case Ok(rest) =>
            if tok == Wildcard && rest != [] && !rest[0].Literal? then Err(CompileError(i))
            else Ok([tok] + rest)
    else
      match CompileFrom(format, i + 1)
      case Err(e) => Err(e)
      case Ok(rest) =>
        if rest != [] && rest[0].Literal? then Ok([Literal([format[i]] + rest[0].text)] + rest[1..])
        else Ok([Literal([format[i]])] + rest)
  }

  /** Compiles a whole format string. A compiled template is well formed and
      renders back to exactly the format it came from. */
  function Compile(format: string): (r: Result<seq<Token>>)
    ensures r.Ok? ==> WellFormed(r.value) && Render(r.value) == format
  {
    CompiledRendersBack(format, 0);
    CompileFrom(format, 0)
  }

  lemma {:induction false} RenderAppend(a: seq<Token>, b: seq<Token>)
    ensures Render(a + b) == Render(a) + Render(b)
  {
    if a != [] {
      assert (a + b)[1..] == a[1..] + b;
      RenderAppend(a[1..], b);
    } else {
      assert a + b == b;
    }
  }

  /** Soundness of the compiler: what it produces is well formed and spells
      the remainder of the format. */
  lemma {:induction false} CompiledRendersBack(format: string, i: nat)
    requires i <= |format|
    ensures CompileFrom(format, i).Ok? ==>
              WellFormed(CompileFrom(format, i).value) && Render(CompileFrom(format, i).value) == format[i..]
    decreases |format| - i
  {
    if i < |format| {
      if format[i] != '%' {
        CompiledRendersBack(format, i + 1);
        LiteralStepRendersBack(format, i);
      } else if i + 1 < |format| {
        CompiledRendersBack(format, i + 2);
        DirectiveStepRendersBack(format, i);
      }
    }
  }

  /** The step of `CompiledRendersBack` for a `%` directive at `i`. */
  lemma DirectiveStepRendersBack(format: string, i: nat)
    requires i + 1 < |format| && format[i] == '%'
    requires CompileFrom(format, i + 2).Ok? ==>
               WellFormed(CompileFrom(format, i + 2).value) && Render(CompileFrom(format, i + 2).value) == format[i + 2..]
    ensures CompileFrom(format, i).Ok? ==>
              WellFormed(CompileFrom(format, i).value) && Render(CompileFrom(format, i).value) == format[i..]
  {
    if CompileFrom(format, i).Ok? {
      var tok := Directive(format[i + 1]).value;
      var rest := CompileFrom(format, i + 2).value;
      assert CompileFrom(format, i).value == [tok] + rest;
      assert ([tok] + rest)[1..] == rest;
      assert Spelling(tok) == format[i..i + 2];
      assert format[i..] == format[i..i + 2] + format[i + 2..];
    }
  }

  /** The step of `CompiledRendersBack` for a literal character at `i`. */
  lemma LiteralStepRendersBack(format: string, i: nat)
    requires i < |format| && format[i] != '%'
    requires CompileFrom(format, i + 1).Ok? ==>
               WellFormed(CompileFrom(format, i + 1).value) && Render(CompileFrom(format, i + 1).value) == format[i + 1..]
    ensures CompileFrom(format, i).Ok? ==>
              WellFormed(CompileFrom(format, i).value) && Render(CompileFrom(format, i).value) == format[i..]
  {
    if CompileFrom(format, i + 1).Ok? {
      var rest := CompileFrom(format, i + 1).value;
      assert format[i..] == [format[i]] + format[i + 1..];
      if rest != [] && rest[0].Literal? {
        var r := [Literal([format[i]] + rest[0].text)] + rest[1..];
        assert rest == [rest[0]] + rest[1..];
        assert Render(rest) == rest[0].text + Render(rest[1..]);
        assert r[1..] == rest[1..];
        assert WellFormed(rest[1..]);
      } else {
        var r := [Literal([format[i]])] + rest;
        assert r[1..] == rest;
      }
    }
  }

  /** A literal run is compiled into one token, however long it is. */
  lemma {:induction false} LiteralRunCompiles(format: string, i: nat, text: string, rest: seq<Token>)
    requires i + |text| <= |format| && format[i..i + |text|] == text
    requires text != [] && '%' !in text
    requires CompileFrom(format, i + |text|) == Ok(rest)
    requires rest == [] || !rest[0].Literal?
    ensures CompileFrom(format, i) == Ok([Literal(text)] + rest)
    decreases |text|
  {
    assert format[i] == text[0];
    if |text| == 1 {
      assert [format[i]] == text;
    } else {
      assert format[i + 1..i + |text|] == text[1..];
      LiteralRunCompiles(format, i + 1, text[1..], rest);
      assert [format[i]] + text[1..] == text;
      assert ([Literal(text[1..])] + rest)[1..] == rest;
    }
  }

  /** A rendering, cut after its first token. */
  lemma RenderSplit(format: string, i: nat, toks: seq<Token>)
    requires i <= |format| && format[i..] == Render(toks) && toks != []
    ensures i + |Spelling(toks[0])| <= |format|
    ensures format[i..i + |Spelling(toks[0])|] == Spelling(toks[0])
    ensures format[i + |Spelling(toks[0])|..] == Render(toks[1..])
  {
    var n := |Spelling(toks[0])|;
    assert format[i..] == Spelling(toks[0]) + Render(toks[1..]);
    assert format[i..][..n] == format[i..i + n];
    assert format[i..][n..] == format[i + n..];
  }

  /** A template whose first token, a directive, is spelled at `i` compiles
      from there once the rest of it does, provided a wildcard is followed by
      a literal or ends the template. */
  lemma DirectiveCompiles(format: string, i: nat, toks: seq<Token>)
    requires toks != [] && !toks[0].Literal? && (toks[0] == Wildcard ==> |toks| == 1 || toks[1].Literal?)
    requires i + 2 <= |format| && format[i..i + 2] == Spelling(toks[0])
    requires CompileFrom(format, i + 2) == Ok(toks[1..])
    ensures CompileFrom(format, i) == Ok(toks)
  {
    assert format[i] == format[i..i + 2][0] && format[i + 1] == format[i..i + 2][1];
    assert Directive(format[i + 1]) == Some(toks[0]);
    assert toks == [toks[0]] + toks[1..];
  }

  /** The same for a first token that is a non-empty literal run without
      `%`, not followed by another literal. */
  lemma LiteralCompiles(format: string, i: nat, toks: seq<Token>)
    requires toks != [] && toks[0].Literal? && toks[0].text != [] && '%' !in toks[0].text
    requires |toks| == 1 || !toks[1].Literal?
    requires i + |toks[0].text| <= |format| && format[i..i + |toks[0].text|] == toks[0].text
    requires CompileFrom(format, i + |toks[0].text|) == Ok(toks[1..])
    ensures CompileFrom(format, i) == Ok(toks)
  {
    LiteralRunCompiles(format, i, toks[0].text, toks[1..]);
    assert toks == [toks[0]] + toks[1..];
  }

  /** Completeness of the compiler: a well-formed token sequence is what its
      own rendering compiles to. */
  lemma {:induction false} RenderedCompilesBack(format: string, i: nat, toks: seq<Token>)
    requires i <= |format| && format[i..] == Render(toks)
    requires WellFormed(toks)
    ensures CompileFrom(format, i) == Ok(toks)
    decreases toks
  {
    if toks == [] {
      assert |format[i..]| == 0;
    } else {
      RenderSplit(format, i, toks);
      RenderedCompilesBack(format, i + |Spelling(toks[0])|, toks[1..]);
      if toks[0].Literal? {
        LiteralCompiles(format, i, toks);
      } else {
        DirectiveCompiles(format, i, toks);
      }
    }
  }

  /** The compiler accepts exactly the renderings of well-formed token
      sequences, and inverts the rendering. */
  lemma CompileInvertsRender(toks: seq<Token>)
    requires WellFormed(toks)
    ensures Compile(Render(toks)) == Ok(toks)
  {
    RenderedCompilesBack(Render(toks), 0, toks);
  }
}
