/**
 * Rendering then parsing: a subject written from a template and a set of
 * field values is matched by that template and yields exactly those values.
 */
module RoundTrip {
  import opened Common
  import opened Format
  import opened Lexing
  import opened Matcher

  /** Every capturing field of the template has a value it can write. */
  predicate Writable(toks: seq<Token>, v: Table)
  {
    forall i :: 0 <= i < |toks| && toks[i].Field? && toks[i].kind != Fraction ==>
      Key(toks[i].kind) in v && Fits(toks[i].kind, v[Key(toks[i].kind)])
  }

  /** Every `%f` ends the template or is followed by a literal that does not
      start with a digit, so that its digit run stops where it should. */
  predicate FractionsDelimited(toks: seq<Token>)
  {
    forall i, j :: 0 <= i && j == i + 1 < |toks| && toks[i] == Field(Fraction) ==>
      toks[j].Literal? && toks[j].text != [] && !IsDigit(toks[j].text[0])
  }

  /** `gap` holds no occurrence of `text`, not even one running into a copy
      of `text` written right after it. */
  predicate Clear(gap: string, text: string)
  {
    forall j :: 0 <= j < |gap| ==> !At(gap + text, j, text)
  }

  /** A gap in which the first two characters of `text` never stand side by
      side is clear of `text`, provided they differ. */
  lemma ClearByPairs(gap: string, text: string)
    requires |text| >= 2 && text[0] != text[1] && NoPair(gap, text[0], text[1])
    ensures Clear(gap, text)
  {
    forall j | 0 <= j < |gap| ensures !At(gap + text, j, text) {
      var u := gap + text;
      if At(u, j, text) {
        assert u[j] == text[0] && u[j + 1] == text[1] by {
          assert u[j..j + |text|][0] == u[j] && u[j..j + |text|][1] == u[j + 1];
        }
        if j + 1 < |gap| {
          assert At(gap, j, text[..2]) by {
            assert gap[j..j + 2] == text[..2];
          }
          NoPairNotAt(gap, text[..2], j);
        }
      }
    }
  }

  /** The gap text is clear of every literal that follows a wildcard. */
  predicate GapsClear(toks: seq<Token>, gap: string)
  {
    forall i, j :: 0 <= i && j == i + 1 < |toks| && toks[i] == Wildcard && toks[j].Literal? ==> Clear(gap, toks[j].text)
  }

  /** The subject a template stands for: every literal as it is, every
      capturing field written from `v`, every `%f` as `frac` and every
      wildcard as `gap`. */
  function Emit(toks: seq<Token>, v: Table, frac: string, gap: string): string
    requires Writable(toks, v)
  {
    if toks == [] then ""
    else
      (match toks[0]
       case Literal(text) => text
       case Field(k) => if k == Fraction then frac else Text(k, v[Key(k)])
       case Wildcard => gap) + Emit(toks[1..], v, frac, gap)
  }

  /** Writing a template out piece by piece. */
  lemma {:induction false} EmitAppend(a: seq<Token>, b: seq<Token>, v: Table, frac: string, gap: string)
    requires Writable(a + b, v)
    ensures Writable(a, v) && Writable(b, v)
    ensures Emit(a + b, v, frac, gap) == Emit(a, v, frac, gap) + Emit(b, v, frac, gap)
    decreases |a|
  {
    assert Writable(a, v) && Writable(b, v) by {
      forall i | 0 <= i < |a| ensures a[i] == (a + b)[i] { }
      forall i | 0 <= i < |b| ensures b[i] == (a + b)[|a| + i] { }
    }
    if a == [] {
      assert a + b == b;
    } else {
      assert (a + b)[1..] == a[1..] + b;
      EmitAppend(a[1..], b, v, frac, gap);
    }
  }

  /** The table keys the template's capturing fields write. */
  function Keys(toks: seq<Token>): set<Kind>
  {
    if toks == [] then {}
    else (if toks[0].Field? && toks[0].kind != Fraction then {Key(toks[0].kind)} else {}) + Keys(toks[1..])
  }

  lemma {:induction false} KeysAppend(a: seq<Token>, b: seq<Token>)
    ensures Keys(a + b) == Keys(a) + Keys(b)
    decreases |a|
  {
    if a == [] {
      assert a + b == b;
    } else {
      assert (a + b)[1..] == a[1..] + b;
      KeysAppend(a[1..], b);
    }
  }

  /** A first token that captures nothing adds no key. */
  lemma KeysOfRest(toks: seq<Token>, t: Table)
    requires toks != [] && !(toks[0].Field? && toks[0].kind != Fraction)
    ensures t.Keys + Keys(toks) == t.Keys + Keys(toks[1..])
  {
    assert Keys(toks) == {} + Keys(toks[1..]);
  }

  /** A capturing field stores the value `v` has for it, and adds its key. */
  lemma FieldKeys(toks: seq<Token>, k: Kind, v: Table, t: Table)
    requires toks != [] && toks[0] == Field(k) && k != Fraction && Key(k) in v && Agrees(t, v)
    ensures Agrees(Store(t, k, v[Key(k)]), v)
    ensures Store(t, k, v[Key(k)]).Keys + Keys(toks[1..]) == t.Keys + Keys(toks)
  {
    assert Keys(toks) == {Key(k)} + Keys(toks[1..]);
  }

  /** The values of `v` under the keys `ks`. */
  function Restrict(v: Table, ks: set<Kind>): (r: Table)
    ensures forall k :: k in r <==> k in v && k in ks
    ensures forall k :: k in r ==> r[k] == v[k]
  {
    map k | k in v && k in ks :: v[k]
  }

  /** Restricting a table to exactly its own keys changes nothing. */
  lemma RestrictToAllKeys(v: Table, ks: set<Kind>)
    requires ks == v.Keys
    ensures Restrict(v, ks) == v
  {
  }

  /** `t` holds nothing that disagrees with `v`. */
  predicate Agrees(t: Table, v: Table)
  {
    forall k :: k in t ==> k in v && t[k] == v[k]
  }

  /** A wildcard at `pos` whose gap is clear of the next literal resumes
      right after the gap. */
  lemma SkipGap(s: string, pos: nat, gap: string, text: string)
    requires text != [] && Clear(gap, text)
    requires pos + |gap| + |text| <= |s| && s[pos..pos + |gap| + |text|] == gap + text
    ensures Find(s, text, pos) == Some(pos + |gap|)
  {
    var e := pos + |gap|;
    var u := s[pos..e + |text|];
    assert At(s, e, text) by {
      assert s[e..e + |text|] == u[|gap|..];
    }
    forall i | pos <= i < e
      ensures !At(s, i, text)
    {
      var a, b := s[i..i + |text|], u[i - pos..i - pos + |text|];
      assert a == b by {
        forall k | 0 <= k < |text| ensures a[k] == b[k] {
          assert a[k] == s[i + k];
          assert b[k] == u[i - pos + k];
        }
      }
      assert !At(gap + text, i - pos, text);
    }
  }

  /** Cutting an emitted suffix of the subject at a piece boundary. */
  lemma Split(s: string, pos: nat, a: string, b: string)
    requires pos <= |s| && s[pos..] == a + b
    ensures pos + |a| <= |s| && s[pos..pos + |a|] == a && s[pos + |a|..] == b
  {
    assert s[pos..][..|a|] == a;
    assert s[pos..][|a|..] == b;
  }

  /** The side conditions of the round trip carry over to the rest of the template. */
  lemma ConditionsOfRest(toks: seq<Token>, v: Table, gap: string)
    requires toks != []
    requires WellFormed(toks) && Writable(toks, v) && FractionsDelimited(toks) && GapsClear(toks, gap)
    ensures WellFormed(toks[1..]) && Writable(toks[1..], v)
    ensures FractionsDelimited(toks[1..]) && GapsClear(toks[1..], gap)
  {
    var rest := toks[1..];
    forall i | 0 <= i < |rest| ensures rest[i] == toks[i + 1] { }
  }

  /** One literal step: the literal is at the cursor and the cursor moves past it. */
  lemma LiteralStep(toks: seq<Token>, v: Table, frac: string, gap: string, s: string, pos: nat, t: Table)
      returns (pos': nat, t': Table)
    requires toks != [] && toks[0].Literal? && Writable(toks, v) && Writable(toks[1..], v)
    requires pos <= |s| && s[pos..] == Emit(toks, v, frac, gap)
    requires Agrees(t, v)
    ensures pos' <= |s| && s[pos'..] == Emit(toks[1..], v, frac, gap)
    ensures Agrees(t', v) && t'.Keys + Keys(toks[1..]) == t.Keys + Keys(toks)
    ensures Scan(toks, s, pos, t) == Scan(toks[1..], s, pos', t')
  {
    pos', t' := pos + |toks[0].text|, t;
    KeysOfRest(toks, t);
    var text := toks[0].text;
    assert Emit(toks, v, frac, gap) == text + Emit(toks[1..], v, frac, gap);
    Split(s, pos, text, Emit(toks[1..], v, frac, gap));
    LiteralResumes(toks, s, pos, t, pos');
  }

  /** One field step: the written value is read back and stored. */
  lemma FieldStep(toks: seq<Token>, k: Kind, v: Table, frac: string, gap: string, s: string, pos: nat, t: Table)
      returns (pos': nat, t': Table)
    requires toks != [] && toks[0] == Field(k) && k != Fraction && Writable(toks, v) && Writable(toks[1..], v)
    requires pos <= |s| && s[pos..] == Emit(toks, v, frac, gap)
    requires Agrees(t, v)
    ensures pos' <= |s| && s[pos'..] == Emit(toks[1..], v, frac, gap)
    ensures Agrees(t', v) && t'.Keys + Keys(toks[1..]) == t.Keys + Keys(toks)
    ensures Scan(toks, s, pos, t) == Scan(toks[1..], s, pos', t')
  {
    pos', t' := pos + Width(k), Store(t, k, v[Key(k)]);
    FieldKeys(toks, k, v, t);
    var x := v[Key(k)];
    assert Emit(toks, v, frac, gap) == Text(k, x) + Emit(toks[1..], v, frac, gap);
    Split(s, pos, Text(k, x), Emit(toks[1..], v, frac, gap));
    ReadText(k, x, s, pos);
    FieldResumes(toks, k, s, pos, t, Capture(x, Width(k)), pos', t');
  }

  /** Where a `%f` was written: its digits, then the rest of the template,
      which does not start with a digit. */
  lemma FractionLayout(toks: seq<Token>, v: Table, frac: string, gap: string, s: string, pos: nat)
    requires toks != [] && toks[0] == Field(Fraction) && Writable(toks, v) && Writable(toks[1..], v)
    requires |toks| == 1 || (toks[1].Literal? && toks[1].text != [] && !IsDigit(toks[1].text[0]))
    requires pos <= |s| && s[pos..] == Emit(toks, v, frac, gap)
    ensures pos + |frac| <= |s| && s[pos..pos + |frac|] == frac
    ensures s[pos + |frac|..] == Emit(toks[1..], v, frac, gap)
    ensures pos + |frac| == |s| || !IsDigit(s[pos + |frac|])
  {
    var rest := toks[1..];
    assert Emit(toks, v, frac, gap) == frac + Emit(rest, v, frac, gap);
    Split(s, pos, frac, Emit(rest, v, frac, gap));
    var e := pos + |frac|;
    if rest == [] {
      assert |s[e..]| == 0;
    } else {
      var text := rest[0].text;
      assert Emit(rest, v, frac, gap) == text + Emit(rest[1..], v, frac, gap);
      assert s[e] == text[0] by {
        assert s[e..][0] == s[e];
      }
    }
  }

  /** A literal found at the cursor moves the scan past it. */
  lemma LiteralResumes(toks: seq<Token>, s: string, pos: nat, t: Table, pos': nat)
    requires toks != [] && toks[0].Literal? && pos <= |s| && At(s, pos, toks[0].text)
    requires pos' == pos + |toks[0].text|
    ensures Scan(toks, s, pos, t) == Scan(toks[1..], s, pos', t)
  {
  }

  /** A field read at the cursor moves the scan past it, with its value stored. */
  lemma FieldResumes(toks: seq<Token>, k: Kind, s: string, pos: nat, t: Table, c: Capture, pos': nat, t': Table)
    requires toks != [] && toks[0] == Field(k) && pos <= |s| && Read(k, s, pos) == Ok(c)
    requires pos' == pos + c.width && t' == Store(t, k, c.value)
    ensures Scan(toks, s, pos, t) == Scan(toks[1..], s, pos', t')
  {
  }

  /** One `%f` step: the whole written digit run is taken, and no more. */
  lemma FractionStep(toks: seq<Token>, v: Table, frac: string, gap: string, s: string, pos: nat, t: Table)
      returns (pos': nat, t': Table)
    requires toks != [] && toks[0] == Field(Fraction) && Writable(toks, v) && Writable(toks[1..], v)
    requires |toks| == 1 || (toks[1].Literal? && toks[1].text != [] && !IsDigit(toks[1].text[0]))
    requires frac != [] && AllDigits(frac)
    requires pos <= |s| && s[pos..] == Emit(toks, v, frac, gap)
    requires Agrees(t, v)
    ensures pos' <= |s| && s[pos'..] == Emit(toks[1..], v, frac, gap)
    ensures Agrees(t', v) && t'.Keys + Keys(toks[1..]) == t.Keys + Keys(toks)
    ensures Scan(toks, s, pos, t) == Scan(toks[1..], s, pos', t')
  {
    pos', t' := pos + |frac|, t;
    KeysOfRest(toks, t);
    FractionLayout(toks, v, frac, gap, s, pos);
    ReadFraction(frac, s, pos);
    FieldResumes(toks, Fraction, s, pos, t, Capture(0, |frac|), pos', t');
  }

  /** Where a wildcard and the literal after it were written: the gap, then
      the literal, then the rest of the template. */
  lemma WildcardLayout(toks: seq<Token>, v: Table, frac: string, gap: string, s: string, pos: nat)
    requires |toks| >= 2 && toks[0] == Wildcard && toks[1].Literal?
    requires Writable(toks, v) && Writable(toks[1..], v) && Writable(toks[2..], v)
    requires pos <= |s| && s[pos..] == Emit(toks, v, frac, gap)
    ensures pos + |gap| + |toks[1].text| <= |s|
    ensures s[pos..pos + |gap| + |toks[1].text|] == gap + toks[1].text
    ensures s[pos + |gap|..] == Emit(toks[1..], v, frac, gap)
  {
    var rest := toks[1..];
    var text := rest[0].text;
    var e := pos + |gap|;
    assert rest[1..] == toks[2..];
    assert Emit(rest, v, frac, gap) == text + Emit(toks[2..], v, frac, gap);
    assert Emit(toks, v, frac, gap) == gap + Emit(rest, v, frac, gap);
    Split(s, pos, gap, Emit(rest, v, frac, gap));
    Split(s, e, text, Emit(toks[2..], v, frac, gap));
    assert s[pos..e + |text|] == s[pos..e] + s[e..e + |text|];
  }

  /** A wildcard before a literal resumes the scan where `Find` puts it. */
  lemma WildcardResumes(toks: seq<Token>, s: string, pos: nat, t: Table, j: nat)
    requires |toks| >= 2 && toks[0] == Wildcard && toks[1].Literal?
    requires pos <= |s| && Find(s, toks[1].text, pos) == Some(j) && j <= |s|
    ensures Scan(toks, s, pos, t) == Scan(toks[1..], s, j, t)
  {
  }

  /** One wildcard step: the gap is skipped up to the literal that follows it. */
  lemma WildcardStep(toks: seq<Token>, v: Table, frac: string, gap: string, s: string, pos: nat, t: Table)
      returns (pos': nat, t': Table)
    requires |toks| >= 2 && toks[0] == Wildcard && toks[1].Literal? && toks[1].text != []
    requires Clear(gap, toks[1].text) && Writable(toks, v) && Writable(toks[1..], v) && Writable(toks[2..], v)
    requires pos <= |s| && s[pos..] == Emit(toks, v, frac, gap)
    requires Agrees(t, v)
    ensures pos' <= |s| && s[pos'..] == Emit(toks[1..], v, frac, gap)
    ensures Agrees(t', v) && t'.Keys + Keys(toks[1..]) == t.Keys + Keys(toks)
    ensures Scan(toks, s, pos, t) == Scan(toks[1..], s, pos', t')
  {
    pos', t' := pos + |gap|, t;
    KeysOfRest(toks, t);
    WildcardLayout(toks, v, frac, gap, s, pos);
    SkipGap(s, pos, gap, toks[1].text);
    WildcardResumes(toks, s, pos, t, pos');
  }

  /** What the side conditions say about a wildcard that does not end the
      template. */
  lemma WildcardConditions(toks: seq<Token>, v: Table, gap: string)
    requires |toks| >= 2 && toks[0] == Wildcard
    requires WellFormed(toks) && Writable(toks, v) && FractionsDelimited(toks) && GapsClear(toks, gap)
    ensures toks[1].Literal? && toks[1].text != [] && Clear(gap, toks[1].text)
    ensures WellFormed(toks[1..]) && Writable(toks[1..], v) && FractionsDelimited(toks[1..]) && GapsClear(toks[1..], gap)
    ensures Writable(toks[2..], v)
  {
    ConditionsOfRest(toks, v, gap);
    assert toks[1..][1..] == toks[2..];
    ConditionsOfRest(toks[1..], v, gap);
  }

  /** One step of matching an emitted subject, whatever the first token
      (a final wildcard aside): the scan goes on from the rest of the
      template and the rest of the subject, with a table that still agrees
      with `v` and will end up with the same keys. */
  lemma Step(toks: seq<Token>, v: Table, frac: string, gap: string, s: string, pos: nat, t: Table)
      returns (pos': nat, t': Table)
    requires toks != [] && !(toks[0] == Wildcard && |toks| == 1)
    requires WellFormed(toks) && Writable(toks, v) && FractionsDelimited(toks) && GapsClear(toks, gap)
    requires frac != [] && AllDigits(frac)
    requires pos <= |s| && s[pos..] == Emit(toks, v, frac, gap)
    requires Agrees(t, v)
    ensures WellFormed(toks[1..]) && Writable(toks[1..], v) && FractionsDelimited(toks[1..]) && GapsClear(toks[1..], gap)
    ensures pos' <= |s| && s[pos'..] == Emit(toks[1..], v, frac, gap)
    ensures Agrees(t', v) && t'.Keys + Keys(toks[1..]) == t.Keys + Keys(toks)
    ensures Scan(toks, s, pos, t) == Scan(toks[1..], s, pos', t')
  {
    ConditionsOfRest(toks, v, gap);
    match toks[0]
    case Literal(_) =>
      pos', t' := LiteralStep(toks, v, frac, gap, s, pos, t);
    case Field(k) =>
      if k == Fraction {
        assert toks[0] == Field(Fraction);
        pos', t' := FractionStep(toks, v, frac, gap, s, pos, t);
      } else {
        pos', t' := FieldStep(toks, k, v, frac, gap, s, pos, t);
      }
    case Wildcard =>
      WildcardConditions(toks, v, gap);
      pos', t' := WildcardStep(toks, v, frac, gap, s, pos, t);
  }

  /** Matching an emitted subject reproduces the emitted values. */
  lemma {:induction false} ScanEmitted(toks: seq<Token>, v: Table, frac: string, gap: string,
                                       s: string, pos: nat, t: Table)
    requires WellFormed(toks) && Writable(toks, v) && FractionsDelimited(toks) && GapsClear(toks, gap)
    requires frac != [] && AllDigits(frac)
    requires pos <= |s| && s[pos..] == Emit(toks, v, frac, gap)
    requires Agrees(t, v)
    ensures Scan(toks, s, pos, t) == Ok(Restrict(v, t.Keys + Keys(toks)))
    decreases |toks|
  {
    if toks == [] {
      assert |s[pos..]| == 0;
      assert t == Restrict(v, t.Keys + Keys(toks));
    } else if toks[0] == Wildcard && |toks| == 1 {
      assert t == Restrict(v, t.Keys + Keys(toks));
    } else {
      var pos', t' := Step(toks, v, frac, gap, s, pos, t);
      ScanEmitted(toks[1..], v, frac, gap, s, pos', t');
    }
  }

  /** Render-then-parse at the level of the engine: a template matched
      against a subject written from it captures exactly the written values
      of its own fields. */
  lemma EmittedMatches(toks: seq<Token>, v: Table, frac: string, gap: string)
    requires WellFormed(toks) && Writable(toks, v) && FractionsDelimited(toks) && GapsClear(toks, gap)
    requires frac != [] && AllDigits(frac)
    ensures Scan(toks, Emit(toks, v, frac, gap), 0, map[]) == Ok(Restrict(v, Keys(toks)))
  {
    var s := Emit(toks, v, frac, gap);
    assert s[0..] == s;
    var empty: Table := map[];
    ScanEmitted(toks, v, frac, gap, s, 0, empty);
    assert empty.Keys + Keys(toks) == Keys(toks);
  }
}

