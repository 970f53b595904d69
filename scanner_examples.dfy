/** A worked scan of one small class, showing that an access modifier read
    before one method is still pending when the next method starts.

    The scan runs over the 17 tokens

        class  A  {
          public  function  f  (  )  {  }
          function  g  (  )  {  }
        }

    with their kinds and lines as the lemmas below require. This is the text
    `class A { public function f() {} function g() {} }` without the
    whitespace tokens a lexer would also produce. The scan records `f` from its
    `public` (token 3) to its closing brace (token 9), and `g` also from token
    3, because nothing clears the pending modifier once `f` has been recorded:
    the two ranges overlap. */
module ScannerExamples {
  import opened PhpValues
  import opened Tokens
  import opened Scanner

  /** The blank function record the scan starts with. */
  const F0 := FunctionInfo("", 0, "public", 0, 0, "")
  /** The `public` read at lexeme 3, pending from then on. */
  const Pending := Some(Modifier("public", 3))
  /** Class `A` once its opening brace has been read. */
  const A0 := ClassInfo("A", 1, 1, 0, Empty())
  /** Method `f` as named, before its body closes. */
  const FF := FunctionInfo("f", 2, "public", 3, 0, "")
  /** Class `A` after `f` has been recorded. */
  const A1 := A0.(functions := Empty().Put("f", FF.(endLexPos := 9)))
  /** Method `g` as named: it starts at the stale modifier. */
  const FG := FunctionInfo("g", 2, "public", 3, 0, "")

  /** One more token of the scan. */
  lemma {:induction false} Advance(ts: seq<Token>, k: nat, s: ScanState, s': ScanState)
    requires k < |ts| && Run(ts, k) == s && Step(s, k, ts[k]) == s'
    ensures Run(ts, k + 1) == s'
  {
  }

  /** `class A {` and the modifier. */
  lemma {:induction false} Trace1(ts: seq<Token>)
    requires |ts| == 17
    requires ts[0] == Token(TClass, "class", Some(1)) && ts[1] == Token(TString, "A", Some(1))
    requires ts[2] == Token(UString, "{", Some(1)) && ts[3] == Token(TPublic, "public", Some(2))
    ensures Run(ts, 4) == ScanState(NamedClass, 1, Pending, A0, F0, false, Empty())
  {
    var s1 := ScanState(InClass, 0, None, NewClass(), F0, false, Empty());
    var s2 := ScanState(NamedClass, 0, None, A0, F0, false, Empty());
    var s3 := ScanState(NamedClass, 1, None, A0, F0, false, Empty());
    Advance(ts, 0, InitState(), s1);
    Advance(ts, 1, s1, s2);
    Advance(ts, 2, s2, s3);
    Advance(ts, 3, s3, ScanState(NamedClass, 1, Pending, A0, F0, false, Empty()));
  }

  /** `function f()`: the method starts at the modifier. */
  lemma {:induction false} Trace2(ts: seq<Token>)
    requires |ts| == 17
    requires ts[4] == Token(TFunction, "function", Some(2)) && ts[5] == Token(TString, "f", Some(2))
    requires ts[6] == Token(UString, "(", Some(2)) && ts[7] == Token(UString, ")", Some(2))
    requires Run(ts, 4) == ScanState(NamedClass, 1, Pending, A0, F0, false, Empty())
    ensures Run(ts, 8) == ScanState(NamedFunction, 1, Pending, A0, FF, false, Empty())
  {
    var s4 := ScanState(NamedClass, 1, Pending, A0, F0, false, Empty());
    var s5 := ScanState(InFunction, 1, Pending, A0, FunctionInfo("", 2, "public", 4, 0, ""), false, Empty());
    var s6 := ScanState(NamedFunction, 1, Pending, A0, FF, false, Empty());
    Advance(ts, 4, s4, s5);
    Advance(ts, 5, s5, s6);
    Advance(ts, 6, s6, s6);
    Advance(ts, 7, s6, s6);
  }

  /** `{}` closes `f`; `function g` starts at the still pending modifier. */
  lemma {:induction false} Trace3(ts: seq<Token>)
    requires |ts| == 17
    requires ts[8] == Token(UString, "{", Some(2)) && ts[9] == Token(UString, "}", Some(2))
    requires ts[10] == Token(TFunction, "function", Some(3)) && ts[11] == Token(TString, "g", Some(3))
    requires Run(ts, 8) == ScanState(NamedFunction, 1, Pending, A0, FF, false, Empty())
    ensures Run(ts, 12) == ScanState(NamedFunction, 1, Pending, A1, FG, false, Empty())
  {
    var s8 := ScanState(NamedFunction, 1, Pending, A0, FF, false, Empty());
    var s9 := ScanState(NamedFunction, 2, Pending, A0, FF, false, Empty());
    var s10 := ScanState(NamedClass, 1, Pending, A1, FF.(endLexPos := 9), false, Empty());
    var s11 := ScanState(InFunction, 1, Pending, A1, FunctionInfo("", 2, "public", 10, 0, ""), false, Empty());
    Advance(ts, 8, s8, s9);
    Advance(ts, 9, s9, s10);
    Advance(ts, 10, s10, s11);
    Advance(ts, 11, s11, ScanState(NamedFunction, 1, Pending, A1, FG, false, Empty()));
  }

  /** Class `a` once `g` has been recorded in it. */
  function WithG(a: ClassInfo): ClassInfo {
    a.(functions := a.functions.Put("g", FG.(endLexPos := 15)))
  }

  /** The scan steps over `() {}` of `g`, on their own. */
  lemma {:induction false} Steps4(a: ClassInfo, s12: ScanState, s15: ScanState)
    requires s12 == ScanState(NamedFunction, 1, Pending, a, FG, false, Empty())
    requires s15 == ScanState(NamedFunction, 2, Pending, a, FG, false, Empty())
    ensures Step(s12, 12, Token(UString, "(", Some(3))) == s12
    ensures Step(s12, 13, Token(UString, ")", Some(3))) == s12
    ensures Step(s12, 14, Token(UString, "{", Some(3))) == s15
    ensures Step(s15, 15, Token(UString, "}", Some(3)))
         == ScanState(NamedClass, 1, Pending, WithG(a), FG.(endLexPos := 15), false, Empty())
  {
  }

  /** `() {}` closes `g`. */
  lemma {:induction false} Trace4(ts: seq<Token>, a: ClassInfo)
    requires |ts| == 17
    requires ts[12] == Token(UString, "(", Some(3)) && ts[13] == Token(UString, ")", Some(3))
    requires ts[14] == Token(UString, "{", Some(3)) && ts[15] == Token(UString, "}", Some(3))
    requires Run(ts, 12) == ScanState(NamedFunction, 1, Pending, a, FG, false, Empty())
    ensures Run(ts, 16) == ScanState(NamedClass, 1, Pending, WithG(a), FG.(endLexPos := 15), false, Empty())
  {
    var s12 := ScanState(NamedFunction, 1, Pending, a, FG, false, Empty());
    var s15 := ScanState(NamedFunction, 2, Pending, a, FG, false, Empty());
    Steps4(a, s12, s15);
    Advance(ts, 12, s12, s12);
    Advance(ts, 13, s12, s12);
    Advance(ts, 14, s12, s15);
    Advance(ts, 15, s15, ScanState(NamedClass, 1, Pending, WithG(a), FG.(endLexPos := 15), false, Empty()));
  }

  /** The scan step over the final `}`, on its own. */
  lemma {:induction false} Step5(a: ClassInfo, s16: ScanState)
    requires a.name == "A" && a.nesting == 1
    requires s16 == ScanState(NamedClass, 1, Pending, a, FG.(endLexPos := 15), false, Empty())
    ensures Step(s16, 16, Token(UString, "}", Some(3))).classes == Empty().Put("A", a.(endLexPos := 16))
  {
  }

  /** The final `}` records class `A`. */
  lemma {:induction false} Trace5(ts: seq<Token>, a: ClassInfo)
    requires |ts| == 17 && ts[16] == Token(UString, "}", Some(3))
    requires a.name == "A" && a.nesting == 1
    requires Run(ts, 16) == ScanState(NamedClass, 1, Pending, a, FG.(endLexPos := 15), false, Empty())
    ensures Run(ts, 17).classes == Empty().Put("A", a.(endLexPos := 16))
  {
    var s16 := ScanState(NamedClass, 1, Pending, a, FG.(endLexPos := 15), false, Empty());
    Step5(a, s16);
    Advance(ts, 16, s16, Step(s16, 16, ts[16]));
  }

  /** What the recorded classes say about `f` and `g`. */
  lemma {:induction false} FinalClass()
    ensures var cs := Empty().Put("A", WithG(A1).(endLexPos := 16));
      && "A" in cs.values
      && "f" in cs.values["A"].functions.values
      && "g" in cs.values["A"].functions.values
      && cs.values["A"].functions.values["f"].startLexPos == 3
      && cs.values["A"].functions.values["f"].endLexPos == 9
      && cs.values["A"].functions.values["g"].startLexPos == 3
      && cs.values["A"].functions.values["g"].endLexPos == 15
  {
  }

  /** A modifier is not cleared when a method is recorded: `g`, declared
      without one, inherits the start position of `f`'s `public`, and the
      ranges of `f` and `g` overlap. */
  lemma {:induction false} StaleModifier(ts: seq<Token>)
    requires |ts| == 17
    requires ts[0] == Token(TClass, "class", Some(1)) && ts[1] == Token(TString, "A", Some(1))
    requires ts[2] == Token(UString, "{", Some(1)) && ts[3] == Token(TPublic, "public", Some(2))
    requires ts[4] == Token(TFunction, "function", Some(2)) && ts[5] == Token(TString, "f", Some(2))
    requires ts[6] == Token(UString, "(", Some(2)) && ts[7] == Token(UString, ")", Some(2))
    requires ts[8] == Token(UString, "{", Some(2)) && ts[9] == Token(UString, "}", Some(2))
    requires ts[10] == Token(TFunction, "function", Some(3)) && ts[11] == Token(TString, "g", Some(3))
    requires ts[12] == Token(UString, "(", Some(3)) && ts[13] == Token(UString, ")", Some(3))
    requires ts[14] == Token(UString, "{", Some(3)) && ts[15] == Token(UString, "}", Some(3))
    requires ts[16] == Token(UString, "}", Some(3))
    ensures var cs := Run(ts, 17).classes;
      && "A" in cs.values
      && "f" in cs.values["A"].functions.values
      && "g" in cs.values["A"].functions.values
      && cs.values["A"].functions.values["f"].startLexPos == 3
      && cs.values["A"].functions.values["f"].endLexPos == 9
      && cs.values["A"].functions.values["g"].startLexPos == 3
      && cs.values["A"].functions.values["g"].endLexPos == 15
  {
    Trace1(ts);
    Trace2(ts);
    Trace3(ts);
    Trace4(ts, A1);
    Trace5(ts, WithG(A1));
    FinalClass();
  }
}
