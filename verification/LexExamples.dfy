/** The lexer on the example sources: each source is a separated layout of
    its tokens, so the round trip of the lexer gives the tokens back. */
module LexExamples {
  import opened Wrappers
  import opened Tokens
  import opened Utils
  import opened Lexer
  import opened LexerSpec
  import opened ExampleTexts

  lemma {:induction false} IntLexable(digits: string)
    requires IsDigitString(digits)
    ensures Lexable(IntToken(digits)) && Spelling(IntToken(digits)) == digits
  {
  }

  lemma {:induction false} OpLexable(k: TokenKind)
    requires IsOperatorKind(k)
    ensures Lexable(Op(k)) && Spelling(Op(k)) == KindName(k)
  {
  }

  lemma SpaceIsGap()
    ensures IsGap(" ") && IsGap("")
  {
    assert IsWhitespace(" "[0]);
  }

  /** `text` is a separated layout of `toks` with gaps `gaps`. */
  predicate LaidOut(toks: seq<Token>, gaps: seq<string>, text: string) {
    |gaps| == |toks| && AllLexable(toks) && Separated(toks, gaps) && Layout(toks, gaps) == text
  }

  /** One more token, and the gap after it, in front of a separated layout. */
  lemma {:induction false} LayoutCons(t: Token, g: string, rest: seq<Token>, gs: seq<string>, text: string)
    requires Lexable(t) && IsGap(g) && LaidOut(rest, gs, text)
    requires |rest| > 0 && g == "" ==> Stops(t, Spelling(rest[0])[0])
    ensures LaidOut([t] + rest, [g] + gs, Spelling(t) + g + text)
  {
    var toks, gaps := [t] + rest, [g] + gs;
    assert toks[0] == t && toks[1..] == rest;
    assert gaps[0] == g && gaps[1..] == gs;
    forall i | 0 <= i < |toks| ensures Lexable(toks[i]) {
      if i > 0 { assert toks[i] == rest[i - 1]; }
    }
  }

  /** A layout whose last token has nothing after it. */
  lemma {:induction false} LayoutLast(t: Token)
    requires Lexable(t)
    ensures LaidOut([t], [""], Spelling(t))
  {
    assert [t][1..] == [];
  }

  lemma {:induction false} Finish(toks: seq<Token>, gaps: seq<string>, text: string, expected: seq<Token>)
    requires LaidOut(toks, gaps, text) && expected == toks + [EofToken]
    ensures Tokenize(text) == Success(expected)
  {
    LayoutRoundTrip(toks, gaps);
  }

  /** `2 * 3` */
  lemma ProductLayout()
    ensures LaidOut([IntToken("2"), Op(Asterisk), IntToken("3")], [" ", " ", ""], "2 * 3")
  {
    IntLexable("2"); IntLexable("3"); OpLexable(Asterisk); SpaceIsGap();
    LayoutLast(IntToken("3"));
    LayoutCons(Op(Asterisk), " ", [IntToken("3")], [""], "3");
    LayoutCons(IntToken("2"), " ", [Op(Asterisk), IntToken("3")], [" ", ""], "* 3");
  }

  lemma LexPrecedence()
    ensures Tokenize(PrecedenceSource) == Success(PrecedenceTokens)
  {
    IntLexable("1"); OpLexable(Plus); SpaceIsGap();
    ProductLayout();
    var rest := [IntToken("2"), Op(Asterisk), IntToken("3")];
    LayoutCons(Op(Plus), " ", rest, [" ", " ", ""], "2 * 3");
    LayoutCons(IntToken("1"), " ", [Op(Plus)] + rest, [" "] + [" ", " ", ""], "+ 2 * 3");
    Finish([IntToken("1")] + ([Op(Plus)] + rest), [" "] + ([" "] + [" ", " ", ""]), PrecedenceSource, PrecedenceTokens);
  }

  /** `) * 3` */
  lemma CloseTimesLayout()
    ensures LaidOut([Op(RightParen), Op(Asterisk), IntToken("3")], [" ", " ", ""], ") * 3")
  {
    IntLexable("3"); OpLexable(Asterisk); OpLexable(RightParen); SpaceIsGap();
    LayoutLast(IntToken("3"));
    LayoutCons(Op(Asterisk), " ", [IntToken("3")], [""], "3");
    LayoutCons(Op(RightParen), " ", [Op(Asterisk), IntToken("3")], [" ", ""], "* 3");
  }

  /** `2) * 3` */
  lemma TwoCloseLayout()
    ensures LaidOut([IntToken("2"), Op(RightParen), Op(Asterisk), IntToken("3")], ["", " ", " ", ""], "2) * 3")
  {
    IntLexable("2");
    CloseTimesLayout();
    var rest := [Op(RightParen), Op(Asterisk), IntToken("3")];
    LayoutCons(IntToken("2"), "", rest, [" ", " ", ""], ") * 3");
    assert [IntToken("2")] + rest == [IntToken("2"), Op(RightParen), Op(Asterisk), IntToken("3")];
  }

  /** `+ 2) * 3` */
  lemma PlusTwoCloseLayout()
    ensures LaidOut([Op(Plus), IntToken("2"), Op(RightParen), Op(Asterisk), IntToken("3")], [" ", "", " ", " ", ""], "+ 2) * 3")
  {
    OpLexable(Plus); SpaceIsGap();
    TwoCloseLayout();
    var rest := [IntToken("2"), Op(RightParen), Op(Asterisk), IntToken("3")];
    LayoutCons(Op(Plus), " ", rest, ["", " ", " ", ""], "2) * 3");
    assert [Op(Plus)] + rest == [Op(Plus), IntToken("2"), Op(RightParen), Op(Asterisk), IntToken("3")];
  }

  /** `1 + 2) * 3` */
  lemma OnePlusLayout()
    ensures LaidOut([IntToken("1"), Op(Plus), IntToken("2"), Op(RightParen), Op(Asterisk), IntToken("3")], [" ", " ", "", " ", " ", ""], "1 + 2) * 3")
  {
    IntLexable("1"); SpaceIsGap();
    PlusTwoCloseLayout();
    var rest := [Op(Plus), IntToken("2"), Op(RightParen), Op(Asterisk), IntToken("3")];
    LayoutCons(IntToken("1"), " ", rest, [" ", "", " ", " ", ""], "+ 2) * 3");
    assert [IntToken("1")] + rest == [IntToken("1"), Op(Plus), IntToken("2"), Op(RightParen), Op(Asterisk), IntToken("3")];
  }

  /** `(1 + 2) * 3` */
  lemma ParenLayout() returns (toks: seq<Token>, gaps: seq<string>)
    ensures LaidOut(toks, gaps, ParenSource) && toks + [EofToken] == ParenTokens
  {
    OpLexable(LeftParen); SpaceIsGap();
    OnePlusLayout();
    var rest := [IntToken("1"), Op(Plus), IntToken("2"), Op(RightParen), Op(Asterisk), IntToken("3")];
    var gs := [" ", " ", "", " ", " ", ""];
    LayoutCons(Op(LeftParen), "", rest, gs, "1 + 2) * 3");
    toks, gaps := [Op(LeftParen)] + rest, [""] + gs;
    assert Spelling(Op(LeftParen)) + "" + "1 + 2) * 3" == ParenSource;
  }

  lemma LexParen()
    ensures Tokenize(ParenSource) == Success(ParenTokens)
  {
    var toks, gaps := ParenLayout();
    Finish(toks, gaps, ParenSource, ParenTokens);
  }

  lemma LexNeg()
    ensures Tokenize(NegSource) == Success(NegTokens)
  {
    IntLexable("1"); IntLexable("2");
    OpLexable(Minus); OpLexable(Plus); SpaceIsGap();
    LayoutLast(IntToken("2"));
    LayoutCons(Op(Plus), " ", [IntToken("2")], [""], "2");
    LayoutCons(IntToken("1"), " ", [Op(Plus), IntToken("2")], [" ", ""], "+ 2");
    LayoutCons(Op(Minus), "", [IntToken("1"), Op(Plus), IntToken("2")], [" ", " ", ""], "1 + 2");
    Finish([Op(Minus), IntToken("1"), Op(Plus), IntToken("2")], ["", " ", " ", ""], NegSource, NegTokens);
  }

  lemma LexDoubleMinus()
    ensures Tokenize(DoubleMinusSource) == Success(DoubleMinusTokens)
  {
    IntLexable("1"); IntLexable("2");
    OpLexable(Minus); SpaceIsGap();
    LayoutLast(IntToken("2"));
    LayoutCons(Op(Minus), "", [IntToken("2")], [""], "2");
    LayoutCons(Op(Minus), " ", [Op(Minus), IntToken("2")], ["", ""], "-2");
    LayoutCons(IntToken("1"), " ", [Op(Minus), Op(Minus), IntToken("2")], [" ", "", ""], "- -2");
    Finish([IntToken("1"), Op(Minus), Op(Minus), IntToken("2")], [" ", " ", "", ""], DoubleMinusSource, DoubleMinusTokens);
  }

  lemma LexNegLess()
    ensures Tokenize(NegLessSource) == Success(NegLessTokens)
  {
    IntLexable("1"); IntLexable("2");
    OpLexable(Minus); OpLexable(LessThan); SpaceIsGap();
    LayoutLast(IntToken("2"));
    LayoutCons(Op(LessThan), " ", [IntToken("2")], [""], "2");
    LayoutCons(IntToken("1"), " ", [Op(LessThan), IntToken("2")], [" ", ""], "< 2");
    LayoutCons(Op(Minus), "", [IntToken("1"), Op(LessThan), IntToken("2")], [" ", " ", ""], "1 < 2");
    Finish([Op(Minus), IntToken("1"), Op(LessThan), IntToken("2")], ["", " ", " ", ""], NegLessSource, NegLessTokens);
  }

  lemma LexComparison()
    ensures Tokenize(ComparisonSource) == Success(ComparisonTokens)
  {
    IntLexable("1");
    OpLexable(Eq); SpaceIsGap();
    LayoutLast(IntToken("1"));
    LayoutCons(Op(Eq), " ", [IntToken("1")], [""], "1");
    LayoutCons(IntToken("1"), " ", [Op(Eq), IntToken("1")], [" ", ""], "== 1");
    Finish([IntToken("1"), Op(Eq), IntToken("1")], [" ", " ", ""], ComparisonSource, ComparisonTokens);
  }
}
