/** The lexer: a cursor over the input text that hands out one token per
    call. Reading past the end yields the NUL character, which the lexer
    treats as end of input. */
module Lexer {
  import opened Wrappers
  import opened Tokens
  import opened Utils

  /** `IllegalTokenError`, naming the character no rule accepts. */
  datatype LexError = IllegalToken(c: char)

  const Nul: char := 0 as char

  /** Text without NUL, which the cursor would read as the end of input. */
  predicate NulFree(input: string) {
    forall i :: 0 <= i < |input| ==> input[i] != Nul
  }

  /** `currentChar`: NUL past the end, so NUL reads as the end of input
      wherever it appears. */
  function CurrentChar(input: string, pos: nat): (c: char)
  {
    if pos >= |input| then Nul else input[pos]
  }

  /** `peakChar`: the character one step ahead of the cursor. */
  function PeekChar(input: string, pos: nat): (c: char)
    ensures c == CurrentChar(input, pos + 1)
  {
    if pos + 1 >= |input| then Nul else input[pos + 1]
  }

  /** The cursor after `readChar`: one step forward, but never past the end. */
  function ReadChar(input: string, pos: nat): (r: nat)
    ensures pos <= r <= pos + 1
    ensures r == pos + 1 <==> pos < |input|
    ensures pos <= |input| ==> r <= |input|
  {
    if pos >= |input| then pos else pos + 1
  }

  /** The first character of a two-character operator and the operator's kind. */
  function TwoCharKind(c: char): Option<TokenKind> {
    match c
    case '=' => Some(Eq)
    case '!' => Some(NotEq)
    case '<' => Some(LessThanEq)
    case '>' => Some(GreaterThanEq)
    case _ => None
  }

  /** `twoCharToken`: one of `== != <= >=` at the cursor, consuming both characters. */
  function TwoCharToken(input: string, pos: nat): (r: Option<(Token, nat)>)
    ensures r.Some? ==> r.value.1 == pos + 2 && pos + 2 <= |input|
  {
    match TwoCharKind(CurrentChar(input, pos))
    case Some(k) =>
      if PeekChar(input, pos) == '=' then Some((Token(k, None), pos + 2)) else None
    case None => None
  }

  /** The cases of the single-character switch, including NUL for end of input. */
  function SingleCharKind(c: char): Option<TokenKind> {
    match c
    case '+' => Some(Plus)
    case '-' => Some(Minus)
    case '/' => Some(Slash)
    case '*' => Some(Asterisk)
    case '(' => Some(LeftParen)
    case ')' => Some(RightParen)
    case '<' => Some(LessThan)
    case '>' => Some(GreaterThan)
    case '!' => Some(Bang)
    case '{' => Some(LBrace)
    case '}' => Some(RBrace)
    case '=' => Some(Assign)
    case ';' => Some(Semicolon)
    case ',' => Some(Comma)
    case _ => if c == Nul then Some(Eof) else None
  }

  /** The end of the run `getIdentifier` reads from `i`: letters, and digits once
      the identifier is non-empty. */
  function IdentifierEnd(input: string, i: nat, nonEmpty: bool): (end: nat)
    decreases |input| - i
    ensures i <= end
    ensures i < |input| && IsLetter(input[i]) ==> i < end
    ensures end <= i || end <= |input|
    ensures forall j :: i <= j < end ==> IsIdentChar(input[j])
    ensures !nonEmpty && i < end ==> IsLetter(input[i])
    ensures end < |input| && (end > i || nonEmpty) ==> !IsIdentChar(input[end])
  {
    var c := CurrentChar(input, i);
    if IsLetter(c) || (IsDigit(c) && nonEmpty) then IdentifierEnd(input, i + 1, true) else i
  }

  /** The end of the digit run `getNumber` reads from `i`. */
  function NumberEnd(input: string, i: nat): (end: nat)
    decreases |input| - i
    ensures i <= end
    ensures end <= i || end <= |input|
    ensures forall j :: i <= j < end ==> IsDigit(input[j])
    ensures end < |input| ==> !IsDigit(input[end])
  {
    if IsDigit(CurrentChar(input, i)) then NumberEnd(input, i + 1) else i
  }

  /** An identifier or keyword starting at `pos`, as the letter branch of
      `nextToken` reads it. */
  function ReadWord(input: string, pos: nat): (r: Result<(Token, nat), LexError>)
    requires pos < |input| && IsLetter(input[pos])
    ensures r.Success? && pos < r.value.1 <= |input| && r.value.0.kind != Eof
  {
    var end := IdentifierEnd(input, pos, false);
    var word := input[pos..end];
    match KeywordKind(word)
    case Some(k) => Success((Token(k, None), end))
    case None => Success((Token(Ident, Some(word)), end))
  }

  /** An integer literal starting at `pos`: the whole digit run. */
  function ReadNumber(input: string, pos: nat): (r: Result<(Token, nat), LexError>)
    requires pos < |input| && IsDigit(input[pos])
    ensures r.Success? && pos < r.value.1 <= |input| && r.value.0.kind == Int
  {
    var end := NumberEnd(input, pos);
    Success((Token(Int, Some(input[pos..end])), end))
  }

  /** `nextToken`: the token at the cursor and the cursor after it. Every call
      that does not return EOF moves the cursor forward; at the end of input
      it returns EOF and leaves the cursor where it is. */
  function NextToken(input: string, pos: nat): (r: Result<(Token, nat), LexError>)
    decreases |input| - pos
    ensures pos >= |input| ==> r == Success((EofToken, pos))
    ensures r.Success? && pos <= |input| ==> r.value.1 <= |input|
    ensures r.Success? && r.value.0.kind != Eof ==> pos < r.value.1
    ensures r.Success? && r.value.0.kind == Eof ==> r.value.0 == EofToken
  {
    match TwoCharToken(input, pos)
    case Some(tokenAndEnd) => Success(tokenAndEnd)
    case None =>
      var c := CurrentChar(input, pos);
      match SingleCharKind(c)
      case Some(k) => Success((Token(k, None), ReadChar(input, pos)))
      case None =>
        if IsWhitespace(c) then NextToken(input, pos + 1)
        else if IsLetter(c) then ReadWord(input, pos)
        else if IsDigit(c) then ReadNumber(input, pos)
        else
          Failure(IllegalToken(c))
  }

  /** The parser constructor's drain loop: tokens from `pos` up to and
      including the first EOF. The list ends in exactly one EOF. */
  function TokenizeFrom(input: string, pos: nat): (r: Result<seq<Token>, LexError>)
    requires pos <= |input|
    decreases |input| - pos
    ensures r.Success? ==> |r.value| > 0 && r.value[|r.value| - 1] == EofToken
    ensures r.Success? ==> forall i :: 0 <= i < |r.value| - 1 ==> r.value[i].kind != Eof
    ensures r.Success? ==> |r.value| <= |input| - pos + 1
  {
    var (t, next) :- NextToken(input, pos);
    if t.kind == Eof then
      Success([t])
    else
      var rest :- TokenizeFrom(input, next);
      Success([t] + rest)
  }

  /** The whole token list of a text: every token but the last takes at
      least one character, and the last is the only EOF. */
  function Tokenize(input: string): (r: Result<seq<Token>, LexError>)
    ensures r.Success? ==> 0 < |r.value| <= |input| + 1 && r.value[|r.value| - 1] == EofToken
    ensures r.Success? ==> forall i :: 0 <= i < |r.value| - 1 ==> r.value[i].kind != Eof
  {
    TokenizeFrom(input, 0)
  }
}

/** What the lexer promises, stated against an independent description of
    token spellings. */
module LexerSpec {
  import opened Wrappers
  import opened Tokens
  import opened Utils
  import opened Lexer

  /** The cursor reads NUL exactly at the end of the input or at a NUL
      character, so a NUL inside a text ends it for the lexer. */
  lemma NulMarksEnd(input: string, pos: nat)
    ensures CurrentChar(input, pos) == Nul <==> pos >= |input| || input[pos] == Nul
    ensures pos < |input| ==> CurrentChar(input, pos) == input[pos]
  {
  }

  /** The first position at or after `pos` that does not hold whitespace. */
  function SkipWhitespace(input: string, pos: nat): (s: nat)
    requires pos <= |input|
    decreases |input| - pos
    ensures pos <= s <= |input|
    ensures forall i :: pos <= i < s ==> IsWhitespace(input[i])
    ensures s < |input| ==> !IsWhitespace(input[s])
  {
    if pos < |input| && IsWhitespace(input[pos]) then SkipWhitespace(input, pos + 1) else pos
  }

  /** Kinds spelled by one or two fixed punctuation characters. */
  predicate IsOperatorKind(k: TokenKind) {
    k in {Assign, Plus, Minus, Slash, Asterisk, LessThan, GreaterThan, LessThanEq, GreaterThanEq,
          Eq, NotEq, Bang, Comma, Semicolon, LeftParen, RightParen, LBrace, RBrace}
  }

  predicate IsIdentifier(w: string) {
    |w| > 0 && IsLetter(w[0]) && forall i :: 0 <= i < |w| ==> IsIdentChar(w[i])
  }

  predicate IsDigitString(d: string) {
    |d| > 0 && forall i :: 0 <= i < |d| ==> IsDigit(d[i])
  }

  /** The tokens the lexer can produce apart from EOF. */
  predicate Lexable(t: Token) {
    match t.kind
    case Ident => t.value.Some? && IsIdentifier(t.value.value) && KeywordKind(t.value.value).None?
    case Int => t.value.Some? && IsDigitString(t.value.value)
    case _ => t.value.None? && (IsOperatorKind(t.kind) || IsKeywordKind(t.kind))
  }

  /** The source text of a token. */
  function Spelling(t: Token): (s: string)
    requires Lexable(t)
    ensures |s| > 0
  {
    if t.kind == Ident || t.kind == Int then t.value.value
    else if IsKeywordKind(t.kind) then KeywordSpelling(t.kind)
    else KindName(t.kind)
  }

  /** A character that starts no token and is not skipped. */
  predicate IsIllegalChar(c: char) {
    !IsWhitespace(c) && !IsLetter(c) && !IsDigit(c) && c !in "+-/*()<>!{}=;,"
  }

  /** The token ending at `p` could not have been extended by the next character. */
  predicate Maximal(input: string, t: Token, p: nat) {
    p >= |input| || Stops(t, input[p])
  }

  /** A character after `t` that leaves `t` as it is: it cannot continue a
      word or a number, and it is not the `=` that would turn `= ! < >`
      into a two-character operator. */
  predicate Stops(t: Token, c: char) {
    if t.kind == Ident || IsKeywordKind(t.kind) then !IsIdentChar(c)
    else if t.kind == Int then !IsDigit(c)
    else if t.kind in {Assign, Bang, LessThan, GreaterThan} then c != '='
    else true
  }

  /** Whitespace before a token is skipped: the token read from `pos` is the
      token read from the first non-whitespace position. */
  lemma {:induction false} SkipsWhitespace(input: string, pos: nat)
    requires pos <= |input|
    ensures NextToken(input, pos) == NextToken(input, SkipWhitespace(input, pos))
    decreases |input| - pos
  {
    if pos < |input| && IsWhitespace(input[pos]) {
      SkipsWhitespace(input, pos + 1);
    }
  }

  /** `getIdentifier` stops exactly at the end of the identifier run. */
  lemma IdentifierEndIs(input: string, i: nat, e: nat)
    requires i < e <= |input| && IsLetter(input[i])
    requires forall j :: i <= j < e ==> IsIdentChar(input[j])
    requires e == |input| || !IsIdentChar(input[e])
    ensures IdentifierEnd(input, i, false) == e
  {
  }

  /** `getNumber` stops exactly at the end of the digit run. */
  lemma NumberEndIs(input: string, i: nat, e: nat)
    requires i <= e <= |input|
    requires forall j :: i <= j < e ==> IsDigit(input[j])
    requires e == |input| || !IsDigit(input[e])
    ensures NumberEnd(input, i) == e
  {
  }

  /** The conclusion of `LexesOneToken` for a token that starts at `s`. */
  predicate ReadsTokenAt(input: string, s: nat, r: Result<(Token, nat), LexError>)
    requires s < |input|
  {
    && (r.Failure? <==> IsIllegalChar(input[s]))
    && (r.Failure? ==> r.error == IllegalToken(input[s]))
    && (r.Success? ==>
          var (t, p) := r.value;
          && Lexable(t) && s < p <= |input|
          && input[s..p] == Spelling(t)
          && Maximal(input, t, p))
  }

  lemma TwoCharSpelling(c: char)
    requires TwoCharKind(c).Some?
    ensures IsOperatorKind(TwoCharKind(c).value)
    ensures KindName(TwoCharKind(c).value) == [c, '=']
  {
  }

  lemma SingleCharSpelling(c: char)
    requires SingleCharKind(c).Some? && c != Nul
    ensures IsOperatorKind(SingleCharKind(c).value)
    ensures KindName(SingleCharKind(c).value) == [c]
    ensures c !in "=!<>" ==> SingleCharKind(c).value !in {Assign, Bang, LessThan, GreaterThan}
  {
  }

  /** The facts about a one-character operator token that `ReadsTokenAt` needs. */
  lemma SingleCharToken(c: char)
    requires SingleCharKind(c).Some? && c != Nul
    ensures var t := Token(SingleCharKind(c).value, None);
            && Lexable(t) && Spelling(t) == [c]
            && !(t.kind == Ident || IsKeywordKind(t.kind)) && t.kind != Int
            && (t.kind in {Assign, Bang, LessThan, GreaterThan} ==> TwoCharKind(c).Some?)
  {
    SingleCharSpelling(c);
  }

  lemma ReadsTwoChar(input: string, s: nat)
    requires s < |input| && TwoCharToken(input, s).Some?
    ensures ReadsTokenAt(input, s, NextToken(input, s))
  {
    var c := input[s];
    var k := TwoCharKind(c).value;
    assert NextToken(input, s) == Success((Token(k, None), s + 2));
    TwoCharSpelling(c);
    assert input[s..s + 2] == [c, '='];
  }

  lemma ReadsSingleChar(input: string, s: nat)
    requires s < |input| && input[s] != Nul
    requires TwoCharToken(input, s).None? && SingleCharKind(input[s]).Some?
    ensures ReadsTokenAt(input, s, NextToken(input, s))
  {
    var c := input[s];
    var t := Token(SingleCharKind(c).value, None);
    assert NextToken(input, s) == Success((t, s + 1));
    SingleCharToken(c);
    assert input[s..s + 1] == [c];
    assert Maximal(input, t, s + 1) by {
      if s + 1 < |input| && t.kind in {Assign, Bang, LessThan, GreaterThan} {
        assert PeekChar(input, s) == input[s + 1];
      }
    }
  }

  lemma ReadsOperator(input: string, s: nat)
    requires s < |input| && input[s] != Nul
    requires TwoCharToken(input, s).Some? || SingleCharKind(input[s]).Some?
    ensures ReadsTokenAt(input, s, NextToken(input, s))
  {
    if TwoCharToken(input, s).Some? {
      ReadsTwoChar(input, s);
    } else {
      ReadsSingleChar(input, s);
    }
  }

  /** A letter starts no operator and is not skipped. */
  lemma LetterIsNoOperator(c: char)
    requires IsLetter(c)
    ensures TwoCharKind(c).None? && SingleCharKind(c).None? && !IsWhitespace(c)
  {
  }

  lemma NextTokenIsWord(input: string, s: nat)
    requires s < |input| && IsLetter(input[s])
    ensures NextToken(input, s) == ReadWord(input, s)
  {
    LetterIsNoOperator(input[s]);
    assert CurrentChar(input, s) == input[s];
    assert TwoCharToken(input, s).None?;
  }

  lemma WordIsIdentifier(input: string, s: nat)
    requires s < |input| && IsLetter(input[s])
    ensures IsIdentifier(input[s..IdentifierEnd(input, s, false)])
  {
    var word := input[s..IdentifierEnd(input, s, false)];
    assert forall i :: 0 <= i < |word| ==> word[i] == input[s + i];
  }

  lemma KeywordIsLexable(word: string, k: TokenKind)
    requires KeywordKind(word) == Some(k)
    ensures Lexable(Token(k, None)) && Spelling(Token(k, None)) == word
  {
  }

  lemma ReadsWord(input: string, s: nat)
    requires s < |input| && IsLetter(input[s])
    ensures ReadsTokenAt(input, s, NextToken(input, s))
  {
    NextTokenIsWord(input, s);
    WordIsIdentifier(input, s);
    var word := input[s..IdentifierEnd(input, s, false)];
    if KeywordKind(word).Some? {
      KeywordIsLexable(word, KeywordKind(word).value);
    }
  }

  lemma ReadsNumber(input: string, s: nat)
    requires s < |input| && IsDigit(input[s])
    ensures ReadsTokenAt(input, s, NextToken(input, s))
  {
    var end := NumberEnd(input, s);
    var digits := input[s..end];
    assert forall i :: 0 <= i < |digits| ==> digits[i] == input[s + i];
    assert NextToken(input, s) == Success((Token(Int, Some(digits)), end));
  }

  /** One call of `nextToken` on text without NUL: after skipping whitespace it
      returns EOF at the end of input without moving, fails exactly on an
      illegal character and names it, and otherwise returns a token whose
      spelling is exactly the text it consumed, read as far as it can go. */
  lemma LexesOneToken(input: string, pos: nat)
    requires NulFree(input) && pos <= |input|
    ensures var s := SkipWhitespace(input, pos);
            && (s == |input| ==> NextToken(input, pos) == Success((EofToken, s)))
            && (s < |input| ==> ReadsTokenAt(input, s, NextToken(input, pos)))
  {
    var s := SkipWhitespace(input, pos);
    SkipsWhitespace(input, pos);
    if s < |input| {
      var c := input[s];
      assert c != Nul;
      if TwoCharToken(input, s).Some? || SingleCharKind(c).Some? {
        ReadsOperator(input, s);
      } else if IsLetter(c) {
        ReadsWord(input, s);
      } else if IsDigit(c) {
        ReadsNumber(input, s);
      } else {
        assert IsIllegalChar(c);
      }
    }
  }

  lemma KeywordSpellingIsIdentifier(k: TokenKind)
    requires IsKeywordKind(k)
    ensures IsIdentifier(KeywordSpelling(k))
    ensures KeywordKind(KeywordSpelling(k)) == Some(k)
  {
  }

  /** Each operator is spelled by one switch character, or by the first
      character of a two-character operator followed by `=`. */
  lemma OperatorSpelling(k: TokenKind)
    requires IsOperatorKind(k)
    ensures var sp := KindName(k);
            || (|sp| == 1 && sp[0] != Nul && SingleCharKind(sp[0]) == Some(k))
            || (|sp| == 2 && TwoCharKind(sp[0]) == Some(k) && sp[1] == '=')
  {
  }

  lemma ReadsOperatorSpelling(input: string, pos: nat, k: TokenKind)
    requires IsOperatorKind(k)
    requires pos + |KindName(k)| <= |input|
    requires input[pos..pos + |KindName(k)|] == KindName(k)
    requires Maximal(input, Token(k, None), pos + |KindName(k)|)
    ensures NextToken(input, pos) == Success((Token(k, None), pos + |KindName(k)|))
  {
    var sp := KindName(k);
    OperatorSpelling(k);
    assert input[pos] == sp[0];
    if |sp| == 2 {
      assert input[pos + 1] == sp[1];
    } else if TwoCharKind(sp[0]).Some? {
      assert k in {Assign, Bang, LessThan, GreaterThan};
      assert PeekChar(input, pos) != '=';
    }
  }

  lemma ReadsWordSpelling(input: string, pos: nat, t: Token)
    requires Lexable(t) && (t.kind == Ident || IsKeywordKind(t.kind))
    requires pos + |Spelling(t)| <= |input|
    requires input[pos..pos + |Spelling(t)|] == Spelling(t)
    requires Maximal(input, t, pos + |Spelling(t)|)
    ensures NextToken(input, pos) == Success((t, pos + |Spelling(t)|))
  {
    var sp := Spelling(t);
    var e := pos + |sp|;
    if IsKeywordKind(t.kind) {
      KeywordSpellingIsIdentifier(t.kind);
    }
    assert IsIdentifier(sp);
    forall j | pos <= j < e
      ensures IsIdentChar(input[j])
    {
      assert input[j] == input[pos..e][j - pos] == sp[j - pos];
    }
    assert input[pos] == sp[0];
    IdentifierEndIs(input, pos, e);
    NextTokenIsWord(input, pos);
  }

  lemma ReadsNumberSpelling(input: string, pos: nat, t: Token)
    requires Lexable(t) && t.kind == Int
    requires pos + |Spelling(t)| <= |input|
    requires input[pos..pos + |Spelling(t)|] == Spelling(t)
    requires Maximal(input, t, pos + |Spelling(t)|)
    ensures NextToken(input, pos) == Success((t, pos + |Spelling(t)|))
  {
    var sp := Spelling(t);
    assert forall i :: 0 <= i < |sp| ==> input[pos + i] == sp[i];
    NumberEndIs(input, pos, pos + |sp|);
    assert NextToken(input, pos) == ReadNumber(input, pos);
  }

  /** A lexable token's spelling, followed by a character that cannot
      extend it or by the end of the input, is read back as that token. */
  lemma ReadsSpelling(input: string, pos: nat, t: Token)
    requires Lexable(t)
    requires pos + |Spelling(t)| <= |input|
    requires input[pos..pos + |Spelling(t)|] == Spelling(t)
    requires Maximal(input, t, pos + |Spelling(t)|)
    ensures NextToken(input, pos) == Success((t, pos + |Spelling(t)|))
  {
    if t.kind == Ident || IsKeywordKind(t.kind) {
      ReadsWordSpelling(input, pos, t);
    } else if t.kind == Int {
      ReadsNumberSpelling(input, pos, t);
    } else {
      ReadsOperatorSpelling(input, pos, t.kind);
    }
  }

  /** One lap of the drain loop on a token other than EOF. */
  lemma TokenizeFromStep(input: string, pos: nat, t: Token, e: nat, rest: seq<Token>)
    requires pos <= |input|
    requires NextToken(input, pos) == Success((t, e)) && t.kind != Eof
    requires e <= |input| && TokenizeFrom(input, e) == Success(rest)
    ensures TokenizeFrom(input, pos) == Success([t] + rest)
  {
  }

  /** Whitespace is read past: tokenizing from the start of a run of
      whitespace is tokenizing from its end. */
  lemma {:induction false} GapSkipped(input: string, e: nat, f: nat)
    requires e <= f <= |input|
    requires forall j :: e <= j < f ==> IsWhitespace(input[j])
    ensures TokenizeFrom(input, e) == TokenizeFrom(input, f)
    decreases f - e
  {
    if e < f {
      var c := input[e];
      assert IsWhitespace(c);
      assert TwoCharKind(c).None? && SingleCharKind(c).None?;
      assert NextToken(input, e) == NextToken(input, e + 1);
      GapSkipped(input, e + 1, f);
    }
  }

  /** Whitespace only: what may stand between two tokens. */
  predicate IsGap(g: string) {
    forall i :: 0 <= i < |g| ==> IsWhitespace(g[i])
  }

  predicate AllLexable(toks: seq<Token>) {
    forall i :: 0 <= i < |toks| ==> Lexable(toks[i])
  }

  /** The tokens written one after the other, with `gaps[i]` after the `i`th. */
  function Layout(toks: seq<Token>, gaps: seq<string>): string
    requires |gaps| == |toks| && AllLexable(toks)
  {
    if |toks| == 0 then "" else Spelling(toks[0]) + gaps[0] + Layout(toks[1..], gaps[1..])
  }

  /** A layout the lexer reads back: every gap is whitespace, and a gap is
      left empty only where the next token's first character cannot extend
      the token before it. */
  predicate Separated(toks: seq<Token>, gaps: seq<string>)
    requires |gaps| == |toks| && AllLexable(toks)
    decreases |toks|
  {
    || |toks| == 0
    || (&& IsGap(gaps[0])
        && (|toks| > 1 && gaps[0] == "" ==> Stops(toks[0], Spelling(toks[1])[0]))
        && Separated(toks[1..], gaps[1..]))
  }

  lemma SeparatedTail(toks: seq<Token>, gaps: seq<string>)
    requires |toks| > 0 && |gaps| == |toks| && AllLexable(toks) && Separated(toks, gaps)
    ensures AllLexable(toks[1..]) && Separated(toks[1..], gaps[1..])
  {
    assert forall i :: 0 <= i < |toks| - 1 ==> toks[1..][i] == toks[i + 1];
    assert forall i :: 0 <= i < |gaps| - 1 ==> gaps[1..][i] == gaps[i + 1];
  }

  /** Where three consecutive pieces of the text from `pos` on lie in the input. */
  lemma {:induction false} SliceThree(input: string, pos: nat, a: string, b: string, c: string)
    requires pos <= |input| && input[pos..] == a + b + c
    ensures var e := pos + |a|;
            && e + |b| <= |input|
            && input[pos..e] == a
            && (forall j :: e <= j < e + |b| ==> input[j] == b[j - e])
            && input[e + |b|..] == c
  {
    var e := pos + |a|;
    var rest := input[pos..];
    assert input[pos..e] == rest[..|a|];
    forall j | e <= j < e + |b|
      ensures input[j] == b[j - e]
    {
      assert input[j] == rest[j - pos];
    }
    assert input[e + |b|..] == rest[|a| + |b|..];
  }

  /** Where the first token, its gap and the rest of a layout lie in the input. */
  lemma {:induction false} LayoutSplit(input: string, pos: nat, toks: seq<Token>, gaps: seq<string>)
    requires |toks| > 0 && |gaps| == |toks| && AllLexable(toks) && AllLexable(toks[1..])
    requires pos <= |input| && input[pos..] == Layout(toks, gaps)
    ensures var e := pos + |Spelling(toks[0])|;
            && e + |gaps[0]| <= |input|
            && input[pos..e] == Spelling(toks[0])
            && (forall j :: e <= j < e + |gaps[0]| ==> input[j] == gaps[0][j - e])
            && input[e + |gaps[0]|..] == Layout(toks[1..], gaps[1..])
  {
    LayoutUnfold(toks, gaps);
    SliceThree(input, pos, Spelling(toks[0]), gaps[0], Layout(toks[1..], gaps[1..]));
  }

  lemma {:induction false} LayoutUnfold(toks: seq<Token>, gaps: seq<string>)
    requires |toks| > 0 && |gaps| == |toks| && AllLexable(toks) && AllLexable(toks[1..])
    ensures Layout(toks, gaps) == Spelling(toks[0]) + gaps[0] + Layout(toks[1..], gaps[1..])
  {
  }

  /** The first character of a non-empty layout is the first token's. */
  lemma LayoutStart(toks: seq<Token>, gaps: seq<string>)
    requires |toks| > 0 && |gaps| == |toks| && AllLexable(toks)
    ensures |Layout(toks, gaps)| > 0 && Layout(toks, gaps)[0] == Spelling(toks[0])[0]
  {
  }

  /** Whitespace stops every token. */
  lemma WhitespaceStops(t: Token, c: char)
    requires IsWhitespace(c)
    ensures Stops(t, c)
  {
    CharClasses(c);
  }

  /** The first token of a separated layout ends where its spelling ends. */
  lemma {:induction false} FirstTokenMaximal(input: string, pos: nat, toks: seq<Token>, gaps: seq<string>)
    requires |toks| > 0 && |gaps| == |toks| && AllLexable(toks) && AllLexable(toks[1..])
    requires Separated(toks, gaps) && Separated(toks[1..], gaps[1..])
    requires var e := pos + |Spelling(toks[0])|;
             && e + |gaps[0]| <= |input|
             && (forall j :: e <= j < e + |gaps[0]| ==> input[j] == gaps[0][j - e])
             && input[e + |gaps[0]|..] == Layout(toks[1..], gaps[1..])
    ensures Maximal(input, toks[0], pos + |Spelling(toks[0])|)
  {
    var e := pos + |Spelling(toks[0])|;
    if |gaps[0]| > 0 {
      assert input[e] == gaps[0][0];
      WhitespaceStops(toks[0], input[e]);
    } else if |toks| > 1 {
      LayoutStart(toks[1..], gaps[1..]);
      assert input[e] == input[e..][0];
    }
  }

  /** The first token of a separated layout is read back, ending at `e`,
      and the gap after it, up to `f`, is skipped. */
  lemma {:induction false} LayoutFirstToken(input: string, pos: nat, toks: seq<Token>, gaps: seq<string>) returns (e: nat, f: nat)
    requires |toks| > 0 && |gaps| == |toks| && AllLexable(toks) && Separated(toks, gaps)
    requires pos <= |input| && input[pos..] == Layout(toks, gaps)
    ensures e <= f <= |input| && toks[0].kind != Eof
    ensures NextToken(input, pos) == Success((toks[0], e))
    ensures TokenizeFrom(input, e) == TokenizeFrom(input, f)
    ensures AllLexable(toks[1..]) && Separated(toks[1..], gaps[1..])
    ensures input[f..] == Layout(toks[1..], gaps[1..])
  {
    var t := toks[0];
    SeparatedTail(toks, gaps);
    LayoutSplit(input, pos, toks, gaps);
    e := pos + |Spelling(t)|;
    f := e + |gaps[0]|;
    assert forall j :: e <= j < f ==> IsWhitespace(input[j]);
    GapSkipped(input, e, f);
    FirstTokenMaximal(input, pos, toks, gaps);
    ReadsSpelling(input, pos, t);
    LexableIsNotEof(t);
  }

  /** The drain loop at the end of the input. */
  lemma TokenizeAtEnd(input: string, pos: nat)
    requires pos <= |input| && input[pos..] == ""
    ensures TokenizeFrom(input, pos) == Success([EofToken])
  {
    assert pos == |input|;
    assert NextToken(input, pos) == Success((EofToken, pos));
  }

  /** One lap of the drain loop, with a gap skipped after the token. */
  lemma TokenizeAcrossGap(input: string, pos: nat, t: Token, e: nat, f: nat, toks: seq<Token>)
    requires pos <= |input| && e <= f <= |input| && |toks| > 0 && t == toks[0] && t.kind != Eof
    requires NextToken(input, pos) == Success((t, e))
    requires TokenizeFrom(input, e) == TokenizeFrom(input, f)
    requires TokenizeFrom(input, f) == Success(toks[1..] + [EofToken])
    ensures TokenizeFrom(input, pos) == Success(toks + [EofToken])
  {
    TokenizeFromStep(input, pos, t, e, toks[1..] + [EofToken]);
    ConsEof(toks);
  }

  /** The drain loop over a separated layout returns its tokens and one EOF. */
  lemma {:induction false} TokenizeFromLayout(input: string, pos: nat, toks: seq<Token>, gaps: seq<string>)
    requires |gaps| == |toks| && AllLexable(toks) && Separated(toks, gaps)
    requires pos <= |input| && input[pos..] == Layout(toks, gaps)
    ensures TokenizeFrom(input, pos) == Success(toks + [EofToken])
    decreases |toks|
  {
    if |toks| == 0 {
      TokenizeAtEnd(input, pos);
      assert toks + [EofToken] == [EofToken];
    } else {
      var e, f := LayoutFirstToken(input, pos, toks, gaps);
      TokenizeFromLayout(input, f, toks[1..], gaps[1..]);
      TokenizeAcrossGap(input, pos, toks[0], e, f, toks);
    }
  }

  /** Lexing is the inverse of writing tokens out: any separated layout of
      lexable tokens is read back as exactly those tokens followed by one EOF. */
  lemma LayoutRoundTrip(toks: seq<Token>, gaps: seq<string>)
    requires |gaps| == |toks| && AllLexable(toks) && Separated(toks, gaps)
    ensures Tokenize(Layout(toks, gaps)) == Success(toks + [EofToken])
  {
    TokenizeFromLayout(Layout(toks, gaps), 0, toks, gaps);
  }

  lemma LexableIsNotEof(t: Token)
    requires Lexable(t)
    ensures t.kind != Eof
  {
  }

  lemma ConsEof(toks: seq<Token>)
    requires |toks| > 0
    ensures [toks[0]] + (toks[1..] + [EofToken]) == toks + [EofToken]
  {
  }

  /** One space after every token. */
  function Spaces(n: nat): (gaps: seq<string>)
    ensures |gaps| == n && forall i :: 0 <= i < n ==> gaps[i] == " "
  {
    if n == 0 then [] else [" "] + Spaces(n - 1)
  }

  /** One space after every token separates any tokens. */
  lemma {:induction false} SpacesSeparated(toks: seq<Token>)
    requires AllLexable(toks)
    ensures Separated(toks, Spaces(|toks|))
    decreases |toks|
  {
    if |toks| > 0 {
      assert IsWhitespace(Spaces(|toks|)[0][0]);
      SpacesSeparated(toks[1..]);
      assert Spaces(|toks|)[1..] == Spaces(|toks| - 1);
    }
  }

  /** Token spellings each followed by one space. */
  function Unlex(toks: seq<Token>): string
    requires AllLexable(toks)
  {
    Layout(toks, Spaces(|toks|))
  }

  /** Tokens spelled with one space after each are read back as exactly
      those tokens followed by one EOF. */
  lemma UnlexRoundTrip(toks: seq<Token>)
    requires AllLexable(toks)
    ensures Tokenize(Unlex(toks)) == Success(toks + [EofToken])
  {
    SpacesSeparated(toks);
    LayoutRoundTrip(toks, Spaces(|toks|));
  }
}
