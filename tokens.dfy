/** Lexemes and tokens.

    PHP's lexer yields either a bare string (a punctuation character such as
    "{" or ";") or a triple (kind, text, line). `parse_php` first rewrites every
    lexeme into a triple; bare strings get the kind U_STRING and the line of
    the last triple seen before them. The lexer itself is not modelled; its
    output is the input here. */
module Tokens {
  import opened PhpValues

  /** The token kinds the compositor distinguishes; every other kind is `Other`. */
  datatype Kind =
    | UString      // the synthetic kind U_STRING given to bare-string lexemes
    | TClass
    | TString      // an identifier
    | TPublic
    | TPrivate
    | TProtected
    | TVariable
    | TFunction
    | TCurlyOpen   // "{$" inside an interpolated string
    | Other(id: int)

  /** A lexeme as the lexer produces it. */
  datatype RawLexeme = Bare(text: string) | Lexed(kind: Kind, text: string, line: int)

  /** A normalised lexeme. `line` is None where PHP would store an undefined (null) line. */
  datatype Token = Token(kind: Kind, text: string, line: Option<int>)

  /** The line of the last lexed (non-bare) lexeme in `raw`, if there is one. */
  function LastLine(raw: seq<RawLexeme>): Option<int>
  {
    if raw == [] then None
    else if raw[|raw| - 1].Lexed? then Some(raw[|raw| - 1].line)
    else LastLine(raw[..|raw| - 1])
  }

  /** What normalisation makes of the lexeme at position `i`. */
  function NormalisedAt(raw: seq<RawLexeme>, i: nat): Token
    requires i < |raw|
  {
    match raw[i]
    case Bare(text) => Token(UString, text, LastLine(raw[..i]))
    case Lexed(kind, text, line) => Token(kind, text, Some(line))
  }

  /** The normalised sequence: one token per lexeme, in order. */
  function Normalised(raw: seq<RawLexeme>): (ts: seq<Token>)
    ensures |ts| == |raw|
    ensures forall i :: 0 <= i < |raw| ==> ts[i] == NormalisedAt(raw, i)
  {
    seq(|raw|, i requires 0 <= i < |raw| => NormalisedAt(raw, i))
  }

  /** The first loop of `parse_php`: rewrite every lexeme into a uniform token. */
  method NormaliseLexemes(raw: seq<RawLexeme>) returns (lexes: seq<Token>)
    ensures |lexes| == |raw|
    ensures forall i :: 0 <= i < |raw| && raw[i].Lexed? ==>
      lexes[i] == Token(raw[i].kind, raw[i].text, Some(raw[i].line))
    ensures forall i :: 0 <= i < |raw| && raw[i].Bare? ==>
      lexes[i] == Token(UString, raw[i].text, LastLine(raw[..i]))
    ensures lexes == Normalised(raw)
  {
    lexes := [];
    var curLine: Option<int> := None;
    var i := 0;
    while i < |raw|
      invariant 0 <= i <= |raw|
      invariant |lexes| == i
      invariant curLine == LastLine(raw[..i])
      invariant forall j :: 0 <= j < i ==> lexes[j] == NormalisedAt(raw, j)
    {
      var lex: Token;
      if raw[i].Bare? {
        lex := Token(UString, raw[i].text, curLine);
      } else {
        lex := Token(raw[i].kind, raw[i].text, Some(raw[i].line));
        curLine := Some(raw[i].line);
      }
      assert raw[..i + 1][..i] == raw[..i];
      lexes := lexes + [lex];
      i := i + 1;
    }
  }

  /** The text of a token sequence: the texts of its tokens, in order, without separators. */
  function Concat(ts: seq<Token>): string
  {
    if ts == [] then "" else Concat(ts[..|ts| - 1]) + ts[|ts| - 1].text
  }

  /** Rendering distributes over concatenation of token sequences. */
  lemma {:induction false} ConcatAppend(a: seq<Token>, b: seq<Token>)
    ensures Concat(a + b) == Concat(a) + Concat(b)
    decreases |b|
  {
    if b == [] {
      assert a + b == a;
    } else {
      var b' := b[..|b| - 1];
      assert (a + b)[..|a + b| - 1] == a + b';
      ConcatAppend(a, b');
    }
  }

  /** The text of the tokens at positions [lo, hi), without separators. */
  function Text(ts: seq<Token>, lo: nat, hi: nat): string
    requires lo <= hi <= |ts|
    decreases hi - lo
  {
    if lo == hi then "" else Text(ts, lo, hi - 1) + ts[hi - 1].text
  }

  /** The text of a range is the rendering of its slice. */
  lemma {:induction false} TextIsConcat(ts: seq<Token>, lo: nat, hi: nat)
    requires lo <= hi <= |ts|
    ensures Text(ts, lo, hi) == Concat(ts[lo..hi])
    decreases hi - lo
  {
    if lo < hi {
      TextIsConcat(ts, lo, hi - 1);
      assert ts[lo..hi][..hi - lo - 1] == ts[lo..hi - 1];
    }
  }

  /** `lexes_to_string`: concatenate the texts of all tokens. */
  method LexesToString(lexes: seq<Token>) returns (s: string)
    ensures s == Concat(lexes)
  {
    s := "";
    var i := 0;
    while i < |lexes|
      invariant 0 <= i <= |lexes|
      invariant s == Concat(lexes[..i])
    {
      assert lexes[..i + 1][..i] == lexes[..i];
      s := s + lexes[i].text;
      i := i + 1;
    }
    assert lexes[..|lexes|] == lexes;
  }
}
