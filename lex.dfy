/** The tokenizer (src/lex.rs): surround every parenthesis with spaces,
    split on ASCII whitespace, and turn each piece into a token. */
module Lex {
  import opened Wrappers

  datatype Token = LPar | RPar | Literal(text: string)

  datatype LexError = UnknownToken(text: string)

  /** The hand-written `PartialEq` of tokens: literals compare by text, each
      parenthesis equals only itself. */
  function TokenEq(a: Token, b: Token): (r: bool)
    ensures r <==> a == b
  {
    match (a, b)
    case (Literal(l1), Literal(l2)) => l1 == l2
    case (LPar, LPar) => true
    case (RPar, RPar) => true
    case _ => false
  }

  /** `TokenEq` is an equivalence relation. */
  lemma TokenEqIsEquivalence()
    ensures forall a: Token :: TokenEq(a, a)
    ensures forall a: Token, b: Token :: TokenEq(a, b) <==> TokenEq(b, a)
    ensures forall a: Token, b: Token, c: Token :: TokenEq(a, b) && TokenEq(b, c) ==> TokenEq(a, c)
  {
  }

  /** Rust's `char::is_ascii_whitespace`: space, tab, line feed, form feed,
      carriage return (not vertical tab). */
  predicate IsAsciiWhitespace(c: char) {
    c == ' ' || c == '\t' || c == '\n' || c == '\U{000C}' || c == '\r'
  }

  predicate IsParen(c: char) {
    c == '(' || c == ')'
  }

  /** `s.replace(c, with)` for a one-character pattern `c`. */
  function Replace(s: string, c: char, with: string): string
  {
    if s == [] then [] else (if s[0] == c then with else [s[0]]) + Replace(s[1..], c, with)
  }

  /** The input after the two `replace` calls of `lex`. */
  function Padded(input: string): string {
    Replace(Replace(input, '(', " ( "), ')', " ) ")
  }

  /** `split_ascii_whitespace`: the maximal runs of non-whitespace characters,
      in order. `cur` is the run read so far. */
  function SplitFrom(s: string, cur: string): seq<string>
  {
    if s == [] then (if cur == [] then [] else [cur])
    else if IsAsciiWhitespace(s[0]) then (if cur == [] then [] else [cur]) + SplitFrom(s[1..], [])
    else SplitFrom(s[1..], cur + [s[0]])
  }

  function SplitAsciiWhitespace(s: string): seq<string> {
    SplitFrom(s, [])
  }

  /** The closure `lex` maps over the pieces; it never fails. */
  function ToToken(piece: string): Result<Token, LexError> {
    match piece
    case "(" => Ok(LPar)
    case ")" => Ok(RPar)
    case _ => Ok(Literal(piece))
  }

  /** `collect::<Result<Vec<Token>, LexError>>()`: the tokens, or the first error. */
  function Collect(pieces: seq<string>): Result<seq<Token>, LexError>
  {
    if pieces == [] then Ok([])
    else
      match ToToken(pieces[0])
      case Fail(e) => Fail(e)
      case Ok(t) =>
        match Collect(pieces[1..])
        case Fail(e) => Fail(e)
        case Ok(ts) => Ok([t] + ts)
  }

  /** Lexing never fails: `UnknownToken` is never produced. */
  function Lex(input: string): (r: Result<seq<Token>, LexError>)
    ensures r.Ok?
  {
    CollectOk(SplitAsciiWhitespace(Padded(input)));
    Collect(SplitAsciiWhitespace(Padded(input)))
  }

  // ---------------------------------------------------------------------
  // Reference views of the input and of the token sequence

  /** The text a token stands for. */
  function TokenText(t: Token): string {
    match t
    case LPar => "("
    case RPar => ")"
    case Literal(s) => s
  }

  function Concat(ws: seq<string>): string {
    if ws == [] then [] else ws[0] + Concat(ws[1..])
  }

  function Texts(ts: seq<Token>): string {
    if ts == [] then [] else TokenText(ts[0]) + Texts(ts[1..])
  }

  function RemoveWhitespace(s: string): string {
    if s == [] then []
    else (if IsAsciiWhitespace(s[0]) then [] else [s[0]]) + RemoveWhitespace(s[1..])
  }

  /** The parentheses of a text, in order, as tokens. */
  function Parens(s: string): seq<Token> {
    if s == [] then []
    else (if s[0] == '(' then [LPar] else if s[0] == ')' then [RPar] else []) + Parens(s[1..])
  }

  /** The parenthesis tokens of a token sequence, in order. */
  function ParenTokens(ts: seq<Token>): seq<Token> {
    if ts == [] then [] else (if ts[0].Literal? then [] else [ts[0]]) + ParenTokens(ts[1..])
  }

  /** A piece of text that is neither a parenthesis nor whitespace throughout. */
  predicate Plain(w: string) {
    forall i | 0 <= i < |w| :: !IsParen(w[i]) && !IsAsciiWhitespace(w[i])
  }

  /** What a literal token's text always is. */
  predicate GoodLiteral(w: string) {
    w != [] && Plain(w)
  }

  /** `Padded` written one character at a time. */
  function PadEach(s: string): string {
    if s == [] then []
    else (if s[0] == '(' then " ( " else if s[0] == ')' then " ) " else [s[0]]) + PadEach(s[1..])
  }

  // ---------------------------------------------------------------------
  // Lemmas

  lemma {:induction false} ReplaceAppend(a: string, b: string, c: char, with: string)
    ensures Replace(a + b, c, with) == Replace(a, c, with) + Replace(b, c, with)
  {
    if a != [] {
      assert (a + b)[0] == a[0];
      assert (a + b)[1..] == a[1..] + b;
      ReplaceAppend(a[1..], b, c, with);
    } else {
      assert a + b == b;
    }
  }

  lemma {:induction false} PaddedIsPadEach(s: string)
    ensures Padded(s) == PadEach(s)
  {
    if s != [] {
      var once := Replace(s, '(', " ( ");
      var head := if s[0] == '(' then " ( " else [s[0]];
      assert once == head + Replace(s[1..], '(', " ( ");
      ReplaceAppend(head, Replace(s[1..], '(', " ( "), ')', " ) ");
      PaddedIsPadEach(s[1..]);
      if s[0] == '(' {
        assert Replace(" ( ", ')', " ) ") == " ( " by {
          assert " ( "[1..] == "( ";
          assert "( "[1..] == " ";
          assert " "[1..] == [];
        }
      } else {
        assert Replace(head, ')', " ) ") == (if s[0] == ')' then " ) " else [s[0]]) by {
          assert head[1..] == [];
        }
      }
    }
  }

  lemma {:induction false} RemoveWhitespaceAppend(a: string, b: string)
    ensures RemoveWhitespace(a + b) == RemoveWhitespace(a) + RemoveWhitespace(b)
  {
    if a != [] {
      assert (a + b)[0] == a[0];
      assert (a + b)[1..] == a[1..] + b;
      RemoveWhitespaceAppend(a[1..], b);
    } else {
      assert a + b == b;
    }
  }

  lemma {:induction false} ParensAppend(a: string, b: string)
    ensures Parens(a + b) == Parens(a) + Parens(b)
  {
    if a != [] {
      assert (a + b)[0] == a[0];
      assert (a + b)[1..] == a[1..] + b;
      ParensAppend(a[1..], b);
    } else {
      assert a + b == b;
    }
  }

  /** Padding adds only whitespace. */
  lemma {:induction false} PadEachRemoveWhitespace(s: string)
    ensures RemoveWhitespace(PadEach(s)) == RemoveWhitespace(s)
  {
    if s != [] {
      var head := if s[0] == '(' then " ( " else if s[0] == ')' then " ) " else [s[0]];
      RemoveWhitespaceAppend(head, PadEach(s[1..]));
      PadEachRemoveWhitespace(s[1..]);
      assert RemoveWhitespace(head) == (if IsAsciiWhitespace(s[0]) then [] else [s[0]]) by {
        if IsParen(s[0]) {
          assert head[0] == ' ' && head[1..] == [s[0], ' '];
          assert head[1..][1..] == [' '] && head[1..][1..][1..] == [];
          assert RemoveWhitespace(head[1..][1..]) == [];
          assert RemoveWhitespace(head[1..]) == [s[0]];
        } else {
          assert head[1..] == [];
        }
      }
    }
  }

  /** Splitting keeps every non-whitespace character, in order. */
  lemma {:induction false} SplitKeepsText(s: string, cur: string)
    ensures Concat(SplitFrom(s, cur)) == cur + RemoveWhitespace(s)
  {
    if s == [] {
      if cur != [] {
        assert Concat([cur]) == cur + Concat([cur][1..]);
      }
    } else if IsAsciiWhitespace(s[0]) {
      SplitKeepsText(s[1..], []);
      var rest := SplitFrom(s[1..], []);
      assert RemoveWhitespace(s) == RemoveWhitespace(s[1..]);
      if cur != [] {
        assert ([cur] + rest)[0] == cur;
        assert ([cur] + rest)[1..] == rest;
        assert Concat([cur] + rest) == cur + Concat(rest);
      } else {
        assert [] + rest == rest;
      }
    } else {
      SplitKeepsText(s[1..], cur + [s[0]]);
    }
  }

  /** No piece of a split is empty or holds whitespace. */
  lemma {:induction false} SplitPiecesNonEmpty(s: string, cur: string)
    requires forall i | 0 <= i < |cur| :: !IsAsciiWhitespace(cur[i])
    ensures forall w | w in SplitFrom(s, cur) ::
      w != [] && forall i | 0 <= i < |w| :: !IsAsciiWhitespace(w[i])
  {
    if s == [] {
    } else if IsAsciiWhitespace(s[0]) {
      SplitPiecesNonEmpty(s[1..], []);
    } else {
      SplitPiecesNonEmpty(s[1..], cur + [s[0]]);
    }
  }

  /** After padding, every piece is a lone parenthesis or a plain word. */
  lemma {:induction false} PaddedPieces(s: string, cur: string)
    requires Plain(cur)
    ensures forall w | w in SplitFrom(PadEach(s), cur) :: w == "(" || w == ")" || GoodLiteral(w)
  {
    var flushed: seq<string> := if cur == [] then [] else [cur];
    if s == [] {
    } else if IsParen(s[0]) {
      var p := s[0];
      var rest := PadEach(s[1..]);
      var t := [' ', p, ' '] + rest;
      assert PadEach(s) == t;
      assert t[0] == ' ' && t[1..] == [p, ' '] + rest;
      assert SplitFrom(t, cur) == flushed + SplitFrom([p, ' '] + rest, []);
      assert ([p, ' '] + rest)[1..] == [' '] + rest;
      assert [] + [p] == [p];
      assert SplitFrom([p, ' '] + rest, []) == SplitFrom([' '] + rest, [p]);
      assert ([' '] + rest)[1..] == rest;
      assert SplitFrom([' '] + rest, [p]) == [[p]] + SplitFrom(rest, []);
      PaddedPieces(s[1..], []);
    } else if IsAsciiWhitespace(s[0]) {
      assert PadEach(s) == [s[0]] + PadEach(s[1..]);
      assert ([s[0]] + PadEach(s[1..]))[1..] == PadEach(s[1..]);
      PaddedPieces(s[1..], []);
    } else {
      assert PadEach(s) == [s[0]] + PadEach(s[1..]);
      assert ([s[0]] + PadEach(s[1..]))[1..] == PadEach(s[1..]);
      PaddedPieces(s[1..], cur + [s[0]]);
    }
  }

  /** Collecting never fails and maps each piece to its token. */
  lemma {:induction false} CollectOk(pieces: seq<string>)
    ensures Collect(pieces).Ok?
    ensures |Collect(pieces).value| == |pieces|
    ensures forall i | 0 <= i < |pieces| :: Collect(pieces).value[i] == ToToken(pieces[i]).value
  {
    if pieces != [] {
      CollectOk(pieces[1..]);
    }
  }

  lemma {:induction false} TextsOfCollect(pieces: seq<string>)
    ensures Collect(pieces).Ok? && Texts(Collect(pieces).value) == Concat(pieces)
  {
    CollectOk(pieces);
    if pieces != [] {
      TextsOfCollect(pieces[1..]);
      var ts := Collect(pieces).value;
      assert ts[1..] == Collect(pieces[1..]).value;
    }
  }

  lemma {:induction false} ParenTokensOfTexts(ts: seq<Token>)
    requires forall i | 0 <= i < |ts| :: ts[i].Literal? ==> Plain(ts[i].text)
    ensures ParenTokens(ts) == Parens(Texts(ts))
  {
    if ts != [] {
      ParenTokensOfTexts(ts[1..]);
      ParensAppend(TokenText(ts[0]), Texts(ts[1..]));
      match ts[0]
      case LPar => assert "("[1..] == [];
      case RPar => assert ")"[1..] == [];
      case Literal(w) => PlainHasNoParens(w);
    }
  }

  lemma {:induction false} PlainHasNoParens(w: string)
    requires Plain(w)
    ensures Parens(w) == []
  {
    if w != [] {
      assert Plain(w[1..]) by {
        forall i | 0 <= i < |w[1..]| ensures !IsParen(w[1..][i]) && !IsAsciiWhitespace(w[1..][i]) {
          assert w[1..][i] == w[i + 1];
        }
      }
      PlainHasNoParens(w[1..]);
    }
  }

  lemma {:induction false} ParensIgnoreWhitespace(s: string)
    ensures Parens(RemoveWhitespace(s)) == Parens(s)
  {
    if s != [] {
      var head := if IsAsciiWhitespace(s[0]) then [] else [s[0]];
      ParensAppend(head, RemoveWhitespace(s[1..]));
      ParensIgnoreWhitespace(s[1..]);
      if head != [] {
        assert head[1..] == [];
      }
    }
  }

  // ---------------------------------------------------------------------
  // The properties of `lex`


  /** Every literal is non-empty and holds no parenthesis and no whitespace. */
  lemma LexLiteralsArePlain(input: string)
    ensures Lex(input).Ok?
    ensures forall t | t in Lex(input).value :: t.Literal? ==> GoodLiteral(t.text)
  {
    var pieces := SplitAsciiWhitespace(Padded(input));
    PaddedIsPadEach(input);
    PaddedPieces(input, []);
    CollectOk(pieces);
    var ts := Lex(input).value;
    forall t | t in ts && t.Literal?
      ensures GoodLiteral(t.text)
    {
      var i :| 0 <= i < |ts| && ts[i] == t;
      assert pieces[i] in pieces;
    }
  }

  /** The token texts, concatenated, are the input without its whitespace. */
  lemma LexKeepsText(input: string)
    ensures Lex(input).Ok?
    ensures Texts(Lex(input).value) == RemoveWhitespace(input)
  {
    var pieces := SplitAsciiWhitespace(Padded(input));
    CollectOk(pieces);
    TextsOfCollect(pieces);
    SplitKeepsText(Padded(input), []);
    PaddedIsPadEach(input);
    PadEachRemoveWhitespace(input);
  }

  /** Every `(` of the input becomes an `LPar` and every `)` an `RPar`, in order,
      and no other token is a parenthesis. */
  lemma LexParens(input: string)
    ensures Lex(input).Ok?
    ensures ParenTokens(Lex(input).value) == Parens(input)
  {
    LexLiteralsArePlain(input);
    LexKeepsText(input);
    var ts := Lex(input).value;
    forall i | 0 <= i < |ts| && ts[i].Literal?
      ensures Plain(ts[i].text)
    {
      assert ts[i] in ts;
    }
    ParenTokensOfTexts(ts);
    ParensIgnoreWhitespace(input);
  }
}
