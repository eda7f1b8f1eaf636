/** The recursive-descent parser (src/parse.rs): one expression tree from a
    token sequence, threading an explicit index. */
module Parse {
  import opened Wrappers
  import opened Types
  import opened Lex

  datatype ParseError = BadParse(message: string) | EOF

  datatype ParseResult = Success(next: nat, expr: Expr) | Failure(error: ParseError)

  /** Rust's `str::parse::<f64>`, which the model leaves abstract: the number a
      literal's text denotes, if any. */
  type NumberReader = string -> Option<Num>

  /** A literal becomes a number when its text reads as one, a symbol otherwise. */
  function Atom(text: string, readNum: NumberReader): (r: Expr)
    ensures r.FNum? <==> readNum(text).Some?
    ensures r.FNum? ==> r.num == readNum(text).value
    ensures !r.FNum? ==> r == Symbol(text)
  {
    match readNum(text)
    case Some(n) => FNum(n)
    case None => Symbol(text)
  }

  // ---------------------------------------------------------------------
  // Specification of `parser`

  /** What `parser(tokens, index)` returns. */
  function ParseAt(tokens: seq<Token>, index: nat, readNum: NumberReader): (r: ParseResult)
    ensures r.Success? ==> index < r.next <= |tokens|
    decreases |tokens| - index, 0
  {
    if index >= |tokens| then Failure(EOF)
    else
      match tokens[index]
      case LPar => ParseItems(tokens, index + 1, [], readNum)
      case RPar => Failure(BadParse("Unexpected ) encountered!"))
      case Literal(s) => Success(index + 1, Atom(s, readNum))
  }

  /** The `while` loop of `parser` after an opening parenthesis: `items` are the
      elements parsed so far; one more element is parsed at `index`, then the
      list ends if the next token is `)`. */
  function ParseItems(tokens: seq<Token>, index: nat, items: seq<Expr>, readNum: NumberReader): (r: ParseResult)
    requires index <= |tokens|
    ensures r.Success? ==> index < r.next <= |tokens|
    decreases |tokens| - index, 1
  {
    match ParseAt(tokens, index, readNum)
    case Failure(e) => Failure(e)
    case Success(next, x) =>
      if next >= |tokens| then Failure(BadParse("Unclosed delimiter!"))
      else if TokenEq(tokens[next], RPar) then Success(next + 1, List(items + [x]))
      else ParseItems(tokens, next, items + [x], readNum)
  }

  // ---------------------------------------------------------------------
  // The parser as the program writes it

  /** `parser`: the index and the current token advance in a `while` loop that
      pushes each sub-expression; each element is parsed by a recursive call. */
  method Parser(tokens: seq<Token>, index: nat, readNum: NumberReader) returns (r: ParseResult)
    ensures r == ParseAt(tokens, index, readNum)
    decreases |tokens| - index
  {
    var i := index;
    if i < |tokens| {
      var t := tokens[i];
      match t
      case LPar =>
        i := i + 1;
        var exprs: seq<Expr> := [];
        while !TokenEq(t, RPar)
          invariant index < i <= |tokens|
          invariant !TokenEq(t, RPar) ==> ParseAt(tokens, index, readNum) == ParseItems(tokens, i, exprs, readNum)
          invariant TokenEq(t, RPar) ==> i < |tokens| && ParseAt(tokens, index, readNum) == Success(i + 1, List(exprs))
          decreases |tokens| - i, if TokenEq(t, RPar) then 0 else 1
        {
          var sub := Parser(tokens, i, readNum);
          match sub {
            case Success(idx, expr) =>
              i := idx;
              exprs := exprs + [expr];
            case Failure(error) =>
              return Failure(error);
          }
          if i >= |tokens| {
            return Failure(BadParse("Unclosed delimiter!"));
          }
          t := tokens[i];
        }
        r := Success(i + 1, List(exprs));
      case RPar =>
        r := Failure(BadParse("Unexpected ) encountered!"));
      case Literal(s) =>
        r := Success(i + 1, Atom(s, readNum));
    } else {
      r := Failure(EOF);
    }
  }

  /** `parse`: the first expression of the tokens, or the parser's error. */
  method Parse(tokens: seq<Token>, readNum: NumberReader) returns (r: Result<Expr, ParseError>)
    ensures ParseAt(tokens, 0, readNum).Success? ==> r == Ok(ParseAt(tokens, 0, readNum).expr)
    ensures ParseAt(tokens, 0, readNum).Failure? ==> r == Fail(ParseAt(tokens, 0, readNum).error)
  {
    var p := Parser(tokens, 0, readNum);
    match p
    case Success(_, expr) => r := Ok(expr);
    case Failure(error) => r := Fail(error);
  }

  // ---------------------------------------------------------------------
  // Properties of the parser

  /** The leading token decides the atoms and the errors. */
  lemma LeadingToken(tokens: seq<Token>, index: nat, readNum: NumberReader)
    ensures index >= |tokens| ==> ParseAt(tokens, index, readNum) == Failure(EOF)
    ensures index < |tokens| && tokens[index] == RPar ==>
      ParseAt(tokens, index, readNum) == Failure(BadParse("Unexpected ) encountered!"))
    ensures index < |tokens| && tokens[index].Literal? ==>
      ParseAt(tokens, index, readNum) == Success(index + 1, Atom(tokens[index].text, readNum))
  {
  }

  /** `( )` never parses: the element loop always reads at least one element. */
  lemma EmptyListNeverParses(tokens: seq<Token>, index: nat, readNum: NumberReader)
    requires index + 1 < |tokens| && tokens[index] == LPar && tokens[index + 1] == RPar
    ensures ParseAt(tokens, index, readNum) == Failure(BadParse("Unexpected ) encountered!"))
  {
    assert ParseAt(tokens, index + 1, readNum) == Failure(BadParse("Unexpected ) encountered!"));
  }

  /** Every list in a tree, however deep, has at least one element. */
  ghost predicate NoEmptyList(e: Expr) {
    match e
    case List(xs) => xs != [] && forall i | 0 <= i < |xs| :: NoEmptyList(xs[i])
    case _ => true
  }

  /** A parsed list starts at `(` and ends one past a `)` (`ParsedBalanced`
      shows that this `)` matches the opening one), and no list in a parsed
      tree is empty. */
  lemma {:induction false} ParsedShape(tokens: seq<Token>, index: nat, readNum: NumberReader)
    requires ParseAt(tokens, index, readNum).Success?
    ensures NoEmptyList(ParseAt(tokens, index, readNum).expr)
    ensures ParseAt(tokens, index, readNum).expr.List? ==>
      tokens[index] == LPar && tokens[ParseAt(tokens, index, readNum).next - 1] == RPar
    decreases |tokens| - index, 0
  {
    if tokens[index] == LPar {
      ItemsShape(tokens, index + 1, [], readNum);
    }
  }

  lemma {:induction false} ItemsShape(tokens: seq<Token>, index: nat, items: seq<Expr>, readNum: NumberReader)
    requires index <= |tokens|
    requires forall i | 0 <= i < |items| :: NoEmptyList(items[i])
    requires ParseItems(tokens, index, items, readNum).Success?
    ensures ParseItems(tokens, index, items, readNum).expr.List?
    ensures NoEmptyList(ParseItems(tokens, index, items, readNum).expr)
    ensures tokens[ParseItems(tokens, index, items, readNum).next - 1] == RPar
    decreases |tokens| - index, 1
  {
    var p := ParseAt(tokens, index, readNum);
    ParsedShape(tokens, index, readNum);
    var more := items + [p.expr];
    assert forall i | 0 <= i < |more| :: NoEmptyList(more[i]);
    if !TokenEq(tokens[p.next], RPar) {
      ItemsShape(tokens, p.next, more, readNum);
    }
  }

  /** How much a token opens: `(` one, `)` minus one, a literal nothing. */
  function Delta(t: Token): int {
    match t
    case LPar => 1
    case RPar => -1
    case Literal(_) => 0
  }

  /** The number of `(` minus the number of `)` in a run of tokens. */
  function Depth(ts: seq<Token>): int {
    if ts == [] then 0 else Delta(ts[0]) + Depth(ts[1..])
  }

  lemma {:induction false} DepthAppend(a: seq<Token>, b: seq<Token>)
    ensures Depth(a + b) == Depth(a) + Depth(b)
    decreases |a|
  {
    if a == [] {
      assert a + b == b;
    } else {
      assert (a + b)[1..] == a[1..] + b;
      DepthAppend(a[1..], b);
    }
  }

  lemma DepthSplit(ts: seq<Token>, i: nat, j: nat, k: nat)
    requires i <= j <= k <= |ts|
    ensures Depth(ts[i..k]) == Depth(ts[i..j]) + Depth(ts[j..k])
  {
    assert ts[i..k] == ts[i..j] + ts[j..k];
    DepthAppend(ts[i..j], ts[j..k]);
  }

  /** `ts[i..n]` is balanced: as many `(` as `)`, and more `(` than `)` in
      every proper non-empty prefix. */
  ghost predicate Matched(ts: seq<Token>, i: nat, n: nat) {
    && i < n <= |ts|
    && Depth(ts[i..n]) == 0
    && forall k | i < k < n :: Depth(ts[i..k]) > 0
  }

  /** The tokens a successful parse consumes are balanced, so the `)` that
      ends a parsed list is the one matching its opening `(`: the count of
      open parentheses first returns to zero there. */
  lemma {:induction false} ParsedBalanced(tokens: seq<Token>, index: nat, readNum: NumberReader)
    requires ParseAt(tokens, index, readNum).Success?
    ensures Matched(tokens, index, ParseAt(tokens, index, readNum).next)
    decreases |tokens| - index, 0
  {
    var n := ParseAt(tokens, index, readNum).next;
    if tokens[index] == LPar {
      ItemsBalanced(tokens, index + 1, [], readNum);
      assert tokens[index..index + 1] == [LPar];
      forall k | index < k <= n
        ensures Depth(tokens[index..k]) == 1 + Depth(tokens[index + 1..k])
      {
        DepthSplit(tokens, index, index + 1, k);
      }
    } else {
      assert tokens[index..n] == [tokens[index]];
    }
  }

  /** After `(`: the elements and the closing `)` take the count of open
      parentheses to minus one, and it does not drop below zero before. */
  lemma {:induction false} ItemsBalanced(tokens: seq<Token>, index: nat, items: seq<Expr>, readNum: NumberReader)
    requires index <= |tokens|
    requires ParseItems(tokens, index, items, readNum).Success?
    ensures var n := ParseItems(tokens, index, items, readNum).next;
            Depth(tokens[index..n]) == -1 && forall k | index <= k < n :: Depth(tokens[index..k]) >= 0
    decreases |tokens| - index, 1
  {
    var p := ParseAt(tokens, index, readNum);
    var m := p.next;
    var n := ParseItems(tokens, index, items, readNum).next;
    ParsedBalanced(tokens, index, readNum);
    assert tokens[index..index] == [];
    if tokens[m] == RPar {
      assert tokens[m..m + 1] == [RPar];
      DepthSplit(tokens, index, m, m + 1);
    } else {
      ItemsBalanced(tokens, m, items + [p.expr], readNum);
      DepthSplit(tokens, index, m, n);
      forall k | m <= k < n
        ensures Depth(tokens[index..k]) >= 0
      {
        DepthSplit(tokens, index, m, k);
      }
    }
  }

  /** The result of a successful parse depends only on the tokens it consumed. */
  lemma {:induction false} ParseIsLocal(t1: seq<Token>, t2: seq<Token>, index: nat, readNum: NumberReader)
    requires ParseAt(t1, index, readNum).Success?
    requires ParseAt(t1, index, readNum).next <= |t2|
    requires t1[index..ParseAt(t1, index, readNum).next] == t2[index..ParseAt(t1, index, readNum).next]
    ensures ParseAt(t2, index, readNum) == ParseAt(t1, index, readNum)
    decreases |t1| - index, 0
  {
    assert t1[index] == t1[index..ParseAt(t1, index, readNum).next][0];
    assert t2[index] == t2[index..ParseAt(t1, index, readNum).next][0];
    if t1[index] == LPar {
      ItemsAreLocal(t1, t2, index + 1, [], readNum);
    }
  }

  lemma {:induction false} ItemsAreLocal(t1: seq<Token>, t2: seq<Token>, index: nat, items: seq<Expr>, readNum: NumberReader)
    requires index <= |t1| && index <= |t2|
    requires ParseItems(t1, index, items, readNum).Success?
    requires ParseItems(t1, index, items, readNum).next <= |t2|
    requires t1[index..ParseItems(t1, index, items, readNum).next] == t2[index..ParseItems(t1, index, items, readNum).next]
    ensures ParseItems(t2, index, items, readNum) == ParseItems(t1, index, items, readNum)
    decreases |t1| - index, 1
  {
    var end := ParseItems(t1, index, items, readNum).next;
    var p := ParseAt(t1, index, readNum);
    assert p.next < end by {
      if !TokenEq(t1[p.next], RPar) {
        assert ParseItems(t1, index, items, readNum) == ParseItems(t1, p.next, items + [p.expr], readNum);
      }
    }
    assert t1[index..p.next] == t1[index..end][..p.next - index];
    assert t2[index..p.next] == t2[index..end][..p.next - index];
    ParseIsLocal(t1, t2, index, readNum);
    assert t1[p.next] == t1[index..end][p.next - index];
    assert t2[p.next] == t2[index..end][p.next - index];
    if !TokenEq(t1[p.next], RPar) {
      assert t1[p.next..end] == t1[index..end][p.next - index..];
      assert t2[p.next..end] == t2[index..end][p.next - index..];
      ItemsAreLocal(t1, t2, p.next, items + [p.expr], readNum);
    }
  }

  /** `parse` reads only the first expression: tokens after it are ignored. */
  lemma TrailingTokensIgnored(tokens: seq<Token>, more: seq<Token>, readNum: NumberReader)
    requires ParseAt(tokens, 0, readNum).Success?
    ensures ParseAt(tokens + more, 0, readNum) == ParseAt(tokens, 0, readNum)
  {
    var n := ParseAt(tokens, 0, readNum).next;
    assert tokens[0..n] == (tokens + more)[0..n];
    ParseIsLocal(tokens, tokens + more, 0, readNum);
  }

  /** Dropping the closing `)` of a parsed list leaves it unclosed. */
  lemma MissingCloserIsUnclosed(tokens: seq<Token>, index: nat, readNum: NumberReader)
    requires ParseAt(tokens, index, readNum).Success?
    requires ParseAt(tokens, index, readNum).expr.List?
    ensures ParseAt(tokens[..ParseAt(tokens, index, readNum).next - 1], index, readNum)
         == Failure(BadParse("Unclosed delimiter!"))
  {
    ParsedShape(tokens, index, readNum);
    var end := ParseAt(tokens, index, readNum).next;
    var cut := tokens[..end - 1];
    assert cut[index] == tokens[index];
    ItemsMissingCloser(tokens, index + 1, [], readNum);
  }

  lemma {:induction false} ItemsMissingCloser(tokens: seq<Token>, index: nat, items: seq<Expr>, readNum: NumberReader)
    requires index <= |tokens|
    requires ParseItems(tokens, index, items, readNum).Success?
    ensures index <= ParseItems(tokens, index, items, readNum).next - 1
    ensures ParseItems(tokens[..ParseItems(tokens, index, items, readNum).next - 1], index, items, readNum)
         == Failure(BadParse("Unclosed delimiter!"))
    decreases |tokens| - index
  {
    var end := ParseItems(tokens, index, items, readNum).next;
    var cut := tokens[..end - 1];
    var p := ParseAt(tokens, index, readNum);
    if TokenEq(tokens[p.next], RPar) {
      assert tokens[index..p.next] == cut[index..p.next];
      ParseIsLocal(tokens, cut, index, readNum);
    } else {
      ItemsMissingCloser(tokens, p.next, items + [p.expr], readNum);
      assert tokens[index..p.next] == cut[index..p.next];
      ParseIsLocal(tokens, cut, index, readNum);
      var cut2 := tokens[..ParseItems(tokens, p.next, items + [p.expr], readNum).next - 1];
      assert cut2 == cut;
      assert cut[p.next] == tokens[p.next];
    }
  }

  // ---------------------------------------------------------------------
  // Round trip with an unparser

  /** The tokens of a tree, writing each number with `show`. */
  function Unparse(e: Expr, show: Num -> string): (ts: seq<Token>)
    ensures ts != [] && ts[0] != RPar
  {
    match e
    case Symbol(s) => [Literal(s)]
    case FNum(n) => [Literal(show(n))]
    case List(xs) => [LPar] + UnparseAll(xs, show) + [RPar]
  }

  function UnparseAll(xs: seq<Expr>, show: Num -> string): seq<Token> {
    if xs == [] then [] else Unparse(xs[0], show) + UnparseAll(xs[1..], show)
  }

  /** The trees the parser can produce: no empty list, symbols that do not read
      as numbers, numbers whose written form reads back as themselves. */
  ghost predicate Parsable(e: Expr, readNum: NumberReader, show: Num -> string) {
    match e
    case Symbol(s) => readNum(s).None?
    case FNum(n) => readNum(show(n)) == Some(n)
    case List(xs) => xs != [] && forall i | 0 <= i < |xs| :: Parsable(xs[i], readNum, show)
  }

  /** Parsing the tokens of a parsable tree gives back that tree and consumes
      exactly its tokens, whatever surrounds them. */
  lemma {:induction false} ParseUnparse(pre: seq<Token>, e: Expr, post: seq<Token>, readNum: NumberReader, show: Num -> string)
    requires Parsable(e, readNum, show)
    ensures ParseAt(pre + Unparse(e, show) + post, |pre|, readNum) == Success(|pre| + |Unparse(e, show)|, e)
    decreases e, 3
  {
    var tokens := pre + Unparse(e, show) + post;
    assert tokens[|pre|] == Unparse(e, show)[0];
    match e
    case Symbol(s) =>
    case FNum(n) =>
    case List(xs) =>
      var body := UnparseAll(xs, show);
      assert tokens == (pre + [LPar]) + body + ([RPar] + post);
      ParseUnparseItems(pre + [LPar], xs, [RPar] + post, [], readNum, show);
  }

  lemma {:induction false} ParseUnparseItems(pre: seq<Token>, xs: seq<Expr>, post: seq<Token>, items: seq<Expr>,
                                             readNum: NumberReader, show: Num -> string)
    requires xs != [] && post != [] && post[0] == RPar
    requires forall i | 0 <= i < |xs| :: Parsable(xs[i], readNum, show)
    ensures |pre| <= |pre + UnparseAll(xs, show) + post|
    ensures ParseItems(pre + UnparseAll(xs, show) + post, |pre|, items, readNum)
         == Success(|pre| + |UnparseAll(xs, show)| + 1, List(items + xs))
    decreases xs, 2
  {
    if |xs| == 1 {
      ParseUnparseLast(pre, xs, post, items, readNum, show);
    } else {
      var tokens := pre + UnparseAll(xs, show) + post;
      var pre2 := pre + Unparse(xs[0], show);
      var xs2 := xs[1..];
      FirstElement(pre, xs, post, readNum, show);
      ItemsContinue(tokens, |pre|, |pre2|, xs[0], items, readNum);
      ParsableTail(xs, readNum, show);
      ParseUnparseItems(pre2, xs2, post, items + [xs[0]], readNum, show);
      assert items + [xs[0]] + xs2 == items + xs by {
        assert xs == [xs[0]] + xs2;
      }
    }
  }

  /** The last tree of a run, followed by `)`, closes the list. */
  lemma {:induction false} ParseUnparseLast(pre: seq<Token>, xs: seq<Expr>, post: seq<Token>, items: seq<Expr>,
                                            readNum: NumberReader, show: Num -> string)
    requires |xs| == 1 && post != [] && post[0] == RPar
    requires Parsable(xs[0], readNum, show)
    ensures |pre| <= |pre + UnparseAll(xs, show) + post|
    ensures ParseItems(pre + UnparseAll(xs, show) + post, |pre|, items, readNum)
         == Success(|pre| + |UnparseAll(xs, show)| + 1, List(items + xs))
    decreases xs, 1
  {
    var tokens := pre + UnparseAll(xs, show) + post;
    var next := |pre| + |Unparse(xs[0], show)|;
    FirstElement(pre, xs, post, readNum, show);
    ItemsClose(tokens, |pre|, next, xs[0], items, readNum);
    assert items + [xs[0]] == items + xs;
  }

  /** The first tree of a run parses from its own tokens, which the rest of
      the run follows. */
  lemma {:induction false} FirstElement(pre: seq<Token>, xs: seq<Expr>, post: seq<Token>, readNum: NumberReader, show: Num -> string)
    requires xs != [] && post != [] && post[0] == RPar
    requires Parsable(xs[0], readNum, show)
    ensures var tokens := pre + UnparseAll(xs, show) + post;
            var next := |pre| + |Unparse(xs[0], show)|;
            && tokens == (pre + Unparse(xs[0], show)) + UnparseAll(xs[1..], show) + post
            && |UnparseAll(xs, show)| == |Unparse(xs[0], show)| + |UnparseAll(xs[1..], show)|
            && next < |tokens|
            && ParseAt(tokens, |pre|, readNum) == Success(next, xs[0])
            && (xs[1..] == [] ==> tokens[next] == RPar)
            && (xs[1..] != [] ==> tokens[next] != RPar)
    decreases xs, 0
  {
    var first := Unparse(xs[0], show);
    var rest := UnparseAll(xs[1..], show);
    assert UnparseAll(xs, show) == first + rest;
    SplitFirst(pre, first, rest, post);
    ParseUnparse(pre, xs[0], rest + post, readNum, show);
    if xs[1..] != [] {
      UnparseAllHead(xs[1..], show);
    }
  }

  lemma ParsableTail(xs: seq<Expr>, readNum: NumberReader, show: Num -> string)
    requires xs != [] && forall i | 0 <= i < |xs| :: Parsable(xs[i], readNum, show)
    ensures forall i | 0 <= i < |xs[1..]| :: Parsable(xs[1..][i], readNum, show)
  {
    forall i | 0 <= i < |xs[1..]| ensures Parsable(xs[1..][i], readNum, show) {
      assert xs[1..][i] == xs[i + 1];
    }
  }

  /** The tokens of a non-empty sequence of trees never start with `)`. */
  lemma UnparseAllHead(xs: seq<Expr>, show: Num -> string)
    requires xs != []
    ensures UnparseAll(xs, show) != [] && UnparseAll(xs, show)[0] != RPar
  {
    assert UnparseAll(xs, show) == Unparse(xs[0], show) + UnparseAll(xs[1..], show);
  }

  /** One element followed by `)` closes the list. */
  lemma ItemsClose(tokens: seq<Token>, index: nat, next: nat, x: Expr, items: seq<Expr>, readNum: NumberReader)
    requires index <= |tokens| && next < |tokens| && tokens[next] == RPar
    requires ParseAt(tokens, index, readNum) == Success(next, x)
    ensures ParseItems(tokens, index, items, readNum) == Success(next + 1, List(items + [x]))
  {
  }

  /** One element followed by anything but `)` continues the list. */
  lemma ItemsContinue(tokens: seq<Token>, index: nat, next: nat, x: Expr, items: seq<Expr>, readNum: NumberReader)
    requires index <= |tokens| && next < |tokens| && tokens[next] != RPar
    requires ParseAt(tokens, index, readNum) == Success(next, x)
    ensures ParseItems(tokens, index, items, readNum) == ParseItems(tokens, next, items + [x], readNum)
  {
  }

  /** Index arithmetic for `ParseUnparseItems`. */
  lemma SplitFirst(pre: seq<Token>, first: seq<Token>, rest: seq<Token>, post: seq<Token>)
    ensures pre + (first + rest) + post == pre + first + (rest + post)
    ensures pre + (first + rest) + post == (pre + first) + rest + post
    ensures rest == [] && post != [] ==> (pre + (first + rest) + post)[|pre| + |first|] == post[0]
    ensures rest != [] ==> (pre + (first + rest) + post)[|pre| + |first|] == rest[0]
  {
  }
}
