/** Text rendering that the program gets from Rust's `format!`: decimal
    numerals and joining pieces with a separator. */
module Text {

  predicate IsDigit(c: char) {
    '0' <= c <= '9'
  }

  function DigitChar(d: nat): (c: char)
    requires d < 10
    ensures IsDigit(c)
  {
    "0123456789"[d]
  }

  /** The decimal numeral of `n`, as `format!("{}", n)` writes a `usize`. */
  function NatToString(n: nat): (s: string)
    ensures s != []
    ensures forall i | 0 <= i < |s| :: IsDigit(s[i])
    ensures |s| > 1 ==> s[0] != '0'
  {
    if n < 10 then [DigitChar(n)] else NatToString(n / 10) + [DigitChar(n % 10)]
  }

  /** The value a string of decimal digits denotes. */
  function DigitsValue(s: string): nat
    requires forall i | 0 <= i < |s| :: IsDigit(s[i])
  {
    if s == [] then 0
    else
      var last := s[|s| - 1];
      assert IsDigit(last);
      10 * DigitsValue(s[..|s| - 1]) + (last as int - '0' as int)
  }

  lemma {:induction false} NatToStringValue(n: nat)
    ensures DigitsValue(NatToString(n)) == n
  {
    var s := NatToString(n);
    if n >= 10 {
      NatToStringValue(n / 10);
      assert s[..|s| - 1] == NatToString(n / 10);
    }
  }

  /** A numeral is recovered from its text. */
  lemma NatToStringInjective(m: nat, n: nat)
    requires NatToString(m) == NatToString(n)
    ensures m == n
  {
    NatToStringValue(m);
    NatToStringValue(n);
  }

  /** A run of digits followed by text that starts with a non-digit can be
      split off in only one way. */
  lemma DigitsSplit(x: string, tx: string, y: string, ty: string)
    requires forall i | 0 <= i < |x| :: IsDigit(x[i])
    requires forall i | 0 <= i < |y| :: IsDigit(y[i])
    requires tx != [] && !IsDigit(tx[0]) && ty != [] && !IsDigit(ty[0])
    requires x + tx == y + ty
    ensures x == y && tx == ty
  {
    // At the end of the shorter run, the text holds a digit exactly when that
    // run is also the longer one.
    var k := if |x| < |y| then |x| else |y|;
    assert IsDigit((x + tx)[k]) <==> k < |x|;
    assert IsDigit((y + ty)[k]) <==> k < |y|;
    assert x == (x + tx)[..|x|] && y == (y + ty)[..|y|];
    assert tx == (x + tx)[|x|..] && ty == (y + ty)[|y|..];
  }

  /** Two numerals between the same fixed pieces of text are recovered from
      the whole, when the piece after each starts with a non-digit. */
  lemma NumeralsSplit(pre: string, mid: string, end: string, p: string, a: string, q: string, b: string)
    requires forall i | 0 <= i < |p| :: IsDigit(p[i])
    requires forall i | 0 <= i < |a| :: IsDigit(a[i])
    requires forall i | 0 <= i < |q| :: IsDigit(q[i])
    requires forall i | 0 <= i < |b| :: IsDigit(b[i])
    requires mid != [] && !IsDigit(mid[0]) && end != [] && !IsDigit(end[0])
    requires pre + (p + (mid + (a + end))) == pre + (q + (mid + (b + end)))
    ensures p == q && a == b
  {
    var whole := pre + (p + (mid + (a + end)));
    assert p + (mid + (a + end)) == whole[|pre|..] == q + (mid + (b + end));
    DigitsSplit(p, mid + (a + end), q, mid + (b + end));
    assert a + end == (mid + (a + end))[|mid|..];
    assert b + end == (mid + (b + end))[|mid|..];
    DigitsSplit(a, end, b, end);
  }

  /** The decimal numeral of an integer, with a leading `-` when negative. */
  function IntToString(n: int): (s: string)
    ensures s != []
    ensures n < 0 <==> s[0] == '-'
  {
    if n < 0 then "-" + NatToString(-n) else NatToString(n)
  }

  /** `parts.join(sep)`. */
  function Join(parts: seq<string>, sep: string): (s: string)
    ensures parts == [] ==> s == []
    ensures |parts| == 1 ==> s == parts[0]
  {
    if parts == [] then []
    else if |parts| == 1 then parts[0]
    else parts[0] + sep + Join(parts[1..], sep)
  }
}
