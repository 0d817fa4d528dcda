/** The string operations the registry relies on: JavaScript's `\s` class and
    `String.prototype.trim`, the global replacement `s.replace(/\s+/g, '_')`,
    upper-casing, and the decimal rendering of a non-negative number. */
module Text {

  /** The characters matched by `\s` in a JavaScript regular expression; they
      are also exactly the characters `trim` removes. */
  predicate IsWhitespace(c: char) {
    || c == ' ' || c == '\t' || c == '\n' || c == '\r'
    || c == '\U{000B}' || c == '\U{000C}' || c == '\U{00A0}' || c == '\U{1680}'
    || ('\U{2000}' <= c <= '\U{200A}')
    || c == '\U{2028}' || c == '\U{2029}' || c == '\U{202F}' || c == '\U{205F}'
    || c == '\U{3000}' || c == '\U{FEFF}'
  }

  predicate AllWhitespace(s: string) {
    forall i :: 0 <= i < |s| ==> IsWhitespace(s[i])
  }

  predicate NoWhitespace(s: string) {
    forall i :: 0 <= i < |s| ==> !IsWhitespace(s[i])
  }

  /** Drops the leading whitespace of `s`: what is left is empty or starts
      with a non-whitespace character. */
  function TrimStart(s: string): (r: string)
    ensures |r| <= |s|
    ensures r == [] || !IsWhitespace(r[0])
  {
    if s != [] && IsWhitespace(s[0]) then TrimStart(s[1..]) else s
  }

  /** What TrimStart keeps is a suffix of `s`, and all it drops is whitespace. */
  lemma {:induction false} TrimStartIsSuffix(s: string)
    ensures TrimStart(s) == s[|s| - |TrimStart(s)|..]
    ensures AllWhitespace(s[..|s| - |TrimStart(s)|])
    decreases |s|
  {
    if s != [] && IsWhitespace(s[0]) {
      TrimStartIsSuffix(s[1..]);
      var k := |s| - |TrimStart(s)|;
      assert s[1..][k - 1..] == s[k..];
      assert forall i :: 1 <= i < k ==> s[1..][..k - 1][i - 1] == s[i];
    }
  }

  /** Drops the trailing whitespace of `s`. */
  function TrimEnd(s: string): (r: string)
    ensures |r| <= |s|
    ensures r == [] || !IsWhitespace(r[|r| - 1])
  {
    if s != [] && IsWhitespace(s[|s| - 1]) then TrimEnd(s[..|s| - 1]) else s
  }

  /** What TrimEnd keeps is a prefix of `s`, and all it drops is whitespace. */
  lemma {:induction false} TrimEndIsPrefix(s: string)
    ensures TrimEnd(s) == s[..|TrimEnd(s)|]
    ensures AllWhitespace(s[|TrimEnd(s)|..])
    decreases |s|
  {
    if s != [] && IsWhitespace(s[|s| - 1]) {
      TrimEndIsPrefix(s[..|s| - 1]);
      var k := |TrimEnd(s)|;
      assert s[..|s| - 1][..k] == s[..k];
      assert forall i :: k <= i < |s| - 1 ==> s[..|s| - 1][k..][i - k] == s[i];
    }
  }

  /** `s.trim()`. */
  function Trim(s: string): (r: string)
    ensures |r| <= |s|
    ensures r == [] || (!IsWhitespace(r[0]) && !IsWhitespace(r[|r| - 1]))
  {
    TrimEndIsPrefix(TrimStart(s));
    TrimEnd(TrimStart(s))
  }

  /** What `trim` keeps is the slice of `s` between its leading and its
      trailing whitespace. */
  lemma TrimIsSlice(s: string)
    ensures exists i, j ::
      (0 <= i <= j <= |s| && Trim(s) == s[i..j] && AllWhitespace(s[..i]) && AllWhitespace(s[j..]))
  {
    TrimStartIsSuffix(s);
    TrimEndIsPrefix(TrimStart(s));
    var t := TrimStart(s);
    var r := TrimEnd(t);
    var i := |s| - |t|;
    assert r == s[i..i + |r|];
    assert s[i + |r|..] == t[|r|..];
  }

  /** `!s.trim()`: nothing is left once whitespace is trimmed. */
  predicate IsBlank(s: string) {
    Trim(s) == []
  }

  /** A string is blank exactly when every character of it is whitespace
      (the empty string included). */
  lemma BlankIffAllWhitespace(s: string)
    ensures IsBlank(s) <==> AllWhitespace(s)
  {
    var t := TrimStart(s);
    TrimStartIsSuffix(s);
    TrimEndIsPrefix(t);
    if TrimEnd(t) == [] {
      assert t[0..] == t;
      assert t == [];
      assert s[..|s|] == s;
    }
  }

  /** `s.replace(/\s+/g, '_')`: every maximal run of whitespace becomes one
      underscore and every other character is kept. */
  function CollapseWhitespace(s: string): (r: string)
    ensures NoWhitespace(r)
    ensures |r| <= |s|
    decreases |s|
  {
    if s == [] then []
    else if IsWhitespace(s[0]) then "_" + CollapseWhitespace(TrimStart(s))
    else [s[0]] + CollapseWhitespace(s[1..])
  }

  lemma NoWhitespaceConcat(a: string, b: string)
    requires NoWhitespace(a) && NoWhitespace(b)
    ensures NoWhitespace(a + b)
  {
    assert forall i :: 0 <= i < |a + b| ==> (a + b)[i] == if i < |a| then a[i] else b[i - |a|];
  }

  /** A string without whitespace is left as it is. */
  lemma {:induction false} CollapseWithoutWhitespace(s: string)
    requires NoWhitespace(s)
    ensures CollapseWhitespace(s) == s
    decreases |s|
  {
    if s != [] {
      assert !IsWhitespace(s[0]);
      CollapseWithoutWhitespace(s[1..]);
    }
  }

  /** A non-empty run of whitespace becomes exactly one underscore. */
  lemma CollapseRun(w: string)
    requires w != [] && AllWhitespace(w)
    ensures CollapseWhitespace(w) == "_"
  {
    assert IsWhitespace(w[0]);
    TrimStartIsSuffix(w);
  }

  /** Leading whitespace is dropped up to the first non-whitespace character,
      so what follows that character is kept. */
  lemma {:induction false} TrimStartAppend(x: string, y: string)
    requires !AllWhitespace(x)
    ensures TrimStart(x + y) == TrimStart(x) + y
    decreases |x|
  {
    if IsWhitespace(x[0]) {
      assert (x + y)[1..] == x[1..] + y;
      assert !AllWhitespace(x[1..]) by {
        var k :| 0 <= k < |x| && !IsWhitespace(x[k]);
        assert x[1..][k - 1] == x[k];
      }
      TrimStartAppend(x[1..], y);
    }
  }

  /** A run of whitespace followed by a non-whitespace character (or by the
      end of the string) is dropped entirely. */
  lemma {:induction false} TrimStartRun(x: string, y: string)
    requires AllWhitespace(x)
    requires y == [] || !IsWhitespace(y[0])
    ensures TrimStart(x + y) == y
    decreases |x|
  {
    if x == [] {
      assert x + y == y;
    } else {
      assert (x + y)[1..] == x[1..] + y;
      TrimStartRun(x[1..], y);
    }
  }

  /** A whole run of whitespace in front of a non-whitespace character (or of
      the end of the string) becomes one underscore. */
  lemma CollapseRunThen(x: string, y: string)
    requires x != [] && AllWhitespace(x)
    requires y == [] || !IsWhitespace(y[0])
    ensures CollapseWhitespace(x + y) == "_" + CollapseWhitespace(y)
    ensures CollapseWhitespace(x) == "_"
  {
    assert (x + y)[0] == x[0];
    TrimStartRun(x, y);
    CollapseRun(x);
  }

  /** Collapsing distributes over a concatenation that does not cut a run of
      whitespace in two: this together with the two lemmas above determines
      the function completely. */
  lemma {:induction false} CollapseAppend(x: string, y: string)
    requires x == [] || y == [] || !IsWhitespace(x[|x| - 1]) || !IsWhitespace(y[0])
    ensures CollapseWhitespace(x + y) == CollapseWhitespace(x) + CollapseWhitespace(y)
    decreases |x|
  {
    if x == [] {
      assert x + y == y;
    } else if !IsWhitespace(x[0]) {
      assert (x + y)[0] == x[0];
      assert (x + y)[1..] == x[1..] + y;
      CollapseAppend(x[1..], y);
    } else if AllWhitespace(x) {
      CollapseRunThen(x, y);
    } else {
      CollapseNotRun(x, y);
    }
  }

  /** The step of CollapseAppend for a string that starts with whitespace
      but is not all whitespace. */
  lemma {:induction false} CollapseNotRun(x: string, y: string)
    requires x != [] && IsWhitespace(x[0]) && !AllWhitespace(x)
    requires y == [] || !IsWhitespace(x[|x| - 1]) || !IsWhitespace(y[0])
    ensures CollapseWhitespace(x + y) == CollapseWhitespace(x) + CollapseWhitespace(y)
    decreases |x|, 0
  {
    TrimStartAppend(x, y);
    TrimStartIsSuffix(x);
    var t := TrimStart(x);
    assert t != [];
    assert t[|t| - 1] == x[|x| - 1];
    assert |t| < |x|;
    CollapseAppend(t, y);
    assert (x + y)[0] == x[0];
    assert CollapseWhitespace(x + y) == "_" + CollapseWhitespace(t + y);
    assert CollapseWhitespace(x) == "_" + CollapseWhitespace(t);
  }

  /** ASCII upper-casing of one character: a lower-case letter becomes its
      capital (32 code points lower), anything else is kept. */
  function UpperChar(c: char): (u: char)
    ensures 'a' <= c <= 'z' ==> 'A' <= u <= 'Z' && u as int == c as int - 32
    ensures !('a' <= c <= 'z') ==> u == c
    ensures IsWhitespace(u) <==> IsWhitespace(c)
    ensures !('a' <= u <= 'z')
  {
    if 'a' <= c <= 'z' then (c as int - 32) as char else c
  }

  /** `s.toUpperCase()`, restricted to ASCII letters: same length, each
      lower-case letter replaced by its capital, every other character
      kept in place. */
  function ToUpper(s: string): (r: string)
    ensures |r| == |s|
    ensures forall i :: 0 <= i < |s| ==>
      (('a' <= s[i] <= 'z') ==> r[i] as int == s[i] as int - 32) &&
      (!('a' <= s[i] <= 'z') ==> r[i] == s[i])
    ensures forall i :: 0 <= i < |r| ==> !('a' <= r[i] <= 'z')
  {
    seq(|s|, i requires 0 <= i < |s| => UpperChar(s[i]))
  }

  /** Upper-casing leaves whitespace exactly where it was, so it does not
      change which runs the token collapses. */
  lemma ToUpperKeepsWhitespace(s: string)
    ensures forall i :: 0 <= i < |s| ==> (IsWhitespace(ToUpper(s)[i]) <==> IsWhitespace(s[i]))
    ensures AllWhitespace(ToUpper(s)) <==> AllWhitespace(s)
  {
  }

  lemma ToUpperIdempotent(s: string)
    ensures ToUpper(ToUpper(s)) == ToUpper(s)
  {
  }

  predicate IsDigit(c: char) {
    '0' <= c <= '9'
  }

  predicate AllDigits(s: string) {
    forall i :: 0 <= i < |s| ==> IsDigit(s[i])
  }

  function DigitChar(d: nat): (c: char)
    requires d < 10
    ensures IsDigit(c)
  {
    ('0' as int + d) as char
  }

  /** `n.toString()` for a non-negative integer: a non-empty string of
      decimal digits without a leading zero (except "0" itself). */
  function Decimal(n: nat): (r: string)
    ensures r != [] && AllDigits(r)
    ensures |r| > 1 ==> r[0] != '0'
    ensures n < 10 <==> |r| == 1
    decreases n
  {
    if n < 10 then [DigitChar(n)] else Decimal(n / 10) + [DigitChar(n % 10)]
  }

  /** The number a string of decimal digits stands for. */
  function Value(s: string): nat
    requires AllDigits(s)
  {
    if s == [] then 0 else 10 * Value(s[..|s| - 1]) + (s[|s| - 1] as int - '0' as int)
  }

  /** Reading back the decimal rendering yields the number. */
  lemma {:induction false} ValueOfDecimal(n: nat)
    ensures Value(Decimal(n)) == n
    decreases n
  {
    if n >= 10 {
      ValueOfDecimal(n / 10);
      var r := Decimal(n);
      assert r[..|r| - 1] == Decimal(n / 10);
    }
  }

  /** Different numbers have different decimal renderings. */
  lemma DecimalInjective(m: nat, n: nat)
    requires m != n
    ensures Decimal(m) != Decimal(n)
  {
    ValueOfDecimal(m);
    ValueOfDecimal(n);
  }

  /** The part of `s` after its last underscore (all of `s` when it has none). */
  function LastSegment(s: string): (r: string)
    ensures forall i :: 0 <= i < |r| ==> r[i] != '_'
    ensures '_' !in s ==> r == s
  {
    if s == [] || s[|s| - 1] == '_' then []
    else LastSegment(s[..|s| - 1]) + [s[|s| - 1]]
  }

  /** Whatever comes before it, the segment after an underscore that is
      followed by no other underscore is the last one. */
  lemma {:induction false} LastSegmentAfter(x: string, y: string)
    requires '_' !in y
    ensures LastSegment(x + "_" + y) == y
    decreases |y|
  {
    if y == [] {
      assert x + "_" + y == x + "_";
    } else {
      var y' := y[..|y| - 1];
      assert '_' !in y' by { assert forall k :: 0 <= k < |y'| ==> y'[k] == y[k]; }
      assert (x + "_" + y)[..|x| + |y|] == x + "_" + y';
      LastSegmentAfter(x, y');
    }
  }
}
