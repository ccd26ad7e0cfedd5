/** String helpers that the application's JavaScript gets from the language itself:
    `startsWith`, `includes`, `split('\n')`, `join`, `trim` and number-to-text
    conversion. Strings are sequences of characters; JavaScript's UTF-16 code units
    are not distinguished from characters. */
module Text {

  // ---------------------------------------------------------------------------
  // Prefixes and substrings
  // ---------------------------------------------------------------------------

  /** `s.startsWith(p)`. */
  predicate StartsWith(s: string, p: string) {
    |p| <= |s| && s[..|p|] == p
  }

  /** `w` occurs in `s` starting at position `i`. */
  ghost predicate OccursAt(s: string, w: string, i: int) {
    0 <= i && i + |w| <= |s| && s[i..i + |w|] == w
  }

  /** A text starts with its own prefix. */
  lemma PrefixStartsWith(p: string, q: string)
    ensures StartsWith(p + q, p)
  {
    assert (p + q)[..|p|] == p;
  }

  /** `s.includes(w)`: `w` is a contiguous piece of `s`. */
  function Contains(s: string, w: string): (r: bool)
    decreases |s|
  {
    StartsWith(s, w) || (s != [] && Contains(s[1..], w))
  }

  /** An occurrence found by `Contains`. */
  lemma {:induction false} ContainsOccurs(s: string, w: string) returns (i: int)
    requires Contains(s, w)
    ensures OccursAt(s, w, i)
    decreases |s|
  {
    if StartsWith(s, w) {
      i := 0;
    } else {
      var j := ContainsOccurs(s[1..], w);
      assert s[1..][j..j + |w|] == s[j + 1..j + 1 + |w|];
      i := j + 1;
    }
  }

  /** Every occurrence is found by `Contains`. */
  lemma {:induction false} OccursContains(s: string, w: string, i: int)
    requires OccursAt(s, w, i)
    ensures Contains(s, w)
    decreases |s|
  {
    if i > 0 {
      assert s[1..][i - 1..i - 1 + |w|] == s[i..i + |w|];
      OccursContains(s[1..], w, i - 1);
    }
  }

  /** `Contains` is exactly substring occurrence, in both directions. */
  lemma ContainsIff(s: string, w: string)
    ensures Contains(s, w) <==> exists i :: OccursAt(s, w, i)
  {
    if Contains(s, w) {
      var i := ContainsOccurs(s, w);
    }
    forall i | OccursAt(s, w, i) ensures Contains(s, w) {
      OccursContains(s, w, i);
    }
  }

  // ---------------------------------------------------------------------------
  // Splitting on newlines and joining
  // ---------------------------------------------------------------------------

  /** `s.split('\n')`: the pieces between newlines, always at least one. */
  function Split(s: string): (r: seq<string>)
    ensures |r| >= 1
    ensures forall i :: 0 <= i < |r| ==> '\n' !in r[i]
  {
    if s == [] then [""]
    else if s[0] == '\n' then [""] + Split(s[1..])
    else
      var rest := Split(s[1..]);
      [[s[0]] + rest[0]] + rest[1..]
  }

  /** `xs.join(sep)`; the empty array joins to the empty string. */
  function Join(xs: seq<string>, sep: string): (r: string) {
    if xs == [] then ""
    else if |xs| == 1 then xs[0]
    else xs[0] + sep + Join(xs[1..], sep)
  }

  lemma JoinConsChar(c: char, xs: seq<string>, sep: string)
    requires |xs| >= 1
    ensures Join([[c] + xs[0]] + xs[1..], sep) == [c] + Join(xs, sep)
  {
    var ys := [[c] + xs[0]] + xs[1..];
    assert ys[1..] == xs[1..];
  }

  /** Splitting on newlines and joining the pieces back with newlines gives the text back. */
  lemma {:induction false} JoinSplit(s: string)
    ensures Join(Split(s), "\n") == s
  {
    if s == [] {
    } else if s[0] == '\n' {
      JoinSplit(s[1..]);
      var xs := [""] + Split(s[1..]);
      assert xs[1..] == Split(s[1..]);
    } else {
      JoinSplit(s[1..]);
      JoinConsChar(s[0], Split(s[1..]), "\n");
    }
  }

  lemma {:induction false} SplitPrefixWithoutNewline(a: string, b: string)
    requires '\n' !in a
    ensures Split(a + b) == [a + Split(b)[0]] + Split(b)[1..]
  {
    if a != [] {
      SplitPrefixWithoutNewline(a[1..], b);
      assert (a + b)[0] == a[0] && a[0] != '\n';
      assert (a + b)[1..] == a[1..] + b;
      var rest := Split(a[1..] + b);
      assert rest[0] == a[1..] + Split(b)[0];
      assert rest[1..] == Split(b)[1..];
      assert Split(a + b) == [[a[0]] + rest[0]] + rest[1..];
      assert [a[0]] + (a[1..] + Split(b)[0]) == a + Split(b)[0];
    } else {
      assert a + b == b && a + Split(b)[0] == Split(b)[0];
      assert Split(b) == [Split(b)[0]] + Split(b)[1..];
    }
  }

  /** Joining newline-free pieces with newlines and splitting again gives the pieces back. */
  lemma {:induction false} SplitJoin(xs: seq<string>)
    requires |xs| >= 1
    requires forall i :: 0 <= i < |xs| ==> '\n' !in xs[i]
    ensures Split(Join(xs, "\n")) == xs
  {
    if |xs| == 1 {
      SplitPrefixWithoutNewline(xs[0], "");
      assert xs[0] + "" == xs[0];
    } else {
      SplitJoin(xs[1..]);
      var tail := "\n" + Join(xs[1..], "\n");
      assert Join(xs, "\n") == xs[0] + tail;
      SplitPrefixWithoutNewline(xs[0], tail);
      assert tail[1..] == Join(xs[1..], "\n");
      assert tail != [] && tail[0] == '\n';
      assert Split(tail) == [""] + xs[1..];
      assert xs[0] + "" == xs[0];
      assert xs == [xs[0]] + xs[1..];
    }
  }

  /** Concatenation of a sequence of strings, in order (`parts.join('')`). */
  function Concat(ss: seq<string>): (r: string) {
    if ss == [] then "" else ss[0] + Concat(ss[1..])
  }

  /** Concatenation distributes over appending sequences of strings. */
  lemma {:induction false} ConcatAppend(a: seq<string>, b: seq<string>)
    ensures Concat(a + b) == Concat(a) + Concat(b)
  {
    if a == [] {
      assert a + b == b;
    } else {
      var x, rest := a[0], a[1..];
      var cr, cb := Concat(rest), Concat(b);
      ConcatAppend(rest, b);
      var ab := a + b;
      assert ab[0] == x && ab[1..] == rest + b;
      assert Concat(ab) == x + (cr + cb);
      assert x + (cr + cb) == (x + cr) + cb;
    }
  }

  // ---------------------------------------------------------------------------
  // Trimming
  // ---------------------------------------------------------------------------

  /** The characters `String.prototype.trim` removes: white space and line terminators. */
  predicate IsWhitespace(c: char) {
    c == ' ' || c == '\t' || c == '\n' || c == '\r' || c == '\U{000B}' || c == '\U{000C}'
    || c == '\U{00A0}' || c == '\U{1680}' || ('\U{2000}' <= c <= '\U{200A}')
    || c == '\U{2028}' || c == '\U{2029}' || c == '\U{202F}' || c == '\U{205F}'
    || c == '\U{3000}' || c == '\U{FEFF}'
  }

  function TrimStart(s: string): (r: string)
    ensures |r| <= |s| && r == s[|s| - |r|..]
    ensures r == [] || !IsWhitespace(r[0])
    ensures forall k :: 0 <= k < |s| - |r| ==> IsWhitespace(s[k])
  {
    if s != [] && IsWhitespace(s[0]) then TrimStart(s[1..]) else s
  }

  function TrimEnd(s: string): (r: string)
    ensures |r| <= |s| && r == s[..|r|]
    ensures r == [] || !IsWhitespace(r[|r| - 1])
    ensures forall k :: |r| <= k < |s| ==> IsWhitespace(s[k])
  {
    if s != [] && IsWhitespace(s[|s| - 1]) then TrimEnd(s[..|s| - 1]) else s
  }

  /** `r` sits at position `i` of `s`, with only white space before and after it. */
  ghost predicate PaddedAt(s: string, r: string, i: int) {
    0 <= i && i + |r| <= |s| && s[i..i + |r|] == r
    && (forall k :: 0 <= k < i ==> IsWhitespace(s[k]))
    && (forall k :: i + |r| <= k < |s| ==> IsWhitespace(s[k]))
  }

  /** A suffix `t` of `s` behind white space, and a prefix `r` of `t` before white
      space, sit in `s` with only white space around them. */
  lemma PaddedPiece(s: string, t: string, r: string)
    requires |t| <= |s| && t == s[|s| - |t|..]
    requires forall k :: 0 <= k < |s| - |t| ==> IsWhitespace(s[k])
    requires |r| <= |t| && r == t[..|r|]
    requires forall k :: |r| <= k < |t| ==> IsWhitespace(t[k])
    ensures PaddedAt(s, r, |s| - |t|)
  {
    var i := |s| - |t|;
    assert s[i..i + |r|] == s[i..][..|r|];
    forall k | i + |r| <= k < |s| ensures IsWhitespace(s[k]) {
      assert s[k] == t[k - i];
    }
  }

  /** Trimming the start and then the end leaves a piece of `s` with only white space
      around it. */
  lemma TrimPadded(s: string)
    ensures PaddedAt(s, TrimEnd(TrimStart(s)), |s| - |TrimStart(s)|)
  {
    PaddedPiece(s, TrimStart(s), TrimEnd(TrimStart(s)));
  }

  /** Trimming leaves nothing exactly when `s` is all white space. */
  lemma TrimEmptyIff(s: string)
    ensures TrimEnd(TrimStart(s)) == [] <==> forall k :: 0 <= k < |s| ==> IsWhitespace(s[k])
  {
    var t := TrimStart(s);
    var r := TrimEnd(t);
    var i := |s| - |t|;
    if r != [] {
      assert r[0] == t[0] == s[i];
    }
  }

  /** `s.trim()`: the longest piece of `s` that neither starts nor ends with white space,
      obtained by dropping only white space on either side. */
  function Trim(s: string): (r: string)
    ensures exists i :: PaddedAt(s, r, i)
    ensures r == [] || (!IsWhitespace(r[0]) && !IsWhitespace(r[|r| - 1]))
    ensures r == [] <==> forall k :: 0 <= k < |s| ==> IsWhitespace(s[k])
  {
    TrimPadded(s);
    TrimEmptyIff(s);
    TrimEnd(TrimStart(s))
  }

  // ---------------------------------------------------------------------------
  // Number formatting (template-literal interpolation of integers)
  // ---------------------------------------------------------------------------

  predicate IsDigit(c: char) {
    '0' <= c <= '9'
  }

  function DigitChar(d: nat): (c: char)
    requires d < 10
    ensures IsDigit(c)
  {
    ['0', '1', '2', '3', '4', '5', '6', '7', '8', '9'][d]
  }

  function DigitValue(c: char): nat
    requires IsDigit(c)
  {
    (c as int - '0' as int) as nat
  }

  /** Decimal rendering of a natural number, without leading zeros. */
  function NatToString(n: nat): (r: string)
    ensures r != [] && forall k :: 0 <= k < |r| ==> IsDigit(r[k])
    ensures |r| > 1 ==> r[0] != '0'
  {
    if n < 10 then [DigitChar(n)] else NatToString(n / 10) + [DigitChar(n % 10)]
  }

  /** Reading decimal digits back as a number. */
  function ParseNat(s: string): nat
    requires forall k :: 0 <= k < |s| ==> IsDigit(s[k])
  {
    if s == [] then 0 else 10 * ParseNat(s[..|s| - 1]) + DigitValue(s[|s| - 1])
  }

  /** The decimal rendering reads back as the same number. */
  lemma {:induction false} ParseNatToString(n: nat)
    ensures ParseNat(NatToString(n)) == n
  {
    var s := NatToString(n);
    if n >= 10 {
      ParseNatToString(n / 10);
      assert s[..|s| - 1] == NatToString(n / 10);
      assert DigitValue(s[|s| - 1]) == n % 10;
    } else {
      assert DigitValue(s[0]) == n;
    }
  }

  /** Decimal rendering of an integer, with a leading '-' when negative. */
  function IntToString(i: int): (r: string)
    ensures (i < 0) <==> (r != [] && r[0] == '-')
  {
    if i < 0 then "-" + NatToString(-i) else NatToString(i)
  }
}
