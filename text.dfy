/**
 * The Python string built-ins that the HTS line parser and the dictionary
 * decoders rely on: str.isspace, str.strip, str.partition, str.split with a
 * separator, str.split without one, str.lower, and float() / int() applied to
 * a string (the last two over a decimal subset of Python's number syntax).
 */
module Text {
  import opened Wrappers

  /** Python's str.isspace() on one character; strip() and split() use the same set. */
  predicate IsSpace(c: char) {
    ('\t' <= c <= '\r') || ('\U{1C}' <= c <= ' ') || c == '\U{85}' || c == '\U{A0}'
    || c == '\U{1680}' || ('\U{2000}' <= c <= '\U{200A}') || c == '\U{2028}'
    || c == '\U{2029}' || c == '\U{202F}' || c == '\U{205F}' || c == '\U{3000}'
  }

  predicate AllSpace(s: string) {
    forall k :: 0 <= k < |s| ==> IsSpace(s[k])
  }

  predicate NoSpace(s: string) {
    forall k :: 0 <= k < |s| ==> !IsSpace(s[k])
  }

  /** Neither starts nor ends with whitespace. */
  predicate Trimmed(s: string) {
    s == [] || (!IsSpace(s[0]) && !IsSpace(s[|s| - 1]))
  }

  // ---------------------------------------------------------------- strip

  /** Number of whitespace characters at the start of s. */
  function LeadingSpaces(s: string): (n: nat)
    ensures n <= |s|
    ensures forall k :: 0 <= k < n ==> IsSpace(s[k])
    ensures n < |s| ==> !IsSpace(s[n])
  {
    if s == [] || !IsSpace(s[0]) then 0 else 1 + LeadingSpaces(s[1..])
  }

  /** Index at which the whitespace at the end of s begins. */
  function TrailingSpacesStart(s: string): (n: nat)
    ensures n <= |s|
    ensures forall k :: n <= k < |s| ==> IsSpace(s[k])
    ensures n > 0 ==> !IsSpace(s[n - 1])
  {
    if s == [] || !IsSpace(s[|s| - 1]) then |s| else TrailingSpacesStart(s[..|s| - 1])
  }

  /** str.strip(): s without its leading and trailing whitespace. */
  function Strip(s: string): (r: string)
    ensures Trimmed(r)
    ensures |r| <= |s|
    ensures r == [] <==> AllSpace(s)
  {
    var hi := TrailingSpacesStart(s);
    s[LeadingSpaces(s[..hi])..hi]
  }

  /** Strip removes exactly the whitespace around a trimmed core, and nothing else. */
  lemma StripSurrounded(a: string, m: string, b: string)
    requires AllSpace(a) && AllSpace(b) && Trimmed(m)
    ensures Strip(a + m + b) == m
  {
    var s := a + m + b;
    var hi := TrailingSpacesStart(s);
    if m == [] {
      assert s == a + b;
      assert forall k :: 0 <= k < |s| ==> IsSpace(s[k]);
      assert hi == 0;
    } else {
      var e := |a| + |m|;
      assert !IsSpace(s[e - 1]) by {
        assert s[e - 1] == m[|m| - 1];
      }
      assert forall k :: e <= k < |s| ==> IsSpace(s[k]) by {
        forall k | e <= k < |s| ensures IsSpace(s[k]) {
          assert s[k] == b[k - e];
        }
      }
      assert hi == e;
      assert s[..hi] == a + m;
      var lo := LeadingSpaces(a + m);
      assert !IsSpace((a + m)[|a|]) by {
        assert (a + m)[|a|] == m[0];
      }
      assert forall k :: 0 <= k < |a| ==> IsSpace((a + m)[k]) by {
        forall k | 0 <= k < |a| ensures IsSpace((a + m)[k]) {
          assert (a + m)[k] == a[k];
        }
      }
      assert lo == |a|;
      assert s[lo..hi] == m;
    }
  }

  /** Strip keeps a contiguous core of s: only whitespace is removed, and only at the ends. */
  lemma StripParts(s: string) returns (a: string, b: string)
    ensures AllSpace(a) && AllSpace(b)
    ensures s == a + Strip(s) + b
  {
    var hi := TrailingSpacesStart(s);
    var lo := LeadingSpaces(s[..hi]);
    a, b := s[..lo], s[hi..];
    assert forall k :: 0 <= k < |a| ==> IsSpace(a[k]) by {
      forall k | 0 <= k < |a| ensures IsSpace(a[k]) {
        assert a[k] == s[..hi][k];
      }
    }
    assert forall k :: 0 <= k < |b| ==> IsSpace(b[k]) by {
      forall k | 0 <= k < |b| ensures IsSpace(b[k]) {
        assert b[k] == s[hi + k];
      }
    }
    assert s == s[..lo] + s[lo..hi] + s[hi..];
  }

  /** Whitespace next to whitespace is whitespace. */
  lemma AllSpaceConcat(a: string, b: string)
    requires AllSpace(a) && AllSpace(b)
    ensures AllSpace(a + b)
  {
    forall k | 0 <= k < |a + b| ensures IsSpace((a + b)[k]) {
      if k < |a| {
        assert (a + b)[k] == a[k];
      } else {
        assert (a + b)[k] == b[k - |a|];
      }
    }
  }

  /** Surrounding whitespace does not change what Strip returns. */
  lemma StripPadded(a: string, s: string, b: string)
    requires AllSpace(a) && AllSpace(b)
    ensures Strip(a + s + b) == Strip(s)
  {
    var a', b' := StripParts(s);
    AllSpaceConcat(a, a');
    AllSpaceConcat(b', b);
    assert a + s + b == (a + a') + Strip(s) + (b' + b);
    StripSurrounded(a + a', Strip(s), b' + b);
  }

  // ------------------------------------------------------------ partition

  /** Index of the first c in s, or |s| when s has none. */
  function IndexOf(s: string, c: char): (i: nat)
    ensures i <= |s|
    ensures forall k :: 0 <= k < i ==> s[k] != c
    ensures i < |s| ==> s[i] == c
  {
    if s == [] || s[0] == c then 0 else 1 + IndexOf(s[1..], c)
  }

  /** str.partition(c): the text before the first c, whether c occurs, the text after it. */
  function Partition(s: string, c: char): (r: (string, bool, string))
    ensures r.1 <==> c in s
    ensures r.1 ==> s == r.0 + [c] + r.2 && c !in r.0
    ensures !r.1 ==> r.0 == s && r.2 == []
  {
    var i := IndexOf(s, c);
    if i == |s| then (s, false, []) else (s[..i], true, s[i + 1..])
  }

  /** Partition splits at the first separator: whatever follows it is the tail, verbatim. */
  lemma PartitionAt(x: string, c: char, y: string)
    requires c !in x
    ensures Partition(x + [c] + y, c) == (x, true, y)
  {
    var s := x + [c] + y;
    var i := IndexOf(s, c);
    assert s[|x|] == c;
    assert forall k :: 0 <= k < |x| ==> s[k] != c by {
      forall k | 0 <= k < |x| ensures s[k] != c {
        assert s[k] == x[k];
      }
    }
    assert i == |x|;
    assert s[..i] == x;
    assert s[i + 1..] == y;
  }

  // ---------------------------------------------------------------- split

  /** sep.join(pieces). */
  function Join(pieces: seq<string>, c: char): string
  {
    if pieces == [] then []
    else if |pieces| == 1 then pieces[0]
    else pieces[0] + [c] + Join(pieces[1..], c)
  }

  /** str.split(c) with a one-character separator: the pieces between separators. */
  function Split(s: string, c: char): (r: seq<string>)
    ensures |r| >= 1
    ensures forall k :: 0 <= k < |r| ==> c !in r[k]
    ensures Join(r, c) == s
    decreases |s|
  {
    var i := IndexOf(s, c);
    if i == |s| then [s]
    else
      var rest := Split(s[i + 1..], c);
      assert ([s[..i]] + rest)[1..] == rest;
      assert s == s[..i] + [c] + s[i + 1..];
      [s[..i]] + rest
  }

  /** A separator-free first piece comes off whole. */
  lemma SplitAfterPiece(x: string, c: char, y: string)
    requires c !in x
    ensures Split(x + [c] + y, c) == [x] + Split(y, c)
  {
    var s := x + [c] + y;
    PartitionAt(x, c, y);
    assert IndexOf(s, c) == |x|;
    assert s[..|x|] == x && s[|x| + 1..] == y;
  }

  /** Split inverts Join for separator-free pieces. */
  lemma {:induction false} SplitJoin(pieces: seq<string>, c: char)
    requires |pieces| >= 1
    requires forall k :: 0 <= k < |pieces| ==> c !in pieces[k]
    ensures Split(Join(pieces, c), c) == pieces
  {
    if |pieces| == 1 {
      assert Join(pieces, c) == pieces[0];
    } else {
      var rest := pieces[1..];
      assert forall k :: 0 <= k < |rest| ==> c !in rest[k] by {
        forall k | 0 <= k < |rest| ensures c !in rest[k] {
          assert rest[k] == pieces[k + 1];
        }
      }
      SplitJoin(rest, c);
      SplitAfterPiece(pieces[0], c, Join(rest, c));
      assert [pieces[0]] + rest == pieces;
    }
  }

  /** Joining one more piece appends the separator and the piece. */
  lemma {:induction false} JoinSnoc(pieces: seq<string>, q: string, c: char)
    requires |pieces| >= 1
    ensures Join(pieces + [q], c) == Join(pieces, c) + [c] + q
    decreases |pieces|
  {
    var all := pieces + [q];
    if |pieces| == 1 {
      assert all[1..] == [q];
    } else {
      assert all[1..] == pieces[1..] + [q];
      JoinSnoc(pieces[1..], q, c);
      assert Join(all, c) == pieces[0] + [c] + (Join(pieces[1..], c) + [c] + q);
    }
  }

  /** A trailing separator adds exactly one empty piece. */
  lemma SplitTrailing(s: string, c: char)
    ensures Split(s + [c], c) == Split(s, c) + [[]]
  {
    var pieces := Split(s, c);
    var more := pieces + [[]];
    JoinSnoc(pieces, [], c);
    assert Join(more, c) == s + [c];
    assert forall k :: 0 <= k < |more| ==> c !in more[k] by {
      forall k | 0 <= k < |more| ensures c !in more[k] {
        if k < |pieces| {
          assert more[k] == pieces[k];
        }
      }
    }
    SplitJoin(more, c);
  }

  // -------------------------------------------------- split on whitespace

  /** Length of the run of non-whitespace characters at the start of s. */
  function WordLength(s: string): (n: nat)
    ensures n <= |s|
    ensures forall k :: 0 <= k < n ==> !IsSpace(s[k])
    ensures n < |s| ==> IsSpace(s[n])
  {
    if s == [] || IsSpace(s[0]) then 0 else 1 + WordLength(s[1..])
  }

  /** str.split() without arguments: the maximal runs of non-whitespace characters. */
  function SplitWhitespace(s: string): (r: seq<string>)
    ensures forall k :: 0 <= k < |r| ==> r[k] != [] && NoSpace(r[k])
    decreases |s|
  {
    var n := LeadingSpaces(s);
    if n == |s| then []
    else
      var rest := s[n..];
      var w := WordLength(rest);
      assert w >= 1 by {
        assert rest[0] == s[n];
      }
      var word := rest[..w];
      assert NoSpace(word) by {
        forall k | 0 <= k < |word| ensures !IsSpace(word[k]) {
          assert word[k] == rest[k];
        }
      }
      var tail := SplitWhitespace(rest[w..]);
      var r := [word] + tail;
      assert forall k :: 0 <= k < |r| ==> r[k] != [] && NoSpace(r[k]) by {
        forall k | 0 <= k < |r| ensures r[k] != [] && NoSpace(r[k]) {
          if k > 0 {
            assert r[k] == tail[k - 1];
          }
        }
      }
      r
  }

  /** Whitespace alone holds no word. */
  lemma SplitWhitespaceAllSpace(a: string)
    requires AllSpace(a)
    ensures SplitWhitespace(a) == []
  {
    assert LeadingSpaces(a) == |a|;
  }

  /** A word between whitespace (or the ends of the text) is one token. */
  lemma SplitWhitespaceWord(a: string, w: string, b: string)
    requires AllSpace(a) && w != [] && NoSpace(w)
    requires b == [] || IsSpace(b[0])
    ensures SplitWhitespace(a + w + b) == [w] + SplitWhitespace(b)
  {
    var s := a + w + b;
    assert s == a + (w + b);
    LeadingSpacesBefore(a, w + b);
    var rest := s[|a|..];
    assert rest == w + b;
    WordLengthBefore(w, b);
    assert rest[..|w|] == w && rest[|w|..] == b;
  }

  /** The leading whitespace of a + t is a, when t starts with a non-space. */
  lemma LeadingSpacesBefore(a: string, t: string)
    requires AllSpace(a) && t != [] && !IsSpace(t[0])
    ensures LeadingSpaces(a + t) == |a|
  {
    var s := a + t;
    assert s[|a|] == t[0];
    assert forall k :: 0 <= k < |a| ==> IsSpace(s[k]) by {
      forall k | 0 <= k < |a| ensures IsSpace(s[k]) {
        assert s[k] == a[k];
      }
    }
  }

  /** The first word of w + b is w, when b is empty or starts with whitespace. */
  lemma WordLengthBefore(w: string, b: string)
    requires NoSpace(w) && (b == [] || IsSpace(b[0]))
    ensures WordLength(w + b) == |w|
  {
    var s := w + b;
    assert forall k :: 0 <= k < |w| ==> !IsSpace(s[k]) by {
      forall k | 0 <= k < |w| ensures !IsSpace(s[k]) {
        assert s[k] == w[k];
      }
    }
    if |w| < |s| {
      assert s[|w|] == b[0];
    }
  }

  // ---------------------------------------------------------------- lower

  /**
   * str.lower() on one character, exact for every character whose lower case is
   * an ASCII letter: A-Z and the KELVIN SIGN (U+212A, lower case 'k'). Every other
   * character is kept as it is, so it stays outside a-z as its true lower case does.
   */
  function LowerChar(c: char): (l: char)
    ensures 'a' <= l <= 'z' ==> ('A' <= c <= 'Z' || 'a' <= c <= 'z' || c == '\U{212A}')
  {
    if 'A' <= c <= 'Z' then (c as int + 32) as char
    else if c == '\U{212A}' then 'k'
    else c
  }

  /** str.lower(), as far as comparing the result with an ASCII word is concerned. */
  function Lower(s: string): (r: string)
    ensures |r| == |s|
    ensures forall k :: 0 <= k < |s| ==> r[k] == LowerChar(s[k])
  {
    seq(|s|, k requires 0 <= k < |s| => LowerChar(s[k]))
  }

  predicate IsLowerWord(s: string) {
    forall k :: 0 <= k < |s| ==> 'a' <= s[k] <= 'z'
  }

  /** A text whose lower case is an ASCII word holds no whitespace and no punctuation. */
  lemma LowerWordChars(s: string, c: char)
    requires IsLowerWord(Lower(s))
    requires c == ':' || c == ','
    ensures NoSpace(s) && c !in s
  {
    forall k | 0 <= k < |s| ensures !IsSpace(s[k]) && s[k] != c {
      assert 'a' <= LowerChar(s[k]) <= 'z';
    }
  }

  // ------------------------------------------------------------- numbers

  predicate IsDigit(c: char) {
    '0' <= c <= '9'
  }

  predicate AllDigits(s: string) {
    forall k :: 0 <= k < |s| ==> IsDigit(s[k])
  }

  /** Value of a string of decimal digits. */
  function DigitsValue(s: string): nat
    requires AllDigits(s)
  {
    if s == [] then 0 else 10 * DigitsValue(s[..|s| - 1]) + (s[|s| - 1] as int - '0' as int)
  }

  function Pow10(n: nat): (p: nat)
    ensures p >= 1
  {
    if n == 0 then 1 else 10 * Pow10(n - 1)
  }

  /** An optional leading '+' or '-': whether it says negative, and the text after it. */
  function SplitSign(t: string): (r: (bool, string))
    ensures t == r.1 || (|t| > 0 && t[0] in "+-" && t[1..] == r.1)
  {
    if |t| > 0 && (t[0] == '+' || t[0] == '-') then (t[0] == '-', t[1..]) else (false, t)
  }

  /** Characters a number literal is made of. */
  predicate NumberChars(t: string) {
    forall k :: 0 <= k < |t| ==> IsDigit(t[k]) || t[k] in "+-."
  }

  /**
   * float(t) for t without surrounding whitespace, over the decimal literals
   * [+|-] digits [. digits] and [+|-] . digits.
   */
  function ParseFloat(t: string): (r: Option<real>)
    ensures r.Some? ==> t != [] && NumberChars(t)
  {
    var (negative, body) := SplitSign(t);
    var (whole, _, fraction) := Partition(body, '.');
    if whole + fraction != [] && AllDigits(whole) && AllDigits(fraction) then
      assert body == whole + fraction || body == whole + "." + fraction;
      var magnitude := DigitsValue(whole) as real + DigitsValue(fraction) as real / Pow10(|fraction|) as real;
      Some(if negative then -magnitude else magnitude)
    else
      None
  }

  /** int(t) for t without surrounding whitespace, over the literals [+|-] digits. */
  function ParseInt(t: string): (r: Option<int>)
    ensures r.Some? ==> t != [] && NumberChars(t)
  {
    var (negative, body) := SplitSign(t);
    if body != [] && AllDigits(body) then
      Some(if negative then -(DigitsValue(body) as int) else DigitsValue(body) as int)
    else
      None
  }

  // ------------------------------------------------- number literal grammar

  /** An unsigned decimal literal: digits, or digits '.' digits with a digit on at least one side. */
  predicate UnsignedDecimal(u: string) {
    (u != [] && AllDigits(u))
    || (|u| > 1 && exists i :: 0 <= i < |u| && u[i] == '.' && AllDigits(u[..i]) && AllDigits(u[i + 1..]))
  }

  /** The literals float() accepts here: an optional sign, then an unsigned decimal. */
  predicate DecimalLiteral(t: string) {
    UnsignedDecimal(t) || (|t| > 0 && (t[0] == '+' || t[0] == '-') && UnsignedDecimal(t[1..]))
  }

  /** The literals int() accepts here: an optional sign, then digits. */
  predicate IntLiteral(t: string) {
    (t != [] && AllDigits(t)) || (|t| > 1 && (t[0] == '+' || t[0] == '-') && AllDigits(t[1..]))
  }

  /** An unsigned decimal starts with a digit or '.', never with a sign. */
  lemma UnsignedDecimalUnsigned(u: string)
    requires UnsignedDecimal(u)
    ensures |u| > 0 && u[0] != '+' && u[0] != '-'
  {
    if !(u != [] && AllDigits(u)) {
      var i :| 0 <= i < |u| && u[i] == '.' && AllDigits(u[..i]) && AllDigits(u[i + 1..]);
      if i > 0 {
        assert u[..i][0] == u[0];
      }
    }
  }

  /** With w free of '.', w '.' f is an unsigned decimal iff w and f are digits, not both empty. */
  lemma UnsignedPoint(w: string, f: string)
    requires '.' !in w
    ensures UnsignedDecimal(w + "." + f) <==> AllDigits(w) && AllDigits(f) && w + f != []
  {
    var u := w + "." + f;
    assert u[|w|] == '.';
    assert u[..|w|] == w;
    assert u[|w| + 1..] == f;
    assert !AllDigits(u);
    if UnsignedDecimal(u) {
      var i :| 0 <= i < |u| && u[i] == '.' && AllDigits(u[..i]) && AllDigits(u[i + 1..]);
      assert forall k :: 0 <= k < |w| ==> u[k] == w[k] && w[k] != '.';
      assert forall j :: 0 <= j < i ==> IsDigit(u[j]) by {
        forall j | 0 <= j < i ensures IsDigit(u[j]) { assert u[..i][j] == u[j]; }
      }
      assert i == |w|;
    } else {
      assert AllDigits(w) && AllDigits(f) && w + f != [] ==> |u| > 1;
    }
  }

  /** float() accepts exactly the decimal literals. */
  lemma ParseFloatAccepts(t: string)
    ensures ParseFloat(t).Some? <==> DecimalLiteral(t)
  {
    var (negative, body) := SplitSign(t);
    if UnsignedDecimal(t) {
      UnsignedDecimalUnsigned(t);
    }
    assert DecimalLiteral(t) <==> UnsignedDecimal(body);
    var (whole, found, fraction) := Partition(body, '.');
    if found {
      UnsignedPoint(whole, fraction);
    } else {
      assert body == whole && fraction == [];
      assert forall i :: 0 <= i < |body| ==> body[i] != '.';
      assert whole + fraction == body;
    }
  }

  /** Digits read as a number: the digits of a + b are those of a shifted past b. */
  lemma {:induction false} DigitsConcat(a: string, b: string)
    requires AllDigits(a) && AllDigits(b)
    ensures AllDigits(a + b)
    ensures DigitsValue(a + b) == DigitsValue(a) * Pow10(|b|) + DigitsValue(b)
  {
    AllDigitsConcat(a, b);
    if b == [] {
      assert a + b == a;
    } else {
      var s, b' := a + b, b[..|b| - 1];
      assert AllDigits(b') by {
        forall k | 0 <= k < |b'| ensures IsDigit(b'[k]) { assert b'[k] == b[k]; }
      }
      DigitsConcat(a, b');
      assert s[..|s| - 1] == a + b';
      assert s[|s| - 1] == b[|b| - 1];
      ShiftDigit(DigitsValue(a), Pow10(|b'|), DigitsValue(b'), b[|b| - 1] as int - '0' as int);
    }
  }

  /** Two runs of digits join into a run of digits. */
  lemma AllDigitsConcat(a: string, b: string)
    requires AllDigits(a) && AllDigits(b)
    ensures AllDigits(a + b)
  {
    var s := a + b;
    forall k | 0 <= k < |s| ensures IsDigit(s[k]) {
      if k < |a| { assert s[k] == a[k]; } else { assert s[k] == b[k - |a|]; }
    }
  }

  /** Appending digit d to x shifted by p and y: 10 (x p + y) + d = x (10 p) + (10 y + d). */
  lemma ShiftDigit(x: int, p: int, y: int, d: int)
    ensures 10 * (x * p + y) + d == x * (10 * p) + (10 * y + d)
  {
  }

  /** Dividing n * p + f by p splits into n and f / p. */
  lemma DivideSum(n: real, f: real, p: real)
    requires p > 0.0
    ensures (n * p + f) / p == n + f / p
  {
  }

  /** A fraction f / p with 0 <= f < p is in [0, 1). */
  lemma FractionRange(f: real, p: real)
    requires 0.0 <= f < p
    ensures 0.0 <= f / p < 1.0
  {
  }

  /** A string of n digits reads as less than 10^n. */
  lemma {:induction false} DigitsBound(s: string)
    requires AllDigits(s)
    ensures DigitsValue(s) < Pow10(|s|)
  {
    if s != [] {
      var s' := s[..|s| - 1];
      assert AllDigits(s') by {
        forall k | 0 <= k < |s'| ensures IsDigit(s'[k]) { assert s'[k] == s[k]; }
      }
      DigitsBound(s');
      assert IsDigit(s[|s| - 1]);
    }
  }

  /** A run of digits reads as that integer. */
  lemma ParseFloatDigits(w: string)
    requires w != [] && AllDigits(w)
    ensures ParseFloat(w) == Some(DigitsValue(w) as real)
  {
    assert forall k :: 0 <= k < |w| ==> w[k] != '.';
    var (negative, body) := SplitSign(w);
    assert IsDigit(w[0]);
    assert body == w && !negative;
  }

  /**
   * w '.' f reads as the integer w plus the fraction f / 10^|f|, which is below
   * one; equally, as all its digits read together, scaled down by 10^|f|.
   */
  lemma ParseFloatPoint(w: string, f: string)
    requires AllDigits(w) && AllDigits(f) && w + f != []
    ensures ParseFloat(w + "." + f)
      == Some(DigitsValue(w) as real + DigitsValue(f) as real / Pow10(|f|) as real)
    ensures 0.0 <= DigitsValue(f) as real / Pow10(|f|) as real < 1.0
    ensures AllDigits(w + f)
    ensures ParseFloat(w + "." + f) == Some(DigitsValue(w + f) as real / Pow10(|f|) as real)
  {
    var u := w + "." + f;
    assert forall k :: 0 <= k < |w| ==> w[k] != '.';
    if w != [] {
      assert u[0] == w[0] && IsDigit(w[0]);
    } else {
      assert u[0] == '.';
    }
    assert SplitSign(u) == (false, u);
    PartitionAt(w, '.', f);
    ParseFloatUnsigned(u, w, f);
    ScaledDigits(w, f);
  }

  /** The digits of w and f read together and scaled by 10^|f| are w plus a fraction below one. */
  lemma ScaledDigits(w: string, f: string)
    requires AllDigits(w) && AllDigits(f)
    ensures AllDigits(w + f)
    ensures 0.0 <= DigitsValue(f) as real / Pow10(|f|) as real < 1.0
    ensures DigitsValue(w + f) as real / Pow10(|f|) as real
      == DigitsValue(w) as real + DigitsValue(f) as real / Pow10(|f|) as real
  {
    DigitsBound(f);
    DigitsConcat(w, f);
    ScaledSum(DigitsValue(w), DigitsValue(f), Pow10(|f|));
  }

  /** (n * p + d) / p splits into n and a fraction d / p below one. */
  lemma ScaledSum(n: nat, d: nat, p: nat)
    requires 1 <= p && d < p
    ensures 0.0 <= d as real / p as real < 1.0
    ensures (n * p + d) as real / p as real == n as real + d as real / p as real
  {
    FractionRange(d as real, p as real);
    DivideSum(n as real, d as real, p as real);
    CastProduct(n, p);
  }

  /** Converting a product to a real multiplies the converted factors. */
  lemma CastProduct(n: int, p: int)
    ensures (n * p) as real == n as real * p as real
  {
  }

  /** An unsigned literal split at its point reads as the whole part plus the scaled fraction. */
  lemma ParseFloatUnsigned(u: string, w: string, f: string)
    requires SplitSign(u) == (false, u) && Partition(u, '.') == (w, true, f)
    requires AllDigits(w) && AllDigits(f) && w + f != []
    ensures ParseFloat(u) == Some(DigitsValue(w) as real + DigitsValue(f) as real / Pow10(|f|) as real)
  {
  }

  /** A sign in front of an unsigned decimal negates it or leaves it. */
  lemma ParseFloatSigned(c: char, u: string)
    requires c == '+' || c == '-'
    requires UnsignedDecimal(u)
    ensures ParseFloat(u).Some?
    ensures ParseFloat([c] + u) == Some(if c == '-' then -ParseFloat(u).value else ParseFloat(u).value)
  {
    UnsignedDecimalUnsigned(u);
    ParseFloatAccepts(u);
    assert ([c] + u)[1..] == u;
  }

  /** int() accepts exactly the integer literals. */
  lemma ParseIntAccepts(t: string)
    ensures ParseInt(t).Some? <==> IntLiteral(t)
  {
    if t != [] && AllDigits(t) {
      assert IsDigit(t[0]);
    }
  }

  /** An integer literal reads as its digits, negated after '-'; float() reads it as the same number. */
  lemma ParseIntValue(d: string)
    requires d != [] && AllDigits(d)
    ensures ParseInt(d) == Some(DigitsValue(d) as int)
    ensures ParseInt("+" + d) == Some(DigitsValue(d) as int)
    ensures ParseInt("-" + d) == Some(-(DigitsValue(d) as int))
    ensures ParseFloat(d) == Some(DigitsValue(d) as real)
  {
    assert IsDigit(d[0]);
    assert ("+" + d)[1..] == d;
    assert ("-" + d)[1..] == d;
    ParseFloatDigits(d);
  }

  /** "0.25" reads as a quarter. */
  lemma ParseFloatQuarter()
    ensures ParseFloat("0.25") == Some(0.25)
  {
  }

  /** A literal with two points is refused. */
  lemma ParseFloatTwoPoints()
    ensures ParseFloat("1.2.3") == None
  {
    assert "1.2.3" == "1" + "." + "2.3";
    PartitionAt("1", '.', "2.3");
    assert !IsDigit("2.3"[1]);
  }

  /** A literal with an exponent is refused. */
  lemma ParseFloatExponent()
    ensures ParseFloat("1e5") == None
  {
    assert !IsDigit("1e5"[1]);
  }
}
