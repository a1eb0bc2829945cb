/**
 * The parts of PHP's standard library that the server-side code relies on,
 * over strings whose characters stand for bytes (PHP strings are byte
 * strings; `strlen` counts bytes).
 */
module PhpRuntime {
  import opened Outcomes
  import opened Strings

  /** `$_POST['x'] ?? ''`: a missing request field reads as the empty string. */
  function Posted(v: Option<string>): (r: string)
    ensures v.Some? ==> r == v.value
    ensures v.None? ==> r == ""
  {
    if v.Some? then v.value else ""
  }

  predicate IsAsciiUpper(c: char) { 'A' <= c <= 'Z' }
  predicate IsAsciiLower(c: char) { 'a' <= c <= 'z' }
  predicate IsAsciiLetter(c: char) { IsAsciiUpper(c) || IsAsciiLower(c) }
  predicate IsDigit(c: char) { '0' <= c <= '9' }

  function ToLowerChar(c: char): char {
    if IsAsciiUpper(c) then (c as int + 32) as char else c
  }

  /** `strtolower`: ASCII letters only, every other byte unchanged. */
  function StrToLower(s: string): (r: string)
    ensures |r| == |s|
    ensures forall i :: 0 <= i < |r| ==> !IsAsciiUpper(r[i])
    ensures forall i :: 0 <= i < |s| && !IsAsciiUpper(s[i]) ==> r[i] == s[i]
    ensures forall i :: 0 <= i < |s| && IsAsciiUpper(s[i]) ==> r[i] as int == s[i] as int + 32
    decreases |s|
  {
    if |s| == 0 then "" else [ToLowerChar(s[0])] + StrToLower(s[1..])
  }

  /** Lowering case commutes with concatenation. */
  lemma {:induction false} StrToLowerAppend(a: string, b: string)
    ensures StrToLower(a + b) == StrToLower(a) + StrToLower(b)
    decreases |a|
  {
    if |a| == 0 {
      assert a + b == b;
    } else {
      assert (a + b)[1..] == a[1..] + b;
      StrToLowerAppend(a[1..], b);
    }
  }

  function ToUpperChar(c: char): char {
    if IsAsciiLower(c) then (c as int - 32) as char else c
  }

  /** `ucfirst`: the first byte upper-cased when it is an ASCII lower-case letter, the rest unchanged. */
  function UcFirst(s: string): (r: string)
    ensures |r| == |s|
    ensures |s| > 0 ==> !IsAsciiLower(r[0]) && r[1..] == s[1..]
    ensures |s| > 0 && !IsAsciiLower(s[0]) ==> r == s
  {
    if |s| == 0 then s else [ToUpperChar(s[0])] + s[1..]
  }

  /** `empty($s)` for a string: true for "" and for "0". */
  predicate IsEmptyString(s: string) {
    s == "" || s == "0"
  }

  /** The bytes `trim` strips by default: space, \t, \n, \r, NUL and \x0B. */
  predicate IsTrimByte(c: char) {
    c == ' ' || c == '\t' || c == '\n' || c == '\r' || c == '\0' || c == '\U{000B}'
  }

  predicate AllTrimBytes(s: string) {
    forall i :: 0 <= i < |s| ==> IsTrimByte(s[i])
  }

  function TrimLeft(s: string): (r: string)
    ensures |r| <= |s|
    ensures r == "" || !IsTrimByte(r[0])
    decreases |s|
  {
    if |s| > 0 && IsTrimByte(s[0]) then TrimLeft(s[1..]) else s
  }

  /** TrimLeft keeps a suffix of its input. */
  lemma {:induction false} TrimLeftSuffix(s: string)
    ensures TrimLeft(s) == s[|s| - |TrimLeft(s)|..]
    decreases |s|
  {
    if |s| > 0 && IsTrimByte(s[0]) {
      TrimLeftSuffix(s[1..]);
      assert s[1..][|s| - 1 - |TrimLeft(s)|..] == s[|s| - |TrimLeft(s)|..];
    }
  }

  function TrimRight(s: string): (r: string)
    ensures |r| <= |s| && r == s[..|r|]
    ensures r == "" || !IsTrimByte(r[|r| - 1])
    decreases |s|
  {
    if |s| > 0 && IsTrimByte(s[|s| - 1]) then TrimRight(s[..|s| - 1]) else s
  }

  /** `trim($s)` with the default byte list. */
  function Trim(s: string): (r: string)
    ensures |r| <= |s|
    ensures r == "" || (!IsTrimByte(r[0]) && !IsTrimByte(r[|r| - 1]))
  {
    var right := TrimRight(s);
    TrimLeftSuffix(right);
    TrimLeft(right)
  }

  lemma {:induction false} TrimLeftEmpty(s: string)
    ensures TrimLeft(s) == "" <==> AllTrimBytes(s)
    decreases |s|
  {
    if |s| > 0 && IsTrimByte(s[0]) {
      TrimLeftEmpty(s[1..]);
      assert s == [s[0]] + s[1..];
    }
  }

  lemma {:induction false} TrimRightEmpty(s: string)
    ensures TrimRight(s) == "" <==> AllTrimBytes(s)
    decreases |s|
  {
    if |s| > 0 && IsTrimByte(s[|s| - 1]) {
      TrimRightEmpty(s[..|s| - 1]);
      assert s == s[..|s| - 1] + [s[|s| - 1]];
    }
  }

  /** A trimmed string is empty exactly when the input held only trim bytes. */
  lemma TrimEmpty(s: string)
    ensures Trim(s) == "" <==> AllTrimBytes(s)
  {
    var t := TrimRight(s);
    TrimRightEmpty(s);
    TrimLeftEmpty(t);
  }

  lemma {:induction false} TrimLeftKeepsOut(s: string, c: char)
    requires c !in s
    ensures c !in TrimLeft(s)
    decreases |s|
  {
    if |s| > 0 && IsTrimByte(s[0]) {
      assert s == [s[0]] + s[1..];
      TrimLeftKeepsOut(s[1..], c);
    }
  }

  lemma {:induction false} TrimRightKeepsOut(s: string, c: char)
    requires c !in s
    ensures c !in TrimRight(s)
    decreases |s|
  {
    if |s| > 0 && IsTrimByte(s[|s| - 1]) {
      assert s == s[..|s| - 1] + [s[|s| - 1]];
      TrimRightKeepsOut(s[..|s| - 1], c);
    }
  }

  /** Trimming only removes bytes: a byte absent from the input is absent from the result. */
  lemma TrimKeepsOut(s: string, c: char)
    requires c !in s
    ensures c !in Trim(s)
  {
    TrimRightKeepsOut(s, c);
    TrimLeftKeepsOut(TrimRight(s), c);
  }

  /** A byte that `str_word_count` treats as part of a word (C-locale letters, ' and -). */
  predicate IsWordByte(c: char) {
    IsAsciiLetter(c) || c == '\'' || c == '-'
  }

  /** Number of maximal runs of word bytes. */
  function WordRuns(s: string): nat
    decreases |s|
  {
    if |s| == 0 then 0
    else if IsWordByte(s[0]) && (|s| == 1 || !IsWordByte(s[1])) then 1 + WordRuns(s[1..])
    else WordRuns(s[1..])
  }

  /**
   * `str_word_count($s)`: words are maximal runs of letters, ' and -; a
   * leading ' or - of the whole string and a trailing - are not word bytes.
   */
  function StrWordCount(s: string): (n: nat)
    ensures n <= |s|
  {
    if |s| == 0 then 0
    else
      var start := if s[0] == '\'' || s[0] == '-' then 1 else 0;
      var end := if s[|s| - 1] == '-' then |s| - 1 else |s|;
      if start >= end then 0 else WordRunsBound(s[start..end]); WordRuns(s[start..end])
  }

  lemma {:induction false} WordRunsBound(s: string)
    ensures WordRuns(s) <= |s|
    decreases |s|
  {
    if |s| > 0 {
      WordRunsBound(s[1..]);
    }
  }

  /** Lower-casing keeps every byte's word/non-word class. */
  lemma {:induction false} WordRunsLower(s: string)
    ensures WordRuns(StrToLower(s)) == WordRuns(s)
    decreases |s|
  {
    if |s| > 0 {
      WordRunsLower(s[1..]);
      assert StrToLower(s)[1..] == StrToLower(s[1..]);
    }
  }

  /**
   * `round($n / $d)`: the nearest integer, halves rounded away from zero.
   * The quotients the scorer rounds are ratios of integers, so they are
   * represented exactly by their numerator and denominator.
   */
  function RoundRatio(n: int, d: int): (r: int)
    requires d > 0
    ensures n >= 0 ==> r >= 0 && 2 * d * r <= 2 * n + d < 2 * d * r + 2 * d
    ensures n < 0 ==> r <= 0 && 2 * d * r - 2 * d < 2 * n - d <= 2 * d * r
  {
    if n >= 0 then (2 * n + d) / (2 * d) else -((2 * (-n) + d) / (2 * d))
  }

  /** Multiplying by a non-negative factor keeps a strict step of at least one. */
  lemma MulStep(x: int, y: int, z: int)
    requires z >= 0 && x < y
    ensures z * x + z <= z * y
  {
    var k := y - x - 1;
    assert y == x + 1 + k;
    assert z * y == z * x + z + z * k;
    assert z * k >= 0;
  }

  /** The quotient of Euclidean division is the unique `q` with `D*q <= a < D*q + D`. */
  lemma DivUnique(a: int, dd: int, q: int)
    requires dd > 0 && dd * q <= a < dd * q + dd
    ensures a / dd == q
  {
    var r := a / dd;
    assert a == dd * r + a % dd;
    if r < q {
      MulStep(r, q, dd);
    } else if r > q {
      MulStep(q, r, dd);
    }
  }

  /** Rounding is monotonic in the numerator. */
  lemma RoundRatioMonotonic(n1: int, n2: int, d: int)
    requires d > 0 && n1 <= n2
    ensures RoundRatio(n1, d) <= RoundRatio(n2, d)
  {
    var r1, r2 := RoundRatio(n1, d), RoundRatio(n2, d);
    if r1 > r2 {
      MulStep(r2, r1, 2 * d);
    }
  }

  /** Rounding an exact multiple gives the multiplier back. */
  lemma RoundRatioExact(k: int, d: int)
    requires d > 0
    ensures RoundRatio(k * d, d) == k
  {
    if k >= 0 {
      assert 2 * (k * d) + d == (2 * d) * k + d;
      DivUnique(2 * (k * d) + d, 2 * d, k);
    } else {
      assert 2 * (-(k * d)) + d == (2 * d) * (-k) + d;
      DivUnique(2 * (-(k * d)) + d, 2 * d, -k);
    }
  }

  /** A ratio between 0 and `hi` rounds to a value between 0 and `hi`. */
  lemma RoundRatioBounds(n: int, d: int, hi: int)
    requires d > 0 && 0 <= n <= hi * d
    ensures 0 <= RoundRatio(n, d) <= hi
  {
    RoundRatioMonotonic(n, hi * d, d);
    RoundRatioExact(hi, d);
  }
}

/** ECMAScript string primitives used by the browser code. */
module JsRuntime {

  /** The WhiteSpace and LineTerminator code points (`\s` and `String.prototype.trim`). */
  predicate IsJsSpace(c: char) {
    c == '\t' || c == '\n' || c == '\U{000B}' || c == '\U{000C}' || c == '\r' || c == ' '
    || c == '\U{00A0}' || c == '\U{1680}' || ('\U{2000}' <= c <= '\U{200A}')
    || c == '\U{2028}' || c == '\U{2029}' || c == '\U{202F}' || c == '\U{205F}'
    || c == '\U{3000}' || c == '\U{FEFF}'
  }

  predicate AllSpace(s: string) {
    forall i :: 0 <= i < |s| ==> IsJsSpace(s[i])
  }

  function TrimStart(s: string): (r: string)
    ensures |r| <= |s|
    ensures r == "" || !IsJsSpace(r[0])
    decreases |s|
  {
    if |s| > 0 && IsJsSpace(s[0]) then TrimStart(s[1..]) else s
  }

  /** What TrimStart removes is white space. */
  lemma {:induction false} TrimStartRemoved(s: string)
    ensures AllSpace(s[..|s| - |TrimStart(s)|])
    decreases |s|
  {
    if |s| > 0 && IsJsSpace(s[0]) {
      TrimStartRemoved(s[1..]);
      var k := |s| - |TrimStart(s)|;
      assert s[..k] == [s[0]] + s[1..][..k - 1];
    }
  }

  function TrimEnd(s: string): (r: string)
    ensures |r| <= |s| && r == s[..|r|]
    ensures r == "" || !IsJsSpace(r[|r| - 1])
    decreases |s|
  {
    if |s| > 0 && IsJsSpace(s[|s| - 1]) then TrimEnd(s[..|s| - 1]) else s
  }

  /** What TrimEnd removes is white space. */
  lemma {:induction false} TrimEndRemoved(s: string)
    ensures AllSpace(s[|TrimEnd(s)|..])
    decreases |s|
  {
    if |s| > 0 && IsJsSpace(s[|s| - 1]) {
      var init := s[..|s| - 1];
      TrimEndRemoved(init);
      var k := |TrimEnd(s)|;
      assert s[k..] == init[k..] + [s[|s| - 1]];
    }
  }

  /** `s.trim()`. */
  function Trim(s: string): (r: string)
    ensures |r| <= |s|
    ensures r == "" || (!IsJsSpace(r[0]) && !IsJsSpace(r[|r| - 1]))
  {
    TrimEnd(TrimStart(s))
  }

  lemma {:induction false} TrimStartEmpty(s: string)
    ensures TrimStart(s) == "" <==> AllSpace(s)
    decreases |s|
  {
    if |s| > 0 && IsJsSpace(s[0]) {
      TrimStartEmpty(s[1..]);
      assert s == [s[0]] + s[1..];
    }
  }

  lemma {:induction false} TrimEndEmpty(s: string)
    ensures TrimEnd(s) == "" <==> AllSpace(s)
    decreases |s|
  {
    if |s| > 0 && IsJsSpace(s[|s| - 1]) {
      TrimEndEmpty(s[..|s| - 1]);
      assert s == s[..|s| - 1] + [s[|s| - 1]];
    }
  }

  /** A string trims to "" exactly when it is all whitespace. */
  lemma BlankIffAllSpace(s: string)
    ensures Trim(s) == "" <==> AllSpace(s)
  {
    TrimStartEmpty(s);
    TrimEndEmpty(TrimStart(s));
  }

  /** Leading whitespace does not change the trimmed value. */
  lemma {:induction false} TrimSpacePrefix(w: string, s: string)
    requires AllSpace(w)
    ensures Trim(w + s) == Trim(s)
    decreases |w|
  {
    if |w| > 0 {
      assert (w + s)[1..] == w[1..] + s;
      assert AllSpace(w[1..]) by {
        forall i | 0 <= i < |w[1..]| ensures IsJsSpace(w[1..][i]) { assert w[1..][i] == w[i + 1]; }
      }
      TrimSpacePrefix(w[1..], s);
    } else {
      assert w + s == s;
    }
  }
}
