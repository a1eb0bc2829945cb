/** Optional values, used wherever the source returns null or a missing lookup. */
module Outcomes {
  datatype Option<T> = None | Some(value: T)
}

/**
 * Sequence and string helpers shared by the PHP and JavaScript models:
 * substring search (`strpos(...) !== false`, `String.prototype.includes`),
 * `implode`/`Array.prototype.join`, `explode`/`String.prototype.split` on one
 * character, `array_slice(xs, 0, n)`, `array_unique` and literal replace-all.
 */
module Strings {
  import opened Outcomes

  predicate IsPrefix(p: string, s: string) {
    |p| <= |s| && s[..|p|] == p
  }

  /** A mismatch at any index within both strings rules out a prefix. */
  lemma NotPrefixAt(p: string, s: string, i: nat)
    requires i < |p| && i < |s| && s[i] != p[i]
    ensures !IsPrefix(p, s)
  {
    if |p| <= |s| {
      assert s[..|p|][i] != p[i];
    }
  }

  /** `needle` occurs in `s` starting at index `i`. */
  predicate OccursAt(s: string, needle: string, i: nat) {
    i + |needle| <= |s| && s[i..i + |needle|] == needle
  }

  /** `needle` occurs somewhere in `s` (an empty needle occurs everywhere, as in PHP 8). */
  predicate Contains(s: string, needle: string)
    decreases |s|
  {
    IsPrefix(needle, s) || (|s| > 0 && Contains(s[1..], needle))
  }

  /** An occurrence found by Contains sits at a concrete index. */
  lemma {:induction false} ContainsAt(s: string, needle: string)
    requires Contains(s, needle)
    ensures exists i: nat :: OccursAt(s, needle, i)
    decreases |s|
  {
    if IsPrefix(needle, s) {
      assert OccursAt(s, needle, 0);
    } else {
      ContainsAt(s[1..], needle);
      var i: nat :| OccursAt(s[1..], needle, i);
      assert s[i + 1..i + 1 + |needle|] == s[1..][i..i + |needle|];
      assert OccursAt(s, needle, i + 1);
    }
  }

  /** Conversely, an occurrence at any index is found by Contains. */
  lemma {:induction false} AtContains(s: string, needle: string, i: nat)
    requires OccursAt(s, needle, i)
    ensures Contains(s, needle)
    decreases i
  {
    if i > 0 {
      assert s[1..][i - 1..i - 1 + |needle|] == s[i..i + |needle|];
      AtContains(s[1..], needle, i - 1);
    } else {
      assert s[..|needle|] == needle;
    }
  }

  /** With no occurrence at any index, Contains is false. */
  lemma NoOccurrenceNotContains(s: string, needle: string)
    requires forall i: nat :: !OccursAt(s, needle, i)
    ensures !Contains(s, needle)
  {
    if Contains(s, needle) {
      ContainsAt(s, needle);
    }
  }

  /** Appending text never removes an occurrence. */
  lemma {:induction false} ContainsAppend(s: string, t: string, needle: string)
    requires Contains(s, needle)
    ensures Contains(s + t, needle)
    decreases |s|
  {
    if IsPrefix(needle, s) {
      assert (s + t)[..|needle|] == s[..|needle|];
    } else {
      ContainsAppend(s[1..], t, needle);
      assert (s + t)[1..] == s[1..] + t;
    }
  }

  /** A string without the character `c` contains no needle that has `c` in it. */
  lemma {:induction false} NotContainsChar(s: string, needle: string, c: char)
    requires c !in s && c in needle
    ensures !Contains(s, needle)
    decreases |s|
  {
    if |s| > 0 {
      NotContainsChar(s[1..], needle, c);
    }
  }

  /** `implode(sep, parts)` / `parts.join(sep)`. */
  function Join(parts: seq<string>, sep: string): string
    decreases |parts|
  {
    if |parts| == 0 then ""
    else if |parts| == 1 then parts[0]
    else parts[0] + sep + Join(parts[1..], sep)
  }

  /** Every part of a joined list is a substring of the result. */
  lemma {:induction false} JoinContainsParts(parts: seq<string>, sep: string, k: nat)
    requires k < |parts|
    ensures Contains(Join(parts, sep), parts[k])
    decreases |parts|
  {
    var j := Join(parts, sep);
    if |parts| == 1 {
      assert OccursAt(j, parts[0], 0);
      AtContains(j, parts[0], 0);
    } else if k == 0 {
      assert j[0..|parts[0]|] == parts[0];
      assert OccursAt(j, parts[0], 0);
      AtContains(j, parts[0], 0);
    } else {
      var rest := Join(parts[1..], sep);
      JoinContainsParts(parts[1..], sep, k - 1);
      assert j == (parts[0] + sep) + rest;
      ContainsAt(rest, parts[k]);
      var i: nat :| OccursAt(rest, parts[k], i);
      var off := |parts[0] + sep|;
      assert j[off + i..off + i + |parts[k]|] == rest[i..i + |parts[k]|];
      assert OccursAt(j, parts[k], off + i);
      AtContains(j, parts[k], off + i);
    }
  }

  /** `explode(c, s)` / `s.split(c)` for a one-character separator. */
  function Split(s: string, c: char): (r: seq<string>)
    ensures |r| >= 1
    ensures forall k :: 0 <= k < |r| ==> c !in r[k]
    decreases |s|
  {
    if |s| == 0 then [""]
    else if s[0] == c then [""] + Split(s[1..], c)
    else
      var rest := Split(s[1..], c);
      [[s[0]] + rest[0]] + rest[1..]
  }

  /** Joining the pieces with the separator gives back the original string. */
  lemma {:induction false} SplitJoin(s: string, c: char)
    ensures Join(Split(s, c), [c]) == s
    decreases |s|
  {
    if |s| > 0 {
      SplitJoin(s[1..], c);
      var rest := Split(s[1..], c);
      if s[0] == c {
        assert Split(s, c) == [""] + rest;
        if |rest| == 1 {
          assert Join(Split(s, c), [c]) == "" + [c] + rest[0];
        } else {
          assert Join(Split(s, c), [c]) == "" + [c] + Join(rest, [c]);
        }
      } else {
        var r := Split(s, c);
        assert r == [[s[0]] + rest[0]] + rest[1..];
        if |rest| == 1 {
          assert Join(r, [c]) == [s[0]] + rest[0];
        } else {
          assert r[1..] == rest[1..];
          assert Join(rest, [c]) == rest[0] + [c] + Join(rest[1..], [c]);
          assert Join(r, [c]) == [s[0]] + rest[0] + [c] + Join(rest[1..], [c]);
        }
      }
    }
  }

  /** A string without the separator is one piece. */
  lemma {:induction false} SplitWithoutSeparator(s: string, c: char)
    requires c !in s
    ensures Split(s, c) == [s]
    decreases |s|
  {
    if |s| > 0 {
      SplitWithoutSeparator(s[1..], c);
      assert [s[0]] + s[1..] == s;
    }
  }

  /** An occurrence inside a slice is an occurrence in the whole string, within the slice. */
  lemma OccursInSlice(s: string, pat: string, a: nat, b: nat, m: nat)
    requires a <= b <= |s| && OccursAt(s[a..b], pat, m)
    ensures OccursAt(s, pat, a + m) && a + m + |pat| <= b
  {
    var t := s[a..b];
    var w := s[a + m..a + m + |pat|];
    forall k | 0 <= k < |pat| ensures w[k] == pat[k] {
      assert pat[k] == t[m..m + |pat|][k] == t[m + k];
    }
  }

  /** `array_slice(xs, 0, n)`: the first `n` elements, or all of them. */
  function Take<T>(xs: seq<T>, n: nat): (r: seq<T>)
    ensures |r| == if |xs| < n then |xs| else n
    ensures r == xs[..|r|]
  {
    if |xs| <= n then xs else xs[..n]
  }

  /** `array_unique`: keeps the first occurrence of every value, in order. */
  function Dedup<T(==)>(xs: seq<T>): seq<T>
    decreases |xs|
  {
    if |xs| == 0 then []
    else
      var rest := Dedup(xs[..|xs| - 1]);
      if xs[|xs| - 1] in rest then rest else rest + [xs[|xs| - 1]]
  }

  /** `array.filter(keep)`: the elements that pass, in their original order. */
  function Filter<T>(xs: seq<T>, keep: T -> bool): (r: seq<T>)
    ensures |r| <= |xs|
    decreases |xs|
  {
    if |xs| == 0 then []
    else
      var rest := Filter(xs[..|xs| - 1], keep);
      if keep(xs[|xs| - 1]) then rest + [xs[|xs| - 1]] else rest
  }

  /** An element is kept exactly when it is in the input and passes. */
  lemma {:induction false} FilterMembers<T>(xs: seq<T>, keep: T -> bool)
    ensures forall x :: x in Filter(xs, keep) <==> x in xs && keep(x)
    decreases |xs|
  {
    if |xs| > 0 {
      FilterMembers(xs[..|xs| - 1], keep);
      assert xs == xs[..|xs| - 1] + [xs[|xs| - 1]];
    }
  }

  /** Filtering a concatenation filters each part and keeps them in order. */
  lemma {:induction false} FilterAppend<T>(xs: seq<T>, ys: seq<T>, keep: T -> bool)
    ensures Filter(xs + ys, keep) == Filter(xs, keep) + Filter(ys, keep)
    decreases |ys|
  {
    if |ys| == 0 {
      assert xs + ys == xs;
    } else {
      var init := ys[..|ys| - 1];
      var last := ys[|ys| - 1];
      assert (xs + ys)[..|xs + ys| - 1] == xs + init;
      assert (xs + ys)[|xs + ys| - 1] == last;
      FilterAppend(xs, init, keep);
      if keep(last) {
        assert Filter(xs, keep) + (Filter(init, keep) + [last]) == (Filter(xs, keep) + Filter(init, keep)) + [last];
      }
    }
  }

  /** When every element passes, the filter keeps the whole list. */
  lemma {:induction false} FilterAllPass<T>(xs: seq<T>, keep: T -> bool)
    requires forall i :: 0 <= i < |xs| ==> keep(xs[i])
    ensures Filter(xs, keep) == xs
    decreases |xs|
  {
    if |xs| > 0 {
      FilterAllPass(xs[..|xs| - 1], keep);
      assert xs == xs[..|xs| - 1] + [xs[|xs| - 1]];
    }
  }

  /** One more element is kept exactly when it passes. */
  lemma FilterSnoc<T>(xs: seq<T>, x: T, keep: T -> bool)
    ensures Filter(xs + [x], keep) == if keep(x) then Filter(xs, keep) + [x] else Filter(xs, keep)
  {
    assert (xs + [x])[..|xs|] == xs;
  }

  /** `array_map(f, xs)` / `xs.map(f)`. */
  function Map<T, U>(xs: seq<T>, f: T -> U): (r: seq<U>)
    ensures |r| == |xs|
    ensures forall k :: 0 <= k < |xs| ==> r[k] == f(xs[k])
  {
    seq(|xs|, k requires 0 <= k < |xs| => f(xs[k]))
  }

  lemma MapAppend<T, U>(xs: seq<T>, ys: seq<T>, f: T -> U)
    ensures Map(xs + ys, f) == Map(xs, f) + Map(ys, f)
  {
    forall i | 0 <= i < |xs + ys| ensures Map(xs + ys, f)[i] == (Map(xs, f) + Map(ys, f))[i] {
      if i < |xs| {
        assert (xs + ys)[i] == xs[i];
      } else {
        assert (xs + ys)[i] == ys[i - |xs|];
      }
    }
  }

  /** The pieces `f` gives for the elements, concatenated in order (`xs.map(f).join('')`, `flatMap`). */
  function ConcatMap<T, U>(xs: seq<T>, f: T -> seq<U>): seq<U>
    decreases |xs|
  {
    if |xs| == 0 then [] else ConcatMap(xs[..|xs| - 1], f) + f(xs[|xs| - 1])
  }

  /** One more element appends its piece. */
  lemma ConcatMapStep<T, U>(xs: seq<T>, i: nat, f: T -> seq<U>)
    requires i < |xs|
    ensures ConcatMap(xs[..i + 1], f) == ConcatMap(xs[..i], f) + f(xs[i])
  {
    assert xs[..i + 1][..i] == xs[..i];
  }

  /** An accumulator that holds the pieces of a prefix, extended by the next piece written in two halves. */
  lemma ConcatMapExtend<T, U>(head: seq<U>, xs: seq<T>, i: nat, f: T -> seq<U>, first: seq<U>, rest: seq<U>)
    requires i < |xs| && f(xs[i]) == first + rest
    ensures head + ConcatMap(xs[..i], f) + first + rest == head + ConcatMap(xs[..i + 1], f)
  {
    ConcatMapStep(xs, i, f);
  }

  /** The pieces of a concatenation are the concatenated pieces. */
  lemma {:induction false} ConcatMapAppend<T, U>(xs: seq<T>, ys: seq<T>, f: T -> seq<U>)
    ensures ConcatMap(xs + ys, f) == ConcatMap(xs, f) + ConcatMap(ys, f)
    decreases |ys|
  {
    if |ys| == 0 {
      assert xs + ys == xs;
    } else {
      var init := ys[..|ys| - 1];
      var last := ys[|ys| - 1];
      assert (xs + ys)[..|xs + ys| - 1] == xs + init;
      assert (xs + ys)[|xs + ys| - 1] == last;
      ConcatMapAppend(xs, init, f);
      var a, b, c := ConcatMap(xs, f), ConcatMap(init, f), f(last);
      assert a + (b + c) == (a + b) + c;
    }
  }

  /** With at most one piece per element, there are at most as many pieces as elements. */
  lemma {:induction false} ConcatMapAtMostOne<T, U>(xs: seq<T>, f: T -> seq<U>)
    requires forall k :: 0 <= k < |xs| ==> |f(xs[k])| <= 1
    ensures |ConcatMap(xs, f)| <= |xs|
    decreases |xs|
  {
    if |xs| > 0 {
      var n := |xs| - 1;
      assert forall k :: 0 <= k < n ==> xs[..n][k] == xs[k];
      ConcatMapAtMostOne(xs[..n], f);
    }
  }

  /** The concatenation is empty exactly when every piece is. */
  lemma {:induction false} ConcatMapEmpty<T, U>(xs: seq<T>, f: T -> seq<U>)
    ensures ConcatMap(xs, f) == [] <==> forall k :: 0 <= k < |xs| ==> f(xs[k]) == []
    decreases |xs|
  {
    if |xs| > 0 {
      var n := |xs| - 1;
      ConcatMapEmpty(xs[..n], f);
      assert forall k :: 0 <= k < n ==> xs[..n][k] == xs[k];
      var a, b := ConcatMap(xs[..n], f), f(xs[n]);
      assert |a + b| == |a| + |b|;
    }
  }

  /** The contribution of one check to an error list: its message when it fails. */
  function When(fails: bool, message: string): (r: seq<string>)
    ensures fails ==> r == [message]
    ensures !fails ==> r == []
  {
    if fails then [message] else []
  }

  /** A check that appends its message when it fails has appended `When(fails, message)`. */
  lemma AppendWhen(before: seq<string>, fails: bool, message: string, after: seq<string>)
    requires after == if fails then before + [message] else before
    ensures after == before + When(fails, message)
  {
  }

  /** Two exclusive checks in an if / else-if chain. */
  lemma AppendEitherWhen(before: seq<string>, first: bool, m1: string, second: bool, m2: string, after: seq<string>)
    requires !(first && second)
    requires after == if first then before + [m1] else if second then before + [m2] else before
    ensures after == before + When(first, m1) + When(second, m2)
  {
  }

  /** One loop step that appends `piece` to an accumulator of the form `start + prev`. */
  lemma AppendStep<T>(start: seq<T>, acc: seq<T>, prev: seq<T>, piece: seq<T>, next: seq<T>)
    requires acc == start + prev && next == prev + piece
    ensures acc + piece == start + next
  {
  }

  /** A conditional append has appended the clause or nothing. */
  lemma AppendIf<T>(before: seq<T>, cond: bool, clause: seq<T>, after: seq<T>)
    requires after == if cond then before + clause else before
    ensures after == before + (if cond then clause else [])
  {
  }

  lemma AppendRegroup3<T>(a: seq<T>, b: seq<T>, c: seq<T>, d: seq<T>)
    ensures a + b + c + d == a + (b + c + d)
  {
  }

  lemma AppendRegroup<T>(a: seq<T>, b: seq<T>, c: seq<T>)
    ensures a + b + c == a + (b + c)
  {
  }

  lemma EmptyPrefix<T>(xs: seq<T>)
    ensures [] + xs == xs
  {
  }

  /** The position of the first `c` in `s`. */
  function IndexOfChar(s: string, c: char): (r: Option<nat>)
    ensures r.Some? ==> r.value < |s| && s[r.value] == c && forall j :: 0 <= j < r.value ==> s[j] != c
    ensures r.None? ==> c !in s
    decreases |s|
  {
    if |s| == 0 then None
    else if s[0] == c then Some(0)
    else match IndexOfChar(s[1..], c)
      case None => None
      case Some(i) => Some(i + 1)
  }

  /** The first `c` is found wherever it is. */
  lemma {:induction false} IndexOfCharAt(s: string, c: char, i: nat)
    requires i < |s| && s[i] == c && forall j :: 0 <= j < i ==> s[j] != c
    ensures IndexOfChar(s, c) == Some(i)
    decreases i
  {
    if i > 0 {
      IndexOfCharAt(s[1..], c, i - 1);
    }
  }

  predicate NoDuplicates<T(==)>(xs: seq<T>) {
    forall i, j :: 0 <= i < j < |xs| ==> xs[i] != xs[j]
  }

  /** The elements kept are exactly the elements of the input. */
  lemma {:induction false} DedupElements<T>(xs: seq<T>)
    ensures forall x :: x in Dedup(xs) <==> x in xs
    ensures NoDuplicates(Dedup(xs))
    decreases |xs|
  {
    if |xs| > 0 {
      DedupElements(xs[..|xs| - 1]);
      assert xs == xs[..|xs| - 1] + [xs[|xs| - 1]];
    }
  }

  /** On a list without repetitions `array_unique` changes nothing. */
  lemma {:induction false} DedupOfDistinct<T>(xs: seq<T>)
    requires NoDuplicates(xs)
    ensures Dedup(xs) == xs
    decreases |xs|
  {
    if |xs| > 0 {
      var init := xs[..|xs| - 1];
      DedupOfDistinct(init);
      assert xs[|xs| - 1] !in init;
      assert xs == init + [xs[|xs| - 1]];
    }
  }

  /** Concatenating two repetition-free lists with no common element repeats nothing. */
  lemma NoDuplicatesAppend<T>(a: seq<T>, b: seq<T>)
    requires NoDuplicates(a) && NoDuplicates(b)
    requires forall x :: x in a ==> x !in b
    ensures NoDuplicates(a + b)
  {
    forall i, j | 0 <= i < j < |a + b| ensures (a + b)[i] != (a + b)[j] {
      if i < |a| && j >= |a| {
        assert (a + b)[i] in a && (a + b)[j] in b;
      }
    }
  }

  /** Number of occurrences of the character `c`. */
  function CountChar(s: string, c: char): nat
    decreases |s|
  {
    if |s| == 0 then 0
    else (if s[0] == c then 1 else 0) + CountChar(s[1..], c)
  }

  lemma {:induction false} CountCharAppend(a: string, b: string, c: char)
    ensures CountChar(a + b, c) == CountChar(a, c) + CountChar(b, c)
    decreases |a|
  {
    if |a| > 0 {
      assert (a + b)[1..] == a[1..] + b;
      CountCharAppend(a[1..], b, c);
    } else {
      assert a + b == b;
    }
  }

  lemma {:induction false} CountCharAbsent(s: string, c: char)
    requires c !in s
    ensures CountChar(s, c) == 0
    decreases |s|
  {
    if |s| > 0 {
      CountCharAbsent(s[1..], c);
    }
  }

  /**
   * Replaces every occurrence of the literal `pat`, scanning left to right
   * without overlaps (`s.replace(/pat/g, rep)` with a literal pattern and a
   * literal replacement).
   */
  function ReplaceAll(s: string, pat: string, rep: string): string
    requires |pat| > 0
    decreases |s|
  {
    if |s| == 0 then ""
    else if IsPrefix(pat, s) then rep + ReplaceAll(s[|pat|..], pat, rep)
    else [s[0]] + ReplaceAll(s[1..], pat, rep)
  }

  /** A string in which the pattern does not occur is left unchanged. */
  lemma {:induction false} ReplaceAllAbsent(s: string, pat: string, rep: string)
    requires |pat| > 0 && !Contains(s, pat)
    ensures ReplaceAll(s, pat, rep) == s
    decreases |s|
  {
    if |s| > 0 {
      ReplaceAllAbsent(s[1..], pat, rep);
    }
  }

  /** Text in front that does not hold the pattern's first character is copied as it is. */
  lemma {:induction false} ReplaceAllSkip(a: string, s: string, pat: string, rep: string)
    requires |pat| > 0 && pat[0] !in a
    ensures ReplaceAll(a + s, pat, rep) == a + ReplaceAll(s, pat, rep)
    decreases |a|
  {
    if |a| > 0 {
      var whole := a + s;
      assert whole[0] == a[0] && whole[1..] == a[1..] + s;
      assert !IsPrefix(pat, whole) by {
        assert |pat| <= |whole| ==> whole[..|pat|][0] == a[0] != pat[0];
      }
      ReplaceAllSkip(a[1..], s, pat, rep);
      AppendRegroup([a[0]], a[1..], ReplaceAll(s, pat, rep));
      assert [a[0]] + a[1..] == a;
    } else {
      assert a + s == s;
    }
  }

  /**
   * An occurrence of the pattern after text that does not hold its first
   * character is replaced, and the scan goes on just after it.
   */
  lemma ReplaceAllAround(a: string, pat: string, rep: string, b: string)
    requires |pat| > 0 && pat[0] !in a
    ensures ReplaceAll(a + pat + b, pat, rep) == a + rep + ReplaceAll(b, pat, rep)
  {
    var pb := pat + b;
    assert a + pat + b == a + pb;
    ReplaceAllSkip(a, pb, pat, rep);
    assert pb[..|pat|] == pat && pb[|pat|..] == b;
    AppendRegroup(a, rep, ReplaceAll(b, pat, rep));
  }

  predicate IsDigitChar(c: char) { '0' <= c <= '9' }

  function DigitChar(d: nat): (c: char)
    requires d < 10
    ensures IsDigitChar(c)
  {
    ('0' as int + d) as char
  }

  /** Decimal notation of a natural number, without leading zeros. */
  function NatToString(n: nat): (r: string)
    ensures |r| >= 1
    ensures forall k :: 0 <= k < |r| ==> IsDigitChar(r[k])
    ensures r[0] == '0' ==> n == 0
    decreases n
  {
    if n < 10 then [DigitChar(n)] else NatToString(n / 10) + [DigitChar(n % 10)]
  }

  /** Decimal notation of an integer, with a leading '-' when negative. */
  function IntToString(n: int): (r: string)
    ensures |r| >= 1
    ensures (r[0] == '-') <==> n < 0
  {
    if n < 0 then "-" + NatToString(-n) else NatToString(n)
  }

  /** The value of a decimal digit (0 for any other character). */
  function DigitValue(c: char): (d: nat)
    ensures d < 10
  {
    if IsDigitChar(c) then c as int - '0' as int else 0
  }

  /** The value of the first `n` characters read as decimal digits. */
  function ParseDigits(s: string, n: nat): nat
    requires n <= |s|
    decreases n
  {
    if n == 0 then 0 else ParseDigits(s, n - 1) * 10 + DigitValue(s[n - 1])
  }

  /** The value of a string of decimal digits. */
  function ParseNat(s: string): nat {
    ParseDigits(s, |s|)
  }

  /** Only the first `n` characters count. */
  lemma {:induction false} ParseDigitsPrefix(s: string, t: string, n: nat)
    requires n <= |s| && n <= |t| && s[..n] == t[..n]
    ensures ParseDigits(s, n) == ParseDigits(t, n)
    decreases n
  {
    if n > 0 {
      assert s[n - 1] == s[..n][n - 1] == t[..n][n - 1] == t[n - 1];
      assert s[..n - 1] == s[..n][..n - 1] == t[..n][..n - 1] == t[..n - 1];
      ParseDigitsPrefix(s, t, n - 1);
    }
  }

  /** Reading back the decimal notation gives the number. */
  lemma {:induction false} ParseNatToString(n: nat)
    ensures ParseNat(NatToString(n)) == n
    decreases n
  {
    if n >= 10 {
      ParseNatToString(n / 10);
      var r := NatToString(n);
      var init := NatToString(n / 10);
      assert r == init + [DigitChar(n % 10)];
      assert r[..|init|] == init[..|init|];
      ParseDigitsPrefix(r, init, |init|);
    }
  }

  /** A canonical array index: digits, and no leading zero unless it is "0". */
  predicate IsCanonicalIndex(s: string) {
    |s| >= 1 && (forall k :: 0 <= k < |s| ==> IsDigitChar(s[k])) && (s[0] == '0' ==> s == "0")
  }

  /** Every natural number's notation is a canonical index. */
  lemma NatToStringCanonical(n: nat)
    ensures IsCanonicalIndex(NatToString(n))
  {
  }
}
