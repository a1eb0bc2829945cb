/**
 * The site-wide browser validation: the e-mail pattern
 * `/^[^\s@]+@[^\s@]+\.[^\s@]+$/` and the error list built over a form's
 * required fields. A field is an abstract record of what the code reads
 * from the DOM element: its value, the text of its first label, its name
 * and whether it is an e-mail input.
 */
module ClientValidation {
  import opened Outcomes
  import opened Strings
  import opened JsRuntime

  // ------------------------------------------------------------ e-mail pattern

  /** A character of the class `[^\s@]`. */
  predicate IsAddressChar(c: char) {
    !IsJsSpace(c) && c != '@'
  }

  predicate AllAddressChars(s: string) {
    forall k :: 0 <= k < |s| ==> IsAddressChar(s[k])
  }

  predicate NoSpace(s: string) {
    forall k :: 0 <= k < |s| ==> !IsJsSpace(s[k])
  }

  /**
   * What the regular expression denotes: the whole string is a non-empty
   * run of `[^\s@]`, an '@' at `at`, a non-empty run, a '.' at `dot`, and a
   * non-empty run.
   */
  predicate SplitsAsAddress(s: string, at: int, dot: int) {
    && 0 < at && at + 1 < dot && dot + 1 < |s|
    && s[at] == '@' && s[dot] == '.'
    && AllAddressChars(s[..at]) && AllAddressChars(s[at + 1..dot]) && AllAddressChars(s[dot + 1..])
  }

  ghost predicate MatchesAddressPattern(s: string) {
    exists at: int, dot: int :: SplitsAsAddress(s, at, dot)
  }

  /**
   * `isValidEmail`, computed by scanning: there is a first '@', it is not
   * the first character, no other '@' follows it, nothing is whitespace,
   * and the part after the '@' has a '.' that is neither its first nor its
   * last character.
   */
  function IsValidEmail(s: string): bool {
    match IndexOfChar(s, '@')
    case None => false
    case Some(at) =>
      at > 0 && NoSpace(s) && '@' !in s[at + 1..] && at + 3 < |s| && '.' in s[at + 2..|s| - 1]
  }

  lemma AddressCharsOfSlice(s: string, lo: int, hi: int)
    requires 0 <= lo <= hi <= |s|
    requires forall i :: lo <= i < hi ==> IsAddressChar(s[i])
    ensures AllAddressChars(s[lo..hi])
  {
    forall k | 0 <= k < hi - lo ensures IsAddressChar(s[lo..hi][k]) {
      assert s[lo..hi][k] == s[lo + k];
    }
  }

  lemma SliceOfAddressChars(s: string, lo: int, hi: int)
    requires 0 <= lo <= hi <= |s|
    requires AllAddressChars(s[lo..hi])
    ensures forall i :: lo <= i < hi ==> IsAddressChar(s[i])
  {
    forall i | lo <= i < hi ensures IsAddressChar(s[i]) {
      assert s[i] == s[lo..hi][i - lo];
    }
  }

  lemma CharNotInSlice(s: string, lo: int, hi: int, c: char)
    requires 0 <= lo <= hi <= |s|
    requires forall i :: lo <= i < hi ==> s[i] != c
    ensures c !in s[lo..hi]
  {
    forall k | 0 <= k < hi - lo ensures s[lo..hi][k] != c {
      assert s[lo..hi][k] == s[lo + k];
    }
  }

  /** An accepted string splits as the pattern says. */
  lemma ValidEmailSplits(s: string) returns (at: int, dot: int)
    requires IsValidEmail(s)
    ensures SplitsAsAddress(s, at, dot)
  {
    at := IndexOfChar(s, '@').value;
    var inner := s[at + 2..|s| - 1];
    var k :| 0 <= k < |inner| && inner[k] == '.';
    dot := at + 2 + k;
    assert s[dot] == '.';
    forall i | at + 1 <= i < |s| ensures s[i] != '@' {
      assert s[i] == s[at + 1..][i - at - 1];
    }
    AddressCharsOfSlice(s, 0, at);
    AddressCharsOfSlice(s, at + 1, dot);
    AddressCharsOfSlice(s, dot + 1, |s|);
    assert s[dot + 1..|s|] == s[dot + 1..];
  }

  /** A string that splits as the pattern says is accepted. */
  lemma SplitsIsValidEmail(s: string, at: int, dot: int)
    requires SplitsAsAddress(s, at, dot)
    ensures IsValidEmail(s)
  {
    assert s[dot + 1..|s|] == s[dot + 1..];
    SliceOfAddressChars(s, 0, at);
    SliceOfAddressChars(s, at + 1, dot);
    SliceOfAddressChars(s, dot + 1, |s|);
    IndexOfCharAt(s, '@', at);
    CharNotInSlice(s, at + 1, |s|, '@');
    assert s[at + 1..|s|] == s[at + 1..];
    assert NoSpace(s);
    assert s[at + 2..|s| - 1][dot - at - 2] == '.';
  }

  /** The scan accepts exactly the strings the pattern matches. */
  lemma ValidEmailMatchesPattern(s: string)
    ensures IsValidEmail(s) <==> MatchesAddressPattern(s)
  {
    if IsValidEmail(s) {
      var at, dot := ValidEmailSplits(s);
    }
    if MatchesAddressPattern(s) {
      var at: int, dot: int :| SplitsAsAddress(s, at, dot);
      SplitsIsValidEmail(s, at, dot);
    }
  }

  /** A string whose only '@' is at `at` counts one '@'. */
  lemma OneAtSign(s: string, at: nat)
    requires at < |s| && s[at] == '@'
    requires forall i :: 0 <= i < |s| && i != at ==> s[i] != '@'
    ensures CountChar(s, '@') == 1
  {
    assert s == s[..at] + ([s[at]] + s[at + 1..]);
    CharNotInSlice(s, 0, at, '@');
    CharNotInSlice(s, at + 1, |s|, '@');
    assert s[0..at] == s[..at] && s[at + 1..|s|] == s[at + 1..];
    CountCharAbsent(s[..at], '@');
    CountCharAbsent(s[at + 1..], '@');
    CountCharAppend([s[at]], s[at + 1..], '@');
    CountCharAppend(s[..at], [s[at]] + s[at + 1..], '@');
  }

  /**
   * What an accepted address looks like: no whitespace anywhere, exactly
   * one '@', a non-empty part before it, and after it a '.' that is
   * neither the first nor the last character of the domain.
   */
  lemma ValidEmailShape(s: string)
    requires IsValidEmail(s)
    ensures NoSpace(s)
    ensures CountChar(s, '@') == 1
    ensures s[0] != '@'
    ensures exists at :: 0 < at < |s| && s[at] == '@' && HasInnerDot(s[at + 1..])
  {
    var at := IndexOfChar(s, '@').value;
    forall i | 0 <= i < |s| && i != at ensures s[i] != '@' {
      if i > at {
        assert s[i] == s[at + 1..][i - at - 1];
      }
    }
    OneAtSign(s, at);
    var inner := s[at + 2..|s| - 1];
    var k :| 0 <= k < |inner| && inner[k] == '.';
    assert s[at + 1..][k + 1] == '.';
  }

  /** The domain has a '.' strictly inside it. */
  predicate HasInnerDot(d: string) {
    exists j :: 0 < j < |d| - 1 && d[j] == '.'
  }

  // ------------------------------------------------------------ validateForm

  /** A required form control as `validateForm` reads it; `labelText` is None when it has no label. */
  datatype FormField = FormField(value: string, labelText: Option<string>, name: string, isEmail: bool)

  const InvalidEmailMessage := "Please enter a valid email address"

  /** `field.labels[0]?.textContent || field.name`: an absent or empty label falls back to the name. */
  function Caption(f: FormField): (r: string)
    ensures f.labelText.Some? && f.labelText.value != "" ==> r == f.labelText.value
    ensures f.labelText.None? || f.labelText.value == "" ==> r == f.name
  {
    if f.labelText.Some? && f.labelText.value != "" then f.labelText.value else f.name
  }

  /** The errors one field adds: "<caption> is required" when blank, else the e-mail message when it applies. */
  function FieldErrors(f: FormField): (r: seq<string>)
    ensures |r| <= 1
  {
    if Trim(f.value) == "" then [Caption(f) + " is required"]
    else if f.isEmail && !IsValidEmail(f.value) then [InvalidEmailMessage]
    else []
  }

  /** The errors of the fields, field by field in document order. */
  function FormErrors(fields: seq<FormField>): seq<string> {
    ConcatMap(fields, FieldErrors)
  }

  /**
   * The callback `validateForm` runs on one field: the messages it pushes
   * and whether the field is left marked `is-invalid`.
   */
  method CheckField(field: FormField) returns (pushed: seq<string>, mark: bool)
    ensures pushed == FieldErrors(field)
    ensures mark <==> pushed != []
  {
    if Trim(field.value) == "" {
      pushed := [Caption(field) + " is required"];
      mark := true;
    } else {
      pushed := [];
      mark := false;
      if field.isEmail && !IsValidEmail(field.value) {
        pushed := [InvalidEmailMessage];
        mark := true;
      }
    }
  }

  /**
   * `validateForm` as written: one pass over the required fields that
   * pushes at most one message per field and leaves the `is-invalid` mark
   * on exactly the fields that produced one.
   */
  method ValidateForm(fields: seq<FormField>) returns (errors: seq<string>, invalid: seq<bool>)
    ensures errors == FormErrors(fields)
    ensures |invalid| == |fields|
    ensures forall k :: 0 <= k < |fields| ==> (invalid[k] <==> FieldErrors(fields[k]) != [])
  {
    errors := [];
    invalid := [];
    for i := 0 to |fields|
      invariant errors == FormErrors(fields[..i])
      invariant |invalid| == i
      invariant forall k :: 0 <= k < i ==> (invalid[k] <==> FieldErrors(fields[k]) != [])
    {
      var pushed, mark := CheckField(fields[i]);
      ConcatMapStep(fields, i, FieldErrors);
      errors := errors + pushed;
      MarkStep(invalid, fields, i, mark);
      invalid := invalid + [mark];
    }
    assert fields[..|fields|] == fields;
  }

  /** Marking one more field keeps the marks in step with the fields' errors. */
  lemma MarkStep(marks: seq<bool>, fields: seq<FormField>, i: nat, mark: bool)
    requires |marks| == i < |fields|
    requires forall k :: 0 <= k < i ==> (marks[k] <==> FieldErrors(fields[k]) != [])
    requires mark <==> FieldErrors(fields[i]) != []
    ensures forall k :: 0 <= k < i + 1 ==> ((marks + [mark])[k] <==> FieldErrors(fields[k]) != [])
  {
    forall k | 0 <= k < i + 1 ensures (marks + [mark])[k] <==> FieldErrors(fields[k]) != [] {
      if k < i {
        assert (marks + [mark])[k] == marks[k];
      }
    }
  }

  /**
   * At most one error per field; errors of consecutive groups of fields
   * come group by group; none at all exactly when every field passes.
   */
  lemma FormErrorsPerField(fields: seq<FormField>, more: seq<FormField>)
    ensures |FormErrors(fields)| <= |fields|
    ensures FormErrors(fields + more) == FormErrors(fields) + FormErrors(more)
    ensures FormErrors(fields) == [] <==> forall k :: 0 <= k < |fields| ==> FieldErrors(fields[k]) == []
  {
    ConcatMapAtMostOne(fields, FieldErrors);
    ConcatMapAppend(fields, more, FieldErrors);
    ConcatMapEmpty(fields, FieldErrors);
  }

  /**
   * A field of nothing but whitespace yields "<caption> is required";
   * a non-blank e-mail field the pattern rejects yields the e-mail message;
   * an e-mail value padded with spaces is rejected although it is not blank.
   */
  lemma FieldVerdicts(f: FormField)
    ensures AllSpace(f.value) ==> FieldErrors(f) == [Caption(f) + " is required"]
    ensures !AllSpace(f.value) && f.isEmail && !MatchesAddressPattern(f.value) ==> FieldErrors(f) == [InvalidEmailMessage]
    ensures !AllSpace(f.value) && f.isEmail && !NoSpace(f.value) ==> FieldErrors(f) == [InvalidEmailMessage]
  {
    BlankIffAllSpace(f.value);
    ValidEmailMatchesPattern(f.value);
    if !NoSpace(f.value) && IsValidEmail(f.value) {
      ValidEmailShape(f.value);
    }
  }
}
