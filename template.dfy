/**
 * The résumé builder's template engine: a variable pass over `{{path}}`
 * tokens, then `{{#if path}}…{{/if}}` blocks, then `{{#each path}}…{{/each}}`
 * blocks, over a JSON-like data tree.  Each pass is a global regular
 * expression replacement, modelled as a left-to-right scan that takes the
 * leftmost match and continues after it.
 *
 * A conditional block renders its content with the whole engine again, and
 * the data can put new blocks into the text, so rendering can recurse
 * without end; the `fuel` parameter is the call depth the JavaScript stack
 * allows, and running out of it is the engine's `RangeError`.
 */
module TemplateEngine {
  import opened Outcomes
  import opened Strings
  import JsRuntime

  /** A JavaScript value as the form data can hold it. */
  datatype Json =
    | JUndefined
    | JNull
    | JBool(b: bool)
    | JNum(n: int)
    | JStr(s: string)
    | JList(items: seq<Json>)
    | JObject(fields: seq<(string, Json)>)

  datatype JsError = StackOverflow | TypeError

  /** The value of a replacement: the text, or the exception it raised. */
  datatype Rendered = Ok(text: string) | Thrown(error: JsError)

  predicate IsNullish(v: Json) { v.JUndefined? || v.JNull? }

  /** ToBoolean. */
  predicate Truthy(v: Json) {
    match v
    case JUndefined => false
    case JNull => false
    case JBool(b) => b
    case JNum(n) => n != 0
    case JStr(s) => s != ""
    case JList(_) => true
    case JObject(_) => true
  }

  /** ToString. */
  function ToJsString(v: Json): string
    decreases v
  {
    match v
    case JUndefined => "undefined"
    case JNull => "null"
    case JBool(b) => if b then "true" else "false"
    case JNum(n) => IntToString(n)
    case JStr(s) => s
    case JList(items) => JoinElements(items)
    case JObject(_) => "[object Object]"
  }

  /** `Array.prototype.join(",")`: null and undefined elements print as "". */
  function JoinElements(items: seq<Json>): string
    decreases items
  {
    if |items| == 0 then ""
    else
      var first := if IsNullish(items[0]) then "" else ToJsString(items[0]);
      if |items| == 1 then first else first + "," + JoinElements(items[1..])
  }

  /** No field after index `i` has the key. */
  predicate LastWithKey(fields: seq<(string, Json)>, key: string, i: nat) {
    forall j :: i < j < |fields| ==> fields[j].0 != key
  }

  /**
   * Property lookup on an object: the last field with that key, since a
   * later assignment (or a later duplicate key in `JSON.parse`) overwrites
   * an earlier one.
   */
  function Lookup(fields: seq<(string, Json)>, key: string): (v: Json)
    ensures v != JUndefined ==> exists i :: 0 <= i < |fields| && fields[i].0 == key && fields[i].1 == v
    ensures (forall i :: 0 <= i < |fields| ==> fields[i].0 != key) ==> v == JUndefined
    ensures forall i :: 0 <= i < |fields| && fields[i].0 == key && LastWithKey(fields, key, i) ==> v == fields[i].1
    decreases |fields|
  {
    if |fields| == 0 then JUndefined
    else if fields[|fields| - 1].0 == key then fields[|fields| - 1].1
    else Lookup(fields[..|fields| - 1], key)
  }

  /** `o[key]` on a value that is neither null nor undefined. */
  function Get(o: Json, key: string): Json {
    match o
    case JObject(fields) => Lookup(fields, key)
    case JList(items) =>
      if key == "length" then JNum(|items|)
      else if IsCanonicalIndex(key) && ParseNat(key) < |items| then items[ParseNat(key)]
      else JUndefined
    case JStr(s) =>
      if key == "length" then JNum(|s|)
      else if IsCanonicalIndex(key) && ParseNat(key) < |s| then JStr([s[ParseNat(key)]])
      else JUndefined
    case _ => JUndefined
  }

  /** `keys.reduce((o, k) => o && o[k], obj)`. */
  function Walk(o: Json, keys: seq<string>): Json
    decreases |keys|
  {
    if |keys| == 0 then o
    else Walk(if Truthy(o) then Get(o, keys[0]) else o, keys[1..])
  }

  /** `getNestedValue`: the dotted path walked from the data root. */
  function GetNestedValue(data: Json, path: string): Json {
    Walk(data, Split(path, '.'))
  }

  /** Once a falsy value is reached it is the result. */
  lemma {:induction false} WalkFalsy(o: Json, keys: seq<string>)
    requires !Truthy(o)
    ensures Walk(o, keys) == o
    decreases |keys|
  {
    if |keys| > 0 {
      WalkFalsy(o, keys[1..]);
    }
  }

  /** Walking a path is walking its first part, then the rest. */
  lemma {:induction false} WalkSplit(o: Json, keys: seq<string>, i: nat)
    requires i <= |keys|
    ensures Walk(o, keys) == Walk(Walk(o, keys[..i]), keys[i..])
    decreases i
  {
    if i > 0 {
      var next := if Truthy(o) then Get(o, keys[0]) else o;
      WalkSplit(next, keys[1..], i - 1);
      assert keys[1..][..i - 1] == keys[..i][1..];
      assert keys[1..][i - 1..] == keys[i..];
    }
  }

  /** The walk stops at the first missing (or otherwise falsy) link. */
  lemma WalkStops(o: Json, keys: seq<string>, i: nat)
    requires i <= |keys| && !Truthy(Walk(o, keys[..i]))
    ensures Walk(o, keys) == Walk(o, keys[..i])
  {
    WalkSplit(o, keys, i);
    WalkFalsy(Walk(o, keys[..i]), keys[i..]);
  }

  /** A one-key path looks the key up in the data. */
  lemma GetNestedValueSingleKey(data: Json, key: string)
    requires '.' !in key && Truthy(data)
    ensures GetNestedValue(data, key) == Get(data, key)
  {
    SplitWithoutSeparator(key, '.');
    assert [key][1..] == [];
    assert Walk(data, [key]) == Walk(Get(data, key), []);
  }

  // ------------------------------------------------------------ variable pass

  predicate IsBrace(c: char) { c == '{' || c == '}' }

  /** First index at or after `j` that holds a brace, or |s|. */
  function BraceFreeEnd(s: string, j: nat): (e: nat)
    requires j <= |s|
    ensures j <= e <= |s|
    ensures e < |s| ==> IsBrace(s[e])
    decreases |s| - j
  {
    if j < |s| && !IsBrace(s[j]) then BraceFreeEnd(s, j + 1) else j
  }

  /** Every character from `j` up to the end of the run is brace-free. */
  lemma {:induction false} BraceFreeRun(s: string, j: nat)
    requires j <= |s|
    ensures forall k :: j <= k < BraceFreeEnd(s, j) ==> !IsBrace(s[k])
    decreases |s| - j
  {
    if j < |s| && !IsBrace(s[j]) {
      BraceFreeRun(s, j + 1);
    }
  }

  /**
   * `\{\{([^{}]+)\}\}` matched at the start of `s`: the index of the closing
   * braces.  `[^{}]+` cannot give back characters usefully, so the match
   * exists exactly when the brace-free run after `{{` is non-empty and is
   * followed by `}}`.
   */
  function VarTokenAt(s: string): (r: Option<nat>)
    ensures r.Some? ==> 2 < r.value && r.value + 2 <= |s| && s[0] == '{' && s[1] == '{'
    ensures r.Some? ==> s[r.value] == '}' && s[r.value + 1] == '}'
  {
    if |s| >= 2 && s[0] == '{' && s[1] == '{' then
      var j := BraceFreeEnd(s, 2);
      if j > 2 && j + 1 < |s| && s[j] == '}' && s[j + 1] == '}' then Some(j) else None
    else None
  }

  /** The replacement for a resolved value: "" for undefined and null, else its string. */
  function Render(v: Json): (r: string)
    ensures IsNullish(v) ==> r == ""
  {
    if IsNullish(v) then "" else ToJsString(v)
  }

  /**
   * The scan of the variable pass: every `{{path}}` token is replaced by
   * `resolve(path)`, everything else is copied.
   */
  function ReplaceTokens(s: string, resolve: string -> string): string
    decreases |s|
  {
    if |s| == 0 then ""
    else
      match VarTokenAt(s)
      case Some(j) => resolve(s[2..j]) + ReplaceTokens(s[j + 2..], resolve)
      case None => [s[0]] + ReplaceTokens(s[1..], resolve)
  }

  /** How the variable pass resolves a captured path against the data. */
  function Resolver(data: Json): string -> string {
    (path: string) => ResolvePath(data, path)
  }

  /** The replacement for a captured path: its trimmed value, rendered. */
  function ResolvePath(data: Json, path: string): string {
    Render(GetNestedValue(data, JsRuntime.Trim(path)))
  }

  /** The variable pass of `processTemplate`. */
  function SubstituteVariables(s: string, data: Json): string {
    ReplaceTokens(s, Resolver(data))
  }

  /** `{{path}}` with a non-empty path: the first brace after `{{` opens the closing `}}`. */
  predicate IsVarToken(tok: string) {
    |tok| >= 5 && tok[0] == '{' && tok[1] == '{' && tok[|tok| - 2] == '}' && tok[|tok| - 1] == '}'
    && BraceFreeEnd(tok, 2) == |tok| - 2
  }

  /** Text without an opening brace passes through unchanged. */
  lemma {:induction false} ReplaceTokensBraceFree(s: string, f: string -> string)
    requires '{' !in s
    ensures ReplaceTokens(s, f) == s
    decreases |s|
  {
    if |s| > 0 {
      ReplaceTokensBraceFree(s[1..], f);
    }
  }

  /** The brace-free run is not changed by text after it that starts with a brace. */
  lemma {:induction false} BraceFreeEndAppend(u: string, r: string, j: nat)
    requires j <= |u| && |r| > 0 && IsBrace(r[0])
    ensures BraceFreeEnd(u + r, j) == BraceFreeEnd(u, j)
    decreases |u| - j
  {
    if j < |u| && !IsBrace(u[j]) {
      BraceFreeEndAppend(u, r, j + 1);
    } else if j == |u| {
      assert (u + r)[j] == r[0];
    }
  }

  /** A brace found inside `u` is found in `u + r` too. */
  lemma {:induction false} BraceFreeEndFound(u: string, r: string, j: nat)
    requires j <= |u| && BraceFreeEnd(u, j) < |u|
    ensures BraceFreeEnd(u + r, j) == BraceFreeEnd(u, j)
    decreases |u| - j
  {
    assert (u + r)[j] == u[j];
    if !IsBrace(u[j]) {
      BraceFreeEndFound(u, r, j + 1);
    }
  }

  /** A token match that starts in `u` ends in `u` when `{{` follows it. */
  lemma VarTokenBefore(u: string, r: string)
    requires |u| > 0 && |r| >= 2 && r[0] == '{' && r[1] == '{'
    ensures VarTokenAt(u + r) == VarTokenAt(u)
  {
    var s := u + r;
    if |u| == 1 {
      assert s[1] == '{' && s[2] == '{';
    } else {
      BraceFreeEndAppend(u, r, 2);
      var j := BraceFreeEnd(u, 2);
      if j == |u| {
        assert s[j] == '{';
      } else if j + 1 == |u| {
        assert s[j + 1] == '{';
      } else {
        assert s[j] == u[j] && s[j + 1] == u[j + 1];
      }
      assert s[0] == u[0] && s[1] == u[1];
    }
  }

  /** A token at the very start is matched in full. */
  lemma VarTokenFirst(tok: string, w: string)
    requires IsVarToken(tok)
    ensures VarTokenAt(tok + w) == Some(|tok| - 2)
  {
    BraceFreeEndFound(tok, w, 2);
    assert (tok + w)[..2] == tok[..2];
    assert (tok + w)[|tok| - 2] == '}' && (tok + w)[|tok| - 1] == '}';
  }

  /** A token at the start is replaced, and the scan continues after it. */
  lemma ReplaceTokenFirst(tok: string, w: string, f: string -> string)
    requires IsVarToken(tok)
    ensures ReplaceTokens(tok + w, f)
         == f(tok[2..|tok| - 2]) + ReplaceTokens(w, f)
  {
    var s := tok + w;
    VarTokenFirst(tok, w);
    assert s[2..|tok| - 2] == tok[2..|tok| - 2];
    assert s[|tok|..] == w;
  }

  /** One step of the scan over `u + r` when a token matches at the start of `u`. */
  lemma ReplaceStepToken(u: string, r: string, j: nat, f: string -> string)
    requires VarTokenAt(u) == Some(j) && VarTokenAt(u + r) == Some(j)
    ensures var y := f(u[2..j]);
      ReplaceTokens(u + r, f) == y + ReplaceTokens(u[j + 2..] + r, f)
      && ReplaceTokens(u, f) == y + ReplaceTokens(u[j + 2..], f)
  {
    var s := u + r;
    assert s[2..j] == u[2..j];
    assert s[j + 2..] == u[j + 2..] + r;
  }

  /** One step of the scan over `u + r` when no token matches at the start of `u`. */
  lemma ReplaceStepChar(u: string, r: string, f: string -> string)
    requires |u| > 0 && VarTokenAt(u).None? && VarTokenAt(u + r).None?
    ensures ReplaceTokens(u + r, f) == [u[0]] + ReplaceTokens(u[1..] + r, f)
    ensures ReplaceTokens(u, f) == [u[0]] + ReplaceTokens(u[1..], f)
  {
    var s := u + r;
    assert s[0] == u[0];
    assert s[1..] == u[1..] + r;
  }

  /** No match reaches across a `{{`: the text before it is processed on its own. */
  lemma {:induction false} ReplaceTokensSplit(u: string, r: string, f: string -> string)
    requires |r| >= 2 && r[0] == '{' && r[1] == '{'
    ensures ReplaceTokens(u + r, f) == ReplaceTokens(u, f) + ReplaceTokens(r, f)
    decreases |u|, 1
  {
    if |u| == 0 {
      assert u + r == r;
      assert ReplaceTokens(u, f) == "";
      EmptyPrefix(ReplaceTokens(r, f));
    } else {
      VarTokenBefore(u, r);
      if VarTokenAt(u).Some? {
        ReplaceSplitToken(u, r, f);
      } else {
        ReplaceSplitChar(u, r, f);
      }
    }
  }

  /** ReplaceTokensSplit when a token matches at the start of `u`. */
  lemma {:induction false} ReplaceSplitToken(u: string, r: string, f: string -> string)
    requires |r| >= 2 && r[0] == '{' && r[1] == '{'
    requires VarTokenAt(u).Some? && VarTokenAt(u + r) == VarTokenAt(u)
    ensures ReplaceTokens(u + r, f) == ReplaceTokens(u, f) + ReplaceTokens(r, f)
    decreases |u|, 0
  {
    var j := VarTokenAt(u).value;
    ReplaceStepToken(u, r, j, f);
    ReplaceTokensSplit(u[j + 2..], r, f);
    var y := f(u[2..j]);
    var a := ReplaceTokens(u[j + 2..], f);
    var tail := ReplaceTokens(r, f);
    AppendRegroup(y, a, tail);
  }

  /** ReplaceTokensSplit when no token matches at the start of `u`. */
  lemma {:induction false} ReplaceSplitChar(u: string, r: string, f: string -> string)
    requires |r| >= 2 && r[0] == '{' && r[1] == '{'
    requires |u| > 0 && VarTokenAt(u).None? && VarTokenAt(u + r).None?
    ensures ReplaceTokens(u + r, f) == ReplaceTokens(u, f) + ReplaceTokens(r, f)
    decreases |u|, 0
  {
    ReplaceStepChar(u, r, f);
    ReplaceTokensSplit(u[1..], r, f);
    var a := ReplaceTokens(u[1..], f);
    var tail := ReplaceTokens(r, f);
    AppendRegroup([u[0]], a, tail);
  }

  /** Text in front of a token is processed on its own. */
  lemma ReplaceBeforeToken(u: string, tok: string, w: string, f: string -> string)
    requires IsVarToken(tok)
    ensures ReplaceTokens(u + tok + w, f) == ReplaceTokens(u, f) + ReplaceTokens(tok + w, f)
  {
    var r := tok + w;
    assert u + tok + w == u + r;
    ReplaceTokensSplit(u, r, f);
  }

  /**
   * Wherever it stands, a `{{path}}` token is replaced by the resolution of
   * its path, and the text on either side is processed on its own: no match
   * of the scan can reach into or across the token.
   */
  lemma ReplaceTokensToken(u: string, tok: string, w: string, f: string -> string)
    requires IsVarToken(tok)
    ensures ReplaceTokens(u + tok + w, f)
         == ReplaceTokens(u, f)
          + f(tok[2..|tok| - 2])
          + ReplaceTokens(w, f)
  {
    ReplaceBeforeToken(u, tok, w, f);
    ReplaceTokenFirst(tok, w, f);
  }

  /** Text without an opening brace passes through the variable pass unchanged. */
  lemma SubstituteBraceFree(s: string, data: Json)
    requires '{' !in s
    ensures SubstituteVariables(s, data) == s
  {
    ReplaceTokensBraceFree(s, Resolver(data));
  }

  /**
   * Wherever it stands, a `{{path}}` token is replaced by the rendering of
   * the trimmed path's value ("" for undefined and null), and the text on
   * either side is processed on its own.
   */
  lemma SubstituteToken(u: string, tok: string, w: string, data: Json)
    requires IsVarToken(tok)
    ensures SubstituteVariables(u + tok + w, data)
         == SubstituteVariables(u, data)
          + ResolvePath(data, tok[2..|tok| - 2])
          + SubstituteVariables(w, data)
  {
    ReplaceTokensToken(u, tok, w, Resolver(data));
  }

  // ------------------------------------------------------------------ blocks

  const IfOpen: string := "{{#if"
  const IfClose: string := "{{/if}}"
  const EachOpen: string := "{{#each"
  const EachClose: string := "{{/each}}"

  /** A matched block: the trimmed path, the raw content and the index just past the closing tag. */
  datatype Block = Block(path: string, content: string, end: nat)

  /** First index at or after `j` that holds '}', or |s|. */
  function CloseBraceFrom(s: string, j: nat): (e: nat)
    requires j <= |s|
    ensures j <= e <= |s|
    ensures e < |s| ==> s[e] == '}'
    decreases |s| - j
  {
    if j < |s| && s[j] != '}' then CloseBraceFrom(s, j + 1) else j
  }

  /** No '}' comes before the one CloseBraceFrom finds. */
  lemma {:induction false} CloseBraceFirst(s: string, j: nat)
    requires j <= |s|
    ensures forall k :: j <= k < CloseBraceFrom(s, j) ==> s[k] != '}'
    decreases |s| - j
  {
    if j < |s| && s[j] != '}' {
      CloseBraceFirst(s, j + 1);
    }
  }

  /** First index at or after `j` where `pat` occurs. */
  function FindFrom(s: string, pat: string, j: nat): (r: Option<nat>)
    requires j <= |s|
    ensures r.Some? ==> j <= r.value && OccursAt(s, pat, r.value)
    decreases |s| - j
  {
    if OccursAt(s, pat, j) then Some(j)
    else if j == |s| then None
    else FindFrom(s, pat, j + 1)
  }

  /** FindFrom finds the first occurrence, and misses none. */
  lemma {:induction false} FindFromFirst(s: string, pat: string, j: nat)
    requires j <= |s|
    ensures var r := FindFrom(s, pat, j);
      r.Some? ==> forall k :: j <= k < r.value ==> !OccursAt(s, pat, k)
    ensures FindFrom(s, pat, j).None? ==> forall k :: j <= k <= |s| ==> !OccursAt(s, pat, k)
    decreases |s| - j
  {
    if !OccursAt(s, pat, j) && j < |s| {
      FindFromFirst(s, pat, j + 1);
    }
  }

  /**
   * `\{\{#kw\s+([^}]+)\}\}([\s\S]*?)\{\{\/kw\}\}` matched at the start of `s`,
   * where `open` is "{{#kw" and `close` is "{{/kw}}".  The header runs to the
   * first '}', which must be doubled; it needs a leading white-space
   * character and at least one more character.  The captured path is
   * trimmed, so the split between `\s+` and `[^}]+` does not
   * matter.  The lazy content ends at the first closing tag.
   */
  function BlockAt(s: string, open: string, close: string): (r: Option<Block>)
    requires |close| > 0
    ensures r.Some? ==> IsPrefix(open, s) && |open| + 4 <= r.value.end <= |s|
    ensures r.Some? ==> |close| <= r.value.end && OccursAt(s, close, r.value.end - |close|)
  {
    if IsPrefix(open, s) then
      var j := CloseBraceFrom(s, |open|);
      if j - |open| >= 2 && JsRuntime.IsJsSpace(s[|open|]) && j + 1 < |s| && s[j + 1] == '}' then
        match FindFrom(s, close, j + 2)
        case Some(q) => Some(Block(JsRuntime.Trim(s[|open|..j]), s[j + 2..q], q + |close|))
        case None => None
      else None
    else None
  }

  /** Where a block's content starts and ends: after the header's "}}", up to the first closing tag. */
  lemma BlockAtBounds(s: string, open: string, close: string) returns (j: nat, q: nat)
    requires |close| > 0 && BlockAt(s, open, close).Some?
    ensures j + 2 <= q <= |s| && FindFrom(s, close, j + 2) == Some(q)
    ensures BlockAt(s, open, close).value.content == s[j + 2..q]
  {
    var b := BlockAt(s, open, close).value;
    assert IsPrefix(open, s);
    j := CloseBraceFrom(s, |open|);
    assert j + 1 < |s|;
    var found := FindFrom(s, close, j + 2);
    assert found.Some?;
    q := found.value;
    assert b == Block(JsRuntime.Trim(s[|open|..j]), s[j + 2..q], q + |close|);
  }

  /** The text between `from` and the first occurrence of `pat` after it does not hold `pat`. */
  lemma BeforeFirstUnclosed(s: string, pat: string, from: nat, q: nat, t: string)
    requires |pat| > 0 && from <= q <= |s| && FindFrom(s, pat, from) == Some(q) && t == s[from..q]
    ensures !Contains(t, pat)
  {
    FindFromFirst(s, pat, from);
    forall m: nat | OccursAt(t, pat, m) ensures false {
      OccursInSlice(s, pat, from, q, m);
    }
    NoOccurrenceNotContains(t, pat);
  }

  /** A block's content never holds its closing tag: blocks do not nest. */
  lemma BlockContentUnclosed(s: string, open: string, close: string)
    requires |close| > 0 && BlockAt(s, open, close).Some?
    ensures !Contains(BlockAt(s, open, close).value.content, close)
  {
    var j, q := BlockAtBounds(s, open, close);
    BeforeFirstUnclosed(s, close, j + 2, q, s[j + 2..q]);
  }

  /** No block starts where the text does not start with the block's opening brace. */
  lemma NoBlockHere(s: string, open: string, close: string)
    requires |close| > 0 && |s| > 0 && |open| > 0 && s[0] != open[0]
    ensures BlockAt(s, open, close).None?
  {
  }

  /** Sequencing of two replacements: the first exception wins. */
  function Then(a: Rendered, b: Rendered): (r: Rendered)
    ensures a.Ok? && b.Ok? ==> r == Ok(a.text + b.text)
    ensures a.Thrown? ==> r == a
    ensures a.Ok? && b.Thrown? ==> r == b
  {
    if a.Thrown? then a else if b.Thrown? then b else Ok(a.text + b.text)
  }

  /** The condition of `processConditionals`: truthy, and not an empty array. */
  predicate Shown(v: Json) {
    Truthy(v) && (v.JList? ==> |v.items| > 0)
  }

  /** Which of the two block passes is running, with what it needs. */
  datatype Pass = Conditionals(data: Json, fuel: nat) | Loops(data: Json)

  function Open(pass: Pass): string {
    if pass.Conditionals? then IfOpen else EachOpen
  }

  function Close(pass: Pass): (r: string)
    ensures |r| > 0
  {
    if pass.Conditionals? then IfClose else EachClose
  }

  /** The call depth left to the pass. */
  function Depth(pass: Pass): nat {
    if pass.Conditionals? then pass.fuel else 0
  }

  /**
   * One global replacement of blocks: each block found by the left-to-right
   * scan is replaced by its rendering, other text is copied, and the first
   * exception ends the pass.
   */
  function ScanBlocks(s: string, pass: Pass): Rendered
    decreases Depth(pass), 1, |s|
  {
    if |s| == 0 then Ok("")
    else
      match BlockAt(s, Open(pass), Close(pass))
      case Some(b) => Then(RenderBlock(b, pass), ScanBlocks(s[b.end..], pass))
      case None => Then(Ok([s[0]]), ScanBlocks(s[1..], pass))
  }

  /**
   * The replacement of one block.  A conditional block is replaced by its
   * content rendered with the whole engine, or by "" when the value is falsy
   * or an empty array; a loop block by one instantiation of the content per
   * array item, or by "" when the value is not a non-empty array.
   */
  function RenderBlock(b: Block, pass: Pass): Rendered
    decreases Depth(pass), 0, 0
  {
    var v := GetNestedValue(pass.data, b.path);
    match pass
    case Conditionals(data, fuel) =>
      if !Shown(v) then Ok("")
      else if fuel == 0 then Thrown(StackOverflow)
      else ProcessTemplate(b.content, data, fuel - 1)
    case Loops(_) =>
      if v.JList? && |v.items| > 0 then InstantiateAll(b.content, v.items) else Ok("")
  }

  /** `processTemplate`: variables, then conditional blocks, then loops. */
  function ProcessTemplate(t: string, data: Json, fuel: nat): Rendered
    decreases fuel, 4, 0
  {
    ProcessBlocks(SubstituteVariables(t, data), data, fuel)
  }

  /** The two block passes of `processTemplate`, on the text after the variable pass. */
  function ProcessBlocks(s: string, data: Json, fuel: nat): Rendered
    decreases fuel, 3, 0
  {
    LoopsAfter(ScanBlocks(s, Conditionals(data, fuel)), data)
  }

  /** The loop pass, run on the text the conditional pass produced unless it threw. */
  function LoopsAfter(r: Rendered, data: Json): Rendered
    decreases 0, 2, 0
  {
    match r
    case Ok(c) => ScanBlocks(c, Loops(data))
    case Thrown(e) => Thrown(e)
  }

  /** `processConditionals`. */
  function ProcessConditionals(s: string, data: Json, fuel: nat): Rendered {
    ScanBlocks(s, Conditionals(data, fuel))
  }

  /** `processLoops`. */
  function ProcessLoops(s: string, data: Json): Rendered {
    ScanBlocks(s, Loops(data))
  }

  /** `array.map(...).join('')`. */
  function InstantiateAll(content: string, items: seq<Json>): Rendered
    decreases |items|
  {
    if |items| == 0 then Ok("")
    else Then(Instantiate(content, items[0]), InstantiateAll(content, items[1..]))
  }

  /** `Object.keys(item)` (integer-like keys are not reordered). */
  function ObjectKeys(item: Json): seq<string> {
    match item
    case JObject(fields) => Dedup(seq(|fields|, i requires 0 <= i < |fields| => fields[i].0))
    case JList(items) => seq(|items|, i requires 0 <= i < |items| => NatToString(i))
    case _ => []
  }

  /** The replacement for `{{key}}` inside a loop: `item[key] || ''`. */
  function KeyValue(item: Json, key: string): string {
    var v := Get(item, key);
    if Truthy(v) then ToJsString(v) else ""
  }

  /** The text after replacing `{{k}}` for each key of `keys`, in order. */
  function ReplaceKeys(content: string, item: Json, keys: seq<string>): string
    decreases |keys|
  {
    if |keys| == 0 then content
    else
      var key := keys[|keys| - 1];
      ReplaceAll(ReplaceKeys(content, item, keys[..|keys| - 1]), "{{" + key + "}}", KeyValue(item, key))
  }

  /** The conditional blocks inside a loop: raw content when `item[path]` is truthy. */
  function ItemConditionals(s: string, item: Json): string
    decreases |s|
  {
    if |s| == 0 then ""
    else
      match BlockAt(s, IfOpen, IfClose)
      case Some(b) => (if Truthy(Get(item, b.path)) then b.content else "") + ItemConditionals(s[b.end..], item)
      case None => [s[0]] + ItemConditionals(s[1..], item)
  }

  /**
   * One item's copy of the loop content.  `typeof item === 'object'` holds
   * for arrays, objects and null, and `Object.keys(null)` throws.
   */
  function Instantiate(content: string, item: Json): Rendered {
    var c := ReplaceAll(content, "{{this}}", ToJsString(item));
    match item
    case JNull => Thrown(TypeError)
    case JObject(_) => Ok(ItemConditionals(ReplaceKeys(c, item, ObjectKeys(item)), item))
    case JList(_) => Ok(ItemConditionals(ReplaceKeys(c, item, ObjectKeys(item)), item))
    case _ => Ok(c)
  }

  /** The loop body of `processLoops` for one item, updating the item's text key by key. */
  method InstantiateItem(content: string, item: Json) returns (r: Rendered)
    ensures r == Instantiate(content, item)
  {
    var itemContent := ReplaceAll(content, "{{this}}", ToJsString(item));
    if item.JNull? {
      return Thrown(TypeError);
    }
    if item.JObject? || item.JList? {
      var keys := ObjectKeys(item);
      var base := itemContent;
      for i := 0 to |keys|
        invariant itemContent == ReplaceKeys(base, item, keys[..i])
      {
        assert keys[..i + 1][..i] == keys[..i];
        itemContent := ReplaceAll(itemContent, "{{" + keys[i] + "}}", KeyValue(item, keys[i]));
      }
      assert keys[..|keys|] == keys;
      itemContent := ItemConditionals(itemContent, item);
    }
    return Ok(itemContent);
  }

  // ---------------------------------------------------------- block properties

  /** An empty successful text in front changes nothing. */
  lemma ThenEmpty(x: Rendered)
    ensures Then(Ok(""), x) == x
  {
    if x.Ok? {
      assert "" + x.text == x.text;
    }
  }

  /** Two successful texts in front are their concatenation in front. */
  lemma ThenOkOk(a: string, b: string, x: Rendered)
    ensures Then(Ok(a), Then(Ok(b), x)) == Then(Ok(a + b), x)
  {
    if x.Ok? {
      assert a + (b + x.text) == (a + b) + x.text;
    }
  }

  /** A character that cannot open a block is copied. */
  lemma ScanStep(s: string, pass: Pass)
    requires |s| > 0 && s[0] != '{'
    ensures ScanBlocks(s, pass) == Then(Ok([s[0]]), ScanBlocks(s[1..], pass))
  {
    NoBlockHere(s, Open(pass), Close(pass));
  }

  /** Text that cannot open a block is copied, and the scan resumes after it. */
  lemma {:induction false} ScanPrefix(u: string, s: string, pass: Pass)
    requires '{' !in u
    ensures ScanBlocks(u + s, pass) == Then(Ok(u), ScanBlocks(s, pass))
    decreases |u|
  {
    if |u| > 0 {
      var us := u + s;
      assert us[0] == u[0];
      ScanStep(us, pass);
      assert us[1..] == u[1..] + s;
      ScanPrefix(u[1..], s, pass);
      ThenOkOk([u[0]], u[1..], ScanBlocks(s, pass));
      assert [u[0]] + u[1..] == u;
    } else {
      assert u + s == s;
      ThenEmpty(ScanBlocks(s, pass));
    }
  }

  /** A block at the start of the text is replaced by its rendering, and the scan resumes after it. */
  lemma ScanBlock(s: string, pass: Pass)
    requires BlockAt(s, Open(pass), Close(pass)).Some?
    ensures var b := BlockAt(s, Open(pass), Close(pass)).value;
      ScanBlocks(s, pass) == Then(RenderBlock(b, pass), ScanBlocks(s[b.end..], pass))
  {
  }

  /** A block whose rendering is empty disappears without a trace. */
  lemma ScanEmptyBlock(s: string, pass: Pass)
    requires BlockAt(s, Open(pass), Close(pass)).Some?
    requires RenderBlock(BlockAt(s, Open(pass), Close(pass)).value, pass) == Ok("")
    ensures ScanBlocks(s, pass) == ScanBlocks(s[BlockAt(s, Open(pass), Close(pass)).value.end..], pass)
  {
    ThenEmpty(ScanBlocks(s[BlockAt(s, Open(pass), Close(pass)).value.end..], pass));
  }

  /**
   * A conditional block at the start of the text is replaced by nothing
   * when its value is falsy or an empty array, and otherwise by its content
   * rendered by the whole engine one call deeper, or a stack overflow when
   * no call depth is left.
   */
  lemma ConditionalBlock(s: string, data: Json, fuel: nat)
    requires BlockAt(s, IfOpen, IfClose).Some?
    ensures var b := BlockAt(s, IfOpen, IfClose).value;
      !Shown(GetNestedValue(data, b.path)) ==> ProcessConditionals(s, data, fuel) == ProcessConditionals(s[b.end..], data, fuel)
    ensures var b := BlockAt(s, IfOpen, IfClose).value;
      Shown(GetNestedValue(data, b.path)) && fuel > 0 ==>
        ProcessConditionals(s, data, fuel) == Then(ProcessTemplate(b.content, data, fuel - 1), ProcessConditionals(s[b.end..], data, fuel))
    ensures var b := BlockAt(s, IfOpen, IfClose).value;
      Shown(GetNestedValue(data, b.path)) && fuel == 0 ==> ProcessConditionals(s, data, fuel) == Thrown(StackOverflow)
  {
    var b := BlockAt(s, IfOpen, IfClose).value;
    if !Shown(GetNestedValue(data, b.path)) {
      HiddenBlock(s, data, fuel);
    } else {
      ShownBlock(s, data, fuel);
    }
  }

  lemma HiddenBlock(s: string, data: Json, fuel: nat)
    requires BlockAt(s, IfOpen, IfClose).Some?
    requires !Shown(GetNestedValue(data, BlockAt(s, IfOpen, IfClose).value.path))
    ensures ProcessConditionals(s, data, fuel) == ProcessConditionals(s[BlockAt(s, IfOpen, IfClose).value.end..], data, fuel)
  {
    ScanEmptyBlock(s, Conditionals(data, fuel));
  }

  lemma ShownBlock(s: string, data: Json, fuel: nat)
    requires BlockAt(s, IfOpen, IfClose).Some?
    requires Shown(GetNestedValue(data, BlockAt(s, IfOpen, IfClose).value.path))
    ensures var b := BlockAt(s, IfOpen, IfClose).value;
      ProcessConditionals(s, data, fuel)
      == Then(if fuel == 0 then Thrown(StackOverflow) else ProcessTemplate(b.content, data, fuel - 1),
              ProcessConditionals(s[b.end..], data, fuel))
  {
    var pass := Conditionals(data, fuel);
    var b := BlockAt(s, IfOpen, IfClose).value;
    ScanBlock(s, pass);
    ShownRender(b, data, fuel);
  }

  /** A shown conditional block renders as its content one call deeper, or overflows the stack. */
  lemma ShownRender(b: Block, data: Json, fuel: nat)
    requires Shown(GetNestedValue(data, b.path))
    ensures RenderBlock(b, Conditionals(data, fuel))
      == if fuel == 0 then Thrown(StackOverflow) else ProcessTemplate(b.content, data, fuel - 1)
  {
  }

  /** Text before a conditional block that has no '{' is copied. */
  lemma ConditionalsPrefix(u: string, s: string, data: Json, fuel: nat)
    requires '{' !in u
    ensures ProcessConditionals(u + s, data, fuel) == Then(Ok(u), ProcessConditionals(s, data, fuel))
  {
    ScanPrefix(u, s, Conditionals(data, fuel));
  }

  /** Text before a loop block that has no '{' is copied. */
  lemma LoopsPrefix(u: string, s: string, data: Json)
    requires '{' !in u
    ensures ProcessLoops(u + s, data) == Then(Ok(u), ProcessLoops(s, data))
  {
    ScanPrefix(u, s, Loops(data));
  }

  /** A loop over a missing, non-array or empty-array path renders as nothing. */
  lemma LoopOverNothing(s: string, data: Json)
    requires BlockAt(s, EachOpen, EachClose).Some?
    requires var list := GetNestedValue(data, BlockAt(s, EachOpen, EachClose).value.path);
      !list.JList? || |list.items| == 0
    ensures ProcessLoops(s, data) == ProcessLoops(s[BlockAt(s, EachOpen, EachClose).value.end..], data)
  {
    ScanEmptyBlock(s, Loops(data));
  }

  /** A loop over a non-empty array is replaced by the instantiations of its content. */
  lemma LoopOverList(s: string, data: Json)
    requires BlockAt(s, EachOpen, EachClose).Some?
    requires var list := GetNestedValue(data, BlockAt(s, EachOpen, EachClose).value.path);
      list.JList? && |list.items| > 0
    ensures var b := BlockAt(s, EachOpen, EachClose).value;
      ProcessLoops(s, data)
      == Then(InstantiateAll(b.content, GetNestedValue(data, b.path).items), ProcessLoops(s[b.end..], data))
  {
    ScanBlock(s, Loops(data));
  }

  /** The instantiations of a split list are the two lists' instantiations in order. */
  lemma {:induction false} InstantiateAllAppend(content: string, xs: seq<Json>, ys: seq<Json>)
    ensures InstantiateAll(content, xs + ys) == Then(InstantiateAll(content, xs), InstantiateAll(content, ys))
    decreases |xs|
  {
    if |xs| == 0 {
      assert xs + ys == ys;
      var r := InstantiateAll(content, ys);
      if r.Ok? {
        assert "" + r.text == r.text;
      }
    } else {
      assert (xs + ys)[0] == xs[0];
      assert (xs + ys)[1..] == xs[1..] + ys;
      InstantiateAllAppend(content, xs[1..], ys);
      var a, b, c := Instantiate(content, xs[0]), InstantiateAll(content, xs[1..]), InstantiateAll(content, ys);
      if a.Ok? && b.Ok? && c.Ok? {
        assert a.text + (b.text + c.text) == (a.text + b.text) + c.text;
      }
    }
  }

  /** Concatenation of the texts of a list of successful renderings. */
  function Concat(parts: seq<string>): string
    decreases |parts|
  {
    if |parts| == 0 then "" else parts[0] + Concat(parts[1..])
  }

  /** Without a null item, a loop renders each item's copy, in array order, with nothing between. */
  lemma {:induction false} InstantiateAllInOrder(content: string, items: seq<Json>)
    requires forall i :: 0 <= i < |items| ==> !items[i].JNull?
    ensures InstantiateAll(content, items)
         == Ok(Concat(seq(|items|, i requires 0 <= i < |items| => Instantiate(content, items[i]).text)))
    decreases |items|
  {
    if |items| > 0 {
      InstantiateAllInOrder(content, items[1..]);
      var parts := seq(|items|, i requires 0 <= i < |items| => Instantiate(content, items[i]).text);
      var rest := seq(|items| - 1, i requires 0 <= i < |items| - 1 => Instantiate(content, items[1..][i]).text);
      assert parts[1..] == rest;
    }
  }

  /** A null item makes the whole loop throw. */
  lemma {:induction false} NullItemThrows(content: string, items: seq<Json>, k: nat)
    requires k < |items| && items[k].JNull?
    ensures InstantiateAll(content, items).Thrown?
    decreases k
  {
    if k > 0 {
      NullItemThrows(content, items[1..], k - 1);
    }
  }

  /** A conditional block inside a loop keeps its raw content exactly when `item[path]` is truthy. */
  lemma ItemConditionalBlock(s: string, item: Json)
    requires BlockAt(s, IfOpen, IfClose).Some?
    ensures var b := BlockAt(s, IfOpen, IfClose).value;
      ItemConditionals(s, item) == (if Truthy(Get(item, b.path)) then b.content else "") + ItemConditionals(s[b.end..], item)
  {
  }

  /** Inside a loop, text before a block that has no '{' is copied. */
  lemma {:induction false} ItemConditionalsPrefix(u: string, s: string, item: Json)
    requires '{' !in u
    ensures ItemConditionals(u + s, item) == u + ItemConditionals(s, item)
    decreases |u|
  {
    if |u| > 0 {
      var us := u + s;
      assert us[0] == u[0];
      NoBlockHere(us, IfOpen, IfClose);
      assert us[1..] == u[1..] + s;
      assert ItemConditionals(us, item) == [us[0]] + ItemConditionals(us[1..], item);
      ItemConditionalsPrefix(u[1..], s, item);
      var rest := ItemConditionals(s, item);
      AppendRegroup([u[0]], u[1..], rest);
      assert [u[0]] + u[1..] == u;
    } else {
      assert u + s == s;
    }
  }

  /** Inside a loop, the conditional pass leaves text without '{' alone. */
  lemma ItemConditionalsBraceFree(s: string, item: Json)
    requires '{' !in s
    ensures ItemConditionals(s, item) == s
  {
    assert s + "" == s;
    ItemConditionalsPrefix(s, "", item);
  }

  /** The token `{{k}}` for a key `k` without braces, with no '}' after it. */
  lemma KeyTokenOthers(k: string, other: string, b: string)
    requires '{' !in k && '}' !in k && '}' !in b && other != k
    ensures !IsPrefix("{{" + other + "}}", "{{" + k + "}}" + b)
  {
    var p := "{{" + other + "}}";
    var s := "{{" + k + "}}" + b;
    if |p| <= |s| {
      var w := s[..|p|];
      if |other| < |k| {
        assert w[2 + |other|] == k[|other|] != '}' == p[2 + |other|];
      } else if |other| == |k| {
        var i :| 0 <= i < |k| && other[i] != k[i];
        assert w[2 + i] == k[i] != other[i] == p[2 + i];
      } else {
        assert w[|p| - 1] == b[|p| - 1 - (|k| + 4)] != '}' == p[|p| - 1];
      }
    }
  }

  /** The pattern of another key leaves the token `{{k}}` and the text around it alone. */
  lemma OtherKeyKept(a: string, k: string, b: string, other: string, rep: string)
    requires '{' !in a && '{' !in b && '}' !in b && '{' !in k && '}' !in k && other != k
    ensures ReplaceAll(a + "{{" + k + "}}" + b, "{{" + other + "}}", rep) == a + "{{" + k + "}}" + b
  {
    var pat := "{{" + other + "}}";
    var rest := k + "}}" + b;
    var t := "{{" + k + "}}" + b;
    assert a + "{{" + k + "}}" + b == a + t;
    ReplaceAllSkip(a, t, pat, rep);
    KeyTokenOthers(k, other, b);
    assert t[1..] == "{" + rest && t[1..][1..] == rest;
    assert !IsPrefix(pat, t[1..]) by {
      assert |pat| <= |t[1..]| ==> t[1..][..|pat|][1] == t[1..][1] != '{' == pat[1];
    }
    assert rest + "" == rest;
    ReplaceAllSkip(rest, "", pat, rep);
    assert ReplaceAll(t, pat, rep) == [t[0]] + ([t[1]] + rest);
    assert [t[0]] + ([t[1]] + rest) == t;
  }

  /**
   * `Object.keys(item).forEach(...)`: once `k` has come up the token `{{k}}`
   * holds the key's value, and until then it is left in place.
   */
  lemma {:induction false} ReplaceKeysToken(a: string, k: string, b: string, item: Json, keys: seq<string>)
    requires '{' !in a && '{' !in b && '}' !in b && '{' !in k && '}' !in k
    requires '{' !in KeyValue(item, k)
    ensures ReplaceKeys(a + "{{" + k + "}}" + b, item, keys)
      == if k in keys then a + KeyValue(item, k) + b else a + "{{" + k + "}}" + b
    decreases |keys|
  {
    if |keys| > 0 {
      var c := a + "{{" + k + "}}" + b;
      var init := keys[..|keys| - 1];
      var key := keys[|keys| - 1];
      assert keys == init + [key];
      ReplaceKeysToken(a, k, b, item, init);
      var pat := "{{" + key + "}}";
      var rep := KeyValue(item, key);
      assert ReplaceKeys(c, item, keys) == ReplaceAll(ReplaceKeys(c, item, init), pat, rep);
      if k in init {
        FilledKeyStays(a + KeyValue(item, k) + b, key, rep);
      } else if key == k {
        KeyTokenFilled(a, k, b, rep);
      } else {
        OtherKeyKept(a, k, b, key, rep);
      }
    }
  }

  /** Once filled, the text has no '{', so no later key changes it. */
  lemma FilledKeyStays(t: string, key: string, rep: string)
    requires '{' !in t
    ensures ReplaceAll(t, "{{" + key + "}}", rep) == t
  {
    NotContainsChar(t, "{{" + key + "}}", '{');
    ReplaceAllAbsent(t, "{{" + key + "}}", rep);
  }

  /** The key's own pattern replaces its token. */
  lemma KeyTokenFilled(a: string, k: string, b: string, rep: string)
    requires '{' !in a && '{' !in b
    ensures ReplaceAll(a + "{{" + k + "}}" + b, "{{" + k + "}}", rep) == a + rep + b
  {
    var pat := "{{" + k + "}}";
    assert a + "{{" + k + "}}" + b == a + pat + b;
    ReplaceAllAround(a, pat, rep, b);
    FilledKeyStays(b, k, rep);
  }

  /**
   * Inside a loop over objects, `{{key}}` for one of the item's keys becomes
   * `item[key]` when that is truthy and "" when it is falsy (`item[key] || ''`),
   * and the text around it is kept.  The key has no braces, and the value
   * none either, since the later keys and the inner conditionals are
   * matched against the value too.
   */
  lemma ItemKeyFilled(a: string, k: string, b: string, fields: seq<(string, Json)>)
    requires '{' !in a && '{' !in b && '}' !in b && '{' !in k && '}' !in k && k != "this"
    requires exists i :: 0 <= i < |fields| && fields[i].0 == k
    requires Truthy(Lookup(fields, k)) ==> '{' !in ToJsString(Lookup(fields, k))
    ensures Instantiate(a + "{{" + k + "}}" + b, JObject(fields))
      == Ok(a + (if Truthy(Lookup(fields, k)) then ToJsString(Lookup(fields, k)) else "") + b)
  {
    assert k in ObjectKeys(JObject(fields)) by {
      KeyListed(fields, k);
    }
    ItemKeyValue(a, k, b, fields);
  }

  /** The copy of `a{{k}}b` for a listed key holds the key's replacement. */
  lemma ItemKeyValue(a: string, k: string, b: string, fields: seq<(string, Json)>)
    requires '{' !in a && '{' !in b && '}' !in b && '{' !in k && '}' !in k && k != "this"
    requires k in ObjectKeys(JObject(fields)) && '{' !in KeyValue(JObject(fields), k)
    ensures Instantiate(a + "{{" + k + "}}" + b, JObject(fields)) == Ok(a + KeyValue(JObject(fields), k) + b)
  {
    var item := JObject(fields);
    var c := a + "{{" + k + "}}" + b;
    var v := KeyValue(item, k);
    var filled := ObjectInstance(c, fields, "this");
    OtherKeyKept(a, k, b, "this", ToJsString(item));
    ReplaceKeysToken(a, k, b, item, ObjectKeys(item));
    assert ReplaceKeys(c, item, ObjectKeys(item)) == a + v + b;
    ItemConditionalsBraceFree(a + v + b, item);
  }

  /** A token for a name that is not one of the item's keys stays in the item's copy. */
  lemma ItemKeyUnknown(a: string, k: string, b: string, fields: seq<(string, Json)>)
    requires '{' !in a && '{' !in b && '}' !in b && '{' !in k && '}' !in k && k != "this"
    requires |k| > 0 && k[0] != '#'
    requires forall i :: 0 <= i < |fields| ==> fields[i].0 != k
    ensures Instantiate(a + "{{" + k + "}}" + b, JObject(fields)) == Ok(a + "{{" + k + "}}" + b)
  {
    var item := JObject(fields);
    var t := "{{" + k + "}}" + b;
    var c := a + "{{" + k + "}}" + b;
    KeyUnlisted(fields, k);
    var filled := ObjectInstance(c, fields, "this");
    OtherKeyKept(a, k, b, "this", ToJsString(item));
    ReplaceKeysToken(a, k, b, item, ObjectKeys(item));
    assert ReplaceKeys(c, item, ObjectKeys(item)) == c;
    ItemTokenKept(a, k, b, item);
  }

  /** The object's keys list a name exactly when some field carries it. */
  lemma KeyListed(fields: seq<(string, Json)>, k: string)
    requires exists i :: 0 <= i < |fields| && fields[i].0 == k
    ensures k in ObjectKeys(JObject(fields))
  {
    var names := seq(|fields|, i requires 0 <= i < |fields| => fields[i].0);
    var i :| 0 <= i < |fields| && fields[i].0 == k;
    assert names[i] == k;
    DedupElements(names);
  }

  lemma KeyUnlisted(fields: seq<(string, Json)>, k: string)
    requires forall i :: 0 <= i < |fields| ==> fields[i].0 != k
    ensures k !in ObjectKeys(JObject(fields))
  {
    var names := seq(|fields|, i requires 0 <= i < |fields| => fields[i].0);
    DedupElements(names);
  }

  /** One object item's copy: `{{this}}`, then the keys, then the inner conditionals. */
  lemma ObjectInstance(c: string, fields: seq<(string, Json)>, self: string) returns (filled: string)
    requires self == "this"
    ensures var item := JObject(fields);
      filled == ReplaceAll(c, "{{" + self + "}}", ToJsString(item)) &&
      Instantiate(c, item) == Ok(ItemConditionals(ReplaceKeys(filled, item, ObjectKeys(item)), item))
  {
    filled := ReplaceAll(c, "{{" + self + "}}", ToJsString(JObject(fields)));
    assert "{{" + self + "}}" == "{{this}}";
  }

  /** The inner conditional pass keeps a token that does not open a block. */
  lemma ItemTokenKept(a: string, k: string, b: string, item: Json)
    requires '{' !in a && '{' !in b && '{' !in k && '}' !in k && |k| > 0 && k[0] != '#'
    ensures ItemConditionals(a + "{{" + k + "}}" + b, item) == a + "{{" + k + "}}" + b
  {
    var rest := k + "}}" + b;
    var t := "{" + ("{" + rest);
    assert a + "{{" + k + "}}" + b == a + t;
    ItemConditionalsPrefix(a, t, item);
    ItemTokenAtStart(rest, item);
  }

  /** A token `{{k}}` whose key does not start with '#' opens no conditional block. */
  lemma ItemTokenAtStart(rest: string, item: Json)
    requires '{' !in rest && |rest| > 0 && rest[0] != '#'
    ensures ItemConditionals("{" + ("{" + rest), item) == "{" + ("{" + rest)
  {
    var inner := "{" + rest;
    var t := "{" + inner;
    ItemBraceKept(rest, item);
    assert t[1..] == inner && t[2] == rest[0] != '#';
    assert IfOpen[2] == '#';
    NotPrefixAt(IfOpen, t, 2);
    assert BlockAt(t, IfOpen, IfClose).None?;
    assert ItemConditionals(t, item) == [t[0]] + inner == t;
  }

  /** A single '{' before brace-free text opens no conditional block. */
  lemma ItemBraceKept(rest: string, item: Json)
    requires '{' !in rest && |rest| > 0
    ensures ItemConditionals("{" + rest, item) == "{" + rest
  {
    var inner := "{" + rest;
    assert inner[1..] == rest && inner[1] == rest[0] != '{';
    assert IfOpen[1] == '{';
    NotPrefixAt(IfOpen, inner, 1);
    assert BlockAt(inner, IfOpen, IfClose).None?;
    assert ItemConditionals(inner, item) == [inner[0]] + ItemConditionals(rest, item);
    ItemConditionalsBraceFree(rest, item);
  }

  /**
   * `{{this}}` inside a loop becomes the item's string form when the item is
   * a string, a number, a boolean or undefined; for a string it is the string itself.
   */
  lemma ItemThisFilled(a: string, b: string, item: Json)
    requires '{' !in a && '{' !in b
    requires !item.JNull? && !item.JObject? && !item.JList?
    ensures Instantiate(a + "{{this}}" + b, item) == Ok(a + ToJsString(item) + b)
    ensures item.JStr? ==> Instantiate(a + "{{this}}" + b, item) == Ok(a + item.s + b)
  {
    ReplaceAllAround(a, "{{this}}", ToJsString(item), b);
    NotContainsChar(b, "{{this}}", '{');
    ReplaceAllAbsent(b, "{{this}}", ToJsString(item));
  }

  /** Text without '{' comes through both block passes unchanged. */
  lemma BlockPassesBraceFree(s: string, data: Json, fuel: nat)
    requires '{' !in s
    ensures ProcessBlocks(s, data, fuel) == Ok(s)
  {
    assert s + "" == s;
    ConditionalsPrefix(s, "", data, fuel);
    assert ProcessConditionals(s, data, fuel) == Ok(s);
    LoopsPrefix(s, "", data);
  }

  /** Text without '{' is left alone by every pass of the engine. */
  lemma BraceFreeTemplate(t: string, data: Json, fuel: nat)
    requires '{' !in t
    ensures ProcessTemplate(t, data, fuel) == Ok(t)
  {
    SubstituteBraceFree(t, data);
    BlockPassesBraceFree(t, data, fuel);
  }
  /** Two tokens that resolve to "" around brace-free text leave just the text. */
  lemma {:induction false} UnresolvedTokensReplaced(open: string, body: string, close: string, f: string -> string)
    requires IsVarToken(open) && IsVarToken(close) && '{' !in body
    requires f(open[2..|open| - 2]) == "" && f(close[2..|close| - 2]) == ""
    ensures ReplaceTokens(open + body + close, f) == body
  {
    var tail := body + close;
    var none: string := [];
    assert body + close + none == tail;
    ReplaceTokensToken(body, close, none, f);
    ReplaceTokensBraceFree(body, f);
    ReplaceTokensBraceFree(none, f);
    assert ReplaceTokens(tail, f) == body;
    var whole := open + body + close;
    assert whole == none + open + tail;
    ReplaceTokensToken(none, open, tail, f);
  }

  /** A brace-free run that stops at a brace ends exactly there. */
  lemma {:induction false} BraceFreeEndAt(s: string, j: nat, k: nat)
    requires j <= k < |s| && IsBrace(s[k])
    requires forall i :: j <= i < k ==> !IsBrace(s[i])
    ensures BraceFreeEnd(s, j) == k
    decreases k - j
  {
    if j < k {
      BraceFreeEndAt(s, j + 1, k);
    }
  }

  /** Braces around any non-empty brace-free text make a variable token of the first pass. */
  lemma MarkerIsToken(inner: string)
    requires |inner| > 0 && '{' !in inner && '}' !in inner
    ensures IsVarToken("{{" + inner + "}}")
  {
    var tok := "{{" + inner + "}}";
    forall i | 2 <= i < |tok| - 2 ensures !IsBrace(tok[i]) {
      assert tok[i] == inner[i - 2];
    }
    BraceFreeEndAt(tok, 2, |tok| - 2);
  }

  lemma IfMarkerLiterals()
    ensures "{{#if " == "{{" + "#if " && "{{/if}}" == "{{" + "/if" + "}}"
    ensures '{' !in "#if " && '}' !in "#if " && '{' !in "/if" && '}' !in "/if"
  {
  }

  lemma EachMarkerLiterals()
    ensures "{{#each " == "{{" + "#each " && "{{/each}}" == "{{" + "/each" + "}}"
    ensures '{' !in "#each " && '}' !in "#each " && '{' !in "/each" && '}' !in "/each"
  {
  }

  /**
   * A block spelled out with its markers is the two `{{...}}` tokens around
   * its content, and the opening token's inner text is brace-free.
   */
  lemma MarkerSpelling(word: string, end: string, openText: string, closeText: string, path: string, body: string)
    requires openText == "{{" + word && closeText == "{{" + end + "}}"
    requires '{' !in word && '}' !in word && '{' !in path && '}' !in path
    ensures openText + path + "}}" + body + closeText == "{{" + (word + path) + "}}" + body + ("{{" + end + "}}")
    ensures '{' !in word + path && '}' !in word + path
  {
    AppendRegroup("{{", word, path);
  }

  /**
   * The variable pass runs first and its pattern also matches the block
   * markers `{{#if path}}` and `{{/if}}`; when the data has nothing under
   * those two captured paths they are deleted, so the block's content is
   * kept whatever the value of `path`: the conditional never hides anything.
   */
  lemma ConditionalMarkersDeleted(path: string, body: string, data: Json, fuel: nat)
    requires '{' !in path && '}' !in path && '{' !in body
    requires ResolvePath(data, "#if " + path) == "" && ResolvePath(data, "/if") == ""
    ensures ProcessTemplate("{{#if " + path + "}}" + body + "{{/if}}", data, fuel) == Ok(body)
  {
    IfMarkerLiterals();
    MarkerSpelling("#if ", "/if", "{{#if ", "{{/if}}", path, body);
    MarkersDeleted("#if " + path, body, "/if", data, fuel);
  }

  /**
   * Likewise `{{#each path}}` and `{{/each}}` are deleted by the variable
   * pass, so a loop's content appears once, never once per item.
   */
  lemma LoopMarkersDeleted(path: string, body: string, data: Json, fuel: nat)
    requires '{' !in path && '}' !in path && '{' !in body
    requires ResolvePath(data, "#each " + path) == "" && ResolvePath(data, "/each") == ""
    ensures ProcessTemplate("{{#each " + path + "}}" + body + "{{/each}}", data, fuel) == Ok(body)
  {
    EachMarkerLiterals();
    MarkerSpelling("#each ", "/each", "{{#each ", "{{/each}}", path, body);
    MarkersDeleted("#each " + path, body, "/each", data, fuel);
  }

  /** Two unresolved markers around brace-free text leave just the text, after every pass. */
  lemma MarkersDeleted(first: string, body: string, last: string, data: Json, fuel: nat)
    requires |first| > 0 && '{' !in first && '}' !in first
    requires |last| > 0 && '{' !in last && '}' !in last
    requires '{' !in body
    requires ResolvePath(data, first) == "" && ResolvePath(data, last) == ""
    ensures ProcessTemplate("{{" + first + "}}" + body + ("{{" + last + "}}"), data, fuel) == Ok(body)
  {
    var open, close := "{{" + first + "}}", "{{" + last + "}}";
    MarkerIsToken(first);
    MarkerIsToken(last);
    assert open[2..|open| - 2] == first;
    assert close[2..|close| - 2] == last;
    UnresolvedTokensReplaced(open, body, close, Resolver(data));
    BlockPassesBraceFree(body, data, fuel);
  }
}
