/**
 The expression evaluator of the template runtime (`resolve`): a parser-less evaluator that finds
 parentheses, equality operators and path steps by scanning the text.

 JavaScript's own operations on values are parameters, collected in `Js`.
 */
module Expr {
  import opened Text

  /** The operations of the host language on values of type `V`. */
  datatype Js<!V> = Js(
    undef: V,
    nul: V,
    ofBool: bool -> V,
    ofNumber: string -> V,         // Number(text)
    ofString: string -> V,
    truthy: V -> bool,
    nullish: V -> bool,            // v == null
    member: (V, V) -> V,           // v[key]
    strictEq: (V, V) -> bool,      // ===
    looseEq: (V, V) -> bool)       // ==
  {
    function Get(cur: V, key: V): V {
      if nullish(cur) then undef else member(cur, key)
    }

    function Compare(op: Op, l: V, r: V): V {
      match op
      case StrictEq => ofBool(strictEq(l, r))
      case StrictNe => ofBool(!strictEq(l, r))
      case LooseEq => ofBool(looseEq(l, r))
      case LooseNe => ofBool(!looseEq(l, r))
    }
  }

  datatype Op = StrictEq | StrictNe | LooseEq | LooseNe

  datatype Option<T> = None | Some(value: T)

  // ------------------------------------------------------------------ characters and words

  predicate IsQuote(c: char) {
    c == '\'' || c == '\"'
  }

  predicate IsDigit(c: char) {
    '0' <= c <= '9'
  }

  predicate IsIdentStart(c: char) {
    'a' <= c <= 'z' || 'A' <= c <= 'Z' || c == '_' || c == '$'
  }

  predicate IsIdentPart(c: char) {
    IsIdentStart(c) || IsDigit(c)
  }

  function IdentParts(s: string): (n: nat)
    ensures n <= |s|
  {
    if s != "" && IsIdentPart(s[0]) then 1 + IdentParts(s[1..]) else 0
  }

  /** Length of the identifier the text begins with, or 0. */
  function IdentLength(s: string): (n: nat)
    ensures n <= |s|
  {
    if s != "" && IsIdentStart(s[0]) then IdentParts(s) else 0
  }

  function DigitsLength(s: string): (n: nat)
    ensures n <= |s|
    ensures forall i :: 0 <= i < n ==> IsDigit(s[i])
  {
    if s != "" && IsDigit(s[0]) then 1 + DigitsLength(s[1..]) else 0
  }

  /** An optional minus, digits, and optionally a point and more digits. */
  predicate IsNumber(s: string) {
    var u := if s != "" && s[0] == '-' then s[1..] else s;
    var n := DigitsLength(u);
    && n > 0
    && (n < |u| ==> u[n] == '.' && n + 1 < |u| && n + 1 + DigitsLength(u[n + 1..]) == |u|)
  }

  predicate IsKeyword(s: string) {
    s == "true" || s == "false" || s == "null" || s == "undefined"
  }

  // ------------------------------------------------------------------ bracket depth

  /** Which brackets a scan counts. */
  datatype Brackets = Mixed | Parens | Squares

  function Weight(b: Brackets, c: char): int {
    if c == '(' && b != Squares then 1
    else if c == ')' && b != Squares then -1
    else if c == '[' && b != Parens then 1
    else if c == ']' && b != Parens then -1
    else 0
  }

  /** Opening minus closing brackets; may go below zero. */
  function Depth(b: Brackets, s: string): int {
    if s == "" then 0 else Depth(b, s[..|s| - 1]) + Weight(b, s[|s| - 1])
  }

  // ------------------------------------------------------------------ the three scans

  /** The opening parenthesis of the text is not closed before its last character. */
  predicate ParensWrapWhole(expr: string) {
    forall i :: 0 <= i < |expr| - 1 && expr[i] == ')' ==> Depth(Parens, expr[..i + 1]) != 0
  }

  predicate IsEqualitySign(c: char) {
    c == '=' || c == '!'
  }

  /** An equality operator starts at `i`, outside all brackets and with an operand in front. */
  predicate IsEqualityAt(expr: string, i: nat)
    requires i < |expr|
  {
    && Depth(Mixed, expr[..i]) == 0
    && IsEqualitySign(expr[i]) && i + 1 < |expr| && expr[i + 1] == '='
    && !(i > 0 && IsEqualitySign(expr[i - 1]))
    && Trim(expr[..i]) != ""
  }

  /** Position of the first equality operator at or after `i`. */
  function FirstEquality(expr: string, i: nat): (r: Option<nat>)
    requires i <= |expr|
    ensures r.Some? ==>
      i <= r.value < |expr| && IsEqualityAt(expr, r.value)
      && forall j :: i <= j < r.value ==> !IsEqualityAt(expr, j)
    ensures r.None? ==> forall j :: i <= j < |expr| ==> !IsEqualityAt(expr, j)
    decreases |expr| - i
  {
    if i == |expr| then None
    else if IsEqualityAt(expr, i) then Some(i)
    else FirstEquality(expr, i + 1)
  }

  function OpLength(expr: string, i: nat): (n: nat)
    requires i + 1 < |expr|
    ensures 2 <= n <= 3 && i + n <= |expr|
  {
    if i + 2 < |expr| && expr[i + 2] == '=' then 3 else 2
  }

  function OpAt(expr: string, i: nat): Op
    requires i + 1 < |expr|
  {
    if expr[i] == '=' then (if OpLength(expr, i) == 3 then StrictEq else LooseEq)
    else (if OpLength(expr, i) == 3 then StrictNe else LooseNe)
  }

  /** The bracket opened just before the text closes at position `j` (counting only square brackets). */
  predicate IsCloseAt(s: string, j: nat)
    requires j < |s|
  {
    s[j] == ']' && Depth(Squares, s[..j]) == 0
  }

  function FirstClose(s: string, j: nat): (r: Option<nat>)
    requires j <= |s|
    ensures r.Some? ==>
      j <= r.value < |s| && IsCloseAt(s, r.value) && forall k :: j <= k < r.value ==> !IsCloseAt(s, k)
    ensures r.None? ==> forall k :: j <= k < |s| ==> !IsCloseAt(s, k)
    decreases |s| - j
  {
    if j == |s| then None else if IsCloseAt(s, j) then Some(j) else FirstClose(s, j + 1)
  }

  // ------------------------------------------------------------------ the evaluator

  /** `resolve`: defined on every text, well formed or not. */
  function Resolve<V>(js: Js<V>, vals: V, src: string): V
    decreases |src|, 1
  {
    var expr := Trim(src);
    TrimIsShorter(src);
    if expr == "" then js.undef
    else if expr[0] == '(' && expr[|expr| - 1] == ')' && ParensWrapWhole(expr) then
      Resolve(js, vals, expr[1..|expr| - 1])
    else
      match FirstEquality(expr, 0)
      case Some(i) =>
        var l := Resolve(js, vals, expr[..i]);
        var r := Resolve(js, vals, expr[i + OpLength(expr, i)..]);
        js.Compare(OpAt(expr, i), l, r)
      case None =>
        if expr[0] == '!' then js.ofBool(!js.truthy(Resolve(js, vals, expr[1..])))
        else if expr == "true" then js.ofBool(true)
        else if expr == "false" then js.ofBool(false)
        else if expr == "null" then js.nul
        else if expr == "undefined" then js.undef
        else if IsNumber(expr) then js.ofNumber(expr)
        else if |expr| >= 2 && IsQuote(expr[0]) && expr[|expr| - 1] == expr[0] then
          js.ofString(expr[1..|expr| - 1])
        else ResolvePath(js, vals, expr)
  }

  function ResolvePath<V>(js: Js<V>, vals: V, expr: string): V
    decreases |expr|, 0, 1
  {
    var n := IdentLength(expr);
    if n == 0 then js.undef
    else ResolveSteps(js, vals, js.Get(vals, js.ofString(expr[..n])), expr[n..])
  }

  function NameLength(s: string): (n: nat)
    ensures n <= |s|
  {
    if IdentLength(s) > 0 then IdentLength(s) else DigitsLength(s)
  }

  /** The steps of a path, from the value `cur` reached so far. */
  function ResolveSteps<V>(js: Js<V>, vals: V, cur: V, rest: string): V
    decreases |rest|, 0, 0
  {
    if rest == "" then cur
    else if rest[0] == '.' then
      var n := NameLength(rest[1..]);
      if n == 0 then js.undef
      else ResolveSteps(js, vals, js.Get(cur, js.ofString(rest[1..n + 1])), rest[n + 1..])
    else if rest[0] == '[' then
      match FirstClose(rest[1..], 0)
      case None => js.undef
      case Some(j) =>
        var key := Resolve(js, vals, rest[1..j + 1]);
        ResolveSteps(js, vals, js.Get(cur, key), rest[j + 2..])
    else js.undef
  }

  lemma TrimIsShorter(s: string)
    ensures |Trim(s)| <= |s|
  {
    var _, _ := TrimSplits(s);
  }
}
