/**
 The expression language that `Expr.Resolve` reads, as trees that keep their layout, with a meaning
 given by recursion on the tree.

 Equality associates to the right and binds loosest; `!` binds tighter.  White space may stand
 between any two tokens.
 */
module ExprSyntax {
  import opened Text
  import opened Expr
  import opened ExprDepth

  datatype Tree =
    | Path(head: string, steps: Steps)
    | Number(text: string)
    | Str(quote: char, text: string)
    | True
    | False
    | Null
    | Undefined
    | Not(gap: string, arg: Tree)
    | Equal(left: Tree, gap1: string, op: Op, gap2: string, right: Tree)
    | Group(gap1: string, inner: Tree, gap2: string)

  datatype Steps =
    | End
    | Dot(name: string, rest: Steps)
    | Digits(digits: string, rest: Steps)
    | Index(gap1: string, key: Tree, gap2: string, rest: Steps)

  // ------------------------------------------------------------------ words of the language

  predicate IsLetter(c: char) {
    'A' <= c <= 'Z' || 'a' <= c <= 'z' || c == '_' || c == '$'
  }

  predicate IsDecimal(c: char) {
    '0' <= c <= '9'
  }

  /** A letter, then letters and digits. */
  predicate IsIdent(s: string) {
    s != "" && IsLetter(s[0]) && forall i :: 0 <= i < |s| ==> IsLetter(s[i]) || IsDecimal(s[i])
  }

  predicate IsDigits(s: string) {
    s != "" && forall i :: 0 <= i < |s| ==> IsDecimal(s[i])
  }

  /** Digits, then perhaps a point and more digits. */
  predicate IsUnsigned(s: string) {
    IsDigits(s) || exists p :: 0 <= p < |s| && IsDigits(s[..p]) && s[p] == '.' && IsDigits(s[p + 1..])
  }

  predicate IsNumeral(s: string) {
    if s != "" && s[0] == '-' then IsUnsigned(s[1..]) else IsUnsigned(s)
  }

  /** A string literal that the scans, which do not know about quotes, pass over without harm: each kind of bracket is
      matched, and no equality operator stands outside brackets. */
  predicate IsSafeText(quote: char, s: string) {
    Balanced(Parens, s) && Balanced(Squares, s) && NoEquality([quote] + s + [quote])
  }

  predicate WellFormed(e: Tree) {
    match e
    case Path(head, steps) => 
      && IsIdent(head) && WellFormedSteps(steps)
      && !(steps.End? && head in {"true", "false", "null", "undefined"})
    case Number(text) => IsNumeral(text)
    case Str(quote, text) => (quote == '\'' || quote == '\"') && IsSafeText(quote, text)
    case Not(gap, arg) => AllSpace(gap) && WellFormed(arg) && !arg.Equal?
    case Equal(left, gap1, _, gap2, right) =>
      AllSpace(gap1) && AllSpace(gap2) && WellFormed(left) && WellFormed(right) && !left.Equal?
    case Group(gap1, inner, gap2) => AllSpace(gap1) && AllSpace(gap2) && WellFormed(inner)
    case _ => true
  }

  predicate WellFormedSteps(st: Steps) {
    match st
    case End => true
    case Dot(name, rest) => IsIdent(name) && WellFormedSteps(rest)
    case Digits(digits, rest) => IsDigits(digits) && WellFormedSteps(rest)
    case Index(gap1, key, gap2, rest) =>
      AllSpace(gap1) && AllSpace(gap2) && WellFormed(key) && WellFormedSteps(rest)
  }

  function OpText(op: Op): string {
    match op
    case StrictEq => "==="
    case StrictNe => "!=="
    case LooseEq => "=="
    case LooseNe => "!="
  }

  function Render(e: Tree): string {
    match e
    case Path(head, steps) => head + RenderSteps(steps)
    case Number(text) => text
    case Str(quote, text) => [quote] + text + [quote]
    case True => "true"
    case False => "false"
    case Null => "null"
    case Undefined => "undefined"
    case Not(gap, arg) => "!" + (gap + Render(arg))
    case Equal(left, gap1, op, gap2, right) => (Render(left) + gap1) + (OpText(op) + (gap2 + Render(right)))
    case Group(gap1, inner, gap2) => ['('] + (gap1 + Render(inner) + gap2) + [')']
  }

  function RenderSteps(st: Steps): string {
    match st
    case End => ""
    case Dot(name, rest) => ("." + name) + RenderSteps(rest)
    case Digits(digits, rest) => ("." + digits) + RenderSteps(rest)
    case Index(gap1, key, gap2, rest) => (['['] + (gap1 + Render(key) + gap2) + [']']) + RenderSteps(rest)
  }

  // ------------------------------------------------------------------ meaning

  /** What an operator gives, in the operations of the host language. */
  function Operate<V>(js: Js<V>, op: Op, l: V, r: V): V {
    match op
    case StrictEq => js.ofBool(js.strictEq(l, r))
    case StrictNe => js.ofBool(!js.strictEq(l, r))
    case LooseEq => js.ofBool(js.looseEq(l, r))
    case LooseNe => js.ofBool(!js.looseEq(l, r))
  }

  /** A member of `null` or `undefined` is `undefined`. */
  function MemberOf<V>(js: Js<V>, v: V, key: V): V {
    if js.nullish(v) then js.undef else js.member(v, key)
  }

  function Eval<V>(js: Js<V>, vals: V, e: Tree): V {
    match e
    case Path(head, steps) => EvalSteps(js, vals, MemberOf(js, vals, js.ofString(head)), steps)
    case Number(text) => js.ofNumber(text)
    case Str(_, text) => js.ofString(text)
    case True => js.ofBool(true)
    case False => js.ofBool(false)
    case Null => js.nul
    case Undefined => js.undef
    case Not(_, arg) => js.ofBool(!js.truthy(Eval(js, vals, arg)))
    case Equal(left, _, op, _, right) => Operate(js, op, Eval(js, vals, left), Eval(js, vals, right))
    case Group(_, inner, _) => Eval(js, vals, inner)
  }

  function EvalSteps<V>(js: Js<V>, vals: V, cur: V, st: Steps): V {
    match st
    case End => cur
    case Dot(name, rest) => EvalSteps(js, vals, MemberOf(js, cur, js.ofString(name)), rest)
    case Digits(digits, rest) => EvalSteps(js, vals, MemberOf(js, cur, js.ofString(digits)), rest)
    case Index(_, key, _, rest) => EvalSteps(js, vals, MemberOf(js, cur, Eval(js, vals, key)), rest)
  }
}
