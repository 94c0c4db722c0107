/** The evaluator as the source writes it, with loops over positions, proved against `Expr`. */
module ExprLoops {
  import opened Text
  import opened Expr
  import opened ExprDepth

  lemma DepthStep(b: Brackets, s: string, i: nat)
    requires i < |s|
    ensures Depth(b, s[..i + 1]) == Depth(b, s[..i]) + Weight(b, s[i])
  {
    assert s[..i + 1][..i] == s[..i];
  }

  method WrapsWhole(expr: string) returns (wraps: bool)
    ensures wraps == ParensWrapWhole(expr)
  {
    var depth := 0;
    var i := 0;
    while i < |expr| - 1
      invariant 0 <= i && (expr != "" ==> i <= |expr| - 1)
      invariant expr != "" ==> depth == Depth(Parens, expr[..i])
      invariant forall j :: 0 <= j < i && j < |expr| - 1 && expr[j] == ')' ==> Depth(Parens, expr[..j + 1]) != 0
    {
      DepthStep(Parens, expr, i);
      if expr[i] == '(' {
        depth := depth + 1;
      } else if expr[i] == ')' {
        depth := depth - 1;
        if depth == 0 { return false; }
      }
      i := i + 1;
    }
    return true;
  }

  /** Position and operator of the first equality outside brackets. */
  method FindTopLevelEquality(expr: string) returns (eq: Option<(nat, Op)>)
    ensures eq.None? <==> FirstEquality(expr, 0).None?
    ensures eq.Some? ==>
      FirstEquality(expr, 0) == Some(eq.value.0) && eq.value.0 + 1 < |expr| && eq.value.1 == OpAt(expr, eq.value.0)
  {
    hide Trim;
    var depth := 0;
    var i := 0;
    while i < |expr|
      invariant i <= |expr| && depth == Depth(Mixed, expr[..i])
      invariant FirstEquality(expr, 0) == FirstEquality(expr, i)
    {
      DepthStep(Mixed, expr, i);
      var c := expr[i];
      if c == '[' || c == '(' {
        depth := depth + 1;
      } else if c == ']' || c == ')' {
        depth := depth - 1;
      } else if depth == 0 && (c == '=' || c == '!') && i + 1 < |expr| && expr[i + 1] == '=' {
        if i > 0 && (expr[i - 1] == '=' || expr[i - 1] == '!') {
        } else if Trim(expr[..i]) == "" {
        } else {
          var third := i + 2 < |expr| && expr[i + 2] == '=';
          return Some((i, if c == '=' then (if third then StrictEq else LooseEq)
                          else (if third then StrictNe else LooseNe)));
        }
      }
      i := i + 1;
    }
    return None;
  }

  /** The bracket that closes the one in front of the text, or the end of the text. */
  method FindClose(s: string) returns (j: nat)
    ensures j <= |s|
    ensures FirstClose(s, 0) == if j < |s| then Some(j) else None
  {
    var depth := 1;
    j := 0;
    while j < |s|
      invariant j <= |s| && depth == 1 + Depth(Squares, s[..j])
      invariant FirstClose(s, 0) == FirstClose(s, j)
    {
      DepthStep(Squares, s, j);
      if s[j] == '[' {
        depth := depth + 1;
      } else if s[j] == ']' {
        depth := depth - 1;
        if depth == 0 { return; }
      }
      j := j + 1;
    }
  }

  method ResolveText<V>(js: Js<V>, vals: V, src: string) returns (v: V)
    ensures v == Resolve(js, vals, src)
    decreases |src|, 1
  {
    hide FirstEquality, ParensWrapWhole, OpAt, IsNumber;
    var expr := Trim(src);
    TrimIsShorter(src);
    if expr == "" { return js.undef; }
    if expr[0] == '(' && expr[|expr| - 1] == ')' {
      var wraps := WrapsWhole(expr);
      if wraps {
        v := ResolveText(js, vals, expr[1..|expr| - 1]);
        return;
      }
    }
    var eq := FindTopLevelEquality(expr);
    if eq.Some? {
      var (i, op) := eq.value;
      var l := ResolveText(js, vals, expr[..i]);
      var r := ResolveText(js, vals, expr[i + OpLength(expr, i)..]);
      return js.Compare(op, l, r);
    }
    if expr[0] == '!' {
      var operand := ResolveText(js, vals, expr[1..]);
      return js.ofBool(!js.truthy(operand));
    }
    if expr == "true" { return js.ofBool(true); }
    if expr == "false" { return js.ofBool(false); }
    if expr == "null" { return js.nul; }
    if expr == "undefined" { return js.undef; }
    if IsNumber(expr) { return js.ofNumber(expr); }
    if |expr| >= 2 && IsQuote(expr[0]) && expr[|expr| - 1] == expr[0] {
      return js.ofString(expr[1..|expr| - 1]);
    }
    v := ResolvePathText(js, vals, expr);
  }

  lemma SliceOfRest(s: string, i: nat, a: nat, b: nat)
    requires a <= b && i + b <= |s|
    ensures s[i..][a..b] == s[i + a..i + b] && s[i..][b..] == s[i + b..]
  {
  }

  lemma DotSteps<V>(js: Js<V>, vals: V, cur: V, rest: string)
    requires rest != "" && rest[0] == '.'
    ensures var n := NameLength(rest[1..]);
      ResolveSteps(js, vals, cur, rest) ==
        if n == 0 then js.undef
        else ResolveSteps(js, vals, js.Get(cur, js.ofString(rest[1..n + 1])), rest[n + 1..])
  {
    hide NameLength, FirstClose, Resolve;
  }

  lemma DotAt<V>(js: Js<V>, vals: V, cur: V, expr: string, i: nat)
    requires i < |expr| && expr[i] == '.'
    ensures var n := NameLength(expr[i + 1..]);
      ResolveSteps(js, vals, cur, expr[i..])
      == if n == 0 then js.undef
         else ResolveSteps(js, vals, js.Get(cur, js.ofString(expr[i + 1..i + 1 + n])), expr[i + 1 + n..])
  {
    hide NameLength, ResolveSteps, Js.Get;
    var rest := expr[i..];
    DotSteps(js, vals, cur, rest);
    SliceOfRest(expr, i, 1, 1);
    var n := NameLength(expr[i + 1..]);
    SliceOfRest(expr, i, 1, n + 1);
    assert i + (n + 1) == i + 1 + n;
  }

  lemma BracketSteps<V>(js: Js<V>, vals: V, cur: V, rest: string)
    requires rest != "" && rest[0] == '['
    ensures match FirstClose(rest[1..], 0)
      case None => ResolveSteps(js, vals, cur, rest) == js.undef
      case Some(j) =>
        ResolveSteps(js, vals, cur, rest) ==
          ResolveSteps(js, vals, js.Get(cur, Resolve(js, vals, rest[1..j + 1])), rest[j + 2..])
  {
    hide FirstClose, Resolve;
  }

  lemma BracketAt<V>(js: Js<V>, vals: V, cur: V, expr: string, i: nat)
    requires i < |expr| && expr[i] == '['
    ensures match FirstClose(expr[i + 1..], 0)
      case None => ResolveSteps(js, vals, cur, expr[i..]) == js.undef
      case Some(j) =>
        ResolveSteps(js, vals, cur, expr[i..])
        == ResolveSteps(js, vals, js.Get(cur, Resolve(js, vals, expr[i + 1..i + 1 + j])), expr[i + j + 2..])
  {
    hide FirstClose, Resolve, ResolveSteps, Js.Get;
    var rest := expr[i..];
    BracketSteps(js, vals, cur, rest);
    SliceOfRest(expr, i, 1, 1);
    var close := FirstClose(expr[i + 1..], 0);
    if close.Some? {
      var j := close.value;
      SliceOfRest(expr, i, 1, j + 1);
      SliceOfRest(expr, i, j + 2, j + 2);
    }
  }

  lemma OtherAt<V>(js: Js<V>, vals: V, cur: V, expr: string, i: nat)
    requires i <= |expr| && (i < |expr| ==> expr[i] != '.' && expr[i] != '[')
    ensures ResolveSteps(js, vals, cur, expr[i..]) == if i == |expr| then cur else js.undef
  {
  }

  lemma PathStart<V>(js: Js<V>, vals: V, expr: string)
    ensures var n := IdentLength(expr);
      ResolvePath(js, vals, expr)
      == if n == 0 then js.undef
         else ResolveSteps(js, vals, js.Get(vals, js.ofString(expr[..n])), expr[n..])
  {
  }

  method ResolvePathText<V>(js: Js<V>, vals: V, expr: string) returns (v: V)
    ensures v == ResolvePath(js, vals, expr)
    decreases |expr|, 0
  {
    hide NameLength, FirstClose, Resolve, ResolvePath, ResolveSteps, IdentLength, Js.Get;
    PathStart(js, vals, expr);
    var i := IdentLength(expr);
    if i == 0 { return js.undef; }
    var cur := js.Get(vals, js.ofString(expr[..i]));
    while i < |expr|
      invariant 0 < i <= |expr|
      invariant ResolvePath(js, vals, expr) == ResolveSteps(js, vals, cur, expr[i..])
      decreases |expr| - i
    {
      if expr[i] == '.' {
        DotAt(js, vals, cur, expr, i);
        var n := NameLength(expr[i + 1..]);
        if n == 0 { return js.undef; }
        cur := js.Get(cur, js.ofString(expr[i + 1..i + 1 + n]));
        i := i + 1 + n;
      } else if expr[i] == '[' {
        BracketAt(js, vals, cur, expr, i);
        var j := FindClose(expr[i + 1..]);
        if j == |expr[i + 1..]| { return js.undef; }
        var key := ResolveText(js, vals, expr[i + 1..i + 1 + j]);
        cur := js.Get(cur, key);
        i := i + j + 2;
      } else {
        OtherAt(js, vals, cur, expr, i);
        return js.undef;
      }
    }
    OtherAt(js, vals, cur, expr, i);
    return cur;
  }
}
