/** What `resolve` makes of texts outside the language: `undefined`. */
module ExprMalformed {
  import opened Text
  import opened Expr
  import opened ExprSyntax
  import opened ExprDepth
  import opened ExprTheorem

  lemma NothingIsUndefined<V>(js: Js<V>, vals: V, s: string)
    requires AllSpace(s)
    ensures Resolve(js, vals, s) == js.undef
  {
    TrimOfSpace(s);
  }

  /** A text that begins like no expression at all. */
  lemma StrangeStartIsUndefined<V>(js: Js<V>, vals: V, s: string)
    requires s != "" && Trimmed(s) && NoEquality(s) && !IsNumeral(s)
    requires !IsLetter(s[0]) && s[0] != '!' && s[0] != '(' && s[0] != '\'' && s[0] != '\"'
    ensures Resolve(js, vals, s) == js.undef
  {
    TrimOfTrimmed(s);
    OperandIsNotSplit(s);
    NumbersAreNumerals(s);
    assert IdentLength(s) == 0;
    assert !IsKeyword(s);
    hide IsNumber, IsNumeral, FirstEquality, NoEquality, Trim;
  }

  /** What cannot continue a path: a stray character, a point without a name, a bracket that is never closed. */
  predicate Breaks(t: string) {
    && t != "" && !IsLetter(t[0]) && !IsDecimal(t[0])
    && (t[0] == '.' ==> |t| == 1 || !(IsLetter(t[1]) || IsDecimal(t[1])))
    && (t[0] == '[' ==> ']' !in t)
  }

  lemma {:induction false} NeverClosed(s: string, j: nat)
    requires ']' !in s && j <= |s|
    ensures FirstClose(s, j).None?
    decreases |s| - j
  {
    if j < |s| {
      NeverClosed(s, j + 1);
    }
  }

  lemma BrokenStep<V>(js: Js<V>, vals: V, cur: V, t: string)
    requires Breaks(t)
    ensures ResolveSteps(js, vals, cur, t) == js.undef
  {
    if t[0] == '.' {
      assert NameLength(t[1..]) == 0;
    } else if t[0] == '[' {
      NeverClosed(t[1..], 0);
    }
  }

  lemma NameBeforeBreak(name: string, rest: Steps, t: string)
    requires (IsIdent(name) || IsDigits(name)) && WellFormedSteps(rest) && Breaks(t)
    ensures NameLength(name + (RenderSteps(rest) + t)) == |name|
  {
    var u := RenderSteps(rest) + t;
    StepsEnds(rest);
    assert u[0] == if RenderSteps(rest) == "" then t[0] else RenderSteps(rest)[0];
    assert (name + u)[0] == name[0];
    if IsIdent(name) {
      IdentPartsOf(name, u);
    } else {
      DigitsOf(name, u);
    }
  }

  lemma {:induction false} BrokenSteps<V>(js: Js<V>, vals: V, cur: V, st: Steps, t: string)
    requires WellFormedSteps(st) && Breaks(t)
    ensures ResolveSteps(js, vals, cur, RenderSteps(st) + t) == js.undef
  {
    hide Breaks, ResolveSteps, IsIdent, IsDigits, WellFormed;
    match st
    case End =>
      assert RenderSteps(st) + t == t;
      BrokenStep(js, vals, cur, t);
    case Dot(name, rest) => BrokenName(js, vals, cur, name, rest, t);
      BrokenSteps(js, vals, js.Get(cur, js.ofString(name)), rest, t);
    case Digits(digits, rest) => BrokenName(js, vals, cur, digits, rest, t);
      BrokenSteps(js, vals, js.Get(cur, js.ofString(digits)), rest, t);
    case Index(gap1, key, gap2, rest) =>
      var x := gap1 + Render(key) + gap2;
      RenderBalanced(Squares, key);
      SpacedBalanced(Squares, gap1, Render(key), gap2);
      assert RenderSteps(st) + t == Wrap('[', x, ']') + (RenderSteps(rest) + t);
      IndexStep(js, vals, cur, x, RenderSteps(rest) + t);
      BrokenSteps(js, vals, js.Get(cur, Resolve(js, vals, x)), rest, t);
  }

  lemma BrokenName<V>(js: Js<V>, vals: V, cur: V, name: string, rest: Steps, t: string)
    requires (IsIdent(name) || IsDigits(name)) && WellFormedSteps(rest) && Breaks(t)
    ensures ResolveSteps(js, vals, cur, (("." + name) + RenderSteps(rest)) + t)
            == ResolveSteps(js, vals, js.Get(cur, js.ofString(name)), RenderSteps(rest) + t)
  {
    hide Breaks, ResolveSteps, NameLength;
    NameBeforeBreak(name, rest, t);
    DotStep(js, vals, cur, name, RenderSteps(rest) + t);
    assert (("." + name) + RenderSteps(rest)) + t == ("." + name) + (RenderSteps(rest) + t);
  }

  /** Main: a path with anything after it that does not continue it has no value at all. */
  lemma BrokenPathIsUndefined<V>(js: Js<V>, vals: V, head: string, st: Steps, t: string)
    requires IsIdent(head) && WellFormedSteps(st) && Breaks(t)
    requires Trimmed(head + (RenderSteps(st) + t)) && NoEquality(head + (RenderSteps(st) + t))
    ensures Resolve(js, vals, head + (RenderSteps(st) + t)) == js.undef
  {
    var u := RenderSteps(st) + t;
    var s := head + u;
    BrokenIsNoKeyword(head, st, t);
    OperandIsNotSplit(s);
    TrimOfTrimmed(s);
    assert s[0] == head[0];
    hide NoEquality, FirstEquality, Trim, Trimmed, Resolve, ResolvePath, IsKeyword, Breaks;
    ResolveAsPath(js, vals, s);
    BrokenPath(js, vals, head, st, t);
  }

  lemma BreakBegins(st: Steps, t: string)
    requires WellFormedSteps(st) && Breaks(t)
    ensures var u := RenderSteps(st) + t; u != "" && !IsIdentPart(u[0])
  {
    StepsEnds(st);
    var u := RenderSteps(st) + t;
    assert u[0] == if RenderSteps(st) == "" then t[0] else RenderSteps(st)[0];
  }

  lemma BrokenIsNoKeyword(head: string, st: Steps, t: string)
    requires WellFormedSteps(st) && Breaks(t)
    ensures !IsKeyword(head + (RenderSteps(st) + t))
  {
    hide Breaks, WellFormedSteps;
    BreakBegins(st, t);
    var s := head + (RenderSteps(st) + t);
    assert s[|head|] == (RenderSteps(st) + t)[0];
    if IsKeyword(s) {
      KeywordIsIdent(s);
    }
  }

  lemma BrokenPath<V>(js: Js<V>, vals: V, head: string, st: Steps, t: string)
    requires IsIdent(head) && WellFormedSteps(st) && Breaks(t)
    ensures ResolvePath(js, vals, head + (RenderSteps(st) + t)) == js.undef
  {
    hide Breaks, WellFormedSteps, ResolveSteps;
    BreakBegins(st, t);
    var u := RenderSteps(st) + t;
    var s := head + u;
    IdentPartsOf(head, u);
    assert s[..|head|] == head && s[|head|..] == u;
    BrokenSteps(js, vals, js.Get(vals, js.ofString(head)), st, t);
  }
}
