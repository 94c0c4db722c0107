/** `resolve` computes the meaning of every well-formed expression, in every layout. */
module ExprTheorem {
  import opened Text
  import opened Expr
  import opened ExprSyntax
  import opened ExprDepth

  // ------------------------------------------------------------------ words

  lemma {:induction false} IdentPartsOf(s: string, t: string)
    requires forall i :: 0 <= i < |s| ==> IsIdentPart(s[i])
    requires t != "" ==> !IsIdentPart(t[0])
    ensures IdentParts(s + t) == |s|
  {
    if s == "" {
      assert s + t == t;
    } else {
      assert (s + t)[1..] == s[1..] + t;
      IdentPartsOf(s[1..], t);
    }
  }

  lemma {:induction false} DigitsOf(s: string, t: string)
    requires forall i :: 0 <= i < |s| ==> IsDigit(s[i])
    requires t != "" ==> !IsDigit(t[0])
    ensures DigitsLength(s + t) == |s|
  {
    if s == "" {
      assert s + t == t;
    } else {
      assert (s + t)[1..] == s[1..] + t;
      DigitsOf(s[1..], t);
    }
  }

  lemma IdentIsFlat(b: Brackets, s: string)
    requires IsIdent(s)
    ensures Flat(b, s) && '=' !in s
  {
  }

  lemma NumberChars(s: string)
    requires IsNumber(s)
    ensures s != "" && forall i :: 0 <= i < |s| ==> IsDigit(s[i]) || s[i] == '-' || s[i] == '.'
    ensures IsDigit(s[|s| - 1])
  {
    var k := if s[0] == '-' then 1 else 0;
    var u := s[k..];
    var n := DigitsLength(u);
    var v := if n < |u| then u[n + 1..] else "";
    forall i | 0 <= i < |s| ensures IsDigit(s[i]) || s[i] == '-' || s[i] == '.' {
      if k <= i < k + n {
        assert s[i] == u[i - k];
      } else if k + n < i {
        assert s[i] == v[i - k - n - 1];
      }
    }
    if n < |u| {
      assert s[|s| - 1] == v[|v| - 1];
    } else {
      assert s[|s| - 1] == u[n - 1];
    }
  }

  lemma {:induction false} DigitsRun(s: string)
    ensures forall i :: 0 <= i < DigitsLength(s) ==> IsDecimal(s[i])
    ensures DigitsLength(s) < |s| ==> !IsDecimal(s[DigitsLength(s)])
  {
    if s != "" && IsDigit(s[0]) {
      DigitsRun(s[1..]);
    }
  }

  lemma DigitsAlone(u: string)
    requires IsDigits(u)
    ensures DigitsLength(u) == |u|
  {
    assert u + "" == u;
    DigitsOf(u, "");
  }

  lemma PointedDigits(u: string, p: nat)
    requires p < |u| && IsDigits(u[..p]) && u[p] == '.' && IsDigits(u[p + 1..])
    ensures DigitsLength(u) == p && DigitsLength(u[p + 1..]) == |u| - p - 1
  {
    var a, b := u[..p], u[p..];
    assert u == a + b && b[0] == '.';
    assert forall i :: 0 <= i < |a| ==> IsDecimal(a[i]) && IsDigit(a[i]);
    DigitsOf(a, b);
    DigitsAlone(u[p + 1..]);
  }

  lemma UnsignedIff(u: string)
    ensures var n := DigitsLength(u);
      IsUnsigned(u) <==> n > 0 && (n < |u| ==> u[n] == '.' && n + 1 < |u| && n + 1 + DigitsLength(u[n + 1..]) == |u|)
  {
    var n := DigitsLength(u);
    DigitsRun(u);
    if n > 0 && n + 1 < |u| && u[n] == '.' && n + 1 + DigitsLength(u[n + 1..]) == |u| {
      DigitsRun(u[n + 1..]);
      assert IsDigits(u[..n]) && u[n] == '.' && IsDigits(u[n + 1..]);
    }
    if IsDigits(u) {
      DigitsAlone(u);
    } else if IsUnsigned(u) {
      var p :| 0 <= p < |u| && IsDigits(u[..p]) && u[p] == '.' && IsDigits(u[p + 1..]);
      PointedDigits(u, p);
    }
  }

  /** What the evaluator takes for a number is a numeral, and nothing else is. */
  lemma NumbersAreNumerals(s: string)
    ensures IsNumber(s) <==> IsNumeral(s)
  {
    UnsignedIff(if s != "" && s[0] == '-' then s[1..] else s);
  }

  lemma NumeralChars(s: string)
    requires IsNumeral(s)
    ensures s != "" && forall i :: 0 <= i < |s| ==> IsDigit(s[i]) || s[i] == '-' || s[i] == '.'
    ensures IsDigit(s[|s| - 1])
  {
    hide IsNumber, IsNumeral;
    NumbersAreNumerals(s);
    NumberChars(s);
  }

  // ------------------------------------------------------------------ the two ends of a rendering

  lemma {:induction false} StepsEnds(st: Steps)
    requires WellFormedSteps(st)
    ensures var s := RenderSteps(st);
      s != "" ==>
        && (s[0] == '.' || s[0] == '[')
        && (IsIdentPart(s[|s| - 1]) || s[|s| - 1] == ']')
    ensures st.End? <==> RenderSteps(st) == ""
  {
    match st
    case End =>
    case Dot(name, rest) => StepsEnds(rest);
    case Digits(digits, rest) => StepsEnds(rest);
    case Index(gap1, key, gap2, rest) => StepsEnds(rest);
  }

  /** Not empty, no white space at the ends, no equals sign in front and no equality sign behind. */
  predicate GoodEnds(s: string) {
    s != "" && Trimmed(s) && s[0] != '=' && !IsEqualitySign(s[|s| - 1])
  }

  lemma PathEnds(head: string, steps: Steps)
    requires IsIdent(head) && WellFormedSteps(steps)
    ensures GoodEnds(head + RenderSteps(steps))
  {
    StepsEnds(steps);
    assert GoodEnds(head);
    if RenderSteps(steps) == "" {
      assert head + RenderSteps(steps) == head;
    }
  }

  lemma NotEnds(gap: string, u: string)
    requires GoodEnds(u)
    ensures GoodEnds("!" + (gap + u))
  {
    var s := "!" + (gap + u);
    assert s[|s| - 1] == u[|u| - 1];
  }

  lemma LiteralEnds(e: Tree)
    requires WellFormed(e) && (e.Number? || e.Str? || e.True? || e.False? || e.Null? || e.Undefined?)
    ensures GoodEnds(Render(e))
  {
    if e.Number? {
      NumeralChars(e.text);
    }
  }

  lemma {:induction false} Ends(e: Tree)
    requires WellFormed(e)
    ensures GoodEnds(Render(e))
  {
    match e
    case Path(head, steps) => PathEnds(head, steps);
    case Not(gap, arg) =>
      Ends(arg);
      NotEnds(gap, Render(arg));
    case Equal(left, gap1, op, gap2, right) =>
      Ends(left);
      Ends(right);
      EqualEnds(e);
    case Group(_, _, _) =>
    case _ => LiteralEnds(e);
  }

  /** Only a group begins with a parenthesis. */
  lemma ParenMeansGroup(e: Tree)
    requires WellFormed(e) && !e.Equal? && Render(e) != "" && Render(e)[0] == '('
    ensures e.Group?
  {
    if e.Number? {
      NumeralChars(e.text);
    }
  }

  lemma EqualEnds(e: Tree)
    requires e.Equal? && Render(e.left) != "" && Render(e.right) != ""
    ensures var s, l, r := Render(e), Render(e.left), Render(e.right);
      s != "" && s[0] == l[0] && s[|s| - 1] == r[|r| - 1]
  {
  }

  // ------------------------------------------------------------------ renderings are balanced

  lemma SpacedBalanced(b: Brackets, gap1: string, x: string, gap2: string)
    requires AllSpace(gap1) && AllSpace(gap2) && Balanced(b, x)
    ensures Balanced(b, gap1 + x + gap2)
  {
    SpaceIsFlat(b, gap1);
    SpaceIsFlat(b, gap2);
    FlatBalanced(b, gap1);
    FlatBalanced(b, gap2);
    BalancedConcat(b, gap1, x);
    BalancedConcat(b, gap1 + x, gap2);
  }

  lemma {:induction false} RenderBalanced(b: Brackets, e: Tree)
    requires WellFormed(e)
    ensures Balanced(b, Render(e))
  {
    match e
    case Path(head, steps) =>
      IdentIsFlat(b, head);
      FlatBalanced(b, head);
      StepsBalanced(b, steps);
      BalancedConcat(b, head, RenderSteps(steps));
    case Not(gap, arg) =>
      RenderBalanced(b, arg);
      NotBalanced(b, gap, Render(arg));
    case Equal(left, gap1, op, gap2, right) =>
      RenderBalanced(b, left);
      RenderBalanced(b, right);
      EqualBalanced(b, e);
    case Group(gap1, inner, gap2) =>
      RenderBalanced(b, inner);
      SpacedBalanced(b, gap1, Render(inner), gap2);
      BalancedWrap(b, '(', gap1 + Render(inner) + gap2, ')');
    case _ => LiteralBalanced(b, e);
  }

  lemma NotBalanced(b: Brackets, gap: string, u: string)
    requires AllSpace(gap) && Balanced(b, u)
    ensures Balanced(b, "!" + (gap + u))
  {
    SpaceIsFlat(b, gap);
    FlatBalanced(b, gap);
    BalancedConcat(b, gap, u);
    FlatBalanced(b, "!");
    BalancedConcat(b, "!", gap + u);
  }

  lemma QuotedBalanced(b: Brackets, quote: char, text: string)
    requires IsQuote(quote) && Balanced(Parens, text) && Balanced(Squares, text)
    ensures Balanced(b, [quote] + text + [quote])
  {
    BothBalanced(b, text);
    BalancedWrap(b, quote, text, quote);
  }

  lemma LiteralBalanced(b: Brackets, e: Tree)
    requires WellFormed(e) && (e.Number? || e.Str? || e.True? || e.False? || e.Null? || e.Undefined?)
    ensures Balanced(b, Render(e))
  {
    hide Balanced, Depth, IsNumeral;
    if e.Str? {
      QuotedBalanced(b, e.quote, e.text);
    } else {
      if e.Number? {
        NumeralChars(e.text);
      }
      assert Flat(b, Render(e));
      FlatBalanced(b, Render(e));
    }
  }

  lemma EqualBalanced(b: Brackets, e: Tree)
    requires e.Equal? && WellFormed(e) && Balanced(b, Render(e.left)) && Balanced(b, Render(e.right))
    ensures Balanced(b, Render(e))
    ensures Balanced(b, Render(e.left) + e.gap1)
  {
    var l, r := Render(e.left), Render(e.right);
    SpacedBalanced(b, "", l, e.gap1);
    assert "" + l + e.gap1 == l + e.gap1;
    SpacedBalanced(b, e.gap2, r, "");
    assert e.gap2 + r + "" == e.gap2 + r;
    FlatBalanced(b, OpText(e.op));
    BalancedConcat(b, OpText(e.op), e.gap2 + r);
    BalancedConcat(b, l + e.gap1, OpText(e.op) + (e.gap2 + r));
  }

  lemma {:induction false} StepsBalanced(b: Brackets, st: Steps)
    requires WellFormedSteps(st)
    ensures Balanced(b, RenderSteps(st))
  {
    match st
    case End =>
    case Dot(name, rest) =>
      FlatBalanced(b, "." + name);
      StepsBalanced(b, rest);
      BalancedConcat(b, "." + name, RenderSteps(rest));
    case Digits(digits, rest) =>
      FlatBalanced(b, "." + digits);
      StepsBalanced(b, rest);
      BalancedConcat(b, "." + digits, RenderSteps(rest));
    case Index(gap1, key, gap2, rest) =>
      var x := gap1 + Render(key) + gap2;
      RenderBalanced(b, key);
      SpacedBalanced(b, gap1, Render(key), gap2);
      BalancedWrap(b, '[', x, ']');
      StepsBalanced(b, rest);
      BalancedConcat(b, Wrap('[', x, ']'), RenderSteps(rest));
  }

  // ------------------------------------------------------------------ no equality in an operand

  lemma {:induction false} OperandHasNoEquality(e: Tree)
    requires WellFormed(e) && !e.Equal?
    ensures NoEquality(Render(e))
  {
    hide NoEquality, Balanced;
    match e
    case Path(head, steps) =>
      IdentIsFlat(Mixed, head);
      FlatDepth(Mixed, head);
      NoEqualityWithoutSign(head);
      StepsHaveNoEquality(steps);
      StepsEnds(steps);
      NoEqualityConcat(head, RenderSteps(steps));
    case Not(gap, arg) =>
      OperandHasNoEquality(arg);
      NotHasNoEquality(gap, arg);
    case Group(gap1, inner, gap2) =>
      RenderBalanced(Mixed, inner);
      SpacedBalanced(Mixed, gap1, Render(inner), gap2);
      NoEqualityWrap('(', gap1 + Render(inner) + gap2, ')');
    case _ =>
      LiteralHasNoEquality(e);
  }

  lemma LiteralHasNoEquality(e: Tree)
    requires WellFormed(e) && (e.Number? || e.Str? || e.True? || e.False? || e.Null? || e.Undefined?)
    ensures NoEquality(Render(e))
  {
    hide NoEquality;
    if !e.Str? {
      if e.Number? {
        NumeralChars(e.text);
      }
      assert '=' !in Render(e);
      NoEqualityWithoutSign(Render(e));
    }
  }

  lemma NotHasNoEquality(gap: string, arg: Tree)
    requires AllSpace(gap) && WellFormed(arg) && NoEquality(Render(arg))
    ensures NoEquality("!" + (gap + Render(arg)))
  {
    hide NoEquality, Render;
    Ends(arg);
    SpaceIsFlat(Mixed, gap);
    FlatDepth(Mixed, gap);
    NoEqualityWithoutSign(gap);
    NoEqualityConcat(gap, Render(arg));
    FlatDepth(Mixed, "!");
    NoEqualityWithoutSign("!");
    NoEqualityConcat("!", gap + Render(arg));
  }

  lemma {:induction false} StepsHaveNoEquality(st: Steps)
    requires WellFormedSteps(st)
    ensures NoEquality(RenderSteps(st))
  {
    match st
    case End =>
    case Dot(name, rest) =>
      FlatDepth(Mixed, "." + name);
      StepsHaveNoEquality(rest);
      StepsEnds(rest);
      NoEqualityConcat("." + name, RenderSteps(rest));
    case Digits(digits, rest) =>
      FlatDepth(Mixed, "." + digits);
      StepsHaveNoEquality(rest);
      StepsEnds(rest);
      NoEqualityConcat("." + digits, RenderSteps(rest));
    case Index(gap1, key, gap2, rest) =>
      var x := gap1 + Render(key) + gap2;
      RenderBalanced(Mixed, key);
      SpacedBalanced(Mixed, gap1, Render(key), gap2);
      BalancedWrap(Mixed, '[', x, ']');
      NoEqualityWrap('[', x, ']');
      StepsHaveNoEquality(rest);
      StepsEnds(rest);
      NoEqualityConcat(Wrap('[', x, ']'), RenderSteps(rest));
  }

  // ------------------------------------------------------------------ what the scans find

  lemma OperandIsNotSplit(s: string)
    requires NoEquality(s)
    ensures FirstEquality(s, 0).None?
  {
    forall i | 0 <= i < |s| ensures !IsEqualityAt(s, i) {
      assert !EqualityShape(s, i);
    }
  }

  lemma TrimOfText(s: string, i: nat)
    requires i < |s| && !IsSpace(s[i])
    ensures Trim(s) != ""
  {
    var a, b := TrimSplits(s);
    assert s == a + (Trim(s) + b);
  }

  /** A group is recognised as one parenthesised whole. */
  lemma GroupIsWhole(x: string)
    requires Balanced(Parens, x)
    ensures ParensWrapWhole(Wrap('(', x, ')'))
  {
    var s := Wrap('(', x, ')');
    forall i | 0 <= i < |s| - 1 && s[i] == ')' ensures Depth(Parens, s[..i + 1]) != 0 {
      WrapDepth(Parens, '(', x, ')', i + 1);
    }
  }

  /** A balanced text ending in a parenthesis, with more text after it, is not the whole. */
  lemma GroupAndMoreIsNotWhole(l: string, t: string)
    requires l != "" && l[|l| - 1] == ')' && Depth(Parens, l) == 0 && t != ""
    ensures !ParensWrapWhole(l + t)
  {
    var s := l + t;
    var i := |l| - 1;
    assert s[..i + 1] == l;
    assert s[i] == ')';
  }

  lemma EqualIsNotWhole(e: Tree)
    requires WellFormed(e) && e.Equal?
    ensures Render(e)[0] == '(' ==> !ParensWrapWhole(Render(e))
  {
    var l := Render(e.left);
    var t := e.gap1 + (OpText(e.op) + (e.gap2 + Render(e.right)));
    Ends(e.left);
    assert Render(e) == l + t;
    if Render(e)[0] == '(' {
      ParenMeansGroup(e.left);
      RenderBalanced(Parens, e.left);
      GroupAndMoreIsNotWhole(l, t);
    }
  }

  /** The left operand and its gap hold no equality operator, whatever follows. */
  lemma NoEqualityBefore(p: string, q: string, i: nat)
    requires NoEquality(p) && i < |p| && !IsEqualitySign(p[|p| - 1])
    ensures !IsEqualityAt(p + q, i)
  {
    var s := p + q;
    assert s[..i] == p[..i];
    assert !EqualityShape(p, i);
  }

  lemma EqualityAfter(p: string, q: string, k: nat)
    requires p != "" && Depth(Mixed, p) == 0 && !IsEqualitySign(p[|p| - 1]) && Trim(p) != ""
    requires |q| >= 2 && IsEqualitySign(q[0]) && q[1] == '=' && k == |p|
    ensures IsEqualityAt(p + q, k)
  {
    assert (p + q)[..k] == p;
  }

  lemma FirstEqualityIs(s: string, k: nat, from: nat)
    requires from <= k < |s| && IsEqualityAt(s, k)
    requires forall i :: 0 <= i < k ==> !IsEqualityAt(s, i)
    ensures FirstEquality(s, from) == Some(k)
    decreases k - from
  {
    if from < k {
      FirstEqualityIs(s, k, from + 1);
    }
  }

  /** The left operand with its gap: no equality operator, no depth, some text. */
  lemma LeftIsQuiet(e: Tree)
    requires WellFormed(e) && e.Equal?
    ensures var p := Render(e.left) + e.gap1;
      p != "" && NoEquality(p) && Depth(Mixed, p) == 0 && !IsEqualitySign(p[|p| - 1]) && Trim(p) != ""
  {
    var l := Render(e.left);
    hide NoEquality, Render;
    Ends(e.left);
    RenderBalanced(Mixed, e.left);
    OperandHasNoEquality(e.left);
    SpaceIsFlat(Mixed, e.gap1);
    FlatDepth(Mixed, e.gap1);
    DepthConcat(Mixed, l, e.gap1);
    NoEqualityWithoutSign(e.gap1);
    NoEqualityConcat(l, e.gap1);
    TrimOfText(l + e.gap1, 0);
  }

  /** The scan finds exactly the operator between the two operands. */
  lemma EqualIsFound(e: Tree)
    requires WellFormed(e) && e.Equal?
    ensures FirstEquality(Render(e), 0) == Some(|Render(e.left)| + |e.gap1|)
  {
    hide NoEquality, IsEqualityAt, FirstEquality, Depth, Trim, WellFormed;
    var p, q := Render(e.left) + e.gap1, OpText(e.op) + (e.gap2 + Render(e.right));
    var k := |p|;
    LeftIsQuiet(e);
    EqualityAfter(p, q, k);
    forall i | 0 <= i < k ensures !IsEqualityAt(p + q, i) {
      NoEqualityBefore(p, q, i);
    }
    FirstEqualityIs(p + q, k, 0);
  }

  lemma OpIsRead(p: string, op: Op, t: string)
    requires t != "" && t[0] != '='
    ensures var s, k := p + (OpText(op) + t), |p|;
      && k + 1 < |s| && OpAt(s, k) == op
      && s[..k] == p && s[k + OpLength(s, k)..] == t
  {
    var s, k, n := p + (OpText(op) + t), |p|, |OpText(op)|;
    assert s[k..] == OpText(op) + t;
    assert s[k] == OpText(op)[0] && s[k + 1] == OpText(op)[1];
    assert s[k + n] == t[0];
    assert n == 3 ==> s[k + 2] == '=';
    assert OpLength(s, k) == n;
    assert s[k + n..] == t;
  }

  /** The operator is read with its exact length, and the two sides are the operands. */
  lemma EqualIsSplit(e: Tree)
    requires WellFormed(e) && e.Equal?
    ensures var s, k := Render(e), |Render(e.left)| + |e.gap1|;
      && k + 1 < |s| && OpAt(s, k) == e.op
      && s[..k] == Render(e.left) + e.gap1
      && s[k + OpLength(s, k)..] == e.gap2 + Render(e.right)
  {
    hide OpText;
    hide OpAt, OpLength;
    Ends(e.right);
    OpIsRead(Render(e.left) + e.gap1, e.op, e.gap2 + Render(e.right));
  }

  // ------------------------------------------------------------------ one step of the evaluator

  lemma ResolveWhole<V>(js: Js<V>, vals: V, src: string, x: string)
    requires Trim(src) == Wrap('(', x, ')') && ParensWrapWhole(Wrap('(', x, ')'))
    ensures Resolve(js, vals, src) == Resolve(js, vals, x)
  {
    hide IsNumber, FirstEquality, ParensWrapWhole;
    var expr := Trim(src);
    assert expr[1..|expr| - 1] == x;
  }

  lemma ResolveEquality<V>(js: Js<V>, vals: V, src: string, i: nat)
    requires var s := Trim(src);
      s != "" && (s[0] == '(' ==> !ParensWrapWhole(s)) && FirstEquality(s, 0) == Some(i)
    ensures var s := Trim(src);
      Resolve(js, vals, src)
      == js.Compare(OpAt(s, i), Resolve(js, vals, s[..i]), Resolve(js, vals, s[i + OpLength(s, i)..]))
  {
    hide ParensWrapWhole, FirstEquality, OpAt, OpLength, IsNumber;
  }

  lemma ResolveNot<V>(js: Js<V>, vals: V, src: string, x: string)
    requires Trim(src) == "!" + x && FirstEquality("!" + x, 0).None?
    ensures Resolve(js, vals, src) == js.ofBool(!js.truthy(Resolve(js, vals, x)))
  {
    hide IsNumber, FirstEquality;
    assert ("!" + x)[1..] == x;
  }

  /** A text that is none of the composed forms and none of the literals is read as a path. */
  lemma ResolveAsPath<V>(js: Js<V>, vals: V, src: string)
    requires var s := Trim(src);
      s != "" && IsIdentStart(s[0]) && FirstEquality(s, 0).None? && !IsKeyword(s)
    ensures Resolve(js, vals, src) == ResolvePath(js, vals, Trim(src))
  {
    var s := Trim(src);
    if IsNumber(s) {
      NumberChars(s);
    }
  }

  lemma ResolveNumber<V>(js: Js<V>, vals: V, src: string)
    requires IsNumber(Trim(src)) && FirstEquality(Trim(src), 0).None?
    ensures Resolve(js, vals, src) == js.ofNumber(Trim(src))
  {
    NumberChars(Trim(src));
    hide IsNumber, FirstEquality, ParensWrapWhole, ResolvePath, Trim;
  }

  lemma ResolveString<V>(js: Js<V>, vals: V, src: string, quote: char, text: string)
    requires IsQuote(quote) && Trim(src) == [quote] + text + [quote] && FirstEquality(Trim(src), 0).None?
    ensures Resolve(js, vals, src) == js.ofString(text)
  {
    var s := Trim(src);
    assert s[1..|s| - 1] == text;
    if IsNumber(s) {
      NumberChars(s);
    }
  }

  // ------------------------------------------------------------------ the theorem

  lemma KeywordIsIdent(s: string)
    requires IsKeyword(s)
    ensures forall i :: 0 <= i < |s| ==> IsIdentPart(s[i])
  {
  }

  lemma PathIsNotKeyword(head: string, steps: Steps)
    requires IsIdent(head) && WellFormedSteps(steps) && !(steps.End? && IsKeyword(head))
    ensures !IsKeyword(head + RenderSteps(steps))
  {
    var s := head + RenderSteps(steps);
    StepsEnds(steps);
    if steps.End? {
      assert s == head;
    } else {
      assert s[|head|] == RenderSteps(steps)[0];
      if IsKeyword(s) {
        KeywordIsIdent(s);
      }
    }
  }

  lemma ResolveKeyword<V>(js: Js<V>, vals: V, src: string, e: Tree)
    requires (e.True? || e.False? || e.Null? || e.Undefined?) && Trim(src) == Render(e)
    requires FirstEquality(Render(e), 0).None?
    ensures Resolve(js, vals, src) == Eval(js, vals, e)
  {
  }

  lemma ResolveOfEqual<V>(js: Js<V>, vals: V, src: string, e: Tree)
    requires WellFormed(e) && e.Equal? && Trim(src) == Render(e)
    ensures Resolve(js, vals, src)
            == js.Compare(e.op,
                          Resolve(js, vals, Render(e.left) + e.gap1),
                          Resolve(js, vals, e.gap2 + Render(e.right)))
  {
    hide Resolve, FirstEquality, OpAt, OpLength, Render, ParensWrapWhole, WellFormed;
    Ends(e);
    EqualIsNotWhole(e);
    EqualIsFound(e);
    EqualIsSplit(e);
    ResolveEquality(js, vals, src, |Render(e.left)| + |e.gap1|);
  }

  lemma ResolveOfGroup<V>(js: Js<V>, vals: V, src: string, e: Tree)
    requires WellFormed(e) && e.Group? && Trim(src) == Render(e)
    ensures Resolve(js, vals, src) == Resolve(js, vals, e.gap1 + Render(e.inner) + e.gap2)
  {
    hide Resolve, ParensWrapWhole, Balanced;
    var x := e.gap1 + Render(e.inner) + e.gap2;
    RenderBalanced(Parens, e.inner);
    SpacedBalanced(Parens, e.gap1, Render(e.inner), e.gap2);
    GroupIsWhole(x);
    ResolveWhole(js, vals, src, x);
  }

  /** The main theorem: `resolve` of a well-formed expression, printed with any layout and padded
      with any white space, is the value of its tree. */
  lemma {:induction false} ResolveRender<V>(js: Js<V>, vals: V, a: string, e: Tree, b: string)
    requires WellFormed(e) && AllSpace(a) && AllSpace(b)
    ensures Resolve(js, vals, a + Render(e) + b) == Eval(js, vals, e)
    decreases e, 1
  {
    hide Resolve, Eval, Render, WellFormed;
    Ends(e);
    TrimOfPadded(a, Render(e), b);
    ResolveTree(js, vals, a + Render(e) + b, e);
  }

  lemma {:induction false} ResolveTree<V>(js: Js<V>, vals: V, src: string, e: Tree)
    requires WellFormed(e) && Trim(src) == Render(e)
    ensures Resolve(js, vals, src) == Eval(js, vals, e)
    decreases e, 0
  {
    hide Resolve, ResolvePath, Trim, IsIdent, IsNumeral, IsSafeText;
    match e
    case Equal(left, gap1, _, gap2, right) =>
      ResolveRender(js, vals, "", left, gap1);
      ResolveRender(js, vals, gap2, right, "");
      EqualFromParts(js, vals, src, e);
    case Group(gap1, inner, gap2) =>
      ResolveOfGroup(js, vals, src, e);
      ResolveRender(js, vals, gap1, inner, gap2);
    case Not(gap, arg) =>
      ResolveOfNot(js, vals, src, e);
      ResolveRender(js, vals, gap, arg, "");
      assert gap + Render(arg) + "" == gap + Render(arg);
    case Path(_, _) =>
      ResolveOfPath(js, vals, src, e);
      PathRender(js, vals, e);
    case _ =>
      ResolveOfLiteral(js, vals, src, e);
  }

  lemma EqualFromParts<V>(js: Js<V>, vals: V, src: string, e: Tree)
    requires WellFormed(e) && e.Equal? && Trim(src) == Render(e)
    requires Resolve(js, vals, "" + Render(e.left) + e.gap1) == Eval(js, vals, e.left)
    requires Resolve(js, vals, e.gap2 + Render(e.right) + "") == Eval(js, vals, e.right)
    ensures Resolve(js, vals, src) == Eval(js, vals, e)
  {
    hide Resolve, Render, WellFormed;
    assert "" + Render(e.left) + e.gap1 == Render(e.left) + e.gap1;
    assert e.gap2 + Render(e.right) + "" == e.gap2 + Render(e.right);
    ResolveOfEqual(js, vals, src, e);
  }

  lemma ResolveOfNot<V>(js: Js<V>, vals: V, src: string, e: Tree)
    requires WellFormed(e) && e.Not? && Trim(src) == Render(e)
    ensures Resolve(js, vals, src) == js.ofBool(!js.truthy(Resolve(js, vals, e.gap + Render(e.arg))))
  {
    hide Resolve;
    OperandHasNoEquality(e);
    OperandIsNotSplit(Render(e));
    ResolveNot(js, vals, src, e.gap + Render(e.arg));
  }

  lemma ResolveOfPath<V>(js: Js<V>, vals: V, src: string, e: Tree)
    requires WellFormed(e) && e.Path? && Trim(src) == Render(e)
    ensures Resolve(js, vals, src) == ResolvePath(js, vals, Render(e))
  {
    hide Resolve, ResolvePath;
    OperandHasNoEquality(e);
    OperandIsNotSplit(Render(e));
    Ends(e);
    PathIsNotKeyword(e.head, e.steps);
    assert Render(e)[0] == e.head[0];
    ResolveAsPath(js, vals, src);
  }

  lemma ResolveOfLiteral<V>(js: Js<V>, vals: V, src: string, e: Tree)
    requires WellFormed(e) && Trim(src) == Render(e)
    requires e.Number? || e.Str? || e.True? || e.False? || e.Null? || e.Undefined?
    ensures Resolve(js, vals, src) == Eval(js, vals, e)
  {
    hide Resolve;
    OperandHasNoEquality(e);
    OperandIsNotSplit(Render(e));
    match e
    case Number(text) =>
      NumbersAreNumerals(text);
      ResolveNumber(js, vals, src);
    case Str(quote, text) => ResolveString(js, vals, src, quote, text);
    case _ => ResolveKeyword(js, vals, src, e);
  }

  lemma {:induction false} PathRender<V>(js: Js<V>, vals: V, e: Tree)
    requires WellFormed(e) && e.Path?
    ensures ResolvePath(js, vals, Render(e)) == Eval(js, vals, e)
    decreases e.steps, 1
  {
    var s, t := Render(e), RenderSteps(e.steps);
    StepsEnds(e.steps);
    IdentPartsOf(e.head, t);
    assert s[..|e.head|] == e.head && s[|e.head|..] == t;
    StepsRender(js, vals, js.Get(vals, js.ofString(e.head)), e.steps);
  }

  lemma {:induction false} StepsRender<V>(js: Js<V>, vals: V, cur: V, st: Steps)
    requires WellFormedSteps(st)
    ensures ResolveSteps(js, vals, cur, RenderSteps(st)) == EvalSteps(js, vals, cur, st)
    decreases st, 0
  {
    match st
    case End =>
    case Dot(name, rest) =>
      NameStep(js, vals, cur, name, rest);
      StepsRender(js, vals, js.Get(cur, js.ofString(name)), rest);
    case Digits(digits, rest) =>
      NameStep(js, vals, cur, digits, rest);
      StepsRender(js, vals, js.Get(cur, js.ofString(digits)), rest);
    case Index(gap1, key, gap2, rest) =>
      var x := gap1 + Render(key) + gap2;
      RenderBalanced(Squares, key);
      SpacedBalanced(Squares, gap1, Render(key), gap2);
      IndexStep(js, vals, cur, x, RenderSteps(rest));
      ResolveRender(js, vals, gap1, key, gap2);
      StepsRender(js, vals, js.Get(cur, Eval(js, vals, key)), rest);
  }

  lemma NameIsRead(name: string, rest: Steps)
    requires (IsIdent(name) || IsDigits(name)) && WellFormedSteps(rest)
    ensures NameLength(name + RenderSteps(rest)) == |name|
  {
    var t := RenderSteps(rest);
    StepsEnds(rest);
    assert (name + t)[0] == name[0];
    if IsIdent(name) {
      IdentPartsOf(name, t);
    } else {
      DigitsOf(name, t);
    }
  }

  lemma NameStep<V>(js: Js<V>, vals: V, cur: V, name: string, rest: Steps)
    requires (IsIdent(name) || IsDigits(name)) && WellFormedSteps(rest)
    ensures ResolveSteps(js, vals, cur, ("." + name) + RenderSteps(rest))
            == ResolveSteps(js, vals, js.Get(cur, js.ofString(name)), RenderSteps(rest))
  {
    hide NameLength, RenderSteps, Resolve;
    NameIsRead(name, rest);
    DotStep(js, vals, cur, name, RenderSteps(rest));
  }

  lemma DotStep<V>(js: Js<V>, vals: V, cur: V, name: string, t: string)
    requires name != "" && NameLength(name + t) == |name|
    ensures ResolveSteps(js, vals, cur, ("." + name) + t)
            == ResolveSteps(js, vals, js.Get(cur, js.ofString(name)), t)
  {
    hide NameLength, Resolve, FirstClose;
    var s := ("." + name) + t;
    assert s[1..] == name + t;
    assert s[1..|name| + 1] == name && s[|name| + 1..] == t;
  }

  lemma CloseIsFound(x: string, t: string, from: nat)
    requires Balanced(Squares, x) && from <= |x|
    ensures FirstClose(x + "]" + t, from) == Some(|x|)
    decreases |x| - from
  {
    var s := x + "]" + t;
    if from == |x| {
      assert s[..|x|] == x;
    } else {
      assert s[..from] == x[..from];
      assert x[..from + 1][..from] == x[..from];
      assert Depth(Squares, x[..from + 1]) >= 0;
      CloseIsFound(x, t, from + 1);
    }
  }

  lemma IndexStep<V>(js: Js<V>, vals: V, cur: V, x: string, t: string)
    requires Balanced(Squares, x)
    ensures ResolveSteps(js, vals, cur, Wrap('[', x, ']') + t)
            == ResolveSteps(js, vals, js.Get(cur, Resolve(js, vals, x)), t)
  {
    var s := Wrap('[', x, ']') + t;
    assert s[1..] == x + "]" + t;
    CloseIsFound(x, t, 0);
    assert s[1..|x| + 1] == x && s[|x| + 2..] == t;
  }

  // ------------------------------------------------------------------ the theorem, operator by operator

  /** A comparison as it is written. */
  function Comparison(left: Tree, gap1: string, op: string, gap2: string, right: Tree): string {
    (Render(left) + gap1) + (op + (gap2 + Render(right)))
  }

  lemma OperatorMeans<V>(js: Js<V>, vals: V, left: Tree, gap1: string, op: Op, gap2: string, right: Tree)
    requires WellFormed(left) && !left.Equal? && WellFormed(right) && AllSpace(gap1) && AllSpace(gap2)
    ensures Resolve(js, vals, Comparison(left, gap1, OpText(op), gap2, right))
            == Operate(js, op, Eval(js, vals, left), Eval(js, vals, right))
  {
    hide Resolve, IsIdent, IsNumeral, IsSafeText;
    var e := Equal(left, gap1, op, gap2, right);
    ResolveRender(js, vals, "", e, "");
    assert "" + Render(e) + "" == Render(e);
  }

  /** Main: what the four comparisons of two expressions give, in the host language's own two equalities. */
  lemma ComparisonsMean<V>(js: Js<V>, vals: V, left: Tree, gap1: string, gap2: string, right: Tree)
    requires WellFormed(left) && !left.Equal? && WellFormed(right) && AllSpace(gap1) && AllSpace(gap2)
    ensures var l, r := Eval(js, vals, left), Eval(js, vals, right);
      && Resolve(js, vals, Comparison(left, gap1, "===", gap2, right)) == js.ofBool(js.strictEq(l, r))
      && Resolve(js, vals, Comparison(left, gap1, "!==", gap2, right)) == js.ofBool(!js.strictEq(l, r))
      && Resolve(js, vals, Comparison(left, gap1, "==", gap2, right)) == js.ofBool(js.looseEq(l, r))
      && Resolve(js, vals, Comparison(left, gap1, "!=", gap2, right)) == js.ofBool(!js.looseEq(l, r))
  {
    hide Resolve, Eval, Render, WellFormed, Comparison;
    OperatorMeans(js, vals, left, gap1, StrictEq, gap2, right);
    OperatorMeans(js, vals, left, gap1, StrictNe, gap2, right);
    OperatorMeans(js, vals, left, gap1, LooseEq, gap2, right);
    OperatorMeans(js, vals, left, gap1, LooseNe, gap2, right);
  }

  /** A name is a member of the values, a name behind a point a member of that; `null` and `undefined` have no members. */
  lemma MembersMean<V>(js: Js<V>, vals: V, head: string, name: string)
    requires IsIdent(head) && IsIdent(name)
    ensures var v := if js.nullish(vals) then js.undef else js.member(vals, js.ofString(head));
      Resolve(js, vals, head + ("." + name)) == if js.nullish(v) then js.undef else js.member(v, js.ofString(name))
  {
    hide Resolve, Eval, IsIdent;
    PathMeans(js, vals, head, name);
    EvalOfMember(js, vals, head, name);
  }

  lemma PathMeans<V>(js: Js<V>, vals: V, head: string, name: string)
    requires IsIdent(head) && IsIdent(name)
    ensures Resolve(js, vals, head + ("." + name)) == Eval(js, vals, Path(head, Dot(name, End)))
  {
    hide Resolve, Eval, IsIdent;
    var e := Path(head, Dot(name, End));
    assert WellFormedSteps(End) && RenderSteps(End) == "";
    assert WellFormedSteps(Dot(name, End)) && RenderSteps(Dot(name, End)) == "." + name;
    ResolveRender(js, vals, "", e, "");
    assert Render(e) == head + ("." + name);
    assert "" + Render(e) + "" == Render(e);
  }

  lemma EvalOfMember<V>(js: Js<V>, vals: V, head: string, name: string)
    ensures var v := if js.nullish(vals) then js.undef else js.member(vals, js.ofString(head));
      Eval(js, vals, Path(head, Dot(name, End))) == if js.nullish(v) then js.undef else js.member(v, js.ofString(name))
  {
    var v := if js.nullish(vals) then js.undef else js.member(vals, js.ofString(head));
    assert EvalSteps(js, vals, v, Dot(name, End)) == EvalSteps(js, vals, MemberOf(js, v, js.ofString(name)), End);
  }
}
