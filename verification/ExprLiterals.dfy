/** Exactly which string literals the evaluator reads as written, alone and inside larger expressions. */
module ExprLiterals {
  import opened Text
  import opened Expr
  import opened ExprSyntax
  import opened ExprDepth
  import opened ExprTheorem

  function Quoted(quote: char, text: string): string {
    [quote] + text + [quote]
  }

  // ----- a literal standing alone -----

  /** The scan cuts a quoted text exactly when an operator stands outside its brackets. */
  lemma CutIffEquality(quote: char, text: string)
    requires IsQuote(quote)
    ensures FirstEquality(Quoted(quote, text), 0).None? <==> NoEquality(Quoted(quote, text))
  {
    var s := Quoted(quote, text);
    if NoEquality(s) {
      OperandIsNotSplit(s);
    } else {
      var i :| 0 <= i < |s| && EqualityShape(s, i);
      TrimOfText(s[..i], 0);
      assert IsEqualityAt(s, i);
    }
  }

  lemma CompareIsBool<V>(js: Js<V>, op: Op, l: V, r: V)
    ensures js.Compare(op, l, r) == js.ofBool(true) || js.Compare(op, l, r) == js.ofBool(false)
  {
    var b := match op
      case StrictEq => js.strictEq(l, r)
      case StrictNe => !js.strictEq(l, r)
      case LooseEq => js.looseEq(l, r)
      case LooseNe => !js.looseEq(l, r);
    assert js.Compare(op, l, r) == js.ofBool(b);
    assert b == true || b == false;
  }

  /** A text cut in two gives a boolean, quoted or not. */
  lemma CutIsBoolean<V>(js: Js<V>, vals: V, s: string)
    requires s != "" && Trim(s) == s && FirstEquality(s, 0).Some? && (s[0] == '(' ==> !ParensWrapWhole(s))
    ensures Resolve(js, vals, s) == js.ofBool(true) || Resolve(js, vals, s) == js.ofBool(false)
  {
    hide Resolve, OpAt, OpLength, ParensWrapWhole, Trim;
    var i := FirstEquality(s, 0).value;
    ResolveEquality(js, vals, s, i);
    CompareIsBool(js, OpAt(s, i), Resolve(js, vals, s[..i]), Resolve(js, vals, s[i + OpLength(s, i)..]));
  }

  /** Main: where strings are no booleans, a quoted text standing alone is read as that text if and only if no equality
      operator stands outside its brackets. */
  lemma QuotedText<V>(js: Js<V>, vals: V, quote: char, text: string)
    requires IsQuote(quote)
    requires js.ofBool(true) != js.ofString(text) && js.ofBool(false) != js.ofString(text)
    ensures Resolve(js, vals, Quoted(quote, text)) == js.ofString(text) <==> NoEquality(Quoted(quote, text))
  {
    var s := Quoted(quote, text);
    CutIffEquality(quote, text);
    TrimOfTrimmed(s);
    hide Resolve, NoEquality, FirstEquality, Trim;
    if FirstEquality(s, 0).None? {
      ResolveString(js, vals, s, quote, text);
    } else {
      CutIsBoolean(js, vals, s);
    }
  }

  // ----- a literal inside a larger expression -----

  /** Values that record how they were computed: two computations agree only if they are the same. */
  datatype Term =
    | UndefTerm
    | NullTerm
    | BoolTerm(b: bool)
    | NumberTerm(digits: string)
    | TextTerm(text: string)
    | Root
    | Member(base: Term, key: Term)

  const TERMS: Js<Term> := Js(
    UndefTerm, NullTerm, b => BoolTerm(b), s => NumberTerm(s), s => TextTerm(s),
    (v: Term) => v != UndefTerm && v != NullTerm, (v: Term) => v == UndefTerm || v == NullTerm,
    (v, k) => Member(v, k), (v: Term, w: Term) => v == w, (v: Term, w: Term) => v == w)

  /** The evaluator gives the expression its meaning. */
  predicate Reads(e: Tree) {
    Resolve(TERMS, Root, Render(e)) == Eval(TERMS, Root, e)
  }

  /** The literal compared, in parentheses, and as a key. */
  function Compared(lit: Tree): Tree { Equal(lit, "", LooseEq, "", Path("x", End)) }

  function Grouped(lit: Tree): Tree { Group("", lit, "") }

  function Keyed(lit: Tree): Tree { Path("x", Index("", lit, "", End)) }

  lemma ElseIsPath<V>(js: Js<V>, vals: V, src: string)
    requires var s := Trim(src);
      && s != "" && FirstEquality(s, 0).None?
      && (s[0] == '(' ==> !ParensWrapWhole(s))
      && s[0] != '!' && !IsKeyword(s) && !IsNumber(s) && !(IsQuote(s[0]) && |s| >= 2 && s[|s| - 1] == s[0])
    ensures Resolve(js, vals, src) == ResolvePath(js, vals, Trim(src))
  {
  }

  /** A text that is no composed form, keyword, number or quoted text, and begins with no identifier, has no value. */
  lemma NothingIsUndef(s: string)
    requires s != "" && Trim(s) == s && FirstEquality(s, 0).None?
    requires s[0] == '(' ==> !ParensWrapWhole(s)
    requires s[0] == '(' || (IsQuote(s[0]) && (|s| == 1 || s[|s| - 1] != s[0]))
    ensures Resolve(TERMS, Root, s) == UndefTerm
  {
    hide Resolve, ParensWrapWhole, FirstEquality, Trim;
    NoNumberNoWord(s);
    hide IsNumber, IsKeyword, IdentLength;
    ElseIsPath(TERMS, Root, s);
  }

  lemma NoNumberNoWord(s: string)
    requires s != "" && (s[0] == '(' || IsQuote(s[0]))
    ensures !IsNumber(s) && !IsKeyword(s) && IdentLength(s) == 0
  {
    if IsNumber(s) {
      NumberChars(s);
    }
  }

  // ----- the four places a literal can stand -----

  lemma QuotedDepth(b: Brackets, quote: char, text: string, i: nat)
    requires IsQuote(quote) && i <= |text|
    ensures Depth(b, Quoted(quote, text)[..i + 1]) == Depth(b, text[..i])
  {
    WrapDepth(b, quote, text, quote, i + 1);
  }

  lemma QuotedTotal(b: Brackets, quote: char, text: string)
    requires IsQuote(quote)
    ensures Depth(b, Quoted(quote, text)) == Depth(b, text)
  {
    var s := Quoted(quote, text);
    QuotedDepth(b, quote, text, |text|);
    assert s[..|text| + 1] == s[..|s| - 1] && text[..|text|] == text;
  }

  lemma OperatorNotSeen(quote: char, text: string)
    requires IsQuote(quote) && NoEquality(Quoted(quote, text)) && Depth(Mixed, text) != 0
    ensures FirstEquality(Quoted(quote, text) + "==x", 0).None?
  {
    var lit, s := Quoted(quote, text), Quoted(quote, text) + "==x";
    forall i | 0 <= i < |s| ensures !IsEqualityAt(s, i) {
      if i < |lit| {
        assert s[..i] == lit[..i];
        assert !EqualityShape(lit, i);
      } else if i == |lit| {
        assert s[..i] == lit;
        QuotedTotal(Mixed, quote, text);
      }
    }
  }

  lemma RenderCompared(lit: Tree)
    ensures Render(Compared(lit)) == Render(lit) + "==x"
  {
    assert Render(Path("x", End)) == "x" + "";
    assert (Render(lit) + "") + ("==" + ("" + ("x" + ""))) == Render(lit) + "==x";
  }

  /** Compared: when the brackets do not come out even, the operator behind the literal is not seen. */
  lemma UnevenIsMisread(quote: char, text: string)
    requires IsQuote(quote) && NoEquality(Quoted(quote, text)) && Depth(Mixed, text) != 0
    ensures !Reads(Compared(Str(quote, text)))
  {
    var s := Quoted(quote, text) + "==x";
    RenderCompared(Str(quote, text));
    OperatorNotSeen(quote, text);
    TrimOfTrimmed(s);
    hide Resolve, FirstEquality, Depth, NoEquality, Trim, ParensWrapWhole;
    NothingIsUndef(s);
  }

  /** Where a text first closes a bracket that it did not open. */
  lemma {:induction false} FirstDip(b: Brackets, s: string, i: nat) returns (j: nat)
    requires i <= |s| && Depth(b, s[..i]) < 0
    ensures j < |s| && Depth(b, s[..j]) == 0 && Weight(b, s[j]) == -1
    decreases i
  {
    assert i > 0;
    assert s[..i][..i - 1] == s[..i - 1] && s[..i][i - 1] == s[i - 1];
    if Depth(b, s[..i - 1]) < 0 {
      j := FirstDip(b, s, i - 1);
    } else {
      j := i - 1;
    }
  }

  lemma GroupIsNotWhole(quote: char, text: string, j: nat)
    requires IsQuote(quote) && j < |text| && text[j] == ')' && Depth(Parens, text[..j]) == 0
    ensures !ParensWrapWhole(Wrap('(', Quoted(quote, text), ')'))
  {
    var lit := Quoted(quote, text);
    var s := Wrap('(', lit, ')');
    assert text[..j + 1][..j] == text[..j] && text[..j + 1][j] == ')';
    QuotedDepth(Parens, quote, text, j + 1);
    WrapDepth(Parens, '(', lit, ')', j + 3);
    assert s[j + 2] == ')' && Depth(Parens, s[..j + 2 + 1]) == 0;
  }

  /** An opening parenthesis that does not wrap the whole gives no string. */
  lemma BrokenGroup(s: string)
    requires s != "" && s[0] == '(' && Trim(s) == s && !ParensWrapWhole(s)
    ensures !Resolve(TERMS, Root, s).TextTerm?
  {
    hide Resolve, FirstEquality, Trim, ParensWrapWhole;
    if FirstEquality(s, 0).None? {
      NothingIsUndef(s);
    } else {
      CutIsBoolean(TERMS, Root, s);
    }
  }

  lemma RenderGrouped(lit: Tree)
    ensures Render(Grouped(lit)) == Wrap('(', Render(lit), ')')
    ensures Eval(TERMS, Root, Grouped(lit)) == Eval(TERMS, Root, lit)
  {
    assert "" + Render(lit) + "" == Render(lit);
  }

  /** In parentheses: a closing parenthesis of its own ends the group too early. */
  lemma DipIsNotGrouped(quote: char, text: string, j: nat)
    requires IsQuote(quote) && j < |text| && text[j] == ')' && Depth(Parens, text[..j]) == 0
    ensures !Reads(Grouped(Str(quote, text)))
  {
    var s := Wrap('(', Quoted(quote, text), ')');
    RenderGrouped(Str(quote, text));
    GroupIsNotWhole(quote, text, j);
    TrimOfTrimmed(s);
    hide Resolve, Depth, Trim, ParensWrapWhole, Grouped;
    BrokenGroup(s);
  }

  function Size(t: Term): nat {
    match t
    case Member(base, key) => 1 + Size(base) + Size(key)
    case _ => 1
  }

  lemma IndexClosesAt(cur: Term, s: string, k: nat)
    requires cur.Member? && s != "" && s[0] == '[' && FirstClose(s[1..], 0) == Some(k)
    ensures k + 2 <= |s|
    ensures ResolveSteps(TERMS, Root, cur, s) ==
      ResolveSteps(TERMS, Root, Member(cur, Resolve(TERMS, Root, s[1..k + 1])), s[k + 2..])
  {
    hide Resolve;
  }

  lemma DotGoesOn(cur: Term, s: string, n: nat)
    requires cur.Member? && s != "" && s[0] == '.' && n == NameLength(s[1..]) > 0
    ensures n + 1 <= |s|
    ensures ResolveSteps(TERMS, Root, cur, s) ==
      ResolveSteps(TERMS, Root, Member(cur, TextTerm(s[1..n + 1])), s[n + 1..])
  {
    hide Resolve, NameLength, FirstClose;
  }

  lemma StepsStop(cur: Term, s: string)
    requires s == "" || (s[0] == '.' && NameLength(s[1..]) == 0) || (s[0] == '[' && FirstClose(s[1..], 0).None?) ||
      (s[0] != '.' && s[0] != '[')
    ensures ResolveSteps(TERMS, Root, cur, s) == if s == "" then cur else UndefTerm
  {
    hide Resolve, NameLength, FirstClose;
  }

  /** More steps make a larger term, or none. */
  lemma {:induction false} StepsGrow(cur: Term, rest: string)
    requires cur.Member?
    ensures var r := ResolveSteps(TERMS, Root, cur, rest);
      r == UndefTerm || Size(r) > Size(cur) || (rest == "" && r == cur)
    decreases |rest|
  {
    hide Resolve, ResolveSteps, FirstClose, NameLength;
    if rest != "" && rest[0] == '.' && NameLength(rest[1..]) > 0 {
      var n := NameLength(rest[1..]);
      DotGoesOn(cur, rest, n);
      StepsGrow(Member(cur, TextTerm(rest[1..n + 1])), rest[n + 1..]);
    } else if rest != "" && rest[0] == '[' && FirstClose(rest[1..], 0).Some? {
      var j := FirstClose(rest[1..], 0).value;
      IndexClosesAt(cur, rest, j);
      StepsGrow(Member(cur, Resolve(TERMS, Root, rest[1..j + 1])), rest[j + 2..]);
    } else {
      StepsStop(cur, rest);
    }
  }

  lemma ClosesEarly(quote: char, text: string, j: nat)
    requires IsQuote(quote) && j < |text| && text[j] == ']' && Depth(Squares, text[..j]) == 0
    ensures var k := FirstClose(Quoted(quote, text) + "]", 0); k.Some? && k.value <= j + 1
  {
    var lit := Quoted(quote, text);
    var inner := lit + "]";
    assert inner[..j + 1] == lit[..j + 1];
    QuotedDepth(Squares, quote, text, j);
    assert IsCloseAt(inner, j + 1);
  }

  /** As a key: a closing bracket of its own ends the key too early. */
  lemma EarlyClose(quote: char, text: string, j: nat)
    requires IsQuote(quote) && j < |text| && text[j] == ']' && Depth(Squares, text[..j]) == 0
    ensures var s := "[" + Quoted(quote, text) + "]";
      ResolveSteps(TERMS, Root, Member(Root, TextTerm("x")), s) !=
        Member(Member(Root, TextTerm("x")), TextTerm(text))
  {
    hide Resolve, ResolveSteps, FirstClose, Depth;
    var s, cur := "[" + Quoted(quote, text) + "]", Member(Root, TextTerm("x"));
    assert s[1..] == Quoted(quote, text) + "]";
    ClosesEarly(quote, text, j);
    var k := FirstClose(s[1..], 0).value;
    IndexClosesAt(cur, s, k);
    StepsGrow(Member(cur, Resolve(TERMS, Root, s[1..k + 1])), s[k + 2..]);
  }

  lemma RenderKeyed(lit: Tree)
    ensures Render(Keyed(lit)) == "x" + ("[" + Render(lit) + "]")
  {
    Unpadded(Render(lit));
    var inner := ['['] + ("" + Render(lit) + "") + [']'];
    assert RenderSteps(Index("", lit, "", End)) == inner + RenderSteps(End);
    assert inner + "" == "[" + Render(lit) + "]";
  }

  lemma EvalKeyed(lit: Tree)
    ensures Eval(TERMS, Root, Keyed(lit)) == Member(Member(Root, TextTerm("x")), Eval(TERMS, Root, lit))
  {
    var x := Member(Root, TextTerm("x"));
    assert EvalSteps(TERMS, Root, x, Index("", lit, "", End)) ==
      EvalSteps(TERMS, Root, Member(x, Eval(TERMS, Root, lit)), End);
  }

  /** A path from `x` is the walk over its steps, unless it is cut in two. */
  lemma PathFromX(steps: string)
    requires steps != "" && steps[0] == '[' && Trimmed("x" + steps)
    ensures var r := Resolve(TERMS, Root, "x" + steps);
      r.BoolTerm? || r == ResolveSteps(TERMS, Root, Member(Root, TextTerm("x")), steps)
  {
    var s := "x" + steps;
    TrimOfTrimmed(s);
    assert s[..1] == "x" && s[1..] == steps;
    IdentPartsOf("x", steps);
    assert s[0] == 'x' && s[1] == '[';
    assert !IsKeyword(s);
    hide Resolve, ResolveSteps, FirstEquality, Trim, IsKeyword, IdentParts;
    if FirstEquality(s, 0).None? {
      ResolveAsPath(TERMS, Root, s);
    } else {
      CutIsBoolean(TERMS, Root, s);
    }
  }

  lemma DipIsNoKey(quote: char, text: string, j: nat)
    requires IsQuote(quote) && j < |text| && text[j] == ']' && Depth(Squares, text[..j]) == 0
    ensures !Reads(Keyed(Str(quote, text)))
  {
    RenderKeyed(Str(quote, text));
    EvalKeyed(Str(quote, text));
    EarlyClose(quote, text, j);
    hide Resolve, ResolveSteps, Depth, Keyed;
    PathFromX("[" + Quoted(quote, text) + "]");
  }

  /** Every way not to be safe is misread in one of the four places. */
  lemma UnsafeIsMisread(quote: char, text: string)
    requires IsQuote(quote) && !IsSafeText(quote, text)
    ensures var lit := Str(quote, text);
      !Reads(lit) || !Reads(Compared(lit)) || !Reads(Grouped(lit)) || !Reads(Keyed(lit))
  {
    hide Reads, NoEquality;
    if !NoEquality(Quoted(quote, text)) {
      AloneIsMisread(quote, text);
    } else if Depth(Mixed, text) != 0 {
      UnevenIsMisread(quote, text);
    } else {
      MixedDepth(text);
      assert text[..|text|] == text;
      if i :| 0 <= i <= |text| && Depth(Parens, text[..i]) < 0 {
        var j := FirstDip(Parens, text, i);
        DipIsNotGrouped(quote, text, j);
      } else {
        var i :| 0 <= i <= |text| && Depth(Squares, text[..i]) < 0;
        var j := FirstDip(Squares, text, i);
        DipIsNoKey(quote, text, j);
      }
    }
  }

  lemma AloneIsMisread(quote: char, text: string)
    requires IsQuote(quote) && !NoEquality(Quoted(quote, text))
    ensures !Reads(Str(quote, text))
  {
    hide Resolve, NoEquality;
    QuotedText(TERMS, Root, quote, text);
  }

  lemma PlacesAreWellFormed(quote: char, text: string)
    requires IsQuote(quote) && IsSafeText(quote, text)
    ensures var lit := Str(quote, text);
      WellFormed(lit) && WellFormed(Compared(lit)) && WellFormed(Grouped(lit)) && WellFormed(Keyed(lit))
  {
    hide IsSafeText;
    var lit := Str(quote, text);
    assert WellFormed(Path("x", End));
    assert WellFormedSteps(Index("", lit, "", End));
  }

  lemma SafeIsRead(quote: char, text: string)
    requires IsQuote(quote) && IsSafeText(quote, text)
    ensures var lit := Str(quote, text);
      Reads(lit) && Reads(Compared(lit)) && Reads(Grouped(lit)) && Reads(Keyed(lit))
  {
    PlacesAreWellFormed(quote, text);
    hide Reads, IsSafeText, WellFormed, Compared, Grouped, Keyed;
    var lit := Str(quote, text);
    ReadsWellFormed(lit);
    ReadsWellFormed(Compared(lit));
    ReadsWellFormed(Grouped(lit));
    ReadsWellFormed(Keyed(lit));
  }

  lemma ReadsWellFormed(e: Tree)
    requires WellFormed(e)
    ensures Reads(e)
  {
    hide Resolve, Eval, Render, WellFormed;
    ResolveRender(TERMS, Root, "", e, "");
    Unpadded(Render(e));
  }

  lemma Unpadded(s: string)
    ensures "" + s + "" == s
  {
  }

  /** Main: a literal is read as written wherever it can stand if and only if it is safe: alone, compared, in parentheses
      and as a key are enough to tell. */
  lemma SafeLiteralIff(quote: char, text: string)
    requires IsQuote(quote)
    ensures var lit := Str(quote, text);
      IsSafeText(quote, text) <==> Reads(lit) && Reads(Compared(lit)) && Reads(Grouped(lit)) && Reads(Keyed(lit))
  {
    hide Reads, IsSafeText;
    if IsSafeText(quote, text) {
      SafeIsRead(quote, text);
    } else {
      UnsafeIsMisread(quote, text);
    }
  }

  // ----- witnesses -----

  lemma LoneQuote<V>(js: Js<V>, vals: V)
    ensures Resolve(js, vals, "'") == js.undef
  {
    TrimOfTrimmed("'");
    assert IdentLength("'") == 0;
  }

  /** A quoted pair of equals signs is no string even alone: it compares `undefined` with itself. */
  lemma QuotedEqualsIsCompared<V>(js: Js<V>, vals: V)
    ensures Resolve(js, vals, "'=='") == js.ofBool(js.looseEq(js.undef, js.undef))
  {
    var s := "'=='";
    assert s[..1] == "'" && s[3..] == "'";
    TrimOfText("'", 0);
    TrimOfTrimmed(s);
    EqualityAfter("'", "=='", 1);
    assert s == "'" + "=='";
    assert !IsEqualityAt(s, 0);
    hide Resolve, FirstEquality, IsEqualityAt, Trim;
    FirstEqualityIs(s, 1, 0);
    ResolveEquality(js, vals, s, 1);
    LoneQuote(js, vals);
  }

  /** A quoted parenthesis is a string alone, but not when it is compared. */
  lemma QuotedParenIsReadOnlyAlone()
    ensures Reads(Str('\'', ")")) && !Reads(Compared(Str('\'', ")")))
  {
    var s := Quoted('\'', ")");
    NoEqualityWithoutSign(s);
    QuotedText(TERMS, Root, '\'', ")");
    assert Depth(Mixed, ")") == -1 by {
      assert ")"[..0] == "";
    }
    UnevenIsMisread('\'', ")");
  }
}
