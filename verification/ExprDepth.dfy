/** Bracket depth of composed texts. */
module ExprDepth {
  import opened Text
  import opened Expr

  lemma {:induction false} DepthConcat(b: Brackets, s: string, t: string)
    ensures Depth(b, s + t) == Depth(b, s) + Depth(b, t)
  {
    if t == "" {
      assert s + t == s;
    } else {
      var n := |t| - 1;
      assert (s + t)[..|s + t| - 1] == s + t[..n];
      DepthConcat(b, s, t[..n]);
    }
  }

  /** Counting both kinds of brackets is adding the two counts. */
  lemma {:induction false} MixedDepth(s: string)
    ensures Depth(Mixed, s) == Depth(Parens, s) + Depth(Squares, s)
  {
    if s != "" {
      MixedDepth(s[..|s| - 1]);
    }
  }

  predicate Flat(b: Brackets, s: string) {
    forall i :: 0 <= i < |s| ==> Weight(b, s[i]) == 0
  }

  lemma {:induction false} FlatDepth(b: Brackets, s: string)
    requires Flat(b, s)
    ensures Depth(b, s) == 0
  {
    if s != "" {
      FlatDepth(b, s[..|s| - 1]);
    }
  }

  /** Every bracket is matched: the depth ends at zero and never goes below. */
  predicate Balanced(b: Brackets, s: string) {
    Depth(b, s) == 0 && forall i :: 0 <= i <= |s| ==> Depth(b, s[..i]) >= 0
  }

  lemma BothBalanced(b: Brackets, s: string)
    requires Balanced(Parens, s) && Balanced(Squares, s)
    ensures Balanced(b, s)
  {
    MixedDepth(s);
    forall i | 0 <= i <= |s| ensures Depth(b, s[..i]) >= 0 {
      MixedDepth(s[..i]);
    }
  }

  lemma FlatBalanced(b: Brackets, s: string)
    requires Flat(b, s)
    ensures Balanced(b, s)
  {
    forall i | 0 <= i <= |s| ensures Depth(b, s[..i]) >= 0 {
      FlatDepth(b, s[..i]);
    }
    FlatDepth(b, s);
  }

  lemma DepthInside(b: Brackets, s: string, t: string, i: nat)
    requires |s| <= i <= |s| + |t|
    ensures Depth(b, (s + t)[..i]) == Depth(b, s) + Depth(b, t[..i - |s|])
  {
    assert (s + t)[..i] == s + t[..i - |s|];
    DepthConcat(b, s, t[..i - |s|]);
  }

  lemma BalancedConcat(b: Brackets, s: string, t: string)
    requires Balanced(b, s) && Balanced(b, t)
    ensures Balanced(b, s + t)
  {
    DepthConcat(b, s, t);
    forall i | 0 <= i <= |s + t| ensures Depth(b, (s + t)[..i]) >= 0 {
      if i <= |s| {
        assert (s + t)[..i] == s[..i];
      } else {
        DepthInside(b, s, t, i);
      }
    }
  }

  /** An opening and its closing bracket, or two characters that the scan does not count. */
  predicate Pair(b: Brackets, open: char, close: char) {
    0 <= Weight(b, open) && Weight(b, close) == -Weight(b, open)
  }

  function Wrap(open: char, x: string, close: char): string {
    [open] + x + [close]
  }

  /** Inside a wrapped text the depth is one more than in the text itself. */
  lemma WrapDepth(b: Brackets, open: char, x: string, close: char, i: nat)
    requires 1 <= i <= |x| + 1
    ensures Depth(b, Wrap(open, x, close)[..i]) == Weight(b, open) + Depth(b, x[..i - 1])
  {
    var s := Wrap(open, x, close);
    assert s[..i] == [open] + x[..i - 1];
    DepthConcat(b, [open], x[..i - 1]);
    assert [open][..0] == "";
    assert Depth(b, [open]) == Weight(b, open);
  }

  lemma BalancedWrap(b: Brackets, open: char, x: string, close: char)
    requires Balanced(b, x) && Pair(b, open, close)
    ensures Balanced(b, Wrap(open, x, close))
  {
    var s := Wrap(open, x, close);
    var n := |x| + 1;
    WrapDepth(b, open, x, close, n);
    assert s[..n] == s[..|s| - 1] && x[..n - 1] == x;
    forall i | 0 <= i <= |s| ensures Depth(b, s[..i]) >= 0 {
      if i == |s| {
        assert s[..i] == s;
      } else if i > 0 {
        WrapDepth(b, open, x, close, i);
      }
    }
  }

  lemma SpaceIsFlat(b: Brackets, s: string)
    requires AllSpace(s)
    ensures Flat(b, s)
  {
  }

  // ------------------------------------------------------------------ equality signs outside brackets

  /** Position `i` starts an equality operator outside brackets, whatever stands before it. */
  predicate EqualityShape(s: string, i: nat)
    requires i < |s|
  {
    && i + 1 < |s| && Depth(Mixed, s[..i]) == 0
    && IsEqualitySign(s[i]) && s[i + 1] == '=' && !(i > 0 && IsEqualitySign(s[i - 1]))
  }

  predicate NoEquality(s: string) {
    forall i :: 0 <= i < |s| ==> !EqualityShape(s, i)
  }

  /** No equality sign at the joint of two texts. */
  predicate JoinsCleanly(s: string, t: string) {
    s != "" && t != "" ==> !(IsEqualitySign(s[|s| - 1]) && t[0] == '=')
  }

  lemma NoEqualityConcat(s: string, t: string)
    requires NoEquality(s) && NoEquality(t) && Depth(Mixed, s) == 0 && JoinsCleanly(s, t)
    ensures NoEquality(s + t)
  {
    var u := s + t;
    forall i | 0 <= i < |u| ensures !EqualityShape(u, i) {
      if i < |s| {
        assert u[..i] == s[..i];
        assert !EqualityShape(s, i);
      } else {
        DepthInside(Mixed, s, t, i);
        assert !EqualityShape(t, i - |s|);
      }
    }
  }

  lemma NoEqualityWrap(open: char, x: string, close: char)
    requires Balanced(Mixed, x) && Weight(Mixed, open) == 1
    ensures NoEquality(Wrap(open, x, close))
  {
    var s := Wrap(open, x, close);
    forall i | 0 <= i < |s| ensures !EqualityShape(s, i) {
      if i > 0 {
        WrapDepth(Mixed, open, x, close, i);
      }
    }
  }

  lemma NoEqualityWithoutSign(s: string)
    requires '=' !in s
    ensures NoEquality(s)
  {
  }
}
