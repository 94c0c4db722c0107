/** `importantify`: every top-level declaration of a block is made `!important`. */
module CssImportant {
  import opened Text
  import opened CssLexer

  // ------------------------------------------------------------------ splitting at top-level semicolons

  /** Bracket depth after the first token; a closing bracket never goes below zero. */
  function DepthAfter(m: Mode, d: nat, s: string): nat
    requires s != ""
  {
    if KindOf(m, s) != Plain then d
    else if s[0] == '(' then d + 1
    else if s[0] == ')' && d > 0 then d - 1
    else d
  }

  predicate IsCut(m: Mode, d: nat, s: string)
    requires s != ""
  {
    KindOf(m, s) == Plain && d == 0 && s[0] == ';'
  }

  /** Position of the first top-level semicolon, or the length of the text. */
  function CutAt(m: Mode, d: nat, s: string): (k: nat)
    ensures k <= |s|
    ensures k < |s| ==> s[k] == ';'
    decreases |s|
  {
    if s == "" || IsCut(m, d, s) then 0
    else
      var n := Length(m, s);
      n + CutAt(After(m, s), DepthAfter(m, d, s), s[n..])
  }

  /** The raw declarations: the pieces between top-level semicolons. */
  function Pieces(s: string): (ps: seq<string>)
    ensures ps != []
    decreases |s|
  {
    var k := CutAt(START, 0, s);
    if k == |s| then [s] else [s[..k]] + Pieces(s[k + 1..])
  }

  // ------------------------------------------------------------------ the declarations of a block

  function Lower(c: char): char {
    if 'A' <= c <= 'Z' then c + 32 as char else c
  }

  function LowerAll(s: string): string {
    seq(|s|, i requires 0 <= i < |s| => Lower(s[i]))
  }

  /** Ends in an exclamation mark, optional white space and the word `important` in any case. */
  predicate EndsImportant(d: string) {
    && |d| >= 9
    && LowerAll(d[|d| - 9..]) == "important"
    && var head := TrimEnd(d[..|d| - 9]);
    head != "" && head[|head| - 1] == '!'
  }

  const MARK := " !important"

  function Finish(d: string): string {
    if EndsImportant(d) then d else d + MARK
  }

  /** Trim every piece, drop the empty ones, mark the others. */
  function Finished(ps: seq<string>): seq<string> {
    if ps == [] then []
    else
      var d := Trim(ps[0]);
      (if d == "" then [] else [Finish(d)]) + Finished(ps[1..])
  }

  function Declarations(css: string): seq<string> {
    Finished(Pieces(Strip(START, css)))
  }

  function Join(ds: seq<string>): string {
    if ds == [] then ""
    else if |ds| == 1 then ds[0]
    else ds[0] + ";" + Join(ds[1..])
  }

  function Importantify(css: string): string {
    Join(Declarations(css))
  }

  /** Splitting loses nothing: the pieces, with their semicolons, are the text. */
  lemma {:induction false} SplittingLosesNothing(s: string)
    ensures Join(Pieces(s)) == s
    decreases |s|
  {
    var k := CutAt(START, 0, s);
    if k < |s| {
      hide CutAt;
      var ps := Pieces(s[k + 1..]);
      SplittingLosesNothing(s[k + 1..]);
      assert ([s[..k]] + ps)[1..] == ps;
      assert s[..k] + [s[k]] + s[k + 1..] == s;
    }
  }

  // ------------------------------------------------------------------ marking

  lemma MarkIsImportant(d: string)
    ensures EndsImportant(d + MARK)
  {
    var x := d + MARK;
    assert x[|x| - 9..] == "important";
    assert x[..|x| - 9] == d + " !";
  }

  lemma FinishTrimmed(d: string)
    requires Trimmed(d) && d != ""
    ensures Trimmed(Finish(d)) && Finish(d) != ""
    ensures EndsImportant(Finish(d)) && Finish(Finish(d)) == Finish(d)
  {
    if !EndsImportant(d) {
      MarkIsImportant(d);
      assert Finish(d)[0] == d[0];
    }
  }

  // ------------------------------------------------------------------ running over a piece

  /** What the splitting scan meets in a piece: a comment or a top-level semicolon (`Broken`), an
      unterminated quote, url or escape (`Dangling`), or a clean end at some depth. */
  datatype Outcome = Broken | Dangling | Done(depth: nat)

  function Run(m: Mode, d: nat, s: string): Outcome
    decreases |s|
  {
    if s == "" then (if m.Outside? then Done(d) else Dangling)
    else if KindOf(m, s) == Comment || IsCut(m, d, s) then Broken
    else if KindOf(m, s) == Url && !UrlCloses(s) then Dangling
    else Run(After(m, s), DepthAfter(m, d, s), s[Length(m, s)..])
  }

  /** A piece that later text cannot change: it ends outside quotes and brackets. */
  predicate Closed(s: string) {
    Run(START, 0, s) == Done(0)
  }

  /** A piece that is one declaration, possibly unterminated. */
  predicate Single(s: string) {
    Run(START, 0, s) != Broken
  }

  // ------------------------------------------------------------------ a token and the text after it

  /** Characters that neither open, close nor cut anything. */
  predicate IsBland(c: char) {
    !IsQuote(c) && c != ';' && c != '(' && c != ')' && c != '/' && c != 'u' && c != 'U' && c != '\\'
  }

  predicate Bland(s: string) {
    forall i :: 0 <= i < |s| ==> IsBland(s[i])
  }

  /** White space, or a semicolon and anything. */
  predicate Boundary(b: string) {
    b != "" && b[0] != ';' ==> AllSpace(b)
  }

  lemma PlainStable(word: bool, a: string, b: string)
    requires a != "" && (b != "" ==> b[0] == ';' || b[0] == ' ')
    requires !IsCommentHead(a) && !IsUrl(word, a)
    ensures !IsCommentHead(a + b) && !IsUrl(word, a + b)
  {
    assert b != "" ==> (a + b)[|a|] == b[0];
    if !word && IsUrlHead(a + b) {
      UrlHeadInside(a, b);
      QuotedUrlStable(a, b);
    }
  }

  /** The first token of `a` is also the first token of `a + b`. */
  predicate SameFirst(m: Mode, a: string, b: string)
    requires a != ""
  {
    var s := a + b;
    && KindOf(m, s) == KindOf(m, a) && Length(m, s) == Length(m, a) && After(m, s) == After(m, a)
    && s[Length(m, a)..] == a[Length(m, a)..] + b
    && (KindOf(m, a) == Url ==> UrlCloses(s))
  }

  lemma QuotedFirst(m: Mode, a: string, b: string)
    requires a != "" && KindOf(m, a) == Quoted && !(m.Inside? && a == "\\")
    ensures SameFirst(m, a, b)
  {
    assert (a + b)[0] == a[0];
    assert (a + b)[Length(m, a)..] == a[Length(m, a)..] + b;
  }

  lemma UrlFirst(m: Mode, a: string, b: string)
    requires a != "" && KindOf(m, a) == Url && UrlCloses(a)
    ensures SameFirst(m, a, b)
  {
    hide LeadingSpaces, BodyCloses, BodyLength;
    assert (a + b)[0] == a[0];
    UrlStable(m.word, a, b);
    assert !IsCommentHead(a + b);
    assert (a + b)[Length(m, a)..] == a[Length(m, a)..] + b;
  }

  lemma PlainFirst(m: Mode, a: string, b: string)
    requires a != "" && KindOf(m, a) == Plain && (b != "" ==> b[0] == ';' || b[0] == ' ')
    ensures SameFirst(m, a, b)
  {
    PlainStable(m.word, a, b);
    hide IsUrl, IsCommentHead, UrlLength;
    assert (a + b)[0] == a[0];
    assert (a + b)[1..] == a[1..] + b;
  }

  /** The first token of `a`, if it is closed, is also the first token of `a` followed by text that
      begins with a semicolon or a space. */
  lemma TokenStable(m: Mode, a: string, b: string)
    requires a != "" && (b != "" ==> b[0] == ';' || b[0] == ' ')
    requires KindOf(m, a) != Comment
    requires KindOf(m, a) == Url ==> UrlCloses(a)
    requires !(m.Inside? && a == "\\")
    ensures SameFirst(m, a, b)
  {
    hide SameFirst;
    match KindOf(m, a)
    case Quoted => QuotedFirst(m, a, b);
    case Url => UrlFirst(m, a, b);
    case Plain => PlainFirst(m, a, b);
  }

  lemma UrlHeadInside(a: string, b: string)
    requires IsUrlHead(a + b) && a != ""
    requires b != "" ==> b[0] != 'r' && b[0] != 'R' && b[0] != 'l' && b[0] != 'L' && b[0] != '('
    ensures IsUrlHead(a)
  {
    assert b != "" ==> (a + b)[|a|] == b[0];
  }

  /** Conversely, the first token of the longer text is the first token of `a` when it lies in `a`. */
  lemma TokenOfPrefix(m: Mode, a: string, b: string)
    requires a != "" && Boundary(b)
    requires KindOf(m, a + b) != Comment && Length(m, a + b) <= |a|
    requires KindOf(m, a + b) == Url ==> UrlCloses(a + b)
    ensures var s := a + b;
      && KindOf(m, a) == KindOf(m, s) && Length(m, a) == Length(m, s) && After(m, a) == After(m, s)
      && a[Length(m, a)..] + b == s[Length(m, a)..]
      && (KindOf(m, a) == Url ==> UrlCloses(a))
  {
    var s := a + b;
    assert s[0] == a[0];
    if m.Outside? && !IsQuote(a[0]) {
      if IsUrl(m.word, s) {
        assert s[..|a|] == a;
        UrlPrefix(m.word, s, |a|);
      } else if !m.word && IsUrlHead(a) {
        assert IsUrlHead(s);
        QuotedUrlInside(a, b);
      }
    }
  }

  /** When the quote after `url(` is not in the boundary text, it is already there without it. */
  lemma QuotedUrlInside(a: string, b: string)
    requires IsUrlHead(a) && IsQuotedUrl(a + b) && Boundary(b)
    ensures IsQuotedUrl(a)
  {
    var s := a + b;
    assert s[4..] == a[4..] + b;
    assert UrlStart(s) < |a|;
    assert a[4..] == s[4..][..|a| - 4];
    LeadingSpacesPrefix(s[4..], |a| - 4);
  }

  // ------------------------------------------------------------------ runs and cuts

  lemma ClosedUrlIsInside(m: Mode, s: string)
    requires s != "" && KindOf(m, s) == Url && Length(m, s) < |s|
    ensures UrlCloses(s)
  {
    if !UrlCloses(s) {
      UrlEndsInBracket(s);
    }
  }

  lemma RunUnfolds(m: Mode, d: nat, s: string)
    requires s != "" && KindOf(m, s) != Comment && !IsCut(m, d, s)
    requires KindOf(m, s) == Url ==> UrlCloses(s)
    ensures Run(m, d, s) == Run(After(m, s), DepthAfter(m, d, s), s[Length(m, s)..])
  {
  }

  lemma CutIsOutside(m: Mode, d: nat, s: string)
    requires s != "" && IsCut(m, d, s)
    ensures m.Outside? && d == 0 && s[0] == ';'
  {
  }

  /** A semicolon outside quotes. */
  lemma Semicolon(m: Mode, s: string)
    requires m.Outside? && s != "" && s[0] == ';'
    ensures IsCut(m, 0, s) && CutAt(m, 0, s) == 0
    ensures NoComment(m, s) <==> NoComment(START, s[1..])
  {
  }

  /** The first token of a run that comes to a clean end. */
  lemma DonePeel(m: Mode, d: nat, a: string)
    requires a != "" && Run(m, d, a).Done?
    ensures KindOf(m, a) != Comment && !IsCut(m, d, a)
    ensures KindOf(m, a) == Url ==> UrlCloses(a)
    ensures !(m.Inside? && a == "\\")
    ensures Run(m, d, a) == Run(After(m, a), DepthAfter(m, d, a), a[Length(m, a)..])
  {
    hide DepthAfter;
  }

  /** Scanning `a` and then `b` starts with the first token of `a`. */
  lemma ScanPeel(m: Mode, d: nat, a: string, b: string)
    requires a != "" && (b != "" ==> b[0] == ';' || b[0] == ' ')
    requires KindOf(m, a) != Comment && !IsCut(m, d, a)
    requires KindOf(m, a) == Url ==> UrlCloses(a)
    requires !(m.Inside? && a == "\\")
    ensures var rest := a[Length(m, a)..] + b;
      && CutAt(m, d, a + b) == Length(m, a) + CutAt(After(m, a), DepthAfter(m, d, a), rest)
      && (NoComment(m, a + b) <==> NoComment(After(m, a), rest))
  {
    hide KindOf, Length, After;
    TokenStable(m, a, b);
    var s := a + b;
    assert DepthAfter(m, d, s) == DepthAfter(m, d, a);
    assert !IsCut(m, d, s);
  }

  /** A closed piece followed by a semicolon is cut exactly there. */
  lemma {:induction false} ClosedIsCut(m: Mode, d: nat, a: string, b: string)
    requires Run(m, d, a) == Done(0) && b != "" && b[0] == ';'
    ensures CutAt(m, d, a + b) == |a| && (NoComment(START, b[1..]) ==> NoComment(m, a + b))
    decreases |a|
  {
    hide KindOf, Length, After, NoComment, CutAt;
    if a == "" {
      assert a + b == b;
      Semicolon(m, b);
    } else {
      DonePeel(m, d, a);
      ScanPeel(m, d, a, b);
      ClosedIsCut(After(m, a), DepthAfter(m, d, a), a[Length(m, a)..], b);
    }
  }

  /** A piece without comment or top-level semicolon is not cut at all. */
  lemma {:induction false} SingleIsUncut(m: Mode, d: nat, s: string)
    requires Run(m, d, s) != Broken
    ensures CutAt(m, d, s) == |s| && NoComment(m, s)
    decreases |s|
  {
    hide After, DepthAfter;
    if s != "" {
      var n := Length(m, s);
      if KindOf(m, s) == Url && !UrlCloses(s) {
        UrlEndsInBracket(s);
        assert s[n..] == "";
      } else {
        SingleIsUncut(After(m, s), DepthAfter(m, d, s), s[n..]);
      }
    }
  }

  /** The first token of a comment-free text lies in front of its first cut. */
  lemma CutPeel(m: Mode, d: nat, s: string)
    requires s != "" && NoComment(m, s) && !IsCut(m, d, s)
    ensures KindOf(m, s) != Comment && NoComment(After(m, s), s[Length(m, s)..])
    ensures CutAt(m, d, s) == Length(m, s) + CutAt(After(m, s), DepthAfter(m, d, s), s[Length(m, s)..])
    ensures CutAt(m, d, s) < |s| && KindOf(m, s) == Url ==> UrlCloses(s)
  {
    hide KindOf, Length, After, DepthAfter;
    if KindOf(m, s) == Url && CutAt(m, d, s) < |s| {
      ClosedUrlIsInside(m, s);
    }
  }

  lemma RunPrefix(m: Mode, d: nat, a: string, b: string)
    requires a != "" && Boundary(b)
    requires KindOf(m, a + b) != Comment && !IsCut(m, d, a + b) && Length(m, a + b) <= |a|
    requires KindOf(m, a + b) == Url ==> UrlCloses(a + b)
    ensures var n := Length(m, a + b);
      Run(m, d, a) == Run(After(m, a + b), DepthAfter(m, d, a + b), a[n..])
  {
    hide KindOf, Length, After;
    TokenOfPrefix(m, a, b);
    assert (a + b)[0] == a[0];
    assert DepthAfter(m, d, a + b) == DepthAfter(m, d, a);
    assert !IsCut(m, d, a);
  }

  lemma Slices(s: string, n: nat, k: nat)
    requires n <= k <= |s|
    ensures s[..k] + s[k..] == s
    ensures s[..k][n..] == s[n..][..k - n]
    ensures s[n..][k - n..] == s[k..]
  {
  }

  lemma EmptyRun(m: Mode)
    ensures m.Outside? ==> Run(m, 0, "") == Done(0)
  {
  }

  /** The piece before a cut is closed. */
  lemma {:induction false} CutsAreClosed(m: Mode, d: nat, s: string)
    requires NoComment(m, s) && CutAt(m, d, s) < |s|
    ensures Run(m, d, s[..CutAt(m, d, s)]) == Done(0)
    decreases |s|
  {
    hide KindOf, Length, After, NoComment, DepthAfter, CutAt;
    var k := CutAt(m, d, s);
    if IsCut(m, d, s) {
      CutIsOutside(m, d, s);
      Semicolon(m, s);
      assert s[..0] == "";
      EmptyRun(m);
    } else {
      CutPeel(m, d, s);
      var n := Length(m, s);
      CutsAreClosed(After(m, s), DepthAfter(m, d, s), s[n..]);
      Slices(s, n, k);
      RunPrefix(m, d, s[..k], s[k..]);
    }
  }

  lemma {:induction false} NoCommentAfterCut(m: Mode, d: nat, s: string)
    requires NoComment(m, s) && CutAt(m, d, s) < |s|
    ensures NoComment(START, s[CutAt(m, d, s) + 1..])
    decreases |s|
  {
    hide KindOf, Length, After, DepthAfter, NoComment, CutAt;
    if IsCut(m, d, s) {
      CutIsOutside(m, d, s);
      Semicolon(m, s);
    } else {
      CutPeel(m, d, s);
      var n := Length(m, s);
      var k := CutAt(m, d, s);
      NoCommentAfterCut(After(m, s), DepthAfter(m, d, s), s[n..]);
      assert s[n..][k - n + 1..] == s[k + 1..];
    }
  }

  /** A comment-free text without cut is a single declaration. */
  lemma {:induction false} UncutIsSingle(m: Mode, d: nat, s: string)
    requires NoComment(m, s) && CutAt(m, d, s) == |s|
    ensures Run(m, d, s) != Broken
    decreases |s|
  {
    hide KindOf, Length, After, DepthAfter;
    if s != "" {
      UncutIsSingle(After(m, s), DepthAfter(m, d, s), s[Length(m, s)..]);
    }
  }

  // ------------------------------------------------------------------ changing the white space at the end

  lemma {:induction false} BlandRun(m: Mode, d: nat, s: string)
    requires Bland(s)
    requires m.Inside? ==> IsQuote(m.quote)
    ensures Run(m, d, s) == if m.Outside? then Done(d) else Dangling
    decreases |s|
  {
    if s != "" {
      assert Length(m, s) == 1;
      BlandRun(After(m, s), DepthAfter(m, d, s), s[1..]);
    }
  }

  lemma DanglingEscape(m: Mode, d: nat, b: string)
    requires m.Inside? && IsQuote(m.quote) && Bland(b)
    ensures Run(m, d, "\\" + b) == Dangling
  {
    var s := "\\" + b;
    var n := Length(m, s);
    assert After(m, s) == m;
    BlandRun(m, d, s[n..]);
  }

  lemma {:induction false} SpaceSkipsBody(s: string)
    ensures BodyCloses(s[LeadingSpaces(s)..]) == BodyCloses(s)
  {
    if s != "" && IsSpace(s[0]) {
      SpaceSkipsBody(s[1..]);
      assert s[1..][LeadingSpaces(s[1..])..] == s[LeadingSpaces(s)..];
    } else {
      assert s[0..] == s;
    }
  }

  lemma {:induction false} NeverCloses(s: string)
    requires ')' !in s
    ensures !BodyCloses(s)
  {
    if s == "" {
    } else if s[0] == '\\' && |s| >= 2 {
      NeverCloses(s[2..]);
    } else {
      NeverCloses(s[1..]);
    }
  }

  lemma {:induction false} BodyTail(a: string, b: string, c: string)
    requires ')' !in b && ')' !in c && BodyCloses(a + c)
    ensures BodyCloses(a + b)
  {
    if a == "" {
      assert a + c == c;
      NeverCloses(c);
      assert false;
    } else if a == "\\" {
      NeverCloses((a + c)[1..]);
      if c != "" {
        NeverCloses((a + c)[2..]);
      }
      assert false;
    } else if a[0] == ')' {
    } else {
      var n := if a[0] == '\\' then 2 else 1;
      assert (a + b)[n..] == a[n..] + b;
      assert (a + c)[n..] == a[n..] + c;
      BodyTail(a[n..], b, c);
    }
  }

  lemma NotQuotedTail(a: string, b: string, c: string)
    requires IsUrlHead(a) && Bland(c) && !IsQuotedUrl(a + b)
    ensures !IsQuotedUrl(a + c)
  {
    var t := a + c;
    assert t[4..] == a[4..] + c && a[4..] == t[4..][..|a| - 4];
    if IsQuotedUrl(t) {
      assert UrlStart(t) < |a|;
      LeadingSpacesPrefix(t[4..], |a| - 4);
      QuotedUrlStable(a, b);
    }
  }

  lemma UrlClosesAfterHead(s: string)
    requires IsUrlHead(s)
    ensures UrlCloses(s) == BodyCloses(s[4..])
  {
    SpaceSkipsBody(s[4..]);
    assert s[4..][UrlStart(s) - 4..] == s[UrlStart(s)..];
  }

  /** An unterminated url stays one when the white space at its end is replaced by bland text. */
  lemma OpenUrlTail(word: bool, a: string, b: string, c: string)
    requires a != "" && AllSpace(b) && Bland(c) && (c != "" ==> c[0] == ' ')
    requires IsUrl(word, a + b) && !UrlCloses(a + b)
    ensures IsUrl(word, a + c) && !UrlCloses(a + c)
  {
    UrlHeadInside(a, b);
    var s, t := a + b, a + c;
    assert s[4..] == a[4..] + b && t[4..] == a[4..] + c;
    NotQuotedTail(a, b, c);
    UrlClosesAfterHead(s);
    UrlClosesAfterHead(t);
    if UrlCloses(t) {
      BodyTail(a[4..], b, c);
    }
  }

  /** Running over `a` and then `b` starts with the first token of `a`. */
  lemma RunPeel(m: Mode, d: nat, a: string, b: string)
    requires a != "" && (b != "" ==> b[0] == ';' || b[0] == ' ')
    requires KindOf(m, a) != Comment && !IsCut(m, d, a)
    requires KindOf(m, a) == Url ==> UrlCloses(a)
    requires !(m.Inside? && a == "\\")
    ensures Run(m, d, a + b) == Run(After(m, a), DepthAfter(m, d, a), a[Length(m, a)..] + b)
  {
    hide KindOf, Length, After;
    TokenStable(m, a, b);
    var s := a + b;
    assert DepthAfter(m, d, s) == DepthAfter(m, d, a);
    assert !IsCut(m, d, s);
  }

  /** The first token of a run that ends in white space lies in front of that white space. */
  lemma TokenBeforeSpace(m: Mode, a: string, b: string)
    requires a != "" && AllSpace(b)
    requires KindOf(m, a + b) != Comment
    requires KindOf(m, a + b) == Url ==> UrlCloses(a + b)
    requires !(m.Inside? && a == "\\")
    ensures Length(m, a + b) <= |a|
  {
    var s := a + b;
    if KindOf(m, s) == Url {
      UrlEndsInBracket(s);
      assert !IsSpace(s[Length(m, s) - 1]);
    }
  }

  /** One step of `RunTail`. */
  lemma TailPeel(m: Mode, d: nat, a: string, b: string, c: string)
    requires a != "" && AllSpace(b) && (c != "" ==> c[0] == ' ')
    requires KindOf(m, a + b) != Comment && !IsCut(m, d, a + b)
    requires KindOf(m, a + b) == Url ==> UrlCloses(a + b)
    requires !(m.Inside? && a == "\\")
    ensures var m', d' := After(m, a), DepthAfter(m, d, a);
      var rest := a[Length(m, a)..];
      && Run(m, d, a + b) == Run(m', d', rest + b)
      && Run(m, d, a + c) == Run(m', d', rest + c)
  {
    hide KindOf, Length, After, Run;
    TokenBeforeSpace(m, a, b);
    TokenOfPrefix(m, a, b);
    assert (a + b)[0] == a[0];
    assert DepthAfter(m, d, a + b) == DepthAfter(m, d, a);
    RunUnfolds(m, d, a + b);
    RunPeel(m, d, a, c);
  }

  lemma ModeStaysQuote(m: Mode, s: string)
    requires s != "" && (m.Inside? ==> IsQuote(m.quote))
    ensures After(m, s).Inside? ==> IsQuote(After(m, s).quote)
  {
  }

  /** Replacing the white space at the end by bland text (or by nothing) changes nothing in the run. */
  lemma {:induction false} RunTail(m: Mode, d: nat, a: string, b: string, c: string)
    requires AllSpace(b) && Bland(c) && (c != "" ==> c[0] == ' ')
    requires m.Inside? ==> IsQuote(m.quote)
    requires Run(m, d, a + b) != Broken
    ensures Run(m, d, a + c) == Run(m, d, a + b)
    decreases |a|
  {
    hide Length, After, DepthAfter;
    if a == "" {
      assert a + b == b && a + c == c;
      BlandRun(m, d, b);
      BlandRun(m, d, c);
    } else if m.Inside? && a == "\\" {
      DanglingEscape(m, d, b);
      DanglingEscape(m, d, c);
    } else if KindOf(m, a + b) == Url && !UrlCloses(a + b) {
      OpenUrlTail(m.word, a, b, c);
      assert (a + c)[0] == (a + b)[0];
      assert KindOf(m, a + c) == Url;
    } else {
      TailPeel(m, d, a, b, c);
      ModeStaysQuote(m, a);
      RunTail(After(m, a), DepthAfter(m, d, a), a[Length(m, a)..], b, c);
    }
  }

  lemma SpaceIsPassed(s: string)
    requires s != "" && IsSpace(s[0])
    ensures Run(START, 0, s) == Run(START, 0, s[1..])
  {
    assert KindOf(START, s) == Plain && After(START, s) == START && Length(START, s) == 1;
    assert !IsCut(START, 0, s) && DepthAfter(START, 0, s) == 0;
    hide KindOf, After, Length, IsCut, DepthAfter;
  }

  lemma {:induction false} RunSkipsLeadingSpace(a: string, x: string)
    requires AllSpace(a)
    ensures Run(START, 0, a + x) == Run(START, 0, x)
  {
    hide Run;
    if a == "" {
      assert a + x == x;
    } else {
      var s := a + x;
      assert s[1..] == a[1..] + x;
      SpaceIsPassed(s);
      RunSkipsLeadingSpace(a[1..], x);
    }
  }

  lemma RunOfTrimmed(p: string, c: string)
    requires Single(p) && Bland(c) && (c != "" ==> c[0] == ' ')
    ensures Run(START, 0, Trim(p) + c) == Run(START, 0, p)
  {
    var a, b := TrimSplits(p);
    var t := Trim(p);
    assert p == a + (t + b);
    RunSkipsLeadingSpace(a, t + b);
    RunTail(START, 0, t, b, c);
  }

  lemma FinishAppends(d: string) returns (c: string)
    ensures Finish(d) == d + c && Bland(c) && (c != "" ==> c[0] == ' ')
  {
    c := if EndsImportant(d) then "" else MARK;
    assert d + "" == d;
  }

  /** Trimming and marking a declaration keeps how it ends. */
  lemma RunOfFinished(p: string)
    requires Single(p)
    ensures Run(START, 0, Finish(Trim(p))) == Run(START, 0, p)
  {
    var c := FinishAppends(Trim(p));
    RunOfTrimmed(p, c);
  }

  // ------------------------------------------------------------------ lists of declarations

  /** Every declaration is trimmed and non-empty, ends in the mark, and is closed unless it is last. */
  predicate AllFinished(ds: seq<string>) {
    ds != [] ==>
      && Trimmed(ds[0]) && ds[0] != "" && EndsImportant(ds[0])
      && (if |ds| == 1 then Single(ds[0]) else Closed(ds[0]))
      && AllFinished(ds[1..])
  }

  /** The pieces of a comment-free text, and what finishing makes of them. */
  lemma {:induction false} FinishedPieces(s: string)
    requires NoComment(START, s)
    ensures AllFinished(Finished(Pieces(s)))
    decreases |s|
  {
    hide Run, CutAt, NoComment, Pieces, Finished, AllFinished;
    var k := CutAt(START, 0, s);
    if k == |s| {
      FinishedOnly(s);
    } else {
      NoCommentAfterCut(START, 0, s);
      FinishedPieces(s[k + 1..]);
      FinishedCut(s, k);
    }
  }

  lemma FinishedOnly(s: string)
    requires NoComment(START, s) && CutAt(START, 0, s) == |s|
    ensures AllFinished(Finished(Pieces(s)))
  {
    hide Run, CutAt, NoComment, Finish, Trim;
    UncutIsSingle(START, 0, s);
    RunOfFinished(s);
    assert Pieces(s) == [s];
    assert Pieces(s)[1..] == [];
    FinishedPiece(s, Pieces(s));
  }

  lemma FinishedCut(s: string, k: nat)
    requires NoComment(START, s) && k == CutAt(START, 0, s) < |s|
    requires AllFinished(Finished(Pieces(s[k + 1..])))
    ensures AllFinished(Finished(Pieces(s)))
  {
    hide Run, CutAt, NoComment, Finish, Trim, Finished, AllFinished;
    CutsAreClosed(START, 0, s);
    RunOfFinished(s[..k]);
    assert Pieces(s)[1..] == Pieces(s[k + 1..]);
    FinishedPiece(s[..k], Pieces(s));
  }

  lemma FinishedPiece(p: string, ps: seq<string>)
    requires ps != [] && ps[0] == p
    requires Run(START, 0, Finish(Trim(p))) == Run(START, 0, p)
    requires if |ps| == 1 then Single(p) else Closed(p)
    requires AllFinished(Finished(ps[1..]))
    ensures AllFinished(Finished(ps))
  {
    var _, _ := TrimSplits(p);
    var d := Trim(p);
    var rest := Finished(ps[1..]);
    if d == "" {
      assert Finished(ps) == rest;
    } else {
      FinishTrimmed(d);
      assert Finished(ps) == [Finish(d)] + rest;
      assert Finished(ps)[1..] == rest;
    }
  }

  lemma PiecesOfClosed(a: string, rest: string)
    requires Closed(a) && NoComment(START, rest)
    ensures Pieces(a + ";" + rest) == [a] + Pieces(rest) && NoComment(START, a + ";" + rest)
  {
    hide Run, CutAt, NoComment;
    var b := ";" + rest;
    var s := a + b;
    assert a + ";" + rest == s && b[1..] == rest;
    ClosedIsCut(START, 0, a, b);
    assert s[..|a|] == a && s[|a| + 1..] == rest;
  }

  lemma PiecesOfSingle(s: string)
    requires Single(s)
    ensures Pieces(s) == [s] && NoComment(START, s)
  {
    hide Run, CutAt, NoComment;
    SingleIsUncut(START, 0, s);
  }

  /** Splitting the joined declarations gives them back, in order. */
  lemma {:induction false} PiecesOfJoin(ds: seq<string>)
    requires AllFinished(ds) && ds != []
    ensures Pieces(Join(ds)) == ds && NoComment(START, Join(ds))
  {
    hide Run, NoComment, Pieces;
    if |ds| == 1 {
      PiecesOfSingle(ds[0]);
    } else {
      PiecesOfJoin(ds[1..]);
      PiecesOfClosed(ds[0], Join(ds[1..]));
    }
  }

  lemma {:induction false} FinishedAgain(ds: seq<string>)
    requires AllFinished(ds)
    ensures Finished(ds) == ds
  {
    if ds != [] {
      TrimOfTrimmed(ds[0]);
      FinishedAgain(ds[1..]);
    }
  }

  // ------------------------------------------------------------------ the main results

  /** Every declaration that comes out is trimmed, non-empty and ends in the mark. */
  lemma DeclarationsAreMarked(css: string)
    ensures AllFinished(Declarations(css))
  {
    StripRelexes(START, css);
    FinishedPieces(Strip(START, css));
  }

  /** Reading the output of `importantify` again gives the same declarations in the same order. */
  lemma DeclarationsOfImportantify(css: string)
    ensures Declarations(Importantify(css)) == Declarations(css)
    ensures Strip(START, Importantify(css)) == Importantify(css)
  {
    var ds := Declarations(css);
    DeclarationsAreMarked(css);
    if ds != [] {
      PiecesOfJoin(ds);
      StripOfNoComment(START, Join(ds));
      FinishedAgain(ds);
    } else {
      assert Pieces("") == [""];
      assert Finished([""]) == Finished([]);
    }
  }

  /** `importantify` is idempotent on every text. */
  lemma ImportantifyIdempotent(css: string)
    ensures Importantify(Importantify(css)) == Importantify(css)
  {
    DeclarationsOfImportantify(css);
  }
}
