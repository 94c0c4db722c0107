/**
 What `importantify` makes of a block, written out: a grammar of declarations, and the law that each of them comes out
 once, in order, with the mark.
 */
module CssDeclarations {
  import opened Text
  import opened CssLexer
  import opened CssCopies
  import opened CssImportant

  // ------------------------------------------------------------------ the text of one declaration

  /** Plain characters, a quoted text, an unquoted url, or a part in parentheses. */
  datatype Part =
    | Chars(chars: string)
    | Quotation(quote: char, body: string)
    | Address(head: string, gap: string, body: string)
    | Nested(inner: Parts)

  datatype Parts = Done | More(first: Part, rest: Parts)

  function TextOfParts(ps: Parts): string {
    match ps
    case Done => ""
    case More(first, rest) => TextOfPart(first) + TextOfParts(rest)
  }

  function TextOfPart(p: Part): string {
    match p
    case Chars(chars) => chars
    case Quotation(quote, body) => [quote] + (body + [quote])
    case Address(head, gap, body) => head + (gap + (body + ")"))
    case Nested(inner) => "(" + (TextOfParts(inner) + ")")
  }

  /** No quote, bracket or semicolon, no comment, and no `url` at the end that a bracket would make one. */
  predicate AreChars(chars: string) {
    && (forall i :: 0 <= i < |chars| ==>
          chars[i] != '\'' && chars[i] != '\"' && chars[i] != '(' && chars[i] != ')' && chars[i] != ';')
    && (forall i :: 0 <= i && i + 1 < |chars| ==> !(chars[i] == '/' && chars[i + 1] == '*'))
    && !(|chars| >= 3 && IsUrlOpen(chars[|chars| - 3..] + "("))
  }

  predicate AreParts(ps: Parts) {
    match ps
    case Done => true
    case More(first, rest) => IsPart(first) && Follows(first, rest) && AreParts(rest)
  }

  predicate IsPart(p: Part) {
    match p
    case Chars(chars) => chars != "" && AreChars(chars)
    case Quotation(quote, body) => (quote == '\'' || quote == '\"') && Within(quote, body)
    case Address(head, gap, body) => IsUrlOpen(head) && AllSpace(gap) && IsAddress(body)
    case Nested(inner) => AreParts(inner)
  }

  /** Characters come in one piece, and a url does not continue a name. */
  predicate Follows(first: Part, rest: Parts) {
    first.Chars? && first.chars != "" && rest.More? ==>
      !rest.first.Chars? && (rest.first.Address? ==> !IsNameChar(first.chars[|first.chars| - 1]))
  }

  // ------------------------------------------------------------------ the scan passes over it

  lemma PlainPasses(word: bool, d: nat, s: string)
    requires s != "" && s[0] != '\'' && s[0] != '\"' && !IsCommentHead(s) && !IsUrl(word, s)
    requires d == 0 ==> s[0] != ';'
    ensures Run(Outside(word), d, s) ==
      Run(Outside(IsNameChar(s[0])), if s[0] == '(' then d + 1 else if s[0] == ')' && d > 0 then d - 1 else d, s[1..])
  {
    hide IsUrl, IsCommentHead;
    assert KindOf(Outside(word), s) == Plain;
    hide KindOf, IsNameChar;
    WordsAreNames(s[0]);
    RunUnfolds(Outside(word), d, s);
  }

  lemma WordsAreNames(c: char)
    ensures IsWord(c) <==> IsNameChar(c)
  {
  }

  lemma UrlHeadIsOpen(s: string)
    ensures IsUrlHead(s) <==> |s| >= 4 && IsUrlOpen(s[..4])
  {
  }

  /** In front of `t`, plain characters open neither a comment nor a url. */
  lemma CharsArePlain(chars: string, t: string)
    requires chars != "" && AreChars(chars)
    requires t != "" ==> t[0] != '*' && (t[0] != '(' ==> t[0] == ')' || t[0] == '\'' || t[0] == '\"' || t[0] == 'u' || t[0] == 'U')
    ensures !IsCommentHead(chars + t) && !IsUrlHead(chars + t)
  {
    var s := chars + t;
    assert s[0] == chars[0];
    assert |chars| == 1 && t != "" ==> s[1] == t[0];
    assert t != "" ==> s[|chars|] == t[0];
    assert |chars| == 3 ==> chars[0..] == chars;
  }

  lemma TailOfChars(chars: string)
    requires |chars| > 1 && AreChars(chars)
    ensures AreChars(chars[1..])
  {
    hide IsUrlOpen;
    var u := chars[1..];
    assert forall i :: 0 <= i < |u| ==> u[i] == chars[i + 1];
    if |u| >= 3 {
      assert u[|u| - 3..] == chars[|chars| - 3..];
    }
    forall i | 0 <= i && i + 1 < |u| ensures !(u[i] == '/' && u[i + 1] == '*') {
      assert u[i] == chars[i + 1] && u[i + 1] == chars[i + 2];
    }
  }

  /** What may stand behind plain characters. */
  predicate Beside(t: string) {
    t != "" ==> t[0] == '(' || t[0] == ')' || t[0] == '\'' || t[0] == '\"' || t[0] == 'u' || t[0] == 'U'
  }

  lemma {:induction false} CharsPass(word: bool, d: nat, chars: string, t: string)
    requires chars != "" && AreChars(chars) && Beside(t)
    ensures Run(Outside(word), d, chars + t) == Run(Outside(IsNameChar(chars[|chars| - 1])), d, t)
    decreases |chars|
  {
    hide Run, IsUrl, IsUrlHead, IsNameChar, IsCommentHead;
    var s := chars + t;
    CharsArePlain(chars, t);
    assert !IsUrl(word, s) by { NoHeadNoUrl(word, s); }
    assert s[0] == chars[0];
    PlainPasses(word, d, s);
    if |chars| == 1 {
      assert s[1..] == t;
    } else {
      assert s[1..] == chars[1..] + t;
      TailOfChars(chars);
      CharsPass(IsNameChar(chars[0]), d, chars[1..], t);
    }
  }

  lemma NoHeadNoUrl(word: bool, s: string)
    requires !IsUrlHead(s)
    ensures !IsUrl(word, s)
  {
  }

  lemma {:induction false} InsidePasses(quote: char, d: nat, body: string, t: string)
    requires (quote == '\'' || quote == '\"') && Within(quote, body)
    ensures Run(Inside(quote), d, body + ([quote] + t)) == Run(START, d, t)
  {
    hide Run;
    var s := body + ([quote] + t);
    RunUnfolds(Inside(quote), d, s);
    if body == "" {
      assert s == [quote] + t && s[1..] == t;
    } else {
      var n := if body[0] == '\\' then 2 else 1;
      assert s[0] == body[0] && s[n..] == body[n..] + ([quote] + t);
      InsidePasses(quote, d, body[n..], t);
    }
  }

  lemma QuotationPasses(word: bool, d: nat, quote: char, body: string, t: string)
    requires (quote == '\'' || quote == '\"') && Within(quote, body)
    ensures Run(Outside(word), d, ([quote] + (body + [quote])) + t) == Run(START, d, t)
  {
    hide Run;
    var s := ([quote] + (body + [quote])) + t;
    assert s[0] == quote && s[1..] == body + ([quote] + t);
    RunUnfolds(Outside(word), d, s);
    InsidePasses(quote, d, body, t);
  }

  lemma AddressPasses(d: nat, head: string, gap: string, body: string, t: string)
    requires IsUrlOpen(head) && AllSpace(gap) && IsAddress(body)
    ensures Run(START, d, (head + (gap + (body + ")"))) + t) == Run(START, d, t)
  {
    hide Run, IsUrl, UrlCloses, AllSpace, IsAddress, UrlLength;
    var s := head + (gap + (body + (")" + t)));
    assert (head + (gap + (body + ")"))) + t == s;
    UrlIsRead(head, gap, body, t);
    assert s[0] == head[0] && s[1] == head[1];
    RunUnfolds(START, d, s);
  }

  lemma BracketPasses(word: bool, d: nat, t: string)
    ensures Run(Outside(word), d, "(" + t) == Run(START, d + 1, t)
    ensures d > 0 ==> Run(Outside(word), d, ")" + t) == Run(START, d - 1, t)
  {
    hide Run, IsUrl;
    assert ("(" + t)[1..] == t && (")" + t)[1..] == t;
    NoHeadNoUrl(word, "(" + t);
    NoHeadNoUrl(word, ")" + t);
    PlainPasses(word, d, "(" + t);
    if d > 0 {
      PlainPasses(word, d, ")" + t);
    }
  }

  /** At the end of the text, or of what is in parentheses, the character before does not matter. */
  lemma EndIsAnywhere(word: bool, d: nat, t: string)
    requires t != "" ==> t[0] == ')' && d > 0
    ensures Run(Outside(word), d, t) == Run(START, d, t)
  {
    if t != "" {
      assert t == ")" + t[1..];
      BracketPasses(word, d, t[1..]);
      BracketPasses(false, d, t[1..]);
    }
  }

  lemma PartsBegin(ps: Parts, t: string)
    requires AreParts(ps) && (ps.More? ==> !ps.first.Chars?) && Beside(t)
    ensures Beside(TextOfParts(ps) + t)
  {
    if ps.More? {
      assert TextOfPart(ps.first) != "";
      assert (TextOfParts(ps) + t)[0] == TextOfPart(ps.first)[0];
    } else {
      assert TextOfParts(ps) + t == t;
    }
  }

  lemma {:induction false} PartsPass(word: bool, d: nat, ps: Parts, t: string)
    requires AreParts(ps) && (t != "" ==> t[0] == ')' && d > 0)
    requires ps.More? && ps.first.Address? ==> !word
    ensures Run(Outside(word), d, TextOfParts(ps) + t) == Run(START, d, t)
    decreases ps
  {
    hide Run, AreChars, Within, IsUrlOpen, IsAddress, AllSpace, IsNameChar, Beside;
    match ps
    case Done =>
      assert TextOfParts(ps) + t == t;
      EndIsAnywhere(word, d, t);
    case More(first, rest) =>
      var u := TextOfParts(rest) + t;
      assert TextOfParts(ps) + t == TextOfPart(first) + u;
      match first {
        case Chars(chars) =>
          assert Beside(t) by { BracketIsBeside(t); }
          PartsBegin(rest, t);
          CharsPass(word, d, chars, u);
          PartsPass(IsNameChar(chars[|chars| - 1]), d, rest, t);
        case Quotation(quote, body) =>
          QuotationPasses(word, d, quote, body, u);
          PartsPass(false, d, rest, t);
        case Address(head, gap, body) =>
          AddressPasses(d, head, gap, body, u);
          PartsPass(false, d, rest, t);
        case Nested(inner) =>
          assert TextOfPart(first) + u == "(" + (TextOfParts(inner) + (")" + u));
          BracketPasses(word, d, TextOfParts(inner) + (")" + u));
          PartsPass(false, d + 1, inner, ")" + u);
          BracketPasses(false, d + 1, u);
          PartsPass(false, d, rest, t);
      }
  }

  lemma BracketIsBeside(t: string)
    requires t != "" ==> t[0] == ')'
    ensures Beside(t)
  {
  }

  /** Main: quoted texts, urls and parentheses hide their semicolons: such a text is one declaration. */
  lemma DeclarationIsClosed(ps: Parts)
    requires AreParts(ps)
    ensures Closed(TextOfParts(ps))
  {
    assert TextOfParts(ps) + "" == TextOfParts(ps);
    PartsPass(false, 0, ps, "");
  }

  // ------------------------------------------------------------------ the mark

  /** `important`, letter by letter in either case. */
  predicate IsImportantWord(word: string) {
    && |word| == 9
    && forall i :: 0 <= i < 9 ==> word[i] == "important"[i] || word[i] == "IMPORTANT"[i]
  }

  /** Ends in an exclamation mark, perhaps white space, and that word. */
  ghost predicate IsMarked(d: string) {
    exists front, gap, word :: d == front + ("!" + (gap + word)) && AllSpace(gap) && IsImportantWord(word)
  }

  lemma LowerLetter(c: char, i: nat)
    requires i < 9
    ensures Lower(c) == "important"[i] <==> c == "important"[i] || c == "IMPORTANT"[i]
  {
  }

  lemma LowerWord(word: string)
    ensures LowerAll(word) == "important" <==> IsImportantWord(word)
  {
    if |word| == 9 {
      forall i | 0 <= i < 9 ensures Lower(word[i]) == "important"[i] <==> word[i] == "important"[i] || word[i] == "IMPORTANT"[i] {
        LowerLetter(word[i], i);
      }
    }
    if IsImportantWord(word) {
      assert LowerAll(word) == "important";
    }
    if LowerAll(word) == "important" {
      forall i | 0 <= i < 9 ensures word[i] == "important"[i] || word[i] == "IMPORTANT"[i] {
        assert LowerAll(word)[i] == Lower(word[i]);
      }
    }
  }

  lemma MarkIsNoSpace()
    ensures !IsSpace('!')
  {
  }

  /** The test of the rewriter is exactly this mark. */
  lemma MarkedIff(d: string)
    ensures EndsImportant(d) <==> IsMarked(d)
  {
    hide IsSpace, AllSpace, LowerAll, IsImportantWord;
    if EndsImportant(d) {
      var n := |d| - 9;
      var head := TrimEnd(d[..n]);
      var gap := TrimEndSplits(d[..n]);
      LowerWord(d[n..]);
      assert d == head[..|head| - 1] + ("!" + (gap + d[n..]));
    }
    if IsMarked(d) {
      var front, gap, word :| d == front + ("!" + (gap + word)) && AllSpace(gap) && IsImportantWord(word);
      LowerWord(word);
      assert |word| == 9 by { WordHasNine(word); }
      var n := |d| - 9;
      assert d[n..] == word && d[..n] == (front + "!") + gap;
      MarkIsNoSpace();
      TrimEndSkips(front + "!", gap);
    }
  }

  lemma WordHasNine(word: string)
    requires IsImportantWord(word)
    ensures |word| == 9
  {
  }

  ghost function WithMark(d: string): string {
    if IsMarked(d) then d else d + " !important"
  }

  // ------------------------------------------------------------------ what comes out

  /** Main: a single declaration comes out trimmed and marked, unless it is blank. */
  lemma SingleIsMarked(p: string)
    requires Single(p)
    ensures Importantify(p) == if Trim(p) == "" then "" else WithMark(Trim(p))
  {
    hide Trim, Run, NoComment, CutAt, Strip, EndsImportant, IsMarked;
    SingleIsUncut(START, 0, p);
    StripOfNoComment(START, p);
    PiecesOfSingle(p);
    assert [p][1..] == [];
    MarkedIff(Trim(p));
    FinishedOne(p);
  }

  lemma FinishedOne(p: string)
    ensures Finished([p]) == if Trim(p) == "" then [] else [Finish(Trim(p))]
  {
    hide Trim, Finish;
    assert [p][1..] == [];
    assert Finished([]) == [];
  }

  /** Stripping a closed text and what follows it. */
  lemma {:induction false} StripAfterClosed(m: Mode, d: nat, a: string, b: string)
    requires Run(m, d, a).Done? && b != "" && b[0] == ';'
    ensures Strip(m, a + b) == a + (";" + Strip(START, b[1..]))
    decreases |a|
  {
    hide KindOf, Length, After, Run, Strip, IsCut, DepthAfter;
    if a == "" {
      assert a + b == b && a + (";" + Strip(START, b[1..])) == ";" + Strip(START, b[1..]);
      EmptyIsOutside(m, d);
      SemicolonIsCopied(m, b);
    } else {
      DonePeel(m, d, a);
      TokenStable(m, a, b);
      var n := Length(m, a);
      StripAfterClosed(After(m, a), DepthAfter(m, d, a), a[n..], b);
      StripUnfolds(m, a + b);
      assert (a + b)[..n] == a[..n];
      var out := ";" + Strip(START, b[1..]);
      assert a[..n] + (a[n..] + out) == a + out;
    }
  }

  lemma EmptyIsOutside(m: Mode, d: nat)
    requires Run(m, d, "").Done?
    ensures m.Outside?
  {
  }

  lemma SemicolonIsCopied(m: Mode, b: string)
    requires m.Outside? && b != "" && b[0] == ';'
    ensures Strip(m, b) == ";" + Strip(START, b[1..])
  {
    assert b[..1] == ";";
    StripUnfolds(m, b);
  }

  lemma DeclarationsOfClosed(a: string, b: string)
    requires Closed(a)
    ensures Declarations(a + (";" + b)) == Finished([a]) + Declarations(b)
  {
    hide Run, Strip, NoComment, Trim, Finish, Pieces;
    var t := ";" + b;
    assert t[1..] == b;
    StripAfterClosed(START, 0, a, t);
    StripRelexes(START, b);
    var rest := Strip(START, b);
    assert a + (";" + rest) == a + ";" + rest;
    PiecesOfClosed(a, rest);
    FinishedConcat(a, Pieces(rest));
  }

  lemma FinishedConcat(a: string, ps: seq<string>)
    ensures Finished([a] + ps) == Finished([a]) + Finished(ps)
  {
    hide Trim, Finish;
    assert ([a] + ps)[1..] == ps;
    FinishedOne(a);
  }

  /** Main: the declaration in front of a top-level semicolon and the block behind it are rewritten each for itself, and
      in that order. */
  lemma BlockIsRewrittenInOrder(a: string, b: string)
    requires Closed(a)
    ensures Importantify(a + (";" + b)) ==
      if Trim(a) == "" then Importantify(b)
      else if Importantify(b) == "" then WithMark(Trim(a))
      else WithMark(Trim(a)) + (";" + Importantify(b))
  {
    hide Run, Trim, EndsImportant, IsMarked, Declarations, AllFinished;
    DeclarationsOfClosed(a, b);
    FinishedOne(a);
    MarkedIff(Trim(a));
    JoinOfMore(Finish(Trim(a)), Declarations(b));
    DeclarationsAreMarked(b);
    JoinIsEmpty(Declarations(b));
    var ds := Declarations(b);
    assert [] + ds == ds;
  }

  lemma JoinOfMore(d: string, ds: seq<string>)
    ensures Join([d] + ds) == if ds == [] then d else d + ";" + Join(ds)
  {
    assert ([d] + ds)[1..] == ds;
  }

  lemma JoinIsEmpty(ds: seq<string>)
    requires AllFinished(ds)
    ensures Join(ds) == "" <==> ds == []
  {
  }

  /** Comments never matter. */
  lemma CommentsDoNotMatter(css: string)
    ensures Importantify(Strip(START, css)) == Importantify(css)
  {
    hide Strip;
    StripIdempotent(css);
  }

  // ------------------------------------------------------------------ a whole block

  /** Declarations as they are written, each a text of the grammar with white space around it. */
  datatype Declared = Declared(before: string, parts: Parts, after: string)

  predicate IsDeclared(d: Declared) {
    && AllSpace(d.before) && AllSpace(d.after) && AreParts(d.parts)
    && TextOfParts(d.parts) != "" && Trimmed(TextOfParts(d.parts))
  }

  function Written(d: Declared): string {
    d.before + TextOfParts(d.parts) + d.after
  }

  function Block(ds: seq<Declared>): string {
    if ds == [] then "" else if |ds| == 1 then Written(ds[0]) else Written(ds[0]) + (";" + Block(ds[1..]))
  }

  ghost function Marked(ds: seq<Declared>): string {
    if ds == [] then ""
    else if |ds| == 1 then WithMark(TextOfParts(ds[0].parts))
    else WithMark(TextOfParts(ds[0].parts)) + (";" + Marked(ds[1..]))
  }

  lemma PaddedIsClosed(a: string, x: string, b: string)
    requires AllSpace(a) && AllSpace(b) && Closed(x)
    ensures Closed(a + x + b)
  {
    hide Run;
    RunSkipsLeadingSpace(a, x + b);
    assert a + x + b == a + (x + b);
    SpaceBehind(START, 0, x, b);
  }

  lemma {:induction false} SpacesPass(m: Mode, d: nat, b: string)
    requires m.Outside? && AllSpace(b)
    ensures Run(m, d, b) == CssImportant.Outcome.Done(d)
    decreases |b|
  {
    if b != "" {
      assert KindOf(m, b) == Plain;
      SpacesPass(After(m, b), d, b[1..]);
    }
  }

  lemma {:induction false} SpaceBehind(m: Mode, d: nat, x: string, b: string)
    requires Run(m, d, x).Done? && AllSpace(b)
    ensures Run(m, d, x + b) == Run(m, d, x)
    decreases |x|
  {
    hide KindOf, Length, After, Run, IsSpace, IsCut, DepthAfter;
    if x == "" {
      assert x + b == b;
      EmptyIsOutside(m, d);
      SpacesPass(m, d, b);
      EmptyIsDone(m, d);
    } else {
      DonePeel(m, d, x);
      TokenBeforeAny(m, d, x, b);
      SpaceBehind(After(m, x), DepthAfter(m, d, x), x[Length(m, x)..], b);
    }
  }

  lemma EmptyIsDone(m: Mode, d: nat)
    requires m.Outside?
    ensures Run(m, d, "") == CssImportant.Outcome.Done(d)
  {
  }

  lemma TokenBeforeAny(m: Mode, d: nat, x: string, b: string)
    requires x != "" && AllSpace(b)
    requires KindOf(m, x) != Comment && !IsCut(m, d, x)
    requires KindOf(m, x) == Url ==> UrlCloses(x)
    requires !(m.Inside? && x == "\\")
    ensures Run(m, d, x + b) == Run(After(m, x), DepthAfter(m, d, x), x[Length(m, x)..] + b)
  {
    hide KindOf, Length, After, Run, SameFirst, IsSpace;
    match KindOf(m, x) {
      case Quoted => QuotedFirst(m, x, b);
      case Url => UrlFirst(m, x, b);
      case Plain => PlainBeforeSpace(m, x, b);
    }
    FirstIsPassed(m, d, x, b);
  }

  lemma FirstIsPassed(m: Mode, d: nat, x: string, b: string)
    requires x != "" && SameFirst(m, x, b) && KindOf(m, x) != Comment && !IsCut(m, d, x)
    ensures Run(m, d, x + b) == Run(After(m, x), DepthAfter(m, d, x), x[Length(m, x)..] + b)
  {
    hide KindOf, Length, After, Run;
    var s := x + b;
    assert s[0] == x[0];
    assert DepthAfter(m, d, s) == DepthAfter(m, d, x);
    assert !IsCut(m, d, s);
    RunUnfolds(m, d, s);
  }

  lemma SpaceIsNoSign(c: char)
    requires IsSpace(c)
    ensures c != '*' && c != 'r' && c != 'R' && c != 'l' && c != 'L' && c != '('
  {
  }

  lemma PlainBeforeSpace(m: Mode, x: string, b: string)
    requires x != "" && KindOf(m, x) == Plain && AllSpace(b)
    ensures SameFirst(m, x, b)
  {
    hide IsSpace, LeadingSpaces;
    var s := x + b;
    assert s[0] == x[0] && s[1..] == x[1..] + b;
    if b != "" {
      SpaceIsNoSign(b[0]);
      assert s[|x|] == b[0];
      if IsUrlHead(s) {
        UrlHeadInside(x, b);
        if IsQuotedUrl(x) {
          QuotedUrlStable(x, b);
        }
      }
    } else {
      assert s == x;
    }
  }

  lemma WrittenIsClosed(d: Declared)
    requires IsDeclared(d)
    ensures Closed(Written(d)) && Trim(Written(d)) == TextOfParts(d.parts)
  {
    hide Closed, Trim, AreParts, AllSpace;
    DeclarationIsClosed(d.parts);
    PaddedIsClosed(d.before, TextOfParts(d.parts), d.after);
    TrimOfPadded(d.before, TextOfParts(d.parts), d.after);
  }

  lemma ClosedIsSingle(p: string)
    requires Closed(p)
    ensures Single(p)
  {
  }

  /** Main: every declaration of a block comes out, once and in order, trimmed and with exactly one mark. */
  lemma {:induction false} BlockIsMarked(ds: seq<Declared>)
    requires ds != [] && forall i :: 0 <= i < |ds| ==> IsDeclared(ds[i])
    ensures Importantify(Block(ds)) == Marked(ds) && Marked(ds) != ""
    decreases |ds|
  {
    hide Closed, Single, Trim, Importantify, IsMarked, IsDeclared;
    assert TextOfParts(ds[0].parts) != "" by { DeclaredIsText(ds[0]); }
    WrittenIsClosed(ds[0]);
    if |ds| == 1 {
      ClosedIsSingle(Written(ds[0]));
      SingleIsMarked(Written(ds[0]));
    } else {
      BlockIsMarked(ds[1..]);
      BlockIsRewrittenInOrder(Written(ds[0]), Block(ds[1..]));
    }
  }

  lemma DeclaredIsText(d: Declared)
    requires IsDeclared(d)
    ensures TextOfParts(d.parts) != ""
  {
  }
}
