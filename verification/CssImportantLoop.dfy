/** The loop of `importantify`, proved against `CssImportant`. */
module CssImportantLoop {
  import opened Text
  import opened CssLexer
  import opened CssScanner
  import opened CssImportant

  /** The pieces still to come when the current one began at `start` and ends at `cut`. */
  function PiecesFrom(css: string, start: nat, cut: nat): seq<string>
    requires start <= cut <= |css|
  {
    if cut == |css| then [css[start..]] else [css[start..cut]] + Pieces(css[cut + 1..])
  }

  /** Position of the next cut when the loop stands at `i`. */
  function NextCut(css: string, i: nat, depth: nat, quote: string): (cut: nat)
    requires i <= |css|
    ensures i <= cut <= |css|
  {
    i + CutAt(ModeAt(css, i, quote), depth, css[i..])
  }

  /** No comment from `i` on. */
  predicate Clean(css: string, i: nat, quote: string)
    requires i <= |css|
  {
    NoComment(ModeAt(css, i, quote), css[i..])
  }

  lemma PiecesUnfolds(s: string)
    ensures var k := CutAt(START, 0, s);
      Pieces(s) == if k == |s| then [s] else [s[..k]] + Pieces(s[k + 1..])
  {
    hide CutAt;
  }

  lemma PiecesFromStart(css: string, start: nat)
    requires start <= |css| && !WordBefore(css, start)
    ensures PiecesFrom(css, start, NextCut(css, start, 0, "")) == Pieces(css[start..])
  {
    hide CutAt, Pieces;
    var s := css[start..];
    var k := CutAt(START, 0, s);
    PiecesUnfolds(s);
    assert s[..k] == css[start..start + k];
    if k < |s| {
      assert s[k + 1..] == css[start + k + 1..];
    }
  }

  lemma NothingToScan(m: Mode, d: nat)
    ensures CutAt(m, d, "") == 0 && NoComment(m, "")
  {
  }

  /** The loop's own variables give the scan the mode that the token leaves behind. */
  lemma SameScan(css: string, next: nat, d: nat, m: Mode, quote: string)
    requires next <= |css|
    requires match m {
               case Inside(q) => quote == [q]
               case Outside(word) => quote == "" && (next < |css| ==> word == WordBefore(css, next))
             }
    ensures NextCut(css, next, d, quote) == next + CutAt(m, d, css[next..])
    ensures Clean(css, next, quote) == NoComment(m, css[next..])
  {
    hide CutAt, NoComment, WordBefore;
    if next == |css| {
      assert css[next..] == "";
      NothingToScan(m, d);
      NothingToScan(ModeAt(css, next, quote), d);
    } else {
      assert ModeAt(css, next, quote) == m;
    }
  }

  function QuoteOf(m: Mode): string {
    if m.Inside? then [m.quote] else ""
  }

  lemma CleanIs(css: string, i: nat, quote: string)
    requires i <= |css|
    ensures Clean(css, i, quote) == NoComment(ModeAt(css, i, quote), css[i..])
  {
  }

  lemma CutIs(css: string, i: nat, depth: nat, quote: string)
    requires i <= |css|
    ensures NextCut(css, i, depth, quote) == i + CutAt(ModeAt(css, i, quote), depth, css[i..])
  {
  }

  /** Passing one token that is not a cut does not move the next cut. */
  lemma TokenPassed(css: string, i: nat, depth: nat, quote: string)
    requires i < |css| && (quote != "" ==> IsQuote(quote[0])) && Clean(css, i, quote)
    requires !IsCut(ModeAt(css, i, quote), depth, css[i..])
    ensures var m := ModeAt(css, i, quote);
      var next := i + Length(m, css[i..]);
      var quote' := QuoteOf(After(m, css[i..]));
      && next <= |css| && (quote' != "" ==> IsQuote(quote'[0]))
      && NextCut(css, next, DepthAfter(m, depth, css[i..]), quote') == NextCut(css, i, depth, quote)
      && Clean(css, next, quote')
  {
    hide KindOf, Length, After, IsCut, DepthAfter, CutAt, NoComment, NextCut, Clean;
    CleanIs(css, i, quote);
    CutIs(css, i, depth, quote);
    var m := ModeAt(css, i, quote);
    var s := css[i..];
    var next := i + Length(m, s);
    CutPeel(m, depth, s);
    ModeAfterToken(css, i, m);
    assert s[Length(m, s)..] == css[next..];
    SameScan(css, next, DepthAfter(m, depth, s), After(m, s), QuoteOf(After(m, s)));
  }

  lemma SemicolonAt(css: string, start: nat, i: nat)
    requires start <= i < |css| && css[i] == ';'
    ensures CutAt(ModeAt(css, i, ""), 0, css[i..]) == 0
    ensures NoComment(ModeAt(css, i, ""), css[i..]) <==> NoComment(START, css[i + 1..])
    ensures PiecesFrom(css, start, i) == [css[start..i]] + Pieces(css[i + 1..])
  {
    assert css[i..][1..] == css[i + 1..];
    Semicolon(ModeAt(css, i, ""), css[i..]);
  }

  lemma CutPassed(css: string, start: nat, i: nat)
    requires start <= i < |css| && css[i] == ';' && Clean(css, i, "")
    ensures NextCut(css, i, 0, "") == i
    ensures PiecesFrom(css, start, i) == [css[start..i]] + PiecesFrom(css, i + 1, NextCut(css, i + 1, 0, ""))
    ensures Clean(css, i + 1, "")
  {
    hide CutAt, NoComment, PiecesFrom;
    SemicolonAt(css, start, i);
    assert css[i..][1..] == css[i + 1..];
    PiecesFromStart(css, i + 1);
  }

  lemma QuotedPassed(css: string, i: nat, depth: nat, quote: string)
    requires i < |css| && |quote| == 1 && IsQuote(quote[0]) && Clean(css, i, quote)
    ensures var next := if css[i] == '\\' && i + 1 < |css| then i + 2 else i + 1;
      var quote' := if css[i] != '\\' && [css[i]] == quote then "" else quote;
      NextCut(css, next, depth, quote') == NextCut(css, i, depth, quote) && Clean(css, next, quote')
  {
    hide NextCut, Clean;
    assert quote == [quote[0]];
    TokenPassed(css, i, depth, quote);
  }

  lemma OpeningPassed(css: string, i: nat, depth: nat)
    requires i < |css| && Clean(css, i, "") && IsQuote(css[i])
    ensures NextCut(css, i + 1, depth, [css[i]]) == NextCut(css, i, depth, "") && Clean(css, i + 1, [css[i]])
  {
    hide NextCut, Clean;
    TokenPassed(css, i, depth, "");
  }

  lemma UrlPassed(css: string, i: nat, depth: nat)
    requires i < |css| && Clean(css, i, "") && IsUrl(WordBefore(css, i), css[i..])
    ensures var end := i + UrlLength(css[i..]);
      end <= |css| && NextCut(css, end, depth, "") == NextCut(css, i, depth, "") && Clean(css, end, "")
  {
    hide NextCut, Clean, KindOf, Length, After, UrlLength, IsUrl;
    OutsideKinds(css, i);
    TokenPassed(css, i, depth, "");
  }

  lemma CleanHasNoCommentHead(css: string, i: nat)
    requires i < |css| && Clean(css, i, "") && !IsQuote(css[i])
    ensures !IsCommentHead(css[i..])
  {
    hide IsUrl;
  }

  lemma PlainPassed(css: string, i: nat, depth: nat)
    requires i < |css| && Clean(css, i, "") && !IsQuote(css[i]) && !IsUrl(WordBefore(css, i), css[i..])
    requires !(css[i] == ';' && depth == 0)
    ensures var c := css[i];
      var depth' := if c == '(' then depth + 1 else if c == ')' && depth > 0 then depth - 1 else depth;
      NextCut(css, i + 1, depth', "") == NextCut(css, i, depth, "") && Clean(css, i + 1, "")
  {
    CleanHasNoCommentHead(css, i);
    hide NextCut, Clean, KindOf, Length, After, IsUrl;
    OutsideKinds(css, i);
    assert css[i..][0] == css[i];
    TokenPassed(css, i, depth, "");
  }

  /** One round of the loop at a character that does not end a declaration. */
  method PassToken(css: string, start: nat, depth: nat, quote: string)
    returns (i: nat, depth': nat, quote': string)
    requires start < |css| && |quote| <= 1 && (quote != "" ==> IsQuote(quote[0])) && Clean(css, start, quote)
    requires !(quote == "" && css[start] == ';' && depth == 0)
    ensures start < i <= |css| && |quote'| <= 1 && (quote' != "" ==> IsQuote(quote'[0]))
    ensures NextCut(css, i, depth', quote') == NextCut(css, start, depth, quote) && Clean(css, i, quote')
  {
    hide NextCut, Clean, IsUrl, UrlLength;
    i, depth', quote' := start, depth, quote;
    var c := css[i];
    if quote != "" {
      QuotedPassed(css, i, depth, quote);
      if c == '\\' {
        if i + 1 < |css| { i := i + 1; }
      } else if [c] == quote {
        quote' := "";
      }
      i := i + 1;
    } else if IsQuote(c) {
      OpeningPassed(css, i, depth);
      quote' := [c];
      i := i + 1;
    } else {
      var end := ScanUnquotedUrl(css, i);
      if end != -1 {
        UrlPassed(css, i, depth);
        i := end;
      } else {
        PlainPassed(css, i, depth);
        if c == '(' {
          depth' := depth + 1;
        } else if c == ')' {
          depth' := if depth > 0 then depth - 1 else 0;
        }
        i := i + 1;
      }
    }
  }

  lemma LastPiece(css: string, start: nat)
    requires start <= |css|
    ensures PiecesFrom(css, start, |css|) == [css[start..]]
  {
  }

  lemma CleanAtStart(css: string)
    requires NoComment(START, css)
    ensures Clean(css, 0, "")
  {
    hide NoComment;
    CleanIs(css, 0, "");
    assert css[0..] == css;
  }

  /** Taking the piece in front of a cut. */
  lemma TakePiece(css: string, decls: seq<string>, start: nat, i: nat)
    requires start <= i < |css| && css[i] == ';' && Clean(css, i, "")
    ensures NextCut(css, i, 0, "") == i && Clean(css, i + 1, "")
    ensures var cut := NextCut(css, i + 1, 0, "");
      && i + 1 <= cut <= |css|
      && decls + [css[start..i]] + PiecesFrom(css, i + 1, cut) == decls + PiecesFrom(css, start, i)
  {
    CutPassed(css, start, i);
    hide NextCut, Clean, PiecesFrom;
    Regroup(decls, [css[start..i]], PiecesFrom(css, i + 1, NextCut(css, i + 1, 0, "")));
  }

  method Split(css: string) returns (decls: seq<string>)
    requires NoComment(START, css)
    ensures decls == Pieces(css)
  {
    hide NextCut, Clean, PiecesFrom, Pieces, ModeAt, IsQuote, CutAt, NoComment, Strip, KindOf, Length;
    decls := [];
    var start: nat, depth: nat, quote: string, i: nat := 0, 0, "", 0;
    ghost var cut := NextCut(css, 0, 0, "");
    PiecesFromStart(css, 0);
    assert css[0..] == css;
    CleanAtStart(css);
    while i < |css|
      invariant start <= i <= cut <= |css| && |quote| <= 1 && (quote != "" ==> IsQuote(quote[0]))
      invariant cut == NextCut(css, i, depth, quote) && Clean(css, i, quote)
      invariant decls + PiecesFrom(css, start, cut) == Pieces(css)
    {
      if quote == "" && css[i] == ';' && depth == 0 {
        TakePiece(css, decls, start, i);
        cut := NextCut(css, i + 1, 0, "");
        decls := decls + [css[start..i]];
        start := i + 1;
        i := i + 1;
      } else {
        i, depth, quote := PassToken(css, i, depth, quote);
      }
    }
    LastPiece(css, start);
    decls := decls + [css[start..]];
  }

  /** What one piece contributes. */
  function FinishedOne(piece: string): seq<string> {
    var d := Trim(piece);
    if d == "" then [] else [Finish(d)]
  }

  /** Taking one more piece: from the pieces before `k` to those before `k + 1`. */
  lemma {:induction false} FinishedGrows(pieces: seq<string>, k: nat)
    requires k < |pieces|
    ensures Finished(pieces[..k + 1]) == Finished(pieces[..k]) + FinishedOne(pieces[k])
  {
    hide Trim, Finish;
    var longer, shorter := pieces[..k + 1], pieces[..k];
    if k == 0 {
      assert longer[1..] == [];
    } else {
      FinishedGrows(pieces[1..], k - 1);
      assert longer[1..] == pieces[1..][..k] && shorter[1..] == pieces[1..][..k - 1];
    }
  }

  method FinishAll(pieces: seq<string>) returns (decls: seq<string>)
    ensures decls == Finished(pieces)
  {
    decls := [];
    for k := 0 to |pieces|
      invariant decls == Finished(pieces[..k])
    {
      FinishedGrows(pieces, k);
      hide Finished, Trim, Finish;
      var d := Trim(pieces[k]);
      if d != "" {
        decls := decls + [Finish(d)];
      }
    }
    assert pieces[..|pieces|] == pieces;
  }

  method Importantify(css: string) returns (block: string)
    ensures block == CssImportant.Importantify(css)
  {
    var stripped := StripComments(css);
    StripRelexes(START, css);
    var pieces := Split(stripped);
    var decls := FinishAll(pieces);
    block := Join(decls);
  }
}
