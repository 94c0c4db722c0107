/** The loops of `scanUnquotedUrl` and `stripComments`, proved against the token view of `CssLexer`. */
module CssScanner {
  import opened Text
  import opened CssLexer

  /** Whether the character before position `i` can be part of an identifier. */
  predicate WordBefore(css: string, i: nat)
    requires i <= |css|
  {
    i > 0 && IsWord(css[i - 1])
  }

  /** The mode the loops keep in their variable `quote`: the open quote, or the empty string. */
  function ModeAt(css: string, i: nat, quote: string): Mode
    requires i <= |css|
  {
    if quote == "" then Outside(WordBefore(css, i)) else Inside(quote[0])
  }

  lemma {:induction false} CommentEndsInSlash(s: string)
    ensures CommentEnd(s) < |s| ==> CommentEnd(s) >= 2 && s[CommentEnd(s) - 1] == '/'
  {
    if |s| >= 2 && !(s[0] == '*' && s[1] == '/') {
      CommentEndsInSlash(s[1..]);
    }
  }

  /** The mode after a token is the one the loop would read off the text. */
  lemma ModeAfterToken(css: string, i: nat, m: Mode)
    requires i < |css|
    requires m.Inside? ==> IsQuote(m.quote)
    ensures var next := i + Length(m, css[i..]);
      && next <= |css|
      && match After(m, css[i..]) {
           case Inside(q) => IsQuote(q)
           case Outside(word) => next < |css| ==> word == WordBefore(css, next)
         }
  {
    var s := css[i..];
    match KindOf(m, s)
    case Comment => CommentEndsInSlash(s[2..]);
    case Url => UrlEndsInBracket(s);
    case Plain =>
    case Quoted =>
  }

  /** Stripping the text from position `i` on, in the state of the loop. */
  function StripFrom(css: string, i: nat, quote: string): string
    requires i <= |css|
  {
    Strip(ModeAt(css, i, quote), css[i..])
  }

  /** One step of the scan: the first token moves to the output. */
  lemma StripStep(css: string, i: nat, quote: string)
    requires i < |css| && (quote != "" ==> IsQuote(quote[0]))
    ensures var m := ModeAt(css, i, quote);
      var n := Length(m, css[i..]);
      && i + n <= |css|
      && StripFrom(css, i, quote) ==
           (if KindOf(m, css[i..]) == Comment then " " else css[i..i + n])
           + StripFrom(css, i + n, if After(m, css[i..]).Inside? then [After(m, css[i..]).quote] else "")
  {
    hide KindOf, Length, After, Strip, WordBefore;
    var m := ModeAt(css, i, quote);
    var n := Length(m, css[i..]);
    ModeAfterToken(css, i, m);
    StripUnfolds(m, css[i..]);
    assert css[i..][n..] == css[i + n..];
    assert css[i..][..n] == css[i..i + n];
    var rest := css[i + n..];
    match After(m, css[i..]) {
      case Inside(q) =>
        assert ModeAt(css, i + n, [q]) == Inside(q);
      case Outside(word) =>
        if i + n < |css| {
          assert ModeAt(css, i + n, "") == Outside(word);
        } else {
          StripOfNothing(Outside(word));
          StripOfNothing(ModeAt(css, i + n, ""));
          assert rest == "";
        }
    }
  }

  lemma StripOfNothing(m: Mode)
    ensures Strip(m, "") == ""
  {
  }

  /** What kind of token starts at `i` when the loop is outside quotes. */
  lemma OutsideKinds(css: string, i: nat)
    requires i < |css|
    ensures var m, s := ModeAt(css, i, ""), css[i..];
      && m.Outside?
      && (IsQuote(css[i]) ==> KindOf(m, s) == Quoted && Length(m, s) == 1 && After(m, s) == Inside(css[i]))
      && (IsCommentHead(s) ==>
            KindOf(m, s) == Comment && Length(m, s) == 2 + CommentEnd(css[i + 2..]) && After(m, s) == START)
      && (IsUrl(WordBefore(css, i), s) ==>
            KindOf(m, s) == Url && Length(m, s) == UrlLength(s) && After(m, s) == START)
      && (!IsQuote(css[i]) && !IsCommentHead(s) && !IsUrl(WordBefore(css, i), s) ==>
            KindOf(m, s) == Plain && Length(m, s) == 1 && After(m, s) == Outside(IsWord(css[i])))
  {
    hide IsUrl, CommentEnd;
    if IsUrl(WordBefore(css, i), css[i..]) {
      UrlBeginsWithU(WordBefore(css, i), css[i..]);
    }
    if IsCommentHead(css[i..]) {
      assert css[i..][2..] == css[i + 2..];
    }
  }

  lemma UrlBeginsWithU(word: bool, s: string)
    requires IsUrl(word, s)
    ensures s[0] == 'u' || s[0] == 'U'
  {
  }

  lemma QuotedStep(css: string, i: nat, quote: string)
    requires i < |css| && |quote| == 1 && IsQuote(quote[0])
    ensures css[i] == '\\' && i + 1 < |css| ==>
      StripFrom(css, i, quote) == css[i..i + 2] + StripFrom(css, i + 2, quote)
    ensures css[i] == '\\' && i + 1 == |css| ==>
      StripFrom(css, i, quote) == css[i..i + 1] + StripFrom(css, i + 1, quote)
    ensures css[i] != '\\' ==>
      StripFrom(css, i, quote) == [css[i]] + StripFrom(css, i + 1, if [css[i]] == quote then "" else quote)
  {
    hide StripFrom;
    StripStep(css, i, quote);
    assert [quote[0]] == quote;
    assert css[i..i + 1] == [css[i]];
  }

  lemma OpeningStep(css: string, i: nat)
    requires i < |css| && IsQuote(css[i])
    ensures StripFrom(css, i, "") == [css[i]] + StripFrom(css, i + 1, [css[i]])
  {
    hide KindOf, Length, After, StripFrom, IsUrl;
    OutsideKinds(css, i);
    StripStep(css, i, "");
    assert css[i..i + 1] == [css[i]];
  }

  lemma CommentStep(css: string, i: nat)
    requires i < |css| && IsCommentHead(css[i..])
    ensures StripFrom(css, i, "") == " " + StripFrom(css, i + 2 + CommentEnd(css[i + 2..]), "")
  {
    hide KindOf, Length, After, StripFrom;
    OutsideKinds(css, i);
    StripStep(css, i, "");
  }

  lemma UrlStep(css: string, i: nat)
    requires i < |css| && IsUrl(WordBefore(css, i), css[i..])
    ensures var end := i + UrlLength(css[i..]);
      end <= |css| && StripFrom(css, i, "") == css[i..end] + StripFrom(css, end, "")
  {
    hide KindOf, Length, After, StripFrom, IsUrl;
    OutsideKinds(css, i);
    StripStep(css, i, "");
  }

  lemma PlainStep(css: string, i: nat)
    requires i < |css| && !IsQuote(css[i]) && !IsCommentHead(css[i..]) && !IsUrl(WordBefore(css, i), css[i..])
    ensures StripFrom(css, i, "") == [css[i]] + StripFrom(css, i + 1, "")
  {
    hide KindOf, Length, After, StripFrom, IsUrl;
    OutsideKinds(css, i);
    StripStep(css, i, "");
    assert css[i..i + 1] == [css[i]];
  }

  lemma Regroup<T>(a: seq<T>, b: seq<T>, c: seq<T>)
    ensures a + (b + c) == (a + b) + c
  {
  }

  method SkipSpaces(css: string, start: nat) returns (j: nat)
    requires start <= |css|
    ensures j == start + LeadingSpaces(css[start..])
  {
    j := start;
    while j < |css| && IsSpace(css[j])
      invariant start <= j <= |css|
      invariant LeadingSpaces(css[start..]) == (j - start) + LeadingSpaces(css[j..])
    {
      assert css[j..][1..] == css[j + 1..];
      j := j + 1;
    }
  }

  lemma BodyStep(css: string, j: nat)
    requires j < |css| && css[j] != ')'
    ensures css[j] == '\\' && j + 1 < |css| ==> BodyLength(css[j..]) == 2 + BodyLength(css[j + 2..])
    ensures css[j] == '\\' && j + 1 == |css| ==> BodyLength(css[j..]) == 1
    ensures css[j] != '\\' ==> BodyLength(css[j..]) == 1 + BodyLength(css[j + 1..])
  {
    if j + 1 < |css| {
      assert css[j..][2..] == css[j + 2..];
    } else {
      assert css[j..][1..] == "";
    }
    assert css[j..][1..] == css[j + 1..];
  }

  method SkipBody(css: string, start: nat) returns (end: nat)
    requires start <= |css|
    ensures end == start + BodyLength(css[start..])
  {
    var j := start;
    while j < |css| && css[j] != ')'
      invariant start <= j <= |css| + 1
      invariant j <= |css| ==> BodyLength(css[start..]) == (j - start) + BodyLength(css[j..])
      invariant j > |css| ==> BodyLength(css[start..]) == |css| - start
    {
      BodyStep(css, j);
      if css[j] == '\\' {
        j := j + 1;
      }
      j := j + 1;
    }
    end := if j < |css| then j + 1 else |css|;
  }

  /** `-1` when no unquoted url token starts at `i`, otherwise the position just past it. */
  method ScanUnquotedUrl(css: string, i: nat) returns (end: int)
    requires i < |css|
    ensures end == -1 <==> !IsUrl(WordBefore(css, i), css[i..])
    ensures end != -1 ==> end == i + UrlLength(css[i..]) && i < end <= |css|
  {
    if !IsUrlHead(css[i..]) || WordBefore(css, i) {
      return -1;
    }
    assert css[i..][4..] == css[i + 4..];
    var j := SkipSpaces(css, i + 4);
    if j < |css| && IsQuote(css[j]) {
      return -1;
    }
    assert css[i..][j - i..] == css[j..];
    end := SkipBody(css, j);
  }

  lemma StripFromEnds(css: string, quote: string)
    ensures StripFrom(css, 0, "") == Strip(START, css) && StripFrom(css, |css|, quote) == ""
  {
    assert css[0..] == css && css[|css|..] == "";
  }

  method StripComments(css: string) returns (out: string)
    ensures out == Strip(START, css)
  {
    out := "";
    var quote := "";
    var i := 0;
    hide StripFrom, Strip, IsUrl, UrlLength, CommentEnd;
    StripFromEnds(css, quote);
    while i < |css|
      invariant i <= |css| && |quote| <= 1 && (quote != "" ==> IsQuote(quote[0]))
      invariant out + StripFrom(css, i, quote) == Strip(START, css)
    {
      var c := css[i];
      var piece := [c];
      var next := i + 1;
      ghost var before := StripFrom(css, i, quote);
      if quote != "" {
        QuotedStep(css, i, quote);
        if c == '\\' {
          next := if i + 1 < |css| then i + 2 else i + 1;
          piece := css[i..next];
        } else if piece == quote {
          quote := "";
        }
      } else if IsQuote(c) {
        OpeningStep(css, i);
        quote := piece;
      } else if IsCommentHead(css[i..]) {
        CommentStep(css, i);
        next := i + 2 + CommentEnd(css[i + 2..]);
        piece := " ";
      } else {
        var end := ScanUnquotedUrl(css, i);
        if end == -1 {
          PlainStep(css, i);
        } else {
          UrlStep(css, i);
          next := end;
          piece := css[i..end];
        }
      }
      assert before == piece + StripFrom(css, next, quote);
      Regroup(out, piece, StripFrom(css, next, quote));
      out := out + piece;
      i := next;
    }
    StripFromEnds(css, quote);
    assert out + "" == out;
  }
}
