/** What `stripComments` does with each kind of text, written out: comments, quoted texts, urls and everything else. */
module CssCopies {
  import opened Text
  import opened CssLexer

  /** No star and slash in it. */
  predicate Unbroken(c: string) {
    forall i :: 0 <= i && i + 1 < |c| ==> !(c[i] == '*' && c[i + 1] == '/')
  }

  /** The text does not reach `end`: every occurrence follows a backslash that escapes it. */
  predicate Within(end: char, body: string) {
    body == "" ||
    if body[0] == '\\' then |body| >= 2 && Within(end, body[2..]) else body[0] != end && Within(end, body[1..])
  }

  // ----- comments -----

  lemma {:induction false} FirstCommentEnd(c: string, rest: string)
    requires Unbroken(c)
    ensures CommentEnd(c + "*/" + rest) == |c| + 2
  {
    var s := c + "*/" + rest;
    if c != "" {
      assert s[1] == if |c| == 1 then '*' else c[1];
      assert s[1..] == c[1..] + "*/" + rest;
      FirstCommentEnd(c[1..], rest);
    }
  }

  lemma {:induction false} NoCommentEnd(c: string)
    requires Unbroken(c)
    ensures CommentEnd(c) == |c|
  {
    if |c| >= 2 {
      NoCommentEnd(c[1..]);
    }
  }

  /** Main: a comment, which ends at its first star and slash, becomes one space. */
  lemma CommentBecomesSpace(word: bool, c: string, rest: string)
    requires Unbroken(c)
    ensures Strip(Outside(word), "/*" + (c + "*/" + rest)) == " " + Strip(START, rest)
  {
    var s := "/*" + (c + "*/" + rest);
    assert s[0] == '/' && s[1] == '*' && s[2..] == c + "*/" + rest;
    FirstCommentEnd(c, rest);
    assert Length(Outside(word), s) == |c| + 4;
    assert s[|c| + 4..] == rest;
  }

  /** A comment that never ends takes the rest of the text with it. */
  lemma OpenCommentBecomesSpace(word: bool, c: string)
    requires Unbroken(c)
    ensures Strip(Outside(word), "/*" + c) == " "
  {
    var s := "/*" + c;
    assert s[0] == '/' && s[1] == '*' && s[2..] == c;
    NoCommentEnd(c);
    assert s[|s|..] == "";
    assert " " + "" == " ";
  }

  // ----- quoted texts -----

  lemma InsideStep(quote: char, s: string)
    requires s != ""
    ensures s[0] == '\\' && |s| >= 2 ==> Strip(Inside(quote), s) == s[..2] + Strip(Inside(quote), s[2..])
    ensures s[0] == '\\' && |s| == 1 ==> Strip(Inside(quote), s) == s
    ensures s[0] == quote != '\\' ==> Strip(Inside(quote), s) == s[..1] + Strip(START, s[1..])
    ensures s[0] != '\\' && s[0] != quote ==> Strip(Inside(quote), s) == s[..1] + Strip(Inside(quote), s[1..])
  {
    StripUnfolds(Inside(quote), s);
  }

  lemma {:induction false} InsideIsCopied(quote: char, body: string, rest: string)
    requires Within(quote, body) && quote != '\\'
    ensures Strip(Inside(quote), body + ([quote] + rest)) == body + ([quote] + Strip(START, rest))
  {
    var t, out := [quote] + rest, [quote] + Strip(START, rest);
    hide Strip;
    var s := body + t;
    if body == "" {
      QuoteCloses(quote, rest);
      assert body + t == t && body + out == out;
    } else {
      var n := if body[0] == '\\' then 2 else 1;
      InsideIsCopied(quote, body[n..], rest);
      Glue(body, n, t);
      Glue(body, n, out);
      assert s[0] == body[0];
      InsideStep(quote, s);
    }
  }

  lemma QuoteCloses(quote: char, rest: string)
    requires quote != '\\'
    ensures Strip(Inside(quote), [quote] + rest) == [quote] + Strip(START, rest)
  {
    hide Strip;
    var s := [quote] + rest;
    assert s[1..] == rest && s[..1] == [quote];
    InsideStep(quote, s);
  }

  lemma Glue(body: string, n: nat, t: string)
    requires n <= |body|
    ensures body[..n] + (body[n..] + t) == body + t
    ensures (body + t)[..n] == body[..n] && (body + t)[n..] == body[n..] + t
  {
  }

  lemma {:induction false} OpenQuoteIsCopied(quote: char, body: string)
    requires Within(quote, body)
    ensures Strip(Inside(quote), body) == body
  {
    if body != "" {
      hide Strip;
      var n := if body[0] == '\\' then 2 else 1;
      OpenQuoteIsCopied(quote, body[n..]);
      InsideStep(quote, body);
      assert body == body[..n] + body[n..];
    }
  }

  /** Main: a text in either kind of quote is copied, whatever it looks like; scanning goes on behind it. */
  lemma QuotedIsCopied(word: bool, quote: char, body: string, rest: string)
    requires (quote == '\'' || quote == '\"') && Within(quote, body)
    ensures Strip(Outside(word), [quote] + (body + ([quote] + rest))) == [quote] + (body + ([quote] + Strip(START, rest)))
  {
    var s := [quote] + (body + ([quote] + rest));
    assert s[1..] == body + ([quote] + rest) && s[..1] == [quote];
    StripUnfolds(Outside(word), s);
    InsideIsCopied(quote, body, rest);
  }

  /** So is one that is never closed. */
  lemma UnclosedIsCopied(word: bool, quote: char, body: string)
    requires (quote == '\'' || quote == '\"') && Within(quote, body)
    ensures Strip(Outside(word), [quote] + body) == [quote] + body
  {
    var s := [quote] + body;
    assert s[1..] == body && s[..1] == [quote];
    StripUnfolds(Outside(word), s);
    OpenQuoteIsCopied(quote, body);
  }

  // ----- urls -----

  /** `url(` in any case. */
  predicate IsUrlOpen(head: string) {
    && |head| == 4 && (head[0] == 'u' || head[0] == 'U') && (head[1] == 'r' || head[1] == 'R')
    && (head[2] == 'l' || head[2] == 'L') && head[3] == '('
  }

  /** The address in an unquoted url: it begins with neither white space nor a quote. */
  predicate IsAddress(body: string) {
    Within(')', body) && (body != "" ==> !IsSpace(body[0]) && body[0] != '\'' && body[0] != '\"')
  }

  lemma {:induction false} BodyIsRead(body: string, rest: string)
    requires Within(')', body)
    ensures BodyLength(body + (")" + rest)) == |body| + 1 && BodyCloses(body + (")" + rest))
  {
    var s := body + (")" + rest);
    if body != "" {
      var n := if body[0] == '\\' then 2 else 1;
      BodyIsRead(body[n..], rest);
      assert s[0] == body[0] && s[n..] == body[n..] + (")" + rest);
    }
  }

  lemma {:induction false} SpacesAreRead(gap: string, rest: string)
    requires AllSpace(gap) && (rest != "" ==> !IsSpace(rest[0]))
    ensures LeadingSpaces(gap + rest) == |gap|
  {
    if gap == "" {
      assert gap + rest == rest;
    } else {
      assert (gap + rest)[1..] == gap[1..] + rest;
      SpacesAreRead(gap[1..], rest);
    }
  }

  lemma ClosingIsNoSpace()
    ensures !IsSpace(')')
  {
  }

  /** An unquoted url as the scanner meets it. */
  lemma UrlIsRead(head: string, gap: string, body: string, rest: string)
    requires IsUrlOpen(head) && AllSpace(gap) && IsAddress(body)
    ensures var s := head + (gap + (body + (")" + rest)));
      && IsUrl(false, s) && UrlLength(s) == |head| + |gap| + |body| + 1 && UrlCloses(s)
      && s[UrlLength(s)..] == rest && s[..UrlLength(s)] == head + (gap + (body + ")"))
  {
    hide IsSpace, AllSpace;
    var tail := body + (")" + rest);
    var s := head + (gap + tail);
    ClosingIsNoSpace();
    assert tail[0] == if body == "" then ')' else body[0];
    SpacesAreRead(gap, tail);
    assert s[4..] == gap + tail;
    assert UrlStart(s) == 4 + |gap|;
    assert s[4 + |gap|..] == tail;
    assert s[4 + |gap|] == tail[0];
    BodyIsRead(body, rest);
  }

  /** Main: an unquoted url is copied, comment signs and quotes in it included. */
  lemma UrlIsCopied(head: string, gap: string, body: string, rest: string)
    requires IsUrlOpen(head) && AllSpace(gap) && IsAddress(body)
    ensures Strip(START, head + (gap + (body + (")" + rest)))) == head + (gap + (body + ")")) + Strip(START, rest)
  {
    hide IsUrl, UrlLength, AllSpace, IsAddress;
    var s := head + (gap + (body + (")" + rest)));
    assert s[0] == head[0] && s[1] == head[1];
    UrlIsRead(head, gap, body, rest);
    StripUnfolds(START, s);
  }

  // ----- everything else -----

  /** The characters that keep a `url(` behind them from being one. */
  predicate IsNameChar(c: char) {
    'a' <= c <= 'z' || 'A' <= c <= 'Z' || '0' <= c <= '9' || c == '_' || c == '-'
  }

  /** Main: any other character is copied: one that opens no quote, no comment and no url. */
  lemma PlainIsCopied(word: bool, c: char, rest: string)
    requires c != '\'' && c != '\"' && !(c == '/' && rest != "" && rest[0] == '*')
    requires word || |rest| < 3 || !IsUrlOpen([c] + rest[..3])
    ensures Strip(Outside(word), [c] + rest) == [c] + Strip(Outside(IsNameChar(c)), rest)
  {
    hide Strip, IsSpace;
    var s := [c] + rest;
    assert s[1..] == rest && s[..1] == [c];
    assert |rest| >= 3 ==> s[..4] == [c] + rest[..3];
    assert IsUrlHead(s) ==> IsUrlOpen(s[..4]);
    PlainStep(word, s);
  }

  lemma PlainStep(word: bool, s: string)
    requires s != "" && !IsQuote(s[0]) && !IsCommentHead(s) && !IsUrl(word, s)
    ensures Strip(Outside(word), s) == s[..1] + Strip(Outside(IsNameChar(s[0])), s[1..])
  {
    hide IsUrl, IsQuote, IsCommentHead;
    StripUnfolds(Outside(word), s);
  }
}
