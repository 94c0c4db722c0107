/**
 The CSS scanners of the template runtime: `scanUnquotedUrl` and `stripComments`.

 A declaration block is read as a sequence of tokens: quoted characters, comments,
 unquoted `url(...)` tokens and plain characters.  Unterminated quotes, comments and
 url tokens reach to the end of the text.
 */
module CssLexer {
  import opened Text

  /** Where the scanner stands: outside quotes (and whether the previous character can be part of an
      identifier, which stops `url(` from being recognised), or inside a quoted string. */
  datatype Mode = Outside(word: bool) | Inside(quote: char)

  datatype Kind = Plain | Quoted | Comment | Url

  datatype Token = Token(kind: Kind, text: string)

  const START := Outside(false)

  predicate IsQuote(c: char) {
    c == '\'' || c == '\"'
  }

  predicate IsWord(c: char) {
    'a' <= c <= 'z' || 'A' <= c <= 'Z' || '0' <= c <= '9' || c == '_' || c == '-'
  }

  predicate IsUrlHead(s: string) {
    && |s| >= 4
    && (s[0] == 'u' || s[0] == 'U')
    && (s[1] == 'r' || s[1] == 'R')
    && (s[2] == 'l' || s[2] == 'L')
    && s[3] == '('
  }

  function LeadingSpaces(s: string): (n: nat)
    ensures n <= |s|
    ensures forall i :: 0 <= i < n ==> IsSpace(s[i])
    ensures n < |s| ==> !IsSpace(s[n])
  {
    if s != "" && IsSpace(s[0]) then 1 + LeadingSpaces(s[1..]) else 0
  }

  /** Length up to and including the first unescaped `)`, or the whole text when there is none. */
  function BodyLength(s: string): (n: nat)
    ensures n <= |s|
    ensures s != "" ==> n >= 1
  {
    if s == "" then 0
    else if s[0] == ')' then 1
    else if s[0] == '\\' && |s| >= 2 then 2 + BodyLength(s[2..])
    else 1 + BodyLength(s[1..])
  }

  /** Whether the text has an unescaped `)`. */
  predicate BodyCloses(s: string) {
    if s == "" then false
    else if s[0] == ')' then true
    else if s[0] == '\\' && |s| >= 2 then BodyCloses(s[2..])
    else BodyCloses(s[1..])
  }

  function UrlStart(s: string): (n: nat)
    requires IsUrlHead(s)
    ensures 4 <= n <= |s|
  {
    4 + LeadingSpaces(s[4..])
  }

  /** An unquoted url token starts here: `url(` not preceded by an identifier character and not
      followed by a quote. */
  predicate IsUrl(word: bool, s: string) {
    !word && IsUrlHead(s) && !(UrlStart(s) < |s| && IsQuote(s[UrlStart(s)]))
  }

  function UrlLength(s: string): (n: nat)
    requires IsUrlHead(s)
    ensures 4 <= n <= |s|
  {
    UrlStart(s) + BodyLength(s[UrlStart(s)..])
  }

  predicate UrlCloses(s: string)
    requires IsUrlHead(s)
  {
    BodyCloses(s[UrlStart(s)..])
  }

  predicate IsCommentHead(s: string) {
    |s| >= 2 && s[0] == '/' && s[1] == '*'
  }

  /** Length up to and including the first star and slash, or the whole text when there is none. */
  function CommentEnd(s: string): (n: nat)
    ensures n <= |s|
  {
    if |s| < 2 then |s|
    else if s[0] == '*' && s[1] == '/' then 2
    else 1 + CommentEnd(s[1..])
  }

  // ------------------------------------------------------------------ one token

  function KindOf(m: Mode, s: string): Kind
    requires s != ""
  {
    if m.Inside? || IsQuote(s[0]) then Quoted
    else if IsCommentHead(s) then Comment
    else if IsUrl(m.word, s) then Url
    else Plain
  }

  function Length(m: Mode, s: string): (n: nat)
    requires s != ""
    ensures 1 <= n <= |s|
  {
    match KindOf(m, s)
    case Comment => 2 + CommentEnd(s[2..])
    case Url => UrlLength(s)
    case Quoted => if m.Inside? && s[0] == '\\' && |s| >= 2 then 2 else 1
    case Plain => 1
  }

  function After(m: Mode, s: string): Mode
    requires s != ""
  {
    match KindOf(m, s)
    case Comment => START
    case Url => START
    case Plain => Outside(IsWord(s[0]))
    case Quoted =>
      if m.Outside? then Inside(s[0])
      else if s[0] != '\\' && s[0] == m.quote then START
      else m
  }

  // ------------------------------------------------------------------ the whole text

  function Lex(m: Mode, s: string): seq<Token>
    decreases |s|
  {
    if s == "" then []
    else
      var n := Length(m, s);
      [Token(KindOf(m, s), s[..n])] + Lex(After(m, s), s[n..])
  }

  function Blank(t: Token): Token {
    if t.kind == Comment then Token(Plain, " ") else t
  }

  function Blanked(ts: seq<Token>): seq<Token> {
    if ts == [] then [] else [Blank(ts[0])] + Blanked(ts[1..])
  }

  function TextOf(ts: seq<Token>): string {
    if ts == [] then "" else ts[0].text + TextOf(ts[1..])
  }

  /** The text with every comment replaced by a space. */
  function Strip(m: Mode, s: string): string
    decreases |s|
  {
    if s == "" then ""
    else
      var n := Length(m, s);
      (if KindOf(m, s) == Comment then " " else s[..n]) + Strip(After(m, s), s[n..])
  }

  predicate NoComment(m: Mode, s: string)
    decreases |s|
  {
    s == "" || (KindOf(m, s) != Comment && NoComment(After(m, s), s[Length(m, s)..]))
  }

  lemma StripUnfolds(m: Mode, s: string)
    requires s != ""
    ensures Strip(m, s)
            == (if KindOf(m, s) == Comment then " " else s[..Length(m, s)]) + Strip(After(m, s), s[Length(m, s)..])
  {
  }

  // ------------------------------------------------------------------ the text of a token list

  /** Lexing loses nothing: the tokens spell the text. */
  lemma {:induction false} LexSpells(m: Mode, s: string)
    ensures TextOf(Lex(m, s)) == s
    decreases |s|
  {
    if s != "" {
      hide KindOf, Length, After;
      var n := Length(m, s);
      LexSpells(After(m, s), s[n..]);
      assert Lex(m, s)[1..] == Lex(After(m, s), s[n..]);
      assert s == s[..n] + s[n..];
    }
  }

  /** Stripping spells the tokens with every comment blanked. */
  lemma {:induction false} StripSpells(m: Mode, s: string)
    ensures TextOf(Blanked(Lex(m, s))) == Strip(m, s)
    decreases |s|
  {
    if s != "" {
      hide KindOf, Length, After, Strip;
      var n := Length(m, s);
      StripSpells(After(m, s), s[n..]);
      StripUnfolds(m, s);
      var ts := Lex(m, s);
      assert ts[1..] == Lex(After(m, s), s[n..]);
      assert Blanked(ts)[1..] == Blanked(ts[1..]);
    } else {
      assert Strip(m, s) == "";
    }
  }

  // ------------------------------------------------------------------ a token in a longer text

  lemma {:induction false} LeadingSpacesStable(a: string, b: string)
    requires LeadingSpaces(a) < |a|
    ensures LeadingSpaces(a + b) == LeadingSpaces(a)
  {
    if IsSpace(a[0]) {
      assert (a + b)[1..] == a[1..] + b;
      LeadingSpacesStable(a[1..], b);
    }
  }

  lemma {:induction false} BodyStable(a: string, b: string)
    requires BodyCloses(a)
    ensures BodyLength(a + b) == BodyLength(a) && BodyCloses(a + b)
  {
    if a[0] == ')' {
    } else if a[0] == '\\' && |a| >= 2 {
      assert (a + b)[2..] == a[2..] + b;
      BodyStable(a[2..], b);
    } else {
      assert (a + b)[1..] == a[1..] + b;
      BodyStable(a[1..], b);
    }
  }

  /** The closed body of a url, cut off right after its bracket, is still closed there. */
  lemma {:induction false} BodyPrefix(s: string, n: nat)
    requires BodyCloses(s) && BodyLength(s) <= n <= |s|
    ensures BodyCloses(s[..n]) && BodyLength(s[..n]) == BodyLength(s)
  {
    if s[0] == ')' {
    } else if s[0] == '\\' && |s| >= 2 {
      assert s[..n][2..] == s[2..][..n - 2];
      BodyPrefix(s[2..], n - 2);
    } else {
      assert s[..n][1..] == s[1..][..n - 1];
      BodyPrefix(s[1..], n - 1);
    }
  }

  lemma {:induction false} OpenBodyIsAll(s: string)
    requires !BodyCloses(s)
    ensures BodyLength(s) == |s|
  {
    if s == "" {
    } else if s[0] == '\\' && |s| >= 2 {
      OpenBodyIsAll(s[2..]);
    } else {
      OpenBodyIsAll(s[1..]);
    }
  }

  lemma {:induction false} BodyEndsInBracket(s: string)
    requires BodyCloses(s)
    ensures 1 <= BodyLength(s) && s[BodyLength(s) - 1] == ')'
  {
    if s[0] == ')' {
    } else if s[0] == '\\' && |s| >= 2 {
      BodyEndsInBracket(s[2..]);
    } else {
      BodyEndsInBracket(s[1..]);
    }
  }

  /** A url token ends in its bracket or at the end of the text. */
  lemma UrlEndsInBracket(s: string)
    requires IsUrlHead(s)
    ensures UrlCloses(s) ==> s[UrlLength(s) - 1] == ')'
    ensures !UrlCloses(s) ==> UrlLength(s) == |s|
  {
    var body := s[UrlStart(s)..];
    if UrlCloses(s) {
      BodyEndsInBracket(body);
    } else {
      OpenBodyIsAll(body);
    }
  }

  /** A closed url token is recognised with the same length whatever follows it. */
  lemma UrlStable(word: bool, a: string, b: string)
    requires IsUrl(word, a) && UrlCloses(a)
    ensures IsUrl(word, a + b) && UrlCloses(a + b) && UrlLength(a + b) == UrlLength(a)
  {
    var s := a + b;
    assert s[4..] == a[4..] + b;
    LeadingSpacesStable(a[4..], b);
    assert UrlStart(s) == UrlStart(a);
    assert s[UrlStart(a)..] == a[UrlStart(a)..] + b;
    BodyStable(a[UrlStart(a)..], b);
  }

  lemma UrlPrefix(word: bool, s: string, n: nat)
    requires IsUrl(word, s) && UrlCloses(s) && UrlLength(s) <= n <= |s|
    ensures IsUrl(word, s[..n]) && UrlCloses(s[..n]) && UrlLength(s[..n]) == UrlLength(s)
  {
    var k := UrlStart(s);
    var a := s[..n];
    assert a[4..] + s[n..] == s[4..];
    assert s[4..][k - 4] == s[k] && !IsSpace(s[k]);
    assert a[4..] == s[4..][..n - 4];
    LeadingSpacesPrefix(s[4..], n - 4);
    assert a[k..] == s[k..][..n - k];
    BodyPrefix(s[k..], n - k);
  }

  lemma {:induction false} LeadingSpacesPrefix(s: string, n: nat)
    requires LeadingSpaces(s) < n <= |s|
    ensures LeadingSpaces(s[..n]) == LeadingSpaces(s)
  {
    if IsSpace(s[0]) {
      assert s[..n][1..] == s[1..][..n - 1];
      LeadingSpacesPrefix(s[1..], n - 1);
    }
  }

  /** `url(` followed by a quote stays quoted whatever follows the quote. */
  predicate IsQuotedUrl(s: string) {
    IsUrlHead(s) && UrlStart(s) < |s| && IsQuote(s[UrlStart(s)])
  }

  lemma QuotedUrlStable(a: string, b: string)
    requires IsQuotedUrl(a)
    ensures IsQuotedUrl(a + b)
  {
    assert (a + b)[4..] == a[4..] + b;
    LeadingSpacesStable(a[4..], b);
  }

  // ------------------------------------------------------------------ stripping and lexing again

  /** Stripping keeps the first character unless a comment starts there. */
  lemma StripHead(m: Mode, s: string)
    requires s != ""
    ensures Strip(m, s) != ""
    ensures Strip(m, s)[0] == if KindOf(m, s) == Comment then ' ' else s[0]
  {
  }

  lemma StripPlain(m: Mode, s: string)
    requires m.Outside? && s != "" && KindOf(m, s) == Plain
    ensures Strip(m, s) == [s[0]] + Strip(Outside(IsWord(s[0])), s[1..])
  {
  }

  predicate SpaceThenQuote(s: string) {
    LeadingSpaces(s) < |s| && IsQuote(s[LeadingSpaces(s)])
  }

  lemma SpaceThenQuoteTail(s: string)
    requires s != "" && IsSpace(s[0])
    ensures SpaceThenQuote(s) <==> SpaceThenQuote(s[1..])
  {
  }

  lemma SpaceIsCopied(m: Mode, s: string)
    requires m.Outside? && s != "" && IsSpace(s[0])
    ensures Strip(m, s) == [s[0]] + Strip(Outside(IsWord(s[0])), s[1..])
  {
    assert KindOf(m, s) == Plain;
    hide KindOf, IsWord;
    StripPlain(m, s);
  }

  /** White space and then a quote: stripping keeps both. */
  lemma {:induction false} StripKeepsSpaceQuote(m: Mode, s: string)
    requires m.Outside? && SpaceThenQuote(s)
    ensures SpaceThenQuote(Strip(m, s))
    decreases |s|
  {
    if IsSpace(s[0]) {
      hide Strip, SpaceThenQuote, IsWord;
      SpaceIsCopied(m, s);
      SpaceThenQuoteTail(s);
      StripKeepsSpaceQuote(Outside(IsWord(s[0])), s[1..]);
      SpaceThenQuoteTail(Strip(m, s));
    } else {
      StripHead(m, s);
    }
  }

  /** A character that starts no special token was copied from the text. */
  lemma HeadWasCopied(m: Mode, s: string)
    requires m.Outside? && Strip(m, s) != ""
    requires var c := Strip(m, s)[0]; !IsQuote(c) && c != ' ' && c != '/' && c != 'u' && c != 'U'
    ensures s != "" && s[0] == Strip(m, s)[0]
    ensures Strip(m, s)[1..] == Strip(Outside(IsWord(s[0])), s[1..])
  {
    StripHead(m, s);
    StripPlain(m, s);
  }

  /** If stripping the rest produced `rl(`, the rest began with it. */
  lemma HeadCameFromText(c: char, s: string)
    requires IsUrlHead([c] + Strip(Outside(IsWord(c)), s))
    ensures IsUrlHead([c] + s)
    ensures Strip(Outside(IsWord(c)), s)[3..] == Strip(START, s[3..])
  {
    hide Strip, KindOf;
    var t := Strip(Outside(IsWord(c)), s);
    var w := [c] + t;
    assert t[0] == w[1] && t[1] == w[2] && t[2] == w[3];
    HeadWasCopied(Outside(IsWord(c)), s);
    HeadWasCopied(Outside(IsWord(s[0])), s[1..]);
    assert s[1..][1..] == s[2..] && t[1..][1..] == t[2..];
    HeadWasCopied(Outside(IsWord(s[1])), s[2..]);
    assert s[2..][1..] == s[3..] && t[2..][1..] == t[3..];
    assert s[0] == t[0] && s[1] == t[1] && s[2] == t[2];
  }

  lemma NoCommentCreated(c: char, s: string)
    requires !IsCommentHead([c] + s)
    ensures !IsCommentHead([c] + Strip(Outside(IsWord(c)), s))
  {
    if s != "" {
      StripHead(Outside(IsWord(c)), s);
      assert ([c] + s)[1] == s[0];
    }
  }

  lemma NoUrlCreated(word: bool, c: char, s: string)
    requires !IsUrl(word, [c] + s)
    ensures !IsUrl(word, [c] + Strip(Outside(IsWord(c)), s))
  {
    hide Strip, IsWord, LeadingSpaces;
    var x := Strip(Outside(IsWord(c)), s);
    if !word && IsUrlHead([c] + x) {
      HeadCameFromText(c, s);
      assert ([c] + s)[4..] == s[3..];
      assert ([c] + s)[4..][LeadingSpaces(s[3..])] == s[3..][LeadingSpaces(s[3..])];
      StripKeepsSpaceQuote(START, s[3..]);
      assert ([c] + x)[4..] == Strip(START, s[3..]);
    }
  }

  /** A plain character stays plain in front of the stripped rest: no comment and no url token is
      created. */
  lemma PlainStaysPlain(m: Mode, s: string)
    requires m.Outside? && s != "" && KindOf(m, s) == Plain
    ensures KindOf(m, Strip(m, s)) == Plain
  {
    StripPlain(m, s);
    assert s == [s[0]] + s[1..];
    NoCommentCreated(s[0], s[1..]);
    NoUrlCreated(m.word, s[0], s[1..]);
  }

  lemma CommentBecomesPlain(x: string, m: Mode)
    requires m.Outside?
    ensures KindOf(m, " " + x) == Plain && After(m, " " + x) == START
  {
    var s := " " + x;
    assert s[0] == ' ';
  }

  /** What stripping emits for the first token is read back as one token of the same extent. */
  lemma FirstTokenRelexed(m: Mode, s: string)
    requires s != ""
    ensures var t := Strip(m, s);
      var out := if KindOf(m, s) == Comment then " " else s[..Length(m, s)];
      && t == out + Strip(After(m, s), s[Length(m, s)..])
      && KindOf(m, t) == (if KindOf(m, s) == Comment then Plain else KindOf(m, s))
      && Length(m, t) == |out|
      && After(m, t) == After(m, s)
  {
    var n := Length(m, s);
    var x := Strip(After(m, s), s[n..]);
    var t := Strip(m, s);
    match KindOf(m, s)
    case Comment =>
      CommentBecomesPlain(x, m);
    case Plain =>
      PlainStaysPlain(m, s);
      StripPlain(m, s);
    case Url =>
      if UrlCloses(s) {
        UrlPrefix(m.word, s, n);
        UrlStable(m.word, s[..n], x);
        assert t == s[..n] + x;
        assert t[0] == s[0];
      } else {
        UrlEndsInBracket(s);
        assert n == |s| && x == "";
        assert t == s;
      }
    case Quoted =>
      assert t == s[..n] + x;
      if n == 1 && s[0] == '\\' && m.Inside? {
        assert s[n..] == "";
      }
  }

  /** The main theorem about `stripComments`: reading its output gives exactly the tokens of its
      input, with every comment turned into one plain space. */
  lemma {:induction false} StripRelexes(m: Mode, s: string)
    ensures Lex(m, Strip(m, s)) == Blanked(Lex(m, s))
    ensures NoComment(m, Strip(m, s))
    decreases |s|
  {
    if s != "" {
      var n := Length(m, s);
      var t := Strip(m, s);
      FirstTokenRelexed(m, s);
      var out := if KindOf(m, s) == Comment then " " else s[..n];
      var rest := Strip(After(m, s), s[n..]);
      assert t[..|out|] == out && t[|out|..] == rest;
      StripRelexes(After(m, s), s[n..]);
      assert Lex(m, s)[1..] == Lex(After(m, s), s[n..]);
    }
  }

  /** A text without comments is its own stripping, and only such a text is. */
  lemma {:induction false} StripFixpoint(m: Mode, s: string)
    ensures NoComment(m, s) <==> Strip(m, s) == s
  {
    if NoComment(m, s) {
      StripOfNoComment(m, s);
    } else if Strip(m, s) == s {
      StripRelexes(m, s);
    }
  }

  lemma {:induction false} StripOfNoComment(m: Mode, s: string)
    requires NoComment(m, s)
    ensures Strip(m, s) == s
    decreases |s|
  {
    if s != "" {
      var n := Length(m, s);
      StripOfNoComment(After(m, s), s[n..]);
      assert s == s[..n] + s[n..];
    }
  }

  /** `stripComments` is idempotent on every text. */
  lemma StripIdempotent(s: string)
    ensures Strip(START, Strip(START, s)) == Strip(START, s)
  {
    StripRelexes(START, s);
    StripOfNoComment(START, Strip(START, s));
  }
}
