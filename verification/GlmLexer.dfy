/** The GLM lexer: strip comments and line ends, split around braces, semicolons and blanks. */
module GlmLexer {
  datatype Token = Open | Close | Semi | Word(text: string)

  function Text(t: Token): string {
    match t case Open => "{" case Close => "}" case Semi => ";" case Word(s) => s
  }

  // ------------------------------------------------------------------ the pipeline of _tokenizeGlm

  /** `re.sub(r'http:\/\/', '', s)` */
  function StripHttp(s: string): string {
    if s == "" then ""
    else if |s| >= 7 && s[..7] == "http://" then StripHttp(s[7..])
    else [s[0]] + StripHttp(s[1..])
  }

  predicate StartsComment(s: string) {
    |s| >= 2 && s[0] == '/' && s[1] == '/' && '\n' in s
  }

  function AfterNewline(s: string): (r: string)
    requires '\n' in s
    ensures |r| < |s|
  {
    if s[0] == '\n' then s[1..] else AfterNewline(s[1..])
  }

  /** `re.sub(r'\/\/.*\n', '', s)`; a comment on the last line has no line end and stays. */
  function StripComments(s: string): string
    decreases |s|
  {
    if s == "" then ""
    else if StartsComment(s) then StripComments(AfterNewline(s))
    else [s[0]] + StripComments(s[1..])
  }

  /** Line ends go, tabs become blanks. */
  function Clean(s: string): string {
    if s == "" then ""
    else if s[0] == '\n' || s[0] == '\r' then Clean(s[1..])
    else [if s[0] == '\t' then ' ' else s[0]] + Clean(s[1..])
  }

  /** The characters the text is split around: `;|\}|\{|\s`. */
  predicate IsDelimiter(c: char) {
    c == ';' || c == '{' || c == '}' || c == ' ' || c == '\n' || c == '\r' || c == '\t'
    || c == '\U{000B}' || c == '\U{000C}'
  }

  /** The token a delimiter leaves behind; only the blank is filtered out. */
  function DelimiterToken(c: char): seq<Token> {
    if c == ';' then [Semi]
    else if c == '{' then [Open]
    else if c == '}' then [Close]
    else if c == ' ' then []
    else [Word([c])]
  }

  function Flush(word: string): seq<Token> {
    if word == "" then [] else [Word(word)]
  }

  /** Splitting and filtering; word is what has been read of the current piece. */
  function Tokens(s: string, word: string): seq<Token> {
    if s == "" then Flush(word)
    else if IsDelimiter(s[0]) then Flush(word) + DelimiterToken(s[0]) + Tokens(s[1..], "")
    else Tokens(s[1..], word + [s[0]])
  }

  function Tokenize(input: string): seq<Token> {
    Tokens(Clean(StripComments(StripHttp(input))), "")
  }

  // ------------------------------------------------------------------ phrases

  predicate IsWordChar(c: char) {
    !IsDelimiter(c)
  }

  ghost predicate NoSlashes(s: string) {
    forall i :: 0 <= i < |s| - 1 ==> !(s[i] == '/' && s[i + 1] == '/')
  }

  /** The pieces between single blanks. */
  function SplitWords(s: string, word: string): (r: seq<string>)
    ensures r != []
  {
    if s == "" then [word]
    else if s[0] == ' ' then [word] + SplitWords(s[1..], "")
    else SplitWords(s[1..], word + [s[0]])
  }

  function Join(words: seq<string>): string {
    if words == [] then ""
    else if |words| == 1 then words[0]
    else words[0] + " " + Join(words[1..])
  }

  function WordTokens(words: seq<string>): seq<Token> {
    seq(|words|, i requires 0 <= i < |words| => Word(words[i]))
  }

  /** A non-empty list of words with single blanks between them and nothing that could be taken
      for a delimiter or a comment. */
  ghost predicate IsPhrase(s: string) {
    && NoSlashes(s)
    && (forall c :: c in s ==> IsWordChar(c) || c == ' ')
    && (forall w :: w in SplitWords(s, "") ==> w != "")
  }

  ghost predicate IsWord(s: string) {
    s != "" && NoSlashes(s) && forall c :: c in s ==> IsWordChar(c)
  }

  lemma {:induction false} JoinSplits(s: string, word: string)
    ensures Join(SplitWords(s, word)) == word + s
  {
    if s == "" {
    } else if s[0] == ' ' {
      JoinSplits(s[1..], "");
      var rest := SplitWords(s[1..], "");
      assert ([word] + rest)[1..] == rest && Join(rest) == s[1..];
      assert word + s == word + " " + s[1..];
    } else {
      JoinSplits(s[1..], word + [s[0]]);
      assert word + s == word + [s[0]] + s[1..];
    }
  }

  lemma {:induction false} WordIsItsOnlyWord(s: string, word: string)
    requires forall c :: c in s ==> IsWordChar(c)
    ensures SplitWords(s, word) == [word + s]
  {
    if s == "" {
      assert word + s == word;
    } else {
      assert s == [s[0]] + s[1..] && s[0] in s;
      WordIsItsOnlyWord(s[1..], word + [s[0]]);
      assert word + s == word + [s[0]] + s[1..];
    }
  }

  lemma {:induction false} WordIsPhrase(s: string)
    requires IsWord(s)
    ensures IsPhrase(s) && SplitWords(s, "") == [s]
  {
    WordIsItsOnlyWord(s, "");
    assert "" + s == s;
  }

  lemma {:induction false} PhraseTokens(s: string, word: string)
    requires forall c :: c in s ==> IsWordChar(c) || c == ' '
    requires forall w :: w in SplitWords(s, word) ==> w != ""
    ensures Tokens(s, word) == WordTokens(SplitWords(s, word))
  {
    assert s != "" ==> s == [s[0]] + s[1..] && s[0] in s;
    var words := SplitWords(s, word);
    if s == "" {
      assert word in words;
    } else if s[0] == ' ' {
      var rest := SplitWords(s[1..], "");
      assert words == [word] + rest;
      forall w | w in rest
        ensures w != ""
      {
        assert w in words;
      }
      PhraseTokens(s[1..], "");
      assert word in words;
      assert WordTokens(words) == [Word(word)] + WordTokens(rest);
    } else {
      PhraseTokens(s[1..], word + [s[0]]);
    }
  }

  // ------------------------------------------------------------------ printed segments

  /** A delimiter ends a word just like the end of the text does. */
  lemma {:induction false} TokensAround(a: string, d: char, b: string, word: string)
    requires IsDelimiter(d)
    ensures Tokens(a + [d] + b, word) == Tokens(a, word) + DelimiterToken(d) + Tokens(b, "")
  {
    var s := a + [d] + b;
    if a == "" {
      assert s[0] == d && s[1..] == b;
    } else {
      assert s[0] == a[0] && s[1..] == a[1..] + [d] + b;
      if IsDelimiter(a[0]) {
        TokensAround(a[1..], d, b, "");
      } else {
        TokensAround(a[1..], d, b, word + [a[0]]);
      }
    }
  }

  lemma {:induction false} CleanConcat(a: string, b: string)
    ensures Clean(a + b) == Clean(a) + Clean(b)
  {
    if a == "" {
      assert a + b == b;
    } else {
      assert (a + b)[0] == a[0] && (a + b)[1..] == a[1..] + b;
      CleanConcat(a[1..], b);
    }
  }

  lemma {:induction false} CleanPhrase(s: string)
    requires forall c :: c in s ==> IsWordChar(c) || c == ' '
    ensures Clean(s) == s
  {
    if s != "" {
      assert s == [s[0]] + s[1..] && s[0] in s;
      CleanPhrase(s[1..]);
    }
  }

  /** Printed text that stays clear of comments and ends where a token ends: it can be lexed
      on its own, whatever comes after it. */
  ghost predicate IsSegment(s: string, ts: seq<Token>) {
    && NoSlashes(s)
    && (s != "" ==> s[|s| - 1] != '/')
    && (Clean(s) != "" ==> IsDelimiter(Clean(s)[|Clean(s)| - 1]))
    && Tokens(Clean(s), "") == ts
  }

  lemma {:induction false} NoSlashesConcat(a: string, b: string)
    requires NoSlashes(a) && NoSlashes(b) && (a == "" || b == "" || a[|a| - 1] != '/' || b[0] != '/')
    ensures NoSlashes(a + b)
  {
    var s := a + b;
    forall i | 0 <= i < |s| - 1
      ensures !(s[i] == '/' && s[i + 1] == '/')
    {
      if i >= |a| {
        assert s[i] == b[i - |a|] && s[i + 1] == b[i + 1 - |a|];
      }
    }
  }

  lemma {:induction false} TokensConcat(ca: string, cb: string)
    requires ca != "" ==> IsDelimiter(ca[|ca| - 1])
    ensures Tokens(ca + cb, "") == Tokens(ca, "") + Tokens(cb, "")
  {
    if ca == "" {
      assert ca + cb == cb;
    } else {
      var front, d := ca[..|ca| - 1], ca[|ca| - 1];
      assert ca == front + [d] + "" && ca + cb == front + [d] + cb;
      TokensAround(front, d, "", "");
      TokensAround(front, d, cb, "");
    }
  }

  lemma {:induction false} SegmentsConcat(a: string, ta: seq<Token>, b: string, tb: seq<Token>)
    requires IsSegment(a, ta) && IsSegment(b, tb)
    ensures IsSegment(a + b, ta + tb)
  {
    CleanConcat(a, b);
    TokensConcat(Clean(a), Clean(b));
    NoSlashesConcat(a, b);
    if b == "" { assert a + b == a; }
  }

  lemma {:induction false} HttpNeedsSlashes(s: string)
    requires NoSlashes(s)
    ensures StripHttp(s) == s
  {
    if s != "" {
      assert |s| >= 7 ==> s[..7][5] == s[5] && s[..7][6] == s[6];
      assert "http://"[5] == '/' && "http://"[6] == '/';
      HttpNeedsSlashes(s[1..]);
    }
  }

  lemma {:induction false} CommentNeedsSlashes(s: string)
    requires NoSlashes(s)
    ensures StripComments(s) == s
  {
    if s != "" { CommentNeedsSlashes(s[1..]); }
  }

  lemma {:induction false} SegmentTokenizes(s: string, ts: seq<Token>)
    requires IsSegment(s, ts)
    ensures Tokenize(s) == ts
  {
    HttpNeedsSlashes(s);
    CommentNeedsSlashes(s);
  }

  // ------------------------------------------------------------------ stylesheet links and comments

  /** a ends in the first k characters of "http://" and b starts with the rest. */
  ghost predicate StraddlesAt(a: string, b: string, k: nat) {
    && 0 < k < 7 && k <= |a| && 7 - k <= |b|
    && a[|a| - k..] == "http://"[..k] && b[..7 - k] == "http://"[k..]
  }

  ghost predicate Straddles(a: string, b: string) {
    exists k: nat :: StraddlesAt(a, b, k)
  }

  lemma {:induction false} EndsMeet(a: string, b: string, k: nat, link: string)
    requires |link| == 7 && 0 < k < 7 && k <= |a| && 7 - k <= |b| && a[|a| - k..] == link[..k] && b[..7 - k] == link[k..]
    ensures a[|a| - 1] == link[k - 1] && b[0] == link[k]
  {
    assert a[|a| - 1] == a[|a| - k..][k - 1];
    assert b[0] == b[..7 - k][0];
  }

  lemma LinkCharacters(k: nat)
    requires 0 < k < 7
    ensures "http://"[k] != 'h' && "http://"[k] != '\n' && ("http://"[k] == '/' ==> k >= 5) && (k == 6 ==> "http://"[k - 1] == '/')
    ensures "http://"[..5] == "http:"
    ensures "http://"[k - 1] == 'h' || "http://"[k - 1] == 't' || "http://"[k - 1] == 'p' || "http://"[k - 1] == ':' || "http://"[k - 1] == '/'
  {
  }

  /** What is on either side of the cut. */
  lemma {:induction false} StraddleEnds(a: string, b: string) returns (k: nat)
    requires Straddles(a, b)
    ensures 0 < k < 7 && a != "" && b != "" && a[|a| - 1] == "http://"[k - 1] && b[0] == "http://"[k]
    ensures b[0] != 'h' && b[0] != '\n' && (k == 1 ==> a[|a| - 1] == 'h')
    ensures b[0] == '/' ==> a[|a| - 1] == '/' || (|a| >= 5 && a[|a| - 5..] == "http:")
  {
    k :| StraddlesAt(a, b, k);
    EndsMeet(a, b, k, "http://");
    LinkCharacters(k);
  }

  lemma {:induction false} StraddlesLonger(a: string, n: nat, b: string)
    requires n <= |a| && Straddles(a[n..], b)
    ensures Straddles(a, b)
  {
    var k: nat :| StraddlesAt(a[n..], b, k);
    assert a[|a| - k..] == a[n..][|a[n..]| - k..];
    assert StraddlesAt(a, b, k);
  }

  lemma {:induction false} LinkStraddles(a: string, b: string)
    requires 0 < |a| < 7 && |a + b| >= 7 && (a + b)[..7] == "http://"
    ensures Straddles(a, b)
  {
    var s, k := a + b, |a|;
    assert a[|a| - k..] == s[..7][..k] && b[..7 - k] == s[..7][k..];
    assert StraddlesAt(a, b, k);
  }

  lemma {:induction false} StripHttpConcat(a: string, b: string)
    requires !Straddles(a, b)
    ensures StripHttp(a + b) == StripHttp(a) + StripHttp(b)
    decreases |a|
  {
    hide Straddles;
    var s := a + b;
    if a == "" {
      assert s == b;
    } else if |a| >= 7 && a[..7] == "http://" {
      assert s[..7] == a[..7] && s[7..] == a[7..] + b;
      if Straddles(a[7..], b) { StraddlesLonger(a, 7, b); }
      StripHttpConcat(a[7..], b);
    } else {
      if |a| < 7 && |s| >= 7 && s[..7] == "http://" { LinkStraddles(a, b); }
      assert |a| >= 7 ==> s[..7] == a[..7];
      assert s[0] == a[0] && s[1..] == a[1..] + b;
      if Straddles(a[1..], b) { StraddlesLonger(a, 1, b); }
      StripHttpConcat(a[1..], b);
    }
  }

  /** The link text overlaps with nothing before it. */
  lemma {:induction false} StripHttpAt(a: string, b: string)
    ensures StripHttp(a + "http://" + b) == StripHttp(a) + StripHttp(b)
  {
    var rest := "http://" + b;
    assert a + "http://" + b == a + rest;
    if Straddles(a, rest) { var k := StraddleEnds(a, rest); }
    StripHttpConcat(a, rest);
    assert rest[..7] == "http://" && rest[7..] == b;
  }

  lemma {:induction false} StripCommentsAfter(a: string, b: string)
    requires NoSlashes(a) && (a == "" || a[|a| - 1] != '/' || b == "" || b[0] != '/')
    ensures StripComments(a + b) == a + StripComments(b)
  {
    if a == "" {
      assert a + b == b;
    } else {
      var s := a + b;
      assert s[0] == a[0] && s[1..] == a[1..] + b;
      assert !StartsComment(s);
      StripCommentsAfter(a[1..], b);
    }
  }

  lemma {:induction false} AfterNewlineAt(c: string, b: string)
    requires '\n' !in c
    ensures '\n' in c + "\n" + b && AfterNewline(c + "\n" + b) == b
  {
    var s := c + "\n" + b;
    assert s[|c|] == '\n';
    if c != "" {
      assert s[0] == c[0] && c[0] in c && s[1..] == c[1..] + "\n" + b;
      AfterNewlineAt(c[1..], b);
    }
  }

  lemma {:induction false} StripCommentAt(a: string, c: string, b: string)
    requires NoSlashes(a) && (a != "" ==> a[|a| - 1] != '/') && '\n' !in c
    ensures StripComments(a + "//" + c + "\n" + b) == a + StripComments(b)
  {
    var rest := "//" + c + "\n" + b;
    assert a + "//" + c + "\n" + b == a + rest;
    StripCommentsAfter(a, rest);
    AfterNewlineAt("//" + c, b);
    assert "//" + c + "\n" + b == rest;
  }

  lemma {:induction false} HttpAddsNoNewline(c: string)
    requires '\n' !in c
    ensures '\n' !in StripHttp(c)
    decreases |c|
  {
    if c != "" {
      assert forall d :: d in c[1..] ==> d in c;
      assert |c| >= 7 ==> forall d :: d in c[7..] ==> d in c;
      if |c| >= 7 && c[..7] == "http://" { HttpAddsNoNewline(c[7..]); } else { HttpAddsNoNewline(c[1..]); }
    }
  }

  /** Comments end with their line. */
  lemma {:induction false} StripCommentsByLine(x: string, y: string)
    ensures StripComments(x + "\n" + y) == StripComments(x + "\n") + StripComments(y)
    decreases |x|
  {
    var s, t := x + "\n" + y, x + "\n";
    assert s[|x|] == '\n' && t[|x|] == '\n';
    if x == "" {
      assert s[1..] == y && t[1..] == "";
    } else if StartsComment(t) {
      AfterNewlineMore(t, y);
      assert s == t + y;
      var k := LineEnd(t);
      if k < |x| {
        var rest := x[k + 1..];
        assert AfterNewline(t) == rest + "\n" && AfterNewline(s) == rest + "\n" + y;
        StripCommentsByLine(rest, y);
      } else {
        assert AfterNewline(t) == "" && AfterNewline(s) == y;
      }
    } else {
      assert s[0] == x[0] == t[0] && s[1..] == x[1..] + "\n" + y && t[1..] == x[1..] + "\n";
      assert s[1] == t[1];
      StripCommentsByLine(x[1..], y);
    }
  }

  lemma {:induction false} AfterNewlineMore(t: string, y: string)
    requires '\n' in t
    ensures '\n' in t + y && AfterNewline(t + y) == AfterNewline(t) + y
  {
    assert (t + y)[0] == t[0] && (t + y)[1..] == t[1..] + y;
    if t[0] != '\n' {
      assert t == [t[0]] + t[1..];
      AfterNewlineMore(t[1..], y);
    } else {
      var k :| 0 <= k < |t| && t[k] == '\n';
      assert (t + y)[k] == '\n';
    }
  }

  /** Where the first line ends. */
  lemma {:induction false} LineEnd(t: string) returns (k: nat)
    requires '\n' in t
    ensures k < |t| && t[k] == '\n' && AfterNewline(t) == t[k + 1..] && '\n' !in t[..k]
  {
    if t[0] == '\n' {
      k := 0;
    } else {
      assert t == [t[0]] + t[1..];
      k := LineEnd(t[1..]);
      assert t[1..][k + 1..] == t[k + 2..];
      assert t[..k + 1] == [t[0]] + t[1..][..k];
      k := k + 1;
    }
  }

  /** The line that a ends with has no comment yet, and does not end in a slash or in the middle of a link. */
  ghost predicate CommentCanStart(a: string) {
    exists before, line :: a == before + line && LeavesOpen(before, line)
  }

  /** line starts after a line end and has no double slash, nor what a comment would make one or a link of. */
  ghost predicate LeavesOpen(before: string, line: string) {
    && (before == "" || before[|before| - 1] == '\n') && NoSlashes(line)
    && (line != "" ==> line[|line| - 1] != '/') && !(|line| >= 5 && line[|line| - 5..] == "http:")
  }

  lemma {:induction false} StripCommentsOnLine(before: string, line: string, rest: string)
    requires before == "" || before[|before| - 1] == '\n'
    ensures StripComments(before + line + rest) == StripComments(before) + StripComments(line + rest)
  {
    if before == "" {
      assert before + line + rest == line + rest;
    } else {
      var x := before[..|before| - 1];
      assert before == x + "\n" && before + line + rest == x + "\n" + (line + rest);
      StripCommentsByLine(x, line + rest);
    }
  }

  lemma {:induction false} HttpKeepsLineEnd(before: string)
    requires before == "" || before[|before| - 1] == '\n'
    ensures var t := StripHttp(before); t == "" || t[|t| - 1] == '\n'
  {
    if before != "" {
      var x := before[..|before| - 1];
      assert before == x + "\n";
      LineEndStraddlesNothing(x, "\n");
      StripHttpConcat(x, "\n");
      StripHttpFirst("\n", "");
    }
  }

  lemma {:induction false} StripWithComment(before: string, line: string, c: string, b: string)
    requires LeavesOpen(before, line) && '\n' !in c
    ensures StripComments(StripHttp(before + line + ("//" + c + "\n" + b)))
         == StripComments(StripHttp(before)) + (line + StripComments(StripHttp(b)))
  {
    hide StripHttp, StripComments, Straddles;
    var rest := "//" + c + "\n" + b;
    StripHttpOfLine(before, line, rest);
    StripHttpOfComment(c, b);
    HttpAddsNoNewline(c);
    HttpKeepsLineEnd(before);
    var start, comment, tail := StripHttp(before), StripHttp(c), StripHttp(b);
    assert line + ("//" + comment + "\n" + tail) == line + "//" + comment + "\n" + tail;
    StripCommentsOnLine(start, line, StripHttp(rest));
    StripCommentAt(line, comment, tail);
  }

  lemma {:induction false} StripWithoutComment(before: string, line: string, b: string)
    requires LeavesOpen(before, line) && !Straddles(before + line, b)
    ensures StripComments(StripHttp(before + line + b)) == StripComments(StripHttp(before)) + (line + StripComments(StripHttp(b)))
  {
    hide StripHttp, StripComments, Straddles;
    var start, tail := StripHttp(before), StripHttp(b);
    HttpKeepsLineEnd(before);
    StripHttpConcat(before + line, b);
    StripHttpOfLine(before, line, "");
    assert before + line + "" == before + line;
    NothingToStrip();
    assert start + line + "" + tail == start + line + tail;
    StripCommentsOnLine(start, line, tail);
    StripCommentsAfter(line, tail);
  }

  /** A comment and its line end leave no trace, whatever comments and links there are elsewhere. */
  lemma {:induction false} CommentIsNothing(a: string, c: string, b: string)
    requires CommentCanStart(a) && '\n' !in c && !Straddles(a, b)
    ensures Tokenize(a + "//" + c + "\n" + b) == Tokenize(a + b)
  {
    hide StripHttp, StripComments, Clean, Tokens, Straddles, NoSlashes;
    var before, line :| a == before + line && LeavesOpen(before, line);
    assert a + "//" + c + "\n" + b == a + ("//" + c + "\n" + b);
    StripWithComment(before, line, c, b);
    StripWithoutComment(before, line, b);
  }

  lemma NothingToStrip()
    ensures StripHttp("") == "" && StripComments("") == ""
  {
  }

  lemma {:induction false} StripHttpOfLine(before: string, line: string, rest: string)
    requires (before == "" || before[|before| - 1] == '\n') && NoSlashes(line)
    requires (line != "" ==> line[|line| - 1] != '/') && !(|line| >= 5 && line[|line| - 5..] == "http:")
    requires rest == "" || rest[0] == '/'
    ensures StripHttp(before + line + rest) == StripHttp(before) + line + StripHttp(rest)
  {
    hide StripHttp;
    var a := before + line;
    NoLinkAcross(before, line, rest);
    StripHttpConcat(a, rest);
    AfterLineEnd(before, line);
    StripHttpConcat(before, line);
    HttpNeedsSlashes(line);
  }

  lemma {:induction false} AfterLineEnd(before: string, line: string)
    requires before == "" || before[|before| - 1] == '\n'
    ensures !Straddles(before, line)
  {
    if Straddles(before, line) { var k := StraddleEnds(before, line); LinkCharacters(k); }
  }

  lemma {:induction false} NoLinkAcross(before: string, line: string, rest: string)
    requires (before == "" || before[|before| - 1] == '\n') && (rest == "" || rest[0] == '/')
    requires (line != "" ==> line[|line| - 1] != '/') && !(|line| >= 5 && line[|line| - 5..] == "http:")
    ensures !Straddles(before + line, rest)
  {
    var a := before + line;
    if Straddles(a, rest) {
      var k := StraddleEnds(a, rest);
      LinkCharacters(k);
      LineOfLink(before, line, k, a);
    }
  }

  /** "http:" at the end of the text is at the end of its last line. */
  lemma {:induction false} LineOfLink(before: string, line: string, k: nat, a: string)
    requires a == before + line && a != "" && (before == "" || before[|before| - 1] == '\n')
    requires a[|a| - 1] == '/' || (|a| >= 5 && a[|a| - 5..] == "http:")
    ensures line != "" && (a[|a| - 1] == '/' ==> line[|line| - 1] == '/')
    ensures a[|a| - 1] != '/' ==> |line| >= 5 && line[|line| - 5..] == "http:"
  {
    if |a| >= 5 && a[|a| - 5..] == "http:" {
      var e := a[|a| - 5..];
      assert e[0] == a[|a| - 5] && e[1] == a[|a| - 4] && e[2] == a[|a| - 3] && e[3] == a[|a| - 2] && e[4] == a[|a| - 1];
      assert |line| >= 5 ==> line[|line| - 5..] == e;
    }
    assert before != "" ==> a[|before| - 1] == '\n';
  }

  lemma {:induction false} StripHttpOfComment(c: string, b: string)
    ensures StripHttp("//" + c + "\n" + b) == "//" + StripHttp(c) + "\n" + StripHttp(b)
  {
    hide StripHttp, Straddles;
    var tail := "\n" + b;
    assert "//" + c + "\n" + b == "//" + (c + tail);
    SlashesStraddleNothing(c + tail);
    StripHttpConcat("//", c + tail);
    LineEndStraddlesNothing(c, tail);
    StripHttpConcat(c, tail);
    HttpNeedsSlashes("/");
    StripHttpFirst("//", "/");
    StripHttpFirst(tail, b);
    assert "//" + (StripHttp(c) + ("\n" + StripHttp(b))) == "//" + StripHttp(c) + "\n" + StripHttp(b);
  }

  lemma {:induction false} StripHttpFirst(s: string, rest: string)
    requires s != "" && s[0] != 'h' && s[1..] == rest
    ensures StripHttp(s) == [s[0]] + StripHttp(rest)
  {
    assert |s| >= 7 ==> s[..7][0] == s[0] && "http://"[0] == 'h';
  }

  lemma {:induction false} SlashesStraddleNothing(b: string)
    ensures !Straddles("//", b)
  {
    if Straddles("//", b) {
      var k := StraddleEnds("//", b);
      SlashAtTheEnd(k);
    }
  }

  lemma SlashAtTheEnd(k: nat)
    requires 0 < k < 7 && "http://"[k - 1] == '/'
    ensures k == 6
  {
  }

  lemma {:induction false} LineEndStraddlesNothing(a: string, b: string)
    requires b != "" && b[0] == '\n'
    ensures !Straddles(a, b)
  {
    if Straddles(a, b) { var k := StraddleEnds(a, b); }
  }

  /** The start of a link leaves no trace. */
  lemma {:induction false} LinkIsNothing(a: string, b: string)
    requires !Straddles(a, b)
    ensures Tokenize(a + "http://" + b) == Tokenize(a + b)
  {
    StripHttpAt(a, b);
    StripHttpConcat(a, b);
  }

  // ------------------------------------------------------------------ text that lexes on its own

  /** Whatever follows it, the text lexes to these tokens. */
  ghost predicate Lexes(s: string, ts: seq<Token>) {
    forall b :: Tokenize(s + b) == ts + Tokenize(b)
  }

  lemma {:induction false} LexesConcat(a: string, ta: seq<Token>, b: string, tb: seq<Token>)
    requires Lexes(a, ta) && Lexes(b, tb)
    ensures Lexes(a + b, ta + tb)
  {
    hide Tokenize;
    forall c
      ensures Tokenize(a + b + c) == ta + tb + Tokenize(c)
    {
      assert a + b + c == a + (b + c);
      assert ta + (tb + Tokenize(c)) == ta + tb + Tokenize(c);
    }
  }

  lemma {:induction false} LexesAlone(s: string, ts: seq<Token>)
    requires Lexes(s, ts)
    ensures Tokenize(s) == ts
  {
    assert s + "" == s && Tokenize("") == [];
    assert ts + [] == ts;
  }

  lemma {:induction false} LastOfClean(s: string)
    requires s != "" && (Clean(s) != "" ==> IsDelimiter(Clean(s)[|Clean(s)| - 1]))
    ensures IsDelimiter(s[|s| - 1])
  {
    var front, last := s[..|s| - 1], s[|s| - 1];
    assert s == front + [last];
    CleanConcat(front, [last]);
    assert Clean([last]) == if last == '\n' || last == '\r' then "" else [if last == '\t' then ' ' else last];
  }

  /** A delimiter in front of it keeps text from becoming part of a link. */
  lemma {:induction false} AfterDelimiter(s: string, b: string)
    requires s != "" ==> IsDelimiter(s[|s| - 1])
    ensures !Straddles(s, b)
  {
    if Straddles(s, b) {
      var k := StraddleEnds(s, b);
      LinkCharacters(k);
    }
  }

  lemma {:induction false} SegmentLexes(s: string, ts: seq<Token>)
    requires IsSegment(s, ts)
    ensures Lexes(s, ts)
  {
    hide StripHttp, StripComments, Clean, Tokens, Straddles;
    forall b
      ensures Tokenize(s + b) == ts + Tokenize(b)
    {
      if s != "" { LastOfClean(s); }
      AfterDelimiter(s, b);
      StripHttpConcat(s, b);
      HttpNeedsSlashes(s);
      StripCommentsAfter(s, StripHttp(b));
      CleanConcat(s, StripComments(StripHttp(b)));
      TokensConcat(Clean(s), Clean(StripComments(StripHttp(b))));
    }
  }

  /** A line with a comment at its end lexes like the line without. */
  lemma {:induction false} CommentedLine(a: string, ts: seq<Token>, c: string)
    requires IsSegment(a, ts) && a != "" && '\n' !in c
    ensures Lexes(a + "//" + c + "\n", ts)
  {
    hide Tokenize, Straddles;
    LastOfClean(a);
    EndsClear(a);
    SegmentLexes(a, ts);
    forall b
      ensures Tokenize(a + "//" + c + "\n" + b) == ts + Tokenize(b)
    {
      AfterDelimiter(a, b);
      CommentIsNothing(a, c, b);
    }
  }

  lemma {:induction false} EndsClear(a: string)
    requires NoSlashes(a) && a != "" && IsDelimiter(a[|a| - 1])
    ensures CommentCanStart(a)
  {
    assert |a| >= 5 ==> a[|a| - 5..][4] == a[|a| - 1];
    assert a == "" + a && LeavesOpen("", a);
  }

  // ------------------------------------------------------------------ single characters

  lemma {:induction false} OneWord(w: string)
    requires w != "" && forall c :: c in w ==> IsWordChar(c)
    ensures Tokens(w, "") == [Word(w)] && Clean(w) == w
  {
    WordIsItsOnlyWord(w, "");
    assert "" + w == w;
    PhraseTokens(w, "");
    CleanPhrase(w);
    assert WordTokens([w]) == [Word(w)];
  }

  lemma {:induction false} CleanBetween(a: string, c: char, b: string)
    requires IsWord(a) && IsWord(b) && !IsWordChar(c)
    ensures Tokenize(a + [c] + b) == Tokens(a + Clean([c]) + b, "")
  {
    hide Tokens, StripHttp, StripComments, Clean, NoSlashes;
    var s := a + [c] + b;
    NoSlashesConcat(a, [c]);
    NoSlashesConcat(a + [c], b);
    HttpNeedsSlashes(s);
    CommentNeedsSlashes(s);
    CleanConcat(a + [c], b);
    CleanConcat(a, [c]);
    CleanPhrase(a);
    CleanPhrase(b);
  }

  lemma SpecialCharacters(c: char)
    ensures c in ";{} \n\r\t\U{000B}\U{000C}" <==> IsDelimiter(c)
  {
    var s := ";{} \n\r\t\U{000B}\U{000C}";
    assert s[0] == ';' && s[1] == '{' && s[2] == '}' && s[3] == ' ' && s[4] == '\n' && s[5] == '\r' && s[6] == '\t'
           && s[7] == '\U{000B}' && s[8] == '\U{000C}' && |s| == 9;
  }

  /** What one character between two words does. */
  lemma {:induction false} BetweenWords(a: string, c: char, b: string)
    requires IsWord(a) && IsWord(b) && c in ";{} \n\r\t\U{000B}\U{000C}"
    ensures Tokenize(a + [c] + b) ==
            if c in "\n\r" then [Word(a + b)]
            else if c in " \t" then [Word(a), Word(b)]
            else if c == ';' then [Word(a), Semi, Word(b)]
            else if c == '{' then [Word(a), Open, Word(b)]
            else if c == '}' then [Word(a), Close, Word(b)]
            else [Word(a), Word([c]), Word(b)]
  {
    hide Tokens, Tokenize, NoSlashes;
    SpecialCharacters(c);
    CleanBetween(a, c, b);
    if c == '\n' || c == '\r' {
      assert Clean([c]) == "" && a + "" + b == a + b;
      OneWord(a + b);
    } else {
      var d := if c == '\t' then ' ' else c;
      assert Clean([c]) == [d];
      OneWord(a);
      OneWord(b);
      TokensAround(a, d, b, "");
    }
  }
}
