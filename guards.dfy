/** The two guards of myserver.cc: regexGuard, which checks the shape of the
  * request text, and URIGuard, which classifies the requested path. The three
  * std::regex patterns are written out as predicates over the whole text, since
  * std::regex_match must match all of it; in ECMAScript syntax `.` matches any
  * character except the line terminators '\r' and '\n'. */
module Guards {
  import opened Text

  /** No character the ECMAScript `.` refuses. */
  predicate NoLineBreak(s: string)
  {
    forall i :: 0 <= i < |s| ==> s[i] != '\r' && s[i] != '\n'
  }

  /** Index of the first character of s at or after i that is not a space. */
  function SkipSpaces(s: string, i: nat): (j: nat)
    requires i <= |s|
    ensures i <= j <= |s|
    ensures forall k :: i <= k < j ==> s[k] == ' '
    ensures j < |s| ==> s[j] != ' '
    decreases |s| - i
  {
    if i == |s| || s[i] != ' ' then i else SkipSpaces(s, i + 1)
  }

  /** s, from index i on, spells word (upper-case letters) in either case,
    * as the pattern's (G|g)(E|e)(T|t) groups do. */
  predicate WordAt(s: string, i: nat, word: string)
  {
    i + |word| <= |s| && Upper(s[i..i + |word|]) == word
  }

  /** `( )*W( )+(.*)` for an upper-case word W spelt in either case. */
  predicate WordThenSpace(s: string, word: string)
  {
    var i := SkipSpaces(s, 0);
    NoLineBreak(s) && WordAt(s, i, word) && i + |word| < |s| && s[i + |word|] == ' '
  }

  /** `( )*((G|g)(E|e)(T|t)|(H|h)(E|e)(A|a)(D|d))( )+(.*)` (myserver.cc:571). */
  predicate MethodPattern(s: string)
  {
    WordThenSpace(s, "GET") || WordThenSpace(s, "HEAD")
  }

  /** `(.*)( )+/(.*)( )+((H|h)(T|t)(T|t)(P|p))/1\.(.*)` (myserver.cc:577):
    * a space then '/' at k, and later a space then "HTTP/1." at m. */
  predicate VersionPattern(s: string)
  {
    NoLineBreak(s) &&
    exists k, m | 1 <= k && k + 2 <= m && m + 7 <= |s| ::
      s[k - 1] == ' ' && s[k] == '/' && s[m - 1] == ' ' &&
      WordAt(s, m, "HTTP") && s[m + 4..m + 7] == "/1."
  }

  /** `( )*(O|o)(P|p)(T|t)(I|i)(O|o)(N|n)(S|s)( )+(.*)` (myserver.cc:587). */
  predicate OptionsPattern(s: string)
  {
    WordThenSpace(s, "OPTIONS")
  }

  /** regexGuard (myserver.cc:564-594): a GET/HEAD text must also pass the
    * version pattern; any other text must pass the OPTIONS pattern. */
  predicate RegexGuard(reqstr: string)
  {
    if MethodPattern(reqstr) then VersionPattern(reqstr) else OptionsPattern(reqstr)
  }

  /** Every pattern needs the whole text free of line breaks, so regexGuard
    * refuses every text that holds one, and the text handed to handleRequest
    * always holds one: the receive loops of myserver.cc:148 and :187 stop only
    * once "\r\n\r\n" or "\n\n" has arrived. */
  lemma TerminatedRequestRejected(reqstr: string, i: nat)
    requires i < |reqstr| && (reqstr[i] == '\r' || reqstr[i] == '\n')
    ensures !RegexGuard(reqstr)
  {
    assert !NoLineBreak(reqstr);
  }

  /** The request text of the example exchange is refused as written. */
  lemma ExampleRequestRejected()
    ensures !RegexGuard("GET /index.html HTTP/1.1\r\n\r\n")
  {
    TerminatedRequestRejected("GET /index.html HTTP/1.1\r\n\r\n", 24);
  }

  /** The request line: the text before its first '\r' or '\n'. */
  function RequestLine(s: string): (r: string)
    ensures r <= s && NoLineBreak(r)
    ensures |r| < |s| ==> s[|r|] == '\r' || s[|r|] == '\n'
  {
    if s == [] || s[0] == '\r' || s[0] == '\n' then [] else [s[0]] + RequestLine(s[1..])
  }

  /** The guard as evidently intended: the same patterns, on the request line. */
  predicate RequestLineGuard(reqstr: string)
  {
    RegexGuard(RequestLine(reqstr))
  }

  /** On a text without line breaks the intended guard is the written one. */
  lemma {:induction false} RequestLineGuardAgrees(reqstr: string)
    requires NoLineBreak(reqstr)
    ensures RequestLine(reqstr) == reqstr
    ensures RequestLineGuard(reqstr) == RegexGuard(reqstr)
  {
    if reqstr != [] {
      RequestLineGuardAgrees(reqstr[1..]);
    }
  }

  /** The request line of a line followed by a line break is that line. */
  lemma {:induction false} RequestLineOfLine(line: string, rest: string)
    requires NoLineBreak(line)
    requires rest != [] && (rest[0] == '\r' || rest[0] == '\n')
    ensures RequestLine(line + rest) == line
  {
    if line != [] {
      assert (line + rest)[1..] == line[1..] + rest;
      RequestLineOfLine(line[1..], rest);
    }
  }

  /** The request line of the example exchange passes the patterns. */
  lemma ExampleLineAccepted()
    ensures RegexGuard("GET /index.html HTTP/1.1")
  {
    ExampleLineMethod();
    ExampleLineVersion();
  }

  lemma ExampleLineMethod()
    ensures WordThenSpace("GET /index.html HTTP/1.1", "GET")
  {
    var line := "GET /index.html HTTP/1.1";
    UpperFixes(line[0..3]);
    assert SkipSpaces(line, 0) == 0;
  }

  lemma ExampleLineVersion()
    ensures VersionPattern("GET /index.html HTTP/1.1")
  {
    var line := "GET /index.html HTTP/1.1";
    UpperFixes(line[16..20]);
    assert line[3] == ' ' && line[4] == '/' && line[15] == ' ' && WordAt(line, 16, "HTTP") && line[20..23] == "/1.";
  }

  /** The intended guard accepts the terminated GET request of the example. */
  lemma ExampleRequestAccepted()
    ensures RequestLineGuard("GET /index.html HTTP/1.1\r\n\r\n")
  {
    RequestLineOfLine("GET /index.html HTTP/1.1", "\r\n\r\n");
    assert "GET /index.html HTTP/1.1" + "\r\n\r\n" == "GET /index.html HTTP/1.1\r\n\r\n";
    ExampleLineAccepted();
  }

  /** The method, target and version that handleRequest cuts out of the request
    * text (myserver.cc:265-275): strtok on the C string with " ", " " and
    * " \r\n" as delimiters; a target of exactly "/" becomes "/index.html".
    * None stands for a strtok call that returns NULL. */
  datatype Parsed = Parsed(httpMethod: string, uri: string, version: string)

  function Tokenise(reqstr: string): Option<Parsed>
  {
    var s := CStr(reqstr);
    match StrTok(s, 0, {' '})
    case None => None
    case Some((httpMethod, i)) =>
      match StrTok(s, i, {' '})
      case None => None
      case Some((target, j)) =>
        match StrTok(s, j, {' ', '\r', '\n'})
        case None => None
        case Some((version, _)) =>
          Some(Parsed(httpMethod, if target == "/" then "/index.html" else target, version))
  }

  /** The tokens are non-empty, the method and the target hold no space, and
    * the version holds no space or line break. */
  lemma TokensWellFormed(reqstr: string)
    requires Tokenise(reqstr).Some?
    ensures var p := Tokenise(reqstr).value;
      p.httpMethod != [] && ' ' !in p.httpMethod && p.uri != [] && ' ' !in p.uri && p.version != []
      && forall k :: 0 <= k < |p.version| ==> p.version[k] !in {' ', '\r', '\n'}
  {
    var s := CStr(reqstr);
    var (m, i) := StrTok(s, 0, {' '}).value;
    var (t, j) := StrTok(s, i, {' '}).value;
    var (v, _) := StrTok(s, j, {' ', '\r', '\n'}).value;
    var uri := if t == "/" then "/index.html" else t;
    assert Tokenise(reqstr).value == Parsed(m, uri, v);
    NoSpace(m);
    if t == "/" {
      IndexPageNoSpace();
    } else {
      NoSpace(t);
    }
  }

  /** A request line laid out as method, space, target, space, version, then
    * the end of the text or a space, line break or NUL, is cut into exactly
    * those three tokens; a target of "/" becomes /index.html and any other
    * target is kept as it is. */
  lemma TokeniseLayout(m: string, t: string, v: string, rest: string)
    requires m != [] && ' ' !in m && '\0' !in m
    requires t != [] && ' ' !in t && '\0' !in t
    requires v != [] && ' ' !in v && '\r' !in v && '\n' !in v && '\0' !in v
    requires rest == [] || rest[0] in {' ', '\r', '\n', '\0'}
    ensures Tokenise(m + " " + t + " " + v + rest) ==
              Some(Parsed(m, if t == "/" then "/index.html" else t, v))
  {
    var line := m + " " + t + " " + v;
    var e := |line|;
    LineLayout(m, t, v);
    CStrAppend(line, rest);
    var c := CStr(line + rest);
    assert c[..e] == line;
    assert e < |c| ==> c[e] in {' ', '\r', '\n'};
    CopyLayout(c, line, m, t, v);
    TokeniseOfLayout(line + rest, c, m, t, v, e);
  }

  /** Tokenise of a text whose C string holds the tokens at their places. */
  lemma TokeniseOfLayout(reqstr: string, c: string, m: string, t: string, v: string, e: nat)
    requires c == CStr(reqstr)
    requires m != [] && ' ' !in m && t != [] && ' ' !in t
    requires v != [] && ' ' !in v && '\r' !in v && '\n' !in v
    requires e == |m| + |t| + |v| + 2 && e <= |c|
    requires var i := |m| + 1; var j := i + |t| + 1;
      c[0..|m|] == m && c[|m|] == ' ' && c[i..i + |t|] == t && c[i + |t|] == ' ' && c[j..e] == v
    requires e < |c| ==> c[e] in {' ', '\r', '\n'}
    ensures Tokenise(reqstr) == Some(Parsed(m, if t == "/" then "/index.html" else t, v))
  {
    var i := |m| + 1;
    var j := i + |t| + 1;
    LayoutTokens(c, m, t, v, i, j, e);
    TokeniseFromTokens(reqstr, c, m, t, v, i, j, if e == |c| then e else e + 1);
  }

  /** Where the three tokens and the two spaces of a request line sit. */
  lemma LineLayout(m: string, t: string, v: string)
    requires '\0' !in m && '\0' !in t && '\0' !in v
    ensures var line := m + " " + t + " " + v; var i := |m| + 1; var j := i + |t| + 1;
      |line| == j + |v| && '\0' !in line
      && line[0..|m|] == m && line[|m|] == ' ' && line[i..i + |t|] == t && line[i + |t|] == ' '
      && line[j..] == v
  {
    var line := m + " " + t + " " + v;
    var i := |m| + 1;
    assert line[i..i + |t|] == t;
  }

  /** A string that starts with a laid-out request line holds the tokens at the same places. */
  lemma CopyLayout(c: string, line: string, m: string, t: string, v: string)
    requires line == m + " " + t + " " + v && |line| <= |c| && c[..|line|] == line
    requires var i := |m| + 1; var j := i + |t| + 1;
      |line| == j + |v| && line[0..|m|] == m && line[|m|] == ' ' && line[i..i + |t|] == t
      && line[i + |t|] == ' ' && line[j..] == v
    ensures var i := |m| + 1; var j := i + |t| + 1; var e := j + |v|;
      c[0..|m|] == m && c[|m|] == ' ' && c[i..i + |t|] == t && c[i + |t|] == ' ' && c[j..e] == v
  {
    var i := |m| + 1;
    var j := i + |t| + 1;
    var e := |line|;
    SharedPrefixSlice(c, line, e, 0, |m|);
    SharedPrefixSlice(c, line, e, i, i + |t|);
    SharedPrefixSlice(c, line, e, j, e);
    assert c[|m|] == c[..e][|m|] && c[i + |t|] == c[..e][i + |t|];
  }

  /** Tokenise in terms of the three strtok results. */
  lemma TokeniseFromTokens(reqstr: string, c: string, m: string, t: string, v: string, i: nat, j: nat, k: nat)
    requires c == CStr(reqstr) && i <= |c| && j <= |c|
    requires StrTok(c, 0, {' '}) == Some((m, i))
    requires StrTok(c, i, {' '}) == Some((t, j))
    requires StrTok(c, j, {' ', '\r', '\n'}) == Some((v, k))
    ensures Tokenise(reqstr) == Some(Parsed(m, if t == "/" then "/index.html" else t, v))
  {
  }

  /** The three strtok calls on a C string that holds the three tokens at
    * 0, i and j, separated by single spaces. */
  lemma LayoutTokens(c: string, m: string, t: string, v: string, i: nat, j: nat, e: nat)
    requires m != [] && ' ' !in m && t != [] && ' ' !in t
    requires v != [] && ' ' !in v && '\r' !in v && '\n' !in v
    requires i == |m| + 1 && j == i + |t| + 1 && e == j + |v| && e <= |c|
    requires c[0..|m|] == m && c[|m|] == ' ' && c[i..i + |t|] == t && c[i + |t|] == ' ' && c[j..e] == v
    requires e < |c| ==> c[e] in {' ', '\r', '\n'}
    ensures StrTok(c, 0, {' '}) == Some((m, i))
    ensures StrTok(c, i, {' '}) == Some((t, j))
    ensures StrTok(c, j, {' ', '\r', '\n'}) == Some((v, if e == |c| then e else e + 1))
  {
    TokenAt(c, 0, m, {' '}, i);
    TokenAt(c, i, t, {' '}, j);
    TokenAt(c, j, v, {' ', '\r', '\n'}, if e == |c| then e else e + 1);
  }

  /** strtok from `from` returns tok, and next as where to go on, when tok
    * starts there, holds no delimiter and is followed by a delimiter or the
    * end. */
  lemma TokenAt(c: string, from: nat, tok: string, delims: set<char>, next: nat)
    requires tok != [] && from + |tok| <= |c| && c[from..from + |tok|] == tok
    requires forall ch :: ch in delims ==> ch !in tok
    requires from + |tok| < |c| ==> c[from + |tok|] in delims
    requires next == if from + |tok| == |c| then from + |tok| else from + |tok| + 1
    ensures StrTok(c, from, delims) == Some((tok, next))
  {
    forall k | from <= k < from + |tok| ensures c[k] !in delims {
      assert c[k] == tok[k - from];
    }
    StrTokAt(c, from, delims, from, from + |tok|);
  }

  /** The default page holds no space. */
  lemma IndexPageNoSpace()
    ensures ' ' !in "/index.html"
  {
    var page := "/index.html";
    forall k | 0 <= k < |page| ensures page[k] != ' ' { }
  }

  /** A token strtok cut at spaces holds no space. */
  lemma NoSpace(token: string)
    requires forall k :: 0 <= k < |token| ==> token[k] !in {' '}
    ensures ' ' !in token
  {
    forall k | 0 <= k < |token| ensures token[k] != ' ' { assert token[k] !in {' '}; }
  }

  /** The first strtok token of the request text: the method. */
  function MethodToken(reqstr: string): Option<string>
  {
    match StrTok(CStr(reqstr), 0, {' '})
    case None => None
    case Some((httpMethod, _)) => Some(httpMethod)
  }

  /** The method that Tokenise reports is the first token. */
  lemma TokeniseMethod(reqstr: string)
    requires Tokenise(reqstr).Some?
    ensures MethodToken(reqstr) == Some(Tokenise(reqstr).value.httpMethod)
  {
  }

  /** The method token holds no NUL, being cut out of a C string. */
  lemma MethodNulFree(reqstr: string)
    requires Tokenise(reqstr).Some?
    ensures '\0' !in Tokenise(reqstr).value.httpMethod
  {
    var s := CStr(reqstr);
    var a := SkipDelims(s, 0, {' '});
    var b := TokenEnd(s, a, {' '});
    TokeniseMethod(reqstr);
    assert MethodToken(reqstr) == Some(s[a..b]);
    SliceNulFree(s, a, b);
  }

  /** A piece of a NUL-free string is NUL-free. */
  lemma SliceNulFree(s: string, a: nat, b: nat)
    requires a <= b <= |s| && '\0' !in s
    ensures '\0' !in s[a..b]
  {
    forall k | 0 <= k < b - a ensures s[a..b][k] != '\0' {
      assert s[a..b][k] == s[a + k];
    }
  }

  /** strtok from the start finds the token [i, e) when only spaces precede it
    * and a space follows it. */
  lemma FirstTokenAt(c: string, i: nat, e: nat)
    requires i < e < |c| && c[e] == ' '
    requires forall k :: 0 <= k < i ==> c[k] == ' '
    requires forall k :: i <= k < e ==> c[k] != ' '
    ensures StrTok(c, 0, {' '}) == Some((c[i..e], e + 1))
  {
    SkipDelimsAt(c, 0, {' '}, i);
    TokenEndAt(c, i, {' '}, e);
  }

  /** The letters of a word spelt in either case are neither spaces nor NULs. */
  lemma WordChars(s: string, i: nat, word: string)
    requires forall k :: 0 <= k < |word| ==> 'A' <= word[k] <= 'Z'
    requires WordAt(s, i, word)
    ensures forall k :: i <= k < i + |word| ==> s[k] != ' ' && s[k] != '\0'
  {
    forall k | i <= k < i + |word|
      ensures s[k] != ' ' && s[k] != '\0'
    {
      assert Upper(s[i..i + |word|])[k - i] == ToUpperChar(s[k]);
    }
  }

  /** The C string reaches past e when no NUL occurs up to e. */
  lemma CStrReaches(s: string, e: nat)
    requires e < |s|
    requires forall k :: 0 <= k <= e ==> s[k] != '\0'
    ensures |CStr(s)| > e && CStr(s)[..e + 1] == s[..e + 1]
  {
  }

  /** When the request line starts with spaces, a word and a space, the first
    * token of the C string is that word as spelt in the text. */
  lemma WordIsFirstToken(reqstr: string, word: string)
    requires forall k :: 0 <= k < |word| ==> 'A' <= word[k] <= 'Z'
    requires WordThenSpace(RequestLine(reqstr), word)
    ensures MethodToken(reqstr).Some? && Upper(MethodToken(reqstr).value) == word
  {
    var line := RequestLine(reqstr);
    var i := SkipSpaces(line, 0);
    var e := i + |word|;
    WordChars(line, i, word);
    LineInCStr(reqstr, line, e);
    WordToken(CStr(reqstr), line, word);
  }

  /** The C string of the text starts with its request line up to e, when
    * no NUL occurs there. */
  lemma LineInCStr(reqstr: string, line: string, e: nat)
    requires line <= reqstr && e < |line|
    requires forall k :: 0 <= k <= e ==> line[k] != '\0'
    ensures |CStr(reqstr)| > e && CStr(reqstr)[..e + 1] == line[..e + 1]
  {
    assert line[..e + 1] == reqstr[..e + 1];
    CStrReaches(reqstr, e);
  }

  /** A C string that begins like a line of spaces, a word and a space has
    * that word, as spelt, for its first token. */
  lemma WordToken(c: string, line: string, word: string)
    requires forall k :: 0 <= k < |word| ==> 'A' <= word[k] <= 'Z'
    requires WordThenSpace(line, word)
    requires var e := SkipSpaces(line, 0) + |word|; e < |c| && c[..e + 1] == line[..e + 1]
    ensures StrTok(c, 0, {' '}).Some? && Upper(StrTok(c, 0, {' '}).value.0) == word
  {
    var i := SkipSpaces(line, 0);
    var e := i + |word|;
    WordChars(line, i, word);
    forall k | 0 <= k <= e ensures c[k] == line[k] {
      assert c[k] == c[..e + 1][k];
    }
    FirstTokenAt(c, i, e);
    SharedPrefixSlice(c, line, e + 1, i, e);
  }

  /** The method words of the patterns are upper-case letters. */
  lemma MethodWordsUpper()
    ensures forall k :: 0 <= k < |"GET"| ==> 'A' <= "GET"[k] <= 'Z'
    ensures forall k :: 0 <= k < |"HEAD"| ==> 'A' <= "HEAD"[k] <= 'Z'
    ensures forall k :: 0 <= k < |"OPTIONS"| ==> 'A' <= "OPTIONS"[k] <= 'Z'
  {
  }

  /** A request the guard lets through has a method that upper-cases to GET,
    * HEAD or OPTIONS: every other method is answered 400. */
  lemma GuardedMethod(reqstr: string)
    requires RequestLineGuard(reqstr)
    ensures MethodToken(reqstr).Some?
    ensures Upper(MethodToken(reqstr).value) in {"GET", "HEAD", "OPTIONS"}
  {
    var line := RequestLine(reqstr);
    MethodWordsUpper();
    if WordThenSpace(line, "GET") {
      WordIsFirstToken(reqstr, "GET");
    } else if WordThenSpace(line, "HEAD") {
      WordIsFirstToken(reqstr, "HEAD");
    } else {
      WordIsFirstToken(reqstr, "OPTIONS");
    }
  }

  /** What stat tells about a path. */
  datatype Stat = Missing | Present(regular: bool, worldReadable: bool)

  const OK := "200 OK"
  const BAD_REQUEST := "400 Bad Request"
  const FORBIDDEN := "403 Forbidden"
  const NOT_FOUND := "404 Not Found"
  const FILE_NOT_FOUND := "404 File Not Found"
  const NOT_IMPLEMENTED := "501 Not Implemented"

  /** handle.find("..", 0, 2) finds something. */
  predicate HasDotDot(handle: string)
  {
    exists i | 0 <= i < |handle| - 1 :: handle[i] == '.' && handle[i + 1] == '.'
  }

  /** URIGuard (myserver.cc:537-561), with stat's answer for root + handle as a
    * parameter. A ".." anywhere is refused before the filesystem is asked. */
  function URIGuard(handle: string, st: Stat): (status: string)
    ensures HasDotDot(handle) ==> status == FORBIDDEN
    ensures status == OK <==> !HasDotDot(handle) && st == Present(true, true)
    ensures status == NOT_FOUND <==> !HasDotDot(handle) && st == Missing
    ensures status == FORBIDDEN <==>
              HasDotDot(handle) || (st.Present? && !(st.regular && st.worldReadable))
  {
    if HasDotDot(handle) then FORBIDDEN
    else match st
      case Missing => NOT_FOUND
      case Present(regular, readable) => if regular && readable then OK else FORBIDDEN
  }

  /** The traversal example: refused whatever the filesystem holds. */
  lemma TraversalForbidden(st: Stat)
    ensures URIGuard("/../etc/passwd", st) == FORBIDDEN
  {
    assert "/../etc/passwd"[1] == '.' && "/../etc/passwd"[2] == '.';
  }
}
