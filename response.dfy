/** The pure parts of building a response in myserver.cc: the header block,
  * the error and OPTIONS bodies, the content type of a file name, the
  * keep-alive verdict taken from the version, and the keep-alive timeout. */
module Response {
  import opened Text

  /** The fixed server line (myserver.cc:440), without its '\n'. */
  const SERVER_LINE := "Server: Creation of " + "Aaron M. Taylor and "
                     + "Devin P. Gardella for " + "cs339 at Williams College"

  lemma ServerLineOneLine()
    ensures '\n' !in SERVER_LINE
  {
    assert '\n' !in "Server: Creation of " && '\n' !in "Aaron M. Taylor and ";
    assert '\n' !in "Devin P. Gardella for " && '\n' !in "cs339 at Williams College";
  }

  /** The Content-Length value: 0 when the upper-cased method is OPTIONS,
    * otherwise the decimal file size (myserver.cc:443-452). */
  function ContentLength(httpMethod: string, filesize: int): string
  {
    if Upper(CStr(httpMethod)) == "OPTIONS" then "0" else Decimal(filesize)
  }

  /** getHeader (myserver.cc:437-461), with the date text as a parameter: the
    * status, server, date and Content-Length lines, each ended by '\n', then an
    * empty line. The content-type line it computes (:442) is never added. */
  function GetHeader(version: string, httpMethod: string, filesize: int, status: string, date: string): string
  {
    Unlines([version + " " + status, SERVER_LINE, "Date: " + date + " GMT",
             "Content-Length: " + ContentLength(httpMethod, filesize), ""])
  }

  /** The lines of a text: the pieces between '\n's; a last piece without a
    * '\n' after it counts as a line. */
  function Lines(s: string): (ls: seq<string>)
    ensures forall i :: 0 <= i < |ls| ==> '\n' !in ls[i]
    decreases |s|
  {
    if s == [] then []
    else
      var n := TokenEnd(s, 0, {'\n'});
      if n == |s| then [s] else [s[..n]] + Lines(s[n + 1..])
  }

  /** A line followed by '\n' is the first line. */
  lemma LinesCons(a: string, rest: string)
    requires '\n' !in a
    ensures Lines(a + "\n" + rest) == [a] + Lines(rest)
  {
    var s := a + "\n" + rest;
    TokenEndAt(s, 0, {'\n'}, |a|);
    assert s[..|a|] == a && s[|a| + 1..] == rest;
  }

  /** Each line followed by '\n': the partner of Lines. */
  function Unlines(ls: seq<string>): string
  {
    if ls == [] then "" else ls[0] + "\n" + Unlines(ls[1..])
  }

  lemma {:induction false} UnlinesAppend(a: seq<string>, b: seq<string>)
    ensures Unlines(a + b) == Unlines(a) + Unlines(b)
  {
    if a == [] {
      assert a + b == b;
    } else {
      UnlinesAppend(a[1..], b);
      ConsTail(a, b);
      ConcatAssoc(a[0] + "\n", Unlines(a[1..]), Unlines(b));
    }
  }

  /** Splitting what Unlines joined gives the lines back. */
  lemma {:induction false} LinesUnlines(ls: seq<string>)
    requires forall i :: 0 <= i < |ls| ==> '\n' !in ls[i]
    ensures Lines(Unlines(ls)) == ls
  {
    if ls != [] {
      LinesUnlines(ls[1..]);
      LinesCons(ls[0], Unlines(ls[1..]));
    }
  }

  /** The Content-Length value is one line. */
  lemma ContentLengthOneLine(httpMethod: string, filesize: int)
    ensures '\n' !in ContentLength(httpMethod, filesize)
  {
    var cl := ContentLength(httpMethod, filesize);
    if cl != "0" {
      assert cl == Decimal(filesize);
      assert forall i :: 0 <= i < |cl| ==> cl[i] == '-' || IsDigit(cl[i]);
    }
  }

  /** The five header lines hold no line break when the status line, the date
    * and the Content-Length line hold none. */
  lemma HeaderListOneLine(statusLine: string, date: string, lengthLine: string)
    requires '\n' !in statusLine && '\n' !in date && '\n' !in lengthLine
    ensures var ls := [statusLine, SERVER_LINE, "Date: " + date + " GMT", lengthLine, ""];
      forall i :: 0 <= i < |ls| ==> '\n' !in ls[i]
  {
    ServerLineOneLine();
    assert '\n' !in "Date: " && '\n' !in " GMT";
  }

  /** The header block is exactly five lines, in order: status line, server
    * line, date line, Content-Length line and the empty line that ends it; in
    * particular it holds no Content-type line. */
  lemma HeaderLines(version: string, httpMethod: string, filesize: int, status: string, date: string)
    requires '\n' !in version && '\n' !in status && '\n' !in date
    ensures Lines(GetHeader(version, httpMethod, filesize, status, date)) ==
              [version + " " + status, SERVER_LINE, "Date: " + date + " GMT",
               "Content-Length: " + ContentLength(httpMethod, filesize), ""]
  {
    ServerLineOneLine();
    ContentLengthOneLine(httpMethod, filesize);
    LinesUnlines([version + " " + status, SERVER_LINE, "Date: " + date + " GMT",
                  "Content-Length: " + ContentLength(httpMethod, filesize), ""]);
  }

  /** The Content-Length value reads back as 0 for OPTIONS (in any case) and as
    * the file size otherwise. */
  lemma ContentLengthValue(httpMethod: string, filesize: int)
    ensures ParseDecimal(ContentLength(httpMethod, filesize)) ==
              Some(if Upper(CStr(httpMethod)) == "OPTIONS" then 0 else filesize)
  {
    DecimalRoundTrip(filesize);
    assert ParseDecimal("0") == Some(0) by {
      assert DigitsValue("0") == 10 * DigitsValue("0"[..0]) + 0;
    }
  }

  /** The body respondWithError appends (myserver.cc:424). */
  function ErrorBody(error: string): string
  {
    "<html>\n" + error + "\n</html>\n"
  }

  const ALLOWED := "GET,HEAD,OPTIONS"

  /** The lines of the body respondToOPTIONS appends (myserver.cc:403-406). */
  const OPTIONS_LINES := ["Access-Control-Allow-Methods: " + ALLOWED, "Allow: " + ALLOWED, "Public: " + ALLOWED]

  const OPTIONS_BODY := Unlines(OPTIONS_LINES)

  /** What respondWithError sends (myserver.cc:424-428): the header, whose
    * Content-Length is the body's length, then the body. */
  function ErrorResponse(version: string, httpMethod: string, error: string, date: string): string
  {
    GetHeader(version, httpMethod, |ErrorBody(error)|, error, date) + ErrorBody(error)
  }

  /** What respondToOPTIONS sends (myserver.cc:407-410). */
  function OptionsResponse(version: string, httpMethod: string, date: string): string
  {
    GetHeader(version, httpMethod, |OPTIONS_BODY|, "200 OK", date) + OPTIONS_BODY
  }

  /** OPTIONS, spelt exactly so, declares a zero length. */
  lemma OptionsContentLength(filesize: int)
    ensures ContentLength("OPTIONS", filesize) == "0"
  {
    UpperCStrOf("OPTIONS", "OPTIONS");
  }

  lemma OptionsLinesOneLine()
    ensures forall i :: 0 <= i < |OPTIONS_LINES| ==> '\n' !in OPTIONS_LINES[i]
  {
    assert '\n' !in "Access-Control-Allow-Methods: " && '\n' !in "Allow: " && '\n' !in "Public: ";
    assert '\n' !in ALLOWED;
  }

  /** Lines joined by Unlines, then the OPTIONS body, split back into those
    * lines and the body's lines. */
  lemma LinesThenOptionsBody(ls: seq<string>)
    requires forall i :: 0 <= i < |ls| ==> '\n' !in ls[i]
    ensures Lines(Unlines(ls) + OPTIONS_BODY) == ls + OPTIONS_LINES
  {
    UnlinesAppend(ls, OPTIONS_LINES);
    OptionsLinesOneLine();
    var all := ls + OPTIONS_LINES;
    forall i | 0 <= i < |all|
      ensures '\n' !in all[i]
    {
      if i < |ls| { assert all[i] == ls[i]; } else { assert all[i] == OPTIONS_LINES[i - |ls|]; }
    }
    LinesUnlines(all);
  }

  /** The header of an OPTIONS response, line by line. */
  lemma OptionsHeader(version: string, date: string)
    ensures GetHeader(version, "OPTIONS", |OPTIONS_BODY|, "200 OK", date) ==
              Unlines([version + " 200 OK", SERVER_LINE, "Date: " + date + " GMT", "Content-Length: 0", ""])
  {
    OptionsContentLength(|OPTIONS_BODY|);
    ConcatAssoc(version, " ", "200 OK");
    assert " " + "200 OK" == " 200 OK";
    assert "Content-Length: " + "0" == "Content-Length: 0";
  }

  /** An OPTIONS response is the five header lines, declaring Content-Length
    * 0, followed by the three lines of a body. */
  lemma OptionsDeclaresNoBody(version: string, date: string)
    requires '\n' !in version && '\n' !in date
    ensures Lines(OptionsResponse(version, "OPTIONS", date)) ==
              [version + " 200 OK", SERVER_LINE, "Date: " + date + " GMT", "Content-Length: 0", ""]
              + OPTIONS_LINES
  {
    OptionsHeader(version, date);
    OptionsTextsOneLine();
    HeaderListOneLine(version + " 200 OK", date, "Content-Length: 0");
    LinesThenOptionsBody([version + " 200 OK", SERVER_LINE, "Date: " + date + " GMT", "Content-Length: 0", ""]);
  }

  lemma OptionsTextsOneLine()
    ensures '\n' !in " 200 OK" && '\n' !in "Content-Length: 0"
  {
  }

  /** An error response declares exactly the length of the body it carries,
    * unless the method upper-cases to OPTIONS. */
  lemma ErrorResponseFramed(version: string, httpMethod: string, error: string, date: string)
    requires Upper(CStr(httpMethod)) != "OPTIONS"
    ensures ParseDecimal(ContentLength(httpMethod, |ErrorBody(error)|)) == Some(|ErrorBody(error)|)
  {
    ContentLengthValue(httpMethod, |ErrorBody(error)|);
  }

  /** An error response, line by line: the five header lines, declaring the
    * decimal length of the body, then the three lines of the body. */
  lemma ErrorResponseLines(version: string, httpMethod: string, error: string, date: string)
    requires Upper(CStr(httpMethod)) != "OPTIONS"
    requires '\n' !in version && '\n' !in error && '\n' !in date
    ensures Lines(ErrorResponse(version, httpMethod, error, date)) ==
              [version + " " + error, SERVER_LINE, "Date: " + date + " GMT",
               "Content-Length: " + Decimal(|ErrorBody(error)|), ""]
              + ["<html>", error, "</html>"]
  {
    var lengthLine := "Content-Length: " + ContentLength(httpMethod, |ErrorBody(error)|);
    var header := [version + " " + error, SERVER_LINE, "Date: " + date + " GMT", lengthLine, ""];
    ErrorBodyUnlines(error);
    ErrorHeaderOneLine(version, httpMethod, error, date);
    ErrorBodyOneLine(error);
    LinesAppend(header, ["<html>", error, "</html>"]);
  }

  /** No header line of an error response holds a '\n'. */
  lemma ErrorHeaderOneLine(version: string, httpMethod: string, error: string, date: string)
    requires '\n' !in version && '\n' !in error && '\n' !in date
    ensures var ls := [version + " " + error, SERVER_LINE, "Date: " + date + " GMT",
                       "Content-Length: " + ContentLength(httpMethod, |ErrorBody(error)|), ""];
      forall i :: 0 <= i < |ls| ==> '\n' !in ls[i]
  {
    ContentLengthOneLine(httpMethod, |ErrorBody(error)|);
    assert '\n' !in "Content-Length: " && '\n' !in " ";
    HeaderListOneLine(version + " " + error, date,
                      "Content-Length: " + ContentLength(httpMethod, |ErrorBody(error)|));
  }

  /** No line of an error body holds a '\n'. */
  lemma ErrorBodyOneLine(error: string)
    requires '\n' !in error
    ensures var ls := ["<html>", error, "</html>"];
      forall i :: 0 <= i < |ls| ==> '\n' !in ls[i]
  {
    assert '\n' !in "<html>" && '\n' !in "</html>";
  }

  /** The error body is its three lines, each ended by '\n'. */
  lemma ErrorBodyUnlines(error: string)
    ensures ErrorBody(error) == Unlines(["<html>", error, "</html>"])
  {
    var ls := ["<html>", error, "</html>"];
    assert Unlines(ls[2..]) == "</html>\n";
    assert Unlines(ls[1..]) == error + "\n" + "</html>\n";
  }

  /** Two blocks of lines joined one after the other split back into both. */
  lemma LinesAppend(a: seq<string>, b: seq<string>)
    requires forall i :: 0 <= i < |a| ==> '\n' !in a[i]
    requires forall i :: 0 <= i < |b| ==> '\n' !in b[i]
    ensures Lines(Unlines(a) + Unlines(b)) == a + b
  {
    UnlinesAppend(a, b);
    var all := a + b;
    forall i | 0 <= i < |all|
      ensures '\n' !in all[i]
    {
      if i < |a| { assert all[i] == a[i]; } else { assert all[i] == b[i - |a|]; }
    }
    LinesUnlines(all);
  }

  /** The error body holds the status between the two tags, one per line. */
  lemma ErrorBodyLines(error: string)
    requires '\n' !in error
    ensures Lines(ErrorBody(error)) == ["<html>", error, "</html>"]
  {
    ErrorBodyUnlines(error);
    assert '\n' !in "<html>" && '\n' !in "</html>";
    LinesUnlines(["<html>", error, "</html>"]);
  }

  /** The OPTIONS body advertises GET, HEAD and OPTIONS on three lines. */
  lemma OptionsBodyLines()
    ensures Lines(OPTIONS_BODY) == OPTIONS_LINES
  {
    OptionsLinesOneLine();
    LinesUnlines(OPTIONS_LINES);
  }

  /** Index of the first '.' in s, if any (std::string::find). */
  function FirstDot(s: string): (r: Option<nat>)
    ensures r.Some? ==> r.value < |s| && s[r.value] == '.'
    ensures forall k :: 0 <= k < |s| && (r.None? || k < r.value) ==> s[k] != '.'
  {
    var n := TokenEnd(s, 0, {'.'});
    if n == |s| then None else Some(n)
  }

  /** The text contentTypeForFile compares (myserver.cc:479-481): what follows
    * the FIRST '.'; without a '.', find returns npos and npos + 1 wraps to 0, so
    * it is the whole name. */
  function Extension(filename: string): (ext: string)
    ensures |ext| <= |filename| && ext == filename[|filename| - |ext|..]
  {
    match FirstDot(filename)
    case Some(i) => filename[i + 1..]
    case None => filename
  }

  /** The MIME type for an upper-cased extension, or "" when it is not in the
    * table (myserver.cc:486-500). */
  function MimeType(ext: string): string
  {
    if ext == "HTML" then "text/html"
    else if ext == "TXT" then "text/plain"
    else if ext == "JPG" || ext == "JPEG" then "image/jpeg"
    else if ext == "PNG" then "image/png"
    else if ext == "GIF" then "image/gif"
    else if ext == "M4R" then "audio/m4r"
    else ""
  }

  /** contentTypeForFile (myserver.cc:476-501): strToUpper of the extension,
    * looked up in the table. */
  function ContentTypeForFile(filename: string): string
  {
    MimeType(Upper(CStr(Extension(filename))))
  }

  /** toupper never creates or removes a '.', so upper-casing a name keeps its
    * first dot. */
  lemma FirstDotUpper(s: string)
    ensures FirstDot(Upper(s)) == FirstDot(s)
  {
    var n := TokenEnd(s, 0, {'.'});
    TokenEndAt(Upper(s), 0, {'.'}, n);
  }

  /** The extension of the upper-cased name is the upper-cased extension. */
  lemma ExtensionUpper(filename: string)
    ensures Extension(Upper(filename)) == Upper(Extension(filename))
  {
    FirstDotUpper(filename);
    if FirstDot(filename).Some? {
      UpperDrop(filename, FirstDot(filename).value + 1);
    }
  }

  /** The compared text of the upper-cased name is that of the name. */
  lemma ComparedTextUpper(filename: string)
    requires '\0' !in filename
    ensures Upper(CStr(Extension(Upper(filename)))) == Upper(CStr(Extension(filename)))
  {
    var ext := Extension(filename);
    ExtensionUpper(filename);
    assert '\0' !in ext;
    CStrOfNulFree(ext);
    UpperNulFree(ext);
    CStrOfNulFree(Upper(ext));
    UpperIdempotent(ext);
  }

  /** The content type ignores the case of the name (for names without NUL). */
  lemma ContentTypeCaseInsensitive(filename: string)
    requires '\0' !in filename
    ensures ContentTypeForFile(Upper(filename)) == ContentTypeForFile(filename)
  {
    ComparedTextUpper(filename);
  }

  /** Only the text after the FIRST '.' is compared: the content type of
    * stem.ext, for a stem without '.', is the MIME type of ext upper-cased. */
  lemma ContentTypeAfterFirstDot(stem: string, ext: string)
    requires '.' !in stem && '\0' !in ext
    ensures ContentTypeForFile(stem + "." + ext) == MimeType(Upper(ext))
  {
    var filename := stem + "." + ext;
    TokenEndAt(filename, 0, {'.'}, |stem|);
    assert filename[|stem| + 1..] == ext;
    CStrOfNulFree(ext);
  }

  /** A name without '.' is compared whole (npos + 1 wraps to 0). */
  lemma ContentTypeWithoutDot(filename: string)
    requires '.' !in filename && '\0' !in filename
    ensures ContentTypeForFile(filename) == MimeType(Upper(filename))
  {
    TokenEndAt(filename, 0, {'.'}, |filename|);
    CStrOfNulFree(filename);
  }

  /** No table entry holds a '.', so a name with a second '.' after its first
    * (archive.tar.gif) gets no content type. */
  lemma ContentTypeOfTwoDots(stem: string, ext: string)
    requires '.' !in stem && '\0' !in ext && '.' in ext
    ensures ContentTypeForFile(stem + "." + ext) == ""
  {
    ContentTypeAfterFirstDot(stem, ext);
    var i :| 0 <= i < |ext| && ext[i] == '.';
    assert Upper(ext)[i] == '.';
    MimeTypeWithDot(Upper(ext));
  }

  /** No extension in the table holds a '.'. */
  lemma MimeTypeWithDot(ext: string)
    requires '.' in ext
    ensures MimeType(ext) == ""
  {
    assert '.' !in "HTML" && '.' !in "TXT" && '.' !in "JPG" && '.' !in "JPEG";
    assert '.' !in "PNG" && '.' !in "GIF" && '.' !in "M4R";
  }

  /** Upper-cases a NUL-free literal. */
  lemma UpperCStrOf(s: string, u: string)
    requires '\0' !in s && |u| == |s|
    requires forall i :: 0 <= i < |s| ==> u[i] == ToUpperChar(s[i])
    ensures Upper(CStr(s)) == u
  {
    CStrIsPrefixBeforeNul(s, |s|);
  }

  /** atoi applied to the at most one character that substr(7, 1) yields. */
  function AtoiOne(s: string): int
    requires |s| <= 1
  {
    if |s| == 1 && IsDigit(s[0]) then s[0] as int - '0' as int else 0
  }

  /** The verdict of doesListenMore (myserver.cc:465-473): keep the connection
    * when atoi(version.substr(7, 1)) is 1. substr throws std::out_of_range when
    * the version is shorter than 7 characters: None. */
  function ListenVerdict(version: string): (keep: Option<bool>)
    ensures keep.None? <==> |version| < 7
    ensures keep == Some(true) <==> |version| >= 8 && version[7] == '1'
  {
    if |version| < 7 then None
    else Some(AtoiOne(version[7..if |version| == 7 then 7 else 8]) == 1)
  }

  lemma ListenVerdictExamples()
    ensures ListenVerdict("HTTP/1.1") == Some(true)
    ensures ListenVerdict("HTTP/1.0") == Some(false)
    ensures ListenVerdict("HTTP/1.") == Some(false)
    ensures ListenVerdict("HTTP/1") == None
  {
  }

  const TIMEOUT := 20000

  /** C++ integer division, which truncates toward zero. */
  function TruncDiv(a: int, b: int): (q: int)
    requires b > 0
    ensures a >= 0 ==> q * b <= a < q * b + b
    ensures a < 0 ==> q * b - b < a <= q * b
  {
    if a >= 0 then a / b else -((-a) / b)
  }

  /** getTimeout (myserver.cc:504-509) for a given connectionsOpen, in ms. */
  function GetTimeout(connectionsOpen: int): int
  {
    (3 * TIMEOUT) / 4 + (TIMEOUT / 4) * TruncDiv(100 - connectionsOpen, 100)
  }

  lemma TruncDivMonotone(a1: int, a2: int)
    requires a1 <= a2
    ensures TruncDiv(a1, 100) <= TruncDiv(a2, 100)
  {
  }

  /** The more connections are open, the shorter the wait: never longer. */
  lemma TimeoutAntitone(c1: int, c2: int)
    requires c1 <= c2
    ensures GetTimeout(c2) <= GetTimeout(c1)
  {
    TruncDivMonotone(100 - c2, 100 - c1);
  }

  /** With integer division the formula has only a few values over the usual
    * range: 20000 ms with no connection open, 15000 ms for 1 to 199, and 5000 ms
    * less for every further hundred. */
  lemma TimeoutValues(c: int)
    ensures c == 0 ==> GetTimeout(c) == 20000
    ensures 1 <= c <= 199 ==> GetTimeout(c) == 15000
    ensures 200 <= c <= 299 ==> GetTimeout(c) == 10000
    ensures c >= 0 ==> GetTimeout(c) <= 20000
  {
    if c >= 0 {
      TimeoutAntitone(0, c);
    }
  }
}
