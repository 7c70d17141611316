/**
  The request decoder of the chat server: the closed sets of methods and paths
  it serves, `Request::parse`, which reads the request line, scans the header
  lines up to the first empty one for the API key and the content length, and
  keeps the remaining lines as the body, and the conversion of the JSON chat
  history entries into agent messages.
 */
module HttpTypes {
  import opened Wrappers
  import opened Text
  import opened Numbers

  datatype Method = GET | POST

  datatype Path = Chat | Root | Favicon

  function MethodToken(m: Method): string {
    match m
    case GET => "GET"
    case POST => "POST"
  }

  function PathToken(p: Path): string {
    match p
    case Chat => "/chat"
    case Root => "/"
    case Favicon => "/favicon.ico"
  }

  /** `Method::from_str`: exactly the tokens "GET" and "POST", case-sensitive. */
  function ParseMethod(s: string): (m: Option<Method>)
    ensures m.Some? <==> s == "GET" || s == "POST"
    ensures m.Some? ==> MethodToken(m.value) == s
  {
    if s == "GET" then Some(GET)
    else if s == "POST" then Some(POST)
    else None
  }

  /** `Path::from_str`: exactly "/chat", "/" and "/favicon.ico". */
  function ParsePath(s: string): (p: Option<Path>)
    ensures p.Some? <==> s == "/chat" || s == "/" || s == "/favicon.ico"
    ensures p.Some? ==> PathToken(p.value) == s
  {
    if s == "/chat" then Some(Chat)
    else if s == "/" then Some(Root)
    else if s == "/favicon.ico" then Some(Favicon)
    else None
  }

  /** Printing a method and parsing it back gives the method again. */
  lemma ParseMethodToken(m: Method)
    ensures ParseMethod(MethodToken(m)) == Some(m)
  {
  }

  /** Printing a path and parsing it back gives the path again. */
  lemma ParsePathToken(p: Path)
    ensures ParsePath(PathToken(p)) == Some(p)
  {
  }

  datatype Request = Request(httpMethod: Method, path: Path, apiKey: Option<string>, body: Option<string>)

  // ---------------------------------------------------------------- request line

  /**
    The method and path of a request line: its first two whitespace-separated
    tokens, which must be a known method and a known path; any further tokens
    (the protocol version) are not looked at.
   */
  function RequestLine(line: string): (r: Option<(Method, Path)>)
    ensures var t := SplitWhitespace(line);
            r.Some? <==> |t| >= 2 && ParseMethod(t[0]).Some? && ParsePath(t[1]).Some?
    ensures var t := SplitWhitespace(line);
            r.Some? ==> MethodToken(r.value.0) == t[0] && PathToken(r.value.1) == t[1]
  {
    var parts := SplitWhitespace(line);
    if |parts| == 0 then None
    else
      match ParseMethod(parts[0])
      case None => None
      case Some(m) =>
        if |parts| == 1 then None
        else
          match ParsePath(parts[1])
          case None => None
          case Some(path) => Some((m, path))
  }

  // ---------------------------------------------------------------- headers

  const API_KEY_HEADER := "x-api-key:"
  const CONTENT_LENGTH_HEADER := "content-length:"

  /** `line.split(':').nth(1)`: the text between the first ':' and the next one (or the end). */
  function SecondField(line: string): Option<string> {
    var fields := Split(line, ":");
    if |fields| >= 2 then Some(fields[1]) else None
  }

  /** The two header values the decoder keeps, as the scan of the header lines leaves them. */
  datatype Headers = Headers(contentLength: int, apiKey: Option<string>)

  /** One turn of the header loop: a line may set the API key, the content length, or neither. */
  function ScanLine(h: Headers, line: string): Headers {
    var field := SecondField(line);
    var h' := if LowercaseStartsWith(line, API_KEY_HEADER) && field.Some?
              then h.(apiKey := Some(Trim(field.value)))
              else h;
    if LowercaseStartsWith(line, CONTENT_LENGTH_HEADER) && field.Some?
    then h'.(contentLength := ParseI32(Trim(field.value)).GetOr(0))
    else h'
  }

  /** The header values after scanning `lines` in order, starting from no key and length 0. */
  function ScanHeaders(lines: seq<string>): Headers {
    if lines == [] then Headers(0, None)
    else ScanLine(ScanHeaders(lines[..|lines| - 1]), lines[|lines| - 1])
  }

  /** Scanning one more header line is one more turn of the loop. */
  lemma ScanHeadersStep(lines: seq<string>, i: nat)
    requires 1 <= i < |lines|
    ensures ScanHeaders(lines[1..i + 1]) == ScanLine(ScanHeaders(lines[1..i]), lines[i])
  {
    assert lines[1..i + 1][..i - 1] == lines[1..i];
  }

  /** Index of the first empty line at or after `i`, or the number of lines when there is none. */
  function BlankLine(lines: seq<string>, i: nat): (e: nat)
    requires i <= |lines|
    ensures i <= e <= |lines|
    ensures e < |lines| ==> lines[e] == ""
    ensures forall k :: i <= k < e ==> lines[k] != ""
    decreases |lines| - i
  {
    if i == |lines| || lines[i] == "" then i else BlankLine(lines, i + 1)
  }

  /** The lines after the one at `end`: what is left of the message once the blank line is consumed. */
  function LinesAfter(lines: seq<string>, end: nat): seq<string> {
    if end < |lines| then lines[end + 1..] else []
  }

  // ---------------------------------------------------------------- the decoder

  /**
    What `Request::parse` returns for `s`. The header lines are those after the
    request line and before the first empty line; a body is present exactly when
    the content length scanned from them is positive, and it is then every line
    after the empty one joined with "\n", however long the declared length is.
   */
  function ParsedRequest(s: string): (r: Option<Request>)
    ensures r.None? <==> Lines(s) == [] || RequestLine(Lines(s)[0]).None?
    ensures r.Some? ==> RequestLine(Lines(s)[0]) == Some((r.value.httpMethod, r.value.path))
    ensures r.Some? ==>
              var lines := Lines(s);
              var end := BlankLine(lines, 1);
              && r.value.apiKey == ScanHeaders(lines[1..end]).apiKey
              && (r.value.body.Some? <==> ScanHeaders(lines[1..end]).contentLength > 0)
              && (r.value.body.Some? ==> r.value.body.value == Join(LinesAfter(lines, end), "\n"))
  {
    var lines := Lines(s);
    if lines == [] then None
    else
      match RequestLine(lines[0])
      case None => None
      case Some((m, path)) =>
        var end := BlankLine(lines, 1);
        var headers := ScanHeaders(lines[1..end]);
        var body := if headers.contentLength > 0 then Some(Join(LinesAfter(lines, end), "\n")) else None;
        Some(Request(m, path, headers.apiKey, body))
  }

  /** `Request::parse`: the line-by-line decoder, which computes `ParsedRequest`. */
  method Parse(requestStr: string) returns (r: Option<Request>)
    ensures r == ParsedRequest(requestStr)
  {
    var lines := Lines(requestStr);
    if |lines| == 0 {
      return None;
    }
    var parts := SplitWhitespace(lines[0]);
    if |parts| == 0 {
      return None;
    }
    var m := ParseMethod(parts[0]);
    if m.None? {
      return None;
    }
    if |parts| == 1 {
      return None;
    }
    var path := ParsePath(parts[1]);
    if path.None? {
      return None;
    }

    var contentLength := 0;
    var apiKey: Option<string> := None;
    var i := 1;
    while i < |lines|
      invariant 1 <= i <= |lines|
      invariant BlankLine(lines, 1) == BlankLine(lines, i)
      invariant Headers(contentLength, apiKey) == ScanHeaders(lines[1..i])
    {
      var line := lines[i];
      if line == "" {
        break;
      }
      ScanHeadersStep(lines, i);
      if LowercaseStartsWith(line, API_KEY_HEADER) {
        var field := SecondField(line);
        if field.Some? {
          apiKey := Some(Trim(field.value));
        }
      }
      if LowercaseStartsWith(line, CONTENT_LENGTH_HEADER) {
        var field := SecondField(line);
        if field.Some? {
          contentLength := ParseI32(Trim(field.value)).GetOr(0);
        }
      }
      i := i + 1;
    }
    assert BlankLine(lines, 1) == i;

    var body := if contentLength > 0 then Some(Join(LinesAfter(lines, i), "\n")) else None;
    r := Some(Request(m.value, path.value, apiKey, body));
  }

  // ---------------------------------------------------------------- properties of the decoder

  /** No piece that `split(c)` yields contains `c`. */
  lemma {:induction false} SplitPiecesAvoid(s: string, c: char)
    ensures forall j :: 0 <= j < |Split(s, [c])| ==> c !in Split(s, [c])[j]
    decreases |s|
  {
    var i := Find(s, [c]);
    forall k | 0 <= k < i ensures s[k] != c {
      assert !OccursAt(s, [c], k);
      assert s[k..k + 1] == [s[k]];
    }
    if i < |s| {
      SplitPiecesAvoid(s[i + 1..], c);
      assert Split(s, [c]) == [s[..i]] + Split(s[i + 1..], [c]);
    }
  }

  /** A line that starts with a header name ending in ':' always has a second field. */
  lemma HeaderLineHasField(line: string, name: string)
    requires name != [] && name[|name| - 1] == ':'
    requires LowercaseStartsWith(line, name)
    ensures SecondField(line).Some?
  {
    var k := |name| - 1;
    assert LowerChar(line[k]) == ':';
    assert line[k] == ':';
    assert line[k..k + 1] == [':'];
    assert OccursAt(line, ":", k);
    var i := Find(line, ":");
    assert i <= k;
  }

  /** Scanning one more line after `hs` is one more turn of the loop. */
  lemma ScanAppendLine(hs: seq<string>, line: string)
    ensures ScanHeaders(hs + [line]) == ScanLine(ScanHeaders(hs), line)
  {
    assert (hs + [line])[..|hs|] == hs;
  }

  lemma ScanLineKeepsKey(hs: seq<string>, rest: seq<string>)
    requires rest != [] && !LowercaseStartsWith(rest[0], API_KEY_HEADER)
    ensures ScanHeaders(hs + [rest[0]]).apiKey == ScanHeaders(hs).apiKey
    ensures hs + rest == hs + [rest[0]] + rest[1..]
  {
    ScanAppendLine(hs, rest[0]);
  }

  lemma ScanLineKeepsLength(hs: seq<string>, rest: seq<string>)
    requires rest != [] && !LowercaseStartsWith(rest[0], CONTENT_LENGTH_HEADER)
    ensures ScanHeaders(hs + [rest[0]]).contentLength == ScanHeaders(hs).contentLength
    ensures hs + rest == hs + [rest[0]] + rest[1..]
  {
    ScanAppendLine(hs, rest[0]);
  }

  /** Header lines that do not name the API key leave the key the scan had found. */
  lemma {:induction false} ScanKeepsKey(hs: seq<string>, rest: seq<string>)
    requires forall j :: 0 <= j < |rest| ==> !LowercaseStartsWith(rest[j], API_KEY_HEADER)
    ensures ScanHeaders(hs + rest).apiKey == ScanHeaders(hs).apiKey
    decreases |rest|
  {
    if rest == [] {
      assert hs + rest == hs;
    } else {
      ScanLineKeepsKey(hs, rest);
      ScanKeepsKey(hs + [rest[0]], rest[1..]);
    }
  }

  /** Header lines that do not name the content length leave the length the scan had found. */
  lemma {:induction false} ScanKeepsLength(hs: seq<string>, rest: seq<string>)
    requires forall j :: 0 <= j < |rest| ==> !LowercaseStartsWith(rest[j], CONTENT_LENGTH_HEADER)
    ensures ScanHeaders(hs + rest).contentLength == ScanHeaders(hs).contentLength
    decreases |rest|
  {
    if rest == [] {
      assert hs + rest == hs;
    } else {
      ScanLineKeepsLength(hs, rest);
      ScanKeepsLength(hs + [rest[0]], rest[1..]);
    }
  }

  /**
    The API key is the trimmed second ':'-field of the LAST header line that
    names it (case-insensitively); earlier ones are overwritten.
   */
  lemma LastKeyLineWins(hs: seq<string>, line: string, rest: seq<string>)
    requires LowercaseStartsWith(line, API_KEY_HEADER)
    requires forall j :: 0 <= j < |rest| ==> !LowercaseStartsWith(rest[j], API_KEY_HEADER)
    ensures SecondField(line).Some?
    ensures ScanHeaders(hs + [line] + rest).apiKey == Some(Trim(SecondField(line).value))
  {
    HeaderLineHasField(line, API_KEY_HEADER);
    assert (hs + [line])[..|hs|] == hs;
    ScanKeepsKey(hs + [line], rest);
  }

  /**
    The content length is set by the LAST header line that names it: the
    trimmed second field read as an `i32`, and 0 when that does not parse,
    whatever earlier lines said.
   */
  lemma LastLengthLineWins(hs: seq<string>, line: string, rest: seq<string>)
    requires LowercaseStartsWith(line, CONTENT_LENGTH_HEADER)
    requires forall j :: 0 <= j < |rest| ==> !LowercaseStartsWith(rest[j], CONTENT_LENGTH_HEADER)
    ensures SecondField(line).Some?
    ensures ScanHeaders(hs + [line] + rest).contentLength == ParseI32(Trim(SecondField(line).value)).GetOr(0)
  {
    HeaderLineHasField(line, CONTENT_LENGTH_HEADER);
    assert (hs + [line])[..|hs|] == hs;
    ScanKeepsLength(hs + [line], rest);
  }

  /** The second ':'-field of a line never contains ':'. */
  lemma SecondFieldAvoidsColon(line: string)
    requires SecondField(line).Some?
    ensures ':' !in SecondField(line).value
  {
    SplitPiecesAvoid(line, ':');
  }

  /** What the decoder can store as a key: no ':' and no whitespace at either end. */
  predicate IsStoredKey(k: string) {
    ':' !in k && (k == [] || (!IsWhitespace(k[0]) && !IsWhitespace(k[|k| - 1])))
  }

  lemma {:induction false} ScannedKeyPresent(hs: seq<string>)
    ensures ScanHeaders(hs).apiKey.Some? <==> exists j :: 0 <= j < |hs| && LowercaseStartsWith(hs[j], API_KEY_HEADER)
    decreases |hs|
  {
    if hs != [] {
      var init, line := hs[..|hs| - 1], hs[|hs| - 1];
      ScannedKeyPresent(init);
      assert forall j :: 0 <= j < |init| ==> init[j] == hs[j];
      if LowercaseStartsWith(line, API_KEY_HEADER) {
        HeaderLineHasField(line, API_KEY_HEADER);
      }
    }
  }

  lemma {:induction false} ScannedKeyStored(hs: seq<string>)
    ensures ScanHeaders(hs).apiKey.Some? ==> IsStoredKey(ScanHeaders(hs).apiKey.value)
    decreases |hs|
  {
    if hs != [] {
      ScannedKeyStored(hs[..|hs| - 1]);
      ScanLineKeyStored(ScanHeaders(hs[..|hs| - 1]), hs[|hs| - 1]);
    }
  }

  /** One turn of the header loop stores a key only when it is trimmed and free of ':'. */
  lemma ScanLineKeyStored(h: Headers, line: string)
    requires h.apiKey.Some? ==> IsStoredKey(h.apiKey.value)
    ensures ScanLine(h, line).apiKey.Some? ==> IsStoredKey(ScanLine(h, line).apiKey.value)
  {
    if LowercaseStartsWith(line, API_KEY_HEADER) && SecondField(line).Some? {
      SecondFieldAvoidsColon(line);
      TrimmedStored(SecondField(line).value);
    }
  }

  lemma TrimmedStored(v: string)
    requires ':' !in v
    ensures IsStoredKey(Trim(v))
  {
  }

  /** A key is found exactly when some header line names it, and it never contains ':' nor surrounding whitespace. */
  lemma ScannedKey(hs: seq<string>)
    ensures ScanHeaders(hs).apiKey.Some? <==> exists j :: 0 <= j < |hs| && LowercaseStartsWith(hs[j], API_KEY_HEADER)
    ensures ScanHeaders(hs).apiKey.Some? ==>
              var k := ScanHeaders(hs).apiKey.value;
              ':' !in k && (k == [] || (!IsWhitespace(k[0]) && !IsWhitespace(k[|k| - 1])))
  {
    ScannedKeyPresent(hs);
    ScannedKeyStored(hs);
  }

  /** Without a content-length line the length stays 0, and so there is no body. */
  lemma {:induction false} NoLengthLineMeansZero(hs: seq<string>)
    requires forall j :: 0 <= j < |hs| ==> !LowercaseStartsWith(hs[j], CONTENT_LENGTH_HEADER)
    ensures ScanHeaders(hs).contentLength == 0
  {
    ScanKeepsLength([], hs);
    assert [] + hs == hs;
  }

  /**
    Header scanning stops at the first empty line: two messages whose lines agree
    up to and including that line decode alike, whatever follows it, except for
    the body's text.
   */
  lemma HeadersEndAtFirstBlankLine(s1: string, s2: string, k: nat)
    requires 1 <= k < |Lines(s1)| && k < |Lines(s2)|
    requires Lines(s1)[..k + 1] == Lines(s2)[..k + 1]
    requires Lines(s1)[k] == "" && forall j :: 1 <= j < k ==> Lines(s1)[j] != ""
    ensures ParsedRequest(s1).Some? <==> ParsedRequest(s2).Some?
    ensures ParsedRequest(s1).Some? ==>
              var r1, r2 := ParsedRequest(s1).value, ParsedRequest(s2).value;
              r1.httpMethod == r2.httpMethod && r1.path == r2.path && r1.apiKey == r2.apiKey
              && r1.body.Some? == r2.body.Some?
  {
    var l1, l2 := Lines(s1), Lines(s2);
    assert l1[0] == l1[..k + 1][0] == l2[0];
    assert forall j :: 0 <= j <= k ==> l1[j] == l1[..k + 1][j] == l2[j];
    assert BlankLine(l1, 1) == k;
    assert BlankLine(l2, 1) == k;
    assert l1[1..k] == l2[1..k];
  }

  // ---------------------------------------------------------------- the decoder inverts a client's encoding

  /** A header value a client can send so that the decoder reads it back unchanged. */
  predicate IsPlainHeaderValue(v: string) {
    ':' !in v && '\n' !in v && '\r' !in v
    && (v == [] || (!IsWhitespace(v[0]) && !IsWhitespace(v[|v| - 1])))
  }

  /** A header line as a client writes it: the name, ": ", then the value. */
  function HeaderLine(name: string, value: string): string {
    name + ": " + value
  }

  function KeyLines(key: Option<string>): seq<string> {
    if key.Some? then [HeaderLine("X-Api-Key", key.value)] else []
  }

  function LengthLine(length: nat): string {
    HeaderLine("Content-Length", DecimalString(length))
  }

  /** The head of a request as a client writes it: request line, optional key header, content length, blank line. */
  function RequestHead(m: Method, p: Path, key: Option<string>, length: nat): seq<string> {
    [MethodToken(m) + " " + PathToken(p) + " HTTP/1.1"] + KeyLines(key) + [LengthLine(length), ""]
  }

  /** A whole request as a client writes it: the head, each line ended by CRLF, then the body. */
  function RequestText(m: Method, p: Path, key: Option<string>, length: nat, body: string): string {
    CrlfText(RequestHead(m, p, key, length)) + body
  }

  lemma VersionText()
    ensures " " + "HTTP/1.1" == " HTTP/1.1"
  {
  }

  lemma TokensAreWords(m: Method, p: Path)
    ensures IsWord(MethodToken(m)) && IsWord(PathToken(p)) && IsWord("HTTP/1.1")
  {
    match m
    case GET => assert MethodToken(m) == "GET";
    case POST => assert MethodToken(m) == "POST";
    match p
    case Chat => assert PathToken(p) == "/chat";
    case Root => assert PathToken(p) == "/";
    case Favicon => assert PathToken(p) == "/favicon.ico";
  }

  lemma RequestLineOf(m: Method, p: Path)
    ensures RequestLine(MethodToken(m) + " " + PathToken(p) + " HTTP/1.1") == Some((m, p))
  {
    var mt, pt, version := MethodToken(m), PathToken(p), "HTTP/1.1";
    TokensAreWords(m, p);
    SplitThreeWords(mt, pt, version);
    VersionText();
    ConcatAssoc(mt + " " + pt, " ", version);
    ParseMethodToken(m);
    ParsePathToken(p);
  }

  lemma HeaderLineChars(name: string, value: string)
    ensures var line := HeaderLine(name, value);
            && |line| == |name| + 2 + |value|
            && (forall i :: 0 <= i < |name| ==> line[i] == name[i])
            && line[|name|] == ':' && line[|name| + 1] == ' '
            && (forall i :: 0 <= i < |value| ==> line[|name| + 2 + i] == value[i])
  {
  }

  /** The decoder reads a client's header value back from the line's second field. */
  lemma HeaderLineValue(name: string, value: string)
    requires ':' !in name && ':' !in value
    requires value == [] || (!IsWhitespace(value[0]) && !IsWhitespace(value[|value| - 1]))
    ensures SecondField(HeaderLine(name, value)).Some?
    ensures Trim(SecondField(HeaderLine(name, value)).value) == value
  {
    var line := HeaderLine(name, value);
    HeaderLineColon(name, value);
    SplitAtOnly(line, ':', |name|);
    assert line[|name| + 1..] == " " + value;
    TrimAfterSpaces(" ", value);
  }

  /** The ':' after the name is the only one in a client's header line. */
  lemma HeaderLineColon(name: string, value: string)
    requires ':' !in name && ':' !in value
    ensures |name| < |HeaderLine(name, value)| && HeaderLine(name, value)[|name|] == ':'
    ensures forall j :: 0 <= j < |HeaderLine(name, value)| && j != |name| ==> HeaderLine(name, value)[j] != ':'
  {
    var line := HeaderLine(name, value);
    HeaderLineChars(name, value);
    forall j | 0 <= j < |line| && j != |name| ensures line[j] != ':' {
      if j < |name| {
        assert name[j] in name;
      } else if j > |name| + 1 {
        assert value[j - |name| - 2] in value;
      }
    }
  }

  /** A client's key line names the key and not the content length. */
  lemma KeyLineNamed(k: string)
    ensures LowercaseStartsWith(HeaderLine("X-Api-Key", k), API_KEY_HEADER)
    ensures !LowercaseStartsWith(HeaderLine("X-Api-Key", k), CONTENT_LENGTH_HEADER)
  {
    var line := HeaderLine("X-Api-Key", k);
    HeaderLineChars("X-Api-Key", k);
    assert LowerChar(line[0]) == 'x';
  }

  lemma KeyLineScan(h: Headers, k: string)
    requires IsPlainHeaderValue(k)
    ensures ScanLine(h, HeaderLine("X-Api-Key", k)) == h.(apiKey := Some(k))
  {
    KeyLineNamed(k);
    HeaderLineValue("X-Api-Key", k);
  }

  /** A printed length has no ':' and no surrounding whitespace, so it survives the header scan. */
  lemma LengthValuePlain(n: nat)
    ensures IsPlainHeaderValue(DecimalString(n))
  {
    var d := DecimalString(n);
    DecimalStringDigits(n);
    assert d[0] in d && d[|d| - 1] in d;
  }

  lemma LengthLineField(n: nat)
    ensures SecondField(LengthLine(n)).Some?
    ensures ParseI32(Trim(SecondField(LengthLine(n)).value)).GetOr(0) == if n <= I32_MAX then n else 0
  {
    LengthValuePlain(n);
    HeaderLineValue("Content-Length", DecimalString(n));
    ParseI32Decimal(n);
  }

  /** A client's length line names the content length and not the key. */
  lemma LengthLineNamed(n: nat)
    ensures LowercaseStartsWith(LengthLine(n), CONTENT_LENGTH_HEADER)
    ensures !LowercaseStartsWith(LengthLine(n), API_KEY_HEADER)
  {
    var line := LengthLine(n);
    HeaderLineChars("Content-Length", DecimalString(n));
    assert LowerChar(line[0]) == 'c';
  }

  lemma LengthLineScan(h: Headers, n: nat)
    ensures ScanLine(h, LengthLine(n)) == h.(contentLength := if n <= I32_MAX then n else 0)
  {
    LengthLineNamed(n);
    LengthLineField(n);
  }

  /** The header lines a client writes decode to its key and, when it fits an `i32`, its length. */
  lemma ScanClientHeaders(key: Option<string>, length: nat)
    requires key.Some? ==> IsPlainHeaderValue(key.value)
    ensures ScanHeaders(KeyLines(key) + [LengthLine(length)])
            == Headers(if length <= I32_MAX then length else 0, key)
  {
    var hs := KeyLines(key) + [LengthLine(length)];
    assert hs[..|hs| - 1] == KeyLines(key);
    if key.Some? {
      var kl := KeyLines(key);
      assert kl[..0] == [];
      KeyLineScan(Headers(0, None), key.value);
      assert ScanHeaders(kl) == ScanLine(ScanHeaders([]), HeaderLine("X-Api-Key", key.value)) == Headers(0, key);
      LengthLineScan(Headers(0, key), length);
    } else {
      LengthLineScan(Headers(0, None), length);
    }
  }

  lemma RequestHeadLines(m: Method, p: Path, key: Option<string>, length: nat)
    requires key.Some? ==> IsPlainHeaderValue(key.value)
    ensures var head := RequestHead(m, p, key, length);
            forall k :: 0 <= k < |head| ==> '\n' !in head[k]
  {
    RequestLineSingle(m, p);
    LengthValuePlain(length);
    HeaderLineSingle("Content-Length", DecimalString(length));
    if key.Some? {
      HeaderLineSingle("X-Api-Key", key.value);
    }
  }

  lemma RequestLineSingle(m: Method, p: Path)
    ensures '\n' !in MethodToken(m) + " " + PathToken(p) + " HTTP/1.1"
  {
    assert '\n' !in MethodToken(m) && '\n' !in PathToken(p);
  }

  lemma HeaderLineSingle(name: string, value: string)
    requires '\n' !in name && '\n' !in value
    ensures '\n' !in HeaderLine(name, value)
  {
  }

  /**
    Round trip: the decoder recovers the method, the path and the API key a
    client sent, and the body exactly when the declared length is positive and
    fits an `i32` (a larger one does not parse and counts as 0).
   */
  lemma {:induction false} ParseRequestText(m: Method, p: Path, key: Option<string>, length: nat, body: string)
    requires key.Some? ==> IsPlainHeaderValue(key.value)
    requires '\r' !in body && (body == [] || body[|body| - 1] != '\n')
    ensures ParsedRequest(RequestText(m, p, key, length, body))
            == Some(Request(m, p, key, if 0 < length <= I32_MAX then Some(body) else None))
  {
    var head := RequestHead(m, p, key, length);
    RequestHeadLines(m, p, key, length);
    RequestHeadShape(m, p, key, length);
    LinesOfCrlfText(head, body);
    var lines := head + Lines(body);
    var end := |head| - 1;
    RequestLineOf(m, p);
    HeadEndsAtBlankLine(head, Lines(body));
    ScanClientHeaders(key, length);
    JoinLines(body);
    ParsedRequestOf(RequestText(m, p, key, length, body), lines, end);
  }

  /** `ParsedRequest` unfolded for a text whose lines, blank line and headers are known. */
  lemma ParsedRequestOf(s: string, lines: seq<string>, end: nat)
    requires Lines(s) == lines && lines != [] && 1 <= end <= |lines| && BlankLine(lines, 1) == end
    requires RequestLine(lines[0]).Some?
    ensures var h := ScanHeaders(lines[1..end]);
            ParsedRequest(s) == Some(Request(RequestLine(lines[0]).value.0, RequestLine(lines[0]).value.1, h.apiKey,
                                             if h.contentLength > 0 then Some(Join(LinesAfter(lines, end), "\n")) else None))
  {
  }

  lemma RequestHeadShape(m: Method, p: Path, key: Option<string>, length: nat)
    ensures var head := RequestHead(m, p, key, length);
            && |head| >= 2
            && head[0] == MethodToken(m) + " " + PathToken(p) + " HTTP/1.1"
            && head[|head| - 1] == ""
            && (forall j :: 1 <= j < |head| - 1 ==> head[j] != "")
            && head[1..|head| - 1] == KeyLines(key) + [LengthLine(length)]
  {
  }

  /** In a head followed by more lines, the first blank line after the request line is the head's last. */
  lemma HeadEndsAtBlankLine(head: seq<string>, more: seq<string>)
    requires |head| >= 2 && head[|head| - 1] == ""
    requires forall j :: 1 <= j < |head| - 1 ==> head[j] != ""
    ensures var lines := head + more;
            && lines[0] == head[0]
            && BlankLine(lines, 1) == |head| - 1
            && lines[1..|head| - 1] == head[1..|head| - 1]
            && LinesAfter(lines, |head| - 1) == more
  {
    var lines := head + more;
    var end := |head| - 1;
    assert lines[end] == "";
    assert forall j :: 1 <= j < end ==> lines[j] == head[j];
    assert BlankLine(lines, 1) == end;
  }

  // ---------------------------------------------------------------- chat history

  /** One entry of the JSON chat history: a role name and a text. */
  datatype HttpMessage = HttpMessage(role: string, content: string)

  /** The JSON body of a chat request. */
  datatype ChatRequest = ChatRequest(prompt: string, chatHistory: Option<seq<HttpMessage>>)

  /** The agent's message type, with the two kinds the server creates. */
  datatype Message = User(content: string) | Assistant(content: string)

  /** The JSON entry a message is made from. */
  function AsHttpMessage(m: Message): HttpMessage {
    match m
    case User(c) => HttpMessage("user", c)
    case Assistant(c) => HttpMessage("assistant", c)
  }

  const INVALID_ROLE := "Invalid role in HttpMessage"

  /**
    `Message::try_from(HttpMessage)`: the role "user" makes a user message and
    "assistant" an assistant message, both with the entry's content; every
    other role is refused.
   */
  function ToMessage(m: HttpMessage): (r: Result<Message, string>)
    ensures r.Success? <==> m.role == "user" || m.role == "assistant"
    ensures r.Success? ==> AsHttpMessage(r.value) == m
    ensures r.Failure? ==> r.error == INVALID_ROLE
  {
    match m.role
    case "user" => Success(User(m.content))
    case "assistant" => Success(Assistant(m.content))
    case _ => Failure(INVALID_ROLE)
  }

  /** A message turned into its JSON entry converts back to itself. */
  lemma ToMessageOfMessage(m: Message)
    ensures ToMessage(AsHttpMessage(m)) == Success(m)
  {
  }

  /** Different messages have different JSON entries. */
  lemma AsHttpMessageInjective(a: Message, b: Message)
    requires AsHttpMessage(a) == AsHttpMessage(b)
    ensures a == b
  {
  }
}
