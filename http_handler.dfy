/**
 * The HTTP request handler: tokenising the request line, choosing the status
 * (400, 405, 404 or 200), resolving the file under the document root, the
 * MIME lookup and the HTTP/1.0 response serialisation.
 *
 * The filesystem is a map from path to contents holding the regular files;
 * the socket is a handle whose receive result is an input and whose sends
 * and closes are returned as events.
 */
module Http {
  import opened Wrappers
  import opened Sockets
  import opened Strings
  import opened Decimal

  // ---------------------------------------------------------------------------
  // Request line

  /** The characters `operator>>` skips as white space in the "C" locale. */
  predicate IsSpace(c: char) {
    c == ' ' || c == '\t' || c == '\n' || c == '\r' || c as int == 0x0B || c as int == 0x0C
  }

  /** A token as `operator>>` reads one: non-empty, no white space. */
  predicate IsWord(w: string) {
    w != [] && forall i :: 0 <= i < |w| ==> !IsSpace(w[i])
  }

  /** The length of the run of non-space characters at the start of `s`. */
  function WordLength(s: string): (n: nat)
    ensures n <= |s|
  {
    if s == [] || IsSpace(s[0]) then 0 else 1 + WordLength(s[1..])
  }

  /** The run `WordLength` measures is free of white space and ends at white space or the end. */
  lemma {:induction false} WordLengthSpan(s: string)
    ensures forall i :: 0 <= i < WordLength(s) ==> !IsSpace(s[i])
    ensures WordLength(s) < |s| ==> IsSpace(s[WordLength(s)])
    decreases |s|
  {
    if s != [] && !IsSpace(s[0]) {
      var rest := s[1..];
      WordLengthSpan(rest);
      forall i | 1 <= i < WordLength(s) ensures !IsSpace(s[i]) {
        assert s[i] == rest[i - 1];
      }
    }
  }

  /** The white-space separated tokens of `s`, as repeated `operator>>` reads them. */
  function Tokens(s: string): (ts: seq<string>)
    ensures |ts| <= |s|
    decreases |s|
  {
    if s == [] then []
    else if IsSpace(s[0]) then Tokens(s[1..])
    else
      var n := WordLength(s);
      [s[..n]] + Tokens(s[n..])
  }

  /** Every token is a word: non-empty and free of white space. */
  lemma {:induction false} TokensAreWords(s: string)
    ensures forall k :: 0 <= k < |Tokens(s)| ==> IsWord(Tokens(s)[k])
    decreases |s|
  {
    if s != [] {
      if IsSpace(s[0]) {
        TokensAreWords(s[1..]);
      } else {
        var n := WordLength(s);
        WordLengthSpan(s);
        TokensAreWords(s[n..]);
        assert Tokens(s) == [s[..n]] + Tokens(s[n..]);
      }
    }
  }

  /** `std::getline`: fails on an empty stream, else yields the text before the first newline. */
  function FirstLine(s: string): (r: Option<string>)
    ensures r.None? <==> s == []
    ensures r.Some? ==> '\n' !in r.value && r.value <= s
    ensures r.Some? ==> r.value == s || s[|r.value|] == '\n'
  {
    if s == [] then None
    else match IndexOf(s, '\n')
      case None => Some(s)
      case Some(i) => Some(s[..i])
  }

  /** The request line's three fields; headers and body are never parsed. */
  datatype Request = Request(verb: string, path: string, version: string)

  /**
   * `parseRequest`: the first three tokens of the first line, extra tokens
   * ignored; fails on empty input or fewer than three tokens.
   */
  function ParseRequest(text: string): (r: Option<Request>)
    ensures r.Some? ==> text != []
    ensures r.Some? ==> IsWord(r.value.verb) && IsWord(r.value.path) && IsWord(r.value.version)
  {
    match FirstLine(text)
    case None => None
    case Some(line) =>
      var ts := Tokens(line);
      TokensAreWords(line);
      if |ts| < 3 then None else Some(Request(ts[0], ts[1], ts[2]))
  }

  lemma {:induction false} WordLengthOfWord(w: string, s: string)
    requires IsWord(w)
    requires s == [] || IsSpace(s[0])
    ensures WordLength(w + s) == |w|
    decreases |w|
  {
    if |w| > 1 {
      assert (w + s)[1..] == w[1..] + s;
      WordLengthOfWord(w[1..], s);
    }
  }

  /** A word followed by white space or the end is read as one token. */
  lemma TokensOfWord(w: string, s: string)
    requires IsWord(w)
    requires s == [] || IsSpace(s[0])
    ensures Tokens(w + s) == [w] + Tokens(s)
  {
    WordLengthOfWord(w, s);
    assert (w + s)[..|w|] == w;
    assert (w + s)[|w|..] == s;
  }

  /** A newline ends the first line, so a text without one is read up to the newline that follows it. */
  lemma FirstLineOfPrefix(head: string, rest: string)
    requires head != [] && '\n' !in head
    ensures FirstLine(head + rest) == Some(head + match IndexOf(rest, '\n') case None => rest case Some(i) => rest[..i])
  {
    IndexOfAfter(head, rest, '\n');
    match IndexOf(rest, '\n')
    case None =>
    case Some(i) =>
      assert (head + rest)[..|head| + i] == head + rest[..i];
  }

  /** A leading space is skipped. */
  lemma TokensSkipSpace(s: string)
    ensures Tokens([' '] + s) == Tokens(s)
  {
    assert ([' '] + s)[1..] == s;
  }

  /** Three words separated by single spaces are read as three tokens, then the tokens of what follows. */
  lemma ThreeTokens(m: string, p: string, v: string, tail: string)
    requires IsWord(m) && IsWord(p) && IsWord(v)
    requires tail == [] || IsSpace(tail[0])
    ensures Tokens(JoinLine(m, p, v, tail)) == [m, p, v] + Tokens(tail)
  {
    var afterP := [' '] + (v + tail);
    var afterM := [' '] + (p + afterP);
    var t3 := Tokens(tail);
    SpaceThenWord(v, tail);
    var t2 := Tokens(afterP);
    assert t2 == [v] + t3;
    SpaceThenWord(p, afterP);
    var t1 := Tokens(afterM);
    assert t1 == [p] + t2;
    TokensOfWord(m, afterM);
    assert JoinLine(m, p, v, tail) == m + afterM;
    assert [m] + ([p] + ([v] + t3)) == [m, p, v] + t3;
  }

  /** Three words joined by single spaces, followed by `tail`. */
  function JoinLine(m: string, p: string, v: string, tail: string): string {
    m + ([' '] + (p + ([' '] + (v + tail))))
  }

  /** A space, a word, then white space or the end: one token. */
  lemma SpaceThenWord(w: string, s: string)
    requires IsWord(w)
    requires s == [] || IsSpace(s[0])
    ensures Tokens([' '] + (w + s)) == [w] + Tokens(s)
  {
    TokensOfWord(w, s);
    TokensSkipSpace(w + s);
  }

  lemma NoNewlineInLine(m: string, p: string, v: string)
    requires IsWord(m) && IsWord(p) && IsWord(v)
    ensures '\n' !in m + " " + p + " " + v
  {
    var head := m + " " + p + " " + v;
    forall i | 0 <= i < |head| ensures head[i] != '\n' {
      if i < |m| { assert head[i] == m[i]; }
      else if i == |m| { }
      else if i < |m| + 1 + |p| { assert head[i] == p[i - |m| - 1]; }
      else if i == |m| + 1 + |p| { }
      else { assert head[i] == v[i - |m| - |p| - 2]; }
    }
  }

  /**
   * The request line `METHOD SP PATH SP VERSION` of section 5.1 of RFC 1945,
   * followed by anything that starts with white space (the CR LF, further
   * tokens, headers), parses back into its three fields.
   */
  lemma RequestLineRoundTrip(m: string, p: string, v: string, rest: string)
    requires IsWord(m) && IsWord(p) && IsWord(v)
    requires rest == [] || IsSpace(rest[0])
    ensures ParseRequest(m + " " + p + " " + v + rest) == Some(Request(m, p, v))
  {
    var tail := RequestFirstLine(m, p, v, rest);
    ThreeTokens(m, p, v, tail);
    assert Tokens(JoinLine(m, p, v, tail))[..3] == [m, p, v];
  }

  /** The first line of such a request is its three words and the part of `rest` before any newline. */
  lemma RequestFirstLine(m: string, p: string, v: string, rest: string) returns (tail: string)
    requires IsWord(m) && IsWord(p) && IsWord(v)
    requires rest == [] || IsSpace(rest[0])
    ensures tail == [] || IsSpace(tail[0])
    ensures FirstLine(m + " " + p + " " + v + rest) == Some(JoinLine(m, p, v, tail))
  {
    var head := m + " " + p + " " + v;
    NoNewlineInLine(m, p, v);
    FirstLineOfPrefix(head, rest);
    match IndexOf(rest, '\n') {
      case None =>
        tail := rest;
      case Some(i) =>
        tail := rest[..i];
        assert tail == [] || tail[0] == rest[0];
    }
    JoinLineAssociates(m, p, v, tail);
  }

  /** `JoinLine` is the request line written left to right. */
  lemma JoinLineAssociates(m: string, p: string, v: string, tail: string)
    ensures m + " " + p + " " + v + tail == JoinLine(m, p, v, tail)
  {
  }

  /** A request line with only two tokens is rejected. */
  lemma TwoTokensRejected(m: string, p: string, more: string)
    requires IsWord(m) && IsWord(p)
    ensures ParseRequest(m + " " + p + "\r\n" + more) == None
  {
    var head := m + " " + p + "\r";
    forall i | 0 <= i < |head| ensures head[i] != '\n' {
      if i < |m| { assert head[i] == m[i]; }
      else if i == |m| { }
      else if i < |m| + 1 + |p| { assert head[i] == p[i - |m| - 1]; }
    }
    assert m + " " + p + "\r\n" + more == head + ("\n" + more);
    FirstLineOfPrefix(head, "\n" + more);
    assert FirstLine(head + ("\n" + more)) == Some(head);
    assert head == m + ([' '] + (p + "\r"));
    TokensOfWord(m, [' '] + (p + "\r"));
    assert ([' '] + (p + "\r"))[1..] == p + "\r";
    TokensOfWord(p, "\r");
    assert Tokens("\r") == [];
  }

  // ---------------------------------------------------------------------------
  // Responses

  datatype Header = Header(name: string, value: string)

  /** A response; `headers` is kept in insertion order. */
  datatype Response = Response(statusCode: nat, statusText: string, headers: seq<Header>, body: string)

  /** The value an `HttpResponse` starts with. */
  const DefaultResponse := Response(200, "OK", [], "")

  const BadRequestBody := "<html><body><h1>400 Bad Request</h1></body></html>"
  const MethodNotAllowedBody := "<html><body><h1>405 Method Not Allowed</h1></body></html>"
  const NotFoundBody := "<html><body><h1>404 Not Found</h1></body></html>"
  const OctetStream := "application/octet-stream"

  /** The value of the first header called `name`. */
  function HeaderValue(hs: seq<Header>, name: string): Option<string> {
    if hs == [] then None
    else if hs[0].name == name then Some(hs[0].value)
    else HeaderValue(hs[1..], name)
  }

  /**
   * The document tree as the handler sees it: `files` holds the regular
   * files, each with what `readFile` returns for it (empty when the file
   * cannot be opened); `statFailures` holds the paths on which
   * `std::filesystem::exists` or `is_regular_file` throws because `stat`
   * fails for a reason other than "not found" (a name too long, no
   * permission, a symlink loop).
   */
  datatype FileSystem = FileSystem(files: map<string, string>, statFailures: set<string>)

  /** What `fileExists` and `readFile` find at a path. */
  datatype Lookup = Found(contents: string) | Missing | StatFailed

  function Stat(fs: FileSystem, path: string): Lookup {
    if path in fs.statFailures then StatFailed
    else if path in fs.files then Found(fs.files[path])
    else Missing
  }

  /** The MIME type of an extension; the comparison is case-sensitive. */
  function ExtensionMime(ext: string): string {
    if ext == "html" || ext == "htm" then "text/html"
    else if ext == "txt" then "text/plain"
    else OctetStream
  }

  /** `getMimeType`: the extension is the text after the last `.` of the whole file path. */
  function MimeType(filename: string): (mime: string)
    ensures mime == "text/html" || mime == "text/plain" || mime == OctetStream
    ensures LastIndexOf(filename, '.').None? ==> mime == OctetStream
  {
    match LastIndexOf(filename, '.')
    case None => OctetStream
    case Some(i) => ExtensionMime(filename[i + 1..])
  }

  /** The extension that decides the MIME type is whatever follows the last dot. */
  lemma MimeTypeOfExtension(stem: string, ext: string)
    requires '.' !in ext
    ensures MimeType(stem + "." + ext) == ExtensionMime(ext)
  {
    var f := stem + "." + ext;
    var r := LastIndexOf(f, '.');
    assert f[|stem|] == '.';
    assert r.Some?;
    assert f[|stem| + 1..] == ext;
  }

  /** The file a request path names: `index.html` is appended exactly when the path ends in `/`. */
  function ResolvePath(root: string, path: string): (filePath: string)
    requires path != []
    ensures |filePath| >= |root| + |path|
    ensures filePath[..|root| + |path|] == root + path
    ensures path[|path| - 1] == '/' ==> filePath[|root| + |path|..] == "index.html"
    ensures path[|path| - 1] != '/' ==> |filePath| == |root| + |path|
  {
    var filePath := root + path;
    if path[|path| - 1] == '/' then filePath + "index.html" else filePath
  }

  /**
   * `handleGetRequest`: 200 with the file, its MIME type and its length when
   * the resolved path is a regular file; 404 with an HTML body when it is
   * not; no response at all (None) when `fileExists` throws.
   */
  function HandleGet(root: string, req: Request, fs: FileSystem): (r: Option<Response>)
    requires req.path != []
    ensures var filePath := ResolvePath(root, req.path);
      var found := Stat(fs, filePath);
      && (r.None? <==> found.StatFailed?)
      && (found.Found? ==>
            && r.Some?
            && r.value.statusCode == 200 && r.value.statusText == "OK"
            && r.value.body == found.contents
            && HeaderValue(r.value.headers, "Content-Type") == Some(MimeType(filePath))
            && HeaderValue(r.value.headers, "Content-Length") == Some(NatToDecimal(|r.value.body|)))
      && (found.Missing? ==>
            && r.Some?
            && r.value.statusCode == 404 && r.value.statusText == "Not Found"
            && r.value.body == NotFoundBody
            && r.value.headers == [Header("Content-Type", "text/html")])
  {
    var filePath := ResolvePath(root, req.path);
    match Stat(fs, filePath)
    case StatFailed => None
    case Found(body) =>
      Some(DefaultResponse.(body := body,
                            headers := [Header("Content-Type", MimeType(filePath)),
                                        Header("Content-Length", NatToDecimal(|body|))]))
    case Missing =>
      Some(DefaultResponse.(statusCode := 404, statusText := "Not Found", body := NotFoundBody,
                            headers := [Header("Content-Type", "text/html")]))
  }

  /** A client reading `Content-Length` of a served file gets the body's exact length. */
  lemma ContentLengthMatchesBody(root: string, req: Request, fs: FileSystem)
    requires req.path != []
    requires Stat(fs, ResolvePath(root, req.path)).Found?
    ensures var r := HandleGet(root, req, fs).value;
      && HeaderValue(r.headers, "Content-Length").Some?
      && IsDigits(HeaderValue(r.headers, "Content-Length").value)
      && DecimalToNat(HeaderValue(r.headers, "Content-Length").value) == |r.body|
  {
    DecimalRoundTrip(|HandleGet(root, req, fs).value.body|);
  }

  /** The file a parsed GET request asks for, and what is found there. */
  function TargetOf(text: string, root: string, fs: FileSystem): Lookup
    requires ParseRequest(text).Some?
  {
    Stat(fs, ResolvePath(root, ParseRequest(text).value.path))
  }

  /**
   * The status selection of `handleConnection`: 400 on a parse failure, 405
   * on any method other than `GET`, else the outcome of the GET, which is
   * no response (None) when the file lookup throws.
   */
  function ResponseFor(text: string, root: string, fs: FileSystem): (r: Option<Response>)
    ensures r.None? <==> ParseRequest(text).Some? && ParseRequest(text).value.verb == "GET"
                         && TargetOf(text, root, fs).StatFailed?
    ensures r.Some? ==> r.value.statusCode in {200, 400, 404, 405}
    ensures r.Some? && r.value.statusCode == 400 <==> ParseRequest(text).None?
    ensures r.Some? && r.value.statusCode == 405 <==> ParseRequest(text).Some? && ParseRequest(text).value.verb != "GET"
    ensures r.Some? && r.value.statusCode == 200 <==> ParseRequest(text).Some? && ParseRequest(text).value.verb == "GET"
                                                      && TargetOf(text, root, fs).Found?
    ensures r.Some? && r.value.statusCode == 404 <==> ParseRequest(text).Some? && ParseRequest(text).value.verb == "GET"
                                                      && TargetOf(text, root, fs).Missing?
    ensures r.Some? && r.value.statusCode in {400, 405} ==> r.value.headers == []
    ensures r.Some? && r.value.statusCode == 400 ==> r.value.statusText == "Bad Request" && r.value.body == BadRequestBody
    ensures r.Some? && r.value.statusCode == 405 ==> r.value.statusText == "Method Not Allowed" && r.value.body == MethodNotAllowedBody
  {
    match ParseRequest(text)
    case None =>
      Some(DefaultResponse.(statusCode := 400, statusText := "Bad Request", body := BadRequestBody))
    case Some(req) =>
      if req.verb == "GET" then HandleGet(root, req, fs)
      else Some(DefaultResponse.(statusCode := 405, statusText := "Method Not Allowed", body := MethodNotAllowedBody))
  }

  // ---------------------------------------------------------------------------
  // Serialisation

  /** The status line of section 6.1 of RFC 1945; the version is always HTTP/1.0. */
  function StatusLine(r: Response): (line: string)
    ensures |line| >= 11 && line[..9] == "HTTP/1.0 "
    ensures line[|line| - 2..] == "\r\n"
  {
    "HTTP/1.0 " + NatToDecimal(r.statusCode) + " " + r.statusText + "\r\n"
  }

  function HeaderLine(h: Header): string {
    h.name + ": " + h.value + "\r\n"
  }

  function HeaderLines(hs: seq<Header>): string {
    if hs == [] then "" else HeaderLines(hs[..|hs| - 1]) + HeaderLine(hs[|hs| - 1])
  }

  /** The bytes `sendResponse` writes: status line, header lines, blank line, body. */
  function Wire(r: Response): (wire: string)
    ensures |wire| >= |StatusLine(r)| + 2 + |r.body|
    ensures wire[..|StatusLine(r)|] == StatusLine(r)
    ensures wire[|wire| - |r.body| - 2..] == "\r\n" + r.body
  {
    var head := StatusLine(r) + HeaderLines(r.headers);
    assert head + "\r\n" + r.body == StatusLine(r) + (HeaderLines(r.headers) + ("\r\n" + r.body));
    head + "\r\n" + r.body
  }

  /** `sendResponse`: the header loop appends one `name: value` line per header. */
  method SendResponse(r: Response) returns (wire: string)
    ensures wire == Wire(r)
  {
    var out := "HTTP/1.0 " + NatToDecimal(r.statusCode) + " " + r.statusText + "\r\n";
    var i := 0;
    while i < |r.headers|
      invariant 0 <= i <= |r.headers|
      invariant out == StatusLine(r) + HeaderLines(r.headers[..i])
    {
      var h := r.headers[i];
      assert r.headers[..i + 1][..i] == r.headers[..i];
      out := out + h.name + ": " + h.value + "\r\n";
      i := i + 1;
    }
    assert r.headers[..i] == r.headers;
    wire := out + "\r\n" + r.body;
  }

  /** The number of leading digits of `s`. */
  function DigitRun(s: string): (n: nat)
    ensures n <= |s|
    ensures forall i :: 0 <= i < n ==> IsDigit(s[i])
    ensures n < |s| ==> !IsDigit(s[n])
  {
    if s == [] || !IsDigit(s[0]) then 0
    else
      var rest := s[1..];
      var m := DigitRun(rest);
      assert forall i :: 1 <= i < m + 1 ==> s[i] == rest[i - 1];
      1 + m
  }

  /** How a client reads the status code: the digits after `HTTP/1.0 `. */
  function ReadStatusCode(wire: string): Option<nat> {
    if |wire| < 9 || wire[..9] != "HTTP/1.0 " then None
    else
      var t := wire[9..];
      var n := DigitRun(t);
      assert forall i :: 0 <= i < n ==> t[..n][i] == t[i];
      if n == 0 then None else Some(DecimalToNat(t[..n]))
  }

  lemma {:induction false} DigitRunOfDecimal(d: string, s: string)
    requires IsDigits(d)
    requires s != [] && !IsDigit(s[0])
    ensures DigitRun(d + s) == |d|
    decreases |d|
  {
    var x := d + s;
    if d == [] {
      assert x == s;
    } else {
      assert x[0] == d[0];
      assert IsDigit(x[0]);
      assert x[1..] == d[1..] + s;
      assert IsDigits(d[1..]) by {
        forall i | 0 <= i < |d[1..]| ensures IsDigit(d[1..][i]) {
          assert d[1..][i] == d[i + 1];
        }
      }
      DigitRunOfDecimal(d[1..], s);
    }
  }

  /** A client reading the serialised response recovers the status code. */
  lemma StatusCodeRoundTrip(r: Response)
    ensures ReadStatusCode(Wire(r)) == Some(r.statusCode)
  {
    var code := NatToDecimal(r.statusCode);
    var n := |code|;
    var sl, w := StatusLine(r), Wire(r);
    StatusLineDigits(r);
    assert w[..|sl|] == sl;
    assert w[..9] == sl[..9];
    var t := w[9..];
    assert t == code + t[n..] by {
      forall k | 0 <= k < n ensures t[k] == code[k] {
        assert t[k] == sl[9 + k];
      }
    }
    assert t[n] == sl[9 + n] == ' ';
    DigitRunOfDecimal(code, t[n..]);
    assert t[..n] == code;
    DecimalRoundTrip(r.statusCode);
  }

  /** The status line holds the status code's digits right after `HTTP/1.0 `, then a space. */
  lemma StatusLineDigits(r: Response)
    ensures var code, line := NatToDecimal(r.statusCode), StatusLine(r);
      && |line| > 9 + |code|
      && (forall k :: 0 <= k < |code| ==> line[9 + k] == code[k])
      && line[9 + |code|] == ' '
  {
  }

  // ---------------------------------------------------------------------------
  // One connection

  /** What `recv` returned: an error, or the bytes received (none when the peer closed). */
  datatype Received = RecvFailed | Bytes(data: seq<char>)

  /** What the handler does to the client socket. */
  datatype SocketEvent = Sent(socket: Socket, data: string) | Closed(socket: Socket)

  /** The size of the receive buffer; one byte is kept for the terminating NUL. */
  const BufferSize: nat := 4096

  /** The length of `s` up to its first NUL. */
  function CStringLength(s: seq<char>): (n: nat)
    ensures n <= |s| && '\0' !in s[..n]
    ensures n < |s| ==> s[n] == '\0'
  {
    match IndexOf(s, '\0')
    case None => |s|
    case Some(i) => i
  }

  /**
   * The request text: at most 4095 received bytes, cut at the first NUL
   * because the buffer is read back as a C string.
   */
  function RequestText(data: seq<char>): (text: string)
    ensures |text| < BufferSize && '\0' !in text
    ensures text <= data
    ensures |text| < |data| && |text| < BufferSize - 1 ==> data[|text|] == '\0'
    ensures |data| < BufferSize && '\0' !in data ==> text == data
  {
    var received := if |data| < BufferSize then data else data[..BufferSize - 1];
    received[..CStringLength(received)]
  }

  /** A request whose first received byte is NUL is read as empty and so answered with 400. */
  lemma LeadingNulIsBadRequest(data: seq<char>, root: string, fs: FileSystem)
    requires data != [] && data[0] == '\0'
    ensures ResponseFor(RequestText(data), root, fs).Some?
    ensures ResponseFor(RequestText(data), root, fs).value.statusCode == 400
  {
    var received := if |data| < BufferSize then data else data[..BufferSize - 1];
    assert received[0] == '\0';
    assert RequestText(data) == [];
  }

  /**
   * `handleConnection`: a receive of zero or fewer bytes closes the socket
   * and returns; otherwise either exactly one response is sent and the
   * socket is closed, or the file lookup throws, in which case nothing is
   * sent, the socket is left open and the call does not return normally
   * (`returned` is false; the worker loop then closes the socket).
   */
  method HandleConnection(client: Socket, received: Received, root: string, fs: FileSystem)
    returns (events: seq<SocketEvent>, returned: bool)
    ensures received.RecvFailed? || received.data == [] ==> events == [Closed(client)] && returned
    ensures received.Bytes? && received.data != [] ==>
      match ResponseFor(RequestText(received.data), root, fs)
      case None => events == [] && !returned
      case Some(response) => events == [Sent(client, Wire(response)), Closed(client)] && returned
  {
    if received.RecvFailed? || received.data == [] {
      return [Closed(client)], true;
    }
    var requestData := RequestText(received.data);
    var response := ResponseFor(requestData, root, fs);
    if response.None? {
      return [], false;
    }
    var wire := SendResponse(response.value);
    events, returned := [Sent(client, wire), Closed(client)], true;
  }
}
