/**
 * The per-request pipeline of the static file server: split the request line,
 * refuse every method but GET, build the target path under the document root,
 * apply the containment guard and map the file-system outcome to a response.
 *
 * The file system, the MIME table, the clock and the working directory are
 * parameters (`Env`); `Decide` is the whole decision as a function of them,
 * and the class methods are proved to compute exactly what it prescribes.
 */
module Handler {
  import opened Wrappers
  import opened PyStr
  import opened OrderedDict
  import opened Wire

  /** The exceptions the handler lets escape. */
  datatype PyError =
    | IndexError   // fewer than two tokens in the request, or an empty path
    | Uncaught      // any other exception of `open` or `read` (PermissionError, UnicodeDecodeError, ...), which the handler does not catch

  /** What `open(realpath, 'r')` followed by `read()` does for a canonical path. */
  datatype Entry =
    | File(contents: string, size: nat)   // the text `read()` returns (locale-decoded, newlines translated to `\n`)
                                          // and the size in bytes `os.path.getsize` reports
    | Directory                           // `open` raises IsADirectoryError
    | Missing                             // `open` raises FileNotFoundError
    | Unreadable                          // any other exception of `open` or `read`

  /** Everything the handler reads from outside itself. */
  datatype Env = Env(
    cwd: string,                          // `os.getcwd()` when the module is loaded
    realpath: string -> string,           // `os.path.realpath`
    stat: string -> Entry,                // the outcome of opening and reading a canonical path
    guessType: string -> Option<string>,  // `mimetypes.guess_type(path)[0]`
    timestamp: string)                    // the RFC 1123 date string of "now"

  /** A response before serialisation. */
  datatype Reply = Reply(code: int, headers: seq<Item>, body: string)

  /** `WWW_DIR`, the document root. */
  function WwwDir(cwd: string): string {
    cwd + "/www"
  }

  /** The method and the path: the first two whitespace-separated tokens. */
  function ParseRequestLine(request: string): (r: Result<(string, string), PyError>)
    ensures r.Success? <==> |Split(request)| >= 2
    ensures r.Success? ==> IsToken(r.value.0) && IsToken(r.value.1)
    ensures r.Failure? ==> r.error == IndexError
  {
    var tokens := Split(request);
    if |tokens| < 2 then Failure(IndexError) else Success((tokens[0], tokens[1]))
  }

  /**
   * Whatever whitespace surrounds and separates the tokens (spaces, tabs, CRLF
   * line breaks, runs of them), the first two tokens are the method and the path.
   */
  lemma ParseRequestLineSpaced(lead: string, tokens: seq<string>, gaps: seq<string>)
    requires IsSpaceRun(lead) && Separates(tokens, gaps) && |tokens| >= 2
    ensures ParseRequestLine(lead + Spaced(tokens, gaps)) == Success((tokens[0], tokens[1]))
  {
    SplitSpaced(lead, tokens, gaps);
  }

  /** A browser-style request: the request line, one header line and the blank line ending the head. */
  const ExampleRequest: string :=
    "GET" + " " + ("/" + " " + ("HTTP/1.1" + "\r\n" + ("Host:" + " " + ("localhost" + "\r\n\r\n"))))
  const ExampleTokens: seq<string> := ["GET", "/", "HTTP/1.1", "Host:", "localhost"]
  const ExampleGaps: seq<string> := [" ", " ", "\r\n", " ", "\r\n\r\n"]

  lemma ExampleSeparates()
    ensures Separates(ExampleTokens, ExampleGaps)
  {
    forall t <- ExampleTokens
      ensures IsToken(t)
    {
      assert t in {"GET", "/", "HTTP/1.1", "Host:", "localhost"};
    }
    forall g <- ExampleGaps
      ensures IsSpaceRun(g)
    {
      assert g in {" ", "\r\n", "\r\n\r\n"};
    }
  }

  lemma ExampleLayout()
    ensures "" + Spaced(ExampleTokens, ExampleGaps) == ExampleRequest
  {
    assert "localhost" + "\r\n\r\n" + "" == "localhost" + "\r\n\r\n";
    calc {
      "" + Spaced(ExampleTokens, ExampleGaps);
      "GET" + " " + ("/" + " " + ("HTTP/1.1" + "\r\n" + ("Host:" + " " + ("localhost" + "\r\n\r\n" + ""))));
      ExampleRequest;
    }
  }

  /** The header line and the CRLF line breaks do not disturb the method and the path. */
  lemma ParseExampleRequest()
    ensures ParseRequestLine(ExampleRequest) == Success(("GET", "/"))
  {
    ExampleSeparates();
    ExampleLayout();
    ParseRequestLineSpaced("", ExampleTokens, ExampleGaps);
  }

  /** A request with fewer than two tokens raises IndexError. */
  lemma ParseRequestLineShort(request: string, token: string)
    requires IsToken(token)
    requires forall c <- request :: IsSpace(c)
    ensures ParseRequestLine(request).Failure?
    ensures ParseRequestLine(token + request).Failure?
  {
    AllSpaceSplitsToNothing(request);
    assert request != [] ==> request[0] in request;
    SplitToken(token, request);
  }

  lemma {:induction false} AllSpaceSplitsToNothing(s: string)
    requires forall c <- s :: IsSpace(c)
    ensures Split(s) == []
  {
    if s != [] {
      assert s[0] in s;
      assert forall c <- s[1..] :: c in s;
      AllSpaceSplitsToNothing(s[1..]);
    }
  }

  /** The file-system path for a request path: `WWW_DIR + path`, plus `index.html` after a `/`. */
  function TargetPath(cwd: string, requestPath: string): (target: string)
    requires |requestPath| > 0
    ensures WwwDir(cwd) + requestPath <= target
    ensures requestPath[|requestPath| - 1] == '/' ==> target == WwwDir(cwd) + requestPath + "index.html"
    ensures requestPath[|requestPath| - 1] != '/' ==> target == WwwDir(cwd) + requestPath
  {
    var target := WwwDir(cwd) + requestPath;
    if requestPath[|requestPath| - 1] == '/' then target + "index.html" else target
  }

  /** The response `process_request` produces for a parsed request. */
  function Decide(requestType: string, requestPath: string, env: Env): (r: Result<Reply, PyError>)
    ensures r.Success? ==> r.value.code in StatusCodePhrase && r.value.code != 403
  {
    if requestType != "GET" then
      Success(Reply(405, [("Connection", "close"), ("Date", env.timestamp), ("Content-Length", "0")], ""))
    else if requestPath == [] then
      Failure(IndexError)
    else
      var target := TargetPath(env.cwd, requestPath);
      var realpath := env.realpath(target);
      if !Contains(realpath, target) then
        Success(Reply(404, [], ""))
      else
        match env.stat(realpath)
        case File(contents, _) =>
          Success(Reply(200, [("Content-Type", ShowOption(env.guessType(realpath)))], contents))
        case Directory => Success(Reply(301, [("Location", requestPath + "/")], ""))
        case Missing => Success(Reply(404, [], ""))
        case Unreadable => Failure(Uncaught)
  }

  /** The response text, or the exception that escapes. */
  function Render(outcome: Result<Reply, PyError>): Result<string, PyError>
    requires outcome.Success? ==> outcome.value.code in StatusCodePhrase
  {
    match outcome
    case Failure(e) => Failure(e)
    case Success(reply) => Success(Serialize(reply.code, reply.headers, reply.body))
  }

  /** The response text for a raw (already decoded) request. */
  function Respond(request: string, env: Env): Result<string, PyError> {
    match ParseRequestLine(request)
    case Failure(e) => Failure(e)
    case Success((requestType, requestPath)) => Render(Decide(requestType, requestPath, env))
  }

  // ---------------------------------------------------------------------------
  // Properties of the decision

  // The response texts below are written as concatenations of short literals, which keeps the solver's work small.

  /** The decimal text of each status code in the table. */
  lemma StatusCodeDigits()
    ensures DecimalString(200) == "200" && DecimalString(301) == "301"
    ensures DecimalString(404) == "404" && DecimalString(405) == "405"
  {
    assert DigitChar(0) == '0' && DigitChar(1) == '1' && DigitChar(2) == '2';
    assert DigitChar(3) == '3' && DigitChar(4) == '4' && DigitChar(5) == '5';
    DecimalThreeDigits(200);
    DecimalThreeDigits(301);
    DecimalThreeDigits(404);
    DecimalThreeDigits(405);
  }

  /** The three header lines of the 405 response. */
  lemma NotAllowedHeaderLines(timestamp: string)
    ensures HeaderLine(("Connection", "close")) == "Connection: close\r\n"
    ensures HeaderLine(("Date", timestamp)) == "Date: " + timestamp + "\r\n"
    ensures HeaderLine(("Content-Length", "0")) == "Content-Length: 0\r\n"
  {
  }

  /** The text of the 405 response. */
  lemma NotAllowedText(timestamp: string)
    ensures Serialize(405, [("Connection", "close"), ("Date", timestamp), ("Content-Length", "0")], "")
            == "HTTP/1.1 " + "405" + " " + "Method Not Allowed" + "\r\n" + "Connection: close\r\n" + "Date: " + timestamp + "\r\n"
               + "Content-Length: 0\r\n" + "\r\n"
  {
    StatusCodeDigits();
    NotAllowedHeaderLines(timestamp);
    var headers := [("Connection", "close"), ("Date", timestamp), ("Content-Length", "0")];
    HeaderBlockThree(headers[0], headers[1], headers[2]);
    assert headers == [headers[0], headers[1], headers[2]];
    ghost var text := StatusLine(405) + HeaderBlock(headers) + "\r\n";
    assert text + "" == text;
  }

  /**
   * Any method other than GET is answered 405 with exactly the headers
   * Connection, Date and Content-Length (in that order) and no body, whatever
   * the path and the file system.
   */
  lemma NonGetResponse(request: string, requestType: string, requestPath: string, env: Env)
    requires ParseRequestLine(request) == Success((requestType, requestPath))
    requires requestType != "GET"
    ensures Respond(request, env)
            == Success("HTTP/1.1 " + "405" + " " + "Method Not Allowed" + "\r\n"
                       + "Connection: close\r\n"
                       + "Date: " + env.timestamp + "\r\n"
                       + "Content-Length: 0\r\n"
                       + "\r\n")
  {
    NotAllowedText(env.timestamp);
  }

  /**
   * A constructed path that does not occur in its canonical form is answered
   * 404 with no headers and no body, whatever the file system holds there.
   */
  lemma GuardRejects(request: string, requestPath: string, env: Env)
    requires ParseRequestLine(request) == Success(("GET", requestPath))
    requires var target := TargetPath(env.cwd, requestPath); !Contains(env.realpath(target), target)
    ensures Respond(request, env) == Success("HTTP/1.1 " + "404" + " " + "Not Found" + "\r\n" + "\r\n")
  {
    StatusCodeDigits();
    assert Decide("GET", requestPath, env) == Success(Reply(404, [], ""));
    assert Serialize(404, [], "") == "HTTP/1.1 " + "404" + " " + "Not Found" + "\r\n" + "\r\n";
  }

  /**
   * In particular every request whose canonical form is shorter than the
   * constructed path (a `..` that is collapsed, a `//` that is merged) is refused.
   */
  lemma ShorterCanonicalFormRejected(requestPath: string, env: Env)
    requires |requestPath| > 0
    requires var target := TargetPath(env.cwd, requestPath); |env.realpath(target)| < |target|
    ensures Decide("GET", requestPath, env) == Success(Reply(404, [], ""))
  {
    var target := TargetPath(env.cwd, requestPath);
    if Contains(env.realpath(target), target) {
      ContainsLength(env.realpath(target), target);
    }
  }

  /** A directory is answered 301 with the single header `Location: <path>/` and no body. */
  lemma DirectoryResponse(request: string, requestPath: string, env: Env)
    requires ParseRequestLine(request) == Success(("GET", requestPath))
    requires var target := TargetPath(env.cwd, requestPath);
             Contains(env.realpath(target), target) && env.stat(env.realpath(target)) == Directory
    ensures Respond(request, env)
            == Success("HTTP/1.1 " + "301" + " " + "Moved Permanently" + "\r\n" + "Location: " + requestPath + "/\r\n" + "\r\n")
  {
    StatusCodeDigits();
    var headers := [("Location", requestPath + "/")];
    assert Decide("GET", requestPath, env) == Success(Reply(301, headers, ""));
    assert HeaderBlock(headers) == "Location: " + requestPath + "/\r\n";
    assert StatusLine(301) + HeaderBlock(headers)
           == "HTTP/1.1 " + "301" + " " + "Moved Permanently" + "\r\n" + "Location: " + requestPath + "/\r\n";
    ghost var text := StatusLine(301) + HeaderBlock(headers) + "\r\n";
    assert text + "" == text;
  }

  /** A missing target is answered 404 with no headers and no body. */
  lemma MissingResponse(request: string, requestPath: string, env: Env)
    requires ParseRequestLine(request) == Success(("GET", requestPath))
    requires var target := TargetPath(env.cwd, requestPath);
             Contains(env.realpath(target), target) && env.stat(env.realpath(target)) == Missing
    ensures Respond(request, env) == Success("HTTP/1.1 " + "404" + " " + "Not Found" + "\r\n" + "\r\n")
  {
    StatusCodeDigits();
    assert Decide("GET", requestPath, env) == Success(Reply(404, [], ""));
    assert Serialize(404, [], "") == "HTTP/1.1 " + "404" + " " + "Not Found" + "\r\n" + "\r\n";
  }

  /**
   * A regular file is answered 200 with the single header
   * `Content-Type: <guessed type>` and the file's contents as the body.
   */
  lemma FileResponse(request: string, requestPath: string, env: Env, contents: string, size: nat)
    requires ParseRequestLine(request) == Success(("GET", requestPath))
    requires var target := TargetPath(env.cwd, requestPath);
             Contains(env.realpath(target), target) && env.stat(env.realpath(target)) == File(contents, size)
    ensures var realpath := env.realpath(TargetPath(env.cwd, requestPath));
            Respond(request, env)
            == Success("HTTP/1.1 " + "200" + " " + "OK" + "\r\n" + "Content-Type: " + ShowOption(env.guessType(realpath)) + "\r\n" + "\r\n" + contents)
  {
    StatusCodeDigits();
    var realpath := env.realpath(TargetPath(env.cwd, requestPath));
    var headers := [("Content-Type", ShowOption(env.guessType(realpath)))];
    assert Decide("GET", requestPath, env) == Success(Reply(200, headers, contents));
    assert HeaderBlock(headers) == "Content-Type: " + ShowOption(env.guessType(realpath)) + "\r\n";
    assert StatusLine(200) + HeaderBlock(headers)
           == "HTTP/1.1 " + "200" + " " + "OK" + "\r\n" + "Content-Type: " + ShowOption(env.guessType(realpath)) + "\r\n";
    assert Serialize(200, headers, contents) == StatusLine(200) + HeaderBlock(headers) + "\r\n" + contents;
  }

  /** Which headers each kind of response carries, in order. */
  lemma HeaderSets(requestType: string, requestPath: string, env: Env)
    requires Decide(requestType, requestPath, env).Success?
    ensures var reply := Decide(requestType, requestPath, env).value;
            Keys(reply.headers) == match reply.code
              case 405 => ["Connection", "Date", "Content-Length"]
              case 200 => ["Content-Type"]
              case 301 => ["Location"]
              case _ => []
    ensures var reply := Decide(requestType, requestPath, env).value;
            (Lookup(reply.headers, "Date").Some? <==> reply.code == 405)
            && (Lookup(reply.headers, "Connection").Some? <==> reply.code == 405)
            && (Lookup(reply.headers, "Content-Length").Some? <==> reply.code == 405)
  {
    var reply := Decide(requestType, requestPath, env).value;
    if reply.code == 405 {
      assert Lookup(reply.headers[2..], "Content-Length") == Some("0");
    }
  }

  /** A served file lies at a canonical path that contains the document root. */
  lemma ServedFileInsideRoot(requestType: string, requestPath: string, env: Env)
    requires Decide(requestType, requestPath, env).Success?
    requires Decide(requestType, requestPath, env).value.code == 200
    ensures requestType == "GET" && |requestPath| > 0
    ensures var realpath := env.realpath(TargetPath(env.cwd, requestPath));
            Contains(realpath, WwwDir(env.cwd))
            && env.stat(realpath).File?
            && Decide(requestType, requestPath, env).value.body == env.stat(realpath).contents
  {
    var target := TargetPath(env.cwd, requestPath);
    assert WwwDir(env.cwd) <= target by {
      assert WwwDir(env.cwd) <= WwwDir(env.cwd) + requestPath;
    }
    ContainsTransitive(env.realpath(target), target, WwwDir(env.cwd));
  }

  /**
   * The guard is a substring test, not a prefix test: a canonical path that
   * merely ends with the constructed path passes it, and the file there is
   * served although its path does not start with the document root.
   */
  lemma GuardAdmitsForeignPrefix(requestPath: string, env: Env, foreign: string, contents: string, size: nat)
    requires |requestPath| > 0
    requires var target := TargetPath(env.cwd, requestPath);
             env.realpath(target) == foreign + target && env.stat(foreign + target) == File(contents, size)
    ensures var realpath := env.realpath(TargetPath(env.cwd, requestPath));
            Decide("GET", requestPath, env)
            == Success(Reply(200, [("Content-Type", ShowOption(env.guessType(realpath)))], contents))
  {
    ContainsSuffix(foreign, TargetPath(env.cwd, requestPath));
  }

  /**
   * Asking for a directory path with a trailing `/` gives the same answer as
   * asking for its `index.html`, unless `index.html` is itself a directory.
   */
  lemma IndexEquivalence(requestPath: string, env: Env)
    requires |requestPath| > 0 && requestPath[|requestPath| - 1] == '/'
    requires env.stat(env.realpath(TargetPath(env.cwd, requestPath))) != Directory
    ensures Decide("GET", requestPath, env) == Decide("GET", requestPath + "index.html", env)
  {
    var indexPath := requestPath + "index.html";
    assert indexPath[|indexPath| - 1] == 'l';
    assert WwwDir(env.cwd) + indexPath == WwwDir(env.cwd) + requestPath + "index.html";
    assert TargetPath(env.cwd, indexPath) == TargetPath(env.cwd, requestPath);
  }

  /** The example request on a root whose `index.html` holds "hello". */
  lemma ServesIndexScenario(env: Env)
    requires var index := WwwDir(env.cwd) + "/" + "index.html";
             env.realpath(index) == index && env.stat(index) == File("hello", 5)
             && env.guessType(index) == Some("text/html")
    ensures Respond(ExampleRequest, env)
            == Success("HTTP/1.1 " + "200" + " " + "OK" + "\r\n" + "Content-Type: " + "text/html" + "\r\n" + "\r\n" + "hello")
  {
    ParseExampleRequest();
    FileResponse(ExampleRequest, "/", env, "hello", 5);
  }

  class RequestHandler {
    const statusCodePhrase: map<int, string> := StatusCodePhrase
    const requestType: string
    const requestPath: string

    /** Splits the request; a request with fewer than two tokens never gets a handler. */
    constructor (request: string)
      requires ParseRequestLine(request).Success?
      ensures (requestType, requestPath) == ParseRequestLine(request).value
    {
      var tokens := Split(request);
      requestType := tokens[0];
      requestPath := tokens[1];
    }

    /** The status line, each header line in order, the blank line, the body. */
    method BuildResponse(statusCode: int, headers: seq<Item>, body: string) returns (response: string)
      requires statusCode in statusCodePhrase
      ensures response == Serialize(statusCode, headers, body)
    {
      response := "HTTP/1.1 " + DecimalString(statusCode) + " " + statusCodePhrase[statusCode] + "\r\n";
      if |headers| > 0 {
        var i := 0;
        while i < |headers|
          invariant 0 <= i <= |headers|
          invariant response == StatusLine(statusCode) + HeaderBlock(headers[..i])
        {
          var (key, value) := headers[i];
          HeaderBlockSnoc(headers[..i], headers[i]);
          assert headers[..i + 1] == headers[..i] + [headers[i]];
          response := response + (key + ": " + value + "\r\n");
          i := i + 1;
        }
        assert headers[..i] == headers;
      } else {
        assert response + HeaderBlock(headers) == response;
      }
      response := response + "\r\n" + body;
    }

    /**
     * Starts from the dict `{Connection, Date}`, answers a non-GET 405 with it,
     * and otherwise resolves the target, applies the guard and opens the file.
     */
    method ProcessRequest(env: Env) returns (r: Result<string, PyError>)
      ensures r == Render(Decide(requestType, requestPath, env))
    {
      var timestamp := env.timestamp;
      var responseHeaders := new Dict([("Connection", "close"), ("Date", timestamp)]);

      if requestType != "GET" {
        ghost var before := responseHeaders.items;
        responseHeaders.Set("Content-Length", "0");
        assert Assign(before[1..][1..], "Content-Length", "0") == [("Content-Length", "0")];
        assert responseHeaders.items == [("Connection", "close"), ("Date", timestamp), ("Content-Length", "0")];
        var response := BuildResponse(405, responseHeaders.items, "");
        return Success(response);
      }

      if |requestPath| == 0 {
        return Failure(IndexError);
      }
      var path := WwwDir(env.cwd) + requestPath;
      if requestPath[|requestPath| - 1] == '/' {
        path := path + "index.html";
      }
      assert path == TargetPath(env.cwd, requestPath);

      var realpath := env.realpath(path);
      if !Contains(realpath, path) {
        responseHeaders.Set("Content-Length", "0");
        var response := BuildResponse(404, [], "");
        return Success(response);
      }

      match env.stat(realpath) {
        case File(contents, size) =>
          responseHeaders.Set("Content-Length", DecimalString(size));
          var response := BuildResponse(200, [("Content-Type", ShowOption(env.guessType(realpath)))], contents);
          return Success(response);
        case Directory =>
          responseHeaders.Set("Content-Length", "0");
          var response := BuildResponse(301, [("Location", requestPath + "/")], "");
          return Success(response);
        case Missing =>
          responseHeaders.Set("Content-Length", "0");
          var response := BuildResponse(404, [], "");
          return Success(response);
        case Unreadable =>
          return Failure(Uncaught);
      }
    }
  }

  /** One request: construct the handler (which raises on a short request) and process it. */
  method Handle(request: string, env: Env) returns (r: Result<string, PyError>)
    ensures r == Respond(request, env)
  {
    var parsed := ParseRequestLine(request);
    if parsed.Failure? {
      return Failure(parsed.error);
    }
    var handler := new RequestHandler(request);
    r := handler.ProcessRequest(env);
  }
}
