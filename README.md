# Static file server request handler, modelled in Dafny

This project models the request pipeline of a small single-connection HTTP/1.1
server that serves files from the document root `WWW_DIR = os.getcwd() + "/www"`
(`server.py`, class `HTTPRequestHandler`). It has three parts:

- **Request-line parsing** (`__init__`). The decoded request is split on
  whitespace, as Python's `str.split()` does. Token 0 is the method and token 1
  is the path. With fewer than two tokens, `IndexError` is raised.
- **Response serialisation** (`_build_response`). The builder writes
  `HTTP/1.1 <code> <phrase>\r\n`, taking the phrase from a fixed five-entry
  table. It then writes each header in insertion order as `key: value\r\n`,
  then `\r\n`, then the body.
- **Dispatch** (`process_request`).
  - Any method other than `GET` gets 405.
  - The target is `WWW_DIR + path`. `index.html` is appended when the path ends in `/`.
  - A Python *substring* test compares the target with its canonical form. A
    target that does not occur in its canonical form gets 404.
  - Otherwise the outcome of opening the canonical path decides: a file gives
    200, a directory gives 301 with `Location: <path>/`, a missing path gives 404.

Modules:

- `Wrappers` has `Option` and `Result`. A `Failure` stands for an exception that escapes.
- `PyStr` holds the Python string semantics the handler uses: `str.split()`,
  `needle in hay`, `str()` of an integer and `str()` of an optional string.
- `OrderedDict` models an insertion-ordered `dict`, mutated in place by `d[k] = v`.
- `Wire` holds the status table, the response format (`Serialize`) and a
  response reader (`ParseResponse`). `ParseResponse` reads a response back, and `ParseSerialize` proves that it inverts `Serialize`.
- `Handler` holds the environment, the decision function `Decide` and the class
  `RequestHandler`, whose methods are proved to compute what `Decide` prescribes.

Everything the handler reads from outside is a field of `Env`:

- `cwd` is the working directory.
- `realpath` stands for `os.path.realpath`.
- `stat` says what opening and reading a canonical path does.
- `guessType` stands for `mimetypes.guess_type(...)[0]`.
- `timestamp` is the RFC 1123 date string.

Header values are held as Python's `str()` renders them: `Content-Length` 0 is
`"0"`, and an unknown MIME type (`None`) is `"None"`.

The model follows the code as written, also where it departs from the comment at
server.py:85 ("These headers SHOULD be used for all requests") or from a hardened design:

- The containment guard is a substring test, not a prefix test.
- Only the 405 response carries `Connection` and `Date`.
- The 200 response carries no `Content-Length`. The `Content-Length` values
  stored at lines 105, 110, 115 and 119 are never passed to the builder.
- 403 is in the table but never produced.
- The file is opened in text mode (`open(realpath, 'r')`, line 109). So the 200 body is the
  locale-decoded text with `\r\n` and `\r` translated to `\n`, not the file's bytes.

## Model

| member | source | states |
|---|---|---|
| PyStr.Split | server.py:50 | every token of `str.split()` is non-empty and free of whitespace |
| PyStr.SplitSpaced | server.py:50 | splitting tokens laid out with any whitespace before them, between them (non-empty runs: spaces, tabs, CRLF) and after them gives back exactly those tokens, in order |
| PyStr.ContainsAt | server.py:104 | `needle in hay` holds iff `needle` starts at some position of `hay` |
| PyStr.ContainsLength | server.py:104 | a string occurs only inside a string at least as long |
| PyStr.ContainsTransitive | server.py:104 | the substring relation is transitive |
| PyStr.ParseDecimalString | server.py:59 | the decimal text `str(n)` of a status code reads back as `n` |
| OrderedDict.AssignLookup | server.py:93 | after `d[k] = v`, `k` maps to `v` and every other key keeps its value |
| OrderedDict.AssignKeys | server.py:86-93 | `d[k] = v` keeps the key order and appends `k` at the end only when it was absent |
| OrderedDict.AssignUnique | server.py:86-93 | `d[k] = v` never creates a duplicate key |
| OrderedDict.Dict.constructor | server.py:86-89 | a dict display holds its items in the order written |
| OrderedDict.Dict.Set | server.py:93 | the in-place assignment leaves exactly `Assign(old items, k, v)` and keeps keys unique |
| Wire.Serialize | server.py:59-67 | every response text begins with its status line `HTTP/1.1 <code> <phrase>\r\n` |
| Wire.HeaderBlockSnoc | server.py:62-64 | writing one more header appends exactly its `key: value\r\n` line |
| Wire.HeaderLineAt | server.py:62-67 | the i-th header sits as its own line right after the status line and the lines of the headers before it |
| Wire.ParseSerialize | server.py:54-70 | reading a serialised response back yields the same code, the same headers in the same order and the same body |
| Handler.ParseRequestLine | server.py:50-52 | succeeds iff the request has at least two tokens, which then are whitespace-free; otherwise it raises IndexError |
| Handler.ParseRequestLineSpaced | server.py:50-52 | a request whose first two tokens are `method` and `path` is read as exactly that method and path, whatever whitespace surrounds them and whatever follows, header lines included |
| Handler.ParseExampleRequest | server.py:50-52 | `GET / HTTP/1.1\r\nHost: localhost\r\n\r\n` is read as method `GET` and path `/` |
| Handler.ParseRequestLineShort | server.py:50-52 | a request of only whitespace, or of one token followed by whitespace, raises IndexError |
| Handler.TargetPath | server.py:96-99 | the target is `WWW_DIR + path + "index.html"` when the path ends in `/`, and `WWW_DIR + path` otherwise |
| Handler.Decide | server.py:72-120 | every response code is in the phrase table and none is 403 |
| Handler.NonGetResponse | server.py:86-94 | any request whose method is not GET, whatever the path and the file system, gives exactly the 405 status line, the headers `Connection: close`, `Date: <stamp>`, `Content-Length: 0` in that order, a blank line and no body |
| Handler.GuardRejects | server.py:102-106 | for any GET request, a target that does not occur in its canonical form gives exactly `HTTP/1.1 404 Not Found\r\n\r\n`, whatever the file system holds |
| Handler.ShorterCanonicalFormRejected | server.py:102-106 | a target whose canonical form is shorter than the target (a collapsed `..`) is always refused with 404 |
| Handler.DirectoryResponse | server.py:113-116 | for any GET request, a directory target gives 301 whose only header is `Location: <path>/`, and an empty body |
| Handler.MissingResponse | server.py:117-120 | for any GET request, a missing target gives exactly `HTTP/1.1 404 Not Found\r\n\r\n` |
| Handler.FileResponse | server.py:108-112 | for any GET request, a regular file gives 200 whose only header is `Content-Type: <guessed type>` (`ShowOption`: `str(None)` is `None` when the type is unknown), with the text `read()` returns (locale-decoded, newlines translated to `\n`) as the body |
| Handler.HeaderSets | server.py:86-120 | the header keys are exactly Connection, Date, Content-Length for 405; Content-Type for 200; Location for 301; none for 404. Date, Connection and Content-Length appear only on 405 |
| Handler.ServedFileInsideRoot | server.py:96-112 | a 200 response is served only for GET, from a canonical path that contains the document root, and has as its body the text `read()` returns (locale-decoded, newlines translated to `\n`) |
| Handler.GuardAdmitsForeignPrefix | server.py:102-104 | the substring guard admits a canonical path that merely ends with the target, and the file there is served |
| Handler.IndexEquivalence | server.py:96-99 | a request for `dir/` gets the same answer as one for `dir/index.html`, unless `index.html` is itself a directory |
| Handler.ServesIndexScenario | server.py:96-112 | `GET / HTTP/1.1\r\nHost: localhost\r\n\r\n`, with `index.html` holding `hello`, gives `HTTP/1.1 200 OK`, `Content-Type: text/html` and body `hello` |
| Handler.RequestHandler.constructor | server.py:43-52 | the handler holds the first two tokens of the request as method and path |
| Handler.RequestHandler.BuildResponse | server.py:54-70 | the loop writes exactly `Serialize(code, headers, body)` |
| Handler.RequestHandler.ProcessRequest | server.py:72-120 | building and mutating the header dict, branching and calling the builder gives exactly the response `Decide` prescribes, or the exception it names |
| Handler.Handle | server.py:126 | one request gives the response of its parsed method and path, or IndexError when it has fewer than two tokens |

## Left out

- Socket I/O: `MyWebServer.handle`'s `recv(1024)`, its `strip()`, `print` and `sendall`, and the `__main__` server loop (server.py:121-138). `Handle` models only the composition at line 126.
- UTF-8 decoding of the request (line 50) and encoding of the response (line 127): the model works on decoded strings.
- The wall clock (lines 80-82): the RFC 1123 date string is the input `Env.timestamp`.
- `os.path.realpath`, `open`, `read`, `os.path.getsize` and `mimetypes.guess_type`: these are the oracles `Env.realpath`, `Env.stat` (with the size inside `File`) and `Env.guessType`.
- The 200 body is not byte-identical to the file. Text-mode decoding and newline translation at lines 109-112 are left to the `Env.stat` oracle: `File.contents` is whatever `read()` returns, and `File.size` (bytes, line 110) is not related to its length.
- Exceptions other than `IsADirectoryError` and `FileNotFoundError` are not told apart. Examples are `PermissionError`, `NotADirectoryError` for `GET /file.txt/`, and a decoding error in `read`. All of them become `Failure(Uncaught)` (`Unreadable`), and the response is lost.
- Handler.RequestHandler.BuildResponse: a code outside the phrase table raises `KeyError` in the source. Here it is a precondition, and `Decide` proves that no branch violates it.
- Python's shared mutable default `headers={}` has no model. The builder never mutates it, so it has no effect.
