/**
 * The response wire format written by the handler's response builder:
 *   "HTTP/1.1 <code> <phrase>\r\n", then "<key>: <value>\r\n" per header in
 *   order, then "\r\n", then the body.
 * `Serialize` is the format; `ParseResponse` reads a response back, and
 * `ParseSerialize` proves that it inverts `Serialize`.
 */
module Wire {
  import opened Wrappers
  import opened PyStr
  import opened OrderedDict

  /** The handler's fixed table of reason phrases; no other code can be written. */
  const StatusCodePhrase: map<int, string> :=
    map[200 := "OK", 301 := "Moved Permanently", 403 := "Forbidden", 404 := "Not Found",
        405 := "Method Not Allowed"]

  function StatusLine(code: int): string
    requires code in StatusCodePhrase
  {
    "HTTP/1.1 " + DecimalString(code) + " " + StatusCodePhrase[code] + "\r\n"
  }

  function HeaderLine(h: Item): string {
    h.0 + ": " + h.1 + "\r\n"
  }

  /** The header lines, one per item, in the order given. */
  function HeaderBlock(headers: seq<Item>): string {
    if headers == [] then "" else HeaderLine(headers[0]) + HeaderBlock(headers[1..])
  }

  /** The whole response text. */
  function Serialize(code: int, headers: seq<Item>, body: string): (response: string)
    requires code in StatusCodePhrase
    ensures StatusLine(code) <= response
  {
    StatusLine(code) + HeaderBlock(headers) + "\r\n" + body
  }

  lemma {:induction false} HeaderBlockConcat(a: seq<Item>, b: seq<Item>)
    ensures HeaderBlock(a + b) == HeaderBlock(a) + HeaderBlock(b)
  {
    if a == [] {
      assert a + b == b;
    } else {
      assert (a + b)[1..] == a[1..] + b;
      HeaderBlockConcat(a[1..], b);
    }
  }

  /** Adding one header appends exactly its line. */
  lemma HeaderBlockSnoc(headers: seq<Item>, h: Item)
    ensures HeaderBlock(headers + [h]) == HeaderBlock(headers) + HeaderLine(h)
  {
    HeaderBlockConcat(headers, [h]);
    assert HeaderBlock([h]) == HeaderLine(h) + HeaderBlock([]);
  }

  lemma HeaderBlockThree(a: Item, b: Item, c: Item)
    ensures HeaderBlock([a, b, c]) == HeaderLine(a) + HeaderLine(b) + HeaderLine(c)
  {
    assert [a, b, c][1..] == [b, c];
    assert [b, c][1..] == [c];
    assert HeaderBlock([c]) == HeaderLine(c) + "";
  }

  /**
   * The i-th header is written as its own line, right after the status line
   * and the lines of the headers before it.
   */
  lemma HeaderLineAt(code: int, headers: seq<Item>, body: string, i: nat)
    requires code in StatusCodePhrase
    requires i < |headers|
    ensures var offset := |StatusLine(code)| + |HeaderBlock(headers[..i])|;
            var line := HeaderLine(headers[i]);
            offset + |line| <= |Serialize(code, headers, body)|
            && Serialize(code, headers, body)[offset..offset + |line|] == line
  {
    assert headers == headers[..i] + headers[i..];
    HeaderBlockConcat(headers[..i], headers[i..]);
    assert HeaderBlock(headers[i..]) == HeaderLine(headers[i]) + HeaderBlock(headers[i + 1..]);
    var response := Serialize(code, headers, body);
    var offset := |StatusLine(code)| + |HeaderBlock(headers[..i])|;
    var line := HeaderLine(headers[i]);
    assert response == (StatusLine(code) + HeaderBlock(headers[..i])) + line
                       + (HeaderBlock(headers[i + 1..]) + "\r\n" + body);
  }

  // ---------------------------------------------------------------------------
  // Reading a response back

  /** Index of the first `c` in `s`, or `|s|` when there is none. */
  function IndexOf(s: string, c: char): (i: nat)
    ensures i <= |s|
    ensures i < |s| ==> s[i] == c
    ensures forall k :: 0 <= k < i ==> s[k] != c
  {
    if s == [] || s[0] == c then 0 else 1 + IndexOf(s[1..], c)
  }

  lemma IndexOfConcat(x: string, c: char, y: string)
    requires c !in x
    ensures IndexOf(x + [c] + y, c) == |x|
  {
    var s := x + [c] + y;
    assert s[|x|] == c;
    assert forall k :: 0 <= k < |x| ==> s[k] == x[k];
  }

  /** Splits `s` at its first CRLF into the line before it and the text after it. */
  function ReadLine(s: string): (r: Option<(string, string)>)
    ensures r.Some? ==> s == r.value.0 + "\r\n" + r.value.1 && '\r' !in r.value.0
  {
    var i := IndexOf(s, '\r');
    if i + 1 < |s| && s[i + 1] == '\n' then
      assert s == s[..i] + "\r\n" + s[i + 2..];
      Some((s[..i], s[i + 2..]))
    else None
  }

  lemma ReadLineConcat(line: string, rest: string)
    requires '\r' !in line
    ensures ReadLine(line + "\r\n" + rest) == Some((line, rest))
  {
    var s := line + "\r\n" + rest;
    assert s == line + ['\r'] + ("\n" + rest);
    IndexOfConcat(line, '\r', "\n" + rest);
    assert s[..|line|] == line;
    assert s[|line| + 2..] == rest;
  }

  /** `"key: value"` split at the first colon. */
  function ParseHeaderLine(line: string): Option<Item> {
    var j := IndexOf(line, ':');
    if j + 1 < |line| && line[j + 1] == ' ' then Some((line[..j], line[j + 2..])) else None
  }

  /** The header lines up to the blank line, and the body after it. */
  function ParseHeaders(s: string): Option<(seq<Item>, string)>
    decreases |s|
  {
    match ReadLine(s)
    case None => None
    case Some((line, rest)) =>
      if line == "" then Some(([], rest))
      else
        match ParseHeaderLine(line)
        case None => None
        case Some(h) =>
          match ParseHeaders(rest)
          case None => None
          case Some((hs, body)) => Some(([h] + hs, body))
  }

  /** `"HTTP/1.1 <digits> <phrase>"` with the phrase the table gives for the code. */
  function ParseStatusLine(line: string): Option<int> {
    var version := "HTTP/1.1 ";
    if !(version <= line) then None
    else
      var rest := line[|version|..];
      var sp := IndexOf(rest, ' ');
      var digits := rest[..sp];
      if sp == |rest| || digits == [] || exists c <- digits :: !IsDigit(c) then None
      else
        var code := ParseDecimal(digits);
        if code in StatusCodePhrase && StatusCodePhrase[code] == rest[sp + 1..] then Some(code) else None
  }

  function ParseResponse(s: string): Option<(int, seq<Item>, string)> {
    match ReadLine(s)
    case None => None
    case Some((line, rest)) =>
      match ParseStatusLine(line)
      case None => None
      case Some(code) =>
        match ParseHeaders(rest)
        case None => None
        case Some((hs, body)) => Some((code, hs, body))
  }

  /** A header that survives the wire: no colon in the key, no CR in key or value. */
  predicate WellFormedHeader(h: Item) {
    ':' !in h.0 && '\r' !in h.0 && '\r' !in h.1
  }

  lemma ParseHeaderLineConcat(h: Item)
    requires ':' !in h.0
    ensures ParseHeaderLine(h.0 + ": " + h.1) == Some(h)
  {
    var line := h.0 + ": " + h.1;
    assert line == h.0 + [':'] + (" " + h.1);
    IndexOfConcat(h.0, ':', " " + h.1);
    assert line[..|h.0|] == h.0;
    assert line[|h.0| + 2..] == h.1;
  }

  lemma {:induction false} ParseHeadersBlock(headers: seq<Item>, body: string)
    requires forall h <- headers :: WellFormedHeader(h)
    ensures ParseHeaders(HeaderBlock(headers) + "\r\n" + body) == Some((headers, body))
  {
    if headers == [] {
      ReadLineConcat("", body);
      assert "" + "\r\n" + body == HeaderBlock(headers) + "\r\n" + body;
    } else {
      var h := headers[0];
      var line := h.0 + ": " + h.1;
      var rest := HeaderBlock(headers[1..]) + "\r\n" + body;
      assert HeaderBlock(headers) + "\r\n" + body == line + "\r\n" + rest;
      assert WellFormedHeader(h);
      assert '\r' !in line by {
        assert line == h.0 + ": " + h.1;
      }
      ReadLineConcat(line, rest);
      ParseHeaderLineConcat(h);
      ParseHeadersBlock(headers[1..], body);
      assert [h] + headers[1..] == headers;
    }
  }

  lemma ParseStatusLineParts(digits: string, phrase: string)
    requires digits != [] && forall c <- digits :: IsDigit(c)
    requires ParseDecimal(digits) in StatusCodePhrase && StatusCodePhrase[ParseDecimal(digits)] == phrase
    ensures ParseStatusLine("HTTP/1.1 " + digits + " " + phrase) == Some(ParseDecimal(digits))
  {
    var line := "HTTP/1.1 " + digits + " " + phrase;
    assert line == "HTTP/1.1 " + (digits + [' '] + phrase);
    var rest := line[|"HTTP/1.1 "|..];
    assert rest == digits + [' '] + phrase;
    assert ' ' !in digits;
    IndexOfConcat(digits, ' ', phrase);
    assert rest[..|digits|] == digits;
    assert rest[|digits| + 1..] == phrase;
    assert !(exists c <- digits :: !IsDigit(c));
  }

  lemma ParseStatusLineOf(code: int)
    requires code in StatusCodePhrase
    ensures ParseStatusLine("HTTP/1.1 " + DecimalString(code) + " " + StatusCodePhrase[code]) == Some(code)
  {
    ParseDecimalString(code);
    ParseStatusLineParts(DecimalString(code), StatusCodePhrase[code]);
  }

  lemma PhraseNoCR(code: int)
    requires code in StatusCodePhrase
    ensures '\r' !in StatusCodePhrase[code]
  {
  }

  lemma StatusLineNoCR(code: int)
    requires code in StatusCodePhrase
    ensures '\r' !in "HTTP/1.1 " + DecimalString(code) + " " + StatusCodePhrase[code]
  {
    var digits := DecimalString(code);
    assert '\r' !in digits;
    PhraseNoCR(code);
  }

  /** Reading a serialised response back yields the status code, the headers in order and the body. */
  lemma ParseSerialize(code: int, headers: seq<Item>, body: string)
    requires code in StatusCodePhrase
    requires forall h <- headers :: WellFormedHeader(h)
    ensures ParseResponse(Serialize(code, headers, body)) == Some((code, headers, body))
  {
    var line := "HTTP/1.1 " + DecimalString(code) + " " + StatusCodePhrase[code];
    var rest := HeaderBlock(headers) + "\r\n" + body;
    assert Serialize(code, headers, body) == line + "\r\n" + rest by {
      assert StatusLine(code) == line + "\r\n";
    }
    StatusLineNoCR(code);
    ReadLineConcat(line, rest);
    ParseStatusLineOf(code);
    ParseHeadersBlock(headers, body);
  }
}
