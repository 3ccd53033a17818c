/**
 * The pieces of Python's string semantics the request handler relies on:
 * `str.split()` with no separator, the containment operator `needle in hay`,
 * and `str()` of a non-negative integer and of an optional string.
 */
module PyStr {
  import opened Wrappers

  /** Python's `str.isspace()` for a single character. */
  predicate IsSpace(c: char) {
    var n := c as int;
    (0x09 <= n <= 0x0D) || (0x1C <= n <= 0x20) || n == 0x85 || n == 0xA0 || n == 0x1680
    || (0x2000 <= n <= 0x200A) || n == 0x2028 || n == 0x2029 || n == 0x202F || n == 0x205F
    || n == 0x3000
  }

  /** A token that `str.split()` can produce: non-empty, without whitespace. */
  predicate IsToken(t: string) {
    |t| > 0 && forall c <- t :: !IsSpace(c)
  }

  /** Length of the maximal run of non-whitespace characters at the start of `s`. */
  function WordLength(s: string): (n: nat)
    ensures n <= |s|
    ensures forall i :: 0 <= i < n ==> !IsSpace(s[i])
    ensures n < |s| ==> IsSpace(s[n])
  {
    if s == [] || IsSpace(s[0]) then 0 else 1 + WordLength(s[1..])
  }

  /** `s.split()`: the maximal whitespace-free runs of `s`, in order. */
  function Split(s: string): (tokens: seq<string>)
    ensures forall t <- tokens :: IsToken(t)
    decreases |s|
  {
    if s == [] then []
    else if IsSpace(s[0]) then Split(s[1..])
    else
      var n := WordLength(s);
      [s[..n]] + Split(s[n..])
  }

  /** A run of whitespace characters (possibly empty). */
  predicate IsSpaceRun(w: string) {
    forall c <- w :: IsSpace(c)
  }

  /**
   * The tokens laid out in order, each followed by its gap: `gaps[i]` comes
   * after `tokens[i]`. Together with leading whitespace, this describes every
   * string `str.split()` can be given.
   */
  function Spaced(tokens: seq<string>, gaps: seq<string>): string
    requires |gaps| == |tokens|
  {
    if tokens == [] then "" else tokens[0] + gaps[0] + Spaced(tokens[1..], gaps[1..])
  }

  /** Gaps of whitespace that separate consecutive tokens; the last gap may be empty. */
  predicate Separates(tokens: seq<string>, gaps: seq<string>) {
    |gaps| == |tokens|
    && (forall t <- tokens :: IsToken(t))
    && (forall g <- gaps :: IsSpaceRun(g))
    && (forall i :: 0 <= i < |gaps| - 1 ==> gaps[i] != [])
  }

  /** Leading whitespace is skipped. */
  lemma SplitSkipsSpace(c: char, s: string)
    requires IsSpace(c)
    ensures Split([c] + s) == Split(s)
  {
    assert ([c] + s)[1..] == s;
  }

  /** A token followed by the end of input or by whitespace is split off whole. */
  lemma {:induction false} SplitToken(t: string, rest: string)
    requires IsToken(t)
    requires rest == [] || IsSpace(rest[0])
    ensures Split(t + rest) == [t] + Split(rest)
  {
    var s := t + rest;
    var n := WordLength(s);
    assert forall i :: 0 <= i < |t| ==> s[i] == t[i] && t[i] in t;
    if |t| < |s| {
      assert s[|t|] == rest[0];
    }
    assert n == |t|;
    assert s[..n] == t;
    assert s[n..] == rest;
  }

  /** A whitespace run in front of the input changes nothing. */
  lemma {:induction false} SplitSkipsRun(w: string, s: string)
    requires IsSpaceRun(w)
    ensures Split(w + s) == Split(s)
  {
    if w != [] {
      assert w[0] in w;
      assert w + s == [w[0]] + (w[1..] + s);
      SplitSkipsSpace(w[0], w[1..] + s);
      assert forall c <- w[1..] :: c in w;
      SplitSkipsRun(w[1..], s);
    } else {
      assert w + s == s;
    }
  }

  /** Splitting the laid-out tokens gives back exactly the tokens, in order. */
  lemma {:induction false} SplitSpacedTokens(tokens: seq<string>, gaps: seq<string>)
    requires Separates(tokens, gaps)
    ensures Split(Spaced(tokens, gaps)) == tokens
  {
    if tokens != [] {
      var t, g := tokens[0], gaps[0];
      var tail := Spaced(tokens[1..], gaps[1..]);
      assert IsToken(t) && IsSpaceRun(g) by {
        assert t in tokens && g in gaps;
      }
      assert Separates(tokens[1..], gaps[1..]) by {
        assert forall x <- tokens[1..] :: x in tokens;
        assert forall x <- gaps[1..] :: x in gaps;
        assert forall i :: 0 <= i < |gaps[1..]| - 1 ==> gaps[1..][i] == gaps[i + 1];
      }
      assert Spaced(tokens, gaps) == t + (g + tail);
      if g == [] {
        assert |tokens| == 1;
        assert g + tail == [];
      } else {
        assert (g + tail)[0] == g[0] && g[0] in g;
      }
      SplitToken(t, g + tail);
      SplitSkipsRun(g, tail);
      SplitSpacedTokens(tokens[1..], gaps[1..]);
      assert [t] + tokens[1..] == tokens;
    }
  }

  /** With leading whitespace too: `str.split()` recovers every token of any such layout. */
  lemma SplitSpaced(lead: string, tokens: seq<string>, gaps: seq<string>)
    requires IsSpaceRun(lead)
    requires Separates(tokens, gaps)
    ensures Split(lead + Spaced(tokens, gaps)) == tokens
  {
    SplitSkipsRun(lead, Spaced(tokens, gaps));
    SplitSpacedTokens(tokens, gaps);
  }

  /** Python's `needle in hay` on strings: `needle` occurs somewhere in `hay`. */
  predicate Contains(hay: string, needle: string)
    decreases |hay|
  {
    needle <= hay || (|hay| > 0 && Contains(hay[1..], needle))
  }

  /** `Contains` agrees with the positional definition of a substring. */
  lemma {:induction false} ContainsAt(hay: string, needle: string)
    ensures Contains(hay, needle) <==> exists i :: 0 <= i <= |hay| && needle <= hay[i..]
  {
    if needle <= hay {
      assert hay[0..] == hay;
    } else if |hay| > 0 {
      ContainsAt(hay[1..], needle);
      if Contains(hay[1..], needle) {
        var i :| 0 <= i <= |hay[1..]| && needle <= hay[1..][i..];
        assert hay[1..][i..] == hay[i + 1..];
      } else {
        forall i | 0 <= i <= |hay| ensures !(needle <= hay[i..]) {
          if i > 0 {
            assert hay[1..][i - 1..] == hay[i..];
          } else {
            assert hay[0..] == hay;
          }
        }
      }
    } else {
      if i :| 0 <= i <= |hay| && needle <= hay[i..] {
        assert false;
      }
    }
  }

  /** A string occurs only in a string at least as long. */
  lemma {:induction false} ContainsLength(hay: string, needle: string)
    requires Contains(hay, needle)
    ensures |needle| <= |hay|
  {
    if !(needle <= hay) {
      ContainsLength(hay[1..], needle);
    }
  }

  /** A string occurs in anything that ends with it. */
  lemma {:induction false} ContainsSuffix(prefix: string, s: string)
    ensures Contains(prefix + s, s)
  {
    if prefix != [] {
      assert (prefix + s)[1..] == prefix[1..] + s;
      ContainsSuffix(prefix[1..], s);
    }
  }

  /** An occurrence in a prefix of `hay` is an occurrence in `hay`. */
  lemma {:induction false} ContainsInPrefix(hay: string, mid: string, needle: string)
    requires mid <= hay
    requires Contains(mid, needle)
    ensures Contains(hay, needle)
  {
    if !(needle <= mid) {
      ContainsInPrefix(hay[1..], mid[1..], needle);
    }
  }

  /** The substring relation is transitive. */
  lemma {:induction false} ContainsTransitive(hay: string, mid: string, needle: string)
    requires Contains(hay, mid)
    requires Contains(mid, needle)
    ensures Contains(hay, needle)
  {
    if mid <= hay {
      ContainsInPrefix(hay, mid, needle);
    } else {
      ContainsTransitive(hay[1..], mid, needle);
    }
  }

  predicate IsDigit(c: char) {
    '0' <= c <= '9'
  }

  function DigitValue(c: char): (d: nat)
    requires IsDigit(c)
    ensures d < 10
  {
    c as int - '0' as int
  }

  function DigitChar(d: nat): (c: char)
    requires d < 10
    ensures IsDigit(c) && DigitValue(c) == d
  {
    ('0' as int + d) as char
  }

  /** `str(n)` for a non-negative integer: its decimal digits. */
  function DecimalString(n: nat): (s: string)
    ensures |s| > 0
    ensures forall c <- s :: IsDigit(c)
  {
    if n < 10 then [DigitChar(n)] else DecimalString(n / 10) + [DigitChar(n % 10)]
  }

  /** The value of a string of decimal digits (most significant first). */
  function ParseDecimal(s: string): nat
    requires forall c <- s :: IsDigit(c)
  {
    if s == [] then 0
    else 10 * ParseDecimal(s[..|s| - 1]) + DigitValue(s[|s| - 1])
  }

  /** Reading the digits back gives the number. */
  lemma {:induction false} ParseDecimalString(n: nat)
    ensures ParseDecimal(DecimalString(n)) == n
  {
    var s := DecimalString(n);
    if n >= 10 {
      assert s[..|s| - 1] == DecimalString(n / 10);
      ParseDecimalString(n / 10);
    }
  }

  /** The text of a three-digit number. */
  lemma DecimalThreeDigits(n: nat)
    requires 100 <= n < 1000
    ensures DecimalString(n) == [DigitChar(n / 100), DigitChar(n / 10 % 10), DigitChar(n % 10)]
  {
    assert DecimalString(n / 100) == [DigitChar(n / 100)];
    assert n / 10 / 10 == n / 100;
    assert DecimalString(n / 10) == [DigitChar(n / 100), DigitChar(n / 10 % 10)];
  }

  /** `str(x)` for an optional string: Python renders `None` as `"None"`. */
  function ShowOption(x: Option<string>): string {
    match x
    case Some(v) => v
    case None => "None"
  }
}
