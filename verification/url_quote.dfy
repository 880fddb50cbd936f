/**
 * Percent-encoding as Python 2.7's `urllib2.quote(s, '')` and `urllib2.unquote(s)`
 * perform it. The server quotes a game name to form its session-cookie key and
 * unquotes the game-name segment of every request path.
 */
module UrlQuote {

  /** A Python 2 `str`: every character is a single byte. */
  predicate IsBytes(s: string) {
    forall i :: 0 <= i < |s| ==> s[i] as int < 256
  }

  /** Characters `quote` never escapes when no extra safe characters are given. */
  predicate IsSafe(c: char) {
    ('A' <= c <= 'Z') || ('a' <= c <= 'z') || ('0' <= c <= '9') || c == '_' || c == '.' || c == '-'
  }

  predicate IsHex(c: char) {
    ('0' <= c <= '9') || ('A' <= c <= 'F') || ('a' <= c <= 'f')
  }

  function HexValue(c: char): (v: nat)
    requires IsHex(c)
    ensures v < 16
  {
    if '0' <= c <= '9' then c as int - '0' as int
    else if 'A' <= c <= 'F' then c as int - 'A' as int + 10
    else c as int - 'a' as int + 10
  }

  /** The upper-case hexadecimal digit `quote` writes for `d`. */
  function HexDigit(d: nat): (c: char)
    requires d < 16
    ensures IsHex(c) && HexValue(c) == d
  {
    if d < 10 then ('0' as int + d) as char else ('A' as int + d - 10) as char
  }

  /** The character a well-formed escape `%hl` stands for. */
  function EscapedChar(h: char, l: char): (c: char)
    requires IsHex(h) && IsHex(l)
    ensures c as int < 256
  {
    (16 * HexValue(h) + HexValue(l)) as char
  }

  function QuoteChar(c: char): (r: string)
    requires c as int < 256
    ensures IsSafe(c) ==> r == [c]
    ensures !IsSafe(c) ==> |r| == 3 && r[0] == '%' && IsHex(r[1]) && IsHex(r[2]) && EscapedChar(r[1], r[2]) == c
  {
    if IsSafe(c) then [c]
    else ['%', HexDigit(c as int / 16), HexDigit(c as int % 16)]
  }

  /** `urllib2.quote(s, '')`: every byte outside the safe set becomes `%XX`. */
  function Quote(s: string): (r: string)
    requires IsBytes(s)
    ensures |s| <= |r| <= 3 * |s|
    ensures forall i :: 0 <= i < |r| ==> IsSafe(r[i]) || r[i] == '%'
  {
    if s == [] then [] else QuoteChar(s[0]) + Quote(s[1..])
  }

  /** A well-formed escape `%hl` starts at index `i` of `s`. */
  predicate EscapeAt(s: string, i: int) {
    0 <= i && i + 2 < |s| && s[i] == '%' && IsHex(s[i + 1]) && IsHex(s[i + 2])
  }

  /**
   * `urllib2.unquote(s)`: each well-formed escape is replaced by the byte it
   * names; a `%` that does not start one is kept as it is.
   */
  function Unquote(s: string): (r: string)
    ensures |r| <= |s|
    ensures IsBytes(s) ==> IsBytes(r)
  {
    if s == [] then []
    else if EscapeAt(s, 0) then [EscapedChar(s[1], s[2])] + Unquote(s[3..])
    else [s[0]] + Unquote(s[1..])
  }

  /** Unquoting undoes quoting, so a game name survives the trip through its cookie key. */
  lemma {:induction false} UnquoteQuote(s: string)
    requires IsBytes(s)
    ensures Unquote(Quote(s)) == s
  {
    if s != [] {
      var c, rest := s[0], s[1..];
      assert IsBytes(rest);
      var q := QuoteChar(c);
      var tail := Quote(rest);
      assert Quote(s) == q + tail;
      UnquoteQuote(rest);
      if IsSafe(c) {
        assert !EscapeAt(q + tail, 0);
        assert (q + tail)[1..] == tail;
      } else {
        assert EscapeAt(q + tail, 0);
        assert (q + tail)[3..] == tail;
      }
      assert s == [c] + rest;
    }
  }

  /** A name made only of safe characters is its own quoted form. */
  lemma {:induction false} QuoteSafeName(s: string)
    requires forall i :: 0 <= i < |s| ==> IsSafe(s[i])
    ensures IsBytes(s) && Quote(s) == s
  {
    if s != [] {
      QuoteSafeName(s[1..]);
      assert s == [s[0]] + s[1..];
    }
  }

  /** A name without `%` is its own unquoted form. */
  lemma UnquotePlainName(s: string)
    requires forall i :: 0 <= i < |s| ==> s[i] != '%'
    ensures Unquote(s) == s
  {
    UnquoteFixedPoint(s);
  }

  /** Distinct game names get distinct cookie keys. */
  lemma QuoteInjective(a: string, b: string)
    requires IsBytes(a) && IsBytes(b)
    requires Quote(a) == Quote(b)
    ensures a == b
  {
    UnquoteQuote(a);
    UnquoteQuote(b);
  }

  /** A string with a well-formed escape gets strictly shorter when unquoted. */
  lemma {:induction false} UnquoteShrinks(s: string, i: int)
    requires EscapeAt(s, i)
    ensures |Unquote(s)| < |s|
    decreases i
  {
    if !EscapeAt(s, 0) {
      assert EscapeAt(s[1..], i - 1);
      UnquoteShrinks(s[1..], i - 1);
    }
  }

  /** Unquoting leaves a string unchanged exactly when it holds no well-formed escape. */
  lemma {:induction false} UnquoteFixedPoint(s: string)
    ensures Unquote(s) == s <==> forall i :: !EscapeAt(s, i)
  {
    if exists i :: EscapeAt(s, i) {
      var i :| EscapeAt(s, i);
      UnquoteShrinks(s, i);
    } else if s != [] {
      forall i | EscapeAt(s[1..], i)
        ensures false
      {
        assert EscapeAt(s, i + 1);
      }
      UnquoteFixedPoint(s[1..]);
      assert s == [s[0]] + s[1..];
    }
  }
}
