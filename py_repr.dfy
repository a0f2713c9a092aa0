/** Python's `repr` of a `str`, the quoted literal that `format_dict` shows
    for string values that contain whitespace, together with the reading
    that undoes it (what `eval` does to such a literal). */
module PyRepr {
  import opened PyStrings

  /** `repr` encloses the text in double quotes when it holds a single quote
      and no double quote, and in single quotes otherwise. */
  function QuoteFor(s: string): char
  {
    if '\'' in s && '"' !in s then '"' else '\''
  }

  function HexDigit(d: nat): char
    requires d < 16
  {
    "0123456789abcdef"[d]
  }

  function HexValue(c: char): Option<nat>
  {
    if '0' <= c <= '9' then Some(c as int - '0' as int)
    else if 'a' <= c <= 'f' then Some(c as int - 'a' as int + 10)
    else None
  }

  /** The characters up to U+00FF that `repr` writes as `\xhh`: the C0 and
      C1 control characters, DEL, the no-break space and the soft hyphen. */
  predicate ByteEscaped(c: char)
  {
    c as int < 0x20 || 0x7f <= c as int <= 0xa0 || c as int == 0xad
  }

  /** The whitespace characters above U+00FF, which `repr` writes as `\uhhhh`. */
  predicate WideSpace(c: char)
  {
    || c as int == 0x1680 || 0x2000 <= c as int <= 0x200a
    || c as int == 0x2028 || c as int == 0x2029 || c as int == 0x202f
    || c as int == 0x205f || c as int == 0x3000
  }

  /** The four lower-case hexadecimal digits of `n`. */
  function Hex4(n: nat): string
    requires n < 0x10000
  {
    [HexDigit(n / 16 / 16 / 16), HexDigit(n / 16 / 16 % 16), HexDigit(n / 16 % 16), HexDigit(n % 16)]
  }

  /** How `repr` writes one character inside quotes `q`. */
  function EscapeChar(c: char, q: char): string
  {
    if c == q || c == '\\' then ['\\', c]
    else if c == '\t' then "\\t"
    else if c == '\n' then "\\n"
    else if c == '\r' then "\\r"
    else if ByteEscaped(c) then
      var n := c as int;
      "\\x" + [HexDigit(n / 16), HexDigit(n % 16)]
    else if WideSpace(c) then
      var n := c as int;
      "\\u" + Hex4(n)
    else [c]
  }

  function Escape(s: string, q: char): string
  {
    if s == [] then [] else EscapeChar(s[0], q) + Escape(s[1..], q)
  }

  /** `repr(s)` for a `str`. */
  function Repr(s: string): string
  {
    var q := QuoteFor(s);
    [q] + Escape(s, q) + [q]
  }

  function Prepend(c: char, rest: Option<string>): Option<string>
  {
    match rest
    case None => None
    case Some(u) => Some([c] + u)
  }

  /** Reads the escapes that `Escape` writes; `None` for any other escape. */
  function Unescape(t: string): Option<string>
  {
    if t == [] then Some([])
    else if t[0] != '\\' then Prepend(t[0], Unescape(t[1..]))
    else if |t| < 2 then None
    else if t[1] == '\\' || t[1] == '\'' || t[1] == '"' then Prepend(t[1], Unescape(t[2..]))
    else if t[1] == 't' then Prepend('\t', Unescape(t[2..]))
    else if t[1] == 'n' then Prepend('\n', Unescape(t[2..]))
    else if t[1] == 'r' then Prepend('\r', Unescape(t[2..]))
    else if t[1] == 'x' && |t| >= 4 && HexValue(t[2]).Some? && HexValue(t[3]).Some? then
      Prepend((HexValue(t[2]).value * 16 + HexValue(t[3]).value) as char, Unescape(t[4..]))
    else if t[1] == 'u' && |t| >= 6 && HexValue(t[2]).Some? && HexValue(t[3]).Some?
         && HexValue(t[4]).Some? && HexValue(t[5]).Some? then
      var n := ((HexValue(t[2]).value * 16 + HexValue(t[3]).value) * 16
                + HexValue(t[4]).value) * 16 + HexValue(t[5]).value;
      if 0xd800 <= n < 0xe000 then None
      else Prepend(n as char, Unescape(t[6..]))
    else None
  }

  /** Reads a literal written by `Repr` back into the text it stands for. */
  function Unrepr(r: string): Option<string>
  {
    if |r| >= 2 && (r[0] == '\'' || r[0] == '"') && r[|r| - 1] == r[0] then
      Unescape(r[1..|r| - 1])
    else None
  }

  lemma HexDigitValue(d: nat)
    requires d < 16
    ensures HexValue(HexDigit(d)) == Some(d)
  {
  }

  lemma UnescapePlain(c: char, rest: string)
    requires c != '\\'
    ensures Unescape([c] + rest) == Prepend(c, Unescape(rest))
  {
    assert ([c] + rest)[1..] == rest;
  }

  lemma UnescapePair(d: char, rest: string)
    requires d in "\\'\"tnr"
    ensures Unescape(['\\', d] + rest)
         == Prepend(if d == 't' then '\t' else if d == 'n' then '\n' else if d == 'r' then '\r' else d,
                    Unescape(rest))
  {
    assert (['\\', d] + rest)[2..] == rest;
  }

  lemma UnescapeByte(c: char, rest: string)
    requires c as int < 0x100
    ensures Unescape("\\x" + [HexDigit(c as int / 16), HexDigit(c as int % 16)] + rest)
         == Prepend(c, Unescape(rest))
  {
    var n := c as int;
    var t := "\\x" + [HexDigit(n / 16), HexDigit(n % 16)] + rest;
    HexDigitValue(n / 16);
    HexDigitValue(n % 16);
    assert t[1] == 'x' && t[2] == HexDigit(n / 16) && t[3] == HexDigit(n % 16);
    assert t[4..] == rest;
  }

  /** The four hexadecimal digits of `n`, read back, give `n`. */
  lemma Hex4Digits(n: nat)
    requires n < 0x10000
    ensures var h := Hex4(n);
            && HexValue(h[0]) == Some(n / 16 / 16 / 16)
            && HexValue(h[1]) == Some(n / 16 / 16 % 16)
            && HexValue(h[2]) == Some(n / 16 % 16)
            && HexValue(h[3]) == Some(n % 16)
            && ((n / 16 / 16 / 16 * 16 + n / 16 / 16 % 16) * 16 + n / 16 % 16) * 16 + n % 16 == n
  {
    var n1 := n / 16;
    var n2 := n1 / 16;
    HexDigitValue(n2 / 16);
    HexDigitValue(n2 % 16);
    HexDigitValue(n1 % 16);
    HexDigitValue(n % 16);
    assert n2 / 16 * 16 + n2 % 16 == n2;
    assert n2 * 16 + n1 % 16 == n1;
    assert n1 * 16 + n % 16 == n;
  }

  lemma UnescapeWide(c: char, rest: string)
    requires c as int < 0x10000
    ensures Unescape("\\u" + Hex4(c as int) + rest) == Prepend(c, Unescape(rest))
  {
    var h := Hex4(c as int);
    var t := "\\u" + h + rest;
    Hex4Digits(c as int);
    assert t[1] == 'u' && t[2] == h[0] && t[3] == h[1] && t[4] == h[2] && t[5] == h[3];
    assert t[6..] == rest;
  }

  lemma UnescapeChar(c: char, q: char, rest: string)
    requires q == '\'' || q == '"'
    ensures Unescape(EscapeChar(c, q) + rest) == Prepend(c, Unescape(rest))
  {
    if c == q || c == '\\' {
      UnescapePair(c, rest);
    } else if c == '\t' {
      UnescapePair('t', rest);
    } else if c == '\n' {
      UnescapePair('n', rest);
    } else if c == '\r' {
      UnescapePair('r', rest);
    } else if ByteEscaped(c) {
      UnescapeByte(c, rest);
    } else if WideSpace(c) {
      UnescapeWide(c, rest);
    } else {
      UnescapePlain(c, rest);
    }
  }

  lemma {:induction false} UnescapeEscape(s: string, q: char)
    requires q == '\'' || q == '"'
    ensures Unescape(Escape(s, q)) == Some(s)
  {
    if s != [] {
      UnescapeEscape(s[1..], q);
      UnescapeChar(s[0], q, Escape(s[1..], q));
      assert [s[0]] + s[1..] == s;
    }
  }

  /** `repr` loses nothing: reading its literal back gives the string. */
  lemma ReprRoundTrip(s: string)
    ensures Unrepr(Repr(s)) == Some(s)
  {
    var q := QuoteFor(s);
    var r := Repr(s);
    assert r[1..|r| - 1] == Escape(s, q);
    UnescapeEscape(s, q);
  }

  /** The only whitespace in `s` is the plain blank. */
  predicate BlanksOnly(s: string)
  {
    forall i :: 0 <= i < |s| && IsSpace(s[i]) ==> s[i] == ' '
  }

  /** The only whitespace a `repr` literal holds is the plain blank: tabs,
      newlines and every other space character come out as escapes. */
  lemma {:induction false} EscapeKeepsOnlyBlanks(s: string, q: char)
    requires q == '\'' || q == '"'
    ensures BlanksOnly(Escape(s, q))
  {
    if s != [] {
      EscapeKeepsOnlyBlanks(s[1..], q);
      var e := EscapeChar(s[0], q);
      var t := Escape(s[1..], q);
      EscapeCharKeepsOnlyBlanks(s[0], q);
      BlanksOnlyConcat(e, t);
    }
  }

  lemma HexDigitNotSpace(d: nat)
    requires d < 16
    ensures !IsSpace(HexDigit(d))
  {
    assert '0' <= HexDigit(d) <= 'f';
  }

  lemma EscapeCharKeepsOnlyBlanks(c: char, q: char)
    requires q == '\'' || q == '"'
    ensures BlanksOnly(EscapeChar(c, q))
  {
    var n := c as int;
    if c == q || c == '\\' || c == '\t' || c == '\n' || c == '\r' {
      QuotedEscapeBlanksOnly(c, q);
    } else if ByteEscaped(c) {
      HexDigitNotSpace(n / 16);
      HexDigitNotSpace(n % 16);
      DigitsBlanksOnly('x', [HexDigit(n / 16), HexDigit(n % 16)]);
    } else if WideSpace(c) {
      Hex4NotSpace(n);
      DigitsBlanksOnly('u', Hex4(n));
    } else {
      PlainCharBlanksOnly(c);
    }
  }

  lemma QuotedEscapeBlanksOnly(c: char, q: char)
    requires q == '\'' || q == '"'
    requires c == q || c == '\\' || c == '\t' || c == '\n' || c == '\r'
    ensures BlanksOnly(EscapeChar(c, q))
  {
  }

  /** A backslash, a letter and digits that are not spaces. */
  lemma DigitsBlanksOnly(letter: char, digits: string)
    requires letter == 'x' || letter == 'u'
    requires forall i :: 0 <= i < |digits| ==> !IsSpace(digits[i])
    ensures BlanksOnly(['\\', letter] + digits)
  {
    var e := ['\\', letter] + digits;
    assert forall i :: 2 <= i < |e| ==> e[i] == digits[i - 2];
  }

  lemma Hex4NotSpace(n: nat)
    requires n < 0x10000
    ensures forall i :: 0 <= i < 4 ==> !IsSpace(Hex4(n)[i])
  {
    HexDigitNotSpace(n / 16 / 16 / 16);
    HexDigitNotSpace(n / 16 / 16 % 16);
    HexDigitNotSpace(n / 16 % 16);
    HexDigitNotSpace(n % 16);
  }

  /** The only whitespace character that `repr` leaves as it is is the blank. */
  lemma PlainCharBlanksOnly(c: char)
    requires !(c == '\t' || c == '\n' || c == '\r' || ByteEscaped(c) || WideSpace(c))
    ensures IsSpace(c) ==> c == ' '
  {
  }

  lemma ReprKeepsOnlyBlanks(s: string)
    ensures BlanksOnly(Repr(s))
    ensures NoNewline(Repr(s))
  {
    var q := QuoteFor(s);
    EscapeKeepsOnlyBlanks(s, q);
    BlanksOnlyConcat([q], Escape(s, q));
    BlanksOnlyConcat([q] + Escape(s, q), [q]);
    BlanksOnlyHasNoNewline(Repr(s));
  }

  lemma BlanksOnlyConcat(a: string, b: string)
    requires BlanksOnly(a) && BlanksOnly(b)
    ensures BlanksOnly(a + b)
  {
    assert forall i :: |a| <= i < |a + b| ==> (a + b)[i] == b[i - |a|];
  }

  lemma BlanksOnlyHasNoNewline(s: string)
    requires BlanksOnly(s)
    ensures NoNewline(s)
  {
    if '\n' in s {
      var i :| 0 <= i < |s| && s[i] == '\n';
      assert IsSpace(s[i]);
    }
  }
}
