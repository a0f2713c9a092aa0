/** The Python built-ins that the plugin's layout code relies on, stated over
    `string` (= `seq<char>`): `' ' * n`, `str.ljust`, `'\n'.join` and its
    inverse `str.split('\n')`, `str(int)`, the regular-expression class `\s`,
    `max(len(k) for k in keys)` and `os.path.basename`. */
module PyStrings {

  datatype Option<T> = None | Some(value: T)

  function Max(a: int, b: int): int { if a < b then b else a }

  // ---------------------------------------------------------------------------
  // Sequences

  /** A sequence that grows by the next element of `items` stays `head`
      followed by a prefix of `items`. */
  lemma SnocTake<T>(grown: seq<T>, prev: seq<T>, head: seq<T>, items: seq<T>, k: nat)
    requires 0 < k <= |items|
    requires prev == head + items[..k - 1]
    requires grown == prev + [items[k - 1]]
    ensures grown == head + items[..k]
  {
    assert items[..k] == items[..k - 1] + [items[k - 1]];
  }

  // ---------------------------------------------------------------------------
  // Padding

  /** `' ' * n` */
  function Spaces(n: nat): string
  {
    seq(n, _ => ' ')
  }

  /** `s.ljust(width)`: `s` followed by spaces up to `width` characters; `s`
      itself when it is already that long. */
  function LJust(s: string, width: nat): string
  {
    if width <= |s| then s else s + Spaces(width - |s|)
  }

  /** `ljust` keeps the text in front, pads it with blanks only, and makes it
      exactly `width` long unless it is longer already. */
  lemma LJustPads(s: string, width: nat)
    ensures |LJust(s, width)| == Max(|s|, width)
    ensures LJust(s, width)[..|s|] == s
    ensures forall i :: |s| <= i < |LJust(s, width)| ==> LJust(s, width)[i] == ' '
  {
    if width > |s| {
      assert LJust(s, width) == s + Spaces(width - |s|);
    }
  }

  /** A key that fits is padded to exactly `width`. */
  lemma LJustLength(s: string, width: nat)
    requires |s| <= width
    ensures |LJust(s, width)| == width
  {
  }

  /** `'%s => %s' % (key.ljust(width), text)`: the layout of every line the
      plugin logs about a property, an argument, a configuration item, an
      input or an output. */
  function Arrowed(key: string, width: nat, text: string): string
  {
    LJust(key, width) + " => " + text
  }

  /** The arrow sits in column `width` whenever the key fits that width:
      keys padded to a common width line their arrows up. */
  lemma ArrowAt(key: string, width: nat, text: string)
    requires |key| <= width
    ensures |Arrowed(key, width, text)| >= width + 4
    ensures Arrowed(key, width, text)[width..width + 4] == " => "
  {
    LJustLength(key, width);
    PrefixOf(LJust(key, width) + " => ", text);
  }

  /** Text followed by more text begins with it. */
  lemma PrefixOf(head: string, rest: string)
    ensures |head + rest| >= |head| && (head + rest)[..|head|] == head
  {
  }

  /** A slice within the first part of a concatenation. */
  lemma SliceOfHead(h: string, r: string, a: nat, b: nat)
    requires a <= b <= |h|
    ensures (h + r)[a..b] == h[a..b]
  {
  }

  // ---------------------------------------------------------------------------
  // Lines

  /** `'\n'.join(lines)` */
  function Join(lines: seq<string>): string
  {
    if |lines| == 0 then ""
    else if |lines| == 1 then lines[0]
    else lines[0] + "\n" + Join(lines[1..])
  }

  /** `s.split('\n')`: the lines a reader sees in `s`. */
  function Split(s: string): (r: seq<string>)
    ensures |r| >= 1
  {
    if s == [] then [""]
    else
      var rest := Split(s[1..]);
      if s[0] == '\n' then [""] + rest else [[s[0]] + rest[0]] + rest[1..]
  }

  predicate NoNewline(s: string) { '\n' !in s }

  /** Splitting text whose first part holds no newline keeps that part glued
      to the first line of the rest. */
  lemma {:induction false} SplitGlue(a: string, b: string)
    requires NoNewline(a)
    ensures Split(a + b) == [a + Split(b)[0]] + Split(b)[1..]
  {
    if a != [] {
      assert (a + b)[1..] == a[1..] + b;
      SplitGlue(a[1..], b);
      assert [a[0]] + (a[1..] + Split(b)[0]) == a + Split(b)[0];
    } else {
      assert a + b == b;
      assert a + Split(b)[0] == Split(b)[0];
      assert Split(b) == [Split(b)[0]] + Split(b)[1..];
    }
  }

  /** Joining newline-free lines and splitting the result gives the lines back:
      the number of lines a reader sees is the number of lines joined. */
  lemma {:induction false} SplitJoin(lines: seq<string>)
    requires |lines| >= 1
    requires forall i :: 0 <= i < |lines| ==> NoNewline(lines[i])
    ensures Split(Join(lines)) == lines
  {
    if |lines| == 1 {
      SplitGlue(lines[0], "");
      assert lines[0] + "" == lines[0];
    } else {
      var tail := Join(lines[1..]);
      SplitJoin(lines[1..]);
      assert lines[0] + "\n" + tail == lines[0] + ("\n" + tail);
      SplitGlue(lines[0], "\n" + tail);
      assert ("\n" + tail)[1..] == tail;
      assert Split("\n" + tail) == [""] + lines[1..];
      assert lines[0] + "" == lines[0];
      assert lines == [lines[0]] + lines[1..];
    }
  }

  /** The other direction: the lines of any text joined back give the text. */
  lemma {:induction false} JoinSplit(s: string)
    ensures Join(Split(s)) == s
  {
    if s != [] {
      var rest := Split(s[1..]);
      JoinSplit(s[1..]);
      if s[0] == '\n' {
        assert Split(s) == [""] + rest;
        assert ([""] + rest)[1..] == rest;
        assert Join(Split(s)) == "" + "\n" + Join(rest);
        assert s == [s[0]] + s[1..];
      } else {
        JoinConsChar(s[0], rest);
        assert s == [s[0]] + s[1..];
      }
    }
  }

  lemma {:induction false} JoinConsChar(c: char, lines: seq<string>)
    requires |lines| >= 1
    ensures Join([[c] + lines[0]] + lines[1..]) == [c] + Join(lines)
  {
    var l := [[c] + lines[0]] + lines[1..];
    assert l[0] == [c] + lines[0];
    assert l[1..] == lines[1..];
    if |lines| > 1 {
      calc {
        Join(l);
        l[0] + "\n" + Join(l[1..]);
        [c] + lines[0] + "\n" + Join(lines[1..]);
        [c] + (lines[0] + "\n" + Join(lines[1..]));
        [c] + Join(lines);
      }
    }
  }

  // ---------------------------------------------------------------------------
  // str(int)

  function DigitChar(d: nat): char
    requires d < 10
  {
    "0123456789"[d]
  }

  predicate IsDigit(c: char) { '0' <= c <= '9' }

  /** `str(n)` for a non-negative integer: its decimal digits, no leading zero. */
  function NatToString(n: nat): (r: string)
    ensures |r| >= 1
    ensures forall i :: 0 <= i < |r| ==> IsDigit(r[i])
    ensures |r| > 1 ==> r[0] != '0'
    decreases n
  {
    if n < 10 then [DigitChar(n)] else NatToString(n / 10) + [DigitChar(n % 10)]
  }

  /** `str(i)` for any integer. */
  function IntToString(i: int): string
  {
    if i < 0 then "-" + NatToString(-i) else NatToString(i)
  }

  function DigitValue(c: char): nat
    requires IsDigit(c)
  {
    c as int - '0' as int
  }

  /** Reads a string of decimal digits back as a number (Python's `int(s)`). */
  function ParseNat(s: string): nat
    requires forall i :: 0 <= i < |s| ==> IsDigit(s[i])
  {
    if s == [] then 0
    else ParseNat(s[..|s| - 1]) * 10 + DigitValue(s[|s| - 1])
  }

  /** `int(str(n)) == n`: the decimal form loses nothing. */
  lemma {:induction false} ParseNatToString(n: nat)
    ensures ParseNat(NatToString(n)) == n
    decreases n
  {
    var s := NatToString(n);
    if n >= 10 {
      ParseNatToString(n / 10);
      assert s[..|s| - 1] == NatToString(n / 10);
    }
  }

  // ---------------------------------------------------------------------------
  // The regular-expression class \s

  /** The characters matched by `\s` in a Python `re` pattern over `str`
      (the characters for which `str.isspace()` holds). */
  predicate IsSpace(c: char)
  {
    || c == ' ' || c == '\t' || c == '\n' || c == '\r'
    || 0x0b <= c as int <= 0x0c   // vertical tab, form feed
    || 0x1c <= c as int <= 0x1f   // file, group, record and unit separators
    || c as int == 0x85 || c as int == 0xa0 || c as int == 0x1680
    || 0x2000 <= c as int <= 0x200a
    || c as int == 0x2028 || c as int == 0x2029 || c as int == 0x202f
    || c as int == 0x205f || c as int == 0x3000
  }

  /** `re.search(r'\s+', s)` finds a match. */
  predicate HasSpace(s: string)
  {
    exists i :: 0 <= i < |s| && IsSpace(s[i])
  }

  // ---------------------------------------------------------------------------
  // max(len(key) for key in keys)

  /** The length of the longest string in `keys`, and 0 when there is none
      (the source always starts its maximum from 0 or calls it on a
      non-empty collection). */
  function MaxLen(keys: seq<string>): nat
  {
    if |keys| == 0 then 0
    else Max(MaxLen(keys[..|keys| - 1]), |keys[|keys| - 1]|)
  }

  /** `MaxLen` is the maximum: no string is longer, and a non-empty
      collection holds a string of exactly that length. */
  lemma {:induction false} MaxLenIsMax(keys: seq<string>)
    ensures forall i :: 0 <= i < |keys| ==> |keys[i]| <= MaxLen(keys)
    ensures |keys| == 0 ==> MaxLen(keys) == 0
    ensures |keys| > 0 ==> exists i :: 0 <= i < |keys| && |keys[i]| == MaxLen(keys)
  {
    if |keys| > 0 {
      var init := keys[..|keys| - 1];
      MaxLenIsMax(init);
      assert forall i :: 0 <= i < |init| ==> init[i] == keys[i];
      if |init| > 0 && |keys[|keys| - 1]| < MaxLen(init) {
        var j :| 0 <= j < |init| && |init[j]| == MaxLen(init);
        assert |keys[j]| == MaxLen(keys);
      } else {
        assert |keys[|keys| - 1]| == MaxLen(keys);
      }
    }
  }

  // ---------------------------------------------------------------------------
  // os.path.basename

  /** `os.path.basename(p)` on a POSIX path: everything after the last `/`,
      that is, the longest suffix of `p` without a `/`. */
  function Basename(p: string): (r: string)
    ensures |r| <= |p| && r == p[|p| - |r|..]
    ensures '/' !in r
    ensures |r| < |p| ==> p[|p| - |r| - 1] == '/'
  {
    if p == [] then ""
    else if p[|p| - 1] == '/' then ""
    else Basename(p[..|p| - 1]) + [p[|p| - 1]]
  }

  /** Appending `/` and a slash-free name makes that name the base name. */
  lemma {:induction false} BasenameAfterSlash(dir: string, name: string)
    requires '/' !in name
    ensures Basename(dir + "/" + name) == name
  {
    var p := dir + "/" + name;
    if name != [] {
      var init := name[..|name| - 1];
      assert p[..|p| - 1] == dir + "/" + init;
      assert p[|p| - 1] == name[|name| - 1];
      BasenameAfterSlash(dir, init);
      assert init + [name[|name| - 1]] == name;
    } else {
      assert p[|p| - 1] == '/';
    }
  }
}
