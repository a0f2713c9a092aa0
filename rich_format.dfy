/** `format_dict` of pyppl_rich.py: how the plugin lays out one property,
    argument or plugin-configuration value in the log. A value that is not a
    dict is shown as text; a dict is shown in braces, on one line when it has
    at most one item and otherwise one item per line, with the keys padded to
    a common width and the continuation lines indented so that the keys line
    up under the first one. */
module RichFormat {
  import opened PyStrings
  import opened PyRepr

  /** A Python value that is not a dict: a `str`, an `int`, or any other
      object, given by what `str()` makes of it and by its truth value.
      A dict nested inside a dict is such an "other" object: `format_dict`
      shows it with `str()`, not with its own layout. */
  datatype Datum = Str(s: string) | Int(i: int) | Other(text: string, truthy: bool)

  /** The value handed to `format_dict`: anything that is not a dict, or a
      dict of class `cls` ("dict" itself, or a subclass such as "Diot" or
      "OrderedDiot") whose items, in iteration order, are `entries`. */
  datatype Value = Scalar(d: Datum) | Mapping(cls: string, entries: seq<(string, Datum)>)

  /** A Python dict never holds the same key twice. */
  predicate DistinctKeys(entries: seq<(string, Datum)>)
  {
    forall i, j :: 0 <= i < j < |entries| ==> entries[i].0 != entries[j].0
  }

  predicate WellFormed(v: Value)
  {
    v.Mapping? ==> DistinctKeys(v.entries)
  }

  /** `str(d)` */
  function StrOf(d: Datum): string
  {
    match d
    case Str(s) => s
    case Int(i) => IntToString(i)
    case Other(text, _) => text
  }

  /** `'[%s] ' % alias if alias else ''`; an absent alias is the empty one. */
  function Prefix(alias: string): string
  {
    if alias == "" then "" else "[" + alias + "] "
  }

  /** Nothing for a plain dict, `<Name> ` for a dict subclass named `Name`. */
  function TypeTag(cls: string): string
  {
    if cls == "dict" then "" else "<" + cls + "> "
  }

  /** How a value inside a multi-item block is shown: a string containing
      whitespace as its `repr`, anything else as its `str`. */
  function Shown(d: Datum): string
  {
    if d.Str? && HasSpace(d.s) then Repr(d.s) else StrOf(d)
  }

  /** The keys of a dict, in iteration order. */
  function Keys<T>(entries: seq<(string, T)>): seq<string>
  {
    seq(|entries|, i requires 0 <= i < |entries| => entries[i].0)
  }

  /** Every key of a dict fits the length of its longest key. */
  lemma KeyFits<T>(entries: seq<(string, T)>, i: nat)
    requires i < |entries|
    ensures |entries[i].0| <= MaxLen(Keys(entries))
  {
    MaxLenIsMax(Keys(entries));
    assert Keys(entries)[i] == entries[i].0;
  }

  /** An item as a block shows it: its key and the text of its value. */
  type Cell = (string, string)

  function Cells(entries: seq<(string, Datum)>): seq<Cell>
  {
    seq(|entries|, i requires 0 <= i < |entries| => (entries[i].0, Shown(entries[i].1)))
  }

  /** The line of one item of a multi-item block: what stands before its
      key, the key padded to `width`, a colon, the value and a comma. */
  function ItemLine(lead: string, c: Cell, width: nat): string
  {
    lead + LJust(c.0, width) + ": " + c.1 + ","
  }

  /** The first item goes on the first line unless there is both an alias
      and a type tag, in which case the first line holds only those. */
  predicate Inline(prefix: string, tag: string)
  {
    |prefix| == 0 || |tag| == 0
  }

  /** `braceindt`: the width of what stands before the opening brace on its
      own line. */
  function BraceIndent(prefix: string, tag: string): nat
  {
    if Inline(prefix, tag) then |prefix + tag| else |prefix|
  }

  /** What stands before the key of item `j` of a block: for the first item
      the opening brace, after the head text when it shares the first line
      and after the indentation otherwise; for every other item the
      indentation and two spaces. */
  function Lead(j: nat, prefix: string, tag: string, keylen: nat): string
  {
    var indent := Spaces(BraceIndent(prefix, tag) + keylen + 4);
    if j > 0 then indent + "  "
    else if Inline(prefix, tag) then prefix + tag + "{ "
    else indent + "{ "
  }

  /** The head line of a block, when it holds only the alias and the type
      tag; nothing when the first item shares it. */
  function Head(prefix: string, tag: string): seq<string>
  {
    if Inline(prefix, tag) then [] else [prefix + tag]
  }

  /** The line of every item of a block, in the dict's order, its key padded
      to `width`, before the closing brace is added. */
  function ItemLines(cells: seq<Cell>, prefix: string, tag: string, keylen: nat, width: nat): seq<string>
  {
    seq(|cells|, j requires 0 <= j < |cells| => ItemLine(Lead(j, prefix, tag, keylen), cells[j], width))
  }

  /** The lines `format_dict` has written once it has handled the first `k`
      items of a block, before the closing brace: the head line, unless the
      first item shares it, then one line per item handled. */
  function OpenLines(cells: seq<Cell>, prefix: string, tag: string, keylen: nat, width: nat, k: nat): seq<string>
    requires k <= |cells|
  {
    if k == 0 then Head(prefix, tag)
    else OpenLines(cells, prefix, tag, keylen, width, k - 1)
         + [ItemLine(Lead(k - 1, prefix, tag, keylen), cells[k - 1], width)]
  }

  /** `ret[-1] += ' }'` */
  function Close(ls: seq<string>): seq<string>
    requires |ls| >= 1
  {
    ls[..|ls| - 1] + [ls[|ls| - 1] + " }"]
  }

  /** The lines of a multi-item block. */
  function BlockLines(cells: seq<Cell>, prefix: string, tag: string, keylen: nat, width: nat): seq<string>
    requires |cells| >= 1
  {
    Close(Head(prefix, tag) + ItemLines(cells, prefix, tag, keylen, width))
  }

  /** What `format_dict(val, keylen, alias)` returns. A dict with one item is
      first written out as `{ k: v }` (after the alias and type tag) and that
      text is formatted again, as a plain value with no alias. */
  function Rendered(val: Value, keylen: nat, alias: string): string
    decreases if val.Mapping? then 1 else 0
  {
    var prefix := Prefix(alias);
    match val
    case Scalar(d) => prefix + (if d == Str("") then Repr("") else StrOf(d))
    case Mapping(cls, entries) =>
      var tag := TypeTag(cls);
      if |entries| == 0 then prefix + tag + "{  }"
      else if |entries| == 1 then
        Rendered(Scalar(Str(prefix + tag + "{ " + entries[0].0 + ": " + StrOf(entries[0].1) + " }")), 0, "")
      else Join(BlockLines(Cells(entries), prefix, tag, keylen, MaxLen(Keys(entries))))
  }

  // ---------------------------------------------------------------------------
  // format_dict, step by step

  /** `format_dict` as the source computes it: the multi-item block is built
      by walking the dict's items, skipping the first one when it already
      stands on the head line, and then closing the last line. */
  method FormatDict(val: Value, keylen: nat, alias: string) returns (r: string)
    requires WellFormed(val)
    ensures r == Rendered(val, keylen, alias)
    decreases if val.Mapping? then 1 else 0
  {
    var prefix := if alias != "" then "[" + alias + "] " else "";
    if val.Scalar? {
      r := prefix + (if val.d == Str("") then Repr("") else StrOf(val.d));
      return;
    }
    var entries := val.entries;
    var tag := if val.cls == "dict" then "" else "<" + val.cls + "> ";
    if |entries| == 0 {
      r := prefix + tag + "{  }";
      return;
    }
    if |entries| == 1 {
      r := FormatDict(Scalar(Str(prefix + tag + "{ " + entries[0].0 + ": " + StrOf(entries[0].1) + " }")), 0, "");
      return;
    }

    var ret := BuildBlock(entries, prefix, tag, keylen);
    r := Join(ret);
  }

  /** The lines of a block of two or more items, as the source builds them. */
  method BuildBlock(entries: seq<(string, Datum)>, prefix: string, tag: string, keylen: nat)
    returns (ret: seq<string>)
    requires |entries| >= 2 && DistinctKeys(entries)
    ensures ret == BlockLines(Cells(entries), prefix, tag, keylen, MaxLen(Keys(entries)))
  {
    var w := MaxLen(Keys(entries));
    ret := [prefix + tag];
    var key0 := entries[0].0;
    // `not alias or not valtype`: the first item shares the head's line
    var shared := |prefix| == 0 || |tag| == 0;
    var braceindt: nat;
    if shared {
      braceindt := |prefix + tag|;
      ret := [ItemLine(ret[0] + "{ ", (key0, Shown(entries[0].1)), w)];
      FirstItemInline(entries, prefix, tag, keylen, w);
    } else {
      braceindt := |prefix|;
    }

    ghost var start := if shared then 1 else 0;
    var i := 0;
    while i < |entries|
      invariant 0 <= i <= |entries|
      invariant braceindt == BraceIndent(prefix, tag)
      invariant ret == OpenLines(Cells(entries), prefix, tag, keylen, w, Max(i, start))
    {
      var keyi := entries[i].0;
      FirstKeyOnlyFirst(entries, i);
      if keyi == key0 && shared {
        i := i + 1;
        continue;
      }
      var lead := if keyi == key0 then "{ " else "  ";
      AppendItem(entries, prefix, tag, keylen, w, i, start, braceindt, lead, ret);
      ret := ret + [ItemLine(Spaces(braceindt + keylen + 4) + lead, (keyi, Shown(entries[i].1)), w)];
      i := i + 1;
    }
    ClosedOpenLines(Cells(entries), prefix, tag, keylen, w);
    ret := ret[..|ret| - 1] + [ret[|ret| - 1] + " }"];
  }

  /** An item line that does not share the head's line starts with the
      indentation and then the opening brace or two spaces. */
  lemma LeadAfterHead(j: nat, prefix: string, tag: string, keylen: nat, braceindt: nat, lead: string)
    requires j > 0 || !Inline(prefix, tag)
    requires braceindt == BraceIndent(prefix, tag)
    requires lead == if j == 0 then "{ " else "  "
    ensures Lead(j, prefix, tag, keylen) == Spaces(braceindt + keylen + 4) + lead
  {
  }

  /** One step of the loop of `BuildBlock`: appending the line of item `i`
      to the lines before it. */
  lemma AppendItem(entries: seq<(string, Datum)>, prefix: string, tag: string, keylen: nat, width: nat,
                   i: nat, start: nat, braceindt: nat, lead: string, ret: seq<string>)
    requires i < |entries|
    requires start == if Inline(prefix, tag) then 1 else 0
    requires i > 0 || !Inline(prefix, tag)
    requires braceindt == BraceIndent(prefix, tag)
    requires lead == if i == 0 then "{ " else "  "
    requires ret == OpenLines(Cells(entries), prefix, tag, keylen, width, Max(i, start))
    ensures ret + [ItemLine(Spaces(braceindt + keylen + 4) + lead, (entries[i].0, Shown(entries[i].1)), width)]
         == OpenLines(Cells(entries), prefix, tag, keylen, width, Max(i + 1, start))
  {
    assert Max(i, start) == i && Max(i + 1, start) == i + 1;
    CellLine(entries, prefix, tag, keylen, width, i, braceindt, lead);
    OpenLinesSnoc(Cells(entries), prefix, tag, keylen, width, i);
  }

  lemma OpenLinesSnoc(cells: seq<Cell>, prefix: string, tag: string, keylen: nat, width: nat, k: nat)
    requires k < |cells|
    ensures OpenLines(cells, prefix, tag, keylen, width, k + 1)
         == OpenLines(cells, prefix, tag, keylen, width, k) + [ItemLine(Lead(k, prefix, tag, keylen), cells[k], width)]
  {
  }

  /** The line the loop writes for item `i` is that item's line of the block. */
  lemma CellLine(entries: seq<(string, Datum)>, prefix: string, tag: string, keylen: nat, width: nat,
                 i: nat, braceindt: nat, lead: string)
    requires i < |entries|
    requires i > 0 || !Inline(prefix, tag)
    requires braceindt == BraceIndent(prefix, tag)
    requires lead == if i == 0 then "{ " else "  "
    ensures ItemLine(Spaces(braceindt + keylen + 4) + lead, (entries[i].0, Shown(entries[i].1)), width)
         == ItemLine(Lead(i, prefix, tag, keylen), Cells(entries)[i], width)
  {
    LeadAfterHead(i, prefix, tag, keylen, braceindt, lead);
  }

  /** When the first item shares the head's line, that line is the only one
      before the second item. */
  lemma FirstItemInline(entries: seq<(string, Datum)>, prefix: string, tag: string, keylen: nat, width: nat)
    requires |entries| >= 1 && Inline(prefix, tag)
    ensures OpenLines(Cells(entries), prefix, tag, keylen, width, 1)
         == [ItemLine(prefix + tag + "{ ", (entries[0].0, Shown(entries[0].1)), width)]
  {
    assert Cells(entries)[0] == (entries[0].0, Shown(entries[0].1));
  }

  /** Closing the lines written after the last item gives the block. */
  lemma ClosedOpenLines(cells: seq<Cell>, prefix: string, tag: string, keylen: nat, width: nat)
    requires |cells| >= 1
    ensures |OpenLines(cells, prefix, tag, keylen, width, |cells|)| >= 1
    ensures Close(OpenLines(cells, prefix, tag, keylen, width, |cells|)) == BlockLines(cells, prefix, tag, keylen, width)
  {
    var items := ItemLines(cells, prefix, tag, keylen, width);
    OpenLinesAreItemLines(cells, prefix, tag, keylen, width, |cells|);
    assert items[..|cells|] == items;
  }

  /** The lines written after `k` items are the head line and the first `k`
      item lines. */
  lemma {:induction false} OpenLinesAreItemLines(cells: seq<Cell>, prefix: string, tag: string, keylen: nat, width: nat, k: nat)
    requires k <= |cells|
    ensures OpenLines(cells, prefix, tag, keylen, width, k) == Head(prefix, tag) + ItemLines(cells, prefix, tag, keylen, width)[..k]
    decreases k
  {
    var items := ItemLines(cells, prefix, tag, keylen, width);
    if k == 0 {
      assert Head(prefix, tag) + items[..0] == Head(prefix, tag);
    } else {
      OpenLinesAreItemLines(cells, prefix, tag, keylen, width, k - 1);
      SnocTake(OpenLines(cells, prefix, tag, keylen, width, k), OpenLines(cells, prefix, tag, keylen, width, k - 1),
               Head(prefix, tag), items, k);
    }
  }

  /** With distinct keys, the first key is met again only at the first item:
      the comparison with `key0` that the loop makes tells the first item
      from the others. */
  lemma FirstKeyOnlyFirst(entries: seq<(string, Datum)>, i: nat)
    requires DistinctKeys(entries) && i < |entries|
    ensures entries[i].0 == entries[0].0 <==> i == 0
  {
  }

  // ---------------------------------------------------------------------------
  // What the layout promises

  /** A value that is not a dict is shown with `str`, after the alias; only
      the empty string is quoted (as `''`). A non-empty string is never
      quoted here, whatever whitespace it holds. */
  lemma ScalarRendering(d: Datum, keylen: nat, alias: string)
    ensures d == Str("") ==> Rendered(Scalar(d), keylen, alias) == Prefix(alias) + "''"
    ensures d != Str("") ==> Rendered(Scalar(d), keylen, alias) == Prefix(alias) + StrOf(d)
    ensures alias == "" <==> Prefix(alias) == ""
  {
    assert Repr("") == "''";
  }

  /** An empty dict is `{  }` after the alias and, for a dict subclass, its
      class name in angle brackets. */
  lemma EmptyMappingRendering(cls: string, keylen: nat, alias: string)
    ensures Rendered(Mapping(cls, []), keylen, alias) == Prefix(alias) + TypeTag(cls) + "{  }"
    ensures TypeTag(cls) == "" <==> cls == "dict"
  {
  }

  /** A dict with one item is one line, `{ k: v }` after the alias and type
      tag, whatever `keylen` is; its value is shown with `str`, never quoted. */
  lemma SingleEntryRendering(cls: string, k: string, v: Datum, keylen: nat, alias: string)
    ensures Rendered(Mapping(cls, [(k, v)]), keylen, alias)
         == Prefix(alias) + TypeTag(cls) + "{ " + k + ": " + StrOf(v) + " }"
  {
    var s := Prefix(alias) + TypeTag(cls) + "{ " + k + ": " + StrOf(v) + " }";
    assert s != "";
    assert Prefix("") + s == s;
  }

  /** Line `j + off` of a block is the line of item `j`, the last one
      closed with ` }`; `off` is 1 when the head line stands alone. */
  lemma BlockLineAt(cells: seq<Cell>, prefix: string, tag: string, keylen: nat, width: nat, j: nat)
    requires j < |cells|
    ensures var ls := BlockLines(cells, prefix, tag, keylen, width);
            var off := if Inline(prefix, tag) then 0 else 1;
            && |ls| == |cells| + off
            && (off == 1 ==> ls[0] == prefix + tag)
            && ls[j + off] == ItemLine(Lead(j, prefix, tag, keylen), cells[j], width)
                              + (if j == |cells| - 1 then " }" else "")
  {
    var open := Head(prefix, tag) + ItemLines(cells, prefix, tag, keylen, width);
    var off := if Inline(prefix, tag) then 0 else 1;
    assert open[j + off] == ItemLines(cells, prefix, tag, keylen, width)[j];
    assert off == 1 ==> open[0] == prefix + tag;
  }

  /** The lines of a block: the head line holds only the alias and the type
      tag when both are present; then item `j`, in the dict's order, stands
      alone on line `j + off`, every item ends with a comma and the last line
      also with ` }`. */
  lemma BlockShape(cells: seq<Cell>, prefix: string, tag: string, keylen: nat, width: nat)
    requires |cells| >= 1
    ensures var ls := BlockLines(cells, prefix, tag, keylen, width);
            var off := if Inline(prefix, tag) then 0 else 1;
            && |ls| == |cells| + off
            && (off == 1 ==> ls[0] == prefix + tag)
            && forall j :: 0 <= j < |cells| ==>
                 ls[j + off] == ItemLine(Lead(j, prefix, tag, keylen), cells[j], width)
                                + (if j == |cells| - 1 then " }" else "")
  {
    var off := if Inline(prefix, tag) then 0 else 1;
    forall j | 0 <= j < |cells|
      ensures BlockLines(cells, prefix, tag, keylen, width)[j + off]
           == ItemLine(Lead(j, prefix, tag, keylen), cells[j], width) + (if j == |cells| - 1 then " }" else "")
    {
      BlockLineAt(cells, prefix, tag, keylen, width, j);
    }
    BlockLineAt(cells, prefix, tag, keylen, width, 0);
  }

  /** The text of an item's line after its lead: the padded key, `: `, the
      value as shown, and a comma. */
  lemma ItemLineAfterLead(lead: string, c: Cell, width: nat, closer: string)
    ensures var line := ItemLine(lead, c, width) + closer;
            && |line| >= |lead| + |LJust(c.0, width)| + 2
            && line[..|lead|] == lead
            && line[|lead|..] == LJust(c.0, width) + ": " + c.1 + "," + closer
  {
    var body := LJust(c.0, width) + ": " + c.1 + ",";
    assert ItemLine(lead, c, width) + closer == lead + (body + closer);
  }

  /** Every key of a block is padded to the same width, the length of the
      dict's longest key (whatever `keylen` is), so the colons line up. */
  lemma KeysPadded(entries: seq<(string, Datum)>, j: nat)
    requires j < |entries|
    ensures |LJust(entries[j].0, MaxLen(Keys(entries)))| == MaxLen(Keys(entries))
    ensures LJust(entries[j].0, MaxLen(Keys(entries)))[..|entries[j].0|] == entries[j].0
    ensures exists i :: 0 <= i < |entries| && |entries[i].0| == MaxLen(Keys(entries))
  {
    var keys := Keys(entries);
    KeyFits(entries, j);
    LJustPads(entries[j].0, MaxLen(keys));
    MaxLenIsMax(keys);
    var i :| 0 <= i < |keys| && |keys[i]| == MaxLen(keys);
    assert keys[i] == entries[i].0;
  }

  /** A line led by `ind` blanks and a two-character opener keeps both in
      front of the item. */
  lemma IndentedItemLine(ind: nat, opener: string, c: Cell, width: nat, closer: string)
    requires |opener| == 2
    ensures var line := ItemLine(Spaces(ind) + opener, c, width) + closer;
            && |line| >= ind + 2
            && line[..ind] == Spaces(ind)
            && line[ind..ind + 2] == opener
  {
    var lead := Spaces(ind) + opener;
    ItemLineAfterLead(lead, c, width, closer);
    var line := ItemLine(lead, c, width) + closer;
    assert line[..ind] == lead[..ind];
    assert line[ind..ind + 2] == lead[ind..ind + 2];
  }

  /** Every line of a block after the first starts with exactly
      `braceindt + keylen + 4` spaces, then `{ ` or two spaces. */
  lemma ContinuationIndent(cells: seq<Cell>, prefix: string, tag: string, keylen: nat, width: nat, i: nat)
    requires |cells| >= 1
    requires 1 <= i < |BlockLines(cells, prefix, tag, keylen, width)|
    ensures var line := BlockLines(cells, prefix, tag, keylen, width)[i];
            var ind := BraceIndent(prefix, tag) + keylen + 4;
            && |line| >= ind + 2
            && line[..ind] == Spaces(ind)
            && (line[ind..ind + 2] == "{ " || line[ind..ind + 2] == "  ")
  {
    var off := if Inline(prefix, tag) then 0 else 1;
    BlockLineAt(cells, prefix, tag, keylen, width, 0);
    ItemBlockLineIndent(cells, prefix, tag, keylen, width, i - off);
  }

  lemma ItemBlockLineIndent(cells: seq<Cell>, prefix: string, tag: string, keylen: nat, width: nat, j: nat)
    requires j < |cells|
    requires j > 0 || !Inline(prefix, tag)
    ensures var ls := BlockLines(cells, prefix, tag, keylen, width);
            var i := j + (if Inline(prefix, tag) then 0 else 1);
            var ind := BraceIndent(prefix, tag) + keylen + 4;
            && i < |ls|
            && |ls[i]| >= ind + 2
            && ls[i][..ind] == Spaces(ind)
            && ls[i][ind..ind + 2] == (if j == 0 then "{ " else "  ")
  {
    var ind := BraceIndent(prefix, tag) + keylen + 4;
    BlockLineAt(cells, prefix, tag, keylen, width, j);
    if j == 0 {
      LeadAfterHead(j, prefix, tag, keylen, BraceIndent(prefix, tag), "{ ");
      if j == |cells| - 1 {
        IndentedItemLine(ind, "{ ", cells[j], width, " }");
      } else {
        IndentedItemLine(ind, "{ ", cells[j], width, "");
      }
    } else {
      LeadAfterHead(j, prefix, tag, keylen, BraceIndent(prefix, tag), "  ");
      if j == |cells| - 1 {
        IndentedItemLine(ind, "  ", cells[j], width, " }");
      } else {
        IndentedItemLine(ind, "  ", cells[j], width, "");
      }
    }
  }

  /** A string value never breaks a block's layout: its `repr` holds no
      newline, even when the string does. */
  lemma ShownKeepsLineBreaksOut(d: Datum)
    requires d.Str? || NoNewline(StrOf(d))
    ensures NoNewline(Shown(d))
  {
    if d.Str? && HasSpace(d.s) {
      ReprKeepsOnlyBlanks(d.s);
    } else if d.Int? {
      var digits := NatToString(if d.i < 0 then -d.i else d.i);
      assert forall i :: 0 <= i < |digits| ==> IsDigit(digits[i]);
    }
  }

  /** No newline in the alias, the class name, the keys or the non-string
      values of `val` (string values inside a multi-item block are exempt,
      since they come out as escaped literals). */
  predicate NewlineFree(val: Value, alias: string)
  {
    && NoNewline(alias)
    && match val
       case Scalar(d) => NoNewline(StrOf(d))
       case Mapping(cls, entries) =>
         && NoNewline(cls)
         && forall i :: 0 <= i < |entries| ==>
              NoNewline(entries[i].0) && ((|entries| >= 2 && entries[i].1.Str?) || NoNewline(StrOf(entries[i].1)))
  }

  lemma NoNewlineConcat(a: string, b: string)
    requires NoNewline(a) && NoNewline(b)
    ensures NoNewline(a + b)
  {
    assert forall i :: 0 <= i < |a + b| ==> (a + b)[i] == if i < |a| then a[i] else b[i - |a|];
  }

  /** The shown text of the items of a dict whose keys and non-string values
      hold no newline holds no newline either. */
  lemma CellsNewlineFree(entries: seq<(string, Datum)>)
    requires forall i :: 0 <= i < |entries| ==>
               NoNewline(entries[i].0) && (entries[i].1.Str? || NoNewline(StrOf(entries[i].1)))
    ensures forall i :: 0 <= i < |Cells(entries)| ==>
              NoNewline(Cells(entries)[i].0) && NoNewline(Cells(entries)[i].1)
  {
    forall i | 0 <= i < |entries|
      ensures NoNewline(Cells(entries)[i].0) && NoNewline(Cells(entries)[i].1)
    {
      ShownKeepsLineBreaksOut(entries[i].1);
    }
  }

  /** How many lines a reader sees: one for a non-dict value, an empty dict
      or a one-item dict; for a dict of `n >= 2` items, `n` lines, or `n + 1`
      when both an alias and a type tag are given. */
  lemma LineCount(val: Value, keylen: nat, alias: string)
    requires NewlineFree(val, alias)
    ensures |Split(Rendered(val, keylen, alias))|
         == if val.Mapping? && |val.entries| >= 2
            then |val.entries| + (if alias != "" && val.cls != "dict" then 1 else 0)
            else 1
  {
    var prefix := Prefix(alias);
    NoNewlineConcat("[" + alias, "] ");
    NoNewlineConcat("[", alias);
    assert NoNewline(prefix);
    match val
    case Scalar(d) =>
      var r := Rendered(val, keylen, alias);
      assert NoNewline(Repr("")) by { ReprKeepsOnlyBlanks(""); }
      NoNewlineConcat(prefix, if d == Str("") then Repr("") else StrOf(d));
      SplitJoin([r]);
    case Mapping(cls, entries) =>
      var tag := TypeTag(cls);
      NoNewlineConcat("<" + cls, "> ");
      NoNewlineConcat("<", cls);
      assert NoNewline(tag);
      NoNewlineConcat(prefix, tag);
      var r := Rendered(val, keylen, alias);
      if |entries| == 0 {
        NoNewlineConcat(prefix + tag, "{  }");
        SplitJoin([r]);
      } else if |entries| == 1 {
        SingleEntryRendering(cls, entries[0].0, entries[0].1, keylen, alias);
        NoNewlineConcat(prefix + tag, "{ ");
        NoNewlineConcat(prefix + tag + "{ ", entries[0].0);
        NoNewlineConcat(prefix + tag + "{ " + entries[0].0, ": ");
        NoNewlineConcat(prefix + tag + "{ " + entries[0].0 + ": ", StrOf(entries[0].1));
        NoNewlineConcat(prefix + tag + "{ " + entries[0].0 + ": " + StrOf(entries[0].1), " }");
        SplitJoin([r]);
      } else {
        var cells := Cells(entries);
        var w := MaxLen(Keys(entries));
        var ls := BlockLines(cells, prefix, tag, keylen, w);
        CellsNewlineFree(entries);
        BlockLinesNewlineFree(cells, prefix, tag, keylen, w);
        SplitJoin(ls);
        BlockShape(cells, prefix, tag, keylen, w);
      }
  }

  lemma ItemLineNewlineFree(lead: string, c: Cell, w: nat)
    requires NoNewline(lead) && NoNewline(c.0) && NoNewline(c.1)
    ensures NoNewline(ItemLine(lead, c, w))
  {
    var k := LJust(c.0, w);
    LJustPads(c.0, w);
    assert forall i :: 0 <= i < |k| ==> k[i] == if i < |c.0| then c.0[i] else ' ';
    NoNewlineConcat(lead, k);
    NoNewlineConcat(lead + k, ": ");
    NoNewlineConcat(lead + k + ": ", c.1);
    NoNewlineConcat(lead + k + ": " + c.1, ",");
  }

  lemma ClosedItemLineNewlineFree(lead: string, c: Cell, w: nat, closer: string)
    requires NoNewline(lead) && NoNewline(c.0) && NoNewline(c.1)
    requires closer == " }" || closer == ""
    ensures NoNewline(ItemLine(lead, c, w) + closer)
  {
    ItemLineNewlineFree(lead, c, w);
    NoNewlineConcat(ItemLine(lead, c, w), closer);
  }

  lemma LeadNewlineFree(j: nat, prefix: string, tag: string, keylen: nat)
    requires NoNewline(prefix) && NoNewline(tag)
    ensures NoNewline(Lead(j, prefix, tag, keylen))
  {
    var indent := Spaces(BraceIndent(prefix, tag) + keylen + 4);
    NoNewlineConcat(prefix, tag);
    NoNewlineConcat(indent, "{ ");
    NoNewlineConcat(indent, "  ");
    NoNewlineConcat(prefix + tag, "{ ");
  }

  lemma ItemBlockLineNewlineFree(cells: seq<Cell>, prefix: string, tag: string, keylen: nat, width: nat, j: nat)
    requires j < |cells|
    requires NoNewline(prefix) && NoNewline(tag)
    requires NoNewline(cells[j].0) && NoNewline(cells[j].1)
    ensures |BlockLines(cells, prefix, tag, keylen, width)| == |cells| + (if Inline(prefix, tag) then 0 else 1)
    ensures NoNewline(BlockLines(cells, prefix, tag, keylen, width)[j + (if Inline(prefix, tag) then 0 else 1)])
  {
    var lead := Lead(j, prefix, tag, keylen);
    LeadNewlineFree(j, prefix, tag, keylen);
    BlockLineAt(cells, prefix, tag, keylen, width, j);
    if j == |cells| - 1 {
      ClosedItemLineNewlineFree(lead, cells[j], width, " }");
    } else {
      ClosedItemLineNewlineFree(lead, cells[j], width, "");
    }
  }

  lemma BlockLineNewlineFree(cells: seq<Cell>, prefix: string, tag: string, keylen: nat, width: nat, i: nat)
    requires |cells| >= 1
    requires NoNewline(prefix) && NoNewline(tag)
    requires i < |BlockLines(cells, prefix, tag, keylen, width)|
    requires var j := i - (if Inline(prefix, tag) then 0 else 1);
             0 <= j ==> NoNewline(cells[j].0) && NoNewline(cells[j].1)
    ensures NoNewline(BlockLines(cells, prefix, tag, keylen, width)[i])
  {
    var off := if Inline(prefix, tag) then 0 else 1;
    BlockLineAt(cells, prefix, tag, keylen, width, 0);
    if i < off {
      NoNewlineConcat(prefix, tag);
    } else {
      ItemBlockLineNewlineFree(cells, prefix, tag, keylen, width, i - off);
    }
  }

  /** A block whose head text, keys and shown values hold no newline is made
      of newline-free lines, so joining them makes one line per element. */
  lemma BlockLinesNewlineFree(cells: seq<Cell>, prefix: string, tag: string, keylen: nat, width: nat)
    requires |cells| >= 1
    requires NoNewline(prefix) && NoNewline(tag)
    requires forall i :: 0 <= i < |cells| ==> NoNewline(cells[i].0) && NoNewline(cells[i].1)
    ensures forall i :: 0 <= i < |BlockLines(cells, prefix, tag, keylen, width)| ==>
              NoNewline(BlockLines(cells, prefix, tag, keylen, width)[i])
  {
    forall i | 0 <= i < |BlockLines(cells, prefix, tag, keylen, width)|
      ensures NoNewline(BlockLines(cells, prefix, tag, keylen, width)[i])
    {
      BlockLineAt(cells, prefix, tag, keylen, width, 0);
      BlockLineNewlineFree(cells, prefix, tag, keylen, width, i);
    }
  }

  /** The first four expected strings of `test_format_dict` in tests/test_rich.py. */
  lemma ExampleString()
    ensures Rendered(Scalar(Str("a")), 0, "") == "a"
  {
  }

  lemma ExampleStringWithAlias()
    ensures Rendered(Scalar(Str("a")), 0, "b") == "[b] a"
  {
  }

  lemma ExampleEmptySubclass()
    ensures Rendered(Mapping("Diot", []), 0, "l") == "[l] <Diot> {  }"
  {
  }

  lemma ExampleOneItem()
    ensures Rendered(Mapping("dict", [("a", Int(1))]), 0, "l") == "[l] { a: 1 }"
  {
    SingleEntryRendering("dict", "a", Int(1), 0, "l");
  }

  /** A dict of two items renders as the block of its two cells, keys
      padded to the longer key. */
  lemma TwoItemRendering(cls: string, k0: string, v0: Datum, k1: string, v1: Datum, keylen: nat, alias: string)
    ensures Rendered(Mapping(cls, [(k0, v0), (k1, v1)]), keylen, alias)
         == Join(BlockLines([(k0, Shown(v0)), (k1, Shown(v1))], Prefix(alias), TypeTag(cls), keylen, Max(|k0|, |k1|)))
  {
    var entries := [(k0, v0), (k1, v1)];
    assert Keys(entries) == [k0, k1];
    assert [k0, k1][..1] == [k0];
    assert Cells(entries) == [(k0, Shown(v0)), (k1, Shown(v1))];
    assert MaxLen([k0]) == Max(0, |k0|) by { assert [k0][..0] == []; }
    assert MaxLen([k0, k1]) == Max(MaxLen([k0]), |k1|);
    assert Rendered(Mapping(cls, entries), keylen, alias)
        == Join(BlockLines(Cells(entries), Prefix(alias), TypeTag(cls), keylen, MaxLen(Keys(entries))));
  }

  /** The two lines of a two-item block whose first item shares the head's
      line. */
  lemma TwoInlineLines(c0: Cell, c1: Cell, prefix: string, tag: string, keylen: nat, width: nat)
    requires Inline(prefix, tag)
    ensures BlockLines([c0, c1], prefix, tag, keylen, width)
         == [ItemLine(prefix + tag + "{ ", c0, width),
             ItemLine(Spaces(|prefix + tag| + keylen + 4) + "  ", c1, width) + " }"]
  {
    var items := ItemLines([c0, c1], prefix, tag, keylen, width);
    assert items == [ItemLine(prefix + tag + "{ ", c0, width),
                     ItemLine(Spaces(|prefix + tag| + keylen + 4) + "  ", c1, width)];
  }

  /** The three lines of a two-item block whose head line stands alone. */
  lemma TwoDeferredLines(c0: Cell, c1: Cell, prefix: string, tag: string, keylen: nat, width: nat)
    requires !Inline(prefix, tag)
    ensures BlockLines([c0, c1], prefix, tag, keylen, width)
         == [prefix + tag,
             ItemLine(Spaces(|prefix| + keylen + 4) + "{ ", c0, width),
             ItemLine(Spaces(|prefix| + keylen + 4) + "  ", c1, width) + " }"]
  {
    var items := ItemLines([c0, c1], prefix, tag, keylen, width);
    assert items == [ItemLine(Spaces(|prefix| + keylen + 4) + "{ ", c0, width),
                     ItemLine(Spaces(|prefix| + keylen + 4) + "  ", c1, width)];
  }
}
