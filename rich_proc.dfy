/** `proc_prerun` of pyppl_rich.py: what the plugin logs about a process
    before it runs. The properties that were set (other than its id), the
    runner and the arguments are logged with their keys padded to one common
    width; the plugin configuration items that were set, and are known to the
    plugin configuration, are logged with their keys padded to the longest
    configuration key. Every value is laid out by `format_dict` with that
    width as `keylen`, so that the keys of a dict value line up under its
    first key. */
module RichProc {
  import opened PyStrings
  import opened RichFormat

  /** The parts of a process the plugin reads: how often each property was
      set (`_setcounter`, in its order), the properties' values, the runner's
      name and its profile (absent when the profile is a dict), the arguments
      and the plugin configuration items with how often each was set. */
  datatype Proc = Proc(
    setcounter: seq<(string, int)>,
    props: map<string, Value>,
    runner: string,
    profile: Option<string>,
    args: seq<(string, Value)>,
    config: seq<(string, Value)>,
    configCounter: map<string, int>)

  /** A property that is logged: set at least once, and not the id. */
  predicate Selected(entry: (string, int))
  {
    entry.1 > 0 && entry.0 != "id"
  }

  /** The keys of the selected properties, in `_setcounter` order. */
  function SetKeys(setcounter: seq<(string, int)>): seq<string>
  {
    if |setcounter| == 0 then []
    else
      var last := setcounter[|setcounter| - 1];
      SetKeys(setcounter[..|setcounter| - 1]) + (if Selected(last) then [last.0] else [])
  }

  /** `prop_keys`: the selected properties, then `runner`. */
  function PropKeys(setcounter: seq<(string, int)>): seq<string>
  {
    SetKeys(setcounter) + ["runner"]
  }

  /** Exactly the selected properties are listed. */
  lemma {:induction false} SetKeysExactly(setcounter: seq<(string, int)>, k: string)
    ensures k in SetKeys(setcounter)
        <==> exists i :: 0 <= i < |setcounter| && setcounter[i].0 == k && Selected(setcounter[i])
    decreases |setcounter|
  {
    if |setcounter| > 0 {
      var init := setcounter[..|setcounter| - 1];
      SetKeysExactly(init, k);
      if k in SetKeys(init) {
        var i :| 0 <= i < |init| && init[i].0 == k && Selected(init[i]);
        assert setcounter[i] == init[i];
      }
      if exists i :: 0 <= i < |setcounter| && setcounter[i].0 == k && Selected(setcounter[i]) {
        var i :| 0 <= i < |setcounter| && setcounter[i].0 == k && Selected(setcounter[i]);
        if i < |init| {
          assert init[i] == setcounter[i];
        }
      }
    }
  }

  /** The selection keeps `_setcounter`'s order: the keys selected from an
      earlier part come before those selected from a later part. */
  lemma {:induction false} SetKeysConcat(a: seq<(string, int)>, b: seq<(string, int)>)
    ensures SetKeys(a + b) == SetKeys(a) + SetKeys(b)
    decreases |b|
  {
    if |b| == 0 {
      assert a + b == a;
    } else {
      var init := b[..|b| - 1];
      SetKeysConcat(a, init);
      assert (a + b)[..|a + b| - 1] == a + init;
      assert (a + b)[|a + b| - 1] == b[|b| - 1];
    }
  }

  /** Every property that is logged has a value. */
  predicate HasProps(p: Proc)
  {
    forall k :: k in SetKeys(p.setcounter) && k != "runner" ==> k in p.props
  }

  /** `key_maxlen`: from 0, raised to the longest property key when there is
      one and to the longest argument key when there is one. */
  function KeyWidth(propKeys: seq<string>, argKeys: seq<string>): nat
  {
    var w0 := 0;
    var w1 := if |propKeys| > 0 then Max(w0, MaxLen(propKeys)) else w0;
    if |argKeys| > 0 then Max(w1, MaxLen(argKeys)) else w1
  }

  /** The longest of two lists of keys together is the longer of their
      longest. */
  lemma {:induction false} MaxLenConcat(a: seq<string>, b: seq<string>)
    ensures MaxLen(a + b) == Max(MaxLen(a), MaxLen(b))
    decreases |b|
  {
    if |b| == 0 {
      assert a + b == a;
    } else {
      var init := b[..|b| - 1];
      MaxLenConcat(a, init);
      assert (a + b)[..|a + b| - 1] == a + init;
    }
  }

  /** The common width is the length of the longest property or argument
      key: the guards of the source change nothing. */
  lemma KeyWidthIsLongest(propKeys: seq<string>, argKeys: seq<string>)
    ensures KeyWidth(propKeys, argKeys) == MaxLen(propKeys + argKeys)
  {
    MaxLenConcat(propKeys, argKeys);
  }

  /** Since `runner` is always among the property keys, the common width is
      at least 6, and every property and argument key fits it. */
  lemma KeysFitWidth(setcounter: seq<(string, int)>, argKeys: seq<string>)
    ensures KeyWidth(PropKeys(setcounter), argKeys) >= 6
    ensures forall k :: k in PropKeys(setcounter) ==> |k| <= KeyWidth(PropKeys(setcounter), argKeys)
    ensures forall k :: k in argKeys ==> |k| <= KeyWidth(PropKeys(setcounter), argKeys)
  {
    var pk := PropKeys(setcounter);
    MaxLenIsMax(pk);
    MaxLenIsMax(argKeys);
    assert pk[|pk| - 1] == "runner";
  }

  /** The line of one property, argument or configuration item: the key,
      the arrow and the value as `format_dict` lays it out with the common
      width as `keylen`. */
  function ValueLine(key: string, w: nat, v: Value): string
  {
    Arrowed(key, w, Rendered(v, w, ""))
  }

  /** The lines of the properties in `keys`, skipping `runner`. */
  function PropLines(keys: seq<string>, w: nat, props: map<string, Value>): seq<string>
    requires forall k :: k in keys && k != "runner" ==> k in props
  {
    if |keys| == 0 then []
    else
      var last := keys[|keys| - 1];
      PropLines(keys[..|keys| - 1], w, props) + (if last == "runner" then [] else [ValueLine(last, w, props[last])])
  }

  /** One line per key except `runner`, however often it occurs. */
  lemma {:induction false} PropLinesSkipRunner(keys: seq<string>, w: nat, props: map<string, Value>)
    requires forall k :: k in keys && k != "runner" ==> k in props
    ensures |PropLines(keys, w, props)| + multiset(keys)["runner"] == |keys|
    decreases |keys|
  {
    if |keys| > 0 {
      var init := keys[..|keys| - 1];
      PropLinesSkipRunner(init, w, props);
      assert keys == init + [keys[|keys| - 1]];
    }
  }

  /** The runner's line: its name and, unless the profile is a dict, the
      profile's name; a space separates the two even when the second is
      empty. */
  function RunnerLine(w: nat, runner: string, profile: Option<string>): string
  {
    Arrowed("runner", w, runner + " " + (if profile.Some? then "[profile: " + profile.value + "]" else ""))
  }

  /** The lines of the arguments, in their order. */
  function ArgLines(args: seq<(string, Value)>, w: nat): seq<string>
  {
    seq(|args|, i requires 0 <= i < |args| => ValueLine(args[i].0, w, args[i].1))
  }

  /** A configuration item that is logged: set at least once for this
      process and known to the plugin configuration. */
  predicate ConfShown(key: string, counter: map<string, int>, registered: set<string>)
  {
    (if key in counter then counter[key] else 0) != 0 && key in registered
  }

  /** The configuration items that are logged, in their order. */
  function ShownConfig(config: seq<(string, Value)>, counter: map<string, int>, registered: set<string>): seq<(string, Value)>
  {
    if |config| == 0 then []
    else
      var last := config[|config| - 1];
      ShownConfig(config[..|config| - 1], counter, registered)
      + (if ConfShown(last.0, counter, registered) then [last] else [])
  }

  /** Exactly the configuration items that were set and are known are
      logged. */
  lemma {:induction false} ShownConfigExactly(config: seq<(string, Value)>, counter: map<string, int>,
                                               registered: set<string>, e: (string, Value))
    ensures e in ShownConfig(config, counter, registered) <==> e in config && ConfShown(e.0, counter, registered)
    decreases |config|
  {
    if |config| > 0 {
      var init := config[..|config| - 1];
      ShownConfigExactly(init, counter, registered, e);
      assert config == init + [config[|config| - 1]];
    }
  }

  /** The configuration items are logged in their order: those of an earlier
      part come before those of a later part. */
  lemma {:induction false} ShownConfigConcat(a: seq<(string, Value)>, b: seq<(string, Value)>,
                                              counter: map<string, int>, registered: set<string>)
    ensures ShownConfig(a + b, counter, registered) == ShownConfig(a, counter, registered) + ShownConfig(b, counter, registered)
    decreases |b|
  {
    if |b| == 0 {
      assert a + b == a;
    } else {
      var init := b[..|b| - 1];
      ShownConfigConcat(a, init, counter, registered);
      assert (a + b)[..|a + b| - 1] == a + init;
      assert (a + b)[|a + b| - 1] == b[|b| - 1];
    }
  }

  /** The configuration lines: none without configuration items; otherwise
      the items that are logged, with their keys padded to the longest key
      of all configuration items, logged or not. */
  function ConfigLines(config: seq<(string, Value)>, counter: map<string, int>, registered: set<string>): seq<string>
  {
    if |config| == 0 then []
    else
      var w := MaxLen(Keys(config));
      var shown := ShownConfig(config, counter, registered);
      seq(|shown|, i requires 0 <= i < |shown| => ValueLine(shown[i].0, w, shown[i].1))
  }

  /** What the plugin logs before a process runs, by level: the properties
      and then the runner (`P_PROPS`), the arguments (`P_ARGS`) and the
      configuration items (`P_CONF`). */
  datatype ProcLog = ProcLog(props: seq<string>, args: seq<string>, conf: seq<string>)

  function ProcWidth(p: Proc): nat
  {
    KeyWidth(PropKeys(p.setcounter), Keys(p.args))
  }

  function ProcPrerun(p: Proc, registered: set<string>): ProcLog
    requires HasProps(p)
  {
    var w := ProcWidth(p);
    ProcLog(PropLines(PropKeys(p.setcounter), w, p.props) + [RunnerLine(w, p.runner, p.profile)],
            ArgLines(p.args, w),
            ConfigLines(p.config, p.configCounter, registered))
  }

  /** Every line of `ls` shows an arrow in column `w`. */
  predicate ArrowsAt(ls: seq<string>, w: nat)
  {
    forall i :: 0 <= i < |ls| ==> |ls[i]| >= w + 4 && ls[i][w..w + 4] == " => "
  }

  lemma {:induction false} PropLinesArrows(keys: seq<string>, w: nat, props: map<string, Value>)
    requires forall k :: k in keys && k != "runner" ==> k in props
    requires forall k :: k in keys ==> |k| <= w
    ensures ArrowsAt(PropLines(keys, w, props), w)
    decreases |keys|
  {
    if |keys| > 0 {
      var last := keys[|keys| - 1];
      var init := keys[..|keys| - 1];
      assert forall k :: k in init ==> k in keys;
      PropLinesArrows(init, w, props);
      if last != "runner" {
        ArrowAt(last, w, Rendered(props[last], w, ""));
      }
    }
  }

  lemma ArgLinesArrows(args: seq<(string, Value)>, w: nat)
    requires forall k :: k in Keys(args) ==> |k| <= w
    ensures ArrowsAt(ArgLines(args, w), w)
  {
    forall i | 0 <= i < |args|
      ensures |ArgLines(args, w)[i]| >= w + 4 && ArgLines(args, w)[i][w..w + 4] == " => "
    {
      assert Keys(args)[i] == args[i].0;
      ArrowAt(args[i].0, w, Rendered(args[i].1, w, ""));
    }
  }

  /** Before a process runs, the arrows of all property, runner and argument
      lines stand in one column, the common key width. */
  lemma ProcArrowsAligned(p: Proc, registered: set<string>)
    requires HasProps(p)
    ensures ArrowsAt(ProcPrerun(p, registered).props, ProcWidth(p))
    ensures ArrowsAt(ProcPrerun(p, registered).args, ProcWidth(p))
  {
    var w := ProcWidth(p);
    var keys := PropKeys(p.setcounter);
    KeysFitWidth(p.setcounter, Keys(p.args));
    assert forall k :: k in keys && k != "runner" ==> k in p.props;
    PropLinesArrows(keys, w, p.props);
    ArrowAt("runner", w, p.runner + " " + (if p.profile.Some? then "[profile: " + p.profile.value + "]" else ""));
    ArgLinesArrows(p.args, w);
  }

  /** The configuration lines have their own column: the longest key of all
      configuration items, since every item logged is one of them. */
  lemma ConfigArrowsAligned(config: seq<(string, Value)>, counter: map<string, int>, registered: set<string>)
    ensures ArrowsAt(ConfigLines(config, counter, registered), MaxLen(Keys(config)))
  {
    if |config| > 0 {
      var w := MaxLen(Keys(config));
      var shown := ShownConfig(config, counter, registered);
      forall i | 0 <= i < |shown|
        ensures |ConfigLines(config, counter, registered)[i]| >= w + 4
        ensures ConfigLines(config, counter, registered)[i][w..w + 4] == " => "
      {
        ShownConfigExactly(config, counter, registered, shown[i]);
        var j :| 0 <= j < |config| && config[j] == shown[i];
        KeyFits(config, j);
        ArrowAt(shown[i].0, w, Rendered(shown[i].1, w, ""));
      }
    }
  }

  // ---------------------------------------------------------------------------
  // Why `format_dict` takes the key width

  /** With no alias, the first item of a dict value follows the arrow on the
      key's line, and every other item is indented by the key width, the
      arrow and the type tag: both leads reach the same column. */
  lemma NestedLeadsLineUp(key: string, w: nat, tag: string, j: nat)
    requires |key| <= w && j > 0
    ensures |LJust(key, w) + " => " + Lead(0, "", tag, w)| == w + |tag| + 6
    ensures |Lead(j, "", tag, w)| == w + |tag| + 6
  {
    LJustLength(key, w);
    assert "" + tag == tag;
  }

  /** The lines a reader sees of a property whose value is a dict of two or
      more items: the block's first line after the key and the arrow, then
      the block's other lines. */
  lemma ValueLineLines(key: string, w: nat, cls: string, entries: seq<(string, Datum)>)
    requires |entries| >= 2 && NoNewline(key) && NewlineFree(Mapping(cls, entries), "")
    ensures var ls := BlockLines(Cells(entries), "", TypeTag(cls), w, MaxLen(Keys(entries)));
            Split(ValueLine(key, w, Mapping(cls, entries))) == [LJust(key, w) + " => " + ls[0]] + ls[1..]
  {
    var tag := TypeTag(cls);
    var cells := Cells(entries);
    var ls := BlockLines(cells, "", tag, w, MaxLen(Keys(entries)));
    NoNewlineConcat("<" + cls, "> ");
    NoNewlineConcat("<", cls);
    assert NoNewline(tag);
    CellsNewlineFree(entries);
    BlockLinesNewlineFree(cells, "", tag, w, MaxLen(Keys(entries)));
    SplitJoin(ls);
    var head := LJust(key, w) + " => ";
    PaddedKeyNewlineFree(key, w);
    NoNewlineConcat(LJust(key, w), " => ");
    assert Rendered(Mapping(cls, entries), w, "") == Join(ls);
    SplitGlue(head, Join(ls));
  }

  lemma PaddedKeyNewlineFree(key: string, w: nat)
    requires NoNewline(key)
    ensures NoNewline(LJust(key, w))
  {
    LJustPads(key, w);
    assert LJust(key, w) == LJust(key, w)[..|key|] + LJust(key, w)[|key|..];
    assert NoNewline(LJust(key, w)[|key|..]);
    NoNewlineConcat(key, LJust(key, w)[|key|..]);
  }

  /** Helper: after a lead `col` characters long, an item's line shows its
      key padded to `width` and then the colon. */
  lemma KeyAfterLead(lead: string, c: Cell, width: nat, closer: string)
    requires |c.0| <= width
    ensures var line := ItemLine(lead, c, width) + closer;
            && |line| >= |lead| + width + 2
            && line[|lead|..|lead| + width + 2] == LJust(c.0, width) + ": "
  {
    ItemLineAfterLead(lead, c, width, closer);
    LJustLength(c.0, width);
    var line := ItemLine(lead, c, width) + closer;
    var rest := LJust(c.0, width) + ": " + c.1 + "," + closer;
    assert line[|lead|..][..width + 2] == rest[..width + 2];
    assert rest == (LJust(c.0, width) + ": ") + (c.1 + "," + closer);
    PrefixOf(LJust(c.0, width) + ": ", c.1 + "," + closer);
  }

  /** Line `line` shows key `k`, padded to `width`, and the colon that
      follows it, starting in column `col`. */
  predicate KeyInColumn(line: string, col: nat, k: string, width: nat)
  {
    |line| >= col + width + 2 && line[col..col + width + 2] == LJust(k, width) + ": "
  }

  /** The point of `format_dict`'s `keylen`: when a property's value is a
      dict of two or more items, every item's key, padded to the dict's
      longest key and followed by the colon, stands in the same column: the
      first item's on the property's own line (the first line a reader sees,
      by `ValueLineLines`), every other item's on line `i` of the block.
      Stated over the block's cells, `Cells(entries)`, and any `width` the
      item's key fits; `CellKey` shows that a dict's cells hold its keys and
      that each fits the dict's longest key, the width `Rendered` pads to. */
  lemma NestedKeysLineUp(key: string, w: nat, tag: string, cells: seq<Cell>, width: nat, i: nat)
    requires |cells| >= 2 && |key| <= w && i < |cells| && |cells[i].0| <= width
    ensures var ls := BlockLines(cells, "", tag, w, width);
            && |ls| == |cells|
            && (i == 0 ==> KeyInColumn(LJust(key, w) + " => " + ls[0], w + |tag| + 6, cells[i].0, width))
            && (i > 0 ==> KeyInColumn(ls[i], w + |tag| + 6, cells[i].0, width))
  {
    if i == 0 {
      FirstKeyColumn(key, w, tag, cells, width, |cells|, cells[0].0);
    } else {
      LaterKeyColumn(w, tag, cells, width, |cells|, i, cells[i].0);
    }
  }

  /** The cells of a dict's block hold its keys as they are, in the dict's
      order, and each fits the dict's longest key, the width `Rendered` pads
      every key to. */
  lemma CellKey(entries: seq<(string, Datum)>, i: nat)
    requires i < |entries|
    ensures |Cells(entries)| == |entries| && Cells(entries)[i].0 == entries[i].0
    ensures |entries[i].0| <= MaxLen(Keys(entries))
  {
    KeyFits(entries, i);
  }

  /** The first item's key `k`, on the property's line. */
  lemma FirstKeyColumn(key: string, w: nat, tag: string, cells: seq<Cell>, width: nat, n: nat, k: string)
    requires |cells| == n >= 2 && |key| <= w && cells[0].0 == k && |k| <= width
    ensures var ls := BlockLines(cells, "", tag, w, width);
            |ls| == n && KeyInColumn(LJust(key, w) + " => " + ls[0], w + |tag| + 6, k, width)
  {
    var ls := BlockLines(cells, "", tag, w, width);
    var head := LJust(key, w) + " => ";
    var lead := Lead(0, "", tag, w);
    var closer := if 0 == |cells| - 1 then " }" else "";
    assert |ls| == n && ls[0] == ItemLine(lead, cells[0], width) + closer by {
      BlockLineAt(cells, "", tag, w, width, 0);
    }
    assert |head + lead| == w + |tag| + 6 by {
      NestedLeadsLineUp(key, w, tag, 1);
    }
    HeadedLine(head, lead, cells[0], width, closer, ls[0]);
    KeyAt(head + ls[0], head + lead, cells[0], width, closer, w + |tag| + 6, k);
  }

  /** Helper: what stands before an item's line becomes part of its lead. */
  lemma HeadedLine(head: string, lead: string, c: Cell, width: nat, closer: string, line: string)
    requires line == ItemLine(lead, c, width) + closer
    ensures head + line == ItemLine(head + lead, c, width) + closer
  {
  }

  /** The key `k` of every later item, on its own line. */
  lemma LaterKeyColumn(w: nat, tag: string, cells: seq<Cell>, width: nat, n: nat, j: nat, k: string)
    requires |cells| == n && 0 < j < n && cells[j].0 == k && |k| <= width
    ensures var ls := BlockLines(cells, "", tag, w, width);
            |ls| == n && KeyInColumn(ls[j], w + |tag| + 6, k, width)
  {
    var ls := BlockLines(cells, "", tag, w, width);
    var lead := Lead(j, "", tag, w);
    var closer := if j == |cells| - 1 then " }" else "";
    assert |ls| == n && ls[j] == ItemLine(lead, cells[j], width) + closer by {
      BlockLineAt(cells, "", tag, w, width, j);
    }
    assert |lead| == w + |tag| + 6 by {
      LaterLeadWidth(j, tag, w);
    }
    KeyAt(ls[j], lead, cells[j], width, closer, w + |tag| + 6, k);
  }

  /** Helper: a line made of a lead `col` characters long and an item shows
      the item's key, padded to `width`, and the colon in column `col`. */
  lemma KeyAt(line: string, lead: string, c: Cell, width: nat, closer: string, col: nat, k: string)
    requires line == ItemLine(lead, c, width) + closer
    requires |lead| == col && c.0 == k && |k| <= width
    ensures KeyInColumn(line, col, k, width)
  {
    KeyAfterLead(lead, c, width, closer);
  }

  lemma LaterLeadWidth(j: nat, tag: string, w: nat)
    requires j > 0
    ensures |Lead(j, "", tag, w)| == w + |tag| + 6
  {
    assert "" + tag == tag;
  }
}
