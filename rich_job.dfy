/** `job_build` of pyppl_rich.py: what the plugin logs about the first job of
    a process once the job is built. Every input and output key is padded to
    one common width and followed by ` => `; file paths are rewritten to
    where the job's working directory keeps them; a list of input values is
    shown in brackets, one item per line, with at most the first two and the
    last item written out and the others counted. */
module RichJob {
  import opened PyStrings
  import opened RichFormat

  // ---------------------------------------------------------------------------
  // Paths

  /** `'<workdir>/%s<sub>%s' % (index + 1, path.basename(p))`: where job
      `index` keeps the file `p`, under the directory part `sub`. */
  function WorkdirPath(index: int, sub: string, p: string): string
  {
    "<workdir>/" + IntToString(index + 1) + sub + Basename(p)
  }

  /** A path as an input file of job `index` sees it. */
  function InputPath(index: int, p: string): string { WorkdirPath(index, "/input/", p) }

  /** A path as an output file or directory of job `index` sees it. */
  function OutputPath(index: int, p: string): string { WorkdirPath(index, "/output/", p) }

  /** The job's standard output or standard error file. */
  function StreamPath(index: int, p: string): string { WorkdirPath(index, "/", p) }

  predicate EndsWithSlash(sub: string) { |sub| >= 1 && sub[|sub| - 1] == '/' }

  /** The rewritten path keeps the file's base name: it is the working
      directory's own part, then the base name of the original. */
  lemma WorkdirPathKeepsBasename(index: int, sub: string, p: string)
    requires EndsWithSlash(sub)
    ensures Basename(WorkdirPath(index, sub, p)) == Basename(p)
  {
    BasenameAfterDir("<workdir>/" + IntToString(index + 1), sub, Basename(p));
  }

  /** Helper: a slash-free name after a directory part ending in `/` is the
      base name. */
  lemma BasenameAfterDir(front: string, sub: string, name: string)
    requires EndsWithSlash(sub) && '/' !in name
    ensures Basename(front + sub + name) == name
  {
    var dir := front + sub[..|sub| - 1];
    assert sub == sub[..|sub| - 1] + "/";
    assert front + sub + name == dir + "/" + name;
    BasenameAfterSlash(dir, name);
  }

  /** Rewriting a path that was rewritten already changes nothing. */
  lemma WorkdirPathIdempotent(index: int, sub: string, p: string)
    requires EndsWithSlash(sub)
    ensures WorkdirPath(index, sub, WorkdirPath(index, sub, p)) == WorkdirPath(index, sub, p)
  {
    WorkdirPathKeepsBasename(index, sub, p);
  }

  /** Two paths of the same job are shown alike exactly when their base
      names agree: the directories they came from are not shown. */
  lemma WorkdirPathSameIffBasename(index: int, sub: string, p: string, q: string)
    ensures WorkdirPath(index, sub, p) == WorkdirPath(index, sub, q) <==> Basename(p) == Basename(q)
  {
    var dir := "<workdir>/" + IntToString(index + 1) + sub;
    if WorkdirPath(index, sub, p) == WorkdirPath(index, sub, q) {
      assert (dir + Basename(p))[|dir|..] == Basename(p);
      assert (dir + Basename(q))[|dir|..] == Basename(q);
    }
  }

  /** The three rewrites of the source keep the base name. */
  lemma JobPathsKeepBasename(index: int, p: string)
    ensures Basename(InputPath(index, p)) == Basename(p)
    ensures Basename(OutputPath(index, p)) == Basename(p)
    ensures Basename(StreamPath(index, p)) == Basename(p)
  {
    WorkdirPathKeepsBasename(index, "/input/", p);
    WorkdirPathKeepsBasename(index, "/output/", p);
    WorkdirPathKeepsBasename(index, "/", p);
  }

  // ---------------------------------------------------------------------------
  // Lists of input values

  /** Python's truth value of a list item. */
  predicate Truthy(d: Datum)
  {
    match d
    case Str(s) => s != ""
    case Int(i) => i != 0
    case Other(_, t) => t
  }

  /** The first line of a list: the key padded to `w`, the arrow and the
      opening bracket. */
  function ListHead(key: string, w: nat): string { LJust(key, w) + " => [ " }

  /** What stands before every further item: `' '.ljust(w)` and six spaces. */
  function ListPad(w: nat): string { LJust(" ", w) + "      " }

  /** The text of the elision line: how many items between the second and
      the last are not shown. */
  function Elision(n: nat): string { "... (" + IntToString(n) + ")," }

  /** What stands between the brackets of an empty or one-item list: the item,
      or nothing. */
  function SingleText(data: seq<Datum>): string
    requires |data| <= 1
  {
    if |data| == 1 then StrOf(data[0]) else ""
  }

  /** The lines that show the list `data` under `key`: an empty or one-item
      list on one line; otherwise the first item on the key's line and the
      others on the lines that follow. */
  function ListLines(key: string, w: nat, data: seq<Datum>): seq<string>
  {
    if |data| <= 1 then [ListHead(key, w) + (SingleText(data) + " ]")]
    else [ListHead(key, w) + (StrOf(data[0]) + ",")] + LaterLines(w, data)
  }

  /** The lines after the first of a list of two or more items: the second
      item, a count of the hidden items when there are more than three, and
      the last item closing the bracket. */
  function LaterLines(w: nat, data: seq<Datum>): seq<string>
    requires |data| >= 2
  {
    var n := |data|;
    var pad := ListPad(w);
    if n == 2 then [pad + (StrOf(data[1]) + " ]")]
    else
      [pad + (StrOf(data[1]) + ",")]
      + (if n > 3 then [pad + Elision(n - 3)] else [])
      + [pad + (StrOf(data[n - 1]) + " ]")]
  }

  /** `data and data[0] or ''`, as the source writes it: an item whose truth
      value is false is replaced by the empty string. */
  function SingleTextAsWritten(data: seq<Datum>): string
    requires |data| <= 1
  {
    if |data| == 1 && Truthy(data[0]) then StrOf(data[0]) else ""
  }

  /** The lines of a list as the source writes them. */
  function ListLinesAsWritten(key: string, w: nat, data: seq<Datum>): seq<string>
  {
    if |data| <= 1 then [ListHead(key, w) + (SingleTextAsWritten(data) + " ]")]
    else ListLines(key, w, data)
  }

  /** The two agree except on a list of one falsy item whose text is not
      empty, such as `[0]` or `[None]`, which the source shows as `[  ]`. */
  lemma AsWrittenDiffersOnlyOnFalsySingle(key: string, w: nat, data: seq<Datum>)
    ensures ListLinesAsWritten(key, w, data) != ListLines(key, w, data)
        <==> |data| == 1 && !Truthy(data[0]) && StrOf(data[0]) != ""
  {
    if |data| == 1 && !Truthy(data[0]) && StrOf(data[0]) != "" {
      assert |ListLinesAsWritten(key, w, data)[0]| < |ListLines(key, w, data)[0]|;
    }
  }

  /** The input `[0]` of a key `x`: the source logs `x => [  ]`, where the
      item `0` is evidently meant. */
  lemma FalsySingleItemDropped()
    ensures ListLinesAsWritten("x", 1, [Int(0)]) == ["x => [  ]"]
    ensures ListLines("x", 1, [Int(0)]) == ["x => [ 0 ]"]
  {
    assert ListHead("x", 1) == "x => [ ";
    assert SingleTextAsWritten([Int(0)]) == "";
    assert SingleText([Int(0)]) == "0";
    assert "x => [ " + ("" + " ]") == "x => [  ]";
    assert "x => [ " + ("0" + " ]") == "x => [ 0 ]";
  }

  /** How many lines a list takes: one for up to one item, one per item for
      two or three items, and four beyond that. */
  lemma ListLineCount(key: string, w: nat, data: seq<Datum>)
    ensures |ListLines(key, w, data)| == (if |data| <= 1 then 1 else if |data| <= 3 then |data| else 4)
  {
  }

  function Last(ls: seq<string>): string
    requires |ls| >= 1
  {
    ls[|ls| - 1]
  }

  /** The first, second and last items are written out, and the line before
      the last counts exactly the items that are not. */
  lemma ListShowsEnds(key: string, w: nat, data: seq<Datum>)
    requires |data| >= 2
    ensures ListLines(key, w, data)[0] == ListHead(key, w) + (StrOf(data[0]) + ",")
    ensures ListLines(key, w, data)[1] == ListPad(w) + (StrOf(data[1]) + (if |data| == 2 then " ]" else ","))
    ensures Last(ListLines(key, w, data)) == ListPad(w) + (StrOf(data[|data| - 1]) + " ]")
    ensures |data| > 3 ==> ListLines(key, w, data)[2] == ListPad(w) + Elision(|data| - 3)
  {
  }

  /** The items between the second and the last are never shown: two lists
      of the same length that agree on those three items are shown alike. */
  lemma ListHidesMiddle(key: string, w: nat, a: seq<Datum>, b: seq<Datum>)
    requires |a| == |b| >= 2
    requires a[0] == b[0] && a[1] == b[1] && a[|a| - 1] == b[|b| - 1]
    ensures ListLines(key, w, a) == ListLines(key, w, b)
  {
  }

  /** The count on the elision line reads back as the number of hidden
      items: with the three items shown it makes up the whole list. */
  lemma ElisionCountsHidden(n: nat)
    requires n > 3
    ensures Elision(n - 3) == "... (" + NatToString(n - 3) + "),"
    ensures ParseNat(NatToString(n - 3)) + 3 == n
  {
    ParseNatToString(n - 3);
  }

  /** `' '.ljust(w)` and six spaces are `w + 6` blanks for a non-zero width. */
  lemma ListPadIsBlank(w: nat)
    requires w >= 1
    ensures ListPad(w) == Spaces(w + 6)
  {
    assert LJust(" ", w) == " " + Spaces(w - 1);
  }

  /** Every line after the first starts with the pad. */
  lemma LaterLinePadded(w: nat, data: seq<Datum>, j: nat)
    requires |data| >= 2 && j < |LaterLines(w, data)|
    ensures |LaterLines(w, data)[j]| >= |ListPad(w)|
    ensures LaterLines(w, data)[j][..|ListPad(w)|] == ListPad(w)
  {
    var n := |data|;
    var later := LaterLines(w, data);
    if j == |later| - 1 {
      assert later[j] == ListPad(w) + (StrOf(data[n - 1]) + " ]");
      PrefixOf(ListPad(w), StrOf(data[n - 1]) + " ]");
    } else if j == 0 {
      assert later[j] == ListPad(w) + (StrOf(data[1]) + ",");
      PrefixOf(ListPad(w), StrOf(data[1]) + ",");
    } else {
      assert later[j] == ListPad(w) + Elision(n - 3);
      PrefixOf(ListPad(w), Elision(n - 3));
    }
  }

  /** Every item of a list starts in the same column, `w + 6`: on the first
      line after the key, the arrow and the bracket, on the others after
      blanks. (A width of 0, which only empty keys give, puts the later items
      one column further right.) */
  lemma ListItemsAligned(key: string, w: nat, data: seq<Datum>, i: nat)
    requires |key| <= w && w >= 1
    requires i < |ListLines(key, w, data)|
    ensures |ListLines(key, w, data)[i]| >= w + 6
    ensures i == 0 ==> ListLines(key, w, data)[i][..w + 6] == ListHead(key, w)
    ensures i > 0 ==> ListLines(key, w, data)[i][..w + 6] == Spaces(w + 6)
  {
    LJustLength(key, w);
    assert |ListHead(key, w)| == w + 6;
    if i == 0 {
      if |data| <= 1 {
        PrefixOf(ListHead(key, w), SingleText(data) + " ]");
      } else {
        PrefixOf(ListHead(key, w), StrOf(data[0]) + ",");
      }
    } else {
      ListPadIsBlank(w);
      assert ListLines(key, w, data)[i] == LaterLines(w, data)[i - 1];
      LaterLinePadded(w, data, i - 1);
    }
  }

  // ---------------------------------------------------------------------------
  // Inputs and outputs of the job

  /** An input of the job, by its declared type: a file, a list of files, or
      a value of any other type, which is either a list or not. */
  datatype InputData = FileIn(path: string) | FilesIn(paths: seq<string>) | ItemIn(d: Datum) | ListIn(items: seq<Datum>)

  /** An output of the job, by its declared type: a file or a directory, the
      job's standard output or error stream, or any other value. */
  datatype OutputData = PathOut(path: string) | StreamOut(path: string) | ValueOut(d: Datum)

  /** The input as the log shows it: file paths rewritten into the job's
      working directory, every other value untouched. */
  function ShownInput(index: int, v: InputData): (r: InputData)
    ensures r.ItemIn? || r.ListIn?
  {
    match v
    case FileIn(p) => ItemIn(Str(InputPath(index, p)))
    case FilesIn(ps) => ListIn(seq(|ps|, i requires 0 <= i < |ps| => Str(InputPath(index, ps[i]))))
    case _ => v
  }

  /** The lines that show one input under `key`. */
  function InputLines(index: int, w: nat, key: string, v: InputData): seq<string>
  {
    match ShownInput(index, v)
    case ItemIn(d) => [Arrowed(key, w, StrOf(d))]
    case ListIn(items) => ListLines(key, w, items)
    case _ => []
  }

  /** The text that shows an output. */
  function OutputText(index: int, v: OutputData): string
  {
    match v
    case PathOut(p) => OutputPath(index, p)
    case StreamOut(p) => StreamPath(index, p)
    case ValueOut(d) => StrOf(d)
  }

  function OutputLine(index: int, w: nat, key: string, v: OutputData): string
  {
    Arrowed(key, w, OutputText(index, v))
  }

  /** The input lines of all inputs, in the job's order. */
  function AllInputLines(index: int, w: nat, inputs: seq<(string, InputData)>): seq<string>
  {
    if |inputs| == 0 then []
    else AllInputLines(index, w, inputs[..|inputs| - 1])
         + InputLines(index, w, inputs[|inputs| - 1].0, inputs[|inputs| - 1].1)
  }

  /** The output lines of all outputs, in the job's order. */
  function AllOutputLines(index: int, w: nat, outputs: seq<(string, OutputData)>): seq<string>
  {
    seq(|outputs|, i requires 0 <= i < |outputs| => OutputLine(index, w, outputs[i].0, outputs[i].1))
  }

  /** What `job_build` logs: nothing for any job but the first; for the first,
      its input lines (level `INPUT`) and then its output lines (level
      `OUTPUT`); and `max()` of an empty sequence raises `ValueError` when the
      job has no input or no output. */
  datatype JobLog = Logged(input: seq<string>, output: seq<string>) | EmptyMaxError

  /** The common key width: the longest input or output key. */
  function JobKeyWidth(inputs: seq<(string, InputData)>, outputs: seq<(string, OutputData)>): nat
  {
    Max(MaxLen(Keys(inputs)), MaxLen(Keys(outputs)))
  }

  function JobBuild(index: int, inputs: seq<(string, InputData)>, outputs: seq<(string, OutputData)>): JobLog
  {
    if index != 0 then Logged([], [])
    else if |inputs| == 0 || |outputs| == 0 then EmptyMaxError
    else
      var w := JobKeyWidth(inputs, outputs);
      Logged(AllInputLines(index, w, inputs), AllOutputLines(index, w, outputs))
  }

  /** Only the first job logs, and it fails exactly when it has no input or
      no output to take the longest key of. */
  lemma JobBuildOutcome(index: int, inputs: seq<(string, InputData)>, outputs: seq<(string, OutputData)>)
    ensures index != 0 ==> JobBuild(index, inputs, outputs) == Logged([], [])
    ensures JobBuild(index, inputs, outputs).EmptyMaxError? <==> index == 0 && (|inputs| == 0 || |outputs| == 0)
    ensures index == 0 && |inputs| > 0 && |outputs| > 0 ==>
              var w := JobKeyWidth(inputs, outputs);
              JobBuild(index, inputs, outputs) == Logged(AllInputLines(index, w, inputs), AllOutputLines(index, w, outputs))
  {
  }

  /** Every key of the job fits the common width. */
  lemma JobKeysFit(inputs: seq<(string, InputData)>, outputs: seq<(string, OutputData)>)
    ensures forall i :: 0 <= i < |inputs| ==> |inputs[i].0| <= JobKeyWidth(inputs, outputs)
    ensures forall i :: 0 <= i < |outputs| ==> |outputs[i].0| <= JobKeyWidth(inputs, outputs)
  {
    forall i | 0 <= i < |inputs| ensures |inputs[i].0| <= JobKeyWidth(inputs, outputs) {
      InputKeyFits(inputs, outputs, i);
    }
    forall i | 0 <= i < |outputs| ensures |outputs[i].0| <= JobKeyWidth(inputs, outputs) {
      OutputKeyFits(inputs, outputs, i);
    }
  }

  /** Helper: input `i`'s key fits the common width. */
  lemma InputKeyFits(inputs: seq<(string, InputData)>, outputs: seq<(string, OutputData)>, i: nat)
    requires i < |inputs|
    ensures |inputs[i].0| <= JobKeyWidth(inputs, outputs)
  {
    KeyFits(inputs, i);
  }

  /** Helper: output `i`'s key fits the common width. */
  lemma OutputKeyFits(inputs: seq<(string, InputData)>, outputs: seq<(string, OutputData)>, i: nat)
    requires i < |outputs|
    ensures |outputs[i].0| <= JobKeyWidth(inputs, outputs)
  {
    KeyFits(outputs, i);
  }

  /** The number of lines that show one input. */
  function InputLineCount(v: InputData): nat
  {
    match v
    case FileIn(_) => 1
    case ItemIn(_) => 1
    case FilesIn(ps) => ListCount(|ps|)
    case ListIn(items) => ListCount(|items|)
  }

  function ListCount(n: nat): nat { if n <= 1 then 1 else if n <= 3 then n else 4 }

  function TotalLineCount(inputs: seq<(string, InputData)>): nat
  {
    if |inputs| == 0 then 0
    else TotalLineCount(inputs[..|inputs| - 1]) + InputLineCount(inputs[|inputs| - 1].1)
  }

  /** Each input takes the lines its kind and length call for; the count
      does not depend on the values, the keys or the job. */
  lemma InputLinesCount(index: int, w: nat, key: string, v: InputData)
    ensures |InputLines(index, w, key, v)| == InputLineCount(v)
  {
    match v
    case FilesIn(ps) => ListLineCount(key, w, ShownInput(index, v).items);
    case ListIn(items) => ListLineCount(key, w, items);
    case _ =>
  }

  /** The input lines of the job are as many as its inputs call for. */
  lemma {:induction false} AllInputLinesCount(index: int, w: nat, inputs: seq<(string, InputData)>)
    ensures |AllInputLines(index, w, inputs)| == TotalLineCount(inputs)
    decreases |inputs|
  {
    if |inputs| > 0 {
      var last := inputs[|inputs| - 1];
      AllInputLinesCount(index, w, inputs[..|inputs| - 1]);
      InputLinesCount(index, w, last.0, last.1);
    }
  }

  /** The first line of a list shows the key's arrow in column `w`. */
  lemma ListArrowAligned(key: string, w: nat, data: seq<Datum>)
    requires |key| <= w
    ensures |ListLines(key, w, data)[0]| >= w + 4
    ensures ListLines(key, w, data)[0][w..w + 4] == " => "
  {
    HeadArrow(key, w);
    if |data| <= 1 {
      SliceOfHead(ListHead(key, w), SingleText(data) + " ]", w, w + 4);
    } else {
      SliceOfHead(ListHead(key, w), StrOf(data[0]) + ",", w, w + 4);
    }
  }

  lemma HeadArrow(key: string, w: nat)
    requires |key| <= w
    ensures |ListHead(key, w)| == w + 6 && ListHead(key, w)[w..w + 4] == " => "
  {
    LJustLength(key, w);
  }

  /** The first line of every input shows the key's arrow in column `w`. */
  lemma InputArrowAligned(index: int, w: nat, key: string, v: InputData)
    requires |key| <= w
    ensures |InputLines(index, w, key, v)| >= 1 && |InputLines(index, w, key, v)[0]| >= w + 4
    ensures InputLines(index, w, key, v)[0][w..w + 4] == " => "
  {
    var shown := ShownInput(index, v);
    if shown.ItemIn? {
      ArrowAt(key, w, StrOf(shown.d));
    } else {
      ListArrowAligned(key, w, shown.items);
    }
  }

  /** For the first job, the arrow of every output line sits in the same
      column: the width of the longest input or output key. */
  lemma OutputArrowsAligned(inputs: seq<(string, InputData)>, outputs: seq<(string, OutputData)>, i: nat)
    requires i < |outputs|
    ensures var w := JobKeyWidth(inputs, outputs);
            var out := AllOutputLines(0, w, outputs);
            |out| == |outputs| && |out[i]| >= w + 4 && out[i][w..w + 4] == " => "
  {
    var w := JobKeyWidth(inputs, outputs);
    OutputKeyFits(inputs, outputs, i);
    ArrowAt(outputs[i].0, w, OutputText(0, outputs[i].1));
  }

  /** The lines of the first `k` inputs are where the input lines begin:
      the inputs are logged in the job's order. */
  lemma {:induction false} InputLinesPrefix(index: int, w: nat, inputs: seq<(string, InputData)>, k: nat)
    requires k <= |inputs|
    ensures AllInputLines(index, w, inputs[..k]) <= AllInputLines(index, w, inputs)
    decreases |inputs|
  {
    if k < |inputs| {
      var init := inputs[..|inputs| - 1];
      InputLinesPrefix(index, w, init, k);
      assert init[..k] == inputs[..k];
    } else {
      assert inputs[..k] == inputs;
    }
  }

  /** The block of input `i` follows the blocks of the inputs before it. */
  lemma InputBlockAt(index: int, w: nat, inputs: seq<(string, InputData)>, i: nat)
    requires i < |inputs|
    ensures AllInputLines(index, w, inputs[..i]) + InputLines(index, w, inputs[i].0, inputs[i].1)
            <= AllInputLines(index, w, inputs)
  {
    InputLinesPrefix(index, w, inputs, i + 1);
    assert inputs[..i + 1][..i] == inputs[..i];
  }

  /** For the first job, the block of input `i` starts right after the lines
      of the inputs before it, and its first line shows the arrow in the same
      column as every output line: the width of the longest key. */
  lemma InputArrowsAligned(inputs: seq<(string, InputData)>, outputs: seq<(string, OutputData)>, i: nat)
    requires i < |inputs|
    ensures var w := JobKeyWidth(inputs, outputs);
            var all := AllInputLines(0, w, inputs);
            var at := |AllInputLines(0, w, inputs[..i])|;
            at < |all| && |all[at]| >= w + 4 && all[at][w..w + 4] == " => "
  {
    var w := JobKeyWidth(inputs, outputs);
    var (key, v) := inputs[i];
    var before, mine := AllInputLines(0, w, inputs[..i]), InputLines(0, w, key, v);
    assert |key| <= w by {
      InputKeyFits(inputs, outputs, i);
    }
    assert |mine| >= 1 && |mine[0]| >= w + 4 && mine[0][w..w + 4] == " => " by {
      InputArrowAligned(0, w, key, v);
    }
    InputBlockAt(0, w, inputs, i);
    FirstAfter(before, mine, AllInputLines(0, w, inputs));
  }

  /** Helper: in a sequence that starts with `a + b`, the first element of
      `b` stands at index `|a|`. */
  lemma FirstAfter<T>(a: seq<T>, b: seq<T>, c: seq<T>)
    requires a + b <= c && |b| >= 1
    ensures |a| < |c| && c[|a|] == b[0]
  {
    assert (a + b)[|a|] == b[0];
  }
}
