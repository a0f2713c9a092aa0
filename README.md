# pyppl_rich, the layout of its log lines

pyppl_rich is a plugin for the PyPPL pipeline framework. It writes richer
information about processes and jobs to the log. This project models the text
the plugin produces and proves properties of that text:

- `format_dict(val, keylen, alias)` (`RichFormat`) lays out one value.
  - A value that is not a dict becomes a single piece of text.
  - A dict is written in braces, after an optional `[alias] ` and a
    `<Class> ` tag for dict subclasses.
  - Dicts of two or more items take one line per item. When both an alias
    and a type tag are given, they stand alone on a head line of their own
    before the items. The keys are padded to the dict's longest key, and the
    continuation lines are indented so that the keys line up.
  - The multi-item branch is modelled as the method `BuildBlock`. It has the
    source's loop and the `ret[-1] += ' }'` update, and is proved equal to the
    specification function `BlockLines`.
- `proc_prerun` (`RichProc`) logs a process before it runs.
  - It picks the properties that were set, then the runner, the arguments and
    the plugin configuration items that were set.
  - The keys are padded to a common width, and each value is laid out by
    `format_dict` with that width.
- `job_build` (`RichJob`) logs the inputs and outputs of the first job.
  - File paths are rewritten into the job's working directory.
  - Lists are shown in brackets: the first two items and the last one are
    written out, and the items in between are counted.
- `PyStrings` and `PyRepr` hold the Python built-ins this code relies on:
  - `str.ljust`, `'\n'.join` and `str.split('\n')`;
  - `str(int)`, the regular-expression class `\s`;
  - `max(len(k) for k in keys)`, `os.path.basename`;
  - `repr` of a `str`, with its inverse.

The logger calls are modelled as the lines they receive: a `seq<string>` per
log level, in the order the calls are made.

## Model

| member | source | states |
|---|---|---|
| PyStrings.LJustPads | pyppl_rich.py:102-104 | `ljust` keeps the key in front, pads it with blanks only, and makes it exactly `width` long unless it is longer already |
| PyStrings.ArrowAt | pyppl_rich.py:102-104 | a key padded to a width it fits puts ` => ` in column `width`, whatever follows |
| PyStrings.SplitJoin | pyppl_rich.py:72 | joining newline-free lines with `\n` and splitting the result gives the same lines back |
| PyStrings.JoinSplit | pyppl_rich.py:72 | the lines of any text, joined with `\n`, give the text back |
| PyStrings.NatToString | pyppl_rich.py:166 | `str(n)` of a non-negative number is a non-empty string of decimal digits with no leading zero |
| PyStrings.ParseNatToString | pyppl_rich.py:198-200 | reading `str(n)` back as a number gives `n` |
| PyStrings.MaxLenIsMax | pyppl_rich.py:49 | `max(len(k) for k in keys)` is the maximum: no key is longer, and a non-empty collection holds a key of that length |
| PyStrings.Basename | pyppl_rich.py:167 | `os.path.basename(p)` is a suffix of `p` with no `/`, preceded by `/` when it is not all of `p` |
| PyStrings.BasenameAfterSlash | pyppl_rich.py:166-167 | a slash-free name after a directory and `/` is that path's base name |
| PyRepr.ReprRoundTrip | pyppl_rich.py:55-56 | `repr` of a string loses nothing: reading the literal back gives the string |
| PyRepr.ReprKeepsOnlyBlanks | pyppl_rich.py:67-69 | the only whitespace left in `repr(s)` is the plain blank, so it holds no newline |
| RichFormat.FormatDict | pyppl_rich.py:21-72 | the method that follows the source branch by branch returns exactly `Rendered(val, keylen, alias)` |
| RichFormat.BuildBlock | pyppl_rich.py:49-71 | the source's loop over the items, including the skipped first key and the ` }` added to the last line, produces exactly `BlockLines` of the dict's cells with keys padded to the longest key |
| RichFormat.OpenLinesAreItemLines | pyppl_rich.py:50-70 | after `k` items, the lines written are the head line, when it stands alone, then the first `k` item lines in dict order |
| RichFormat.FirstKeyOnlyFirst | pyppl_rich.py:60-63 | with distinct keys, comparing an item's key with `key0` is true exactly for the first item |
| RichFormat.ClosedOpenLines | pyppl_rich.py:71 | adding ` }` to the last line written after every item gives the block |
| RichFormat.ScalarRendering | pyppl_rich.py:35-38 | a non-dict value is the alias prefix and `str` of the value, except that the empty string is written `''`; the prefix is empty exactly when there is no alias |
| RichFormat.EmptyMappingRendering | pyppl_rich.py:40-44 | an empty dict is the prefix, the type tag and `{  }`; the tag is empty exactly for a plain `dict` |
| RichFormat.SingleEntryRendering | pyppl_rich.py:45-47 | a one-item dict is the single line `prefix + tag + "{ k: v }"` with `v` in `str` form, never quoted, whatever `keylen` is |
| RichFormat.BlockLineAt | pyppl_rich.py:50-71 | line `j + off` of a block is item `j`'s line, and only the last one is closed with ` }`; the head line stands alone (`off` = 1) exactly when there is both an alias and a type tag |
| RichFormat.BlockShape | pyppl_rich.py:50-71 | the block has one line per item, plus the head line when it stands alone; every item appears once, in dict order, ending with `,` |
| RichFormat.ItemLineAfterLead | pyppl_rich.py:64-70 | after its lead, an item's line is the padded key, `: `, the value as shown and a comma |
| RichFormat.KeysPadded | pyppl_rich.py:49-66 | every key of a block is padded to exactly the dict's longest key length, whatever `keylen` is, and some key has that length |
| RichFormat.ContinuationIndent | pyppl_rich.py:52-65 | every block line after the first starts with exactly `braceindt + keylen + 4` spaces and then `{ ` or two spaces |
| RichFormat.ItemBlockLineIndent | pyppl_rich.py:52-65 | the opener after the indentation is `{ ` for the deferred first item and two spaces for any other item |
| RichFormat.ShownKeepsLineBreaksOut | pyppl_rich.py:55-56 | a string value inside a block never breaks its lines: when it is quoted, its `repr` holds no newline |
| RichFormat.BlockLinesNewlineFree | pyppl_rich.py:50-72 | a block built from newline-free head text, keys and shown values consists of newline-free lines |
| RichFormat.LineCount | pyppl_rich.py:43-72 | when the alias, the class name, the keys and the text of every non-string value (of a non-dict value, its text) hold no newline, a reader sees one line for a non-dict value, an empty dict or a one-item dict; for `n >= 2` items, `n` lines, or `n + 1` when both an alias and a type tag are given |
| RichFormat.ExampleString | tests/test_rich.py:14 | `format_dict('a', 0, None)` is `a` |
| RichFormat.ExampleStringWithAlias | tests/test_rich.py:15 | `format_dict('a', 0, 'b')` is `[b] a` |
| RichFormat.ExampleEmptySubclass | tests/test_rich.py:16 | `format_dict(Diot(), 0, 'l')` is `[l] <Diot> {  }` |
| RichFormat.ExampleOneItem | tests/test_rich.py:17 | `format_dict({"a": 1}, 0, 'l')` is `[l] { a: 1 }` |
| RichFormat.TwoItemRendering | pyppl_rich.py:49-72 | a two-item dict is its two cells' block, joined by `\n`, with keys padded to the longer key |
| RichFormat.TwoInlineLines | pyppl_rich.py:52-71 | two items without a standalone head give two lines: the first item after the head text, the second indented by `len(prefix + tag) + keylen + 4` spaces and two more, closed with ` }` |
| RichFormat.TwoDeferredLines | pyppl_rich.py:57-71 | two items with both an alias and a type tag give three lines: the head, `{ ` and the first item indented by `len(prefix) + keylen + 4`, then the second item closed with ` }` |
| RichJob.WorkdirPathKeepsBasename | pyppl_rich.py:166-167 | the rewritten path has the original file's base name |
| RichJob.WorkdirPathIdempotent | pyppl_rich.py:166-167 | rewriting a rewritten path changes nothing |
| RichJob.WorkdirPathSameIffBasename | pyppl_rich.py:209-213 | two paths of a job are shown alike if and only if their base names agree |
| RichJob.JobPathsKeepBasename | pyppl_rich.py:166-213 | the input, output and stream rewrites all keep the base name |
| RichJob.AsWrittenDiffersOnlyOnFalsySingle | pyppl_rich.py:179-182 | the list lines as written and as intended differ if and only if the list is a single falsy item whose text is not empty |
| RichJob.FalsySingleItemDropped | pyppl_rich.py:179-182 | for key `x` and the list `[0]`, the code as written logs `x => [  ]`, while the intended output is `x => [ 0 ]` |
| RichJob.ListLineCount | pyppl_rich.py:178-204 | a list takes 1 line for at most one item, one line per item for two or three items, and 4 lines beyond that |
| RichJob.ListShowsEnds | pyppl_rich.py:183-204 | the first line shows item 0 after the key and `[`, the second shows item 1, the last shows the last item and `]`, and for more than three items the third line is `... (n-3),` |
| RichJob.ListHidesMiddle | pyppl_rich.py:190-204 | two lists of one length that agree on the first, second and last items are shown alike |
| RichJob.ElisionCountsHidden | pyppl_rich.py:197-201 | the elision line's number, read back, plus the three items shown, gives the list's length |
| RichJob.ListPadIsBlank | pyppl_rich.py:187 | `' '.ljust(w)` and six spaces are `w + 6` blanks for a non-zero width |
| RichJob.LaterLinePadded | pyppl_rich.py:187-204 | every list line after the first starts with that pad |
| RichJob.ListItemsAligned | pyppl_rich.py:180-204 | every item of a list starts in column `w + 6`: on the first line after the key, ` => ` and `[ `, and on the others after blanks |
| RichJob.ListArrowAligned | pyppl_rich.py:180 | the first line of a list shows the key's arrow in column `w` |
| RichJob.ShownInput | pyppl_rich.py:165-173 | after the path rewrite, every input is either a single value or a list |
| RichJob.InputArrowAligned | pyppl_rich.py:173-182 | every input takes at least one line, and its first line has ` => ` in column `w` |
| RichJob.JobBuildOutcome | pyppl_rich.py:159-162 | only job 0 logs anything; it fails (with `max()` of an empty sequence) exactly when it has no input or no output; otherwise its lines are the input lines and then the output lines, with the common width |
| RichJob.JobKeysFit | pyppl_rich.py:159-162 | every input and output key fits the common width |
| RichJob.InputLinesCount | pyppl_rich.py:173-204 | the number of lines of an input depends only on its kind and on how many items it has |
| RichJob.AllInputLinesCount | pyppl_rich.py:163-204 | the job's input lines are as many as its inputs call for |
| RichJob.InputLinesPrefix | pyppl_rich.py:163 | the lines of the first `k` inputs are a prefix of all input lines, so inputs are logged in order |
| RichJob.InputBlockAt | pyppl_rich.py:163-164 | the lines of input `i` follow the lines of the inputs before it |
| RichJob.InputArrowsAligned | pyppl_rich.py:161-182 | input `i`'s block starts right after the lines of the inputs before it, and shows its arrow in the common column |
| RichJob.OutputArrowsAligned | pyppl_rich.py:206-216 | there is one output line per output, each with its arrow in the common column |
| RichProc.SetKeysExactly | pyppl_rich.py:88-91 | a key is listed if and only if its set counter is positive and it is not `id` |
| RichProc.SetKeysConcat | pyppl_rich.py:88-91 | the selection keeps the counter's order: the keys selected from an earlier part come before those selected from a later part |
| RichProc.KeyWidthIsLongest | pyppl_rich.py:94-98 | the common width, with its guards and its start from 0, is the length of the longest property or argument key |
| RichProc.KeysFitWidth | pyppl_rich.py:92-98 | the width is at least 6, since `runner` is always listed, and every property and argument key fits it |
| RichProc.PropLinesSkipRunner | pyppl_rich.py:99-105 | the property lines number one per key, minus each occurrence of `runner` |
| RichProc.PropLinesArrows | pyppl_rich.py:99-105 | every property line has its arrow in the common column |
| RichProc.ArgLinesArrows | pyppl_rich.py:113-117 | every argument line has its arrow in the common column |
| RichProc.ProcArrowsAligned | pyppl_rich.py:99-117 | the property, runner and argument lines all have their arrows in one column, the common width |
| RichProc.ShownConfigExactly | pyppl_rich.py:120-127 | a configuration item is logged if and only if it is a configuration item, was set, and is known to the plugin configuration |
| RichProc.ShownConfigConcat | pyppl_rich.py:120-127 | the configuration items are logged in the configuration's order: those from an earlier part come before those from a later part |
| RichProc.ConfigArrowsAligned | pyppl_rich.py:119-131 | configuration lines have their arrows in their own column, the longest key of all configuration items |
| RichProc.NestedLeadsLineUp | pyppl_rich.py:53-65 | with no alias, the first item's lead after the key and arrow, and every later item's lead, are both `w + len(tag) + 6` long |
| RichProc.ValueLineLines | pyppl_rich.py:102-104 | when the property's key, the class name, the dict's keys and the text of its non-string values hold no newline, the lines a reader sees for a property whose value is a dict of two or more items are the key, the arrow and the block's first line, then the block's other lines |
| RichProc.CellKey | pyppl_rich.py:49-66 | a dict's block holds its keys in order, and each fits the dict's longest key, the width they are padded to |
| RichProc.NestedKeysLineUp | pyppl_rich.py:63-66 | in such a value, every item whose key fits the padding width (every item of a dict, by `CellKey`) has its padded key and colon start in the same column, `w + len(tag) + 6`: the first on the property's line, the others on their own lines |

## Left out

- Hook registration, `logger_init`'s log levels and the logger itself are
  not modelled. Each logger call is modelled as the line it receives.
- Timers are not modelled. This covers `time.time()`, `proc.props.rich_timer`,
  `proc_postrun`, `pyppl_prerun`, `pyppl_postrun` and `format_secs`, which
  need a clock and a library outside this file.
- The `IN_*` and `OUT_*` type constants are imported from PyPPL. They are
  modelled as kinds of input and output (`FileIn`, `FilesIn`, `PathOut`,
  `StreamOut`, ...).
- `config.config`, the set of known plugin configuration keys, is a parameter.
- The logged values themselves are abstracted:
  - a value inside a dict is a string, an integer, or any other object given
    by its `str()` text and its truth value;
  - a dict nested inside a dict is such an object, since `format_dict` shows
    it with `str()`;
  - `proc.runner.runner` and the runner profile are given as strings;
  - a dict profile is `None`.
- The process and the job are modelled as values, and `getattr` of a
  property is a map lookup. `RichProc.HasProps` states that every property
  that was set has a value, which `getattr` supplies in the source.
- `repr` is exact only for characters up to U+00FF and for whitespace. Other
  non-printable characters above U+00FF are kept as they are; Python would
  escape them.
- `os.path.basename` follows POSIX paths only.
- The docstring of `format_dict` (pyppl_rich.py:22-33) disagrees with the
  code in two ways: it shows `b: 2 }` where the code writes `b: 2, }`, and it
  shows a different indentation. The model follows the code, which
  tests/test_rich.py confirms.
- The multi-item cases of `test_format_dict` (tests/test_rich.py:18-34) are
  stated symbolically by `RichFormat.TwoInlineLines` and
  `RichFormat.TwoDeferredLines`, not as literal strings.
- The pipeline run in `test_rich` and tests/pipeline1.py are not part of this
  model.
- RichJob.JobBuild: lists are logged with the corrected rendering,
  `RichJob.ListLines`, not with `RichJob.ListLinesAsWritten` (see
  "## Findings"). By `RichJob.AsWrittenDiffersOnlyOnFalsySingle`, the two
  differ only on a list of one item whose truth value is false.
- RichJob.ListItemsAligned: stated for widths of at least 1 only. A width of
  0 needs every key of the job to be empty; then `' '.ljust(0)` is one blank
  and the later items stand one column to the right of the first.
- RichJob.ListPadIsBlank: for the same reason, stated for widths of at least
  1 only.

## Findings

| source | as written | input that shows it | evidently intended | confidence | as-written member | corrected member |
|---|---|---|---|---|---|---|
| pyppl_rich.py:179-182 | a list of at most one item is shown with `data and data[0] or ''`, so an item whose truth value is false is replaced by the empty string | the input list `[0]` under key `x` (width 1) logs `x => [  ]` | `x => [ 0 ]`, the item shown like any other | medium, not executed | RichJob.ListLinesAsWritten, with RichJob.FalsySingleItemDropped | RichJob.ListLines, with RichJob.AsWrittenDiffersOnlyOnFalsySingle |
