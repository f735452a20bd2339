# lls: a verified model of the directory-tree walker

`lls` is a small `tree` clone. Given a target path and a flag that says
whether hidden entries are shown, it prints the target, then one indented
line per directory and regular file it finds, depth first and in pre-order.
At the end it prints a summary such as `1 directory, 2 files`. The walker
is a `Tree` object that owns two counters, `total_dirs` and `total_files`.
It recurses through `crawl_target`, `read_target`, `get_content_type`,
`read_crawled_content`, `display_dir` and `display_file`.

This project models that walker in Dafny.

- `fs.dfy` (module `FileSystem`) replaces the operating system with a
  finite value. A `Listing` is what `read_dir` returns for a path: the
  items in listing order, or a listing error. Each item is either an
  entry or an iteration error. An entry has a name and the result of
  `file_type`: a directory (carrying its own listing), a regular file,
  anything else, or a type error.
- `lines.dfy` (module `Lines`) defines the printed entry lines, how they
  are rendered (indentation, colour markers, the `└── ` connector) and a
  parser that reads them back.
- `labels.dfy` (module `Labels`) covers the directory label: the joined
  path `path/name` with every `./` removed.
- `report.dfy` (module `Report`) covers the summary line and its
  singular/plural rule.
- `walk.dfy` (module `Walk`) describes, as functions of the tree, the
  lines a walk prints and the counts it adds. It also holds the lemmas
  about them: counts equal printed lines, hidden pruning, skipped
  entries, depth, pre-order, and labels along the path descended.
- `tree.dfy` (module `TreeWalker`) holds the walker itself. `Tree` is a
  class whose methods update the two counters and append to a `Console`
  (standard output). Each method is proved against the `Walk` functions.
  `Run` is the program's `main` without argument parsing.
- `seqs.dfy` (module `Seqs`) holds one shared fact about sequences.

Behaviour worth knowing, as the code has it:
- The plural noun is used only for counts above one, so an empty walk
  reads `0 directory, 0 file`.
- A target that cannot be listed is not fatal. The target line and that
  summary are still printed.
- A directory line shows the whole joined path, not just the name. For
  the default target `.`, a directory `c` inside `b` is shown as `b/c`
  (`Walk.DotTargetLabels`).
- Every `./` in the joined path is removed, not only the leading one.
  So below the target `../proj` a directory `b` is shown as `.proj/b`,
  and a directory named `v2.` makes the label of its child `b` end in
  `v2b`; directly under the target `.` the label is just `v2b`. See
  `Labels.ParentTargetLabel` and `Labels.DottedNameLabel`.
- Hidden entries are dropped only for directories and regular files.
  Other entries and errors are skipped in every case.

## Model

| member | source | states |
|---|---|---|
| `Labels.ChildPath` | src/main.rs:75 | definition: the path descended into is the parent path, `/`, then the entry name |
| `Labels.StripDotSlash` | src/main.rs:94 | definition of the removal of every `./`, scanning left to right without overlap; the result is never longer than the text |
| `Labels.Label` | src/main.rs:75-94 | definition: a directory's label is its joined path with every `./` removed |
| `Lines.Render` | src/main.rs:91-102 | definition: `depth` spaces, then for a directory the colour marker, `└── `, the label and the reset marker; for a file `└── ` and the name |
| `Report.DirWord` | src/main.rs:107-111 | definition: `directories` above one, `directory` otherwise |
| `Report.FileWord` | src/main.rs:113-117 | definition: `files` above one, `file` otherwise |
| `Report.Summary` | src/main.rs:119-122 | definition: `<dirs> <dir word>, <files> <file word>` with decimal counts |
| `FileSystem.IsHidden` | src/main.rs:72 | definition: a name is hidden when it starts with a dot |
| `FileSystem.Shown` | src/main.rs:72-82 | definition: a directory or file is shown unless hidden while hidden entries are not asked for |
| `Walk.ListingLines` | src/main.rs:25-33 | reference definition: a failed listing prints nothing; a listing prints its items' lines in order |
| `Walk.ItemsLines` | src/main.rs:35-42 | reference definition: the lines of a sequence of items are the concatenation of each item's lines |
| `Walk.ItemLines` | src/main.rs:44-104 | reference definition: an iteration error, a type error, an entry neither directory nor file, and a hidden entry without the flag print nothing; a shown directory prints its line (label from the joined path) then its listing one level deeper under the joined path; a shown file prints its line with the bare name |
| `Walk.ListingDirs` | src/main.rs:88 | reference definition: the number of shown directories in a listing, at every depth |
| `Walk.ListingFiles` | src/main.rs:101 | reference definition: the number of shown files in a listing, at every depth |
| `TreeWalker.Transcript` | src/main.rs:152-155 | reference definition of a run's output: the target, the walk's lines from depth 1, the summary of the walk's counts |
| `TreeWalker.Tree.constructor` | src/main.rs:18-23 | a new tree has both counters at zero |
| `TreeWalker.Tree.CrawlTarget` | src/main.rs:25-33 | the depth comes back incremented by one; the printed lines are exactly those of the listing at the new depth; the counters grow by exactly the shown directories and files below; a failed listing prints and counts nothing |
| `TreeWalker.Tree.ReadTarget` | src/main.rs:35-42 | items are visited in listing order; iteration errors are skipped and later siblings are still visited; output and counters grow by the items' lines and counts |
| `TreeWalker.Tree.GetContentType` | src/main.rs:44-61 | an entry whose type cannot be read prints and counts nothing; otherwise output and counters are those of the typed entry |
| `TreeWalker.Tree.ReadCrawledContent` | src/main.rs:63-85 | a shown directory prints its line and its subtree; a shown file prints its line; a hidden entry (without the flag) and any other kind print and count nothing |
| `TreeWalker.Tree.DisplayDir` | src/main.rs:87-98 | adds exactly 1 to `total_dirs`; prints the directory line at the current depth with the stripped path as label, then the subtree one level deeper; the caller's depth is untouched |
| `TreeWalker.Tree.DisplayFile` | src/main.rs:100-104 | adds exactly 1 to `total_files`, leaves `total_dirs`, prints the file line at the current depth |
| `TreeWalker.Tree.DisplayResult` | src/main.rs:106-124 | appends the summary of the current counters and changes nothing else |
| `TreeWalker.Console.PrintLine` | src/main.rs:102-103 | a print appends exactly one line to standard output |
| `TreeWalker.Run` | src/main.rs:146-155 | standard output of a run is the target, the walk from depth 0, then the summary of the final counters |
| `TreeWalker.TranscriptCounts` | src/main.rs:152-155 | a run makes 2 + (shown dirs) + (shown files) prints (one terminal line each when no name or target holds a line break); the target comes first; the summary's two numbers, read back, are the numbers of directory prints and file prints |
| `TreeWalker.TranscriptIndentation` | src/main.rs:146-154 | every entry line of a run starts with at least one space: the target's entries are at depth 1 |
| `TreeWalker.UnlistableTarget` | src/main.rs:25-33 | an unlistable target still yields the target line and `0 directory, 0 file` |
| `TreeWalker.SmallTreeTranscript` | src/main.rs:146-155 | exact output for `.` holding `b/` (holding `c.txt`) then `a.txt`: `b` at one space, `c.txt` at two, `a.txt` at one, `1 directory, 2 files` |
| `TreeWalker.HiddenOnlyTranscript` | src/main.rs:79-83 | a lone `.secret` file is neither printed nor counted by default, and is printed and counted with hidden entries shown |
| `Walk.ListingCountsLines` | src/main.rs:87-104 | the counts a walk adds equal the numbers of directory and file lines it prints |
| `Walk.RenderedCounts` | src/main.rs:91-102 | counted on the printed text, directory and file lines are those the walk produced, and every entry line is one or the other |
| `Walk.ItemsAppend` | src/main.rs:36-41 | the output and counts of consecutive items are the concatenation and sum of their parts |
| `Walk.ItemsSnoc` | src/main.rs:36-41 | visiting one more item appends exactly that item's output and counts |
| `Walk.SilentIffNoLines` | src/main.rs:44-84 | an item prints nothing iff it is an iteration error, a type error, neither dir nor file, or hidden without the flag; such an item counts nothing; any other item's first line is its own, at the current depth |
| `Walk.SkipSilent` | src/main.rs:36-84 | a skipped item leaves its siblings' output and counts exactly as without it |
| `Walk.UnlistableDirectory` | src/main.rs:87-98 | a shown directory that cannot be listed is still printed and counted, with nothing below it |
| `Walk.HiddenFilterPrunes` | src/main.rs:71-84 | walking without hidden entries prints and counts exactly what walking the tree with every hidden entry and its subtree deleted does |
| `Walk.WithoutHiddenHasNone` | src/main.rs:72-82 | the pruned tree has no hidden-named entry at any level |
| `Walk.ListingDepths` | src/main.rs:87-97 | every line printed for a listing is at least as deep as the listing's entries |
| `Walk.ItemsFirstLine` | src/main.rs:36-41 | the first line printed for a sequence of items sits at their depth |
| `Walk.PreorderBlock` | src/main.rs:91-97 | among siblings, the earlier siblings' lines come first, then the directory's line, then its whole subtree (strictly deeper), then exactly the later siblings' lines, the first of which sits at the sibling depth |
| `Walk.ListingRoutes` | src/main.rs:87-97 | every printed line is the line of a shown entry reached through one name per indentation level; a directory line shows the path descended through those names, a file line shows the last name |
| `Walk.DotTargetLabels` | src/main.rs:75-94 | for target `.` and plain directory names, a directory line at depth k shows the k names leading to it joined by `/` |
| `Lines.Indent` | src/main.rs:93 | the indentation is exactly `depth` spaces |
| `Lines.IndentationIsDepth` | src/main.rs:91-102 | a printed line starts with exactly `depth` spaces, followed by a non-space |
| `Lines.ParseRender` | src/main.rs:91-102 | the text of every entry print reads back as the line it renders: directory and file prints cannot be confused (for names without a line break this text is one terminal line) |
| `Lines.ParseAllRenderAll` | src/main.rs:91-102 | a sequence of printed lines reads back as the lines printed |
| `Labels.StripUnchangedIff` | src/main.rs:94 | removing `./` leaves a text unchanged iff it holds no `./`, and otherwise shortens it |
| `Labels.StripAppend` | src/main.rs:94 | the removal works piecewise across a boundary not preceded by a dot |
| `Labels.DescendPathCons` | src/main.rs:75 | descending into one name and then several reaches the same path as descending through all of them |
| `Labels.DotRootLabel` | src/main.rs:75-94 | from `.`, the label of a path of plain names is those names joined by `/` |
| `Labels.RootKept` | src/main.rs:75-94 | a target without `./` and not ending in a dot is kept whole at the front of every label below it, whatever the names |
| `Labels.DescendPathExtends` | src/main.rs:75 | descending only appends to the path walked so far |
| `Labels.PlainRootLabel` | src/main.rs:75-94 | below plain names (no `/`, not ending in a dot), such a target's labels are the whole joined path |
| `Labels.ParentTargetLabel` | src/main.rs:94 | below a target `../p`, a subdirectory `name` is labelled `.p/name` whenever `p/name` holds no `./`: the slash after `..` is removed too |
| `Labels.DottedNameLabel` | src/main.rs:94 | below a directory path `stem.` (stem not ending in a dot, neither part holding `./`), the subdirectory `name` is labelled `stemname`: the slash after the dot is removed |
| `Report.PluralOnlyAboveOne` | src/main.rs:107-117 | `directories` / `files` iff the count is above 1; counts 0 and 1 take the singular |
| `Report.Decimal` | src/main.rs:119-122 | a count prints as a non-empty digit string without leading zeros |
| `Report.DecimalRoundTrip` | src/main.rs:119-122 | the printed count reads back as the count |
| `Report.SummaryRoundTrip` | src/main.rs:107-122 | both counts can be read back from the summary line, by a reader that accepts after each count only the noun the plural rule gives it |
| `Report.PluralNounNeedsMany` | src/main.rs:107-111 | a summary with `directories` after a count of 0 or 1 is refused by that reader |
| `Report.SingularNounNeedsFew` | src/main.rs:107-111 | a summary with `directory` after a count above 1 is refused by that reader |
| `Report.EmptySummary` | src/main.rs:107-122 | nothing counted reads `0 directory, 0 file` |
| `Report.SingleFileSummary` | src/main.rs:107-122 | one file and no directory read `0 directory, 1 file` |
| `Report.MixedSummary` | src/main.rs:107-122 | `1 directory, 2 files`: one stays singular, two take the plural |
| `Report.PluralSummary` | src/main.rs:107-122 | `2 directories, 5 files` |

## Left out

- Command-line parsing (src/main.rs:127-150) uses a foreign library.
  `Run` takes the target and the hidden flag as parameters; the default
  target `.` is the value used by `Walk.DotTargetLabels`.
- The operating-system calls `read_dir`, iteration, `file_type` and
  `file_name` are replaced by the `Listing` value passed in. A directory's
  listing travels with its entry; the model does not look paths up.
  Listing order is the order of the sequence. Symbolic-link targets,
  cycles and a tree changing during the walk are not modelled.
- A listing may hold entries after an iteration error. The operating
  system may end a listing at its first error instead; every property is
  stated for all item sequences, so it covers both.
- The lossy UTF-8 conversion of file names is not modelled; names are
  strings as given.
- Error messages printed with `eprintln!` are not modelled. An error is
  modelled only as "nothing printed to standard output, nothing counted".
- Flushing, and the panic when a flush fails, are left out.
- Each `println!` call is one element of `Console.lines`. A file name, a
  directory path or a target holding a line break prints as several
  terminal lines from one call. The model keeps such a call as one
  element. So line counts and the reading back of lines hold per print,
  and hold per terminal line only when no name holds a line break.
- The colour escape sequences are exact constants. Of their text, the
  lemmas rely only on the first character: an escape, which is neither a
  space nor the connector glyph.
- `TreeWalker.Tree.DisplayDir`, `TreeWalker.Tree.DisplayFile`: the
  counters are unbounded naturals, so the overflow of `usize` is not
  modelled.
- The depth passed by `&mut` is modelled as follows. `CrawlTarget`
  returns the incremented value. The other methods take it by value,
  because they only pass it on. `display_dir` works on its own copy.
