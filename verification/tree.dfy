/** The walker itself: a `Tree` that owns the two counters and prints as
    it goes, and the top-level run that prints the target, walks it and
    prints the summary. The file system is passed in as the `Listing`
    values `read_dir` would return; standard output is a `Console`. */
module TreeWalker {
  import opened FileSystem
  import opened Lines
  import opened Labels
  import opened Report
  import opened Walk
  import opened Seqs

  /** Standard output: every line printed so far, in order. */
  class Console {
    var lines: seq<string>

    constructor ()
      ensures lines == []
    {
      lines := [];
    }

    /** `println!` followed by a flush. */
    method PrintLine(s: string)
      modifies this
      ensures lines == old(lines) + [s]
    {
      lines := lines + [s];
    }
  }

  class Tree {
    var totalFiles: nat
    var totalDirs: nat

    /** A fresh tree has counted nothing. */
    constructor ()
      ensures totalFiles == 0 && totalDirs == 0
    {
      totalFiles := 0;
      totalDirs := 0;
    }

    /** Lists `path` (whose listing is `contents`), bumps the depth and,
        when the listing succeeded, walks its items at the new depth. The
        returned value is the caller's depth after the increment. */
    method CrawlTarget(path: string, depth: nat, contents: Listing, includeHidden: bool, out: Console)
      returns (depthAfter: nat)
      modifies this, out
      decreases contents, 0
      ensures depthAfter == depth + 1
      ensures out.lines == old(out.lines) + RenderAll(ListingLines(path, depth + 1, contents, includeHidden))
      ensures totalDirs == old(totalDirs) + ListingDirs(contents, includeHidden)
      ensures totalFiles == old(totalFiles) + ListingFiles(contents, includeHidden)
    {
      depthAfter := depth + 1;
      match contents
      case Listed(items) =>
        ReadTarget(items, depthAfter, path, includeHidden, out);
      case ListError =>
        // the error is reported on standard error; nothing is printed or counted
    }

    /** Visits the items of one listing in order; an item the iterator
        could not produce is reported and skipped. */
    method ReadTarget(items: seq<Item>, depth: nat, path: string, includeHidden: bool, out: Console)
      modifies this, out
      decreases items, 0
      ensures out.lines == old(out.lines) + RenderAll(ItemsLines(path, depth, items, includeHidden))
      ensures totalDirs == old(totalDirs) + ItemsDirs(items, includeHidden)
      ensures totalFiles == old(totalFiles) + ItemsFiles(items, includeHidden)
    {
      ghost var start, dirs, files := out.lines, totalDirs, totalFiles;
      for i := 0 to |items|
        invariant out.lines == start + RenderAll(ItemsLines(path, depth, items[..i], includeHidden))
        invariant totalDirs == dirs + ItemsDirs(items[..i], includeHidden)
        invariant totalFiles == files + ItemsFiles(items[..i], includeHidden)
      {
        ghost var next := ItemLines(path, depth, items[i], includeHidden);
        ItemsSnoc(path, depth, items, i, includeHidden);
        var item := items[i];
        assert item in items;
        // an item the iterator failed on is reported on standard error
        if item.Yielded? {
          GetContentType(item.entry, depth, path, includeHidden, out);
        }
        AppendAssoc(start, RenderAll(ItemsLines(path, depth, items[..i], includeHidden)), RenderAll(next));
      }
      assert items[..|items|] == items;
    }

    /** Asks for the entry's type; an entry whose type cannot be read is
        reported and skipped. */
    method GetContentType(entry: DirEntry, depth: nat, path: string, includeHidden: bool, out: Console)
      modifies this, out
      // measured as the item that yielded the entry, which lies in the listing
      decreases Yielded(entry), 0
      ensures out.lines == old(out.lines) + RenderAll(ItemLines(path, depth, Yielded(entry), includeHidden))
      ensures totalDirs == old(totalDirs) + ItemDirs(Yielded(entry), includeHidden)
      ensures totalFiles == old(totalFiles) + ItemFiles(Yielded(entry), includeHidden)
    {
      match entry.fileType
      case Typed(kind) =>
        ReadCrawledContent(kind, depth, path, entry.name, includeHidden, out);
      case TypeError =>
        // the error is reported on standard error
    }

    /** Dispatches on the entry's type: a directory and a regular file
        are shown unless hidden and not asked for; anything else is
        ignored. */
    method ReadCrawledContent(fileType: FileType, depth: nat, path: string, targetName: string,
                              includeHidden: bool, out: Console)
      modifies this, out
      decreases fileType, 0
      ensures out.lines == old(out.lines)
                + RenderAll(ItemLines(path, depth, Yielded(DirEntry(targetName, Typed(fileType))), includeHidden))
      ensures totalDirs == old(totalDirs) + ItemDirs(Yielded(DirEntry(targetName, Typed(fileType))), includeHidden)
      ensures totalFiles == old(totalFiles) + ItemFiles(Yielded(DirEntry(targetName, Typed(fileType))), includeHidden)
    {
      ghost var item := Yielded(DirEntry(targetName, Typed(fileType)));
      if fileType.Directory? {
        if IsHidden(targetName) && !includeHidden {
          assert ItemLines(path, depth, item, includeHidden) == [];
          return;
        }
        var innerPath := ChildPath(path, targetName);
        ghost var sub := ListingLines(innerPath, depth + 1, fileType.contents, includeHidden);
        assert ItemLines(path, depth, item, includeHidden) == [DirLine(depth, StripDotSlash(innerPath))] + sub;
        RenderAllAppend([DirLine(depth, StripDotSlash(innerPath))], sub);
        assert RenderAll([DirLine(depth, StripDotSlash(innerPath))]) == [Render(DirLine(depth, StripDotSlash(innerPath)))];
        assert ItemDirs(item, includeHidden) == 1 + ListingDirs(fileType.contents, includeHidden);
        assert ItemFiles(item, includeHidden) == ListingFiles(fileType.contents, includeHidden);
        ghost var before := out.lines;
        DisplayDir(innerPath, depth, fileType.contents, includeHidden, out);
        AppendAssoc(before, [Render(DirLine(depth, StripDotSlash(innerPath)))], RenderAll(sub));
      }
      if fileType.RegularFile? {
        if IsHidden(targetName) && !includeHidden {
          return;
        }
        DisplayFile(targetName, depth, out);
      }
    }

    /** Counts a directory, prints its line with its path as label and
        crawls it one level deeper; the depth is copied, so the caller's
        depth is not changed. */
    method DisplayDir(targetName: string, depth: nat, contents: Listing, includeHidden: bool, out: Console)
      modifies this, out
      decreases contents, 1
      ensures out.lines == old(out.lines) + [Render(DirLine(depth, StripDotSlash(targetName)))]
                + RenderAll(ListingLines(targetName, depth + 1, contents, includeHidden))
      ensures totalDirs == old(totalDirs) + 1 + ListingDirs(contents, includeHidden)
      ensures totalFiles == old(totalFiles) + ListingFiles(contents, includeHidden)
    {
      totalDirs := totalDirs + 1;
      var innerDepth := depth;
      out.PrintLine(Render(DirLine(innerDepth, StripDotSlash(targetName))));
      innerDepth := CrawlTarget(targetName, innerDepth, contents, includeHidden, out);
    }

    /** Counts a file and prints its line. */
    method DisplayFile(targetName: string, depth: nat, out: Console)
      modifies this, out
      ensures out.lines == old(out.lines) + [Render(FileLine(depth, targetName))]
      ensures totalDirs == old(totalDirs)
      ensures totalFiles == old(totalFiles) + 1
    {
      totalFiles := totalFiles + 1;
      out.PrintLine(Render(FileLine(depth, targetName)));
    }

    /** Prints the summary of the counts. */
    method DisplayResult(out: Console)
      modifies out
      ensures out.lines == old(out.lines) + [Summary(totalDirs, totalFiles)]
    {
      out.PrintLine(Summary(totalDirs, totalFiles));
    }
  }

  /** Everything a run prints on standard output: the target, the walk
      from depth 0 (so the target's entries sit at depth 1) and the
      summary. */
  function Transcript(target: string, root: Listing, includeHidden: bool): seq<string>
  {
    [target]
    + RenderAll(ListingLines(target, 1, root, includeHidden))
    + [Summary(ListingDirs(root, includeHidden), ListingFiles(root, includeHidden))]
  }

  /** One run of the program on an already parsed command line. */
  method Run(target: string, root: Listing, includeHidden: bool) returns (stdout: seq<string>)
    ensures stdout == Transcript(target, root, includeHidden)
  {
    var out := new Console();
    var depth := 0;
    out.PrintLine(target);
    var tree := new Tree();
    depth := tree.CrawlTarget(target, depth, root, includeHidden, out);
    tree.DisplayResult(out);
    stdout := out.lines;
  }

  /** A run prints the target first and the summary last, one line in
      between for every shown directory and file, and the summary's counts
      are the numbers of directory lines and file lines printed. */
  lemma TranscriptCounts(target: string, root: Listing, includeHidden: bool)
    ensures
      var t := Transcript(target, root, includeHidden);
      && |t| == 2 + ListingDirs(root, includeHidden) + ListingFiles(root, includeHidden)
      && t[0] == target
      && ParseSummary(t[|t| - 1]) == Some((CountDirLines(t[1..|t| - 1]), CountFileLines(t[1..|t| - 1])))
  {
    var t := Transcript(target, root, includeHidden);
    var lines := ListingLines(target, 1, root, includeHidden);
    assert t[1..|t| - 1] == RenderAll(lines);
    ListingCountsLines(target, 1, root, includeHidden);
    RenderedCounts(lines);
    SummaryRoundTrip(ListingDirs(root, includeHidden), ListingFiles(root, includeHidden));
  }

  /** Every entry line of a run is indented by at least one space: the
      target's own entries sit at depth 1. */
  lemma TranscriptIndentation(target: string, root: Listing, includeHidden: bool)
    ensures
      var t := Transcript(target, root, includeHidden);
      forall k :: 1 <= k < |t| - 1 ==> LeadingSpaces(t[k]) >= 1
  {
    var t := Transcript(target, root, includeHidden);
    var lines := ListingLines(target, 1, root, includeHidden);
    ListingDepths(target, 1, root, includeHidden);
    forall k | 1 <= k < |t| - 1
      ensures LeadingSpaces(t[k]) >= 1
    {
      assert t[k] == RenderAll(lines)[k - 1];
      RenderAllAt(lines, k - 1);
      IndentationIsDepth(lines[k - 1]);
      assert lines[k - 1] in lines;
    }
  }

  /** When the target cannot be listed the run still prints the target and
      a summary of nothing. */
  lemma UnlistableTarget(target: string, includeHidden: bool)
    ensures Transcript(target, ListError, includeHidden) == [target, "0 directory, 0 file"]
  {
    EmptySummary();
  }

  /** The target `.` holding a directory `b` (holding the file `c.txt`)
      and then the file `a.txt`. */
  lemma SmallTreeTranscript()
    ensures
      var b := Yielded(DirEntry("b", Typed(Directory(Listed([Yielded(DirEntry("c.txt", Typed(RegularFile)))])))));
      var a := Yielded(DirEntry("a.txt", Typed(RegularFile)));
      Transcript(".", Listed([b, a]), false)
        == [".",
            " " + Blue + Connector + "b" + Reset,
            "  " + Connector + "c.txt",
            " " + Connector + "a.txt",
            "1 directory, 2 files"]
  {
    var c := Yielded(DirEntry("c.txt", Typed(RegularFile)));
    var b := Yielded(DirEntry("b", Typed(Directory(Listed([c])))));
    var a := Yielded(DirEntry("a.txt", Typed(RegularFile)));
    var lines := [DirLine(1, "b"), FileLine(2, "c.txt"), FileLine(1, "a.txt")];
    SmallTreeWalk(b, c, a);
    var rendered := RenderAll(lines);
    var r0, r1, r2 := " " + Blue + Connector + "b" + Reset, "  " + Connector + "c.txt", " " + Connector + "a.txt";
    assert Transcript(".", Listed([b, a]), false) == ["."] + rendered + [Summary(1, 2)];
    assert rendered == [r0, r1, r2] by {
      SmallTreeRendered(lines);
    }
    MixedSummary();
    assert ["."] + [r0, r1, r2] + ["1 directory, 2 files"] == [".", r0, r1, r2, "1 directory, 2 files"];
  }

  lemma SmallTreeRendered(lines: seq<Line>)
    requires lines == [DirLine(1, "b"), FileLine(2, "c.txt"), FileLine(1, "a.txt")]
    ensures RenderAll(lines) == [" " + Blue + Connector + "b" + Reset, "  " + Connector + "c.txt", " " + Connector + "a.txt"]
  {
    RenderThree(lines);
    assert Indent(1) == " " && Indent(2) == "  ";
  }

  lemma RenderThree(lines: seq<Line>)
    requires |lines| == 3
    ensures RenderAll(lines) == [Render(lines[0]), Render(lines[1]), Render(lines[2])]
  {
    assert lines == [lines[0]] + [lines[1]] + [lines[2]];
    RenderAllAppend([lines[0]] + [lines[1]], [lines[2]]);
    RenderAllAppend([lines[0]], [lines[1]]);
    assert [lines[0]][1..] == [] && [lines[1]][1..] == [] && [lines[2]][1..] == [];
  }

  /** The walk of the small tree, item by item. */
  lemma SmallTreeWalk(b: Item, c: Item, a: Item)
    requires c == Yielded(DirEntry("c.txt", Typed(RegularFile)))
    requires b == Yielded(DirEntry("b", Typed(Directory(Listed([c])))))
    requires a == Yielded(DirEntry("a.txt", Typed(RegularFile)))
    ensures ListingLines(".", 1, Listed([b, a]), false)
         == [DirLine(1, "b"), FileLine(2, "c.txt"), FileLine(1, "a.txt")]
    ensures ListingDirs(Listed([b, a]), false) == 1 && ListingFiles(Listed([b, a]), false) == 2
  {
    assert ChildPath(".", "b") == "./b";
    assert Label(".", "b") == "b" by {
      assert "./b"[2..] == "b";
    }
    assert !IsHidden("c.txt") && !IsHidden("a.txt") && !IsHidden("b");
    ItemsSingle("./b", 2, c, false);
    assert ItemLines("./b", 2, c, false) == [FileLine(2, "c.txt")];
    ItemsSingle(".", 1, a, false);
    assert ItemLines(".", 1, b, false) == [DirLine(1, "b"), FileLine(2, "c.txt")];
    assert ItemDirs(b, false) == 1 && ItemFiles(b, false) == 1;
    ItemsAppend(".", 1, [b], [a], false);
    ItemsSingle(".", 1, b, false);
    assert [b] + [a] == [b, a];
  }

  /** A target holding only the hidden file `.secret`: left out by
      default, shown with hidden entries. */
  lemma HiddenOnlyTranscript()
    ensures
      var root := Listed([Yielded(DirEntry(".secret", Typed(RegularFile)))]);
      && Transcript(".", root, false) == [".", "0 directory, 0 file"]
      && Transcript(".", root, true) == [".", " " + Connector + ".secret", "0 directory, 1 file"]
  {
    var secret := Yielded(DirEntry(".secret", Typed(RegularFile)));
    assert IsHidden(".secret");
    assert ItemsLines(".", 1, [secret], false) == [];
    assert ItemsDirs([secret], false) == 0 && ItemsFiles([secret], false) == 0;
    assert ItemsLines(".", 1, [secret], true) == [FileLine(1, ".secret")];
    assert ItemsDirs([secret], true) == 0 && ItemsFiles([secret], true) == 1;
    assert Indent(1) == " ";
    assert RenderAll([FileLine(1, ".secret")]) == [" " + Connector + ".secret"];
    EmptySummary();
    SingleFileSummary();
  }
}
