/** What a walk prints and counts, as functions of the abstract tree.
    `depth` is the indentation of the entries of the listing at hand,
    i.e. the value the walker's depth has after `crawl_target` has
    incremented it. */
module Walk {
  import opened FileSystem
  import opened Lines
  import opened Labels

  /** The lines printed while crawling a listing. */
  function ListingLines(path: string, depth: nat, l: Listing, includeHidden: bool): seq<Line>
    decreases l
  {
    match l
    case ListError => []
    case Listed(items) => ItemsLines(path, depth, items, includeHidden)
  }

  /** The lines printed for the items of one listing, in order. */
  function ItemsLines(path: string, depth: nat, items: seq<Item>, includeHidden: bool): seq<Line>
    decreases items
  {
    if items == [] then []
    else ItemLines(path, depth, items[0], includeHidden) + ItemsLines(path, depth, items[1..], includeHidden)
  }

  /** The lines printed for one item: a shown directory's line followed by
      its subtree, a shown file's line, or nothing. */
  function ItemLines(path: string, depth: nat, item: Item, includeHidden: bool): seq<Line>
    decreases item
  {
    match item
    case IterError => []
    case Yielded(DirEntry(name, TypeError)) => []
    case Yielded(DirEntry(name, Typed(kind))) =>
      if !Shown(name, includeHidden) then []
      else
        match kind
        case Directory(contents) =>
          [DirLine(depth, Label(path, name))]
          + ListingLines(ChildPath(path, name), depth + 1, contents, includeHidden)
        case RegularFile => [FileLine(depth, name)]
        case Other => []
  }

  /** The shown directories in a listing and below it: what a walk of
      it adds to the directory count. */
  function ListingDirs(l: Listing, includeHidden: bool): nat
    decreases l
  {
    match l
    case ListError => 0
    case Listed(items) => ItemsDirs(items, includeHidden)
  }

  function ItemsDirs(items: seq<Item>, includeHidden: bool): nat
    decreases items
  {
    if items == [] then 0 else ItemDirs(items[0], includeHidden) + ItemsDirs(items[1..], includeHidden)
  }

  function ItemDirs(item: Item, includeHidden: bool): nat
    decreases item
  {
    match item
    case Yielded(DirEntry(name, Typed(Directory(contents)))) =>
      if Shown(name, includeHidden) then 1 + ListingDirs(contents, includeHidden) else 0
    case _ => 0
  }

  /** The shown regular files in a listing and below it: what a walk of
      it adds to the file count. */
  function ListingFiles(l: Listing, includeHidden: bool): nat
    decreases l
  {
    match l
    case ListError => 0
    case Listed(items) => ItemsFiles(items, includeHidden)
  }

  function ItemsFiles(items: seq<Item>, includeHidden: bool): nat
    decreases items
  {
    if items == [] then 0 else ItemFiles(items[0], includeHidden) + ItemsFiles(items[1..], includeHidden)
  }

  function ItemFiles(item: Item, includeHidden: bool): nat
    decreases item
  {
    match item
    case Yielded(DirEntry(name, Typed(Directory(contents)))) =>
      if Shown(name, includeHidden) then ListingFiles(contents, includeHidden) else 0
    case Yielded(DirEntry(name, Typed(RegularFile))) =>
      if Shown(name, includeHidden) then 1 else 0
    case _ => 0
  }

  /** The directory lines among some lines. */
  function DirLines(lines: seq<Line>): nat
  {
    if lines == [] then 0 else (if lines[0].DirLine? then 1 else 0) + DirLines(lines[1..])
  }

  /** The file lines among some lines. */
  function FileLines(lines: seq<Line>): nat
  {
    if lines == [] then 0 else (if lines[0].FileLine? then 1 else 0) + FileLines(lines[1..])
  }

  /** Counted on the printed text, the directory and file lines are the
      ones the walk produced, and every printed line is one or the other. */
  lemma {:induction false} RenderedCounts(lines: seq<Line>)
    ensures CountDirLines(RenderAll(lines)) == DirLines(lines)
    ensures CountFileLines(RenderAll(lines)) == FileLines(lines)
    ensures |lines| == DirLines(lines) + FileLines(lines)
  {
    if lines != [] {
      ParseRender(lines[0]);
      assert RenderAll(lines)[1..] == RenderAll(lines[1..]);
      RenderedCounts(lines[1..]);
    }
  }

  lemma {:induction false} LineCountsAppend(a: seq<Line>, b: seq<Line>)
    ensures DirLines(a + b) == DirLines(a) + DirLines(b)
    ensures FileLines(a + b) == FileLines(a) + FileLines(b)
  {
    if a != [] {
      assert (a + b)[1..] == a[1..] + b;
      LineCountsAppend(a[1..], b);
    } else {
      assert a + b == b;
    }
  }

  /** Output and counts of a sequence of items split anywhere are those of
      its parts. */
  lemma {:induction false} ItemsAppend(path: string, depth: nat, a: seq<Item>, b: seq<Item>, includeHidden: bool)
    ensures ItemsLines(path, depth, a + b, includeHidden)
         == ItemsLines(path, depth, a, includeHidden) + ItemsLines(path, depth, b, includeHidden)
    ensures ItemsDirs(a + b, includeHidden) == ItemsDirs(a, includeHidden) + ItemsDirs(b, includeHidden)
    ensures ItemsFiles(a + b, includeHidden) == ItemsFiles(a, includeHidden) + ItemsFiles(b, includeHidden)
  {
    if a == [] {
      assert a + b == b;
    } else {
      assert (a + b)[1..] == a[1..] + b;
      assert (a + b)[0] == a[0];
      ItemsAppend(path, depth, a[1..], b, includeHidden);
    }
  }

  /** Visiting one more item appends that item's output and counts. */
  lemma ItemsSnoc(path: string, depth: nat, items: seq<Item>, i: nat, includeHidden: bool)
    requires i < |items|
    ensures ItemsLines(path, depth, items[..i + 1], includeHidden)
         == ItemsLines(path, depth, items[..i], includeHidden) + ItemLines(path, depth, items[i], includeHidden)
    ensures ItemsDirs(items[..i + 1], includeHidden) == ItemsDirs(items[..i], includeHidden) + ItemDirs(items[i], includeHidden)
    ensures ItemsFiles(items[..i + 1], includeHidden) == ItemsFiles(items[..i], includeHidden) + ItemFiles(items[i], includeHidden)
    ensures RenderAll(ItemsLines(path, depth, items[..i + 1], includeHidden))
         == RenderAll(ItemsLines(path, depth, items[..i], includeHidden)) + RenderAll(ItemLines(path, depth, items[i], includeHidden))
  {
    assert items[..i + 1] == items[..i] + [items[i]];
    ItemsAppend(path, depth, items[..i], [items[i]], includeHidden);
    ItemsSingle(path, depth, items[i], includeHidden);
    RenderAllAppend(ItemsLines(path, depth, items[..i], includeHidden), ItemLines(path, depth, items[i], includeHidden));
  }

  lemma ItemsSingle(path: string, depth: nat, item: Item, includeHidden: bool)
    ensures ItemsLines(path, depth, [item], includeHidden) == ItemLines(path, depth, item, includeHidden)
    ensures ItemsDirs([item], includeHidden) == ItemDirs(item, includeHidden)
    ensures ItemsFiles([item], includeHidden) == ItemFiles(item, includeHidden)
  {
    assert [item][1..] == [];
  }

  /** The counts a walk adds are the numbers of directory and file lines
      it prints. */
  lemma {:induction false} ListingCountsLines(path: string, depth: nat, l: Listing, includeHidden: bool)
    ensures DirLines(ListingLines(path, depth, l, includeHidden)) == ListingDirs(l, includeHidden)
    ensures FileLines(ListingLines(path, depth, l, includeHidden)) == ListingFiles(l, includeHidden)
    decreases l
  {
    match l
    case ListError =>
    case Listed(items) => ItemsCountLines(path, depth, items, includeHidden);
  }

  lemma {:induction false} ItemsCountLines(path: string, depth: nat, items: seq<Item>, includeHidden: bool)
    ensures DirLines(ItemsLines(path, depth, items, includeHidden)) == ItemsDirs(items, includeHidden)
    ensures FileLines(ItemsLines(path, depth, items, includeHidden)) == ItemsFiles(items, includeHidden)
    decreases items
  {
    if items != [] {
      ItemCountsLines(path, depth, items[0], includeHidden);
      ItemsCountLines(path, depth, items[1..], includeHidden);
      LineCountsAppend(ItemLines(path, depth, items[0], includeHidden), ItemsLines(path, depth, items[1..], includeHidden));
    }
  }

  lemma {:induction false} ItemCountsLines(path: string, depth: nat, item: Item, includeHidden: bool)
    ensures DirLines(ItemLines(path, depth, item, includeHidden)) == ItemDirs(item, includeHidden)
    ensures FileLines(ItemLines(path, depth, item, includeHidden)) == ItemFiles(item, includeHidden)
    decreases item
  {
    match item
    case Yielded(DirEntry(name, Typed(Directory(contents)))) =>
      if Shown(name, includeHidden) {
        var head := [DirLine(depth, Label(path, name))];
        var sub := ListingLines(ChildPath(path, name), depth + 1, contents, includeHidden);
        ListingCountsLines(ChildPath(path, name), depth + 1, contents, includeHidden);
        LineCountsAppend(head, sub);
      }
    case Yielded(DirEntry(name, Typed(RegularFile))) =>
      if Shown(name, includeHidden) {
        assert FileLines([FileLine(depth, name)]) == 1;
      }
    case _ =>
  }

  /** An item is silent when the walker skips it: an iteration error, an
      entry whose type cannot be read, an entry that is neither directory
      nor file, or a hidden entry when hidden entries are not shown. */
  predicate Silent(item: Item, includeHidden: bool)
  {
    match item
    case IterError => true
    case Yielded(DirEntry(name, TypeError)) => true
    case Yielded(DirEntry(name, Typed(kind))) => kind.Other? || !Shown(name, includeHidden)
  }

  /** An item prints nothing exactly when it is silent, and then it counts
      nothing; otherwise its first line is its own, at the current depth. */
  lemma SilentIffNoLines(path: string, depth: nat, item: Item, includeHidden: bool)
    ensures ItemLines(path, depth, item, includeHidden) == [] <==> Silent(item, includeHidden)
    ensures Silent(item, includeHidden) ==> ItemDirs(item, includeHidden) == 0 && ItemFiles(item, includeHidden) == 0
    ensures !Silent(item, includeHidden) ==>
              ItemLines(path, depth, item, includeHidden)[0].depth == depth &&
              ItemLines(path, depth, item, includeHidden)[0]
                == (if item.entry.fileType.kind.Directory?
                    then DirLine(depth, Label(path, item.entry.name))
                    else FileLine(depth, item.entry.name))
  {
  }

  /** A skipped item leaves its siblings' output and counts as they would
      be without it. */
  lemma SkipSilent(path: string, depth: nat, before: seq<Item>, item: Item, after: seq<Item>, includeHidden: bool)
    requires Silent(item, includeHidden)
    ensures ItemsLines(path, depth, before + [item] + after, includeHidden)
         == ItemsLines(path, depth, before, includeHidden) + ItemsLines(path, depth, after, includeHidden)
    ensures ItemsDirs(before + [item] + after, includeHidden)
         == ItemsDirs(before, includeHidden) + ItemsDirs(after, includeHidden)
    ensures ItemsFiles(before + [item] + after, includeHidden)
         == ItemsFiles(before, includeHidden) + ItemsFiles(after, includeHidden)
  {
    var front := before + [item];
    ItemsAppend(path, depth, front, after, includeHidden);
    ItemsAppend(path, depth, before, [item], includeHidden);
    ItemsSingle(path, depth, item, includeHidden);
    SilentIffNoLines(path, depth, item, includeHidden);
    assert ItemsLines(path, depth, front, includeHidden) == ItemsLines(path, depth, before, includeHidden) by {
      var b := ItemsLines(path, depth, before, includeHidden);
      assert ItemsLines(path, depth, front, includeHidden) == b + [];
      assert b + [] == b;
    }
  }

  /** A shown directory that cannot be listed is printed and counted, and
      contributes nothing below it. */
  lemma UnlistableDirectory(path: string, depth: nat, name: string, includeHidden: bool)
    requires Shown(name, includeHidden)
    ensures ItemLines(path, depth, Yielded(DirEntry(name, Typed(Directory(ListError)))), includeHidden)
         == [DirLine(depth, Label(path, name))]
    ensures ItemDirs(Yielded(DirEntry(name, Typed(Directory(ListError)))), includeHidden) == 1
    ensures ItemFiles(Yielded(DirEntry(name, Typed(Directory(ListError)))), includeHidden) == 0
  {
  }

  /** Every line printed for a listing is at least as deep as the
      listing's own entries. */
  lemma {:induction false} ListingDepths(path: string, depth: nat, l: Listing, includeHidden: bool)
    ensures forall line :: line in ListingLines(path, depth, l, includeHidden) ==> line.depth >= depth
    decreases l
  {
    match l
    case ListError =>
    case Listed(items) => ItemsDepths(path, depth, items, includeHidden);
  }

  lemma {:induction false} ItemsDepths(path: string, depth: nat, items: seq<Item>, includeHidden: bool)
    ensures forall line :: line in ItemsLines(path, depth, items, includeHidden) ==> line.depth >= depth
    decreases items
  {
    if items != [] {
      ItemDepths(path, depth, items[0], includeHidden);
      ItemsDepths(path, depth, items[1..], includeHidden);
    }
  }

  lemma {:induction false} ItemDepths(path: string, depth: nat, item: Item, includeHidden: bool)
    ensures forall line :: line in ItemLines(path, depth, item, includeHidden) ==> line.depth >= depth
    decreases item
  {
    match item
    case Yielded(DirEntry(name, Typed(Directory(contents)))) =>
      ListingDepths(ChildPath(path, name), depth + 1, contents, includeHidden);
    case _ =>
  }

  /** The first line printed for a sequence of items, if any, belongs to
      one of those items and so sits at their depth. */
  lemma {:induction false} ItemsFirstLine(path: string, depth: nat, items: seq<Item>, includeHidden: bool)
    requires ItemsLines(path, depth, items, includeHidden) != []
    ensures ItemsLines(path, depth, items, includeHidden)[0].depth == depth
    decreases items
  {
    SilentIffNoLines(path, depth, items[0], includeHidden);
    if ItemLines(path, depth, items[0], includeHidden) == [] {
      ItemsFirstLine(path, depth, items[1..], includeHidden);
    }
  }

  /** Pre-order: a shown directory's line comes first, its whole subtree
      follows right after it, every line of that subtree is deeper, and the
      line after the subtree, if any, is the next shown sibling's at the
      same depth. */
  lemma PreorderBlock(path: string, depth: nat, before: seq<Item>, name: string, contents: Listing,
                      after: seq<Item>, includeHidden: bool)
    requires Shown(name, includeHidden)
    ensures
      var all := ItemsLines(path, depth, before + [Yielded(DirEntry(name, Typed(Directory(contents))))] + after, includeHidden);
      var i := |ItemsLines(path, depth, before, includeHidden)|;
      var sub := ListingLines(ChildPath(path, name), depth + 1, contents, includeHidden);
      && i + 1 + |sub| <= |all|
      && all[..i] == ItemsLines(path, depth, before, includeHidden)
      && all[i] == DirLine(depth, Label(path, name))
      && all[i + 1..i + 1 + |sub|] == sub
      && (forall k :: i < k <= i + |sub| ==> all[k].depth > depth)
      && (i + 1 + |sub| < |all| ==> all[i + 1 + |sub|].depth == depth)
      && all[i + 1 + |sub|..] == ItemsLines(path, depth, after, includeHidden)
  {
    var dir := Yielded(DirEntry(name, Typed(Directory(contents))));
    var head := DirLine(depth, Label(path, name));
    var pre := ItemsLines(path, depth, before, includeHidden);
    var sub := ListingLines(ChildPath(path, name), depth + 1, contents, includeHidden);
    var post := ItemsLines(path, depth, after, includeHidden);
    ItemsAppend(path, depth, before + [dir], after, includeHidden);
    ItemsAppend(path, depth, before, [dir], includeHidden);
    ItemsSingle(path, depth, dir, includeHidden);
    assert ItemLines(path, depth, dir, includeHidden) == [head] + sub;
    assert ItemsLines(path, depth, before + [dir] + after, includeHidden) == pre + ([head] + sub) + post;
    ListingDepths(ChildPath(path, name), depth + 1, contents, includeHidden);
    if post != [] {
      ItemsFirstLine(path, depth, after, includeHidden);
    }
    BlockLayout(pre, head, sub, post, depth);
  }

  /** Where the pieces of `pre + [head] + sub + post` sit. */
  lemma BlockLayout(pre: seq<Line>, head: Line, sub: seq<Line>, post: seq<Line>, depth: nat)
    requires forall line :: line in sub ==> line.depth >= depth + 1
    requires post != [] ==> post[0].depth == depth
    ensures
      var all := pre + ([head] + sub) + post;
      var i := |pre|;
      && i + 1 + |sub| <= |all|
      && all[..i] == pre
      && all[i] == head
      && all[i + 1..i + 1 + |sub|] == sub
      && (forall k :: i < k <= i + |sub| ==> all[k].depth > depth)
      && (i + 1 + |sub| < |all| ==> all[i + 1 + |sub|].depth == depth)
      && all[i + 1 + |sub|..] == post
  {
    var all := pre + ([head] + sub) + post;
    var i := |pre|;
    assert all[..i] == pre;
    assert all[i + 1 + |sub|..] == post;
    assert all[i + 1..i + 1 + |sub|] == sub;
    forall k | i < k <= i + |sub|
      ensures all[k].depth > depth
    {
      assert all[k] == sub[k - i - 1];
      assert sub[k - i - 1] in sub;
    }
    if i + 1 + |sub| < |all| {
      assert all[i + 1 + |sub|] == post[0];
    }
  }

  /** An entry is hidden-named when the iterator yielded it and its name
      starts with a dot. */
  predicate HiddenItem(item: Item)
  {
    item.Yielded? && IsHidden(item.entry.name)
  }

  /** The tree with every hidden-named entry, and so its whole subtree,
      deleted. */
  function WithoutHidden(l: Listing): Listing
    decreases l
  {
    match l
    case ListError => ListError
    case Listed(items) => Listed(ItemsWithoutHidden(items))
  }

  function ItemsWithoutHidden(items: seq<Item>): seq<Item>
    decreases items
  {
    if items == [] then []
    else (if HiddenItem(items[0]) then [] else [ItemWithoutHidden(items[0])]) + ItemsWithoutHidden(items[1..])
  }

  function ItemWithoutHidden(item: Item): Item
    decreases item
  {
    match item
    case Yielded(DirEntry(name, Typed(Directory(contents)))) =>
      Yielded(DirEntry(name, Typed(Directory(WithoutHidden(contents)))))
    case _ => item
  }

  /** No hidden-named entry is left anywhere in a pruned tree. */
  predicate NoHidden(l: Listing)
    decreases l
  {
    match l
    case ListError => true
    case Listed(items) => forall i :: 0 <= i < |items| ==> NoHiddenItem(items[i])
  }

  predicate NoHiddenItem(item: Item)
    decreases item
  {
    !HiddenItem(item) &&
    match item
    case Yielded(DirEntry(_, Typed(Directory(contents)))) => NoHidden(contents)
    case _ => true
  }

  lemma {:induction false} WithoutHiddenHasNone(l: Listing)
    ensures NoHidden(WithoutHidden(l))
    decreases l
  {
    match l
    case ListError =>
    case Listed(items) => ItemsWithoutHiddenHaveNone(items);
  }

  lemma {:induction false} ItemsWithoutHiddenHaveNone(items: seq<Item>)
    ensures forall i :: 0 <= i < |ItemsWithoutHidden(items)| ==> NoHiddenItem(ItemsWithoutHidden(items)[i])
    decreases items
  {
    if items != [] {
      ItemsWithoutHiddenHaveNone(items[1..]);
      if !HiddenItem(items[0]) {
        ItemWithoutHiddenHasNone(items[0]);
      }
    }
  }

  lemma {:induction false} ItemWithoutHiddenHasNone(item: Item)
    requires !HiddenItem(item)
    ensures NoHiddenItem(ItemWithoutHidden(item))
    decreases item
  {
    match item
    case Yielded(DirEntry(name, Typed(Directory(contents)))) =>
      WithoutHiddenHasNone(contents);
    case _ =>
  }

  /** The hidden filter: walking without hidden entries prints and counts
      exactly what walking the pruned tree with hidden entries shown does,
      so a hidden directory's whole subtree contributes nothing. */
  lemma {:induction false} HiddenFilterPrunes(path: string, depth: nat, l: Listing)
    ensures ListingLines(path, depth, l, false) == ListingLines(path, depth, WithoutHidden(l), true)
    ensures ListingDirs(l, false) == ListingDirs(WithoutHidden(l), true)
    ensures ListingFiles(l, false) == ListingFiles(WithoutHidden(l), true)
    decreases l
  {
    match l
    case ListError =>
    case Listed(items) => ItemsHiddenFilterPrunes(path, depth, items);
  }

  lemma {:induction false} ItemsHiddenFilterPrunes(path: string, depth: nat, items: seq<Item>)
    ensures ItemsLines(path, depth, items, false) == ItemsLines(path, depth, ItemsWithoutHidden(items), true)
    ensures ItemsDirs(items, false) == ItemsDirs(ItemsWithoutHidden(items), true)
    ensures ItemsFiles(items, false) == ItemsFiles(ItemsWithoutHidden(items), true)
    decreases items
  {
    if items != [] {
      var item := items[0];
      var kept := if HiddenItem(item) then [] else [ItemWithoutHidden(item)];
      ItemsHiddenFilterPrunes(path, depth, items[1..]);
      ItemsAppend(path, depth, kept, ItemsWithoutHidden(items[1..]), true);
      if HiddenItem(item) {
        assert Silent(item, false);
        SilentIffNoLines(path, depth, item, false);
      } else {
        ItemHiddenFilterPrunes(path, depth, item);
        assert ItemsLines(path, depth, kept, true) == ItemLines(path, depth, ItemWithoutHidden(item), true);
      }
    }
  }

  lemma {:induction false} ItemHiddenFilterPrunes(path: string, depth: nat, item: Item)
    requires !HiddenItem(item)
    ensures ItemLines(path, depth, item, false) == ItemLines(path, depth, ItemWithoutHidden(item), true)
    ensures ItemDirs(item, false) == ItemDirs(ItemWithoutHidden(item), true)
    ensures ItemFiles(item, false) == ItemFiles(ItemWithoutHidden(item), true)
    decreases item
  {
    match item
    case Yielded(DirEntry(name, Typed(Directory(contents)))) =>
      HiddenFilterPrunes(ChildPath(path, name), depth + 1, contents);
    case _ =>
  }

  /** `names` leads from `item` to a shown entry: the item is the shown
      entry `names[0]`, and either `names` ends there with an entry of the
      asked kind or the item is a directory and the rest of `names` leads
      on from its listing. */
  predicate ItemReaches(item: Item, names: seq<string>, includeHidden: bool, toDir: bool)
    decreases item
  {
    && names != []
    && item.Yielded?
    && item.entry.name == names[0]
    && Shown(names[0], includeHidden)
    && item.entry.fileType.Typed?
    && var kind := item.entry.fileType.kind;
       if |names| == 1 then (if toDir then kind.Directory? else kind.RegularFile?)
       else kind.Directory? && ListingReaches(kind.contents, names[1..], includeHidden, toDir)
  }

  predicate ListingReaches(l: Listing, names: seq<string>, includeHidden: bool, toDir: bool)
    decreases l
  {
    l.Listed? && exists i :: 0 <= i < |l.items| && ItemReaches(l.items[i], names, includeHidden, toDir)
  }

  /** `line`, printed for a listing at `path` whose entries sit at
      `depth`, is the line of the entry reached through `names`: it is
      indented by one level per name, a directory line shows the path
      descended through `names`, and a file line shows the last name. */
  predicate LineOf(path: string, depth: nat, line: Line, names: seq<string>)
  {
    && line.depth >= depth
    && |names| == line.depth - depth + 1
    && (line.DirLine? ==> line.shown == StripDotSlash(DescendPath(path, names)))
    && (line.FileLine? ==> line.name == names[|names| - 1])
  }

  /** Every line printed for a listing is the line of a shown entry
      reached from it through as many names as its indentation says. */
  lemma {:induction false} ListingRoutes(path: string, depth: nat, l: Listing, includeHidden: bool)
    ensures forall line :: line in ListingLines(path, depth, l, includeHidden) ==>
              exists names :: LineOf(path, depth, line, names) && ListingReaches(l, names, includeHidden, line.DirLine?)
    decreases l
  {
    match l
    case ListError =>
    case Listed(items) => ItemsRoutes(path, depth, items, includeHidden);
  }

  lemma {:induction false} ItemsRoutes(path: string, depth: nat, items: seq<Item>, includeHidden: bool)
    ensures forall line :: line in ItemsLines(path, depth, items, includeHidden) ==>
              exists names :: LineOf(path, depth, line, names) && ListingReaches(Listed(items), names, includeHidden, line.DirLine?)
    decreases items
  {
    if items != [] {
      ItemRoutes(path, depth, items[0], includeHidden);
      ItemsRoutes(path, depth, items[1..], includeHidden);
      forall line | line in ItemsLines(path, depth, items, includeHidden)
        ensures exists names :: LineOf(path, depth, line, names) && ListingReaches(Listed(items), names, includeHidden, line.DirLine?)
      {
        if line in ItemLines(path, depth, items[0], includeHidden) {
          var names :| LineOf(path, depth, line, names) && ItemReaches(items[0], names, includeHidden, line.DirLine?);
          assert ListingReaches(Listed(items), names, includeHidden, line.DirLine?);
        } else {
          assert line in ItemsLines(path, depth, items[1..], includeHidden);
          var names :| LineOf(path, depth, line, names) && ListingReaches(Listed(items[1..]), names, includeHidden, line.DirLine?);
          var i :| 0 <= i < |items[1..]| && ItemReaches(items[1..][i], names, includeHidden, line.DirLine?);
          assert items[i + 1] == items[1..][i];
          assert ListingReaches(Listed(items), names, includeHidden, line.DirLine?);
        }
      }
    }
  }

  lemma {:induction false} ItemRoutes(path: string, depth: nat, item: Item, includeHidden: bool)
    ensures forall line :: line in ItemLines(path, depth, item, includeHidden) ==>
              exists names :: LineOf(path, depth, line, names) && ItemReaches(item, names, includeHidden, line.DirLine?)
    decreases item
  {
    match item
    case Yielded(DirEntry(name, Typed(Directory(contents)))) =>
      if Shown(name, includeHidden) {
        var child := ChildPath(path, name);
        var sub := ListingLines(child, depth + 1, contents, includeHidden);
        ListingRoutes(child, depth + 1, contents, includeHidden);
        assert DescendPath(path, [name]) == child by {
          assert [name][..0] == [];
        }
        forall line | line in ItemLines(path, depth, item, includeHidden)
          ensures exists names :: LineOf(path, depth, line, names) && ItemReaches(item, names, includeHidden, line.DirLine?)
        {
          if line == DirLine(depth, Label(path, name)) {
            assert LineOf(path, depth, line, [name]) && ItemReaches(item, [name], includeHidden, true);
          } else {
            assert line in sub;
            var rest :| LineOf(child, depth + 1, line, rest) && ListingReaches(contents, rest, includeHidden, line.DirLine?);
            var names := [name] + rest;
            DescendPathCons(path, name, rest);
            assert names[1..] == rest;
            assert LineOf(path, depth, line, names);
            assert ItemReaches(item, names, includeHidden, line.DirLine?);
          }
        }
      }
    case Yielded(DirEntry(name, Typed(RegularFile))) =>
      if Shown(name, includeHidden) {
        var line := FileLine(depth, name);
        assert LineOf(path, depth, line, [name]) && ItemReaches(item, [name], includeHidden, false);
      }
    case _ =>
  }

  /** Every directory in the tree has a plain name (see `PlainName`). */
  predicate PlainDirs(l: Listing)
    decreases l
  {
    match l
    case ListError => true
    case Listed(items) => forall i :: 0 <= i < |items| ==> PlainDirItem(items[i])
  }

  predicate PlainDirItem(item: Item)
    decreases item
  {
    match item
    case Yielded(DirEntry(name, Typed(Directory(contents)))) => PlainName(name) && PlainDirs(contents)
    case _ => true
  }

  lemma {:induction false} ReachedDirNamesPlain(l: Listing, names: seq<string>, includeHidden: bool)
    requires PlainDirs(l) && ListingReaches(l, names, includeHidden, true)
    ensures forall i :: 0 <= i < |names| ==> PlainName(names[i])
    decreases l
  {
    var i :| 0 <= i < |l.items| && ItemReaches(l.items[i], names, includeHidden, true);
    ItemReachedDirNamesPlain(l.items[i], names, includeHidden);
  }

  lemma {:induction false} ItemReachedDirNamesPlain(item: Item, names: seq<string>, includeHidden: bool)
    requires PlainDirItem(item) && ItemReaches(item, names, includeHidden, true)
    ensures forall i :: 0 <= i < |names| ==> PlainName(names[i])
    decreases item
  {
    var kind := item.entry.fileType.kind;
    if |names| > 1 {
      ReachedDirNamesPlain(kind.contents, names[1..], includeHidden);
      forall i | 0 <= i < |names|
        ensures PlainName(names[i])
      {
        if i > 0 {
          assert names[i] == names[1..][i - 1];
        }
      }
    }
  }

  /** With the default target `.` and plain directory names, a directory
      line at depth k shows the k names of the directories leading to it,
      joined by `/`. */
  lemma DotTargetLabels(root: Listing, includeHidden: bool)
    requires PlainDirs(root)
    ensures forall line :: line in ListingLines(".", 1, root, includeHidden) && line.DirLine? ==>
              exists names :: names != [] && |names| == line.depth && line.shown == Joined(names)
                           && ListingReaches(root, names, includeHidden, true)
  {
    ListingRoutes(".", 1, root, includeHidden);
    forall line | line in ListingLines(".", 1, root, includeHidden) && line.DirLine?
      ensures exists names :: names != [] && |names| == line.depth && line.shown == Joined(names)
                           && ListingReaches(root, names, includeHidden, true)
    {
      var names :| LineOf(".", 1, line, names) && ListingReaches(root, names, includeHidden, line.DirLine?);
      ReachedDirNamesPlain(root, names, includeHidden);
      DotRootLabel(names);
    }
  }
}
