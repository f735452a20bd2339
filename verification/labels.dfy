/** How a directory line's label is formed: the walker joins the parent
    path and the entry name with `/`, and the label is that joined path
    with every occurrence of `./` removed. */
module Labels {
  import opened Seqs

  /** `format!("{}/{}", path, name)`: the path the walker descends into. */
  function ChildPath(path: string, name: string): string
  {
    path + "/" + name
  }

  /** `s.replace("./", "")`: a left-to-right scan that removes each
      non-overlapping occurrence of `./`. */
  function StripDotSlash(s: string): (r: string)
    ensures |r| <= |s|
  {
    if |s| < 2 then s
    else if s[0] == '.' && s[1] == '/' then StripDotSlash(s[2..])
    else [s[0]] + StripDotSlash(s[1..])
  }

  /** The label shown for directory `name` listed under `path`. */
  function Label(path: string, name: string): string
  {
    StripDotSlash(ChildPath(path, name))
  }

  predicate HasDotSlash(s: string)
  {
    exists i :: 0 <= i < |s| - 1 && s[i] == '.' && s[i + 1] == '/'
  }

  /** The replacement leaves a text unchanged exactly when the text holds
      no `./`; otherwise it makes the text shorter. */
  lemma {:induction false} StripUnchangedIff(s: string)
    ensures StripDotSlash(s) == s <==> !HasDotSlash(s)
    ensures HasDotSlash(s) ==> |StripDotSlash(s)| < |s|
  {
    if |s| < 2 {
    } else if s[0] == '.' && s[1] == '/' {
      assert |StripDotSlash(s)| < |s|;
    } else {
      var t := s[1..];
      StripUnchangedIff(t);
      assert HasDotSlash(s) <==> HasDotSlash(t) by {
        if HasDotSlash(s) {
          var i :| 0 <= i < |s| - 1 && s[i] == '.' && s[i + 1] == '/';
          assert i > 0;
          assert t[i - 1] == '.' && t[i] == '/';
        }
        if HasDotSlash(t) {
          var i :| 0 <= i < |t| - 1 && t[i] == '.' && t[i + 1] == '/';
          assert s[i + 1] == '.' && s[i + 2] == '/';
        }
      }
      assert StripDotSlash(s) == s <==> StripDotSlash(t) == t by {
        assert StripDotSlash(s) == [s[0]] + StripDotSlash(t);
        assert s == [s[0]] + t;
      }
    }
  }

  /** A character that does not start `./` is kept. */
  lemma StripKeep(c: char, t: string)
    requires c != '.' || t == [] || t[0] != '/'
    ensures StripDotSlash([c] + t) == [c] + StripDotSlash(t)
  {
    assert ([c] + t)[1..] == t;
    if t == [] {
      assert [c] + t == [c];
    }
  }

  /** A leading `./` is dropped. */
  lemma StripDrop(t: string)
    ensures StripDotSlash("./" + t) == StripDotSlash(t)
  {
    assert ("./" + t)[2..] == t;
  }

  /** The scan over `a` ends on a boundary unless `a` ends with a dot, so
      the removal can then be done piecewise. */
  lemma {:induction false} StripAppend(a: string, b: string)
    requires a == [] || a[|a| - 1] != '.'
    ensures StripDotSlash(a + b) == StripDotSlash(a) + StripDotSlash(b)
  {
    var s := a + b;
    if a == [] {
      assert s == b;
    } else if |a| >= 2 && a[0] == '.' && a[1] == '/' {
      assert s[0] == '.' && s[1] == '/';
      assert s[2..] == a[2..] + b;
      StripAppend(a[2..], b);
    } else {
      assert |a| == 1 ==> a[0] != '.';
      assert |s| >= 2 ==> !(s[0] == '.' && s[1] == '/');
      assert s[1..] == a[1..] + b;
      StripAppend(a[1..], b);
      if |a| == 1 {
        assert StripDotSlash(a) == a && a[1..] == [];
      }
    }
  }

  /** The path the walker reaches by descending through `names` in turn
      from `root`. */
  function DescendPath(root: string, names: seq<string>): string
  {
    if names == [] then root else ChildPath(DescendPath(root, names[..|names| - 1]), names[|names| - 1])
  }

  /** Descending into `name` first and then through `names` reaches the
      path that descending through `[name] + names` does. */
  lemma {:induction false} DescendPathCons(root: string, name: string, names: seq<string>)
    ensures DescendPath(ChildPath(root, name), names) == DescendPath(root, [name] + names)
  {
    var all := [name] + names;
    if names == [] {
      assert all[..0] == [];
    } else {
      var init := names[..|names| - 1];
      DescendPathCons(root, name, init);
      assert all[..|all| - 1] == [name] + init;
      assert all[|all| - 1] == names[|names| - 1];
    }
  }

  /** `names` joined by `/`. */
  function Joined(names: seq<string>): string
    requires names != []
  {
    if |names| == 1 then names[0] else Joined(names[..|names| - 1]) + "/" + names[|names| - 1]
  }

  /** A name as `read_dir` can yield it and the walker prints it intact:
      not empty, no slash, not ending in a dot. */
  predicate PlainName(name: string)
  {
    name != [] && '/' !in name && name[|name| - 1] != '.'
  }

  lemma {:induction false} PlainNameUnchanged(name: string)
    requires '/' !in name
    ensures StripDotSlash(name) == name
    ensures StripDotSlash("/" + name) == "/" + name
  {
    StripUnchangedIff(name);
    assert !HasDotSlash(name);
    StripAppend("/", name);
  }

  /** With the default target `.`, a directory reached through plain
      names is labelled by those names joined by `/`: the root `.` and
      its separator disappear. */
  lemma {:induction false} DotRootLabel(names: seq<string>)
    requires names != []
    requires forall i :: 0 <= i < |names| ==> PlainName(names[i])
    ensures StripDotSlash(DescendPath(".", names)) == Joined(names)
  {
    var n := names[|names| - 1];
    var init := names[..|names| - 1];
    assert init == [] ==> names == [n];
    PlainNameUnchanged(n);
    if init == [] {
      assert DescendPath(".", names) == "./" + n;
      StripDrop(n);
    } else {
      var a := DescendPath(".", init);
      DotRootLabel(init);
      DescendPathLast(".", init);
      AppendAssoc(a, "/", n);
      StripAppend(a, "/" + n);
      AppendAssoc(Joined(init), "/", n);
    }
  }

  /** Descending never alters the path walked so far: it only appends. */
  lemma {:induction false} DescendPathExtends(root: string, names: seq<string>)
    ensures |root| <= |DescendPath(root, names)|
    ensures DescendPath(root, names)[..|root|] == root
  {
    if names != [] {
      var init := names[..|names| - 1];
      DescendPathExtends(root, init);
      var p := DescendPath(root, init);
      assert DescendPath(root, names) == p + "/" + names[|names| - 1];
    }
  }

  /** A target that holds no `./` and does not end in a dot is kept whole
      at the front of every label below it, whatever the names are. */
  lemma RootKept(root: string, names: seq<string>)
    requires root == [] || root[|root| - 1] != '.'
    requires !HasDotSlash(root)
    ensures |root| <= |StripDotSlash(DescendPath(root, names))|
    ensures StripDotSlash(DescendPath(root, names))[..|root|] == root
  {
    var p := DescendPath(root, names);
    DescendPathExtends(root, names);
    var rest := p[|root|..];
    assert p == root + rest;
    StripAppend(root, rest);
    StripUnchangedIff(root);
  }

  /** Below plain names (no `/`, not ending in a dot), a target that holds
      no `./` and does not end in a dot leaves the whole joined path as the
      label. */
  lemma {:induction false} PlainRootLabel(root: string, names: seq<string>)
    requires root != [] && root[|root| - 1] != '.' && !HasDotSlash(root)
    requires forall i :: 0 <= i < |names| ==> PlainName(names[i])
    ensures StripDotSlash(DescendPath(root, names)) == DescendPath(root, names)
  {
    if names == [] {
      StripUnchangedIff(root);
    } else {
      var n := names[|names| - 1];
      var init := names[..|names| - 1];
      var a := DescendPath(root, init);
      PlainRootLabel(root, init);
      PlainNameUnchanged(n);
      if init != [] {
        DescendPathLast(root, init);
      }
      assert DescendPath(root, names) == a + ("/" + n);
      StripAppend(a, "/" + n);
    }
  }

  lemma DescendPathLast(root: string, names: seq<string>)
    requires names != []
    requires forall i :: 0 <= i < |names| ==> PlainName(names[i])
    ensures DescendPath(root, names) != []
    ensures DescendPath(root, names)[|DescendPath(root, names)| - 1] != '.'
  {
    var n := names[|names| - 1];
    assert PlainName(n);
    var p := DescendPath(root, names);
    assert p == DescendPath(root, names[..|names| - 1]) + "/" + n;
    assert p[|p| - 1] == n[|n| - 1];
  }

  /** Every `./` is removed, not only the leading one. Below a target
      `../p` the separator after `..` goes, so `../proj` shows its
      subdirectory `b` as `.proj/b`. */
  lemma ParentTargetLabel(p: string, name: string)
    requires !HasDotSlash(ChildPath(p, name))
    ensures Label("../" + p, name) == "." + p + "/" + name
  {
    var t := ChildPath(p, name);
    assert ChildPath("../" + p, name) == ['.'] + ("./" + t);
    StripKeep('.', "./" + t);
    StripDrop(t);
    StripUnchangedIff(t);
  }

  /** A directory whose path ends in a dot loses the slash that follows
      it in the labels of its subdirectories: `v2.` shows `b` as `v2b`. */
  lemma DottedNameLabel(stem: string, name: string)
    requires stem == [] || stem[|stem| - 1] != '.'
    requires !HasDotSlash(stem) && !HasDotSlash(name)
    ensures Label(stem + ".", name) == stem + name
  {
    assert ChildPath(stem + ".", name) == stem + ("./" + name);
    StripAppend(stem, "./" + name);
    StripDrop(name);
    StripUnchangedIff(stem);
    StripUnchangedIff(name);
  }
}
