/** The context-menu extension: which menu items a selection gets, what each item is
    bound to, and what activating an item does (remember one file, or build the shell
    command that launches the comparator). */
module NautilusCompare {
  import opened Wrappers

  /** The file types the host reports for a selected file. */
  datatype FileType = Unknown | Regular | Directory | SymbolicLink | Special | Shortcut | Mountable

  /** What the extension asks of a selected file object: its URI scheme, its type, its URI. */
  datatype FileInfo = FileInfo(scheme: string, fileType: FileType, uri: string)

  /** A menu item, with the path list its `activate` handler is bound to. */
  datatype MenuItem = MenuItem(name: string, labelText: string, tip: string, args: seq<string>)

  const COMPARE_TO := "NautilusCompareExtension::CompareTo"
  const COMPARE_LATER := "NautilusCompareExtension::CompareLater"
  const COMPARE_WITHIN := "NautilusCompareExtension::CompareWithin"

  /** A local file, directory or symbolic link. */
  predicate ValidFile(f: FileInfo)
  {
    f.scheme == "file" && f.fileType in {Directory, Regular, SymbolicLink}
  }

  /** The path of a file: its URI without the seven characters of `file://`
      (Python slicing gives "" for a shorter URI). */
  function PathOf(f: FileInfo): string
  {
    if |f.uri| >= 7 then f.uri[7..] else ""
  }

  /** The paths of the valid files of a selection, in selection order. */
  function ValidPaths(files: seq<FileInfo>): (paths: seq<string>)
    ensures |paths| <= |files|
  {
    if files == [] then []
    else (if ValidFile(files[0]) then [PathOf(files[0])] else []) + ValidPaths(files[1..])
  }

  /** A path is kept iff it is the path of a valid file of the selection. */
  lemma {:induction false} ValidPathsMembers(files: seq<FileInfo>, p: string)
    ensures p in ValidPaths(files) <==> exists f :: f in files && ValidFile(f) && PathOf(f) == p
    decreases |files|
  {
    if files != [] {
      ValidPathsMembers(files[1..], p);
      assert forall f :: f in files <==> f == files[0] || f in files[1..];
    }
  }

  /** Filtering distributes over concatenation: the valid files keep their order. */
  lemma {:induction false} ValidPathsConcat(a: seq<FileInfo>, b: seq<FileInfo>)
    ensures ValidPaths(a + b) == ValidPaths(a) + ValidPaths(b)
    decreases |a|
  {
    if a == [] {
      assert a + b == b;
    } else {
      ValidPathsConcat(a[1..], b);
      var head := if ValidFile(a[0]) then [PathOf(a[0])] else [];
      assert (a + b)[0] == a[0] && (a + b)[1..] == a[1..] + b;
      assert ValidPaths(a + b) == head + ValidPaths(a[1..] + b);
      assert ValidPaths(a) == head + ValidPaths(a[1..]);
    }
  }

  /** A selection of valid files only gives every path, in order. */
  lemma {:induction false} ValidPathsAllValid(files: seq<FileInfo>)
    requires forall f :: f in files ==> ValidFile(f)
    ensures ValidPaths(files) == seq(|files|, k requires 0 <= k < |files| => PathOf(files[k]))
    decreases |files|
  {
    if files != [] {
      ValidPathsAllValid(files[1..]);
    }
  }

  function CompareToItem(remembered: string, args: seq<string>): MenuItem
  {
    MenuItem(COMPARE_TO, "Compare to " + remembered, "Compare to the file remembered before", args)
  }

  function CompareLaterItem(args: seq<string>): MenuItem
  {
    MenuItem(COMPARE_LATER, "Compare later", "Remember file for later comparison", args)
  }

  function CompareWithinItem(args: seq<string>): MenuItem
  {
    MenuItem(COMPARE_WITHIN, "Compare", "Compare selected files", args)
  }

  /** The first occurrence of `x` removed, as Python's `list.remove`. */
  function RemoveFirst<T(==)>(s: seq<T>, x: T): (r: seq<T>)
    requires x in s
    ensures |r| == |s| - 1
  {
    if s[0] == x then s[1..] else [s[0]] + RemoveFirst(s[1..], x)
  }

  /** What `for item in items: if item is None: items.remove(item)` leaves, once the
      loop's position has reached `i`: Python's list iterator moves on by one index
      after every step, also after a removal shifted the rest of the list left. */
  function RemoveNoneWhileIterating(items: seq<Option<MenuItem>>, i: nat): (r: seq<Option<MenuItem>>)
    ensures |r| <= |items|
    decreases |items| - i
  {
    if i >= |items| then items
    else if items[i].None? then RemoveNoneWhileIterating(RemoveFirst(items, None), i + 1)
    else RemoveNoneWhileIterating(items, i + 1)
  }

  /** On the two-element list the extension builds, the loop keeps the present items in
      order when at least one is present; from `[None, None]` it leaves `[None]`. */
  lemma RemoveNonePair(a: Option<MenuItem>, b: Option<MenuItem>)
    ensures RemoveNoneWhileIterating([a, b], 0)
         == if a.None? && b.None? then [None]
            else (if a.Some? then [a] else []) + (if b.Some? then [b] else [])
  {
    if a.None? {
      assert RemoveFirst([a, b], None) == [b];
      assert RemoveNoneWhileIterating([b], 1) == [b];
    } else if b.None? {
      assert RemoveNoneWhileIterating([a, b], 0) == RemoveNoneWhileIterating([a, b], 1);
      assert RemoveFirst([b], None) == [];
      assert RemoveFirst([a, b], None) == [a] + RemoveFirst([b], None) == [a];
      assert RemoveNoneWhileIterating([a, b], 1) == RemoveNoneWhileIterating([a], 2);
      assert RemoveNoneWhileIterating([a], 2) == [a];
    } else {
      assert RemoveNoneWhileIterating([a, b], 0) == RemoveNoneWhileIterating([a, b], 1);
      assert RemoveNoneWhileIterating([a, b], 1) == RemoveNoneWhileIterating([a, b], 2);
    }
  }

  /** The None-removal loop at the end of `get_file_items`. */
  method RemoveNoneItems(items: seq<Option<MenuItem>>) returns (r: seq<Option<MenuItem>>)
    ensures r == RemoveNoneWhileIterating(items, 0)
    ensures |items| == 2 && (items[0].Some? || items[1].Some?) ==>
              r == (if items[0].Some? then [items[0]] else []) + (if items[1].Some? then [items[1]] else [])
  {
    r := items;
    var i := 0;
    while i < |r|
      invariant RemoveNoneWhileIterating(r, i) == RemoveNoneWhileIterating(items, 0)
      decreases |r| - i
    {
      if r[i].None? {
        r := RemoveFirst(r, None);
      }
      i := i + 1;
    }
    if |items| == 2 {
      assert items == [items[0], items[1]];
      RemoveNonePair(items[0], items[1]);
    }
  }

  /** The values of a list without `None`. */
  function Values(s: seq<Option<MenuItem>>): (r: seq<MenuItem>)
    requires forall k :: 0 <= k < |s| ==> s[k].Some?
    ensures |r| == |s| && forall k :: 0 <= k < |s| ==> s[k] == Some(r[k])
  {
    seq(|s|, k requires 0 <= k < |s| => s[k].value)
  }

  /** One quoted shell argument followed by a blank. */
  function Quote(p: string): string
  {
    "\"" + p + "\" "
  }

  /** The quoted arguments of `paths`, in order. */
  function QuotedArgs(paths: seq<string>): string
  {
    if paths == [] then "" else Quote(paths[0]) + QuotedArgs(paths[1..])
  }

  /** The shell command handed to `os.system`. */
  function CommandLine(paths: seq<string>): string
  {
    "meld " + QuotedArgs(paths) + "&"
  }

  lemma {:induction false} QuotedArgsAppend(paths: seq<string>, p: string)
    ensures QuotedArgs(paths + [p]) == QuotedArgs(paths) + Quote(p)
    decreases |paths|
  {
    if paths != [] {
      assert (paths + [p])[1..] == paths[1..] + [p];
      QuotedArgsAppend(paths[1..], p);
    }
  }

  /** The args of the comparator command, built by the loop of `_open_comparator`. */
  method BuildCommand(paths: seq<string>) returns (cmd: string)
    ensures cmd == CommandLine(paths)
  {
    var args := "";
    for i := 0 to |paths|
      invariant args == QuotedArgs(paths[..i])
    {
      assert paths[..i + 1] == paths[..i] + [paths[i]];
      QuotedArgsAppend(paths[..i], paths[i]);
      args := args + "\"" + paths[i] + "\" ";
    }
    assert paths[..|paths|] == paths;
    cmd := "meld " + args + "&";
  }

  /** The index of the first `"` at or after `from`, or `|s|` if there is none. */
  function NextQuote(s: string, from: nat): (k: nat)
    requires from <= |s|
    ensures from <= k <= |s|
    ensures k < |s| ==> s[k] == '"'
    ensures forall j :: from <= j < k ==> s[j] != '"'
    decreases |s| - from
  {
    if from == |s| || s[from] == '"' then from else NextQuote(s, from + 1)
  }

  /** Reads back a list of arguments written as `"p" ` each: the tokenisation of the
      argument string, up to the first closing quote of each argument. */
  function ParseArgs(s: string): Option<seq<string>>
    decreases |s|
  {
    if s == [] then Some([])
    else if s[0] != '"' then None
    else
      var k := NextQuote(s, 1);
      if k + 1 >= |s| || s[k + 1] != ' ' then None
      else match ParseArgs(s[k + 2..])
        case None => None
        case Some(rest) => Some([s[1..k]] + rest)
  }

  /** Reads back the paths of a command of the shape `meld <args>&`. */
  function ParseCommand(cmd: string): Option<seq<string>>
  {
    if |cmd| >= 6 && cmd[..5] == "meld " && cmd[|cmd| - 1] == '&' then ParseArgs(cmd[5..|cmd| - 1])
    else None
  }

  predicate NoQuoteChar(paths: seq<string>)
  {
    forall i :: 0 <= i < |paths| ==> '"' !in paths[i]
  }

  /** Reading one quoted argument: a path without `"` ends at the next quote. */
  lemma ParseQuote(p: string, rest: string)
    requires '"' !in p
    ensures ParseArgs(Quote(p) + rest)
         == match ParseArgs(rest) case None => None case Some(r) => Some([p] + r)
  {
    var s := Quote(p) + rest;
    assert s[0] == '"';
    forall j | 1 <= j < 1 + |p|
      ensures s[j] != '"'
    {
      assert s[j] == p[j - 1];
    }
    assert s[1 + |p|] == '"';
    NextQuoteAt(s, 1, 1 + |p|);
    assert s[1..1 + |p|] == p;
    assert s[|p| + 2] == ' ';
    assert s[|p| + 3..] == rest;
  }

  lemma {:induction false} ParseQuotedArgs(paths: seq<string>)
    requires NoQuoteChar(paths)
    ensures ParseArgs(QuotedArgs(paths)) == Some(paths)
    decreases |paths|
  {
    if paths != [] {
      assert NoQuoteChar(paths[1..]) by {
        forall i | 0 <= i < |paths[1..]| ensures '"' !in paths[1..][i] { assert paths[1..][i] == paths[i + 1]; }
      }
      ParseQuotedArgs(paths[1..]);
      ParseQuote(paths[0], QuotedArgs(paths[1..]));
      assert paths == [paths[0]] + paths[1..];
    }
  }

  lemma {:induction false} NextQuoteAt(s: string, from: nat, k: nat)
    requires from <= k < |s| && s[k] == '"'
    requires forall j :: from <= j < k ==> s[j] != '"'
    ensures NextQuote(s, from) == k
    decreases k - from
  {
    if from < k {
      NextQuoteAt(s, from + 1, k);
    }
  }

  /** The command string gives the paths back, in order, when no path contains a `"`. */
  lemma CommandLineRoundTrip(paths: seq<string>)
    requires NoQuoteChar(paths)
    ensures ParseCommand(CommandLine(paths)) == Some(paths)
  {
    var cmd := CommandLine(paths);
    assert cmd[..5] == "meld ";
    assert cmd[5..|cmd| - 1] == QuotedArgs(paths);
    ParseQuotedArgs(paths);
  }

  /** Without that condition the quoting cannot tell the paths apart: the single path
      `a" "b` and the two paths `a`, `b` give the same command. */
  lemma CommandLineNotInjective()
    ensures CommandLine(["a\" \"b"]) == CommandLine(["a", "b"])
  {
  }

  /** The loop at the start of `get_file_items`: the paths of the valid files, in order. */
  method CollectPaths(files: seq<FileInfo>) returns (paths: seq<string>)
    ensures paths == ValidPaths(files)
  {
    paths := [];
    for i := 0 to |files|
      invariant paths == ValidPaths(files[..i])
    {
      assert files[..i + 1] == files[..i] + [files[i]];
      ValidPathsConcat(files[..i], [files[i]]);
      if ValidFile(files[i]) {
        paths := paths + [PathOf(files[i])];
      }
    }
    assert files[..|files|] == files;
  }

  /** The extension object. `forLater` is the file remembered for a later comparison. */
  class NautilusCompareExtension {
    var forLater: Option<string>

    constructor ()
      ensures forLater == None
    {
      forLater := None;
    }

    /** `_open_comparator`: one path is remembered; any other list gives the shell
        command that launches the comparator (returned here instead of run). */
    method Activate(paths: seq<string>) returns (cmd: Option<string>)
      modifies this
      ensures |paths| == 1 ==> forLater == Some(paths[0]) && cmd == None
      ensures |paths| != 1 ==> forLater == old(forLater) && cmd == Some(CommandLine(paths))
    {
      if |paths| == 1 {
        forLater := Some(paths[0]);
        return None;
      }
      var c := BuildCommand(paths);
      cmd := Some(c);
    }

    /** `menu_activate_cb`: the handler receives the path list bound to the item. */
    method MenuActivate(item: MenuItem) returns (cmd: Option<string>)
      modifies this
      ensures |item.args| == 1 ==> forLater == Some(item.args[0]) && cmd == None
      ensures |item.args| != 1 ==> forLater == old(forLater) && cmd == Some(CommandLine(item.args))
    {
      cmd := Activate(item.args);
    }

    /** `get_file_items`: `None` for a selection without valid files, otherwise the items
        offered, each bound to its path list. It does not change `forLater`. */
    method GetFileItems(files: seq<FileInfo>) returns (r: Option<seq<MenuItem>>)
      ensures r == None <==> ValidPaths(files) == []
      ensures |ValidPaths(files)| == 1 && (forLater == None || forLater == Some(ValidPaths(files)[0])) ==>
                r == Some([CompareLaterItem(ValidPaths(files))])
      ensures |ValidPaths(files)| == 1 && forLater.Some? && forLater.value != ValidPaths(files)[0] ==>
                r == Some([CompareToItem(forLater.value, [forLater.value, ValidPaths(files)[0]]),
                           CompareLaterItem(ValidPaths(files))])
      ensures |ValidPaths(files)| >= 2 ==> r == Some([CompareWithinItem(ValidPaths(files))])
    {
      var paths := CollectPaths(files);
      ghost var selected := paths;

      if |paths| < 1 {
        return None;
      }

      var item1: Option<MenuItem> := None;
      var item2: Option<MenuItem> := None;

      if |paths| == 1 {
        if forLater != None {
          // no comparison of a file with itself
          if paths[0] != forLater.value {
            item1 := Some(CompareToItem(forLater.value, []));
            paths := [forLater.value] + paths;
          }
        }
        item2 := Some(CompareLaterItem([]));
      } else {
        item1 := Some(CompareWithinItem([]));
      }

      // connecting the handlers binds the path lists
      if item1.Some? {
        item1 := Some(item1.value.(args := paths));
      }
      if item2.Some? {
        item2 := Some(item2.value.(args := [paths[|paths| - 1]]));
      }

      var items := RemoveNoneItems([item1, item2]);
      assert [item1, item2][0] == item1 && [item1, item2][1] == item2;
      r := Some(Values(items));
      if |selected| == 1 {
        assert selected == [selected[0]];
        assert paths[|paths| - 1] == selected[0];
        assert item2 == Some(CompareLaterItem(selected));
        if forLater.Some? && forLater.value != selected[0] {
          assert paths == [forLater.value] + selected == [forLater.value, selected[0]];
          assert item1 == Some(CompareToItem(forLater.value, [forLater.value, selected[0]]));
          assert Values(items) == [item1.value, item2.value];
        } else {
          assert item1 == None;
          assert Values(items) == [item2.value];
        }
      } else {
        assert item1 == Some(CompareWithinItem(selected)) && item2 == None;
        assert Values(items) == [item1.value];
      }
    }
  }

  /** A session: "Compare later" on one file, then "Compare to" on another, launches the
      comparator on the remembered file and the new one, in that order. */
  method RememberThenCompare(first: FileInfo, second: FileInfo) returns (cmd: Option<string>)
    requires ValidFile(first) && ValidFile(second) && PathOf(first) != PathOf(second)
    ensures cmd == Some(CommandLine([PathOf(first), PathOf(second)]))
  {
    var ext := new NautilusCompareExtension();
    assert ValidPaths([first]) == [PathOf(first)];
    var menu := ext.GetFileItems([first]);
    var later := ext.MenuActivate(menu.value[0]);
    assert ValidPaths([second]) == [PathOf(second)];
    var menu2 := ext.GetFileItems([second]);
    cmd := ext.MenuActivate(menu2.value[0]);
  }
}
