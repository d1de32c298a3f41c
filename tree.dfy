/**
 * `tree_generator.py`: the project tree printed with box-drawing pointers
 * and file-type icons.  The file system is an in-memory tree: a directory
 * whose listing raises `PermissionError` or another error carries that
 * outcome instead of its entries; entries come in the arbitrary order of
 * `iterdir`.  The output is the sequence of lines printed (and written).
 */
module Tree {
  import opened Text

  /** What listing a directory gives. */
  datatype Contents = Readable(items: seq<Node>) | Denied | Failed(message: string)

  /** A directory entry: `is_dir()`, `is_file()`, or neither (a broken link, a socket). */
  datatype Node = Directory(name: string, contents: Contents) | RegularFile(name: string) | Special(name: string)

  const FolderIcon: string := "📁"
  const DefaultFileIcon: string := "📄"

  const FileIcons: map<string, string> := map[
    ".py" := "🐍", ".pyi" := "🐍", ".pyx" := "🐍",
    ".html" := "🌐", ".htm" := "🌐", ".css" := "🎨", ".js" := "📜", ".ts" := "📘",
    ".jsx" := "⚛️", ".tsx" := "⚛️", ".json" := "📋", ".xml" := "📄",
    ".csv" := "📊", ".xlsx" := "📈", ".xls" := "📈", ".sql" := "🗃️", ".db" := "🗃️",
    ".sqlite" := "🗃️", ".sqlite3" := "🗃️",
    ".md" := "📝", ".txt" := "📄", ".pdf" := "📕", ".doc" := "📘", ".docx" := "📘", ".rtf" := "📄",
    ".png" := "🖼️", ".jpg" := "🖼️", ".jpeg" := "🖼️", ".gif" := "🖼️", ".svg" := "🎨", ".ico" := "🎯",
    ".zip" := "📦", ".rar" := "📦", ".7z" := "📦", ".tar" := "📦", ".gz" := "📦",
    ".yaml" := "⚙️", ".yml" := "⚙️", ".toml" := "⚙️", ".ini" := "⚙️", ".cfg" := "⚙️", ".conf" := "⚙️",
    ".env" := "🔐",
    ".c" := "💾", ".cpp" := "💾", ".h" := "💾", ".java" := "☕", ".cs" := "🔷", ".php" := "🐘",
    ".rb" := "💎", ".go" := "🐹", ".rs" := "🦀", ".swift" := "🦉", ".kt" := "🎯",
    ".log" := "📋", ".lock" := "🔒", ".bin" := "⚙️", ".exe" := "⚡", ".msi" := "⚡", ".bat" := "⚡",
    ".ps1" := "💙", ".sh" := "🐚"
  ]

  const ExcludeDirs: set<string> := {
    "__pycache__", ".git", ".vscode", ".idea", "kariyer-asistani-env", "build", "dist", "__MACOSX", "logs",
    ".mypy_cache", ".pytest_cache", "node_modules", ".next", ".nuxt", "coverage", ".coverage", ".tox",
    ".env", "tmp", "temp", ".tmp", ".temp"
  }

  const ExcludeExtensions: set<string> := {".pyc", ".log", ".DS_Store", ".db", ".cache", ".pid", ".lock"}

  const ExcludeFiles: set<string> := {
    "tree_generator.py", ".env", ".env.local", ".env.development", ".env.production", "desktop.ini",
    "Thumbs.db", ".gitkeep", "package-lock.json"
  }

  const Tee: string := "├── "
  const Elbow: string := "└── "
  const Pipe: string := "│   "
  const Blank: string := "    "

  // ---------------------------------------------------------------------
  // Names, suffixes and icons.
  // ---------------------------------------------------------------------

  /** The last index below `n` holding a dot. */
  function LastDot(name: string, n: nat): (r: int)
    requires n <= |name|
    ensures -1 <= r < n
    ensures r >= 0 ==> name[r] == '.'
    ensures forall k :: r < k < n ==> name[k] != '.'
  {
    if n == 0 then -1 else if name[n - 1] == '.' then n - 1 else LastDot(name, n - 1)
  }

  /**
   * `Path(name).suffix`: from the last dot on, when that dot is neither the
   * first nor the last character; otherwise empty.
   */
  function Suffix(name: string): (s: string)
    ensures s == [] || (s[0] == '.' && 2 <= |s| < |name| && s == name[|name| - |s|..])
    ensures s != [] ==> '.' !in s[1..]
  {
    var i := LastDot(name, |name|);
    if 0 < i < |name| - 1 then name[i..] else []
  }

  /** A name whose only dot is its first character has no suffix. */
  lemma {:induction false} LeadingDotOnly(name: string)
    requires |name| > 0 && name[0] == '.' && '.' !in name[1..]
    ensures Suffix(name) == []
  {
    forall k | 0 < k < |name|
      ensures name[k] != '.'
    {
      assert name[k] == name[1..][k - 1];
    }
    assert LastDot(name, |name|) == 0 by {
      LastDotAtMost(name, |name|, 0);
    }
  }

  lemma {:induction false} LastDotAtMost(name: string, n: nat, i: nat)
    requires i < n <= |name| && name[i] == '.'
    requires forall k :: i < k < n ==> name[k] != '.'
    ensures LastDot(name, n) == i
  {
    if n - 1 != i {
      LastDotAtMost(name, n - 1, i);
    }
  }

  /** `_get_file_icon`: the icon of the lower-cased suffix, else the default. */
  function FileIcon(name: string): (icon: string)
    ensures Lower(Suffix(name)) in FileIcons ==> icon == FileIcons[Lower(Suffix(name))]
    ensures Lower(Suffix(name)) !in FileIcons ==> icon == DefaultFileIcon
  {
    var ext := Lower(Suffix(name));
    if ext in FileIcons then FileIcons[ext] else DefaultFileIcon
  }

  function Icon(node: Node): string
  {
    if node.Directory? then FolderIcon else FileIcon(node.name)
  }

  // ---------------------------------------------------------------------
  // Ordering: directories first, each group by name.
  // ---------------------------------------------------------------------

  /** Python's `<` on strings: code point by code point, a proper prefix first. */
  predicate NameLess(a: string, b: string)
    decreases |a|
  {
    |b| > 0 && (|a| == 0 || a[0] < b[0] || (a[0] == b[0] && NameLess(a[1..], b[1..])))
  }

  lemma {:induction false} NameLessIrreflexive(a: string)
    ensures !NameLess(a, a)
    decreases |a|
  {
    if |a| > 0 {
      NameLessIrreflexive(a[1..]);
    }
  }

  lemma {:induction false} NameLessTransitive(a: string, b: string, c: string)
    requires NameLess(a, b) && NameLess(b, c)
    ensures NameLess(a, c)
    decreases |a|
  {
    if |a| > 0 && a[0] == b[0] && b[0] == c[0] {
      NameLessTransitive(a[1..], b[1..], c[1..]);
    }
  }

  /** No entry has a smaller name than one before it. */
  predicate ByName(nodes: seq<Node>)
  {
    forall i, j :: 0 <= i < j < |nodes| ==> !NameLess(nodes[j].name, nodes[i].name)
  }

  /** Inserting after every entry whose name is not greater. */
  function InsertByName(x: Node, nodes: seq<Node>): (r: seq<Node>)
    ensures multiset(r) == multiset(nodes) + multiset{x}
  {
    if nodes == [] then [x]
    else if NameLess(x.name, nodes[0].name) then [x] + nodes
    else
      assert nodes == [nodes[0]] + nodes[1..];
      [nodes[0]] + InsertByName(x, nodes[1..])
  }

  lemma {:induction false} InsertByNameOrdered(x: Node, nodes: seq<Node>)
    requires ByName(nodes)
    ensures ByName(InsertByName(x, nodes))
  {
    if nodes == [] {
    } else if NameLess(x.name, nodes[0].name) {
      var r := [x] + nodes;
      forall j | 0 < j < |r|
        ensures !NameLess(r[j].name, x.name)
      {
        if NameLess(r[j].name, x.name) {
          NameLessTransitive(r[j].name, x.name, nodes[0].name);
          if j == 1 {
            NameLessIrreflexive(nodes[0].name);
          }
          assert false;
        }
      }
    } else {
      InsertByNameOrdered(x, nodes[1..]);
      var tail := InsertByName(x, nodes[1..]);
      forall j | 0 <= j < |tail|
        ensures !NameLess(tail[j].name, nodes[0].name)
      {
        assert tail[j] in multiset(tail);
        assert tail[j] == x || tail[j] in nodes[1..];
      }
    }
  }

  /** `sorted(nodes)`: the same entries, ordered by name. */
  function SortedByName(nodes: seq<Node>): (r: seq<Node>)
    ensures multiset(r) == multiset(nodes)
    ensures ByName(r)
  {
    if nodes == [] then []
    else
      assert nodes == [nodes[0]] + nodes[1..];
      var rest := SortedByName(nodes[1..]);
      InsertByNameOrdered(nodes[0], rest);
      InsertByName(nodes[0], rest)
  }

  /** The directories among `nodes`, in order. */
  function Dirs(nodes: seq<Node>): (r: seq<Node>)
    ensures |r| <= |nodes|
    ensures forall k :: 0 <= k < |r| ==> r[k].Directory?
  {
    if nodes == [] then []
    else
      assert nodes == [nodes[0]] + nodes[1..];
      (if nodes[0].Directory? then [nodes[0]] else []) + Dirs(nodes[1..])
  }

  /** The entries that are not directories, in order. */
  function NonDirs(nodes: seq<Node>): (r: seq<Node>)
    ensures |r| <= |nodes|
    ensures forall k :: 0 <= k < |r| ==> !r[k].Directory?
  {
    if nodes == [] then []
    else
      assert nodes == [nodes[0]] + nodes[1..];
      (if nodes[0].Directory? then [] else [nodes[0]]) + NonDirs(nodes[1..])
  }

  /** `_sort_directory_contents` after `iterdir`: the directories by name, then the rest by name. */
  function Arranged(nodes: seq<Node>): (r: seq<Node>)
    ensures multiset(r) == multiset(nodes)
  {
    DirsNonDirsSplit(nodes);
    SortedByName(Dirs(nodes)) + SortedByName(NonDirs(nodes))
  }

  lemma {:induction false} DirsNonDirsSplit(nodes: seq<Node>)
    ensures multiset(Dirs(nodes)) + multiset(NonDirs(nodes)) == multiset(nodes)
  {
    if nodes != [] {
      var t := nodes[1..];
      DirsNonDirsSplit(t);
      assert nodes == [nodes[0]] + t;
      assert multiset(nodes) == multiset{nodes[0]} + multiset(t);
      if nodes[0].Directory? {
        assert Dirs(nodes) == [nodes[0]] + Dirs(t) && NonDirs(nodes) == NonDirs(t);
        assert multiset(Dirs(nodes)) == multiset{nodes[0]} + multiset(Dirs(t));
      } else {
        assert Dirs(nodes) == Dirs(t) && NonDirs(nodes) == [nodes[0]] + NonDirs(t);
        assert multiset(NonDirs(nodes)) == multiset{nodes[0]} + multiset(NonDirs(t));
      }
    }
  }

  /** Sorting keeps each entry's kind: an entry of the sorted sequence is one of the original ones. */
  lemma {:induction false} SortedMember(nodes: seq<Node>, k: nat)
    requires k < |SortedByName(nodes)|
    ensures exists i :: 0 <= i < |nodes| && nodes[i] == SortedByName(nodes)[k]
  {
    var s := SortedByName(nodes);
    assert s[k] in multiset(s);
    assert s[k] in multiset(nodes);
    assert s[k] in nodes;
  }

  /** In the arranged entries the directories are exactly the first group. */
  lemma {:induction false} ArrangedKind(nodes: seq<Node>, k: nat)
    requires k < |Arranged(nodes)|
    ensures Arranged(nodes)[k].Directory? <==> k < |SortedByName(Dirs(nodes))|
  {
    var d, f := SortedByName(Dirs(nodes)), SortedByName(NonDirs(nodes));
    var r := d + f;
    if k < |d| {
      assert r[k] == d[k];
      SortedMember(Dirs(nodes), k);
    } else {
      assert r[k] == f[k - |d|];
      SortedMember(NonDirs(nodes), k - |d|);
    }
  }

  /** Every directory comes before every other entry, and each group is ordered by name. */
  lemma {:induction false} ArrangedDirsFirst(nodes: seq<Node>, i: nat, j: nat)
    requires i < j < |Arranged(nodes)|
    ensures Arranged(nodes)[j].Directory? ==> Arranged(nodes)[i].Directory?
    ensures Arranged(nodes)[i].Directory? == Arranged(nodes)[j].Directory? ==>
            !NameLess(Arranged(nodes)[j].name, Arranged(nodes)[i].name)
  {
    var d, f := SortedByName(Dirs(nodes)), SortedByName(NonDirs(nodes));
    var r := d + f;
    ArrangedKind(nodes, i);
    ArrangedKind(nodes, j);
    if j < |d| {
      assert r[i] == d[i] && r[j] == d[j];
    } else if |d| <= i {
      assert r[i] == f[i - |d|] && r[j] == f[j - |d|];
    }
  }

  /** `_sort_directory_contents`: splits the entries in listing order, then sorts each group. */
  method SortDirectoryContents(listing: seq<Node>) returns (r: seq<Node>)
    ensures r == Arranged(listing)
  {
    var files: seq<Node> := [];
    var dirs: seq<Node> := [];
    for k := 0 to |listing|
      invariant dirs == Dirs(listing[..k]) && files == NonDirs(listing[..k])
    {
      DirsSnoc(listing[..k], listing[k]);
      NonDirsSnoc(listing[..k], listing[k]);
      assert listing[..k + 1] == listing[..k] + [listing[k]];
      if listing[k].Directory? {
        dirs := dirs + [listing[k]];
      } else {
        files := files + [listing[k]];
      }
    }
    assert listing[..|listing|] == listing;
    r := SortedByName(dirs) + SortedByName(files);
  }

  lemma {:induction false} DirsSnoc(nodes: seq<Node>, x: Node)
    ensures Dirs(nodes + [x]) == Dirs(nodes) + (if x.Directory? then [x] else [])
  {
    if nodes == [] {
      assert nodes + [x] == [x];
    } else {
      var s := nodes + [x];
      assert s[0] == nodes[0] && s[1..] == nodes[1..] + [x];
      DirsSnoc(nodes[1..], x);
      var head := if nodes[0].Directory? then [nodes[0]] else [];
      assert Dirs(s) == head + Dirs(nodes[1..] + [x]);
    }
  }

  lemma {:induction false} NonDirsSnoc(nodes: seq<Node>, x: Node)
    ensures NonDirs(nodes + [x]) == NonDirs(nodes) + (if x.Directory? then [] else [x])
  {
    if nodes == [] {
      assert nodes + [x] == [x];
    } else {
      var s := nodes + [x];
      assert s[0] == nodes[0] && s[1..] == nodes[1..] + [x];
      NonDirsSnoc(nodes[1..], x);
      var head := if nodes[0].Directory? then [] else [nodes[0]];
      assert NonDirs(s) == head + NonDirs(nodes[1..] + [x]);
    }
  }

  // ---------------------------------------------------------------------
  // Exclusion.
  // ---------------------------------------------------------------------

  /**
   * The exclusion test as written: an excluded directory name, or a file
   * whose suffix or name is excluded.
   */
  predicate ExcludedAsWritten(node: Node)
    ensures ExcludedAsWritten(node) && node.Directory? ==> node.name in ExcludeDirs
    ensures node.Special? ==> !ExcludedAsWritten(node)
  {
    (node.Directory? && node.name in ExcludeDirs)
    || (node.RegularFile? && (Suffix(node.name) in ExcludeExtensions || node.name in ExcludeFiles))
  }

  /**
   * As written, a ".DS_Store" file is listed: its name starts with its only
   * dot, so its suffix is empty and never equals the excluded ".DS_Store".
   */
  lemma DsStoreListedAsWritten()
    ensures !ExcludedAsWritten(RegularFile(".DS_Store"))
  {
    var name := ".DS_Store";
    assert name[1..] == "DS_Store";
    LeadingDotOnly(name);
    assert |name| == 9;
    assert name != "Thumbs.db" by {
      assert name[0] != "Thumbs.db"[0];
    }
  }

  /**
   * The exclusion test with dot-files matched by their whole name against
   * the excluded extensions, which is what listing ".DS_Store" there asks for.
   */
  predicate Excluded(node: Node)
    ensures ExcludedAsWritten(node) ==> Excluded(node)
    ensures Excluded(node) && !ExcludedAsWritten(node) ==> node.RegularFile? && node.name in ExcludeExtensions
    ensures node == RegularFile(".DS_Store") ==> Excluded(node)
  {
    (node.Directory? && node.name in ExcludeDirs)
    || (node.RegularFile? && (Suffix(node.name) in ExcludeExtensions || node.name in ExcludeExtensions
                              || node.name in ExcludeFiles))
  }

  /** The entries that are not excluded by the test as written, in order. */
  function Kept(nodes: seq<Node>): (r: seq<Node>)
    ensures forall x :: x in r ==> x in nodes
    ensures |r| <= |nodes|
  {
    if nodes == [] then []
    else
      assert nodes == [nodes[0]] + nodes[1..];
      (if ExcludedAsWritten(nodes[0]) then [] else [nodes[0]]) + Kept(nodes[1..])
  }

  /** An entry is kept exactly when it is present and not excluded. */
  lemma {:induction false} KeptMembers(nodes: seq<Node>)
    ensures forall x :: x in Kept(nodes) <==> x in nodes && !ExcludedAsWritten(x)
  {
    if nodes != [] {
      KeptMembers(nodes[1..]);
      assert nodes == [nodes[0]] + nodes[1..];
    }
  }

  lemma {:induction false} KeptSnoc(nodes: seq<Node>, x: Node)
    ensures Kept(nodes + [x]) == Kept(nodes) + (if ExcludedAsWritten(x) then [] else [x])
  {
    if nodes == [] {
      assert nodes + [x] == [x];
    } else {
      assert (nodes + [x])[1..] == nodes[1..] + [x];
      KeptSnoc(nodes[1..], x);
    }
  }

  /** `_filter_items`: the entries that are not excluded, in their order. */
  method FilterItems(items: seq<Node>) returns (r: seq<Node>)
    ensures r == Kept(items)
  {
    r := [];
    for k := 0 to |items|
      invariant r == Kept(items[..k])
    {
      KeptSnoc(items[..k], items[k]);
      assert items[..k + 1] == items[..k] + [items[k]];
      if items[k].Directory? && items[k].name in ExcludeDirs {
        continue;
      }
      if items[k].RegularFile? && (Suffix(items[k].name) in ExcludeExtensions || items[k].name in ExcludeFiles) {
        continue;
      }
      r := r + [items[k]];
    }
    assert items[..|items|] == items;
  }

  /** The entries a readable directory shows: arranged, then filtered. */
  function Shown(listing: seq<Node>): (r: seq<Node>)
    ensures forall x :: x in r ==> x in listing
  {
    var a := Arranged(listing);
    assert forall x :: x in a ==> x in multiset(listing);
    Kept(a)
  }

  /** No excluded entry is shown, and every entry of the listing that is not excluded is. */
  lemma ShownMembers(listing: seq<Node>)
    ensures forall x :: x in Shown(listing) <==> x in listing && !ExcludedAsWritten(x)
  {
    var a := Arranged(listing);
    KeptMembers(a);
    assert forall x :: x in a <==> x in multiset(listing);
  }

  // ---------------------------------------------------------------------
  // The lines.
  // ---------------------------------------------------------------------

  function Pointer(k: nat, count: nat): string
  {
    if k + 1 < count then Tee else Elbow
  }

  /** The line of one entry. */
  function EntryLine(prefix: string, pointer: string, node: Node): string
  {
    prefix + Label(pointer, node)
  }

  /** What follows the prefix on an entry's line: pointer, icon, a space, the name. */
  function Label(pointer: string, node: Node): string
  {
    pointer + Icon(node) + " " + node.name
  }

  lemma PrefixOfAppend(a: string, b: string)
    ensures a <= a + b
  {
    assert (a + b)[..|a|] == a;
  }

  /**
   * `generate_tree(directory, prefix)`: the lines of a directory's shown
   * entries, or the single error line when listing it fails.
   */
  function TreeLines(contents: Contents, prefix: string): (r: seq<string>)
    ensures !contents.Readable? ==> |r| == 1
    ensures contents.Readable? ==> |r| >= |Shown(contents.items)|
    decreases contents, 1
  {
    match contents
    case Denied => [prefix + Elbow + "[Erişim Engellendi]"]
    case Failed(message) => [prefix + Elbow + "[Hata: " + message + "]"]
    case Readable(listing) => LevelLines(Shown(listing), prefix, 0, contents)
  }

  /**
   * `_print_tree_level` from the k-th entry on: each entry's line, then the
   * lines of its subtree under the prefix extended by a bar (not the last
   * entry) or by blanks (the last).
   */
  function LevelLines(items: seq<Node>, prefix: string, k: nat, parent: Contents): (r: seq<string>)
    requires parent.Readable? && forall x :: x in items ==> x in parent.items
    requires k <= |items|
    ensures |r| >= |items| - k
    decreases parent, 0, |items| - k
  {
    if k == |items| then []
    else
      var pointer := Pointer(k, |items|);
      var item := items[k];
      [EntryLine(prefix, pointer, item)]
      + (if item.Directory? then
           assert item in parent.items;
           TreeLines(item.contents, prefix + Extension(pointer))
         else [])
      + LevelLines(items, prefix, k + 1, parent)
  }

  /** Every line under a prefix starts with it. */
  lemma {:induction false} TreeLinesPrefixed(contents: Contents, prefix: string)
    ensures Under(prefix, TreeLines(contents, prefix))
    decreases contents, 1
  {
    match contents
    case Denied =>
    case Failed(message) =>
    case Readable(listing) =>
      LevelLinesPrefixed(Shown(listing), prefix, 0, contents);
  }

  lemma {:induction false} LevelLinesPrefixed(items: seq<Node>, prefix: string, k: nat, parent: Contents)
    requires parent.Readable? && forall x :: x in items ==> x in parent.items
    requires k <= |items|
    ensures Under(prefix, LevelLines(items, prefix, k, parent))
    decreases parent, 0, |items| - k
  {
    if k < |items| {
      var item := items[k];
      if item.Directory? {
        assert item in parent.items;
        TreeLinesPrefixed(item.contents, prefix + Extension(Pointer(k, |items|)));
      }
      LevelLinesPrefixed(items, prefix, k + 1, parent);
      EntryPrefixed(items, prefix, k, parent);
    }
  }

  /** The prefix added below an entry: a bar under all but the last entry, blanks under the last. */
  function Extension(pointer: string): string
  {
    if pointer == Tee then Pipe else Blank
  }

  /** One step of `LevelLinesPrefixed`: the entry's line and its subtree start with the prefix. */
  lemma EntryPrefixed(items: seq<Node>, prefix: string, k: nat, parent: Contents)
    requires parent.Readable? && forall x :: x in items ==> x in parent.items
    requires k < |items|
    requires items[k].Directory? ==>
               Under(prefix + Extension(Pointer(k, |items|)),
                     TreeLines(items[k].contents, prefix + Extension(Pointer(k, |items|))))
    requires Under(prefix, LevelLines(items, prefix, k + 1, parent))
    ensures Under(prefix, LevelLines(items, prefix, k, parent))
  {
    var pointer := Pointer(k, |items|);
    var item := items[k];
    var ext := prefix + Extension(pointer);
    var sub := if item.Directory? then TreeLines(item.contents, ext) else [];
    LevelStep(items, prefix, k, parent);
    PrefixOfAppend(prefix, Label(pointer, item));
    PrefixOfAppend(prefix, Extension(pointer));
    PrefixedConcat(prefix, EntryLine(prefix, pointer, item), ext, sub, LevelLines(items, prefix, k + 1, parent));
  }

  /** An entry's line, a subtree under a longer prefix, and lines under the prefix: all start with it. */
  lemma PrefixedConcat(prefix: string, own: string, ext: string, sub: seq<string>, rest: seq<string>)
    requires prefix <= own && prefix <= ext
    requires Under(ext, sub) && Under(prefix, rest)
    ensures Under(prefix, [own] + sub + rest)
  {
    var all := [own] + sub + rest;
    forall line | line in all
      ensures prefix <= line
    {
      if line in sub {
        assert ext <= line;
        assert line[..|prefix|] == ext[..|prefix|];
      }
    }
  }

  /** Every line starts with the prefix. */
  predicate Under(prefix: string, lines: seq<string>)
  {
    forall line :: line in lines ==> prefix <= line
  }

  /** An empty readable directory prints nothing; an unreadable one prints its one error line. */
  lemma TreeLinesEdgeCases(prefix: string, message: string)
    ensures TreeLines(Readable([]), prefix) == []
    ensures |TreeLines(Denied, prefix)| == 1 && |TreeLines(Failed(message), prefix)| == 1
  {
    assert Shown([]) == [];
  }

  /**
   * The first line of a level belongs to its first entry, with the elbow
   * pointer exactly when that entry is the only one.
   */
  lemma LevelStartsWithFirstEntry(items: seq<Node>, prefix: string, parent: Contents)
    requires parent.Readable? && forall x :: x in items ==> x in parent.items
    requires |items| > 0
    ensures LevelLines(items, prefix, 0, parent)[0]
            == EntryLine(prefix, if |items| == 1 then Elbow else Tee, items[0])
  {
  }

  /** One entry of a level: its line, its subtree, then the entries after it. */
  lemma LevelStep(items: seq<Node>, prefix: string, k: nat, parent: Contents)
    requires parent.Readable? && forall x :: x in items ==> x in parent.items
    requires k < |items|
    ensures LevelLines(items, prefix, k, parent)
            == [EntryLine(prefix, Pointer(k, |items|), items[k])]
               + (if items[k].Directory? then
                    TreeLines(items[k].contents, prefix + Extension(Pointer(k, |items|)))
                  else [])
               + LevelLines(items, prefix, k + 1, parent)
  {
  }

  /** One turn of the level loop: the lines so far, the entry's lines, then the later entries. */
  lemma LevelAppend(items: seq<Node>, prefix: string, k: nat, parent: Contents, lines: seq<string>, printed: seq<string>)
    requires parent.Readable? && forall x :: x in items ==> x in parent.items
    requires k < |items|
    requires printed == [EntryLine(prefix, Pointer(k, |items|), items[k])]
                        + (if items[k].Directory? then
                             TreeLines(items[k].contents, prefix + Extension(Pointer(k, |items|)))
                           else [])
    ensures lines + LevelLines(items, prefix, k, parent) == lines + printed + LevelLines(items, prefix, k + 1, parent)
  {
    LevelStep(items, prefix, k, parent);
  }

  /** `generate_tree`: lists the directory and prints the level, or prints the error line. */
  method GenerateTree(contents: Contents, prefix: string) returns (lines: seq<string>)
    ensures lines == TreeLines(contents, prefix)
    decreases contents, 1
  {
    match contents
    case Denied =>
      lines := [prefix + Elbow + "[Erişim Engellendi]"];
    case Failed(message) =>
      lines := [prefix + Elbow + "[Hata: " + message + "]"];
    case Readable(listing) =>
      var items := SortDirectoryContents(listing);
      var filtered := FilterItems(items);
      assert filtered == Shown(listing);
      lines := PrintTreeLevel(filtered, prefix, contents);
  }

  /** `_print_tree_level`: one line per entry, each directory followed by its subtree. */
  method PrintTreeLevel(items: seq<Node>, prefix: string, parent: Contents) returns (lines: seq<string>)
    requires parent.Readable? && forall x :: x in items ==> x in parent.items
    ensures lines == LevelLines(items, prefix, 0, parent)
    decreases parent, 0
  {
    lines := [];
    var k := 0;
    while k < |items|
      invariant 0 <= k <= |items|
      invariant lines + LevelLines(items, prefix, k, parent) == LevelLines(items, prefix, 0, parent)
    {
      var pointer := if k + 1 < |items| then Tee else Elbow;
      var printed := PrintEntry(items[k], prefix, pointer, parent);
      LevelAppend(items, prefix, k, parent, lines, printed);
      lines := lines + printed;
      k := k + 1;
    }
  }

  /** The body of the level loop for one entry: its line, then its subtree when it is a directory. */
  method PrintEntry(path: Node, prefix: string, pointer: string, parent: Contents) returns (printed: seq<string>)
    requires parent.Readable? && path in parent.items
    ensures printed == [EntryLine(prefix, pointer, path)]
                       + (if path.Directory? then TreeLines(path.contents, prefix + Extension(pointer))
                          else [])
    decreases parent, 0, 0
  {
    var icon := if path.Directory? then FolderIcon else FileIcon(path.name);
    var shown := pointer + icon + " " + path.name;
    var line := prefix + shown;
    printed := [line];
    if path.Directory? {
      var extension := if pointer == Tee then Pipe else Blank;
      var sub := GenerateTree(path.contents, prefix + extension);
      printed := printed + sub;
    }
  }
}
