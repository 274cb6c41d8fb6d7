/** The budgeted directory listing of the `list_dir` tool, on a finite tree without read errors.
    The children of every directory are given in display order. */
module DirectoryListing {
  import opened Common

  const DEFAULT_MAX_ENTRIES := 40
  const MAX_CHILD_FILES := 5
  const MAX_CHILD_DIRS := 5

  const SYSTEM_OR_CACHE_DIRS: set<string> := {
    ".git", ".idea", ".mypy_cache", ".pytest_cache", ".ruff_cache", ".tox", ".venv",
    "__pycache__", "build", "dist", "htmlcov", "node_modules", "runs"
  }

  const SYSTEM_CONFIG_FILES: set<string> := {
    ".env", ".gitignore", "pyproject.toml", "pytest.ini", "requirements.txt", "setup.cfg", "tox.ini"
  }

  datatype Node = File(name: string) | Dir(name: string, children: seq<Node>)

  datatype Entry = Entry(name: string, isDir: bool, entries: seq<Entry>, truncated: bool)

  predicate IsHidden(name: string) {
    name != "" && name[0] == '.'
  }

  predicate ShouldInclude(node: Node) {
    match node
    case Dir(name, _) => name !in SYSTEM_OR_CACHE_DIRS && !IsHidden(name)
    case File(name) => name in SYSTEM_CONFIG_FILES || !IsHidden(name)
  }

  function Size(node: Node): nat {
    1 + if node.Dir? then SizeAll(node.children) else 0
  }

  function SizeAll(nodes: seq<Node>): nat {
    if nodes == [] then 0 else Size(nodes[0]) + SizeAll(nodes[1..])
  }

  function Included(children: seq<Node>): (r: seq<Node>)
    ensures SizeAll(r) <= SizeAll(children)
  {
    if children == [] then []
    else
      var rest := Included(children[1..]);
      if ShouldInclude(children[0]) then
        assert ([children[0]] + rest)[1..] == rest;
        [children[0]] + rest
      else rest
  }

  /** The included children of a directory; a file has none. */
  function Kids(node: Node): (r: seq<Node>)
    ensures SizeAll(r) < Size(node)
  {
    if node.Dir? then Included(node.children) else []
  }

  function CountDirs(nodes: seq<Node>): nat {
    if nodes == [] then 0 else (if nodes[0].Dir? then 1 else 0) + CountDirs(nodes[1..])
  }

  predicate ShouldCollapse(node: Node) {
    var kids := Kids(node);
    |kids| - CountDirs(kids) > MAX_CHILD_FILES || CountDirs(kids) > MAX_CHILD_DIRS
  }

  /** A path as listed before anything below it is looked at. */
  function Plain(node: Node): Entry {
    Entry(node.name, node.Dir?, [], false)
  }

  function PlainAll(nodes: seq<Node>): (r: seq<Entry>)
    ensures |r| == |nodes| && forall i :: 0 <= i < |r| ==> r[i] == Plain(nodes[i])
  {
    if nodes == [] then [] else [Plain(nodes[0])] + PlainAll(nodes[1..])
  }

  // ----- specification functions: the budget is passed along -----

  datatype Budget = Budget(limit: nat, count: nat, truncated: bool)

  predicate BudgetOk(b: Budget) {
    b.count <= b.limit && (b.truncated ==> b.count == b.limit)
  }

  datatype Listed = Listed(entries: seq<Entry>, missing: bool, budget: Budget)

  function ListNested(node: Node, b: Budget): (r: Listed)
    requires BudgetOk(b)
    ensures BudgetOk(r.budget) && r.budget.limit == b.limit
    decreases Size(node), 0
  {
    var kids := Kids(node);
    var room := b.limit - b.count;
    if |kids| > room then Listed(PlainAll(kids[..room]), true, b.(count := b.limit, truncated := true))
    else
      var r := ListChildren(kids, b.(count := b.count + |kids|));
      r.(missing := r.missing || r.budget.truncated)
  }

  function ListChildren(kids: seq<Node>, b: Budget): (r: Listed)
    requires BudgetOk(b)
    ensures BudgetOk(r.budget) && r.budget.limit == b.limit
    ensures |r.entries| == |kids|
    decreases SizeAll(kids), 2
  {
    if kids == [] then Listed([], false, b)
    else
      var first := ListChild(kids[0], b);
      var rest := ListChildren(kids[1..], first.budget);
      Listed(first.entries + rest.entries, first.missing || rest.missing, rest.budget)
  }

  function ListChild(kid: Node, b: Budget): (r: Listed)
    requires BudgetOk(b)
    ensures BudgetOk(r.budget) && r.budget.limit == b.limit
    ensures |r.entries| == 1
    decreases Size(kid), 1
  {
    if !kid.Dir? then Listed([Plain(kid)], false, b)
    else if ShouldCollapse(kid) then Listed([Plain(kid).(truncated := true)], true, b)
    else if b.count >= b.limit then
      var hasKids := Kids(kid) != [];
      Listed([Plain(kid).(truncated := hasKids)], hasKids, b)
    else
      var nested := ListNested(kid, b);
      nested.(entries := [Plain(kid).(entries := nested.entries, truncated := nested.missing)])
  }

  datatype Listing = Listing(entries: seq<Entry>, directComplete: bool, treeTruncated: bool)

  function ListDirectory(root: Node, limit: nat): Listing {
    var kids := Kids(root);
    if |kids| > limit then Listing(PlainAll(kids[..limit]), false, true)
    else
      var r := ListChildren(kids, Budget(limit - |kids|, 0, false));
      Listing(r.entries, true, r.missing || r.budget.truncated)
  }

  // ----- what a listing means -----

  function Total(entries: seq<Entry>): nat {
    if entries == [] then 0 else 1 + Total(entries[0].entries) + Total(entries[1..])
  }

  /** Every included descendant of `node` is shown below `entry`. */
  ghost predicate Complete(entry: Entry, node: Node)
    decreases Size(node), 0
  {
    CompleteAll(entry.entries, Kids(node))
  }

  ghost predicate CompleteAll(entries: seq<Entry>, kids: seq<Node>)
    decreases SizeAll(kids), 1
  {
    if kids == [] then entries == []
    else entries != [] && Complete(entries[0], kids[0]) && CompleteAll(entries[1..], kids[1..])
  }

  /** `entry` shows `node` faithfully: the entries below it are the first included children in
      order. If the direct children are all there, each of them is shown faithfully in turn and the
      flag says exactly whether some included descendant is missing. If not, the flag is set and the
      children that are there are bare. */
  ghost predicate Faithful(entry: Entry, node: Node)
    decreases Size(node), 0
  {
    var kids := Kids(node);
    && entry.name == node.name && entry.isDir == node.Dir?
    && |entry.entries| <= |kids|
    && if |entry.entries| == |kids| then
         FaithfulAll(entry.entries, kids) && (entry.truncated <==> !Complete(entry, node))
       else
         entry.truncated && entry.entries == PlainAll(kids[..|entry.entries|])
  }

  ghost predicate FaithfulAll(entries: seq<Entry>, kids: seq<Node>)
    decreases SizeAll(kids), 1
  {
    if kids == [] then entries == []
    else entries != [] && Faithful(entries[0], kids[0]) && FaithfulAll(entries[1..], kids[1..])
  }

  /** What a step of the listing promises about the entries it made for `kids`. */
  ghost predicate Exact(r: Listed, kids: seq<Node>, b: Budget) {
    && FaithfulAll(r.entries, kids)
    && (r.missing <==> !CompleteAll(r.entries, kids))
    && (r.budget.truncated ==> b.truncated || r.missing)
    && r.budget.count - b.count == Total(r.entries) - |r.entries|
  }

  lemma {:induction false} PlainTotal(nodes: seq<Node>)
    ensures Total(PlainAll(nodes)) == |nodes|
  {
    if nodes != [] {
      PlainTotal(nodes[1..]);
      assert PlainAll(nodes)[1..] == PlainAll(nodes[1..]);
    }
  }

  lemma CompleteLength(entries: seq<Entry>, kids: seq<Node>)
    requires CompleteAll(entries, kids)
    ensures |entries| == |kids|
    decreases |kids|
  {
    if kids != [] {
      CompleteLength(entries[1..], kids[1..]);
    }
  }

  lemma {:induction false} ListChildExact(kid: Node, b: Budget)
    requires BudgetOk(b)
    ensures var r := ListChild(kid, b);
            && Faithful(r.entries[0], kid)
            && (r.missing <==> !Complete(r.entries[0], kid))
            && (r.budget.truncated ==> b.truncated || r.missing)
            && r.budget.count - b.count == Total(r.entries[0].entries)
    decreases Size(kid), 1
  {
    hide ShouldInclude, Included;
    var r := ListChild(kid, b);
    var kids := Kids(kid);
    if kid.Dir? && !ShouldCollapse(kid) && b.count < b.limit {
      var room := b.limit - b.count;
      if |kids| > room {
        PlainTotal(kids[..room]);
        if CompleteAll(r.entries[0].entries, kids) {
          CompleteLength(r.entries[0].entries, kids);
        }
      } else {
        ListChildrenExact(kids, b.(count := b.count + |kids|));
      }
    } else if kids == [] {
      assert !ShouldCollapse(kid);
      assert CompleteAll([], kids) && FaithfulAll([], kids);
    } else {
      assert PlainAll(kids[..|r.entries[0].entries|]) == [];
      assert !CompleteAll([], kids);
    }
  }

  lemma {:induction false} ListChildrenExact(kids: seq<Node>, b: Budget)
    requires BudgetOk(b)
    ensures Exact(ListChildren(kids, b), kids, b)
    decreases SizeAll(kids), 2
  {
    hide ShouldInclude, Included, Faithful, Complete;
    if kids != [] {
      var first := ListChild(kids[0], b);
      ListChildExact(kids[0], b);
      ListChildrenExact(kids[1..], first.budget);
      var rest := ListChildren(kids[1..], first.budget);
      var all := first.entries + rest.entries;
      assert all[0] == first.entries[0] && all[1..] == rest.entries;
    }
  }

  /** A path that may be shown: no hidden path but the known configuration files, no cache directory. */
  ghost predicate Visible(entry: Entry)
  {
    && (IsHidden(entry.name) ==> !entry.isDir && entry.name in SYSTEM_CONFIG_FILES)
    && (entry.isDir ==> entry.name !in SYSTEM_OR_CACHE_DIRS)
  }

  ghost predicate AllVisible(entries: seq<Entry>) {
    entries == [] || (Visible(entries[0]) && AllVisible(entries[0].entries) && AllVisible(entries[1..]))
  }

  lemma {:induction false} IncludedExact(children: seq<Node>, node: Node)
    ensures node in Included(children) <==> node in children && ShouldInclude(node)
  {
    hide ShouldInclude;
    if children != [] {
      IncludedExact(children[1..], node);
      assert children == [children[0]] + children[1..];
    }
  }

  lemma KidsIncluded(node: Node)
    ensures forall i :: 0 <= i < |Kids(node)| ==> ShouldInclude(Kids(node)[i])
  {
    hide ShouldInclude, Included;
    forall i | 0 <= i < |Kids(node)| ensures ShouldInclude(Kids(node)[i]) {
      IncludedExact(node.children, Kids(node)[i]);
    }
  }

  lemma {:induction false} PlainVisible(nodes: seq<Node>)
    requires forall i :: 0 <= i < |nodes| ==> ShouldInclude(nodes[i])
    ensures AllVisible(PlainAll(nodes))
  {
    hide SYSTEM_CONFIG_FILES, SYSTEM_OR_CACHE_DIRS;
    if nodes != [] {
      PlainVisible(nodes[1..]);
      assert PlainAll(nodes)[1..] == PlainAll(nodes[1..]);
    }
  }

  lemma {:induction false} FaithfulVisible(entries: seq<Entry>, kids: seq<Node>)
    requires FaithfulAll(entries, kids)
    requires forall i :: 0 <= i < |kids| ==> ShouldInclude(kids[i])
    ensures AllVisible(entries)
    decreases SizeAll(kids)
  {
    hide SYSTEM_CONFIG_FILES, SYSTEM_OR_CACHE_DIRS, Included, Complete;
    if kids != [] {
      var below := Kids(kids[0]);
      KidsIncluded(kids[0]);
      if |entries[0].entries| == |below| {
        FaithfulVisible(entries[0].entries, below);
      } else {
        PlainVisible(below[..|entries[0].entries|]);
      }
      FaithfulVisible(entries[1..], kids[1..]);
    }
  }

  /** Nothing that is to be left out is shown, at any depth. */
  lemma NothingHiddenShown(root: Node, limit: nat)
    ensures AllVisible(ListDirectory(root, limit).entries)
  {
    hide Included, ShouldInclude, ListDirectory;
    ListingExact(root, limit);
    KidsIncluded(root);
    var r := ListDirectory(root, limit);
    if r.directComplete {
      FaithfulVisible(r.entries, Kids(root));
    } else {
      PlainVisible(Kids(root)[..limit]);
    }
  }

  /** The listing as a whole. It never shows more than `limit` entries. When the direct entries are
      complete, every directory shown is faithful and `treeTruncated` says exactly whether an
      included descendant is missing; when they are not, the first `limit` of them are shown. */
  lemma ListingExact(root: Node, limit: nat)
    ensures var r := ListDirectory(root, limit);
            && Total(r.entries) <= limit
            && (r.directComplete <==> |Kids(root)| <= limit)
            && (r.directComplete ==> FaithfulAll(r.entries, Kids(root)))
            && (!r.directComplete ==> r.entries == PlainAll(Kids(root)[..limit]))
            && (r.treeTruncated <==> !CompleteAll(r.entries, Kids(root)))
  {
    hide ShouldInclude, Included;
    var kids := Kids(root);
    if |kids| > limit {
      PlainTotal(kids[..limit]);
      if CompleteAll(PlainAll(kids[..limit]), kids) {
        CompleteLength(PlainAll(kids[..limit]), kids);
      }
    } else {
      ListChildrenExact(kids, Budget(limit - |kids|, 0, false));
    }
  }

  // ----- what is shown of one path -----

  /** A path is included if and only if it does not start with a dot, or is a known configuration file,
      and, for a directory, if it is not a system or cache directory. */
  lemma IncludedMeans(node: Node)
    ensures ShouldInclude(node) <==>
            if node.Dir? then !("." <= node.name) && node.name !in SYSTEM_OR_CACHE_DIRS
            else !("." <= node.name) || node.name in SYSTEM_CONFIG_FILES
    ensures Visible(Plain(node)) <==> ShouldInclude(node)
  {
    hide SYSTEM_OR_CACHE_DIRS, SYSTEM_CONFIG_FILES;
  }

  /** The included children are listed in the order in which they are given. */
  lemma IncludedInOrder(node: Node, more: seq<Node>)
    ensures Included([node] + more) == (if ShouldInclude(node) then [node] else []) + Included(more)
    ensures Included([]) == []
  {
    hide ShouldInclude;
    assert ([node] + more)[1..] == more;
  }

  /** Directories are counted one by one; what else there is are files. */
  lemma CountMeans(node: Node, more: seq<Node>)
    ensures CountDirs([node] + more) == CountDirs(more) + (if node.Dir? then 1 else 0)
    ensures CountDirs([]) == 0
  {
    assert ([node] + more)[1..] == more;
  }

  /** One entry in the listing of its directory. A file is shown bare. A directory with more than five
      included files or more than five included directories is collapsed: it shows nothing and is
      flagged. With nothing left of the limit it shows nothing, and is flagged if it has included
      children. Otherwise it shows its included children, as many as fit. Only what is shown counts. */
  lemma ChildShown(kid: Node, b: Budget)
    requires BudgetOk(b)
    ensures var r := ListChild(kid, b);
            var entry, room := r.entries[0], b.limit - b.count;
            if kid.File? then entry == Entry(kid.name, false, [], false) && r.budget == b
            else if |Kids(kid)| - CountDirs(Kids(kid)) > 5 || CountDirs(Kids(kid)) > 5 then
              entry == Entry(kid.name, true, [], true) && r.budget == b
            else if room == 0 then entry == Entry(kid.name, true, [], Kids(kid) != []) && r.budget == b
            else
              && entry.name == kid.name && entry.isDir && |entry.entries| == Min(|Kids(kid)|, room)
              && r.budget.count == b.count + Total(entry.entries)
  {
    hide Included, ShouldInclude, Kids;
    ListChildExact(kid, b);
  }

  /** The requested directory itself is never collapsed: it shows as many children as the limit allows. */
  lemma RootShown(root: Node, limit: nat)
    ensures |ListDirectory(root, limit).entries| == Min(|Kids(root)|, limit)
    ensures ListDirectory(root, limit).directComplete <==> |Kids(root)| <= limit
  {
    hide Included, ShouldInclude, Kids;
  }

  // ----- when all flags are right -----

  ghost predicate FlagRight(entry: Entry, node: Node) {
    entry.truncated <==> !Complete(entry, node)
  }

  /** Every flag shown, at every depth, says exactly whether an included descendant is missing. The
      entries may be fewer than the children. */
  ghost predicate FlagsRight(entries: seq<Entry>, kids: seq<Node>)
    decreases SizeAll(kids)
  {
    entries == [] || kids == []
    || (FlagRight(entries[0], kids[0]) && FlagsRight(entries[0].entries, Kids(kids[0]))
        && FlagsRight(entries[1..], kids[1..]))
  }

  /** Some of the first `room` nodes has included children. */
  predicate SomeFilled(kids: seq<Node>, room: nat)
    requires room <= |kids|
  {
    exists i :: 0 <= i < room && Kids(kids[i]) != []
  }

  /** The tree's condition for a wrong flag: going through the directories that are expanded with what
      is left of the limit, one is met whose children do not all fit while one of those that do has
      included children itself. */
  predicate Wrong(kid: Node, b: Budget)
    requires BudgetOk(b)
    decreases Size(kid), 1
  {
    && kid.Dir? && !ShouldCollapse(kid) && b.count < b.limit
    && var kids, room := Kids(kid), b.limit - b.count;
       if |kids| > room then SomeFilled(kids, room) else WrongIn(kids, b.(count := b.count + |kids|))
  }

  predicate WrongIn(kids: seq<Node>, b: Budget)
    requires BudgetOk(b)
    decreases SizeAll(kids), 2
  {
    kids != [] && (Wrong(kids[0], b) || WrongIn(kids[1..], ListChild(kids[0], b).budget))
  }

  predicate WrongListing(root: Node, limit: nat) {
    var kids := Kids(root);
    if |kids| > limit then SomeFilled(kids, limit) else WrongIn(kids, Budget(limit - |kids|, 0, false))
  }

  lemma {:induction false} PlainFlags(kids: seq<Node>, room: nat)
    requires room <= |kids|
    ensures FlagsRight(PlainAll(kids[..room]), kids) <==> !SomeFilled(kids, room)
    decreases |kids|
  {
    hide Included, ShouldInclude, Kids;
    if room > 0 {
      PlainFlags(kids[1..], room - 1);
      assert kids[..room][1..] == kids[1..][..room - 1];
      assert PlainAll(kids[..room])[1..] == PlainAll(kids[1..][..room - 1]);
      PlainFlag(kids[0]);
      FilledStep(kids, room);
    }
  }

  lemma PlainFlag(node: Node)
    ensures FlagRight(Plain(node), node) <==> Kids(node) == []
    ensures FlagsRight(Plain(node).entries, Kids(node))
  {
    hide Included, ShouldInclude;
    assert CompleteAll(Plain(node).entries, Kids(node)) <==> Kids(node) == [];
  }

  lemma FilledStep(kids: seq<Node>, room: nat)
    requires 0 < room <= |kids|
    ensures SomeFilled(kids, room) <==> Kids(kids[0]) != [] || SomeFilled(kids[1..], room - 1)
  {
    hide Kids;
    if i :| 0 <= i < room - 1 && Kids(kids[1..][i]) != [] {
      assert kids[1..][i] == kids[i + 1];
    }
    if i :| 0 <= i < room && Kids(kids[i]) != [] {
      if i > 0 {
        assert kids[1..][i - 1] == kids[i];
      }
    }
  }

  /** A directory's own flag is right whenever it is shown faithfully. */
  lemma FlagOfFaithful(entry: Entry, node: Node)
    requires Faithful(entry, node)
    ensures FlagRight(entry, node)
  {
    hide Kids;
    if |entry.entries| < |Kids(node)| && Complete(entry, node) {
      CompleteLength(entry.entries, Kids(node));
    }
  }

  lemma {:induction false} ChildFlags(kid: Node, b: Budget)
    requires BudgetOk(b)
    ensures var entry := ListChild(kid, b).entries[0];
            FlagRight(entry, kid) && (FlagsRight(entry.entries, Kids(kid)) <==> !Wrong(kid, b))
    decreases Size(kid), 1
  {
    hide Included, ShouldInclude, Faithful, FlagRight, ShouldCollapse, WrongIn;
    ListChildExact(kid, b);
    FlagOfFaithful(ListChild(kid, b).entries[0], kid);
    var kids := Kids(kid);
    if kid.Dir? && !ShouldCollapse(kid) && b.count < b.limit {
      var room := b.limit - b.count;
      if |kids| > room {
        PlainFlags(kids, room);
      } else {
        ChildrenFlags(kids, b.(count := b.count + |kids|));
      }
    }
  }

  lemma {:induction false} ChildrenFlags(kids: seq<Node>, b: Budget)
    requires BudgetOk(b)
    ensures FlagsRight(ListChildren(kids, b).entries, kids) <==> !WrongIn(kids, b)
    decreases SizeAll(kids), 2
  {
    hide Included, ShouldInclude, FlagRight, Wrong, Kids;
    if kids != [] {
      var first := ListChild(kids[0], b);
      ChildFlags(kids[0], b);
      ChildrenFlags(kids[1..], first.budget);
      var all := first.entries + ListChildren(kids[1..], first.budget).entries;
      assert all[0] == first.entries[0] && all[1..] == ListChildren(kids[1..], first.budget).entries;
    }
  }

  /** All flags of a listing, exactly: every one, at every depth, says whether an included descendant
      is missing, if and only if the tree and the limit do not meet the condition for a wrong one. */
  lemma FlagsExact(root: Node, limit: nat)
    ensures FlagsRight(ListDirectory(root, limit).entries, Kids(root)) <==> !WrongListing(root, limit)
  {
    hide Included, ShouldInclude, FlagsRight, WrongIn, SomeFilled;
    var kids := Kids(root);
    if |kids| > limit {
      PlainFlags(kids, limit);
    } else {
      ChildrenFlags(kids, Budget(limit - |kids|, 0, false));
    }
  }

  // ----- display order, and a listing with a wrong flag -----

  /** `src` first, then files, then the other directories. */
  function Priority(node: Node): nat {
    if node.File? then 1 else if node.name == "src" then 0 else 2
  }

  function LowerChar(c: char): char {
    if 'A' <= c <= 'Z' then c + 32 as char else c
  }

  /** `a <= b` for strings, letters `A` to `Z` taken as small ones. */
  predicate NameAtMost(a: string, b: string) {
    || a == ""
    || (b != "" && (LowerChar(a[0]) < LowerChar(b[0])
                    || (LowerChar(a[0]) == LowerChar(b[0]) && NameAtMost(a[1..], b[1..]))))
  }

  predicate InOrder(a: Node, b: Node) {
    Priority(a) < Priority(b) || (Priority(a) == Priority(b) && NameAtMost(a.name, b.name))
  }

  /** A tree as the file system and the sorting of its directories can give it: the names in a
      directory are distinct and not empty, and its children stand in display order. */
  ghost predicate Receivable(node: Node)
    decreases Size(node), 0
  {
    node.Dir? ==>
      && (forall i, j :: 0 <= i < j < |node.children| ==>
            node.children[i].name != node.children[j].name && InOrder(node.children[i], node.children[j]))
      && AllReceivable(node.children)
  }

  ghost predicate AllReceivable(nodes: seq<Node>)
    decreases SizeAll(nodes), 1
  {
    nodes == [] || (nodes[0].name != "" && Receivable(nodes[0]) && AllReceivable(nodes[1..]))
  }

  function FileName(i: nat): (r: string)
    ensures |r| == i + 1 && forall k :: 0 <= k <= i ==> r[k] == 'f'
  {
    seq(i + 1, k => 'f')
  }

  /** The files `f`, `ff`, `fff` and so on, from number `i` up to number `n`. */
  function Files(i: nat, n: nat): (r: seq<Node>)
    requires i <= n
    ensures |r| == n - i && forall k :: 0 <= k < |r| ==> r[k] == File(FileName(i + k))
    decreases n - i
  {
    if i == n then [] else [File(FileName(i))] + Files(i + 1, n)
  }

  lemma {:induction false} FilesIncluded(i: nat, n: nat)
    requires i <= n
    ensures Included(Files(i, n)) == Files(i, n) && AllReceivable(Files(i, n))
    decreases n - i
  {
    if i < n {
      FilesIncluded(i + 1, n);
      assert Files(i, n)[1..] == Files(i + 1, n);
      assert FileName(i)[0] == 'f' && FileName(i) != "";
    }
  }

  lemma {:induction false} FileOrder(a: string, b: string)
    requires a <= b
    ensures NameAtMost(a, b)
  {
    if a != "" {
      FileOrder(a[1..], b[1..]);
    }
  }

  /** A directory `src` with a directory `x`, which has one file, and an empty directory `z`. */
  const SRC := Dir("src", [Dir("x", [File("a")]), Dir("z", [])])

  /** `src` and 38 files. */
  function Root(): Node {
    Dir("root", [SRC] + Files(0, 38))
  }

  lemma NamesIncluded()
    ensures ShouldInclude(File("a")) && ShouldInclude(Dir("x", [File("a")])) && ShouldInclude(Dir("z", []))
    ensures ShouldInclude(SRC)
  {
    assert "src" != ".git";
  }

  lemma SrcShape()
    ensures Kids(SRC) == [Dir("x", [File("a")]), Dir("z", [])] && Kids(Dir("x", [File("a")])) == [File("a")]
    ensures !ShouldCollapse(SRC)
  {
    hide ShouldInclude;
    NamesIncluded();
    var x, z := Dir("x", [File("a")]), Dir("z", []);
    assert [z][1..] == [] && [x, z][1..] == [z] && [File("a")][1..] == [];
    assert Included([z]) == [z];
    assert CountDirs([z]) == 1 && CountDirs([x, z]) == 2;
  }

  lemma SrcReceivable()
    ensures Receivable(SRC)
  {
    hide Included, ShouldInclude;
    var x, z := Dir("x", [File("a")]), Dir("z", []);
    assert [z][1..] == [] && [x, z][1..] == [z] && [File("a")][1..] == [];
    assert AllReceivable([]);
    assert Receivable(z) && AllReceivable([z]);
    assert Receivable(File("a")) && AllReceivable([File("a")]);
    assert Receivable(x) && AllReceivable([x, z]);
    assert "x"[0] < "z"[0] && "x" != "z";
    assert NameAtMost("x", "z") && InOrder(x, z);
  }

  lemma RootReceivable()
    ensures Receivable(Root())
  {
    hide Included, ShouldInclude, Size, NameAtMost;
    SrcReceivable();
    FilesIncluded(0, 38);
    var kids := Root().children;
    assert kids[1..] == Files(0, 38);
    forall i, j | 0 <= i < j < |kids| ensures kids[i].name != kids[j].name && InOrder(kids[i], kids[j]) {
      assert kids[j] == File(FileName(j - 1));
      if i == 0 {
        assert "src"[0] == 's' && FileName(j - 1)[0] == 'f';
      } else {
        assert kids[i] == File(FileName(i - 1)) && FileName(i - 1) <= FileName(j - 1);
        FileOrder(FileName(i - 1), FileName(j - 1));
      }
    }
  }

  /** With one entry left, `src` shows `x` without the flag although `x` has a file. */
  lemma SrcCut()
    ensures ListChild(SRC, Budget(1, 0, false)).entries
         == [Entry("src", true, [Entry("x", true, [], false)], true)]
  {
    hide ShouldCollapse, Kids;
    SrcShape();
    var x := Dir("x", [File("a")]);
    assert [x, Dir("z", [])][..1] == [x] && [x][1..] == [];
    assert PlainAll([x]) == [Plain(x)];
  }

  /** A concrete listing with a wrong flag: `src` and 38 files leave one entry for `src`, so `x` is
      listed as if nothing below it were missing. */
  lemma UnflaggedDirectory()
    ensures var r := ListDirectory(Root(), DEFAULT_MAX_ENTRIES);
            && Receivable(Root())
            && r.directComplete && r.entries != []
            && r.entries[0] == Entry("src", true, [Entry("x", true, [], false)], true)
    ensures Kids(Root()) == [SRC] + Files(0, 38) && Kids(SRC) == [Dir("x", [File("a")]), Dir("z", [])]
    ensures !Complete(Entry("x", true, [], false), Dir("x", [File("a")]))
  {
    hide ShouldInclude, ListChild, Complete, Receivable;
    RootReceivable();
    SrcShape();
    SrcCut();
    NamesIncluded();
    FilesIncluded(0, 38);
    var kids := [SRC] + Files(0, 38);
    assert kids[1..] == Files(0, 38);
    assert Kids(Root()) == kids;
    var b := Budget(1, 0, false);
    ListChildrenStep(kids, b, []);
    assert [] + ListChildren(kids, b).entries == ListChildren(kids, b).entries;
    BareIncomplete();
  }

  lemma BareIncomplete()
    ensures !Complete(Entry("x", true, [], false), Dir("x", [File("a")]))
  {
    SrcShape();
    assert !CompleteAll([], [File("a")]);
  }

  /** Truncation is never silent: if an included child is not shown, the flag of the directory
      it would be shown in or of one above it is set. `path` leads through shown entries. */
  lemma {:induction false} MissingIsFlagged(entry: Entry, node: Node, path: seq<nat>)
    requires Faithful(entry, node)
    requires LeadsToMissing(entry, node, path)
    ensures exists n :: 0 <= n <= |path| && FlaggedAt(entry, path[..n])
    decreases |path|
  {
    hide ShouldInclude, Included, Complete;
    if path == [] {
      assert entry.truncated;
      assert FlaggedAt(entry, path[..0]);
    } else if |entry.entries| < |Kids(node)| {
      assert FlaggedAt(entry, path[..0]);
    } else {
      FaithfulAt(entry.entries, Kids(node), path[0]);
      MissingIsFlagged(entry.entries[path[0]], Kids(node)[path[0]], path[1..]);
      var n :| 0 <= n <= |path[1..]| && FlaggedAt(entry.entries[path[0]], path[1..][..n]);
      assert path[..n + 1][1..] == path[1..][..n];
      assert FlaggedAt(entry, path[..n + 1]);
    }
  }

  /** Following `path` through shown entries one arrives at a directory with a child not shown. */
  predicate LeadsToMissing(entry: Entry, node: Node, path: seq<nat>)
    decreases |path|
  {
    if path == [] then |entry.entries| < |Kids(node)|
    else
      && path[0] < |entry.entries| && path[0] < |Kids(node)|
      && LeadsToMissing(entry.entries[path[0]], Kids(node)[path[0]], path[1..])
  }

  predicate FlaggedAt(entry: Entry, path: seq<nat>)
    decreases |path|
  {
    if path == [] then entry.truncated
    else path[0] < |entry.entries| && FlaggedAt(entry.entries[path[0]], path[1..])
  }

  lemma {:induction false} FaithfulAt(entries: seq<Entry>, kids: seq<Node>, i: nat)
    requires FaithfulAll(entries, kids) && i < |entries|
    ensures i < |kids| && Faithful(entries[i], kids[i])
    decreases i
  {
    hide Faithful;
    if i > 0 {
      FaithfulAt(entries[1..], kids[1..], i - 1);
    }
  }

  // ----- the code: one budget shared and mutated by all recursive calls -----

  class EntryBudget {
    const limit: nat
    var count: nat
    var truncated: bool

    function View(): Budget
      reads this
    {
      Budget(limit, count, truncated)
    }

    constructor (limit: nat)
      ensures View() == Budget(limit, 0, false)
    {
      this.limit, this.count, this.truncated := limit, 0, false;
    }

    method Claim() returns (ok: bool)
      modifies this
      ensures ok == (old(count) < limit)
      ensures View() == if ok then old(View()).(count := old(count) + 1) else old(View()).(truncated := true)
    {
      if count >= limit {
        truncated := true;
        return false;
      }
      count := count + 1;
      ok := true;
    }

    function Remaining(): nat
      reads this
    {
      Max(limit - count, 0)
    }
  }

  method NestedDirectoryEntries(node: Node, budget: EntryBudget) returns (entries: seq<Entry>, missing: bool)
    requires BudgetOk(budget.View())
    modifies budget
    ensures Listed(entries, missing, budget.View()) == ListNested(node, old(budget.View()))
    decreases Size(node), 0
  {
    hide ShouldInclude, Included, ShouldCollapse;
    var kids := Kids(node);
    entries := [];
    ghost var start := budget.View();
    for i := 0 to |kids|
      invariant |entries| == i && entries == PlainAll(kids[..i])
      invariant start.count + i <= start.limit && budget.View() == start.(count := start.count + i)
    {
      var ok := budget.Claim();
      if !ok {
        return entries, true;
      }
      PlainSnoc(kids, i);
      entries := entries + [Plain(kids[i])];
    }
    assert kids[..|kids|] == kids;
    entries, missing := ExpandChildDirectories(entries, kids, budget);
    missing := missing || budget.truncated;
  }

  lemma PlainSnoc(kids: seq<Node>, i: nat)
    requires i < |kids|
    ensures PlainAll(kids[..i + 1]) == PlainAll(kids[..i]) + [Plain(kids[i])]
  {
    hide Plain;
    var a, b := PlainAll(kids[..i + 1]), PlainAll(kids[..i]) + [Plain(kids[i])];
    assert |a| == |b|;
    forall k | 0 <= k < |a| ensures a[k] == b[k] {
      assert kids[..i + 1][k] == kids[k];
      if k < i {
        assert kids[..i][k] == kids[k];
      }
    }
  }

  /** What happens to one entry of a directory: at most its flag is set or its entries are filled in. */
  method ExpandChild(entry: Entry, child: Node, budget: EntryBudget) returns (expanded: Entry, missing: bool)
    requires BudgetOk(budget.View()) && entry == Plain(child)
    modifies budget
    ensures Listed([expanded], missing, budget.View()) == ListChild(child, old(budget.View()))
    decreases Size(child), 1
  {
    hide ShouldInclude, Included, ShouldCollapse, ListNested, Kids;
    expanded, missing := entry, false;
    if !child.Dir? {
      return;
    }
    if ShouldCollapse(child) {
      return expanded.(truncated := true), true;
    }
    if budget.Remaining() <= 0 {
      if Kids(child) != [] {
        return expanded.(truncated := true), true;
      }
      return;
    }
    var nested, nestedMissing := NestedDirectoryEntries(child, budget);
    expanded, missing := expanded.(entries := nested, truncated := nestedMissing), nestedMissing;
  }

  method ExpandChildDirectories(plain: seq<Entry>, kids: seq<Node>, budget: EntryBudget)
    returns (entries: seq<Entry>, missing: bool)
    requires BudgetOk(budget.View()) && plain == PlainAll(kids)
    modifies budget
    ensures Listed(entries, missing, budget.View()) == ListChildren(kids, old(budget.View()))
    decreases SizeAll(kids), 2
  {
    hide ListChild, ListChildren, Size, BudgetOk;
    entries, missing := plain, false;
    ghost var start := budget.View();
    ghost var done: seq<Entry> := [];
    assert kids[0..] == kids;
    assert done + ListChildren(kids, start).entries == ListChildren(kids, start).entries;
    for i := 0 to |kids|
      invariant |entries| == |kids| == |plain| && BudgetOk(budget.View())
      invariant done == entries[..i] && entries[i..] == plain[i..]
      invariant Rest(kids, i, start, done, missing, budget.View())
    {
      ghost var before, missingBefore := budget.View(), missing;
      SizeAt(kids, i);
      assert entries[i] == entries[i..][0] == plain[i];
      var expanded, childMissing := ExpandChild(entries[i], kids[i], budget);
      assert entries[i..][1..] == plain[i..][1..];
      entries := entries[i := expanded];
      missing := missing || childMissing;
      RestStep(kids, i, start, done, missingBefore, before);
      assert entries[i + 1..] == plain[i..][1..] == plain[i + 1..];
      assert entries[..i + 1] == done + [expanded];
      done := done + [expanded];
    }
    NoChildren(budget.View());
    assert kids[|kids|..] == [];
    assert done + [] == entries;
  }

  /** After `i` children: what is done, together with the rest still to be listed, is the result. */
  ghost predicate Rest(kids: seq<Node>, i: nat, start: Budget, done: seq<Entry>, missing: bool, now: Budget) {
    && BudgetOk(start) && BudgetOk(now) && i <= |kids|
    && var rest := ListChildren(kids[i..], now);
       ListChildren(kids, start) == Listed(done + rest.entries, missing || rest.missing, rest.budget)
  }

  lemma NoChildren(b: Budget)
    requires BudgetOk(b)
    ensures ListChildren([], b) == Listed([], false, b)
  {
  }

  lemma ListChildrenStep(kids: seq<Node>, b: Budget, done: seq<Entry>)
    requires BudgetOk(b) && kids != []
    ensures var first := ListChild(kids[0], b);
            var rest := ListChildren(kids[1..], first.budget);
            var all := ListChildren(kids, b);
            && all.missing == (first.missing || rest.missing) && all.budget == rest.budget
            && done + all.entries == (done + first.entries) + rest.entries
  {
    hide ListChild;
  }

  lemma RestStep(kids: seq<Node>, i: nat, start: Budget, done: seq<Entry>, missing: bool, now: Budget)
    requires Rest(kids, i, start, done, missing, now) && i < |kids|
    ensures var first := ListChild(kids[i], now);
            Rest(kids, i + 1, start, done + first.entries, missing || first.missing, first.budget)
  {
    hide ListChild, ListChildren;
    ListChildrenStep(kids[i..], now, done);
    assert kids[i..][1..] == kids[i + 1..];
  }

  lemma {:induction false} SizeAt(kids: seq<Node>, i: nat)
    requires i < |kids|
    ensures Size(kids[i]) <= SizeAll(kids)
  {
    if i > 0 {
      SizeAt(kids[1..], i - 1);
    }
  }

  /** The entry point; the limit in use is always the default one. */
  method DirectoryEntries(root: Node, limit: nat) returns (listing: Listing)
    ensures listing == ListDirectory(root, limit)
    ensures Total(listing.entries) <= limit
  {
    hide ShouldInclude, Included;
    ListingExact(root, limit);
    var kids := Kids(root);
    if |kids| > limit {
      return Listing(PlainAll(kids[..limit]), false, true);
    }
    var budget := new EntryBudget(limit - |kids|);
    var entries, missing := ExpandChildDirectories(PlainAll(kids), kids, budget);
    listing := Listing(entries, true, missing || budget.truncated);
  }
}
