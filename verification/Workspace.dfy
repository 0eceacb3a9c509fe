/** cargo-cache-workspace.py: the listing of the build inputs (`inputs`). */
module Workspace {
  import opened Ordering
  import opened Paths
  import opened Splitting
  import opened CanonicalJson
  import opened SubtreeHashes
  import opened FileTree
  import opened Stamping
  import opened SourceStamps

  const TREES := ["src", "crates", "vendor", "assets", "resources", "locales", "db", "tests", "examples", ".cargo"]
  const FILES := ["Cargo.toml", "Cargo.lock", "build.rs", "rust-toolchain", "rust-toolchain.toml", "CHANGELOG.md"]
  const MAX_INPUTS: nat := 30_000

  /** Names directly in the workspace, each once. */
  ghost predicate Roots(names: seq<string>) {
    Distinct(names) && forall k :: 0 <= k < |names| ==> '/' !in names[k] && names[k] != ""
  }

  lemma InputRoots()
    ensures Roots(TREES) && Roots(FILES)
    ensures forall j, k :: 0 <= j < |TREES| && 0 <= k < |FILES| ==> TREES[j] != FILES[k]
  {
    TreeRoots();
    FileRoots();
  }

  lemma TreeRoots()
    ensures Roots(TREES)
  {
  }

  lemma FileRoots()
    ensures Roots(FILES)
  {
  }

  /** The first `i` trees hold the name. */
  ghost predicate InTrees(trees: seq<string>, i: nat, n: string)
    requires i <= |trees|
  {
    exists j :: 0 <= j < i && Below(trees[j], n)
  }

  ghost predicate IsInput(n: string) {
    InTrees(TREES, |TREES|, n) || n in FILES
  }

  ghost function InputNames(t: Tree): set<string> {
    set n | n in t && IsInput(n)
  }

  /** The entry `inputs` makes for a name of the tree. */
  function EntryFor(h: Hash, t: Tree): string -> Entry {
    n => if n in t then EntryOf(h, n, t[n]) else map["path" := Str(n)]
  }

  lemma EntryForPaths(h: Hash, t: Tree)
    ensures forall n :: PathOf(EntryFor(h, t)(n)) == n
  {
    forall n ensures PathOf(EntryFor(h, t)(n)) == n {
      if n in t { assert EntryOf(h, n, t[n])["path"] == Str(n); }
    }
  }

  function EntriesWith(f: string -> Entry, names: seq<string>): (r: seq<Entry>)
    ensures |r| == |names| && forall k :: 0 <= k < |r| ==> r[k] == f(names[k])
  {
    seq(|names|, i requires 0 <= i < |names| => f(names[i]))
  }

  lemma EntriesAgree(f: string -> Entry, g: string -> Entry, names: seq<string>)
    requires forall n :: n in names ==> f(n) == g(n)
    ensures EntriesWith(f, names) == EntriesWith(g, names)
  {
    forall k | 0 <= k < |names| ensures f(names[k]) == g(names[k]) { assert names[k] in names; }
  }

  /** Entries that carry their own path determine the names they were made for. */
  lemma EntriesDetermine(f: string -> Entry, ns: seq<string>, g: string -> Entry, nt: seq<string>)
    requires forall n :: PathOf(f(n)) == n && PathOf(g(n)) == n
    ensures EntriesWith(f, ns) == EntriesWith(g, nt) <==> ns == nt && forall n :: n in ns ==> f(n) == g(n)
  {
    if EntriesWith(f, ns) == EntriesWith(g, nt) {
      assert |ns| == |EntriesWith(f, ns)| == |nt|;
      forall k | 0 <= k < |ns| ensures ns[k] == nt[k] && f(ns[k]) == g(ns[k]) {
        assert EntriesWith(f, ns)[k] == f(ns[k]) && EntriesWith(g, nt)[k] == g(nt[k]);
        assert PathOf(f(ns[k])) == ns[k] && PathOf(g(nt[k])) == nt[k];
      }
    }
    if ns == nt && forall n :: n in ns ==> f(n) == g(n) { EntriesAgree(f, g, ns); }
  }

  function EntriesAt(h: Hash, t: Tree, names: seq<string>): (r: seq<Entry>)
    ensures |r| == |names|
  {
    EntriesWith(EntryFor(h, t), names)
  }

  predicate ByPath(a: Entry, b: Entry) {
    Leq(PathOf(a), PathOf(b))
  }

  lemma ByPathIsWeak()
    ensures WeakOrder(ByPath)
  {
    LeqIsLinear();
  }

  ghost function NamesInOrder(names: set<string>): (r: seq<string>)
    ensures Distinct(r) && |r| == |names| && forall n :: n in r <==> n in names
  {
    LeqIsLinear();
    InOrder(Leq, names)
  }

  /** The listing `inputs` returns: one entry per input, ordered by path. */
  ghost function Listing(h: Hash, t: Tree): seq<Entry> {
    EntriesAt(h, t, NamesInOrder(InputNames(t)))
  }

  ghost function CurrentIndex(h: Hash, t: Tree): Index {
    map n | n in InputNames(t) :: EntryOf(h, n, t[n])
  }

  /** Each of the first `i` trees that exists can be scanned. */
  ghost predicate AllScannable(t: Tree, trees: seq<string>, i: nat)
    requires i <= |trees|
  {
    i == 0 || (AllScannable(t, trees, i - 1) && (trees[i - 1] in t ==> Scannable(t, trees[i - 1])))
  }

  lemma {:induction false} AllScannableEach(t: Tree, trees: seq<string>, i: nat, k: nat)
    requires k < i <= |trees| && AllScannable(t, trees, i)
    ensures AllScannable(t, trees, k) && (trees[k] in t ==> Scannable(t, trees[k]))
  {
    if k < i - 1 { AllScannableEach(t, trees, i - 1, k); }
  }

  ghost predicate Readable(t: Tree) {
    && AllScannable(t, TREES, |TREES|)
    && (forall k :: 0 <= k < |FILES| && FILES[k] in t ==> t[FILES[k]].File?)
    && |InputNames(t)| <= MAX_INPUTS
  }

  lemma {:induction false} EachMakesAll(t: Tree, trees: seq<string>, i: nat)
    requires i <= |trees| && forall k :: 0 <= k < i && trees[k] in t ==> Scannable(t, trees[k])
    ensures AllScannable(t, trees, i)
  {
    if i > 0 { EachMakesAll(t, trees, i - 1); }
  }

  /** Exactly which workspaces can be listed. */
  lemma ReadableExactly(t: Tree)
    ensures Readable(t) <==>
      && (forall k :: 0 <= k < |TREES| && TREES[k] in t ==> Scannable(t, TREES[k]))
      && (forall k :: 0 <= k < |FILES| && FILES[k] in t ==> t[FILES[k]].File?)
      && |InputNames(t)| <= 30_000
  {
    if AllScannable(t, TREES, |TREES|) {
      forall k | 0 <= k < |TREES| && TREES[k] in t ensures Scannable(t, TREES[k]) {
        AllScannableEach(t, TREES, |TREES|, k);
      }
    }
    if forall k :: 0 <= k < |TREES| && TREES[k] in t ==> Scannable(t, TREES[k]) { EachMakesAll(t, TREES, |TREES|); }
  }

  // ----- Sorting entries by path is sorting their names -----

  lemma {:induction false} InsertByPath(f: string -> Entry, n: string, names: seq<string>)
    requires forall m :: PathOf(f(m)) == m
    ensures Insert(ByPath, f(n), EntriesWith(f, names)) == EntriesWith(f, Insert(Leq, n, names))
  {
    if names != [] {
      assert PathOf(f(n)) == n && PathOf(f(names[0])) == names[0];
      if !Leq(n, names[0]) {
        InsertByPath(f, n, names[1..]);
        assert EntriesWith(f, names)[1..] == EntriesWith(f, names[1..]);
      }
    }
  }

  lemma {:induction false} SortByPath(f: string -> Entry, names: seq<string>)
    requires forall m :: PathOf(f(m)) == m
    ensures Sort(ByPath, EntriesWith(f, names)) == EntriesWith(f, Sort(Leq, names))
  {
    if names != [] {
      SortByPath(f, names[1..]);
      assert EntriesWith(f, names)[1..] == EntriesWith(f, names[1..]);
      InsertByPath(f, names[0], Sort(Leq, names[1..]));
    }
  }

  // ----- The loops of `inputs` -----

  /** `{**entry, 'path': tree + ('/' + entry['path'] if entry['path'] else '')}` */
  function Renamed(tree: string, e: Entry): Entry {
    e["path" := Str(Rooted(tree, PathOf(e)))]
  }

  lemma RenamedEntry(h: Hash, t: Tree, tree: string, n: string)
    requires n in t && Below(tree, n) && n != tree + "/"
    ensures Renamed(tree, EntryOf(h, Rel(tree, n), t[n])) == EntryOf(h, n, t[n])
  {
    RootedRel(tree, n);
  }

  method RenameAll(h: Hash, t: Tree, tree: string, scanned: seq<Entry>, ghost names: seq<string>)
    returns (r: seq<Entry>)
    requires WellFormed(t) && forall n :: n in names ==> n in t && Below(tree, n)
    requires scanned == RelEntries(h, t, tree, names)
    ensures r == EntriesAt(h, t, names)
  {
    r := [];
    for i := 0 to |scanned|
      invariant i <= |names| == |scanned|
      invariant r == EntriesAt(h, t, names[..i])
    {
      RenamedNext(h, t, tree, names, i);
      r := r + [Renamed(tree, scanned[i])];
    }
    assert names[..|names|] == names;
  }

  lemma RenamedNext(h: Hash, t: Tree, tree: string, names: seq<string>, i: nat)
    requires WellFormed(t) && (forall n :: n in names ==> n in t && Below(tree, n)) && i < |names|
    ensures |RelEntries(h, t, tree, names)| == |names|
    ensures EntriesAt(h, t, names[..i + 1])
      == EntriesAt(h, t, names[..i]) + [Renamed(tree, RelEntries(h, t, tree, names)[i])]
  {
    var n := names[i];
    assert n in names && names[..i + 1] == names[..i] + [n];
    RelEntriesAt(h, t, tree, names, i);
    SlashEnd(t, n);
    RenamedEntry(h, t, tree, n);
    EntriesOfOne(h, t, names[..i], n);
  }

  lemma InTreesStep(trees: seq<string>, i: nat, n: string)
    requires i < |trees|
    ensures InTrees(trees, i + 1, n) <==> InTrees(trees, i, n) || Below(trees[i], n)
  {
  }

  /** Different trees hold different names. */
  lemma TreesAreDisjoint(trees: seq<string>, i: nat, n: string)
    requires Roots(trees) && i < |trees| && Below(trees[i], n)
    ensures !InTrees(trees, i, n)
  {
    ParentFacts(trees[i]);
    forall j | 0 <= j < i && Below(trees[j], n) ensures false {
      ParentFacts(trees[j]);
      SubtreesAreDisjoint(trees[i], trees[j], n);
    }
  }

  /** No root file lies in a tree. */
  lemma FilesAreOutside(k: nat)
    requires k < |FILES|
    ensures !InTrees(TREES, |TREES|, FILES[k])
  {
    InputRoots();
    forall j | 0 <= j < |TREES| && Below(TREES[j], FILES[k]) ensures false {
      ParentStaysBelow(TREES[j], FILES[k]);
    }
  }

  /** One turn of the loop over the trees: a missing tree adds nothing. */
  method ListTree(h: Hash, t: Tree, again: Reread, tree: string) returns (r: Scan, ghost walked: seq<string>)
    requires WellFormed(t)
    ensures r.Scanned? <==> (tree in t ==> Scannable(t, tree)) && SteadyBelow(t, again, tree)
    ensures r.Scanned? ==> Distinct(walked) && forall n :: n in walked <==> n in t && Below(tree, n)
    ensures r.Scanned? ==> r.entries == EntriesAt(h, t, walked)
  {
    walked := [];
    if tree !in t {
      NothingBelow(t, tree);
      return Scanned([]), [];
    }
    var scan := ScanTree(h, t, again, tree);
    if scan.Unsupported? { return scan, []; }
    ScanIsComplete(h, t, tree);
    walked := PreOrder(t, tree);
    assert scan.entries == RelEntries(h, t, tree, walked);
    var renamed := RenameAll(h, t, tree, scan.entries, walked);
    r := Scanned(renamed);
  }

  /** Nothing in the first `i` trees changed between its two reads. */
  ghost predicate TreesSteady(t: Tree, again: Reread, trees: seq<string>, i: nat)
    requires i <= |trees|
  {
    forall k :: 0 <= k < i ==> SteadyBelow(t, again, trees[k])
  }

  method ListTrees(h: Hash, t: Tree, again: Reread, trees: seq<string>) returns (r: Scan, ghost names: seq<string>)
    requires WellFormed(t) && Roots(trees)
    ensures r.Scanned? <==> AllScannable(t, trees, |trees|) && TreesSteady(t, again, trees, |trees|)
    ensures r.Scanned? ==> Distinct(names) && forall n :: n in names <==> n in t && InTrees(trees, |trees|, n)
    ensures r.Scanned? ==> r.entries == EntriesAt(h, t, names)
  {
    var entries: seq<Entry> := [];
    names := [];
    for i := 0 to |trees|
      invariant AllScannable(t, trees, i) && TreesSteady(t, again, trees, i)
      invariant Distinct(names) && forall n :: n in names <==> n in t && InTrees(trees, i, n)
      invariant entries == EntriesAt(h, t, names)
    {
      var scan, walked := ListTree(h, t, again, trees[i]);
      if scan.Unsupported? {
        if AllScannable(t, trees, |trees|) { AllScannableEach(t, trees, |trees|, i); }
        return scan, [];
      }
      AddTree(t, trees, i, names, walked);
      EntriesConcat(EntryFor(h, t), names, walked);
      entries := entries + scan.entries;
      names := names + walked;
    }
    return Scanned(entries), names;
  }

  lemma EntriesConcat(f: string -> Entry, a: seq<string>, b: seq<string>)
    ensures EntriesWith(f, a + b) == EntriesWith(f, a) + EntriesWith(f, b)
  {
  }

  /** Nothing exists below a name that does not exist. */
  lemma {:induction false} NothingBelow(t: Tree, top: string)
    requires WellFormed(t) && top !in t
    ensures forall n :: n in t ==> !Below(top, n)
  {
    forall n | n in t ensures !Below(top, n) {
      if Below(top, n) { AncestorExists(t, top, n); }
    }
  }

  lemma {:induction false} AncestorExists(t: Tree, top: string, n: string)
    requires WellFormed(t) && n in t && Below(top, n)
    ensures top in t
    decreases |n|
  {
    if n != top {
      ParentStaysBelow(top, n);
      AncestorExists(t, top, Parent(n));
    }
  }

  lemma AddTree(t: Tree, trees: seq<string>, i: nat, names: seq<string>, walked: seq<string>)
    requires Roots(trees) && i < |trees| && Distinct(names) && Distinct(walked)
    requires forall n :: n in names <==> n in t && InTrees(trees, i, n)
    requires forall n :: n in walked <==> n in t && Below(trees[i], n)
    ensures Distinct(names + walked)
    ensures forall n :: n in names + walked <==> n in t && InTrees(trees, i + 1, n)
  {
    forall n ensures n in names + walked <==> n in t && InTrees(trees, i + 1, n) { InTreesStep(trees, i, n); }
    forall a, b | 0 <= a < |names| && 0 <= b < |walked| ensures names[a] != walked[b] {
      assert names[a] in names && walked[b] in walked;
      TreesAreDisjoint(trees, i, walked[b]);
    }
  }

  ghost predicate InFiles(i: nat, n: string)
    requires i <= |FILES|
  {
    exists j :: 0 <= j < i && FILES[j] == n
  }

  /** No input changed between its two reads. */
  ghost predicate InputsSteady(t: Tree, again: Reread) {
    TreesSteady(t, again, TREES, |TREES|) && FilesSteady(t, again, |FILES|)
  }

  /** `again` is what each path's second metadata read finds. */
  method Inputs(h: Hash, t: Tree, again: Reread) returns (r: Scan)
    requires WellFormed(t)
    ensures r.Scanned? <==> Readable(t) && InputsSteady(t, again)
    ensures r.Scanned? ==> r.entries == Listing(h, t)
  {
    InputRoots();
    var scan, names := ListTrees(h, t, again, TREES);
    if scan.Unsupported? { return scan; }
    scan, names := ListFiles(h, t, again, scan.entries, names);
    if scan.Unsupported? { return scan; }
    var entries := scan.entries;
    assert forall n :: n in names <==> n in InputNames(t);
    SortOfInputs(h, t, names);
    if |entries| > MAX_INPUTS { return Unsupported("workspace-entry-limit"); }
    return Scanned(Sort(ByPath, entries));
  }

  /** `names` are the inputs found in the trees and among the first `i` files. */
  ghost predicate FilesListed(t: Tree, names: seq<string>, i: nat)
    requires i <= |FILES|
  {
    Distinct(names) && forall n :: n in names <==> n in t && (InTrees(TREES, |TREES|, n) || InFiles(i, n))
  }

  ghost predicate AllFiles(t: Tree, i: nat)
    requires i <= |FILES|
  {
    forall k :: 0 <= k < i && FILES[k] in t ==> t[FILES[k]].File?
  }

  /** A root file's second read: time, size and inode must be the same; its mode is not compared. */
  predicate RootSteady(node: Node, later: Second) {
    later.Found? && later.sameFile && !later.node.Link? && later.node.mtime == node.mtime
      && Size(later.node) == Size(node)
  }

  /** A root file that is the same file of the same time and length at its second read. */
  lemma RootSteadyExactly(file: Node, later: Second)
    requires file.File?
    ensures RootSteady(file, later) <==>
      && later.Found? && later.sameFile && !later.node.Link? && later.node.mtime == file.mtime
      && |file.content| == if later.node.File? then |later.node.content| else 0
  {
  }

  ghost predicate FilesSteady(t: Tree, again: Reread, i: nat)
    requires i <= |FILES|
  {
    forall k :: 0 <= k < i && FILES[k] in t ==> RootSteady(t[FILES[k]], again(FILES[k]))
  }

  method ListFiles(h: Hash, t: Tree, again: Reread, listed: seq<Entry>, ghost inTrees: seq<string>)
    returns (r: Scan, ghost names: seq<string>)
    requires FilesListed(t, inTrees, 0)
    requires listed == EntriesAt(h, t, inTrees)
    ensures r.Scanned? <==> AllFiles(t, |FILES|) && FilesSteady(t, again, |FILES|)
    ensures r.Scanned? ==> FilesListed(t, names, |FILES|)
    ensures r.Scanned? ==> r.entries == EntriesAt(h, t, names)
  {
    var entries := listed;
    names := inTrees;
    for i := 0 to |FILES|
      invariant AllFiles(t, i) && FilesSteady(t, again, i) && FilesListed(t, names, i)
      invariant entries == EntriesAt(h, t, names)
    {
      var name := FILES[i];
      NextFile(t, names, i);
      FilesSteadyStep(t, again, i);
      if name in t {
        if t[name].Link? { return Unsupported("link-or-reparse-point"), []; }
        if !t[name].File? { return Unsupported("non-regular-root-input"), []; }
        if !RootSteady(t[name], again(name)) {
          FilesSteadyOrNot(t, again, i);
          return Unsupported("root-input-changed-during-read"), [];
        }
        EntriesOfOne(h, t, names, name);
        entries := entries + [EntryFor(h, t)(name)];
        names := names + [name];
      }
    }
    return Scanned(entries), names;
  }

  lemma EntriesOfOne(h: Hash, t: Tree, names: seq<string>, name: string)
    ensures EntriesAt(h, t, names + [name]) == EntriesAt(h, t, names) + [EntryFor(h, t)(name)]
  {
  }

  lemma InFilesStep(i: nat, n: string)
    requires i < |FILES|
    ensures InFiles(i + 1, n) <==> InFiles(i, n) || n == FILES[i]
  {
  }

  lemma FilesSteadyStep(t: Tree, again: Reread, i: nat)
    requires i < |FILES|
    ensures FilesSteady(t, again, i + 1)
      <==> FilesSteady(t, again, i) && (FILES[i] in t ==> RootSteady(t[FILES[i]], again(FILES[i])))
  {
  }

  lemma FilesSteadyOrNot(t: Tree, again: Reread, i: nat)
    requires i < |FILES| && FILES[i] in t && !RootSteady(t[FILES[i]], again(FILES[i]))
    ensures !FilesSteady(t, again, |FILES|)
  {
  }

  lemma AllFilesOrNot(t: Tree, i: nat)
    requires i < |FILES| && FILES[i] in t && !t[FILES[i]].File?
    ensures !AllFiles(t, |FILES|)
  {
  }

  /** The next file is listed exactly when it is there, and has not been listed before. */
  lemma NextFile(t: Tree, names: seq<string>, i: nat)
    requires i < |FILES| && FilesListed(t, names, i)
    ensures FilesListed(t, if FILES[i] in t then names + [FILES[i]] else names, i + 1)
    ensures FILES[i] in t && !t[FILES[i]].File? ==> !AllFiles(t, |FILES|)
    ensures AllFiles(t, i + 1) <==> AllFiles(t, i) && (FILES[i] in t ==> t[FILES[i]].File?)
  {
    InputRoots();
    FilesAreOutside(i);
    forall n ensures InFiles(i + 1, n) <==> InFiles(i, n) || n == FILES[i] { InFilesStep(i, n); }
    if FILES[i] in t && !t[FILES[i]].File? { AllFilesOrNot(t, i); }
  }

  lemma SortOfInputs(h: Hash, t: Tree, names: seq<string>)
    requires Distinct(names) && forall n :: n in names <==> n in InputNames(t)
    ensures Sort(ByPath, EntriesAt(h, t, names)) == Listing(h, t)
    ensures |names| == |InputNames(t)|
  {
    LeqIsLinear();
    SortOfKeys(Leq, names, InputNames(t));
    EntryForPaths(h, t);
    SortByPath(EntryFor(h, t), names);
  }
}
