/** cargo-cache-source-stamps.py: scanning a directory tree, the flat comparison, and the whole-package restore. */
module SourceStamps {
  import opened Ordering
  import opened Paths
  import opened Splitting
  import opened CanonicalJson
  import opened SubtreeHashes
  import opened FileTree
  import opened Stamping

  const MAX_ENTRIES: nat := 20_000
  const MAX_PACKAGE_BYTES: nat := 128 * 1024 * 1024

  // ----- Entries -----

  function EntryOf(h: Hash, name: string, node: Node): (e: Entry)
    ensures e.Keys == {"path", "mtime_ns", "mode", "kind"} + (if node.File? then {"size", "sha256"} else {})
    ensures e["path"] == Str(name) && e["mtime_ns"] == Int(node.mtime)
    ensures e["kind"] == Str(if node.File? then "file" else "directory")
    ensures !node.Link? ==> e["mode"] == Int(node.mode)
    ensures node.File? ==> e["size"] == Int(|node.content|) && e["sha256"] == Str(h(node.content))
  {
    var mode := if node.Link? then 0 else node.mode;
    var common: Entry := map["path" := Str(name), "mtime_ns" := Int(node.mtime), "mode" := Int(mode)];
    if node.File? then
      common["kind" := Str("file")]["size" := Int(|node.content|)]["sha256" := Str(h(node.content))]
    else common["kind" := Str("directory")]
  }

  /** The identity of an entry does not depend on the time. */
  lemma IdentityIgnoresTime(h: Hash, name: string, node: Node, stamp: int)
    requires Regular(node)
    ensures Identity(EntryOf(h, name, WithTime(node, stamp))) == Identity(EntryOf(h, name, node))
  {
    var e, f := EntryOf(h, name, node), EntryOf(h, name, WithTime(node, stamp));
    assert f == e["mtime_ns" := Int(stamp)];
  }

  /**
   * There is still something at the path that looks like what was scanned: no link, same time, mode and file length.
   */
  predicate LooksScanned(now: Tree, name: string, node: Node) {
    && Regular(node) && name in now && !now[name].Link?
    && now[name].mtime == node.mtime && now[name].mode == node.mode
    && (node.File? ==> |node.content| == if now[name].File? then |now[name].content| else 0)
  }

  /** The guard of a timestamp write compares exactly that. */
  lemma GuardExactly(h: Hash, rel: string, name: string, node: Node, now: Tree)
    requires Regular(node)
    ensures Untouched(now, name, EntryOf(h, rel, node)) <==> LooksScanned(now, name, node)
  {
    var e := EntryOf(h, rel, node);
    assert IntAt(e, "mtime_ns") == node.mtime && IntAt(e, "mode") == node.mode;
    if node.File? { assert IntAt(e, "size") == |node.content|; }
  }

  /** Step `k` stamps its path if that looks as scanned in `t`; if not, the run ends and never writes the path. */
  ghost predicate StampedOrStopped(t: Tree, plan: seq<Step>, world: World, k: nat)
    requires k < |plan| && plan[k].stamp.Some? && plan[k].name in t
  {
    var name, stamp, now := plan[k].name, plan[k].stamp.value, Seen(t, plan, world, k);
    var before, after := Run(t, plan[..k], world), Run(t, plan[..k + 1], world);
    if LooksScanned(now, name, t[name]) then
      && !after.aborted && after.writes == before.writes + [Write(name, stamp)]
      && after.tree == now[name := WithTime(now[name], stamp)]
    else
      && after.aborted && after.tree == now && Run(t, plan, world) == after
      && forall w :: 0 <= w < |after.writes| ==> after.writes[w].name != name
  }

  lemma GuardDecides(t: Tree, plan: seq<Step>, world: World, k: nat)
    requires NamesDistinct(plan) && k < |plan| && plan[k].stamp.Some? && plan[k].name in t
    requires !Run(t, plan[..k], world).aborted
    requires Untouched(Seen(t, plan, world, k), plan[k].name, plan[k].entry)
      <==> LooksScanned(Seen(t, plan, world, k), plan[k].name, t[plan[k].name])
    ensures StampedOrStopped(t, plan, world, k)
  {
    StepExactly(t, plan, world, k);
    if Run(t, plan[..k + 1], world).aborted {
      AbortedStays(t, plan, k + 1, world);
      forall w | 0 <= w < |Run(t, plan, world).writes| ensures Run(t, plan, world).writes[w].name != plan[k].name {
        FailedIsNotWritten(t, plan, world, k, w);
      }
    }
  }

  /** The path of `path` seen from `root`: `""` for the root itself. */
  function Rel(root: string, path: string): string
    requires Below(root, path)
  {
    if path == root then "" else path[|root| + 1..]
  }

  /** `root + ('/' + rel if rel else '')` */
  function Rooted(root: string, rel: string): string {
    if rel == "" then root else root + "/" + rel
  }

  lemma RootedRel(root: string, path: string)
    requires Below(root, path) && path != root + "/"
    ensures Rooted(root, Rel(root, path)) == path
  {
    if path != root { assert path == root + "/" + path[|root| + 1..]; }
  }

  function BaseName(path: string): string
    requires '/' in path
  {
    ParentFacts(path);
    path[|Parent(path)| + 1..]
  }

  /** `f"{name}/{child.name}" if name else child.name` */
  function ChildName(name: string, base: string): string {
    if name != "" then name + "/" + base else base
  }

  /** The name `visit` passes down is the child's path seen from the root. */
  lemma RelOfChild(root: string, path: string, child: string)
    requires Below(root, path) && path != root + "/" && '/' in child && Parent(child) == path
    ensures Below(root, child)
    ensures Rel(root, child) == ChildName(Rel(root, path), BaseName(child))
  {
    BelowParent(child);
    BelowIsTransitive(root, path, child);
    var base := BaseName(child);
    assert child == path + "/" + base;
    if path != root {
      var rel := Rel(root, path);
      assert path == root + "/" + rel;
      Regroup3(root, rel, base);
    } else {
      AfterRoot(root, base);
    }
  }

  lemma Regroup3(root: string, rel: string, base: string)
    ensures var child := (root + "/" + rel) + "/" + base; child != root && child[|root| + 1..] == rel + "/" + base
  {
    assert (root + "/" + rel) + "/" + base == (root + "/") + (rel + "/" + base);
  }

  lemma AfterRoot(root: string, base: string)
    ensures (root + "/" + base)[|root| + 1..] == base
  {
  }

  function RelEntries(h: Hash, t: Tree, root: string, names: seq<string>): (r: seq<Entry>)
    requires forall n :: n in names ==> n in t && Below(root, n)
  {
    seq(|names|, i requires 0 <= i < |names| =>
      assert names[i] in names; EntryOf(h, Rel(root, names[i]), t[names[i]]))
  }

  lemma RelEntriesAt(h: Hash, t: Tree, root: string, names: seq<string>, k: nat)
    requires (forall n :: n in names ==> n in t && Below(root, n)) && k < |names|
    ensures |RelEntries(h, t, root, names)| == |names| && names[k] in t && Below(root, names[k])
    ensures RelEntries(h, t, root, names)[k] == EntryOf(h, Rel(root, names[k]), t[names[k]])
  {
    assert names[k] in names;
  }

  function TotalSize(t: Tree, names: seq<string>): nat
    requires forall n :: n in names ==> n in t
  {
    if names == [] then 0
    else
      assert Last(names) in names;
      TotalSize(t, Front(names)) + Size(t[Last(names)])
  }

  lemma {:induction false} TotalSizeOfConcat(t: Tree, a: seq<string>, b: seq<string>)
    requires forall n :: n in a + b ==> n in t
    requires (forall n :: n in a ==> n in t) && (forall n :: n in b ==> n in t)
    ensures TotalSize(t, a + b) == TotalSize(t, a) + TotalSize(t, b)
  {
    if b == [] {
      assert a + b == a;
    } else {
      assert Front(a + b) == a + Front(b);
      TotalSizeOfConcat(t, a, Front(b));
    }
  }

  // ----- `scan` -----

  ghost predicate AllRegular(t: Tree, names: seq<string>) {
    forall n :: n in names ==> n in t && Regular(t[n])
  }

  /** A walk over `names`, begun with `count` entries and `bytes` bytes, meets no error. */
  ghost predicate Fits(t: Tree, names: seq<string>, count: nat, bytes: nat) {
    AllRegular(t, names) && count + |names| <= MAX_ENTRIES && bytes + TotalSize(t, names) <= MAX_PACKAGE_BYTES
  }

  lemma FitsConcat(t: Tree, a: seq<string>, b: seq<string>, count: nat, bytes: nat)
    requires (forall n :: n in a ==> n in t) && (forall n :: n in b ==> n in t)
    ensures Fits(t, a + b, count, bytes) <==>
      Fits(t, a, count, bytes) && Fits(t, b, count + |a|, bytes + TotalSize(t, a))
  {
    TotalSizeOfConcat(t, a, b);
  }

  lemma RelEntriesConcat(h: Hash, t: Tree, root: string, a: seq<string>, b: seq<string>)
    requires (forall n :: n in a ==> n in t && Below(root, n)) && (forall n :: n in b ==> n in t && Below(root, n))
    ensures RelEntries(h, t, root, a + b) == RelEntries(h, t, root, a) + RelEntries(h, t, root, b)
  {
  }

  lemma FitsOne(t: Tree, path: string, count: nat, bytes: nat)
    requires path in t
    ensures Fits(t, [path], count, bytes) <==>
      Regular(t[path]) && count < MAX_ENTRIES && bytes + Size(t[path]) <= MAX_PACKAGE_BYTES
    ensures TotalSize(t, [path]) == Size(t[path])
  {
    assert Front([path]) == [] && Last([path]) == path;
    assert TotalSize(t, [path]) == TotalSize(t, []) + Size(t[path]);
    if Regular(t[path]) { assert AllRegular(t, [path]); }
    if AllRegular(t, [path]) { assert path in [path]; }
  }

  /** A directory and the subtrees of its first `i` children. */
  function Walked(t: Tree, path: string, cs: seq<string>, i: nat): (r: seq<string>)
    requires path in t && "" !in t && (forall c :: c in cs ==> c in Children(t, path)) && i <= |cs|
    ensures forall n :: n in r ==> n in t
  {
    [path] + PreOrderAll(t, path, cs[..i])
  }

  lemma WalkedGrows(t: Tree, path: string, cs: seq<string>, i: nat)
    requires path in t && "" !in t && (forall c :: c in cs ==> c in Children(t, path)) && i < |cs|
    ensures cs[i] in t
    ensures Walked(t, path, cs, i + 1) == Walked(t, path, cs, i) + PreOrder(t, cs[i])
  {
    assert cs[..i + 1] == cs[..i] + [cs[i]] && Front(cs[..i + 1]) == cs[..i];
    assert cs[i] in cs;
  }

  /** If the whole walk fits, so does the walk over the first children. */
  lemma WalkedFits(t: Tree, path: string, cs: seq<string>, i: nat, count: nat, bytes: nat)
    requires path in t && "" !in t && (forall c :: c in cs ==> c in Children(t, path)) && i <= |cs|
    requires Fits(t, Walked(t, path, cs, |cs|), count, bytes)
    ensures Fits(t, Walked(t, path, cs, i), count, bytes)
    decreases |cs| - i
  {
    if i < |cs| {
      WalkedFits(t, path, cs, i + 1, count, bytes);
      WalkedGrows(t, path, cs, i);
      FitsConcat(t, Walked(t, path, cs, i), PreOrder(t, cs[i]), count, bytes);
    }
  }

  /** The shared variables after a walk over `names`. */
  ghost predicate Recorded(h: Hash, t: Tree, root: string, names: seq<string>,
                           before: seq<Entry>, bytes: nat, entries: seq<Entry>, totalBytes: nat) {
    && (forall n :: n in names ==> n in t && Below(root, n))
    && Fits(t, names, |before|, bytes)
    && entries == before + RelEntries(h, t, root, names)
    && totalBytes == bytes + TotalSize(t, names)
  }

  lemma RecordedCounts(h: Hash, t: Tree, root: string, names: seq<string>,
                       before: seq<Entry>, bytes: nat, entries: seq<Entry>, totalBytes: nat)
    requires Recorded(h, t, root, names, before, bytes, entries, totalBytes)
    ensures |entries| == |before| + |names| && totalBytes == bytes + TotalSize(t, names)
  {
  }

  lemma RecordedOne(h: Hash, t: Tree, root: string, path: string, before: seq<Entry>, bytes: nat)
    requires path in t && Below(root, path) && Regular(t[path])
    requires |before| < MAX_ENTRIES && bytes + Size(t[path]) <= MAX_PACKAGE_BYTES
    ensures Recorded(h, t, root, [path], before, bytes,
                     before + [EntryOf(h, Rel(root, path), t[path])], bytes + Size(t[path]))
  {
    FitsOne(t, path, |before|, bytes);
    assert forall n :: n in [path] ==> n == path;
    assert RelEntries(h, t, root, [path]) == [EntryOf(h, Rel(root, path), t[path])];
  }

  lemma RecordedMore(h: Hash, t: Tree, root: string, a: seq<string>, b: seq<string>,
                     e0: seq<Entry>, t0: nat, e1: seq<Entry>, t1: nat, e2: seq<Entry>, t2: nat)
    requires Recorded(h, t, root, a, e0, t0, e1, t1) && Recorded(h, t, root, b, e1, t1, e2, t2)
    ensures Recorded(h, t, root, a + b, e0, t0, e2, t2)
  {
    RecordedCounts(h, t, root, a, e0, t0, e1, t1);
    FitsConcat(t, a, b, |e0|, t0);
    TotalSizeOfConcat(t, a, b);
    RelEntriesConcat(h, t, root, a, b);
    AssociateEntries(e0, RelEntries(h, t, root, a), RelEntries(h, t, root, b));
  }

  lemma AssociateEntries(x: seq<Entry>, y: seq<Entry>, z: seq<Entry>)
    ensures (x + y) + z == x + (y + z)
  {
  }

  /** `visit` with the two variables it shares with `scan`. */
  class Scanner {
    var entries: seq<Entry>
    var totalBytes: nat

    constructor ()
      ensures entries == [] && totalBytes == 0
    {
      entries, totalBytes := [], 0;
    }

    method Visit(h: Hash, t: Tree, again: Reread, root: string, path: string, name: string) returns (s: Status)
      requires WellFormed(t) && path in t && Below(root, path) && name == Rel(root, path)
      requires totalBytes <= MAX_PACKAGE_BYTES
      modifies this
      ensures s.Done?
        <==> Fits(t, PreOrder(t, path), old(|entries|), old(totalBytes)) && AllSteady(t, again, PreOrder(t, path))
      ensures s.Done? ==>
        Recorded(h, t, root, PreOrder(t, path), old(entries), old(totalBytes), entries, totalBytes)
      decreases Deeper(t, Depth(path))
    {
      assert path in PreOrder(t, path);
      if |entries| >= MAX_ENTRIES { return Failed("package-entry-limit"); }
      if t[path].Link? { return Failed("link-or-reparse-point"); }
      if t[path].Dir? {
        s := VisitDirectory(h, t, again, root, path, name);
      } else if t[path].File? {
        FitsOne(t, path, |entries|, totalBytes);
        SteadyOne(t, again, path);
        totalBytes := totalBytes + |t[path].content|;
        if totalBytes > MAX_PACKAGE_BYTES { return Failed("package-byte-limit"); }
        if !Steady(t[path], again(path)) { return Failed("source-changed-during-read"); }
        RecordedOne(h, t, root, path, entries, old(totalBytes));
        entries := entries + [EntryOf(h, name, t[path])];
        return Done;
      } else {
        return Failed("non-regular-input");
      }
    }

    method VisitDirectory(h: Hash, t: Tree, again: Reread, root: string, path: string, name: string) returns (s: Status)
      requires WellFormed(t) && path in t && t[path].Dir? && Below(root, path) && name == Rel(root, path)
      requires totalBytes <= MAX_PACKAGE_BYTES && |entries| < MAX_ENTRIES
      modifies this
      ensures s.Done?
        <==> Fits(t, PreOrder(t, path), old(|entries|), old(totalBytes)) && AllSteady(t, again, PreOrder(t, path))
      ensures s.Done? ==>
        Recorded(h, t, root, PreOrder(t, path), old(entries), old(totalBytes), entries, totalBytes)
      decreases Deeper(t, Depth(path)), 1
    {
      var cs := ChildList(t, path);
      WalkedEnds(t, path);
      RecordedOne(h, t, root, path, entries, totalBytes);
      entries := entries + [EntryOf(h, name, t[path])];
      SteadyDirectory(t, again, path);
      s := VisitChildren(h, t, again, root, path, name, cs, old(entries), old(totalBytes));
      if s.Done? && !Steady(t[path], again(path)) { s := Failed("directory-changed-during-read"); }
    }

    method VisitChildren(h: Hash, t: Tree, again: Reread, root: string, path: string, name: string, cs: seq<string>,
                         ghost before: seq<Entry>, ghost bytes: nat) returns (s: Status)
      requires WellFormed(t) && path in t && Below(root, path) && name == Rel(root, path)
      requires forall c :: c in cs ==> c in Children(t, path)
      requires Recorded(h, t, root, Walked(t, path, cs, 0), before, bytes, entries, totalBytes)
      modifies this
      ensures s.Done?
        <==> Fits(t, Walked(t, path, cs, |cs|), |before|, bytes) && AllSteady(t, again, PreOrderAll(t, path, cs))
      ensures s.Done? ==> Recorded(h, t, root, Walked(t, path, cs, |cs|), before, bytes, entries, totalBytes)
      decreases Deeper(t, Depth(path)), 0
    {
      for i := 0 to |cs|
        invariant Recorded(h, t, root, Walked(t, path, cs, i), before, bytes, entries, totalBytes)
        invariant AllSteady(t, again, PreOrderAll(t, path, cs[..i]))
      {
        VisitedChild(t, root, path, cs, i);
        SteadyChild(t, again, path, cs, i);
        RecordedCounts(h, t, root, Walked(t, path, cs, i), before, bytes, entries, totalBytes);
        ghost var e1, t1 := entries, totalBytes;
        s := Visit(h, t, again, root, cs[i], ChildName(name, BaseName(cs[i])));
        if s.Failed? {
          if !Fits(t, PreOrder(t, cs[i]), |e1|, t1) { DoesNotFit(t, path, cs, i, |before|, bytes, |e1|, t1); }
          return;
        }
        RecordedMore(h, t, root, Walked(t, path, cs, i), PreOrder(t, cs[i]), before, bytes, e1, t1, entries,
          totalBytes);
      }
      assert cs[..|cs|] == cs;
      return Done;
    }
  }

  lemma SteadyDirectory(t: Tree, again: Reread, path: string)
    requires path in t && "" !in t && t[path].Dir?
    ensures AllSteady(t, again, PreOrder(t, path))
      <==> Steady(t[path], again(path)) && AllSteady(t, again, PreOrderAll(t, path, ChildList(t, path)))
  {
    assert path in PreOrder(t, path);
  }

  lemma SteadyOne(t: Tree, again: Reread, path: string)
    requires path in t && "" !in t && !t[path].Dir?
    ensures AllSteady(t, again, PreOrder(t, path)) <==> Steady(t[path], again(path))
  {
    assert path in PreOrder(t, path);
  }

  lemma SteadyChild(t: Tree, again: Reread, path: string, cs: seq<string>, i: nat)
    requires path in t && "" !in t && (forall c :: c in cs ==> c in Children(t, path)) && i < |cs| && cs[i] in t
    ensures AllSteady(t, again, PreOrderAll(t, path, cs[..i + 1]))
      <==> AllSteady(t, again, PreOrderAll(t, path, cs[..i])) && AllSteady(t, again, PreOrder(t, cs[i]))
    ensures AllSteady(t, again, PreOrderAll(t, path, cs)) ==> AllSteady(t, again, PreOrder(t, cs[i]))
  {
    assert cs[..i + 1] == cs[..i] + [cs[i]] && Front(cs[..i + 1]) == cs[..i];
    ChildWalked(t, path, cs, i);
  }

  /** The walk below a directory meets everything the walk below a child meets. */
  lemma {:induction false} ChildWalked(t: Tree, path: string, cs: seq<string>, i: nat)
    requires path in t && "" !in t && (forall c :: c in cs ==> c in Children(t, path)) && i < |cs| && cs[i] in t
    ensures forall n :: n in PreOrder(t, cs[i]) ==> n in PreOrderAll(t, path, cs)
  {
    assert Last(cs) in cs;
    if i < |cs| - 1 { ChildWalked(t, path, Front(cs), i); }
  }

  lemma SteadyWalk(t: Tree, again: Reread, root: string)
    requires WellFormed(t) && root in t
    ensures AllSteady(t, again, PreOrder(t, root)) <==> SteadyBelow(t, again, root)
  {
    forall n ensures n in PreOrder(t, root) <==> n in t && Below(root, n) { PreOrderMembers(t, root, n); }
  }

  lemma WalkedEnds(t: Tree, path: string)
    requires path in t && "" !in t && t[path].Dir?
    ensures Walked(t, path, ChildList(t, path), 0) == [path]
    ensures Walked(t, path, ChildList(t, path), |ChildList(t, path)|) == PreOrder(t, path)
  {
    var cs := ChildList(t, path);
    assert cs[..0] == [] && cs[..|cs|] == cs;
  }

  lemma VisitedChild(t: Tree, root: string, path: string, cs: seq<string>, i: nat)
    requires WellFormed(t) && path in t && Below(root, path)
    requires (forall c :: c in cs ==> c in Children(t, path)) && i < |cs|
    ensures cs[i] in t && '/' in cs[i] && Below(root, cs[i]) && Deeper(t, Depth(cs[i])) < Deeper(t, Depth(path))
    ensures Rel(root, cs[i]) == ChildName(Rel(root, path), BaseName(cs[i]))
    ensures Walked(t, path, cs, i + 1) == Walked(t, path, cs, i) + PreOrder(t, cs[i])
  {
    assert cs[i] in cs;
    SlashEnd(t, path);
    ChildIsDeeper(t, path, cs[i]);
    RelOfChild(root, path, cs[i]);
    WalkedGrows(t, path, cs, i);
  }

  /** A child that cannot be added after its predecessors makes the whole directory too much. */
  lemma DoesNotFit(t: Tree, path: string, cs: seq<string>, i: nat, count: nat, bytes: nat, countThere: nat,
                   bytesThere: nat)
    requires path in t && "" !in t && (forall c :: c in cs ==> c in Children(t, path)) && i < |cs| && cs[i] in t
    requires countThere == count + |Walked(t, path, cs, i)|
      && bytesThere == bytes + TotalSize(t, Walked(t, path, cs, i))
    requires !Fits(t, PreOrder(t, cs[i]), countThere, bytesThere)
    ensures !Fits(t, Walked(t, path, cs, |cs|), count, bytes)
  {
    WalkedGrows(t, path, cs, i);
    FitsConcat(t, Walked(t, path, cs, i), PreOrder(t, cs[i]), count, bytes);
    if Fits(t, Walked(t, path, cs, |cs|), count, bytes) { WalkedFits(t, path, cs, i + 1, count, bytes); }
  }

  lemma SlashEndIsBad(root: string)
    ensures "" in Split(root + "/", '/')
  {
    SplitConcat(root, "/", '/');
    assert Split("/", '/') == [[]] + Split("/"[1..], '/') == [[], []];
    assert Last(Split(root + "/", '/')) == "";
  }

  /** No path that exists ends in a slash. */
  lemma SlashEnd(t: Tree, path: string)
    requires WellFormed(t) && path in t
    ensures forall root :: path != root + "/"
  {
    forall root ensures path != root + "/" { SlashEndIsBad(root); }
  }

  datatype Scan = Scanned(entries: seq<Entry>) | Unsupported(reason: string)

  ghost predicate Scannable(t: Tree, root: string) {
    "" !in t && root in t && t[root].Dir? && Fits(t, PreOrder(t, root), 0, 0)
  }

  /** `again` is what each path's second metadata read finds. */
  method ScanTree(h: Hash, t: Tree, again: Reread, root: string) returns (r: Scan)
    requires WellFormed(t)
    ensures r.Scanned? <==> Scannable(t, root) && SteadyBelow(t, again, root)
    ensures r.Scanned? ==> Recorded(h, t, root, PreOrder(t, root), [], 0, r.entries, TotalSize(t, PreOrder(t, root)))
  {
    var found := WalkTo(t, root);
    if !found.Reached? || !found.node.Dir? { return Unsupported("package-root-not-directory"); }
    var scanner := new Scanner();
    SteadyWalk(t, again, root);
    var s := scanner.Visit(h, t, again, root, root, "");
    if s.Failed? { return Unsupported(s.reason); }
    return Scanned(scanner.entries);
  }

  ghost function NamesBelow(t: Tree, root: string): set<string> {
    set n | n in t && Below(root, n)
  }

  /** Exactly which trees can be scanned: a real directory of files and directories within the two limits. */
  lemma ScannableExactly(t: Tree, root: string)
    requires WellFormed(t)
    ensures Scannable(t, root) <==>
      && root in t && t[root].Dir?
      && (forall n :: n in NamesBelow(t, root) ==> t[n].File? || t[n].Dir?)
      && |NamesBelow(t, root)| <= 20_000 && TotalSize(t, PreOrder(t, root)) <= 134_217_728
  {
    if root in t {
      var names := PreOrder(t, root);
      forall n ensures n in names <==> n in NamesBelow(t, root) { PreOrderMembers(t, root, n); }
      PreOrderDistinct(t, root);
      DistinctSize(names, NamesBelow(t, root));
    }
  }

  /** Two reads agree exactly when the second would have given the same entry, up to the hash, of the same file. */
  lemma SteadyExactly(h: Hash, name: string, node: Node, later: Second)
    requires Regular(node)
    ensures Steady(node, later) <==>
      && later.Found? && later.sameFile && Regular(later.node)
      && forall key :: key in {"mtime_ns", "mode", "kind", "size"} ==>
           Get(EntryOf(h, name, later.node), key) == Get(EntryOf(h, name, node), key)
  {
    if later.Found? && Regular(later.node) {
      var e, f := EntryOf(h, name, node), EntryOf(h, name, later.node);
      assert Get(e, "mtime_ns") == Int(node.mtime) && Get(f, "mtime_ns") == Int(later.node.mtime);
      assert Get(e, "mode") == Int(node.mode) && Get(f, "mode") == Int(later.node.mode);
      assert Get(e, "size") == if node.File? then Int(|node.content|) else Null;
      assert Get(f, "size") == if later.node.File? then Int(|later.node.content|) else Null;
    }
  }

  /** A successful scan lists exactly the tree below its root: once each, parents first, within the limits. */
  lemma ScanIsComplete(h: Hash, t: Tree, root: string)
    requires WellFormed(t) && Scannable(t, root)
    ensures var names := PreOrder(t, root);
      && (forall n :: n in names <==> n in t && Below(root, n))
      && Distinct(names) && ParentsFirst(root, names)
      && 1 <= |names| <= MAX_ENTRIES && TotalSize(t, names) <= MAX_PACKAGE_BYTES
  {
    forall n ensures n in PreOrder(t, root) <==> n in t && Below(root, n) { PreOrderMembers(t, root, n); }
    PreOrderDistinct(t, root);
    PreOrderParentsFirst(t, root);
  }
}
