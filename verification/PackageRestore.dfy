/** The flat comparison `compatible`, and the restore loop that touches a package as a whole or not at all. */
module PackageRestore {
  import opened Ordering
  import opened Paths
  import opened Splitting
  import opened CanonicalJson
  import opened SubtreeHashes
  import opened FileTree
  import opened Options
  import opened Stamping
  import opened SourceStamps

  const COMPARED := ["kind", "mode", "size", "sha256"]

  ghost predicate SameContent(e: Entry, f: Entry) {
    forall key :: key in COMPARED ==> Get(e, key) == Get(f, key)
  }

  ghost predicate Compatible(current: seq<Entry>, saved: Index) {
    && (set e | e in current :: PathOf(e)) == saved.Keys
    && forall e :: e in current ==> PathOf(e) in saved && SameContent(e, saved[PathOf(e)])
  }

  method IsCompatible(current: seq<Entry>, saved: Index) returns (same: bool)
    ensures same <==> Compatible(current, saved)
  {
    if (set e | e in current :: PathOf(e)) != saved.Keys { return false; }
    for i := 0 to |current|
      invariant forall k :: 0 <= k < i ==>
        PathOf(current[k]) in saved && SameContent(current[k], saved[PathOf(current[k])])
    {
      assert current[i] in current && PathOf(current[i]) in (set e | e in current :: PathOf(e));
      var before := saved[PathOf(current[i])];
      for j := 0 to |COMPARED|
        invariant forall k :: 0 <= k < j ==> Get(current[i], COMPARED[k]) == Get(before, COMPARED[k])
      {
        if Get(current[i], COMPARED[j]) != Get(before, COMPARED[j]) {
          assert COMPARED[j] in COMPARED;
          return false;
        }
      }
    }
    return true;
  }

  // ----- Agreement with the Merkle comparison -----

  /** An entry with the keys `scan` writes and no others. */
  ghost predicate ScannedShape(e: Entry, name: string) {
    && {"path", "mtime_ns", "mode", "kind"} <= e.Keys
    && e["path"] == Str(name) && e["mode"].Int? && e["kind"] in {Str("file"), Str("directory")}
    && e.Keys == {"path", "mtime_ns", "mode", "kind"} + (if e["kind"] == Str("file") then {"size", "sha256"} else {})
    && (e["kind"] == Str("file") ==> e["size"].Int? && e["sha256"].Str?)
  }

  ghost predicate ScannedIndex(m: Index) {
    forall n :: n in m ==> ScannedShape(m[n], n)
  }

  lemma SameContentIsSameIdentity(e: Entry, f: Entry, name: string)
    requires ScannedShape(e, name) && ScannedShape(f, name)
    ensures SameContent(e, f) <==> Identity(e) == Identity(f)
  {
    var keys := {"path", "mode", "kind", "size", "sha256"};
    assert Identity(e).Keys <= keys && Identity(f).Keys <= keys;
    if SameContent(e, f) {
      assert COMPARED[0] in COMPARED && COMPARED[1] in COMPARED && COMPARED[2] in COMPARED && COMPARED[3] in COMPARED;
      assert Get(e, "kind") == Get(f, "kind") && Get(e, "mode") == Get(f, "mode");
      assert Get(e, "size") == Get(f, "size") && Get(e, "sha256") == Get(f, "sha256");
      assert e["kind"] == f["kind"];
      forall k | k in keys
        ensures (k in Identity(e) <==> k in Identity(f)) && (k in Identity(e) ==> Identity(e)[k] == Identity(f)[k])
      {
      }
    }
    if Identity(e) == Identity(f) {
      forall k | k in COMPARED ensures Get(e, k) == Get(f, k) {
        assert k != "mtime_ns";
        assert (k in e <==> k in Identity(e)) && (k in f <==> k in Identity(f));
      }
    }
  }

  /** Package-relative entries as the workspace scan names them. */
  ghost function AtRoot(root: string, m: Index): (r: Index) {
    map n | n in (set k | k in m :: Rooted(root, k)) && Below(root, n) && Rel(root, n) in m
      :: m[Rel(root, n)]["path" := Str(n)]
  }

  lemma AtRootEntry(root: string, m: Index, name: string)
    ensures name in m <==> Rooted(root, name) in AtRoot(root, m)
    ensures name in m ==> AtRoot(root, m)[Rooted(root, name)] == m[name]["path" := Str(Rooted(root, name))]
  {
    var n := Rooted(root, name);
    assert Below(root, n) && Rel(root, n) == name by {
      if name != "" { assert n == (root + "/") + name; }
    }
  }

  lemma AtRootNames(root: string, m: Index, n: string) returns (name: string)
    requires n in AtRoot(root, m)
    ensures name in m && n == Rooted(root, name) && Below(root, n)
  {
    name :| name in m && n == Rooted(root, name);
  }

  /** What `validate_state` demands of the names of a package. */
  ghost predicate PackageIndex(m: Index) {
    && "" in m && ScannedIndex(m)
    && forall n :: n in m && n != "" ==> GoodName(n) && Parent(n) in m
  }

  lemma GoodParent(name: string)
    requires GoodName(name) && '/' in name
    ensures Parent(name) != ""
  {
    ParentFacts(name);
    assert name == [name[0]] + name[1..];
    LeadingSlashIsBad(name[1..]);
  }

  lemma LeadingSlashIsBad(rest: string)
    ensures "" in Split("/" + rest, '/')
  {
    assert ("/" + rest)[1..] == rest;
    assert Split("/" + rest, '/')[0] == "";
  }

  lemma AtRootIsHashable(root: string, m: Index)
    requires PackageIndex(m) && root != ""
    ensures Hashable(AtRoot(root, m)) && ClosedBelow(AtRoot(root, m), root) && root in AtRoot(root, m)
  {
    var w := AtRoot(root, m);
    AtRootEntry(root, m, "");
    forall n | n in w ensures n != "" && "path" in w[n] && w[n]["path"] == Str(n) {
      var name := AtRootNames(root, m, n);
      AtRootEntry(root, m, name);
    }
    forall n | n in w && n != root && Below(root, n) ensures Parent(n) in w {
      var name := AtRootNames(root, m, n);
      assert n == root + "/" + name;
      ParentOfJoin(root, name);
      ParentFacts(name);
      if '/' in name { GoodParent(name); }
      AtRootEntry(root, m, Parent(name));
    }
  }

  lemma RenamedIdentity(e: Entry, f: Entry, p: Json)
    requires "path" in e && "path" in f && e["path"] == f["path"]
    ensures Identity(e["path" := p]) == Identity(f["path" := p]) <==> Identity(e) == Identity(f)
  {
    var q := e["path"];
    assert Identity(e["path" := p]) == Identity(e)["path" := p];
    assert Identity(f["path" := p]) == Identity(f)["path" := p];
    assert Identity(e) == Identity(e)["path" := p]["path" := q];
    assert Identity(f) == Identity(f)["path" := p]["path" := q];
  }

  lemma RootedAgree(root: string, a: Index, b: Index, name: string)
    requires ScannedIndex(a) && ScannedIndex(b)
    ensures Agree(AtRoot(root, a), AtRoot(root, b), Rooted(root, name)) <==> Agree(a, b, name)
  {
    AtRootEntry(root, a, name);
    AtRootEntry(root, b, name);
    if name in a && name in b {
      var e, f, p := a[name], b[name], Str(Rooted(root, name));
      assert ScannedShape(e, name) && ScannedShape(f, name);
      RenamedIdentity(e, f, p);
    }
  }

  lemma SameEverywhere(root: string, a: Index, b: Index)
    requires ScannedIndex(a) && ScannedIndex(b)
    ensures SameBelow(AtRoot(root, a), AtRoot(root, b), root) <==> forall n :: Agree(a, b, n)
  {
    var wa, wb := AtRoot(root, a), AtRoot(root, b);
    if SameBelow(wa, wb, root) {
      forall n ensures Agree(a, b, n) {
        assert Below(root, Rooted(root, n)) by { if n != "" { assert Rooted(root, n) == (root + "/") + n; } }
        RootedAgree(root, a, b, n);
      }
    }
    if forall n :: Agree(a, b, n) {
      forall n | Below(root, n) ensures Agree(wa, wb, n) {
        if n in wa {
          var name := AtRootNames(root, a, n);
          RootedAgree(root, a, b, name);
        } else if n in wb {
          var name := AtRootNames(root, b, n);
          RootedAgree(root, a, b, name);
        }
      }
    }
  }

  ghost predicate Lists(current: seq<Entry>, m: Index) {
    && (forall e :: e in current ==> PathOf(e) in m && m[PathOf(e)] == e)
    && forall n :: n in m ==> m[n] in current
  }

  lemma FlatIsFullComparison(current: seq<Entry>, a: Index, b: Index)
    requires ScannedIndex(a) && ScannedIndex(b) && Lists(current, a)
    ensures Compatible(current, b) <==> forall n :: Agree(a, b, n)
  {
    if Compatible(current, b) { CompatibleMeansAgree(current, a, b); }
    if forall n :: Agree(a, b, n) { AgreeMeansCompatible(current, a, b); }
  }

  lemma ListedPaths(current: seq<Entry>, a: Index)
    requires ScannedIndex(a) && Lists(current, a)
    ensures (set e | e in current :: PathOf(e)) == a.Keys
  {
    forall n | n in a ensures n in (set e | e in current :: PathOf(e)) { assert PathOf(a[n]) == n; }
  }

  lemma CompatibleMeansAgree(current: seq<Entry>, a: Index, b: Index)
    requires ScannedIndex(a) && ScannedIndex(b) && Lists(current, a) && Compatible(current, b)
    ensures forall n :: Agree(a, b, n)
  {
    ListedPaths(current, a);
    forall n ensures Agree(a, b, n) {
      if n in a {
        assert a[n] in current && PathOf(a[n]) == n;
        SameContentIsSameIdentity(a[n], b[n], n);
      }
    }
  }

  lemma AgreeMeansCompatible(current: seq<Entry>, a: Index, b: Index)
    requires ScannedIndex(a) && ScannedIndex(b) && Lists(current, a) && forall n :: Agree(a, b, n)
    ensures Compatible(current, b)
  {
    ListedPaths(current, a);
    forall n ensures n in a.Keys <==> n in b.Keys { assert Agree(a, b, n); }
    forall e | e in current ensures PathOf(e) in b && SameContent(e, b[PathOf(e)]) {
      var n := PathOf(e);
      assert Agree(a, b, n);
      SameContentIsSameIdentity(a[n], b[n], n);
    }
  }

  /** The flat comparison of a package decides what one Merkle hash at its root would. */
  lemma FlatAgreesWithMerkle(h: Hash, root: string, current: seq<Entry>, a: Index, b: Index)
    requires PackageIndex(a) && PackageIndex(b) && Lists(current, a) && root != ""
    requires Hashable(AtRoot(root, a)) && Hashable(AtRoot(root, b))
    requires CollisionFree(h, Preimages(h, AtRoot(root, a)) + Preimages(h, AtRoot(root, b)))
    ensures root in AtRoot(root, a) && root in AtRoot(root, b)
    ensures Compatible(current, b) <==> SubtreeHash(h, AtRoot(root, a), root) == SubtreeHash(h, AtRoot(root, b), root)
  {
    AtRootIsHashable(root, a);
    AtRootIsHashable(root, b);
    FlatIsFullComparison(current, a, b);
    SameEverywhere(root, a, b);
    HashesDecide(h, AtRoot(root, a), AtRoot(root, b), root);
  }

  // ----- The restore loop of `main` -----

  function Rank(e: Entry): (nat, nat, nat) {
    (if IsDirectory(e) then 1 else 0, Depth(PathOf(e)), |PathOf(e)|)
  }

  /** `key=lambda entry: (entry["kind"] == "directory", -entry["path"].count("/"), -len(entry["path"]))` */
  predicate RestoreOrder(a: Entry, b: Entry) {
    var (ka, da, la) := Rank(a);
    var (kb, db, lb) := Rank(b);
    ka < kb || (ka == kb && (da > db || (da == db && la >= lb)))
  }

  lemma RestoreOrderIsWeak()
    ensures WeakOrder(RestoreOrder)
  {
  }

  function StepFor(root: string, saved: Index, e: Entry): Step
    requires PathOf(e) in saved
  {
    var stamp := IntAt(saved[PathOf(e)], "mtime_ns");
    Step(Rooted(root, PathOf(e)), e, if stamp != IntAt(e, "mtime_ns") then Some(stamp) else None)
  }

  function PackagePlan(root: string, saved: Index, ordered: seq<Entry>): (r: seq<Step>)
    requires forall e :: e in ordered ==> PathOf(e) in saved
    ensures |r| == |ordered|
  {
    seq(|ordered|, i requires 0 <= i < |ordered| => assert ordered[i] in ordered; StepFor(root, saved, ordered[i]))
  }

  datatype PackageStatus = Skipped(reason: string) | Restored | Raised

  /** What `main` does with one package in a restore: the disk is not touched unless the whole package matches. */
  method RestorePackage(h: Hash, disk: Disk, again: Reread, root: string, saved: Index, world: World)
    returns (status: PackageStatus, current: seq<Entry>)
    requires WellFormed(disk.nodes) && Realistic(world)
    modifies disk
    ensures status.Skipped? ==> disk.nodes == old(disk.nodes) && disk.writes == old(disk.writes)
    ensures status.Skipped? <==>
      !(Scannable(old(disk.nodes), root) && SteadyBelow(old(disk.nodes), again, root) && Compatible(current, saved))
    ensures Scannable(old(disk.nodes), root) && SteadyBelow(old(disk.nodes), again, root) ==>
      Recorded(h, old(disk.nodes), root, PreOrder(old(disk.nodes), root), [], 0, current,
               TotalSize(old(disk.nodes), PreOrder(old(disk.nodes), root)))
    ensures !status.Skipped? ==>
      && (forall e :: e in Sort(RestoreOrder, current) ==> PathOf(e) in saved)
      && var run := Run(old(disk.nodes), PackagePlan(root, saved, Sort(RestoreOrder, current)), world);
         disk.nodes == run.tree && disk.writes == old(disk.writes) + run.writes && (status.Raised? <==> run.aborted)
  {
    current := [];
    var scan := ScanTree(h, disk.nodes, again, root);
    if scan.Unsupported? { return Skipped(scan.reason), []; }
    current := scan.entries;
    var same := IsCompatible(current, saved);
    if !same { return Skipped("package-changed"), current; }
    SortIsPermutation(RestoreOrder, current);
    var aborted := Perform(disk, PackagePlan(root, saved, Sort(RestoreOrder, current)), world);
    return if aborted then Raised else Restored, current;
  }

  // ----- What a completed restore leaves behind -----

  ghost predicate ScannedFrom(h: Hash, t: Tree, root: string, current: seq<Entry>) {
    && WellFormed(t) && Scannable(t, root)
    && (forall n :: n in PreOrder(t, root) ==> Below(root, n))
    && current == RelEntries(h, t, root, PreOrder(t, root))
  }

  lemma EntrySource(h: Hash, t: Tree, root: string, current: seq<Entry>, e: Entry) returns (n: string)
    requires ScannedFrom(h, t, root, current) && e in current
    ensures n in t && Below(root, n) && Regular(t[n]) && e == EntryOf(h, Rel(root, n), t[n])
    ensures Rooted(root, PathOf(e)) == n && Untouched(t, n, e)
  {
    var k :| 0 <= k < |current| && current[k] == e;
    n := PreOrder(t, root)[k];
    assert n in PreOrder(t, root);
    SlashEnd(t, n);
    RootedRel(root, n);
  }

  lemma EntryListed(h: Hash, t: Tree, root: string, current: seq<Entry>, n: string)
    requires ScannedFrom(h, t, root, current) && n in PreOrder(t, root)
    ensures n in t && Below(root, n) && Regular(t[n]) && EntryOf(h, Rel(root, n), t[n]) in current
  {
    var names := PreOrder(t, root);
    var k :| 0 <= k < |names| && names[k] == n;
    RelEntriesAt(h, t, root, names, k);
  }

  lemma ScannedDistinct(h: Hash, t: Tree, root: string, current: seq<Entry>)
    requires ScannedFrom(h, t, root, current)
    ensures Distinct(Sort(RestoreOrder, current))
  {
    var names := PreOrder(t, root);
    PreOrderDistinct(t, root);
    forall i, j | 0 <= i < j < |current| ensures current[i] != current[j] {
      assert names[i] in names && names[j] in names;
      SlashEnd(t, names[i]);
      SlashEnd(t, names[j]);
      RootedRel(root, names[i]);
      RootedRel(root, names[j]);
      assert PathOf(current[i]) == Rel(root, names[i]) && PathOf(current[j]) == Rel(root, names[j]);
    }
    SortIsPermutation(RestoreOrder, current);
    DistinctFromMultiset(current, Sort(RestoreOrder, current));
  }

  lemma PackagePlanIsSound(h: Hash, t: Tree, root: string, current: seq<Entry>, saved: Index)
    requires ScannedFrom(h, t, root, current) && Compatible(current, saved)
    ensures forall e :: e in Sort(RestoreOrder, current) ==> PathOf(e) in saved
    ensures var plan := PackagePlan(root, saved, Sort(RestoreOrder, current));
      NamesDistinct(plan) && forall i :: 0 <= i < |plan| ==> Untouched(t, plan[i].name, plan[i].entry)
  {
    var ordered := Sort(RestoreOrder, current);
    SortIsPermutation(RestoreOrder, current);
    ScannedDistinct(h, t, root, current);
    PackagePlanNames(h, t, root, current, saved, ordered);
    PackagePlanIsUntouched(h, t, root, current, saved, ordered);
  }

  lemma PackagePlanIsUntouched(h: Hash, t: Tree, root: string, current: seq<Entry>, saved: Index, ordered: seq<Entry>)
    requires ScannedFrom(h, t, root, current)
    requires forall e :: e in ordered ==> e in current && PathOf(e) in saved
    ensures var plan := PackagePlan(root, saved, ordered);
      forall i :: 0 <= i < |plan| ==> Untouched(t, plan[i].name, plan[i].entry)
  {
    var plan := PackagePlan(root, saved, ordered);
    forall i | 0 <= i < |plan| ensures Untouched(t, plan[i].name, plan[i].entry) {
      assert ordered[i] in ordered;
      var n := EntrySource(h, t, root, current, ordered[i]);
    }
  }

  lemma PackagePlanNames(h: Hash, t: Tree, root: string, current: seq<Entry>, saved: Index, ordered: seq<Entry>)
    requires ScannedFrom(h, t, root, current) && Distinct(ordered)
    requires forall e :: e in ordered ==> e in current && PathOf(e) in saved
    ensures NamesDistinct(PackagePlan(root, saved, ordered))
  {
    var plan := PackagePlan(root, saved, ordered);
    forall i, j | 0 <= i < j < |plan| ensures plan[i].name != plan[j].name {
      assert ordered[i] in ordered && ordered[j] in ordered;
      var m := EntrySource(h, t, root, current, ordered[i]);
      var n := EntrySource(h, t, root, current, ordered[j]);
    }
  }

  /** A stamp of the plan is the saved time of a path of the package. */
  lemma StampInside(h: Hash, t: Tree, root: string, current: seq<Entry>, saved: Index, ordered: seq<Entry>, i: nat)
    requires ScannedFrom(h, t, root, current) && i < |ordered|
    requires forall e :: e in ordered ==> e in current && PathOf(e) in saved
    ensures var step := PackagePlan(root, saved, ordered)[i];
      && step.name in t && Below(root, step.name) && Rel(root, step.name) in saved
      && (step.stamp.Some? ==> step.stamp.value == IntAt(saved[Rel(root, step.name)], "mtime_ns"))
      && (step.stamp.Some? ==> step.stamp.value != t[step.name].mtime)
  {
    assert ordered[i] in ordered;
    var n := EntrySource(h, t, root, current, ordered[i]);
  }

  /** Every write is inside the package, of a saved time other than the scanned one, and of no name a second time. */
  lemma EveryWriteIsPlanned(h: Hash, t: Tree, root: string, current: seq<Entry>, saved: Index, world: World, w: nat)
    requires ScannedFrom(h, t, root, current) && Compatible(current, saved)
    ensures forall e :: e in Sort(RestoreOrder, current) ==> PathOf(e) in saved
    ensures var writes := Run(t, PackagePlan(root, saved, Sort(RestoreOrder, current)), world).writes;
      w < |writes| ==>
        && writes[w].name in t && Below(root, writes[w].name) && Rel(root, writes[w].name) in saved
        && writes[w].stamp == IntAt(saved[Rel(root, writes[w].name)], "mtime_ns")
        && writes[w].stamp != t[writes[w].name].mtime
        && forall v :: 0 <= v < w ==> writes[v].name != writes[w].name
  {
    OrderedEntries(current, saved);
    PackagePlanIsSound(h, t, root, current, saved);
    var ordered := Sort(RestoreOrder, current);
    var plan := PackagePlan(root, saved, ordered);
    if w < |Run(t, plan, world).writes| {
      var i := WriteOrigin(t, plan, world, w);
      StampInside(h, t, root, current, saved, ordered, i);
    }
  }

  /** As in a workspace: a path that no longer looks as scanned is never written, and ends the restore. */
  lemma ChangedIsNotStamped(h: Hash, t: Tree, root: string, current: seq<Entry>, saved: Index, world: World, k: nat)
    requires ScannedFrom(h, t, root, current) && Compatible(current, saved) && k < |current|
    ensures forall e :: e in Sort(RestoreOrder, current) ==> PathOf(e) in saved
    ensures |Sort(RestoreOrder, current)| == |current|
    ensures var plan := PackagePlan(root, saved, Sort(RestoreOrder, current));
      plan[k].stamp.Some? && !Run(t, plan[..k], world).aborted ==>
        plan[k].name in t && StampedOrStopped(t, plan, world, k)
  {
    OrderedEntries(current, saved);
    PackagePlanIsSound(h, t, root, current, saved);
    var ordered := Sort(RestoreOrder, current);
    var plan := PackagePlan(root, saved, ordered);
    assert ordered[k] in ordered;
    var n := EntrySource(h, t, root, current, ordered[k]);
    GuardExactly(h, Rel(root, n), n, t[n], Seen(t, plan, world, k));
    if plan[k].stamp.Some? && !Run(t, plan[..k], world).aborted { GuardDecides(t, plan, world, k); }
  }

  lemma OrderedEntries(current: seq<Entry>, saved: Index)
    requires Compatible(current, saved)
    ensures |Sort(RestoreOrder, current)| == |current|
    ensures forall e :: e in Sort(RestoreOrder, current) ==> e in current && PathOf(e) in saved
  {
    SortIsPermutation(RestoreOrder, current);
    assert |multiset(Sort(RestoreOrder, current))| == |multiset(current)|;
  }

  /** Stopped anywhere, by whatever failure, a path others leave alone is as scanned or has its saved time. */
  lemma SafeAtEveryPrefix(h: Hash, t: Tree, root: string, current: seq<Entry>, saved: Index,
                          world: World, k: nat, n: string)
    requires ScannedFrom(h, t, root, current) && Compatible(current, saved) && n in t && LeavesAlone(world, n)
    requires k <= |current|
    ensures |Sort(RestoreOrder, current)| == |current|
    ensures forall e :: e in Sort(RestoreOrder, current) ==> PathOf(e) in saved
    ensures var r := Run(t, PackagePlan(root, saved, Sort(RestoreOrder, current))[..k], world).tree;
      n in r && (r[n] == t[n] || (Below(root, n) && TimeRestored(t, root, saved, r, n)))
  {
    OrderedEntries(current, saved);
    PackagePlanIsSound(h, t, root, current, saved);
    SafePrefix(h, t, root, current, saved, Sort(RestoreOrder, current), world, k, n);
  }

  lemma SafePrefix(h: Hash, t: Tree, root: string, current: seq<Entry>, saved: Index, ordered: seq<Entry>,
                   world: World, k: nat, n: string)
    requires ScannedFrom(h, t, root, current) && n in t && LeavesAlone(world, n) && k <= |ordered|
    requires forall e :: e in ordered ==> e in current && PathOf(e) in saved
    requires NamesDistinct(PackagePlan(root, saved, ordered))
    ensures var r := Run(t, PackagePlan(root, saved, ordered)[..k], world).tree;
      n in r && (r[n] == t[n] || (Below(root, n) && TimeRestored(t, root, saved, r, n)))
  {
    var plan := PackagePlan(root, saved, ordered)[..k];
    KeptUnlessStamped(t, plan, world, n);
    var r := Run(t, plan, world).tree;
    if r[n] != t[n] {
      var i :| 0 <= i < |plan| && plan[i].name == n && plan[i].stamp.Some?
        && r[n] == WithTime(t[n], plan[i].stamp.value);
      StampInside(h, t, root, current, saved, ordered, i);
    }
  }

  /** Left alone, the restore of a compatible package gives every entry its saved time and changes nothing else. */
  lemma CompletedRestore(h: Hash, t: Tree, root: string, current: seq<Entry>, saved: Index)
    requires ScannedFrom(h, t, root, current) && Compatible(current, saved)
    ensures forall e :: e in Sort(RestoreOrder, current) ==> PathOf(e) in saved
    ensures var run := Run(t, PackagePlan(root, saved, Sort(RestoreOrder, current)), Quiet());
      && !run.aborted && run.tree.Keys == t.Keys
      && forall n :: n in t ==> TimeRestored(t, root, saved, run.tree, n)
  {
    SortIsPermutation(RestoreOrder, current);
    PackagePlanIsSound(h, t, root, current, saved);
    var plan := PackagePlan(root, saved, Sort(RestoreOrder, current));
    QuietRun(t, plan);
    var r := Run(t, plan, Quiet()).tree;
    forall n | n in t ensures TimeRestored(t, root, saved, r, n) {
      PreOrderMembers(t, root, n);
      if n in PreOrder(t, root) {
        InsideIsRestored(h, t, root, current, saved, r, n);
      } else {
        OutsideIsKept(h, t, root, current, saved, r, n);
      }
    }
  }

  ghost predicate TimeRestored(t: Tree, root: string, saved: Index, r: Tree, n: string)
    requires n in t
  {
    && n in r
    && if Below(root, n) then Rel(root, n) in saved && r[n] == WithTime(t[n], IntAt(saved[Rel(root, n)], "mtime_ns"))
       else r[n] == t[n]
  }

  lemma StampOfEntry(t: Tree, root: string, saved: Index, ordered: seq<Entry>, e: Entry, n: string, r: Tree)
    requires (forall f :: f in ordered ==> PathOf(f) in saved) && e in ordered
    requires n in t && Rooted(root, PathOf(e)) == n && IntAt(e, "mtime_ns") == t[n].mtime
    requires AppliedTo(t, PackagePlan(root, saved, ordered), r)
    ensures PathOf(e) in saved && n in r && r[n] == WithTime(t[n], IntAt(saved[PathOf(e)], "mtime_ns"))
  {
    var i :| 0 <= i < |ordered| && ordered[i] == e;
    assert PackagePlan(root, saved, ordered)[i] == StepFor(root, saved, e);
  }

  lemma InsideIsRestored(h: Hash, t: Tree, root: string, current: seq<Entry>, saved: Index, r: Tree, n: string)
    requires ScannedFrom(h, t, root, current) && n in PreOrder(t, root)
    requires forall e :: e in Sort(RestoreOrder, current) ==> PathOf(e) in saved
    requires AppliedTo(t, PackagePlan(root, saved, Sort(RestoreOrder, current)), r)
    ensures n in t && TimeRestored(t, root, saved, r, n)
  {
    EntryListed(h, t, root, current, n);
    var e := EntryOf(h, Rel(root, n), t[n]);
    SortIsPermutation(RestoreOrder, current);
    SlashEnd(t, n);
    RootedRel(root, n);
    StampOfEntry(t, root, saved, Sort(RestoreOrder, current), e, n, r);
  }

  lemma OutsideIsKept(h: Hash, t: Tree, root: string, current: seq<Entry>, saved: Index, r: Tree, n: string)
    requires ScannedFrom(h, t, root, current) && n in t && !Below(root, n)
    requires forall e :: e in Sort(RestoreOrder, current) ==> PathOf(e) in saved
    requires AppliedTo(t, PackagePlan(root, saved, Sort(RestoreOrder, current)), r)
    ensures TimeRestored(t, root, saved, r, n)
  {
    var ordered := Sort(RestoreOrder, current);
    SortIsPermutation(RestoreOrder, current);
    var plan := PackagePlan(root, saved, ordered);
    forall i | 0 <= i < |plan| ensures plan[i].name != n {
      assert ordered[i] in ordered;
      var m := EntrySource(h, t, root, current, ordered[i]);
    }
  }

  /** Files before directories; within each kind the deeper names first, and of equally deep ones the longer. */
  lemma FilesComeFirst(current: seq<Entry>, i: nat, j: nat)
    requires i < j < |current|
    ensures |Sort(RestoreOrder, current)| == |current|
    ensures var e, f := Sort(RestoreOrder, current)[i], Sort(RestoreOrder, current)[j];
      && (IsDirectory(e) ==> IsDirectory(f))
      && (IsDirectory(e) == IsDirectory(f) ==> Depth(PathOf(e)) >= Depth(PathOf(f)))
      && (IsDirectory(e) == IsDirectory(f) && Depth(PathOf(e)) == Depth(PathOf(f)) ==> |PathOf(e)| >= |PathOf(f)|)
  {
    RestoreOrderIsWeak();
    SortSorts(RestoreOrder, current);
    SortIsPermutation(RestoreOrder, current);
    assert |multiset(Sort(RestoreOrder, current))| == |multiset(current)|;
  }

  lemma InsideRanksFirst(d: Entry, e: Entry)
    requires IsDirectory(d) && PathOf(e) != PathOf(d) && (PathOf(d) == "" || Below(PathOf(d), PathOf(e)))
    ensures !RestoreOrder(d, e)
  {
    var top, n := PathOf(d), PathOf(e);
    if top != "" {
      assert n == (top + "/") + n[|top| + 1..];
      DepthOfConcat(top + "/", n[|top| + 1..]);
      DepthOfConcat(top, "/");
      assert Depth("/") == 1;
    }
  }

  /** A directory is stamped after everything the plan stamps inside it. */
  lemma DirectoriesComeLast(current: seq<Entry>, i: nat, j: nat)
    requires i < |current| && j < |current|
    requires var ordered := Sort(RestoreOrder, current);
      IsDirectory(ordered[i]) && PathOf(ordered[j]) != PathOf(ordered[i])
      && (PathOf(ordered[i]) == "" || Below(PathOf(ordered[i]), PathOf(ordered[j])))
    ensures j < i
  {
    var ordered := Sort(RestoreOrder, current);
    RestoreOrderIsWeak();
    SortSorts(RestoreOrder, current);
    InsideRanksFirst(ordered[i], ordered[j]);
  }
}
