/** cargo-cache-workspace.py: the restore branch of `main`. */
module Restore {
  import opened Ordering
  import opened Paths
  import opened Splitting
  import opened CanonicalJson
  import opened SubtreeHashes
  import opened FileTree
  import opened Options
  import opened Stamping
  import opened SourceStamps
  import opened Workspace
  import opened Snapshot
  import opened Capture

  // ----- The plan -----

  function KindRank(m: Index, n: string): nat {
    if n in m && IsDirectory(m[n]) then 1 else 0
  }

  /** `key=lambda name: (indexed[name]['kind'] == 'directory', -name.count('/'))` */
  predicate FilesFirst(m: Index, a: string, b: string) {
    KindRank(m, a) < KindRank(m, b) || (KindRank(m, a) == KindRank(m, b) && Depth(a) >= Depth(b))
  }

  function RestoreKey(m: Index): (string, string) -> bool {
    (a, b) => FilesFirst(m, a, b)
  }

  lemma RestoreKeyIsWeak(m: Index)
    ensures WeakOrder(RestoreKey(m))
  {
  }

  ghost predicate Matches(h: Hash, saved: Index, current: Index, n: string)
    requires "" !in saved && "" !in current && n in current
  {
    n in saved && SubtreeHash(h, saved, n) == SubtreeHash(h, current, n)
  }

  /** The names whose subtree hash is the saved one. */
  ghost function Unchanged(h: Hash, saved: Index, current: Index): set<string>
    requires "" !in saved && "" !in current
  {
    set n | n in current && Matches(h, saved, current, n)
  }

  /** What the loop does at one name, given whether its subtree is unchanged. */
  function StepAt(saved: Index, current: Index, n: string, matches: bool, dirty: int): Step
    requires n in current && (matches ==> n in saved)
  {
    var entry := current[n];
    if matches then
      var stamp := IntAt(saved[n], "mtime_ns");
      Step(n, entry, if IntAt(entry, "mtime_ns") != stamp then Some(stamp) else None)
    else Step(n, entry, Some(dirty))
  }

  /** The loop's plan when `same` are the names with an unchanged subtree. */
  function RestorePlan(saved: Index, current: Index, same: set<string>, names: seq<string>, dirty: int): (r: seq<Step>)
    requires same <= saved.Keys && forall n :: n in names ==> n in current
    ensures |r| == |names|
  {
    seq(|names|, i requires 0 <= i < |names| =>
      assert names[i] in names;
      StepAt(saved, current, names[i], names[i] in same, dirty))
  }

  /** The three report counters. */
  datatype Tally = Tally(restoredFiles: nat, restoredDirectories: nat, changedInputs: nat)

  function Count(c: Tally, entry: Entry, matches: bool): Tally {
    if !matches then c.(changedInputs := c.changedInputs + 1)
    else if Get(entry, "kind") == Str("file") then c.(restoredFiles := c.restoredFiles + 1)
    else c.(restoredDirectories := c.restoredDirectories + 1)
  }

  /** The counters after the first `i` names. */
  function TallyOf(current: Index, same: set<string>, names: seq<string>, i: nat): Tally
    requires i <= |names| && forall n :: n in names ==> n in current
  {
    if i == 0 then Tally(0, 0, 0)
    else
      assert names[i - 1] in names;
      Count(TallyOf(current, same, names, i - 1), current[names[i - 1]], names[i - 1] in same)
  }

  lemma {:induction false} TallySums(current: Index, same: set<string>, names: seq<string>, i: nat)
    requires i <= |names| && forall n :: n in names ==> n in current
    ensures var c := TallyOf(current, same, names, i);
      c.restoredFiles + c.restoredDirectories + c.changedInputs == i
  {
    if i > 0 { TallySums(current, same, names, i - 1); }
  }

  ghost function Counted(c: Tally, which: nat): nat {
    if which == 0 then c.restoredFiles else if which == 1 then c.restoredDirectories else c.changedInputs
  }

  /** Which counter an entry belongs to. */
  ghost predicate CountsIn(entry: Entry, matches: bool, which: nat) {
    var file := Get(entry, "kind") == Str("file");
    if which == 0 then matches && file else if which == 1 then matches && !file else !matches
  }

  ghost function Members(current: Index, same: set<string>, names: seq<string>, i: nat, which: nat): set<string>
    requires i <= |names| && forall n :: n in names ==> n in current
  {
    if i == 0 then {}
    else
      assert names[i - 1] in names;
      Members(current, same, names, i - 1, which)
      + (if CountsIn(current[names[i - 1]], names[i - 1] in same, which) then {names[i - 1]} else {})
  }

  lemma {:induction false} MembersExactly(current: Index, same: set<string>, names: seq<string>, i: nat, which: nat,
                                          n: string)
    requires i <= |names| && forall n :: n in names ==> n in current
    ensures n in Members(current, same, names, i, which) <==>
      n in current && CountsIn(current[n], n in same, which) && exists k :: 0 <= k < i && names[k] == n
  {
    if i > 0 {
      MembersExactly(current, same, names, i - 1, which, n);
      assert names[i - 1] in names;
    }
  }

  /** Each counter holds the number of distinct entries of its class. */
  lemma {:induction false} TallyCounts(current: Index, same: set<string>, names: seq<string>, i: nat, which: nat)
    requires i <= |names| && (forall n :: n in names ==> n in current) && Distinct(names)
    ensures Counted(TallyOf(current, same, names, i), which) == |Members(current, same, names, i, which)|
  {
    if i > 0 {
      TallyCounts(current, same, names, i - 1, which);
      TallyStep(current, same, names, i, which);
      MembersStep(current, same, names, i, which);
    }
  }

  ghost predicate LastCounts(current: Index, same: set<string>, names: seq<string>, i: nat, which: nat)
    requires 0 < i <= |names| && names[i - 1] in current
  {
    CountsIn(current[names[i - 1]], names[i - 1] in same, which)
  }

  lemma TallyStep(current: Index, same: set<string>, names: seq<string>, i: nat, which: nat)
    requires 0 < i <= |names| && (forall n :: n in names ==> n in current) && names[i - 1] in current
    ensures Counted(TallyOf(current, same, names, i), which)
      == Counted(TallyOf(current, same, names, i - 1), which) + if LastCounts(current, same, names, i, which) then 1
        else 0
  {
    CountedStep(TallyOf(current, same, names, i - 1), current[names[i - 1]], names[i - 1] in same, which);
  }

  lemma MembersStep(current: Index, same: set<string>, names: seq<string>, i: nat, which: nat)
    requires 0 < i <= |names| && (forall n :: n in names ==> n in current) && names[i - 1] in current && Distinct(names)
    ensures |Members(current, same, names, i, which)|
      == |Members(current, same, names, i - 1, which)| + if LastCounts(current, same, names, i, which) then 1 else 0
  {
    var before := Members(current, same, names, i - 1, which);
    MembersExactly(current, same, names, i - 1, which, names[i - 1]);
    assert names[i - 1] !in before;
  }

  lemma CountedStep(c: Tally, entry: Entry, matches: bool, which: nat)
    ensures Counted(Count(c, entry, matches), which) == Counted(c, which) + if CountsIn(entry, matches, which) then 1
      else 0
  {
  }

  // ----- The loop -----

  datatype Report = Report(counts: Tally, raised: bool)

  method RestoreLoop(disk: Disk, saved: Index, current: Index, names: seq<string>, beforeHashes: map<string, string>,
                     afterHashes: map<string, string>, dirty: int, world: World, ghost same: set<string>)
    returns (r: Report)
    requires WellFormed(disk.nodes) && Realistic(world)
    requires (forall n :: n in names ==> n in current) && same <= saved.Keys
    requires beforeHashes.Keys == saved.Keys && afterHashes.Keys == current.Keys
    requires forall n :: n in names ==> (n in same <==> n in saved && beforeHashes[n] == afterHashes[n])
    modifies disk
    ensures Ended(disk, old(disk.writes), old(disk.nodes), RestorePlan(saved, current, same, names, dirty), world,
      r.raised)
    ensures !r.raised ==> r.counts == TallyOf(current, same, names, |names|)
  {
    ghost var plan := RestorePlan(saved, current, same, names, dirty);
    var counts := Tally(0, 0, 0);
    for i := 0 to |names|
      invariant Following(disk, old(disk.writes), old(disk.nodes), plan, i, world)
      invariant counts == TallyOf(current, same, names, i)
    {
      var name := names[i];
      assert name in names;
      var matches := name in saved && beforeHashes[name] == afterHashes[name];
      var step := StepAt(saved, current, name, matches, dirty);
      assert step == plan[i];
      var aborted := Advance(disk, step, i, world, old(disk.writes), old(disk.nodes), plan);
      if aborted { return Report(counts, true); }
      counts := Count(counts, current[name], matches);
    }
    assert plan[..|names|] == plan;
    return Report(counts, false);
  }

  /** `indexed = {entry['path']: entry for entry in current}` and the order its iteration has. */
  method IndexByPath(current: seq<Entry>, ghost f: string -> Entry, ghost all: seq<string>)
    returns (indexed: Index, names: seq<string>)
    requires current == EntriesWith(f, all) && forall n :: PathOf(f(n)) == n
    ensures names == all && indexed == map n | n in all :: f(n)
  {
    indexed, names := map[], [];
    for i := 0 to |current|
      invariant names == all[..i] && indexed == map n | n in all[..i] :: f(n)
    {
      assert current[i] == f(all[i]) && PathOf(f(all[i])) == all[i];
      assert all[..i + 1] == all[..i] + [all[i]];
      indexed := indexed[PathOf(current[i]) := current[i]];
      names := names + [PathOf(current[i])];
    }
    assert all[..|current|] == all;
  }

  lemma CurrentIndexByName(h: Hash, t: Tree)
    ensures CurrentIndex(h, t) == map n | n in NamesInOrder(InputNames(t)) :: EntryFor(h, t)(n)
  {
  }

  ghost function RestoreOrder(m: Index, names: seq<string>): (r: seq<string>)
    ensures |r| == |names| && forall n :: n in r <==> n in names
  {
    SortIsPermutation(RestoreKey(m), names);
    Sort(RestoreKey(m), names)
  }

  /** The names the loop visits, in its order. */
  ghost function VisitOrder(h: Hash, t: Tree): (r: seq<string>)
    ensures forall n :: n in r <==> n in InputNames(t)
  {
    RestoreOrder(CurrentIndex(h, t), NamesInOrder(InputNames(t)))
  }

  ghost predicate Usable(h: Hash, fold: Fold, t: Tree, state: Option<Json>, profile: string, context: Json, now: int) {
    Readable(t) && state.Some? && Accepts(h, fold, state.value, profile, context, now)
  }

  /** A capture is usable exactly under the profile and context it was made under. */
  lemma CaptureIsUsable(h: Hash, fold: Fold, s: Tree, t: Tree, profile: string, context: Json, now: int, reader: Reader)
    requires WellFormed(s) && Readable(s) && HexDigests(h)
    ensures Usable(h, fold, t, Some(SnapshotOf(h, Listing(h, s), true, profile, context)),
                   reader.profile, reader.context, now)
      <==> reader == Reader(profile, context) && Portable(fold, s, now) && Readable(t)
  {
    CaptureIsAccepted(h, fold, s, profile, context, now, reader);
  }

  ghost function SavedIndex(state: Json): Index
    requires state.Obj? && Get(state.fields, "entries").Arr?
    requires forall v :: v in Get(state.fields, "entries").items ==> v.Obj?
  {
    IndexOf(Get(state.fields, "entries").items)
  }

  lemma NoEmptyName(items: seq<Json>, now: int)
    requires ItemsOk(items, now)
    ensures "" !in IndexOf(items)
  {
    AcceptedIsWellIndexed(items, now);
    assert Split("", '/') == [""];
    assert "" in Split("", '/');
  }

  /** `restore`: without a usable snapshot nothing is touched; otherwise the plan is carried out. */
  method RestoreWorkspace(h: Hash, fold: Fold, disk: Disk, again: Reread, state: Option<Json>, profile: string,
                          context: Json, now: int, dirty: int, world: World) returns (r: Report)
    requires WellFormed(disk.nodes) && Realistic(world)
    modifies disk
    ensures !InputsSteady(old(disk.nodes), again) || !Usable(h, fold, old(disk.nodes), state, profile, context, now) ==>
      disk.nodes == old(disk.nodes) && disk.writes == old(disk.writes) && r == Report(Tally(0, 0, 0), false)
    ensures InputsSteady(old(disk.nodes), again) && Usable(h, fold, old(disk.nodes), state, profile, context, now) ==>
      Restored(h, old(disk.nodes), SavedIndex(state.value), dirty, world, disk.nodes, disk.writes, old(disk.writes), r)
  {
    var scan := Inputs(h, disk.nodes, again);
    if scan.Unsupported? || state.None? { return Report(Tally(0, 0, 0), false); }
    var validated := Validate(h, fold, state.value, profile, context, now);
    if validated.Invalid? { return Report(Tally(0, 0, 0), false); }
    NoEmptyName(Get(state.value.fields, "entries").items, now);
    r := RestoreFrom(h, disk, validated.index, scan.entries, dirty, world);
  }

  /** The outcome of the loop over the whole workspace. */
  ghost predicate Restored(h: Hash, t: Tree, saved: Index, dirty: int, world: World,
                           nodes: Tree, writes: seq<Write>, before: seq<Write>, r: Report) {
    && "" !in saved && "" !in t
    && var same := Unchanged(h, saved, CurrentIndex(h, t));
      var run := Run(t, RestorePlan(saved, CurrentIndex(h, t), same, VisitOrder(h, t), dirty), world);
      && nodes == run.tree && writes == before + run.writes && r.raised == run.aborted
      && (!r.raised ==> r.counts == TallyOf(CurrentIndex(h, t), same, VisitOrder(h, t), |VisitOrder(h, t)|))
  }

  method RestoreFrom(h: Hash, disk: Disk, saved: Index, current: seq<Entry>, dirty: int, world: World)
    returns (r: Report)
    requires WellFormed(disk.nodes) && Realistic(world)
    requires "" !in saved && current == Listing(h, disk.nodes)
    modifies disk
    ensures Restored(h, old(disk.nodes), saved, dirty, world, disk.nodes, disk.writes, old(disk.writes), r)
  {
    ghost var t := disk.nodes;
    EntryForPaths(h, t);
    CurrentIndexByName(h, t);
    var indexed, names := IndexByPath(current, EntryFor(h, t), NamesInOrder(InputNames(t)));
    var beforeHashes := ComputeHashes(h, saved);
    var afterHashes := ComputeHashes(h, indexed);
    SortIsPermutation(RestoreKey(indexed), names);
    r := RestoreLoop(disk, saved, indexed, Sort(RestoreKey(indexed), names),
                     beforeHashes.hashes, afterHashes.hashes, dirty, world, Unchanged(h, saved, indexed));
  }
}
