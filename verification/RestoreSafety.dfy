/** What the restore branch guarantees: the verdict of a build tool, safety at every prefix, and the round trip. */
module RestoreSafety {
  import opened Ordering
  import opened Paths
  import opened Splitting
  import opened CanonicalJson
  import opened SubtreeHashes
  import opened FileTree
  import opened Options
  import opened Stamping
  import opened SourceStamps
  import opened Workspace
  import opened Snapshot
  import opened Capture
  import opened Restore

  /** What `validate` guarantees of the index it returns. */
  ghost predicate GoodIndex(m: Index) {
    Hashable(m) && ParentClosed(m)
  }

  lemma AcceptedIsGood(h: Hash, fold: Fold, data: Json, profile: string, context: Json, now: int)
    requires Accepts(h, fold, data, profile, context, now)
    ensures GoodIndex(SavedIndex(data))
  {
    var items := Get(data.fields, "entries").items;
    AcceptedIsWellIndexed(items, now);
    NoEmptyName(items, now);
  }

  lemma CurrentIsGood(h: Hash, t: Tree)
    requires WellFormed(t) && Readable(t)
    ensures GoodIndex(CurrentIndex(h, t))
  {
    forall n | n in CurrentIndex(h, t) && '/' in n ensures Parent(n) in CurrentIndex(h, t) { InputFacts(t, n); }
  }

  /** The situation of one restore: a readable tree, an accepted snapshot, no hash collision between the two. */
  ghost predicate Situation(h: Hash, t: Tree, saved: Index) {
    && WellFormed(t) && Readable(t) && GoodIndex(saved) && "" !in CurrentIndex(h, t)
    && CollisionFree(h, Preimages(h, saved) + Preimages(h, CurrentIndex(h, t)))
  }

  /** A readable tree and an accepted snapshot are in one exactly when no two different texts hashed in it collide. */
  lemma SituationExactly(h: Hash, fold: Fold, t: Tree, data: Json, profile: string, context: Json, now: int)
    requires WellFormed(t) && Readable(t) && Accepts(h, fold, data, profile, context, now)
    ensures "" !in SavedIndex(data) && "" !in CurrentIndex(h, t)
    ensures Situation(h, t, SavedIndex(data))
      <==> CollisionFree(h, Preimages(h, SavedIndex(data)) + Preimages(h, CurrentIndex(h, t)))
  {
    AcceptedIsGood(h, fold, data, profile, context, now);
    CurrentIsGood(h, t);
  }

  ghost function SameNamesOf(h: Hash, t: Tree, saved: Index): set<string>
    requires Situation(h, t, saved)
  {
    Unchanged(h, saved, CurrentIndex(h, t))
  }

  /** A name counts as unchanged exactly when the full comparison of its two subtrees finds no difference. */
  lemma UnchangedIsSame(h: Hash, t: Tree, saved: Index, n: string)
    requires Situation(h, t, saved) && n in InputNames(t)
    ensures n in SameNamesOf(h, t, saved) <==> n in saved && SameBelow(saved, CurrentIndex(h, t), n)
  {
    CurrentIsGood(h, t);
    if n in saved {
      ParentClosedIsClosedBelow(saved, n);
      ParentClosedIsClosedBelow(CurrentIndex(h, t), n);
      HashesDecide(h, saved, CurrentIndex(h, t), n);
    }
  }

  /** A change spoils every present directory above it. */
  lemma ChangesReachUpwards(h: Hash, t: Tree, saved: Index, top: string, n: string)
    requires Situation(h, t, saved) && top in InputNames(t) && Below(top, n)
    requires !Agree(saved, CurrentIndex(h, t), n) || (n in InputNames(t) && n !in SameNamesOf(h, t, saved))
    ensures top !in SameNamesOf(h, t, saved)
  {
    UnchangedIsSame(h, t, saved, top);
    if top in SameNamesOf(h, t, saved) && n in InputNames(t) {
      assert Agree(saved, CurrentIndex(h, t), n);
      UnchangedIsSame(h, t, saved, n);
      forall m | Below(n, m) ensures Agree(saved, CurrentIndex(h, t), m) { BelowIsTransitive(top, n, m); }
    }
  }

  // ----- The plan -----

  ghost function PlanOf(h: Hash, t: Tree, saved: Index, dirty: int): seq<Step>
    requires Situation(h, t, saved)
  {
    RestorePlan(saved, CurrentIndex(h, t), SameNamesOf(h, t, saved), VisitOrder(h, t), dirty)
  }

  /** The time a name ends up with. */
  ghost function Target(h: Hash, t: Tree, saved: Index, n: string, dirty: int): int
    requires Situation(h, t, saved)
  {
    if n in SameNamesOf(h, t, saved) then IntAt(saved[n], "mtime_ns") else dirty
  }

  lemma VisitOrderFacts(h: Hash, t: Tree)
    ensures Distinct(VisitOrder(h, t)) && |VisitOrder(h, t)| == |InputNames(t)|
    ensures SortedBy(RestoreKey(CurrentIndex(h, t)), VisitOrder(h, t))
  {
    var m, names := CurrentIndex(h, t), NamesInOrder(InputNames(t));
    RestoreKeyIsWeak(m);
    SortSorts(RestoreKey(m), names);
    SortIsPermutation(RestoreKey(m), names);
    DistinctFromMultiset(names, VisitOrder(h, t));
  }

  lemma StepFacts(h: Hash, t: Tree, saved: Index, dirty: int, i: nat)
    requires Situation(h, t, saved) && i < |VisitOrder(h, t)|
    ensures |PlanOf(h, t, saved, dirty)| == |VisitOrder(h, t)|
    ensures var n, step := VisitOrder(h, t)[i], PlanOf(h, t, saved, dirty)[i];
      && n in InputNames(t) && step.name == n && step.entry == EntryOf(h, n, t[n])
      && (step.stamp.None? ==> n in SameNamesOf(h, t, saved) && t[n].mtime == Target(h, t, saved, n, dirty))
      && (step.stamp.Some? ==> step.stamp.value == Target(h, t, saved, n, dirty))
      && (step.stamp.Some? && n in SameNamesOf(h, t, saved) ==> step.stamp.value != t[n].mtime)
  {
    assert VisitOrder(h, t)[i] in VisitOrder(h, t);
  }

  lemma EntryIsUntouched(h: Hash, t: Tree, n: string)
    requires WellFormed(t) && Readable(t) && n in InputNames(t)
    ensures Untouched(t, n, EntryOf(h, n, t[n]))
  {
    InputFacts(t, n);
  }

  lemma PlanIsSound(h: Hash, t: Tree, saved: Index, dirty: int)
    requires Situation(h, t, saved)
    ensures NamesDistinct(PlanOf(h, t, saved, dirty))
    ensures forall i :: 0 <= i < |PlanOf(h, t, saved, dirty)| ==>
      Untouched(t, PlanOf(h, t, saved, dirty)[i].name, PlanOf(h, t, saved, dirty)[i].entry)
  {
    var plan, order := PlanOf(h, t, saved, dirty), VisitOrder(h, t);
    VisitOrderFacts(h, t);
    forall i | 0 <= i < |plan| ensures plan[i].name == order[i] && Untouched(t, plan[i].name, plan[i].entry) {
      StepFacts(h, t, saved, dirty, i);
      EntryIsUntouched(h, t, order[i]);
    }
  }

  lemma InsideIsDeeper(top: string, n: string)
    requires Below(top, n) && n != top
    ensures Depth(n) > Depth(top)
  {
    assert n == (top + "/") + n[|top| + 1..];
    DepthOfConcat(top + "/", n[|top| + 1..]);
    DepthOfConcat(top, "/");
    assert Depth("/") == 1;
  }

  lemma InsideGoesFirst(h: Hash, t: Tree, top: string, n: string)
    requires WellFormed(t) && Readable(t) && top in InputNames(t) && n in InputNames(t) && Below(top, n) && n != top
    ensures !FilesFirst(CurrentIndex(h, t), top, n)
  {
    InsideIsDeeper(top, n);
    OnlyDirectoriesHold(t, top, n);
    assert IsDirectory(CurrentIndex(h, t)[top]);
  }

  /** A directory is stamped after every input inside it. */
  lemma DirectoriesComeLast(h: Hash, t: Tree, i: nat, j: nat)
    requires WellFormed(t) && Readable(t) && i < |VisitOrder(h, t)| && j < |VisitOrder(h, t)|
    requires Below(VisitOrder(h, t)[i], VisitOrder(h, t)[j]) && VisitOrder(h, t)[i] != VisitOrder(h, t)[j]
    ensures j < i
  {
    var order := VisitOrder(h, t);
    VisitOrderFacts(h, t);
    assert order[i] in order && order[j] in order;
    InsideGoesFirst(h, t, order[i], order[j]);
    SortedPlaces(RestoreKey(CurrentIndex(h, t)), order, i, j);
  }

  /** All files come before all directories, and within each kind the deeper paths first. */
  lemma FilesComeFirst(h: Hash, t: Tree, i: nat, j: nat)
    requires WellFormed(t) && Readable(t) && i < j < |VisitOrder(h, t)|
    ensures var n, m := VisitOrder(h, t)[i], VisitOrder(h, t)[j];
      && n in t && m in t && !(t[n].Dir? && t[m].File?) && (t[n].File? == t[m].File? ==> Depth(n) >= Depth(m))
  {
    var order := VisitOrder(h, t);
    VisitOrderFacts(h, t);
    assert order[i] in order && order[j] in order;
    InputFacts(t, order[i]);
    InputFacts(t, order[j]);
    KindOf(h, t, order[i]);
    KindOf(h, t, order[j]);
  }

  lemma KindOf(h: Hash, t: Tree, n: string)
    requires WellFormed(t) && Readable(t) && n in InputNames(t)
    ensures KindRank(CurrentIndex(h, t), n) == if t[n].Dir? then 1 else 0
  {
    InputFacts(t, n);
  }

  lemma {:induction false} OnlyDirectoriesHold(t: Tree, top: string, n: string)
    requires WellFormed(t) && n in t && Below(top, n) && n != top
    ensures top in t && t[top].Dir?
    decreases |n|
  {
    ParentStaysBelow(top, n);
    if Parent(n) != top { OnlyDirectoriesHold(t, top, Parent(n)); }
  }

  // ----- Safety at every prefix -----

  /** Left alone, the loop never fails, whichever prefix of it has run. */
  lemma PrefixRun(h: Hash, t: Tree, saved: Index, dirty: int, k: nat)
    requires Situation(h, t, saved) && k <= |PlanOf(h, t, saved, dirty)|
    ensures var run := Run(t, PlanOf(h, t, saved, dirty)[..k], Quiet());
      !run.aborted && AppliedTo(t, PlanOf(h, t, saved, dirty)[..k], run.tree)
  {
    PlanIsSound(h, t, saved, dirty);
    QuietPrefix(t, PlanOf(h, t, saved, dirty), k);
  }

  lemma QuietPrefix(t: Tree, plan: seq<Step>, k: nat)
    requires k <= |plan| && NamesDistinct(plan)
    requires forall i :: 0 <= i < |plan| ==> Untouched(t, plan[i].name, plan[i].entry)
    ensures !Run(t, plan[..k], Quiet()).aborted && AppliedTo(t, plan[..k], Run(t, plan[..k], Quiet()).tree)
  {
    QuietRun(t, plan[..k]);
  }

  /**
   * A step with a time to set does so exactly when the path still looks as it was scanned;
   * otherwise the loop ends there and the path is never written.
   */
  lemma ChangedIsNotStamped(h: Hash, t: Tree, saved: Index, dirty: int, world: World, k: nat)
    requires Situation(h, t, saved) && k < |PlanOf(h, t, saved, dirty)|
    requires PlanOf(h, t, saved, dirty)[k].stamp.Some? && !Run(t, PlanOf(h, t, saved, dirty)[..k], world).aborted
    ensures var plan := PlanOf(h, t, saved, dirty);
      StampedOrStopped(t, plan, world, k)
  {
    var plan := PlanOf(h, t, saved, dirty);
    PlanIsSound(h, t, saved, dirty);
    StepFacts(h, t, saved, dirty, k);
    InputFacts(t, plan[k].name);
    GuardExactly(h, plan[k].name, plan[k].name, t[plan[k].name], Seen(t, plan, world, k));
    GuardDecides(t, plan, world, k);
  }

  /** A node that is as scanned, or has its saved time over an identical subtree, or `dirty` over a changed one. */
  ghost predicate SafeNode(h: Hash, t: Tree, saved: Index, dirty: int, n: string, node: Node)
    requires n in t
  {
    || node == t[n]
    || (n in InputNames(t) && n in saved && SameBelow(saved, CurrentIndex(h, t), n)
        && node == WithTime(t[n], IntAt(saved[n], "mtime_ns")))
    || (n in InputNames(t) && !(n in saved && SameBelow(saved, CurrentIndex(h, t), n)) && node == WithTime(t[n], dirty))
  }

  lemma StampIsSafe(h: Hash, t: Tree, saved: Index, dirty: int, i: nat)
    requires Situation(h, t, saved) && i < |PlanOf(h, t, saved, dirty)| && PlanOf(h, t, saved, dirty)[i].stamp.Some?
    ensures var step := PlanOf(h, t, saved, dirty)[i];
      step.name in t && SafeNode(h, t, saved, dirty, step.name, WithTime(t[step.name], step.stamp.value))
  {
    StepFacts(h, t, saved, dirty, i);
    UnchangedIsSame(h, t, saved, VisitOrder(h, t)[i]);
  }

  /**
   * Stopped anywhere, by whatever failure, each path that nobody else touches is safe.
   * Elsewhere in the tree others may do anything.
   */
  lemma SafeAtEveryPrefix(h: Hash, t: Tree, saved: Index, dirty: int, world: World, k: nat, n: string)
    requires Situation(h, t, saved) && k <= |PlanOf(h, t, saved, dirty)| && n in t && LeavesAlone(world, n)
    ensures var r := Run(t, PlanOf(h, t, saved, dirty)[..k], world).tree;
      n in r && SafeNode(h, t, saved, dirty, n, r[n])
  {
    PlanIsSound(h, t, saved, dirty);
    var plan := PlanOf(h, t, saved, dirty);
    KeptUnlessStamped(t, plan[..k], world, n);
    forall i | 0 <= i < k && plan[..k][i].name == n && plan[..k][i].stamp.Some?
      ensures SafeNode(h, t, saved, dirty, n, WithTime(t[n], plan[..k][i].stamp.value))
    {
      StampIsSafe(h, t, saved, dirty, i);
    }
  }

  /**
   * Whatever else happens to the tree meanwhile, a changed subtree is only ever stamped `dirty`
   * and an unchanged one only ever with its saved time, if it has another; and no name is written twice.
   */
  lemma EveryWriteIsPlanned(h: Hash, t: Tree, saved: Index, dirty: int, world: World, w: nat)
    requires Situation(h, t, saved)
    requires w < |Run(t, PlanOf(h, t, saved, dirty), world).writes|
    ensures var writes := Run(t, PlanOf(h, t, saved, dirty), world).writes;
      && writes[w].name in InputNames(t)
      && writes[w].stamp == (if writes[w].name in saved && SameBelow(saved, CurrentIndex(h, t), writes[w].name)
                             then IntAt(saved[writes[w].name], "mtime_ns") else dirty)
      && (writes[w].name in saved && SameBelow(saved, CurrentIndex(h, t), writes[w].name)
          ==> writes[w].stamp != t[writes[w].name].mtime)
      && forall v :: 0 <= v < w ==> writes[v].name != writes[w].name
  {
    var plan := PlanOf(h, t, saved, dirty);
    PlanIsSound(h, t, saved, dirty);
    var i := WriteOrigin(t, plan, world, w);
    StepFacts(h, t, saved, dirty, i);
    UnchangedIsSame(h, t, saved, plan[i].name);
  }

  // ----- Completion and the build tool's verdict -----

  lemma StampedAtEnd(h: Hash, t: Tree, saved: Index, dirty: int, r: Tree, n: string)
    requires Situation(h, t, saved) && n in t && AppliedTo(t, PlanOf(h, t, saved, dirty), r)
    ensures n in r && r[n] == if n in InputNames(t) then WithTime(t[n], Target(h, t, saved, n, dirty)) else t[n]
  {
    var plan, order := PlanOf(h, t, saved, dirty), VisitOrder(h, t);
    if n in InputNames(t) {
      var i :| 0 <= i < |order| && order[i] == n;
      StepFacts(h, t, saved, dirty, i);
      assert plan[i].name in t;
    } else {
      forall i | 0 <= i < |plan| ensures plan[i].name != n { StepFacts(h, t, saved, dirty, i); }
    }
  }

  /** What an undisturbed restore leaves behind. */
  ghost function FinalTree(h: Hash, t: Tree, saved: Index, dirty: int): Tree
    requires Situation(h, t, saved)
  {
    Run(t, PlanOf(h, t, saved, dirty), Quiet()).tree
  }

  /** `r` is `t` with every input at its target time and everything else as it was. */
  ghost predicate AtTargets(h: Hash, t: Tree, saved: Index, dirty: int, r: Tree)
    requires Situation(h, t, saved)
  {
    && r.Keys == t.Keys
    && forall n :: n in t ==> r[n] == if n in InputNames(t) then WithTime(t[n], Target(h, t, saved, n, dirty)) else t[n]
  }

  lemma CompletedRestore(h: Hash, t: Tree, saved: Index, dirty: int)
    requires Situation(h, t, saved)
    ensures !Run(t, PlanOf(h, t, saved, dirty), Quiet()).aborted
    ensures AtTargets(h, t, saved, dirty, FinalTree(h, t, saved, dirty))
  {
    var plan := PlanOf(h, t, saved, dirty);
    PrefixRun(h, t, saved, dirty, |plan|);
    assert plan[..|plan|] == plan;
    var r := FinalTree(h, t, saved, dirty);
    forall n | n in t
      ensures r[n] == if n in InputNames(t) then WithTime(t[n], Target(h, t, saved, n, dirty)) else t[n]
    {
      StampedAtEnd(h, t, saved, dirty, r, n);
    }
  }

  /** A build tool takes a unit for fresh when no watched path is younger than its artifact. */
  ghost predicate Fresh(t: Tree, watched: set<string>, artifact: int) {
    forall w :: w in watched ==> w in t && t[w].mtime <= artifact
  }

  lemma TargetTime(h: Hash, t: Tree, saved: Index, dirty: int, r: Tree, w: string)
    requires Situation(h, t, saved) && w in InputNames(t) && AtTargets(h, t, saved, dirty, r)
    ensures w in r && r[w].mtime == Target(h, t, saved, w, dirty)
    ensures r[w] == WithTime(t[w], r[w].mtime)
  {
    assert w in t && r[w] == WithTime(t[w], Target(h, t, saved, w, dirty));
    TimeOf(t[w], Target(h, t, saved, w, dirty));
  }

  lemma TimeOf(node: Node, stamp: int)
    ensures WithTime(node, stamp).mtime == stamp && WithTime(node, node.mtime) == node
  {
  }

  lemma VerdictAt(h: Hash, t: Tree, saved: Index, dirty: int, w: string, artifact: int)
    requires Situation(h, t, saved) && w in InputNames(t)
    requires artifact < dirty && (w in saved ==> IntAt(saved[w], "mtime_ns") <= artifact)
    ensures w in FinalTree(h, t, saved, dirty)
    ensures FinalTree(h, t, saved, dirty)[w].mtime <= artifact
      <==> w in saved && SameBelow(saved, CurrentIndex(h, t), w)
  {
    CompletedRestore(h, t, saved, dirty);
    TargetTime(h, t, saved, dirty, FinalTree(h, t, saved, dirty), w);
    UnchangedIsSame(h, t, saved, w);
  }

  /**
   * The verdict after a restore is the true one: a unit whose watched inputs were no younger than its artifact
   * at capture is fresh exactly when every watched subtree is unchanged, whatever times the checkout brought.
   */
  lemma RestorePreservesTheVerdict(h: Hash, t: Tree, saved: Index, dirty: int, watched: set<string>, artifact: int)
    requires Situation(h, t, saved) && watched <= InputNames(t)
    requires artifact < dirty && forall w :: w in watched && w in saved ==> IntAt(saved[w], "mtime_ns") <= artifact
    ensures Fresh(FinalTree(h, t, saved, dirty), watched, artifact)
      <==> forall w :: w in watched ==> w in saved && SameBelow(saved, CurrentIndex(h, t), w)
  {
    var r := FinalTree(h, t, saved, dirty);
    forall w | w in watched
      ensures w in r && (r[w].mtime <= artifact <==> w in saved && SameBelow(saved, CurrentIndex(h, t), w))
    {
      VerdictAt(h, t, saved, dirty, w, artifact);
    }
  }

  /** Every path at or below `top` is an input of both trees or of neither, with the same kind, mode and content. */
  ghost predicate SameContentBelow(s: Tree, t: Tree, top: string) {
    forall n :: Below(top, n) ==> SameContentAt(s, t, n)
  }

  ghost predicate SameContentAt(s: Tree, t: Tree, n: string) {
    && (n in InputNames(s) <==> n in InputNames(t))
    && (n in InputNames(s) ==> t[n] == WithTime(s[n], t[n].mtime))
  }

  lemma IdentityDecidesNode(h: Hash, s: Tree, t: Tree, n: string)
    requires n in s && n in t && Regular(s[n]) && Regular(t[n])
    requires CollisionFree(h, Contents(s) + Contents(t))
    ensures Identity(EntryOf(h, n, s[n])) == Identity(EntryOf(h, n, t[n])) <==> t[n] == WithTime(s[n], t[n].mtime)
  {
    var e, f := Identity(EntryOf(h, n, s[n])), Identity(EntryOf(h, n, t[n]));
    IdentityIgnoresTime(h, n, s[n], t[n].mtime);
    if e == f {
      assert e["kind"] == f["kind"] && e["mode"] == f["mode"];
      if s[n].File? {
        assert s[n].content in Contents(s) && t[n].content in Contents(t);
        assert e["sha256"] == f["sha256"];
      }
    }
  }

  lemma AgreeDecides(h: Hash, s: Tree, t: Tree, n: string)
    requires WellFormed(s) && Readable(s) && WellFormed(t) && Readable(t)
    requires CollisionFree(h, Contents(s) + Contents(t))
    ensures Agree(CurrentIndex(h, s), CurrentIndex(h, t), n) <==> SameContentAt(s, t, n)
  {
    if n in InputNames(s) && n in InputNames(t) {
      InputFacts(s, n);
      InputFacts(t, n);
      IdentityDecidesNode(h, s, t, n);
    }
  }

  lemma SameBelowDecides(h: Hash, s: Tree, t: Tree, top: string)
    requires WellFormed(s) && Readable(s) && WellFormed(t) && Readable(t)
    requires CollisionFree(h, Contents(s) + Contents(t))
    ensures SameBelow(CurrentIndex(h, s), CurrentIndex(h, t), top) <==> SameContentBelow(s, t, top)
  {
    forall n ensures Agree(CurrentIndex(h, s), CurrentIndex(h, t), n) <==> SameContentAt(s, t, n) {
      AgreeDecides(h, s, t, n);
    }
  }

  lemma SavedTime(h: Hash, s: Tree, w: string)
    ensures w in CurrentIndex(h, s) <==> w in InputNames(s)
    ensures w in InputNames(s) ==> IntAt(CurrentIndex(h, s)[w], "mtime_ns") == s[w].mtime
  {
  }

  /**
   * The same over what is really in the files: after restoring a capture of `s` over `t`, the unit is fresh exactly
   * when below every watched path the two trees have the same inputs with the same kinds, modes and contents.
   */
  lemma VerdictOverContents(h: Hash, s: Tree, t: Tree, dirty: int, watched: set<string>, artifact: int)
    requires WellFormed(s) && Readable(s) && Situation(h, t, CurrentIndex(h, s))
    requires CollisionFree(h, Contents(s) + Contents(t))
    requires watched <= InputNames(t) && artifact < dirty
    requires forall w :: w in watched && w in InputNames(s) ==> s[w].mtime <= artifact
    ensures Fresh(FinalTree(h, t, CurrentIndex(h, s), dirty), watched, artifact)
      <==> forall w :: w in watched ==> SameContentBelow(s, t, w)
  {
    forall w ensures w in CurrentIndex(h, s) <==> w in InputNames(s) { SavedTime(h, s, w); }
    forall w | w in watched && w in InputNames(s) ensures IntAt(CurrentIndex(h, s)[w], "mtime_ns") <= artifact {
      SavedTime(h, s, w);
    }
    RestorePreservesTheVerdict(h, t, CurrentIndex(h, s), dirty, watched, artifact);
    forall w | w in watched
      ensures SameContentBelow(s, t, w)
        <==> w in CurrentIndex(h, s) && SameBelow(CurrentIndex(h, s), CurrentIndex(h, t), w)
    {
      SameBelowDecides(h, s, t, w);
      if SameContentBelow(s, t, w) { assert Below(w, w) && SameContentAt(s, t, w); }
    }
  }

  lemma ChangedMembers(m: Index, same: set<string>, order: seq<string>)
    requires forall n :: n in order <==> n in m
    ensures Members(m, same, order, |order|, 2) == m.Keys - same
  {
    forall n ensures n in Members(m, same, order, |order|, 2) <==> n in m.Keys - same {
      MembersExactly(m, same, order, |order|, 2, n);
    }
  }

  /** The report of a completed restore accounts for every current entry, once. */
  lemma ReportIsComplete(h: Hash, t: Tree, saved: Index)
    requires Situation(h, t, saved)
    ensures var c := TallyOf(CurrentIndex(h, t), SameNamesOf(h, t, saved), VisitOrder(h, t), |VisitOrder(h, t)|);
      && c.restoredFiles + c.restoredDirectories + c.changedInputs == |InputNames(t)|
      && c.changedInputs == |InputNames(t) - SameNamesOf(h, t, saved)|
  {
    var m, same, order := CurrentIndex(h, t), SameNamesOf(h, t, saved), VisitOrder(h, t);
    VisitOrderFacts(h, t);
    TallySums(m, same, order, |order|);
    TallyCounts(m, same, order, |order|, 2);
    assert m.Keys == InputNames(t);
    ChangedMembers(m, same, order);
  }

  // ----- Capture, restore, verify -----

  /** The same tree up to modification times. */
  ghost predicate Retimed(t: Tree, r: Tree) {
    r.Keys == t.Keys && forall n :: n in t ==> r[n] == WithTime(t[n], r[n].mtime)
  }

  lemma {:induction false} RetimedWalk(t: Tree, r: Tree, path: string)
    requires Retimed(t, r) && path in t && "" !in t
    ensures PreOrder(r, path) == PreOrder(t, path)
    decreases Deeper(t, Depth(path)), 1
  {
    assert r[path].Dir? <==> t[path].Dir?;
    if t[path].Dir? {
      assert Children(r, path) == Children(t, path);
      RetimedWalkAll(t, r, path, ChildList(t, path));
    }
  }

  lemma {:induction false} RetimedWalkAll(t: Tree, r: Tree, top: string, children: seq<string>)
    requires Retimed(t, r) && top in t && "" !in t
    requires forall c :: c in children ==> c in Children(t, top) && c in Children(r, top)
    ensures PreOrderAll(r, top, children) == PreOrderAll(t, top, children)
    decreases Deeper(t, Depth(top)), 0, |children|
  {
    if children != [] {
      assert Last(children) in children;
      ChildIsDeeper(t, top, Last(children));
      RetimedWalk(t, r, Last(children));
      RetimedWalkAll(t, r, top, Front(children));
    }
  }

  lemma {:induction false} RetimedSize(t: Tree, r: Tree, names: seq<string>)
    requires Retimed(t, r) && forall n :: n in names ==> n in t && n in r
    ensures TotalSize(r, names) == TotalSize(t, names)
  {
    if names != [] {
      assert Last(names) in names;
      RetimedSize(t, r, Front(names));
    }
  }

  lemma RetimedScannable(t: Tree, r: Tree, root: string)
    requires Retimed(t, r) && Scannable(t, root)
    ensures Scannable(r, root)
  {
    RetimedWalk(t, r, root);
    RetimedSize(t, r, PreOrder(t, root));
    forall n | n in PreOrder(t, root) ensures Regular(r[n]) { assert Regular(t[n]); }
  }

  lemma {:induction false} RetimedAllScannable(t: Tree, r: Tree, trees: seq<string>, i: nat)
    requires Retimed(t, r) && i <= |trees| && AllScannable(t, trees, i)
    ensures AllScannable(r, trees, i)
  {
    if i > 0 {
      RetimedAllScannable(t, r, trees, i - 1);
      if trees[i - 1] in t { RetimedScannable(t, r, trees[i - 1]); }
    }
  }

  lemma RetimedReadable(t: Tree, r: Tree)
    requires Retimed(t, r) && WellFormed(t) && Readable(t)
    ensures WellFormed(r) && Readable(r) && InputNames(r) == InputNames(t)
  {
    RetimedAllScannable(t, r, TREES, |TREES|);
    assert InputNames(r) == InputNames(t);
    forall k | 0 <= k < |FILES| && FILES[k] in r ensures r[FILES[k]].File? { assert t[FILES[k]].File?; }
    forall n | n in r && '/' in n ensures Parent(n) in r && r[Parent(n)].Dir? { assert t[Parent(n)].Dir?; }
    forall n | n in r && !r[n].Link? && !r[n].Special? ensures 0 <= r[n].mode <= 0xFFF {
      assert t[n].mode == r[n].mode;
    }
  }

  /** Whatever happened to the times, unchanged content gives equal identities everywhere. */
  lemma RetimedAgree(h: Hash, s: Tree, t: Tree, n: string)
    requires WellFormed(s) && Readable(s) && SameContents(s, t)
    ensures Agree(CurrentIndex(h, s), CurrentIndex(h, t), n)
  {
    if n in InputNames(s) {
      InputFacts(s, n);
      IdentityIgnoresTime(h, n, s[n], t[n].mtime);
    }
  }

  /** The same inputs up to modification times. */
  ghost predicate SameContents(s: Tree, t: Tree) {
    InputNames(s) == InputNames(t) && forall n :: n in InputNames(s) ==> t[n] == WithTime(s[n], t[n].mtime)
  }

  lemma UnchangedContentMatches(h: Hash, s: Tree, t: Tree, dirty: int, n: string)
    requires WellFormed(s) && Readable(s) && SameContents(s, t) && Situation(h, t, CurrentIndex(h, s))
    requires n in InputNames(t)
    ensures n in SameNamesOf(h, t, CurrentIndex(h, s))
    ensures Target(h, t, CurrentIndex(h, s), n, dirty) == s[n].mtime
  {
    UnchangedIsSame(h, t, CurrentIndex(h, s), n);
    forall m | Below(n, m) ensures Agree(CurrentIndex(h, s), CurrentIndex(h, t), m) { RetimedAgree(h, s, t, m); }
  }

  lemma AtTargetsIsRetimed(h: Hash, t: Tree, saved: Index, dirty: int, r: Tree)
    requires Situation(h, t, saved) && AtTargets(h, t, saved, dirty, r)
    ensures Retimed(t, r)
  {
    forall n | n in t ensures r[n] == WithTime(t[n], r[n].mtime) {
      TimeOf(t[n], t[n].mtime);
      if n in InputNames(t) { TimeOf(t[n], Target(h, t, saved, n, dirty)); }
    }
  }

  lemma RecoveredAt(h: Hash, s: Tree, t: Tree, dirty: int, r: Tree, n: string)
    requires WellFormed(s) && Readable(s) && SameContents(s, t) && Situation(h, t, CurrentIndex(h, s))
    requires AtTargets(h, t, CurrentIndex(h, s), dirty, r) && n in InputNames(s)
    ensures n in r && r[n] == s[n]
  {
    UnchangedContentMatches(h, s, t, dirty, n);
    TargetTime(h, t, CurrentIndex(h, s), dirty, r, n);
    assert t[n] == WithTime(s[n], t[n].mtime);
  }

  /** A restore of unchanged content recovers every captured input exactly. */
  lemma RestoreRecovers(h: Hash, s: Tree, t: Tree, dirty: int)
    requires WellFormed(s) && Readable(s) && SameContents(s, t) && Situation(h, t, CurrentIndex(h, s))
    ensures var r := FinalTree(h, t, CurrentIndex(h, s), dirty); WellFormed(r) && Readable(r) && SameInputs(s, r)
  {
    var r := FinalTree(h, t, CurrentIndex(h, s), dirty);
    CompletedRestore(h, t, CurrentIndex(h, s), dirty);
    AtTargetsIsRetimed(h, t, CurrentIndex(h, s), dirty, r);
    RetimedReadable(t, r);
    forall n | n in InputNames(s) ensures s[n] == r[n] { RecoveredAt(h, s, t, dirty, r, n); }
  }

  /** Changing times changes no content. */
  lemma RetimedContents(t: Tree, r: Tree)
    requires Retimed(t, r)
    ensures Contents(r) == Contents(t)
  {
    forall n | n in t && t[n].File? ensures n in r && r[n].File? && r[n].content == t[n].content {
      assert r[n] == WithTime(t[n], r[n].mtime);
    }
    forall n | n in r && r[n].File? ensures n in t && t[n].File? && r[n].content == t[n].content {
      assert r[n] == WithTime(t[n], r[n].mtime);
    }
  }

  lemma FinalContents(h: Hash, t: Tree, saved: Index, dirty: int)
    requires Situation(h, t, saved)
    ensures Contents(FinalTree(h, t, saved, dirty)) == Contents(t)
  {
    CompletedRestore(h, t, saved, dirty);
    AtTargetsIsRetimed(h, t, saved, dirty, FinalTree(h, t, saved, dirty));
    RetimedContents(t, FinalTree(h, t, saved, dirty));
  }

  /**
   * Capture, restore, verify: a snapshot of `s` restored over unchanged content with arbitrary times
   * makes the following `verify` succeed, with no expected key or a matching one.
   */
  lemma CaptureRestoreVerify(h: Hash, fold: Fold, s: Tree, t: Tree, profile: string, context: Json, now: int,
                             dirty: int, compatibility: string, expectedKey: string, reader: Reader)
    requires WellFormed(s) && Readable(s) && HexDigests(h) && Portable(fold, s, now)
    requires SameContents(s, t) && Situation(h, t, CurrentIndex(h, s))
    requires CollisionFree(h, Contents(s) + Contents(t))
    ensures var data := SnapshotOf(h, Listing(h, s), true, profile, context);
      && Accepts(h, fold, data, profile, context, now) && SavedIndex(data) == CurrentIndex(h, s)
      && (Verifies(h, fold, FinalTree(h, t, CurrentIndex(h, s), dirty), Some(data), reader.profile, reader.context, now,
                   compatibility, expectedKey)
          <==> (reader == Reader(profile, context)
                && KeyMatches(expectedKey, compatibility, InputHash(h, Listing(h, s)))))
  {
    CaptureIsAccepted(h, fold, s, profile, context, now, Reader(profile, context));
    RestoreRecovers(h, s, t, dirty);
    FinalContents(h, t, CurrentIndex(h, s), dirty);
    VerifyAfterCapture(h, fold, s, FinalTree(h, t, CurrentIndex(h, s), dirty), profile, context, now,
                       compatibility, expectedKey, reader);
  }

  // ----- What the input hash of a key stands for -----

  lemma IdentityAt(entries: seq<Entry>, k: nat)
    requires k < |entries|
    ensures Identities(entries)[k] == Obj(Identity(entries[k]))
  {
  }

  lemma SamePathsFromIdentities(h: Hash, s: Tree, t: Tree)
    requires Identities(Listing(h, s)) == Identities(Listing(h, t))
    ensures InputNames(s) == InputNames(t)
    ensures forall n :: n in InputNames(s) ==> Identity(EntryOf(h, n, s[n])) == Identity(EntryOf(h, n, t[n]))
  {
    SamePathOrder(h, s, t);
    var ns := NamesInOrder(InputNames(s));
    assert forall n :: n in InputNames(s) <==> n in ns;
    forall n | n in InputNames(s) ensures Identity(EntryOf(h, n, s[n])) == Identity(EntryOf(h, n, t[n])) {
      var k := PlaceOf(s, n);
      SameIdentityAt(h, s, t, k);
    }
  }

  lemma SameCount(h: Hash, s: Tree, t: Tree)
    requires Identities(Listing(h, s)) == Identities(Listing(h, t))
    ensures |Listing(h, s)| == |Listing(h, t)| == |NamesInOrder(InputNames(s))| == |NamesInOrder(InputNames(t))|
  {
    assert |Identities(Listing(h, s))| == |Listing(h, s)| && |Identities(Listing(h, t))| == |Listing(h, t)|;
  }

  lemma SamePathOrder(h: Hash, s: Tree, t: Tree)
    requires Identities(Listing(h, s)) == Identities(Listing(h, t))
    ensures InputNames(s) == InputNames(t)
  {
    SameCount(h, s, t);
    forall k: nat | k < |Listing(h, s)| ensures NameOrder(s, k) == NameOrder(t, k) { SameIdentityAt(h, s, t, k); }
    SameOrder(s, t);
  }

  ghost function NameOrder(t: Tree, k: nat): string {
    var names := NamesInOrder(InputNames(t));
    if k < |names| then names[k] else ""
  }

  lemma SameOrder(s: Tree, t: Tree)
    requires |NamesInOrder(InputNames(s))| == |NamesInOrder(InputNames(t))|
    requires forall k: nat :: k < |NamesInOrder(InputNames(s))| ==> NameOrder(s, k) == NameOrder(t, k)
    ensures InputNames(s) == InputNames(t)
  {
    var ns, nt := NamesInOrder(InputNames(s)), NamesInOrder(InputNames(t));
    forall k: nat | k < |ns| ensures ns[k] == nt[k] { assert NameOrder(s, k) == NameOrder(t, k); }
    assert ns == nt;
    SameNames(ns, InputNames(s), nt, InputNames(t));
  }

  lemma SameIdentityAt(h: Hash, s: Tree, t: Tree, k: nat)
    requires Identities(Listing(h, s)) == Identities(Listing(h, t)) && k < |Listing(h, s)|
    ensures k < |NamesInOrder(InputNames(s))| && k < |NamesInOrder(InputNames(t))|
    ensures var n := NamesInOrder(InputNames(s))[k];
      && n == NamesInOrder(InputNames(t))[k] && n in InputNames(s) && n in InputNames(t)
      && Identity(EntryOf(h, n, s[n])) == Identity(EntryOf(h, n, t[n]))
  {
    SameCount(h, s, t);
    ListingAt(h, s, k);
    ListingAt(h, t, k);
    IdentityAt(Listing(h, s), k);
    IdentityAt(Listing(h, t), k);
    var e, f := Listing(h, s)[k], Listing(h, t)[k];
    assert Identity(e)["path"] == Identity(f)["path"];
  }

  /**
   * Two trees have the same input hash exactly when they hold the same inputs with the same kinds, modes and
   * contents, whatever their times: a key made from other inputs is refused, and touching a file changes no key.
   */
  lemma InputHashDecides(h: Hash, s: Tree, t: Tree)
    requires WellFormed(s) && WellFormed(t) && Readable(s) && Readable(t)
    requires CollisionFree(h, Contents(s) + Contents(t))
    requires CollisionFree(h, {Print(Arr(Identities(Listing(h, s)))), Print(Arr(Identities(Listing(h, t))))})
    ensures InputHash(h, Listing(h, s)) == InputHash(h, Listing(h, t)) <==> SameContents(s, t)
  {
    var ids, idt := Identities(Listing(h, s)), Identities(Listing(h, t));
    if InputHash(h, Listing(h, s)) == InputHash(h, Listing(h, t)) {
      PrintIsInjective(Arr(ids), Arr(idt));
      SamePathsFromIdentities(h, s, t);
      forall n | n in InputNames(s) ensures t[n] == WithTime(s[n], t[n].mtime) {
        InputFacts(s, n);
        InputFacts(t, n);
        IdentityDecidesNode(h, s, t, n);
      }
    }
    if SameContents(s, t) { SameIdentities(h, s, t); }
  }

  lemma SameIdentities(h: Hash, s: Tree, t: Tree)
    requires WellFormed(s) && Readable(s) && SameContents(s, t)
    ensures Identities(Listing(h, s)) == Identities(Listing(h, t))
  {
    var names := NamesInOrder(InputNames(s));
    forall k | 0 <= k < |names| ensures Identities(Listing(h, s))[k] == Identities(Listing(h, t))[k] {
      ListingAt(h, s, k);
      ListingAt(h, t, k);
      IdentityAt(Listing(h, s), k);
      IdentityAt(Listing(h, t), k);
      InputFacts(s, names[k]);
      IdentityIgnoresTime(h, names[k], s[names[k]], t[names[k]].mtime);
    }
  }
}
