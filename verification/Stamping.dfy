/**
 * Rewriting modification times in a fixed order while others may change the tree:
 * `set_time`, and the specification of a restore loop that stops at its first failure.
 */
module Stamping {
  import opened Ordering
  import opened Paths
  import opened Splitting
  import opened CanonicalJson
  import opened SubtreeHashes
  import opened FileTree
  import opened Options

  datatype Status = Done | Failed(reason: string)

  /** One `os.utime` call. */
  datatype Write = Write(name: string, stamp: int)

  /** One turn of a restore loop: the scanned entry, and the time to set, if any. */
  datatype Step = Step(name: string, entry: Entry, stamp: Option<int>)

  function PathOf(e: Entry): string {
    if "path" in e && e["path"].Str? then e["path"].s else ""
  }

  function IntAt(e: Entry, key: string): int {
    if key in e && e[key].Int? then e[key].i else -1
  }

  /** `entry.get(key)`, where a missing key reads as `None`. */
  function Get(e: Entry, key: string): Json {
    if key in e then e[key] else Null
  }

  predicate IsDirectory(e: Entry) { Get(e, "kind") == Str("directory") }

  /** The metadata a restore compares again, directly before each write. */
  predicate Untouched(t: Tree, name: string, e: Entry) {
    && name in t && !t[name].Link?
    && t[name].mtime == IntAt(e, "mtime_ns")
    && (Regular(t[name]) || t[name].Special?) && t[name].mode == IntAt(e, "mode")
    && (Get(e, "kind") == Str("file") ==> Size(t[name]) == IntAt(e, "size"))
  }

  /** The workspace on disk, with a log of the timestamps written to it. */
  class Disk {
    var nodes: Tree
    var writes: seq<Write>

    constructor (t: Tree)
      ensures nodes == t && writes == []
    {
      nodes, writes := t, [];
    }

    method SetTime(name: string, entry: Entry, stamp: int) returns (s: Status)
      requires WellFormed(nodes)
      modifies this
      ensures s.Done? <==> Untouched(old(nodes), name, entry)
      ensures s.Done? ==> nodes == Stamped(old(nodes), name, stamp) && writes == old(writes) + [Write(name, stamp)]
      ensures s.Failed? ==> nodes == old(nodes) && writes == old(writes)
      ensures WellFormed(nodes)
    {
      var found := WalkTo(nodes, name);
      if !found.Reached? { return Failed("missing-or-link"); }
      var metadata := found.node;
      if metadata.mtime != IntAt(entry, "mtime_ns") || metadata.mode != IntAt(entry, "mode")
         || (Get(entry, "kind") == Str("file") && Size(metadata) != IntAt(entry, "size")) {
        return Failed("Input changed while restoring: " + name);
      }
      nodes := Stamped(nodes, name, stamp);
      writes := writes + [Write(name, stamp)];
      return Done;
    }

    /** What other processes do between two turns of a loop. */
    method Interfere(next: Tree)
      modifies this`nodes
      ensures nodes == next
    {
      nodes := next;
    }
  }

  function Stamped(t: Tree, name: string, stamp: int): (r: Tree)
    requires name in t
    ensures WellFormed(t) ==> WellFormed(r)
  {
    t[name := WithTime(t[name], stamp)]
  }

  // ----- The specification of a restore loop -----

  /** One turn of a restore loop: the rest of the machine moves, then the step is taken. */
  method TakeTurn(disk: Disk, i: nat, step: Step, world: World, ghost p: Progress) returns (aborted: bool)
    requires WellFormed(disk.nodes) && Realistic(world)
    requires !p.aborted && p.tree == disk.nodes
    modifies disk
    ensures WellFormed(disk.nodes)
    ensures disk.nodes == Turn(p, i, step, world).tree && aborted == Turn(p, i, step, world).aborted
    ensures p.writes <= Turn(p, i, step, world).writes
    ensures disk.writes == old(disk.writes) + Turn(p, i, step, world).writes[|p.writes|..]
  {
    disk.Interfere(world(i, disk.nodes));
    aborted := false;
    if step.stamp.Some? {
      var s := disk.SetTime(step.name, step.entry, step.stamp.value);
      aborted := s.Failed?;
    }
  }

  /** What the rest of the machine does to the tree before turn `i`. */
  type World = (nat, Tree) -> Tree

  ghost predicate Realistic(world: World) {
    forall i, t :: WellFormed(t) ==> WellFormed(world(i, t))
  }

  function Quiet(): World {
    (i, t) => t
  }

  datatype Progress = Progress(tree: Tree, writes: seq<Write>, aborted: bool)

  function Turn(p: Progress, i: nat, step: Step, world: World): Progress {
    if p.aborted then p
    else
      var t := world(i, p.tree);
      if step.stamp.None? then p.(tree := t)
      else if !Untouched(t, step.name, step.entry) then Progress(t, p.writes, true)
      else Progress(Stamped(t, step.name, step.stamp.value), p.writes + [Write(step.name, step.stamp.value)], false)
  }

  function Run(t: Tree, plan: seq<Step>, world: World): Progress {
    if plan == [] then Progress(t, [], false)
    else Turn(Run(t, Front(plan), world), |plan| - 1, Last(plan), world)
  }

  function Planned(plan: seq<Step>): seq<Write> {
    if plan == [] then []
    else Planned(Front(plan)) + (if Last(plan).stamp.Some? then [Write(Last(plan).name, Last(plan).stamp.value)]
      else [])
  }

  /**
   * Whatever the rest of the machine does, the writes are those of a prefix of the plan,
   * and of the whole plan unless the loop stopped early.
   */
  lemma {:induction false} WritesFollowThePlan(t: Tree, plan: seq<Step>, world: World) returns (k: nat)
    ensures k <= |plan| && Run(t, plan, world).writes == Planned(plan[..k])
    ensures !Run(t, plan, world).aborted ==> k == |plan|
    ensures Run(t, plan, world).aborted ==> k < |plan| && plan[k].stamp.Some?
    ensures Run(t, plan, world).aborted ==>
      (!Run(t, plan[..k], world).aborted && !Untouched(Seen(t, plan, world, k), plan[k].name, plan[k].entry))
  {
    if plan == [] {
      k := 0;
    } else {
      var front := Front(plan);
      k := WritesFollowThePlan(t, front, world);
      assert plan[..|plan|] == plan && plan[..|plan| - 1] == front;
      assert front[..k] == plan[..k];
      var p := Run(t, front, world);
      if p.aborted {
        assert Seen(t, plan, world, k) == Seen(t, front, world, k);
      } else if !Run(t, plan, world).aborted {
        k := |plan|;
      }
    }
  }

  /** What one more step does, given whether its guard holds in the tree as it then is. */
  lemma StepExactly(t: Tree, plan: seq<Step>, world: World, k: nat)
    requires k < |plan| && plan[k].stamp.Some? && !Run(t, plan[..k], world).aborted
    ensures var before, after, now := Run(t, plan[..k], world), Run(t, plan[..k + 1], world), Seen(t, plan, world, k);
      if Untouched(now, plan[k].name, plan[k].entry) then
        !after.aborted && after.tree == now[plan[k].name := WithTime(now[plan[k].name], plan[k].stamp.value)]
        && after.writes == before.writes + [Write(plan[k].name, plan[k].stamp.value)]
      else after.aborted && after.tree == now && after.writes == before.writes
  {
    RunOneMore(t, plan, k, world);
  }

  /** When a step has failed, its name is never written. */
  lemma FailedIsNotWritten(t: Tree, plan: seq<Step>, world: World, k: nat, w: nat)
    requires NamesDistinct(plan) && k < |plan| && plan[k].stamp.Some?
    requires !Run(t, plan[..k], world).aborted && Run(t, plan[..k + 1], world).aborted
    requires w < |Run(t, plan, world).writes|
    ensures Run(t, plan, world).writes[w].name != plan[k].name
  {
    AbortedStays(t, plan, k + 1, world);
    StepExactly(t, plan, world, k);
    var i := WriteOrigin(t, plan[..k], world, w);
    assert plan[..k][i] == plan[i];
  }

  /** The tree as step `k` finds it. */
  function Seen(t: Tree, plan: seq<Step>, world: World, k: nat): Tree
    requires k <= |plan|
  {
    world(k, Run(t, plan[..k], world).tree)
  }

  /** No name is written twice. */
  lemma {:induction false} PlannedOnce(plan: seq<Step>, v: nat, w: nat)
    requires NamesDistinct(plan) && v < w < |Planned(plan)|
    ensures Planned(plan)[v].name != Planned(plan)[w].name
  {
    var front := Front(plan);
    if w < |Planned(front)| {
      PlannedOnce(front, v, w);
    } else {
      var i := PlannedFrom(front, v);
      assert plan[i].name != Last(plan).name;
    }
  }

  lemma {:induction false} PlannedFrom(plan: seq<Step>, w: nat) returns (i: nat)
    requires w < |Planned(plan)|
    ensures i < |plan| && plan[i].stamp.Some? && Planned(plan)[w] == Write(plan[i].name, plan[i].stamp.value)
  {
    if w < |Planned(Front(plan))| { i := PlannedFrom(Front(plan), w); } else { i := |plan| - 1; }
  }

  /** However the loop ends, each write is that of some step, and no name was written before. */
  lemma WriteOrigin(t: Tree, plan: seq<Step>, world: World, w: nat) returns (i: nat)
    requires NamesDistinct(plan) && w < |Run(t, plan, world).writes|
    ensures i < |plan| && plan[i].stamp.Some?
      && Run(t, plan, world).writes[w] == Write(plan[i].name, plan[i].stamp.value)
    ensures forall v :: 0 <= v < w ==> Run(t, plan, world).writes[v].name != plan[i].name
  {
    var k := WritesFollowThePlan(t, plan, world);
    i := PlannedFrom(plan[..k], w);
    forall v | 0 <= v < w ensures Planned(plan[..k])[v].name != Planned(plan[..k])[w].name {
      PlannedOnce(plan[..k], v, w);
    }
  }

  /** The rest of the machine may do anything, except to this one path. */
  ghost predicate LeavesAlone(world: World, n: string) {
    forall i, t :: n in t ==> n in world(i, t) && world(i, t)[n] == t[n]
  }

  /** A path nobody else touches is as it was, or has the one time planned for it, wherever the loop has stopped. */
  lemma {:induction false} KeptUnlessStamped(t: Tree, plan: seq<Step>, world: World, n: string)
    requires NamesDistinct(plan) && n in t && LeavesAlone(world, n)
    ensures n in Run(t, plan, world).tree
    ensures Run(t, plan, world).tree[n] == t[n]
      || exists i :: 0 <= i < |plan| && plan[i].name == n && plan[i].stamp.Some?
                     && Run(t, plan, world).tree[n] == WithTime(t[n], plan[i].stamp.value)
  {
    if plan != [] {
      var front, last := Front(plan), Last(plan);
      KeptUnlessStamped(t, front, world, n);
      var p := Run(t, front, world);
      if p.tree[n] != t[n] {
        var i :| 0 <= i < |front| && front[i].name == n && front[i].stamp.Some?
          && p.tree[n] == WithTime(t[n], front[i].stamp.value);
        assert plan[i] == front[i] && plan[i].name != last.name;
      } else {
        assert plan[|plan| - 1] == last;
      }
    }
  }

  ghost predicate NamesDistinct(plan: seq<Step>) {
    forall i, j :: 0 <= i < j < |plan| ==> plan[i].name != plan[j].name
  }

  /** The tree with the time of every planned name replaced. */
  ghost predicate AppliedTo(t: Tree, plan: seq<Step>, r: Tree) {
    && r.Keys == t.Keys
    && (forall i :: 0 <= i < |plan| && plan[i].name in t ==>
        r[plan[i].name] == if plan[i].stamp.Some? then WithTime(t[plan[i].name], plan[i].stamp.value)
          else t[plan[i].name])
    && (forall n :: n in t && (forall i :: 0 <= i < |plan| ==> plan[i].name != n) ==> r[n] == t[n])
  }

  /** Nobody else at work: the loop completes and every planned time is set, nothing else. */
  lemma {:induction false} QuietRun(t: Tree, plan: seq<Step>)
    requires NamesDistinct(plan)
    requires forall i :: 0 <= i < |plan| ==> Untouched(t, plan[i].name, plan[i].entry)
    ensures !Run(t, plan, Quiet()).aborted
    ensures AppliedTo(t, plan, Run(t, plan, Quiet()).tree)
  {
    if plan != [] {
      var front := Front(plan);
      QuietRun(t, front);
      var p := Run(t, front, Quiet());
      var last := Last(plan);
      assert Untouched(t, last.name, last.entry);
      assert p.tree[last.name] == t[last.name];
      AppliedToLast(t, plan, p.tree, Run(t, plan, Quiet()).tree);
    }
  }

  lemma AppliedToLast(t: Tree, plan: seq<Step>, before: Tree, r: Tree)
    requires plan != [] && NamesDistinct(plan) && AppliedTo(t, Front(plan), before)
    requires Last(plan).name in t && before[Last(plan).name] == t[Last(plan).name]
    requires r == if Last(plan).stamp.Some? then Stamped(before, Last(plan).name, Last(plan).stamp.value) else before
    ensures AppliedTo(t, plan, r)
  {
    var front := Front(plan);
    forall n | n in t && (forall i :: 0 <= i < |plan| ==> plan[i].name != n) ensures r[n] == t[n] {
      assert plan[|plan| - 1].name != n;
      assert forall i :: 0 <= i < |front| ==> front[i].name == plan[i].name;
    }
    forall i | 0 <= i < |plan| && plan[i].name in t
      ensures r[plan[i].name] == if plan[i].stamp.Some? then WithTime(t[plan[i].name], plan[i].stamp.value)
        else t[plan[i].name]
    {
      if i < |front| { assert front[i] == plan[i]; }
    }
  }

  lemma RunOneMore(t: Tree, plan: seq<Step>, i: nat, world: World)
    requires i < |plan|
    ensures Run(t, plan[..i + 1], world) == Turn(Run(t, plan[..i], world), i, plan[i], world)
  {
    assert plan[..i + 1] == plan[..i] + [plan[i]] && Front(plan[..i + 1]) == plan[..i];
  }

  /** Nothing happens after the step that fails. */
  lemma {:induction false} AbortedStays(t: Tree, plan: seq<Step>, k: nat, world: World)
    requires k <= |plan| && Run(t, plan[..k], world).aborted
    ensures Run(t, plan, world) == Run(t, plan[..k], world)
  {
    if k == |plan| {
      assert plan[..k] == plan;
    } else {
      assert Front(plan)[..k] == plan[..k];
      AbortedStays(t, Front(plan), k, world);
    }
  }

  /** A restore loop has taken its first `i` turns without failing. */
  ghost predicate Following(disk: Disk, before: seq<Write>, start: Tree, plan: seq<Step>, i: nat, world: World)
    requires i <= |plan|
    reads disk
  {
    && WellFormed(disk.nodes) && !Run(start, plan[..i], world).aborted
    && disk.nodes == Run(start, plan[..i], world).tree
    && disk.writes == before + Run(start, plan[..i], world).writes
  }

  /** A restore loop has ended: by taking all its turns, or by failing at one. */
  ghost predicate Ended(disk: Disk, before: seq<Write>, start: Tree, plan: seq<Step>, world: World, aborted: bool)
    reads disk
  {
    var run := Run(start, plan, world);
    disk.nodes == run.tree && disk.writes == before + run.writes && aborted == run.aborted
  }

  method Advance(disk: Disk, step: Step, i: nat, world: World,
                 ghost before: seq<Write>, ghost start: Tree, ghost plan: seq<Step>) returns (aborted: bool)
    requires i < |plan| && step == plan[i] && Realistic(world)
    requires Following(disk, before, start, plan, i, world)
    modifies disk
    ensures !aborted ==> Following(disk, before, start, plan, i + 1, world)
    ensures aborted ==> Ended(disk, before, start, plan, world, true)
  {
    RunOneMore(start, plan, i, world);
    ghost var p := Run(start, plan[..i], world);
    aborted := TakeTurn(disk, i, step, world, p);
    if aborted { AbortedStays(start, plan, i + 1, world); }
  }

  /** A restore loop: one turn per step, up to the first failure. */
  method Perform(disk: Disk, plan: seq<Step>, world: World) returns (aborted: bool)
    requires WellFormed(disk.nodes) && Realistic(world)
    modifies disk
    ensures Ended(disk, old(disk.writes), old(disk.nodes), plan, world, aborted)
  {
    for i := 0 to |plan|
      invariant Following(disk, old(disk.writes), old(disk.nodes), plan, i, world)
    {
      aborted := Advance(disk, plan[i], i, world, old(disk.writes), old(disk.nodes), plan);
      if aborted { return; }
    }
    assert plan[..|plan|] == plan;
    return false;
  }
}
