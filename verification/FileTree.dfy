/** The part of a file system the cache scripts look at: a map from path to metadata and content. */
module FileTree {
  import opened Ordering
  import opened Paths
  import opened Splitting

  /** File content and hash pre-images are byte strings, written as a `string`. */
  datatype Node =
    | File(mode: int, mtime: int, content: string)
    | Dir(mode: int, mtime: int)
    | Link(mtime: int)                 // a symbolic link or reparse point
    | Special(mode: int, mtime: int)   // neither regular file nor directory

  type Tree = map<string, Node>

  predicate GoodName(name: string) {
    forall part :: part in Split(name, '/') ==> part !in {"", ".", ".."}
  }

  /** What any file system guarantees of the paths that exist in it. */
  ghost predicate WellFormed(t: Tree) {
    && "" !in t
    && (forall n :: n in t ==> GoodName(n))
    && (forall n :: n in t && '/' in n ==> Parent(n) in t && t[Parent(n)].Dir?)
    && (forall n :: n in t && !t[n].Link? && !t[n].Special? ==> 0 <= t[n].mode <= 0xFFF)
  }

  predicate Regular(node: Node) { node.File? || node.Dir? }

  function Size(node: Node): nat {
    if node.File? then |node.content| else 0
  }

  /** What a second metadata read of a path finds; `sameFile` says that the inode number is the same. */
  datatype Second = Gone | Found(node: Node, sameFile: bool)

  type Reread = string -> Second

  /** `visit` reads metadata before and after: type, mode, time, inode and, for a file, size must be the same. */
  predicate Steady(node: Node, later: Second) {
    later.Found? && later.sameFile && later.node.mtime == node.mtime &&
    match node
    case File(mode, _, content) => later.node.File? && later.node.mode == mode && |later.node.content| == |content|
    case Dir(mode, _) => later.node.Dir? && later.node.mode == mode
    case _ => true
  }

  ghost predicate AllSteady(t: Tree, again: Reread, names: seq<string>) {
    forall n :: n in names && n in t ==> Steady(t[n], again(n))
  }

  /** No path of the subtree changed between its two reads. */
  ghost predicate SteadyBelow(t: Tree, again: Reread, root: string) {
    forall n :: n in t && Below(root, n) ==> Steady(t[n], again(n))
  }

  function WithTime(node: Node, stamp: int): Node {
    match node
    case File(mode, _, content) => File(mode, stamp, content)
    case Dir(mode, _) => Dir(mode, stamp)
    case Link(_) => Link(stamp)
    case Special(mode, _) => Special(mode, stamp)
  }

  // ----- The order in which `visit` walks a directory tree -----

  function PreOrder(t: Tree, path: string): (r: seq<string>)
    requires path in t && "" !in t
    ensures r != [] && r[0] == path && forall n :: n in r ==> n in t
    decreases Deeper(t, Depth(path)), 1
  {
    if t[path].Dir? then [path] + PreOrderAll(t, path, ChildList(t, path)) else [path]
  }

  /** The subtrees of some children of `top`, one after the other. */
  function PreOrderAll(t: Tree, top: string, children: seq<string>): (r: seq<string>)
    requires top in t && "" !in t && forall c :: c in children ==> c in Children(t, top)
    ensures forall n :: n in r ==> n in t
    decreases Deeper(t, Depth(top)), 0, |children|
  {
    if children == [] then []
    else
      assert Last(children) in children;
      ChildIsDeeper(t, top, Last(children));
      PreOrderAll(t, top, Front(children)) + PreOrder(t, Last(children))
  }

  lemma {:induction false} PreOrderMembers(t: Tree, path: string, n: string)
    requires WellFormed(t) && path in t
    ensures n in PreOrder(t, path) <==> n in t && Below(path, n)
    decreases Deeper(t, Depth(path)), 1
  {
    var cs := ChildList(t, path);
    if t[path].Dir? {
      PreOrderAllMembers(t, path, cs, n);
      if n in t && Below(path, n) && n != path {
        ParentClosedIsClosedBelow(t, path);
        var c := BelowSomeChild(t, path, n);
        assert c in cs;
      }
      forall c | c in cs && Below(c, n) ensures Below(path, n) {
        ChildIsDeeper(t, path, c);
        BelowIsTransitive(path, c, n);
      }
    } else if n in t && Below(path, n) && n != path {
      ParentClosedIsClosedBelow(t, path);
      var c := BelowSomeChild(t, path, n);
      ChildIsDeeper(t, path, c);
    }
  }

  lemma {:induction false} PreOrderAllMembers(t: Tree, top: string, children: seq<string>, n: string)
    requires WellFormed(t) && top in t && forall c :: c in children ==> c in Children(t, top)
    ensures n in PreOrderAll(t, top, children) <==> n in t && exists c :: c in children && Below(c, n)
    decreases Deeper(t, Depth(top)), 0, |children|
  {
    if children != [] {
      var last := Last(children);
      assert last in children;
      ChildIsDeeper(t, top, last);
      PreOrderMembers(t, last, n);
      PreOrderAllMembers(t, top, Front(children), n);
      assert children == Front(children) + [last];
    }
  }

  lemma {:induction false} PreOrderDistinct(t: Tree, path: string)
    requires WellFormed(t) && path in t
    ensures Distinct(PreOrder(t, path))
    decreases Deeper(t, Depth(path)), 1
  {
    if t[path].Dir? {
      var cs := ChildList(t, path);
      var below := PreOrderAll(t, path, cs);
      PreOrderAllDistinct(t, path, cs);
      if path in below {
        PreOrderAllMembers(t, path, cs, path);
        var c :| c in cs && Below(c, path);
        ChildIsDeeper(t, path, c);
      }
    }
  }

  lemma {:induction false} PreOrderAllDistinct(t: Tree, top: string, children: seq<string>)
    requires WellFormed(t) && top in t && forall c :: c in children ==> c in Children(t, top)
    requires Distinct(children)
    ensures Distinct(PreOrderAll(t, top, children))
    decreases Deeper(t, Depth(top)), 0, |children|
  {
    if children != [] {
      var last, front := Last(children), Front(children);
      assert last in children && children == front + [last];
      ChildIsDeeper(t, top, last);
      PreOrderDistinct(t, last);
      PreOrderAllDistinct(t, top, front);
      var xs, ys := PreOrderAll(t, top, front), PreOrder(t, last);
      forall i, j | 0 <= i < |xs| && 0 <= j < |ys| ensures xs[i] != ys[j] {
        assert xs[i] in xs && ys[j] in ys;
        PreOrderAllMembers(t, top, front, xs[i]);
        PreOrderMembers(t, last, ys[j]);
        var c :| c in front && Below(c, xs[i]);
        ChildIsDeeper(t, top, c);
        if xs[i] == ys[j] { SubtreesAreDisjoint(c, last, xs[i]); }
      }
    }
  }

  ghost predicate ParentsFirst(path: string, names: seq<string>) {
    forall i :: 0 <= i < |names| && names[i] != path ==> Parent(names[i]) in names[..i]
  }

  lemma {:induction false} PreOrderParentsFirst(t: Tree, path: string)
    requires path in t && "" !in t
    ensures ParentsFirst(path, PreOrder(t, path))
    decreases Deeper(t, Depth(path)), 1
  {
    if t[path].Dir? { PreOrderAllParentsFirst(t, path, ChildList(t, path)); }
  }

  lemma {:induction false} PreOrderAllParentsFirst(t: Tree, top: string, children: seq<string>)
    requires top in t && "" !in t && forall c :: c in children ==> c in Children(t, top)
    ensures ParentsFirst(top, [top] + PreOrderAll(t, top, children))
    decreases Deeper(t, Depth(top)), 0, |children|
  {
    if children != [] {
      var last, front := Last(children), Front(children);
      assert last in children;
      ChildIsDeeper(t, top, last);
      PreOrderParentsFirst(t, last);
      PreOrderAllParentsFirst(t, top, front);
      var xs, ys := [top] + PreOrderAll(t, top, front), PreOrder(t, last);
      assert [top] + PreOrderAll(t, top, children) == xs + ys;
      ParentsFirstConcat(top, xs, last, ys);
    }
  }

  lemma ParentsFirstConcat(top: string, xs: seq<string>, last: string, ys: seq<string>)
    requires ParentsFirst(top, xs) && ParentsFirst(last, ys) && Parent(last) == top
    requires xs != [] && xs[0] == top
    ensures ParentsFirst(top, xs + ys)
  {
    var all := xs + ys;
    forall i | 0 <= i < |all| && all[i] != top ensures Parent(all[i]) in all[..i] {
      if i < |xs| {
        assert all[..i] == xs[..i];
      } else if all[i] == last {
        assert all[..i][0] == top;
      } else {
        assert all[..i] == xs + ys[..i - |xs|];
      }
    }
  }

  // ----- Walking down to a path, one component at a time -----

  lemma {:induction false} JoinGrows(parts: seq<string>, k: nat)
    requires 0 < k < |parts|
    ensures Join(parts[..k + 1], '/') == Join(parts[..k], '/') + "/" + parts[k]
  {
    if k == 1 {
      assert parts[..2][1..] == [parts[1]] && parts[..1] == [parts[0]];
    } else {
      JoinGrows(parts[1..], k - 1);
      assert parts[1..][..k] == parts[..k + 1][1..] && parts[1..][..k - 1] == parts[..k][1..];
    }
  }

  /** Every ancestor of an existing path is an existing directory. */
  lemma {:induction false} AncestorsAreDirs(t: Tree, parts: seq<string>, k: nat)
    requires WellFormed(t) && 0 < k <= |parts| && Join(parts, '/') in t
    requires forall p :: p in parts ==> '/' !in p
    ensures Join(parts[..k], '/') in t
    ensures k < |parts| ==> t[Join(parts[..k], '/')].Dir?
    decreases |parts| - k
  {
    if k == |parts| {
      assert parts[..k] == parts;
    } else {
      AncestorsAreDirs(t, parts, k + 1);
      JoinGrows(parts, k);
      assert parts[k] in parts;
      ParentOfJoin(Join(parts[..k], '/'), parts[k]);
      assert Join(parts[..k + 1], '/')[|Join(parts[..k], '/')|] == '/';
    }
  }

  datatype Walk = Reached(node: Node) | Missing | LinkOnTheWay | NotADirectory

  /** `for part in name.split('/'): path /= part; metadata = regular_metadata(path)` */
  method WalkTo(t: Tree, name: string) returns (r: Walk)
    requires WellFormed(t)
    ensures r.Reached? <==> name in t && !t[name].Link?
    ensures r.Reached? ==> r.node == t[name]
  {
    var parts := Split(name, '/');
    SplitPieces(name, '/');
    var path := "";
    for i := 0 to |parts|
      invariant i > 0 ==> path == Join(parts[..i], '/') && path in t && !t[path].Link?
    {
      if i > 0 { JoinGrows(parts, i); } else { assert parts[..1] == [parts[0]]; }
      path := if i == 0 then parts[0] else path + "/" + parts[i];
      if name in t { AncestorsAreDirs(t, parts, i + 1); }
      assert parts[..|parts|] == parts;
      if path !in t { return Missing; }
      if t[path].Link? { return LinkOnTheWay; }
    }
    assert parts[..|parts|] == parts;
    return Reached(t[path]);
  }
}
