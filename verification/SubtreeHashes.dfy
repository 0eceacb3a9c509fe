/**
 * `identity`, `digest` and `subtree_hashes`: the bottom-up Merkle hash of a path-indexed workspace.
 * The hash is a parameter; it is only ever required to be free of collisions on the pre-images in play.
 */
module SubtreeHashes {
  import opened Ordering
  import opened Paths
  import opened CanonicalJson

  /** One scanned or saved entry: the dictionary itself, so a saved entry may carry any extra keys. */
  type Entry = map<string, Json>

  type Index = map<string, Entry>

  type Hash = string -> string

  function Digest(h: Hash, v: Json): string { h(Print(v)) }

  function Identity(e: Entry): Entry { e - {"mtime_ns"} }

  /** The order of processing: `key=lambda name: (-name.count('/'), name)`. */
  /** Nothing but the time is left out of an identity. */
  lemma IdentityKeepsTheRest(e: Entry, f: Entry)
    ensures Identity(e) == Identity(f) <==>
      forall key :: key != "mtime_ns" ==> ((key in e <==> key in f) && (key in e && key in f ==> e[key] == f[key]))
  {
    if Identity(e) == Identity(f) {
      forall key | key != "mtime_ns" ensures (key in e <==> key in f) && (key in e && key in f ==> e[key] == f[key]) {
        assert key in Identity(e) <==> key in e;
        assert key in Identity(f) <==> key in f;
        if key in e && key in f { assert Identity(e)[key] == e[key] && Identity(f)[key] == f[key]; }
      }
    }
  }

  predicate DeepestFirst(a: string, b: string) {
    Depth(a) > Depth(b) || (Depth(a) == Depth(b) && Leq(a, b))
  }

  lemma DeepestFirstIsLinear()
    ensures LinearOrder(DeepestFirst)
  {
    LeqIsLinear();
  }

  /** Every entry is stored under its own path, which is what makes a list of child hashes name its children. */
  ghost predicate WellIndexed(m: Index) {
    forall n :: n in m ==> "path" in m[n] && m[n]["path"] == Str(n)
  }

  // ----- The specification: a recursive hash over the subtree -----

  function NodeJson(e: Entry, childHashes: seq<string>): Json {
    Arr([Obj(Identity(e)), Arr(Strs(childHashes))])
  }

  function Strs(ss: seq<string>): (r: seq<Json>)
    ensures |r| == |ss| && forall k :: 0 <= k < |r| ==> r[k] == Str(ss[k])
  {
    if ss == [] then [] else [Str(ss[0])] + Strs(ss[1..])
  }

  ghost function SubtreeHash(h: Hash, m: Index, name: string): string
    requires name in m && "" !in m
    decreases Deeper(m, Depth(name)), 1
  {
    h(Preimage(h, m, name))
  }

  ghost function Preimage(h: Hash, m: Index, name: string): string
    requires name in m && "" !in m
    decreases Deeper(m, Depth(name)), 0
  {
    Print(NodeJson(m[name], ChildHashes(h, m, name, ChildList(m, name))))
  }

  ghost function ChildHashes(h: Hash, m: Index, name: string, children: seq<string>): (r: seq<string>)
    requires name in m && "" !in m && forall c :: c in children ==> c in Children(m, name)
    ensures |r| == |children|
    decreases Deeper(m, Depth(name)), 0, |children|
  {
    if children == [] then []
    else
      ChildIsDeeper(m, name, children[0]);
      [SubtreeHash(h, m, children[0])] + ChildHashes(h, m, name, children[1..])
  }

  lemma {:induction false} ChildHashAt(h: Hash, m: Index, name: string, children: seq<string>, k: nat)
    requires name in m && "" !in m && forall c :: c in children ==> c in Children(m, name)
    requires k < |children|
    ensures children[k] in m
    ensures ChildHashes(h, m, name, children)[k] == SubtreeHash(h, m, children[k])
  {
    assert children[k] in children;
    if k > 0 {
      ChildHashAt(h, m, name, children[1..], k - 1);
      assert children[1..][k - 1] == children[k];
    }
  }

  // ----- What a hash decides -----

  /** The entries agree at a name, on everything but the modification time. */
  ghost predicate Agree(a: Index, b: Index, name: string) {
    (name in a <==> name in b) && (name in a ==> Identity(a[name]) == Identity(b[name]))
  }

  /** The full comparison of two subtrees. */
  ghost predicate SameBelow(a: Index, b: Index, top: string) {
    forall n :: Below(top, n) ==> Agree(a, b, n)
  }

  ghost predicate Hashable(m: Index) {
    "" !in m && WellIndexed(m)
  }

  ghost function Preimages(h: Hash, m: Index): set<string>
    requires "" !in m
  {
    set n | n in m :: Preimage(h, m, n)
  }

  ghost predicate CollisionFree(h: Hash, texts: set<string>) {
    forall x, y :: x in texts && y in texts && h(x) == h(y) ==> x == y
  }

  lemma {:induction false} StrsInjective(p: seq<string>, q: seq<string>)
    requires Strs(p) == Strs(q)
    ensures p == q
  {
    assert |p| == |q|;
    forall k | 0 <= k < |p| ensures p[k] == q[k] {
      assert Strs(p)[k] == Str(p[k]) && Strs(q)[k] == Str(q[k]);
    }
  }

  lemma NodeJsonInjective(e: Entry, p: seq<string>, f: Entry, q: seq<string>)
    requires Print(NodeJson(e, p)) == Print(NodeJson(f, q))
    ensures Identity(e) == Identity(f) && p == q
  {
    var v, w := NodeJson(e, p), NodeJson(f, q);
    PrintIsInjective(v, w);
    assert v.items[0] == w.items[0] && v.items[1] == w.items[1];
    StrsInjective(p, q);
  }

  lemma EqualPreimages(h: Hash, a: Index, x: string, b: Index, y: string)
    requires "" !in a && "" !in b && x in a && y in b
    requires CollisionFree(h, Preimages(h, a) + Preimages(h, b))
    requires SubtreeHash(h, a, x) == SubtreeHash(h, b, y)
    ensures Preimage(h, a, x) == Preimage(h, b, y)
  {
    var p, q := Preimage(h, a, x), Preimage(h, b, y);
    assert p in Preimages(h, a) && q in Preimages(h, b);
    assert h(p) == h(q);
  }

  lemma EqualNodes(h: Hash, a: Index, x: string, b: Index, y: string)
    requires "" !in a && "" !in b && x in a && y in b
    requires Preimage(h, a, x) == Preimage(h, b, y)
    ensures Identity(a[x]) == Identity(b[y])
    ensures ChildHashes(h, a, x, ChildList(a, x)) == ChildHashes(h, b, y, ChildList(b, y))
  {
    var p, q := ChildHashes(h, a, x, ChildList(a, x)), ChildHashes(h, b, y, ChildList(b, y));
    NodeJsonInjective(a[x], p, b[y], q);
  }

  /** Equal hashes give equal identities, hence equal names, and equal lists of child hashes. */
  lemma EqualHashes(h: Hash, a: Index, x: string, b: Index, y: string)
    requires Hashable(a) && Hashable(b) && x in a && y in b
    requires CollisionFree(h, Preimages(h, a) + Preimages(h, b))
    requires SubtreeHash(h, a, x) == SubtreeHash(h, b, y)
    ensures x == y && Identity(a[x]) == Identity(b[y])
    ensures ChildHashes(h, a, x, ChildList(a, x)) == ChildHashes(h, b, y, ChildList(b, y))
  {
    EqualPreimages(h, a, x, b, y);
    EqualNodes(h, a, x, b, y);
    EqualIdentities(a, x, b, y);
  }

  lemma EqualIdentities(a: Index, x: string, b: Index, y: string)
    requires WellIndexed(a) && WellIndexed(b) && x in a && y in b
    requires Identity(a[x]) == Identity(b[y])
    ensures x == y
  {
    assert Identity(a[x])["path"] == Str(x) && Identity(b[y])["path"] == Str(y);
  }

  lemma SameChildAt(h: Hash, a: Index, b: Index, top: string, ca: seq<string>, cb: seq<string>, k: nat)
    requires Hashable(a) && Hashable(b) && top in a && top in b
    requires CollisionFree(h, Preimages(h, a) + Preimages(h, b))
    requires (forall c :: c in ca ==> c in Children(a, top)) && (forall c :: c in cb ==> c in Children(b, top))
    requires ChildHashes(h, a, top, ca) == ChildHashes(h, b, top, cb) && k < |ca| == |cb|
    ensures ca[k] == cb[k] && ca[k] in a && ca[k] in b
    ensures SubtreeHash(h, a, ca[k]) == SubtreeHash(h, b, ca[k])
  {
    ChildHashAt(h, a, top, ca, k);
    ChildHashAt(h, b, top, cb, k);
    EqualHashes(h, a, ca[k], b, cb[k]);
  }

  /** Two lists of children with equal lists of hashes are the same list. */
  lemma SameLists(h: Hash, a: Index, b: Index, top: string, ca: seq<string>, cb: seq<string>)
    requires Hashable(a) && Hashable(b) && top in a && top in b
    requires CollisionFree(h, Preimages(h, a) + Preimages(h, b))
    requires (forall c :: c in ca ==> c in Children(a, top)) && (forall c :: c in cb ==> c in Children(b, top))
    requires ChildHashes(h, a, top, ca) == ChildHashes(h, b, top, cb)
    ensures ca == cb
    ensures forall c :: c in ca ==> c in a && c in b && SubtreeHash(h, a, c) == SubtreeHash(h, b, c)
  {
    assert |ca| == |ChildHashes(h, a, top, ca)| == |cb|;
    forall k | 0 <= k < |ca|
      ensures ca[k] == cb[k] && ca[k] in a && ca[k] in b && SubtreeHash(h, a, ca[k]) == SubtreeHash(h, b, ca[k])
    {
      SameChildAt(h, a, b, top, ca, cb, k);
    }
  }

  /** Subtrees with equal hashes have the same children, with equal hashes again. */
  lemma SameChildren(h: Hash, a: Index, b: Index, top: string)
    requires Hashable(a) && Hashable(b) && top in a && top in b
    requires CollisionFree(h, Preimages(h, a) + Preimages(h, b))
    requires SubtreeHash(h, a, top) == SubtreeHash(h, b, top)
    ensures Children(a, top) == Children(b, top)
    ensures forall c :: c in Children(a, top) ==> SubtreeHash(h, a, c) == SubtreeHash(h, b, c)
  {
    EqualHashes(h, a, top, b, top);
    var ca, cb := ChildList(a, top), ChildList(b, top);
    SameLists(h, a, b, top, ca, cb);
    SameMembers(ca, Children(a, top), cb, Children(b, top));
  }

  lemma SameMembers(xs: seq<string>, s: set<string>, ys: seq<string>, t: set<string>)
    requires (forall x :: x in xs <==> x in s) && (forall y :: y in ys <==> y in t) && xs == ys
    ensures s == t
  {
  }

  lemma {:induction false} HashesDecideForward(h: Hash, a: Index, b: Index, top: string)
    requires Hashable(a) && Hashable(b) && top in a && top in b
    requires CollisionFree(h, Preimages(h, a) + Preimages(h, b))
    requires ClosedBelow(a, top) && ClosedBelow(b, top)
    requires SubtreeHash(h, a, top) == SubtreeHash(h, b, top)
    ensures SameBelow(a, b, top)
    decreases Deeper(a, Depth(top))
  {
    EqualHashes(h, a, top, b, top);
    SameChildren(h, a, b, top);
    forall n | Below(top, n) ensures Agree(a, b, n) {
      if n != top && (n in a || n in b) {
        var c;
        if n in a { c := BelowSomeChild(a, top, n); } else { c := BelowSomeChild(b, top, n); }
        ChildIsDeeper(a, top, c);
        ClosedBelowChild(a, top, c);
        ClosedBelowChild(b, top, c);
        HashesDecideForward(h, a, b, c);
      }
    }
  }

  lemma {:induction false} HashesDecideBackward(h: Hash, a: Index, b: Index, top: string)
    requires "" !in a && "" !in b && top in a && top in b
    requires SameBelow(a, b, top)
    ensures SubtreeHash(h, a, top) == SubtreeHash(h, b, top)
    decreases Deeper(a, Depth(top))
  {
    assert Agree(a, b, top);
    assert Children(a, top) == Children(b, top) by {
      forall n ensures n in Children(a, top) <==> n in Children(b, top) {
        if n in Children(a, top) { ChildIsDeeper(a, top, n); }
        if n in Children(b, top) { ChildIsDeeper(b, top, n); }
      }
    }
    var cs := ChildList(a, top);
    forall k | 0 <= k < |cs|
      ensures ChildHashes(h, a, top, cs)[k] == ChildHashes(h, b, top, cs)[k]
    {
      ChildHashAt(h, a, top, cs, k);
      ChildHashAt(h, b, top, cs, k);
      ChildIsDeeper(a, top, cs[k]);
      forall n | Below(cs[k], n) ensures Agree(a, b, n) { BelowIsTransitive(top, cs[k], n); }
      HashesDecideBackward(h, a, b, cs[k]);
    }
    assert ChildHashes(h, a, top, cs) == ChildHashes(h, b, top, cs);
  }

  /** The fast comparison decides exactly what the full comparison of the two subtrees would. */
  lemma HashesDecide(h: Hash, a: Index, b: Index, top: string)
    requires Hashable(a) && Hashable(b) && top in a && top in b
    requires ClosedBelow(a, top) && ClosedBelow(b, top)
    requires CollisionFree(h, Preimages(h, a) + Preimages(h, b))
    ensures SubtreeHash(h, a, top) == SubtreeHash(h, b, top) <==> SameBelow(a, b, top)
  {
    if SubtreeHash(h, a, top) == SubtreeHash(h, b, top) {
      HashesDecideForward(h, a, b, top);
    } else if SameBelow(a, b, top) {
      HashesDecideBackward(h, a, b, top);
    }
  }

  // ----- The loops of `subtree_hashes` -----

  datatype Lookup = Hashes(hashes: map<string, string>) | KeyError(missing: string)

  ghost predicate Grouped(entries: Index, children: map<string, seq<string>>) {
    && (forall p, c :: p in children && c in children[p] ==> c in Children(entries, p))
    && (forall c :: c in entries ==> Parent(c) in children && c in children[Parent(c)])
    && (forall p :: p in children ==> Distinct(children[p]))
  }

  /** `children.setdefault(name.rpartition('/')[0], []).append(name)` over all names. */
  method GroupByParent(entries: Index, names: seq<string>) returns (children: map<string, seq<string>>)
    requires Distinct(names) && forall n :: n in names <==> n in entries
    ensures Grouped(entries, children)
  {
    children := map[];
    for i := 0 to |names|
      invariant forall p, c :: p in children && c in children[p] ==> c in names[..i] && Parent(c) == p
      invariant forall c :: c in names[..i] ==> Parent(c) in children && c in children[Parent(c)]
      invariant forall p :: p in children ==> Distinct(children[p])
    {
      var p := Parent(names[i]);
      assert names[i] !in names[..i];
      children := children[p := (if p in children then children[p] else []) + [names[i]]];
      assert names[..i + 1] == names[..i] + [names[i]];
    }
    assert names[..|names|] == names;
  }

  /** `[hashes[child] for child in kids]`, which raises on the first child without a hash. */
  method LookUp(hashes: map<string, string>, kids: seq<string>) returns (r: seq<string>, missing: set<string>)
    ensures missing == {} <==> forall c :: c in kids ==> c in hashes
    ensures forall c :: c in missing ==> c in kids && c !in hashes
    ensures missing == {} ==> |r| == |kids| && forall k :: 0 <= k < |r| ==> r[k] == hashes[kids[k]]
  {
    r := [];
    for j := 0 to |kids|
      invariant |r| == j && forall k :: 0 <= k < j ==> kids[k] in hashes && r[k] == hashes[kids[k]]
    {
      if kids[j] !in hashes {
        assert kids[j] in kids;
        return r, {kids[j]};
      }
      r := r + [hashes[kids[j]]];
    }
    missing := {};
  }

  ghost predicate Correct(h: Hash, entries: Index, hashes: map<string, string>)
    requires "" !in entries
  {
    forall n :: n in hashes ==> n in entries && hashes[n] == SubtreeHash(h, entries, n)
  }

  method HashOne(h: Hash, entries: Index, children: map<string, seq<string>>, hashes: map<string, string>, name: string)
    returns (digest: string, missing: set<string>)
    requires name in entries && Grouped(entries, children)
    requires "" !in entries ==> Correct(h, entries, hashes) && forall c :: c in Children(entries, name) ==> c in hashes
    ensures missing == {} <==> forall c :: c in Children(entries, name) ==> c in hashes
    ensures "" !in entries ==> missing == {} && digest == SubtreeHash(h, entries, name)
  {
    var unsorted := if name in children then children[name] else [];
    var kids := Sort(Leq, unsorted);
    KidsInOrder(entries, name, unsorted);
    var kidHashes;
    kidHashes, missing := LookUp(hashes, kids);
    digest := Digest(h, NodeJson(entries[name], kidHashes));
    if "" !in entries { SameKidHashes(h, entries, name, kids, kidHashes); }
  }

  /**
   * Never looks up an unset child, unless the empty name is an entry: that name is its own parent.
   * The result is the recursive specification at every name.
   */
  method ComputeHashes(h: Hash, entries: Index) returns (r: Lookup)
    ensures r.Hashes? <==> "" !in entries
    ensures r.Hashes? ==> r.hashes.Keys == entries.Keys
    ensures r.Hashes? ==> forall n :: n in entries ==> r.hashes[n] == SubtreeHash(h, entries, n)
  {
    var names := KeyList(entries);
    var children := GroupByParent(entries, names);
    var order := Sort(DeepestFirst, names);
    SortedDeepestFirst(entries, names);
    var hashes: map<string, string> := map[];
    for i := 0 to |order|
      invariant Done(order, i, hashes)
      invariant hashes.Keys <= entries.Keys && "" !in hashes
      invariant "" !in entries ==> Correct(h, entries, hashes)
    {
      var name := order[i];
      assert name in order;
      if "" !in entries { KidsComeFirst(entries, order, i, hashes); }
      var digest, missing := HashOne(h, entries, children, hashes, name);
      if missing != {} {
        var m :| m in missing;
        return KeyError(m);
      }
      assert name != "" by { EmptyIsItsOwnChild(entries); }
      DoneNext(order, i, hashes, digest);
      hashes := hashes[name := digest];
    }
    AllDone(order, entries, hashes);
    return Hashes(hashes);
  }

  lemma AllDone(order: seq<string>, entries: Index, hashes: map<string, string>)
    requires Done(order, |order|, hashes) && hashes.Keys <= entries.Keys && forall n :: n in order <==> n in entries
    ensures hashes.Keys == entries.Keys
  {
    forall n | n in entries ensures n in hashes { assert n in order; }
  }

  ghost predicate Done(order: seq<string>, i: nat, hashes: map<string, string>) {
    i <= |order| && forall k :: 0 <= k < i ==> order[k] in hashes
  }

  lemma DoneNext(order: seq<string>, i: nat, hashes: map<string, string>, digest: string)
    requires i < |order| && Done(order, i, hashes)
    ensures Done(order, i + 1, hashes[order[i] := digest])
  {
  }

  lemma EmptyIsItsOwnChild(m: Index)
    ensures "" in m ==> "" in Children(m, "")
  {
  }

  /** No child of a name stands at or after the name's own position. */
  ghost predicate KidsPrecede(m: Index, order: seq<string>) {
    forall i, k :: 0 <= i <= k < |order| ==> order[k] !in Children(m, order[i])
  }

  lemma SortedDeepestFirst(entries: Index, names: seq<string>)
    requires Distinct(names) && forall n :: n in names <==> n in entries
    ensures "" !in entries ==> KidsPrecede(entries, Sort(DeepestFirst, names))
    ensures forall n :: n in Sort(DeepestFirst, names) <==> n in entries
  {
    DeepestFirstIsLinear();
    SortOfKeys(DeepestFirst, names, entries.Keys);
    var order := Sort(DeepestFirst, names);
    if "" !in entries {
      forall i, k | 0 <= i <= k < |order| ensures order[k] !in Children(entries, order[i]) {
        assert i < k ==> DeepestFirst(order[i], order[k]);
        assert order[i] in order;
        if order[k] in Children(entries, order[i]) { ChildIsDeeper(entries, order[i], order[k]); }
      }
    }
  }

  lemma KidsInOrder(m: Index, name: string, kids: seq<string>)
    requires Distinct(kids) && forall c :: c in kids <==> c in Children(m, name)
    ensures Sort(Leq, kids) == ChildList(m, name)
  {
    LeqIsLinear();
    SortOfKeys(Leq, kids, Children(m, name));
  }

  /** Every child was given its hash before its parent asks for it. */
  lemma KidsComeFirst(m: Index, order: seq<string>, i: nat, hashes: map<string, string>)
    requires KidsPrecede(m, order) && i < |order|
    requires forall n :: n in order <==> n in m
    requires forall k :: 0 <= k < i ==> order[k] in hashes
    ensures forall c :: c in Children(m, order[i]) ==> c in hashes
  {
    forall c | c in Children(m, order[i]) ensures c in hashes {
      var j :| 0 <= j < |order| && order[j] == c;
    }
  }

  lemma SameKidHashes(h: Hash, m: Index, name: string, kids: seq<string>, kidHashes: seq<string>)
    requires name in m && "" !in m && kids == ChildList(m, name) && |kidHashes| == |kids|
    requires forall k :: 0 <= k < |kids| ==> kids[k] in m && kidHashes[k] == SubtreeHash(h, m, kids[k])
    ensures Digest(h, NodeJson(m[name], kidHashes)) == SubtreeHash(h, m, name)
  {
    forall k | 0 <= k < |kids| ensures kidHashes[k] == ChildHashes(h, m, name, kids)[k] {
      ChildHashAt(h, m, name, kids, k);
    }
    assert kidHashes == ChildHashes(h, m, name, kids);
  }
}
