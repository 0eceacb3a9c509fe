/** Slash-separated path names: parents, depth, and the subtree below a name. */
module Paths {
  import opened Ordering

  /** Python's order on `str`: by code point, a prefix first. */
  predicate Leq(a: string, b: string) {
    if a == [] then true
    else if b == [] then false
    else if a[0] != b[0] then a[0] < b[0]
    else Leq(a[1..], b[1..])
  }

  lemma {:induction false} LeqTotal(a: string, b: string)
    ensures Leq(a, b) || Leq(b, a)
    ensures Leq(a, b) && Leq(b, a) ==> a == b
  {
    if a != [] && b != [] && a[0] == b[0] {
      LeqTotal(a[1..], b[1..]);
      assert a == [a[0]] + a[1..] && b == [b[0]] + b[1..];
    }
  }

  lemma {:induction false} LeqTransitive(a: string, b: string, c: string)
    requires Leq(a, b) && Leq(b, c)
    ensures Leq(a, c)
  {
    if a != [] && b != [] && c != [] && a[0] == b[0] == c[0] {
      LeqTransitive(a[1..], b[1..], c[1..]);
    }
  }

  lemma LeqIsLinear()
    ensures LinearOrder(Leq)
  {
    forall a, b ensures Leq(a, b) || Leq(b, a) { LeqTotal(a, b); }
    forall a, b | Leq(a, b) && Leq(b, a) ensures a == b { LeqTotal(a, b); }
    forall a, b, c | Leq(a, b) && Leq(b, c) ensures Leq(a, c) { LeqTransitive(a, b, c); }
  }

  /** `name.rpartition('/')[0]` */
  function Parent(name: string): string {
    if name == [] then []
    else if name[|name| - 1] == '/' then name[..|name| - 1]
    else Parent(name[..|name| - 1])
  }

  /** `name.count('/')` */
  function Depth(name: string): nat {
    if name == [] then 0
    else (if name[|name| - 1] == '/' then 1 else 0) + Depth(name[..|name| - 1])
  }

  /** `top` itself, or a name inside the directory `top`. */
  predicate Below(top: string, name: string) {
    name == top || top + "/" <= name
  }

  lemma {:induction false} ParentFacts(name: string)
    ensures |Parent(name)| <= |name|
    ensures '/' !in name ==> Parent(name) == [] && Depth(name) == 0
    ensures '/' in name ==> Parent(name) + "/" <= name && Depth(name) == Depth(Parent(name)) + 1
  {
    if name != [] {
      var front := name[..|name| - 1];
      assert name == front + [name[|name| - 1]];
      if name[|name| - 1] != '/' {
        ParentFacts(front);
      }
    }
  }

  lemma {:induction false} ParentOfJoin(top: string, rest: string)
    ensures Parent(top + "/" + rest) == if '/' in rest then top + "/" + Parent(rest) else top
  {
    var name := top + "/" + rest;
    if rest == [] {
      assert name[..|name| - 1] == top;
    } else {
      var front := rest[..|rest| - 1];
      assert rest == front + [rest[|rest| - 1]];
      assert name[..|name| - 1] == top + "/" + front;
      if rest[|rest| - 1] != '/' {
        ParentOfJoin(top, front);
      }
    }
  }

  /** A name strictly inside `top` has its parent at or inside `top`. */
  lemma ParentStaysBelow(top: string, name: string)
    requires Below(top, name) && name != top
    ensures '/' in name && Below(top, Parent(name)) && |Parent(name)| < |name|
  {
    var rest := name[|top| + 1..];
    assert name == top + "/" + rest;
    assert name[|top|] == '/';
    ParentOfJoin(top, rest);
    ParentFacts(name);
    if '/' in rest {
      assert top + "/" <= top + "/" + Parent(rest);
    }
  }

  lemma BelowParent(name: string)
    requires '/' in name
    ensures Below(Parent(name), name)
  {
    ParentFacts(name);
  }

  lemma BelowIsTransitive(a: string, b: string, c: string)
    requires Below(a, b) && Below(b, c)
    ensures Below(a, c)
  {
    if a != b && b != c {
      assert c[..|b| + 1] == b + "/" && b[..|a| + 1] == a + "/";
      assert c[..|a| + 1] == a + "/";
    }
  }

  ghost predicate ParentClosed<V>(m: map<string, V>) {
    forall n :: n in m && '/' in n ==> Parent(n) in m
  }

  /** Every name strictly inside `top` has its parent in `m`. */
  ghost predicate ClosedBelow<V>(m: map<string, V>, top: string) {
    forall n :: n in m && n != top && Below(top, n) ==> Parent(n) in m
  }

  lemma ParentClosedIsClosedBelow<V>(m: map<string, V>, top: string)
    requires ParentClosed(m)
    ensures ClosedBelow(m, top)
  {
    forall n | n in m && n != top && Below(top, n) ensures Parent(n) in m { ParentStaysBelow(top, n); }
  }

  /** The names of `m` directly inside `top`. */
  function Children<V>(m: map<string, V>, top: string): set<string> {
    set n | n in m && Parent(n) == top
  }

  /** The names of `m` strictly deeper than `d`: what shrinks on the way down. */
  ghost function Deeper<V>(m: map<string, V>, d: nat): set<string> {
    set n | n in m && Depth(n) > d
  }

  lemma ChildIsDeeper<V>(m: map<string, V>, top: string, child: string)
    requires top != "" && child in Children(m, top)
    ensures '/' in child && Depth(child) == Depth(top) + 1 && Below(top, child)
    ensures Deeper(m, Depth(child)) < Deeper(m, Depth(top))
  {
    ParentFacts(child);
    BelowParent(child);
    assert child in Deeper(m, Depth(top)) && child !in Deeper(m, Depth(child));
  }

  lemma ClosedBelowChild<V>(m: map<string, V>, top: string, child: string)
    requires ClosedBelow(m, top) && Below(top, child)
    ensures ClosedBelow(m, child)
  {
    forall n | n in m && n != child && Below(child, n) ensures Parent(n) in m {
      BelowIsTransitive(top, child, n);
      assert n != top by { assert |n| > |child| >= |top|; }
    }
  }

  /** Every name strictly below `top` in a closed map lies at or below a child of `top`. */
  lemma {:induction false} BelowSomeChild<V>(m: map<string, V>, top: string, name: string) returns (child: string)
    requires ClosedBelow(m, top) && name in m && Below(top, name) && name != top
    ensures child in Children(m, top) && Below(child, name)
    decreases |name|
  {
    ParentStaysBelow(top, name);
    if Parent(name) == top {
      child := name;
    } else {
      child := BelowSomeChild(m, top, Parent(name));
      BelowParent(name);
      BelowIsTransitive(child, Parent(name), name);
    }
  }

  /** The children of `top`, as Python's `sorted` lists them. */
  function ChildList<V>(m: map<string, V>, top: string): (r: seq<string>)
    ensures forall c :: c in r <==> c in Children(m, top)
    ensures Distinct(r) && |r| == |Children(m, top)|
  {
    LeqIsLinear();
    InOrder(Leq, Children(m, top))
  }

  lemma {:induction false} DepthOfConcat(a: string, b: string)
    ensures Depth(a + b) == Depth(a) + Depth(b)
  {
    if b == [] {
      assert a + b == a;
    } else {
      assert (a + b)[..|a + b| - 1] == a + b[..|b| - 1];
      DepthOfConcat(a, b[..|b| - 1]);
    }
  }

  /** The subtrees of two different names of equal depth have nothing in common. */
  lemma SubtreesAreDisjoint(a: string, b: string, name: string)
    requires Depth(a) == Depth(b) && Below(a, name) && Below(b, name)
    ensures a == b
  {
    if |a| == |b| {
      assert a == name[..|a|] && b == name[..|b|];
    } else {
      var s, l := if |a| < |b| then a else b, if |a| < |b| then b else a;
      assert s + "/" <= l by { assert name[..|l|] == l && name[..|s| + 1] == s + "/"; }
      PrefixIsShallower(s, l);
    }
  }

  lemma PrefixIsShallower(s: string, l: string)
    requires s + "/" <= l
    ensures Depth(s) < Depth(l)
  {
    assert l == (s + "/") + l[|s| + 1..];
    DepthOfConcat(s + "/", l[|s| + 1..]);
    DepthOfConcat(s, "/");
  }
}
