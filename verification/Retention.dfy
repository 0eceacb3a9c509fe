/** scripts/cargo-cache-retention.py: which caches of the main branch may be deleted, and the interruptible deletion. */
module Retention {
  import opened Ordering
  import opened Splitting

  /** What the three key patterns tell apart; their prefixes differ, so a key matches at most one. */
  datatype Key =
    | BuildKey(version: nat, arch: string, profile: string)
    | DownloadKey(version: nat, arch: string)
    | LegacyKey
    | OtherKey

  datatype Cache = Cache(id: nat, onMain: bool, key: Key, createdAt: int, size: nat)

  /** `tuple(match.groups()[1:])`, for builds and for downloads. */
  datatype Group = BuildGroup(arch: string, profile: string) | DownloadGroup(arch: string)

  predicate Grouped(c: Cache) {
    c.onMain && (c.key.BuildKey? || c.key.DownloadKey?)
  }

  function GroupOf(c: Cache): Group
    requires Grouped(c)
  {
    match c.key
    case BuildKey(_, arch, profile) => BuildGroup(arch, profile)
    case DownloadKey(_, arch) => DownloadGroup(arch)
  }

  predicate InGroup(c: Cache, g: Group) { Grouped(c) && GroupOf(c) == g }

  predicate IsV3(c: Cache) { (c.key.BuildKey? || c.key.DownloadKey?) && c.key.version == 3 }

  /** How many v3 caches of a group are protected. */
  function Quota(g: Group): nat { if g.BuildGroup? then 2 else 1 }

  predicate NewestFirst(a: Cache, b: Cache) { a.createdAt >= b.createdAt }

  predicate OldestFirst(a: Cache, b: Cache) { a.createdAt <= b.createdAt }

  function Filter(keep: Cache -> bool, xs: seq<Cache>): (r: seq<Cache>)
    ensures |r| <= |xs|
  {
    if xs == [] then []
    else if keep(xs[0]) then [xs[0]] + Filter(keep, xs[1..])
    else Filter(keep, xs[1..])
  }

  lemma {:induction false} FilterMembers(keep: Cache -> bool, xs: seq<Cache>)
    ensures forall x :: x in Filter(keep, xs) <==> x in xs && keep(x)
  {
    if xs != [] { FilterMembers(keep, xs[1..]); }
  }

  lemma FilterCons(keep: Cache -> bool, x: Cache, xs: seq<Cache>)
    ensures Filter(keep, [x] + xs) == if keep(x) then [x] + Filter(keep, xs) else Filter(keep, xs)
  {
    assert ([x] + xs)[1..] == xs;
  }

  function V3InGroup(g: Group): Cache -> bool { c => InGroup(c, g) && IsV3(c) }

  /** `sorted(v3 of the group, key=created_at, reverse=True)`; ties keep the listing order. */
  function Current(caches: seq<Cache>, g: Group): seq<Cache> {
    Sort(NewestFirst, Filter(V3InGroup(g), caches))
  }

  function Protected(caches: seq<Cache>, g: Group): seq<Cache> {
    var current := Current(caches, g);
    if |current| <= Quota(g) then current else current[..Quota(g)]
  }

  predicate HasReleaseV3(caches: seq<Cache>) {
    exists c :: c in caches && c.onMain && c.key.BuildKey? && c.key.profile == "release-check" && c.key.version == 3
  }

  ghost predicate DistinctIds(caches: seq<Cache>) {
    forall i, j :: 0 <= i < j < |caches| ==> caches[i].id != caches[j].id
  }

  /** The plan, cache by cache. */
  ghost predicate Removable(caches: seq<Cache>, c: Cache) {
    && c in caches && c.onMain
    && if Grouped(c) then Current(caches, GroupOf(c)) != [] && c !in Protected(caches, GroupOf(c))
       else c.key.LegacyKey? && HasReleaseV3(caches)
  }

  // ----- What is kept -----

  lemma NewestFirstIsWeak()
    ensures WeakOrder(NewestFirst)
  {
  }

  lemma {:induction false} FilterDistinct(keep: Cache -> bool, xs: seq<Cache>)
    requires Distinct(xs)
    ensures Distinct(Filter(keep, xs))
  {
    if xs != [] {
      FilterDistinct(keep, xs[1..]);
      FilterMembers(keep, xs[1..]);
      TailMembers(xs, xs[0]);
    }
  }

  lemma DistinctFromIds(caches: seq<Cache>)
    requires DistinctIds(caches)
    ensures Distinct(caches)
  {
  }

  lemma CurrentFacts(caches: seq<Cache>, g: Group)
    requires DistinctIds(caches)
    ensures Distinct(Current(caches, g)) && SortedBy(NewestFirst, Current(caches, g))
    ensures forall c :: c in Current(caches, g) <==> c in caches && InGroup(c, g) && IsV3(c)
  {
    var xs := Filter(V3InGroup(g), caches);
    DistinctFromIds(caches);
    FilterDistinct(V3InGroup(g), caches);
    FilterMembers(V3InGroup(g), caches);
    SortIsPermutation(NewestFirst, xs);
    NewestFirstIsWeak();
    SortSorts(NewestFirst, xs);
    DistinctFromMultiset(xs, Sort(NewestFirst, xs));
  }

  ghost function KeptV3(caches: seq<Cache>, g: Group): set<Cache> {
    set c | c in caches && InGroup(c, g) && IsV3(c) && !Removable(caches, c)
  }

  ghost function AllV3(caches: seq<Cache>, g: Group): set<Cache> {
    set c | c in caches && InGroup(c, g) && IsV3(c)
  }

  lemma ProtectedIsKept(caches: seq<Cache>, g: Group)
    requires DistinctIds(caches)
    ensures forall c :: c in Protected(caches, g) <==> c in KeptV3(caches, g)
  {
    CurrentFacts(caches, g);
    forall c ensures c in Protected(caches, g) <==> c in KeptV3(caches, g) {
      if c in Current(caches, g) { assert GroupOf(c) == g; }
    }
  }

  // ----- Exactly what is planned -----

  /** Builds of one architecture and profile, or downloads of one architecture, on main. */
  predicate SameKind(d: Cache, c: Cache) {
    d.onMain && c.onMain
    && match (d.key, c.key)
       case (BuildKey(_, a, p), BuildKey(_, b, q)) => a == b && p == q
       case (DownloadKey(_, a), DownloadKey(_, b)) => a == b
       case _ => false
  }

  /** Newer, or of the same age and listed earlier. */
  ghost predicate Outranks(caches: seq<Cache>, d: Cache, c: Cache) {
    d.createdAt > c.createdAt || (d.createdAt == c.createdAt && Precedes(caches, d, c))
  }

  /** The v3 caches of its kind that outrank a cache. */
  ghost function Better(caches: seq<Cache>, c: Cache): set<Cache> {
    set d | d in caches && SameKind(d, c) && IsV3(d) && Outranks(caches, d, c)
  }

  ghost predicate HasV3(caches: seq<Cache>, c: Cache) {
    exists d :: d in caches && SameKind(d, c) && IsV3(d)
  }

  /** A v3 build of the release check, on main. */
  predicate IsReleaseCheck(d: Cache) {
    d.onMain && d.key.BuildKey? && d.key.version == 3 && d.key.profile == "release-check"
  }

  /** The rule for one cache: two v3 builds and one v3 download of a kind are kept, the best ranked ones. */
  ghost predicate Due(caches: seq<Cache>, c: Cache) {
    match c.key
    case BuildKey(version, _, _) => HasV3(caches, c) && (version != 3 || |Better(caches, c)| >= 2)
    case DownloadKey(version, _) => HasV3(caches, c) && (version != 3 || |Better(caches, c)| >= 1)
    case LegacyKey => exists d :: d in caches && IsReleaseCheck(d)
    case OtherKey => false
  }

  /** Exactly these caches are planned. */
  lemma PlannedExactly(caches: seq<Cache>, c: Cache)
    requires DistinctIds(caches)
    ensures Removable(caches, c) <==> c in caches && c.onMain && Due(caches, c)
  {
    if c in caches && Grouped(c) {
      var g := GroupOf(c);
      CurrentFacts(caches, g);
      forall d ensures InGroup(d, g) <==> SameKind(d, c) { SameGroup(d, c); }
      if Current(caches, g) != [] { assert Current(caches, g)[0] in Current(caches, g); }
      if HasV3(caches, c) { assert Current(caches, g) != []; }
      if IsV3(c) { RankDecides(caches, c); }
    }
  }

  lemma SameGroup(d: Cache, c: Cache)
    requires Grouped(c)
    ensures InGroup(d, GroupOf(c)) <==> SameKind(d, c)
  {
  }

  lemma {:induction false} FilterPrecedes(keep: Cache -> bool, xs: seq<Cache>, d: Cache, c: Cache)
    requires Precedes(Filter(keep, xs), d, c)
    ensures Precedes(xs, d, c)
  {
    var kept := Filter(keep, xs);
    var i, j :| 0 <= i < j < |kept| && kept[i] == d && kept[j] == c;
    if keep(xs[0]) && i == 0 {
      assert c in kept[1..] by { assert kept[1..][j - 1] == c; }
      FilterMembers(keep, xs[1..]);
      FirstPrecedes(xs, c);
    } else {
      var rest := Filter(keep, xs[1..]);
      var shift := if keep(xs[0]) then 1 else 0;
      assert rest[i - shift] == d && rest[j - shift] == c;
      FilterPrecedes(keep, xs[1..], d, c);
      PrecedesLater(xs, d, c);
    }
  }

  lemma NotBoth(xs: seq<Cache>, d: Cache, c: Cache)
    requires Distinct(xs) && Precedes(xs, d, c)
    ensures !Precedes(xs, c, d)
  {
  }

  /** The place of a v3 cache in the order of its group is the number of those that outrank it. */
  lemma RankDecides(caches: seq<Cache>, c: Cache)
    requires DistinctIds(caches) && c in caches && Grouped(c) && IsV3(c)
    ensures c !in Protected(caches, GroupOf(c)) <==> |Better(caches, c)| >= Quota(GroupOf(c))
  {
    var g := GroupOf(c);
    var current := Current(caches, g);
    CurrentFacts(caches, g);
    DistinctFromIds(caches);
    var p :| 0 <= p < |current| && current[p] == c;
    forall d ensures d in current[..p] <==> d in Better(caches, c) { RankAt(caches, c, p, d); }
    DistinctSize(current[..p], Better(caches, c));
    if c in Protected(caches, g) {
      var i :| 0 <= i < |Protected(caches, g)| && Protected(caches, g)[i] == c;
      assert current[i] == c;
    }
    if p < Quota(g) { assert Protected(caches, g)[p] == c; }
  }

  lemma RankAt(caches: seq<Cache>, c: Cache, p: nat, d: Cache)
    requires DistinctIds(caches) && c in caches && Grouped(c) && IsV3(c)
    requires p < |Current(caches, GroupOf(c))| && Current(caches, GroupOf(c))[p] == c
    ensures d in Current(caches, GroupOf(c))[..p] <==> d in Better(caches, c)
  {
    var g := GroupOf(c);
    var current, xs := Current(caches, g), Filter(V3InGroup(g), caches);
    CurrentFacts(caches, g);
    SameGroup(d, c);
    NewestFirstIsWeak();
    SortIsStable(NewestFirst, xs);
    DistinctFromIds(caches);
    if i :| 0 <= i < |current| && current[i] == d {
      if i < p {
        if d.createdAt == c.createdAt { FilterPrecedes(V3InGroup(g), caches, d, c); }
        assert current[..p][i] == d;
      } else if i > p {
        LaterIsNoBetter(caches, c, d, g, p, i);
      }
      PrefixPlace(current, p, i);
    }
  }

  lemma LaterIsNoBetter(caches: seq<Cache>, c: Cache, d: Cache, g: Group, p: nat, i: nat)
    requires Distinct(caches) && p < i < |Current(caches, g)| && Current(caches, g)[p] == c
      && Current(caches, g)[i] == d
    requires StableBy(NewestFirst, Filter(V3InGroup(g), caches), Current(caches, g))
    ensures !Outranks(caches, d, c)
  {
    if d.createdAt == c.createdAt {
      FilterPrecedes(V3InGroup(g), caches, c, d);
      NotBoth(caches, c, d);
    }
  }

  lemma PrefixPlace(xs: seq<Cache>, p: nat, i: nat)
    requires Distinct(xs) && p <= |xs| && i < |xs|
    ensures xs[i] in xs[..p] <==> i < p
  {
    if i < p { assert xs[..p][i] == xs[i]; }
  }

  /** A group keeps its newest v3 caches: as many as its quota or all there are, none older than one it gives up. */
  lemma NewestAreKept(caches: seq<Cache>, g: Group)
    requires DistinctIds(caches)
    ensures |KeptV3(caches, g)| == if |AllV3(caches, g)| < Quota(g) then |AllV3(caches, g)| else Quota(g)
    ensures forall kept, gone ::
      kept in KeptV3(caches, g) && gone in AllV3(caches, g) && Removable(caches, gone) ==>
        kept.createdAt >= gone.createdAt
  {
    CurrentFacts(caches, g);
    ProtectedIsKept(caches, g);
    var current, protected := Current(caches, g), Protected(caches, g);
    DistinctSize(current, AllV3(caches, g));
    DistinctSize(protected, KeptV3(caches, g));
    forall kept, gone | kept in KeptV3(caches, g) && gone in AllV3(caches, g) && Removable(caches, gone)
      ensures kept.createdAt >= gone.createdAt
    {
      var i :| 0 <= i < |protected| && protected[i] == kept;
      var j :| 0 <= j < |current| && current[j] == gone;
      assert protected == current[..|protected|] && gone !in protected;
      BeyondPrefix(current, |protected|, j);
      assert NewestFirst(current[i], current[j]);
    }
  }

  /** Nothing off main, no unknown key, and no member of a group without a v3 cache is ever planned. */
  lemma UntouchedCaches(caches: seq<Cache>, c: Cache)
    requires DistinctIds(caches)
    requires !c.onMain || c.key.OtherKey?
             || (Grouped(c) && forall d :: d in caches && InGroup(d, GroupOf(c)) ==> !IsV3(d))
             || (c.key.LegacyKey? && !HasReleaseV3(caches))
    ensures !Removable(caches, c)
  {
    if Grouped(c) {
      CurrentFacts(caches, GroupOf(c));
      if forall d :: d in caches && InGroup(d, GroupOf(c)) ==> !IsV3(d) { NoMembers(Current(caches, GroupOf(c))); }
    }
  }

  // ----- Planning again after an interruption -----

  function NotIn(gone: set<Cache>): Cache -> bool { c => c !in gone }

  lemma FilterInsertFirst(keep: Cache -> bool, x: Cache, xs: seq<Cache>)
    requires SortedBy(NewestFirst, xs) && (xs == [] || NewestFirst(x, xs[0]))
    ensures Insert(NewestFirst, x, Filter(keep, xs)) == [x] + Filter(keep, xs)
  {
    FilterMembers(keep, xs);
    if Filter(keep, xs) != [] {
      assert Filter(keep, xs)[0] in Filter(keep, xs);
      InsertFirst(x, Filter(keep, xs));
    }
  }

  lemma {:induction false} FilterInsert(keep: Cache -> bool, x: Cache, xs: seq<Cache>)
    requires SortedBy(NewestFirst, xs)
    ensures Filter(keep, Insert(NewestFirst, x, xs))
      == if keep(x) then Insert(NewestFirst, x, Filter(keep, xs)) else Filter(keep, xs)
  {
    if xs == [] || NewestFirst(x, xs[0]) {
      FilterCons(keep, x, xs);
      FilterInsertFirst(keep, x, xs);
    } else {
      FilterCons(keep, xs[0], Insert(NewestFirst, x, xs[1..]));
      FilterInsert(keep, x, xs[1..]);
      InsertCons(x, xs[0], Filter(keep, xs[1..]));
    }
  }

  lemma InsertFirst(x: Cache, xs: seq<Cache>)
    requires xs != [] && NewestFirst(x, xs[0])
    ensures Insert(NewestFirst, x, xs) == [x] + xs
  {
  }

  lemma InsertCons(x: Cache, y: Cache, ys: seq<Cache>)
    requires !NewestFirst(x, y)
    ensures Insert(NewestFirst, x, [y] + ys) == [y] + Insert(NewestFirst, x, ys)
  {
    assert ([y] + ys)[1..] == ys;
  }

  /** A stable sort commutes with leaving elements out. */
  lemma {:induction false} FilterSort(keep: Cache -> bool, xs: seq<Cache>)
    ensures Filter(keep, Sort(NewestFirst, xs)) == Sort(NewestFirst, Filter(keep, xs))
  {
    if xs != [] {
      var tail := xs[1..];
      FilterSort(keep, tail);
      NewestFirstIsWeak();
      SortSorts(NewestFirst, tail);
      FilterInsert(keep, xs[0], Sort(NewestFirst, tail));
      SortCons(NewestFirst, xs[0], Filter(keep, tail));
    }
  }

  lemma {:induction false} FilterTwice(f: Cache -> bool, g: Cache -> bool, xs: seq<Cache>)
    ensures Filter(f, Filter(g, xs)) == Filter(g, Filter(f, xs))
  {
    if xs != [] {
      FilterTwice(f, g, xs[1..]);
      FilterCons(f, xs[0], Filter(g, xs[1..]));
      FilterCons(g, xs[0], Filter(f, xs[1..]));
    }
  }

  lemma {:induction false} FilterPrefix(keep: Cache -> bool, xs: seq<Cache>, k: nat)
    requires k <= |xs| && forall i :: 0 <= i < k ==> keep(xs[i])
    ensures |Filter(keep, xs)| >= k && Filter(keep, xs)[..k] == xs[..k]
  {
    if k > 0 {
      FilterPrefix(keep, xs[1..], k - 1);
      assert xs[..k] == [xs[0]] + xs[1..][..k - 1];
    }
  }

  /** What is left of a group's sorted v3 caches after deletions. */
  lemma CurrentAfter(caches: seq<Cache>, keep: Cache -> bool, g: Group)
    ensures Current(Filter(keep, caches), g) == Filter(keep, Current(caches, g))
  {
    FilterTwice(V3InGroup(g), keep, caches);
    FilterSort(keep, Filter(V3InGroup(g), caches));
  }

  lemma ProtectedStays(caches: seq<Cache>, gone: set<Cache>, g: Group, i: nat)
    requires DistinctIds(caches) && (forall c :: c in gone ==> Removable(caches, c)) && i < |Protected(caches, g)|
    ensures Current(caches, g)[i] !in gone
  {
    ProtectedIsKept(caches, g);
    assert Protected(caches, g)[i] == Current(caches, g)[i];
    assert Protected(caches, g)[i] in Protected(caches, g);
  }

  /** Deleting planned caches changes no group's protected ones. */
  lemma ProtectionIsStable(caches: seq<Cache>, gone: set<Cache>, g: Group)
    requires DistinctIds(caches) && forall c :: c in gone ==> Removable(caches, c)
    ensures Protected(Filter(NotIn(gone), caches), g) == Protected(caches, g)
    ensures Current(Filter(NotIn(gone), caches), g) == [] <==> Current(caches, g) == []
  {
    var keep, current := NotIn(gone), Current(caches, g);
    CurrentAfter(caches, keep, g);
    var k := |Protected(caches, g)|;
    forall i | 0 <= i < k ensures keep(current[i]) { ProtectedStays(caches, gone, g, i); }
    FilterPrefix(keep, current, k);
    if k == |current| { FilterAll(keep, current); }
  }

  lemma {:induction false} FilterAll(keep: Cache -> bool, xs: seq<Cache>)
    requires forall i :: 0 <= i < |xs| ==> keep(xs[i])
    ensures Filter(keep, xs) == xs
  {
    if xs != [] { FilterAll(keep, xs[1..]); }
  }

  lemma ReleaseIsStable(caches: seq<Cache>, gone: set<Cache>)
    requires DistinctIds(caches) && forall c :: c in gone ==> Removable(caches, c)
    ensures HasReleaseV3(Filter(NotIn(gone), caches)) <==> HasReleaseV3(caches)
  {
    FilterMembers(NotIn(gone), caches);
    if HasReleaseV3(caches) {
      var c :| c in caches && c.onMain && c.key.BuildKey? && c.key.profile == "release-check" && c.key.version == 3;
      var g := GroupOf(c);
      CurrentFacts(caches, g);
      ProtectedIsKept(caches, g);
      assert Current(caches, g) != [] by { assert c in Current(caches, g); }
      var p := Protected(caches, g)[0];
      assert p in Protected(caches, g) && p in KeptV3(caches, g);
      FilterMembers(NotIn(gone), caches);
    }
  }

  /** Planning again after any part of the plan was carried out gives exactly the rest of it. */
  lemma ReplanIsTheRest(caches: seq<Cache>, gone: set<Cache>, c: Cache)
    requires DistinctIds(caches) && forall d :: d in gone ==> Removable(caches, d)
    ensures Removable(Filter(NotIn(gone), caches), c) <==> Removable(caches, c) && c !in gone
  {
    if Grouped(c) { ProtectionIsStable(caches, gone, GroupOf(c)); }
    ReleaseIsStable(caches, gone);
    FilterMembers(NotIn(gone), caches);
  }

  // ----- The loops of `main` -----

  function Append(groups: map<Group, seq<Cache>>, g: Group, c: Cache): map<Group, seq<Cache>> {
    groups[g := (if g in groups then groups[g] else []) + [c]]
  }

  function OfGroup(g: Group): Cache -> bool { c => InGroup(c, g) }

  lemma {:induction false} FilterAppend(keep: Cache -> bool, xs: seq<Cache>, x: Cache)
    ensures Filter(keep, xs + [x]) == Filter(keep, xs) + if keep(x) then [x] else []
  {
    if xs == [] {
      assert xs + [x] == [x] + [];
      FilterCons(keep, x, []);
    } else {
      assert (xs + [x])[1..] == xs[1..] + [x];
      FilterAppend(keep, xs[1..], x);
    }
  }

  /** The dictionary holds every group seen so far, its members in listing order. */
  ghost predicate GroupsOf(caches: seq<Cache>, groups: map<Group, seq<Cache>>) {
    forall g :: if g in groups then groups[g] == Filter(OfGroup(g), caches) else Filter(OfGroup(g), caches) == []
  }

  lemma GroupsGrow(caches: seq<Cache>, groups: map<Group, seq<Cache>>, c: Cache)
    requires GroupsOf(caches, groups)
    ensures GroupsOf(caches + [c], if Grouped(c) then Append(groups, GroupOf(c), c) else groups)
  {
    var next := if Grouped(c) then Append(groups, GroupOf(c), c) else groups;
    forall g
      ensures if g in next then next[g] == Filter(OfGroup(g), caches + [c]) else Filter(OfGroup(g), caches + [c]) == []
    {
      FilterAppend(OfGroup(g), caches, c);
    }
  }

  /** `groups.setdefault(key, []).append(...)` for every recognised cache on main, with the keys in order of arrival. */
  method GroupCaches(caches: seq<Cache>) returns (groups: map<Group, seq<Cache>>, order: seq<Group>)
    ensures Distinct(order) && forall g :: g in order <==> g in groups
    ensures GroupsOf(caches, groups)
  {
    groups, order := map[], [];
    for i := 0 to |caches|
      invariant Distinct(order) && forall g :: g in order <==> g in groups
      invariant GroupsOf(caches[..i], groups)
    {
      var c := caches[i];
      assert caches[..i + 1] == caches[..i] + [c];
      GroupsGrow(caches[..i], groups, c);
      if Grouped(c) {
        if GroupOf(c) !in groups { order := order + [GroupOf(c)]; }
        groups := Append(groups, GroupOf(c), c);
      }
    }
    assert caches[..|caches|] == caches;
  }

  lemma GroupIsThere(caches: seq<Cache>, groups: map<Group, seq<Cache>>, c: Cache)
    requires GroupsOf(caches, groups) && c in caches && Grouped(c)
    ensures GroupOf(c) in groups
  {
    FilterMembers(OfGroup(GroupOf(c)), caches);
  }

  lemma {:induction false} FilterOfFilter(caches: seq<Cache>, g: Group)
    ensures Filter(V3InGroup(g), Filter(OfGroup(g), caches)) == Filter(V3InGroup(g), caches)
  {
    if caches != [] {
      FilterOfFilter(caches[1..], g);
      FilterCons(V3InGroup(g), caches[0], Filter(OfGroup(g), caches[1..]));
    }
  }

  function NotAmong(protected: seq<Cache>): Cache -> bool { (c: Cache) => forall p :: p in protected ==> p.id != c.id }

  lemma SameById(caches: seq<Cache>, c: Cache, d: Cache)
    requires DistinctIds(caches) && c in caches && d in caches && c.id == d.id
    ensures c == d
  {
    var i :| 0 <= i < |caches| && caches[i] == c;
    var j :| 0 <= j < |caches| && caches[j] == d;
  }

  /** What one group adds to the plan. */
  method PlanGroup(caches: seq<Cache>, g: Group, members: seq<Cache>) returns (removable: seq<Cache>)
    requires DistinctIds(caches) && members == Filter(OfGroup(g), caches)
    ensures Distinct(removable)
    ensures forall c :: c in removable <==> InGroup(c, g) && Removable(caches, c)
  {
    FilterOfFilter(caches, g);
    CurrentFacts(caches, g);
    DistinctFromIds(caches);
    FilterDistinct(OfGroup(g), caches);
    var current := Sort(NewestFirst, Filter(V3InGroup(g), members));
    removable := [];
    if current != [] {
      var protected := if |current| <= Quota(g) then current else current[..Quota(g)];
      removable := Filter(NotAmong(protected), members);
      FilterDistinct(NotAmong(protected), members);
      FilterMembers(NotAmong(protected), members);
      FilterMembers(OfGroup(g), caches);
      forall c | c in members ensures NotAmong(protected)(c) <==> c !in protected {
        forall p | p in protected && p.id == c.id ensures p == c {
          assert p in current;
          SameById(caches, p, c);
        }
      }
    }
  }

  /** The deletion plan: every removable cache once, oldest first. */
  method Plan(caches: seq<Cache>) returns (removable: seq<Cache>)
    requires DistinctIds(caches)
    ensures Distinct(removable)
    ensures forall i, j :: 0 <= i < j < |removable| ==> removable[i].createdAt <= removable[j].createdAt
    ensures forall c :: c in removable <==> Removable(caches, c)
  {
    var groups, order := GroupCaches(caches);
    var planned: seq<Cache> := [];
    for i := 0 to |order|
      invariant Distinct(planned)
      invariant forall c :: c in planned <==> Grouped(c) && Removable(caches, c) && GroupOf(c) in order[..i]
    {
      var g := order[i];
      assert g in order && g !in order[..i] && order[..i + 1] == order[..i] + [g];
      var more := PlanGroup(caches, g, groups[g]);
      DistinctConcat(planned, more);
      planned := planned + more;
    }
    assert order[..|order|] == order;
    forall c | c in caches && Grouped(c) ensures GroupOf(c) in order { GroupIsThere(caches, groups, c); }
    assert forall c :: c in planned <==> Grouped(c) && Removable(caches, c);
    if HasReleaseV3(caches) {
      var legacy := (c: Cache) => c.onMain && c.key.LegacyKey?;
      DistinctFromIds(caches);
      FilterDistinct(legacy, caches);
      FilterMembers(legacy, caches);
      DistinctConcat(planned, Filter(legacy, caches));
      planned := planned + Filter(legacy, caches);
    }
    SortedPlan(planned);
    removable := Sort(OldestFirst, planned);
  }

  lemma SortedPlan(planned: seq<Cache>)
    requires Distinct(planned)
    ensures var plan := Sort(OldestFirst, planned);
      Distinct(plan) && forall i, j :: 0 <= i < j < |plan| ==> plan[i].createdAt <= plan[j].createdAt
    ensures forall c :: c in Sort(OldestFirst, planned) <==> c in planned
  {
    SortIsPermutation(OldestFirst, planned);
    SortSorts(OldestFirst, planned);
    DistinctFromMultiset(planned, Sort(OldestFirst, planned));
  }

  function TotalBytes(caches: seq<Cache>): nat {
    if caches == [] then 0 else caches[0].size + TotalBytes(caches[1..])
  }

  lemma {:induction false} TotalWithout(caches: seq<Cache>, i: nat)
    requires i < |caches|
    ensures TotalBytes(caches) == caches[i].size + TotalBytes(caches[..i] + caches[i + 1..])
  {
    if i == 0 {
      assert caches[..0] + caches[1..] == caches[1..];
    } else {
      TotalWithout(caches[1..], i - 1);
      assert (caches[..i] + caches[i + 1..])[1..] == caches[1..][..i - 1] + caches[1..][i..];
    }
  }

  /** `bytesAfterPlan` is the size of what the plan retains. */
  lemma {:induction false} BytesAfterPlan(caches: seq<Cache>, removable: seq<Cache>)
    requires Distinct(caches) && Distinct(removable) && forall c :: c in removable ==> c in caches
    ensures TotalBytes(caches) - TotalBytes(removable) == TotalBytes(Filter(NotIn(set c | c in removable), caches))
  {
    if removable == [] {
      FilterAll(NotIn(set c | c in removable), caches);
    } else {
      var x, rest := removable[0], removable[1..];
      assert x in removable;
      var i :| 0 <= i < |caches| && caches[i] == x;
      var smaller := caches[..i] + caches[i + 1..];
      TotalWithout(caches, i);
      TailMembers(removable, x);
      forall c | c in rest ensures c in smaller {
        TailMembers(removable, c);
        var k :| 0 <= k < |caches| && caches[k] == c;
        assert smaller[if k < i then k else k - 1] == c;
      }
      BytesAfterPlan(smaller, rest);
      FilterSkips(caches, i, rest);
      assert (set c | c in removable) == (set c | c in rest) + {x};
    }
  }

  lemma {:induction false} FilterConcat(keep: Cache -> bool, a: seq<Cache>, b: seq<Cache>)
    ensures Filter(keep, a + b) == Filter(keep, a) + Filter(keep, b)
  {
    if a == [] {
      assert a + b == b;
    } else {
      assert (a + b)[1..] == a[1..] + b;
      FilterConcat(keep, a[1..], b);
    }
  }

  lemma {:induction false} FilterAgrees(f: Cache -> bool, g: Cache -> bool, xs: seq<Cache>)
    requires forall x :: x in xs ==> f(x) == g(x)
    ensures Filter(f, xs) == Filter(g, xs)
  {
    if xs != [] { FilterAgrees(f, g, xs[1..]); }
  }

  lemma FilterAround(keep: Cache -> bool, a: seq<Cache>, x: Cache, b: seq<Cache>)
    requires !keep(x)
    ensures Filter(keep, (a + [x]) + b) == Filter(keep, a) + Filter(keep, b)
  {
    FilterConcat(keep, a + [x], b);
    FilterAppend(keep, a, x);
    assert Filter(keep, a) + [] == Filter(keep, a);
  }

  lemma FilterSkips(caches: seq<Cache>, i: nat, rest: seq<Cache>)
    requires i < |caches| && Distinct(caches)
    ensures Filter(NotIn((set c | c in rest) + {caches[i]}), caches)
      == Filter(NotIn(set c | c in rest), caches[..i] + caches[i + 1..])
  {
    var f, g := NotIn((set c | c in rest) + {caches[i]}), NotIn(set c | c in rest);
    var a, b := caches[..i], caches[i + 1..];
    assert caches == (a + [caches[i]]) + b;
    FilterAround(f, a, caches[i], b);
    FilterConcat(g, a, b);
    OnceOnly(caches, i);
    FilterAgrees(f, g, a);
    FilterAgrees(f, g, b);
  }

  lemma OnceOnly(caches: seq<Cache>, i: nat)
    requires i < |caches| && Distinct(caches)
    ensures caches[i] !in caches[..i] && caches[i] !in caches[i + 1..]
  {
  }

  /** What happens at one turn of the deletion loop. */
  datatype Turn = Deletes | OtherRunStarted | ApiFails

  datatype Sweep = Sweep(deleted: seq<nat>, deferred: bool, failed: bool)

  /** Whether deleting starts at all: not while another run is active, and only with `--apply`. */
  predicate Starts(active: bool, apply: bool) { !active && apply }

  /**
   * Activity is checked before each deletion; the loop stops at the first turn that does not delete.
   * `deleted` is the planned prefix before that turn.
   */
  method DeletePlanned(removable: seq<Cache>, active: bool, apply: bool, turn: nat -> Turn) returns (r: Sweep)
    ensures |r.deleted| <= |removable| && forall i :: 0 <= i < |r.deleted| ==> r.deleted[i] == removable[i].id
    ensures forall i :: 0 <= i < |r.deleted| ==> turn(i).Deletes?
    ensures r.deleted != [] ==> Starts(active, apply)
    ensures Starts(active, apply) && |r.deleted| < |removable| ==> !turn(|r.deleted|).Deletes?
    ensures r.deferred <==> active || (apply && |r.deleted| < |removable| && turn(|r.deleted|).OtherRunStarted?)
    ensures r.failed <==> Starts(active, apply) && |r.deleted| < |removable| && turn(|r.deleted|).ApiFails?
  {
    if active { return Sweep([], true, false); }
    if !apply { return Sweep([], false, false); }
    var deleted: seq<nat> := [];
    for i := 0 to |removable|
      invariant |deleted| == i && forall j :: 0 <= j < i ==> deleted[j] == removable[j].id && turn(j).Deletes?
    {
      if turn(i).OtherRunStarted? { return Sweep(deleted, true, false); }
      if turn(i).ApiFails? { return Sweep(deleted, false, true); }
      deleted := deleted + [removable[i].id];
    }
    return Sweep(deleted, false, false);
  }

  /**
   * After a sweep that deleted the first `k` of the plan, planning again finds the others; after a full one, nothing.
   */
  lemma ReplanAfterSweep(caches: seq<Cache>, removable: seq<Cache>, k: nat, c: Cache)
    requires DistinctIds(caches) && Distinct(removable) && k <= |removable|
    requires forall d :: d in removable <==> Removable(caches, d)
    ensures Removable(Filter(NotIn(set d | d in removable[..k]), caches), c) <==> c in removable[k..]
  {
    var gone := set d | d in removable[..k];
    ReplanIsTheRest(caches, gone, c);
    assert removable == removable[..k] + removable[k..];
    if c in removable[k..] {
      var i :| 0 <= i < |removable[k..]| && removable[k..][i] == c;
      assert removable[k + i] == c;
    }
  }
}
