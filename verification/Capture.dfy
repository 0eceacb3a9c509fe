/** Saving a snapshot of a tree, and what `verify` makes of it later. */
module Capture {
  import opened Ordering
  import opened Paths
  import opened Splitting
  import opened CanonicalJson
  import opened SubtreeHashes
  import opened FileTree
  import opened Options
  import opened Stamping
  import opened SourceStamps
  import opened Workspace
  import opened Snapshot

  function Objs(entries: seq<Entry>): (r: seq<Json>)
    ensures |r| == |entries| && forall k :: 0 <= k < |r| ==> r[k] == Obj(entries[k])
    ensures forall v :: v in r ==> v.Obj?
  {
    seq(|entries|, i requires 0 <= i < |entries| => Obj(entries[i]))
  }

  /** What `capture` writes. */
  function SnapshotOf(h: Hash, entries: seq<Entry>, cacheable: bool, profile: string, context: Json): Json {
    Obj(map["schema" := Int(1), "profile" := Str(profile), "context" := context, "cacheable" := Bool(cacheable),
            "inputHash" := Str(InputHash(h, entries)), "entries" := Arr(Objs(entries))])
  }

  ghost predicate HexDigests(h: Hash) {
    forall x :: IsHex64(h(x))
  }

  /** What `validate` asks of a name and a time beyond what any file system guarantees. */
  predicate PortableEntry(n: string, stamp: int, now: int) {
    && |n| <= 1024 && '\\' !in n && ':' !in n && '\0' !in n
    && 0 < stamp <= now + 60_000_000_000
  }

  /** A tree whose snapshot can be restored: names, times, and no two names that differ only in case. */
  ghost predicate Portable(fold: Fold, t: Tree, now: int) {
    && InputNames(t) != {}
    && (forall n :: n in InputNames(t) ==> PortableEntry(n, t[n].mtime, now))
    && (forall m, n :: m in InputNames(t) && n in InputNames(t) && m != n ==> fold(m) != fold(n))
  }

  // ----- Facts about the inputs of a readable tree -----

  lemma HeadOfBelow(tree: string, n: string)
    requires '/' !in tree && Below(tree, n)
    ensures Split(n, '/')[0] == tree
  {
    SplitOfPiece(tree, '/');
    if n != tree {
      var rest := n[|tree|..];
      assert n == tree + rest && rest[0] == '/';
      SplitConcat(tree, rest, '/');
      assert Split(rest, '/')[0] == [];
    }
  }

  /** An input is a regular file or directory at or below a tree root, or a root file. */
  lemma InputFacts(t: Tree, n: string)
    requires WellFormed(t) && Readable(t) && n in InputNames(t)
    ensures Regular(t[n]) && 0 <= t[n].mode <= 0xFFF && GoodName(n)
    ensures n in FILES || Split(n, '/')[0] in TREES
    ensures n in FILES ==> t[n].File?
    ensures '/' in n ==> Parent(n) in InputNames(t) && t[Parent(n)].Dir?
  {
    InputRoots();
    if n in FILES {
      var k :| 0 <= k < |FILES| && FILES[k] == n;
    } else {
      var j :| 0 <= j < |TREES| && Below(TREES[j], n);
      HeadOfBelow(TREES[j], n);
      AncestorExists(t, TREES[j], n);
      AllScannableEach(t, TREES, |TREES|, j);
      PreOrderMembers(t, TREES[j], n);
      if '/' in n {
        ParentStaysBelow(TREES[j], n);
        assert InTrees(TREES, |TREES|, Parent(n));
      }
    }
  }

  lemma ListingAt(h: Hash, t: Tree, k: nat)
    requires k < |Listing(h, t)|
    ensures k < |NamesInOrder(InputNames(t))|
    ensures var n := NamesInOrder(InputNames(t))[k]; n in InputNames(t) && Listing(h, t)[k] == EntryOf(h, n, t[n])
  {
    var names := NamesInOrder(InputNames(t));
    assert names[k] in names;
  }

  lemma ListingIsSorted(h: Hash, t: Tree)
    ensures Sort(ByPath, Listing(h, t)) == Listing(h, t)
  {
    LeqIsLinear();
    ByPathIsWeak();
    var names := NamesInOrder(InputNames(t));
    forall i, j | 0 <= i < j < |names| ensures ByPath(Listing(h, t)[i], Listing(h, t)[j]) {
      ListingAt(h, t, i);
      ListingAt(h, t, j);
      assert Leq(names[i], names[j]);
    }
    SortOfSorted(ByPath, Listing(h, t));
  }

  // ----- The snapshot of a tree, as `validate` reads it -----

  lemma {:induction false} IndexOfEntries(items: seq<Json>, m: Index)
    requires forall v :: v in items ==> v.Obj?
    requires forall k :: 0 <= k < |items| ==>
      PathOf(items[k].fields) in m && items[k].fields == m[PathOf(items[k].fields)]
    ensures IndexOf(items).Keys == set k | 0 <= k < |items| :: PathOf(items[k].fields)
    ensures forall n :: n in IndexOf(items) ==> n in m && IndexOf(items)[n] == m[n]
  {
    if items != [] {
      var front := Front(items);
      IndexOfEntries(front, m);
      assert Last(items) in items;
      assert forall k :: 0 <= k < |front| ==> front[k] == items[k];
      assert (set k | 0 <= k < |items| :: PathOf(items[k].fields))
        == (set k | 0 <= k < |front| :: PathOf(front[k].fields)) + {PathOf(Last(items).fields)};
    }
  }

  lemma IndexOfNamed(items: seq<Json>, m: Index, names: seq<string>)
    requires (forall v :: v in items ==> v.Obj?) && |items| == |names|
    requires forall k :: 0 <= k < |items| ==>
      names[k] in m && items[k] == Obj(m[names[k]]) && PathOf(m[names[k]]) == names[k]
    requires forall n :: n in m ==> n in names
    ensures IndexOf(items) == m
  {
    IndexOfEntries(items, m);
    forall n | n in m ensures n in IndexOf(items) {
      var k :| 0 <= k < |names| && names[k] == n;
      assert PathOf(items[k].fields) == n;
    }
  }

  /** Indexing the listing of a tree by path gives the tree's own index. */
  lemma IndexOfListing(h: Hash, t: Tree)
    ensures IndexOf(Objs(Listing(h, t))) == CurrentIndex(h, t)
  {
    var items, m, names := Objs(Listing(h, t)), CurrentIndex(h, t), NamesInOrder(InputNames(t));
    forall k | 0 <= k < |items|
      ensures names[k] in m && items[k] == Obj(m[names[k]]) && PathOf(m[names[k]]) == names[k]
    {
      ListingAt(h, t, k);
    }
    IndexOfNamed(items, m, names);
  }

  lemma EntryAccepted(h: Hash, t: Tree, n: string, now: int)
    requires WellFormed(t) && Readable(t) && HexDigests(h) && n in InputNames(t)
    ensures EntryOk(Obj(EntryOf(h, n, t[n])), now) <==> PortableEntry(n, t[n].mtime, now)
  {
    InputFacts(t, n);
    var e := EntryOf(h, n, t[n]);
    assert PathOf(e) == n;
    assert t[n].File? ==> FileDataOk(e);
  }

  lemma PlaceIn(items: seq<Json>, v: Json) returns (k: nat)
    requires v in items
    ensures k < |items| && items[k] == v
  {
    k :| 0 <= k < |items| && items[k] == v;
  }

  lemma PlaceOf(t: Tree, n: string) returns (k: nat)
    requires n in InputNames(t)
    ensures k < |NamesInOrder(InputNames(t))| && NamesInOrder(InputNames(t))[k] == n
  {
    LeqIsLinear();
    var names := NamesInOrder(InputNames(t));
    assert n in names;
    k :| 0 <= k < |names| && names[k] == n;
  }

  lemma ItemsAccepted(h: Hash, t: Tree, now: int)
    requires WellFormed(t) && Readable(t) && HexDigests(h)
    ensures ItemsOk(Objs(Listing(h, t)), now) <==> forall n :: n in InputNames(t) ==> PortableEntry(n, t[n].mtime, now)
  {
    var items, names := Objs(Listing(h, t)), NamesInOrder(InputNames(t));
    if ItemsOk(items, now) {
      forall n | n in InputNames(t) ensures PortableEntry(n, t[n].mtime, now) {
        var k := PlaceOf(t, n);
        ListingAt(h, t, k);
        assert items[k] in items;
        EntryAccepted(h, t, n, now);
      }
    }
    if forall n :: n in InputNames(t) ==> PortableEntry(n, t[n].mtime, now) {
      forall v | v in items ensures EntryOk(v, now) {
        var k := PlaceIn(items, v);
        ListingAt(h, t, k);
        EntryAccepted(h, t, names[k], now);
      }
    }
  }

  lemma FoldsOfNames(fold: Fold, items: seq<Json>, names: seq<string>)
    requires |items| == |names| && Distinct(names)
    requires forall k :: 0 <= k < |items| ==> NameAt(items, k) == names[k]
    ensures FoldsDistinct(fold, items) <==> forall m, n :: m in names && n in names && m != n ==> fold(m) != fold(n)
  {
    if FoldsDistinct(fold, items) {
      forall m, n | m in names && n in names && m != n ensures fold(m) != fold(n) {
        var i :| 0 <= i < |names| && names[i] == m;
        var j :| 0 <= j < |names| && names[j] == n;
        assert NameAt(items, i) == m && NameAt(items, j) == n;
      }
    }
  }

  lemma FoldsOfListing(h: Hash, fold: Fold, t: Tree)
    ensures FoldsDistinct(fold, Objs(Listing(h, t))) <==>
      forall m, n :: m in InputNames(t) && n in InputNames(t) && m != n ==> fold(m) != fold(n)
  {
    var items, names := Objs(Listing(h, t)), NamesInOrder(InputNames(t));
    forall k | 0 <= k < |items| ensures NameAt(items, k) == names[k] { ListingAt(h, t, k); }
    FoldsOfNames(fold, items, names);
  }

  lemma ParentsOfListing(h: Hash, t: Tree)
    requires WellFormed(t) && Readable(t)
    ensures ParentsSaved(CurrentIndex(h, t))
  {
    var index := CurrentIndex(h, t);
    forall n | n in index && '/' in n ensures Parent(n) in index && IsDirectory(index[Parent(n)]) {
      ParentOfInput(h, t, n);
    }
  }

  lemma ParentOfInput(h: Hash, t: Tree, n: string)
    requires WellFormed(t) && Readable(t) && n in InputNames(t) && '/' in n
    ensures Parent(n) in CurrentIndex(h, t) && IsDirectory(CurrentIndex(h, t)[Parent(n)])
  {
    InputFacts(t, n);
  }

  lemma SnapshotFields(h: Hash, entries: seq<Entry>, profile: string, context: Json, reader: Reader)
    ensures var data := SnapshotOf(h, entries, true, profile, context);
      && HeaderOk(data, profile, context)
      && (HeaderOk(data, reader.profile, reader.context) <==> reader == Reader(profile, context))
      && Get(data.fields, "entries") == Arr(Objs(entries))
      && Get(data.fields, "inputHash") == Str(InputHash(h, entries))
      && Fields(Objs(entries)) == entries
  {
  }

  /** Under what a snapshot is read: build profile and context (workspace, toolchain, environment). */
  datatype Reader = Reader(profile: string, context: Json)

  lemma AcceptedUnderItsOwn(h: Hash, fold: Fold, entries: seq<Entry>, profile: string, context: Json, now: int,
                            reader: Reader)
    ensures var data := SnapshotOf(h, entries, true, profile, context);
      Accepts(h, fold, data, reader.profile, reader.context, now)
      <==> reader == Reader(profile, context) && Accepts(h, fold, data, profile, context, now)
  {
    SnapshotFields(h, entries, profile, context, reader);
  }

  lemma CaptureIsAcceptedThere(h: Hash, fold: Fold, t: Tree, profile: string, context: Json, now: int)
    requires WellFormed(t) && Readable(t) && HexDigests(h)
    ensures var data := SnapshotOf(h, Listing(h, t), true, profile, context);
      && (Accepts(h, fold, data, profile, context, now) <==> Portable(fold, t, now))
      && Get(data.fields, "entries") == Arr(Objs(Listing(h, t)))
    ensures IndexOf(Objs(Listing(h, t))) == CurrentIndex(h, t)
  {
    ItemsAccepted(h, t, now);
    FoldsOfListing(h, fold, t);
    IndexOfListing(h, t);
    ParentsOfListing(h, t);
    SnapshotFields(h, Listing(h, t), profile, context, Reader(profile, context));
    ListingIsSorted(h, t);
    ListingCount(h, t);
  }

  /**
   * A captured snapshot is accepted exactly when it is read under the profile and context it was written under
   * and the tree is portable. It is then the index of the tree.
   */
  lemma CaptureIsAccepted(h: Hash, fold: Fold, t: Tree, profile: string, context: Json, now: int, reader: Reader)
    requires WellFormed(t) && Readable(t) && HexDigests(h)
    ensures var data := SnapshotOf(h, Listing(h, t), true, profile, context);
      && (Accepts(h, fold, data, reader.profile, reader.context, now)
          <==> reader == Reader(profile, context) && Portable(fold, t, now))
      && Get(data.fields, "entries") == Arr(Objs(Listing(h, t)))
    ensures IndexOf(Objs(Listing(h, t))) == CurrentIndex(h, t)
  {
    CaptureIsAcceptedThere(h, fold, t, profile, context, now);
    AcceptedUnderItsOwn(h, fold, Listing(h, t), profile, context, now, reader);
  }

  lemma ListingCount(h: Hash, t: Tree)
    ensures |Objs(Listing(h, t))| == |InputNames(t)|
    ensures InputNames(t) == {} <==> |InputNames(t)| == 0
  {
  }

  /** A snapshot taken of an unreadable tree is never accepted. */
  lemma UnreadableCapture(h: Hash, fold: Fold, profile: string, context: Json, now: int, reader: Reader)
    ensures !Accepts(h, fold, SnapshotOf(h, [], false, profile, context), reader.profile, reader.context, now)
  {
  }

  /**
   * `capture`: what is written is acceptable exactly when the tree could be read, held still, and is portable,
   * to a reader under the same profile and context.
   */
  method CaptureWorkspace(h: Hash, t: Tree, again: Reread, profile: string, context: Json) returns (data: Json)
    requires WellFormed(t)
    ensures data == if Readable(t) && InputsSteady(t, again) then SnapshotOf(h, Listing(h, t), true, profile, context)
                    else SnapshotOf(h, [], false, profile, context)
    ensures data.Obj? && data.fields.Keys == {"schema", "profile", "context", "cacheable", "inputHash", "entries"}
    ensures data.fields["schema"] == Int(1) && data.fields["profile"] == Str(profile)
      && data.fields["context"] == context
    ensures data.fields["cacheable"] == Bool(Readable(t) && InputsSteady(t, again))
    ensures HexDigests(h) ==> forall fold: Fold, now: int, p: string, c: Json ::
      (Accepts(h, fold, data, p, c, now)
       <==> p == profile && c == context && Readable(t) && InputsSteady(t, again) && Portable(fold, t, now))
  {
    var scan := Inputs(h, t, again);
    var entries := if scan.Scanned? then scan.entries else [];
    data := SnapshotOf(h, entries, scan.Scanned?, profile, context);
    SnapshotKeys(h, entries, scan.Scanned?, profile, context);
    if HexDigests(h) { WrittenIsAccepted(h, t, scan.Scanned?, profile, context); }
  }

  lemma SnapshotKeys(h: Hash, entries: seq<Entry>, cacheable: bool, profile: string, context: Json)
    ensures var data := SnapshotOf(h, entries, cacheable, profile, context);
      && data.Obj? && data.fields.Keys == {"schema", "profile", "context", "cacheable", "inputHash", "entries"}
      && data.fields["schema"] == Int(1) && data.fields["profile"] == Str(profile)
      && data.fields["context"] == context && data.fields["cacheable"] == Bool(cacheable)
  {
  }

  lemma WrittenIsAccepted(h: Hash, t: Tree, scanned: bool, profile: string, context: Json)
    requires WellFormed(t) && HexDigests(h) && (scanned ==> Readable(t))
    ensures var data := SnapshotOf(h, if scanned then Listing(h, t) else [], scanned, profile, context);
      forall fold: Fold, now: int, p: string, c: Json ::
        Accepts(h, fold, data, p, c, now) <==> (p == profile && c == context && scanned && Portable(fold, t, now))
  {
    var data := SnapshotOf(h, if scanned then Listing(h, t) else [], scanned, profile, context);
    forall fold: Fold, now: int, p: string, c: Json
      ensures Accepts(h, fold, data, p, c, now) <==> p == profile && c == context && scanned && Portable(fold, t, now)
    {
      if scanned {
        CaptureIsAccepted(h, fold, t, profile, context, now, Reader(p, c));
      } else {
        UnreadableCapture(h, fold, profile, context, now, Reader(p, c));
      }
    }
  }

  // ----- `verify` -----

  /** `sorted(saved.values(), key=path)` */
  ghost function SavedListing(index: Index): seq<Entry> {
    EntriesWith(SavedEntry(index), NamesInOrder(index.Keys))
  }

  function SavedEntry(index: Index): string -> Entry {
    n => if n in index && PathOf(index[n]) == n then index[n] else map["path" := Str(n)]
  }

  predicate EndsWith(s: string, suffix: string) {
    |s| >= |suffix| && s[|s| - |suffix|..] == suffix
  }

  predicate KeyMatches(expectedKey: string, compatibility: string, inputHash: string) {
    expectedKey == "" || EndsWith(expectedKey, "-" + compatibility + "-" + inputHash)
  }

  /** A prepared key, `<prefix>-<compatibility hash>-<input hash>`, matches exactly its own two hashes. */
  lemma PreparedKeyExactly(prefix: string, madeFor: string, madeFrom: string, compatibility: string, inputHash: string)
    requires |madeFor| == |compatibility| == 64 && |madeFrom| == |inputHash| == 64
    ensures KeyMatches(prefix + "-" + madeFor + "-" + madeFrom, compatibility, inputHash)
      <==> madeFor == compatibility && madeFrom == inputHash
    ensures KeyMatches("", compatibility, inputHash)
  {
    var made, wanted := "-" + madeFor + "-" + madeFrom, "-" + compatibility + "-" + inputHash;
    var key := prefix + "-" + madeFor + "-" + madeFrom;
    assert key == prefix + made;
    assert key[|key| - |wanted|..] == made;
    assert made[1..65] == madeFor && wanted[1..65] == compatibility;
    assert made[66..] == madeFrom && wanted[66..] == inputHash;
  }

  lemma {:induction false} AcceptedIsWellIndexed(items: seq<Json>, now: int)
    requires ItemsOk(items, now)
    ensures WellIndexed(IndexOf(items))
    ensures forall n :: n in IndexOf(items) ==> NameOk(n) && MetadataOk(IndexOf(items)[n], now)
  {
    if items != [] {
      assert Last(items) in items;
      AcceptedIsWellIndexed(Front(items), now);
    }
  }

  method SortedValues(index: Index) returns (r: seq<Entry>)
    requires WellIndexed(index)
    ensures r == SavedListing(index)
  {
    var names := KeyList(index);
    var values: seq<Entry> := [];
    for i := 0 to |names|
      invariant values == EntriesWith(SavedEntry(index), names[..i])
    {
      assert names[i] in names;
      values := values + [index[names[i]]];
      assert names[..i + 1] == names[..i] + [names[i]];
    }
    assert names[..|names|] == names;
    SortOfSaved(index, names);
    return Sort(ByPath, values);
  }

  lemma SortOfSaved(index: Index, names: seq<string>)
    requires Distinct(names) && forall n :: n in names <==> n in index
    ensures Sort(ByPath, EntriesWith(SavedEntry(index), names)) == SavedListing(index)
  {
    LeqIsLinear();
    SortOfKeys(Leq, names, index.Keys);
    SortByPath(SavedEntry(index), names);
  }

  ghost predicate Verifies(h: Hash, fold: Fold, t: Tree, state: Option<Json>, profile: string, context: Json, now: int,
                           compatibility: string, expectedKey: string) {
    && Readable(t) && state.Some? && Accepts(h, fold, state.value, profile, context, now)
    && Listing(h, t) == SavedListing(IndexOf(Get(state.value.fields, "entries").items))
    && KeyMatches(expectedKey, compatibility, InputHash(h, Listing(h, t)))
  }

  method Verify(h: Hash, fold: Fold, t: Tree, again: Reread, state: Option<Json>, profile: string, context: Json,
                now: int, compatibility: string, expectedKey: string) returns (cacheable: bool)
    requires WellFormed(t)
    ensures cacheable
      <==> InputsSteady(t, again) && Verifies(h, fold, t, state, profile, context, now, compatibility, expectedKey)
  {
    var scan := Inputs(h, t, again);
    if scan.Unsupported? || state.None? { return false; }
    var current := scan.entries;
    var saved := Validate(h, fold, state.value, profile, context, now);
    cacheable := false;
    if saved.Valid? {
      AcceptedIsWellIndexed(Get(state.value.fields, "entries").items, now);
      var values := SortedValues(saved.index);
      cacheable := current == values;
    }
    if !KeyMatches(expectedKey, compatibility, InputHash(h, current)) { cacheable := false; }
  }

  // ----- What makes a later `verify` succeed -----

  ghost function Contents(t: Tree): set<string> {
    set n | n in t && t[n].File? :: t[n].content
  }

  /** The same inputs, down to content, mode and modification time. */
  ghost predicate SameInputs(s: Tree, t: Tree) {
    InputNames(s) == InputNames(t) && forall n :: n in InputNames(s) ==> s[n] == t[n]
  }

  lemma EntryDecidesNode(h: Hash, s: Tree, t: Tree, n: string)
    requires n in s && n in t && Regular(s[n]) && Regular(t[n])
    requires CollisionFree(h, Contents(s) + Contents(t))
    ensures EntryOf(h, n, s[n]) == EntryOf(h, n, t[n]) <==> s[n] == t[n]
  {
    var e, f := EntryOf(h, n, s[n]), EntryOf(h, n, t[n]);
    if e == f {
      assert e["kind"] == f["kind"] && e["mode"] == f["mode"] && e["mtime_ns"] == f["mtime_ns"];
      if s[n].File? {
        assert s[n].content in Contents(s) && t[n].content in Contents(t);
        assert e["sha256"] == f["sha256"];
      }
    }
  }

  lemma SameInputEntries(h: Hash, s: Tree, t: Tree, n: string)
    requires WellFormed(s) && WellFormed(t) && Readable(s) && Readable(t)
    requires CollisionFree(h, Contents(s) + Contents(t))
    requires n in InputNames(s) && n in InputNames(t)
    ensures EntryFor(h, s)(n) == EntryFor(h, t)(n) <==> s[n] == t[n]
  {
    InputFacts(s, n);
    InputFacts(t, n);
    EntryDecidesNode(h, s, t, n);
  }

  /** Two trees list alike exactly when their inputs are the same. */
  lemma ListingDecides(h: Hash, s: Tree, t: Tree)
    requires WellFormed(s) && WellFormed(t) && Readable(s) && Readable(t)
    requires CollisionFree(h, Contents(s) + Contents(t))
    ensures Listing(h, s) == Listing(h, t) <==> SameInputs(s, t)
  {
    var ns, nt := NamesInOrder(InputNames(s)), NamesInOrder(InputNames(t));
    EntryForPaths(h, s);
    EntryForPaths(h, t);
    EntriesDetermine(EntryFor(h, s), ns, EntryFor(h, t), nt);
    SameNames(ns, InputNames(s), nt, InputNames(t));
    if ns == nt {
      forall n | n in ns ensures EntryFor(h, s)(n) == EntryFor(h, t)(n) <==> s[n] == t[n] {
        SameInputEntries(h, s, t, n);
      }
    }
  }

  lemma SameNames(ns: seq<string>, s: set<string>, nt: seq<string>, t: set<string>)
    requires ns == NamesInOrder(s) && nt == NamesInOrder(t)
    ensures ns == nt <==> s == t
  {
    if ns == nt { assert forall n :: n in s <==> n in t; }
  }

  lemma SavedEntryOfCapture(h: Hash, t: Tree, n: string)
    requires n in InputNames(t)
    ensures SavedEntry(CurrentIndex(h, t))(n) == EntryFor(h, t)(n)
  {
    EntryForPaths(h, t);
    assert CurrentIndex(h, t)[n] == EntryFor(h, t)(n);
  }

  lemma SavedListingOfCapture(h: Hash, t: Tree)
    ensures SavedListing(CurrentIndex(h, t)) == Listing(h, t)
  {
    var f, g, names := SavedEntry(CurrentIndex(h, t)), EntryFor(h, t), NamesInOrder(InputNames(t));
    assert CurrentIndex(h, t).Keys == InputNames(t);
    forall n | n in names ensures f(n) == g(n) { SavedEntryOfCapture(h, t, n); }
    EntriesAgree(f, g, names);
  }

  /**
   * The snapshot of one tree verifies another exactly when it is restorable, is read under its own profile and
   * context, nothing differs, and the key, if given, ends in the two hashes: any edit, chmod, touch, addition or
   * removal is caught, and any other toolchain.
   */
  lemma VerifyAfterCapture(h: Hash, fold: Fold, s: Tree, t: Tree, profile: string, context: Json, now: int,
                           compatibility: string, expectedKey: string, reader: Reader)
    requires WellFormed(s) && WellFormed(t) && Readable(s) && Readable(t) && HexDigests(h)
    requires CollisionFree(h, Contents(s) + Contents(t))
    ensures Verifies(h, fold, t, Some(SnapshotOf(h, Listing(h, s), true, profile, context)),
                     reader.profile, reader.context, now, compatibility, expectedKey)
      <==> reader == Reader(profile, context) && Portable(fold, s, now) && SameInputs(s, t)
           && KeyMatches(expectedKey, compatibility, InputHash(h, Listing(h, s)))
  {
    CaptureIsAccepted(h, fold, s, profile, context, now, reader);
    SavedListingOfCapture(h, s);
    ListingDecides(h, s, t);
  }
}
