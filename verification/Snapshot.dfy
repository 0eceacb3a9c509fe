/** cargo-cache-workspace.py: the saved snapshot, `validate`, and the verdict of `verify`. */
module Snapshot {
  import opened Ordering
  import opened Paths
  import opened Splitting
  import opened CanonicalJson
  import opened SubtreeHashes
  import opened FileTree
  import opened Stamping
  import opened SourceStamps
  import opened Workspace

  const MAX_AHEAD := 60_000_000_000
  const MAX_NAME: nat := 1024

  /** `str.casefold` */
  type Fold = string -> string

  datatype Validated = Valid(index: Index) | Invalid(reason: string)

  // ----- What `validate` accepts -----

  predicate NameOk(name: string) {
    && |name| <= MAX_NAME && '\\' !in name && ':' !in name && '\0' !in name
    && GoodName(name)
    && (name in FILES || Split(name, '/')[0] in TREES)
  }

  predicate StampOk(stamp: int, now: int) { 0 < stamp <= now + MAX_AHEAD }

  predicate MetadataOk(e: Entry, now: int) {
    && Get(e, "mtime_ns").Int? && StampOk(Get(e, "mtime_ns").i, now)
    && Get(e, "mode").Int? && 0 <= Get(e, "mode").i <= 0xFFF
    && Get(e, "kind") in {Str("file"), Str("directory")}
  }

  predicate IsHex64(s: string) {
    |s| == 64 && forall k :: 0 <= k < |s| ==> HexValue(s[k]) >= 0
  }

  predicate FileDataOk(e: Entry) {
    && Get(e, "size").Int? && Get(e, "size").i >= 0
    && Get(e, "sha256").Str? && IsHex64(Get(e, "sha256").s)
  }

  predicate EntryOk(v: Json, now: int) {
    && v.Obj? && Get(v.fields, "path").Str?
    && var e, name := v.fields, PathOf(v.fields);
      && NameOk(name) && MetadataOk(e, now)
      && (Get(e, "kind") == Str("file") ==> FileDataOk(e))
      && (name in FILES ==> Get(e, "kind") == Str("file"))
  }

  predicate HeaderOk(data: Json, profile: string, context: Json) {
    && data.Obj?
    && Get(data.fields, "schema") == Int(1)
    && Get(data.fields, "profile") == Str(profile)
    && Get(data.fields, "context") == context
    && Get(data.fields, "cacheable") == Bool(true)
  }

  function NameAt(items: seq<Json>, i: nat): string
    requires i < |items|
  {
    if items[i].Obj? then PathOf(items[i].fields) else ""
  }

  ghost predicate FoldsDistinct(fold: Fold, items: seq<Json>) {
    forall i, j :: 0 <= i < j < |items| ==> fold(NameAt(items, i)) != fold(NameAt(items, j))
  }

  function IndexOf(items: seq<Json>): Index
    requires forall v :: v in items ==> v.Obj?
  {
    if items == [] then map[]
    else
      assert Last(items) in items;
      IndexOf(Front(items))[PathOf(Last(items).fields) := Last(items).fields]
  }

  ghost predicate ParentsSaved(index: Index) {
    forall n :: n in index && '/' in n ==> Parent(n) in index && IsDirectory(index[Parent(n)])
  }

  function Fields(items: seq<Json>): (r: seq<Entry>)
    requires forall v :: v in items ==> v.Obj?
    ensures |r| == |items|
  {
    seq(|items|, i requires 0 <= i < |items| => assert items[i] in items; items[i].fields)
  }

  function Identities(entries: seq<Entry>): (r: seq<Json>)
    ensures |r| == |entries|
  {
    seq(|entries|, i requires 0 <= i < |entries| => Obj(Identity(entries[i])))
  }

  /** `digest([identity(entry) for entry in entries])` */
  function InputHash(h: Hash, entries: seq<Entry>): string {
    Digest(h, Arr(Identities(entries)))
  }

  ghost predicate ItemsOk(items: seq<Json>, now: int) {
    forall v :: v in items ==> EntryOk(v, now)
  }

  ghost predicate Accepts(h: Hash, fold: Fold, data: Json, profile: string, context: Json, now: int) {
    && HeaderOk(data, profile, context)
    && Get(data.fields, "entries").Arr?
    && var items := Get(data.fields, "entries").items;
      && 1 <= |items| <= MAX_INPUTS
      && ItemsOk(items, now)
      && FoldsDistinct(fold, items)
      && ParentsSaved(IndexOf(items))
      && Get(data.fields, "inputHash") == Str(InputHash(h, Sort(ByPath, Fields(items))))
  }

  // ----- The same, spelled out -----

  /** A workspace path: short, no separator or mark of another platform, no empty or dotted component. */
  ghost predicate PlainPath(name: string) {
    && |name| <= 1024
    && (forall k :: 0 <= k < |name| ==> name[k] !in {'\\', ':', '\0'})
    && PlainParts(Split(name, '/'))
  }

  ghost predicate PlainParts(parts: seq<string>) {
    forall k :: 0 <= k < |parts| ==> parts[k] !in {"", ".", ".."}
  }

  lemma PlainPartsAreGood(name: string)
    ensures PlainParts(Split(name, '/')) <==> GoodName(name)
  {
    var parts := Split(name, '/');
    if GoodName(name) {
      forall k | 0 <= k < |parts| ensures parts[k] !in {"", ".", ".."} { assert parts[k] in parts; }
    }
    if PlainParts(parts) {
      forall part | part in parts ensures part !in {"", ".", ".."} {
        var k :| 0 <= k < |parts| && parts[k] == part;
      }
    }
  }

  lemma NoMarks(name: string)
    ensures '\\' !in name && ':' !in name && '\0' !in name
      <==> forall k :: 0 <= k < |name| ==> name[k] !in {'\\', ':', '\0'}
  {
  }

  const ROOT_FILES :=
    {"Cargo.toml", "Cargo.lock", "build.rs", "rust-toolchain", "rust-toolchain.toml", "CHANGELOG.md"}
  const ROOT_TREES :=
    {"src", "crates", "vendor", "assets", "resources", "locales", "db", "tests", "examples", ".cargo"}

  lemma InputRootSets(name: string)
    ensures name in FILES <==> name in ROOT_FILES
    ensures name in TREES <==> name in ROOT_TREES
  {
  }

  lemma HexDigitsAre(c: char)
    ensures HexValue(c) >= 0 <==> c in "0123456789abcdef"
  {
  }

  /** The whole of one entry: where it may lie, when, in what mode, and what a file must carry. */
  ghost predicate GoodEntry(e: Entry, now: int) {
    exists name: string, stamp: int, mode: int ::
      && "path" in e && e["path"] == Str(name) && "mtime_ns" in e && e["mtime_ns"] == Int(stamp)
      && "mode" in e && e["mode"] == Int(mode) && "kind" in e
      && PlainPath(name) && (name in ROOT_FILES || Split(name, '/')[0] in ROOT_TREES)
      && 0 < stamp <= now + 60_000_000_000 && 0 <= mode <= 4095
      && ((e["kind"] == Str("directory") && name !in ROOT_FILES) || (e["kind"] == Str("file") && GoodFileData(e)))
  }

  ghost predicate GoodFileData(e: Entry) {
    exists size: int, sha: string ::
      && "size" in e && e["size"] == Int(size) && "sha256" in e && e["sha256"] == Str(sha)
      && 0 <= size && |sha| == 64 && forall k :: 0 <= k < 64 ==> sha[k] in "0123456789abcdef"
  }

  lemma FileDataExactly(e: Entry)
    ensures FileDataOk(e) <==> GoodFileData(e)
  {
    if FileDataOk(e) {
      var sha := e["sha256"].s;
      forall k | 0 <= k < 64 ensures sha[k] in "0123456789abcdef" { HexDigitsAre(sha[k]); }
      assert e["size"] == Int(e["size"].i) && e["sha256"] == Str(sha);
    }
    if GoodFileData(e) {
      var sha := e["sha256"].s;
      forall k | 0 <= k < 64 ensures HexValue(sha[k]) >= 0 { HexDigitsAre(sha[k]); }
    }
  }

  lemma NameExactly(name: string)
    ensures NameOk(name) <==> PlainPath(name) && (name in ROOT_FILES || Split(name, '/')[0] in ROOT_TREES)
  {
    InputRootSets(name);
    InputRootSets(Split(name, '/')[0]);
    PlainPartsAreGood(name);
    NoMarks(name);
  }

  /** `CheckEntry` raises nothing exactly on good entries. */
  lemma EntryExactly(e: Entry, now: int)
    ensures EntryOk(Obj(e), now) <==> GoodEntry(e, now)
  {
    FileDataExactly(e);
    if "path" in e && e["path"].Str? {
      NameExactly(e["path"].s);
      InputRootSets(e["path"].s);
    }
    if EntryOk(Obj(e), now) {
      var name, stamp, mode := e["path"].s, e["mtime_ns"].i, e["mode"].i;
      assert e["path"] == Str(name) && e["mtime_ns"] == Int(stamp) && e["mode"] == Int(mode);
    }
  }

  ghost predicate GoodItems(items: seq<Json>, now: int) {
    forall k :: 0 <= k < |items| ==> items[k].Obj? && GoodEntry(items[k].fields, now)
  }

  ghost predicate NamesDiffer(fold: Fold, items: seq<Json>)
    requires forall k :: 0 <= k < |items| ==> items[k].Obj?
  {
    forall i, j :: 0 <= i < j < |items| ==> fold(PathOf(items[i].fields)) != fold(PathOf(items[j].fields))
  }

  /** Every nested path has its parent among the entries, as a directory. */
  ghost predicate NestedIn(index: Index) {
    forall n :: n in index && '/' in n ==>
      Parent(n) in index && "kind" in index[Parent(n)] && index[Parent(n)]["kind"] == Str("directory")
  }

  lemma ItemsExactly(items: seq<Json>, now: int)
    ensures ItemsOk(items, now) <==> GoodItems(items, now)
  {
    if ItemsOk(items, now) {
      forall k | 0 <= k < |items| ensures items[k].Obj? && GoodEntry(items[k].fields, now) {
        assert EntryOk(items[k], now);
        EntryExactly(items[k].fields, now);
      }
    }
    if GoodItems(items, now) {
      forall v | v in items ensures EntryOk(v, now) {
        var k :| 0 <= k < |items| && items[k] == v;
        EntryExactly(items[k].fields, now);
      }
    }
  }

  lemma NamesExactly(fold: Fold, items: seq<Json>)
    requires forall k :: 0 <= k < |items| ==> items[k].Obj?
    ensures FoldsDistinct(fold, items) <==> NamesDiffer(fold, items)
  {
    assert forall k :: 0 <= k < |items| ==> NameAt(items, k) == PathOf(items[k].fields);
    if NamesDiffer(fold, items) {
      forall i, j | 0 <= i < j < |items| ensures fold(NameAt(items, i)) != fold(NameAt(items, j)) {
        assert fold(PathOf(items[i].fields)) != fold(PathOf(items[j].fields));
      }
    }
  }

  lemma ParentsExactly(index: Index)
    ensures ParentsSaved(index) <==> NestedIn(index)
  {
  }

  /** What `validate` makes of the entries of a snapshot, all of it. */
  lemma EntriesExactly(h: Hash, fold: Fold, data: Json, profile: string, context: Json, now: int)
    requires HeaderOk(data, profile, context) && Get(data.fields, "entries").Arr?
    requires forall v :: v in Get(data.fields, "entries").items ==> v.Obj?
    ensures var items := Get(data.fields, "entries").items;
      Accepts(h, fold, data, profile, context, now) <==>
        && 1 <= |items| <= 30_000 && GoodItems(items, now) && NamesDiffer(fold, items) && NestedIn(IndexOf(items))
        && Get(data.fields, "inputHash") == Str(InputHash(h, Sort(ByPath, Fields(items))))
  {
    var items := Get(data.fields, "entries").items;
    assert forall k :: 0 <= k < |items| ==> items[k] in items;
    ItemsExactly(items, now);
    NamesExactly(fold, items);
    ParentsExactly(IndexOf(items));
  }

  /** A snapshot is bound to its schema, profile and context, to being cacheable, and to the hash of its entries. */
  lemma HeaderDecides(h: Hash, fold: Fold, f: Entry, g: Entry, p: string, c: Json, q: string, d: Json, now: int)
    requires Accepts(h, fold, Obj(f), p, c, now) && Accepts(h, fold, Obj(g), q, d, now)
    requires Get(f, "entries") == Get(g, "entries")
    ensures forall key :: key in {"schema", "cacheable", "inputHash"} ==> key in f && key in g && f[key] == g[key]
    ensures f["schema"] == Int(1) && f["cacheable"] == Bool(true)
    ensures Get(f, "profile") == Get(g, "profile") <==> p == q
    ensures Get(f, "context") == Get(g, "context") <==> c == d
  {
  }

  /** The checks on one entry, in the order `validate` makes them. */
  method CheckEntry(v: Json, now: int) returns (reason: string)
    ensures reason == "" <==> EntryOk(v, now)
  {
    if !v.Obj? { return "invalid-entry"; }
    var e := v.fields;
    if !Get(e, "path").Str? || !NameOk(PathOf(e)) { return "invalid-entry-path"; }
    if !MetadataOk(e, now) { return "invalid-entry-metadata"; }
    if Get(e, "kind") == Str("file") && !FileDataOk(e) { return "invalid-file-metadata"; }
    if PathOf(e) in FILES && Get(e, "kind") != Str("file") { return "root-input-not-file"; }
    return "";
  }

  method IndexEntries(fold: Fold, items: seq<Json>, now: int) returns (r: Validated)
    ensures r.Valid? <==> ItemsOk(items, now) && FoldsDistinct(fold, items)
    ensures r.Valid? ==> r.index == IndexOf(items)
  {
    var seen: set<string> := {};
    var indexed: Index := map[];
    for i := 0 to |items|
      invariant ItemsOk(items[..i], now) && FoldsDistinct(fold, items[..i])
      invariant SeenAre(fold, items, i, seen)
      invariant indexed == IndexOf(items[..i])
    {
      assert items[i] in items;
      assert items[..i + 1] == items[..i] + [items[i]] && Front(items[..i + 1]) == items[..i];
      var reason := CheckEntry(items[i], now);
      if reason != "" { return Invalid(reason); }
      var e := items[i].fields;
      var name := PathOf(e);
      if fold(name) in seen {
        SeenTwice(fold, items, i, seen);
        return Invalid("duplicate-entry");
      }
      SeenGrow(fold, items, i, seen);
      FoldsGrow(fold, items, i);
      seen := seen + {fold(name)};
      indexed := indexed[name := e];
    }
    assert items[..|items|] == items;
    return Valid(indexed);
  }

  /** `seen` holds the folded names of the first `i` entries. */
  ghost predicate SeenAre(fold: Fold, items: seq<Json>, i: nat, seen: set<string>)
    requires i <= |items|
  {
    && (forall k :: 0 <= k < i ==> fold(NameAt(items, k)) in seen)
    && (forall s :: s in seen ==> exists k :: 0 <= k < i && fold(NameAt(items, k)) == s)
  }

  lemma SeenGrow(fold: Fold, items: seq<Json>, i: nat, seen: set<string>)
    requires i < |items| && SeenAre(fold, items, i, seen)
    ensures SeenAre(fold, items, i + 1, seen + {fold(NameAt(items, i))})
  {
    var now := seen + {fold(NameAt(items, i))};
    forall s | s in now ensures exists k :: 0 <= k < i + 1 && fold(NameAt(items, k)) == s {
      if s in seen {
        var k :| 0 <= k < i && fold(NameAt(items, k)) == s;
      } else {
        assert fold(NameAt(items, i)) == s;
      }
    }
  }

  lemma SeenTwice(fold: Fold, items: seq<Json>, i: nat, seen: set<string>)
    requires i < |items| && SeenAre(fold, items, i, seen) && fold(NameAt(items, i)) in seen
    ensures !FoldsDistinct(fold, items)
  {
    var k :| 0 <= k < i && fold(NameAt(items, k)) == fold(NameAt(items, i));
  }

  lemma FoldsGrow(fold: Fold, items: seq<Json>, i: nat)
    requires i < |items| && FoldsDistinct(fold, items[..i])
    requires forall k :: 0 <= k < i ==> fold(NameAt(items, k)) != fold(NameAt(items, i))
    ensures FoldsDistinct(fold, items[..i + 1])
  {
    var next, before := items[..i + 1], items[..i];
    forall a, b | 0 <= a < b < |next| ensures fold(NameAt(next, a)) != fold(NameAt(next, b)) {
      assert NameAt(next, a) == NameAt(items, a) && NameAt(next, b) == NameAt(items, b);
      if b < i { assert NameAt(before, a) == NameAt(items, a) && NameAt(before, b) == NameAt(items, b); }
    }
  }

  method CheckParents(index: Index) returns (ok: bool)
    ensures ok <==> ParentsSaved(index)
  {
    var names := KeyList(index);
    for i := 0 to |names|
      invariant forall k :: 0 <= k < i && '/' in names[k] ==>
        Parent(names[k]) in index && IsDirectory(index[Parent(names[k])])
    {
      var p := Parent(names[i]);
      if '/' in names[i] && !(p in index && IsDirectory(index[p])) {
        assert names[i] in names;
        return false;
      }
    }
    forall n | n in index && '/' in n ensures Parent(n) in index && IsDirectory(index[Parent(n)]) {
      assert n in names;
    }
    return true;
  }

  method Validate(h: Hash, fold: Fold, data: Json, profile: string, context: Json, now: int) returns (r: Validated)
    ensures r.Valid? <==> Accepts(h, fold, data, profile, context, now)
    ensures r.Valid? ==> r.index == IndexOf(Get(data.fields, "entries").items)
  {
    if !HeaderOk(data, profile, context) { return Invalid("snapshot-context-or-schema-mismatch"); }
    var entries := Get(data.fields, "entries");
    if !entries.Arr? || !(1 <= |entries.items| <= MAX_INPUTS) { return Invalid("snapshot-entry-limit"); }
    r := IndexEntries(fold, entries.items, now);
    if r.Invalid? { return; }
    var ok := CheckParents(r.index);
    if !ok { return Invalid("missing-parent"); }
    if Get(data.fields, "inputHash") != Str(InputHash(h, Sort(ByPath, Fields(entries.items)))) {
      return Invalid("snapshot-content-hash-mismatch");
    }
  }
}
