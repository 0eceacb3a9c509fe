/**
 * The restore statements are not vacuous: two versions of a one-file workspace and a hash with 64 hexadecimal digits.
 */
module Witness {
  import opened Ordering
  import opened Paths
  import opened CanonicalJson
  import opened SubtreeHashes
  import opened FileTree
  import opened Stamping
  import opened SourceStamps
  import opened Workspace
  import opened Snapshot
  import opened Capture
  import opened RestoreSafety

  const NAME := "Cargo.toml"

  function OneFile(content: string, stamp: int): Tree {
    map[NAME := File(0x1A4, stamp, content)]
  }

  function Digits64(c: char): (r: string)
    ensures |r| == 64 && forall k :: 0 <= k < 64 ==> r[k] == c
  {
    seq(64, i => c)
  }

  /** Tells the second content, and the text `special`, from everything else. */
  function HashFor(special: string): Hash {
    x => if x == "b" || x == special then Digits64('1') else Digits64('0')
  }

  function TextOf(h: Hash, content: string): string {
    Print(NodeJson(EntryOf(h, NAME, File(0x1A4, 1, content)), []))
  }

  lemma {:induction false} NoTrees(t: Tree, i: nat)
    requires i <= |TREES| && t.Keys == {NAME}
    ensures AllScannable(t, TREES, i)
  {
    if i > 0 { NoTrees(t, i - 1); }
  }

  lemma OneFileIsReadable(content: string, stamp: int)
    ensures WellFormed(OneFile(content, stamp)) && Readable(OneFile(content, stamp))
    ensures InputNames(OneFile(content, stamp)) == {NAME}
  {
    var t := OneFile(content, stamp);
    NameIsGood();
    NoTrees(t, |TREES|);
    assert FILES[0] == NAME;
    assert InputNames(t) == {NAME};
    assert forall k :: 0 <= k < |FILES| && FILES[k] in t ==> FILES[k] == NAME;
  }

  lemma NameIsGood()
    ensures '/' !in NAME && GoodName(NAME)
  {
    SplitOfName();
  }

  lemma SplitOfName()
    ensures '/' !in NAME && Splitting.Split(NAME, '/') == [NAME]
  {
    Splitting.SplitOfPiece(NAME, '/');
  }

  /** The one text hashed for the tree as a subtree. */
  lemma OneText(h: Hash, content: string, stamp: int)
    ensures "" !in CurrentIndex(h, OneFile(content, stamp))
    ensures Preimages(h, CurrentIndex(h, OneFile(content, stamp))) == {TextOf(h, content)}
  {
    OneFileIsReadable(content, stamp);
    NameIsGood();
    var m := CurrentIndex(h, OneFile(content, stamp));
    assert m.Keys == {NAME};
    assert Children(m, NAME) == {} by { ParentFacts(NAME); }
    assert ChildList(m, NAME) == [];
    IdentityIgnoresTime(h, NAME, File(0x1A4, stamp, content), 1);
    assert Preimage(h, m, NAME) == TextOf(h, content);
  }

  lemma HashIsHex(special: string)
    ensures HexDigests(HashFor(special))
  {
    HexRoundTrip(0);
    HexRoundTrip(1);
    forall x ensures IsHex64(HashFor(special)(x)) {
      var d := HashFor(special)(x);
      assert d == Digits64('0') || d == Digits64('1');
    }
  }

  lemma HashTells(special: string, x: string, y: string)
    requires x == "b" || x == special
    requires y != "b" && y != special
    ensures HashFor(special)(x) != HashFor(special)(y)
  {
    assert Digits64('0')[0] != Digits64('1')[0];
  }

  lemma ContentOfOne(content: string, stamp: int)
    ensures Contents(OneFile(content, stamp)) == {content}
  {
    var t := OneFile(content, stamp);
    assert NAME in t && t[NAME].File? && t[NAME].content == content;
  }

  lemma ArrayStart(items: seq<Json>)
    ensures Print(Arr(items)) != [] && Print(Arr(items))[0] == '['
  {
  }

  lemma TextStart(h: Hash, content: string)
    ensures TextOf(h, content) != "b"
  {
    ArrayStart([Obj(Identity(EntryOf(h, NAME, File(0x1A4, 1, content)))), Arr(Strs([]))]);
  }

  lemma DigestsDiffer(h: Hash)
    requires h("a") != h("b")
    ensures TextOf(h, "a") != TextOf(h, "b")
  {
    var a, b := EntryOf(h, NAME, File(0x1A4, 1, "a")), EntryOf(h, NAME, File(0x1A4, 1, "b"));
    assert Identity(a)["sha256"] != Identity(b)["sha256"];
    if TextOf(h, "a") == TextOf(h, "b") { NodeJsonInjective(a, [], b, []); }
  }

  /** The text hashed for the second version does not depend on which text the hash is made to tell apart. */
  lemma SpecialText(special: string)
    requires special == TextOf(HashFor(""), "b")
    ensures TextOf(HashFor(special), "b") == special && TextOf(HashFor(special), "a") != special
  {
    var h := HashFor(special);
    assert h("b") == HashFor("")("b");
    assert EntryOf(h, NAME, File(0x1A4, 1, "b")) == EntryOf(HashFor(""), NAME, File(0x1A4, 1, "b"));
    TextStart(HashFor(""), "b");
    SpecialIsLong(special);
    HashTells(special, "b", "a");
    DigestsDiffer(h);
  }

  lemma SpecialIsLong(special: string)
    requires special == TextOf(HashFor(""), "b")
    ensures special != "a"
  {
    ArrayStart([Obj(Identity(EntryOf(HashFor(""), NAME, File(0x1A4, 1, "b")))), Arr(Strs([]))]);
  }

  lemma Edited()
    ensures NAME in InputNames(OneFile("a", 1)) && NAME in InputNames(OneFile("b", 2))
    ensures !SameContentBelow(OneFile("a", 1), OneFile("b", 2), NAME)
  {
    var s, t := OneFile("a", 1), OneFile("b", 2);
    OneFileIsReadable("a", 1);
    OneFileIsReadable("b", 2);
    assert t[NAME] != WithTime(s[NAME], t[NAME].mtime);
    assert Below(NAME, NAME) && !SameContentAt(s, t, NAME);
  }

  lemma NoCollision(h: Hash, x: string, y: string)
    requires h(x) != h(y)
    ensures CollisionFree(h, {x} + {y})
  {
  }

  /**
   * An edit of the one file: all that the restore and verify statements ask for holds, and the file counts as changed.
   */
  lemma EditedFile() returns (h: Hash, s: Tree, t: Tree)
    ensures HexDigests(h) && WellFormed(s) && Readable(s) && Situation(h, t, CurrentIndex(h, s))
    ensures CollisionFree(h, Contents(s) + Contents(t))
    ensures NAME in InputNames(s) && NAME in InputNames(t) && !SameContentBelow(s, t, NAME)
  {
    var special := TextOf(HashFor(""), "b");
    h, s, t := HashFor(special), OneFile("a", 1), OneFile("b", 2);
    HashIsHex(special);
    SpecialText(special);
    SpecialIsLong(special);
    TextStart(h, "a");
    HashTells(special, "b", "a");
    HashTells(special, special, TextOf(h, "a"));
    NoCollision(h, "a", "b");
    NoCollision(h, TextOf(h, "a"), special);
    ContentOfOne("a", 1);
    ContentOfOne("b", 2);
    Edited();
    OneSituation(h);
  }

  lemma OneSituation(h: Hash)
    requires CollisionFree(h, {TextOf(h, "a")} + {TextOf(h, "b")})
    ensures WellFormed(OneFile("a", 1)) && Readable(OneFile("a", 1))
    ensures Situation(h, OneFile("b", 2), CurrentIndex(h, OneFile("a", 1)))
  {
    OneFileIsReadable("a", 1);
    OneFileIsReadable("b", 2);
    OneText(h, "a", 1);
    OneText(h, "b", 2);
    CurrentIsGood(h, OneFile("a", 1));
  }
}
