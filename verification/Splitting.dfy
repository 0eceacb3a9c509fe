/** Characters and lists of strings: `str.split(c)` and how it behaves under concatenation. */
module Splitting {

  function Split(s: string, c: char): (r: seq<string>)
    ensures |r| >= 1
  {
    if s == [] then [[]]
    else if s[0] == c then [[]] + Split(s[1..], c)
    else
      var rest := Split(s[1..], c);
      [[s[0]] + rest[0]] + rest[1..]
  }

  /** The pieces put back together. */
  function Join(parts: seq<string>, c: char): string
    requires parts != []
  {
    if |parts| == 1 then parts[0] else parts[0] + [c] + Join(parts[1..], c)
  }

  function Last<T>(xs: seq<T>): T
    requires xs != []
  {
    xs[|xs| - 1]
  }

  function Front<T>(xs: seq<T>): seq<T>
    requires xs != []
  {
    xs[..|xs| - 1]
  }

  /** The parts one after the other. */
  function Concat(parts: seq<string>): string {
    if parts == [] then [] else Concat(Front(parts)) + Last(parts)
  }

  lemma {:induction false} ConcatAppend(a: seq<string>, b: seq<string>)
    ensures Concat(a + b) == Concat(a) + Concat(b)
  {
    if b == [] {
      assert a + b == a;
    } else {
      var c := a + b;
      assert Front(c) == a + Front(b) && Last(c) == Last(b);
      ConcatAppend(a, Front(b));
      assert Concat(c) == Concat(Front(c)) + Last(c);
    }
  }

  predicate IsDigit(c: char) { '0' <= c <= '9' }

  lemma {:induction false} SplitPieces(s: string, c: char)
    ensures forall k :: 0 <= k < |Split(s, c)| ==> c !in Split(s, c)[k]
    ensures Join(Split(s, c), c) == s
  {
    if s != [] {
      SplitPieces(s[1..], c);
      var rest, all := Split(s[1..], c), Split(s, c);
      if s[0] == c {
        assert all[1..] == rest;
      } else {
        assert all[1..] == rest[1..];
      }
      assert s == [s[0]] + s[1..];
    }
  }

  lemma {:induction false} SplitOfPiece(s: string, c: char)
    requires c !in s
    ensures Split(s, c) == [s]
  {
    if s != [] {
      assert s == [s[0]] + s[1..];
      SplitOfPiece(s[1..], c);
      assert [[s[0]] + s[1..]] == [s];
    }
  }

  /** The last piece of one list continued by the first piece of the other. */
  function Glue(p: seq<string>, q: seq<string>): (r: seq<string>)
    requires p != [] && q != []
    ensures |r| == |p| + |q| - 1
  {
    Front(p) + [Last(p) + q[0]] + q[1..]
  }

  lemma GlueHead(x: string, p: seq<string>, q: seq<string>)
    requires p != [] && q != []
    ensures Glue([x] + p, q) == [x] + Glue(p, q)
    ensures Glue([x + p[0]] + p[1..], q) == [x + Glue(p, q)[0]] + Glue(p, q)[1..]
  {
    assert Front([x] + p) == [x] + Front(p);
    var e := [x + p[0]] + p[1..];
    if |p| == 1 {
      assert Glue(e, q) == [(x + p[0]) + q[0]] + q[1..];
      assert (x + p[0]) + q[0] == x + (p[0] + q[0]);
    } else {
      assert Front(e) == [x + p[0]] + Front(p)[1..] && Last(e) == Last(p);
    }
  }

  /** Text that arrives in two parts: the unfinished last piece of the first is continued by the second. */
  lemma {:induction false} SplitConcat(a: string, b: string, c: char)
    ensures Split(a + b, c) == Glue(Split(a, c), Split(b, c))
  {
    if a == [] {
      assert a + b == b;
      assert Split(b, c)[0] == [] + Split(b, c)[0];
    } else {
      SplitConcat(a[1..], b, c);
      assert (a + b)[1..] == a[1..] + b;
      if a[0] == c {
        GlueHead([], Split(a[1..], c), Split(b, c));
      } else {
        GlueHead([a[0]], Split(a[1..], c), Split(b, c));
      }
    }
  }
}
