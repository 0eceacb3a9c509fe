/**
 * scripts/cargo-cache-live.py: `drain`, the incremental splitting of growing log files into lines.
 * The decoder is any transducer that consumes one byte at a time, as an incremental decoder does.
 */
module LogStream {
  import opened Splitting

  const READ_SIZE: nat := 256 * 1024
  const MAX_PENDING: nat := 64 * 1024

  type Byte = b: int | 0 <= b < 256

  /** An incremental decoder: its state after a byte, and the text the byte completes. */
  datatype Decoder<!S> = Decoder(start: S, next: (S, Byte) -> (S, string), finish: S -> string)

  function DecodeState<S>(d: Decoder<S>, s: S, bytes: seq<Byte>): S {
    if bytes == [] then s else d.next(DecodeState(d, s, Front(bytes)), Last(bytes)).0
  }

  function DecodeText<S>(d: Decoder<S>, s: S, bytes: seq<Byte>): string {
    if bytes == [] then []
    else DecodeText(d, s, Front(bytes)) + d.next(DecodeState(d, s, Front(bytes)), Last(bytes)).1
  }

  /** The incremental law: decoding in two calls is decoding in one. */
  lemma {:induction false} DecodeConcat<S>(d: Decoder<S>, s: S, a: seq<Byte>, b: seq<Byte>)
    ensures DecodeState(d, s, a + b) == DecodeState(d, DecodeState(d, s, a), b)
    ensures DecodeText(d, s, a + b) == DecodeText(d, s, a) + DecodeText(d, DecodeState(d, s, a), b)
  {
    if b == [] {
      assert a + b == a;
      assert DecodeText(d, s, a) + [] == DecodeText(d, s, a);
    } else {
      DecodeConcat(d, s, a, Front(b));
      assert Front(a + b) == a + Front(b) && Last(a + b) == Last(b);
      var x, y := DecodeText(d, s, a), DecodeText(d, DecodeState(d, s, a), Front(b));
      var z := d.next(DecodeState(d, DecodeState(d, s, a), Front(b)), Last(b)).1;
      assert (x + y) + z == x + (y + z);
    }
  }

  lemma ConcatOne(texts: seq<string>, text: string)
    ensures Concat(texts + [text]) == Concat(texts) + text
  {
    assert Front(texts + [text]) == texts;
  }

  lemma DecodeMore<S>(d: Decoder<S>, bytes: seq<Byte>, position: nat, size: nat)
    requires position + size <= |bytes|
    ensures var state, data := DecodeState(d, d.start, bytes[..position]), bytes[position..position + size];
      && DecodeState(d, d.start, bytes[..position + size]) == DecodeState(d, state, data)
      && DecodeText(d, d.start, bytes[..position + size])
         == DecodeText(d, d.start, bytes[..position]) + DecodeText(d, state, data)
  {
    DecodeConcat(d, d.start, bytes[..position], bytes[position..position + size]);
    assert bytes[..position] + bytes[position..position + size] == bytes[..position + size];
  }

  /** The decoder's state and the texts so far are those of the first `position` bytes. */
  ghost predicate Decoded<S>(d: Decoder<S>, bytes: seq<Byte>, position: nat, state: S, texts: seq<string>) {
    && position <= |bytes|
    && state == DecodeState(d, d.start, bytes[..position])
    && Concat(texts) == DecodeText(d, d.start, bytes[..position])
  }

  lemma DecodedMore<S>(d: Decoder<S>, bytes: seq<Byte>, position: nat, size: nat, state: S, texts: seq<string>)
    requires Decoded(d, bytes, position, state, texts) && position + size <= |bytes|
    ensures var data := bytes[position..position + size];
      Decoded(d, bytes, position + size, DecodeState(d, state, data), texts + [DecodeText(d, state, data)])
  {
    DecodeMore(d, bytes, position, size);
    ConcatOne(texts, DecodeText(d, state, bytes[position..position + size]));
  }

  /** `stream['decoder'].decode(data, final=False)` for the next `size` bytes. */
  method DecodeNext<S>(d: Decoder<S>, bytes: seq<Byte>, position: nat, size: nat, state: S, ghost texts: seq<string>)
    returns (text: string, next: S)
    requires Decoded(d, bytes, position, state, texts) && position + size <= |bytes|
    ensures Decoded(d, bytes, position + size, next, texts + [text])
    ensures size == 0 ==> text == [] && next == state
  {
    var data := bytes[position..position + size];
    DecodedMore(d, bytes, position, size, state, texts);
    text, next := DecodeText(d, state, data), DecodeState(d, state, data);
  }

  /** `line.rstrip('\r')` */
  function StripCr(line: string): string {
    if line != [] && Last(line) == '\r' then StripCr(Front(line)) else line
  }

  function Stripped(lines: seq<string>): (r: seq<string>)
    ensures |r| == |lines|
  {
    seq(|lines|, i requires 0 <= i < |lines| => StripCr(lines[i]))
  }

  /** All carriage returns at the end of a line go, and nothing else. */
  lemma {:induction false} StripsExactly(line: string)
    ensures StripCr(line) <= line
    ensures forall k :: |StripCr(line)| <= k < |line| ==> line[k] == '\r'
    ensures StripCr(line) == "" || StripCr(line)[|StripCr(line)| - 1] != '\r'
  {
    if line != [] && Last(line) == '\r' { StripsExactly(Front(line)); }
  }

  /** The lines of a text: each of its terminated lines, in order, without the carriage returns at its end. */
  lemma LinesExactly(text: string, k: nat)
    requires k < |LinesOf(text)|
    ensures |LinesOf(text)| == |Split(text, '\n')| - 1
    ensures var line, piece := LinesOf(text)[k], Split(text, '\n')[k];
      && line <= piece && (forall j :: |line| <= j < |piece| ==> piece[j] == '\r')
      && (line == "" || line[|line| - 1] != '\r') && '\n' !in line
  {
    StripsExactly(Split(text, '\n')[k]);
    SplitPieces(text, '\n');
  }

  // ----- The specification of one stream: what is pending and what was emitted -----

  datatype Lines = Lines(pending: string, emitted: seq<string>, flushes: nat)

  /** One `drain` turn of one stream, given the text decoded from what was read. */
  function Feed(s: Lines, text: string): Lines {
    var pieces := Split(s.pending + text, '\n');
    var emitted := s.emitted + Stripped(Front(pieces));
    if |Last(pieces)| > MAX_PENDING then Lines([], emitted + [Last(pieces)], s.flushes + 1)
    else Lines(Last(pieces), emitted, s.flushes)
  }

  function FeedAll(s: Lines, texts: seq<string>): Lines {
    if texts == [] then s else Feed(FeedAll(s, Front(texts)), Last(texts))
  }

  /** The end of the stream: a nonempty tail is a line of its own. */
  function Finish(s: Lines, rest: string): Lines {
    var tail := s.pending + rest;
    s.(pending := [], emitted := s.emitted + if tail != [] then [tail] else [])
  }

  function Start(): Lines { Lines([], [], 0) }

  /** The lines of a whole text: the newline split, trailing carriage returns stripped. */
  function LinesOf(text: string): seq<string> { Stripped(Front(Split(text, '\n'))) }

  lemma StrippedConcat(a: seq<string>, b: seq<string>)
    ensures Stripped(a + b) == Stripped(a) + Stripped(b)
  {
  }

  lemma PendingIsOnePiece(text: string)
    ensures Split(Last(Split(text, '\n')), '\n') == [Last(Split(text, '\n'))]
  {
    SplitPieces(text, '\n');
    SplitOfPiece(Last(Split(text, '\n')), '\n');
  }

  lemma GlueParts(p: seq<string>, q: seq<string>)
    requires p != [] && q != []
    ensures Front(Glue(p, q)) == Front(p) + Front(Glue([Last(p)], q))
    ensures Last(Glue(p, q)) == Last(Glue([Last(p)], q))
  {
    var head := [Last(p) + q[0]];
    assert Glue([Last(p)], q) == head + q[1..];
    assert Glue(p, q) == Front(p) + (head + q[1..]);
  }

  /** More text after `done`: only the unfinished last piece of `done` matters. */
  lemma ContinueSplit(done: string, text: string)
    ensures Front(Split(done + text, '\n'))
      == Front(Split(done, '\n')) + Front(Split(Last(Split(done, '\n')) + text, '\n'))
    ensures Last(Split(done + text, '\n')) == Last(Split(Last(Split(done, '\n')) + text, '\n'))
  {
    SplitConcat(done, text, '\n');
    SplitConcat(Last(Split(done, '\n')), text, '\n');
    PendingIsOnePiece(done);
    GlueParts(Split(done, '\n'), Split(text, '\n'));
  }

  lemma {:induction false} FlushesGrow(s: Lines, texts: seq<string>)
    ensures s.flushes <= FeedAll(s, texts).flushes
  {
    if texts != [] { FlushesGrow(s, Front(texts)); }
  }

  /** From any point on, while nothing is flushed, only the text matters and not its chunks. */
  lemma {:induction false} ChunksFrom(s: Lines, texts: seq<string>)
    requires '\n' !in s.pending && FeedAll(s, texts).flushes == s.flushes
    ensures FeedAll(s, texts).emitted == s.emitted + LinesOf(s.pending + Concat(texts))
    ensures FeedAll(s, texts).pending == Last(Split(s.pending + Concat(texts), '\n'))
  {
    if texts == [] {
      NothingFed(s);
    } else {
      var front, text := Front(texts), Last(texts);
      var done := s.pending + Concat(front);
      FlushesGrow(s, front);
      ChunksFrom(s, front);
      ConcatMore(s.pending, texts);
      FeedContinues(s.emitted, done, FeedAll(s, front), text);
    }
  }

  lemma ConcatMore(p: string, texts: seq<string>)
    requires texts != []
    ensures (p + Concat(Front(texts))) + Last(texts) == p + Concat(texts)
  {
  }

  lemma NothingFed(s: Lines)
    requires '\n' !in s.pending
    ensures s.emitted == s.emitted + LinesOf(s.pending + Concat([]))
      && s.pending == Last(Split(s.pending + Concat([]), '\n'))
  {
    SplitOfPiece(s.pending, '\n');
    assert s.pending + Concat([]) == s.pending;
    assert LinesOf(s.pending) == [];
  }

  lemma FeedContinues(emitted: seq<string>, done: string, before: Lines, text: string)
    requires before.pending == Last(Split(done, '\n')) && before.emitted == emitted + LinesOf(done)
    requires Feed(before, text).flushes == before.flushes
    ensures Feed(before, text).emitted == emitted + LinesOf(done + text)
    ensures Feed(before, text).pending == Last(Split(done + text, '\n'))
  {
    ContinueSplit(done, text);
    var more := Front(Split(before.pending + text, '\n'));
    StrippedConcat(Front(Split(done, '\n')), more);
    AssociateLines(emitted, LinesOf(done), Stripped(more));
  }

  lemma AssociateLines(a: seq<string>, b: seq<string>, c: seq<string>)
    ensures a + (b + c) == (a + b) + c
  {
  }

  /**
   * However the stream was cut into chunks: without a forced flush, the emitted lines are those of the whole text
   * and what is pending is its unfinished last line.
   */
  lemma ChunksDoNotMatter(texts: seq<string>)
    requires FeedAll(Start(), texts).flushes == 0
    ensures FeedAll(Start(), texts).emitted == LinesOf(Concat(texts))
    ensures FeedAll(Start(), texts).pending == Last(Split(Concat(texts), '\n'))
  {
    ChunksFrom(Start(), texts);
    assert [] + Concat(texts) == Concat(texts);
  }

  lemma {:induction false} EmittedCount(texts: seq<string>)
    ensures |FeedAll(Start(), texts).emitted| == |Split(Concat(texts), '\n')| - 1 + FeedAll(Start(), texts).flushes
    ensures '\n' !in FeedAll(Start(), texts).pending
  {
    if texts != [] {
      var front, text := Front(texts), Last(texts);
      var before := FeedAll(Start(), front);
      EmittedCount(front);
      SplitConcat(Concat(front), text, '\n');
      SplitConcat(before.pending, text, '\n');
      SplitOfPiece(before.pending, '\n');
      SplitPieces(before.pending + text, '\n');
    }
  }

  /** The unterminated text at the end of the first `k` chunks. */
  function Unterminated(texts: seq<string>, k: nat): string
    requires k <= |texts|
  {
    Last(Split(Concat(texts[..k]), '\n'))
  }

  /** No unterminated text exceeds the limit at the end of any chunk. */
  ghost predicate WithinLimit(texts: seq<string>) {
    forall k :: 0 <= k <= |texts| ==> |Unterminated(texts, k)| <= 65_536
  }

  lemma WithinLimitStep(texts: seq<string>)
    requires texts != []
    ensures WithinLimit(texts) <==> WithinLimit(Front(texts)) && |Unterminated(texts, |texts|)| <= MAX_PENDING
  {
    assert forall k :: 0 <= k < |texts| ==> Front(texts)[..k] == texts[..k];
    if WithinLimit(texts) {
      forall k | 0 <= k <= |Front(texts)| ensures |Unterminated(Front(texts), k)| <= MAX_PENDING {
        assert |Unterminated(texts, k)| <= MAX_PENDING;
      }
    }
    if WithinLimit(Front(texts)) && |Unterminated(texts, |texts|)| <= MAX_PENDING {
      forall k | 0 <= k <= |texts| ensures |Unterminated(texts, k)| <= MAX_PENDING {
        if k < |texts| { assert |Unterminated(Front(texts), k)| <= MAX_PENDING; }
      }
    }
  }

  /** Exactly when nothing is ever flushed. */
  lemma {:induction false} FlushesExactly(texts: seq<string>)
    ensures FeedAll(Start(), texts).flushes == 0 <==> WithinLimit(texts)
  {
    if texts != [] {
      var front, text := Front(texts), Last(texts);
      FlushesExactly(front);
      WithinLimitStep(texts);
      if FeedAll(Start(), front).flushes == 0 {
        ChunksDoNotMatter(front);
        ContinueSplit(Concat(front), text);
        assert texts[..|texts|] == texts;
      }
    }
  }

  /** The emitted lines are those of the whole text exactly while no unterminated text exceeds the limit. */
  lemma LinesExactlyWithinLimit(texts: seq<string>)
    ensures FeedAll(Start(), texts).emitted == LinesOf(Concat(texts)) <==> WithinLimit(texts)
  {
    EmittedCount(texts);
    FlushesExactly(texts);
    if WithinLimit(texts) { ChunksDoNotMatter(texts); }
    assert |LinesOf(Concat(texts))| == |Split(Concat(texts), '\n')| - 1;
  }

  // ----- Every way of cutting a text -----

  /** No line of the text, finished or not, is longer than the limit. */
  ghost predicate ShortLines(text: string) {
    forall k :: 0 <= k < |Split(text, '\n')| ==> |Split(text, '\n')[k]| <= 65_536
  }

  lemma ShortLinesPrefix(a: string, b: string)
    requires ShortLines(a + b)
    ensures ShortLines(a)
  {
    var p, q := Split(a, '\n'), Split(b, '\n');
    SplitConcat(a, b, '\n');
    forall k | 0 <= k < |p| ensures |p[k]| <= MAX_PENDING {
      assert k < |p| - 1 ==> Glue(p, q)[k] == p[k];
      assert Glue(p, q)[|p| - 1] == Last(p) + q[0];
    }
  }

  lemma ShortLinesAreWithinLimit(texts: seq<string>)
    requires ShortLines(Concat(texts))
    ensures WithinLimit(texts)
  {
    forall k | 0 <= k <= |texts| ensures |Unterminated(texts, k)| <= MAX_PENDING {
      assert texts == texts[..k] + texts[k..];
      ConcatAppend(texts[..k], texts[k..]);
      ShortLinesPrefix(Concat(texts[..k]), Concat(texts[k..]));
    }
  }

  /** Some chunk may end where the `k`-th line does. */
  lemma {:induction false} CutAfterLine(text: string, k: nat) returns (a: string, b: string)
    requires k < |Split(text, '\n')|
    ensures text == a + b && |Split(a, '\n')| == k + 1 && Last(Split(a, '\n')) == Split(text, '\n')[k]
  {
    if text == [] || (text[0] == '\n' && k == 0) {
      a, b := [], text;
    } else {
      var x;
      x, b := CutAfterLine(text[1..], if text[0] == '\n' then k - 1 else k);
      a := [text[0]] + x;
      assert a[1..] == x && text == [text[0]] + text[1..];
    }
  }

  /** The lines come out right whatever the chunks exactly when no line of the text is over the limit. */
  lemma AllChunkingsExactly(text: string)
    ensures ShortLines(text)
      <==> forall texts :: Concat(texts) == text ==> FeedAll(Start(), texts).emitted == LinesOf(text)
  {
    if ShortLines(text) {
      forall texts | Concat(texts) == text ensures FeedAll(Start(), texts).emitted == LinesOf(text) {
        ShortLinesAreWithinLimit(texts);
        LinesExactlyWithinLimit(texts);
      }
    } else {
      var k :| 0 <= k < |Split(text, '\n')| && |Split(text, '\n')[k]| > MAX_PENDING;
      var a, b := CutAfterLine(text, k);
      TwoChunks(a, b);
      LinesExactlyWithinLimit([a, b]);
      assert |Unterminated([a, b], 1)| > MAX_PENDING;
    }
  }

  lemma TwoChunks(a: string, b: string)
    ensures Concat([a, b]) == a + b && Concat([a, b][..1]) == a
  {
    assert Front([a, b]) == [a] == [a, b][..1] && Front([a]) == [];
    assert Concat([a]) == [] + a;
  }

  // ----- The whole stream, with its tail -----

  /** What should come out of a stream: the lines of its text, and its unterminated rest if there is any. */
  function Whole(text: string, rest: string): seq<string> {
    var tail := Last(Split(text, '\n')) + rest;
    LinesOf(text) + if tail != [] then [tail] else []
  }

  /** The only text flushed early is one that nothing follows. */
  ghost predicate NothingAfterFlush(texts: seq<string>, rest: string) {
    forall k :: 0 <= k <= |texts| && |Unterminated(texts, k)| > 65_536 ==>
      (Concat(texts[..k]) == Concat(texts) && rest == [])
  }

  lemma {:induction false} FeedAllConcat(s: Lines, a: seq<string>, b: seq<string>)
    ensures FeedAll(s, a + b) == FeedAll(FeedAll(s, a), b)
  {
    if b == [] {
      assert a + b == a;
    } else {
      assert Front(a + b) == a + Front(b) && Last(a + b) == Last(b);
      FeedAllConcat(s, a, Front(b));
    }
  }

  lemma {:induction false} EmptyChunks(s: Lines, texts: seq<string>)
    requires s.pending == [] && Concat(texts) == []
    ensures FeedAll(s, texts) == s
  {
    if texts != [] {
      EmptyChunks(s, Front(texts));
      var nothing: string := [];
      assert Split(nothing, '\n') == [nothing] && Front([nothing]) == [];
      assert s.emitted + Stripped([]) == s.emitted;
    }
  }

  lemma NothingIsWithinLimit()
    ensures WithinLimit([])
  {
    assert forall k :: 0 <= k <= 0 ==> Unterminated([], k) == [];
  }

  /** The first chunk at whose end the unterminated text exceeds the limit. */
  lemma {:induction false} FirstOverdue(texts: seq<string>) returns (k: nat)
    requires !WithinLimit(texts)
    ensures 0 < k <= |texts| && |Unterminated(texts, k)| > MAX_PENDING && WithinLimit(texts[..k - 1])
  {
    NothingIsWithinLimit();
    if texts != [] {
      WithinLimitStep(texts);
      if WithinLimit(Front(texts)) {
        k := |texts|;
      } else {
        k := FirstOverdue(Front(texts));
        assert Front(texts)[..k] == texts[..k] && Front(texts)[..k - 1] == texts[..k - 1];
      }
    }
  }

  lemma FlushedThere(texts: seq<string>)
    requires texts != [] && WithinLimit(Front(texts)) && |Unterminated(texts, |texts|)| > MAX_PENDING
    ensures FeedAll(Start(), texts)
      == Lines([], LinesOf(Concat(texts)) + [Unterminated(texts, |texts|)], 1)
  {
    var front, text := Front(texts), Last(texts);
    var before := FeedAll(Start(), front);
    FlushesExactly(front);
    ChunksDoNotMatter(front);
    ContinueSplit(Concat(front), text);
    assert texts[..|texts|] == texts;
    StrippedConcat(Front(Split(Concat(front), '\n')), Front(Split(before.pending + text, '\n')));
  }

  /** Text after a flush is never where it belongs: it is cut off from its line. */
  lemma CutOff(p: string, y: string)
    requires y != [] && Last(Split(y, '\n')) == []
    ensures Last(Split(p + y, '\n')) == []
  {
    var q := Split(y, '\n');
    SplitConcat(p, y, '\n');
    OnePiece(y);
    LastOfGlue(Split(p, '\n'), q);
  }

  lemma OnePiece(y: string)
    ensures |Split(y, '\n')| == 1 ==> Last(Split(y, '\n')) == y
  {
    SplitPieces(y, '\n');
  }

  lemma LastOfGlue(p: seq<string>, q: seq<string>)
    requires p != [] && |q| > 1
    ensures Last(Glue(p, q)) == Last(q)
  {
  }

  /** After a flush, the outcome can only have as many lines as it should if that was the end of it. */
  lemma FlushedOnceAtEnd(texts: seq<string>, rest: string)
    requires FeedAll(Start(), texts).flushes >= 1
    requires Finish(FeedAll(Start(), texts), rest).emitted == Whole(Concat(texts), rest)
    ensures FeedAll(Start(), texts).flushes == 1 && FeedAll(Start(), texts).pending == [] && rest == []
    ensures Last(Split(Concat(texts), '\n')) != []
  {
    EmittedCount(texts);
    var s, text := FeedAll(Start(), texts), Concat(texts);
    assert |LinesOf(text)| == |Split(text, '\n')| - 1;
    assert s.pending + rest == [];
    assert Last(Split(text, '\n')) + rest != [];
  }

  lemma FeedAfterFlush(s: Lines, after: seq<string>)
    requires s.pending == [] && FeedAll(s, after).flushes == s.flushes
    ensures FeedAll(s, after).pending == Last(Split(Concat(after), '\n'))
  {
    ChunksFrom(s, after);
    assert s.pending + Concat(after) == Concat(after);
  }

  /** With text or a rest after the flush, the outcome differs. */
  lemma FlushSpoils(texts: seq<string>, k: nat, rest: string)
    requires k <= |texts| && FeedAll(Start(), texts[..k]).flushes == 1 && FeedAll(Start(), texts[..k]).pending == []
    requires Concat(texts[k..]) != [] || rest != []
    ensures Finish(FeedAll(Start(), texts), rest).emitted != Whole(Concat(texts), rest)
  {
    var s0, after := FeedAll(Start(), texts[..k]), texts[k..];
    assert texts == texts[..k] + after;
    FeedAllConcat(Start(), texts[..k], after);
    ConcatAppend(texts[..k], after);
    FlushesGrow(s0, after);
    if Finish(FeedAll(Start(), texts), rest).emitted == Whole(Concat(texts), rest) {
      FlushedOnceAtEnd(texts, rest);
      FeedAfterFlush(s0, after);
      CutOff(Concat(texts[..k]), Concat(after));
    }
  }

  /** Exactly when a finished stream has emitted its lines and its tail: no flush, or one that nothing follows. */
  lemma FinishedExactly(texts: seq<string>, rest: string)
    ensures Finish(FeedAll(Start(), texts), rest).emitted == Whole(Concat(texts), rest)
      <==> NothingAfterFlush(texts, rest)
  {
    FlushesExactly(texts);
    if WithinLimit(texts) {
      ChunksDoNotMatter(texts);
    } else {
      var k := FirstOverdue(texts);
      FlushedAt(texts, k);
      if Concat(texts[k..]) == [] && rest == [] {
        NothingFollows(texts[..k], texts[k..]);
        OnlyLast(texts, k);
      } else {
        FlushSpoils(texts, k, rest);
      }
    }
  }

  lemma FlushedAt(texts: seq<string>, k: nat)
    requires 0 < k <= |texts| && WithinLimit(texts[..k - 1]) && |Unterminated(texts, k)| > MAX_PENDING
    ensures texts == texts[..k] + texts[k..] && Concat(texts) == Concat(texts[..k]) + Concat(texts[k..])
    ensures Unterminated(texts[..k], |texts[..k]|) == Unterminated(texts, k)
    ensures FeedAll(Start(), texts[..k]) == Lines([], LinesOf(Concat(texts[..k])) + [Unterminated(texts, k)], 1)
  {
    var head := texts[..k];
    assert Front(head) == texts[..k - 1] && head[..|head|] == head;
    FlushedThere(head);
    assert texts == head + texts[k..];
    ConcatAppend(head, texts[k..]);
  }

  lemma NothingFollows(head: seq<string>, after: seq<string>)
    requires head != [] && Concat(after) == [] && Unterminated(head, |head|) != []
    requires FeedAll(Start(), head) == Lines([], LinesOf(Concat(head)) + [Unterminated(head, |head|)], 1)
    ensures Finish(FeedAll(Start(), head + after), []).emitted == Whole(Concat(head + after), [])
  {
    FeedAllConcat(Start(), head, after);
    EmptyChunks(FeedAll(Start(), head), after);
    ConcatAppend(head, after);
    assert head[..|head|] == head && Concat(head) + [] == Concat(head);
    var tail := Unterminated(head, |head|);
    assert tail + [] == tail;
  }

  lemma NotYetOverdue(texts: seq<string>, k: nat, j: nat)
    requires j < k <= |texts| && WithinLimit(texts[..k - 1])
    ensures |Unterminated(texts, j)| <= MAX_PENDING
  {
    assert texts[..k - 1][..j] == texts[..j];
    assert |Unterminated(texts[..k - 1], j)| <= MAX_PENDING;
  }

  lemma OnlyLast(texts: seq<string>, k: nat)
    requires 0 < k <= |texts| && WithinLimit(texts[..k - 1]) && Concat(texts[k..]) == []
    ensures NothingAfterFlush(texts, [])
  {
    forall j | 0 <= j <= |texts| && |Unterminated(texts, j)| > MAX_PENDING ensures Concat(texts[..j]) == Concat(texts) {
      if j < k {
        NotYetOverdue(texts, k, j);
      } else {
        assert texts == texts[..j] + texts[j..] && texts[k..] == texts[k..j] + texts[j..];
        ConcatAppend(texts[..j], texts[j..]);
        ConcatAppend(texts[k..j], texts[j..]);
        assert Concat(texts[j..]) == [];
      }
    }
  }

  // ----- Conservation -----

  /** The text without its line ends. */
  function Bare(text: string): string {
    if text == [] then []
    else Bare(Front(text)) + if Last(text) == '\n' || Last(text) == '\r' then [] else [Last(text)]
  }

  lemma {:induction false} BareConcat(a: string, b: string)
    ensures Bare(a + b) == Bare(a) + Bare(b)
  {
    if b == [] {
      assert a + b == a;
    } else {
      assert Front(a + b) == a + Front(b) && Last(a + b) == Last(b);
      BareConcat(a, Front(b));
    }
  }

  lemma {:induction false} BareOfStripped(line: string)
    ensures Bare(StripCr(line)) == Bare(line)
  {
    if line != [] && Last(line) == '\r' { BareOfStripped(Front(line)); }
  }

  lemma {:induction false} BareOfLines(lines: seq<string>)
    ensures Bare(Concat(Stripped(lines))) == Bare(Concat(lines))
  {
    if lines != [] {
      BareOfLines(Front(lines));
      assert Front(Stripped(lines)) == Stripped(Front(lines));
      BareOfStripped(Last(lines));
      BareConcat(Concat(Front(lines)), Last(lines));
      BareConcat(Concat(Front(Stripped(lines))), Last(Stripped(lines)));
    }
  }

  lemma {:induction false} BareOfSplit(text: string)
    ensures Bare(Concat(Split(text, '\n'))) == Bare(text)
  {
    SplitPieces(text, '\n');
    BareOfJoin(Split(text, '\n'));
  }

  lemma {:induction false} BareOfJoin(parts: seq<string>)
    requires parts != []
    ensures Bare(Join(parts, '\n')) == Bare(Concat(parts))
  {
    if |parts| > 1 {
      BareOfJoin(parts[1..]);
      assert parts == [parts[0]] + parts[1..];
      ConcatAppend([parts[0]], parts[1..]);
      assert Concat([parts[0]]) == parts[0] by { assert Front([parts[0]]) == []; }
      BareConcat(parts[0] + ['\n'], Join(parts[1..], '\n'));
      BareConcat(parts[0], ['\n']);
      assert Bare(['\n']) == [] by { assert Front(['\n']) == []; }
      BareConcat(parts[0], Concat(parts[1..]));
    } else {
      assert parts == [parts[0]];
      assert Concat(parts) == parts[0] by { assert Front(parts) == []; }
    }
  }

  lemma EmitOne(emitted: seq<string>, piece: string)
    ensures Concat(emitted + [piece]) == Concat(emitted) + piece
    ensures Bare(Concat(emitted + [piece])) == Bare(Concat(emitted)) + Bare(piece)
  {
    assert Front(emitted + [piece]) == emitted;
    BareConcat(Concat(emitted), piece);
  }

  lemma EmitLines(emitted: seq<string>, lines: seq<string>)
    ensures Bare(Concat(emitted + Stripped(lines))) == Bare(Concat(emitted)) + Bare(Concat(lines))
  {
    ConcatAppend(emitted, Stripped(lines));
    BareConcat(Concat(emitted), Concat(Stripped(lines)));
    BareOfLines(lines);
  }

  lemma BareOfPieces(pieces: seq<string>)
    requires pieces != []
    ensures Bare(Concat(pieces)) == Bare(Concat(Front(pieces))) + Bare(Last(pieces))
  {
    BareConcat(Concat(Front(pieces)), Last(pieces));
  }

  /** What a stream has taken in, line ends aside: everything emitted and what is pending. */
  ghost function Taken(s: Lines): string {
    Bare(Concat(s.emitted)) + Bare(s.pending)
  }

  lemma FeedConserves(s: Lines, text: string)
    ensures Taken(Feed(s, text)) == Taken(s) + Bare(text)
  {
    var pieces := Split(s.pending + text, '\n');
    var lines := s.emitted + Stripped(Front(pieces));
    BareOfSplit(s.pending + text);
    BareConcat(s.pending, text);
    BareOfPieces(pieces);
    EmitLines(s.emitted, Front(pieces));
    EmitOne(lines, Last(pieces));
    Regroup(Bare(Concat(s.emitted)), Bare(s.pending), Bare(text), Bare(Concat(Front(pieces))), Bare(Last(pieces)));
  }

  lemma Regroup(e: string, p: string, t: string, f: string, l: string)
    requires p + t == f + l
    ensures (e + p) + t == (e + f) + l
  {
    assert (e + p) + t == e + (p + t);
    assert (e + f) + l == e + (f + l);
  }

  lemma {:induction false} FeedAllConserves(texts: seq<string>)
    ensures Taken(FeedAll(Start(), texts)) == Bare(Concat(texts))
  {
    if texts != [] {
      FeedAllConserves(Front(texts));
      FeedConserves(FeedAll(Start(), Front(texts)), Last(texts));
      BareConcat(Concat(Front(texts)), Last(texts));
    }
  }

  /** Flushes or not, the text is emitted in order, nothing lost or added but line ends. */
  lemma TextIsConserved(texts: seq<string>, rest: string)
    ensures Bare(Concat(Finish(FeedAll(Start(), texts), rest).emitted)) == Bare(Concat(texts)) + Bare(rest)
  {
    var s := FeedAll(Start(), texts);
    FeedAllConserves(texts);
    BareConcat(s.pending, rest);
    FinishEmits(s, rest);
  }

  lemma FinishEmits(s: Lines, rest: string)
    ensures Bare(Concat(Finish(s, rest).emitted)) == Bare(Concat(s.emitted)) + Bare(s.pending + rest)
  {
    EmitOne(s.emitted, s.pending + rest);
    if s.pending + rest == [] { assert s.emitted + [] == s.emitted; }
  }

  // ----- The streams and the loops -----

  /** One entry of `files`: a growing file, the read position, the decoder and the pending text. */
  class Stream<S> {
    const decoder: Decoder<S>
    var contents: seq<Byte>
    var position: nat
    var state: S
    var pending: string
    var emitted: seq<string>
    ghost var texts: seq<string>      // what each turn decoded

    ghost function Lines(): Lines
      reads this
    {
      FeedAll(Start(), texts)
    }

    /** The text decoded so far is that of the bytes read so far. */
    ghost predicate Reading()
      reads this
    {
      Decoded(decoder, contents, position, state, texts)
    }

    ghost predicate Valid()
      reads this
    {
      Reading() && pending == Lines().pending && emitted == Lines().emitted
    }

    ghost function Unread(): nat
      reads this
      requires position <= |contents|
    {
      |contents| - position
    }

    /** The whole file was read and its tail emitted. */
    ghost predicate Complete()
      reads this
    {
      && Reading() && position == |contents| && pending == []
      && emitted == Finish(Lines(), decoder.finish(state)).emitted
    }

    constructor (decoder: Decoder<S>)
      ensures this.decoder == decoder && Valid() && contents == [] && emitted == []
    {
      this.decoder := decoder;
      contents, position, state, pending, emitted, texts := [], 0, decoder.start, [], [], [];
    }

    /** The child process writes. */
    method Grow(more: seq<Byte>)
      requires Valid()
      modifies this`contents
      ensures Valid() && contents == old(contents) + more
    {
      assert (contents + more)[..position] == contents[..position];
      contents := contents + more;
    }

    /** One read of at most `READ_SIZE` bytes, decoded. */
    method Read() returns (text: string, empty: bool)
      requires Reading()
      modifies this`position, this`state, this`texts
      ensures Reading() && texts == old(texts) + [text]
      ensures empty <==> old(position) == |contents|
      ensures empty ==> position == old(position) && state == old(state) && text == []
      ensures !empty ==> Unread() < old(Unread())
    {
      var size := if |contents| - position < READ_SIZE then |contents| - position else READ_SIZE;
      empty := size == 0;
      var next;
      text, next := DecodeNext(decoder, contents, position, size, state, texts);
      Accept(size, next, text);
    }

    method Accept(size: nat, next: S, text: string)
      requires Decoded(decoder, contents, position + size, next, texts + [text])
      modifies this`position, this`state, this`texts
      ensures Reading() && texts == old(texts) + [text]
      ensures position == old(position) + size && state == next
    {
      position, state, texts := position + size, next, texts + [text];
    }

    method EmitAll(lines: seq<string>)
      modifies this`emitted
      ensures emitted == old(emitted) + Stripped(lines)
    {
      for i := 0 to |lines|
        invariant emitted == old(emitted) + Stripped(lines[..i])
      {
        emitted := emitted + [StripCr(lines[i])];
        assert lines[..i + 1] == lines[..i] + [lines[i]];
      }
      assert lines[..|lines|] == lines;
    }

    /** The part of `drain` for one stream, before its `final` branch. */
    method Turn() returns (empty: bool)
      requires Valid()
      modifies this
      ensures Valid() && contents == old(contents)
      ensures empty <==> old(position) == |contents|
      ensures empty ==> position == old(position)
      ensures !empty ==> Unread() < old(Unread())
    {
      ghost var before := texts;
      var text;
      text, empty := Read();
      assert Front(texts) == before && Last(texts) == text;
      var pieces := Split(pending + text, '\n');
      pending := Last(pieces);
      EmitAll(Front(pieces));
      if |pending| > MAX_PENDING {
        emitted := emitted + [pending];
        pending := [];
      }
    }

    /** The part of `drain(final=True)` for one stream. */
    method LastTurn()
      requires Valid()
      modifies this
      ensures contents == old(contents)
      ensures old(position) == |contents| ==> Complete()
    {
      var empty := Turn();
      if empty {
        var tail := pending + decoder.finish(state);
        if tail != [] { emitted := emitted + [tail]; }
        pending := [];
      }
    }
  }

  function Written(writes: seq<seq<Byte>>): seq<Byte> {
    if writes == [] then [] else Written(Front(writes)) + Last(writes)
  }

  lemma WrittenStep(writes: seq<seq<Byte>>, i: nat)
    requires i < |writes|
    ensures Written(writes[..i + 1]) == Written(writes[..i]) + writes[i]
  {
    assert Front(writes[..i + 1]) == writes[..i];
  }

  lemma WrittenMore(before: seq<Byte>, writes: seq<seq<Byte>>, i: nat)
    requires i < |writes|
    ensures before + Written(writes[..i + 1]) == (before + Written(writes[..i])) + writes[i]
  {
    WrittenStep(writes, i);
  }

  lemma AllWritten(writes: seq<seq<Byte>>)
    ensures Written(writes[..|writes|]) == Written(writes)
  {
    assert writes[..|writes|] == writes;
  }

  class Supervisor<S> {
    const out: Stream<S>
    const err: Stream<S>

    ghost predicate Valid()
      reads this, out, err
    {
      out != err && out.Valid() && err.Valid()
    }

    constructor (decoder: Decoder<S>)
      ensures Valid() && fresh(out) && fresh(err)
    {
      out := new Stream(decoder);
      err := new Stream(decoder);
    }

    method Drain() returns (more: bool)
      requires Valid()
      modifies out, err
      ensures Valid() && out.contents == old(out.contents) && err.contents == old(err.contents)
      ensures more <==> out.Unread() + err.Unread() > 0
      ensures more ==> out.Unread() + err.Unread() < old(out.Unread() + err.Unread())
    {
      var a := out.Turn();
      var b := err.Turn();
      more := out.position < |out.contents| || err.position < |err.contents|;
    }

    /** What the child has written in its first `i` rounds is in the two files. */
    ghost predicate Wrote(outBefore: seq<Byte>, outWrites: seq<seq<Byte>>, errBefore: seq<Byte>,
                          errWrites: seq<seq<Byte>>, i: nat)
      requires i <= |outWrites| == |errWrites|
      reads this, out, err
    {
      && Valid()
      && out.contents == outBefore + Written(outWrites[..i]) && err.contents == errBefore + Written(errWrites[..i])
    }

    /** The child writes to both files, then one `drain(True)`. */
    method Round(ghost outBefore: seq<Byte>, outWrites: seq<seq<Byte>>, ghost errBefore: seq<Byte>,
                 errWrites: seq<seq<Byte>>, i: nat)
      requires i < |outWrites| == |errWrites| && Wrote(outBefore, outWrites, errBefore, errWrites, i)
      modifies out, err
      ensures Wrote(outBefore, outWrites, errBefore, errWrites, i + 1)
    {
      WrittenMore(outBefore, outWrites, i);
      WrittenMore(errBefore, errWrites, i);
      Poll(outWrites[i], errWrites[i]);
    }

    method Poll(outWrite: seq<Byte>, errWrite: seq<Byte>)
      requires Valid()
      modifies out, err
      ensures Valid() && out.contents == old(out.contents) + outWrite && err.contents == old(err.contents) + errWrite
    {
      out.Grow(outWrite);
      err.Grow(errWrite);
      var more := Drain();
    }

    /** The polling loop while the child lives, and the closing loop after it. */
    method Supervise(outWrites: seq<seq<Byte>>, errWrites: seq<seq<Byte>>)
      requires Valid() && |outWrites| == |errWrites|
      modifies out, err
      ensures out.Complete() && err.Complete()
      ensures out.contents == old(out.contents) + Written(outWrites)
        && err.contents == old(err.contents) + Written(errWrites)
    {
      assert old(out.contents) + [] == old(out.contents) && old(err.contents) + [] == old(err.contents);
      for i := 0 to |outWrites|
        invariant Wrote(old(out.contents), outWrites, old(err.contents), errWrites, i)
      {
        Round(old(out.contents), outWrites, old(err.contents), errWrites, i);
      }
      AllWritten(outWrites);
      AllWritten(errWrites);
      Close();
    }

    /** `while drain(False): pass`, then `drain(False, final=True)`: ends because every turn reads. */
    method Close()
      requires Valid()
      modifies out, err
      ensures out.Complete() && err.Complete()
      ensures out.contents == old(out.contents) && err.contents == old(err.contents)
    {
      var more := Drain();
      while more
        invariant Valid() && out.contents == old(out.contents) && err.contents == old(err.contents)
        invariant more <==> out.Unread() + err.Unread() > 0
        decreases out.Unread() + err.Unread()
      {
        more := Drain();
      }
      out.LastTurn();
      err.LastTurn();
    }
  }

  /**
   * A completed stream emitted the lines of its whole decoded text and its tail exactly when nothing followed
   * a forced flush; in particular when no unterminated text exceeded the limit at the end of a read.
   */
  lemma CompleteLines<S>(stream: Stream<S>)
    requires stream.Complete()
    ensures stream.emitted
      == Whole(DecodeText(stream.decoder, stream.decoder.start, stream.contents), stream.decoder.finish(stream.state))
      <==> NothingAfterFlush(stream.texts, stream.decoder.finish(stream.state))
    ensures WithinLimit(stream.texts) ==> NothingAfterFlush(stream.texts, stream.decoder.finish(stream.state))
  {
    assert stream.contents[..stream.position] == stream.contents;
    FinishedExactly(stream.texts, stream.decoder.finish(stream.state));
  }

  /** Whatever the line lengths, a completed stream emitted its whole text in order. */
  lemma CompleteText<S>(stream: Stream<S>)
    requires stream.Complete()
    ensures Bare(Concat(stream.emitted))
      == Bare(DecodeText(stream.decoder, stream.decoder.start, stream.contents))
        + Bare(stream.decoder.finish(stream.state))
  {
    assert stream.contents[..stream.position] == stream.contents;
    TextIsConserved(stream.texts, stream.decoder.finish(stream.state));
  }
}
