/**
 * resources/opencode-context-plugin.ts: the per-session chain of storage writes (`writes`), through unloading,
 * over every interleaving of acceptances and writes that may fail.
 */
module WriteChain {
  import opened Options

  datatype WriteState = Queued | Running | Stored | Lost

  /**
   * When a composition was accepted: before unloading waits for the writes, while it waits, or after it cleared the
   * map.
   */
  datatype Epoch = Before | During | After

  /** One accepted composition: its session and the write it waits for. */
  datatype Write = Write(session: string, accepted: Epoch, previous: Option<nat>, state: WriteState)

  /** Unloading waits for the writes that were the last of their sessions when it began to wait. */
  datatype Phase = Live | Draining(lasts: map<string, nat>) | Cleared

  /** `writes` and every promise it ever held; `started` is the order in which `storage.set` was called. */
  datatype Chain = Chain(phase: Phase, tails: map<string, nat>, all: seq<Write>, started: seq<nat>)

  /** Hooks that were suspended when the hook was disposed may still accept a composition in any phase. */
  datatype WriteEvent =
    | Accept(session: string)
    | Start(write: nat)
    | Succeed(write: nat)
    | Fail(write: nat)
    | Unload                  // `Promise.all([...writes.values()]...)`
    | Clear                   // `writes.clear()`

  predicate Over(s: WriteState) { s.Stored? || s.Lost? }

  predicate Ready(c: Chain, w: nat) {
    w < |c.all| && c.all[w].state.Queued?
    && (c.all[w].previous.Some? ==> c.all[w].previous.value < |c.all| && Over(c.all[c.all[w].previous.value].state))
  }

  predicate AllOver(c: Chain, lasts: map<string, nat>) {
    forall s :: s in lasts ==> (lasts[s] < |c.all| && Over(c.all[lasts[s]].state))
  }

  predicate Possible(c: Chain, e: WriteEvent) {
    match e
    case Accept(_) => true
    case Start(w) => Ready(c, w)
    case Succeed(w) => w < |c.all| && c.all[w].state.Running?
    case Fail(w) => w < |c.all| && c.all[w].state.Running?
    case Unload => c.phase.Live?
    case Clear => c.phase.Draining? && AllOver(c, c.phase.lasts)
  }

  function SetState(c: Chain, w: nat, s: WriteState): Chain
    requires w < |c.all|
  {
    c.(all := c.all[w := c.all[w].(state := s)])
  }

  function EpochOf(p: Phase): Epoch {
    match p
    case Live => Before
    case Draining(_) => During
    case Cleared => After
  }

  /** `previous.catch(() => {}).then(() => storage.set(...))`, and the new tail. */
  function Accepted(c: Chain, session: string): Chain {
    c.(tails := c.tails[session := |c.all|],
       all := c.all
         + [Write(session, EpochOf(c.phase), if session in c.tails then Some(c.tails[session]) else None, Queued)])
  }

  function Next(c: Chain, e: WriteEvent): Chain
    requires Possible(c, e)
  {
    match e
    case Accept(session) => Accepted(c, session)
    case Start(w) => SetState(c, w, Running).(started := c.started + [w])
    case Succeed(w) => SetState(c, w, Stored)
    case Fail(w) => SetState(c, w, Lost)
    case Unload => c.(phase := Draining(c.tails))
    case Clear => c.(phase := Cleared, tails := map[])
  }

  function NoWrites(): Chain { Chain(Live, map[], [], []) }

  // ----- What every state keeps -----

  predicate SameSession(c: Chain, v: nat, w: nat) {
    v < |c.all| && w < |c.all| && c.all[v].session == c.all[w].session
  }

  /** The one way two writes of a session can lose each other: `v` came while unloading waited, `w` after it cleared. */
  predicate Gapped(c: Chain, v: nat, w: nat) {
    v < |c.all| && w < |c.all| && c.all[v].accepted.During? && c.all[w].accepted.After?
  }

  /** `w` is chained behind `v`: the map has not been cleared in between. */
  predicate Chained(c: Chain, v: nat, w: nat) {
    v < w && SameSession(c, v, w) && (c.all[w].accepted.After? ==> c.all[v].accepted.After?)
  }

  /** The map may still know this write. */
  predicate Known(c: Chain, w: nat) {
    w < |c.all| && (c.phase.Cleared? ==> c.all[w].accepted.After?)
  }

  ghost predicate TailsOk(c: Chain) {
    && (forall w :: 0 <= w < |c.all| && Known(c, w) ==> (c.all[w].session in c.tails && w <= c.tails[c.all[w].session]))
    && (forall s :: s in c.tails ==> (Known(c, c.tails[s]) && c.all[c.tails[s]].session == s))
  }

  /** `previous` is the last write this one is chained behind. */
  ghost predicate LinkOk(c: Chain, w: nat)
    requires w < |c.all|
  {
    match c.all[w].previous
    case None => forall v :: 0 <= v < w ==> !Chained(c, v, w)
    case Some(p) => Chained(c, p, w) && forall v :: p < v < w ==> !Chained(c, v, w)
  }

  ghost predicate LinksOk(c: Chain) {
    forall w :: 0 <= w < |c.all| ==> LinkOk(c, w)
  }

  ghost predicate EpochsOk(c: Chain) {
    && (forall v, w :: 0 <= v < w < |c.all| ==>
        (c.all[v].accepted.After? ==> c.all[w].accepted.After?)
        && (c.all[w].accepted.Before? ==> c.all[v].accepted.Before?))
    && (c.phase.Live? ==> forall w :: 0 <= w < |c.all| ==> c.all[w].accepted.Before?)
    && (!c.phase.Cleared? ==> forall w :: 0 <= w < |c.all| ==> !c.all[w].accepted.After?)
  }

  /** While unloading waits, it waits for each session's last write from before; afterwards those are all over. */
  ghost predicate WaitOk(c: Chain) {
    forall w :: 0 <= w < |c.all| && c.all[w].accepted.Before? ==> AwaitOk(c, w)
  }

  ghost predicate AwaitOk(c: Chain, w: nat)
    requires w < |c.all|
  {
    match c.phase
    case Live => true
    case Draining(lasts) =>
      var s := c.all[w].session;
      s in lasts && w <= lasts[s] && SameSession(c, w, lasts[s]) && c.all[lasts[s]].accepted.Before?
    case Cleared => Over(c.all[w].state)
  }

  ghost predicate LastsAreBefore(c: Chain) {
    c.phase.Draining? ==> forall s :: s in c.phase.lasts ==>
      (c.phase.lasts[s] < |c.all| && c.all[c.phase.lasts[s]].accepted.Before?)
  }

  /** All of a session before a started write are over, but for a gap. */
  ghost predicate TurnsOk(c: Chain) {
    forall v, w :: 0 <= v < w < |c.all| && SameSession(c, v, w) && !Gapped(c, v, w) ==>
      (c.all[w].state.Queued? || Over(c.all[v].state))
  }

  ghost predicate StartedOk(c: Chain) {
    forall w :: w in c.started <==> (0 <= w < |c.all| && !c.all[w].state.Queued?)
  }

  /** Within a session, writes start in the order of acceptance, but for a gap. */
  ghost predicate InOrder(c: Chain) {
    forall i, j :: 0 <= i < j < |c.started| && SameSession(c, c.started[i], c.started[j]) ==>
      (c.started[i] < c.started[j] || Gapped(c, c.started[j], c.started[i]))
  }

  ghost predicate ChainOk(c: Chain) {
    TailsOk(c) && LinksOk(c) && EpochsOk(c) && WaitOk(c) && LastsAreBefore(c) && TurnsOk(c) && StartedOk(c)
      && InOrder(c)
  }

  // ----- Accepting -----

  lemma AcceptKeepsLinks(c: Chain, session: string)
    requires TailsOk(c) && LinksOk(c) && EpochsOk(c)
    ensures LinksOk(Accepted(c, session))
  {
    var d := Accepted(c, session);
    forall w | 0 <= w < |d.all| ensures LinkOk(d, w) {
      if w < |c.all| {
        assert LinkOk(c, w);
        assert forall v :: 0 <= v < w ==> (Chained(d, v, w) <==> Chained(c, v, w));
      } else {
        AcceptedLink(c, session);
      }
    }
  }

  lemma AcceptedLink(c: Chain, session: string)
    requires TailsOk(c) && EpochsOk(c)
    ensures LinkOk(Accepted(c, session), |c.all|)
  {
    var d, w := Accepted(c, session), |c.all|;
    forall v | 0 <= v < w ensures Chained(d, v, w) ==> session in c.tails && v <= c.tails[session] {
      if Chained(d, v, w) { assert Known(c, v); }
    }
    if session in c.tails { assert Known(c, c.tails[session]); }
  }

  lemma AcceptKeepsTails(c: Chain, session: string)
    requires TailsOk(c)
    ensures TailsOk(Accepted(c, session))
  {
    var d := Accepted(c, session);
    assert forall w :: 0 <= w < |c.all| ==> (Known(d, w) <==> Known(c, w));
    assert Known(d, |c.all|);
  }

  lemma AcceptKeepsEpochs(c: Chain, session: string)
    requires EpochsOk(c) && WaitOk(c) && LastsAreBefore(c)
    ensures EpochsOk(Accepted(c, session)) && WaitOk(Accepted(c, session)) && LastsAreBefore(Accepted(c, session))
  {
    var d := Accepted(c, session);
    forall w | 0 <= w < |d.all| && d.all[w].accepted.Before? ensures AwaitOk(d, w) {
      if w < |c.all| { assert AwaitOk(c, w); }
    }
  }

  lemma AcceptKeepsTurns(c: Chain, session: string)
    requires TurnsOk(c) && StartedOk(c)
    ensures TurnsOk(Accepted(c, session)) && StartedOk(Accepted(c, session))
  {
    var d := Accepted(c, session);
    forall v, w | 0 <= v < w < |d.all| && SameSession(d, v, w) && !Gapped(d, v, w)
      ensures d.all[w].state.Queued? || Over(d.all[v].state)
    {
      if w < |c.all| { assert SameSession(c, v, w) && !Gapped(c, v, w); }
    }
  }

  lemma AcceptKeepsOrder(c: Chain, session: string)
    requires StartedOk(c) && InOrder(c)
    ensures InOrder(Accepted(c, session))
  {
    var d := Accepted(c, session);
    forall i, j | 0 <= i < j < |d.started| && SameSession(d, d.started[i], d.started[j])
      ensures d.started[i] < d.started[j] || Gapped(d, d.started[j], d.started[i])
    {
      assert d.started[i] in c.started && d.started[j] in c.started;
      assert SameSession(c, d.started[i], d.started[j]);
    }
  }

  lemma AcceptKeeps(c: Chain, session: string)
    requires ChainOk(c)
    ensures ChainOk(Accepted(c, session))
  {
    AcceptKeepsLinks(c, session);
    AcceptKeepsTails(c, session);
    AcceptKeepsEpochs(c, session);
    AcceptKeepsTurns(c, session);
    AcceptKeepsOrder(c, session);
  }

  // ----- Starting and ending -----

  /** All earlier writes of the session of a ready one are over, but for a gap. */
  lemma ReadyMeansTurn(c: Chain, w: nat, v: nat)
    requires ChainOk(c) && Ready(c, w) && v < w && SameSession(c, v, w) && !Gapped(c, v, w)
    ensures Over(c.all[v].state)
  {
    assert LinkOk(c, w);
    if Chained(c, v, w) {
      var p := c.all[w].previous.value;
      if v != p { assert SameSession(c, v, p) && !Gapped(c, v, p); }
    } else {
      assert AwaitOk(c, v);
    }
  }

  /** Sessions, epochs and links are untouched by a change of state. */
  lemma StateKeepsLinks(c: Chain, w: nat, s: WriteState)
    requires TailsOk(c) && LinksOk(c) && EpochsOk(c) && w < |c.all|
    ensures TailsOk(SetState(c, w, s)) && LinksOk(SetState(c, w, s)) && EpochsOk(SetState(c, w, s))
  {
    var d := SetState(c, w, s);
    assert forall x :: 0 <= x < |c.all| ==> (Known(d, x) <==> Known(c, x));
    SameLinks(c, d);
  }

  /** Two chains with the same acceptances have the same links. */
  lemma SameLinks(c: Chain, d: Chain)
    requires LinksOk(c) && Tags(c) == Tags(d)
    requires |c.all| == |d.all| && forall x :: 0 <= x < |c.all| ==> c.all[x].previous == d.all[x].previous
    ensures LinksOk(d)
  {
    forall x | 0 <= x < |d.all| ensures LinkOk(d, x) {
      assert LinkOk(c, x);
      forall v | 0 <= v < x ensures Chained(d, v, x) <==> Chained(c, v, x) {
        assert Tags(c)[v] == Tags(d)[v] && Tags(c)[x] == Tags(d)[x];
      }
    }
  }

  lemma StateKeepsWaits(c: Chain, w: nat, s: WriteState)
    requires WaitOk(c) && LastsAreBefore(c) && w < |c.all| && (Over(c.all[w].state) ==> Over(s))
    ensures WaitOk(SetState(c, w, s)) && LastsAreBefore(SetState(c, w, s))
  {
    var d := SetState(c, w, s);
    forall x | 0 <= x < |d.all| && d.all[x].accepted.Before? ensures AwaitOk(d, x) { assert AwaitOk(c, x); }
  }

  lemma StartKeepsTurns(c: Chain, w: nat)
    requires ChainOk(c) && Ready(c, w)
    ensures TurnsOk(SetState(c, w, Running))
  {
    var d := SetState(c, w, Running);
    forall v, x | 0 <= v < x < |d.all| && SameSession(d, v, x) && !Gapped(d, v, x)
      ensures d.all[x].state.Queued? || Over(d.all[v].state)
    {
      assert SameSession(c, v, x) && !Gapped(c, v, x);
      if x == w { ReadyMeansTurn(c, w, v); }
    }
  }

  /** A write of the session that has started was accepted earlier, but for a gap. */
  lemma StartedAreEarlier(c: Chain, w: nat, v: nat)
    requires TurnsOk(c) && StartedOk(c) && w < |c.all| && c.all[w].state.Queued? && v in c.started
      && SameSession(c, v, w)
    ensures v < w || Gapped(c, w, v)
  {
    if w < v { assert SameSession(c, w, v); }
  }

  lemma StartKeepsOrder(c: Chain, w: nat)
    requires TurnsOk(c) && StartedOk(c) && InOrder(c) && Ready(c, w)
    ensures StartedOk(Next(c, Start(w))) && InOrder(Next(c, Start(w)))
  {
    var d := Next(c, Start(w));
    forall i, j | 0 <= i < j < |d.started| && SameSession(d, d.started[i], d.started[j])
      ensures d.started[i] < d.started[j] || Gapped(d, d.started[j], d.started[i])
    {
      assert SameSession(c, d.started[i], d.started[j]);
      if j == |c.started| { StartedAreEarlier(c, w, d.started[i]); }
    }
  }

  lemma StartKeeps(c: Chain, w: nat)
    requires ChainOk(c) && Ready(c, w)
    ensures ChainOk(Next(c, Start(w)))
  {
    StateKeepsLinks(c, w, Running);
    StateKeepsWaits(c, w, Running);
    StartKeepsTurns(c, w);
    StartKeepsOrder(c, w);
    OrderOnly(SetState(c, w, Running), Next(c, Start(w)));
  }

  /** Most of the invariant does not look at `started`. */
  lemma OrderOnly(c: Chain, d: Chain)
    requires d == c.(started := d.started)
    ensures TailsOk(c) ==> TailsOk(d)
    ensures LinksOk(c) ==> LinksOk(d)
    ensures EpochsOk(c) ==> EpochsOk(d)
    ensures WaitOk(c) ==> WaitOk(d)
    ensures LastsAreBefore(c) ==> LastsAreBefore(d)
    ensures TurnsOk(c) ==> TurnsOk(d)
  {
    assert forall w :: Known(c, w) <==> Known(d, w);
    assert forall v, w :: SameSession(c, v, w) <==> SameSession(d, v, w);
    assert forall v, w :: Gapped(c, v, w) <==> Gapped(d, v, w);
    if LinksOk(c) { SameLinks(c, d); }
    if WaitOk(c) {
      forall w | 0 <= w < |d.all| && d.all[w].accepted.Before? ensures AwaitOk(d, w) { assert AwaitOk(c, w); }
    }
  }

  lemma EndKeepsTurns(c: Chain, w: nat, s: WriteState)
    requires TurnsOk(c) && StartedOk(c) && InOrder(c) && w < |c.all| && c.all[w].state.Running? && Over(s)
    ensures TurnsOk(SetState(c, w, s)) && StartedOk(SetState(c, w, s)) && InOrder(SetState(c, w, s))
  {
    var d := SetState(c, w, s);
    assert forall v, x :: SameSession(c, v, x) <==> SameSession(d, v, x);
    assert forall v, x :: Gapped(c, v, x) <==> Gapped(d, v, x);
  }

  lemma EndKeeps(c: Chain, w: nat, s: WriteState)
    requires ChainOk(c) && w < |c.all| && c.all[w].state.Running? && Over(s)
    ensures ChainOk(SetState(c, w, s))
  {
    StateKeepsLinks(c, w, s);
    StateKeepsWaits(c, w, s);
    EndKeepsTurns(c, w, s);
  }

  // ----- Unloading -----

  lemma PhaseOnly(c: Chain, d: Chain)
    requires d.all == c.all && d.started == c.started
    ensures LinksOk(c) ==> LinksOk(d)
    ensures TurnsOk(c) && StartedOk(c) && InOrder(c) ==> TurnsOk(d) && StartedOk(d) && InOrder(d)
  {
    assert forall v, w :: SameSession(c, v, w) <==> SameSession(d, v, w);
    assert forall v, w :: Gapped(c, v, w) <==> Gapped(d, v, w);
    if LinksOk(c) { SameLinks(c, d); }
  }

  lemma UnloadKeeps(c: Chain)
    requires ChainOk(c) && c.phase.Live?
    ensures ChainOk(Next(c, Unload))
  {
    var d := Next(c, Unload);
    PhaseOnly(c, d);
    assert forall w :: 0 <= w < |c.all| ==> Known(c, w) && Known(d, w);
    forall w | 0 <= w < |d.all| && d.all[w].accepted.Before? ensures AwaitOk(d, w) {
      assert Known(c, w) && Known(c, c.tails[c.all[w].session]);
    }
    forall s | s in c.tails ensures c.tails[s] < |c.all| && c.all[c.tails[s]].accepted.Before? {
      assert Known(c, c.tails[s]);
    }
  }

  /** When the wait ends, every write from before it is over. */
  lemma WaitedFor(c: Chain, w: nat)
    requires ChainOk(c) && Possible(c, Clear) && w < |c.all| && c.all[w].accepted.Before?
    ensures Over(c.all[w].state)
  {
    assert AwaitOk(c, w);
    var last := c.phase.lasts[c.all[w].session];
    if w < last { assert SameSession(c, w, last) && !Gapped(c, w, last); }
  }

  lemma ClearKeeps(c: Chain)
    requires ChainOk(c) && Possible(c, Clear)
    ensures ChainOk(Next(c, Clear))
  {
    var d := Next(c, Clear);
    PhaseOnly(c, d);
    forall w | 0 <= w < |d.all| && d.all[w].accepted.Before? ensures AwaitOk(d, w) { WaitedFor(c, w); }
    assert forall w :: 0 <= w < |d.all| ==> !Known(d, w);
  }

  // ----- Every history -----

  ghost predicate IsHistory(c: Chain, events: seq<WriteEvent>, d: Chain)
    decreases |events|
  {
    if events == [] then d == c
    else Possible(c, events[0]) && IsHistory(Next(c, events[0]), events[1..], d)
  }

  lemma NextKeeps(c: Chain, e: WriteEvent)
    requires ChainOk(c) && Possible(c, e)
    ensures ChainOk(Next(c, e))
  {
    match e {
      case Accept(session) => AcceptKeeps(c, session);
      case Start(w) => StartKeeps(c, w);
      case Succeed(w) => EndKeeps(c, w, Stored);
      case Fail(w) => EndKeeps(c, w, Lost);
      case Unload => UnloadKeeps(c);
      case Clear => ClearKeeps(c);
    }
  }

  lemma {:induction false} HistoryKeeps(c: Chain, events: seq<WriteEvent>, d: Chain)
    requires ChainOk(c) && IsHistory(c, events, d)
    ensures ChainOk(d)
    decreases |events|
  {
    if events != [] {
      NextKeeps(c, events[0]);
      HistoryKeeps(Next(c, events[0]), events[1..], d);
    }
  }

  ghost predicate Reachable(c: Chain) {
    exists events :: IsHistory(NoWrites(), events, c)
  }

  lemma ReachableOk(c: Chain)
    requires Reachable(c)
    ensures ChainOk(c)
  {
    var events :| IsHistory(NoWrites(), events, c);
    HistoryKeeps(NoWrites(), events, c);
  }

  /**
   * Storage writes of a session happen one at a time and in acceptance order, after failed ones and through unloading:
   * whatever has started, every write accepted before it in its session is over and was started before it.
   * The one exception is a write accepted while unloading waits, followed by one accepted after the map was cleared.
   */
  lemma WritesInAcceptanceOrder(d: Chain, v: nat, w: nat)
    requires Reachable(d) && v < w && SameSession(d, v, w) && !Gapped(d, v, w) && !d.all[w].state.Queued?
    ensures Over(d.all[v].state)
    ensures exists i, j :: 0 <= i < j < |d.started| && d.started[i] == v && d.started[j] == w
  {
    ReachableOk(d);
    assert v in d.started && w in d.started;
    var i :| 0 <= i < |d.started| && d.started[i] == v;
    var j :| 0 <= j < |d.started| && d.started[j] == w;
    assert SameSession(d, w, v) && !Gapped(d, v, w);
  }

  /** A failed write does not hold up the session: the oldest write that is not over has started or can start. */
  lemma FailuresDoNotBlock(d: Chain, w: nat)
    requires Reachable(d) && w < |d.all| && d.all[w].state.Queued?
    requires forall v :: 0 <= v < w && SameSession(d, v, w) ==> Over(d.all[v].state)
    ensures Ready(d, w)
  {
    ReachableOk(d);
    assert LinkOk(d, w);
  }

  // ----- The exception is real -----

  /** Who was accepted, and when in the course of unloading. */
  function Tags(c: Chain): (r: seq<(string, Epoch)>)
    ensures |r| == |c.all| && forall k :: 0 <= k < |r| ==> r[k] == (c.all[k].session, c.all[k].accepted)
  {
    seq(|c.all|, k requires 0 <= k < |c.all| => (c.all[k].session, c.all[k].accepted))
  }

  /** Everything that has started waited for all before it in its session. */
  ghost predicate TurnsKept(c: Chain) {
    forall v, w :: 0 <= v < w < |c.all| && SameSession(c, v, w) && !c.all[w].state.Queued? ==> Over(c.all[v].state)
  }

  /** Some session was accepted while unloading waited and again after the map was cleared. */
  ghost predicate HasGap(tags: seq<(string, Epoch)>) {
    exists v, w :: 0 <= v < w < |tags| && tags[v].0 == tags[w].0 && tags[v].1.During? && tags[w].1.After?
  }

  lemma {:induction false} HistoryAppend(c: Chain, events: seq<WriteEvent>, d: Chain, e: WriteEvent)
    requires IsHistory(c, events, d) && Possible(d, e)
    ensures IsHistory(c, events + [e], Next(d, e))
    decreases |events|
  {
    if events == [] {
      assert ([] + [e])[1..] == [];
    } else {
      HistoryAppend(Next(c, events[0]), events[1..], d, e);
      assert (events + [e])[1..] == events[1..] + [e];
    }
  }

  lemma ReachNext(c: Chain, e: WriteEvent)
    requires Reachable(c) && Possible(c, e)
    ensures Reachable(Next(c, e))
  {
    var events :| IsHistory(NoWrites(), events, c);
    HistoryAppend(NoWrites(), events, c, e);
  }

  /** What was accepted before unloading is stored, and nothing else has started. */
  ghost predicate Idle(c: Chain) {
    forall w :: 0 <= w < |c.all| ==> c.all[w].state == if c.all[w].accepted.Before? then Stored else Queued
  }

  ghost predicate Epochs(tags: seq<(string, Epoch)>) {
    forall v, w :: 0 <= v < w < |tags| ==>
      (tags[v].1.After? ==> tags[w].1.After?) && (tags[w].1.Before? ==> tags[v].1.Before?)
  }

  /** The phase the last acceptance was in. */
  function PhaseIs(tags: seq<(string, Epoch)>): Epoch {
    if tags == [] then Before else tags[|tags| - 1].1
  }

  /** On with unloading, as far as the next acceptance needs. */
  lemma Advance(c: Chain, to: Epoch) returns (d: Chain)
    requires Reachable(c) && Idle(c)
    requires (EpochOf(c.phase).After? ==> to.After?) && (to.Before? ==> c.phase.Live?)
    ensures Reachable(d) && Idle(d) && EpochOf(d.phase) == to && d.all == c.all
  {
    d := c;
    if !to.Before? && d.phase.Live? {
      ReachNext(d, Unload);
      d := Next(d, Unload);
    }
    if to.After? && d.phase.Draining? {
      ReachableOk(d);
      assert Possible(d, Clear);
      ReachNext(d, Clear);
      d := Next(d, Clear);
    }
  }

  /** One more acceptance; before unloading, its write is stored at once. */
  lemma AcceptIdle(c: Chain, session: string) returns (d: Chain)
    requires Reachable(c) && Idle(c)
    ensures Reachable(d) && Idle(d) && EpochOf(d.phase) == EpochOf(c.phase)
      && Tags(d) == Tags(c) + [(session, EpochOf(c.phase))]
  {
    var w := |c.all|;
    ReachNext(c, Accept(session));
    d := Next(c, Accept(session));
    if c.phase.Live? {
      ReachableOk(d);
      assert LinkOk(d, w);
      d := StoreNow(d, w);
    }
  }

  /** A ready write starts and succeeds. */
  lemma StoreNow(c: Chain, w: nat) returns (d: Chain)
    requires Reachable(c) && Ready(c, w)
    ensures Reachable(d) && d.phase == c.phase && Tags(d) == Tags(c) && d.all == c.all[w := c.all[w].(state := Stored)]
  {
    ReachNext(c, Start(w));
    d := Next(c, Start(w));
    ReachNext(d, Succeed(w));
    d := Next(d, Succeed(w));
  }

  /** Any acceptances can come with the writes from before unloading stored and nothing else started. */
  lemma {:induction false} Replay(tags: seq<(string, Epoch)>) returns (c: Chain)
    requires Epochs(tags)
    ensures Reachable(c) && Idle(c) && Tags(c) == tags && EpochOf(c.phase) == PhaseIs(tags)
  {
    if tags == [] {
      c := NoWrites();
      assert IsHistory(NoWrites(), [], c);
    } else {
      var front, last := tags[..|tags| - 1], tags[|tags| - 1];
      c := Replay(front);
      assert front != [] ==> front[|front| - 1] == tags[|tags| - 2];
      c := Advance(c, last.1);
      c := AcceptIdle(c, last.0);
      assert tags == front + [last];
    }
  }

  /** The first write of a session after the map was cleared. */
  lemma {:induction false} FirstAfter(c: Chain, w: nat) returns (x: nat)
    requires ChainOk(c) && w < |c.all| && c.all[w].accepted.After?
    ensures x <= w && SameSession(c, x, w) && c.all[x].accepted.After? && c.all[x].previous.None?
    decreases w
  {
    x := w;
    assert LinkOk(c, w);
    if c.all[w].previous.Some? { x := FirstAfter(c, c.all[w].previous.value); }
  }

  lemma EpochsInOrder(c: Chain, v: nat, x: nat)
    requires EpochsOk(c) && v < |c.all| && x < |c.all| && c.all[v].accepted.During? && c.all[x].accepted.After?
    ensures v < x
  {
  }

  /** A later write may then overtake an earlier one. */
  lemma Overtaking(tags: seq<(string, Epoch)>) returns (c: Chain)
    requires Epochs(tags) && HasGap(tags)
    ensures Reachable(c) && Tags(c) == tags && !TurnsKept(c)
  {
    var v, w :| 0 <= v < w < |tags| && tags[v].0 == tags[w].0 && tags[v].1.During? && tags[w].1.After?;
    c := Replay(tags);
    ReachableOk(c);
    assert Tags(c)[v] == tags[v] && Tags(c)[w] == tags[w];
    var x := FirstAfter(c, w);
    EpochsInOrder(c, v, x);
    c := StartAhead(c, v, x);
  }

  /** A write that waits for none may start although an earlier one of its session has not. */
  lemma StartAhead(c: Chain, v: nat, x: nat) returns (d: Chain)
    requires Reachable(c) && v < x && SameSession(c, v, x)
    requires c.all[v].state.Queued? && c.all[x].state.Queued? && c.all[x].previous.None?
    ensures Reachable(d) && Tags(d) == Tags(c) && !TurnsKept(d)
  {
    ReachNext(c, Start(x));
    d := Next(c, Start(x));
    assert SameSession(d, v, x) && !d.all[x].state.Queued? && !Over(d.all[v].state);
  }

  /**
   * Exactly when the acceptances alone settle it: every timing of the writes keeps the order of each session
   * if and only if no session is accepted while unloading waits and again after it has cleared the map.
   */
  lemma OrderExactly(d: Chain)
    requires Reachable(d)
    ensures (forall c :: Reachable(c) && Tags(c) == Tags(d) ==> TurnsKept(c)) <==> !HasGap(Tags(d))
  {
    ReachableOk(d);
    if HasGap(Tags(d)) {
      var c := Overtaking(Tags(d));
    } else {
      forall c | Reachable(c) && Tags(c) == Tags(d) ensures TurnsKept(c) {
        ReachableOk(c);
        NoGapNoException(c);
      }
    }
  }

  lemma GapShows(c: Chain, v: nat, w: nat)
    requires v < w && SameSession(c, v, w) && Gapped(c, v, w)
    ensures HasGap(Tags(c))
  {
    assert Tags(c)[v].0 == Tags(c)[w].0;
  }

  lemma NoGapNoException(c: Chain)
    requires ChainOk(c) && !HasGap(Tags(c))
    ensures TurnsKept(c)
  {
    forall v, w | 0 <= v < w < |c.all| && SameSession(c, v, w) && !c.all[w].state.Queued? ensures Over(c.all[v].state) {
      if Gapped(c, v, w) { GapShows(c, v, w); }
    }
  }
}
