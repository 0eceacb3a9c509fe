/**
 * resources/opencode-browser-plugin.ts: one call of a browser tool over its private socket (`request`),
 * and the set of live calls of one plugin instance (`stop`). Events may arrive in any order.
 */
module BrowserCall {

  const MAX_SCROLL_DELTA := 2000
  const MAX_MEDIA_REPLY_BYTES := 5 * 1024 * 1024 + 64 * 1024
  const MAX_REPLY_BYTES := 36 * 1024
  const MAX_MESSAGE_BYTES := 32 * 1024
  const MAX_FILL_BYTES := 8 * 1024

  datatype Action =
    | Fill(bytes: nat)
    | Evaluate(bytes: nat)
    | Scroll(deltaY: real)
    | ScrollByNoNumber
    | OtherAction

  /**
   * The one address of the process. The pattern `request` checks fixes all of it but the port, for which it lets
   * any digits through; of other addresses only whether a socket can be made for them matters.
   */
  datatype Address = Private(port: nat) | Elsewhere(constructible: bool)

  /** `new WebSocket(address)` does not throw: the URL standard ends ports at 65535. */
  predicate Constructible(a: Address) {
    match a
    case Private(port) => port <= 65535
    case Elsewhere(constructible) => constructible
  }

  /** What a call is made of, sizes in UTF-8 bytes. */
  datatype Request = Request(
    toolsEnabled: bool,
    hasContext: bool,         // a session id and a signal
    aborted: bool,
    action: Action,
    messageBytes: nat,
    requestId: string,
    isList: bool)             // `command.type === "list"`

  datatype ReplyType = Hello | ToolsState | Result | OtherType

  datatype ResultKind = NoResult | Error | Ok | Media | OtherKind

  /** One incoming message, as the handler reads it. */
  datatype Message =
    | NotText
    | NotJson
    | JsonNull
    | Reply(kind: ReplyType, version: int, requestId: string, result: ResultKind, bytes: nat)

  datatype Socket = Connecting | Open | Closing | Closed

  datatype Frame = HelloFrame | CommandFrame | CancelFrame

  datatype Outcome = Rejected | Resolved(reply: Message)

  /** The variables of one call; `outbox` is what really went out, `settled` how its promise was settled. */
  datatype Call = Call(
    constructed: bool,             // `new WebSocket` did not throw
    aborted: bool,
    sent: bool,
    finished: bool,
    authenticated: bool,
    listening: bool,          // the two abort listeners
    timeoutArmed: bool,
    socket: Socket,
    outbox: seq<Frame>,
    settled: seq<Outcome>)

  datatype Event =
    | SocketOpens
    | Receives(message: Message)
    | SocketFails
    | SocketCloses
    | RemoteCloses            // the socket starts closing; no handler runs
    | SessionAborts
    | ControllerAborts
    | TimeoutFires

  // ----- The checks made before any connection -----

  predicate ScrollOk(deltaY: real) {
    deltaY == deltaY.Floor as real && deltaY != 0.0 && -MAX_SCROLL_DELTA <= deltaY.Floor <= MAX_SCROLL_DELTA
  }

  predicate ActionOk(a: Action) {
    match a
    case Fill(bytes) => bytes <= MAX_FILL_BYTES
    case Evaluate(bytes) => bytes <= MAX_MESSAGE_BYTES
    case Scroll(deltaY) => ScrollOk(deltaY)
    case ScrollByNoNumber => false
    case OtherAction => true
  }

  predicate LocallyAccepted(r: Request, a: Address) {
    r.toolsEnabled && a.Private? && r.hasContext && !r.aborted && ActionOk(r.action)
      && r.messageBytes <= MAX_MESSAGE_BYTES
  }

  // ----- The specification: the call after each handler -----

  function Fresh(a: Address): Call {
    if Constructible(a) then Call(true, false, false, false, false, true, true, Connecting, [], [])
    else Call(false, false, false, false, false, false, false, Closed, [], [Rejected])
  }

  function End(c: Call, outcome: Outcome): Call {
    if c.finished then c
    else c.(finished := true, timeoutArmed := false, listening := false, settled := c.settled + [outcome],
            socket := if c.socket.Open? || c.socket.Connecting? then Closing else c.socket)
  }

  function SendCancel(c: Call): Call {
    if c.sent && c.socket.Open? then c.(outbox := c.outbox + [CancelFrame]) else c
  }

  function Cancel(c: Call): Call {
    End(SendCancel(c), Rejected)
  }

  /** `reply.result?.kind === "media" || command.type === "list"` */
  function ReplyLimit(m: Message, isList: bool): nat
    requires m.Reply?
  {
    if m.result.Media? || isList then MAX_MEDIA_REPLY_BYTES else MAX_REPLY_BYTES
  }

  /** Sending throws before the socket is open and is ignored once it closes. */
  function SendCommand(c: Call): Call {
    if c.socket.Connecting? then End(c, Rejected)
    else if c.socket.Open? then c.(outbox := c.outbox + [CommandFrame])
    else c
  }

  function OnMessage(c: Call, m: Message, r: Request): Call {
    if c.finished then c
    else if !m.Reply? || m.bytes > ReplyLimit(m, r.isList) then End(c, Rejected)
    else if !c.authenticated && m.kind.Hello? && m.version == 1 then
      SendCommand(c.(authenticated := true, sent := true))
    else if m.kind.ToolsState? then c
    else if !c.authenticated || !m.kind.Result? || m.requestId != r.requestId || m.result.NoResult? then
      End(c, Rejected)
    else if m.result.Ok? || m.result.Media? then End(c, Resolved(m))
    else End(c, Rejected)
  }

  function OnOpen(c: Call): Call {
    if c.finished || c.aborted then Cancel(c) else c.(outbox := c.outbox + [HelloFrame])
  }

  predicate Enabled(c: Call, e: Event) {
    c.constructed &&
    match e
    case SocketOpens => c.socket.Connecting?
    case RemoteCloses => c.socket.Connecting? || c.socket.Open?
    case TimeoutFires => c.timeoutArmed
    case _ => true
  }

  function Handle(c: Call, e: Event, r: Request): Call {
    match e
    case SocketOpens => OnOpen(c.(socket := Open))
    case Receives(m) => OnMessage(c, m, r)
    case SocketFails => End(c, Rejected)
    case SocketCloses => End(c.(socket := Closed), Rejected)
    case RemoteCloses => c.(socket := Closing)
    case SessionAborts => if c.listening then Cancel(c.(aborted := true)) else c.(aborted := true)
    case ControllerAborts => if c.listening then Cancel(c) else c
    case TimeoutFires => Cancel(c)
  }

  // ----- What every call keeps -----

  /** A reply that may resolve a call: its own, of a success kind, within the limit of that kind. */
  ghost predicate Acceptable(m: Message, r: Request) {
    && m.Reply? && m.kind.Result? && m.requestId == r.requestId
    && (m.result.Ok? || m.result.Media?)
    && m.bytes <= (if m.result.Media? || r.isList then MAX_MEDIA_REPLY_BYTES else MAX_REPLY_BYTES)
  }

  ghost predicate Wire(outbox: seq<Frame>) {
    outbox in {[], [HelloFrame], [HelloFrame, CommandFrame], [HelloFrame, CommandFrame, CancelFrame]}
  }

  ghost predicate CallOk(c: Call, r: Request) {
    && c.constructed && Wire(c.outbox) && |c.settled| == (if c.finished then 1 else 0)
    && (c.sent <==> c.authenticated)
    && (c.finished <==> !c.listening) && (c.finished <==> !c.timeoutArmed)
    && (c.finished ==> c.socket.Closing? || c.socket.Closed?)
    && (!c.finished ==> !c.aborted && |c.outbox| <= 2)
    && (c.socket.Connecting? ==> c.outbox == [] && !c.sent)
    && (!c.finished && c.socket.Open? ==> c.outbox == if c.sent then [HelloFrame, CommandFrame] else [HelloFrame])
    && (|c.outbox| >= 2 ==> c.sent)
    && forall k :: 0 <= k < |c.settled| && c.settled[k].Resolved? ==>
      c.authenticated && Acceptable(c.settled[k].reply, r)
  }

  lemma WireGrows()
    ensures [] + [HelloFrame] == [HelloFrame]
    ensures [HelloFrame] + [CommandFrame] == [HelloFrame, CommandFrame]
    ensures [HelloFrame, CommandFrame] + [CancelFrame] == [HelloFrame, CommandFrame, CancelFrame]
  {
  }

  lemma HandleKeeps(c: Call, e: Event, r: Request)
    requires CallOk(c, r) && Enabled(c, e)
    ensures CallOk(Handle(c, e, r), r)
  {
    WireGrows();
  }

  /** One call's run: the events that were possible when they came. */
  ghost predicate IsRun(c: Call, events: seq<Event>, r: Request, d: Call)
    decreases |events|
  {
    if events == [] then d == c
    else Enabled(c, events[0]) && IsRun(Handle(c, events[0], r), events[1..], r, d)
  }

  lemma {:induction false} RunKeeps(c: Call, events: seq<Event>, r: Request, d: Call)
    requires CallOk(c, r) && IsRun(c, events, r, d)
    ensures CallOk(d, r)
    decreases |events|
  {
    if events != [] {
      HandleKeeps(c, events[0], r);
      RunKeeps(Handle(c, events[0], r), events[1..], r, d);
    }
  }

  /** The event is the bridge's hello, as the handler accepts it. */
  ghost predicate IsHello(e: Event, r: Request) {
    e.Receives? && e.message.Reply? && e.message.kind.Hello? && e.message.version == 1
    && e.message.bytes <= ReplyLimit(e.message, r.isList)
  }

  lemma HelloNow(c: Call, e: Event, r: Request)
    requires !c.authenticated && Handle(c, e, r).authenticated
    ensures IsHello(e, r)
  {
  }

  /** Only a received hello authenticates. */
  lemma {:induction false} HelloWasHeard(c: Call, events: seq<Event>, r: Request, d: Call)
    requires IsRun(c, events, r, d) && !c.authenticated && d.authenticated
    ensures exists i :: 0 <= i < |events| && IsHello(events[i], r)
    decreases |events|
  {
    var next := Handle(c, events[0], r);
    if next.authenticated {
      HelloNow(c, events[0], r);
    } else {
      HelloWasHeard(next, events[1..], r, d);
      var i :| 0 <= i < |events[1..]| && IsHello(events[1..][i], r);
      assert IsHello(events[i + 1], r);
    }
  }

  /** What the run heard before it resolved: a hello, unless it was authenticated already, and then the reply itself. */
  ghost predicate Heard(authenticated: bool, events: seq<Event>, r: Request, reply: Message) {
    exists j :: 0 <= j < |events| && events[j] == Receives(reply)
      && (authenticated || exists i :: 0 <= i < j && IsHello(events[i], r))
  }

  lemma {:induction false} RepliesWereHeard(c: Call, events: seq<Event>, r: Request, d: Call, reply: Message)
    requires CallOk(c, r) && IsRun(c, events, r, d) && c.settled == [] && d.settled == [Resolved(reply)]
    ensures Heard(c.authenticated, events, r, reply)
    decreases |events|
  {
    var next := Handle(c, events[0], r);
    HandleKeeps(c, events[0], r);
    if next.settled == [] {
      RepliesWereHeard(next, events[1..], r, d, reply);
      HeardLater(c, events, r, reply);
    } else {
      SettledStays(next, events[1..], r, d);
      assert next.settled == [Resolved(reply)];
      ResolvedNow(c, events[0], r, reply);
      assert events[0] == Receives(reply) && c.authenticated;
    }
  }

  lemma HeardLater(c: Call, events: seq<Event>, r: Request, reply: Message)
    requires events != [] && Heard(Handle(c, events[0], r).authenticated, events[1..], r, reply)
    ensures Heard(c.authenticated, events, r, reply)
  {
    var later := events[1..];
    var j :| 0 <= j < |later| && later[j] == Receives(reply)
             && (Handle(c, events[0], r).authenticated || exists i :: 0 <= i < j && IsHello(later[i], r));
    assert events[j + 1] == Receives(reply);
    if !c.authenticated {
      if Handle(c, events[0], r).authenticated {
        HelloNow(c, events[0], r);
        assert IsHello(events[0], r);
      } else {
        var i :| 0 <= i < j && IsHello(later[i], r);
        assert IsHello(events[i + 1], r);
      }
    }
  }

  lemma {:induction false} SettledStays(c: Call, events: seq<Event>, r: Request, d: Call)
    requires CallOk(c, r) && c.settled != [] && IsRun(c, events, r, d)
    ensures d.settled == c.settled
    decreases |events|
  {
    if events != [] {
      HandleKeeps(c, events[0], r);
      SettledStays(Handle(c, events[0], r), events[1..], r, d);
    }
  }

  lemma ResolvedNow(c: Call, e: Event, r: Request, reply: Message)
    requires c.settled == [] && Handle(c, e, r).settled == [Resolved(reply)]
    ensures e == Receives(reply) && c.authenticated
  {
    assert [] + [Rejected] == [Rejected];
    if e.Receives? { assert [] + [Resolved(e.message)] == [Resolved(e.message)]; }
  }

  /**
   * For every order of events: a call settles at most once; its command goes out at most once, only after a received
   * hello; a cancel at most once, only after the command and never while the call is open; and it resolves only
   * with a received success reply of its own, after a received hello, within the limit of that reply.
   */
  lemma OneCallIsSafe(a: Address, r: Request, events: seq<Event>, d: Call)
    requires Constructible(a) && IsRun(Fresh(a), events, r, d)
    ensures |d.settled| <= 1 && (d.finished <==> d.settled != [])
    ensures d.outbox in {[], [HelloFrame], [HelloFrame, CommandFrame], [HelloFrame, CommandFrame, CancelFrame]}
    ensures CommandFrame in d.outbox ==> exists i :: 0 <= i < |events| && IsHello(events[i], r)
    ensures CancelFrame in d.outbox ==> d.settled == [Rejected]
    ensures forall k :: 0 <= k < |d.settled| && d.settled[k].Resolved? ==>
      (Acceptable(d.settled[k].reply, r) && Heard(false, events, r, d.settled[k].reply))
  {
    RunKeeps(Fresh(a), events, r, d);
    CancelRejects(Fresh(a), events, r, d);
    if d.authenticated { HelloWasHeard(Fresh(a), events, r, d); }
    forall k | 0 <= k < |d.settled| && d.settled[k].Resolved? ensures Heard(false, events, r, d.settled[k].reply) {
      assert d.settled == [d.settled[k]];
      RepliesWereHeard(Fresh(a), events, r, d, d.settled[k].reply);
    }
  }

  ghost predicate CancelledIsRejected(c: Call) {
    CancelFrame in c.outbox ==> c.settled == [Rejected]
  }

  /** A cancelled call was rejected: nothing that was cancelled resolves. */
  lemma {:induction false} CancelRejects(c: Call, events: seq<Event>, r: Request, d: Call)
    requires CallOk(c, r) && CancelledIsRejected(c) && IsRun(c, events, r, d)
    ensures CancelledIsRejected(d)
    decreases |events|
  {
    if events != [] {
      HandleKeeps(c, events[0], r);
      HandleKeepsCancelled(c, events[0], r);
      CancelRejects(Handle(c, events[0], r), events[1..], r, d);
    }
  }

  lemma HandleKeepsCancelled(c: Call, e: Event, r: Request)
    requires CallOk(c, r) && CancelledIsRejected(c) && Enabled(c, e)
    ensures CancelledIsRejected(Handle(c, e, r))
  {
    WireGrows();
    if !c.finished {
      assert CancelFrame !in c.outbox;
    }
  }

  /** Exactly which messages resolve a call: none other does, and each of these does. */
  lemma ResolvesExactly(c: Call, m: Message, r: Request)
    requires CallOk(c, r) && !c.finished
    ensures Handle(c, Receives(m), r).settled == [Resolved(m)] <==> c.authenticated && Acceptable(m, r)
  {
    assert c.settled == [] && c.settled + [Resolved(m)] == [Resolved(m)] && c.settled + [Rejected] == [Rejected];
  }

  // ----- Exactly what each event does to an open call -----

  /** An open call in some run. */
  ghost predicate OpenCall(a: Address, r: Request, events: seq<Event>, c: Call) {
    Constructible(a) && IsRun(Fresh(a), events, r, c) && c.settled == []
  }

  lemma OpenCallIsOk(a: Address, r: Request, events: seq<Event>, c: Call)
    requires OpenCall(a, r, events, c)
    ensures CallOk(c, r) && !c.finished
  {
    RunKeeps(Fresh(a), events, r, c);
  }

  /** A failure, the end of the socket, the timeout and either abort. */
  predicate Ends(e: Event) {
    e.SocketFails? || e.SocketCloses? || e.TimeoutFires? || e.SessionAborts? || e.ControllerAborts?
  }

  /**
   * Each of these rejects an open call and disarms it. A cancel goes out exactly on a timeout or an abort,
   * after a sent command, over an open socket.
   */
  lemma EndingsReject(a: Address, r: Request, events: seq<Event>, c: Call, e: Event)
    requires OpenCall(a, r, events, c) && Enabled(c, e) && Ends(e)
    ensures var d := Handle(c, e, r);
      && d.settled == [Rejected] && !d.timeoutArmed && !d.listening
      && d.outbox == c.outbox
           + (if (e.TimeoutFires? || e.SessionAborts? || e.ControllerAborts?) && c.sent && c.socket.Open?
              then [CancelFrame] else [])
      && (d.socket.Closing? || d.socket.Closed?)
  {
    OpenCallIsOk(a, r, events, c);
    assert c.settled + [Rejected] == [Rejected] && c.outbox + [] == c.outbox;
  }

  /** The bytes a reply may have: 5 MiB and 64 KiB for an image or the answer to a list, 36 KiB otherwise. */
  function ByteLimit(m: Message, isList: bool): nat
    requires m.Reply?
  {
    if m.result.Media? || isList then 5_308_416 else 36_864
  }

  /** A message that neither settles a call nor is a mistake: the first hello, or the tools state. */
  predicate Passes(c: Call, m: Message, r: Request) {
    m.Reply? && m.bytes <= ByteLimit(m, r.isList)
    && ((m.kind.Hello? && m.version == 1 && !c.authenticated && !c.socket.Connecting?) || m.kind.ToolsState?)
  }

  /** A success reply of this call. */
  predicate IsAnswer(m: Message, r: Request) {
    m.Reply? && m.bytes <= ByteLimit(m, r.isList) && m.kind.Result? && m.requestId == r.requestId
    && (m.result.Ok? || m.result.Media?)
  }

  /**
   * A message resolves an open call with itself exactly when it is its answer after the hello; it leaves the call
   * open exactly when it passes; any other rejects it. No message makes it send a cancel.
   */
  lemma MessagesSettle(a: Address, r: Request, events: seq<Event>, c: Call, m: Message)
    requires OpenCall(a, r, events, c)
    ensures Handle(c, Receives(m), r).settled
      == if Passes(c, m, r) then [] else if c.authenticated && IsAnswer(m, r) then [Resolved(m)] else [Rejected]
  {
    OpenCallIsOk(a, r, events, c);
    assert c.settled + [Resolved(m)] == [Resolved(m)] && c.settled + [Rejected] == [Rejected];
  }

  /** The command goes out exactly on the first hello over an open socket, and authenticates the call. */
  lemma CommandFollowsHello(a: Address, r: Request, events: seq<Event>, c: Call, m: Message)
    requires OpenCall(a, r, events, c)
    ensures var d, first := Handle(c, Receives(m), r), Passes(c, m, r) && m.kind.Hello? && m.version == 1
      && !c.authenticated;
      && (first ==> d.authenticated && d.sent)
      && d.outbox == c.outbox + if first && c.socket.Open? then [CommandFrame] else []
  {
    OpenCallIsOk(a, r, events, c);
    assert c.outbox + [] == c.outbox;
  }

  /** An opening socket says hello and leaves the call open; the start of its closing changes nothing else. */
  lemma OpeningGreets(a: Address, r: Request, events: seq<Event>, c: Call)
    requires OpenCall(a, r, events, c)
    ensures Enabled(c, SocketOpens) ==>
      (Handle(c, SocketOpens, r).settled == [] && Handle(c, SocketOpens, r).outbox == c.outbox + [HelloFrame])
    ensures Handle(c, RemoteCloses, r) == c.(socket := Closing)
  {
    OpenCallIsOk(a, r, events, c);
  }

  /** Nothing moves a settled call any more, except its socket. */
  lemma SettledIsOver(c: Call, e: Event, r: Request)
    requires CallOk(c, r) && c.settled != [] && Enabled(c, e)
    ensures Handle(c, e, r).settled == c.settled && Handle(c, e, r).outbox == c.outbox
  {
  }

  // ----- The live calls of one plugin instance -----

  /** How far `setup` is: the probe decides whether any tool is registered at all. */
  datatype Phase = Probing | Serving | Inert

  datatype Instance = Instance(
    address: Address,
    phase: Phase,
    requests: map<nat, Request>,
    calls: map<nat, Call>,
    sessions: set<nat>)

  datatype Step =
    | ProbeEnds(greeted: bool)              // whether the probe's socket, if it could be made, heard a hello
    | Issue(call: nat, request: Request)    // a tool call, under a fresh controller
    | Deliver(call: nat, event: Event)
    | Unload                                // `stop`

  /** What `end` leaves of the set. */
  function Remaining(sessions: set<nat>, id: nat, before: Call, after: Call): set<nat> {
    if after.finished && !before.finished then sessions - {id} else sessions
  }

  function Issued(s: Instance, id: nat, r: Request): Instance {
    if !LocallyAccepted(r, s.address) then s
    else s.(requests := s.requests[id := r], calls := s.calls[id := Fresh(s.address)], sessions := s.sessions + {id})
  }

  /** `verifyBridge` makes a socket for the same address; without a hello over it, `setup` returns with no tool. */
  function Probed(s: Instance, greeted: bool): Instance {
    s.(phase := if Constructible(s.address) && greeted then Serving else Inert)
  }

  function Delivered(s: Instance, id: nat, e: Event): Instance
    requires id in s.calls && id in s.requests
  {
    var after := Handle(s.calls[id], e, s.requests[id]);
    s.(calls := s.calls[id := after], sessions := Remaining(s.sessions, id, s.calls[id], after))
  }

  /** After `stop`: every call with a live socket is cancelled and gone; the rest is as before. */
  function Stopped(s: Instance): Instance {
    s.(calls := map id | id in s.calls ::
         if id in s.sessions && s.calls[id].listening then Cancel(s.calls[id]) else s.calls[id],
       sessions := set id | id in s.sessions && !(id in s.calls && s.calls[id].listening))
  }

  predicate Possible(s: Instance, step: Step) {
    match step
    case ProbeEnds(_) => s.phase.Probing?
    case Issue(id, _) => s.phase.Serving? && id !in s.calls
    case Deliver(id, e) => id in s.calls && id in s.requests && Enabled(s.calls[id], e)
    case Unload => !s.phase.Probing?
  }

  function Next(s: Instance, step: Step): Instance
    requires Possible(s, step)
  {
    match step
    case ProbeEnds(greeted) => Probed(s, greeted)
    case Issue(id, r) => Issued(s, id, r)
    case Deliver(id, e) => Delivered(s, id, e)
    case Unload => Stopped(s)
  }

  ghost predicate InstanceOk(s: Instance) {
    && (s.phase.Serving? ==> Constructible(s.address)) && (!s.phase.Serving? ==> s.calls == map[])
    && s.requests.Keys == s.calls.Keys && s.sessions <= s.calls.Keys
    && (forall id :: id in s.calls ==> CallOk(s.calls[id], s.requests[id]))
    && (forall id :: id in s.calls ==> (id in s.sessions <==> !s.calls[id].finished))
  }

  lemma NextKeeps(s: Instance, step: Step)
    requires InstanceOk(s) && Possible(s, step)
    ensures InstanceOk(Next(s, step))
  {
    match step
    case ProbeEnds(_) =>
    case Issue(id, r) => assert CallOk(Fresh(s.address), r);
    case Deliver(id, e) => DeliverKeeps(s, id, e);
    case Unload => UnloadKeeps(s);
  }

  lemma DeliverKeeps(s: Instance, id: nat, e: Event)
    requires InstanceOk(s) && Possible(s, Deliver(id, e))
    ensures InstanceOk(Delivered(s, id, e))
  {
    HandleKeeps(s.calls[id], e, s.requests[id]);
  }

  lemma UnloadKeeps(s: Instance)
    requires InstanceOk(s)
    ensures InstanceOk(Stopped(s))
  {
    forall id | id in s.calls && s.calls[id].listening ensures CallOk(Cancel(s.calls[id]), s.requests[id]) {
      HandleKeeps(s.calls[id], ControllerAborts, s.requests[id]);
    }
  }

  ghost predicate IsHistory(s: Instance, steps: seq<Step>, t: Instance)
    decreases |steps|
  {
    if steps == [] then t == s
    else Possible(s, steps[0]) && IsHistory(Next(s, steps[0]), steps[1..], t)
  }

  lemma {:induction false} HistoryKeeps(s: Instance, steps: seq<Step>, t: Instance)
    requires InstanceOk(s) && IsHistory(s, steps, t)
    ensures InstanceOk(t)
    decreases |steps|
  {
    if steps != [] {
      NextKeeps(s, steps[0]);
      HistoryKeeps(Next(s, steps[0]), steps[1..], t);
    }
  }

  /** A plugin instance whose `setup` has begun. */
  function NoCalls(a: Address): Instance { Instance(a, Probing, map[], map[], {}) }

  function Unsettled(t: Instance): set<nat> {
    set id | id in t.calls && t.calls[id].settled == []
  }

  /** What `request` refuses before it opens a connection, spelled out. */
  predicate Refused(r: Request, a: Address) {
    || !r.toolsEnabled || !a.Private? || !r.hasContext || r.aborted || r.messageBytes > 32_768
    || (r.action.Fill? && r.action.bytes > 8_192)
    || (r.action.Evaluate? && r.action.bytes > 32_768)
    || r.action.ScrollByNoNumber?
    || (r.action.Scroll?
      && !(r.action.deltaY.Floor as real == r.action.deltaY && 1 <= Abs(r.action.deltaY.Floor) <= 2_000))
  }

  function Abs(n: int): nat { if n < 0 then -n else n }

  /** A call enters the set exactly when it is not refused; a refused one changes nothing. */
  lemma EntersUnlessRefused(s: Instance, id: nat, r: Request)
    requires InstanceOk(s) && Possible(s, Issue(id, r))
    ensures if Refused(r, s.address) then Next(s, Issue(id, r)) == s
            else Next(s, Issue(id, r)).sessions == s.sessions + {id} && id in Next(s, Issue(id, r)).calls
                 && Next(s, Issue(id, r)).calls[id].settled == [] && Next(s, Issue(id, r)).calls[id].outbox == []
  {
  }

  /** Tools are served exactly after a probe that was greeted over an address a socket can be made for. */
  lemma ServesExactly(a: Address, steps: seq<Step>, t: Instance)
    requires IsHistory(NoCalls(a), steps, t) && steps != []
    ensures t.phase.Serving? <==> Constructible(a) && steps[0] == ProbeEnds(true)
    ensures !t.phase.Serving? ==> t.phase.Inert?
  {
    PhaseStays(Next(NoCalls(a), steps[0]), steps[1..], t);
  }

  lemma {:induction false} PhaseStays(s: Instance, steps: seq<Step>, t: Instance)
    requires IsHistory(s, steps, t) && !s.phase.Probing?
    ensures t.phase == s.phase
    decreases |steps|
  {
    if steps != [] { PhaseStays(Next(s, steps[0]), steps[1..], t); }
  }

  /** In every reachable state the set is exactly the unsettled calls that passed the local checks. */
  lemma SessionsAreTheUnsettled(a: Address, steps: seq<Step>, t: Instance)
    requires IsHistory(NoCalls(a), steps, t)
    ensures t.sessions == Unsettled(t)
  {
    HistoryKeeps(NoCalls(a), steps, t);
  }

  /** Unloading settles every unsettled call, changes no other, and empties the set. */
  lemma StopSettlesAll(a: Address, steps: seq<Step>, t: Instance)
    requires IsHistory(NoCalls(a), steps, t)
    ensures Stopped(t).sessions == {} && Stopped(t).calls.Keys == t.calls.Keys
    ensures forall id :: id in t.calls ==> |Stopped(t).calls[id].settled| == 1
    ensures forall id :: id in t.calls && t.calls[id].settled != [] ==> Stopped(t).calls[id] == t.calls[id]
    ensures forall id :: id in t.calls && t.calls[id].settled == [] ==> CancelledNow(t.calls[id], Stopped(t).calls[id])
  {
    HistoryKeeps(NoCalls(a), steps, t);
    forall id | id in t.calls ensures |Stopped(t).calls[id].settled| == 1 {
      HandleKeeps(t.calls[id], ControllerAborts, t.requests[id]);
    }
    forall id | id in t.calls && t.calls[id].settled == [] ensures CancelledNow(t.calls[id], Stopped(t).calls[id]) {
      assert t.calls[id].settled + [Rejected] == [Rejected] && t.calls[id].outbox + [] == t.calls[id].outbox;
    }
  }

  /** Rejected, with a cancel frame exactly after a sent command over an open socket. */
  ghost predicate CancelledNow(c: Call, d: Call) {
    d.settled == [Rejected] && d.outbox == c.outbox + if c.sent && c.socket.Open? then [CancelFrame] else []
  }

  lemma {:induction false} AddressStays(s: Instance, steps: seq<Step>, t: Instance)
    requires IsHistory(s, steps, t)
    ensures t.address == s.address
    decreases |steps|
  {
    if steps != [] { AddressStays(Next(s, steps[0]), steps[1..], t); }
  }

  /**
   * Why this needs the probe. `request` adds its controller before it makes the socket, so on its own it would leave
   * a rejected call in the set exactly when the port is over 65535. No instance with such an address ever serves one.
   */
  lemma ProbeKeepsBadPortsOut(port: nat, steps: seq<Step>, t: Instance, id: nat, r: Request)
    requires IsHistory(NoCalls(Private(port)), steps, t) && LocallyAccepted(r, t.address)
    ensures id in Issued(t, id, r).sessions && (Issued(t, id, r).calls[id].settled == [] <==> port <= 65535)
    ensures port > 65535 ==> !t.phase.Serving? && t.calls == map[] && t.sessions == {}
  {
    HistoryKeeps(NoCalls(Private(port)), steps, t);
    AddressStays(NoCalls(Private(port)), steps, t);
  }

  // ----- The closures of `request` and the set of `setup`, as objects -----

  class SessionSet {
    var live: set<nat>

    constructor ()
      ensures live == {}
    {
      live := {};
    }
  }

  /** The variables captured by the handlers of one call. */
  class Connection {
    const id: nat
    const address: Address
    const request: Request
    const sessions: SessionSet
    var constructed: bool
    var aborted: bool
    var sent: bool
    var finished: bool
    var authenticated: bool
    var listening: bool
    var timeoutArmed: bool
    var socket: Socket
    ghost var outbox: seq<Frame>
    ghost var settled: seq<Outcome>

    ghost function Snapshot(): Call
      reads this
    {
      Call(constructed, aborted, sent, finished, authenticated, listening, timeoutArmed, socket, outbox, settled)
    }

    constructor (id: nat, address: Address, request: Request, sessions: SessionSet)
      ensures this.id == id && this.address == address && this.request == request && this.sessions == sessions
      ensures Snapshot() == Fresh(address)
    {
      this.id, this.address, this.request, this.sessions := id, address, request, sessions;
      var ok := Constructible(address);
      constructed, listening, timeoutArmed := ok, ok, ok;
      aborted, sent, finished, authenticated := false, false, false, false;
      socket := if ok then Connecting else Closed;
      outbox, settled := [], if ok then [] else [Rejected];
    }

    method EndCall(outcome: Outcome)
      modifies this, sessions
      ensures Snapshot() == End(old(Snapshot()), outcome)
      ensures sessions.live == Remaining(old(sessions.live), id, old(Snapshot()), Snapshot())
    {
      if finished { return; }
      finished := true;
      timeoutArmed := false;
      listening := false;
      sessions.live := sessions.live - {id};
      if socket.Open? || socket.Connecting? { socket := Closing; }
      settled := settled + [outcome];
    }

    /** `cancel`, and the timeout handler, which does the same. */
    method CancelCall()
      modifies this, sessions
      ensures Snapshot() == Cancel(old(Snapshot()))
      ensures sessions.live == Remaining(old(sessions.live), id, old(Snapshot()), Snapshot())
    {
      if sent && socket.Open? { outbox := outbox + [CancelFrame]; }
      EndCall(Rejected);
    }

    method OnMessageEvent(m: Message)
      modifies this, sessions
      ensures Snapshot() == OnMessage(old(Snapshot()), m, request)
      ensures sessions.live == Remaining(old(sessions.live), id, old(Snapshot()), Snapshot())
    {
      if finished { return; }
      if !m.Reply? { EndCall(Rejected); return; }
      if m.bytes > ReplyLimit(m, request.isList) { EndCall(Rejected); return; }
      if !authenticated && m.kind.Hello? && m.version == 1 {
        authenticated := true;
        sent := true;
        if socket.Connecting? {
          EndCall(Rejected);
        } else if socket.Open? {
          outbox := outbox + [CommandFrame];
        }
        return;
      }
      if m.kind.ToolsState? { return; }
      if !authenticated || !m.kind.Result? || m.requestId != request.requestId || m.result.NoResult? {
        EndCall(Rejected);
        return;
      }
      if m.result.Error? {
        EndCall(Rejected);
      } else if m.result.Ok? || m.result.Media? {
        EndCall(Resolved(m));
      } else {
        EndCall(Rejected);
      }
    }

    method OnEvent(e: Event)
      requires Enabled(Snapshot(), e)
      modifies this, sessions
      ensures Snapshot() == Handle(old(Snapshot()), e, request)
      ensures sessions.live == Remaining(old(sessions.live), id, old(Snapshot()), Snapshot())
    {
      match e {
        case SocketOpens =>
          socket := Open;
          if finished || aborted { CancelCall(); } else { outbox := outbox + [HelloFrame]; }
        case Receives(m) => OnMessageEvent(m);
        case SocketFails => EndCall(Rejected);
        case SocketCloses =>
          socket := Closed;
          EndCall(Rejected);
        case RemoteCloses => socket := Closing;
        case SessionAborts =>
          aborted := true;
          if listening { CancelCall(); }
        case ControllerAborts => if listening { CancelCall(); }
        case TimeoutFires => CancelCall();
      }
    }
  }

  /** The calls cancelled once `visited` have been aborted. */
  ghost function Aborted(start: Instance, visited: set<nat>): set<nat> {
    set id | id in visited && id in start.calls && start.calls[id].listening
  }

  /** A call as it is once `visited` have been aborted. */
  ghost function AfterAborts(start: Instance, visited: set<nat>, id: nat): Call
    requires id in start.calls
  {
    if id in visited && start.calls[id].listening then Cancel(start.calls[id]) else start.calls[id]
  }

  /** What `InstanceOk` says of the set: it holds known calls, and a call that listens is not finished. */
  ghost predicate Tracked(s: Instance) {
    s.sessions <= s.calls.Keys && forall id :: id in s.calls ==> s.calls[id].listening ==> !s.calls[id].finished
  }

  /** Whatever has happened to an instance, `stop` may be called. */
  lemma ReachableIsTracked(a: Address, steps: seq<Step>, t: Instance)
    requires IsHistory(NoCalls(a), steps, t)
    ensures Tracked(t)
  {
    HistoryKeeps(NoCalls(a), steps, t);
  }

  lemma AbortingAllIsStopping(start: Instance)
    requires Tracked(start)
    ensures Stopped(start).calls.Keys == start.calls.Keys && Stopped(start).requests == start.requests
    ensures Stopped(start).address == start.address && Stopped(start).phase == start.phase
    ensures forall id :: id in start.calls ==> Stopped(start).calls[id] == AfterAborts(start, start.sessions, id)
    ensures Stopped(start).sessions == start.sessions - Aborted(start, start.sessions)
  {
  }

  lemma RegisteredIsIssued(s: Instance, t: Instance, id: nat, r: Request)
    requires LocallyAccepted(r, s.address) && t.sessions == s.sessions + {id} && t.address == s.address
      && t.phase == s.phase
    requires t.requests.Keys == s.requests.Keys + {id} && t.calls.Keys == s.calls.Keys + {id}
    requires id in t.requests && t.requests[id] == r
    requires forall k :: k in s.requests && k != id ==> t.requests[k] == s.requests[k]
    requires t.calls[id] == Fresh(s.address) && forall k :: k in s.calls && k != id ==> t.calls[k] == s.calls[k]
    ensures t == Issued(s, id, r)
  {
    assert t.requests == s.requests[id := r];
    assert t.calls == s.calls[id := Fresh(s.address)];
  }

  class Plugin {
    const address: Address
    const sessions: SessionSet
    var phase: Phase
    var connections: map<nat, Connection>

    ghost predicate Valid()
      reads this
    {
      forall id :: id in connections ==> connections[id].id == id && connections[id].sessions == sessions
    }

    ghost function Snapshot(): Instance
      reads this, sessions, connections.Values
    {
      Instance(address, phase, map id | id in connections :: connections[id].request,
               map id | id in connections :: connections[id].Snapshot(), sessions.live)
    }

    constructor (address: Address)
      ensures Valid() && Snapshot() == NoCalls(address)
      ensures fresh(sessions) && connections == map[]
    {
      this.address := address;
      sessions := new SessionSet();
      phase := Probing;
      connections := map[];
    }

    /** `setup` after `await verifyBridge()`; a socket that cannot be made rejects the probe. */
    method OnProbeEnd(greeted: bool)
      requires Valid() && phase.Probing?
      modifies this`phase
      ensures Valid() && Snapshot() == Probed(old(Snapshot()), greeted)
    {
      var ready := Constructible(address) && greeted;
      phase := if ready then Serving else Inert;
    }

    /** `request`, up to the point where its promise is returned. */
    method IssueCall(id: nat, r: Request) returns (accepted: bool)
      requires Valid() && phase.Serving? && id !in connections
      modifies this`connections, sessions
      ensures Valid() && Snapshot() == Issued(old(Snapshot()), id, r)
      ensures accepted <==> LocallyAccepted(r, address)
      ensures fresh(connections.Values - old(connections.Values))
    {
      accepted := LocallyAccepted(r, address);
      if accepted {
        ghost var before := Snapshot();
        Register(id, r);
        RegisteredIsIssued(before, Snapshot(), id, r);
      }
    }

    method Register(id: nat, r: Request)
      requires Valid() && id !in connections
      modifies this`connections, sessions
      ensures Valid() && connections.Keys == old(connections.Keys) + {id}
      ensures forall k :: k in old(connections) ==> connections[k] == old(connections[k])
      ensures forall k :: k in old(connections) ==> connections[k].Snapshot() == old(connections[k].Snapshot())
      ensures connections[id].request == r && connections[id].Snapshot() == Fresh(address)
      ensures fresh(connections[id])
      ensures sessions.live == old(sessions.live) + {id}
    {
      sessions.live := sessions.live + {id};
      var c := new Connection(id, address, r, sessions);
      connections := connections[id := c];
    }

    method DeliverEvent(id: nat, e: Event)
      requires Valid() && id in connections && Enabled(connections[id].Snapshot(), e)
      modifies sessions, connections[id]
      ensures Valid() && Snapshot() == Delivered(old(Snapshot()), id, e)
    {
      connections[id].OnEvent(e);
    }

    /** `controller.abort()` for one member of the set. */
    method Abort(id: nat)
      requires Valid() && id in connections
      modifies sessions, connections[id]
      ensures Valid()
      ensures forall k :: k in connections && k != id ==> connections[k].Snapshot() == old(connections[k].Snapshot())
      ensures connections[id].Snapshot()
        == if old(connections[id].listening) then Cancel(old(connections[id].Snapshot()))
          else old(connections[id].Snapshot())
      ensures sessions.live
        == if old(connections[id].listening && !connections[id].finished) then old(sessions.live) - {id}
          else old(sessions.live)
    {
      if connections[id].listening { connections[id].CancelCall(); }
    }

    ghost predicate Progress(start: Instance, visited: set<nat>)
      reads this, sessions, connections.Values
    {
      && connections.Keys == start.calls.Keys
      && (forall id :: id in connections ==> connections[id].Snapshot() == AfterAborts(start, visited, id))
      && sessions.live == start.sessions - Aborted(start, visited)
    }

    method AbortNext(id: nat, ghost start: Instance, ghost visited: set<nat>)
      requires Valid() && Tracked(start) && Progress(start, visited) && id in connections && id !in visited
      modifies sessions, connections[id]
      ensures Valid() && Progress(start, visited + {id})
    {
      assert connections[id].Snapshot() == start.calls[id];
      Abort(id);
      assert Aborted(start, visited + {id}) == Aborted(start, visited) + if start.calls[id].listening then {id} else {};
    }

    /** `for (const controller of sessions) controller.abort()`, the set shrinking under the iteration. */
    method Stop()
      requires Valid() && Tracked(Snapshot())
      modifies sessions, connections.Values
      ensures Valid() && Snapshot() == Stopped(old(Snapshot()))
    {
      ghost var start := Snapshot();
      var visited: set<nat> := {};
      assert start.sessions - Aborted(start, visited) == start.sessions;
      while sessions.live - visited != {}
        invariant Valid() && visited <= start.sessions && Progress(start, visited)
        decreases start.sessions - visited
      {
        var id :| id in sessions.live - visited;
        AbortNext(id, start, visited);
        visited := visited + {id};
      }
      StopIsComplete(start, visited);
    }

    lemma StopIsComplete(start: Instance, visited: set<nat>)
      requires Valid() && Tracked(start) && visited <= start.sessions && Progress(start, visited)
      requires sessions.live - visited == {} && Snapshot().requests == start.requests
      requires address == start.address && phase == start.phase
      ensures Snapshot() == Stopped(start)
    {
      forall id | id in start.sessions ensures id in visited {
        assert id in sessions.live ==> id !in sessions.live - visited;
        assert id in Aborted(start, visited) ==> id in visited;
      }
      assert visited == start.sessions;
      AbortingAllIsStopping(start);
      assert Snapshot().calls == Stopped(start).calls;
    }
  }

  // ----- The instances of one process -----

  /** Two instances share neither their set nor any call. */
  ghost predicate Apart(p: Plugin, q: Plugin)
    reads p, q
  {
    p.sessions != q.sessions && p.connections.Values !! q.connections.Values
  }

  ghost predicate Isolated(instances: set<Plugin>)
    reads instances
  {
    && (forall p :: p in instances ==> p.Valid())
    && (forall p, q :: p in instances && q in instances && p != q ==> Apart(p, q))
  }

  twostate lemma Spared(q: Plugin)
    requires unchanged(q) && unchanged(q.sessions) && forall c :: c in q.connections.Values ==> unchanged(c)
    ensures q.Snapshot() == old(q.Snapshot())
  {
  }

  /** A location loads the plugin: nothing in the process is shared with it. */
  method Load(address: Address, ghost others: set<Plugin>) returns (p: Plugin)
    requires Isolated(others)
    ensures fresh(p) && fresh(p.sessions) && Isolated(others + {p}) && p.Snapshot() == NoCalls(address)
    ensures forall q :: q in others ==> q.Snapshot() == old(q.Snapshot())
  {
    p := new Plugin(address);
  }

  method EndProbe(p: Plugin, ghost others: set<Plugin>, greeted: bool)
    requires p !in others && Isolated(others + {p}) && p.phase.Probing?
    modifies p`phase
    ensures Isolated(others + {p}) && p.Snapshot() == Probed(old(p.Snapshot()), greeted)
    ensures forall q :: q in others ==> q.Snapshot() == old(q.Snapshot())
  {
    p.OnProbeEnd(greeted);
  }

  method CallTool(p: Plugin, ghost others: set<Plugin>, id: nat, r: Request) returns (accepted: bool)
    requires p !in others && Isolated(others + {p}) && p.phase.Serving? && id !in p.connections
    modifies p`connections, p.sessions
    ensures Isolated(others + {p}) && p.Snapshot() == Issued(old(p.Snapshot()), id, r)
    ensures forall q :: q in others ==> q.Snapshot() == old(q.Snapshot())
  {
    accepted := p.IssueCall(id, r);
    forall q | q in others ensures q.Snapshot() == old(q.Snapshot()) {
      assert old(Apart(p, q));
      Spared(q);
    }
  }

  method HandleEvent(p: Plugin, ghost others: set<Plugin>, id: nat, e: Event)
    requires p !in others && Isolated(others + {p})
    requires id in p.connections && Enabled(p.connections[id].Snapshot(), e)
    modifies p.sessions, p.connections[id]
    ensures Isolated(others + {p}) && p.Snapshot() == Delivered(old(p.Snapshot()), id, e)
    ensures forall q :: q in others ==> q.Snapshot() == old(q.Snapshot())
  {
    p.DeliverEvent(id, e);
    forall q | q in others ensures q.Snapshot() == old(q.Snapshot()) {
      assert old(Apart(p, q));
      Spared(q);
    }
  }

  /** Cleanup of one location settles its own calls and leaves every other location's as they were. */
  method UnloadOne(p: Plugin, ghost others: set<Plugin>)
    requires p !in others && Isolated(others + {p}) && Tracked(p.Snapshot())
    modifies p.sessions, p.connections.Values
    ensures Isolated(others + {p}) && p.Snapshot() == Stopped(old(p.Snapshot()))
    ensures forall q :: q in others ==> q.Snapshot() == old(q.Snapshot())
  {
    p.Stop();
    forall q | q in others ensures q.Snapshot() == old(q.Snapshot()) {
      assert old(Apart(p, q));
      Spared(q);
    }
  }
}
