/**
 * resources/opencode-context-plugin.ts: the frozen instruction of a session (`instruction` and the context hook),
 * over every interleaving of lookups and requests, and the maps of one plugin instance.
 */
module ContextSession {

  import opened Options
  import opened WriteChain

  /** The instruction text a session carries, or none. */
  type Instruction = Option<string>

  datatype Lookup = Pending | Resolved(text: Instruction) | Rejected

  /** One `ctx.session.get(...)` promise. `handled` says its `catch` callback has run. */
  datatype Promise = Promise(session: string, lookup: Lookup, handled: bool)

  /** One request waiting in the context hook, or let through with what it carries. */
  datatype Request =
    | Waiting(session: string, promise: nat)
    | LetThrough(session: string, carries: Instruction)
    | Failed(session: string)

  datatype State = State(
    instructions: map<string, nat>,       // session to promise
    promises: seq<Promise>,
    requests: seq<Request>,
    disposed: bool)

  datatype Event =
    | RequestComes(session: string)
    | LookupSucceeds(promise: nat, text: Instruction)   // whatever the metadata says at that moment
    | LookupFails(promise: nat)
    | CatchRuns(promise: nat)
    | RequestResumes(request: nat)
    | Dispose

  function Initial(): State { State(map[], [], [], false) }

  /** `instruction(sessionID)`: the saved promise, or a new one. */
  function InstructionOf(s: State, session: string): (State, nat) {
    if session in s.instructions then (s, s.instructions[session])
    else
      var p := |s.promises|;
      (s.(promises := s.promises + [Promise(session, Pending, false)], instructions := s.instructions[session := p]), p)
  }

  function Come(s: State, session: string): State {
    var (s', p) := InstructionOf(s, session);
    s'.(requests := s'.requests + [Waiting(session, p)])
  }

  function Settle(s: State, p: nat, lookup: Lookup): State
    requires p < |s.promises|
  {
    s.(promises := s.promises[p := s.promises[p].(lookup := lookup)])
  }

  /** `if (instructions.get(sessionID) === pending) instructions.delete(sessionID)` */
  function Catch(s: State, p: nat): State
    requires p < |s.promises|
  {
    var session := s.promises[p].session;
    s.(promises := s.promises[p := s.promises[p].(handled := true)],
       instructions := if session in s.instructions && s.instructions[session] == p then s.instructions - {session}
         else s.instructions)
  }

  function Resume(s: State, r: nat): State
    requires r < |s.requests| && s.requests[r].Waiting? && s.requests[r].promise < |s.promises|
  {
    var session, lookup := s.requests[r].session, s.promises[s.requests[r].promise].lookup;
    s.(requests := s.requests[r := if lookup.Resolved? then LetThrough(session, lookup.text) else Failed(session)])
  }

  predicate Enabled(s: State, e: Event) {
    match e
    case RequestComes(_) => !s.disposed
    case LookupSucceeds(p, _) => p < |s.promises| && s.promises[p].lookup.Pending?
    case LookupFails(p) => p < |s.promises| && s.promises[p].lookup.Pending?
    case CatchRuns(p) => p < |s.promises| && s.promises[p].lookup.Rejected? && !s.promises[p].handled
    case RequestResumes(r) =>
      r < |s.requests| && s.requests[r].Waiting? && s.requests[r].promise < |s.promises|
      && !s.promises[s.requests[r].promise].lookup.Pending?
    case Dispose => true
  }

  function Step(s: State, e: Event): State
    requires Enabled(s, e)
  {
    match e
    case RequestComes(session) => Come(s, session)
    case LookupSucceeds(p, text) => Settle(s, p, Resolved(text))
    case LookupFails(p) => Settle(s, p, Lookup.Rejected)
    case CatchRuns(p) => Catch(s, p)
    case RequestResumes(r) => Resume(s, r)
    case Dispose => s.(disposed := true, instructions := map[])
  }

  /** Of the promises of one session, at most one has not failed, and it stays the saved one. */
  ghost predicate OnePromise(s: State) {
    && (forall session :: session in s.instructions ==>
        (s.instructions[session] < |s.promises| && s.promises[s.instructions[session]].session == session))
    && (forall p :: 0 <= p < |s.promises| && !s.promises[p].lookup.Rejected? && !s.disposed ==>
        s.promises[p].session in s.instructions && s.instructions[s.promises[p].session] == p)
    && (forall p, q :: 0 <= p < q < |s.promises| && s.promises[p].session == s.promises[q].session ==>
        s.promises[p].lookup.Rejected? || s.promises[q].lookup.Rejected?)
  }

  ghost predicate RequestsOk(s: State) {
    forall r :: 0 <= r < |s.requests| ==> RequestOk(s, s.requests[r])
  }

  ghost predicate RequestOk(s: State, r: Request) {
    match r
    case Waiting(session, p) => p < |s.promises| && s.promises[p].session == session
    case LetThrough(session, carries) =>
      exists p :: 0 <= p < |s.promises| && s.promises[p].session == session && s.promises[p].lookup == Resolved(carries)
    case Failed(_) => true
  }

  lemma ComeKeepsPromises(s: State, session: string)
    requires OnePromise(s) && !s.disposed
    ensures OnePromise(Come(s, session))
  {
  }

  lemma SettleKeepsPromises(s: State, p: nat, lookup: Lookup)
    requires OnePromise(s) && p < |s.promises| && s.promises[p].lookup.Pending?
    ensures OnePromise(Settle(s, p, lookup))
  {
  }

  lemma CatchKeepsPromises(s: State, p: nat)
    requires OnePromise(s) && p < |s.promises| && s.promises[p].lookup.Rejected?
    ensures OnePromise(Catch(s, p))
  {
  }

  lemma StepKeepsPromises(s: State, e: Event)
    requires OnePromise(s) && Enabled(s, e)
    ensures OnePromise(Step(s, e))
  {
    match e
    case RequestComes(session) => ComeKeepsPromises(s, session);
    case LookupSucceeds(p, text) => SettleKeepsPromises(s, p, Resolved(text));
    case LookupFails(p) => SettleKeepsPromises(s, p, Lookup.Rejected);
    case CatchRuns(p) => CatchKeepsPromises(s, p);
    case RequestResumes(_) =>
    case Dispose =>
  }

  lemma StepKeepsRequests(s: State, e: Event)
    requires OnePromise(s) && RequestsOk(s) && Enabled(s, e)
    ensures RequestsOk(Step(s, e))
  {
    var t := Step(s, e);
    forall r | 0 <= r < |t.requests| ensures RequestOk(t, t.requests[r]) {
      if r < |s.requests| {
        assert RequestOk(s, s.requests[r]);
        RequestStaysOk(s, e, s.requests[r]);
      }
    }
  }

  /** Whatever happens, what a request waits for or carries stays as it was. */
  lemma RequestStaysOk(s: State, e: Event, r: Request)
    requires OnePromise(s) && Enabled(s, e) && RequestOk(s, r)
    ensures RequestOk(Step(s, e), r)
  {
    var t := Step(s, e);
    if r.LetThrough? {
      var p :| 0 <= p < |s.promises| && s.promises[p].session == r.session
        && s.promises[p].lookup == Resolved(r.carries);
      assert t.promises[p].session == r.session && t.promises[p].lookup == Resolved(r.carries);
    }
  }

  ghost predicate IsRun(s: State, events: seq<Event>, t: State)
    decreases |events|
  {
    if events == [] then t == s
    else Enabled(s, events[0]) && IsRun(Step(s, events[0]), events[1..], t)
  }

  lemma {:induction false} RunKeeps(s: State, events: seq<Event>, t: State)
    requires OnePromise(s) && RequestsOk(s) && IsRun(s, events, t)
    ensures OnePromise(t) && RequestsOk(t)
    decreases |events|
  {
    if events != [] {
      StepKeepsPromises(s, events[0]);
      StepKeepsRequests(s, events[0]);
      RunKeeps(Step(s, events[0]), events[1..], t);
    }
  }

  /**
   * A request whose lookup has an answer goes through with that answer, and one whose lookup failed fails:
   * it waits for a lookup of its own session, and no other request changes.
   */
  lemma ResumesWithItsAnswer(events: seq<Event>, s: State, r: nat)
    requires IsRun(Initial(), events, s) && Enabled(s, RequestResumes(r))
    ensures var p, t := s.requests[r].promise, Step(s, RequestResumes(r));
      && s.promises[p].session == s.requests[r].session
      && (forall text :: s.promises[p].lookup == Resolved(text) ==>
        t.requests[r] == LetThrough(s.requests[r].session, text))
      && (s.promises[p].lookup.Rejected? ==> t.requests[r] == Failed(s.requests[r].session))
      && |t.requests| == |s.requests| && forall q :: 0 <= q < |t.requests| && q != r ==> t.requests[q] == s.requests[q]
  {
    RunKeeps(Initial(), events, s);
    assert RequestOk(s, s.requests[r]);
  }

  /** A lookup in flight or answered is shared by every later request of its session. */
  lemma LookupsAreShared(events: seq<Event>, s: State, p: nat)
    requires IsRun(Initial(), events, s) && p < |s.promises| && !s.promises[p].lookup.Rejected? && !s.disposed
    ensures var session, t := s.promises[p].session, Come(s, s.promises[p].session);
      t.promises == s.promises && t.requests == s.requests + [Waiting(session, p)]
  {
    RunKeeps(Initial(), events, s);
  }

  /** After a failed lookup was handled, the next request of its session looks the metadata up again. */
  lemma FailedLookupIsRetried(events: seq<Event>, s: State, p: nat)
    requires IsRun(Initial(), events, s) && Enabled(s, CatchRuns(p)) && !s.disposed
    requires s.promises[p].session in s.instructions && s.instructions[s.promises[p].session] == p
    ensures var session, t := s.promises[p].session, Step(s, CatchRuns(p));
      && session !in t.instructions && (forall other :: other != session ==>
           (other in t.instructions <==> other in s.instructions)
           && (other in t.instructions ==> t.instructions[other] == s.instructions[other]))
      && Come(t, session).promises == t.promises + [Promise(session, Pending, false)]
      && Come(t, session).requests == t.requests + [Waiting(session, |t.promises|)]
  {
  }

  lemma SamePromise(t: State, p: nat, q: nat)
    requires OnePromise(t) && p < |t.promises| && q < |t.promises| && t.promises[p].session == t.promises[q].session
    requires !t.promises[p].lookup.Rejected? && !t.promises[q].lookup.Rejected?
    ensures p == q
  {
  }

  /** All requests one plugin instance lets through for a session carry the same instruction, or all carry none. */
  lemma InstructionIsFrozen(events: seq<Event>, t: State, i: nat, j: nat)
    requires IsRun(Initial(), events, t)
    requires i < |t.requests| && j < |t.requests| && t.requests[i].LetThrough? && t.requests[j].LetThrough?
    requires t.requests[i].session == t.requests[j].session
    ensures t.requests[i].carries == t.requests[j].carries
  {
    RunKeeps(Initial(), events, t);
    assert RequestOk(t, t.requests[i]) && RequestOk(t, t.requests[j]);
    var p :| 0 <= p < |t.promises| && t.promises[p].session == t.requests[i].session
             && t.promises[p].lookup == Resolved(t.requests[i].carries);
    var q :| 0 <= q < |t.promises| && t.promises[q].session == t.requests[j].session
             && t.promises[q].lookup == Resolved(t.requests[j].carries);
    SamePromise(t, p, q);
  }

  // ----- The system list -----

  datatype Part = TextPart(text: string) | OtherPart(tag: int)

  /**
   * The hook adds the instruction unless the list has it already. `system` is none where the event
   * holds no array; the result is none where the hook throws.
   */
  function Apply(system: Option<seq<Part>>, carries: Instruction): Option<Option<seq<Part>>> {
    if carries.None? then Some(system)
    else if system.None? then None
    else if TextPart(carries.value) in system.value then Some(system)
    else Some(Some(system.value + [TextPart(carries.value)]))
  }

  /** The hook run `n` times on one event, up to the first time it throws. */
  function ApplyTimes(system: Option<seq<Part>>, carries: Instruction, n: nat): Option<Option<seq<Part>>> {
    if n == 0 then Some(system)
    else
      match ApplyTimes(system, carries, n - 1)
      case None => None
      case Some(list) => Apply(list, carries)
  }

  /**
   * However often the hook runs on an event, it does what it did the first time; the instruction is added at most once.
   */
  lemma {:induction false} HooksAddOnce(system: Option<seq<Part>>, carries: Instruction, n: nat)
    requires n > 0
    ensures ApplyTimes(system, carries, n) == Apply(system, carries)
    ensures Apply(system, carries).Some? && system.Some? && carries.Some? ==>
              (var part := TextPart(carries.value);
               multiset(Apply(system, carries).value.value)
               == multiset(system.value) + if part in system.value then multiset{} else multiset{part})
  {
    if n > 1 {
      HooksAddOnce(system, carries, n - 1);
      ApplyIsIdempotent(system, carries);
    } else {
      assert ApplyTimes(system, carries, 0) == Some(system);
    }
  }

  /**
   * The hook throws only for want of a list to put the instruction in. Otherwise the list is kept, with at most
   * one part added at its end; the instruction is in it; and running the hook again changes nothing.
   */
  lemma ApplyIsIdempotent(system: Option<seq<Part>>, carries: Instruction)
    ensures Apply(system, carries).None? <==> (system.None? && carries.Some?)
    ensures Apply(system, carries).Some? ==> Apply(Apply(system, carries).value, carries) == Apply(system, carries)
    ensures Apply(system, carries).Some? && system.Some? ==>
              (var after := Apply(system, carries).value;
               after.Some? && system.value <= after.value && |after.value| <= |system.value| + 1
               && (carries.Some? ==> TextPart(carries.value) in after.value))
  {
  }

  // ----- The maps of one plugin instance -----

  /**
   * `instructions` and `writes` as the plugin object updates them. The other fields stand for the promises
   * themselves: what they resolve to, and the order in which `storage.set` was called.
   */
  class Plugin {
    var instructions: map<string, nat>
    var promises: seq<Promise>
    var requests: seq<Request>
    var disposed: bool
    var phase: Phase
    var writes: map<string, nat>
    var all: seq<Write>
    var started: seq<nat>

    ghost function Session(): State reads this { State(instructions, promises, requests, disposed) }
    ghost function Storage(): Chain reads this { Chain(phase, writes, all, started) }

    constructor ()
      ensures Session() == Initial() && Storage() == NoWrites()
    {
      instructions, promises, requests, disposed := map[], [], [], false;
      phase, writes, all, started := Live, map[], [], [];
    }

    /** `instruction(sessionID)`: one lookup for all who ask while it has not failed. */
    method Instruction(session: string) returns (pending: nat)
      modifies this`instructions, this`promises
      ensures (Session(), pending) == InstructionOf(old(Session()), session)
    {
      if session in instructions { return instructions[session]; }
      pending := |promises|;
      promises := promises + [Promise(session, Pending, false)];
      instructions := instructions[session := pending];
    }

    /** The hook up to its first `await`. */
    method Begin(session: string)
      requires !disposed
      modifies this`instructions, this`promises, this`requests
      ensures Session() == Step(old(Session()), RequestComes(session))
    {
      var pending := Instruction(session);
      requests := requests + [Waiting(session, pending)];
    }

    /** The `catch` callback of a failed lookup: only its own entry is taken out. */
    method Caught(pending: nat)
      requires Enabled(Session(), CatchRuns(pending))
      modifies this`instructions, this`promises
      ensures Session() == Step(old(Session()), CatchRuns(pending))
    {
      var session := promises[pending].session;
      promises := promises[pending := promises[pending].(handled := true)];
      if session in instructions && instructions[session] == pending { instructions := instructions - {session}; }
    }

    /** The end of the hook: the new write waits for the session's last one. */
    method Store(session: string)
      modifies this`writes, this`all
      ensures Storage() == Next(old(Storage()), Accept(session))
    {
      var previous := if session in writes then Some(writes[session]) else None;
      all := all + [Write(session, EpochOf(phase), previous, Queued)];
      writes := writes[session := |all| - 1];
    }

    /** The disposer, up to the wait for the writes. */
    method AwaitWrites()
      requires phase.Live?
      modifies this`phase
      ensures Storage() == Next(old(Storage()), Unload)
    {
      phase := Draining(writes);
    }

    /** The disposer after that wait. */
    method ClearMaps()
      requires Possible(Storage(), Clear)
      modifies this`phase, this`writes, this`instructions, this`disposed
      ensures Storage() == Next(old(Storage()), Clear)
      ensures Session() == Step(old(Session()), Dispose)
    {
      phase := Cleared;
      writes := map[];
      instructions := map[];
      disposed := true;
    }
  }
}
