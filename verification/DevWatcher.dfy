/**
 * scripts/dev.ts: the single-flight build queue. Every `await` is a point where another event may run first;
 * each handler below is the code between two such points.
 */
module DevWatcher {

  import opened Options

  datatype Target = App | Daemon

  /** A build in flight, with the revisions read when it started. */
  datatype Build = Build(target: Target, appRevision: nat, daemonRevision: nat)

  /** Where one activation of `drainBuildQueue` is suspended: at `await build(target)`, or at `await waiter.exited`. */
  datatype Flight = Building(build: Build) | Stopping(build: Build, waiter: nat)

  /** One `launchApp()`: the revision its bundle was built from, and what was known at that moment. */
  datatype Launch = Launch(process: nat, builtFrom: nat, appRevision: nat, pending: Option<Target>, stopping: bool,
                           atStartup: bool)

  /** The processes, and the history the properties speak of. */
  datatype Log = Log(
    live: set<nat>,                   // owned processes the system still runs
    callbacks: set<nat>,              // dead processes whose `exited.then` has not run yet
    released: set<nat>,               // processes `stopApp` has let go of
    spawned: nat,                     // the next process id
    lastAppStart: nat,                // appRevision when the last app build started
    lastStart: nat,                   // daemonRevision when the last build of any kind started
    appBuild: nat,                    // appRevision at the start of the last app build that succeeded
    launches: seq<Launch>,            // every launch so far
    stranded: bool)                   // startup launched with a build queued, and no timer has fired since

  datatype State = State(
    app: Option<nat>,
    stopping: bool,
    building: bool,
    queued: Option<Target>,
    debounced: Option<Target>,
    appRevision: nat,
    daemonRevision: nat,
    timer: bool,                      // `rebuildTimer !== undefined`
    startup: Option<nat>,             // `await build("app")` at startup, with `initialAppRevision`
    drains: seq<Flight>,              // the suspended activations of `drainBuildQueue`
    exited: bool,                     // `process.exit(1)`
    log: Log)

  datatype Event =
    | Change(target: Target)                  // a watcher callback
    | TimerFires
    | StartupBuildEnds(succeeded: bool)
    | BuildEnds(drain: nat, succeeded: bool)
    | ProcessDies(process: nat)               // by itself or by the kill
    | ExitCallback(process: nat)              // `launchedApp.exited.then`
    | AppStopped(drain: nat)                  // the drain's `await stopApp()` returns
    | CleanUp                                 // a signal or a watcher error

  function Merged(current: Option<Target>, next: Target): Target {
    if current == Some(App) || next == App then App else Daemon
  }

  /** What is still to be built: the debounced and the queued target together. */
  function Pending(queued: Option<Target>, debounced: Option<Target>): Option<Target> {
    if debounced.Some? then Some(Merged(queued, debounced.value)) else queued
  }

  function Initial(): State {
    State(None, false, true, None, None, 0, 0, false, Some(0), [], false, Log({}, {}, {}, 0, 0, 0, 0, [], false))
  }

  // ----- The specification: one function per handler -----

  function ScheduleBuild(s: State, target: Target): State {
    if s.stopping then s
    else s.(daemonRevision := s.daemonRevision + 1,
            appRevision := if target == App then s.appRevision + 1 else s.appRevision,
            debounced := Some(Merged(s.debounced, target)),
            timer := true)
  }

  /** The head of the drain loop: start the next build, or leave the loop through `finally`. */
  function LoopHead(s: State): State {
    if s.queued.Some? && !s.stopping then
      s.(queued := None,
         drains := s.drains + [Building(Build(s.queued.value, s.appRevision, s.daemonRevision))],
         log := s.log.(lastAppStart := if s.queued == Some(App) then s.appRevision else s.log.lastAppStart,
                       lastStart := s.daemonRevision))
    else s.(building := false)
  }

  function Drain(s: State): State {
    if s.building || s.stopping then s else LoopHead(s.(building := true))
  }

  /** The timer callback up to its `drainBuildQueue()`. */
  function Moved(s: State): State {
    var s' := s.(timer := false, log := s.log.(stranded := false));
    if s.debounced.Some? then s'.(queued := Some(Merged(s.queued, s.debounced.value)), debounced := None) else s'
  }

  function TimerFired(s: State): State {
    Drain(Moved(s))
  }

  function LaunchApp(s: State, atStartup: bool): State {
    s.(app := Some(s.log.spawned),
       log := s.log.(live := s.log.live + {s.log.spawned}, spawned := s.log.spawned + 1,
                     launches := s.log.launches
                       + [Launch(s.log.spawned, s.log.appBuild, s.appRevision, Pending(s.queued, s.debounced),
                         s.stopping, atStartup)]))
  }

  /** The first lines of `stopApp`: `app` is let go of before anything is awaited. */
  function LetGo(s: State): State {
    s.(app := None, log := s.log.(released := s.log.released + if s.app.Some? then {s.app.value} else {}))
  }

  /** The drain after `await stopApp()`. */
  function AfterStop(s: State): State {
    LoopHead(if s.stopping then s else LaunchApp(s, false))
  }

  function Without(drains: seq<Flight>, i: nat): seq<Flight>
    requires i < |drains|
  {
    drains[..i] + drains[i + 1..]
  }

  /** The drain after `await build(target)`. */
  function AfterBuild(s: State, build: Build, succeeded: bool): State {
    var built := if succeeded && build.target == App then s.(log := s.log.(appBuild := build.appRevision)) else s;
    if !succeeded || s.stopping || build.target == Daemon || s.appRevision != build.appRevision then LoopHead(built)
    else if s.app.Some? && s.app.value in s.log.live then
      LetGo(built).(drains := built.drains + [Stopping(build, s.app.value)])
    else AfterStop(LetGo(built))
  }

  /** Startup after its build: launch, or hand over to the queue. It drains only in the second case. */
  function AfterInitialBuild(s: State, initialAppRevision: nat, succeeded: bool): State {
    var done := s.(building := false, startup := None);
    if !succeeded then done.(exited := true)
    else
      var built := done.(log := s.log.(appBuild := initialAppRevision));
      if s.appRevision == initialAppRevision then
        var launched := LaunchApp(LetGo(built), true);
        launched.(log := launched.log.(stranded := s.queued.Some?))
      else if s.queued.Some? then Drain(built)
      else built
  }

  function Died(s: State, process: nat): State {
    s.(log := s.log.(live := s.log.live - {process}, callbacks := s.log.callbacks + {process}))
  }

  function Exit(s: State, process: nat): State {
    var s' := s.(log := s.log.(callbacks := s.log.callbacks - {process}));
    if s.stopping || s.app != Some(process) then s'
    else s'.(app := None, stopping := true, timer := false)
  }

  function Cleanup(s: State): State {
    if s.stopping then s else LetGo(s.(stopping := true, timer := false))
  }

  /** Which events can happen. */
  predicate Enabled(s: State, e: Event) {
    !s.exited &&
    match e
    case Change(_) => true
    case TimerFires => s.timer
    case StartupBuildEnds(_) => s.startup.Some?
    case BuildEnds(i, _) => i < |s.drains| && s.drains[i].Building?
    case ProcessDies(p) => p in s.log.live
    case ExitCallback(p) => p in s.log.callbacks
    case AppStopped(i) => i < |s.drains| && s.drains[i].Stopping? && s.drains[i].waiter !in s.log.live
    case CleanUp => true
  }

  function Step(s: State, e: Event): State
    requires Enabled(s, e)
  {
    match e
    case Change(target) => ScheduleBuild(s, target)
    case TimerFires => TimerFired(s)
    case StartupBuildEnds(succeeded) => AfterInitialBuild(s, s.startup.value, succeeded)
    case BuildEnds(i, succeeded) => AfterBuild(s.(drains := Without(s.drains, i)), s.drains[i].build, succeeded)
    case ProcessDies(p) => Died(s, p)
    case ExitCallback(p) => Exit(s, p)
    case AppStopped(i) => AfterStop(s.(drains := Without(s.drains, i)))
    case CleanUp => Cleanup(s)
  }

  /** A run: the events that were possible when they came, in order. */
  ghost predicate IsRun(s: State, events: seq<Event>, r: State)
    decreases |events|
  {
    if events == [] then r == s
    else Enabled(s, events[0]) && IsRun(Step(s, events[0]), events[1..], r)
  }

  ghost predicate Reachable(r: State) {
    exists events :: IsRun(Initial(), events, r)
  }

  // ----- What every state keeps -----

  ghost predicate Coverage(s: State) {
    && s.log.lastAppStart <= s.appRevision && s.log.lastStart <= s.daemonRevision
    && (s.appRevision > s.log.lastAppStart ==> Pending(s.queued, s.debounced) == Some(App))
    && (s.daemonRevision > s.log.lastStart ==> Pending(s.queued, s.debounced).Some?)
  }

  ghost predicate SingleFlight(s: State) {
    && (!s.exited ==> |s.drains| + (if s.startup.Some? then 1 else 0) == if s.building then 1 else 0)
    && |s.drains| <= 1
  }

  /** A flight's build is the last app build that started, if it builds the app at all. */
  ghost predicate FlightOk(s: State, f: Flight) {
    && f.build.appRevision <= s.appRevision && f.build.daemonRevision <= s.daemonRevision
    && (f.build.target == App ==> f.build.appRevision == s.log.lastAppStart)
    && (f.Stopping? ==> f.build.target == App && s.log.appBuild == f.build.appRevision
                        && s.app == None && s.log.live <= {f.waiter})
  }

  ghost predicate Flights(s: State) {
    && (forall k :: 0 <= k < |s.drains| ==> FlightOk(s, s.drains[k]))
    && (s.startup.Some? ==> s.startup.value == s.log.lastAppStart == 0 && s.log.launches == [] && s.log.live == {}
                            && s.app == None && (Pending(s.queued, s.debounced) == Some(App) ==> s.appRevision > 0))
  }

  /** At most one owned process runs; a process once let go of is never `app` again. */
  ghost predicate Owned(s: State) {
    && (forall p :: p in s.log.live || p in s.log.callbacks || p in s.log.released ==> p < s.log.spawned)
    && (s.app.Some? ==> s.app.value < s.log.spawned && s.app.value !in s.log.released)
    && (s.app.Some? && !s.stopping ==> s.app.value in s.log.live || s.app.value in s.log.callbacks)
    && s.log.live !! s.log.callbacks
    && |s.log.live| <= 1
  }

  /** Outside a restart, the process that runs is the one `app` refers to. */
  ghost predicate NoStray(s: State) {
    s.stopping
    || (exists k :: 0 <= k < |s.drains| && s.drains[k].Stopping?)
    || s.log.live <= if s.app.Some? then {s.app.value} else {}
  }

  ghost predicate Timers(s: State) {
    && (s.timer ==> !s.stopping && s.debounced.Some?)
    && (s.debounced.Some? && !s.stopping ==> s.timer)
  }

  ghost predicate NoLostWakeup(s: State) {
    && (s.queued.Some? && !s.stopping && !s.building && !s.exited ==> s.log.stranded)
    && (s.log.stranded && !s.stopping ==> s.queued == Some(Daemon) && !s.building)
  }

  /** Every launch runs current code or a rebuild is already due; only the startup launch ignores `stopping`. */
  ghost predicate GoodLaunch(l: Launch) {
    && l.builtFrom <= l.appRevision
    && (l.builtFrom == l.appRevision || l.pending == Some(App))
    && (l.stopping ==> l.atStartup)
  }

  ghost predicate Launches(s: State) {
    && (forall k :: 0 <= k < |s.log.launches| ==> GoodLaunch(s.log.launches[k]))
    && (forall k :: 0 < k < |s.log.launches| ==> !s.log.launches[k].atStartup)
  }

  ghost predicate Inv(s: State) {
    Coverage(s) && SingleFlight(s) && Flights(s) && Owned(s) && NoStray(s) && Timers(s) && NoLostWakeup(s)
      && Launches(s)
  }

  // ----- Preservation, handler by handler -----

  lemma InitialInv()
    ensures Inv(Initial())
  {
  }

  /** What holds whenever an activation of the drain reaches the head of its loop. */
  ghost predicate AtLoopHead(s: State) {
    && Coverage(s) && Timers(s) && Launches(s) && Owned(s) && NoStray(s)
    && s.building && s.startup.None? && s.drains == [] && (s.log.stranded ==> s.stopping)
  }

  lemma LoopHeadKeeps(s: State)
    requires AtLoopHead(s)
    ensures Inv(LoopHead(s))
  {
  }

  lemma LaunchKeeps(s: State)
    requires AtLoopHead(s) && !s.stopping && s.log.live == {}
    requires s.log.appBuild <= s.appRevision
    requires s.log.appBuild == s.appRevision || Pending(s.queued, s.debounced) == Some(App)
    ensures AtLoopHead(LaunchApp(s, false))
  {
  }

  lemma ChangeKeeps(s: State, target: Target)
    requires Inv(s)
    ensures Inv(ScheduleBuild(s, target))
  {
    assert forall k :: 0 <= k < |s.drains| ==> FlightOk(ScheduleBuild(s, target), s.drains[k]);
  }

  lemma TimerKeeps(s: State)
    requires Inv(s) && s.timer && !s.exited
    ensures Inv(TimerFired(s))
  {
    var s' := Moved(s);
    assert Pending(s'.queued, s'.debounced) == Pending(s.queued, s.debounced);
    if !s'.building && !s'.stopping { LoopHeadKeeps(s'.(building := true)); }
  }

  /** The only activation there is gives way to none while it runs. */
  lemma OnlyFlight(s: State, i: nat)
    requires Inv(s) && i < |s.drains| && !s.exited
    ensures Without(s.drains, i) == [] && s.building && s.startup.None? && FlightOk(s, s.drains[i])
    ensures s.log.stranded ==> s.stopping
  {
  }

  lemma BuildEndKeeps(s: State, i: nat, succeeded: bool)
    requires Inv(s) && i < |s.drains| && s.drains[i].Building? && !s.exited
    ensures Inv(AfterBuild(s.(drains := Without(s.drains, i)), s.drains[i].build, succeeded))
  {
    OnlyFlight(s, i);
    var build := s.drains[i].build;
    var idle := s.(drains := Without(s.drains, i));
    var built := if succeeded && build.target == App then idle.(log := s.log.(appBuild := build.appRevision)) else idle;
    assert NoStray(built);
    if !succeeded || s.stopping || build.target == Daemon || s.appRevision != build.appRevision {
      LoopHeadKeeps(built);
    } else if !(s.app.Some? && s.app.value in s.log.live) {
      assert s.log.live == {};
      LaunchKeeps(LetGo(built));
      LoopHeadKeeps(LaunchApp(LetGo(built), false));
    } else {
      assert AfterBuild(idle, build, succeeded).drains[0].Stopping?;
    }
  }

  lemma StopKeeps(s: State, i: nat)
    requires Inv(s) && i < |s.drains| && s.drains[i].Stopping? && s.drains[i].waiter !in s.log.live && !s.exited
    ensures Inv(AfterStop(s.(drains := Without(s.drains, i))))
  {
    OnlyFlight(s, i);
    var idle := s.(drains := Without(s.drains, i));
    assert s.log.live == {};
    if s.stopping {
      LoopHeadKeeps(idle);
    } else {
      LaunchKeeps(idle);
      LoopHeadKeeps(LaunchApp(idle, false));
    }
  }

  lemma InitialBuildKeeps(s: State, succeeded: bool)
    requires Inv(s) && s.startup.Some? && !s.exited
    ensures Inv(AfterInitialBuild(s, s.startup.value, succeeded))
  {
    assert s.queued == Some(App) ==> Pending(s.queued, s.debounced) == Some(App);
    if s.queued.Some? {
      var q: Target := s.queued.value;
      assert q == App || q == Daemon;
    }
    var built := s.(building := false, startup := None, log := s.log.(appBuild := s.startup.value));
    if succeeded && s.appRevision != s.startup.value && s.queued.Some? && !s.stopping {
      LoopHeadKeeps(built.(building := true));
    }
  }

  lemma DeathKeeps(s: State, p: nat)
    requires Inv(s) && p in s.log.live
    ensures Inv(Died(s, p))
  {
    assert forall k :: 0 <= k < |s.drains| ==> FlightOk(Died(s, p), s.drains[k]);
  }

  lemma ExitKeeps(s: State, p: nat)
    requires Inv(s) && p in s.log.callbacks
    ensures Inv(Exit(s, p))
  {
    ExitKeepsFlights(s, p);
    ExitKeepsProcesses(s, p);
    ExitKeepsQueue(s, p);
  }

  lemma ExitKeepsFlights(s: State, p: nat)
    requires SingleFlight(s) && Flights(s)
    ensures SingleFlight(Exit(s, p)) && Flights(Exit(s, p))
  {
    assert forall k :: 0 <= k < |s.drains| ==> FlightOk(Exit(s, p), s.drains[k]);
  }

  lemma ExitKeepsProcesses(s: State, p: nat)
    requires Owned(s) && NoStray(s) && p in s.log.callbacks
    ensures Owned(Exit(s, p)) && NoStray(Exit(s, p))
  {
    if k :| 0 <= k < |s.drains| && s.drains[k].Stopping? { assert Exit(s, p).drains[k].Stopping?; }
  }

  lemma ExitKeepsQueue(s: State, p: nat)
    requires Coverage(s) && Timers(s) && NoLostWakeup(s) && Launches(s)
    ensures Coverage(Exit(s, p)) && Timers(Exit(s, p)) && NoLostWakeup(Exit(s, p)) && Launches(Exit(s, p))
  {
  }

  lemma CleanupKeeps(s: State)
    requires Inv(s)
    ensures Inv(Cleanup(s))
  {
    assert forall k :: 0 <= k < |s.drains| ==> FlightOk(Cleanup(s), s.drains[k]);
  }

  lemma StepKeepsInv(s: State, e: Event)
    requires Inv(s) && Enabled(s, e)
    ensures Inv(Step(s, e))
  {
    match e
    case Change(target) => ChangeKeeps(s, target);
    case TimerFires => TimerKeeps(s);
    case StartupBuildEnds(succeeded) => InitialBuildKeeps(s, succeeded);
    case BuildEnds(i, succeeded) => BuildEndKeeps(s, i, succeeded);
    case ProcessDies(p) => DeathKeeps(s, p);
    case ExitCallback(p) => ExitKeeps(s, p);
    case AppStopped(i) => StopKeeps(s, i);
    case CleanUp => CleanupKeeps(s);
  }

  lemma {:induction false} RunKeepsInv(s: State, events: seq<Event>, r: State)
    requires Inv(s) && IsRun(s, events, r)
    ensures Inv(r)
    decreases |events|
  {
    if events != [] {
      StepKeepsInv(s, events[0]);
      RunKeepsInv(Step(s, events[0]), events[1..], r);
    }
  }

  lemma ReachableInv(r: State)
    requires Reachable(r)
    ensures Inv(r)
  {
    InitialInv();
    var events :| IsRun(Initial(), events, r);
    RunKeepsInv(Initial(), events, r);
  }

  // ----- Safety over all runs -----

  /** Merging, debouncing and a change during a build never lose a change: what no build has started on is pending. */
  lemma NoChangeIsLost(r: State)
    requires Reachable(r)
    ensures r.appRevision > r.log.lastAppStart ==> Pending(r.queued, r.debounced) == Some(App)
    ensures r.daemonRevision > r.log.lastStart ==> Pending(r.queued, r.debounced).Some?
    ensures r.debounced.Some? && !r.stopping ==> r.timer
  {
    ReachableInv(r);
  }

  // ----- From the events alone -----

  /** How many changes were reported to a watcher that was not stopping; of app sources only, or of any. */
  ghost function Changes(s: State, events: seq<Event>, appOnly: bool): nat
    decreases |events|
  {
    if events == [] || !Enabled(s, events[0]) then 0
    else
      var counts := events[0].Change? && !s.stopping && (!appOnly || events[0].target == App);
      (if counts then 1 else 0) + Changes(Step(s, events[0]), events[1..], appOnly)
  }

  /** Every reported change is counted, whatever the watcher is doing. */
  lemma {:induction false} RevisionsCountChanges(s: State, events: seq<Event>, r: State)
    requires IsRun(s, events, r)
    ensures r.appRevision == s.appRevision + Changes(s, events, true)
    ensures r.daemonRevision == s.daemonRevision + Changes(s, events, false)
    decreases |events|
  {
    if events != [] {
      StepCounts(s, events[0]);
      RevisionsCountChanges(Step(s, events[0]), events[1..], r);
    }
  }

  lemma StepCounts(s: State, e: Event)
    requires Enabled(s, e)
    ensures Step(s, e).daemonRevision == s.daemonRevision + if e.Change? && !s.stopping then 1 else 0
    ensures Step(s, e).appRevision == s.appRevision + if e == Change(App) && !s.stopping then 1 else 0
  {
    match e
    case TimerFires => LoopHeadKeepsRevisions(Moved(s).(building := true));
    case StartupBuildEnds(_) =>
      LoopHeadKeepsRevisions(s.(building := true, startup := None, log := s.log.(appBuild := s.startup.value)));
    case BuildEnds(i, succeeded) => BuildEndKeepsRevisions(s, i, succeeded);
    case AppStopped(i) => AfterStopKeepsRevisions(s.(drains := Without(s.drains, i)));
    case _ =>
  }

  lemma LoopHeadKeepsRevisions(s: State)
    ensures LoopHead(s).appRevision == s.appRevision && LoopHead(s).daemonRevision == s.daemonRevision
  {
  }

  lemma AfterStopKeepsRevisions(s: State)
    ensures AfterStop(s).appRevision == s.appRevision && AfterStop(s).daemonRevision == s.daemonRevision
  {
    LoopHeadKeepsRevisions(if s.stopping then s else LaunchApp(s, false));
  }

  lemma BuildEndKeepsRevisions(s: State, i: nat, succeeded: bool)
    requires Enabled(s, BuildEnds(i, succeeded))
    ensures var t := Step(s, BuildEnds(i, succeeded));
      t.appRevision == s.appRevision && t.daemonRevision == s.daemonRevision
  {
    var build, t := s.drains[i].build, s.(drains := Without(s.drains, i));
    var built := if succeeded && build.target == App then t.(log := t.log.(appBuild := build.appRevision)) else t;
    LoopHeadKeepsRevisions(built);
    AfterStopKeepsRevisions(LetGo(built));
  }

  /** A build for one target serves a change of another: an app build builds the daemon too. */
  predicate Serves(built: Target, changed: Target) { built == App || changed == Daemon }

  ghost predicate Waits(s: State, changed: Target) {
    exists pending :: Pending(s.queued, s.debounced) == Some(pending) && Serves(pending, changed)
  }

  /** The flights that stay as they are at an event. */
  function Staying(s: State, e: Event): seq<Flight>
    requires Enabled(s, e)
  {
    match e
    case BuildEnds(i, _) => s.drains[..i] + s.drains[i + 1..]
    case AppStopped(i) => s.drains[..i] + s.drains[i + 1..]
    case _ => s.drains
  }

  /** The event starts a build that serves the change, with the revisions of that moment. */
  ghost predicate Starts(s: State, e: Event, changed: Target)
    requires Enabled(s, e)
  {
    exists built ::
      && Serves(built, changed)
      && Step(s, e).drains == Staying(s, e) + [Building(Build(built, s.appRevision, s.daemonRevision))]
  }

  lemma LoopHeadServes(s: State, changed: Target)
    requires Waits(s, changed)
    ensures Waits(LoopHead(s), changed)
      || exists built :: Serves(built, changed)
           && LoopHead(s).drains == s.drains + [Building(Build(built, s.appRevision, s.daemonRevision))]
  {
    if s.queued.Some? && !s.stopping {
      var built := s.queued.value;
      assert LoopHead(s).drains == s.drains + [Building(Build(built, s.appRevision, s.daemonRevision))];
      if !Serves(built, changed) {
        assert built == Daemon && changed == App && s.debounced == Some(App);
        assert Pending(LoopHead(s).queued, LoopHead(s).debounced) == Some(App);
      }
    }
  }

  lemma WaitsKeeps(s: State, t: State, changed: Target)
    requires Waits(s, changed) && t.queued == s.queued && t.debounced == s.debounced
    ensures Waits(t, changed)
  {
  }

  lemma MovedWaits(s: State, changed: Target)
    requires Waits(s, changed)
    ensures Waits(Moved(s), changed)
  {
    var pending :| Pending(s.queued, s.debounced) == Some(pending) && Serves(pending, changed);
    assert Pending(Moved(s).queued, Moved(s).debounced) == Some(pending);
  }

  lemma ScheduledWaits(s: State, target: Target, changed: Target)
    requires Waits(s, changed) || (!s.stopping && target == changed)
    ensures Waits(ScheduleBuild(s, target), changed)
  {
    var t := ScheduleBuild(s, target);
    if !s.stopping {
      var joined := Pending(t.queued, t.debounced).value;
      assert Serves(joined, changed);
    }
  }

  /** A waiting change goes on waiting until a build that serves it starts. */
  lemma WaitsOrStarts(s: State, e: Event, changed: Target)
    requires Enabled(s, e) && Waits(s, changed)
    ensures Waits(Step(s, e), changed) || Starts(s, e, changed)
  {
    match e
    case Change(target) => ScheduledWaits(s, target, changed);
    case TimerFires =>
      MovedWaits(s, changed);
      if !s.building && !s.stopping {
        WaitsKeeps(Moved(s), Moved(s).(building := true), changed);
        LoopHeadServes(Moved(s).(building := true), changed);
      }
    case StartupBuildEnds(succeeded) => StartupServes(s, succeeded, changed);
    case BuildEnds(i, succeeded) => BuildEndServes(s, i, succeeded, changed);
    case AppStopped(i) => AfterStopServes(s, s.(drains := Without(s.drains, i)), changed);
    case _ => WaitsKeeps(s, Step(s, e), changed);
  }

  lemma StartupServes(s: State, succeeded: bool, changed: Target)
    requires Enabled(s, StartupBuildEnds(succeeded)) && Waits(s, changed)
    ensures Waits(Step(s, StartupBuildEnds(succeeded)), changed) || Starts(s, StartupBuildEnds(succeeded), changed)
  {
    var t := Step(s, StartupBuildEnds(succeeded));
    if succeeded && s.appRevision != s.startup.value && s.queued.Some? && !s.stopping {
      var built := s.(building := true, startup := None, log := s.log.(appBuild := s.startup.value));
      WaitsKeeps(s, built, changed);
      LoopHeadServes(built, changed);
    } else {
      WaitsKeeps(s, t, changed);
    }
  }

  /** The drain at the head of its loop, with what it looks at there as in `s`. */
  lemma HeadServes(s: State, t: State, changed: Target)
    requires Waits(s, changed) && t.queued == s.queued && t.debounced == s.debounced
    requires t.appRevision == s.appRevision && t.daemonRevision == s.daemonRevision
    ensures Waits(LoopHead(t), changed)
      || exists built :: Serves(built, changed)
           && LoopHead(t).drains == t.drains + [Building(Build(built, s.appRevision, s.daemonRevision))]
  {
    WaitsKeeps(s, t, changed);
    LoopHeadServes(t, changed);
  }

  lemma AfterStopServes(s: State, t: State, changed: Target)
    requires Waits(s, changed) && t.queued == s.queued && t.debounced == s.debounced
    requires t.appRevision == s.appRevision && t.daemonRevision == s.daemonRevision
    ensures Waits(AfterStop(t), changed)
      || exists built :: Serves(built, changed)
           && AfterStop(t).drains == t.drains + [Building(Build(built, s.appRevision, s.daemonRevision))]
  {
    HeadServes(s, if t.stopping then t else LaunchApp(t, false), changed);
  }

  lemma BuildEndServes(s: State, i: nat, succeeded: bool, changed: Target)
    requires Enabled(s, BuildEnds(i, succeeded)) && Waits(s, changed)
    ensures Waits(Step(s, BuildEnds(i, succeeded)), changed) || Starts(s, BuildEnds(i, succeeded), changed)
  {
    var build, t := s.drains[i].build, s.(drains := Without(s.drains, i));
    var built := if succeeded && build.target == App then t.(log := t.log.(appBuild := build.appRevision)) else t;
    if !succeeded || s.stopping || build.target == Daemon || s.appRevision != build.appRevision {
      HeadServes(s, built, changed);
    } else if s.app.Some? && s.app.value in s.log.live {
      WaitsKeeps(s, Step(s, BuildEnds(i, succeeded)), changed);
    } else {
      AfterStopServes(s, LetGo(built), changed);
    }
  }

  /** Some event of the run starts a build that serves the change. */
  ghost predicate Served(s: State, events: seq<Event>, changed: Target)
    decreases |events|
  {
    events != [] && Enabled(s, events[0])
    && (Starts(s, events[0], changed) || Served(Step(s, events[0]), events[1..], changed))
  }

  lemma {:induction false} WaitsUntilServed(s: State, events: seq<Event>, r: State, changed: Target)
    requires IsRun(s, events, r) && Waits(s, changed)
    ensures Waits(r, changed) || Served(s, events, changed)
    decreases |events|
  {
    if events != [] {
      WaitsOrStarts(s, events[0], changed);
      if Waits(Step(s, events[0]), changed) { WaitsUntilServed(Step(s, events[0]), events[1..], r, changed); }
    }
  }

  /**
   * Every change reported before stopping, at whatever moment, is still waiting at the end of the run,
   * or a build that serves it was started after it.
   */
  lemma ChangeIsServed(s: State, changed: Target, events: seq<Event>, r: State)
    requires Enabled(s, Change(changed)) && !s.stopping && IsRun(Step(s, Change(changed)), events, r)
    ensures Waits(r, changed) || Served(Step(s, Change(changed)), events, changed)
  {
    ScheduledWaits(s, changed, changed);
    WaitsUntilServed(Step(s, Change(changed)), events, r, changed);
  }

  /**
   * Exactly when an event launches an app: a current first build, a current app build with no live process
   * in its way, or the end of the process it had to wait for; and then the new process is the owned one.
   */
  lemma LaunchesExactly(s: State, e: Event)
    requires Enabled(s, e)
    ensures |Step(s, e).log.launches| == |s.log.launches| + (if LaunchIsDue(s, e) then 1 else 0)
    ensures LaunchIsDue(s, e) ==> Step(s, e).app == Some(s.log.spawned) && s.log.spawned in Step(s, e).log.live
  {
    match e
    case TimerFires => LoopHeadLaunchesNothing(Moved(s).(building := true));
    case StartupBuildEnds(_) =>
      LoopHeadLaunchesNothing(s.(building := true, startup := None, log := s.log.(appBuild := s.startup.value)));
    case BuildEnds(i, succeeded) => BuildEndLaunches(s, i, succeeded);
    case AppStopped(i) => AfterStopLaunches(s.(drains := Without(s.drains, i)));
    case _ =>
  }

  lemma LoopHeadLaunchesNothing(s: State)
    ensures LoopHead(s).app == s.app && LoopHead(s).log.live == s.log.live && LoopHead(s).log.launches == s.log.launches
  {
  }

  lemma AfterStopLaunches(s: State)
    ensures |AfterStop(s).log.launches| == |s.log.launches| + (if s.stopping then 0 else 1)
    ensures !s.stopping ==> AfterStop(s).app == Some(s.log.spawned) && s.log.spawned in AfterStop(s).log.live
  {
    LoopHeadLaunchesNothing(if s.stopping then s else LaunchApp(s, false));
  }

  lemma BuildEndLaunches(s: State, i: nat, succeeded: bool)
    requires Enabled(s, BuildEnds(i, succeeded))
    ensures var e := BuildEnds(i, succeeded);
      && |Step(s, e).log.launches| == |s.log.launches| + (if LaunchIsDue(s, e) then 1 else 0)
      && (LaunchIsDue(s, e) ==> Step(s, e).app == Some(s.log.spawned) && s.log.spawned in Step(s, e).log.live)
  {
    var build, t := s.drains[i].build, s.(drains := Without(s.drains, i));
    var built := if succeeded && build.target == App then t.(log := t.log.(appBuild := build.appRevision)) else t;
    LoopHeadLaunchesNothing(built);
    AfterStopLaunches(LetGo(built));
  }

  ghost predicate LaunchIsDue(s: State, e: Event)
    requires Enabled(s, e)
  {
    || (e == StartupBuildEnds(true) && s.startup == Some(s.appRevision))
    || (e.BuildEnds? && e.succeeded && CurrentApp(s, s.drains[e.drain].build)
      && (s.app.None? || s.app.value !in s.log.live))
    || (e.AppStopped? && !s.stopping)
  }

  ghost predicate CurrentApp(s: State, build: Build) {
    build.target == App && build.appRevision == s.appRevision && !s.stopping
  }

  /** A current app build that finds the owned process alive lets go of it and waits for it. */
  lemma WaitsForTheOldApp(s: State, i: nat)
    requires Enabled(s, BuildEnds(i, true)) && CurrentApp(s, s.drains[i].build) && s.app.Some?
      && s.app.value in s.log.live
    ensures var t := Step(s, BuildEnds(i, true));
      && t.drains == s.drains[..i] + s.drains[i + 1..] + [Stopping(s.drains[i].build, s.app.value)]
      && t.app.None? && s.app.value in t.log.released && t.queued == s.queued && t.debounced == s.debounced
  {
  }

  /**
   * When the timer goes, the debounced change is queued; a signal or the end of the owned app stops everything once.
   */
  lemma TimerAndStop(s: State, e: Event)
    requires Enabled(s, e)
    ensures e.TimerFires? ==> Step(s, e).debounced.None? && !Step(s, e).timer
    ensures e.CleanUp? && !s.stopping ==> Step(s, e).stopping && !Step(s, e).timer && Step(s, e).app.None?
    ensures !s.stopping && Step(s, e).stopping ==> e.CleanUp? || (e.ExitCallback? && s.app == Some(e.process))
    ensures s.stopping ==> Step(s, e).stopping
  {
  }

  ghost function BuildsRunning(s: State): nat {
    (if s.startup.Some? then 1 else 0) + |set k | 0 <= k < |s.drains| && s.drains[k].Building?|
  }

  lemma OneBuildOneApp(r: State)
    requires Reachable(r) && !r.exited
    ensures BuildsRunning(r) <= 1 && |r.drains| <= 1 && |r.log.live| <= 1
    ensures r.building <==> r.startup.Some? || r.drains != []
  {
    ReachableInv(r);
    var running := set k | 0 <= k < |r.drains| && r.drains[k].Building?;
    assert running <= {0};
    assert |running| <= |r.drains| by { if running == {0} { assert |running| == 1; } else { assert running == {}; } }
  }

  /**
   * Every launch uses a build of the app revision current at that moment, or an app rebuild is already pending;
   * and none happens after `stopping` except possibly the very first, at startup.
   */
  lemma LaunchesAreCurrent(r: State, k: nat)
    requires Reachable(r) && k < |r.log.launches|
    ensures var l := r.log.launches[k];
      && l.builtFrom <= l.appRevision
      && (l.builtFrom == l.appRevision || l.pending == Some(App))
      && (l.stopping ==> k == 0 && l.atStartup)
  {
    ReachableInv(r);
  }

  /** The exit of a process that `stopApp` let go of never stops the watcher. */
  lemma RestartIsNoShutdown(r: State, process: nat)
    requires Reachable(r) && Enabled(r, ExitCallback(process))
    ensures process in r.log.released ==> Step(r, ExitCallback(process)).stopping == r.stopping
    ensures Step(r, ExitCallback(process)).stopping && !r.stopping <==> !r.stopping && r.app == Some(process)
  {
    ReachableInv(r);
  }

  /** A queued build without a drain exists only where startup left it, and it is then daemon-only. */
  lemma NoWakeupIsLost(r: State)
    requires Reachable(r) && !r.exited && r.queued.Some? && !r.stopping && !r.building
    ensures r.log.stranded && r.queued == Some(Daemon)
  {
    ReachableInv(r);
  }

  /** Exactly when startup leaves a queued build waiting for a timer that is not armed by it. */
  lemma StrandedExactly(r: State, succeeded: bool)
    requires Reachable(r) && Enabled(r, StartupBuildEnds(succeeded))
    ensures var s := Step(r, StartupBuildEnds(succeeded));
      s.queued.Some? && !s.building && !s.stopping && !s.exited
      <==> succeeded && !r.stopping && r.queued.Some? && r.appRevision == 0
  {
    ReachableInv(r);
  }

  /** Exactly when the startup launch comes after `stopping`. */
  lemma LaunchAfterStopExactly(r: State, e: Event)
    requires Reachable(r) && Enabled(r, e)
    ensures (|Step(r, e).log.launches| > |r.log.launches| && r.stopping)
      <==> e == StartupBuildEnds(true) && r.stopping && r.appRevision == 0
  {
    ReachableInv(r);
  }

  /** Past startup, and nothing left over from it. */
  ghost predicate Underway(s: State) {
    s.startup.None? && !s.exited && (s.log.stranded ==> s.stopping)
  }

  lemma LoopHeadStaysUnderway(s: State)
    requires Underway(s)
    ensures Underway(LoopHead(s)) && Underway(LaunchApp(s, false)) && Underway(LetGo(s))
  {
  }

  /** No event brings the leftover of startup back. */
  lemma StaysUnderway(s: State, e: Event)
    requires Underway(s) && Enabled(s, e)
    ensures Underway(Step(s, e))
  {
    match e
    case BuildEnds(i, succeeded) =>
      var flying := s.(drains := Without(s.drains, i));
      var built := flying.(log := s.log.(appBuild := s.drains[i].build.appRevision));
      LoopHeadStaysUnderway(flying);
      LoopHeadStaysUnderway(built);
      AfterStopStaysUnderway(LetGo(flying));
      AfterStopStaysUnderway(LetGo(built));
    case AppStopped(i) => AfterStopStaysUnderway(s.(drains := Without(s.drains, i)));
    case _ =>
  }

  lemma AfterStopStaysUnderway(s: State)
    requires Underway(s)
    ensures Underway(AfterStop(s))
  {
    LoopHeadStaysUnderway(s);
    LoopHeadStaysUnderway(LaunchApp(s, false));
  }

  lemma {:induction false} RunStaysUnderway(s: State, events: seq<Event>, r: State)
    requires Inv(s) && Underway(s) && IsRun(s, events, r)
    ensures Inv(r) && Underway(r)
    decreases |events|
  {
    if events != [] {
      StepKeepsInv(s, events[0]);
      StaysUnderway(s, events[0]);
      RunStaysUnderway(Step(s, events[0]), events[1..], r);
    }
  }

  /** What is queued is being worked on. */
  ghost predicate Awake(s: State) {
    s.queued.Some? && !s.stopping && !s.exited ==> s.building
  }

  lemma UnderwayIsAwake(s: State)
    requires NoLostWakeup(s) && Underway(s)
    ensures Awake(s)
  {
  }

  /** From the first timer after startup on, a queued build is always being worked on. */
  lemma AwakeFromTimer(s: State, events: seq<Event>, r: State)
    requires Reachable(s) && s.startup.None? && Enabled(s, TimerFires) && IsRun(Step(s, TimerFires), events, r)
    ensures Awake(r)
  {
    ReachableInv(s);
    StepKeepsInv(s, TimerFires);
    RunStaysUnderway(Step(s, TimerFires), events, r);
    UnderwayIsAwake(r);
  }

  /** So it is from any drain on. */
  lemma AwakeFromDrain(s: State, events: seq<Event>, r: State)
    requires Reachable(s) && s.drains != [] && !s.exited && IsRun(s, events, r)
    ensures Awake(r)
  {
    ReachableInv(s);
    DrainIsUnderway(s);
    RunStaysUnderway(s, events, r);
    UnderwayIsAwake(r);
  }

  lemma DrainIsUnderway(s: State)
    requires SingleFlight(s) && NoLostWakeup(s) && s.drains != [] && !s.exited
    ensures Underway(s)
  {
  }

  /** Without a drain and past startup, nothing builds. */
  lemma NoDrainNoBuild(s: State)
    requires SingleFlight(s) && Underway(s) && s.drains == []
    ensures !s.building
  {
  }

  /** Whenever a drain ends in a run, nothing is left for the restart in its `finally`, and nothing is building. */
  lemma FinallyFindsNothing(r: State, e: Event)
    requires Reachable(r) && Enabled(r, e) && r.drains != [] && Step(r, e).drains == []
    ensures !Step(r, e).building && !(Step(r, e).queued.Some? && !Step(r, e).stopping)
  {
    ReachableInv(r);
    DrainIsUnderway(r);
    StaysUnderway(r, e);
    StepKeepsInv(r, e);
    NoDrainNoBuild(Step(r, e));
    UnderwayIsAwake(Step(r, e));
  }

  /** A daemon edit whose timer fires during the first build waits, with no drain and no timer. */
  lemma StrandedRun() returns (r: State)
    ensures IsRun(Initial(), [Change(Daemon), TimerFires, StartupBuildEnds(true)], r)
    ensures r.queued == Some(Daemon) && !r.building && !r.stopping && !r.timer && r.app.Some?
  {
    var s1 := Step(Initial(), Change(Daemon));
    var s2 := Step(s1, TimerFires);
    r := Step(s2, StartupBuildEnds(true));
    var events := [Change(Daemon), TimerFires, StartupBuildEnds(true)];
    assert events[1..] == [TimerFires, StartupBuildEnds(true)];
    assert events[1..][1..] == [StartupBuildEnds(true)] && events[1..][1..][1..] == [];
    assert IsRun(r, [], r);
    assert IsRun(s2, [StartupBuildEnds(true)], r);
    assert IsRun(s1, [TimerFires, StartupBuildEnds(true)], r);
  }

  /** A signal during the first build: the app is launched all the same. */
  lemma LaunchAfterSignal() returns (r: State)
    ensures IsRun(Initial(), [CleanUp, StartupBuildEnds(true)], r)
    ensures r.stopping && r.app.Some? && r.app.value in r.log.live
  {
    var s1 := Step(Initial(), CleanUp);
    r := Step(s1, StartupBuildEnds(true));
    var events := [CleanUp, StartupBuildEnds(true)];
    assert events[1..] == [StartupBuildEnds(true)] && events[1..][1..] == [];
    assert IsRun(r, [], r);
    assert IsRun(s1, [StartupBuildEnds(true)], r);
  }

  // ----- The script's own variables and handlers -----

  class Watcher {
    var app: Option<nat>
    var stopping: bool
    var building: bool
    var queuedBuild: Option<Target>
    var debouncedBuild: Option<Target>
    var appChangeRevision: nat
    var daemonChangeRevision: nat
    var rebuildTimer: bool
    var startup: Option<nat>
    var drains: seq<Flight>
    var exited: bool
    ghost var log: Log

    ghost function Snapshot(): State
      reads this
    {
      State(app, stopping, building, queuedBuild, debouncedBuild, appChangeRevision, daemonChangeRevision,
            rebuildTimer, startup, drains, exited, log)
    }

    constructor ()
      ensures Snapshot() == Initial()
    {
      app, stopping, building := None, false, true;
      queuedBuild, debouncedBuild, rebuildTimer := None, None, false;
      appChangeRevision, daemonChangeRevision := 0, 0;
      startup, drains, exited := Some(0), [], false;
      log := Log({}, {}, {}, 0, 0, 0, 0, [], false);
    }

    method ScheduleBuildFor(target: Target)
      modifies this
      ensures Snapshot() == ScheduleBuild(old(Snapshot()), target)
    {
      if stopping { return; }
      daemonChangeRevision := daemonChangeRevision + 1;
      if target == App { appChangeRevision := appChangeRevision + 1; }
      debouncedBuild := Some(Merged(debouncedBuild, target));
      rebuildTimer := true;
    }

    method OnTimer()
      modifies this
      ensures Snapshot() == TimerFired(old(Snapshot()))
    {
      rebuildTimer := false;
      log := log.(stranded := false);
      if debouncedBuild.Some? {
        queuedBuild := Some(Merged(queuedBuild, debouncedBuild.value));
        debouncedBuild := None;
      }
      DrainBuildQueue();
    }

    method DrainBuildQueue()
      modifies this
      ensures Snapshot() == Drain(old(Snapshot()))
    {
      if building || stopping { return; }
      building := true;
      NextBuild();
    }

    /** From the loop condition to the next `await build(target)`, or out of the loop through `finally`. */
    method NextBuild()
      modifies this
      ensures Snapshot() == LoopHead(old(Snapshot()))
    {
      if queuedBuild.Some? && !stopping {
        var target := queuedBuild.value;
        queuedBuild := None;
        log := log.(lastAppStart := if target == App then appChangeRevision else log.lastAppStart,
                    lastStart := daemonChangeRevision);
        drains := drains + [Building(Build(target, appChangeRevision, daemonChangeRevision))];
      } else {
        building := false;
      }
    }

    method Launch(process: nat, atStartup: bool)
      requires process == log.spawned
      modifies this
      ensures Snapshot() == LaunchApp(old(Snapshot()), atStartup)
    {
      log := LaunchApp(Snapshot(), atStartup).log;
      app := Some(process);
    }

    /** `stopApp` up to its `await`; `alive` is `waiter.exitCode === null`. */
    method StopOwnedApp(alive: bool) returns (waiter: Option<nat>)
      modifies this
      ensures Snapshot() == LetGo(old(Snapshot()))
      ensures waiter == if alive then old(app) else None
    {
      waiter := if alive then app else None;
      log := LetGo(Snapshot()).log;
      app := None;
    }

    /** The drain after its build, with the exit code and the state of the owned process as they are then. */
    method OnBuildEnd(i: nat, succeeded: bool, alive: bool, nextProcess: nat)
      requires i < |drains| && drains[i].Building?
      requires alive <==> app.Some? && app.value in log.live
      requires nextProcess == log.spawned
      modifies this
      ensures Snapshot()
        == AfterBuild(old(Snapshot()).(drains := Without(old(drains), i)), old(drains[i]).build, succeeded)
    {
      var build := drains[i].build;
      drains := drains[..i] + drains[i + 1..];
      Continue(build, succeeded, alive, nextProcess);
    }

    /** The rest of the loop body after `await build(target)`. */
    method Continue(build: Build, succeeded: bool, alive: bool, nextProcess: nat)
      requires alive <==> app.Some? && app.value in log.live
      requires nextProcess == log.spawned
      modifies this
      ensures Snapshot() == AfterBuild(old(Snapshot()), build, succeeded)
    {
      if succeeded && build.target == App { log := log.(appBuild := build.appRevision); }
      if !succeeded || stopping { NextBuild(); return; }
      if build.target == Daemon { NextBuild(); return; }
      if appChangeRevision != build.appRevision { NextBuild(); return; }
      Relaunch(build, alive, nextProcess);
    }

    /** `await stopApp()` and, where nothing has to be waited for, what follows it. */
    method Relaunch(build: Build, alive: bool, nextProcess: nat)
      requires alive <==> app.Some? && app.value in log.live
      requires nextProcess == log.spawned
      modifies this
      ensures Snapshot() ==
        var s := old(Snapshot());
        if alive then LetGo(s).(drains := s.drains + [Stopping(build, s.app.value)]) else AfterStop(LetGo(s))
    {
      var waiter := StopOwnedApp(alive);
      if waiter.Some? {
        drains := drains + [Stopping(build, waiter.value)];
      } else {
        OnStopped(nextProcess);
      }
    }

    method OnAppStopped(i: nat, nextProcess: nat)
      requires i < |drains| && drains[i].Stopping? && nextProcess == log.spawned
      modifies this
      ensures Snapshot() == AfterStop(old(Snapshot()).(drains := Without(old(drains), i)))
    {
      drains := drains[..i] + drains[i + 1..];
      OnStopped(nextProcess);
    }

    method OnStopped(nextProcess: nat)
      requires nextProcess == log.spawned
      modifies this
      ensures Snapshot() == AfterStop(old(Snapshot()))
    {
      if !stopping { Launch(nextProcess, false); }
      NextBuild();
    }

    method OnStartupBuildEnd(succeeded: bool, nextProcess: nat)
      requires startup.Some? && nextProcess == log.spawned
      modifies this
      ensures Snapshot() == AfterInitialBuild(old(Snapshot()), old(startup).value, succeeded)
    {
      var initialAppRevision := startup.value;
      startup := None;
      building := false;
      if !succeeded {
        exited := true;
        return;
      }
      log := log.(appBuild := initialAppRevision);
      if appChangeRevision == initialAppRevision {
        var waiter := StopOwnedApp(false);
        Launch(nextProcess, true);
        log := log.(stranded := queuedBuild.Some?);
      } else if queuedBuild.Some? {
        DrainBuildQueue();
      }
    }

    method OnExit(process: nat)
      modifies this
      ensures Snapshot() == Exit(old(Snapshot()), process)
    {
      log := log.(callbacks := log.callbacks - {process});
      if stopping || app != Some(process) { return; }
      app := None;
      stopping := true;
      rebuildTimer := false;
    }

    method CleanUpAll()
      modifies this
      ensures Snapshot() == Cleanup(old(Snapshot()))
    {
      if stopping { return; }
      stopping := true;
      rebuildTimer := false;
      var waiter := StopOwnedApp(true);
    }
  }
}
