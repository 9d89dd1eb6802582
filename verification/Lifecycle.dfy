/** The daemon's serve lifecycle as interleaved atomic steps. */
module Lifecycle {
  import opened Collections
  import Outbox

  // One lifecycle call at a time holds the lifecycle lock, every child has a monitor
  // thread, and crashed serves are restarted by threads of their own. A step is one
  // critical section or one foreign call; generations are numbered in spawn order.

  datatype Call = Start | Stop | Shutdown | Switch

  /** What follows a stop: nothing, the end of a shutdown, or a switch's start. */
  datatype After = JustStop | ThenShutdown | ThenStart

  /** Where the holder of the lifecycle lock is. */
  datatype Txn =
    | Free
    | StartEnter(auto: bool)
    | Spawning(auto: bool)
    | Spawned(g: nat)
    | Saving(g: nat)
    | Watching(g: nat)
    | ShutdownEnter
    | StopEnter(after: After)
    | Preparing(g: nat, after: After)
    | Signalling(g: nat, after: After)
    | TermSent(g: nat, after: After)
    | KillSent(g: nat, after: After)
    | Failing(g: nat, after: After)
    | Reopening
    | Stopped(found: Option<nat>, after: After)

  /** Where a child's monitor is, with what it read: was the serve being stopped. */
  datatype Watch =
    | Waiting
    | Receipting(wasStopping: bool, current: bool)
    | Latching(wasStopping: bool)
    | Clearing(wasStopping: bool)
    | Unstoring(wasStopping: bool, current: bool)
    | Waking(wasStopping: bool, current: bool)
    | Deciding(wasStopping: bool, current: bool)
    | Done

  /** The documents of one generation, by receipt id: a stop's depends on the engine's
      answer (its instance, or a snapshot of its totals), the crash's does not. */
  datatype Doc = StopDoc(n: nat) | CrashDoc

  datatype Event =
    | ClientStart
    | Latch
    | Gap(g: nat)        // crash receipt lost, stop latched
    | Spawn(g: nat, auto: bool)
    | Unwatched(g: nat)  // published, but start failed before its monitor ran
    | Stored(g: nat, doc: Doc, known: bool)  // in the outbox; known if the call returned
    | Signal(g: nat)
    | Reaped(g: nat)
    | ShutdownDone

  datatype Flags = Flags(stopping: bool, starting: bool, stopRequested: bool, shutdownRequested: bool)

  /** What is known of every generation ever spawned; durable are those of which the
      manager itself has seen a receipt stored. */
  datatype Procs = Procs(spawned: nat, alive: set<nat>, watch: map<nat, Watch>, reaped: set<nat>, durable: set<nat>)

  datatype State = State(
    txn: Txn,
    child: Option<nat>,
    store: Option<nat>,
    flags: Flags,
    procs: Procs,
    restarts: nat,
    acked: set<(nat, Doc)>,   // documents taken out of the outbox again
    log: seq<Event>)

  /** Who moves next; `ok` is the outcome of the foreign call the step makes, if any. */
  datatype Step =
    | Begin(call: Call)
    | BeginRestart
    | Proceed(ok: bool)
    | Prepare(doc: Option<nat>, io: Outbox.Io)  // the stop's receipt, if one could be made
    | Die(g: nat)
    | Monitor(g: nat, ok: bool)
    | Account(g: nat, io: Outbox.Io)            // the monitor's crash receipt
    | Ack(g: nat, taken: Doc)

  function Logged(s: State, e: Event): State {
    s.(log := s.log + [e])
  }

  function At(s: State, t: Txn): State {
    s.(txn := t)
  }

  function Watched(s: State, g: nat, w: Watch): State {
    s.(procs := s.procs.(watch := s.procs.watch[g := w]))
  }

  /** At boot: no serve, or a re-adopted one with its monitor, and with what an
      earlier daemon has stored of it. */
  function Boot(carried: Option<seq<Doc>>): State {
    var flags := Flags(false, false, false, false);
    match carried
    case Some(docs) => State(Free, Some(0), Some(0), flags, Procs(1, {0}, map[0 := Waiting], {}, {}), 0, {}, Carried(docs))
    case None => State(Free, None, None, flags, Procs(0, {}, map[], {}, {}), 0, {}, [])
  }

  function Carried(docs: seq<Doc>): (log: seq<Event>)
    ensures |log| == |docs| && forall i :: 0 <= i < |log| ==> log[i] == Stored(0, docs[i], false)
  {
    seq(|docs|, i requires 0 <= i < |docs| => Stored(0, docs[i], false))
  }

  predicate EverStored(log: seq<Event>, g: nat, doc: Doc) {
    Stored(g, doc, true) in log || Stored(g, doc, false) in log
  }

  predicate OnDisk(s: State, g: nat, doc: Doc) {
    EverStored(s.log, g, doc) && (g, doc) !in s.acked
  }

  /** The outbox call returns: the id is there already, or all of the write works. */
  predicate Returns(s: State, g: nat, doc: Doc, io: Outbox.Io) {
    OnDisk(s, g, doc) || io.Works?
  }

  /** A document goes to the outbox; one that fails late is stored all the same. */
  function Filed(s: State, g: nat, doc: Doc, io: Outbox.Io): State {
    var t := s.(acked := s.acked - {(g, doc)});
    if Returns(s, g, doc, io) then Logged(t.(procs := t.procs.(durable := t.procs.durable + {g})), Stored(g, doc, true))
    else if io.FailsLate? then Logged(t, Stored(g, doc, false))
    else s
  }

  // ---- the lifecycle calls ------------------------------------------------------

  /** _start up to the spawn. A wait for an in-flight spawn leaves the state as is. */
  function EnterStart(s: State, auto: bool): State {
    if s.flags.shutdownRequested || (auto && s.flags.stopRequested) then At(s, Free)
    else
      var s1 := if auto then s else Logged(s.(flags := s.flags.(stopRequested := false)), ClientStart);
      if s.child.Some? && !s.flags.stopping then At(s1, Free)
      else if s.flags.starting then s1
      else At(s1.(flags := s1.flags.(starting := true)), Spawning(auto))
  }

  /** A process comes up: alive, not yet published. */
  function Spawns(s: State, auto: bool): State {
    var g := s.procs.spawned;
    Logged(At(s.(procs := s.procs.(alive := s.procs.alive + {g}, spawned := g + 1)), Spawned(g)), Spawn(g, auto))
  }

  /** The next atomic step of a call on the start path. */
  function StartStep(s: State, ok: bool): State
    requires InStart(s.txn)
  {
    match s.txn
    case StartEnter(auto) => EnterStart(s, auto)
    case Spawning(auto) => if ok then Spawns(s, auto) else At(s.(flags := s.flags.(starting := false)), Free)
    case Spawned(g) => At(s.(child := Some(g), flags := s.flags.(stopping := false, starting := false)), Saving(g))
    case Saving(g) => if ok then At(s.(store := Some(g)), Watching(g)) else Logged(At(s, Free), Unwatched(g))
    case Watching(g) => if ok then At(Watched(s, g, Waiting), Free) else Logged(At(s, Free), Unwatched(g))
  }

  /** _stop up to the receipt. */
  function EnterStop(s: State, after: After): State {
    var s1 := Logged(s.(flags := s.flags.(stopRequested := true)), Latch);
    if s.flags.starting then s1
    else if s.child.None? then At(s1, Stopped(None, after))
    else At(s1.(flags := s1.flags.(stopping := true)), Preparing(s.child.value, after))
  }

  /** The engine's final totals and their receipt, before any signal. */
  function PrepareStep(s: State, doc: Option<nat>, io: Outbox.Io): State
    requires s.txn.Preparing?
  {
    var (g, after) := (s.txn.g, s.txn.after);
    if doc.None? || !Returns(s, g, StopDoc(doc.value), io) then
      At(if doc.None? then s else Filed(s, g, StopDoc(doc.value), io), Failing(g, after))
    else At(Filed(s, g, StopDoc(doc.value), io), Signalling(g, after))
  }

  /** The next atomic step of a stop that has its receipt, or has failed. */
  function StopStep(s: State, g: nat, after: After, ok: bool): State
    requires Signals(s.txn)
  {
    match s.txn
    case Failing(_, _) =>
      At(s.(flags := s.flags.(stopping := s.flags.stopping && s.child != Some(g))), if after.ThenShutdown? then Reopening else Free)
    case _ =>
      if g in s.procs.reaped then At(s, Stopped(Some(g), after))
      else if s.txn.KillSent? || !ok then At(s, Failing(g, after))
      else Logged(At(s, if s.txn.Signalling? then TermSent(g, after) else KillSent(g, after)), Signal(g))
  }

  /** The steps around it: the latches, and what follows. */
  function FrameStep(s: State): State {
    match s.txn
    case ShutdownEnter => At(s.(flags := s.flags.(shutdownRequested := true)), StopEnter(ThenShutdown))
    case StopEnter(after) => EnterStop(s, after)
    case Reopening => At(s.(flags := s.flags.(shutdownRequested := false)), Free)
    case Stopped(_, after) =>
      if after.ThenStart? then At(s, StartEnter(false))
      else if after.ThenShutdown? then Logged(At(s, Free), ShutdownDone)
      else At(s, Free)
    case _ => s
  }

  predicate InStart(t: Txn) {
    t.StartEnter? || t.Spawning? || t.Spawned? || t.Saving? || t.Watching?
  }

  predicate Signals(t: Txn) {
    t.Signalling? || t.TermSent? || t.KillSent? || t.Failing?
  }

  /** The next atomic step of the call that holds the lifecycle lock. */
  function Advance(s: State, ok: bool): State {
    if InStart(s.txn) then StartStep(s, ok)
    else if Signals(s.txn) then StopStep(s, s.txn.g, s.txn.after, ok)
    else FrameStep(s)
  }

  // ---- the monitor ----------------------------------------------------------------

  /** A monitor that has not yet dropped its child. */
  predicate Early(w: Watch) {
    w.Waiting? || w.Receipting? || w.Latching? || w.Clearing?
  }

  /** The crash receipt, unless the manager knows of a receipt. */
  function AccountStep(s: State, g: nat, io: Outbox.Io): State
    requires g in s.procs.watch && s.procs.watch[g].Receipting?
  {
    var (was, current) := (s.procs.watch[g].wasStopping, s.procs.watch[g].current);
    if !current || g in s.procs.durable then Watched(s, g, Clearing(was))
    else Watched(Filed(s, g, CrashDoc, io), g, if Returns(s, g, CrashDoc, io) then Clearing(was) else Latching(was))
  }

  /** A monitor's other steps up to dropping its child; waiting ends with the process. */
  function ReapStep(s: State, g: nat): State
    requires g in s.procs.watch && Early(s.procs.watch[g]) && !s.procs.watch[g].Receipting?
  {
    match s.procs.watch[g]
    case Waiting => Watched(s, g, Receipting(s.flags.stopping || s.flags.stopRequested, s.child == Some(g)))
    case Latching(was) => Logged(Watched(s.(flags := s.flags.(stopRequested := true)), g, Clearing(was)), Gap(g))
    case Clearing(was) =>
      if s.child == Some(g) then Watched(s.(child := None, flags := s.flags.(stopping := false)), g, Unstoring(was, true))
      else Watched(s, g, Unstoring(was, false))
  }

  /** The steps after it: erase the state file, wake the waiters, perhaps restart. */
  function WakeStep(s: State, g: nat, ok: bool): State
    requires g in s.procs.watch
  {
    match s.procs.watch[g]
    case Unstoring(was, current) =>
      Watched(if current then s.(store := None) else s, g, Waking(was, current))
    case Waking(was, current) =>
      Logged(Watched(s.(procs := s.procs.(reaped := s.procs.reaped + {g})), g, Deciding(was, current)), Reaped(g))
    case Deciding(was, current) =>
      var again := current && !was && ok && !s.flags.stopRequested;
      Watched(s.(restarts := s.restarts + if again then 1 else 0), g, Done)
    case _ => s
  }

  /** The next atomic step of a child's monitor, its receipt aside. */
  function Reap(s: State, g: nat, ok: bool): State
    requires g in s.procs.watch && !s.procs.watch[g].Receipting?
  {
    if Early(s.procs.watch[g]) then ReapStep(s, g) else WakeStep(s, g, ok)
  }

  predicate Enabled(s: State, step: Step) {
    match step
    case Begin(_) => s.txn.Free?
    case BeginRestart => s.txn.Free? && s.restarts > 0
    case Proceed(_) => !s.txn.Free? && !s.txn.Preparing?
    case Prepare(_, _) => s.txn.Preparing?
    case Die(g) => g in s.procs.alive
    case Monitor(g, _) => g in s.procs.watch && Moves(s.procs.watch[g]) && (s.procs.watch[g].Waiting? ==> g !in s.procs.alive)
    case Account(g, _) => g in s.procs.watch && s.procs.watch[g].Receipting?
    case Ack(g, doc) => OnDisk(s, g, doc)
  }

  predicate Moves(w: Watch) {
    !w.Done? && !w.Receipting?
  }

  function Apply(s: State, step: Step): State
    requires Enabled(s, step)
  {
    match step
    case Begin(Start) => s.(txn := StartEnter(false))
    case Begin(Stop) => s.(txn := StopEnter(JustStop))
    case Begin(Shutdown) => s.(txn := ShutdownEnter)
    case Begin(Switch) => s.(txn := StopEnter(ThenStart))
    case BeginRestart => s.(restarts := s.restarts - 1, txn := StartEnter(true))
    case Proceed(ok) => Advance(s, ok)
    case Prepare(doc, io) => PrepareStep(s, doc, io)
    case Die(g) => s.(procs := s.procs.(alive := s.procs.alive - {g}))
    case Monitor(g, ok) => Reap(s, g, ok)
    case Account(g, io) => AccountStep(s, g, io)
    case Ack(g, doc) => s.(acked := s.acked + {(g, doc)})
  }

  /** The state after a run of steps, if every one of them was possible. */
  function Run(s: State, steps: seq<Step>): Option<State>
    decreases |steps|
  {
    if steps == [] then Some(s)
    else if !Enabled(s, steps[0]) then None
    else Run(Apply(s, steps[0]), steps[1..])
  }

  // ---- what every step keeps --------------------------------------------------------

  /** The generation a stop is working on. */
  function Target(t: Txn): Option<nat> {
    match t
    case Preparing(g, _) => Some(g)
    case Signalling(g, _) => Some(g)
    case TermSent(g, _) => Some(g)
    case KillSent(g, _) => Some(g)
    case Failing(g, _) => Some(g)
    case Stopped(found, _) => found
    case _ => None
  }

  /** What holds of generation g: a process that lives is the current child or about
      to become it; an early monitor watches the current child, a later one only a
      dead process; a generation is reaped once its monitor says so. */
  ghost predicate GenOk(s: State, g: nat) {
    && (g in s.procs.alive || g in s.procs.watch || g in s.procs.reaped || g in s.procs.durable ==> g < s.procs.spawned)
    && (g in s.procs.alive ==> s.child == Some(g) || s.txn == Spawned(g))
    && (g in s.procs.reaped ==> g in s.procs.watch)
    && (g in s.procs.watch ==> MonitorOk(s, g, s.procs.watch[g]))
  }

  ghost predicate MonitorOk(s: State, g: nat, w: Watch) {
    && (Early(w) <==> s.child == Some(g))
    && (w.Receipting? || w.Unstoring? || w.Waking? || w.Deciding? ==> w.current)
    && (!w.Waiting? ==> g !in s.procs.alive)
    && (g in s.procs.reaped <==> w.Deciding? || w.Done?)
    && (s.store.Some? ==> g <= s.store.value)
  }

  /** The current child is the latest generation, and no other process exists while
      a new one is on its way. */
  ghost predicate StartOk(s: State) {
    && (s.child.Some? ==> s.child.value + 1 == s.procs.spawned)
    && (s.flags.starting <==> s.txn.Spawning? || s.txn.Spawned?)
    && (s.txn.Spawning? || s.txn.Spawned? ==> s.child.None?)
    && (s.txn.Spawned? ==> s.txn.g + 1 == s.procs.spawned && s.txn.g !in s.procs.watch && s.txn.g !in s.procs.durable)
    && (s.txn.Saving? || s.txn.Watching? ==> s.child == Some(s.txn.g) && s.txn.g !in s.procs.watch)
  }

  ghost predicate StopOk(s: State) {
    && (s.flags.stopping ==> s.child.Some? && Target(s.txn) == s.child && !s.txn.Stopped?)
    && (Target(s.txn).Some? ==> Target(s.txn).value + 1 == s.procs.spawned)
    && (Target(s.txn).Some? && s.child.None? ==> Target(s.txn).value in s.procs.watch)
    && (s.txn.Stopped? ==> s.child.None? && (s.txn.found.Some? ==> s.txn.found.value in s.procs.reaped))
  }

  /** The state file names the current child, or one whose monitor is about to erase
      it. */
  ghost predicate StoreOk(s: State) {
    && (s.store.Some? ==> s.store.value < s.procs.spawned)
    && (s.store.Some? ==> s.store == s.child || (s.store.value in s.procs.watch && s.procs.watch[s.store.value].Unstoring?))
    && (s.txn.Watching? && s.store.Some? ==> s.store.value == s.txn.g)
  }

  ghost predicate Inv(s: State) {
    StartOk(s) && StopOk(s) && StoreOk(s) && forall g: nat :: GenOk(s, g)
  }

  lemma BootInv(carried: Option<seq<Doc>>)
    ensures Inv(Boot(carried))
  {
  }

  lemma StartStepGen(s: State, ok: bool, g: nat)
    requires Inv(s) && InStart(s.txn)
    ensures GenOk(StartStep(s, ok), g)
  {
    assert GenOk(s, g);
    assert GenOk(s, s.procs.spawned);
  }

  lemma StartStepGlobals(s: State, ok: bool)
    requires Inv(s) && InStart(s.txn)
    ensures StartOk(StartStep(s, ok)) && StopOk(StartStep(s, ok)) && StoreOk(StartStep(s, ok))
  {
    assert GenOk(s, s.procs.spawned);
    assert s.store.Some? ==> GenOk(s, s.store.value);
  }

  lemma PrepareStepGen(s: State, doc: Option<nat>, io: Outbox.Io, g: nat)
    requires Inv(s) && s.txn.Preparing?
    ensures GenOk(PrepareStep(s, doc, io), g)
  {
    hide OnDisk;
    assert GenOk(s, g);
    assert GenOk(s, s.txn.g);
  }

  lemma PrepareStepGlobals(s: State, doc: Option<nat>, io: Outbox.Io)
    requires Inv(s) && s.txn.Preparing?
    ensures StartOk(PrepareStep(s, doc, io)) && StopOk(PrepareStep(s, doc, io)) && StoreOk(PrepareStep(s, doc, io))
  {
    hide OnDisk;
    assert GenOk(s, s.txn.g);
  }

  lemma AccountStepGen(s: State, m: nat, io: Outbox.Io, g: nat)
    requires Inv(s) && Enabled(s, Account(m, io))
    ensures GenOk(AccountStep(s, m, io), g)
  {
    hide OnDisk;
    assert GenOk(s, g) && GenOk(s, m);
  }

  lemma AccountStepGlobals(s: State, m: nat, io: Outbox.Io)
    requires Inv(s) && Enabled(s, Account(m, io))
    ensures StartOk(AccountStep(s, m, io)) && StopOk(AccountStep(s, m, io)) && StoreOk(AccountStep(s, m, io))
  {
    hide OnDisk;
    assert GenOk(s, m);
    assert s.store.Some? ==> GenOk(s, s.store.value);
  }

  lemma StopStepGen(s: State, ok: bool, g: nat)
    requires Inv(s) && Signals(s.txn)
    ensures GenOk(StopStep(s, s.txn.g, s.txn.after, ok), g)
  {
    assert GenOk(s, g);
    assert GenOk(s, s.txn.g);
  }

  lemma StopStepStart(s: State, ok: bool)
    requires Inv(s) && Signals(s.txn)
    ensures StartOk(StopStep(s, s.txn.g, s.txn.after, ok)) && StoreOk(StopStep(s, s.txn.g, s.txn.after, ok))
  {
    hide StopOk, GenOk;
  }

  lemma StopStepStop(s: State, ok: bool)
    requires Inv(s) && Signals(s.txn)
    ensures StopOk(StopStep(s, s.txn.g, s.txn.after, ok))
  {
    hide StoreOk;
    assert GenOk(s, s.txn.g);
    assert s.store.Some? ==> GenOk(s, s.store.value);
  }

  lemma FrameStepGen(s: State, g: nat)
    requires Inv(s) && !InStart(s.txn) && !Signals(s.txn)
    ensures GenOk(FrameStep(s), g)
  {
    assert GenOk(s, g);
    assert s.child.Some? ==> GenOk(s, s.child.value);
  }

  lemma FrameStepGlobals(s: State)
    requires Inv(s) && !InStart(s.txn) && !Signals(s.txn)
    ensures StartOk(FrameStep(s)) && StopOk(FrameStep(s)) && StoreOk(FrameStep(s))
  {
    assert s.child.Some? ==> GenOk(s, s.child.value);
    assert s.store.Some? ==> GenOk(s, s.store.value);
  }

  lemma ReapStepGen(s: State, m: nat, ok: bool, g: nat)
    requires Inv(s) && Enabled(s, Monitor(m, ok)) && Early(s.procs.watch[m])
    ensures GenOk(ReapStep(s, m), g)
  {
    assert GenOk(s, g) && GenOk(s, m);
  }

  lemma ReapStepGlobals(s: State, m: nat, ok: bool)
    requires Inv(s) && Enabled(s, Monitor(m, ok)) && Early(s.procs.watch[m])
    ensures StartOk(ReapStep(s, m)) && StopOk(ReapStep(s, m)) && StoreOk(ReapStep(s, m))
  {
    assert GenOk(s, m);
    assert s.store.Some? ==> GenOk(s, s.store.value);
  }

  lemma WakeStepGen(s: State, m: nat, ok: bool, g: nat)
    requires Inv(s) && Enabled(s, Monitor(m, ok)) && !Early(s.procs.watch[m])
    ensures GenOk(WakeStep(s, m, ok), g)
  {
    assert GenOk(s, g) && GenOk(s, m);
  }

  lemma WakeStepGlobals(s: State, m: nat, ok: bool)
    requires Inv(s) && Enabled(s, Monitor(m, ok)) && !Early(s.procs.watch[m])
    ensures StartOk(WakeStep(s, m, ok)) && StopOk(WakeStep(s, m, ok)) && StoreOk(WakeStep(s, m, ok))
  {
    assert GenOk(s, m);
    assert s.store.Some? ==> GenOk(s, s.store.value);
  }

  lemma AdvanceKeepsInv(s: State, ok: bool)
    requires Inv(s) && !s.txn.Preparing?
    ensures Inv(Advance(s, ok))
  {
    hide StartStep, StopStep, FrameStep, StartOk, StopOk, StoreOk, GenOk;
    if InStart(s.txn) {
      StartStepGlobals(s, ok);
      forall g: nat ensures GenOk(StartStep(s, ok), g) { StartStepGen(s, ok, g); }
    } else if Signals(s.txn) {
      StopStepStart(s, ok);
      StopStepStop(s, ok);
      forall g: nat ensures GenOk(Advance(s, ok), g) { StopStepGen(s, ok, g); }
    } else {
      FrameStepGlobals(s);
      forall g: nat ensures GenOk(FrameStep(s), g) { FrameStepGen(s, g); }
    }
  }

  lemma ReapKeepsInv(s: State, m: nat, ok: bool)
    requires Inv(s) && Enabled(s, Monitor(m, ok))
    ensures Inv(Reap(s, m, ok))
  {
    hide ReapStep, WakeStep, StartOk, StopOk, StoreOk, GenOk;
    if Early(s.procs.watch[m]) {
      ReapStepGlobals(s, m, ok);
      forall g: nat ensures GenOk(ReapStep(s, m), g) { ReapStepGen(s, m, ok, g); }
    } else {
      WakeStepGlobals(s, m, ok);
      forall g: nat ensures GenOk(WakeStep(s, m, ok), g) { WakeStepGen(s, m, ok, g); }
    }
  }

  /** A call getting the lock, a process dying by itself, a receipt collected. */
  predicate Outside(step: Step) {
    step.Begin? || step.BeginRestart? || step.Die? || step.Ack?
  }

  lemma OutsideGen(s: State, step: Step, g: nat)
    requires Inv(s) && Outside(step) && Enabled(s, step)
    ensures GenOk(Apply(s, step), g)
  {
    hide Advance, Reap, PrepareStep, AccountStep, StopOk, StoreOk;
    assert GenOk(s, g);
  }

  lemma OutsideGlobals(s: State, step: Step)
    requires Inv(s) && Outside(step) && Enabled(s, step)
    ensures StartOk(Apply(s, step)) && StopOk(Apply(s, step)) && StoreOk(Apply(s, step))
  {
    hide Advance, Reap, PrepareStep, AccountStep, GenOk;
  }

  lemma StepKeepsInv(s: State, step: Step)
    requires Inv(s) && Enabled(s, step)
    ensures Inv(Apply(s, step))
  {
    hide Advance, Reap, PrepareStep, AccountStep, StartOk, StopOk, StoreOk, GenOk;
    match step
    case Proceed(ok) => AdvanceKeepsInv(s, ok);
    case Monitor(g, ok) => ReapKeepsInv(s, g, ok);
    case Prepare(doc, io) =>
      PrepareStepGlobals(s, doc, io);
      forall g: nat ensures GenOk(Apply(s, step), g) { PrepareStepGen(s, doc, io, g); }
    case Account(m, io) =>
      AccountStepGlobals(s, m, io);
      forall g: nat ensures GenOk(Apply(s, step), g) { AccountStepGen(s, m, io, g); }
    case _ =>
      OutsideGlobals(s, step);
      forall g: nat ensures GenOk(Apply(s, step), g) { OutsideGen(s, step, g); }
  }

  // ---- what the log of every run shows ------------------------------------------------

  /** Some outbox call of the generation has returned. */
  ghost predicate Known(log: seq<Event>, g: nat) {
    exists doc :: Stored(g, doc, true) in log
  }

  /** A stop is latched: by a stop or a lost crash receipt, and no client start since. */
  predicate Latched(log: seq<Event>) {
    log != [] &&
    var e := log[|log| - 1];
    if e.Latch? || e.Gap? then true else if e.ClientStart? then false else Latched(log[..|log| - 1])
  }

  /** What must already have happened when an event happens. */
  ghost predicate Justified(before: seq<Event>, e: Event) {
    match e
    case Signal(g) => Known(before, g)
    case Stored(g, doc, _) => doc.CrashDoc? ==> !Known(before, g)
    case Reaped(g) => Reaped(g) !in before && (Known(before, g) || Gap(g) in before)
    case Spawn(g, auto) => ShutdownDone !in before && (auto ==> !Latched(before))
    case _ => true
  }

  ghost predicate AllJustified(log: seq<Event>) {
    forall j :: 0 <= j < |log| ==> Justified(log[..j], log[j])
  }

  lemma AllJustifiedSnoc(log: seq<Event>, e: Event)
    requires AllJustified(log) && Justified(log, e)
    ensures AllJustified(log + [e])
  {
    hide Justified;
    forall j | 0 <= j < |log| + 1 ensures Justified((log + [e])[..j], (log + [e])[j]) {
      assert (log + [e])[..j] == if j == |log| then log else log[..j];
    }
  }

  lemma LatchedSnoc(log: seq<Event>, e: Event)
    ensures Latched(log + [e]) == if e.Latch? || e.Gap? then true else if e.ClientStart? then false else Latched(log)
  {
    assert (log + [e])[..|log|] == log;
  }

  /** What the log shows of one generation. */
  datatype Marks = Marks(known: bool, reaped: bool, gap: bool, unwatched: bool)

  ghost function Seen(log: seq<Event>, g: nat): Marks {
    Marks(Known(log, g), Reaped(g) in log, Gap(g) in log, Unwatched(g) in log)
  }

  lemma SeenSnoc(log: seq<Event>, e: Event, g: nat)
    ensures var m := Seen(log, g);
      Seen(log + [e], g) == Marks(m.known || (e.Stored? && e.g == g && e.known), m.reaped || e == Reaped(g),
                                  m.gap || e == Gap(g), m.unwatched || e == Unwatched(g))
  {
    assert forall x :: x in log + [e] <==> x in log || x == e;
    if e.Stored? && e.g == g && e.known { assert Stored(g, e.doc, true) in log + [e]; }
    if Known(log, g) {
      var doc :| Stored(g, doc, true) in log;
      assert Stored(g, doc, true) in log + [e];
    }
  }

  /** What the state holds of one generation. */
  datatype Holding = Holding(durable: bool, reaped: bool, spawned: bool, watch: Option<Watch>, publishing: bool, current: bool)

  function Held(s: State, g: nat): Holding {
    Holding(g in s.procs.durable, g in s.procs.reaped, g < s.procs.spawned, if g in s.procs.watch then Some(s.procs.watch[g]) else None,
            Publishing(s.txn) == Some(g), s.child == Some(g))
  }

  function Publishing(t: Txn): Option<nat> {
    if t.Spawned? || t.Saving? || t.Watching? then Some(t.g) else None
  }

  /** The log agrees with the state about generation g. */
  ghost predicate LinkOk(s: State, g: nat) {
    Agrees(Held(s, g), Seen(s.log, g))
  }

  predicate Agrees(h: Holding, m: Marks) {
    && h.durable == m.known && h.reaped == m.reaped
    && (h.watch.Some? && (!Early(h.watch.value) || h.watch.value.Clearing?) ==> h.durable || m.gap)
    && (m.unwatched ==> h.spawned && h.watch.None? && !h.publishing)
    && (h.current && !h.publishing ==> h.watch.Some? || m.unwatched)
  }

  predicate AfterShutdown(t: Txn) {
    t.Free? || t.StartEnter? || t.ShutdownEnter? || t.StopEnter? || t.Stopped?
  }

  predicate ShuttingDown(t: Txn) {
    (t.StopEnter? || t.Preparing? || Signals(t) || t.Stopped?) && t.after.ThenShutdown?
  }

  ghost predicate LogOk(s: State) {
    && AllJustified(s.log) && (s.flags.stopRequested <==> Latched(s.log))
    && (s.txn == Spawning(true) ==> !s.flags.stopRequested)
    && (s.txn.Signalling? || s.txn.TermSent? || s.txn.KillSent? ==> s.txn.g in s.procs.durable)
    && (s.txn.Spawning? ==> ShutdownDone !in s.log)
    && (ShuttingDown(s.txn) ==> s.flags.shutdownRequested)
    && (ShutdownDone in s.log ==> s.flags.shutdownRequested && s.child.None? && AfterShutdown(s.txn))
  }

  /** The new log is justified and latched as the one new event, if any, says. */
  lemma Extended(log: seq<Event>, now: seq<Event>)
    requires AllJustified(log)
    requires now == log || (|now| == |log| + 1 && now[..|log|] == log && Justified(log, now[|log|]))
    ensures AllJustified(now)
    ensures now != log ==>
      (Latched(now) <==> var e := now[|log|]; if e.Latch? || e.Gap? then true else if e.ClientStart? then false else Latched(log))
  {
    if now != log {
      assert now == log + [now[|log|]];
      AllJustifiedSnoc(log, now[|log|]);
      LatchedSnoc(log, now[|log|]);
    }
  }

  lemma EnteringLink(s: State, ok: bool, g: nat)
    requires (s.txn.StartEnter? || s.txn.Spawned?) && LinkOk(s, g) && StartOk(s) && GenOk(s, g)
    ensures LinkOk(StartStep(s, ok), g)
  {
    hide Seen, MonitorOk;
    SeenSnoc(s.log, ClientStart, g);
  }

  lemma SpawningLink(s: State, ok: bool, g: nat)
    requires s.txn.Spawning? && LinkOk(s, g) && StartOk(s) && GenOk(s, s.procs.spawned) && GenOk(s, g)
    ensures LinkOk(StartStep(s, ok), g)
  {
    hide Seen, MonitorOk;
    SeenSnoc(s.log, Spawn(s.procs.spawned, s.txn.auto), g);
  }

  lemma PublishingLink(s: State, ok: bool, g: nat)
    requires (s.txn.Saving? || s.txn.Watching?) && LinkOk(s, g) && StartOk(s) && GenOk(s, g)
    ensures LinkOk(StartStep(s, ok), g)
  {
    hide Seen, MonitorOk;
    SeenSnoc(s.log, Unwatched(s.txn.g), g);
  }

  lemma StartStepLink(s: State, ok: bool, g: nat)
    requires InStart(s.txn) && LinkOk(s, g) && StartOk(s) && GenOk(s, s.procs.spawned) && GenOk(s, g)
    ensures LinkOk(StartStep(s, ok), g)
  {
    hide StartStep, LinkOk, StartOk, GenOk;
    match s.txn
    case Spawning(_) => SpawningLink(s, ok, g);
    case Saving(_) => PublishingLink(s, ok, g);
    case Watching(_) => PublishingLink(s, ok, g);
    case _ => EnteringLink(s, ok, g);
  }

  lemma StartStepLog(s: State, ok: bool)
    requires Inv(s) && LogOk(s) && InStart(s.txn)
    requires forall g: nat :: LinkOk(s, g)
    ensures LogOk(StartStep(s, ok))
  {
    hide AllJustified, Latched, StopOk, StoreOk;
    assert GenOk(s, s.procs.spawned);
    assert LinkOk(s, s.procs.spawned);
    Extended(s.log, StartStep(s, ok).log);
  }

  /** Filing a document marks the generation exactly if the call returned. */
  lemma FiledLink(s: State, m: nat, doc: Doc, io: Outbox.Io, g: nat)
    ensures var t := Filed(s, m, doc, io);
      && Seen(t.log, g) == Seen(s.log, g).(known := Seen(s.log, g).known || (m == g && Returns(s, m, doc, io)))
      && (g in t.procs.durable <==> g in s.procs.durable || (m == g && Returns(s, m, doc, io)))
  {
    hide Seen, Returns;
    SeenSnoc(s.log, Stored(m, doc, true), g);
    SeenSnoc(s.log, Stored(m, doc, false), g);
  }

  lemma PrepareStepLink(s: State, doc: Option<nat>, io: Outbox.Io, g: nat)
    requires s.txn.Preparing? && LinkOk(s, g)
    ensures LinkOk(PrepareStep(s, doc, io), g)
  {
    if doc.Some? { FiledLink(s, s.txn.g, StopDoc(doc.value), io, g); }
    hide Seen, Early, Returns;
  }

  lemma PrepareStepLog(s: State, doc: Option<nat>, io: Outbox.Io)
    requires Inv(s) && LogOk(s) && s.txn.Preparing?
    ensures LogOk(PrepareStep(s, doc, io))
  {
    hide AllJustified, Latched, StartOk, StopOk, StoreOk, Returns, Known;
    Extended(s.log, PrepareStep(s, doc, io).log);
  }

  lemma AccountStepLink(s: State, m: nat, io: Outbox.Io, g: nat)
    requires Enabled(s, Account(m, io)) && LinkOk(s, g) && MonitorOk(s, m, s.procs.watch[m])
    ensures LinkOk(AccountStep(s, m, io), g)
  {
    FiledLink(s, m, CrashDoc, io, g);
    hide Seen, Returns;
  }

  lemma AccountStepLog(s: State, m: nat, io: Outbox.Io)
    requires Inv(s) && LogOk(s) && Enabled(s, Account(m, io)) && LinkOk(s, m)
    ensures LogOk(AccountStep(s, m, io))
  {
    hide AllJustified, Latched, StartOk, StopOk, StoreOk, Returns, Known;
    Extended(s.log, AccountStep(s, m, io).log);
  }

  lemma StopStepLink(s: State, ok: bool, g: nat)
    requires Signals(s.txn) && LinkOk(s, g)
    ensures LinkOk(StopStep(s, s.txn.g, s.txn.after, ok), g)
  {
    hide Seen, Early;
    SeenSnoc(s.log, Signal(s.txn.g), g);
  }

  lemma StopStepLog(s: State, ok: bool)
    requires Inv(s) && LogOk(s) && Signals(s.txn)
    requires forall g: nat :: LinkOk(s, g)
    ensures LogOk(StopStep(s, s.txn.g, s.txn.after, ok))
  {
    hide AllJustified, Latched, StoreOk;
    assert GenOk(s, s.txn.g);
    assert LinkOk(s, s.txn.g);
    Extended(s.log, StopStep(s, s.txn.g, s.txn.after, ok).log);
  }

  lemma FrameStepHolds(s: State, g: nat)
    requires !InStart(s.txn) && !Signals(s.txn) && !s.txn.Preparing?
    ensures Held(FrameStep(s), g) == Held(s, g)
    ensures FrameStep(s).log == s.log || FrameStep(s).log == s.log + [Latch] || FrameStep(s).log == s.log + [ShutdownDone]
  {
  }

  lemma FrameStepLink(s: State, g: nat)
    requires !InStart(s.txn) && !Signals(s.txn) && !s.txn.Preparing? && LinkOk(s, g)
    ensures LinkOk(FrameStep(s), g)
  {
    FrameStepHolds(s, g);
    SeenSnoc(s.log, Latch, g);
    SeenSnoc(s.log, ShutdownDone, g);
    hide Seen, Held, FrameStep;
  }

  lemma FrameStepLog(s: State)
    requires Inv(s) && LogOk(s) && !InStart(s.txn) && !Signals(s.txn) && !s.txn.Preparing?
    requires forall g: nat :: LinkOk(s, g)
    ensures LogOk(FrameStep(s))
  {
    hide AllJustified, Latched, StoreOk;
    Extended(s.log, FrameStep(s).log);
  }

  lemma ReapStepLink(s: State, m: nat, ok: bool, g: nat)
    requires Enabled(s, Monitor(m, ok)) && Early(s.procs.watch[m]) && LinkOk(s, g) && MonitorOk(s, m, s.procs.watch[m])
    ensures LinkOk(ReapStep(s, m), g)
  {
    SeenSnoc(s.log, Gap(m), g);
    hide Seen;
  }

  lemma ReapStepLog(s: State, m: nat, ok: bool)
    requires Inv(s) && LogOk(s) && Enabled(s, Monitor(m, ok)) && Early(s.procs.watch[m])
    ensures LogOk(ReapStep(s, m))
  {
    hide AllJustified, Latched, StoreOk;
    assert GenOk(s, m);
    Extended(s.log, ReapStep(s, m).log);
  }

  lemma WakeStepLink(s: State, m: nat, ok: bool, g: nat)
    requires Enabled(s, Monitor(m, ok)) && !Early(s.procs.watch[m]) && LinkOk(s, g)
    ensures LinkOk(WakeStep(s, m, ok), g)
  {
    SeenSnoc(s.log, Reaped(m), g);
    hide Seen;
  }

  lemma WakeStepLog(s: State, m: nat, ok: bool)
    requires Inv(s) && LogOk(s) && Enabled(s, Monitor(m, ok)) && !Early(s.procs.watch[m])
    requires forall g: nat :: LinkOk(s, g)
    ensures LogOk(WakeStep(s, m, ok))
  {
    hide AllJustified, Latched, StartOk, StopOk, StoreOk;
    assert GenOk(s, m);
    assert LinkOk(s, m);
    Extended(s.log, WakeStep(s, m, ok).log);
  }

  lemma OutsideLink(s: State, step: Step, g: nat)
    requires Enabled(s, step) && Outside(step) && LinkOk(s, g)
    ensures LinkOk(Apply(s, step), g)
  {
    hide Seen, Advance, Reap, PrepareStep, AccountStep, Early;
  }

  lemma OutsideLog(s: State, step: Step)
    requires Inv(s) && LogOk(s) && Enabled(s, step) && Outside(step)
    requires forall g: nat :: LinkOk(s, g)
    ensures LogOk(Apply(s, step))
  {
    hide AllJustified, Latched, StopOk, StoreOk;
    hide Advance, Reap, PrepareStep, AccountStep;
    Extended(s.log, Apply(s, step).log);
  }

  ghost predicate Sound(s: State) {
    Inv(s) && LogOk(s) && forall g: nat :: LinkOk(s, g)
  }

  lemma InvFacts(s: State)
    requires Inv(s)
    ensures StartOk(s) && forall g: nat :: GenOk(s, g)
    ensures forall m :: m in s.procs.watch ==> MonitorOk(s, m, s.procs.watch[m])
  {
    hide StartOk, StopOk, StoreOk;
    forall m | m in s.procs.watch ensures MonitorOk(s, m, s.procs.watch[m]) { assert GenOk(s, m); }
  }

  lemma StepKeepsSound(s: State, step: Step)
    requires Sound(s) && Enabled(s, step)
    ensures Sound(Apply(s, step))
  {
    StepKeepsInv(s, step);
    InvFacts(s);
    hide StartStep, StopStep, FrameStep, ReapStep, WakeStep, PrepareStep, AccountStep, Inv, LogOk, LinkOk, GenOk, StartOk, MonitorOk;
    match step
    case Proceed(ok) =>
      if InStart(s.txn) {
        StartStepLog(s, ok);
        forall g: nat ensures LinkOk(Apply(s, step), g) { StartStepLink(s, ok, g); }
      } else if Signals(s.txn) {
        StopStepLog(s, ok);
        forall g: nat ensures LinkOk(Apply(s, step), g) { StopStepLink(s, ok, g); }
      } else {
        FrameStepLog(s);
        forall g: nat ensures LinkOk(Apply(s, step), g) { FrameStepLink(s, g); }
      }
    case Monitor(m, ok) =>
      if Early(s.procs.watch[m]) {
        ReapStepLog(s, m, ok);
        forall g: nat ensures LinkOk(Apply(s, step), g) { ReapStepLink(s, m, ok, g); }
      } else {
        WakeStepLog(s, m, ok);
        forall g: nat ensures LinkOk(Apply(s, step), g) { WakeStepLink(s, m, ok, g); }
      }
    case Prepare(doc, io) =>
      PrepareStepLog(s, doc, io);
      forall g: nat ensures LinkOk(Apply(s, step), g) { PrepareStepLink(s, doc, io, g); }
    case Account(m, io) =>
      AccountStepLog(s, m, io);
      forall g: nat ensures LinkOk(Apply(s, step), g) { AccountStepLink(s, m, io, g); }
    case _ =>
      OutsideLog(s, step);
      forall g: nat ensures LinkOk(Apply(s, step), g) { OutsideLink(s, step, g); }
  }

  lemma {:induction false} RunKeepsSound(s: State, steps: seq<Step>)
    requires Sound(s)
    ensures Run(s, steps).Some? ==> Sound(Run(s, steps).value)
    decreases |steps|
  {
    hide Sound, Apply, Enabled;
    if steps != [] && Enabled(s, steps[0]) {
      StepKeepsSound(s, steps[0]);
      RunKeepsSound(Apply(s, steps[0]), steps[1..]);
    }
  }

  lemma BootSound(carried: Option<seq<Doc>>)
    ensures Sound(Boot(carried))
  {
    BootInv(carried);
    hide Inv;
    if carried.Some? { CarriedLog(carried.value); }
  }

  lemma CarriedLog(docs: seq<Doc>)
    ensures AllJustified(Carried(docs)) && !Latched(Carried(docs))
    ensures forall e :: e in Carried(docs) ==> e.Stored? && !e.known
  {
    var log := Carried(docs);
    NotLatched(log);
    forall j | 0 <= j < |log| ensures Justified(log[..j], log[j]) {
      assert forall e :: e in log[..j] ==> e.Stored? && !e.known;
    }
  }

  lemma {:induction false} NotLatched(log: seq<Event>)
    requires forall e :: e in log ==> e.Stored?
    ensures !Latched(log)
  {
    if log != [] {
      assert log[|log| - 1] in log;
      NotLatched(log[..|log| - 1]);
    }
  }

  /** Some interleaving of calls, monitors, restarts and deaths leads here. */
  ghost predicate Reachable(s: State) {
    exists carried: Option<seq<Doc>>, steps: seq<Step> :: Run(Boot(carried), steps) == Some(s)
  }

  lemma ReachableSound(s: State)
    requires Reachable(s)
    ensures Sound(s)
  {
    var carried: Option<seq<Doc>>, steps: seq<Step> :| Run(Boot(carried), steps) == Some(s);
    BootSound(carried);
    RunKeepsSound(Boot(carried), steps);
  }

  // ---- the theorems -------------------------------------------------------------------

  lemma AtMostOneServe(s: State, g: nat, h: nat)
    requires Reachable(s) && g in s.procs.alive && h in s.procs.alive
    ensures g == h
  {
    ReachableSound(s);
    assert GenOk(s, g) && GenOk(s, h);
  }

  lemma QuietWhenUnlocked(s: State)
    requires Reachable(s) && s.txn.Free?
    ensures !s.flags.stopping && !s.flags.starting
  {
    ReachableSound(s);
  }

  /** A stop that succeeds leaves no child and no process; one that found a child
      leaves it reaped and the state file empty. */
  lemma StopIsComplete(s: State)
    requires Reachable(s) && s.txn.Stopped?
    ensures s.child.None? && s.procs.alive == {}
    ensures s.txn.found.Some? ==> s.txn.found.value in s.procs.reaped && s.store.None?
  {
    ReachableSound(s);
    forall g: nat ensures g !in s.procs.alive { assert GenOk(s, g); }
    if s.txn.found.Some? {
      assert GenOk(s, s.txn.found.value);
    }
  }

  /** No signal without a receipt the manager has seen stored; one reap per
      generation, and never an unaccounted one; no crash receipt once such a receipt
      is known. */
  lemma AccountedRuns(s: State, j: nat)
    requires Reachable(s) && j < |s.log|
    ensures s.log[j].Signal? ==> Known(s.log[..j], s.log[j].g)
    ensures s.log[j].Reaped? ==> s.log[j] !in s.log[..j] && (Known(s.log[..j], s.log[j].g) || Gap(s.log[j].g) in s.log[..j])
    ensures s.log[j].Stored? && s.log[j].doc.CrashDoc? ==> !Known(s.log[..j], s.log[j].g)
  {
    ReachableSound(s);
    assert Justified(s.log[..j], s.log[j]);
  }

  /** After a stop is latched, no automatic restart spawns before a client start. */
  lemma RestartsHonourStop(s: State, i: nat, j: nat)
    requires Reachable(s) && i < j < |s.log| && (s.log[i].Latch? || s.log[i].Gap?)
    requires s.log[j].Spawn? && s.log[j].auto
    ensures exists k :: i < k < j && s.log[k].ClientStart?
  {
    ReachableSound(s);
    assert Justified(s.log[..j], s.log[j]);
    LatchLasts(s.log[..j], i);
  }

  lemma {:induction false} LatchLasts(log: seq<Event>, i: nat)
    requires i < |log| && (log[i].Latch? || log[i].Gap?) && !Latched(log)
    ensures exists k :: i < k < |log| && log[k].ClientStart?
    decreases |log|
  {
    var n := |log| - 1;
    if !log[n].ClientStart? {
      LatchLasts(log[..n], i);
      var k :| i < k < n && log[..n][k].ClientStart?;
      assert log[k].ClientStart?;
    }
  }

  /** After a successful shutdown nothing spawns, and nothing is left running. */
  lemma NothingAfterShutdown(s: State, i: nat)
    requires Reachable(s) && i < |s.log| && s.log[i].ShutdownDone?
    ensures s.procs.alive == {} && forall j :: i < j < |s.log| ==> !s.log[j].Spawn?
  {
    ReachableSound(s);
    assert ShutdownDone in s.log;
    forall g: nat ensures g !in s.procs.alive { assert GenOk(s, g); }
    forall j | i < j < |s.log| ensures !s.log[j].Spawn? {
      assert Justified(s.log[..j], s.log[j]);
      assert s.log[..j][i] == ShutdownDone;
    }
  }

  /** A published serve has its monitor exactly if its state file could be saved and
      its threads started; without one it is never reaped, and no stop of it ever
      succeeds. */
  lemma MonitoredIffStarted(s: State, g: nat)
    requires Reachable(s)
    ensures s.txn.Free? && s.child == Some(g) ==> (g in s.procs.watch <==> Unwatched(g) !in s.log)
    ensures Unwatched(g) in s.log ==> g !in s.procs.reaped && !(s.txn.Stopped? && s.txn.found == Some(g))
  {
    ReachableSound(s);
    assert LinkOk(s, g) && GenOk(s, g);
  }

  // ---- second receipts -------------------------------------------------------------------

  /** The documents of a generation that ever came into the outbox, collected ones
      included. */
  function Docs(log: seq<Event>, g: nat): (docs: set<Doc>)
    ensures forall doc :: doc in docs <==> EverStored(log, g, doc)
  {
    var docs := set e | e in log && e.Stored? && e.g == g :: e.doc;
    assert forall doc, known :: Stored(g, doc, known) in log ==> Stored(g, doc, known).doc in docs;
    docs
  }

  /** The document a step brings into the outbox. A stop is stopped by nothing once it
      has found its child; a monitor only by a receipt the manager has seen stored. */
  function Files(s: State, step: Step): Option<(nat, Doc)> {
    match step
    case Prepare(doc, io) =>
      if s.txn.Preparing? && doc.Some? && !io.FailsEarly? then Some((s.txn.g, StopDoc(doc.value))) else None
    case Account(g, io) => if g !in s.procs.durable && !io.FailsEarly? then Some((g, CrashDoc)) else None
    case _ => None
  }

  /** A step brings another document of a generation that has one already. */
  predicate Seconds(s: State, step: Step, g: nat) {
    var filed := Files(s, step);
    filed.Some? && filed.value.0 == g && filed.value.1 !in Docs(s.log, g) && Docs(s.log, g) != {}
  }

  lemma DocsSnoc(log: seq<Event>, e: Event, g: nat)
    ensures Docs(log + [e], g) == Docs(log, g) + if e.Stored? && e.g == g then {e.doc} else {}
  {
    assert forall x :: x in log + [e] <==> x in log || x == e;
  }

  lemma FiledDocs(s: State, m: nat, doc: Doc, io: Outbox.Io, g: nat)
    ensures Docs(Filed(s, m, doc, io).log, g) == Docs(s.log, g) + if m == g && !io.FailsEarly? then {doc} else {}
  {
    DocsSnoc(s.log, Stored(m, doc, true), g);
    DocsSnoc(s.log, Stored(m, doc, false), g);
    assert doc in Docs(s.log, m) <==> EverStored(s.log, m, doc);
    hide Docs, EverStored;
  }

  /** A step that files nothing writes at most one event, and no document. */
  predicate NoDoc(was: seq<Event>, now: seq<Event>) {
    now == was || (|now| == |was| + 1 && now == was + [now[|was|]] && !now[|was|].Stored?)
  }

  lemma NoDocDocs(was: seq<Event>, now: seq<Event>, g: nat)
    requires NoDoc(was, now)
    ensures Docs(now, g) == Docs(was, g)
  {
    if now != was { DocsSnoc(was, now[|was|], g); }
  }

  lemma StartNoDoc(s: State, ok: bool)
    requires InStart(s.txn)
    ensures NoDoc(s.log, StartStep(s, ok).log)
  {
  }

  lemma StopNoDoc(s: State, ok: bool)
    requires Signals(s.txn)
    ensures NoDoc(s.log, StopStep(s, s.txn.g, s.txn.after, ok).log)
  {
  }

  lemma FrameNoDoc(s: State)
    ensures NoDoc(s.log, FrameStep(s).log)
  {
  }

  lemma MonitorNoDoc(s: State, g: nat, ok: bool)
    requires g in s.procs.watch && !s.procs.watch[g].Receipting?
    ensures NoDoc(s.log, Reap(s, g, ok).log)
  {
  }

  lemma Same(log: seq<Event>)
    ensures NoDoc(log, log)
  {
  }

  function Brought(s: State, step: Step, g: nat): set<Doc> {
    var filed := Files(s, step);
    if filed.Some? && filed.value.0 == g then {filed.value.1} else {}
  }

  /** What a step brings into the outbox. */
  lemma DocsStep(s: State, step: Step, g: nat)
    requires Enabled(s, step) && (step.Account? ==> s.procs.watch[step.g].current)
    ensures Docs(Apply(s, step).log, g) == Docs(s.log, g) + Brought(s, step, g)
  {
    hide StartStep, StopStep, FrameStep, Reap, Docs, NoDoc, Returns;
    match step
    case Proceed(ok) =>
      if InStart(s.txn) { StartNoDoc(s, ok); } else if Signals(s.txn) { StopNoDoc(s, ok); } else { FrameNoDoc(s); }
      NoDocDocs(s.log, Apply(s, step).log, g);
    case Monitor(m, ok) =>
      MonitorNoDoc(s, m, ok);
      NoDocDocs(s.log, Apply(s, step).log, g);
    case Prepare(doc, io) => PrepareDocs(s, doc, io, g);
    case Account(m, io) => AccountDocs(s, m, io, g);
    case _ => Same(s.log); NoDocDocs(s.log, Apply(s, step).log, g);
  }

  lemma PrepareDocs(s: State, doc: Option<nat>, io: Outbox.Io, g: nat)
    requires s.txn.Preparing?
    ensures Docs(PrepareStep(s, doc, io).log, g) == Docs(s.log, g) + Brought(s, Prepare(doc, io), g)
  {
    hide Docs, Returns, Filed;
    if doc.Some? {
      FiledDocs(s, s.txn.g, StopDoc(doc.value), io, g);
    }
  }

  lemma AccountDocs(s: State, m: nat, io: Outbox.Io, g: nat)
    requires Enabled(s, Account(m, io)) && s.procs.watch[m].current
    ensures Docs(AccountStep(s, m, io).log, g) == Docs(s.log, g) + Brought(s, Account(m, io), g)
  {
    hide Docs, Returns, Filed;
    if m !in s.procs.durable {
      FiledDocs(s, m, CrashDoc, io, g);
    }
  }

  lemma ReceiptingIsCurrent(s: State, step: Step)
    requires Reachable(s) && Enabled(s, step)
    ensures step.Account? ==> s.procs.watch[step.g].current
  {
    if step.Account? {
      ReachableSound(s);
      assert GenOk(s, step.g);
    }
  }

  lemma OneMore(docs: set<Doc>, doc: Doc)
    ensures |docs + {doc}| == |docs| + if doc in docs then 0 else 1
  {
    assert doc in docs ==> docs + {doc} == docs;
  }

  /** A generation that has a document gets another one exactly by a stop's receipt of
      another id, or by a crash receipt although one is stored: one that the manager
      never saw stored, carried over from before a re-adoption or stored by a call
      that then failed. */
  lemma SecondReceiptExactly(s: State, step: Step, g: nat)
    requires Reachable(s) && Enabled(s, step)
    ensures Docs(s.log, g) <= Docs(Apply(s, step).log, g)
    ensures 0 < |Docs(s.log, g)| < |Docs(Apply(s, step).log, g)| <==> Seconds(s, step, g)
    ensures |Docs(Apply(s, step).log, g)| <= |Docs(s.log, g)| + 1
    ensures Seconds(s, step, g) && step.Account? ==> !Known(s.log, g)
  {
    hide Apply, Enabled, Docs, Reachable;
    ReceiptingIsCurrent(s, step);
    DocsStep(s, step, g);
    var filed := Files(s, step);
    if filed.Some? && filed.value.0 == g { OneMore(Docs(s.log, g), filed.value.1); }
    DurableIsKnown(s, g);
  }

  lemma DurableIsKnown(s: State, g: nat)
    requires Reachable(s)
    ensures g in s.procs.durable <==> Known(s.log, g)
  {
    ReachableSound(s);
    assert LinkOk(s, g);
  }

  lemma {:induction false} DocsStay(s: State, steps: seq<Step>, g: nat)
    requires Reachable(s) && Run(s, steps).Some?
    ensures Docs(s.log, g) <= Docs(Run(s, steps).value.log, g)
    decreases |steps|
  {
    hide Apply, Enabled, Reachable, Docs;
    if steps != [] {
      SecondReceiptExactly(s, steps[0], g);
      ReachStep(s, steps[0]);
      DocsStay(Apply(s, steps[0]), steps[1..], g);
    }
  }

  /** Step k of a run gives g its second receipt. */
  ghost predicate SecondAt(s: State, steps: seq<Step>, k: nat, g: nat) {
    k < |steps| && var before := Run(s, steps[..k]); before.Some? && Seconds(before.value, steps[k], g)
  }

  lemma SecondLater(s: State, steps: seq<Step>, k: nat, g: nat)
    requires steps != [] && Enabled(s, steps[0])
    ensures SecondAt(s, steps, k + 1, g) <==> SecondAt(Apply(s, steps[0]), steps[1..], k, g)
  {
    hide Apply, Enabled, Seconds;
    if k + 1 < |steps| {
      assert steps[..k + 1][1..] == steps[1..][..k];
    }
  }

  /** Over a whole run, a generation ends with more than one document exactly if some
      step of the run was such a one; a reaped one whose crash receipt was not lost
      otherwise ends with exactly one. */
  lemma TwoReceiptsExactly(s: State, steps: seq<Step>, g: nat)
    requires Reachable(s) && Run(s, steps).Some? && |Docs(s.log, g)| <= 1
    ensures var t := Run(s, steps).value;
      && (|Docs(t.log, g)| > 1 <==> exists k :: SecondAt(s, steps, k, g))
      && (g in t.procs.reaped && Gap(g) !in t.log ==> (|Docs(t.log, g)| == 1 <==> !exists k :: SecondAt(s, steps, k, g)))
  {
    hide Apply, Enabled, Seconds, Docs;
    SecondsSomewhere(s, steps, g);
    RunReaches(s, steps);
    var t := Run(s, steps).value;
    ReapedHasReceipt(t, g);
  }

  lemma ReapedHasReceipt(s: State, g: nat)
    requires Reachable(s)
    ensures g in s.procs.reaped && Gap(g) !in s.log ==> |Docs(s.log, g)| > 0
  {
    ReachableSound(s);
    assert LinkOk(s, g) && GenOk(s, g);
    if Known(s.log, g) {
      var doc :| Stored(g, doc, true) in s.log;
      assert doc in Docs(s.log, g);
    }
  }

  lemma {:induction false} RunReaches(s: State, steps: seq<Step>)
    requires Reachable(s) && Run(s, steps).Some?
    ensures Reachable(Run(s, steps).value)
    decreases |steps|
  {
    hide Apply, Enabled, Reachable;
    if steps != [] {
      ReachStep(s, steps[0]);
      RunReaches(Apply(s, steps[0]), steps[1..]);
    }
  }

  lemma Wider(a: set<Doc>, b: set<Doc>)
    requires a <= b
    ensures |a| <= |b|
  {
    assert a + (b - a) == b;
  }

  lemma {:induction false} SecondsSomewhere(s: State, steps: seq<Step>, g: nat)
    requires Reachable(s) && Run(s, steps).Some? && |Docs(s.log, g)| <= 1
    ensures |Docs(Run(s, steps).value.log, g)| > 1 <==> exists k :: SecondAt(s, steps, k, g)
    decreases |steps|
  {
    hide Apply, Enabled, Seconds, Reachable, Docs;
    if steps == [] {
    } else {
      var t := Apply(s, steps[0]);
      SecondReceiptExactly(s, steps[0], g);
      ReachStep(s, steps[0]);
      assert steps[..0] == [];
      assert SecondAt(s, steps, 0, g) <==> |Docs(t.log, g)| > 1;
      if |Docs(t.log, g)| > 1 {
        DocsStay(t, steps[1..], g);
        Wider(Docs(t.log, g), Docs(Run(t, steps[1..]).value.log, g));
      } else {
        SecondsSomewhere(t, steps[1..], g);
        forall k: nat ensures SecondAt(s, steps, k + 1, g) <==> SecondAt(t, steps[1..], k, g) {
          SecondLater(s, steps, k, g);
        }
        Shifted(s, t, steps, g);
      }
    }
  }

  lemma Shifted(s: State, t: State, steps: seq<Step>, g: nat)
    requires steps != [] && !SecondAt(s, steps, 0, g)
    requires forall k: nat :: SecondAt(s, steps, k + 1, g) <==> SecondAt(t, steps[1..], k, g)
    ensures (exists k :: SecondAt(s, steps, k, g)) <==> exists k :: SecondAt(t, steps[1..], k, g)
  {
    hide SecondAt;
    if k: nat :| SecondAt(s, steps, k, g) {
      assert k > 0 && SecondAt(s, steps, (k - 1) + 1, g);
      assert SecondAt(t, steps[1..], k - 1, g);
    }
    if k: nat :| SecondAt(t, steps[1..], k, g) {
      assert SecondAt(s, steps, k + 1, g);
    }
  }

  // ---- the state file -------------------------------------------------------------------

  /** A monitor has dropped its child and not yet erased the state file. */
  predicate Erasing(s: State, step: Step) {
    step.Monitor? && step.g in s.procs.watch && s.procs.watch[step.g].Unstoring?
  }

  /** A running serve's record is lost exactly when a predecessor's monitor erases
      the state file late. */
  lemma RecordLostExactly(s: State, step: Step, g: nat)
    requires Reachable(s) && Enabled(s, step)
    requires s.child == s.store == Some(g) && Apply(s, step).child == Some(g)
    ensures Apply(s, step).store == Some(g) <==> !Erasing(s, step)
  {
    ReachableSound(s);
    if step.Monitor? { assert GenOk(s, step.g); }
    if step.Proceed? { assert GenOk(s, g); }
  }

  ghost predicate NoneErasing(s: State) {
    forall h :: h in s.procs.watch ==> !s.procs.watch[h].Unstoring?
  }

  /** With no late eraser around when the record stands, it stands as long as the
      serve does. */
  lemma {:induction false} RecordKept(s: State, steps: seq<Step>, g: nat)
    requires Sound(s) && g < s.procs.spawned && s.txn != Spawned(g)
    requires s.child == Some(g) ==> s.store == Some(g) && NoneErasing(s)
    ensures var r := Run(s, steps); r.Some? && r.value.child == Some(g) ==> r.value.store == Some(g)
    decreases |steps|
  {
    if steps != [] && Enabled(s, steps[0]) {
      StepKeepsSound(s, steps[0]);
      RecordStep(s, steps[0], g);
      hide Sound, Apply, Enabled, NoneErasing;
      RecordKept(Apply(s, steps[0]), steps[1..], g);
    }
  }

  lemma RecordStep(s: State, step: Step, g: nat)
    requires Inv(s) && Enabled(s, step) && g < s.procs.spawned && s.txn != Spawned(g)
    requires s.child == Some(g) ==> s.store == Some(g) && NoneErasing(s)
    ensures var t := Apply(s, step);
      && g < t.procs.spawned && t.txn != Spawned(g)
      && (t.child == Some(g) ==> t.store == Some(g) && NoneErasing(t))
  {
    assert GenOk(s, g);
    if step.Monitor? { assert GenOk(s, step.g); }
  }

  // ---- runs that show the limits ----------------------------------------------------------

  lemma {:induction false} RunSnoc(s: State, steps: seq<Step>, step: Step)
    requires Run(s, steps).Some? && Enabled(Run(s, steps).value, step)
    ensures Run(s, steps + [step]) == Some(Apply(Run(s, steps).value, step))
    decreases |steps|
  {
    hide Apply, Enabled;
    if steps == [] {
      assert Run(Apply(s, step), [step][1..]) == Some(Apply(s, step));
      assert [] + [step] == [step];
    } else {
      RunSnoc(Apply(s, steps[0]), steps[1..], step);
      assert (steps + [step])[1..] == steps[1..] + [step];
    }
  }

  lemma ReachStep(s: State, step: Step)
    requires Reachable(s) && Enabled(s, step)
    ensures Reachable(Apply(s, step))
  {
    hide Apply, Enabled;
    var carried: Option<seq<Doc>>, steps: seq<Step> :| Run(Boot(carried), steps) == Some(s);
    RunSnoc(Boot(carried), steps, step);
  }

  lemma BootReachable(carried: Option<seq<Doc>>)
    ensures Reachable(Boot(carried))
  {
    assert Run(Boot(carried), []) == Some(Boot(carried));
  }

  /** A start from an unlocked, childless state, every foreign call succeeding. */
  lemma StartsUp(s: State) returns (t: State)
    requires Reachable(s) && s.txn.Free? && s.child.None? && !s.flags.shutdownRequested && !s.flags.starting
    ensures Reachable(t)
    ensures var g := s.procs.spawned;
      && t.txn.Free? && t.child == t.store == Some(g) && t.flags == Flags(false, false, false, false)
      && t.procs == Procs(g + 1, s.procs.alive + {g}, s.procs.watch[g := Waiting], s.procs.reaped, s.procs.durable)
      && t.log == s.log + [ClientStart] + [Spawn(g, false)]
  {
    hide Reachable;
    ReachStep(s, Begin(Start));
    var s1 := Apply(s, Begin(Start));
    ReachStep(s1, Proceed(true));
    var s2 := Apply(s1, Proceed(true));
    assert s2.txn == Spawning(false);
    ReachStep(s2, Proceed(true));
    var s3 := Apply(s2, Proceed(true));
    ReachStep(s3, Proceed(true));
    var s4 := Apply(s3, Proceed(true));
    ReachStep(s4, Proceed(true));
    var s5 := Apply(s4, Proceed(true));
    ReachStep(s5, Proceed(true));
    t := Apply(s5, Proceed(true));
  }

  /** A serve dies and its monitor comes as far as the crash receipt. */
  lemma Dies(s: State, g: nat) returns (t: State)
    requires Reachable(s) && g in s.procs.alive && g in s.procs.watch && s.procs.watch[g].Waiting? && s.child == Some(g)
    ensures Reachable(t) && t == Watched(s.(procs := s.procs.(alive := s.procs.alive - {g})), g,
      Receipting(s.flags.stopping || s.flags.stopRequested, true))
  {
    hide Reachable;
    ReachStep(s, Die(g));
    var s1 := Apply(s, Die(g));
    ReachStep(s1, Monitor(g, true));
    t := Apply(s1, Monitor(g, true));
  }

  /** A stop finds the re-adopted serve. */
  lemma StopsAdopted(s: State) returns (t: State)
    requires Reachable(s) && s.txn.Free? && s.child == Some(0) && !s.flags.starting
    ensures Reachable(t)
    ensures t == s.(txn := Preparing(0, JustStop), log := s.log + [Latch], flags := s.flags.(stopRequested := true, stopping := true))
  {
    hide Reachable;
    ReachStep(s, Begin(Stop));
    var s1 := Apply(s, Begin(Stop));
    ReachStep(s1, Proceed(true));
    t := Apply(s1, Proceed(true));
  }

  /** An empty state file does not mean that no serve runs: a crashed serve's
      monitor can erase its successor's record. */
  lemma RecordErasedUnderLiveServe() returns (s: State)
    ensures Reachable(s) && s.txn.Free? && s.child == Some(1) && 1 in s.procs.alive && s.store.None?
  {
    BootReachable(None);
    var s0 := StartsUp(Boot(None));
    hide Reachable;
    var s2 := Dies(s0, 0);
    ReachStep(s2, Account(0, Outbox.Works));
    var s3 := Apply(s2, Account(0, Outbox.Works));
    ReachStep(s3, Monitor(0, true));
    var s4 := Apply(s3, Monitor(0, true));
    assert s4.procs.watch[0] == Unstoring(false, true);
    var s5 := StartsUp(s4);
    ReachStep(s5, Monitor(0, true));
    s := Apply(s5, Monitor(0, true));
  }

  /** A serve whose state file cannot be written runs, published and unwatched. */
  lemma UnwatchedServe() returns (s: State)
    ensures Reachable(s) && s.txn.Free? && s.child == Some(0) && 0 in s.procs.alive && 0 !in s.procs.watch && Unwatched(0) in s.log
  {
    BootReachable(None);
    hide Reachable;
    var s0 := Boot(None);
    ReachStep(s0, Begin(Start));
    var s1 := Apply(s0, Begin(Start));
    ReachStep(s1, Proceed(true));
    var s2 := Apply(s1, Proceed(true));
    ReachStep(s2, Proceed(true));
    var s3 := Apply(s2, Proceed(true));
    ReachStep(s3, Proceed(true));
    var s4 := Apply(s3, Proceed(true));
    assert s4.txn == Saving(0);
    ReachStep(s4, Proceed(false));
    s := Apply(s4, Proceed(false));
    assert s.log == s4.log + [Unwatched(0)];
  }

  /** A stop can add a second receipt to a crashed generation's own. */
  lemma TwoReceipts() returns (s: State)
    ensures Reachable(s) && s.log == [Latch, Stored(0, CrashDoc, true), Stored(0, StopDoc(0), true)]
  {
    BootReachable(Some([]));
    hide Reachable;
    var s2 := StopsAdopted(Boot(Some([])));
    var s4 := Dies(s2, 0);
    ReachStep(s4, Account(0, Outbox.Works));
    var s5 := Apply(s4, Account(0, Outbox.Works));
    ReachStep(s5, Prepare(Some(0), Outbox.Works));
    s := Apply(s5, Prepare(Some(0), Outbox.Works));
  }

  /** A prior daemon stored the stop's receipt and died before it signalled: the crash
      of the re-adopted serve is accounted for a second time. */
  lemma CarriedReceipt() returns (s: State)
    ensures Reachable(s) && s.log == [Stored(0, StopDoc(0), false), Stored(0, CrashDoc, true)]
  {
    var docs := [StopDoc(0)];
    BootReachable(Some(docs));
    hide Reachable;
    var s0 := Boot(Some(docs));
    assert s0.log == [Stored(0, StopDoc(0), false)];
    var s2 := Dies(s0, 0);
    ReachStep(s2, Account(0, Outbox.Works));
    s := Apply(s2, Account(0, Outbox.Works));
  }

  /** A stop's receipt that fails late is stored, and the crash's behind it. */
  lemma LateReceipt() returns (s: State)
    ensures Reachable(s) && s.log == [Latch, Stored(0, StopDoc(0), false), Stored(0, CrashDoc, true)]
  {
    BootReachable(Some([]));
    hide Reachable;
    var s2 := StopsAdopted(Boot(Some([])));
    ReachStep(s2, Prepare(Some(0), Outbox.FailsLate));
    var s3 := Apply(s2, Prepare(Some(0), Outbox.FailsLate));
    assert s3.txn == Failing(0, JustStop);
    ReachStep(s3, Proceed(true));
    var s4 := Apply(s3, Proceed(true));
    var s6 := Dies(s4, 0);
    ReachStep(s6, Account(0, Outbox.Works));
    s := Apply(s6, Account(0, Outbox.Works));
  }

  /** A crash receipt that fails late is stored and counts as lost; a stop that was
      still preparing stores its own. */
  lemma LateCrashReceipt() returns (s: State)
    ensures Reachable(s) && s.log == [Latch, Stored(0, CrashDoc, false), Gap(0), Stored(0, StopDoc(0), true)]
  {
    BootReachable(Some([]));
    hide Reachable;
    var s2 := StopsAdopted(Boot(Some([])));
    var s4 := Dies(s2, 0);
    ReachStep(s4, Account(0, Outbox.FailsLate));
    var s5 := Apply(s4, Account(0, Outbox.FailsLate));
    ReachStep(s5, Monitor(0, true));
    var s6 := Apply(s5, Monitor(0, true));
    ReachStep(s6, Prepare(Some(0), Outbox.Works));
    s := Apply(s6, Prepare(Some(0), Outbox.Works));
  }

  /** A stop that is retried with other totals stores a second snapshot. */
  lemma RetriedStop() returns (s: State)
    ensures Reachable(s) && s.log == [Latch, Stored(0, StopDoc(0), true), Latch, Stored(0, StopDoc(1), true)]
  {
    BootReachable(Some([]));
    hide Reachable;
    var s2 := StopsAdopted(Boot(Some([])));
    ReachStep(s2, Prepare(Some(0), Outbox.Works));
    var s3 := Apply(s2, Prepare(Some(0), Outbox.Works));
    ReachStep(s3, Proceed(false));
    var s4 := Apply(s3, Proceed(false));
    assert s4.txn == Failing(0, JustStop);
    ReachStep(s4, Proceed(true));
    var s5 := Apply(s4, Proceed(true));
    var s6 := StopsAdopted(s5);
    ReachStep(s6, Prepare(Some(1), Outbox.Works));
    s := Apply(s6, Prepare(Some(1), Outbox.Works));
  }
}
