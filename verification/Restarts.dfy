/** Which crashes lead to an automatic restart: exactly those whose monitor found no
    stop under way when the serve died, and none latched when it was done with it. */
module Restarts {
  import opened Collections
  import opened Lifecycle
  import Outbox

  // ---- what a monitor read ----------------------------------------------------------

  /** A stop is being carried out, or was asked for. */
  predicate StopWanted(s: State) {
    s.flags.stopping || s.flags.stopRequested
  }

  /** This step ends the wait for a serve, and finds that a stop was wanted or not. */
  predicate Reads(s: State, step: Step, g: nat, was: bool) {
    && step.Monitor? && step.g == g && g in s.procs.watch && s.procs.watch[g].Waiting?
    && StopWanted(s) == was
  }

  /** In this run the monitor of g read this at the j-th step. */
  ghost predicate ReadAt(s: State, steps: seq<Step>, g: nat, was: bool, j: nat) {
    j < |steps| && var t := Run(s, steps[..j]); t.Some? && Reads(t.value, steps[j], g, was)
  }

  ghost predicate Read(s: State, steps: seq<Step>, g: nat, was: bool) {
    exists j: nat :: ReadAt(s, steps, g, was, j)
  }

  predicate HasRead(w: Watch) {
    !w.Waiting? && !w.Done?
  }

  lemma RunOfSnoc(s: State, steps: seq<Step>, step: Step)
    requires Run(s, steps + [step]).Some?
    ensures Run(s, steps).Some? && Enabled(Run(s, steps).value, step)
    ensures Run(s, steps + [step]) == Some(Apply(Run(s, steps).value, step))
    decreases |steps|
  {
    hide Apply, Enabled;
    var more := steps + [step];
    if steps == [] {
      assert more == [step] && more[1..] == [];
      assert Enabled(s, more[0]);
    } else {
      assert more[0] == steps[0] && more[1..] == steps[1..] + [step];
      assert Enabled(s, more[0]);
      RunOfSnoc(Apply(s, steps[0]), steps[1..], step);
    }
  }

  lemma ReadSnoc(s: State, steps: seq<Step>, step: Step, g: nat, was: bool)
    requires Run(s, steps).Some?
    ensures Read(s, steps + [step], g, was) <==> Read(s, steps, g, was) || Reads(Run(s, steps).value, step, g, was)
  {
    hide Run, Reads;
    var more := steps + [step];
    assert more[..|steps|] == steps;
    forall j: nat | j < |steps| ensures ReadAt(s, more, g, was, j) <==> ReadAt(s, steps, g, was, j) {
      assert more[..j] == steps[..j] && more[j] == steps[j];
    }
    if Reads(Run(s, steps).value, step, g, was) { assert ReadAt(s, more, g, was, |steps|); }
    if Read(s, steps, g, was) {
      var j: nat :| ReadAt(s, steps, g, was, j);
      assert ReadAt(s, more, g, was, j);
    }
    if Read(s, more, g, was) {
      var j: nat :| ReadAt(s, more, g, was, j);
      assert j < |steps| ==> ReadAt(s, steps, g, was, j);
    }
  }

  /** What a monitor holds of its reading is what it read. */
  ghost predicate Remembers(s: State, steps: seq<Step>, t: State, g: nat, was: bool) {
    && (Read(s, steps, g, was) ==> g in t.procs.watch && !t.procs.watch[g].Waiting?)
    && (g in t.procs.watch && HasRead(t.procs.watch[g]) ==> (Read(s, steps, g, was) <==> t.procs.watch[g].wasStopping == was))
  }

  /** What one step may do to the monitor of g. */
  ghost predicate MonitorMoves(s: State, step: Step, t: State, g: nat) {
    && (g in s.procs.watch ==> g in t.procs.watch)
    && (g in s.procs.watch && !s.procs.watch[g].Waiting? ==>
         !t.procs.watch[g].Waiting? && (HasRead(t.procs.watch[g]) ==>
           HasRead(s.procs.watch[g]) && t.procs.watch[g].wasStopping == s.procs.watch[g].wasStopping))
    && (g in s.procs.watch && s.procs.watch[g].Waiting? ==>
         if Reads(s, step, g, StopWanted(s)) then t.procs.watch[g] == Receipting(StopWanted(s), s.child == Some(g))
         else t.procs.watch[g] == s.procs.watch[g])
    && (g !in s.procs.watch && g in t.procs.watch ==> t.procs.watch[g].Waiting?)
  }

  lemma StartMoves(s: State, ok: bool, g: nat)
    requires InStart(s.txn) && StartOk(s)
    ensures MonitorMoves(s, Proceed(ok), StartStep(s, ok), g)
  {
  }

  lemma AdvanceKeepsWatch(s: State, ok: bool)
    requires !InStart(s.txn)
    ensures Advance(s, ok).procs.watch == s.procs.watch
  {
  }

  lemma AccountMoves(s: State, m: nat, io: Outbox.Io, g: nat)
    requires Enabled(s, Account(m, io))
    ensures MonitorMoves(s, Account(m, io), AccountStep(s, m, io), g)
  {
    hide Returns, OnDisk;
  }

  lemma PrepareKeepsWatch(s: State, doc: Option<nat>, io: Outbox.Io)
    requires s.txn.Preparing?
    ensures PrepareStep(s, doc, io).procs.watch == s.procs.watch
  {
    hide Returns;
  }

  lemma ReapMoves(s: State, m: nat, ok: bool, g: nat)
    requires Enabled(s, Monitor(m, ok))
    ensures MonitorMoves(s, Monitor(m, ok), Reap(s, m, ok), g)
  {
  }

  lemma WatchStep(s: State, step: Step, g: nat)
    requires StartOk(s) && Enabled(s, step)
    ensures MonitorMoves(s, step, Apply(s, step), g)
  {
    hide StartOk, Advance, Reap, PrepareStep, AccountStep;
    match step
    case Proceed(ok) =>
      if InStart(s.txn) {
        StartMoves(s, ok, g);
        StartAdvances(s, ok);
      } else {
        AdvanceKeepsWatch(s, ok);
      }
    case Prepare(doc, io) => PrepareKeepsWatch(s, doc, io);
    case Account(m, io) => AccountMoves(s, m, io, g);
    case Monitor(m, ok) => ReapMoves(s, m, ok, g);
    case _ =>
  }

  lemma SoundStarts(s: State)
    requires Sound(s)
    ensures StartOk(s)
  {
  }

  lemma StartAdvances(s: State, ok: bool)
    requires InStart(s.txn)
    ensures Advance(s, ok) == StartStep(s, ok)
  {
  }

  lemma {:induction false} ReadingRemembered(carried: Option<seq<Doc>>, steps: seq<Step>, g: nat, was: bool)
    requires Run(Boot(carried), steps).Some?
    ensures Sound(Run(Boot(carried), steps).value) && Remembers(Boot(carried), steps, Run(Boot(carried), steps).value, g, was)
    decreases |steps|
  {
    var s := Boot(carried);
    BootSound(carried);
    RunKeepsSound(s, steps);
    if steps != [] {
      var init, step := steps[..|steps| - 1], steps[|steps| - 1];
      assert steps == init + [step];
      RunOfSnoc(s, init, step);
      ReadingRemembered(carried, init, g, was);
      var t := Run(s, init).value;
      SoundStarts(t);
      WatchStep(t, step, g);
      ReadSnoc(s, init, step, g, was);
      hide Run, Apply, Enabled, Sound, Read;
    } else {
      hide Sound;
    }
  }

  // ---- what launches a restart --------------------------------------------------------

  /** The step of a monitor that starts a restart's thread. */
  predicate Launches(s: State, step: Step) {
    && step.Monitor? && step.ok && step.g in s.procs.watch && s.procs.watch[step.g].Deciding?
    && s.procs.watch[step.g].current && !s.procs.watch[step.g].wasStopping && !s.flags.stopRequested
  }

  /** The restarts on their way are those launched and not yet begun. */
  lemma RestartsStep(s: State, step: Step)
    requires Enabled(s, step)
    ensures Apply(s, step).restarts == s.restarts + (if Launches(s, step) then 1 else 0) - (if step.BeginRestart? then 1 else 0)
  {
    hide OnDisk, Returns;
  }

  /** The daemon restarts a crashed serve exactly if restarting is on, no stop was
      wanted when its monitor found it dead, and none is latched now. */
  lemma LaunchedExactly(carried: Option<seq<Doc>>, steps: seq<Step>, g: nat, ok: bool)
    requires Run(Boot(carried), steps).Some?
    requires var t := Run(Boot(carried), steps).value; g in t.procs.watch && t.procs.watch[g].Deciding?
    ensures var t := Run(Boot(carried), steps).value;
      && Enabled(t, Monitor(g, ok))
      && (Apply(t, Monitor(g, ok)).restarts == t.restarts + 1 <==> ok && Read(Boot(carried), steps, g, false) && !Latched(t.log))
      && (Apply(t, Monitor(g, ok)).restarts == t.restarts <==> !ok || Read(Boot(carried), steps, g, true) || Latched(t.log))
  {
    ReadingRemembered(carried, steps, g, false);
    ReadingRemembered(carried, steps, g, true);
    var t := Run(Boot(carried), steps).value;
    hide Run, Read, Latched;
    assert GenOk(t, g);
    RestartsStep(t, Monitor(g, ok));
  }

  /** Nothing else launches one. */
  lemma OnlyDecidingLaunches(s: State, step: Step)
    requires Enabled(s, step) && Apply(s, step).restarts > s.restarts
    ensures step.Monitor? && step.g in s.procs.watch && s.procs.watch[step.g].Deciding? && Apply(s, step).procs.watch[step.g].Done?
  {
    RestartsStep(s, step);
  }

  // ---- every automatic spawn has its crash ---------------------------------------------

  function AutoSpawns(log: seq<Event>): nat {
    if log == [] then 0
    else AutoSpawns(log[..|log| - 1]) + var e := log[|log| - 1]; if e.Spawn? && e.auto then 1 else 0
  }

  lemma AutoSpawnsSnoc(log: seq<Event>, e: Event)
    ensures AutoSpawns(log + [e]) == AutoSpawns(log) + if e.Spawn? && e.auto then 1 else 0
  {
    assert (log + [e])[..|log|] == log;
  }

  /** An automatic start that has not spawned yet. */
  function Entered(t: Txn): nat {
    if t == StartEnter(true) || t == Spawning(true) then 1 else 0
  }

  function Launched(s: State, steps: seq<Step>): nat
    decreases |steps|
  {
    if steps == [] || !Enabled(s, steps[0]) then 0
    else (if Launches(s, steps[0]) then 1 else 0) + Launched(Apply(s, steps[0]), steps[1..])
  }

  function Owed(s: State): int {
    AutoSpawns(s.log) + Entered(s.txn) + s.restarts
  }

  /** The log is as it was, or has one more event, which is no spawn. */
  predicate Unspawned(was: seq<Event>, now: seq<Event>) {
    now == was || (|now| == |was| + 1 && now[..|was|] == was && !now[|was|].Spawn?)
  }

  lemma UnspawnedSame(was: seq<Event>, now: seq<Event>)
    requires Unspawned(was, now)
    ensures AutoSpawns(now) == AutoSpawns(was)
  {
    if now != was {
      assert now == was + [now[|was|]];
      AutoSpawnsSnoc(was, now[|was|]);
    }
  }

  lemma StartOwed(s: State, ok: bool)
    requires InStart(s.txn)
    ensures Owed(StartStep(s, ok)) <= Owed(s)
  {
    hide AutoSpawns;
    var t := StartStep(s, ok);
    if s.txn.Spawning? && ok {
      AutoSpawnsSnoc(s.log, Spawn(s.procs.spawned, s.txn.auto));
    } else {
      UnspawnedSame(s.log, t.log);
    }
  }

  lemma AdvanceOwed(s: State, ok: bool)
    requires Enabled(s, Proceed(ok)) && !InStart(s.txn)
    ensures Owed(Advance(s, ok)) <= Owed(s)
  {
    hide AutoSpawns;
    UnspawnedSame(s.log, Advance(s, ok).log);
  }

  lemma PrepareOwed(s: State, doc: Option<nat>, io: Outbox.Io)
    requires s.txn.Preparing?
    ensures Owed(PrepareStep(s, doc, io)) <= Owed(s)
  {
    hide AutoSpawns, Returns;
    UnspawnedSame(s.log, PrepareStep(s, doc, io).log);
  }

  lemma AccountOwed(s: State, m: nat, io: Outbox.Io)
    requires Enabled(s, Account(m, io))
    ensures Owed(AccountStep(s, m, io)) <= Owed(s)
  {
    hide AutoSpawns, Returns, OnDisk;
    UnspawnedSame(s.log, AccountStep(s, m, io).log);
  }

  lemma ReapOwed(s: State, m: nat, ok: bool)
    requires Enabled(s, Monitor(m, ok))
    ensures Owed(Reap(s, m, ok)) <= Owed(s) + if Launches(s, Monitor(m, ok)) then 1 else 0
  {
    hide AutoSpawns;
    UnspawnedSame(s.log, Reap(s, m, ok).log);
  }

  lemma OwedStep(s: State, step: Step)
    requires Enabled(s, step)
    ensures Owed(Apply(s, step)) <= Owed(s) + if Launches(s, step) then 1 else 0
  {
    hide AutoSpawns, Advance, Reap, PrepareStep, AccountStep;
    match step
    case Proceed(ok) =>
      if InStart(s.txn) {
        StartOwed(s, ok);
        StartAdvances(s, ok);
      } else {
        AdvanceOwed(s, ok);
      }
    case Prepare(doc, io) => PrepareOwed(s, doc, io);
    case Account(m, io) => AccountOwed(s, m, io);
    case Monitor(m, ok) => ReapOwed(s, m, ok);
    case _ =>
  }

  /** No run spawns a serve by itself more often than it launched a restart. */
  lemma {:induction false} SpawnsAreLaunched(s: State, steps: seq<Step>)
    requires Run(s, steps).Some?
    ensures Owed(Run(s, steps).value) <= Owed(s) + Launched(s, steps)
    decreases |steps|
  {
    hide Apply, Enabled, Owed, Launches;
    if steps != [] {
      OwedStep(s, steps[0]);
      SpawnsAreLaunched(Apply(s, steps[0]), steps[1..]);
    }
  }

  // ---- a crash comes back --------------------------------------------------------------

  /** The monitor's way from a dead serve past its receipt, and on to a restart. */
  function ReceiptRun(g: nat): seq<Step> {
    [Monitor(g, true), Account(g, Outbox.Works), Monitor(g, true)]
  }

  function LaunchRun(g: nat): seq<Step> {
    [Monitor(g, true), Monitor(g, true), Monitor(g, true)]
  }

  const SpawnRun: seq<Step> := [BeginRestart, Proceed(true), Proceed(true)]

  lemma RunThree(s: State, a: Step, b: Step, c: Step)
    requires Enabled(s, a) && Enabled(Apply(s, a), b) && Enabled(Apply(Apply(s, a), b), c)
    ensures Run(s, [a, b, c]) == Some(Apply(Apply(Apply(s, a), b), c))
  {
    hide Apply, Enabled;
    assert [a, b, c][1..] == [b, c] && [b, c][1..] == [c] && [c][1..] == [];
    var t := Apply(Apply(Apply(s, a), b), c);
    assert Run(t, []) == Some(t);
    assert Run(Apply(Apply(s, a), b), [c]) == Some(t);
    assert Run(Apply(s, a), [b, c]) == Some(t);
  }

  lemma {:induction false} RunOn(s: State, a: seq<Step>, b: seq<Step>)
    requires Run(s, a).Some?
    ensures Run(s, a + b) == Run(Run(s, a).value, b)
    decreases |a|
  {
    hide Apply, Enabled;
    if a == [] {
      assert a + b == b;
    } else {
      RunOn(Apply(s, a[0]), a[1..], b);
      assert (a + b)[1..] == a[1..] + b;
    }
  }

  lemma Accounts(s: State, g: nat) returns (t: State)
    requires g in s.procs.watch && s.procs.watch[g] == Receipting(false, true)
    ensures t == Apply(s, Account(g, Outbox.Works)) && g in t.procs.watch && t.procs.watch[g] == Clearing(false)
    ensures t.child == s.child && t.flags == s.flags && t.txn == s.txn && t.restarts == s.restarts
  {
    hide OnDisk;
    t := Apply(s, Account(g, Outbox.Works));
  }

  lemma CrashIsReceipted(s: State, g: nat) returns (t: State)
    requires Reachable(s) && s.child == Some(g) && g in s.procs.watch && s.procs.watch[g].Waiting? && g !in s.procs.alive
    requires !StopWanted(s)
    ensures Run(s, ReceiptRun(g)) == Some(t) && t.restarts == s.restarts && t.child.None? && t.flags == s.flags && t.txn == s.txn
    ensures g in t.procs.watch && t.procs.watch[g] == Unstoring(false, true)
  {
    hide OnDisk, Reachable, Run;
    var s1 := Apply(s, Monitor(g, true));
    assert s1.procs.watch[g] == Receipting(false, true) && s1.child == Some(g) && s1.flags == s.flags && s1.txn == s.txn;
    var s2 := Accounts(s1, g);
    t := Apply(s2, Monitor(g, true));
    RunThree(s, Monitor(g, true), Account(g, Outbox.Works), Monitor(g, true));
  }

  /** With no stop wanted, a serve that died is reaped and its restart launched. */
  lemma CrashIsLaunched(s: State, g: nat) returns (t: State)
    requires Reachable(s) && s.child == Some(g) && g in s.procs.watch && s.procs.watch[g].Waiting? && g !in s.procs.alive
    requires !StopWanted(s)
    ensures Run(s, ReceiptRun(g) + LaunchRun(g)) == Some(t) && t.restarts == s.restarts + 1
    ensures g in t.procs.reaped && t.child.None? && t.flags == s.flags && t.txn == s.txn
  {
    hide Reachable, Run;
    var s3 := CrashIsReceipted(s, g);
    RunOn(s, ReceiptRun(g), LaunchRun(g));
    var s4 := Apply(s3, Monitor(g, true));
    var s5 := Apply(s4, Monitor(g, true));
    t := Apply(s5, Monitor(g, true));
    RunThree(s3, Monitor(g, true), Monitor(g, true), Monitor(g, true));
  }

  /** A launched restart spawns as soon as no other call is under way, unless a stop or a
      shutdown is latched or a serve is there again. */
  lemma RestartSpawns(s: State)
    requires Reachable(s) && s.txn.Free? && s.restarts > 0
    ensures var t := Run(s, SpawnRun);
      (t.Some? && t.value.log == s.log + [Spawn(s.procs.spawned, true)]) <==>
      !s.flags.stopRequested && !s.flags.shutdownRequested && s.child.None?
  {
    ReachableSound(s);
    var s1 := Apply(s, BeginRestart);
    var s2 := Apply(s1, Proceed(true));
  }
}
