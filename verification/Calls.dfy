/** Where the daemon's calls lead when nothing else interferes: a stop reaches its serve,
    by force if need be, a failed one gives everything back, and a switch starts again. */
module Calls {
  import opened Collections
  import opened Lifecycle
  import Outbox

  /** The log is as it was, or has one more event, which is no signal. */
  predicate Unsignalled(was: seq<Event>, now: seq<Event>) {
    now == was || (|now| == |was| + 1 && !now[|was|].Signal?)
  }

  lemma UnsignalledHas(was: seq<Event>, now: seq<Event>, g: nat)
    requires Unsignalled(was, now)
    ensures now != was + [Signal(g)]
  {
    assert (was + [Signal(g)])[|was|] == Signal(g);
  }

  lemma StartUnsignalled(s: State, ok: bool)
    requires InStart(s.txn)
    ensures Unsignalled(s.log, Advance(s, ok).log)
  {
  }

  lemma FrameUnsignalled(s: State, ok: bool)
    requires !InStart(s.txn) && !Signals(s.txn)
    ensures Unsignalled(s.log, Advance(s, ok).log)
  {
  }

  lemma PrepareUnsignalled(s: State, doc: Option<nat>, io: Outbox.Io)
    requires s.txn.Preparing?
    ensures Unsignalled(s.log, PrepareStep(s, doc, io).log)
  {
    hide Returns;
  }

  lemma AccountUnsignalled(s: State, m: nat, io: Outbox.Io)
    requires Enabled(s, Account(m, io))
    ensures Unsignalled(s.log, AccountStep(s, m, io).log)
  {
    hide Returns, OnDisk;
  }

  lemma ReapUnsignalled(s: State, m: nat, ok: bool)
    requires Enabled(s, Monitor(m, ok))
    ensures Unsignalled(s.log, Reap(s, m, ok).log)
  {
  }

  lemma StopSends(s: State, ok: bool, g: nat)
    requires Signals(s.txn)
    ensures Advance(s, ok).log == s.log + [Signal(g)] <==>
      ok && (s.txn.Signalling? || s.txn.TermSent?) && s.txn.g == g && g !in s.procs.reaped
  {
    if Advance(s, ok).log == s.log + [Signal(g)] { assert Advance(s, ok).log[|s.log|] == Signal(g); }
  }

  /** A signal is sent exactly by a stop that goes on with its receipt stored, or goes on
      to force, while its serve is not reaped. */
  lemma SignalExactly(s: State, step: Step, g: nat)
    requires Enabled(s, step)
    ensures Apply(s, step).log == s.log + [Signal(g)] <==>
      step == Proceed(true) && (s.txn.Signalling? || s.txn.TermSent?) && s.txn.g == g && g !in s.procs.reaped
  {
    hide Advance, Reap, PrepareStep, AccountStep, OnDisk, Unsignalled;
    var log := Apply(s, step).log;
    match step
    case Proceed(ok) =>
      if Signals(s.txn) {
        StopSends(s, ok, g);
      } else {
        if InStart(s.txn) { StartUnsignalled(s, ok); } else { FrameUnsignalled(s, ok); }
        UnsignalledHas(s.log, log, g);
      }
    case Prepare(doc, io) =>
      PrepareUnsignalled(s, doc, io);
      UnsignalledHas(s.log, log, g);
    case Account(m, io) =>
      AccountUnsignalled(s, m, io);
      UnsignalledHas(s.log, log, g);
    case Monitor(m, ok) =>
      ReapUnsignalled(s, m, ok);
      UnsignalledHas(s.log, log, g);
    case _ =>
      assert log == s.log;
  }

  /** A stop with its receipt stored, before the first signal. */
  lemma StopPrepared(s: State, g: nat, n: nat) returns (t: State)
    requires Reachable(s) && s.txn.Free? && s.child == Some(g)
    ensures Reachable(t) && t.txn == Signalling(g, JustStop) && t.child == s.child && t.store == s.store && t.restarts == s.restarts
    ensures t.procs == s.procs.(durable := s.procs.durable + {g})
    ensures t.flags.stopping && t.flags.stopRequested && !t.flags.starting && t.log == s.log + [Latch] + [Stored(g, StopDoc(n), true)]
  {
    QuietWhenUnlocked(s);
    hide Reachable, OnDisk;
    ReachStep(s, Begin(Stop));
    var s1 := Apply(s, Begin(Stop));
    ReachStep(s1, Proceed(true));
    var s2 := Apply(s1, Proceed(true));
    assert s2.txn == Preparing(g, JustStop);
    ReachStep(s2, Prepare(Some(n), Outbox.Works));
    t := Apply(s2, Prepare(Some(n), Outbox.Works));
  }

  /** The stop's signals: one, or two if the first is not obeyed; then the serve dies. */
  lemma StopSignals(s: State, g: nat, obeys: bool) returns (t: State)
    requires Reachable(s) && s.txn == Signalling(g, JustStop) && g !in s.procs.reaped && g in s.procs.alive
    ensures Reachable(t) && t.txn == (if obeys then TermSent(g, JustStop) else KillSent(g, JustStop))
    ensures t == s.(txn := t.txn, procs := s.procs.(alive := s.procs.alive - {g}),
                    log := s.log + [Signal(g)] + if obeys then [] else [Signal(g)])
  {
    hide Reachable;
    ReachStep(s, Proceed(true));
    var s1 := Apply(s, Proceed(true));
    var s2 := s1;
    if !obeys {
      ReachStep(s1, Proceed(true));
      s2 := Apply(s1, Proceed(true));
    }
    ReachStep(s2, Die(g));
    t := Apply(s2, Die(g));
    assert s.log + [Signal(g)] + [] == s.log + [Signal(g)];
  }

  /** The monitor of a stopped serve, up to the reap. */
  lemma StopReaps(s: State, g: nat) returns (t: State)
    requires Reachable(s) && Signals(s.txn) && s.child == Some(g) && s.flags.stopRequested
    requires g in s.procs.durable && g !in s.procs.alive && g in s.procs.watch && s.procs.watch[g].Waiting?
    ensures Reachable(t) && t.txn == s.txn && t.child.None? && t.store.None? && t.log == s.log + [Reaped(g)]
    ensures t.flags == s.flags.(stopping := false) && g in t.procs.reaped && t.procs.alive == s.procs.alive
    ensures g in t.procs.watch && t.procs.watch[g] == Deciding(true, true)
  {
    hide Reachable;
    ReachStep(s, Monitor(g, true));
    var s1 := Apply(s, Monitor(g, true));
    assert s1.procs.watch[g] == Receipting(true, true);
    ReachStep(s1, Account(g, Outbox.Works));
    var s2 := Apply(s1, Account(g, Outbox.Works));
    assert s2.procs.watch[g] == Clearing(true);
    ReachStep(s2, Monitor(g, true));
    var s3 := Apply(s2, Monitor(g, true));
    ReachStep(s3, Monitor(g, true));
    var s4 := Apply(s3, Monitor(g, true));
    ReachStep(s4, Monitor(g, true));
    t := Apply(s4, Monitor(g, true));
  }

  /** A stop of a watched, living serve that nothing disturbs succeeds, whether the serve
      obeys the first signal or has to be killed. */
  lemma StopSucceeds(s: State, g: nat, n: nat, obeys: bool) returns (t: State)
    requires Reachable(s) && s.txn.Free? && s.child == Some(g)
    requires g in s.procs.alive && g in s.procs.watch && s.procs.watch[g].Waiting?
    ensures Reachable(t) && t.txn.Free? && t.child.None? && t.store.None? && t.procs.alive == {} && g in t.procs.reaped
    ensures t.flags.stopRequested && !t.flags.stopping
    ensures t.log == s.log + [Latch] + [Stored(g, StopDoc(n), true)] + [Signal(g)] + (if obeys then [] else [Signal(g)]) + [Reaped(g)]
  {
    ReachableSound(s);
    assert GenOk(s, g);
    hide Sound, Reachable;
    var s1 := StopPrepared(s, g, n);
    var s2 := StopSignals(s1, g, obeys);
    var s3 := StopReaps(s2, g);
    ReachStep(s3, Proceed(true));
    var s4 := Apply(s3, Proceed(true));
    assert s4.txn == Stopped(Some(g), JustStop);
    StopIsComplete(s4);
    ReachStep(s4, Proceed(true));
    t := Apply(s4, Proceed(true));
  }

  /** A stop whose serve outlives the kill fails: the serve stays the current one, with
      nothing under way, and a shutdown that fails this way lets starts in again. */
  lemma FailedStopGivesBack(s: State) returns (t: State)
    requires Reachable(s) && s.txn.KillSent? && s.txn.g !in s.procs.reaped
    ensures Reachable(t) && t.txn.Free? && t.child == s.child && t.procs == s.procs && t.log == s.log
    ensures !t.flags.stopping && t.flags.stopRequested == s.flags.stopRequested
    ensures t.flags.shutdownRequested == (s.flags.shutdownRequested && !s.txn.after.ThenShutdown?)
  {
    var after := s.txn.after;
    hide Reachable;
    ReachStep(s, Proceed(true));
    var s1 := Apply(s, Proceed(true));
    ReachStep(s1, Proceed(true));
    var s2 := Apply(s1, Proceed(true));
    if after.ThenShutdown? {
      ReachStep(s2, Proceed(true));
      t := Apply(s2, Proceed(true));
    } else {
      t := s2;
    }
    QuietWhenUnlocked(t);
  }

  /** What follows a completed stop: nothing, the end of a shutdown, or a start of a new
      serve, published, saved and watched. */
  lemma StopGoesOn(s: State) returns (t: State)
    requires Reachable(s) && s.txn.Stopped? && (s.txn.after.ThenStart? ==> !s.flags.shutdownRequested)
    ensures Reachable(t) && t.txn.Free?
    ensures s.txn.after.JustStop? ==> t == s.(txn := Free)
    ensures s.txn.after.ThenShutdown? ==> t == s.(txn := Free, log := s.log + [ShutdownDone]) && t.flags.shutdownRequested
    ensures s.txn.after.ThenStart? ==> var g := s.procs.spawned;
      && t.child == t.store == Some(g) && t.procs.alive == {g} && g in t.procs.watch && t.procs.watch[g].Waiting?
      && t.log == s.log + [ClientStart] + [Spawn(g, false)] && t.flags == Flags(false, false, false, false)
  {
    ReachableSound(s);
    StopIsComplete(s);
    hide Reachable;
    ReachStep(s, Proceed(true));
    var s1 := Apply(s, Proceed(true));
    if s.txn.after.ThenStart? {
      assert s1 == s.(txn := StartEnter(false));
      t := StartGoesOn(s1);
    } else {
      t := s1;
    }
  }

  /** A start that nothing disturbs, from where it holds the lock. */
  lemma StartGoesOn(s: State) returns (t: State)
    requires Reachable(s) && s.txn == StartEnter(false) && s.child.None? && !s.flags.shutdownRequested && !s.flags.starting
    ensures Reachable(t) && t.txn.Free?
    ensures var g := s.procs.spawned;
      && t.child == t.store == Some(g) && t.procs.alive == s.procs.alive + {g} && g in t.procs.watch && t.procs.watch[g].Waiting?
      && t.log == s.log + [ClientStart] + [Spawn(g, false)] && t.flags == Flags(false, false, false, false)
  {
    hide Reachable;
    ReachStep(s, Proceed(true));
    var s1 := Apply(s, Proceed(true));
    assert s1.txn == Spawning(false);
    ReachStep(s1, Proceed(true));
    var s2 := Apply(s1, Proceed(true));
    ReachStep(s2, Proceed(true));
    var s3 := Apply(s2, Proceed(true));
    ReachStep(s3, Proceed(true));
    var s4 := Apply(s3, Proceed(true));
    ReachStep(s4, Proceed(true));
    t := Apply(s4, Proceed(true));
  }
}
