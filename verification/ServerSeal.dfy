/** The serve's final-accounting barrier: prepare-stop closes admission, drains or
    aborts what was admitted, and seals the totals. Steps are what runs between two
    awaits of the event loop, plus the supervisor's callbacks. */
module ServerSeal {
  import opened Collections

  datatype Mode = Loading | Serving | Rebuilding | Stopping | Failed

  /** Cumulative tokens of this launch. */
  datatype Totals = Totals(prompt: nat, completion: nat)

  datatype State = State(
    mode: Mode,
    fatal: bool,
    nextUid: nat,
    queued: set<nat>,     // requests whose client still waits (ack_map)
    inflight: set<nat>,   // admitted, and neither answered nor retired
    held: set<nat>,       // some worker, an old one included, still works on it
    totals: Totals,
    rebuilds: nat,        // rebuild requests whose reply may still come
    draining: bool,       // a prepare-stop call waits for idle
    sealed: Option<Totals>)

  datatype Step =
    | NewUser
    | Reply(uid: nat, prompt: nat, completion: nat, finished: bool)
    | Abort(uid: nat)
    | Lost(uid: nat)
    | Rebuild
    | RebuildReply(failed: bool)
    | RebuildUnsent
    | WorkerDied
    | Ready
    | Reload
    | PrepareBegin
    | PrepareSeal
    | PrepareGivesUp

  function Boot(): State {
    State(Loading, false, 0, {}, {}, {}, Totals(0, 0), 0, false, None)
  }

  /** A worker reports tokens only for requests it still works on, but whether or not
      the server still does: a reload retires requests that old workers hold. */
  predicate Enabled(s: State, step: Step) {
    match step
    case NewUser => s.mode.Serving?
    case Reply(uid, _, _, _) => uid in s.held
    case Abort(uid) => uid in s.inflight
    case Lost(uid) => uid in s.held
    case Rebuild => s.mode.Serving?
    case RebuildReply(_) => s.rebuilds > 0
    case RebuildUnsent => s.rebuilds > 0
    case WorkerDied => true
    case Ready => s.mode.Loading?
    case Reload => s.mode.Serving? || s.mode.Failed?
    case PrepareBegin => !s.draining && s.sealed.None? && !s.mode.Rebuilding?
    case PrepareSeal => s.draining && s.inflight == {}
    case PrepareGivesUp => s.draining
  }

  function Apply(s: State, step: Step): State
    requires Enabled(s, step)
  {
    match step
    case NewUser =>
      s.(nextUid := s.nextUid + 1, queued := s.queued + {s.nextUid},
         inflight := s.inflight + {s.nextUid}, held := s.held + {s.nextUid})
    case Reply(uid, prompt, completion, finished) =>
      s.(totals := Totals(s.totals.prompt + prompt, s.totals.completion + completion),
         inflight := if finished then s.inflight - {uid} else s.inflight,
         held := if finished then s.held - {uid} else s.held)
    case Abort(uid) => s.(queued := s.queued - {uid})
    case Lost(uid) => s.(held := s.held - {uid})
    case Rebuild => s.(mode := Rebuilding, rebuilds := s.rebuilds + 1)
    case RebuildReply(failed) => s.(mode := if s.fatal || failed then Failed else Serving, rebuilds := s.rebuilds - 1)
    case RebuildUnsent => s.(mode := Serving, rebuilds := s.rebuilds - 1)
    case WorkerDied => s.(mode := Failed, fatal := true)
    case Ready => s.(mode := Serving)
    case Reload => s.(mode := Loading, fatal := false, inflight := s.inflight - s.queued, totals := Totals(0, 0))
    case PrepareBegin => s.(mode := Stopping, draining := true)
    case PrepareSeal => s.(draining := false, sealed := Some(s.totals))
    case PrepareGivesUp => s.(draining := false)
  }

  function Run(s: State, steps: seq<Step>): Option<State>
    decreases |steps|
  {
    if steps == [] then Some(s)
    else if !Enabled(s, steps[0]) then None
    else Run(Apply(s, steps[0]), steps[1..])
  }

  /** No request is admitted, and none will be once loading ends. */
  predicate Shut(mode: Mode) {
    mode.Stopping? || mode.Failed? || mode.Rebuilding?
  }

  /** The seal stands: its totals are the current ones, and the gate is shut. */
  predicate Frozen(s: State) {
    s.sealed == Some(s.totals) && Shut(s.mode)
  }

  /** The steps that reopen a shut gate: an engine reload, a rebuild request that
      could not be sent, and a good rebuild reply no dead worker outranks. */
  predicate Reopens(s: State, step: Step) {
    step.Reload? || step.RebuildUnsent? || (step == RebuildReply(false) && !s.fatal)
  }

  /** A reply that brings tokens. */
  predicate Counts(step: Step) {
    step.Reply? && (step.prompt > 0 || step.completion > 0)
  }

  /** One step breaks a seal that stands exactly if it reopens the gate or brings
      tokens: late ones, since nothing is admitted any more. */
  lemma BrokenExactly(s: State, step: Step)
    requires Frozen(s) && Enabled(s, step)
    ensures Frozen(Apply(s, step)) <==> !Reopens(s, step) && !Counts(step)
  {
  }

  /** No step of a run reopens the gate. */
  ghost predicate NeverReopens(s: State, steps: seq<Step>)
    decreases |steps|
  {
    steps != [] && Enabled(s, steps[0]) ==>
      !Reopens(s, steps[0]) && NeverReopens(Apply(s, steps[0]), steps[1..])
  }

  /** Whatever happens short of reopening the gate, the sealed totals stay the totals. */
  ghost predicate Final(s: State) {
    forall steps :: NeverReopens(s, steps) && Run(s, steps).Some? ==> Run(s, steps).value.sealed == Some(Run(s, steps).value.totals)
  }

  lemma {:induction false} SealHolds(s: State, steps: seq<Step>)
    requires Frozen(s) && s.held == {} && NeverReopens(s, steps)
    ensures Run(s, steps).Some? ==> Frozen(Run(s, steps).value) && Run(s, steps).value.sealed == s.sealed
    decreases |steps|
  {
    if steps != [] && Enabled(s, steps[0]) {
      BrokenExactly(s, steps[0]);
      SealHolds(Apply(s, steps[0]), steps[1..]);
    }
  }

  lemma RunOf(s: State, step: Step, rest: seq<Step>)
    requires Enabled(s, step)
    ensures Run(s, [step] + rest) == Run(Apply(s, step), rest)
    ensures NeverReopens(s, [step] + rest) <==> !Reopens(s, step) && NeverReopens(Apply(s, step), rest)
  {
    assert ([step] + rest)[1..] == rest;
  }

  /** A token for a request a worker still holds unsettles the totals. */
  lemma LateToken(s: State, uid: nat)
    requires s.sealed == Some(s.totals) && uid in s.held
    ensures var steps := [Reply(uid, 1, 0, false)];
      NeverReopens(s, steps) && Run(s, steps).Some? && Run(s, steps).value.sealed != Some(Run(s, steps).value.totals)
  {
    var step := Reply(uid, 1, 0, false);
    RunOf(s, step, []);
    assert [step] + [] == [step];
  }

  /** A sealed receipt can no longer change, over every run that does not reopen the
      gate, exactly if the gate is shut and no worker holds a request any more. */
  lemma FinalExactly(s: State)
    requires s.sealed == Some(s.totals)
    ensures Final(s) <==> Shut(s.mode) && s.held == {}
  {
    if Shut(s.mode) && s.held == {} {
      forall steps | NeverReopens(s, steps) && Run(s, steps).Some?
        ensures Run(s, steps).value.sealed == Some(Run(s, steps).value.totals)
      {
        SealHolds(s, steps);
      }
    } else if s.held != {} {
      var uid :| uid in s.held;
      LateToken(s, uid);
    } else {
      var ready := if s.mode.Loading? then Apply(s, Ready) else s;
      var uid := ready.nextUid;
      LateToken(Apply(ready, NewUser), uid);
      RunOf(ready, NewUser, [Reply(uid, 1, 0, false)]);
      if s.mode.Loading? { RunOf(s, Ready, [NewUser] + [Reply(uid, 1, 0, false)]); }
    }
  }

  // ---- the sealed totals are all the tokens ------------------------------------------

  /** Tokens delivered by a run since its last reload, counted from the replies. */
  function Delivered(steps: seq<Step>): Totals {
    if steps == [] then Totals(0, 0)
    else
      var before := Delivered(steps[..|steps| - 1]);
      match steps[|steps| - 1]
      case Reply(_, prompt, completion, _) => Totals(before.prompt + prompt, before.completion + completion)
      case Reload => Totals(0, 0)
      case _ => before
  }

  lemma {:induction false} RunSnoc(s: State, steps: seq<Step>)
    requires steps != [] && Run(s, steps).Some?
    ensures var init := Run(s, steps[..|steps| - 1]);
      init.Some? && Enabled(init.value, steps[|steps| - 1]) && Run(s, steps).value == Apply(init.value, steps[|steps| - 1])
    decreases |steps|
  {
    var n := |steps| - 1;
    if n == 0 {
      assert Run(Apply(s, steps[0]), steps[1..]) == Some(Apply(s, steps[0]));
    } else {
      RunSnoc(Apply(s, steps[0]), steps[1..]);
      assert steps[1..][..n - 1] == steps[..n][1..];
    }
  }

  lemma {:induction false} TotalsAreDelivered(steps: seq<Step>)
    requires Run(Boot(), steps).Some?
    ensures Run(Boot(), steps).value.totals == Delivered(steps)
    decreases |steps|
  {
    if steps != [] {
      RunSnoc(Boot(), steps);
      TotalsAreDelivered(steps[..|steps| - 1]);
    }
  }

  /** The step answers a request for good: a worker's last reply does, and a reload does
      for a client that still waits. */
  predicate Retires(s: State, step: Step, uid: nat) {
    (step.Reply? && step.uid == uid && step.finished) || (step.Reload? && uid in s.queued)
  }

  ghost predicate RetiredAt(steps: seq<Step>, uid: nat, k: nat) {
    k < |steps| && var s := Run(Boot(), steps[..k]); s.Some? && Retires(s.value, steps[k], uid)
  }

  ghost predicate Retired(steps: seq<Step>, uid: nat) {
    exists k: nat :: RetiredAt(steps, uid, k)
  }

  lemma RetiredSnoc(steps: seq<Step>, step: Step, uid: nat)
    requires Run(Boot(), steps).Some?
    ensures Retired(steps + [step], uid) <==> Retired(steps, uid) || Retires(Run(Boot(), steps).value, step, uid)
  {
    hide Run, Retires;
    var more := steps + [step];
    assert more[..|steps|] == steps;
    forall k: nat | k < |steps| ensures RetiredAt(more, uid, k) <==> RetiredAt(steps, uid, k) {
      assert more[..k] == steps[..k] && more[k] == steps[k];
    }
    if Retires(Run(Boot(), steps).value, step, uid) { assert RetiredAt(more, uid, |steps|); }
    if Retired(steps, uid) {
      var k: nat :| RetiredAt(steps, uid, k);
      assert RetiredAt(more, uid, k);
    }
    if Retired(more, uid) {
      var k: nat :| RetiredAt(more, uid, k);
      assert k < |steps| ==> RetiredAt(steps, uid, k);
    }
  }

  /** The server waits for a request exactly from its admission until it is answered for
      good: one whose client has gone outlasts a reload. */
  lemma {:induction false} InflightExactly(steps: seq<Step>, uid: nat)
    requires Run(Boot(), steps).Some?
    ensures var s := Run(Boot(), steps).value;
      && (uid in s.inflight <==> uid < s.nextUid && !Retired(steps, uid))
      && (uid in s.queued || uid in s.held || Retired(steps, uid) ==> uid < s.nextUid)
    decreases |steps|
  {
    if steps != [] {
      var init, step := steps[..|steps| - 1], steps[|steps| - 1];
      assert steps == init + [step];
      RunSnoc(Boot(), steps);
      InflightExactly(init, uid);
      RetiredSnoc(init, step, uid);
      hide Run, Retired;
    }
  }

  /** Nobody will answer it: no worker works on it and no client waits. */
  predicate Orphaned(s: State, uid: nat) {
    uid in s.inflight && uid !in s.held && uid !in s.queued
  }

  /** The server waits for an orphaned request for ever, and never seals. */
  lemma {:induction false} OrphanStays(s: State, steps: seq<Step>, uid: nat)
    requires Orphaned(s, uid) && uid < s.nextUid && Run(s, steps).Some?
    ensures Orphaned(Run(s, steps).value, uid) && Run(s, steps).value.sealed == s.sealed
    decreases |steps|
  {
    if steps != [] {
      OrphanStays(Apply(s, steps[0]), steps[1..], uid);
    }
  }

  /** Some run answers a request in flight for good exactly if a worker works on it or
      its client waits. */
  lemma AnswerableExactly(s: State, uid: nat)
    requires uid in s.inflight && uid < s.nextUid
    ensures (exists steps :: Run(s, steps).Some? && uid !in Run(s, steps).value.inflight) <==> uid in s.held || uid in s.queued
  {
    if uid in s.held {
      var step := Reply(uid, 0, 0, true);
      RunOf(s, step, []);
      assert [step] + [] == [step];
      assert uid !in Run(s, [step]).value.inflight;
    } else if uid in s.queued {
      var failed := Apply(s, WorkerDied);
      RunOf(failed, Reload, []);
      assert [Reload] + [] == [Reload];
      RunOf(s, WorkerDied, [Reload]);
      assert uid !in Run(s, [WorkerDied] + [Reload]).value.inflight;
    } else {
      forall steps | Run(s, steps).Some? ensures uid in Run(s, steps).value.inflight {
        OrphanStays(s, steps, uid);
      }
    }
  }

  /** A client that goes away leaves such a request behind if the worker drops it without
      a last reply: prepare-stop then waits for it in vain. */
  lemma LeftBehind() returns (steps: seq<Step>)
    ensures Run(Boot(), steps).Some? && |steps| == 5 && steps[4] == PrepareBegin && NoReload(steps)
    ensures Orphaned(Run(Boot(), steps).value, 0) && Run(Boot(), steps).value.sealed.None?
  {
    var s0 := Boot();
    var s1 := Apply(s0, Ready);
    var s2 := Apply(s1, NewUser);
    var s3 := Apply(s2, Abort(0));
    var s4 := Apply(s3, Lost(0));
    steps := [Ready, NewUser, Abort(0), Lost(0), PrepareBegin];
    var s5 := Apply(s4, PrepareBegin);
    assert Run(s5, steps[5..]) == Some(s5);
    RunStep(s4, steps[4..]);
    assert steps[4..][1..] == steps[5..];
    RunStep(s3, steps[3..]);
    assert steps[3..][1..] == steps[4..];
    RunStep(s2, steps[2..]);
    assert steps[2..][1..] == steps[3..];
    RunStep(s1, steps[1..]);
    assert steps[1..][1..] == steps[2..];
    RunStep(s0, steps);
  }

  predicate NoReload(steps: seq<Step>) {
    forall i :: 0 <= i < |steps| ==> !steps[i].Reload?
  }

  /** Before a first reload workers hold only what the server still counts on. */
  lemma {:induction false} HeldAreInflight(steps: seq<Step>)
    requires Run(Boot(), steps).Some? && NoReload(steps)
    ensures Run(Boot(), steps).value.held <= Run(Boot(), steps).value.inflight
    decreases |steps|
  {
    if steps != [] {
      RunSnoc(Boot(), steps);
      HeldAreInflight(steps[..|steps| - 1]);
    }
  }

  /** The receipt is complete: what is sealed is every token delivered since the last
      reload, aborted clients' tokens included. It is final exactly if the gate is
      shut by then and no worker holds a request that a reload retired; without any
      reload the gate alone decides. */
  lemma SealIsComplete(steps: seq<Step>)
    requires Run(Boot(), steps).Some? && steps != [] && steps[|steps| - 1] == PrepareSeal
    ensures var s := Run(Boot(), steps).value;
      && s.sealed == Some(Delivered(steps)) && s.inflight == {}
      && (Final(s) <==> Shut(s.mode) && s.held == {})
      && (NoReload(steps) ==> (Final(s) <==> Shut(s.mode)))
  {
    RunSnoc(Boot(), steps);
    TotalsAreDelivered(steps);
    FinalExactly(Run(Boot(), steps).value);
    if NoReload(steps) { HeldAreInflight(steps); }
  }

  /** A request that a reload retired is still worked on by the old workers: its late
      tokens move the totals under a sealed receipt, with the gate shut all along. */
  lemma LateReplyBreaksSeal() returns (steps: seq<Step>)
    ensures Run(Boot(), steps).Some? && |steps| == 6 && steps[4] == PrepareSeal && steps[5].Reply?
    ensures var s := Run(Boot(), steps).value;
      s.mode.Stopping? && s.sealed == Some(Totals(0, 0)) && s.totals == Totals(3, 5)
  {
    var s0 := Boot();
    var s1 := Apply(s0, Ready);
    var s2 := Apply(s1, NewUser);
    var s3 := Apply(s2, Reload);
    var s4 := Apply(s3, PrepareBegin);
    assert s3.inflight == {};
    var s5 := Apply(s4, PrepareSeal);
    var late := Reply(0, 3, 5, false);
    steps := [Ready, NewUser, Reload, PrepareBegin, PrepareSeal, late];
    RunStep(s5, steps[5..]);
    assert steps[5..][1..] == [];
    RunStep(s4, steps[4..]);
    assert steps[4..][1..] == steps[5..];
    RunStep(s3, steps[3..]);
    assert steps[3..][1..] == steps[4..];
    RunStep(s2, steps[2..]);
    assert steps[2..][1..] == steps[3..];
    RunStep(s1, steps[1..]);
    assert steps[1..][1..] == steps[2..];
    RunStep(s0, steps);
  }

  /** A worker death after the seal lets an engine reload admit requests again, and
      the totals start over under the sealed receipt. */
  lemma ReloadBreaksSeal() returns (steps: seq<Step>)
    ensures Run(Boot(), steps).Some?
    ensures var s := Run(Boot(), steps).value;
      s.mode.Serving? && s.sealed == Some(Totals(3, 5)) && s.totals == Totals(0, 0) && Enabled(s, NewUser)
  {
    var s0 := Boot();
    var s1 := Apply(s0, Ready);
    var s2 := Apply(s1, NewUser);
    var s3 := Apply(s2, Reply(0, 3, 5, true));
    var s4 := Apply(s3, PrepareBegin);
    assert s3.inflight == {};
    var s5 := Apply(s4, PrepareSeal);
    var s6 := Apply(s5, WorkerDied);
    var s7 := Apply(s6, Reload);
    var s8 := Apply(s7, Ready);
    steps := [Ready, NewUser, Reply(0, 3, 5, true), PrepareBegin, PrepareSeal, WorkerDied, Reload, Ready];
    assert Run(s8, steps[8..]) == Some(s8);
    RunStep(s7, steps[7..]);
    assert steps[7..][1..] == steps[8..];
    RunStep(s6, steps[6..]);
    assert steps[6..][1..] == steps[7..];
    RunStep(s5, steps[5..]);
    assert steps[5..][1..] == steps[6..];
    RunStep(s4, steps[4..]);
    assert steps[4..][1..] == steps[5..];
    RunStep(s3, steps[3..]);
    assert steps[3..][1..] == steps[4..];
    RunStep(s2, steps[2..]);
    assert steps[2..][1..] == steps[3..];
    RunStep(s1, steps[1..]);
    assert steps[1..][1..] == steps[2..];
    RunStep(s0, steps);
  }

  lemma RunStep(s: State, steps: seq<Step>)
    requires steps != [] && Enabled(s, steps[0])
    ensures Run(s, steps) == Run(Apply(s, steps[0]), steps[1..])
  {
  }
}
