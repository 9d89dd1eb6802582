/** What the disk store's operations do to marks and files, over whole runs: exactly
    which interleavings leave a block marked ready without its file. */
module DiskRuns {
  import opened Collections
  import opened PrefixBlocks

  /** One of a block's two files. */
  datatype Part = Part(h: Hash, kv: bool)

  /** What the writer has in hand, and whether its file was written. */
  datatype Hand = Hand(part: Part, ok: bool)

  datatype View = View(present: set<Hash>, ready: set<Part>, files: set<Part>, hand: Option<Hand>)

  datatype Op =
    | Mark(h: Hash)               // a job joins the queue
    | Write(part: Part, ok: bool) // the writer, outside the lock
    | Remove(h: Hash)             // eviction, or a failed read
    | Settle                      // the writer, under the lock

  function Without(parts: set<Part>, h: Hash): set<Part> {
    set p | p in parts && p.h != h
  }

  predicate Enabled(v: View, op: Op) {
    match op
    case Write(_, _) => v.hand.None?
    case Settle => v.hand.Some?
    case _ => true
  }

  function Apply(v: View, op: Op): View
    requires Enabled(v, op)
  {
    match op
    case Mark(h) => v.(present := v.present + {h})
    case Write(part, ok) => v.(hand := Some(Hand(part, ok)), files := if ok then v.files + {part} else v.files)
    case Remove(h) => if h in v.present then Removed(v, h) else v
    case Settle =>
      var part, t := v.hand.value.part, v.(hand := None);
      if part.h !in v.present then t.(files := t.files - {part})
      else if v.hand.value.ok then t.(ready := t.ready + {part})
      else if part.kv then Removed(t, part.h)
      else t
  }

  function Removed(v: View, h: Hash): View {
    v.(present := v.present - {h}, ready := Without(v.ready, h), files := Without(v.files, h))
  }

  function Run(v: View, ops: seq<Op>): Option<View> {
    if ops == [] then Some(v)
    else
      var n := |ops| - 1;
      var before := Run(v, ops[..n]);
      if before.Some? && Enabled(before.value, ops[n]) then Some(Apply(before.value, ops[n])) else None
  }

  /** Only blocks that are there are marked ready. */
  ghost predicate Proper(v: View) {
    forall p :: p in v.ready ==> p.h in v.present
  }

  predicate Lacks(v: View, p: Part) {
    p in v.ready && p !in v.files
  }

  /** Every block marked ready has its file. */
  ghost predicate Backed(v: View) {
    forall p :: !Lacks(v, p)
  }

  /** The file in the writer's hands was written and is gone again. */
  predicate Gone(v: View, p: Part) {
    v.hand == Some(Hand(p, true)) && p !in v.files
  }

  predicate Vanished(v: View, p: Part) {
    Gone(v, p) && p.h in v.present
  }

  /** An operation that takes the block away, or writes the file again. */
  predicate Clears(v: View, op: Op, p: Part) {
    || (op == Remove(p.h) && p.h in v.present)
    || op == Write(p, true)
    || (op.Settle? && v.hand.Some? && !v.hand.value.ok && v.hand.value.part == Part(p.h, true) && p.h in v.present)
  }

  lemma StepFacts(v: View, op: Op, p: Part)
    requires Proper(v) && Enabled(v, op)
    ensures Proper(Apply(v, op))
    ensures Lacks(Apply(v, op), p) <==> (op.Settle? && Vanished(v, p)) || (Lacks(v, p) && !Clears(v, op, p))
    ensures Gone(Apply(v, op), p) <==>
      (op == Remove(p.h) && p.h in v.present && v.hand == Some(Hand(p, true))) || (Gone(v, p) && !op.Settle?)
    ensures Apply(v, op).hand == Some(Hand(p, true)) <==> op == Write(p, true) || (v.hand == Some(Hand(p, true)) && !op.Settle?)
    ensures !op.Settle? ==> (p.h in Apply(v, op).present <==> op == Mark(p.h) || (p.h in v.present && op != Remove(p.h)))
  {
  }

  /** A file that no block answers for, nor the writer. */
  predicate Stray(v: View, p: Part) {
    p in v.files && p !in v.ready && v.hand != Some(Hand(p, true))
  }

  ghost predicate Tidy(v: View) {
    forall p :: !Stray(v, p)
  }

  lemma StepStrays(v: View, op: Op, p: Part)
    requires Enabled(v, op) && Stray(Apply(v, op), p)
    ensures Stray(v, p)
  {
  }

  /** No operation leaves a file nobody answers for: those there are were there before. */
  lemma {:induction false} RunStrays(v: View, ops: seq<Op>, p: Part)
    requires Run(v, ops).Some? && Stray(Run(v, ops).value, p)
    ensures Stray(v, p)
    decreases |ops|
  {
    hide Apply, Enabled, Stray;
    if ops != [] {
      var n := |ops| - 1;
      StepStrays(Run(v, ops[..n]).value, ops[n], p);
      RunStrays(v, ops[..n], p);
    }
  }

  lemma StepProper(v: View, op: Op)
    requires Proper(v) && Enabled(v, op)
    ensures Proper(Apply(v, op))
  {
  }

  lemma {:induction false} RunProper(v: View, ops: seq<Op>)
    requires Proper(v) && Run(v, ops).Some?
    ensures Proper(Run(v, ops).value)
    decreases |ops|
  {
    hide Apply, Enabled, Proper;
    if ops != [] {
      var n := |ops| - 1;
      RunProper(v, ops[..n]);
      StepProper(Run(v, ops[..n]).value, ops[n]);
    }
  }

  // ---- what a run's end says of its beginning ----------------------------------------

  /** The writer took up the part at i and has not settled it since. */
  predicate Taken(ops: seq<Op>, p: Part, i: nat) {
    i < |ops| && ops[i] == Write(p, true) && forall m :: i < m < |ops| ==> !ops[m].Settle?
  }

  /** The block was there before operation j and removed by it. */
  ghost predicate RemovedAt(v: View, ops: seq<Op>, h: Hash, j: nat) {
    j < |ops| && ops[j] == Remove(h) && var s := Run(v, ops[..j]); s.Some? && h in s.value.present
  }

  /** The block was queued at k and has stayed since. */
  predicate Back(ops: seq<Op>, h: Hash, k: nat) {
    k < |ops| && ops[k] == Mark(h) && forall m :: k < m < |ops| ==> ops[m] != Remove(h)
  }

  /** Written, then removed, then queued again, all while the writer has it in hand. */
  ghost predicate Lapsing(v: View, ops: seq<Op>, p: Part) {
    exists i: nat, j: nat, k: nat :: Taken(ops, p, i) && i < j && RemovedAt(v, ops, p.h, j) && j < k && Back(ops, p.h, k)
  }

  /** Settled at l in that state, and neither removed nor written since. */
  ghost predicate LapsedAt(v: View, ops: seq<Op>, p: Part, l: nat) {
    && l < |ops| && ops[l].Settle? && Lapsing(v, ops[..l], p)
    && forall m :: l < m < |ops| ==> !ClearedAt(v, ops, p, m)
  }

  ghost predicate ClearedAt(v: View, ops: seq<Op>, p: Part, m: nat) {
    m < |ops| && var s := Run(v, ops[..m]); s.Some? && Clears(s.value, ops[m], p)
  }

  lemma TakenSnoc(ops: seq<Op>, op: Op, p: Part, i: nat)
    ensures Taken(ops + [op], p, i) <==> (i == |ops| && op == Write(p, true)) || (Taken(ops, p, i) && !op.Settle?)
  {
    var more := ops + [op];
    assert forall m :: 0 <= m < |ops| ==> more[m] == ops[m];
    if Taken(more, p, i) && i < |ops| { assert !more[|ops|].Settle?; }
  }

  lemma BackSnoc(ops: seq<Op>, op: Op, h: Hash, k: nat)
    ensures Back(ops + [op], h, k) <==> (k == |ops| && op == Mark(h)) || (Back(ops, h, k) && op != Remove(h))
  {
    var more := ops + [op];
    assert forall m :: 0 <= m < |ops| ==> more[m] == ops[m];
    if Back(more, h, k) && k < |ops| { assert more[|ops|] != Remove(h); }
  }

  lemma RemovedSnoc(v: View, ops: seq<Op>, op: Op, h: Hash, j: nat)
    ensures RemovedAt(v, ops + [op], h, j) <==>
      RemovedAt(v, ops, h, j) || (j == |ops| && op == Remove(h) && var s := Run(v, ops); s.Some? && h in s.value.present)
  {
    if j < |ops| { assert (ops + [op])[..j] == ops[..j]; } else { assert (ops + [op])[..|ops|] == ops; }
  }

  lemma RunSnoc(v: View, ops: seq<Op>, op: Op)
    ensures var s := Run(v, ops);
      Run(v, ops + [op]) == if s.Some? && Enabled(s.value, op) then Some(Apply(s.value, op)) else None
  {
    assert (ops + [op])[..|ops|] == ops;
  }

  lemma {:induction false} HandExactly(v: View, ops: seq<Op>, p: Part)
    requires Proper(v) && v.hand.None? && Run(v, ops).Some?
    ensures Run(v, ops).value.hand == Some(Hand(p, true)) <==> exists i: nat :: Taken(ops, p, i)
    decreases |ops|
  {
    if ops == [] {
      assert forall i: nat :: !Taken(ops, p, i);
    } else {
      var n := |ops| - 1;
      HandExactly(v, ops[..n], p);
      RunProper(v, ops[..n]);
      StepFacts(Run(v, ops[..n]).value, ops[n], p);
      TakenSnocs(ops[..n], ops[n], p);
      hide Apply, Enabled, Taken, Lacks, Gone, Clears;
      assert ops == ops[..n] + [ops[n]];
    }
  }

  lemma TakenSnocs(ops: seq<Op>, op: Op, p: Part)
    ensures (exists i: nat :: Taken(ops + [op], p, i)) <==> op == Write(p, true) || ((exists i: nat :: Taken(ops, p, i)) && !op.Settle?)
  {
    forall i: nat ensures Taken(ops + [op], p, i) <==> (i == |ops| && op == Write(p, true)) || (Taken(ops, p, i) && !op.Settle?) {
      TakenSnoc(ops, op, p, i);
    }
    hide Taken;
    if op == Write(p, true) { assert Taken(ops + [op], p, |ops|); }
    if i: nat :| Taken(ops, p, i) { assert Taken(ops + [op], p, i) <==> !op.Settle? || (i == |ops| && op == Write(p, true)); }
  }

  ghost predicate WrittenThenRemoved(v: View, ops: seq<Op>, p: Part) {
    exists i: nat, j: nat :: Taken(ops, p, i) && i < j && RemovedAt(v, ops, p.h, j)
  }

  lemma RemovedSnocs(v: View, ops: seq<Op>, op: Op, p: Part)
    ensures WrittenThenRemoved(v, ops + [op], p) <==>
      ((exists i: nat :: Taken(ops, p, i)) && op == Remove(p.h) && var s := Run(v, ops); s.Some? && p.h in s.value.present)
      || (WrittenThenRemoved(v, ops, p) && !op.Settle?)
  {
    var more := ops + [op];
    var now := op == Remove(p.h) && var s := Run(v, ops); s.Some? && p.h in s.value.present;
    forall i: nat ensures Taken(more, p, i) <==> (i == |ops| && op == Write(p, true)) || (Taken(ops, p, i) && !op.Settle?) {
      TakenSnoc(ops, op, p, i);
    }
    forall j: nat ensures RemovedAt(v, more, p.h, j) <==> RemovedAt(v, ops, p.h, j) || (j == |ops| && now) { RemovedSnoc(v, ops, op, p.h, j); }
    assert forall i: nat :: Taken(ops, p, i) ==> i < |ops|;
    assert forall j: nat :: RemovedAt(v, ops, p.h, j) ==> j < |ops|;
    hide Taken, RemovedAt, Run;
    if now {
      if i: nat :| Taken(ops, p, i) { assert Taken(more, p, i) && RemovedAt(v, more, p.h, |ops|); }
    }
    if WrittenThenRemoved(v, ops, p) && !op.Settle? {
      var i: nat, j: nat :| Taken(ops, p, i) && i < j && RemovedAt(v, ops, p.h, j);
      assert Taken(more, p, i) && RemovedAt(v, more, p.h, j);
    }
  }

  lemma {:induction false} GoneExactly(v: View, ops: seq<Op>, p: Part)
    requires Proper(v) && v.hand.None? && Run(v, ops).Some?
    ensures Gone(Run(v, ops).value, p) <==> WrittenThenRemoved(v, ops, p)
    decreases |ops|
  {
    if ops == [] {
      assert forall i: nat :: !Taken(ops, p, i);
    } else {
      var n := |ops| - 1;
      GoneExactly(v, ops[..n], p);
      HandExactly(v, ops[..n], p);
      RunProper(v, ops[..n]);
      StepFacts(Run(v, ops[..n]).value, ops[n], p);
      RemovedSnocs(v, ops[..n], ops[n], p);
      hide Apply, Enabled, Taken, RemovedAt, WrittenThenRemoved, Lacks, Gone, Clears;
      assert ops == ops[..n] + [ops[n]];
    }
  }

  lemma LapsingSnoc(v: View, ops: seq<Op>, op: Op, p: Part)
    ensures Lapsing(v, ops + [op], p) <==>
      !op.Settle? && op != Remove(p.h) && ((op == Mark(p.h) && WrittenThenRemoved(v, ops, p)) || Lapsing(v, ops, p))
  {
    var more := ops + [op];
    forall i: nat ensures Taken(more, p, i) <==> (i == |ops| && op == Write(p, true)) || (Taken(ops, p, i) && !op.Settle?) {
      TakenSnoc(ops, op, p, i);
    }
    forall j: nat | j < |ops| ensures RemovedAt(v, more, p.h, j) <==> RemovedAt(v, ops, p.h, j) { RemovedSnoc(v, ops, op, p.h, j); }
    forall k: nat ensures Back(more, p.h, k) <==> (k == |ops| && op == Mark(p.h)) || (Back(ops, p.h, k) && op != Remove(p.h)) {
      BackSnoc(ops, op, p.h, k);
    }
    assert forall k: nat :: Back(ops, p.h, k) ==> k < |ops|;
    assert forall j: nat :: RemovedAt(v, ops, p.h, j) ==> j < |ops|;
    hide Taken, RemovedAt, Back;
    if Lapsing(v, more, p) {
      var i: nat, j: nat, k: nat :| Taken(more, p, i) && i < j && RemovedAt(v, more, p.h, j) && j < k && Back(more, p.h, k);
      assert Taken(ops, p, i) && RemovedAt(v, ops, p.h, j);
    }
    if op == Mark(p.h) && WrittenThenRemoved(v, ops, p) {
      var i: nat, j: nat :| Taken(ops, p, i) && i < j && RemovedAt(v, ops, p.h, j);
      assert Taken(more, p, i) && RemovedAt(v, more, p.h, j) && Back(more, p.h, |ops|);
    }
    if Lapsing(v, ops, p) && !op.Settle? && op != Remove(p.h) {
      var i: nat, j: nat, k: nat :| Taken(ops, p, i) && i < j && RemovedAt(v, ops, p.h, j) && j < k && Back(ops, p.h, k);
      assert Taken(more, p, i) && RemovedAt(v, more, p.h, j) && Back(more, p.h, k);
    }
  }

  /** The file in the writer's hands has vanished under its block exactly if, since it
      was written, the block was removed and then queued again. */
  lemma {:induction false} VanishedExactly(v: View, ops: seq<Op>, p: Part)
    requires Proper(v) && v.hand.None? && Run(v, ops).Some?
    ensures Vanished(Run(v, ops).value, p) <==> Lapsing(v, ops, p)
    decreases |ops|
  {
    if ops == [] {
      assert forall i: nat :: !Taken(ops, p, i);
    } else {
      var n := |ops| - 1;
      VanishedExactly(v, ops[..n], p);
      GoneExactly(v, ops[..n], p);
      RunProper(v, ops[..n]);
      StepFacts(Run(v, ops[..n]).value, ops[n], p);
      LapsingSnoc(v, ops[..n], ops[n], p);
      hide Apply, Enabled, Taken, RemovedAt, WrittenThenRemoved, Lapsing, Lacks, Clears;
      assert ops == ops[..n] + [ops[n]];
    }
  }

  lemma LapsedSnoc(v: View, ops: seq<Op>, op: Op, p: Part)
    requires Run(v, ops).Some?
    ensures (exists l: nat :: LapsedAt(v, ops + [op], p, l)) <==>
      (op.Settle? && Lapsing(v, ops, p)) || ((exists l: nat :: LapsedAt(v, ops, p, l)) && !Clears(Run(v, ops).value, op, p))
  {
    var more := ops + [op];
    assert more[..|ops|] == ops;
    assert ClearedAt(v, more, p, |ops|) <==> Clears(Run(v, ops).value, op, p);
    forall m: nat | m < |ops| ensures more[..m] == ops[..m] && (ClearedAt(v, more, p, m) <==> ClearedAt(v, ops, p, m)) {
      assert more[..m] == ops[..m];
    }
    hide ClearedAt, Lapsing, Clears, Run;
    forall l: nat | l < |ops| ensures LapsedAt(v, more, p, l) <==> LapsedAt(v, ops, p, l) && !ClearedAt(v, more, p, |ops|) {
    }
    assert LapsedAt(v, more, p, |ops|) <==> op.Settle? && Lapsing(v, ops, p);
    assert forall l: nat :: LapsedAt(v, more, p, l) ==> l <= |ops|;
    assert forall l: nat :: LapsedAt(v, ops, p, l) ==> l < |ops|;
    hide LapsedAt;
  }

  lemma {:induction false} LacksExactly(v: View, ops: seq<Op>, p: Part)
    requires Proper(v) && Backed(v) && v.hand.None? && Run(v, ops).Some?
    ensures Lacks(Run(v, ops).value, p) <==> exists l: nat :: LapsedAt(v, ops, p, l)
    decreases |ops|
  {
    if ops == [] {
      assert forall l: nat :: !LapsedAt(v, ops, p, l);
    } else {
      var n := |ops| - 1;
      LacksExactly(v, ops[..n], p);
      VanishedExactly(v, ops[..n], p);
      RunProper(v, ops[..n]);
      StepFacts(Run(v, ops[..n]).value, ops[n], p);
      LapsedSnoc(v, ops[..n], ops[n], p);
      hide Apply, Enabled, LapsedAt, Lapsing, Lacks, Clears, Vanished, Gone;
      assert ops == ops[..n] + [ops[n]];
    }
  }

  /** A run that starts with every ready block backed by its file, and nothing in hand,
      ends so exactly if no part was settled after its block had been removed and queued
      again behind the write, with neither a removal nor another write since. */
  lemma BackedExactly(v: View, ops: seq<Op>)
    requires Proper(v) && Backed(v) && v.hand.None? && Run(v, ops).Some?
    ensures Backed(Run(v, ops).value) <==> forall p, l: nat :: !LapsedAt(v, ops, p, l)
  {
    hide Run, LapsedAt, Lacks, Proper;
    forall p: Part ensures Lacks(Run(v, ops).value, p) <==> exists l: nat :: LapsedAt(v, ops, p, l) {
      LacksExactly(v, ops, p);
    }
    if Backed(Run(v, ops).value) {
      forall p: Part, l: nat ensures !LapsedAt(v, ops, p, l) { assert !Lacks(Run(v, ops).value, p); }
    }
  }

  // ---- runs, end to end -----------------------------------------------------------------

  /** Some run leads from one to the other. */
  ghost predicate Leads(v: View, w: View) {
    exists ops :: Run(v, ops) == Some(w)
  }

  lemma LeadsNowhere(v: View)
    ensures Leads(v, v)
  {
    assert Run(v, []) == Some(v);
  }

  lemma LeadsBy(v: View, w: View, op: Op)
    requires Leads(v, w) && Enabled(w, op)
    ensures Leads(v, Apply(w, op))
  {
    hide Apply, Enabled;
    var ops :| Run(v, ops) == Some(w);
    RunSnoc(v, ops, op);
  }

  lemma {:induction false} RunJoined(v: View, a: seq<Op>, b: seq<Op>)
    requires Run(v, a).Some?
    ensures Run(v, a + b) == Run(Run(v, a).value, b)
    decreases |b|
  {
    hide Apply, Enabled;
    if b == [] {
      assert a + b == a;
    } else {
      var n := |b| - 1;
      RunJoined(v, a, b[..n]);
      assert a + b == (a + b[..n]) + [b[n]];
      RunSnoc(v, a + b[..n], b[n]);
    }
  }

  lemma LeadsOn(u: View, v: View, w: View)
    requires Leads(u, v) && Leads(v, w)
    ensures Leads(u, w)
  {
    var a :| Run(u, a) == Some(v);
    var b :| Run(v, b) == Some(w);
    hide Run;
    RunJoined(u, a, b);
  }
}
