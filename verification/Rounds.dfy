/** The law of a whole stream: rounds of either sampled rule, one behind the other,
    emit tokens with the joint law of plain sampling from the target. */
module Rounds {
  import opened Collections
  import opened Rejection

  // ---- sample and match -------------------------------------------------------------

  /** Expectation over one sample of the target at every position of a chain and one
      behind it, independent of each other. */
  function Draws(p: Conditional, vocab: nat, prefix: seq<nat>, ds: seq<nat>, f: seq<nat> -> real): real
    decreases |ds|, 1
  {
    Sum(vocab, DrawsFrom(p, vocab, prefix, ds, f))
  }

  function DrawsFrom(p: Conditional, vocab: nat, prefix: seq<nat>, ds: seq<nat>, f: seq<nat> -> real): nat -> real
    decreases |ds|, 0
  {
    (x: nat) => Mul(p(prefix)(x), if ds == [] then f([x]) else Draws(p, vocab, prefix + [ds[0]], ds[1..], After(f, x)))
  }

  /** How many drafts the samples agree with. */
  function Matched(ds: seq<nat>, outs: seq<nat>): (n: nat)
    requires |outs| == |ds| + 1
    ensures n <= |ds|
  {
    if ds == [] || ds[0] != outs[0] then 0 else 1 + Matched(ds[1..], outs[1..])
  }

  /** The matching loop's own account of where it stops. */
  lemma {:induction false} MatchedExactly(ds: seq<nat>, outs: seq<nat>, n: nat)
    requires |outs| == |ds| + 1 && n <= |ds|
    ensures n == Matched(ds, outs) <==> ds[..n] == outs[..n] && (n < |ds| ==> ds[n] != outs[n])
    decreases |ds|
  {
    if ds != [] && n > 0 {
      MatchedExactly(ds[1..], outs[1..], n - 1);
      assert ds[..n] == [ds[0]] + ds[1..][..n - 1] && outs[..n] == [outs[0]] + outs[1..][..n - 1];
    }
    if ds != [] && n == 0 && ds[0] == outs[0] { assert Matched(ds, outs) > 0; }
  }

  /** What a round of exact match commits, and what comes after it by a law. */
  function MatchOf(rest: Law, prefix: seq<nat>, ds: seq<nat>, w: seq<nat>): seq<nat> -> real {
    (outs: seq<nat>) => if |outs| == |ds| + 1 then Continue(rest, prefix, outs[..Matched(ds, outs) + 1], w) else 0.0
  }

  lemma {:induction false} DrawsEq(p: Conditional, vocab: nat, prefix: seq<nat>, ds: seq<nat>, f: seq<nat> -> real, g: seq<nat> -> real)
    requires forall outs: seq<nat> :: |outs| == |ds| + 1 ==> f(outs) == g(outs)
    ensures Draws(p, vocab, prefix, ds, f) == Draws(p, vocab, prefix, ds, g)
    decreases |ds|
  {
    forall x: nat | x < vocab ensures DrawsFrom(p, vocab, prefix, ds, f)(x) == DrawsFrom(p, vocab, prefix, ds, g)(x) {
      if ds != [] { DrawsEq(p, vocab, prefix + [ds[0]], ds[1..], After(f, x), After(g, x)); }
    }
    SumEq(vocab, DrawsFrom(p, vocab, prefix, ds, f), DrawsFrom(p, vocab, prefix, ds, g));
  }

  /** Samples that do not matter. */
  lemma {:induction false} DrawsConst(p: Conditional, vocab: nat, prefix: seq<nat>, ds: seq<nat>, f: seq<nat> -> real, c: real)
    requires Laws(p, vocab) && forall outs: seq<nat> :: |outs| == |ds| + 1 ==> f(outs) == c
    ensures Draws(p, vocab, prefix, ds, f) == c
    decreases |ds|
  {
    forall x: nat | x < vocab ensures DrawsFrom(p, vocab, prefix, ds, f)(x) == Mul(c, p(prefix)(x)) {
      if ds != [] { DrawsConst(p, vocab, prefix + [ds[0]], ds[1..], After(f, x), c); }
    }
    SumScaled(vocab, c, p(prefix), DrawsFrom(p, vocab, prefix, ds, f));
    assert DenseLaw(p(prefix), vocab);
  }

  /** What the first sample leaves to come. */
  function Hit(p: Conditional, prefix: seq<nat>, w: seq<nat>, x: nat): real {
    if w == [] then 1.0 else if x == w[0] then Plain(p, prefix + [w[0]], w[1..]) else 0.0
  }

  ghost predicate InVocab(w: seq<nat>, vocab: nat) {
    forall i :: 0 <= i < |w| ==> w[i] < vocab
  }

  /** Exact match against the target's own samples is exact: for any draft chain at all,
      what it commits and the plain samples behind it have the joint law of plain
      sampling. */
  lemma {:induction false} MatchLawIsPlain(p: Conditional, vocab: nat, prefix: seq<nat>, ds: seq<nat>, w: seq<nat>)
    requires Laws(p, vocab) && InVocab(w, vocab)
    ensures Draws(p, vocab, prefix, ds, MatchOf(PlainLaw(p), prefix, ds, w)) == Plain(p, prefix, w)
    decreases |ds|
  {
    var f := MatchOf(PlainLaw(p), prefix, ds, w);
    hide Continue, Plain, Matched, Laws, InVocab;
    forall x: nat | x < vocab ensures DrawsFrom(p, vocab, prefix, ds, f)(x) == Mul(p(prefix)(x), Hit(p, prefix, w, x)) {
      if ds == [] {
        LastSample(p, prefix, w, x);
      } else {
        if x == ds[0] && w != [] && x == w[0] { TailInVocab(w, vocab); MatchLawIsPlain(p, vocab, prefix + [x], ds[1..], w[1..]); }
        FirstSample(p, vocab, prefix, ds, w, x);
      }
    }
    HitSum(p, vocab, prefix, w, DrawsFrom(p, vocab, prefix, ds, f));
  }

  lemma TailInVocab(w: seq<nat>, vocab: nat)
    requires InVocab(w, vocab) && w != []
    ensures InVocab(w[1..], vocab)
  {
  }

  lemma LastSample(p: Conditional, prefix: seq<nat>, w: seq<nat>, x: nat)
    ensures MatchOf(PlainLaw(p), prefix, [], w)([x]) == Hit(p, prefix, w, x)
  {
    var none: seq<nat> := [];
    assert [x][..Matched(none, [x]) + 1] == [x];
    if w != [] { ContinueFirst(p, prefix, x, w); }
  }

  lemma FirstSample(p: Conditional, vocab: nat, prefix: seq<nat>, ds: seq<nat>, w: seq<nat>, x: nat)
    requires Laws(p, vocab) && ds != []
    requires x == ds[0] && w != [] && x == w[0] ==>
      Draws(p, vocab, prefix + [x], ds[1..], MatchOf(PlainLaw(p), prefix + [x], ds[1..], w[1..])) == Plain(p, prefix + [x], w[1..])
    ensures Draws(p, vocab, prefix + [ds[0]], ds[1..], After(MatchOf(PlainLaw(p), prefix, ds, w), x)) == Hit(p, prefix, w, x)
  {
    hide Plain, Laws, Draws;
    var f := After(MatchOf(PlainLaw(p), prefix, ds, w), x);
    if x == ds[0] && w != [] && x == w[0] {
      var g := MatchOf(PlainLaw(p), prefix + [x], ds[1..], w[1..]);
      forall outs: seq<nat> | |outs| == |ds[1..]| + 1 ensures f(outs) == g(outs) {
        AgreedSample(p, prefix, ds, w, x, outs);
      }
      DrawsEq(p, vocab, prefix + [x], ds[1..], f, g);
    } else {
      forall outs: seq<nat> | |outs| == |ds[1..]| + 1 ensures f(outs) == Hit(p, prefix, w, x) {
        if x == ds[0] { AgreedSample(p, prefix, ds, w, x, outs); } else { OtherSample(p, prefix, ds, w, x, outs); }
      }
      DrawsConst(p, vocab, prefix + [ds[0]], ds[1..], f, Hit(p, prefix, w, x));
    }
  }

  lemma AgreedSample(p: Conditional, prefix: seq<nat>, ds: seq<nat>, w: seq<nat>, x: nat, outs: seq<nat>)
    requires ds != [] && x == ds[0] && |outs| == |ds|
    ensures MatchOf(PlainLaw(p), prefix, ds, w)([x] + outs) ==
      if w == [] then 1.0 else if w[0] == x then MatchOf(PlainLaw(p), prefix + [x], ds[1..], w[1..])(outs) else 0.0
  {
    hide Plain, Continue;
    var all, n := [x] + outs, Matched(ds[1..], outs);
    assert all[1..] == outs && all[0] == x && Matched(ds, all) == 1 + n;
    assert all[..n + 2] == [x] + outs[..n + 1];
    ContinuePeel(PlainLaw(p), prefix, x, outs[..n + 1], w);
  }

  lemma OtherSample(p: Conditional, prefix: seq<nat>, ds: seq<nat>, w: seq<nat>, x: nat, outs: seq<nat>)
    requires ds != [] && x != ds[0] && |outs| == |ds|
    ensures MatchOf(PlainLaw(p), prefix, ds, w)([x] + outs) == Hit(p, prefix, w, x)
  {
    var all := [x] + outs;
    assert all[0] == x && Matched(ds, all) == 0 && all[..1] == [x];
    if w != [] { ContinueFirst(p, prefix, x, w); }
  }

  lemma HitSum(p: Conditional, vocab: nat, prefix: seq<nat>, w: seq<nat>, f: nat -> real)
    requires Laws(p, vocab) && InVocab(w, vocab)
    requires forall x: nat :: x < vocab ==> f(x) == Mul(p(prefix)(x), Hit(p, prefix, w, x))
    ensures Sum(vocab, f) == Plain(p, prefix, w)
  {
    assert DenseLaw(p(prefix), vocab);
    if w == [] { SumEq(vocab, f, p(prefix)); } else { SumPoint(vocab, f, w[0]); }
  }

  // ---- round behind round -------------------------------------------------------------

  /** How a round proposes: a chain drawn from the proposal rows and judged by
      rejection, or any guess and exact match. */
  datatype Plan = Chain(k: nat) | Guess(ds: seq<nat>)

  /** One round behind a prefix, and what comes after it by a law. */
  function Round(rest: Law, target: seq<nat> -> Row, draft: seq<nat> -> Row, vocab: nat, plan: Plan, prefix: seq<nat>, w: seq<nat>): real {
    match plan
    case Chain(k) => Expect(DenseOf(draft), vocab, prefix, k, AcceptOf(rest, target, draft, vocab, prefix, w))
    case Guess(ds) => Draws(DenseOf(target), vocab, prefix, ds, MatchOf(rest, prefix, ds, w))
  }

  /** Probability that what n rounds emit, each planned on what the ones before it
      emitted, begins with w. */
  function Emitted(n: nat, target: seq<nat> -> Row, draft: seq<nat> -> Row, vocab: nat, plan: seq<nat> -> Plan,
                   prefix: seq<nat>, w: seq<nat>): real
    decreases n, 0
  {
    if n == 0 then (if w == [] then 1.0 else 0.0)
    else Round(EmittedLaw(n - 1, target, draft, vocab, plan), target, draft, vocab, plan(prefix), prefix, w)
  }

  function EmittedLaw(n: nat, target: seq<nat> -> Row, draft: seq<nat> -> Row, vocab: nat, plan: seq<nat> -> Plan): Law
    decreases n, 1
  {
    (prefix: seq<nat>, w: seq<nat>) => Emitted(n, target, draft, vocab, plan, prefix, w)
  }

  ghost predicate AllLaws(rows: seq<nat> -> Row, vocab: nat) {
    forall x :: IsLaw(rows(x), vocab)
  }

  lemma RoundIsPlain(target: seq<nat> -> Row, draft: seq<nat> -> Row, vocab: nat, plan: Plan, prefix: seq<nat>, w: seq<nat>)
    requires AllLaws(target, vocab) && AllLaws(draft, vocab) && InVocab(w, vocab)
    ensures Round(PlainLaw(DenseOf(target)), target, draft, vocab, plan, prefix, w) == Plain(DenseOf(target), prefix, w)
  {
    RowLaws(target, vocab);
    hide Expect, Draws, Plain, Laws, IsLaw, DenseOf;
    match plan
    case Chain(k) => AcceptLawIsPlain(target, draft, vocab, prefix, k, w);
    case Guess(ds) => MatchLawIsPlain(DenseOf(target), vocab, prefix, ds, w);
  }

  /** The laws agree on every run shorter than w. */
  ghost predicate Shorter(a: Law, b: Law, vocab: nat, w: seq<nat>) {
    forall x, v: seq<nat> :: |v| < |w| && InVocab(v, vocab) ==> a(x, v) == b(x, v)
  }

  /** A round commits a token at least, so only shorter runs are left to come. */
  lemma ContinueSame(a: Law, b: Law, vocab: nat, prefix: seq<nat>, committed: seq<nat>, w: seq<nat>)
    requires committed != [] && InVocab(w, vocab) && Shorter(a, b, vocab, w)
    ensures Continue(a, prefix, committed, w) == Continue(b, prefix, committed, w)
  {
    if |w| > |committed| { assert InVocab(w[|committed|..], vocab); }
  }

  lemma AcceptSame(a: Law, b: Law, vocab: nat, prefix: seq<nat>, ds: seq<nat>, ps: seq<Row>, qs: seq<Row>, w: seq<nat>)
    requires |ps| == |ds| + 1 && |qs| == |ds| && InVocab(w, vocab) && Shorter(a, b, vocab, w)
    ensures AcceptOutcome(a, vocab, prefix, ds, ps, qs, w) == AcceptOutcome(b, vocab, prefix, ds, ps, qs, w)
  {
    hide Continue, Measure, Sides, RowAt, Drawn, InVocab, Shorter;
    forall s: nat | s <= |ds| ensures StopTerm(a, vocab, prefix, ds, ps, qs, w)(s) == StopTerm(b, vocab, prefix, ds, ps, qs, w)(s) {
      var row := RowAt(ps, qs, s);
      var f, g := DrawnThen(a, prefix, ds[..s], row, w), DrawnThen(b, prefix, ds[..s], row, w);
      forall t: nat ensures f(t) == g(t) { ContinueSame(a, b, vocab, prefix, ds[..s] + [t], w); }
      SumEq(vocab, f, g);
    }
    SumEq(|ds| + 1, StopTerm(a, vocab, prefix, ds, ps, qs, w), StopTerm(b, vocab, prefix, ds, ps, qs, w));
  }

  lemma RoundSame(a: Law, b: Law, target: seq<nat> -> Row, draft: seq<nat> -> Row, vocab: nat, plan: Plan, prefix: seq<nat>, w: seq<nat>)
    requires AllLaws(draft, vocab) && InVocab(w, vocab) && Shorter(a, b, vocab, w)
    ensures Round(a, target, draft, vocab, plan, prefix, w) == Round(b, target, draft, vocab, plan, prefix, w)
  {
    hide IsLaw, InVocab, Shorter, AcceptOutcome, Continue, Expect, Draws, DenseOf, RowsAlong;
    match plan
    case Chain(k) =>
      var f, g := AcceptOf(a, target, draft, vocab, prefix, w), AcceptOf(b, target, draft, vocab, prefix, w);
      forall ds: seq<nat> ensures f(ds) == Mul(1.0, g(ds)) + 0.0 {
        AcceptSame(a, b, vocab, prefix, ds, RowsAlong(target, prefix, ds, |ds| + 1), RowsAlong(draft, prefix, ds, |ds|), w);
      }
      RowLaws(draft, vocab);
      ExpectAffine(DenseOf(draft), vocab, prefix, k, 1.0, g, 0.0, f);
    case Guess(ds) =>
      var f, g := MatchOf(a, prefix, ds, w), MatchOf(b, prefix, ds, w);
      forall outs: seq<nat> | |outs| == |ds| + 1 ensures f(outs) == g(outs) {
        ContinueSame(a, b, vocab, prefix, outs[..Matched(ds, outs) + 1], w);
      }
      DrawsEq(DenseOf(target), vocab, prefix, ds, f, g);
  }

  /** A stream of speculative rounds is a plain sample of the target: after as many
      rounds as the run is long, whatever each of them proposes and by either rule, the
      emitted tokens begin with it as probably as plain sampling does. */
  lemma {:induction false} RoundsArePlain(n: nat, target: seq<nat> -> Row, draft: seq<nat> -> Row, vocab: nat, plan: seq<nat> -> Plan,
                                          prefix: seq<nat>, w: seq<nat>)
    requires AllLaws(target, vocab) && AllLaws(draft, vocab) && InVocab(w, vocab) && |w| <= n
    ensures Emitted(n, target, draft, vocab, plan, prefix, w) == Plain(DenseOf(target), prefix, w)
    decreases n, 0
  {
    if n > 0 {
      EmittedIsRound(n, target, draft, vocab, plan, prefix, w);
      hide AllLaws, Round, DenseOf, Plain, InVocab, Emitted, Shorter;
      EmittedShorter(n - 1, target, draft, vocab, plan, w);
      RoundSame(EmittedLaw(n - 1, target, draft, vocab, plan), PlainLaw(DenseOf(target)), target, draft, vocab, plan(prefix), prefix, w);
      RoundIsPlain(target, draft, vocab, plan(prefix), prefix, w);
    }
  }

  lemma EmittedIsRound(n: nat, target: seq<nat> -> Row, draft: seq<nat> -> Row, vocab: nat, plan: seq<nat> -> Plan,
                       prefix: seq<nat>, w: seq<nat>)
    requires n > 0
    ensures Emitted(n, target, draft, vocab, plan, prefix, w)
         == Round(EmittedLaw(n - 1, target, draft, vocab, plan), target, draft, vocab, plan(prefix), prefix, w)
  {
    hide Round;
  }

  lemma {:induction false} EmittedShorter(n: nat, target: seq<nat> -> Row, draft: seq<nat> -> Row, vocab: nat, plan: seq<nat> -> Plan,
                                          w: seq<nat>)
    requires AllLaws(target, vocab) && AllLaws(draft, vocab) && |w| <= n + 1
    ensures Shorter(EmittedLaw(n, target, draft, vocab, plan), PlainLaw(DenseOf(target)), vocab, w)
    decreases n, 1
  {
    hide AllLaws, DenseOf, Plain, InVocab, Emitted;
    forall x: seq<nat>, v: seq<nat> | |v| < |w| && InVocab(v, vocab)
      ensures EmittedLaw(n, target, draft, vocab, plan)(x, v) == PlainLaw(DenseOf(target))(x, v)
    {
      RoundsArePlain(n, target, draft, vocab, plan, x, v);
    }
  }
}
