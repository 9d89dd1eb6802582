/** Rejection sampling with residual correction over sparse rows, and the law of
    the tokens it commits. Probabilities are exact reals. */
module Rejection {
  import opened Collections

  // ---- finite sums ----------------------------------------------------------

  function Sum(n: nat, f: nat -> real): real {
    if n == 0 then 0.0 else Sum(n - 1, f) + f(n - 1)
  }

  lemma {:induction false} SumEq(n: nat, f: nat -> real, g: nat -> real)
    requires forall i: nat :: i < n ==> f(i) == g(i)
    ensures Sum(n, f) == Sum(n, g)
  {
    if n > 0 { SumEq(n - 1, f, g); }
  }

  lemma Distribute(a: real, x: real, y: real)
    ensures a * (x + y) == a * x + a * y
  {
  }

  /** a f + b g, summed. */
  lemma {:induction false} SumLinear(n: nat, a: real, f: nat -> real, b: real, g: nat -> real, h: nat -> real)
    requires forall i: nat :: i < n ==> h(i) == a * f(i) + b * g(i)
    ensures Sum(n, h) == a * Sum(n, f) + b * Sum(n, g)
  {
    if n > 0 {
      SumLinear(n - 1, a, f, b, g, h);
      Distribute(a, Sum(n - 1, f), f(n - 1));
      Distribute(b, Sum(n - 1, g), g(n - 1));
      assert h(n - 1) == a * f(n - 1) + b * g(n - 1);
      assert a * Sum(n, f) == a * Sum(n - 1, f) + a * f(n - 1);
      assert b * Sum(n, g) == b * Sum(n - 1, g) + b * g(n - 1);
    }
  }

  lemma {:induction false} SumBounds(n: nat, f: nat -> real, k: nat)
    requires k < n && forall i: nat :: i < n ==> f(i) >= 0.0
    ensures 0.0 <= f(k) <= Sum(n, f)
    decreases n
  {
    if k < n - 1 {
      SumBounds(n - 1, f, k);
    } else if n > 1 {
      SumBounds(n - 1, f, 0);
    }
  }

  /** A sum with one term that differs from zero. */
  lemma {:induction false} SumPoint(n: nat, f: nat -> real, k: nat)
    requires forall i: nat :: i < n && i != k ==> f(i) == 0.0
    ensures Sum(n, f) == if k < n then f(k) else 0.0
  {
    if n > 0 { SumPoint(n - 1, f, k); }
  }

  // ---- rows -----------------------------------------------------------------

  /** A support: token ids with their probabilities, no id twice. */
  type Row = seq<(nat, real)>

  predicate NoRepeats(row: Row) {
    forall i, j :: 0 <= i < j < |row| ==> row[i].0 != row[j].0
  }

  function Mass(row: Row): real {
    if row == [] then 0.0 else row[0].1 + Mass(row[1..])
  }

  predicate IsLaw(row: Row, vocab: nat) {
    && NoRepeats(row) && Mass(row) == 1.0
    && forall i :: 0 <= i < |row| ==> row[i].0 < vocab && row[i].1 >= 0.0
  }

  /** The probability a row gives a token; zero off the support. */
  function Prob(row: Row, t: nat): real {
    if row == [] then 0.0 else if row[0].0 == t then row[0].1 else Prob(row[1..], t)
  }

  function Dense(row: Row): nat -> real {
    (t: nat) => Prob(row, t)
  }

  lemma {:induction false} ProbAt(row: Row, t: nat)
    requires NoRepeats(row)
    ensures (exists i :: 0 <= i < |row| && row[i].0 == t && Prob(row, t) == row[i].1)
         || (Prob(row, t) == 0.0 && forall i :: 0 <= i < |row| ==> row[i].0 != t)
  {
    if row != [] && row[0].0 != t {
      ProbAt(row[1..], t);
      if i :| 0 <= i < |row[1..]| && row[1..][i].0 == t && Prob(row[1..], t) == row[1..][i].1 {
        assert row[i + 1].0 == t;
      }
    }
  }

  lemma {:induction false} ProbIndex(row: Row, i: nat)
    requires NoRepeats(row) && i < |row|
    ensures Prob(row, row[i].0) == row[i].1
  {
    if i > 0 {
      ProbIndex(row[1..], i - 1);
    }
  }

  lemma {:induction false} DenseMass(row: Row, vocab: nat)
    requires NoRepeats(row) && forall i :: 0 <= i < |row| ==> row[i].0 < vocab
    ensures Sum(vocab, Dense(row)) == Mass(row)
  {
    if row == [] {
      SumPoint(vocab, Dense(row), vocab);
    } else {
      var head := row[0].0;
      var point := (t: nat) => if t == head then row[0].1 else 0.0;
      DenseMass(row[1..], vocab);
      ProbAt(row[1..], head);
      SumPoint(vocab, point, head);
      SumLinear(vocab, 1.0, point, 1.0, Dense(row[1..]), Dense(row));
    }
  }

  lemma {:induction false} NonNegMass(row: Row)
    requires forall i :: 0 <= i < |row| ==> row[i].1 >= 0.0
    ensures Mass(row) >= 0.0
  {
    if row != [] { NonNegMass(row[1..]); }
  }

  // ---- shaping a row: top-p and renormalization -----------------------------

  /** Candidate j sorts before candidate i: descending, stable. */
  predicate SortsBefore(ps: seq<real>, j: nat, i: nat)
    requires i < |ps| && j < |ps|
  {
    ps[j] > ps[i] || (ps[j] == ps[i] && j < i)
  }

  /** Mass of the candidates among the first n that sort before candidate i. */
  function Ahead(ps: seq<real>, i: nat, n: nat): real
    requires i < |ps| && n <= |ps|
  {
    if n == 0 then 0.0 else Ahead(ps, i, n - 1) + (if SortsBefore(ps, n - 1, i) then ps[n - 1] else 0.0)
  }

  /** The cutoff lets candidate i pass: a top-p of zero switches it off. */
  predicate GetsBy(ps: seq<real>, topP: real, i: nat)
    requires i < |ps|
  {
    topP == 0.0 || Ahead(ps, i, |ps|) < topP
  }

  function Cut(ps: seq<real>, topP: real, i: nat): real
    requires i < |ps|
  {
    if GetsBy(ps, topP, i) then ps[i] else 0.0
  }

  /** What the kept candidates among the first n weigh. */
  function MassOf(ps: seq<real>, kept: set<nat>, n: nat): (mass: real)
    requires n <= |ps| && forall i :: 0 <= i < n ==> ps[i] >= 0.0
    ensures mass >= 0.0
  {
    if n == 0 then 0.0 else MassOf(ps, kept, n - 1) + (if n - 1 in kept then ps[n - 1] else 0.0)
  }

  /** The smallest set of candidates, the likeliest first and the earlier first among
      equals, that weighs top-p; all of them where that is zero or out of reach, and
      none where it is negative. */
  ghost predicate Nucleus(ps: seq<real>, topP: real, kept: set<nat>)
    requires forall i :: 0 <= i < |ps| ==> ps[i] >= 0.0
  {
    && (forall i :: i in kept ==> i < |ps|)
    && (topP == 0.0 ==> forall i: nat :: i < |ps| ==> i in kept)
    && (topP != 0.0 ==>
      && (forall i: nat, j: nat :: i in kept && j < |ps| && j !in kept ==> ps[i] > ps[j] || (ps[i] == ps[j] && i < j))
      && (MassOf(ps, kept, |ps|) >= topP || forall i: nat :: i < |ps| ==> i in kept)
      && (forall i: nat :: i in kept && Last(ps, kept, i) ==> MassOf(ps, kept, |ps|) - ps[i] < topP))
  }

  /** No kept candidate comes behind i. */
  ghost predicate Last(ps: seq<real>, kept: set<nat>, i: nat)
    requires i < |ps| && forall k :: k in kept ==> k < |ps|
  {
    forall k: nat :: k in kept && k != i ==> ps[k] > ps[i] || (ps[k] == ps[i] && k < i)
  }

  lemma {:induction false} AheadGrows(ps: seq<real>, j: nat, i: nat, n: nat)
    requires i < |ps| && j < |ps| && n <= |ps| && SortsBefore(ps, j, i)
    requires forall k :: 0 <= k < |ps| ==> ps[k] >= 0.0
    ensures Ahead(ps, j, n) <= Ahead(ps, i, n)
  {
    if n > 0 { AheadGrows(ps, j, i, n - 1); }
  }

  /** If exactly the kept candidates, but for i itself, come before i, their mass is
      what is ahead of it. */
  lemma {:induction false} AheadIsKept(ps: seq<real>, kept: set<nat>, i: nat, n: nat)
    requires i < |ps| && n <= |ps| && forall k :: 0 <= k < |ps| ==> ps[k] >= 0.0
    requires forall k: nat :: k < |ps| && k != i ==> (k in kept <==> SortsBefore(ps, k, i))
    ensures MassOf(ps, kept, n) == Ahead(ps, i, n) + if i < n && i in kept then ps[i] else 0.0
  {
    if n > 0 { AheadIsKept(ps, kept, i, n - 1); }
  }

  /** Among the first n candidates left out there is one before all others. */
  lemma {:induction false} FirstLeftOut(ps: seq<real>, kept: set<nat>, n: nat) returns (j: nat)
    requires n <= |ps| && exists i: nat :: i < n && i !in kept
    ensures j < n && j !in kept && forall k: nat :: k < n && k !in kept && k != j ==> SortsBefore(ps, j, k)
  {
    if exists i: nat :: i < n - 1 && i !in kept {
      j := FirstLeftOut(ps, kept, n - 1);
      if n - 1 !in kept && SortsBefore(ps, n - 1, j) { j := n - 1; }
    } else {
      j := n - 1;
    }
  }

  function Survivors(ps: seq<real>, topP: real): set<nat> {
    set i: nat | i < |ps| && GetsBy(ps, topP, i)
  }

  /** What passes the cutoff is the nucleus. */
  lemma SurvivorsAreNucleus(ps: seq<real>, topP: real)
    requires forall i :: 0 <= i < |ps| ==> ps[i] >= 0.0
    ensures Nucleus(ps, topP, Survivors(ps, topP))
  {
    var kept := Survivors(ps, topP);
    if topP != 0.0 {
      hide Ahead, MassOf;
      forall i: nat, j: nat | i in kept && j < |ps| && j !in kept ensures SortsBefore(ps, i, j) {
        if SortsBefore(ps, j, i) { AheadGrows(ps, j, i, |ps|); }
      }
      if j: nat :| j < |ps| && j !in kept {
        var first := FirstLeftOut(ps, kept, |ps|);
        AheadIsKept(ps, kept, first, |ps|);
      }
      forall i: nat | i in kept && Last(ps, kept, i) ensures MassOf(ps, kept, |ps|) - ps[i] < topP {
        forall k: nat | k < |ps| && k != i ensures k in kept <==> SortsBefore(ps, k, i) {
          if SortsBefore(ps, k, i) { AheadGrows(ps, k, i, |ps|); }
        }
        AheadIsKept(ps, kept, i, |ps|);
      }
    }
  }

  lemma {:induction false} MassLess(ps: seq<real>, a: set<nat>, b: set<nat>, x: nat, n: nat)
    requires n <= |ps| && forall k :: 0 <= k < |ps| ==> ps[k] >= 0.0
    requires a <= b && x in b && x !in a
    ensures MassOf(ps, a, n) <= MassOf(ps, b, n) - if x < n then ps[x] else 0.0
  {
    if n > 0 { MassLess(ps, a, b, x, n - 1); }
  }

  lemma {:induction false} LastOf(ps: seq<real>, kept: set<nat>) returns (i: nat)
    requires kept != {} && forall k :: k in kept ==> k < |ps|
    ensures i in kept && Last(ps, kept, i)
    decreases |kept|
  {
    var x :| x in kept;
    i := x;
    if kept - {x} != {} {
      var y := LastOf(ps, kept - {x});
      if SortsBefore(ps, x, y) { i := y; }
    }
  }

  lemma NucleusWithin(ps: seq<real>, topP: real, a: set<nat>, b: set<nat>)
    requires forall i :: 0 <= i < |ps| ==> ps[i] >= 0.0
    requires Nucleus(ps, topP, a) && Nucleus(ps, topP, b) && a <= b
    ensures a == b
  {
    hide MassOf;
    if topP != 0.0 && b != {} {
      var last := LastOf(ps, b);
      if last in a {
        assert forall x :: x in b ==> x in a;
      } else {
        MassLess(ps, a, b, last, |ps|);
      }
    }
  }

  /** A row has one nucleus. */
  lemma NucleusOnce(ps: seq<real>, topP: real, a: set<nat>, b: set<nat>)
    requires forall i :: 0 <= i < |ps| ==> ps[i] >= 0.0
    requires Nucleus(ps, topP, a) && Nucleus(ps, topP, b)
    ensures a == b
  {
    hide MassOf, Last;
    if topP != 0.0 && !(a <= b) {
      var x :| x in a && x !in b;
      assert b <= a;
    }
    if a <= b {
      NucleusWithin(ps, topP, a, b);
    } else if b <= a {
      NucleusWithin(ps, topP, b, a);
    }
  }

  lemma {:induction false} MassScaled(a: Row, b: Row, c: real)
    requires |a| == |b| && forall i :: 0 <= i < |a| ==> b[i].1 == Mul(c, a[i].1)
    ensures Mass(b) == Mul(c, Mass(a))
  {
    if a != [] {
      MassScaled(a[1..], b[1..], c);
      Distribute(c, a[0].1, Mass(a[1..]));
    }
  }

  lemma {:induction false} MassSnoc(a: Row, x: (nat, real))
    ensures Mass(a + [x]) == Mass(a) + x.1
  {
    if a != [] {
      MassSnoc(a[1..], x);
      assert (a + [x])[1..] == a[1..] + [x];
    }
  }

  lemma {:induction false} MassConstant(a: Row, c: real)
    requires forall i :: 0 <= i < |a| ==> a[i].1 == c
    ensures Mass(a) == Mul(|a| as real, c)
  {
    if a != [] {
      MassConstant(a[1..], c);
      assert |a| as real == |a[1..]| as real + 1.0;
    }
  }

  /** A shaped row is a law: the nucleus over its own mass, or the flat row when the
      nucleus has no mass. */
  method ShapeRow(ids: seq<nat>, ps: seq<real>, topP: real, vocab: nat) returns (row: Row, ghost kept: set<nat>)
    requires |ids| == |ps| > 0
    requires forall i, j :: 0 <= i < j < |ids| ==> ids[i] != ids[j]
    requires forall i :: 0 <= i < |ids| ==> ids[i] < vocab && ps[i] >= 0.0
    ensures IsLaw(row, vocab) && |row| == |ids|
    ensures forall i :: 0 <= i < |ids| ==> row[i].0 == ids[i]
    ensures Nucleus(ps, topP, kept)
    ensures MassOf(ps, kept, |ps|) > 0.0 ==> forall i: nat :: i < |ids| ==>
      row[i].1 == if i in kept then ps[i] / MassOf(ps, kept, |ps|) else 0.0
    ensures MassOf(ps, kept, |ps|) == 0.0 ==> forall i :: 0 <= i < |ids| ==> row[i].1 == 1.0 / |ids| as real
  {
    hide GetsBy, Nucleus, IsLaw, NoRepeats, MassOf;
    kept := Survivors(ps, topP);
    SurvivorsAreNucleus(ps, topP);
    var cut, total := CutRow(ids, ps, topP, kept);
    row := Normalized(ids, cut, total);
    LawOf(row, vocab);
  }

  /** What the cutoff leaves of every candidate, and of them all. */
  method CutRow(ids: seq<nat>, ps: seq<real>, topP: real, ghost kept: set<nat>) returns (cut: Row, total: real)
    requires |ids| == |ps| && kept == Survivors(ps, topP) && forall i :: 0 <= i < |ps| ==> ps[i] >= 0.0
    ensures |cut| == |ids| && total == Mass(cut) == MassOf(ps, kept, |ps|)
    ensures forall j: nat :: j < |ids| ==> cut[j] == (ids[j], if j in kept then ps[j] else 0.0)
  {
    hide GetsBy;
    cut, total := [], 0.0;
    for i := 0 to |ids|
      invariant |cut| == i && total == Mass(cut) == MassOf(ps, kept, i)
      invariant forall j: nat :: j < i ==> cut[j] == (ids[j], if j in kept then ps[j] else 0.0)
    {
      MassSnoc(cut, (ids[i], Cut(ps, topP, i)));
      cut := cut + [(ids[i], Cut(ps, topP, i))];
      total := total + Cut(ps, topP, i);
    }
  }

  /** A row over its own mass, or flat if it has none. */
  method Normalized(ids: seq<nat>, cut: Row, total: real) returns (row: Row)
    requires |cut| == |ids| > 0 && total == Mass(cut) >= 0.0
    requires forall i :: 0 <= i < |cut| ==> cut[i].1 >= 0.0
    ensures |row| == |ids| && Mass(row) == 1.0
    ensures forall i :: 0 <= i < |ids| ==> row[i].0 == ids[i] && row[i].1 >= 0.0
    ensures forall i :: 0 <= i < |ids| ==> row[i].1 == if total > 0.0 then cut[i].1 / total else 1.0 / |ids| as real
  {
    hide Mass;
    var n := |ids| as real;
    if total > 0.0 {
      row := seq(|ids|, i requires 0 <= i < |ids| && |cut| == |ids| && total > 0.0 => (ids[i], cut[i].1 / total));
      ScaledDown(cut, row, total);
    } else {
      row := seq(|ids|, i requires 0 <= i < |ids| && n > 0.0 => (ids[i], 1.0 / n));
      FlatMass(row);
    }
  }

  lemma LawOf(row: Row, vocab: nat)
    requires Mass(row) == 1.0 && forall i :: 0 <= i < |row| ==> row[i].0 < vocab && row[i].1 >= 0.0
    requires forall i, j :: 0 <= i < j < |row| ==> row[i].0 != row[j].0
    ensures IsLaw(row, vocab)
  {
  }

  lemma FlatMass(row: Row)
    requires row != [] && forall i :: 0 <= i < |row| ==> row[i].1 == 1.0 / |row| as real
    ensures Mass(row) == 1.0
  {
    MassConstant(row, 1.0 / |row| as real);
    Cancel(|row| as real, 1.0);
  }

  lemma ScaledDown(cut: Row, row: Row, total: real)
    requires total == Mass(cut) && total > 0.0 && |row| == |cut|
    requires forall i :: 0 <= i < |cut| ==> cut[i].1 >= 0.0 && row[i].1 == cut[i].1 / total
    ensures Mass(row) == 1.0 && forall i :: 0 <= i < |row| ==> row[i].1 >= 0.0
  {
    hide Mass, Mul;
    forall i | 0 <= i < |row| ensures cut[i].1 == Mul(total, row[i].1) && row[i].1 >= 0.0 {
      OneScaledDown(cut[i].1, total);
    }
    MassScaled(row, cut, total);
    Unit(total, Mass(row));
  }

  lemma OneScaledDown(x: real, total: real)
    requires x >= 0.0 && total > 0.0
    ensures x == Mul(total, x / total) && x / total >= 0.0
  {
    Cancel(total, x);
    Quotient(x, total);
  }

  lemma Unit(x: real, y: real)
    requires x > 0.0 && Mul(x, y) == x
    ensures y == 1.0
  {
    assert x * (y - 1.0) == 0.0;
  }

  lemma Quotient(x: real, y: real)
    requires x >= 0.0 && y > 0.0
    ensures x / y >= 0.0
  {
  }

  // ---- the acceptance rule --------------------------------------------------

  function Pos(x: real): real { if x > 0.0 then x else 0.0 }

  function Ratio(p: real, q: real): (r: real)
    ensures p >= 0.0 ==> 0.0 <= r <= 1.0
  {
    if q <= 0.0 then 0.0 else if p / q < 1.0 then p / q else 1.0
  }

  /** A draft's chance to pass: none where the drafter could not have drawn it, all where
      the target is at least as likely to, and else the quotient. */
  lemma RatioIs(p: real, q: real)
    ensures q <= 0.0 ==> Ratio(p, q) == 0.0
    ensures 0.0 < q <= p ==> Ratio(p, q) == 1.0
    ensures 0.0 < q && p < q ==> Ratio(p, q) * q == p
  {
  }

  function Excess(p: nat -> real, q: nat -> real): nat -> real {
    (t: nat) => Pos(p(t) - q(t))
  }

  /** The dense rule's distribution for the token behind a rejection. */
  function Correction(p: nat -> real, q: nat -> real, vocab: nat, t: nat): real {
    var total := Sum(vocab, Excess(p, q));
    if total <= 0.0 then p(t) else Pos(p(t) - q(t)) / total
  }

  /** A row drawn from after normalizing it, as the host generator does. */
  function Drawn(row: Row, t: nat): real {
    if Mass(row) == 0.0 then 0.0 else Prob(row, t) / Mass(row)
  }

  /** The residual over P's support. */
  function Residual(p: Row, q: Row): Row {
    seq(|p|, i requires 0 <= i < |p| => (p[i].0, Pos(p[i].1 - Prob(q, p[i].0))))
  }

  function CorrectionRow(p: Row, q: Row): Row {
    if Mass(Residual(p, q)) <= 0.0 then p else Residual(p, q)
  }

  /** The residual dictionary: P's probabilities, lowered by Q's where Q has them. */
  method BuildResidual(p: Row, q: Row) returns (r: Row)
    requires NoRepeats(p) && NoRepeats(q)
    requires forall i :: 0 <= i < |p| ==> p[i].1 >= 0.0
    requires forall i :: 0 <= i < |q| ==> q[i].1 >= 0.0
    ensures r == Residual(p, q)
  {
    r := p;
    for k := 0 to |q|
      invariant |r| == |p|
      invariant forall i :: 0 <= i < |p| ==> r[i].0 == p[i].0
      invariant forall i :: 0 <= i < |p| ==>
        r[i].1 == if exists j :: 0 <= j < k && q[j].0 == p[i].0 then Pos(p[i].1 - Prob(q, p[i].0)) else p[i].1
    {
      ProbIndex(q, k);
      ghost var before := r;
      var hit := 0;
      while hit < |r| && r[hit].0 != q[k].0
        invariant hit <= |r| && forall i :: 0 <= i < hit ==> r[i].0 != q[k].0
      {
        hit := hit + 1;
      }
      if hit < |r| {
        r := r[hit := (r[hit].0, Pos(r[hit].1 - q[k].1))];
      }
      forall i | 0 <= i < |p|
        ensures r[i].1 == if exists j :: 0 <= j < k + 1 && q[j].0 == p[i].0
                          then Pos(p[i].1 - Prob(q, p[i].0)) else p[i].1
      {
        if i == hit {
          assert q[k].0 == p[i].0;
        } else {
          assert r[i] == before[i];
          assert q[k].0 != p[i].0;
        }
      }
    }
    forall i | 0 <= i < |p| ensures r[i] == Residual(p, q)[i] {
      ProbAt(q, p[i].0);
    }
  }

  /** Where the loop stops and which row the last token is drawn from, for the
      uniforms it read. */
  function Verdict(drafts: seq<nat>, ps: seq<Row>, qs: seq<Row>, us: seq<real>): (r: (nat, Row))
    requires |ps| == |drafts| + 1 && |qs| == |us| == |drafts|
    ensures r.0 <= |drafts|
  {
    if drafts == [] then (0, ps[0])
    else if us[0] < Ratio(Prob(ps[0], drafts[0]), Prob(qs[0], drafts[0])) then
      var rest := Verdict(drafts[1..], ps[1..], qs[1..], us[1..]);
      (rest.0 + 1, rest.1)
    else (0, CorrectionRow(ps[0], qs[0]))
  }

  /** The uniform that draft i reads lets it pass. */
  predicate Passes(drafts: seq<nat>, ps: seq<Row>, qs: seq<Row>, us: seq<real>, i: nat)
    requires i < |drafts| && |ps| == |drafts| + 1 && |qs| == |us| == |drafts|
  {
    us[i] < Ratio(Prob(ps[i], drafts[i]), Prob(qs[i], drafts[i]))
  }

  /** The row the last token is drawn from when the loop stops at a. */
  function RowAt(ps: seq<Row>, qs: seq<Row>, a: nat): Row
    requires a < |ps| == |qs| + 1
  {
    if a < |qs| then CorrectionRow(ps[a], qs[a]) else ps[a]
  }

  /** The loop stops at the first draft that does not pass, or behind the last. */
  lemma {:induction false} VerdictStops(drafts: seq<nat>, ps: seq<Row>, qs: seq<Row>, us: seq<real>)
    requires |ps| == |drafts| + 1 && |qs| == |us| == |drafts|
    ensures var (a, row) := Verdict(drafts, ps, qs, us);
      && (forall i :: 0 <= i < a ==> Passes(drafts, ps, qs, us, i))
      && (a < |drafts| ==> !Passes(drafts, ps, qs, us, a))
      && row == RowAt(ps, qs, a)
  {
    if drafts != [] && Passes(drafts, ps, qs, us, 0) {
      VerdictStops(drafts[1..], ps[1..], qs[1..], us[1..]);
      var (a, row) := Verdict(drafts[1..], ps[1..], qs[1..], us[1..]);
      forall i | 0 <= i < a + 1 ensures Passes(drafts, ps, qs, us, i) {
        assert i > 0 ==> Passes(drafts[1..], ps[1..], qs[1..], us[1..], i - 1);
      }
      assert a < |drafts| - 1 ==> !Passes(drafts[1..], ps[1..], qs[1..], us[1..], a);
    }
  }

  /** The acceptance loop: how many drafts pass before the first that does not, and
      the row the last token is drawn from. */
  method Accept(drafts: seq<nat>, ps: seq<Row>, qs: seq<Row>, us: seq<real>) returns (accepted: nat, draw: Row)
    requires |ps| == |drafts| + 1 && |qs| == |us| == |drafts|
    requires forall i :: 0 <= i < |ps| ==> NoRepeats(ps[i]) && forall j :: 0 <= j < |ps[i]| ==> ps[i][j].1 >= 0.0
    requires forall i :: 0 <= i < |qs| ==> NoRepeats(qs[i]) && forall j :: 0 <= j < |qs[i]| ==> qs[i][j].1 >= 0.0
    ensures (accepted, draw) == Verdict(drafts, ps, qs, us) && accepted <= |drafts| && draw == RowAt(ps, qs, accepted)
    ensures forall i :: 0 <= i < accepted ==> Passes(drafts, ps, qs, us, i)
    ensures accepted < |drafts| ==> !Passes(drafts, ps, qs, us, accepted)
  {
    VerdictStops(drafts, ps, qs, us);
    for i := 0 to |drafts|
      invariant Verdict(drafts, ps, qs, us)
             == (i + Verdict(drafts[i..], ps[i..], qs[i..], us[i..]).0, Verdict(drafts[i..], ps[i..], qs[i..], us[i..]).1)
    {
      var ratio := Ratio(Prob(ps[i], drafts[i]), Prob(qs[i], drafts[i]));
      assert drafts[i..][1..] == drafts[i + 1..] && ps[i..][1..] == ps[i + 1..];
      assert qs[i..][1..] == qs[i + 1..] && us[i..][1..] == us[i + 1..];
      if us[i] < ratio {
        continue;
      }
      var residual := BuildResidual(ps[i], qs[i]);
      return i, if Mass(residual) <= 0.0 then ps[i] else residual;
    }
    return |drafts|, ps[|drafts|];
  }

  // ---- sparse and dense agree -----------------------------------------------

  lemma {:induction false} ResidualProb(p: Row, q: Row, t: nat)
    requires NoRepeats(p) && NoRepeats(q)
    requires forall i :: 0 <= i < |q| ==> q[i].1 >= 0.0
    ensures NoRepeats(Residual(p, q)) && Prob(Residual(p, q), t) == Pos(Prob(p, t) - Prob(q, t))
  {
    var r := Residual(p, q);
    ProbAt(p, t);
    ProbAt(r, t);
    ProbAt(q, t);
    if i :| 0 <= i < |p| && p[i].0 == t {
      assert r[i].0 == t;
      ProbIndex(p, i);
      ProbIndex(r, i);
    } else {
      assert forall j :: 0 <= j < |r| ==> r[j].0 != t;
    }
  }

  /** The sparse correction row, once drawn from, is the dense correction. */
  lemma SparseIsDense(p: Row, q: Row, vocab: nat, t: nat)
    requires IsLaw(p, vocab) && IsLaw(q, vocab)
    ensures Drawn(CorrectionRow(p, q), t) == Correction(Dense(p), Dense(q), vocab, t)
  {
    var r := Residual(p, q);
    ResidualProb(p, q, t);
    DenseMass(r, vocab);
    forall x: nat ensures Dense(r)(x) == Excess(Dense(p), Dense(q))(x) { ResidualProb(p, q, x); }
    SumEq(vocab, Dense(r), Excess(Dense(p), Dense(q)));
    NonNegMass(r);
  }

  // ---- the law of one committed token ---------------------------------------

  predicate DenseLaw(p: nat -> real, vocab: nat) {
    Sum(vocab, p) == 1.0 && forall t: nat :: t < vocab ==> p(t) >= 0.0
  }

  function Rejected(p: nat -> real, q: nat -> real): nat -> real {
    (d: nat) => q(d) * (1.0 - Ratio(p(d), q(d)))
  }

  /** The draft is d and survives. */
  function Kept(p: nat -> real, q: nat -> real, d: nat): real {
    q(d) * Ratio(p(d), q(d))
  }

  /** Probability that the committed token is t: the draft is t and survives, or
      some draft falls and the correction is t. */
  function CommitLaw(p: nat -> real, q: nat -> real, vocab: nat, t: nat): real {
    Kept(p, q, t) + Mul(Sum(vocab, Rejected(p, q)), Correction(p, q, vocab, t))
  }

  lemma Overlap(p: real, q: real)
    requires p >= 0.0 && q >= 0.0
    ensures q * Ratio(p, q) == p - Pos(p - q)
    ensures q * (1.0 - Ratio(p, q)) == q - (p - Pos(p - q))
  {
    if q > 0.0 {
      Cancel(q, p);
      if p / q < 1.0 {
        if p >= q { DivAtLeastOne(p, q); }
      } else {
        MulMono(q, p / q);
      }
    }
  }

  lemma DivAtLeastOne(p: real, q: real)
    requires q > 0.0 && p >= q
    ensures p / q >= 1.0
  {
    var r := p / q;
    Cancel(q, p);
    if r < 1.0 {
      MulStrict(q, r);
    }
  }

  lemma MulStrict(q: real, r: real)
    requires q > 0.0 && r < 1.0
    ensures q * r < q
  {
    assert q * (1.0 - r) > 0.0;
  }

  lemma MulMono(q: real, r: real)
    requires q > 0.0 && r >= 1.0
    ensures q * r >= q
  {
    assert q * (r - 1.0) >= 0.0;
  }

  lemma Zero(x: real)
    ensures 0.0 * x == 0.0
  {
  }

  lemma Cancel(a: real, b: real)
    requires a > 0.0
    ensures a * (b / a) == b
  {
  }

  /** The mass lost to rejections is the mass of the residual. */
  lemma RejectedMass(p: nat -> real, q: nat -> real, vocab: nat)
    requires DenseLaw(p, vocab) && DenseLaw(q, vocab)
    ensures Sum(vocab, Rejected(p, q)) == Sum(vocab, Excess(p, q))
  {
    var pos := Excess(p, q);
    var diff := (x: nat) => q(x) - p(x);
    SumLinear(vocab, 1.0, q, -1.0, p, diff);
    forall x: nat | x < vocab ensures Rejected(p, q)(x) == 1.0 * diff(x) + 1.0 * pos(x) {
      Overlap(p(x), q(x));
    }
    SumLinear(vocab, 1.0, diff, 1.0, pos, Rejected(p, q));
  }

  lemma ExcessNonNegative(p: nat -> real, q: nat -> real)
    ensures forall i: nat :: Excess(p, q)(i) >= 0.0
  {
    forall i: nat ensures Excess(p, q)(i) >= 0.0 {
      assert Excess(p, q)(i) == Pos(p(i) - q(i));
    }
  }

  /** What the correction hands back is the residual itself. */
  lemma ResidualMass(p: nat -> real, q: nat -> real, vocab: nat, t: nat)
    requires t < vocab
    ensures Mul(Sum(vocab, Excess(p, q)), Correction(p, q, vocab, t)) == Pos(p(t) - q(t))
  {
    ExcessNonNegative(p, q);
    SumBounds(vocab, Excess(p, q), t);
    var total, pos := Sum(vocab, Excess(p, q)), Excess(p, q)(t);
    if total > 0.0 {
      Cancel(total, pos);
    } else {
      Zero(p(t));
    }
  }

  /** Rejection sampling is exact: whatever the proposal's law, the committed
      token has the target's. */
  lemma CommitLawIsTarget(p: nat -> real, q: nat -> real, vocab: nat, t: nat)
    requires DenseLaw(p, vocab) && DenseLaw(q, vocab) && t < vocab
    ensures CommitLaw(p, q, vocab, t) == p(t)
  {
    hide Sum, Correction, Ratio, Rejected, Excess, Kept, Mul, Pos, DenseLaw;
    KeptMass(p, q, vocab, t);
    RejectedMass(p, q, vocab);
    ResidualMass(p, q, vocab, t);
  }

  lemma KeptMass(p: nat -> real, q: nat -> real, vocab: nat, t: nat)
    requires DenseLaw(p, vocab) && DenseLaw(q, vocab) && t < vocab
    ensures Kept(p, q, t) == p(t) - Pos(p(t) - q(t))
  {
    hide Ratio, Pos, Sum;
    Overlap(p(t), q(t));
  }

  // ---- the joint law of a round ---------------------------------------------

  /** A model of next tokens: a law for every prefix. */
  type Conditional = seq<nat> -> nat -> real

  ghost predicate Laws(p: Conditional, vocab: nat) {
    forall prefix :: DenseLaw(p(prefix), vocab)
  }

  /** Probability of the run w after prefix, sampled token by token. */
  function Plain(p: Conditional, prefix: seq<nat>, w: seq<nat>): real
    decreases |w|
  {
    if w == [] then 1.0 else Mul(p(prefix)(w[0]), Plain(p, prefix + [w[0]], w[1..]))
  }

  function After(f: seq<nat> -> real, d: nat): seq<nat> -> real {
    (ds: seq<nat>) => f([d] + ds)
  }

  /** Expectation over a draft chain of length k, each token drawn from q given
      the ones before it. */
  function Expect(q: Conditional, vocab: nat, prefix: seq<nat>, k: nat, f: seq<nat> -> real): real
    decreases k, 0
  {
    if k == 0 then f([]) else Sum(vocab, Branch(q, vocab, prefix, k - 1, f))
  }

  function Branch(q: Conditional, vocab: nat, prefix: seq<nat>, k: nat, f: seq<nat> -> real): nat -> real
    decreases k, 1
  {
    (d: nat) => q(prefix)(d) * Expect(q, vocab, prefix + [d], k, After(f, d))
  }

  /** Probability, for a fixed draft chain, that the tokens the round commits and
      the target's plain samples after them begin with w. */
  function Outcome(p: Conditional, q: Conditional, vocab: nat, prefix: seq<nat>, ds: seq<nat>, w: seq<nat>): real
    decreases |ds|
  {
    if w == [] then 1.0
    else if ds == [] then Mul(p(prefix)(w[0]), Plain(p, prefix + [w[0]], w[1..]))
    else
      var a := Ratio(p(prefix)(ds[0]), q(prefix)(ds[0]));
      (if ds[0] == w[0] then Mul(a, Outcome(p, q, vocab, prefix + [ds[0]], ds[1..], w[1..])) else 0.0)
      + Mul(1.0 - a, Fixed(p, q, vocab, prefix, w))
  }

  function OutcomeOf(p: Conditional, q: Conditional, vocab: nat, prefix: seq<nat>, w: seq<nat>): seq<nat> -> real {
    (ds: seq<nat>) => Outcome(p, q, vocab, prefix, ds, w)
  }

  /** A chain's expectation of c g plus a constant. */
  lemma {:induction false} ExpectAffine(q: Conditional, vocab: nat, prefix: seq<nat>, k: nat, c: real, g: seq<nat> -> real, e: real, f: seq<nat> -> real)
    requires Laws(q, vocab) && forall ds: seq<nat> :: |ds| == k ==> f(ds) == Mul(c, g(ds)) + e
    ensures Expect(q, vocab, prefix, k, f) == Mul(c, Expect(q, vocab, prefix, k, g)) + e
    decreases k
  {
    if k > 0 {
      var ff, gg := Branch(q, vocab, prefix, k - 1, f), Branch(q, vocab, prefix, k - 1, g);
      var qd := q(prefix);
      forall d: nat | d < vocab ensures ff(d) == c * gg(d) + e * qd(d) {
        ExpectAffine(q, vocab, prefix + [d], k - 1, c, After(g, d), e, After(f, d));
        Spread(qd(d), c, Expect(q, vocab, prefix + [d], k - 1, After(g, d)), e);
      }
      SumLinear(vocab, c, gg, e, qd, ff);
      assert DenseLaw(qd, vocab);
    }
  }

  lemma Spread(x: real, c: real, y: real, e: real)
    ensures x * (Mul(c, y) + e) == c * (x * y) + e * x
  {
  }

  /** A rejection, corrected to the head of w, and the rest sampled plainly. */
  function Fixed(p: Conditional, q: Conditional, vocab: nat, prefix: seq<nat>, w: seq<nat>): real
    requires w != []
  {
    Mul(Correction(p(prefix), q(prefix), vocab, w[0]), Plain(p, prefix + [w[0]], w[1..]))
  }

  /** With the whole chain drafted up front, as the round does it, the committed
      tokens followed by plain samples have exactly the joint law of plain
      sampling, for every run of tokens and every chain length. */
  lemma {:induction false} RoundLawIsPlain(p: Conditional, q: Conditional, vocab: nat, prefix: seq<nat>, k: nat, w: seq<nat>)
    requires Laws(p, vocab) && Laws(q, vocab) && forall i :: 0 <= i < |w| ==> w[i] < vocab
    ensures Expect(q, vocab, prefix, k, OutcomeOf(p, q, vocab, prefix, w)) == Plain(p, prefix, w)
    decreases k, 0
  {
    var f := OutcomeOf(p, q, vocab, prefix, w);
    if w == [] {
      ExpectAffine(q, vocab, prefix, k, 0.0, f, 1.0, f);
    } else if k > 0 {
      var terms := Branch(q, vocab, prefix, k - 1, f);
      forall d: nat | d < vocab
        ensures terms(d) == (if d == w[0] then Mul(Kept(p(prefix), q(prefix), d), Plain(p, prefix + [w[0]], w[1..])) else 0.0)
                            + Mul(Fixed(p, q, vocab, prefix, w), Rejected(p(prefix), q(prefix))(d))
      {
        HeadTerm(p, q, vocab, prefix, k, w, d);
      }
      assert DenseLaw(p(prefix), vocab) && DenseLaw(q(prefix), vocab);
      HeadSum(p, q, vocab, prefix, w, terms);
    }
  }

  lemma HeadSum(p: Conditional, q: Conditional, vocab: nat, prefix: seq<nat>, w: seq<nat>, terms: nat -> real)
    requires w != [] && w[0] < vocab && DenseLaw(p(prefix), vocab) && DenseLaw(q(prefix), vocab)
    requires forall d: nat :: d < vocab ==>
      terms(d) == (if d == w[0] then Mul(Kept(p(prefix), q(prefix), d), Plain(p, prefix + [w[0]], w[1..])) else 0.0)
                  + Mul(Fixed(p, q, vocab, prefix, w), Rejected(p(prefix), q(prefix))(d))
    ensures Sum(vocab, terms) == Mul(p(prefix)(w[0]), Plain(p, prefix + [w[0]], w[1..]))
  {
    var t, pt, qt := w[0], p(prefix), q(prefix);
    CommitLawIsTarget(pt, qt, vocab, t);
    hide Ratio, Correction, Rejected, Kept, Plain, DenseLaw, Mul, Sum;
    var tail, kept := Plain(p, prefix + [t], w[1..]), Kept(pt, qt, t);
    var corr, lost := Correction(pt, qt, vocab, t), Sum(vocab, Rejected(pt, qt));
    PointAndScale(vocab, t, Mul(kept, tail), Fixed(p, q, vocab, prefix, w), Rejected(pt, qt), terms);
    Collect(kept, tail, corr, lost);
  }

  lemma PointAndScale(vocab: nat, t: nat, hit: real, fixed: real, rest: nat -> real, terms: nat -> real)
    requires t < vocab
    requires forall d: nat :: d < vocab ==> terms(d) == (if d == t then hit else 0.0) + Mul(fixed, rest(d))
    ensures Sum(vocab, terms) == hit + Mul(fixed, Sum(vocab, rest))
  {
    var point := (d: nat) => if d == t then hit else 0.0;
    SumLinear(vocab, 1.0, point, fixed, rest, terms);
    SumPoint(vocab, point, t);
  }

  lemma Collect(kept: real, tail: real, corr: real, lost: real)
    ensures Mul(kept, tail) + Mul(Mul(corr, tail), lost) == Mul(kept + Mul(lost, corr), tail)
  {
  }

  /** The part of the round's law that starts with draft d. */
  lemma {:induction false} HeadTerm(p: Conditional, q: Conditional, vocab: nat, prefix: seq<nat>, k: nat, w: seq<nat>, d: nat)
    requires Laws(p, vocab) && Laws(q, vocab) && forall i :: 0 <= i < |w| ==> w[i] < vocab
    requires k > 0 && w != [] && d < vocab
    ensures Branch(q, vocab, prefix, k - 1, OutcomeOf(p, q, vocab, prefix, w))(d)
         == (if d == w[0] then Mul(Kept(p(prefix), q(prefix), d), Plain(p, prefix + [w[0]], w[1..])) else 0.0)
            + Mul(Fixed(p, q, vocab, prefix, w), Rejected(p(prefix), q(prefix))(d))
    decreases k - 1, 2
  {
    hide Ratio, Expect, Outcome, Fixed, Plain, Laws, Mul;
    var a := Ratio(p(prefix)(d), q(prefix)(d));
    var tail := if d == w[0] then Plain(p, prefix + [d], w[1..]) else 0.0;
    HeadExpect(p, q, vocab, prefix, k - 1, w, d);
    var ex := Expect(q, vocab, prefix + [d], k - 1, After(OutcomeOf(p, q, vocab, prefix, w), d));
    HeadProduct(q(prefix)(d), a, tail, Fixed(p, q, vocab, prefix, w), ex,
                Kept(p(prefix), q(prefix), d), Rejected(p(prefix), q(prefix))(d));
  }

  lemma {:induction false} HeadExpect(p: Conditional, q: Conditional, vocab: nat, prefix: seq<nat>, k: nat, w: seq<nat>, d: nat)
    requires Laws(p, vocab) && Laws(q, vocab) && forall i :: 0 <= i < |w| ==> w[i] < vocab
    requires w != [] && d < vocab
    ensures Expect(q, vocab, prefix + [d], k, After(OutcomeOf(p, q, vocab, prefix, w), d))
         == Mul(Ratio(p(prefix)(d), q(prefix)(d)), if d == w[0] then Plain(p, prefix + [d], w[1..]) else 0.0)
            + Mul(1.0 - Ratio(p(prefix)(d), q(prefix)(d)), Fixed(p, q, vocab, prefix, w))
    decreases k, 1
  {
    var a, rest := Ratio(p(prefix)(d), q(prefix)(d)), Mul(1.0 - Ratio(p(prefix)(d), q(prefix)(d)), Fixed(p, q, vocab, prefix, w));
    var next := OutcomeOf(p, q, vocab, prefix + [d], w[1..]);
    var f := After(OutcomeOf(p, q, vocab, prefix, w), d);
    forall ds: seq<nat> | |ds| == k ensures f(ds) == (if d == w[0] then Mul(a, next(ds)) else 0.0) + rest {
      assert ([d] + ds)[1..] == ds;
    }
    if d == w[0] {
      ExpectAffine(q, vocab, prefix + [d], k, a, next, rest, f);
      RoundLawIsPlain(p, q, vocab, prefix + [d], k, w[1..]);
    } else {
      ExpectAffine(q, vocab, prefix + [d], k, 0.0, next, rest, f);
    }
  }

  lemma HeadProduct(x: real, a: real, tail: real, fixed: real, ex: real, kept: real, lost: real)
    requires ex == Mul(a, tail) + Mul(1.0 - a, fixed) && kept == x * a && lost == x * (1.0 - a)
    ensures x * ex == Mul(kept, tail) + Mul(fixed, lost)
    ensures Mul(kept, 0.0) == 0.0
  {
  }

  // ---- the law of the loop itself ---------------------------------------------

  /** What one uniform must do for the loop to stop where it does. */
  datatype Side = Below(r: real) | AtLeast(r: real) | Free

  /** Probability of it, for a uniform on [0, 1). */
  function Length(s: Side): real {
    match s
    case Below(r) => r
    case AtLeast(r) => 1.0 - r
    case Free => 1.0
  }

  /** Probability of a box of independent uniforms. */
  function Measure(sides: seq<Side>): real {
    if sides == [] then 1.0 else Mul(Length(sides[0]), Measure(sides[1..]))
  }

  predicate Inside(us: seq<real>, sides: seq<Side>) {
    |us| == |sides| && forall i :: 0 <= i < |us| ==>
      match sides[i]
      case Below(r) => us[i] < r
      case AtLeast(r) => us[i] >= r
      case Free => true
  }

  /** The box of uniforms on which the loop stops at a. */
  function Sides(drafts: seq<nat>, ps: seq<Row>, qs: seq<Row>, a: nat): (r: seq<Side>)
    requires |ps| == |drafts| + 1 && |qs| == |drafts|
    ensures |r| == |drafts|
  {
    seq(|drafts|, i requires 0 <= i < |drafts| =>
      var ratio := Ratio(Prob(ps[i], drafts[i]), Prob(qs[i], drafts[i]));
      if i < a then Below(ratio) else if i == a then AtLeast(ratio) else Free)
  }

  /** The loop stops at a exactly on that box of uniforms, and draws from that row. */
  lemma StopsOnBox(drafts: seq<nat>, ps: seq<Row>, qs: seq<Row>, us: seq<real>, a: nat)
    requires |ps| == |drafts| + 1 && |qs| == |us| == |drafts| && a <= |drafts|
    ensures Inside(us, Sides(drafts, ps, qs, a)) <==> Verdict(drafts, ps, qs, us).0 == a
    ensures Verdict(drafts, ps, qs, us).0 == a ==> Verdict(drafts, ps, qs, us).1 == RowAt(ps, qs, a)
  {
    VerdictStops(drafts, ps, qs, us);
    var sides, stop := Sides(drafts, ps, qs, a), Verdict(drafts, ps, qs, us).0;
    hide Verdict, Ratio, Prob;
    if Inside(us, sides) {
      assert forall i :: 0 <= i < a ==> sides[i].Below? && Passes(drafts, ps, qs, us, i);
      if a < |drafts| { assert sides[a].AtLeast? && !Passes(drafts, ps, qs, us, a); }
    }
    if stop == a {
      forall i | 0 <= i < |us|
        ensures match sides[i] case Below(r) => us[i] < r case AtLeast(r) => us[i] >= r case Free => true
      {
        assert i < a ==> Passes(drafts, ps, qs, us, i);
      }
    }
  }

  /** Probability, behind a prefix, that what comes next begins with a run. */
  type Law = (seq<nat>, seq<nat>) -> real

  function PlainLaw(p: Conditional): Law {
    (prefix: seq<nat>, w: seq<nat>) => Plain(p, prefix, w)
  }

  /** Probability that committed tokens, and then what comes by a law, begin with w. */
  function Continue(rest: Law, prefix: seq<nat>, committed: seq<nat>, w: seq<nat>): real {
    if |w| <= |committed| then (if committed[..|w|] == w then 1.0 else 0.0)
    else if w[..|committed|] == committed then rest(prefix + committed, w[|committed|..])
    else 0.0
  }

  function DrawnThen(rest: Law, prefix: seq<nat>, head: seq<nat>, row: Row, w: seq<nat>): nat -> real {
    (t: nat) => Mul(Drawn(row, t), Continue(rest, prefix, head + [t], w))
  }

  /** The part of the law where the loop stops at a: it does so on its box, draws the
      last token from its row, and goes on by another law. */
  function StopTerm(rest: Law, vocab: nat, prefix: seq<nat>, ds: seq<nat>, ps: seq<Row>, qs: seq<Row>, w: seq<nat>): nat -> real
    requires |ps| == |ds| + 1 && |qs| == |ds|
  {
    (a: nat) =>
      if a <= |ds| then Mul(Measure(Sides(ds, ps, qs, a)), Sum(vocab, DrawnThen(rest, prefix, ds[..a], RowAt(ps, qs, a), w))) else 0.0
  }

  /** Probability, for a fixed draft chain, that what the loop commits and what comes
      after it begin with w. */
  function AcceptOutcome(rest: Law, vocab: nat, prefix: seq<nat>, ds: seq<nat>, ps: seq<Row>, qs: seq<Row>, w: seq<nat>): real
    requires |ps| == |ds| + 1 && |qs| == |ds|
  {
    Sum(|ds| + 1, StopTerm(rest, vocab, prefix, ds, ps, qs, w))
  }

  /** The rows are laws, and the ones of the models along the chain. */
  ghost predicate Along(p: Conditional, q: Conditional, vocab: nat, prefix: seq<nat>, ds: seq<nat>, ps: seq<Row>, qs: seq<Row>) {
    && |ps| == |ds| + 1 && |qs| == |ds|
    && (forall i :: 0 <= i < |ps| ==> IsLaw(ps[i], vocab) && p(prefix + ds[..i]) == Dense(ps[i]))
    && (forall i :: 0 <= i < |qs| ==> IsLaw(qs[i], vocab) && q(prefix + ds[..i]) == Dense(qs[i]))
  }

  lemma AlongTail(p: Conditional, q: Conditional, vocab: nat, prefix: seq<nat>, ds: seq<nat>, ps: seq<Row>, qs: seq<Row>)
    requires Along(p, q, vocab, prefix, ds, ps, qs) && ds != []
    ensures Along(p, q, vocab, prefix + [ds[0]], ds[1..], ps[1..], qs[1..])
    ensures p(prefix) == Dense(ps[0]) && q(prefix) == Dense(qs[0])
  {
    assert prefix + ds[..0] == prefix;
    hide IsLaw, Dense;
    forall i | 0 <= i < |ps| - 1 ensures p(prefix + [ds[0]] + ds[1..][..i]) == Dense(ps[1..][i]) {
      assert prefix + [ds[0]] + ds[1..][..i] == prefix + ds[..i + 1];
    }
    forall i | 0 <= i < |qs| - 1 ensures q(prefix + [ds[0]] + ds[1..][..i]) == Dense(qs[1..][i]) {
      assert prefix + [ds[0]] + ds[1..][..i] == prefix + ds[..i + 1];
    }
  }

  lemma {:induction false} SumShift(n: nat, f: nat -> real, g: nat -> real)
    requires forall a: nat :: g(a) == f(a + 1)
    ensures Sum(n + 1, f) == f(0) + Sum(n, g)
  {
    if n > 0 { SumShift(n - 1, f, g); }
  }

  lemma {:induction false} SumScaled(n: nat, c: real, f: nat -> real, h: nat -> real)
    requires forall i: nat :: i < n ==> h(i) == Mul(c, f(i))
    ensures Sum(n, h) == Mul(c, Sum(n, f))
  {
    if n > 0 {
      SumScaled(n - 1, c, f, h);
      Distribute(c, Sum(n - 1, f), f(n - 1));
    }
  }

  /** What is drawn from a row with any mass has mass one. */
  lemma DrawnMass(row: Row, vocab: nat)
    requires NoRepeats(row) && Mass(row) > 0.0 && forall i :: 0 <= i < |row| ==> row[i].0 < vocab
    ensures Sum(vocab, (t: nat) => Drawn(row, t)) == 1.0
  {
    var m := Mass(row);
    DenseMass(row, vocab);
    var drawn := (t: nat) => Drawn(row, t);
    forall t: nat | t < vocab ensures Dense(row)(t) == Mul(m, drawn(t)) { Cancel(m, Prob(row, t)); }
    SumScaled(vocab, m, drawn, Dense(row));
    Unit(m, Sum(vocab, drawn));
  }

  /** Drawing one token first: all of it for the empty run, else its head's part. */
  lemma DrawFirst(p: Conditional, vocab: nat, prefix: seq<nat>, row: Row, w: seq<nat>)
    requires NoRepeats(row) && Mass(row) > 0.0 && (forall i :: 0 <= i < |row| ==> row[i].0 < vocab)
    requires w != [] ==> w[0] < vocab
    ensures Sum(vocab, DrawnThen(PlainLaw(p), prefix, [], row, w))
         == if w == [] then 1.0 else Mul(Drawn(row, w[0]), Plain(p, prefix + [w[0]], w[1..]))
  {
    var f := DrawnThen(PlainLaw(p), prefix, [], row, w);
    if w == [] {
      DrawnMass(row, vocab);
      SumEq(vocab, f, (t: nat) => Drawn(row, t));
    } else {
      forall t: nat ensures f(t) == if t == w[0] then Mul(Drawn(row, w[0]), Plain(p, prefix + [w[0]], w[1..])) else 0.0 {
        ContinueFirst(p, prefix, t, w);
        assert [] + [t] == [t];
      }
      SumPoint(vocab, f, w[0]);
    }
  }

  lemma ContinueFirst(p: Conditional, prefix: seq<nat>, t: nat, w: seq<nat>)
    requires w != []
    ensures Continue(PlainLaw(p), prefix, [t], w) == if t == w[0] then Plain(p, prefix + [w[0]], w[1..]) else 0.0
  {
    if |w| == 1 {
      assert w[1..] == [] && ([t][..1] == w <==> t == w[0]);
    } else {
      assert w[..1] == [t] <==> t == w[0];
    }
  }

  /** Taking the first committed token off. */
  lemma ContinuePeel(law: Law, prefix: seq<nat>, d: nat, rest: seq<nat>, w: seq<nat>)
    ensures Continue(law, prefix, [d] + rest, w) ==
      if w == [] then 1.0 else if w[0] == d then Continue(law, prefix + [d], rest, w[1..]) else 0.0
  {
    var c := [d] + rest;
    if w != [] {
      if |w| <= |c| {
        assert c[..|w|] == [d] + rest[..|w| - 1];
        assert w == [w[0]] + w[1..];
        assert c[..|w|] == w <==> d == w[0] && rest[..|w| - 1] == w[1..];
      } else {
        assert w[..|c|] == [w[0]] + w[1..][..|rest|];
        assert w[..|c|] == c <==> d == w[0] && w[1..][..|rest|] == rest;
        assert w[|c|..] == w[1..][|rest|..] && prefix + c == prefix + [d] + rest;
      }
    }
  }

  lemma {:induction false} FreeMeasure(sides: seq<Side>)
    requires forall i :: 0 <= i < |sides| ==> sides[i].Free?
    ensures Measure(sides) == 1.0
  {
    if sides != [] { FreeMeasure(sides[1..]); }
  }

  function FirstRatio(ds: seq<nat>, ps: seq<Row>, qs: seq<Row>): real
    requires ds != [] && ps != [] && qs != []
  {
    Ratio(Prob(ps[0], ds[0]), Prob(qs[0], ds[0]))
  }

  lemma SidesPeel(ds: seq<nat>, ps: seq<Row>, qs: seq<Row>, a: nat)
    requires |ps| == |ds| + 1 && |qs| == |ds| && ds != []
    ensures Measure(Sides(ds, ps, qs, a)) ==
      if a == 0 then 1.0 - FirstRatio(ds, ps, qs) else Mul(FirstRatio(ds, ps, qs), Measure(Sides(ds[1..], ps[1..], qs[1..], a - 1)))
  {
    hide Ratio, Prob;
    var sides := Sides(ds, ps, qs, a);
    if a == 0 {
      FreeMeasure(sides[1..]);
    } else {
      assert sides[1..] == Sides(ds[1..], ps[1..], qs[1..], a - 1);
    }
  }

  /** Stopping at the first draft. */
  lemma FirstTerm(p: Conditional, q: Conditional, vocab: nat, prefix: seq<nat>, ds: seq<nat>, ps: seq<Row>, qs: seq<Row>, w: seq<nat>)
    requires Along(p, q, vocab, prefix, ds, ps, qs) && ds != [] && (w != [] ==> w[0] < vocab)
    ensures StopTerm(PlainLaw(p), vocab, prefix, ds, ps, qs, w)(0)
         == Mul(1.0 - FirstRatio(ds, ps, qs), if w == [] then 1.0 else Fixed(p, q, vocab, prefix, w))
  {
    AlongTail(p, q, vocab, prefix, ds, ps, qs);
    CorrectionIsRow(ps[0], qs[0], vocab);
    hide IsLaw, NoRepeats, Mass, CorrectionRow, Drawn, Plain, Correction, Along, Sum, DrawnThen, Ratio, Prob;
    SidesPeel(ds, ps, qs, 0);
    assert ds[..0] == [];
    DrawFirst(p, vocab, prefix, CorrectionRow(ps[0], qs[0]), w);
    if w != [] { SparseIsDense(ps[0], qs[0], vocab, w[0]); }
  }

  lemma CorrectionIsRow(p: Row, q: Row, vocab: nat)
    requires IsLaw(p, vocab) && IsLaw(q, vocab)
    ensures var row := CorrectionRow(p, q);
      NoRepeats(row) && Mass(row) > 0.0 && forall i :: 0 <= i < |row| ==> row[i].0 < vocab
  {
    ResidualProb(p, q, 0);
  }

  /** The rest of the run behind a first draft, and the weight it still has. */
  function Behind(w: seq<nat>): seq<nat> {
    if w == [] then [] else w[1..]
  }

  function Weight(ds: seq<nat>, ps: seq<Row>, qs: seq<Row>, w: seq<nat>): real
    requires ds != [] && ps != [] && qs != []
  {
    if w == [] || w[0] == ds[0] then FirstRatio(ds, ps, qs) else 0.0
  }

  /** Stopping later: the first draft passed, and the rest stops one earlier. */
  lemma LaterTerm(p: Conditional, vocab: nat, prefix: seq<nat>, ds: seq<nat>, ps: seq<Row>, qs: seq<Row>, w: seq<nat>, a: nat)
    requires |ps| == |ds| + 1 && |qs| == |ds| && ds != [] && a < |ds|
    ensures StopTerm(PlainLaw(p), vocab, prefix, ds, ps, qs, w)(a + 1)
         == Mul(Weight(ds, ps, qs, w), StopTerm(PlainLaw(p), vocab, prefix + [ds[0]], ds[1..], ps[1..], qs[1..], Behind(w))(a))
  {
    SidesPeel(ds, ps, qs, a + 1);
    var row := RowAt(ps, qs, a + 1);
    assert row == RowAt(ps[1..], qs[1..], a);
    hide Measure, Sides, RowAt, Plain, Drawn, FirstRatio;
    assert ds[..a + 1] == [ds[0]] + ds[1..][..a];
    LaterDraw(p, vocab, prefix, ds[0], ds[1..][..a], row, w);
    hide DrawnThen, Sum;
    var r, m := FirstRatio(ds, ps, qs), Measure(Sides(ds[1..], ps[1..], qs[1..], a));
    var later := Sum(vocab, DrawnThen(PlainLaw(p), prefix + [ds[0]], ds[1..][..a], row, Behind(w)));
    Products(r, m, later);
  }

  lemma Products(r: real, m: real, x: real)
    ensures Mul(Mul(r, m), x) == Mul(r, Mul(m, x))
    ensures Mul(Mul(r, m), 0.0) == 0.0 && Mul(0.0, Mul(m, x)) == 0.0
  {
  }

  lemma LaterDraw(p: Conditional, vocab: nat, prefix: seq<nat>, d: nat, head: seq<nat>, row: Row, w: seq<nat>)
    ensures Sum(vocab, DrawnThen(PlainLaw(p), prefix, [d] + head, row, w)) ==
      if w == [] || w[0] == d then Sum(vocab, DrawnThen(PlainLaw(p), prefix + [d], head, row, Behind(w))) else 0.0
  {
    hide Plain, Drawn, Continue;
    var f, g := DrawnThen(PlainLaw(p), prefix, [d] + head, row, w), DrawnThen(PlainLaw(p), prefix + [d], head, row, Behind(w));
    forall t: nat ensures f(t) == if w == [] || w[0] == d then g(t) else 0.0 {
      assert [d] + head + [t] == [d] + (head + [t]);
      ContinuePeel(PlainLaw(p), prefix, d, head + [t], w);
      EmptyGoesOn(p, prefix + [d], head + [t]);
    }
    if w == [] || w[0] == d { SumEq(vocab, f, g); } else { SumPoint(vocab, f, vocab); }
  }

  lemma EmptyGoesOn(p: Conditional, prefix: seq<nat>, committed: seq<nat>)
    ensures Continue(PlainLaw(p), prefix, committed, []) == 1.0
  {
  }

  /** The loop over sparse rows, read off box by box, has the law of the dense rule. */
  lemma {:induction false} AcceptIsOutcome(p: Conditional, q: Conditional, vocab: nat, prefix: seq<nat>, ds: seq<nat>, ps: seq<Row>, qs: seq<Row>, w: seq<nat>)
    requires Along(p, q, vocab, prefix, ds, ps, qs) && forall i :: 0 <= i < |w| ==> w[i] < vocab
    ensures AcceptOutcome(PlainLaw(p), vocab, prefix, ds, ps, qs, w) == Outcome(p, q, vocab, prefix, ds, w)
    decreases |ds|
  {
    if ds == [] {
      NoDrafts(p, q, vocab, prefix, ps, qs, w);
    } else {
      hide Along, StopTerm, Sum, Outcome, Fixed, FirstRatio, Weight, Plain;
      AlongTail(p, q, vocab, prefix, ds, ps, qs);
      FirstTerm(p, q, vocab, prefix, ds, ps, qs, w);
      AcceptIsOutcome(p, q, vocab, prefix + [ds[0]], ds[1..], ps[1..], qs[1..], Behind(w));
      LaterSum(p, vocab, prefix, ds, ps, qs, w);
      Combine(p, q, vocab, prefix, ds, ps, qs, w);
    }
  }

  lemma LaterSum(p: Conditional, vocab: nat, prefix: seq<nat>, ds: seq<nat>, ps: seq<Row>, qs: seq<Row>, w: seq<nat>)
    requires |ps| == |ds| + 1 && |qs| == |ds| && ds != []
    ensures AcceptOutcome(PlainLaw(p), vocab, prefix, ds, ps, qs, w)
         == StopTerm(PlainLaw(p), vocab, prefix, ds, ps, qs, w)(0)
            + Mul(Weight(ds, ps, qs, w), AcceptOutcome(PlainLaw(p), vocab, prefix + [ds[0]], ds[1..], ps[1..], qs[1..], Behind(w)))
  {
    hide StopTerm, Sum, Weight, Mul;
    var f := StopTerm(PlainLaw(p), vocab, prefix, ds, ps, qs, w);
    var later := StopTerm(PlainLaw(p), vocab, prefix + [ds[0]], ds[1..], ps[1..], qs[1..], Behind(w));
    var g := (a: nat) => f(a + 1);
    forall a: nat | a < |ds| ensures g(a) == Mul(Weight(ds, ps, qs, w), later(a)) {
      LaterTerm(p, vocab, prefix, ds, ps, qs, w, a);
    }
    SumShift(|ds|, f, g);
    SumScaled(|ds|, Weight(ds, ps, qs, w), later, g);
  }

  lemma Combine(p: Conditional, q: Conditional, vocab: nat, prefix: seq<nat>, ds: seq<nat>, ps: seq<Row>, qs: seq<Row>, w: seq<nat>)
    requires ds != [] && ps != [] && qs != [] && p(prefix) == Dense(ps[0]) && q(prefix) == Dense(qs[0])
    ensures Outcome(p, q, vocab, prefix, ds, w)
         == Mul(1.0 - FirstRatio(ds, ps, qs), if w == [] then 1.0 else Fixed(p, q, vocab, prefix, w))
            + Mul(Weight(ds, ps, qs, w), Outcome(p, q, vocab, prefix + [ds[0]], ds[1..], Behind(w)))
  {
    hide Ratio, Fixed, Prob;
    if w != [] && w[0] != ds[0] { Products(0.0, 0.0, Outcome(p, q, vocab, prefix + [ds[0]], ds[1..], Behind(w))); }
  }

  lemma NoDrafts(p: Conditional, q: Conditional, vocab: nat, prefix: seq<nat>, ps: seq<Row>, qs: seq<Row>, w: seq<nat>)
    requires Along(p, q, vocab, prefix, [], ps, qs) && forall i :: 0 <= i < |w| ==> w[i] < vocab
    ensures AcceptOutcome(PlainLaw(p), vocab, prefix, [], ps, qs, w) == Outcome(p, q, vocab, prefix, [], w)
  {
    var none: seq<nat> := [];
    assert prefix + none[..0] == prefix && none[..0] == none;
    var f := StopTerm(PlainLaw(p), vocab, prefix, [], ps, qs, w);
    DrawFirst(p, vocab, prefix, ps[0], w);
    hide Plain;
    assert Sum(1, f) == Sum(0, f) + f(0);
  }

  /** The rows of a model along a draft chain. */
  function RowsAlong(rows: seq<nat> -> Row, prefix: seq<nat>, ds: seq<nat>, n: nat): (r: seq<Row>)
    requires n <= |ds| + 1
    ensures |r| == n
  {
    seq(n, i requires 0 <= i < n => rows(prefix + ds[..i]))
  }

  function DenseOf(rows: seq<nat> -> Row): Conditional {
    (prefix: seq<nat>) => Dense(rows(prefix))
  }

  function AcceptOf(rest: Law, target: seq<nat> -> Row, draft: seq<nat> -> Row, vocab: nat, prefix: seq<nat>, w: seq<nat>): seq<nat> -> real {
    (ds: seq<nat>) =>
      AcceptOutcome(rest, vocab, prefix, ds, RowsAlong(target, prefix, ds, |ds| + 1), RowsAlong(draft, prefix, ds, |ds|), w)
  }

  /** The whole round over sparse rows: drafts drawn from the proposal rows, judged by
      the loop, and continued by plain samples, have exactly the joint law of plain
      sampling from the target's rows, whatever the two models are. */
  lemma AcceptLawIsPlain(target: seq<nat> -> Row, draft: seq<nat> -> Row, vocab: nat, prefix: seq<nat>, k: nat, w: seq<nat>)
    requires forall x :: IsLaw(target(x), vocab) && IsLaw(draft(x), vocab)
    requires forall i :: 0 <= i < |w| ==> w[i] < vocab
    ensures Expect(DenseOf(draft), vocab, prefix, k, AcceptOf(PlainLaw(DenseOf(target)), target, draft, vocab, prefix, w)) == Plain(DenseOf(target), prefix, w)
  {
    hide IsLaw, Laws, Outcome, AcceptOutcome, Expect, Plain, DenseOf, RowsAlong;
    var p, q := DenseOf(target), DenseOf(draft);
    RowLaws(target, vocab);
    RowLaws(draft, vocab);
    var f, g := AcceptOf(PlainLaw(p), target, draft, vocab, prefix, w), OutcomeOf(p, q, vocab, prefix, w);
    forall ds: seq<nat> ensures f(ds) == Mul(1.0, g(ds)) + 0.0 {
      RowsAreAlong(target, draft, vocab, prefix, ds);
      AcceptIsOutcome(p, q, vocab, prefix, ds, RowsAlong(target, prefix, ds, |ds| + 1), RowsAlong(draft, prefix, ds, |ds|), w);
    }
    ExpectAffine(q, vocab, prefix, k, 1.0, g, 0.0, f);
    RoundLawIsPlain(p, q, vocab, prefix, k, w);
  }

  lemma RowsAreAlong(target: seq<nat> -> Row, draft: seq<nat> -> Row, vocab: nat, prefix: seq<nat>, ds: seq<nat>)
    requires forall x :: IsLaw(target(x), vocab) && IsLaw(draft(x), vocab)
    ensures Along(DenseOf(target), DenseOf(draft), vocab, prefix, ds, RowsAlong(target, prefix, ds, |ds| + 1), RowsAlong(draft, prefix, ds, |ds|))
  {
    hide IsLaw, Dense;
  }

  /** Every shaped row's dense form is a law. */
  lemma RowLaws(rows: seq<nat> -> Row, vocab: nat)
    requires forall x :: IsLaw(rows(x), vocab)
    ensures Laws(DenseOf(rows), vocab)
  {
    forall x: seq<nat> ensures DenseLaw(DenseOf(rows)(x), vocab) {
      assert IsLaw(rows(x), vocab);
      DenseMass(rows(x), vocab);
      forall t: nat | t < vocab ensures Prob(rows(x), t) >= 0.0 { ProbAt(rows(x), t); }
    }
  }
}
