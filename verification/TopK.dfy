/** The router's two-stage selection: every group of lanes picks its own top k, and
    a merge over paired slots picks the top k of those. A lane group's registers are
    a sequence, a reduction over lanes a maximum. */
module TopK {
  import opened Collections

  /** A register value: a probability, or the mark of one already taken. */
  datatype Prob = NegInf | P(v: real)

  predicate Above(a: Prob, b: Prob) {
    a.P? && (b.NegInf? || a.v > b.v)
  }

  function SimdMax(s: seq<Prob>): (m: Prob)
    requires s != []
    ensures m in s && forall k :: 0 <= k < |s| ==> !Above(s[k], m)
  {
    if |s| == 1 then s[0]
    else
      var m := SimdMax(s[..|s| - 1]);
      assert s == s[..|s| - 1] + [s[|s| - 1]];
      if Above(s[|s| - 1], m) then s[|s| - 1] else m
  }

  function SimdMaxInt(s: seq<int>): (m: int)
    requires s != []
    ensures m in s && forall k :: 0 <= k < |s| ==> s[k] <= m
  {
    if |s| == 1 then s[0]
    else
      var m := SimdMaxInt(s[..|s| - 1]);
      assert s == s[..|s| - 1] + [s[|s| - 1]];
      if s[|s| - 1] > m then s[|s| - 1] else m
  }

  // ---- what a top k is ----------------------------------------------------------------

  /** By probability, then by the larger index. */
  predicate Beats(p: seq<real>, a: nat, b: nat) {
    a < |p| && b < |p| && (p[a] > p[b] || (p[a] == p[b] && a > b))
  }

  /** In descending order, the best of a pool: each beats all that follow and all
      of the pool that is left. */
  ghost predicate TopOf(p: seq<real>, pool: set<nat>, out: seq<nat>) {
    && (forall i :: 0 <= i < |out| ==> out[i] in pool && out[i] < |p|)
    && (forall i, j :: 0 <= i < j < |out| ==> Beats(p, out[i], out[j]))
    && (forall i, x :: 0 <= i < |out| && x in pool && x !in out ==> Beats(p, out[i], x))
  }

  lemma TopStep(p: seq<real>, pool: set<nat>, out: seq<nat>, w: nat)
    requires TopOf(p, pool, out) && w in pool && w !in out && w < |p|
    requires forall x :: x in pool && x !in out && x != w ==> Beats(p, w, x)
    ensures TopOf(p, pool, out + [w])
  {
  }

  /** There is one top k of a pool. */
  lemma {:induction false} TopUnique(p: seq<real>, pool: set<nat>, a: seq<nat>, b: seq<nat>)
    requires TopOf(p, pool, a) && TopOf(p, pool, b) && |a| == |b|
    ensures a == b
    decreases |a|
  {
    if a != [] {
      var n := |a| - 1;
      TopInit(p, pool, a);
      TopInit(p, pool, b);
      TopUnique(p, pool, a[..n], b[..n]);
      assert a[n] !in b[..n] ==> a[n] == b[n] || a[n] !in b;
      NotBefore(p, a);
      NotBefore(p, b);
    }
  }

  lemma TopInit(p: seq<real>, pool: set<nat>, out: seq<nat>)
    requires TopOf(p, pool, out) && out != []
    ensures TopOf(p, pool, out[..|out| - 1])
  {
    var n := |out| - 1;
    assert out == out[..n] + [out[n]];
  }

  /** The last of a descending sequence is not among the earlier ones. */
  lemma NotBefore(p: seq<real>, out: seq<nat>)
    requires out != [] && forall i, j :: 0 <= i < j < |out| ==> Beats(p, out[i], out[j])
    ensures out[|out| - 1] !in out[..|out| - 1]
  {
  }

  lemma BeatsTransitive(p: seq<real>, a: nat, b: nat, c: nat)
    requires Beats(p, a, b) && Beats(p, b, c)
    ensures Beats(p, a, c)
  {
  }

  function Elements(s: seq<nat>): (r: set<nat>)
    ensures forall x :: x in r <==> x in s
  {
    set x | x in s
  }

  lemma {:induction false} DescendingSize(p: seq<real>, out: seq<nat>)
    requires forall i, j :: 0 <= i < j < |out| ==> Beats(p, out[i], out[j])
    ensures |Elements(out)| == |out|
    decreases |out|
  {
    if out != [] {
      var n := |out| - 1;
      DescendingSize(p, out[..n]);
      NotBefore(p, out);
      assert Elements(out) == Elements(out[..n]) + {out[n]};
    }
  }

  /** The top k of the groups' top k is the top k of everything. */
  lemma MergedTop(p: seq<real>, pools: seq<set<nat>>, tops: seq<seq<nat>>, pool: set<nat>, out: seq<nat>)
    requires |pools| == |tops| && forall g :: 0 <= g < |tops| ==> TopOf(p, pools[g], tops[g]) && |tops[g]| == |out|
    requires forall x :: x in pool <==> exists g :: 0 <= g < |pools| && x in pools[g]
    requires TopOf(p, set g, i | 0 <= g < |tops| && 0 <= i < |tops[g]| :: tops[g][i], out)
    ensures TopOf(p, pool, out)
  {
    var best := set g, i | 0 <= g < |tops| && 0 <= i < |tops[g]| :: tops[g][i];
    forall i | 0 <= i < |out| ensures out[i] in pool {
      assert out[i] in best;
      var g, k :| 0 <= g < |tops| && 0 <= k < |tops[g]| && out[i] == tops[g][k];
      assert tops[g][k] in pools[g];
    }
    forall i, x | 0 <= i < |out| && x in pool && x !in out ensures Beats(p, out[i], x) {
      var g :| 0 <= g < |pools| && x in pools[g];
      if x in tops[g] {
        var k :| 0 <= k < |tops[g]| && tops[g][k] == x;
        assert x in best;
      } else {
        Outside(p, pools[g], tops[g], out, x, best, i);
      }
    }
  }

  /** An expert outside its group's top k is beaten by everything merged. */
  lemma Outside(p: seq<real>, pool: set<nat>, top: seq<nat>, out: seq<nat>, x: nat, best: set<nat>, i: nat)
    requires TopOf(p, pool, top) && TopOf(p, best, out) && |top| == |out| && i < |out|
    requires x in pool && x !in top && forall k :: 0 <= k < |top| ==> top[k] in best
    ensures Beats(p, out[i], x)
  {
    if exists k :: 0 <= k < |top| && top[k] !in out {
      var k :| 0 <= k < |top| && top[k] !in out;
      BeatsTransitive(p, out[i], top[k], x);
    } else {
      DescendingSize(p, top);
      DescendingSize(p, out);
      forall y | y in Elements(top) ensures y in Elements(out) {
        var k :| 0 <= k < |top| && top[k] == y;
      }
      SubsetOfSameSize(Elements(top), Elements(out));
      assert out[i] in Elements(out);
      var k :| 0 <= k < |top| && top[k] == out[i];
    }
  }

  lemma SubsetOfSameSize(a: set<nat>, b: set<nat>)
    requires a <= b && |a| == |b|
    ensures a == b
  {
    assert |b - a| == |b| - |a|;
  }

  // ---- one round: who wins ----------------------------------------------------------------

  /** The index of every lane that holds the best value, -1 for the others. */
  function Marks(vals: seq<Prob>, idx: seq<nat>, best: Prob): (r: seq<int>)
    requires |vals| == |idx|
    ensures |r| == |vals| && forall k :: 0 <= k < |r| ==> r[k] == if vals[k] == best then idx[k] as int else -1
  {
    seq(|vals|, k requires 0 <= k < |vals| && |vals| == |idx| => if vals[k] == best then idx[k] as int else -1)
  }

  /** The largest value held by a lane, and the largest index among the lanes that
      hold it. */
  method Winner(vals: seq<Prob>, idx: seq<nat>) returns (best: Prob, index: int)
    requires vals != [] && |vals| == |idx|
    ensures best == SimdMax(vals)
    ensures index == SimdMaxInt(Marks(vals, idx, best))
  {
    best := SimdMax(vals);
    index := SimdMaxInt(Marks(vals, idx, best));
  }

  /** Lanes that still compete hold their own expert's probability. */
  ghost predicate Held(p: seq<real>, vals: seq<Prob>, idx: seq<nat>) {
    && |vals| == |idx| && (forall k :: 0 <= k < |idx| ==> idx[k] < |p|)
    && (forall k :: 0 <= k < |vals| && vals[k].P? ==> vals[k] == P(p[idx[k]]))
  }

  /** The winner is a competing lane's expert and beats every other one. */
  lemma WinnerIsBest(p: seq<real>, vals: seq<Prob>, idx: seq<nat>, l: nat) returns (w: nat)
    requires Held(p, vals, idx) && l < |vals| && vals[l].P?
    ensures w < |vals| && vals[w].P? && vals[w] == SimdMax(vals)
    ensures idx[w] == SimdMaxInt(Marks(vals, idx, SimdMax(vals)))
    ensures forall k :: 0 <= k < |vals| && vals[k].P? && idx[k] != idx[w] ==> Beats(p, idx[w], idx[k])
  {
    var best := SimdMax(vals);
    assert !Above(vals[l], best);
    var marks := Marks(vals, idx, best);
    var i := SimdMaxInt(marks);
    var h :| 0 <= h < |vals| && vals[h] == best;
    assert marks[h] == idx[h];
    w :| 0 <= w < |marks| && marks[w] == i;
    forall k | 0 <= k < |vals| && vals[k].P? && idx[k] != idx[w] ensures Beats(p, idx[w], idx[k]) {
      assert !Above(vals[k], best);
      assert marks[k] <= i;
    }
  }

  // ---- first stage ----------------------------------------------------------------------

  /** Lane l of a group stands for expert lo + l. */
  function Lanes(lo: nat, width: nat): (r: seq<nat>)
    ensures |r| == width && forall l :: 0 <= l < width ==> r[l] == lo + l
  {
    seq(width, l requires 0 <= l < width => lo + l)
  }

  /** The lanes not yet taken hold their probabilities, the others the mark. */
  ghost predicate Candidates(p: seq<real>, vals: seq<Prob>, idx: seq<nat>, out: seq<nat>) {
    && |vals| == |idx| && (forall k :: 0 <= k < |idx| ==> idx[k] < |p|)
    && forall k :: 0 <= k < |vals| ==> vals[k] == if idx[k] in out then NegInf else P(p[idx[k]])
  }

  /** Fewer taken than lanes: one still competes. */
  lemma SomeLaneLeft(p: seq<real>, idx: seq<nat>, out: seq<nat>) returns (l: nat)
    requires |out| < |idx| && (forall i, j :: 0 <= i < j < |idx| ==> idx[i] != idx[j])
    requires forall i, j :: 0 <= i < j < |out| ==> Beats(p, out[i], out[j])
    ensures l < |idx| && idx[l] !in out
  {
    DescendingSize(p, out);
    DistinctSize(idx);
    if forall k :: 0 <= k < |idx| ==> idx[k] in out {
      forall x | x in Elements(idx) ensures x in Elements(out) { var k :| 0 <= k < |idx| && idx[k] == x; }
      SubsetSize(Elements(idx), Elements(out));
    }
    l :| 0 <= l < |idx| && idx[l] !in out;
  }

  lemma {:induction false} DistinctSize(s: seq<nat>)
    requires forall i, j :: 0 <= i < j < |s| ==> s[i] != s[j]
    ensures |Elements(s)| == |s|
    decreases |s|
  {
    if s != [] {
      var n := |s| - 1;
      DistinctSize(s[..n]);
      assert s[n] !in s[..n];
      assert Elements(s) == Elements(s[..n]) + {s[n]};
    }
  }

  lemma SubsetSize(a: set<nat>, b: set<nat>)
    requires a <= b
    ensures |a| <= |b|
  {
    assert |b - a| == |b| - |a|;
  }

  /** One round keeps the picks a top list of the pool. */
  lemma RoundIsTop(p: seq<real>, vals: seq<Prob>, idx: seq<nat>, pool: set<nat>, out: seq<nat>) returns (w: nat)
    requires Candidates(p, vals, idx, out) && TopOf(p, pool, out) && |out| < |idx|
    requires (forall i, j :: 0 <= i < j < |idx| ==> idx[i] != idx[j]) && forall x :: x in pool <==> x in idx
    ensures w < |vals| && vals[w] == SimdMax(vals) && vals[w] == P(p[idx[w]])
    ensures idx[w] == SimdMaxInt(Marks(vals, idx, SimdMax(vals)))
    ensures TopOf(p, pool, out + [idx[w]])
  {
    var l := SomeLaneLeft(p, idx, out);
    w := WinnerIsBest(p, vals, idx, l);
    assert idx[w] in idx;
    forall x | x in pool && x !in out && x != idx[w] ensures Beats(p, idx[w], x) {
      var k :| 0 <= k < |idx| && idx[k] == x;
    }
    TopStep(p, pool, out, idx[w]);
  }

  /** The scratch holds the picks and their probabilities from a place on. */
  ghost predicate Written(p: seq<real>, probs: array<Prob>, indices: array<nat>, at: nat, out: seq<nat>)
    reads probs, indices
  {
    && at + |out| <= probs.Length == indices.Length
    && forall r :: 0 <= r < |out| ==> out[r] < |p| && indices[at + r] == out[r] && probs[at + r] == P(p[out[r]])
  }

  /** A lane marks its register as taken if its expert won. */
  function Taken(vals: seq<Prob>, idx: seq<nat>, index: int): (r: seq<Prob>)
    requires |vals| == |idx|
    ensures |r| == |vals| && forall k :: 0 <= k < |r| ==> r[k] == if idx[k] == index then NegInf else vals[k]
  {
    seq(|vals|, k requires 0 <= k < |vals| && |vals| == |idx| => if idx[k] == index then NegInf else vals[k])
  }

  lemma TakenCandidates(p: seq<real>, vals: seq<Prob>, idx: seq<nat>, out: seq<nat>, w: nat)
    requires Candidates(p, vals, idx, out) && w < |idx|
    ensures Candidates(p, Taken(vals, idx, idx[w]), idx, out + [idx[w]])
  {
  }

  lemma LanesDistinct(lo: nat, width: nat)
    ensures var idx := Lanes(lo, width); forall i, j :: 0 <= i < j < |idx| ==> idx[i] != idx[j]
  {
  }

  /** One round: the winner is found and its lane marked. */
  method Round(p: seq<real>, candidate: seq<Prob>, idx: seq<nat>, ghost out: seq<nat>)
    returns (best: Prob, index: nat, candidate': seq<Prob>)
    requires Candidates(p, candidate, idx, out) && TopOf(p, Elements(idx), out) && |out| < |idx|
    requires forall i, j :: 0 <= i < j < |idx| ==> idx[i] != idx[j]
    ensures index < |p| && best == P(p[index])
    ensures Candidates(p, candidate', idx, out + [index]) && TopOf(p, Elements(idx), out + [index])
  {
    ghost var w := RoundIsTop(p, candidate, idx, Elements(idx), out);
    TakenCandidates(p, candidate, idx, out, w);
    hide TopOf, Beats, Elements, Taken;
    var i;
    best, i := Winner(candidate, idx);
    index := i;
    candidate' := Taken(candidate, idx, index);
  }

  /** Write one pick behind those already written. */
  method Store(p: seq<real>, probs: array<Prob>, indices: array<nat>, at: nat, rank: nat, best: Prob, index: nat, ghost out: seq<nat>)
    requires Written(p, probs, indices, at, out) && |out| == rank && at + rank < probs.Length
    requires index < |p| && best == P(p[index])
    modifies probs, indices
    ensures Written(p, probs, indices, at, out + [index])
    ensures forall s :: 0 <= s < probs.Length && s != at + rank ==> indices[s] == old(indices[s]) && probs[s] == old(probs[s])
  {
    probs[at + rank], indices[at + rank] := best, index;
  }

  /** A group's own top k, written to its slice of the shared scratch. */
  method GroupTop(p: seq<real>, lo: nat, width: nat, k: nat, localProbs: array<Prob>, localIndices: array<nat>, at: nat)
    returns (ghost out: seq<nat>)
    requires lo + width <= |p| && k <= width && at + k <= localProbs.Length == localIndices.Length
    modifies localProbs, localIndices
    ensures |out| == k && TopOf(p, Elements(Lanes(lo, width)), out)
    ensures Written(p, localProbs, localIndices, at, out)
    ensures forall s :: 0 <= s < localProbs.Length && !(at <= s < at + k) ==>
      localIndices[s] == old(localIndices[s]) && localProbs[s] == old(localProbs[s])
  {
    var idx := Lanes(lo, width);
    var candidate := seq(width, l requires 0 <= l < width && lo + width <= |p| => P(p[lo + l]));
    out := [];
    LanesDistinct(lo, width);
    NoneTop(p, Elements(idx));
    assert Candidates(p, candidate, idx, []);
    hide TopOf, Beats, Lanes, Elements, Candidates;
    for rank := 0 to k
      invariant |out| == rank && TopOf(p, Elements(idx), out) && Candidates(p, candidate, idx, out)
      invariant Written(p, localProbs, localIndices, at, out)
      invariant forall s :: 0 <= s < localProbs.Length && !(at <= s < at + k) ==>
        localIndices[s] == old(localIndices[s]) && localProbs[s] == old(localProbs[s])
    {
      var best, index;
      best, index, candidate := Round(p, candidate, idx, out);
      Store(p, localProbs, localIndices, at, rank, best, index, out);
      out := out + [index];
    }
  }

  lemma NoneTop(p: seq<real>, pool: set<nat>)
    ensures TopOf(p, pool, [])
  {
  }

  // ---- second stage ------------------------------------------------------------------------

  /** The better of a lane's two slots. */
  predicate TakesSecond(p0: Prob, i0: nat, p1: Prob, i1: nat) {
    Above(p1, p0) || (p1 == p0 && i1 > i0)
  }

  /** The slot a lane offers. */
  function Slot(vals: seq<Prob>, idx: seq<nat>, half: nat, l: nat): (s: nat)
    requires |vals| == |idx| == 2 * half && l < half
    ensures s == l || s == l + half
  {
    if TakesSecond(vals[l], idx[l], vals[l + half], idx[l + half]) then l + half else l
  }

  function OfferedValues(vals: seq<Prob>, idx: seq<nat>, half: nat): (r: seq<Prob>)
    requires |vals| == |idx| == 2 * half
    ensures |r| == half && forall l :: 0 <= l < half ==> r[l] == vals[Slot(vals, idx, half, l)]
  {
    seq(half, l requires 0 <= l < half && |vals| == |idx| == 2 * half => vals[Slot(vals, idx, half, l)])
  }

  function OfferedIndices(vals: seq<Prob>, idx: seq<nat>, half: nat): (r: seq<nat>)
    requires |vals| == |idx| == 2 * half
    ensures |r| == half && forall l :: 0 <= l < half ==> r[l] == idx[Slot(vals, idx, half, l)]
  {
    seq(half, l requires 0 <= l < half && |vals| == |idx| == 2 * half => idx[Slot(vals, idx, half, l)])
  }

  /** A competing slot is offered by its lane, or beaten by the one that is. */
  lemma SlotOffered(p: seq<real>, vals: seq<Prob>, idx: seq<nat>, half: nat, out: seq<nat>, k: nat)
    requires Candidates(p, vals, idx, out) && |idx| == 2 * half && k < |idx| && vals[k].P?
    requires forall i, j :: 0 <= i < j < |idx| ==> idx[i] != idx[j]
    ensures var s := Slot(vals, idx, half, if k < half then k else k - half);
      vals[s].P? && (s == k || Beats(p, idx[s], idx[k]))
  {
  }

  lemma OffersHeld(p: seq<real>, vals: seq<Prob>, idx: seq<nat>, half: nat, out: seq<nat>)
    requires Candidates(p, vals, idx, out) && |idx| == 2 * half
    ensures Held(p, OfferedValues(vals, idx, half), OfferedIndices(vals, idx, half))
  {
    hide Slot;
  }

  /** Reducing over the lanes' offers finds the same winner as over all the slots. */
  lemma OffersWinner(p: seq<real>, vals: seq<Prob>, idx: seq<nat>, half: nat, out: seq<nat>) returns (w: nat)
    requires Candidates(p, vals, idx, out) && |idx| == 2 * half && TopOf(p, Elements(idx), out) && |out| < |idx|
    requires forall i, j :: 0 <= i < j < |idx| ==> idx[i] != idx[j]
    ensures w < |idx| && vals[w] == P(p[idx[w]]) && vals[w] == SimdMax(OfferedValues(vals, idx, half))
    ensures idx[w] == SimdMaxInt(Marks(OfferedValues(vals, idx, half), OfferedIndices(vals, idx, half), vals[w]))
    ensures TopOf(p, Elements(idx), out + [idx[w]])
  {
    var l := SomeLaneLeft(p, idx, out);
    SlotOffered(p, vals, idx, half, out, l);
    OffersHeld(p, vals, idx, half, out);
    hide Slot, Beats, TopOf, Elements, Held;
    var ov, oi := OfferedValues(vals, idx, half), OfferedIndices(vals, idx, half);
    var o := WinnerIsBest(p, ov, oi, if l < half then l else l - half);
    w := Slot(vals, idx, half, o);
    forall k | 0 <= k < |idx| && vals[k].P? && idx[k] != idx[w] ensures Beats(p, idx[w], idx[k]) {
      SlotOffered(p, vals, idx, half, out, k);
      OfferBeaten(p, vals, idx, half, w, o, k);
    }
    WinnerIsTop(p, vals, idx, out, w);
  }

  lemma OfferBeaten(p: seq<real>, vals: seq<Prob>, idx: seq<nat>, half: nat, w: nat, o: nat, k: nat)
    requires |vals| == |idx| == 2 * half && o < half && w == Slot(vals, idx, half, o) && k < |idx| && idx[k] != idx[w]
    requires forall i, j :: 0 <= i < j < |idx| ==> idx[i] != idx[j]
    requires var s := Slot(vals, idx, half, if k < half then k else k - half); vals[s].P? && (s == k || Beats(p, idx[s], idx[k]))
    requires var ov, oi := OfferedValues(vals, idx, half), OfferedIndices(vals, idx, half);
      forall m :: 0 <= m < half && ov[m].P? && oi[m] != oi[o] ==> Beats(p, oi[o], oi[m])
    ensures Beats(p, idx[w], idx[k])
  {
    hide Slot;
    var m := if k < half then k else k - half;
    var s := Slot(vals, idx, half, m);
    var ov, oi := OfferedValues(vals, idx, half), OfferedIndices(vals, idx, half);
    assert ov[m].P? && oi[m] == idx[s] && oi[o] == idx[w];
    if s != w {
      assert idx[s] != idx[w];
      assert Beats(p, idx[w], idx[s]);
      if s != k { BeatsTransitive(p, idx[w], idx[s], idx[k]); }
    }
  }

  lemma WinnerIsTop(p: seq<real>, vals: seq<Prob>, idx: seq<nat>, out: seq<nat>, w: nat)
    requires Candidates(p, vals, idx, out) && TopOf(p, Elements(idx), out) && w < |idx| && vals[w].P?
    requires forall k :: 0 <= k < |idx| && vals[k].P? && idx[k] != idx[w] ==> Beats(p, idx[w], idx[k])
    ensures TopOf(p, Elements(idx), out + [idx[w]])
  {
    assert idx[w] in idx;
    forall x | x in Elements(idx) && x !in out && x != idx[w] ensures Beats(p, idx[w], x) {
      var k :| 0 <= k < |idx| && idx[k] == x;
    }
    TopStep(p, Elements(idx), out, idx[w]);
  }

  /** A lane whose offer won marks the slot it offered. */
  function TakenOffer(vals: seq<Prob>, idx: seq<nat>, half: nat, index: int): (r: seq<Prob>)
    requires |vals| == |idx| == 2 * half
    ensures |r| == |vals|
    ensures forall k :: 0 <= k < |r| ==>
      r[k] == if k == Slot(vals, idx, half, if k < half then k else k - half) && idx[k] == index then NegInf else vals[k]
  {
    seq(|vals|, k requires 0 <= k < |vals| && |vals| == |idx| == 2 * half =>
      if k == Slot(vals, idx, half, if k < half then k else k - half) && idx[k] == index then NegInf else vals[k])
  }

  /** One merge round over the paired slots. */
  method MergeRound(p: seq<real>, vals: seq<Prob>, idx: seq<nat>, half: nat, ghost out: seq<nat>)
    returns (best: Prob, index: nat, vals': seq<Prob>)
    requires Candidates(p, vals, idx, out) && |idx| == 2 * half && TopOf(p, Elements(idx), out) && |out| < |idx|
    requires forall i, j :: 0 <= i < j < |idx| ==> idx[i] != idx[j]
    ensures index < |p| && best == P(p[index])
    ensures Candidates(p, vals', idx, out + [index]) && TopOf(p, Elements(idx), out + [index])
  {
    ghost var w := OffersWinner(p, vals, idx, half, out);
    OfferTaken(p, vals, idx, half, out, w);
    hide TopOf, Beats, Elements, TakenOffer, Slot;
    var i;
    best, i := Winner(OfferedValues(vals, idx, half), OfferedIndices(vals, idx, half));
    index := i;
    vals' := TakenOffer(vals, idx, half, index);
  }

  lemma OfferTaken(p: seq<real>, vals: seq<Prob>, idx: seq<nat>, half: nat, out: seq<nat>, w: nat)
    requires Candidates(p, vals, idx, out) && |idx| == 2 * half && w < |idx| && vals[w].P?
    requires forall i, j :: 0 <= i < j < |idx| ==> idx[i] != idx[j]
    requires vals[w] == SimdMax(OfferedValues(vals, idx, half))
    requires idx[w] == SimdMaxInt(Marks(OfferedValues(vals, idx, half), OfferedIndices(vals, idx, half), vals[w]))
    ensures Candidates(p, TakenOffer(vals, idx, half, idx[w]), idx, out + [idx[w]])
  {
    WinnerOffered(p, vals, idx, half, out, w);
    hide Slot, SimdMax, SimdMaxInt, Candidates, OfferedValues, OfferedIndices, Marks;
    MarkedCandidates(p, vals, TakenOffer(vals, idx, half, idx[w]), idx, out, w);
  }

  /** The winning slot is the one its lane offers. */
  lemma WinnerOffered(p: seq<real>, vals: seq<Prob>, idx: seq<nat>, half: nat, out: seq<nat>, w: nat)
    requires |vals| == |idx| == 2 * half && w < |idx|
    requires forall i, j :: 0 <= i < j < |idx| ==> idx[i] != idx[j]
    requires OfferedValues(vals, idx, half) != []
    requires idx[w] == SimdMaxInt(Marks(OfferedValues(vals, idx, half), OfferedIndices(vals, idx, half), vals[w]))
    ensures Slot(vals, idx, half, if w < half then w else w - half) == w
  {
    hide Slot, SimdMaxInt, OfferedValues, Marks;
    var marks := Marks(OfferedValues(vals, idx, half), OfferedIndices(vals, idx, half), vals[w]);
    var o :| 0 <= o < |marks| && marks[o] == idx[w];
    assert OfferedIndices(vals, idx, half)[o] == idx[w];
  }

  lemma MarkedCandidates(p: seq<real>, vals: seq<Prob>, taken: seq<Prob>, idx: seq<nat>, out: seq<nat>, w: nat)
    requires Candidates(p, vals, idx, out) && w < |idx| && |taken| == |vals|
    requires forall i, j :: 0 <= i < j < |idx| ==> idx[i] != idx[j]
    requires forall k :: 0 <= k < |taken| ==> taken[k] == if k == w then NegInf else vals[k]
    ensures Candidates(p, taken, idx, out + [idx[w]])
  {
  }

  /** The merge: the top k of the scratch, in descending order. */
  method Merge(p: seq<real>, localProbs: array<Prob>, localIndices: array<nat>, half: nat, k: nat)
    returns (merged: array<nat>, ghost out: seq<nat>)
    requires localProbs.Length == localIndices.Length == 2 * half && k <= 2 * half
    requires Candidates(p, localProbs[..], localIndices[..], [])
    requires forall i, j :: 0 <= i < j < localIndices.Length ==> localIndices[i] != localIndices[j]
    ensures fresh(merged) && merged[..] == out && |out| == k && TopOf(p, Elements(localIndices[..]), out)
  {
    var vals, idx := localProbs[..], localIndices[..];
    merged := new nat[k](_ => 0);
    out := [];
    NoneTop(p, Elements(idx));
    hide TopOf, Beats, Elements, Candidates;
    for rank := 0 to k
      invariant |out| == rank && |vals| == |idx| && merged[..rank] == out
      invariant TopOf(p, Elements(idx), out) && Candidates(p, vals, idx, out)
    {
      var best, index;
      best, index, vals := MergeRound(p, vals, idx, half, out);
      SameLength(p, vals, idx, out + [index]);
      merged[rank] := index;
      out := out + [index];
    }
    assert merged[..k] == merged[..];
  }

  lemma SameLength(p: seq<real>, vals: seq<Prob>, idx: seq<nat>, out: seq<nat>)
    requires Candidates(p, vals, idx, out)
    ensures |vals| == |idx|
  {
  }

  // ---- both stages ---------------------------------------------------------------------------

  lemma Product(g: nat, groups: nat, w: nat)
    requires g < groups
    ensures g * w + w <= groups * w && g * w >= 0
  {
    assert (g + 1) * w == g * w + w;
    MoreGroups(g + 1, groups, w);
  }

  lemma MoreGroups(a: nat, b: nat, w: nat)
    requires a <= b
    ensures a * w <= b * w
  {
  }

  lemma Located(x: nat, groups: nat, w: nat) returns (g: nat, r: nat)
    requires x < groups * w
    ensures g < groups && r < w && x == g * w + r
  {
    g, r := x / w, x % w;
    assert x == g * w + r;
    if g >= groups { MoreGroups(groups, g, w); }
  }

  /** The groups' tops and where they are written. */
  ghost predicate Staged(p: seq<real>, width: nat, k: nat, tops: seq<seq<nat>>, probs: array<Prob>, indices: array<nat>)
    reads probs, indices
  {
    forall g :: 0 <= g < |tops| ==>
      && |tops[g]| == k && g * k >= 0 && g * width >= 0 && TopOf(p, Elements(Lanes(g * width, width)), tops[g])
      && Written(p, probs, indices, g * k, tops[g])
  }

  /** Every scratch slot holds its group's pick: all distinct, all competing, and
      together the groups' tops. */
  lemma StagedSlots(p: seq<real>, groups: nat, width: nat, k: nat, tops: seq<seq<nat>>, probs: array<Prob>, indices: array<nat>)
    requires Staged(p, width, k, tops, probs, indices) && |tops| == groups && probs.Length == indices.Length == groups * k
    ensures Candidates(p, probs[..], indices[..], [])
    ensures forall i, j :: 0 <= i < j < indices.Length ==> indices[i] != indices[j]
    ensures Elements(indices[..]) == set g, i | 0 <= g < |tops| && 0 <= i < |tops[g]| :: tops[g][i]
  {
    var best := set g, i | 0 <= g < |tops| && 0 <= i < |tops[g]| :: tops[g][i];
    forall s | 0 <= s < indices.Length
      ensures indices[s] < |p| && probs[s] == P(p[indices[s]]) && indices[s] in best
    {
      var g, r := Located(s, groups, k);
      assert indices[g * k + r] == tops[g][r];
    }
    forall x | x in best ensures x in indices[..] {
      var g, i :| 0 <= g < |tops| && 0 <= i < |tops[g]| && tops[g][i] == x;
      Product(g, groups, k);
      assert indices[..][g * k + i] == x;
    }
    forall i, j | 0 <= i < j < indices.Length ensures indices[i] != indices[j] {
      SlotsDiffer(p, groups, width, k, tops, probs, indices, i, j);
    }
  }

  lemma SlotsDiffer(p: seq<real>, groups: nat, width: nat, k: nat, tops: seq<seq<nat>>, probs: array<Prob>, indices: array<nat>, i: nat, j: nat)
    requires Staged(p, width, k, tops, probs, indices) && |tops| == groups && probs.Length == indices.Length == groups * k
    requires i < j < indices.Length
    ensures indices[i] != indices[j]
  {
    var g, r := Located(i, groups, k);
    var h, q := Located(j, groups, k);
    assert indices[g * k + r] == tops[g][r] && indices[h * k + q] == tops[h][q];
    if g == h {
      assert Beats(p, tops[g][r], tops[g][q]);
    } else {
      InGroup(p, width, tops[g], g, r);
      InGroup(p, width, tops[h], h, q);
      if g < h { Product(g, h, width); } else { Product(h, g, width); }
    }
  }

  lemma InGroup(p: seq<real>, width: nat, top: seq<nat>, g: nat, r: nat)
    requires g * width >= 0 && TopOf(p, Elements(Lanes(g * width, width)), top) && r < |top|
    ensures g * width <= top[r] < g * width + width
  {
  }

  /** The experts of all groups, exactly. */
  lemma AllGrouped(p: seq<real>, groups: nat, width: nat, pools: seq<set<nat>>, pool: set<nat>)
    requires |p| == groups * width && |pools| == groups
    requires forall g :: 0 <= g < groups ==> g * width >= 0 && pools[g] == Elements(Lanes(g * width, width))
    requires forall x: nat :: x in pool <==> x < |p|
    ensures forall x :: x in pool <==> exists g :: 0 <= g < |pools| && x in pools[g]
  {
    forall x: nat ensures x in pool <==> exists g :: 0 <= g < |pools| && x in pools[g] {
      if x in pool {
        var g, r := Located(x, groups, width);
        assert Lanes(g * width, width)[r] == x;
        assert x in pools[g];
      }
      if exists g :: 0 <= g < |pools| && x in pools[g] {
        var g :| 0 <= g < |pools| && x in pools[g];
        Product(g, groups, width);
      }
    }
  }

  lemma AllLanes(n: nat)
    ensures forall x: nat :: x in Lanes(0, n) <==> x < n
  {
    forall x: nat | x < n ensures x in Lanes(0, n) { assert Lanes(0, n)[x] == x; }
  }

  ghost function AllExperts(n: nat): (r: set<nat>)
    ensures forall x: nat :: x in r <==> x < n
  {
    AllLanes(n);
    Elements(Lanes(0, n))
  }

  /** First stage over all groups. */
  method StageGroups(p: seq<real>, groups: nat, width: nat, k: nat) returns (probs: array<Prob>, indices: array<nat>, ghost tops: seq<seq<nat>>)
    requires |p| == groups * width && k <= width && groups * k >= 0
    ensures fresh(probs) && fresh(indices) && probs.Length == indices.Length == groups * k
    ensures |tops| == groups && Staged(p, width, k, tops, probs, indices)
  {
    probs, indices := new Prob[groups * k](_ => NegInf), new nat[groups * k](_ => 0);
    tops := [];
    for g := 0 to groups
      invariant |tops| == g && Staged(p, width, k, tops, probs, indices)
    {
      Product(g, groups, width);
      Product(g, groups, k);
      forall h | 0 <= h < g ensures h * k + k <= g * k { Product(h, g, k); }
      hide TopOf;
      ghost var top := GroupTop(p, g * width, width, k, probs, indices, g * k);
      tops := tops + [top];
    }
  }

  lemma BothStages(p: seq<real>, groups: nat, width: nat, k: nat, tops: seq<seq<nat>>, probs: array<Prob>, indices: array<nat>, out: seq<nat>)
    requires |p| == groups * width && Staged(p, width, k, tops, probs, indices) && |tops| == groups && |out| == k
    requires probs.Length == indices.Length == groups * k && TopOf(p, Elements(indices[..]), out)
    ensures TopOf(p, AllExperts(|p|), out)
  {
    StagedSlots(p, groups, width, k, tops, probs, indices);
    forall g | 0 <= g < groups ensures g * width >= 0 { Product(g, groups, width); }
    var pools := seq(groups, g requires 0 <= g < groups && (forall h :: 0 <= h < groups ==> h * width >= 0) => Elements(Lanes(g * width, width)));
    hide TopOf, Elements, Lanes, Written;
    AllGrouped(p, groups, width, pools, AllExperts(|p|));
    MergedTop(p, pools, tops, AllExperts(|p|), out);
  }

  /** The merged list, turned round. */
  method Emit(merged: array<nat>) returns (ids: seq<nat>)
    ensures Reversed(ids) == merged[..]
  {
    var k := merged.Length;
    ids := [];
    for r := 0 to k
      invariant |ids| == r && Reversed(ids) == merged[k - r..]
    {
      var source := k - 1 - r;
      assert merged[k - (r + 1)..] == [merged[source]] + merged[k - r..];
      ReversedSnoc(ids, merged[source]);
      ids := ids + [merged[source]];
    }
  }

  /** The router's choice: the k experts of largest probability, ties to the larger
      index, emitted in ascending rank. There is only one such list. */
  method TwoStageTopK(p: seq<real>, groups: nat, width: nat, k: nat, half: nat) returns (ids: seq<nat>)
    requires |p| == groups * width && k <= width && groups * k == 2 * half && k <= 2 * half
    ensures |ids| == k && TopOf(p, AllExperts(|p|), Reversed(ids))
  {
    var probs, indices;
    ghost var tops;
    probs, indices, tops := StageGroups(p, groups, width, k);
    StagedSlots(p, groups, width, k, tops, probs, indices);
    hide TopOf, Elements, Staged, Candidates;
    var merged;
    ghost var out;
    merged, out := Merge(p, probs, indices, half, k);
    BothStages(p, groups, width, k, tops, probs, indices, out);
    ids := Emit(merged);
  }

  lemma ReversedSnoc(s: seq<nat>, x: nat)
    ensures Reversed(s + [x]) == [x] + Reversed(s)
  {
  }
}
