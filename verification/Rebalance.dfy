/** Redistribution of one slot budget over the layers by observed miss pressure:
    integer apportionment, then a clamp-and-redistribute loop, then resizes that
    never let the running sum pass the budget. */
module Rebalance {
  import opened Collections
  import opened SlotCaches

  function Sum(s: seq<int>): int {
    if s == [] then 0 else s[|s| - 1] + Sum(s[..|s| - 1])
  }

  lemma SumSnoc(s: seq<int>, x: int)
    ensures Sum(s + [x]) == Sum(s) + x
  {
    assert (s + [x])[..|s|] == s;
  }

  lemma {:induction false} SumUpdate(s: seq<int>, i: nat, v: int)
    requires i < |s|
    ensures Sum(s[i := v]) == Sum(s) - s[i] + v
  {
    var n := |s| - 1;
    if i < n {
      SumUpdate(s[..n], i, v);
      assert s[i := v][..n] == s[..n][i := v];
    } else {
      assert s[i := v][..n] == s[..n];
    }
  }

  lemma {:induction false} SumAtMost(s: seq<int>, hi: int)
    requires forall i :: 0 <= i < |s| ==> s[i] <= hi
    ensures Sum(s) <= |s| * hi
  {
    if s != [] {
      var n := |s| - 1;
      SumAtMost(s[..n], hi);
      assert |s| * hi == n * hi + hi;
    }
  }

  lemma {:induction false} SumAtLeast(s: seq<int>, lo: int)
    requires forall i :: 0 <= i < |s| ==> s[i] >= lo
    ensures Sum(s) >= |s| * lo
  {
    if s != [] {
      var n := |s| - 1;
      SumAtLeast(s[..n], lo);
      assert |s| * lo == n * lo + lo;
    }
  }

  lemma {:induction false} SumAppend(a: seq<int>, b: seq<int>)
    ensures Sum(a + b) == Sum(a) + Sum(b)
    decreases |b|
  {
    if b == [] {
      assert a + b == a;
    } else {
      SumAppend(a, b[..|b| - 1]);
      assert (a + b)[..|a + b| - 1] == a + b[..|b| - 1];
    }
  }

  // ---- proportional shares ------------------------------------------------------

  function Shares(ds: seq<nat>, amount: nat, weight: nat): (r: seq<int>)
    requires weight > 0
    ensures |r| == |ds| && forall i :: 0 <= i < |ds| ==> r[i] == ds[i] * amount / weight
  {
    seq(|ds|, i requires 0 <= i < |ds| => ds[i] * amount / weight)
  }

  lemma {:induction false} SharesScaled(ds: seq<nat>, amount: nat, weight: nat)
    requires weight > 0
    ensures 0 <= amount * Sum(ds) - weight * Sum(Shares(ds, amount, weight)) <= |ds| * (weight - 1)
  {
    if ds != [] {
      var n := |ds| - 1;
      SharesScaled(ds[..n], amount, weight);
      assert Shares(ds, amount, weight)[..n] == Shares(ds[..n], amount, weight);
      var q, rest := Sum(Shares(ds[..n], amount, weight)), Sum(ds[..n]);
      Division(ds[n] * amount, weight);
      ScaledStep(amount, rest, weight, q, n, ds[n], ds[n] * amount / weight);
    }
  }

  lemma ScaledStep(amount: nat, rest: int, w: nat, q: int, n: nat, d: nat, p: int)
    requires 0 <= amount * rest - w * q <= n * (w - 1) && 0 <= d * amount - w * p <= w - 1
    ensures 0 <= amount * (d + rest) - w * (p + q) <= (n + 1) * (w - 1)
  {
    assert amount * (d + rest) == d * amount + amount * rest;
    assert w * (p + q) == w * p + w * q;
    assert (n + 1) * (w - 1) == n * (w - 1) + (w - 1);
  }

  lemma Division(x: nat, w: nat)
    requires w > 0
    ensures 0 <= x - w * (x / w) <= w - 1
  {
  }

  /** What rounding down leaves over is less than one per layer. */
  lemma SharesRemainder(ds: seq<nat>, amount: nat)
    requires Sum(ds) > 0
    ensures 0 <= amount - Sum(Shares(ds, amount, Sum(ds))) < |ds|
  {
    var w := Sum(ds);
    SharesScaled(ds, amount, w);
    var q := Sum(Shares(ds, amount, w));
    Squeeze(amount, q, w, |ds|);
  }

  lemma Squeeze(a: int, q: int, w: nat, n: nat)
    requires w > 0 && 0 <= a * w - w * q <= n * (w - 1)
    requires n > 0
    ensures 0 <= a - q < n
  {
    assert a * w - w * q == (a - q) * w;
    Monotone(a - q, -1, w);
    Monotone(n, a - q, w);
  }

  lemma Monotone(x: int, y: int, w: nat)
    ensures x <= y ==> x * w <= y * w
  {
  }

  // ---- the most pressured first -------------------------------------------------

  predicate Indices(s: seq<nat>, n: nat) {
    forall k :: 0 <= k < |s| ==> s[k] < n
  }

  /** Stable sort of indices by descending pressure. */
  function Ranked(open: seq<nat>, deltas: seq<int>): (r: seq<nat>)
    requires Indices(open, |deltas|)
    ensures |r| == |open| && Indices(r, |deltas|) && forall i :: i in r <==> i in open
  {
    if open == [] then []
    else
      var n := |open| - 1;
      assert open == open[..n] + [open[n]];
      Inserted(Ranked(open[..n], deltas), open[n], deltas)
  }

  function Inserted(r: seq<nat>, x: nat, deltas: seq<int>): (s: seq<nat>)
    requires x < |deltas| && Indices(r, |deltas|)
    ensures |s| == |r| + 1 && Indices(s, |deltas|) && forall i :: i in s <==> i in r || i == x
  {
    if r == [] || deltas[r[|r| - 1]] >= deltas[x] then r + [x]
    else
      assert r == r[..|r| - 1] + [r[|r| - 1]];
      Inserted(r[..|r| - 1], x, deltas) + [r[|r| - 1]]
  }

  /** Layer i is served before layer j: under more pressure, or as much and earlier. */
  predicate Ahead(deltas: seq<int>, i: nat, j: nat)
    requires i < |deltas| && j < |deltas|
  {
    deltas[i] > deltas[j] || (deltas[i] == deltas[j] && i < j)
  }

  ghost predicate Descending(r: seq<nat>, deltas: seq<int>)
    requires Indices(r, |deltas|)
  {
    forall i, j :: 0 <= i < j < |r| ==> Ahead(deltas, r[i], r[j])
  }

  ghost predicate Ascending(s: seq<nat>) {
    forall i, j :: 0 <= i < j < |s| ==> s[i] < s[j]
  }

  lemma AppendedFacts(r: seq<nat>, x: nat, deltas: seq<int>)
    requires x < |deltas| && Indices(r, |deltas|) && Descending(r, deltas) && Distinct(r) && x !in r
    requires forall i :: 0 <= i < |r| ==> Ahead(deltas, r[i], x)
    ensures Descending(r + [x], deltas) && Distinct(r + [x])
  {
  }

  lemma {:induction false} InsertedFacts(r: seq<nat>, x: nat, deltas: seq<int>)
    requires x < |deltas| && Indices(r, |deltas|) && Descending(r, deltas) && Distinct(r)
    requires forall i :: 0 <= i < |r| ==> r[i] < x
    ensures Descending(Inserted(r, x, deltas), deltas) && Distinct(Inserted(r, x, deltas))
    decreases |r|
  {
    if r == [] || deltas[r[|r| - 1]] >= deltas[x] {
      AppendedFacts(r, x, deltas);
    } else {
      var init, last := r[..|r| - 1], r[|r| - 1];
      InsertedFacts(init, x, deltas);
      assert last in r && last !in init;
      var s := Inserted(init, x, deltas);
      hide Descending, Inserted;
      forall i | 0 <= i < |s| ensures Ahead(deltas, s[i], last) {
        assert s[i] in s;
        if s[i] in init { LastIsLeast(r, s[i], deltas); }
      }
      AppendedFacts(s, last, deltas);
    }
  }

  lemma LastIsLeast(r: seq<nat>, y: nat, deltas: seq<int>)
    requires Indices(r, |deltas|) && Descending(r, deltas) && r != [] && y in r[..|r| - 1] && y < |deltas|
    ensures Ahead(deltas, y, r[|r| - 1])
  {
    var k :| 0 <= k < |r| - 1 && r[k] == y;
  }

  lemma {:induction false} RankedFacts(open: seq<nat>, deltas: seq<int>)
    requires Ascending(open) && Indices(open, |deltas|)
    ensures Descending(Ranked(open, deltas), deltas) && Distinct(Ranked(open, deltas))
    decreases |open|
  {
    if open != [] {
      var n := |open| - 1;
      RankedFacts(open[..n], deltas);
      var r := Ranked(open[..n], deltas);
      forall i | 0 <= i < |r| ensures r[i] < open[n] {
        assert r[i] in r;
        var k :| 0 <= k < n && open[k] == r[i];
      }
      InsertedFacts(r, open[n], deltas);
    }
  }

  // ---- the rounds ---------------------------------------------------------------

  /** A layer under more pressure never ends up with fewer slots. */
  ghost predicate Fair(targets: seq<int>, deltas: seq<nat>)
    requires |targets| == |deltas|
  {
    forall i, j :: 0 <= i < |deltas| && 0 <= j < |deltas| && deltas[i] < deltas[j] ==> targets[i] <= targets[j]
  }

  function Clamped(targets: seq<int>, cap: nat): (r: seq<int>)
    ensures |r| == |targets| && forall i :: 0 <= i < |r| ==> r[i] == Least(targets[i], cap)
  {
    seq(|targets|, i requires 0 <= i < |targets| => Least(targets[i], cap))
  }

  /** Cut every target at the cap, and count what that frees. */
  method Clamp(targets: seq<int>, cap: nat, capped: set<nat>) returns (cut: seq<int>, overflow: nat, capped': set<nat>)
    ensures cut == Clamped(targets, cap) && Sum(targets) == Sum(cut) + overflow
    ensures forall i: nat :: i in capped' <==> i in capped || (i < |targets| && targets[i] > cap)
    ensures overflow == 0 ==> cut == targets
  {
    cut, overflow, capped' := targets, 0, capped;
    for i := 0 to |targets|
      invariant |cut| == |targets| && Sum(targets) == Sum(cut) + overflow
      invariant forall k :: 0 <= k < |cut| ==> cut[k] == if k < i then Least(targets[k], cap) else targets[k]
      invariant forall k: nat :: k in capped' <==> k in capped || (k < i && targets[k] > cap)
      invariant overflow == 0 ==> cut == targets
    {
      if cut[i] > cap {
        SumUpdate(cut, i, cap);
        overflow, cut, capped' := overflow + (cut[i] - cap), cut[i := cap], capped' + {i};
      }
    }
  }

  /** The first k open layers have their shares. */
  ghost predicate Granted(t: seq<int>, r: seq<int>, open: seq<nat>, shares: seq<int>, k: nat)
    requires |open| == |shares| && k <= |open| && Indices(open, |t|)
  {
    && |r| == |t| && Sum(r) == Sum(t) + Sum(shares[..k])
    && (forall m :: 0 <= m < |open| ==> r[open[m]] == t[open[m]] + if m < k then shares[m] else 0)
    && (forall i :: 0 <= i < |r| && i !in open ==> r[i] == t[i])
  }

  lemma GrantOne(t: seq<int>, r: seq<int>, open: seq<nat>, shares: seq<int>, k: nat)
    requires |open| == |shares| && k < |open| && Indices(open, |t|) && Distinct(open)
    requires Granted(t, r, open, shares, k)
    ensures Granted(t, r[open[k] := r[open[k]] + shares[k]], open, shares, k + 1)
  {
    SumUpdate(r, open[k], r[open[k]] + shares[k]);
    SumSnoc(shares[..k], shares[k]);
    assert shares[..k + 1] == shares[..k] + [shares[k]];
    hide Sum;
    assert open[k] in open;
  }

  /** Give the open layers their shares. */
  method Grant(targets: seq<int>, open: seq<nat>, shares: seq<int>) returns (r: seq<int>)
    requires |open| == |shares| && Distinct(open) && Indices(open, |targets|)
    ensures |r| == |targets| && Sum(r) == Sum(targets) + Sum(shares)
    ensures forall k :: 0 <= k < |open| ==> r[open[k]] == targets[open[k]] + shares[k]
    ensures forall i :: 0 <= i < |r| && i !in open ==> r[i] == targets[i]
  {
    r := targets;
    for k := 0 to |open|
      invariant Granted(targets, r, open, shares, k)
    {
      GrantOne(targets, r, open, shares, k);
      r := r[open[k] := r[open[k]] + shares[k]];
    }
    assert shares[..|open|] == shares;
  }

  function Picked(deltas: seq<nat>, open: seq<nat>): (r: seq<nat>)
    requires Indices(open, |deltas|)
    ensures |r| == |open| && forall k :: 0 <= k < |open| ==> r[k] == deltas[open[k]]
  {
    seq(|open|, k requires 0 <= k < |open| && Indices(open, |deltas|) => deltas[open[k]])
  }

  lemma {:induction false} SumNonNegative(ds: seq<nat>)
    ensures Sum(ds) >= 0 && forall k :: 0 <= k < |ds| ==> ds[k] <= Sum(ds)
  {
    if ds != [] {
      var n := |ds| - 1;
      SumNonNegative(ds[..n]);
      assert forall k :: 0 <= k < n ==> ds[k] == ds[..n][k];
    }
  }

  lemma {:induction false} SumEven(n: nat, x: int)
    ensures Sum(seq(n, _ => x)) == n * x
  {
    if n > 0 {
      SumEven(n - 1, x);
      assert seq(n, _ => x)[..n - 1] == seq(n - 1, _ => x);
      assert (n - 1) * x + x == n * x;
    }
  }

  /** A share is that part of the whole of an amount, rounded down. */
  predicate RoundsDown(share: int, part: nat, whole: nat, amount: int) {
    share * whole <= part * amount < (share + 1) * whole
  }

  /** What a layer weighs among the open ones: its pressure, or one where none of them
      is under any. */
  function Part(ds: seq<nat>, k: nat): nat
    requires k < |ds|
  {
    if Sum(ds) > 0 then ds[k] else 1
  }

  function Whole(ds: seq<nat>): nat {
    if Sum(ds) > 0 then Sum(ds) else |ds|
  }

  lemma QuotientRoundsDown(part: nat, whole: nat, amount: nat)
    requires whole > 0
    ensures RoundsDown(part * amount / whole, part, whole, amount)
  {
    var q := part * amount / whole;
    Division(part * amount, whole);
    assert (q + 1) * whole == whole * q + whole;
  }

  /** The shares of an amount, rounded down: in proportion to pressure, or even
      when no open layer is under any. */
  method RoundedShares(ds: seq<nat>, amount: nat) returns (shares: seq<int>)
    requires ds != []
    ensures |shares| == |ds| && 0 <= amount - Sum(shares) < |ds|
    ensures forall k :: 0 <= k < |ds| ==> shares[k] >= 0
    ensures forall j, k :: 0 <= j < |ds| && 0 <= k < |ds| && ds[j] <= ds[k] ==> shares[j] <= shares[k]
    ensures forall k :: 0 <= k < |ds| ==> RoundsDown(shares[k], Part(ds, k), Whole(ds), amount)
  {
    SumNonNegative(ds);
    var weight := Sum(ds);
    hide Sum, Shares, RoundsDown;
    if weight > 0 {
      SharesRemainder(ds, amount);
      SharesOrdered(ds, amount, weight);
      shares := Shares(ds, amount, weight);
      forall k | 0 <= k < |ds| ensures RoundsDown(shares[k], ds[k], weight, amount) {
        QuotientRoundsDown(ds[k], weight, amount);
      }
    } else {
      EvenShares(|ds|, amount);
      shares := seq(|ds|, _ => amount / |ds|);
      QuotientRoundsDown(1, |ds|, amount);
      assert 1 * amount == amount;
    }
  }

  lemma SharesOrdered(ds: seq<nat>, amount: nat, weight: nat)
    requires weight > 0
    ensures forall k :: 0 <= k < |ds| ==> Shares(ds, amount, weight)[k] >= 0
    ensures forall j, k :: 0 <= j < |ds| && 0 <= k < |ds| && ds[j] <= ds[k] ==>
      Shares(ds, amount, weight)[j] <= Shares(ds, amount, weight)[k]
  {
    var shares := Shares(ds, amount, weight);
    forall j, k | 0 <= j < |ds| && 0 <= k < |ds| && ds[j] <= ds[k] ensures 0 <= shares[j] <= shares[k] {
      ShareOrdered(ds[j], ds[k], amount, weight);
    }
  }

  lemma ShareOrdered(x: nat, y: nat, amount: nat, weight: nat)
    requires weight > 0 && x <= y
    ensures 0 <= x * amount / weight <= y * amount / weight
  {
    Monotone(x, y, amount);
    Monotone(0, x, amount);
    Division(x * amount, weight);
    Division(y * amount, weight);
    QuotientsOrdered(x * amount, y * amount, weight, x * amount / weight, y * amount / weight);
    QuotientsOrdered(0, x * amount, weight, 0, x * amount / weight);
  }

  lemma QuotientsOrdered(x: nat, y: nat, w: nat, p: int, q: int)
    requires x <= y && 0 <= x - w * p < w && 0 <= y - w * q < w
    ensures p <= q
  {
    Monotone(q + 1, p, w);
    assert (q + 1) * w == w * q + w;
  }

  lemma EvenShares(n: nat, amount: nat)
    requires n > 0
    ensures amount / n >= 0 && 0 <= amount - Sum(seq(n, _ => amount / n)) < n
  {
    SumEven(n, amount / n);
    Division(amount, n);
    QuotientsOrdered(0, amount, n, 0, amount / n);
  }

  /** One more slot each for the most pressured, largest first, the earlier among
      equals. */
  lemma TopUpFair(open: seq<nat>, deltas: seq<nat>, k: nat, i: nat, j: nat)
    requires Indices(open, |deltas|) && Ascending(open) && k <= |open|
    requires i in Ranked(open, deltas)[..k] && j in open && i < |deltas| && j < |deltas| && Ahead(deltas, j, i)
    ensures j in Ranked(open, deltas)[..k]
  {
    RankedFacts(open, deltas);
    var r := Ranked(open, deltas);
    var a :| 0 <= a < k && r[a] == i;
    assert j in r;
    var b :| 0 <= b < |r| && r[b] == j;
    assert b < k;
    assert r[..k][b] == j;
  }

  /** Open layers gain, the more pressured at least as much; the others stay. */
  ghost predicate Grows(t: seq<int>, r: seq<int>, deltas: seq<nat>, open: seq<nat>) {
    && |r| == |t| == |deltas|
    && (forall i :: 0 <= i < |r| ==> r[i] >= t[i])
    && (forall i :: 0 <= i < |r| && i !in open ==> r[i] == t[i])
    && (forall i, j :: i in open && j in open && i < |r| && j < |r| && deltas[i] < deltas[j] ==> r[i] - t[i] <= r[j] - t[j])
  }

  /** What the m-th open layer gains is its part of the amount, rounded down or one more
      if up says so. */
  ghost predicate Gains(t: seq<int>, r: seq<int>, deltas: seq<nat>, open: seq<nat>, amount: int, m: nat, up: bool)
    requires |t| == |r| == |deltas| && Indices(open, |deltas|) && m < |open|
  {
    var ds := Picked(deltas, open);
    RoundsDown(r[open[m]] - t[open[m]] - (if up then 1 else 0), Part(ds, m), Whole(ds), amount)
  }

  /** An amount is handed out to the open layers in proportion to their pressure: each
      gains its part rounded down or one slot more, and the slots that rounding left
      over go to the most pressured, the earlier first among equals. */
  ghost predicate Apportioned(t: seq<int>, r: seq<int>, deltas: seq<nat>, open: seq<nat>, amount: int) {
    && |t| == |r| == |deltas| && Indices(open, |deltas|) && Sum(r) == Sum(t) + amount
    && (forall i :: 0 <= i < |r| && i !in open ==> r[i] == t[i])
    && (forall m: nat :: m < |open| ==> Gains(t, r, deltas, open, amount, m, false) || Gains(t, r, deltas, open, amount, m, true))
    && (forall m: nat, n: nat :: m < |open| && n < |open| && Ahead(deltas, open[m], open[n]) ==>
          Gains(t, r, deltas, open, amount, n, true) ==> Gains(t, r, deltas, open, amount, m, true))
  }

  /** How a distribution round moves the targets. */
  ghost predicate Spreads(targets: seq<int>, r: seq<int>, deltas: seq<nat>, open: seq<nat>, amount: nat) {
    Grows(targets, r, deltas, open) && Sum(r) == Sum(targets) + amount && Apportioned(targets, r, deltas, open, amount)
  }

  /** One distribution round: rounded shares, then the remainder to the most
      pressured. */
  method Spread(targets: seq<int>, deltas: seq<nat>, open: seq<nat>, amount: nat) returns (r: seq<int>)
    requires |targets| == |deltas| && Indices(open, |deltas|) && Ascending(open) && open != []
    ensures Spreads(targets, r, deltas, open, amount)
  {
    hide Sum, Ranked, Descending, Grows, RoundsDown, Apportioned, Part, Whole;
    var shares := RoundedShares(Picked(deltas, open), amount);
    var mid := Grant(targets, open, shares);
    var k := amount - Sum(shares);
    var top := Ranked(open, deltas)[..k];
    RankedFacts(open, deltas);
    SumEven(k, 1);
    r := Grant(mid, top, seq(k, _ => 1));
    SharesGrow(targets, mid, deltas, open, shares);
    TopUpGrows(mid, r, deltas, open, k);
    GrowsTwice(targets, mid, r, deltas, open);
    TopUpApportions(targets, mid, r, deltas, open, shares, amount, k);
  }

  lemma GainOne(t: seq<int>, r: seq<int>, deltas: seq<nat>, open: seq<nat>, share: int, amount: nat, m: nat, up: bool)
    requires |t| == |r| == |deltas| && Indices(open, |deltas|) && m < |open|
    requires var ds := Picked(deltas, open); RoundsDown(share, Part(ds, m), Whole(ds), amount)
    requires r[open[m]] == t[open[m]] + share + if up then 1 else 0
    ensures Gains(t, r, deltas, open, amount, m, up) && !Gains(t, r, deltas, open, amount, m, !up)
  {
    hide Part, Whole;
    var ds := Picked(deltas, open);
    OneUp(share, Part(ds, m), Whole(ds), amount);
  }

  lemma OneUp(share: int, part: nat, whole: nat, amount: int)
    requires RoundsDown(share, part, whole, amount)
    ensures !RoundsDown(share - 1, part, whole, amount) && !RoundsDown(share + 1, part, whole, amount)
  {
  }

  lemma TopUpApportions(t: seq<int>, mid: seq<int>, r: seq<int>, deltas: seq<nat>, open: seq<nat>, shares: seq<int>, amount: nat, k: nat)
    requires |t| == |mid| == |r| == |deltas| && Indices(open, |deltas|) && Ascending(open) && |shares| == |open| && k <= |open|
    requires Sum(r) == Sum(t) + amount
    requires forall m :: 0 <= m < |open| ==> mid[open[m]] == t[open[m]] + shares[m]
    requires forall i :: 0 <= i < |r| && i !in open ==> mid[i] == t[i]
    requires var ds := Picked(deltas, open); forall m :: 0 <= m < |open| ==> RoundsDown(shares[m], Part(ds, m), Whole(ds), amount)
    requires forall m :: 0 <= m < k ==> r[Ranked(open, deltas)[..k][m]] == mid[Ranked(open, deltas)[..k][m]] + 1
    requires forall i :: 0 <= i < |r| && i !in Ranked(open, deltas)[..k] ==> r[i] == mid[i]
    ensures Apportioned(t, r, deltas, open, amount)
  {
    var top := Ranked(open, deltas)[..k];
    assert forall i :: i in top ==> i in Ranked(open, deltas);
    hide Ranked, RoundsDown, Part, Whole, Sum, Gains, Ascending, Ahead;
    forall i: nat | i < |r| ensures r[i] == mid[i] + Bump(top, i) {
      if i in top { var m :| 0 <= m < k && top[m] == i; }
    }
    forall m: nat | m < |open|
      ensures Gains(t, r, deltas, open, amount, m, open[m] in top) && !Gains(t, r, deltas, open, amount, m, open[m] !in top)
    {
      GainOne(t, r, deltas, open, shares[m], amount, m, open[m] in top);
    }
    forall m: nat, n: nat | m < |open| && n < |open| && Ahead(deltas, open[m], open[n])
      ensures open[n] in top ==> open[m] in top
    {
      if open[n] in top { TopUpFair(open, deltas, k, open[n], open[m]); }
    }
  }

  lemma GainsOnce(t: seq<int>, r: seq<int>, s: seq<int>, deltas: seq<nat>, open: seq<nat>, amount: int, m: nat, up: bool, up': bool)
    requires |t| == |r| == |s| == |deltas| && Indices(open, |deltas|) && m < |open|
    requires Gains(t, r, deltas, open, amount, m, up) && Gains(t, s, deltas, open, amount, m, up')
    ensures r[open[m]] - s[open[m]] == (if up then 1 else 0) - (if up' then 1 else 0)
  {
    hide Part, Whole;
    var ds, i := Picked(deltas, open), open[m];
    PartOnce(r[i] - t[i] - (if up then 1 else 0), s[i] - t[i] - (if up' then 1 else 0), Part(ds, m), Whole(ds), amount);
  }

  lemma PartOnce(x: int, y: int, part: nat, whole: nat, amount: int)
    requires RoundsDown(x, part, whole, amount) && RoundsDown(y, part, whole, amount)
    ensures x == y
  {
    Monotone(x + 1, y, whole);
    Monotone(y + 1, x, whole);
  }

  lemma {:induction false} SumLess(s: seq<int>, u: seq<int>, i: nat)
    requires |s| == |u| && i < |s| && s[i] < u[i] && forall k :: 0 <= k < |s| ==> s[k] <= u[k]
    ensures Sum(s) < Sum(u)
    decreases |s|
  {
    var n := |s| - 1;
    if i < n { SumLess(s[..n], u[..n], i); } else { SumOrdered(s[..n], u[..n]); }
  }

  lemma {:induction false} SumOrdered(s: seq<int>, u: seq<int>)
    requires |s| == |u| && forall k :: 0 <= k < |s| ==> s[k] <= u[k]
    ensures Sum(s) <= Sum(u)
  {
    if s != [] { SumOrdered(s[..|s| - 1], u[..|s| - 1]); }
  }

  /** An amount is apportioned in one way. */
  lemma ApportionedOnce(t: seq<int>, r: seq<int>, s: seq<int>, deltas: seq<nat>, open: seq<nat>, amount: int)
    requires Ascending(open) && Apportioned(t, r, deltas, open, amount) && Apportioned(t, s, deltas, open, amount)
    ensures r == s
  {
    NoneLess(t, r, s, deltas, open, amount);
    NoneLess(t, s, r, deltas, open, amount);
  }

  lemma NoneLess(t: seq<int>, r: seq<int>, s: seq<int>, deltas: seq<nat>, open: seq<nat>, amount: int)
    requires Ascending(open) && Apportioned(t, r, deltas, open, amount) && Apportioned(t, s, deltas, open, amount)
    ensures forall i :: 0 <= i < |r| ==> s[i] <= r[i]
  {
    hide Sum, Gains;
    forall i: nat | i < |r| ensures s[i] <= r[i] {
      if r[i] < s[i] {
        var m :| 0 <= m < |open| && open[m] == i;
        forall j: nat | j < |r| ensures r[j] <= s[j] {
          if j in open {
            var n :| 0 <= n < |open| && open[n] == j;
            LessTogether(t, r, s, deltas, open, amount, m, n);
          }
        }
        SumLess(r, s, i);
      }
    }
  }

  lemma LessTogether(t: seq<int>, r: seq<int>, s: seq<int>, deltas: seq<nat>, open: seq<nat>, amount: int, m: nat, n: nat)
    requires Ascending(open) && Apportioned(t, r, deltas, open, amount) && Apportioned(t, s, deltas, open, amount)
    requires m < |open| && n < |open| && r[open[m]] < s[open[m]]
    ensures r[open[n]] <= s[open[n]]
  {
    hide Sum, Gains;
    var a, b := Gains(t, r, deltas, open, amount, m, true), Gains(t, s, deltas, open, amount, m, true);
    var c, d := Gains(t, r, deltas, open, amount, n, true), Gains(t, s, deltas, open, amount, n, true);
    GainsOnce(t, r, s, deltas, open, amount, m, a, b);
    GainsOnce(t, r, s, deltas, open, amount, n, c, d);
    if m != n {
      assert Ahead(deltas, open[m], open[n]) || Ahead(deltas, open[n], open[m]);
    }
  }

  lemma SharesGrow(t: seq<int>, r: seq<int>, deltas: seq<nat>, open: seq<nat>, shares: seq<int>)
    requires |t| == |r| == |deltas| && Indices(open, |deltas|) && |shares| == |open|
    requires forall m :: 0 <= m < |open| ==> shares[m] >= 0 && r[open[m]] == t[open[m]] + shares[m]
    requires forall m, n :: 0 <= m < |open| && 0 <= n < |open| && deltas[open[m]] <= deltas[open[n]] ==> shares[m] <= shares[n]
    requires forall i :: 0 <= i < |r| && i !in open ==> r[i] == t[i]
    ensures Grows(t, r, deltas, open)
  {
    forall i: nat | i < |r| ensures r[i] >= t[i] {
      if i in open { var m :| 0 <= m < |open| && open[m] == i; }
    }
    forall i: nat, j: nat | i in open && j in open && i < |r| && j < |r| && deltas[i] < deltas[j]
      ensures r[i] - t[i] <= r[j] - t[j]
    {
      var m :| 0 <= m < |open| && open[m] == i;
      var n :| 0 <= n < |open| && open[n] == j;
    }
  }

  lemma TopUpGrows(t: seq<int>, r: seq<int>, deltas: seq<nat>, open: seq<nat>, k: nat)
    requires |t| == |r| == |deltas| && Indices(open, |deltas|) && Ascending(open) && k <= |open|
    requires forall m :: 0 <= m < k ==> r[Ranked(open, deltas)[..k][m]] == t[Ranked(open, deltas)[..k][m]] + 1
    requires forall i :: 0 <= i < |r| && i !in Ranked(open, deltas)[..k] ==> r[i] == t[i]
    ensures Grows(t, r, deltas, open)
  {
    var top := Ranked(open, deltas)[..k];
    assert forall i :: i in top ==> i in Ranked(open, deltas);
    hide Ranked;
    forall i: nat | i < |r| ensures r[i] == t[i] + Bump(top, i) {
      if i in top { var m :| 0 <= m < k && top[m] == i; }
    }
    forall i: nat, j: nat | i in open && j in open && i < |r| && j < |r| && deltas[i] < deltas[j]
      ensures Bump(top, i) <= Bump(top, j)
    {
      if i in top { TopUpFair(open, deltas, k, i, j); }
    }
  }

  function Bump(top: seq<nat>, i: nat): int {
    if i in top then 1 else 0
  }

  lemma GrowsTwice(t: seq<int>, mid: seq<int>, r: seq<int>, deltas: seq<nat>, open: seq<nat>)
    requires Grows(t, mid, deltas, open) && Grows(mid, r, deltas, open)
    ensures Grows(t, r, deltas, open)
  {
  }

  // ---- the clamp-and-redistribute loop --------------------------------------------

  function Open(n: nat, capped: set<nat>): (r: seq<nat>)
    ensures Indices(r, n) && Ascending(r) && forall i: nat :: i in r <==> i < n && i !in capped
  {
    if n == 0 then [] else Open(n - 1, capped) + if n - 1 in capped then [] else [n - 1]
  }

  ghost predicate InLoop(t: seq<int>, deltas: seq<nat>, total: nat, low: int, cap: nat, capped: set<nat>) {
    && |t| == |deltas| && Sum(t) == total && Fair(Clamped(t, cap), deltas)
    && (forall i :: 0 <= i < |t| ==> t[i] >= low)
    && (forall i: nat :: i in capped ==> i < |t| && t[i] == cap)
  }

  lemma RoundKeeps(t: seq<int>, cut: seq<int>, r: seq<int>, deltas: seq<nat>, total: nat, low: int, cap: nat,
                   capped: set<nat>, capped': set<nat>, overflow: nat)
    requires InLoop(t, deltas, total, low, cap, capped) && low <= cap
    requires cut == Clamped(t, cap) && Sum(t) == Sum(cut) + overflow
    requires forall i: nat :: i in capped' <==> i in capped || (i < |t| && t[i] > cap)
    requires Spreads(cut, r, deltas, Open(|deltas|, capped'), overflow)
    ensures InLoop(r, deltas, total, low, cap, capped')
  {
    forall i, j | 0 <= i < |deltas| && 0 <= j < |deltas| && deltas[i] < deltas[j]
      ensures Clamped(r, cap)[i] <= Clamped(r, cap)[j]
    {
    }
  }

  predicate OverCap(ts: seq<seq<int>>, i: nat, cap: nat) {
    exists k :: 0 <= k < |ts| && i < |ts[k]| && ts[k][i] > cap
  }

  /** The layers that were over the cap in some round. */
  function Passed(ts: seq<seq<int>>, n: nat, cap: nat): set<nat> {
    set i: nat | i < n && OverCap(ts, i, cap)
  }

  /** One more round: the targets are cut at the cap, and what that frees is
      apportioned over the layers that were never above it. */
  ghost predicate NextRound(ts: seq<seq<int>>, r: seq<int>, deltas: seq<nat>, cap: nat)
    requires ts != []
  {
    var t, open := ts[|ts| - 1], Open(|deltas|, Passed(ts, |deltas|, cap));
    var freed := Sum(t) - Sum(Clamped(t, cap));
    freed > 0 && open != [] && Apportioned(Clamped(t, cap), r, deltas, open, freed)
  }

  /** An even base, and the rest of the budget apportioned over all layers. */
  ghost predicate FirstRound(r: seq<int>, deltas: seq<nat>, total: int, base: int) {
    Apportioned(seq(|deltas|, _ => base), r, deltas, Open(|deltas|, {}), total - base * |deltas|)
  }

  /** The targets before each clamp, round by round. */
  ghost predicate Trail(ts: seq<seq<int>>, deltas: seq<nat>, total: int, base: int, cap: nat) {
    if |ts| == 0 then false
    else if |ts| == 1 then FirstRound(ts[0], deltas, total, base)
    else Trail(ts[..|ts| - 1], deltas, total, base, cap) && NextRound(ts[..|ts| - 1], ts[|ts| - 1], deltas, cap)
  }

  /** The rounds end where the cap frees nothing or leaves nobody to give it to. */
  ghost predicate EndsAt(ts: seq<seq<int>>, t: seq<int>, deltas: seq<nat>, cap: nat) {
    && ts != [] && t == Clamped(ts[|ts| - 1], cap)
    && (Sum(ts[|ts| - 1]) <= Sum(t) || Open(|deltas|, Passed(ts, |deltas|, cap)) == [])
  }

  ghost predicate Reached(t: seq<int>, deltas: seq<nat>, total: int, base: int, cap: nat) {
    exists ts :: Trail(ts, deltas, total, base, cap) && EndsAt(ts, t, deltas, cap)
  }

  lemma PassedGoesOn(ts: seq<seq<int>>, t: seq<int>, n: nat, cap: nat, capped: set<nat>, capped': set<nat>)
    requires capped == Passed(ts, n, cap) && |t| == n
    requires forall i: nat :: i in capped' <==> i in capped || (i < n && t[i] > cap)
    ensures capped' == Passed(ts + [t], n, cap)
  {
    var us := ts + [t];
    forall i: nat | i < n ensures OverCap(us, i, cap) <==> OverCap(ts, i, cap) || t[i] > cap {
      if OverCap(ts, i, cap) {
        var k :| 0 <= k < |ts| && i < |ts[k]| && ts[k][i] > cap;
        assert us[k][i] > cap;
      }
      if t[i] > cap { assert us[|ts|][i] > cap; }
    }
  }

  lemma TrailGoesOn(ts: seq<seq<int>>, r: seq<int>, deltas: seq<nat>, total: int, base: int, cap: nat)
    requires Trail(ts, deltas, total, base, cap) && ts != [] && NextRound(ts, r, deltas, cap)
    ensures Trail(ts + [r], deltas, total, base, cap)
  {
    assert (ts + [r])[..|ts|] == ts;
  }

  lemma NextOnce(ts: seq<seq<int>>, r: seq<int>, s: seq<int>, deltas: seq<nat>, cap: nat)
    requires ts != [] && NextRound(ts, r, deltas, cap) && NextRound(ts, s, deltas, cap)
    ensures r == s
  {
    hide Apportioned, Sum;
    var t := ts[|ts| - 1];
    ApportionedOnce(Clamped(t, cap), r, s, deltas, Open(|deltas|, Passed(ts, |deltas|, cap)), Sum(t) - Sum(Clamped(t, cap)));
  }

  lemma {:induction false} TrailOnce(ts: seq<seq<int>>, us: seq<seq<int>>, deltas: seq<nat>, total: int, base: int, cap: nat)
    requires Trail(ts, deltas, total, base, cap) && Trail(us, deltas, total, base, cap) && |ts| == |us|
    ensures ts == us
    decreases |ts|
  {
    hide NextRound, Apportioned;
    var n := |ts| - 1;
    if n == 0 {
      ApportionedOnce(seq(|deltas|, _ => base), ts[0], us[0], deltas, Open(|deltas|, {}), total - base * |deltas|);
    } else {
      TrailOnce(ts[..n], us[..n], deltas, total, base, cap);
      NextOnce(ts[..n], ts[n], us[n], deltas, cap);
      assert ts == ts[..n] + [ts[n]] && us == us[..n] + [us[n]];
    }
  }

  lemma NoNext(ts: seq<seq<int>>, t: seq<int>, r: seq<int>, deltas: seq<nat>, cap: nat)
    requires EndsAt(ts, t, deltas, cap)
    ensures !NextRound(ts, r, deltas, cap)
  {
  }

  lemma {:induction false} TrailEnds(ts: seq<seq<int>>, us: seq<seq<int>>, t: seq<int>, deltas: seq<nat>, total: int, base: int, cap: nat)
    requires Trail(ts, deltas, total, base, cap) && Trail(us, deltas, total, base, cap) && EndsAt(ts, t, deltas, cap)
    ensures |us| <= |ts|
    decreases |us|
  {
    hide NextRound, FirstRound;
    if |ts| < |us| {
      var n := |us| - 1;
      TrailEnds(ts, us[..n], t, deltas, total, base, cap);
      TrailOnce(ts, us[..n], deltas, total, base, cap);
      NoNext(ts, t, us[n], deltas, cap);
    }
  }

  /** Misses, budget, floor and expert count alone decide the slot counts. */
  lemma ReachedOnce(t: seq<int>, u: seq<int>, deltas: seq<nat>, total: int, base: int, cap: nat)
    requires Reached(t, deltas, total, base, cap) && Reached(u, deltas, total, base, cap)
    ensures t == u
  {
    hide Trail;
    var ts :| Trail(ts, deltas, total, base, cap) && EndsAt(ts, t, deltas, cap);
    var us :| Trail(us, deltas, total, base, cap) && EndsAt(us, u, deltas, cap);
    TrailEnds(ts, us, t, deltas, total, base, cap);
    TrailEnds(us, ts, u, deltas, total, base, cap);
    TrailOnce(ts, us, deltas, total, base, cap);
  }

  lemma {:induction false} OneRound(ts: seq<seq<int>>, deltas: seq<nat>, total: int, base: int, cap: nat)
    requires Trail(ts, deltas, total, base, cap) && forall k :: 0 <= k < |ts[0]| ==> ts[0][k] <= cap
    ensures |ts| == 1
    decreases |ts|
  {
    hide FirstRound, Apportioned, Sum, Passed;
    if |ts| == 2 {
      ClampedBelow(ts[0], cap);
    } else if |ts| > 2 {
      OneRound(ts[..|ts| - 1], deltas, total, base, cap);
    }
  }

  /** When the first distribution leaves every layer within the cap, each gets the base
      and its part of the rest, to within one slot. */
  lemma UncappedParts(t: seq<int>, ts: seq<seq<int>>, deltas: seq<nat>, total: int, base: int, cap: nat, i: nat)
    requires Trail(ts, deltas, total, base, cap) && EndsAt(ts, t, deltas, cap)
    requires i < |deltas| && forall k :: 0 <= k < |ts[0]| ==> ts[0][k] <= cap
    ensures |t| == |deltas|
    ensures var gain, rest := t[i] - base, total - base * |deltas|;
      if Sum(deltas) > 0 then (gain - 1) * Sum(deltas) <= deltas[i] * rest < (gain + 1) * Sum(deltas)
      else (gain - 1) * |deltas| <= rest < (gain + 1) * |deltas|
  {
    hide FirstRound, Sum, Part, Whole, Passed, NextRound;
    OneRound(ts, deltas, total, base, cap);
    ClampedBelow(ts[0], cap);
    FirstParts(t, deltas, total, base, i);
    PartsAre(deltas, i);
  }

  lemma PartsAre(deltas: seq<nat>, i: nat)
    requires i < |deltas|
    ensures Whole(deltas) == (if Sum(deltas) > 0 then Sum(deltas) else |deltas|) && Part(deltas, i) == if Sum(deltas) > 0 then deltas[i] else 1
  {
  }

  lemma FirstParts(r: seq<int>, deltas: seq<nat>, total: int, base: int, i: nat)
    requires FirstRound(r, deltas, total, base) && i < |deltas|
    ensures |r| == |deltas|
    ensures var gain, rest := r[i] - base, total - base * |deltas|;
      (gain - 1) * Whole(deltas) <= Part(deltas, i) * rest < (gain + 1) * Whole(deltas)
  {
    var n, open, rest := |deltas|, Open(|deltas|, {}), total - base * |deltas|;
    OpenAt(n, i);
    assert Picked(deltas, open) == deltas;
    hide Open, Sum, Part, Whole, RoundsDown;
    assert Gains(seq(n, _ => base), r, deltas, open, rest, i, false) || Gains(seq(n, _ => base), r, deltas, open, rest, i, true);
    WithinOne(r[i] - base, Part(deltas, i), Whole(deltas), rest);
  }

  lemma WithinOne(gain: int, part: nat, whole: nat, amount: int)
    requires RoundsDown(gain, part, whole, amount) || RoundsDown(gain - 1, part, whole, amount)
    ensures (gain - 1) * whole <= part * amount < (gain + 1) * whole
  {
    Monotone(gain - 1, gain, whole);
    Monotone(gain, gain + 1, whole);
  }

  lemma {:induction false} OpenAt(n: nat, i: nat)
    requires i < n
    ensures |Open(n, {})| == n && forall k :: 0 <= k < n ==> Open(n, {})[k] == k
  {
    if i < n - 1 { OpenAt(n - 1, i); } else if n > 1 { OpenAt(n - 1, 0); }
  }

  /** The new slot counts: between floor and expert count, together the whole
      budget (or every expert of every layer), never fewer under more pressure. */
  method Targets(deltas: seq<nat>, total: nat, floor: nat, cap: nat) returns (t: seq<int>)
    requires deltas != []
    ensures |t| == |deltas| && Sum(t) == Least(total, |deltas| * cap)
    ensures forall i :: 0 <= i < |t| ==> Least(Least(floor, total / |deltas|), cap) <= t[i] <= cap
    ensures Fair(t, deltas)
    ensures Reached(t, deltas, total, Least(floor, total / |deltas|), cap)
  {
    var n, capped := |deltas|, {};
    var base := BaseShare(floor, total, n);
    ghost var low := Least(base, cap);
    FloorFits(floor, total, n);
    hide Spreads, InLoop, Sum, Clamped, Fair, Trail, Passed, NextRound, EndsAt;
    assert 0 in Open(n, {});
    t := Spread(seq(n, _ => base), deltas, Open(n, {}), total - base * n);
    StartsInLoop(t, deltas, total, base, cap);
    ghost var before: seq<seq<int>> := [];
    TrailStarts(t, deltas, total, base, cap);
    while true
      invariant InLoop(t, deltas, total, low, cap, capped) && |t| == n
      invariant Trail(before + [t], deltas, total, base, cap) && capped == Passed(before, n, cap)
      decreases set i: nat | i < n && i !in capped
    {
      var cut, overflow, capped' := Clamp(t, cap, capped);
      var open := Open(n, capped');
      ghost var ts := before + [t];
      PassedGoesOn(before, t, n, cap, capped, capped');
      if overflow == 0 || open == [] {
        Settled(t, cut, deltas, total, low, cap, capped, capped', overflow);
        TrailSettles(ts, cut, deltas, total, base, cap, overflow);
        return cut;
      }
      var r := Spread(cut, deltas, open, overflow);
      TrailSpreads(ts, cut, r, deltas, total, base, cap, overflow);
      RoundKeeps(t, cut, r, deltas, total, low, cap, capped, capped', overflow);
      ghost var i := NewlyCapped(t, cut, cap, overflow);
      assert i !in capped && i in capped';
      ghost var uncapped, uncapped' := (set i: nat | i < n && i !in capped), (set i: nat | i < n && i !in capped');
      assert uncapped' <= uncapped && i in uncapped && i !in uncapped';
      t, capped, before := r, capped', ts;
    }
  }

  lemma TrailStarts(t: seq<int>, deltas: seq<nat>, total: int, base: int, cap: nat)
    requires base * |deltas| <= total
    requires Spreads(seq(|deltas|, _ => base), t, deltas, Open(|deltas|, {}), total - base * |deltas|)
    ensures |t| == |deltas| && Trail([] + [t], deltas, total, base, cap) && Passed([], |deltas|, cap) == {}
  {
    hide Apportioned;
    assert [] + [t] == [t];
  }

  lemma TrailSettles(ts: seq<seq<int>>, cut: seq<int>, deltas: seq<nat>, total: int, base: int, cap: nat, overflow: nat)
    requires Trail(ts, deltas, total, base, cap) && ts != []
    requires cut == Clamped(ts[|ts| - 1], cap) && Sum(ts[|ts| - 1]) == Sum(cut) + overflow
    requires overflow == 0 || Open(|deltas|, Passed(ts, |deltas|, cap)) == []
    ensures Reached(cut, deltas, total, base, cap)
  {
    hide Trail, Sum;
    assert EndsAt(ts, cut, deltas, cap);
  }

  lemma TrailSpreads(ts: seq<seq<int>>, cut: seq<int>, r: seq<int>, deltas: seq<nat>, total: int, base: int, cap: nat, overflow: nat)
    requires Trail(ts, deltas, total, base, cap) && ts != [] && overflow > 0
    requires cut == Clamped(ts[|ts| - 1], cap) && Sum(ts[|ts| - 1]) == Sum(cut) + overflow
    requires var open := Open(|deltas|, Passed(ts, |deltas|, cap)); open != [] && Spreads(cut, r, deltas, open, overflow)
    ensures |r| == |deltas| && Trail(ts + [r], deltas, total, base, cap)
  {
    hide Trail, Sum, Apportioned;
    TrailGoesOn(ts, r, deltas, total, base, cap);
  }

  /** The slots every layer gets before pressure counts. */
  function BaseShare(floor: nat, total: int, n: nat): int
    requires n > 0
  {
    Least(floor, total / n)
  }

  lemma FloorFits(floor: nat, total: nat, n: nat)
    requires n > 0
    ensures 0 <= BaseShare(floor, total, n) && BaseShare(floor, total, n) * n <= total
    ensures Sum(seq(n, _ => BaseShare(floor, total, n))) == BaseShare(floor, total, n) * n
  {
    Division(total, n);
    QuotientsOrdered(0, total, n, 0, total / n);
    Monotone(BaseShare(floor, total, n), total / n, n);
    SumEven(n, BaseShare(floor, total, n));
  }

  lemma StartsInLoop(t: seq<int>, deltas: seq<nat>, total: nat, base: nat, cap: nat)
    requires base * |deltas| <= total && Sum(seq(|deltas|, _ => base)) == base * |deltas|
    requires Spreads(seq(|deltas|, _ => base), t, deltas, Open(|deltas|, {}), total - base * |deltas|)
    ensures InLoop(t, deltas, total, Least(base, cap), cap, {})
  {
    hide Sum, Apportioned;
  }

  lemma NewlyCapped(t: seq<int>, cut: seq<int>, cap: nat, overflow: nat) returns (i: nat)
    requires cut == Clamped(t, cap) && Sum(t) == Sum(cut) + overflow && overflow > 0
    ensures i < |t| && t[i] > cap
  {
    ClampedBelow(t, cap);
    i :| i < |t| && t[i] > cap;
  }

  lemma ClampedBelow(t: seq<int>, cap: nat)
    ensures (forall i :: 0 <= i < |t| ==> t[i] <= cap) ==> Clamped(t, cap) == t
  {
  }

  lemma Settled(t: seq<int>, cut: seq<int>, deltas: seq<nat>, total: nat, low: int, cap: nat,
                capped: set<nat>, capped': set<nat>, overflow: nat)
    requires InLoop(t, deltas, total, low, cap, capped) && low <= cap
    requires cut == Clamped(t, cap) && Sum(t) == Sum(cut) + overflow && (overflow == 0 ==> cut == t)
    requires forall i: nat :: i in capped' <==> i in capped || (i < |t| && t[i] > cap)
    requires overflow == 0 || Open(|deltas|, capped') == []
    ensures |cut| == |deltas| && Sum(cut) == Least(total, |deltas| * cap) && Fair(cut, deltas)
    ensures forall i :: 0 <= i < |cut| ==> low <= cut[i] <= cap
  {
    hide Sum, Fair;
    if overflow > 0 {
      forall i: nat | i < |deltas| ensures cut[i] == cap { assert i !in Open(|deltas|, capped'); }
    }
    SettledSum(cut, total, overflow, cap);
    assert overflow == 0 ==> Clamped(t, cap) == t;
  }

  lemma SettledSum(cut: seq<int>, total: nat, overflow: nat, cap: nat)
    requires (forall i :: 0 <= i < |cut| ==> cut[i] <= cap) && Sum(cut) + overflow == total
    requires overflow == 0 || forall i :: 0 <= i < |cut| ==> cut[i] == cap
    ensures Sum(cut) == Least(total, |cut| * cap)
  {
    SumAtMost(cut, cap);
    if overflow > 0 { SumAtLeast(cut, cap); }
  }

  // ---- shrink first -----------------------------------------------------------------

  /** How much each layer gives up. */
  function Releases(slots: seq<int>, targets: seq<int>): (r: seq<int>)
    requires |slots| == |targets|
    ensures |r| == |slots| && forall i :: 0 <= i < |r| ==> r[i] == slots[i] - targets[i]
  {
    seq(|slots|, i requires 0 <= i < |slots| && |slots| == |targets| => slots[i] - targets[i])
  }

  /** The slot counts once the first k layers of the order are resized. */
  function Resized(slots: seq<int>, targets: seq<int>, order: seq<nat>, k: nat): (r: seq<int>)
    requires |slots| == |targets| && k <= |order| && Indices(order, |slots|)
    ensures |r| == |slots|
    ensures forall i: nat :: i < |r| ==> r[i] == if i in order[..k] then targets[i] else slots[i]
  {
    if k == 0 then slots
    else
      assert order[..k] == order[..k - 1] + [order[k - 1]];
      Resized(slots, targets, order, k - 1)[order[k - 1] := targets[order[k - 1]]]
  }

  function Keyed(keys: seq<int>, order: seq<nat>): (r: seq<int>)
    requires Indices(order, |keys|)
    ensures |r| == |order| && forall k :: 0 <= k < |r| ==> r[k] == keys[order[k]]
  {
    seq(|order|, k requires 0 <= k < |order| && Indices(order, |keys|) => keys[order[k]])
  }

  lemma {:induction false} ResizedSum(slots: seq<int>, targets: seq<int>, order: seq<nat>, k: nat)
    requires |slots| == |targets| && k <= |order| && Indices(order, |slots|) && Distinct(order)
    ensures Sum(Resized(slots, targets, order, k)) == Sum(slots) - Sum(Keyed(Releases(slots, targets), order)[..k])
    decreases k
  {
    hide Sum, Resized, Distinct, Keyed, Releases, Indices;
    if k == 0 {
      ResizedNone(slots, targets, order);
    } else {
      KeyedAt(slots, targets, order, k - 1);
      var ks := Keyed(Releases(slots, targets), order);
      ResizedSum(slots, targets, order, k - 1);
      SumOfStep(slots, targets, order, k - 1);
      SumSnoc(ks[..k - 1], ks[k - 1]);
    }
  }

  lemma ResizedNone(slots: seq<int>, targets: seq<int>, order: seq<nat>)
    requires |slots| == |targets| && Indices(order, |slots|)
    ensures Resized(slots, targets, order, 0) == slots && Sum(Keyed(Releases(slots, targets), order)[..0]) == 0
  {
  }

  lemma SumOfStep(slots: seq<int>, targets: seq<int>, order: seq<nat>, k: nat)
    requires |slots| == |targets| && k < |order| && Indices(order, |slots|) && Distinct(order)
    ensures order[k] < |slots|
    ensures Sum(Resized(slots, targets, order, k + 1)) == Sum(Resized(slots, targets, order, k)) - slots[order[k]] + targets[order[k]]
  {
    hide Sum, Resized, Distinct, Indices;
    IndexAt(order, |slots|, k);
    ResizedStep(slots, targets, order, k);
    SumUpdate(Resized(slots, targets, order, k), order[k], targets[order[k]]);
  }

  lemma KeyedAt(slots: seq<int>, targets: seq<int>, order: seq<nat>, k: nat)
    requires |slots| == |targets| && k < |order| && Indices(order, |slots|)
    ensures order[k] < |slots|
    ensures var ks := Keyed(Releases(slots, targets), order);
      ks[k] == slots[order[k]] - targets[order[k]] && ks[..k + 1] == ks[..k] + [ks[k]]
  {
    hide Indices;
    IndexAt(order, |slots|, k);
  }

  lemma IndexAt(order: seq<nat>, n: nat, k: nat)
    requires Indices(order, n) && k < |order|
    ensures order[k] < n
  {
  }

  /** In a descending sequence of non-negative total, every prefix is non-negative. */
  lemma PrefixOfDescending(ks: seq<int>, k: nat)
    requires k <= |ks| && Sum(ks) >= 0 && forall i, j :: 0 <= i < j < |ks| ==> ks[i] >= ks[j]
    ensures Sum(ks[..k]) >= 0
  {
    hide Sum;
    SumAppend(ks[..k], ks[k..]);
    assert ks[..k] + ks[k..] == ks;
    if k == 0 {
      NonNegativeSum(ks[..k]);
    } else if ks[k - 1] >= 0 {
      NonNegativeSum(ks[..k]);
    } else {
      NonPositiveSum(ks[k..]);
    }
  }

  lemma NonNegativeSum(s: seq<int>)
    requires forall i :: 0 <= i < |s| ==> s[i] >= 0
    ensures Sum(s) >= 0
  {
    if s != [] { NonNegativeSum(s[..|s| - 1]); }
  }

  lemma NonPositiveSum(s: seq<int>)
    requires forall i :: 0 <= i < |s| ==> s[i] <= 0
    ensures Sum(s) <= 0
  {
    if s != [] { NonPositiveSum(s[..|s| - 1]); }
  }

  /** The resize order: the layers that shrink most first. */
  function ShrinkOrder(slots: seq<int>, targets: seq<int>): (order: seq<nat>)
    requires |slots| == |targets|
    ensures Indices(order, |slots|)
  {
    Ranked(Open(|slots|, {}), Releases(slots, targets))
  }

  lemma ShrinkOrderFacts(slots: seq<int>, targets: seq<int>)
    requires |slots| == |targets|
    ensures var order := ShrinkOrder(slots, targets);
      |order| == |slots| && Distinct(order) && Descending(order, Releases(slots, targets))
      && forall i: nat :: i < |slots| ==> i in order
  {
    OpenAll(|slots|);
    RankedFacts(Open(|slots|, {}), Releases(slots, targets));
  }

  lemma AllResized(slots: seq<int>, targets: seq<int>, order: seq<nat>)
    requires |slots| == |targets| && Indices(order, |slots|) && forall i: nat :: i < |slots| ==> i in order
    ensures Resized(slots, targets, order, |order|) == targets
  {
    assert order[..|order|] == order;
  }

  /** Resizing in that order, no intermediate sum passes the old total. */
  lemma ShrinkFirstStaysWithin(slots: seq<int>, targets: seq<int>, k: nat)
    requires |slots| == |targets| && k <= |slots| && Sum(targets) <= Sum(slots)
    ensures |ShrinkOrder(slots, targets)| == |slots|
    ensures Sum(Resized(slots, targets, ShrinkOrder(slots, targets), k)) <= Sum(slots)
  {
    hide Sum, Resized, ShrinkOrder, Keyed;
    var order := ShrinkOrder(slots, targets);
    ShrinkOrderFacts(slots, targets);
    AllResized(slots, targets, order);
    ResizedSum(slots, targets, order, |slots|);
    ResizedSum(slots, targets, order, k);
    var ks := Keyed(Releases(slots, targets), order);
    assert ks[..|slots|] == ks;
    PrefixOfDescending(ks, k);
  }

  lemma ResizedStep(slots: seq<int>, targets: seq<int>, order: seq<nat>, k: nat)
    requires |slots| == |targets| && k < |order| && Indices(order, |slots|) && Distinct(order)
    ensures Resized(slots, targets, order, k)[order[k]] == slots[order[k]]
    ensures Resized(slots, targets, order, k + 1) == Resized(slots, targets, order, k)[order[k] := targets[order[k]]]
  {
    assert order[k] !in order[..k];
  }

  lemma ChangedYet(slots: seq<int>, targets: seq<int>, order: seq<nat>, k: nat)
    requires |slots| == |targets| && k < |order| && Indices(order, |slots|) && Distinct(order)
    ensures Resized(slots, targets, order, k + 1) != slots <==>
      Resized(slots, targets, order, k) != slots || targets[order[k]] != slots[order[k]]
  {
    ResizedStep(slots, targets, order, k);
    var was, now := Resized(slots, targets, order, k), Resized(slots, targets, order, k + 1);
    hide Resized, Indices, Distinct;
    if was != slots {
      var i: nat :| i < |slots| && was[i] != slots[i];
      assert now[i] != slots[i];
    }
  }

  /** The resizes start at the old counts, end at the targets, and each sets one
      layer's count. */
  lemma ResizePlan(slots: seq<int>, targets: seq<int>)
    requires |slots| == |targets|
    ensures var order := ShrinkOrder(slots, targets);
      && |order| == |slots|
      && Resized(slots, targets, order, 0) == slots && Resized(slots, targets, order, |slots|) == targets
  {
    ShrinkOrderFacts(slots, targets);
    AllResized(slots, targets, ShrinkOrder(slots, targets));
  }

  lemma ResizePlanStep(slots: seq<int>, targets: seq<int>, k: nat)
    requires |slots| == |targets| && k < |ShrinkOrder(slots, targets)| && Sum(targets) <= Sum(slots)
    ensures var order := ShrinkOrder(slots, targets);
      && order[k] < |slots|
      && Resized(slots, targets, order, k)[order[k]] == slots[order[k]]
      && Resized(slots, targets, order, k + 1) == Resized(slots, targets, order, k)[order[k] := targets[order[k]]]
      && (Resized(slots, targets, order, k + 1) != slots <==>
            Resized(slots, targets, order, k) != slots || targets[order[k]] != slots[order[k]])
      && Sum(Resized(slots, targets, order, k + 1)) <= Sum(slots)
  {
    var order := ShrinkOrder(slots, targets);
    ShrinkOrderFacts(slots, targets);
    hide Sum, Resized, ShrinkOrder, Descending;
    ResizedStep(slots, targets, order, k);
    ChangedYet(slots, targets, order, k);
    ShrinkFirstStaysWithin(slots, targets, k + 1);
  }

  /** The slot counts before any resize and after each of the first k, in the
      shrink-first order: none sums up to more than there were. */
  ghost predicate Traced(trace: seq<seq<int>>, slots: seq<int>, targets: seq<int>, k: nat)
    requires |slots| == |targets|
  {
    && |trace| == k + 1 <= |ShrinkOrder(slots, targets)| + 1
    && forall j :: 0 <= j <= k ==> trace[j] == Resized(slots, targets, ShrinkOrder(slots, targets), j) && Sum(trace[j]) <= Sum(slots)
  }

  lemma TraceStarts(slots: seq<int>, targets: seq<int>)
    requires |slots| == |targets|
    ensures Traced([slots], slots, targets, 0)
  {
  }

  lemma TraceGoesOn(slots: seq<int>, targets: seq<int>, k: nat, trace: seq<seq<int>>)
    requires |slots| == |targets| && k < |ShrinkOrder(slots, targets)| && Sum(targets) <= Sum(slots)
    requires Traced(trace, slots, targets, k)
    ensures Traced(trace + [Resized(slots, targets, ShrinkOrder(slots, targets), k + 1)], slots, targets, k + 1)
  {
    hide Resized, Sum, ShrinkOrder;
    ResizePlanStep(slots, targets, k);
  }

  lemma OpenAll(n: nat)
    ensures |Open(n, {})| == n
  {
  }

  /** What a redistribution by these deltas leaves, from these slot counts. */
  ghost predicate Placed(slots: seq<int>, now: seq<int>, deltas: seq<nat>, floor: nat, experts: nat)
    requires |slots| == |now| == |deltas| > 0
  {
    && Sum(now) == Least(Sum(slots), |slots| * experts) && Fair(now, deltas)
    && var base := Least(floor, Sum(slots) / |slots|);
    && (forall i :: 0 <= i < |now| ==> Least(base, experts) <= now[i] <= experts) && Reached(now, deltas, Sum(slots), base, experts)
  }

  method Plan(slots: seq<int>, deltas: seq<nat>, floor: nat, experts: nat) returns (targets: seq<int>)
    requires |slots| == |deltas| > 0 && floor > 0 && experts > 0 && forall i :: 0 <= i < |slots| ==> slots[i] > 0
    ensures |targets| == |slots| && Placed(slots, targets, deltas, floor, experts)
    ensures Sum(targets) <= Sum(slots) && forall i :: 0 <= i < |targets| ==> targets[i] > 0
  {
    hide Sum, Fair, BaseShare, Reached;
    EnoughForAll(slots);
    FloorPositive(floor, Sum(slots), |slots|);
    targets := Targets(deltas, Sum(slots), floor, experts);
  }

  class OffloadState {
    const caches: seq<SlotCache>
    const experts: nat
    /** Miss counts at the last rebalance; empty until a window has begun. */
    var base: seq<nat>

    constructor (caches: seq<SlotCache>, experts: nat)
      ensures this.caches == caches && this.experts == experts && base == []
    {
      this.caches, this.experts, base := caches, experts, [];
    }

    function SlotCounts(): (r: seq<int>)
      reads caches
      ensures |r| == |caches| && forall i :: 0 <= i < |r| ==> r[i] == caches[i].lru.slots
    {
      seq(|caches|, i requires 0 <= i < |caches| reads caches => caches[i].lru.slots)
    }

    function MissCounts(): (r: seq<nat>)
      reads caches
      ensures |r| == |caches| && forall i :: 0 <= i < |r| ==> r[i] == caches[i].misses
    {
      seq(|caches|, i requires 0 <= i < |caches| reads caches => caches[i].misses)
    }

    ghost predicate Ready()
      reads caches
    {
      && experts > 0 && (forall i, j :: 0 <= i < j < |caches| ==> caches[i] != caches[j])
      && (forall i :: 0 <= i < |caches| ==> caches[i].Coherent() && caches[i].experts == experts)
    }

    /** A window is open when a base of the right length was recorded. */
    ghost predicate Valid()
      reads this, caches
    {
      Ready() && (|base| == |caches| ==> forall i :: 0 <= i < |base| ==> base[i] <= caches[i].misses)
    }

    /** The first k layers of the order are resized, and the trace is what the slot
        counts were after each of them. */
    ghost predicate ResizedTo(slots: seq<int>, targets: seq<int>, k: nat, changed: bool, trace: seq<seq<int>>)
      requires |slots| == |targets| && k <= |ShrinkOrder(slots, targets)|
      reads caches
    {
      && SlotCounts() == Resized(slots, targets, ShrinkOrder(slots, targets), k)
      && (changed <==> SlotCounts() != slots) && Traced(trace, slots, targets, k)
    }

    /** Resize every layer to its target, those that shrink most first. The trace of
        slot counts is that of the shrink-first order, and never passes the old sum. */
    method ResizeAll(targets: seq<int>) returns (changed: bool, ghost trace: seq<seq<int>>)
      requires Ready() && |targets| == |caches| && Sum(targets) <= Sum(SlotCounts())
      requires forall i :: 0 <= i < |targets| ==> targets[i] > 0
      modifies caches
      ensures Ready() && SlotCounts() == targets && MissCounts() == old(MissCounts())
      ensures changed <==> targets != old(SlotCounts())
      ensures Traced(trace, old(SlotCounts()), targets, |targets|)
    {
      ghost var slots := SlotCounts();
      hide Sum, Resized, ShrinkOrder, Ready, Indices, Traced;
      var order := ShrinkOrder(SlotCounts(), targets);
      ResizePlan(slots, targets);
      changed, trace := false, [slots];
      TraceStarts(slots, targets);
      assert ResizedTo(slots, targets, 0, changed, trace);
      for k := 0 to |order|
        invariant Ready() && ResizedTo(slots, targets, k, changed, trace) && MissCounts() == old(MissCounts())
      {
        changed, trace := ResizeNext(slots, targets, order, k, changed, trace);
      }
    }

    /** The next layer in the order; the trace grows by the counts it leaves. */
    method ResizeNext(ghost slots: seq<int>, targets: seq<int>, order: seq<nat>, k: nat, changed: bool, ghost trace: seq<seq<int>>)
      returns (changed': bool, ghost trace': seq<seq<int>>)
      requires Ready() && |slots| == |targets| == |caches| && order == ShrinkOrder(slots, targets) && k < |order|
      requires ResizedTo(slots, targets, k, changed, trace) && Sum(targets) <= Sum(slots)
      requires forall i :: 0 <= i < |targets| ==> targets[i] > 0
      modifies caches
      ensures Ready() && ResizedTo(slots, targets, k + 1, changed', trace') && MissCounts() == old(MissCounts())
      ensures trace' == trace + [SlotCounts()]
    {
      hide Resized, Ready, Sum, ShrinkOrder, Traced;
      ResizePlanStep(slots, targets, k);
      var moved := ResizeOne(order[k], targets[order[k]]);
      changed' := changed || moved;
      trace' := trace + [SlotCounts()];
      TraceGoesOn(slots, targets, k, trace);
    }

    method ResizeOne(i: nat, target: nat) returns (moved: bool)
      requires Ready() && i < |caches| && target > 0
      modifies caches[i]
      ensures Ready() && SlotCounts() == old(SlotCounts())[i := target] && MissCounts() == old(MissCounts())
      ensures moved <==> target != old(SlotCounts())[i]
    {
      hide SlotCaches.Agree, Latest, Reversed;
      moved := target != caches[i].lru.slots;
      if moved {
        caches[i].Resize(target);
      }
    }

    /** Miss growth per layer since the window began. */
    function Deltas(): (r: seq<nat>)
      requires |base| == |caches| && forall i :: 0 <= i < |base| ==> base[i] <= caches[i].misses
      reads this, caches
      ensures |r| == |caches| && forall i :: 0 <= i < |r| ==> r[i] == caches[i].misses - base[i]
    {
      seq(|caches|, i requires 0 <= i < |caches| && |base| == |caches| && base[i] <= caches[i].misses reads this, caches =>
        caches[i].misses - base[i])
    }

    /** A rebalance has a window of misses to go by. */
    predicate Pressured()
      requires |base| == |caches| ==> forall i :: 0 <= i < |base| ==> base[i] <= caches[i].misses
      reads this, caches
    {
      caches != [] && |base| == |caches| && Sum(Deltas()) > 0
    }

    method Redistribute(deltas: seq<nat>, floor: nat) returns (changed: bool, ghost trace: seq<seq<int>>)
      requires Ready() && |deltas| == |caches| > 0 && floor > 0
      modifies caches
      ensures Ready() && MissCounts() == old(MissCounts())
      ensures Placed(old(SlotCounts()), SlotCounts(), deltas, floor, experts)
      ensures (changed <==> SlotCounts() != old(SlotCounts())) && Traced(trace, old(SlotCounts()), SlotCounts(), |caches|)
    {
      hide Sum, Placed, Traced;
      var targets := Plan(SlotCounts(), deltas, floor, experts);
      changed, trace := ResizeAll(targets);
    }

    /** Between requests: redistribute the same budget by miss pressure. Without a
        window of misses nothing moves; with one, the whole budget is placed, no
        layer leaves its bounds, more pressure never means fewer slots, and the
        sum never passes the budget on the way. */
    method Rebalance(floor: nat) returns (changed: bool, ghost trace: seq<seq<int>>)
      requires Valid() && floor > 0
      modifies this`base, caches
      ensures Valid() && (caches != [] ==> base == MissCounts()) && MissCounts() == old(MissCounts())
      ensures changed <==> SlotCounts() != old(SlotCounts())
      ensures !old(Pressured()) ==> SlotCounts() == old(SlotCounts()) && trace == [SlotCounts()]
      ensures old(Pressured()) ==> Traced(trace, old(SlotCounts()), SlotCounts(), |caches|)
      ensures old(Pressured()) ==> Placed(old(SlotCounts()), SlotCounts(), old(Deltas()), floor, experts)
    {
      hide Sum, Placed, Traced;
      trace := [SlotCounts()];
      if caches == [] { return false, trace; }
      if |base| != |caches| {
        base := MissCounts();
        return false, trace;
      }
      var deltas := Deltas();
      base := MissCounts();
      if Sum(deltas) <= 0 { return false, trace; }
      changed, trace := Redistribute(deltas, floor);
    }
  }

  lemma EnoughForAll(slots: seq<int>)
    requires forall i :: 0 <= i < |slots| ==> slots[i] > 0
    ensures Sum(slots) >= |slots|
  {
    SumAtLeast(slots, 1);
  }

  lemma FloorPositive(floor: nat, total: nat, n: nat)
    requires floor > 0 && n > 0 && total >= n
    ensures BaseShare(floor, total, n) > 0
  {
    Division(total, n);
    QuotientsOrdered(n, total, n, 1, total / n);
  }
}
