/** Which experts of a chunk an admission takes: ranked by how often the chunk routed
    to them, ties in their given order, and the last of the ranking that fit. */
module Admission {
  import opened Collections

  function Count(routed: seq<nat>, e: nat): nat {
    multiset(routed)[e]
  }

  /** A further expert in a ranking: behind everything routed to no more often. */
  function Ranking(ranked: seq<nat>, e: nat, routed: seq<nat>): (r: seq<nat>)
    ensures |r| == |ranked| + 1
  {
    var n := |ranked|;
    if n == 0 || Count(routed, ranked[n - 1]) <= Count(routed, e) then ranked + [e]
    else Ranking(ranked[..n - 1], e, routed) + [ranked[n - 1]]
  }

  /** The routed ones among some experts, coldest first: a stable sort. */
  function ByHeat(es: seq<nat>, routed: seq<nat>): seq<nat> {
    if es == [] then []
    else
      var e, ranked := es[|es| - 1], ByHeat(es[..|es| - 1], routed);
      if Count(routed, e) == 0 then ranked else Ranking(ranked, e, routed)
  }

  function Hottest(es: seq<nat>, routed: seq<nat>, n: nat): seq<nat> {
    Latest(ByHeat(es, routed), n)
  }

  /** a stands before b among the experts given. */
  ghost predicate Before(es: seq<nat>, a: nat, b: nat) {
    exists i, j :: 0 <= i < j < |es| && es[i] == a && es[j] == b
  }

  ghost predicate Cooler(es: seq<nat>, routed: seq<nat>, a: nat, b: nat) {
    Count(routed, a) < Count(routed, b) || (Count(routed, a) == Count(routed, b) && Before(es, a, b))
  }

  /** In rank order, each once. */
  ghost predicate RankedBy(es: seq<nat>, routed: seq<nat>, r: seq<nat>) {
    && Distinct(r)
    && (forall e :: e in r <==> e in es && Count(routed, e) > 0)
    && (forall i, j :: 0 <= i < j < |r| ==> Cooler(es, routed, r[i], r[j]))
  }

  lemma CoolerOfLonger(es: seq<nat>, routed: seq<nat>, e: nat, a: nat, b: nat)
    requires Cooler(es, routed, a, b)
    ensures Cooler(es + [e], routed, a, b)
  {
    if Before(es, a, b) {
      var i, j :| 0 <= i < j < |es| && es[i] == a && es[j] == b;
      assert (es + [e])[i] == a && (es + [e])[j] == b;
    }
  }

  lemma LastIsBehind(es: seq<nat>, e: nat, a: nat)
    requires a in es
    ensures Before(es + [e], a, e)
  {
    var i :| 0 <= i < |es| && es[i] == a;
    assert (es + [e])[i] == a && (es + [e])[|es|] == e;
  }

  /** The places of a ranking around one that was added at k. */
  function Placed(ranked: seq<nat>, e: nat, k: nat): (r: seq<nat>)
    requires k <= |ranked|
    ensures |r| == |ranked| + 1
    ensures forall i :: 0 <= i < |r| ==> r[i] == if i < k then ranked[i] else if i == k then e else ranked[i - 1]
  {
    ranked[..k] + [e] + ranked[k..]
  }

  lemma PlacedMembers(ranked: seq<nat>, e: nat, k: nat)
    requires k <= |ranked|
    ensures forall d :: d in Placed(ranked, e, k) <==> d in ranked || d == e
  {
    assert ranked == ranked[..k] + ranked[k..];
  }

  /** Where a further expert goes, and that it parts the ranking by heat. */
  lemma {:induction false} RankingAt(ranked: seq<nat>, e: nat, routed: seq<nat>) returns (k: nat)
    requires forall i, j :: 0 <= i < j < |ranked| ==> Count(routed, ranked[i]) <= Count(routed, ranked[j])
    ensures k <= |ranked| && Ranking(ranked, e, routed) == Placed(ranked, e, k)
    ensures forall i :: 0 <= i < k ==> Count(routed, ranked[i]) <= Count(routed, e)
    ensures forall i :: k <= i < |ranked| ==> Count(routed, e) < Count(routed, ranked[i])
  {
    hide Count;
    var n := |ranked|;
    if n == 0 || Count(routed, ranked[n - 1]) <= Count(routed, e) {
      k := n;
    } else {
      k := RankingAt(ranked[..n - 1], e, routed);
      assert ranked[..n - 1][..k] == ranked[..k];
      assert ranked[k..] == ranked[..n - 1][k..] + [ranked[n - 1]];
    }
  }

  lemma PlacedIsRanked(es: seq<nat>, routed: seq<nat>, ranked: seq<nat>, e: nat, k: nat)
    requires RankedBy(es, routed, ranked) && e !in es && Count(routed, e) > 0 && k <= |ranked|
    requires forall i :: 0 <= i < k ==> Count(routed, ranked[i]) <= Count(routed, e)
    requires forall i :: k <= i < |ranked| ==> Count(routed, e) < Count(routed, ranked[i])
    ensures RankedBy(es + [e], routed, Placed(ranked, e, k))
  {
    var r := Placed(ranked, e, k);
    PlacedMembers(ranked, e, k);
    hide Count, Cooler;
    forall i, j | 0 <= i < j < |r| ensures r[i] != r[j] && Cooler(es + [e], routed, r[i], r[j]) {
      PlacedPair(es, routed, ranked, e, k, i, j);
    }
  }

  lemma PlacedPair(es: seq<nat>, routed: seq<nat>, ranked: seq<nat>, e: nat, k: nat, i: nat, j: nat)
    requires RankedBy(es, routed, ranked) && e !in es && k <= |ranked| && i < j <= |ranked|
    requires j == k ==> Count(routed, ranked[i]) <= Count(routed, e)
    requires i == k ==> Count(routed, e) < Count(routed, ranked[j - 1])
    ensures var r := Placed(ranked, e, k); r[i] != r[j] && Cooler(es + [e], routed, r[i], r[j])
  {
    hide Count, Before;
    var r := Placed(ranked, e, k);
    var a, b := if i < k then i else i - 1, if j < k then j else j - 1;
    if j == k {
      assert ranked[i] in ranked;
      LastIsBehind(es, e, ranked[i]);
    } else if i == k {
      assert ranked[b] in ranked;
    } else {
      assert r[i] == ranked[a] && r[j] == ranked[b] && a < b;
      CoolerOfLonger(es, routed, e, ranked[a], ranked[b]);
    }
  }

  lemma {:induction false} ByHeatIsRanked(es: seq<nat>, routed: seq<nat>)
    requires Distinct(es)
    ensures RankedBy(es, routed, ByHeat(es, routed))
    decreases |es|
  {
    if es != [] {
      var n := |es| - 1;
      var head, e := es[..n], es[n];
      assert es == head + [e] && e !in head;
      ByHeatIsRanked(head, routed);
      var ranked := ByHeat(head, routed);
      if Count(routed, e) == 0 {
        Unrouted(head, routed, ranked, e);
      } else {
        var k := RankingAt(ranked, e, routed);
        PlacedIsRanked(head, routed, ranked, e, k);
      }
    }
  }

  lemma Unrouted(es: seq<nat>, routed: seq<nat>, ranked: seq<nat>, e: nat)
    requires RankedBy(es, routed, ranked) && Count(routed, e) == 0
    ensures RankedBy(es + [e], routed, ranked)
  {
    hide Cooler;
    forall i, j | 0 <= i < j < |ranked| ensures Cooler(es + [e], routed, ranked[i], ranked[j]) {
      CoolerOfLonger(es, routed, e, ranked[i], ranked[j]);
    }
  }

  /** The hottest: routed experts in rank order, as many as fit, and every routed
      expert left out is cooler than all of them. */
  lemma HottestFacts(es: seq<nat>, routed: seq<nat>, n: nat)
    requires Distinct(es)
    ensures var hot := Hottest(es, routed, n);
      && Distinct(hot) && |hot| <= n
      && (forall e :: e in hot ==> e in es && Count(routed, e) > 0)
      && (forall i, j :: 0 <= i < j < |hot| ==> Cooler(es, routed, hot[i], hot[j]))
      && (forall e, k :: e in es && e !in hot && Count(routed, e) > 0 && 0 <= k < |hot| ==> Cooler(es, routed, e, hot[k]))
      && (|hot| < n ==> forall e :: e in es && Count(routed, e) > 0 ==> e in hot)
  {
    ByHeatIsRanked(es, routed);
    hide Cooler, Count;
    var ranked, hot := ByHeat(es, routed), Hottest(es, routed, n);
    var cut := |ranked| - |hot|;
    assert hot == ranked[cut..];
    forall e | e in es && Count(routed, e) > 0
      ensures e in hot || (cut > 0 && forall k :: 0 <= k < |hot| ==> Cooler(es, routed, e, hot[k]))
    {
      assert e in ranked;
      var i :| 0 <= i < |ranked| && ranked[i] == e;
      if i >= cut { assert hot[i - cut] == e; }
    }
  }

  lemma HottestFit(es: seq<nat>, routed: seq<nat>, n: nat)
    requires Distinct(es)
    ensures var hot := Hottest(es, routed, n); Distinct(hot) && |hot| <= n && forall e :: e in hot ==> e in es
  {
    HottestFacts(es, routed, n);
  }
}
