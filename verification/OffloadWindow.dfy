/** A window of several positions on the slot caches: every layer's experts are served
    for all positions at once, and the forward is the fully resident model's. */
module OffloadWindow {
  import opened Admission
  import opened Collections
  import opened Network
  import opened Target
  import opened SlotCaches
  import opened OffloadDecode

  function Each(f: Hid -> Hid, xs: seq<Hid>): (r: seq<Hid>)
    ensures |r| == |xs|
  {
    seq(|xs|, i requires 0 <= i < |xs| => f(xs[i]))
  }

  lemma {:induction false} FoldThen(l: Layer, f: Hid -> Hid, s: Rec, gs: seq<Gate>)
    requires l.Recurrent?
    ensures Fold(Then(l, f), s, gs) == Fold(l, s, gs)
    decreases |gs|
  {
    if gs != [] { FoldThen(l, f, l.update(s, gs[0]), gs[1..]); }
  }

  /** A layer with a network behind it, over a window. */
  lemma ThenWindow(l: Layer, f: Hid -> Hid, e: Entry, hs: seq<Hid>)
    requires Fits(l, e) && Fits(Then(l, f), e)
    ensures var (e', xs) := WindowEntry(l, e, hs);
      WindowEntry(Then(l, f), e, hs) == (e', Each(f, xs))
  {
    if l.Recurrent? {
      var conv := ConvState(l, e) + Rows(l.qkv, hs);
      var gs, s0 := Gates(l, conv, hs), RecState(l, e);
      assert gs == Gates(Then(l, f), conv, hs);
      FoldThen(l, f, s0, gs);
      forall i | 0 <= i < |hs| ensures WindowEntry(Then(l, f), e, hs).1[i] == f(WindowEntry(l, e, hs).1[i]) {
        FoldThen(l, f, s0, gs[..i + 1]);
      }
    }
    assert WindowEntry(Then(l, f), e, hs).1 == Each(f, WindowEntry(l, e, hs).1);
  }

  /** The window forward through the first k layers. */
  function WindowTo(ls: seq<Layer>, entries: seq<Entry>, hs: seq<Hid>, k: nat): (r: (seq<Entry>, seq<Hid>))
    requires AllFit(ls, entries) && k <= |ls|
    ensures |r.0| == k
  {
    WindowNet(ls[..k], entries[..k], hs)
  }

  lemma {:induction false} WindowNetSnoc(ls: seq<Layer>, entries: seq<Entry>, hs: seq<Hid>, k: nat)
    requires AllFit(ls, entries) && k < |ls|
    ensures var (es, xs) := WindowTo(ls, entries, hs, k);
            var (e, os) := WindowEntry(ls[k], entries[k], xs);
            WindowTo(ls, entries, hs, k + 1) == (es + [e], os)
    decreases k
  {
    hide WindowEntry, Fits;
    assert ls[..k + 1][1..] == ls[1..][..k] && entries[..k + 1][1..] == entries[1..][..k];
    if k > 0 {
      var (e0, x0) := WindowEntry(ls[0], entries[0], hs);
      WindowNetSnoc(ls[1..], entries[1..], x0, k - 1);
      assert ls[..k][1..] == ls[1..][..k - 1] && entries[..k][1..] == entries[1..][..k - 1];
      var (es, xs) := WindowTo(ls[1..], entries[1..], x0, k - 1);
      var e := WindowEntry(ls[k], entries[k], xs).0;
      assert ([e0] + es) + [e] == [e0] + (es + [e]);
    } else {
      var (e, os) := WindowEntry(ls[0], entries[0], hs);
      assert WindowNet(ls[1..][..0], entries[1..][..0], os) == ([], os);
      assert [e] + [] == [] + [e];
    }
  }

  // ---- the experts of all positions --------------------------------------------------

  /** The picks of a window's positions, one behind the other. */
  function Flat(f: Ffn, xs: seq<Hid>): seq<nat> {
    if xs == [] then [] else Flat(f, xs[..|xs| - 1]) + Route(f, xs[|xs| - 1])
  }

  lemma {:induction false} FlatHas(f: Ffn, xs: seq<Hid>, e: nat)
    ensures e in Flat(f, xs) <==> exists i :: 0 <= i < |xs| && e in Route(f, xs[i])
  {
    if xs != [] {
      var n := |xs| - 1;
      FlatHas(f, xs[..n], e);
      assert forall i :: 0 <= i < n ==> xs[..n][i] == xs[i];
    }
  }

  /** Every routed expert once, in ascending order. */
  method Unique(flat: seq<nat>, experts: nat) returns (uniq: seq<nat>)
    requires forall e :: e in flat ==> e < experts
    ensures Distinct(uniq) && forall e :: e in uniq <==> e in flat
    ensures forall i, j :: 0 <= i < j < |uniq| ==> uniq[i] < uniq[j]
  {
    uniq := [];
    for e := 0 to experts
      invariant forall d :: d in uniq <==> d in flat && d < e
      invariant forall i, j :: 0 <= i < j < |uniq| ==> uniq[i] < uniq[j]
    {
      if e in flat {
        assert forall i :: 0 <= i < |uniq| ==> uniq[i] in uniq;
        uniq := uniq + [e];
      }
    }
  }

  /** The three ways to serve them: from the slots, misses admitted first; from slots
      and a bank; or from the whole layer, streamed past the slots. */
  method Serve(c: SlotCache, flat: seq<nat>, uniq: seq<nat>, short: bool, inline: set<nat>) returns (w: seq<Weights>)
    requires c.Coherent() && Distinct(uniq) && forall e :: e in uniq ==> e < c.experts
    modifies c`lru, c`buffers, c`lut, c`owner, c`hits, c`misses
    ensures c.Coherent() && c.lru.slots == old(c.lru.slots)
    ensures |w| == |uniq| && forall i :: 0 <= i < |w| ==> w[i] == c.store(uniq[i])
    ensures var was := old(c.lru.order); var missing := Excluding(uniq, Members(was));
      if |uniq| <= c.lru.slots then
        && c.misses == old(c.misses) + |missing| && c.hits == old(c.hits) + |uniq| - |missing|
        && c.lru.order == Latest(Recency(was, uniq) + Excluding(missing, inline), c.lru.slots)
      else if short then
        && c.misses == old(c.misses) + |missing| && c.hits == old(c.hits) + |uniq| - |missing|
        && c.lru.order == Latest(Recency(was, uniq) + Hottest(missing, flat, c.lru.slots), c.lru.slots)
      else
        && c.misses == old(c.misses) && c.hits == old(c.hits)
        && Accessed(was, Hottest(seq(c.experts, i => i), flat, c.lru.slots), c.lru.order, c.lru.slots)
  {
    hide Distinct, Agree, Lookup, Latest, Excluding, Recency, Hottest, OldestEvicted;
    if |uniq| <= c.lru.slots {
      w := c.ServeRouted(uniq, inline);
    } else if short {
      w := c.ServeBanked(uniq, flat);
    } else {
      w := seq(|uniq|, i requires 0 <= i < |uniq| => c.store(uniq[i]));
      c.AdmitFromFull(c.store, flat);
    }
  }

  /** One position's weights, picked out of those served. */
  method Picks(es: seq<nat>, uniq: seq<nat>, w: seq<Weights>, ghost store: nat -> Weights) returns (mine: seq<Weights>)
    requires |w| == |uniq| && (forall i :: 0 <= i < |w| ==> w[i] == store(uniq[i])) && forall e :: e in es ==> e in uniq
    ensures mine == TrueWeights(store, es)
  {
    mine := [];
    for k := 0 to |es|
      invariant |mine| == k && forall j :: 0 <= j < k ==> mine[j] == store(es[j])
    {
      assert es[k] in es;
      mine := mine + [w[IndexOf(uniq, es[k])]];
    }
  }

  /** One layer's network over a window, on its slot cache. */
  method WindowExperts(d: OffloadDecoder, i: nat, xs: seq<Hid>, bank: nat, inline: set<nat>) returns (out: seq<Hid>)
    requires d.Wired() && d.CachesReady() && i < |d.layers|
    modifies d.caches[i]
    ensures d.CachesReady() && out == Each(d.FullAt(i), xs)
  {
    var f := d.layers[i].ffn;
    if d.caches[i] == null { return Each(f.apply, xs); }
    var c := d.caches[i];
    assert c.Coherent() && Routable(f, c.experts, c.lru.slots);
    hide SlotCache.Coherent, Routable, Flat, Route;
    out := RoutedWindow(c, f, xs, bank, inline);
  }

  /** The experts of a window's positions, one batch. */
  method RoutedWindow(c: SlotCache, f: Ffn, xs: seq<Hid>, bank: nat, inline: set<nat>) returns (out: seq<Hid>)
    requires f.Routed? && c.Coherent() && Routable(f, c.experts, c.lru.slots)
    modifies c`lru, c`buffers, c`lut, c`owner, c`hits, c`misses
    ensures c.Coherent() && c.lru.slots == old(c.lru.slots) && out == Each(Full(f, c.store), xs)
  {
    var flat := Flat(f, xs);
    FlatInRange(f, xs, c.experts, c.lru.slots);
    hide Routable, SlotCache.Coherent;
    var uniq := Unique(flat, c.experts);
    var w := Serve(c, flat, uniq, |xs| <= bank, inline);
    out := [];
    for k := 0 to |xs|
      invariant c.Coherent() && c.lru.slots == old(c.lru.slots)
      invariant |out| == k && forall j :: 0 <= j < k ==> out[j] == Full(f, c.store)(xs[j])
    {
      forall e | e in f.route(xs[k]) ensures e in uniq { FlatHas(f, xs, e); }
      var mine := Picks(f.route(xs[k]), uniq, w, c.store);
      out := out + [f.mix(xs[k], mine)];
    }
  }

  lemma FlatInRange(f: Ffn, xs: seq<Hid>, experts: nat, slots: nat)
    requires Routable(f, experts, slots)
    ensures forall e :: e in Flat(f, xs) ==> e < experts
  {
    forall e | e in Flat(f, xs) ensures e < experts {
      FlatHas(f, xs, e);
      var i :| 0 <= i < |xs| && e in Route(f, xs[i]);
      RouteFits(f, experts, slots, xs[i]);
    }
  }

  // ---- the forward ---------------------------------------------------------------------

  /** The window forward has come as far as layer i. */
  ghost predicate AtLayer(d: OffloadDecoder, before: seq<Entry>, hs: seq<Hid>, i: nat, now: seq<Entry>, xs: seq<Hid>)
    requires d.Wired() && AllFit(d.Plain(), before) && i <= |d.layers| && |now| == |d.layers|
  {
    now[i..] == before[i..] && (now[..i], xs) == WindowTo(d.Plain(), before, hs, i)
  }

  lemma LayerWindow(d: OffloadDecoder, before: seq<Entry>, hs: seq<Hid>, i: nat, xs: seq<Hid>)
    requires d.Wired() && AllFit(d.Plain(), before) && i < |d.layers| && xs == WindowTo(d.Plain(), before, hs, i).1
    ensures Fits(d.layers[i].attend, before[i])
    ensures var (e, ys) := WindowEntry(d.layers[i].attend, before[i], xs);
      WindowTo(d.Plain(), before, hs, i + 1) == (WindowTo(d.Plain(), before, hs, i).0 + [e], Each(d.FullAt(i), ys))
  {
    FitsThen(d.layers[i].attend, d.FullAt(i), before[i]);
    assert Fits(d.Plain()[i], before[i]);
    ThenWindow(d.layers[i].attend, d.FullAt(i), before[i], xs);
    hide WindowEntry, WindowTo, Then, Fits;
    WindowNetSnoc(d.Plain(), before, hs, i);
  }

  method WindowLayer(d: OffloadDecoder, i: nat, xs: seq<Hid>, bank: nat, inline: set<nat>, ghost before: seq<Entry>, ghost hs: seq<Hid>)
    returns (out: seq<Hid>)
    requires d.Wired() && d.CachesReady() && AllFit(d.Plain(), before) && i < |d.layers|
    requires AtLayer(d, before, hs, i, d.entries[..], xs)
    modifies d.entries, d.caches[i]
    ensures d.CachesReady() && AtLayer(d, before, hs, i + 1, d.entries[..], out)
  {
    assert |before| == d.entries.Length;
    var entries := d.entries;
    hide WindowEntry, WindowTo, OffloadDecoder.CachesReady, AllFit, Fits, OffloadDecoder.Plain, Then, OffloadDecoder.FullAt;
    assert entries[..][i..] == entries[i..] && entries[..][..i] == entries[..i];
    assert entries[i] == entries[i..][0] && entries[i + 1..] == before[i + 1..] by {
      assert entries[i + 1..] == entries[i..][1..] && before[i + 1..] == before[i..][1..];
    }
    LayerWindow(d, before, hs, i, xs);
    var (e, ys) := WindowEntry(d.layers[i].attend, entries[i], xs);
    out := WindowExperts(d, i, ys, bank, inline);
    d.Put(i, e);
    assert entries[..][i + 1..] == entries[i + 1..] && entries[..][..i + 1] == entries[..i + 1];
  }

  method WindowLayers(d: OffloadDecoder, hs: seq<Hid>, bank: nat, inline: nat -> set<nat>, ghost before: seq<Entry>) returns (out: seq<Hid>)
    requires d.Wired() && d.CachesReady() && d.entries[..] == before && AllFit(d.Plain(), before)
    modifies d.entries, d.caches
    ensures d.CachesReady() && AtLayer(d, before, hs, |d.layers|, d.entries[..], out)
  {
    assert before[..0] == [] && d.Plain()[..0] == [];
    assert AtLayer(d, before, hs, 0, d.entries[..], hs);
    hide AtLayer, OffloadDecoder.CachesReady, AllFit, OffloadDecoder.Plain;
    out := hs;
    for i := 0 to |d.layers|
      invariant d.CachesReady() && AtLayer(d, before, hs, i, d.entries[..], out)
    {
      out := WindowLayer(d, i, out, bank, inline(i), before, hs);
    }
  }

  /** The window forward on the slot caches is the resident model's, however its
      experts are served. */
  method ForwardWindow(d: OffloadDecoder, hs: seq<Hid>, bank: nat, inline: nat -> set<nat>) returns (out: seq<Hid>)
    requires d.Valid()
    modifies d.entries, d.caches
    ensures d.Valid() && (d.entries[..], out) == WindowNet(d.Plain(), old(d.entries[..]), hs)
  {
    ghost var before := d.entries[..];
    hide WindowNet, OffloadDecoder.CachesReady, OffloadDecoder.Plain;
    out := WindowLayers(d, hs, bank, inline, before);
    assert d.Plain()[..|d.layers|] == d.Plain() && before[..|d.layers|] == before;
    assert d.entries[..][..|d.layers|] == d.entries[..];
    WindowForwardIsDecode(d.Plain(), before, hs);
  }

  /** A speculative round's forward, with the experts on the slot caches: the caches of
      the longer run and the target's states for the window's prefixes. */
  method VerifyWindow(d: OffloadDecoder, ghost run: seq<Token>, window: seq<Token>, bank: nat, inline: nat -> set<nat>) returns (hid: seq<Hid>)
    requires d.Valid() && d.entries[..] == CacheAfter(d.ResidentModel(), run)
    modifies d.entries, d.caches
    ensures d.Valid() && d.entries[..] == CacheAfter(d.ResidentModel(), run + window)
    ensures (d.entries[..], hid) == WindowNet(d.ResidentModel().layers, old(d.entries[..]), Embed(d.ResidentModel(), window))
    ensures |hid| == |window|
    ensures forall i {:trigger hid[i]} :: 0 <= i < |window| ==> hid[i] == HiddenAfter(d.ResidentModel(), run + window[..i + 1])
  {
    hide CacheAfter, HiddenAfter, WindowNet, OffloadDecoder.CachesReady, OffloadDecoder.Plain;
    ForwardContinuesRun(d.ResidentModel(), run, window);
    var hs := seq(|window|, i requires 0 <= i < |window| => d.embed(window[i]));
    assert hs == Embed(d.ResidentModel(), window);
    hid := ForwardWindow(d, hs, bank, inline);
  }
}
