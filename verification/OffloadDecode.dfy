/** Expert-offload decoding. Each layer's routed experts are served from its slot
    cache; a decode step runs without checking that they are resident, and is
    rolled back and rerun when the owner check says one was not. The plain model is
    the same one with every expert resident. */
module OffloadDecode {
  import opened Collections
  import opened Network
  import opened Target
  import opened SlotCaches

  /** What follows a layer's token mixer: a dense network, or a router's choice of
      experts and their sum. */
  datatype Ffn = Dense(apply: Hid -> Hid) | Routed(route: Hid -> seq<nat>, mix: (Hid, seq<Weights>) -> Hid)

  datatype DecoderLayer = DecoderLayer(attend: Layer, ffn: Ffn)

  function TrueWeights(store: nat -> Weights, es: seq<nat>): (w: seq<Weights>)
    ensures |w| == |es|
  {
    seq(|es|, i requires 0 <= i < |es| => store(es[i]))
  }

  /** The experts a layer asks for; a dense one asks for none. */
  function Route(f: Ffn, a: Hid): seq<nat> {
    if f.Dense? then [] else f.route(a)
  }

  /** A layer's network with every expert at hand. */
  function Full(f: Ffn, store: nat -> Weights): Hid -> Hid
    requires f.Routed?
  {
    a => f.mix(a, TrueWeights(store, f.route(a)))
  }

  /** A token mixer followed by a network: an ordinary layer. */
  function Then(l: Layer, f: Hid -> Hid): Layer {
    match l
    case Attention(row, attend) => Attention(row, (rows, x) => f(attend(rows, x)))
    case Recurrent(keep, zero, qkv, gate, blank, update, emit) =>
      Recurrent(keep, zero, qkv, gate, blank, update, (s, g, x) => f(emit(s, g, x)))
    case Sliding(size, row, read) => Sliding(size, row, (rows, x) => f(read(rows, x)))
  }

  lemma ThenStep(l: Layer, f: Hid -> Hid, e: Entry, h: Hid)
    requires Fits(l, e)
    ensures Fits(Then(l, f), e)
    ensures var (e', a) := StepEntry(l, e, h);
      StepEntry(Then(l, f), e, h) == (e', f(a))
  {
  }

  /** The plain step through the first k layers. */
  function StepTo(ls: seq<Layer>, entries: seq<Entry>, h: Hid, k: nat): (r: (seq<Entry>, Hid))
    requires AllFit(ls, entries) && k <= |ls|
    ensures |r.0| == k
  {
    StepNet(ls[..k], entries[..k], h)
  }

  lemma {:induction false} StepNetSnoc(ls: seq<Layer>, entries: seq<Entry>, h: Hid, k: nat)
    requires AllFit(ls, entries) && k < |ls|
    ensures var (es, x) := StepTo(ls, entries, h, k);
            var (e, o) := StepEntry(ls[k], entries[k], x);
            StepTo(ls, entries, h, k + 1) == (es + [e], o)
    decreases k
  {
    assert ls[..k + 1][1..] == ls[1..][..k] && entries[..k + 1][1..] == entries[1..][..k];
    if k > 0 {
      var (e0, x0) := StepEntry(ls[0], entries[0], h);
      StepNetSnoc(ls[1..], entries[1..], x0, k - 1);
      assert ls[..k][1..] == ls[1..][..k - 1] && entries[..k][1..] == entries[1..][..k - 1];
      var (es, x) := StepTo(ls[1..], entries[1..], x0, k - 1);
      var e := StepEntry(ls[k], entries[k], x).0;
      assert ([e0] + es) + [e] == [e0] + (es + [e]);
    } else {
      var (e, o) := StepEntry(ls[0], entries[0], h);
      assert StepNet(ls[1..][..0], entries[1..][..0], o) == ([], o);
      assert [e] + [] == [] + [e];
    }
  }

  /** Whatever the router sees, its choice is distinct, in range and fits the slots. */
  ghost predicate Routable(f: Ffn, experts: nat, slots: nat) {
    forall x: Hid :: Distinct(Route(f, x)) && |Route(f, x)| <= slots && forall e :: e in Route(f, x) ==> e < experts
  }

  lemma RouteFits(f: Ffn, experts: nat, slots: nat, x: Hid)
    requires Routable(f, experts, slots)
    ensures Distinct(Route(f, x)) && |Route(f, x)| <= slots && forall e :: e in Route(f, x) ==> e < experts
  {
  }

  class OffloadDecoder {
    const layers: seq<DecoderLayer>
    const caches: seq<SlotCache?>   // one for each layer with experts
    const entries: array<Entry>
    const embed: Token -> Hid
    const greedy: Hid -> Token

    constructor (layers: seq<DecoderLayer>, caches: seq<SlotCache?>, entries: array<Entry>, embed: Token -> Hid, greedy: Hid -> Token)
      ensures this.layers == layers && this.caches == caches && this.entries == entries
      ensures this.embed == embed && this.greedy == greedy
    {
      this.layers, this.caches, this.entries, this.embed, this.greedy := layers, caches, entries, embed, greedy;
    }

    ghost predicate Wired() {
      && |layers| == |caches| == entries.Length
      && (forall i :: 0 <= i < |layers| ==> (caches[i] != null <==> layers[i].ffn.Routed?))
      && (forall i, j :: 0 <= i < j < |caches| && caches[i] != null ==> caches[i] != caches[j])
    }

    /** Layer i's network with every expert at hand. */
    ghost function FullAt(i: nat): Hid -> Hid
      requires Wired() && i < |layers|
    {
      if caches[i] == null then layers[i].ffn.apply else Full(layers[i].ffn, caches[i].store)
    }

    /** The fully resident model's layers. */
    ghost function Plain(): (ls: seq<Layer>)
      requires Wired()
      ensures |ls| == |layers|
      ensures forall i :: 0 <= i < |layers| ==> ls[i] == Then(layers[i].attend, FullAt(i))
    {
      seq(|layers|, i requires 0 <= i < |layers| && Wired() => Then(layers[i].attend, FullAt(i)))
    }

    ghost function ResidentModel(): (m: Model)
      requires Wired()
    {
      Model(Plain(), embed, greedy)
    }

    /** Every cache coherent and wide enough for whatever its router may pick. */
    ghost predicate CachesReady()
      requires Wired()
      reads caches
    {
      forall i :: 0 <= i < |caches| && caches[i] != null ==>
        caches[i].Coherent() && Routable(layers[i].ffn, caches[i].experts, caches[i].lru.slots)
    }

    ghost predicate EntriesFit()
      requires Wired()
      reads entries
    {
      AllFit(Plain(), entries[..])
    }

    ghost predicate Valid()
      reads caches, entries
    {
      Wired() && CachesReady() && EntriesFit()
    }

    /** The plain model's hidden state behind layer i's token mixer, and what the
        router picks there. */
    ghost function TrueRoute(before: seq<Entry>, h: Hid, i: nat): seq<nat>
      requires Wired() && AllFit(Plain(), before) && i < |layers|
    {
      var x := StepTo(Plain(), before, h, i).1;
      FitsThen(layers[i].attend, FullAt(i), before[i]);
      Route(layers[i].ffn, StepEntry(layers[i].attend, before[i], x).1)
    }

    ghost predicate AllResident(i: nat, es: seq<nat>)
      requires i < |caches|
      reads caches[i]
    {
      caches[i] != null ==> forall e :: e in es ==> caches[i].Resident(e)
    }

    /** One layer served through the lazy path: whatever is in the slots `lut`
        names, and whether all of them belong to the routed experts. A dense layer
        has nothing to check. */
    method LazyExperts(i: nat, a: Hid) returns (x: Hid, ok: bool)
      requires Wired() && CachesReady() && i < |layers|
      ensures ok <==> AllResident(i, Route(layers[i].ffn, a))
      ensures ok ==> x == FullAt(i)(a)
    {
      if caches[i] == null { return layers[i].ffn.apply(a), true; }
      var es, c := layers[i].ffn.route(a), caches[i];
      RouteFits(layers[i].ffn, c.experts, c.lru.slots, a);
      ok := true;
      var w := [];
      for k := 0 to |es|
        invariant |w| == k && (ok <==> forall j :: 0 <= j < k ==> c.Resident(es[j]))
        invariant ok ==> forall j :: 0 <= j < k ==> w[j] == c.store(es[j])
      {
        assert es[k] in es;
        var (row, mine) := c.Gather(es[k]);
        w, ok := w + [row], ok && mine;
      }
      x := layers[i].ffn.mix(a, w);
      assert ok ==> w == TrueWeights(c.store, es);
    }

    lemma LayerStep(before: seq<Entry>, h: Hid, i: nat, x: Hid)
      requires Wired() && AllFit(Plain(), before) && i < |layers|
      ensures Fits(layers[i].attend, before[i]) && Fits(Plain()[i], before[i])
      ensures var (e, a) := StepEntry(layers[i].attend, before[i], x);
        && StepEntry(Plain()[i], before[i], x).0 == e
        && (x == StepTo(Plain(), before, h, i).1 ==>
              && Route(layers[i].ffn, a) == TrueRoute(before, h, i)
              && StepTo(Plain(), before, h, i + 1) == (StepTo(Plain(), before, h, i).0 + [e], FullAt(i)(a)))
    {
      FitsThen(layers[i].attend, FullAt(i), before[i]);
      ThenStep(layers[i].attend, FullAt(i), before[i], x);
      hide StepEntry, StepTo, Then, FullAt;
      StepNetSnoc(Plain(), before, h, i);
    }

    lemma WholeStep(before: seq<Entry>, h: Hid)
      requires Wired() && AllFit(Plain(), before)
      ensures StepTo(Plain(), before, h, |layers|) == StepNet(Plain(), before, h)
      ensures StepTo(Plain(), before, h, 0) == ([], h)
    {
      assert Plain()[..|layers|] == Plain() && before[..|layers|] == before;
    }

    /** Every entry so far was advanced by some hidden state: the true one only as
        long as every owner check passed. */
    ghost predicate Wrote(before: seq<Entry>, i: nat, now: seq<Entry>, fed: seq<Hid>)
      requires Wired() && AllFit(Plain(), before) && i <= |layers|
    {
      |fed| == |now| == i && forall k :: 0 <= k < i ==> now[k] == StepEntry(Plain()[k], before[k], fed[k]).0
    }

    /** The trace holds a router's pick per layer, and whether all of it was resident. */
    ghost predicate Judged(i: nat, t: Trace)
      requires Wired() && i <= |layers|
      reads caches
    {
      && |t.routes| == |t.oks| == i
      && forall k :: 0 <= k < i ==> Picked(layers[k].ffn, t.routes[k]) && (t.oks[k] <==> AllResident(k, t.routes[k]))
    }

    /** Up to and including the first missing layer the routes are the true ones;
        with none missing so far, so are the entries and the hidden state. */
    ghost predicate Faithful(before: seq<Entry>, h: Hid, i: nat, now: seq<Entry>, x: Hid, t: Trace)
      requires Wired() && AllFit(Plain(), before) && i <= |layers| && |t.routes| == |t.oks| == i
    {
      && (forall k :: 0 <= k < i && AllTrue(t.oks, k) ==> t.routes[k] == TrueRoute(before, h, k))
      && (AllTrue(t.oks, i) ==> (now, x) == StepTo(Plain(), before, h, i))
    }

    /** The lazy forward after i layers. */
    ghost predicate Forwarded(before: seq<Entry>, h: Hid, i: nat, now: seq<Entry>, x: Hid, t: Trace, fed: seq<Hid>)
      requires Wired() && AllFit(Plain(), before) && i <= |layers|
      reads caches
    {
      Wrote(before, i, now, fed) && Judged(i, t) && Faithful(before, h, i, now, x, t)
    }

    lemma FaithfulStep(before: seq<Entry>, h: Hid, i: nat, now: seq<Entry>, x: Hid, t: Trace, e: Entry, a: Hid, x': Hid, ok: bool)
      requires Wired() && AllFit(Plain(), before) && i < |layers| && |t.routes| == |t.oks| == i
      requires Faithful(before, h, i, now, x, t)
      requires Fits(layers[i].attend, before[i]) && (e, a) == StepEntry(layers[i].attend, before[i], x)
      requires ok ==> x' == FullAt(i)(a)
      ensures Faithful(before, h, i + 1, now + [e], x', Trace(t.routes + [Route(layers[i].ffn, a)], t.oks + [ok]))
    {
      hide StepEntry, StepTo, Then, FullAt, TrueRoute, AllFit, Fits, Plain, Wired, AllTrue;
      LayerStep(before, h, i, x);
      AllTrueSnoc(t.oks, ok);
    }

    lemma WroteStep(before: seq<Entry>, i: nat, now: seq<Entry>, fed: seq<Hid>, e: Entry, x: Hid)
      requires Wired() && AllFit(Plain(), before) && i < |layers| && Wrote(before, i, now, fed)
      requires Fits(Plain()[i], before[i]) && e == StepEntry(Plain()[i], before[i], x).0
      ensures Wrote(before, i + 1, now + [e], fed + [x])
    {
      hide StepEntry, AllFit, Fits, Plain;
    }

    lemma JudgedStep(i: nat, t: Trace, a: Hid, ok: bool)
      requires Wired() && i < |layers| && Judged(i, t)
      requires ok <==> AllResident(i, Route(layers[i].ffn, a))
      ensures Judged(i + 1, Trace(t.routes + [Route(layers[i].ffn, a)], t.oks + [ok]))
    {
      hide AllResident;
    }

    lemma ForwardedStep(before: seq<Entry>, h: Hid, i: nat, now: seq<Entry>, x: Hid, t: Trace, fed: seq<Hid>, e: Entry, a: Hid, x': Hid, ok: bool)
      requires Wired() && AllFit(Plain(), before) && i < |layers|
      requires Forwarded(before, h, i, now, x, t, fed)
      requires Fits(layers[i].attend, before[i]) && (e, a) == StepEntry(layers[i].attend, before[i], x)
      requires ok <==> AllResident(i, Route(layers[i].ffn, a))
      requires ok ==> x' == FullAt(i)(a)
      ensures Forwarded(before, h, i + 1, now + [e], x', Trace(t.routes + [Route(layers[i].ffn, a)], t.oks + [ok]), fed + [x])
    {
      assert |t.routes| == |t.oks| == i;
      hide StepEntry, StepTo, Then, FullAt, TrueRoute, AllFit, Fits, Plain, AllTrue, Wrote, Judged, Faithful, AllResident, Wired;
      FaithfulStep(before, h, i, now, x, t, e, a, x', ok);
      LayerStep(before, h, i, x);
      WroteStep(before, i, now, fed, e, x);
      JudgedStep(i, t, a, ok);
    }

    /** One layer of the lazy forward: its experts served unchecked, its route and
        verdict put aside. */
    method LazyLayer(i: nat, x: Hid, t: Trace, ghost before: seq<Entry>, ghost h: Hid, ghost now: seq<Entry>, ghost fed: seq<Hid>)
      returns (e: Entry, x': Hid, t': Trace)
      requires Wired() && CachesReady() && AllFit(Plain(), before) && i < |layers|
      requires entries[i] == before[i] && Forwarded(before, h, i, now, x, t, fed)
      ensures Forwarded(before, h, i + 1, now + [e], x', t', fed + [x])
    {
      hide StepEntry, StepTo, Then, FullAt, TrueRoute, CachesReady, Forwarded, AllResident, AllFit, Fits, Plain;
      LayerStep(before, h, i, x);
      var step := StepEntry(layers[i].attend, entries[i], x);
      e := step.0;
      var a := step.1;
      var ok;
      x', ok := LazyExperts(i, a);
      t' := Trace(t.routes + [Route(layers[i].ffn, a)], t.oks + [ok]);
      ForwardedStep(before, h, i, now, x, t, fed, e, a, x', ok);
    }

    /** The same layer, its cache entry advanced in place. */
    method LazyLayerInPlace(i: nat, x: Hid, t: Trace, ghost before: seq<Entry>, ghost h: Hid, ghost fed: seq<Hid>) returns (x': Hid, t': Trace)
      requires Wired() && CachesReady() && AllFit(Plain(), before) && i < |layers|
      requires entries[i..] == before[i..] && Forwarded(before, h, i, entries[..i], x, t, fed)
      modifies entries
      ensures entries[i + 1..] == before[i + 1..] && Forwarded(before, h, i + 1, entries[..i + 1], x', t', fed + [x])
    {
      assert |before| == entries.Length;
      hide CachesReady, Forwarded, AllFit, Plain;
      assert entries[i] == entries[i..][0] && entries[i + 1..] == before[i + 1..] by {
        assert entries[i + 1..] == entries[i..][1..] && before[i + 1..] == before[i..][1..];
      }
      ghost var now := entries[..i];
      var e;
      e, x', t' := LazyLayer(i, x, t, before, h, now, fed);
      Put(i, e);
    }

    method Put(i: nat, e: Entry)
      requires i < entries.Length
      modifies entries
      ensures entries[..i + 1] == old(entries[..i]) + [e] && entries[i + 1..] == old(entries[i + 1..])
    {
      entries[i] := e;
    }

    /** The lazy forward of one token: no residency check on the way. */
    method Attempt(h: Hid) returns (out: Hid, t: Trace, ghost fed: seq<Hid>)
      requires Valid()
      modifies entries
      ensures Forwarded(old(entries[..]), h, |layers|, entries[..], out, t, fed)
    {
      ghost var before := entries[..];
      assert Wired() && CachesReady() && AllFit(Plain(), before) && |before| == |layers|;
      ForwardedNone(before, h);
      hide StepEntry, StepTo, CachesReady, EntriesFit, Forwarded, AllFit, Fits, Plain;
      out, t, fed := h, Trace([], []), [];
      assert entries[..0] == [];
      for i := 0 to |layers|
        invariant entries[i..] == before[i..]
        invariant Forwarded(before, h, i, entries[..i], out, t, fed)
      {
        ghost var seen := out;
        out, t := LazyLayerInPlace(i, out, t, before, h, fed);
        fed := fed + [seen];
      }
      assert entries[..|layers|] == entries[..];
    }

    lemma ForwardedNone(before: seq<Entry>, h: Hid)
      requires Wired() && AllFit(Plain(), before)
      ensures Forwarded(before, h, 0, [], h, Trace([], []), [])
    {
      WholeStep(before, h);
    }

    // ---- commit, rollback, retry --------------------------------------------------

    /** One layer's part of the commit: refresh recency, or bring in what missed. */
    method CommitLayer(i: nat, route: seq<nat>, ok: bool)
      requires Wired() && CachesReady() && i < |layers| && Picked(layers[i].ffn, route)
      requires ok ==> AllResident(i, route)
      modifies caches[i]
      ensures CachesReady() && AllResident(i, route)
      ensures caches[i] != null ==>
        && Accessed(old(caches[i].lru.order), route, caches[i].lru.order, caches[i].lru.slots)
        && caches[i].misses == old(caches[i].misses) + |Excluding(route, Members(old(caches[i].lru.order)))|
        && caches[i].hits == old(caches[i].hits) + |route| - |Excluding(route, Members(old(caches[i].lru.order)))|
    {
      hide Excluding, Recency, Latest;
      if caches[i] == null { return; }
      ghost var a :| route == Route(layers[i].ffn, a);
      RouteFits(layers[i].ffn, caches[i].experts, caches[i].lru.slots, a);
      if ok {
        caches[i].Touch(route);
      } else {
        caches[i].Acquire(route);
      }
    }

    /** After the step's evaluation: true if every routed expert was resident. On
        a miss, what each layer missed is resident now. */
    method CommitToken(t: Trace) returns (allOk: bool)
      requires Wired() && CachesReady() && Judged(|layers|, t)
      modifies caches
      ensures CachesReady() && (allOk <==> AllTrue(t.oks, |layers|))
      ensures forall i :: 0 <= i < |layers| ==> AllResident(i, t.routes[i])
      ensures forall i :: 0 <= i < |layers| && caches[i] != null ==>
        Accessed(old(caches[i].lru.order), t.routes[i], caches[i].lru.order, caches[i].lru.slots)
    {
      hide CachesReady, AllResident, Picked, Accessed, Excluding, Members;
      allOk := true;
      for i := 0 to |layers|
        invariant CachesReady() && (allOk <==> AllTrue(t.oks, i))
        invariant forall k :: 0 <= k < i ==> AllResident(k, t.routes[k])
        invariant forall k :: i <= k < |layers| && t.oks[k] ==> AllResident(k, t.routes[k])
        invariant forall k :: 0 <= k < i && caches[k] != null ==>
          Accessed(old(caches[k].lru.order), t.routes[k], caches[k].lru.order, caches[k].lru.slots)
        invariant forall k :: i <= k < |layers| && caches[k] != null ==> caches[k].lru == old(caches[k].lru)
      {
        CommitLayer(i, t.routes[i], t.oks[i]);
        allOk := allOk && t.oks[i];
      }
    }

    /** Every entry put back where the step found it. */
    method RollBack(snaps: seq<Option<Entry>>, ghost before: seq<Entry>, ghost fed: seq<Hid>)
      requires Wired() && AllFit(Plain(), before) && Wrote(before, |layers|, entries[..], fed)
      requires |snaps| == |layers| && forall i :: 0 <= i < |snaps| ==> snaps[i] == Snapshot(before[i])
      modifies entries
      ensures entries[..] == before
    {
      ghost var wrote := entries[..];
      for i := 0 to |layers|
        invariant forall k :: 0 <= k < i ==> entries[k] == before[k]
        invariant forall k :: i <= k < |layers| ==> entries[k] == wrote[k]
      {
        StepUndone(Plain()[i], before[i], fed[i]);
        entries[i] := Rollback(entries[i], snaps[i], 1);
      }
    }

    /** If the true routes of the first n layers are resident, the forward passes
        all their owner checks, and routes the next layer truly. */
    lemma {:induction false} FirstMissMovesOn(before: seq<Entry>, h: Hid, now: seq<Entry>, x: Hid, t: Trace, n: nat)
      requires Wired() && AllFit(Plain(), before) && n <= |layers|
      requires Judged(|layers|, t) && Faithful(before, h, |layers|, now, x, t)
      requires forall i :: 0 <= i < n ==> AllResident(i, TrueRoute(before, h, i))
      ensures AllTrue(t.oks, n) && forall i :: 0 <= i <= n && i < |layers| ==> t.routes[i] == TrueRoute(before, h, i)
      decreases n
    {
      if n > 0 {
        FirstMissMovesOn(before, h, now, x, t, n - 1);
      }
    }

    method Snapshots() returns (snaps: seq<Option<Entry>>)
      ensures |snaps| == entries.Length && forall i :: 0 <= i < |snaps| ==> snaps[i] == Snapshot(entries[i])
    {
      snaps := [];
      for i := 0 to entries.Length
        invariant |snaps| == i && forall k :: 0 <= k < i ==> snaps[k] == Snapshot(entries[k])
      {
        snaps := snaps + [Snapshot(entries[i])];
      }
    }

    lemma Verdict(before: seq<Entry>, h: Hid, now: seq<Entry>, x: Hid, t: Trace, n: nat)
      requires Wired() && AllFit(Plain(), before) && n <= |layers|
      requires Judged(|layers|, t) && Faithful(before, h, |layers|, now, x, t)
      requires forall i :: 0 <= i < n ==> AllResident(i, TrueRoute(before, h, i))
      ensures n == |layers| ==> AllTrue(t.oks, |layers|)
      ensures AllTrue(t.oks, |layers|) ==> (now, x) == StepNet(Plain(), before, h)
      ensures forall i :: 0 <= i <= n && i < |layers| ==> t.routes[i] == TrueRoute(before, h, i)
    {
      hide StepEntry, StepNet, StepTo, TrueRoute, AllResident, Plain, Wired;
      WholeStep(before, h);
      FirstMissMovesOn(before, h, now, x, t, n);
    }

    /** The forward and its commit: either the token stands, or every layer up to
        the first that missed now holds its true route. */
    method ForwardAndCommit(h: Hid, ghost n: nat) returns (done: bool, out: Hid, ghost fed: seq<Hid>)
      requires Valid() && n <= |layers|
      requires forall i :: 0 <= i < n ==> AllResident(i, TrueRoute(entries[..], h, i))
      modifies entries, caches
      ensures CachesReady() && Wrote(old(entries[..]), |layers|, entries[..], fed)
      ensures done ==> (entries[..], out) == StepNet(Plain(), old(entries[..]), h)
      ensures !done ==> n < |layers| && forall i :: 0 <= i <= n ==> AllResident(i, TrueRoute(old(entries[..]), h, i))
    {
      hide StepEntry, StepNet, StepTo, TrueRoute, AllResident, Plain, AllFit, AllTrue, CachesReady, Faithful, Wrote, Judged;
      ghost var before := entries[..];
      var t;
      out, t, fed := Attempt(h);
      Verdict(before, h, entries[..], out, t, n);
      done := CommitToken(t);
    }

    /** One attempt of the retry loop; a failed one leaves the entries where it
        found them. */
    method TryToken(h: Hid, ghost n: nat) returns (done: bool, out: Hid)
      requires Valid() && n <= |layers|
      requires forall i :: 0 <= i < n ==> AllResident(i, TrueRoute(entries[..], h, i))
      modifies entries, caches
      ensures Valid() && (n == |layers| ==> done)
      ensures done ==> (entries[..], out) == StepNet(Plain(), old(entries[..]), h)
      ensures !done ==> entries[..] == old(entries[..])
      ensures !done ==> forall i :: 0 <= i <= n ==> AllResident(i, TrueRoute(entries[..], h, i))
    {
      ghost var before := entries[..];
      var snaps := Snapshots();
      hide StepEntry, StepNet, StepTo, TrueRoute, AllResident, Plain, AllFit, CachesReady, Wrote;
      ghost var fed;
      done, out, fed := ForwardAndCommit(h, n);
      if !done {
        RollBack(snaps, before, fed);
      }
    }

    /** How many of the first n layers have experts. */
    function Glus(n: nat): nat
      requires n <= |caches|
    {
      if n == 0 then 0 else Glus(n - 1) + if caches[n - 1] != null then 1 else 0
    }

    lemma {:induction false} GlusGrow(n: nat, k: nat)
      requires n <= k <= |caches|
      ensures Glus(n) <= Glus(k)
      decreases k
    {
      if n < k { GlusGrow(n, k - 1); }
    }

    /** The next layer with experts, or the end. */
    lemma {:induction false} NextGlu(n: nat) returns (k: nat)
      requires n <= |caches|
      ensures n <= k <= |caches| && Glus(k) == Glus(n) && (k < |caches| ==> caches[k] != null)
      ensures forall i :: n <= i < k ==> caches[i] == null
      decreases |caches| - n
    {
      if n == |caches| || caches[n] != null {
        k := n;
      } else {
        k := NextGlu(n + 1);
      }
    }

    /** A decode step by speculate and verify: one attempt per layer with experts and
        one more always suffice, however many dense layers lie between them, and
        what it yields is the fully resident model's step. */
    method SpeculativeStep(h: Hid) returns (r: Option<Hid>)
      requires Valid()
      modifies entries, caches
      ensures Valid() && r.Some? && (entries[..], r.value) == StepNet(Plain(), old(entries[..]), h)
    {
      hide StepNet, TrueRoute, Plain, AllFit, CachesReady;
      var attempt := 0;
      ghost var n: nat := 0;
      while attempt < Glus(|caches|) + 1
        invariant attempt <= Glus(|caches|) && Valid() && entries[..] == old(entries[..])
        invariant n <= |layers| && Glus(n) >= attempt
        invariant forall i :: 0 <= i < n ==> AllResident(i, TrueRoute(entries[..], h, i))
      {
        ghost var k := NextGlu(n);
        var done, out := TryToken(h, k);
        if done { return Some(out); }
        GlusGrow(k + 1, |caches|);
        attempt, n := attempt + 1, k + 1;
      }
      return None;
    }

    /** One layer served synchronously: misses admitted or served inline first. */
    method SyncExperts(i: nat, a: Hid, inline: set<nat>) returns (x: Hid)
      requires Wired() && CachesReady() && i < |layers|
      modifies caches[i]
      ensures CachesReady() && x == FullAt(i)(a)
    {
      if caches[i] == null { return layers[i].ffn.apply(a); }
      var es, c := layers[i].ffn.route(a), caches[i];
      RouteFits(layers[i].ffn, c.experts, c.lru.slots, a);
      var w := c.ServeRouted(es, inline);
      x := layers[i].ffn.mix(a, w);
      assert w == TrueWeights(c.store, es);
    }

    /** The plain step has come as far as layer i. */
    ghost predicate AtLayer(before: seq<Entry>, h: Hid, i: nat, now: seq<Entry>, x: Hid)
      requires Wired() && AllFit(Plain(), before) && i <= |layers| && |now| == |layers|
    {
      now[i..] == before[i..] && (now[..i], x) == StepTo(Plain(), before, h, i)
    }

    method SyncLayer(i: nat, x: Hid, inline: set<nat>, ghost before: seq<Entry>, ghost h: Hid) returns (out: Hid)
      requires Wired() && CachesReady() && AllFit(Plain(), before) && i < |layers|
      requires AtLayer(before, h, i, entries[..], x)
      modifies entries, caches[i]
      ensures CachesReady() && AtLayer(before, h, i + 1, entries[..], out)
    {
      assert |before| == entries.Length;
      hide StepEntry, StepTo, CachesReady, AllFit, Fits, Plain, Then, TrueRoute, FullAt;
      assert entries[..][i..] == entries[i..] && entries[..][..i] == entries[..i];
      assert entries[i] == entries[i..][0] && entries[i + 1..] == before[i + 1..] by {
        assert entries[i + 1..] == entries[i..][1..] && before[i + 1..] == before[i..][1..];
      }
      LayerStep(before, h, i, x);
      var (e, a) := StepEntry(layers[i].attend, entries[i], x);
      out := SyncExperts(i, a, inline);
      Put(i, e);
      assert entries[..][i + 1..] == entries[i + 1..] && entries[..][..i + 1] == entries[..i + 1];
    }

    method SyncLayers(h: Hid, inline: nat -> set<nat>, ghost before: seq<Entry>) returns (out: Hid)
      requires Wired() && CachesReady() && entries[..] == before && AllFit(Plain(), before)
      modifies entries, caches
      ensures CachesReady() && AtLayer(before, h, |layers|, entries[..], out)
    {
      WholeStep(before, h);
      assert before[..0] == [];
      assert AtLayer(before, h, 0, entries[..], h);
      hide AtLayer, CachesReady, AllFit, Plain;
      out := h;
      for i := 0 to |layers|
        invariant CachesReady() && AtLayer(before, h, i, entries[..], out)
      {
        out := SyncLayer(i, out, inline(i), before, h);
      }
    }

    /** A decode step with per-layer synchronization, whatever the admission
        filter decides to serve inline. */
    method SyncStep(h: Hid, inline: nat -> set<nat>) returns (out: Hid)
      requires Valid()
      modifies entries, caches
      ensures Valid() && (entries[..], out) == StepNet(Plain(), old(entries[..]), h)
    {
      hide StepTo, StepNet, CachesReady, AllFit, Plain;
      WholeStep(entries[..], h);
      out := SyncLayers(h, inline, entries[..]);
      assert entries[..][..|layers|] == entries[..];
    }

    /** The decode loop: each token by either way of serving, as the redo rate
        suggests. The stream is the fully resident model's plain greedy decoding. */
    method Generate(prompt: seq<Token>, n: nat, speculate: nat -> bool, inline: nat -> set<nat>) returns (stream: seq<Token>)
      requires Valid() && prompt != []
      requires entries[..] == CacheAfter(ResidentModel(), prompt[..|prompt| - 1])
      modifies entries, caches
      ensures Valid() && stream == PlainDecode(ResidentModel(), prompt, n)
      ensures entries[..] == CacheAfter(ResidentModel(), (prompt + stream)[..|prompt| + n - 1])
    {
      hide StepNet, CacheAfter, HiddenAfter, Plain, AllFit, CachesReady;
      var y := prompt[|prompt| - 1];
      stream := [];
      assert prompt + stream == prompt;
      while |stream| < n
        invariant Valid() && |stream| <= n && stream == PlainDecode(ResidentModel(), prompt, |stream|)
        invariant y == (prompt + stream)[|prompt| + |stream| - 1]
        invariant entries[..] == CacheAfter(ResidentModel(), (prompt + stream)[..|prompt| + |stream| - 1])
      {
        ghost var s := prompt + stream;
        StepContinuesRun(ResidentModel(), s);
        var out;
        if speculate(|stream|) {
          var r := SpeculativeStep(embed(y));
          out := r.value;
        } else {
          out := SyncStep(embed(y), inline);
        }
        y := greedy(out);
        stream := stream + [y];
        assert prompt + stream == s + [y];
        assert (s + [y])[..|s|] == s;
      }
    }
  }

  /** One plain step on the caches of all but the last token of a run. */
  lemma StepContinuesRun(m: Model, s: seq<Token>)
    requires s != []
    ensures StepNet(m.layers, CacheAfter(m, s[..|s| - 1]), m.embed(s[|s| - 1])) == (CacheAfter(m, s), HiddenAfter(m, s))
  {
    var p, y := s[..|s| - 1], s[|s| - 1];
    assert p + [y] == s;
    assert Embed(m, [y]) == [m.embed(y)];
    ForwardContinuesRun(m, p, [y]);
    WindowForwardIsDecode(m.layers, CacheAfter(m, p), Embed(m, [y]));
    hide StepNet, HiddenAfter, CacheAfter, WindowNet;
    var (c, o) := StepNet(m.layers, CacheAfter(m, p), m.embed(y));
    assert RunNet(m.layers, c, [m.embed(y)][1..]) == (c, []);
    assert RunNet(m.layers, CacheAfter(m, p), [m.embed(y)]).1[0] == o;
    assert p + [y][..0 + 1] == s;
  }

  /** What the lazy forward leaves for the commit: per layer, the routed experts
      and the owner check's verdict. */
  datatype Trace = Trace(routes: seq<seq<nat>>, oks: seq<bool>)

  ghost predicate Picked(f: Ffn, es: seq<nat>) {
    exists a :: es == Route(f, a)
  }

  predicate AllTrue(oks: seq<bool>, n: nat)
    requires n <= |oks|
  {
    forall j :: 0 <= j < n ==> oks[j]
  }

  lemma AllTrueSnoc(oks: seq<bool>, ok: bool)
    ensures forall k :: 0 <= k <= |oks| ==> AllTrue(oks + [ok], k) == AllTrue(oks, k)
    ensures AllTrue(oks + [ok], |oks| + 1) <==> AllTrue(oks, |oks|) && ok
  {
    forall k | 0 <= k <= |oks| ensures AllTrue(oks + [ok], k) == AllTrue(oks, k) {
      assert forall j :: 0 <= j < k ==> (oks + [ok])[j] == oks[j];
    }
    assert (oks + [ok])[|oks|] == ok;
  }

  lemma StepUndone(l: Layer, e: Entry, h: Hid)
    requires Fits(l, e)
    ensures var e' := StepEntry(l, e, h).0;
      (Snapshot(e).None? ==> e'.Kv?) && Rollback(e', Snapshot(e), 1) == e
  {
    RollbackUndoesWindow(l, e, [h]);
    WindowIsRun(l, e, [h]);
    hide StepEntry, WindowEntry;
    assert RunEntry(l, StepEntry(l, e, h).0, [h][1..]).0 == StepEntry(l, e, h).0;
  }

  lemma FitsThen(l: Layer, f: Hid -> Hid, e: Entry)
    ensures Fits(l, e) <==> Fits(Then(l, f), e)
  {
  }
}
