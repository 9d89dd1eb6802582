/** The in-memory prefix store: cache snapshots matched by longest shared prefix,
    evicted least recently used first, and the donation of a finished request's
    cache. */
module PrefixRam {
  import opened Collections
  import opened Network
  import opened Target
  import opened GdnCapture
  import opened SpecWindow
  import PrefixBlocks

  /** A hit below this many tokens is not worth the restore. */
  const MIN_MATCH_TOKENS: nat := 32

  /** One snapshot: the tokens it covers and the states behind them. */
  datatype Stored = Stored(tokens: seq<Token>, cache: seq<Entry>, trimmable: bool, nbytes: nat, lastUsed: nat)

  /** The entry's own `is_trimmable`: a sliding window is only before it wraps. */
  predicate IsTrimmable(l: Layer, e: Entry) {
    e.Kv? || (e.Window? && l.Sliding? && e.offset < l.size)
  }

  predicate AllTrimmable(ls: seq<Layer>, cache: seq<Entry>) {
    |ls| == |cache| && forall l :: 0 <= l < |ls| ==> IsTrimmable(ls[l], cache[l])
  }

  /** A layer can be trimmed behind n tokens. */
  predicate TrimsAt(l: Layer, n: nat) {
    l.Attention? || (l.Sliding? && n < l.size)
  }

  predicate Trimmable(m: Model, n: nat) {
    forall l :: 0 <= l < |m.layers| ==> TrimsAt(m.layers[l], n)
  }

  /** The snapshot is the run of its tokens, and trimmable exactly if that is. */
  ghost predicate Faithful(m: Model, e: Stored) {
    e.cache == CacheAfter(m, e.tokens) && (e.trimmable <==> Trimmable(m, |e.tokens|))
  }

  /** Behind a run of tokens, whether an entry can be trimmed depends on their number
      alone. */
  lemma TrimmableBehind(m: Model, run: seq<Token>, l: nat)
    requires l < |m.layers|
    ensures |CacheAfter(m, run)| == |m.layers|
    ensures IsTrimmable(m.layers[l], CacheAfter(m, run)[l]) <==> TrimsAt(m.layers[l], |run|)
    ensures CacheAfter(m, run)[l].Kv? ==> |CacheAfter(m, run)[l].rows| == |run|
    ensures CacheAfter(m, run)[l].Window? ==> CacheAfter(m, run)[l].offset == |run|
  {
    hide CacheAfter;
    OffsetIsLength(m, run);
    var e := CacheAfter(m, run)[l];
    assert Fits(m.layers[l], e);
    if m.layers[l].Attention? { assert e.rows == PrefixBlocks.Rows(m, run, l); }
  }

  /** The snapshot can be restored behind the first n tokens of a prompt, leaving
      one to process: anywhere in a shared prefix if every layer can be trimmed,
      else only at its own end. */
  predicate CanServe(e: Stored, prompt: seq<Token>, n: nat) {
    n < |prompt| && n <= |e.tokens| && e.tokens[..n] == prompt[..n] && (e.trimmable || n == |e.tokens|)
  }

  method CommonPrefixLen(a: seq<Token>, b: seq<Token>) returns (n: nat)
    ensures n <= |a| && n <= |b| && a[..n] == b[..n]
    ensures n < |a| && n < |b| ==> a[n] != b[n]
  {
    n := 0;
    while n < |a| && n < |b| && a[n] == b[n]
      invariant n <= |a| && n <= |b| && a[..n] == b[..n]
    {
      n := n + 1;
    }
  }

  /** The longest prefix one snapshot can serve; zero if none. */
  method Usable(e: Stored, prompt: seq<Token>) returns (n: nat)
    ensures n > 0 ==> CanServe(e, prompt, n)
    ensures forall k: nat :: CanServe(e, prompt, k) ==> k <= n
  {
    var common := CommonPrefixLen(e.tokens, prompt);
    forall k: nat | CanServe(e, prompt, k) ensures k <= common { SharedIsCommon(e.tokens, prompt, common, k); }
    if common == |e.tokens| {
      n := if e.trimmable then (if common < |prompt| then common else if |prompt| == 0 then 0 else |prompt| - 1)
           else if common < |prompt| then common else 0;
    } else {
      n := if !e.trimmable then 0 else if common < |prompt| then common else if |prompt| == 0 then 0 else |prompt| - 1;
    }
    if n > 0 { PrefixDown(e.tokens, prompt, common, n); }
  }

  lemma SharedIsCommon(a: seq<Token>, b: seq<Token>, n: nat, k: nat)
    requires n <= |a| && n <= |b| && (n < |a| && n < |b| ==> a[n] != b[n])
    requires k <= |a| && k <= |b| && a[..k] == b[..k]
    ensures k <= n
  {
    forall j | 0 <= j < k ensures a[j] == b[j] { assert a[..k][j] == b[..k][j]; }
  }

  lemma PrefixDown(a: seq<Token>, b: seq<Token>, n: nat, k: nat)
    requires k <= n <= |a| && n <= |b| && a[..n] == b[..n]
    ensures a[..k] == b[..k]
  {
    assert a[..k] == a[..n][..k] && b[..k] == b[..n][..k];
  }

  function Bytes(es: seq<Stored>): nat {
    if es == [] then 0 else es[0].nbytes + Bytes(es[1..])
  }

  lemma {:induction false} BytesWithout(es: seq<Stored>, i: nat)
    requires i < |es|
    ensures Bytes(es) == es[i].nbytes + Bytes(es[..i] + es[i + 1..])
  {
    if i == 0 {
      assert es[..0] + es[1..] == es[1..];
    } else {
      BytesWithout(es[1..], i - 1);
      assert (es[..i] + es[i + 1..])[1..] == es[1..][..i - 1] + es[1..][i..];
    }
  }

  /** Evicted least recently used first, the newest spared. */
  ghost predicate LruEvicted(before: seq<Stored>, now: seq<Stored>) {
    && before != [] && now != [] && now[|now| - 1] == before[|before| - 1]
    && (forall e :: e in now ==> e in before)
    && (forall d, k :: d in before && d !in now && 0 <= k < |now| - 1 ==> d.lastUsed <= now[k].lastUsed)
  }

  /** Without the last of those that went there would still be too many bytes. */
  ghost predicate LastNeeded(before: seq<Stored>, now: seq<Stored>, maxBytes: nat) {
    exists d :: d in before && Bytes(now) + d.nbytes > maxBytes
  }

  lemma Unevicted(es: seq<Stored>)
    requires es != []
    ensures LruEvicted(es, es)
  {
  }

  lemma EvictedOne(before: seq<Stored>, now: seq<Stored>, v: nat)
    requires LruEvicted(before, now) && v < |now| - 1
    requires forall k :: 0 <= k < |now| - 1 ==> now[v].lastUsed <= now[k].lastUsed
    ensures LruEvicted(before, now[..v] + now[v + 1..])
  {
    var left := now[..v] + now[v + 1..];
    assert forall k :: 0 <= k < |left| ==> left[k] == now[if k < v then k else k + 1];
    forall e | e in now ensures e in left || e == now[v] {
      var k :| 0 <= k < |now| && now[k] == e;
      if k < v { assert left[k] == e; } else if k > v { assert left[k - 1] == e; }
    }
  }

  ghost predicate AllFaithful(m: Model, es: seq<Stored>) {
    forall k :: 0 <= k < |es| ==> Faithful(m, es[k])
  }

  lemma FaithfulWithout(m: Model, es: seq<Stored>, v: nat)
    requires AllFaithful(m, es) && v < |es|
    ensures AllFaithful(m, es[..v] + es[v + 1..])
  {
    hide Faithful;
    var left := es[..v] + es[v + 1..];
    forall k | 0 <= k < |left| ensures Faithful(m, left[k]) {
      assert left[k] == es[if k < v then k else k + 1];
    }
  }

  lemma NeededOne(before: seq<Stored>, now: seq<Stored>, v: nat, maxBytes: nat)
    requires LruEvicted(before, now) && v < |now| && Bytes(now) > maxBytes
    ensures LastNeeded(before, now[..v] + now[v + 1..], maxBytes)
  {
    BytesWithout(now, v);
    assert now[v] in now;
  }

  class PrefixStore {
    const m: Model
    const maxBytes: nat
    var entries: seq<Stored>
    var hits: nat
    var misses: nat

    constructor (m: Model, maxBytes: nat)
      ensures Valid() && entries == [] && this.m == m && this.maxBytes == maxBytes && hits == 0 && misses == 0
    {
      this.m, this.maxBytes := m, maxBytes;
      entries, hits, misses := [], 0, 0;
    }

    ghost predicate Valid()
      reads this
    {
      AllFaithful(m, entries)
    }

    // ---- insert ---------------------------------------------------------------------

    /** The least recently used but the newest. */
    method Victim() returns (v: nat)
      requires |entries| > 1
      ensures v < |entries| - 1
      ensures forall k :: 0 <= k < |entries| - 1 ==> entries[v].lastUsed <= entries[k].lastUsed
    {
      v := 0;
      for k := 1 to |entries| - 1
        invariant v < |entries| - 1
        invariant forall j :: 0 <= j < k ==> entries[v].lastUsed <= entries[j].lastUsed
      {
        if entries[k].lastUsed < entries[v].lastUsed { v := k; }
      }
    }

    /** Evict until the budget is met or only the newest is left. */
    method Evict()
      requires entries != []
      modifies this`entries
      ensures (old(Valid()) ==> Valid()) && LruEvicted(old(entries), entries)
      ensures Bytes(entries) <= maxBytes || |entries| == 1
      ensures Bytes(old(entries)) <= maxBytes ==> entries == old(entries)
      ensures entries != old(entries) ==> LastNeeded(old(entries), entries, maxBytes)
    {
      hide AllFaithful, LruEvicted, LastNeeded;
      Unevicted(entries);
      var total := Total();
      while total > maxBytes && |entries| > 1
        invariant (old(Valid()) ==> Valid()) && entries != [] && total == Bytes(entries) && LruEvicted(old(entries), entries)
        invariant Bytes(old(entries)) <= maxBytes ==> entries == old(entries)
        invariant entries != old(entries) ==> LastNeeded(old(entries), entries, maxBytes)
        decreases |entries|
      {
        var v := Victim();
        BytesWithout(entries, v);
        EvictedOne(old(entries), entries, v);
        NeededOne(old(entries), entries, v, maxBytes);
        if AllFaithful(m, entries) { FaithfulWithout(m, entries, v); }
        total := total - entries[v].nbytes;
        entries := entries[..v] + entries[v + 1..];
      }
    }

    method Total() returns (n: nat)
      ensures n == Bytes(entries)
    {
      n := 0;
      for k := 0 to |entries|
        invariant n + Bytes(entries[k..]) == Bytes(entries)
      {
        assert entries[k..][1..] == entries[k + 1..];
        n := n + entries[k].nbytes;
      }
    }

    /** Take a snapshot of a cache under these tokens; it supersedes one of the same
        tokens. Too short a prompt is not worth keeping. The store is as faithful as
        what it is given. */
    method Insert(tokens: seq<Token>, cache: seq<Entry>, nbytes: nat, now: nat)
      modifies this`entries
      ensures old(Valid()) && cache == CacheAfter(m, tokens) ==> Valid()
      ensures |tokens| < MIN_MATCH_TOKENS ==> entries == old(entries)
      ensures |tokens| >= MIN_MATCH_TOKENS ==>
        LruEvicted(Superseded(old(entries), tokens) + [Stored(tokens, cache, AllTrimmable(m.layers, cache), nbytes, now)], entries)
        && (Bytes(entries) <= maxBytes || |entries| == 1)
      ensures |tokens| >= MIN_MATCH_TOKENS ==>
        var grown := Superseded(old(entries), tokens) + [Stored(tokens, cache, AllTrimmable(m.layers, cache), nbytes, now)];
        entries == grown || LastNeeded(grown, entries, maxBytes)
    {
      if |tokens| < MIN_MATCH_TOKENS { return; }
      SupersededFacts(entries, tokens);
      SnapshotFaithful(m, tokens, cache, nbytes, now);
      hide CacheAfter, Bytes, LruEvicted, LastNeeded, AllTrimmable, Trimmable;
      entries := Superseded(entries, tokens) + [Stored(tokens, cache, AllTrimmable(m.layers, cache), nbytes, now)];
      Evict();
    }

    // ---- lookup and restore -----------------------------------------------------------

    /** The longest prefix any snapshot serves, and which one does. */
    method Best(prompt: seq<Token>) returns (at: nat, best: nat)
      ensures best > 0 ==> at < |entries| && CanServe(entries[at], prompt, best)
      ensures forall k, n: nat :: 0 <= k < |entries| && CanServe(entries[k], prompt, n) ==> n <= best
    {
      hide CanServe;
      best, at := 0, 0;
      for k := 0 to |entries|
        invariant best > 0 ==> at < |entries| && CanServe(entries[at], prompt, best)
        invariant forall j, n: nat :: 0 <= j < k && CanServe(entries[j], prompt, n) ==> n <= best
      {
        var n := Usable(entries[k], prompt);
        if n > best { best, at := n, k; }
      }
    }

    /** The snapshot that serves the longest prefix of the prompt, if any serves a
        worthwhile one. */
    method Lookup(prompt: seq<Token>, now: nat) returns (r: Option<(nat, nat)>)
      requires Valid()
      modifies this`entries, this`hits, this`misses
      ensures Valid() && |entries| == |old(entries)|
      ensures forall k :: 0 <= k < |entries| ==>
        entries[k] == if r.Some? && k == r.value.0 then old(entries)[k].(lastUsed := now) else old(entries)[k]
      ensures r.Some? ==> r.value.0 < |entries| && r.value.1 >= MIN_MATCH_TOKENS
      ensures r.Some? ==> CanServe(old(entries)[r.value.0], prompt, r.value.1)
      ensures forall k, n: nat :: 0 <= k < |old(entries)| && CanServe(old(entries)[k], prompt, n) ==>
        n <= (if r.Some? then r.value.1 else MIN_MATCH_TOKENS - 1)
      ensures hits == old(hits) + (if r.Some? then 1 else 0) && misses == old(misses) + if r.Some? then 0 else 1
    {
      hide CanServe;
      var at, best := Best(prompt);
      if best < MIN_MATCH_TOKENS {
        misses := misses + 1;
        return None;
      }
      entries := entries[at := entries[at].(lastUsed := now)];
      hits := hits + 1;
      r := Some((at, best));
    }

    /** A fresh cache positioned behind the first n tokens of the snapshot. */
    method Restore(e: Stored, n: nat) returns (cache: seq<Entry>)
      requires Faithful(m, e) && n <= |e.tokens| && (e.trimmable || n == |e.tokens|)
      ensures cache == CacheAfter(m, e.tokens[..n])
    {
      if n == |e.tokens| {
        assert e.tokens[..n] == e.tokens;
        return e.cache;
      }
      TrimmedIsRun(m, e.tokens, n);
      cache := TrimAll(e.cache, |e.tokens| - n);
    }
  }

  /** The snapshots of other token runs. */
  function Superseded(es: seq<Stored>, tokens: seq<Token>): seq<Stored> {
    if es == [] then []
    else (if es[0].tokens == tokens then [] else [es[0]]) + Superseded(es[1..], tokens)
  }

  lemma {:induction false} SupersededFacts(es: seq<Stored>, tokens: seq<Token>)
    ensures forall e :: e in Superseded(es, tokens) <==> e in es && e.tokens != tokens
  {
    if es != [] {
      SupersededFacts(es[1..], tokens);
      assert es == [es[0]] + es[1..];
    }
  }

  lemma SnapshotFaithful(m: Model, tokens: seq<Token>, cache: seq<Entry>, nbytes: nat, now: nat)
    ensures cache == CacheAfter(m, tokens) ==> Faithful(m, Stored(tokens, cache, AllTrimmable(m.layers, cache), nbytes, now))
  {
    if cache == CacheAfter(m, tokens) {
      hide CacheAfter;
      OffsetIsLength(m, tokens);
      forall l | 0 <= l < |m.layers| ensures IsTrimmable(m.layers[l], cache[l]) <==> TrimsAt(m.layers[l], |tokens|) {
        TrimmableBehind(m, tokens, l);
      }
    }
  }

  function TrimAll(cache: seq<Entry>, n: nat): (r: seq<Entry>)
    ensures |r| == |cache|
  {
    seq(|cache|, l requires 0 <= l < |cache| => CutEntry(cache[l], n))
  }

  /** A layer that can still be trimmed gives a whole window back. */
  lemma TrimUndoesWindow(l: Layer, e: Entry, x: seq<Hid>)
    requires Fits(l, e) && (l.Attention? || (l.Sliding? && e.offset + |x| <= l.size))
    ensures CutEntry(WindowEntry(l, e, x).0, |x|) == e
  {
    if l.Attention? {
      assert (e.rows + Rows(l.row, x))[..|e.rows|] == e.rows;
    } else {
      assert (e.held + Rows(l.slideRow, x))[..|e.held|] == e.held;
    }
  }

  /** Trimming every layer takes the run back. */
  lemma TrimmedIsRun(m: Model, tokens: seq<Token>, n: nat)
    requires Trimmable(m, |tokens|) && n <= |tokens|
    ensures TrimAll(CacheAfter(m, tokens), |tokens| - n) == CacheAfter(m, tokens[..n])
  {
    var c, d, x := CacheAfter(m, tokens), CacheAfter(m, tokens[..n]), Embed(m, tokens[n..]);
    assert tokens[..n] + tokens[n..] == tokens;
    hide CacheAfter, Embed, WindowNet, WindowEntry, Inputs, CutEntry, Fits;
    ForwardContinuesRun(m, tokens[..n], tokens[n..]);
    WindowNetAt(m.layers, d, x);
    forall l | 0 <= l < |m.layers| ensures TrimAll(c, |tokens| - n)[l] == d[l] {
      TrimmableBehind(m, tokens[..n], l);
      TrimUndoes(m, tokens[..n], l, Inputs(m.layers, d, x, l));
    }
  }

  lemma TrimUndoes(m: Model, run: seq<Token>, l: nat, x: seq<Hid>)
    requires l < |m.layers| && TrimsAt(m.layers[l], |run| + |x|)
    ensures CutEntry(WindowEntry(m.layers[l], CacheAfter(m, run)[l], x).0, |x|) == CacheAfter(m, run)[l]
  {
    hide CacheAfter, WindowEntry, CutEntry;
    TrimmableBehind(m, run, l);
    var e := CacheAfter(m, run)[l];
    assert Fits(m.layers[l], e);
    TrimUndoesWindow(m.layers[l], e, x);
  }

  // ---- donating a finished request's cache --------------------------------------------

  /** Some layer can be trimmed behind n tokens, and so tells its offset. */
  predicate HasTrimmable(m: Model, n: nat) {
    exists l :: 0 <= l < |m.layers| && TrimsAt(m.layers[l], n)
  }

  /** Offset of the first trimmable layer, if there is one. */
  method Offset(m: Model, cache: array<Entry>, ghost run: seq<Token>) returns (off: Option<nat>)
    requires cache[..] == CacheAfter(m, run)
    ensures off.Some? <==> HasTrimmable(m, |run|)
    ensures off.Some? ==> off.value == |run|
  {
    hide CacheAfter;
    for l := 0 to cache.Length
      invariant forall k :: 0 <= k < l ==> !TrimsAt(m.layers[k], |run|)
    {
      TrimmableBehind(m, run, l);
      if IsTrimmable(m.layers[l], cache[l]) {
        return Some(if cache[l].Kv? then |cache[l].rows| else cache[l].offset);
      }
    }
    return None;
  }

  /** Ready a finished request's cache for donation under its tokens: a speculative
      round may have left it ahead of what was emitted. Trims the overshoot in
      place where every layer can, declines where it cannot, and takes the cache
      as it is where no layer tells its offset. */
  method Remember(m: Model, tokens: seq<Token>, cache: array<Entry>, ghost run: seq<Token>) returns (donate: bool)
    requires cache[..] == CacheAfter(m, run) && (run <= tokens || tokens <= run)
    modifies cache
    ensures HasTrimmable(m, |run|) ==> (donate <==> |run| == |tokens| || (|run| > |tokens| && Trimmable(m, |run|)))
    ensures HasTrimmable(m, |run|) && donate ==> cache[..] == CacheAfter(m, tokens)
    ensures !HasTrimmable(m, |run|) ==> donate && cache[..] == CacheAfter(m, run)
    ensures !donate ==> cache[..] == old(cache[..])
  {
    hide CacheAfter, HasTrimmable, Trimmable;
    var off := Offset(m, cache, run);
    if off == None || off.value == |tokens| {
      assert off.Some? ==> run == tokens;
      return true;
    }
    var all := EveryTrimmable(m, cache, run);
    if off.value < |tokens| || !all { return false; }
    assert run[..|tokens|] == tokens;
    TrimmedIsRun(m, run, |tokens|);
    TrimInPlace(cache, off.value - |tokens|);
    donate := true;
  }

  /** Prefixes of one stream are comparable. */
  lemma Comparable(a: seq<Token>, b: seq<Token>, s: seq<Token>)
    requires a <= s && b <= s
    ensures a <= b || b <= a
  {
    if |a| <= |b| {
      assert a == s[..|b|][..|a|];
    } else {
      assert b == s[..|a|][..|b|];
    }
  }

  predicate HasSliding(m: Model) {
    exists l :: 0 <= l < |m.layers| && m.layers[l].Sliding?
  }

  /** A cache that holds a sliding window tells how many tokens it is behind. */
  lemma WindowTells(m: Model, a: seq<Token>, b: seq<Token>)
    requires HasSliding(m)
    ensures CacheAfter(m, a) == CacheAfter(m, b) ==> |a| == |b|
  {
    hide CacheAfter;
    OffsetIsLength(m, a);
    OffsetIsLength(m, b);
  }

  /** A speculatively decoded request that ends anywhere in a round hands its cache
      over exactly if the caches stand right behind its tokens, or past them and
      every layer can be taken back, or no layer tells. In the first two cases the
      store then holds the tokens' own run; in the last one it does exactly if the
      unchecked cache happens to be that run, which with a sliding window means it
      stands right behind the tokens. */
  method FinishRequest(d: SpecDecoder, store: PrefixStore, prompt: seq<Token>, out: seq<Token>, nbytes: nat, now: nat)
    returns (donate: bool)
    requires d.Valid() && store.Valid() && store.m == d.m
    requires out != [] && prompt + out <= d.stream
    modifies d.cache, store`entries
    ensures var behind := |d.stream| - |d.pending|; var mark := |prompt| + |out| - 1;
      && (donate <==> !HasTrimmable(d.m, behind) || behind == mark || (behind > mark && Trimmable(d.m, behind)))
      && (HasTrimmable(d.m, behind) || behind == mark ==> store.Valid())
      && (!HasTrimmable(d.m, behind) && mark >= MIN_MATCH_TOKENS ==>
           && (store.Valid() <==> CacheAfter(d.m, d.stream[..behind]) == CacheAfter(d.m, d.stream[..mark]))
           && (HasSliding(d.m) ==> (store.Valid() <==> behind == mark)))
    ensures !donate ==> store.entries == old(store.entries) && d.cache[..] == old(d.cache[..])
    ensures donate && |prompt| + |out| - 1 >= MIN_MATCH_TOKENS ==>
      exists e :: e in store.entries && e.tokens == (prompt + out)[..|prompt + out| - 1] && e.cache == d.cache[..]
  {
    hide CacheAfter, HasTrimmable, HasSliding, Trimmable, AllTrimmable, PrefixStore.Valid;
    var tokens := prompt + out[..|out| - 1];
    ghost var run := Before(d.stream, d.pending);
    assert tokens == d.stream[..|tokens|] && tokens == (prompt + out)[..|prompt + out| - 1];
    Comparable(tokens, run, d.stream);
    donate := HandOver(store, tokens, d.cache, run, nbytes, now);
  }

  /** Ready a cache for its tokens and, unless that is declined, insert it. */
  method HandOver(store: PrefixStore, tokens: seq<Token>, cache: array<Entry>, ghost run: seq<Token>, nbytes: nat, now: nat)
    returns (donate: bool)
    requires store.Valid() && cache[..] == CacheAfter(store.m, run) && (run <= tokens || tokens <= run)
    modifies cache, store`entries
    ensures donate <==> !HasTrimmable(store.m, |run|) || |run| == |tokens| || (|run| > |tokens| && Trimmable(store.m, |run|))
    ensures HasTrimmable(store.m, |run|) || |run| == |tokens| ==> store.Valid()
    ensures !HasTrimmable(store.m, |run|) && |tokens| >= MIN_MATCH_TOKENS ==>
      && (store.Valid() <==> CacheAfter(store.m, run) == CacheAfter(store.m, tokens))
      && (HasSliding(store.m) ==> (store.Valid() <==> |run| == |tokens|))
    ensures !donate ==> store.entries == old(store.entries) && cache[..] == old(cache[..])
    ensures donate && |tokens| >= MIN_MATCH_TOKENS ==> exists e :: e in store.entries && e.tokens == tokens && e.cache == cache[..]
  {
    hide CacheAfter, HasTrimmable, HasSliding, Trimmable, AllTrimmable;
    donate := Remember(store.m, tokens, cache, run);
    if donate {
      assert |run| == |tokens| ==> run == tokens;
      store.Insert(tokens, cache[..], nbytes, now);
      if |tokens| >= MIN_MATCH_TOKENS { NewestKept(store, tokens, cache[..]); }
      if HasSliding(store.m) { WindowTells(store.m, run, tokens); }
    }
  }

  /** What was just inserted is the newest entry. */
  lemma NewestKept(store: PrefixStore, tokens: seq<Token>, cache: seq<Entry>)
    requires store.entries != [] && store.entries[|store.entries| - 1].tokens == tokens
    requires store.entries[|store.entries| - 1].cache == cache
    ensures exists e :: e in store.entries && e.tokens == tokens && e.cache == cache
    ensures store.Valid() ==> cache == CacheAfter(store.m, tokens)
  {
    assert store.entries[|store.entries| - 1] in store.entries;
  }

  method EveryTrimmable(m: Model, cache: array<Entry>, ghost run: seq<Token>) returns (all: bool)
    requires cache[..] == CacheAfter(m, run)
    ensures all <==> Trimmable(m, |run|)
  {
    hide CacheAfter;
    for l := 0 to cache.Length
      invariant forall k :: 0 <= k < l ==> TrimsAt(m.layers[k], |run|)
    {
      TrimmableBehind(m, run, l);
      if !IsTrimmable(m.layers[l], cache[l]) { return false; }
    }
    all := true;
  }

  method TrimInPlace(cache: array<Entry>, n: nat)
    modifies cache
    ensures cache[..] == TrimAll(old(cache[..]), n)
  {
    for l := 0 to cache.Length
      invariant forall k :: 0 <= k < l ==> cache[k] == TrimAll(old(cache[..]), n)[k]
      invariant forall k :: l <= k < cache.Length ==> cache[k] == old(cache[k])
    {
      cache[l] := CutEntry(cache[l], n);
    }
  }

  /** A purely recurrent model whose state flips with every token. */
  function Flip(h: Hid, row: Row, gate: Gate, r1: Rec, r2: Rec, greedy: Hid -> Token): Model {
    Model([Recurrent(0, row, x => row, (taps, x) => gate, r1, (s, g) => if s == r1 then r2 else r1, (s, g, x) => h)], t => h, greedy)
  }

  lemma FlipTells(h: Hid, row: Row, gate: Gate, r1: Rec, r2: Rec, greedy: Hid -> Token, tokens: seq<Token>, last: Token)
    requires r1 != r2
    ensures var m := Flip(h, row, gate, r1, r2, greedy);
      CacheAfter(m, tokens + [last]) != CacheAfter(m, tokens) && forall n :: !HasTrimmable(m, n)
  {
    var m := Flip(h, row, gate, r1, r2, greedy);
    Alternates(m, r1, r2, FreshCache(m), Embed(m, tokens));
    Alternates(m, r1, r2, FreshCache(m), Embed(m, tokens + [last]));
  }

  /** Without a layer that tells its offset nothing is checked: here the cache is one
      token ahead of what was emitted, is donated, and the store then serves it as
      the run it is not. */
  method UncheckedDonation(h: Hid, row: Row, gate: Gate, r1: Rec, r2: Rec, greedy: Hid -> Token, tokens: seq<Token>, last: Token)
    returns (store: PrefixStore)
    requires r1 != r2 && |tokens| >= MIN_MATCH_TOKENS
    ensures fresh(store) && !store.Valid()
    ensures exists e :: e in store.entries && e.tokens == tokens && e.cache != CacheAfter(store.m, tokens)
  {
    var m, run := Flip(h, row, gate, r1, r2, greedy), tokens + [last];
    FlipTells(h, row, gate, r1, r2, greedy, tokens, last);
    hide CacheAfter, HasTrimmable, Trimmable, AllTrimmable, Flip;
    var c := CacheAfter(m, run);
    var cache := new Entry[|c|](i requires 0 <= i < |c| => c[i]);
    assert cache[..] == c;
    store := new PrefixStore(m, 0);
    var donate := Remember(m, tokens, cache, run);
    store.Insert(tokens, cache[..], 1, 0);
    NewestKept(store, tokens, c);
  }

  lemma {:induction false} Alternates(m: Model, r1: Rec, r2: Rec, cache: seq<Entry>, hs: seq<Hid>)
    requires |m.layers| == 1 && m.layers[0].Recurrent? && AllFit(m.layers, cache) && r1 != r2
    requires forall s, g :: m.layers[0].update(s, g) == if s == r1 then r2 else r1
    requires RecState(m.layers[0], cache[0]) == r1 || RecState(m.layers[0], cache[0]) == r2
    ensures AllFit(m.layers, RunNet(m.layers, cache, hs).0)
    ensures RecState(m.layers[0], RunNet(m.layers, cache, hs).0[0]) ==
      if |hs| % 2 == 0 then RecState(m.layers[0], cache[0])
      else if RecState(m.layers[0], cache[0]) == r1 then r2 else r1
    decreases |hs|
  {
    if hs != [] {
      Alternates(m, r1, r2, StepNet(m.layers, cache, hs[0]).0, hs[1..]);
    }
  }
}
