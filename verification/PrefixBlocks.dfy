/** What the disk tier stores: prompts cut into blocks addressed by chained hashes,
    each block's attention rows, and the recurrent states at block ends. */
module PrefixBlocks {
  import opened Collections
  import opened Network
  import opened Target

  type Hash(==, !new)

  /** The digest of the predecessor's digest, if any, and a block's tokens. */
  type Mix = (Option<Hash>, seq<Token>) -> Hash

  /** No two different inputs digest alike. */
  ghost predicate CollisionFree(mix: Mix) {
    forall a, b, s, t :: mix(a, s) == mix(b, t) ==> a == b && s == t
  }

  /** Where block i ends. */
  function At(block: nat, i: nat): (n: nat)
    ensures i == 0 ==> n == 0
    ensures i == 1 ==> n == block
  {
    if i == 0 then 0 else At(block, i - 1) + block
  }

  lemma {:induction false} AtMonotone(block: nat, i: nat, j: nat)
    requires i <= j
    ensures At(block, i) <= At(block, j) && (i < j ==> At(block, i) + block <= At(block, j))
    decreases j
  {
    if i < j { AtMonotone(block, i, j - 1); }
  }

  /** The hash that names the first i blocks of a prompt. */
  function ChainHash(mix: Mix, block: nat, tokens: seq<Token>, i: nat): Hash
    requires i > 0 && At(block, i) <= |tokens|
  {
    mix(if i == 1 then None else Some(ChainHash(mix, block, tokens, i - 1)), tokens[At(block, i - 1)..At(block, i)])
  }

  /** A hash names its whole prefix: equal hashes mean equal depth and tokens. */
  lemma {:induction false} HashNamesPrefix(mix: Mix, block: nat, p: seq<Token>, i: nat, q: seq<Token>, j: nat)
    requires CollisionFree(mix) && i > 0 && j > 0 && At(block, i) <= |p| && At(block, j) <= |q|
    ensures ChainHash(mix, block, p, i) == ChainHash(mix, block, q, j) <==> i == j && p[..At(block, i)] == q[..At(block, j)]
    decreases i
  {
    AtMonotone(block, i - 1, i);
    AtMonotone(block, j - 1, j);
    assert At(block, 0) == 0;
    hide At;
    if i == j {
      PrefixInSteps(p, q, At(block, i - 1), At(block, i));
    }
    if i > 1 && j > 1 {
      HashNamesPrefix(mix, block, p, i - 1, q, j - 1);
    }
  }

  lemma PrefixInSteps(p: seq<Token>, q: seq<Token>, n: nat, k: nat)
    requires n <= k <= |p| && k <= |q|
    ensures p[..k] == q[..k] <==> p[..n] == q[..n] && p[n..k] == q[n..k]
  {
    assert p[..k] == p[..n] + p[n..k] && q[..k] == q[..n] + q[n..k];
    assert p[..n] == p[..k][..n] && q[..n] == q[..k][..n];
    assert p[n..k] == p[..k][n..] && q[n..k] == q[..k][n..];
  }

  /** The hashes of a prompt's first blocks, in order. */
  ghost predicate IsChain(mix: Mix, block: nat, tokens: seq<Token>, out: seq<Hash>) {
    forall i :: 0 < i <= |out| ==> At(block, i) <= |tokens| && out[i - 1] == ChainHash(mix, block, tokens, i)
  }

  /** The digest that comes after a chain. */
  function NextHash(mix: Mix, block: nat, tokens: seq<Token>, out: seq<Hash>): Hash
    requires At(block, |out| + 1) <= |tokens|
  {
    mix(if out == [] then None else Some(out[|out| - 1]), tokens[At(block, |out|)..At(block, |out| + 1)])
  }

  lemma NextContinues(mix: Mix, block: nat, tokens: seq<Token>, out: seq<Hash>)
    requires At(block, |out| + 1) <= |tokens| && At(block, |out|) <= |tokens|
    requires out != [] ==> out[|out| - 1] == ChainHash(mix, block, tokens, |out|)
    ensures NextHash(mix, block, tokens, out) == ChainHash(mix, block, tokens, |out| + 1)
  {
  }

  lemma ChainExtends(mix: Mix, block: nat, tokens: seq<Token>, out: seq<Hash>)
    requires IsChain(mix, block, tokens, out) && At(block, |out| + 1) <= |tokens|
    ensures IsChain(mix, block, tokens, out + [NextHash(mix, block, tokens, out)])
  {
    hide ChainHash, At, NextHash;
    var n := |out|;
    AtMonotone(block, n, n + 1);
    NextContinues(mix, block, tokens, out);
    var h := NextHash(mix, block, tokens, out);
    forall i | 0 < i <= n + 1 ensures At(block, i) <= |tokens| && (out + [h])[i - 1] == ChainHash(mix, block, tokens, i) {
      if i <= n { assert out[i - 1] == ChainHash(mix, block, tokens, i); }
    }
  }

  /** The chain of a prompt's first n blocks. */
  method ChainHashes(mix: Mix, block: nat, tokens: seq<Token>, n: nat) returns (out: seq<Hash>)
    requires At(block, n) <= |tokens|
    ensures |out| == n && IsChain(mix, block, tokens, out)
  {
    out := [];
    for i := 0 to n
      invariant |out| == i && IsChain(mix, block, tokens, out)
    {
      AtMonotone(block, i + 1, n);
      ChainExtends(mix, block, tokens, out);
      out := out + [NextHash(mix, block, tokens, out)];
    }
  }

  // ---- what a block holds ----------------------------------------------------------

  /** Layers whose state the tier can store. */
  predicate Storable(m: Model) {
    forall l :: 0 <= l < |m.layers| ==> !m.layers[l].Sliding?
  }

  lemma {:induction false} StepRows(ls: seq<Layer>, cache: seq<Entry>, h: Hid, l: nat)
    requires AllFit(ls, cache) && l < |ls| && ls[l].Attention?
    ensures var e := StepNet(ls, cache, h).0[l]; e.Kv? && |e.rows| == |cache[l].rows| + 1 && e.rows[..|cache[l].rows|] == cache[l].rows
  {
    if l > 0 {
      StepRows(ls[1..], cache[1..], StepEntry(ls[0], cache[0], h).1, l - 1);
    }
  }

  lemma {:induction false} RunRows(ls: seq<Layer>, cache: seq<Entry>, hs: seq<Hid>, l: nat)
    requires AllFit(ls, cache) && l < |ls| && ls[l].Attention?
    ensures var e := RunNet(ls, cache, hs).0[l];
      e.Kv? && |e.rows| == |cache[l].rows| + |hs| && e.rows[..|cache[l].rows|] == cache[l].rows
    decreases |hs|
  {
    if hs != [] {
      StepRows(ls, cache, hs[0], l);
      var c1 := StepNet(ls, cache, hs[0]).0;
      RunRows(ls, c1, hs[1..], l);
      var rows := RunNet(ls, c1, hs[1..]).0[l].rows;
      assert rows[..|cache[l].rows|] == rows[..|c1[l].rows|][..|cache[l].rows|];
    }
  }

  function Rows(m: Model, toks: seq<Token>, l: nat): (r: seq<Row>)
    requires l < |m.layers| && m.layers[l].Attention?
    ensures |r| == |toks|
  {
    RunRows(m.layers, FreshCache(m), Embed(m, toks), l);
    CacheAfter(m, toks)[l].rows
  }

  /** Attention rows are one per token and never change as the run goes on. */
  lemma RowsGrow(m: Model, toks: seq<Token>, n: nat, l: nat)
    requires l < |m.layers| && m.layers[l].Attention? && n <= |toks|
    ensures Rows(m, toks[..n], l) == Rows(m, toks, l)[..n]
  {
    var a, b := toks[..n], toks[n..];
    assert a + b == toks;
    assert Embed(m, toks) == Embed(m, a) + Embed(m, b);
    RunNetSplit(m.layers, FreshCache(m), Embed(m, a), Embed(m, b));
    RunRows(m.layers, FreshCache(m), Embed(m, a), l);
    RunRows(m.layers, CacheAfter(m, a), Embed(m, b), l);
  }

  /** A block's rows, layer by layer; nothing for the recurrent ones. */
  type KvData = seq<seq<Row>>

  /** The recurrent layers' states; a placeholder for the attention ones. */
  type RecData = seq<Entry>

  /** Block i of the run of its prefix. */
  function KvBlock(m: Model, block: nat, tokens: seq<Token>, i: nat): (d: KvData)
    requires i > 0 && At(block, i) <= |tokens|
    ensures |d| == |m.layers|
  {
    KvSlice(m, CacheAfter(m, tokens[..At(block, i)]), At(block, i - 1), At(block, i))
  }

  /** The rows of positions lo to hi. */
  function KvSlice(m: Model, cache: seq<Entry>, lo: nat, hi: nat): (d: KvData)
    requires AllFit(m.layers, cache)
    ensures |d| == |m.layers|
  {
    seq(|m.layers|, l requires 0 <= l < |m.layers| && AllFit(m.layers, cache) =>
      if m.layers[l].Attention? && lo <= hi <= |cache[l].rows| then cache[l].rows[lo..hi] else [])
  }

  function RecStates(m: Model, cache: seq<Entry>): (d: RecData)
    requires AllFit(m.layers, cache)
    ensures |d| == |m.layers|
  {
    seq(|m.layers|, l requires 0 <= l < |m.layers| && AllFit(m.layers, cache) =>
      if m.layers[l].Recurrent? then cache[l] else Kv([]))
  }

  /** Slicing a longer run's rows gives the block's own. */
  lemma SliceIsBlock(m: Model, block: nat, tokens: seq<Token>, i: nat)
    requires i > 0 && At(block, i) <= |tokens|
    ensures KvSlice(m, CacheAfter(m, tokens), At(block, i - 1), At(block, i)) == KvBlock(m, block, tokens, i)
  {
    var hi := At(block, i);
    hide CacheAfter, AllFit, At;
    forall l | 0 <= l < |m.layers|
      ensures KvSlice(m, CacheAfter(m, tokens), At(block, i - 1), hi)[l] == KvBlock(m, block, tokens, i)[l]
    {
      if m.layers[l].Attention? {
        RowsGrow(m, tokens, hi, l);
        RowsGrow(m, tokens[..hi], hi, l);
      }
    }
  }

  // ---- reading it back ---------------------------------------------------------------

  predicate Layered(files: seq<KvData>, layers: nat) {
    forall j :: 0 <= j < |files| ==> |files[j]| == layers
  }

  function Joined(files: seq<KvData>, layers: nat, l: nat): seq<Row>
    requires Layered(files, layers) && l < layers
  {
    if files == [] then [] else Joined(files[..|files| - 1], layers, l) + files[|files| - 1][l]
  }

  /** A fresh cache filled from the files: rows concatenated, recurrent slots set
      where the snapshot has them. */
  function Restored(m: Model, files: seq<KvData>, rec: RecData): (c: seq<Entry>)
    requires |rec| == |m.layers| && Layered(files, |m.layers|)
    ensures |c| == |m.layers|
  {
    seq(|m.layers|, l requires 0 <= l < |m.layers| && |rec| == |m.layers| && Layered(files, |m.layers|) =>
      if m.layers[l].Attention? then Kv(Joined(files, |m.layers|, l))
      else if rec[l].Gdn? then Gdn(rec[l].conv, rec[l].rec) else Blank(m.layers[l]))
  }

  /** Each file holds the block of a prompt its place says. */
  ghost predicate AreBlocks(m: Model, block: nat, tokens: seq<Token>, files: seq<KvData>) {
    forall j :: 0 < j <= |files| ==> At(block, j) <= |tokens| && files[j - 1] == KvBlock(m, block, tokens, j)
  }

  lemma AreLayered(m: Model, block: nat, tokens: seq<Token>, files: seq<KvData>)
    requires AreBlocks(m, block, tokens, files)
    ensures Layered(files, |m.layers|)
  {
    hide CacheAfter, KvSlice;
    forall j | 0 <= j < |files| ensures |files[j]| == |m.layers| {
      assert files[j + 1 - 1] == KvBlock(m, block, tokens, j + 1);
    }
  }

  lemma BlockRows(m: Model, block: nat, tokens: seq<Token>, i: nat, l: nat)
    requires i > 0 && At(block, i) <= |tokens| && l < |m.layers| && m.layers[l].Attention?
    ensures At(block, i - 1) <= At(block, i)
    ensures KvBlock(m, block, tokens, i)[l] == Rows(m, tokens, l)[At(block, i - 1)..At(block, i)]
  {
    hide CacheAfter;
    RowsGrow(m, tokens, At(block, i), l);
    var p := tokens[..At(block, i)];
    assert CacheAfter(m, p)[l].rows == Rows(m, p, l);
  }

  lemma BlocksInit(m: Model, block: nat, tokens: seq<Token>, files: seq<KvData>)
    requires AreBlocks(m, block, tokens, files) && Layered(files, |m.layers|) && files != []
    ensures var init := files[..|files| - 1];
      && At(block, |files| - 1) <= At(block, |files|) <= |tokens|
      && files[|files| - 1] == KvBlock(m, block, tokens, |files|)
      && AreBlocks(m, block, tokens, init) && Layered(init, |m.layers|)
  {
    hide KvBlock;
    assert files[|files| - 1] == KvBlock(m, block, tokens, |files|);
  }

  lemma JoinedStep(files: seq<KvData>, layers: nat, l: nat, rows: seq<Row>, a: nat, b: nat)
    requires Layered(files, layers) && l < layers && files != [] && a <= b <= |rows|
    requires Joined(files[..|files| - 1], layers, l) == rows[..a] && files[|files| - 1][l] == rows[a..b]
    ensures Joined(files, layers, l) == rows[..b]
  {
    assert rows[..a] + rows[a..b] == rows[..b];
  }

  lemma {:induction false} JoinedIsRows(m: Model, block: nat, tokens: seq<Token>, files: seq<KvData>, l: nat)
    requires AreBlocks(m, block, tokens, files) && Layered(files, |m.layers|)
    requires l < |m.layers| && m.layers[l].Attention? && At(block, |files|) <= |tokens|
    ensures Joined(files, |m.layers|, l) == Rows(m, tokens, l)[..At(block, |files|)]
    decreases |files|
  {
    hide Rows, KvBlock, AreBlocks, Layered;
    if files != [] {
      var n := |files|;
      BlocksInit(m, block, tokens, files);
      BlockRows(m, block, tokens, n, l);
      hide At;
      JoinedIsRows(m, block, tokens, files[..n - 1], l);
      JoinedStep(files, |m.layers|, l, Rows(m, tokens, l), At(block, n - 1), At(block, n));
    }
  }

  /** Restoring i blocks and the states behind them is running the first i blocks'
      tokens. */
  lemma RestoredIsRun(m: Model, block: nat, tokens: seq<Token>, files: seq<KvData>, rec: RecData)
    requires Storable(m) && AreBlocks(m, block, tokens, files) && Layered(files, |m.layers|)
    requires |rec| == |m.layers| && At(block, |files|) <= |tokens|
    requires forall l :: 0 <= l < |m.layers| && m.layers[l].Recurrent? ==>
      rec[l] == CacheAfter(m, tokens[..At(block, |files|)])[l]
    ensures Restored(m, files, rec) == CacheAfter(m, tokens[..At(block, |files|)])
  {
    var p := tokens[..At(block, |files|)];
    var c := CacheAfter(m, p);
    hide CacheAfter, At, Joined, AreBlocks, Layered;
    forall l | 0 <= l < |m.layers| ensures Restored(m, files, rec)[l] == c[l] {
      assert Fits(m.layers[l], c[l]);
      if m.layers[l].Attention? {
        JoinedIsRows(m, block, tokens, files, l);
        RowsGrow(m, tokens, At(block, |files|), l);
        assert Rows(m, p, l) == c[l].rows;
      }
    }
  }
}
