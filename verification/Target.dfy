/** The target model as a function of token prefixes: what its caches hold, which
    hidden state each position has, and what plain greedy decoding emits. */
module Target {
  import opened Collections
  import opened Network

  datatype Model = Model(layers: seq<Layer>, embed: Token -> Hid, greedy: Hid -> Token)

  function Blank(l: Layer): (e: Entry)
    ensures Fits(l, e)
  {
    match l
    case Attention(_, _) => Kv([])
    case Recurrent(_, _, _, _, _, _, _) => Gdn(None, None)
    case Sliding(_, _, _) => Window([], 0)
  }

  function FreshCache(m: Model): (c: seq<Entry>)
    ensures AllFit(m.layers, c)
  {
    seq(|m.layers|, i requires 0 <= i < |m.layers| => Blank(m.layers[i]))
  }

  function Embed(m: Model, toks: seq<Token>): (hs: seq<Hid>)
    ensures |hs| == |toks|
  {
    seq(|toks|, i requires 0 <= i < |toks| => m.embed(toks[i]))
  }

  function CacheAfter(m: Model, toks: seq<Token>): (c: seq<Entry>)
    ensures AllFit(m.layers, c)
  {
    RunNet(m.layers, FreshCache(m), Embed(m, toks)).0
  }

  /** The hidden state that scores the token following toks. */
  function HiddenAfter(m: Model, toks: seq<Token>): Hid
    requires toks != []
  {
    RunNet(m.layers, FreshCache(m), Embed(m, toks)).1[|toks| - 1]
  }

  function NextToken(m: Model, toks: seq<Token>): Token
    requires toks != []
  {
    m.greedy(HiddenAfter(m, toks))
  }

  /** The first n tokens plain greedy decoding emits after prompt. */
  function PlainDecode(m: Model, prompt: seq<Token>, n: nat): (out: seq<Token>)
    requires prompt != []
    ensures |out| == n
  {
    if n == 0 then []
    else
      var before := PlainDecode(m, prompt, n - 1);
      before + [NextToken(m, prompt + before)]
  }

  /** A window forward on the caches of a run is the run continued: same caches,
      and at every window position the hidden state of that prefix. */
  lemma ForwardContinuesRun(m: Model, toks: seq<Token>, window: seq<Token>)
    ensures var (c, hid) := WindowNet(m.layers, CacheAfter(m, toks), Embed(m, window));
            && c == CacheAfter(m, toks + window)
            && |hid| == |window|
            && forall i {:trigger hid[i]} :: 0 <= i < |window| ==> hid[i] == HiddenAfter(m, toks + window[..i + 1])
  {
    hide WindowNet, RunNet, Embed, FreshCache;
    WindowForwardIsDecode(m.layers, CacheAfter(m, toks), Embed(m, window));
    RunNetSplit(m.layers, FreshCache(m), Embed(m, toks), Embed(m, window));
    EmbedSplit(m, toks, window);
    var hid := WindowNet(m.layers, CacheAfter(m, toks), Embed(m, window)).1;
    forall i | 0 <= i < |window| ensures hid[i] == HiddenAfter(m, toks + window[..i + 1]) {
      HiddenOfPrefix(m, toks + window, |toks| + i + 1);
      assert (toks + window)[..|toks| + i + 1] == toks + window[..i + 1];
    }
  }

  lemma EmbedSplit(m: Model, a: seq<Token>, b: seq<Token>)
    ensures Embed(m, a + b) == Embed(m, a) + Embed(m, b)
  {
  }

  lemma HiddenOfPrefix(m: Model, toks: seq<Token>, k: nat)
    requires 0 < k <= |toks|
    ensures HiddenAfter(m, toks[..k]) == RunNet(m.layers, FreshCache(m), Embed(m, toks)).1[k - 1]
  {
    hide RunNet, Embed, FreshCache;
    RunNetSplit(m.layers, FreshCache(m), Embed(m, toks[..k]), Embed(m, toks[k..]));
    EmbedSplit(m, toks[..k], toks[k..]);
    assert toks == toks[..k] + toks[k..];
  }

  lemma {:induction false} StepOffsets(ls: seq<Layer>, cache: seq<Entry>, h: Hid, i: nat)
    requires AllFit(ls, cache) && i < |ls| && ls[i].Sliding?
    ensures StepNet(ls, cache, h).0[i].Window? && StepNet(ls, cache, h).0[i].offset == cache[i].offset + 1
    decreases i
  {
    if i > 0 {
      StepOffsets(ls[1..], cache[1..], StepEntry(ls[0], cache[0], h).1, i - 1);
    }
  }

  lemma {:induction false} RunOffsets(ls: seq<Layer>, cache: seq<Entry>, hs: seq<Hid>, i: nat)
    requires AllFit(ls, cache) && i < |ls| && ls[i].Sliding?
    ensures RunNet(ls, cache, hs).0[i].Window? && RunNet(ls, cache, hs).0[i].offset == cache[i].offset + |hs|
    decreases |hs|
  {
    hide StepEntry, StepNet;
    if hs != [] {
      StepOffsets(ls, cache, hs[0], i);
      RunOffsets(ls, StepNet(ls, cache, hs[0]).0, hs[1..], i);
    }
  }

  /** A sliding window counts the tokens it has seen. */
  lemma OffsetIsLength(m: Model, toks: seq<Token>)
    ensures forall i :: 0 <= i < |m.layers| && m.layers[i].Sliding? ==>
      CacheAfter(m, toks)[i].Window? && CacheAfter(m, toks)[i].offset == |toks|
  {
    forall i | 0 <= i < |m.layers| && m.layers[i].Sliding?
      ensures CacheAfter(m, toks)[i].Window? && CacheAfter(m, toks)[i].offset == |toks|
    {
      hide RunNet;
      RunOffsets(m.layers, FreshCache(m), Embed(m, toks), i);
    }
  }

  lemma {:induction false} PlainDecodeSplit(m: Model, prompt: seq<Token>, a: nat, b: nat)
    requires prompt != []
    ensures PlainDecode(m, prompt, a + b)
         == PlainDecode(m, prompt, a) + PlainDecode(m, prompt + PlainDecode(m, prompt, a), b)
    decreases b
  {
    hide NextToken;
    var pa := PlainDecode(m, prompt, a);
    if b == 0 {
      assert pa + [] == pa;
    } else {
      PlainDecodeSplit(m, prompt, a, b - 1);
      var pb := PlainDecode(m, prompt + pa, b - 1);
      assert prompt + (pa + pb) == (prompt + pa) + pb;
      assert PlainDecode(m, prompt, a + (b - 1)) == pa + pb;
      assert (pa + pb) + [NextToken(m, prompt + (pa + pb))] == pa + (pb + [NextToken(m, (prompt + pa) + pb)]);
    }
  }
}
