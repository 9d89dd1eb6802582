/** Speculative decoding: a window of carried tokens and drafts is verified in one
    forward, and whatever the acceptance rule keeps, the caches and the carried
    tokens together are again the emitted stream. */
module SpecWindow {
  import opened Collections
  import opened Network
  import opened GdnCapture
  import opened Target
  import opened MtpHistory

  /** The round's acceptance rule: exact match against the target's own outputs
      (argmaxes or samples, one per window position), or rejection sampling,
      whose verdict is taken as given here. */
  datatype Rule =
    | Greedy
    | Sampled(outs: seq<Token>)
    | Rejection(accepted: nat, next: Token)

  /** No sliding window is narrower than n positions. */
  ghost predicate Roomy(m: Model, n: nat) {
    forall i :: 0 <= i < |m.layers| && m.layers[i].Sliding? ==> n <= m.layers[i].size
  }

  /** Behind a run of tokens a sliding window has wrapped, or not, as it is wide. */
  lemma RoomyIsUnwrapped(m: Model, run: seq<Token>, n: nat)
    ensures Unwrapped(m.layers, CacheAfter(m, run), n) <==> Roomy(m, |run| + n)
  {
    hide CacheAfter;
    OffsetIsLength(m, run);
  }

  /** Length of the run of drafts the target's outputs agree with. */
  method CountMatched(drafts: seq<Token>, outs: seq<Token>) returns (n: nat)
    requires |drafts| <= |outs|
    ensures n <= |drafts|
    ensures drafts[..n] == outs[..n]
    ensures n < |drafts| ==> drafts[n] != outs[n]
  {
    n := 0;
    while n < |drafts| && drafts[n] == outs[n]
      invariant n <= |drafts| && drafts[..n] == outs[..n]
    {
      n := n + 1;
    }
  }

  /** Cut a committed run just behind its first stop token. */
  method CutAtEos(run: seq<Token>, eos: set<Token>) returns (n: nat)
    requires run != []
    ensures 1 <= n <= |run|
    ensures forall i :: 0 <= i < n - 1 ==> run[i] !in eos
    ensures n < |run| ==> run[n - 1] in eos
  {
    for i := 0 to |run|
      invariant forall j :: 0 <= j < i ==> run[j] !in eos
    {
      if run[i] in eos { return i + 1; }
    }
    return |run|;
  }

  /** A run of greedy outputs at consecutive positions is plain decoding. */
  lemma {:induction false} GreedyRunIsPlain(m: Model, s: seq<Token>, run: seq<Token>)
    requires s != []
    requires forall i :: 0 <= i < |run| ==> run[i] == NextToken(m, s + run[..i])
    ensures run == PlainDecode(m, s, |run|)
  {
    if run != [] {
      var n := |run| - 1;
      forall i | 0 <= i < n ensures run[..n][i] == NextToken(m, s + run[..n][..i]) {
        assert run[..n][..i] == run[..i];
      }
      GreedyRunIsPlain(m, s, run[..n]);
      assert run == run[..n] + [run[n]];
    }
  }

  lemma WellRecorded(ls: seq<Layer>, before: seq<Entry>, hs: seq<Hid>, caps: map<nat, Captured>)
    requires AllFit(ls, before) && (caps == map[] || Covers(ls, before, hs, caps))
    ensures forall i :: i in caps ==>
      && caps[i].layer.Recurrent? && |caps[i].gates| == |hs|
      && |caps[i].convInput| == caps[i].layer.keep + |hs|
    ensures Covers(ls, before, hs, caps) ==> forall i :: 0 <= i < |ls| && ls[i].Recurrent? ==> i in caps
  {
  }

  /** Whatever was recorded lets the commit through. */
  lemma RecordsCommit(ls: seq<Layer>, before: seq<Entry>, hs: seq<Hid>, caps: map<nat, Captured>, keep: nat, cache: seq<Entry>)
    requires AllFit(ls, before) && (caps == map[] || Covers(ls, before, hs, caps))
    requires AllFit(ls, cache) && 0 < keep <= |hs|
    ensures Commits(ls, cache, caps, keep, |hs|) <==> caps != map[]
  {
  }

  /** The committed caches are those of a run of the kept positions exactly if no
      sliding window has wrapped. */
  lemma KeptIsPrefixRun(ls: seq<Layer>, before: seq<Entry>, hs: seq<Hid>, caps: map<nat, Captured>, keep: nat, after: seq<Entry>)
    requires AllFit(ls, before) && 0 < keep < |hs| && |after| == |ls|
    requires Covers(ls, before, hs, caps)
    requires forall i :: 0 <= i < |ls| ==>
      after[i] == if ls[i].Recurrent? then Replayed(caps[i], keep)
                  else CutEntry(WindowNet(ls, before, hs).0[i], |hs| - keep)
    ensures after == WindowNet(ls, before, hs[..keep]).0 <==> Unwrapped(ls, before, |hs|)
  {
    hide WindowNet, WindowEntry, CutEntry, Replayed, Covers, Inputs, RunEntry, Unwrapped;
    WindowNetAt(ls, before, hs);
    WellRecorded(ls, before, hs, caps);
    forall i | 0 <= i < |ls| ensures Fits(ls[i], WindowNet(ls, before, hs).0[i]) {
      WindowIsRun(ls[i], before[i], Inputs(ls, before, hs, i));
    }
    CommitIsPrefixRun(ls, before, hs, caps, keep, after);
  }

  lemma CapturesSome(ls: seq<Layer>, cache: seq<Entry>, hs: seq<Hid>)
    requires AllFit(ls, cache)
    ensures Captures(ls, cache, hs) != map[] <==> HasRecurrent(ls)
  {
    var caps := Captures(ls, cache, hs);
    if HasRecurrent(ls) {
      var i: nat :| i < |ls| && ls[i].Recurrent?;
      assert i in caps;
    } else {
      assert caps.Keys == {};
    }
  }

  predicate Poses(rule: Rule, drafts: seq<Token>) {
    && (rule.Sampled? ==> |rule.outs| == |drafts| + 1)
    && (rule.Rejection? ==> rule.accepted <= |drafts|)
  }

  /** What a round may commit: plain greedy decoding, the target's own samples, or
      the rejection verdict, in each case possibly cut at a stop token. */
  ghost predicate Obeys(m: Model, stream: seq<Token>, rule: Rule, drafts: seq<Token>, committed: seq<Token>)
    requires stream != [] && Poses(rule, drafts)
  {
    match rule
    case Greedy => committed == PlainDecode(m, stream, |committed|)
    case Sampled(outs) => committed <= outs
    case Rejection(accepted, next) => committed <= drafts[..accepted] + [next]
  }

  /** A stop token, if there is one, comes last. */
  ghost predicate StopsAtEos(committed: seq<Token>, eos: set<Token>) {
    forall i :: 0 <= i < |committed| - 1 ==> committed[i] !in eos
  }

  /** The run agrees with the drafts up to its last token, which is either where the
      two first differ or comes behind the whole chain. */
  predicate LongestMatch(drafts: seq<Token>, run: seq<Token>) {
    && 1 <= |run| <= |drafts| + 1
    && (forall i :: 0 <= i < |run| - 1 ==> run[i] == drafts[i])
    && (|run| <= |drafts| ==> run[|run| - 1] != drafts[|run| - 1])
  }

  /** What the rule lets through before any stop token is looked at. */
  ghost predicate Whole(m: Model, stream: seq<Token>, rule: Rule, drafts: seq<Token>, run: seq<Token>)
    requires stream != [] && Poses(rule, drafts)
  {
    match rule
    case Greedy => LongestMatch(drafts, run) && run == PlainDecode(m, stream, |run|)
    case Sampled(outs) => LongestMatch(drafts, run) && run <= outs
    case Rejection(accepted, next) => run == drafts[..accepted] + [next]
  }

  /** The run is committed whole, or up to its first stop token. */
  ghost predicate CutAtStop(run: seq<Token>, stops: set<Token>, committed: seq<Token>) {
    && committed != [] && committed <= run && StopsAtEos(committed, stops)
    && (|committed| < |run| ==> committed[|committed| - 1] in stops)
  }

  /** Everything the rule lets through is committed, up to the first stop token. */
  ghost predicate Decides(m: Model, stream: seq<Token>, rule: Rule, drafts: seq<Token>, stops: set<Token>, committed: seq<Token>)
    requires stream != [] && Poses(rule, drafts)
  {
    exists run :: Whole(m, stream, rule, drafts, run) && CutAtStop(run, stops, committed)
  }

  lemma WholeOnce(m: Model, stream: seq<Token>, rule: Rule, drafts: seq<Token>, r: seq<Token>, s: seq<Token>)
    requires stream != [] && Poses(rule, drafts) && |r| <= |s|
    requires Whole(m, stream, rule, drafts, r) && Whole(m, stream, rule, drafts, s)
    ensures r == s
  {
    hide PlainDecode;
    if rule.Greedy? {
      PlainDecodeSplit(m, stream, |r|, |s| - |r|);
    }
    if !rule.Rejection? {
      assert r <= s;
      assert s[|r| - 1] == r[|r| - 1];
    }
  }

  lemma CutOnce(run: seq<Token>, stops: set<Token>, c: seq<Token>, d: seq<Token>)
    requires CutAtStop(run, stops, c) && CutAtStop(run, stops, d)
    ensures |d| <= |c|
  {
    if |c| <= |d| {
      assert d[|c| - 1] == run[|c| - 1] == c[|c| - 1];
    }
  }

  /** Drafts, rule and stop tokens alone decide how many tokens a round commits, and
      which. */
  lemma DecidedOnce(m: Model, stream: seq<Token>, rule: Rule, drafts: seq<Token>, stops: set<Token>, c: seq<Token>, d: seq<Token>)
    requires stream != [] && Poses(rule, drafts)
    requires Decides(m, stream, rule, drafts, stops, c) && Decides(m, stream, rule, drafts, stops, d)
    ensures c == d
  {
    hide Whole;
    var r :| Whole(m, stream, rule, drafts, r) && CutAtStop(r, stops, c);
    var s :| Whole(m, stream, rule, drafts, s) && CutAtStop(s, stops, d);
    if |r| <= |s| {
      WholeOnce(m, stream, rule, drafts, r, s);
    } else {
      WholeOnce(m, stream, rule, drafts, s, r);
    }
    CutOnce(r, stops, c, d);
    CutOnce(r, stops, d, c);
    assert c == r[..|c|] == d;
  }

  /** The kept window positions are the stream but its last token. */
  lemma KeptEnds(run: seq<Token>, pending: seq<Token>, drafts: seq<Token>, committed: seq<Token>, accepted: nat)
    requires accepted <= |drafts| && |committed| == accepted + 1 && committed[..accepted] == drafts[..accepted]
    ensures var s := run + pending + committed; run + (pending + drafts)[..|pending| + accepted] == s[..|s| - 1]
  {
    assert (pending + drafts)[..|pending| + accepted] == pending + drafts[..accepted];
    assert committed == committed[..accepted] + [committed[accepted]];
    assert run + pending + committed == run + (pending + committed[..accepted]) + [committed[accepted]];
  }

  /** Carried tokens, kept drafts and the correction are the carried tokens and the
      committed run. */
  lemma CarriedEnds(run: seq<Token>, pending: seq<Token>, drafts: seq<Token>, committed: seq<Token>, accepted: nat)
    requires accepted <= |drafts| && |committed| == accepted + 1 && committed[..accepted] == drafts[..accepted]
    ensures pending + drafts[..accepted] + committed[accepted..] == pending + committed
    ensures run + pending + committed == run + (pending + committed)
  {
    assert committed == committed[..accepted] + committed[accepted..];
  }

  /** The tail carries the end of the stream. */
  ghost predicate Splits(stream: seq<Token>, tail: seq<Token>) {
    |tail| <= |stream| && stream[|stream| - |tail|..] == tail
  }

  function Before(stream: seq<Token>, tail: seq<Token>): seq<Token>
    requires |tail| <= |stream|
  {
    stream[..|stream| - |tail|]
  }

  class SpecDecoder {
    const m: Model
    const cache: array<Entry>
    const drafter: MtpDrafter?
    const maxWindow: nat
    const eos: set<Token>
    const ignoreEos: bool
    const capture: bool            // the model's recurrent layers can be recorded
    var pending: seq<Token>        // committed tokens the caches have not absorbed
    ghost var stream: seq<Token>   // the prompt and everything emitted
    ghost var from: nat            // where the drafter's history starts

    ghost predicate Valid()
      reads this, cache, drafter
    {
      && 1 <= |pending| <= maxWindow
      && Splits(stream, pending)
      && cache[..] == CacheAfter(m, Before(stream, pending))
      && (drafter != null ==> drafter.Tracks(m, stream, from))
    }

    constructor (m: Model, cache: array<Entry>, drafter: MtpDrafter?, maxWindow: nat, eos: set<Token>, ignoreEos: bool, capture: bool)
      ensures this.m == m && this.cache == cache && this.drafter == drafter && this.maxWindow == maxWindow
      ensures this.eos == eos && this.ignoreEos == ignoreEos && this.capture == capture
    {
      this.m, this.cache, this.drafter, this.maxWindow := m, cache, drafter, maxWindow;
      this.eos, this.ignoreEos, this.capture := eos, ignoreEos, capture;
      pending, stream, from := [], [], 0;
    }

    /** The drafter during prefill: fed by the chunks so far, or left empty. */
    ghost predicate Listening(prompt: seq<Token>, start: nat, pos: nat, listen: bool)
      requires start <= pos < |prompt|
      reads drafter
    {
      drafter != null ==>
        && drafter.histLen <= |drafter.cache| && drafter.hidden == None
        && drafter.pending == [prompt[|prompt| - 1]]
        && drafter.cache[..drafter.histLen] == if listen then Pairs(m, prompt, start, pos) else []
    }

    /** A chunk's rows are the trunk's over the prompt itself. */
    lemma Chunked(prompt: seq<Token>, pos: nat, n: nat, rows: seq<Hid>)
      requires pos + n <= |prompt| && |rows| == n
      requires forall i {:trigger rows[i]} :: 0 <= i < n ==> rows[i] == HiddenAfter(m, prompt[..pos] + prompt[pos..pos + n][..i + 1])
      ensures prompt[..pos] + prompt[pos..pos + n] == prompt[..pos + n]
      ensures forall i {:trigger rows[i]} :: 0 <= i < n ==> rows[i] == HiddenAfter(m, prompt[..pos + i + 1])
    {
      hide HiddenAfter;
      forall i | 0 <= i < n ensures rows[i] == HiddenAfter(m, prompt[..pos + i + 1]) {
        assert prompt[..pos] + prompt[pos..pos + n][..i + 1] == prompt[..pos + i + 1];
      }
    }

    method PrefillChunk(prompt: seq<Token>, ghost start: nat, pos: nat, n: nat, listen: bool)
      requires start <= pos && 0 < n && pos + n < |prompt| && cache[..] == CacheAfter(m, prompt[..pos])
      requires Listening(prompt, start, pos, listen)
      modifies cache, drafter
      ensures cache[..] == CacheAfter(m, prompt[..pos + n]) && Listening(prompt, start, pos + n, listen)
    {
      hide CacheAfter, HiddenAfter, Pairs, WindowNet, Embed;
      var rows := Forward(prompt[..pos], prompt[pos..pos + n]);
      Chunked(prompt, pos, n, rows);
      if drafter != null && listen {
        drafter.ExtendHistory(m, prompt, start, pos, rows, prompt[pos + 1..pos + n + 1]);
      }
    }

    /** Prefill of everything but the last prompt token, in chunks of whatever
        width the scheduler picks, on top of `start` restored tokens. The head's
        history is built from the same chunks when it listens to them. */
    method Prefill(prompt: seq<Token>, start: nat, width: nat -> nat, listen: bool)
      requires start < |prompt| && cache[..] == CacheAfter(m, prompt[..start]) && maxWindow >= 1
      requires drafter != null ==>
        drafter.cache == [] && drafter.histLen == 0 && drafter.hidden == None && drafter.pending == [prompt[|prompt| - 1]]
      modifies this, cache, drafter
      ensures Valid() && stream == prompt && pending == [prompt[|prompt| - 1]]
    {
      hide CacheAfter, HiddenAfter;
      var pos, end := start, |prompt| - 1;
      while pos < end
        invariant start <= pos <= end && cache[..] == CacheAfter(m, prompt[..pos])
        invariant Listening(prompt, start, pos, listen)
      {
        var n := if 1 <= width(pos) <= end - pos then width(pos) else end - pos;
        PrefillChunk(prompt, start, pos, n, listen);
        pos := pos + n;
      }
      from := if listen then start else end;
      stream, pending := prompt, [prompt[|prompt| - 1]];
    }

    /** One forward of the target over a window, writing every cache in place. */
    method Forward(ghost run: seq<Token>, window: seq<Token>) returns (hid: seq<Hid>)
      requires cache[..] == CacheAfter(m, run)
      modifies cache
      ensures cache[..] == CacheAfter(m, run + window)
      ensures (cache[..], hid) == WindowNet(m.layers, old(cache[..]), Embed(m, window))
      ensures |hid| == |window|
      ensures forall i {:trigger hid[i]} :: 0 <= i < |window| ==> hid[i] == HiddenAfter(m, run + window[..i + 1])
    {
      ForwardContinuesRun(m, run, window);
      var r := WindowNet(m.layers, cache[..], Embed(m, window));
      Write(r.0);
      hid := r.1;
    }

    method Write(entries: seq<Entry>)
      requires |entries| == cache.Length
      modifies cache
      ensures cache[..] == entries
    {
      for i := 0 to |entries|
        invariant cache[..i] == entries[..i]
      {
        cache[i] := entries[i];
        assert cache[..i + 1] == cache[..i] + [entries[i]];
      }
    }

    /** Restore the caches to the round's start from their snapshots. */
    method RollBack(ghost run: seq<Token>, window: seq<Token>, snaps: seq<Option<Entry>>)
      requires cache[..] == WindowNet(m.layers, CacheAfter(m, run), Embed(m, window)).0
      requires |snaps| == cache.Length
      requires forall i :: 0 <= i < |snaps| ==> snaps[i] == Snapshot(CacheAfter(m, run)[i])
      modifies cache
      ensures cache[..] == CacheAfter(m, run)
    {
      hide CacheAfter, WindowNet, WindowEntry, RunEntry, Inputs;
      ghost var before := CacheAfter(m, run);
      ghost var hs := Embed(m, window);
      WindowNetAt(m.layers, before, hs);
      for i := 0 to cache.Length
        invariant forall j :: 0 <= j < i ==> cache[j] == before[j]
        invariant forall j :: i <= j < cache.Length ==>
          cache[j] == WindowEntry(m.layers[j], before[j], Inputs(m.layers, before, hs, j)).0
      {
        RollbackUndoesWindow(m.layers[i], before[i], Inputs(m.layers, before, hs, i));
        cache[i] := Rollback(cache[i], snaps[i], |window|);
      }
    }

    /** Bind the caches to the first keep window positions, or decline. What a commit
        leaves is the run of those positions exactly if no sliding window wrapped. */
    method CommitKept(ghost run: seq<Token>, window: seq<Token>, keep: nat, caps: map<nat, Captured>) returns (ok: bool)
      requires 0 < keep < |window|
      requires cache[..] == WindowNet(m.layers, CacheAfter(m, run), Embed(m, window)).0
      requires caps == map[] || Covers(m.layers, CacheAfter(m, run), Embed(m, window), caps)
      modifies cache
      ensures ok ==> (cache[..] == CacheAfter(m, run + window[..keep]) <==> Roomy(m, |run| + |window|))
      ensures !ok ==> cache[..] == old(cache[..])
      ensures ok <==> caps != map[]
    {
      hide CacheAfter, WindowNet, WindowEntry, Captures, AllFit, Fits, Record, Covers, Commits, Inputs, Replayed, CutEntry, Unwrapped, Roomy;
      ghost var before := CacheAfter(m, run);
      ghost var hs := Embed(m, window);
      assert AllFit(m.layers, cache[..]) by { ForwardContinuesRun(m, run, window); }
      WellRecorded(m.layers, before, hs, caps);
      RecordsCommit(m.layers, before, hs, caps, keep, cache[..]);
      ok := CommitPrefix(m.layers, cache, caps, keep, |window|);
      if ok {
        KeptIsPrefixRun(m.layers, before, hs, caps, keep, cache[..]);
        assert hs[..keep] == Embed(m, window[..keep]);
        ForwardContinuesRun(m, run, window[..keep]);
        RoomyIsUnwrapped(m, run, |window|);
      }
    }

    /** The stop tokens this request honours. */
    function Stops(): set<Token> {
      if ignoreEos then {} else eos
    }

    /** How many drafts this round's rule keeps, and the run it commits: all it lets
        through, or all up to the first stop token. */
    method Judge(drafts: seq<Token>, rule: Rule, hid: seq<Hid>)
      returns (accepted: nat, committed: seq<Token>, ghost whole: seq<Token>)
      requires |hid| == |drafts| + 1 && Poses(rule, drafts)
      ensures accepted <= |drafts| && |committed| == accepted + 1
      ensures committed[..accepted] == drafts[..accepted]
      ensures rule.Rejection? ==> whole == drafts[..rule.accepted] + [rule.next]
      ensures !rule.Rejection? ==> LongestMatch(drafts, whole)
      ensures rule.Greedy? ==> forall i :: 0 <= i < |whole| ==> whole[i] == m.greedy(hid[i])
      ensures rule.Sampled? ==> whole <= rule.outs
      ensures CutAtStop(whole, Stops(), committed)
    {
      if rule.Rejection? {
        accepted, committed := rule.accepted, drafts[..rule.accepted] + [rule.next];
      } else {
        var outs := if rule.Greedy? then seq(|hid|, i requires 0 <= i < |hid| => m.greedy(hid[i])) else rule.outs;
        accepted := CountMatched(drafts, outs);
        committed := outs[..accepted + 1];
        assert committed[..accepted] == outs[..accepted];
      }
      whole := committed;
      if !ignoreEos {
        var n := CutAtEos(committed, eos);
        committed := committed[..n];
        accepted := Least(accepted, n - 1);
        assert committed[..accepted] == whole[..accepted];
      }
    }

    /** Record the committed run: the drafter's history first, from the target's
        own hidden states, then the new end of the stream. */
    method Advance(committed: seq<Token>, accepted: nat, tail: seq<Token>, rows: seq<Hid>, ghost before: seq<Token>)
      requires before != [] && |rows| == |committed| == accepted + 1
      requires tail != [] && tail[|tail| - 1] == committed[accepted]
      requires forall i {:trigger rows[i]} :: 0 <= i < |rows| ==> rows[i] == HiddenAfter(m, before + committed[..i])
      requires drafter != null ==> drafter.Tracks(m, before, from) && (drafter.hidden.None? ==> accepted == 0)
      modifies drafter
      ensures drafter != null ==> drafter.Tracks(m, before + committed, from) && drafter.hidden.Some?
    {
      if drafter != null {
        drafter.Absorb(m, before, from, committed, rows);
        drafter.Commit(tail);
        drafter.SetHidden(rows[accepted]);
        assert (before + committed)[..|before + committed| - 1] == before + committed[..accepted];
      }
    }

    /** Forward the window and judge it. Row i of the result is the target's state
        for committed token i, and under greedy decoding so is the token. */
    method Verify(drafts: seq<Token>, rule: Rule) returns (accepted: nat, committed: seq<Token>, rows: seq<Hid>)
      requires Valid()
      requires Poses(rule, drafts)
      modifies cache
      ensures cache[..] == WindowNet(m.layers, old(cache[..]), Embed(m, pending + drafts)).0
      ensures accepted <= |drafts| && |committed| == |rows| == accepted + 1
      ensures committed[..accepted] == drafts[..accepted]
      ensures forall i {:trigger rows[i]} :: 0 <= i <= accepted ==> rows[i] == HiddenAfter(m, stream + committed[..i])
      ensures Obeys(m, stream, rule, drafts, committed)
      ensures Decides(m, stream, rule, drafts, Stops(), committed)
    {
      hide CacheAfter, HiddenAfter, WindowNet, PlainDecode, Pairs;
      var off, window := |pending| - 1, pending + drafts;
      ghost var run := Before(stream, pending);
      var hid := Forward(run, window);
      ghost var whole;
      accepted, committed, whole := Judge(drafts, rule, hid[off..]);
      rows := hid[off..off + accepted + 1];
      forall i | 0 <= i <= |drafts| ensures hid[off + i] == HiddenAfter(m, stream + drafts[..i]) {
        assert run + window[..off + i + 1] == stream + drafts[..i];
      }
      forall i | 0 <= i <= accepted ensures rows[i] == HiddenAfter(m, stream + committed[..i]) {
        assert committed[..i] == drafts[..i] && rows[i] == hid[off + i];
      }
      if rule.Greedy? {
        forall i | 0 <= i < |whole| ensures whole[i] == NextToken(m, stream + whole[..i]) {
          assert hid[off..][i] == hid[off + i] && whole[..i] == drafts[..i];
        }
        GreedyRunIsPlain(m, stream, whole);
        PlainDecodeSplit(m, stream, |committed|, |whole| - |committed|);
      }
      assert Whole(m, stream, rule, drafts, whole);
    }

    /** Bind caches and carried tokens to the committed run. */
    method Settle(drafts: seq<Token>, accepted: nat, committed: seq<Token>, ghost run: seq<Token>,
                  snaps: seq<Option<Entry>>, caps: map<nat, Captured>)
      requires accepted <= |drafts| && |committed| == accepted + 1 && committed[..accepted] == drafts[..accepted]
      requires pending != [] && |snaps| == cache.Length
      requires cache[..] == WindowNet(m.layers, CacheAfter(m, run), Embed(m, pending + drafts)).0
      requires forall i :: 0 <= i < |snaps| ==> snaps[i] == Snapshot(CacheAfter(m, run)[i])
      requires caps == map[] || Covers(m.layers, CacheAfter(m, run), Embed(m, pending + drafts), caps)
      modifies this`pending, cache
      ensures pending == committed[accepted..] || (pending == old(pending) + committed && accepted < |drafts|)
      ensures Splits(run + old(pending) + committed, pending)
      ensures cache[..] == CacheAfter(m, Before(run + old(pending) + committed, pending)) <==>
        caps == map[] || accepted == |drafts| || Roomy(m, |run| + |old(pending)| + |drafts|)
    {
      hide CacheAfter, HiddenAfter, WindowNet, PlainDecode, Covers, Fits, Snapshot, Roomy;
      var window := pending + drafts;
      if accepted < |drafts| {
        var keep := |pending| + accepted;
        var kept := false;
        if caps != map[] {
          kept := CommitKept(run, window, keep, caps);
        }
        if kept {
          KeptEnds(run, pending, drafts, committed, accepted);
          pending := committed[accepted..];
        } else {
          RollBack(run, window, snaps);
          CarriedEnds(run, pending, drafts, committed, accepted);
          pending := pending + drafts[..accepted] + committed[accepted..];
        }
      } else {
        ForwardContinuesRun(m, run, window);
        KeptEnds(run, pending, drafts, committed, accepted);
        assert window[..|window|] == window;
        pending := committed[accepted..];
      }
    }

    /** The round's window is recorded: there are recurrent layers, and they can be. */
    ghost predicate Recorded() {
      capture && HasRecurrent(m.layers)
    }

    /** One round: verify the whole window in one forward, keep what the rule
        accepts. Whichever branch it takes (all accepted, a stop token, a prefix
        commit, a rollback with carry), the stream has grown by what the target itself
        says, and caches and carried tokens are that stream again, except exactly
        when a recorded window was cut short behind a wrapped sliding window. */
    method Round(drafts: seq<Token>, rule: Rule) returns (committed: seq<Token>)
      requires Valid() && |pending| + |drafts| <= maxWindow
      requires drafter != null && drafter.hidden.None? ==> drafts == []
      requires Poses(rule, drafts)
      modifies this`pending, this`stream, cache, drafter
      ensures committed != [] && stream == old(stream) + committed
      ensures |committed| <= |drafts| + 1 && committed[..|committed| - 1] == drafts[..|committed| - 1]
      ensures Valid() <==> !Recorded() || |committed| > |drafts| || Roomy(m, |old(stream)| + |drafts|)
      ensures pending == committed[|committed| - 1..] || pending == old(pending) + committed
      ensures Obeys(m, old(stream), rule, drafts, committed)
      ensures Decides(m, old(stream), rule, drafts, Stops(), committed)
      ensures drafter != null ==> drafter.hidden.Some?
    {
      hide CacheAfter, HiddenAfter, WindowNet, Pairs, Captures, Covers, Fits, Snapshot, Obeys, Decides, Poses, Embed, AllFit, Roomy, MtpDrafter.Tracks;
      ghost var run := Before(stream, pending);
      assert run + pending == stream;
      var snaps, caps := Guard(drafts);
      var accepted, rows;
      accepted, committed, rows := Verify(drafts, rule);
      SettleAndAdvance(drafts, accepted, committed, rows, run, snaps, caps);
    }

    /** The way back: a snapshot per entry, and the recurrent layers' record if the
        model's layers allow it. */
    method Guard(drafts: seq<Token>) returns (snaps: seq<Option<Entry>>, caps: map<nat, Captured>)
      requires Valid()
      ensures |snaps| == cache.Length && forall i :: 0 <= i < |snaps| ==> snaps[i] == Snapshot(cache[i])
      ensures caps == map[] || Covers(m.layers, cache[..], Embed(m, pending + drafts), caps)
      ensures caps != map[] <==> Recorded()
    {
      hide CacheAfter, HiddenAfter, WindowNet, Pairs, Fits, Snapshot, Embed, AllFit, Captures, HasRecurrent, MtpDrafter.Tracks;
      CapturesSome(m.layers, cache[..], Embed(m, pending + drafts));
      snaps := seq(cache.Length, i requires 0 <= i < cache.Length reads cache => Snapshot(cache[i]));
      caps := if capture then Captures(m.layers, cache[..], Embed(m, pending + drafts)) else map[];
    }

    /** Caches, carried tokens, drafter and stream all move to the committed run. */
    method SettleAndAdvance(drafts: seq<Token>, accepted: nat, committed: seq<Token>, rows: seq<Hid>, ghost run: seq<Token>,
                            snaps: seq<Option<Entry>>, caps: map<nat, Captured>)
      requires accepted <= |drafts| && |committed| == |rows| == accepted + 1 && committed[..accepted] == drafts[..accepted]
      requires 1 <= |pending| && |pending| + |drafts| <= maxWindow && stream == run + pending && |snaps| == cache.Length
      requires cache[..] == WindowNet(m.layers, CacheAfter(m, run), Embed(m, pending + drafts)).0
      requires forall i :: 0 <= i < |snaps| ==> snaps[i] == Snapshot(CacheAfter(m, run)[i])
      requires caps == map[] || Covers(m.layers, CacheAfter(m, run), Embed(m, pending + drafts), caps)
      requires forall i {:trigger rows[i]} :: 0 <= i <= accepted ==> rows[i] == HiddenAfter(m, stream + committed[..i])
      requires drafter != null ==> drafter.Tracks(m, stream, from) && (drafter.hidden.None? ==> drafts == [])
      modifies this`pending, this`stream, cache, drafter
      ensures stream == old(stream) + committed
      ensures Valid() <==> caps == map[] || accepted == |drafts| || Roomy(m, |old(stream)| + |drafts|)
      ensures pending == committed[accepted..] || pending == old(pending) + committed
      ensures drafter != null ==> drafter.hidden.Some?
    {
      hide CacheAfter, HiddenAfter, WindowNet, Pairs, Covers, Fits, Snapshot, Embed, AllFit, Roomy, MtpDrafter.Tracks;
      Settle(drafts, accepted, committed, run, snaps, caps);
      var tail := (if accepted < |drafts| || drafts == [] then [] else drafts[|drafts| - 1..]) + committed[accepted..];
      Advance(committed, accepted, tail, rows, stream);
      stream := stream + committed;
    }

    /** The next round's drafts: the head's own chain, or another drafter's guess
        cut to the room the carried tokens leave. */
    method Propose(guess: seq<Token>, chain: (seq<(Hid, Token)>) -> Hid, pick: (nat, Hid) -> Token, shape: Option<Hid -> Density>)
      returns (drafts: seq<Token>, q: seq<Density>)
      requires Valid()
      modifies drafter
      ensures Valid() && |pending| + |drafts| <= maxWindow
      ensures drafter != null && drafter.hidden.None? ==> drafts == []
      ensures drafter == null ==> drafts == guess[..Least(|guess|, maxWindow - |pending|)] && q == []
      ensures drafter != null && drafter.hidden.Some? ==> |drafts| == Least(drafter.k, maxWindow - |pending|)
      ensures |q| == if drafter != null && shape.Some? then |drafts| else 0
    {
      hide CacheAfter, HiddenAfter, Pairs, Chained;
      var room := maxWindow - |pending|;
      if drafter != null {
        drafts, q := drafter.Draft(Least(drafter.k, room), chain, pick, shape);
      } else {
        drafts, q := guess[..Least(|guess|, room)], [];
      }
    }

    /** The scheduler ends a request at its length limit or at a stop token. */
    predicate Ends(out: seq<Token>, limit: nat) {
      |out| >= limit || (!ignoreEos && out != [] && out[|out| - 1] in eos)
    }

    /** The scheduler reads a round's tokens one by one, as far as the request goes. */
    method Take(before: seq<Token>, committed: seq<Token>, limit: nat) returns (out: seq<Token>, finished: bool)
      requires committed != []
      ensures |before| < |out| && before <= out <= before + committed
      ensures finished <==> Ends(out, limit)
      ensures !finished ==> out == before + committed
      ensures forall n :: |before| < n < |out| ==> !Ends(out[..n], limit)
    {
      hide Ends;
      out, finished := before, false;
      for i := 0 to |committed|
        invariant out == before + committed[..i] && !finished
        invariant i > 0 ==> !Ends(out, limit)
        invariant forall n :: |before| < n < |out| ==> !Ends(out[..n], limit)
      {
        ghost var was := out;
        assert committed[..i + 1] == committed[..i] + [committed[i]];
        out := out + [committed[i]];
        forall n | |before| < n < |out| ensures !Ends(out[..n], limit) {
          assert n < |was| ==> out[..n] == was[..n];
          assert out[..|was|] == was;
        }
        if Ends(out, limit) { return out, true; }
      }
      assert committed[..|committed|] == committed;
    }

    /** A whole greedy request, whatever the drafter proposes: the client reads plain
        greedy decoding, ended by the first stop token or the limit and not before,
        and no round has run past a stop token. */
    method DecodeRequest(prompt: seq<Token>, limit: nat, guess: (nat, nat) -> seq<Token>,
                         chain: (seq<(Hid, Token)>) -> Hid, pick: (nat, Hid) -> Token)
      returns (out: seq<Token>)
      requires Valid() && stream == prompt && prompt != []
      requires Recorded() ==> Roomy(m, |prompt| + limit + maxWindow)
      modifies this`pending, this`stream, cache, drafter
      ensures Valid() && out != [] && prompt + out <= stream
      ensures out == PlainDecode(m, prompt, |out|) && Ends(out, limit)
      ensures forall n :: 0 < n < |out| ==> !Ends(PlainDecode(m, prompt, n), limit)
      ensures |out| <= limit || |out| == 1
      ensures |out| < limit ==> out[|out| - 1] in Stops()
      ensures forall i :: 0 <= i < |out| - 1 ==> out[i] !in Stops()
      ensures !ignoreEos && out[|out| - 1] in eos ==> stream == prompt + out
    {
      hide CacheAfter, HiddenAfter, PlainDecode, Pairs, HasRecurrent, Ends, Read, Splits, Before, MtpDrafter.Tracks;
      out := [];
      var finished := false;
      NothingRead(prompt, limit);
      while !finished
        invariant Valid() && prompt + out <= stream && Read(prompt, out, limit) && (finished <==> out != [] && Ends(out, limit))
        invariant !finished ==> stream == prompt + out
        invariant finished && !ignoreEos && out[|out| - 1] in eos ==> stream == prompt + out
        decreases !finished, limit - |out|
      {
        Unfinished(out, limit);
        var drafts, _ := Propose(guess(|out|, maxWindow - |pending|), chain, pick, None);
        var committed := Round(drafts, Greedy);
        var before := out;
        out, finished := Take(before, committed, limit);
        ReadOn(prompt, before, committed, out, limit);
      }
      ReadIsPlain(prompt, out, limit);
      EndsOutright(out, limit);
    }

    /** Where a request that did not end before ends. */
    lemma EndsOutright(out: seq<Token>, limit: nat)
      requires out != [] && Ends(out, limit) && forall n :: 0 < n < |out| ==> !Ends(out[..n], limit)
      ensures |out| <= limit || |out| == 1
      ensures |out| < limit ==> out[|out| - 1] in Stops()
      ensures forall i :: 0 <= i < |out| - 1 ==> out[i] !in Stops()
    {
      if |out| > 1 {
        assert !Ends(out[..|out| - 1], limit);
      }
      forall i | 0 <= i < |out| - 1 ensures out[i] !in Stops() {
        assert !Ends(out[..i + 1], limit);
        assert out[..i + 1][i] == out[i];
      }
    }

    /** What the scheduler has read is plain decoding that did not end before. */
    ghost predicate Read(prompt: seq<Token>, out: seq<Token>, limit: nat)
      requires prompt != []
    {
      out == PlainDecode(m, prompt, |out|) && forall n :: 0 < n < |out| ==> !Ends(out[..n], limit)
    }

    lemma NothingRead(prompt: seq<Token>, limit: nat)
      requires prompt != []
      ensures Read(prompt, [], limit)
    {
    }

    lemma Unfinished(out: seq<Token>, limit: nat)
      ensures out != [] && !Ends(out, limit) ==> |out| < limit
    {
    }

    lemma ReadOn(prompt: seq<Token>, before: seq<Token>, committed: seq<Token>, out: seq<Token>, limit: nat)
      requires prompt != [] && Read(prompt, before, limit) && (before != [] ==> !Ends(before, limit))
      requires committed == PlainDecode(m, prompt + before, |committed|) && before <= out <= before + committed
      requires forall n :: |before| < n < |out| ==> !Ends(out[..n], limit)
      ensures Read(prompt, out, limit)
    {
      hide Ends, PlainDecode;
      PlainDecodeSplit(m, prompt, |before|, |committed|);
      PlainPrefix(prompt, before + committed, |out|);
      assert out == (before + committed)[..|out|];
      Unended(before, out, limit);
    }

    lemma ReadIsPlain(prompt: seq<Token>, out: seq<Token>, limit: nat)
      requires prompt != [] && Read(prompt, out, limit)
      ensures out == PlainDecode(m, prompt, |out|)
      ensures forall n :: 0 < n < |out| ==> !Ends(out[..n], limit)
      ensures forall n :: 0 < n < |out| ==> !Ends(PlainDecode(m, prompt, n), limit)
    {
      hide Ends, PlainDecode;
      forall n | 0 < n < |out| ensures !Ends(PlainDecode(m, prompt, n), limit) {
        PlainPrefix(prompt, out, n);
      }
    }

    lemma Unended(before: seq<Token>, out: seq<Token>, limit: nat)
      requires before <= out && (before != [] ==> !Ends(before, limit))
      requires forall n :: 0 < n < |before| ==> !Ends(before[..n], limit)
      requires forall n :: |before| < n < |out| ==> !Ends(out[..n], limit)
      ensures forall n :: 0 < n < |out| ==> !Ends(out[..n], limit)
    {
      hide Ends;
      forall n | 0 < n < |out| ensures !Ends(out[..n], limit) {
        assert n < |before| ==> out[..n] == before[..n];
        assert n == |before| ==> out[..n] == before;
      }
    }

    lemma PlainPrefix(prompt: seq<Token>, run: seq<Token>, n: nat)
      requires prompt != [] && run == PlainDecode(m, prompt, |run|) && n <= |run|
      ensures run[..n] == PlainDecode(m, prompt, n)
    {
      PlainDecodeSplit(m, prompt, n, |run| - n);
    }
  }

  /** A recurrent layer and a sliding window of one row. */
  function Narrow(h: Hid, row: Row, gate: Gate, rec: Rec, greedy: Hid -> Token): Model {
    Model([Recurrent(0, row, x => row, (taps, x) => gate, rec, (s, g) => s, (s, g, x) => h), Sliding(1, x => row, (rows, x) => h)],
          t => h, greedy)
  }

  /** Its window is recorded, its only draft is rejected, and the commit leaves caches
      that are no run of the stream. */
  method CutShortBehindWrap(h: Hid, row: Row, gate: Gate, rec: Rec, greedy: Hid -> Token, first: Token, draft: Token, next: Token)
    returns (d: SpecDecoder)
    ensures fresh(d) && fresh(d.cache) && d.m == Narrow(h, row, gate, rec, greedy)
    ensures d.stream == [first, next] && !d.Valid()
  {
    var m, prompt := Narrow(h, row, gate, rec, greedy), [first];
    assert m.layers[0].Recurrent? && m.layers[1].Sliding? && m.layers[1].size == 1;
    hide CacheAfter, HiddenAfter, SpecDecoder.Valid;
    var c := CacheAfter(m, []);
    var cache := new Entry[|c|](i requires 0 <= i < |c| => c[i]);
    assert cache[..] == c && prompt[..0] == [];
    d := new SpecDecoder(m, cache, null, 2, {}, true, true);
    d.Prefill(prompt, 0, _ => 1, false);
    assert d.Recorded() && !Roomy(m, 2);
    assert |d.pending| == 1;
    var committed := d.Round([draft], Rejection(0, next));
    assert [draft][..0] + [next] == [next];
    assert committed == [next];
  }
}
