/** The drafter that reads the trunk: an MTP head whose history is the committed
    stream, paired position by position with the trunk's hidden states. */
module MtpHistory {
  import opened Collections
  import opened Network
  import opened Target

  /** One committed history entry: the trunk's state at p and the token at p + 1. */
  function Pairs(m: Model, s: seq<Token>, from: nat, hi: nat): (r: seq<(Hid, Token)>)
    requires from <= hi < |s|
    ensures |r| == hi - from
  {
    seq(hi - from, i requires 0 <= i < hi - from => (HiddenAfter(m, s[..from + i + 1]), s[from + i + 1]))
  }

  lemma PairsOfLonger(m: Model, s: seq<Token>, more: seq<Token>, from: nat, hi: nat)
    requires from <= hi < |s|
    ensures Pairs(m, s + more, from, hi) == Pairs(m, s, from, hi)
  {
    forall i | 0 <= i < hi - from
      ensures Pairs(m, s + more, from, hi)[i] == Pairs(m, s, from, hi)[i]
    {
      assert (s + more)[..from + i + 1] == s[..from + i + 1];
    }
  }

  function Zip(hids: seq<Hid>, toks: seq<Token>): (r: seq<(Hid, Token)>)
    requires |hids| == |toks|
    ensures |r| == |hids|
  {
    seq(|hids|, i requires 0 <= i < |hids| => (hids[i], toks[i]))
  }

  /** The entries one round adds are the next pairs of the committed stream. */
  lemma AbsorbedPairs(m: Model, s: seq<Token>, committed: seq<Token>, from: nat, rows: seq<Hid>)
    requires from + 2 <= |s| && committed != [] && |rows| == |committed|
    requires forall i :: 0 <= i < |rows| ==> rows[i] == HiddenAfter(m, s + committed[..i])
    ensures Pairs(m, s, from, |s| - 2)
              + Zip([HiddenAfter(m, s[..|s| - 1])] + rows[..|rows| - 1], [s[|s| - 1]] + committed[..|rows| - 1])
         == Pairs(m, s + committed, from, |s| + |rows| - 2)
  {
    var n, s' := |committed|, s + committed;
    var hids, toks := [HiddenAfter(m, s[..|s| - 1])] + rows[..n - 1], [s[|s| - 1]] + committed[..n - 1];
    PairsOfLonger(m, s, committed, from, |s| - 2);
    var before := Pairs(m, s, from, |s| - 2);
    var after := Pairs(m, s', from, |s'| - 2);
    forall j | 0 <= j < n ensures Zip(hids, toks)[j] == after[|before| + j] {
      var p := |s| - 2 + j;
      assert p == from + |before| + j;
      if j == 0 {
        assert s'[..p + 1] == s[..|s| - 1];
      } else {
        assert s'[..p + 1] == s + committed[..j - 1];
      }
    }
  }

  /** A chain of n drafts behind a history: each entry pairs the state that came out
      of all the entries before it with the token picked from that state. */
  function Chained(history: seq<(Hid, Token)>, h: Hid, tok: Token, chain: (seq<(Hid, Token)>) -> Hid,
                   pick: (nat, Hid) -> Token, n: nat): (r: (seq<Token>, seq<(Hid, Token)>))
    ensures |r.0| == n && |r.1| == |history| + n && r.1[..|history|] == history
  {
    if n == 0 then ([], history)
    else
      var (drafts, entries) := Chained(history, h, tok, chain, pick, n - 1);
      var now := entries + [if n == 1 then (h, tok) else (chain(entries), drafts[n - 2])];
      (drafts + [pick(n - 1, chain(now))], now)
  }

  /** Every entry behind the history pairs the head's state over what came before it
      with the draft before it, the first one the state and the token it was handed,
      and every draft is picked from the head's state over all entries up to its own. */
  lemma {:induction false} ChainedAt(history: seq<(Hid, Token)>, h: Hid, tok: Token, chain: (seq<(Hid, Token)>) -> Hid,
                                     pick: (nat, Hid) -> Token, n: nat, i: nat)
    requires i < n
    ensures var (drafts, entries) := Chained(history, h, tok, chain, pick, n);
      var at := |history| + i;
      && drafts[i] == pick(i, chain(entries[..at + 1]))
      && entries[at].0 == (if i == 0 then h else chain(entries[..at]))
      && entries[at].1 == (if i == 0 then tok else drafts[i - 1])
  {
    var (drafts, entries) := Chained(history, h, tok, chain, pick, n);
    var before := Chained(history, h, tok, chain, pick, n - 1).1;
    var at := |history| + i;
    if i < n - 1 {
      ChainedAt(history, h, tok, chain, pick, n - 1, i);
      assert entries[..at + 1] == before[..at + 1] && entries[..at] == before[..at];
    } else {
      assert entries[..at + 1] == entries && entries[..at] == before;
    }
  }

  /** A head's shaped next-token distribution. */
  type Density(==, !new)

  /** The densities a chain's drafts are drawn from: those of the states they are
      picked from, in order. */
  ghost predicate Recorded(q: seq<Density>, entries: seq<(Hid, Token)>, from: nat, n: nat, chain: (seq<(Hid, Token)>) -> Hid, shape: Hid -> Density)
    requires |entries| == from + n
  {
    |q| == n && forall i :: 0 <= i < n ==> q[i] == shape(chain(entries[..from + i + 1]))
  }

  lemma RecordedOneMore(q: seq<Density>, entries: seq<(Hid, Token)>, e: (Hid, Token), from: nat, n: nat,
                        chain: (seq<(Hid, Token)>) -> Hid, shape: Hid -> Density)
    requires |entries| == from + n && Recorded(q, entries, from, n, chain, shape)
    ensures Recorded(q + [shape(chain(entries + [e]))], entries + [e], from, n + 1, chain, shape)
  {
    var more, longer := entries + [e], q + [shape(chain(entries + [e]))];
    forall i | 0 <= i <= n ensures longer[i] == shape(chain(more[..from + i + 1])) {
      if i == n {
        assert more[..from + n + 1] == more;
      } else {
        assert more[..from + i + 1] == entries[..from + i + 1];
      }
    }
  }

  class MtpDrafter {
    const k: nat
    var cache: seq<(Hid, Token)>   // the head's own KV entries
    var pending: seq<Token>
    var hidden: Option<Hid>
    var histLen: nat

    /** Where the committed history stops: one entry short of the last committed
        token once a round has run, and right at it before the first one. */
    function HistoryEnd(s: seq<Token>): int
      reads this
    {
      if hidden.None? then |s| - 1 else |s| - 2
    }

    /** The head follows stream s, with a history that starts at position from. */
    ghost predicate Tracks(m: Model, s: seq<Token>, from: nat)
      reads this
    {
      && from <= HistoryEnd(s)
      && pending != [] && pending[|pending| - 1] == s[|s| - 1]
      && histLen <= |cache|
      && cache[..histLen] == Pairs(m, s, from, HistoryEnd(s))
      && (hidden.Some? ==> hidden.value == HiddenAfter(m, s[..|s| - 1]))
    }

    constructor (k: nat, m: Model, input: seq<Token>)
      requires input != []
      ensures this.k == k && Tracks(m, input, |input| - 1) && hidden == None && histLen == 0 && cache == []
    {
      this.k := k;
      cache, pending, hidden, histLen := [], input[|input| - 1..], None, 0;
    }

    method TrimTo(offset: nat)
      modifies this`cache
      ensures cache == if |old(cache)| > offset then old(cache)[..offset] else old(cache)
    {
      if |cache| > offset {
        cache := cache[..offset];
      }
    }

    /** Prompt history, one prefill chunk at a time. The first chunk is the one
        that fixes where the history starts. */
    method ExtendHistory(m: Model, ghost input: seq<Token>, ghost from: nat, ghost lo: nat, rows: seq<Hid>, toks: seq<Token>)
      requires from <= lo && lo + |toks| < |input| && |rows| == |toks|
      requires toks == input[lo + 1..lo + 1 + |toks|]
      requires forall i :: 0 <= i < |rows| ==> rows[i] == HiddenAfter(m, input[..lo + i + 1])
      requires histLen <= |cache| && cache[..histLen] == Pairs(m, input, from, lo)
      modifies this`cache, this`histLen
      ensures histLen <= |cache| && cache[..histLen] == Pairs(m, input, from, lo + |toks|)
    {
      hide HiddenAfter;
      if toks == [] { return; }
      TrimTo(histLen);
      ghost var before := cache;
      cache := cache + Zip(rows, toks);
      histLen := histLen + |toks|;
      assert cache[..histLen] == Pairs(m, input, from, lo + |toks|);
    }

    /** A draft chain: the head's own entries pile up past the committed mark. With
        a shape the drafts are drawn, and the density of each is recorded. */
    method Draft(width: nat, chain: (seq<(Hid, Token)>) -> Hid, pick: (nat, Hid) -> Token, shape: Option<Hid -> Density>)
      returns (drafts: seq<Token>, q: seq<Density>)
      requires pending != [] && histLen <= |cache|
      modifies this`cache
      ensures hidden.None? || width == 0 ==> drafts == [] && q == [] && cache == old(cache)
      ensures hidden.Some? && width > 0 ==>
        (drafts, cache) == Chained(old(cache)[..histLen], hidden.value, pending[|pending| - 1], chain, pick, width)
      ensures hidden.Some? && width > 0 ==> if shape.Some? then Recorded(q, cache, histLen, width, chain, shape.value) else q == []
      ensures |drafts| <= width
      ensures histLen <= |cache| && cache[..histLen] == old(cache)[..histLen]
    {
      drafts, q := [], [];
      if hidden.None? || width == 0 { return; }
      TrimTo(histLen);
      ghost var history := cache;
      if shape.Some? { assert Recorded([], history, histLen, 0, chain, shape.value); }
      hide Recorded;
      var h, tok := hidden.value, pending[|pending| - 1];
      for i := 0 to width
        invariant (drafts, cache) == Chained(history, hidden.value, pending[|pending| - 1], chain, pick, i)
        invariant h == (if i == 0 then hidden.value else chain(cache))
        invariant tok == (if i == 0 then pending[|pending| - 1] else drafts[i - 1])
        invariant |cache| == histLen + i && if shape.Some? then Recorded(q, cache, histLen, i, chain, shape.value) else q == []
      {
        ghost var before := cache;
        cache := cache + [(h, tok)];
        h := chain(cache);
        tok := pick(i, h);
        if shape.Some? {
          RecordedOneMore(q, before, cache[|before|], histLen, i, chain, shape.value);
          q := q + [shape.value(h)];
        }
        drafts := drafts + [tok];
      }
      assert cache[..histLen] == history;
    }

    method Absorb(m: Model, ghost s: seq<Token>, ghost from: nat, committed: seq<Token>, rows: seq<Hid>)
      requires Tracks(m, s, from) && committed != [] && |rows| == |committed|
      requires hidden.None? ==> |committed| == 1
      requires forall i :: 0 <= i < |rows| ==> rows[i] == HiddenAfter(m, s + committed[..i])
      modifies this`cache, this`histLen
      ensures histLen == |cache| && cache == Pairs(m, s + committed, from, |s| + |committed| - 2)
    {
      hide Pairs, HiddenAfter, Zip;
      TrimTo(histLen);
      PairsOfLonger(m, s, committed, from, HistoryEnd(s));
      var n := |committed|;
      if hidden.Some? {
        AbsorbedPairs(m, s, committed, from, rows);
        var toks := [pending[|pending| - 1]] + committed[..n - 1];
        var hids := [hidden.value] + rows[..n - 1];
        cache := cache + Zip(hids, toks);
        histLen := histLen + n;
      }
    }

    method Commit(tail: seq<Token>)
      modifies this`pending, this`hidden
      ensures pending == old(pending) + tail && hidden == None
    {
      pending := pending + tail;
      hidden := None;
    }

    method SetHidden(h: Hid)
      modifies this`hidden
      ensures hidden == Some(h)
    {
      hidden := Some(h);
    }
  }
}
