/** The layered model behind one cache list, and the worker's snapshot and rollback. */
module Network {
  import opened Collections

  // A layer turns the hidden state of one position into the next layer's, reading
  // and updating its own cache entry. Numbers are abstract: a layer is whatever
  // functions it is made of.

  type Token(==, !new)
  type Hid(==, !new)   // hidden state of one position
  type Row(==, !new)   // one attention KV row, or one convolution input
  type Gate(==, !new)  // one position's recurrence input: q, k, v, a, b
  type Rec(==, !new)   // a recurrent state

  type Size = n: nat | n > 0 witness 1

  datatype Layer =
    | Attention(row: Hid -> Row, attend: (seq<Row>, Hid) -> Hid)
    | Recurrent(keep: nat, zero: Row, qkv: Hid -> Row, gate: (seq<Row>, Hid) -> Gate,
                blank: Rec, update: (Rec, Gate) -> Rec, emit: (Rec, Gate, Hid) -> Hid)
    | Sliding(size: Size, slideRow: Hid -> Row, read: (seq<Row>, Hid) -> Hid)

  /** One cache entry. A recurrent entry starts with both of its slots unset; a
      sliding window holds its last rows and how many there have been. */
  datatype Entry =
    | Kv(rows: seq<Row>)
    | Gdn(conv: Option<seq<Row>>, rec: Option<Rec>)
    | Window(held: seq<Row>, offset: nat)

  ghost predicate Fits(l: Layer, e: Entry) {
    match l
    case Attention(_, _) => e.Kv?
    case Recurrent(keep, _, _, _, _, _, _) => e.Gdn? && (e.conv.Some? ==> |e.conv.value| == keep)
    case Sliding(size, _, _) => e.Window? && |e.held| == Least(size, e.offset)
  }

  ghost predicate AllFit(ls: seq<Layer>, cache: seq<Entry>) {
    |ls| == |cache| && forall i :: 0 <= i < |ls| ==> Fits(ls[i], cache[i])
  }

  function ConvState(l: Layer, e: Entry): (conv: seq<Row>)
    requires l.Recurrent? && Fits(l, e)
    ensures |conv| == l.keep
  {
    if e.conv.Some? then e.conv.value else seq(l.keep, _ => l.zero)
  }

  function RecState(l: Layer, e: Entry): Rec
    requires l.Recurrent? && e.Gdn?
  {
    if e.rec.Some? then e.rec.value else l.blank
  }

  // ---- the reference: one position at a time -------------------------------

  function StepEntry(l: Layer, e: Entry, h: Hid): (r: (Entry, Hid))
    requires Fits(l, e)
    ensures Fits(l, r.0)
  {
    match l
    case Attention(row, attend) =>
      var rows := e.rows + [row(h)];
      (Kv(rows), attend(rows, h))
    case Recurrent(keep, _, qkv, gate, _, update, emit) =>
      var taps := ConvState(l, e) + [qkv(h)];
      var g := gate(taps, h);
      var s := update(RecState(l, e), g);
      (Gdn(Some(taps[1..]), Some(s)), emit(s, g, h))
    case Sliding(size, row, read) =>
      var held := Latest(e.held + [row(h)], size);
      (Window(held, e.offset + 1), read(held, h))
  }

  /** A layer fed a whole window position by position. */
  function RunEntry(l: Layer, e: Entry, hs: seq<Hid>): (r: (Entry, seq<Hid>))
    requires Fits(l, e)
    ensures Fits(l, r.0) && |r.1| == |hs|
    decreases |hs|
  {
    if hs == [] then (e, [])
    else
      var (e1, o) := StepEntry(l, e, hs[0]);
      var (e2, os) := RunEntry(l, e1, hs[1..]);
      (e2, [o] + os)
  }

  /** Every layer fed one position: what a plain decode step does. */
  function StepNet(ls: seq<Layer>, cache: seq<Entry>, h: Hid): (r: (seq<Entry>, Hid))
    requires AllFit(ls, cache)
    ensures AllFit(ls, r.0)
  {
    if ls == [] then ([], h)
    else
      var (e, o) := StepEntry(ls[0], cache[0], h);
      var (rest, out) := StepNet(ls[1..], cache[1..], o);
      ([e] + rest, out)
  }

  /** Plain decoding of a token run: the meaning every other path must match. */
  function RunNet(ls: seq<Layer>, cache: seq<Entry>, hs: seq<Hid>): (r: (seq<Entry>, seq<Hid>))
    requires AllFit(ls, cache)
    ensures AllFit(ls, r.0) && |r.1| == |hs|
    decreases |hs|
  {
    if hs == [] then (cache, [])
    else
      var (c1, o) := StepNet(ls, cache, hs[0]);
      var (c2, os) := RunNet(ls, c1, hs[1..]);
      (c2, [o] + os)
  }

  // ---- the window forward: layer by layer, all positions at once -----------

  function Rows(row: Hid -> Row, hs: seq<Hid>): (r: seq<Row>)
    ensures |r| == |hs|
  {
    seq(|hs|, i requires 0 <= i < |hs| => row(hs[i]))
  }

  /** The recurrence inputs of a window, read off the concatenated convolution input. */
  function Gates(l: Layer, conv: seq<Row>, hs: seq<Hid>): (r: seq<Gate>)
    requires l.Recurrent? && |conv| == l.keep + |hs|
    ensures |r| == |hs|
  {
    seq(|hs|, i requires 0 <= i < |hs| => l.gate(conv[i..i + l.keep + 1], hs[i]))
  }

  function Fold(l: Layer, s: Rec, gs: seq<Gate>): Rec
    requires l.Recurrent?
  {
    if gs == [] then s else Fold(l, l.update(s, gs[0]), gs[1..])
  }

  function WindowEntry(l: Layer, e: Entry, hs: seq<Hid>): (r: (Entry, seq<Hid>))
    requires Fits(l, e)
    ensures |r.1| == |hs|
  {
    match l
    case Attention(row, attend) =>
      var rows := e.rows + Rows(row, hs);
      (Kv(rows), seq(|hs|, i requires 0 <= i < |hs| => attend(rows[..|e.rows| + i + 1], hs[i])))
    case Recurrent(keep, _, qkv, _, _, _, emit) =>
      var conv := ConvState(l, e) + Rows(qkv, hs);
      var gs := Gates(l, conv, hs);
      var s0 := RecState(l, e);
      (if hs == [] then e else Gdn(Some(conv[|hs|..]), Some(Fold(l, s0, gs))),
       seq(|hs|, i requires 0 <= i < |hs| => emit(Fold(l, s0, gs[..i + 1]), gs[i], hs[i])))
    case Sliding(size, row, read) =>
      var rows := e.held + Rows(row, hs);
      (Window(Latest(rows, size), e.offset + |hs|),
       seq(|hs|, i requires 0 <= i < |hs| => read(Latest(rows[..|e.held| + i + 1], size), hs[i])))
  }

  lemma FoldPrefix(l: Layer, s: Rec, g: Gate, gs: seq<Gate>)
    requires l.Recurrent?
    ensures Fold(l, s, [g] + gs) == Fold(l, l.update(s, g), gs)
  {
    assert ([g] + gs)[1..] == gs;
  }

  lemma {:induction false} AttentionWindow(l: Layer, e: Entry, hs: seq<Hid>)
    requires l.Attention? && Fits(l, e)
    ensures WindowEntry(l, e, hs) == RunEntry(l, e, hs)
    decreases |hs|
  {
    if hs == [] {
      assert e.rows + Rows(l.row, hs) == e.rows;
    } else {
      var (e1, o) := StepEntry(l, e, hs[0]);
      AttentionWindow(l, e1, hs[1..]);
      var rows := e.rows + Rows(l.row, hs);
      assert rows == e1.rows + Rows(l.row, hs[1..]);
      assert rows[..|e.rows| + 1] == e1.rows;
      forall i | 0 <= i < |hs|
        ensures WindowEntry(l, e, hs).1[i] == ([o] + WindowEntry(l, e1, hs[1..]).1)[i]
      {
        assert i > 0 ==> rows[..|e.rows| + i + 1] == rows[..|e1.rows| + (i - 1) + 1];
      }
      assert WindowEntry(l, e, hs).1 == [o] + WindowEntry(l, e1, hs[1..]).1;
    }
  }

  /** The window's convolution input and recurrence inputs, one position in. */
  lemma RecurrentShift(l: Layer, e: Entry, hs: seq<Hid>)
    requires l.Recurrent? && Fits(l, e) && hs != []
    ensures var e1 := StepEntry(l, e, hs[0]).0;
            var conv := ConvState(l, e) + Rows(l.qkv, hs);
            var conv1 := ConvState(l, e1) + Rows(l.qkv, hs[1..]);
            && conv[1..] == conv1
            && conv[..l.keep + 1] == ConvState(l, e) + [l.qkv(hs[0])]
            && Gates(l, conv, hs) == [l.gate(conv[..l.keep + 1], hs[0])] + Gates(l, conv1, hs[1..])
  {
    var e1 := StepEntry(l, e, hs[0]).0;
    var conv := ConvState(l, e) + Rows(l.qkv, hs);
    var conv1 := ConvState(l, e1) + Rows(l.qkv, hs[1..]);
    assert conv[1..] == conv1;
    assert conv[..l.keep + 1] == ConvState(l, e) + [l.qkv(hs[0])];
    forall i | 0 < i < |hs|
      ensures Gates(l, conv, hs)[i] == Gates(l, conv1, hs[1..])[i - 1]
    {
      assert conv[i..i + l.keep + 1] == conv1[i - 1..i - 1 + l.keep + 1];
    }
  }

  lemma {:induction false} RecurrentWindow(l: Layer, e: Entry, hs: seq<Hid>)
    requires l.Recurrent? && Fits(l, e)
    ensures WindowEntry(l, e, hs) == RunEntry(l, e, hs)
    decreases |hs|
  {
    if hs != [] {
      var (e1, o) := StepEntry(l, e, hs[0]);
      RecurrentShift(l, e, hs);
      RecurrentWindow(l, e1, hs[1..]);
      var conv := ConvState(l, e) + Rows(l.qkv, hs);
      var conv1 := ConvState(l, e1) + Rows(l.qkv, hs[1..]);
      var gs, gs1 := Gates(l, conv, hs), Gates(l, conv1, hs[1..]);
      var s0, s1 := RecState(l, e), RecState(l, e1);
      assert conv[|hs|..] == conv1[|hs| - 1..];
      FoldPrefix(l, s0, gs[0], gs1);
      var w, w1 := WindowEntry(l, e, hs), WindowEntry(l, e1, hs[1..]);
      assert w.0 == w1.0 by {
        if |hs| == 1 { assert conv1[0..] == ConvState(l, e1); }
      }
      forall i | 0 <= i < |hs| ensures w.1[i] == ([o] + w1.1)[i] {
        if i > 0 {
          assert gs[..i + 1] == [gs[0]] + gs1[..i];
          FoldPrefix(l, s0, gs[0], gs1[..i]);
        } else {
          assert gs[..1] == [gs[0]];
          FoldPrefix(l, s0, gs[0], []);
          assert [gs[0]] + [] == [gs[0]];
        }
      }
      assert w.1 == [o] + w1.1;
    }
  }

  /** Row by row or all at once, the same rows are held behind the first i. */
  lemma HeldRows(held: seq<Row>, row: Row, rest: seq<Row>, size: nat, i: nat)
    requires i <= |rest|
    ensures var now := Latest(held + [row], size);
      Latest((now + rest)[..|now| + i], size) == Latest((held + ([row] + rest))[..|held| + i + 1], size)
  {
    var now := Latest(held + [row], size);
    LatestOfLatest(held + [row], rest[..i], size);
    assert (now + rest)[..|now| + i] == now + rest[..i];
    assert (held + ([row] + rest))[..|held| + i + 1] == (held + [row]) + rest[..i];
  }

  lemma {:induction false} SlidingWindow(l: Layer, e: Entry, hs: seq<Hid>)
    requires l.Sliding? && Fits(l, e)
    ensures WindowEntry(l, e, hs) == RunEntry(l, e, hs)
    decreases |hs|
  {
    hide Latest, Least, Rows;
    if hs == [] {
      HeldWhole(e.held, l.size, e.offset);
      assert e.held + Rows(l.slideRow, hs) == e.held;
    } else {
      SlidingPeel(l, e, hs);
      var (e1, o) := StepEntry(l, e, hs[0]);
      hide WindowEntry, StepEntry;
      SlidingWindow(l, e1, hs[1..]);
    }
  }

  /** A sliding window taken one position in. */
  lemma SlidingPeel(l: Layer, e: Entry, hs: seq<Hid>)
    requires l.Sliding? && Fits(l, e) && hs != []
    ensures var (e1, o) := StepEntry(l, e, hs[0]); var (out, os) := WindowEntry(l, e1, hs[1..]);
      Fits(l, e1) && WindowEntry(l, e, hs) == (out, [o] + os)
  {
    hide Latest, Least, Rows, StepEntry, WindowEntry;
    SlidingHeld(l, e, hs);
    SlidingReads(l, e, hs);
    var (e1, o) := StepEntry(l, e, hs[0]);
    assert WindowEntry(l, e, hs).1 == [o] + WindowEntry(l, e1, hs[1..]).1;
  }

  lemma SlidingHeld(l: Layer, e: Entry, hs: seq<Hid>)
    requires l.Sliding? && Fits(l, e) && hs != []
    ensures var e1 := StepEntry(l, e, hs[0]).0; Fits(l, e1) && WindowEntry(l, e, hs).0 == WindowEntry(l, e1, hs[1..]).0
  {
    RowsPeel(l.slideRow, hs);
    HeldAll(e.held, l.slideRow(hs[0]), Rows(l.slideRow, hs[1..]), l.size);
    assert Fits(l, StepEntry(l, e, hs[0]).0);
    hide Latest, Least, Rows;
  }

  lemma SlidingReads(l: Layer, e: Entry, hs: seq<Hid>)
    requires l.Sliding? && Fits(l, e) && hs != []
    ensures var (e1, o) := StepEntry(l, e, hs[0]); var os, os1 := WindowEntry(l, e, hs).1, WindowEntry(l, e1, hs[1..]).1;
      |os| == |os1| + 1 == |hs| && os[0] == o && forall i :: 0 < i < |hs| ==> os[i] == os1[i - 1]
  {
    hide Latest, Least, Rows;
    SlidingFirst(l, e, hs);
    forall i | 0 < i < |hs| ensures WindowEntry(l, e, hs).1[i] == WindowEntry(l, StepEntry(l, e, hs[0]).0, hs[1..]).1[i - 1] {
      SlidingRead(l, e, hs, i);
    }
  }

  lemma SlidingFirst(l: Layer, e: Entry, hs: seq<Hid>)
    requires l.Sliding? && Fits(l, e) && hs != []
    ensures WindowEntry(l, e, hs).1[0] == StepEntry(l, e, hs[0]).1
  {
    var row, rest := l.slideRow(hs[0]), Rows(l.slideRow, hs[1..]);
    RowsPeel(l.slideRow, hs);
    hide Latest, Least, Rows;
    assert (e.held + ([row] + rest))[..|e.held| + 1] == e.held + [row];
  }

  lemma SlidingRead(l: Layer, e: Entry, hs: seq<Hid>, i: nat)
    requires l.Sliding? && Fits(l, e) && 0 < i < |hs|
    ensures WindowEntry(l, e, hs).1[i] == WindowEntry(l, StepEntry(l, e, hs[0]).0, hs[1..]).1[i - 1]
  {
    var row, rest := l.slideRow(hs[0]), Rows(l.slideRow, hs[1..]);
    RowsPeel(l.slideRow, hs);
    hide Latest, Least, Rows;
    HeldRows(e.held, row, rest, l.size, i);
  }

  lemma RowsPeel(row: Hid -> Row, hs: seq<Hid>)
    requires hs != []
    ensures Rows(row, hs) == [row(hs[0])] + Rows(row, hs[1..])
  {
  }

  lemma HeldAll(held: seq<Row>, row: Row, rest: seq<Row>, size: nat)
    ensures Latest(Latest(held + [row], size) + rest, size) == Latest(held + ([row] + rest), size)
  {
    LatestOfLatest(held + [row], rest, size);
    assert (held + [row]) + rest == held + ([row] + rest);
  }

  lemma HeldWhole(held: seq<Row>, size: nat, offset: nat)
    requires |held| == Least(size, offset)
    ensures Latest(held, size) == held
  {
  }

  /** A layer's one-shot window equals feeding it position by position. */
  lemma WindowIsRun(l: Layer, e: Entry, hs: seq<Hid>)
    requires Fits(l, e)
    ensures WindowEntry(l, e, hs) == RunEntry(l, e, hs)
  {
    match l
    case Attention(_, _) => AttentionWindow(l, e, hs);
    case Recurrent(_, _, _, _, _, _, _) => RecurrentWindow(l, e, hs);
    case Sliding(_, _, _) => SlidingWindow(l, e, hs);
  }

  /** The forward the worker calls: each layer takes the whole window in turn. */
  function WindowNet(ls: seq<Layer>, cache: seq<Entry>, hs: seq<Hid>): (r: (seq<Entry>, seq<Hid>))
    requires AllFit(ls, cache)
    ensures |r.0| == |ls| && |r.1| == |hs|
  {
    if ls == [] then ([], hs)
    else
      var (e, os) := WindowEntry(ls[0], cache[0], hs);
      var (rest, outs) := WindowNet(ls[1..], cache[1..], os);
      ([e] + rest, outs)
  }

  lemma {:induction false} WindowNetEmpty(ls: seq<Layer>, cache: seq<Entry>)
    requires AllFit(ls, cache)
    ensures WindowNet(ls, cache, []) == (cache, [])
  {
    if ls != [] {
      WindowIsRun(ls[0], cache[0], []);
      WindowNetEmpty(ls[1..], cache[1..]);
      assert WindowEntry(ls[0], cache[0], []) == (cache[0], []);
      assert cache == [cache[0]] + cache[1..];
    }
  }

  lemma {:induction false} WindowNetPeel(ls: seq<Layer>, cache: seq<Entry>, hs: seq<Hid>)
    requires AllFit(ls, cache) && hs != []
    ensures var (c1, o) := StepNet(ls, cache, hs[0]);
            var (c2, os) := WindowNet(ls, c1, hs[1..]);
            WindowNet(ls, cache, hs) == (c2, [o] + os)
  {
    if ls == [] {
      assert hs == [hs[0]] + hs[1..];
    } else {
      var l := ls[0];
      WindowIsRun(l, cache[0], hs);
      var (e1, o1) := StepEntry(l, cache[0], hs[0]);
      WindowIsRun(l, e1, hs[1..]);
      var os := WindowEntry(l, cache[0], hs).1;
      assert os[1..] == WindowEntry(l, e1, hs[1..]).1;
      WindowNetPeel(ls[1..], cache[1..], os);
      var (c1, o) := StepNet(ls, cache, hs[0]);
      assert c1[1..] == StepNet(ls[1..], cache[1..], o1).0;
      assert c1[0] == e1;
    }
  }

  /** One window forward, layer by layer, is exactly the plain decode steps of its
      positions: same caches, same hidden state at every position. */
  lemma {:induction false} WindowForwardIsDecode(ls: seq<Layer>, cache: seq<Entry>, hs: seq<Hid>)
    requires AllFit(ls, cache)
    ensures WindowNet(ls, cache, hs) == RunNet(ls, cache, hs)
    decreases |hs|
  {
    if hs == [] {
      WindowNetEmpty(ls, cache);
    } else {
      WindowNetPeel(ls, cache, hs);
      WindowForwardIsDecode(ls, StepNet(ls, cache, hs[0]).0, hs[1..]);
    }
  }

  lemma {:induction false} RunNetSplit(ls: seq<Layer>, cache: seq<Entry>, a: seq<Hid>, b: seq<Hid>)
    requires AllFit(ls, cache)
    ensures var (c1, o1) := RunNet(ls, cache, a);
            var (c2, o2) := RunNet(ls, c1, b);
            RunNet(ls, cache, a + b) == (c2, o1 + o2)
    decreases |a|
  {
    if a == [] {
      assert a + b == b;
      assert [] + RunNet(ls, cache, b).1 == RunNet(ls, cache, b).1;
    } else {
      var (c1, o) := StepNet(ls, cache, a[0]);
      RunNetSplit(ls, c1, a[1..], b);
      assert (a + b)[1..] == a[1..] + b && (a + b)[0] == a[0];
      var (c2, o1) := RunNet(ls, c1, a[1..]);
      var o2 := RunNet(ls, c2, b).1;
      assert [o] + (o1 + o2) == ([o] + o1) + o2;
    }
  }

  // ---- snapshot and rollback ------------------------------------------------

  /** None is the rewind-by-trimming mark of a plain KV cache. */
  function Snapshot(e: Entry): Option<Entry> {
    if e.Kv? then None else Some(e)
  }

  /** The entry's own `trim`: the last rows go, and the position goes back. */
  function Trim(e: Entry, n: nat): Entry
    requires !e.Gdn?
  {
    if e.Kv? then Kv(e.rows[..|e.rows| - Least(n, |e.rows|)])
    else Window(e.held[..|e.held| - Least(n, |e.held|)], e.offset - Least(n, e.offset))
  }

  function Rollback(e: Entry, snap: Option<Entry>, n: nat): Entry
    requires snap.None? ==> e.Kv?
  {
    match snap
    case None => Trim(e, n)
    case Some(s) => s
  }

  /** A layer rolled back by the window's length is back where the window began. */
  lemma RollbackUndoesWindow(l: Layer, e: Entry, hs: seq<Hid>)
    requires Fits(l, e)
    ensures Fits(l, WindowEntry(l, e, hs).0)
    ensures Rollback(WindowEntry(l, e, hs).0, Snapshot(e), |hs|) == e
  {
    WindowIsRun(l, e, hs);
    if l.Attention? {
      assert (e.rows + Rows(l.row, hs))[..|e.rows|] == e.rows;
    }
  }
}
