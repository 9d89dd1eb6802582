/** Committing part of a verify window without running the model again: the
    capture forward keeps each recurrent layer's convolution input, recurrence
    inputs and starting state; the prefix commit replays the recurrence alone. */
module GdnCapture {
  import opened Collections
  import opened Network

  datatype Captured = Captured(layer: Layer, convInput: seq<Row>, gates: seq<Gate>, stateIn: Rec)

  /** What layer i reads during a window: the previous layer's outputs. */
  function Inputs(ls: seq<Layer>, cache: seq<Entry>, hs: seq<Hid>, i: nat): (x: seq<Hid>)
    requires AllFit(ls, cache) && i <= |ls|
    ensures |x| == |hs|
  {
    if i == 0 then hs else WindowEntry(ls[i - 1], cache[i - 1], Inputs(ls, cache, hs, i - 1)).1
  }

  lemma {:induction false} InputsShift(ls: seq<Layer>, cache: seq<Entry>, hs: seq<Hid>, i: nat)
    requires AllFit(ls, cache) && i < |ls|
    ensures Inputs(ls, cache, hs, i + 1)
         == Inputs(ls[1..], cache[1..], WindowEntry(ls[0], cache[0], hs).1, i)
  {
    hide WindowEntry, Fits;
    if i == 0 {
      assert Inputs(ls, cache, hs, 0) == hs;
    } else {
      InputsShift(ls, cache, hs, i - 1);
      assert ls[i] == ls[1..][i - 1] && cache[i] == cache[1..][i - 1];
    }
  }

  /** The window forward, seen at one layer. */
  lemma {:induction false} WindowNetAt(ls: seq<Layer>, cache: seq<Entry>, hs: seq<Hid>)
    requires AllFit(ls, cache)
    ensures var (c, out) := WindowNet(ls, cache, hs);
            && out == Inputs(ls, cache, hs, |ls|)
            && forall i :: 0 <= i < |ls| ==> c[i] == WindowEntry(ls[i], cache[i], Inputs(ls, cache, hs, i)).0
  {
    if ls != [] {
      var os := WindowEntry(ls[0], cache[0], hs).1;
      WindowNetAt(ls[1..], cache[1..], os);
      InputsShift(ls, cache, hs, |ls| - 1);
      var c := WindowNet(ls, cache, hs).0;
      forall i | 0 < i < |ls|
        ensures c[i] == WindowEntry(ls[i], cache[i], Inputs(ls, cache, hs, i)).0
      {
        InputsShift(ls, cache, hs, i - 1);
        assert c[i] == WindowNet(ls[1..], cache[1..], os).0[i - 1];
      }
    }
  }

  lemma {:induction false} RunEntryPrefix(l: Layer, e: Entry, hs: seq<Hid>, k: nat)
    requires Fits(l, e) && k <= |hs|
    ensures RunEntry(l, e, hs[..k]).1 == RunEntry(l, e, hs).1[..k]
    decreases |hs|
  {
    if k > 0 {
      RunEntryPrefix(l, StepEntry(l, e, hs[0]).0, hs[1..], k - 1);
      assert hs[..k][1..] == hs[1..][..k - 1];
    }
  }

  /** A shorter window feeds every layer the same positions. */
  lemma {:induction false} InputsPrefix(ls: seq<Layer>, cache: seq<Entry>, hs: seq<Hid>, k: nat, i: nat)
    requires AllFit(ls, cache) && k <= |hs| && i <= |ls|
    ensures Inputs(ls, cache, hs[..k], i) == Inputs(ls, cache, hs, i)[..k]
  {
    hide WindowEntry, RunEntry, Fits;
    if i > 0 {
      InputsPrefix(ls, cache, hs, k, i - 1);
      var x := Inputs(ls, cache, hs, i - 1);
      WindowIsRun(ls[i - 1], cache[i - 1], x);
      WindowIsRun(ls[i - 1], cache[i - 1], x[..k]);
      RunEntryPrefix(ls[i - 1], cache[i - 1], x, k);
    }
  }

  // ---- the capture forward --------------------------------------------------

  function Record(l: Layer, e: Entry, x: seq<Hid>): Captured
    requires l.Recurrent? && Fits(l, e)
  {
    var conv := ConvState(l, e) + Rows(l.qkv, x);
    Captured(l, conv, Gates(l, conv, x), RecState(l, e))
  }

  /** What a capture forward must have recorded when it returns. */
  ghost predicate Covers(ls: seq<Layer>, cache: seq<Entry>, hs: seq<Hid>, caps: map<nat, Captured>)
    requires AllFit(ls, cache)
  {
    && (forall i: nat :: i in caps <==> i < |ls| && ls[i].Recurrent?)
    && (forall i :: i in caps ==> caps[i] == Record(ls[i], cache[i], Inputs(ls, cache, hs, i)))
  }

  /** One recurrent layer under capture: the same window, with its inputs kept. */
  method CaptureEntry(l: Layer, e: Entry, x: seq<Hid>) returns (e': Entry, out: seq<Hid>, cap: Captured)
    requires l.Recurrent? && Fits(l, e) && x != []
    ensures (e', out) == WindowEntry(l, e, x)
    ensures cap == Record(l, e, x)
  {
    var conv := ConvState(l, e) + Rows(l.qkv, x);
    var gates, stateIn := Gates(l, conv, x), RecState(l, e);
    cap := Captured(l, conv, gates, stateIn);
    e' := Gdn(Some(conv[|x|..]), Some(Fold(l, stateIn, gates)));
    out := seq(|x|, i requires 0 <= i < |x| => l.emit(Fold(l, stateIn, gates[..i + 1]), gates[i], x[i]));
    assert out == WindowEntry(l, e, x).1;
  }

  /** The capture dictionary after a window: one record per recurrent layer. */
  function Captures(ls: seq<Layer>, cache: seq<Entry>, hs: seq<Hid>): (caps: map<nat, Captured>)
    requires AllFit(ls, cache)
    ensures Covers(ls, cache, hs, caps)
  {
    map i: nat | i < |ls| && ls[i].Recurrent? :: Record(ls[i], cache[i], Inputs(ls, cache, hs, i))
  }

  // ---- the prefix commit ----------------------------------------------------

  function CutEntry(e: Entry, trim: nat): Entry {
    if e.Gdn? then e else Trim(e, trim)
  }

  function Replayed(c: Captured, keep: nat): Entry
    requires c.layer.Recurrent? && keep <= |c.gates| && |c.convInput| == c.layer.keep + |c.gates|
  {
    Gdn(Some(c.convInput[keep..keep + c.layer.keep]), Some(Fold(c.layer, c.stateIn, c.gates[..keep])))
  }

  /** The commit declines, and must then leave every cache alone, unless the
      captures cover every recurrent layer of a window that keep falls inside. */
  predicate Commits(ls: seq<Layer>, cache: seq<Entry>, caps: map<nat, Captured>, keep: int, verified: nat) {
    && caps != map[] && 0 < keep <= verified && |ls| == |cache|
    && forall i :: 0 <= i < |ls| ==> if ls[i].Recurrent? then i in caps else !cache[i].Gdn?
  }

  method CommitPrefix(ls: seq<Layer>, cache: array<Entry>, caps: map<nat, Captured>, keep: int, verified: nat)
    returns (ok: bool)
    requires forall i :: i in caps ==>
      && caps[i].layer.Recurrent? && |caps[i].gates| == verified
      && |caps[i].convInput| == caps[i].layer.keep + verified
    modifies cache
    ensures ok == Commits(ls, old(cache[..]), caps, keep, verified)
    ensures !ok || keep == verified ==> cache[..] == old(cache[..])
    ensures ok && keep < verified ==> forall i :: 0 <= i < |ls| ==>
      cache[i] == if ls[i].Recurrent? then Replayed(caps[i], keep) else CutEntry(old(cache[i]), verified - keep)
  {
    if caps == map[] || keep <= 0 || keep > verified { return false; }
    if |ls| != cache.Length { return false; }
    // Validate every layer before mutating any of them.
    for i := 0 to |ls|
      invariant forall j :: 0 <= j < i ==> if ls[j].Recurrent? then j in caps else !cache[j].Gdn?
    {
      if ls[i].Recurrent? {
        if i !in caps { return false; }
      } else if cache[i].Gdn? {
        return false;
      }
    }
    var trim := verified - keep;
    for i := 0 to |ls|
      invariant trim == 0 ==> cache[..] == old(cache[..])
      invariant forall j :: i <= j < |ls| ==> cache[j] == old(cache[j])
      invariant trim > 0 ==> forall j :: 0 <= j < i ==>
        cache[j] == if ls[j].Recurrent? then Replayed(caps[j], keep) else CutEntry(old(cache[j]), trim)
    {
      if trim > 0 {
        if ls[i].Recurrent? {
          cache[i] := Replayed(caps[i], keep);
        } else {
          cache[i] := CutEntry(cache[i], trim);
        }
      }
    }
    return true;
  }

  /** The replayed recurrence and the sliced convolution input are the state a
      run of the kept positions alone would have left. */
  lemma ReplayIsPrefixRun(l: Layer, e: Entry, x: seq<Hid>, keep: nat)
    requires l.Recurrent? && Fits(l, e) && 0 < keep <= |x|
    ensures Replayed(Record(l, e, x), keep) == WindowEntry(l, e, x[..keep]).0
  {
    var conv, conv' := ConvState(l, e) + Rows(l.qkv, x), ConvState(l, e) + Rows(l.qkv, x[..keep]);
    assert conv[keep..keep + l.keep] == conv'[keep..];
    forall i | 0 <= i < keep
      ensures Gates(l, conv, x)[i] == Gates(l, conv', x[..keep])[i]
    {
      assert conv[i..i + l.keep + 1] == conv'[i..i + l.keep + 1];
    }
    assert Gates(l, conv, x)[..keep] == Gates(l, conv', x[..keep]);
  }

  lemma TrimIsPrefixRun(l: Layer, e: Entry, x: seq<Hid>, keep: nat)
    requires l.Attention? && Fits(l, e) && keep <= |x|
    ensures Trim(WindowEntry(l, e, x).0, |x| - keep) == WindowEntry(l, e, x[..keep]).0
  {
    var rows := e.rows + Rows(l.row, x);
    assert rows[..|rows| - (|x| - keep)] == e.rows + Rows(l.row, x[..keep]);
  }

  /** A sliding window gives part of what it took back exactly if it has not wrapped
      by then: rows it has let go of do not return. */
  lemma WindowTrimIff(l: Layer, e: Entry, x: seq<Hid>, keep: nat)
    requires l.Sliding? && Fits(l, e) && 0 < keep < |x|
    ensures Trim(WindowEntry(l, e, x).0, |x| - keep) == WindowEntry(l, e, x[..keep]).0 <==> e.offset + |x| <= l.size
  {
    var rows, kept := e.held + Rows(l.slideRow, x), e.held + Rows(l.slideRow, x[..keep]);
    assert rows[..|kept|] == kept;
    if e.offset + |x| <= l.size {
      assert Latest(rows, l.size) == rows && Latest(kept, l.size) == kept;
    } else {
      assert |Trim(WindowEntry(l, e, x).0, |x| - keep).held| < |WindowEntry(l, e, x[..keep]).0.held|;
    }
  }

  /** The window's captures always let the commit go through, unless there is no
      recurrent layer to have captured. */
  ghost predicate HasRecurrent(ls: seq<Layer>) {
    exists i :: 0 <= i < |ls| && ls[i].Recurrent?
  }

  lemma CaptureCommits(ls: seq<Layer>, cache: seq<Entry>, hs: seq<Hid>, caps: map<nat, Captured>, keep: int)
    requires AllFit(ls, cache) && Covers(ls, cache, hs, caps)
    ensures Commits(ls, WindowNet(ls, cache, hs).0, caps, keep, |hs|)
        <==> 0 < keep <= |hs| && HasRecurrent(ls)
  {
    var c := WindowNet(ls, cache, hs).0;
    forall i | 0 <= i < |ls| ensures Fits(ls[i], c[i]) {
      WindowNetAt(ls, cache, hs);
      WindowIsRun(ls[i], cache[i], Inputs(ls, cache, hs, i));
    }
    if HasRecurrent(ls) {
      var i: nat :| i < |ls| && ls[i].Recurrent?;
      assert i in caps;
    } else {
      assert caps.Keys == {};
      assert caps == map[];
    }
  }

  /** Committing keep positions of a captured window leaves exactly the caches a
      run of those positions alone leaves, precisely when no sliding window has
      wrapped by the window's end. */
  lemma CommitIsPrefixRun(ls: seq<Layer>, cache: seq<Entry>, hs: seq<Hid>, caps: map<nat, Captured>, keep: nat, after: seq<Entry>)
    requires AllFit(ls, cache) && Covers(ls, cache, hs, caps)
    requires 0 < keep < |hs| && |after| == |ls|
    requires forall i :: 0 <= i < |ls| ==>
      && (ls[i].Recurrent? ==> i in caps)
      && Fits(ls[i], WindowNet(ls, cache, hs).0[i])
      && after[i] == if ls[i].Recurrent? then Replayed(caps[i], keep) else CutEntry(WindowNet(ls, cache, hs).0[i], |hs| - keep)
    ensures after == WindowNet(ls, cache, hs[..keep]).0 <==> Unwrapped(ls, cache, |hs|)
  {
    hide WindowEntry, WindowNet, Inputs, Record, Replayed, Trim, Least;
    WindowNetAt(ls, cache, hs);
    WindowNetAt(ls, cache, hs[..keep]);
    forall i | 0 <= i < |ls|
      ensures after[i] == WindowNet(ls, cache, hs[..keep]).0[i] <==> (ls[i].Sliding? ==> cache[i].offset + |hs| <= ls[i].size)
    {
      var x := Inputs(ls, cache, hs, i);
      InputsPrefix(ls, cache, hs, keep, i);
      match ls[i]
      case Attention(_, _) => TrimIsPrefixRun(ls[i], cache[i], x, keep);
      case Recurrent(_, _, _, _, _, _, _) => ReplayIsPrefixRun(ls[i], cache[i], x, keep);
      case Sliding(_, _, _) => WindowTrimIff(ls[i], cache[i], x, keep);
    }
  }

  /** n more positions wrap no sliding window. */
  ghost predicate Unwrapped(ls: seq<Layer>, cache: seq<Entry>, n: nat)
    requires AllFit(ls, cache)
  {
    forall i :: 0 <= i < |ls| && ls[i].Sliding? ==> cache[i].offset + n <= ls[i].size
  }
}
