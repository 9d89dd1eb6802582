/** The second-model drafter: its own caches, kept level with the committed path
    by trimming or by restoring snapshots. */
module DraftLockstep {
  import opened Collections
  import opened Network

  /** One draft cache, by the tokens it has consumed. */
  datatype DraftLayer = DraftLayer(trimmable: bool, toks: seq<Token>)

  datatype DraftState = DraftState(
    layers: seq<DraftLayer>, pending: seq<Token>,
    drafted: nat, draftedTokens: seq<Token>, snaps: seq<Option<DraftLayer>>, fed: seq<Token>)

  function Feed(layers: seq<DraftLayer>, toks: seq<Token>): (r: seq<DraftLayer>)
    ensures |r| == |layers|
  {
    seq(|layers|, i requires 0 <= i < |layers| => layers[i].(toks := layers[i].toks + toks))
  }

  function Drop(l: DraftLayer, n: int): (r: DraftLayer)
    ensures r.trimmable == l.trimmable && r.toks <= l.toks
    ensures |r.toks| == if n <= 0 then |l.toks| else if n <= |l.toks| then |l.toks| - n else 0
  {
    if n <= 0 then l else l.(toks := l.toks[..if n <= |l.toks| then |l.toks| - n else 0])
  }

  function Snaps(layers: seq<DraftLayer>): (r: seq<Option<DraftLayer>>)
    ensures |r| == |layers|
  {
    seq(|layers|, i requires 0 <= i < |layers| => if layers[i].trimmable then None else Some(layers[i]))
  }

  /** What a draft of k tokens leaves behind. The last one was never fed. */
  function Drafted(st: DraftState, drafts: seq<Token>): DraftState
    requires drafts != []
  {
    DraftState(Feed(st.layers, st.pending + drafts[..|drafts| - 1]), [],
               |drafts| - 1, drafts, Snaps(st.layers), st.pending)
  }

  predicate HasSnapshot(st: DraftState) {
    exists i :: 0 <= i < |st.snaps| && st.snaps[i].Some?
  }

  function Prefix(toks: seq<Token>, n: nat): seq<Token> {
    if n <= |toks| then toks[..n] else toks
  }

  function Committed(st: DraftState, accepted: nat, tail: seq<Token>): DraftState
    requires |st.snaps| == |st.layers| || !HasSnapshot(st)
  {
    if HasSnapshot(st) then
      st.(layers := seq(|st.layers|, i requires 0 <= i < |st.layers| && |st.snaps| == |st.layers| =>
            match st.snaps[i] case None => Drop(st.layers[i], st.drafted) case Some(l) => l),
          pending := st.fed + Prefix(st.draftedTokens, accepted) + tail,
          drafted := 0)
    else
      st.(layers := seq(|st.layers|, i requires 0 <= i < |st.layers| =>
            Drop(st.layers[i], st.drafted - accepted)),
          pending := st.pending + tail,
          drafted := 0)
  }

  class DraftModel {
    const k: nat
    var st: DraftState

    constructor (k: nat, trimmable: seq<bool>, input: seq<Token>)
      requires k >= 1 && input != []
      ensures this.k == k && Lockstep(st, input) && !HasSnapshot(st)
      ensures |st.layers| == |trimmable| && forall i :: 0 <= i < |trimmable| ==> st.layers[i].trimmable == trimmable[i]
    {
      var head := input[..|input| - 1];
      this.k := k;
      this.st := DraftState(seq(|trimmable|, i requires 0 <= i < |trimmable| => DraftLayer(trimmable[i], head)),
                            input[|input| - 1..], 0, [], [], []);
    }

    /** next is the draft model: the token its caches predict after what was fed. */
    method Draft(next: seq<DraftLayer> -> Token) returns (drafts: seq<Token>)
      requires k >= 1
      modifies this`st
      ensures |drafts| == k && st == Drafted(old(st), drafts)
      ensures forall i :: 0 <= i < k ==> drafts[i] == next(Feed(old(st.layers), old(st.pending) + drafts[..i]))
    {
      var layers, feed := st.layers, st.pending;
      ghost var fed := [];
      drafts := [];
      assert layers == Feed(st.layers, fed) by {
        forall j | 0 <= j < |layers| ensures layers[j] == Feed(st.layers, fed)[j] {
          assert layers[j].toks + [] == layers[j].toks;
        }
      }
      for i := 0 to k
        invariant |drafts| == i
        invariant feed == if i == 0 then st.pending else [drafts[i - 1]]
        invariant layers == Feed(st.layers, fed)
        invariant fed + feed == st.pending + drafts
        invariant i > 0 ==> fed == st.pending + drafts[..i - 1]
        invariant forall j :: 0 <= j < i ==> drafts[j] == next(Feed(st.layers, st.pending + drafts[..j]))
        invariant st == old(st)
      {
        layers := Feed(layers, feed);
        assert layers == Feed(st.layers, fed + feed) by {
          forall j | 0 <= j < |layers| ensures layers[j] == Feed(st.layers, fed + feed)[j] {
            assert (st.layers[j].toks + fed) + feed == st.layers[j].toks + (fed + feed);
          }
        }
        fed := fed + feed;
        var tok := next(layers);
        drafts := drafts + [tok];
        assert drafts[..i] + [tok] == drafts;
        feed := [tok];
        assert forall j :: 0 <= j < i ==> drafts[..j] == drafts[..i][..j];
      }
      st := DraftState(layers, [], k - 1, drafts, Snaps(st.layers), st.pending);
    }

    method Commit(accepted: nat, tail: seq<Token>)
      requires |st.snaps| == |st.layers| || !HasSnapshot(st)
      modifies this`st
      ensures st == Committed(old(st), accepted, tail)
    {
      if HasSnapshot(st) {
        var layers: seq<DraftLayer> := [];
        for i := 0 to |st.layers|
          invariant |layers| == i && st == old(st)
          invariant layers == Committed(st, accepted, tail).layers[..i]
        {
          layers := layers + [match st.snaps[i] case None => Drop(st.layers[i], st.drafted) case Some(l) => l];
        }
        st := st.(layers := layers, pending := st.fed + Prefix(st.draftedTokens, accepted) + tail, drafted := 0);
      } else {
        var overshoot := st.drafted - accepted;
        var layers := st.layers;
        if overshoot > 0 {
          layers := seq(|st.layers|, i requires 0 <= i < |layers| => Drop(layers[i], overshoot));
        }
        assert layers == Committed(st, accepted, tail).layers;
        st := st.(layers := layers, pending := st.pending + tail, drafted := 0);
      }
    }
  }

  /** Every draft cache plus the tokens waiting for it is the committed path. */
  ghost predicate Lockstep(st: DraftState, path: seq<Token>) {
    && st.pending != []
    && forall i :: 0 <= i < |st.layers| ==> st.layers[i].toks + st.pending == path
  }

  predicate AllTrimmable(st: DraftState) {
    forall i :: 0 <= i < |st.layers| ==> st.layers[i].trimmable
  }

  predicate NoneTrimmable(st: DraftState) {
    forall i :: 0 <= i < |st.layers| ==> !st.layers[i].trimmable
  }

  /** The tail the verify loop hands over: the correction, or the last offered
      draft together with the bonus token. */
  function Tail(offered: seq<Token>, accepted: nat, last: Token): seq<Token>
    requires 0 < |offered| && accepted <= |offered|
  {
    if accepted < |offered| then [last] else [offered[|offered| - 1], last]
  }

  lemma FedLayers(st: DraftState, path: seq<Token>, drafts: seq<Token>)
    requires Lockstep(st, path) && drafts != []
    ensures forall i :: 0 <= i < |st.layers| ==>
      Drafted(st, drafts).layers[i].toks == path + drafts[..|drafts| - 1]
  {
    forall i | 0 <= i < |st.layers|
      ensures Drafted(st, drafts).layers[i].toks == path + drafts[..|drafts| - 1]
    {
      assert st.layers[i].toks + (st.pending + drafts[..|drafts| - 1])
          == (st.layers[i].toks + st.pending) + drafts[..|drafts| - 1];
    }
  }

  /** An all-trimmable drafter stays level with the committed path exactly when
      some offered draft was rejected or the whole chain was offered: a chain cut
      short and then fully accepted leaves its last token in twice. */
  lemma TrimmableLockstep(st: DraftState, path: seq<Token>, drafts: seq<Token>, n: nat, accepted: nat, last: Token)
    requires Lockstep(st, path) && AllTrimmable(st) && st.layers != []
    requires 0 < n <= |drafts| && accepted <= n
    ensures var after := Committed(Drafted(st, drafts), accepted, Tail(drafts[..n], accepted, last));
            Lockstep(after, path + drafts[..accepted] + [last]) <==> accepted < n || n == |drafts|
  {
    var d := Drafted(st, drafts);
    var tail := Tail(drafts[..n], accepted, last);
    var after := Committed(d, accepted, tail);
    FedLayers(st, path, drafts);
    assert !HasSnapshot(d);
    var goal := path + drafts[..accepted] + [last];
    forall i | 0 <= i < |st.layers|
      ensures after.layers[i].toks + after.pending == goal <==> accepted < n || n == |drafts|
    {
      var toks := after.layers[i].toks;
      if accepted < |drafts| {
        assert toks == path + drafts[..accepted] by {
          assert (path + drafts[..|drafts| - 1])[..|path| + accepted] == path + drafts[..accepted];
        }
      } else {
        assert toks == path + drafts[..|drafts| - 1];
        assert drafts[..|drafts| - 1] + [drafts[|drafts| - 1]] == drafts[..accepted];
        assert toks + after.pending == path + (drafts[..|drafts| - 1] + [drafts[|drafts| - 1]]) + [last];
      }
      if accepted == n < |drafts| {
        assert |toks + after.pending| == |goal| + 1;
      }
    }
    assert after.layers[0].toks + after.pending == goal <==> accepted < n || n == |drafts|;
  }

  /** A drafter with any untrimmable cache stays level exactly when none of its
      caches is trimmable and some offered draft was rejected: trimmable caches
      keep the fed tokens that are then fed again, and a full accept hands over a
      last draft that the replayed list already ends with. */
  lemma HybridLockstep(st: DraftState, path: seq<Token>, drafts: seq<Token>, n: nat, accepted: nat, last: Token)
    requires Lockstep(st, path) && !AllTrimmable(st)
    requires 0 < n <= |drafts| && accepted <= n
    ensures var after := Committed(Drafted(st, drafts), accepted, Tail(drafts[..n], accepted, last));
            Lockstep(after, path + drafts[..accepted] + [last]) <==> NoneTrimmable(st) && accepted < n
  {
    var d := Drafted(st, drafts);
    var tail := Tail(drafts[..n], accepted, last);
    var after := Committed(d, accepted, tail);
    FedLayers(st, path, drafts);
    var u :| 0 <= u < |st.layers| && !st.layers[u].trimmable;
    assert d.snaps[u].Some?;
    assert HasSnapshot(d);
    var goal := path + drafts[..accepted] + [last];
    forall i | 0 <= i < |st.layers|
      ensures after.layers[i].toks + after.pending == goal <==> !st.layers[i].trimmable && accepted < n
    {
      if st.layers[i].trimmable {
        assert |after.layers[i].toks| == |path|;
        assert |after.layers[i].toks + after.pending| > |goal|;
      } else {
        assert after.layers[i] == st.layers[i];
        if accepted < n {
          assert st.layers[i].toks + (st.pending + drafts[..accepted] + [last])
              == (st.layers[i].toks + st.pending) + drafts[..accepted] + [last];
        } else {
          assert |after.layers[i].toks + after.pending| == |goal| + 1;
        }
      }
    }
    assert after.layers[u].toks + after.pending == goal <==> accepted < n;
  }

  /** Rounds with no room: each drafts nothing, and its commit hands over one token. */
  function Idled(st: DraftState, more: seq<Token>): (r: DraftState)
    requires |st.snaps| == |st.layers| || !HasSnapshot(st)
    ensures r.snaps == st.snaps && |r.layers| == |st.layers|
  {
    if more == [] then st else Committed(Idled(st, more[..|more| - 1]), 0, [more[|more| - 1]])
  }

  /** Without a snapshot the tokens of idle rounds queue up. */
  lemma {:induction false} IdleQueues(st: DraftState, more: seq<Token>)
    requires !HasSnapshot(st) && st.drafted == 0
    ensures var idle := Idled(st, more); idle.layers == st.layers && idle.pending == st.pending + more && idle.drafted == 0
  {
    if more != [] {
      IdleQueues(st, more[..|more| - 1]);
      assert !HasSnapshot(Idled(st, more[..|more| - 1]));
      assert more == more[..|more| - 1] + [more[|more| - 1]];
    }
  }

  /** With one, every idle round starts over from what was fed before it. */
  lemma IdleStartsOver(st: DraftState, more: seq<Token>, u: nat)
    requires |st.snaps| == |st.layers| && more != [] && u < |st.layers| && st.snaps[u].Some?
    ensures var idle := Idled(st, more); idle.layers[u] == st.snaps[u].value && |idle.pending| == |st.fed| + 1
  {
    var before := Idled(st, more[..|more| - 1]);
    assert before.snaps[u].Some?;
    assert HasSnapshot(before);
    IdleFed(st, more[..|more| - 1]);
  }

  lemma {:induction false} IdleFed(st: DraftState, more: seq<Token>)
    requires |st.snaps| == |st.layers|
    ensures Idled(st, more).fed == st.fed
  {
    if more != [] { IdleFed(st, more[..|more| - 1]); }
  }

  /** A round, and then rounds with no room for drafts: the drafter is level in the
      end exactly if it is all-trimmable and was level after the round, because any
      snapshot of the round is restored again by every idle commit. */
  lemma IdleRoundLockstep(st: DraftState, path: seq<Token>, drafts: seq<Token>, n: nat, accepted: nat, last: Token, more: seq<Token>)
    requires Lockstep(st, path) && st.layers != [] && 0 < n <= |drafts| && accepted <= n && more != []
    ensures var after := Committed(Drafted(st, drafts), accepted, Tail(drafts[..n], accepted, last));
            var idle := Idled(after, more);
            Lockstep(idle, path + drafts[..accepted] + [last] + more) <==> AllTrimmable(st) && (accepted < n || n == |drafts|)
  {
    var d := Drafted(st, drafts);
    var after := Committed(d, accepted, Tail(drafts[..n], accepted, last));
    var path' := path + drafts[..accepted] + [last];
    if AllTrimmable(st) {
      TrimmableLockstep(st, path, drafts, n, accepted, last);
      assert !HasSnapshot(after);
      IdleQueues(after, more);
      SameTail(after, path', Idled(after, more), more);
    } else {
      var u :| 0 <= u < |st.layers| && !st.layers[u].trimmable;
      assert d.snaps[u].Some?;
      IdleStartsOver(after, more, u);
      assert |st.layers[u].toks + st.pending| == |path|;
      assert |Idled(after, more).layers[u].toks + Idled(after, more).pending| == |path| + 1;
    }
  }

  lemma SameTail(st: DraftState, path: seq<Token>, idle: DraftState, more: seq<Token>)
    requires idle.layers == st.layers && idle.pending == st.pending + more && st.pending != []
    ensures Lockstep(idle, path + more) <==> Lockstep(st, path)
  {
    forall i | 0 <= i < |st.layers|
      ensures st.layers[i].toks + idle.pending == path + more <==> st.layers[i].toks + st.pending == path
    {
      assert st.layers[i].toks + idle.pending == (st.layers[i].toks + st.pending) + more;
      SameFront(st.layers[i].toks + st.pending, path, more);
    }
  }

  lemma SameFront(a: seq<Token>, b: seq<Token>, more: seq<Token>)
    ensures a + more == b + more <==> a == b
  {
    if a + more == b + more {
      assert |a + more| == |b + more|;
      assert a == (a + more)[..|a|] && b == (b + more)[..|b|];
    }
  }

  // ---- a whole request -----------------------------------------------------------------

  /** What a round asks of the drafter: a full chain of which as many drafts as had
      room were offered, or nothing if there was none; then what was committed. */
  datatype Turn = Turn(drafts: seq<Token>, offered: nat, accepted: nat, last: Token)

  predicate Possible(t: Turn) {
    t.accepted <= t.offered <= |t.drafts| && (t.drafts != [] ==> t.offered > 0)
  }

  function Turned(st: DraftState, t: Turn): (r: DraftState)
    requires Possible(t) && (|st.snaps| == |st.layers| || !HasSnapshot(st))
    ensures |r.snaps| == |r.layers| || !HasSnapshot(r)
  {
    if t.drafts == [] then
      var r := Committed(st, 0, [t.last]);
      assert r.snaps == st.snaps && |r.layers| == |st.layers|;
      r
    else Committed(Drafted(st, t.drafts), t.accepted, Tail(t.drafts[..t.offered], t.accepted, t.last))
  }

  function Grown(path: seq<Token>, t: Turn): seq<Token>
    requires Possible(t)
  {
    path + t.drafts[..t.accepted] + [t.last]
  }

  /** The drafter after a request's rounds. */
  function After(st: DraftState, turns: seq<Turn>): (r: DraftState)
    requires (forall i :: 0 <= i < |turns| ==> Possible(turns[i])) && (|st.snaps| == |st.layers| || !HasSnapshot(st))
    ensures |r.snaps| == |r.layers| || !HasSnapshot(r)
  {
    if turns == [] then st else Turned(After(st, turns[..|turns| - 1]), turns[|turns| - 1])
  }

  function PathAfter(path: seq<Token>, turns: seq<Turn>): seq<Token>
    requires forall i :: 0 <= i < |turns| ==> Possible(turns[i])
  {
    if turns == [] then path else Grown(PathAfter(path, turns[..|turns| - 1]), turns[|turns| - 1])
  }

  /** A round that a level drafter comes out of level: an all-trimmable one unless the
      chain was cut short and then accepted as a whole; one without any trimmable layer
      if something was rejected, or if nothing was drafted in any round yet; a mixed one
      only as long as nothing is drafted. */
  predicate Keeps(all: bool, none: bool, turns: seq<Turn>, i: nat)
    requires i < |turns|
  {
    var t := turns[i];
    if all then t.drafts == [] || t.accepted < t.offered || t.offered == |t.drafts|
    else if t.drafts == [] then forall j :: 0 <= j < i ==> turns[j].drafts == []
    else none && t.accepted < t.offered
  }

  /** What the rounds so far leave a drafter in. */
  ghost predicate Settled(st: DraftState, now: DraftState, turns: seq<Turn>, path: seq<Token>) {
    && now.drafted == 0 && |now.layers| == |st.layers| && (|now.snaps| == |now.layers| || !HasSnapshot(now))
    && (forall i :: 0 <= i < |st.layers| ==> now.layers[i].trimmable == st.layers[i].trimmable)
    && (HasSnapshot(now) <==> !AllTrimmable(st) && exists j :: 0 <= j < |turns| && turns[j].drafts != [])
    && forall u :: 0 <= u < |now.snaps| && now.snaps[u].Some? ==>
         now.snaps[u].value.trimmable == (u < |st.layers| && st.layers[u].trimmable) && |now.snaps[u].value.toks| + |now.fed| < |path|
  }

  /** A round with room takes snapshots of exactly the untrimmable layers. */
  lemma DraftingSettles(st: DraftState, now: DraftState, turns: seq<Turn>, path: seq<Token>, t: Turn)
    requires Settled(st, now, turns, path) && Lockstep(now, path) && Possible(t) && t.drafts != []
    ensures Settled(st, Turned(now, t), turns + [t], Grown(path, t))
  {
    var d, next := Drafted(now, t.drafts), Turned(now, t);
    assert (turns + [t])[|turns|] == t;
    assert next.snaps == d.snaps == Snaps(now.layers) && next.fed == now.pending && next.drafted == 0;
    SnapsOf(st, now, path);
    assert HasSnapshot(next) <==> HasSnapshot(d);
    hide Lockstep, HasSnapshot, AllTrimmable, Snaps;
  }

  lemma SnapsOf(st: DraftState, now: DraftState, path: seq<Token>)
    requires |now.layers| == |st.layers| && Lockstep(now, path)
    requires forall i :: 0 <= i < |st.layers| ==> now.layers[i].trimmable == st.layers[i].trimmable
    ensures var snaps := Snaps(now.layers);
      && (AllTrimmable(st) <==> forall u :: 0 <= u < |snaps| ==> snaps[u].None?)
      && forall u :: 0 <= u < |snaps| && snaps[u].Some? ==>
           snaps[u].value.trimmable == st.layers[u].trimmable && |snaps[u].value.toks| + |now.pending| == |path|
  {
    forall u | 0 <= u < |now.layers| ensures |now.layers[u].toks| + |now.pending| == |path| {
      assert now.layers[u].toks + now.pending == path;
    }
    assert forall u :: 0 <= u < |now.layers| ==> (Snaps(now.layers)[u].None? <==> st.layers[u].trimmable);
  }

  lemma IdleSettles(st: DraftState, now: DraftState, turns: seq<Turn>, path: seq<Token>, t: Turn)
    requires Settled(st, now, turns, path) && Possible(t) && t.drafts == []
    ensures Settled(st, Turned(now, t), turns + [t], Grown(path, t))
  {
    var next := Turned(now, t);
    assert HasSnapshot(next) <==> HasSnapshot(now);
    assert forall j :: 0 <= j < |turns| ==> (turns + [t])[j] == turns[j];
    assert (exists j :: 0 <= j < |turns| + 1 && (turns + [t])[j].drafts != []) <==> exists j :: 0 <= j < |turns| && turns[j].drafts != [];
  }

  /** A level drafter stays level over a round exactly if the round is one of those. */
  lemma TurnLevel(st: DraftState, now: DraftState, turns: seq<Turn>, path: seq<Token>, t: Turn)
    requires Settled(st, now, turns, path) && Lockstep(now, path) && Possible(t) && st.layers != []
    ensures Lockstep(Turned(now, t), Grown(path, t)) <==> Keeps(AllTrimmable(st), NoneTrimmable(st), turns + [t], |turns|)
  {
    assert AllTrimmable(now) <==> AllTrimmable(st);
    assert NoneTrimmable(now) <==> NoneTrimmable(st);
    if t.drafts != [] {
      if AllTrimmable(now) {
        TrimmableLockstep(now, path, t.drafts, t.offered, t.accepted, t.last);
      } else {
        HybridLockstep(now, path, t.drafts, t.offered, t.accepted, t.last);
      }
    } else {
      IdleTurn(now, path, t);
      assert forall j :: 0 <= j < |turns| ==> (turns + [t])[j] == turns[j];
    }
  }

  lemma IdleTurn(now: DraftState, path: seq<Token>, t: Turn)
    requires (|now.snaps| == |now.layers| || !HasSnapshot(now)) && now.drafted == 0 && now.layers != []
    requires Lockstep(now, path) && Possible(t) && t.drafts == []
    requires forall u :: 0 <= u < |now.snaps| && now.snaps[u].Some? ==> |now.snaps[u].value.toks| + |now.fed| < |path|
    ensures Lockstep(Turned(now, t), Grown(path, t)) <==> !HasSnapshot(now)
  {
    var next := Turned(now, t);
    assert Grown(path, t) == path + [t.last];
    if HasSnapshot(now) {
      var u :| 0 <= u < |now.snaps| && now.snaps[u].Some?;
      assert |next.layers[u].toks + next.pending| < |path| + 1;
    } else {
      SameTail(now, path, next, [t.last]);
    }
  }

  ghost predicate AllPossible(turns: seq<Turn>) {
    forall i :: 0 <= i < |turns| ==> Possible(turns[i])
  }

  /** Level at the start and after every round. */
  ghost predicate LevelThroughout(st: DraftState, path: seq<Token>, turns: seq<Turn>)
    requires AllPossible(turns) && (|st.snaps| == |st.layers| || !HasSnapshot(st))
  {
    forall n :: 0 <= n <= |turns| ==> LevelAt(st, path, turns, n)
  }

  ghost predicate LevelAt(st: DraftState, path: seq<Token>, turns: seq<Turn>, n: nat)
    requires AllPossible(turns) && (|st.snaps| == |st.layers| || !HasSnapshot(st)) && n <= |turns|
  {
    Lockstep(After(st, turns[..n]), PathAfter(path, turns[..n]))
  }

  ghost predicate KeepsAll(st: DraftState, turns: seq<Turn>) {
    forall i :: 0 <= i < |turns| ==> Keeps(AllTrimmable(st), NoneTrimmable(st), turns, i)
  }

  /** Over a request, a drafter that starts level is level after every round exactly if
      every round is one of those. */
  lemma {:induction false} LevelThroughoutExactly(st: DraftState, path: seq<Token>, turns: seq<Turn>)
    requires Lockstep(st, path) && !HasSnapshot(st) && st.drafted == 0 && st.layers != [] && AllPossible(turns)
    ensures LevelThroughout(st, path, turns) <==> KeepsAll(st, turns)
    ensures LevelThroughout(st, path, turns) ==> Settled(st, After(st, turns), turns, PathAfter(path, turns))
    decreases |turns|
  {
    hide Settled, Lockstep, HasSnapshot, Keeps, Turned, Grown, AllTrimmable, NoneTrimmable;
    if turns == [] {
      NothingYet(st, path);
      assert LevelAt(st, path, turns, 0);
    } else {
      var n := |turns| - 1;
      var ts, t := turns[..n], turns[n];
      assert turns == ts + [t] && turns[..n + 1] == turns;
      LevelThroughoutExactly(st, path, ts);
      forall k | 0 <= k <= n ensures LevelAt(st, path, turns, k) <==> LevelAt(st, path, ts, k) { assert turns[..k] == ts[..k]; }
      assert LevelThroughout(st, path, turns) <==> LevelThroughout(st, path, ts) && LevelAt(st, path, turns, n + 1);
      KeepsSnoc(st, ts, t);
      if LevelThroughout(st, path, ts) {
        assert ts[..n] == ts && LevelAt(st, path, ts, n);
        TurnLevel(st, After(st, ts), ts, PathAfter(path, ts), t);
        if t.drafts == [] { IdleSettles(st, After(st, ts), ts, PathAfter(path, ts), t); }
        else { DraftingSettles(st, After(st, ts), ts, PathAfter(path, ts), t); }
      }
    }
  }

  lemma NothingYet(st: DraftState, path: seq<Token>)
    requires Lockstep(st, path) && !HasSnapshot(st) && st.drafted == 0
    ensures Settled(st, st, [], path)
  {
  }

  lemma KeepsSnoc(st: DraftState, ts: seq<Turn>, t: Turn)
    ensures KeepsAll(st, ts + [t]) <==> KeepsAll(st, ts) && Keeps(AllTrimmable(st), NoneTrimmable(st), ts + [t], |ts|)
  {
    var turns := ts + [t];
    forall i | 0 <= i < |ts|
      ensures Keeps(AllTrimmable(st), NoneTrimmable(st), turns, i) <==> Keeps(AllTrimmable(st), NoneTrimmable(st), ts, i)
    {
      assert forall j :: 0 <= j <= i ==> turns[j] == ts[j];
    }
    hide Keeps;
  }

  // ---- inputs that show the limits -----------------------------------------------------

  /** Three drafts, room for one, which is accepted: its token is in the caches and in
      the carried tokens. */
  method ChainCutShort(next: seq<DraftLayer> -> Token, input: seq<Token>, last: Token) returns (d: DraftModel, path: seq<Token>)
    requires input != []
    ensures fresh(d) && !Lockstep(d.st, path)
  {
    d := new DraftModel(3, [true], input);
    ghost var st := d.st;
    var drafts := d.Draft(next);
    d.Commit(1, Tail(drafts[..1], 1, last));
    path := input + drafts[..1] + [last];
    TrimmableLockstep(st, input, drafts, 1, 1, last);
  }

  /** A trimmable and an untrimmable layer, one draft rejected. */
  method MixedFallsBehind(next: seq<DraftLayer> -> Token, input: seq<Token>, last: Token) returns (d: DraftModel, path: seq<Token>)
    requires input != []
    ensures fresh(d) && !Lockstep(d.st, path)
  {
    d := new DraftModel(3, [true, false], input);
    ghost var st := d.st;
    var drafts := d.Draft(next);
    d.Commit(0, Tail(drafts[..1], 0, last));
    path := input + drafts[..0] + [last];
    assert !st.layers[1].trimmable && st.layers[0].trimmable;
    HybridLockstep(st, input, drafts, 1, 0, last);
  }

  /** An untrimmable layer is level after a rejected round, and no longer after a round
      without room. */
  method IdleRestores(next: seq<DraftLayer> -> Token, input: seq<Token>, last: Token, more: Token)
    returns (d: DraftModel, ghost level: DraftState, path: seq<Token>)
    requires input != []
    ensures fresh(d) && (|level.snaps| == |level.layers| || !HasSnapshot(level))
    ensures Lockstep(level, path) && d.st == Committed(level, 0, [more]) && !Lockstep(d.st, path + [more])
  {
    d := new DraftModel(3, [false], input);
    ghost var st := d.st;
    assert !st.layers[0].trimmable;
    var drafts := d.Draft(next);
    d.Commit(0, Tail(drafts[..1], 0, last));
    path := input + drafts[..0] + [last];
    HybridLockstep(st, input, drafts, 1, 0, last);
    level := d.st;
    IdleRoundLockstep(st, input, drafts, 1, 0, last, [more]);
    assert Idled(d.st, [more]) == Committed(d.st, 0, [more]) by { assert [more][..0] == []; }
    d.Commit(0, [more]);
  }
}
