/** The per-layer expert slot cache: an LRU tracker, slot buffers, and two device
    arrays, `lut` (expert to the slot it would live in, stale allowed) and `owner`
    (slot to the expert it holds). The tracker's operations are functions on a value
    first; the class then ties buffers, `lut` and `owner` to the plain map from
    resident expert to weights, and every operation keeps that tie. */
module SlotCaches {
  import opened Admission
  import opened Collections

  type Weights(==, !new)

  // ---- the LRU tracker --------------------------------------------------------

  /** An ordered dictionary, expert to slot: the keys least recently used first,
      and the mapping; plus the stack of free slots. */
  datatype Tracker = Tracker(slots: nat, order: seq<nat>, slotOf: map<nat, nat>, free: seq<nat>)

  ghost predicate Injective(m: map<nat, nat>) {
    forall d, e :: d in m && e in m && m[d] == m[e] ==> d == e
  }

  /** Every key once, no slot twice among held and free ones, none out of range. */
  ghost predicate Sound(t: Tracker) {
    && Distinct(t.order) && (forall e :: e in t.order <==> e in t.slotOf)
    && Injective(t.slotOf) && Distinct(t.free)
    && (forall e :: e in t.slotOf ==> t.slotOf[e] < t.slots && t.slotOf[e] !in t.free)
    && (forall i :: 0 <= i < |t.free| ==> t.free[i] < t.slots)
    && |t.order| + |t.free| == t.slots
  }

  function IndexOf(order: seq<nat>, e: nat): (i: nat)
    requires e in order
    ensures i < |order| && order[i] == e
  {
    if order[0] == e then 0 else 1 + IndexOf(order[1..], e)
  }

  function Without(order: seq<nat>, e: nat): seq<nat>
    requires e in order
  {
    var i := IndexOf(order, e);
    order[..i] + order[i + 1..]
  }

  function Touched(t: Tracker, e: nat): Tracker
    requires e in t.order
  {
    t.(order := Without(t.order, e) + [e])
  }

  /** The tracker after a lookup, the experts it found and those it did not. */
  function Lookup(t: Tracker, experts: seq<nat>): (r: (Tracker, seq<nat>, seq<nat>))
    ensures |r.1| + |r.2| == |experts|
    decreases |experts|
  {
    if experts == [] then (t, [], [])
    else if experts[0] in t.order then
      var (t', hits, missing) := Lookup(Touched(t, experts[0]), experts[1..]);
      (t', [experts[0]] + hits, missing)
    else
      var (t', hits, missing) := Lookup(t, experts[1..]);
      (t', hits, [experts[0]] + missing)
  }

  /** A slot for a missing expert: a free one, or the least recently used one. */
  function Assign(t: Tracker, e: nat): (r: (Tracker, nat))
    requires t.free != [] || (t.order != [] && t.order[0] in t.slotOf)
  {
    if t.free != [] then
      var slot := t.free[|t.free| - 1];
      (Tracker(t.slots, t.order + [e], t.slotOf[e := slot], t.free[..|t.free| - 1]), slot)
    else
      var slot := t.slotOf[t.order[0]];
      (Tracker(t.slots, t.order[1..] + [e], (t.slotOf - {t.order[0]})[e := slot], t.free), slot)
  }

  function AssignAll(t: Tracker, es: seq<nat>): (r: (Tracker, seq<nat>))
    requires Sound(t) && t.slots > 0 && Distinct(es) && forall e :: e in es ==> e !in t.slotOf
    ensures Sound(r.0) && r.0.slots == t.slots && |r.1| == |es|
    decreases |es|
  {
    if es == [] then (t, [])
    else
      AssignSound(t, es[0]);
      var (t1, slot) := Assign(t, es[0]);
      var (t2, slots) := AssignAll(t1, es[1..]);
      (t2, [slot] + slots)
  }

  predicate EndsWith(order: seq<nat>, tail: seq<nat>) {
    |tail| <= |order| && order[|order| - |tail|..] == tail
  }

  lemma WithoutFacts(order: seq<nat>, e: nat)
    requires Distinct(order) && e in order
    ensures Distinct(Without(order, e) + [e]) && forall d :: d in Without(order, e) <==> d in order && d != e
  {
    var i := IndexOf(order, e);
    var w := Without(order, e);
    assert forall j :: 0 <= j < |w| ==> w[j] == order[if j < i then j else j + 1];
    forall d ensures d in w <==> d in order && d != e {
      if d in order && d != e {
        var j :| 0 <= j < |order| && order[j] == d;
        assert w[if j < i then j else j - 1] == d;
      }
    }
  }

  lemma TouchedSound(t: Tracker, e: nat, tail: seq<nat>)
    requires Sound(t) && e in t.order && EndsWith(t.order, tail) && e !in tail
    ensures |Without(t.order, e)| == |t.order| - 1
    ensures Sound(Touched(t, e)) && EndsWith(Touched(t, e).order, tail + [e])
  {
    WithoutFacts(t.order, e);
    WithoutEnds(t.order, e, tail);
    hide Without, EndsWith, IndexOf;
    var o := Touched(t, e).order;
    assert forall d :: d in o <==> d in Without(t.order, e) || d == e;
  }

  lemma WithoutEnds(order: seq<nat>, e: nat, tail: seq<nat>)
    requires e in order && EndsWith(order, tail) && e !in tail
    ensures EndsWith(Without(order, e) + [e], tail + [e])
    ensures |Without(order, e)| == |order| - 1
  {
    var i, n := IndexOf(order, e), |order| - |tail|;
    assert forall j :: n <= j < |order| ==> order[j] == tail[j - n] && order[j] in tail;
    var o := Without(order, e) + [e];
    assert o[|o| - |tail| - 1..] == tail + [e];
  }

  lemma Peel(es: seq<nat>)
    requires Distinct(es) && es != []
    ensures Distinct(es[1..]) && es[0] !in es[1..]
    ensures forall d :: d in es <==> d == es[0] || d in es[1..]
  {
    assert es == [es[0]] + es[1..];
  }

  /** A lookup changes recency alone, and leaves its hits the most recent. */
  lemma {:induction false} LookupFacts(t: Tracker, experts: seq<nat>, tail: seq<nat>)
    requires Sound(t) && EndsWith(t.order, tail) && Distinct(experts) && forall e :: e in experts ==> e !in tail
    ensures var (t', hits, missing) := Lookup(t, experts);
      && Sound(t') && t'.slotOf == t.slotOf && t'.free == t.free && t'.slots == t.slots
      && EndsWith(t'.order, tail + hits) && Distinct(missing)
      && (forall e :: e in hits <==> e in experts && e in t.slotOf)
      && (forall e :: e in missing <==> e in experts && e !in t.slotOf)
    decreases |experts|
  {
    hide Without, EndsWith, Injective;
    if experts == [] {
      assert tail + [] == tail;
    } else {
      var e := experts[0];
      Peel(experts);
      if e in t.order {
        TouchedSound(t, e, tail);
        LookupFacts(Touched(t, e), experts[1..], tail + [e]);
        var hits := Lookup(Touched(t, e), experts[1..]).1;
        assert tail + [e] + hits == tail + ([e] + hits);
      } else {
        LookupFacts(t, experts[1..], tail);
      }
    }
  }

  // ---- what a lookup does to the order ------------------------------------------

  function Members(s: seq<nat>): set<nat> {
    set e | e in s
  }

  function Excluding(s: seq<nat>, out: set<nat>): seq<nat> {
    if s == [] then [] else if s[0] in out then Excluding(s[1..], out) else [s[0]] + Excluding(s[1..], out)
  }

  function Among(s: seq<nat>, keep: set<nat>): seq<nat> {
    if s == [] then [] else if s[0] in keep then [s[0]] + Among(s[1..], keep) else Among(s[1..], keep)
  }

  lemma {:induction false} ExcludingHolds(s: seq<nat>, out: set<nat>)
    ensures |Excluding(s, out)| <= |s| && forall e :: e in Excluding(s, out) <==> e in s && e !in out
  {
    if s != [] {
      ExcludingHolds(s[1..], out);
      assert forall e :: e in s <==> e == s[0] || e in s[1..];
    }
  }

  lemma {:induction false} AmongHolds(s: seq<nat>, keep: set<nat>)
    ensures |Among(s, keep)| <= |s| && forall e :: e in Among(s, keep) <==> e in s && e in keep
  {
    if s != [] {
      AmongHolds(s[1..], keep);
      assert forall e :: e in s <==> e == s[0] || e in s[1..];
    }
  }

  lemma {:induction false} ExcludingDistinct(s: seq<nat>, out: set<nat>)
    requires Distinct(s)
    ensures Distinct(Excluding(s, out))
  {
    if s != [] {
      Peel(s);
      ExcludingDistinct(s[1..], out);
      ExcludingHolds(s[1..], out);
    }
  }

  lemma {:induction false} ExcludingSame(s: seq<nat>, a: set<nat>, b: set<nat>)
    requires forall e :: e in s ==> (e in a <==> e in b)
    ensures Excluding(s, a) == Excluding(s, b)
  {
    if s != [] {
      assert s[0] in s && forall e :: e in s[1..] ==> e in s;
      ExcludingSame(s[1..], a, b);
    }
  }

  lemma ExcludingHead(s: seq<nat>, out: set<nat>)
    ensures s == [] ==> Excluding(s, out) == []
    ensures s != [] && s[0] in out ==> Excluding(s, out) == Excluding(s[1..], out)
    ensures s != [] && s[0] !in out ==> Excluding(s, out) == [s[0]] + Excluding(s[1..], out)
  {
  }

  lemma {:induction false} ExcludingSplit(s: seq<nat>, u: seq<nat>, out: set<nat>)
    ensures Excluding(s + u, out) == Excluding(s, out) + Excluding(u, out)
  {
    hide Excluding;
    ExcludingHead(s, out);
    if s == [] {
      assert s + u == u;
    } else {
      ExcludingHead(s + u, out);
      ExcludingSplit(s[1..], u, out);
      assert (s + u)[1..] == s[1..] + u;
      if s[0] !in out {
        var a, b := Excluding(s[1..], out), Excluding(u, out);
        assert [s[0]] + (a + b) == [s[0]] + a + b;
      }
    }
  }

  lemma BeforeBehind(x: nat, s: seq<nat>, a: nat, b: nat)
    ensures Before([x] + s, a, b) <==> (x == a && b in s) || Before(s, a, b)
  {
    var xs := [x] + s;
    if Before(xs, a, b) {
      var i: nat, j: nat :| i < j < |xs| && xs[i] == a && xs[j] == b;
      assert s[j - 1] == b && (i > 0 ==> s[i - 1] == a);
    }
    if x == a && b in s {
      var j: nat :| j < |s| && s[j] == b;
      assert xs[0] == a && xs[j + 1] == b;
    }
    if Before(s, a, b) {
      var i: nat, j: nat :| i < j < |s| && s[i] == a && s[j] == b;
      assert xs[i + 1] == a && xs[j + 1] == b;
    }
  }

  /** What is left keeps its relative order. */
  lemma {:induction false} ExcludingKeepsOrder(s: seq<nat>, out: set<nat>, a: nat, b: nat)
    ensures Before(Excluding(s, out), a, b) <==> Before(s, a, b) && a !in out && b !in out
  {
    hide Before;
    if s == [] {
      NothingBefore(a, b);
    } else {
      ExcludingKeepsOrder(s[1..], out, a, b);
      ExcludingHolds(s[1..], out);
      assert s == [s[0]] + s[1..];
      BeforeBehind(s[0], s[1..], a, b);
      BeforeBehind(s[0], Excluding(s[1..], out), a, b);
    }
  }

  lemma NothingBefore(a: nat, b: nat)
    ensures !Before([], a, b)
  {
  }

  /** What was asked for and found keeps the order it was asked for in. */
  lemma {:induction false} AmongIsExcluding(s: seq<nat>, keep: set<nat>, out: set<nat>)
    requires forall e :: e in s ==> (e in keep <==> e !in out)
    ensures Among(s, keep) == Excluding(s, out)
  {
    if s != [] {
      assert s[0] in s && forall e :: e in s[1..] ==> e in s;
      AmongIsExcluding(s[1..], keep, out);
    }
  }

  /** Recency behind a lookup: the experts not asked for as they were, then those
      asked for and found in the order they were asked for. */
  function Recency(order: seq<nat>, es: seq<nat>): seq<nat> {
    Excluding(order, Members(es)) + Among(es, Members(order))
  }

  lemma TouchedOrder(order: seq<nat>, e: nat, es: seq<nat>)
    requires Distinct(order) && Distinct(es) && es != [] && es[0] == e && e in order
    ensures Excluding(Without(order, e) + [e], Members(es[1..])) == Excluding(order, Members(es)) + [e]
  {
    var i, rest := IndexOf(order, e), Members(es[1..]);
    var x, y := order[..i], order[i + 1..];
    Peel(es);
    assert order == x + ([e] + y);
    assert e !in x && e !in y;
    PulledOut(x, y, e, rest, Members(es));
  }

  lemma PulledOut(x: seq<nat>, y: seq<nat>, e: nat, rest: set<nat>, asked: set<nat>)
    requires e !in x && e !in y && e !in rest && asked == rest + {e}
    ensures Excluding((x + y) + [e], rest) == Excluding(x + ([e] + y), asked) + [e]
  {
    ExcludingSplit(x, [e] + y, asked);
    ExcludingSplit([e], y, asked);
    ExcludingSplit(x + y, [e], rest);
    ExcludingSplit(x, y, rest);
    ExcludingSame(x, rest, asked);
    ExcludingSame(y, rest, asked);
    ExcludingOne(e, rest);
    ExcludingOne(e, asked);
    hide Excluding;
  }

  lemma ExcludingOne(e: nat, out: set<nat>)
    ensures Excluding([e], out) == if e in out then [] else [e]
  {
  }

  /** What a lookup does, from the order before it alone. */
  ghost predicate OrderedBy(t: Tracker, es: seq<nat>, r: (Tracker, seq<nat>, seq<nat>)) {
    && r.0 == t.(order := Recency(t.order, es))
    && r.1 == Among(es, Members(t.order)) && r.2 == Excluding(es, Members(t.order))
  }

  lemma {:induction false} LookupOrder(t: Tracker, es: seq<nat>)
    requires Sound(t) && Distinct(es)
    ensures OrderedBy(t, es, Lookup(t, es))
    decreases |es|
  {
    if es == [] {
      assert Members(es) == {};
      ExcludingNone(t.order);
    } else {
      Peel(es);
      if es[0] in t.order {
        assert EndsWith(t.order, []);
        TouchedSound(t, es[0], []);
        LookupOrder(Touched(t, es[0]), es[1..]);
        HitOrder(t, es, Lookup(Touched(t, es[0]), es[1..]));
      } else {
        LookupOrder(t, es[1..]);
        MissOrder(t, es, Lookup(t, es[1..]));
      }
    }
  }

  lemma HitOrder(t: Tracker, es: seq<nat>, r: (Tracker, seq<nat>, seq<nat>))
    requires Distinct(t.order) && Distinct(es) && es != [] && es[0] in t.order
    requires OrderedBy(Touched(t, es[0]), es[1..], r)
    ensures OrderedBy(t, es, (r.0, [es[0]] + r.1, r.2))
  {
    var e := es[0];
    TouchedOrder(t.order, e, es);
    WithoutFacts(t.order, e);
    hide Excluding, Without, Distinct;
    assert Members(Touched(t, e).order) == Members(t.order);
    ExcludingHead(es, Members(t.order));
    var kept := Excluding(t.order, Members(es));
    assert kept + [e] + r.1 == kept + ([e] + r.1);
  }

  lemma MissOrder(t: Tracker, es: seq<nat>, r: (Tracker, seq<nat>, seq<nat>))
    requires es != [] && es[0] !in t.order && OrderedBy(t, es[1..], r)
    ensures OrderedBy(t, es, (r.0, r.1, [es[0]] + r.2))
  {
    ExcludingSame(t.order, Members(es), Members(es[1..]));
  }

  lemma {:induction false} ExcludingNone(s: seq<nat>)
    ensures Excluding(s, {}) == s
  {
    if s != [] { ExcludingNone(s[1..]); }
  }

  /** An access: the request becomes the most recent, what it missed last, and what no
      longer fits goes from the other end. */
  ghost predicate Accessed(was: seq<nat>, es: seq<nat>, now: seq<nat>, slots: nat) {
    now == Latest(Recency(was, es) + Excluding(es, Members(was)), slots)
  }

  lemma {:induction false} AllAmong(s: seq<nat>, keep: set<nat>)
    requires forall e :: e in s ==> e in keep
    ensures Among(s, keep) == s && Excluding(s, keep) == []
  {
    if s != [] {
      assert s[0] in s && forall e :: e in s[1..] ==> e in s;
      AllAmong(s[1..], keep);
    }
  }

  lemma AllHitAccess(t: Tracker, es: seq<nat>)
    requires Sound(t) && Distinct(es) && forall e :: e in es ==> e in t.slotOf
    ensures Excluding(es, Members(t.order)) == [] && Recency(t.order, es) == Excluding(t.order, Members(es)) + es
    ensures Accessed(t.order, es, Excluding(t.order, Members(es)) + es, t.slots)
  {
    assert EndsWith(t.order, []);
    AllAmong(es, Members(t.order));
    LookupFacts(t, es, []);
    LookupOrder(t, es);
    hide Lookup, Excluding, Among, EndsWith, Distinct;
    var order := Excluding(t.order, Members(es)) + es;
    assert order + [] == order;
  }

  /** What was evicted is not of the request, and older than all that was left of the
      others. */
  ghost predicate OldestEvicted(was: seq<nat>, es: seq<nat>, now: seq<nat>) {
    forall d :: d in was && d !in now ==>
      d !in es && forall e :: e in was && e in now && e !in es ==> Before(was, d, e)
  }

  lemma EvictsOldest(was: seq<nat>, es: seq<nat>, admit: seq<nat>, slots: nat)
    requires |Among(es, Members(was))| + |admit| <= slots && forall e :: e in admit ==> e !in was
    ensures OldestEvicted(was, es, Latest(Recency(was, es) + admit, slots))
  {
    var others, found := Excluding(was, Members(es)), Among(es, Members(was));
    ExcludingHolds(was, Members(es));
    AmongHolds(es, Members(was));
    hide Before, Among, Excluding;
    var all := others + found + admit;
    var now := Latest(all, slots);
    var cut := |all| - |now|;
    assert forall j :: cut <= j < |all| ==> all[j] == now[j - cut];
    assert forall k :: 0 <= k < |found| ==> found[k] == all[|others| + k];
    assert forall j :: |others| <= j < |all| ==> all[j] in found || all[j] in admit;
    forall d, e | d in was && d !in now && d !in es && e in was && e in now && e !in es ensures Before(was, d, e) {
      var i :| 0 <= i < |others| && others[i] == d;
      var k :| 0 <= k < |now| && now[k] == e;
      assert all[i] == d && all[cut + k] == e;
      BeforeAt(others, i, cut + k);
      ExcludingKeepsOrder(was, Members(es), d, e);
    }
  }

  lemma BeforeAt(s: seq<nat>, i: nat, j: nat)
    requires i < j < |s|
    ensures Before(s, s[i], s[j])
  {
  }

  lemma HasVictim(t: Tracker)
    requires Sound(t) && t.slots > 0
    ensures t.free == [] ==> t.order != [] && t.order[0] in t.slotOf
  {
    assert t.free == [] ==> t.order != [] && t.order[0] in t.order;
  }

  ghost predicate Assigned(t: Tracker, e: nat, t': Tracker, slot: nat) {
    && Sound(t') && t'.slots == t.slots && slot < t.slots
    && e in t'.slotOf && t'.slotOf[e] == slot
    && (forall d :: d in t'.slotOf && d != e ==> d in t.slotOf && t'.slotOf[d] == t.slotOf[d])
    && (forall s :: s in t'.free <==> s in t.free && s != slot)
  }

  lemma AssignFree(t: Tracker, e: nat)
    requires Sound(t) && e !in t.slotOf && t.free != []
    ensures Assigned(t, e, Assign(t, e).0, Assign(t, e).1)
  {
    var (t', slot) := Assign(t, e);
    assert t.free == t'.free + [slot];
    assert slot in t.free && slot !in t'.free;
    assert forall d :: d in t'.order <==> d in t.order || d == e;
  }

  lemma AssignEvicting(t: Tracker, e: nat)
    requires Sound(t) && e !in t.slotOf && t.free == [] && t.order != []
    ensures t.order[0] in t.slotOf
    ensures Assigned(t, e, Assign(t, e).0, Assign(t, e).1)
  {
    var victim := t.order[0];
    Peel(t.order);
    assert victim in t.order;
    var t' := Assign(t, e).0;
    assert forall d :: d in t'.order <==> d in t.order[1..] || d == e;
    assert forall d :: d in t'.slotOf <==> (d in t.slotOf && d != victim) || d == e;
  }

  lemma AssignSound(t: Tracker, e: nat)
    requires Sound(t) && t.slots > 0 && e !in t.slotOf
    ensures t.free == [] ==> t.order != [] && t.order[0] in t.slotOf
    ensures Assigned(t, e, Assign(t, e).0, Assign(t, e).1)
  {
    HasVictim(t);
    if t.free != [] { AssignFree(t, e); } else { AssignEvicting(t, e); }
  }

  lemma AssignTail(t: Tracker, e: nat, tail: seq<nat>, room: nat)
    requires Sound(t) && t.slots > 0 && e !in t.slotOf
    requires EndsWith(t.order, tail) && room > 0 && |tail| + room <= t.slots
    ensures t.free == [] ==> t.order != [] && t.order[0] in t.slotOf
    ensures EndsWith(Assign(t, e).0.order, tail + [e])
  {
    HasVictim(t);
    hide Injective, Distinct;
    var o := Assign(t, e).0.order;
    if t.free == [] {
      assert o[|o| - |tail| - 1..] == t.order[|t.order| - |tail|..] + [e];
    } else {
      assert o[|o| - |tail| - 1..] == t.order[|t.order| - |tail|..] + [e];
    }
  }

  lemma TailIn(t: Tracker, tail: seq<nat>, i: nat)
    requires Sound(t) && EndsWith(t.order, tail) && i < |tail|
    ensures tail[i] in t.slotOf
  {
    assert t.order[|t.order| - |tail| + i] == tail[i];
    assert tail[i] in t.order;
  }

  lemma {:induction false} AssignAllEnds(t: Tracker, es: seq<nat>, tail: seq<nat>)
    requires Sound(t) && t.slots > 0 && Distinct(es) && forall e :: e in es ==> e !in t.slotOf
    requires EndsWith(t.order, tail) && |tail| + |es| <= t.slots
    ensures EndsWith(AssignAll(t, es).0.order, tail + es)
    decreases |es|
  {
    if es == [] {
      assert tail + [] == tail;
    } else {
      Peel(es);
      AssignSound(t, es[0]);
      AssignTail(t, es[0], tail, |es|);
      hide EndsWith, Injective, Assign;
      AssignAllEnds(Assign(t, es[0]).0, es[1..], tail + [es[0]]);
      assert tail + [es[0]] + es[1..] == tail + es;
    }
  }

  lemma {:induction false} AssignAllMap(t: Tracker, es: seq<nat>, tail: seq<nat>)
    requires Sound(t) && t.slots > 0 && Distinct(es) && forall e :: e in es ==> e !in t.slotOf
    requires EndsWith(t.order, tail) && |tail| + |es| <= t.slots
    ensures var (t', slots) := AssignAll(t, es);
      && (forall i :: 0 <= i < |es| ==> es[i] in t'.slotOf && t'.slotOf[es[i]] == slots[i])
      && (forall e :: e in t'.slotOf && e !in es ==> e in t.slotOf && t'.slotOf[e] == t.slotOf[e])
    decreases |es|
  {
    if es != [] {
      var e := es[0];
      Peel(es);
      AssignSound(t, e);
      AssignTail(t, e, tail, |es|);
      var (t1, slot) := Assign(t, e);
      hide EndsWith, Injective, Assign;
      AssignAllMap(t1, es[1..], tail + [e]);
      AssignAllEnds(t1, es[1..], tail + [e]);
      var (t2, slots) := AssignAll(t1, es[1..]);
      TailIn(t2, tail + [e] + es[1..], |tail|);
      forall i | 0 <= i < |es| ensures es[i] in t2.slotOf && t2.slotOf[es[i]] == ([slot] + slots)[i] {
        if i > 0 { assert es[i] == es[1..][i - 1]; }
      }
    }
  }

  lemma {:induction false} AssignAllFree(t: Tracker, es: seq<nat>)
    requires Sound(t) && t.slots > 0 && Distinct(es) && forall e :: e in es ==> e !in t.slotOf
    ensures forall s :: s in AssignAll(t, es).0.free <==> s in t.free && s !in AssignAll(t, es).1
    decreases |es|
  {
    if es != [] {
      Peel(es);
      AssignSound(t, es[0]);
      var (t1, slot) := Assign(t, es[0]);
      hide Injective, Assign;
      AssignAllFree(t1, es[1..]);
      var slots := AssignAll(t1, es[1..]).1;
      assert forall s :: s in [slot] + slots <==> s == slot || s in slots;
    }
  }

  /** Assigning no more experts than the cache has room for beside a protected
      tail: each gets a slot of its own and none of them, nor the tail, is evicted. */
  lemma AssignAllFacts(t: Tracker, es: seq<nat>, tail: seq<nat>)
    requires Sound(t) && t.slots > 0 && Distinct(es) && forall e :: e in es ==> e !in t.slotOf
    requires EndsWith(t.order, tail) && |tail| + |es| <= t.slots
    ensures var (t', slots) := AssignAll(t, es);
      && EndsWith(t'.order, tail + es)
      && Distinct(slots) && (forall i :: 0 <= i < |es| ==> es[i] in t'.slotOf && t'.slotOf[es[i]] == slots[i])
      && (forall e :: e in t'.slotOf && e !in es ==> e in t.slotOf && t'.slotOf[e] == t.slotOf[e])
      && (forall s :: s in t'.free <==> s in t.free && s !in slots)
  {
    AssignAllEnds(t, es, tail);
    AssignAllMap(t, es, tail);
    AssignAllFree(t, es);
    hide EndsWith, AssignAll;
    var (t', slots) := AssignAll(t, es);
    forall i, j | 0 <= i < j < |slots| ensures slots[i] != slots[j] {
      assert es[i] in t'.slotOf && es[j] in t'.slotOf && es[i] != es[j];
    }
  }

  lemma {:induction false} MoreThanRange(s: seq<nat>, n: nat)
    requires Distinct(s) && forall i :: 0 <= i < |s| ==> s[i] < n
    ensures |s| <= n
    decreases n
  {
    if s != [] { assert s[0] < n; }
    if n > 0 && n - 1 in s {
      var w := Without(s, n - 1);
      WithoutFacts(s, n - 1);
      forall j, k | 0 <= j < k < |w| ensures w[j] != w[k] {
        assert (w + [n - 1])[j] != (w + [n - 1])[k];
      }
      forall j | 0 <= j < |w| ensures w[j] < n - 1 { assert w[j] in w; }
      MoreThanRange(w, n - 1);
    } else if n > 0 {
      forall j | 0 <= j < |s| ensures s[j] < n - 1 { assert s[j] in s; }
      MoreThanRange(s, n - 1);
    }
  }

  lemma {:induction false} AssignedInRange(t: Tracker, es: seq<nat>)
    requires Sound(t) && t.slots > 0 && Distinct(es) && forall e :: e in es ==> e !in t.slotOf
    ensures forall i :: 0 <= i < |es| ==> AssignAll(t, es).1[i] < t.slots
    decreases |es|
  {
    if es != [] {
      AssignSound(t, es[0]);
      AssignedInRange(Assign(t, es[0]).0, es[1..]);
    }
  }

  /** The batched install may hand each expert its own slot exactly when the
      batch fits the cache: a larger one reuses a slot within the same scatter. */
  lemma BatchFitsIffDistinct(t: Tracker, es: seq<nat>)
    requires Sound(t) && t.slots > 0 && Distinct(es) && forall e :: e in es ==> e !in t.slotOf
    ensures Distinct(AssignAll(t, es).1) <==> |es| <= t.slots
  {
    if |es| <= t.slots {
      assert EndsWith(t.order, []);
      AssignAllFacts(t, es, []);
    } else if Distinct(AssignAll(t, es).1) {
      AssignedInRange(t, es);
      MoreThanRange(AssignAll(t, es).1, t.slots);
    }
  }

  /** Held and free slots partition the slot range. */
  lemma EverySlotPlaced(t: Tracker, s: nat)
    requires Sound(t) && s < t.slots
    ensures s in t.free <==> forall e :: e in t.slotOf ==> t.slotOf[e] != s
  {
    if s !in t.free && forall e :: e in t.slotOf ==> t.slotOf[e] != s {
      var held := seq(|t.order|, i requires 0 <= i < |t.order| && (forall e :: e in t.order <==> e in t.slotOf) => t.slotOf[t.order[i]]);
      var all := held + t.free + [s];
      forall i, j | 0 <= i < j < |all| ensures all[i] != all[j] {
        if i < |held| {
          assert t.order[i] in t.slotOf;
          if j < |held| { assert t.order[j] in t.slotOf; }
        }
      }
      MoreThanRange(all, t.slots);
      assert false;
    }
  }

  // ---- the device arrays ------------------------------------------------------

  function Scatter<T>(a: seq<T>, idx: seq<nat>, vals: seq<T>): (r: seq<T>)
    requires |idx| == |vals| && forall i :: 0 <= i < |idx| ==> idx[i] < |a|
    ensures |r| == |a|
    decreases |idx|
  {
    if idx == [] then a else Scatter(a[idx[0] := vals[0]], idx[1..], vals[1..])
  }

  lemma {:induction false} ScatterFacts<T>(a: seq<T>, idx: seq<nat>, vals: seq<T>)
    requires |idx| == |vals| && Distinct(idx) && forall i :: 0 <= i < |idx| ==> idx[i] < |a|
    ensures forall i :: 0 <= i < |idx| ==> Scatter(a, idx, vals)[idx[i]] == vals[i]
    ensures forall k :: 0 <= k < |a| && k !in idx ==> Scatter(a, idx, vals)[k] == a[k]
    decreases |idx|
  {
    if idx != [] {
      Peel(idx);
      ScatterFacts(a[idx[0] := vals[0]], idx[1..], vals[1..]);
      forall i | 0 <= i < |idx| ensures Scatter(a, idx, vals)[idx[i]] == vals[i] {
        if i > 0 { assert idx[i] == idx[1..][i - 1]; }
      }
    }
  }

  /** One layer's cache: the tracker and what the device holds. */
  datatype Views = Views(lru: Tracker, buffers: seq<Weights>, lut: seq<nat>, owner: seq<int>)

  ghost predicate Shaped(experts: nat, v: Views) {
    && v.lru.slots > 0 && |v.buffers| == |v.owner| == v.lru.slots && |v.lut| == experts
    && (forall e :: 0 <= e < experts ==> v.lut[e] < v.lru.slots)
    && (forall e :: e in v.lru.slotOf ==> e < experts && v.lru.slotOf[e] < v.lru.slots)
  }

  /** Every resident expert is found through `lut` and its slot holds its weights. */
  ghost predicate Served(store: nat -> Weights, experts: nat, v: Views)
    requires Shaped(experts, v)
  {
    forall e :: e in v.lru.slotOf ==>
      var s := v.lru.slotOf[e]; v.lut[e] == s && v.owner[s] == e && v.buffers[s] == store(e)
  }

  ghost predicate OwnersResident(experts: nat, v: Views)
    requires Shaped(experts, v)
  {
    forall s :: 0 <= s < v.lru.slots && v.owner[s] >= 0 ==>
      v.owner[s] as nat in v.lru.slotOf && v.lru.slotOf[v.owner[s] as nat] == s
  }

  /** The views agree with the plain map from resident expert to weights. */
  ghost predicate Agree(store: nat -> Weights, experts: nat, v: Views) {
    Sound(v.lru) && Shaped(experts, v) && Served(store, experts, v) && OwnersResident(experts, v)
  }

  /** The lazy check is exact: whatever stale slots `lut` names, the owner of an
      expert's slot is that expert precisely when it is resident, and then the
      slot holds its weights. */
  lemma OwnerCheckIsResidency(store: nat -> Weights, experts: nat, v: Views, e: nat)
    requires Agree(store, experts, v) && e < experts
    ensures v.owner[v.lut[e]] == e <==> e in v.lru.slotOf
    ensures v.owner[v.lut[e]] == e ==> v.buffers[v.lut[e]] == store(e)
  {
    hide Sound;
    assert v.owner[v.lut[e]] == e ==> v.owner[v.lut[e]] as nat in v.lru.slotOf;
  }

  /** What a batch of assignments did to the tracker. */
  ghost predicate Installed(t: Tracker, es: seq<nat>, t': Tracker, slots: seq<nat>) {
    && Sound(t') && t'.slots == t.slots && |slots| == |es| && Distinct(slots)
    && (forall i :: 0 <= i < |slots| ==> slots[i] < t.slots)
    && (forall i :: 0 <= i < |es| ==> es[i] in t'.slotOf && t'.slotOf[es[i]] == slots[i])
    && (forall e :: e in t'.slotOf && e !in es ==> e in t.slotOf && t'.slotOf[e] == t.slotOf[e])
    && (forall s :: s in t'.free <==> s in t.free && s !in slots)
  }

  lemma AssignAllInstalls(t: Tracker, es: seq<nat>)
    requires Sound(t) && t.slots > 0 && Distinct(es) && |es| <= t.slots && forall e :: e in es ==> e !in t.slotOf
    ensures Installed(t, es, AssignAll(t, es).0, AssignAll(t, es).1)
  {
    assert EndsWith(t.order, []);
    AssignAllFacts(t, es, []);
    AssignedInRange(t, es);
  }

  /** A batch that fits is resident as a whole, behind the most recent of the others. */
  lemma AllAssigned(t: Tracker, es: seq<nat>)
    requires Sound(t) && t.slots > 0 && Distinct(es) && |es| <= t.slots && forall e :: e in es ==> e !in t.slotOf
    ensures var t' := AssignAll(t, es).0;
      t'.order == Latest(t.order + es, t.slots) && t'.slots == t.slots && forall e :: e in es ==> e in t'.slotOf
  {
    AssignAllInstalls(t, es);
    AssignAllKeepsLatest(t, es);
    hide AssignAll, Latest, Sound, Distinct;
    var t' := AssignAll(t, es).0;
    forall e | e in es ensures e in t'.slotOf {
      var i :| 0 <= i < |es| && es[i] == e;
    }
  }

  lemma SurvivorKeepsSlot(t: Tracker, t': Tracker, es: seq<nat>, slots: seq<nat>, e: nat)
    requires Installed(t, es, t', slots) && e in t'.slotOf && e !in es
    ensures t'.slotOf[e] !in slots
  {
    forall i | 0 <= i < |slots| ensures slots[i] != t'.slotOf[e] { assert es[i] in es; }
  }

  /** An expert whose slot the batch did not take is still there: slots never
      vanish, so every one is free, freshly assigned, or kept. */
  lemma UntouchedSlot(t: Tracker, t': Tracker, es: seq<nat>, slots: seq<nat>, e: nat)
    requires Sound(t) && Installed(t, es, t', slots)
    requires e in t.slotOf && t.slotOf[e] !in slots
    ensures e in t'.slotOf && t'.slotOf[e] == t.slotOf[e]
  {
    var s := t.slotOf[e];
    EverySlotPlaced(t', s);
    var d :| d in t'.slotOf && t'.slotOf[d] == s;
    forall i | 0 <= i < |es| ensures es[i] != d { assert slots[i] in slots; }
  }

  function Written(v: Views, t: Tracker, es: seq<nat>, slots: seq<nat>, parts: seq<Weights>): Views
    requires |parts| == |slots| == |es|
    requires |v.buffers| == |v.owner| && forall i :: 0 <= i < |slots| ==> slots[i] < |v.owner|
    requires forall i :: 0 <= i < |es| ==> es[i] < |v.lut|
  {
    var owners := seq(|es|, i requires 0 <= i < |es| => es[i] as int);
    Views(t, Scatter(v.buffers, slots, parts), Scatter(v.lut, es, slots), Scatter(v.owner, slots, owners))
  }

  lemma WrittenFacts(v: Views, t: Tracker, es: seq<nat>, slots: seq<nat>, parts: seq<Weights>)
    requires |parts| == |slots| == |es| && Distinct(es) && Distinct(slots)
    requires |v.buffers| == |v.owner| && forall i :: 0 <= i < |slots| ==> slots[i] < |v.owner|
    requires forall i :: 0 <= i < |es| ==> es[i] < |v.lut|
    ensures var w := Written(v, t, es, slots, parts);
      && w.lru == t && |w.buffers| == |v.buffers| && |w.lut| == |v.lut| && |w.owner| == |v.owner|
      && (forall i :: 0 <= i < |es| ==> w.lut[es[i]] == slots[i])
      && (forall i :: 0 <= i < |es| ==> w.owner[slots[i]] == es[i] && w.buffers[slots[i]] == parts[i])
      && (forall e :: 0 <= e < |v.lut| && e !in es ==> w.lut[e] == v.lut[e])
      && (forall s :: 0 <= s < |v.owner| && s !in slots ==> w.owner[s] == v.owner[s])
      && (forall s :: 0 <= s < |v.buffers| && s !in slots ==> w.buffers[s] == v.buffers[s])
  {
    var owners := seq(|es|, i requires 0 <= i < |es| => es[i] as int);
    ScatterFacts(v.buffers, slots, parts);
    ScatterFacts(v.lut, es, slots);
    ScatterFacts(v.owner, slots, owners);
    hide Scatter, Distinct;
  }

  /** One batched install: assign every slot, then scatter weights, owners and lut
      entries. The views agree again. */
  lemma InstallAgrees(store: nat -> Weights, experts: nat, v: Views, es: seq<nat>, parts: seq<Weights>)
    requires Agree(store, experts, v)
    requires Distinct(es) && |es| <= v.lru.slots && |parts| == |es|
    requires forall e :: e in es ==> e < experts && e !in v.lru.slotOf
    requires forall i :: 0 <= i < |es| ==> parts[i] == store(es[i])
    ensures var (t, slots) := AssignAll(v.lru, es);
      && (forall i :: 0 <= i < |slots| ==> slots[i] < v.lru.slots)
      && (forall i :: 0 <= i < |es| ==> es[i] < experts)
      && Agree(store, experts, Written(v, t, es, slots, parts))
  {
    var (t, slots) := AssignAll(v.lru, es);
    AssignAllInstalls(v.lru, es);
    forall i | 0 <= i < |es| ensures es[i] < experts { assert es[i] in es; }
    WrittenFacts(v, t, es, slots, parts);
    var w := Written(v, t, es, slots, parts);
    InstallServes(store, experts, v, es, parts, w, slots);
    InstallOwners(store, experts, v, es, w, slots);
  }

  lemma InstallServes(store: nat -> Weights, experts: nat, v: Views, es: seq<nat>, parts: seq<Weights>, w: Views, slots: seq<nat>)
    requires Agree(store, experts, v) && Installed(v.lru, es, w.lru, slots) && |parts| == |es|
    requires forall i :: 0 <= i < |es| ==> es[i] < experts && parts[i] == store(es[i])
    requires |w.buffers| == |v.buffers| && |w.lut| == |v.lut| && |w.owner| == |v.owner|
    requires forall i :: 0 <= i < |es| ==> w.lut[es[i]] == slots[i]
    requires forall i :: 0 <= i < |es| ==> w.owner[slots[i]] == es[i] && w.buffers[slots[i]] == parts[i]
    requires forall e :: 0 <= e < |v.lut| && e !in es ==> w.lut[e] == v.lut[e]
    requires forall s :: 0 <= s < |v.owner| && s !in slots ==> w.owner[s] == v.owner[s]
    requires forall s :: 0 <= s < |v.buffers| && s !in slots ==> w.buffers[s] == v.buffers[s]
    ensures Shaped(experts, w) && Served(store, experts, w)
  {
    forall e | 0 <= e < experts ensures w.lut[e] < w.lru.slots {
      if e in es { var i :| 0 <= i < |es| && es[i] == e; }
    }
    forall e | e in w.lru.slotOf
      ensures e < experts && w.lru.slotOf[e] < w.lru.slots
      ensures var s := w.lru.slotOf[e]; w.lut[e] == s && w.owner[s] == e && w.buffers[s] == store(e)
    {
      if e in es {
        var i :| 0 <= i < |es| && es[i] == e;
      } else {
        SurvivorKeepsSlot(v.lru, w.lru, es, slots, e);
      }
    }
  }

  lemma InstallOwners(store: nat -> Weights, experts: nat, v: Views, es: seq<nat>, w: Views, slots: seq<nat>)
    requires Agree(store, experts, v) && Installed(v.lru, es, w.lru, slots)
    requires Shaped(experts, w)
    requires forall i :: 0 <= i < |es| ==> w.owner[slots[i]] == es[i]
    requires forall s :: 0 <= s < |v.owner| && s !in slots ==> w.owner[s] == v.owner[s]
    ensures OwnersResident(experts, w)
  {
    forall s | 0 <= s < w.lru.slots && w.owner[s] >= 0
      ensures w.owner[s] as nat in w.lru.slotOf && w.lru.slotOf[w.owner[s] as nat] == s
    {
      if s in slots {
        var i :| 0 <= i < |slots| && slots[i] == s;
        assert w.owner[slots[i]] == es[i];
      } else {
        UntouchedSlot(v.lru, w.lru, es, slots, v.owner[s]);
      }
    }
  }

  // ---- what an access leaves resident -------------------------------------------

  /** Least-recently-used eviction, stated once for a whole batch: what stays is
      the most recently used that fit. */
  lemma {:induction false} AssignAllKeepsLatest(t: Tracker, es: seq<nat>)
    requires Sound(t) && t.slots > 0 && Distinct(es) && forall e :: e in es ==> e !in t.slotOf
    ensures AssignAll(t, es).0.order == Latest(t.order + es, t.slots)
    decreases |es|
  {
    if es == [] {
      assert t.order + es == t.order;
    } else {
      Peel(es);
      AssignSound(t, es[0]);
      AssignKeepsLatest(t, es[0]);
      Regroup(t.order, es);
      LatestOfLatest(t.order + [es[0]], es[1..], t.slots);
      hide Assign, Sound, Distinct, Latest;
      AssignAllKeepsLatest(Assign(t, es[0]).0, es[1..]);
    }
  }

  lemma Regroup(a: seq<nat>, es: seq<nat>)
    requires es != []
    ensures (a + [es[0]]) + es[1..] == a + es
  {
  }

  lemma AssignKeepsLatest(t: Tracker, e: nat)
    requires Sound(t) && t.slots > 0
    requires t.free == [] ==> t.order != [] && t.order[0] in t.slotOf
    ensures Assign(t, e).0.order == Latest(t.order + [e], t.slots)
  {
    hide Injective, Distinct;
    if t.free == [] {
      assert (t.order + [e])[1..] == t.order[1..] + [e];
    }
  }

  lemma TailResident(t: Tracker, found: seq<nat>, missing: seq<nat>, es: seq<nat>)
    requires Sound(t) && EndsWith(t.order, found + missing) && forall e :: e in es ==> e in found || e in missing
    ensures forall e :: e in es ==> e in t.slotOf
  {
    forall e | e in es ensures e in t.slotOf {
      var tail := found + missing;
      assert e in tail;
      var i :| 0 <= i < |tail| && tail[i] == e;
      TailIn(t, tail, i);
    }
  }

  /** A lookup followed by the install of what it missed: as many distinct experts
      as there are slots all end up resident together. */
  lemma LookupThenAssign(t: Tracker, es: seq<nat>)
    requires Sound(t) && t.slots > 0 && Distinct(es) && |es| <= t.slots
    ensures var (t1, found, missing) := Lookup(t, es);
      && Sound(t1) && t1.slotOf == t.slotOf && t1.slots == t.slots
      && Distinct(missing) && |missing| <= t.slots
      && (forall e :: e in missing <==> e in es && e !in t.slotOf)
      && (forall e :: e in es ==> e in AssignAll(t1, missing).0.slotOf)
  {
    assert EndsWith(t.order, []);
    hide Lookup, AssignAll, EndsWith, Sound, Distinct;
    LookupFacts(t, es, []);
    var (t1, found, missing) := Lookup(t, es);
    assert [] + found == found;
    AssignAllEnds(t1, missing, found);
    TailResident(AssignAll(t1, missing).0, found, missing, es);
  }

  /** Recency changes alone keep the views in agreement. */
  lemma AgreeReordered(store: nat -> Weights, experts: nat, v: Views, t: Tracker)
    requires Agree(store, experts, v)
    requires Sound(t) && t.slots == v.lru.slots && t.slotOf == v.lru.slotOf
    ensures Agree(store, experts, v.(lru := t))
  {
    hide Sound;
  }

  /** An access, on the views: recency settled, what is missing known. */
  lemma AccessFacts(store: nat -> Weights, experts: nat, v: Views, es: seq<nat>)
    requires Agree(store, experts, v) && Distinct(es) && |es| <= v.lru.slots
    ensures Sound(v.lru)
    ensures var (t, found, missing) := Lookup(v.lru, es);
      && Sound(t) && t.slots == v.lru.slots > 0 && t.slotOf == v.lru.slotOf && Agree(store, experts, v.(lru := t))
      && Distinct(missing) && |missing| <= t.slots && (forall e :: e in missing ==> e in es && e !in t.slotOf)
      && (forall e :: e in es ==> e in AssignAll(t, missing).0.slotOf)
      && AssignAll(t, missing).0.order == Latest(Recency(v.lru.order, es) + missing, t.slots)
      && AssignAll(t, []) == (t, []) && (forall e :: e in v.lru.order <==> e in v.lru.slotOf)
      && OrderedBy(v.lru, es, (t, found, missing)) && |found| + |missing| == |es|
  {
    AgreeSound(store, experts, v);
    assert forall e :: e in v.lru.order <==> e in v.lru.slotOf;
    hide Lookup, AssignAll, Latest, Sound, Distinct, Agree, Recency;
    LookupThenAssign(v.lru, es);
    LookupOrder(v.lru, es);
    var (t, found, missing) := Lookup(v.lru, es);
    AssignAllKeepsLatest(t, missing);
    AgreeReordered(store, experts, v, t);
    AssignNone(t);
  }

  lemma {:induction false} LookupAllHits(t: Tracker, es: seq<nat>)
    requires Sound(t) && Distinct(es) && forall e :: e in es ==> e in t.slotOf
    ensures Lookup(t, es).1 == es && Lookup(t, es).2 == []
    decreases |es|
  {
    if es != [] {
      Peel(es);
      assert EndsWith(t.order, []);
      TouchedSound(t, es[0], []);
      LookupAllHits(Touched(t, es[0]), es[1..]);
    }
  }

  /** An all-hit access, on the views. */
  lemma TouchFacts(store: nat -> Weights, experts: nat, v: Views, es: seq<nat>)
    requires Agree(store, experts, v) && Distinct(es) && forall e :: e in es ==> e in v.lru.slotOf
    ensures var (t, found, missing) := Lookup(v.lru, es);
      && Agree(store, experts, v.(lru := t)) && found == es && t.slots == v.lru.slots && t.slotOf == v.lru.slotOf
      && t.order == Excluding(v.lru.order, Members(es)) + es && Accessed(v.lru.order, es, t.order, t.slots)
      && Excluding(es, Members(v.lru.order)) == []
  {
    AgreeSound(store, experts, v);
    hide EndsWith, Lookup, Sound, Distinct, Agree, Recency, Excluding, Among, Accessed;
    EndsEmpty(v.lru.order);
    LookupFacts(v.lru, es, []);
    LookupAllHits(v.lru, es);
    LookupOrder(v.lru, es);
    AllHitAccess(v.lru, es);
    AgreeReordered(store, experts, v, Lookup(v.lru, es).0);
  }

  lemma EndsEmpty(order: seq<nat>)
    ensures EndsWith(order, [])
  {
  }

  function Emptied(slots: nat): (t: Tracker)
    ensures Sound(t)
  {
    Tracker(slots, [], map[], seq(slots, i requires 0 <= i < slots => slots - 1 - i))
  }

  // ---- the cache ----------------------------------------------------------------

  class SlotCache {
    const store: nat -> Weights
    const experts: nat
    const blank: Weights
    var lru: Tracker
    var buffers: seq<Weights>
    var lut: seq<nat>
    var owner: seq<int>
    var hits: nat
    var misses: nat

    ghost function View(): Views
      reads this
    {
      Views(lru, buffers, lut, owner)
    }

    ghost predicate Coherent()
      reads this
    {
      Agree(store, experts, View())
    }

    predicate Resident(e: nat)
      reads this
    {
      e in lru.slotOf
    }

    constructor (store: nat -> Weights, experts: nat, blank: Weights, slots: nat)
      requires slots > 0
      ensures Coherent() && lru.slots == slots && lru.slotOf == map[]
      ensures this.store == store && this.experts == experts && hits == 0 && misses == 0
    {
      this.store, this.experts, this.blank := store, experts, blank;
      lru := Emptied(slots);
      buffers, lut, owner := seq(slots, _ => blank), seq(experts, _ => 0), seq(slots, _ => -1);
      hits, misses := 0, 0;
    }

    /** The weights a window position gathers for expert e through the lazy path,
        and whether the owner check passes for it. */
    function Gather(e: nat): (r: (Weights, bool))
      requires Coherent() && e < experts
      reads this
      ensures r.1 <==> Resident(e)
      ensures r.1 ==> r.0 == store(e)
    {
      OwnerCheckIsResidency(store, experts, View(), e);
      (buffers[lut[e]], owner[lut[e]] == e)
    }

    /** Recency update for an all-hit access. */
    method Touch(es: seq<nat>)
      requires Coherent() && Distinct(es) && forall e :: e in es ==> Resident(e)
      modifies this`lru, this`hits
      ensures Coherent() && lru.order == Excluding(old(lru.order), Members(es)) + es
      ensures lru.slotOf == old(lru.slotOf) && lru.slots == old(lru.slots) && hits == old(hits) + |es|
      ensures Accessed(old(lru.order), es, lru.order, lru.slots) && Excluding(es, Members(old(lru.order))) == []
    {
      hide Lookup, Distinct, Agree, Recency, Excluding, Accessed;
      TouchFacts(store, experts, View(), es);
      var (t, found, missing) := Lookup(lru, es);
      lru, hits := t, hits + |found|;
    }

    /** Assign a slot to each expert and scatter its weights, owner and lut entry. */
    method Write(es: seq<nat>, parts: seq<Weights>)
      requires Coherent() && Distinct(es) && |es| <= lru.slots && |parts| == |es|
      requires forall e :: e in es ==> e < experts && e !in lru.slotOf
      requires forall i :: 0 <= i < |es| ==> parts[i] == store(es[i])
      modifies this`lru, this`buffers, this`lut, this`owner
      ensures Coherent() && lru == AssignAll(old(lru), es).0
    {
      var owners := seq(|es|, i requires 0 <= i < |es| => es[i] as int);
      InstallAgrees(store, experts, View(), es, parts);
      var (t, slots) := AssignAll(lru, es);
      hide AssignAll, Scatter, Agree;
      ghost var w := Written(View(), t, es, slots, parts);
      lru, buffers, owner, lut :=
        t, Scatter(buffers, slots, parts), Scatter(owner, slots, owners), Scatter(lut, es, slots);
      assert View() == w;
    }

    /** Fetch the missing experts and install them as one batch. */
    method Install(missing: seq<nat>)
      requires Coherent() && Distinct(missing) && |missing| <= lru.slots
      requires forall e :: e in missing ==> e < experts && e !in lru.slotOf
      modifies this`lru, this`buffers, this`lut, this`owner
      ensures Coherent() && lru == AssignAll(old(lru), missing).0
    {
      Write(missing, seq(|missing|, i requires 0 <= i < |missing| => store(missing[i])));
    }

    /** A slot for every requested expert, all of them resident at once. What
        else stays is the most recently used that fit. */
    method Acquire(es: seq<nat>)
      requires Coherent() && Distinct(es) && |es| <= lru.slots && forall e :: e in es ==> e < experts
      modifies this`lru, this`buffers, this`lut, this`owner, this`hits, this`misses
      ensures Coherent() && lru.slots == old(lru.slots) && forall e :: e in es ==> Resident(e)
      ensures var missing := Excluding(es, Members(old(lru.order)));
        && lru.order == Latest(Recency(old(lru.order), es) + missing, lru.slots)
        && misses == old(misses) + |missing| && hits == old(hits) + |es| - |missing|
      ensures OldestEvicted(old(lru.order), es, lru.order)
    {
      hide Lookup, AssignAll, Agree, Latest, Sound, Distinct, IndexOf, Recency, Excluding, Among, OldestEvicted;
      AccessFacts(store, experts, View(), es);
      var (t, found, missing) := Lookup(lru, es);
      EvictsOldest(lru.order, es, missing, lru.slots);
      lru, hits, misses := t, hits + |found|, misses + |missing|;
      if missing != [] {
        Install(missing);
      }
    }

    /** Prefill admission: the chunk's hottest experts, copied from the layer's
        materialized stack; resident ones are only touched. */
    method AdmitFromFull(full: nat -> Weights, routed: seq<nat>)
      requires Coherent() && forall e: nat :: e < experts ==> full(e) == store(e)
      modifies this`lru, this`buffers, this`lut, this`owner
      ensures Coherent() && lru.slots == old(lru.slots)
      ensures var hot := Hottest(seq(experts, i => i), routed, lru.slots);
        && (forall e :: e in hot ==> Resident(e))
        && lru.order == Latest(Recency(old(lru.order), hot) + Excluding(hot, Members(old(lru.order))), lru.slots)
        && OldestEvicted(old(lru.order), hot, lru.order)
    {
      var all := seq(experts, i => i);
      HottestFit(all, routed, lru.slots);
      hide Lookup, AssignAll, Agree, Latest, Sound, Distinct, IndexOf, Hottest, Recency, Excluding, OldestEvicted;
      AdmitHot(full, Hottest(all, routed, lru.slots));
    }

    method AdmitHot(full: nat -> Weights, hot: seq<nat>)
      requires Coherent() && Distinct(hot) && |hot| <= lru.slots && forall e :: e in hot ==> e < experts
      requires forall e :: e in hot ==> full(e) == store(e)
      modifies this`lru, this`buffers, this`lut, this`owner
      ensures Coherent() && lru.slots == old(lru.slots) && forall e :: e in hot ==> Resident(e)
      ensures lru.order == Latest(Recency(old(lru.order), hot) + Excluding(hot, Members(old(lru.order))), lru.slots)
      ensures OldestEvicted(old(lru.order), hot, lru.order)
    {
      hide Lookup, AssignAll, Agree, Latest, Sound, Distinct, IndexOf, Recency, Excluding, Among, OldestEvicted;
      AccessFacts(store, experts, View(), hot);
      var (t, found, missing) := Lookup(lru, hot);
      EvictsOldest(lru.order, hot, missing, lru.slots);
      lru := t;
      if missing != [] {
        Write(missing, seq(|missing|, i requires 0 <= i < |missing| => full(missing[i])));
      } else {
        AssignNone(t);
      }
    }

    /** Bank admission: the hottest of a chunk's fetched experts, copied from the
        bank row each was fetched into. */
    method AdmitFromBank(bank: seq<Weights>, missing: seq<nat>, routed: seq<nat>)
      requires Coherent() && |bank| == |missing| && Distinct(missing)
      requires forall i :: 0 <= i < |missing| ==> bank[i] == store(missing[i])
      requires forall e :: e in missing ==> e < experts && e !in lru.slotOf
      modifies this`lru, this`buffers, this`lut, this`owner
      ensures Coherent() && lru.slots == old(lru.slots)
      ensures var hot := Hottest(missing, routed, lru.slots);
        (forall e :: e in hot ==> Resident(e)) && lru.order == Latest(old(lru.order) + hot, lru.slots)
    {
      AgreeSound(store, experts, View());
      var hot := Hottest(missing, routed, lru.slots);
      HottestFit(missing, routed, lru.slots);
      hide AssignAll, Agree, Latest, Sound, Distinct, Hottest;
      AllAssigned(lru, hot);
      RowsAreStored(store, bank, missing, hot);
      hide BankRows;
      Write(hot, BankRows(bank, missing, hot));
    }

    /** Slots where the owner check passes, freshly read weights elsewhere. */
    method GatherElse(es: seq<nat>, spare: map<nat, Weights>) returns (w: seq<Weights>)
      requires Coherent() && forall e :: e in es ==> e < experts
      requires forall e :: e in es ==> Resident(e) || (e in spare && spare[e] == store(e))
      ensures |w| == |es| && forall i :: 0 <= i < |es| ==> w[i] == store(es[i])
    {
      hide Agree;
      w := [];
      for i := 0 to |es|
        invariant |w| == i && forall j :: 0 <= j < i ==> w[j] == store(es[j])
      {
        assert es[i] in es;
        var (row, ok) := Gather(es[i]);
        w := w + [if ok then row else spare[es[i]]];
      }
    }

    /** The synchronous path: admit the missing experts the admission filter lets
        through and serve the others inline. Whichever it picks, every routed
        expert is computed with its own weights. */
    method ServeRouted(es: seq<nat>, inline: set<nat>) returns (w: seq<Weights>)
      requires Coherent() && Distinct(es) && |es| <= lru.slots && forall e :: e in es ==> e < experts
      modifies this`lru, this`buffers, this`lut, this`owner, this`hits, this`misses
      ensures Coherent() && lru.slots == old(lru.slots)
      ensures |w| == |es| && forall i :: 0 <= i < |es| ==> w[i] == store(es[i])
      ensures var missing := Excluding(es, Members(old(lru.order)));
        && misses == old(misses) + |missing| && hits == old(hits) + |es| - |missing|
        && lru.order == Latest(Recency(old(lru.order), es) + Excluding(missing, inline), lru.slots)
        && OldestEvicted(old(lru.order), es, lru.order)
      ensures forall e :: e in es ==> (Resident(e) <==> e in old(lru.order) || e !in inline)
    {
      hide Lookup, AssignAll, Agree, Latest, Sound, Distinct, IndexOf, Recency, Excluding, Among, OldestEvicted;
      AccessFacts(store, experts, View(), es);
      AdmittedOrder(lru, es, inline);
      var (t, found, missing) := Lookup(lru, es);
      var admit := Excluding(missing, inline);
      AdmittedResident(lru, es, admit);
      lru, hits, misses := t, hits + |found|, misses + |missing|;
      if admit != [] {
        Install(admit);
      }
      w := GatherElse(es, map e | e in missing && e in inline :: store(e));
    }

    /** Recency and counters for a batch of any size; what is not resident. */
    method Recall(es: seq<nat>) returns (missing: seq<nat>)
      requires Coherent() && Distinct(es)
      modifies this`lru, this`hits, this`misses
      ensures Coherent() && lru.slots == old(lru.slots) && lru.slotOf == old(lru.slotOf) && Distinct(missing)
      ensures lru.order == Recency(old(lru.order), es) && missing == Excluding(es, Members(old(lru.order)))
      ensures misses == old(misses) + |missing| && hits == old(hits) + |es| - |missing|
      ensures forall e :: e in missing <==> e in es && !Resident(e)
    {
      assert EndsWith(lru.order, []);
      AgreeSound(store, experts, View());
      hide Lookup, Agree, Sound, Distinct, EndsWith, Recency, Excluding, Among;
      LookupFacts(lru, es, []);
      LookupOrder(lru, es);
      var (t, found, absent) := Lookup(lru, es);
      AgreeReordered(store, experts, View(), t);
      missing := absent;
      lru, hits, misses := t, hits + |found|, misses + |missing|;
    }

    /** The banked path of a short chunk: slots where the owner check passes, the
        freshly fetched bank elsewhere, and the hottest of the bank admitted. */
    method ServeBanked(es: seq<nat>, routed: seq<nat>) returns (w: seq<Weights>)
      requires Coherent() && Distinct(es) && forall e :: e in es ==> e < experts
      modifies this`lru, this`buffers, this`lut, this`owner, this`hits, this`misses
      ensures Coherent() && lru.slots == old(lru.slots)
      ensures |w| == |es| && forall i :: 0 <= i < |es| ==> w[i] == store(es[i])
      ensures var missing := Excluding(es, Members(old(lru.order))); var hot := Hottest(missing, routed, lru.slots);
        && misses == old(misses) + |missing| && hits == old(hits) + |es| - |missing|
        && (forall e :: e in hot ==> Resident(e)) && lru.order == Latest(Recency(old(lru.order), es) + hot, lru.slots)
    {
      hide Recency, Excluding, Lookup, AssignAll, Agree, Latest, Sound, Distinct, EndsWith, Hottest, View;
      var missing := Recall(es);
      var bank := seq(|missing|, i requires 0 <= i < |missing| => store(missing[i]));
      w := GatherElse(es, Bank(bank, missing));
      AdmitFromBank(bank, missing, routed);
    }

    /** One expert into a free slot. */
    method WriteOne(e: nat, w: Weights)
      requires Coherent() && e < experts && e !in lru.slotOf && lru.free != [] && w == store(e)
      modifies this`lru, this`buffers, this`lut, this`owner
      ensures Coherent() && lru.order == old(lru.order) + [e] && lru.slots == old(lru.slots)
      ensures |lru.free| == |old(lru.free)| - 1
    {
      InstallAgrees(store, experts, View(), [e], [w]);
      AssignSound(lru, e);
      AssignOne(lru, e);
      var (t, slot) := Assign(lru, e);
      ScatterOne(buffers, slot, w);
      ScatterOne(lut, e, slot);
      ScatterOne(owner, slot, e as int);
      hide AssignAll, Scatter, Agree;
      ghost var after := Written(View(), t, [e], [slot], [w]);
      assert seq(1, i requires 0 <= i < 1 => [e][i] as int) == [e as int];
      lru, buffers, owner, lut := t, buffers[slot := w], owner[slot := e], lut[e := slot];
      assert View() == after;
    }

    /** Fresh arrays and an empty tracker of the given size. */
    method Clear(slots: nat)
      requires slots > 0
      modifies this`lru, this`buffers, this`lut, this`owner
      ensures Coherent() && lru.slots == slots && lru.order == [] && |lru.free| == slots
    {
      hide Distinct;
      lru := Emptied(slots);
      buffers, lut, owner := seq(slots, _ => blank), seq(experts, _ => 0), seq(slots, _ => -1);
    }

    /** Elastic resize: fresh arrays, and the most recently used experts moved over,
        most recent first, which leaves their recency order reversed. */
    method Resize(slots: nat)
      requires Coherent() && slots > 0
      modifies this`lru, this`buffers, this`lut, this`owner
      ensures Coherent() && lru.slots == slots
      ensures lru.order == Reversed(Latest(old(lru.order), slots))
    {
      hide Agree, Sound, Latest, Reversed, Distinct;
      var before, oldBuffers := lru, buffers;
      var keep := Reversed(Latest(lru.order, slots));
      KeepFacts(store, experts, View(), slots);
      Clear(slots);
      var i := 0;
      while i < |keep|
        invariant i <= |keep| && Coherent() && lru.slots == slots
        invariant lru.order == keep[..i] && |lru.free| == slots - i
      {
        AgreeSound(store, experts, View());
        ResizeStep(lru, keep, i);
        assert keep[..i + 1] == keep[..i] + [keep[i]];
        WriteOne(keep[i], oldBuffers[before.slotOf[keep[i]]]);
        i := i + 1;
      }
      assert keep[..i] == keep;
    }
  }

  /** A fetched bank, by expert. */
  function Bank(bank: seq<Weights>, missing: seq<nat>): (m: map<nat, Weights>)
    requires |bank| == |missing|
    ensures forall e :: e in m <==> e in missing
    ensures forall e :: e in m ==> exists i :: 0 <= i < |missing| && missing[i] == e && m[e] == bank[i]
  {
    map e | e in missing :: bank[IndexOf(missing, e)]
  }

  /** The bank's rows of the experts to admit. */
  function BankRows(bank: seq<Weights>, missing: seq<nat>, hot: seq<nat>): (w: seq<Weights>)
    requires |bank| == |missing| && forall e :: e in hot ==> e in missing
    ensures |w| == |hot|
    ensures forall k :: 0 <= k < |hot| ==> exists i :: 0 <= i < |missing| && missing[i] == hot[k] && w[k] == bank[i]
  {
    var m := Bank(bank, missing);
    var w := seq(|hot|, k requires 0 <= k < |hot| => m[hot[k]]);
    assert forall k :: 0 <= k < |hot| ==> hot[k] in m && w[k] == m[hot[k]];
    w
  }

  lemma RowsAreStored(store: nat -> Weights, bank: seq<Weights>, missing: seq<nat>, hot: seq<nat>)
    requires |bank| == |missing| && forall i :: 0 <= i < |missing| ==> bank[i] == store(missing[i])
    requires forall e :: e in hot ==> e in missing
    ensures forall k :: 0 <= k < |hot| ==> BankRows(bank, missing, hot)[k] == store(hot[k])
  {
  }

  /** Installing part of what a lookup missed evicts none of what it found. */
  lemma AdmittedResident(t: Tracker, es: seq<nat>, admit: seq<nat>)
    requires Sound(t) && t.slots > 0 && Distinct(es) && |es| <= t.slots
    requires Distinct(admit) && |admit| <= |Lookup(t, es).2| && forall e :: e in admit ==> e in Lookup(t, es).2
    ensures var (t1, found, missing) := Lookup(t, es);
      && Sound(t1) && t1.slots == t.slots && t1.slotOf == t.slotOf && |admit| <= t.slots
      && (forall e :: e in admit ==> e in es && e !in t1.slotOf)
      && AssignAll(t1, []) == (t1, [])
      && (forall e :: e in es && (e !in missing || e in admit) ==> e in AssignAll(t1, admit).0.slotOf)
  {
    assert EndsWith(t.order, []);
    hide Lookup, AssignAll, EndsWith, Sound, Distinct;
    LookupFacts(t, es, []);
    var (t1, found, missing) := Lookup(t, es);
    assert [] + found == found;
    AssignNone(t1);
    AssignAllEnds(t1, admit, found);
    TailResident(AssignAll(t1, admit).0, found, admit, found + admit);
    assert forall e :: e in es && (e !in missing || e in admit) ==> e in found + admit;
  }

  /** What an admission of part of what was missed leaves: the most recent that fit,
      and of the request all but what was kept out. */
  lemma AdmittedOrder(t: Tracker, es: seq<nat>, inline: set<nat>)
    requires Sound(t) && t.slots > 0 && Distinct(es) && |es| <= t.slots
    ensures var (t1, found, missing) := Lookup(t, es); var admit := Excluding(missing, inline);
      && Distinct(missing) && Distinct(admit) && |admit| <= |missing| && (forall e :: e in admit ==> e in missing && e !in inline)
      && Sound(t1) && t1.slots == t.slots && |admit| <= t.slots && (forall e :: e in admit ==> e !in t1.slotOf)
      && AssignAll(t1, []) == (t1, [])
      && var now := AssignAll(t1, admit).0;
        && now.order == Latest(Recency(t.order, es) + admit, t.slots) && OldestEvicted(t.order, es, now.order)
        && forall e :: e in es ==> (e in now.slotOf <==> e in t.order || e !in inline)
  {
    assert forall e :: e in t.order <==> e in t.slotOf;
    assert EndsWith(t.order, []);
    hide Lookup, AssignAll, Excluding, Among, Sound, Distinct, Latest, Recency, OldestEvicted, EndsWith;
    LookupFacts(t, es, []);
    LookupOrder(t, es);
    var (t1, found, missing) := Lookup(t, es);
    var admit := Excluding(missing, inline);
    ExcludingHolds(missing, inline);
    ExcludingDistinct(missing, inline);
    AdmittedResident(t, es, admit);
    AssignAllInstalls(t1, admit);
    AssignAllKeepsLatest(t1, admit);
    EvictsOldest(t.order, es, admit, t.slots);
  }

  lemma AssignNone(t: Tracker)
    requires Sound(t) && t.slots > 0
    ensures AssignAll(t, []) == (t, [])
  {
  }

  lemma AssignOne(t: Tracker, e: nat)
    requires Sound(t) && t.slots > 0 && e !in t.slotOf
    requires t.free == [] ==> t.order != [] && t.order[0] in t.slotOf
    ensures Sound(Assign(t, e).0)
    ensures AssignAll(t, [e]) == (Assign(t, e).0, [Assign(t, e).1])
  {
    AssignSound(t, e);
    hide Assign, Sound;
    assert [e][1..] == [];
    var (t', slot) := Assign(t, e);
    assert AssignAll(t', [e][1..]) == (t', []);
    assert [slot] + [] == [slot];
  }

  lemma ScatterOne<T>(a: seq<T>, k: nat, v: T)
    requires k < |a|
    ensures Scatter(a, [k], [v]) == a[k := v]
  {
    assert [k][1..] == [] && [v][1..] == [];
  }

  lemma AgreeSound(store: nat -> Weights, experts: nat, v: Views)
    requires Agree(store, experts, v)
    ensures Sound(v.lru)
  {
  }

  /** What a resize moves over: distinct residents, each with its slot's weights. */
  lemma KeepFacts(store: nat -> Weights, experts: nat, v: Views, slots: nat)
    requires Agree(store, experts, v)
    ensures var keep := Reversed(Latest(v.lru.order, slots));
      && |keep| <= slots && Distinct(keep)
      && forall i :: 0 <= i < |keep| ==>
           && keep[i] in v.lru.slotOf && keep[i] < experts && v.lru.slotOf[keep[i]] < |v.buffers|
           && v.buffers[v.lru.slotOf[keep[i]]] == store(keep[i])
  {
    hide Injective;
    var keep: seq<nat> := Reversed(Latest(v.lru.order, slots));
    forall i | 0 <= i < |keep|
      ensures keep[i] in v.lru.slotOf && keep[i] < experts && v.lru.slotOf[keep[i]] < |v.buffers|
      ensures v.buffers[v.lru.slotOf[keep[i]]] == store(keep[i])
    {
      assert keep[i] in v.lru.order;
    }
  }

  lemma ResizeStep(t: Tracker, keep: seq<nat>, i: nat)
    requires Sound(t) && Distinct(keep) && i < |keep| && t.order == keep[..i]
    ensures keep[i] !in t.slotOf
  {
    assert forall j :: 0 <= j < i ==> t.order[j] != keep[i];
  }
}
