/** Scoring a closed set of answers over a token trie: candidates that are a prefix
    of another are closed with the stop token, and every path's conditional
    log-probabilities are added up with one forward pass per inner node. */
module TrieScore {
  import opened Collections
  import opened Network
  import opened Target

  predicate StrictPrefix(a: seq<Token>, b: seq<Token>) {
    |a| < |b| && b[..|a|] == a
  }

  // ---- closing the shadowed candidates ----------------------------------------------

  /** Some candidate is a strict, non-empty prefix of another: the code's own test. */
  ghost predicate CodePrefixFree(lists: seq<seq<Token>>) {
    forall i, j :: 0 <= i < |lists| && 0 <= j < |lists| && lists[i] != [] ==> !StrictPrefix(lists[i], lists[j])
  }

  ghost predicate PrefixFree(lists: seq<seq<Token>>) {
    forall i, j :: 0 <= i < |lists| && 0 <= j < |lists| ==> !StrictPrefix(lists[i], lists[j])
  }

  /** The candidate is a strict, non-empty prefix of some other. */
  predicate Shadowed(lists: seq<seq<Token>>, t: seq<Token>) {
    t != [] && exists j :: 0 <= j < |lists| && StrictPrefix(t, lists[j])
  }

  function Closed(lists: seq<seq<Token>>, t: seq<Token>, stop: Token): seq<Token> {
    if Shadowed(lists, t) then t + [stop] else t
  }

  /** The strict prefixes of every candidate, and each candidate that is among them
      closed with the stop token. */
  method Disambiguate(lists: seq<seq<Token>>, stop: Token) returns (out: seq<seq<Token>>)
    ensures |out| == |lists| && forall i :: 0 <= i < |lists| ==> out[i] == Closed(lists, lists[i], stop)
    ensures forall i :: 0 <= i < |lists| ==> out[i] == lists[i] || out[i] == lists[i] + [stop]
    ensures forall i :: 0 <= i < |lists| ==>
      (|out[i]| == |lists[i]| + 1 <==> lists[i] != [] && exists j :: 0 <= j < |lists| && StrictPrefix(lists[i], lists[j]))
  {
    var longer := {};
    for j := 0 to |lists|
      invariant Prefixes(lists, j, longer)
    {
      longer := AddPrefixes(lists, j, longer);
    }
    out := [];
    for i := 0 to |lists|
      invariant |out| == i && forall k :: 0 <= k < i ==> out[k] == Closed(lists, lists[k], stop)
    {
      PrefixesShadow(lists, longer, lists[i]);
      out := out + [if lists[i] in longer then lists[i] + [stop] else lists[i]];
    }
  }

  /** The strict, non-empty prefixes of the first j candidates. */
  ghost predicate Prefixes(lists: seq<seq<Token>>, j: nat, longer: set<seq<Token>>)
    requires j <= |lists|
  {
    forall p :: p in longer <==> p != [] && exists k :: 0 <= k < j && StrictPrefix(p, lists[k])
  }

  lemma PrefixesShadow(lists: seq<seq<Token>>, longer: set<seq<Token>>, t: seq<Token>)
    requires Prefixes(lists, |lists|, longer)
    ensures t in longer <==> Shadowed(lists, t)
  {
  }

  /** Added are the non-empty prefixes of t shorter than i. */
  ghost predicate Grown(t: seq<Token>, i: nat, longer: set<seq<Token>>, more: set<seq<Token>>) {
    forall p :: p in more <==> p in longer || (p != [] && |p| < i && StrictPrefix(p, t))
  }

  lemma GrowsOn(t: seq<Token>, i: nat, longer: set<seq<Token>>, more: set<seq<Token>>)
    requires 1 <= i < |t| && Grown(t, i, longer, more)
    ensures Grown(t, i + 1, longer, more + {t[..i]})
  {
    forall p: seq<Token> ensures p != [] && |p| < i + 1 && StrictPrefix(p, t) <==> (p != [] && |p| < i && StrictPrefix(p, t)) || p == t[..i] {
      if |p| == i && StrictPrefix(p, t) { assert p == t[..i]; }
    }
  }

  lemma GrownToPrefixes(lists: seq<seq<Token>>, j: nat, longer: set<seq<Token>>, more: set<seq<Token>>)
    requires j < |lists| && Prefixes(lists, j, longer)
    requires Grown(lists[j], if |lists[j]| == 0 then 1 else |lists[j]|, longer, more)
    ensures Prefixes(lists, j + 1, more)
  {
    forall p ensures p in more <==> p != [] && exists k :: 0 <= k < j + 1 && StrictPrefix(p, lists[k]) {
      if p in more && p !in longer { assert StrictPrefix(p, lists[j]); }
    }
  }

  method AddPrefixes(lists: seq<seq<Token>>, j: nat, longer: set<seq<Token>>) returns (more: set<seq<Token>>)
    requires j < |lists| && Prefixes(lists, j, longer)
    ensures Prefixes(lists, j + 1, more)
  {
    more := longer;
    var t := lists[j];
    assert Grown(t, 1, longer, more);
    hide Grown, Prefixes;
    for i := 1 to if |t| == 0 then 1 else |t|
      invariant Grown(t, i, longer, more)
    {
      GrowsOn(t, i, longer, more);
      more := more + {t[..i]};
    }
    GrownToPrefixes(lists, j, longer, more);
  }

  /** One closed candidate is never a strict, non-empty prefix of another. */
  lemma ClosedApart(lists: seq<seq<Token>>, stop: Token, i: nat, j: nat)
    requires i < |lists| && j < |lists| && lists[i] != [] && stop !in lists[i] && stop !in lists[j]
    ensures !StrictPrefix(Closed(lists, lists[i], stop), Closed(lists, lists[j], stop))
  {
    var a, b := lists[i], lists[j];
    var ra, rb := Closed(lists, a, stop), Closed(lists, b, stop);
    assert StrictPrefix(a, b) ==> Shadowed(lists, a);
    hide Shadowed;
    if |ra| < |rb| {
      if Shadowed(lists, a) {
        assert rb[|a|] == b[|a|] && b[|a|] in b;
        assert ra[|a|] == stop && rb[..|ra|][|a|] == rb[|a|];
      } else {
        assert rb[..|a|] == b[..|a|];
        assert |a| == |b| ==> b[..|a|] == b;
      }
    }
  }

  /** With no stop token inside a candidate, the closed set passes the code's own
      test; it is truly prefix-free exactly if no empty candidate stands beside a
      non-empty one, because an empty one is never closed. */
  lemma DisambiguatePrefixFree(lists: seq<seq<Token>>, stop: Token, out: seq<seq<Token>>)
    requires forall i :: 0 <= i < |lists| ==> stop !in lists[i]
    requires |out| == |lists| && forall i :: 0 <= i < |lists| ==> out[i] == Closed(lists, lists[i], stop)
    ensures CodePrefixFree(out)
    ensures PrefixFree(out) <==> !([] in lists && exists j :: 0 <= j < |lists| && lists[j] != [])
  {
    hide Shadowed;
    forall i, j | 0 <= i < |out| && 0 <= j < |out| && out[i] != [] ensures !StrictPrefix(out[i], out[j]) {
      if lists[i] != [] { ClosedApart(lists, stop, i, j); } else { EmptyStays(lists, stop); }
    }
    EmptyStays(lists, stop);
    if [] in lists && exists j :: 0 <= j < |lists| && lists[j] != [] {
      var i :| 0 <= i < |lists| && lists[i] == [];
      var j :| 0 <= j < |lists| && lists[j] != [];
      assert StrictPrefix(out[i], out[j]);
    } else {
      forall i, j | 0 <= i < |out| && 0 <= j < |out| ensures !StrictPrefix(out[i], out[j]) {
        if lists[i] == [] { assert lists[i] in lists && lists[j] == []; }
      }
    }
  }

  lemma EmptyStays(lists: seq<seq<Token>>, stop: Token)
    ensures Closed(lists, [], stop) == []
    ensures forall t :: t != [] ==> Closed(lists, t, stop) != []
  {
  }

  /** An empty candidate beside another one stays its prefix. */
  method EmptyCandidate(t: Token, stop: Token) returns (out: seq<seq<Token>>)
    requires t != stop
    ensures out == [[], [t]] && !PrefixFree(out)
  {
    hide PrefixFree, CodePrefixFree, Shadowed, StrictPrefix;
    var lists: seq<seq<Token>> := [[], [t]];
    NoneShadowed(t);
    out := Disambiguate(lists, stop);
    assert out[0] == lists[0] && out[1] == lists[1];
    DisambiguatePrefixFree(lists, stop, out);
    assert lists[0] in lists && lists[1] != [];
  }

  lemma NoneShadowed(t: Token)
    ensures !Shadowed([[], [t]], []) && !Shadowed([[], [t]], [t])
  {
  }

  // ---- Kraft's bound ------------------------------------------------------------------

  /** Conditional probability of a token behind a path. */
  type Cond = (seq<Token>, Token) -> real

  ghost function TokenMass(p: Cond, s: seq<Token>, ts: set<Token>): real {
    if ts == {} then 0.0
    else
      var t :| t in ts;
      p(s, t) + TokenMass(p, s, ts - {t})
  }

  lemma {:induction false} TokenMassPick(p: Cond, s: seq<Token>, ts: set<Token>, t: Token)
    requires t in ts
    ensures TokenMass(p, s, ts) == p(s, t) + TokenMass(p, s, ts - {t})
    decreases |ts|
  {
    var u :| u in ts && TokenMass(p, s, ts) == p(s, u) + TokenMass(p, s, ts - {u});
    if u != t {
      TokenMassPick(p, s, ts - {u}, t);
      TokenMassPick(p, s, ts - {t}, u);
      assert ts - {u} - {t} == ts - {t} - {u};
    }
  }

  /** The model's next-token distributions: non-negative, together at most one. */
  ghost predicate Subdistribution(p: Cond) {
    && (forall s, t :: p(s, t) >= 0.0)
    && (forall s, ts: set<Token> :: TokenMass(p, s, ts) <= 1.0)
  }

  function PathProb(p: Cond, s: seq<Token>, x: seq<Token>): real
    decreases |x|
  {
    if x == [] then 1.0 else Mul(p(s, x[0]), PathProb(p, s + [x[0]], x[1..]))
  }

  ghost function PathMass(p: Cond, s: seq<Token>, xs: set<seq<Token>>): real {
    if xs == {} then 0.0
    else
      var x :| x in xs;
      PathProb(p, s, x) + PathMass(p, s, xs - {x})
  }

  lemma {:induction false} PathMassPick(p: Cond, s: seq<Token>, xs: set<seq<Token>>, x: seq<Token>)
    requires x in xs
    ensures PathMass(p, s, xs) == PathProb(p, s, x) + PathMass(p, s, xs - {x})
    decreases |xs|
  {
    hide PathProb;
    var y :| y in xs && PathMass(p, s, xs) == PathProb(p, s, y) + PathMass(p, s, xs - {y});
    if y != x {
      PathMassPick(p, s, xs - {y}, x);
      PathMassPick(p, s, xs - {x}, y);
      assert xs - {y} - {x} == xs - {x} - {y};
    }
  }

  lemma {:induction false} PathMassSplit(p: Cond, s: seq<Token>, a: set<seq<Token>>, b: set<seq<Token>>)
    requires a !! b
    ensures PathMass(p, s, a + b) == PathMass(p, s, a) + PathMass(p, s, b)
    decreases |a|
  {
    hide PathProb;
    if a == {} {
      assert a + b == b;
    } else {
      var x :| x in a;
      PathMassPick(p, s, a, x);
      PathMassPick(p, s, a + b, x);
      assert a + b - {x} == (a - {x}) + b;
      PathMassSplit(p, s, a - {x}, b);
    }
  }

  ghost predicate PrefixFreeSet(xs: set<seq<Token>>) {
    forall x, y :: x in xs && y in xs ==> !StrictPrefix(x, y)
  }

  /** The rests of the paths that begin with a token. */
  ghost function Tails(xs: set<seq<Token>>, t: Token): (r: set<seq<Token>>)
    ensures forall y :: y in r <==> [t] + y in xs
  {
    var r := set x | x in xs && x != [] && x[0] == t :: x[1..];
    assert forall x :: x != [] && x[0] == t ==> x == [t] + x[1..];
    assert forall y :: ([t] + y)[1..] == y;
    r
  }

  ghost function Heads(xs: set<seq<Token>>, t: Token): set<seq<Token>> {
    set x | x in xs && x != [] && x[0] == t
  }

  lemma TailsEmpty(xs: set<seq<Token>>, t: Token)
    requires Heads(xs, t) == {}
    ensures Tails(xs, t) == {}
  {
    hide Tails;
    forall y ensures y !in Tails(xs, t) { assert ([t] + y)[0] == t; assert [t] + y !in Heads(xs, t); }
  }

  lemma TailsWithout(xs: set<seq<Token>>, t: Token, x: seq<Token>)
    requires x in Heads(xs, t)
    ensures x == [t] + x[1..] && x[1..] in Tails(xs, t)
    ensures Heads(xs - {x}, t) == Heads(xs, t) - {x} && Tails(xs - {x}, t) == Tails(xs, t) - {x[1..]}
  {
    hide Tails;
    var y := x[1..];
    assert x == [t] + y;
    forall z ensures z in Tails(xs - {x}, t) <==> z in Tails(xs, t) && z != y {
      assert ([t] + z)[1..] == z;
      assert [t] + z == x <==> z == y;
    }
  }

  lemma {:induction false} HeadsMass(p: Cond, s: seq<Token>, xs: set<seq<Token>>, t: Token)
    ensures PathMass(p, s, Heads(xs, t)) == Mul(p(s, t), PathMass(p, s + [t], Tails(xs, t)))
    decreases |xs|
  {
    hide PathMass, PathProb, Mul, Tails;
    if Heads(xs, t) == {} {
      NoHeadsNoMass(p, s, xs, t);
    } else {
      var x :| x in Heads(xs, t);
      assert x in xs;
      TailsWithout(xs, t, x);
      hide Heads;
      HeadsMassPick(p, s, xs, t, x);
      HeadsMass(p, s, xs - {x}, t);
    }
  }

  lemma NoHeadsNoMass(p: Cond, s: seq<Token>, xs: set<seq<Token>>, t: Token)
    requires Heads(xs, t) == {}
    ensures PathMass(p, s, Heads(xs, t)) == Mul(p(s, t), PathMass(p, s + [t], Tails(xs, t)))
  {
    TailsEmpty(xs, t);
    assert PathMass(p, s, {}) == PathMass(p, s + [t], {}) == 0.0;
  }

  lemma HeadsMassPick(p: Cond, s: seq<Token>, xs: set<seq<Token>>, t: Token, x: seq<Token>)
    requires x in Heads(xs, t) && x == [t] + x[1..] && x[1..] in Tails(xs, t) && x in xs
    requires Heads(xs - {x}, t) == Heads(xs, t) - {x} && Tails(xs - {x}, t) == Tails(xs, t) - {x[1..]}
    ensures PathMass(p, s, Heads(xs, t)) == Mul(p(s, t), PathProb(p, s + [t], x[1..])) + PathMass(p, s, Heads(xs - {x}, t))
    ensures Mul(p(s, t), PathMass(p, s + [t], Tails(xs, t))) ==
      Mul(p(s, t), PathProb(p, s + [t], x[1..])) + Mul(p(s, t), PathMass(p, s + [t], Tails(xs - {x}, t)))
  {
    var y := x[1..];
    assert PathProb(p, s, x) == Mul(p(s, t), PathProb(p, s + [t], y));
    hide PathMass, PathProb, Mul, Tails, Heads;
    PathMassPick(p, s, Heads(xs, t), x);
    PathMassPick(p, s + [t], Tails(xs, t), y);
    Distribute(p(s, t), PathProb(p, s + [t], y), PathMass(p, s + [t], Tails(xs, t) - {y}));
  }

  lemma Distribute(a: real, b: real, c: real)
    ensures Mul(a, b + c) == Mul(a, b) + Mul(a, c)
  {
  }

  /** The path probabilities of distinct prefix-free candidates sum to at most one. */
  lemma {:induction false} Kraft(p: Cond, s: seq<Token>, xs: set<seq<Token>>, longest: nat)
    requires Subdistribution(p) && PrefixFreeSet(xs) && forall x :: x in xs ==> |x| <= longest
    ensures PathMass(p, s, xs) <= 1.0
    decreases longest, 1
  {
    if [] in xs {
      forall x | x in xs ensures x == [] { assert !StrictPrefix([], x); }
      assert xs == {[]};
      PathMassPick(p, s, xs, []);
      assert xs - {[]} == {};
    } else {
      var firsts := set x | x in xs && x != [] :: x[0];
      KraftBranches(p, s, xs, firsts, longest);
    }
  }

  lemma {:induction false} KraftBranches(p: Cond, s: seq<Token>, xs: set<seq<Token>>, ts: set<Token>, longest: nat)
    requires Subdistribution(p) && PrefixFreeSet(xs) && forall x :: x in xs ==> |x| <= longest
    requires forall x :: x in xs ==> x != [] && x[0] in ts
    ensures PathMass(p, s, xs) <= TokenMass(p, s, ts)
    decreases longest, 0, |ts|
  {
    if ts == {} {
      assert xs == {};
    } else {
      var t :| t in ts;
      TokenMassPick(p, s, ts, t);
      var hs := Heads(xs, t);
      KraftBranches(p, s, xs - hs, ts - {t}, longest);
      BranchBound(p, s, xs, t, longest);
      assert xs == hs + (xs - hs);
      PathMassSplit(p, s, hs, xs - hs);
    }
  }

  lemma TailsPrefixFree(xs: set<seq<Token>>, t: Token, longest: nat)
    requires PrefixFreeSet(xs) && forall x :: x in xs ==> |x| <= longest
    ensures PrefixFreeSet(Tails(xs, t)) && forall y :: y in Tails(xs, t) ==> |y| < longest
  {
    var tails := Tails(xs, t);
    hide Tails;
    forall y | y in tails ensures |y| < longest { assert [t] + y in xs; }
    forall x, y | x in tails && y in tails ensures !StrictPrefix(x, y) {
      assert !StrictPrefix([t] + x, [t] + y);
      LongerPrefix(t, x, y);
    }
  }

  lemma LongerPrefix(t: Token, x: seq<Token>, y: seq<Token>)
    ensures StrictPrefix(x, y) ==> StrictPrefix([t] + x, [t] + y)
  {
    if StrictPrefix(x, y) { assert ([t] + y)[..|x| + 1] == [t] + y[..|x|]; }
  }

  lemma {:induction false} BranchBound(p: Cond, s: seq<Token>, xs: set<seq<Token>>, t: Token, longest: nat)
    requires Subdistribution(p) && PrefixFreeSet(xs) && forall x :: x in xs ==> x != [] && |x| <= longest
    ensures PathMass(p, s, Heads(xs, t)) <= p(s, t)
    decreases longest, 0, 0
  {
    if Heads(xs, t) != {} {
      HeadsMass(p, s, xs, t);
      TailsPrefixFree(xs, t, longest);
      var x :| x in Heads(xs, t);
      hide PathMass, Heads, Tails, PrefixFreeSet, Mul, TokenMass;
      Kraft(p, s + [t], Tails(xs, t), longest - 1);
      Scale(p(s, t), PathMass(p, s + [t], Tails(xs, t)));
    }
  }

  lemma Scale(a: real, b: real)
    requires a >= 0.0 && b <= 1.0
    ensures Mul(a, b) <= a
  {
  }

  /** The answers' probabilities form a sub-distribution: distinct, non-empty
      candidates without the stop token, once closed. */
  lemma ClosedCandidatesSubdistribution(p: Cond, prompt: seq<Token>, lists: seq<seq<Token>>, stop: Token, out: seq<seq<Token>>)
    requires Subdistribution(p) && [] !in lists && forall i :: 0 <= i < |lists| ==> stop !in lists[i]
    requires |out| == |lists| && forall i :: 0 <= i < |lists| ==> out[i] == Closed(lists, lists[i], stop)
    ensures PathMass(p, prompt, set x | x in out) <= 1.0
  {
    DisambiguatePrefixFree(lists, stop, out);
    var xs := set x | x in out;
    forall x, y | x in xs && y in xs ensures !StrictPrefix(x, y) {
      var i :| 0 <= i < |out| && out[i] == x;
      var j :| 0 <= j < |out| && out[j] == y;
    }
    var longest := Longest(out);
    Kraft(p, prompt, xs, longest);
  }

  function Longest(out: seq<seq<Token>>): (n: nat)
    ensures forall x :: x in out ==> |x| <= n
  {
    if out == [] then 0
    else
      assert out == [out[0]] + out[1..];
      var n := Longest(out[1..]);
      if |out[0]| > n then |out[0]| else n
  }

  // ---- the walk -------------------------------------------------------------------------

  lemma DistinctSnoc(s: seq<nat>, x: nat)
    requires Distinct(s) && x !in s
    ensures Distinct(s + [x])
  {
  }

  lemma DistinctOne(x: nat)
    ensures Distinct([x])
  {
  }

  class TrieWalker {
    const m: Model
    const logprob: (Hid, Token) -> real   // what the head's normalized logits say of a token
    const lists: seq<seq<Token>>
    const totals: array<real>

    constructor (m: Model, logprob: (Hid, Token) -> real, lists: seq<seq<Token>>)
      ensures this.m == m && this.logprob == logprob && this.lists == lists
      ensures fresh(totals) && Valid() && forall i :: 0 <= i < totals.Length ==> totals[i] == 0.0
    {
      this.m, this.logprob, this.lists := m, logprob, lists;
      totals := new real[|lists|](_ => 0.0);
    }

    predicate Valid() {
      totals.Length == |lists|
    }

    /** Sum of the conditional log-probabilities of a path behind a context. */
    ghost function Score(s: seq<Token>, rest: seq<Token>): real
      requires s != []
      decreases |rest|
    {
      if rest == [] then 0.0 else logprob(HiddenAfter(m, s), rest[0]) + Score(s + [rest[0]], rest[1..])
    }

    ghost predicate Pending(indices: seq<nat>, depth: nat) {
      Valid() && Distinct(indices) && forall k :: 0 <= k < |indices| ==> indices[k] < |lists| && |lists[indices[k]]| > depth
    }

    /** The candidates at a node, by next token, in order of first appearance. */
    method Group(indices: seq<nat>, depth: nat) returns (tokens: seq<Token>, rows: map<Token, seq<nat>>)
      requires Pending(indices, depth)
      ensures forall i, j :: 0 <= i < j < |tokens| ==> tokens[i] != tokens[j]
      ensures forall t :: t in rows <==> t in tokens
      ensures forall t :: t in rows ==> Distinct(rows[t]) && Pending(rows[t], depth)
      ensures forall t, i :: t in rows ==> (i in rows[t] <==> i in indices && i < |lists| && |lists[i]| > depth && lists[i][depth] == t)
      ensures forall i :: i in indices && i < |lists| && |lists[i]| > depth ==> lists[i][depth] in tokens
    {
      hide Pending, Grouped;
      tokens, rows := [], map[];
      NoneGrouped(depth);
      for k := 0 to |indices|
        invariant Grouped(tokens, rows, indices[..k], depth)
      {
        PendingAt(indices, depth, indices[k]);
        var i := indices[k];
        var t := lists[i][depth];
        GroupedOne(tokens, rows, indices, k, depth);
        if t !in rows {
          tokens, rows := tokens + [t], rows[t := [i]];
        } else {
          rows := rows[t := rows[t] + [i]];
        }
      }
      assert indices[..|indices|] == indices;
      GroupedAll(tokens, rows, indices, depth);
    }

    /** The candidates seen so far, by next token. */
    ghost predicate Grouped(tokens: seq<Token>, rows: map<Token, seq<nat>>, seen: seq<nat>, depth: nat) {
      && (forall i, j :: 0 <= i < j < |tokens| ==> tokens[i] != tokens[j])
      && (forall t :: t in rows <==> t in tokens)
      && (forall t :: t in rows ==> Distinct(rows[t]))
      && (forall t, i :: t in rows ==> (i in rows[t] <==> i in seen && OnBranch(i, depth, t)))
      && (forall i :: i in seen && i < |lists| && |lists[i]| > depth ==> lists[i][depth] in tokens)
    }

    predicate OnBranch(i: nat, depth: nat, t: Token) {
      i < |lists| && |lists[i]| > depth && lists[i][depth] == t
    }

    lemma NoneGrouped(depth: nat)
      ensures Grouped([], map[], [], depth)
    {
    }

    lemma GroupedOne(tokens: seq<Token>, rows: map<Token, seq<nat>>, indices: seq<nat>, k: nat, depth: nat)
      requires k < |indices| && Distinct(indices) && Grouped(tokens, rows, indices[..k], depth)
      requires indices[k] < |lists| && |lists[indices[k]]| > depth
      ensures var i := indices[k]; var t := lists[i][depth];
        if t in rows then Grouped(tokens, rows[t := rows[t] + [i]], indices[..k + 1], depth)
        else Grouped(tokens + [t], rows[t := [i]], indices[..k + 1], depth)
    {
      var i, seen, more := indices[k], indices[..k], indices[..k + 1];
      var t := lists[i][depth];
      assert i !in seen && forall x :: x in more <==> x in seen || x == i by { assert more == seen + [i]; }
      if t in rows {
        DistinctSnoc(rows[t], i);
        hide Distinct;
        assert forall x :: x in rows[t] + [i] <==> x in rows[t] || x == i;
      } else {
        hide Distinct;
        DistinctOne(i);
        assert forall x :: x in tokens + [t] <==> x in tokens || x == t;
      }
    }

    lemma GroupedAll(tokens: seq<Token>, rows: map<Token, seq<nat>>, indices: seq<nat>, depth: nat)
      requires Pending(indices, depth) && Grouped(tokens, rows, indices, depth)
      ensures forall i, j :: 0 <= i < j < |tokens| ==> tokens[i] != tokens[j]
      ensures forall t :: t in rows <==> t in tokens
      ensures forall t :: t in rows ==> Distinct(rows[t]) && Pending(rows[t], depth)
      ensures forall t, i :: t in rows ==> (i in rows[t] <==> i in indices && i < |lists| && |lists[i]| > depth && lists[i][depth] == t)
      ensures forall i :: i in indices && i < |lists| && |lists[i]| > depth ==> lists[i][depth] in tokens
    {
      hide Distinct, Valid;
      forall t | t in rows ensures Pending(rows[t], depth) {
        forall k | 0 <= k < |rows[t]| ensures rows[t][k] < |lists| && |lists[rows[t][k]]| > depth {
          var i := rows[t][k];
          assert i in rows[t];
          assert OnBranch(i, depth, t);
        }
      }
      forall t, i: nat | t in rows
        ensures i in rows[t] <==> i in indices && i < |lists| && |lists[i]| > depth && lists[i][depth] == t
      {
        assert i in rows[t] <==> i in indices && OnBranch(i, depth, t);
      }
    }

    method AddTo(rows: seq<nat>, score: real)
      requires Valid() && Distinct(rows) && forall k :: 0 <= k < |rows| ==> rows[k] < |lists|
      modifies totals
      ensures forall i :: 0 <= i < |lists| ==> totals[i] == old(totals[i]) + if i in rows then score else 0.0
    {
      for k := 0 to |rows|
        invariant forall i :: 0 <= i < |lists| ==> totals[i] == old(totals[i]) + if i in rows[..k] then score else 0.0
      {
        assert rows[..k + 1] == rows[..k] + [rows[k]];
        assert rows[k] !in rows[..k];
        totals[rows[k]] := totals[rows[k]] + score;
      }
      assert rows[..|rows|] == rows;
    }

    method Deeper(rows: seq<nat>, depth: nat) returns (deeper: seq<nat>)
      requires Pending(rows, depth)
      ensures Pending(deeper, depth + 1) && forall i :: i in deeper <==> i in rows && i < |lists| && |lists[i]| > depth + 1
    {
      deeper := [];
      for k := 0 to |rows|
        invariant Pending(deeper, depth + 1)
        invariant forall i :: i in deeper <==> i in rows[..k] && i < |lists| && |lists[i]| > depth + 1
      {
        assert rows[..k + 1] == rows[..k] + [rows[k]];
        assert rows[k] !in rows[..k];
        if |lists[rows[k]]| > depth + 1 { deeper := deeper + [rows[k]]; }
      }
      assert rows[..|rows|] == rows;
    }

    ghost predicate Node(s: seq<Token>, hid: Hid, cache: Option<seq<Entry>>) {
      s != [] && hid == HiddenAfter(m, s) && (cache.Some? ==> cache.value == CacheAfter(m, s))
    }

    /** Every candidate through the node has its remaining path added. */
    ghost predicate Scored(s: seq<Token>, depth: nat, indices: seq<nat>, before: seq<real>, now: seq<real>)
      requires s != [] && |before| == |now| == |lists|
    {
      forall i :: 0 <= i < |lists| ==>
        now[i] == before[i] + if i in indices && |lists[i]| >= depth then Score(s, lists[i][depth..]) else 0.0
    }

    lemma ScoreStep(s: seq<Token>, i: nat, depth: nat)
      requires s != [] && i < |lists| && |lists[i]| > depth
      ensures Score(s, lists[i][depth..]) ==
        logprob(HiddenAfter(m, s), lists[i][depth]) + Score(s + [lists[i][depth]], lists[i][depth + 1..])
    {
      assert lists[i][depth..][1..] == lists[i][depth + 1..];
    }

    /** One branch of a node: add the token's log-probability to its candidates, and
        go on below it for those that are longer. */
    method Branch(token: Token, rows: seq<nat>, depth: nat, hid: Hid, cache: Option<seq<Entry>>, ghost s: seq<Token>) returns (ok: bool)
      requires Pending(rows, depth) && Node(s, hid, cache)
      requires forall i :: i in rows && i < |lists| && |lists[i]| > depth ==> lists[i][depth] == token
      modifies totals
      ensures ok ==> Scored(s, depth, rows, old(totals[..]), totals[..])
      ensures forall i :: 0 <= i < |lists| && i !in rows ==> totals[i] == old(totals[i])
      ensures ok <==> cache.Some? || forall i :: i in rows && i < |lists| ==> |lists[i]| <= depth + 1
      decreases Longest(lists) - depth, 0
    {
      hide HiddenAfter, CacheAfter;
      var score := logprob(hid, token);
      AddTo(rows, score);
      var deeper := Deeper(rows, depth);
      forall i | 0 <= i < |lists| && i in rows
        ensures Score(s, lists[i][depth..]) == score + if i in deeper then Score(s + [token], lists[i][depth + 1..]) else 0.0
      {
        PendingAt(rows, depth, i);
        ScoreStep(s, i, depth);
      }
      if deeper == [] { return true; }
      assert deeper[0] in deeper;
      if cache.None? { return false; }
      assert lists[deeper[0]] in lists;
      var out, next := Forward(token, cache.value, s);
      ok := Descend(deeper, depth + 1, next, Some(out), s + [token]);
    }

    lemma PendingAt(rows: seq<nat>, depth: nat, i: nat)
      requires Pending(rows, depth) && i in rows
      ensures Valid() && Distinct(rows) && i < |lists| && |lists[i]| > depth
    {
    }

    /** One token through the model, on a fork of the node's cache. */
    method Forward(token: Token, cache: seq<Entry>, ghost s: seq<Token>) returns (out: seq<Entry>, hid: Hid)
      requires s != [] && cache == CacheAfter(m, s)
      ensures out == CacheAfter(m, s + [token]) && hid == HiddenAfter(m, s + [token])
    {
      ForwardContinuesRun(m, s, [token]);
      var (c, hs) := WindowNet(m.layers, cache, Embed(m, [token]));
      assert [token][..0 + 1] == [token];
      out, hid := c, hs[0];
    }

    /** All branches of a node. Fails only where a longer candidate needs a cache and
        there is none. */
    method Descend(indices: seq<nat>, depth: nat, hid: Hid, cache: Option<seq<Entry>>, ghost s: seq<Token>) returns (ok: bool)
      requires Pending(indices, depth) && Node(s, hid, cache)
      modifies totals
      ensures ok ==> Scored(s, depth, indices, old(totals[..]), totals[..])
      ensures forall i :: 0 <= i < |lists| && i !in indices ==> totals[i] == old(totals[i])
      ensures ok <==> cache.Some? || forall i :: i in indices && i < |lists| ==> |lists[i]| <= depth + 1
      decreases Longest(lists) - depth, 1
    {
      assert s != [];
      hide HiddenAfter, CacheAfter, Node, Score;
      var tokens, rows := Group(indices, depth);
      for k := 0 to |tokens|
        invariant forall i :: 0 <= i < |lists| ==>
          totals[i] == old(totals[i]) + if i in indices && |lists[i]| > depth && lists[i][depth] in tokens[..k] then Score(s, lists[i][depth..]) else 0.0
        invariant cache.Some? || forall i :: i in indices && i < |lists| && |lists[i]| > depth && lists[i][depth] in tokens[..k] ==> |lists[i]| <= depth + 1
      {
        assert tokens[k] in tokens && tokens[k] !in tokens[..k];
        assert tokens[..k + 1] == tokens[..k] + [tokens[k]];
        ok := Branch(tokens[k], rows[tokens[k]], depth, hid, cache, s);
        if !ok { return; }
      }
      assert tokens[..|tokens|] == tokens;
      ok := true;
    }
  }

  /** Score every candidate behind a prompt: exact path log-probabilities, one
      forward pass per inner node. */
  method WalkTrie(m: Model, logprob: (Hid, Token) -> real, lists: seq<seq<Token>>, cache: Option<seq<Entry>>, hid: Hid,
                  ghost prompt: seq<Token>) returns (totals: Option<seq<real>>, ghost walker: TrieWalker)
    requires prompt != [] && hid == HiddenAfter(m, prompt) && (cache.Some? ==> cache.value == CacheAfter(m, prompt))
    requires forall i :: 0 <= i < |lists| ==> lists[i] != []
    ensures walker.m == m && walker.logprob == logprob && walker.lists == lists
    ensures totals.Some? <==> cache.Some? || forall i :: 0 <= i < |lists| ==> |lists[i]| == 1
    ensures totals.Some? ==> |totals.value| == |lists|
    ensures totals.Some? ==> forall i :: 0 <= i < |lists| ==> totals.value[i] == walker.Score(prompt, lists[i])
  {
    var w := new TrieWalker(m, logprob, lists);
    walker := w;
    var all := seq(|lists|, i => i);
    var ok := w.Descend(all, 0, hid, cache, prompt);
    forall i | 0 <= i < |lists| ensures i in all && lists[i][0..] == lists[i] { assert all[i] == i; }
    if ok { totals := Some(w.totals[..]); } else { totals := None; }
  }

  // ---- what the totals say ---------------------------------------------------------------

  /** An exponential, as far as log-probabilities need one. */
  ghost predicate Exponential(e: real -> real) {
    e(0.0) == 1.0 && forall a, b :: e(a + b) == Mul(e(a), e(b))
  }

  /** The conditional probabilities behind a walker's log-probabilities. */
  ghost function Chances(w: TrieWalker, e: real -> real): Cond {
    (s: seq<Token>, t: Token) => if s == [] then 0.0 else e(w.logprob(HiddenAfter(w.m, s), t))
  }

  /** A candidate's total is the logarithm of its path's probability. */
  lemma {:induction false} ScoreIsPath(w: TrieWalker, e: real -> real, s: seq<Token>, x: seq<Token>)
    requires Exponential(e) && s != []
    ensures e(w.Score(s, x)) == PathProb(Chances(w, e), s, x)
    decreases |x|
  {
    hide HiddenAfter, Mul;
    if x != [] {
      var here, rest := w.logprob(HiddenAfter(w.m, s), x[0]), w.Score(s + [x[0]], x[1..]);
      assert e(here + rest) == Mul(e(here), e(rest));
      ScoreIsPath(w, e, s + [x[0]], x[1..]);
    }
  }

  /** No candidate is listed twice. */
  ghost predicate Apart(lists: seq<seq<Token>>) {
    forall i, j :: 0 <= i < j < |lists| ==> lists[i] != lists[j]
  }

  ghost function ExpSum(e: real -> real, totals: seq<real>): real {
    if totals == [] then 0.0 else ExpSum(e, totals[..|totals| - 1]) + e(totals[|totals| - 1])
  }

  lemma {:induction false} ExpSumIsMass(w: TrieWalker, e: real -> real, prompt: seq<Token>, out: seq<seq<Token>>, totals: seq<real>)
    requires Exponential(e) && prompt != [] && Apart(out) && |totals| == |out|
    requires forall i :: 0 <= i < |out| ==> totals[i] == w.Score(prompt, out[i])
    ensures ExpSum(e, totals) == PathMass(Chances(w, e), prompt, set x | x in out)
    decreases |out|
  {
    if out == [] {
      assert (set x | x in out) == {};
    } else {
      var n := |out| - 1;
      ScoreIsPath(w, e, prompt, out[n]);
      ApartLast(out);
      hide PathProb, Exponential, Chances, PathMass, TrieWalker.Score;
      ExpSumIsMass(w, e, prompt, out[..n], totals[..n]);
      PathMassPick(Chances(w, e), prompt, (set x | x in out), out[n]);
    }
  }

  lemma ApartLast(out: seq<seq<Token>>)
    requires Apart(out) && out != []
    ensures var n := |out| - 1;
      Apart(out[..n]) && out[n] in out && (set x | x in out) - {out[n]} == set x | x in out[..n]
  {
    assert out == out[..|out| - 1] + [out[|out| - 1]];
  }

  /** Closing keeps distinct candidates distinct. */
  lemma ClosedStayApart(lists: seq<seq<Token>>, stop: Token, out: seq<seq<Token>>)
    requires Apart(lists) && forall i :: 0 <= i < |lists| ==> stop !in lists[i]
    requires |out| == |lists| && forall i :: 0 <= i < |lists| ==> out[i] == Closed(lists, lists[i], stop)
    ensures Apart(out)
  {
    hide Shadowed;
    forall i, j | 0 <= i < j < |out| ensures out[i] != out[j] { ClosedOnce(lists, stop, lists[i], lists[j]); }
  }

  lemma ClosedOnce(lists: seq<seq<Token>>, stop: Token, a: seq<Token>, b: seq<Token>)
    requires stop !in a && stop !in b
    ensures a != b ==> Closed(lists, a, stop) != Closed(lists, b, stop)
  {
    assert (a + [stop])[..|a|] == a && (b + [stop])[..|b|] == b;
    assert (a + [stop])[|a|] == stop && (b + [stop])[|b|] == stop;
    hide Shadowed;
  }

  /** The totals that the walk leaves for distinct non-empty candidates, once closed,
      are the logarithms of a sub-distribution. */
  lemma TotalsSubdistribution(w: TrieWalker, e: real -> real, prompt: seq<Token>, lists: seq<seq<Token>>, stop: Token,
                              totals: seq<real>)
    requires Exponential(e) && Subdistribution(Chances(w, e)) && prompt != []
    requires Apart(lists) && [] !in lists && forall i :: 0 <= i < |lists| ==> stop !in lists[i]
    requires |w.lists| == |lists| && forall i :: 0 <= i < |lists| ==> w.lists[i] == Closed(lists, lists[i], stop)
    requires |totals| == |lists| && forall i :: 0 <= i < |lists| ==> totals[i] == w.Score(prompt, w.lists[i])
    ensures ExpSum(e, totals) <= 1.0
  {
    hide Exponential, Subdistribution, Shadowed, PathMass, ExpSum;
    ClosedStayApart(lists, stop, w.lists);
    ExpSumIsMass(w, e, prompt, w.lists, totals);
    ClosedCandidatesSubdistribution(Chances(w, e), prompt, lists, stop, w.lists);
  }
}
