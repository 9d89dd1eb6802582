/** Stock types and list functions the other modules share. */
module Collections {

  datatype Option<+T> = None | Some(value: T)

  predicate Distinct(s: seq<nat>) {
    forall i, j :: 0 <= i < j < |s| ==> s[i] != s[j]
  }

  function Reversed(s: seq<nat>): (r: seq<nat>)
    ensures |r| == |s| && forall i :: 0 <= i < |s| ==> r[i] == s[|s| - 1 - i]
  {
    if s == [] then [] else Reversed(s[1..]) + [s[0]]
  }

  /** The last n elements. */
  function Latest<T>(s: seq<T>, n: nat): (r: seq<T>)
    ensures |r| == if |s| <= n then |s| else n
  {
    if |s| <= n then s else s[|s| - n..]
  }

  lemma LatestOfLatest<T>(a: seq<T>, b: seq<T>, n: nat)
    ensures Latest(Latest(a, n) + b, n) == Latest(a + b, n)
  {
  }

  function Least(a: int, b: int): int {
    if a < b then a else b
  }

  /** A product, by name, so that the solver leaves it alone where it is hidden. */
  function Mul(x: real, y: real): real {
    x * y
  }
}
