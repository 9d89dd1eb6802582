/** The small-row quantized matmul: packed words are dequantized once per column
    and reused by every row, lanes stride over the packs, segments of the depth may
    be summed apart. Sums are exact here. */
module PackedMatmul {
  import opened Collections

  // ---- packed codes ---------------------------------------------------------------------

  /** Eight 4-bit codes to a word, or sixteen 6-bit codes to three words. */
  datatype Layout = Four | Six

  function Width(l: Layout): nat { if l.Four? then 8 else 16 }
  function Words(l: Layout): nat { if l.Four? then 1 else 3 }

  /** Three words as one little-endian stream of bits. */
  function Stream(a: bv32, b: bv32, c: bv32): bv96 {
    (a as bv96) | ((b as bv96) << 32) | ((c as bv96) << 64)
  }

  /** Code t of a pack: bits [4t, 4t+4) of its word, or [6t, 6t+6) of its stream. */
  function Code4(a: bv32, t: bv8): bv6
    requires t < 8
  {
    ((a >> (4 * t)) & 0xF) as bv6
  }

  function Code6(a: bv32, b: bv32, c: bv32, t: bv8): bv6
    requires t < 16
  {
    ((Stream(a, b, c) >> (6 * t)) & 0x3F) as bv6
  }

  function Word(a: bv32, b: bv32, c: bv32, i: bv8): bv32 {
    if i == 0 then a else if i == 1 then b else c
  }

  /** What the 6-bit kernel extracts: one shift, or two words joined where the code
      straddles them. */
  function Field6(a: bv32, b: bv32, c: bv32, t: bv8): bv6
    requires t < 16
  {
    var o := 6 * t;
    var wi := o / 32;
    var sh := o % 32;
    if sh <= 26 then ((Word(a, b, c, wi) >> sh) & 0x3F) as bv6
    else (((Word(a, b, c, wi) >> sh) | (Word(a, b, c, wi + 1) << (32 - sh))) & 0x3F) as bv6
  }

  /** Every extraction reads its six bits of the stream, straddling ones included. */
  lemma FieldIsCode(a: bv32, b: bv32, c: bv32, t: bv8)
    requires t < 16
    ensures Field6(a, b, c, t) == Code6(a, b, c, t)
  {
  }

  function Code(l: Layout, words: seq<bv32>, pack: nat, t: nat): bv6
    requires t < Width(l) && pack * Words(l) + Words(l) <= |words|
  {
    if l.Four? then Code4(words[pack], t as bv8)
    else Code6(words[pack * 3], words[pack * 3 + 1], words[pack * 3 + 2], t as bv8)
  }

  function Field(l: Layout, words: seq<bv32>, pack: nat, t: nat): bv6
    requires t < Width(l) && pack * Words(l) + Words(l) <= |words|
  {
    if l.Four? then ((words[pack] >> ((t as bv8) * 4)) & 0xF) as bv6
    else Field6(words[pack * 3], words[pack * 3 + 1], words[pack * 3 + 2], t as bv8)
  }

  lemma FieldsAgree(l: Layout, words: seq<bv32>, pack: nat, t: nat)
    requires t < Width(l) && pack * Words(l) + Words(l) <= |words|
    ensures Field(l, words, pack, t) == Code(l, words, pack, t)
  {
    if l.Six? {
      assert (t as bv8) < 16;
      FieldIsCode(words[pack * 3], words[pack * 3 + 1], words[pack * 3 + 2], t as bv8);
    } else {
      Commute(words[pack], t as bv8);
    }
  }

  lemma Commute(a: bv32, t: bv8)
    requires t < 8
    ensures ((a >> (t * 4)) & 0xF) as bv6 == Code4(a, t)
  {
  }

  // ---- sums ---------------------------------------------------------------------------------

  /** f(lo) + ... + f(hi - 1). */
  function Seg(f: nat -> real, lo: nat, hi: nat): real
    decreases hi
  {
    if hi <= lo then 0.0 else Seg(f, lo, hi - 1) + f(hi - 1)
  }

  lemma {:induction false} SegSplit(f: nat -> real, lo: nat, mid: nat, hi: nat)
    requires lo <= mid <= hi
    ensures Seg(f, lo, hi) == Seg(f, lo, mid) + Seg(f, mid, hi)
    decreases hi
  {
    if mid < hi { SegSplit(f, lo, mid, hi - 1); }
  }

  /** f over one pack. */
  function PackSum(f: nat -> real, width: nat, pack: nat): real {
    Seg(f, pack * width, pack * width + width)
  }

  function PackSums(f: nat -> real, width: nat): nat -> real {
    (pack: nat) => PackSum(f, width, pack)
  }

  /** Packs cover the depth: summing packs is summing every position. */
  lemma {:induction false} PacksCover(f: nat -> real, width: nat, packs: nat)
    ensures Seg(PackSums(f, width), 0, packs) == Seg(f, 0, packs * width)
    decreases packs
  {
    if packs > 0 {
      PacksCover(f, width, packs - 1);
      assert packs * width == (packs - 1) * width + width;
      SegSplit(f, 0, (packs - 1) * width, packs * width);
    }
  }

  const LANES: nat := 32

  /** What one lane sums: every 32nd term from its start. */
  function Strided(g: nat -> real, start: nat, hi: nat): real
    decreases hi - start
  {
    if hi <= start then 0.0 else g(start) + Strided(g, start + LANES, hi)
  }

  /** The first n lanes together. */
  function LaneSums(g: nat -> real, lo: nat, hi: nat, n: nat): real {
    if n == 0 then 0.0 else LaneSums(g, lo, hi, n - 1) + Strided(g, lo + n - 1, hi)
  }

  lemma {:induction false} LanesPeel(g: nat -> real, lo: nat, hi: nat, n: nat)
    requires lo + n <= hi
    ensures LaneSums(g, lo, hi, n) == Seg(g, lo, lo + n) + LaneSums(g, lo + LANES, hi, n)
    decreases n
  {
    if n > 0 { LanesPeel(g, lo, hi, n - 1); }
  }

  lemma {:induction false} LanesShort(g: nat -> real, lo: nat, hi: nat, n: nat)
    requires lo <= hi <= lo + LANES
    ensures LaneSums(g, lo, hi, n) == Seg(g, lo, if lo + n <= hi then lo + n else hi)
    decreases n
  {
    if n > 0 {
      LanesShort(g, lo, hi, n - 1);
      assert Strided(g, lo + n - 1 + LANES, hi) == 0.0;
    }
  }

  /** The lanes' strides cover a segment: each term once. */
  lemma {:induction false} LanesCover(g: nat -> real, lo: nat, hi: nat)
    requires lo <= hi
    ensures LaneSums(g, lo, hi, LANES) == Seg(g, lo, hi)
    decreases hi - lo
  {
    if hi <= lo + LANES {
      LanesShort(g, lo, hi, LANES);
    } else {
      LanesPeel(g, lo, hi, LANES);
      LanesCover(g, lo + LANES, hi);
      SegSplit(g, lo, lo + LANES, hi);
    }
  }

  /** Segment z of a split depth. */
  function From(z: nat, per: nat, packs: nat): nat { Least(z * per, packs) }

  function SplitSums(g: nat -> real, per: nat, packs: nat, splits: nat): real {
    if splits == 0 then 0.0
    else SplitSums(g, per, packs, splits - 1) + Seg(g, From(splits - 1, per, packs), From(splits, per, packs))
  }

  /** The segments cover the depth: each pack in exactly one. */
  lemma {:induction false} SplitsCover(g: nat -> real, per: nat, packs: nat, splits: nat)
    ensures SplitSums(g, per, packs, splits) == Seg(g, 0, From(splits, per, packs))
    decreases splits
  {
    if splits > 0 {
      SplitsCover(g, per, packs, splits - 1);
      assert splits * per == (splits - 1) * per + per;
      SegSplit(g, 0, From(splits - 1, per, packs), From(splits, per, packs));
    }
  }

  // ---- the operands ---------------------------------------------------------------------------

  /** Rows of activations, packed weight rows, and a scale and bias per group of each
      weight row. The depth is packs x width, and groups x group size. */
  datatype Op = Op(l: Layout, packs: nat, groups: nat, groupSize: nat,
                   x: seq<seq<real>>, wq: seq<seq<bv32>>, scales: seq<seq<real>>, biases: seq<seq<real>>)

  function Depth(op: Op): nat { op.packs * Width(op.l) }

  predicate Operands(op: Op) {
    && op.groupSize > 0 && op.groupSize % Width(op.l) == 0 && op.groups * op.groupSize == Depth(op)
    && (forall r :: 0 <= r < |op.x| ==> |op.x[r]| == Depth(op))
    && |op.wq| == |op.scales| == |op.biases|
    && (forall n :: 0 <= n < |op.wq| ==>
          |op.wq[n]| == op.packs * Words(op.l) && |op.scales[n]| == |op.biases[n]| == op.groups)
  }

  function Value(c: bv6): real { (c as int) as real }

  lemma PackInside(op: Op, pack: nat)
    requires pack < op.packs
    ensures pack * Words(op.l) + Words(op.l) <= op.packs * Words(op.l)
    ensures pack * Width(op.l) + Width(op.l) <= Depth(op)
  {
    assert (pack + 1) * Words(op.l) == pack * Words(op.l) + Words(op.l);
    assert (pack + 1) * Width(op.l) == pack * Width(op.l) + Width(op.l);
    Scaled(pack + 1, op.packs, Words(op.l));
    Scaled(pack + 1, op.packs, Width(op.l));
  }

  lemma Scaled(a: nat, b: nat, c: nat)
    ensures a <= b ==> a * c <= b * c
  {
  }

  /** The group of a position. */
  function GroupOf(groupSize: nat, k: nat): nat
    requires groupSize > 0
  {
    k / groupSize
  }

  /** The group of a position is one of the row's groups. */
  lemma GroupInside(groupSize: nat, groups: nat, k: nat)
    requires groupSize > 0 && k < groups * groupSize
    ensures GroupOf(groupSize, k) < groups
  {
    var q := k / groupSize;
    assert q * groupSize <= k;
    Scaled(groups, q, groupSize);
  }

  /** A pack never straddles two groups. */
  lemma PackInGroup(width: nat, groupSize: nat, pack: nat, t: nat)
    requires width > 0 && groupSize > 0 && groupSize % width == 0 && t < width
    ensures GroupOf(groupSize, pack * width + t) == GroupOf(groupSize, pack * width)
  {
    var q, d := groupSize / width, pack * width / groupSize;
    assert groupSize == q * width && d * groupSize <= pack * width < d * groupSize + groupSize;
    NextMultiple(pack, width, q, d);
    Quotient(pack * width + t, d, groupSize);
  }

  /** A multiple of the width below a multiple of the group leaves room for one more. */
  lemma NextMultiple(a: nat, w: nat, q: nat, d: nat)
    requires d * (q * w) <= a * w < d * (q * w) + q * w
    ensures a * w + w <= d * (q * w) + q * w
  {
    var b := d * q + q;
    assert b * w == d * (q * w) + q * w by { Distributed(d, q, w); }
    Scaled(b, a, w);
    Scaled(a + 1, b, w);
    assert (a + 1) * w == a * w + w;
  }

  lemma Distributed(d: nat, q: nat, w: nat)
    ensures (d * q + q) * w == d * (q * w) + q * w
  {
  }

  lemma Product(a: nat, b: nat)
    ensures a * b >= 0
  {
  }

  lemma Quotient(n: nat, d: nat, g: nat)
    requires g > 0 && d * g <= n < d * g + g
    ensures n / g == d
  {
    var q := n / g;
    assert (q + 1) * g == q * g + g && (d + 1) * g == d * g + g;
    Scaled(q + 1, d, g);
    Scaled(d + 1, q, g);
  }

  function PackOf(l: Layout, k: nat): nat { if l.Four? then k / 8 else k / 16 }
  function SlotOf(l: Layout, k: nat): (t: nat)
    ensures t < Width(l) && k == PackOf(l, k) * Width(l) + t
  {
    if l.Four? then k % 8 else k % 16
  }

  lemma Position(op: Op, k: nat)
    ensures k < Depth(op) ==> PackOf(op.l, k) < op.packs
  {
    Scaled(op.packs, PackOf(op.l, k), Width(op.l));
  }

  /** The dequantized weight of a column at a depth position. */
  function Weight(op: Op, n: nat, k: nat): real
    requires Operands(op) && n < |op.wq| && k < Depth(op)
  {
    Position(op, k);
    PackInside(op, PackOf(op.l, k));
    GroupInside(op.groupSize, op.groups, k);
    var g := GroupOf(op.groupSize, k);
    Value(Code(op.l, op.wq[n], PackOf(op.l, k), SlotOf(op.l, k))) * op.scales[n][g] + op.biases[n][g]
  }

  /** One product of the dot product. */
  function Term(op: Op, r: nat, n: nat): nat -> real
    requires Operands(op) && r < |op.x| && n < |op.wq|
  {
    (k: nat) => if k < Depth(op) then op.x[r][k] * Weight(op, n, k) else 0.0
  }

  /** The reference: a row against a dequantized weight row. */
  function Dot(op: Op, r: nat, n: nat): real
    requires Operands(op) && r < |op.x| && n < |op.wq|
  {
    Seg(Term(op, r, n), 0, Depth(op))
  }

  // ---- one tile ---------------------------------------------------------------------------------

  /** Accumulator i belongs to column i / m of the tile and to the row that is left. */
  function ColOf(m: nat, i: nat): nat
    requires m > 0
  {
    i / m
  }

  function RowOf(m: nat, i: nat): int
    requires m > 0
  {
    i - i / m * m
  }

  lemma InTile(m: nat, i: nat)
    requires m > 0 && i < 4 * m
    ensures ColOf(m, i) < 4 && 0 <= RowOf(m, i) < m && i == ColOf(m, i) * m + RowOf(m, i)
  {
    var q := i / m;
    assert q * m <= i < q * m + m;
    Scaled(4, q, m);
  }

  lemma CellOf(m: nat, j: nat, r: nat) returns (i: nat)
    requires j < 4 && r < m
    ensures i < 4 * m && i == j * m + r && ColOf(m, i) == j && RowOf(m, i) == r
  {
    i := j * m + r;
    Scaled(j + 1, 4, m);
    assert (j + 1) * m == j * m + m;
    Product(j, m);
    Quotient(i, j, m);
    assert GroupOf(m, i) == i / m;
  }

  /** The product accumulator i adds up. */
  function TermAt(op: Op, n0: nat, i: nat): nat -> real
    requires Operands(op) && n0 + 4 <= |op.wq| && i < 4 * |op.x|
  {
    InTile(|op.x|, i);
    Term(op, RowOf(|op.x|, i), n0 + ColOf(|op.x|, i))
  }

  lemma PackBounds(op: Op, n: nat, pack: nat, t: nat)
    requires Operands(op) && n < |op.wq| && pack < op.packs && t < Width(op.l)
    ensures pack * Width(op.l) >= 0 && pack * Width(op.l) + t < Depth(op)
    ensures pack * Words(op.l) + Words(op.l) <= |op.wq[n]|
    ensures GroupOf(op.groupSize, pack * Width(op.l)) < op.groups
  {
    PackInside(op, pack);
    Product(pack, Width(op.l));
    GroupInside(op.groupSize, op.groups, pack * Width(op.l));
  }

  lemma WeightParts(op: Op, n: nat, k: nat, pack: nat, t: nat, g: nat)
    requires Operands(op) && n < |op.wq| && k < Depth(op) && pack == PackOf(op.l, k) && t == SlotOf(op.l, k)
    requires g == GroupOf(op.groupSize, k) && g < op.groups && pack * Words(op.l) + Words(op.l) <= |op.wq[n]|
    ensures Weight(op, n, k) == Value(Code(op.l, op.wq[n], pack, t)) * op.scales[n][g] + op.biases[n][g]
  {
    hide GroupOf, Code, Value, PackOf;
  }

  lemma OperandRows(op: Op, n: nat)
    requires Operands(op) && n < |op.wq|
    ensures op.groupSize > 0 && op.groupSize % Width(op.l) == 0
    ensures |op.scales| == |op.biases| == |op.wq| && |op.scales[n]| == |op.biases[n]| == op.groups
  {
  }

  /** A weight as the kernel dequantizes it: the group is that of the pack. */
  method Dequantize(op: Op, n: nat, pack: nat, t: nat) returns (w: real)
    requires Operands(op) && n < |op.wq| && pack < op.packs && t < Width(op.l)
    ensures pack * Width(op.l) + t < Depth(op) && w == Weight(op, n, pack * Width(op.l) + t)
  {
    hide GroupOf, Code, Field, Value, Weight, PackOf, SlotOf, Operands;
    PackBounds(op, n, pack, t);
    OperandRows(op, n);
    PackInGroup(Width(op.l), op.groupSize, pack, t);
    SamePack(op.l, pack, t);
    WeightParts(op, n, pack * Width(op.l) + t, pack, t, GroupOf(op.groupSize, pack * Width(op.l)));
    FieldsAgree(op.l, op.wq[n], pack, t);
    var gi := GroupOf(op.groupSize, pack * Width(op.l));
    w := Value(Field(op.l, op.wq[n], pack, t)) * op.scales[n][gi] + op.biases[n][gi];
  }

  lemma SamePack(l: Layout, pack: nat, t: nat)
    requires t < Width(l)
    ensures pack * Width(l) + t >= 0 && PackOf(l, pack * Width(l) + t) == pack && SlotOf(l, pack * Width(l) + t) == t
  {
  }

  /** One pack: each weight dequantized once, then used by every row. */
  method PackBlock(op: Op, n0: nat, pack: nat) returns (hacc: seq<real>)
    requires Operands(op) && n0 + 4 <= |op.wq| && pack < op.packs
    ensures |hacc| == 4 * |op.x| && forall i :: 0 <= i < |hacc| ==> hacc[i] == PackSum(TermAt(op, n0, i), Width(op.l), pack)
  {
    var m := |op.x|;
    hide Weight, TermAt;
    Product(pack, Width(op.l));
    PackInside(op, pack);
    var base := pack * Width(op.l);
    hacc := seq(4 * m, _ => 0.0);
    for t := 0 to Width(op.l)
      invariant |hacc| == 4 * m && forall i :: 0 <= i < |hacc| ==> hacc[i] == Seg(TermAt(op, n0, i), base, base + t)
    {
      var w := Dequantize4(op, n0, pack, t);
      hacc := AddProducts(op, n0, base + t, w, hacc);
    }
  }

  method Dequantize4(op: Op, n0: nat, pack: nat, t: nat) returns (w: seq<real>)
    requires Operands(op) && n0 + 4 <= |op.wq| && pack < op.packs && t < Width(op.l)
    requires pack * Width(op.l) >= 0 && pack * Width(op.l) + t < Depth(op)
    ensures |w| == 4 && forall c :: 0 <= c < 4 ==> w[c] == Weight(op, n0 + c, pack * Width(op.l) + t)
  {
    hide Weight;
    var w0 := Dequantize(op, n0, pack, t);
    var w1 := Dequantize(op, n0 + 1, pack, t);
    var w2 := Dequantize(op, n0 + 2, pack, t);
    var w3 := Dequantize(op, n0 + 3, pack, t);
    w := [w0, w1, w2, w3];
  }

  /** Every accumulator gains one product. */
  method AddProducts(op: Op, n0: nat, k: nat, w: seq<real>, hacc: seq<real>) returns (r: seq<real>)
    requires Operands(op) && n0 + 4 <= |op.wq| && k < Depth(op) && |w| == 4 && |hacc| == 4 * |op.x|
    requires forall c :: 0 <= c < 4 ==> w[c] == Weight(op, n0 + c, k)
    ensures |r| == |hacc| && forall i :: 0 <= i < |r| ==> r[i] == hacc[i] + TermAt(op, n0, i)(k)
  {
    var m := |op.x|;
    hide Weight, ColOf, RowOf;
    r := hacc;
    for i := 0 to 4 * m
      invariant |r| == |hacc| && forall h :: 0 <= h < |r| ==> r[h] == if h < i then hacc[h] + TermAt(op, n0, h)(k) else hacc[h]
    {
      InTile(m, i);
      r := r[i := r[i] + op.x[RowOf(m, i)][k] * w[ColOf(m, i)]];
    }
  }

  /** The packs of accumulator i's products. */
  function PacksAt(op: Op, n0: nat, i: nat): nat -> real
    requires Operands(op) && n0 + 4 <= |op.wq| && i < 4 * |op.x|
  {
    PackSums(TermAt(op, n0, i), Width(op.l))
  }

  /** One lane: every 32nd pack of the segment from its own start. */
  method Lane(op: Op, n0: nat, w0: nat, w1: nat, lane: nat) returns (acc: seq<real>)
    requires Operands(op) && n0 + 4 <= |op.wq| && w1 <= op.packs
    ensures |acc| == 4 * |op.x| && forall i :: 0 <= i < |acc| ==> acc[i] == Strided(PacksAt(op, n0, i), w0 + lane, w1)
  {
    hide TermAt, Operands;
    var m := |op.x|;
    acc := seq(4 * m, _ => 0.0);
    var pack := w0 + lane;
    while pack < w1
      invariant |acc| == 4 * m
      invariant forall i :: 0 <= i < |acc| ==>
        acc[i] + Strided(PacksAt(op, n0, i), pack, w1) == Strided(PacksAt(op, n0, i), w0 + lane, w1)
    {
      var hacc := PackBlock(op, n0, pack);
      acc := Added(acc, hacc);
      pack := pack + LANES;
    }
  }

  function Added(a: seq<real>, b: seq<real>): (r: seq<real>)
    requires |a| == |b|
    ensures |r| == |a| && forall i :: 0 <= i < |r| ==> r[i] == a[i] + b[i]
  {
    seq(|a|, i requires 0 <= i < |a| && |a| == |b| => a[i] + b[i])
  }

  /** All lanes, reduced. */
  method Reduce(op: Op, n0: nat, w0: nat, w1: nat) returns (total: seq<real>)
    requires Operands(op) && n0 + 4 <= |op.wq| && w0 <= w1 <= op.packs
    ensures |total| == 4 * |op.x| && forall i :: 0 <= i < |total| ==> total[i] == Seg(PacksAt(op, n0, i), w0, w1)
  {
    hide PacksAt, Operands, Strided;
    total := seq(4 * |op.x|, _ => 0.0);
    for lane := 0 to LANES
      invariant |total| == 4 * |op.x| && forall i :: 0 <= i < |total| ==> total[i] == LaneSums(PacksAt(op, n0, i), w0, w1, lane)
    {
      var acc := Lane(op, n0, w0, w1, lane);
      total := Added(total, acc);
    }
    forall i | 0 <= i < |total| ensures total[i] == Seg(PacksAt(op, n0, i), w0, w1) { LanesCover(PacksAt(op, n0, i), w0, w1); }
  }

  /** What a cell holds after its tile: the segment's part of its dot product. */
  function Part(op: Op, r: nat, n: nat, w0: nat, w1: nat): real
    requires Operands(op) && r < |op.x| && n < |op.wq|
  {
    Seg(PackSums(Term(op, r, n), Width(op.l)), w0, w1)
  }

  /** A simdgroup's four columns: the first 4m lanes each write one cell. */
  method Tile(op: Op, n0: nat, w0: nat, w1: nat, y: array2<real>, ghost writes: multiset<(nat, nat)>) returns (ghost writes': multiset<(nat, nat)>)
    requires Operands(op) && n0 + 4 <= |op.wq| && w0 <= w1 <= op.packs
    requires y.Length0 == |op.x| && y.Length1 == |op.wq| && 4 * |op.x| <= LANES
    modifies y
    ensures forall r, n :: 0 <= r < |op.x| && 0 <= n < |op.wq| ==>
      y[r, n] == if n0 <= n < n0 + 4 then Part(op, r, n, w0, w1) else old(y[r, n])
    ensures forall r: nat, n: nat :: writes'[(r, n)] == writes[(r, n)] + if r < |op.x| && n0 <= n < n0 + 4 then 1 else 0
  {
    var m := |op.x|;
    var total := Reduce(op, n0, w0, w1);
    TotalIsPart(op, n0, w0, w1, total);
    writes' := writes;
    hide Operands, Part, Cell, ColOf, RowOf, Counted;
    NoCell(m, n0);
    CountStarts(m, n0, writes);
    for lane := 0 to 4 * m
      invariant forall r, n :: 0 <= r < m && 0 <= n < |op.wq| ==>
        y[r, n] == if Cell(m, n0, lane, r, n) then Part(op, r, n, w0, w1) else old(y[r, n])
      invariant Counted(m, n0, lane, writes, writes')
    {
      NextCell(m, n0, lane);
      var j, row := ColOf(m, lane), RowOf(m, lane);
      CountOne(m, n0, lane, writes, writes');
      Put(y, row, n0 + j, total[lane]);
      writes' := writes'[(row, n0 + j) := writes'[(row, n0 + j)] + 1];
    }
    AllCells(m, n0);
    CountEnds(m, n0, writes, writes');
  }

  method Put(y: array2<real>, row: nat, col: nat, v: real)
    requires row < y.Length0 && col < y.Length1
    modifies y
    ensures forall r, n :: 0 <= r < y.Length0 && 0 <= n < y.Length1 ==> y[r, n] == if r == row && n == col then v else old(y[r, n])
  {
    y[row, col] := v;
  }

  /** The cells of the first lanes were written once more than before. */
  ghost predicate Counted(m: nat, n0: nat, lane: nat, writes: multiset<(nat, nat)>, now: multiset<(nat, nat)>) {
    forall r: nat, n: nat :: now[(r, n)] == writes[(r, n)] + if r < m && Cell(m, n0, lane, r, n) then 1 else 0
  }

  lemma CountStarts(m: nat, n0: nat, writes: multiset<(nat, nat)>)
    ensures Counted(m, n0, 0, writes, writes)
  {
    hide Cell;
    NoCell(m, n0);
  }

  lemma CountOne(m: nat, n0: nat, lane: nat, writes: multiset<(nat, nat)>, now: multiset<(nat, nat)>)
    requires lane < 4 * m && Counted(m, n0, lane, writes, now)
    ensures var cell := (RowOf(m, lane), n0 + ColOf(m, lane));
      Counted(m, n0, lane + 1, writes, now[cell := now[cell] + 1])
  {
    hide Cell, RowOf, ColOf;
    NextCell(m, n0, lane);
  }

  lemma CountEnds(m: nat, n0: nat, writes: multiset<(nat, nat)>, now: multiset<(nat, nat)>)
    requires Counted(m, n0, 4 * m, writes, now)
    ensures forall r: nat, n: nat :: now[(r, n)] == writes[(r, n)] + if r < m && n0 <= n < n0 + 4 then 1 else 0
  {
    hide Cell;
    AllCells(m, n0);
  }

  /** The cell is in the tile and written by one of the first lanes. */
  predicate Cell(m: nat, n0: nat, lane: nat, r: nat, n: nat) {
    n0 <= n < n0 + 4 && (n - n0) * m + r < lane
  }

  lemma NoCell(m: nat, n0: nat)
    ensures forall r: nat, n: nat :: !Cell(m, n0, 0, r, n)
  {
    forall r: nat, n: nat ensures !Cell(m, n0, 0, r, n) { if n >= n0 { Product(n - n0, m); } }
  }

  lemma AllCells(m: nat, n0: nat)
    ensures forall r: nat, n: nat :: r < m ==> (Cell(m, n0, 4 * m, r, n) <==> n0 <= n < n0 + 4)
  {
    forall r: nat, n: nat | r < m && n0 <= n < n0 + 4 ensures Cell(m, n0, 4 * m, r, n) {
      Scaled(n - n0 + 1, 4, m);
      assert (n - n0 + 1) * m == (n - n0) * m + m;
    }
  }

  /** Each lane writes one more cell, a new one. */
  lemma NextCell(m: nat, n0: nat, lane: nat)
    requires m > 0 && lane < 4 * m
    ensures ColOf(m, lane) < 4 && 0 <= RowOf(m, lane) < m
    ensures !Cell(m, n0, lane, RowOf(m, lane), n0 + ColOf(m, lane))
    ensures forall r: nat, n: nat :: r < m ==>
      (Cell(m, n0, lane + 1, r, n) <==> Cell(m, n0, lane, r, n) || (r == RowOf(m, lane) && n == n0 + ColOf(m, lane)))
  {
    InTile(m, lane);
    forall r: nat, n: nat | r < m
      ensures Cell(m, n0, lane + 1, r, n) <==> Cell(m, n0, lane, r, n) || (r == RowOf(m, lane) && n == n0 + ColOf(m, lane))
    {
      if n0 <= n < n0 + 4 { var i := CellOf(m, n - n0, r); }
    }
  }

  lemma TotalIsPart(op: Op, n0: nat, w0: nat, w1: nat, total: seq<real>)
    requires Operands(op) && n0 + 4 <= |op.wq| && |total| == 4 * |op.x|
    requires forall i :: 0 <= i < |total| ==> total[i] == Seg(PacksAt(op, n0, i), w0, w1)
    ensures forall i :: 0 <= i < |total| ==>
      && ColOf(|op.x|, i) < 4 && 0 <= RowOf(|op.x|, i) < |op.x|
      && total[i] == Part(op, RowOf(|op.x|, i), n0 + ColOf(|op.x|, i), w0, w1)
  {
    forall i | 0 <= i < |total|
      ensures ColOf(|op.x|, i) < 4 && 0 <= RowOf(|op.x|, i) < |op.x|
      ensures total[i] == Part(op, RowOf(|op.x|, i), n0 + ColOf(|op.x|, i), w0, w1)
    {
      InTile(|op.x|, i);
    }
  }

  // ---- the grid -----------------------------------------------------------------------------------

  /** Columns the grid's threadgroups own. */
  function Covered(n: nat, nsg: nat): nat
    requires nsg > 0
  {
    Tiles(GroupOf(4 * nsg, n), nsg) * 4
  }

  function Tiles(threadgroups: nat, nsg: nat): nat {
    Product(threadgroups, nsg);
    threadgroups * nsg
  }

  lemma CoveredWithin(n: nat, nsg: nat)
    requires nsg > 0
    ensures Covered(n, nsg) <= n && (Covered(n, nsg) == n <==> n % (4 * nsg) == 0)
  {
    Divided(n, 4 * nsg);
    Regroup(GroupOf(4 * nsg, n), nsg);
  }

  lemma Divided(n: nat, c: nat)
    requires c > 0
    ensures GroupOf(c, n) * c + n % c == n && 0 <= n % c
  {
  }

  lemma Regroup(t: nat, nsg: nat)
    ensures Tiles(t, nsg) * 4 == t * (4 * nsg)
  {
  }

  /** One launch over a segment of the depth: every threadgroup, every simdgroup. */
  method Kernel(op: Op, nsg: nat, w0: nat, w1: nat) returns (y: array2<real>, ghost writes: multiset<(nat, nat)>)
    requires Operands(op) && nsg > 0 && w0 <= w1 <= op.packs && 4 * |op.x| <= LANES
    ensures fresh(y) && y.Length0 == |op.x| && y.Length1 == |op.wq|
    ensures forall r, n :: 0 <= r < |op.x| && 0 <= n < Covered(|op.wq|, nsg) && n < |op.wq| ==> y[r, n] == Part(op, r, n, w0, w1)
    ensures forall r: nat, n: nat :: writes[(r, n)] == if r < |op.x| && n < Covered(|op.wq|, nsg) then 1 else 0
  {
    var m, columns := |op.x|, |op.wq|;
    y := new real[m, columns]((r, n) => 0.0);
    writes := multiset{};
    CoveredWithin(columns, nsg);
    hide Operands, Part;
    // simdgroup sg of threadgroup tg owns tile tg * nsg + sg
    var tiles := Tiles(GroupOf(4 * nsg, columns), nsg);
    assert Covered(columns, nsg) == tiles * 4;
    hide Covered;
    var tile := 0;
    while tile < tiles
      invariant tile <= tiles
      invariant forall r, n :: 0 <= r < m && 0 <= n < tile * 4 && n < columns ==> y[r, n] == Part(op, r, n, w0, w1)
      invariant forall r: nat, n: nat :: writes[(r, n)] == if r < m && n < tile * 4 then 1 else 0
    {
      writes := Tile(op, tile * 4, w0, w1, y, writes);
      tile := tile + 1;
    }
  }

  /** Simdgroups per threadgroup: fewer for a deep product. */
  function Simdgroups(nsg: nat, depth: nat): nat {
    if depth >= 12288 then Least(nsg, 4) else nsg
  }

  /** The whole cell: one launch over all packs. */
  lemma WholePart(op: Op, r: nat, n: nat)
    requires Operands(op) && r < |op.x| && n < |op.wq|
    ensures Part(op, r, n, 0, op.packs) == Dot(op, r, n)
  {
    PacksCover(Term(op, r, n), Width(op.l), op.packs);
  }

  /** A single launch: each covered cell written once, with the row's product with
      the dequantized column. */
  method SinglePass(op: Op, nsg: nat) returns (y: array2<real>, ghost writes: multiset<(nat, nat)>)
    requires Operands(op) && nsg > 0 && 4 * |op.x| <= LANES
    ensures fresh(y) && y.Length0 == |op.x| && y.Length1 == |op.wq|
    ensures forall r, n :: 0 <= r < |op.x| && 0 <= n < Covered(|op.wq|, nsg) && n < |op.wq| ==> y[r, n] == Dot(op, r, n)
    ensures forall r: nat, n: nat :: writes[(r, n)] == if r < |op.x| && n < Covered(|op.wq|, nsg) then 1 else 0
  {
    y, writes := Kernel(op, nsg, 0, op.packs);
    forall r, n | 0 <= r < |op.x| && 0 <= n < |op.wq| ensures Part(op, r, n, 0, op.packs) == Dot(op, r, n) { WholePart(op, r, n); }
  }

  /** A split launch: a part per segment, each covered cell written once in each,
      folded into one result. */
  method SplitPass(op: Op, nsg: nat, splits: nat) returns (y: array2<real>)
    requires Operands(op) && nsg > 0 && splits > 0 && 4 * |op.x| <= LANES
    ensures fresh(y) && y.Length0 == |op.x| && y.Length1 == |op.wq|
    ensures forall r, n :: 0 <= r < |op.x| && 0 <= n < Covered(|op.wq|, nsg) && n < |op.wq| ==> y[r, n] == Dot(op, r, n)
  {
    var m, columns := |op.x|, |op.wq|;
    var per := (op.packs + splits - 1) / splits;
    hide Operands, Covered;
    y := new real[m, columns]((r, n) => 0.0);
    for z := 0 to splits
      invariant forall r, n :: 0 <= r < m && 0 <= n < Covered(columns, nsg) && n < columns ==>
        y[r, n] == SplitSums(PackSums(Term(op, r, n), Width(op.l)), per, op.packs, z)
    {
      Segments(z, per, op.packs);
      var part, writes := Kernel(op, nsg, From(z, per, op.packs), From(z + 1, per, op.packs));
      Fold(y, part);
    }
    AllSegments(op.packs, splits, per);
    forall r, n | 0 <= r < m && 0 <= n < columns
      ensures SplitSums(PackSums(Term(op, r, n), Width(op.l)), per, op.packs, splits) == Dot(op, r, n)
    {
      SplitsCover(PackSums(Term(op, r, n), Width(op.l)), per, op.packs, splits);
      WholePart(op, r, n);
    }
  }

  lemma Segments(z: nat, per: nat, packs: nat)
    ensures From(z, per, packs) <= From(z + 1, per, packs) <= packs
  {
    assert (z + 1) * per == z * per + per;
    Product(z, per);
  }

  lemma AllSegments(packs: nat, splits: nat, per: nat)
    requires splits > 0 && per == (packs + splits - 1) / splits
    ensures From(splits, per, packs) == packs
  {
    var n := packs + splits - 1;
    assert n < per * splits + splits;
    assert per * splits == splits * per;
  }

  /** y += part. */
  method Fold(y: array2<real>, part: array2<real>)
    requires y != part && y.Length0 == part.Length0 && y.Length1 == part.Length1
    modifies y
    ensures forall r, n :: 0 <= r < y.Length0 && 0 <= n < y.Length1 ==> y[r, n] == old(y[r, n]) + part[r, n]
  {
    for r := 0 to y.Length0
      invariant forall a, n :: 0 <= a < y.Length0 && 0 <= n < y.Length1 ==> y[a, n] == old(y[a, n]) + if a < r then part[a, n] else 0.0
    {
      for n := 0 to y.Length1
        invariant forall a, c :: 0 <= a < y.Length0 && 0 <= c < y.Length1 ==>
          y[a, c] == old(y[a, c]) + if a < r || (a == r && c < n) then part[a, c] else 0.0
      {
        y[r, n] := y[r, n] + part[r, n];
      }
    }
  }

  // ---- when the kernel may run --------------------------------------------------------------------

  /** The shapes the source lets through. */
  predicate Eligible(m: nat, depth: nat, columns: nat, groupSize: nat, nsg: nat, mrows: nat) {
    && nsg > 0 && (groupSize == 32 || groupSize == 64 || groupSize == 128)
    && 2 <= m <= mrows && depth % 64 == 0 && columns % (4 * nsg) == 0
  }

  /** Every column has a threadgroup exactly if the tile the launch uses divides the
      columns; the shape test checks the undivided tile only. */
  lemma LaunchCoversIff(columns: nat, nsg: nat, depth: nat)
    requires nsg > 0
    ensures Covered(columns, Simdgroups(nsg, depth)) == columns <==> columns % (4 * Simdgroups(nsg, depth)) == 0
  {
    CoveredWithin(columns, Simdgroups(nsg, depth));
  }

  /** Six simdgroups, a deep product and 24 columns pass the shape test, but a third
      of the columns is never written. */
  lemma EligibleUncovered()
    ensures Eligible(2, 12288, 24, 64, 6, 4) && Covered(24, Simdgroups(6, 12288)) == 16
  {
  }

  /** Every position's group is one of its own row exactly if the group size divides
      the depth; with 128 the shape test does not check it. */
  lemma GroupsWithinIff(depth: nat, groupSize: nat)
    requires groupSize > 0
    ensures (forall k: nat :: k < depth ==> GroupOf(groupSize, k) < depth / groupSize) <==> depth % groupSize == 0
  {
    var q, rest := depth / groupSize, depth % groupSize;
    assert depth == q * groupSize + rest;
    if rest == 0 {
      forall k: nat | k < depth ensures GroupOf(groupSize, k) < q { GroupInside(groupSize, q, k); }
    } else {
      Quotient(depth - 1, q, groupSize);
      assert !(GroupOf(groupSize, depth - 1) < q);
    }
  }

  lemma EligibleUngrouped()
    ensures Eligible(2, 192, 32, 128, 8, 4) && 192 % 128 != 0
  {
  }

  /** The kernel's result, split or not: with a tile that divides the columns, every
      cell is the row's exact product with its dequantized column. */
  method VerifyQmm(op: Op, nsg: nat, splitK: nat) returns (y: array2<real>)
    requires Operands(op) && nsg > 0 && 4 * |op.x| <= LANES
    requires |op.wq| % (4 * Simdgroups(nsg, Depth(op))) == 0
    ensures y.Length0 == |op.x| && y.Length1 == |op.wq|
    ensures forall r, n :: 0 <= r < |op.x| && 0 <= n < |op.wq| ==> y[r, n] == Dot(op, r, n)
  {
    var groups := Simdgroups(nsg, Depth(op));
    CoveredWithin(|op.wq|, groups);
    if op.l.Four? && splitK > 1 && Depth(op) >= 12288 {
      y := SplitPass(op, groups, splitK);
    } else {
      ghost var writes;
      y, writes := SinglePass(op, groups);
    }
  }
}
