/** The disk tier of the prefix cache: a scheduler thread that enqueues, evicts,
    looks up and restores, and a writer thread that writes a file outside the lock
    and settles it inside. Every method is one atomic step of one of the two. */
module PrefixDisk {
  import opened Collections
  import opened Network
  import opened Target
  import opened PrefixBlocks
  import Runs = DiskRuns

  datatype Block = Block(index: nat, kvBytes: nat, recBytes: nat, used: nat,
                         kvReady: bool, recReady: bool, kvPending: bool, recPending: bool)

  datatype Job =
    | KvJob(hash: Hash, index: nat, kv: KvData, nbytes: nat)
    | RecJob(hash: Hash, index: nat, rec: RecData, nbytes: nat)

  /** A job whose file write has ended, with the file's size, zero if it failed. */
  datatype Written = Written(job: Job, size: nat)

  /** A boundary's dispatched snapshot, not yet harvested. */
  datatype Snapshot = Snapshot(hashes: seq<Hash>, jobs: seq<Job>)

  /** A file, with its size. */
  datatype File<D> = File(data: D, size: nat)

  /** What a manifest says of a block. */
  datatype Record = Record(index: nat, kv: nat, rec: nat, used: nat)

  // ---- accounting ----------------------------------------------------------------

  function JobBytes(q: seq<Job>): nat {
    if q == [] then 0 else q[0].nbytes + JobBytes(q[1..])
  }

  lemma {:induction false} JobBytesSnoc(q: seq<Job>, j: Job)
    ensures JobBytes(q + [j]) == JobBytes(q) + j.nbytes
  {
    if q != [] {
      JobBytesSnoc(q[1..], j);
      assert (q + [j])[1..] == q[1..] + [j];
    }
  }

  lemma {:induction false} JobBytesPrefix(q: seq<Job>, k: nat)
    requires k <= |q|
    ensures JobBytes(q[..k]) <= JobBytes(q)
  {
    if k > 0 {
      JobBytesPrefix(q[1..], k - 1);
      assert q[..k][1..] == q[1..][..k - 1];
    }
  }

  ghost function TotalBytes(blocks: map<Hash, Block>): nat
    decreases |blocks|
  {
    if blocks == map[] then 0
    else
      var h :| h in blocks;
      blocks[h].kvBytes + blocks[h].recBytes + TotalBytes(blocks - {h})
  }

  lemma {:induction false} TotalWithout(blocks: map<Hash, Block>, h: Hash)
    requires h in blocks
    ensures TotalBytes(blocks) == blocks[h].kvBytes + blocks[h].recBytes + TotalBytes(blocks - {h})
    decreases |blocks|
  {
    var g :| g in blocks && TotalBytes(blocks) == blocks[g].kvBytes + blocks[g].recBytes + TotalBytes(blocks - {g});
    if g != h {
      TotalWithout(blocks - {g}, h);
      TotalWithout(blocks - {h}, g);
      assert blocks - {g} - {h} == blocks - {h} - {g};
    }
  }

  /** The store's bytes, added up block by block. */
  method Measure(blocks: map<Hash, Block>) returns (n: nat)
    ensures n == TotalBytes(blocks)
  {
    var rest := blocks;
    n := 0;
    while rest != map[]
      invariant n + TotalBytes(rest) == TotalBytes(blocks)
      decreases |rest|
    {
      var h :| h in rest;
      TotalWithout(rest, h);
      n := n + rest[h].kvBytes + rest[h].recBytes;
      rest := rest - {h};
    }
  }

  ghost function SumOf(m: map<Hash, nat>): nat
    decreases |m|
  {
    if m == map[] then 0
    else
      var h :| h in m;
      m[h] + SumOf(m - {h})
  }

  lemma NothingSums()
    ensures SumOf(map[]) == 0
  {
  }

  lemma {:induction false} SumWithout(m: map<Hash, nat>, h: Hash)
    requires h in m
    ensures SumOf(m) == m[h] + SumOf(m - {h})
    decreases |m|
  {
    var g :| g in m && SumOf(m) == m[g] + SumOf(m - {g});
    if g != h {
      SumWithout(m - {g}, h);
      SumWithout(m - {h}, g);
      assert m - {g} - {h} == m - {h} - {g};
    }
  }

  predicate Misses(m: map<Hash, nat>, b: map<Hash, nat>, h: Hash) {
    h in b && b[h] > 0 && h !in m
  }

  /** A sum that agrees with a larger one where it has a term is no larger, and as large
      exactly if it misses no positive term. */
  lemma {:induction false} SumWithin(m: map<Hash, nat>, b: map<Hash, nat>)
    requires forall h :: h in m ==> h in b && m[h] == b[h]
    ensures SumOf(m) <= SumOf(b)
    ensures SumOf(m) == SumOf(b) <==> forall h :: !Misses(m, b, h)
    decreases |b|
  {
    if b == map[] {
      assert m == map[];
    } else {
      var g :| g in b;
      SumWithout(b, g);
      if g in m {
        SumWithout(m, g);
        SumWithin(m - {g}, b - {g});
        assert forall h :: Misses(m, b, h) <==> Misses(m - {g}, b - {g}, h);
      } else {
        SumWithin(m, b - {g});
        assert Misses(m, b, g) <==> b[g] > 0;
        assert forall h :: Misses(m, b, h) <==> Misses(m, b - {g}, h) || (h == g && b[g] > 0);
      }
    }
  }

  function Only(m: map<Hash, nat>, hs: set<Hash>): map<Hash, nat> {
    map h | h in m && h in hs :: m[h]
  }

  lemma OnlyWithout(m: map<Hash, nat>, hs: set<Hash>, g: Hash)
    requires g in m
    ensures g in hs ==> g in Only(m, hs) && Only(m, hs)[g] == m[g] && Only(m, hs) - {g} == Only(m - {g}, hs)
    ensures g !in hs ==> Only(m, hs) == Only(m - {g}, hs)
  {
  }

  lemma RestWithout(m: map<Hash, nat>, hs: set<Hash>, g: Hash)
    requires g in m
    ensures g in hs ==> m - {g} - hs == m - hs
    ensures g !in hs ==> g in m - hs && (m - hs)[g] == m[g] && m - hs - {g} == m - {g} - hs
  {
  }

  lemma {:induction false} SumSplit(m: map<Hash, nat>, hs: set<Hash>)
    ensures SumOf(m) == SumOf(Only(m, hs)) + SumOf(m - hs)
    decreases |m|
  {
    if m == map[] {
      assert Only(m, hs) == map[] && m - hs == map[];
    } else {
      hide Only;
      var g :| g in m;
      SumWithout(m, g);
      SumSplit(m - {g}, hs);
      OnlyWithout(m, hs, g);
      RestWithout(m, hs, g);
      if g in hs {
        SumWithout(Only(m, hs), g);
      } else {
        SumWithout(m - hs, g);
      }
    }
  }

  function KvCounts(blocks: map<Hash, Block>): map<Hash, nat> {
    map h | h in blocks :: blocks[h].kvBytes
  }

  function RecCounts(blocks: map<Hash, Block>): map<Hash, nat> {
    map h | h in blocks :: blocks[h].recBytes
  }

  lemma CountsWithout(blocks: map<Hash, Block>, h: Hash)
    requires h in blocks
    ensures h in KvCounts(blocks) && KvCounts(blocks)[h] == blocks[h].kvBytes && KvCounts(blocks) - {h} == KvCounts(blocks - {h})
    ensures h in RecCounts(blocks) && RecCounts(blocks)[h] == blocks[h].recBytes && RecCounts(blocks) - {h} == RecCounts(blocks - {h})
  {
  }

  lemma {:induction false} TotalIsCounts(blocks: map<Hash, Block>)
    ensures TotalBytes(blocks) == SumOf(KvCounts(blocks)) + SumOf(RecCounts(blocks))
    decreases |blocks|
  {
    if blocks == map[] {
      assert KvCounts(blocks) == map[] && RecCounts(blocks) == map[];
    } else {
      var h :| h in blocks;
      TotalWithout(blocks, h);
      TotalIsCounts(blocks - {h});
      CountsWithout(blocks, h);
      hide KvCounts, RecCounts;
      SumWithout(KvCounts(blocks), h);
      SumWithout(RecCounts(blocks), h);
    }
  }

  function Sizes<D>(files: map<Hash, File<D>>): map<Hash, nat> {
    map h | h in files :: files[h].size
  }

  // ---- depth a prompt can resume at --------------------------------------------------

  /** At least one token must remain for the model to process. */
  function RestoreBlocks(len: nat, block: nat): nat
    requires block > 0
  {
    if len == 0 then 0 else (len - 1) / block
  }

  lemma RestoreLeavesOne(len: nat, block: nat, i: nat)
    requires block > 0
    ensures i <= RestoreBlocks(len, block) <==> i == 0 || At(block, i) < len
  {
    AtIsProduct(block, i);
    if len > 0 { QuotientBound(len - 1, block, i); }
    if i > 0 { AtMonotone(block, 1, i); }
  }

  lemma {:induction false} AtIsProduct(block: nat, i: nat)
    ensures At(block, i) == i * block
  {
    if i > 0 {
      AtIsProduct(block, i - 1);
      assert i * block == (i - 1) * block + block;
    }
  }

  lemma Within(i: nat, n: nat, b: nat)
    ensures i <= n ==> i * b <= n * b
  {
  }

  lemma QuotientBound(n: nat, b: nat, i: nat)
    requires b > 0
    ensures i <= n / b <==> i * b <= n
  {
    var q := n / b;
    assert q * b <= n < q * b + b;
    if i <= q {
      Within(i, q, b);
    } else {
      Within(q + 1, i, b);
      assert (q + 1) * b == q * b + b;
    }
  }

  // ---- right data ------------------------------------------------------------------------

  /** What never changes about a store. */
  datatype Setup = Setup(m: Model, mix: Mix, block: nat, needsRec: bool, maxBytes: nat, maxPending: nat)

  ghost predicate Proper(c: Setup) {
    CollisionFree(c.mix) && c.block > 0 && Storable(c.m)
    && (c.needsRec <==> exists l :: 0 <= l < |c.m.layers| && c.m.layers[l].Recurrent?)
  }

  lemma ProperStorable(c: Setup)
    ensures Proper(c) ==> Storable(c.m)
  {
  }

  /** The hash names the first i blocks of these tokens. */
  ghost predicate Names(c: Setup, h: Hash, tokens: seq<Token>, i: nat) {
    i > 0 && At(c.block, i) <= |tokens| && h == ChainHash(c.mix, c.block, tokens, i)
  }

  /** The rows are those of the block the hash names. */
  ghost predicate RightKv(c: Setup, h: Hash, d: KvData) {
    exists tokens: seq<Token>, i: nat :: Names(c, h, tokens, i) && d == KvBlock(c.m, c.block, tokens, i)
  }

  /** The states are those behind the prefix the hash names. */
  ghost predicate RightRec(c: Setup, h: Hash, d: RecData) {
    exists tokens: seq<Token>, i: nat :: Names(c, h, tokens, i) && d == RecStates(c.m, CacheAfter(c.m, tokens[..At(c.block, i)]))
  }

  ghost predicate RightJob(c: Setup, j: Job) {
    if j.KvJob? then RightKv(c, j.hash, j.kv) else RightRec(c, j.hash, j.rec)
  }

  lemma RightKvIsBlock(c: Setup, h: Hash, d: KvData, tokens: seq<Token>, i: nat)
    requires Proper(c) && RightKv(c, h, d) && Names(c, h, tokens, i)
    ensures d == KvBlock(c.m, c.block, tokens, i)
  {
    hide KvSlice, CacheAfter;
    var t: seq<Token>, j: nat :| Names(c, h, t, j) && d == KvBlock(c.m, c.block, t, j);
    HashNamesPrefix(c.mix, c.block, t, j, tokens, i);
  }

  lemma RightRecIsState(c: Setup, h: Hash, d: RecData, tokens: seq<Token>, i: nat)
    requires Proper(c) && RightRec(c, h, d) && Names(c, h, tokens, i)
    ensures d == RecStates(c.m, CacheAfter(c.m, tokens[..At(c.block, i)]))
  {
    hide RecStates, CacheAfter;
    var t: seq<Token>, j: nat :| Names(c, h, t, j) && d == RecStates(c.m, CacheAfter(c.m, t[..At(c.block, j)]));
    HashNamesPrefix(c.mix, c.block, t, j, tokens, i);
  }

  // ---- eviction --------------------------------------------------------------------------

  predicate Older(a: Block, b: Block) {
    a.used < b.used || (a.used == b.used && a.index >= b.index)
  }

  predicate Evictable(blocks: map<Hash, Block>, h: Hash, keep: set<Hash>) {
    h in blocks && h !in keep && !blocks[h].kvPending && !blocks[h].recPending
  }

  /** What an eviction left: the rest as it was, and everything gone evictable and
      no newer than anything evictable that stayed. */
  ghost predicate Evicted(before: map<Hash, Block>, now: map<Hash, Block>, keep: set<Hash>) {
    && (forall h :: h in now ==> h in before && now[h] == before[h])
    && (forall d :: d in before && d !in now ==> Evictable(before, d, keep))
    && (forall d, h :: d in before && d !in now && Evictable(now, h, keep) ==>
         before[d].used < now[h].used || (before[d].used == now[h].used && before[d].index >= now[h].index))
  }

  lemma EvictedIn(before: map<Hash, Block>, now: map<Hash, Block>, keep: set<Hash>, v: Hash)
    requires Evicted(before, now, keep) && Evictable(now, v, keep)
    ensures v in now && v in before && before[v] == now[v]
  {
  }

  /** Something went, and without the last to go there was still too little room. */
  ghost predicate LastNeeded(before: map<Hash, Block>, now: map<Hash, Block>, room: int) {
    exists d :: d in before && d !in now && TotalBytes(now) + before[d].kvBytes + before[d].recBytes > room
  }

  lemma LastGone(before: map<Hash, Block>, was: map<Hash, Block>, d: Hash, room: int)
    requires d in was && d in before && before[d] == was[d] && TotalBytes(was) > room
    ensures LastNeeded(before, was - {d}, room)
  {
    TotalWithout(was, d);
  }

  lemma EvictedOne(before: map<Hash, Block>, now: map<Hash, Block>, keep: set<Hash>, v: Hash)
    requires Evicted(before, now, keep) && Evictable(now, v, keep)
    requires forall h :: Evictable(now, h, keep) ==> Older(now[v], now[h])
    ensures Evicted(before, now - {v}, keep)
  {
  }

  /** An unfinished job of this kind for this block. */
  ghost predicate Backed(queue: seq<Job>, writing: Option<Written>, h: Hash, kv: bool) {
    || (exists k :: 0 <= k < |queue| && queue[k].hash == h && queue[k].KvJob? == kv)
    || (writing.Some? && writing.value.job.hash == h && writing.value.job.KvJob? == kv)
  }

  lemma BackedSnoc(queue: seq<Job>, writing: Option<Written>, job: Job, h: Hash, kv: bool)
    requires Backed(queue, writing, h, kv) || (job.hash == h && job.KvJob? == kv)
    ensures Backed(queue + [job], writing, h, kv)
  {
    if job.hash == h && job.KvJob? == kv {
      assert (queue + [job])[|queue|] == job;
    } else if exists k :: 0 <= k < |queue| && queue[k].hash == h && queue[k].KvJob? == kv {
      var k :| 0 <= k < |queue| && queue[k].hash == h && queue[k].KvJob? == kv;
      assert (queue + [job])[k] == queue[k];
    }
  }

  lemma BackedTaken(queue: seq<Job>, size: nat, h: Hash, kv: bool)
    requires queue != [] && Backed(queue, None, h, kv)
    ensures Backed(queue[1..], Some(Written(queue[0], size)), h, kv)
  {
    var k :| 0 <= k < |queue| && queue[k].hash == h && queue[k].KvJob? == kv;
    assert k > 0 ==> queue[1..][k - 1] == queue[k];
  }

  // ---- the store ---------------------------------------------------------------------------

  // ---- marks and files, as the runs see them -------------------------------------------

  function Ready(blocks: map<Hash, Block>): (parts: set<Runs.Part>)
    ensures forall p :: p in parts <==> p.h in blocks && if p.kv then blocks[p.h].kvReady else blocks[p.h].recReady
  {
    (set h | h in blocks && blocks[h].kvReady :: Runs.Part(h, true)) + (set h | h in blocks && blocks[h].recReady :: Runs.Part(h, false))
  }

  function Files(kv: set<Hash>, rec: set<Hash>): (parts: set<Runs.Part>)
    ensures forall p :: p in parts <==> p.h in if p.kv then kv else rec
  {
    (set h | h in kv :: Runs.Part(h, true)) + (set h | h in rec :: Runs.Part(h, false))
  }

  function PartOf(job: Job): Runs.Part {
    Runs.Part(job.hash, job.KvJob?)
  }

  function ViewOf(blocks: map<Hash, Block>, kv: map<Hash, File<KvData>>, rec: map<Hash, File<RecData>>, writing: Option<Written>): Runs.View {
    Runs.View(blocks.Keys, Ready(blocks), Files(kv.Keys, rec.Keys),
              match writing case None => None case Some(w) => Some(Runs.Hand(PartOf(w.job), w.size > 0)))
  }

  lemma HandView(blocks: map<Hash, Block>, kv: map<Hash, File<KvData>>, rec: map<Hash, File<RecData>>, writing: Option<Written>)
    ensures ViewOf(blocks, kv, rec, writing).hand.Some? <==> writing.Some?
  {
  }

  lemma RemoveView(blocks: map<Hash, Block>, kv: map<Hash, File<KvData>>, rec: map<Hash, File<RecData>>, writing: Option<Written>, h: Hash)
    ensures (if h in blocks then ViewOf(blocks - {h}, kv - {h}, rec - {h}, writing) else ViewOf(blocks, kv, rec, writing))
         == Runs.Apply(ViewOf(blocks, kv, rec, writing), Runs.Remove(h))
  {
    if h in blocks {
      assert (blocks - {h}).Keys == blocks.Keys - {h};
      assert Ready(blocks - {h}) == Runs.Without(Ready(blocks), h);
      assert Files((kv - {h}).Keys, (rec - {h}).Keys) == Runs.Without(Files(kv.Keys, rec.Keys), h);
    }
  }

  lemma TouchView(blocks: map<Hash, Block>, kv: map<Hash, File<KvData>>, rec: map<Hash, File<RecData>>, writing: Option<Written>, hashes: seq<Hash>, now: nat)
    ensures ViewOf(map h | h in blocks :: if h in hashes then blocks[h].(used := now) else blocks[h], kv, rec, writing)
         == ViewOf(blocks, kv, rec, writing)
  {
    var touched := map h | h in blocks :: if h in hashes then blocks[h].(used := now) else blocks[h];
    assert touched.Keys == blocks.Keys && Ready(touched) == Ready(blocks);
  }

  lemma MarkView(blocks: map<Hash, Block>, kv: map<Hash, File<KvData>>, rec: map<Hash, File<RecData>>, writing: Option<Written>, job: Job, now: nat)
    ensures ViewOf(blocks[job.hash := Marked(blocks, job, now)], kv, rec, writing)
         == Runs.Apply(ViewOf(blocks, kv, rec, writing), Runs.Mark(job.hash))
  {
    var more := blocks[job.hash := Marked(blocks, job, now)];
    assert more.Keys == blocks.Keys + {job.hash};
    assert Ready(more) == Ready(blocks);
  }

  lemma WriteView(blocks: map<Hash, Block>, kv: map<Hash, File<KvData>>, rec: map<Hash, File<RecData>>, job: Job, size: nat)
    ensures ViewOf(blocks, if size > 0 && job.KvJob? then kv[job.hash := File(job.kv, size)] else kv,
                   if size > 0 && job.RecJob? then rec[job.hash := File(job.rec, size)] else rec,
                   Some(Written(job, size)))
         == Runs.Apply(ViewOf(blocks, kv, rec, None), Runs.Write(PartOf(job), size > 0))
  {
    if size > 0 {
      if job.KvJob? {
        assert Files(kv[job.hash := File(job.kv, size)].Keys, rec.Keys) == Files(kv.Keys, rec.Keys) + {PartOf(job)};
      } else {
        assert Files(kv.Keys, rec[job.hash := File(job.rec, size)].Keys) == Files(kv.Keys, rec.Keys) + {PartOf(job)};
      }
    }
  }

  lemma SettledView(blocks: map<Hash, Block>, kv: map<Hash, File<KvData>>, rec: map<Hash, File<RecData>>, w: Written)
    requires w.job.hash in blocks && (w.size > 0 || w.job.RecJob?)
    ensures ViewOf(blocks[w.job.hash := Settled(blocks, w)], kv, rec, None) == Runs.Apply(ViewOf(blocks, kv, rec, Some(w)), Runs.Settle)
  {
    var more := blocks[w.job.hash := Settled(blocks, w)];
    assert more.Keys == blocks.Keys;
    assert Ready(more) == if w.size > 0 then Ready(blocks) + {PartOf(w.job)} else Ready(blocks);
  }

  lemma OrphanView(blocks: map<Hash, Block>, kv: map<Hash, File<KvData>>, rec: map<Hash, File<RecData>>, w: Written)
    requires w.job.hash !in blocks
    ensures ViewOf(blocks, if w.job.KvJob? then kv - {w.job.hash} else kv, if w.job.KvJob? then rec else rec - {w.job.hash}, None)
         == Runs.Apply(ViewOf(blocks, kv, rec, Some(w)), Runs.Settle)
  {
    var kv', rec' := if w.job.KvJob? then kv - {w.job.hash} else kv, if w.job.KvJob? then rec else rec - {w.job.hash};
    assert Files(kv'.Keys, rec'.Keys) == Files(kv.Keys, rec.Keys) - {PartOf(w.job)};
  }

  lemma FailedView(blocks: map<Hash, Block>, kv: map<Hash, File<KvData>>, rec: map<Hash, File<RecData>>, w: Written)
    requires w.job.hash in blocks && w.size == 0 && w.job.KvJob?
    ensures ViewOf(blocks - {w.job.hash}, kv - {w.job.hash}, rec - {w.job.hash}, None)
         == Runs.Apply(ViewOf(blocks, kv, rec, Some(w)), Runs.Settle)
  {
    RemoveView(blocks, kv, rec, None, w.job.hash);
  }

  /** This part's file was written, and is not settled yet. */
  predicate InHand(writing: Option<Written>, h: Hash, kv: bool) {
    writing.Some? && writing.value.size > 0 && writing.value.job.hash == h && writing.value.job.KvJob? == kv
  }

  /** A part's byte count: the size of its file if it is ready and the file is there, and
      nothing before it is ready. What the writer has in hand is still to be counted. */
  ghost predicate PartSized<D>(ready: bool, bytes: nat, files: map<Hash, File<D>>, h: Hash, inHand: bool) {
    (ready <==> bytes > 0) && (ready && h in files && !inHand ==> files[h].size == bytes)
  }

  ghost predicate SizesOf(blocks: map<Hash, Block>, kv: map<Hash, File<KvData>>, rec: map<Hash, File<RecData>>, writing: Option<Written>) {
    && (forall h :: h in blocks ==> PartSized(blocks[h].kvReady, blocks[h].kvBytes, kv, h, InHand(writing, h, true)))
    && (forall h :: h in blocks ==> PartSized(blocks[h].recReady, blocks[h].recBytes, rec, h, InHand(writing, h, false)))
    && (forall h :: h in kv && InHand(writing, h, true) ==> kv[h].size == writing.value.size)
    && (forall h :: h in rec && InHand(writing, h, false) ==> rec[h].size == writing.value.size)
  }

  ghost predicate RightFiles(c: Setup, kv: map<Hash, File<KvData>>, rec: map<Hash, File<RecData>>) {
    (forall h :: h in kv ==> RightKv(c, h, kv[h].data)) && (forall h :: h in rec ==> RightRec(c, h, rec[h].data))
  }

  ghost predicate PendingHave(blocks: map<Hash, Block>, queue: seq<Job>, writing: Option<Written>) {
    forall h :: h in blocks ==>
      (blocks[h].kvPending ==> Backed(queue, writing, h, true)) && (blocks[h].recPending ==> Backed(queue, writing, h, false))
  }

  ghost predicate ReadyHave(blocks: map<Hash, Block>, kv: map<Hash, File<KvData>>, rec: map<Hash, File<RecData>>) {
    forall h :: h in blocks ==> (blocks[h].kvReady ==> h in kv) && (blocks[h].recReady ==> h in rec)
  }

  /** What is left when a block goes is as right as it was. */
  lemma RemoveKeeps(c: Setup, blocks: map<Hash, Block>, kv: map<Hash, File<KvData>>, rec: map<Hash, File<RecData>>,
                    queue: seq<Job>, writing: Option<Written>, h: Hash)
    ensures RightFiles(c, kv, rec) ==> RightFiles(c, kv - {h}, rec - {h})
    ensures PendingHave(blocks, queue, writing) ==> PendingHave(blocks - {h}, queue, writing)
    ensures ReadyHave(blocks, kv, rec) ==> ReadyHave(blocks - {h}, kv - {h}, rec - {h})
    ensures h !in blocks ==> blocks - {h} == blocks
  {
    hide RightKv, RightRec, Backed;
  }

  lemma TouchKeeps(blocks: map<Hash, Block>, kv: map<Hash, File<KvData>>, rec: map<Hash, File<RecData>>,
                   queue: seq<Job>, writing: Option<Written>, hashes: seq<Hash>, now: nat)
    ensures var touched := map h | h in blocks :: if h in hashes then blocks[h].(used := now) else blocks[h];
      && (PendingHave(blocks, queue, writing) ==> PendingHave(touched, queue, writing))
      && (ReadyHave(blocks, kv, rec) ==> ReadyHave(touched, kv, rec))
  {
    hide Backed;
  }

  /** Files that no block answers for: those of parts that are not ready, and the one the
      writer has in hand. */
  function Loose<D>(ready: set<Hash>, files: map<Hash, File<D>>, writing: Option<Written>, kv: bool): set<Hash> {
    set h | h in files && (h !in ready || InHand(writing, h, kv))
  }

  /** Of one kind of file: what is on disk is what the blocks count and what is loose, but
      for the parts whose file is gone. */
  lemma OneKindCounted<D>(blocks: map<Hash, Block>, ready: set<Hash>, counts: map<Hash, nat>, files: map<Hash, File<D>>,
                          writing: Option<Written>, kv: bool)
    requires counts.Keys == blocks.Keys && ready <= blocks.Keys
    requires forall h :: h in blocks ==> PartSized(h in ready, counts[h], files, h, InHand(writing, h, kv))
    ensures SumOf(Sizes(files)) <= SumOf(counts) + SumOf(Only(Sizes(files), Loose(ready, files, writing, kv)))
    ensures (forall h :: !InHand(writing, h, kv)) ==>
      (SumOf(Sizes(files)) == SumOf(counts) + SumOf(Only(Sizes(files), Loose(ready, files, writing, kv))) <==>
        forall h :: h in ready ==> h in files)
  {
    var loose := Loose(ready, files, writing, kv);
    hide InHand;
    SumSplit(Sizes(files), loose);
    var counted := Sizes(files) - loose;
    SumWithin(counted, counts);
    hide SumOf, Sizes;
    if forall h :: !InHand(writing, h, kv) {
      assert forall h :: Misses(counted, counts, h) <==> h in ready && h !in files;
    }
  }

  /** What settling a written job comes to. Without its block the file is deleted; a
      failed write of rows takes the block and both files along; everything else leaves
      the files and all other blocks, and of its own block clears the pending mark and,
      if the file was written, enters its size and marks it ready. */
  ghost predicate SettledTo(was: map<Hash, Block>, wasKv: map<Hash, File<KvData>>, wasRec: map<Hash, File<RecData>>, w: Written,
                            now: map<Hash, Block>, kv: map<Hash, File<KvData>>, rec: map<Hash, File<RecData>>) {
    var h, rows, ok := w.job.hash, w.job.KvJob?, w.size > 0;
    if h !in was then
      now == was && kv == (if rows then wasKv - {h} else wasKv) && rec == if rows then wasRec else wasRec - {h}
    else if rows && !ok then
      now == was - {h} && kv == wasKv - {h} && rec == wasRec - {h}
    else
      var b := was[h];
      && kv == wasKv && rec == wasRec
      && now == was[h := Block(b.index, if rows then w.size else b.kvBytes, if !rows && ok then w.size else b.recBytes, b.used,
                               b.kvReady || rows, b.recReady || (!rows && ok), b.kvPending && !rows, b.recPending && rows)]
  }

  lemma SettledKeeps(c: Setup, was: map<Hash, Block>, wasKv: map<Hash, File<KvData>>, wasRec: map<Hash, File<RecData>>, w: Written,
                     now: map<Hash, Block>, kv: map<Hash, File<KvData>>, rec: map<Hash, File<RecData>>, queue: seq<Job>)
    requires SettledTo(was, wasKv, wasRec, w, now, kv, rec)
    ensures RightFiles(c, wasKv, wasRec) ==> RightFiles(c, kv, rec)
    ensures PendingHave(was, queue, Some(w)) ==> PendingHave(now, queue, Some(w))
    ensures w.job.hash in now ==> !if w.job.KvJob? then now[w.job.hash].kvPending else now[w.job.hash].recPending
  {
    hide RightKv, RightRec, Backed;
  }

  lemma SettledReady(was: map<Hash, Block>, wasKv: map<Hash, File<KvData>>, wasRec: map<Hash, File<RecData>>, w: Written,
                     now: map<Hash, Block>, kv: map<Hash, File<KvData>>, rec: map<Hash, File<RecData>>)
    requires SettledTo(was, wasKv, wasRec, w, now, kv, rec) && ReadyHave(was, wasKv, wasRec)
    ensures ReadyHave(now, kv, rec) <==>
      !(w.size > 0 && w.job.hash in was && w.job.hash !in if w.job.KvJob? then wasKv.Keys else wasRec.Keys)
  {
    if w.size > 0 && w.job.hash in was {
      assert if w.job.KvJob? then now[w.job.hash].kvReady else now[w.job.hash].recReady;
    }
  }

  /** No room can be made for a job: the backlog is full, or nothing may go. */
  ghost predicate Refuses(blocks: map<Hash, Block>, pending: nat, maxPending: nat, job: Job, keep: set<Hash>) {
    pending + job.nbytes > maxPending || forall h :: !Evictable(blocks, h, keep)
  }

  /** The first k jobs are in the queue behind the ones that were there, or refused. */
  ghost predicate Serves(blocks: map<Hash, Block>, pending: nat, maxPending: nat, queue: seq<Job>,
                         jobs: seq<Job>, k: nat, were: seq<Job>, keep: set<Hash>)
    requires k <= |jobs|
  {
    && |were| <= |queue| && queue[..|were|] == were
    && (forall j :: |were| <= j < |queue| ==> queue[j] in jobs)
    && (forall j :: 0 <= j < k ==> jobs[j] in queue[|were|..] || Refuses(blocks, pending, maxPending, jobs[j], keep))
  }

  lemma ServedStays(was: map<Hash, Block>, pending: nat, before: seq<Job>, now: map<Hash, Block>, pending': nat, queue: seq<Job>,
                    maxPending: nat, jobs: seq<Job>, k: nat, were: seq<Job>, keep: set<Hash>, queued: bool)
    requires k < |jobs| && Serves(was, pending, maxPending, before, jobs, k, were, keep)
    requires queue == if queued then before + [jobs[k]] else before
    requires pending <= pending' && (!queued ==> Refuses(now, pending', maxPending, jobs[k], keep))
    requires forall h :: Evictable(now, h, keep) ==> Evictable(was, h, keep)
    ensures Serves(now, pending', maxPending, queue, jobs, k + 1, were, keep)
  {
    hide Evictable;
    assert queued ==> queue[|were|..] == before[|were|..] + [jobs[k]];
    forall j | 0 <= j < k && Refuses(was, pending, maxPending, jobs[j], keep) ensures Refuses(now, pending', maxPending, jobs[j], keep) {
    }
  }

  /** Evicting and marking make nothing evictable. */
  lemma EvictableStill(before: map<Hash, Block>, between: map<Hash, Block>, now: map<Hash, Block>, job: Job, time: nat, keep: set<Hash>, queued: bool)
    requires Evicted(before, between, keep)
    requires now == if queued then between[job.hash := Marked(between, job, time)] else between
    ensures forall h :: Evictable(now, h, keep) ==> Evictable(before, h, keep)
  {
    hide Older;
  }

  lemma RemoveSizes(blocks: map<Hash, Block>, kv: map<Hash, File<KvData>>, rec: map<Hash, File<RecData>>, writing: Option<Written>, h: Hash)
    requires SizesOf(blocks, kv, rec, writing)
    ensures SizesOf(blocks - {h}, kv - {h}, rec - {h}, writing)
  {
  }

  lemma TouchSizes(blocks: map<Hash, Block>, kv: map<Hash, File<KvData>>, rec: map<Hash, File<RecData>>, writing: Option<Written>,
                   hashes: seq<Hash>, now: nat)
    requires SizesOf(blocks, kv, rec, writing)
    ensures SizesOf(map h | h in blocks :: if h in hashes then blocks[h].(used := now) else blocks[h], kv, rec, writing)
  {
  }

  lemma {:induction false} TouchTotal(blocks: map<Hash, Block>, hashes: seq<Hash>, now: nat)
    ensures TotalBytes(map h | h in blocks :: if h in hashes then blocks[h].(used := now) else blocks[h]) == TotalBytes(blocks)
    decreases |blocks|
  {
    var touched := map h | h in blocks :: if h in hashes then blocks[h].(used := now) else blocks[h];
    TotalIsCounts(blocks);
    TotalIsCounts(touched);
    assert KvCounts(touched) == KvCounts(blocks) && RecCounts(touched) == RecCounts(blocks);
  }

  lemma MarkSizes(blocks: map<Hash, Block>, kv: map<Hash, File<KvData>>, rec: map<Hash, File<RecData>>, writing: Option<Written>, job: Job, now: nat)
    requires SizesOf(blocks, kv, rec, writing)
    ensures SizesOf(blocks[job.hash := Marked(blocks, job, now)], kv, rec, writing)
  {
  }

  lemma MarkTotal(blocks: map<Hash, Block>, job: Job, now: nat)
    ensures TotalBytes(blocks[job.hash := Marked(blocks, job, now)]) == TotalBytes(blocks)
  {
    var h, more := job.hash, blocks[job.hash := Marked(blocks, job, now)];
    TotalWithout(more, h);
    if h in blocks {
      TotalWithout(blocks, h);
      assert more - {h} == blocks - {h};
    } else {
      assert more - {h} == blocks;
    }
  }

  lemma WriteSizes(blocks: map<Hash, Block>, kv: map<Hash, File<KvData>>, rec: map<Hash, File<RecData>>, job: Job, size: nat)
    requires SizesOf(blocks, kv, rec, None)
    ensures SizesOf(blocks, if size > 0 && job.KvJob? then kv[job.hash := File(job.kv, size)] else kv,
                    if size > 0 && job.RecJob? then rec[job.hash := File(job.rec, size)] else rec, Some(Written(job, size)))
  {
  }

  lemma SettledSizes(blocks: map<Hash, Block>, kv: map<Hash, File<KvData>>, rec: map<Hash, File<RecData>>, w: Written)
    requires SizesOf(blocks, kv, rec, Some(w)) && w.job.hash in blocks && (w.size > 0 || w.job.RecJob?)
    ensures SizesOf(blocks[w.job.hash := Settled(blocks, w)], kv, rec, None)
  {
  }

  lemma OrphanSizes(blocks: map<Hash, Block>, kv: map<Hash, File<KvData>>, rec: map<Hash, File<RecData>>, w: Written)
    requires SizesOf(blocks, kv, rec, Some(w)) && w.job.hash !in blocks
    ensures SizesOf(blocks, if w.job.KvJob? then kv - {w.job.hash} else kv, if w.job.KvJob? then rec else rec - {w.job.hash}, None)
  {
  }

  lemma FailedSizes(blocks: map<Hash, Block>, kv: map<Hash, File<KvData>>, rec: map<Hash, File<RecData>>, w: Written)
    requires SizesOf(blocks, kv, rec, Some(w)) && w.size == 0
    ensures SizesOf(blocks - {w.job.hash}, kv - {w.job.hash}, rec - {w.job.hash}, None)
  {
  }

  lemma ReopenedSizes(manifest: map<Hash, Record>, kv: map<Hash, File<KvData>>, rec: map<Hash, File<RecData>>)
    ensures SizesOf(Back(manifest, kv, rec), kv, Left(manifest, kv, rec), None)
    ensures ReadyHave(Back(manifest, kv, rec), kv, Left(manifest, kv, rec))
    ensures var blocks := Back(manifest, kv, rec);
      && (forall h :: h in blocks <==> h in manifest && Listed(manifest[h].kv, kv, h))
      && (forall h :: h in blocks ==> blocks[h] == Reopened(manifest[h], Listed(manifest[h].rec, rec, h)))
      && (forall h :: h in blocks ==> !blocks[h].kvPending && !blocks[h].recPending)
  {
  }

  function KvParts(blocks: map<Hash, Block>): set<Hash> {
    set h | h in blocks && blocks[h].kvReady
  }

  function RecParts(blocks: map<Hash, Block>): set<Hash> {
    set h | h in blocks && blocks[h].recReady
  }

  lemma OnlyOne(m: map<Hash, nat>, h: Hash, n: nat)
    requires forall g :: g in m ==> g == h && m[g] == n
    ensures SumOf(m) <= n
  {
    if h in m {
      SumWithout(m, h);
      assert m - {h} == map[];
    } else {
      assert m == map[];
    }
  }

  function Back(manifest: map<Hash, Record>, kv: map<Hash, File<KvData>>, rec: map<Hash, File<RecData>>): map<Hash, Block> {
    map h | h in manifest && Listed(manifest[h].kv, kv, h) :: Reopened(manifest[h], Listed(manifest[h].rec, rec, h))
  }

  /** What a reopened store leaves of the states' files. */
  function Left(manifest: map<Hash, Record>, kv: map<Hash, File<KvData>>, rec: map<Hash, File<RecData>>): map<Hash, File<RecData>> {
    map h | h in rec && (h !in manifest || Listed(manifest[h].kv, kv, h) || !Listed(manifest[h].rec, rec, h)) :: rec[h]
  }

  lemma ReopenedStray(manifest: map<Hash, Record>, kv: map<Hash, File<KvData>>, rec: map<Hash, File<RecData>>, p: Runs.Part)
    ensures Runs.Stray(ViewOf(Back(manifest, kv, rec), kv, Left(manifest, kv, rec), None), p) <==>
      if p.kv then p.h in kv && !(p.h in manifest && Listed(manifest[p.h].kv, kv, p.h))
      else p.h in rec && !(p.h in manifest && Listed(manifest[p.h].rec, rec, p.h))
  {
    hide Listed;
  }

  /** A reopened store is tidy exactly if the manifest lists every file there is. */
  lemma ReopenedTidy(manifest: map<Hash, Record>, kv: map<Hash, File<KvData>>, rec: map<Hash, File<RecData>>)
    ensures Runs.Tidy(ViewOf(Back(manifest, kv, rec), kv, Left(manifest, kv, rec), None)) <==>
      (forall h :: h in kv ==> h in manifest && Listed(manifest[h].kv, kv, h))
      && (forall h :: h in rec ==> h in manifest && Listed(manifest[h].rec, rec, h))
  {
    hide Listed, ViewOf, Back, Left, Runs.Stray;
    var v := ViewOf(Back(manifest, kv, rec), kv, Left(manifest, kv, rec), None);
    forall p ensures Runs.Stray(v, p) <==>
      if p.kv then p.h in kv && !(p.h in manifest && Listed(manifest[p.h].kv, kv, p.h))
      else p.h in rec && !(p.h in manifest && Listed(manifest[p.h].rec, rec, p.h))
    {
      ReopenedStray(manifest, kv, rec, p);
    }
    if h :| h in kv && !(h in manifest && Listed(manifest[h].kv, kv, h)) {
      assert Runs.Stray(v, Runs.Part(h, true));
    }
    if h :| h in rec && !(h in manifest && Listed(manifest[h].rec, rec, h)) {
      assert Runs.Stray(v, Runs.Part(h, false));
    }
  }

  lemma EvictingShrinks(blocks: map<Hash, Block>, v: Hash, keep: set<Hash>)
    requires Evictable(blocks, v, keep)
    ensures |blocks - {v}| < |blocks|
  {
    assert (blocks - {v}).Keys == blocks.Keys - {v};
  }

  class DiskStore {
    const c: Setup
    var blocks: map<Hash, Block>
    var kvFiles: map<Hash, File<KvData>>
    var recFiles: map<Hash, File<RecData>>
    var queue: seq<Job>
    var writing: Option<Written>
    var pendingBytes: nat
    var snapshot: Option<Snapshot>

    ghost predicate FilesRight()
      reads this`kvFiles, this`recFiles
    {
      RightFiles(c, kvFiles, recFiles)
    }

    /** Every job carries the data its hash names. */
    ghost predicate JobsRight()
      reads this`queue, this`writing, this`snapshot
    {
      && (forall k :: 0 <= k < |queue| ==> RightJob(c, queue[k]))
      && (writing.Some? ==> RightJob(c, writing.value.job))
      && (snapshot.Some? ==> forall k :: 0 <= k < |snapshot.value.jobs| ==> RightJob(c, snapshot.value.jobs[k]))
    }

    /** The backlog counter is the sum of the unfinished jobs. */
    ghost predicate Counted()
      reads this`queue, this`writing, this`pendingBytes
    {
      pendingBytes == JobBytes(queue) + if writing.Some? then writing.value.job.nbytes else 0
    }

    /** A pending mark always has an unfinished job behind it. */
    ghost predicate PendingBacked()
      reads this`blocks, this`queue, this`writing
    {
      PendingHave(blocks, queue, writing)
    }

    /** Every block counts, of each of its files, what that file takes on disk. */
    ghost predicate Sized()
      reads this`blocks, this`kvFiles, this`recFiles, this`writing
    {
      SizesOf(blocks, kvFiles, recFiles, writing)
    }

    ghost function DiskBytes(): nat
      reads this`kvFiles, this`recFiles
    {
      SumOf(Sizes(kvFiles)) + SumOf(Sizes(recFiles))
    }

    ghost function KvLoose(): map<Hash, nat>
      reads this`blocks, this`kvFiles, this`writing
    {
      Only(Sizes(kvFiles), Loose(KvParts(blocks), kvFiles, writing, true))
    }

    ghost function RecLoose(): map<Hash, nat>
      reads this`blocks, this`recFiles, this`writing
    {
      Only(Sizes(recFiles), Loose(RecParts(blocks), recFiles, writing, false))
    }

    ghost function LooseBytes(): nat
      reads this`blocks, this`kvFiles, this`recFiles, this`writing
    {
      SumOf(KvLoose()) + SumOf(RecLoose())
    }

    /** The writer has no finished file in hand. */
    predicate EmptyHanded()
      reads this`writing
    {
      writing.None? || writing.value.size == 0
    }

    /** What the blocks count is what is on disk, but for loose files and for ready parts
        whose file is gone: with nothing in the writer's hands, it is exactly that if
        and only if every ready block has its files. */
    lemma CountedOnDisk()
      requires Sized()
      ensures DiskBytes() <= TotalBytes(blocks) + LooseBytes()
      ensures EmptyHanded() ==> (DiskBytes() == TotalBytes(blocks) + LooseBytes() <==> ReadyHasFile())
    {
      hide SumOf, TotalBytes, PartSized;
      TotalIsCounts(blocks);
      OneKindCounted(blocks, KvParts(blocks), KvCounts(blocks), kvFiles, writing, true);
      OneKindCounted(blocks, RecParts(blocks), RecCounts(blocks), recFiles, writing, false);
    }

    lemma BlocksCount()
      requires Valid()
      ensures DiskBytes() <= TotalBytes(blocks) + LooseBytes()
    {
      CountedOnDisk();
    }

    /** In a tidy store only the writer's file is loose. */
    lemma TidyLoose()
      requires Sized() && Runs.Tidy(View())
      ensures LooseBytes() <= if EmptyHanded() then 0 else writing.value.size
    {
      NothingSums();
      hide SumOf;
      assert forall h :: h in KvLoose() ==> !Runs.Stray(View(), Runs.Part(h, true));
      assert forall h :: h in RecLoose() ==> !Runs.Stray(View(), Runs.Part(h, false));
      if EmptyHanded() {
        assert KvLoose() == map[] && RecLoose() == map[];
      } else {
        var job, size := writing.value.job, writing.value.size;
        OnlyOne(KvLoose(), job.hash, size);
        OnlyOne(RecLoose(), job.hash, size);
        assert if job.KvJob? then RecLoose() == map[] else KvLoose() == map[];
      }
    }

    /** Behind any run of operations from a tidy store, what the blocks count bounds what
        is on disk but for the file in the writer's hands, and is exactly what is on disk
        if and only if the writer has none and every ready block has its files. */
    lemma DirectoryCounted(start: Runs.View, ops: seq<Runs.Op>)
      requires Valid() && Runs.Tidy(start) && Runs.Run(start, ops) == Some(View())
      ensures DiskBytes() <= TotalBytes(blocks) + if EmptyHanded() then 0 else writing.value.size
      ensures EmptyHanded() ==> (DiskBytes() == TotalBytes(blocks) <==> ReadyHasFile())
    {
      hide View, Runs.Run, Runs.Stray, DiskBytes, LooseBytes, TotalBytes, ReadyHasFile, Kept, Sized;
      forall p: Runs.Part ensures !Runs.Stray(View(), p) {
        if Runs.Stray(View(), p) { Runs.RunStrays(start, ops, p); }
      }
      TidyLoose();
      CountedOnDisk();
    }

    ghost predicate Kept()
      reads this
    {
      Proper(c) && FilesRight() && JobsRight() && Counted() && PendingBacked()
    }

    ghost predicate Valid()
      reads this
    {
      Kept() && Sized()
    }

    /** A block marked ready has its file. Not kept by every step. */
    ghost predicate ReadyHasFile()
      reads this`blocks, this`kvFiles, this`recFiles
    {
      ReadyHave(blocks, kvFiles, recFiles)
    }

    /** The store as its runs see it. */
    ghost function View(): Runs.View
      reads this`blocks, this`kvFiles, this`recFiles, this`writing
    {
      ViewOf(blocks, kvFiles, recFiles, writing)
    }

    /** The store is where one operation leads. */
    ghost predicate Follows(was: Runs.View, op: Runs.Op)
      reads this`blocks, this`kvFiles, this`recFiles, this`writing
    {
      Runs.Enabled(was, op) && View() == Runs.Apply(was, op)
    }

    /** It will be where a settling leads once the writer's hands are empty. */
    ghost predicate Finished(was: Runs.View)
      reads this`blocks, this`kvFiles, this`recFiles
    {
      was.hand.Some? && ViewOf(blocks, kvFiles, recFiles, None) == Runs.Apply(was, Runs.Settle)
    }

    lemma ReadyIsBacked()
      ensures ReadyHasFile() <==> Runs.Backed(View())
      ensures Runs.Proper(View())
    {
      if ReadyHasFile() {
        forall p: Runs.Part ensures !Runs.Lacks(View(), p) {
        }
      } else {
        var h :| h in blocks && ((blocks[h].kvReady && h !in kvFiles) || (blocks[h].recReady && h !in recFiles));
        assert Runs.Lacks(View(), Runs.Part(h, true)) || Runs.Lacks(View(), Runs.Part(h, false));
      }
    }

    /** A store reached by a run from one whose ready blocks all had their files, the
        writer idle, has them all exactly if no part was settled after its block had
        been removed and queued again behind the write, and left so since. */
    lemma ReadyExactly(start: Runs.View, ops: seq<Runs.Op>)
      requires Runs.Proper(start) && Runs.Backed(start) && start.hand.None? && Runs.Run(start, ops) == Some(View())
      ensures ReadyHasFile() <==> forall p, l: nat :: !Runs.LapsedAt(start, ops, p, l)
    {
      ReadyIsBacked();
      hide View, ReadyHasFile, Runs.Proper, Runs.Backed, Runs.Run, Runs.LapsedAt;
      Runs.BackedExactly(start, ops);
    }

    /** The file of the job in the writer's hands was written and is gone again. */
    ghost predicate Gone()
      reads this`writing, this`kvFiles, this`recFiles
    {
      writing.Some? && writing.value.size > 0 &&
      writing.value.job.hash !in if writing.value.job.KvJob? then kvFiles.Keys else recFiles.Keys
    }

    /** A job for the hash in the writer's hands, whose file is gone. */
    ghost predicate Late(job: Job)
      reads this`writing, this`kvFiles, this`recFiles
    {
      Gone() && writing.value.job.hash == job.hash
    }

    /** The file is gone, and its block is not. */
    ghost predicate Vanished()
      reads this`blocks, this`writing, this`kvFiles, this`recFiles
    {
      Gone() && writing.value.job.hash in blocks
    }

    /** A store reopened on what a directory holds: only blocks whose rows are there, of
        the size the manifest says, come back. States without rows are deleted. */
    constructor (c: Setup, manifest: map<Hash, Record>, kvFiles: map<Hash, File<KvData>>, recFiles: map<Hash, File<RecData>>)
      requires Proper(c)
      requires forall h :: h in kvFiles ==> RightKv(c, h, kvFiles[h].data)
      requires forall h :: h in recFiles ==> RightRec(c, h, recFiles[h].data)
      ensures Valid() && ReadyHasFile() && this.c == c && queue == [] && writing.None? && pendingBytes == 0 && snapshot.None?
      ensures forall h :: h in blocks <==> h in manifest && Listed(manifest[h].kv, kvFiles, h)
      ensures forall h :: h in blocks ==> var e, states := manifest[h], Listed(manifest[h].rec, recFiles, h);
        blocks[h] == Block(e.index, e.kv, if states then e.rec else 0, e.used, true, states, false, false)
      ensures this.kvFiles == kvFiles && forall h :: h in this.recFiles ==> h in recFiles && this.recFiles[h] == recFiles[h]
      ensures Runs.Tidy(View()) <==>
        (forall h :: h in kvFiles ==> h in manifest && Listed(manifest[h].kv, kvFiles, h))
        && (forall h :: h in recFiles ==> h in manifest && Listed(manifest[h].rec, recFiles, h))
      ensures forall h :: h in this.recFiles <==> h in recFiles && (h in blocks || h !in manifest || !Listed(manifest[h].rec, recFiles, h))
    {
      hide Listed, RightKv, RightRec, SizesOf, ReadyHave, ViewOf, Back, Runs.Tidy;
      ReopenedSizes(manifest, kvFiles, recFiles);
      ReopenedTidy(manifest, kvFiles, recFiles);
      this.c := c;
      blocks := Back(manifest, kvFiles, recFiles);
      this.kvFiles, this.recFiles := kvFiles, Left(manifest, kvFiles, recFiles);
      queue, writing, pendingBytes, snapshot := [], None, 0, None;
    }

    // ---- lookup --------------------------------------------------------------------

    predicate KvReady(h: Hash)
      reads this
    {
      h in blocks && blocks[h].kvReady
    }

    predicate RecReady(h: Hash)
      reads this
    {
      h in blocks && blocks[h].recReady
    }

    /** The prompt can resume behind block i. */
    ghost predicate Usable(tokens: seq<Token>, i: nat)
      reads this
    {
      && i > 0 && At(c.block, i) <= |tokens|
      && (forall k: nat :: 0 < k <= i && At(c.block, k) <= |tokens| ==> KvReady(ChainHash(c.mix, c.block, tokens, k)))
      && (c.needsRec ==> RecReady(ChainHash(c.mix, c.block, tokens, i)))
    }

    /** The same, on a chain of hashes. */
    predicate ReadyTo(hashes: seq<Hash>, i: nat)
      requires i <= |hashes|
      reads this
    {
      i > 0 && (forall k :: 0 <= k < i ==> KvReady(hashes[k])) && (c.needsRec ==> RecReady(hashes[i - 1]))
    }

    lemma UsableIsReady(tokens: seq<Token>, hashes: seq<Hash>, i: nat)
      requires IsChain(c.mix, c.block, tokens, hashes) && i <= |hashes|
      ensures Usable(tokens, i) <==> ReadyTo(hashes, i)
    {
      hide At, ChainHash;
      forall k: nat | 0 < k <= i ensures At(c.block, k) <= |tokens| && hashes[k - 1] == ChainHash(c.mix, c.block, tokens, k) {
        assert hashes[k - 1] == ChainHash(c.mix, c.block, tokens, k);
      }
      if ReadyTo(hashes, i) {
        forall k: nat | 0 < k <= i ensures KvReady(ChainHash(c.mix, c.block, tokens, k)) {
          assert KvReady(hashes[k - 1]);
        }
      }
      if Usable(tokens, i) {
        forall k | 0 <= k < i ensures KvReady(hashes[k]) {
          assert hashes[k + 1 - 1] == ChainHash(c.mix, c.block, tokens, k + 1);
        }
      }
    }

    /** Deepest usable position of a chain: a run of ready rows, its last state. */
    method Deepest(hashes: seq<Hash>) returns (best: nat)
      ensures best <= |hashes| && (best > 0 ==> ReadyTo(hashes, best))
      ensures forall i: nat :: best < i <= |hashes| ==> !ReadyTo(hashes, i)
    {
      best := 0;
      var i := 0;
      while i < |hashes| && KvReady(hashes[i])
        invariant best <= i <= |hashes| && (best > 0 ==> ReadyTo(hashes, best))
        invariant forall k :: 0 <= k < i ==> KvReady(hashes[k])
        invariant forall k: nat :: best < k <= i ==> !ReadyTo(hashes, k)
      {
        if !c.needsRec || RecReady(hashes[i]) { best := i + 1; }
        i := i + 1;
      }
    }

    /** The deepest block the prompt can resume behind with a token left to process. */
    method Lookup(tokens: seq<Token>) returns (r: Option<nat>)
      requires Valid()
      ensures r.Some? ==> Usable(tokens, r.value) && At(c.block, r.value) < |tokens|
      ensures forall i: nat :: i > (if r.Some? then r.value else 0) && At(c.block, i) < |tokens| ==> !Usable(tokens, i)
    {
      var n := RestoreBlocks(|tokens|, c.block);
      forall i: nat ensures i <= n <==> i == 0 || At(c.block, i) < |tokens| { RestoreLeavesOne(|tokens|, c.block, i); }
      if n == 0 { return None; }
      hide At, RestoreBlocks, Usable, ReadyTo;
      var hashes := ChainHashes(c.mix, c.block, tokens, n);
      var best := Deepest(hashes);
      forall i: nat | i <= n ensures Usable(tokens, i) <==> ReadyTo(hashes, i) { UsableIsReady(tokens, hashes, i); }
      r := if best == 0 then None else Some(best);
    }

    // ---- restore -------------------------------------------------------------------

    /** Remove a block and its files. */
    method Drop(h: Hash)
      requires Valid()
      modifies this`blocks, this`kvFiles, this`recFiles
      ensures Valid() && (old(ReadyHasFile()) ==> ReadyHasFile())
      ensures blocks == old(blocks) - {h}
      ensures h in old(blocks) ==> kvFiles == old(kvFiles) - {h} && recFiles == old(recFiles) - {h}
      ensures h !in old(blocks) ==> kvFiles == old(kvFiles) && recFiles == old(recFiles)
      ensures (Vanished() ==> old(Vanished())) && (old(Gone()) ==> Gone())
      ensures Follows(old(View()), Runs.Remove(h))
    {
      RemoveView(blocks, kvFiles, recFiles, writing, h);
      hide ViewOf, Proper, RightFiles, PendingHave, ReadyHave, JobsRight, Counted, SizesOf;
      RemoveSizes(blocks, kvFiles, recFiles, writing, h);
      RemoveKeeps(c, blocks, kvFiles, recFiles, queue, writing, h);
      if h in blocks {
        blocks, kvFiles, recFiles := blocks - {h}, kvFiles - {h}, recFiles - {h};
      }
    }

    /** All the files a restore reads are there. */
    ghost predicate OnDisk(hashes: seq<Hash>)
      reads this
    {
      && (forall k :: 0 <= k < |hashes| ==> hashes[k] in kvFiles)
      && (c.needsRec && hashes != [] ==> hashes[|hashes| - 1] in recFiles)
    }

    /** Read a chain's files. */
    method Load(hashes: seq<Hash>, readable: bool) returns (r: Option<(seq<KvData>, RecData)>)
      requires hashes != []
      ensures r.Some? <==> readable && OnDisk(hashes)
      ensures r.Some? ==> |r.value.0| == |hashes| && forall k :: 0 <= k < |hashes| ==> r.value.0[k] == kvFiles[hashes[k]].data
      ensures r.Some? ==> r.value.1 == if c.needsRec then recFiles[hashes[|hashes| - 1]].data else seq(|c.m.layers|, _ => Kv([]))
    {
      var files := [];
      for k := 0 to |hashes|
        invariant |files| == k && forall j :: 0 <= j < k ==> hashes[j] in kvFiles && files[j] == kvFiles[hashes[j]].data
      {
        if hashes[k] !in kvFiles { return None; }
        files := files + [kvFiles[hashes[k]].data];
      }
      var last := hashes[|hashes| - 1];
      if !readable || (c.needsRec && last !in recFiles) { return None; }
      r := Some((files, if c.needsRec then recFiles[last].data else seq(|c.m.layers|, _ => Kv([]))));
    }

    lemma ChainNames(tokens: seq<Token>, hashes: seq<Hash>, i: nat)
      requires IsChain(c.mix, c.block, tokens, hashes) && 0 < i <= |hashes|
      ensures At(c.block, i) <= |tokens| && Names(c, hashes[i - 1], tokens, i)
    {
      hide At, ChainHash;
      assert hashes[i - 1] == ChainHash(c.mix, c.block, tokens, i);
    }

    lemma LoadedAreBlocks(tokens: seq<Token>, hashes: seq<Hash>, files: seq<KvData>)
      requires Valid() && IsChain(c.mix, c.block, tokens, hashes) && |files| == |hashes|
      requires forall k :: 0 <= k < |hashes| ==> hashes[k] in kvFiles && files[k] == kvFiles[hashes[k]].data
      ensures AreBlocks(c.m, c.block, tokens, files)
    {
      hide At, ChainHash, RightKv, RightRec, JobsRight, Counted, PendingBacked, Names, KvBlock, IsChain;
      forall i | 0 < i <= |hashes| ensures At(c.block, i) <= |tokens| && files[i - 1] == KvBlock(c.m, c.block, tokens, i) {
        ChainNames(tokens, hashes, i);
        RightKvIsBlock(c, hashes[i - 1], files[i - 1], tokens, i);
      }
    }

    lemma LoadedStates(tokens: seq<Token>, hashes: seq<Hash>, rec: RecData)
      requires Valid() && hashes != [] && IsChain(c.mix, c.block, tokens, hashes)
      requires c.needsRec ==> hashes[|hashes| - 1] in recFiles
      requires rec == if c.needsRec then recFiles[hashes[|hashes| - 1]].data else seq(|c.m.layers|, _ => Kv([]))
      ensures |rec| == |c.m.layers| && At(c.block, |hashes|) <= |tokens|
      ensures forall l :: 0 <= l < |c.m.layers| && c.m.layers[l].Recurrent? ==>
        rec[l] == CacheAfter(c.m, tokens[..At(c.block, |hashes|)])[l]
    {
      hide At, ChainHash, RightKv, RightRec, JobsRight, Counted, PendingBacked, Names, CacheAfter;
      ChainNames(tokens, hashes, |hashes|);
      if c.needsRec { RightRecIsState(c, hashes[|hashes| - 1], rec, tokens, |hashes|); }
    }

    /** Right files of a prompt's chain restore its run. */
    lemma LoadedIsRun(tokens: seq<Token>, hashes: seq<Hash>, files: seq<KvData>, rec: RecData)
      requires Valid() && hashes != [] && IsChain(c.mix, c.block, tokens, hashes) && OnDisk(hashes)
      requires |files| == |hashes| && forall k :: 0 <= k < |hashes| ==> files[k] == kvFiles[hashes[k]].data
      requires rec == if c.needsRec then recFiles[hashes[|hashes| - 1]].data else seq(|c.m.layers|, _ => Kv([]))
      ensures Layered(files, |c.m.layers|) && |rec| == |c.m.layers| && At(c.block, |hashes|) <= |tokens|
      ensures Restored(c.m, files, rec) == CacheAfter(c.m, tokens[..At(c.block, |hashes|)])
    {
      ProperStorable(c);
      hide At, CacheAfter, AreBlocks, Layered, FilesRight, JobsRight, Counted, PendingBacked, IsChain, Proper, Restored, Storable;
      LoadedAreBlocks(tokens, hashes, files);
      LoadedStates(tokens, hashes, rec);
      AreLayered(c.m, c.block, tokens, files);
      RestoredIsRun(c.m, c.block, tokens, files, rec);
    }

    /** What lookup calls usable is on disk, as long as ready blocks have their files. */
    lemma UsableIsOnDisk(tokens: seq<Token>, hashes: seq<Hash>)
      requires ReadyHasFile() && hashes != [] && IsChain(c.mix, c.block, tokens, hashes) && Usable(tokens, |hashes|)
      ensures OnDisk(hashes)
    {
      UsableIsReady(tokens, hashes, |hashes|);
      hide At, ChainHash, IsChain, Usable;
      assert forall k :: 0 <= k < |hashes| ==> KvReady(hashes[k]);
    }

    /** A cache positioned behind the first i blocks: exactly the run of those tokens,
        or nothing, and then the whole chain is dropped. */
    method Restore(tokens: seq<Token>, i: nat, now: nat, readable: bool) returns (r: Option<seq<Entry>>, ghost hashes: seq<Hash>)
      requires Valid() && i > 0 && At(c.block, i) <= |tokens|
      modifies this`blocks, this`kvFiles, this`recFiles
      ensures Valid() && (old(ReadyHasFile()) ==> ReadyHasFile())
      ensures |hashes| == i && IsChain(c.mix, c.block, tokens, hashes)
      ensures r.Some? <==> readable && old(OnDisk(hashes))
      ensures r.Some? ==> r.value == CacheAfter(c.m, tokens[..At(c.block, i)])
      ensures r.Some? ==> kvFiles == old(kvFiles) && recFiles == old(recFiles) && blocks.Keys == old(blocks).Keys
      ensures r.Some? ==> forall h :: h in blocks ==> blocks[h] == if h in hashes then old(blocks)[h].(used := now) else old(blocks)[h]
      ensures r.None? ==> forall h :: h in blocks <==> h in old(blocks) && h !in hashes
      ensures r.None? ==> forall h :: h in blocks ==> blocks[h] == old(blocks)[h]
      ensures r.None? ==> forall h :: h in kvFiles <==> h in old(kvFiles) && (h !in hashes || h !in old(blocks))
      ensures Vanished() ==> old(Vanished())
      ensures Runs.Leads(old(View()), View())
    {
      hide View, Runs.Leads, Valid, ReadyHasFile, Gone, Late, Vanished, CacheAfter, ChainHash, IsChain, At, OnDisk, Restored;
      var chain := ChainHashes(c.mix, c.block, tokens, i);
      hashes := chain;
      var got := Load(chain, readable);
      if got.Some? {
        LoadedIsRun(tokens, chain, got.value.0, got.value.1);
        r := Some(Restored(c.m, got.value.0, got.value.1));
        Touch(chain, now);
        Runs.LeadsNowhere(View());
      } else {
        r := None;
        DropAll(chain);
      }
    }

    method Touch(hashes: seq<Hash>, now: nat)
      requires Valid()
      modifies this`blocks
      ensures Valid() && (old(ReadyHasFile()) ==> ReadyHasFile())
      ensures blocks == map h | h in old(blocks) :: if h in hashes then old(blocks)[h].(used := now) else old(blocks)[h]
      ensures (Vanished() ==> old(Vanished())) && View() == old(View()) && TotalBytes(blocks) == TotalBytes(old(blocks))
    {
      hide Gone, ViewOf, RightFiles, PendingHave, ReadyHave, JobsRight, Counted, Proper, SizesOf;
      TouchView(blocks, kvFiles, recFiles, writing, hashes, now);
      TouchSizes(blocks, kvFiles, recFiles, writing, hashes, now);
      TouchTotal(blocks, hashes, now);
      hide TotalBytes;
      TouchKeeps(blocks, kvFiles, recFiles, queue, writing, hashes, now);
      blocks := map h | h in blocks :: if h in hashes then blocks[h].(used := now) else blocks[h];
    }

    method DropAll(hashes: seq<Hash>)
      requires Valid()
      modifies this`blocks, this`kvFiles, this`recFiles
      ensures Valid() && (old(ReadyHasFile()) ==> ReadyHasFile())
      ensures forall h :: h in blocks <==> h in old(blocks) && h !in hashes
      ensures forall h :: h in blocks ==> blocks[h] == old(blocks)[h]
      ensures forall h :: h in kvFiles <==> h in old(kvFiles) && (h !in hashes || h !in old(blocks))
      ensures (Vanished() ==> old(Vanished())) && (old(Gone()) ==> Gone())
      ensures Runs.Leads(old(View()), View())
    {
      hide Gone, Late, Vanished, View, Runs.Apply, Runs.Leads, Valid, ReadyHasFile;
      Runs.LeadsNowhere(View());
      for k := 0 to |hashes|
        invariant Valid() && (old(ReadyHasFile()) ==> ReadyHasFile())
        invariant forall h :: h in blocks <==> h in old(blocks) && h !in hashes[..k]
        invariant forall h :: h in blocks ==> blocks[h] == old(blocks)[h]
        invariant forall h :: h in kvFiles <==> h in old(kvFiles) && (h !in hashes[..k] || h !in old(blocks))
        invariant (Vanished() ==> old(Vanished())) && (old(Gone()) ==> Gone())
        invariant Runs.Leads(old(View()), View())
      {
        Runs.LeadsBy(old(View()), View(), Runs.Remove(hashes[k]));
        assert hashes[..k + 1] == hashes[..k] + [hashes[k]];
        Drop(hashes[k]);
      }
      assert hashes[..|hashes|] == hashes;
    }

    // ---- making room ---------------------------------------------------------------

    /** The oldest block that may go; among equals the deepest. */
    method Victim(keep: set<Hash>) returns (v: Option<Hash>)
      ensures v.None? ==> forall h :: !Evictable(blocks, h, keep)
      ensures v.Some? ==> Evictable(blocks, v.value, keep) && forall h :: Evictable(blocks, h, keep) ==> Older(blocks[v.value], blocks[h])
      ensures v.Some? ==> forall h :: Evictable(blocks, h, keep) && h != v.value ==>
        blocks[v.value].used < blocks[h].used || (blocks[v.value].used == blocks[h].used && blocks[v.value].index >= blocks[h].index)
    {
      var rest := blocks.Keys;
      v := None;
      while rest != {}
        invariant rest <= blocks.Keys
        invariant v.None? ==> forall h :: Evictable(blocks, h, keep) ==> h in rest
        invariant v.Some? ==> Evictable(blocks, v.value, keep)
        invariant v.Some? ==> forall h :: Evictable(blocks, h, keep) && h !in rest ==> Older(blocks[v.value], blocks[h])
        decreases rest
      {
        var h :| h in rest;
        rest := rest - {h};
        if h !in keep && !blocks[h].kvPending && !blocks[h].recPending && (v.None? || Older(blocks[h], blocks[v.value])) {
          v := Some(h);
        }
      }
    }

    /** Evict the oldest block that may go. */
    method EvictOldest(keep: set<Hash>, ghost before: map<Hash, Block>) returns (gone: Option<Hash>)
      requires Valid() && Evicted(before, blocks, keep)
      modifies this`blocks, this`kvFiles, this`recFiles
      ensures Valid() && (old(ReadyHasFile()) ==> ReadyHasFile()) && Evicted(before, blocks, keep)
      ensures (Vanished() ==> old(Vanished())) && (old(Gone()) ==> Gone())
      ensures gone.Some? ==> gone.value in old(blocks) && blocks == old(blocks) - {gone.value} && |blocks| < |old(blocks)|
      ensures gone.Some? ==> gone.value in before && before[gone.value] == old(blocks)[gone.value]
      ensures gone.None? ==> blocks == old(blocks) && kvFiles == old(kvFiles) && recFiles == old(recFiles) && forall h :: !Evictable(blocks, h, keep)
      ensures Runs.Leads(old(View()), View())
    {
      hide View, Runs.Leads, Runs.Apply, Valid, ReadyHasFile, Gone, Vanished, Older, Evicted, Evictable;
      Runs.LeadsNowhere(View());
      var v := Victim(keep);
      if v.None? { return None; }
      EvictedIn(before, blocks, keep, v.value);
      EvictedOne(before, blocks, keep, v.value);
      EvictingShrinks(blocks, v.value, keep);
      Runs.LeadsBy(View(), View(), Runs.Remove(v.value));
      Drop(v.value);
      gone := v;
    }

    /** Where evictions for some bytes have led from a store of these blocks. */
    ghost predicate Making(before: map<Hash, Block>, ready: bool, gone: bool, vanished: bool, view: Runs.View, keep: set<Hash>, nbytes: nat)
      reads this
    {
      && Valid() && (ready ==> ReadyHasFile()) && (gone ==> Gone()) && (Vanished() ==> vanished) && Runs.Leads(view, View())
      && Evicted(before, blocks, keep) && (blocks != before ==> LastNeeded(before, blocks, c.maxBytes - pendingBytes - nbytes))
    }

    lemma MakingStarts(keep: set<Hash>, nbytes: nat)
      requires Valid()
      ensures Making(blocks, ReadyHasFile(), Gone(), Vanished(), View(), keep, nbytes)
    {
      hide Valid, ReadyHasFile, Gone, Vanished, View, Runs.Leads, LastNeeded;
      Runs.LeadsNowhere(View());
    }

    /** One more eviction while there is too little room. */
    method MakeMore(ghost before: map<Hash, Block>, ghost ready: bool, ghost gone: bool, ghost vanished: bool, ghost view: Runs.View,
                    keep: set<Hash>, nbytes: nat) returns (went: bool)
      requires Making(before, ready, gone, vanished, view, keep, nbytes) && TotalBytes(blocks) > c.maxBytes - pendingBytes - nbytes
      modifies this`blocks, this`kvFiles, this`recFiles
      ensures Making(before, ready, gone, vanished, view, keep, nbytes) && (went ==> |blocks| < |old(blocks)|)
      ensures !went ==> blocks == old(blocks) && kvFiles == old(kvFiles) && recFiles == old(recFiles) && forall h :: !Evictable(blocks, h, keep)
    {
      hide View, Runs.Leads, Valid, ReadyHasFile, Gone, Vanished, TotalBytes, LastNeeded, Evicted, Evictable;
      ghost var was, between := blocks, View();
      var v := EvictOldest(keep, before);
      Runs.LeadsOn(view, between, View());
      if v.Some? { LastGone(before, was, v.value, c.maxBytes - pendingBytes - nbytes); }
      went := v.Some?;
    }

    /** Evict oldest-first until the bytes fit, within budget and backlog, and no more
        than that takes. What the blocks count bounds what is on disk but for loose files. */
    method MakeRoom(nbytes: nat, keep: set<Hash>) returns (ok: bool)
      requires Valid()
      modifies this`blocks, this`kvFiles, this`recFiles
      ensures Valid() && (old(ReadyHasFile()) ==> ReadyHasFile()) && Evicted(old(blocks), blocks, keep)
      ensures ok ==> TotalBytes(blocks) + pendingBytes + nbytes <= c.maxBytes && pendingBytes + nbytes <= c.maxPending
      ensures ok ==> DiskBytes() + pendingBytes + nbytes <= c.maxBytes + LooseBytes()
      ensures blocks != old(blocks) ==> LastNeeded(old(blocks), blocks, c.maxBytes - pendingBytes - nbytes)
      ensures !ok ==> pendingBytes + nbytes > c.maxPending || forall h :: !Evictable(blocks, h, keep)
      ensures pendingBytes + nbytes > c.maxPending ==> blocks == old(blocks) && kvFiles == old(kvFiles) && recFiles == old(recFiles)
      ensures TotalBytes(old(blocks)) + pendingBytes + nbytes <= c.maxBytes ==>
        ok == (pendingBytes + nbytes <= c.maxPending) && blocks == old(blocks) && kvFiles == old(kvFiles) && recFiles == old(recFiles)
      ensures (Vanished() ==> old(Vanished())) && (old(Gone()) ==> Gone())
      ensures Runs.Leads(old(View()), View())
    {
      hide View, Runs.Leads, Valid, ReadyHasFile, Gone, Vanished, TotalBytes, DiskBytes, LooseBytes, LastNeeded, Evicted, Evictable, Making;
      MakingStarts(keep, nbytes);
      ghost var before, ready, gone, vanished, view := blocks, ReadyHasFile(), Gone(), Vanished(), View();
      if pendingBytes + nbytes > c.maxPending {
        Made(before, ready, gone, vanished, view, keep, nbytes);
        return false;
      }
      ok := true;
      var total := Measure(blocks);
      while ok && total + pendingBytes + nbytes > c.maxBytes
        invariant Making(before, ready, gone, vanished, view, keep, nbytes) && total == TotalBytes(blocks)
        invariant !ok ==> forall h :: !Evictable(blocks, h, keep)
        invariant TotalBytes(before) + pendingBytes + nbytes <= c.maxBytes ==>
          ok && blocks == before && kvFiles == old(kvFiles) && recFiles == old(recFiles)
        decreases ok, |blocks|
      {
        ok := MakeMore(before, ready, gone, vanished, view, keep, nbytes);
        total := Measure(blocks);
      }
      Made(before, ready, gone, vanished, view, keep, nbytes);
    }

    lemma Made(before: map<Hash, Block>, ready: bool, gone: bool, vanished: bool, view: Runs.View, keep: set<Hash>, nbytes: nat)
      requires Making(before, ready, gone, vanished, view, keep, nbytes)
      ensures Valid() && (ready ==> ReadyHasFile()) && (gone ==> Gone()) && (Vanished() ==> vanished) && Runs.Leads(view, View())
      ensures Evicted(before, blocks, keep) && (blocks != before ==> LastNeeded(before, blocks, c.maxBytes - pendingBytes - nbytes))
      ensures DiskBytes() <= TotalBytes(blocks) + LooseBytes()
    {
      hide View, Runs.Leads, Valid, ReadyHasFile, Gone, Vanished, TotalBytes, DiskBytes, LooseBytes, LastNeeded, Evicted;
      BlocksCount();
    }

    // ---- observing a prefill ---------------------------------------------------------

    /** The depths of a chain whose rows the store neither has nor expects. */
    method Missing(hashes: seq<Hash>) returns (missing: seq<nat>)
      ensures forall j: nat :: j in missing <==> 0 < j <= |hashes| && !(hashes[j - 1] in blocks && (blocks[hashes[j - 1]].kvReady || blocks[hashes[j - 1]].kvPending))
    {
      missing := [];
      for i := 0 to |hashes|
        invariant forall j: nat :: j in missing <==>
          0 < j <= i && !(hashes[j - 1] in blocks && (blocks[hashes[j - 1]].kvReady || blocks[hashes[j - 1]].kvPending))
      {
        if !(hashes[i] in blocks && (blocks[hashes[i]].kvReady || blocks[hashes[i]].kvPending)) {
          missing := missing + [i + 1];
        }
      }
    }

    /** Slice the rows of the missing blocks, and take the states if wanted, from a
        cache positioned exactly behind these tokens. */
    method Dispatch(tokens: seq<Token>, hashes: seq<Hash>, cache: seq<Entry>, missing: seq<nat>, rec: bool, kvBytes: nat, recBytes: nat)
      requires Valid() && hashes != [] && IsChain(c.mix, c.block, tokens, hashes)
      requires |tokens| == At(c.block, |hashes|) && cache == CacheAfter(c.m, tokens)
      requires forall k :: 0 <= k < |missing| ==> 0 < missing[k] <= |hashes|
      modifies this`snapshot
      ensures Valid() && snapshot.Some? && snapshot.value.hashes == hashes
      ensures |snapshot.value.jobs| == |missing| + if rec then 1 else 0
      ensures forall k :: 0 <= k < |missing| ==> var job := snapshot.value.jobs[k];
        job.KvJob? && job.hash == hashes[missing[k] - 1] && job.index == missing[k] && job.nbytes == kvBytes
      ensures rec ==> var job := snapshot.value.jobs[|missing|];
        job.RecJob? && job.hash == hashes[|hashes| - 1] && job.index == |hashes| && job.nbytes == recBytes
    {
      hide At, ChainHash, IsChain, CacheAfter, KvSlice, KvBlock, RecStates, Proper, RightKv, RightRec;
      var jobs := [];
      for k := 0 to |missing|
        invariant |jobs| == k
        invariant forall j :: 0 <= j < k ==> RightJob(c, jobs[j]) && jobs[j].KvJob? && jobs[j].hash == hashes[missing[j] - 1]
        invariant forall j :: 0 <= j < k ==> jobs[j].index == missing[j] && jobs[j].nbytes == kvBytes
      {
        var i := missing[k];
        SlicedRight(tokens, hashes, i);
        jobs := jobs + [KvJob(hashes[i - 1], i, KvSlice(c.m, cache, At(c.block, i - 1), At(c.block, i)), kvBytes)];
      }
      if rec {
        StatesRight(tokens, hashes);
        jobs := jobs + [RecJob(hashes[|hashes| - 1], |hashes|, RecStates(c.m, cache), recBytes)];
      }
      snapshot := Some(Snapshot(hashes, jobs));
    }

    lemma SlicedRight(tokens: seq<Token>, hashes: seq<Hash>, i: nat)
      requires IsChain(c.mix, c.block, tokens, hashes) && 0 < i <= |hashes|
      ensures RightKv(c, hashes[i - 1], KvSlice(c.m, CacheAfter(c.m, tokens), At(c.block, i - 1), At(c.block, i)))
    {
      ChainNames(tokens, hashes, i);
      SliceIsBlock(c.m, c.block, tokens, i);
    }

    lemma StatesRight(tokens: seq<Token>, hashes: seq<Hash>)
      requires IsChain(c.mix, c.block, tokens, hashes) && hashes != [] && |tokens| == At(c.block, |hashes|)
      ensures RightRec(c, hashes[|hashes| - 1], RecStates(c.m, CacheAfter(c.m, tokens)))
    {
      hide CacheAfter, RecStates, At, ChainHash, IsChain;
      ChainNames(tokens, hashes, |hashes|);
      assert tokens[..At(c.block, |hashes|)] == tokens;
    }

    /** Harvest the dispatched snapshot: its jobs join the queue, as far as room can
        be made without touching their own chain. */
    method Flush(now: nat)
      requires Valid()
      modifies this`blocks, this`kvFiles, this`recFiles, this`queue, this`pendingBytes, this`snapshot
      ensures Valid() && snapshot.None? && (old(ReadyHasFile()) ==> ReadyHasFile())
      ensures old(snapshot).None? ==> blocks == old(blocks) && queue == old(queue)
      ensures old(snapshot).Some? ==> var jobs := old(snapshot).value.jobs;
        Served(jobs, |jobs|, old(queue), set h | h in old(snapshot).value.hashes)
      ensures old(snapshot).Some? && Fits(old(blocks), old(pendingBytes), old(snapshot).value.jobs) ==>
        queue == old(queue) + old(snapshot).value.jobs && kvFiles == old(kvFiles) && recFiles == old(recFiles)
      ensures Vanished() ==> old(Vanished()) || exists k :: |old(queue)| <= k < |queue| && Late(queue[k])
      ensures Runs.Leads(old(View()), View())
    {
      Runs.LeadsNowhere(View());
      hide Valid, View, Runs.Leads, RightJob, ReadyHasFile, Gone, Late, Vanished, TotalBytes, JobBytes;
      if snapshot.None? { return; }
      var jobs, hashes := Collect();
      Touch(hashes, now);
      EnqueueAll(jobs, (set h | h in hashes), now);
    }

    method Collect() returns (jobs: seq<Job>, hashes: seq<Hash>)
      requires Valid() && snapshot.Some?
      modifies this`snapshot
      ensures Valid() && snapshot.None? && old(snapshot) == Some(Snapshot(hashes, jobs))
      ensures forall k :: 0 <= k < |jobs| ==> RightJob(c, jobs[k])
    {
      hide RightJob, Proper, FilesRight, Counted, PendingBacked;
      jobs, hashes := snapshot.value.jobs, snapshot.value.hashes;
      snapshot := None;
    }

    /** There is room for all of these without an eviction. */
    ghost predicate Fits(blocks: map<Hash, Block>, pending: nat, jobs: seq<Job>) {
      TotalBytes(blocks) + pending + JobBytes(jobs) <= c.maxBytes && pending + JobBytes(jobs) <= c.maxPending
    }

    lemma FitsNext(blocks: map<Hash, Block>, pending: nat, jobs: seq<Job>, k: nat)
      requires k < |jobs|
      ensures jobs[..k + 1] == jobs[..k] + [jobs[k]] && JobBytes(jobs[..k + 1]) == JobBytes(jobs[..k]) + jobs[k].nbytes
      ensures Fits(blocks, pending, jobs) ==>
        TotalBytes(blocks) + pending + JobBytes(jobs[..k]) + jobs[k].nbytes <= c.maxBytes
        && pending + JobBytes(jobs[..k]) + jobs[k].nbytes <= c.maxPending
    {
      assert jobs[..k + 1] == jobs[..k] + [jobs[k]];
      JobBytesSnoc(jobs[..k], jobs[k]);
      JobBytesPrefix(jobs, k + 1);
    }

    ghost predicate Refused(job: Job, keep: set<Hash>)
      reads this`blocks, this`pendingBytes
    {
      Refuses(blocks, pendingBytes, c.maxPending, job, keep)
    }

    ghost predicate Served(jobs: seq<Job>, k: nat, were: seq<Job>, keep: set<Hash>)
      requires k <= |jobs|
      reads this`blocks, this`queue, this`pendingBytes
    {
      Serves(blocks, pendingBytes, c.maxPending, queue, jobs, k, were, keep)
    }

    /** Where queueing has led from a store of these marks. */
    ghost predicate Queueing(were: seq<Job>, ready: bool, vanished: bool, view: Runs.View)
      requires |were| <= |queue|
      reads this
    {
      && Valid() && (ready ==> ReadyHasFile()) && Runs.Leads(view, View())
      && (Vanished() ==> vanished || exists j :: |were| <= j < |queue| && Late(queue[j]))
    }

    method EnqueueAll(jobs: seq<Job>, keep: set<Hash>, now: nat)
      requires Valid() && forall k :: 0 <= k < |jobs| ==> RightJob(c, jobs[k])
      modifies this`blocks, this`kvFiles, this`recFiles, this`queue, this`pendingBytes
      ensures Valid() && (old(ReadyHasFile()) ==> ReadyHasFile())
      ensures Served(jobs, |jobs|, old(queue), keep)
      ensures Fits(old(blocks), old(pendingBytes), jobs) ==> queue == old(queue) + jobs && kvFiles == old(kvFiles) && recFiles == old(recFiles)
      ensures Vanished() ==> old(Vanished()) || exists k :: |old(queue)| <= k < |queue| && Late(queue[k])
      ensures Runs.Leads(old(View()), View())
    {
      hide View, Runs.Leads, Gone, Vanished, Valid, RightJob, ReadyHasFile, TotalBytes, Fits, JobBytes, Serves, Queueing, Late;
      QueueingStarts(jobs, keep);
      ghost var ready, vanished, view := ReadyHasFile(), Vanished(), View();
      for k := 0 to |jobs|
        invariant Served(jobs, k, old(queue), keep) && |old(queue)| <= |queue| && Queueing(old(queue), ready, vanished, view)
        invariant Fits(old(blocks), old(pendingBytes), jobs) ==>
          queue == old(queue) + jobs[..k] && kvFiles == old(kvFiles) && recFiles == old(recFiles)
          && TotalBytes(blocks) == TotalBytes(old(blocks)) && pendingBytes == old(pendingBytes) + JobBytes(jobs[..k])
      {
        FitsNext(old(blocks), old(pendingBytes), jobs, k);
        EnqueueNext(jobs, k, old(queue), keep, now, ready, vanished, view);
      }
      assert jobs[..|jobs|] == jobs;
      Queued(old(queue), ready, vanished, view);
    }

    lemma QueueingStarts(jobs: seq<Job>, keep: set<Hash>)
      requires Valid()
      ensures Served(jobs, 0, queue, keep) && Queueing(queue, ReadyHasFile(), Vanished(), View()) && JobBytes([]) == 0
    {
      hide View, Runs.Leads, Gone, Vanished, Valid, ReadyHasFile, Evictable;
      Runs.LeadsNowhere(View());
    }

    lemma Queued(were: seq<Job>, ready: bool, vanished: bool, view: Runs.View)
      requires |were| <= |queue| && Queueing(were, ready, vanished, view)
      ensures Valid() && (ready ==> ReadyHasFile()) && Runs.Leads(view, View())
      ensures Vanished() ==> vanished || exists j :: |were| <= j < |queue| && Late(queue[j])
    {
    }

    method EnqueueNext(jobs: seq<Job>, k: nat, ghost were: seq<Job>, keep: set<Hash>, now: nat, ghost ready: bool, ghost vanished: bool, ghost view: Runs.View)
      requires k < |jobs| && RightJob(c, jobs[k])
      requires Served(jobs, k, were, keep) && |were| <= |queue| && Queueing(were, ready, vanished, view)
      modifies this`blocks, this`kvFiles, this`recFiles, this`queue, this`pendingBytes
      ensures Served(jobs, k + 1, were, keep) && |were| <= |queue| && Queueing(were, ready, vanished, view)
      ensures TotalBytes(old(blocks)) + old(pendingBytes) + jobs[k].nbytes <= c.maxBytes && old(pendingBytes) + jobs[k].nbytes <= c.maxPending ==>
        && queue == old(queue) + [jobs[k]] && pendingBytes == old(pendingBytes) + jobs[k].nbytes
        && kvFiles == old(kvFiles) && recFiles == old(recFiles) && TotalBytes(blocks) == TotalBytes(old(blocks))
    {
      hide View, Runs.Leads, Gone, Vanished, Valid, RightJob, ReadyHasFile, TotalBytes, Evictable, Serves, Refuses;
      ghost var between, before, was, pending := View(), queue, blocks, pendingBytes;
      ghost var late := exists j :: |were| <= j < |queue| && Late(queue[j]);
      ghost var w :| late ==> |were| <= w < |queue| && Late(queue[w]);
      var queued := Enqueue(jobs[k], keep, now);
      Runs.LeadsOn(view, between, View());
      assert late ==> queue[w] == before[w] && Late(queue[w]);
      assert queued ==> queue[|before|] == jobs[k];
      ServedStays(was, pending, before, blocks, pendingBytes, queue, c.maxPending, jobs, k, were, keep, queued);
    }

    // ---- the writer ----------------------------------------------------------------

    /** A job joins the queue; its block is marked pending. */
    method Append(job: Job, now: nat)
      requires Valid() && RightJob(c, job)
      modifies this`blocks, this`queue, this`pendingBytes
      ensures Valid() && (old(ReadyHasFile()) ==> ReadyHasFile())
      ensures queue == old(queue) + [job] && pendingBytes == old(pendingBytes) + job.nbytes
      ensures blocks == old(blocks)[job.hash := Marked(old(blocks), job, now)] && TotalBytes(blocks) == TotalBytes(old(blocks))
      ensures var was := if job.hash in old(blocks) then old(blocks)[job.hash] else Block(job.index, 0, 0, 0, false, false, false, false);
        blocks[job.hash] == was.(used := now, kvPending := was.kvPending || job.KvJob?, recPending := was.recPending || job.RecJob?)
      ensures Follows(old(View()), Runs.Mark(job.hash))
    {
      hide ViewOf, FilesRight, RightJob, Proper, SizesOf;
      MarkSizes(blocks, kvFiles, recFiles, writing, job, now);
      MarkTotal(blocks, job, now);
      hide TotalBytes;
      MarkView(blocks, kvFiles, recFiles, writing, job, now);
      JobBytesSnoc(queue, job);
      hide JobBytes;
      forall h, kv | Backed(queue, writing, h, kv) || (job.hash == h && job.KvJob? == kv)
        ensures Backed(queue + [job], writing, h, kv)
      {
        BackedSnoc(queue, writing, job, h, kv);
      }
      hide Backed;
      blocks := blocks[job.hash := Marked(blocks, job, now)];
      pendingBytes, queue := pendingBytes + job.nbytes, queue + [job];
    }

    /** A job joins the queue if there is room. Its block can only come to stand
        without the file just written if the job is for that same block. */
    method Enqueue(job: Job, keep: set<Hash>, now: nat) returns (queued: bool)
      requires Valid() && RightJob(c, job)
      modifies this`blocks, this`kvFiles, this`recFiles, this`queue, this`pendingBytes
      ensures Valid() && (old(ReadyHasFile()) ==> ReadyHasFile())
      ensures queue == if queued then old(queue) + [job] else old(queue)
      ensures pendingBytes == old(pendingBytes) + if queued then job.nbytes else 0
      ensures TotalBytes(old(blocks)) + old(pendingBytes) + job.nbytes <= c.maxBytes && old(pendingBytes) + job.nbytes <= c.maxPending ==>
        queued && kvFiles == old(kvFiles) && recFiles == old(recFiles) && TotalBytes(blocks) == TotalBytes(old(blocks))
        && blocks == old(blocks)[job.hash := Marked(old(blocks), job, now)]
      ensures queued ==> TotalBytes(blocks) + pendingBytes <= c.maxBytes && pendingBytes <= c.maxPending
      ensures !queued ==> Refused(job, keep)
      ensures forall h :: Evictable(blocks, h, keep) ==> Evictable(old(blocks), h, keep)
      ensures queued ==> job.hash in blocks && blocks[job.hash].used == now
      ensures queued ==> if job.KvJob? then blocks[job.hash].kvPending else blocks[job.hash].recPending
      ensures forall h :: h in blocks && h != job.hash ==> h in old(blocks) && blocks[h] == old(blocks)[h]
      ensures forall h :: h in old(blocks) && h !in blocks ==> Evictable(old(blocks), h, keep)
      ensures (queued && Late(job) ==> Vanished()) && (Vanished() ==> old(Vanished()) || (queued && Late(job)))
      ensures old(Gone()) ==> Gone()
      ensures Runs.Leads(old(View()), View())
    {
      hide View, Runs.Leads, Runs.Apply, Valid, ReadyHasFile, RightJob, TotalBytes, Evictable, Gone, Marked, DiskBytes, LooseBytes, Older;
      queued := MakeRoom(job.nbytes, keep);
      ghost var between := blocks;
      if queued {
        Runs.LeadsBy(old(View()), View(), Runs.Mark(job.hash));
        Append(job, now);
      }
      EvictableStill(old(blocks), between, blocks, job, now, keep, queued);
    }

    /** The writer takes a job and writes its file, outside the lock. */
    method WriteFile(ok: bool, size: nat)
      requires Valid() && queue != [] && writing.None? && size > 0
      modifies this`kvFiles, this`recFiles, this`queue, this`writing
      ensures Valid() && (old(ReadyHasFile()) ==> ReadyHasFile())
      ensures queue == old(queue)[1..] && writing == Some(Written(old(queue)[0], if ok then size else 0))
      ensures kvFiles == if ok && old(queue)[0].KvJob? then old(kvFiles)[old(queue)[0].hash := File(old(queue)[0].kv, size)] else old(kvFiles)
      ensures recFiles == if ok && old(queue)[0].RecJob? then old(recFiles)[old(queue)[0].hash := File(old(queue)[0].rec, size)] else old(recFiles)
      ensures !Vanished() && Follows(old(View()), Runs.Write(PartOf(old(queue)[0]), ok))
    {
      hide ViewOf, RightKv, RightRec, Proper, Backed, SizesOf;
      HandView(blocks, kvFiles, recFiles, writing);
      var job := queue[0];
      WriteSizes(blocks, kvFiles, recFiles, job, if ok then size else 0);
      forall h, kv | Backed(queue, writing, h, kv) ensures Backed(queue[1..], Some(Written(job, if ok then size else 0)), h, kv) {
        BackedTaken(queue, if ok then size else 0, h, kv);
      }
      WriteView(blocks, kvFiles, recFiles, job, if ok then size else 0);
      queue := queue[1..];
      if ok {
        if job.KvJob? { kvFiles := kvFiles[job.hash := File(job.kv, size)]; } else { recFiles := recFiles[job.hash := File(job.rec, size)]; }
      }
      writing := Some(Written(job, if ok then size else 0));
    }

    /** What a settled job does to its block. A file without a block goes, a failed
        kv write takes its block along. */
    method Finish()
      requires Valid() && writing.Some?
      modifies this`blocks, this`kvFiles, this`recFiles
      ensures Kept() && SizesOf(blocks, kvFiles, recFiles, None) && (old(ReadyHasFile()) ==> (ReadyHasFile() <==> !old(Vanished())))
      ensures var job := writing.value.job; job.hash in blocks ==> !if job.KvJob? then blocks[job.hash].kvPending else blocks[job.hash].recPending
      ensures SettledTo(old(blocks), old(kvFiles), old(recFiles), writing.value, blocks, kvFiles, recFiles)
      ensures Finished(old(View()))
    {
      hide ViewOf, RightFiles, PendingHave, ReadyHave, JobsRight, Proper, Counted, SizesOf;
      HandView(blocks, kvFiles, recFiles, writing);
      ghost var w, was, wasKv, wasRec := writing.value, blocks, kvFiles, recFiles;
      var job, size := writing.value.job, writing.value.size;
      var h := job.hash;
      if h !in blocks {
        OrphanView(blocks, kvFiles, recFiles, writing.value);
        OrphanSizes(blocks, kvFiles, recFiles, writing.value);
        if job.KvJob? { kvFiles := kvFiles - {h}; } else { recFiles := recFiles - {h}; }
      } else if size > 0 || job.RecJob? {
        SettledView(blocks, kvFiles, recFiles, writing.value);
        SettledSizes(blocks, kvFiles, recFiles, writing.value);
        blocks := blocks[h := Settled(blocks, writing.value)];
      } else {
        FailedView(blocks, kvFiles, recFiles, writing.value);
        FailedSizes(blocks, kvFiles, recFiles, writing.value);
        blocks, kvFiles, recFiles := blocks - {h}, kvFiles - {h}, recFiles - {h};
      }
      assert SettledTo(was, wasKv, wasRec, w, blocks, kvFiles, recFiles);
      hide SettledTo, Settled;
      SettledKeeps(c, was, wasKv, wasRec, w, blocks, kvFiles, recFiles, queue);
      if ReadyHave(was, wasKv, wasRec) { SettledReady(was, wasKv, wasRec, w, blocks, kvFiles, recFiles); }
    }

    /** The writer settles its job under the lock. That every ready block has its
        file survives this exactly if the file has not vanished in between. */
    method Settle()
      requires Valid() && writing.Some?
      modifies this`blocks, this`kvFiles, this`recFiles, this`writing, this`pendingBytes
      ensures Valid() && writing.None? && pendingBytes == old(pendingBytes) - old(writing).value.job.nbytes
      ensures !Vanished() && (old(ReadyHasFile()) ==> (ReadyHasFile() <==> !old(Vanished())))
      ensures SettledTo(old(blocks), old(kvFiles), old(recFiles), old(writing).value, blocks, kvFiles, recFiles)
      ensures Follows(old(View()), Runs.Settle)
    {
      hide ViewOf, FilesRight, RightJob, Proper, JobBytes, ReadyHasFile, SettledTo, SizesOf;
      Finish();
      pendingBytes, writing := pendingBytes - writing.value.job.nbytes, None;
    }
  }

  /** The manifest lists a file of this size, and it is there. */
  predicate Listed<D>(size: nat, files: map<Hash, File<D>>, h: Hash) {
    size > 0 && h in files && files[h].size == size
  }

  function Reopened(e: Record, states: bool): Block {
    Block(e.index, e.kv, if states then e.rec else 0, e.used, true, states, false, false)
  }

  /** The block a queued job leaves behind. */
  function Marked(blocks: map<Hash, Block>, job: Job, now: nat): Block {
    var b := if job.hash in blocks then blocks[job.hash] else Block(job.index, 0, 0, 0, false, false, false, false);
    if job.KvJob? then b.(used := now, kvPending := true) else b.(used := now, recPending := true)
  }

  /** The block a settled job leaves behind. */
  function Settled(blocks: map<Hash, Block>, w: Written): Block
    requires w.job.hash in blocks
  {
    var b := blocks[w.job.hash];
    if w.job.KvJob? then
      if w.size > 0 then b.(kvPending := false, kvBytes := w.size, kvReady := true) else b.(kvPending := false)
    else if w.size > 0 then b.(recPending := false, recBytes := w.size, recReady := true)
    else b.(recPending := false)
  }

  /** The block listed by two snapshots: both of them queue it. */
  method QueuedTwice(c: Setup, job: Job) returns (d: DiskStore)
    requires Proper(c) && job.KvJob? && job.nbytes == 1 && RightJob(c, job) && c.maxBytes >= 3 && c.maxPending >= 2
    ensures fresh(d) && d.c == c && d.Valid() && d.queue == [job, job] && d.writing.None? && d.pendingBytes == 2
    ensures d.blocks.Keys == {job.hash}
  {
    hide RightJob, Proper, JobBytes, DiskStore.Valid, DiskStore.ReadyHasFile, DiskStore.View, Runs.Leads, Runs.Apply, Runs.Tidy,
      Evictable, DiskStore.Vanished, DiskStore.Gone, Reopened;
    d := new DiskStore(c, map[], map[], map[]);
    assert d.blocks == map[];
    var q1 := d.Enqueue(job, {job.hash}, 1);
    TotalOne(d.blocks, job.hash);
    hide TotalBytes;
    var q2 := d.Enqueue(job, {job.hash}, 2);
  }

  /** Queued twice, written and settled once. */
  method ListedTwice(c: Setup, job: Job) returns (d: DiskStore)
    requires Proper(c) && job.KvJob? && job.nbytes == 1 && RightJob(c, job) && c.maxBytes >= 3 && c.maxPending >= 2
    ensures fresh(d) && d.c == c && d.Valid() && d.queue == [job] && d.writing.None? && d.pendingBytes == 1
    ensures d.blocks.Keys == {job.hash}
  {
    hide RightJob, Proper, JobBytes, DiskStore.Valid, DiskStore.ReadyHasFile, DiskStore.View, Runs.Leads, Runs.Apply, TotalBytes,
      DiskStore.Vanished, DiskStore.Gone, PartOf;
    d := QueuedTwice(c, job);
    d.WriteFile(true, 1);
    d.Settle();
  }

  /** The second file written, not yet settled. */
  method WrittenTwice(c: Setup, job: Job) returns (d: DiskStore)
    requires Proper(c) && job.KvJob? && job.nbytes == 1 && RightJob(c, job) && c.maxBytes >= 3 && c.maxPending >= 2
    ensures fresh(d) && d.c == c && d.Valid() && d.queue == [] && d.writing == Some(Written(job, 1)) && d.pendingBytes == 1
    ensures d.blocks.Keys == {job.hash}
  {
    hide RightJob, Proper, JobBytes;
    d := ListedTwice(c, job);
    hide DiskStore.Valid, DiskStore.ReadyHasFile, DiskStore.View, Runs.Leads, Runs.Apply;
    d.WriteFile(true, 1);
  }

  /** While the second write waits to be settled a failed read drops the chain, and a
      new snapshot brings the block back. */
  method RequeuedBehindWrite(c: Setup, tokens: seq<Token>, job: Job) returns (d: DiskStore)
    requires Proper(c) && At(c.block, 1) <= |tokens| && c.maxBytes >= 3 && c.maxPending >= 2
    requires job.KvJob? && job.nbytes == 1 && RightJob(c, job) && job.hash == ChainHash(c.mix, c.block, tokens, 1)
    ensures fresh(d) && d.Valid() && d.writing == Some(Written(job, 1)) && job.hash in d.blocks && job.hash !in d.kvFiles
  {
    hide At, ChainHash, RightJob, Proper, JobBytes, TotalBytes, DiskStore.Valid, DiskStore.View, DiskStore.ReadyHasFile, DiskStore.Vanished, DiskStore.Gone,
      Runs.Leads, Runs.Apply;
    d := WrittenTwice(c, job);
    var r, hashes := d.Restore(tokens, 1, 3, false);
    assert hashes[1 - 1] == job.hash;
    assert d.blocks == map[] && job.hash !in d.kvFiles;
    NoBytes();
    var q3 := d.Enqueue(job, {job.hash}, 4);
  }

  lemma NoBytes()
    ensures TotalBytes(map[]) == 0
  {
  }

  /** A ready block can lack its file: the settling marks it ready. */
  method ReadyWithoutFile(c: Setup, tokens: seq<Token>) returns (d: DiskStore)
    requires Proper(c) && At(c.block, 1) <= |tokens| && c.maxBytes >= 3 && c.maxPending >= 2
    ensures fresh(d) && d.Valid() && !d.ReadyHasFile()
  {
    var h := ChainHash(c.mix, c.block, tokens, 1);
    var job := KvJob(h, 1, KvBlock(c.m, c.block, tokens, 1), 1);
    assert Names(c, h, tokens, 1);
    assert RightJob(c, job);
    hide At, ChainHash, KvBlock, RightJob, Proper, JobBytes, DiskStore.Valid, DiskStore.View, Runs.Leads, Runs.Apply;
    d := RequeuedBehindWrite(c, tokens, job);
    d.Settle();
    assert h in d.blocks && d.blocks[h].kvReady;
  }

  /** A store reopened on one file that its manifest does not list. */
  method LeftBehind(c: Setup, h: Hash, rows: KvData, n: nat) returns (d: DiskStore)
    requires Proper(c) && RightKv(c, h, rows)
    ensures fresh(d) && d.Valid() && d.c == c && d.blocks == map[] && d.pendingBytes == 0
    ensures d.kvFiles == map[h := File(rows, n)] && d.recFiles == map[] && d.DiskBytes() == n
  {
    hide RightKv, Proper, DiskStore.Valid, DiskStore.View, DiskStore.ReadyHasFile, Runs.Tidy, SumOf, Sizes;
    OneFile(h, rows, n);
    d := new DiskStore(c, map[], map[h := File(rows, n)], map[]);
  }

  /** A file that a crash left behind without its entry in the manifest is never counted:
      the directory outgrows the budget, and there is room for more. */
  method LeftoverUncounted(c: Setup, tokens: seq<Token>, n: nat) returns (d: DiskStore, ok: bool)
    requires Proper(c) && At(c.block, 1) <= |tokens| && n > c.maxBytes
    ensures fresh(d) && d.Valid() && d.c == c && ok && d.DiskBytes() == n > c.maxBytes && d.blocks == map[]
  {
    var h := ChainHash(c.mix, c.block, tokens, 1);
    var rows := KvBlock(c.m, c.block, tokens, 1);
    NamedIsRight(c, tokens);
    hide At, ChainHash, KvBlock, RightRec, Proper, DiskStore.Valid, DiskStore.View, Runs.Leads, SumOf, DiskStore.ReadyHasFile, TotalBytes,
      Evicted, LastNeeded, Sizes, Evictable, DiskStore.LooseBytes, DiskStore.DiskBytes, DiskStore.Gone, DiskStore.Vanished, RightKv;
    d := LeftBehind(c, h, rows, n);
    ok := RoomBesideNothing(d);
  }

  method RoomBesideNothing(d: DiskStore) returns (ok: bool)
    requires d.Valid() && d.blocks == map[] && d.pendingBytes == 0
    modifies d`blocks, d`kvFiles, d`recFiles
    ensures ok && d.Valid() && d.blocks == map[] && d.kvFiles == old(d.kvFiles) && d.recFiles == old(d.recFiles)
    ensures d.DiskBytes() == old(d.DiskBytes())
  {
    hide TotalBytes, DiskStore.Valid, DiskStore.View, Runs.Leads, DiskStore.ReadyHasFile, Evicted, LastNeeded, Evictable,
      DiskStore.LooseBytes, DiskStore.DiskBytes, DiskStore.Gone, DiskStore.Vanished;
    NoBytes();
    ok := d.MakeRoom(0, {});
  }

  lemma NamedIsRight(c: Setup, tokens: seq<Token>)
    requires At(c.block, 1) <= |tokens|
    ensures RightKv(c, ChainHash(c.mix, c.block, tokens, 1), KvBlock(c.m, c.block, tokens, 1))
  {
    assert Names(c, ChainHash(c.mix, c.block, tokens, 1), tokens, 1);
  }

  lemma OneFile(h: Hash, rows: KvData, n: nat)
    ensures SumOf(Sizes(map[h := File(rows, n)])) == n && SumOf(Sizes<RecData>(map[])) == 0
  {
    var m := Sizes(map[h := File(rows, n)]);
    SumWithout(m, h);
    assert m - {h} == map[] && Sizes<RecData>(map[]) == map[];
  }

  lemma TotalOne(blocks: map<Hash, Block>, h: Hash)
    requires blocks.Keys == {h}
    ensures TotalBytes(blocks) == blocks[h].kvBytes + blocks[h].recBytes
  {
    TotalWithout(blocks, h);
    assert blocks - {h} == map[];
  }
}
