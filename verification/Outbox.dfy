/** The durable outbox of accounting receipts: one file per receipt id, replaced
    atomically, kept until acknowledged. */
module Outbox {

  datatype Receipt = Receipt(id: string, createdAt: nat, body: string)

  /** How far a write gets: it fails before the file is in place, after, or not. */
  datatype Io = FailsEarly | FailsLate | Works

  /** A receipt file: a document under its own id, or anything else. */
  datatype Stored = Readable(receipt: Receipt) | Unreadable

  datatype Outcome = Persisted(receipt: Receipt) | OutboxError | InvalidId

  datatype Acknowledged = Acked(already: bool) | AckError | AckInvalid

  datatype Listing = Listed(receipts: seq<Receipt>) | ListError

  predicate SafeChar(c: char) {
    ('A' <= c <= 'Z') || ('a' <= c <= 'z') || ('0' <= c <= '9') || c == '.' || c == '_' || c == '-'
  }

  predicate SafeId(id: string) {
    1 <= |id| <= 200 && forall i :: 0 <= i < |id| ==> SafeChar(id[i])
  }

  // ---- the order receipts are reported in ----------------------------------------------

  predicate LexAtMost(a: string, b: string) {
    a == [] || (b != [] && (a[0] < b[0] || (a[0] == b[0] && LexAtMost(a[1..], b[1..]))))
  }

  lemma {:induction false} LexTotal(a: string, b: string)
    ensures LexAtMost(a, b) || LexAtMost(b, a)
  {
    if a != [] && b != [] && a[0] == b[0] { LexTotal(a[1..], b[1..]); }
  }

  lemma {:induction false} LexTransitive(a: string, b: string, c: string)
    requires LexAtMost(a, b) && LexAtMost(b, c)
    ensures LexAtMost(a, c)
  {
    if a != [] && b != [] && c != [] && a[0] == b[0] == c[0] { LexTransitive(a[1..], b[1..], c[1..]); }
  }

  predicate AtMost(a: Receipt, b: Receipt) {
    a.createdAt < b.createdAt || (a.createdAt == b.createdAt && LexAtMost(a.id, b.id))
  }

  lemma AtMostOrder(a: Receipt, b: Receipt, c: Receipt)
    ensures AtMost(a, b) || AtMost(b, a)
    ensures AtMost(a, b) && AtMost(b, c) ==> AtMost(a, c)
  {
    LexTotal(a.id, b.id);
    if AtMost(a, b) && AtMost(b, c) && a.createdAt == b.createdAt == c.createdAt { LexTransitive(a.id, b.id, c.id); }
  }

  ghost predicate Sorted(rs: seq<Receipt>) {
    forall i, j :: 0 <= i < j < |rs| ==>
      rs[i].createdAt < rs[j].createdAt || (rs[i].createdAt == rs[j].createdAt && LexAtMost(rs[i].id, rs[j].id))
  }

  /** A receipt put in its place among sorted ones. */
  method Insert(rs: seq<Receipt>, r: Receipt) returns (out: seq<Receipt>)
    requires Sorted(rs)
    ensures Sorted(out) && multiset(out) == multiset(rs) + multiset{r}
  {
    hide Sorted, AtMost;
    var k := 0;
    while k < |rs| && AtMost(rs[k], r)
      invariant k <= |rs| && forall i :: 0 <= i < k ==> AtMost(rs[i], r)
    {
      k := k + 1;
    }
    out := rs[..k] + [r] + rs[k..];
    InsertSorted(rs, r, k);
    InsertCounted(rs, r, k);
  }

  lemma InsertCounted(rs: seq<Receipt>, r: Receipt, k: nat)
    requires k <= |rs|
    ensures multiset(rs[..k] + [r] + rs[k..]) == multiset(rs) + multiset{r}
  {
    assert rs == rs[..k] + rs[k..];
  }

  lemma InsertSorted(rs: seq<Receipt>, r: Receipt, k: nat)
    requires Sorted(rs) && k <= |rs| && (forall i :: 0 <= i < k ==> AtMost(rs[i], r)) && (k < |rs| ==> !AtMost(rs[k], r))
    ensures Sorted(rs[..k] + [r] + rs[k..])
  {
    forall i | k <= i < |rs| ensures AtMost(r, rs[i]) {
      AtMostOrder(r, rs[k], rs[i]);
      AtMostOrder(rs[k], r, rs[i]);
      assert i > k ==> AtMost(rs[k], rs[i]);
    }
    hide AtMost;
  }

  class AccountingOutbox {
    /** The receipt files, by the id in their name. */
    var files: map<string, Stored>

    ghost predicate Valid()
      reads this
    {
      forall id :: id in files && files[id].Readable? ==> SafeId(id) && files[id].receipt.id == id
    }

    /** The documents an unhindered listing reports. */
    ghost predicate Holds(r: Receipt)
      reads this
    {
      r.id in files && files[r.id] == Readable(r)
    }

    constructor ()
      ensures Valid() && files == map[]
    {
      files := map[];
    }

    /** Store a receipt and return the stored document: the first one of its id,
        whatever later calls bring, a call that failed late included. A file that
        cannot be read back stands in the way of its id. */
    method Persist(receipt: Receipt, io: Io) returns (r: Outcome)
      requires Valid()
      modifies this
      ensures Valid()
      ensures r.InvalidId? <==> !SafeId(receipt.id)
      ensures r.Persisted? ==> r.receipt.id == receipt.id && Holds(r.receipt)
      ensures SafeId(receipt.id) && receipt.id in old(files) ==>
        files == old(files) && r == match old(files)[receipt.id] case Readable(d) => Persisted(d) case Unreadable => OutboxError
      ensures SafeId(receipt.id) && receipt.id !in old(files) ==> (r.Persisted? <==> io.Works?)
      ensures files == if SafeId(receipt.id) && receipt.id !in old(files) && !io.FailsEarly? then old(files)[receipt.id := Readable(receipt)] else old(files)
    {
      if !SafeId(receipt.id) { return InvalidId; }
      if receipt.id in files {
        return match files[receipt.id] case Readable(d) => Persisted(d) case Unreadable => OutboxError;
      }
      if io.FailsEarly? { return OutboxError; }
      files := files[receipt.id := Readable(receipt)];
      r := if io.FailsLate? then OutboxError else Persisted(receipt);
    }

    /** Acknowledge: the receipt is gone afterwards, and a repeat says so; an unlink
        that fails leaves everything in place. */
    method Ack(id: string, unlinked: bool) returns (r: Acknowledged)
      requires Valid()
      modifies this
      ensures Valid()
      ensures r.AckInvalid? <==> !SafeId(id)
      ensures SafeId(id) ==> (r.AckError? <==> id in old(files) && !unlinked)
      ensures r.Acked? ==> files == old(files) - {id} && (r.already <==> id !in old(files))
      ensures !r.Acked? ==> files == old(files)
    {
      if !SafeId(id) { return AckInvalid; }
      if id !in files { return Acked(true); }
      if !unlinked { return AckError; }
      files := files - {id};
      r := Acked(false);
    }

    /** Every unacknowledged receipt once, in order of creation, then of id; nothing
        at all if the directory cannot be listed or one file cannot be read. */
    method Pending(listed: bool) returns (out: Listing)
      requires Valid()
      ensures out.ListError? <==> !listed || exists id :: id in files && files[id].Unreadable?
      ensures out.Listed? ==> Sorted(out.receipts) && |out.receipts| == |files| && forall r :: r in out.receipts <==> Holds(r)
    {
      if !listed { return ListError; }
      var rs := [];
      var rest := files;
      while rest != map[]
        invariant forall id :: id in rest ==> id in files && rest[id] == files[id]
        invariant Sorted(rs) && |rs| + |rest| == |files|
        invariant forall r :: r in rs <==> Holds(r) && r.id !in rest
        invariant forall id :: id in files && id !in rest ==> files[id].Readable?
        decreases |rest|
      {
        var id :| id in rest;
        if files[id].Unreadable? { return ListError; }
        ghost var before := rs;
        rs := Insert(rs, files[id].receipt);
        InsertMembers(before, files[id].receipt, rs);
        rest := rest - {id};
      }
      out := Listed(rs);
    }
  }

  lemma InsertMembers(before: seq<Receipt>, r: Receipt, now: seq<Receipt>)
    requires multiset(now) == multiset(before) + multiset{r}
    ensures |now| == |before| + 1 && forall d :: d in now <==> d in before || d == r
  {
    assert forall d :: d in now <==> d in multiset(now);
    assert forall d :: d in before <==> d in multiset(before);
    assert |multiset(now)| == |multiset(before)| + 1;
  }

  /** A retried stop reuses the first receipt: between two calls of one id with no
      acknowledgement, what the first one stored is what the second returns, even if
      the first reported an error after its rename. */
  method PersistTwice(box: AccountingOutbox, a: Receipt, b: Receipt, io: Io) returns (first: Outcome, second: Outcome)
    requires box.Valid() && a.id == b.id
    modifies box
    ensures first.Persisted? || first.InvalidId? ==> second == first
    ensures first.OutboxError? ==>
      second == if a.id in old(box.files) then OutboxError else Persisted(if io.FailsLate? then a else b)
  {
    first := box.Persist(a, io);
    second := box.Persist(b, Works);
  }
}
