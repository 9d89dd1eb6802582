/** The log stream: a bounded ring of numbered records, and one client's replay and
    live tail over a bounded queue that drops its oldest record when full and
    reports what was lost. */
module LogStream {
  import opened Collections

  datatype Record = Record(number: nat, kind: string, text: string)

  // ---- the ring -----------------------------------------------------------------------

  class LogRing {
    const capacity: nat
    var buf: seq<Record>
    var next: nat

    /** The newest records, numbered without a hole. */
    ghost predicate Valid()
      reads this
    {
      && |buf| <= capacity && |buf| <= next && (next > |buf| ==> |buf| == capacity)
      && forall i :: 0 <= i < |buf| ==> buf[i].number == next - |buf| + i
    }

    constructor (capacity: nat)
      ensures Valid() && next == 0 && buf == [] && this.capacity == capacity
    {
      this.capacity, buf, next := capacity, [], 0;
    }

    method Append(kind: string, text: string) returns (rec: Record)
      requires Valid()
      modifies this`buf, this`next
      ensures Valid() && next == old(next) + 1 && rec == Record(old(next), kind, text)
      ensures buf == if |old(buf)| < capacity then old(buf) + [rec] else (old(buf) + [rec])[|old(buf)| + 1 - capacity..]
    {
      rec := Record(next, kind, text);
      buf := buf + [rec];
      if |buf| > capacity { buf := buf[|buf| - capacity..]; }
      next := next + 1;
    }

    /** The records from a cursor on that are still held, and the next cursor: all
        of them from the later of the cursor and the oldest held, in order. */
    method Since(cursor: nat) returns (records: seq<Record>, newCursor: nat)
      requires Valid()
      ensures newCursor == next
      ensures cursor <= next ==> |records| == next - (if cursor > next - |buf| then cursor else next - |buf|)
      ensures cursor > next ==> records == []
      ensures forall i :: 0 <= i < |records| ==> records[i].number == next - |records| + i && records[i] in buf
    {
      records := [];
      for i := 0 to |buf|
        invariant |records| == if cursor <= next - |buf| then i else if cursor - (next - |buf|) <= i then i - (cursor - (next - |buf|)) else 0
        invariant forall k :: 0 <= k < |records| ==> records[k] == buf[i - |records| + k]
      {
        if buf[i].number >= cursor { records := records + [buf[i]]; }
      }
      newCursor := next;
    }
  }

  // ---- one client's stream ------------------------------------------------------------

  /** What the client sees: a record, or a report of lost ones. */
  datatype Frame = Line(number: nat) | Lost(count: int, first: nat, last: int)

  datatype Dropped = Dropped(count: nat, first: nat, last: nat)

  /** Records appended but not yet handed to the loop, callbacks the loop has not
      run, the queue, what it dropped, a record taken but not yet sent. The last two
      fields are history: what a full queue cut, and what was skipped on its way out. */
  datatype State = State(
    next: nat,
    unscheduled: seq<nat>,
    mailbox: seq<nat>,
    queue: seq<nat>,
    dropped: Option<Dropped>,
    hand: Option<nat>,
    boundary: nat,
    last: int,
    out: seq<Frame>,
    cut: set<nat>,
    skipped: set<nat>)

  datatype Step =
    | Append
    | Schedule(i: nat)   // which appending thread gets to the loop first
    | Put
    | Take
    | Send
    | Deliver            // Take and Send with nothing in between

  /** The stream once the backlog is replayed: a report of what the ring had already
      evicted, the backlog's records, and whatever was appended since subscribing
      still on its way. */
  function Opened(since: nat, oldest: nat, cursor: nat, subscribed: nat): State
    requires subscribed <= cursor && oldest <= cursor
  {
    State(cursor, Numbers(subscribed, cursor), [], [], None, None, cursor, cursor - 1,
          (if oldest > since then [Lost(oldest - since, since, oldest - 1)] else []) + Lines(Numbers(oldest, cursor)), {}, {})
  }

  function Numbers(lo: nat, hi: nat): (r: seq<nat>)
    ensures lo <= hi ==> |r| == hi - lo && forall i :: 0 <= i < |r| ==> r[i] == lo + i
  {
    if lo <= hi then seq(hi - lo, i requires 0 <= i < hi - lo => lo + i) else []
  }

  function Lines(ns: seq<nat>): (r: seq<Frame>)
    ensures |r| == |ns| && forall i :: 0 <= i < |r| ==> r[i] == Line(ns[i])
  {
    seq(|ns|, i requires 0 <= i < |ns| => Line(ns[i]))
  }

  /** The loop runs a callback: skip what the backlog covered, make room by dropping
      the oldest, enqueue. */
  function Enqueue(s: State, cap: nat, n: nat): State
    requires cap > 0
  {
    if n < s.boundary then s
    else if |s.queue| < cap then s.(queue := s.queue + [n])
    else if s.queue == [] then s
    else
      var lost := s.queue[0];
      var d := match s.dropped case None => Dropped(1, lost, lost) case Some(d) => Dropped(d.count + 1, d.first, lost);
      s.(queue := s.queue[1..] + [n], dropped := Some(d), cut := s.cut + {lost})
  }

  /** The taken record is sent, after a report of what was dropped before. */
  function Sent(s: State, n: nat): State {
    if n <= s.last then s.(skipped := s.skipped + {n})
    else
      var report := match s.dropped case None => [] case Some(d) => [Lost(d.count, d.first, d.last)];
      s.(dropped := None, last := n, out := s.out + report + [Line(n)])
  }

  predicate Enabled(s: State, step: Step) {
    match step
    case Append => true
    case Schedule(i) => i < |s.unscheduled|
    case Put => s.mailbox != []
    case Take => s.queue != [] && s.hand.None?
    case Send => s.hand.Some?
    case Deliver => s.queue != [] && s.hand.None?
  }

  function Apply(s: State, cap: nat, step: Step): State
    requires cap > 0 && Enabled(s, step)
  {
    match step
    case Append => s.(next := s.next + 1, unscheduled := s.unscheduled + [s.next])
    case Schedule(i) => s.(unscheduled := s.unscheduled[..i] + s.unscheduled[i + 1..], mailbox := s.mailbox + [s.unscheduled[i]])
    case Put => Enqueue(s.(mailbox := s.mailbox[1..]), cap, s.mailbox[0])
    case Take => s.(queue := s.queue[1..], hand := Some(s.queue[0]))
    case Send => Sent(s.(hand := None), s.hand.value)
    case Deliver => Sent(s.(queue := s.queue[1..]), s.queue[0])
  }

  function Run(s: State, cap: nat, steps: seq<Step>): Option<State>
    requires cap > 0
    decreases |steps|
  {
    if steps == [] then Some(s)
    else if !Enabled(s, steps[0]) then None
    else Run(Apply(s, cap, steps[0]), cap, steps[1..])
  }

  /** Connecting: snapshot the ring after subscribing, report what it no longer
      holds, replay what it does. */
  method Open(ring: LogRing, since: nat, subscribed: nat) returns (s: State)
    requires ring.Valid() && subscribed <= ring.next
    ensures var held := ring.next - |ring.buf|;
      var oldest := if since > ring.next then ring.next else if since > held then since else held;
      s == Opened(since, oldest, ring.next, subscribed)
  {
    var backlog, cursor := ring.Since(since);
    var oldest := if backlog == [] then cursor else backlog[0].number;
    var lines := Replay(backlog, oldest, cursor);
    hide Numbers, Lines;
    s := State(cursor, Numbers(subscribed, cursor), [], [], None, None, cursor, cursor - 1,
               (if oldest > since then [Lost(oldest - since, since, oldest - 1)] else []) + lines, {}, {});
  }

  /** The backlog's frames. */
  method Replay(backlog: seq<Record>, oldest: nat, cursor: nat) returns (out: seq<Frame>)
    requires oldest + |backlog| == cursor && forall i :: 0 <= i < |backlog| ==> backlog[i].number == oldest + i
    ensures out == Lines(Numbers(oldest, cursor))
  {
    out := [];
    for i := 0 to |backlog|
      invariant |out| == i && forall k :: 0 <= k < i ==> out[k] == Line(oldest + k)
    {
      out := out + [Line(backlog[i].number)];
    }
  }

  // ---- in every run: no record twice, none out of order -------------------------------------

  /** The last record sent is at most `last`, and every record sent is larger than
      the ones before. */
  ghost predicate Increasing(out: seq<Frame>, last: int) {
    && (forall i :: 0 <= i < |out| && out[i].Line? ==> out[i].number <= last)
    && (forall i, j :: 0 <= i < j < |out| && out[i].Line? && out[j].Line? ==> out[i].number < out[j].number)
  }

  lemma OpenedIncreasing(since: nat, oldest: nat, cursor: nat, subscribed: nat)
    requires subscribed <= cursor && oldest <= cursor
    ensures var s := Opened(since, oldest, cursor, subscribed); Increasing(s.out, s.last)
  {
  }

  lemma SentIncreasing(s: State, n: nat)
    requires Increasing(s.out, s.last)
    ensures Increasing(Sent(s, n).out, Sent(s, n).last)
  {
  }

  lemma StepIncreasing(s: State, cap: nat, step: Step)
    requires cap > 0 && Enabled(s, step) && Increasing(s.out, s.last)
    ensures var t := Apply(s, cap, step); Increasing(t.out, t.last)
  {
    hide Increasing;
    match step
    case Send => SentIncreasing(s.(hand := None), s.hand.value);
    case Deliver => SentIncreasing(s.(queue := s.queue[1..]), s.queue[0]);
    case _ =>
  }

  lemma {:induction false} RunIncreasing(s: State, cap: nat, steps: seq<Step>)
    requires cap > 0 && Increasing(s.out, s.last)
    ensures var r := Run(s, cap, steps); r.Some? ==> Increasing(r.value.out, r.value.last)
    decreases |steps|
  {
    hide Increasing;
    if steps != [] && Enabled(s, steps[0]) {
      StepIncreasing(s, cap, steps[0]);
      RunIncreasing(Apply(s, cap, steps[0]), cap, steps[1..]);
    }
  }

  /** Whatever the order of callbacks, takes and sends, from the handover on the
      records a client sees have strictly increasing numbers. */
  lemma DeliveryIncreases(since: nat, oldest: nat, cursor: nat, subscribed: nat, cap: nat, steps: seq<Step>)
    requires cap > 0 && subscribed <= cursor && oldest <= cursor
    ensures var r := Run(Opened(since, oldest, cursor, subscribed), cap, steps);
      r.Some? ==> forall i, j :: 0 <= i < j < |r.value.out| && r.value.out[i].Line? && r.value.out[j].Line? ==>
        r.value.out[i].number < r.value.out[j].number
  {
    OpenedIncreasing(since, oldest, cursor, subscribed);
    RunIncreasing(Opened(since, oldest, cursor, subscribed), cap, steps);
  }

  // ---- with fan-out in order: accounted for exactly if no send is torn ------------------------

  /** Appending threads reach the loop in the order of their records. */
  predicate InOrder(step: Step) {
    step.Schedule? ==> step.i == 0
  }

  /** Frames that account for every number from `from` up to, not including, `to`:
      each sent once or in exactly one report, whose count is its range. */
  ghost predicate Tiles(out: seq<Frame>, from: int, to: int) {
    if out == [] then from == to
    else match out[0]
      case Line(n) => n == from && Tiles(out[1..], from + 1, to)
      case Lost(count, first, last) => first == from && count == last - first + 1 && count > 0 && Tiles(out[1..], last + 1, to)
  }

  lemma {:induction false} TilesAppend(a: seq<Frame>, b: seq<Frame>, from: int, mid: int, to: int)
    requires Tiles(a, from, mid) && Tiles(b, mid, to)
    ensures Tiles(a + b, from, to)
    decreases |a|
  {
    if a == [] {
      assert a + b == b;
    } else {
      assert (a + b)[1..] == a[1..] + b;
      TilesAppend(a[1..], b, match a[0] case Line(n) => n + 1 case Lost(_, _, last) => last + 1, mid, to);
    }
  }

  lemma {:induction false} LinesTile(lo: nat, hi: nat)
    requires lo <= hi
    ensures Tiles(Lines(Numbers(lo, hi)), lo, hi)
    decreases hi - lo
  {
    if lo < hi {
      LinesTile(lo + 1, hi);
      assert Lines(Numbers(lo, hi))[1..] == Lines(Numbers(lo + 1, hi));
    }
  }

  /** What was dropped is what lies between the last sent and the queue. */
  predicate Between(dropped: Option<Dropped>, lo: int, base: int) {
    match dropped
    case None => lo == base
    case Some(d) => d.first == lo && d.last + 1 == base && d.count == base - lo && d.count > 0
  }

  /** With a record in hand: either nothing was dropped since it was taken, or
      everything around it was. */
  predicate Around(dropped: Option<Dropped>, lo: int, n: int, base: int) {
    match dropped
    case None => n == lo && base == n + 1
    case Some(d) =>
      if d.last < n then Between(dropped, lo, n) && base == n + 1
      else d.last > n && d.last + 1 == base && d.count == base - lo - 1 && d.first == if n == lo then n + 1 else lo
  }

  function UpTo(s: State): int {
    var moving := |s.mailbox| + |s.unscheduled|;
    if s.next - moving > s.boundary then s.next - moving else s.boundary
  }

  /** Numbers on their way are consecutive up to the newest; the queue holds the last
      of those that passed the boundary. */
  ghost predicate Lined(s: State) {
    var moving := s.mailbox + s.unscheduled;
    && |moving| <= s.next && (forall i :: 0 <= i < |moving| ==> moving[i] == s.next - |moving| + i)
    && s.boundary <= s.next && |s.queue| <= UpTo(s) && (forall i :: 0 <= i < |s.queue| ==> s.queue[i] == UpTo(s) - |s.queue| + i)
  }

  /** What was sent tiles; what was dropped, and the record in hand, lie between it
      and the queue. */
  ghost predicate Pipeline(s: State, since: nat) {
    && Lined(s) && Tiles(s.out, since, s.last + 1) && s.skipped == {}
    && (match s.hand
        case None => Between(s.dropped, s.last + 1, UpTo(s) - |s.queue|) && (s.dropped.Some? ==> s.queue != [])
        case Some(n) => s.last < n && Around(s.dropped, s.last + 1, n, UpTo(s) - |s.queue|))
  }

  /** A record was dropped while an older one was in hand: the report that goes out
      before it speaks of newer ones. */
  predicate Torn(s: State) {
    s.hand.Some? && s.dropped.Some? && s.dropped.value.last > s.hand.value
  }

  lemma OpenedPipeline(since: nat, oldest: nat, cursor: nat, subscribed: nat)
    requires subscribed <= cursor && since <= oldest <= cursor
    ensures Pipeline(Opened(since, oldest, cursor, subscribed), since)
  {
    var s := Opened(since, oldest, cursor, subscribed);
    LinesTile(oldest, cursor);
    if oldest > since {
      var lost := [Lost(oldest - since, since, oldest - 1)];
      assert lost[1..] == [];
      TilesAppend(lost, Lines(Numbers(oldest, cursor)), since, oldest, cursor);
    } else {
      assert [] + Lines(Numbers(oldest, cursor)) == Lines(Numbers(oldest, cursor));
    }
    assert s.mailbox + s.unscheduled == s.unscheduled;
  }

  lemma AppendPipeline(s: State, cap: nat, since: nat)
    requires cap > 0 && Pipeline(s, since)
    ensures Pipeline(Apply(s, cap, Append), since)
  {
    hide Tiles;
    var t := Apply(s, cap, Append);
    assert t.mailbox + t.unscheduled == s.mailbox + s.unscheduled + [s.next];
  }

  lemma SchedulePipeline(s: State, cap: nat, since: nat)
    requires cap > 0 && Pipeline(s, since) && s.unscheduled != []
    ensures Pipeline(Apply(s, cap, Schedule(0)), since)
  {
    hide Tiles;
    var t := Apply(s, cap, Schedule(0));
    assert s.unscheduled == [s.unscheduled[0]] + s.unscheduled[1..];
    assert t.mailbox + t.unscheduled == s.mailbox + s.unscheduled;
  }

  lemma PutPipeline(s: State, cap: nat, since: nat)
    requires cap > 0 && Pipeline(s, since) && s.mailbox != [] && |s.queue| <= cap
    ensures Pipeline(Apply(s, cap, Put), since) && |Apply(s, cap, Put).queue| <= cap
  {
    hide Tiles;
    var t := Apply(s, cap, Put);
    assert t.mailbox + t.unscheduled == (s.mailbox + s.unscheduled)[1..];
    assert s.mailbox[0] == (s.mailbox + s.unscheduled)[0];
  }

  lemma TakePipeline(s: State, cap: nat, since: nat)
    requires cap > 0 && Pipeline(s, since) && s.queue != [] && s.hand.None?
    ensures Pipeline(Apply(s, cap, Take), since) && !Torn(Apply(s, cap, Take))
  {
    hide Tiles;
  }

  /** A send that is not torn tiles on. */
  lemma SendPipeline(s: State, cap: nat, since: nat)
    requires cap > 0 && Pipeline(s, since) && s.hand.Some? && !Torn(s)
    ensures Pipeline(Apply(s, cap, Send), since)
  {
    var n := s.hand.value;
    var report := match s.dropped case None => [] case Some(d) => [Lost(d.count, d.first, d.last)];
    assert Tiles(report, s.last + 1, n) by { if s.dropped.Some? { assert report[1..] == []; } }
    assert Tiles([Line(n)], n, n + 1) by { assert [Line(n)][1..] == []; }
    TilesAppend(s.out, report, since, s.last + 1, n);
    TilesAppend(s.out + report, [Line(n)], since, n, n + 1);
  }

  /** A torn one never will. */
  lemma SendTorn(s: State, cap: nat, since: nat, to: int)
    requires cap > 0 && Pipeline(s, since) && Torn(s)
    ensures !Tiles(Apply(s, cap, Send).out, since, to)
  {
    var n, d := s.hand.value, s.dropped.value;
    var tail := [Lost(d.count, d.first, d.last)] + [Line(n)];
    assert tail[1..] == [Line(n)];
    assert Apply(s, cap, Send).out == s.out + tail;
    assert !Tiles(tail, s.last + 1, to);
    if Tiles(s.out + tail, since, to) {
      TilesFrom(s.out, tail, since, s.last + 1, to);
    }
  }

  /** What follows a tiling tiles on from where it ended. */
  lemma {:induction false} TilesFrom(a: seq<Frame>, b: seq<Frame>, from: int, mid: int, to: int)
    requires Tiles(a, from, mid) && Tiles(a + b, from, to)
    ensures Tiles(b, mid, to)
    decreases |a|
  {
    if a == [] {
      assert a + b == b;
    } else {
      assert (a + b)[1..] == a[1..] + b;
      TilesFrom(a[1..], b, match a[0] case Line(n) => n + 1 case Lost(_, _, last) => last + 1, mid, to);
    }
  }

  lemma {:induction false} TilesPrefix(a: seq<Frame>, b: seq<Frame>, from: int, to: int) returns (mid: int)
    requires Tiles(a + b, from, to)
    ensures Tiles(a, from, mid)
    decreases |a|
  {
    if a == [] {
      mid := from;
    } else {
      assert (a + b)[1..] == a[1..] + b;
      mid := TilesPrefix(a[1..], b, match a[0] case Line(n) => n + 1 case Lost(_, _, last) => last + 1, to);
    }
  }

  lemma StepPipeline(s: State, cap: nat, since: nat, step: Step)
    requires cap > 0 && Enabled(s, step) && InOrder(step) && Pipeline(s, since) && |s.queue| <= cap
    requires !(step.Send? && Torn(s))
    ensures var t := Apply(s, cap, step); Pipeline(t, since) && |t.queue| <= cap
  {
    hide Pipeline, Torn;
    match step
    case Append => AppendPipeline(s, cap, since);
    case Schedule(i) => SchedulePipeline(s, cap, since);
    case Put => PutPipeline(s, cap, since);
    case Take => TakePipeline(s, cap, since);
    case Send => SendPipeline(s, cap, since);
    case Deliver =>
      TakePipeline(s, cap, since);
      SendPipeline(Apply(s, cap, Take), cap, since);
      assert Apply(Apply(s, cap, Take), cap, Send) == Apply(s, cap, Deliver);
  }

  ghost predicate AllInOrder(steps: seq<Step>) {
    forall i :: 0 <= i < |steps| ==> InOrder(steps[i])
  }

  /** Step k of a run is a torn send. */
  ghost predicate TornAt(s: State, cap: nat, steps: seq<Step>, k: nat)
    requires cap > 0
  {
    k < |steps| && steps[k].Send? && var before := Run(s, cap, steps[..k]); before.Some? && Torn(before.value)
  }

  lemma TornLater(s: State, cap: nat, steps: seq<Step>, k: nat)
    requires cap > 0 && steps != [] && Enabled(s, steps[0])
    ensures TornAt(s, cap, steps, k + 1) <==> TornAt(Apply(s, cap, steps[0]), cap, steps[1..], k)
  {
    hide Apply, Enabled, Torn;
    if k + 1 < |steps| { assert steps[..k + 1][1..] == steps[1..][..k]; }
  }

  lemma {:induction false} OutGrows(s: State, cap: nat, steps: seq<Step>)
    requires cap > 0 && Run(s, cap, steps).Some?
    ensures |s.out| <= |Run(s, cap, steps).value.out| && Run(s, cap, steps).value.out[..|s.out|] == s.out
    decreases |steps|
  {
    if steps != [] {
      var t := Apply(s, cap, steps[0]);
      assert |s.out| <= |t.out| && t.out[..|s.out|] == s.out;
      hide Apply, Enabled;
      OutGrows(t, cap, steps[1..]);
      assert Run(s, cap, steps).value.out[..|s.out|] == Run(s, cap, steps).value.out[..|t.out|][..|s.out|];
    }
  }

  /** Over every run with fan-out in order, the frames tile exactly if no send was
      torn. */
  lemma {:induction false} PipelineKept(s: State, cap: nat, since: nat, steps: seq<Step>)
    requires cap > 0 && Pipeline(s, since) && |s.queue| <= cap && AllInOrder(steps)
    ensures var r := Run(s, cap, steps);
      r.Some? ==> (Tiles(r.value.out, since, r.value.last + 1) <==> forall k :: !TornAt(s, cap, steps, k))
    ensures var r := Run(s, cap, steps); r.Some? && (forall k :: !TornAt(s, cap, steps, k)) ==> r.value.skipped == {}
    decreases |steps|
  {
    if steps != [] && Enabled(s, steps[0]) {
      var t := Apply(s, cap, steps[0]);
      assert InOrder(steps[0]) && AllInOrder(steps[1..]);
      assert steps[..0] == [] && Run(s, cap, []) == Some(s);
      if steps[0].Send? && Torn(s) {
        assert TornAt(s, cap, steps, 0);
        TornStays(s, cap, since, steps);
      } else {
        assert !TornAt(s, cap, steps, 0);
        StepPipeline(s, cap, since, steps[0]);
        hide Pipeline, Apply, Enabled, InOrder, AllInOrder, Tiles, Torn;
        PipelineKept(t, cap, since, steps[1..]);
        forall k: nat ensures TornAt(s, cap, steps, k + 1) <==> TornAt(t, cap, steps[1..], k) {
          TornLater(s, cap, steps, k);
        }
        TornShifted(s, t, cap, steps);
      }
    }
  }

  lemma TornStays(s: State, cap: nat, since: nat, steps: seq<Step>)
    requires cap > 0 && Pipeline(s, since) && Torn(s) && steps != [] && steps[0].Send?
    ensures Run(s, cap, steps).Some? ==> forall to :: !Tiles(Run(s, cap, steps).value.out, since, to)
  {
    if Run(s, cap, steps).None? { return; }
    var t, r := Apply(s, cap, Send), Run(s, cap, steps).value;
    OutGrows(t, cap, steps[1..]);
    assert r.out == t.out + r.out[|t.out|..];
    hide Pipeline, Apply;
    forall to ensures !Tiles(r.out, since, to) {
      if Tiles(r.out, since, to) {
        var mid := TilesPrefix(t.out, r.out[|t.out|..], since, to);
        SendTorn(s, cap, since, mid);
      }
    }
  }

  lemma TornShifted(s: State, t: State, cap: nat, steps: seq<Step>)
    requires cap > 0 && steps != [] && !TornAt(s, cap, steps, 0)
    requires forall k: nat :: TornAt(s, cap, steps, k + 1) <==> TornAt(t, cap, steps[1..], k)
    ensures (exists k :: TornAt(s, cap, steps, k)) <==> exists k :: TornAt(t, cap, steps[1..], k)
  {
    hide TornAt;
    if k: nat :| TornAt(s, cap, steps, k) {
      assert k > 0 && TornAt(s, cap, steps, (k - 1) + 1);
      assert TornAt(t, cap, steps[1..], k - 1);
    }
    if k: nat :| TornAt(t, cap, steps[1..], k) {
      assert TornAt(s, cap, steps, k + 1);
    }
  }

  /** With fan-out in order, every number from the client's cursor to the last sent is
      sent once or in exactly one report, exactly if nothing was ever dropped between
      a record's take and its send; then nothing is skipped either. */
  lemma EveryNumberAccounted(since: nat, oldest: nat, cursor: nat, subscribed: nat, cap: nat, steps: seq<Step>)
    requires cap > 0 && subscribed <= cursor && since <= oldest <= cursor && AllInOrder(steps)
    ensures var o := Opened(since, oldest, cursor, subscribed); var r := Run(o, cap, steps);
      r.Some? ==>
        && (Tiles(r.value.out, since, r.value.last + 1) <==> forall k :: !TornAt(o, cap, steps, k))
        && ((forall k :: !TornAt(o, cap, steps, k)) ==> r.value.skipped == {})
  {
    OpenedPipeline(since, oldest, cursor, subscribed);
    PipelineKept(Opened(since, oldest, cursor, subscribed), cap, since, steps);
  }

  /** Tiling is what it says: exactly one frame speaks of each number. */
  ghost predicate Speaks(f: Frame, n: int) {
    match f
    case Line(k) => k == n
    case Lost(_, first, last) => first <= n <= last
  }

  lemma {:induction false} TilesOnce(out: seq<Frame>, from: int, to: int, n: int) returns (i: nat)
    requires Tiles(out, from, to) && from <= n < to
    ensures i < |out| && Speaks(out[i], n) && forall j :: 0 <= j < |out| && j != i ==> !Speaks(out[j], n)
    decreases |out|
  {
    var after := match out[0] case Line(k) => k + 1 case Lost(_, _, last) => last + 1;
    if n < after {
      i := 0;
      TilesBeyond(out[1..], after, to);
      assert forall j :: 0 < j < |out| ==> out[j] == out[1..][j - 1];
    } else {
      var k := TilesOnce(out[1..], after, to, n);
      i := k + 1;
      assert forall j :: 0 < j < |out| ==> out[j] == out[1..][j - 1];
    }
  }

  lemma {:induction false} TilesBeyond(out: seq<Frame>, from: int, to: int)
    requires Tiles(out, from, to)
    ensures from <= to && forall j, n :: 0 <= j < |out| && Speaks(out[j], n) ==> from <= n
    decreases |out|
  {
    if out != [] {
      TilesBeyond(out[1..], match out[0] case Line(k) => k + 1 case Lost(_, _, last) => last + 1, to);
      assert forall j :: 0 < j < |out| ==> out[j] == out[1..][j - 1];
    }
  }

  // ---- whatever the order of fan-out: what is lost without a report ---------------------------------

  predicate OnItsWay(s: State, n: nat) {
    n in s.unscheduled || n in s.mailbox || n in s.queue || s.hand == Some(n)
  }

  function Times(q: seq<nat>, n: nat): (k: nat)
    ensures k > 0 <==> n in q
  {
    multiset(q)[n]
  }

  lemma TimesHead(q: seq<nat>, n: nat)
    requires q != []
    ensures Times(q, n) == Times(q[1..], n) + if q[0] == n then 1 else 0
  {
    assert q == [q[0]] + q[1..];
  }

  lemma TimesSnoc(q: seq<nat>, x: nat, n: nat)
    ensures Times(q + [x], n) == Times(q, n) + if x == n then 1 else 0
  {
  }

  lemma TimesWithout(q: seq<nat>, i: nat, n: nat)
    requires i < |q|
    ensures Times(q, n) == Times(q[..i] + q[i + 1..], n) + if q[i] == n then 1 else 0
  {
    assert q == q[..i] + [q[i]] + q[i + 1..];
  }

  /** In how many places a number is: on its way, sent, cut, or skipped. */
  function Places(s: State, n: nat): nat {
    Times(s.unscheduled, n) + Times(s.mailbox, n) + Times(s.queue, n) + (if s.hand == Some(n) then 1 else 0)
    + (if Line(n) in s.out then 1 else 0) + (if n in s.cut then 1 else 0) + (if n in s.skipped then 1 else 0)
  }

  /** Every live number is in exactly one place, and the last one sent really was. */
  ghost predicate Whole(s: State) {
    && s.boundary <= s.next
    && (forall n: nat :: s.boundary <= n ==> Places(s, n) == if n < s.next then 1 else 0)
    && (forall i :: 0 <= i < |s.queue| ==> s.boundary <= s.queue[i]) && (s.hand.Some? ==> s.boundary <= s.hand.value)
    && (s.last < s.boundary || Line(s.last) in s.out)
  }

  lemma OpenedWhole(since: nat, oldest: nat, cursor: nat, subscribed: nat)
    requires subscribed <= cursor && since <= oldest <= cursor
    ensures Whole(Opened(since, oldest, cursor, subscribed))
  {
    var s := Opened(since, oldest, cursor, subscribed);
    forall n: nat | cursor <= n ensures Places(s, n) == 0 {
      assert n !in s.unscheduled;
      assert Line(n) !in s.out;
    }
  }

  lemma PutPlaces(s: State, cap: nat, n: nat)
    requires cap > 0 && s.mailbox != [] && s.boundary <= n && (s.queue != [] ==> s.queue[0] !in s.cut)
    ensures Places(Apply(s, cap, Put), n) == Places(s, n)
  {
    hide Times;
    TimesHead(s.mailbox, n);
    TimesSnoc(s.queue, s.mailbox[0], n);
    if s.queue != [] {
      TimesHead(s.queue, n);
      TimesSnoc(s.queue[1..], s.mailbox[0], n);
    }
  }

  lemma SchedulePlaces(s: State, cap: nat, i: nat, n: nat)
    requires cap > 0 && i < |s.unscheduled|
    ensures Places(Apply(s, cap, Schedule(i)), n) == Places(s, n)
  {
    hide Times;
    TimesWithout(s.unscheduled, i, n);
    TimesSnoc(s.mailbox, s.unscheduled[i], n);
  }

  lemma SendPlaces(s: State, cap: nat, n: nat)
    requires cap > 0 && s.hand.Some? && Line(s.hand.value) !in s.out && s.hand.value !in s.skipped
    ensures Places(Apply(s, cap, Send), n) == Places(s, n)
  {
    hide Times;
    var report: seq<Frame> := match s.dropped case None => [] case Some(d) => [Lost(d.count, d.first, d.last)];
    assert Line(n) !in report;
  }

  lemma TakePlaces(s: State, cap: nat, n: nat)
    requires cap > 0 && s.queue != [] && s.hand.None?
    ensures Places(Apply(s, cap, Take), n) == Places(s, n)
  {
    hide Times;
    TimesHead(s.queue, n);
  }

  /** A record about to go out is nowhere else. */
  lemma OnlyThere(s: State, n: nat)
    requires Whole(s) && s.boundary <= n && (n in s.queue || s.hand == Some(n))
    ensures n < s.next && Line(n) !in s.out && n !in s.cut && n !in s.skipped && n != s.last
  {
    assert Places(s, n) > 0;
    assert n in s.queue ==> Times(s.queue, n) > 0;
  }

  lemma StepWhole(s: State, cap: nat, step: Step)
    requires cap > 0 && Enabled(s, step) && Whole(s)
    ensures Whole(Apply(s, cap, step))
  {
    match step
    case Append => AppendWhole(s, cap);
    case Schedule(i) =>
      forall n: nat ensures Places(Apply(s, cap, step), n) == Places(s, n) { SchedulePlaces(s, cap, i, n); }
      hide Places;
    case Put => PutWhole(s, cap);
    case Take => TakeWhole(s, cap);
    case Send => SendWhole(s, cap);
    case Deliver =>
      hide Whole;
      TakeWhole(s, cap);
      SendWhole(Apply(s, cap, Take), cap);
      assert Apply(Apply(s, cap, Take), cap, Send) == Apply(s, cap, Deliver);
  }

  lemma AppendWhole(s: State, cap: nat)
    requires cap > 0 && Whole(s)
    ensures Whole(Apply(s, cap, Append))
  {
    hide Times, Places;
    forall n: nat ensures Places(Apply(s, cap, Append), n) == Places(s, n) + if n == s.next then 1 else 0 {
      AppendPlaces(s, cap, n);
    }
  }

  lemma AppendPlaces(s: State, cap: nat, n: nat)
    requires cap > 0
    ensures Places(Apply(s, cap, Append), n) == Places(s, n) + if n == s.next then 1 else 0
  {
    hide Times;
    TimesSnoc(s.unscheduled, s.next, n);
  }

  lemma PutWhole(s: State, cap: nat)
    requires cap > 0 && Whole(s) && s.mailbox != []
    ensures Whole(Apply(s, cap, Put))
  {
    hide Times, Places;
    if s.queue != [] { OnlyThere(s, s.queue[0]); }
    forall n: nat | s.boundary <= n ensures Places(Apply(s, cap, Put), n) == Places(s, n) { PutPlaces(s, cap, n); }
  }

  lemma TakeWhole(s: State, cap: nat)
    requires cap > 0 && Whole(s) && s.queue != [] && s.hand.None?
    ensures Whole(Apply(s, cap, Take))
  {
    hide Times, Places;
    forall n: nat ensures Places(Apply(s, cap, Take), n) == Places(s, n) { TakePlaces(s, cap, n); }
  }

  lemma SendWhole(s: State, cap: nat)
    requires cap > 0 && Whole(s) && s.hand.Some?
    ensures Whole(Apply(s, cap, Send))
  {
    hide Times, Places;
    OnlyThere(s, s.hand.value);
    forall n: nat ensures Places(Apply(s, cap, Send), n) == Places(s, n) { SendPlaces(s, cap, n); }
  }

  /** How many lost records the frames report. */
  function Told(out: seq<Frame>): int {
    if out == [] then 0 else Told(out[..|out| - 1]) + match out[|out| - 1] case Line(_) => 0 case Lost(count, _, _) => count
  }

  function Untold(s: State): int {
    match s.dropped case None => 0 case Some(d) => d.count
  }

  lemma ToldSnoc(out: seq<Frame>, f: Frame)
    ensures Told(out + [f]) == Told(out) + match f case Line(_) => 0 case Lost(count, _, _) => count
  {
    assert (out + [f])[..|out|] == out;
  }

  lemma {:induction false} ToldLines(out: seq<Frame>, ns: seq<nat>)
    ensures Told(out + Lines(ns)) == Told(out)
    decreases |ns|
  {
    if ns == [] {
      assert out + Lines(ns) == out;
    } else {
      var n := |ns| - 1;
      ToldLines(out, ns[..n]);
      assert out + Lines(ns) == (out + Lines(ns[..n])) + [Line(ns[n])];
      ToldSnoc(out + Lines(ns[..n]), Line(ns[n]));
    }
  }

  lemma SentTold(s: State, n: nat)
    ensures Told(Sent(s, n).out) + Untold(Sent(s, n)) == Told(s.out) + Untold(s)
  {
    if n > s.last {
      match s.dropped
      case None => assert s.out + [] == s.out; ToldSnoc(s.out, Line(n));
      case Some(d) =>
        ToldSnoc(s.out, Lost(d.count, d.first, d.last));
        ToldSnoc(s.out + [Lost(d.count, d.first, d.last)], Line(n));
    }
  }

  /** Every step that cuts a record owes one to a report, and pays it in the next. */
  lemma StepTold(s: State, cap: nat, step: Step)
    requires cap > 0 && Enabled(s, step) && Whole(s)
    ensures var t := Apply(s, cap, step); Told(t.out) + Untold(t) - |t.cut| == Told(s.out) + Untold(s) - |s.cut|
  {
    match step
    case Put => if s.queue != [] { OnlyThere(s, s.queue[0]); }
    case Send => hide Sent, Told; SentTold(s.(hand := None), s.hand.value); CutStays(s.(hand := None), s.hand.value);
    case Deliver => hide Sent, Told; SentTold(s.(queue := s.queue[1..]), s.queue[0]); CutStays(s.(queue := s.queue[1..]), s.queue[0]);
    case _ =>
  }

  lemma CutStays(s: State, n: nat)
    ensures Sent(s, n).cut == s.cut
  {
  }

  lemma {:induction false} RunTold(s: State, cap: nat, steps: seq<Step>)
    requires cap > 0 && Whole(s) && Run(s, cap, steps).Some?
    ensures var t := Run(s, cap, steps).value; Told(t.out) + Untold(t) - |t.cut| == Told(s.out) + Untold(s) - |s.cut|
    decreases |steps|
  {
    hide Whole, Apply, Enabled, Told, Untold;
    if steps != [] {
      StepWhole(s, cap, steps[0]);
      StepTold(s, cap, steps[0]);
      RunTold(Apply(s, cap, steps[0]), cap, steps[1..]);
    }
  }

  /** In whatever order records are fanned out, the reports' counts, the one still to
      come included, add up to the records lost: those the ring had already evicted and
      those a full queue cut. */
  lemma ReportsAddUp(since: nat, oldest: nat, cursor: nat, subscribed: nat, cap: nat, steps: seq<Step>)
    requires cap > 0 && subscribed <= cursor && since <= oldest <= cursor
    ensures var r := Run(Opened(since, oldest, cursor, subscribed), cap, steps);
      r.Some? ==> Told(r.value.out) + Untold(r.value) == (oldest - since) + |r.value.cut|
  {
    var o := Opened(since, oldest, cursor, subscribed);
    OpenedWhole(since, oldest, cursor, subscribed);
    var report: seq<Frame> := if oldest > since then [Lost(oldest - since, since, oldest - 1)] else [];
    ToldLines(report, Numbers(oldest, cursor));
    hide Lines, Numbers, Whole;
    assert Told(report) == oldest - since by { if oldest > since { ToldSnoc([], report[0]); assert [] + [report[0]] == report; } }
    assert Told(o.out) == oldest - since;
    if Run(o, cap, steps).Some? { RunTold(o, cap, steps); }
  }

  /** Step k of a run takes number n out behind a larger one. */
  ghost predicate LateAt(s: State, cap: nat, steps: seq<Step>, k: nat, n: nat)
    requires cap > 0
  {
    k < |steps| && var before := Run(s, cap, steps[..k]); before.Some? && Late(before.value, steps[k], n)
  }

  predicate Late(s: State, step: Step, n: nat) {
    && ((step.Send? && s.hand == Some(n)) || (step.Deliver? && s.queue != [] && s.queue[0] == n))
    && n < s.last
  }

  lemma SkipsExactly(s: State, cap: nat, step: Step, n: nat)
    requires cap > 0 && Enabled(s, step) && Whole(s) && n !in s.skipped
    ensures n in Apply(s, cap, step).skipped <==> Late(s, step, n)
  {
    if step.Send? { OnlyThere(s, s.hand.value); }
    if step.Deliver? { OnlyThere(s, s.queue[0]); }
    hide Whole;
  }

  lemma {:induction false} SkippedStays(s: State, cap: nat, steps: seq<Step>, n: nat)
    requires cap > 0 && Run(s, cap, steps).Some? && n in s.skipped
    ensures n in Run(s, cap, steps).value.skipped
    decreases |steps|
  {
    if steps != [] {
      assert n in Apply(s, cap, steps[0]).skipped;
      hide Apply, Enabled;
      SkippedStays(Apply(s, cap, steps[0]), cap, steps[1..], n);
    }
  }

  lemma LateLater(s: State, cap: nat, steps: seq<Step>, k: nat, n: nat)
    requires cap > 0 && steps != [] && Enabled(s, steps[0])
    ensures LateAt(s, cap, steps, k + 1, n) <==> LateAt(Apply(s, cap, steps[0]), cap, steps[1..], k, n)
  {
    hide Apply, Enabled, Late;
    if k + 1 < |steps| { assert steps[..k + 1][1..] == steps[1..][..k]; }
  }

  lemma {:induction false} RunWhole(s: State, cap: nat, steps: seq<Step>, n: nat)
    requires cap > 0 && Whole(s) && n !in s.skipped
    ensures var r := Run(s, cap, steps);
      r.Some? ==> Whole(r.value) && (n in r.value.skipped <==> exists k :: LateAt(s, cap, steps, k, n))
    decreases |steps|
  {
    if steps != [] && Enabled(s, steps[0]) {
      var t := Apply(s, cap, steps[0]);
      StepWhole(s, cap, steps[0]);
      SkipsExactly(s, cap, steps[0], n);
      assert steps[..0] == [] && Run(s, cap, []) == Some(s);
      assert LateAt(s, cap, steps, 0, n) <==> n in t.skipped;
      hide Whole, Apply, Enabled, Late;
      if n in t.skipped {
        RunStaysWhole(t, cap, steps[1..]);
        if Run(t, cap, steps[1..]).Some? { SkippedStays(t, cap, steps[1..], n); }
      } else {
        RunWhole(t, cap, steps[1..], n);
        forall k: nat ensures LateAt(s, cap, steps, k + 1, n) <==> LateAt(t, cap, steps[1..], k, n) {
          LateLater(s, cap, steps, k, n);
        }
        LateShifted(s, t, cap, steps, n);
      }
    }
  }

  lemma {:induction false} RunStaysWhole(s: State, cap: nat, steps: seq<Step>)
    requires cap > 0 && Whole(s)
    ensures Run(s, cap, steps).Some? ==> Whole(Run(s, cap, steps).value)
    decreases |steps|
  {
    hide Whole, Apply, Enabled;
    if steps != [] && Enabled(s, steps[0]) {
      StepWhole(s, cap, steps[0]);
      RunStaysWhole(Apply(s, cap, steps[0]), cap, steps[1..]);
    }
  }

  lemma LateShifted(s: State, t: State, cap: nat, steps: seq<Step>, n: nat)
    requires cap > 0 && steps != [] && !LateAt(s, cap, steps, 0, n)
    requires forall k: nat :: LateAt(s, cap, steps, k + 1, n) <==> LateAt(t, cap, steps[1..], k, n)
    ensures (exists k :: LateAt(s, cap, steps, k, n)) <==> exists k :: LateAt(t, cap, steps[1..], k, n)
  {
    hide LateAt;
    if k: nat :| LateAt(s, cap, steps, k, n) {
      assert k > 0 && LateAt(s, cap, steps, (k - 1) + 1, n);
      assert LateAt(t, cap, steps[1..], k - 1, n);
    }
    if k: nat :| LateAt(t, cap, steps[1..], k, n) {
      assert LateAt(s, cap, steps, k + 1, n);
    }
  }

  /** Over every run, in whatever order records are fanned out: a live number is gone
      from the pipeline without having been sent or cut exactly if it was taken out
      behind a larger one that had been sent. */
  lemma LostSilentlyExactly(since: nat, oldest: nat, cursor: nat, subscribed: nat, cap: nat, steps: seq<Step>, n: nat)
    requires cap > 0 && subscribed <= cursor && since <= oldest <= cursor <= n
    ensures var o := Opened(since, oldest, cursor, subscribed); var r := Run(o, cap, steps);
      r.Some? && n < r.value.next ==>
        (!OnItsWay(r.value, n) && Line(n) !in r.value.out && n !in r.value.cut <==> exists k :: LateAt(o, cap, steps, k, n))
  {
    var o := Opened(since, oldest, cursor, subscribed);
    OpenedWhole(since, oldest, cursor, subscribed);
    RunWhole(o, cap, steps, n);
    BoundaryKept(o, cap, steps);
    if Run(o, cap, steps).Some? {
      var r := Run(o, cap, steps).value;
      hide Run, LateAt;
      assert Places(r, n) == if n < r.next then 1 else 0;
    }
  }

  lemma {:induction false} BoundaryKept(s: State, cap: nat, steps: seq<Step>)
    requires cap > 0
    ensures Run(s, cap, steps).Some? ==> Run(s, cap, steps).value.boundary == s.boundary
    decreases |steps|
  {
    if steps != [] && Enabled(s, steps[0]) {
      BoundaryKept(Apply(s, cap, steps[0]), cap, steps[1..]);
    }
  }

  // ---- what breaks without the two conditions -----------------------------------------------------

  ghost predicate Reaches(o: State, cap: nat, s: State)
    requires cap > 0
  {
    exists steps: seq<Step> :: Run(o, cap, steps) == Some(s)
  }

  lemma {:induction false} RunSnoc(o: State, cap: nat, steps: seq<Step>, step: Step)
    requires cap > 0 && Run(o, cap, steps).Some? && Enabled(Run(o, cap, steps).value, step)
    ensures Run(o, cap, steps + [step]) == Some(Apply(Run(o, cap, steps).value, cap, step))
    decreases |steps|
  {
    hide Apply, Enabled;
    if steps == [] {
      assert [] + [step] == [step];
      assert Run(Apply(o, cap, step), cap, [step][1..]) == Some(Apply(o, cap, step));
    } else {
      RunSnoc(Apply(o, cap, steps[0]), cap, steps[1..], step);
      assert (steps + [step])[1..] == steps[1..] + [step];
    }
  }

  lemma ReachStep(o: State, cap: nat, s: State, step: Step)
    requires cap > 0 && Reaches(o, cap, s) && Enabled(s, step)
    ensures Reaches(o, cap, Apply(s, cap, step))
  {
    hide Apply, Enabled;
    var steps: seq<Step> :| Run(o, cap, steps) == Some(s);
    RunSnoc(o, cap, steps, step);
  }

  /** One more record appended, scheduled and put. */
  function Fed(s: State, cap: nat): State
    requires cap > 0
  {
    Enqueue(s.(next := s.next + 1), cap, s.next)
  }

  lemma ReachFed(o: State, cap: nat, s: State)
    requires cap > 0 && Reaches(o, cap, s) && s.unscheduled == s.mailbox == []
    ensures Reaches(o, cap, Fed(s, cap))
  {
    hide Reaches;
    ReachStep(o, cap, s, Append);
    var s1 := Apply(s, cap, Append);
    assert s1.unscheduled == [s.next];
    ReachStep(o, cap, s1, Schedule(0));
    var s2 := Apply(s1, cap, Schedule(0));
    assert s2.mailbox == [s.next] && s2.unscheduled == [] && s2.mailbox[1..] == [];
    ReachStep(o, cap, s2, Put);
  }

  /** A drop between take and send: the report counts two lost records but spans
      three numbers, one of them the record sent right after it. */
  lemma TornTake() returns (s: State)
    ensures Reaches(Opened(0, 0, 0, 0), 1, s) && s.out == [Lost(2, 0, 2), Line(1)]
  {
    var o := Opened(0, 0, 0, 0);
    assert o.out == [] && o.unscheduled == [];
    assert Run(o, 1, []) == Some(o);
    assert Reaches(o, 1, o);
    hide Reaches;
    ReachFed(o, 1, o);
    var a := Fed(o, 1);
    assert a.queue == [0];
    ReachFed(o, 1, a);
    var b := Fed(a, 1);
    assert b.queue == [1] && b.dropped == Some(Dropped(1, 0, 0));
    ReachStep(o, 1, b, Take);
    var c := Apply(b, 1, Take);
    assert c.queue == [];
    ReachFed(o, 1, c);
    var d := Fed(c, 1);
    assert d.queue == [2];
    ReachFed(o, 1, d);
    var e := Fed(d, 1);
    ReachStep(o, 1, e, Send);
    s := Apply(e, 1, Send);
  }

  /** Fan-out out of order: the later record is sent, the earlier one is skipped as
      already covered, and no report mentions it. */
  lemma LateFanOut() returns (s: State)
    ensures Reaches(Opened(0, 0, 0, 0), 2, s) && s.next == 2 && s.out == [Line(1)]
    ensures s.queue == s.mailbox == s.unscheduled == [] && s.dropped.None?
  {
    var o := Opened(0, 0, 0, 0);
    assert o.out == [] && o.unscheduled == [];
    assert Run(o, 2, []) == Some(o);
    assert Reaches(o, 2, o);
    hide Reaches;
    ReachStep(o, 2, o, Append);
    var a := Apply(o, 2, Append);
    ReachStep(o, 2, a, Append);
    var b := Apply(a, 2, Append);
    assert b.unscheduled == [0, 1];
    ReachStep(o, 2, b, Schedule(1));
    var c := Apply(b, 2, Schedule(1));
    assert c.unscheduled == [0] && c.mailbox == [1];
    ReachStep(o, 2, c, Schedule(0));
    var d := Apply(c, 2, Schedule(0));
    assert d.unscheduled == [] && d.mailbox == [1, 0];
    ReachStep(o, 2, d, Put);
    var e := Apply(d, 2, Put);
    ReachStep(o, 2, e, Put);
    var f := Apply(e, 2, Put);
    assert f.queue == [1, 0] && f.mailbox == [];
    ReachStep(o, 2, f, Deliver);
    var g := Apply(f, 2, Deliver);
    ReachStep(o, 2, g, Deliver);
    s := Apply(g, 2, Deliver);
  }
}
