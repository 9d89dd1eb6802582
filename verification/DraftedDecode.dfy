/** A greedy request with a second-model drafter: the decode loop drives the drafter,
    and the drafter's caches follow the emitted stream exactly over certain rounds. */
module DraftedDecode {
  import opened Collections
  import opened Network
  import opened Target
  import opened SpecWindow
  import opened DraftLockstep

  /** A full chain if there is room for any of it, none otherwise. */
  method Ask(dm: DraftModel, next: seq<DraftLayer> -> Token, room: nat) returns (drafts: seq<Token>)
    requires dm.k >= 1 && (|dm.st.snaps| == |dm.st.layers| || !HasSnapshot(dm.st))
    modifies dm`st
    ensures |dm.st.snaps| == |dm.st.layers| || !HasSnapshot(dm.st)
    ensures drafts == [] <==> room == 0
    ensures dm.st == if drafts == [] then old(dm.st) else Drafted(old(dm.st), drafts)
  {
    if room == 0 { return []; }
    drafts := dm.Draft(next);
  }

  /** What the carried tokens leave of the window. */
  method Room(d: SpecDecoder) returns (room: nat)
    requires d.Valid()
    ensures |d.pending| + room == d.maxWindow && d.stream != []
  {
    hide CacheAfter, HiddenAfter;
    room := d.maxWindow - |d.pending|;
  }

  lemma GreedyObeys(m: Model, stream: seq<Token>, drafts: seq<Token>, committed: seq<Token>)
    requires stream != [] && Obeys(m, stream, Greedy, drafts, committed)
    ensures committed == PlainDecode(m, stream, |committed|)
  {
  }

  /** One round of decoder and drafter: the chain is cut to the room the carried tokens
      leave, and with no room the drafter is not asked. */
  method DraftedRound(d: SpecDecoder, dm: DraftModel, next: seq<DraftLayer> -> Token) returns (committed: seq<Token>, t: Turn)
    requires d.Valid() && d.drafter == null && dm.k >= 1
    requires d.Recorded() ==> Roomy(d.m, |d.stream| + d.maxWindow)
    requires |dm.st.snaps| == |dm.st.layers| || !HasSnapshot(dm.st)
    modifies d`pending, d`stream, d.cache, dm`st
    ensures d.Valid() && committed != [] && old(d.stream) != [] && d.stream == old(d.stream) + committed
    ensures committed == PlainDecode(d.m, old(d.stream), |committed|)
    ensures t.drafts == [] <==> |old(d.pending)| == d.maxWindow
    ensures t.offered == Least(|t.drafts|, d.maxWindow - |old(d.pending)|) && t.accepted + 1 == |committed|
    ensures Decides(d.m, old(d.stream), Greedy, t.drafts[..t.offered], d.Stops(), committed)
    ensures Possible(t) && d.stream == Grown(old(d.stream), t) && dm.st == Turned(old(dm.st), t)
  {
    hide SpecDecoder.Valid, Obeys, Decides, Roomy, Committed, Drafted, HasSnapshot, Turned, Grown, SpecDecoder.Recorded;
    var room := Room(d);
    var drafts := Ask(dm, next, room);
    var offered := drafts[..Least(|drafts|, room)];
    RoomyEnough(d.m, |d.stream|, |offered|, d.maxWindow);
    committed := d.Round(offered, Greedy);
    GreedyObeys(d.m, old(d.stream), offered, committed);
    t := Turn(drafts, |offered|, |committed| - 1, committed[|committed| - 1]);
    Emits(old(d.stream), offered, committed, t);
    Tell(dm, t, old(dm.st));
  }

  /** What a round emits is what its turn says. */
  lemma Emits(path: seq<Token>, offered: seq<Token>, committed: seq<Token>, t: Turn)
    requires committed != [] && |committed| <= |offered| + 1 && offered <= t.drafts && committed[..|committed| - 1] == offered[..|committed| - 1]
    requires t == Turn(t.drafts, |offered|, |committed| - 1, committed[|committed| - 1]) && (t.drafts != [] ==> offered != [])
    ensures Possible(t) && path + committed == Grown(path, t)
  {
    assert committed == committed[..t.accepted] + [t.last];
    assert offered[..t.accepted] == t.drafts[..t.accepted];
  }

  /** The drafter is told what became of its chain. */
  method Tell(dm: DraftModel, t: Turn, ghost was: DraftState)
    requires Possible(t) && (|was.snaps| == |was.layers| || !HasSnapshot(was))
    requires dm.st == if t.drafts == [] then was else Drafted(was, t.drafts)
    modifies dm`st
    ensures dm.st == Turned(was, t)
  {
    hide Committed;
    dm.Commit(t.accepted, if t.drafts == [] then [t.last] else Tail(t.drafts[..t.offered], t.accepted, t.last));
  }

  /** Decoder and drafter behind the rounds so far. */
  ghost predicate Driven(d: SpecDecoder, dm: DraftModel, st: DraftState, prompt: seq<Token>, turns: seq<Turn>)
    requires |st.snaps| == |st.layers| || !HasSnapshot(st)
    reads d, dm
  {
    AllPossible(turns) && dm.st == After(st, turns) && d.stream == PathAfter(prompt, turns)
  }

  lemma DrivenOn(st: DraftState, prompt: seq<Token>, turns: seq<Turn>, t: Turn)
    requires (|st.snaps| == |st.layers| || !HasSnapshot(st)) && AllPossible(turns) && Possible(t)
    ensures AllPossible(turns + [t])
    ensures After(st, turns + [t]) == Turned(After(st, turns), t)
    ensures PathAfter(prompt, turns + [t]) == Grown(PathAfter(prompt, turns), t)
  {
    assert (turns + [t])[..|turns|] == turns;
  }

  /** The client has read this much of plain decoding, to the end of the stream unless
      the request is finished. */
  ghost predicate Reading(d: SpecDecoder, prompt: seq<Token>, out: seq<Token>, limit: nat, finished: bool)
    requires prompt != []
    reads d
  {
    && prompt + out <= d.stream && d.Read(prompt, out, limit) && (finished <==> out != [] && d.Ends(out, limit))
    && (!finished ==> d.stream == prompt + out)
  }

  /** One round, and what the client reads of it. */
  method DecodeRound(d: SpecDecoder, dm: DraftModel, prompt: seq<Token>, limit: nat, next: seq<DraftLayer> -> Token, before: seq<Token>,
                     ghost st: DraftState, ghost turns: seq<Turn>) returns (out: seq<Token>, finished: bool, ghost turns': seq<Turn>)
    requires d.Valid() && d.drafter == null && prompt != [] && dm.k >= 1
    requires d.Recorded() ==> Roomy(d.m, |d.stream| + d.maxWindow)
    requires |st.snaps| == |st.layers| || !HasSnapshot(st)
    requires Reading(d, prompt, before, limit, false) && Driven(d, dm, st, prompt, turns)
    modifies d`pending, d`stream, d.cache, dm`st
    ensures d.Valid() && |before| < |out| && Reading(d, prompt, out, limit, finished) && Driven(d, dm, st, prompt, turns')
  {
    hide CacheAfter, HiddenAfter, PlainDecode, SpecDecoder.Ends, SpecDecoder.Read, SpecDecoder.Valid, SpecDecoder.Recorded, Roomy,
      Driven, After, PathAfter, HasSnapshot, Turned, Grown, Decides;
    Sized(d, dm, st, prompt, turns);
    ghost var was, path := dm.st, d.stream;
    var committed, t := DraftedRound(d, dm, next);
    GoesOn(d, dm, st, prompt, turns, was, path, t);
    turns' := turns + [t];
    out, finished := d.Take(before, committed, limit);
    d.ReadOn(prompt, before, committed, out, limit);
    assert prompt + (before + committed) == d.stream;
  }

  /** A whole greedy request: the client reads plain greedy decoding, and the drafter is
      level with the stream after every round exactly if every round keeps it so. */
  method DecodeDrafted(d: SpecDecoder, dm: DraftModel, prompt: seq<Token>, limit: nat, next: seq<DraftLayer> -> Token)
    returns (out: seq<Token>, ghost turns: seq<Turn>)
    requires d.Valid() && d.drafter == null && d.stream == prompt && prompt != []
    requires d.Recorded() ==> Roomy(d.m, |prompt| + limit + d.maxWindow)
    requires dm.k >= 1 && dm.st.layers != [] && Lockstep(dm.st, prompt) && !HasSnapshot(dm.st) && dm.st.drafted == 0
    modifies d`pending, d`stream, d.cache, dm`st
    ensures d.Valid() && out != [] && prompt + out <= d.stream
    ensures out == PlainDecode(d.m, prompt, |out|) && d.Ends(out, limit)
    ensures forall n :: 0 < n < |out| ==> !d.Ends(PlainDecode(d.m, prompt, n), limit)
    ensures |out| <= limit || |out| == 1
    ensures |out| < limit ==> out[|out| - 1] in d.Stops()
    ensures forall i :: 0 <= i < |out| - 1 ==> out[i] !in d.Stops()
    ensures Driven(d, dm, old(dm.st), prompt, turns)
    ensures LevelThroughout(old(dm.st), prompt, turns) <==> KeepsAll(old(dm.st), turns)
  {
    ghost var st := dm.st;
    turns, out := [], [];
    var finished := false;
    assert Driven(d, dm, st, prompt, turns);
    hide CacheAfter, HiddenAfter, PlainDecode, SpecDecoder.Ends, SpecDecoder.Read, SpecDecoder.Valid, SpecDecoder.Recorded, Roomy,
      Driven, After, PathAfter, HasSnapshot, Lockstep;
    d.NothingRead(prompt, limit);
    assert Reading(d, prompt, out, limit, finished);
    while !finished
      invariant d.Valid() && Reading(d, prompt, out, limit, finished) && Driven(d, dm, st, prompt, turns)
      decreases !finished, limit - |out|
    {
      d.Unfinished(out, limit);
      RoomyEnough(d.m, 0, |d.stream| + d.maxWindow, |prompt| + limit + d.maxWindow);
      out, finished, turns := DecodeRound(d, dm, prompt, limit, next, out, st, turns);
    }
    d.ReadIsPlain(prompt, out, limit);
    d.EndsOutright(out, limit);
    Sized(d, dm, st, prompt, turns);
    LevelThroughoutExactly(st, prompt, turns);
  }

  lemma Sized(d: SpecDecoder, dm: DraftModel, st: DraftState, prompt: seq<Token>, turns: seq<Turn>)
    requires (|st.snaps| == |st.layers| || !HasSnapshot(st)) && Driven(d, dm, st, prompt, turns)
    ensures AllPossible(turns) && (|dm.st.snaps| == |dm.st.layers| || !HasSnapshot(dm.st))
    ensures dm.st == After(st, turns) && d.stream == PathAfter(prompt, turns)
  {
  }

  lemma GoesOn(d: SpecDecoder, dm: DraftModel, st: DraftState, prompt: seq<Token>, turns: seq<Turn>, was: DraftState, path: seq<Token>, t: Turn)
    requires (|st.snaps| == |st.layers| || !HasSnapshot(st)) && AllPossible(turns) && Possible(t)
    requires was == After(st, turns) && path == PathAfter(prompt, turns)
    requires dm.st == Turned(was, t) && d.stream == Grown(path, t)
    ensures Driven(d, dm, st, prompt, turns + [t])
  {
    DrivenOn(st, prompt, turns, t);
  }

  lemma RoomyEnough(m: Model, n: nat, a: nat, b: nat)
    requires a <= b
    ensures Roomy(m, n + b) ==> Roomy(m, n + a)
  {
  }
}
