# MaxToken verification model

A Dafny model of the parts of MaxToken where a fast path has to agree with a
plain one: speculative decoding, expert offload, the prefix caches, the serve
lifecycle, and four self-contained kernels and codecs. Each module states what
the plain behaviour is and proves that the real path yields it, over every
input, every run, or every interleaving.

A model cache is the state of having run a token sequence through a list of
abstract layers (attention rows, recurrent states, sliding windows), and
probabilities are reals. Code that updates fields in place is a class or an
array here too, proved against functions of its old state; the concurrent
protocols are state machines whose steps are what the source does between two
locks or awaits.

| file | what it models |
|---|---|
| `Collections.dfy` | the stock types and list functions the others share |
| `Network.dfy`, `Target.dfy` | the layered target model, window forward, snapshot and rollback, plain greedy decoding |
| `GdnCapture.dfy` | recording a verify window and committing a prefix of it |
| `MtpHistory.dfy`, `DraftLockstep.dfy` | the MTP head's history and the second-model drafter |
| `SpecWindow.dfy`, `DraftedDecode.dfy` | the speculative decode loop, and the loop driving a second-model drafter |
| `Rejection.dfy`, `Rounds.dfy` | rejection sampling over sparse rows and its law, sample and match, the law of whole streams |
| `Admission.dfy`, `SlotCache.dfy`, `OffloadDecode.dfy`, `OffloadWindow.dfy`, `Rebalance.dfy` | which experts a chunk admits, the expert slot cache, speculate-and-verify decoding and window forwards on it, the slot budget |
| `PrefixBlocks.dfy`, `DiskRuns.dfy`, `PrefixDisk.dfy`, `PrefixRam.dfy` | the disk and memory prefix caches |
| `Lifecycle.dfy`, `Restarts.dfy`, `Calls.dfy` | the daemon's serve lifecycle, which crashes restart, where its calls lead |
| `Outbox.dfy`, `ServerSeal.dfy`, `LogStream.dfy` | receipts, the accounting seal, the log stream |
| `Trie.dfy`, `Codec.dfy`, `TopK.dfy`, `PackedMatmul.dfy` | trie scoring, the message codec, two-stage routing, the packed small-row matmul |

`dafny verify dfyconfig.toml` checks the whole project.

## Where the code does not keep what it promises

Each of these is modelled as the code is, with a concrete run or input and the
exact condition under which the promise holds.

- A draft chain cut short by the room left in the window and then fully accepted
  leaves its last token twice in a second-model drafter; a drafter that mixes
  trimmable and untrimmable layers, or holds any untrimmable one and sits out a
  round, falls out of step (`LevelThroughoutExactly`; runs in `ChainCutShort`,
  `MixedFallsBehind`, `IdleRestores`).
- A prefix commit trims sliding windows without asking, where every other path
  snapshots them. Here a window holds its last rows and nothing else, and then a
  recorded window cut short behind a wrapped one leaves caches that are no run of
  the kept tokens (`WindowTrimIff`, `CommitIsPrefixRun`, `SpecDecoder.Round`,
  `CutShortBehindWrap`). The cache library may keep surplus rows behind an update
  of several tokens, and they decide whether a trim of at most that many tokens is
  exact; the library is not part of this model, and the code itself says no more
  than that a wrapped window cannot be trimmed.
- A block of the disk tier can be marked ready without its file: exactly if it was
  removed and queued again between the writing of a file and its settling
  (`BackedExactly`, `ReadyExactly`, `ReadyWithoutFile`). Restoring stays sound,
  because it reads files.
- The disk tier counts only files its blocks answer for: a file left behind without
  its entry in the manifest, or of another size, is not counted, and the directory
  can outgrow the budget by it (`CountedOnDisk`, `DirectoryCounted`, the store's
  constructor; a run in `LeftoverUncounted`).
- A finished request on a model with no layer that can be trimmed by then donates
  its cache unchecked, and the store can then hold an entry that is not the run
  of its tokens (`Remember`, `FinishRequest`, `UncheckedDonation`).
- An empty candidate is never closed, so it stays a prefix of all others
  (`DisambiguatePrefixFree`, `EmptyCandidate`).
- An object whose class is not registered, or is called like the array tag, does
  not survive the codec (`RoundTrip`, `ObjectsLost`).
- A late monitor erases its successor's state file (`RecordLostExactly`,
  `RecordErasedUnderLiveServe`); a serve whose state file cannot be written, or
  whose threads cannot start, is never monitored (`MonitoredIffStarted`,
  `UnwatchedServe`).
- A generation can be accounted for more than once: by a stop behind a crash
  receipt, by a retried stop with other totals, and by a crash behind a receipt
  that the manager never saw stored, because an earlier daemon stored it or because
  the storing failed late (`SecondReceiptExactly`, `TwoReceiptsExactly`; runs in
  `TwoReceipts`, `RetriedStop`, `CarriedReceipt`, `LateReceipt`,
  `LateCrashReceipt`).
- A seal is broken by an engine reload, an unsent cache rebuild or a good rebuild
  reply, which reopen the gate, and by old workers' late tokens for a request that
  a reload retired (`BrokenExactly`, `FinalExactly`, `ReloadBreaksSeal`,
  `LateReplyBreaksSeal`).
- A request whose client goes away and whose worker drops it without a last reply
  stays in flight for good, and a prepared stop waits for it in vain
  (`InflightExactly`, `AnswerableExactly`, `OrphanStays`; a run in `LeftBehind`).
- The shape test of the packed matmul checks the undivided column tile and a
  fixed depth multiple, so it lets through shapes with columns that no
  threadgroup owns, or with a depth its group size does not divide
  (`LaunchCoversIff`, `GroupsWithinIff`, `EligibleUncovered`, `EligibleUngrouped`).
- A drop between the log stream's queue read and its send tears the next gap
  report, and a record that leaves the queue behind a larger one already sent is
  lost silently (`EveryNumberAccounted`, `LostSilentlyExactly`, `TornTake`,
  `LateFanOut`).

Three more places do something a reader might not expect, and the model follows
them: a resize keeps the most recently used experts but reverses their order, new
disk blocks are stamped one by one so that a chain's head can be older than its
tail, and a block can be queued twice because what is missing is computed before
the previous snapshot is harvested.

## Model

| member | source | states |
|---|---|---|
| Network.WindowForwardIsDecode | python/maxtoken/mlx_backend/worker.py:808-818 | One forward over a window, layer by layer with all positions at once, leaves the same caches and gives the same hidden state at every position as feeding the positions one decode step at a time, for any mix of attention, recurrent and sliding-window layers |
| Network.RunNetSplit | python/maxtoken/mlx_backend/worker.py:683-688 | Running a concatenation is running the second part on the caches of the first |
| Network.RollbackUndoesWindow | python/maxtoken/mlx_backend/worker.py:690-723 | Snapshot before, roll back by the window length after: every kind of cache entry is back where it was, trimmed or restored |
| Target.ForwardContinuesRun | python/maxtoken/mlx_backend/worker.py:950-975 | A window forwarded on the caches of a token run leaves the caches of the longer run, and row i is the model's state for the prefix that ends at window position i |
| Target.PlainDecodeSplit | python/maxtoken/mlx_backend/worker.py:1081-1086 | Plain greedy decoding of a + b tokens is decoding a, then b more from there: what lets rounds of any size be glued |
| GdnCapture.CaptureEntry | python/maxtoken/mlx_backend/gdn_capture.py:145-213 | The capture forward of a recurrent layer computes what the plain one computes and keeps exactly the inputs and starting state of the window |
| GdnCapture.ReplayIsPrefixRun | python/maxtoken/mlx_backend/gdn_capture.py:276-301 | Convolution input sliced at keep and recurrence replayed over the first keep inputs are the layer state after only the first keep positions |
| GdnCapture.CaptureCommits | python/maxtoken/mlx_backend/gdn_capture.py:241-275 | After a captured window the commit goes through if and only if keep lies in the window and the model has a recurrent layer |
| GdnCapture.CommitPrefix | python/maxtoken/mlx_backend/gdn_capture.py:241-301 | Validates every layer before touching any: a False return leaves every cache as it was; a True one replays every recurrent layer and trims every other one by what was not kept |
| GdnCapture.WindowTrimIff | python/maxtoken/mlx_backend/gdn_capture.py:270-275 | Trimming part of a window out of a sliding-window layer leaves the layer after the kept positions if and only if the layer has not wrapped by the window's end |
| GdnCapture.CommitIsPrefixRun | python/maxtoken/mlx_backend/gdn_capture.py:241-301 | For every window length and every keep inside it, the committed caches are those of running only the kept positions, if and only if no sliding-window layer has wrapped by the window's end |
| MtpHistory.AbsorbedPairs | python/maxtoken/mlx_backend/mtp_draft.py:447-473 | The entries a round adds are the next contiguous (trunk state at p, token at p + 1) pairs of the committed stream |
| MtpHistory.MtpDrafter.ExtendHistory | python/maxtoken/mlx_backend/mtp_draft.py:425-445 | A prefill chunk extends the head's history to exactly the pairs up to the chunk's end, on top of whatever draft entries lay behind the mark |
| MtpHistory.MtpDrafter.Draft | python/maxtoken/mlx_backend/mtp_draft.py:321-389 | The chain is built on the committed history only, each draft picked from the state of all entries before it, and when drafting by sampling the density recorded for each draft is that of this very state; the history in front of the mark is untouched |
| MtpHistory.ChainedAt | python/maxtoken/mlx_backend/mtp_draft.py:321-389 | Entry i of a chain pairs the state of all entries before it with the draft before it, the first one the state and token handed in, and draft i is picked from the state of all entries up to its own |
| MtpHistory.MtpDrafter.Absorb | python/maxtoken/mlx_backend/mtp_draft.py:447-473 | After a round the head's cache is exactly the pairs of the committed stream, one entry short of its last token; no rejected draft survives |
| DraftLockstep.DraftModel.Draft | python/maxtoken/mlx_backend/draft.py:113-136 | Every draft cache has consumed the pending tokens and all drafts but the last; draft i is the draft model's token behind the pending tokens and drafts 0 to i - 1 |
| DraftLockstep.DraftModel.Commit | python/maxtoken/mlx_backend/draft.py:138-158 | The two commit branches, layer by layer: restore by snapshot and replay list, or trim by the overshoot |
| DraftLockstep.TrimmableLockstep | python/maxtoken/mlx_backend/draft.py:113-158 | With trimmable layers only, each cache plus the pending tokens is the committed path if and only if a draft was rejected or the whole chain was offered; a chain cut short and fully accepted leaves its last token in twice |
| DraftLockstep.HybridLockstep | python/maxtoken/mlx_backend/draft.py:113-158 | With an untrimmable layer, lockstep holds if and only if no layer is trimmable and some offered draft was rejected |
| DraftLockstep.IdleRoundLockstep | python/maxtoken/mlx_backend/draft.py:113-158 | After a round of any kind, any number of rounds without room for drafts leave the drafter level if and only if all its layers are trimmable and it was level after that round: a snapshot is restored again by every idle commit |
| DraftLockstep.LevelThroughoutExactly | python/maxtoken/mlx_backend/draft.py:113-158 | Over a request of any number of rounds, with and without room, a drafter that starts level is level after every round if and only if every round keeps it so, which each round's offered, accepted and earlier drafted tokens decide |
| DraftLockstep.ChainCutShort | python/maxtoken/mlx_backend/draft.py:113-158 | A run of the drafter itself: three drafts, one offered and accepted, and its caches with the carried tokens are not the committed path |
| DraftLockstep.MixedFallsBehind | python/maxtoken/mlx_backend/draft.py:113-158 | A run: a trimmable and an untrimmable layer, one draft rejected, not level |
| DraftLockstep.IdleRestores | python/maxtoken/mlx_backend/draft.py:113-158 | A run: an untrimmable drafter level after a rejected round and not after the round without room behind it |
| DraftedDecode.DraftedRound | python/maxtoken/mlx_backend/worker.py:939-1058 | One round of the decoder with the second-model drafter: the chain is cut to exactly the room the carried tokens leave, everything the cut chain and the target let through up to the first stop token is committed, and drafter and stream move as the round says |
| DraftedDecode.DecodeDrafted | python/maxtoken/mlx_backend/worker.py:939-1086 | A whole greedy request driven with a second-model drafter is plain greedy decoding up to the first counted stop token or the limit, and the drafter is level with the stream after every round if and only if every round keeps it so |
| SpecWindow.CountMatched | python/maxtoken/mlx_backend/worker.py:1003-1007 | The longest run of drafts the target's outputs agree with |
| SpecWindow.CutAtEos | python/maxtoken/mlx_backend/worker.py:1011-1018 | A committed run is cut right behind its first stop token, or not at all |
| SpecWindow.DecidedOnce | python/maxtoken/mlx_backend/worker.py:999-1018 | Stream, drafts, rule and the stop tokens that count decide which tokens a round commits, and how many |
| SpecWindow.GreedyRunIsPlain | python/maxtoken/mlx_backend/worker.py:999-1007 | Outputs that are each the greedy token of the prefix before them are plain greedy decoding |
| SpecWindow.KeptIsPrefixRun | python/maxtoken/mlx_backend/worker.py:1027-1040 | A prefix commit leaves the caches of the kept positions alone if and only if no sliding window has wrapped |
| SpecWindow.SpecDecoder.Prefill | python/maxtoken/mlx_backend/worker.py:583-663 | Whatever the chunk widths and however many tokens a prefix hit restored, the caches end behind all but the last prompt token and the head's history is the pairs from where it started listening |
| SpecWindow.SpecDecoder.Judge | python/maxtoken/mlx_backend/worker.py:979-1018 | What a rule accepts, with stop tokens honoured or not: of the whole matched run (whose last token is where it first differs from the drafts, or behind them all) or the whole rejection verdict, everything up to the first stop token that counts, and all of it if there is none |
| SpecWindow.SpecDecoder.Verify | python/maxtoken/mlx_backend/worker.py:939-1018 | One forward; row i is the target's state for stream + committed[..i], and the committed run is everything the rule lets through up to the first stop token: of plain greedy decoding, of the target's own samples, or of the rejection verdict |
| SpecWindow.SpecDecoder.RollBack | python/maxtoken/mlx_backend/worker.py:1048-1056 | Rolling back every cache undoes the whole window |
| SpecWindow.SpecDecoder.CommitKept | python/maxtoken/mlx_backend/worker.py:1027-1043 | It declines exactly if nothing was recorded, and then changes nothing; otherwise the caches are those of run + window[..keep] if and only if every sliding window is at least as wide as run and window together |
| SpecWindow.SpecDecoder.Settle | python/maxtoken/mlx_backend/worker.py:1027-1066 | Across prefix commit, rollback with carry and full accept: caches plus carried tokens are run + pending + committed, if and only if nothing was recorded, all drafts were accepted, or no sliding window has wrapped |
| SpecWindow.SpecDecoder.Round | python/maxtoken/mlx_backend/worker.py:939-1086 | Loop invariant of the window: cache tokens ++ pending is prompt ++ emitted, 1 <= |pending| <= max_window, the head tracks the stream; kept by every round except, exactly, one that cuts a recorded window short behind a wrapped sliding window. A round emits at least one token, and all its rule lets through up to the first stop token that counts |
| SpecWindow.SpecDecoder.DecodeRequest | python/maxtoken/mlx_backend/worker.py:939-1086 | A whole greedy request with any drafter ends, and what the scheduler reads is plain greedy decoding, not one token less or more: at most limit tokens (one if the limit is zero), no counted stop token before the last one read, and the last one is such a token if the limit is not reached; no round has run past a stop token |
| SpecWindow.CutShortBehindWrap | python/maxtoken/mlx_backend/worker.py:1027-1043 | A run of prefill and one round on a recurrent layer and a one-row window: the recorded window is cut short, and the caches are no run of the stream |
| Rejection.ShapeRow | python/maxtoken/mlx_backend/spec_sample.py:129-148 | A shaped row is a probability law over the nucleus, normalized by its mass, or flat if that is zero: the likeliest candidates, the earlier first among equals, whose mass reaches top-p (or all of them), and without the last of which it stays below; all candidates if top-p is zero |
| Rejection.NucleusOnce | python/maxtoken/mlx_backend/spec_sample.py:136-141 | A row of candidates has exactly one nucleus for a given top-p |
| Rejection.RatioIs | python/maxtoken/mlx_backend/spec_sample.py:181-183 | A draft passes never where the drafter could not have drawn it, always where the target is at least as likely to draw it, and else with the quotient of the two |
| Rejection.BuildResidual | python/maxtoken/mlx_backend/spec_sample.py:182-192 | The residual dictionary is (P - Q)+ on the support of P |
| Rejection.VerdictStops | python/maxtoken/mlx_backend/spec_sample.py:169-196 | The loop stops at the first draft whose uniform is not below its ratio, or behind the last draft, and hands over the correction row there, or the last target row |
| Rejection.Accept | python/maxtoken/mlx_backend/spec_sample.py:169-196 | Every draft before the accepted count passes its test, the one at it does not, and the row the last token is drawn from is the correction row there, or the last target row |
| Rejection.StopsOnBox | python/maxtoken/mlx_backend/spec_sample.py:179-196 | The loop stops at a if and only if the uniforms lie in the box whose sides are [0, ratio) before a and [ratio, 1) at it: the event its probability is read off from |
| Rejection.SparseIsDense | python/maxtoken/mlx_backend/spec_sample.py:158-196 | The sparse correction row, once normalized by the draw, is the dense rule's correction distribution, token by token |
| Rejection.CommitLawIsTarget | python/maxtoken/mlx_backend/worker.py:780-806 | For any target law P and proposal law Q with the draft drawn from Q, the committed token has law exactly P |
| Rejection.RoundLawIsPlain | python/maxtoken/mlx_backend/worker.py:780-806 | For every chain length and every run of tokens, the committed chain continued by plain sampling has exactly the joint law of plain sampling from the target: the dense rule |
| Rejection.AcceptIsOutcome | python/maxtoken/mlx_backend/spec_sample.py:169-196 | The law of the sparse loop (over all stops, the measure of the stop's box times the law of the row drawn from there) is the dense rule's, draft chain by draft chain |
| Rejection.AcceptLawIsPlain | python/maxtoken/mlx_backend/spec_sample.py:169-196 | For any target and proposal rows, any chain length and any run of tokens: drafts drawn from the proposal, judged by the sparse loop and continued by plain sampling have exactly the joint law of plain sampling from the target |
| Rounds.MatchedExactly | python/maxtoken/mlx_backend/worker.py:1003-1007 | The matched count is where the samples first differ from the drafts, or all of them |
| Rounds.MatchLawIsPlain | python/maxtoken/mlx_backend/worker.py:999-1007 | Sample and match: for any draft chain whatever, what is committed against one independent target sample per position, continued by plain sampling, has exactly the joint law of plain sampling |
| Rounds.RoundsArePlain | python/maxtoken/mlx_backend/worker.py:939-1086 | A stream of rounds, each planned on what the ones before emitted and judged by either rule: after as many rounds as a run has tokens, the probability that the stream begins with the run is plain sampling's |
| SlotCaches.BatchFitsIffDistinct | python/maxtoken/mlx_backend/offload.py:390-407 | One batched install gives its experts distinct slots if and only if the batch fits the cache |
| SlotCaches.EverySlotPlaced | python/maxtoken/mlx_backend/offload.py:107-138 | Held and free slots partition the slot range |
| SlotCaches.LookupOrder | python/maxtoken/mlx_backend/offload.py:118-129 | What a lookup does, from the old order alone: the experts not asked for in their old order, then those found in the order asked for; hits and misses in the order asked for |
| SlotCaches.ExcludingKeepsOrder | python/maxtoken/mlx_backend/offload.py:118-129 | Taking experts out of an order leaves the others in their relative order |
| SlotCaches.EvictsOldest | python/maxtoken/mlx_backend/offload.py:131-138 | Whatever an access evicts is not of its request and stood before every other expert that stayed |
| SlotCaches.AssignAllKeepsLatest | python/maxtoken/mlx_backend/offload.py:131-142 | A batch of assignments keeps exactly the most recently used experts that fit |
| SlotCaches.LookupThenAssign | python/maxtoken/mlx_backend/offload.py:409-416 | A lookup followed by the install of its misses leaves all of up to S distinct experts resident together: none of them evicts another |
| SlotCaches.OwnerCheckIsResidency | python/maxtoken/mlx_backend/offload.py:662-664 | Whatever stale slots lut names, owner[lut[e]] == e if and only if e is resident, and then the slot holds e's weights |
| SlotCaches.InstallAgrees | python/maxtoken/mlx_backend/offload.py:390-407 | The scatter of weights, owners and lut entries of one batch keeps every view in agreement with the map from expert to weights |
| SlotCaches.SlotCache.Gather | python/maxtoken/mlx_backend/offload.py:662-668 | The lazy path's owner flag is residency, and with it set the gathered weights are the expert's |
| SlotCaches.SlotCache.Install | python/maxtoken/mlx_backend/offload.py:390-407 | Coherence is kept and the tracker is the old one with every missing expert assigned in turn |
| SlotCaches.SlotCache.Acquire | python/maxtoken/mlx_backend/offload.py:409-416 | All requested experts are resident at once; the recency order is the old one without them, then those found in the order asked for, then the missing, cut to the slots; what was evicted is not of the request and was used before everything else that stayed; both counters move by their counts |
| Admission.HottestFacts | python/maxtoken/mlx_backend/offload.py:696-703 | What an admission takes: routed experts only, as many as fit, in rising order of how often the chunk routed to them with ties in their given order; every routed expert left out is cooler than all of them |
| SlotCaches.SlotCache.AdmitFromFull | python/maxtoken/mlx_backend/offload.py:696-714 | Prefill admission keeps coherence, and the chunk's hottest experts are resident afterwards: hits refreshed, misses assigned behind them as the most recent, and what went was least recently used among the others |
| SlotCaches.SlotCache.AdmitFromBank | python/maxtoken/mlx_backend/offload.py:756-775 | Bank admission keeps coherence, and the hottest of the fetched experts are resident and most recent afterwards, each with its own bank row |
| SlotCaches.SlotCache.ServeRouted | python/maxtoken/mlx_backend/offload.py:599-650 | Whatever the admission filter installs or serves inline, every routed expert computes with its own weights; afterwards exactly those found or admitted of them are resident, the recency order follows from the old one, and counters move by hits and misses |
| SlotCaches.SlotCache.ServeBanked | python/maxtoken/mlx_backend/offload.py:716-754 | The two gathers combined by the residency mask give every routed expert its own weights, however many more experts than slots there are; counters move by hits and misses, the recency order follows from the old one, and the hottest of the missing are admitted |
| SlotCaches.SlotCache.Resize | python/maxtoken/mlx_backend/offload.py:440-456 | The most recently used experts survive with their weights, and their recency order is exactly reversed |
| OffloadDecode.StepNetSnoc | python/maxtoken/mlx_backend/offload.py:652-668 | The plain step through k + 1 layers is the step through k layers followed by layer k |
| OffloadDecode.StepContinuesRun | python/maxtoken/mlx_backend/worker.py:1113-1154 | A plain step on the caches of all but the last token of a run leaves the caches of the run and its hidden state |
| OffloadDecode.OffloadDecoder.LazyExperts | python/maxtoken/mlx_backend/offload.py:652-668 | The registered flag is true if and only if every routed expert is resident, and then the layer's output is the resident layer's; a dense layer has nothing to check |
| OffloadDecode.OffloadDecoder.Attempt | python/maxtoken/mlx_backend/worker.py:1127-1135 | A forward with no residency check writes each cache once, and is the resident model's as far as its flags are all true |
| OffloadDecode.OffloadDecoder.CommitToken | python/maxtoken/mlx_backend/offload.py:803-819 | True if and only if every layer's flag was; afterwards what every layer routed to is resident, and each layer's recency order is that of an access to its route |
| OffloadDecode.OffloadDecoder.RollBack | python/maxtoken/mlx_backend/worker.py:1139-1140 | A failed attempt leaves no trace in the caches |
| OffloadDecode.OffloadDecoder.FirstMissMovesOn | python/maxtoken/mlx_backend/worker.py:1126-1142 | If the first n layers hold their true routes, the attempt passes their checks and routes layer n truly: the first miss moves to a strictly later layer with every redo |
| OffloadDecode.OffloadDecoder.TryToken | python/maxtoken/mlx_backend/worker.py:1127-1140 | One attempt either yields the resident model's step or rolls back with one more layer's true route resident |
| OffloadDecode.OffloadDecoder.SpeculativeStep | python/maxtoken/mlx_backend/worker.py:1126-1142 | One attempt per layer with experts and one more always suffice, whatever dense layers lie between (the convergence error is never raised), and token state and caches are the fully resident model's |
| OffloadDecode.OffloadDecoder.SyncStep | python/maxtoken/mlx_backend/worker.py:1145-1152 | A synchronously served step is the resident model's step, whatever is served inline |
| OffloadDecode.OffloadDecoder.Generate | python/maxtoken/mlx_backend/worker.py:1092-1154 | Switching between the two ways of serving at will, the stream is the fully resident model's plain greedy decoding |
| OffloadWindow.ThenWindow | python/maxtoken/mlx_backend/offload.py:581-640 | Over a window, a layer with a network behind it is the layer's window forward and the network at every position |
| OffloadWindow.Serve | python/maxtoken/mlx_backend/offload.py:581-602 | Whichever of the three ways the batch is served, which its size decides, every routed expert comes with its own weights, the cache stays coherent, and order and counters are those of that way |
| OffloadWindow.ForwardWindow | python/maxtoken/mlx_backend/worker.py:966-968 | A window of any number of positions on the slot caches is the fully resident model's window forward |
| OffloadWindow.VerifyWindow | python/maxtoken/mlx_backend/worker.py:939-975 | A speculative round's forward with the experts on the slot caches keeps the very contract of the resident one: caches of the longer run, and each position's target state |
| Rebalance.RankedFacts | python/maxtoken/mlx_backend/offload.py:901-904 | The order is descending by pressure, equal layers in their own order, and lists no layer twice |
| Rebalance.TopUpFair | python/maxtoken/mlx_backend/offload.py:901-904 | If a layer gets one of the remainder slots, so does every layer under more pressure, and every earlier one under as much |
| Rebalance.RoundedShares | python/maxtoken/mlx_backend/offload.py:920-924 | Each share is the layer's part of the amount by pressure, or an even part where there is none, rounded down; what is left is less than one per layer |
| Rebalance.Clamp | python/maxtoken/mlx_backend/offload.py:911-917 | Cutting at the cap and the overflow add up to what was there; no overflow means nothing was cut |
| Rebalance.Spread | python/maxtoken/mlx_backend/offload.py:918-931 | A round hands out exactly the overflow, to open layers only: each gains its proportional part rounded down or one more slot, and the remainder slots go to the most pressured, the earlier first among equals |
| Rebalance.ApportionedOnce | python/maxtoken/mlx_backend/offload.py:894-904 | There is one such apportionment of an amount |
| Rebalance.ReachedOnce | python/maxtoken/mlx_backend/offload.py:889-931 | Miss deltas, budget, floor and expert count alone decide the targets |
| Rebalance.UncappedParts | python/maxtoken/mlx_backend/offload.py:894-904 | If the first distribution leaves every layer within the cap, each target is the base plus its proportional part of the rest, to within one slot |
| Rebalance.Targets | python/maxtoken/mlx_backend/offload.py:894-931 | For any miss deltas the loop ends, with targets between min(base, experts) and experts that sum to exactly min(total, layers times experts): they are reached by an even base, a proportional apportionment of the rest, and rounds that cut at the cap and apportion what that frees over the layers never above it; more pressure never means fewer slots |
| Rebalance.ShrinkFirstStaysWithin | python/maxtoken/mlx_backend/offload.py:932-942 | Resizing in the shrink-first order, no intermediate sum of slots passes the old total |
| Rebalance.OffloadState.ResizeAll | python/maxtoken/mlx_backend/offload.py:932-942 | Every cache ends at its target and stays coherent; the slot counts after each single resize are those of the shrink-first order, none summing up to more than the old total; changed tells whether anything moved |
| Rebalance.OffloadState.Rebalance | python/maxtoken/mlx_backend/offload.py:872-945 | Without a window of misses nothing moves; with one, the whole budget is placed within bounds and reached by those proportional rounds from the deltas, every cache stays coherent, and the slot counts after every single resize stay within the budget |
| Lifecycle.RunKeepsSound | python/maxtoken/daemon/serve_manager.py:258-402 | Every interleaving of client calls, auto-restarts, monitors and crashes keeps the whole invariant |
| Lifecycle.AtMostOneServe | python/maxtoken/daemon/serve_manager.py:264-325 | In every reachable state at most one serve process is alive |
| Lifecycle.QuietWhenUnlocked | python/maxtoken/daemon/serve_manager.py:258-402 | With the lifecycle lock free, neither the stopping nor the starting flag is set |
| Lifecycle.StopIsComplete | python/maxtoken/daemon/serve_manager.py:350-402 | A successful stop leaves no child and no process; one that found a child leaves it reaped and the state file empty |
| Lifecycle.AccountedRuns | python/maxtoken/daemon/serve_manager.py:366-391 | In every run each signal has a receipt of its generation before it that the manager has seen stored, each generation is reaped once and never without such a receipt or a latched gap, and no crash receipt is stored once such a receipt is known |
| Lifecycle.RestartsHonourStop | python/maxtoken/daemon/serve_manager.py:264-300 | Between a latched stop (or a lost crash receipt) and an automatic spawn there is always an explicit client start |
| Restarts.LaunchedExactly | python/maxtoken/daemon/serve_manager.py:766-815 | Over every run, the monitor that is done with a dead serve launches a restart if and only if restarting is on, no stop was under way or wanted when it found the serve dead, and none is latched now |
| Restarts.SpawnsAreLaunched | python/maxtoken/daemon/serve_manager.py:811-839 | No run spawns by itself more often than its monitors launched restarts |
| Restarts.CrashIsLaunched | python/maxtoken/daemon/serve_manager.py:758-839 | From every reachable state, a watched serve that died with no stop wanted is reaped and its restart launched, when its receipt can be stored |
| Restarts.RestartSpawns | python/maxtoken/daemon/serve_manager.py:264-300 | With the lock free, a launched restart spawns if and only if no stop and no shutdown is latched and no serve is there |
| Calls.SignalExactly | python/maxtoken/daemon/serve_manager.py:380-391 | A signal is sent exactly by a stop whose receipt is stored, or that goes on to force, to a serve not yet reaped |
| Calls.StopSucceeds | python/maxtoken/daemon/serve_manager.py:350-402 | From every reachable state with the lock free and a watched live serve, an undisturbed stop ends with the serve receipted, signalled once or, if it does not obey, twice, and reaped, and the state file empty |
| Calls.FailedStopGivesBack | python/maxtoken/daemon/serve_manager.py:331-402 | A stop whose serve outlives the kill leaves it the current one with nothing under way, and a shutdown that fails so lets starts in again |
| Calls.StopGoesOn | python/maxtoken/daemon/serve_manager.py:331-414 | What follows a completed stop: nothing, the end of a shutdown with the latch kept, or for a switch a new serve, published, saved and watched |
| Lifecycle.NothingAfterShutdown | python/maxtoken/daemon/serve_manager.py:331-348 | After a successful shutdown nothing runs and nothing is ever spawned |
| Lifecycle.MonitoredIffStarted | python/maxtoken/daemon/serve_manager.py:310-325 | A published serve has its monitor if and only if its state file could be saved and its threads could start; one without is never reaped and no stop of it succeeds |
| Lifecycle.UnwatchedServe | python/maxtoken/daemon/serve_manager.py:310-325 | A reachable state with a live published serve that nothing watches |
| Lifecycle.RecordLostExactly | python/maxtoken/daemon/serve_manager.py:786-801 | One step loses a running serve's record if and only if it is a predecessor's monitor erasing the state file late |
| Lifecycle.RecordKept | python/maxtoken/daemon/serve_manager.py:786-801 | With no late eraser around when the record is written, the record stands over every run as long as the serve does |
| Lifecycle.RecordErasedUnderLiveServe | python/maxtoken/daemon/serve_manager.py:786-801 | A reachable state with a live published serve and an empty state file |
| Lifecycle.SecondReceiptExactly | python/maxtoken/daemon/serve_manager.py:449-464 | From any reachable state, receipts carried over from an earlier daemon, late failures and collected receipts included, one step gives a generation another document if and only if it is a stop storing one of another id, or a crash receipt stored although one is in the outbox that the manager never saw stored |
| Lifecycle.TwoReceiptsExactly | python/maxtoken/daemon/serve_manager.py:449-547 | Over a whole run a generation ends with more than one document if and only if some step of the run was such a one; a reaped one whose crash receipt was not lost otherwise has exactly one |
| Lifecycle.TwoReceipts | python/maxtoken/daemon/serve_manager.py:449-547 | A reachable log with a crash receipt and behind it the receipt of a stop that was still preparing |
| Lifecycle.CarriedReceipt | python/maxtoken/daemon/accounting.py:71-76 | A reachable log with a stop receipt of an earlier daemon and behind it the crash receipt of the re-adopted serve |
| Lifecycle.LateReceipt | python/maxtoken/daemon/serve_manager.py:449-547 | A reachable log with a stop receipt stored by a call that failed late and behind it the crash receipt |
| Lifecycle.LateCrashReceipt | python/maxtoken/daemon/serve_manager.py:516-548 | A reachable log with a crash receipt that failed late, counts as lost, and has a stop receipt behind it |
| Lifecycle.RetriedStop | python/maxtoken/daemon/serve_manager.py:598-618 | A reachable log with two stop receipts of one generation, the second with other totals |
| Outbox.AccountingOutbox.Persist | python/maxtoken/daemon/accounting.py:62-94 | The first document of an id is the canonical one: a later call returns it unchanged, a late failure has stored it, an early one has stored nothing; a file that cannot be read back makes every call for its id fail and stays |
| Outbox.PersistTwice | python/maxtoken/daemon/accounting.py:62-94 | Retrying a stop reuses the first receipt, even if the first call reported an error after its rename; behind a file that cannot be read both fail |
| Outbox.AccountingOutbox.Pending | python/maxtoken/daemon/accounting.py:96-107 | Every unacknowledged receipt once, ordered by creation time, then id; an error exactly if the directory cannot be listed or one file cannot be read |
| Outbox.AccountingOutbox.Ack | python/maxtoken/daemon/accounting.py:109-123 | The receipt is gone afterwards, all others stay, and a repeat says so; an unlink that fails is an error and leaves everything |
| ServerSeal.FinalExactly | python/maxtoken/server/accounting.py:61-108 | Over every run that does not reopen the gate the sealed totals stay the totals, if and only if the gate is shut and no worker, old ones included, holds a request |
| ServerSeal.BrokenExactly | python/maxtoken/server/api_server.py:254-305 | One step breaks a seal that stands if and only if it reopens the gate or is a late reply that brings tokens |
| ServerSeal.SealHolds | python/maxtoken/server/accounting.py:61-108 | Once no worker holds a request, over every run that never reopens the gate the seal stands and its totals are the totals |
| ServerSeal.HeldAreInflight | python/maxtoken/server/api_server.py:649-690 | As long as nothing was reloaded, workers hold only requests the server still waits for |
| ServerSeal.InflightExactly | python/maxtoken/server/stats.py:63-90 | Over every run, a request is in flight if and only if it was admitted and neither a last reply nor a reload while its client waited has answered it |
| ServerSeal.AnswerableExactly | python/maxtoken/server/stats.py:63-90 | Some run answers a request in flight for good if and only if a worker works on it or its client waits |
| ServerSeal.OrphanStays | python/maxtoken/server/accounting.py:70-92 | While nobody does, it stays in flight over every run and nothing is ever sealed |
| ServerSeal.LeftBehind | python/maxtoken/mlx_backend/worker.py:1669-1678 | A run without a reload that leaves such a request behind: its client went away and the worker dropped it without a last reply |
| ServerSeal.TotalsAreDelivered | python/maxtoken/server/stats.py:63-90 | The totals are the sum of all tokens delivered since the last reload |
| ServerSeal.SealIsComplete | python/maxtoken/server/accounting.py:61-108 | A sealed receipt carries every token delivered since the last reload, aborted requests' tokens included, with nothing in flight; it is final if and only if the gate is still shut and no worker holds a retired request, and without any reload if and only if the gate is shut |
| ServerSeal.LateReplyBreaksSeal | python/maxtoken/server/api_server.py:254-264 | A run that seals (0, 0) after a reload and then moves the totals to (3, 5) by an old worker's reply, with the gate shut all along |
| ServerSeal.ReloadBreaksSeal | python/maxtoken/server/api_server.py:649-690 | A run in which a sealed server admits requests again and its totals start over under the sealed receipt |
| PrefixBlocks.HashNamesPrefix | python/maxtoken/mlx_backend/prefix_disk.py:106-117 | With a collision-free digest, two chain hashes are equal if and only if depth and whole prefix are |
| PrefixBlocks.ChainHashes | python/maxtoken/mlx_backend/prefix_disk.py:106-117 | The loop yields the hash of every leading run of blocks |
| PrefixBlocks.RowsGrow | python/maxtoken/mlx_backend/prefix_disk.py:640-660 | Attention rows of a prefix are a prefix of the rows |
| PrefixBlocks.SliceIsBlock | python/maxtoken/mlx_backend/prefix_disk.py:662-672 | A block sliced out of any longer run's cache is the block of its own prefix |
| PrefixBlocks.RestoredIsRun | python/maxtoken/mlx_backend/prefix_disk.py:532-568 | Concatenated blocks and the recurrent states behind them are the caches of running those tokens |
| PrefixDisk.RestoreLeavesOne | python/maxtoken/mlx_backend/prefix_disk.py:119-123 | Blocks up to the limit are exactly those behind which a prompt token is left |
| PrefixDisk.Measure | python/maxtoken/mlx_backend/prefix_disk.py:421-423 | The store's size is the sum over its blocks |
| PrefixDisk.DiskStore.constructor | python/maxtoken/mlx_backend/prefix_disk.py:340-372 | Only blocks whose rows' file is there in the listed size come back, states likewise, and listed states without rows are deleted; every file is answered for if and only if the manifest lists it in its size |
| PrefixDisk.DiskStore.Deepest | python/maxtoken/mlx_backend/prefix_disk.py:503-510 | The deepest position with every row ready and the last state ready |
| PrefixDisk.DiskStore.Lookup | python/maxtoken/mlx_backend/prefix_disk.py:495-514 | Returns the deepest usable depth with a token left to process, or nothing if there is none |
| PrefixDisk.DiskStore.UsableIsOnDisk | python/maxtoken/mlx_backend/prefix_disk.py:495-514 | As long as ready blocks have their files, what lookup calls usable can be read |
| PrefixDisk.DiskStore.Restore | python/maxtoken/mlx_backend/prefix_disk.py:532-583 | A restored cache equals running the first i blocks, and exactly the chain is refreshed; otherwise nothing is returned and exactly the chain is dropped; it fails if and only if a file is missing or unreadable |
| PrefixDisk.DiskStore.Victim | python/maxtoken/mlx_backend/prefix_disk.py:461-470 | The oldest evictable block, the deepest among equals |
| PrefixDisk.DiskStore.MakeRoom | python/maxtoken/mlx_backend/prefix_disk.py:453-471 | True means the bytes fit budget and backlog, counted and, but for loose files, on disk; only unpending, unprotected blocks go, oldest first, and no more than was needed; False means the backlog is full or nothing evictable is left |
| PrefixDisk.DiskStore.Drop | python/maxtoken/mlx_backend/prefix_disk.py:473-479 | A block goes with both its files, and nothing else does |
| PrefixDisk.DiskStore.Missing | python/maxtoken/mlx_backend/prefix_disk.py:617-625 | The depths whose rows are neither stored nor on their way |
| PrefixDisk.DiskStore.Dispatch | python/maxtoken/mlx_backend/prefix_disk.py:640-704 | Every job of a snapshot carries the data its hash names, at its own depth and size |
| PrefixDisk.DiskStore.Flush | python/maxtoken/mlx_backend/prefix_disk.py:684-726 | The snapshot's jobs join the queue behind what was there, all of them if they fit, and each unless the backlog is full or nothing may be evicted; the file in the writer's hands can only vanish under its block by one of them |
| PrefixDisk.DiskStore.Enqueue | python/maxtoken/mlx_backend/prefix_disk.py:684-704 | The backlog counter moves by exactly the queued bytes, which then fit budget and backlog, and the block is stamped and marked pending; a job is refused only if no room can be made; a block comes to stand without the file just written only by a queued job for that same block |
| PrefixDisk.DiskStore.WriteFile | python/maxtoken/mlx_backend/prefix_disk.py:816-832 | Outside the lock only files change, every file keeps the data its name stands for, and the file just written is there |
| PrefixDisk.DiskStore.Settle | python/maxtoken/mlx_backend/prefix_disk.py:833-848 | The backlog counter falls by the job; the block counts the written file's size and is ready, or the orphaned file goes, or a failed write of rows takes the block along, and nothing else changes; that every ready block has its file survives if and only if the written file has not vanished meanwhile |
| PrefixDisk.DiskStore.CountedOnDisk | python/maxtoken/mlx_backend/prefix_disk.py:421-422 | What the blocks count and what no block answers for bounds the bytes on disk; with nothing in the writer's hands it is exactly that if and only if every ready block has its files |
| PrefixDisk.DiskStore.DirectoryCounted | python/maxtoken/mlx_backend/prefix_disk.py:453-471 | Behind every run from a store all of whose files are answered for, the counted bytes bound the directory but for the file in the writer's hands, and with none there are exactly the directory's if and only if every ready block has its files |
| PrefixDisk.LeftoverUncounted | python/maxtoken/mlx_backend/prefix_disk.py:340-372 | A run: a store reopened on a file its manifest does not list finds room although the directory is over the budget |
| DiskRuns.RunStrays | python/maxtoken/mlx_backend/prefix_disk.py:453-848 | No run of store operations leaves a file that neither a block nor the writer answers for, unless it was there before |
| DiskRuns.VanishedExactly | python/maxtoken/mlx_backend/prefix_disk.py:816-848 | Over a run of store operations, the file in the writer's hands has vanished under its block if and only if, since it was written, the block was removed and then queued again |
| DiskRuns.BackedExactly | python/maxtoken/mlx_backend/prefix_disk.py:816-848 | A run ends with every ready block backed by its file if and only if no part was settled in that state, with neither a removal nor another write since |
| PrefixDisk.DiskStore.ReadyExactly | python/maxtoken/mlx_backend/prefix_disk.py:684-848 | The same of the store itself, whose methods lead from state to state by such operations alone |
| PrefixDisk.ReadyWithoutFile | python/maxtoken/mlx_backend/prefix_disk.py:571-583 | A run that ends with a ready block whose file is gone |
| PrefixRam.Usable | python/maxtoken/mlx_backend/prefix_cache.py:136-147 | The longest prefix one snapshot can serve: anywhere in a shared prefix if trimmable, else only whole, always leaving one token |
| PrefixRam.PrefixStore.Best | python/maxtoken/mlx_backend/prefix_cache.py:132-147 | No entry serves more than the returned one |
| PrefixRam.PrefixStore.Lookup | python/maxtoken/mlx_backend/prefix_cache.py:124-153 | Sound, optimal among all entries, never below the minimum match; only the returned entry's recency changes, hits move exactly on a hit and misses otherwise |
| PrefixRam.TrimmedIsRun | python/maxtoken/mlx_backend/prefix_cache.py:163-167 | Trimming every layer by the overshoot is the shorter run |
| PrefixRam.PrefixStore.Restore | python/maxtoken/mlx_backend/prefix_cache.py:155-168 | A restored cache is the run of the first n tokens |
| PrefixRam.PrefixStore.Evict | python/maxtoken/mlx_backend/prefix_cache.py:115-122 | Meets the budget or keeps only the newest entry; what goes was used no later than what stays, and no more goes than was needed |
| PrefixRam.PrefixStore.Insert | python/maxtoken/mlx_backend/prefix_cache.py:99-113 | Every entry is the run of its tokens and trimmable exactly if that run is; the same tokens are superseded, not duplicated |
| PrefixRam.Remember | python/maxtoken/mlx_backend/worker.py:1398-1423 | With a layer that can be trimmed, attention or a sliding window not yet full, a cache is donated if and only if it is at the tokens, or past them and every layer can be trimmed, and then it is their run; without one it is donated unchecked, as it is |
| PrefixRam.FinishRequest | python/maxtoken/mlx_backend/worker.py:1281-1307 | A request that ends anywhere in a speculative round donates if and only if its caches stand right behind its tokens, or past them and all trimmable, or no layer can be trimmed; in the last case every entry is faithful if and only if the caches happen to be the tokens' run, which with a sliding window means they stand right behind the tokens |
| PrefixRam.UncheckedDonation | python/maxtoken/mlx_backend/worker.py:1414-1423 | A purely recurrent model whose cache, one token ahead, is donated: the store holds an entry that is not the run of its tokens |
| TrieScore.Disambiguate | python/maxtoken/system_one.py:127-137 | Each candidate stays or gains the stop token, and gains it exactly if it is a strict non-empty prefix of another |
| TrieScore.ClosedApart | python/maxtoken/system_one.py:127-137 | No closed candidate is a strict prefix of another |
| TrieScore.DisambiguatePrefixFree | python/maxtoken/system_one.py:119-137 | The closed set always passes the code's own test; it is prefix-free if and only if no empty candidate stands beside a non-empty one |
| TrieScore.EmptyCandidate | python/maxtoken/system_one.py:119-137 | A run on an empty and a one-token candidate: the closed set is not prefix-free |
| TrieScore.Kraft | python/maxtoken/system_one.py:369-378 | The path probabilities of any finite prefix-free set sum to at most one |
| TrieScore.ClosedCandidatesSubdistribution | python/maxtoken/system_one.py:369-386 | The closed answers' probabilities form a sub-distribution |
| TrieScore.TrieWalker.Group | python/maxtoken/system_one.py:392-394 | The branches at a node partition its candidates by next token |
| TrieScore.TrieWalker.Descend | python/maxtoken/system_one.py:390-409 | Every candidate at the node gains the sum of its remaining conditional log-probabilities, no other total changes; fails exactly if a longer candidate needs a cache and there is none |
| TrieScore.WalkTrie | python/maxtoken/system_one.py:369-412 | Each total is the sum of the conditional log-probabilities along its candidate's path |
| TrieScore.ScoreIsPath | python/maxtoken/system_one.py:369-412 | Under any exponential that turns sums into products, a candidate's total is the logarithm of its path's probability |
| TrieScore.TotalsSubdistribution | python/maxtoken/system_one.py:369-412 | The exponentials of the totals that the walk leaves for distinct non-empty candidates, once closed, sum to at most one |
| Codec.RoundTrip | python/maxtoken/message/utils.py:15-82 | For every nesting of scalars, bytes, lists, tuples, one-dimensional arrays, objects and free-form dictionaries, decoding the encoding returns the value if and only if every object is of a registered class not named like the array tag |
| Codec.EncodingIsWire | python/maxtoken/message/utils.py:15-44 | An encoding holds no array and no object at any depth |
| Codec.SelfEncoded | python/maxtoken/message/utils.py:15-44 | An encoding is the value itself if and only if that holds no array, no object and no dictionary with a reserved key |
| Codec.ObjectsLost | python/maxtoken/message/utils.py:29-82 | An object of a class nobody registered, and one of a registered class called like the array tag, do not come back |
| Codec.DictReturns | python/maxtoken/message/utils.py:15-22 | A dictionary comes back exactly if its values do, whatever keys it has, the two reserved ones included |
| Codec.ObjectReturns | python/maxtoken/message/utils.py:29-44 | An object comes back exactly if its class is registered under a name other than the array tag and its attributes come back |
| Codec.ArrayReturns | python/maxtoken/message/utils.py:33-38 | An array of a known dtype comes back with its bytes |
| Codec.SerializeObject | python/maxtoken/message/utils.py:29-44 | The attribute loop builds the object's encoding |
| Codec.DeserializeObject | python/maxtoken/message/utils.py:64-82 | The keyword loop decodes the object, or fails as the decoding does |
| TopK.TopUnique | python/maxtoken/mlx_backend/_a3b_whole_moe_kernels.py:343-360 | There is only one descending top-k list of a pool |
| TopK.OffersWinner | python/maxtoken/mlx_backend/_a3b_whole_moe_kernels.py:371-383 | Reducing over each lane's better slot finds the same winner as over all slots |
| TopK.GroupTop | python/maxtoken/mlx_backend/_a3b_whole_moe_kernels.py:343-360 | A group's ranks are its top k by probability, ties to the larger index; other groups' scratch is untouched |
| TopK.Merge | python/maxtoken/mlx_backend/_a3b_whole_moe_kernels.py:363-390 | The merge extracts the top k of the whole scratch |
| TopK.MergedTop | python/maxtoken/mlx_backend/_a3b_whole_moe_kernels.py:363-390 | The top k of the groups' top k is the top k of all experts |
| TopK.TwoStageTopK | python/maxtoken/mlx_backend/_a3b_whole_moe_kernels.py:340-407 | For any group count and width, the emitted list is the unique global top k, ties to the larger index, in ascending rank order |
| PackedMatmul.FieldIsCode | python/maxtoken/mlx_backend/verify_qmm.py:207-225 | Each of the sixteen six-bit extractions reads its own bits of the stream, word-straddling ones included |
| PackedMatmul.LanesCover | python/maxtoken/mlx_backend/verify_qmm.py:150-175 | Lane-strided packs cover a segment, each pack once |
| PackedMatmul.SplitsCover | python/maxtoken/mlx_backend/verify_qmm.py:345-365 | Split-K segments cover the depth, each pack once |
| PackedMatmul.PacksCover | python/maxtoken/mlx_backend/verify_qmm.py:90-125 | Summing packs is summing every position |
| PackedMatmul.PackBlock | python/maxtoken/mlx_backend/verify_qmm.py:90-125 | One pack's contribution to each of the 4m cells is the exact partial product with the dequantized weights |
| PackedMatmul.Tile | python/maxtoken/mlx_backend/verify_qmm.py:150-204 | A simdgroup writes each cell of its four columns once, with the segment's exact sum, and no other cell |
| PackedMatmul.Kernel | python/maxtoken/mlx_backend/verify_qmm.py:128-204 | A launch writes every covered cell exactly once |
| PackedMatmul.SinglePass | python/maxtoken/mlx_backend/verify_qmm.py:471-481 | Every covered cell is the exact product of its row and dequantized column |
| PackedMatmul.SplitPass | python/maxtoken/mlx_backend/verify_qmm.py:457-470 | Summing the parts of the split launch gives the exact product |
| PackedMatmul.VerifyQmm | python/maxtoken/mlx_backend/verify_qmm.py:437-481 | For every layout, split or not, with a tile that divides the columns, every cell is the exact product |
| PackedMatmul.LaunchCoversIff | python/maxtoken/mlx_backend/verify_qmm.py:418-446 | Every column has a threadgroup if and only if the tile the launch uses divides the columns |
| PackedMatmul.EligibleUncovered | python/maxtoken/mlx_backend/verify_qmm.py:418-446 | A shape the test lets through whose columns are not all covered |
| PackedMatmul.GroupsWithinIff | python/maxtoken/mlx_backend/verify_qmm.py:418-434 | Every position's group lies in its own row if and only if the group size divides the depth |
| PackedMatmul.EligibleUngrouped | python/maxtoken/mlx_backend/verify_qmm.py:418-434 | A shape the test lets through whose depth the group size does not divide |
| LogStream.LogRing.Append | python/maxtoken/daemon/logring.py:30-44 | Numbers are consecutive and the oldest record goes once the ring is full |
| LogStream.LogRing.Since | python/maxtoken/daemon/logring.py:46-51 | Exactly the held records from the cursor on, in order, and the next number |
| LogStream.Open | python/maxtoken/daemon/app.py:309-322 | The handover state: replay from the oldest held record at or after the client's cursor, with the lost prefix reported |
| LogStream.DeliveryIncreases | python/maxtoken/daemon/app.py:281-344 | From the handover on, delivered numbers strictly increase, whatever the order of callbacks, takes and sends |
| LogStream.PipelineKept | python/maxtoken/daemon/app.py:290-344 | With fan-out in order, from any pipeline state the frames tile up to the last number sent if and only if no send was torn: nothing was dropped between a record's take and its send that the next report then counts; nothing is skipped otherwise |
| LogStream.EveryNumberAccounted | python/maxtoken/daemon/app.py:281-344 | With fan-out in order, the frames tile every number from the client's cursor to the last sent if and only if no send was torn |
| LogStream.TilesOnce | python/maxtoken/daemon/app.py:330-341 | In such a stream exactly one frame, a record or a gap report, speaks of each number |
| LogStream.TornTake | python/maxtoken/daemon/app.py:326-341 | A drop between take and send: a report of two lost records that spans three numbers |
| LogStream.LostSilentlyExactly | python/maxtoken/daemon/app.py:290-344 | In whatever order records are fanned out, a live number is lost with neither a line nor a report if and only if it leaves the queue behind a larger one that was already sent |
| LogStream.ReportsAddUp | python/maxtoken/daemon/app.py:281-344 | In whatever order records are fanned out, the counts of all reports, the pending one included, add up to the records the ring had evicted and those a full queue cut |
| LogStream.LateFanOut | python/maxtoken/daemon/logring.py:34-44 | Out-of-order fan-out: a record neither sent nor reported |

## Left out

- SpecWindow.SpecDecoder.Round: the rejection verdict comes in as a parameter; its law is proved in `Rejection`, and that of a stream of rounds in `Rounds`.
- Network.WindowForwardIsDecode: a sliding window holds its last rows and the offset; the pinned first rows and the surplus rows that the library keeps for a while behind a window are not part of this model.
- SpecWindow.SpecDecoder.DecodeRequest: greedy requests only, as sampled ones have no single stream; with recording on, the model's sliding windows are wide enough for the whole request, which is what `Round` names as its exact condition, round by round; stop strings, and the logprob rows that go with the tokens, are not modelled.
- MtpHistory.MtpDrafter.Draft: the head, its shaped densities and the draw are arbitrary functions of its entries.
- Rounds.RoundsArePlain: stop tokens and limits, which cut a stream, are left out.
- Rejection.AcceptLawIsPlain: the uniforms are independent and uniform on [0, 1), so that a box has the product of its sides for its measure; floating-point rounding, the epsilon inside the dense draw and the host generator are left out; temperature and top-k enter as the row's candidates.
- Rejection.ShapeRow: the row keeps its candidates in their given order, where the code leaves it sorted once top-p is on; no probability depends on it.
- GdnCapture.CommitPrefix: attention masks and the fused projection are part of the layer functions.
- SlotCaches.SlotCache.ServeRouted: the admission filter's window is a parameter that may pick any experts; read-ahead and prefetch only move bytes earlier and are left out.
- SlotCaches.SlotCache.Install: one buffer of weights stands for the nine parts, and the recency map is a value the methods reassign.
- OffloadWindow.VerifyWindow: it has the contract of `SpecDecoder.Forward`, whose caller stays the resident model's decoder.
- OffloadDecode.OffloadDecoder.Generate: the redo average that picks between the two ways of serving is a parameter; sampling is greedy.
- Restarts.LaunchedExactly: whether restarting is on is a choice of the step.
- Rebalance.OffloadState.Rebalance: the even split of `resize_total` is left out.
- Lifecycle.AtMostOneServe: generations are numbered, so child identities are distinct, and waiting on a child does not fail; the manager is a value stepped by interleaved atomic actions, not a class. Start arguments are left out, so an idempotent start and a conflicting one both return without an effect.
- Lifecycle.TwoReceiptsExactly: documents are counted by receipt id, so one that was collected and stored again under its id counts once; what ids a stop's receipt gets is a choice.
- Lifecycle.StopIsComplete: signals are requests; a process dies by a step of its own, and timeouts are choices.
- ServerSeal.SealIsComplete: workers report tokens only for requests they themselves were given and have not finished; timeouts are choices.
- PrefixDisk.DiskStore.MakeRoom: a file's size is a parameter of its write, and what it has beyond its job's bytes is counted once it is settled.
- PrefixDisk.DiskStore.ReadyExactly: it speaks of runs that start with an idle writer and every ready block backed, as a reopened store does.
- PrefixDisk.DiskStore.Restore: SHA-256 is taken to be collision-free; the safetensors and manifest formats, the in-memory window of recurrent states behind `done`, and the choice of cut points are left out.
- PrefixRam.PrefixStore.Insert: byte counts come in as parameters.
- TrieScore.WalkTrie: empty candidates are excluded, where the source raises an index error; prompt rendering, temperature and calibration are left out.
- Codec.RoundTrip: the transport bytes under the dictionaries are left out; array elements are bytes of a known item size.
- TopK.TwoStageTopK: the softmax before it and the normalization of the scores after it are left out.
- PackedMatmul.VerifyQmm: arithmetic is exact; the threadgroup grid is walked in order, and operands are indexed by row and position.
- LogStream.EveryNumberAccounted: subscription and snapshot are one handover state; heartbeats and disconnects are left out.
- Batched decoding: the step over the mlx-lm batch generator is not part of this model.
- The two prefill planners by themselves: chunk widths are parameters.
- Process spawning, HTTP, message queues, device sensors and configuration: only the success or failure of a call is kept.
- Benchmarks, health and statistics documents, and the command-line tools.
