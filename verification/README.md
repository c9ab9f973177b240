# Verification model of ask_fable's stateful cores

This project models, in Dafny, the parts of ask_fable that carry state across calls or loops,
and proves properties that range over whole runs of them. What the outside says (models,
sandboxes, servers, disks, daemons, clocks) enters as arbitrary values. `dafny verify
dfyconfig.toml` checks everything. Code that updates things step by step in the source is a
class or a method with loops here, each proved equal to a function on values or to what the
source promises outright; the theorems are about those functions.

| files | what they model |
|---|---|
| `ContraGraph`, `FalsifyLedger`, `FalsifyClerk` | the ledger of `ask_falsify`, its contradiction graph, and the clerk that turns model output into ledger moves |
| `FalsifyInvariants`, `FalsifyFixpoint`, `FalsifySurvival` | what every reachable ledger satisfies; why the compact signature detects a fixpoint; what it takes to survive, to stay dead and to be believed |
| `LmInflight`, `LmSwap`, `LmSwapRules` | LM Studio: the in-process chat/unload protocol over all interleavings; the load, reload and swap decision against a server with arbitrary answers, and the rules it keeps |
| `LineBreaks`, `SafeFs`, `IndexWindows`, `IndexStore` | the bounded-memory range reader, the line windows of the code index, and incremental indexing with chunk ids that are reused |
| `Resolver` | the budgeted context packer |
| `Bytes`, `Utf8`, `Base64`, `EnvelopeCodec`, `RollbackGuard`, `BusDaemon`, `LedgerStore` | the LAN context bus: envelope codec, rollback mark, guarded upsert, nonce window; the versioned store that carries the ledger |
| `Breaker`, `Hub` | the circuit breaker and the session hub's materialised view |
| `Text` | Python string operations the others use |

## Where the code differs from what one might expect

- The fixpoint test is exact on every ledger with distinct claim ids, not only on reachable
  ones, although it compares ids, statuses and lengths only: within a round a reopened claim
  always gains a receipt, and every attempt that counts shows as an attempt or a status.
- A claim's accepted kills are not merely bounded by reopens + 1: they are exactly reopens,
  plus one while it is killed.
- The clerk's cycle test never refuses: the contradicting claim is new, so no edge leads to it
  (`FalsifyInvariants.OnlySurvivorsAreContradicted`).
- The load decision's exit `never appeared as loaded` names nobody, also after residents were
  taken down for it and not put back: `LmSwapRules.ResidentLostUnnamed` is such a call,
  `LmSwapRules.NamedExactly` the exact condition.
- A swap that gives up restores a resident exactly only if the build reported its window; an
  unreported window (0) is reloaded at the server's default
  (`LmSwapRules.RestoredExactlyWhenReported`).
- The send protocol is proved safe under the assumption that a worker enters `_generating`
  before its caller's count is dropped; nothing in the code makes it so. A late worker is
  harmless exactly under `LmInflight.LateWorkerCondition`; two runs where it is not are
  `LateWorkerMeetsUnload` and `LateWorkerFindsModelGone`.
- The module text of `lmstudio.py` says that after an ambiguous crash only a probe that loads
  proves memory, and that a probe that failed or could not be freed must not lead to an unload
  (lines 36-40 and 798-804). Line 1142 also takes the wording of the probe's detail, which may be
  the server's or only the model's key in the code's own sentence. Another resident is never
  unloaded without evidence from the server (`LmSwapRules.DecidedOk`), but it is unloaded after an
  unproven probe exactly under `LmSwapRules.UnloadAfterProbeExactly`; two such calls are
  `UnloadedAfterProbeFailed` and `UnloadedOnTheKeysWord`.
- `index` without `force` trusts the digest: a file whose text changed but whose digest did not
  keeps its old chunks (`IndexStore.CollisionKeepsOldChunks`). With no assumption on the hash,
  incremental equals rebuild exactly under `IndexStore.IncrementalIsRebuildExactly`; a hash that
  does not collide on the texts at hand is enough (`IndexStore.NoCollisionNothingStale`).
- `index` checks the total number of vectors, not the number per batch of 64. A host that
  miscounts in two batches can shift vectors unnoticed (`IndexStore.MiscountedIndexing`); the
  stored vectors are right exactly under `IndexStore.EmbedIsTrueExactly` and, in terms of the
  counts per batch, `IndexStore.CountsPerBatchDecide`.
- `is_sealed` looks at neither the declared writer length nor the writer, so it recognises some
  values that do not parse (`EnvelopeCodec.SealedButUnparsable`); the exact condition is
  `EnvelopeCodec.SealedParsesExactly`.
- The daemon's put handler catches the codec's own errors and no others. A writer that cannot be
  decoded, an infinite number, and, once all checks have passed, a surrogate or a number beyond
  64 bits raise past it, and the request gets no answer: exactly under
  `BusDaemon.UnansweredExactly`, with one request of each kind in `BusDaemon.EachKindIsUnanswered`.
- The same holds of a signed header whose timestamp is too large for a float
  (`BusDaemon.NoAnswerExactly`).
- The nonce's retention of twice the skew covers a request whose skew check and claim read the
  same time. The code reads the clock twice: a replay that waits in between can find its nonce
  evicted (`BusDaemon.RetentionIsExact`, `BusDaemon.RetentionInUse`).
- The daemon's timestamp floor drifts by up to one slack per accepted put and this is attained;
  the reader's mark does not drift. A sweep or a deletion that removes the row restarts the floor
  (`BusDaemon.RemovalRestartsFloor`), and a sweep with a cap of one removes even a writer's newest
  row (`BusDaemon.SweepCanRemove`). If-Match is not compared when the key is absent.
- The docstring of `Breaker.record` promises 5 fresh calls after a close; the closing success
  is kept as a sample, so under the default settings 4 further errors open it again. The
  settings under which the promise holds are `Breaker.FiveFreshCallsExactly`.
- Deleting the ledger's row restarts its versions, so a run that is behind can overwrite a
  ledger it never saw (`LedgerStore.DeletionBreaksIt`); `LedgerStore.SafeSaveExactly` says
  exactly when a landing save replaces the row its run knows.
- The module text of `resolver.py` says that after an overflow every later spec is skipped;
  ranges held under the overflowing file itself are still tried (`resolver.py:158-165`):
  `Resolver.RangeEntersAfterOverflow`, exactly under `Resolver.EntersAfterOverflowExactly`.
- It also says a range dropped for an admitted whole file is present in it. One that starts past
  the end of the file is not, and is not reported either (`Resolver.PastEndIsDropped`); the exact
  conditions are `Resolver.CoveredRangeExactly` and `Resolver.CompleteLosesNothingExactly`.
- The hub's view needs no clock common to all sessions: exactly, no write may be older than the
  row of its own session (`Hub.ViewHoldsExactly`).

## Model

| member | source | states |
|---|---|---|
| `ContraGraph.HasCycle` | src/ask_fable/falsify_ledger.py:149-167 | the depth-first search terminates on every graph and answers true exactly when `dst` already leads to `src` with the new edge added; on an acyclic graph that is exactly when the edge creates a cycle, self edges included |
| `ContraGraph.BuildAdjacency` | src/ask_fable/falsify_ledger.py:152-156 | the adjacency map holds the contra edges on file and the proposed one, and no edge of another relation |
| `ContraGraph.NewEdgeClosesCycle` | src/ask_fable/falsify_ledger.py:149-150 | on an acyclic graph, leading back over the new edge and the new graph having a cycle are the same thing |
| `FalsifyLedger.ApplyAsserts` | src/ask_fable/falsify_ledger.py:205-246 | the loop yields the fold of single ingests, the ids accepted and the raw claims rejected, in order |
| `FalsifyLedger.CheckContra` | src/ask_fable/falsify_ledger.py:170-178 | a contradiction is admissible exactly when both claims exist, the target survived and no cycle would close |
| `FalsifyLedger.Resolve` | src/ask_fable/falsify_ledger.py:294-308 | every claim gets the status its kills, receipts and attempts call for; nothing else moves |
| `FalsifyClerk.ClerkAsserts` | src/ask_fable/falsify.py:130-157 | stamping, scrubbing, ingesting and judging only the receipts of this turn give the ledger of the specification |
| `FalsifyClerk.JudgeAccepted` | src/ask_fable/falsify.py:143-156 | only accepted claims are judged, each from the number of receipts it held before the turn |
| `FalsifyClerk.JudgeReceipts` | src/ask_fable/falsify.py:149-156 | receipts already held keep their verdict; new cites and runs get the clerk's |
| `FalsifyClerk.ClerkMetamorph` | src/ask_fable/falsify.py:292-306 | only open, unsupported claims without a clerk receipt are probed; each gains at most one receipt |
| `FalsifyClerk.ClerkAttacks` | src/ask_fable/falsify.py:160-219 | the attack loop is the fold of single attacks over the ledger each leaves behind; dead and unknown targets are skipped |
| `FalsifyClerk.ClerkContra` | src/ask_fable/falsify.py:177-199 | the contra branch: a new id with a quote in the corpus is registered, and kills only an admissible target; otherwise the attempt counts as withstood |
| `FalsifyClerk.CreditSurvivors` | src/ask_fable/falsify.py:309-317 | one credit per claim that is survived now and was not before |
| `FalsifyClerk.PlayRound` | src/ask_fable/falsify.py:415-447 | one pass of the round loop is asserts, optional metamorph, attacks, resolve, credits, round number and phase, in that order |
| `FalsifyClerk.PlayRounds` | src/ask_fable/falsify.py:415-454 | the loop plays a prefix of its rounds and stops early exactly after the first round that ends in a fixpoint |
| `FalsifyInvariants.BumpTotals` | src/ask_fable/falsify_ledger.py:313-320 | a bump moves exactly one counter by one, summed over all buckets |
| `FalsifyInvariants.IngestOk` | src/ask_fable/falsify_ledger.py:192-246 | an assert, legal or not, keeps the ledger invariant |
| `FalsifyInvariants.RecordKillOk` | src/ask_fable/falsify_ledger.py:249-264 | recording an attempt on a live claim adds exactly its accepted count and keeps claims and graph in order |
| `FalsifyInvariants.SlainOk` | src/ask_fable/falsify.py:202-218 | an accepted kill together with its two reputation bumps keeps total kills = total deaths = accepted kills on file |
| `FalsifyInvariants.ContraMoveOk` | src/ask_fable/falsify.py:177-199 | every way a contra move can end keeps the invariant, the graph acyclic included |
| `FalsifyInvariants.AttackedOk` | src/ask_fable/falsify.py:160-219 | any list of attacks keeps the invariant |
| `FalsifyInvariants.RoundOk` | src/ask_fable/falsify.py:415-447 | any round, whatever both models and the sandbox say, keeps the invariant |
| `FalsifyInvariants.ReachableOk` | src/ask_fable/falsify.py:415-454 | every ledger reachable from a new one satisfies the invariant |
| `FalsifyInvariants.KillDiscipline` | src/ask_fable/falsify_ledger.py:192-264 | in every reachable ledger a claim is killed iff it has an accepted unaddressed kill, reopens at most 3 times, has exactly reopens + [killed] accepted kills, and total kills = total deaths = accepted kills on file |
| `FalsifyInvariants.ContradictionsAreGrounded` | src/ask_fable/falsify_ledger.py:149-178 | in every reachable ledger contradictions never run in a circle, name only claims on file, and claim ids are distinct |
| `FalsifyInvariants.FreshSourceNeverCycles` | src/ask_fable/falsify.py:181-191 | an edge out of a claim that was not on file closes no cycle |
| `FalsifyInvariants.OnlySurvivorsAreContradicted` | src/ask_fable/falsify.py:181-191 | so a registered contradiction is admissible exactly when its target had survived: the cycle test never refuses the clerk |
| `FalsifyFixpoint.BeforeResolveGrew` | src/ask_fable/falsify.py:429-436 | before resolving, a round only extends each claim: receipts and kill history are prefixes, and any change shows as more receipts, more attempts or a fresh kill; reputation moves only with such a change |
| `FalsifyFixpoint.SameMarkSameClaim` | src/ask_fable/falsify_ledger.py:378-382 | a claim whose compact mark comes out of a round unchanged has not changed at all |
| `FalsifyFixpoint.FixpointIsExact` | src/ask_fable/falsify_ledger.py:378-388 | the fixpoint test fires exactly when the round left every claim, every edge and every reputation counter as they were |
| `FalsifyFixpoint.FixpointRoundChangesNothing` | src/ask_fable/falsify.py:415-450 | on every reachable ledger a round reports a fixpoint exactly when it changed nothing but the round number and the phase |
| `FalsifySurvival.ResolveIdempotent` | src/ask_fable/falsify_ledger.py:294-308 | resolving twice is resolving once, on every ledger |
| `FalsifySurvival.SurvivorsEarnedIt` | src/ask_fable/falsify_ledger.py:281-308 | every survived claim of a reachable ledger is supported, has no kill that still counts, and withstood at least two attempts since its last accepted kill |
| `FalsifySurvival.DeadUnlessAnswered` | src/ask_fable/falsify_ledger.py:192-242 | a round reopens a killed claim exactly when a legal answer is asserted and fewer than three reopenings are used; otherwise the claim is untouched |
| `FalsifySurvival.DeadForever` | src/ask_fable/falsify_ledger.py:200-201 | after three reopenings a killed claim is the same claim after any further rounds |
| `FalsifySurvival.SurvivorStands` | src/ask_fable/falsify_ledger.py:222-242 | a survived claim leaves a round survived, or killed by an accepted kill of that round |
| `FalsifySurvival.SupportIsClerkWritten` | src/ask_fable/falsify.py:140-156 | every supporting receipt of a reachable ledger was warranted by the clerk in some round: quote in that corpus, code passed that sandbox, or its own stable metamorph receipt |
| `FalsifySurvival.ScrubIsVisiblePart` | src/ask_fable/falsify_ledger.py:123-134 | scrubbing keeps exactly what a model may say, with every verdict blank |
| `FalsifySurvival.ForgeryIsIgnored` | src/ask_fable/falsify_ledger.py:102-134 | two assert blocks that differ only in clerk fields, metamorph receipts, author, status, kills or attempts give the same ledger after the round |
| `LmInflight.Lifecycle.InflightAdd` | src/ask_fable/lmstudio.py:618-625 | refused exactly while the key is being unloaded; otherwise counts one chat |
| `LmInflight.Lifecycle.InflightDone` | src/ask_fable/lmstudio.py:628-634 | drops one chat and leaves no zero entry |
| `LmInflight.Lifecycle.EnterGenerating` | src/ask_fable/lmstudio.py:605-606 | counts one open POST |
| `LmInflight.Lifecycle.LeaveGenerating` | src/ask_fable/lmstudio.py:610-615 | drops one POST and leaves no zero entry |
| `LmInflight.Lifecycle.ClaimUnload` | src/ask_fable/lmstudio.py:645-650 | granted exactly when neither counter holds the key, and then recorded, in one step |
| `LmInflight.Lifecycle.ReleaseUnload` | src/ask_fable/lmstudio.py:653-656 | lifts the claim and nothing else |
| `LmInflight.StepKeepsInv` | src/ask_fable/lmstudio.py:594-656 | every step of chats, POSTs, cancelled callers, lock holders, unloads and loads keeps the protocol invariant |
| `LmInflight.EveryRunIsSafe` | src/ask_fable/lmstudio.py:594-656 | in every state of every interleaving no unload is in progress on a model with a counted chat or an open POST, and no re-checked chat has lost its model |
| `LmInflight.NoUnloadDuringSend` | src/ask_fable/lmstudio.py:1377-1454 | from the count before the re-check to the end of the POST no in-process unload of that model is in progress or starts, and the model the re-check saw stays loaded |
| `LmInflight.LateWorkerCondition` | src/ask_fable/lmstudio.py:1447-1454 | a worker that enters after its caller's count was dropped keeps the protocol safe exactly when its model is not being unloaded and, if its chat passed the re-check, is still loaded |
| `LmInflight.LateWorkerMeetsUnload` | src/ask_fable/lmstudio.py:902-910 | a run exists in which such a worker opens its POST during an unload |
| `LmInflight.LateWorkerFindsModelGone` | src/ask_fable/lmstudio.py:1386-1402 | and one in which the unload is already over: nothing is being unloaded, but the model the chat's re-check saw is gone |
| `LmSwap.Host.LoadInstance` | src/ask_fable/lmstudio.py:678-710 | a successful load makes the model resident at the requested window (the server's default if none is asked); a failed one may leave a stray of that key only |
| `LmSwap.Host.UnloadAndWait` | src/ask_fable/lmstudio.py:768-789 | a confirmed unload removes that model; an unconfirmed one may or may not have; no other model moves |
| `LmSwap.DesiredIsOk` | src/ask_fable/lmstudio.py:496-508 | the desired window is at least prompt + 512 + 256 and within both caps exactly when the prompt fits both caps |
| `LmSwap.FoundIsListed` | src/ask_fable/lmstudio.py:466-484 | whatever name matching finds is a row of the catalog |
| `LmSwap.ResidentIsListed` | src/ask_fable/lmstudio.py:713-729 | each resident carries the key and window of its catalog row |
| `LmSwap.ProbeCrash` | src/ask_fable/lmstudio.py:792-818 | the floor-context probe is the specified one: load, claim, unload, and its verdict |
| `LmSwap.ShrinkAndProbe` | src/ask_fable/lmstudio.py:1119-1147 | the steps after a failed load, branch by branch, give the specified server state and flags |
| `LmSwap.Vacate` | src/ask_fable/lmstudio.py:1157-1176 | the swap loop gives the specified state; what it took is a prefix of the residents |
| `LmSwap.Restore` | src/ask_fable/lmstudio.py:821-838 | residents are reloaded newest first and the failed keys reported |
| `LmSwap.Reload` | src/ask_fable/lmstudio.py:1038-1075 | unload and reload of the same model, with every exit and what each outcome names |
| `LmSwap.LoadBeside` | src/ask_fable/lmstudio.py:1078-1262 | adding a model beside others, with every exit and what each outcome names; the never-appeared exit names nobody |
| `LmSwap.EnsureLoaded` | src/ask_fable/lmstudio.py:974-1262 | the whole decision as specified, for every server behaviour, on which the rules below are proved |
| `LmSwapRules.ProbedGood` | src/ask_fable/lmstudio.py:792-818 | whenever the probe is taken as memory, the server itself has given evidence of it: memory wording in an error, or a floor-context load that succeeded; no other model is touched |
| `LmSwapRules.ShrunkGood` | src/ask_fable/lmstudio.py:1119-1147 | the cheaper steps touch no other model, and claim memory only on the server's evidence |
| `LmSwapRules.VacatedGood` | src/ask_fable/lmstudio.py:1157-1176 | each resident goes on evidence, under its claim, and is among those taken; the loop ends loaded at the wanted window, blocked, or out of memory-like errors |
| `LmSwapRules.RestoredGood` | src/ask_fable/lmstudio.py:821-838 | every resident taken is resident again at its reported window or named as not restored, and nobody else moves |
| `LmSwapRules.ReloadedOk` | src/ask_fable/lmstudio.py:1038-1075 | the same model reloaded larger touches no other; on success it has the wanted window, on a failed load it is put back or named |
| `LmSwapRules.LoadedBesideOk` | src/ask_fable/lmstudio.py:1078-1262 | adding a model beside others keeps every rule of the decision |
| `LmSwapRules.DecidedOk` | src/ask_fable/lmstudio.py:974-1262 | under `never` only the requested model is ever unloaded, under `auto` others only after the server itself showed memory to be in the way, none without its claim; requested windows fit prompt and caps; a swap that gives up puts back or names everybody it took; a model reported as loaded now holds the prompt; an unload is offered only under `never` and on evidence; no other model moves unless its unload was tried |
| `LmSwapRules.DecidedKinds` | src/ask_fable/lmstudio.py:976-1016 | each refusal that needs no server, and each answer that needs no load, is given exactly when its condition holds, and then nothing is asked of the server |
| `LmSwapRules.TakenWereListed` | src/ask_fable/lmstudio.py:713-729 | a resident taken down was one the catalog listed, with the window it listed |
| `LmSwapRules.NeverAppearedExactly` | src/ask_fable/lmstudio.py:1224-1229 | the outcome is `never appeared as loaded` exactly when the call comes to wait for the model and it does not show; what is gone by then is what was vacated on the way |
| `LmSwapRules.NamedExactly` | src/ask_fable/lmstudio.py:1177-1229 | every other model the call unloaded is named in its outcome, except exactly when the call vacated another model, came to the wait, and the model does not show |
| `LmSwapRules.ResidentLostUnnamed` | src/ask_fable/lmstudio.py:1224-1229 | a concrete call in which a resident is unloaded, not put back and not named |
| `LmSwapRules.SwapAfterProbeExactly` | src/ask_fable/lmstudio.py:1132-1148 | after a crash that led to the floor probe the call goes on to vacate exactly when the policy is `auto`, somebody is in the way, and the probe proved memory or its detail mentions it |
| `LmSwapRules.UnloadAfterProbeExactly` | src/ask_fable/lmstudio.py:1142-1163 | and the first other resident in the way has its unload tried exactly when, besides, its claim is granted |
| `LmSwapRules.UnprovenInWhoseWords` | src/ask_fable/lmstudio.py:805-818 | the detail of an unproven probe is the server's load error, or the code's refusal, or the code's words around the server's unload error |
| `LmSwapRules.RefusalSpeaksOfTheKey` | src/ask_fable/lmstudio.py:812-814 | the refusal mentions memory exactly when the model's own key does |
| `LmSwapRules.UnloadedAfterProbeFailed` | src/ask_fable/lmstudio.py:1139-1148 | a concrete call in which the model also fails at the floor window and another resident is unloaded all the same |
| `LmSwapRules.UnloadedOnTheKeysWord` | src/ask_fable/lmstudio.py:1139-1148 | a concrete call in which the probe could not be freed again, only the model's key mentions memory, and another resident is unloaded |
| `LmSwapRules.GivingUpLosesNobody` | src/ask_fable/lmstudio.py:841-850 | after a swap that gave up under a truthful catalog every other model is as it was, or named, or the one whose unload errored, or back at the server's default because no window was reported |
| `LmSwapRules.RestoredExactlyWhenReported` | src/ask_fable/lmstudio.py:821-829 | a resident put back by such a call is exactly where it was if its window was reported, and otherwise only if the server's default is its old window |
| `SafeFs.FileHandle.ReadLine` | src/ask_fable/safe_fs.py:208-208 | reads on to the next newline, the limit or the end, whichever comes first |
| `SafeFs.ReadOneLine` | src/ask_fable/safe_fs.py:206-217 | one line in bounded pieces: collected exactly when wanted, stopped as soon as the cap is passed, never holding more than cap + 1 bytes |
| `SafeFs.ReadRange` | src/ask_fable/safe_fs.py:201-225 | for every file, range, cap and skip-chunk size the result is that of splitting the file into lines, slicing and then testing cap and NUL, with at most cap + 1 bytes held |
| `SafeFs.ReadWhole` | src/ask_fable/safe_fs.py:191-200 | a whole-file read is the same cap and NUL test, unless the reported size alone exceeds the cap |
| `SafeFs.PrefixTooLarge` | src/ask_fable/safe_fs.py:212-215 | a collection over the cap part-way means the whole request is over the cap |
| `SafeFs.WholeIsFullRange` | src/ask_fable/safe_fs.py:189-225 | a range over all lines reads what a whole-file read does |
| `LineBreaks.LinesAreSlices` | src/ask_fable/safe_fs.py:201-220 | the joined lines from `a` to `b` are the bytes between their starts |
| `LineBreaks.LineCount` | src/ask_fable/safe_fs.py:201-220 | the number of lines is the number of newlines, plus one for an unterminated last line |
| `IndexWindows.ChunksFor` | src/ask_fable/codeindex.py:264-292 | the nested loops terminate and yield the chunks of the windows, window by window |
| `IndexWindows.MeasureWindow` | src/ask_fable/codeindex.py:278-282 | a window ends at the end of the text, after 80 lines, or once 4000 characters are passed, and is never empty |
| `IndexWindows.CutBody` | src/ask_fable/codeindex.py:283-288 | the body is cut every 4000 characters and blank pieces are dropped |
| `IndexWindows.WindowsLeaveNoGap` | src/ask_fable/codeindex.py:276-291 | windows move forward, each begins no later than the last one ended, neighbours share exactly 16 lines (all but one of a shorter window), and together they run from the first line to the last |
| `IndexWindows.WindowIsMaximal` | src/ask_fable/codeindex.py:278-282 | a window ends only at the end of the text, at 80 lines, or with the very line that takes it to 4000 characters |
| `IndexWindows.WindowsAreFit` | src/ask_fable/codeindex.py:280-282 | every window has at least one and at most 80 lines of the text |
| `IndexWindows.EveryCharacterIsIndexed` | src/ask_fable/codeindex.py:264-292 | every character that is not whitespace lands, in place, in some chunk of at most 4000 characters from a window of at most 80 lines around its line |
| `IndexWindows.PlainLinesAreLines` | src/ask_fable/codeindex.py:271-273 | splitting on newlines without the empty tail gives the newline-terminated lines without their newlines |
| `IndexWindows.EncodedLines` | src/ask_fable/safe_fs.py:201-220 | the byte lines of an encoded text are the encodings of its lines, one for one |
| `IndexWindows.ReaderAgrees` | src/ask_fable/codeindex.py:267-274 | line `k` of the index is the very line `k` of a range read, without its line break |
| `IndexWindows.ChunkRangeIsReadable` | src/ask_fable/codeindex.py:264-292 | no reported start-end ever reads as out of range |
| `IndexStore.DigestInjective` | src/ask_fable/codeindex.py:386-388 | with a collision-free hash that holds no plus sign, as no hex form does, equal tagged digests mean equal texts |
| `IndexStore.GoodHashExists` | src/ask_fable/codeindex.py:386-388 | such hashes exist |
| `IndexStore.InsertOneLinked` | src/ask_fable/codeindex.py:226-229 | a reused chunk id never meets an old vector, because the cascade left vectors on live chunks only |
| `IndexStore.MirrorsExactly` | src/ask_fable/codeindex.py:389-407 | with any hash, a run leaves tables that mirror the disk exactly when no file it skipped had chunks other than those of its present text |
| `IndexStore.IncrementalIsRebuildExactly` | src/ask_fable/codeindex.py:369-412 | with any hash, a run without `force` leaves the same files as a forced one from any earlier state, and the same chunks path by path exactly when nothing stale was skipped |
| `IndexStore.NoCollisionNothingStale` | src/ask_fable/codeindex.py:386-392 | nothing stale is skipped if the tables are an index of some texts and the hash tells the indexed text of each file from its present one |
| `IndexStore.GoodHashIsCollisionFree` | src/ask_fable/codeindex.py:386-388 | a collision-free hash without plus signs does |
| `IndexStore.FilesStayOk` | src/ask_fable/codeindex.py:369-412 | after a run the tables are again an index of some texts, collision or not |
| `IndexStore.CollisionKeepsOldChunks` | src/ask_fable/codeindex.py:389-392 | a hash, an index and a changed file for which a run without `force` keeps the old chunks |
| `IndexStore.MirrorsAgree` | src/ask_fable/codeindex.py:369-412 | two tables that mirror one disk have the same files and, path by path, the same chunks in the same order |
| `IndexStore.Index.DeleteChunks` | src/ask_fable/codeindex.py:393-393 | removes the path's chunks and, by the cascade, exactly their vectors |
| `IndexStore.Index.InsertChunks` | src/ask_fable/codeindex.py:394-398 | appends the chunks in order under fresh ids |
| `IndexStore.Index.RefreshOne` | src/ask_fable/codeindex.py:376-407 | one readable file: it keeps its rows exactly when its digest is the one on record and `force` is off, else it gets the chunks of its text; every other file is as it was |
| `IndexStore.Index.ForgetKnown` | src/ask_fable/codeindex.py:408-412 | what was indexed but not read this time is dropped, chunks and vectors included |
| `IndexStore.Index.Refresh` | src/ask_fable/codeindex.py:369-412 | with any hash and any earlier state: exactly the readable files are left, each with its digest, and with its old chunks if it was skipped, else those of its text; the tables mirror the disk exactly when nothing stale was skipped; every vector left sits on the row it sat on |
| `IndexStore.AskHost` | src/ask_fable/codeindex.py:170-191 | one host's batches joined, or nothing as soon as one fails |
| `IndexStore.EmbedTexts` | src/ask_fable/codeindex.py:160-199 | the answer of the first host that answers every batch |
| `IndexStore.Index.Embed` | src/ask_fable/codeindex.py:415-448 | an answer of the right total is stored in place, row by row, for any hosts; otherwise no vector changes |
| `IndexStore.EmbedIsAllOrNothing` | src/ask_fable/codeindex.py:428-448 | once an answer is stored every chunk has a vector filed under this model, and those already filed under it stay; otherwise nothing changes |
| `IndexStore.EmbedIsTrueExactly` | src/ask_fable/codeindex.py:437-444 | true vectors stay true exactly when the stored answer, if any, is of the texts that were asked, each in its place |
| `IndexStore.FitsExactly` | src/ask_fable/codeindex.py:173-191 | for distinct texts and a host that answers each batch from that batch's own texts, the joined answer fits exactly when every batch asked got one vector per text |
| `IndexStore.CountsPerBatchDecide` | src/ask_fable/codeindex.py:428-444 | so with the total right, the stored vectors are true exactly when every batch of the answering host was counted right |
| `IndexStore.GoodHostsFit` | src/ask_fable/codeindex.py:170-191 | hosts that answer in place and one for one give the texts back, and one that answers is enough |
| `IndexStore.MiscountSlipsThrough` | src/ask_fable/codeindex.py:428-436 | a host that answers one batch a vector short and the other a vector long passes the total-count check |
| `IndexStore.MiscountMisfilesVectors` | src/ask_fable/codeindex.py:437-444 | after such a call some chunk carries another text's vector, on every index with 128 distinct pending texts, in whatever order |
| `IndexStore.MiscountAfterFirstIndexing` | src/ask_fable/codeindex.py:414-444 | so it does on whatever tables a first indexing of a disk of 128 one-line files leaves |
| `IndexStore.MiscountedIndexing` | src/ask_fable/codeindex.py:362-448 | a first call of `index` on that disk, with any hash: the tables are valid and mirror the disk, and the vectors are not true |
| `IndexStore.Index.IndexRoot` | src/ask_fable/codeindex.py:362-448 | the whole call, for any hash and any hosts: the tables are refreshed and mirror the disk exactly when nothing stale was skipped; an answer of the right total leaves no chunk without a vector; true vectors stay true exactly when what is stored is of the texts asked |
| `Base64.DecodeEncode` | src/ask_fable/context_crypto.py:232-232 | decoding an encoding of section 4 of RFC 4648 gives back the bytes |
| `Base64.SurplusPaddingExactly` | src/ask_fable/context_crypto.py:232-232 | surplus padding after an encoding is ignored exactly when the encoding needs none itself |
| `Utf8.EncodedIsDecodable` | src/ask_fable/context_crypto.py:214-214 | every encoded text can be decoded again and holds no surrogate |
| `EnvelopeCodec.ParsePack` | src/ask_fable/context_crypto.py:211-251 | parsing a packed envelope returns every field, for every writer whose bytes can be decoded |
| `EnvelopeCodec.PackParse` | src/ask_fable/context_crypto.py:211-251 | whatever bytes the parser accepts, packing the result returns the same bytes |
| `EnvelopeCodec.ArmoredRoundTrip` | src/ask_fable/context_crypto.py:228-277 | through the armor every field comes back, the header is readable without a key, and the envelope is recognised exactly when its version is the known one |
| `EnvelopeCodec.AnyWriterRoundTrips` | src/ask_fable/context_crypto.py:211-251 | for every writer text without surrogates that fits the header, the sealed fields come back through the armor |
| `EnvelopeCodec.SealedParsesExactly` | src/ask_fable/context_crypto.py:228-264 | a recognised value parses exactly when it is long enough for the writer it declares and that writer's bytes can be decoded |
| `EnvelopeCodec.SealedButUnparsable` | src/ask_fable/context_crypto.py:240-264 | two recognised values that do not parse: one too short for its writer, and a complete one whose writer is the byte 0xFF, on which decoding raises |
| `EnvelopeCodec.DecimalInjective` | src/ask_fable/context_crypto.py:206-206 | decimal text determines the number |
| `EnvelopeCodec.AadInjective` | src/ask_fable/context_crypto.py:192-208 | the associated data determines version, key id, key name, writer and timestamp, for fields under 2^32 bytes |
| `Breaker.Push` | src/ask_fable/health.py:203-208 | the window loop drops the oldest outcomes until one fits and adds it, also after the window was lowered |
| `Breaker.Breaker.Record` | src/ask_fable/health.py:161-247 | one outcome moves exactly its key's state as specified, and reports exactly the change it made |
| `Breaker.Breaker.GateOf` | src/ask_fable/health.py:249-265 | closed, open or half open by the time since opening |
| `Breaker.Breaker.ShouldSkip` | src/ask_fable/health.py:267-282 | skipped exactly while open or, with the feature on, while a hold is live |
| `Breaker.OpenIsJustified` | src/ask_fable/health.py:222-229 | in every run with fixed settings an open breaker's window holds at least 5 samples with an error rate at or above the threshold |
| `Breaker.FailedProbeReopens` | src/ask_fable/health.py:226-233 | so any health failure after the cooldown reopens it and reports `reopened` |
| `Breaker.ReportsSpell` | src/ask_fable/health.py:211-234 | the changes reported over any run spell (opened reopened* closed)*, and the breaker is open exactly when the last is not `closed` |
| `Breaker.FourBeforeReopening` | src/ask_fable/health.py:212-226 | after a close, fewer than four further counted outcomes never open it |
| `Breaker.CloseLeaves` | src/ask_fable/health.py:211-221 | whatever was there before, a close leaves one success on file and no hold, and is reported exactly when the breaker is enabled |
| `Breaker.FourErrorsReopen` | src/ask_fable/health.py:212-226 | four straight errors after a close do open it (window of 5 or more, threshold at most 4/5) |
| `Breaker.FiveFreshCallsExactly` | src/ask_fable/health.py:164-167 | the promise of five fresh calls after a close holds exactly when the breaker is disabled, the window is below 5 or the threshold is above 4/5 |
| `Breaker.HoldStep` | src/ask_fable/health.py:187-221 | an error never shortens a hold, a live hold is never escalated, only a success lifts it, and no single hold exceeds the hour by more than its jitter |
| `Breaker.HoldsNeverShorten` | src/ask_fable/health.py:187-198 | over any run without a success the hold stands |
| `Breaker.LiveHoldNeverEscalates` | src/ask_fable/health.py:191-197 | a burst of rate limits on a live hold escalates nothing |
| `RollbackGuard.Guard.Check` | src/ask_fable/context_hwm.py:108-133 | accepted exactly when not more than one slack below the mark; then the mark advances, else nothing changes |
| `RollbackGuard.Guard.Bump` | src/ask_fable/context_hwm.py:98-105 | the mark becomes the larger of the two |
| `RollbackGuard.Guard.Record` | src/ask_fable/context_hwm.py:136-150 | a write of this machine advances the mark |
| `RollbackGuard.Guard.Clear` | src/ask_fable/context_hwm.py:153-168 | the key's mark is gone, others stay |
| `RollbackGuard.MarkIsThePeak` | src/ask_fable/context_hwm.py:98-150 | the mark is exactly the newest timestamp observed for the key since its last deletion, over any history |
| `RollbackGuard.AcceptedExactlyNearThePeak` | src/ask_fable/context_store.py:361-393 | no drift: over any daemon behaviour a read is accepted exactly when it is at most one slack below everything observed for the key since its last deletion |
| `BusDaemon.Daemon.Put` | src/ask_fable/context_busd.py:376-465 | the guarded write, counted if it is accepted, and a sweep after every hundredth accepted one |
| `BusDaemon.Daemon.Write` | src/ask_fable/context_busd.py:376-458 | the handler in source order: which requests are refused and why, which get no answer because an error escapes, and the row an accepted one leaves |
| `BusDaemon.Daemon.Sweep` | src/ask_fable/context_busd.py:231-246 | each writer with more rows than the cap keeps nine tenths of it, none of what goes is newer than what stays, all other rows stay as they are |
| `BusDaemon.Daemon.EvictWriter` | src/ask_fable/context_busd.py:239-245 | the oldest rows of one writer go, down to the target |
| `BusDaemon.Daemon.Upsert` | src/ask_fable/context_busd.py:431-458 | what cannot be bound leaves the request unanswered and the rows alone; otherwise the guard alone decides, and a refusal says whether If-Match or the floor was in the way |
| `BusDaemon.IfMatchIsCompareAndSet` | src/ask_fable/context_busd.py:422-444 | with If-Match a well-formed put lands exactly when everything in it can be bound, 64 bits for If-Match included, and the stored timestamp is the named one and the floor allows it, or the key is absent |
| `BusDaemon.UnansweredExactly` | src/ask_fable/context_busd.py:383-445 | a put gets no answer exactly when its header's writer cannot be decoded, or a number in it is infinite, or it passes every check and then holds a surrogate or a number beyond 64 bits; nothing but an accepted put changes a row |
| `BusDaemon.OrdinaryIsAnswered` | src/ask_fable/context_busd.py:376-458 | a request whose texts hold no surrogate and whose numbers fit 64 bits is answered exactly when its header's writer can be decoded, and a well-formed one lands exactly when the guard passes |
| `BusDaemon.EachKindIsUnanswered` | src/ask_fable/context_busd.py:383-445 | one request of each kind that gets no answer |
| `BusDaemon.FloorDriftsAtMost` | src/ask_fable/context_busd.py:434-444 | over any run of puts, sweeps and deletions that keeps the key's row, its timestamp is at most one slack lower per accepted put of the key |
| `BusDaemon.RemovalRestartsFloor` | src/ask_fable/context_busd.py:231-246 | once the row is removed, one accepted put starts the floor anywhere |
| `BusDaemon.SweepIsRemoval` | src/ask_fable/context_busd.py:231-246 | what a sweep does is such a removal of rows |
| `BusDaemon.SweepCanRemove` | src/ask_fable/context_busd.py:238-245 | and it can be of the row in question: a cap of one takes both rows of a writer |
| `BusDaemon.FloorDriftIsAttained` | src/ask_fable/context_busd.py:434-444 | and for every peak and count some run of well-formed accepted puts, under a clock that stands at the peak, attains that bound |
| `BusDaemon.RowsMatchTheirHeaders` | src/ask_fable/context_busd.py:388-447 | over any run of puts, sweeps and deletions the writer and timestamp on file are those of the sealed header stored with them, no timestamp is more than one slack ahead of the clock, and all of it fits the database |
| `BusDaemon.Nonces.Claim` | src/ask_fable/context_busd.py:163-173 | entries older than the retention go, all others stay; claimed exactly when the nonce is not among those kept |
| `BusDaemon.Nonces.Authorized` | src/ask_fable/context_busd.py:299-321 | skew, fields and signature are checked before the nonce is claimed; a refused request records nothing, and a timestamp that fits no float gets no answer |
| `BusDaemon.NoAnswerExactly` | src/ask_fable/context_busd.py:299-307 | a header gets no answer exactly when its timestamp does not fit a float; an admitted one is within the skew and its nonce is on file |
| `BusDaemon.NonceStays` | src/ask_fable/context_busd.py:155-173 | a claimed nonce is still on file as long as its header could pass the skew check and then be claimed |
| `BusDaemon.RetentionIsExact` | src/ask_fable/context_busd.py:155-173 | no signed header is accepted twice in any run if and only if the retention is at least twice the skew plus the longest time a claim may come after its skew check |
| `BusDaemon.RetentionInUse` | src/ask_fable/context_busd.py:163-165 | the retention in use is enough exactly when no time passes between the two clock readings |
| `LedgerStore.LocalStore.Put` | src/ask_fable/context_store.py:194-241 | overwrite, insert-if-absent or compare-and-set by the expected version; other keys untouched |
| `LedgerStore.LocalStore.RowVersioned` | src/ask_fable/context_store.py:268-280 | value and version of the stripped key, or nothing |
| `LedgerStore.LocalStore.Delete` | src/ask_fable/context_store.py:287-298 | removes the row and says whether there was one |
| `LedgerStore.LocalStore.SaveLedger` | src/ask_fable/falsify.py:441-454 | a landed save leaves the blob at the run's next version; a refused one changes neither |
| `LedgerStore.EveryRunIsOrdered` | src/ask_fable/falsify.py:405-454 | while no row is removed, in every interleaving no run is ahead of the row, a run level with it holds its blob, and one that lost a save is behind |
| `LedgerStore.NoLostUpdate` | src/ask_fable/falsify.py:441-454 | while no row is removed a save lands exactly when its run is level with the row; then it replaces the blob that run last read or wrote, and the versions agree afterwards |
| `LedgerStore.LostRunsStayLost` | src/ask_fable/falsify.py:451-454 | while no row is removed, once a run has lost a save all its later saves are refused |
| `LedgerStore.SafeSaveExactly` | src/ask_fable/context_store.py:228-234 | with deletions anywhere: a landing save replaces the very row its run last read or wrote exactly when no row was removed in between; otherwise what it replaces was written by another run since |
| `LedgerStore.DeletionBreaksIt` | src/ask_fable/context_store.py:287-298 | a run of six steps with one deletion in which a run that is behind overwrites a ledger it never saw |
| `Resolver.Dedupe` | src/ask_fable/resolver.py:80-101 | exact duplicates are dropped, ranges of a file that is also asked for whole are held under it, the rest is kept in order |
| `Resolver.Packing.TryAdmit` | src/ask_fable/resolver.py:135-151 | one attempt: the new state and the reason for refusing, if any |
| `Resolver.Packing.AdmitHeld` | src/ask_fable/resolver.py:161-165 | the ranges of a file that was not admitted are tried in its place |
| `Resolver.Packing.AdmitAll` | src/ask_fable/resolver.py:153-166 | the admission loop |
| `Resolver.Packing.ResolveAll` | src/ask_fable/resolver.py:117-125 | the resolving loop: items in input order, refused specs reported |
| `Resolver.Pack` | src/ask_fable/resolver.py:104-179 | the whole call returns the bundle, its blocks, the account and completeness as specified |
| `Resolver.QueueIsSorted` | src/ask_fable/resolver.py:128-129 | the queue is the kept items, ranges before whole files, ties by input position |
| `Resolver.EverySpecIsAccountedFor` | src/ask_fable/resolver.py:80-179 | each spec is settled exactly once: included, skipped, an exact duplicate of an earlier one, or a range of a whole file that was admitted |
| `Resolver.ReasonsAreTrue` | src/ask_fable/resolver.py:135-151 | every reported reason holds: the spec did not resolve or could not be read, the file budget is used up, or a readable block really does not fit beside what was admitted |
| `Resolver.PackStaysInBudget` | src/ask_fable/resolver.py:138-150 | block lengths sum to the running total, within the character budget; blocks are within the file budget; each is what was read, under its label |
| `Resolver.AfterFirstOverflow` | src/ask_fable/resolver.py:157-166 | once a queued item overflows, only ranges held under that very file can still enter; all later specs are reported as over budget |
| `Resolver.AfterHeldOverflow` | src/ask_fable/resolver.py:161-165 | once a held range overflows, nothing enters any more |
| `Resolver.EntersAfterOverflowExactly` | src/ask_fable/resolver.py:158-166 | after the first overflow anything at all enters exactly when the first readable range held under the overflowing file fits |
| `Resolver.RangeEntersAfterOverflow` | src/ask_fable/resolver.py:158-166 | a concrete pack in which a file overflows and its range is then admitted |
| `Resolver.BundleFollowsInput` | src/ask_fable/resolver.py:168-179 | the bundle holds exactly the admitted blocks in strict input order, and is as long as they are plus two characters per separator |
| `Resolver.CompleteExactly` | src/ask_fable/resolver.py:172-179 | a pack is complete exactly when every spec is included, a duplicate, or a range of an admitted whole file |
| `Resolver.CoveredRangeExactly` | src/ask_fable/resolver.py:82-87 | a range of an admitted file is present in the bundle, byte for byte, exactly when it starts within the file; otherwise it would have read as out of range |
| `Resolver.CompleteLosesNothingExactly` | src/ask_fable/resolver.py:82-87 | a complete pack holds the bytes of every spec exactly when every covered range starts within its file |
| `Resolver.PastEndIsDropped` | src/ask_fable/resolver.py:153-166 | a concrete complete pack whose range past the end of its file is nowhere in the bundle and nowhere reported |
| `Hub.SessionHub.WriteTurn` | src/ask_fable/hub.py:192-217 | append, upsert, and a sweep on every hundredth write; the view stays the group-by whenever the turn is not older than its session's row |
| `Hub.SessionHub.PruneJunk` | src/ask_fable/hub.py:459-502 | the junk turns go, orphaned rows go, every other row is recomputed; the number deleted is reported; the view stays the group-by |
| `Hub.SessionHub.Refresh` | src/ask_fable/hub.py:476-501 | the recomputing loop gives every remaining row the count and fields of its surviving turns |
| `Hub.SessionHub.Sweep` | src/ask_fable/hub.py:518-548 | eviction with orphan removal and recount; the view stays the group-by |
| `Hub.WriteKeepsViewExactly` | src/ask_fable/hub.py:200-209 | a write keeps the view exactly when its turn is not older than the last one of its own session |
| `Hub.PruneKeepsView` | src/ask_fable/hub.py:459-502 | a prune keeps the view |
| `Hub.PruneRemovesOnlyJunk` | src/ask_fable/hub.py:460-464 | a prune removes every copy of each matching turn and nothing else |
| `Hub.NewestSurvives` | src/ask_fable/hub.py:525-532 | a session that keeps any turn through an eviction keeps its newest |
| `Hub.SweepKeepsView` | src/ask_fable/hub.py:518-548 | a sweep keeps the view although it refreshes only the counts, because eviction is oldest-first |
| `Hub.SweepKeepsTheNewest` | src/ask_fable/hub.py:525-532 | a sweep over the cap leaves nine tenths of the cap, and evicts nothing newer than what stays |
| `Hub.ViewHoldsExactly` | src/ask_fable/hub.py:192-548 | starting empty, through any sequence of writes, prunes and sweeps, the session table is the group-by of the turns at every moment exactly when no write is older than the row of its session |
| `Hub.ViewIsAlwaysTheGroupBy` | src/ask_fable/hub.py:192-548 | so as long as each session's own clock does not go back, it always is, however sessions are interleaved |

## Left out

- Ledger JSON: a receipt's other keys are one opaque `text`; an absent verdict field is `false`;
  rows that are not objects are dropped before the model begins. Lower-casing is ASCII only.
- Oracle turns, prompts, rendering, and the early return when the very first turn fails: their
  effect on the ledger is an arbitrary assert or attack block, an empty one included.
- Calibration records, `pick_assertor`, `crucible` and the other read-only views of a ledger.
- LmSwap.EnsureLoaded: a failed unload that the server performed anyway is not among the residents taken, because the code
  does not learn of it; `displaced` is not modelled.
- LM Studio instance ids, the confirmed re-read of a window after a load, VRAM arithmetic behind
  the room verdict, the lock-free fast path, and load/unload by other processes or the server
  itself. A catalog is taken to list each key once.
- LmInflight.EveryRunIsSafe: about one process; a model unloaded by another process is what the pre-send re-check is for.
- Reader: `_parse_spec`'s regular expressions, path containment and the blocklist, decoding with
  replacement characters, and operating-system errors.
- Code index: walking the tree, file sizes and modification times, the full-text table and its
  triggers, search, ranking and reranking. Chunk ids are one past the largest in use, as SQLite
  assigns them for an integer primary key.
- IndexStore.Index.Embed: a vector is the text a host computed it for, as the host has it; dimensions and packed numbers are not modelled.
- EnvelopeCodec.ParsePack: the writer is its encoded bytes, together with whether they can be decoded; `surrogatepass` makes surrogates decodable.
- EnvelopeCodec.AnyWriterRoundTrips: a Dafny string cannot hold a lone surrogate, so writers with one are covered only as bytes, by `EnvelopeCodec.ArmoredRoundTrip`.
- Encryption, key derivation and signatures: ciphertext and the outcome of a signature check are
  opaque. Base64 is decoded as Python 3.11 does it: unused low bits in a tail and padding after
  complete groups are let pass; later versions may refuse the latter.
- Rollback guard: an unavailable guard store, and the off switch.
- BusDaemon.Daemon.Put: database errors other than a parameter that cannot be bound, interpreter limits, and a connection lost
  while answering are not modelled.
- BusDaemon.RetentionIsExact: claims come in the order of their clock readings.
- Daemon: get, list with its byte budget, and the reply to a delete. One request is one step.
- Local store: descriptions, timestamps and sealing at rest; eviction of the row is a deletion; a store error is a save
  that writes nothing. Another session's rows are other keys.
- Breaker: times and rates are reals and rates are compared by multiplication, so the rounding of
  a reported rate is not modelled; one clock reading per recorded outcome, and a clock above 0,
  because 0 marks a closed breaker. `snapshot` is not modelled.
- Hub.ViewHoldsExactly: the `started` column, redaction, and the schema migration that discards the view are outside it. Equal
  timestamps are ordered by insertion, as the indexes on `turns` order them. Nine tenths of the
  cap is the integer part of 9·cap/10.
- Resolver.Pack: `scrub` and `quality` are identities, and a skip also carries its input position, which the source does not report.
- Provider bridges, HTTP clients, consoles, diagnostics, configuration, redaction and answer
  caching: services the model cannot see, or properties one branch would settle.
