# Proofs about ToogleBot

This project models the parts of the ToogleBot chat bot whose correctness is not
obvious from reading one function, and proves what they promise. Each Dafny module
follows one component of the bot.

- **The inbound pipeline.** `Pipeline` is the transition system of the receive
  queue, the dispatcher tasks, the bounded work queue, the plugin workers and the
  shutdown by poison pills: one action per stretch of code between two await points,
  any interleaving. `Runtime` is the same as an object whose queues and tasks change
  in place; every method is shown to be one action of the transition system, and its
  drivers take it through whole sessions and through the shutdown.
- **Requests and responses.** `ActionRouter` holds the table of pending requests,
  `SendQueue` the outbound queue, `Connection` puts both into one transition system
  with connects, failing sends and disconnects, and `Transport` is the object with
  the futures that are completed in place. Matching follows the `echo` field of
  OneBot 11, section "WebSocket communication".
- **Knapsack and card simulation.** `Knapsack` fills the table of
  `dp_backpack_algorithm` and walks it back; `Snap` pops the hand at the indices it
  returns and counts jams and wasted energy.
- **Dice.** `Binomial` and `D20Mapping` treat the D6 pool and its mapping to the
  twenty faces of one die, over exact reals with Python's rounding.
- **A torrent read like a file.** `LruCache` and `TorrentReader`.
- **Remote console.** `Rcon` is the packet codec of the Source RCON Protocol,
  sections "Basic Packet Structure" and "Multiple-packet Responses", and its use
  over a chunked stream.
- **Chinese numerals.** `Numerals` is the parser, `NumeralPrinter` the canonical
  writing that it undoes, `DecimalNumerals` the other writings and what is refused.
- **Tool-calling loops.** `Transcript`, `ToolLoop` and `KimiSearch` run the loops
  against a model that may answer anything.
- **Text wrapping.** `FontWrap`.
- **Baseball.** `Diamond` (one play), `Innings` (the course of a game) and `Baseball`
  (players and games). The balance of a box score is that of rule 9.03(c) of the
  Official Baseball Rules.
- **Schedules.** `Schedule` normalises stored items, `ScheduleStore` is the
  transition system of stored items and live jobs, `Scheduler` the object.
- **Lucky packets.** `LuckyPocket` splits a total and pays out claims.

Where the code meets a property only under a condition, the condition is proved to
be exact or the failing input is given:

- `D20Mapping.MappingWorksIff`: the repair pass is right exactly for at most twenty
  groups. The caller does not check that: by `D20Mapping.DicePoolsMapped` a pool is
  mapped right exactly from 0 to 19 dice, and the command accepts any whole number.
- `Rcon.DecodeIsCanonicalIff` and `Rcon.FrameLengthIff`: a length field below ten is
  accepted, cannot be re-encoded, and costs bytes of the next packet.
- `NumeralPrinter.DigitRunIff`: a 零 behind a non-zero digit of a bare digit run is
  not positional. `NumeralPrinter.BigUnitHasNoTail`: a digit behind 万 or 亿 never counts
  in tenths of that unit, so 一万二 is read as 10002.
- `FontWrap.FindSplit`: the inner loop always ends, but with an empty piece exactly
  when `Stuck` holds, which needs a glyph as wide as the box or wider; the outer loop
  then repeats for ever. `FontWrap.EndsIff`: the outer loop ends exactly when every rest
  it comes to is empty, begins with a glyph narrower than the box, or begins with one
  exactly as wide and either fits or takes up half the box or less per glyph.
  `FontWrap.LineEndsIff` turns this into a condition on the glyphs of the line alone,
  unless one of no width stands right in front of one exactly as wide as the box.
- `Pipeline.DrainEndsIff`: a CancelledError that escapes a plugin ends its worker, and
  nobody takes that worker's None. The shutdown still ends, without its timeout, exactly
  when the work queue has room for what is left behind (`Pipeline.LeftBehind`): one None
  for each such worker, or, when all workers have ended like that, everything queued
  and every None still to come. In `Pipeline.OneWorkerCrashes` one crash is enough.
- `ToolLoop.CallsRunIff` and `ToolLoop.ToolsRunAfterFinal`: without `require_search`,
  calls that the model makes after tools were withdrawn are still run.
- `SendQueue.RequeueOrder`: a frame whose send failed goes to the tail, so the order
  survives exactly when nothing was queued behind it. A frame whose send is cancelled
  is lost (`SendQueue.Abandon`).
- `ScheduleStore.ReloadSyncsIff`: one trigger that the scheduler refuses stops the
  reload and leaves that item, and those behind it that had none, without jobs.
- `ScheduleStore.SyncedIff`: a job that the scheduler drops because its trigger is
  exhausted leaves its item behind; jobs and file agree again exactly when that item is
  removed or reloaded. For a dated schedule `ScheduleStore.DatedFiringIff` gives the
  condition: it is a single-shot one, its message goes out, and the file can be written.
- `Innings.FourOutsIff`: a half-inning ends with three outs, or with four exactly when
  two are out, someone is on base and the batter hits into a double play. A sacrifice
  fly is booked as a double play (`Baseball.TurnsAreBooked`).

## Model

| member | source | states |
|---|---|---|
| Pipeline.StepInv | adapter/worker.py:41-208 | every step of every task keeps: both queues first in first out and bounded, unfinished counts equal to queued plus in hand, each message in one place, pills behind all messages |
| Pipeline.RunInv | adapter/worker.py:41-208 | that invariant over runs of any length and interleaving |
| Pipeline.PushIff | adapter/msg_queue.py:103-111 | an event is accepted, at the end of the queue, exactly when there is room, and changes nothing otherwise |
| Pipeline.StepDecides | adapter/worker.py:41-170 | which steps make a message processed, aborted, lost, ignored or forwarded |
| Pipeline.Conservation | adapter/worker.py:41-170 | in every run each accepted copy of an event is in exactly one place (queued, in a dispatcher's hands, ignored as ONLY_READ, forwarded, or lost to cancellation), and likewise behind the work queue; taking is in queue order |
| Pipeline.EveryEventForwarded | adapter/worker.py:41-60 | without cancellation and with the receive side idle, an event has entered the work queue exactly as often as it was accepted, or never if its group is ONLY_READ, even when post-processing fails |
| Pipeline.InternalDecreases | adapter/worker.py:188-208 | a measure falls with every step the tasks take on their own, by exactly one while draining |
| Pipeline.InternalRunsEnd | adapter/worker.py:157-170 | so no run of the tasks on their own is longer than the measure of its start |
| Pipeline.RunningNeverStuck | adapter/worker.py:41-60 | while a dispatcher and a worker live, work anywhere means that some task can move |
| Pipeline.DrainNeverStuck | adapter/worker.py:157-208 | while the queue has room for what will be left behind the drain never deadlocks: something can move, and a `put(None)` blocked by a full queue means a live worker that can move |
| Pipeline.DrainEndsIff | adapter/worker.py:157-208 | a drain left to itself until nothing can move has come to its end exactly when the queue has room for what is left behind: one None per crashed worker, or, if all have crashed, all that is queued and all Nones still to come |
| Pipeline.OneWorkerCrashes | adapter/worker.py:163-208 | a run with one worker and one crash after which the drain waits for ever |
| Pipeline.DrainSteps | adapter/worker.py:188-208 | every untimed drain step, crashes included, uses up exactly one unit of the measure, and nothing enters meanwhile |
| Pipeline.DrainLength | adapter/worker.py:188-208 | a drain that ends without its timeout takes exactly two steps per queued message and per worker, one per message in hand, and the join, less one for each None and two for each message that stays queued, whatever the interleaving |
| Pipeline.DrainComplete | adapter/worker.py:157-208 | after any such drain one None per crashed worker is queued, and messages only if all workers have crashed; each message put in was processed, in the hands of a crashed worker, or is still queued; each other worker took exactly one None |
| Pipeline.CleanDrain | adapter/worker.py:188-208 | without a crash: the queue is empty, everything was processed, and each worker took exactly one None |
| Runtime.Bot.constructor | adapter/worker.py:173-185 | fresh queues of size at least one and at least one worker satisfy the start condition |
| Runtime.Bot.Perform | adapter/worker.py:41-208 | every step of the transition system is one of the object's methods, from `push_event` to the last line of `worker_shutdown`, and changes queues, tasks and counts in place as the step says |
| Runtime.Bot.Serve | adapter/worker.py:41-208 | whatever steps are asked of the object, what it goes through is a run of the transition system |
| Runtime.Bot.Drain | adapter/worker.py:188-208 | `worker_shutdown` without its timeout, from any reachable state and under every choice among all that the tasks can do, comes to rest; it has then ended exactly when the queue has room for what is left behind, after the same number of steps for every choice, with the work accounted for and one None per worker that has not crashed |
| Runtime.Session | adapter/worker.py:41-208 | after any session of a new bot each accepted event and each message put into the work queue is in exactly one place, and both unfinished counts are right |
| ActionRouter.AcceptsIff | adapter/action_router.py:14-22 | a response is accepted exactly when some waiting call has its echo |
| ActionRouter.ResolveOnlyOwn | adapter/action_router.py:14-22 | a response completes the waiting call with its echo and changes no other call; without one nothing changes |
| Connection.StepInv | adapter/server.py:76-136 | every step of callers, peer, send loop and reconnect loop, also between a failure and the cancellation of the two loops, keeps the table and the outbound invariant, and an empty table while the transport is down |
| Connection.CompletedOnce | adapter/action_router.py:14-51 | in no run does a completed future change again, nor a call that has returned |
| Connection.OwnResponse | adapter/action_router.py:32-51 | a call that returns a response returns one that arrived during the run and carries its own echo |
| Connection.OwnDisconnect | adapter/action_router.py:25-51 | a call that reports a lost connection was waiting at a teardown of the run |
| Connection.OwnInterruption | adapter/action_router.py:45-51 | a call that ends by timeout or cancellation was struck by one in the run |
| Connection.StruckEndsInterrupted | adapter/action_router.py:45-51 | a call struck while it waits can end in no other way, whatever comes later |
| Connection.RequestOutcome | adapter/action_router.py:37-44 | a call waits under its echo exactly when the transport is bound, and ends as not ready otherwise; all other calls stay |
| Connection.RespondIff | adapter/action_router.py:14-22 | while a receive loop runs, a response changes something exactly when a waiting call has its echo: late, repeated and unmatched ones change nothing at all |
| Connection.TeardownReleases | adapter/server.py:131-134 | a disconnect fails every waiter, wakes it and empties the table |
| Connection.DownHasNoWaiter | adapter/server.py:131-134 | while down nobody waits and every unreturned call can return |
| Connection.AfterDisconnect | adapter/server.py:107-136 | nothing after a disconnect, reconnections included, reaches a future from before it |
| Connection.FrameConservation | adapter/server.py:76-88 | every frame ever made is in exactly one of seven places, sent at most once; the queue is bounded and its unfinished count is queue plus hand |
| Connection.StepLosesIff | adapter/msg_queue.py:62-84 | a frame is refused exactly while the transport is down, dropped exactly at a full queue, and lost exactly when its send is cancelled or fails with the queue full |
| Connection.NotReadyNeverSent | adapter/action_router.py:42-44 | a call reports "not ready" exactly when its frame was refused, and then the frame never reaches the queue |
| Connection.SmoothRunIsFifo | adapter/server.py:76-88 | without failed or cancelled sends, frames leave in the order they entered and none is lost |
| Connection.OrderUntilRequeued | adapter/server.py:81-86 | until a frame is put back behind others the order holds, and the next put-back keeps it exactly when the queue is empty |
| SendQueue.RequeueOrder | adapter/server.py:81-86 | putting a failed frame back at the tail keeps the order exactly when nobody is behind it |
| SendQueue.RequeueInv | adapter/server.py:81-88 | a failed send keeps the conservation of frames, whether there is room to put it back or not |
| SendQueue.AbandonInv | adapter/server.py:76-88 | a cancelled send loses its frame and nothing else |
| SendQueue.CallbackInv | adapter/msg_queue.py:62-84 | a frame handed over by another thread is queued or dropped later, once |
| Transport.Client.FailPending | adapter/action_router.py:25-29 | whatever order the futures are failed in, exactly the open ones fail and the table ends empty |
| Transport.Client.Follow | adapter/server.py:76-136 | the object follows every run of the transition system to its end |
| Transport.Session | adapter/server.py:107-136 | a new client after any run: while the transport is down its table is empty and no future is open that a call waits for |
| Knapsack.BestIsUpperBound | toogle/utils.py:152-157 | no choice of items that fits beats the recurrence of the table |
| Knapsack.BestIsAttained | toogle/utils.py:152-157 | some choice reaches it |
| Knapsack.FillTable | toogle/utils.py:149-157 | every cell of the table is the optimum over subsets |
| Knapsack.Backpack | toogle/utils.py:148-167 | for all non-negative items and any space: strictly decreasing valid indices whose total fits and is maximal over all subsets, and equals the last cell |
| Snap.PoppedIsUnchosen | plugins/other.py:651 | popping a choice in returned order leaves exactly the cards at the other positions, in order |
| Snap.PopAll | plugins/other.py:651 | the cards played are those the indices meant, and no card is lost |
| Snap.EmptyPlay | plugins/other.py:652-654 | with positive costs the optimal play is empty exactly when no card fits |
| Snap.PlayRound | plugins/other.py:651-656 | a round wastes the least energy any legal play could, never a negative amount |
| Snap.Simulate | plugins/other.py:641-656 | deck, hand and played cards stay the initial multiset over six rounds; the first hand has four cards and each later one is what the last round left and one more; a round is counted as jammed exactly when nothing fits; fewer than six counts or nine cards raise |
| Snap.CostJamRate | plugins/other.py:638-656 | the counters are, per round, the number of games jammed in it and the energy wasted in it, over exactly the games played, each conserving its cards; or an exception |
| Snap.RateBounds | plugins/other.py:652-660 | so the average waste of a round lies between its jam rate times its energy and its energy |
| Snap.DeckOfCost | plugins/other.py:642-644 | the deck has as many cards of each cost as the curve says and no others |
| Binomial.ChooseFact | plugins/dice.py:385 | Pascal's triangle holds the quotients of factorials |
| Binomial.TermIsRow | plugins/dice.py:382-388 | the factorial formula is the chance that exactly x of n dice get through |
| Binomial.ChanceCountsThrows | plugins/dice.py:383 | 36 times the chance of one die is the number of throws of two dice in which the attacker hits and the defender misses the save |
| Binomial.BinomialTheorem | plugins/dice.py:382-388 | the probabilities sum to one and their mean is the number of dice times the chance of one; 36 times the mean counts throws |
| Binomial.ProbabilitiesNonNegative | plugins/dice.py:382-388 | for die values 1 to 7 no probability is negative |
| D20Mapping.Round | plugins/dice.py:405 | within one half, ties to the even integer |
| D20Mapping.RoundIsUnique | plugins/dice.py:405 | no other function rounds like that |
| D20Mapping.TrimBack | plugins/dice.py:411-418 | the backward loop takes one face from each of the last groups with more than one |
| D20Mapping.PadFront | plugins/dice.py:419-425 | the forward loop gives one face to each of the first groups |
| D20Mapping.RoundingBounds | plugins/dice.py:401-406 | rounding up happens only in groups with a face to spare and by half a face |
| D20Mapping.RepairSuffices | plugins/dice.py:397-425 | one repair pass always ends with twenty faces, each group at least one and within 3/2 of its ideal share, for every distribution of at most twenty groups |
| D20Mapping.SizesAt | plugins/dice.py:397-425 | every face count, group by group: nearest share, ties to even; the last groups with a face to spare give one up, or the first groups get one |
| D20Mapping.MappingWorksIff | plugins/dice.py:397-425 | the face counts are right exactly when there are at most twenty groups |
| D20Mapping.DicePoolsMapped | plugins/dice.py:363-405 | for any whole number of dice the mapping is right exactly from 0 to 19 |
| D20Mapping.ExactlyOneLine | plugins/dice.py:427-439 | in tiling lines every face is on exactly one line |
| D20Mapping.LinesTile | plugins/dice.py:427-439 | the lines run from face 1 on in order without gap or overlap, one per group with its number of faces |
| D20Mapping.LinesAre | plugins/dice.py:427-439 | whatever the face counts, each group with some has exactly one line, from behind all faces before it to its own last one |
| D20Mapping.WeightedIsFaceSum | plugins/dice.py:452 | the weighted sum of sizes is the sum of what each face gives |
| D20Mapping.NewDistributionSums | plugins/dice.py:442 | the new distribution sums to one |
| D20Mapping.TableIsRight | plugins/dice.py:427-452 | for at most twenty groups the table tiles 1 to 20 and its expectation is the mean over the faces |
| D20Mapping.Map | plugins/dice.py:391-454 | the whole method computes those sizes, lines and expectations |
| LruCache.TouchedIsLatest | plugins/others/magnet.py:102-104 | one use keeps the cache order at the last four distinct pieces used |
| LruCache.CacheIsLatest | plugins/others/magnet.py:125-128 | so the cache always holds the last four distinct pieces, whatever was used |
| TorrentReader.PieceOfByte | plugins/others/magnet.py:141-142 | `divmod` finds the piece and the place in it, also in a short last piece |
| TorrentReader.PieceSlice | plugins/others/magnet.py:144-145 | a slice of a piece is the slice of the file it stands for |
| TorrentReader.BudgetAdd | plugins/others/magnet.py:105-110 | a newly requested piece adds exactly its size |
| TorrentReader.Reader.Seek | plugins/others/magnet.py:84-89 | position and error as on an in-memory file |
| TorrentReader.Reader.Request | plugins/others/magnet.py:105-112 | a piece is charged once, and granted exactly when within the budget |
| TorrentReader.Reader.GetPiece | plugins/others/magnet.py:100-129 | what is returned is the true piece; a cached or once requested piece costs nothing; over budget nothing is charged; an error leaves the cache alone |
| TorrentReader.Reader.Read | plugins/others/magnet.py:134-148 | the bytes of the plain file up to 32768, or an exception that leaves the position within what was wanted |
| TorrentReader.Drive | plugins/others/magnet.py:61-148 | any sequence of seeks and reads is answered like the plain file up to the first failing read, with the budget and the cache invariant kept even then |
| TorrentReader.PlainReadIs | plugins/others/magnet.py:134-141 | how many bytes a read gives, and which |
| TorrentReader.PlainSeekIs | plugins/others/magnet.py:84-89 | where a seek goes, and when it is refused |
| TorrentReader.ReadsGiveFile | plugins/others/magnet.py:134-148 | reads one after the other give the file without a gap |
| TorrentReader.ReadsReachEnd | plugins/others/magnet.py:134-148 | and all of it once there are as many of them as bytes to read |
| Rcon.UnpackPack | plugins/others/minecraft.py:57-58 | unpacking undoes packing for every 32-bit number |
| Rcon.PackUnpack | plugins/others/minecraft.py:45-49 | and packing undoes unpacking |
| Rcon.UnpackIs | plugins/others/minecraft.py:45-49 | numbers are little-endian, in two's complement |
| Rcon.WireLayout | plugins/others/minecraft.py:55-58 | what the bytes of a packet are: length, ident, kind, payload and two zeros, in that order |
| Rcon.DecodeWire | plugins/others/minecraft.py:41-58 | decoding undoes encoding for every packet and hands back whatever follows |
| Rcon.DecodeIsCanonicalIff | plugins/others/minecraft.py:41-52 | a decoded packet re-encodes to its bytes exactly when the length field is at least ten |
| Rcon.ShortFrameAccepted | plugins/others/minecraft.py:41-52 | a frame with length field 0 is accepted |
| Rcon.ShortFrameIff | plugins/others/minecraft.py:41-52 | exactly which frames with a length field below ten are taken for packets |
| Rcon.FrameLengthIff | plugins/others/minecraft.py:41-52 | the bytes taken for a packet are those the length field announces exactly when it is at least ten; otherwise fourteen, into the packet behind |
| Rcon.ReceivePacket | plugins/others/minecraft.py:62-69 | on every stream in every chunking: the first packet and the bytes behind it, a rejected frame, or a stream that ends too early and is waited on for ever |
| Rcon.ReceivedWire | plugins/others/minecraft.py:55-69 | an encoded packet is received as sent, without a byte of the next |
| Rcon.ReplyOfPackets | plugins/others/minecraft.py:91-97 | for a stream of packets the reply is the payloads with ident 0 before the first other ident, concatenated |
| Rcon.Command | plugins/others/minecraft.py:88-97 | both packets are sent and the reply found in whatever stream comes back is returned, or its error |
| Numerals.ScanValues | plugins/currencyExchange.py:194-222 | the loop over the values computes the scan |
| Numerals.LookUp | plugins/currencyExchange.py:191-200 | the values of the characters; an unknown character is a KeyError, and otherwise a comma a TypeError |
| Numerals.UnderKParse | plugins/currencyExchange.py:180-222 | the whole of `under_k_parse` against its specification, unknown characters and commas included |
| Numerals.Cn2Digits | plugins/currencyExchange.py:224-237 | the loop over the big units against its specification |
| NumeralPrinter.GroupScanned | plugins/currencyExchange.py:197-222 | every canonically written group of up to four digits is scanned to its number |
| NumeralPrinter.RoundTrip | plugins/currencyExchange.py:180-237 | parsing undoes the canonical writing of every number made of 亿, 万 and lower groups, with or without 一 before 十, with any decimals |
| NumeralPrinter.DigitRunIff | plugins/currencyExchange.py:210-221 | a bare digit run is read in base ten exactly when no zero stands behind a non-zero digit, and too small otherwise |
| NumeralPrinter.ChineseDigitsIff | plugins/currencyExchange.py:180-222 | the same for strings of Chinese digits of any length |
| NumeralPrinter.ColloquialTail | plugins/currencyExchange.py:194-195 | a digit behind hundreds or thousands counts in tens of that unit's tenth |
| NumeralPrinter.BigUnitHasNoTail | plugins/currencyExchange.py:224-237 | behind 万 or 亿, with any group of up to four digits before it, a digit counts as itself |
| DecimalNumerals.LiteralRead | plugins/currencyExchange.py:180-184 | ASCII digits with a point are read as the number they all spell, divided by ten for each digit behind the point |
| DecimalNumerals.FractionIsBase10 | plugins/currencyExchange.py:187-189 | decimals are the number they spell, moved behind the point |
| DecimalNumerals.WritingsReadAlike | plugins/currencyExchange.py:180-237 | the ASCII and the canonical Chinese writing of the same number and decimals are read alike, as that number |
| DecimalNumerals.BigUnitCounts | plugins/currencyExchange.py:224-237 | what stands in front of 亿, 兆 or 万 counts in that unit, which DecimalNumerals.UnitValues gives |
| DecimalNumerals.UnitValues | plugins/currencyExchange.py:153-155 | 亿 is 10^8, 兆 10^6 and 万 10^4 |
| DecimalNumerals.UnitWritingsReadAlike | plugins/currencyExchange.py:180-237 | ASCII and Chinese writings with decimals are read alike in front of a big unit as well |
| DecimalNumerals.RepeatedUnitEnds | plugins/currencyExchange.py:228-235 | what stands behind the second occurrence of a big unit is not read |
| DecimalNumerals.VariantsReadAlike | plugins/currencyExchange.py:180-237 | exchanging common, formal and colloquial characters anywhere in a text changes nothing, whether it can be read or not |
| DecimalNumerals.FormalLowDigits | plugins/currencyExchange.py:123-172 | 壹 to 伍 stand for 一 to 五 |
| DecimalNumerals.FormalHighDigits | plugins/currencyExchange.py:123-172 | 陆 to 玖 stand for 六 to 九 |
| DecimalNumerals.FormalUnits | plugins/currencyExchange.py:123-172 | 拾, 佰 and 仟 stand for 十, 百 and 千 |
| DecimalNumerals.ColloquialCharacters | plugins/currencyExchange.py:123-172 | 单 and 上 are one, 两 and 俩 two; point and comma are no numbers |
| DecimalNumerals.UnitLetters | plugins/currencyExchange.py:156-159 | k, w, m and e are their units |
| DecimalNumerals.RefusedIff | plugins/currencyExchange.py:180-222 | exactly which texts without a point are read, and which exception the others raise |
| DecimalNumerals.DecimalsMore | plugins/currencyExchange.py:174-189 | behind the point commas are passed over and every other character leaves the digits of its value |
| Transcript.ShapeAppend | toogle/llm_adapter.py:392-403 | conversations in which every call is answered once, in order, can be joined |
| ToolLoop.Loop | toogle/llm_adapter.py:345-412 | the loop against its specification, for every model |
| ToolLoop.RunKeeps | toogle/llm_adapter.py:352-412 | from any reachable round, against every model, the invariant holds to the end |
| ToolLoop.RoundReturnsIff | toogle/llm_adapter.py:376-389 | exactly which rounds end with an answer, and with which |
| ToolLoop.RoundRaisesIff | toogle/llm_adapter.py:352-412 | exactly which rounds raise, and what |
| ToolLoop.CallsAre | toogle/llm_adapter.py:369-375 | the model's own calls are run, and those in its text only without them, under ids of their own |
| ToolLoop.TextRoundWrites | toogle/llm_adapter.py:376-388 | a round that goes on without calls has written the answer and the reason to go on |
| ToolLoop.CallRoundWrites | toogle/llm_adapter.py:352-411 | a round that goes on with calls has run them all in order, written one reply each, and asked for the final answer exactly when no rounds of calls are left |
| ToolLoop.AnswerIsLastReply | toogle/llm_adapter.py:345-412 | the answer of a run is the text of its last reply, without calls; with `require_search` complete, no mere plan, and behind a labelled tool, or empty without one by the last round |
| ToolLoop.SearchLoopIsSafe | toogle/llm_adapter.py:345-412 | with `require_search`: at most `max_rounds` requests, ten executor calls, none after the final answer was asked for, which happens once at most; every request shows each earlier call answered once in order; non-empty content only with a search label |
| ToolLoop.FreeLoopIsBounded | toogle/llm_adapter.py:352 | without it at most `max_rounds` + 2 requests, all well shaped |
| ToolLoop.CallsRunIff | toogle/llm_adapter.py:390-400 | when calls are run: always without `require_search`, otherwise exactly within budget and with tools on offer |
| ToolLoop.ToolsRunAfterFinal | toogle/llm_adapter.py:390-400 | a run in which a tool is executed after tools were withdrawn |
| KimiSearch.Loop | toogle/llm_adapter.py:193-254 | the loop against its specification, for every model and search service |
| KimiSearch.KimiSearchIsSafe | toogle/llm_adapter.py:193-254 | at most ten requests and ten searches posted, failed ones included, none after the final request, which happens once at most and only with evidence; no answer without a successful search |
| KimiSearch.RequestIs | toogle/llm_adapter.py:198-210 | tools are on offer until ten searches or the last round; then the final answer is asked for, once, if there is evidence |
| KimiSearch.RoundAnswersIff | toogle/llm_adapter.py:214-233 | exactly which rounds end with an answer, and with which |
| KimiSearch.RoundGoesOnIff | toogle/llm_adapter.py:198-253 | exactly which rounds go on, and what they have written |
| KimiSearch.ExecuteRaises | toogle/llm_adapter.py:240-253 | the first search that does not succeed ends the loop and decides about the exception; an unknown one is not posted |
| KimiSearch.AnswerIsLastReply | toogle/llm_adapter.py:193-254 | the answer of a run is the text of its last reply, complete, no mere plan, and behind a successful search |
| FontWrap.GuessInside | toogle/utils.py:175 | the first guess leaves at least two characters behind it |
| FontWrap.FindSplit | toogle/utils.py:175-184 | for every font and every line that is too wide the inner loop ends at the place that `Found` gives, where what is kept fits and one more character reaches the width; it keeps nothing exactly when the line is stuck |
| FontWrap.WideGlyphStays | toogle/utils.py:174-187 | a wider glyph is never split off and the line stays too wide |
| FontWrap.WideNeverEnds | toogle/utils.py:174-187 | so after any number of turns the rest of such a line is too wide |
| FontWrap.NarrowEnds | toogle/utils.py:174-187 | with narrower glyphs there are no more turns than characters, whatever places are found |
| FontWrap.EndsIff | toogle/utils.py:174-187 | the loop over any line ends exactly when it gets on with every rest it comes to, by the rest's first glyph and its average width |
| FontWrap.PassingEnds | toogle/utils.py:174-187 | it ends for every line that passes this test from each of its glyphs on |
| FontWrap.EndingPasses | toogle/utils.py:174-187 | if it ends, the line passes from each glyph on that does not stand behind one of no width |
| FontWrap.LineEndsIff | toogle/utils.py:174-187 | so, unless a glyph of no width stands right in front of one exactly as wide as the box, it ends exactly when no glyph is wider and each one exactly as wide begins a rest that fits or takes up half the box or less per glyph |
| FontWrap.EqualGlyphExamples | toogle/utils.py:174-187 | of two lines with a glyph exactly as wide as the box one ends and one does not |
| FontWrap.WrapLine | toogle/utils.py:173-188 | for every line: if the loop ends, the line is cut into pieces that fit, keep its text, and each break is maximal; if not, it comes to a stuck rest behind such pieces |
| FontWrap.SplitJoin | toogle/utils.py:189 | joining by line feeds is undone by splitting |
| FontWrap.JoinSplit | toogle/utils.py:172-189 | and joining undoes splitting |
| FontWrap.Wrap | toogle/utils.py:170-189 | the same for every text: it ends exactly when every paragraph does, then the lines of the result are exactly the pieces of the paragraphs, and nothing but line feeds has been put in |
| Diamond.Draw | plugins/others/baseball.py:122-129 | the drawn number picks the entry whose share it falls into; the fallback is never reached |
| Diamond.SharesAreWeights | plugins/others/baseball.py:122-129 | shares are disjoint and an entry owns exactly as many numbers as its weight |
| Diamond.PushBalance | plugins/others/baseball.py:244-265 | runners plus batter are afterwards on base or have scored |
| Diamond.PlayBalance | plugins/others/baseball.py:301-390 | after any play the batter and all runners are on base, out, or have scored; at most two outs |
| Diamond.PushMoves | plugins/others/baseball.py:244-265 | everyone on base b, the batter on base -1, is afterwards on base b + n if there is one; the runs are those for whom there is none; nobody else is on base |
| Diamond.EffectIsPlayed | plugins/others/baseball.py:301-390 | every play, base by base: one base on walk and single, two, three and four on the other hits; a double play takes off the lead runner; a sacrifice fly moves the runners up one base |
| Innings.AdvanceKeeps | plugins/others/baseball.py:270-298 | every turn keeps the balance of each half-inning (faced = runs + outs + left, three or four outs), the totals, and equally many halves |
| Innings.FourOutsIff | plugins/others/baseball.py:270-298 | a half-inning is closed with four outs exactly when two are out, someone is on base and a double play is hit |
| Innings.HalfGoesOn | plugins/others/baseball.py:270-298 | with fewer than three out the same side goes on |
| Innings.HalfEnds | plugins/others/baseball.py:270-298 | with three out the half-inning is closed as it was, the bases are cleared and the sides change |
| Innings.OverIff | plugins/others/baseball.py:270-298 | the game is over exactly behind the second half of the ninth or a later round if the totals differ; otherwise the rounds go on |
| Innings.AdvancedTotals | plugins/others/baseball.py:244-265 | a turn adds its runs to the batting side's total and nothing else |
| Baseball.TurnsAreBooked | plugins/others/baseball.py:301-390 | each turn is booked under exactly one outcome, and never as a sacrifice fly |
| Baseball.BatterCounters | plugins/others/baseball.py:301-390 | what a turn adds to each of the batter's counters |
| Baseball.PitcherCounters | plugins/others/baseball.py:301-390 | what a turn adds to each of the pitcher's counters; hits of every kind are booked under one |
| Baseball.Bonuses | plugins/others/baseball.py:301-390 | the batter's bonus is the number of bases of a walk or hit, five for a home run; the pitcher's is for outs; never both |
| Baseball.GainConserves | plugins/others/baseball.py:131-136 | no experience is lost by levelling up, and one level per gain suffices for gains up to ten |
| Baseball.PushRunners | plugins/others/baseball.py:244-265 | the loops of `push` move everyone as specified and charge the scoring runners to the pitcher |
| Baseball.TakeTurn | plugins/others/baseball.py:301-390 | after any play every single base, the runs and the outs (as in Diamond.PlaysOut), and statistics and experience of both players |
| Baseball.Game.Advance | plugins/others/baseball.py:270-298 | one turn of the game is the course's next step, and the books still balance |
| Baseball.Game.Play | plugins/others/baseball.py:270-298 | over any draws each side's runs are the earned runs of the other pitcher and every batter has been up as often as his slot; a finished game is no tie, both sides have batted equally often, and each total is the sum of its half-innings |
| Baseball.Game.EvenTurns | plugins/others/baseball.py:275-277 | the at-bats of nine batters differ by at most one |
| Schedule.CanonicalIff | toogle/scheduler.py:63-103 | the results of normalisation are exactly the canonical schedules |
| Schedule.Idempotent | toogle/scheduler.py:54-103 | normalising twice is normalising once; the id stays, hashed or not |
| Schedule.NormalizeIff | toogle/scheduler.py:54-103 | exactly which items are accepted, and what becomes of each field: numbers of every form, missing flags, configured and made-up ids |
| Schedule.StripIs | toogle/scheduler.py:55 | stripping takes the white space off both ends and nothing else |
| Schedule.ReadBack | toogle/scheduler.py:106-125 | what is written is what the next read returns |
| Schedule.RewriteKeeps | toogle/scheduler.py:106-125 | rewriting a file keeps every schedule and id, legacy ones included |
| ScheduleStore.RemoveManualJob | toogle/scheduler.py:132-137 | removing a manual job by its id never hits another job by its name |
| ScheduleStore.RemovesMatch | toogle/scheduler.py:132-137 | remove_job takes out the first job that has the key as id or name, and nothing else |
| ScheduleStore.RemoveBoth | toogle/scheduler.py:140-148 | removal takes one id out of file and jobs, or nothing out of either |
| ScheduleStore.RemovalWrites | toogle/scheduler.py:140-148 | a removal works exactly when the file can be read and written and holds the id; the next read gives every other schedule unchanged, in the old order, and nothing more |
| ScheduleStore.RemovalKeeps | toogle/scheduler.py:140-148 | and every other job is as it was |
| ScheduleStore.CreateBoth | toogle/scheduler.py:303-332 | creation adds one id to both; refused trigger, unreadable file and failed write leave jobs and file as they were |
| ScheduleStore.CreationAppends | toogle/scheduler.py:303-332 | a creation works exactly when item, trigger and file allow it; the next read gives the old list with the new schedule behind it, and one job is new, with its flag |
| ScheduleStore.LoadLive | toogle/scheduler.py:335-339 | a reload keeps the live jobs and, when it completes, adds one for every stored item |
| ScheduleStore.ReloadSyncsIff | toogle/scheduler.py:335-339 | after a reload jobs and file agree exactly when every stored item has a job, a loadable twin before it, or an acceptable trigger |
| ScheduleStore.StepKeeps | toogle/scheduler.py:201-228 | creation, removal, reload, firing and expiry never leave a job without its item, and all but expiry keep jobs and file in agreement |
| ScheduleStore.NoOrphanJobs | toogle/scheduler.py:132-339 | in no run does a live manual job lack its stored item |
| ScheduleStore.JobsCarryFlags | toogle/scheduler.py:266-275 | in every run each live manual job is single-shot or not as a stored schedule of its id says |
| ScheduleStore.FiringRemovesIff | toogle/scheduler.py:201-216 | the firing of a live job removes its schedule, with all others kept, exactly when its own flag says so, the message went out and the file can be written |
| ScheduleStore.ExpiryBreaksIff | toogle/scheduler.py:219-250 | an expiry breaks the agreement exactly when the job was live |
| ScheduleStore.DatedFiringIff | toogle/scheduler.py:201-216 | a dated schedule whose job is dropped before its firing ends: jobs and file agree behind it exactly when it is single-shot, its message went out and the file could be written |
| ScheduleStore.MissingIsLost | toogle/scheduler.py:132-339 | in every run, expiries included, the stored schedules without a job are exactly those that had none or lost it to an expiry and have since been neither removed nor given a job by a reload |
| ScheduleStore.SyncedIff | toogle/scheduler.py:201-339 | from a start whose load completes, live ids equal stored ids after a run of any steps exactly when no schedule has lost its job like that |
| ScheduleStore.SyncedFromStart | toogle/scheduler.py:201-339 | in particular after any creations, removals, reloads and firings without an expiry |
| Scheduler.Service.ReadSchedules | toogle/scheduler.py:106-113 | the items normalised in order, or the first error |
| Scheduler.Service.WriteSchedules | toogle/scheduler.py:116-125 | every item is normalised first, an invalid one raises before anything is written; then the file is replaced as a whole or not at all |
| Scheduler.Service.AddJob | toogle/scheduler.py:230-250 | all old jobs of the id are removed one by one, then the new one is added if its trigger is accepted |
| Scheduler.Service.RemoveJobNamed | toogle/scheduler.py:132-137 | the first job whose id or name matches is removed |
| Scheduler.Service.RemoveManual | toogle/scheduler.py:140-148 | the method ends in the state of the transition system's removal, and the next read gives all other schedules unchanged and in order |
| Scheduler.Service.CreateManual | toogle/scheduler.py:303-332 | likewise creation with its rollback |
| Scheduler.Service.ReloadManual | toogle/scheduler.py:335-339 | likewise the reload loop |
| Scheduler.Service.AfterFiring | toogle/scheduler.py:201-216 | a single-shot schedule is removed after its message went out, and only then |
| LuckyPocket.Sort | plugins/debug.py:360 | increasing, with the same members |
| LuckyPocket.CutPrefix | plugins/debug.py:361-362 | the pockets up to a cut point sum to that point |
| LuckyPocket.SplitTotal | plugins/debug.py:355-362 | refused exactly for bad numbers; otherwise `num` pockets of at least 1 that sum to the total, cut at the sampled points |
| LuckyPocket.Packet.Claim | plugins/debug.py:383-402 | who is paid what, who is refused, and who is announced: the first member with the most |
| LuckyPocket.ClaimAll | plugins/debug.py:383-402 | over any claims no id is paid twice, claimed plus unclaimed is the total, and the announced winner holds the largest pocket |

## Left out

- Network, HTTP, SQL, images, plotting, the torrent session and the language model services: what they deliver is an input of the model, and may be anything unless said otherwise below.
- Wall-clock time: a deadline or timeout is a step that may happen at any moment.
- `Dice.roll`, the calculators and everything else that goes through `eval` or regular expressions; permissions, cooldowns, balances, histories and configuration.
- Pipeline: producers other than the receive loop and scheduled jobs; a second `worker_start` after a shutdown; what a plugin does with its message; `SystemExit` and `KeyboardInterrupt`, which end the event loop as well.
- Connection: echoes are taken to be distinct, as `uuid4` makes them; whether a frame whose send failed or was cancelled has reached the peer; the waiting time of the reconnect loop, `min(2 * delay, 30)`; `reset_queues`.
- Connection.StepInv: between a failure and the cancellation of the loops both may still go on, although the failed one has ended; the steps run one after the other, as they do on one event loop; only the hand-over of frames by `call_soon_threadsafe` comes from other threads.
- Snap.CostJamRate: the printed rates, which divide by the number of games; the random draw is any card of the deck.
- Binomial.BinomialTheorem: floating-point rounding; the results are over exact reals.
- D20Mapping.Map: the Kullback-Leibler divergence, for want of logarithms; the printed form of a line.
- TorrentReader.Reader.Read: data of the right length is taken to be the verified piece, since libtorrent checks each piece before it is read; `close`; the sleeping loop that waits for a piece.
- Rcon.Command: login; the UTF-8 decoding of the result; errors of the socket other than the end of the stream, on which the loop of `recv` never ends.
- Numerals.Cn2Digits: the replacements of 点, w and e and the attempt at `eval` before it; number literals with exponents, signs or underscores, of which `float` accepts more than ASCII digits with one point; conversion of the result to text and back.
- NumeralPrinter.RoundTrip: numbers from 10^12 on, for which the parser has no unit that it could cut, and 兆, which the table takes to be 10^6.
- ToolLoop.Loop: the text of messages other than what the loop looks at; `parse_dsml_tool_calls`, whose result is part of the reply; exceptions other than those of the request, the payload and the executor.
- KimiSearch.Loop: fetching the search tools, and the note appended to the answer.
- FontWrap.Wrap: kerning; widths add up glyph by glyph and are whole pixels, none negative, and the first guess is computed without rounding errors. `FontWrap.WideNeverEnds` and `FontWrap.NarrowEnds` hold for every place the inner loop may end at, so for every guess.
- FontWrap.LineEndsIff: a glyph of no width right in front of one exactly as wide as the box; `FontWrap.EndsIff` covers such lines by the rests the loop comes to, which there depend on every guess before.
- Baseball.Game.Play: termination of half-innings and of extra rounds, which depends on the draws; the log texts; teams that share a player or have fewer than nine; the default table, which all players of the program share as one object.
- Schedule.Normalize: infinite or undefined numbers, on which `int` raises an exception that is not caught; the order of keys in an object.
- ScheduleStore.CreateBoth: the new id is taken to be fresh, as `uuid4` makes it.
- ScheduleStore: jobs of code plugins beyond being there at the start; what a fired job sends.
- LuckyPocket.Packet.Claim: a record written by an older version without the id list; the balance that is paid; the group's new packet replacing an unfinished one.
