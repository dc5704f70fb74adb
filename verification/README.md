# Verification of the livesub delivery engine

livesub listens to a live stream, has its speech recognised, translates every final sentence into
the languages of a room's outputs and sends the texts to chat rooms through pools of bot accounts.
This project models the part that decides what is sent, when, in which order and by whom, and
proves properties of it in Dafny 4.11:

* the **agent** numbers the sentences and translates them on a bounded set of workers, which finish in
  any order (`WorkerPool.dfy`);
* the **controller** restores the order per output, gives out message ids, delays every message by
  three seconds in one queue compacted in place, honours skips and pauses, cuts long texts into
  wrapped chunks and rotates the chunks over the account pool of the output;
* the **status broadcaster**, the **/off command** and the **model fallback** of the translator are
  smaller companions.

`dafny verify dfyconfig.toml` checks everything.

## How it is built

The controller is modelled twice, and the two are joined.

1. `Delivery.dfy` is a step machine. One step is one critical section of the controller's mutex with
   the goroutine's own work up to the next one, so skips, pause changes and configuration changes
   interleave with the middle of a release, a tick and a flush. Check-then-act gaps of the code (the pause
   flag is read, then a message is queued; the verdict is taken, then the message is sent) are
   separate steps. The list of outputs that the routing loop goes through is taken when a translation
   arrives; a reconfiguration may replace the list, which the running loop does not see, or edit the
   shared one in place, which it does. `Guarantees.dfy` and `Content.dfy` prove what holds in
   every reachable state. `System.dfy` runs this machine together with the agent's; `EndToEnd.dfy`
   composes all parts into what an output sends in a whole run, from the sentences and the translator's
   answers on, and `Quiescence.dfy` adds what holds after `/off`.
2. `Controller.dfy` is the object: a class with the fields of the source, an array as the backing
   store of the delay queue, and loops. Its methods compute the functions of `Sections.dfy` (one critical
   section each), `Passes.dfy` (one tick, one release loop, one routing, one flush) and
   `Loop.dfy` (a whole sequence of translations, ticks, skips, pause changes and updates).
3. `Passes.dfy` and `Loop.dfy` prove that these functions are runs of the step machine, so every
   guarantee of the machine holds of the object's loop. `Bots.dfy` says what the bots of an output receive
   over a whole life of the loop.

`Splitter.dfy`, `Rotation.dfy`, `Routing.dfy` and `Reorder.dfy` hold the algorithms with their
declarative specifications; `Types.dfy` the values.

Code and specification share small functions: which output is found, which rune separates, which languages
match, what a bot replies, which texts are recent, what is shown. What each of them computes is stated once more
in terms of the values alone, with the constants written out: `Sending.SendExact` for all of
`sendMessage`, and the lemmas and predicates it is made of; `Routing.SelectExact` and the three lemmas on
language codes; `Splitter.ChunksExact` and `Splitter.CutsBehindFourRunes`; `Sections.FoundFirst`;
`Guarantees.PendingShown` and `Controller.ShownExact` for what the user interface lists;
`Content.LatestIsLastQueued`; `Degrade.ThirtySeconds`.

### Assumptions

* Output names are distinct and the set of names is fixed while a controller runs: the reorder buffers
  are built once, and a name added later by `SyncOutputs` has none. Every other field of an
  output may change at any time.
* The clock does not go backwards and the delay is the constant 3 s.
* The bots' answers, the translator's answers, the arrival of results and the times are parameters or
  nondeterministic steps. The bot pool does not change during the send of one message; between
  messages it may.
* A text is a sequence of runes. Times are nanoseconds where the controller uses `time.Time` and
  milliseconds where it shows them.

### Where the code does less than its names or comments say

Each is proved, with the exact condition where there is one.

* `splitWithWrap` is documented to make chunks that fit the limit; when prefix and suffix leave no
  room it returns the text too long (`Splitter.ChunksFit`, `Rotation.ChunksFitEveryAccount`).
* `IsAnyPaused` answers whether **all** outputs are paused, as its comment says and its name does not.
* `handleSkip` passes any number on to `SkipPending`. Skipping an id before it is issued suppresses the
  message while the list of pending messages shows it (`Guarantees.PendingListsExact`,
  `Guarantees.EarlySkipBreaksIndex`). Callers that name issued ids only are safe
  (`Guarantees.IssuedSkipsLeaveNoEarly`).
* A restarted pipeline numbers from 0 again while the controller goes on counting, so the first sentences of
  the new cycle are lost (`Reorder.WholeCycle`, `System.LostOnRestart`).
* The flush at shutdown ignores pause flags and due times (`Guarantees.FlushIgnoresPause`).
* After `/off` has returned, what had passed its gate before still happens, at most one message sent, one
  queued and one sentence numbered (`Quiescence.QuietAfterOff`). Nothing happens if and only if nothing was
  past a gate (`Quiescence.NothingAfterOff`), and a run in which a message is sent after the last flag was
  set is given (`Quiescence.SentAfterOff`).
* The two atomics of the model fallback are read and written one by one. A caller that takes the fallback
  looked at the clock less than 30 seconds after an error, or before one (`Degrade.FallbackOnlyInWindow`),
  but inside the window a caller may get the primary model: exactly when the flag was cleared since the last degrade or, having seen it set,
  the end stored last has passed (`Degrade.ChoiceExact`). This happens even when the two stores
  of every degrade are adjacent (`Degrade.InterleavedDegradeIsLost`), and never when calls do not overlap
  (`Degrade.OrderlyKeepsRule`).
* `Stop` may find the context cancelled already, since the agent returns only on cancellation; then the
  loop may end without the flush. A loop that has ended dealt with all messages if and only if it flushed
  or none was waiting (`Guarantees.StoppedExact`); a run that loses a message is given
  (`Guarantees.CancelLoses`).

## Model

| member | source | states |
|---|---|---|
| Splitter.RoundTrip | internal/controller/controller.go:587-620 | Every chunk is prefix, content, suffix; the contents join to exactly the text, and when the text is split each piece but the last ends behind the last separator of the second half of its window, or fills a window whose second half has none, and the last is non-empty and fits the room. |
| Splitter.GreedyUnique | internal/controller/controller.go:603-618 | That description has one solution: two greedy divisions of a text are the same. |
| Splitter.GreedyHalfFull | internal/controller/controller.go:603-618 | In a greedy division every piece is non-empty and fits the room, and all but the last carry more than half of it. |
| Splitter.PiecesGreedy | internal/controller/controller.go:601-619 | The pieces join to the text and every cut is greedy. |
| Splitter.ChunksExact | internal/controller/controller.go:587-620 | In terms of the runes alone: one chunk when there is no limit, the wrapped text fits or prefix and suffix leave no room; else the chunks are the wrapped stretches between cuts, each behind the last of the four runes space, U+3001, U+FF0C, U+3002 in the second half of its window or at the end of a window whose second half has none, and the last stretch is non-empty and fits. |
| Splitter.CutsBehindFourRunes | internal/controller/controller.go:609-614 | "hello" r "big" r "world" with limit 9 is cut behind the first r if and only if r is one of the four runes. |
| Splitter.ChunksFit | internal/controller/controller.go:587-619 | All chunks fit the limit if and only if the wrapped text fits as it is or the limit exceeds prefix and suffix. |
| Splitter.ChunkCount | internal/controller/controller.go:593-619 | A split of n runes with room c yields at least two chunks, between ceil(n/c) and 2 ceil(n/c), and (k - 1)(c + 1) is at most 2(n - 1) for k chunks. |
| Splitter.FindBreak | internal/controller/controller.go:609-615 | The backward scan ends the chunk at the greedy cut and always makes progress. |
| Splitter.SplitWithWrap | internal/controller/controller.go:587-620 | The loop computes exactly the chunks of the specification, and terminates. |
| Rotation.MinLimit | internal/controller/controller.go:543-551 | The limit is the least positive limit of the bots present, and 0 exactly when none has one. |
| Rotation.LimitIsLeast | internal/controller/controller.go:543-551 | Every account present with a positive limit bounds the limit from above, and the limit is that of one of them or 0. |
| Controller.MinMessageLen | internal/controller/controller.go:543-551 | The loop computes that limit. |
| Rotation.ChunksFitEveryAccount | internal/controller/controller.go:538-571 | With the pool unchanged all chunks fit all bots, wherever the rotation stands, if and only if no bot has a limit, the text fits as a whole, or the least limit leaves room beside prefix and suffix. |
| Rotation.AttemptsFit | internal/controller/controller.go:543-571 | Under that condition no attempt hands a bot a message over its limit, with missing and unlimited bots too. |
| Rotation.AttemptsRotate | internal/controller/controller.go:554-571 | The attempts of a message take the chunks in order and the accounts in rotation, a missing bot loses its chunk only, and the message ends early only right after a failed send. |
| Rotation.AttemptsExact | internal/controller/controller.go:554-571 | From any stored index the j-th attempt takes the account j places after it and chunk j; it is missing if and only if the account is not in the pool, failed if and only if it is and the send of chunk j errs; no attempt before the last has failed, and fewer attempts than chunks mean that the last one has. |
| Rotation.OneFailure | internal/controller/controller.go:554-571 | Hence the number of attempts is k + 1 for the first chunk k whose bot is there and fails, and the number of chunks when there is none. |
| Rotation.PrefixExact | internal/controller/controller.go:538-541 | The configured prefix, followed, when numbers are shown, by the keycap of the message number modulo eleven, ten being the keycap U+1F51F. |
| Rotation.ChainIsAttempts | internal/controller/controller.go:554-571 | Attempts that follow chunks and rotation one by one, none after a failure, up to the last chunk or a failure, are the attempts of the specification. |
| Rotation.FinalIndex | internal/controller/controller.go:556-559 | The index stored after a message is that of the account after the one tried last. |
| Rotation.CyclicTries | internal/controller/controller.go:554-559 | In a sequence whose j-th attempt uses account j mod k, account a was tried floor(n/k) times, once more if a < n mod k. |
| Sections.FoundFirst | internal/controller/controller.go:514-524 | The output found is the first of the name wherever it stands; none is found if and only if none has the name. |
| Sending.NothingWithoutAccount | internal/controller/controller.go:514-530 | When no output has the name, or the first that has it has no account, nothing is sent, counted or shown. |
| Sending.SendExact | internal/controller/controller.go:513-582 | All that a send does, in terms of configuration, bots and text: accounts are the list or else the single one; the limit is the least of the bots present; the chunks are the wrapped stretches between right cuts; chunk j goes to the account j places after the stored index, up to the first bot that is there and fails; the stored index of this output only advances by the attempts made; under the mutex only its recent list changes, to the last five texts. |
| Routing.FanOut | internal/controller/controller.go:642-686 | A language is requested if and only if some output has it as target and it differs from the detected one; the submitted texts are exactly the successful answers. |
| Routing.SelectExact | internal/controller/controller.go:377-388 | For any texts: the source text without a target; else the translation when there is one and it is not empty; else the source text if and only if the codes share their first two runes or are cmn and zh; else nothing. |
| Routing.SameCodeNeedsNone | internal/controller/controller.go:626-634 | A target with the same first two runes as the detected language is not requested and gets the sentence itself. |
| Routing.MandarinNeedsNone | internal/controller/controller.go:635-637 | So for a target zh of a sentence detected as cmn. |
| Routing.OthersNeedOne | internal/controller/controller.go:626-648 | Every other target of an output is requested, also when a code is shorter than two runes, and gets the answer, or nothing when the call fails. |
| Routing.SelectionAgreesWithFanOut | internal/controller/controller.go:377-388 | For the same outputs the controller selects the source text when the target is empty or matches, else exactly that language's answer, else nothing. |
| Routing.SelectionAfterRetarget | internal/controller/controller.go:377-388 | For an output whose target changed in between, the selection is still right if and only if the new language needs no translation, was requested anyway, or has no text. |
| Content.RecentAreLastSent | internal/controller/controller.go:573-581 | While an output has an account, its recent list holds, in every reachable state, the last five texts sent for it, or all when there are fewer. |
| Content.LatestIsLastQueued | internal/controller/controller.go:421-431 | The text shown as the last of an output is the last one queued for it, in every reachable state. |
| Sections.ViewHide | internal/controller/controller.go:269-278 | Removing the first entry with a skipped id is the same as hiding that id from the queue's view. |
| Sections.ViewComplete | internal/controller/controller.go:421-429 | Every queued message of an output that is not hidden is listed. |
| Reorder.AlwaysInStep | internal/controller/controller.go:390-405 | After any arrivals, repeated ones too, the next number is the least not received, the buffer holds exactly the received numbers above it, and the texts released are those below it, in sequence. |
| Reorder.WholeCycle | internal/controller/controller.go:390-405 | When all numbers of a cycle have arrived in any order, the texts from the next number on come out in sequence; all of them do if and only if the buffer started at 0 or there are none. |
| Reorder.LaterTextWins | internal/controller/controller.go:390-392 | A number that arrives twice before its release carries the later text. |
| Reorder.SecondCycleLosesText | internal/agent/agent.go:151-166 | Two cycles of one text each: the second text is lost. |
| Delivery.InitialInv | internal/controller/controller.go:88-123 | A fresh controller satisfies the invariant. |
| Delivery.KeepsInv | internal/controller/controller.go:316-511 | Every step of the loop, of a tick's compaction, of a flush, every skip, pause change and reconfiguration keeps the whole invariant: ledger, due times, reorder buffers, fates, skip set, pending lists, flags. |
| Delivery.RunKeepsInv | internal/controller/controller.go:316-511 | Hence every reachable state satisfies it. |
| Delivery.KeepsInvTaken | internal/controller/controller.go:454-496 | Taking a due message keeps the invariant in the middle of the compaction, with the queue read as kept ++ unread. |
| Delivery.KeepsInvEnqueued | internal/controller/controller.go:416-440 | Queueing a message keeps it, whatever happened since the pause flag was read. |
| Delivery.KeepsInvSkip | internal/controller/controller.go:265-279 | A skip keeps it, at any point. |
| Delivery.NoneKept | internal/controller/controller.go:454-461 | When a message is due, none before it was kept: a tick takes a prefix of the queue. |
| Guarantees.SentInOrder | internal/controller/controller.go:390-511 | For each output, over ticks and flush of any run, the messages handed to `sendMessage` have strictly increasing sequence numbers: none overtakes another, none is sent twice. |
| Guarantees.SeqsConserved | internal/controller/controller.go:390-441 | Every sequence number an output has taken in is in exactly one place: buffered, held between release and queue, or settled with one fate: no text exactly when its text is empty, else dropped or queued under an id that carries its text. That only a pause drops is `Content.NeverDropped`. |
| Guarantees.MessagesConserved | internal/controller/controller.go:416-511 | Every id issued stems from exactly one sequence number of its output, carries that text, and is in exactly one stage: waiting, in hand, or over with one outcome. |
| Guarantees.TakenInOrderAndOnTime | internal/controller/controller.go:416-496 | The messages taken over all ticks and the flush are a prefix of those queued, the rest waits in order, and no tick hands a message over before it is due. |
| Guarantees.PendingLists | internal/controller/controller.go:265-279 | Before the flush, in the middle of ticks too, an output's pending list is its waiting messages in order without those skipped after they were issued. |
| Guarantees.PendingShown | internal/controller/controller.go:421-429 | Entry by entry: the pending list announces, in the order of the queue, with id, text and due time in whole milliseconds, exactly the waiting messages of the output that were not skipped after they were issued. |
| Guarantees.PendingListsExact | internal/controller/controller.go:416-497 | The lists are the queue minus the whole skip set if and only if no waiting message was named only by skips before its id was issued. |
| Guarantees.IssuedSkipsLeaveNoEarly | internal/controller/controller.go:266-269 | Callers that name issued ids only keep that condition. |
| Guarantees.EarlySkipBreaksIndex | internal/web/server.go:636-651 | A concrete run in which a skip of an unissued id leaves a message listed that will not be sent. |
| Guarantees.SkipIsFinal | internal/controller/controller.go:463-510 | Once an issued id that still waits is skipped, in every continuation it waits in the skip set or has been skipped; no tick or flush sends it. |
| Guarantees.SkipDooms | internal/controller/controller.go:266-279 | A skip of a waiting message starts that. |
| Guarantees.SkippedOnlyOnRequest | internal/controller/controller.go:463-485 | A message skipped in any run was named by a skip; a leftover entry never suppresses another message. |
| Guarantees.SkipsAreUsedUp | internal/controller/controller.go:463-510 | In every continuation without another skip of the id, an id that was not taken at first or not in the skip set is not in it once its message has been taken, on a tick or in the flush. |
| Guarantees.FlushIgnoresPause | internal/controller/controller.go:499-511 | The flush sends every waiting message but the skipped ones, due or not, paused or not, and leaves none. |
| Guarantees.StoppedExact | internal/controller/controller.go:337-450 | When the loop has ended, all messages ever queued have been dealt with if and only if it flushed or the queue was empty. |
| Guarantees.CancelLoses | internal/controller/controller.go:448-449 | A run from the start that a cancellation ends with a message in the queue and none dealt with. |
| Guarantees.FateIsFinal | internal/controller/controller.go:395-414 | The fate of a released number and the text accepted for it never change, whatever arrives under it later. |
| Guarantees.RoutedAsConfigured | internal/controller/controller.go:377-392 | When the list of outputs is only replaced while a translation is routed, the text of each output is selected by its target at the arrival of the translation. |
| Guarantees.RoutedAsEdited | internal/web/server.go:1112-1118 | An edit in place of an output the routing loop has not got to yet decides its text. |
| Content.NeverDropped | internal/controller/controller.go:407-414 | An output that starts unpaused and is never paused loses no text, neither at release nor at sending, in any run. |
| Content.PausedAddsNothing | internal/controller/controller.go:407-490 | While the flag of one output is set, in every continuation until the flush, what is sent and queued for it is what had passed its gate before, whatever other outputs do. |
| Content.QueuedInSequence | internal/controller/controller.go:395-441 | In every reachable state the messages ever queued for an output carry, in order, exactly the texts of its numbers whose fate is an id: none twice, none left out. |
| Content.AllSent | internal/controller/controller.go:454-511 | When no message of an output was skipped or dropped, the texts sent are the texts queued. |
| EndToEnd.Project | internal/controller/controller.go:316-452 | Every run of the whole pipeline is a run of the controller, so all guarantees hold in the pipeline. |
| EndToEnd.RunLabelled | internal/controller/controller.go:377-392 | Every buffer holds under number k exactly the text selected from result k. |
| EndToEnd.EverythingSentInOrder | internal/controller/controller.go:316-511 | At a graceful close, when at most one cycle gave numbers, what a never paused output without skips has handed to `sendMessage` is exactly the non-empty texts selected for it from results 0 .. most-1, in that order, for every arrival order, timing and treatment of the other outputs. |
| EndToEnd.TranslatedAndSentInOrder | internal/controller/controller.go:642-686 | When every result is the fan-out of its sentence over outputs with the target language among them, what that output has handed to `sendMessage` is exactly, in the order of recognition, each sentence itself where no translation is needed and otherwise the translator's answer, without those that are empty or failed. |
| Bots.TextsReachTheBots | internal/controller/controller.go:513-571 | Over any events and either ending, with all bots of an output there and no send failing, the chunks its bots receive are those of the messages sent for it, message by message and in order, each cut for the configuration and the pool of its tick or flush; unwrapped, the chunks of each message join to its text. |
| Bots.EveryChunkFits | internal/controller/controller.go:543-571 | Over any events and either ending, with bots missing and sends failing too, no bot is handed a chunk over its limit, when at each tick and at the flush the least limit leaves room beside prefix, number and suffix. |
| Delivery.SendInFrame | internal/controller/controller.go:513-582 | Under the mutex a send changes only the recent list of its own output. |
| Passes.TickPartitions | internal/controller/controller.go:454-497 | A tick keeps exactly the messages not due and takes exactly the due ones, both in order, whatever the due times. |
| Passes.TickIsARun | internal/controller/controller.go:454-497 | The function of a tick is a run of the machine. |
| Passes.FlushIsARun | internal/controller/controller.go:499-511 | So is that of the flush, with the same outcomes. |
| Passes.DrainQueuesTexts | internal/controller/controller.go:395-441 | One release loop queues the non-empty texts of the buffer in sequence, or nothing when the output is paused, and advances the buffer past them. |
| Passes.DrainCounts | internal/controller/controller.go:416-439 | Ids and emoji numbers are used up one for each message queued. |
| Passes.DrainNumber | internal/controller/controller.go:416-439 | The i-th message queued gets the i-th id and emoji number and is due three seconds after it was queued. |
| Passes.DrainIsARun | internal/controller/controller.go:395-441 | The function of a release loop is a run of the machine. |
| Passes.RouteIsARun | internal/controller/controller.go:377-442 | So is routing a translation to all outputs. |
| Loop.TurnIsARun | internal/controller/controller.go:337-450 | One event, a translation, a tick, a skip, a pause change or an update of an output, is a run of the machine. |
| Loop.LoopIsARun | internal/controller/controller.go:316-452 | Any sequence of these events is a run of the machine, with the same configuration, buffers, queue, flags and outcomes. |
| Loop.LoopIsReachable | cmd/livesub/main.go:309-313 | From what the constructor and any pause changes before `Start` leave, the state of the loop after any events is a reachable state of the machine, so it satisfies every guarantee. |
| Loop.PausingKeepsStart | internal/web/server.go:142-145 | Pause changes before the start, also of unknown names, leave a start state. |
| Loop.UpdatedAt | internal/controller/controller.go:164-172 | An update replaces the first output of the name and no other, or changes nothing. |
| Loop.CloseIsARun | internal/controller/controller.go:339-344 | The flush on the closed channel is a run of the machine that ends stopped, with an empty queue and the same protected fields and outcomes. |
| Loop.EndIsARun | internal/controller/controller.go:448-449 | Either ending of the loop, flush or cancellation, is a run of the machine to the same fields, queue, buffers and outcomes. |
| Loop.MessageAccount | internal/controller/controller.go:554-561 | Whatever index is stored, also from a pool of another size, the j-th attempt of a message uses the account j places after it, in range. |
| Loop.SendKeepsTurn | internal/controller/controller.go:513-582 | A send of any output keeps every output in turn: its j-th attempt so far used account j mod k. |
| Loop.LoopIsFair | internal/controller/controller.go:526-571 | Over any events and the flush, with sends, skips, pauses and updates of all outputs interleaved, each of the k accounts of an output is tried floor(a/k) or ceil(a/k) times in `a` attempts, with missing bots, failed sends and changing bot pools, as long as updates keep the number of its accounts. |
| Controller.RemoveFirst | internal/controller/controller.go:272-277 | Removes the first entry with the id and nothing else. |
| Controller.RemainSec | internal/controller/controller.go:293-296 | The remaining seconds are the least number, not negative, that reaches the due time. |
| Controller.ShownExact | internal/controller/controller.go:282-305 | The states shown are those of exactly the configured outputs that have one, in configuration order; each pending entry shows the least number of seconds, not negative, that reaches its due time. |
| Controller.Controller.constructor | internal/controller/controller.go:88-123 | All outputs start unpaused with empty lists, buffers and queue. |
| Controller.Controller.SetPaused | internal/controller/controller.go:154-161 | Sets the flag that gates the output and the one shown. |
| Controller.Controller.TogglePause | internal/controller/controller.go:143-151 | Inverts both and returns the new value, true exactly when the flag was absent or clear. |
| Controller.Controller.UpdateOutput | internal/controller/controller.go:164-172 | Replaces the first output with the name of the new configuration. |
| Controller.Controller.IsAnyPaused | internal/controller/controller.go:254-263 | True exactly when all outputs are paused and there is one. |
| Controller.Controller.SkipPending | internal/controller/controller.go:266-279 | Adds the id to the skip set and removes the first entry with it from every pending list. |
| Controller.Controller.OutputStates | internal/controller/controller.go:282-305 | The states of the configured outputs in configuration order, with the remaining seconds. |
| Controller.Controller.Find | internal/controller/controller.go:514-524 | The first output of the name wherever it stands; none if and only if none has the name. |
| Controller.Controller.SendMessage | internal/controller/controller.go:513-582 | Makes exactly the attempts of the specification, stores the rotation index and the recent text; nothing without an output or accounts. |
| Controller.Controller.SendChunks | internal/controller/controller.go:554-571 | The loop with its continue and break makes exactly those attempts. |
| Controller.Controller.SendChunk | internal/controller/controller.go:556-570 | One pick of an account, which advances the index also when the bot is missing or fails; the reply is missing if and only if the bot is not there, failed if and only if it is there and errs. |
| Controller.Controller.AddToRecent | internal/controller/controller.go:573-581 | Appends the text to the recent list, cut to the last five. |
| Controller.Controller.Append | internal/controller/controller.go:432-438 | The queue is the old one and the message, in place or in a larger array. |
| Controller.Controller.TakeDue | internal/controller/controller.go:463-495 | A due message is taken off the lists and skipped, dropped or sent, in this order of tests. |
| Controller.Controller.ProcessOne | internal/controller/controller.go:457-495 | A message not due is written over one already read; everything unread stays. |
| Controller.Controller.Compact | internal/controller/controller.go:454-497 | The compaction in place computes the whole tick: the front of the array holds the messages kept, and state, sends and outcomes are those of the due ones in order. |
| Controller.Controller.ProcessDelayQueue | internal/controller/controller.go:444-446 | The queue after a tick is the stable filter of the messages not due. |
| Controller.Controller.FlushDelayQueue | internal/controller/controller.go:499-511 | Sends all but the skipped messages, consumes their skips and returns the outcomes of the specification. |
| Controller.Controller.Admit | internal/controller/controller.go:416-438 | Gives the next id, lists the message and queues it. |
| Controller.Controller.ReleaseOne | internal/controller/controller.go:396-441 | One turn of the release loop. |
| Controller.Controller.ReleaseNext | internal/controller/controller.go:395-441 | One turn appends to the queue exactly what it puts before the outcome of the remaining turns, and shrinks the buffer. |
| Controller.Controller.DrainOutput | internal/controller/controller.go:395-441 | The release loop queues everything that has become ready. |
| Controller.Controller.TextFor | internal/controller/controller.go:378-388 | Selects the text of an output. |
| Controller.Controller.RouteTo | internal/controller/controller.go:377-441 | Buffers the text of one output and releases what is ready. |
| Controller.Controller.RouteNext | internal/controller/controller.go:377-441 | One output appends to the queue exactly what it puts before the outcome for the remaining outputs. |
| Controller.Controller.Consume | internal/controller/controller.go:377-442 | Routes a translation to all outputs in configuration order. |
| Controller.Controller.Handle | internal/controller/controller.go:337-450 | One event takes the object from an engine of `Loop` to that after the event. |
| Controller.Controller.Run | internal/controller/controller.go:316-452 | The loop over any events, with skips, pause changes and updates between its turns, and either ending, computes the engine of `Loop`. |
| WorkerPool.KeepsCounters | internal/agent/agent.go:148-174 | Semaphore and wait group count the workers exactly, whose numbers are distinct. |
| WorkerPool.KeepsPartition | internal/agent/agent.go:165-177 | Every number given is received, in the channel, being translated or waiting for a slot, exactly once. |
| WorkerPool.KeepsContiguous | internal/agent/agent.go:151-166 | Numbers are given without gaps, since paused results are discarded before numbering. |
| WorkerPool.Backpressure | internal/agent/agent.go:143-175 | At most `workers` goroutines hold slots; numbers given but not received are at most `workers` + 101. |
| WorkerPool.SubmitWaits | internal/agent/agent.go:165-175 | A translated result waits for the channel exactly while 100 results are in it. |
| WorkerPool.NumberedInOrder | internal/agent/agent.go:151-166 | A cycle numbers 0, 1, 2, ... in order, each once in the first cycle. |
| WorkerPool.WaitMeansSubmitted | internal/agent/agent.go:177-178 | When the wait group is done, every number given was submitted exactly once. |
| WorkerPool.NoSubmitAfterClose | cmd/livesub/main.go:327-332 | Once the channel is closed no submission is ever possible. |
| System.KeepsInv | internal/agent/agent.go:151-178 | Agent, channel and controller together: an output has taken in exactly the numbers received, up to the one being routed. |
| System.RunKeepsInv | cmd/livesub/main.go:327-332 | Hence in every reachable state of the pipeline. |
| System.RunKeepsStrays | internal/controller/controller.go:391-401 | A number below the next one stays in a buffer only if it was received twice. |
| System.CompleteAtClose | internal/controller/controller.go:339-344 | At a graceful close every number given was received, every output has released exactly 0 .. most-1, each with its fate, no message waits, and the buffers are empty but for numbers given twice; when at most one cycle gave numbers they are empty, and in a single cycle `most` is the number dispatched. |
| System.LostOnRestart | internal/agent/agent.go:151-166 | Over several cycles an output has fates for all translations if and only if at most one cycle numbered a result. |
| Quiescence.QuietAfterOff | internal/controller/controller.go:253-263 | Once all outputs are paused, in every continuation without a resume or flush they stay so, and what is sent, queued and numbered is what had passed its gate before. |
| Quiescence.NothingAfterOff | internal/agent/agent.go:161-166 | Every quiet continuation sends, queues and numbers nothing if and only if nothing was past a gate. |
| Quiescence.SentAfterOff | internal/controller/controller.go:478-493 | A run from the start in which a message is sent after `/off` has set the last flag. |
| Quiescence.OffPausesAll | internal/command/handler.go:201-205 | When `/off` has set the flag of every output, among any other steps but a resume, all outputs count as paused if and only if every other flag was set before or got set meanwhile. |
| Quiescence.QuietAfterCommand | internal/command/handler.go:201-205 | From then on every quiet continuation sends, queues and numbers only what had passed its gate when the command was through. |
| Quiescence.GatesShut | internal/controller/controller.go:407-414 | Nothing passes a gate in between. |
| Pausing.PauseAll | internal/command/handler.go:201-205 | Sets both flags of every output shown and no other; after `/off` the agent is gated if and only if every flag of an output not shown was set already. |
| Broadcast.KeepsInv | internal/web/server.go:571-634 | Each change, notification, callback, token, snapshot and connection keeps the invariant of the coalescer. |
| Broadcast.NoLostUpdate | internal/web/server.go:569-583 | In every reachable state a notified change newer than what a client was shown implies a callback, a token or a broadcast that will still read it for this client. |
| Broadcast.QuietMeansUpToDate | internal/controller/controller.go:77-84 | When nothing is under way, every client has been shown every notified change. |
| Broadcast.Slot.Offer | internal/web/server.go:571-576 | The non-blocking send is the callback step of the machine; it leaves a token, which stands for all offers since the last take. |
| Broadcast.Slot.Take | internal/web/server.go:579-582 | The receive is the machine's step that takes the token; it covers every offer so far. |
| Degrade.Translator.ActiveModel | internal/translate/gemini.go:172-182 | Taken as one step, it chooses the primary model if and only if no rate-limit error lies within the last 30 s. |
| Degrade.Translator.RateLimited | internal/translate/gemini.go:76-77 | Taken as one step, an error starts or extends the window. |
| Degrade.LastDecides | internal/translate/gemini.go:77 | Some error lies in the window exactly when the last one does. |
| Degrade.ThirtySeconds | internal/translate/gemini.go:77 | The window of the last error at t, in milliseconds, holds up to t + 29999 and is over from t + 30000 on. |
| Degrade.AfterOneError | internal/translate/gemini.go:172-182 | After an error at t the choice is the fallback at t + 29999 and the primary model at t + 30000. |
| Degrade.FallbackOnlyInWindow | internal/translate/gemini.go:172-182 | However callers interleave on the two atomics and the clock, one that has chosen the fallback looked at the clock less than 30 s after an error that had occurred when it settled its choice. |
| Degrade.ChoiceExact | internal/translate/gemini.go:172-182 | For every choice of every run: outside the window it is the primary model; inside, it is the primary model if and only if the flag was cleared since the last degrade or, having seen it set, the end stored last has passed. |
| Degrade.PrimaryBackExact | internal/translate/gemini.go:76-77 | The flag is up exactly when there was a degrade and no clear since the last one, and the stored time is that of the last store, so both together say when the primary model is back. |
| Degrade.OrderlyKeepsRule | internal/translate/gemini.go:67-77 | When calls do not overlap, every choice is the primary model if and only if no error lies within the last 30 s. |
| Degrade.InterleavedDegradeIsLost | internal/translate/gemini.go:76-77 | A concrete run, with the steps of each degrade adjacent, that ends with a choice of the primary model inside the window. |

## Left out

- Degrade.Translator.ActiveModel: takes the two loads and the clearing store of `activeModel` as one step; with these interleaved the rule fails, also when a degrade is one step. The machine of the same file has each load, store and look at the clock as a step and gives the exact condition.
- Degrade.Translator.RateLimited: takes the two stores of a degrade as one step; the machine of the same file does not.
- Controller.Controller.UpdateOutput: copies nothing into the state shown; target language, room, bots and the flag for numbers of a state are not modelled. The source has no caller of it: edits of the web server reach the controller in the shared list and through `SyncOutputs`, which are the reconfiguration step of the machine.
- Broadcast.NoLostUpdate: a change counts as shown when the snapshot for the client has read it; a failed write disconnects the client.
- Loop.LoopIsARun: skips, pause changes and updates come between the turns of the loop; those in the middle of a turn are interleavings of the machine.
- Content.RecentAreLastSent: is about outputs that keep an account; a message of an output without one is not sent and not recorded.
- Controller.Controller.Run: the choice of the select statement is the given sequence of events; the transcript log of a translation is not part of this model.
- Controller.Controller.SendChunk: the body of the chunk loop is a method of its own here, as are the bodies of the routing loop, the release loop, the tick's loop and the event loop, the update of the recent list and the assignment of the compacted queue, which the source writes inline or in the caller.
- Controller.Controller.Append: the growth of the array is some growth, not Go's; the aliasing of `queue[:0]` with the queue is modelled.
- Routing.FanOut: asks for the languages one after another; the source asks concurrently and joins, which gives the same map.
- Wrap-around of 64-bit ids and counters, and texts that are not valid UTF-8.
- Language codes are compared as plain sequences; the code compares byte prefixes, which is the same for ASCII codes.
- The other effects of `SyncOutputs`: outputs added, removed or reordered, and the pause flags it drops of names without an output; and the pointer that `GetOutputState` gives out, through which a shown state changes outside the mutex. `SetShowSeq` is a reconfiguration step and has no method of its own.
- Progress after cancellation: the loop may end with messages queued.
- The room a chunk is sent to, the configured one or else the streamer's.
- Name, platform, room and bot names of an output state, which are copied and not computed with.
- The recognition results, ffmpeg, the Gemini requests with the check for untranslated output, and the Bilibili library: foreign calls, represented by their results.
- Agreement of the web server's own pause map with the controller's: the code does not keep it.
- The registry of active rooms in `cmd/livesub/main.go`, the SQLite store, sessions, HTTP handlers, file handling and the restart backoff: no property beyond single bodies.
