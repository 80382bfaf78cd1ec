# MonitorQueue: a verified model

This project models the three parts of MonitorQueue in which correctness is not
visible in any single function, and proves what they promise.

1. **The monitored priority queue** (`server/Queue.cpp`, `server/Queue.hpp`).
   `QueueModel` holds the mutex-protected state as a value, with eight elementary
   transitions and the structural invariant. `QueueSystem` is the threaded queue:
   publishers, consumers, the monitor and the delay thread, one atomic step per
   critical section; a condition-variable wait ends a step with the thread asleep,
   notified threads compete for the lock again, and sleepers may wake spuriously.
   `QueueInvariant`, `QueueWakeups`, `QueueHistory`, `QueueService`, `QueueOrder`,
   `QueueScans` and `QueueTermination` prove what holds in every run, and `QueueWitnesses` gives
   runs from the empty queue that do something unexpected. `MonitoredQueue` is the
   class itself, with entries shared between the map, the pool, the deques and the
   delay set; every method is proved to do what the same step of `QueueSystem` does, and
   `QueueLaws` says in plain numbers what those steps do.
2. **Printing numbers** (`server/libjson.hpp`). `DiyFp`, `ExactPowers`,
   `CachedPowers`, `DigitGeneration` and `Grisu` are the 64-bit arithmetic of Grisu2: no operation
   wraps, and the digits denote a number strictly between the midpoints to the
   neighbouring doubles. Every entry of the table of powers is proved accurate.
   `NumberText` writes the digits as text and proves what a reader makes of it;
   `TextLength` says which texts are too long for the array declared for them, and
   `NumberLaws` which bits, notations and characters are meant.
3. **JSON** (`server/libjson.hpp`). `JsonParser` states the parser's mutually
   recursive state machines as functions, and `JsonReader` runs them with cursors
   and loops; `JsonGrammar` gives a grammar with every token and all whitespace and
   proves that each of its texts is read as the value of its tokens; `JsonLanguage`
   proves that nothing else is accepted, and `JsonStandard` compares the accepted
   texts with those of RFC 8259, whose numbers `DecimalText` deals with; `JsonMeaning`
   says what such a text denotes, and when it is read as that. `JsonPrinter`
   is the printer, `JsonRoundTrip` joins it with the parser, numbers included, and
   `JsonLosses` says exactly which values come back unchanged; `JsonLaws` lists the
   characters and the errors by their codes. `strtod` is a parameter
   of all this. What is asked of it is named where it is needed: it rounds to nearest,
   does not look beyond a delimiter, takes every number of RFC 8259 as a whole and, where
   a number starts, nothing but characters of words. `IdealReader` proves that one reader
   does it all, leading whitespace skipped.

`Sequences`, `Keys` (the order of `std::map`) and `Powers` are shared foundations.
`cached_powers.py` writes `ExactPowers.dfy` and `CachedPowers.dfy` from the definition
of the table.

Run `dafny verify dfyconfig.toml` to check everything.

## Where the code and its description differ

- The constructor's comment calls `a_msg_max_retries` the number of retries before
  a message is failed. The code fails a message at timeout number R, that is after
  R - 1 retries, at number 256 for R = 0 (the counter has 8 bits), and never for
  R >= 256 (`QueueHistory.FailsExactlyAtLimit`). With R = 1 there is no retry at all
  (`QueueWitnesses.FailsWithoutRetry`).
- A queue is not first in, first out. A message whose delay has passed goes to the
  serving end (`QueueService.ReleasedServedFirst`), so it can be popped before one that
  was pushed earlier (`QueueWitnesses.LaterMessageOvertakes`). Within a queue this is the only way:
  while a message waits in a queue, something gets ahead of it exactly if a delayed
  message is released into that queue (`QueueOrder.OvertakenExactly`), so never as long
  as no message of that priority is delayed (`QueueOrder.FirstInFirstOut`).
- A message that waits for too long is moved to the top queue by the next scan and taken
  from there after a known number of pops (`QueueOrder.StarvingIsServed`). But a retried
  message keeps `boosted`, so it is not boosted a second time (`QueueHistory.BoostedOnce`),
  however long it waits (`QueueWitnesses.BoostIsNotRepeated`).
- `fpconv_dtoa` declares `char dest[24]`. A text is longer, 25 characters, exactly if
  the number is negative and printed with 17 digits and decimal exponent 7; such a
  number lies between 10^23 and 10^24 (`TextLength.TooLongForDeclaration`). It does
  happen (`TextLength.LongText`): always when no multiple of 10^8 lies between the
  midpoints (`TextLength.AlwaysTooLong`), and never when one lies there that is not within
  2^-60 of the number from either (`TextLength.NotTooLong`). `numToString` reserves 50, so
  nothing is overwritten.
- The parser's language is not that of RFC 8259. What it accepts is exactly a blank
  text, read as null, and the texts of `JsonGrammar` with an array or an object at the
  root (`JsonLanguage.ParsesExactly`). Of the latter, those are in the standard in which
  no comma stands in front of a closing bracket, the last bracket is not repeated and
  every number is one of the standard (`JsonStandard.StandardExactly`; one text for each:
  `[1,]`, `[]]`, and `[01]` for a `strtod` that takes it). Conversely a text of the
  standard is rejected exactly if its root is neither an array nor an object, or some
  name in it is empty (`JsonStandard.StandardIsRead`; `true` and `{"":1}`).
- Two escapes for the halves of a surrogate pair denote one character (section 7 of
  RFC 8259). The parser encodes each half alone, so `["\uD83D\uDE00"]` is read as a string
  of six bytes that are no UTF-8 (`JsonMeaning.PairIsSplit`). A string is read as what it
  denotes exactly if no such pair is in it (`JsonMeaning.TokenIsMeant`), an accepted text of the
  standard whose names are UTF-8 exactly if none is in a name or in a string that counts
  (`JsonMeaning.StandardIsMeant`).
- The printer does not escape keys; from strings it drops the bytes from 0x80 on and the
  control characters but 8, 9, 10, 12 and 13 (`JsonLaws.EscapeIs`).
  `JsonPrinter.KeyReadsBack` and `JsonPrinter.StringReadsBack` say exactly which
  keys and strings come back unchanged, `JsonLosses.RoundTripExactly` which values with
  plain keys. A value with an empty key is printed, but its text is not accepted.
- The lower boundary of Grisu2 is a quarter of a unit below every power of two. For
  2^-1022 the true midpoint is half a unit below, so the interval is narrower than
  it has to be, never wider (`Grisu.EdgeIsSafe`).

## Model

| member | source | states |
|---|---|---|
| QueueInvariant.InitialInv | server/Queue.cpp:18-42 | The new queue satisfies the structural invariant |
| QueueInvariant.MicroKeeps | server/Queue.cpp:57-432 | Every elementary transition keeps the map, the queues, the delay set, the pool and both counters in agreement |
| QueueInvariant.AllKeep | server/Queue.cpp:229-282 | So does every sequence of transitions |
| QueueInvariant.CountersAreHonest | server/Queue.cpp:195-226 | The counters never go below zero, a message is queued iff the counter says so iff some queue has a message in it: the "All queues empty" throw is unreachable |
| QueueSystem.StepKeepsInv | server/Queue.cpp:286-439 | Every critical section of every thread keeps the invariant |
| QueueSystem.RunKeepsInv | server/Queue.hpp:156-169 | The invariant holds in every state of every run |
| QueueScans.StarvingIsFound | server/Queue.cpp:337-357 | A starving message is in the queue the monitor searches, so "not found in expected queue" never happens |
| QueueScans.ScanRuns | server/Queue.cpp:311-359 | One scan in map order is a sequence of transitions each of which may be taken |
| QueueScans.ScanPointwise | server/Queue.cpp:311-359 | After a scan each message's fields depend on its own old fields and the time only; each queue is the messages joining it, last visited first, ahead of those that stay in their old order; both counters fit |
| QueueScans.ScanCatchesAll | server/Queue.cpp:311-359 | After a scan no message has been running for more than `failTimeout` milliseconds (unless that is 0), and one queued unboosted below the top priority for more than `boostTimeout` milliseconds was running before |
| QueueScans.ReleasePointwise | server/Queue.cpp:408-432 | A release pass moves exactly the messages whose time has come, in due-time order, each to the back of its own queue, and leaves the rest of the delay set sorted |
| QueueScans.ErasePointwise | server/Queue.cpp:147-168 | `eraseFailed` removes exactly the listed failed messages, reports each once, and changes no other message and no place |
| QueueWakeups.QueuedChange | server/Queue.cpp:79-85 | Every step changes the count of queued messages by those it queues less the one it takes |
| QueueWakeups.WakesEnough | server/Queue.cpp:361-365 | Unless it wakes every sleeper, a step wakes as many consumers as it queues messages |
| QueueWakeups.SleepsOnEmpty | server/Queue.cpp:198-204 | A consumer falls asleep only when no message is queued at the end of its step |
| QueueWakeups.StepKeepsWakeups | server/Queue.cpp:198-204 | No step loses a wake-up: while a consumer sleeps, every queued message has a notified consumer on its way, under barging and spurious wake-ups |
| QueueWakeups.FirstIsEnough | server/Queue.cpp:277-281 | A message inserted anywhere but at the front of the delay set leaves a sleeping delay thread punctual |
| QueueWakeups.StepKeepsDelayer | server/Queue.cpp:381-405 | No step makes the delay thread sleep beyond the due time of a delayed message |
| QueueWakeups.DueMeansAwake | server/Queue.cpp:384-401 | When a delayed message is due, a delay thread that is still asleep has a deadline that has passed |
| QueueWakeups.StepKeepsPool | server/Queue.cpp:179-191 | Mapped and pooled entries together are as many as the largest number of messages ever held |
| QueueWakeups.RunIsSafe | server/Queue.cpp:195-439 | All of this in every state of every run, from any state that satisfies it |
| QueueWakeups.NeverAllAsleep | server/Queue.cpp:198-204 | From the empty queue: with a message queued and a consumer asleep, some consumer has been notified |
| QueueHistory.ReachableHistory | server/Queue.hpp:106-119 | In every reachable state each entry agrees with the history of its message since its push |
| QueueHistory.FailsExactlyAtLimit | server/Queue.cpp:312-317 | Across requeues a message is failed exactly at timeout R for 1 <= R <= 255, at timeout 256 for R = 0, never for R >= 256 |
| QueueHistory.FailedStays | server/Queue.cpp:312-357 | A failed message does not change in any field until it is erased |
| QueueHistory.BoostedOnce | server/Queue.cpp:322-347 | A message is boosted at most once per push or requeue, even if it times out afterwards |
| QueueHistory.DeliveriesAreConserved | server/Queue.cpp:220-268 | Pops = requeueing acks + final acks + timeouts + 1 if running, for held and for removed messages |
| QueueHistory.AckNeedsTheLease | server/Queue.cpp:233-245 | An ack succeeds iff its token is that of a lease still outstanding |
| QueueHistory.StaleTokensAreRefused | server/Queue.cpp:220-245 | With fresh tokens, once a delivery has timed out, been acknowledged or been followed by another, its token is refused on every message |
| QueueHistory.RefusedAckChangesNothing | server/Queue.cpp:105-111 | A refused `ack` or `popAck` changes no message, queue, counter, thread or log |
| QueueWitnesses.FailsWithoutRetry | server/Queue.cpp:312-321 | A run from the empty queue, with a limit of 1, in which a message fails at its first timeout and is never retried |
| QueueWitnesses.LaterMessageOvertakes | server/Queue.cpp:408-424 | A run in which a message pushed later, and delayed, is popped while one pushed before it, of the same priority, is still queued |
| QueueWitnesses.BoostIsNotRepeated | server/Queue.cpp:322-347 | A run, as late as one likes, after whose scan a boosted and retried message waits in its own queue although it has been starving for longer than the boost timeout |
| QueueService.PopServesNext | server/Queue.cpp:208-214 | A pop serves the first message of the service order and keeps the order of the rest |
| QueueService.DrainFollowsService | server/Queue.cpp:208-214 | Undisturbed pops drain the queues by priority and from the back |
| QueueService.PushServedLast | server/Queue.cpp:82-84 | A push is served after everything of its own and higher priority |
| QueueService.RequeuedServedLast | server/Queue.cpp:247-261 | A message requeued without delay equals a new one but for its failure count, and is served after everything of its own and higher priority |
| QueueService.RetriedServedLast | server/Queue.cpp:322-328 | So is a retried message, which keeps its time stamp and whether it was boosted |
| QueueService.BoostedServedAfterTop | server/Queue.cpp:337-351 | A boosted message is served after the top queue; the queue it left keeps its order |
| QueueService.ReleasedServedFirst | server/Queue.cpp:420-424 | A released message is served before everything of its own priority |
| QueueService.RunFlattens | server/Queue.cpp:286-439 | The state and the log of a run are those of its elementary transitions |
| QueueService.WaitStep | server/Queue.cpp:322-351 | What each transition does to the number of entries behind a message in the top queue |
| QueueService.TopQueueWait | server/Queue.cpp:208-214 | In any run, a message in the top queue with k entries behind it is taken by exactly pop k + r + 1, r being the releases into that queue meanwhile |
| QueueOrder.OvertakingStep | server/Queue.cpp:208-424 | While a message stays in its queue, a transition puts something ahead of it that was not ahead before iff it releases a delayed message into that queue |
| QueueOrder.OvertakenExactly | server/Queue.cpp:195-439 | In any run: while a message waits in queue p, something gets ahead of it iff a delayed message is released into p meanwhile |
| QueueOrder.FirstInFirstOut | server/Queue.cpp:79-85 | As long as nothing of priority p is delayed, whatever is ahead of a message that waits in queue p has been ahead of it all the time |
| QueueOrder.StarvingIsBoosted | server/Queue.cpp:337-357 | After a scan every message that had been queued unboosted below the top priority for more than `boostTimeout` milliseconds is in the top queue |
| QueueOrder.StarvingIsServed | server/Queue.cpp:311-359 | From that scan on, in any run, such a message is taken by exactly pop k + r + 1, k being the entries behind it in the top queue and r the releases into that queue meanwhile |
| QueueLaws.PushErrors | server/Queue.cpp:57-74 | The three refusals of a push, by priority, id and number of messages held, in this order |
| QueueLaws.PushIsAccepted | server/Queue.cpp:57-86 | A push is accepted iff the priority exists, the id is not held and fewer messages than the capacity are; the entry it makes, field by field, due after `delay` milliseconds; a refused push changes nothing |
| QueueLaws.PushAfterAck | server/Queue.cpp:71-72 | After a final ack another message is accepted, however full the queue was |
| QueueLaws.AckErrors | server/Queue.cpp:233-245 | The three refusals of an ack, by id, token and state, in this order |
| QueueLaws.AckIsAccepted | server/Queue.cpp:230-268 | An ack is accepted iff the message is running under the token; what becomes of the entry, field by field; a refused ack changes nothing |
| QueueLaws.PopTakes | server/Queue.cpp:206-226 | A pop takes the last message of the first queue that is not empty and stamps it with the time and the token |
| QueueLaws.PopWaits | server/Queue.cpp:198-204 | With nothing queued a pop changes nothing and its thread goes to sleep |
| QueueLaws.ScanLaw | server/Queue.cpp:303-359 | A scan at `now` times out exactly the messages that run with ts + 1000000 * failTimeout < now, if failTimeout is not 0, and boosts exactly those queued unboosted below the top priority with ts + 1000000 * boostTimeout < now; in the order of their ids; every entry afterwards, field by field |
| QueueLaws.NotifiesWhatIsQueued | server/Queue.cpp:361-365 | Every call notifies one consumer for each message it queues; a scan notifies one for one and all for more |
| QueueLaws.CheckLaw | server/Queue.cpp:385-401 | The delay thread goes on to release iff some delayed message has ts <= now; else it waits for the least ts, or without limit if none is delayed |
| QueueLaws.FailedLaw | server/Queue.cpp:131-144 | `getFailed` lists exactly the failed messages, by ascending id |
| QueueLaws.ErasedInOrder | server/Queue.cpp:147-168 | `eraseFailed` reports the messages in the order in which they are listed first |
| Keys.LessIs | server/Queue.hpp:167 | The order of the map is that of the bytes at the first difference, a prefix coming first |
| QueueTermination.MoveCosts | server/Queue.cpp:311-359 | For a limit the 8-bit counter can reach, 0 (reached at 256) included, every transition but push and requeue lowers the potential |
| QueueTermination.DeliveryTerminates | server/Queue.cpp:195-439 | Unless the limit is beyond the 8-bit counter: with n the number of the timeout that fails a message (256 for a limit of 0), at most 3n + 5 moves per message happen without pushes and requeues, in any continuation of any run |
| MonitoredQueue.MsgEntry.Reset | server/Queue.hpp:106-115 | A reused entry equals a new one |
| MonitoredQueue.Queue.constructor | server/Queue.cpp:18-42 | The new object satisfies the invariant and is empty |
| MonitoredQueue.Queue.GetMsgEntry | server/Queue.cpp:179-191 | The entry comes from the pool unless that is empty, and belongs to no other message |
| MonitoredQueue.Queue.Push | server/Queue.cpp:57-86 | The error, the new state and the notifications are those of the step `PushMsg` |
| MonitoredQueue.Queue.InsertDelayedMsg | server/Queue.cpp:271-282 | The message is inserted at its due time, and the delay thread is notified iff it is now the first |
| MonitoredQueue.Queue.AckImpl | server/Queue.cpp:230-268 | As the step `Ack` |
| MonitoredQueue.Queue.PopImpl | server/Queue.cpp:195-226 | As the step `PopMsg`; must wait iff nothing is queued, else delivers the message at the serving end |
| MonitoredQueue.Queue.PopAck | server/Queue.cpp:105-111 | As the step `PopAck`; a refused one changes nothing |
| MonitoredQueue.Queue.ScanMessage | server/Queue.cpp:311-358 | The monitor's treatment of one message, and whether it was retried |
| MonitoredQueue.Queue.MonitorScan | server/Queue.cpp:303-365 | As the step `MonitorScan`, with one notification for one retry and a broadcast for more |
| MonitoredQueue.Queue.CheckDelay | server/Queue.cpp:385-401 | How long the delay thread waits |
| MonitoredQueue.Queue.ReleaseDelayed | server/Queue.cpp:408-432 | As the step `DelayRelease`, although the sort key is overwritten while the entry is in the set |
| MonitoredQueue.Queue.GetCounts | server/Queue.cpp:119-127 | Active, failed and free count the messages they are named after |
| MonitoredQueue.Queue.GetFailed | server/Queue.cpp:131-144 | The failed messages, in map order |
| MonitoredQueue.Queue.EraseFailed | server/Queue.cpp:147-168 | As the step `EraseFailed`, and the ids returned are the erased ones |
| DiyFp.BuildFp | server/libjson.hpp:1296-1323 | A decoded double has a 53-bit fraction, normalized unless the exponent is the least, and is 0 iff its bits are |
| NumberText.DecodingLosesNothing | server/libjson.hpp:1306-1323 | Sign, fraction and exponent determine the bits |
| DiyFp.Multiply | server/libjson.hpp:1363-1382 | Multiplication by halves is floor((a * b + 2^63) / 2^64), and no partial sum wraps |
| DiyFp.Normalize | server/libjson.hpp:1325-1335 | The top bit is set and the value is unchanged |
| DiyFp.GetNormalizedBoundaries | server/libjson.hpp:1337-1361 | The boundaries are exact, on one exponent, within 64 bits |
| Grisu.SameShift | server/libjson.hpp:1325-1361 | The value and its upper boundary are normalized by the same shift |
| Grisu.BoundariesAreExact | server/libjson.hpp:1325-1361 | For every finite nonzero double the three numbers denote f, f + 1/2 and f - 1/2 (f - 1/4 at a power of two) times 2^e, share one exponent and are far enough apart |
| Grisu.EdgeIsSafe | server/libjson.hpp:1353-1360 | The lower boundary is never below the true midpoint, and equals it except for 2^-1022 |
| CachedPowers.TableIsAccurate | server/libjson.hpp:1222-1267 | Every table entry is within half a unit of its power of ten, has its top bit set, and is 26 or 27 binary orders from the next |
| Grisu.SomeEntryFits | server/libjson.hpp:1274-1290 | Some entry brings the exponent into the window |
| Grisu.FindCachedPow10 | server/libjson.hpp:1269-1293 | From any start index whose estimate is within 1/2 of the exact product before truncation, the search stays inside the table, ends, and returns an entry for the window and its decimal exponent |
| DigitGeneration.TensArePowers | server/libjson.hpp:1211-1219 | Entry i of `tens` is 10^(19 - i) |
| DigitGeneration.RoundDigit | server/libjson.hpp:1384-1392 | The last digit is lowered, never below 0, to the position in the interval closest to the value |
| DigitGeneration.IntegerDigits | server/libjson.hpp:1394-1430 | The first loop: digits of the integer part, rounded and done as soon as the remainder fits |
| DigitGeneration.FractionBound | server/libjson.hpp:1435-1452 | The second loop multiplies at most 16 times before the interval outgrows the remainder |
| DigitGeneration.CountBound | server/libjson.hpp:1406-1452 | While the remainder does not fit there are at most 16 digits |
| DigitGeneration.FractionDigits | server/libjson.hpp:1432-1452 | The second loop: ends, stays inside `tens`, and no product wraps |
| DigitGeneration.Finish | server/libjson.hpp:1384-1452 | The result is in the interval, no shorter decimal lies in it except possibly at its very lower end, and none of its length is closer |
| DigitGeneration.GenerateDigits | server/libjson.hpp:1394-1453 | 1 to 17 digits without leading zero, inside the interval, with no shorter decimal above its lower end (one equal to the lower end is possible, as the second loop compares with `<`), and the closest of that length |
| Grisu.RoomToRound | server/libjson.hpp:1468-1473 | The margins taken off on both sides leave an interval wide enough for 17 digits |
| Grisu.ScaledError | server/libjson.hpp:1468-1470 | The rounded product with a cached power is off by less than one unit |
| Grisu.StaysInside | server/libjson.hpp:1468-1476 | `lower.frac++` and `upper.frac--` absorb the table error and the rounding |
| Grisu.Grisu2 | server/libjson.hpp:1455-1477 | For every finite nonzero double the digits times 10^K lie strictly between its midpoints; with a margin of 2^-60 of the number taken off the boundaries on either side, no multiple of 10^(K + 1) lies between them, and no multiple of 10^K there is closer to the double by more than the margin |
| Grisu.ResultIsShort | server/libjson.hpp:1455-1477 | No multiple of 10^(K + 1) lies between the boundaries with these margins taken off |
| Grisu.ResultIsClose | server/libjson.hpp:1384-1392 | No multiple of 10^K between the boundaries, margins taken off, is closer to the double by more than the margin |
| Grisu.ReadsBack | server/libjson.hpp:1455-1477 | Whatever lies between the midpoints is closer to the double than to every other one, infinity at 2^1024 included |
| NumberText.LayoutReads | server/libjson.hpp:1479-1550 | Each of the three layouts denotes digits * 10^K to a reader of decimal text, up to its end |
| NumberText.LayoutLength | server/libjson.hpp:1479-1550 | A layout of at most 17 digits has at most 24 characters |
| NumberText.EmitDigits | server/libjson.hpp:1479-1550 | Exactly the layout is written, nothing in front of it is touched, and no digit is cut off |
| NumberText.FilterSpecial | server/libjson.hpp:1552-1575 | 0, nan and inf are recognised by their bits |
| NumberText.FpconvDtoa | server/libjson.hpp:1577-1602 | The text of every double, within 25 characters |
| TextLength.TooLongForDeclaration | server/libjson.hpp:1577-1602 | A printed text exceeds 24 characters iff it is that of a negative number with 17 digits and exponent 7; so it fits for every number that is zero, special, not negative or outside of 10^23 to 10^24 |
| TextLength.AlwaysTooLong | server/libjson.hpp:1577-1602 | Every printed text of a negative number from 10^23 on has 25 characters if no multiple of 10^8 lies between the midpoints |
| TextLength.NotTooLong | server/libjson.hpp:1577-1602 | A printed text fits if a multiple of 10^8 lies between the boundaries with 2^-60 of the number taken off on either side |
| TextLength.LongText | server/libjson.hpp:1577-1602 | One such number |
| NumberLaws.DoubleIs | server/libjson.hpp:1296-1323 | The value of a double from its 52 bits of fraction and 11 of exponent, and which bits are special or negative |
| NumberLaws.ExponentIsWritten | server/libjson.hpp:1479-1550 | An exponent is written iff K > 7, or K <= -7 and the first digit is four or more places from 1 |
| NumberLaws.Notations | server/libjson.hpp:1479-1550 | One number in each notation |
| NumberLaws.SumText | server/libjson.hpp:1577-1602 | Every text printed for the double nearest to 0.1 + 0.2 is `0.30000000000000004` |
| NumberText.PrintedIsNearest | server/libjson.hpp:1577-1602 | A printed text is read to its end, and the double it was printed for is the nearest to what it denotes |
| NumberText.NearestIsUnique | server/libjson.hpp:1175-1180 | No text is nearest to two doubles |
| IdealReader.ReaderExists | server/libjson.hpp:1175-1180 | There is a reader of numbers that skips leading whitespace as `strtod` does, rounds every decimal text to nearest, does not look beyond a delimiter, takes every number of RFC 8259 as a whole and, where a number starts, nothing but characters of words |
| DecimalText.SignedIsLocal | server/libjson.hpp:1175-1180 | What is read of a decimal text is read of it in front of any other end as well |
| DecimalText.StandardReads | server/libjson.hpp:1175-1180 | Every number of section 6 of RFC 8259 is a decimal text as a whole |
| JsonParser.StringEnds | server/libjson.hpp:1108-1173 | `parseString` stops at a closing quote and leaves the end of the text |
| JsonParser.ValueEnds | server/libjson.hpp:1046-1106 | `parseValue` stops at the value's own last character |
| JsonParser.ObjectEnds | server/libjson.hpp:950-1006 | `parseObject` stops at a closing brace |
| JsonParser.ArrayEnds | server/libjson.hpp:1008-1044 | `parseArray` stops at a closing bracket |
| JsonParser.Parse | server/libjson.hpp:751-802 | Every error offset is within the text |
| JsonReader.ReadCode | server/libjson.hpp:1131-1132 | Looked at from left to right: the code of four hex digits, or the position of the first character that is none; in that order nothing behind the terminator is looked at |
| JsonReader.ParseStringAt | server/libjson.hpp:1108-1173 | The cursor loop computes what `ParseString` says |
| JsonReader.ParseValueAt | server/libjson.hpp:1046-1106 | The cursor loop computes what `ParseValue` says |
| JsonReader.ParseObjectAt | server/libjson.hpp:950-1006 | The cursor loop ends, also when a number is empty, and computes what `ParseObject` says |
| JsonReader.ParseArrayAt | server/libjson.hpp:1008-1044 | The cursor loop ends, also when a number is empty, and computes what `ParseArray` says |
| JsonReader.FromString | server/libjson.hpp:747-802 | The whole parser computes `Parse`; which characters it skips is `JsonLaws.SkipsFour` |
| JsonGrammar.TokenParses | server/libjson.hpp:1108-1173 | A string token, with any mix of plain characters and escapes, is read as the bytes of its pieces one after the other; what a piece denotes is the subject of `JsonMeaning` |
| JsonGrammar.DocParses | server/libjson.hpp:950-1106 | Every document is read as its value, up to its end, whatever follows |
| JsonGrammar.TextIsRead | server/libjson.hpp:747-802 | Every text of the grammar is read as its value, with any whitespace, last field of a name winning, commas before closing brackets and one repeated bracket allowed |
| JsonLanguage.StringForm | server/libjson.hpp:1108-1173 | Whatever is read as a string is a token of the grammar with these characters |
| JsonLanguage.ValueForm | server/libjson.hpp:1046-1106 | Whatever is read as a value, in front of a delimiter, is a document of the grammar with that value |
| JsonLanguage.ArrayForm | server/libjson.hpp:1008-1044 | So are the items and the closing of an array |
| JsonLanguage.ObjectForm | server/libjson.hpp:950-1006 | So are the fields and the closing of an object |
| JsonLanguage.ParsesExactly | server/libjson.hpp:747-802 | A text is read as v iff it is blank and v is null, or it is a text of the grammar for v with an array or an object at its root |
| JsonStandard.StandardExactly | server/libjson.hpp:747-802 | An accepted text is in RFC 8259 iff it has no comma in front of a closing bracket, no repeated bracket and only numbers of the standard, whichever document it is read by |
| JsonStandard.StandardIsRead | server/libjson.hpp:747-802 | A text of RFC 8259 is accepted iff its root is an array or an object and no name in it is empty, and is then read as the value of its document, its strings piece by piece |
| JsonStandard.CommaIsAccepted | server/libjson.hpp:1008-1044 | `[1,]` is read as one number and is not in RFC 8259 |
| JsonStandard.RepetitionIsAccepted | server/libjson.hpp:751-802 | `[]]` is read as an empty array and is not in RFC 8259 |
| JsonStandard.LeadingZeroIsAccepted | server/libjson.hpp:1175-1180 | `[01]` is read as one number if `strtod` takes `01`, and is not in RFC 8259 |
| JsonStandard.BlankIsAccepted | server/libjson.hpp:751-802 | A blank text is read as null and is not in RFC 8259 |
| JsonStandard.EmptyNameIsRejected | server/libjson.hpp:950-1006 | `{"":1}` is in RFC 8259 and is rejected at its third character |
| JsonStandard.ScalarIsRejected | server/libjson.hpp:751-802 | `true` is in RFC 8259 and is rejected at its first character |
| JsonMeaning.EncodeDecodes | server/libjson.hpp:1133-1147 | The bytes appended for a 16-bit code, and the four of a larger one, are decoded to that code whatever follows |
| JsonMeaning.EncodingIsUnique | server/libjson.hpp:1133-1147 | No other bytes are decoded to it |
| JsonMeaning.TokenIsMeant | server/libjson.hpp:1108-1173 | A string token is read as the string it denotes by section 7 of RFC 8259 iff the halves of a surrogate pair never stand next to each other in it; otherwise it is read as more bytes than it denotes |
| JsonMeaning.NoHalves | server/libjson.hpp:1131-1147 | A denoted string never holds the bytes of two surrogate halves in a row |
| JsonMeaning.PairHasHalves | server/libjson.hpp:1131-1147 | What the parser makes of a surrogate pair does |
| JsonMeaning.DocIsMeant | server/libjson.hpp:950-1106 | A document is read as the value it denotes if no pair is in a name or in a string that counts, and, provided no name spells out surrogate halves in raw bytes, only then |
| JsonMeaning.StandardIsMeant | server/libjson.hpp:747-802 | A text of RFC 8259 is read as the value it denotes if its root is an array or an object, no name is empty and no pair is in a name or in a string that counts (one that no later field of the same name overrides); provided its names are UTF-8, only then |
| JsonMeaning.PairIsSplit | server/libjson.hpp:1131-1147 | `["\uD83D\uDE00"]` denotes one character of four bytes and is read as six bytes, by every reader |
| JsonMeaning.RawHalvesHidePairs | server/libjson.hpp:950-1006 | With names that are no UTF-8, an object with a pair in a name can still be read as what it denotes |
| JsonMeaning.CodeIsRead | server/libjson.hpp:824-836 | Four hex digits of either case stand for the code that their values, listed one by one, make up |
| JsonLaws.SkipsFour | server/libjson.hpp:816-818 | Of all characters the parser skips exactly 0x20, 0x09, 0x0A and 0x0D |
| JsonLaws.NulEndsText | server/libjson.hpp:747-802 | What lies behind a NUL is not read |
| JsonLaws.PrintedInOrder | server/libjson.hpp:864-875 | The fields of an object are printed by ascending name |
| JsonLaws.EscapeIs | server/libjson.hpp:910-941 | What is printed for each character, by its code |
| JsonLaws.StringErrors | server/libjson.hpp:1108-1173 | The error and its position for every way in which a string can break off, behind any token |
| JsonLaws.ErrorSamples | server/libjson.hpp:751-1106 | One text for every other place where the parser gives up, with the error and its offset |
| JsonPrinter.StringReadsBack | server/libjson.hpp:910-941 | A printed string is read back without its dropped characters, so unchanged iff every character has code 8, 9, 10, 12, 13 or 0x20 to 0x7F |
| JsonPrinter.KeyReadsBack | server/libjson.hpp:864-875 | A printed key is read back unchanged iff it has no quote, backslash or character below 0x20 |
| JsonPrinter.StrToString | server/libjson.hpp:910-941 | The run-copying loop appends the quoted, escaped string; what is appended for each character is `JsonLaws.EscapeIs` |
| JsonPrinter.NumToString | server/libjson.hpp:943-948 | A printed number is appended |
| JsonPrinter.ToStringRecurse | server/libjson.hpp:864-908 | The text of a document without whitespace that shows the value, keys in map order, is appended |
| JsonRoundTrip.PrintedNumberIsRead | server/libjson.hpp:943-948 | A `strtod` that rounds to nearest reads every printed finite number as itself, wherever it stands |
| JsonRoundTrip.ShownIsRead | server/libjson.hpp:864-1180 | A text with the tokens of a value has for its value that value without the bytes that the printer drops from strings |
| JsonRoundTrip.KeptIsRead | server/libjson.hpp:747-802 | Such a text of an array or object is read as exactly that, with any whitespace between tokens |
| JsonRoundTrip.RoundTrip | server/libjson.hpp:747-802 | Reading what was printed gives the value back, also after any blanks, tabs, line feeds and carriage returns were inserted between tokens |
| JsonLosses.RoundTripExactly | server/libjson.hpp:739-802 | For finite numbers and plain keys: a printed array or object is read back iff no key in it is empty, and unchanged iff also every character of its strings has code 8, 9, 10, 12, 13 or 0x20 to 0x7F |
| JsonRoundTrip.ToString | server/libjson.hpp:739-745 | The text is read back as the value it was printed for |

## Left out

- HTTP handlers, routes, response texts, command line and the client (`server/QueueServer.cpp`, `server/mqserver.cpp`, `server/mqclient.cpp`).
- Real threads, clocks and the random generator: critical sections are atomic steps under one lock, the clock is one non-decreasing integer, tokens are parameters (fresh where a result needs it). `wait_for` runs on the steady clock and the due times on the system clock; the model has one clock.
- The destructor, `m_run`, the error callback and exceptions from allocation inside critical sections.
- The lifetime of the `Msg_t` reference that `pop` returns: the model returns a copy.
- The delay set is a sequence in the order of the multiset; `std::find` and `erase` on a deque are removal from a sequence.
- `size_t` and time arithmetic beyond 64 bits: capacities, delays and times are unbounded integers; the 8-bit failure counter is modelled with its wrap-around.
- Between looking at the delay set and releasing, the delay thread of the model may be overtaken by other steps even when it does not wait; the code holds the lock there, so the model allows more interleavings than the code.
- The wait of `popImpl` itself belongs to `QueueSystem`; the method of the class says that it must wait, and the step is repeated after a wake-up.
- `Fp` arguments are values; the source passes pointers to them.
- Grisu.Grisu2: shortness is stated for an interval that is narrower than that of all numbers that round to the double by the stated margins, and closeness up to the margin; Grisu2 does not promise the shortest and closest digits of the former.
- `strtod` is a parameter of the parser: any function from a text to a double and a length within the text. What the results ask of it beyond that is a condition, as `strtod` itself is not part of this model; printed `nan` and `inf` are not read back.
- JsonReader.ReadCode: the four digits are looked at from left to right, while C++ leaves the order of the four `toHex` calls open. That nothing behind the terminator is looked at needs this order, or four characters behind every `\u`; under another order a text that ends inside the escape is read behind its terminator.
- JsonStandard.StandardExactly: raw bytes from 0x80 on are characters like any other, so whether they form valid UTF-8 (section 8.1 of RFC 8259) is not asked; `JsonMeaning.StandardIsMeant` asks it of names where it matters.
- JsonMeaning.Meaning: a number denotes what the reader makes of it; a surrogate half without its partner denotes its own three bytes (section 8.2 of RFC 8259 leaves this open).
- `Value` ownership, move operators, assignment operators and the accessors of `Object`; the partly filled value that is left behind when the parser throws.
- Bytes are characters below 256, and `char` is taken to be signed, as on the platforms the code is built for.
- JsonLosses.RoundTripExactly: stated for finite numbers and keys without quotes, backslashes and control bytes, the empty key included. A key with such a byte is not read back as itself (`JsonPrinter.KeyReadsBack`), but its text can end the name early and change what follows; what a whole text with such keys is read as is not stated.
