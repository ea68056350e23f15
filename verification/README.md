# A model of vxway's hard parts

Vxway is an API gateway written in Go. This project models the parts of it whose correctness is not visible from
reading one function, and proves what each of them is for. Verify everything with `dafny verify dfyconfig.toml`.

| part | files |
|---|---|
| JSON scanner and editor | `JsonEscape`, `JsonText`, `JsonStands`, `JsonScan`, `JsonLookup`, `JsonSet` |
| lock-free ring | `Ring` (safety), `RingCalls` (what calls do) |
| timing wheel | `TimeWheel` (protocol), `TimeoutList` (pointers) |
| blocking queue | `Queue` (safety), `QueueCalls` (what calls do) |
| token bucket, weighted round robin | `RateLimit`, `WeightRobin` |
| bind table | `Dispatcher` |
| id allocation | `IdAlloc` |
| routes | `RouteParser`, `RoutePatterns`, `RouteSyntax`, `Route` |
| batches of a request | `Batch` |
| buffer and cached responses | `ByteBuf`, `CachedValue` |
| shared facts | `Bytes`, `Bits`, `Lists`, `Laps` |

How the model is written: an algorithm that the source runs as a loop over variables or on an object's fields is a
method or a class, proved equal to a function of its inputs or of the old state, and the laws are lemmas about that
function. A protocol between goroutines is a state machine with one step for each atomic operation or lock section,
and its laws are invariants of every run with any number of threads. Bytes are numbers below 256, counters, ticks and
times are unbounded, and the clock does not go back. Fields named as history record what happened and are read by no
step.

Where the source does not do what its comments or its callers suggest, the code is modelled as it is and the exact
condition is proved:

- A member name with a lone surrogate escape makes the scanner report "not found" for every later member, though the
  text is well-formed (section 7 of RFC 7159 allows such names): `JsonLookup.GetWalks`,
  `JsonLookup.LoneSurrogateHidesLaterNames`, and for what `Set` has stored `JsonSet.SetReadBack`.
- When a path ends nowhere in the value that `Set` has stored, the scan goes on to later members of the same name, if
  the text has such duplicates. The exact condition is `JsonSet.SetReadsNewValue`, an example
  `JsonSet.LaterMemberIsRead`.
- `Set` writes a new key between quotes as it is. So its tree stays well-formed exactly when the key has a member
  already or is a string body itself, and what was set under a new key with a backslash is not found again:
  `JsonSet.SetValidExactly`, `JsonSet.SetReadBack`.
- A ring asked for with no slots, or with more than 2^63, gets none: `Ring.RoundUpIsLeastPower`.
- A ring of one slot lets a second `Put` overwrite the first item: `Ring.CapacityLaw`, `Ring.OneSlotOverwrites`.
- The token bucket keeps every window of w ticks within capacity + quantum * w when `take` is asked for up to one token
  more than the capacity, whatever `takeAvailable` is asked for, but not when `take` is asked for more:
  `RateLimit.WindowBound`, `RateLimit.BiggerRequestsBreakWindow`.
- The batches of a request wait for each other exactly when the nodes are dispatched in order and every batch that is
  not the smallest has a positive index: `Batch.BarrierExactly`. A negative index next to 0 breaks the barrier:
  `Batch.UnbarredBreaks`. The comparison that orders the nodes subtracts int32 values and wraps around, so indices
  2^31 or more apart come the wrong way round, and break it too: `Batch.LessExactly`, `Batch.DispatchedBarrier`,
  `Batch.WrapBreaks`.
- The comment at `src/route/route.go:88-89` makes the argument name of a typed segment optional. Without one, the
  parser leaves the following slash in the text, so a constant segment behind it is read with a slash in front:
  `RoutePatterns.PatternRoundTrip`, `RoutePatterns.PrintedIsRead`.
- The grammar in the comment at `src/route/parser.go:83` is not enforced: text between a slash and its parenthesis is
  passed over, and a parenthesis that is never closed counts for nothing, so "/a(number" is accepted as the root:
  `RouteSyntax.AcceptedExactly`, `RouteSyntax.UnclosedIsRoot`.
- Removing a cluster is written as a removal of its binds but removes none of them:
  `Dispatcher.RemovedClusterKeepsBinds`.
- A change of status is passed over when the first entry of the server that is looked at already has it, so a server
  bound to two clusters can stay out of one of them. It is certain to reach all entries exactly when all of them or
  none of them had it: `Dispatcher.StatusReachesAll`, `Dispatcher.StatusMayBeSkipped`.
- A server whose weight is raised gets it one step per selection, but a lowered weight is never followed:
  `WeightRobin.WeightsRamp`, `WeightRobin.WeightsArrive`.
- Reading a cached response moves the reader index of the shared buffer, so a second reader finds nothing:
  `CachedValue.SecondReadIsEmpty`.

## Model

| member | source | states |
|---|---|---|
| JsonEscape.UnescapeToUTF8 | src/json/escape.go:96-121 | the step on one escape writes the bytes the escape stands for, inside the buffer, and reports how much it read and wrote |
| JsonEscape.Unescape | src/json/escape.go:130-173 | the in-buffer loop computes the decoding function for every input and every scratch buffer, and leaves the buffer alone when there is no escape |
| JsonEscape.UnescapedShrinks | src/json/escape.go:127-173 | unescaping never grows a text and strictly shortens one with an escape, so a buffer of the input's length is enough |
| JsonEscape.PairDecodes | src/json/escape.go:62-94 | the two escapes of a surrogate pair decode to the scalar they split |
| JsonEscape.UnescapeDecodesScalars | src/json/escape.go:130-173 | however each scalar of a text is escaped, raw, short, as \u or as a surrogate pair, the result is the UTF-8 encoding of the scalars, and a decoder by the byte layout of section 3 of RFC 3629 reads the scalars back from it |
| JsonEscape.RuneIsRead | src/json/escape.go:115 | that decoder, written from lead and continuation bytes, reads every scalar back from its encoding and knows where it ends; what is no scalar is encoded as U+FFFD |
| JsonEscape.Utf8IsRead | src/json/escape.go:115 | and so it does with every sequence of scalars |
| JsonEscape.HexDigits | src/json/escape.go:23-33 | a byte is a hex digit of a value exactly when it is that entry of one of the two literal tables of digits |
| JsonEscape.ShortEscapes | src/json/escape.go:82-91 | the two-character escapes are exactly those of the literal table |
| JsonEscape.UnitNeedsDigits | src/json/escape.go:39-53 | a \u escape not followed by four hex digits makes the text malformed |
| JsonEscape.PairsOrFails | src/json/escape.go:62-79 | a \u escape of a surrogate makes the text malformed unless four digits of at least DC00 stand where the second half is expected; then the two combine |
| JsonEscape.OtherEscapesFail | src/json/escape.go:96-121 | a backslash before any other character, or at the end, makes the text malformed |
| JsonStands.DocumentTextStands | src/json/parser.go:216-360 | a text is the print of a tree exactly when the tree stands in it position by position; the bridge from syntax trees to index scans |
| JsonScan.NextToken | src/json/parser.go:128-140 | the first byte that is not white space, or -1 |
| JsonScan.LastToken | src/json/parser.go:142-155 | the last byte that is not white space, or -1 |
| JsonScan.TokenEnd | src/json/parser.go:27-36 | the first byte that ends a scalar token |
| JsonScan.StringEnd | src/json/parser.go:157-183 | on every byte string the backward count of backslashes finds the quote that a one-pass escape automaton finds, and tells whether a backslash came before |
| JsonScan.BlockEnd | src/json/parser.go:187-214 | the bracket loop computes the bracket-counting automaton that skips strings |
| JsonScan.SearchKeys | src/json/parser.go:216-360 | the loop over level, keyLevel and lastMatched, with its stack buffer for names, computes the scan function |
| JsonScan.GetType | src/json/parser.go:862-936 | the value's text, type and end at an offset, or the error |
| JsonScan.TypeErrors | src/json/parser.go:862-936 | which error is reported exactly when: a string, array or object that does not end, or a token that is no word and starts like no number |
| JsonScan.InternalGet | src/json/parser.go:943-968 | search, go to the value, take its bytes without the quotes of a string |
| JsonLookup.BlockEndMatches | src/json/parser.go:187-214 | on a well-formed array or object the bracket scan ends exactly behind the matching bracket, whatever brackets its strings contain |
| JsonLookup.ScanMembers | src/json/parser.go:216-360 | over the members of an object at any level the scan finds what the tree lookup finds, and leaves its state as the next member needs it |
| JsonLookup.SearchLocates | src/json/parser.go:216-360 | on every well-formed text the scan returns the position the tree lookup gives, or -1 |
| JsonLookup.LocateWalks | src/json/parser.go:216-360 | the first chain of members that the scan stands for is the walk down the path, when names are distinct |
| JsonLookup.GetLocates | src/json/parser.go:943-968 | Get returns text, type and offsets of the value at that position, or "not found" |
| JsonLookup.BarredInDocument | src/json/parser.go:241-258 | for a path that exists, in any text, the scan finds its value, or is cut off exactly when, in one of the objects on the way, a malformed name stands before the member the path goes on with |
| JsonLookup.GetWalks | src/json/parser.go:216-360 | on every well-formed text, when parsing and walking the path gives a value, Get returns it, or "not found" exactly when a malformed name stands in its way; when the walk gives none, Get says "not found" on texts without duplicate names |
| JsonLookup.LoneSurrogateHidesLaterNames | src/json/parser.go:241-258 | a concrete well-formed text in which an earlier name hides a later one |
| JsonSet.CalcAllocateSpace | src/json/parser.go:655-693 | for names and array indices alike, the space counted is the length of the text that is written |
| JsonSet.CreateInsertComponent | src/json/parser.go:608-653 | for names and array indices alike, the buffer filled at a moving offset holds the member's text and nothing else |
| JsonSet.InsertNests | src/json/parser.go:608-653 | for several components what is inserted is one member or element that holds the value inside as many objects and arrays as there are components left |
| JsonSet.Set | src/json/parser.go:789-860 | the method computes the edit function for one key, errors included |
| JsonSet.SetEdits | src/json/parser.go:789-860 | on every well-formed object text Set does to the text what replacing or appending a member does to the tree |
| JsonSet.SetNeedsObject | src/json/parser.go:800-832 | on any other well-formed text Set is an error |
| JsonSet.SetThenGet | src/json/parser.go:789-860 | lens law for all well-formed texts, with duplicate and malformed names too, and for plain keys and the names of members that are there: the text stays well-formed, paths under other names read as before, and paths under the key read as in the new value, or as in later members of its name when they end nowhere there, or are not found behind a malformed name |
| JsonSet.SetReadsNewValue | src/json/parser.go:789-860 | exactly when a path under the key reads as in the new value |
| JsonSet.LaterMemberIsRead | src/json/parser.go:789-860 | a text in which a path that the new value does not have is read in a later member |
| JsonSet.SetValidExactly | src/json/parser.go:789-860 | for any key, the tree stays well-formed exactly when the key has a member that the scan reaches or is a string body |
| JsonSet.SetThenWalk | src/json/parser.go:789-860 | without duplicate and malformed names every path walks down the new value or as before |
| JsonSet.SetReadBack | src/json/parser.go:789-860 | what was set is read back exactly when no malformed name stands before the members of the key's name, and the key has a member already or holds no backslash |
| JsonSet.MultiContext.CompletePart | src/proxy/multi.go:24-30 | a part is stored by Set, and an empty part or attribute changes nothing |
| JsonSet.AttributesReadAsLastStored | src/proxy/multi.go:20-42 | after any sequence of parts, empty ones and well-formed bodies with whatever names, the store is well-formed and each path reads as the rest of it does in the body last stored under its first name, and is not found when there is none; empty parts and attributes wipe nothing |
| JsonSet.AttributesWalk | src/proxy/multi.go:20-42 | for bodies without duplicate and malformed names, it walks down that body |
| Ring.RunIsFifo | src/utils/task/ring.go:71-156 | in every run with two slots or more each step leaves the queue alone, appends at a successful Put's compare-and-swap, or takes the head at a successful Poll's one, within the capacity |
| Ring.DeliveredOnce | src/utils/task/ring.go:118-156 | the item of an enqueue ticket goes to the dequeue ticket of the same number, once, and every claimed ticket has been returned or is held |
| Ring.NothingIsLost | src/utils/task/ring.go:71-156 | at any time each ticket is either unclaimed and its item in the queue, held by exactly one Poll, or returned with its own item |
| Ring.NoOverwrite | src/utils/task/ring.go:84-105 | a slot is written only when its item of the lap before has been returned |
| RingCalls.PollReturnsHead | src/utils/task/ring.go:118-156 | from any state of a run: on a ring that is not disposed, with the head's slot filled, a Poll that runs alone returns the head of the queue, after exactly its steps, and leaves at none of them before |
| RingCalls.PollIsPossible | src/utils/task/ring.go:118-156 | and each of those steps is possible |
| RingCalls.PutAppends | src/utils/task/ring.go:71-103 | from any state of a run: on a ring that is not disposed, with the slot of the next ticket free, a Put that runs alone appends its item and is accepted, and leaves at no step before |
| RingCalls.PutIsPossible | src/utils/task/ring.go:71-103 | and each of those steps is possible |
| RingCalls.QuietIsReady | src/utils/task/ring.go:71-156 | in every run, while no call is at work on a slot, the head's slot is filled exactly when the queue is not empty, and the next slot free exactly when it is not full |
| RingCalls.CallsEnd | src/utils/task/ring.go:71-156 | why a call ends: it is done, the ring is disposed, or a pass has failed, at the claim because another call took the ticket, at the slot because that was not ready for it |
| RingCalls.DisposedServesNobody | src/utils/task/ring.go:168-173 | a call begun after Dispose never claims a ticket, whatever happens later |
| RingCalls.OnlyDispose | src/utils/task/ring.go:171-173 | nothing but Dispose changes whether the ring is disposed, and it changes nothing else |
| Ring.OneSlotOverwrites | src/utils/task/ring.go:47-54 | a run of the one-slot ring that loses an item |
| Ring.CapacityLaw | src/utils/task/ring.go:47-54 | for items of any type, all runs stay within the capacity exactly when there are at least two slots |
| Ring.RoundUpIsLeastPower | src/utils/task/ring.go:11-21 | for every 64-bit size the rounded capacity is the least power of two not below it, and 0 exactly when there is none, for no size or one above 2^63 |
| Ring.MaskIsSlot | src/utils/task/ring.go:47-54 | masking a ticket by the rounded capacity less one is taking it modulo the capacity |
| TimeoutList.Node.Prepend | src/goetty/timewheel.go:94-103 | on the heap: the list of nodes xs becomes [node] + xs |
| TimeoutList.Node.Remove | src/goetty/timewheel.go:105-113 | on the heap, knowing neither list nor neighbours: the list becomes xs without the node, and nothing else changes |
| TimeoutList.Sweep | src/goetty/timewheel.go:293-306 | the ticker's loop moves exactly the due nodes, last first, and keeps the others in order |
| TimeoutList.Get | src/goetty/timewheel.go:323-334 | the head of the free list, or a new node |
| TimeoutList.CallOutNext | src/goetty/timewheel.go:371-387 | a node put back without being unlinked still leaves the rest of the called-out list reachable |
| TimeWheel.OneLock | src/goetty/timewheel.go:121-125 | deadlines that share a bucket share its mutex |
| TimeWheel.SweepIsOnTime | src/goetty/timewheel.go:284-306 | a tick makes due exactly the waiting calls whose deadline it is |
| TimeWheel.InsertKeeps | src/goetty/timewheel.go:244-277 | however many ticks pass between reading the tick and taking the lock, the call runs inline exactly when its tick has been swept, and waits otherwise |
| TimeWheel.StepKeeps | src/goetty/timewheel.go:244-387 | every step of every interleaving keeps the wheel's invariant and changes the calls only as described |
| TimeWheel.CallInOnePlace | src/goetty/timewheel.go:244-387 | a call is in exactly one of its bucket, the expired or called-out list, or settled with its generation passed |
| TimeWheel.WaitsUntilDeadline | src/goetty/timewheel.go:267-306 | a call that is not cancelled waits exactly until its deadline is swept; no callback is early |
| TimeWheel.ScheduleIsOnTime | src/goetty/timewheel.go:244-277 | over every run, from reading the tick in Schedule to the callback: the call's deadline is the tick read then and the duration on top, it is neither due nor called before that tick has been swept, and does not wait after that unless cancelled, however long the scheduler takes to get the lock |
| TimeWheel.TicksCover | src/goetty/timewheel.go:249 | the number of ticks is the least that lasts as long as the duration |
| TimeWheel.EveryCallCanBeCalled | src/goetty/timewheel.go:280-387 | no call is lost: from every state ticker and callout worker can by themselves bring every call that is not cancelled to its callback |
| TimeWheel.StopsWhileWaiting | src/goetty/timewheel.go:55-70 | Stop succeeds exactly while its own call waits, and frees that call's node |
| TimeWheel.RunOfCall | src/goetty/timewheel.go:244-387 | over any run a call waits, then is cancelled, or comes due and is called; settled calls stay settled |
| TimeWheel.StopIsFinal | src/goetty/timewheel.go:55-70 | after a successful Stop the callback never runs and no Stop on the handle succeeds again, whoever reuses the node |
| Queue.FirstMatch | src/utils/task/queue.go:151-159 | the first item the comparison matches |
| Queue.StepKeeps | src/utils/task/queue.go:108-321 | every step keeps the invariant of lock, waiters, semaphores and items |
| Queue.ItemsAreConserved | src/utils/task/queue.go:108-321 | what Polls and Dispose returned and what is queued is, in order, what was accepted, an update in the place of what it replaced |
| Queue.ReturnsGrow | src/utils/task/queue.go:59-74 | what has been returned is never changed or taken back |
| Queue.PollTakesTheFront | src/utils/task/queue.go:59-74 | a Poll that succeeds returns between one and its number of items from the front, as many as there are |
| Queue.OneToucher | src/utils/task/queue.go:224-231 | at most one thread touches items or waiters, the woken Poll that works in the caller's lock included |
| Queue.NoLostWakeup | src/utils/task/queue.go:108-252 | while the lock is free no Poll waits unsignalled beside items or on a disposed queue |
| Queue.HolderMoves | src/utils/task/queue.go:121-136 | a held lock is never stuck: its holder can go on, or the Poll it woke can |
| Queue.WaitGroupsBalance | src/utils/task/queue.go:126-131 | every Done answers exactly one Add |
| QueueCalls.PutGetsIn | src/utils/task/queue.go:108-140 | over every run: a Put that starts on a queue in use puts exactly its items behind all that were there at its start |
| QueueCalls.UpdateGetsIn | src/utils/task/queue.go:143-186 | over every run: an update that starts on a queue in use replaces the first item that matches, in its place, or goes behind all when none does |
| QueueCalls.CallsStart | src/utils/task/queue.go:108-252 | on a disposed queue a call leaves at once and changes nothing; on one in use it goes on to store, to take, or to wait exactly when there is no item |
| QueueCalls.PollsEnd | src/utils/task/queue.go:201-252 | a Poll that ends has taken items from the front, at least one, or its time was up, or the queue is disposed, and only a Poll with a timeout runs out of time |
| QueueCalls.LongestWaitFirst | src/utils/task/queue.go:26-40 | in every run the Poll that new items are offered to is the one that has waited longest |
| RateLimit.Bucket.TakeAvailable | src/utils/ratelimit/ratelimit.go:223-236 | fields and answer as the specification says |
| RateLimit.Bucket.Take | src/utils/ratelimit/ratelimit.go:269-295 | fields, waiting time and refusal as the specification says |
| RateLimit.EndTickCovers | src/utils/ratelimit/ratelimit.go:281-287 | the end tick is the first that covers what is owed |
| RateLimit.TickHasBegun | src/utils/ratelimit/ratelimit.go:299-301 | the current tick is the last one that has begun |
| RateLimit.ReleasesInOrder | src/utils/ratelimit/ratelimit.go:223-317 | release ticks never decrease in call order, over any mix of calls |
| RateLimit.ReleasedByTick | src/utils/ratelimit/ratelimit.go:223-317 | tokens released by tick T are at most capacity + quantum * T |
| RateLimit.ReleasedInWindow | src/utils/ratelimit/ratelimit.go:223-317 | a bound for any window of ticks and requests of any size |
| RateLimit.WindowBound | src/utils/ratelimit/ratelimit.go:223-317 | capacity + quantum * w in any w ticks, when take is asked for up to capacity + 1 tokens, single ones in particular, and takeAvailable for any number |
| RateLimit.BiggerRequestsBreakWindow | src/utils/ratelimit/ratelimit.go:269-295 | for every bucket, requests of take for up to capacity + 2 tokens that break that bound |
| RateLimit.TokensAreConserved | src/utils/ratelimit/ratelimit.go:223-317 | tokens handed out and left are the capacity and what the ticks drip in, less those that drip, one by one, into a full bucket: nothing is withheld, and nothing lost while there is room |
| RateLimit.LostOnlyWhenFull | src/utils/ratelimit/ratelimit.go:306-317 | tokens are lost only when the bucket is full |
| RateLimit.AvailableCanBeTaken | src/utils/ratelimit/ratelimit.go:244-256 | what available answers is what take and takeAvailable give at once at that time |
| RateLimit.RefusesOnlyTooLong | src/utils/ratelimit/ratelimit.go:269-295 | a request is refused exactly when no tick within the caller's limit covers it |
| RateLimit.WaitEndsAtRelease | src/utils/ratelimit/ratelimit.go:285-294 | a caller told to wait wakes up in the tick its tokens are released in, within its limit |
| WeightRobin.Balancer.Select | src/lbs/weightrobin.go:27-64 | the loop from the last server to the first computes the specification, for any table and list |
| WeightRobin.SelectsMember | src/lbs/weightrobin.go:27-64 | whatever the table holds, one of the servers given is returned, and 0 for none |
| WeightRobin.SelectPicksAny | src/lbs/weightrobin.go:34-61 | on any table it picks the last of the largest raised weights, lowers it by the total, and moves each effective weight one step up towards its server's weight |
| WeightRobin.SelectPicks | src/lbs/weightrobin.go:34-61 | and so on a list whose weights do not change |
| WeightRobin.TableBalances | src/lbs/weightrobin.go:34-61 | current weights add up to zero after every selection |
| WeightRobin.NeverATurnAhead | src/lbs/weightrobin.go:27-64 | after n selections no server has been chosen a full turn more than its share |
| WeightRobin.EveryWindowIsFair | src/lbs/weightrobin.go:27-64 | in every W consecutive selections each server is chosen exactly its weight's number of times |
| WeightRobin.NextKeepsSum | src/lbs/weightrobin.go:44-61 | a selection keeps the sum of the current weights, whatever the effective weights are |
| WeightRobin.WeightsRamp | src/lbs/weightrobin.go:34-61 | after any number of selections a raised weight has gone up by one with each of them until it is reached, and a lowered one has not gone down |
| WeightRobin.WeightsArrive | src/lbs/weightrobin.go:48-50 | after n selections the table works with the servers' own weights exactly when none was lowered and none raised by more than n |
| Dispatcher.Dispatcher.CopyBinds | src/proxy/dispatcher_copy_on_write.go:54-84 | the copy is made of new objects that clusters do not share, and shows the old table without the excluded binds |
| Dispatcher.Dispatcher.AddServer | src/proxy/dispatcher_meta.go:333-350 | registers a server unless its id is taken; the table published before still shows what it showed |
| Dispatcher.Dispatcher.RemoveServer | src/proxy/dispatcher_meta.go:376-395 | unregisters a server and drops it from every cluster of a new table; the old one still shows what it showed |
| Dispatcher.Dispatcher.AddBind | src/proxy/dispatcher_meta.go:457-495 | a new table with one more entry, Up and active at once without a health check, or nothing when server or cluster is unknown; the old table unchanged |
| Dispatcher.Dispatcher.RemoveBind | src/proxy/dispatcher_meta.go:497-514 | a new table without the server's entries in that cluster; the old table unchanged |
| Dispatcher.Dispatcher.RemoveCluster | src/proxy/dispatcher_meta.go:439-455 | removes the cluster and copies the table; the old table unchanged |
| Dispatcher.Dispatcher.GetServerStatus | src/proxy/dispatcher_meta.go:516-527 | the status of some entry of the server, or Unknown when there is none |
| Dispatcher.Dispatcher.StatusChanged | src/proxy/dispatcher_event.go:151-184 | a new table in which all entries of the server have the status, with the actives to match, or nothing when the status read is the same; the old table unchanged |
| Dispatcher.Dispatcher.SelectServer | src/proxy/dispatcher.go:304-315 | the registered server that the balancer chooses among the active ones, or none |
| Dispatcher.StepKeeps | src/proxy/dispatcher_event.go:93-184 | every event keeps the invariant |
| Dispatcher.RunKeeps | src/proxy/dispatcher_event.go:31-57 | after any events active ids are exactly the bound ids with an Up entry, and bound ids are registered |
| Dispatcher.EventsMean | src/proxy/dispatcher_event.go:93-184 | each event changes who is bound where, and who is up, as it says, for its own server and cluster and for no other |
| Dispatcher.EventsRegister | src/proxy/dispatcher_event.go:93-125 | each event registers, replaces or forgets the server or cluster it names, and no other, and nobody is selected from a cluster that is gone |
| Dispatcher.StatusReachesAll | src/proxy/dispatcher_event.go:151-184 | a change of status is certain to reach all entries of the server exactly when all have it already or none has |
| Dispatcher.StatusMayBeSkipped | src/proxy/dispatcher_event.go:151-157 | a run from the empty tables after which a server reported up stays out of selection in a cluster it is bound to |
| Dispatcher.SelectsUpServer | src/proxy/dispatcher.go:304-315 | selection from an existing cluster yields a server exactly when some bound server is up, and then one that is |
| Dispatcher.RemovedClusterKeepsBinds | src/proxy/dispatcher_meta.go:439-455 | removing a cluster leaves its binds |
| IdAlloc.StepKeeps | src/store/store_etcd.go:1121-1215 | ranges of stores stay disjoint and unused, also when commits fail after having been applied |
| IdAlloc.IdsAreUnique | src/store/store_etcd.go:1121-1215 | no id is handed out twice by any stores; ids are positive and grow within a store |
| IdAlloc.NextId | src/store/store_etcd.go:1121-1138 | in every run a call hands out the id after the store's last one, without looking at the cell, unless that was the last of its range; then the first id of another range |
| IdAlloc.UncontendedCall | src/store/store_etcd.go:1121-1172 | without a rival a store gets the next id above the cell by one read and one commit |
| IdAlloc.GetValues | src/store/store_etcd.go:1040-1071 | paging visits ids in order, each once, only existing ones, and all that were there throughout, while others add and remove values |
| RouteParser.Scanner.NextToken | src/route/scanner.go:37-68 | stops at the next meta character or the end |
| RouteParser.Scanner.ScanString | src/route/scanner.go:82-86 | the text since the last call up to the token |
| RouteParser.Parser.Round | src/route/parser.go:87-202 | one round of the loop is one turn of the specified machine, on every input |
| RouteParser.Parser.Parse | src/route/parser.go:75-203 | the loop computes the run of that machine |
| RoutePatterns.PrintedIsRead | src/route/parser.go:64-203 | what the parser makes of any printed pattern, node by node |
| RoutePatterns.PatternRoundTrip | src/route/parser.go:64-203 | a printed pattern is read back exactly when no typed segment without a name comes right before a constant one |
| RouteSyntax.AcceptedExactly | src/route/parser.go:64-203 | for every pattern: it is accepted exactly when it has a meta character and each of them fits, by a grammar over the positions of the meta characters and not over the parser's states |
| RouteSyntax.UnclosedIsRoot | src/route/parser.go:117-198 | for any texts x and y without meta characters, "/x(y" is accepted and means the root |
| Route.ParsedStart | src/route/parser.go:75-203 | nodes that the parser returns begin with a slash |
| Route.RemoveSlash | src/route/route.go:218-230 | drops every slash but the first node's |
| Route.MatchesByKey | src/route/route.go:65-86 | two nodes match exactly when kind and constant text agree |
| Route.SiblingsDiffer | src/route/route.go:123-130 | children of one item never match each other |
| Route.Route.AddChildren | src/route/route.go:19-38 | a chain of new items makes the tree stand for one more entry, children kept in the order of their kinds |
| Route.Route.Add | src/route/route.go:106-163 | the tree stands for the map from shape and method to id with the entry added, or is unchanged when the pattern is malformed or conflicts |
| Route.BuiltTable | src/route/route.go:137-162 | after any additions "*" stands alone at its path and every entry is an id added there for that method |
| Route.BuiltExactly | src/route/route.go:137-162 | a path and method are in the table exactly when some addition of them got in, and an addition is accepted exactly when no earlier one that got in at its path has "*" or its method, and none at all did when its own method is "*" |
| Route.GotInStays | src/route/route.go:137-162 | and each that got in is found with its own id |
| Route.FirstAdditions | src/route/route.go:137-162 | without "*" every path and method ever added is there with its first id |
| Route.FirstComesFirst | src/route/route.go:148-152 | an entry is never changed by later additions |
| Batch.StepKeeps | src/proxy/proxy.go:265-316 | every step keeps the wait groups in order for any batch indices, and the batches apart when they are sorted and can be |
| Batch.BarrierExactly | src/proxy/proxy.go:265-316 | for any list of batch indices: in every run no node starts before all nodes of smaller batches have finished, exactly when the list is sorted and all batches but the smallest have positive indices |
| Batch.CanRunAlone | src/proxy/proxy.go:265-316 | whatever the indices are, some run starts a node with all nodes behind it still to come |
| Batch.LessExactly | src/proxy/dispatcher_runtime.go:334-336 | the wrapping comparison is the order of two indices exactly when their difference is an int32 |
| Batch.ArrangedIsSorted | src/proxy/dispatcher_runtime.go:334-343 | nodes arranged by it are in the order of their batches exactly when no two indices are 2^31 or more apart |
| Batch.DispatchedBarrier | src/proxy/dispatcher_runtime.go:334-343 | for the nodes so arranged, the barrier works exactly when moreover all indices but the smallest are positive |
| Batch.WrapBreaks | src/proxy/dispatcher_runtime.go:334-336 | two nodes that are arranged the wrong way round, and break the barrier with a positive larger index |
| Batch.NonNegativeBarrier | src/proxy/proxy.go:265-316 | in particular when no index is negative |
| Batch.RendersLast | src/proxy/proxy.go:312-318 | for any batch indices, rendering comes after all nodes, and no counter falls below zero |
| Batch.NeverStuck | src/proxy/proxy.go:265-316 | for any batch indices, until the response is rendered some step is possible: no wait lacks a node that will signal |
| Batch.BatchRunsTogether | src/proxy/proxy.go:265-310 | nodes of one batch do not wait for each other: any two that follow each other can run side by side |
| Batch.UnbarredBreaks | src/proxy/proxy.go:266-274 | a run in which a node starts beside an unfinished one of a smaller batch |
| Batch.DispatchNode.DoProxy | src/proxy/proxy.go:362-582 | every path through a node's turn stores its part once, signals its group once, and ends as its first failure says: 503 without a server, 400 for a rewrite that does not match, a filter's own code, 500 for a misplaced value; a response or cached value below 400 leaves error and code alone; of the attempts exactly one decides, by its position, and servers are asked up to it and no further |
| Batch.DecidesOnce | src/proxy/proxy.go:465-527 | there is one deciding attempt, and a successful one is never followed by another |
| ByteBuf.IntRoundTrip | src/goetty/buf.go:36-67 | the four bytes are the lower 32 bits of an integer to the base 256, most significant first, and are read back |
| ByteBuf.Buffer.Expansion | src/goetty/buf.go:577-603 | ends with enough room, keeps the readable bytes, and starts them at index 0 when it moves them |
| ByteBuf.Buffer.Write | src/goetty/buf.go:490-496 | appends to what is readable |
| ByteBuf.Buffer.WriteInt | src/goetty/buf.go:500-505 | appends four bytes |
| ByteBuf.Buffer.ReadInt | src/goetty/buf.go:378-385 | takes four bytes, or returns 0 and takes none |
| ByteBuf.Buffer.ReadBytes | src/goetty/buf.go:337-375 | takes as many bytes as asked for, the rest filled up with zeros |
| CachedValue.NewCachedValue | src/filter/cache_utils.go:9-25 | the buffer holds the encoding, the count of headers patched in front |
| CachedValue.ReadCachedValueTo | src/filter/cache_utils.go:28-41 | reads any content, well-formed or not, as the decoding function does |
| CachedValue.CacheRoundTrip | src/filter/cache_utils.go:9-41 | headers in order and body come back exactly when their number and sizes are below 2^32, and nothing is left to read |
| CachedValue.EncodedLayout | src/filter/cache_utils.go:9-25 | the layout of one encoded response, byte by byte |
| CachedValue.SecondReadIsEmpty | src/filter/cache_utils.go:28-41 | a second reader of the buffer gets no header and an empty body, and so the response exactly when it is empty |

## Left out

- JSON array-index paths, `EachKey`, `Delete`, multi-key `Set` and number parsing: paths are non-empty object keys that do not start with a bracket.
- JsonSet.Set: one key that is no array index; byte slices are values, so the in-place `append` on a shared backing array is not modelled.
- JsonScan.SearchKeys: path components that are empty or array indices are not allowed, so the branch that steps into an array is not modelled.
- JsonScan.InternalGet: the same holds for the paths given to Get, and so for those of `getAttr`.
- JsonSet.MultiContext.CompletePart: an attribute written as an array index is not allowed.
- JsonSet.AttributesReadAsLastStored: attributes hold no quote and no backslash, since what is stored under others is not well-formed or not found again (JsonSet.SetValidExactly, JsonSet.SetReadBack).
- `Ring.Len` as two separate loads, yielding the processor, and the timeout of `Poll` by the clock: a failed pass may leave at any time.
- TimeWheel.StepKeeps: a step takes the number of ticks that TimeWheel.TicksCover makes of a duration; durations are not negative; `Start`, `Stop` of the wheel and `Schedule` on a stopped one are not modelled; the ticker may find the worker busy any number of times.
- TimeoutList.Sweep: the two list heads of the ticker are lists of their own; handing the expired list over by copying its head is a step of TimeWheel.
- `ExecuteInParallel`, `Peek`, `Len` and the other readers of the queue.
- Queue.StepKeeps: shortening the items and signalling the caller of Put are one step of the woken Poll.
- RateLimit.Bucket.Take: 64-bit overflow of ticks and durations is not modelled, nor the construction of a bucket from a rate in floating point.
- WeightRobin.Balancer.Select: the table's pointers are values in a map that the method replaces, and weights do not wrap.
- Dispatcher.Dispatcher.SelectServer: a request reads clusters, binds and servers one after the other; the model reads them at once.
- Health checks, circuit breakers, QPS limits, routings, plugins and the runtime objects of servers and clusters; updates of clusters, which touch no bind.
- IdAlloc.IdsAreUnique: setting the id by hand and cleaning the store are excluded; the cell is one atomic register with read and compare-and-swap.
- IdAlloc.GetValues: decoding errors and failed reads end the paging and are not modelled; a sequence gives what each page read finds.
- `Route.Find`: it passes over segments that match nothing and never goes back, so there is no clean law to state.
- Route.Route.Add: ids are not 0, which the source takes for no entry; items refer to their children by number, and among children of one kind a new one comes last, which is one of the orders that the unstable sort allows.
- Batch.DispatchedBarrier: the sort itself is not modelled; it leaves no node behind one that is greater by the comparison, as long as the comparison is an order on the nodes.
- Batch.DispatchNode.DoProxy: requests, filters and attempts are inputs that say how each branch goes; copies of requests to other servers are left out.
- ByteBuf.Buffer.Expansion: memory comes fresh rather than from a pool, and buffers wrapped around foreign bytes are not modelled.
- The LRU cache's byte accounting subtracts the new size when it overwrites, so no conservation law holds there.
- Network and storage I/O, the JavaScript plugin engine, logging, metrics, JWT and header filters.
