# Bank-branch queue store, modelled in Dafny

This project models the queue store of a bank-branch queue application. The
store is written as a React context in TypeScript. It holds
- the tickets customers take,
- five counters,
- the day's statistics,
- one ticket sequence per service type (teller, customer service, loan).

The model covers every store operation:
- issuing a ticket (`takeTicket`);
- calling the next ticket to a counter (`callNext`);
- completing or skipping the ticket being served (`completeService`, `skipTicket`);
- opening or closing a counter and recording its officer (`setCounterActive`, `setOfficerName`);
- resetting the day (`resetQueue`);
- the read-only queries (`getWaitingCount`, `getCurrentServing`, `getWaitingTickets`);
- the static service catalogue (`SERVICE_TYPES`, `getServiceTypeInfo`).

Modules, one per concern:

- `QueueTypes` (`queue_types.dfy`): the record shapes, the closed set of service types and the catalogue.
- `DisplayCode` (`display_code.dfy`): the display code, a prefix letter plus the number left-padded with `0` to three digits. It proves the code parses back to its queue and number.
- `Tally` (`tally.dfy`): filtering, counting and summing over ticket lists. It also has the facts about how these change when a ticket is appended or replaced.
- `WaitingLine` (`waiting_line.dfy`): the queries and the call order. Waiting tickets are sorted by creation time with a stable sort.
- `StoreState` (`store_state.dfy`): the initial values, the statistics updaters and the store invariant. It proves, on values, that every operation keeps the invariant.
- `QueueContext` (`queue_store.dfy`): the store itself, the class `QueueStore`.
  - The four pieces of React state are held together in one `Snapshot` record, the field `state`.
  - Each operation is a method that replaces the record the way the source's setters do. The setters one handler calls are applied together before the next render.

The store invariant (`StoreState.Invariant`) says:
- the counters keep the ids, names and queues of `INITIAL_COUNTERS`;
- ticket ids are distinct;
- the tickets of each queue are numbered 1, 2, 3, ... in issue order, and the queue's sequence counter is its ticket count;
- each ticket's optional fields agree with its status, and its display code is its queue's prefix plus its number;
- every occupied counter slot holds a copy of a listed ticket that is serving at that counter;
- every served, skipped and issued total is a count over the list, and the 24 hourly buckets sum to the ticket count;
- every average is a running mean whose value times its count is the sum of its samples (exact over `real`).

A second property, `NoOrphans`, says every serving ticket sits in some counter's slot. It is kept by every operation except `callNext` at a counter whose slot is already full. There the source overwrites the slot, and the ticket it held stays serving with no counter holding it. This is proved, not excluded by a precondition.

Time is a parameter. `now` is the instant in milliseconds and `hour` is the hour of the day (0 to 23). Ticket ids are natural numbers the caller supplies.

## Model

| member | source | states |
|---|---|---|
| QueueTypes.GetServiceTypeInfo | uca-queue-buddy-main/src/types/queue.ts:80-82 | the entry returned for a service type has that type as its id and is an entry of the catalogue |
| QueueTypes.InfoIsCatalogueEntry | uca-queue-buddy-main/src/types/queue.ts:80-82 | the entry returned for a service type is exactly the catalogue's entry for that type |
| QueueTypes.FindOrFirst | uca-queue-buddy-main/src/types/queue.ts:81 | `find` with a fallback: the first entry with the id when one exists, otherwise the first entry of the list |
| QueueTypes.FindServiceInfo | uca-queue-buddy-main/src/types/queue.ts:81 | `find` returns nothing exactly when no entry has the id, and otherwise the first entry that has it |
| QueueTypes.FallbackUnreachable | uca-queue-buddy-main/src/types/queue.ts:80-82 | every service type is found in the catalogue, so the fallback to the first entry is never taken |
| QueueTypes.CatalogueIsExact | uca-queue-buddy-main/src/types/queue.ts:53-78 | the catalogue has exactly three entries, with pairwise distinct ids covering every service type |
| QueueTypes.PrefixesDistinct | uca-queue-buddy-main/src/types/queue.ts:53-78 | the prefixes are the single letters A, B and C, and equal prefixes mean equal service types |
| QueueTypes.EstimatedTimesPositive | uca-queue-buddy-main/src/types/queue.ts:60-76 | the estimated times are 5, 15 and 30 minutes, all positive |
| DisplayCode.PadStart | uca-queue-buddy-main/src/context/QueueContext.tsx:114 | `padStart`: the result is at least `width` long, ends with the input and is filled in front with the fill character |
| DisplayCode.DecimalString | uca-queue-buddy-main/src/context/QueueContext.tsx:114 | `String(n)` is a non-empty string of digits without a leading zero |
| DisplayCode.ParseDecimalString | uca-queue-buddy-main/src/context/QueueContext.tsx:114 | parsing the decimal form of a number gives the number back |
| DisplayCode.TicketCodeShape | uca-queue-buddy-main/src/context/QueueContext.tsx:114 | a display code is the queue's prefix followed by at least three digits that parse back to the number; it is four characters below 1000, and from 1000 on the number is printed in full, never truncated |
| DisplayCode.TicketCodeInjective | uca-queue-buddy-main/src/context/QueueContext.tsx:114 | two display codes are equal if and only if their queues and numbers are equal |
| Tally.SelectMembers | uca-queue-buddy-main/src/context/QueueContext.tsx:257-258 | a filter keeps exactly the matching tickets |
| Tally.SelectMultiplicity | uca-queue-buddy-main/src/context/QueueContext.tsx:262-264 | a filter keeps every copy of a matching ticket and drops every copy of the others |
| Tally.CountUpdate | uca-queue-buddy-main/src/context/QueueContext.tsx:180-182 | replacing one ticket moves each count by what the old and the new ticket contribute |
| Tally.TotalUpdate | uca-queue-buddy-main/src/context/QueueContext.tsx:173-182 | replacing one ticket moves each sum of wait or service times by what the old and the new ticket contribute |
| WaitingLine.SortByCreated | uca-queue-buddy-main/src/context/QueueContext.tsx:145 | the sort returns a permutation of its input, ordered by creation time |
| WaitingLine.SortIsStable | uca-queue-buddy-main/src/context/QueueContext.tsx:145 | the sort is stable: tickets created at the same instant keep their list order |
| WaitingLine.GetWaitingTickets | uca-queue-buddy-main/src/context/QueueContext.tsx:266-270 | a ticket is in the result exactly when it is listed, waiting, and of the requested queue (any queue when none is given); the result is a permutation of the filtered list, each such ticket appearing as many times as in the list, sorted by creation time |
| WaitingLine.GetWaitingCount | uca-queue-buddy-main/src/context/QueueContext.tsx:256-260 | the count is the length of the waiting list that `getWaitingTickets` returns |
| WaitingLine.GetCurrentServing | uca-queue-buddy-main/src/context/QueueContext.tsx:262-264 | a ticket is in the result exactly when it is listed with status serving, and it appears as many times as in the list, so the result's length is the number of serving tickets |
| WaitingLine.SortedHeadIsNextInLine | uca-queue-buddy-main/src/context/QueueContext.tsx:143-149 | the head of the sorted waiting list is the listed ticket with the smallest creation time, the first in the list among equals |
| WaitingLine.NextInLineUnique | uca-queue-buddy-main/src/context/QueueContext.tsx:143-149 | at most one position is next in line, so the ticket callNext picks is determined |
| StoreState.InitialShape | uca-queue-buddy-main/src/context/QueueContext.tsx:30-50 | `INITIAL_COUNTERS` are counters 1 to 5 with only counter 4 closed and no slot taken; `getInitialStats` has every count and average 0 and 24 empty buckets for hours 0 to 23; each sequence counter starts at 0 |
| StoreState.InitialInvariant | uca-queue-buddy-main/src/context/QueueContext.tsx:249-254 | the initial and reset state satisfies the store invariant and has no orphans |
| StoreState.RunningMean | uca-queue-buddy-main/src/context/QueueContext.tsx:190-197 | `(avg * n + x) / (n + 1)` times `n + 1` is `avg * n + x` |
| StoreState.IssuedStatsChanges | uca-queue-buddy-main/src/context/QueueContext.tsx:122-134 | takeTicket adds one to the total of its queue and to the bucket of the current hour; nothing else in the statistics changes |
| StoreState.ServedStatsChanges | uca-queue-buddy-main/src/context/QueueContext.tsx:173-207 | completeService adds one served overall and in the ticket's queue, and folds the wait and service times into the means using the count before the increment; skipped counts, totals, other queues and buckets stay |
| StoreState.SkippedStatsChanges | uca-queue-buddy-main/src/context/QueueContext.tsx:224-234 | skipTicket adds one skipped overall and in the ticket's queue; served counts, averages, other queues and buckets stay |
| StoreState.IssueKeepsInvariant | uca-queue-buddy-main/src/context/QueueContext.tsx:105-137 | appending the next ticket of a queue keeps the invariant, keeps NoOrphans, and extends the list |
| StoreState.CallKeepsInvariant | uca-queue-buddy-main/src/context/QueueContext.tsx:149-162 | calling the ticket next in line to a counter keeps the invariant, and keeps NoOrphans when the slot was empty |
| StoreState.CallOrphansPrevious | uca-queue-buddy-main/src/context/QueueContext.tsx:158-162 | calling into a full slot leaves the ticket it held listed and serving, with no counter holding it |
| StoreState.CompleteKeepsInvariant | uca-queue-buddy-main/src/context/QueueContext.tsx:171-207 | completing the ticket in a slot keeps the invariant (the means stay exact) and NoOrphans |
| StoreState.SkipKeepsInvariant | uca-queue-buddy-main/src/context/QueueContext.tsx:214-234 | skipping the ticket in a slot keeps the invariant and NoOrphans |
| StoreState.CounterEditKeepsInvariant | uca-queue-buddy-main/src/context/QueueContext.tsx:237-247 | changing only counters' open flags or officer names keeps the invariant and NoOrphans |
| StoreState.AverageIsMean | uca-queue-buddy-main/src/context/QueueContext.tsx:188-207 | each stored average is the sum of its samples over the completed tickets divided by their count |
| StoreState.NumbersCountFromOne | uca-queue-buddy-main/src/context/QueueContext.tsx:107-113 | in each queue the ticket numbers run 1, 2, 3, ... in issue order |
| StoreState.NumberGrows | uca-queue-buddy-main/src/context/QueueContext.tsx:107-113 | within a queue, a ticket issued later has a larger number |
| StoreState.DisplayNumbersUnique | uca-queue-buddy-main/src/context/QueueContext.tsx:107-114 | no two listed tickets share a display code |
| StoreState.ServingIsHeld | uca-queue-buddy-main/src/context/QueueContext.tsx:152-162 | without orphans, every serving ticket sits in the slot of the counter it records |
| StoreState.OneTicketPerCounter | uca-queue-buddy-main/src/context/QueueContext.tsx:152-162 | without orphans, no two serving tickets record the same counter |
| QueueContext.FindCounter | uca-queue-buddy-main/src/context/QueueContext.tsx:140 | `counters.find` by id: nothing exactly when no counter has the id, otherwise the first position that has it |
| QueueContext.UpdateTicketsAt | uca-queue-buddy-main/src/context/QueueContext.tsx:152-156 | with distinct ids, mapping over the list by a ticket's id changes exactly that ticket |
| QueueContext.UpdateCountersAt | uca-queue-buddy-main/src/context/QueueContext.tsx:158-162 | mapping over the counters by id changes nothing when no counter has the id, and otherwise exactly the counter `find` returns |
| QueueContext.IssueSound | uca-queue-buddy-main/src/context/QueueContext.tsx:105-137 | takeTicket's three setters together keep the invariant; the new number is one more than the tickets of its queue |
| QueueContext.CallSound | uca-queue-buddy-main/src/context/QueueContext.tsx:139-165 | callNext's two setters change exactly the ticket next in line and the counter's slot, and keep the invariant |
| QueueContext.CompleteSound | uca-queue-buddy-main/src/context/QueueContext.tsx:167-208 | completeService's three setters change exactly the slot's ticket and slot, and keep the invariant |
| QueueContext.SkipSound | uca-queue-buddy-main/src/context/QueueContext.tsx:210-235 | skipTicket's three setters change exactly the slot's ticket and slot, and keep the invariant |
| QueueContext.QueueStore.constructor | uca-queue-buddy-main/src/context/QueueContext.tsx:53-86 | with nothing saved, the store starts with no tickets, `INITIAL_COUNTERS`, zero statistics and zero sequence counters, in a valid state |
| QueueContext.QueueStore.TakeTicket | uca-queue-buddy-main/src/context/QueueContext.tsx:105-137 | the ticket gets number `ticketCounters[s] + 1`, the count of its queue's tickets plus one; exactly this waiting ticket is appended; only `s`'s sequence counter rises; the statistics are updated as takeTicket does; the store stays valid |
| QueueContext.QueueStore.CallNext | uca-queue-buddy-main/src/context/QueueContext.tsx:139-165 | returns a ticket if and only if the counter exists, is open and its queue has a waiting ticket, and otherwise changes nothing; it calls the ticket next in line, setting it serving at `now` at this counter in the list and in the slot, and changes no other ticket, counter or statistic |
| QueueContext.QueueStore.CompleteService | uca-queue-buddy-main/src/context/QueueContext.tsx:167-208 | does nothing when the counter does not exist or its slot is empty; otherwise marks exactly the slot's ticket completed at `now`, empties the slot and updates the statistics as completeService does; the store stays valid |
| QueueContext.QueueStore.SkipTicket | uca-queue-buddy-main/src/context/QueueContext.tsx:210-235 | does nothing when the counter does not exist or its slot is empty; otherwise marks exactly the slot's ticket skipped at `now`, empties the slot and counts the skip; the store stays valid |
| QueueContext.QueueStore.SetCounterActive | uca-queue-buddy-main/src/context/QueueContext.tsx:237-241 | only the open flag of the counter with that id changes; the store stays valid |
| QueueContext.QueueStore.SetOfficerName | uca-queue-buddy-main/src/context/QueueContext.tsx:243-247 | only the officer name of the counter with that id changes; the store stays valid |
| QueueContext.QueueStore.ResetQueue | uca-queue-buddy-main/src/context/QueueContext.tsx:249-254 | the store is back to no tickets, `INITIAL_COUNTERS`, zero statistics for `today` and zero sequence counters, in a valid state |

## Left out

- Persistence to and from `localStorage`, including JSON rehydration of dates (QueueContext.tsx:53-103), is browser I/O. The constructor models only the path where nothing was saved. The source restores tickets' dates as `Date` objects (QueueContext.tsx:57-62) but parses counters with a plain `JSON.parse` (QueueContext.tsx:69). A ticket held in a counter's slot across a reload therefore keeps `calledAt` as a string, and `completeService` would then fail at `calledAt.getTime()` (QueueContext.tsx:174).
- The date check at QueueContext.tsx:76 reads the wall clock and is left out. It resets saved statistics on a new day while keeping the saved tickets. After such a restart the statistics no longer count the list, so the store invariant would not hold.
- The clock (`new Date()`, `Date.now()`) is replaced by the parameters `now` (milliseconds) and `hour` (0 to 23, the range `getHours` returns). The model does not connect `hour` to `now`. takeTicket reads the clock several times (the id, `createdAt`, and `getHours` once per bucket); `now` stands for the timestamp read and `hour` for the hour. Every other handler reads the clock once, and `now` stands for that read.
- QueueContext.QueueStore.TakeTicket: asks the caller for a fresh natural-number id instead of building `${serviceType}-${Date.now()}` (QueueContext.tsx:112). That string is not unique when two tickets of one queue are taken in the same millisecond. The model's results about updating "the ticket with this id" depend on ids being distinct.
- StoreState.IssuedStats: reads the hour once for all 24 buckets. The source calls `new Date().getHours()` again for each bucket inside `hourlyData.map` (QueueContext.tsx:131-132). When the clock crosses an hour boundary during that map, two buckets can go up, or none at 23:59 to 00:00. `HoursAgree` (the buckets sum to the ticket count) therefore holds of the model only. The same applies to QueueContext.QueueStore.TakeTicket, which uses it.
- DisplayCode.TicketCodeShape: ticket numbers are unbounded natural numbers. The source's numbers are JavaScript doubles, and `String(n)` switches to exponent form (`"1e+21"`) from 10^21 on, where the shape proved here no longer holds. Already from 2^53 on, `ticketCounters[s] + 1` stops growing in the source, so `StoreState.NumberGrows`, `StoreState.NumbersCountFromOne` and `StoreState.DisplayNumbersUnique` hold of the model only.
- React mechanics are left out: `useState`, `useCallback` dependency closures, context plumbing and `useQueue`. Each model operation reads the current state. The source's handlers read the state of the render that created them, so two handlers called at once between renders can see stale state (for example, two `takeTicket` calls giving the same number).
- Floating-point rounding of the `/ 60000` conversion and of the running means is left out. Averages are `real`, and the mean identities hold exactly.
- Pages, layout, routing, charts and backend-bound pages are UI and are not part of this model.
