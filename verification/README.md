# A verified model of the queueing simulator

The program simulates servers that serve a stream of clients in discrete time. Clients are generated with
random arrival times, each is dispatched to the least loaded server, servers repeat a service until it
succeeds, and at the end the program reports mean queue lengths, waiting times and service times. Service
times are looked up in an open-addressed Robin Hood hash map; clients wait in array queues.

This project models three parts of it and proves what each of them is for.

- **The hash map** (`Ring`, `Doubles`, `RobinHood`, `HashMap`, `AnyHash`, `MapRuns`). `RobinHood` says what a table must satisfy:
  every entry sits as many steps behind its home bucket as its distance field says, no bucket is more than one
  step further from home than the bucket before it, keys are unique, and the table stands for a finite map.
  The probe loops of insertion, rehashing and deletion are recursive functions there, each proved to be an
  operation on that finite map. The class `HashMap` overwrites its bucket array in place with the source's
  loops, and every loop is proved to compute the corresponding function. `MapRuns` covers arbitrary sequences
  of calls with allocation failing arbitrarily, `AnyHash` callers that bring hashes of their own.
- **The array queue** (`Queue`) with its shifting insertion, its growing and shrinking, and its iterator, proved
  to be a first-in first-out sequence.
- **The simulation.** `Model` and `SystemModel` say as functions on values what one tick does to a client, a
  server and the system; `ServerLaws`, `SystemLaws` and `Statistics` prove what that means over whole runs, for
  every outcome of the success tests. The classes `Server` and `System` do the same in place, operation by
  operation and loop by loop, and are proved to compute those functions. `Clients` generates the arrivals,
  `InitialTable` holds the service times, `Configurations` the program's two configurations and the boosts that
  are safe in them, and `Setups` puts all parts together, from the hash table to the release of the last client.

A client's arrival time is overwritten with zero when the client is dispatched (`src/system.c:25`). Each client
of the model therefore also remembers its *entry* tick, which the source does not store. The queueing laws are
about entry ticks; what the recorded times amount to is proved separately (`ServerLaws.RecordedTimesAreReal`,
`SystemLaws.RecordsInRuns`, `Statistics.ReportedMeans`). Likewise each server remembers the *history* of all clients assigned to it.

The random decisions are parameters: the outcome of each success test (`luck`), the samples drawn for each
client (`draws`), and whether an allocation succeeds (`alloc`). Load factors are rounded as doubles are:
`Doubles` models the division by 100 and the multiplication by 100 with rounding to the nearest double.

Where the code and its own comments disagree, the model follows the code:

- The comment on the load factor promises a range of 50 to 90 percent, the code clamps at 95
  (`src/hashmap.c:76-79`). The result is above 90 percent exactly for factors from 0.91 on
  (`HashMap.AboveNinety`).
- Setting a load factor lasts only until the next rehash, which copies the threshold of a new map with the
  default load factor (`src/hashmap.c:303`); `MapRuns.LoadFactorIsForgotten` says exactly when it is lost.
- Passing a not-a-number is meant to keep the load factor. It lowers it by one percent if it is 57 or 58
  percent, and keeps it otherwise: dividing and multiplying these two by 100 gives a double just below, whose
  fraction is dropped (`src/hashmap.c:86-87`, `Doubles.PercentKept`).
- `hashmap_set_with_hash` is said to work like `hashmap_set`; `AnyHash.WorksLikeSet` says exactly when it does,
  and `AnyHash.SecondEntry` shows an item that is entered twice (`src/hashmap.c:315-317`).
- The recorded waiting time of a client is the tick at which its service starts, and its recorded total time
  the tick at which it ends, because both subtract an arrival time that was zeroed (`src/system.c:25`,
  `src/server.c:340`, `src/client.c:126`). They are the real ones if and only if the client was dispatched at
  tick 0.

## Model

| member | source | states |
|---|---|---|
| Ring.MaskIsModulo | src/hashmap.c:339 | Masking with `nbuckets - 1` is the remainder by `nbuckets`, for every power of two |
| Ring.MaskedStep | src/hashmap.c:364 | `(i + 1) & mask` is the next bucket, wrapping around at the end |
| Ring.ShiftAdds | src/hashmap.c:325 | Shifting by a sum of powers is shifting twice, and shifting by one is doubling |
| Ring.RoundUpIsLeast | src/hashmap.c:135-147 | Doubling from 16 reaches the least power of two that is at least 16 and at least the capacity asked for |
| RobinHood.ClipIsRemainder | src/hashmap.c:109-113 | Clipping a hash keeps its 48 lower bits |
| RobinHood.HomeIsMasked | src/hashmap.c:339 | The home bucket is the hash masked with the number of buckets less one |
| RobinHood.Ramp | src/hashmap.c:340-366 | Every bucket between an entry's home and the entry is occupied, with distances that grow at least one a step |
| RobinHood.Absent | src/hashmap.c:387-401 | A probe may stop at the first bucket closer to its home than the key would be there: the key is nowhere in the table |
| RobinHood.NotPassed | src/hashmap.c:340-366 | No entry has an empty bucket between its home and itself, so a displaced entry still meets the same empty bucket |
| RobinHood.DibAtMostCount | src/hashmap.c:33-37 | No stored distance exceeds the number of entries, so 16 bits hold it in tables of up to 65536 buckets |
| RobinHood.CarriedDibAtMostCount | src/hashmap.c:332-366 | In every state of an insertion the carried distance is at most one more than the number of entries, and no stored one exceeds that number |
| RobinHood.InsertFits | src/hashmap.c:332-366 | In tables of up to 65536 buckets every stored and carried distance is below 65536 in every round of the insertion loop |
| RobinHood.RehashFits | src/hashmap.c:279-297 | The same for every round of the inner loop of a rehash |
| RobinHood.NarrowStep | src/hashmap.c:357-365 | What holds of all rounds still to come holds after one round, with an exchange or without |
| RobinHood.CarrySwap | src/hashmap.c:357-365 | Exchanging the carried entry for a less displaced one keeps the invariant, and what remains to be inserted stays the same map |
| RobinHood.ReplaceKeepsAll | src/hashmap.c:350-356 | Overwriting the item of a bucket by an equal key is a map update that keeps the invariant and returns the old item |
| RobinHood.AbsentInsertIsRehash | src/hashmap.c:340-366 | Once the carried key is absent, comparing keys makes no difference in any chain of exchanges |
| RobinHood.InsertFromIsUpdate | src/hashmap.c:340-366 | Before the first exchange an existing key is met now or later, never after an exchange; the loop ends in a valid table for the updated map |
| RobinHood.InsertIsUpdate | src/hashmap.c:319-367 | The whole insertion loop is `m[k := v]`, keeps the invariant, and hands back the old item if and only if the key was present |
| RobinHood.RehashFromIsUpdate | src/hashmap.c:279-297 | Moving one entry without comparing keys adds exactly that entry |
| RobinHood.RehashIsUpdate | src/hashmap.c:279-297 | The same for an entry that starts at its home bucket with distance 1 |
| RobinHood.CountIsSize | src/hashmap.c:484-489 | The number of occupied buckets is the size of the finite map |
| RobinHood.FindHole | src/hashmap.c:340-366 | A table with fewer entries than buckets has an empty bucket, so every probe loop terminates |
| RobinHood.ShiftKeepsShape | src/hashmap.c:449-461 | One round of the backward shift keeps every entry placed and moves the hole on by one, across the wrap-around too |
| RobinHood.ShiftKeepsKeys | src/hashmap.c:449-461 | The same round loses and duplicates nothing, and leaves as many buckets occupied |
| RobinHood.CloseGapKeepsAll | src/hashmap.c:449-461 | The backward-shift loop ends in a valid table for the same map |
| RobinHood.DeleteIsRemoval | src/hashmap.c:444-462 | Emptying a bucket and shifting back removes exactly that key and restores the whole invariant |
| RobinHood.PrefixGrows | src/hashmap.c:272-298 | Walking over the old buckets never meets a key twice, and meets one more entry per occupied bucket |
| RobinHood.ItemsAreHeld | src/hashmap.c:548-562 | The items met from a cursor on are exactly those stored at or after it |
| RobinHood.ItemsAreDistinct | src/hashmap.c:548-562 | No key is met twice |
| RobinHood.IterationIsFaithful | src/hashmap.c:515-562 | Walking over all buckets meets exactly the items of the map, each once |
| HashMap.HashMap.Blank | src/hashmap.c:160-188 | A new map of a power-of-two capacity is valid, empty, and grows at 60 percent |
| HashMap.HashMap.New | src/hashmap.c:124-189 | The capacity becomes the least power of two that is at least 16 and at least what was asked for; no map without memory |
| HashMap.HashMap.HomeBucket | src/hashmap.c:339 | The masked hash is the home bucket |
| HashMap.HashMap.NextBucket | src/hashmap.c:364 | The masked successor is the next bucket on the circle |
| HashMap.HashMap.Find | src/hashmap.c:385-401 | The probe loop terminates and finds the bucket of a key if and only if the map has it |
| HashMap.HashMap.GetWithHash | src/hashmap.c:382-402 | Lookup under the key's own hash is lookup in the finite map |
| AnyHash.Get | src/hashmap.c:382-402 | Under any given hash it is lookup of that clipped hash together with the key |
| HashMap.HashMap.Get | src/hashmap.c:406-410 | The same with the map's own hash |
| HashMap.HashMap.InsertLoop | src/hashmap.c:332-366 | The in-place loop with its carried entry computes `InsertFrom`, whatever chain of exchanges it sets off, and the carried distance fits 16 bits in every round |
| HashMap.HashMap.Insert | src/hashmap.c:332-367 | It updates the finite map, raises the count if and only if the key is new, and returns the replaced item |
| HashMap.HashMap.MoveOne | src/hashmap.c:274-297 | The in-place rehash of one bucket, with that bucket as the carried entry, computes `RehashFrom`, changes no other old bucket, and keeps to 16 bits |
| HashMap.HashMap.MoveAll | src/hashmap.c:272-298 | After the loop the new table holds exactly the old items |
| HashMap.HashMap.Adopt | src/hashmap.c:299-306 | Taking over the new buckets and sizes gives a valid map with the same contents, with the threshold of the new map |
| HashMap.HashMap.Resize | src/hashmap.c:264-307 | A rehash into the rounded capacity keeps the contents, for any capacity of at least `cap` that rounds to more than `count`; without memory nothing changes at all |
| HashMap.HashMap.SetWithHash | src/hashmap.c:319-367 | Under the key's own hash: map update with the old item as result; out of memory exactly when the threshold is reached and allocation fails, and then nothing changes, not even a replacement |
| AnyHash.Set | src/hashmap.c:315-367 | The same under any given hash, for a map of clipped hashes together with keys |
| AnyHash.WorksLikeSet | src/hashmap.c:315-367 | It works like `hashmap_set`, in the entries it leaves and in what it returns, if and only if the given hash agrees with the callback's in 48 bits, or the same item was there already under both hashes |
| AnyHash.SecondEntry | src/hashmap.c:315-367 | An item that is there under its own hash only is added a second time, unnoticed by `hashmap_get` and with nothing returned |
| AnyHash.SeenIsLookup | src/hashmap.c:406-410 | `hashmap_get` finds a key exactly if it was entered under its own hash |
| HashMap.HashMap.Set | src/hashmap.c:373-377 | Map update with the callback's hash, with the old item as result, or nothing at all when memory is needed and cannot be had; and when the table grows, to what size and threshold |
| HashMap.HashMap.ShiftLoop | src/hashmap.c:448-461 | The in-place backward shift computes `CloseGap` |
| HashMap.HashMap.RemoveAt | src/hashmap.c:444-462 | It removes exactly the key of the bucket and lowers the count |
| HashMap.HashMap.DeleteWithHash | src/hashmap.c:430-474 | Under the key's own hash: map removal with the removed item as result; exactly when the table halves, and a failed shrink is harmless |
| AnyHash.Delete | src/hashmap.c:430-474 | The same removal under any given hash |
| AnyHash.WorksLikeDelete | src/hashmap.c:427-431 | It works like `hashmap_delete` if and only if the given hash agrees with the callback's in 48 bits, or the item is there under neither |
| HashMap.HashMap.Delete | src/hashmap.c:478-482 | Map removal with the callback's hash, with the removed item as result; and exactly when the table halves, to which threshold |
| HashMap.HashMap.Wipe | src/hashmap.c:258-261 | Zeroing the buckets in use gives a valid empty map whose threshold follows its own load factor |
| HashMap.HashMap.Clear | src/hashmap.c:239-262 | The map is empty, its capacity is as asked for, and it keeps its buckets exactly if none could or need be had |
| Doubles.WholeAtLeast | src/hashmap.c:87 | The whole part of a factor times 100 is `n` or more exactly from half a rounding step below `n` percent on |
| HashMap.PercentAtLeast | src/hashmap.c:84-87 | The same for the percentage that any given number is turned into, with the clamping |
| HashMap.AboveNinety | src/hashmap.c:76-87 | The percentage is above 90 if and only if the given number is at least 0.91 |
| Doubles.ThresholdIsExact | src/hashmap.c:88 | The threshold computed with doubles is the whole part of the exact product, for every power of two up to 2^47 |
| Doubles.PercentKept | src/hashmap.c:86-87 | Dividing a percentage by 100, multiplying by 100 and dropping the fraction keeps it, except that 57 and 58 become 56 and 57 |
| HashMap.HashMap.SetLoadFactor | src/hashmap.c:73-89 | The load factor is clamped to 50 to 95 percent, for a not-a-number it stays unless it is 57 or 58, which fall by one, and the threshold follows at once |
| HashMap.HashMap.SetGrowByPower | src/hashmap.c:67-71 | The growth power is clamped to 1 to 16 |
| HashMap.GrowAt | src/hashmap.c:88 | Below 100 percent the threshold leaves at least one bucket empty |
| HashMap.GrowAtIsComputed | src/hashmap.c:88 | The threshold is what doubles compute, in tables of up to 2^47 buckets |
| HashMap.ShrinkAtIsComputed | src/hashmap.c:184 | So is the count up to which a table shrinks |
| Doubles.NearIsNearest | src/hashmap.c:86-88 | Rounding gives the nearest multiple, and the even one of two |
| Doubles.TenthIsExact | src/hashmap.c:13 | The double 0.10, a little above one tenth, never lifts the whole part |
| HashMap.HashMap.Iter | src/hashmap.c:548-562 | One step yields the next item at or after the cursor, and ends exactly when there is none |
| HashMap.HashMap.Items | src/hashmap.c:530-547 | Iterating from cursor 0 to the end yields exactly `count` items, each stored item once |
| HashMap.HashMap.Scan | src/hashmap.c:515-528 | The callback sees the items in order up to the first one it refuses, all of them if it refuses none |
| MapRuns.Perform | src/hashmap.c:67-482 | Each call is one step of a machine on contents and sizes, with the reply that the machine gives |
| MapRuns.PerformAll | src/hashmap.c:67-482 | Any sequence of calls, with any allocation failures: contents and replies are those of a finite map on which the calls that ran out of memory did nothing, and the sizes are those of the machine |
| MapRuns.RunAgreesWithMap | src/hashmap.c:319-474 | In every run contents and replies are those of a finite map on which the calls that ran out of memory did nothing |
| MapRuns.SizesAreInvisible | src/hashmap.c:264-307 | While memory lasts, maps with equal contents give equal replies for ever, whatever their sizes and load factors |
| MapRuns.LoadFactorIsForgotten | src/hashmap.c:299-304 | Whether a map grows at its own load factor after a call: after a rehash if and only if that is 60 percent, or 57 to 62 in a new table of 16 buckets, or 60 to 62 in one of 32; after clearing and setting it, always; after any other call as before |
| MapRuns.LoadFactorInRuns | src/hashmap.c:67-482 | The same for every sequence of calls |
| MapRuns.ThresholdsAgree | src/hashmap.c:183 | Exactly these percentages have the default threshold in tables of each size |
| MapRuns.DefaultIsKept | src/hashmap.c:299-304 | A map that is never given a load factor always grows at the default one |
| MapRuns.ValidIsSized | src/hashmap.c:135-188 | The sizes of every valid map are those that these results are about |
| MapRuns.ForgottenAt90 | src/hashmap.c:299-304 | A concrete call after which a map told to grow at 90 percent grows at 60 |
| Queue.Queue.constructor | src/queue.c:10-29 | A new queue is empty with the given capacity |
| Queue.Queue.Size | src/queue.c:31-38 | The size is the number of elements, and 0 for a NULL queue |
| Queue.Queue.ShiftUp | src/queue.c:59-65 | The loop moves every element up by one place and stays in bounds |
| Queue.Queue.Push | src/queue.c:40-71 | Push appends an element, doubling the capacity when full; nothing happens for a NULL queue, an absent element or a failed growth |
| Queue.Queue.Top | src/queue.c:79-86 | The oldest element, or nothing if there is none |
| Queue.Queue.Pop | src/queue.c:88-101 | Pop removes exactly the oldest element; the capacity halves when it is more than twice the size, and the shrink loses nothing |
| Queue.Queue.Resize | src/queue.c:124-142 | Elements are lost only below the size, and then the oldest ones; a failure changes nothing, and neither does a NULL queue |
| Queue.Queue.Free | src/queue.c:103-122 | Every element is handed to the deallocator once, newest first; none of a NULL queue |
| Queue.QueueIterator.Create | src/queue.c:144-159 | There is no iterator exactly for a NULL or empty queue or without memory |
| Queue.QueueIterator.HasNext | src/queue.c:162-169 | It is true exactly while elements remain |
| Queue.QueueIterator.Next | src/queue.c:172-182 | The steps yield the elements newest first, and nothing after the end or from a NULL iterator |
| Clients.GapSumGrows | src/client.c:27 | Arrival times increase strictly, because every gap is at least 1 |
| Clients.DrawnInOrder | src/client.c:25-71 | Generated clients arrive at strictly increasing times from 1 on and have distinct ids |
| Clients.ClientNew | src/client.c:7-17 | The five fields that are initialised are zero; nothing is promised about the others |
| Clients.ClientsInit | src/client.c:19-72 | Exactly the draws that arrive before the horizon become clients, in order, each with its id and arrival time and a fresh record, with destination 2 if and only if drawn so, without disability unless drawn so, and of disability type 1, 2 or 3 by the sample |
| Server.InitTable | src/server.c:10-25 | The eight calls leave a valid map with exactly the eight service times, for any hash function |
| InitialTable.InitialTimesAtLeast | src/server.c:17-24 | Every kind of client has a service time, and the least one is 4 |
| InitialTable.BoostedIsQuotient | src/server.c:165-168 | A boosted service takes the truncated quotient of the tabulated time and the boost, for every sign of both |
| InitialTable.QuotientIsUnique | src/server.c:165-168 | There is only one such quotient |
| InitialTable.InitialTimesSuffice | src/server.c:150-174 | With these times a standard server can serve everybody, and a robotic one if and only if its boost is positive and at most 4 |
| Configurations.ThirdIsBoosted | src/server.c:297-306 | Of three clients of the quickest kind in a row the third goes to the robotic server, which starts with the truncated quotient of 4 and its boost, stated by its rest |
| Configurations.SafeBoosts | src/server.c:223 | The assertions about the time to serve hold in every simulation of a standard and a robotic server if and only if the boost is positive and at most 4 |
| Server.Server.constructor | src/server.c:58-67 | A new server is idle, with empty queues and zero statistics |
| Server.Server.New | src/server.c:51-99 | Without memory for all of its parts there is no server |
| Server.Server.Tick | src/server.c:216-233 | A busy server works one tick off and is active, an idle one is idle; called only when the assertion of the source holds |
| Server.Server.GetLoad | src/server.c:235-271 | The load is that of `LoadIsTurn` |
| ServerLaws.LoadIsTurn | src/server.c:235-271 | The load that a client finds is the number of clients taken up before it: if nobody else arrives, exactly that many of those waiting have their turn, in line, and then the client |
| ServerLaws.TurnsFollowLine | src/server.c:273-349 | While nobody arrives clients are taken up in line: on a robotic server all disabled ones, then the others |
| Server.Server.AssignClient | src/server.c:101-148 | The client joins the end of its queue and nothing else changes |
| Server.Server.GetServiceTime | src/server.c:150-174 | The tabulated time of the client on a standard server, its truncated quotient by the boost on a robotic one, for any table that has the client's kind |
| Server.Server.TimeOf | src/server.c:287 | A server that can serve everybody has a positive time for every kind of client |
| Server.Server.StartDisabled | src/server.c:276-294 | The oldest disabled client leaves its queue and is being served, with its start and waiting time recorded |
| Server.Server.StartNormal | src/server.c:325-342 | The same for the other queue |
| Server.Server.SetNextClient | src/server.c:273-368 | Disabled clients first on a robotic server, then the others, otherwise idle |
| Server.Server.FinalizeCurrentClient | src/server.c:431-443 | The current client joins the finished ones with its finish and total time recorded, and the server is free |
| Server.Server.Retry | src/server.c:445-456 | Both failure counts rise and the service starts over |
| Server.Server.UpdateStat | src/server.c:370-408 | The queue lengths are added up, and the mean is over the ticks executed |
| Server.Server.Update | src/system.c:116-145 | One round of the loop: finish and go on, retry, work on, or take the next client, then update the statistics |
| Server.Server.Free | src/server.c:458-491 | Exactly the clients that the server holds are released, each once |
| ServerLaws.ServeConserves | src/system.c:120-142 | After being served an idle server has nobody waiting and a busy one has work left |
| ServerLaws.LittleTick | src/server.c:370-389 | Discrete Little's law is kept by a tick: the accumulated queue length is the waiting time of all started clients plus the age of all waiting ones |
| ServerLaws.LedgerTick | src/server.c:445-456 | The ledger is kept by a tick: active time, failures and clients served are those of the finished clients and of the current one |
| ServerLaws.PacedFinalize | src/server.c:431-443 | A finish tick is the start tick plus (failures + 1) services |
| ServerLaws.PacedSetNext | src/server.c:321-349 | A start tick is the later one of the client's entry and the finish of the client before it |
| ServerLaws.PacedTick | src/system.c:112-146 | The tick loop keeps to that closed-form recursion for all clients started so far |
| ServerLaws.OrderTick | src/server.c:101-121 | First come, first served: assigned clients are those finished, current and waiting, in that order; on a robotic server for disabled and other clients separately |
| ServerLaws.StandardIsQueue | src/server.c:321-349 | On a standard server the k-th client assigned is the k-th started, at the later one of its entry and the finish of the one before, and it finishes one service more than its failures later |
| SystemLaws.ServersAreQueues | src/system.c:263-267 | The same, starts and finishes, for every standard server in every run |
| ServerLaws.PriorityTick | src/server.c:276-295 | A robotic server starts a client without disability only if no disabled client dispatched to it by then is still waiting |
| ServerLaws.RecordsTick | src/system.c:25 | The recorded waiting and total times of all clients are their absolute start and finish ticks |
| ServerLaws.RecordedTimesAreReal | src/client.c:122-127 | The recorded times are the real ones if and only if the client was dispatched at tick 0 |
| Configurations.RecordedWaitExample | src/server.c:340 | A run in which a client arrives at tick 1, starts at once, and is recorded to have waited one tick |
| SystemLaws.RecordsInRuns | src/system.c:25 | In every run each finished client's recorded waiting and total times are too long by exactly its arrival time, so none is real if all arrive after tick 0 |
| ServerLaws.CountersTick | src/server.c:216-233 | Active and idle time add up to the number of ticks, and the mean queue length is the sum over it |
| ServerLaws.NewServerIsLawful | src/server.c:51-99 | A new server obeys every law |
| ServerLaws.TickIsLawful | src/system.c:228-240 | A tick keeps every law, whatever arrives and however the success test ends |
| SystemModel.ArgMin | src/system.c:41-52 | The index it gives is the least loaded server, the first one on ties |
| SystemModel.DeliverTo | src/system.c:38-95 | Dispatching a client changes the chosen server only |
| SystemModel.TickInSteps | src/system.c:97-154 | Ticking all servers and then serving them one after the other is the same as taking server by server through its tick |
| SystemLaws.TickByServer | src/system.c:112-154 | Every server makes its own tick, with the arrival if the dispatch chooses it, and with its own success test |
| SystemLaws.TestsAreSeparate | src/system.c:117-136 | A service that ends in a tick is over if and only if the test of that very server succeeds, otherwise it starts again |
| SystemLaws.DispatchIsLeast | src/system.c:68-92 | A disabled client goes to the robotic server with the shortest disabled queue if there is one; anybody else to the first server that none of either kind undercuts, standard before robotic |
| SystemLaws.DispatchByQueues | src/system.c:68-92 | The same by queue lengths: the fewest disabled clients waiting among the robotic servers, or the fewest clients waiting among all servers |
| SystemLaws.LeastLoadedIsUnique | src/system.c:43-66 | There is only one first least loaded server |
| SystemLaws.TickKeepsBusy | src/server.c:222-223 | If the assertion of `server_tick` holds for all servers at one tick it holds at the next one |
| SystemLaws.RunKeepsBusy | src/server.c:222-223 | It holds at every tick of every run |
| SystemLaws.RunIsLawful | src/system.c:263-267 | After any number of ticks every server obeys every law |
| SystemLaws.TickHolds | src/system.c:112-146 | A tick of a server neither loses nor invents a client |
| SystemLaws.TickConserves | src/system.c:227-240 | A tick of the system neither loses nor invents a client |
| SystemLaws.RunConserves | src/system.c:263-267 | No run loses, duplicates or confuses a client |
| SystemLaws.LaterStep | src/system.c:13-36 | Taking the client that arrives now leaves exactly those that arrive later |
| SystemLaws.NoArrivalMissed | src/system.c:13-36 | After any number of ticks exactly the clients that arrive later are pending |
| SystemLaws.OnceEach | src/client.c:31-33 | Distinct ids make each generated client one of a kind |
| SystemLaws.WholeRun | src/system.c:242-271 | From new servers: every law, every later arrival pending, and every generated client in exactly one place, with its arrival time as its entry |
| SystemLaws.HorizonReached | src/system.c:242-271 | When the horizon is reached nobody is pending and the servers hold everyone |
| System.TickAll | src/system.c:97-110 | The loop ticks every server once and the assertion of each tick holds |
| System.UpdateClients | src/system.c:112-146 | The loop serves every server once, in place, and no server affects another |
| System.FindLeastLoaded | src/system.c:43-66 | The loop finds the first least loaded server and its load |
| System.AddFinished | src/system.c:181-208 | The iterator loop adds every finished client to the totals of its class and to the overall ones |
| System.System.GetClient | src/system.c:13-36 | At most the first pending client leaves, exactly when its arrival time has come, with its record zeroed |
| System.System.ChooseServer | src/system.c:41-92 | The branches make the choice that `DispatchIsLeast` is about |
| System.System.AssignClient | src/system.c:38-95 | The client joins the chosen server and no other server changes |
| System.System.ServersRun | src/system.c:148-154 | All servers tick, then the standard and then the robotic ones are served, each with its own success test |
| System.System.SystemTick | src/system.c:227-240 | One tick in place is one tick of the model |
| System.System.ComputeStats | src/system.c:164-225 | The statistics are those of all servers that `MeansAreShifted` and `ReportedQueueSize` are about |
| System.System.Simulate | src/system.c:242-271 | The loop runs exactly the given number of ticks, every assertion holds, and the statistics are those of the final state |
| Statistics.ClassesAddUp | src/system.c:184-207 | The counts, waiting times and service times of the four classes add up to the overall ones, and the count is the number of clients |
| Statistics.Truncated | src/system.c:211-224 | What a quotient truncated towards zero says about its numerator, for either sign |
| Statistics.PooledMean | src/system.c:211-224 | A pooled truncated mean lies between any bounds of the means of its non-empty parts |
| Statistics.MeanWaitBetweenClasses | src/system.c:211-224 | The overall mean waiting time lies between any bounds of those of the non-empty classes |
| Statistics.MeanServiceBetweenClasses | src/system.c:211-224 | The same for the mean service time |
| Statistics.ReportedMeansBetweenClasses | src/system.c:211-224 | Each overall mean that is reported lies between any bounds of the reported means of the classes that were served |
| Statistics.MeanQueueSize | src/system.c:220-222 | The reported queue size times ticks and servers is at most the time that all clients have waited, and less than two clients below it |
| Statistics.ReportedQueueSize | src/system.c:220-222 | The same in every simulation |
| Statistics.AllServedAreCounted | src/system.c:204-207 | The number of clients counted is the sum of the servers' counts of clients served |
| Statistics.RecordedTimesAreTooLong | src/system.c:156-162 | The totals exceed the real waiting times and stays by exactly the sum of the dispatch ticks |
| Statistics.ReportedMeans | src/system.c:211-224 | In every simulation the overall means are the truncated means over all served clients, and the means of each class those over its served clients, of the real waiting times and stays plus the dispatch ticks; 0 for nobody |
| Statistics.TallyIsRecorded | src/system.c:156-162 | The totals of a class are the numbers and the sums of the recorded times of its clients, and the overall totals those of all |
| Statistics.MeanIsUnique | src/system.c:211-224 | There is only one truncated mean |
| Statistics.FinishedAreVisited | src/system.c:174-209 | The clients counted are exactly those that some server has finished |
| Configurations.AllAreReported | src/system.c:261 | The reported number of clients counts all that were given |
| Setups.FreeBoth | src/main.c:50-51 | Freeing both servers releases exactly the clients that they hold |
| Setups.SimulateAndFree | src/main.c:79-85 | After simulating and freeing the servers every client has been released or is still pending, exactly once, and system and statistics are those of the model's run |
| Setups.Setup0 | src/main.c:22-53 | The same with two new standard servers, for any given clients |
| Setups.Setup1 | src/main.c:55-87 | The same with a new standard and a new robotic server |
| Setups.NobodyIsLeft | src/main.c:93-102 | Nobody is left pending when the horizon of the arrivals is that of the simulation |
| Setups.RunTest | src/main.c:89-105 | On any table that has a positive time for everybody: exactly the draws before the horizon are generated and counted, each is released exactly once, and the statistics are those of the model |
| Setups.RunTests | src/main.c:129-138 | The same, with what each test reports and releases, for one test after the other on one table, from the initial times, with every boost that is safe |

## Left out

The hash map:

- The hash functions SipHash, Murmur3 and xxHash; the hash is an arbitrary function of the key.
- Memory layout: items as raw bytes, alignment, the `spare` and `edata` buffers, custom allocators. An item is
  a key with a value, equal keys being what the compare callback finds equal. The two allocations of a new map
  succeed or fail together.
- A map without a compare callback, the `elfree` callback, `hashmap_probe` and `hashmap_free`.
- HashMap.HashMap.SetWithHash: is about the hash that the callback gives; `AnyHash.Set` is about all others, and
  `AnyHash.WorksLikeSet` says when that makes a difference. Machine integers do not overflow, in particular
  `nbuckets << growpower`, and tables of more than 65536 buckets are modelled with distances of any width.
- HashMap.HashMap.GetWithHash: is about the hash that the callback gives; `AnyHash.Get` is about all others.
- HashMap.HashMap.DeleteWithHash: is about the hash that the callback gives; `AnyHash.Delete` is about all others.
- HashMap.HashMap.Resize: is not called with a capacity below `cap`, which `hashmap_clear` relies on when its
  allocation fails: it would then clear more buckets than the array has.

The queue:

- Queue.Queue.constructor: a queue of capacity 0 is not made; the source would write past its array.
- Queue.Queue.Resize: a new capacity of 0, which no caller asks for.

The simulation:

- Client records are values, not shared objects: a client moves from queue to server to queue as a whole. Its
  fields are updated where the source updates them through a pointer, but that all holders of a pointer see the
  update is not modelled. That no client is in two places at once is proved with its id
  (`SystemLaws.WholeRun`).
- Server.Server.FinalizeCurrentClient: includes the call of `client_finalize` that follows it in the only
  caller, because the pushed client is a value.
- Server.Server.constructor: a standard server has a second queue that stays empty, in place of a second
  class; `server_free` does not touch it. Which of several allocations fails makes no difference in `New`.
- Server.Server.GetServiceTime: a kind that the table lacks, for which the source dereferences NULL, and a boost
  of 0.
- System.FindLeastLoaded: the initial minimum is absent instead of `INT32_MAX`, which no load exceeds.
- Clients.ClientsInit: what the largest uniform sample leaves uninitialised is an arbitrary value of the
  enumeration, not an invalid one. A gap is any integer of at least 1, a uniform sample any integer.
- System.System.Simulate: service times below 1 in runs in which no assertion of the source happens to fail.
- Setups.Setup1: the same.
- Setups.RunTest: the same.
- Setups.RunTests: a boost above 4 or not positive, for which the assertions of the source fail in some
  simulations and not in others (`Configurations.SafeBoosts`).
- The success test compares a random number with the error probability; its outcome is an arbitrary boolean.
- Allocation in the simulation succeeds. Machine integers, including the unsigned division in
  `mean_queue_size`, do not overflow; the boost is a real number.
- The lookup at the beginning of `simulate`, whose result is not used, and its checks for NULL arguments.
- Command line, logging, printing, and the averaging over many tests (`src/stat.c`, `src/main.c:140-145`).
