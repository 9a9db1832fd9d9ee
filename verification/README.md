# Verified models of the Eltex school exercises

A Dafny project beside the C exercises of this repository. It models the exercises that hold
real state - servers with threads, a shell, a chat over shared memory, a datagram service, a
taxi dispatcher, a linked list, a market and a spiral - and proves what they are meant to
keep. `dafny verify dfyconfig.toml` checks everything.

How the models are built:

- Threads and processes (`TimeServerQueue`, `TimeServerPool`, `Market`, `Chat`) are state
  machines. A `Step` is a point at which another thread may run; `Enabled` says when it can
  happen and `Apply` what it does. A `Schedule` is any sequence of steps that are enabled in
  turn, so a lemma over all schedules is a lemma over all interleavings. Histories such as
  `accepted`, `closed`, `loads` are recorded in the state and influence nothing. The critical
  sections themselves are also given as methods of classes that update fields and arrays in
  place, proved to do what the state machine does: equal to the functions that `Apply` uses
  (`RequestQueue`, `SharedMemory`), or to the outcome of the steps they consist of
  (`WorkerSlot`, `Stall`).
- Sequential code is imperative: loops over arrays and heap nodes, each method proved against
  a function of the old state, and the properties proved about those functions.
- Locks are assumed to exclude, condition variables to follow POSIX: a signal wakes one waiter
  if there is one, and a waiter may wake without a signal. A signal that wakes several waiters
  is one of the schedules with spurious wakeups.
- Memory in `Checksum`, `Datagram` and `EchoService` is that of a little-endian host. Headers
  follow section 3.1 of RFC 791 and RFC 768; the checksum laws are those of section 2 of RFC
  1071. The rule of RFC 768 that a computed zero is sent as all ones is not in the code and
  not claimed.

Findings that a reader of the code may not expect:

- The thread-pool server can drop a connection it has accepted, exactly when at the accept all
  five slots hold a descriptor whose worker has not yet taken its mutex
  (`TimeServerDrops.DroppedIffAllPending`); six connections that arrive before any worker has
  started are enough (`TimeServerDrops.SixthIsDropped`). Otherwise it is served under every
  scheduling (`TimeServerDrops.ServedUnlessAllPending`): a worker that serves holds its slot's
  mutex, so the scan waits for it instead of skipping it.
- The shell wires the children of a pipeline correctly exactly when the shell itself was started
  with a standard output (`Pipeline.ExecutePipeline`). Without one the pipe's read end falls on
  descriptor 1 in every second round, and the first, third, .. command, unless it is the last,
  closes its own standard output (`Pipeline.WiredIffKeepsStdout`). That the shell has a standard
  input may be assumed: without one its `fgets` ends it before any pipeline (lab12/task3.c:110).
- A datagram is sent whole exactly when its length fits the 16-bit field; the send buffer has
  room for one byte more, and a datagram that fills it is not sent at all
  (`Datagram.SentWholeIff`).
- `read_line` gives a line back exactly when it has at most 254 characters
  (`LineFraming.LineComesBackIff`).
- The signed sum of `calculate_checksum` is safe up to 65537 bytes, and for no larger bound
  (`Checksum.SignedSumFits`).
- The client takes its own request for a reply exactly when its random port is 8888
  (`EchoService.OwnDatagramsAreSkipped`); the port range of the client contains 8888.

## Model

| member | source | states |
|---|---|---|
| TimeServerQueue.PutAppends | lab16/task2/time_server_queue.c:107-109 | writing at `rear` appends to the queue the ring represents and keeps `rear == (front + count) % 10` |
| TimeServerQueue.DropRemovesOldest | lab16/task2/time_server_queue.c:38-40 | reading at `front` takes the oldest request and leaves the others in order |
| TimeServerQueue.RequestQueue.Enqueue | lab16/task2/time_server_queue.c:107-109 | in the array, a non-full ring gets the request at its end and nothing else changes |
| TimeServerQueue.RequestQueue.Dequeue | lab16/task2/time_server_queue.c:38-40 | in the array, a non-empty ring gives up its first request and nothing else changes |
| TimeServerQueue.NotEmptyWakeupStep | lab16/task2/time_server_queue.c:34-36 | no step loses a wakeup on queue_not_empty: while a worker sleeps, the queued requests are at most the signals still to be used |
| TimeServerQueue.NoLostWakeup | lab16/task2/time_server_queue.c:32-43 | in every run: sleeping workers face at most as many requests as there are signals, sent or just about to be, still to be used; a sleeping producer faces a full ring, or one free place for which a worker is about to signal; and producer and worker never sleep together |
| TimeServerQueue.RequestsAreServedInOrderAndOnce | lab16/task2/time_server_queue.c:95-113 | in every run the accepted requests are, in order, those dequeued, those in the ring and the one in the producer's hand; each dequeued one is closed once or in one worker's hands |
| TimeServerQueue.Progress | lab16/task2/time_server_queue.c:32-55 | no deadlock: short of complete rest some thread can move without a new connection or a spurious wakeup |
| TimeServerQueue.EveryRequestIsAnswered | lab16/task2/time_server_queue.c:32-55 | under every scheduling the threads come to rest after a bounded number of their own steps, and then every accepted request is answered and closed |
| TimeServerQueue.AnyRequestsCanBeServed | lab16/task2/time_server_queue.c:88-113 | from rest, and for any requests, there are runs that accept exactly these, in this order, and come to rest with all of them served |
| TimeServerPool.EachDescriptorGoesToOnePlace | lab16/task2/time_server_thread_pool.c:90-106 | in every run each accepted descriptor is closed once, dropped, in one slot or in the accepting thread's hand; dropped only after all five slots were seen occupied in its scan |
| TimeServerPool.HandedDescriptorIsKept | lab16/task2/time_server_thread_pool.c:38-46 | in every run no step overwrites a handed-over descriptor, and its slot is freed only by its worker, after that descriptor was answered and closed |
| TimeServerPool.OccupiedMeansNotYetStarted | lab16/task2/time_server_thread_pool.c:31-34 | in every run an occupied slot's worker never sleeps unsignalled, and a slot the scan finds occupied has a worker that has not begun to serve |
| TimeServerPool.Progress | lab16/task2/time_server_thread_pool.c:30-49 | no deadlock between the scan, which waits for busy workers, and the workers |
| TimeServerPool.EveryDescriptorIsServedOrDropped | lab16/task2/time_server_thread_pool.c:30-49 | under every scheduling the threads come to rest after a bounded number of their own steps, and then every accepted descriptor was closed or dropped, and the closed ones are the answered ones |
| TimeServerPool.HolderAloneChanges | lab16/task2/time_server_thread_pool.c:31-48 | while one side holds a slot's mutex, no step of the other changes the slot |
| TimeServerPool.WorkerSlot.Offer | lab16/task2/time_server_thread_pool.c:96-99 | in memory, the accepting thread's critical section does to the slot what its steps do to the state machine: a free slot takes the descriptor, an occupied one keeps its own and is skipped |
| TimeServerPool.WorkerSlot.Serve | lab16/task2/time_server_thread_pool.c:38-46 | in memory, the worker reads from, answers and closes the descriptors its steps in the state machine do, and leaves the slot as they leave it |
| TimeServerDrops.DroppedIffAllPending | lab16/task2/time_server_thread_pool.c:90-104 | an accepted descriptor can be dropped if and only if at its accept every slot holds a descriptor whose worker is not yet inside; else no scheduling drops it |
| TimeServerDrops.ServedUnlessAllPending | lab16/task2/time_server_thread_pool.c:90-104 | and then, wherever the threads come to rest, this descriptor too was answered and closed |
| TimeServerDrops.SixthIsDropped | lab16/task2/time_server_thread_pool.c:90-104 | the drop happens: a run from the start in which five connections fill the slots and the sixth is dropped |
| Market.EveryRunKeepsInv | lab11/task.c:50-136 | every interleaving keeps mutual exclusion, each buyer's need plus purchases, stocks at or above zero, and the conservation law |
| Market.GoodsAreConserved | lab11/task.c:69-77 | in every run shelves plus purchases equal the initial stock plus 200 for each completed load, and no shelf is below zero |
| Market.EverybodyLeavesSatisfied | lab11/task.c:93-113 | in every run a buyer that left bought exactly its need, the loader leaves only after all three, loads at most once after the third was counted, and after the joins the stock balance is exact |
| Market.NoDeadlock | lab11/task.c:163-167 | until main has joined everyone some thread can move |
| MarketSteps.HolderAloneTouches | lab11/task.c:69-77 | a shelf changes only in the hands of the thread that holds its mutex, by one unit off for a buyer and 200 on for the loader; the counter of finished buyers only under its own mutex; a buyer only by its own steps |
| MarketSteps.BuyerEntersFirstFree | lab11/task.c:50-66 | a buyer locks the first stall it finds unlocked, trying them in order; if all five are locked it starts again and nothing has changed |
| MarketSteps.LoaderRefills | lab11/task.c:107-131 | a round of the loader puts 200 on the shelf it has drawn and changes nothing else |
| MarketSteps.LoaderGoes | lab11/task.c:108-112 | a loader that finds three buyers finished goes and changes nothing |
| MarketEnding.EveryRunCanBeCompleted | lab11/task.c:50-168 | every run can be continued to one in which every buyer has left with its need, the loader has left and main has joined everyone |
| Market.BuyerShopsToTheEnd | lab11/task.c:69-82 | left alone in a stall a buyer takes, by its own steps, the smaller of its need and the stock, and changes nothing else |
| Market.Stall.Shop | lab11/task.c:69-77 | in memory, the inner loop takes the smaller of need and stock and ends as the buyer's steps in the state machine do |
| Spiral.Bijection | lab2/task4.c:12-32 | the closed form of the cells is a bijection between the N by N matrix and 1 .. N*N |
| Spiral.LayerIsAnInterval | lab2/task4.c:10-12 | layer k starts in its upper left corner with 4k(N-k)+1, and a cell is in it if and only if its number is one of the next ones, as many as the layer has cells |
| Spiral.ConsecutiveNumbersAreNeighbours | lab2/task4.c:13-31 | consecutive numbers stand in adjacent cells |
| Spiral.Fill | lab2/task4.c:9-32 | for every N the four-border loop ends, stays in bounds, writes the cells of 1 .. N*N in this order, each cell once, and leaves the closed form in every cell |
| Checksum.FoldIsRemainder | finalTask1/server.c:62-63 | the fold loop ends with the sum's remainder by 65535, taken in 1 .. 65535 unless the sum is zero |
| Checksum.ComputeChecksum | finalTask1/server.c:55-65 | the loops with a wrapping 32-bit sum give the Internet checksum for every buffer of up to 131074 bytes |
| Checksum.CalculateChecksum | lab16/task4/raw_client_ip_udp.c:21-41 | with a signed sum and a two-step fold the result is the same whenever the sum is an int, and no step overflows |
| Checksum.SignedSumFits | lab16/task4/raw_client_ip_udp.c:23-35 | every buffer of up to 65537 bytes has such a sum, and longer ones of all ones have not |
| Checksum.StoredChecksumVerifies | finalTask1/server.c:67-70 | a buffer that holds its own checksum in a field at an even offset has checksum 0, whatever else it holds |
| Checksum.ChecksumOfPermutation | finalTask1/server.c:57-60 | the order of the 16-bit words does not matter |
| Checksum.ChecksumInParts | finalTask1/server.c:57-63 | a buffer cut at an even offset can be summed in parts and combined; a zero byte after an odd one changes nothing |
| Checksum.ChecksumOfSwappedBytes | finalTask1/server.c:55-65 | swapping the bytes of every word swaps those of the checksum, so host order is enough |
| Checksum.HostOrderIsEnough | finalTask1/server.c:55-65 | what is computed in host order and stored as it is, is the checksum RFC 1071 defines over the words in network order, most significant byte first |
| Datagram.IpCheckVerifies | finalTask1/server.c:67-70 | a header with its computed check field has checksum 0, for every header length |
| Datagram.UdpCheckVerifies | finalTask1/server.c:82-97 | pseudo-header, UDP header with its computed check field and data of odd or even length have checksum 0 |
| Datagram.WireFormat | finalTask1/client.c:164-187 | a built datagram has every field of RFC 791 and RFC 768 at its place, and a receiver that forms the pseudo-header from what it has received finds both checksums right |
| Datagram.ComputeIpChecksum | finalTask1/server.c:67-70 | in memory, only the check field changes and the header then verifies |
| Datagram.ComputeUdpChecksum | finalTask1/server.c:72-99 | in memory, only the check field changes and pseudo-header plus datagram then verify, for data beyond anything the programs pass |
| Datagram.BuildPacket | finalTask1/client.c:164-196 | for all data that fit the send buffer: it holds the checked IP header, the checked UDP header and the data, and sendto gets as much of it as the total length field says |
| Datagram.SentWholeIff | finalTask1/client.c:166-196 | the whole datagram is sent if and only if its length fits the total length field; filling the buffer to the last byte sends nothing |
| ClientTable.TableRefinesMap | finalTask1/server.c:156-173 | one datagram does to the table what it does to a map bounded by 100 keys; keys stay unique; a SHUTDOWN of an unknown client changes nothing |
| ClientTable.MapFollowsHistory | finalTask1/server.c:156-173 | the bounded map's counters are the accepted non-SHUTDOWN packets of each key since its last accepted SHUTDOWN |
| ClientTable.FirstMatch | finalTask1/server.c:28-37 | removing or counting a key touches its first entry only and keeps the order of the others |
| ClientTable.Clients.FindClient | finalTask1/server.c:39-44 | the first entry of the key, or none exactly if there is none |
| ClientTable.Clients.AddClient | finalTask1/server.c:46-53 | a new last entry with counter 0, or nothing when 100 entries are in use |
| ClientTable.Clients.RemoveClient | finalTask1/server.c:28-37 | the array without the key's first entry, the others in order |
| ClientTable.Clients.Handle | finalTask1/server.c:156-173 | one datagram's effect on the array and its verdict: dropped, removed or counted |
| ClientTable.Clients.Serve | finalTask1/server.c:131-173 | over any sequence of datagrams every verdict and counter is the one the history determines |
| EchoService.ParsePacket | finalTask1/server.c:139-154 | parsing a datagram gives back exactly the addresses, ports and data it was built from, and its total length field is its length, so that all of it is sent |
| EchoService.ParseMeans | finalTask1/server.c:139-154 | any received bytes are taken exactly if they are UDP, the headers are there and the UDP length covers the UDP header; and then with the fields at their places |
| EchoService.FiltersAreExact | finalTask1/server.c:146-146 | of all datagrams the server takes those for its port, the client those from the server's port to its own, and no others |
| EchoService.TextIsAscii | finalTask1/server.c:176-177 | a reply is the data, a space and the counter in ASCII digits |
| EchoService.ResponseIsCut | finalTask1/server.c:175-178 | a response too long for its buffer is cut at 65535 characters, and no other is |
| EchoService.KeyIsClient | finalTask1/server.c:153-156 | two senders share a table entry exactly if address and port are the same |
| EchoService.LeftoversDoNotMatter | finalTask1/server.c:132-151 | a datagram that carries the data its UDP header announces is parsed alike whatever the receive buffer held before |
| EchoService.RoundTrip | finalTask1/client.c:210-225 | the server parses exactly the client's NUL-free payload; the reply goes from the server's address and port to the client's port and passes the client's filter as payload, space and decimal counter |
| EchoService.OwnDatagramsAreSkipped | finalTask1/client.c:217-218 | neither side takes its own datagram for the other's, if and only if the client's port is not the server's |
| EchoService.ReplyDeterminesPayloadAndCounter | finalTask1/server.c:176-177 | payload and counter can be read back from a reply |
| EchoService.ShutdownRemovesClient | finalTask1/client.c:68-105 | the SHUTDOWN datagram removes exactly this client's counter, and no other payload removes it |
| EchoService.Server.Receive | finalTask1/server.c:132-217 | one iteration of the server on its receive buffer: what it skips, what happens to the table, and the exact bytes it sends |
| EchoService.Exchange | finalTask1/client.c:164-226 | request, server and filter together: the client prints its payload and the number of its requests counted so far, whatever the receive buffers held before |
| Chat.EveryRunKeepsInv | lab14/chat_client.c:247-257 | every interleaving keeps the invariant, and over any run the log is only extended |
| Chat.LogIsWhatWasSaid | lab14/chat_client.c:247-256 | in every run the log is, in order, the first 99 of all join announcements, messages sent and leave announcements |
| Chat.OneSpeaks | lab14/chat_client.c:247-256 | whatever a client in the chat sends, it can send, and it stands in the log under its name and id |
| Chat.JoinIff | lab14/chat_client.c:325-385 | a client is let in if and only if nobody in the chat has its name and fewer than twenty are in it; else nothing changes |
| Chat.EveryoneReadsTheSameLog | lab14/chat_client.c:186-201 | in every run the head stays 0, the tail is the count and at most 99, and what clients have shown are prefixes of one log, so any two agree on the order |
| Chat.ReaderNeverSpins | lab14/chat_client.c:191-201 | in every run a pass of the inner loop advances the cursor, or the reader has shown everything its snapshot counted |
| Chat.PollShowsTheLog | lab14/chat_client.c:180-203 | whatever the others do meanwhile, a reader that looks at the log has shown all that was in it by the time it looks again |
| Chat.DispatchesAreCounted | lab14/chat_server.c:88-92 | over any run the dispatcher comes through its wait once for each post it takes, and never more often than there are messages |
| Chat.BookkeepingIsRight | lab14/chat_client.c:325-385 | in every run the posts to msg_count are the messages, client_count is the number of active slots and of processes in the chat, names and ids of active slots are unique and below next_id |
| Chat.LeaveKeepsSlots | lab14/chat_client.c:131-152 | leaving turns the leaver's own slot inactive and changes no other; everybody else still owns theirs |
| Chat.SharedMemory.constructor | lab14/chat_server.c:130-138 | the initial shared state |
| Chat.SharedMemory.AppendMessage | lab14/chat_client.c:247-256 | a message goes to the tail with one post, or a full log drops it |
| Chat.SharedMemory.RegisterClient | lab14/chat_client.c:325-385 | registration takes the first free slot and the next id, refuses a taken name or a full table, and announces itself |
| Chat.SharedMemory.LeaveChat | lab14/chat_client.c:132-153 | leaving frees the first active slot of the id and announces itself |
| Chat.SharedMemory.CatchUp | lab14/chat_client.c:186-201 | an undisturbed inner loop ends and shows every message between cursor and snapshot, in order |
| LineFraming.Pipe.ReadLine | finalTask2/taxi.c:61-76 | the loop over single reads, with interruptions, end and errors, stores the line or gives -1 |
| LineFraming.FramingRoundTrip | finalTask2/taxi.c:61-76 | any list of newline-free lines of 1 to 254 characters is read back exactly, however often reads are interrupted |
| LineFraming.LineComesBackIff | finalTask2/taxi.c:64-75 | a newline-terminated line is read back whole if and only if it has at most 254 characters |
| LineFraming.LineCutShort | finalTask2/taxi.c:64-75 | a line cut short by the end of the pipe is returned as it is, one cut short by a failure gives -1 |
| Decimal.ScanShow | finalTask2/taxi.c:184-184 | reading with %d what was printed with %d gives the number back |
| TaxiDriver.TasksAndRemainders | finalTask2/taxi.c:150-209 | for every non-decreasing clock: expiry lines are the OK lines minus one if busy, each OK comes at or after the previous task's end, remainders are those of the task accepted last and never grow within a busy period, "Available" never comes before that task's end, and no "Busy" follows its expiry until the next OK |
| TaxiDriver.EventIsAnswered | finalTask2/taxi.c:151-205 | in every run, what an event makes the driver write is determined by the lines before it: the last task's end is announced with the first event whose check has reached it, and only then; a task or status is answered Busy exactly while that end is not reached |
| TaxiDriver.TaskExpires | finalTask2/taxi.c:151-154 | every accepted task expires: from the first event at or after its end there is an Available behind its OK, and the next task is accepted, a status answered Available |
| TaxiDriver.AnswersInWords | finalTask2/taxi.c:178-205 | the exact line written in answer to any line |
| TaxiDriver.OneAnswerPerCommand | finalTask2/taxi.c:178-208 | every command is answered by exactly one line of its kind, in order; all other lines are expiry lines |
| TaxiDriver.RemaindersAreInts | finalTask2/taxi.c:178-198 | with timers that are ints, every remainder printed from a long is from zero up and fits an int |
| TaxiDriver.TaskArrives | finalTask2/taxi.c:282-282 | a printed task command with any int fits the buffer and is read as that task |
| TaxiDriver.StatusArrives | finalTask2/taxi.c:306-306 | so is a status request |
| TaxiDriver.Driver.Iterate | finalTask2/taxi.c:151-208 | one iteration of the loop changes state and output as the state machine does, and writes the lines' exact text |
| TaxiDriver.Driver.Loop | finalTask2/taxi.c:145-209 | so does the whole loop |
| TaxiDispatcher.Dispatcher.FindDriver | finalTask2/taxi.c:26-32 | the first driver with that pid, or -1 exactly if there is none |
| TaxiDispatcher.Dispatcher.AddDriver | finalTask2/taxi.c:44-59 | the table grows 4, 8, 16, .. and keeps its drivers, the new one last and idle; it stays one that can be searched and swept |
| TaxiDispatcher.Dispatcher.CreateDriver | finalTask2/taxi.c:247-267 | so it does for the pipe of a new driver |
| TaxiDispatcher.Dispatcher.RemoveDriver | finalTask2/taxi.c:34-42 | the driver goes, the others keep their order, its two descriptors are closed; a wrong index changes nothing |
| TaxiDispatcher.Dispatcher.Sweep | finalTask2/taxi.c:341-365 | the sweep that removes while iterating ends, deals with each driver once and in order, takes one line off the pipe of each that is ready and none off the others, removes exactly those ready that hang up, keeps the others' order and closes each removed driver's descriptors once |
| TaxiDispatcher.DrainedMeans | finalTask2/taxi.c:344-344 | after a sweep a ready driver's pipe holds what followed its first line, every other pipe what it held |
| TaxiDispatcher.Dispatcher.SweepAgain | finalTask2/taxi.c:341-365 | over any number of sweeps a driver's lines are read one after the other, one in each sweep that finds it ready, and the rest stays in the pipe |
| TaxiDispatcher.Dispatcher.WaitPass | finalTask2/taxi.c:99-139 | the sweep inside the wait for an answer stops at the first line of that driver; it has taken one line of each ready driver up to there and leaves the drivers behind it, and their lines, alone |
| TaxiDispatcher.SurvivorsMeans | finalTask2/taxi.c:341-365 | exactly the drivers that did not hang up survive, and two descriptors are closed for each of the others |
| TaxiDispatcher.RemovedIff | finalTask2/taxi.c:345-354 | a driver goes exactly if it was found ready and has nothing more to say |
| TaxiDispatcher.SurvivorsInOrder | finalTask2/taxi.c:34-42 | the survivors stand in their old order |
| TaxiDispatcher.DriverIsUnderstood | finalTask2/taxi.c:343-363 | everything a driver writes over a run with int timers is read back line by line, and each line means to the dispatcher what the driver meant: a remainder that fits its int, idle, or nothing |
| Phonebook.Book.AddAbonent | lab6/task.c:38-50 | the list represents the old records and the new one; links, tail and count agree |
| Phonebook.Book.DeleteAbonent | lab6/task.c:56-100 | exactly the record with the given number goes, its node is the one freed; a wrong number changes nothing |
| Phonebook.Book.SearchByName | lab6/task.c:105-124 | the numbers found are those of the records with that name |
| Phonebook.MatchesMeans | lab6/task.c:114-124 | these are all such numbers, in increasing order |
| Phonebook.Book.Listing | lab6/task.c:139-148 | `next` from `head` reads the records forwards |
| Phonebook.Book.ReadsBackwards | lab6/task.c:45-47 | `prev` from `tail` reads the records backwards |
| Phonebook.Book.FreeAll | lab6/task.c:153-162 | every node is freed exactly once, in order, and after that neither read nor freed; the list is empty |
| Phonebook.Book.Menu | lab6/task.c:169-199 | over any sequence of choices the heap represents the records those choices leave |
| Phonebook.ChoiceMeans | lab6/task.c:169-199 | record by record: an added one comes last, a deleted one goes and those behind it move up; a wrong number, a search and a listing change nothing |
| Phonebook.SessionInParts | lab6/task.c:169-199 | a session does what its choices do one after the other |
| Phonebook.QuitEnds | lab6/task.c:169-199 | and with the first choice to quit it ends for good, with nothing left |
| Pipeline.ExecutePipeline | lab12/task3.c:42-90 | at execvp every child i has the shell's table with stdin from pipe i-1 and stdout to pipe i and no other pipe end, if and only if the shell has a standard output; the shell's table is restored in any case; failures of pipe and fork stop it where they occur |
| Pipeline.WiredIffKeepsStdout | lab12/task3.c:66-88 | without a standard output exactly the last child and every second one are wired as they should be, the others are but for a missing descriptor 1 |
| Pipeline.OneWriterOneReader | lab12/task3.c:66-88 | each pipe end is held by exactly one process, on the right descriptor; or a write end by none, if its command lost it |
| Pipeline.OthersAreInherited | lab12/task3.c:66-78 | every other descriptor of a child is the shell's, as are the first command's input and the last one's output |
| Pipeline.PipelineComposes | lab12/task3.c:47-90 | a finished pipeline computes the composition of its commands from the shell's input to its output |
| Tokenizer.Lexer.Strtok | lab12/task3.c:14-22 | strtok ends the next token in place, leaves everything outside it unchanged and remembers where to go on |
| Tokenizer.TrimInPlace | lab12/task3.c:16-19 | the trimming loops leave the trimmed string, and touch nothing outside the token |
| Tokenizer.ParsePipeline | lab12/task3.c:10-26 | the returned positions hold the trimmed fields between bars, at most 64 of them |
| Tokenizer.ParseCommand | lab12/task3.c:28-40 | the returned positions hold the words of the command, at most 63 of them |
| Tokenizer.WordsOfTrimmed | lab12/task3.c:16-19 | trimming a field does not change the words in it |
| Tokenizer.ParseUndoesWriting | lab12/task3.c:10-40 | the two-level parse gives back exactly the words of every pipeline of up to 64 commands of up to 63 words, however many spaces and tabs stand around and between them |

## Left out

- System calls (sockets, pipes, fork, exec, mmap, ncurses, ctime) appear only by their effect: byte streams, descriptor tables, atomic lock, wait and signal steps, clock readings as inputs.
- TimeServerQueue and TimeServerPool: what is read from and written to a connection; a served request is one step (queue) or the steps read, write, close, clear (pool). `server_mutex` has one user and is not modelled.
- TimeServerQueue.EveryRequestIsAnswered: bounds the threads' own steps; spurious wakeups are excluded there, since any number of them may occur, and allowed everywhere else.
- Market: that a fair scheduler ends the market (buyers that find the stalls empty try again for as long as the loader is not scheduled), the sleeps and the log lines; the initial stocks and needs are arbitrary numbers from zero up instead of the program's ranges.
- Spiral.Fill: numbers are unbounded integers; every number formed is at most N*N + 1, so a 32-bit int is enough for N up to 46340. A negative N, for which the C array has no meaning, and the printing are not modelled.
- Datagram.BuildPacket: for data that fit the send buffer; a longer input line in the client is not modelled.
- EchoService.Server.Receive: assumes that the lengths in a datagram do not lead out of the 65536-byte receive buffer; a reply that does not fit the send buffer is answered `Overlong`. Counters do not wrap at 32 bits.
- EchoService: the client's `exit` line, its guard against a second SHUTDOWN, and what the kernel rewrites in headers.
- Chat: `user_list`, time stamps, the drawing of messages, the server's shutdown (which writes without the mutex), and a second `cleanup` of the same client.
- TaxiDispatcher: parsing of the operator's commands, `get_drivers`, and any claim that the dispatcher's `busy` mirrors the driver's - an unsolicited Available line can be taken for an answer.
- TaxiDriver: the timeout passed to select, which influences only when an iteration happens; numbers are unbounded integers.
- Pipeline: the wait loop, the fate of a child whose execvp fails, and the direct path for a single command, whose table is the shell's own.
- Tokenizer: the reading of the line, its newline, and the `exit` and `quit` commands.
- Phonebook: the cutting of input words to nine characters, and running out of memory.
- The fixed-slot phonebooks, the calculators, the directory browser, bit printing, the message-queue chat and the remaining demos hold no state that would add a hard property.
