# Verified model of the connection pool, its workers, and the configuration reader

The project models three pieces of the servers and proves properties of them.

* **The SQL connection pool** (`common/database/SQLPool.cpp`): two intrusive doubly linked lists, one of
  connections in use and one of free connections, with three hand-kept counters. `PoolModel` gives the
  pool as a value, `SqlPool` is the class on the heap, proved against it operation by operation, and
  `PoolRuns` follows the pool through every sequence of `GetPool` and `ReleasePool` calls.
* **The workers over that pool** (`WorkerThread`, `QueueRequest`, `GetData`, `NotifyAllAndClose`):
  `ThreadPool` is the shared request set, `WorkerProtocol` the transition system in which any number of
  workers and clients interleave. `Ownership`, `Requests`, `NullRequests`, `Locking`, `Throwing` and
  `Exit` prove what holds in every reachable state of every run, and what can still follow from it.
* **The configuration reader** (`common/ServerConfig.cpp`): `ConfigSpec` says what a script means,
  `ServerConfig` is the reader with its two line buffers and the three adjacent wide-character arrays of
  `WideArrays`, proved to compute exactly that meaning, and `ConfigProperties` and `ConfigRoundTrip`
  prove what the meaning is good for. `ConfigLines` says what each kind of line does with its key, its
  base and its field spelt out, `ShippedScript` what a whole script of the shipped form gives, and
  `ConfigWitnesses` has lines and files at which the reader falls short.

## Conventions

* `SIZE_T` is the 32-bit type of a Win32 build, and wraps. `long` is 32 bits, as on Windows. A number
  too large for `strtol` is read as the largest `long` (section 7.22.1.4 of ISO/IEC 9899:2011); `atoi`,
  for which the standard leaves this case undefined (section 7.22.1), is taken to do the same.
* The answers of the ODBC layer (`ConnectionDead`, `AllocDbc`, `Connect`, `AllocStmt`) are parameters.
  `GlobalAlloc` and `new` are taken to succeed: `FreeSQLConnection` dereferences what it is given.
* Giving a node back leaves its links with arbitrary contents. That the operations still have the
  stated results shows that none depends on a freed node.
* `GetData`, `QueueRequest`, `GetPool` and `ReleasePool` are one step each, since each holds its lock
  for its whole body. `_data_set` is a set of pointers (`boost::unordered_set`,
  `common/database/ThreadPool.h:28`), and `begin()` designates an arbitrary element of it. Testing the
  exit flag, entering the wait and returning from it are three further steps; a worker may be woken at
  any time.
* `_condition.wait(_mutex)` releases `_mutex` when it is entered and locks it again before it returns, as
  Boost documents `condition_variable_any::wait`. `_mutex` is a `boost::shared_mutex`, which is not recursive,
  and nothing in `WorkerThread` unlocks it behind the wait. So from the return of a wait on, `GetData`,
  `QueueRequest` and the return of any other wait are held up until some worker enters the wait again.
  Entering it while the mutex is free leaves it free.
* A connection handed out by the allocator is only required not to be in either list, so addresses may
  be used again once they have been given back.
* `_database_name`, `_database_account_name` and `_database_account_pwd` are arrays of 50, 50 and 20 wide
  characters, one behind the other. `CharConvertToWchar` (`common/PublicFunc.cpp`, lines 22 to 27) clears
  the array it is given and converts the whole text and its NUL, limited by the length of the text and
  not by that of the array. Kept characters are ASCII, so each becomes one wide character.
* A file that cannot be opened is `None`; its contents are the characters the text stream delivers.

## What the code does not do

Seven expectations one might have of the code are false of it. Each is kept as the code has it, with an
input at which it fails and with the exact condition under which it holds.

* *The working set counts the connections.* A failed `AllocSQLConnection` frees a node that was never
  counted, so the counter falls behind by one for each failure. One failure on a new pool leaves
  no connection and a working set of 2^32 - 1 (`PoolRuns.FailureLeavesDeficit`). The counter is exact if
  and only if the number of failures is a multiple of 2^32 (`PoolRuns.QuotasExact`), and `Shutdown` leaves
  it at zero under the same condition (`PoolRuns.ShutdownGivesAllBack`).
* *A worker that is woken goes on.* It calls `GetData` only while another worker is in the wait
  (`Locking.FetchNeedsAnother`), so a single worker never does (`Locking.OneNeverFetches`). If all workers come
  to wait and one is woken, no worker and no `QueueRequest` ever goes on (`Locking.StuckReachable`,
  `Locking.StuckStays`). No one can go on if and only if the mutex is locked and every unfinished worker
  needs it (`Locking.StuckExactly`); a call of `GetData` can still follow if and only if a woken worker finds the
  mutex free, or some worker can come to free it for another (`Throwing.FetchAheadExactly`).
* *`NotifyAllAndClose` ends the workers.* Once it has set the flag, all workers can finish if and only if
  none of them has found the flag clear before (`Exit.AllFinishAheadExactly`): from then on there is always one
  at the wait (`Locking.SomeStaysAtWait`). A worker can finish if and only if enough others are still to enter
  the wait (`Exit.FinishAheadExactly`); one that waits, with none to enter, never does. One worker that tests
  the flag just before it is set is enough to keep the workers from all finishing (`Exit.ExitTooLate`).
* *The exception in `GetData` cannot be reached.* With two workers or more, and only then, a run with one
  failed allocation and no NULL from clients reaches it (`Throwing.ThrowsExactly`). When clients submit no
  NULL, NULL is loose or has made `GetData` throw if and only if a worker whose `GetData` saw the set empty was
  then turned away by `GetPool` (`NullRequests.NullAtLargeExactly`). From any state of any run the exception can
  still follow, without a further failure, if and only if it has come already, or NULL is loose and a
  call of `GetData` can still follow (`Throwing.ThrowAheadExactly`).
* *A configuration written out is read back.* A port of 2^31 is read as 0x7FFFFFFF
  (`ConfigWitnesses.PortNotReadBack`). A configuration is read back if and only if its numbers are at most
  0x7FFFFFFF, its texts consist of kept characters and hold no key asked for earlier, and its lines fit
  the buffer (`ConfigRoundTrip.RoundTripExact`).
* *Every line of a script is applied.* A line of 4096 characters or more ends the reading, silently and
  with `SUCCESS`: a line that sets the port, padded with comment, is lost with all that follows
  (`ConfigWitnesses.PaddedLineIsLost`). All lines are seen if and only if all of them fit the buffer
  (`ConfigProperties.EveryLineSeen`).
* *A line changes no field but its own.* A file with a database name of 50 characters empties the account name
  (`ConfigWitnesses.FiftyCharacters`), and a longer one can leave an account name that no line for the
  account can give (`ConfigWitnesses.AccountFromNowhere`). The array behind is left alone if and only if the
  text fits with its NUL (`WideArrays.NextArrayKept`), and reading a script stays inside the arrays if and
  only if no line that is seen and dispatched to one of the three brings a text that does not fit
  (`ConfigSpec.StaysInside`, `ServerConfig.ServerConfig.ReadConfigScript`). The contents
  of the three arrays are stated for every script; what else is said about the effect of scripts is said
  of those that stay inside.

## Model

| member | source | states |
|---|---|---|
| SqlPool.AttachPool | common/database/SQLPool.cpp:178-188 | puts a node in front of a well-formed list, provided its links are NULL when the list is empty, and leaves any list without common nodes well-formed |
| SqlPool.DetachPool | common/database/SQLPool.cpp:191-217 | takes the node at any position out of a well-formed list: what remains, in order, is a well-formed list, the node has NULL links again, and any list without common nodes stays one |
| SqlPool.Unlink | common/database/SQLPool.cpp:191-217 | the four ways of relinking the neighbours all give the list without the node at that position |
| SqlPool.SqlPool.constructor | common/database/SQLPool.cpp:15-35 | a new pool is the empty pool, at the start of its run |
| SqlPool.SqlPool.GetProcessMemoryInfo | common/database/SQLPool.cpp:48-54 | reports the true lengths of both lists in every state reached by pool calls, and the true total exactly when the failures leave no deficit |
| SqlPool.SqlPool.FreeSQLConnection | common/database/SQLPool.cpp:162-175 | gives a node back once, lowers the working set, clears the caller's pointer, and disturbs neither list whatever becomes of the node's memory |
| SqlPool.SqlPool.AllocSQLConnection | common/database/SQLPool.cpp:125-159 | returns a new unlinked node if and only if AllocDbc, Connect and AllocStmt all succeed, and otherwise NULL after giving the node back |
| SqlPool.SqlPool.GetPool | common/database/SQLPool.cpp:221-249 | the linked lists and counters go exactly where the abstract GetPool takes the pool, both lists stay well-formed, disjoint and free of freed nodes, and the run stays a legal one; NULL is returned if and only if no connection is free or the one on top is dead, and one of the three ODBC calls fails |
| SqlPool.SqlPool.ReleasePool | common/database/SQLPool.cpp:252-268 | the same for ReleasePool of any connection in use, wherever it stands in its list |
| SqlPool.SqlPool.FreeUsedList | common/database/SQLPool.cpp:97-102 | the first loop of Shutdown empties the used list, walking it forwards only |
| SqlPool.SqlPool.FreeFreeList | common/database/SQLPool.cpp:103-108 | the second loop empties the free list |
| SqlPool.SqlPool.Shutdown | common/database/SQLPool.cpp:92-108 | ends with both heads NULL, every listed node given back exactly once, used ones first, the working set lowered by their number, and the quotas as they were |
| SqlPool.DrainStep | common/database/SQLPool.cpp:97-108 | giving back one head at a time leads to the same pool as giving back everything at once |
| PoolModel.AcquireHandsOut | common/database/SQLPool.cpp:221-249 | GetPool returns NULL exactly when no live connection is on top of the free stack and none can be made; what it returns heads the used list |
| PoolModel.AcquireConserves | common/database/SQLPool.cpp:221-249 | every node ever allocated stays used, free or given back, once per allocation |
| PoolModel.AcquireCounts | common/database/SQLPool.cpp:221-249 | GetPool keeps both quotas equal to the list lengths and the working set short of the total by the number of failures |
| PoolModel.AllocateCounts | common/database/SQLPool.cpp:125-159 | a failed allocation leaves the working set one lower than the connections it counts |
| PoolModel.ReleaseCounts | common/database/SQLPool.cpp:252-268 | ReleasePool keeps the same accounting, also when it destroys the connection |
| PoolModel.AcquireKeepsSound | common/database/SQLPool.cpp:221-249 | GetPool keeps the lists disjoint and without repetition, the accounting and the conservation of nodes |
| PoolModel.ReleaseKeepsSound | common/database/SQLPool.cpp:252-268 | ReleasePool keeps them too |
| PoolModel.ReleaseMoves | common/database/SQLPool.cpp:252-268 | ReleasePool takes exactly one connection out of use, from any position, and puts it on top of the free stack or gives it back |
| PoolRuns.RunKeepsSound | common/database/SQLPool.cpp:221-268 | after any sequence of GetPool and ReleasePool calls with any failures the pool is sound |
| PoolRuns.PoolWithinPeak | common/database/SQLPool.cpp:221-268 | the pool never holds more connections than were once in use at the same time |
| PoolRuns.QuotasExact | common/database/SQLPool.cpp:48-54 | in every run the quotas are the list lengths, and the working set is the total if and only if the failures leave no deficit |
| PoolRuns.FailureLeavesDeficit | common/database/SQLPool.cpp:125-175 | one failed allocation on a new pool leaves no connection and a working set of 2^32 - 1 |
| PoolRuns.DecrementsDoNotWrap | common/database/SQLPool.cpp:228-257 | no decrement of a quota ever wraps |
| PoolRuns.ShutdownGivesAllBack | common/database/SQLPool.cpp:92-108 | after Shutdown exactly the nodes ever allocated have been given back; the working set is zero if and only if the failures leave no deficit; a second Shutdown, as the destructor makes, changes nothing |
| PoolRuns.ReleaseThenAcquire | common/database/SQLPool.cpp:221-268 | GetPool right after ReleasePool returns the released connection, if live, and undoes the release |
| PoolRuns.ReleaseThenAcquireDead | common/database/SQLPool.cpp:221-268 | if it is dead it is given back and a new one is tried, while the other free connections are left alone even when that fails |
| PoolRuns.ReleasedInReverse | common/database/SQLPool.cpp:221-268 | connections released one after another stand on the free list last one first, above those already there |
| ThreadPool.ThreadPool.constructor | common/database/ThreadPool.cpp:9-15 | nothing queued, no threads, not exiting |
| ThreadPool.ThreadPool.QueueRequest | common/database/ThreadPool.cpp:33-40 | adds the pointer to the set, to no effect if it is there already |
| ThreadPool.ThreadPool.GetData | common/database/ThreadPool.cpp:42-60 | takes an arbitrary element out, gives NULL exactly for the empty set, and throws only after a NULL element has left the set |
| ThreadPool.ThreadPool.NotifyAllAndClose | common/database/SQLPool.cpp:300-304 | sets the exit flag |
| ThreadPool.ThreadPool.Initialize | common/database/ThreadPool.cpp:68-83 | creates the threads asked for and succeeds if and only if the group then has that many |
| Ownership.RunKeepsOwned | common/database/SQLPool.cpp:271-298 | in every reachable state the used list holds each connection exactly as often as workers hold it |
| Ownership.ExclusiveOwnership | common/database/SQLPool.cpp:221-298 | in every reachable state the used list is exactly what the workers hold, no two hold the same connection, and none of it is free |
| Ownership.ReleaseAlwaysEnabled | common/database/SQLPool.cpp:252-295 | a worker that releases its connection always finds it in the used list, which ReleasePool takes for granted |
| Ownership.CallsReachPool | common/database/SQLPool.cpp:271-298 | every interleaving of the workers is, for the pool, a legal sequence of GetPool and ReleasePool calls |
| Ownership.PoolBoundedByWorkers | common/database/SQLPool.cpp:221-298 | in every reachable state used and free connections together are at most those once held at the same time, hence at most the number of workers |
| Ownership.GivenBackExactly | common/database/SQLPool.cpp:221-295 | in every run of the workers exactly the connections found dead and the blocks for which no connection could be made are given back, and nothing else |
| Ownership.PoolKeepsConnections | common/database/SQLPool.cpp:221-295 | the pool falls short of the most connections ever in use at once by at most the number found dead |
| Ownership.PoolIsPeak | common/database/SQLPool.cpp:221-295 | if none is found dead, the pool has exactly as many connections as were ever in use at once |
| Ownership.QuotasExactForAllRuns | common/database/SQLPool.cpp:48-54 | with any number of threads an `int` can ask for, the counters report exactly in every reachable state |
| Requests.RequestConservation | common/database/SQLPool.cpp:279-295 | in every reachable state, with any clients, each submission of a request is queued, in one worker's hands, completed, or was absorbed by its own pointer already in the set |
| Requests.NoRequestLostOrShared | common/database/SQLPool.cpp:279-295 | a request that no client resubmits while it is queued or held, whatever is done with others, is completed or in exactly one place, and no two workers hold it |
| NullRequests.NullInHandsIsFromEmptySet | common/database/ThreadPool.cpp:46-48 | a worker that holds NULL got it from its last GetData, which saw the set empty |
| NullRequests.NullAtLargeExactly | common/database/SQLPool.cpp:279-292 | when clients submit no NULL, NULL is in the set, on its way there, or has made GetData throw, if and only if such a worker was turned away by GetPool |
| NullRequests.ThrowUnreachable | common/database/ThreadPool.cpp:53-57 | if moreover allocation never fails, GetData never throws |
| NullRequests.ThrowTakesNull | common/database/ThreadPool.cpp:50-57 | a step in which GetData throws takes NULL out of the set and nothing else |
| Locking.RunKeepsLockTraced | common/database/SQLPool.cpp:275-298 | in every reachable state a locked mutex was left by a worker that has not got into GetData since, and a free one is free because a worker is in the wait or none has ever been there |
| Locking.LockedHolds | common/database/ThreadPool.cpp:33-46 | while the mutex is locked no request is queued or fetched and no waiting or woken worker moves, and only a worker entering the wait unlocks it |
| Locking.FetchNeedsAnother | common/database/SQLPool.cpp:277-279 | a worker gets into GetData only while another one is in the wait |
| Locking.OneNeverFetches | common/database/SQLPool.cpp:277-279 | so a pool of one worker never calls GetData |
| Locking.CanStepExactly | common/database/SQLPool.cpp:271-298 | a worker can take a step if and only if it has not finished, and does not need the mutex while it is locked |
| Locking.SomeStaysAtWait | common/database/SQLPool.cpp:275-279 | once a worker has found the exit flag clear, some worker is always about to wait, waiting, or held up behind the wait |
| Locking.StuckExactly | common/database/ThreadPool.cpp:33-46 | no worker and no client can go on if and only if the mutex is locked and every unfinished worker needs it |
| Locking.StuckStays | common/database/SQLPool.cpp:271-304 | nothing that may follow changes anything then but the exit flag |
| Locking.StuckReachable | common/database/SQLPool.cpp:275-279 | for any positive number of workers: all come to wait, one is woken, and no one goes on |
| Throwing.FetchAheadExactly | common/database/SQLPool.cpp:275-298 | from any state of any run a call of GetData can still follow, with no failure, if and only if a woken worker finds the mutex free or some worker can come to free it for another that can still fetch |
| Throwing.ThrowAheadExactly | common/database/ThreadPool.cpp:42-60 | the throw can still follow, with no further failure and no NULL from clients, if and only if it has come, or NULL is loose and a call of GetData can still follow |
| Throwing.NullAtLargeMeansThrow | common/database/ThreadPool.cpp:42-60 | where a call of GetData can still follow, by the condition above, the throw can if and only if an idle worker was once turned away |
| Throwing.ThrowsExactly | common/database/ThreadPool.cpp:53-57 | without NULL from clients some run of n workers throws if and only if n is at least two |
| Exit.StepDecreases | common/database/SQLPool.cpp:275-304 | once the exit flag is set every worker step lowers the measure, and client steps do not raise it |
| Exit.BoundedAfterExit | common/database/SQLPool.cpp:275-304 | after the exit flag is set all workers together take at most six steps each, whatever the clients do |
| Exit.OneMoreFetch | common/database/SQLPool.cpp:275-304 | after the exit flag is set a worker calls GetData at most once more, and not at all unless it had passed the test of the flag and not yet called GetData |
| Exit.FinishAheadExactly | common/database/SQLPool.cpp:275-304 | after the exit flag is set a worker can still finish if and only if enough workers that passed the test before are still to enter the wait: none, one or two, according to where it stands and whether the mutex is locked |
| Exit.AllFinishAheadExactly | common/database/SQLPool.cpp:275-304 | after the exit flag is set all workers can finish if and only if none of them passed the test before |
| Exit.ExitTooLate | common/database/SQLPool.cpp:275-304 | for any positive number of workers: one tests the flag, then it is set, and not all can finish any more |
| Exit.ShutdownWhenNoneHeld | common/database/SQLPool.cpp:92-108 | whenever no worker holds a connection, finished or not, nothing is in use, and Shutdown gives back every connection made in the whole run |
| Text.Filter | common/ServerConfig.cpp:151-166 | yields kept characters only, and no more of them than the line has |
| Text.FilterFixes | common/ServerConfig.cpp:151-166 | leaves a text alone exactly when all its characters are kept |
| Text.FilterIdempotent | common/ServerConfig.cpp:151-166 | filtering twice is filtering once |
| Text.FilterCuts | common/ServerConfig.cpp:151-155 | nothing behind a comment sign or a NUL matters |
| Text.FilterIgnores | common/ServerConfig.cpp:157-165 | characters outside the kept alphabet may be inserted anywhere |
| Text.FilterOne | common/ServerConfig.cpp:157-165 | the characters kept, by their codes: letters, numerals, ':', '_' and '.', and no other |
| Text.FilterAppend | common/ServerConfig.cpp:151-166 | up to a '-' or a NUL the characters are filtered one by one |
| Text.FilterStops | common/ServerConfig.cpp:151-155 | behind a '-' or a NUL nothing is kept |
| Text.Find | common/ServerConfig.cpp:172-175 | finds the first occurrence, and nothing exactly when there is none |
| Text.OccursBeside | common/ServerConfig.cpp:172-208 | no occurrence of a key straddles the ':' |
| ConfigKeys.KeyInKey | common/ServerConfig.cpp:12-28 | none of the 17 keys occurs inside another |
| Numbers.DigitsRoundTrip | common/ServerConfig.cpp:176-202 | reading printed decimal or hexadecimal digits gives the number back, in front of anything |
| Numbers.NumberRoundTrip | common/ServerConfig.cpp:176-202 | a printed number is read back as itself exactly when it fits a `long` |
| Numbers.DigitsSpelt | common/ServerConfig.cpp:176-202 | the digits in which numbers are printed here, by their characters |
| Numbers.AtoiStops | common/ServerConfig.cpp:176-178 | a decimal number is read up to the first character that is no numeral, and cut at 0x7FFFFFFF |
| Numbers.StrtolStops | common/ServerConfig.cpp:189-196 | the same for hexadecimal numbers, with or without the prefix |
| Numbers.StrtolUpper | common/ServerConfig.cpp:189-196 | capitals and small letters are read alike |
| ConfigSpec.PutGet | common/ServerConfig.cpp:175-208 | assigning one field a value it has room for changes that field and no other |
| ConfigSpec.SameFields | common/ServerConfig.cpp:175-208 | the 17 fields are all there is to a configuration |
| ConfigSpec.DispatchIs | common/ServerConfig.cpp:175-208 | the chain selects a key if and only if it occurs in the text and none asked for earlier does |
| ConfigSpec.GetLine | common/ServerConfig.cpp:149 | a line that is read fits the buffer with its NUL, and the reading advances |
| ConfigProperties.LastLineWins | common/ServerConfig.cpp:149-212 | when all lines stay inside the arrays, each field ends with the value of the last line dispatched to it, and keeps its own if there is none |
| ConfigProperties.LinesCommute | common/ServerConfig.cpp:149-212 | lines that stay inside the arrays and are dispatched to different fields may change places |
| ConfigProperties.LinesOfJoin | common/ServerConfig.cpp:149 | the reader sees exactly the lines the file was put together from, with or without a final newline |
| ConfigProperties.OverlongLineEndsReading | common/ServerConfig.cpp:145-149 | a line too long for the buffer, ended by a newline or by the end of the file, ends the reading: neither it nor anything behind it is applied |
| ConfigProperties.EveryLineSeen | common/ServerConfig.cpp:145-149 | the reader sees every line of a file, an unended last one included, if and only if each fits the buffer |
| ConfigProperties.OneLineSameFilter | common/ServerConfig.cpp:149-166 | in any file, with or without a final newline and with lines of any length around it, a line that fits may be replaced by any that fits and has the same kept characters |
| ConfigProperties.LayoutInsensitive | common/ServerConfig.cpp:149-166 | in any line of any file, inserting ignored characters anywhere or appending a comment, such that this line still fits, changes neither the effect of the file nor whether the reading stays inside the arrays |
| ConfigProperties.BlanksDoNotMatter | common/ServerConfig.cpp:149-166 | in particular for blanks, tabs, carriage returns and quotation marks, and for a comment behind '-' |
| ConfigProperties.LongestLine | common/ServerConfig.cpp:145-149 | a line of at most 4095 characters is seen, and a longer one is not |
| ConfigRoundTrip.DispatchOwnLine | common/ServerConfig.cpp:172-208 | a line made of a key, ':' and a value goes to that key if and only if the value holds none of the keys asked for earlier |
| ConfigRoundTrip.NoUnderscoreNoKey | common/ServerConfig.cpp:12-28 | a value without underscores holds no key, so its line is dispatched unambiguously |
| ConfigRoundTrip.WrittenIsStorable | common/ServerConfig.cpp:172-208 | whatever the line, the value it assigns, if it does not spill one, is one that a printed line can assign again |
| ConfigRoundTrip.LineRoundTrip | common/ServerConfig.cpp:172-208 | a printed line assigns its value to its key if and only if the value is storable; texts are those with room in their array |
| ConfigRoundTrip.StorableRoundTrips | common/ServerConfig.cpp:133-216 | a configuration of storable values is read back from its printed form in any order of the keys, inside the arrays, whatever was there before |
| ConfigRoundTrip.UnstorableIsLost | common/ServerConfig.cpp:133-216 | no file that stays inside the arrays makes a field take a value that is not storable |
| ConfigRoundTrip.RoundTripExact | common/ServerConfig.cpp:133-216 | printing and reading back stays inside the arrays and gives the same configuration, from every starting one, if and only if all values are storable and all lines fit |
| ConfigRoundTrip.ReadKeepsStorable | common/ServerConfig.cpp:133-216 | reading any file that stays inside the arrays keeps a storable configuration storable |
| ConfigRoundTrip.ReadPrintRead | common/ServerConfig.cpp:133-216 | what was read from any file that stays inside the arrays can be printed and read back, as long as its lines fit |
| ConfigLines.PortLines | common/ServerConfig.cpp:175-178 | `_port1:` and `_port2:` with a decimal number assign the two ports, and nothing else |
| ConfigLines.AddressLines | common/ServerConfig.cpp:179-182 | `_server_ip1:` and `_server_ip2:` assign the text behind them |
| ConfigLines.SocketCountLine | common/ServerConfig.cpp:183-184 | `_prepare_accept_socket_count1:` assigns a decimal number |
| ConfigLines.WorkCountLines | common/ServerConfig.cpp:185-188 | `_acceptor_work_count1:` and `_acceptor_work_count2:` assign a decimal number modulo 2^16 |
| ConfigLines.ReceiveBufferLines | common/ServerConfig.cpp:189-192 | `_receive_buffer_size1:` and `_receive_buffer_size2:` assign a hexadecimal number |
| ConfigLines.SendBufferLines | common/ServerConfig.cpp:193-196 | so do `_send_buffer_size1:` and `_send_buffer_size2:` |
| ConfigLines.TransferThreadsLine | common/ServerConfig.cpp:197-198 | `_info_transfer_station_work_thread_count:` assigns a decimal number modulo 2^16 |
| ConfigLines.DatabaseBufferLine | common/ServerConfig.cpp:199-200 | `_database_receive_buffer_size:` assigns a hexadecimal number |
| ConfigLines.DatabaseThreadsLine | common/ServerConfig.cpp:201-202 | `_database_work_thread_count:` assigns a decimal number |
| ConfigLines.DatabaseNameLine | common/ServerConfig.cpp:203-204 | `_database_name:` assigns the text behind it, and stays inside the array, if and only if it is shorter than 50 |
| ConfigLines.AccountNameLine | common/ServerConfig.cpp:205-206 | the same for `_database_account_name:` and 50 |
| ConfigLines.PasswordLine | common/ServerConfig.cpp:207-208 | the same for `_database_account_pwd:` and 20 |
| ConfigLines.ChainOrder | common/ServerConfig.cpp:175-208 | of the 17 keys, in the order of the chain, the first that a line contains decides where it goes |
| ConfigLines.WithoutColon | common/ServerConfig.cpp:172-173 | without a ':' the whole line, with its key, is taken for the value |
| ConfigLines.AddressAlone | common/ServerConfig.cpp:172-180 | so the line `_server_ip1` makes its own key the address |
| ShippedScript.ScriptGives | common/ServerConfig.cpp:133-216 | a script of one line for each field, with blanks, quotation marks and comments as in the shipped ones, gives exactly the values it spells, whatever the configuration was before |
| ShippedScript.MiddleServerScript | common/ServerConfig.cpp:133-216 | the script the middle server is shipped with gives the ports 8001 and 8002, the buffers of 0x8000, and all else as it spells it |
| ConfigWitnesses.TooLargeIsCut | common/ServerConfig.cpp:175-202 | any number that fits its 32-bit field and exceeds 0x7FFFFFFF is read as 0x7FFFFFFF |
| ConfigWitnesses.PortNotReadBack | common/ServerConfig.cpp:175-178 | a configuration with the port 2^31 does not come back from its printed form or any other file |
| ConfigWitnesses.PaddedLineIsLost | common/ServerConfig.cpp:145-149 | a script that begins with a line which sets the port and is padded beyond the buffer changes nothing |
| ConfigWitnesses.AssignsOrSpills | common/ServerConfig.cpp:203-208 | a line for one of the three arrays assigns its text or spills it, according to the length alone |
| ConfigWitnesses.FiftyCharacters | common/ServerConfig.cpp:203-208 | a file with a name of 50 characters leaves its own array without a NUL and the account name empty, whatever it was |
| ConfigWitnesses.AccountFromNowhere | common/ServerConfig.cpp:203-208 | a file of one line for the name can leave an account name that is not storable there |
| WideArrays.CharConvertToWchar | common/ServerConfig.cpp:203-208 | clears the array, copies the text and its NUL wherever they fall, and stays inside the array if and only if the text is shorter than it |
| WideArrays.CopySpelt | common/ServerConfig.cpp:203-208 | cell by cell: the text and its NUL wherever they fall, NUL up to the end of the array, and the rest as before |
| WideArrays.CopyThatFits | common/ServerConfig.cpp:203-208 | a text that fits is held by its array, and no other cell changes |
| WideArrays.CopyThatSpills | common/ServerConfig.cpp:203-208 | a text that does not fit overwrites the first cell of the next array, with its NUL or a character |
| WideArrays.NextArrayKept | common/ServerConfig.cpp:203-208 | what follows the array is left alone, whatever it held, if and only if the text fits with its NUL |
| ServerConfig.DefaultsStorable | common/ServerConfig.cpp:48-111 | the built-in defaults of all three servers are storable, so the above applies to every configuration a server can come to hold by scripts that stay inside |
| ServerConfig.ServersMeet | common/ServerConfig.cpp:50-96 | by default the child and the login server look for the middle server at the two ports where it listens for them |
| ServerConfig.ServerConfig.constructor | common/ServerConfig.cpp:48-111 | a new object holds the defaults of its kind of server, each of the 17 spelt out |
| ServerConfig.StoreText | common/ServerConfig.cpp:203-208 | in the cells of the three arrays, converting a text that fits assigns that field and no other |
| ServerConfig.GetLineInto | common/ServerConfig.cpp:149 | fills the buffer with the next line and a NUL, and fails at the end of the file and on a line that does not fit |
| ServerConfig.FilterInto | common/ServerConfig.cpp:151-166 | from a clear transfer buffer, leaves there the filtered line ended by a NUL, and leaves it clear when nothing is kept |
| ServerConfig.ServerConfig.Assign | common/ServerConfig.cpp:175-208 | the 17-way chain assigns the converted value to the field that dispatch selects, and to no other, and writes outside an array if and only if the text does not fit |
| ServerConfig.ServerConfig.ProcessLine | common/ServerConfig.cpp:151-211 | applies one line, inside the arrays if and only if the line stays inside, and leaves the transfer buffer clear, also where the early `continue` skips the clearing |
| ServerConfig.ServerConfig.ReadConfigScript | common/ServerConfig.cpp:133-216 | the loop over the two buffers stays inside the arrays if and only if the script does, and then computes the meaning of the file line by line, no line's text affecting another; whatever the script, the arrays end up with what its lines write into them in turn; a file that cannot be opened changes nothing and gives FAILED |
| ServerConfig.ServerConfig.Initialize | common/ServerConfig.cpp:117-131 | returns 0, with the effect of the reading, or -1 if there is no file |

## Left out

- WorkerProtocol.Step: `WorkerThread` is a transition system rather than a method with a loop, because its iterations interleave with those of other workers.
- WorkerProtocol.Enabled: a wait that is entered in the middle of another thread's `GetData` or `QueueRequest` releases a mutex it does not own, which Boost leaves undefined; the model enters the wait only between such calls, and what is said about workers that cannot go on is said of that model.
- Lost or fair wake-ups: waking up is a step that may happen at any time the mutex is free, so no claim says that a worker is woken.
- SqlPool.SqlPool.Shutdown: racing with workers that still hold connections is not modelled; the code gives no order for it. `Exit.ShutdownWhenNoneHeld` covers the ordered case.
- SqlPool.Node: the ODBC connection and statement a node owns, the environment, and the stored names and passwords.
- The exception of `GetData` stops its worker in the model, and the others go on; in a program that does not catch it the process ends there.
- `interrupt_all` in the destructor of `cThreadPool`, which interrupts waiting threads: runs end before it.
- `GlobalAlloc` returning NULL, exceptions out of ODBC calls and out of thread creation, and debug assertions.
- `mPeakWorkingSetSize`, which no operation updates.
- ServerConfig.ServerConfig.ReadConfigScript: what a text that reaches past the last of the three arrays writes behind it, in the two fields that stand there, is not modelled; once a text has been written past its array only the cells of the three arrays are stated.
- The build in which none of MIDDLE_SERVER, LOGIN_SERVER and CHILD_SERVER is defined, which leaves fields uninitialised.
- White space and signs in `atoi` and `strtol`: the filter drops both, so they never reach the conversion.
- `InfoTransferStation`, the networking classes and the message layouts: single-branch code over foreign libraries.
