# A verified model of the chat server

The repository holds a chat server in C++ and an Android client. This project models the server in Dafny and proves
what its two threads, its wire format and its arithmetic are for.

* **The two threads.** `ServerMachine` is a small-step system. The listener thread (`listen`, `flex_waiter::wait`, the
  handlers) and the sender thread (`sendMessages`) each have a program counter; a step ends at every lock operation,
  every test of a socket's flag and every system call, and the two are interleaved in every order. A read or a write
  is two steps, the test of the flag `_open`, which no mutex guards, and the call, which does not look at it again.
  The three mutexes, the vector of sockets and names, the waiter's set, the queue, the sockets' flags and the flag
  `killed` are the shared state. What was queued and written is kept as history (`log`, `out`). The test of a closed
  socket throws and nobody catches it: that is the terminal state `crashed`. `ServerInvariants` proves one invariant
  for all steps, and `ServerFrames` what steps leave alone; `ServerLocks`, `ServerDelivery`, `ServerRequests`,
  `ServerNames`, `ServerDescriptors` and `ServerShutdown` draw the conclusions for all runs; `ServerCrashes` says
  which steps end the program until `stop` has closed the sockets; `ServerRefinement` shows that every run, until
  `stop` and while no write fails, is a play of the atomic `ChatRoom`. That the program also does what it is for is
  said by `ServerWaiting` (every event can be waited for and is answered), `ServerAlone` (each handler, left alone,
  does what it should, from the wait on) and `ServerDrains` (the sender, left alone, brings the whole queue to every
  member). `ServerExamples` builds runs step by step: one that delivers a message, one in which a client leaves, and
  one for each way in which the program fails.
* **The objects.** `Sockets` and `ServerObject` have `socket`, `flex_waiter` and `server` as classes with their loops,
  and `Sending` says what the loops of `sendMessages` do wherever they stop. They and the machine share the functions
  of `Entries`; `ServerAlone` shows that the machine's listener, whenever it is left alone, does what the method
  `OnSocket` does.
* **Durations.** `Arithmetic` and `DurationReader` are the reader's unit conversion with its gcd reduction and its
  64-bit checks; `DurationText` is the text of a duration, with the table of units. `UnitNames` says what the names
  mean without that table, and `DurationGrammar` exactly which texts are accepted.
* **Time points.** `Rounding`, `Calendar` and `TimePoint` are the rounding to even, the calendar of `gmtime_r` and
  `timegm`, and the text of a time point with its offset. `TimeGrammar` says exactly which texts are accepted, and
  where things stand in a text that is written.
* **Messages.** `PropertyTree`, `Codec` and `JsonText` are the trees of the five message classes, the request visitor,
  and the step that cleans a received text. `WireForm` has the trees key by key, and exactly which are read.

Where the code and its documentation differ the model follows the code:

* A client that goes before a message is written to it can end the program, with no `stop` and no failed write: the
  read of nothing clears the socket's flag (`socket.cpp:105-107`) before `onSocket` has the lock that the sender's
  loop holds (`server.cpp:103, 207-213`), and the test before the next write to that socket throws.
  `OnlyALeavingClientCrashes` says exactly when this happens, and `ALeavingClientCrashes` is such a run.
* `stop` means to empty the vector of sockets but calls `sockets.empty()`, which changes nothing (`server.cpp:63`).
  The sender therefore still finds the closed sockets, and a message that is left makes it throw; `ShutdownCrashesIff`
  says exactly when, and `AStopCrashes` is such a run.
* A read of nothing marks a socket closed without giving its descriptor back, and `close` then does nothing
  (`socket.cpp:86-118, 174-181`). Descriptors of clients that left are never reused (`DescriptorsAreNotReturned`, and
  `AClientLeaves` for a run in which one has left).
* A failed write closes a socket that stays in the vector, so that the next message throws
  (`OneFailedWriteEndsBroadcasting`, and `AWriteFails` for a run with such a write), unless the listener is past its
  own test in a read of that socket or has read its end: then the client can leave and the broadcasting go on
  (`AFailedClientLeaves`).
* `visit` returns no response for a tree that is no request (`VisitCallsIff` says which are), and `onSocket` looks
  into it all the same (`server.cpp:125-132`); the model counts that as an end of the thread (`OnSocket`).
* A login with the empty name is rejected as long as any client has no name, as the one that asks usually has none
  (`server.cpp:232-239`; `AReplyFails` has such a login).
* `visit` reports a type it does not know with the code for a missing type (`visitor.hpp:116`), though another code
  exists.
* `kill` is said to throw if no thread waits; it does nothing (`flex_waiter.cpp:79-86`).
* `fromJson<T>` does not look at the type tag (`TypeIsIgnored`).
* The writer of time points means to print the seconds of a minute in two digits. It puts the leading zero by the
  value before it is rounded, and rounding may carry: three hundred nanoseconds before the tenth second it prints
  `010.000000` (`ThreeDigitSeconds`), and as long before the next minute `60.000000` (`SixtySeconds`).
  `SecondsFieldIsProperIff` says exactly when the field is proper; it is for every time of whole microseconds
  (`WholeMicrosecondsAreProper`). The server's own reader reads them all (`WrittenTimeIsRead`).
* The duration reader rejects some exact conversions from units that are not in lowest terms
  (`UnreducedUnitIsRejected`); `ReadsAllConvertibleIff` says for which units it rejects none.
* The duration reader divides by zero on texts such as `0 [1/0]s` and `1 [0/1]s` (`ZeroDenominatorDivides`,
  `ZeroNumeratorDivides`); `DividesByZeroIff` says on which.

## Model

| member | source | states |
|---|---|---|
| `ServerInvariants.Invariant` | server/server/src/server.cpp:52-265 | In every state of every interleaving: mutex owners follow from the program counters, the vector lists exactly the members, the waiter's set agrees with it, names are unique even with a name accepted but not yet bound, and each member has exactly the messages sent since it joined |
| `ServerRefinement.RunsArePlays` | server/server/src/server.cpp:91-220 | For every interleaving and every state of it before stop and before a write fails, also a crashed one, the events so far are a legal play of the atomic chat room and the state shows the room that the play leads to; a delivery takes effect when the loop over the sockets ends |
| `ChatRoom.PlaysAreSound` | server/server/src/server.cpp:91-220 | In every play of that room members and their nonempty names differ, only replies in private are errors, and every member has its account |
| `ServerCrashes.ClosedOnlyByTheEnd` | server/lib/src/networking/socket.cpp:99-110 | Until stop has closed the sockets every client that has not left is open, unless a write to it failed or the listener has read its end and is about to remove it |
| `ServerCrashes.CrashesIff` | server/lib/src/networking/socket.cpp:159-162 | Until stop has closed the sockets, also after it was called, a step ends the program if and only if it is the sender's test of a client that is leaving or to which a write failed, or the listener's test, for a read or an answer, of one to which a write failed; a call that is past its test does not throw |
| `ServerCrashes.OnlyALeavingClientCrashes` | server/server/src/server.cpp:97-103 | While also no write has failed, a step ends the program if and only if it is the sender's test of a client whose end the listener has read and which waits for the lock to be removed |
| `ServerExamples.ALeavingClientCrashes` | server/server/src/server.cpp:210-213 | There is a run in which one client joins, posts and goes before the write, which ends the program without stop and without a failed write |
| `ServerExamples.AClientLeaves` | server/server/src/server.cpp:97-114 | There is a run in which a client has left, the program goes on, and the client's descriptor is still in use |
| `ServerExamples.AFailedClientLeaves` | server/lib/src/networking/socket.cpp:90-109 | There is a run in which both threads are past their tests of a client, the write fails, the read finds the end, the client is removed, and a message that it was never offered is sent to all |
| `ServerExamples.AMessageIsDelivered` | server/server/src/server.cpp:195-218 | There is a run that writes a posted message to its client and clears the queue |
| `ServerExamples.AWriteFails` | server/lib/src/networking/socket.cpp:164-169 | There is a run in which a write to a member fails while the listener is not in a read of it |
| `ServerExamples.AStopCrashes` | server/server/src/server.cpp:52-67 | There is a run in which stop has closed the sockets, the sender still has a message for somebody, and the program ends by an exception |
| `ServerExamples.AReplyFails` | server/server/src/server.cpp:135-142 | There is a run in which a login with the empty name is rejected, as a client has no name yet, and the write of the reply fails |
| `ServerWaiting.CanRead` | server/lib/src/networking/flex_waiter.cpp:120-129 | In every reachable state at the top of the listener's loop before stop, every member whose socket is open can be the next that is read from: there are steps of the listener to the read past its test that change nothing but the waiter's kill event |
| `ServerWaiting.CanAccept` | server/lib/src/networking/flex_waiter.cpp:205-208 | Likewise a new client can be the next event |
| `ServerWaiting.CanTakeLine` | server/lib/src/networking/flex_waiter.cpp:182-202 | Likewise any line from stdin can |
| `ServerWaiting.EventIsAnswered` | server/lib/src/networking/flex_waiter.cpp:182-219 | After select has reported a client, a new client or a line the listener does nothing until it has read from that client, accepted, or looked at that line, in every run |
| `ServerWaiting.NobodyIsLost` | server/server/src/server.cpp:173-186 | In every state every accepted client is or was in the vector, or the listener is about to put it there |
| `ServerAlone.HandledAlone` | server/server/src/server.cpp:116-171 | Every run of the listener alone from the read of a request until it is back in its loop, with both mutexes free and no failed reply, leaves exactly the vector, the queue and the private answer that the request calls for |
| `ServerAlone.GoneAlone` | server/server/src/server.cpp:97-114 | Every such run from a read of nothing removes the first entry with the descriptor and the client from the waiter, and leaves the queue and what the client got |
| `ServerAlone.CanBeHandledAlone` | server/server/src/server.cpp:116-171 | There is such a run for every request |
| `ServerAlone.CanGoAlone` | server/server/src/server.cpp:97-114 | There is such a run for every end of a member |
| `ServerAlone.JoinedAlone` | server/server/src/server.cpp:173-186 | Every run of the listener alone from the accept until it is back in its loop appends the new client without a name to the vector and the waiter and changes nothing else |
| `ServerAlone.CanJoinAlone` | server/server/src/server.cpp:173-186 | There is such a run for every descriptor not in use |
| `ServerAlone.StoppedAlone` | server/server/src/server.cpp:52-67 | Every run of the listener alone from the line exit until it is back in its loop sets killed, closes exactly the members, gives back exactly the descriptors of the open ones, signals the waiter and changes nothing else |
| `ServerAlone.CanStopAlone` | server/server/src/server.cpp:52-67 | There is such a run |
| `ServerAlone.CanBeServed` | server/server/src/server.cpp:91-171 | In every reachable state before stop, with the listener at the top of its loop and the sender in no critical section, any open member can be waited for, read from and handled: the listener alone comes back to its loop with what the request calls for |
| `ServerAlone.CanBeRemoved` | server/server/src/server.cpp:97-114 | Likewise any open member that has gone can be removed |
| `ServerDrains.DrainedAlone` | server/server/src/server.cpp:188-220 | For any number of members and any queue, in every reachable state before stop with every member open: every run of the sender alone from the top of its loop to the top of its loop, without a failed write, appends the whole queue in order to what each member has got, clears the queue and changes nothing else |
| `ServerDrains.CanDrainAlone` | server/server/src/server.cpp:188-220 | There is such a run |
| `ServerDrains.APostCanReachAll` | server/server/src/server.cpp:116-220 | In every such state any member's message can be brought to every member, after what was queued before it |
| `ServerDelivery.BroadcastsAreASegment` | server/server/src/server.cpp:188-220 | In every reachable state the broadcasts written to a connection are a contiguous piece of the log of queued responses, starting where the connection joined |
| `ServerDelivery.TotalOrder` | server/server/src/server.cpp:188-220 | Two connections, looked at at any two moments of a run, agree on every message both have and on its place in the one order |
| `ServerDelivery.HistoryGrows` | server/server/src/server.cpp:165-168 | Over any run the log and every connection's output only grow, a descriptor never changes, and a connection passes from accepted to member to left and never back |
| `ServerDelivery.Conservation` | server/server/src/server.cpp:195-218 | The log is the cleared messages followed by the queue, and each connection without a failed write has every message sent while it was a member, once and in order |
| `ServerDelivery.ClearDropsNothing` | server/server/src/server.cpp:216-217 | Whenever the queue gets shorter, every message ever queued has been sent: no push during a drain is lost by the clear |
| `ServerDelivery.OneFailedWriteEndsBroadcasting` | server/lib/src/networking/socket.cpp:157-172 | From any state in which a write to a member has failed and the listener is neither past its test in a read of that member nor has read its end, the member is never removed and no message it had not been offered is ever sent to all |
| `ServerNames.NamesAreUnique` | server/server/src/server.cpp:148-162 | Two entries never have the same nonempty name, although the check and the binding are separate critical sections |
| `ServerNames.AnnouncedNameIsHeld` | server/server/src/server.cpp:148-168 | When a login response enters the queue, the entry of the client that asked has the announced name |
| `ServerNames.BoundBefore` | server/server/src/server.cpp:148-162 | An accepted login is bound before the listener does anything else |
| `ServerNames.NameHistory` | server/server/src/server.cpp:224-259 | Between two accepted logins for one name the first client had the name, and by the second it has left or taken another name and nobody has it |
| `ServerNames.ErrorsAreNotQueued` | server/server/src/server.cpp:135-146 | No error is ever queued or logged |
| `ServerNames.ErrorsArePrivate` | server/server/src/server.cpp:135-169 | Every connection's output is a contiguous piece of the log from its joining on, interleaved with a beginning of the replies to its own rejected logins: all but one that is about to be written, if no write to it failed |
| `ServerNames.RejectedLoginLeavesNoTrace` | server/server/src/server.cpp:244-258 | From the check of a taken name until the reply is written, vector and log stay as they are whatever the sender does, and the reply goes to the client that asked |
| `ServerNames.IndexAgreement` | server/server/src/server.cpp:173-186 | Except inside an insertion or removal the waiter watches exactly the sockets of the vector, which has no socket and no descriptor twice |
| `ServerNames.DescriptorsAreNotReturned` | server/lib/src/networking/socket.cpp:174-181 | Until stop the descriptor of every client, also of one that has left, is still in use, and no two clients share one |
| `ServerDescriptors.WatchedAreSeparate` | server/lib/src/networking/flex_waiter.cpp:111-152 | In every reachable state before stop the watched descriptors meet what Wait requires: they differ from each other, from stdin, from the server's and from the kill event that there is or that can be made |
| `ServerRequests.LogAnswersTheRequests` | server/server/src/server.cpp:116-169 | In every state the log, followed by the response on its way to the queue, is exactly the responses to the messages read and the logins accepted so far, each once, in the order of the requests and with their originator, content, name and time |
| `ServerRequests.CheckedNameWasRead` | server/server/src/server.cpp:224-236 | A name is checked only for a login with that name and time that was read from that client, with nothing read in between |
| `ServerLocks.TakenInOrder` | server/server/src/server.cpp:195-207 | A thread only ever waits for a mutex that ranks above all it holds, so never for one it holds, also when stop and kill run inside wait |
| `ServerLocks.NoCyclicWait` | server/server/src/server.cpp:52-67 | The two threads never wait for each other |
| `ServerLocks.BlockedOnlyByARunner` | server/lib/src/networking/flex_waiter.cpp:131-149 | A thread that has not returned can step, or waits for a mutex of the other thread, which can step |
| `ServerLocks.NoDeadlock` | server/server/src/server.cpp:69-77 | A run that cannot go on has crashed, or both threads have returned |
| `ServerShutdown.StepTowardsTheEnd` | server/server/src/server.cpp:188-220 | Every step of either thread after killed lowers a bound on the steps left and changes neither the clients nor the log |
| `ServerShutdown.ShutdownTerminates` | server/server/src/server.cpp:69-77 | After killed a run has at most that many more steps; killed stays set, nobody is accepted and nothing is queued |
| `ServerShutdown.NothingIsDeliveredAfterStop` | server/server/src/server.cpp:59-62 | Once stop has closed the sockets no connection ever gets anything more |
| `ServerShutdown.ShutdownCrashesIff` | server/server/src/server.cpp:201-214 | From the closing of the sockets on, which is where CrashesIff ends, the program ends by an uncaught exception if and only if the sender is then past its test of killed with a message left and a client in the vector |
| `ServerShutdown.KilledIff` | server/server/src/server.cpp:79-89 | In every state of every run the program is stopping if and only if the listener has taken the line exit before |
| `ServerShutdown.OtherLinesAreIgnored` | server/server/src/server.cpp:84-88 | Any other line leads back to the loop and changes nothing |
| `ServerShutdown.LineWasTyped` | server/lib/src/networking/flex_waiter.cpp:182-202 | A line that the listener takes is the one that select reported, with nothing handled in between |
| `ServerShutdown.SignalledIff` | server/lib/src/networking/flex_waiter.cpp:79-86 | The waiter's event is signalled exactly from the end of stop on, and whenever stop runs there is an event to signal |
| `ServerObject.Server.OnSocketServer` | server/server/src/server.cpp:173-186 | The new client is appended to the vector without a name and to the waiter's set (flex_waiter.cpp:61-66), and the two agree |
| `ServerObject.Server.RemoveSocket` | server/server/src/server.cpp:100-114 | The loop with its break removes the first entry with the descriptor and the socket from the waiter (flex_waiter.cpp:68-77), and nothing else, and the two still agree |
| `ServerObject.Server.VisitLogin` | server/server/src/server.cpp:224-259 | The loop answers with an error if some entry has the name and with a login response otherwise |
| `ServerObject.Server.BindName` | server/server/src/server.cpp:148-162 | The loop without a break gives the name to every entry with the descriptor and to no other |
| `ServerObject.Server.OnSocket` | server/server/src/server.cpp:91-171 | Run without interruption, for any outcome of the read and any text: the thread ends if and only if the socket is closed, the read fails, or the text is no document or no request; a read of nothing removes the client; a request leaves exactly the specified vector, queue and private answer; names stay unique |
| `ServerObject.Server.Respond` | server/server/src/server.cpp:125-169 | The handler that visit calls and the dispatch on its response leave what the request calls for and never end the thread |
| `Codec.VisitCallsIff` | server/lib/include/msg/visitor.hpp:95-118 | visit calls a handler if and only if the tree has an object with a time and a sender, and the type of a login request or, with a content, of a message request |
| `Codec.VisitedRequestIsOfClass` | server/lib/include/msg/visitor.hpp:139-166 | The login handler gets login requests only and the message handler message requests only |
| `ServerObject.Server.Stop` | server/server/src/server.cpp:52-67 | Every member is closed and, if it was open, gives its descriptor back; nothing is written; the vector stays; the listening socket is shut down (socket_server.cpp); the waiter is signalled if it has an event (flex_waiter.cpp:79-86) |
| `ServerObject.Server.WriteToAll` | server/server/src/server.cpp:209-213 | One message is written to the sockets in order until the first that is closed, and exactly those before it have been tried |
| `ServerObject.Server.Drain` | server/server/src/server.cpp:195-218 | The nested loops throw if and only if a socket is closed or one of its writes but the last fails; the queue is cleared if and only if they do not; what each socket got is exact at whatever point they stop |
| `Sending.SocketsAgree` | server/server/src/server.cpp:201-214 | Wherever the loops stop, what any two sockets got is a common beginning of the queue that differs by at most two messages |
| `Sending.StuckCannotFinish` | server/server/src/server.cpp:210-213 | A closed socket with messages left was closed at the start or had a failed write before |
| `Sending.FinishedCanFinish` | server/server/src/server.cpp:201-217 | If the loops came to the end of the queue, no socket was closed at the start and no write but a last one failed |
| `Sockets.Socket.Read` | server/lib/src/networking/socket.cpp:86-118 | A closed socket throws; nothing read or a failure closes the socket and leaves the vector; bytes replace the vector's contents |
| `Sockets.Socket.Write` | server/lib/src/networking/socket.cpp:157-172 | A closed socket throws; otherwise the whole text is appended, or a failure closes the socket |
| `Sockets.Socket.Close` | server/lib/src/networking/socket.cpp:174-181 | The descriptor is given back only if the socket was open |
| `Sockets.FlexWaiter.BuildSet` | server/lib/src/networking/flex_waiter.cpp:108-129 | The loop puts in the set exactly stdin, the server's descriptor and those of the open sockets, and its running maximum is the largest of them |
| `Sockets.FlexWaiter.Wait` | server/lib/src/networking/flex_waiter.cpp:88-226 | Every descriptor of the read set is below nfds, and any set that select reports is turned into exactly one event, by the priority kill, stdin, server, an open ready socket |
| `Sockets.FlexWaiter.Dispatch` | server/lib/src/networking/flex_waiter.cpp:160-224 | A nonempty set of ready descriptors is answered by one event of that priority |
| `Sockets.FlexWaiter.FindReady` | server/lib/src/networking/flex_waiter.cpp:211-219 | The loop with its break finds a socket with a ready descriptor if there is one |
| `Arithmetic.ComputeGcd` | server/lib/include/chrono_io:473-484 | The loop ends and returns Gcd of its arguments |
| `Arithmetic.GcdIsGreatest` | server/lib/include/chrono_io:473-484 | Gcd divides both numbers, and every common divisor divides it, for all numbers that are not both zero |
| `DurationReader.ConvertCount` | server/lib/include/chrono_io:698-747 | In 64-bit arithmetic without overflow the reader computes the specified conversion of a count between any two units, rejections and division by zero included |
| `DurationReader.ReduceFactor` | server/lib/include/chrono_io:701-715 | The crosswise reduction finds whether both parts of the reduced factor fit 64 bits, and computes them if so |
| `DurationReader.ReduceCount` | server/lib/include/chrono_io:720-729 | After dividing by the gcd the denominator is 1 if and only if it divided the count, and the count is then the exact quotient; the gcd is zero only for two zeros |
| `DurationReader.Multiply` | server/lib/include/chrono_io:731-746 | The product is checked against 64 bits before it is formed and against the count type after; what is stored is the product |
| `DurationReader.ApplyFactor` | server/lib/include/chrono_io:717-743 | A count is scaled if the denominator divides it and the result fits, and rejected otherwise |
| `DurationReader.StoredIsExact` | server/lib/include/chrono_io:698-747 | Whatever the written unit, a stored count is exactly the duration that was written and fits |
| `DurationReader.ConversionIsExact` | server/lib/include/chrono_io:698-747 | For a unit and a period in lowest terms, q is stored if and only if both parts of the factor fit, q of the period is exactly the count of the unit, and q fits |
| `DurationReader.UnreducedUnitIsRejected` | server/lib/include/chrono_io:719-731 | Two of [6/4] seconds are three seconds and are rejected |
| `DurationReader.ReadsAllConvertibleIff` | server/lib/include/chrono_io:698-747 | The reader accepts every count with an exact conversion if and only if the crosswise reduced factor fits 64 bits and has coprime parts |
| `DurationReader.DividesByZeroIff` | server/lib/include/chrono_io:719-740 | The reader divides by zero if and only if a part of the written unit is zero and the factor's denominator divides the count |
| `DurationText.Read` | server/lib/include/chrono_io:494-762 | The whole reader in 64-bit arithmetic: for every text whose numbers have no sign it stores, rejects or divides by zero as the specification says |
| `DurationText.NameScanned` | server/lib/include/chrono_io:566-617 | The scan of the table finds the unit of each of the 38 long and short names, although some begin others |
| `DurationText.WrittenDurationIsRead` | server/lib/include/chrono_io:412-449 | A duration printed in any named or [N/D] unit, long or short, is read as that count of that unit |
| `DurationText.AcrossUnits` | server/lib/include/chrono_io:494-762 | Printed in one period and read in another, q is stored if and only if it is exactly the duration printed, it fits, and the factor's parts fit |
| `DurationText.RoundTrip` | server/lib/include/chrono_io:412-449 | In its own period a printed duration is read back as it was |
| `UnitNames.PrefixesMeanPowers` | server/lib/include/chrono_io:566-680 | For any two of the seventeen named powers of ten of a second, long or short: n of the one read in a period of the other is q if and only if the power of ten between them takes n exactly to q, fits 64 bits, and q fits |
| `UnitNames.MinutesMeanSeconds` | server/lib/include/chrono_io:685-688 | n minutes, or m, read in seconds are q if and only if q is 60 n and fits |
| `UnitNames.HoursMeanMinutes` | server/lib/include/chrono_io:689-692 | n hours, or h, read in minutes are q if and only if q is 60 n and fits |
| `UnitNames.PrintedByName` | server/lib/include/chrono_io:335-372 | A period of a named power of ten of a second is printed by that name |
| `UnitNames.MinutesAndHoursPrinted` | server/lib/include/chrono_io:374-410 | Periods of 60 and 3600 seconds are printed as minutes and hours |
| `UnitNames.OthersPrintedInBrackets` | server/lib/include/chrono_io:335-410 | Every other period is printed in brackets with the name of the second |
| `DurationGrammar.ReadDurationIff` | server/lib/include/chrono_io:494-762 | A text is not rejected if and only if it spells a count, one space and a unit whose conversion is not, and the outcome is that of the conversion |
| `DurationGrammar.ReadUnitIff` | server/lib/include/chrono_io:529-697 | A unit is read if and only if a name stands there that nothing longer there begins a name with, or two numbers in brackets followed by a name of the second, and it is that unit |
| `Text.ReadIntegerIff` | server/lib/include/chrono_io:503-504 | A number is read if and only if spaces and digits that denote it stand there, no digit follows, and it is not too large |
| `DurationText.ZeroDenominatorDivides` | server/lib/include/chrono_io:719-723 | In every period the reader divides by zero on the text 0 [1/0]s |
| `DurationText.ZeroNumeratorDivides` | server/lib/include/chrono_io:731-731 | In every period the reader divides by zero on the text 1 [0/1]s |
| `Rounding.RoundsToNearestEven` | server/lib/include/chrono_io:148-167 | No whole count is nearer than the one returned, and when another is as near the returned one is even |
| `Rounding.RoundIff` | server/lib/include/chrono_io:148-167 | That determines the count: no other has this property |
| `Calendar.TimeGmInvertsGmTime` | server/lib/include/chrono_io:970-981 | The split of any time from the epoch on is a real date and time of day that denotes that time |
| `Calendar.GmTimeInvertsTimeGm` | server/lib/include/chrono_io:1117-1118 | Every real date and time of day from 1970 on is the split of the time it denotes |
| `Calendar.GmTimeIff` | server/lib/include/chrono_io:970-981 | A time is split into given fields if and only if they are a date that there is, by a formula for the first day of each month, and a time of day, and the expression of POSIX gives them that time |
| `Calendar.FirstOfJuly` | server/lib/include/chrono_io:970-981 | 1467331200 s is midnight of 1 July 2016 |
| `TimePoint.ReadOffset` | server/lib/include/chrono_io:1072-1116 | The character-by-character reading accepts exactly a space, a sign and four digits and gives their minutes with the sign that leads to UTC |
| `TimePoint.Read` | server/lib/include/chrono_io:1029-1135 | The whole reader: for every text whose seconds have no sign and no exponent it gives the specified time, or fails |
| `TimePoint.PatternRead` | server/lib/include/chrono_io:1052-1062 | Numbers in the ranges of a date pattern are read as they were written by it |
| `TimePoint.TextDenotes` | server/lib/include/chrono_io:1052-1116 | A text of a date, digits, decimals and an offset is read as just these |
| `TimePoint.WrittenTimeIsRead` | server/lib/include/chrono_io:983-1014 | The text of a time point, in UTC or any zone, is read as the nearest whole number of microseconds |
| `TimePoint.SecondsFieldIsProperIff` | server/lib/include/chrono_io:993-999 | The field of the seconds is two digits and less than sixty if and only if rounding carries neither over to ten nor over to sixty, that is outside the last half microsecond before the tenth second and before the minute |
| `TimePoint.WholeMicrosecondsAreProper` | server/lib/include/chrono_io:993-999 | It is so for every time of whole microseconds |
| `TimePoint.ThreeDigitSeconds` | server/lib/include/chrono_io:995-999 | At 9.9999997 s it is 010 |
| `TimePoint.SixtySeconds` | server/lib/include/chrono_io:995-999 | At 59.9999997 s it is 60 |
| `TimePoint.WholeMicrosecondsRoundTrip` | server/lib/include/chrono_io:1117-1120 | A time point of whole microseconds, up to the year 9999, is read back as it was |
| `TimePoint.OffsetsAgree` | server/lib/include/chrono_io:1072-1120 | Texts with the same seconds are read as equal times if and only if date, time of day and offset denote the same minute |
| `TimePoint.OffsetReadsAsUtc` | server/lib/include/chrono_io:1072-1120 | A text with an offset is read as the text of the same instant in UTC |
| `TimeGrammar.ReadStampIff` | server/lib/include/chrono_io:1052-1116 | A text is accepted if and only if it is a date yyyy-mm-dd, a time of day hh:mm: with any space between them, seconds with or without a point, one space, a sign and four digits, each number in its range, whatever follows; and what is taken from it is what stands there |
| `TimeGrammar.ReadTimeIff` | server/lib/include/chrono_io:1029-1135 | A time is read from a text if and only if the text is of this form and the time is that of its fields by POSIX, with the nearest microseconds to its seconds, the even ones of two, and brought to UTC by its offset |
| `TimeGrammar.WrittenTimeStands` | server/lib/include/chrono_io:983-1014 | Where the field of the seconds is proper, a written time has 32 characters with the date, the time of day, the six decimals and the zone of that time each in its place |
| `TimeGrammar.UtcIsPlusZero` | server/lib/include/chrono_io:1008-1012 | UTC is written as +0000 |
| `Codec.RoundTrip` | server/lib/include/msg/instance.hpp:187-248 | For each of the five classes fromJson of toJson gives the same fields, the sender that sender() shows, and the time to the nearest microsecond |
| `Codec.ExactRoundTrip` | server/lib/include/msg/instance.hpp:187-248 | With a whole number of microseconds the instance itself comes back if and only if its sender is the one sender() shows |
| `Codec.TypeIsIgnored` | server/lib/include/msg/instance.hpp:187-198 | fromJson gives the same result for any type tag |
| `Codec.SubJsonDescribes` | server/lib/src/msg/message.cpp:51-72 | The object of a message has all properties of its class with their values, and later puts do not disturb earlier ones |
| `Codec.MessageVisitor.constructor` | server/lib/include/msg/visitor.hpp:128-167 | The table has exactly the two request types with their handlers |
| `Codec.MessageVisitor.VisitTree` | server/lib/include/msg/visitor.hpp:95-118 | visit computes the specified dispatch, its error cases included |
| `Codec.VisitIsByClass` | server/lib/include/msg/visitor.hpp:95-118 | The tree of a request makes visit call exactly the handler of its class with its values; the tree of a response gives the error for an unknown type |
| `Codec.VisitCallsOnlyIts` | server/lib/include/msg/visitor.hpp:128-167 | A handler is called only for a tree with its type, with what fromJson reads from that tree |
| `Codec.DispatchIsByClass` | server/server/src/server.cpp:131-150 | The type and the joining username that onSocket looks up in the tree of a response are those of its class, and no two classes have the same type |
| `WireForm.WrittenTreeIs` | server/lib/include/msg/instance.hpp:200-248 | The tree of every message has exactly its keys, in order, with the class name that the client knows, and a login is announced in the name of the server |
| `WireForm.FromJsonIff` | server/lib/include/msg/instance.hpp:187-237 | fromJson gives a message if and only if the tree has a type and an object with all that the class needs, with just these values; a time that cannot be read is the epoch, and a code is sixteen bits alone in its text; it gives null if and only if type or object is missing |
| `PropertyTree.PutKeepsOrder` | server/lib/src/msg/message.cpp:51-72 | A put changes no other text and no order, and a new key comes last |
| `JsonText.Clean` | server/lib/include/msg/json.hpp:47-59 | What is left is the text up to its last newline, and of that what is up to its last brace |
| `JsonText.CleanedIsUnique` | server/lib/include/msg/json.hpp:47-59 | That determines the result |
| `JsonText.TailIsRemoved` | server/lib/include/msg/json.hpp:47-59 | A document that ends in a brace is recovered from a newline and any tail without one |
| `JsonText.DocumentIsRecoveredIff` | server/lib/include/msg/json.hpp:47-59 | A document is recovered from what follows it if and only if no brace comes before the last newline after it or, without such a newline, the document has none and no brace follows |

## Left out

- The Android client; its date pattern is only the reason for offsets in time points.
- System calls: select reports any part of its set, accept gives any descriptor not in use, recv gives bytes or nothing,
  write appends the whole text or fails. Short writes, the failures of accept, select and eventfd, and `FD_SETSIZE` are
  not part of this model.
- Malformed requests and failed reads in the machine: the requests a client sends there are well-formed logins and
  messages. `OnSocket` of `ServerObject` has what the server does with the others.
- One read is one message; fragments and joined messages are not part of this model.
- The text of JSON: `Codec` stops at ordered trees, and a message written to a socket is one unit.
- The clock: the time of a response is a parameter.
- Fairness: nothing is said of which ready client is served.
- Starting the two threads and ending the process: a run starts with both at the top of their loops, and the waiter's
  destructor is not part of this model; the close of the listening socket is in `ServerObject` only.
- `killed` and `_open` are read and written as atomic flags, which a plain `bool` does not promise.
- The signal `SIGPIPE` of a write to a connection that was reset: in the model such a write fails.
- `_sockets` is iterated in any order; `BuildSet` looks at `isOpen` of each socket at one moment, while the machine lets
  the sender close sockets during the loop.
- Floating point: the seconds of a time point are exact rationals, and so is their rounding.
- Time points before 1970 or after 9999, negative counts and durations, floating-point counts, signs and exponents in
  numbers, and the steady clock's printer.
- Formats and unit names that a locale supplies. `__scan_keyword`, the number readers, `time_get` and `time_put` belong
  to the C++ library, and the calendar to the C library; the model defines them as their standards do.
- `ServerObject.Server.OnSocket`: runs without interruption and gets the parsed tree as a parameter; the interleavings
  are those of `ServerMachine`.
- `ServerRefinement.RunsArePlays`: holds until stop and while no write fails, as a chat room has neither. What stop
  leads to is said by `ShutdownTerminates`, `NothingIsDeliveredAfterStop` and `ShutdownCrashesIff`, and what a failed
  write leads to by `OneFailedWriteEndsBroadcasting` and `CrashesIff`.
- `DurationText.Read`: does not model signs of numbers; the stream also reads `+5`, a negative count, and wraps a
  negative part of a unit.
- `TimePoint.Read`: does not model a sign or an exponent of the seconds, which the stream also reads.
- `Codec.RoundTrip`: is for times from the epoch to the year 9999.
