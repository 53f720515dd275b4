# A verified model of the remote-administration utilities

This project models, in Dafny, the six pieces of the repository whose behaviour is hardest to see
from one function, and proves what they promise.

- **The tunnel.** A device dials a server, sends an enciphered greeting and is parked under its id
  until a browser connects; then two relays copy bytes through two RC4 streams, one of which the
  greeting has already advanced. `Rc4`, `Rc4KnownAnswer` (a published key stream), `Header`,
  `Relay`, `Tunnel` (whole runs of both relays and two FIFO channels, with any chunking and partial
  sends), `TunnelRelay` (the relay objects at both ends are the tunnel's relaying), `Device` (the
  device's connection), `Registry` (the server's entries, when their deletion timers are due, what
  becomes of a device, who owns which socket and cipher), `TunnelServer` (the registry plays the
  server's half of every device's tunnel), `RadmConn` and `RadmServer` (the server's callbacks on
  its linked list, buffers and timers).
- **Timers and tasks.** `TimerQueue` is the queue as a value, with the millisecond comparison whose
  ties do not chain; `TimerLive` says which entries survive what; `LinkedList` is linking and
  bypassing nodes; `TimerLists` is the three linked lists changed in place; `Scheduler` is the
  task list on top of one repeating timer.
- **Streaming hashes.** `Sha1` and `Md5` (the unrolled transforms against section 6.1 of RFC 3174
  and section 3.4 of RFC 1321), `Streaming` (the reference: a fold over the padded message),
  `ShaStream` and `Md5Stream` (block buffering, bit counts, padding, HMAC), `Sha1KnownAnswer` and
  `Md5KnownAnswer` (published digests), `Words`.
- **The STUN codec.** `Stun` (messages, attributes, what parsing and printing mean), `StunCodec`
  (the write pointer, the parser's loop and its copies), `StunBounds` (which copies stay in bounds).
- **HTTP strings and UTF-8.** `Sanitise`, `UrlCodec`, `FormVars`, `Form`, `Base64`, `Utf8`.
- **The poll table.** `PollTable` (rows and tombstones as a value, and the ordered map it stands
  for), `PollLoop` (the two parallel arrays), `PollRun` (whole runs), `Objects` (the end of an
  object in the poll table and the scheduler).

Code that the source writes as loops over shared state is a method here, proved against a function
of the old state; the theorems are lemmas about those functions. Callbacks are scripts, and clock
readings, received bytes, send results, sockets and allocated cells are parameters: every theorem
holds for all of them. `Bytes` and `CStrings` hold what several parts share. `dafny verify
dfyconfig.toml` checks everything.

Where the code and what one would expect of it disagree, the model follows the code and says
exactly when it does what one expects: sanitising goes up once for every ".." iff, at each one
that follows another, the path is already at the top (`Sanitise.GoesUpForEach`,
`Sanitise.RunsGoUpOnce`); a form pair keeps its name iff it has "=", or the name ends in a dot, or
no earlier piece trails behind it (`Form.NameKept`, `Form.BareNamesTakeTails`), and the 50-byte
name buffer is respected iff the names fit (`Form.QueryFits`, `Form.LongNameLeaves`); the STUN
parser stays in its arrays iff no ErrorCode it reaches declares less than 4, 260 or 261 bytes, and
it reads beyond the buffer only after stray bytes at its end (`StunBounds.StaysIffDefined`,
`StunBounds.StrayByteReadsOn`); the UTF-8 decoder respects its bound iff the units of the bytes
fit or one of several bytes stands at the end of the room (`Utf8.BytesStayInRoom`); compaction
keeps the registrations iff the table has a tombstone or no row, which the caller's counter sees
to (`PollTable.DefragmentKeepsIff`); scheduling keeps tasks in the order of their numbers iff the
new number is less than all others or all but the first equal it (`Scheduler.StaysInOrderIff`,
`Scheduler.ThirdRunsSecond`); ErrorCode and UnknownAttribute declare two bytes more than they
have, so a message with either never comes back as it was sent, and one without always does
(`Stun.RoundTripIff`); with one of them it is rejected (`Stun.ParsesIff`), with both it may be
accepted as something else (`Stun.BothPlainIff`). The integrity hash is computed while the length
field is still zero; the hash contexts are wiped with the size of a pointer, so only their first
word is cleared; a dispatched row may be one registered during the pass, with the poll result its
memory happened to hold (`stale` in `PollLoop.PfdTable.RegisterSock`).

## Model

| member | source | states |
|---|---|---|
| `Rc4.CryptConcat` | utils/rc4.c:286-310 | deciphering or enciphering in two calls is doing it in one: chunk sizes do not matter |
| `Rc4.ChunkIndependence` | utils/rc4.c:286-310 | the same for any list of calls |
| `Rc4.CryptInverse` | utils/rc4.c:286-310 | a second equal cipher undoes the first, for every state and every text |
| `Rc4.CryptAt` | utils/rc4.c:286-310 | byte k of a stream meets the key byte of k turns of the state, independently of the data |
| `Rc4.AdvanceAdd` | utils/rc4.c:286-310 | the state after m + n bytes is the state after n bytes from the one after m |
| `Rc4.AdvancePermutation` | utils/rc4.c:290-305 | however long a cipher runs, its table holds every byte exactly once |
| `Rc4.WrapNext` | utils/rc4.c:5-284 | the key index that falls back to 0 at the key length counts modulo that length |
| `Rc4.Initial` | utils/rc4.c:5-284 | the state after setup has both indices 0 and a permutation as its table, for every key; what it makes of the key is the business of the two rows below |
| `Rc4.EqualKeys` | utils/rc4.c:5-284 | two keys of equal length, at most 256 bytes, whose second index agrees after every swap of the schedule are the same key: every byte of the key steers the schedule |
| `Rc4KnownAnswer.KnownAnswer` | utils/rc4.c:5-310 | a published key stream: under the key "Key" zeros are enciphered to EB 9F 77 81, followed swap by swap |
| `Rc4.Rc4State.constructor` | utils/rc4.c:5-284 | the setup loop leaves exactly that state in memory |
| `Rc4.Rc4State.CryptInPlace` | utils/rc4.c:286-310 | the loop over a stretch of a buffer replaces it by its translation, leaves the rest alone and advances the state by its length |
| `Header.ParseGreeting` | radmsrv/radm.c:204-221 | the server recognises the greeting of every device, with its kind and its id |
| `Header.GreetingPrefix` | radmsrv/radm.c:204-208 | the server stops reading a greeting at its last byte and at no earlier one |
| `Header.LineMeans` | radmsrv/radm.c:204-221 | of lines without NUL the server accepts exactly those made of "RADMIN: ", "RLOGIN: " or "TELNET: ", an id and a newline at the end, with that kind and id, and it reads on exactly while the newline is missing |
| `Relay.Fwd.constructor` | radmcli/fwd.c:197-213 | a relay starts listening on both sockets with empty buffers and the cipher states it was handed |
| `Relay.Fwd.TsockReadCallback` | radmcli/fwd.c:80-124 | bytes from the tunnel are deciphered into the empty buffer; what send took is a prefix of them, the rest is kept and reading stops until it is gone |
| `Relay.Fwd.PsockWriteCallback` | radmcli/fwd.c:53-78 | what send takes comes off the front of the kept bytes; when none is left the tunnel is read again |
| `Relay.Fwd.PsockReadCallback` | radmcli/fwd.c:153-195 | the same from the plain socket, enciphering |
| `Relay.Fwd.TsockWriteCallback` | radmcli/fwd.c:126-151 | the same towards the tunnel |
| `Relay.Fwd.Release` | radmcli/fwd.c:38-51 | a released relay has no callback registered, and both its descriptors are closed and both its ciphers freed |
| `Relay.Fill` | radmsrv/fwd.c:80-89 | received bytes are deciphered where they landed and the cipher moves by their number |
| `Tunnel.TakeIntact` | radmsrv/fwd.c:145-185 | reading and partly sending a chunk keeps a direction intact: what was read is what was delivered, then the far buffer, then what the far cipher will make of the bytes in flight |
| `Tunnel.FlushIntact` | radmsrv/fwd.c:121-143 | so does sending kept bytes |
| `Tunnel.ReceiveIntact` | radmsrv/fwd.c:75-119 | so does receiving any number of bytes and partly handing them on |
| `Tunnel.DeliverIntact` | radmsrv/fwd.c:49-73 | so does handing on kept bytes |
| `Tunnel.StepInvariant` | radmsrv/radm.c:184-252 | no step of device, server or network, in any order and with any byte counts, breaks the invariant of the two directions and the hand-over |
| `Tunnel.RunInvariant` | radmsrv/radm.c:184-252 | nor does any run |
| `Tunnel.ParkedAsAnnounced` | radmsrv/radm.c:200-244 | in every run a device is parked only after its whole greeting was read, under the id and kind it announced, and with the two ciphers equal again |
| `Tunnel.DeviceWaitsForRelay` | radmsrv/radm.c:22-55 | in every run the device sends nothing beyond its greeting before the server has relayed or dropped it |
| `Tunnel.TunnelIntegrity` | radmcli/radmc.c:74-143 | in every run, both directions: what was delivered is a prefix of what was read, and the rest is exactly what is buffered or in flight; the device-to-server stream carries on beyond the greeting that had already advanced its ciphers |
| `Tunnel.QuietMeansComplete` | radmcli/radmc.c:74-143 | in one direction, beyond any prefix: when nothing is buffered or in flight everything read was delivered and the ciphers agree |
| `Tunnel.NothingLost` | radmcli/radmc.c:74-143 | in every run, for the device-to-browser direction with the greeting in front of it and for the browser-to-device direction: when nothing is buffered or in flight, all that was read was delivered and the two ciphers are equal |
| `Tunnel.Drains` | radmcli/fwd.c:53-195 | after any run in which both relays are at work, sending, receiving and handing on alone lead to a state in which nothing is buffered or in flight and, in both directions, everything read was delivered |
| `Tunnel.EndToEnd` | radmcli/radmc.c:74-143 | for every device, every text of its service and every non-empty text of a browser there is a run from the start that delivers both completely, the greeting in front of the one |
| `TunnelRelay.ServerReadsTunnel` | radmsrv/fwd.c:75-119 | the callback of the server's relay object is the tunnel's receiving: what it sends is what is delivered, and the object then holds the tunnel's server halves again |
| `TunnelRelay.ServerWritesBrowser` | radmsrv/fwd.c:49-73 | likewise handing on kept bytes to the browser |
| `TunnelRelay.ServerReadsBrowser` | radmsrv/fwd.c:145-185 | likewise reading from the browser |
| `TunnelRelay.ServerWritesTunnel` | radmsrv/fwd.c:121-143 | likewise sending kept bytes into the tunnel |
| `TunnelRelay.DeviceReadsService` | radmcli/fwd.c:153-195 | on the device, reading from the service |
| `TunnelRelay.DeviceWritesTunnel` | radmcli/fwd.c:126-151 | sending kept bytes into the tunnel |
| `TunnelRelay.DeviceReadsTunnel` | radmcli/fwd.c:80-124 | receiving from the tunnel |
| `TunnelRelay.DeviceWritesService` | radmcli/fwd.c:53-78 | and handing on kept bytes to the service |
| `Device.Radmc.Reset` | radmcli/radmc.c:33-38 | the waiting connection is unregistered and closed and the cipher let go |
| `Device.Radmc.PrintGreeting` | radmcli/radmc.c:175-181 | the greeting fits its 256-byte buffer and is RADMIN or TELNET, the id and a newline |
| `Device.Radmc.Reconnect` | radmcli/radmc.c:145-203 | a successful dial opens one socket, and the wire carries the greeting under a fresh cipher that stays with the connection; every failure ends the process |
| `Device.Radmc.TimeoutCallback` | radmcli/radmc.c:237-248 | an idle connection is closed before the next is opened: no descriptor is lost or kept twice; the process ends exactly when dialling fails |
| `Device.Radmc.Callback` | radmcli/radmc.c:74-143 | a relay is made exactly when a byte can be peeked and the local service answers; its two halves are those the tunnel starts with on the device, so it gets the waiting socket and the cipher that sent the greeting; and in all cases a new connection waits afterwards |
| `Registry.StrCmpLaws` | radmsrv/radm.c:69-85 | byte comparison of ids is antisymmetric and 0 only for equal ids |
| `Registry.StrCmpTransitive` | radmsrv/radm.c:159-175 | and transitive |
| `Registry.InsertSorted` | radmsrv/radm.c:159-175 | linking before the first greater id keeps the ids sorted |
| `Registry.ParkOwned` | radmsrv/radm.c:228-244 | parking closes and frees whatever the entry held, moves socket and cipher over, and leaves every resource with exactly one holder |
| `Registry.BrowserConnectsOwned` | radmsrv/radm.c:22-55 | so does handing the parked device to a relay |
| `Registry.DeleteOwned` | radmsrv/radm.c:307-332 | so does deleting an entry |
| `Registry.DropConnOwned` | radmsrv/radm.c:247-252 | so does dropping a pending connection |
| `Registry.StepOk` | radmsrv/radm.c:22-332 | no event - connection, data, browser, traffic or end of a relay, begin, firing and end of a timer pass, deletion - breaks the invariant of ownership, names, list and deletion timers |
| `Registry.StepDeciphers` | radmsrv/radm.c:22-332 | nor does any make a cipher disagree with the bytes its holder counts: each is the initial one advanced by them |
| `Registry.TouchTimed` | radmsrv/radm.c:77-80 | finding an entry stops and restarts its own timer, which then waits half an hour from this clock on; every other deletion timer waits as before |
| `Registry.TimerFiresTimed` | radmsrv/radm.c:102-106 | when the head of the timer queue expires, its entry has left the queue before the deletion runs; afterwards every entry that is left has its own timer, still due half an hour after its last line, and no deletion timer is left without entry |
| `Registry.ExactlyOneOwner` | radmsrv/radm.c:22-252 | in every reachable state each open descriptor and allocated cipher is referred to by exactly one pending connection, entry or relay, and nothing closed or freed is referred to |
| `Registry.ParkedExactlyWhileAccepting` | radmsrv/radm.c:50-54 | in every reachable state an entry listens for browsers exactly while it holds a device and a cipher, and that device is nowhere else and was never relayed |
| `Registry.RelayedOnce` | radmsrv/radm.c:48-54 | whenever an event gives a device a relay, or another one, that device was never relayed before |
| `Registry.ListInvariant` | radmsrv/radm.c:69-181 | in every reachable state, inside and outside a timer pass, the list is sorted by id and unique by id and kind; every entry has a live entry in the timer queue, timers of different entries differ, and no deletion timer belongs to an entry that is gone |
| `Registry.DeletionDue` | radmsrv/radm.c:69-181 | in every reachable state the deletion timer of an entry has one entry in the timer queue, which fires once, due 1,800,000,000 microseconds after the clock at which a line for it was last understood |
| `Registry.EntryStays` | radmsrv/radm.c:77-106 | in every reachable state no event but the deletion of its id and kind removes an entry while the clock of the pass is a millisecond or more before that time |
| `Registry.EntryChanges` | radmsrv/radm.c:22-332 | an entry that stays keeps its id, kind, listening socket and timer; it changes only when a line parks a device in it, and then that device and that clock are remembered, or when a browser takes the device |
| `Registry.ClockOfPass` | utils/timer.c:186-236 | the clock of a pass is the one read at its begin, and timers fire between its begin and its end only |
| `Registry.LineHeeded` | radmsrv/radm.c:184-252 | in every reachable state: an end of stream or a bad line closes and frees the connection, which no entry parks; a line without its end is kept; a whole line parks the device, with its socket, cipher and the clock, under the kind and id it names, exactly if such an entry is there or the system gives what a new one needs |
| `Registry.DeviceStays` | radmsrv/radm.c:22-332 | a pending connection changes only by its own reading, and a relay lasts until it is released; then its two sockets and two ciphers are closed and freed |
| `Registry.TimerRemovesOwnEntry` | radmsrv/radm.c:102-106 | when the head of the queue is due and expires and is a deletion timer, exactly its own entry goes, with everything that held and with the timer; any other timer removes nothing |
| `Registry.DeletesOwnEntry` | radmsrv/radm.c:307-332 | deleting by the id and kind of an entry removes that entry and no other |
| `Registry.CipherHandedOver` | radmsrv/radm.c:46-52 | in every reachable state the relay a browser gets has the parked socket, the cell whose cipher has run over exactly the line that asked for this entry, kind and id, and beside it a fresh cipher |
| `Registry.RelayCiphers` | radmsrv/radm.c:34-52 | in every reachable state the cipher of a relay towards the browser is the initial one advanced by all bytes received from the device, greeting included, and the one towards the device the initial one advanced by the bytes enciphered for it |
| `TunnelServer.ReadsPlay` | radmsrv/radm.c:184-252 | reading from a pending connection is, for its device, the tunnel's reading of the greeting, or the loss of the device |
| `TunnelServer.BrowserPlays` | radmsrv/radm.c:22-55 | a browser's connection to the entry of a device is the tunnel's hand-over |
| `TunnelServer.OtherKept` | radmsrv/radm.c:22-332 | an event about other devices, entries or timers leaves a device where it is, or loses it |
| `TunnelServer.MovePlays` | radmsrv/radm.c:22-332 | every event of the server, and everything at the device, is for one device a list of at most two actions of its tunnel: the server half of the tunnel is what the registry does |
| `TunnelServer.CoursePlays` | radmsrv/radm.c:22-332 | so every run of the whole server, with any number of other devices, is for one device a run of its tunnel |
| `TunnelServer.ParkedInRegistry` | radmsrv/radm.c:200-244 | while the registry has a device parked, that is under the kind and id it announced, with its whole greeting read and nothing else, and with the cipher state the device itself has |
| `TunnelServer.RelayedIntact` | radmsrv/radm.c:34-52 | while the registry relays a device, the two ciphers of that relay are those of a tunnel whose streams are intact in both directions |
| `RadmServer.RadmSrv.FindClient` | radmsrv/radm.c:69-85 | the walk along the linked list returns the first entry with that id and kind, its timer stopped and started anew, or null |
| `RadmServer.RadmSrv.NewClient` | radmsrv/radm.c:108-182 | the walk and the two pointer writes link the new struct before the first greater id, the list stays acyclic with every other struct in place, and its timer is created and started |
| `RadmServer.RadmSrv.ConnCallback` | radmsrv/radm.c:184-252 | the callback, on the connection's buffer and cipher, the list of structs and the timers, does what the event on the registry says: read on, park, create and park, or drop; while it reads on, buffer and cipher are those the registry has, and those of any number of other connections stay so |
| `RadmServer.RadmSrv.AcceptConnection` | radmsrv/radm.c:254-275 | an accepted device gets a connection struct with a zeroed buffer and a fresh cipher, which is the registry's new pending connection |
| `RadmConn.Connection.Receive` | radmsrv/radm.c:194-203 | received bytes are appended to the 256-byte buffer and deciphered where they landed |
| `RadmConn.Connection.Understand` | radmsrv/radm.c:205-221 | comparing tags and taking the string behind them in the zero-filled buffer is the verdict on the line |
| `RadmServer.RadmSrv.AcceptCallback` | radmsrv/radm.c:22-55 | the entry's struct gives up socket and cipher to a relay object that starts with both, exactly when the address is admitted, and the registry changes as the event says |
| `RadmServer.RadmSrv.Del` | radmsrv/radm.c:307-332 | the two searches, the bypassing of the struct and its release do what deletion on the registry says, with all pending connections as they were; 0 exactly when there was such an entry |
| `RadmServer.RadmSrv.TimeoutDel` | radmsrv/radm.c:102-106 | likewise for the entry whose timer expired |
| `RadmServer.RadmSrv.TimerFires` | radmsrv/radm.c:102-106 | a firing of the timer list: the head expires, and a deletion timer deletes the entry it was created for; pending connections stay as they were |
| `TimerQueue.TvCmpOdd` | utils/timer.c:26-38 | the comparison with truncating division is odd |
| `TimerQueue.TvCmpBounds` | utils/timer.c:26-38 | its sign is within one millisecond of the clock |
| `TimerQueue.TiesDoNotChain` | utils/timer.c:26-38 | ties are not transitive: concrete times for every second |
| `TimerQueue.StrictThenTie` | utils/timer.c:26-38 | a strict step followed by a tie or a strict step is never a step back |
| `TimerQueue.InsertSorted` | utils/timer.c:50-70 | insertion keeps every pair of the list in order, not only neighbours, although the order is not transitive |
| `TimerQueue.RemoveOk` | utils/timer.c:97-145 | after a removal the timer has no live entry and the queue is well-formed |
| `TimerQueue.DoOk` | utils/timer.c:278-340 | start, stop, set_timeout and destroy, inside or outside a pass, keep the queue well-formed: sorted, one live entry per timer, every timer allocated |
| `TimerQueue.PassOk` | utils/timer.c:186-260 | so does a whole pass, whatever its callbacks do |
| `TimerQueue.FiredFromArmed` | utils/timer.c:198-225 | what fires in a pass was armed when the pass began |
| `TimerQueue.FiresOnce` | utils/timer.c:198-225 | each timer fires at most once per pass, with any interval and any repetition, for every script of callbacks; the recursion it is about terminates |
| `TimerQueue.FiresInTime` | utils/timer.c:198-225 | nothing fires a millisecond or more early |
| `TimerQueue.NoneLeftOverdue` | utils/timer.c:200-225 | when the loop stops no armed entry is overdue by a millisecond or more |
| `TimerQueue.NoneLost` | utils/timer.c:200-225 | every armed entry fires, stays armed or was touched by a callback |
| `TimerQueue.OverdueFires` | utils/timer.c:186-236 | an entry overdue by a millisecond or more when the pass read its clock has fired, unless a callback touched its timer |
| `TimerQueue.DelayMeans` | utils/timer.c:238-259 | the poll delay is -1 iff nothing is armed; otherwise it is the whole milliseconds until the head is due, and 0 once it is |
| `TimerQueue.PollWakes` | utils/timer.c:238-259 | so, whatever the delay, poll neither waits for ever nor beyond any armed entry by a millisecond or more, unless it returns at once |
| `TimerQueue.DelayOversleepsNone` | utils/timer.c:238-259 | a positive poll delay oversleeps no armed entry by a millisecond or more |
| `TimerQueue.ComparisonFits` | utils/timer.c:26-38 | within 24 days the comparison stays in 32 bits |
| `TimerLive.TimeoutHolds` | utils/timer.c:306-332 | set_timeout leaves the timer with an entry that is due at the given time and fires once |
| `TimerLive.LastExpiry` | utils/timer.c:212-222 | after its last repetition a timer has no entry |
| `TimerLive.ExpireRepeats` | utils/timer.c:212-222 | while its repeat count lasts, an expired timer is due again its interval after the clock |
| `LinkedList.ChainInserted` | utils/timer.c:68-69 | linking a node between its neighbours gives an acyclic chain with it in place |
| `LinkedList.ChainDropped` | utils/timer.c:105-110 | bypassing a node gives the chain without it |
| `LinkedList.LinkAfter` | utils/timer.c:50-70 | the two pointer writes that link a node after another one, or in front |
| `LinkedList.Bypass` | utils/timer.c:102-115 | the one that takes a node out |
| `TimerLists.Unlink` | utils/timer.c:102-120 | the removal loop takes out the first entry of the timer and no other |
| `TimerLists.Timers.InsertTimer` | utils/timer.c:50-70 | the pointer search and link do what sorted insertion does to the values |
| `TimerLists.Timers.RemoveTimer` | utils/timer.c:97-145 | both loops together: the entry moves to the free list, the lists stay acyclic and disjoint and hold the same nodes |
| `TimerLists.Timers.PendTimer` | utils/timer.c:147-151 | the entry goes to the head of the pending list |
| `TimerLists.Timers.AddEntry` | utils/timer.c:153-184 | the due time, then pending or armed by the lock |
| `TimerLists.Timers.StartTimer` | utils/timer.c:284-304 | the queue value changes as specified; every node ever allocated is still in exactly one list |
| `TimerLists.Timers.SetTimer` | utils/timer.c:306-332 | likewise |
| `TimerLists.Timers.StopTimer` | utils/timer.c:334-340 | likewise |
| `TimerLists.Timers.DestroyTimer` | utils/timer.c:278-282 | likewise |
| `TimerLists.Timers.ExpireHead` | utils/timer.c:212-222 | likewise for the head of the armed list in a pass |
| `TimerLists.Timers.MergePending` | utils/timer.c:229-236 | likewise for the merge |
| `TimerLists.Timers.CheckTimeout` | utils/timer.c:186-260 | the whole pass with callbacks that operate on the lists: queue and fired entries are those of the value; the returned delay is -1 iff nothing is armed, and otherwise the whole milliseconds until the head is due, or 0; every node allocated before is still in exactly one of the three acyclic lists, and any other is new |
| `Scheduler.InsertTaskUnique` | utils/scheduler.c:88-107 | linking a task keeps (context, task) pairs unique and loses none |
| `Scheduler.TaskPlaced` | utils/scheduler.c:88-107 | where a new task stands: in front iff its number is less than the first one's; otherwise behind the first and every further task of its number or a greater one, up to the next less one |
| `Scheduler.EqualsInOrder` | utils/scheduler.c:88-107 | tasks of one number run in the order in which they were scheduled |
| `Scheduler.StaysInOrderIff` | utils/scheduler.c:88-107 | scheduling keeps a list in the order of its numbers iff the new number is less than all of them, or all but the first are equal to it: the search compares in opposite directions at the first entry and behind it |
| `Scheduler.InsertLeastFirst` | utils/scheduler.c:88-107 | scheduling keeps a task of least number in front |
| `Scheduler.ThirdRunsSecond` | utils/scheduler.c:88-107 | but of three tasks scheduled in the order of their numbers the third runs second |
| `Scheduler.DeleteTaskUnique` | utils/scheduler.c:112-139 | deleting a task removes exactly its pair |
| `Scheduler.DeleteAllUnique` | utils/scheduler.c:141-165 | deleting a context keeps pairs unique |
| `Scheduler.DeleteAllDrop` | utils/scheduler.c:141-165 | the two loops remove every task of the context, wherever it stands |
| `Scheduler.DeleteAllNone` | utils/scheduler.c:141-165 | and no task of another context |
| `Scheduler.ActGood` | utils/scheduler.c:53-165 | whatever clients, or a running task, do, waiting tasks keep the timer running |
| `Scheduler.StepInvariant` | utils/scheduler.c:29-51 | so does every step of a timer pass and of the scheduler callback in it |
| `Scheduler.RunInvariant` | utils/scheduler.c:29-165 | so does every run |
| `Scheduler.TasksKeepTimerRunning` | utils/scheduler.c:29-165 | from an empty start: in every reachable state a non-empty task list has an endlessly repeating timer with a live entry, and pairs are unique |
| `Scheduler.NothingLeftStops` | utils/scheduler.c:29-51 | in every reachable state the callback that leaves no task behind leaves the timer without an entry |
| `Scheduler.FiringIsCallback` | utils/scheduler.c:29-51 | a firing as a sequence of small steps is the callback as one function |
| `Scheduler.TaskScheduler.Add` | utils/scheduler.c:72-110 | the walk and the pointer writes on the task list, and the timer calls, do what the function says |
| `Scheduler.TaskScheduler.Delete` | utils/scheduler.c:112-139 | the search and the bypassing do; -1 exactly when nothing was deleted |
| `Scheduler.TaskScheduler.DeleteContext` | utils/scheduler.c:141-165 | both loops, relinking as they go, do |
| `Scheduler.TaskScheduler.Fire` | utils/scheduler.c:29-51 | likewise for the callback with a task that adds and deletes tasks |
| `Sha1.ApplyIsF` | utils/sha1.h:116-121 | the abbreviated f1 and f3 are the functions of section 5 of RFC 3174 |
| `Sha1.SubRound` | utils/sha1.h:173 | one renamed sub-round is one round of the rolled loop of section 6.1 |
| `Sha1.Expand` | utils/sha1.h:158 | a word computed in place in the 16-word ring is the word of the 80-word schedule |
| `Sha1.Rounds0to9` | utils/sha1.c:42-51 | ten unrolled rounds with rotated names are ten rounds of the rolled loop |
| `Sha1.Rounds70to79` | utils/sha1.c:119-128 | likewise for the last ten, on the expanded ring |
| `Sha1.SHSTransform` | utils/sha1.c:26-132 | the whole transform adds to the digest what section 6.1 of RFC 3174 computes |
| `ShaStream.LongReverse` | utils/sha1.c:137-151 | byte reversal on a little-endian machine and none on a big-endian one |
| `ShaStream.ShaContext.Update` | utils/sha1.c:153-197 | for any buffered rest and any new data the context stands for the concatenation |
| `ShaStream.ShaContext.Pad` | utils/sha1.c:204-227 | the padding of section 4 over one block or two |
| `ShaStream.ShaContext.FinalBlock` | utils/sha1.c:229-234 | the length words and the last transform |
| `ShaStream.ShaContext.ToBytes` | utils/sha1.c:243-253 | the digest words, most significant byte first |
| `ShaStream.ShaContext.Final` | utils/sha1.c:199-241 | the digest is the fold of the block transform over the padded whole message |
| `ShaStream.HashChunks` | utils/sha1.c:153-241 | for every way of cutting a message into calls the digest is that of the whole, on either byte order |
| `Sha1KnownAnswer.KnownAnswer` | utils/sha1.c:5-253 | the published digest of "abc" (section 7.3 of RFC 3174), round by round |
| `ShaStream.MakePads` | utils/sha1.c:274-320 | keys are hashed when longer than a block, and padded and XORed as section 2 of RFC 2104 says |
| `ShaStream.HmacKeys` | utils/sha1.c:274-320 | a long key stands for its hash, and a short one for itself with any zeros behind it that a block has room for |
| `ShaStream.HmacSha` | utils/sha1.c:255-329 | is HMAC of section 2 of RFC 2104 |
| `ShaStream.HmacSha2` | utils/sha1.c:331-411 | of a list of texts is HMAC of their concatenation |
| `Streaming.CountAdds` | utils/sha1.c:157-161 | the two-word bit count with carry is the length modulo 2^64 |
| `Streaming.FoldConcat` | utils/sha1.c:153-197 | hashing a then b is hashing b after what a left over |
| `Streaming.PaddedFold` | utils/md5.c:120-160 | what padding adds is one block or two, by the length of the rest |
| `Md5Stream.Md5Context.Update` | utils/md5.c:70-114 | for any buffered rest and any new data the context stands for the concatenation |
| `Md5Stream.Md5Context.Pad` | utils/md5.c:120-150 | the padding of section 3.1 of RFC 1321 |
| `Md5Stream.Md5Context.Final` | utils/md5.c:120-160 | the digest is the fold of the block transform over the padded whole message, sections 3.1 to 3.4 |
| `Md5Stream.HashChunks` | utils/md5.c:70-160 | for every way of cutting a message into calls the digest is that of the whole |
| `Md5KnownAnswer.KnownAnswer` | utils/md5.c:55-262 | the published digest of "abc" (section A.5 of RFC 1321), step by step |
| `Md5.ApplyIsMix` | utils/md5.c:162-168 | the abbreviated F1, and the same with its arguments turned, are the first two functions of section 3.4 of RFC 1321 |
| `Md5.Step` | utils/md5.c:170-172 | one step with the variables in changing roles is one step of the rolled definition |
| `Md5.Steps0to7` | utils/md5.c:190-197 | eight unrolled steps are eight steps of it; the other seven methods do the rest |
| `Md5.MD5Transform` | utils/md5.c:174-262 | the whole transform adds to the state what section 3.4 computes |
| `PollTable.RegisterRefines` | utils/app.c:130-170 | register_sock puts the key into the insertion-ordered map, in place if it is there |
| `PollTable.UnregisterRefines` | utils/app.c:119-128 | unregister_sock removes exactly the key, though a tombstone may match a descriptor of -1 |
| `PollTable.UnregisterObjectRefines` | utils/app.c:105-117 | unregister_object removes exactly one context |
| `PollTable.DefragmentRefines` | utils/app.c:172-193 | compaction with a positive counter keeps the map and leaves no tombstone |
| `PollTable.DefragmentKeepsIff` | utils/app.c:172-193 | on any table compaction keeps the registrations iff there is a tombstone or no row: without one it drops everything |
| `PollTable.NeverCallsUnregistered` | utils/app.c:573-613 | a pass never calls a key that is not registered, so none that an earlier callback took out, unless a later one registers it again |
| `PollTable.UnregisteredIsAbsent` | utils/app.c:105-128 | and unregistering takes keys out |
| `PollTable.CallsAscend` | utils/app.c:573-613 | rows are served in order, each at most once, no more than events |
| `PollTable.ReadySlotIsCalled` | utils/app.c:573-613 | a row that poll marked is called with its key if the count covers the marked rows before it and no callback disturbed it, and with events that, bit by bit, have 0x1 iff poll reported 0x01 or 0x02, 0x4 iff 0x04, 0x8 iff 0x08, 0x10 or 0x20, and no other bit |
| `PollRun.DispatchRefines` | utils/app.c:573-613 | a pass changes the map by exactly what its callbacks did, in order |
| `PollRun.StepRefines` | utils/app.c:105-193 | no operation, poll, pass or guarded compaction breaks the refinement |
| `PollRun.TableIsOrderedMap` | utils/app.c:93-193 | in every run the registrations are those of the insertion-ordered map after the same operations, and no key stands in it twice |
| `PollLoop.PfdTable.FindRegistered` | utils/app.c:93-103 | the search over the two arrays finds the first match, or -1 |
| `PollLoop.PfdTable.RegisterSock` | utils/app.c:130-170 | the arrays, grown by reallocation when full, change as the table value does; the result is the row of a key that was there, and the new count otherwise |
| `PollLoop.PfdTable.UnregisterSock` | utils/app.c:119-128 | likewise |
| `PollLoop.PfdTable.UnregisterObj` | utils/app.c:105-115 | likewise |
| `Objects.UnregisterObject` | utils/app.c:105-117 | together with the cancelling of its tasks: no live row and no waiting task of the object is left |
| `PollLoop.PfdTable.Grow` | utils/app.c:139-158 | reallocation keeps every row of both arrays |
| `PollLoop.PfdTable.DefragmentInPlace` | utils/app.c:172-193 | both loops, moving rows down in both arrays, compute the compacted table |
| `PollLoop.PfdTable.DispatchEvents` | utils/app.c:573-613 | the loop with callbacks that may reallocate the arrays makes the calls, and leaves the table, of the specification |
| `Sanitise.DropSegments` | libhttpd/protocol.c:951-976 | a pass of the first kind drops the segments equal to its word between the first and the last |
| `Sanitise.ClimbSegments` | libhttpd/protocol.c:982-996 | the third pass, with its remembered slash, resolves ".." segments against those written so far |
| `Sanitise.SanitiseSegments` | libhttpd/protocol.c:942-997 | the whole of it in terms of segments: "" and "." go, ".." goes up |
| `Sanitise.SanitiseClean` | libhttpd/protocol.c:942-997 | the result holds no "//", no "/./" and no "/../", for every input |
| `Sanitise.SanitiseFixes` | libhttpd/protocol.c:942-997 | a path is left alone iff it holds none of them |
| `Sanitise.SanitiseIdempotent` | libhttpd/protocol.c:942-997 | sanitising again changes nothing |
| `Sanitise.SanitiseLength` | libhttpd/protocol.c:942-997 | the result is no longer and keeps a leading slash |
| `Sanitise.ResolvesAll` | libhttpd/protocol.c:982-996 | the third pass goes up once for every ".." iff, at each one that follows another, the path is already at the top |
| `Sanitise.GoesUpForEach` | libhttpd/protocol.c:942-997 | the same for the whole function and every path string |
| `Sanitise.RunsGoUpOnce` | libhttpd/protocol.c:984-988 | so it does not for "/a/b/../../c", which becomes "/a/c" where going up twice gives "/c", though it does for "/../../a" |
| `Sanitise.RemoveSlashes` | libhttpd/protocol.c:951-961 | the in-place loop is the first pass, and writes nothing beyond the old string |
| `Sanitise.RemoveDots` | libhttpd/protocol.c:966-976 | likewise the second |
| `Sanitise.RemoveParents` | libhttpd/protocol.c:982-996 | likewise the third, which moves its write position back |
| `Sanitise.SanitiseUrl` | libhttpd/protocol.c:942-997 | the buffer ends up with the sanitised string |
| `UrlCodec.EscapeLength` | libhttpd/protocol.c:920-923 | the allocation is the length plus two for every unacceptable character |
| `UrlCodec.EscapeString` | libhttpd/protocol.c:913-940 | the result fills its allocation exactly, final NUL included |
| `UrlCodec.EncodedSafe` | libhttpd/protocol.c:891-940 | an encoded value has no blank, no separator, nothing but acceptable characters, "+" and "%" |
| `UrlCodec.UnescapesSpelling` | libhttpd/protocol.c:516-544 | unescaping gives back the bytes of every text that spells them, each as itself, as "+" or as "%" and two digits in either case |
| `UrlCodec.SlashEitherCase` | libhttpd/protocol.c:508-514 | so "%2F" and "%2f" are one byte |
| `UrlCodec.EncodeSpells` | libhttpd/protocol.c:891-940 | and the encoding of a text spells it |
| `UrlCodec.RoundTrip` | libhttpd/protocol.c:516-544 | unescaping undoes the encoding of section 2.1 of RFC 3986, for every byte string |
| `UrlCodec.UnescapeString` | libhttpd/protocol.c:516-544 | the in-place loop computes the specification, with one or both digits missing at the end too, and never writes beyond the old string |
| `Form.ScanPair` | libhttpd/protocol.c:579-610 | one printed pair leaves its name in the buffer, terminated, and its encoded value collected |
| `Form.ScanPrinted` | libhttpd/protocol.c:566-614 | parsing a printed form adds exactly its pairs, in order, whatever the name buffer held |
| `Form.FormRoundTrip` | libhttpd/protocol.c:566-614 | for every non-empty list of pairs every name ends up with exactly its values in order, and names are distinct |
| `Form.PlainName` | libhttpd/protocol.c:603-609 | a name without dots and leading blanks is kept as it is |
| `Form.BareName` | libhttpd/protocol.c:603-613 | a pair without "=" that ends a query, after any other pairs with or without "=", is stored under a name that starts with its own, and under exactly that iff the name ends in a dot or no earlier piece trails behind it: a condition on the names of the query |
| `Form.BareNameInside` | libhttpd/protocol.c:587-613 | the same for one in front of "&", whatever pieces come after, and these find it among those before them |
| `Form.BareNameTakesTail` | libhttpd/protocol.c:587-613 | so "abc=1&x" stores its second pair under "xbc" |
| `Form.BareNamesTakeTails` | libhttpd/protocol.c:587-613 | and "abc=1&xy&pq" its third under "pqc", past a second one that wrote no NUL |
| `Form.QueryOfPieces` | libhttpd/protocol.c:579-610 | every query without a NUL is made of pieces between "&", each a name and perhaps "=" and anything |
| `Form.NameKept` | libhttpd/protocol.c:587-613 | for every piece of any query: a piece with "=" keeps its name, and one without keeps it iff it ends in a dot or, of the earlier pieces that wrote behind it, the last one ended there |
| `Form.QueryStored` | libhttpd/protocol.c:566-614 | the parser on every query without a NUL whose names fit: piece by piece, each under the name that stands in the buffer, with the value after its last "=" |
| `Form.QueryFits` | libhttpd/protocol.c:566-614 | every access to the 50-byte name buffer stays inside it iff the names of the query, their dots spelled out, fit: exactly, for all bytes but NUL |
| `Form.LongNameLeaves` | libhttpd/protocol.c:603-609 | a name of 50 plain characters leaves it |
| `Form.AddPair` | libhttpd/protocol.c:591-595 | the value is unescaped where it stands and added |
| `Form.StoreNext` | libhttpd/protocol.c:581-610 | one round of the loop, on the query and the 50-byte name buffer, is one step of the specification; the buffer keeps its last NUL |
| `Form.StoreData` | libhttpd/protocol.c:566-614 | on every query that stays inside the name buffer, the in-place parser leaves the variables of the specification |
| `UrlCodec.UrlEncodeString` | libhttpd/api.c:50-66 | blanks become "+" in the escaped string |
| `FormVars.AppendValues` | libhttpd/api.c:152-185 | a value goes behind those its name has, other names keep theirs, and names stay distinct |
| `FormVars.Httpd.AddVariable` | libhttpd/api.c:152-185 | the pointer walk along both chains links the node where the value list wants it; no node stands in two places |
| `FormVars.Httpd.GetVariableByName` | libhttpd/api.c:85-98 | the lookup finds the head of that name, or null |
| `Base64.OctetsNext` | libhttpd/protocol.c:480-504 | a further sextet completes the octet that its phase says |
| `Base64.OctetsLength` | libhttpd/protocol.c:480-505 | k alphabet characters give floor(3k/4) octets |
| `Base64.Decode` | libhttpd/protocol.c:468-507 | the loop writes the octets of the alphabet characters, as many as the stated size admits, and nothing else |
| `Base64.JunkIgnored` | libhttpd/protocol.c:481-483 | characters outside the alphabet change nothing wherever they stand |
| `Base64.DigitValue` | libhttpd/protocol.c:439-459 | the table inverts the alphabet of RFC 4648, and has no value for the padding |
| `Base64.ValueDigit` | libhttpd/protocol.c:439-459 | and has values for nothing else |
| `Base64.Alphabet` | libhttpd/protocol.c:439-459 | the 64 characters in order: A to Z, a to z, 0 to 9, plus and slash |
| `Base64.KnownAnswers` | libhttpd/protocol.c:468-507 | the encoding that is decoded is that of section 4 of RFC 4648: test vectors of its section 10, and one for the last two characters |
| `Base64.RoundTrip` | libhttpd/protocol.c:468-507 | decoding inverts the encoding of section 4 of RFC 4648, for every byte string |
| `Base64.DecodesEncoded` | libhttpd/protocol.c:468-507 | with enough room the decoder gives back any byte string, with junk strewn in |
| `Utf8.Halves` | utils/utf8.c:12-31 | the arithmetic on the two halves of a unit gives the bit layout of section 3 of RFC 3629 |
| `Utf8.KnownAnswers` | utils/utf8.c:12-31 | an example of section 7 of RFC 3629, and how many bytes a unit takes |
| `Utf8.LongestFits` | utils/utf8.c:12-33 | k units fit iff k is at most the length of the longest fitting prefix |
| `Utf8.UnicodeToUtf8` | utils/utf8.c:4-38 | the encoder writes the encoding of the longest prefix that leaves room for the final zero, never a split character |
| `Utf8.Utf8ToUnicode` | utils/utf8.c:40-74 | given the room that Utf8.BytesStayInRoom is about, the decoder computes the specification, its uneven bound checks and its replacement unit included |
| `Utf8.StaysInRoom` | utils/utf8.c:40-74 | for encoded text the decoder stays within the room it is told iff the text is no longer than that, or one of the two units around the end of the room takes several bytes |
| `Utf8.DecodesTaken` | utils/utf8.c:40-74 | of any bytes, well formed or not, the decoder gives a prefix of the units they stand for, up to the first one of several bytes that finds no room |
| `Utf8.BytesStayInRoom` | utils/utf8.c:40-74 | so on any bytes it stays within the room iff their units do, or one of the two around the end of the room takes several bytes |
| `Utf8.AsciiExceedsRoom` | utils/utf8.c:60-66 | so for every room a text of single bytes exceeds it |
| `Utf8.DecodeUnit` | utils/utf8.c:47-71 | one unit is decoded whatever follows and whatever an earlier unit left behind |
| `Utf8.RoundTrip` | utils/utf8.c:4-74 | decoding encoded units gives them back up to the first one of several bytes that finds no room |
| `Utf8.DecodesPrefix` | utils/utf8.c:4-74 | decoding the encoder output gives the prefix iff there is room for every unit of several bytes; for all 16-bit units |
| `Utf8.Strlen16` | utils/utils.c:6-12 | the length up to the first zero unit |
| `Stun.PutGet32` | utils/stun.c:555-561 | a word printed in network order is read back |
| `Stun.HeaderBytes` | utils/stun.c:355-376 | a parsed message has the type, the length and the id that its first twenty bytes are, high byte first |
| `Stun.AddressBytes` | utils/stun.c:242-268 | byte by byte: which bytes of an address are pad, family, port and address, and which field each of the five types fills |
| `Stun.OtherBytes` | utils/stun.c:271-353 | the same for a change request, the strings and the hash |
| `Stun.UnknownBytes` | utils/stun.c:305-322 | and for the types of an UnknownAttribute, one for every four bytes |
| `Stun.ErrorBytes` | utils/stun.c:285-303 | and for an ErrorCode: padding, the class in byte 2, the number in byte 3, the reason |
| `Stun.ErrorPrinted` | utils/stun.c:592-602 | which is printed in that order, behind a length that is two too large |
| `Stun.PrintSize` | utils/stun.c:637-737 | every message fits in 2048 bytes and its length field is the total less 20 |
| `Stun.ParsePrinted` | utils/stun.c:378-543 | whole attributes are parsed one by one, whatever follows them |
| `Stun.OptionalIgnored` | utils/stun.c:531-538 | attributes of type above 0x7FFF change no field |
| `Stun.OptionalAttributes` | utils/stun.c:378-543 | inserting any number of them at attribute boundaries, with the length adjusted, changes nothing but the message length (section 11.2 of RFC 3489), even in front of malformed bytes; where the parse is not defined the value says nothing |
| `Stun.OptionalAttributesDefined` | utils/stun.c:378-543 | nor whether the parse is defined |
| `Stun.AddressBack` | utils/stun.c:242-268 | a printed address is parsed back with the family IPv4 |
| `Stun.RoundTrip` | utils/stun.c:355-737 | a message of addresses, a change request and strings is parsed back with the same fields and the computed hash |
| `Stun.RoundTripIff` | utils/stun.c:355-737 | every message that fits the arrays is parsed back with its own fields iff it has neither an ErrorCode nor an UnknownAttribute, whatever password and hash function |
| `Stun.NeedFits` | utils/stun.c:378-543 | no body changes more fields of a message than its size allows, attribute by attribute |
| `Stun.ParsesIff` | utils/stun.c:592-615 | among the messages that do not have both, the parser accepts exactly those that have neither; those with both are the business of RoundTripIff, BothParseIff, BothRejected and BothPlainIff |
| `Stun.PrintedDefinedIff` | utils/stun.c:592-615 | for such a message the parse is defined iff the reason has less than 254 bytes or nothing is printed after it |
| `Stun.BothParseIff` | utils/stun.c:592-615 | a message with both is accepted iff what follows the ErrorCode, read from two bytes on, is itself a list of acceptable attributes |
| `Stun.BothRejected` | utils/stun.c:592-615 | with no or one listed type, or more than four, it never is |
| `Stun.BothPlainIff` | utils/stun.c:592-615 | without ReflectedFrom and hash it is accepted iff the reason has less than 254 bytes and the four listed types are 0, one above 0x7FFF, 2 and anything |
| `StunCodec.EncodeAtrAddress4` | utils/stun.c:570-581 | the bytes at the write pointer are those of the attribute |
| `StunCodec.EncodeAtrError` | utils/stun.c:592-602 | likewise, with the declared length two too large |
| `StunCodec.EncodeAtrUnknown` | utils/stun.c:604-614 | likewise |
| `StunCodec.EncodeAttributes` | utils/stun.c:660-720 | all parts in order, an absent one writing nothing |
| `StunCodec.MaybeIntegrity` | utils/stun.c:721-730 | the hash covers what is printed so far, with the length still zero |
| `StunCodec.EncodeMessage` | utils/stun.c:637-737 | the buffer starts with the printed message, its length filled in last, and is otherwise untouched |
| `StunCodec.ParseAtrUnknown` | utils/stun.c:305-322 | two bytes are read for every four |
| `StunCodec.ParseAtrAddress` | utils/stun.c:242-268 | the fields are read one after the other; other sizes and families are rejected |
| `StunCodec.ParseAtrChangeRequest` | utils/stun.c:271-283 | likewise for a size of four |
| `StunCodec.ParseAtrString` | utils/stun.c:324-341 | the string and a zero are copied into the 256-byte field, for sizes that fit |
| `StunCodec.ParseAtrIntegrity` | utils/stun.c:343-353 | the hash of 20 bytes is copied |
| `StunCodec.ParseAtrError` | utils/stun.c:285-303 | the reason, with a size taken modulo 2^16, and its zero are copied into the 256-byte field, for the sizes of StunBounds.ErrorStays |
| `StunBounds.ErrorStays` | utils/stun.c:287-299 | those copies stay in the array of 256 bytes and in the body iff the declared size is at least 4 and less than 260, or so large that it is rejected first; below 4 the size wraps around |
| `StunBounds.OthersStay` | utils/stun.c:239-353 | no other attribute leaves its array or its body |
| `StunBounds.StaysIffDefined` | utils/stun.c:378-543 | a whole parse stays in its arrays and in the buffer iff it is defined, for every sequence of bytes |
| `StunBounds.EmptyErrorLeaves` | utils/stun.c:287-299 | a message of 24 bytes whose one attribute is an empty ErrorCode does not |
| `StunBounds.StrayByteReadsOn` | utils/stun.c:378-390 | a single byte behind the header is read as four, so three more must follow it in the buffer |
| `StunCodec.ParseMessage` | utils/stun.c:355-543 | on every buffer for which the accesses stay in bounds, the loop computes the specification and terminates; a remainder shorter than a header is rejected |

## Left out

- Sockets, accept, DNS, white lists, process exit and logging: their results are parameters, and a connection refused by the white list is an event that does not happen.
- The device starts a fresh tunnel after every hand-over; `Tunnel` follows one tunnel, from the greeting on.
- Tunnel.TunnelIntegrity: ids are taken to have no newline and to fit the buffer, as the configuration writes them; the kernel delivers each direction in order.
- Device.Radmc.Reconnect: a send of the greeting that succeeds sends all of it, since the source does not look at how much was taken; its error return is never used, because every failure path exits.
- Registry.StepOk: open descriptors are positive, allocation returns a cell that is not in use, and create_timer a struct that is not in use.
- RadmServer.RadmSrv.Del: the list must not be empty, since the source reads its first entry unconditionally.
- RadmServer.RadmSrv.ConnCallback: which structs are connections, relays and timer contexts is known to the poll table and the timers only, so the proof keeps them, with the open descriptors and the allocated cells, in one registry value beside the list; a callback is given the struct it is registered with. The line is taken before its newline is overwritten.
- RadmServer.RadmSrv.TimerFires: a pass is followed firing by firing; that its loop stops is `TimerLists.Timers.CheckTimeout`.
- TunnelServer.MovePlays: what arrives at a connection is the next on its wire, and a relay's callback reads when its buffer is empty, as `Relay` shows.
- Allocation failure anywhere, and the wrap-around of the endless repeat counter after 2^32 firings.
- TimerQueue.TvCmpBounds: on unbounded integers; `TimerQueue.ComparisonFits` says when 32 bits suffice. The running average of the jitter is not modelled.
- TimerQueue.FiresOnce: callbacks may do anything to timers but re-enter the pass itself.
- ShaStream.ShaContext.Update: one call takes less than 2^31 bytes, as its count is an int; words are 32 bits.
- Md5.MD5Transform: the 64 constants are those of section 3.4 of RFC 1321 as numbers; that they are the integer parts of sines is not proved. Md5Stream is for little-endian byte order.
- PollTable.RegisterRefines: registered descriptors are non-negative.
- PollLoop.PfdTable.UnregisterObj: the rows only; with the tasks it is `Objects.UnregisterObject`.
- That a freshly registered socket waits for the next poll is not claimed: its row keeps whatever poll result its memory held.
- Sanitise.SanitiseSegments: no equality with section 5.2.4 of RFC 3986 is claimed; `Sanitise.GoesUpForEach` says when going up agrees.
- Form.StoreData: names with their dots spelled out must fit the 50-byte buffer with a NUL, which by `Form.QueryFits` is exactly when the source stays in it; names and values are copied, so the model keeps them as values in the variable nodes.
- Base64.Decode: the table is indexed by unsigned characters.
- Utf8.Utf8ToUnicode: the result array must hold what comes out, since single bytes are stored without a check; `Utf8.BytesStayInRoom` says for which bytes the announced room is enough.
- StunCodec.ParseMessage: buffers on which the source would leave an array or the buffer are excluded, which by `StunBounds.StaysIffDefined` is exactly when the parse is defined; what a failed parse leaves in the message, and what earlier attributes leave in the tails of fixed arrays, is not modelled.
- StunCodec.EncodeMessage: the caller provides the room; the source checks the buffer against the header only. Verbose output is left out, and the hash function is a parameter.
- Stun.BothParseIff: for reasons of less than 254 bytes; a longer one is declared with a size the parser is not defined for or rejects. With a ReflectedFrom or a hash behind it and two to four listed types, whether such a message is accepted depends on their bytes, as this lemma says.
- The event and descriptor-selection layer, SOCKS, tracing, configuration, the ELF and debug helpers, the generic containers and the fixed tables: plumbing, or easier forms of the list reasoning above.
