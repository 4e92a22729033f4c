# Freifunkmanager: a verified model

Freifunkmanager keeps the desired settings of mesh nodes. Browsers edit them over
a websocket, a database stores them, periodic respondd reports bring in what each
node shows of itself, and SSH pushes the differences to the node. This project
models the parts where these pieces meet and proves what holds over every input,
every interleaving or every run.

`dafny verify dfyconfig.toml` checks the whole project.

## How it is built

The stateful code is modelled by classes whose methods change fields in place
(`NodeRecord`, `Link`, `Database`, `YanicDb`, `WebsocketServer`, `SocketModule`,
`Debouncer`, `Store`, `Page`). Each such method equates the new state with a
function of the old one. What the program promises is then proved about those
functions, mostly over whole runs: a run is a fold of the step function over an
arbitrary schedule, so every lemma about it speaks of all schedules.

| file | part of the program |
|---|---|
| `Channels.dfy` | channel table, lookups in any map order, split into bands |
| `Floats.dfy` | six-decimal coordinates: printing, reading back, comparing |
| `Nodes.dfy` | reports, rows, overlay, comparison, time filter, address choice |
| `Overlay.dfy` | overlay, comparison and filter, said of single fields |
| `Ssh.dfy` | device, commands, the selective push and its deferred `wifi` |
| `PushScript.dfy` | what a push issues and leaves under every pattern of failures |
| `Server.dfy` | the three handlers that share the node table, as atomic steps |
| `TableLaws.dfy` | what each handler writes, column by column, and what follows over runs |
| `Convergence.dfy` | what repeated reports and pushes do to a device |
| `Backoff.dfy` | SSH back-off over runs of all handlers |
| `Replication.dfy` | client caches against the table |
| `Interleaving.dfy` | the handlers cut into database statements, in any schedule |
| `Pinger.dfy` | goroutines appending to shared slices without a lock |
| `Socket.dfy` | the browser's send queue, handshake and reply callbacks |
| `OptimisticEdits.dfy` | optimistic edits with rollback over replaced objects |
| `Debouncing.dfy` | the debouncer as a timed state machine |
| `PingWindow.dfy` | the bounded ping windows and the arrays behind them |
| `ChannelStatistics.dfy` | the channel table of the statistics page |

Step functions also have laws that say the outcome of a step in single columns,
fields, frames or cells and not through the functions the step is made of, so
that it is fixed independently of how it is written: `Overlay.UpdatedOverlays`, `PushScript.PushPlaysScript`,
`TableLaws.ReportStores` and `EditStores`, `Interleaving.ReportStatements` and
`EditStatements`, `Pinger.StartTurn`, `WriteTurn` and `StoreTurn`,
`Socket.TurnFrames`, `SentIffOpen`, `ReplyRunsCallback`, `TurnHandsOver` and
`TurnChanges`, `OptimisticEdits.EditSendsItsObject`, `ServerStoresWhole`,
`ReplyWrites` and `BroadcastReplaces`, `Replication.NewsReachEveryone`,
`ConnectHears` and `DeliveryStores`.

What is taken from outside comes in as a parameter: clock readings, the visiting
order of a Go map, the kind of an IP address, whether the n-th event on an SSH
link succeeds (an arbitrary function, the oracle), fresh message ids, schedules.
A failing SSH command changes nothing on the device.

## Promises that hold only in part

These are stated with the exact condition under which the code keeps them.

* A round of successful commands brings a node into sync exactly if the altitudes
  already agree and each band already agreed or has a radio and a permitted
  channel of that band (`GoodRoundConverges`). Altitude is compared but never
  pushed; without a permitted channel the tx power is not pushed either.
* A node whose desired channel is permitted but belongs to the other band never
  converges and has its radios restarted by every all-successful round
  (`RestartsEveryRound`, `SteadyRestartExample`).
* A channel configured while an earlier desired channel was current, but never
  brought up, can come up later: a successful push keeps a band that showed the
  desired channel exactly if it restarts no radio or that channel is also the
  configured one (`StaleConfigSurfaces`, `StaleConfigExample`). After such a
  start one all-successful round more is needed (`TwoGoodRoundsConverge`).
* Only the desired tuple is safe from interleaving: saving a stale row can remove
  a blacklist mark (`StaleSaveDropsMark`), and this can happen exactly while an
  edit holds a row read without the mark (`NodeStaysMarkedIff`).
* Unlocked appends lose results (`OverlapLosesResult`): exactly the rounds in which
  two appends to one list overlap (`CompleteIffSerialised`).
* After an accepted reply the stored field shows the accepted value exactly if the
  edited object is still the live one or that value is what the client was told
  before; else the next message repairs it (`ReplyShowsConfirmed`,
  `ReplyToReplacedObject`).
* Edits of one field that overlap can leave a rejected value behind for good:
  exactly if the latest edit of the field on the shown object was made while it
  did not show the table's value (`QuietFieldShowsTableIff`, `OverlappingEdits`).
* The trailing run of the debouncer is a run of the function that started the
  timer, not of the one passed last (`CoalescedCallsAreServed`,
  `CoalescedTargetIsLost`).
* Removing a listener removes the one registered last (`DelEventRemovesIffLast`), so
  a listener stays exactly while dels do not outnumber adds (`KeepsPlaceIff`).
* The pinger's barrier and its end depend on its two queries seeing the same rows
  (`BarrierIffCountCovers`).
* The handshake is first on a page's first session only: on opening a later
  connection two messages leave at once exactly if an earlier session was
  initialised (`OpeningSendsAtOnce`).
* The retry queue is last-in first-out (`TicksEmptyTheQueue`).
* The address loop makes the intended choice, and keeps a routable address, exactly
  if no empty text is the last routable match before another match
  (`AddressSelection`, `RoutableIsKept`).

## Model

| member | source | states |
|---|---|---|
| `Channels.TableIsValid` | runtime/channel.go:18-85 | in the source's table a frequency names at most one channel and zero is no channel |
| `Channels.TableBands` | runtime/channel.go:18-107 | in the source's table exactly the channels up to 14 are 2.4 GHz ones, and every frequency follows from its channel number |
| `Channels.FrequencyLookupInvertsTable` | runtime/channel.go:100-107 | the search gives one answer for every map order, finds exactly the frequencies of the table, and inverts it |
| `Channels.FoldedIsLastPermitted` | runtime/node.go:24-34 | the channel kept for a band is the last reported permitted channel of that band, and zero exactly if there is none |
| `Channels.SplitChannels` | websocket/hd_connect.go:37-48 | for every map order the two lists are duplicate-free, disjoint, and hold exactly the permitted channels, each in its band |
| `Floats.TextDenotesQuantised` | runtime/node.go:159-168 | the six-decimal text denotes the float moved to the nearest millionth, sign of zero included |
| `Floats.SameTextIffSameMillionth` | runtime/node.go:161-167 | two coordinates compare equal exactly if they are the same signed millionth |
| `Floats.IeeeEqualMeans` | runtime/node.go:169 | altitudes are compared as numbers: zeros are equal whatever their sign, and what is not a number equals nothing |
| `Floats.RoundMicroToEven` | runtime/node.go:161-167 | the millionth is the nearest one, the even one halfway |
| `Floats.Format6Shape` | runtime/node_ssh.go:31-36 | the text of a finite coordinate is a sign exactly if negative, zero included, digits, a point, six digits |
| `Floats.ExactParseReadsBack` | runtime/node_ssh.go:31-36 | what is asked of the parser at the node can be met: reading the text exactly meets it |
| `Floats.DoubleReadsBack` | runtime/node_ssh.go:31-36 | and so does rounding to double precision, for every coordinate up to 4503599626 in magnitude |
| `Floats.LocationRoundTrip` | runtime/node_ssh.go:30-38 | printing, storing, parsing this coordinate with an error below half a millionth and printing again gives the same text |
| `Nodes.GetWirelessSettings` | runtime/node.go:20-56 | the loop is deterministic for every order of every lookup; each channel is zero or permitted and in its own band |
| `Nodes.NodeRecord.Update` | runtime/node.go:109-142 | overlaying a report replaces exactly the parts the report carries; without a report nothing changes |
| `Nodes.NodeRecord.UpdateAddress` | runtime/node.go:118-126 | the address loop in place |
| `Nodes.NewNode` | runtime/node.go:79-98 | a freshly learned node compares as in sync, whatever its report lacks, unless its altitude is not a number |
| `Nodes.AddressSelection` | runtime/node.go:118-126 | the address is the last routable prefix match, else the prior one, else the first match; exactly unless an empty text intervenes |
| `Nodes.AddressIdempotent` | runtime/node.go:118-126 | the same report applied twice changes the address no further |
| `Nodes.RoutableIsKept` | runtime/node.go:123-125 | a routable address is given up for a link-local one exactly if the last routable match is an empty text followed by another match |
| `Overlay.FoldedIsLastOfBand` | runtime/node.go:20-56 | the kept channel is the last reported one of its band, above or not above 5000 MHz, that the EU setting lets count |
| `Overlay.UpdatedOverlays` | runtime/node.go:109-142 | column by column and field by field: what the report says is shown, the rest is kept, last-seen time set, mark and tuple untouched, address the intended one |
| `Overlay.LearnedShows` | runtime/node.go:79-98 | a first report is stored and shown as it is, with its gaps at their zero values, without a mark |
| `Overlay.CheckIsFieldwise` | runtime/node.go:143-190 | the comparison is equality of names, channels, powers, signed millionths of the position, and altitude as a number |
| `Ssh.Link.SshUpdate` | runtime/node_ssh.go:11-131 | the push, statement by statement, with its early returns and deferred calls |
| `Ssh.Link.UpdateBand` | runtime/node_ssh.go:48-88 | query, tx power, channel and offline SSID of one band, and whether a restart is due |
| `Ssh.Link.RunOnUptime` | runtime/yanic.go:76-80 | the probe of a new node: connect, run, close |
| `Ssh.PushBeforeDeferred` | runtime/node_ssh.go:18-128 | every path of a connected push is commands and queries only, then the deferred calls; the flag is set exactly if a channel was pushed |
| `Ssh.DeferredRestart` | runtime/node_ssh.go:39-46 | on every path `wifi` is issued exactly once if a channel was pushed and never otherwise, last before the close |
| `PushScript.PushPlaysScript` | runtime/node_ssh.go:11-131 | under every pattern of failures a connected push asks for the second radio exactly if the first query was answered, issues exactly the due commands in order whatever became of earlier ones, and leaves what the successful ones make of the device |
| `PushScript.SystemFieldsAfterPush` | runtime/node_ssh.go:18-38 | per field: its command is issued exactly if the values differ, and afterwards the device has the desired value if that command succeeded, else the old one |
| `PushScript.RadioFieldsAfterPush` | runtime/node_ssh.go:39-128 | the same for tx power, channel and SSID of each band's radio; the running channel moves with a successful restart only |
| `Server.YanicDb.InsertNode` | runtime/yanic.go:36-85 | the report handler with its database, SSH and broadcast effects and its early returns |
| `Server.WebsocketServer.NodeHandler` | websocket/hd_node.go:12-60 | the edit handler: refusals, save or create, answer, broadcast |
| `Server.WebsocketServer.ConnectHandler` | websocket/hd_connect.go:14-35 | what a connecting client is sent: the nodes the filter lets through, then the two channel lists |
| `Server.BroadcastIsStored` | runtime/yanic.go:44-84 | a handler broadcasts at most one node, and then the stored tuple of it; every other stored tuple stays |
| `TableLaws.ReportStores` | runtime/yanic.go:47-71 | a report of a stored node, column by column: last-seen time and address always, the mark exactly on a failed connection, nothing else; and when it is broadcast |
| `TableLaws.ReportLearns` | runtime/yanic.go:72-84 | the row, the mark, the probe and the broadcast of a first report |
| `TableLaws.EditStores` | websocket/hd_node.go:12-60 | when an edit is answered true, and that it then changes the tuple of one row, no other column and no other row; what is broadcast |
| `TableLaws.SnapshotTells` | websocket/hd_connect.go:18-30 | one message per visible row, in the order of the query, each the stored row with the latest report overlaid |
| `TableLaws.ReportedNodeIsVisible` | runtime/yanic.go:49-55 | over every run, until t + blacklistFor a node that reported at t is passed over only while marked |
| `Convergence.FaithfulOverlay` | runtime/node.go:109-142 | a truthful full report shows exactly what the device observes of itself, in any order of its airtime entries |
| `Convergence.InSyncIffNothingOut` | runtime/node.go:143-157 | the comparison succeeds exactly if none of the seven fields disagrees |
| `Convergence.DirectedStep` | runtime/node_ssh.go:18-128 | one command towards the desired settings keeps everything that agreed and leaves the unmendable fields the same; a command that touches no channel does so on any device |
| `Convergence.PushTowards` | runtime/node_ssh.go:11-131 | a push loses no ground whatever commands fail and whatever was believed about the device, if its configured channels are the running or the desired ones or the push touches no channel |
| `Convergence.PushShape` | runtime/node_ssh.go:18-128 | the device after an all-successful push, radio by radio: channel, tx power and offline SSID, restarted exactly if some band's channel was pushed |
| `Convergence.PushExactly` | runtime/node_ssh.go:11-131 | a push in which every command succeeds leaves exactly the unmendable fields out of sync |
| `Convergence.RoundEffect` | runtime/yanic.go:47-70 | a truthful report of a known node leaves the wire alone or is exactly one push of the stored settings |
| `Convergence.NeverLosesGround` | runtime/yanic.go:47-70 | over every run of truthful reports of the node and any other handlers, and every failure pattern: settings fixed, out-of-sync set never grows, unmendable set constant, and configured channels that are the running or the desired one stay so |
| `Convergence.NoReportLosesGround` | runtime/yanic.go:47-70 | the same whatever the reports say, stale, partial or false, once every configured channel is the running or the desired one, which then stays so |
| `Convergence.GoodRoundConverges` | runtime/yanic.go:54-70 | after one unfiltered report with an all-successful push exactly the unmendable fields are out of sync, for the rest of the run whatever fails; the comparison succeeds if and only if altitudes and bands allowed it at the start |
| `Convergence.OneTruthfulRoundConverges` | runtime/yanic.go:54-70 | the same among any other reports: one truthful unfiltered report with an all-successful push is enough |
| `Convergence.NothingRemains` | runtime/node_ssh.go:55-128 | nothing is unmendable exactly if altitudes agree and each band agreed or has a radio and a permitted channel of its own |
| `Convergence.SshExactlyWhenOutOfSync` | runtime/yanic.go:54-70 | a handler of the run touches the wire if and only if it is an unfiltered report of the node while a field is out of sync |
| `Convergence.QuietOnceInSync` | runtime/yanic.go:58-68 | once in sync no later handler of the run touches the wire: no SSH, no `wifi` |
| `Convergence.GoodRoundSettles` | runtime/node_ssh.go:39-128 | from any device, one unfiltered all-successful round leaves one that fits the settings, so the rows above hold of the rest of the run |
| `Convergence.TwoGoodRoundsConverge` | runtime/yanic.go:47-70 | from any device, after two unfiltered all-successful rounds with anything between them exactly the fields unmendable after the first are out of sync, for the rest of the run |
| `Convergence.StaleConfigSurfaces` | runtime/node_ssh.go:39-88 | a band that shows the desired channel still does after a successful push exactly if no `wifi` is issued or the configured channel is the desired one |
| `Convergence.StaleConfigExample` | runtime/node_ssh.go:39-88 | a device and a push that loses the desired channel of a band this way |
| `Convergence.SteadyRestart` | runtime/node_ssh.go:55-128 | with only unmendable fields left, a round restarts the radios exactly if a band with a radio wants a permitted channel of the other band |
| `Convergence.RestartsEveryRound` | runtime/yanic.go:58-64 | over a run: after one all-successful round, every later one restarts the radios exactly if a band with a radio wants a permitted channel of the other band, and then the node is never in sync |
| `Convergence.SteadyRestartExample` | runtime/node_ssh.go:55-128 | a device and a push that restarts the radios with nothing left to mend |
| `Backoff.MarkPersists` | websocket/hd_node.go:33-47 | over every run after a recorded failure the node stays marked; no handler, no edit in particular, removes the mark or moves it back |
| `Backoff.BackoffHolds` | runtime/yanic.go:54-64 | after an SSH failure recorded at t no handler opens SSH to the node, publishes it on a report or a connect, or pings it before t + blacklistFor, over every run; an edit is broadcast all the same |
| `Backoff.MarkBlocks` | runtime/node.go:103-107 | a marked node is passed over by reports, connects and pings until the mark is old enough |
| `Replication.NextAgrees` | websocket/hd_node.go:35-57 | every step of server, connection and client keeps the caches in agreement |
| `Replication.ReplicasAgree` | webroot/js/store.js:39-42 | in every reachable state, applying the pending messages gives every client the stored tuple of every node it was sent on its connection |
| `Replication.SnapshotIsExact` | websocket/hd_connect.go:18-30 | a connecting client is told about exactly the stored nodes the time filter lets through |
| `Replication.DrainAppend` | webroot/js/store.js:39-42 | of the messages about a node the last one decides, and without one the cache entry stays |
| `Replication.NewsReachEveryone` | runtime/yanic.go:68-84 | what a handler broadcasts is queued for every connected client, and for no one else |
| `Replication.ConnectHears` | websocket/hd_connect.go:18-30 | a connecting client hears of exactly the nodes seen lately and not lately marked |
| `Interleaving.EditsSurvive` | websocket/hd_node.go:30-47 | in every interleaving the stored tuple is that of the latest effective edit, else the learned one; each answer is true exactly if that write took effect, nobody is answered twice, and an edit has been answered exactly if it is done or has only its broadcast left |
| `Interleaving.StepKeepsTable` | runtime/yanic.go:44-84 | no statement of any handler breaks that link between table and history |
| `Interleaving.SoloReportIsAtomic` | runtime/yanic.go:36-85 | a report handler that is not interrupted does what the atomic one does |
| `Interleaving.SoloEditIsAtomic` | websocket/hd_node.go:12-60 | an edit handler that is not interrupted does, broadcasts and answers what the atomic one does, whatever report it finds |
| `Interleaving.AloneIsScheduled` | runtime/yanic.go:36-85 | four turns of one handler in a row, as in the two rows above, are part of a schedule |
| `Interleaving.MarkIsSafeIffNoStaleRow` | websocket/hd_node.go:27-40 | a stored blacklist mark survives every continuation that does not mark the node anew if and only if no edit of the node is about to save a row read without that mark |
| `Interleaving.NodeStaysMarkedIff` | websocket/hd_node.go:27-40 | a marked node stays marked in every continuation if and only if no edit of it is about to save a row read unmarked |
| `Interleaving.MarkIsSafeIff` | websocket/hd_node.go:27-40 | the common form of these two, for any choice of marks to be kept |
| `Interleaving.RowIsSafeIff` | websocket/hd_node.go:27-40 | the same for any property of the columns outside the tuple: it survives unless a report ends it, if and only if no edit is about to save a row read without it |
| `Interleaving.ReportStatements` | runtime/yanic.go:44-84 | what each statement of a report reads and writes: the columns it names, in the row as it is then |
| `Interleaving.EditStatements` | websocket/hd_node.go:27-47 | what each statement of an edit reads and writes: the whole row as read, with the new tuple |
| `Interleaving.StaleSaveDropsMark` | websocket/hd_node.go:33-40 | a whole run, from its start, in which saving a stale row removes a stored blacklist mark |
| `Pinger.StepKeeps` | runtime/ping.go:91-97 | reading a header, writing a cell or growing, and storing a header keep every cell at the one index its goroutine writes |
| `Pinger.WriteTurn` | runtime/ping.go:91-97 | an append writes into the shared array while there is room, and into a longer copy when there is none |
| `Pinger.RacyCollection` | runtime/ping.go:71-108 | in every interleaving: all goroutines done at zero, lists without duplicates, disjoint, eligible only, skipped count not negative |
| `Pinger.BarrierIffCountCovers` | runtime/ping.go:74-99 | with a count taken by a second query: waiting is a barrier and the counter never negative exactly if it counts no fewer rows, and the round can end exactly if it counts no more |
| `Pinger.SerialisedCollection` | runtime/ping.go:71-108 | without overlapping appends every eligible row is listed exactly once, on the right list, and the skipped count is exact |
| `Pinger.CompleteIffSerialised` | runtime/ping.go:71-108 | a completed round lists every eligible row if and only if no two appends to one list overlapped, and exactly then the skipped count is right |
| `Pinger.OverlapLosesResult` | runtime/ping.go:93-97 | two overlapping appends of two answering rows leave one entry |
| `Socket.SocketModule.SendJson` | webroot/js/socket.js:54-68 | send or queue in place |
| `Socket.SocketModule.OnMessage` | webroot/js/socket.js:70-92 | handshake reply, or run and drop the registered callback, or let every listener of the subject hear the message |
| `Socket.SocketModule.OnOpen` | webroot/js/socket.js:46-51 | the two messages of a new connection go through the same gate |
| `Socket.SocketModule.Retry` | webroot/js/socket.js:132-137 | the interval handler in place |
| `Socket.SocketModule.DelEvent` | webroot/js/socket.js:158-164 | drop the last listener, whichever was named |
| `Socket.HeardByRegistered` | webroot/js/socket.js:94-104 | in every run the listeners of a subject are those its own sets, adds and dels leave, and they heard, in order, exactly the messages that were neither handshakes nor awaited replies |
| `Socket.KeepsPlaceIff` | webroot/js/socket.js:147-164 | until its subject is set anew, an added listener keeps its place exactly as long as later dels of the subject do not outnumber later adds |
| `Socket.ListenerHears` | webroot/js/socket.js:94-104 | and as long as it does it hears every message of its subject that is for listeners |
| `Socket.DelUndoesAdd` | webroot/js/socket.js:151-164 | a del, whichever listener it names, takes back exactly the latest add |
| `Socket.DelEventRemovesIffLast` | webroot/js/socket.js:158-164 | the named listener is what is removed exactly if none is registered or it is the last one |
| `Socket.AccountsHold` | webroot/js/socket.js:54-92 | over every run the calls made are exactly those queued plus those sent, only handshake frames precede the handshake, no callback runs twice |
| `Socket.FirstFrameIsReply` | webroot/js/socket.js:75-85 | every handshake frame carries the page's one connection id and, unless that is the empty text, leaves under it; the first frame of the page is such a reply |
| `Socket.TurnFrames` | webroot/js/socket.js:27-31 | every frame leaves under its message's own id, or under the fresh one of the turn if that is empty, and its callback waits under that id |
| `Socket.SessionInitIff` | webroot/js/socket.js:75-85 | the session is initialised exactly if some handshake arrived on an open socket of this page |
| `Socket.ConnectionIdIsStable` | webroot/js/socket.js:76-80 | once set the connection id never changes and equals what is stored |
| `Socket.OpeningSendsAtOnce` | webroot/js/socket.js:46-51 | on opening, auth_status and connect are sent at once if a session was initialised before, and queued otherwise |
| `Socket.CallbacksRunOnce` | webroot/js/socket.js:65-92 | with unique ids of messages that await a reply every callback sent out is waiting or has run, exactly once |
| `Socket.FreshUuidsMakeUniqueIds` | webroot/js/socket.js:17-31 | fresh uuids make message ids unique |
| `Socket.FreshPageRunsCallbacksOnce` | webroot/js/socket.js:62-92 | so with fresh uuids every callback sent out is waiting or has run, exactly once |
| `Socket.TickMovesOneOrNone` | webroot/js/socket.js:132-137 | a retry that cannot be sent changes nothing, otherwise the newest entry leaves |
| `Socket.TicksEmptyTheQueue` | webroot/js/socket.js:132-137 | once connected, one tick per entry empties the queue, newest entry first |
| `OptimisticEdits.Page.FocusOutHandler` | webroot/js/view/list.js:120-131 | the edit changes the shown object in place and sends it whole |
| `OptimisticEdits.Page.ReplyHandler` | webroot/js/view/list.js:125-130 | a rollback writes to the object of its edit only; on a replaced object it leaves the live one alone |
| `OptimisticEdits.Page.BroadcastHandler` | webroot/js/socket.js:196-198 | a broadcast makes a new object the live one |
| `OptimisticEdits.EditSendsItsObject` | webroot/js/view/list.js:120-131 | an edit writes one field of the object it was made on, live or replaced, and sends all fields of that object |
| `OptimisticEdits.Reachable` | webroot/js/view/list.js:120-214 | for a user who leaves one edit per field outstanding, the bookkeeping that ties table, pending messages, outstanding edits and objects together holds in every reachable state |
| `OptimisticEdits.QuietClientShowsTable` | webroot/js/view/list.js:120-131 | with all messages delivered every field shows the table's value, or its rollback value is the table's |
| `OptimisticEdits.ReplyShowsConfirmed` | webroot/js/view/list.js:125-130 | after a reply the field shows the last confirmed value exactly if rejected, or still live, or the accepted value is what the client was told before; else the next message repairs it |
| `OptimisticEdits.ReplyToReplacedObject` | webroot/js/view/list.js:123-128 | a run in which an accepted edit of a replaced object leaves the old value on show |
| `OptimisticEdits.QuietFieldShowsTableIff` | webroot/js/view/list.js:120-214 | for edits that overlap in any way: with all messages delivered and no edit of a field outstanding, it shows the table's value exactly if its latest edit on the shown object was made while it showed that value |
| `OptimisticEdits.OverlappingReplies` | webroot/js/view/list.js:123-128 | after both replies to two overlapping edits of any field the value confirmed last is shown exactly if the first was accepted or the value that counts was there before |
| `OptimisticEdits.OverlappingEdits` | webroot/js/view/list.js:123-128 | the smallest run with two overlapping edits, any field, values and answers: with everything delivered the table's value is shown exactly if one was accepted or the first changed nothing; else the first rejected value sticks |
| `Debouncing.Debouncer.Call` | webroot/js/lib.js:38-52 | run at once and start the timer, or count the call as skipped |
| `Debouncing.Debouncer.OnTimer` | webroot/js/lib.js:41-48 | the timer callback, which may run its own function again |
| `Debouncing.TraceLaw` | webroot/js/lib.js:38-52 | over every history runs are a timeout apart, nothing is skipped without a pending timer, and the calls made are those run at once, those served by trailing runs and those waiting |
| `Debouncing.TimerLaw` | webroot/js/lib.js:38-52 | in every history a pending timer is due exactly one timeout after the end of the last run, and no run starts sooner than that after the one before |
| `Debouncing.EachCallIsServed` | webroot/js/lib.js:38-52 | each call of a history is run at once, or waits through all further calls until the next firing, no earlier than due, runs the function that started the timer |
| `Debouncing.IdleFiring` | webroot/js/lib.js:41-50 | a firing without skipped calls runs nothing and leaves no timer, so the next call runs at once |
| `Debouncing.CoalescedCallsAreServed` | webroot/js/lib.js:41-50 | calls during a timeout run nothing and get exactly one run when the timer fires, of the function that started it |
| `Debouncing.CoalescedTargetIsLost` | webroot/js/lib.js:46 | a different function passed during the timeout is not run |
| `PingWindow.Store.GetNode` | webroot/js/store.js:8-21 | a shown node carries the live window array, or an empty one of its own |
| `PingWindow.Store.UpdateNode` | webroot/js/store.js:39-42 | replacing a node leaves every window as it is |
| `PingWindow.Store.UpdateNodePingTo` | webroot/js/store.js:44-58 | the window array, changed in place, stays the ten newest entries of the unbounded history of its node, or all of them |
| `PingWindow.Store.UpdateNodePing` | webroot/js/store.js:60-67 | a ping message records its positive and then its negative results for known nodes |
| `PingWindow.RoundGrowth` | webroot/js/store.js:60-67 | a round adds exactly the occurrences of a node, so at most one entry for disjoint duplicate-free lists |
| `ChannelStatistics.UpdateChannelTable` | webroot/js/view/statistics.js:59-98 | row i counts the i-th channels; for duplicate-free lists the counts of a band add up to the nodes on a listed channel |
| `ChannelStatistics.CountOnIsSize` | webroot/js/view/statistics.js:85-92 | the count of a row is the number of nodes configured for its channel in its band |
| `ChannelStatistics.CountOnServerList` | websocket/hd_connect.go:37-48 | for a list as the server makes it, in any order, the nodes on a listed channel are those on a permitted channel of the band |
| `ChannelStatistics.ServerChannelTable` | webroot/js/view/statistics.js:66-97 | server and page together: the counts of a band add up to the nodes on a permitted channel of that band |

## Left out

- SSH transport, keys and dialling: an event on a link succeeds or fails as the oracle says; that an unparsable address dials the local host is not modelled.
- Shell quoting of pushed hostnames and owners: they are opaque texts, and a command is all-or-nothing.
- The text output of the radio query: its result is a radio or none, so trimming the newline is not modelled.
- A radio set to a channel of the other band is taken not to come up; what real drivers do with it is not modelled.
- gorm beyond First, Create, Save, Update and Find: writing updated columns back into the struct in memory and database errors other than a missing row, a duplicate key or a failing write.
- Ssh.Link.SshUpdate: the blocks the source writes out once per band are one method called twice.
- Convergence: a run fixes the desired settings of the node it is about; every other handler may occur in it. An edit of this node starts a new run, from whatever device the old one left.
- Server.WebsocketServer.NodeHandler: the body of an edit is the node id and the desired tuple; further columns a client may send reach only the broadcast, never the table.
- Replication.ReplicasAgree: speaks of the desired fields only, since the observed fields of a broadcast are as old as its report; and of clients that do not edit, since an editing client writes to its own store first (`OptimisticEdits` is about those).
- Interleaving.EditsSurvive: makes no claim on blacklist, last-seen and address columns, which a stale save overwrites.
- Pinger.RacyCollection: header loads and stores and the copy of a grown array are atomic; torn reads are not modelled.
- Pinger: the timer loop around a round and its stop flag.
- Socket: notifications, rendering and the reconnect delay; what callbacks and listeners send or register themselves counts as separate later events.
- OptimisticEdits: one node and its five fields editable in the list; edits reach the server at once and in order, as on an established session.
- OptimisticEdits.Page.FocusOutHandler: the input element and its displayed value.
- PingWindow: JSON parsing, and createNode, which only builds a constant.
- Debouncing: a target function that calls the debouncer again from inside.
- ChannelStatistics: the DOM; sorting of the received lists, which only permutes them.
- Login, settings and logout handlers: being logged in is an input of the edit handler.
- FromNowAgo, maps, routing, notifications and the remaining views: rendering only.
- The SSH manager's own blacklist: its insertion branch cannot be reached.
