# A verified model of the TCP-over-pub/sub bridge

The bridge carries TCP, HTTP and WebSocket connections over a Zenoh bus. An
*import* bridge accepts clients, an *export* bridge dials backends, and each
connection is a pair of keyed sample streams between them. This project models
the parts of it whose correctness is argued in comments, and proves what those
comments promise. Where the code does less than its comments say, the project
keeps the code, shows an input, and proves exactly when the promise holds.

`dafny verify dfyconfig.toml` checks everything.

## How it is laid out

| files | what they model |
|---|---|
| `Streams.dfy`, `Text.dfy` | bytes, samples, and string operations |
| `Relay.dfy`, `RelayConnection.dfy`, `Delivery.dfy` | one direction of a relayed connection as a step system, then both bridges with tokens, watchdogs and outcomes, over all runs; what reaches the other side, and what brings a connection down |
| `Backpressure.dfy`, `RelayTasks.dfy`, `Transport.dfy` | the same as it runs: the reception channel, the relay tasks and the transport readers as objects whose methods are proved to take the steps above |
| `ClaimOrder.dfy`, `Election.dfy`, `Scope.dfy` | claims and their order, one exporter's view as an object, and all exporters of a scope with samples under way between them |
| `ClientMap.dfy`, `HighAvailability.dfy`, `Failover.dfy` | the export loop with its lock-protected client map as an object, election and client maps together, and how service resumes after whatever happened |
| `HttpParser.dfy`, `RequestLog.dfy`, `ExchangeBook.dfy`, `ExchangePipes.dfy`, `Selection.dfy`, `Multiroute.dfy` | the contract assumed of the HTTP parser, and the per-request exchange loop over it: its events, its bytes turn by turn, which input a select takes, and the loop as an object |
| `BytewiseParser.dfy`, `ExchangeLosses.dfy` | a small parser that meets the contract, and runs of the exchange loop with it that lose or misplace bytes |
| `HeadReader.dfy` | head readers with their replay buffer |
| `Dns.dfy`, `Keys.dfy`, `Spec.dfy` | routing keys, the key space, and the command-line specs |
| `ErrorSignal.dfy`, `Notification.dfy` | the recoverable error signal, then together with the connection it is about: which broken connections the client is told of |

Concurrency is modelled as state machines over atomic steps: a run is any
sequence of steps, so a statement about `Run(.., steps)` is about every
interleaving. What a task does between two awaits is one step. The environment
(sockets, bus, clocks, the parser) appears as step arguments, scripts of inputs,
or records of functions with a stated contract.

## What is assumed

- The bus keeps the order of samples of one key, and reports a gap to the
  receiving side, which trips that side's token (`Relay.Step.Lose`).
- Liveliness samples about one claim reach one observer in order; samples about
  different claims may overtake each other (`Scope`).
- The HTTP parser accepts a prefix of what it is offered, emits framed events
  whose raw bytes partition what it accepted, and stays poisoned or tunnelled
  once it is (`HttpParser.Lawful`). That the re-offer loops terminate rests on
  `HttpParser.Progressing`; that heads do not depend on segmentation rests on
  `HeadReader.Decides`; that a response tail is gone before the next payload
  rests on `HttpParser.Absorbing` and `HttpParser.Announces`. `BytewiseParser`
  meets all of them at once (`BytewiseIsLawful`, `BytewiseAbsorbs`,
  `BytewiseDecides`).
- Printing and parsing a socket address are inverse, and no address is printed
  with a comma or as a URL (`Spec.Inverse`).
- A liveliness probe that answers, answers truthfully (`ErrorSignal`).
- Text is ASCII.

## Where the code and its comments differ

- `src/backpressure.rs:14-16` says bytes are never dropped in Stream mode. On
  overflow the sample is dropped and the token tripped, and the relay's select
  may still take a later sample: `GapCanReachTheBackend` is a run in which the
  backend is sent the first and third of three bytes. The samples taken are the
  first ones published exactly when none was taken past a dropped one
  (`PrefixExact`), which holds while the token is untripped (`ByteExact`) and
  under a select that prefers the cancellation (`PrefixIfCancelFirst`).
- A reset shuts the writer down (`src/export/bridge.rs:804`,
  `src/import/bridge.rs:292`), and a writer that failed or was aborted drops its
  write half (`src/export/tcp.rs:26,54`); over TCP both are the FIN of a clean end
  (`src/transport.rs:112-120`), although `src/import/bridge.rs:335-339` means a
  truncated stream not to look like one: `ResetLooksClean`. `FinIsWhole` says
  exactly when a FIN on the wire, whatever ended the writer, follows the whole
  stream.
- `fold_outcome` (`src/export/bridge.rs:568-580`) does not consult the token, so
  a connection whose backend got a truncated stream with a clean end can be
  counted as completed: `TruncatedYetCompleted`. `ExportCompleted` says when it
  is truly complete. Although `src/export/bridge.rs:386-390` means anything but a
  clean completion to reach the client, that client is then never told
  (`TruncatedUnsignalled`): a truncated stream goes unsignalled if and only if the
  connection counts as completed and a sample was dropped (`UnsignalledExactly`).
- `{scope}/clients/` and `{scope}/exporter-claim/` subscriptions also match the
  availability token of a host of that very name: `WatchesAreExactWhen`. For
  claims this is harmless: `PhantomClaimIsHarmless`.
- Zero padding keeps claims in age order up to 10^20 milliseconds and no further:
  `OldestWinsExactly`.
- In the exchange loop the refused tail of a response is overwritten by the next
  sample (`src/import/multiroute.rs:789-799`): `TailIsOverwritten` is a run.
  `ResponseConserved` says exactly when the response's bytes are conserved, and
  `AbsorbingConserves` that they are with a parser whose re-offers empty the tail.
- After a protocol switch the splice leaves behind client bytes that were framed
  and queued: `SwitchLeavesBytes` is a run, `SwitchForwardsRest` the exact
  condition.
- Backend events queued behind a deferred request head are shown as the response
  to that request (`src/import/multiroute.rs:724-745`), whichever backend sent
  them: `StrayReplyIsQueued` is a run, and `OwnResponse` says when an exchange
  shows only its own response.
- The head readers check the size cap after each read. `IndependenceIsExact` says
  for which heads the result can then depend on how the bytes were cut; with a
  parser that has the cap itself, as `src/import/connection.rs:329-335` builds it,
  only the kind of refusal can: `RoutingIsIndependent`.
- The election keeps two exporters from holding the role once they have heard of
  each other, not their tasks from running side by side: the new one may start on
  a client while the old one still drains (`DrainOverlaps`). `DoubleServiceExactly`
  gives the condition: two tasks of a client run if and only if some exporter has
  one of them still to join while another tracks the client or has one to join
  too. `NoDoubleService` follows where no drain is outstanding.

## Model

| member | source | states |
|---|---|---|
| Relay.NextKeeps | src/export/bridge.rs:716-813 | every step of reader, bus, queue, writer and watchdog keeps the direction's invariant: published is what was read, nothing is missing unless the token says so, written is what was taken |
| Relay.ExactWhileUntripped | src/import/bridge.rs:309-355 | while the receiving token is untripped, taken ++ queued is exactly what arrived in order, and the bytes written are a prefix of the bytes read at the other end |
| Relay.FinIsComplete | src/export/bridge.rs:771-811 | an end of stream passed on with nothing dropped comes after every byte of a cleanly ended source was written |
| RelayConnection.RunKeeps | src/import/bridge.rs:239-373 | the invariants of both directions and both watchdogs hold after any interleaving, for any queue capacities |
| RelayConnection.ByteExact | src/import/bridge.rs:179-355 | in every run, each side with an untripped token has written a prefix of what the other side read, the initial buffer first |
| RelayConnection.CleanFin | src/import/bridge.rs:250-302 | a half-close passed on under an untripped token means the source ended cleanly and all of it was written |
| RelayConnection.CleanFinExact | src/import/bridge.rs:180-186 | that holds in every run if and only if the initial buffer is not an empty one, which no caller passes |
| RelayConnection.ImportCompleted | src/import/bridge.rs:394-398 | an import connection counted as completed had both directions end cleanly, all published, all delivered, nothing dropped |
| RelayConnection.FoldIsExact | src/export/bridge.rs:568-580 | completed if and only if both ends are Eof; failed if and only if an end is an error or a task did not join |
| RelayConnection.ExportCompleted | src/export/bridge.rs:836-867 | a completed export connection wrote the whole client stream if and only if nothing was dropped, for which an untripped token suffices |
| RelayConnection.FinSeesEverything | src/export/bridge.rs:771-788 | once the marker was taken, bytes written equal bytes read exactly when no sample was dropped |
| RelayConnection.Teardown | src/export/bridge.rs:815-839 | an error trips the token, a tripped token ends both tasks within the drain budget, and no task of an untripped half-open connection is reset or aborted |
| RelayConnection.TimeGoesOn | src/export/bridge.rs:829-834 | a due watchdog ends both tasks of its bridge by its two aborts, so time can always go on |
| RelayConnection.PrefixIfCancelFirst | src/export/bridge.rs:774-806 | if no sample is taken after the token trips, what was written stays a prefix of what was read, whatever happens |
| RelayConnection.PrefixExact | src/export/bridge.rs:771-811 | in every run, token tripped or not, the samples a writer took are the first ones published if and only if it took none past a dropped one; then what it wrote is a prefix of what was read |
| RelayConnection.FinIsWhole | src/export/bridge.rs:780-806 | a FIN on the wire, whatever ended the writer, follows the whole stream if and only if everything read was published, every sample that carries bytes was taken and the last one taken was wholly written, as it always is after an end of stream or a reset |
| RelayConnection.ResetLooksClean | src/export/bridge.rs:803-806 | a run in which the backend sees a FIN and none of the bytes read |
| RelayConnection.GapCanReachTheBackend | src/export/bridge.rs:773-806 | with a one-sample queue there is a run in which the backend gets the first and third byte of three |
| RelayConnection.TruncatedYetCompleted | src/export/bridge.rs:867-874 | and one in which a truncated stream ends cleanly and the connection is counted as completed |
| Delivery.TakesOldest | src/export/bridge.rs:771-774 | a writer with samples waiting takes the oldest, and nothing else changes |
| Delivery.DropsExactly | src/backpressure.rs:50-69 | an arriving sample is dropped if and only if it was lost, its writer has ended or the queue is full; otherwise it is queued behind the others |
| Delivery.Delivers | src/export/bridge.rs:771-806 | from any state with a writer at work and nothing lost, arrivals, takes and writes alone bring everything published to the other side, the end included |
| Delivery.StuckIsThrough | src/export/bridge.rs:771-806 | a writer at work that no arrival, take or write moves any more has written everything published: no schedule strands a byte |
| Delivery.LossIsNoticed | src/export/bridge.rs:667-688 | a sample the bus lost is, whatever happens, dropped under a tripped token once its turn has come |
| Delivery.DeliversUp | src/export/bridge.rs:771-806 | in every run, what was published of the client's stream can reach the backend by the export side's own steps, while its writer works under an untripped token |
| Delivery.DeliversDown | src/import/bridge.rs:250-302 | the same from the backend to the client |
| Delivery.WholeConnection | src/import/bridge.rs:239-398 | any two byte streams, however cut into reads, can be relayed whole, for any queue sizes: every byte arrives, both ends are passed on, both bridges count a completion |
| Delivery.ResetsExactly | src/import/bridge.rs:200-345 | a bridge's token is tripped if and only if it was told to reset, one of its own reads, publishes or writes failed, its channel closed, or a sample for it was missed or found the queue full; the import bridge counts the connection as reset exactly then |
| Delivery.FailsExactly | src/export/bridge.rs:568-580 | an ended export connection counts as failed if and only if one of its tasks met an error or had to be aborted |
| RelayTasks.Direction.Perform | src/import/bridge.rs:250-355 | whichever task, callback or watchdog runs next, the object takes exactly the corresponding step |
| RelayTasks.Direction.RunSchedule | src/import/bridge.rs:239-373 | any schedule ends in the folded state; under an untripped token written is a prefix of read, and an end passed on means all of it |
| Relay.FoldKeeps | src/import/bridge.rs:239-373 | the direction's invariant survives any sequence of steps of tasks, bus and environment |
| Backpressure.StreamIsExact | src/backpressure.rs:50-69 | in Stream mode, after any calls, the token is tripped if and only if something was dropped; until then received ++ queued is what was offered, within capacity |
| Backpressure.TripsExactly | src/backpressure.rs:50-69 | the token is tripped if and only if some call offered a sample to a present receiver whose queue was full |
| Backpressure.RoomIsUsed | src/backpressure.rs:50-58 | in either mode a sample that finds room is queued, and nothing is reset or shed |
| Backpressure.TelemetrySheds | src/backpressure.rs:71-82 | in Telemetry mode every sample is received, queued or counted as shed, in order, and the token is never tripped |
| Backpressure.CancelToken.Cancel | src/backpressure.rs:63-69 | the first cancel sets the time, later ones change nothing |
| Backpressure.RxChannel.Offer | src/backpressure.rs:50-88 | the callback has exactly the effect of the channel's specification, in every mode and fill state |
| Backpressure.RxChannel.Recv | src/backpressure.rs:44 | receiving takes the oldest sample |
| Transport.WsReader.ReadData | src/transport.rs:145-167 | the next non-empty data frame; an empty read only at Close or the stream's end, an error only at an error; skipped frames lose no data |
| Transport.WsReader.ReadAll | src/transport.rs:138-168 | repeated reads give all data frames before the first Close, error or end, in order, none empty |
| Transport.TcpReader.ReadData | src/transport.rs:80-93 | hands off exactly the bytes read and keeps none; empty if and only if the stream has ended; an error takes nothing |
| Transport.SkipsAreInvisible | src/transport.rs:153-163 | pings, pongs, raw frames and empty data frames, anywhere, change neither the data nor the ending |
| Transport.AllDataIsRead | src/transport.rs:145-167 | the data read of binary and text frames is the concatenation of their payloads, up to a Close, an error or the stream's end, each with its ending |
| ClaimOrder.OrderIsAge | src/export/election.rs:62-75 | string order of claims is order of (timestamp, session id, uuid), for ids of any length |
| ClaimOrder.AgeIsTotal | src/export/election.rs:66-75 | claims are equal only if time, session and uuid are, and of two distinct claims exactly one is the older |
| ClaimOrder.OldestWinsExactly | src/export/election.rs:14-18 | oldest wins for all timestamps below a bound if and only if the bound is at most 10^20 |
| ClaimOrder.IdOrder | src/export/election.rs:71-75 | joined with the separator, ids of different lengths still compare as ids first |
| ClaimOrder.LessTotal | src/export/election.rs:173-175 | of two different strings exactly one is smaller |
| ClaimOrder.LessTransitive | src/export/election.rs:173-175 | the order of claims is transitive |
| Election.AtMostOneElected | src/export/election.rs:172-175 | one claim set elects at most one claim |
| Election.SomeoneElected | src/export/election.rs:172-175 | a non-empty claim set elects some claim |
| Election.Claim.Apply | src/export/election.rs:99-113 | a Put adds the claim, a Delete removes it |
| Election.Claim.DrainPending | src/export/election.rs:115-121 | every waiting sample is applied, in order |
| Election.Claim.IsActive | src/export/election.rs:123-127 | the role after every delivered sample was applied |
| Election.Claim.WaitUntilActive | src/export/election.rs:135-158 | ends at exactly the first wake after which this claim is elected, at which the subscriber dies or at which a shutdown comes, and tells which; nothing delivered is skipped |
| Election.Claim.ChangedStillActive | src/export/election.rs:160-169 | the role after the next sample and all behind it; a dead subscriber keeps the role and the view |
| Scope.InvNext | src/export/election.rs:76-113 | every subscribe, declare, leave, delivery, look, partition and heal keeps: an observer's view with the samples on their way to it is the truth about each claim |
| Scope.UntoldUntilServed | src/export/election.rs:61-127 | an exporter active beside a smaller live claim it is not partitioned from still has that claim's Put on its way |
| Scope.SettledElectsOne | src/export/election.rs:116-175 | with everything delivered and looked at, exactly one exporter is active, the smallest live claim |
| Scope.DemotionNeedsOlder | src/export/election.rs:226-232 | a look demotes only if the Put of a smaller claim is among the samples; Puts of larger claims and Deletes never demote |
| Scope.Sticky | src/export/election.rs:14-18 | an active exporter that nothing smaller is known or under way to stays active through any joins, leaves, partitions and reorderings that show it no smaller claim |
| Scope.SettledIsSecure | src/export/election.rs:14-18 | the exporter elected in a settled state is such an exporter |
| Scope.BothUntilTold | src/export/election.rs:24-27 | any two exporters can be active at once before they hear of each other |
| Scope.FailoverCompletes | src/export/election.rs:19-22 | from any reachable state without partitions, deliveries and looks alone (`Settling`) reach a settled one in which exactly the smallest remaining claim is active |
| Scope.PartitionsResolve | src/export/election.rs:24-27 | from any reachable state whose exporters have declared their claims, partitioned or not, heals, then deliveries and looks, reach a settled one in which exactly the smallest claim is active |
| ClientMap.NextKeeps | src/export/bridge.rs:250-364 | every step of loop and tasks keeps: a task at work is tracked, or was sent, or is about to be sent, its one cancel |
| ClientMap.OneTaskPerClient | src/export/bridge.rs:290-326 | in every run at most one uncancelled task works for a client id, it is the tracked one, and no finished task is tracked |
| ClientMap.SendNeverWaits | src/export/bridge.rs:308-319 | every channel is sent at most one cancel, so its single slot is free and the send cannot block the loop |
| ClientMap.IdleOutsideServing | src/export/bridge.rs:85-121 | outside the serving phase, no client is tracked and no task is left uncancelled |
| ClientMap.EntryIsStable | src/export/bridge.rs:883-897 | only its Delete, a drain or its own task's end removes a client's entry: duplicate Puts and a stale self-removal leave the entry and its task alone |
| ClientMap.CancelsHaveCauses | src/export/bridge.rs:250-288 | a task is cancelled only if its client disappeared or the exporter drained, and aborted only at a drain's deadline |
| ClientMap.ServedAttends | src/export/bridge.rs:136-246 | a client that was there or appeared, has not disappeared and whose own task has not removed itself since, is tracked; and no other is |
| ClientMap.ExportLoop.DispatchClientConnect | src/export/bridge.rs:302-364 | check and insert are one step: the client is tracked afterwards, by a new task at work if it was not before, and a duplicate changes nothing |
| ClientMap.ExportLoop.RemoveIfCurrent | src/export/bridge.rs:883-897 | removes the entry if and only if it is the caller's own |
| ClientMap.ExportLoop.HandleClientDisconnect | src/export/bridge.rs:908-922 | takes the entry, lets tasks run, sends the cancel, and is ready for the next event |
| ClientMap.ExportLoop.TakeEntries | src/export/bridge.rs:254-256 | every tracked task is taken once, in any order, and the map is empty |
| ClientMap.ExportLoop.DrainAllClients | src/export/bridge.rs:250-288 | afterwards every task that was tracked has ended or was aborted, whatever the tasks do during the sends and joins |
| ClientMap.ExportLoop.ServeActive | src/export/bridge.rs:136-246 | every existing client and every event before the first demotion or shutdown is handled, in order, and nothing after it: every client still there is tracked unless its task removed itself, and no other is; a shutdown leaves all tracked tasks ended |
| ClientMap.ExportLoop.RunExportLoop | src/export/bridge.rs:85-121 | the whole role loop is a run of the steps, so all of the above holds of it; turn after turn, it serves all that came before the event that ends a turn, stands by again after a demotion with every tracked task over, and stops or goes on serving only for the causes the source has |
| ClientMap.ExportLoop.RunTurn | src/export/bridge.rs:86-117 | one turn: stopped while standing by or by a failed setup, otherwise served up to the first demotion or shutdown, drained, and left in the phase that event calls for |
| HighAvailability.RunKeeps | src/export/bridge.rs:85-121 | elections and client maps together keep: a loop that starts serving or serves is elected, or has been told otherwise and drains next |
| HighAvailability.ServesOnlyUntold | src/export/bridge.rs:226-232 | an exporter works for clients only while elected or about to drain, and while elected each smaller visible claim's Put is still on its way to it |
| HighAvailability.OneServerPerClient | src/export/bridge.rs:226-232 | settled and with no demotion outstanding, each client has at most one uncancelled task in the whole scope, at the exporter with the smallest claim |
| HighAvailability.DoubleServiceExactly | src/export/bridge.rs:250-288 | settled and with no demotion outstanding, a client whose token never went has two running tasks in the scope, cancelled ones included, if and only if some exporter has one of them still to join while another tracks the client or has one to join too |
| HighAvailability.NoDoubleService | src/export/election.rs:3-7 | so with no drain outstanding such a client has at most one running task, at the exporter with the smallest claim |
| HighAvailability.DrainOverlaps | src/export/bridge.rs:113-119 | while a demoted exporter drains, another can already be working for the same client |
| Failover.ServiceResumes | src/export/election.rs:19-22 | from any reachable state, partitioned or draining, whose exporters have declared their claims and were not shut down, heals, deliveries, looks and the loops' own steps lead to a settled one in which the exporter with the smallest claim serves any client that appears, all others stand by and nothing is left to drain |
| Failover.Settles | src/export/bridge.rs:85-121 | whatever they are at, the loops can finish it and look again, and the election settles underneath them: exactly the smallest claim is elected |
| RequestLog.IsolatedLater | src/import/multiroute.rs:628-665 | what was published for a request is a prefix of its samples, however the parser's log goes on |
| RequestLog.SamplesNonEmpty | src/import/multiroute.rs:656-664 | no sample of a request is empty, so none passes for the teardown marker |
| RequestLog.TakePast | src/import/multiroute.rs:621-628 | acting on an event past deferred ones loses, duplicates and reorders nothing of either side |
| ExchangeBook.RequestIsolation | src/import/multiroute.rs:584-665 | over a whole connection, with pipelining, refusals and early responses, what was published for request k is a prefix of request k's own head, body and trailer bytes |
| ExchangeBook.CapHolds | src/import/multiroute.rs:689-720 | no body or trailers event takes the bytes written above the cap |
| ExchangeBook.SwitchForwardsRest | src/import/multiroute.rs:848-866 | after a switch the backend gets exactly the rest of the client's stream if and only if no queued client event carries bytes |
| ExchangeBook.DeferStep | src/import/multiroute.rs:737-739 | setting a next-request event aside keeps every event accounted for, in order |
| ExchangeBook.ShowStep | src/import/multiroute.rs:666-726 | relaying a response event keeps the exchange's books: bytes written, cap, close announcements, completion |
| ExchangeBook.ShownEvents | src/import/multiroute.rs:628-748 | what an exchange shows is, event by event, what was queued from the backend when it began and then what the parser framed since |
| ExchangeBook.ShownBytes | src/import/multiroute.rs:628-748 | and byte by byte, if none were lost, the bytes accepted but not acted on before it and then its own payloads |
| ExchangePipes.ResponseConserved | src/import/multiroute.rs:610-619 | over any turns of an exchange, backend bytes accepted ++ pending are those there before ++ all payloads received, if and only if every payload found the tail before it taken care of |
| ExchangePipes.AbsorbingConserves | src/import/multiroute.rs:616-619 | with a parser that, drained, takes at least half of the largest payload, nothing of the response is ever lost |
| ExchangePipes.RunBooks | src/import/multiroute.rs:789-801 | the payloads counted are those taken, and bytes are lost exactly when a pending tail was overwritten |
| ExchangePipes.ReofferProgresses | src/import/multiroute.rs:610-615 | while a parser that makes progress accepts, every turn shortens the client's refused tail |
| HttpParser.PushAllStops | src/import/multiroute.rs:106-116 | bytes are offered until they are gone or refused |
| ExchangeBook.ClosesExactly | src/import/multiroute.rs:931-948 | a response closes the connection if and only if only the close delimits its body, its Connection value has a token that spells close, in any case and with blanks around, or it is HTTP/1.0 and none spells keep-alive |
| Selection.TakesInOrder | src/import/multiroute.rs:771-845 | whichever select arms are enabled, the input taken and those left are the inputs there were, in order, on either side; a backend's input is passed over only where no exchange is open |
| Multiroute.ResponseWantsClose | src/import/multiroute.rs:931-948 | true if and only if the framing is until-close, a Connection value lists close, or an HTTP/1.0 head lists no keep-alive |
| Multiroute.Connection.constructor | src/import/multiroute.rs:145-153 | a fresh connection satisfies the connection invariant and is ready to be handled |
| Multiroute.Connection.PushBytes | src/import/multiroute.rs:106-116 | accepted ++ tail is what was there ++ what was offered; the tail shrinks if the parser can make progress |
| Multiroute.Connection.DrainEvents | src/import/multiroute.rs:98-102 | every event moves to the queue, in order |
| Multiroute.Connection.OfferClient | src/import/multiroute.rs:362-365 | re-offering conserves the client's bytes and strictly shrinks the tail of an accepting parser |
| Multiroute.Connection.ReceiveClient | src/import/multiroute.rs:395-403 | a read is added to accepted ++ pending, nothing overwritten |
| Multiroute.Connection.NextRequestHead | src/import/multiroute.rs:319-411 | terminates; a head opens one new request; no bytes read or to come are dropped; it waits only with nothing queued and nothing left to read; a clean or malformed end each has one of its causes, and no poisoned or tunnelled parser passes for a clean end while the client is there |
| Multiroute.Connection.ConsumeRequestBody | src/import/multiroute.rs:416-485 | terminates with the refused request behind it unless the client is gone or the parser is stuck; publishes nothing; conserves the client's bytes |
| Multiroute.Connection.Forward | src/import/multiroute.rs:630-655 | the event's raw bytes are published for the open request, or the exchange fails |
| Multiroute.Connection.Relay | src/import/multiroute.rs:684-723 | the cap is checked before writing, and an event over it is cut off unwritten |
| Multiroute.Connection.ActOnEvents | src/import/multiroute.rs:621-748 | all queued events of this exchange are acted on, up to a response end, a cut or a switch; unless cut, the queue left is exactly the rest, the next request's events deferred in order |
| Multiroute.Connection.Restore | src/import/multiroute.rs:742-745 | deferred events are back in front, in order |
| Multiroute.Connection.ReceiveSample | src/import/multiroute.rs:790-801 | a payload is fed to the parser and an overwritten tail is counted as lost |
| Multiroute.Connection.SpliceFirst | src/import/multiroute.rs:851-875 | tunnel residue and refused tails go out before anything read later, in stream order |
| Multiroute.Connection.Splice | src/import/multiroute.rs:851-908 | while spliced, the backend has all the client's bytes but a failed last publish, and the client a prefix of the backend's, none dropped; it goes on up to exactly the first input that closes it, a failed write or its teardown |
| Multiroute.Connection.Await | src/import/multiroute.rs:750-845 | exactly the next input of an enabled arm is taken and its bytes are received; the client is read only with no tail pending; every other input ends the exchange in its own way, keep-alive off, with a page only if nothing was written |
| Multiroute.Connection.ReofferTails | src/import/multiroute.rs:611-619 | both refused tails are offered again, the client's first, before anything else |
| Multiroute.Connection.Turns | src/import/multiroute.rs:610-846 | the bytes of an exchange are a function of the inputs it took, turn by turn; these are, on either side, the inputs there were, in order, and the last of them decides the end; it waits only when no queued event can be acted on; a parser that announces switches takes each of them while it still accepts |
| Multiroute.Connection.OwnResponse | src/import/multiroute.rs:724-745 | an exchange that begins with no backend event queued shows only what it framed itself; with no tail overwritten its response is a prefix of its own payloads if no backend byte was left over, and otherwise begins with the first byte left over; one that begins with an event queued shows that first |
| Multiroute.Connection.RunExchange | src/import/multiroute.rs:496-922 | an exchange keeps the client's bytes, isolation and the cap; its bytes are a function of the inputs it took, and these and those left are the inputs there were, in order; the response's are conserved if and only if no tail was overwritten, which an absorbing parser guarantees; what it shows is what was left over and then its own; it ends complete or for a cause that occurred, and keep-alive means a whole response and the client still there |
| Multiroute.Connection.ServeRequest | src/import/multiroute.rs:255-304 | the connection goes on if and only if the response is complete and whole, no final head asked to close, the client is there and the parser is not done; otherwise each end has its outcome; the head was published first of all, unless the connection failed on it |
| Multiroute.Connection.Answer | src/import/multiroute.rs:198-241 | a request whose backend is there is served, any other is read past with nothing published |
| Multiroute.Connection.HandleConnection | src/import/multiroute.rs:127-313 | byte conservation and request isolation hold at every exit of the connection loop, no byte the client sends is lost to it or read twice, and each outcome has one of its causes; probes are used in order, one per routable head; each request with a backend had its head published first, unless the connection failed on it, and nothing was published for any other |
| ExchangeLosses.TailIsOverwritten | src/import/multiroute.rs:789-799 | a run of two payloads in which the tail of the first is overwritten and the response not conserved |
| ExchangeLosses.SwitchLeavesBytes | src/import/multiroute.rs:731-744 | a run in which the pass that meets a switch leaves a framed client byte in the queue |
| ExchangeLosses.StrayReplyIsQueued | src/import/multiroute.rs:724-745 | a run in which a backend's second answer is left queued behind the next request's head |
| HeadReader.ConcatPending | src/import/connection.rs:339-348 | the refused tail comes before the new chunk |
| HeadReader.Offer | src/import/connection.rs:363-371 | accepted ++ tail is what was there ++ what was offered |
| HeadReader.Step | src/import/connection.rs:363-395 | one read gives the verdict of all bytes so far, and an open verdict leaves no tail |
| HeadReader.ReadHttpHead | src/import/connection.rs:350-405 | for every lawful parser: a routed head's key is the routing key of the first request head framed, unroutable means it has none, and every other result has its cause; the replay buffer is the reads so far, verbatim, below the cap plus one read; with a parser judged by its accepted prefix the reader is the byte-level scan |
| HeadReader.ReplayBounded | src/import/connection.rs:224-236 | the scan's replay starts with what was buffered and has the same bound; a timeout's is below the cap |
| HeadReader.ScanSettles | src/import/connection.rs:210-237 | the result is that of the bytes, unless a read ends between the cap and the head's end, and then it is a size error |
| HeadReader.SegmentationIndependent | src/import/connection.rs:196-238 | a head within the cap gives the same key or refusal however it is cut into reads |
| HeadReader.CapIsExact | src/import/connection.rs:230-236 | no way of cutting gives a size error if and only if the verdict falls within the cap or in the first byte |
| HeadReader.IndependenceIsExact | src/import/connection.rs:210-237 | the result is the same for every way of cutting the bytes if and only if the verdict falls within the cap, or at least one full read past it |
| HeadReader.RoutingIsIndependent | src/import/connection.rs:326-405 | with a parser that refuses heads past the cap itself, whether and where a request is routed never depends on cutting; past the cap every cut is refused |
| Dns.RoutingKeyExact | src/dns.rs:101-122 | a client host routes by key k if and only if it is a spelling of k: bare, bracketed or with a port, in any case |
| Dns.SpecHostKeyExact | src/dns.rs:133-141 | an operator's host registers k if and only if it is a spelling of k without a port |
| Dns.RegistrationMatches | src/dns.rs:124-141 | a registered key is a fixed point of both sides, reached by all its spellings and no others |
| Dns.NormalizeCases | src/dns.rs:30-64 | normalization leaves a host alone or strips a port, brackets, or both |
| Dns.PortCheckIgnoresCase | src/dns.rs:71-85 | whether a host carries a port does not depend on its case |
| Dns.NormalizedIsLower | src/dns.rs:30-64 | every normalized host is lower case |
| Text.U16Exactly | src/dns.rs:58-63 | a number's decimal text is a port if and only if it is below 65536, with zeros and a plus sign or without |
| Text.U16IsDecimal | src/dns.rs:58-63 | and every port text is such a text |
| Keys.KeysAreInjective | src/import/bridge.rs:23-28 | both bridges build the same key, and equal keys mean equal scope, role and id; the id is read back off the key |
| Keys.ClientsMatch | src/export/bridge.rs:50-63 | a client watch matches exactly its scope's client tokens and, for a whole service, the availability of a host called "clients" |
| Keys.ClaimsMatch | src/export/election.rs:77-88 | a claim watch matches exactly its scope's claims and, for a whole service, the availability of a host called "exporter-claim" |
| Keys.WatchesAreExactWhen | src/export/bridge.rs:50-63 | all watches are exact if and only if no service watched as a whole has a host of either name |
| Keys.PhantomClaimIsHarmless | src/export/election.rs:173-175 | the claim such a host would add changes nobody's role |
| Spec.ParseListenSpec | src/spec.rs:126-258 | the option loop computes the listen grammar, errors included |
| Spec.ListenMeans | src/spec.rs:126-258 | a text of service, address and options is a listen spec if and only if the service is valid, the address parses, the options are known, of different names and compatible; whatever their order, it is raw, per request or terminating exactly as they say |
| Spec.EveryListenText | src/spec.rs:130-146 | every text with a slash is such a text |
| Spec.ListenPrintsBack | src/spec.rs:95-111 | print then parse gives a spec back if and only if the parser can produce it |
| Spec.ListenRoundTrip | src/spec.rs:95-258 | every accepted listen spec survives printing and parsing |
| Spec.ParsedIsAccepted | src/spec.rs:214-256 | what the parser accepts contradicts itself in no way and has paths the grammar can carry |
| Spec.BackendMeans | src/spec.rs:259-320 | a text of service, host and target is a backend spec if and only if the service is valid, the host names a routing key and the target is a ws or wss URL or an address; it means just these |
| Spec.BackendPrintsBack | src/spec.rs:113-124 | the same for backends, whose host must be a routing key |
| Spec.BackendRoundTrip | src/spec.rs:113-320 | every accepted backend spec survives printing and parsing |
| ErrorSignal.AwaitMatchingSubscriber | src/zenoh_util.rs:43-85 | waits no longer than the timeout even if polls hang, stops at the first match that comes in time, gives up only at the deadline and only if the last poll had none by then, and does not wait in Telemetry mode |
| ErrorSignal.ReleasesHaveCauses | src/zenoh_util.rs:186-244 | every release has its own event in the run: no other step lets go of the signal |
| ErrorSignal.SignalNotLost | src/zenoh_util.rs:145-248 | while the client's token lives and the cap has not passed, a published signal is cached unless it happened that the holder could not watch the token or that its watch closed; and a client not ending can recover it |
| ErrorSignal.HoldIsBounded | src/zenoh_util.rs:221-244 | the publisher is released by the cap at the latest, and before it by the holder's own judgement only once the client is gone |
| ErrorSignal.CapReleases | src/zenoh_util.rs:242-244 | a hold never stops time: left alone its cap falls due within its length, then releases the publisher, and time goes on |
| ErrorSignal.GoneIsNoticed | src/zenoh_util.rs:204-240 | a gone client is noticed by any probe answer, and while waiting by the next samples if and only if the holder subscribed while it lived |
| ErrorSignal.DrainWatch | src/zenoh_util.rs:234-240 | the wait ends exactly when a Delete is among the samples |
| ErrorSignal.Watch | src/zenoh_util.rs:186-244 | the holder's task ends at the first Delete or closure within the cap, else at the cap |
| ErrorSignal.HolderIsWatch | src/zenoh_util.rs:186-244 | in every run the holder is as far as what it saw brings its task, and lets go for the reason the task would give and for none before |
| Notification.Projects | src/export/bridge.rs:370-477 | connection and signal together run as each does alone, a received signal being a reset of the import side |
| Notification.QuietExactly | src/export/bridge.rs:483-523 | an export connection that has ended can still be, or has been, signalled if and only if its outcome is not completed |
| Notification.UnsignalledExactly | src/export/bridge.rs:386-390 | a truncated client stream goes unsignalled in every continuation if and only if the connection counts as completed and a sample was dropped |
| Notification.SignalResets | src/import/bridge.rs:213-229 | while a signalled client's token lives and the cap has not passed, its connection has ended or the signal can reach and reset it there and then, unless it happened that the holder could not watch the token or that its watch closed |
| Notification.TruncatedUnsignalled | src/export/bridge.rs:568-580 | a run in which the backend gets a truncated stream with a clean end and the client is never told |

## Left out

- Zenoh itself: caches, heartbeats, history and matching status appear only as the assumptions above.
- flowscope's HTTP/1, HTTP/2 and TLS parsing, HPACK, SNI and gRPC status: a parser is a record of functions with a contract.
- How the parser matches responses to requests after a refused request, which depends on state this project cannot see.
- `read_h2_head` and the TLS head reader: they run in the same shell as `read_http_head` with another parser.
- Sockets, dialling with retries, TLS and WebSocket handshakes, PEM loading, signals and start-up.
- Unicode lower-casing in `normalize_dns` and Unicode white space in `trim`: text is ASCII.
- The fallback of a dead claim subscriber to the active role (`src/export/election.rs:147-153`) is modelled in `Election.Claim` but excluded from `Scope` and `HighAvailability`, where it would deliberately elect two.
- Wall-clock precision: time is a counter used for drain budgets, deadlines and the hold cap.
- The relay halves that a client task spawns outlive an abort of that task until their own watchdog ends them; the client map knows only the task.
- Samples missed before a miss listener is registered: the import bridge registers its miss listener after its subscriber, and the exchange loop has none, so a gap there is outside the bus assumption.
- Multiroute.Connection.HandleConnection: which canned error page is sent, and the metrics recorded, are not modelled beyond the connection's outcome.
- Multiroute.Connection.Splice: a failed write may have put a part of its bytes on the wire; only whole writes are counted.
- RelayTasks.Direction.RunSchedule: one schedule runs at one time stamp; the passing of time and the drain budget are in `RelayConnection`.
- Scope.FailoverCompletes: says deliveries and looks can settle the scope, not that a scheduler performs them.
- Failover.ServiceResumes: likewise says that a schedule of looks, deliveries and loop steps exists, not that it is the one that runs.
- Logging, log-target grammar, metrics rendering, canned pages and accept-loop permits.
