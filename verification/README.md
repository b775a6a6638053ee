# A verified model of the judging cluster's core

The repository runs programs on a cluster.  This project models the three parts
of it that keep state which must stay consistent, and proves what they keep.

**The discovery registry.**  A discovery server stores one list of services, an
index of that list by type and a set of registered IDs; every service object
caches its tags.  `Registry` gives each operation as a function on a *view*
(list, index, ID set).  `Discovery` is the server on the heap: service objects
with lazily filled caches, slices that share backing arrays, removal by
shifting in place.  Its methods are proved equal to the functions of
`Registry`; separate backing arrays are part of the representation it keeps.
`RegistryAnswers` says what each operation does in terms of the stored fields alone,
`RegistryIndex` and `RegistryIdentity` prove what holds over whole runs,
`RegistrationRaces` what holds when the two halves of a registration interleave.
`Session` and `RegisterHandler` are the per-connection registration machine, as
a step function interleaved with other connections and as the loop over heap
objects that is proved against it.  `PeerHandler` holds the one-shot handlers.
`Replication` is a cluster of N servers with notifications on their way;
`OwnedReplication` (one mutating server per ID), `AddOnlyReplication` (no deletes)
and `HistoryReplication` (neither restriction) prove when the servers come to agree.
`SessionReplication` proves that a connection is a client of that cluster.

**The judge request lifecycle.**  `Judge` is a step system: handlers, the two
notification listeners, watchdogs and expiry work on shared Redis counters, and
messages come back with an attempt counter.  Commands may fail, or succeed with
their reply lost.  `Tally`, `JudgeLedgers`, `JudgeLocks`, `JudgeWatchdog`,
`JudgeVerdicts`, `JudgeReads`, `JudgeRetry` and `JudgeRedelivery` prove conservation
laws of that system over every interleaving and derive bounds and exact conditions
from them.  `Judger` is the code of the handlers and listeners itself, on shared state
that everyone else may change between any two commands; each method is proved to take
only steps of `Judge`, and its contract lists what it says to Redis, to the report
topic and to NSQ, in order.

**Paths.**  `Paths` is lexical cleaning and joining over components.
`PartitionedPaths` is the longest-prefix search over an unordered map and the
join that undoes it.  `Mkdir` is recursive directory creation over path strings
on a finite tree, against a reference that walks from the root.

Where the code does not do what one would expect of it, the model follows the
code.  For each case the condition under which the expectation holds is proved in
both directions; a lemma in parentheses gives an input on which it fails:

- `Delete` searches the index under the type it is *given*.  If the service it
  found in the list has another type, the list loses it while the index keeps it
  (and the call panics or cuts another entry).  Exactly when list and index stay
  in step: `DeleteKeepsAgreementIff`, `AgreementOverRuns`.
- A `Delete` without an ID removes the nil ID from the ID set, so the deleted
  service's ID stays registered.  Exactly when the ID set stays right:
  `DeleteKeepsExactIdsIff`, `ConsistencyOverRuns`.
- A server that starts from a peer's list registers no IDs, so the ID invariant
  holds of the empty list only (`BootstrappedIdentifiedIff`) and a stored service
  can be added again (`BootstrappedAddDuplicates`).  Exactly when its IDs stay
  distinct: `DistinctAfterBootstrap`.
- The lookup of a registration without an ID and its storing are two critical
  sections; two of them can both succeed (`RacingRegistrationsDuplicate`).
  Exactly when places stay unique, over any interleaving of lookups, stores and
  deletes and over any number of connections: `UniquePlacesOverRaces`,
  `UniquePlacesAmongConnections`.
- A second Inform on a connection forgets the first (`SecondInformLeaks`), and an
  Inform whose data is null ends the handler without cleanup.  Exactly what a
  session leaves behind, and when it leaves nothing: `InformLeavesNothingIff`,
  `CloseLeavesLeaked`, `SessionLeavesNothingIff`.
- Nothing keeps the notifications of one ID in order; a delete that overtakes its
  add leaves the service on the peer (`OvertakingDeleteDiverges`).  Exactly which
  notification may overtake which, and which may be handled twice:
  `OvertakingHarmlessIff`, `RepeatHarmlessIff`, `AlwaysCaughtUpIff`.
- Nothing keeps two servers from registering one ID (`TwoOwnersDiverge`).  Exactly
  when the servers agree in the end: `AddOnlyReplication.QuiescentServersAgreeIff`
  without deletes, `HistoryReplication.QuiescentServersAgreeIff` in general.
- A message whose delivery times out while it is being judged is judged again, and
  both deliveries report (`RedeliveryReportsTwice`).  How many reports there can be,
  and exactly when there is one at most: `ReportsBounded`, `OneReportOverRunsIff`.
- A watchdog's probe is itself an INCR, so after a final report a second watchdog
  finds the key that the first one made and reports the result as missing
  (`FalseReport`).  Exactly when a verdict is right, and when none is false:
  `VerdictIff`, `FalseReportIff`.
- The attempt counter and the limits wrap at 16 bits, and at the top of their range
  a message is delivered for good (`DeliveredForever`).  The bounds on deliveries
  hold below it.
- The report of a result that does not parse carries no solution ID, so its DEL
  clears the key of the empty ID and not the solution's lock: `DoneResultClears`
  says which key goes in either case.
- A base directory that matches in the middle of a path component is not undone
  by the join, and the bridge's prefix check accepts a sibling of the base
  (`SiblingIsAccepted`).  Both are right exactly at component boundaries:
  `RoundTripIff`, `AcceptedIsBelowBaseIff`.

## Model

| member | source | states |
|---|---|---|
| Discovery.Service.IndexTags | discovery/server/server.go:31-40 | Afterwards the cache is complete: a key is true in it exactly for the tags in the list; a filled cache is left as it is. |
| Discovery.Service.HasTag | discovery/server/server.go:42-51 | True exactly for the tags in the list, whether the cache was filled before or not. |
| Discovery.AppendTo | discovery/server/server.go:294-299 | Appending to a slice, in place while capacity lasts and by copying otherwise, yields the old elements followed by the new one. |
| Discovery.CutOut | discovery/server/server.go:335-337 | The in-place shift drops exactly the element at the position and keeps the order of the rest. |
| Discovery.FindServiceInSlice | discovery/server/server.go:307-326 | Returns the position of the first element with the same ID, or with the same address and type when the ID is nil; -1 exactly when there is none. |
| Registry.Find | discovery/server/server.go:307-326 | The specification of the search: a match at the position, none before it, and none at all for -1. |
| Discovery.Server.Query | discovery/server/server.go:153-201 | Over index and caches, returns service objects of this server whose records are those of the query specification, in order; nothing but tag caches changes. |
| Discovery.Server.QueryOne | discovery/server/server.go:203-205 | Returns nil or the object of the query specification that the random choice picks. |
| Discovery.Server.NormalizeService | discovery/server/server.go:266-280 | Gives a service without an ID the ID of the match found or the fresh one, and reports which; other services and the lists keep their state. |
| Discovery.Server.Add | discovery/server/server.go:282-305 | New list, index and ID set, the service's new ID and the error are those of the specification; every other list is untouched, and the server reaches the new object only on success. |
| Discovery.Server.Delete | discovery/server/server.go:328-347 | New list, index, ID set and outcome (missing, panic or done) are those of the specification, all lists still on arrays of their own, and no service object changes. |
| Discovery.Server.BuildIndex | discovery/server/server.go:349-361 | Rebuilds the index in place so that each type's list is the subsequence of that type; list and ID set stay. |
| Discovery.Server.Bootstrap | discovery/server/server.go:105-117 | A server that takes a peer's list holds that list, its index and no IDs. |
| RegistryIndex.BootstrapAgrees | discovery/server/server.go:349-361 | After bootstrap the list under every type, indexed or not, is the order-preserving subsequence of that type. |
| RegistryIndex.RemoveFirstMatch | discovery/server/server.go:331-337 | The first match in the list is the first match in the index list of its type: removing each by its own search leaves the subsequence of what remains. |
| RegistryIndex.AddKeepsAgreement | discovery/server/server.go:282-305 | Add keeps list and index in agreement for every type, whatever its outcome. |
| RegistryIndex.DeleteKeepsAgreementIff | discovery/server/server.go:328-347 | Delete keeps list and index in agreement exactly when nothing matches or the first match has the type named, and then it does not panic. |
| RegistryIndex.AgreementOverRuns | discovery/server/server.go:282-361 | In every state of a run from any agreeing state list and index agree, exactly when every delete of the run names the type of what it finds. |
| RegistryIndex.QueryIsPlainScan | discovery/server/server.go:153-201 | A query through the index equals a scan of the whole list by type, required and excluded tags and ID or address, a test written on the record's fields, cut to the first hit of an ID or address query. |
| RegistryIndex.QueryOneFindsAMatch | discovery/server/server.go:146-151 | For every random choice QueryOne is nil exactly when no stored service passes, and otherwise returns a stored one that passes. |
| RegistryIndex.QueryOneCanPickAny | discovery/server/server.go:146-151 | Every match is what QueryOne returns for some random choice. |
| RegistryAnswers.QueryAnswers | discovery/server/server.go:153-201 | On fields alone: what a query returns is, in list order, the stored services of the type named with all required and no excluded tag; all of them, or the first with the ID given, or else the first with the address given. |
| RegistryAnswers.NormalizeAnswers | discovery/server/server.go:266-280 | A registration without an ID is refused exactly when a stored service has its address and type, an empty one counting as any, and is handed the ID of such a service, the first one if it gives an address; otherwise it gets the fresh ID, and nothing else about it changes. |
| RegistryAnswers.AddAnswers | discovery/server/server.go:282-305 | A registration is accepted exactly when its ID is not registered and, without one, its place is free; then the list, the list of its type and the ID set grow by it, and otherwise nothing changes. |
| RegistryAnswers.DeleteAnswers | discovery/server/server.go:328-347 | A delete takes the first service with its ID, or without one of its address and type, out of the list, and the first such out of the list of its type together with its ID; it fails if there is none in the first and panics if there is none in the second. |
| RegistryAnswers.NilDeleteAnswers | discovery/server/server.go:307-318 | With list and index in step a delete without an ID removes the first service of its address and type whenever one is stored. |
| RegistryAnswers.OfTypePicks | discovery/server/server.go:349-361 | The list of a type picks out, at ascending positions, exactly the services of that type. |
| RegistryIdentity.IdentityOverRuns | discovery/server/server.go:266-347 | After any adds and deletes whatsoever the stored IDs are pairwise distinct, not nil and registered. |
| RegistryIdentity.DeleteKeepsExactIdsIff | discovery/server/server.go:328-347 | The ID set stays equal to the stored IDs exactly when a delete that finds something carries its ID and names its type. |
| RegistryIdentity.StepConsistentIff | discovery/server/server.go:282-347 | One call keeps list, index and ID set three views of one registry exactly when it is an add or such a delete. |
| RegistryIdentity.ConsistencyOverRuns | discovery/server/server.go:282-347 | List, index and ID set describe one registry in every state of a run exactly when every delete of the run that finds something carries its ID and its type. |
| RegistryIdentity.AddThenDeleteRestores | discovery/server/server.go:282-347 | Deleting what a successful add stored succeeds and restores the list, every type's index list and the ID set. |
| RegistryIdentity.NilRegistrationOverRuns | discovery/server/server.go:266-305 | In sequential runs where every add arrives without an ID no two stored services share both address and type, whatever is deleted in between. |
| RegistryIdentity.RejectedNilAddNamesFirstMatch | discovery/server/server.go:183-197 | A rejected registration with an address changes nothing and hands back the ID of the first stored service that the address and type filter passes. |
| RegistryIdentity.BootstrappedIdentifiedIff | discovery/server/server.go:105-117 | A server that took a peer's list has its stored IDs registered exactly when the list was empty. |
| RegistryIdentity.BootstrappedAddDuplicates | discovery/server/server.go:287-294 | A service from a peer's list is accepted again and stored twice. |
| RegistryIdentity.StepKeepsDistinctIff | discovery/server/server.go:282-347 | From any state with distinct IDs, registered or not, one call keeps them distinct exactly when it is no accepted registration of a stored ID. |
| RegistryIdentity.DistinctAfterBootstrap | discovery/server/server.go:105-117 | From a peer's list the stored IDs are distinct in every state of a run exactly when they were in the list and every accepted registration brings an ID that is not stored. |
| RegistrationRaces.UniquePlacesOverRaces | discovery/server/server.go:266-288 | However the lookups, stores and deletes of registrations interleave, no two stored services share address and type in any state of a run exactly when every accepted store finds its place free. |
| RegistrationRaces.AddIsLookThenStore | discovery/server/server.go:282-294 | An add is such a lookup and, unless it rejects, such a store; with nothing in between and no ID given the store finds its place free. |
| RegistrationRaces.MessageIsMoves | discovery/server/server.go:642-687 | A message or a call of others is a run of those lookups, stores and deletes: an Inform the lookup, the Add message the store of what was informed, without another look at the place. |
| RegistrationRaces.ConnectionsRace | discovery/server/server.go:587-697 | Whatever any number of connections do leaves the registry that some run of lookups, stores and deletes leaves. |
| RegistrationRaces.UniquePlacesAmongConnections | discovery/server/server.go:587-697 | Over any number of connections whose messages and closes interleave, places stay unique in every state exactly when every accepted registration finds its place free. |
| RegistrationRaces.RacingRegistrationsDuplicate | discovery/server/server.go:266-288 | Two registrations of one place that both look before either stores are both accepted and stored twice. |
| Session.CloseRemovesInformed | discovery/server/server.go:600-622 | However a session and other connections interleave, closing leaves the informed ID in no list, no index list and not in the ID set, and the three views consistent. |
| Session.HasTellsRegistered | discovery/server/server.go:675-683 | At any point of such a run Has answers true exactly when a service with the informed ID is stored. |
| Session.AnswersTell | discovery/server/server.go:642-687 | The answer to Add tells whether the informed service was stored by it, that to Delete whether it was there and is gone; Inform hands back the informed service with its fields and its own or an assigned ID; the other messages change nothing. |
| Session.EveryMessageAnswered | discovery/server/server.go:688-695 | As long as the handler runs, every message has had one answer, in order. |
| Session.InformLeavesNothingIff | discovery/server/server.go:667-674 | Closing right after an Inform, its data null or not, leaves nothing stored of the service informed before exactly when that one was not registered or is informed again. |
| Session.CloseLeavesLeaked | discovery/server/server.go:587-697 | Of the IDs a connection informed, with others keeping away from them, the close leaves stored exactly those that it forgot while registered and did not inform again. |
| Session.SessionLeavesNothingIff | discovery/server/server.go:600-674 | A connection that informs each ID at most once leaves none of them stored exactly when every Inform that replaced one, or ended the handler, found it not registered. |
| Session.SecondInformLeaks | discovery/server/server.go:667-674 | A concrete session: after a second Inform the close leaves the first service stored. |
| RegisterHandler.HandleMessage | discovery/server/server.go:642-687 | One message on heap objects, a null Inform included: new view, informed service, answer and what the peers are told are those of the session step, and it panics exactly when that step ends the session. |
| RegisterHandler.HandleRegister | discovery/server/server.go:587-697 | For every sequence of messages and calls of other connections the loop sends the answers, tells the peers of the connection's successful mutations, the closing delete included, and leaves the view of the session followed by its close. |
| SessionReplication.AddInformedIsClientAdd | discovery/server/server.go:645-655 | The Add message at a server leaves the cluster in the state of a client's add there: the same view, and every peer notified exactly when the handler says so. |
| SessionReplication.DeleteInformedIsClientDelete | discovery/server/server.go:656-666 | The Delete message likewise, as a client's delete. |
| SessionReplication.CloseIsClientDelete | discovery/server/server.go:600-622 | The close likewise, as a client's delete. |
| SessionReplication.OtherMessagesAreSilent | discovery/server/server.go:642-687 | No other message, and none without an informed service, changes the registry or notifies anyone. |
| SessionReplication.ClosedConnectionIsClient | discovery/server/server.go:587-697 | A whole connection, its messages and its close, is a run of client calls at its server: it leaves the handler's view, and every peer is sent what the handler says, in that order. |
| PeerHandler.HandleAdd | discovery/server/server.go:560-585 | View, ID and outcome are those of the add, peers are told of the stored record exactly when it succeeded, and a null service panics without effect. |
| PeerHandler.HandleDelete | discovery/server/server.go:699-721 | View and outcome are those of the delete and peers are told exactly when it succeeded; a null service is missing from an empty list and panics otherwise. |
| PeerHandler.Node.HandlePeer | discovery/server/server.go:494-558 | Requests without sender or from the server itself are refused without effect; any other makes its sender a peer once and gets the answer of its operation: mutation, noop, list, peers or unknown. A known add and a delete of something absent count as success, and a mutation with an ID has the effect of the cluster's delivery. |
| PeerHandler.Node.AddPeer | discovery/server/server.go:378-395 | Adds an address to the peers exactly when it is not among them, then sends it a noop request if asked to inform it, and fails with that request, the address staying a peer. |
| Replication.ReceiveActs | discovery/server/server.go:527-541 | Handling a peer's message changes the record of its own ID as add-if-absent or remove, leaves every other ID's record, and keeps the three views consistent. |
| Replication.OvertakingHarmlessIff | discovery/server/server.go:243-264 | Handling a message before others of its ID changes nothing about what the ID comes to exactly when a delete of the ID comes after it, or what the messages ahead of it and behind it leave allows it. |
| Replication.RepeatHarmlessIff | discovery/server/server.go:527-541 | Handling a message that will come again changes nothing about what its ID comes to exactly when a delete of the ID is pending, the service is stored, or its own record is what the pending messages leave. |
| Replication.FirstMayOvertake | discovery/server/server.go:243-264 | The oldest pending message of its ID may always be delivered, whatever it overtakes of other IDs. |
| Replication.OvertakingDeleteDiverges | discovery/server/server.go:243-264 | A concrete run without ordering: both messages delivered, nothing pending, one server empty and the other still storing the service. |
| Replication.TwoOwnersDiverge | discovery/server/server.go:282-305 | A concrete run with two mutating servers: both messages delivered, nothing pending, each server storing a different record under one ID. |
| OwnedReplication.AnnounceKeepsInv | discovery/server/server.go:300-302 | A mutation applied at the owner and sent to all peers keeps every peer, caught up with its queue, equal to the owner. |
| OwnedReplication.HandleKeepsInvIff | discovery/server/server.go:527-541 | Handling a message, for the last time or not, keeps each peer's record of each ID, caught up with its queue, equal to the owner's exactly when the message may overtake those ahead of it, or may be repeated; the owners' records stay in any case. |
| OwnedReplication.StepKeepsInvIff | discovery/server/server.go:243-347 | The same over client calls, which always keep it, deliveries and repetitions. |
| OwnedReplication.AlwaysCaughtUpIff | discovery/server/server.go:243-347 | Over every run with one mutating server per ID, in any order and with any repetition: every state is caught up exactly when every delivery may overtake what it overtakes and every repetition may be repeated. |
| OwnedReplication.InOrderIsHarmless | discovery/server/server.go:243-264 | Runs whose notifications of one ID arrive once each and in the order issued are among those. |
| OwnedReplication.RunsStayCaughtUp | discovery/server/server.go:243-347 | Over every such run each server's list, index and ID set are consistent and each peer, caught up with its queue, equals the owners. |
| OwnedReplication.QuiescentServersAgree | discovery/server/server.go:243-347 | In such a run from empty servers, when nothing is pending all servers hold the same services. |
| OwnedReplication.DeliveryShrinks | discovery/server/server.go:527-541 | A delivery causes no further message: one hop, one fewer to come. |
| OwnedReplication.DeliveryPossible | discovery/server/server.go:243-264 | While anything is undelivered, some delivery in order is possible. |
| OwnedReplication.DeliveriesConverge | discovery/server/server.go:527-541 | Once clients stop, any allowed deliveries end after as many steps as were pending, and then every server stores under each ID what its owner stored when they stopped. |
| AddOnlyReplication.RunsKnowEverywhere | discovery/server/server.go:513-534 | Without deletes, with any delivery order and any repetition, what one server stores or awaits every server stores or awaits, in every reachable state. |
| AddOnlyReplication.StoredIsStoredOrPendingEverywhere | discovery/server/server.go:282-305 | From empty servers: a service stored anywhere is stored at, or pending to, each server. |
| AddOnlyReplication.QuiescentServersAgree | discovery/server/server.go:282-305 | With nothing pending all servers store the same services. |
| AddOnlyReplication.QuiescentServersAgreeIff | discovery/server/server.go:282-305 | Whatever is registered where, without deletes and with nothing pending: all servers store the same services exactly when no two accepted registrations put different records under one ID. |
| HistoryReplication.StoredIsLeft | discovery/server/server.go:282-347 | With deletes and any mutating servers, orders and repetitions: under each ID a server stores what the mutations it has handled leave, in the order it handled them. |
| HistoryReplication.MutationsConserved | discovery/server/server.go:243-264 | Without repetition, what a server has handled together with what is pending to it is what all servers announced. |
| HistoryReplication.AgreeIff | discovery/server/server.go:282-347 | In every state two servers store the same services exactly when their two histories leave the same under every ID. |
| HistoryReplication.QuiescentServersAgreeIff | discovery/server/server.go:243-347 | With nothing pending all servers have handled the same mutations, each once, and two of them agree exactly when their orders leave the same. |
| Judge.StepKeepsValid | judge/server/judger.go:517-539 | Every step keeps counters positive and goroutines on messages that exist, and only appends to the history. |
| JudgeLedgers.StepKeepsStoreLaw | judge/server/judger.go:517-539 | For every key: the increments that reached 1 equal the removals by DEL or expiry plus one if the key is present. |
| JudgeLedgers.ActKeepsLockLedger | judge/server/judger.go:578-662 | For every key and kind of goroutine a step keeps: locks taken and answered equal uses plus returns plus goroutines that hold the lock. |
| JudgeLedgers.StepKeepsBalance | judge/server/judger.go:517-745 | A ledger that every goroutine step balances is balanced by every step of the system. |
| JudgeLocks.LocksOverRuns | judge/server/judger.go:517-745 | Store law and lock ledger hold in every state of every interleaving. |
| JudgeLocks.UsesBounded | judge/server/judger.go:517-539 | Uses of a key plus goroutines that may still use it never exceed one if it is present plus its releases by anyone but their holder. |
| JudgeLocks.DispatchesBounded | judge/server/judger.go:578-662 | Dispatched commands of a solution plus handlers holding its lock never exceed the key's presence plus releases by Done reports, watchdogs, expiry or failed attempts; at most one without such a release. |
| JudgeLocks.ResultReportedAtMostOnce | judge/server/judger.go:166-242 | Across judgers, repeated notifications and failed reads, the reports made of one solution's result with one ETag are at most one more than the expiries of its key, also when the run-command listener shares that key. |
| JudgeLocks.DoneResultClears | judge/server/judger.go:214-240 | In every interleaving the DEL after a result's final report, if it gets through, removes its solution's key and no other; for a result that did not parse it removes the key of the empty ID instead. |
| JudgeReads.ReportsAreOfReads | judge/server/judger.go:166-315 | In every run a report of a result or of a command is published, or about to be, exactly as often as an object calling for it was read: the verdict found with its own done flag, a final failure of no solution for a result that does not parse, a final failure of the solution for a command that failed. |
| JudgeReads.DoneNeedsFinalVerdict | judge/server/judger.go:228-236 | A Done report of a result is published only if a final verdict of that solution was read, or an object that did not parse. |
| JudgeReads.DeletesFollowDoneReports | judge/server/judger.go:547-568 | In every run the DELs of a solution by its reports are exactly as many as the Done reports of it that were sent, but for those about to follow. |
| JudgeReads.StartsAreReported | judge/server/judger.go:665-745 | In every run "Judge started" is reported once for every command dispatched and every lock found taken, and for nothing else. |
| JudgeReads.FailedTakesDelete | judge/server/judger.go:706-712 | In every run each INCR of a handler that gets no answer is followed by one DEL by a handler that does not hold the key, and no other is. |
| JudgeReads.WatchdogsAreOfReads | judge/server/judger.go:306-345 | In every run a watchdog is started once for every report of a command that exited well, and for nothing else. |
| JudgeReads.DropsAreOfReads | judge/server/judger.go:185-215 | In every run a listener gives its key back once for every object it could not have, and for nothing else. |
| JudgeWatchdog.OnlyDoneReportsRelease | judge/server/judger.go:547-568 | With one acquisition and one dispatched command, whatever removed the key before the probe was a Done report. |
| JudgeWatchdog.ProbeSeesUnreported | judge/server/judger.go:322-330 | The watchdog's probe goes on to delete and report exactly when no Done report has released the key. |
| JudgeWatchdog.WatchdogReportsExactlyTheUnreported | judge/server/judger.go:322-345 | Over a whole run with one dispatch and one watchdog: exactly one DEL and one publish by it if no Done report released the key before the probe, none otherwise; the publish is sent if publishing does not fail, and the key is gone at the end unless it was taken anew. |
| JudgeVerdicts.KeyLaw | judge/server/judger.go:517-539 | With one acquisition by a handler, a dispatch and any number of watchdogs: the key's presence plus its removals by Done reports and watchdogs equals one plus the times probes made it anew. |
| JudgeVerdicts.VerdictIff | judge/server/judger.go:322-330 | Then a probe goes on to delete and report exactly when probes have made the key as often as it was removed, with the exact condition under which that is a report for the unreported only. |
| JudgeVerdicts.FalseReportIff | judge/server/judger.go:322-345 | After a Done report has released the key, over every run without another acquisition or Done report: no watchdog reports falsely exactly when at most one of them probes. |
| JudgeVerdicts.FalseReport | judge/server/judger.go:322-345 | A whole run from the start: one request, two run-command reports, the final result, and then a watchdog's report that it is missing. |
| JudgeRedelivery.FinishedOnceOverRuns | judge/server/judger.go:665-745 | In every run, redelivery of unanswered messages included: at most MaxAttempts + 2 deliveries and one finish, after which the message stays as it is. |
| JudgeRedelivery.ReportsBounded | judge/server/judger.go:665-745 | In every such run a message has no more reports than deliveries and than MaxAttempts + 1, none if it does not parse, and each is "Judge started" or, once the deliveries have reached MaxAttempts, a final failure of its own solution. |
| JudgeRedelivery.SecondReportPossibleIff | judge/server/judger.go:665-745 | Without another delivery a message can come to a second report exactly when the reports made and the goroutines that may still report number two. |
| JudgeRedelivery.OneReportOverRunsIff | judge/server/judger.go:665-745 | In no state of a run, redelivery included, is a second report made or possible exactly when every delivery that reaches a handler finds no report made and no goroutine that may report. |
| JudgeRedelivery.DeliveredForever | judge/server/judger.go:93 | At the top of the 16-bit range there are runs with any number of deliveries: from 65535 without redelivery of unanswered messages, from 65534 with it. |
| JudgeRetry.RetryLifecycle | judge/server/judger.go:665-745 | Without such redelivery: at most MaxAttempts + 1 deliveries, one finish, and for a message that parses a single report by then, which is either "Judge started" or a final failure. |
| JudgeRetry.FinishedMessageReported | judge/server/judger.go:547-568 | If publishing does not fail, a finished message that parses has exactly one report out. |
| JudgeRedelivery.RedeliveryReportsTwice | judge/server/judger.go:665-745 | A run with a redelivered unanswered message, both of whose deliveries report. |
| JudgeRetry.MessageStepsBounded | judge/server/judger.go:665-745 | Whatever else goes on, the steps taken for one message are at most a rank that starts at 8 (MaxAttempts + 1). |
| JudgeRetry.UnfinishedCanMove | judge/server/judger.go:665-745 | An unfinished message can always take a step, given an idle handler. |
| Judger.Judgers.CheckIfRequestExists | judge/server/judger.go:517-534 | Counter, history and both return values after an INCR that succeeds, loses its reply or fails; an error answers "exists". |
| Judger.Judgers.SetRequestNotExist | judge/server/judger.go:536-539 | Store, history and error after a DEL that succeeds, loses its reply or fails. |
| Judger.Judgers.PublishToReport | judge/server/judger.go:547-568 | The report is published first; a sent Done report is followed, with other goroutines in between, by the DEL of its solution, which is then absent if the DEL got through; nothing else is said, and it errs exactly when one of the two failed. |
| Judger.Judgers.ProcessJudge | judge/server/judger.go:578-662 | One INCR; then one dispatch if the lock was free and judging succeeds, and nothing else; an error exactly if the INCR failed or the lock was free and judging failed. |
| Judger.Judgers.HandleMessage | judge/server/judger.go:665-745 | Under every interference and every failing command: beyond the limit one final failure; up to it the INCR, then the dispatch if the lock was free, and the start, or on an error the DEL and at the limit the final failure; then one answer, finishing unless a parsable message failed below the limit or one that does not parse has not passed it. |
| Judger.Judgers.Respond | judge/server/judger.go:665-745 | Finishes or requeues a delivery that is out, and does nothing to one that has timed out. |
| Judger.Judgers.ListenResults | judge/server/judger.go:166-242 | Every notification of the batch is taken up once and in order; each says one INCR and, for the first to take its object, the report of the verdict found with its done flag, the failure of no solution, or the DEL of the key, and nothing else. |
| Judger.Judgers.ListenCommands | judge/server/judger.go:244-349 | Likewise for run-command reports: a watchdog for a command that exited well, a final failure of the solution for one that failed, the DEL of the key for a missing object, nothing more for one that cannot be read. |
| Judger.Judgers.Watch | judge/server/judger.go:322-345 | The delayed goroutine says one INCR and, unless that reached 1, one DEL and one final failure of the solution. |
| Judger.Judgers.DispatchesBoundedHere | judge/server/judger.go:578-662 | The dispatch bound holds of the state that the code leaves. |
| Paths.CleanAbsoluteIff | utilitycmd/command.go:103 | A path is absolute and clean exactly when it is the rendering of its own components and none is empty, "." or "..". |
| Paths.JoinRooted | bridge/server/bridge.go:111 | A join onto an absolute path is clean, and is the rendering of both sides' components with dots resolved. |
| Paths.ResolveClimbs | bridge/server/bridge.go:111 | Behind normal components any number of ".." climbs that many times, at the root no further. |
| Paths.ResolveClimbsOut | bridge/server/bridge.go:111 | Without a root what is left of them stays. |
| Paths.ResolveNext | bridge/server/bridge.go:111 | A "." changes nothing and a name goes one down. |
| Paths.CleanTwice | bridge/server/bridge.go:111 | Cleaning again changes nothing, relative paths included. |
| Paths.CleanShape | utilitycmd/command.go:103 | A cleaned absolute path starts with a slash, has no empty component and ends with no slash unless it is the root. |
| Paths.CompsRunTogether | bridge/server/bridge.go:111 | Where no slash separates two strings the components next to each other become one. |
| PartitionedPaths.PathToPartitionedPath | utilitycmd/command.go:100-118 | For every order of visiting the map: fails exactly when no base is a prefix of the absolute path; otherwise names a base that is one and that no other matching base exceeds in length, and the rest without leading slashes. |
| PartitionedPaths.SearchPartitions | utilitycmd/command.go:107-116 | The loop alone, for any absolute path: every order of visiting the map ends with a longest matching base, or with none exactly when none matches. |
| PartitionedPaths.LongestMatchUnique | utilitycmd/command.go:107-116 | Two such answers have the same path and base, and are equal when bases are distinct. |
| PartitionedPaths.JoinRestores | bridge/server/bridge.go:106-116 | Joining the rest onto the base gives the path back exactly when the base ends where a component ends. |
| PartitionedPaths.AbsIsResolved | utilitycmd/command.go:103 | A relative argument counts from the working directory, an absolute one from the root, both with dots resolved. |
| PartitionedPaths.StoragePathAnswers | bridge/server/bridge.go:106-116 | For an absolute base: an unknown partition and a join that does not start with the base are the two errors, any other join the answer. |
| PartitionedPaths.RoundTripIff | bridge/server/bridge.go:106-116 | For every path argument and working directory the bridge recovers the absolute path from what the search named exactly when the longest base ends where a component ends. |
| PartitionedPaths.RelativeRecovered | utilitycmd/command.go:100-118 | A clean relative path inside a partition is mapped by the bridge and comes back from the search when no longer base matches, its partition too when bases are distinct. |
| PartitionedPaths.AcceptedIsBelowBaseIff | bridge/server/bridge.go:111-115 | A path that the prefix check accepts has the base's components first exactly when the base ends where a component of it ends. |
| PartitionedPaths.SiblingIsAccepted | bridge/server/bridge.go:111-115 | A concrete base and path: accepted, and not below the base. |
| Mkdir.ChainGrows | bridge/server/bridge.go:119-164 | Whatever fails, earlier entries stay, the tree stays closed under parents, and exactly the missing places of an initial stretch were made; all of them with the given owner on success, at most the last without it on failure. |
| Mkdir.ChainSucceedsIff | bridge/server/bridge.go:119-164 | It succeeds exactly when no place on the way is a file and no missing one is refused. |
| Mkdir.FailedChainStops | bridge/server/bridge.go:141-163 | A failing call has made everything before the first obstacle and nothing after it; at the obstacle nothing if it is a file or mkdir is refused, and a directory of the process's own if chown is. |
| Mkdir.AbsoluteIsMade | bridge/server/bridge.go:119-164 | On success an absolute path leaves a directory at the place that its cleaned form names, whatever the working directory. |
| Mkdir.ReachContinues | bridge/server/bridge.go:119-164 | A relative path leads where the absolute one that continues the working directory leads. |
| Mkdir.WalksIff | bridge/server/bridge.go:121-128 | A path is found exactly if its start and its end exist and every place before the end is a directory. |
| Mkdir.ChainDirectories | bridge/server/bridge.go:119-164 | On success every ancestor on the way is a directory. |
| Mkdir.ChainTwice | bridge/server/bridge.go:121-127 | Making the same path again changes nothing and succeeds. |
| Mkdir.CutComponents | bridge/server/bridge.go:130-138 | What the two backward scans cut off is the last component; the parent string has exactly the components before it. |
| Mkdir.FileSystem.MkdirAll | bridge/server/bridge.go:119-164 | Terminates for every path string and leaves the tree and result of making the missing components from the top down, from the root for an absolute path and from the working directory for any other; the empty path fails without effect. |

## Left out

- HTTP, WebSocket, JSON, YAML, access keys and signatures: decoded messages are input values.
- The clients of NSQ, Redis and MinIO: what is kept of them is INCR, DEL, expiry, publish, the attempt counter and success or failure. That the NSQ consumer finishes a message on its own beyond its limit of MaxAttempts + 1 and that a late answer does not finish a message that is no longer out follow the library's documented behaviour, which is not part of this model.
- The Redis key prefix and the duration given to EXPIRE: any key that is present may expire at any time. A failed EXPIRE is covered as the same outcome as a lost reply for the result listener, and as success for the others.
- Slices that a reader keeps after the lock is dropped (discovery/server/server.go:159-166 and 545-548): each registry operation is atomic. Only the gap between the lookup and the storing of a registration is modelled.
- Peers that fail, are removed or come in from a command line or a peer's list, and client fail-over: a notification is delayed, reordered or repeated, but not lost.
- The growth factor of append is fixed; any other gives the same contents. The map of registered IDs, whose values are always true, is a set.
- Version 4 UUIDs and the random choice of a result are inputs; a fresh UUID is not nil (RFC 4122, sections 4.1.7 and 4.4) but may repeat one in use.
- Symbolic links, permission bits and permission errors of Stat, directories made by others at the same time, and Windows separators in mkdirAll. A refused mkdir or chown at any place is modelled.
- The listener for problem uploads, statistics counters, logging, timestamps, spawncmd, runner, cgroup arithmetic and the command line: operating system effects or easy members.
- JudgeRetry.RetryLifecycle: for runs in which NSQ does not redeliver an unanswered message; ReportsBounded, OneReportOverRunsIff and FinishedOnceOverRuns say what holds with redelivery. MaxAttempts counts in 16 bits, below 65535 here and below 65534 there; DeliveredForever shows that this is needed.
- JudgeWatchdog.WatchdogReportsExactlyTheUnreported: for runs without expiry and Redis errors, with one acquisition of the key and one watchdog; JudgeVerdicts covers several.
- JudgeLocks.ResultReportedAtMostOnce: takes the deduplication key apart from every solution's key, the empty one included, which an invalid result's report deletes.
- Session.SessionLeavesNothingIff: other connections keep away from the IDs that this one has informed; what two connections with one ID leave is not stated.
- JudgeLocks.DispatchesBounded: counts a delete that follows a failed INCR among the releases, because such a handler deletes a key it does not hold.
- PartitionedPaths.RoundTripIff: the matching base is a clean absolute path, as a configured storage directory is meant to be.
- OwnedReplication.AlwaysCaughtUpIff: assumes one mutating server per ID, which the code does not enforce; HistoryReplication does without.
