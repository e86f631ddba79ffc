# gogomail: models and proofs

Dafny models of the parts of gogomail whose correctness is hard to see from one function: the CalDAV
synchronisation and query reports, the conditional request headers, three pairs of printers and parsers,
the API usage tables, three concurrent step machines, the audit log, and UTF-8 truncation. Each model
follows the Go code branch by branch; loops and in-place updates are methods and classes, proved against
functions, and the properties are lemmas about those functions.

A Go string is a sequence of bytes, so a `char` of a `string` stands for one byte everywhere.

## Modules

- `Wrappers`, `Text`: option and result types, and the parts of Go's `strings` package that are used.
- `Coalesce`, `CalendarStore`, `CalendarSync`, `CalendarSyncReport`, `CalendarSyncExamples`: the change log of a
  calendar and its transactions, the sync-collection report (section 3 of RFC 6578) over two kinds of store, and a
  client that mirrors a calendar with it. Transactions and prunings may run between the four reads of one report:
  the calendar, the change of the client's token, the changes after it, and the objects. A lemma about one such run
  names the objects that a pruning made the client lose; the examples are small runs that go wrong.
- `CalendarQuery`: the calendar-query and free-busy-query reports.
- `IfHeader`, `EntityTag`: the `If` header (section 10.4 of RFC 4918) and entity-tag lists (sections 8.8.3,
  13.1.1 and 13.1.2 of RFC 9110).
- `LdapDN`, `CalendarPath`, `PasswordHash`: names, paths and password strings, printed and read back.
- `UsageAggregation`, `UsageRuns`, `UsageConservation`: normalization and counting of API usage events, and any
  interleaving of repeated, concurrent and failing deliveries.
- `LeaderLease`, `CircuitBreaker`, `Instream`, `JobLock`: the Redis leader lease and the published backpressure
  level, the ClamAV circuit breaker and its INSTREAM framing, and the in-memory job locks.
- `AuditChain`, `AuditRetention`: the hash-chained audit log with its integrity check, and the batched purge
  with its sweep over all policies.
- `Utf8Truncation`: the two ways in which the code cuts a text to a number of bytes.

## Where the code does not do what one may expect

For each of these a lemma says exactly when the code does meet the expectation, and another shows it fail.

- The change of the client's token and the changes after it are read by two statements
  (`internal/caldavgw/repository_sync.go:22-46`), and a retention worker prunes the log
  (`internal/app/run_workers.go:353`). A pruning between the two makes the client lose track of an object all of
  whose changes it drops (`CalendarSync.SyncIsSafeIff`, `CalendarSyncExamples.PruningLosesObject`).
- Deleting a calendar is not reported object by object, so a client keeps the objects
  (`CalendarSync.DeletedCalendarMirror`, `CalendarSyncExamples.DeletedCalendarStays`).
- The one-by-one lookup answers 404 for an object it fails to read (`CalendarSync.SyncConvergesIff`,
  `CalendarSyncExamples.UnreadableIsDropped`).
- The collection update stores the new sync token before it makes sure that the current token has a change, so
  the change it then inserts meets the unique index on calendar and token and the transaction is rolled back,
  always (`CalendarStore.CollectionUpdateIsRolledBack`). The store interface, and the in-memory store of the
  handler's tests, record such a change; the sync results hold for that stronger behaviour.
- A time-range query without a component, or against a store without the candidate walk, looks at the 200 most
  recently updated objects and says nothing about the others (`CalendarQuery.NoSilentTruncation`,
  `CalendarQuery.OldMatchIsLeftOut`).
- The marker for an unsupported component is compared with a component in upper case, so the comparison never
  succeeds (`CalendarQuery.MarkerIsNeverSeen`), and a query that should have no answers can be refused
  (`CalendarQuery.UnsupportedIsAnsweredIff`).
- In an `If` header a list without a tag is taken for one about the request's resource, where RFC 4918 lets the
  tag before it govern it (`IfHeader.TagsGovernIff`, `IfHeader.StrayListIsTaken`).
- An LDAP name loses white space other than the space character at the ends of an id (`LdapDN.NameRoundTrip`,
  `LdapDN.TabIsLost`).
- A path with an encoded separator in a segment is built but not accepted back (`CalendarPath.BuiltPathParses`,
  `CalendarPath.EncodedSeparatorIsAccepted`, `CalendarPath.EncodedSeparatorIsRefused`).
- A password longer than 1024 bytes can be hashed but does not verify (`PasswordHash.HashRoundTrip`,
  `PasswordHash.LongPasswordFails`).
- A usage event whose counting fails after its claim stays uncounted, whatever is redelivered
  (`UsageConservation.FailedClaimLosesEvent`, `UsageConservation.RedeliveryIsRefused`).
- A leader publishes a level only when it differs from the one it remembers, so another instance's level can
  stay published (`LeaderLease.LeaderPublishesIff`, `LeaderLease.StaleLevelStaysPublished`).
- An audit log that is placed before the latest one breaks the chain (`AuditChain.InsertKeepsChainIff`,
  `AuditChain.EarlierLogBreaksChain`), and so does a purge of rows between others (`AuditChain.PurgeKeepsLinksIff`,
  `AuditChain.PurgeBreaksChain`).
- An audit log is hashed with nanoseconds and as it was given, and checked as the database gives it back, in
  microseconds and in its own forms (`AuditChain.CheckPassesIff`, `AuditChain.NanosecondsFailCheck`).
- A sweep that fails does not count what its failing step deleted (`AuditRetention.Repository.PurgeOnce`,
  `AuditRetention.FailingSweep`).

## Model

| member | source | states |
|---|---|---|
| Coalesce.CoalesceChanges | internal/caldavgw/handler_report.go:903-957 | the loop over `latestIndex` and `active` flags selects, among the changes with an object response, the last of each object, in order of last occurrence |
| Coalesce.CoalescedPositions | internal/caldavgw/handler_report.go:908-961 | the coalesced changes stand at strictly increasing positions, and these are exactly the positions of the last reported change of some object |
| Coalesce.CoalescedReplay | internal/caldavgw/handler_report.go:908-961 | replaying the coalesced changes over any map ends where replaying all changes ends |
| CalendarStore.WriteKeeps | internal/caldavgw/repository_objects.go:12-136 | an upsert, a deletion, a collection change or deletion, or a pruning keeps the log and the objects consistent, and every object it changes has a change logged after the old end; a current token without a change gets one first |
| CalendarStore.RunKeeps | internal/caldavgw/repository_objects.go:517-590 | the same for any run of transactions with new tokens |
| CalendarStore.CreatedIsGood | internal/caldavgw/repository.go:150-211 | a new calendar, and so every run of transactions from its creation, has a consistent log and consistent objects |
| CalendarStore.PruneKeeps | internal/caldavgw/repository_sync.go:228-274 | pruning drops a prefix of the log that ends before the current token's change |
| CalendarStore.CollectionUpdateIsRolledBack | internal/caldavgw/repository.go:600-633 | with the token stored before the marker is made sure of, the update never takes effect |
| CalendarSyncReport.LookupObjectsByNames | internal/caldavgw/handler_report.go:963-1007 | cross-calendar batch, batch per calendar and one-by-one lookup each return exactly the active objects asked for, except that the last skips objects it cannot read; a failing batch fails the whole |
| CalendarSyncReport.JoinedResponses | internal/caldavgw/handler_report.go:744-819 | the path over joined changes computes the report of changes: fetch limit, last token, coalescing, limit, looked-up data, 404s |
| CalendarSyncReport.PlainResponses | internal/caldavgw/handler_report.go:821-900 | the path over plain changes computes the same report specification with its own lookups |
| CalendarSyncReport.SyncCollectionReport | internal/caldavgw/handler_report.go:646-701 | the report: unknown calendar, equal token, changes since a token, or a bounded first listing |
| CalendarSyncReport.CoalescedJoin | internal/caldavgw/handler_report.go:908-957 | coalescing joined changes keeps the same changes, with their objects, as coalescing plain ones |
| CalendarSync.CoalescedCovers | internal/caldavgw/handler_report.go:908-961 | after any log position, the coalesced changes have distinct objects, each is the last of its object, and every object with a change has one |
| CalendarSync.ChangesReceived | internal/caldavgw/handler_report.go:729-901 | a successful report leaves unchanged objects alone in the client's mirror, gives every other the answer to its last change, and carries the token of the last raw change |
| CalendarSync.ObjectsReceived | internal/caldavgw/handler_report.go:669-700 | a first report that succeeds gives the client exactly the active objects |
| CalendarSync.SyncKeepsLag | internal/caldavgw/handler_report.go:646-901 | one sync, with transactions and prunings between its four reads, succeeding or refused: every object the mirror has wrong has a change after the client's token, or is lost because all its changes were pruned between the lookup of the token and the listing |
| CalendarSync.MirrorOnlyLags | internal/caldavgw/handler_report.go:646-901 | the same after any sequence of transactions, prunings, syncs and dropped tokens, by induction over the run; what is lost is counted along, and forgotten by a first sync |
| CalendarSync.NothingLost | internal/caldavgw/repository_sync.go:22-46 | a run loses no object when no sync of it finds all changes of an object pruned between its two statements |
| CalendarSync.SyncIsSafeIff | internal/caldavgw/repository_sync.go:22-46 | a successful report of changes leaves every client that only lags in that state iff no object is missed: all its changes after the token pruned before the listing, none since, and changed before the lookup or looking different now |
| CalendarSyncExamples.PruningLosesObject | internal/caldavgw/repository_sync.go:22-46 | after a log of two upserts, pruned between the two statements, the client has the second object and the current token, and lacks the first for good |
| CalendarSyncExamples.UnreadableIsDropped | internal/caldavgw/handler_report.go:996-1005 | an undisturbed sync leaves the client with the current token and without an object that could not be read |
| CalendarSyncExamples.DeletedCalendarStays | internal/caldavgw/handler_report.go:655-661 | after a calendar was deleted a successful sync leaves its object in the mirror |
| CalendarSync.SyncConvergesIff | internal/caldavgw/handler_report.go:646-901 | with no transaction in between, a successful sync of a live calendar gives the calendar's token, or its last change's while the current one has no change, and a mirror equal to its active objects, but for lost ones, iff every changed object that is still there could be read |
| CalendarSync.RunsConverge | internal/caldavgw/handler_report.go:646-901 | a new client is brought up to date, but for lost objects, by one undisturbed sync after any run; there are none if no sync left an object unread; a refused sync leaves the client as it was |
| CalendarSync.DeletedCalendarMirror | internal/caldavgw/handler_report.go:655-661 | syncing a deleted calendar empties the mirror iff every object in it has a change of its own after the token |
| CalendarSync.JoinedAndPlainAgreeIff | internal/caldavgw/handler_report.go:744-900 | on the same state both kinds of store give the same report or the same error iff the report is refused before any answer, a failing batch is needed by both or by none, and no object that only the plain one-by-one lookup needs is unreadable, unless a missing path refuses both |
| CalendarQuery.CalendarQueryResponses | internal/caldavgw/handler_report.go:413-485 | the query without a time range lists, filters and refuses as specified, also where the store filters by component |
| CalendarQuery.TimeRangeResponses | internal/caldavgw/handler_report.go:487-547 | the time-range query scans its candidates as specified |
| CalendarQuery.NoSilentTruncation | internal/caldavgw/handler_report.go:413-547 | a successful query answers exactly the matching active objects, iff it walks or lists all candidates or nothing beyond the first 200 matches |
| CalendarQuery.WalkRefusesExcess | internal/caldavgw/handler_report.go:487-530 | a walked time-range query is refused iff more objects match than the limit |
| CalendarQuery.ListRefusesExcess | internal/caldavgw/handler_report.go:440-468 | a query without a time range is refused iff the store lists more objects than the limit |
| CalendarQuery.RecentRefusesExcess | internal/caldavgw/handler_report.go:532-547 | a time-range query that is not walked is refused iff more of the 200 most recent objects match than the limit |
| CalendarQuery.OldMatchIsLeftOut | internal/caldavgw/repository_discovery.go:132-134 | a matching object behind 200 others, all with different names that can be stored, is left out of a time-range query without an error |
| CalendarQuery.MarkerIsNeverSeen | internal/caldavgw/handler_report.go:434-437 | the upper-case component never equals the marker for unsupported components |
| CalendarQuery.UnsupportedIsAnsweredIff | internal/caldavgw/handler_report.go:434-468 | a query for an unsupported component is answered with no objects iff it has a time range, the store selects by component, or the calendar holds no more objects than the limit; otherwise it is refused |
| CalendarQuery.ListFreeBusyObjects | internal/caldavgw/handler_report.go:620-644 | the two bounded component queries list the first `limit` objects of both components together |
| CalendarQuery.FreeBusyPeriods | internal/caldavgw/handler_report.go:583-618 | the periods of every object that counts, in order; refused for excess iff the objects of both components together are too many |
| IfHeader.ConditionListMatches | internal/caldavgw/handler_objects.go:581-619 | the condition scanner computes the value of the list's text, with its errors |
| IfHeader.HeaderMatches | internal/caldavgw/handler_objects.go:515-564 | the header scanner computes the value of the header's text, with its errors, and ends |
| IfHeader.HeaderMeansItsLists | internal/caldavgw/handler_objects.go:515-619 | for every sequence of optionally tagged lists of possibly negated conditions, the printed header is true iff some list relevant to the path has all its conditions true, without error |
| IfHeader.TagsGovernIff | internal/caldavgw/handler_objects.go:515-564 | the evaluator agrees with the reading in which a tag governs the lists after it iff that reading is true or no untagged list after a tag for another resource has all its conditions true; it never refuses what that reading accepts |
| IfHeader.StrayListIsTaken | internal/caldavgw/handler_objects.go:527-555 | a header with a list about `/a` and an untagged list after it is true for `/b` |
| EntityTag.SplitHTTPList | internal/caldavgw/handler_objects.go:743-775 | the quote-aware splitter computes the parts of its input |
| EntityTag.RepeatedLinesSplit | internal/caldavgw/handler_objects.go:471-473 | splitting header lines joined by a comma gives the parts of the one followed by the parts of the other when the first splits, that is, ends outside quotes and escapes; otherwise the comma and the second line go on with its last part |
| EntityTag.QuoteClosesInNextLine | internal/caldavgw/handler_objects.go:471-473 | two lines neither of which splits alone are read as one tag with a comma |
| EntityTag.ParseEntityTag | internal/caldavgw/handler_objects.go:706-741 | one tag is read, weak or strong, with its errors |
| EntityTag.CheckOpaque | internal/caldavgw/handler_objects.go:723-739 | the loop accepts exactly the opaque texts the specification describes: no bare quote, no line break, and escapes of quotes and backslashes only |
| EntityTag.OpaqueTextIsOpaque | internal/caldavgw/handler_objects.go:723-739 | the accepted texts are the renderings of opaque items, some of them escaped |
| EntityTag.ParseHTTPEntityTagList | internal/caldavgw/handler_objects.go:673-704 | a list header is read as a wildcard or as its tags, with its errors |
| EntityTag.ListRoundTrip | internal/caldavgw/handler_objects.go:673-775 | reading the printed form of any list of good tags, also with commas and escaped quotes inside, gives back exactly these tags |
| EntityTag.IfNoneMatchMatches | internal/caldavgw/handler_objects.go:621-639 | the loop decides the condition on the parsed list |
| EntityTag.IfMatchMatches | internal/caldavgw/handler_objects.go:641-659 | the loop decides the condition on the parsed list under strong comparison |
| EntityTag.ConditionsDecideMembership | internal/caldavgw/handler_objects.go:621-671 | on printed lists the conditions hold iff the current tag is in the list under the comparison asked for |
| LdapDN.EscapeDNValue | internal/app/run_ldap.go:325-343 | the loop escapes special bytes, and spaces and the number sign at the ends |
| LdapDN.UnescapeDNValue | internal/app/run_ldap.go:371-387 | the loop resolves hexadecimal pairs and leaves the rest |
| LdapDN.SplitDistinguishedName | internal/app/run_ldap.go:345-369 | the loop splits at separators that are not escaped |
| LdapDN.EscapeRoundTrip | internal/app/run_ldap.go:325-402 | unescaping an escaped value gives the value |
| LdapDN.SplitSkipsEscaped | internal/app/run_ldap.go:345-369 | the splitter passes over an escaped value |
| LdapDN.NameRoundTrip | internal/app/run_ldap.go:285-323 | for every kind, id and base, the name is read back as kind and id iff no white space other than the space character stands at the ends of the id |
| LdapDN.NamesAreDistinct | internal/app/run_ldap.go:285-297 | under one base, different principals have different names |
| LdapDN.TabIsLost | internal/app/run_ldap.go:299-323 | an id that starts with a tab is not read back |
| CalendarPath.ContainsEncodedPathSeparator | internal/caldavgw/path.go:192-205 | the loop finds an encoded separator within four rounds of decoding |
| CalendarPath.EscapedPath | internal/caldavgw/path.go:22-76 | decoding a built path gives the path of its segments, and the built path has no encoded separator itself |
| CalendarPath.PlainPath | internal/caldavgw/path.go:95-105 | the path of accepted segments is canonical and is taken apart into them |
| CalendarPath.BuiltPathParses | internal/caldavgw/path.go:78-152 | a built path is parsed to the resource it names, inbox and outbox told apart, iff three more rounds of decoding show no encoded separator; otherwise it is refused for one |
| CalendarPath.BuildIsInjective | internal/caldavgw/path.go:22-76 | equal paths name the same resource |
| CalendarPath.EncodedSeparatorIsAccepted | internal/caldavgw/path.go:218-241 | the builder accepts the calendar id `a%2fb` |
| CalendarPath.EncodedSeparatorIsRefused | internal/caldavgw/path.go:85-87 | the path of an id with an encoded separator is refused by the parser |
| PasswordHash.Base64RoundTrip | internal/auth/password.go:49-54 | decoding the unpadded encoding of any bytes gives the bytes |
| PasswordHash.PrintedString | internal/auth/password.go:78-101 | the four parts of a printed string are read back, within all length bounds |
| PasswordHash.HashRoundTrip | internal/auth/password.go:32-105 | every printed string is valid without legacy formats, and a password verifies against it iff it is not too long and derives the same key |
| PasswordHash.LongPasswordFails | internal/auth/password.go:57-61 | a password of 1025 bytes is hashed, and does not verify against its own string |
| PasswordHash.VerifiedIsValid | internal/auth/password.go:110-167 | a string that verifies is valid, except one with a line break inside and the legacy string of the empty password |
| UsageAggregation.AggregateStore.ClaimEvent | internal/apimeter/aggregate.go:244-302 | the claim succeeds iff the id is empty or new |
| UsageAggregation.AggregateStore.WriteLedger | internal/apimeter/aggregate.go:165-242 | a ledger row is written once per id |
| UsageAggregation.AggregateStore.AddUsage | internal/apimeter/aggregate.go:47-79 | the tables after a success, a refusal, or a failure of any one statement |
| UsageAggregation.NormalizeTwice | internal/apimeter/identity.go:25-69 | normalizing an identity again changes nothing |
| UsageAggregation.NormalizeEventTwice | internal/apimeter/aggregate.go:81-163 | normalizing an event again changes nothing |
| UsageRuns.RunsAreSound | internal/apimeter/aggregate.go:47-79 | in every interleaving of deliveries, statements and crashes, ids are claimed by one call, the ledger holds the claimants' rows, and both tables add up their history |
| UsageRuns.AloneIsAddUsage | internal/apimeter/aggregate.go:47-79 | a delivery nothing interferes with takes the tables through the statements of the store's method |
| UsageConservation.AtMostOnce | internal/apimeter/aggregate.go:47-79 | monthly within daily within ledger within claims at every point, and no id added twice |
| UsageConservation.MonthlyIsSumOfDaily | internal/apimeter/aggregate.go:304-366 | a monthly bucket is at most the sum of its days, the maximum for the latency maximum, and equal to it iff no delivery of that bucket stands between the two |
| UsageConservation.ExactlyOnce | internal/apimeter/aggregate.go:47-79 | without failures every delivered id is counted once in each table |
| UsageConservation.DeliveryOrderDoesNotMatter | internal/apimeter/aggregate.go:47-79 | runs without failures that deliver the same events, in any order and number, end with the same tables |
| UsageConservation.FailedClaimLosesEvent | internal/apimeter/aggregate.go:56-62 | after its claimant failed, an id is counted in the daily table, ever after, iff the claimant had got past that statement |
| UsageConservation.RedeliveryIsRefused | internal/apimeter/aggregate.go:56-62 | a delivery fails right after its claim; its repetition is refused and the tables stay empty |
| LeaderLease.Manager.IsLeader | internal/backpressure/auto.go:163-171 | the election as the script decides it; an unreachable server makes no leader |
| LeaderLease.Manager.Check | internal/backpressure/auto.go:173-189 | lock, remembered level and published level after one check |
| LeaderLease.HandOverTakesLifetime | internal/backpressure/auto.go:16-27 | another instance wins at the earliest one lock lifetime after any win |
| LeaderLease.RenewalKeepsLeader | internal/backpressure/auto.go:16-27 | within the lifetime of a win, an attempt wins iff it is the winner's |
| LeaderLease.SilenceFreesLock | internal/backpressure/auto.go:46-49 | an attempt wins when no win happened within one lifetime before it |
| LeaderLease.ChecksDoNotOverlap | internal/backpressure/auto.go:173-189 | checks that end within the lifetime do not overlap between instances |
| LeaderLease.SharedIdBreaksExclusion | internal/backpressure/auto.go:43-45 | two processes with one id lead at once |
| LeaderLease.PublishedIsLastWritten | internal/backpressure/auto.go:173-189 | after any run of checks the published level is that of the last check that changed its instance's remembered level and wrote successfully, or `normal` |
| LeaderLease.LeaderPublishesIff | internal/backpressure/auto.go:173-189 | after any run of checks the published level is the one the last leader computed iff the last successful write carried it, or there was none and it is `normal`; when that leader's own writes succeed, it is another level iff the last successful write is another instance's and carried another level |
| LeaderLease.SoleInstancePublishes | internal/backpressure/auto.go:173-189 | with one instance and successful writes the published level is the one last computed |
| LeaderLease.StaleLevelStaysPublished | internal/backpressure/auto.go:173-189 | after two hand-overs the last leader computes `critical` and `normal` is published |
| CircuitBreaker.Scanner.CircuitOpen | internal/attachmentscan/clamav.go:201-213 | open iff before the deadline; a deadline that has passed resets the breaker |
| CircuitBreaker.Scanner.RecordFailure | internal/attachmentscan/clamav.go:215-222 | counts, and sets the deadline from the threshold on |
| CircuitBreaker.Scanner.ScanStream | internal/attachmentscan/clamav.go:91-117 | answer and breaker for every outcome; the slot is given back |
| CircuitBreaker.BreakerInvariant | internal/attachmentscan/clamav.go:91-117 | in every interleaving of scans: the counter is the failures since the last success or expiry, a deadline is set iff it reached the threshold and counts from the last failure, and connected scans never exceed the slots |
| CircuitBreaker.LookDecides | internal/attachmentscan/clamav.go:98-100 | a scan that looks before the deadline never connects, whatever happens later |
| Instream.SendFile | internal/attachmentscan/clamav.go:131-161 | the bytes sent are the frames of the chunks read, and a terminator iff reading completed within the limit |
| Instream.TransmissionDecodesToFile | internal/attachmentscan/clamav.go:131-161 | however the file is cut into reads, the transmission completes iff reading does not fail and the file fits, and then decodes to exactly the file; content sent never exceeds the limit |
| Instream.IncompleteIsNotDecoded | internal/attachmentscan/clamav.go:131-161 | frames without a terminator are not taken for a file |
| JobLock.Lock.Acquire | internal/batchlock/batchlock.go:37-55 | succeeds iff already held by this object or not marked |
| JobLock.Lock.Release | internal/batchlock/batchlock.go:73-88 | unmarks the job iff this object held it |
| JobLock.RunTick | internal/batchlock/batchlock.go:194-217 | the handler runs iff the lock is free, its error or panic is logged, and the lock is free afterwards however it ended |
| JobLock.AtMostOneHandler | internal/batchlock/batchlock.go:182-217 | in every interleaving of goroutines with their calls, deferred functions and panics: a job is marked iff exactly one lock object holds it, at most one handler of it runs, no panic ends the process, and a goroutine that told its wait group holds no lock |
| JobLock.EveryRunIsReleased | internal/batchlock/batchlock.go:205-217 | every worker's history follows the cycle: handler started, finished, recovered from iff it panicked, lock released, and only then started again |
| JobLock.ReleaseFollows | internal/batchlock/batchlock.go:205-217 | once its handler has finished, a worker that takes four more steps of its own has released its lock, whatever the others do |
| JobLock.UnguardedPanicCrashes | internal/batchlock/batchlock.go:205-213 | the same panic without the deferred cleanup ends the process |
| AuditChain.AuditTable.InsertTx | internal/audit/postgres.go:54-127 | the row links to the latest row and carries the digest of the normalized log; a log that is invalid or that the database refuses changes nothing |
| AuditChain.NormalizedTwice | internal/audit/audit.go:32-78 | a normalized log is left as it is by normalizing it again at any time |
| AuditChain.InsertKeepsChainIff | internal/audit/postgres.go:111-127 | an insertion keeps the chain valid iff the row is not placed before the latest one, by its time in microseconds and its id |
| AuditChain.EarlierLogBreaksChain | internal/audit/postgres.go:111-127 | a second log with an earlier creation time makes the chain of two invalid |
| AuditChain.IncreasingTimesKeepChain | internal/audit/postgres.go:54-127 | logs in the order of their stored creation times, to the microsecond, and ids make a valid chain |
| AuditChain.HeadHashFixesChain | internal/audit/audit.go:87-131 | two valid chains that end in the same hash hold the same hashed logs and links row for row |
| AuditChain.PurgedIsUnexpired | internal/auditretention/repository.go:164-175 | the rows of the chain that a purge of a company before a cutoff leaves are those of the retention sweep's one-shot delete |
| AuditChain.PurgeKeepsLinksIff | internal/auditretention/repository.go:164-175 | after a purge of a company's rows before a cutoff those left link to one another iff no purged row stood between two kept ones |
| AuditChain.PurgeBreaksChain | internal/auditretention/repository.go:164-175 | of three inserted rows of two companies, purging the middle one leaves two that do not link |
| AuditChain.CheckIntegrity | internal/maildb/audit_logs.go:228-305 | the loop reports exactly the rows whose digest or link is wrong |
| AuditChain.RehashedIff | internal/maildb/audit_logs.go:261-303 | a stored log is hashed as before iff its time is in whole microseconds, its ids and address are as the database prints them, and so is its detail up to spacing, within the size limit |
| AuditChain.CheckPassesIff | internal/maildb/audit_logs.go:261-303 | the check of inserted rows passes iff they link and every log has that form |
| AuditChain.NanosecondsFailCheck | internal/audit/audit.go:71-75 | a log without a creation time, inserted when the clock is not at a whole microsecond, fails the check at once |
| AuditRetention.Repository.PurgeExpired | internal/auditretention/repository.go:149-197 | for every batch size the loop ends; it fails iff one of its batches, one for every full batch due and a last one, does; without an error it equals the one-shot delete and reports its count; with one, what is gone and what is reported follow from the number of the failing batch and how it failed |
| AuditRetention.Repository.Enforce | internal/app/audit_retention_worker.go:63-75 | one policy purged, or counted for a dry run, without touching other companies; when it fails, and when a failure deleted nothing |
| AuditRetention.Repository.PurgeOnce | internal/app/audit_retention_worker.go:36-121 | the sweep enforces every policy up to the first that fails, leaves companies without one alone and all rows for a dry run; it reports the rows gone, less those its failing step deleted: the true sum iff nothing fails, or the failing policy names no company, has no rows due, or has its first batch refused |
| AuditRetention.FailingSweep | internal/app/audit_retention_worker.go:77-111 | two rows due in batches of one, the second batch refused: a row is gone and none is reported |
| AuditRetention.DeleteInBatches | internal/auditretention/repository.go:176-195 | two batches delete what one of their joint size deletes |
| AuditRetention.SurvivesIff | internal/auditretention/repository.go:164-175 | a row survives `n` deletions iff it is not expired or `n` expired rows come before it |
| AuditRetention.OldestGoFirst | internal/auditretention/repository.go:164-175 | in a table sorted by creation time and id every row deleted is expired and comes before every expired row left |
| Utf8Truncation.TruncateBackward | internal/attachmentscan/hook.go:142-151 | dropping trailing bytes until the text is valid gives the longest valid prefix within the limit |
| Utf8Truncation.TruncateForward | internal/auditretention/model.go:178-188 | accumulating whole runes within the limit |
| Utf8Truncation.TruncationsAgree | internal/app/admin_service_delivery.go:113-122 | on valid text both give the same string, the longest valid prefix within the limit, at most three bytes below it |

## Left out

- XML, HTTP, JSON and SQL text: requests, responses and statements are modelled by what they mean.
- PostgreSQL concurrency: a transaction is one step; row locks and isolation levels are not modelled, so neither are two audit insertions that read the same latest hash.
- Calendar data: parsing, rendering, time-range matching and busy periods are parameters that may fail.
- Errors of single database reads of a report, other than a failing batch lookup: such a report is refused, as any other error.
- CalendarStore.WriteKeeps: `If-Match` checks on the stored tag, and the retry of a transaction, are not modelled; a write that does not apply changes nothing.
- Pruning by age is modelled as dropping a number of the oldest changes, since changes are logged in the order of time.
- Several calendars: one log belongs to one calendar; the lookup by names is modelled for any number of them.
- The calendar-multiget report, and stores without a bounded listing.
- IfHeader.HeaderMeansItsLists: `Not` must be followed by a blank, as the code wants it.
- LdapDN.SplitDistinguishedName: the code goes over runes, the model over bytes, which is the same on valid UTF-8.
- Letter case is folded in ASCII only, in `Text.ToLower` and `CalendarQuery.Upper`.
- `ParseResourceHref`: the splitting of absolute URIs by Go's `net/url`.
- `path.Clean`, `url.PathEscape`, `url.PathUnescape`, `strconv` and `encoding/base64` are modelled from their documentation; their code is not part of this model.
- What PostgreSQL makes of a UUID, an address and a JSON text are parameters; SoundDatabase states what is assumed of them.
- AuditChain.Normalized: a creation time within the first microsecond of Go's zero time.
- Goroutines end with a return or a panic; `runtime.Goexit` is not modelled, nor is a panic inside a deferred function.
- PBKDF2, SHA-256 and HMAC are parameters; that a digest has no collisions is an assumption where it is used.
- Random salts, event ids derived by hashing, and the decoding of usage events from JSON.
- 64-bit overflow of usage totals and byte counts.
- Evaluation of memory ratios in floating point: ratios are real numbers.
- Loss or eviction of Redis keys, and clocks that differ between the Redis server and the instances; the lease runs on one clock.
- The daemon's response to a scan, partial writes on its connection, and its `PING`.
- JobLock.Lock.Acquire: the in-memory path only; advisory locks of PostgreSQL are not modelled.
- AuditRetention.Repository.PurgeExpired: rows that others insert during the loop are not modelled.
- Retention policies are given; setting, deleting and listing them only needs single-branch validation.
- `cleanRunErrorMessage`: its collapsing of white space before the truncation.
- Export manifests, backup bundles and storage snapshots: list bookkeeping that would add only easier members.
