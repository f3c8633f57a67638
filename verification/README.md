# Verification of the OLT collector's history pipeline

This project models the part of the collector that turns SNMP walks into history, and proves that its many
forms of the same computation agree. One module stands for one component:

| module | component |
|---|---|
| `Events`, `EventLogs`, `Transitions`, `MemoryStore` | the change events derived from PON samples, and the in-memory store that records them one by one |
| `Tables`, `StoreAgreement`, `UnreadOnus`, `TimescaleStore`, `StoredRows` | the durable store, which derives a whole batch against its tables and writes them afterwards, its agreement with the in-memory one, and what its rows show |
| `PollFailures` | what polls leave in the durable store that fail between two of its statements |
| `Backfill`, `BackfillResult`, `ReplaySteps`, `DurableHistory`, `PolledHistory` | the offline replay that rebuilds event logs, port table and ONU rows from stored samples |
| `Runs`, `SampleLists`, `SampleCounts`, `Duplicates`, `DuplicateReport`, `DuplicateQuery`, `DuplicateAgreement` | queries over a run's time window, counts, and the duplicate-serial report in its two forms |
| `Pacing`, `Polling`, `Poller` | the poller: visiting order, samples, counters, pauses, passes and cycles |
| `Discovery`, `Unauth` | unconfigured ONUs: discovery, the in-memory list and the soft-delete table |
| `Ethernet`, `CollectedPorts`, `Oid` | Ethernet port collection by one walk per PON or per ONU, what it reads off the device, and OID suffixes |
| `SnmpPool` | the SNMP connection pool and its semaphore, as interleaved steps of any number of callers arriving at any time |
| `ChangeKeys`, `Registry` | the registry that reconciles running OLT stacks with a configuration list |
| `Topology`, `BoardMap`, `CacheKeys` | board topology text, the OID map, request validation, Redis keys |
| `Text`, `Ordering` | strings as Go's library treats them, and sorting |

Objects whose methods update fields are classes whose methods change those fields (`Memory`, `Timescale`, `Poller`,
`SnmpRepository`, `OLTRegistry`). A method that loops carries a contract that ties its result or the new state to a
function of the old state, and the lemmas of the table below are about those functions, over every input or every run.
SQL tables are maps and SQL statements functions on them. A Go map that is ranged over is visited in an arbitrary
order. `sort.Slice` yields some ordered permutation. Times are integers, in nanoseconds where the source computes with
them; machine integers are unbounded except where text is parsed, and there the 64-bit range is explicit. A walk is
the sequence of cells it delivers and whether it ended without an error.

## What the code does that its comments or names do not say

* The last-change columns of the two stores are computed differently: the durable store's upsert compares statuses by
  spelling, the events and the in-memory store ignore case. `StoreAgreement.ChangeColumnsAgreeIff` says exactly when
  they agree. They differ only for a status in two spellings, which the collector never writes
  (`StoreAgreement.CollectedIsCanonical`), so polled rows are equal in all columns
  (`StoreAgreement.CollectedRowsAgree`), and a backfill makes them equal for any statuses
  (`BackfillResult.BackfilledRowIsLive`).
* An ONU whose serial could not be read is compared, in the durable store, with the last port rows of the whole device,
  so its Ethernet events can differ from those of the in-memory store; `StoreAgreement.UnreadEventsAgreeIff` says
  exactly when they do not. It lists no ports when its details could not be asked for, and then the logs of the two
  stores are equal (`UnreadOnus.LogsAgree`). The ONUs that were read are never affected
  (`UnreadOnus.StoresAgreeOnReadOnus`).
* The durable store records a poll in separate statements without a transaction. A failed poll that logged a status
  change without writing the ONU's row logs it again when it is repeated; `PollFailures.RepeatHarmlessIff` says exactly
  when a repeat logs nothing twice. The backfill does not give such events back: `DurableHistory.AnyRunReplaysIff` says
  exactly when it gives back what was logged.
* The backfill rebuilds the port table from each ONU's last sample alone, so ports only seen earlier disappear and
  every change time becomes the last sample's time (`Backfill.BackfilledPorts`,
  `BackfillResult.RebuiltEqualsLiveIff`).
* An interrupted pass hands its cancelled context to the final write of its run row. A store that refuses it leaves the
  row open (`Poller.InterruptedStaysOpen`), and a query for an open run also selects what later runs insert
  (`Runs.RunQueryRecoversRunIff`).
* A comment promises empty port lists for offline ONUs. When any ONU of the PON is online and the type is known, the
  list is padded with unknown ports instead (`Ethernet.OfflineEntryEmptyIff`).
* Changing only an OLT's concurrency limit keeps the old pool with the old limit while the entry publishes the new one,
  and later reconciles of the same list keep it so (`Registry.StaleLimitIff`, `Registry.StaleForGood`).
* The request check and the OID map disagree on topologies with a PON count outside 1..16, which parsing never yields
  (`BoardMap.RequestsAgreeIff`).
* A spread pause need not keep the share of the remaining units: a gap longer than the share eats into it
  (`Pacing.ShareShrinksIff`).
* A run's ONU total can fall short of the samples it stored, exactly when a visit that found ONUs failed in its last
  write (`Polling.TotalIsStoredIff`).
* The in-memory store reports the time of the last discovery as an ONU's first-seen time, the table the first ever. They
  agree exactly on an ONU the table had no row for, or one first seen at that time
  (`Unauth.MemoryForgetsFirstSeen`).
* Under the empty serial the in-memory store logs every non-empty port reading of every sample again
  (`EventLogs.EmptySerialLogsEverything`).
* The suffix parser gives the printed list back for every root but the empty one (`Oid.PlainRoundTripIff`).

## Model

| member | source | states |
|---|---|---|
| CacheKeys.KeysNeverCollide | internal/usecase/onu.go:49-96 | two cache entries share a Redis key only when OLT, kind, board, PON and ONU are all the same, for any OLT ids, including ids holding underscores or text like a key, and the unprefixed default |
| Oid.JoinSuffix | internal/usecase/unauth.go:103-115 | the loop prints the integers separated by dots, nothing for the empty list |
| Oid.ParseEthernetSuffix | internal/usecase/ethernet.go:108-128 | the loop accepts a name exactly when it continues the root by a dot and dot-separated machine integers, and then returns all of them in order |
| Oid.SuffixRoundTrip | internal/usecase/ethernet.go:108-128 | parsing a printed suffix against its root gives the list back, whether or not root and name carry a leading dot |
| Oid.PlainRoundTripIff | internal/usecase/ethernet.go:108-128 | over all roots without a leading dot the round trip holds exactly when the root is not empty |
| Oid.DigitPrefixIsNotSubtree | internal/usecase/ethernet.go:108-113 | a name that continues the root without a dot is rejected |
| Oid.DecodeInvertsEncode | internal/usecase/unauth.go:90-101 | decoding an ifIndex succeeds exactly on the encodings of slots 1..30 and PONs 1..16 and gives back that slot and PON |
| Events.ApplyExpectedPorts | internal/store/events.go:165-184 | the padding changes only the expected count and the ports: a list at least as long as the type's count, so any list of an unknown type, comes back as it is, and a shorter one becomes the indexes 1..n, each with the last listed reading of it or unknown |
| Events.PortCounts | internal/model/onu_ports.go:8-25 | a type has four, two, one or no expected port exactly as its normal form holds one of the listed model names, the larger group deciding |
| Events.NormalForm | internal/model/onu_ports.go:59-67 | the normal form consists of capital letters and digits, keeps such a text as it is, passes over every other character and raises small letters |
| Events.PaddedPorts | internal/store/events.go:165-184 | a short list of a known type becomes the indexes 1..n in order, observed indexes keep a reading that was listed, the others read unknown |
| Events.PaddedIdempotent | internal/store/events.go:165-184 | padding a padded sample changes nothing, and padding changes only ports and expected count |
| Events.PaddedKeepsDistinct | internal/store/events.go:165-184 | padding keeps port indexes distinct |
| Events.EthEventsFrom | internal/store/events.go:134-163 | the loop appends one event for each port that changed against the previous states and none for the others |
| Events.EventsOfSample | internal/store/events.go:120-163 | every event of a sample of a batch holds that sample's time, device, serial, board, PON, ONU and new value, an Ethernet event also its port, link, admin and speed as listed or padded |
| EventLogs.StatusLogExplainsState | internal/store/events.go:110-132 | over any sample sequence of one ONU: the stored previous status and change time are those of the last status event, the stored status is that event's up to case, each event continues the one before up to case, and none is a non-change |
| EventLogs.EthLogExplainsState | internal/store/events.go:134-163 | over any sample sequence with distinct ports: per port the first event starts from nothing, each later one from exactly the values before it, every event is a change, replaying the log gives the stored values, and the change time is the last event's |
| EventLogs.RepeatedPortBreaksTheLog | internal/store/events.go:137-160 | a sample that lists one index twice logs events that do not chain, so distinct ports are needed |
| EventLogs.EmptySerialLogsEverything | internal/store/events.go:139-145 | under the empty serial the Ethernet log grows by every non-empty reading of every sample and the status log stays empty, so non-empty serials are needed |
| EventLogs.EthEventsAgreeIff | internal/store/events.go:134-163 | one sample gives the same Ethernet events against two sets of previous states exactly when each of its readings is a change against both or against neither and, where it is one, from the same values |
| Transitions.OnuKeyInjective | internal/store/memory.go:255 | the ONU map key separates (device, serial) pairs for device ids without the separator, whatever the serials hold |
| Transitions.PortKeyInjective | internal/store/memory.go:283 | the port map key separates (device, serial, port) triples |
| Transitions.ScanIsLookup | internal/store/memory.go:275-280 | scanning the whole port map for one ONU finds exactly what a keyed lookup finds |
| Transitions.RecordOneProjects | internal/store/memory.go:253-299 | recording a sample changes what the store holds of that sample's ONU as that ONU's own history says, and of no other ONU |
| Transitions.RecordAllProjects | internal/store/memory.go:250-301 | in every reachable store, what it holds of an ONU is what that ONU's own samples make, through string keys and interleaved logs |
| Transitions.RecordAllConcat | internal/store/memory.go:250-301 | recording batch after batch is recording their concatenation |
| Transitions.RecordedIsShown | internal/store/memory.go:250-301 | after any batch an ONU's row shows the status, place, name and type of its last sample, each of its port rows the link, admin, speed and duplex of the last sample that mentions the port, and rows no sample speaks of are as before |
| Transitions.RecordedEvents | internal/store/memory.go:253-298 | recording only appends to the logs, and every event appended shows a sample of the batch in all columns |
| Transitions.StatusLogExplainsStore | internal/store/memory.go:253-274 | in every reachable store the status log of every ONU with a non-blank serial explains its row |
| Transitions.EthLogExplainsStore | internal/store/memory.go:275-298 | in every reachable store fed distinct ports the Ethernet log of every ONU and port explains its row |
| MemoryStore.Memory.ScanPorts | internal/store/memory.go:275-280 | ranging over the port map in any order collects exactly the ONU's rows by index |
| MemoryStore.Memory.StoreStatus | internal/store/memory.go:255-274 | the status half of a sample appends the change event, if any, and stores the row the history says |
| MemoryStore.Memory.StorePorts | internal/store/memory.go:282-298 | the port half of a sample stores each port's row, keeping the change time of unchanged readings |
| MemoryStore.Memory.RecordSampleTransitions | internal/store/memory.go:250-301 | the whole batch has the effect of the fold over its samples on all four fields; afterwards every ONU's row holds the fields of its last sample and every port row the reading of the last sample that mentions the port, listed ports of unknown types included, other rows are as before, and every appended event shows a sample of the batch |
| MemoryStore.Memory.InsertCollectionRun | internal/store/memory.go:66-73 | ids count up and the run is appended under its id |
| MemoryStore.Memory.FinishCollectionRun | internal/store/memory.go:75-86 | the first row with the run's id is replaced, or the run appended |
| MemoryStore.Memory.ListSamples | internal/store/memory.go:88-110 | a missing run is an error; otherwise each listed sample has the device, serial, board, PON and ONU asked for, the status up to case and a time in the resolved window, newest first; when fewer than the limit (500 by default) are listed every stored sample that meets this is, and otherwise the newest; the window is the run's, the times asked, or the 24 hours up to now |
| SampleLists.ResolvedMeans | internal/store/query.go:33-73 | the window and run a query resolves to: that of the run asked for, open runs reaching to the present, otherwise the times asked, with the present and the 24 hours before the end for those left out; it fails exactly when the run asked for does not exist |
| SampleLists.AnswerMeans | internal/store/query.go:75-99 | a newest-first list of the selection is the answer stated column by column, sound and, below the limit, complete |
| MemoryStore.FittingList | internal/store/memory.go:101-109 | a list within the limit holds exactly the selected samples with non-increasing times |
| MemoryStore.Memory.ListSampleCounts | internal/store/memory.go:112-142 | a missing run is an error; otherwise each bucket's count is the number of stored samples that meet the query column by column, lie in the resolved window and have the bucket's value in the named column, the buckets are all of these and add up to the number of such samples, the most frequent first and ties by value |
| SampleLists.CountsMean | internal/store/memory.go:112-142 | exact buckets of the selection are the counts of the stored samples by the literal column: status, board, PON, type or Ethernet link, empty values shown as such |
| SampleCounts.SortTally | internal/store/memory.go:131-140 | whatever the map order, each occurring value is listed once with its exact count, the most frequent first and ties by value |
| SampleCounts.ExactUnique | internal/store/memory.go:131-140 | there is only one such list |
| SampleCounts.CountsConserve | internal/store/memory.go:123-130 | the counts of the buckets sum to the number of counted samples |
| MemoryStore.Memory.ListStatusEvents | internal/store/memory.go:207-225 | the newest matching events, newest first: every place of the log the list takes matches the device and serial, none between is left out, and it stops at the limit used: the one asked for when within 1..500, 50 when none is, 500 above |
| MemoryStore.NewestMatching | internal/store/memory.go:207-225 | the list is the last matching places of the log in reverse order, all of them while they are fewer than the limit |
| MemoryStore.NewestIsLast | internal/store/memory.go:207-225 | the first listed event of an ONU is the last entry of its log, the one that explains its row |
| MemoryStore.EventLimit | internal/store/events.go:100-108 | a limit within 1..500 is used as it is, none asked for means 50, a greater one 500 |
| MemoryStore.Memory.ReplaceUnauth | internal/store/memory.go:303-317 | a failed discovery keeps the previous ONUs and their count, anything else replaces the list |
| MemoryStore.Memory.ListDuplicateSerials | internal/store/memory.go:328-333 | the report assembled from all samples against the run the scan of the runs finds, stated sample by sample: which serials are listed, their positions with count, last time, status, name and whether in the latest run, the order of both, and the header |
| StoreAgreement.BatchAgrees | internal/store/timescale_v3.go:229-266 | deriving a batch from the tables as they were before it appends the same events, and leaves the same port rows, as recording it sample by sample |
| StoreAgreement.StoresAgree | internal/poller/poller.go:196-216 | over every run of polls whose batches have one device and distinct non-empty serials, the two stores hold the same two logs entry by entry, the same port rows, and the same ONU rows in every column but the two of the last change, which the next rows settle |
| StoreAgreement.RepeatedSerialDisagrees | internal/store/timescale_v3.go:243-248 | a serial listed twice in a batch is one event recorded one by one and two against the snapshot, so distinct serials are needed |
| StoreAgreement.UnreadEventsAgreeIff | internal/store/timescale_v3.go:293-315 | for any rows before the poll, the two stores log the same Ethernet events for a sample without a serial exactly when each reading meets alike rows: an empty one no row of another ONU that holds values, any other one the same previous values, and in another ONU's row a difference from the reading |
| StoreAgreement.EmptySerialComparesOthers | internal/store/timescale_v3.go:293-315 | a sample whose serial could not be read, beside another ONU's port that reads alike: the durable store logs nothing and the in-memory store the reading |
| StoreAgreement.FoldColumns | internal/store/memory.go:257-261 | the in-memory last-change columns describe the last sample whose status differs from its predecessor beyond case |
| StoreAgreement.TableColumns | internal/store/timescale.go:189-190 | the table's last-change columns describe the last sample whose status differs from its predecessor in spelling |
| StoreAgreement.PolledRow | internal/store/timescale.go:175-203 | over every run of polls an ONU's table row is the one built from its own samples |
| StoreAgreement.ChangeColumnsAgreeIff | internal/store/timescale.go:189-190 | with increasing times the two stores' last-change columns agree exactly when the status has kept one spelling since its last change beyond case |
| StoreAgreement.RespelledStatusDiffers | internal/store/timescale.go:189-190 | two samples whose statuses differ in letter case alone make the columns differ |
| StoreAgreement.RowsAgree | internal/store/timescale.go:180-198 | over every run of polls, an ONU no two of whose statuses differ in letter case alone has one and the same row in both stores, all columns included |
| StoreAgreement.CollectedIsCanonical | internal/utils/extractor.go:114-139 | no two of the statuses the collector can write, the empty one included, differ in letter case alone |
| StoreAgreement.CodesOfStatus | internal/utils/extractor.go:114-139 | each of the seven statuses stands for one code, and Unknown for every other value |
| StoreAgreement.CollectedRowsAgree | internal/poller/poller.go:196-216 | over every run of polls with collected statuses every ONU with a non-blank serial has one and the same row in both stores, all columns included |
| UnreadOnus.NamedIsGood | internal/store/timescale_v3.go:229-266 | dropping the samples without a serial from a poll leaves one device and distinct non-empty serials |
| UnreadOnus.NamedRun | internal/store/timescale_v3.go:229-266 | over every run of polls the samples without a serial leave no trace in the durable store's ONU table and status log, nor in the ports and Ethernet events of any ONU that has one |
| UnreadOnus.StoresAgreeOnReadOnus | internal/poller/poller.go:196-216 | over every run of polls, with any number of unread serials in each, both stores hold for every ONU that was read the same status and Ethernet events, the same ports, and the same row up to the two last-change columns |
| UnreadOnus.ReadRowsAgree | internal/poller/poller.go:196-216 | over the same runs with collected statuses the rows agree in all columns |
| UnreadOnus.LogsAgree | internal/poller/poller.go:196-216 | over every run of polls, with any number of unread serials in each, the two status logs are equal entry by entry, and so are the two Ethernet logs when the unread ONUs list no ports |
| TimescaleStore.Timescale.UpsertEthState | internal/store/timescale_v3.go:202-227 | one statement per port: the rows before the statement that fails are written and no others, all of them when none fails, and then the table is the one the batch upsert gives |
| TimescaleStore.Timescale.PortsByIndex | internal/store/timescale_v3.go:293-315 | for a non-empty serial the rows of exactly that ONU by port; for the empty serial, per port, the row of the device that comes last by serial |
| TimescaleStore.Timescale.SampleEvents | internal/store/timescale_v3.go:243-257 | the events of one sample against the tables, the port comparison of an empty serial included |
| TimescaleStore.Timescale.DeriveBatch | internal/store/timescale_v3.go:241-258 | all status and Ethernet events of any batch come from the tables before it, and the caller's array is padded in place, up to the query that fails if one does |
| TimescaleStore.Timescale.RecordSampleTransitions | internal/store/timescale_v3.go:229-266 | for every batch, empty serials included, and wherever its statements stop, the store is left with exactly the statements before the stop; otherwise both logs and the port table change as the batch function says, every port that a sample mentions and no later one of its ONU has a row with that reading, other port rows are as before, and every appended event shows a sample of the batch |
| StoredRows.RecordShows | internal/store/timescale_v3.go:229-266 | whatever the tables held, after a batch each port row shows the reading of the last sample that mentions the port, other rows are as before, and the appended events show samples of the batch |
| TimescaleStore.Timescale.InsertSamples | internal/store/timescale.go:143-173 | the samples are appended padded, each as the padding promises, or none is when the insert fails |
| TimescaleStore.Timescale.UpsertONUs | internal/store/timescale.go:175-203 | every non-blank sample updates its row, blank ones are skipped; when a statement fails exactly the rows before it are written |
| TimescaleStore.Timescale.StorePoll | internal/poller/poller.go:206-214 | wherever the statements of a poll stop, store and failure are those of the stopped poll; when none fails it is one batch step, over which the two stores agree |
| StoredRows.PollShows | internal/poller/poller.go:206-214 | after a whole poll each ONU's row holds the fields of its last sample and each port row the last reading, other rows are as before, blank serials have none, and the samples are the polled ones in order with lists of unknown types unchanged |
| PollFailures.UnfailedIsWhole | internal/poller/poller.go:206-214 | a poll none of whose statements failed is the whole poll |
| PollFailures.WritesPut | internal/store/timescale_v3.go:202-227 | the port rows written one by one amount to the batch upsert |
| PollFailures.ReadablePut | internal/store/timescale.go:175-203 | leaving out the samples without a serial beforehand gives the same ONU table as skipping them |
| PollFailures.RetryLogsAgain | internal/store/timescale_v3.go:259-265 | a poll that fails after its status events were inserted and before any ONU row was written has logged its changes, and repeating it logs every one of them a second time |
| PollFailures.RepeatHarmlessIff | internal/poller/poller.go:206-214 | wherever a poll failed, repeating it leaves the status log of one whole poll exactly when no sample whose change was logged, and whose ONU row was not written, has another status than that row |
| PollFailures.FailedPollsOnlyLog | internal/store/timescale_v3.go:229-266 | over every run in which failed polls stop before an ONU row is written, the ONU rows and samples are those of the stored polls alone, each ONU's status events are those in their order and, in between, as many more as failed polls logged for it, and ports and Ethernet events are unchanged too when no failed poll reached the port rows |
| DurableHistory.StoredPolls | internal/store/timescale.go:143-173 | over every run of polls the stored samples are the polled ones, padded, in order |
| DurableHistory.DurableBackfill | internal/store/timescale_v3.go:38-92 | over every run of polls the replay of the durable store's samples gives, for every ONU that was read and has strictly increasing times, exactly the status and Ethernet events the durable store logged, source tag aside |
| DurableHistory.FailedRunReplaysIff | internal/store/timescale_v3.go:38-92 | when polls have failed before an ONU row was written, the replay gives the ONU's logged status events exactly when no failed poll had logged one for it, and its Ethernet events whenever no failed poll reached the port rows |
| DurableHistory.FailedInsertIsStray | internal/store/timescale_v3.go:259-264 | the first poll of a new ONU whose Ethernet events are refused leaves one such event |
| ReplaySteps.StepsExplainedIff | internal/store/timescale_v3.go:57-92 | for samples of one ONU at increasing times, each logged or not, stored or not, against any state, what was logged is what the stored ones amount to exactly when each sample fits: logged and not stored it is no change, stored it is the same change against the state it met as against the last stored sample; likewise for each of its ports |
| DurableHistory.AnyRunReplaysIff | internal/store/timescale_v3.go:38-92 | whichever statements of whichever polls failed, between two ONU rows of one poll included, the replay gives an ONU's logged status events exactly when each of its polled samples fits, and its Ethernet events exactly when each of their ports does |
| DurableHistory.UnwrittenRowLogsTwice | internal/store/timescale_v3.go:38-92 | a first poll that fails before the ONU's row, after its sample, and a second that sees the same status do not fit |
| TimescaleStore.Timescale.QuerySamples | internal/store/timescale_v3.go:48-52 | the stored samples with a non-empty serial, each as often as stored, ascending by device, then serial, then time, ties in any order |
| TimescaleStore.Timescale.Replay | internal/store/timescale_v3.go:57-92 | the loop over the rows has the effect of the replay function on logs and latest samples |
| TimescaleStore.Timescale.BackfillEventsFromSamples | internal/store/timescale_v3.go:38-127 | the backfilled entries of both logs are replaced by those of the replay and the others stay in order, the port table by one built from the latest samples, and every ONU row takes the previous status and change time of one of its newest events, whatever its source, and keeps the other columns, with the fallbacks for unset ones |
| BackfillResult.BackfilledLogs | internal/store/timescale_v3.go:39-101 | each log is its entries from other sources in their order, followed by the replayed ones |
| BackfillResult.BackfilledRows | internal/store/timescale_v3.go:109-125 | each row takes previous status and change time of a newest event of its ONU, or its own and then its last-seen time where there is none, gets an expected count only if it had none, and keeps everything else; no row appears or goes |
| TimescaleStore.Timescale.NewestEvent | internal/store/timescale_v3.go:113-117 | the event of an ONU with the greatest time, of any source, or none when it has no event |
| TimescaleStore.Timescale.StampRows | internal/store/timescale_v3.go:109-118 | every row takes previous status and change time from one of the newest events of its ONU, rows without events are left alone |
| TimescaleStore.Timescale.BackfillExpectedPorts | internal/store/timescale_v3.go:129-164 | every row without an expected port count gets that of its type, if the type has one, and no other row changes |
| BackfillResult.BackfilledRowIsLive | internal/store/timescale_v3.go:109-118 | over every run of polls, a backfill makes the durable row of every ONU with strictly increasing times equal to the in-memory row in all columns, whatever the spelling of its statuses |
| BackfillResult.BackfillIsIdempotent | internal/store/timescale_v3.go:38-127 | when no two stored samples of an ONU share a time, a second backfill changes neither log, the port table nor the samples, whatever the order the latest samples are listed in, and no ONU row either while the newest events of each ONU agree on the status before |
| BackfillResult.RebuiltEqualsLiveIff | internal/store/timescale_v3.go:102-108 | with strictly increasing times and distinct ports, an ONU's rebuilt ports are its live ones exactly when its last sample lists every port known before it, each with another link or admin state |
| BackfillResult.SameReadingTwice | internal/store/timescale_v3.go:102-108 | two samples with one reading leave live and rebuilt ports different |
| TimescaleStore.Timescale.ReplaceUnauth | internal/store/timescale_v3.go:367-408 | a confirmed discovery marks the device's open rows gone, then every listed ONU has a row with its last listed place and type, not gone, whose first-seen time is kept, or the discovery's when new; other rows are otherwise untouched |
| Unauth.ReplaceMeans | internal/store/timescale_v3.go:383-398 | one replacement row by row, in the columns of the row before and of the last entry of the list with that serial |
| Backfill.ReplayFollows | internal/store/timescale_v3.go:57-92 | the replay's previous states and logs of one ONU are those of its own rows |
| Backfill.QueryKeepsOrder | internal/store/timescale_v3.go:48-52 | with strictly increasing times the query returns one ONU's samples in recording order |
| Backfill.BackfillEqualsLive | internal/store/timescale_v3.go:38-92 | for every recorded history, stored padded or not and queried with ties in any order, the replay derives for each ONU with strictly increasing times exactly the events appended live, source tag aside |
| Backfill.TiedTimesDiffer | internal/store/timescale_v3.go:52 | two samples of one ONU with equal times can be replayed to different events, so strict times are needed |
| Backfill.BackfillRestoresChangeColumns | internal/store/timescale_v3.go:109-118 | the newest event among the replayed ones of an ONU and any part of its live ones, ties broken in any way, holds the previous status and change time the live fold holds |
| Backfill.BackfilledPorts | internal/store/timescale_v3.go:102-108 | the rebuilt port table holds exactly the ports of an ONU's last sample, with their live values except that each change time is the last sample's time |
| Unauth.ReplaceShows | internal/store/timescale_v3.go:367-408 | one replacement makes the rows not marked gone the ONUs of a confirmed discovery and leaves them alone after a failed one or for another device |
| Unauth.TableRefinesList | internal/store/timescale_v3.go:410-443 | over every run of discoveries the rows not marked gone are exactly the ONUs of the device's last confirmed discovery, and the in-memory store holds that same list |
| Unauth.FirstSeenNeverChanges | internal/store/timescale_v3.go:389-394 | no continuation of any run deletes a row or changes its first-seen time |
| Unauth.MemoryForgetsFirstSeen | internal/store/memory.go:303-317 | after a confirmed discovery the two stores show a listed ONU alike exactly when the table had no row for it before, gone or not, or one first seen at the time of this discovery |
| Unauth.SecondSightingDiffers | internal/store/memory.go:303-317 | two discoveries of one ONU at different times make the shown first-seen times differ |
| Runs.WindowSelects | internal/store/query.go:64-99 | over sequential runs the window of one run selects from the samples of any number of them exactly its own, so windows are disjoint |
| Runs.RunQueryRecoversRunIff | internal/store/query.go:34-62 | over every history of sequential runs, a query by a run's id resolves to it and selects exactly the samples it inserted if and only if its final row reached the store or no later run inserted a sample the query would select |
| Runs.OpenRunSelectsLater | internal/store/query.go:52-56 | the query for a run left open before one that stored a sample lists that sample |
| Runs.LatestQueryRecoversLastRun | internal/store/query.go:43-62 | the latest-run query resolves to the device's last run and selects exactly its samples, whether or not its final row reached the store |
| Runs.RecordedExtends | internal/poller/poller.go:94-153 | finishing one more run under an advancing clock keeps the store a history of sequential runs with increasing ids |
| Duplicates.LatestFinishedRun | internal/store/duplicates.go:177-191 | the scan finds the finished run of the device with the greatest id, or none when there is none, as long as no run has id 0 |
| Duplicates.BestIsLatest | internal/store/duplicates.go:177-191 | the scan's result is the latest finished run whatever the order and sign of the ids |
| Duplicates.ZeroIdStartsOver | internal/store/duplicates.go:186-188 | after a run with id 0 the scan takes a later run with a smaller id |
| Duplicates.RowsAreExact | internal/store/duplicates.go:69-92 | the rows are exactly the positions with a counted sample, each with the exact number of samples, greatest time, first newest status and name, and whether one lies in the latest run |
| Duplicates.SamplesConserved | internal/store/duplicates.go:69-92 | the per-position counts sum to the number of non-blank samples of the device |
| Duplicates.AccumulateRows | internal/store/duplicates.go:62-96 | the loops over samples and map list each row once, in some order |
| Duplicates.PositionsExact | internal/store/duplicates.go:113-126 | grouping the rows by serial in any order collects exactly the serial's positions, each once, and counts the current ones |
| Duplicates.GroupBySerial | internal/store/duplicates.go:113-124 | the grouping loop collects, for each serial, its positions in row order and its current count |
| Duplicates.AssembleDuplicateSerials | internal/store/duplicates.go:100-162 | the report lists exactly the serials with at least two positions for the scope, each with all its positions: those of the latest run first, in each group the last seen first and ties by board, PON and ONU, under the name of the first; serials by falling current count and ties by serial |
| Duplicates.ReportDisplayed | internal/store/duplicates.go:125-161 | the order of positions and serials and the entry's name, in terms of the fields |
| Duplicates.ReportUnique | internal/store/duplicates.go:125-161 | both comparators are total on what they compare, so the report does not depend on any iteration order |
| Duplicates.BuildDuplicateSerials | internal/store/duplicates.go:62-98 | the report of the accumulated rows |
| DuplicateReport.AssembledReports | internal/store/duplicates.go:62-98 | every entry of a report, read off the samples: its positions are exactly the places where the serial was seen, each with the number of samples, the greatest time, the status and name of the first sample of that time, and whether one lies in the latest run |
| DuplicateReport.KeptIffSeenTwice | internal/store/duplicates.go:146-152 | a serial is listed exactly when samples put it at two different places, both during the latest run in scope current |
| DuplicateQuery.ListDuplicateSerials | internal/store/timescale_duplicates.go:12-69 | the early return and the assembly of the query's rows give the query's report |
| DuplicateAgreement.CurrentScopeAgrees | internal/store/timescale_duplicates.go:30-48 | in scope current the query over the latest run's samples, single-position serials dropped, lists the same serials in the same order with the same current counts and header as aggregating all history |
| DuplicateAgreement.HistoryScopeAgrees | internal/store/timescale_duplicates.go:30-48 | in scope history, with distinct times per position, the two whole reports are equal |
| Ethernet.DecodeEthernetPorts | internal/usecase/ethernet.go:55-90 | whatever the map order, one port per row by increasing index, reading enabled or disabled for 1 or 2, up or down for 1 or 2 and otherwise what the row held, with the speed and duplex of codes 2 to 7 when it is up, and whether any is incomplete |
| Ethernet.DecodedShows | internal/usecase/ethernet.go:55-90 | every decoding of rows kept under their index reads each row as stated, code by code |
| Ethernet.DecodedUnique | internal/usecase/ethernet.go:55-90 | there is only one such decoding |
| Ethernet.PadEthernetPorts | internal/model/onu_ports.go:29-57 | the loops give the indexes 1..n, observed or unknown, then the observed ones above n in order |
| Ethernet.PaddingMeans | internal/model/onu_ports.go:29-57 | for a known type the list is the indexes 1..n, each with the last listed port of it or an unknown one, followed by exactly the listed ports above n in their order; for an unknown type it is the list given |
| Ethernet.WalkOnuColumn | internal/usecase/ethernet.go:161-187 | one column walk under one ONU updates rows and failure flag PDU by PDU |
| Ethernet.GetEthernetPorts | internal/usecase/ethernet.go:147-194 | the status and padded ports of an ONU from those of its own three walks made before the context is cancelled, a cancellation making it incomplete, and an empty status unless it is online |
| CollectedPorts.CollectedPort | internal/usecase/ethernet.go:147-194 | from the device's tables to the answer: an integer cell in the admin, link or speed column of an online ONU's port gives that port, once, those states, speed and duplex, a column without one leaves unknown, and a port in no column is only there as unknown padding |
| CollectedPorts.AnswerStatus | internal/usecase/ethernet.go:147-194 | whatever the walks deliver, errors, malformed rows and a cancellation included: an answer without a collected port is unavailable, one with some is ok exactly when all three columns were walked without an error or a bad row and every collected port has both states known and a rate when up, and otherwise partial |
| Ethernet.WalkColumn | internal/usecase/ethernet.go:219-243 | one PON-wide column walk updates the buckets of its ONUs PDU by PDU |
| Ethernet.WalkPONEthernet | internal/usecase/ethernet.go:201-249 | the buckets of the PON-wide walks made before the context is cancelled, and the failure flag, set also by a cancellation |
| Ethernet.EthernetFromPONWalk | internal/usecase/ethernet.go:251-261 | the status of an ONU from its bucket, empty when it is not online or has none |
| Ethernet.AttachPONEthernet | internal/usecase/ethernet.go:265-286 | each list entry is updated in place in its Ethernet field only, with what the PON-wide collection gives that ONU, which for an online one is the answer of its own walks (Ethernet.FastWalkRefinesSimpleWalk) and so reads the device's cells as CollectedPorts.CollectedPort says |
| Ethernet.RowBelowOnu | internal/usecase/ethernet.go:223-224 | a table row is below an ONU's root exactly when its ONU index is that ONU, and both parsers read the same UNI index |
| Ethernet.WalksAgree | internal/usecase/ethernet.go:201-249 | against an agent that answers without errors, each ONU's bucket of the PON-wide walks is the one of its own walks |
| Ethernet.FastWalkRefinesSimpleWalk | internal/usecase/ethernet.go:263-286 | for tables whose rows have one ONU and one UNI index, an online ONU gets from the PON-wide collection exactly the status and ports of the walk of that ONU alone, whatever the rows hold and after whichever column the context is cancelled |
| Ethernet.OfflineEntryEmptyIff | internal/usecase/ethernet.go:263-286 | an entry that is not online is empty exactly when no ONU of the PON is online or its type is unknown |
| Ethernet.OfflineEntryPadded | internal/usecase/ethernet.go:263-286 | the entry of an offline F670 beside an ONU that is online lists ports |
| Pacing.PauseBounds | internal/poller/poller.go:166-180 | a pause is at least the gap and never reaches past both the interval and the gap |
| Pacing.LastPauseExact | internal/poller/poller.go:166-180 | with one unit left the pause ends exactly at the interval, or after the gap when that is later |
| Pacing.ShareShrinksIff | internal/poller/poller.go:171-178 | when walks take no time the share of the units left does not shrink exactly when the gap is within the share and the division's remainder |
| Pacing.ShareShrinks | internal/poller/poller.go:171-178 | with ten units in one second and a gap of half a second the share of the rest shrinks |
| Pacing.InstantPassEnds | internal/poller/poller.go:163-180 | over any number of units a spread pass with instant walks ends exactly at the interval, or after all its gaps when they take longer |
| Pacing.SpreadCost | internal/poller/poller.go:163-180 | for walks of any lengths a spread pass fills the interval, takes at least its walks and gaps, and exceeds them by no more than the rest of the interval |
| Pacing.PlainPass | internal/poller/poller.go:166-180 | without spreading a pass takes exactly its walks and gaps |
| Polling.CountPONs | internal/poller/poller.go:155-161 | the loop sums the configured counts of the listed boards, a missing one counting zero |
| Polling.CountPermuted | internal/poller/poller.go:118-120 | sorting the slots does not change the count |
| Polling.VisitingOrder | internal/poller/poller.go:118-126 | for distinct slots and non-negative counts the visiting order ascends, holds every (slot, PON) exactly once, and has as many units as the countdown starts from |
| Polling.ApplyEthernet | internal/poller/poller.go:316-367 | ports are copied with the unknown duplex emptied, and the summary is up if one port is up, else down if one is down, likewise administratively, with the speed of the first port that is up and reports one |
| Polling.SampleTaken | internal/poller/poller.go:298-367 | a sample has the row's serial, board, PON, ONU, name, type and status and the visit's time and device; its ports are the row's in order with index, admin, link, speed and duplex when the Ethernet status is ok or partial, none otherwise, and the link column is up when one of them is, else down when one is |
| Polling.TotalIsStoredIff | internal/poller/poller.go:131-143 | a run's ONU total never exceeds the samples it stored, and equals them exactly when no visit that found ONUs failed in its last write |
| Polling.StoredNotCounted | internal/poller/poller.go:131-143 | a visit whose ONU rows were refused has stored samples that the total does not count |
| Polling.LoggedIsStored | internal/poller/poller.go:206-214 | for a store whose writes each take effect wholly or not at all: unless an insert was refused, the samples recorded as transitions are the samples stored |
| Poller.Poller.SleepCtx | internal/poller/poller.go:182-194 | a wait succeeds exactly when it ends before the context is cancelled, and then lasts at least its duration |
| Poller.Poller.Pace | internal/poller/poller.go:166-180 | unless cancelled, the clock moves on by exactly the pause of the schedule for the time it was read at, and the timer's lag |
| Poller.Poller.PollPON | internal/poller/poller.go:196-216 | one visit to a store whose writes each take effect wholly or not at all: one sample per collected row, in order, column by column the row's, with its ports and link summary; the transitions and samples that reached the store for each of the ways the writes can end, and the reported count |
| Poller.Poller.VisitPON | internal/poller/poller.go:131-144 | the counters, the stored samples and the folded logs stay those of the visits so far |
| Poller.Poller.SweepBoard | internal/poller/poller.go:124-150 | the PONs of one board in ascending order, the countdown exact after each |
| Poller.Poller.Sweep | internal/poller/poller.go:118-150 | all units in order unless the context was cancelled, each visit leaving exactly the units still to do and followed by at least the gap while any are left |
| Poller.WalksApart | internal/poller/poller.go:144-150 | with non-negative counts any two consecutive walks of a pass start at least one gap apart, whatever they take |
| Poller.Poller.Finish | internal/poller/poller.go:270-296 | status error, partial or ok, the finish time and duration, and the stored row replaced, unless the write of it fails, when the row stays as it was |
| Poller.Poller.ListKnown | internal/poller/poller.go:234-241 | ranging over the states in any order collects exactly the device's non-empty serials |
| Poller.Poller.DiscoverUnconfigured | internal/poller/poller.go:218-268 | the stored list comes from a discovery made between two readings of the clock during the call: the found ONUs whose serial is not known, all of them when the states cannot be listed, or an unavailable one when the discovery fails; the list before it stays when the store refuses the new one or the target cannot discover |
| Poller.DiscoveredIsListed | internal/poller/poller.go:234-267 | after a good discovery the stored list has its status, name, message and time and exactly the found ONUs that are not known, with place, type and both times from the discovery |
| Poller.UnknownEntries | internal/poller/poller.go:249-263 | each entry of the list shows a found ONU not known and each of those has an entry, in all fields |
| Poller.UnknownSerials | internal/poller/poller.go:249-253 | each serial found and not known is listed exactly once and no other |
| Poller.UnconfiguredCollected | internal/poller/poller.go:242-264 | what a pass stores has the shape over which the table refines the list |
| Poller.Poller.PollDevice | internal/poller/poller.go:94-153 | a pass stores nothing, and then only because its run row was refused, or exactly one finished run, its last row included unless the write of that row fails: ok and error add up to the visits, all units in order unless interrupted, the log is the fold over the recorded visits, the run's window holds exactly the samples kept, and only a complete pass discovers, at a time within the pass |
| Poller.CompletePassCounts | internal/poller/poller.go:118-150 | a run that was not interrupted counts every configured PON once for each listing of its board: ok and error add up to the configured count |
| Poller.InterruptedStaysOpen | internal/poller/poller.go:270-296 | with a store that refuses a cancelled context, only runs finished before the cancellation are closed, and every interrupted run stays marked running |
| Poller.Poller.PollCycle | internal/poller/poller.go:85-92 | a cycle polls the registered targets in order, all of them unless the context was cancelled, and extends the history by exactly the runs of its passes |
| Poller.Poller.Turn | internal/poller/poller.go:76-82 | one whole cycle, followed by a wait until at least an interval after its start |
| Poller.Poller.Loop | internal/poller/poller.go:71-83 | until the context is cancelled cycles never overlap and start at least one interval apart, after the start delay, each polls all targets, and the store always holds finished sequential runs, exactly those of the passes |
| PolledHistory.PolledTimesRise | internal/poller/poller.go:196-205 | an ONU listed at most once per PON reply has strictly increasing sample times over everything the poller does |
| PolledHistory.PolledHistoryReplays | internal/store/timescale_v3.go:38-92 | for a store whose writes each take effect wholly or not at all: whatever the poller has done, unless an insert was refused, rebuilding such an ONU's events from the stored samples gives the events the poller logged |
| PolledHistory.PolledHistoryReplaysIff | internal/store/timescale_v3.go:38-92 | for a store whose writes each take effect wholly or not at all, refused inserts included: the rebuilt status and Ethernet events of an ONU are those the poller logged exactly when each of its visited samples fits |
| PolledHistory.PolledRunReplaysIff | internal/store/timescale_v3.go:38-92 | for the durable store: whatever the poller has visited and whichever statements failed, the rebuilt status and Ethernet events of an ONU are those the store holds exactly when each of its samples fits, which for the status events, while no poll failed between two ONU rows, is when no failed poll had logged one for it |
| PolledHistory.SamplesOfRun | internal/handler/history.go:25-70 | on the store the poller leaves, asking for a run by its id lists exactly the samples of that run, newest first, when they fit the limit and its row was closed or no later run stored what the query would select |
| Discovery.RowIsLast | internal/usecase/unauth.go:41-52 | a serial is kept exactly when a usable cell names it, with the place of the last such cell |
| Discovery.TypeListed | internal/usecase/unauth.go:66-73 | an index has a type exactly when some cell gives it one |
| Discovery.WalkSerials | internal/usecase/unauth.go:33-54 | the callback applied to every cell leaves the last row of each serial and whether any instance was seen |
| Discovery.DiscoverUnconfiguredONUs | internal/usecase/unauth.go:15-88 | ok exactly when the walk succeeded and named an ONU, then listing each serial of the table once, whatever the map order, with the board and PON its last cell's index encodes, or none, and the last type given under that index; otherwise listing nothing, and an empty table is never confirmed |
| Discovery.ListShown | internal/usecase/unauth.go:74-80 | a joined list shows the two tables cell by cell |
| Discovery.TypeIsLast | internal/usecase/unauth.go:65-78 | the type found under the printed index is that of the last cell whose name continues by exactly that index and gives one |
| SnmpPool.SnmpRepository.constructor | internal/repository/snmp.go:67-111 | the seed comes first, connections are made until one fails or four exist, and a limit that is not positive becomes five |
| SnmpPool.PoolSettings | internal/repository/snmp.go:68-84 | pool connections carry the seed's settings except that max-repetitions is never zero |
| SnmpPool.StepKeepsInv | internal/repository/snmp.go:142-154 | every step of any caller conserves connections, keeps the semaphore count equal to the callers inside and within the limit, and does one of the steps still to do |
| SnmpPool.ReleaseNeverBlocks | internal/repository/snmp.go:137-139 | a caller holding a connection always finds room in the channel |
| SnmpPool.LeaveNeverBlocks | internal/repository/snmp.go:191-192 | leaving the semaphore never blocks |
| SnmpPool.Progress | internal/repository/snmp.go:190-211 | while any caller is unfinished some step is enabled |
| SnmpPool.InvExclusive | internal/repository/snmp.go:131-139 | each connection is in the channel or with exactly one caller |
| SnmpPool.PoolIsSafe | internal/repository/snmp.go:190-211 | over every interleaving of callers that arrive at any time, the operations in flight stay within the limit, connections in use within those made, each connection has one place, and the moves made and left are four for each operation |
| SnmpPool.StoppedMeansFinished | internal/repository/snmp.go:190-211 | a run in which no caller can move has finished every operation brought so far, in exactly four moves each, with all connections back and the semaphore empty |
| SnmpPool.SnmpRepository.Serve | internal/repository/snmp.go:141-154 | callers arriving in between at any time, letting any enabled caller move again and again ends with every operation of every caller finished |
| SnmpPool.SnmpRepository.MoveOne | internal/repository/snmp.go:190-211 | while an operation is unfinished some caller can move, and the move takes one off the work left |
| ChangeKeys.OltChangeKey | app/registry.go:274-284 | the key is built from the board specifications in byte order, whatever the map order |
| ChangeKeys.KeyInjective | app/registry.go:274-284 | for hosts without the separator two keys are equal exactly when host, port, community, walk flag and board map are |
| Registry.OLTRegistry.AddOLTLocked | app/registry.go:171-203 | a successful setup publishes an entry over a new repository, a failed one changes nothing |
| Registry.OLTRegistry.RemoveOLTLocked | app/registry.go:207-214 | the entry goes and its repository is closed, once |
| Registry.OLTRegistry.PlaceOne | app/registry.go:130-166 | an unchanged OLT keeps its repository under the new config, a changed or new one gets a new one or none, and no other entry is touched |
| Registry.OLTRegistry.Reconcile | app/registry.go:112-167 | afterwards the entries are exactly the listed OLTs that were kept or whose own setup succeeded, with their listed config, setups are attempted once for each OLT not kept and for no other, repositories are kept exactly when the connection settings are unchanged, every repository ever opened is live in one entry or closed exactly once, and reconciling a settled list closes nothing |
| Registry.NothingToClose | app/registry.go:112-167 | reconciling a list the entries already carry leaves the closed repositories as they were |
| Registry.OLTRegistry.Close | app/registry.go:218-226 | every repository ever opened has then been closed exactly once, and closing again is a no-op |
| Registry.StaleLimitIff | app/registry.go:159-165 | after a reconcile an entry's pool enforces the published limit exactly when the connection was rebuilt or the pool kept was already enforcing it |
| Registry.StaleForGood | app/registry.go:159-165 | opened with one limit and listed twice with another, an OLT still has the pool of the first limit after the second reconcile, which changes no setting |
| Topology.ValidateBoardSpecs | config/validation.go:11-31 | accepts exactly blank text and comma-separated specifications with a slot in 1..30 and at most one count in 1..16, slots distinct |
| Topology.CutIsSplit | config/config.go:164 | where splitting gives at most two parts, cutting at the first separator gives the same parts |
| Topology.ParseBoardSpecs | config/config.go:154-188 | the loop fills the map the parse function gives and returns its slots sorted |
| Topology.AcceptedIsLiteral | config/config.go:154-188 | accepted text that is not blank parses to exactly the listed slots, one per entry, with their listed or default counts, none skipped, overwritten or replaced |
| Topology.PrintedTopologyParses | config/config.go:154-188 | any non-empty list of distinct boards in range, written as slots with or without counts between commas, is accepted and parses to exactly that topology, a count left out being the default |
| Topology.BlankIsDefault | config/config.go:177-181 | blank text parses to slots 1 and 2 with the default count |
| Topology.ParsedInRange | config/config.go:154-188 | any text whatsoever parses to a non-empty topology within the slot and PON limits |
| BoardMap.OidsDistinct | config/oid_generator.go:93-120 | two different PONs share no OID in any of the twelve columns |
| BoardMap.GeneratesColumns | config/oid_generator.go:93-120 | generation succeeds exactly for boards 1..30 and PONs 1..16, and each of the twelve columns is its own prefix followed by the index of its family |
| BoardMap.InitializeBoardPonMapFromSpecs | config/oid_generator.go:147-166 | building fails exactly when a slot is out of range, and otherwise holds exactly the PONs of the topology, 16 on the boards 1 and 2 when it is empty and 16 where a count is out of range, each with its twelve columns spelled out by prefix and index, whatever the map order |
| BoardMap.ValidateConfig | config/config.go:389-407 | passes exactly when no PON of the topology is missing from the map |
| BoardMap.RequestsAgreeIff | internal/middleware/validation.go:64-112 | whatever texts a request holds, the check admits the PON they name when and only when the map has it, exactly if all configured counts are in 1..16 |
| BoardMap.ZeroCountDisagrees | internal/middleware/validation.go:64-112 | a configured count of 0 puts PON 1 into the map and lets no request through |
| BoardMap.ParsedTopologyServes | config/config.go:376-383 | for any text the map built from its topology holds exactly the parsed units and any request is admitted exactly when it names one of those |
| BoardMap.LoadTopology | config/config.go:246-271 | loading fails exactly when the board text is not accepted, building never fails, and the loaded map holds exactly the units of the text with their generated OIDs and serves exactly the requests for them |
| BoardMap.LoadAndValidate | config/config.go:389-407 | whatever loads passes the completeness check |

## Left out

- `Poller.Poller.PollPON`: in the poller's store each of the three writes of a visit takes effect wholly or not at all, and so do the write of a run row, the listing of states and the replacement of a discovery, which may each fail; the partial effects of the durable store's statements are modelled apart from the poller's clock and counters (`TimescaleStore.Timescale.StorePoll`, `PolledHistory.PolledRunReplaysIff`).
- `Polling.LoggedIsStored`: does not hold of a store that keeps part of a failed write, which `PollFailures.FailedPollsOnlyLog` covers.
- `PolledHistory.PolledHistoryReplays`: the same, as does `PolledHistory.PolledHistoryReplaysIff`; `PolledHistory.PolledRunReplaysIff` is the form for the durable store, with any partial write.
- `PollFailures.FailedPollsOnlyLog`: speaks of runs in which no poll fails between two ONU rows; what such a poll leaves is described by `TimescaleStore.Timescale.StorePoll`, and `DurableHistory.AnyRunReplaysIff` covers the runs.
- `DurableHistory.FailedRunReplaysIff`: the same; it is the form of `DurableHistory.AnyRunReplaysIff` that counts events.
- `BackfillResult.BackfilledRowIsLive`: the statements of the backfill all succeed; the source runs the whole backfill again when the migration is repeated.
- Strings are ordered by bytes in the database as in Go. A locale's collation changes only which ONU an unread one is compared with.
- Optical power and, of the Ethernet summary columns of stored samples, all but the link state: nothing modelled here reads them once stored; how the summary is computed is proved (`Polling.ApplyEthernet`).
- Unicode beyond ASCII in case folding and in the letters of ONU types; blanks are those of Go's `unicode.IsSpace`.
- The device and ONU tables of the in-memory store and the log of unconfigured-ONU sightings (`onu_unauth_samples`): plain upserts that nothing else modelled reads.
- The clock is read once per query, and repositories and connections are numbers; a connection attempt or an SNMP request either succeeds or fails.
- Closing the SNMP pool while operations are in flight.
- The SQL text itself: each statement is a function or a loop on maps and sequences, including the order and the limits it names.
- The free-ONU-id lists, the list and per-ONU query handlers and their Redis lifetimes, singleflight and background refresh: complement loops and caching without further invariants.
- HTTP routing, authentication, logging, metrics, time zones, uplink and card detection, health checks and the web UI.
