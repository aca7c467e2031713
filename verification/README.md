# Verified model of the inference gateway

The gateway forwards chat completions to a set of model backends, meters the
tokens of every response while it streams through, records each request in a
usage ledger, follows a registry file of backends without restarting, and
serves a small portal with logins and a chat page. This project models the
parts of it that keep state over time and proves what they promise. It is
checked with `dafny verify dfyconfig.toml`.

## How the model is laid out

| file | what it models |
|---|---|
| `UsageScan.dfy`, `BoundedScan.dfy`, `UsageCapture.dfy`, `UsageStreams.dfy` | the scan of an event stream for its last usage report; the scan of only the last 64 KiB against the scan of everything; the meter object with its ring buffer; which byte streams are complete |
| `Sums.dfy`, `Columns.dfy`, `Ledger.dfy`, `LedgerInvariant.dfy`, `LedgerTheorems.dfy`, `LedgerColumns.dfy`, `LedgerViews.dfy`, `LedgerPricing.dfy` | sums over sets of rows, and what each column of a total counts; the ledger's tables and statements as a transition system with an observer's history; its invariant; conservation, exactly-once counting, column by column; the account view and how it grows; cost estimates |
| `Store.dfy` | the account store: the same statements as methods that change tables, and the maintenance pass |
| `Lifecycle.dfy`, `LifecycleRuns.dfy` | all requests of one gateway, interleaved with each other, with statements still on their way to the database, with crashes and with maintenance, over the ledger; rows against the events of whole runs |
| `Registry.dfy`, `Fingerprint.dfy`, `Membership.dfy`, `ReloadExamples.dfy` | registry acceptance and the catalog; the membership fingerprint; reload, probing, rollback, publication and clean-up; concrete registries on which a reload does not do what it is meant to |
| `Routing.dfy`, `RoundRobin.dfy` | choosing a backend with failover; how load spreads over replicas |
| `LoginWindow.dfy` | the login attempt counter |
| `EventFraming.dfy`, `EventTexts.dfy`, `ChatSession.dfy` | the chat client's event framing; what it reads from the texts themselves; its asynchronous state |

Objects whose methods change fields are classes here (`UsageCapture`, `Store`,
`Server`, `ModelRoute`, `LoginLimiter`, `ChatView`). Each method is proved
against functions on plain values, and the theorems are lemmas about those
functions. The ledger and the gateway are also given as transition systems,
because their properties are about every interleaving of many workers.

## What is assumed

- The JSON decoder, the trimming of white space, the URL parser, the test for
  a blank name, the normal form of an e-mail address and the decoding of a
  chat payload are arbitrary functions. `Membership.PlainSyntax` lists the
  laws of the URL parser that reloading leans on.
- The consistent-hash ring is an interface: looking a key up gives a member,
  and asking for all closest members gives each member once.
- The fingerprint's truncated SHA-256 is treated as injective: the model
  compares the texts that are hashed. Where a text must identify a registry,
  the condition on names (`Fingerprint.Separable`, which names without line
  ends meet) is part of the statement.
- The test for a blank name looks for any character that trimming keeps
  (`Fingerprint.TrimsOnly`).
- Database statements are atomic, the database clock does not run backwards,
  dates are cut in one fixed time zone, numeric division is exact, and a total
  that leaves the 64-bit range fails its statement. Request identifiers are
  random and never repeat. Accounts and keys exist.
- Model names in the price table carry no surrounding white space: setting a
  price trims the name, looking a price up does not
  (`internal/accountdb/store.go:263`, `internal/accountdb/queries.sql:30`).
  Price identifiers are modelled as numbers with the order that breaks ties.
- A turn of the browser's event loop is atomic. Fetches, reads and animation
  frames complete in any order.

## Three results that qualify the code

- After a reload the backend cache is meant to hold exactly the published
  members. The clean-up compares keys made from the raw registry text with
  keys made from the parsed URL, so this holds if and only if every entry is
  written in the form its URL prints as, up to one trailing slash
  (`Membership.Server.ReloadRegistry`). Otherwise a routed backend leaves the
  cache although it is still routed to and polled, and the next reload that
  changes the membership replaces it by a new object.
  `ReloadExamples.CapitalsAreDropped` is a reload that publishes such a file.
- Round robin uses a 64-bit counter. For up to a whole turn of the counter, k
  rounds over n healthy replicas serve each of them k times if and only if the
  counter does not wrap, its size is a multiple of n, or it wraps between two
  rounds (`RoundRobin.SharesAreEqualIffEven`).
- A reload compares fingerprints to see whether the membership changed, and the
  loader accepts line ends and separators in model names. Comparing
  fingerprints is comparing memberships if no name of the catalog begins with
  a member of another name and a line end, in particular if no name contains a
  line end (`Membership.PublishedOnChange`). `ReloadExamples.SwapIsUnseen` is
  an accepted change of membership that a reload takes for no change. Among
  all registries the loader accepts, the text identifies the empty one, those
  with one entry that does not read like two, and no others
  (`Fingerprint.TextIdentifiesOneEntry`).

The repository's own README says that model names must be unique; the loader
accepts several entries of one name as replicas, and the model follows the
loader.

## Model

| member | source | states |
|---|---|---|
| UsageScan.ScanMeaning | gateway/usage_capture.go:132-155 | the fold over lines finds a usage exactly when it is the usage of the last line with valid counts and a `[DONE]` line after it is the last data line |
| UsageScan.WholeStreamMeaning | gateway/usage_capture.go:120-156 | the same for a whole untruncated text: it must also end with a complete event |
| UsageScan.ScanForgets | gateway/usage_capture.go:132-151 | a line with valid counts makes the scan independent of everything before it; without one the scan finds nothing |
| UsageScan.SplitAtNewline | gateway/usage_capture.go:125 | cutting a text at any newline cuts its list of lines |
| BoundedScan.UsageLinePositions | gateway/usage_capture.go:125-148 | the split has a line with valid counts exactly when such a line starts at some byte position of the text |
| BoundedScan.BoundedScanAgrees | gateway/usage_capture.go:120-156 | scanning the last 64 KiB with the first line dropped gives the usage of the whole stream when a line with valid counts and the newline before it are retained, and nothing otherwise, for every stream |
| BoundedScan.BoundedScanLoses | gateway/usage_capture.go:120-156 | exactly which streams lose their usage to the bound |
| Metering.RingAppended | gateway/usage_capture.go:73-79 | an append that wraps at most once turns a ring holding the last bytes of a stream into one holding the last bytes of the longer stream |
| Metering.UsageCapture.Observe | gateway/usage_capture.go:49-80 | after any write the ring holds exactly the last min(65536, total) bytes and the truncation flag is exact; an ordinary body is the exact concatenation or overflow is set, exactly beyond 1 MiB |
| Metering.UsageCapture.ReplaceRing | gateway/usage_capture.go:66-72 | a write of at least the ring's size leaves its last 65536 bytes and an exact truncation flag |
| Metering.UsageCapture.AppendRing | gateway/usage_capture.go:73-79 | a shorter write slides the ring |
| Metering.UsageCapture.LinearTail | gateway/usage_capture.go:82-90 | linearising the ring gives the last 64 KiB of all bytes seen, in order |
| Metering.UsageCapture.Read | gateway/usage_capture.go:38-47 | bytes are observed as they are read; end of file is remembered |
| Metering.UsageCapture.Result | gateway/usage_capture.go:92-118 | the outcome depends only on status, end of file, interruption and the bytes of the whole response |
| Metering.ScanTail | gateway/usage_capture.go:120-156 | the scanning loops compute the specified scan |
| Metering.FoundMeaning | gateway/usage_capture.go:103-117 | what is found is what the whole body reports, when the report was retained |
| Metering.CompleteMeaning | gateway/usage_capture.go:92-118 | complete with given counts exactly when the status is 2xx, the body was read to its end without interruption, nothing that matters was cut off, and the whole body reports those counts |
| Metering.CountsOnlyWhenComplete | gateway/usage_capture.go:92-118 | counts come with complete outcomes only and are never negative; the outcome is failed exactly when a response arrived without interruption and its status was no success, and incomplete otherwise unless complete |
| UsageStreams.LineMeaning | gateway/usage_capture.go:134-151 | what any line does to the scan, by its text without the carriage return of its line end: nothing without `data:`; the end mark asks for counts found before; another payload takes that back and replaces the counts when it carries both and neither is negative |
| UsageStreams.OrdinaryStream | gateway/usage_capture.go:120-156 | after any lines, a payload with both counts followed by the end mark reports those counts, with LF and with CRLF |
| UsageStreams.OrdinaryStreamIsComplete | gateway/usage_capture.go:92-118 | such a stream of any length, answered with 2xx and read to its end, is reported complete with those counts when its last two events fit the ring |
| UsageStreams.IgnoredLine | gateway/usage_capture.go:136-138 | a line without `data:` changes nothing wherever it stands before the last event |
| UsageStreams.UnfinishedStream | gateway/usage_capture.go:122-124 | a stream that does not end with two equal line ends is never complete |
| UsageStreams.OrdinaryBody | gateway/usage_capture.go:100-117 | an ordinary response is complete with given counts exactly when it is an uninterrupted 2xx, read to its end, of at most 1 MiB, and decodes to those counts, neither negative |
| Metering.MeterResponse | gateway/usage_capture.go:38-118 | the report for a response is the same however its bytes are cut into reads |
| Sums.SumOfGroups | internal/accountdb/queries.sql:72-83 | summing groups one by one and then together is summing their members |
| Ledger.EndedRows | internal/accountdb/queries.sql:33-60 | the history records exactly the rows a statement moved out of pending, as they were then |
| LedgerInvariant.StepKeeps | internal/accountdb/queries.sql:27-106 | every statement (begin, finish, expire, claim, commit, abort, delete, new price, time) keeps the ledger invariant, and history only grows |
| LedgerInvariant.RunKeeps | internal/accountdb/queries.sql:27-106 | the invariant holds in every state of every interleaving from empty tables |
| LedgerInvariant.RecordingIsTotal | internal/accountdb/queries.sql:27-106 | the observer never blocks a statement: every step of the tables is a step of the recorded system |
| LedgerInvariant.FinishEnds | internal/accountdb/queries.sql:33-46 | a finish ends exactly one pending row, keeps its price and records its cost |
| LedgerInvariant.ExpireEnds | internal/accountdb/queries.sql:58-60 | expiry ends exactly the stale pending rows, keeps their prices and changes no other row |
| LedgerInvariant.CommitPartition | internal/accountdb/queries.sql:62-83 | a commit moves its rows from waiting to counted; none of them was counted before |
| LedgerInvariant.CommitCounted | internal/accountdb/queries.sql:84-99 | after a commit every daily row is the total of the requests counted in it |
| LedgerTheorems.Conservation | internal/accountdb/queries.sql:62-99 | for each day, account, key and model, and in every column, the daily row plus the uncounted terminal rows equals the totals over all requests that ever became terminal |
| LedgerTheorems.RunConservation | internal/accountdb/queries.sql:27-106 | conservation in every state of every run |
| LedgerTheorems.ClaimsAreExclusive | internal/accountdb/queries.sql:65-69 | two rollups in flight never hold the same row, and nothing they hold was counted |
| LedgerTheorems.ClaimsAreStable | internal/accountdb/queries.sql:65-69 | no other statement takes a claimed row away from its rollup or changes it |
| LedgerTheorems.CommitCountsOnce | internal/accountdb/queries.sql:62-99 | a commit counts each claimed request once and none was counted before: in every daily row the request count grows by the number of claimed rows of its cell, the outcome and priced counts by the numbers of such rows, tokens and cost by the sums of those fields |
| Columns.SumCounts | internal/accountdb/queries.sql:73-82 | adding the contributions of some rows grows the eight columns by the number of rows, the numbers of each outcome and of priced rows, and the sums of prompt, completion and cost |
| Columns.UpsertGrows | internal/accountdb/queries.sql:72-99 | the upsert makes exactly the rows of cells with claimed rows, and grows every row by the claimed rows of its day, account, key and model |
| LedgerColumns.StoredRowCounts | internal/accountdb/queries.sql:62-99 | a daily row exists exactly for the cells with counted requests; its columns are the number of those requests, how many were complete, incomplete, failed and priced, and the sums of their tokens and costs |
| LedgerColumns.EverCounts | internal/accountdb/queries.sql:62-99 | the same for the total over all requests that ever ended in a cell |
| LedgerColumns.RequestsConserved | internal/accountdb/queries.sql:62-99 | the stored row grown by the waiting rows of its cell, column by column, counts all requests that ever ended in it |
| LedgerTheorems.AbortLeavesNoTrace | internal/accountdb/maintenance.go:17-19 | locking and aborting leaves the tables as they were |
| LedgerTheorems.EndedStaysEnded | internal/accountdb/queries.sql:46-60 | a row that left pending is touched by no later finish or expiry |
| LedgerTheorems.LeavesPendingOnce | internal/accountdb/queries.sql:33-60 | each request leaves pending at most once, also when expiry races with a finish |
| LedgerTheorems.DaysStartAtMidnight | internal/accountdb/portal.go:140-148 | choosing stored rows by day and live rows by time is the same choice |
| LedgerTheorems.ViewIsHistory | internal/accountdb/portal.go:134-150 | the account view from any start date is the sum of the terminal requests of that account since that date, whatever has been rolled up or deleted |
| LedgerColumns.ViewCounts | internal/accountdb/portal.go:134-150 | a line of the view is there exactly when the account has ended requests of that day and model since the start date, and its columns count them, each once |
| LedgerTheorems.MaintenanceKeepsViews | internal/accountdb/queries.sql:62-106 | no rollup, deletion, begin or price change alters any account view |
| LedgerViews.ViewsGrowByEnding | internal/accountdb/portal.go:134-150 | whatever a statement does, every account view grows by exactly the rows that statement ended, each in its own cell: one for a finish, any number for an expiry, none for all others |
| LedgerViews.FinishGrowsView | internal/accountdb/portal.go:134-150 | a finish adds one request to the one cell it belongs to, one to the column of its outcome, its tokens and its cost, and changes nothing else |
| LedgerViews.ExpiryEndsStale | internal/accountdb/queries.sql:58-60 | an expiry ends exactly the pending rows that began more than seven days ago, as incomplete at the current time and otherwise as they were, and changes no other row |
| LedgerPricing.InForceUnique | internal/accountdb/queries.sql:30-31 | the price a request is given is unique |
| LedgerPricing.CostMeaning | internal/accountdb/queries.sql:41-45 | a complete request with a price costs prompt times input rate plus completion times output rate in millionths, to the nearest unit with halves upward; nothing else has a cost |
| LedgerPricing.FinishMeaning | internal/accountdb/queries.sql:33-46 | a finish, written out: which condition refuses it with which error, and otherwise every field of the one row it ends |
| LedgerPricing.LastSetIsGiven | internal/accountdb/queries.sql:30-31 | in every run a request is given the price that the last statement for its model set |
| LedgerPricing.PromiseKept | internal/accountdb/queries.sql:27-46 | a request carries the price set last for its model when it began, or none if there was none, and in every later state costs its tokens at those two rates, whatever prices are set meanwhile |
| LedgerPricing.RequestError | internal/accountdb/queries.sql:41-45 | a stored cost exists exactly for complete requests with a promised price, and differs from prompt times input rate plus completion times output rate by at most half a unit |
| LedgerPricing.StoredCostError | internal/accountdb/queries.sql:88-99 | 1,000,000 times the stored cost of a daily row differs from the sum of prompt times input rate plus completion times output rate over its priced requests by at most 500,000 times their number |
| AccountStore.SelectOldest | internal/accountdb/queries.sql:65-69 | a limited ordered selection: up to the limit, none younger than a row left behind |
| AccountStore.LatestPrice | internal/accountdb/queries.sql:30-31 | the price of the model created last, ties broken by identifier |
| AccountStore.GroupClaim | internal/accountdb/queries.sql:72-83 | grouping row by row gives the total of each group |
| AccountStore.UpsertGroups | internal/accountdb/queries.sql:84-99 | the upsert adds every group to its stored row, and fails exactly when a total leaves the 64-bit range |
| AccountStore.RollupKeeps | internal/accountdb/queries.sql:62-99 | a rollup that nobody interrupts is a claim followed by a commit and keeps the invariant |
| AccountStore.Store.BeginUsage | internal/accountdb/store.go:235-239 | inserts one pending row with the price set last for its model, and nothing else; refuses exactly the known identifiers |
| AccountStore.Store.FinishUsage | internal/accountdb/store.go:241-260 | each error has its condition and leaves everything as it was; otherwise the one pending row ends with the given fields and, if complete and priced, with the rounded cost of its tokens at its two rates |
| AccountStore.Store.SetPrice | internal/accountdb/store.go:262-272 | adds one price at the current time, and nothing else; an empty name, negative rates and known identifiers are refused, each with its error |
| AccountStore.AddGroups | internal/accountdb/queries.sql:72-99 | grouping and adding gives the stored rows with every claimed request added, and fails exactly when some total leaves the 64-bit range |
| AccountStore.RoomyRollupFits | internal/accountdb/queries.sql:84-99 | no rollup overflows a cell that has room for all requests that ever ended in it |
| AccountStore.Store.RollupUsageBatch | internal/accountdb/queries.sql:62-99 | claims the oldest rows that ended, are not counted and are not locked, up to the limit; marks exactly those; grows every daily row by its claimed rows in each column; reports the number of groups; and fails, changing nothing, exactly when some column of some row would leave the 64-bit range |
| AccountStore.RoomMeaning | internal/accountdb/queries.sql:84-99 | the upsert fits exactly when no column of any cell, grown by its claimed rows, exceeds the largest 64-bit integer |
| AccountStore.Store.DeleteOldUsageBatch | internal/accountdb/queries.sql:101-106 | deletes the oldest counted rows that began before the cutoff, up to the limit, and nothing else |
| AccountStore.Store.RollupAll | internal/accountdb/maintenance.go:32-40 | the loop ends, and succeeds exactly when every cell has room for all requests that ever ended in it |
| AccountStore.Store.Maintain | internal/accountdb/maintenance.go:29-53 | a pass run alone terminates although rollups report groups and the deletion cutoff moves; it succeeds exactly when every cell has room for all requests that ever ended in it, and then no terminal row is uncounted, no pending row predates the expiry cutoff, no counted row is older than the cutoff of the last deletion batch, and the rows that went are exactly those of the batches, each older than the cutoff of its batch |
| AccountStore.Store.DeleteAll | internal/accountdb/maintenance.go:41-52 | the batches before the last each deleted something, the last found nothing |
| Lifecycle.WorldRunKeeps | gateway/proxy.go:236-318 | the gateway and ledger invariant over every interleaving of requests, crashes and maintenance, where an insert or update takes effect at any time after it was sent, or never, whatever became of its request |
| Lifecycle.AdmissionAndRecording | gateway/proxy.go:236-314 | admitted requests never exceed the limit, and every metered dispatch is preceded by a ledger row that belongs to this request and to no other |
| Lifecycle.CompleteIsEarned | gateway/proxy.go:292-313 | the request that owns a complete row was dispatched, answered 2xx, not interrupted, read to end of file, and the row's counts are those its whole body reports |
| Lifecycle.FinishEarns | gateway/proxy.go:295-313 | the row a finish ends is the row of that very request, however late it takes effect, with the status, outcome and counts that its response is reported with |
| LifecycleRuns.ChargedAsSent | gateway/proxy.go:276-314 | over every run, the row of a request, and the row as it ended, charge the account, key and model the request was begun for, whenever its insert took effect |
| LifecycleRuns.RunHears | gateway/usage_capture.go:38-80 | over every run, what the gateway holds of a response, and what it wrote a finish from, are the bytes of all reads for that very request, in order |
| LifecycleRuns.CompleteIsWhatWasRead | gateway/proxy.go:292-313 | over every run, a complete row has the counts that the bytes read for its own request report, and these were read to their end |
| Lifecycle.BackgroundEnds | internal/accountdb/queries.sql:58-60 | maintenance never marks a row complete |
| Registry.LoadModels | gateway/server.go:163-195 | the loop with its two maps computes what loading gives, with the first bad entry and the first complaint about it |
| Registry.LoadMeaning | gateway/server.go:163-195 | loading accepts a registry exactly when every entry is sound, replicas of a name agree on their metadata and no destination repeats; otherwise it names the first entry that spoils it |
| Registry.LoadReason | gateway/server.go:163-194 | what is said of the entry that spoils a registry: its display name or pricing disagrees with an entry before, or it repeats an origin of its name, or else it is no good by itself, in that order of tests |
| Registry.OneAccepted | gateway/server.go:163-186 | one entry is accepted for a name that is not blank, a display name that is empty or not blank, rates that are not negative, and a URL that is an HTTP origin and no more |
| Registry.TwoAccepted | gateway/server.go:175-192 | two good entries are accepted together unless they share a name and differ in display name or pricing, or share a name and an origin, up to one slash at its end |
| Registry.AllAccepted | gateway/server.go:163-194 | a registry is accepted exactly when its entries are, one by one and two by two |
| Registry.ModelCatalog | gateway/membership.go:32-38 | the catalog describes every name of the registry and nothing else |
| Registry.CatalogIgnoresOrder | gateway/membership.go:32-38 | for accepted registries the catalog's display names and prices do not depend on which replica comes last |
| Registry.SameCatalog | gateway/membership.go:40-53 | true exactly when both catalogs have the same names, display names and prices |
| Registry.PricedModels | gateway/server.go:286-296 | one entry for every priced name, none twice |
| Fingerprint.MembershipFingerprint | gateway/membership.go:55-64 | the text that is hashed: the sorted members |
| Fingerprint.PairText | gateway/membership.go:55-62 | the text of two entries in order: the routing version, and a line of name and origin for each |
| Fingerprint.OrderIsForgotten | gateway/membership.go:55-64 | accepted registries that list the same destinations in any order have the same text, whatever their names contain |
| Fingerprint.SeparableIdentifies | gateway/membership.go:55-64 | two accepted registries whose names are separable have the same text exactly when they list the same pairs of name and origin |
| Fingerprint.JoinReadsBack | gateway/membership.go:59-62 | members of separable names can be read back from their joined text, whatever line ends the names contain |
| Fingerprint.PlainNamesSeparate | gateway/membership.go:59-62 | names without line ends are separable |
| Fingerprint.FingerprintIdentifies | gateway/membership.go:55-64 | the same exactness for any two accepted registries of which the one with no more entries has no line end in a name |
| Fingerprint.TextIdentifiesOneEntry | gateway/membership.go:59-62 | among all accepted registries the text identifies exactly the empty registry and those with one entry that does not read like two |
| Fingerprint.TwinIsAccepted | gateway/membership.go:59-62 | any accepted registry of two or more entries, with its last two members fused into one entry, is accepted and lists other destinations |
| Fingerprint.TwinPrintsAlike | gateway/membership.go:59-62 | and it has the same text |
| Fingerprint.JoinNewlines | gateway/membership.go:62 | a joined text has one line end between any two members, and more exactly when a member has its own |
| Fingerprint.MemberInjective | gateway/membership.go:59 | a member text determines name and origin |
| Membership.Server.BuildRouting | gateway/membership.go:68-105 | builds the routes of the registry, reuses every cached backend as the same object, and returns exactly the newcomers, in the order of the registry |
| Membership.MissingMembers | gateway/membership.go:78-87 | the newcomers are the members that are not cached, each once |
| Membership.Server.ProbeAdded | gateway/membership.go:127-136 | newcomers are probed in order up to the first failure |
| Membership.Server.BuildAndProbe | gateway/membership.go:126-136 | fails exactly with the origin of the first newcomer whose probe is not answered with 200, and then restores the cache; otherwise every newcomer was |
| Membership.Server.ProbeBackend | gateway/membership.go:175-203 | the flag follows the probe, and a cancelled probe changes nothing |
| Membership.Server.RollBack | gateway/membership.go:128-131 | taking the newcomers out restores the cache exactly |
| Membership.Server.ReloadRegistry | gateway/membership.go:110-152 | the outcome of every reload is determined by the file, the catalog, the published fingerprint, the cached keys and the probes; a rejected file changes nothing; a published one keeps every surviving object; the cache is then exact if and only if every entry is canonical |
| Membership.PublishedExactlyWhen | gateway/membership.go:110-137 | every outcome has its condition: no file, a registry that is not accepted, a changed catalog, an unchanged fingerprint, a newcomer whose probe is not answered with 200, and publication in all other cases |
| Membership.PublishedOnChange | gateway/membership.go:122-137 | with separable names in the catalog the same holds with the pairs of name and origin in place of the fingerprint |
| Membership.ReorderedIsUnchanged | gateway/membership.go:122-125 | the same members in another order never publish anything, whatever the names are |
| Membership.Server.WatchRegistry | gateway/membership.go:154-173 | over any sequence of files each is judged by where the files before it left the server, which is determined by the outcomes, and the published routing equals a from-scratch build of the last file that was published |
| Membership.Server.CleanUp | gateway/membership.go:140-149 | keeps exactly the cached backends whose key the raw text gives |
| Membership.Server.CacheExactWhenCanonical | gateway/membership.go:140-149 | after a publication the cache is exactly the published membership, with the routed objects, if and only if every entry is written in the form its URL prints as |
| ReloadExamples.CapitalsAreDropped | gateway/membership.go:110-149 | a lawful parser, a published registry and an accepted file that a reload publishes and whose one member its clean-up drops from the cache |
| ReloadExamples.SwapIsUnseen | gateway/membership.go:122-125 | two accepted registries of one catalog with different members that a reload takes for the same, for every cache and every probe |
| ReloadExamples.TwoNamesHaveATwin | gateway/membership.go:59-62 | two accepted entries and an accepted one-entry registry with the same text |
| Membership.Server.RoutesAreUsable | gateway/membership.go:94-103 | every published route is nonempty and lists no backend twice, as routing requires |
| Membership.CleanUpIsExact | gateway/membership.go:140-149 | the raw keys cover every member if and only if every entry is canonical |
| Membership.CleanUpKeys | gateway/membership.go:140-149 | nothing of the old membership survives unless it is a member of the new one |
| Membership.Server.RoutedLikeLastAccepted | gateway/membership.go:122-125 | with separable names in the catalog the published table sends each name to the same set of origins as the last accepted file, even if that file was only reordered |
| Membership.ReplicasDistinct | gateway/server.go:187-192 | no origin is routed twice for a name |
| Membership.ReplicasNonempty | gateway/membership.go:94-99 | a name is routed exactly when it has a replica, so no route is empty |
| Routing.ModelRoute.SelectBackend | gateway/proxy.go:62-71 | the only backend, the ring's place of a conversation, or the backend under the counter, which moves only for requests without a conversation and wraps at 64 bits |
| Routing.ModelRoute.SelectHealthyBackend | gateway/proxy.go:75-104 | with a conversation and two or more backends it reads its own backend and then the ring's closest in turn, otherwise the list in turn from the counter's place; it stops at the first seen healthy, finds none only at the end, and says whether it failed over |
| Routing.ModelRoute.WalkGuarantee | gateway/proxy.go:75-104 | with flags changing during the call: only a backend seen healthy is returned, and none only after every backend was seen unhealthy |
| Routing.WalkWhenFixed | gateway/proxy.go:75-104 | while no flag changes the choice is the first healthy backend in order |
| Routing.ModelRoute.StickyChoice | gateway/proxy.go:75-87 | while no flag changes a conversation goes to its own backend if healthy and otherwise to the first healthy one of the ring's closest, wherever the counter stands |
| RoundRobin.WalkEndsAt | gateway/proxy.go:88-101 | a walk from any start ends at a healthy replica exactly when the distance is within the unhealthy run before it |
| RoundRobin.Rounds | gateway/proxy.go:69-70 | any k rounds of turns hit a position with gap g exactly k (1 + g) times |
| RoundRobin.ServeAll | gateway/proxy.go:62-104 | serving any list of requests from any counter, sticky ones interleaved, gives each healthy replica the turns that end at its position |
| RoundRobin.FairShares | gateway/proxy.go:62-104 | over k n requests without a conversation each healthy replica serves exactly k (1 + the unhealthy replicas immediately before it), unless the counter wraps inside a round and its size is no multiple of n |
| RoundRobin.EvenHits | gateway/proxy.go:69-70 | the same count by position, also when the counter wraps between two rounds |
| RoundRobin.SharesAreEqualIffEven | gateway/proxy.go:69 | for up to a whole turn of the counter, k rounds over n healthy replicas serve each k times if and only if the counter does not wrap, its size is a multiple of n, or it wraps between rounds |
| RoundRobin.WrapOverThree | gateway/proxy.go:69 | one round over three replicas that starts at the last ticket serves them 2, 1 and 0 times |
| LoginWindow.LoginLimiter.CountAttempt | internal/accountdb/portal.go:59-70 | one counted attempt: the first of a new window when none is open or the last began more than fifteen minutes ago, otherwise one more of that window; the first five of a window are let through |
| LoginWindow.LoginLimiter.Login | internal/accountdb/portal.go:55-98 | let in exactly when the attempt is one of the first five of its window, the owner's password matches and the session opens; invalid credentials exactly when it is let through and the owner is unknown or the password wrong; limited beyond five; and what each outcome leaves in the table |
| LoginWindow.LoginLimiter.DeleteOldWindows | internal/accountdb/maintenance.go:24 | deletes exactly the windows that began more than fifteen minutes ago |
| LoginWindow.AtMostNine | internal/accountdb/portal.go:59-70 | from any state and over any run, at most nine attempts for one email reach the password in any closed interval of fifteen minutes without a success |
| LoginWindow.NineIsReached | internal/accountdb/portal.go:59-70 | the bound is sharp for every email and interval |
| LoginWindow.StepSpends | internal/accountdb/portal.go:59-70 | the potential that bounds the checks an interval can still see |
| LoginWindow.CleaningNeverMatters | internal/accountdb/maintenance.go:24 | removing every maintenance deletion from a run changes the verdict of no attempt |
| EventFraming.FirstBoundaryIsLeftmost | web/src/chat.tsx:131 | the boundary found is the leftmost match of two line ends in a row |
| EventFraming.BoundaryStays | web/src/chat.tsx:129-133 | text that arrives later never moves a boundary that was found |
| EventFraming.FramesExtend | web/src/chat.tsx:129-136 | framing a text and then more text is framing both in one piece |
| EventFraming.FirstEndDecides | web/src/chat.tsx:117-136 | the first `[DONE]` or failing event decides how the reply ends; what was read is every content before it, in order |
| EventFraming.ChunkingDoesNotMatter | web/src/chat.tsx:114-137 | however a text is cut, also inside a CRLF CRLF, the client reads what it would read in one piece, up to the first end marker or failure |
| EventFraming.FramesFollowStandard | web/src/chat.tsx:117-136 | the data of the events cut out of the buffer are those a line-by-line reader dispatches at blank lines (section 9.2.5 of the HTML Living Standard), empty data included, with the client's rule for data lines |
| EventFraming.ReadingFollowsStandard | web/src/chat.tsx:117-136 | what the client reads from a text is what the events dispatched line by line say, of which it skips those with empty data |
| EventTexts.BoundaryMeaning | web/src/chat.tsx:131 | a boundary is one of the four strings of two line ends |
| EventTexts.SplitLinesMeaning | web/src/chat.tsx:118 | lines written with LF or CRLF after each come back as they were |
| EventTexts.LineAddsData | web/src/chat.tsx:118 | a line that begins with `data:` adds the rest without leading white space, any other adds nothing |
| EventTexts.TwoDataLines | web/src/chat.tsx:118 | two data lines of one event are joined by a line feed |
| EventTexts.EventMeaning | web/src/chat.tsx:117-136 | what an event does to the reply and where reading goes on: empty data and payloads without content are passed over, `[DONE]` completes, an error fails with its message or the general one, content is added |
| EventTexts.OrdinaryReply | web/src/chat.tsx:117-136 | a content event and the end mark are read as that content, completely, with LF and with CRLF |
| ChatSession.RunIsSound | web/src/chat.tsx:42-167 | in every state of every run the messages show the conversation, the history is its completely answered part, and each live reply with its pending text is the concatenation of the deltas received |
| ChatSession.ExchangeShown | web/src/chat.tsx:71-73 | the k-th two messages of the page are a prompt and its reply, with no status when complete, stopped, error, or streaming while in flight |
| ChatSession.HistoryGrowsByAnswers | web/src/chat.tsx:138-143 | a chunk adds to the history only the prompt with its complete answer, and exactly when the text received becomes complete |
| ChatSession.StaleChangesNothing | web/src/chat.tsx:86-162 | whatever comes of a request of an earlier conversation (its fetch, a chunk, a failure) changes nothing that is shared and no other request |
| ChatSession.ChunkHeard | web/src/chat.tsx:126-137 | answer plus pending text stays the concatenation of the deltas of all text received |
| ChatSession.ChatView.Send | web/src/chat.tsx:66-107 | refused without prompt, model or account or while busy; otherwise shows the prompt and an empty reply that is streaming, and carries the answered history |
| ChatSession.ChatView.TakeEvents | web/src/chat.tsx:117-136 | the inner loop takes in what the buffered text says and keeps the incomplete rest |
| ChatSession.ChatView.ReadChunk | web/src/chat.tsx:126-162 | one turn of reading: an open reply waits for the next frame; a complete one loses its status and joins the history; a failed one keeps what was received, is marked as stopped or as an error, and its message is shown unless the user stopped it |
| ChatSession.ChatView.FetchSettles | web/src/chat.tsx:101-115 | a refused fetch marks the reply as stopped or as an error, with the message of the refusal; a stream is read |
| ChatSession.ChatView.ReadEnds | web/src/chat.tsx:126-154 | a text that ends early marks the reply as stopped or as an error, with its message, and keeps what was received |
| ChatSession.ChatView.FrameRuns | web/src/chat.tsx:86-94 | a frame moves the pending text into the reply and shows it as streaming |
| ChatSession.ChatView.Stop | web/src/chat.tsx:164-167 | aborts the request in flight and changes nothing else |
| ChatSession.ChatView.Reset | web/src/chat.tsx:42-57 | cuts off the request in flight and empties the conversation |

## Left out

- HTTP plumbing, header rewriting, cookies, timeouts, TLS and the reverse proxy: library behaviour; only the events dispatched, headers, bytes read, end of file, failure and cancellation remain.
- The inside of the hash ring, SHA-256, Argon2, base64 and JSON decoding: not visible in the repository.
- PostgreSQL's planner, lock waits and deadlocks: only row effects and the returned row counts matter.
- The order and limit of a claim in the transition system: there a rollup may claim any eligible rows, which covers every selection; the exact selection is in the store's methods.
- Metrics and logs, including the in-flight gauge, which is set to zero when an origin that is still draining is added again.
- The concurrent polling of known backends: probes of a reload are modelled, and routing is proved for flags that change at any moment.
- A request identifier and conversation text: random identifiers are fresh values, and the conversation identifier of the chat page plays no part in its state.
- The narrowing of the HTTP status to 32 bits: statuses have three digits.
- Sign-up, sessions, API keys, migrations, static files and deployment: input and output or easy branches.
- Rendering, scrolling, focus, the composer's size and the decoding of bytes to text in the chat page: not part of its conversation state.
- AccountStore.Store.Maintain: run alone; other workers' interleavings are covered by the transition system. It leaves out the expired portal sessions; the deletion of old login windows is LoginWindow.LoginLimiter.DeleteOldWindows.
- AccountStore.Store.SetPrice: the name arrives trimmed, see the assumptions.
- LoginWindow.AtMostNine: a success inside the interval is excluded as a whole, because it deletes the counter.
- LoginWindow.LoginLimiter.Login: no other statement runs between the counting and the deletion; runs with other workers in between are covered by the lemmas about sequences of steps.
- RoundRobin.FairShares: flags do not change and no reload happens while the requests are served, as the law requires.
- Fingerprint.FingerprintIdentifies: says nothing of two registries when the shorter has a line end in a name; Fingerprint.SeparableIdentifies covers those with separable names, and Fingerprint.TextIdentifiesOneEntry says why no general statement holds.
- Membership.Server.RoutedLikeLastAccepted: for catalogs with separable names; ReloadExamples.SwapIsUnseen fails without.
- Membership.PublishedOnChange: for catalogs with separable names; the condition is sufficient, and which other catalogs are safe is left open.
- EventFraming.FramesFollowStandard: keeps the client's rule for data lines, which trims all leading white space where the standard drops one space, and passes over a line without a colon; other fields and a bare CR as line end are not read by the client either.
