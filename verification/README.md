# Verified core of the Trishul FCAPS platform

Dafny models of the six places where this platform's correctness is not obvious from reading one
function, with proofs about every run or every input. `dafny verify dfyconfig.toml` checks them all.

- **Request limiter** (`RateLimit`, `RateLimitRuns`, `RateLimitTight`, `RateLimitMiddleware`).
  INCR and EXPIRE are two commands, and other requests, delays and crashes come between them. An
  *incarnation* is the life of one counter, from the INCR that creates it to its expiry. The
  middleware's docstring speaks of a token bucket; the code, and so the model, is a fixed window.
  Time is in the key store's milliseconds, and a key lives through the millisecond of its deadline.
- **Event queries** (`LogsQL`, `QueryBuilder`, `Records`, `Asking`, `Confinement`, `EventDocument`). A query is the string the code
  builds. It is lexed and parsed with NOT over AND over OR, and its meaning is the truth value it
  gives to any set of atoms that hold of a record. The fragment has names of ASCII letters, digits,
  `_`, `-`, `.` and `/`, `field:value` with a name, a name's beginning and `*`, or `*` as value,
  double-quoted phrases, parentheses and the three keywords. Any other character outside a phrase
  (`|`, `!`, `#`, other quotes, comparisons, ...), a keyword as a value, a word right before a
  parenthesis, and the fields `_time`, `_stream` and `_stream_id` leave the fragment: such a query has
  no meaning here, and results that say "exactly" say of it only that. `Records` adds what atoms ask of
  a record, by LogsQL's phrase, prefix and any-value match, and `EventDocument` the stored document; a
  record is any map from fields to texts, and every one is that of some envelope (`AnyRecordIsStored`).
- **CSV** (`CsvFormat`, `CsvCodec`). The writer and the reader's character machine of Python's `csv`
  default dialect (section 2 of RFC 4180 with minimal quoting), including the reader's field limit of
  131072 characters, DictReader's rules for blank, short and long records, and the file appender.
- **Notification fan-out** (`Envelopes`, `Fanout`, `FanoutRuns`, `NotificationService`,
  `ConnectionManager`). Three subscriptions handle their messages one at a time and interleave with
  each other, with sockets joining and leaving, and with failing sends. The flag `domainIsEnum` says
  whether `envelope.domain.value` in the log call after the store works. As the code stands it raises,
  because `use_enum_values` (core/models/base.py:8) leaves a plain string there; that is read off the
  source and not proved. All safety results hold for both settings; `BroadcastNeedsTheLogCall` says
  what follows from the flag.
- **Tokens** (`Tokens`, `AuthService`). Login, refresh, logout and authenticated requests over a real
  clock and an expiring blocklist. The `exp` claim is cut to whole seconds when a token is encoded, and
  a token decodes while the time is below it. The middleware is taken to be installed as
  docs/architecture.md:103-115 describes (core/app.py:140-148 does not add it); token ids are fresh,
  only issued tokens carry a valid signature, and one dispatch happens at one instant.
- **Browser side** (`SocketClient`, `Timeline`). The reconnecting event socket, with the callbacks of
  every socket ever made, and the dashboard's time buckets.

Code that changes state is modelled twice: as a class whose methods update fields as the source does,
and as a pure step function that each method is proved equal to. Runs are sequences of steps. The
table leaves out the methods of `Limiter`, `Service` and `Client` that are one such step and no more.

## Where the code and its promises part

- A lost EXPIRE locks a client out for good (`LostExpireLocksOut`); a counter ends if and only if its
  EXPIRE runs (`WindowLength`, `FirstAfterWindow`).
- Up to some forty days, a window of k minutes can admit (k + 1) * limit - 1 requests, and no more
  (`WindowBound`); for an interval of any number of milliseconds the most is `Most` (`IntervalBound`,
  `BoundIsAttained`).
- Field filters build a query of the fragment that says of every record what was asked if and only if
  their values are values of the fragment (`SingleWordsAreNecessary`).
- Free text keeps the records found to the requested fields if and only if no OR stands outside all its
  parentheses, once the endpoint's own are around it, or what stands beyond that OR implies the fields
  (`ConfinedExactly`). For text without negation the tokens decide whether it does (`ConfinedDecided`):
  `a) OR (protocol:snmp` asks for `protocol:*`, and not for `protocol:snmp-v2`. `a) OR (b` finds whatever
  `b` finds (`UnbalancedTextEscapes`).
- An envelope is found under its own protocol if and only if that is lower case
  (`ProtocolFilterFindsLowerCase`), under a beginning of it if and only if one of its words begins so in
  lower case (`ProtocolPrefixFindsLowerCase`), and by `*` unless it is empty (`AnyProtocolFinds`). A
  normalized field named `domain` hides the header's (`OverriddenDomainIsLost`).
- A dict survives the CSV round trip if and only if it is not empty and its strings fit the reader
  (`RoundTrip`); appending repeats the header between rows (`AppendRoundTrip`).
- A logged-out token is accepted again in the last fraction of a second before it expires, exactly when
  a second or more and not a whole number of seconds was left (`LogoutRevokesExactly`, `GapIsShort`).
  Its refresh token stays usable (`RefreshTokensAreNeverRevoked`).
- Stopping the browser socket is final if and only if no reconnect timer but the last one is pending and
  either the budget is spent or every socket is closed (`StopIsFinalExactly`). Usually the socket that
  the stop closes reconnects (`StopStillReconnects`), and with all sockets closed an earlier timer can
  survive the stop (`SurvivingTimerOpens`). A socket's error closes another one if and only if another
  one is live (`ErrorClosesAnother`), and that happens (`StaleErrorHappens`).

## Model

| member | source | states |
|---|---|---|
| RateLimit.ReachableInv | core/middleware/rate_limit.py:27-29 | under any interleaving a pending EXPIRE belongs to the live counter its own INCR created, a client has at most one pending, and counts within an incarnation run 1..n without repeats |
| RateLimit.WaitingKeys | core/middleware/rate_limit.py:27-29 | in every run a counter has no TTL if and only if the EXPIRE of the INCR that created it is pending or was lost; if no request crashed, each counter without a TTL has exactly one pending EXPIRE, and one with a TTL none |
| RateLimit.InvStep | core/middleware/rate_limit.py:27-29 | each atomic command, each delay and each crash keeps that invariant |
| RateLimit.IntervalBound | core/middleware/rate_limit.py:27-39 | in every run, under any interleaving, delay or crash, an interval of any length admits at most `Most` requests of one client |
| RateLimit.WindowBound | core/middleware/rate_limit.py:27-39 | in every run, any interval of k windows admits at most (k+1)·limit − 1 requests of one client, and none when the limit is not positive; below 60000 windows that is `Most` |
| RateLimit.RejectionIsExact | core/middleware/rate_limit.py:31-37 | a request is rejected if and only if `limit` earlier INCRs fell in its incarnation |
| RateLimitTight.BoundIsAttained | core/middleware/rate_limit.py:27-39 | for every positive limit and every length some run and interval admit exactly `Most` |
| RateLimitRuns.WindowLength | core/middleware/rate_limit.py:28-29 | once an EXPIRE has run, its incarnation takes exactly the INCRs of the following 60 s, the last millisecond included, whatever else happens |
| RateLimitRuns.FirstAfterWindow | core/middleware/rate_limit.py:27-29 | the first INCR after those 60 s starts a new count at 1 |
| RateLimitRuns.LostExpireLocksOut | core/middleware/rate_limit.py:27-37 | if the EXPIRE is lost, all later INCRs of the client share one incarnation and at most limit − 1 more are ever admitted |
| RateLimitRuns.ClientIsolation | core/middleware/rate_limit.py:23-31 | projecting a run onto one client is a legal run with the same counts at the same times |
| RateLimitMiddleware.ClientId | core/middleware/rate_limit.py:41-46 | the user's id when there is one, else the peer host |
| RateLimitMiddleware.SeenCount | core/middleware/rate_limit.py:27 | an INCR answers one more than the INCRs already in its incarnation |
| RateLimitMiddleware.UninterruptedDispatch | core/middleware/rate_limit.py:27-29 | a dispatch nothing interleaves with leaves without a TTL exactly the counters that had none before, and gives a new one exactly 60 s |
| RateLimitMiddleware.Limiter.Dispatch | core/middleware/rate_limit.py:18-39 | without Redis every request passes; else it passes if and only if fewer than `limit` INCRs came before it in its incarnation |
| LogsQL.LexAppend | core/query_router.py:34-42 | joining query texts that cannot merge joins their tokens |
| LogsQL.StripTakesEnds | core/query_router.py:39-40 | stripping takes exactly the white space off the two ends |
| LogsQL.LexStrip | core/query_router.py:39-40 | stripping free text of the fragment changes none of its tokens |
| LogsQL.ParseOrLocal | core/query_router.py:40 | a text parses between parentheses as it does alone |
| LogsQL.MeaningIgnoresNonWords | core/query_router.py:34-38 | no query's meaning depends on an atom that is no word of the fragment |
| QueryBuilder.Precedence | core/query_router.py:39-42 | NOT binds tighter than AND and AND tighter than OR, and two words side by side are joined as by AND |
| QueryBuilder.JoinMeans | core/query_router.py:42 | joining filters and parenthesised texts with AND means their conjunction, whatever OR, NOT and parentheses the texts contain |
| QueryBuilder.EventsQueryMeans | core/query_router.py:32-42 | for every choice of filters and every well-formed, blank or `*` text the built query means the conjunction of what was asked |
| QueryBuilder.SearchMeans | core/storage/victorialogs.py:58-63 | wrapping a query adds exactly the domain condition, and nothing without a domain |
| QueryBuilder.EndpointMeans | core/query_router.py:32-45 | the query the store finally sends for a request means exactly that request |
| QueryBuilder.AnyTextMeans | core/query_router.py:32-42 | for any free text at all: the built query has no meaning if the text in its parentheses does not read, and otherwise means the fields and what precedes its first outer OR, or what follows that OR |
| QueryBuilder.WellFormedReads | core/query_router.py:39-40 | well-formed text in its parentheses reads as itself, with nothing beyond |
| QueryBuilder.UnbalancedTextEscapes | core/query_router.py:39-42 | for text `a) OR (b` the built query also takes every record that b takes, for all a and b |
| QueryBuilder.QueryEvents | core/query_router.py:20-42 | for parameters of the fragment the query means, for all facts, that the upper-case domain unless it is ALL, the upper-case severity and the lower-case protocol, where given, and the text, unless blank or `*`, hold |
| Confinement.SingleWordsAreNecessary | core/query_router.py:33-38 | a request that some record meets is built into a query that says of every record what was asked if and only if its field values are values of the fragment |
| Asking.AsksExactly | core/query_router.py:39-42 | every record that an expression without negation takes fits a filter if and only if the expression asks for it: one side of each AND, both sides of each OR, and of the atoms those whose least text matches the filter |
| Confinement.ConfinedExactly | core/query_router.py:32-42 | the built query is well-formed if and only if its text reads in the parentheses, and then takes only records that fit the fields if and only if no OR stands outside all parentheses or every record that fits what is beyond it fits the fields |
| Confinement.ConfinedDecided | core/query_router.py:32-42 | for text without negation the query keeps to its fields if and only if no OR stands outside all parentheses or what is beyond it asks for each requested filter |
| Confinement.ConfinedUnlessSeen | core/query_router.py:32-42 | when no token of the text looks at the field of some requested filter, only what no record fits, beyond that OR, keeps the query to its fields |
| Confinement.ConfinedWithoutOuterOr | core/query_router.py:32-42 | when such text has no negation either, the query keeps to its fields if and only if no OR stands outside all parentheses |
| EventDocument.FilterQueryFinds | core/storage/victorialogs.py:19-31 | a filter-only query finds a stored envelope if and only if each filter's phrase, prefix or any-value match holds of the stored field |
| EventDocument.AgreeingEnvelopeFound | core/storage/victorialogs.py:19-31 | an envelope that agrees with its header is found by exactly the filters that match its header, which for a domain, a severity and a protocol of one token are its value, its beginnings with `*`, and `*` |
| EventDocument.ProtocolFilterFindsLowerCase | core/query_router.py:37-38 | an envelope is found under its own protocol if and only if that is lower case; when it is a single token, no other whole protocol finds it either |
| EventDocument.ProtocolPrefixFindsLowerCase | core/query_router.py:37-38 | a filter by a protocol's beginning and `*` finds the envelope if and only if some word of the protocol begins with that in lower case |
| EventDocument.AnyProtocolFinds | core/query_router.py:37-38 | the filter `*` finds it if and only if its protocol is not empty |
| EventDocument.DomainsFind | core/query_router.py:33-34 | the filters FM, PM and LOG find exactly the envelopes of that domain, ALL and none every one |
| EventDocument.SeveritiesFind | core/query_router.py:35-36 | each severity's filter finds exactly the envelopes of that severity |
| EventDocument.DocumentText | core/storage/victorialogs.py:19-31 | the text of every other field of the document: a normalized field's own, else the header's, and the message or the whole of the normalized fields |
| EventDocument.TextFinds | core/storage/victorialogs.py:19-31 | free text `field:value` finds the envelope if and only if the value matches that text |
| EventDocument.OverriddenDomainIsLost | core/storage/victorialogs.py:29 | an envelope whose normalized domain differs is not found under its own domain |
| EventDocument.AnyRecordIsStored | core/storage/victorialogs.py:19-31 | for every record there is an envelope whose stored document no query of the fragment tells from it |
| CsvFormat.ReadRow | transformer/encoders/csv.py:15-16 | reading a written record yields its fields, whatever commas, quotes, CR or LF they contain, or fails if and only if one is over the reader's limit |
| CsvFormat.QuotedOnlyWhereNeeded | transformer/encoders/csv.py:13-16 | a field is quoted if and only if it contains a comma, a quote, CR or LF; a lone empty field is |
| CsvFormat.ReaderIsLenient | transformer/decoders/csv.py:13 | a lone LF ends a record, text after a closing quote continues the field, and a CR in the middle of a line is an error |
| CsvFormat.TextMayEndAnywhere | transformer/decoders/csv.py:13 | the last record needs no line end and its last field no closing quote |
| CsvCodec.Buffer.WriteRow | transformer/encoders/csv.py:13-16 | the row written field by field into the buffer is the record's text |
| CsvCodec.Encode | transformer/encoders/csv.py:11-17 | a header record and one data record |
| CsvCodec.DictRowOfRecord | transformer/decoders/csv.py:13-14 | a record of the header's length gives the dict of its columns in order |
| CsvCodec.DictRowOfShort | transformer/decoders/csv.py:13-14 | a shorter record leaves the columns at the end without a value |
| CsvCodec.DictRowOfLong | transformer/decoders/csv.py:13-14 | a longer one keeps the surplus values together after the columns |
| CsvCodec.BlankIsSkipped | transformer/decoders/csv.py:13-14 | a blank line between records gives no row |
| CsvCodec.RoundTrip | transformer/decoders/csv.py:10-17 | decoding an encoding gives one row equal to the dict, count 1 and its columns in order, if and only if the dict is not empty and its strings fit the reader |
| CsvCodec.CsvFile.Write | transformer/writers/csv.py:19-23 | without a mode or with `append` the file is what it was and the data, with any other mode the data alone, and a newline is added if and only if the data does not end in one |
| CsvCodec.AppendRoundTrip | transformer/writers/csv.py:19-23 | decoding k appended encodings with the same columns yields 2k − 1 rows, the k dicts in order with a row of column names between each two |
| CsvCodec.Interleaved | transformer/decoders/csv.py:13-17 | the 2k − 1 rows, position by position |
| Fanout.OneSubscription | core/notifications/service.py:20-24 | no subject matches two of the subscriptions |
| FanoutRuns.InvStep | core/notifications/service.py:58-86 | every step of every handler and socket keeps the invariant |
| FanoutRuns.InOrderAndAtMostOnce | core/ws/router.py:27-35 | a client is sent no message twice, and those of one subscription in the order they arrived |
| FanoutRuns.StoredBeforeBroadcast | core/notifications/service.py:63-81 | whatever is broadcast is already in the store its domain selects |
| FanoutRuns.EveryConnectedSocketIsTried | core/ws/router.py:27-35 | once a broadcast is over, every socket that was connected when its message had been stored was sent it exactly once, and no other socket was, whatever happens in between |
| FanoutRuns.FinishedBroadcastTriedAll | core/ws/router.py:27-35 | a finished broadcast tried every socket of its snapshot, in its order |
| FanoutRuns.OnlyDeadSocketsRemoved | core/ws/router.py:34-35 | a socket leaves only by its own disconnect or by a broadcast that had it in its snapshot and failed to send to it |
| FanoutRuns.DeadSocketsRemoved | core/ws/router.py:27-35 | in every reachable state no socket is connected that a finished broadcast failed to send to |
| FanoutRuns.RemovedStaysRemoved | core/ws/router.py:41-53 | no removed socket ever returns |
| FanoutRuns.JoinedStaysConnected | core/ws/router.py:18-35 | a socket that joins is connected until it leaves or a send to it fails |
| FanoutRuns.LeftStaysAway | core/ws/router.py:23-25 | a socket that leaves is never connected again |
| FanoutRuns.LateSocketsUntouched | core/ws/router.py:29 | a socket that joined after the snapshot is never sent that message by that broadcast |
| FanoutRuns.Conservation | core/notifications/service.py:58-86 | every consumed message is at every point in exactly one place: awaiting its store, in the store its domain selects, or lost |
| FanoutRuns.PublishDelivers | core/notifications/service.py:20-46 | a message arrives at the end of the subscription that its first two subject tokens select, when there are more than two, and of no other |
| FanoutRuns.OnlyFailedWritesLose | core/notifications/service.py:58-86 | valid envelopes are lost only to failed writes, one for each, and whatever is lost is logged |
| FanoutRuns.BroadcastNeedsTheLogCall | core/notifications/service.py:71-81 | some run sends something to a client if and only if the flag says that the log call after the store works; when it raises, every stored message is logged as failed |
| NotificationService.Service.constructor | core/notifications/service.py:39-47 | one idle subscription for each subject |
| NotificationService.Service.Arrive | core/notifications/service.py:41-45 | a message reaches every subscription it matches |
| NotificationService.Service.Stored | core/notifications/service.py:63-81 | routing by domain, the log call, and the broadcast's snapshot, which ends at once when nobody is connected |
| NotificationService.Service.FinishIfDone | core/ws/router.py:34-35 | after the last send the loop over the dead sockets leaves exactly the others connected |
| ConnectionManager.Manager.WsEvents | core/ws/router.py:41-53 | a session that nothing interleaves with, from joining through its pings to the one that fails, leaves the set as it was without the socket |
| ConnectionManager.Manager.Broadcast | core/ws/router.py:27-35 | uninterrupted, it sends to every socket once and keeps exactly those whose send went through |
| Tokens.InvStep | core/auth/router.py:35-79 | login, refresh, requests and logout keep the invariant |
| Tokens.AcceptedTokensComeFromALogin | core/auth/jwt_handler.py:28-41 | an accepted token goes back to one login with its subject and roles, less than refresh TTL plus access TTL ago, however many refreshes there were |
| Tokens.LoginIssues | core/auth/router.py:35-50 | a login issues one access and one refresh token of its subject and roles |
| Tokens.LoginTokensLast | core/auth/jwt_handler.py:28-41 | until logged out, the access token is accepted on requests for exactly the configured minutes and the refresh token at the refresh endpoint for exactly the configured days, cut to a whole second, and neither in the other's place |
| Tokens.RefreshIssues | core/auth/router.py:53-68 | an accepted refresh token issues one access token of the same subject and roles, any other token nothing |
| Tokens.RefreshedTokensLast | core/auth/jwt_handler.py:28-41 | that token is accepted for exactly the configured minutes until logged out |
| Tokens.RefreshTokensAreNeverRevoked | core/auth/router.py:60-65 | the blocklist names access tokens only, so the refresh endpoint accepts exactly the unexpired refresh tokens |
| Tokens.LogoutRevokes | core/auth/router.py:76-78 | after a logout, whatever follows, the token is accepted only inside the gap left by the truncated blocking time |
| Tokens.LogoutRevokesExactly | core/auth/router.py:76-78 | and, unless logged out again, it is accepted exactly there |
| Tokens.GapIsShort | core/auth/router.py:76-78 | the gap lies within the last second, and is empty exactly when less than a second or a whole number of seconds was left |
| Tokens.LogoutTouchesOneToken | core/auth/router.py:71-79 | leaving a logout out of a run changes no decision about any other token |
| AuthService.Service.Login | core/auth/router.py:35-50 | the right password for an active account mints an access token for the configured minutes and a refresh token for the configured days, anything else is refused with its reason and changes nothing |
| AuthService.Service.RefreshAccess | core/auth/router.py:53-68 | an unexpired refresh token mints an access token with its own subject and roles for the configured minutes, anything else is refused |
| AuthService.Service.Dispatch | core/auth/middleware.py:26-74 | public paths pass; else exactly the unexpired, unblocked access tokens do |
| AuthService.Service.Logout | core/auth/router.py:71-79 | an accepted token is blocked for the truncated rest of its life, at least a second, and is refused at once |
| SocketClient.AtMostOneLive | ui/shell/src/ws/client.ts:11-19 | at most one socket is connecting or open, and it is the current one |
| SocketClient.ReconnectBudget | ui/shell/src/ws/client.ts:51-57 | until a socket opens at most 10 reconnects are scheduled, with at most 102 s of delay |
| SocketClient.OpenRenewsBudget | ui/shell/src/ws/client.ts:16-19 | after any open, of the sockets that close or fail until the next one the k-th schedules one timer after 3000 · min(k, 4) ms for k up to 10, and later ones none |
| SocketClient.FirstBudget | ui/shell/src/ws/client.ts:51-57 | so it is before the first open |
| SocketClient.StartAndStop | ui/shell/src/ws/client.ts:11-68 | a start or a timer opens a socket if and only if none is connecting or open, and a stop closes the one that is and clears the last timer |
| SocketClient.GivesUp | ui/shell/src/ws/client.ts:51-57 | once ten are spent nothing is scheduled until a socket opens |
| SocketClient.StopIsFinalExactly | ui/shell/src/ws/client.ts:64-68 | after a stop no socket is opened without a new start, however the run goes on, if and only if no timer but the last scheduled was pending and the budget is spent or every socket is closed |
| SocketClient.StopStillReconnects | ui/shell/src/ws/client.ts:64-68 | the close event of the live socket that a stop closed schedules a reconnect if and only if the budget is not spent, and that timer opens a socket |
| SocketClient.SurvivingTimerOpens | ui/shell/src/ws/client.ts:51-68 | two sockets that close one after the other leave a timer that survives a stop and opens a socket |
| SocketClient.StaleErrorClosesLive | ui/shell/src/ws/client.ts:49 | the error of a replaced socket closes the live one |
| SocketClient.ErrorClosesAnother | ui/shell/src/ws/client.ts:49 | an error of a socket closes another one if and only if another one is live |
| SocketClient.StaleErrorHappens | ui/shell/src/ws/client.ts:49 | a start, a stop and a start lead to such an error |
| Timeline.BuildTimeline | ui/mfe/pm-dashboard/src/PmDashboardModule.tsx:14-28 | 20 slots, each with the count of every one of the six known protocols |
| Timeline.FilterLength | ui/mfe/pm-dashboard/src/PmDashboardModule.tsx:21-24 | the number of events of one protocol with a time in [start, end) |
| Timeline.CellIsDirectIndex | ui/mfe/pm-dashboard/src/PmDashboardModule.tsx:16-24 | a slot counts exactly the events whose floor((t − base) / bucket) is its index |
| Timeline.TimelineCountsAll | ui/mfe/pm-dashboard/src/PmDashboardModule.tsx:15-28 | a protocol's slots sum to the number of its events in [now − 19 B, now + B) |
| Timeline.TimelineShifts | ui/mfe/pm-dashboard/src/PmDashboardModule.tsx:15-18 | one bucket later every slot shows what the next one showed |

## Left out

- Redis, NATS, VictoriaLogs, InfluxDB and SQLite themselves: only the key store with deadlines, message arrival, and success or failure of a write are kept. Redis is taken not to evict keys (docker-compose.yml:222 allows it to) and its 64-bit counter not to overflow.
- Signatures, password hashes and UUIDs: ideal tokens and fresh ids.
- API keys: `lookup` reads byte keys (core/auth/apikey_store.py:50) from a client that decodes them (core/app.py:82), and the routes that list and delete them are stubs.
- LogsQL beyond the fragment described above: pipes, `!` and `-` for NOT, comments, `'` and backtick quotes, field prefixes on groups or phrases, comparison, function and time filters, and names outside ASCII. Such a query has no meaning in the model. Upper and lower case are ASCII, and stripped white space is ASCII white space.
- QueryBuilder.EventsQueryMeans: is about well-formed and blank text; `AnyTextMeans` covers every other text.
- Characters outside ASCII in stored text all count as letters of a token; in LogsQL some, such as dashes, do not.
- FanoutRuns.BroadcastNeedsTheLogCall: whether the log call works is a parameter, not derived from `use_enum_values`.
- ConnectionManager.Manager.WsEvents: an uninterrupted session; joins and leaves between the steps of other sessions and broadcasts are in `FanoutRuns`.
- Time range, limit and decoding of search results: passed through.
- CSV bytes: a file is the text it decodes to, and the values are strings; `str()` of other values happens before the model. The writer's branch for dicts is JSON.
- The `id`, `direction` and message fields of an envelope: carried into the document, but no filter names them.
- Tokens.LogoutRevokesExactly: the clock is real; Redis counts the blocking time in whole milliseconds, so the gap can begin up to a millisecond later.
- Broadcast text: `json.dumps` of data that came from `json.loads` does not fail. Pings are not envelopes; a failed one is a disconnect.
- AuthService.Service.Dispatch: the API-key branch, and Redis being absent, are not modelled.
- Rendering of the dashboard and everything the socket client does with a message.
- Codecs other than CSV, the schema and stage registries, plugins, health and metrics endpoints: tables and thin wrappers.
