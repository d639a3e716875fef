# Connection broker: a verified model

This project models the core of a WebRTC signalling broker. Producers (a device's
*client* connection, and the *application* connection paired with it) leave an
offer. Consumers take the oldest waiting offer of a type and answer it. Producers
then poll for the answer. Two parts are modelled:

- `lib/connectionManager.js`: the connection lifecycle. This covers creation and
  queueing, allocation by a conditional update, the processing window, answer
  hand-back (a client is answered only once its application peer has confirmed),
  the liveness refresh, in-memory ICE candidates delivered oldest first and at
  most once, and the debug mirror of the offer/answer pair.
- `lib/dynamodbV3.js`: the record store. This covers the record a put writes
  (including its expiry second), the read, the unconditional update with its
  generated `set` expression and placeholder values, the compare-and-set used
  for allocation, and the device-id lookup over paged scans.

Modules:

- `Results`: the option, result and thrown-error kinds.
- `Storage`: the store. Items are maps from attribute names to string or number
  values. `ConnectionStore` is a class whose `items` map its methods update.
- `Manager`: the broker. `ConnectionManager` is a class whose per-type FIFO
  `queues` and in-memory `connectionMap` are fields its methods update.
- `Scenarios`: client code. It proves whole exchanges from the contracts alone:
  - a full handshake;
  - a late answer being refused;
  - an idle producer losing its allocation;
  - two consumers contending for one record;
  - candidates being delivered in order.

Clock readings are `now` parameters, in milliseconds. The random suffix of a
client id is a 10-character parameter. The two id derivations (client id to
application id and back) are constructor parameters. They must satisfy one law:
the client id is recovered from the application id derived from it.

The code does not enforce that a record's status only advances, that
`offerResponse` is written once, or that `keepalive` never decreases.
`yieldConnection` and `stopConnection` overwrite the status unconditionally.
`saveOfferResponse` writes from any status while the processing window is open.
The keepalive is written with whatever time it is given. The model does the same.

The exception is the defects listed under "## Findings". For each, one member
models the code as written and shows the failure. The broker's methods then
implement the evidently intended behaviour:

- `AddConnection` uses the corrected type guard.
- `GetWaitingOffer` uses the corrected catch.
- The candidate map is created with the broker and populated by `AddConnection`.
- The debug read and delete take no undeclared logger.
- The device-id lookup reaches its not-found branch.

## Model

| member | source | states |
|---|---|---|
| Storage.NewRecord | lib/dynamodbV3.js:77-78 | the put record is complete and well typed; it holds the given offer, device, keepalive, status and type, an empty answer and empty debug fields, processing start 0, and an expiry in seconds `ttlDays` days after the creation second (floor of the clock) |
| Storage.ApplySet | lib/dynamodbV3.js:234-273 | an update sets exactly the listed attributes to their values and leaves every other attribute as it was, present or absent |
| Storage.BuildStep | lib/dynamodbV3.js:239-245 | one loop turn appends one `key = :key,` assignment to the expression and binds one more placeholder |
| Storage.PlaceholdersOfUpdate | lib/dynamodbV3.js:238-240 | the placeholders are exactly `:k` for the keys k of the update, each bound to the value set for k |
| Storage.CutLastComma | lib/dynamodbV3.js:253 | cutting the last character of the accumulated text gives "set " and the comma-separated assignments, or "set" for an empty update |
| Storage.PlaceholderValues | lib/dynamodbV3.js:238-240 | reading each key's placeholder value back gives the attributes the update sets |
| Storage.BuildUpdate | lib/dynamodbV3.js:238-253 | the loop produces the update expression for the keys in order, and a value map whose placeholders are exactly the keys', each bound to its value |
| Storage.CompareAndSet | lib/dynamodbV3.js:187-228 | a conditional update succeeds exactly when the item exists and the field holds the expected value; it then sets that field to the new value and keeps every other attribute, and a failure leaves nothing to write |
| Storage.NoWinnerAfterSwap | lib/dynamodbV3.js:183-231 | once the field holds the new value, no later conditional update expecting the old value succeeds |
| Storage.AtMostOneWinner | lib/dynamodbV3.js:183-231 | of any number of successive conditional updates of one item, at most one succeeds, and one does exactly when the item first meets the condition |
| Storage.NotFoundBranchUnreachable | lib/dynamodbV3.js:312-318 | as written, a scan walk in which every page answers empty ends in a TypeError, never in the not-found 503 |
| Storage.DeviceLookupAsWritten | lib/dynamodbV3.js:299-318 | the walk as written never fails with the not-found 503; it fails only with 500 (a failed scan) or a TypeError, and otherwise returns the first id of some matching page |
| Storage.DeviceLookup | lib/dynamodbV3.js:286-319 | the walk returns the first id of the first page with a match, fails 503 exactly when every page answered empty, and fails 500 exactly when a scan fails before any match |
| Storage.DeviceLookupAsWrittenAgrees | lib/dynamodbV3.js:286-319 | wherever a page matches or a scan fails, the walk as written and the corrected walk agree |
| Storage.ConnectionStore.constructor | lib/dynamodbV3.js:31-33 | a new store is empty and answering |
| Storage.ConnectionStore.AddConnection | lib/dynamodbV3.js:74-96 | a put replaces the item under the id with the new record; an unavailable store fails 503 and changes nothing |
| Storage.ConnectionStore.GetConnection | lib/dynamodbV3.js:98-113 | a read returns the stored item; a missing item or an unavailable store fails 503 |
| Storage.ConnectionStore.UpdateConnection | lib/dynamodbV3.js:234-284 | the update sets exactly the listed attributes of the item (creating it when absent), returns the whole new item, which carries its own id, and touches no other item; an empty update, one naming the key, or an unavailable store fails 500 and changes nothing |
| Storage.ConnectionStore.UpdateConnectionWithCondition | lib/dynamodbV3.js:183-231 | the field is set only when it currently holds the expected value, in one step, and the new item, which carries its own id, is returned; otherwise the condition failure is passed on untouched and nothing changes; a store fault is 500 |
| Manager.IndexOf | lib/connectionManager.js:54 | the first position of the type in the configured list, or -1 exactly when it is absent |
| Manager.TypeGuardAsWrittenNeverFires | lib/connectionManager.js:54-56 | the type guard as written never rejects, even for a type that is not configured |
| Manager.UnsupportedTypeAsWritten | lib/connectionManager.js:54 | the guard as written is false for every list and type |
| Manager.UnsupportedType | lib/connectionManager.js:54-56 | the intended guard rejects exactly the types other than client and application |
| Manager.CasFailureAsWrittenHidesContention | lib/connectionManager.js:88-93 | as written, a lost allocation race surfaces as a ReferenceError; the intended catch makes it a retryable 503 |
| Manager.CasFailureAsWritten | lib/connectionManager.js:88-93 | the catch as written throws a ReferenceError for the undeclared `err`, which differs from the intended result for every thrown value other than that same ReferenceError |
| Manager.CasFailure | lib/connectionManager.js:88-93 | a failed condition becomes 503, and any other failure is rethrown unchanged |
| Manager.IdleExpired | lib/connectionManager.js:98 | the producer is idle exactly when a numeric keepalive exists and lies more than the idle timeout before now; a missing keepalive compares as NaN and never expires |
| Manager.WithinDeadline | lib/connectionManager.js:126 | an answer is in time exactly when a numeric processing start exists and now is at most the processing timeout after it (bound inclusive); a missing start compares as NaN and is never in time |
| Manager.FirstNew | lib/connectionManager.js:157 | the position of the oldest candidate still tagged new, or none when no candidate is |
| Manager.Retrieved | lib/connectionManager.js:157-160 | retrieval retags only the oldest new candidate, and every content is kept |
| Manager.PendingAppend | lib/connectionManager.js:142 | an added candidate is delivered after every candidate not yet delivered |
| Manager.RetrieveDeliversOldest | lib/connectionManager.js:154-165 | retrieval delivers the oldest undelivered content and removes exactly it from those still to deliver |
| Manager.CandidateLookupAsWritten | lib/connectionManager.js:138 | a lookup in the candidate map throws a TypeError exactly when the map does not exist, and otherwise finds the connection's entry exactly when it has one |
| Manager.CandidatesAsWrittenAlwaysThrow | lib/connectionManager.js:34-50 | as written, the candidate map is never created, so every lookup in it throws a TypeError |
| Manager.ConnectionManager.constructor | lib/connectionManager.js:34-50 | a new broker has empty queues and an empty candidate map over the given store and settings |
| Manager.ConnectionManager.AddConnection | lib/connectionManager.js:52-72 | fails 503 and changes nothing exactly when the type is unsupported, an application has no client id, or the put fails; otherwise stores a created record under a device-plus-suffix id (client) or the derived id (application, whose client id is recovered from it), queues the id at the end of its type's queue and registers an empty candidate list (the registration is the model's own addition, see Findings) |
| Manager.ConnectionManager.YieldConnection | lib/connectionManager.js:74-76 | the record's status becomes timeout, from whatever it was; a store fault is 500 |
| Manager.ConnectionManager.DropConnection | lib/connectionManager.js:78-80 | the connection leaves the candidate map and nothing else changes |
| Manager.ConnectionManager.GetWaitingOffer | lib/connectionManager.js:82-103 | the oldest id of the type is dequeued whatever follows; the record moves created to allocated exactly when it is still created; the call succeeds with that id exactly when it moved and the producer polled within the idle timeout; an idle producer fails 503 and leaves the record allocated; contention is 503 and an empty queue 503 |
| Manager.ConnectionManager.GetOffer | lib/connectionManager.js:105-119 | the processing clock is set to now, and then the offer and type are returned; a record without an offer fails 500 after the clock is set |
| Manager.ConnectionManager.SaveOfferResponse | lib/connectionManager.js:122-135 | the answer is stored and the status becomes offerResponse exactly when the record exists and now is within the processing window (bound inclusive); the record as read is returned; a late answer is 500 and writes nothing |
| Manager.ConnectionManager.AddCandidate | lib/connectionManager.js:137-147 | a known connection gets the candidate tagged new at the end of its list and its liveness refreshed, and the result is true; an unknown id changes nothing and gives false |
| Manager.ConnectionManager.SetKeepalive | lib/connectionManager.js:149-152 | the record's keepalive becomes the given time and nothing else changes |
| Manager.ConnectionManager.GetCandidate | lib/connectionManager.js:154-165 | returns the oldest undelivered candidate and marks it delivered, so the rest stay in order; none when the id is unknown or nothing is pending |
| Manager.ConnectionManager.StopConnection | lib/connectionManager.js:167-169 | the record's status becomes ended, from whatever it was |
| Manager.ConnectionManager.GetOfferResponse | lib/connectionManager.js:171-196 | a missing record or unavailable store is 503; without an answer: 404 and no write; otherwise the keepalive is refreshed, an application record marks its client record connected and gets the answer, and a client record gets the answer only once it is marked connected, else 404 |
| Manager.ConnectionManager.PutDebugOffer | lib/connectionManager.js:204-207 | the debug offer is stored and the id returned |
| Manager.ConnectionManager.GetDebugOffer | lib/connectionManager.js:209-216 | returns the debug offer, 404 while there is none, and changes nothing |
| Manager.ConnectionManager.PutDebugOfferAnswer | lib/connectionManager.js:218-223 | the debug answer is stored on an existing record only |
| Manager.ConnectionManager.GetDebugOfferResponseAsWritten | lib/connectionManager.js:225-226 | as written, the read throws a ReferenceError for the undeclared logger |
| Manager.ConnectionManager.GetDebugOfferResponse | lib/connectionManager.js:225-234 | returns the debug answer, 404 while there is none |
| Manager.ConnectionManager.DeleteDebugOfferAsWritten | lib/connectionManager.js:236-237 | as written, the call throws a ReferenceError and writes nothing |
| Manager.ConnectionManager.DeleteDebugOffer | lib/connectionManager.js:236-238 | both debug fields are cleared and nothing else changes |
| Scenarios.DerivationsPaired | lib/connectionManager.js:186 | the example derivation pair recovers a client id from the application id derived from it, as the broker requires |
| Scenarios.NewManager | lib/connectionManager.js:37-50 | a fresh broker over a fresh empty store |
| Scenarios.Connect | lib/connectionManager.js:52-72 | a producer that connects to an empty queue heads it with a created, live record carrying its offer |
| Scenarios.Fetch | lib/connectionManager.js:82-119 | a consumer taking the head of a queue allocates it and starts its processing clock |
| Scenarios.Serve | lib/connectionManager.js:82-135 | a consumer serving the head of a queue in time leaves it answered with the consumer's answer |
| Scenarios.ServeApplication | lib/connectionManager.js:52-135 | an application connection for a client is created and served without touching other records |
| Scenarios.ApplicationConfirms | lib/connectionManager.js:171-187 | an application fetching its answer marks its client record connected and changes nothing else in it |
| Scenarios.ClientWaiting | lib/connectionManager.js:52-72 | a fresh broker with one client offer waiting |
| Scenarios.ServeClient | lib/connectionManager.js:82-135 | the client offer is answered in time |
| Scenarios.ClientAnswered | lib/connectionManager.js:188-192 | a client polling before its peer confirmed gets 404 |
| Scenarios.Handshake | lib/connectionManager.js:171-196 | a client gets 404 before its application peer confirms, and its answer after |
| Scenarios.LateAnswer | lib/connectionManager.js:122-135 | an answer one millisecond past the processing window is refused with 500 and not stored |
| Scenarios.IdleProducer | lib/connectionManager.js:96-100 | a producer idle past the timeout costs the consumer a 503, and the record stays allocated |
| Scenarios.OutageDuringAllocation | lib/connectionManager.js:82-94 | a store fault while a consumer polls gives it 500 after the id has left the queue, so the record stays created with nothing queued to hand it out |
| Scenarios.ContendedAllocation | lib/connectionManager.js:82-94 | an id queued twice is allocated once; the second consumer gets 503 |
| Scenarios.CandidatesAdded | lib/connectionManager.js:137-147 | two candidates added to a new connection wait in arrival order |
| Scenarios.CandidateOrder | lib/connectionManager.js:154-165 | candidates come back oldest first, once each, then none |

## Left out

- AWS SDK plumbing is not modelled: marshalling, table creation, TTL configuration, request parameters and logging. Each store call is an atomic step on the `items` map.
- The singleton `getInstance`/`init` wiring is not modelled. The constructor receives the store and settings instead.
- Concurrency is not modelled. Calls are sequential. The compare-and-set is one atomic step, and contention is shown by successive calls (`AtMostOneWinner`, `ContendedAllocation`).
- Store faults are an `available` flag that holds for the whole of one broker operation. A fault between two store calls of one operation is not modelled.
- JSON encoding of payloads is not modelled. Payloads are opaque strings, and the empty string stands for an absent or empty payload, which is falsy in the source.
- The queue module (`lib/queue`) is not part of this model. Its FIFO is the `queues` field. Dequeuing from an empty queue is taken to fail with 503, the broker's "try again later" code.
- The `utils` id derivations are not part of this model. They are the `appIdOf`/`clientIdOf` parameters. The only law required of them is that the client id is recovered from the application id derived from it.
- `nanoid(10)` is the `suffix` parameter, and `Date` readings are `now` parameters. The expiry second uses the same clock reading as the record's keepalive.
- Manager.ConnectionManager.GetOfferResponse: the deferred keepalive write is modelled as done immediately, before the peer update. Its failure is ignored, as in the source.
- Storage.DeviceLookup: the scan responses are given as a sequence of pages rather than computed from `items`. The broker's `getConnectionIdByDeviceId` only delegates to it, starting at page 0.
- Storage.ConnectionStore.UpdateConnection: the backend's own validation is reduced to two cases. An update naming no attribute, or naming the key, is refused with 500. Other validation errors of the backend are not modelled.
- Manager.ConnectionManager.AddConnection: registering an empty candidate list for each new connection is the model's own addition, with no counterpart in the code (see the third finding); without it the corrected `AddCandidate` could never succeed.
- The configured connection types (`config.connectionTypes`, read at lib/connectionManager.js:30) are the constant `ConnectionTypes`, fixed to client and application; another configuration is not modelled.
- The two HTTP peer simulators that drive the broker (`trans-container.js`, `client.js`) are not part of this model.

## Findings

| source | as written | input that shows it | evidently intended | confidence | as-written member | corrected member |
|---|---|---|---|---|---|---|
| lib/connectionManager.js:54 | the logical negation is applied to the index before the comparison with 0, so a boolean (0 or 1) is compared and the test is never true (`Manager.UnsupportedTypeAsWritten`) | connection type "video" is accepted and queued | reject types not in the configured list (`indexOf(t) < 0`) | high, not executed | Manager.TypeGuardAsWrittenNeverFires | Manager.UnsupportedType |
| lib/connectionManager.js:88-93 | the catch binds `error` but reads `err`, so any failure of the allocation update becomes a ReferenceError (`Manager.CasFailureAsWritten`) | two consumers dequeue the same id; the second's condition fails | a failed condition becomes a retryable 503, other failures are rethrown | high, not executed | Manager.CasFailureAsWrittenHidesContention | Manager.CasFailure |
| lib/connectionManager.js:34-50 | `this.connectionMap` is never assigned, so `addCandidate`, `getCandidate` and `dropConnection` throw a TypeError (`Manager.CandidateLookupAsWritten`); moreover no code ever inserts an entry (the only write, at line 143, re-stores an entry already found), so even an initialised map would make every `addCandidate` return false | any candidate added for any id | a map created with the instance, holding one entry per connection | high, not executed | Manager.CandidatesAsWrittenAlwaysThrow | Manager.ConnectionManager.AddCandidate |
| lib/connectionManager.js:225-226 | `getDebugOfferResponse` passes `reqLogger`, which it does not declare, so every call throws a ReferenceError | any call | the request logger as a parameter, as in the other methods | high, not executed | Manager.ConnectionManager.GetDebugOfferResponseAsWritten | Manager.ConnectionManager.GetDebugOfferResponse |
| lib/connectionManager.js:236-237 | `deleteDebugOffer` passes `reqLogger`, which it does not declare, so every call throws a ReferenceError and clears nothing | any call | the request logger as a parameter, as in the other methods | high, not executed | Manager.ConnectionManager.DeleteDebugOfferAsWritten | Manager.ConnectionManager.DeleteDebugOffer |
| lib/dynamodbV3.js:312-318 | the not-found test reads `length` of the response object, which has none, so it never holds (its other half, on `lastKey`, always holds, since that field does not exist either), and an empty last page reads `Items[0]` of an empty list (`Storage.DeviceLookupAsWritten`) | a device id that matches no record | 503 "not found" when every page is empty | high, not executed | Storage.NotFoundBranchUnreachable | Storage.DeviceLookup |
