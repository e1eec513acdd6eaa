# NIMNear payments and realtime delivery, verified in Dafny

NIMNear lets people pay for events and requests in NIM (1 NIM = 100000 Luna) and tells their browsers about it over
WebSockets. This project models the parts of it that are easiest to get subtly wrong and proves what they are for:

- **Realtime** (`Rooms`, `HubModel`, `Membership`, `Hub`, `RealtimeEvents`, `Fanout`, `EventBridge`, `EventBus`). A
  hub keeps two indexes, from rooms to clients and from clients to rooms, a cap, a gauge and channels that close once.
  A bridge copies every payment event to all server instances through a relay. `HubModel` and `Fanout` state the
  operations as functions on values and prove what every run keeps, `Membership` says who is in which room and why;
  `Hub`, `EventBridge` and `EventBus` hold the mutable classes, loops included, each method proved against those
  functions.
- **Payments** (`Payment`, `Purchases`, `Requests`, `NimiqTx`, `PurchaseRules`, `RequestRules`, `PurchaseService`,
  `RequestService`, `Reconcilers`, `Deadline`, `Guarantee`, `Ledger`, `Sequential`, `Provenance`, `Announcements`,
  `Seats`). Event purchases and payment requests share one protocol: submit a transaction hash, claim, ask the
  verifier, then persist, expire or recover. `Purchases` and `Requests` state the repositories' SQL and the use cases'
  branches for one row, and `PurchaseRules` and `RequestRules` the exact condition of each outcome; the two service
  modules hold the mutable repositories and use cases, proved against them. `Reconcilers` compares the two
  reconcilers, `Deadline` characterises when a payment is resolved and bounds how long it takes, `Guarantee` says
  which payments are sure to be resolved at all, `Ledger` interleaves any number of users, workers, recoveries and
  account deletions over both tables and the shared table of reserved hashes, `Sequential` shows that its steps,
  undisturbed, are the reconcilers, `Provenance` traces every status and every hash in a run back to the step that was
  entitled to give it, `Announcements` compares what is published with what the rows went through, and `Seats` follows
  the places of one event against its capacity.
- **Addresses** (`Base32`, `NimiqAddress`, `AddressGuarantees`). The bit-level base-32 encoder with the grouping of
  section 6 of RFC 4648, the MOD 97-10 check of ISO/IEC 7064, and the Go and TypeScript normalisers.
- **Amounts, signatures, rate limits** (`NimAmount`, `SignedMessage`, `RateLimit`). Three parsers and three printers of
  exact decimal money, the signed payload of a wallet login, and the fixed-window limiter.

`Text` holds strings, digits and white space for all of them.

## What the proofs found

- Over any run, every room is safe to broadcast to exactly if the hub has been closed or every removal was given an
  object that knows all rooms of its client (`HubModel.CleanIff`, `HubModel.NeverPanicsIff`). The read pump of a session
  passes a second object that knows none (backend/internal/infrastructure/websocket/session.go:20-25,
  client.go:58-60), so a disconnected client stays in its rooms with a closed channel (`HubModel.TwinLeavesRooms`,
  `Hub.Hub.EndSession`), and the next payload for such a room is sent on that channel, which panics
  (`HubModel.SessionEndPanics`). The results about runs cover these removals and say what still holds.
- At the connection cap, `Register` closes the caller's channel
  (backend/internal/infrastructure/websocket/hub.go:45-47), so the welcome that the handler sends afterwards
  (backend/internal/infrastructure/http/handler/realtime/handler.go:145-150) meets a closed channel exactly when the hub
  is open and at its cap (`Hub.Hub.Greet`).
- The address check does not notice a swap of neighbouring 1 and B, 2 and M, or 3 and X, and no other swap escapes it
  (`AddressGuarantees.TranspositionCaught`, `SwapMissed`). Letters in the two check positions are accepted. Go and
  TypeScript disagree exactly on white space other than blanks inside an address (`NormalizersAgree`, `TabInside`).
- The rate limiter's bound over any interval one window long is 2 * limit - 1, one less than the usual 2 * limit, and
  it is attained unless the window is a single nanosecond and the limit more than 1.
- An unresolved payment is sure to be resolved, whatever the verifier answers, exactly if its deadline is stored, or the
  passes over it are a whole deadline apart, or it is stale by the time a pass can claim it; otherwise "not final"
  answers can keep it unresolved for ever (`Guarantee.GuaranteeIff`).
- Purchases are promised to be capacity-protected (backend/README.md:200). Two operations can overbook an event all
  the same (`Seats.StepFitsIff`): a recovery does not look at the capacity (`Seats.RecoveryCanOverbook`), and a change
  of the capacity does not count pending purchases whose hold has lapsed, although they can still be submitted
  (`Seats.EditCanOverbook`).
- The comment on payment requests calls expired a terminal status
  (backend/internal/domain/paymentrequest/model/request.go:25-28); by the code a recovery may still turn an expired row
  with a hash into a paid one. The model follows the code: only confirmed, paid and failed rows are final.
- Purchases without a hash and requests without a hash or payer are the only rows that the two reconcilers treat
  differently (`Reconcilers.AlikeIff`).

## Assumptions

- Strings are ASCII. Identifiers are their canonical 36-character text. Instants and durations are integers in
  nanoseconds. Luna amounts are integers, with the bound 2^63-1 stated where the code checks it.
- The verifier's answers, the clock, the hash functions and the relay's availability are parameters and may be
  anything; Blake2b is only assumed to return 32 bytes.
- In `Ledger` a database transaction and the publication that follows it are one step, and the event bus takes the
  publication. Conflicts with the unique index on active purchases and cancelled events are arbitrary outcomes there.
- The times of the calls on a key of the rate limiter do not decrease in the order they reach the counters
  (`RateLimit.WindowBound`). The in-memory limiter reads the clock before it takes its lock
  (backend/internal/shared/ratelimit/limiter.go:80-81), so that concurrent calls could change places in between.
- Client ids, row ids and public ids are fresh when they are made, as random identifiers are.
- In `Fanout` the relay hands a message it took to every instance in one order; instances subscribe at start. A send on a
  closed channel ends the process it happens in: an instance stopped by it takes no further step. What such a send
  served before it failed is dropped, because nothing reads the queues of a stopped instance.
- In `Hub.Hub.Greet` nothing else reaches the channel between the registration and the welcome.

## Model

| member | source | states |
|---|---|---|
| `Base32.AlphabetTable` | backend/internal/application/iam/usecase/nimiq_auth.go:32 | The symbol of each value 0..31 is the character of the alphabet at that place. |
| `Base32.FiveBits` | backend/internal/application/iam/usecase/nimiq_auth.go:345-352 | The inner loop reads five bits, most significant first, and reads zero past the end of the data. |
| `Base32.NimiqBase32` | backend/internal/application/iam/usecase/nimiq_auth.go:342-356 | For byte strings of every length, the two bit loops write the base-32 digits of the big-endian integer of the bytes, padded with zero bits to a multiple of five. |
| `Base32.AllBits` | backend/internal/application/iam/usecase/nimiq_auth.go:344-352 | The bits of the data, read one after another by index and mask, are the big-endian integer of its bytes. |
| `Base32.DecodeEncode` | backend/internal/application/iam/usecase/nimiq_auth.go:342-356 | Decoding an encoded byte string of any length gives the bytes back. |
| `Base32.EncodeInjective` | backend/internal/application/iam/usecase/nimiq_auth.go:342-356 | Byte strings of one length with the same text are equal. |
| `NimiqAddress.IbanMod97` | backend/internal/shared/nimiq/address.go:28-41 | The loop returns the remainder mod 97 of the integer written by the string with every letter expanded to two digits, and -1 as soon as it meets any other character. |
| `NimiqAddress.FoldIsRemainder` | backend/internal/shared/nimiq/address.go:28-41 | Folding symbol by symbol, reducing at every step, gives the remainder of the whole expanded integer. |
| `NimiqAddress.FoldConcat` | backend/internal/shared/nimiq/address.go:22 | The remainder of a rotated string is folded piece by piece. |
| `NimiqAddress.FoldInjective` | backend/internal/shared/nimiq/address.go:31-39 | Whatever symbols follow, different remainders stay different, because 10 and 100 are invertible mod 97. |
| `NimiqAddress.FormatUserFriendlyAddress` | backend/internal/shared/nimiq/address.go:43-49 | The formatting loop cuts groups of four and joins them with single spaces. |
| `NimiqAddress.FormatNimiqAddress` | frontend/web/lib/nimiq/address.ts:7-14 | The TypeScript formatter compacts and then does the same, for every length. |
| `NimiqAddress.FormatPlaces` | backend/internal/shared/nimiq/address.go:43-49 | Formatted text has the symbols in their order and a blank after every fourth one but the last, at every position and for every length. |
| `NimiqAddress.NormalizeUserFriendlyAddress` | backend/internal/shared/nimiq/address.go:12-26 | Which of the three errors or the formatted address is returned, for every input. |
| `NimiqAddress.NormalizeNimiqAddress` | frontend/web/lib/nimiq/address.ts:31-39 | The TypeScript normaliser accepts exactly the checked compact forms and returns them formatted. |
| `NimiqAddress.AcceptedIff` | backend/internal/shared/nimiq/address.go:12-25 | An address is accepted exactly if it is NQ, two symbols and 32 symbols of the alphabet, and the number written by the last 32 and the first four leaves 1 when divided by 97. |
| `NimiqAddress.CompactUndoesFormat` | backend/internal/shared/nimiq/address.go:43-49 | Compacting a formatted accepted address gives it back, in Go and in TypeScript. |
| `NimiqAddress.NormalizeIdempotent` | backend/internal/shared/nimiq/address.go:12-26 | Normalising twice is normalising once, in Go and in TypeScript. |
| `NimiqAddress.CaseIgnored` | frontend/web/lib/nimiq/address.ts:4-5 | Addresses that differ in letter case only are accepted alike in Go and in TypeScript and get the same form. |
| `AddressGuarantees.SpliceDecides` | backend/internal/shared/nimiq/address.go:22 | Overwriting payload symbols of an accepted address is accepted exactly when both readings lead from the remainder before them to the same remainder. |
| `AddressGuarantees.SubstitutionCaught` | backend/internal/shared/nimiq/address.go:17-24 | Replacing one payload symbol, at any position, goes unnoticed exactly when the two symbols are confusable there; a digit for a digit and a letter for a letter never are. |
| `AddressGuarantees.TranspositionCaught` | backend/internal/shared/nimiq/address.go:17-24 | Swapping two adjacent different payload symbols goes unnoticed exactly for the pairs 1B, 2M and 3X; two digits or two letters are always caught. |
| `AddressGuarantees.SwapMissed` | backend/internal/shared/nimiq/address.go:17-24 | Such a swap: an accepted address ending in 1B whose reading with B1 is accepted too. |
| `AddressGuarantees.AddressFromPublicKey` | backend/internal/application/iam/usecase/nimiq_auth.go:333-340 | The derived address is the formatted NQ address of the encoded first 20 bytes of the hash with their check value. |
| `AddressGuarantees.CheckPairAccepted` | backend/internal/application/iam/usecase/nimiq_auth.go:336-338 | A decimal check pair completes a payload exactly when it is congruent to the computed check value mod 97. |
| `AddressGuarantees.CheckPairUnique` | backend/internal/application/iam/usecase/nimiq_auth.go:336-338 | Among the pairs 02..98 exactly the computed one is accepted. |
| `AddressGuarantees.DerivedIsNormal` | backend/internal/application/iam/usecase/nimiq_auth.go:333-340 | Every derived address is accepted and returned unchanged by both normalisers. |
| `AddressGuarantees.DerivedInjective` | backend/internal/application/iam/usecase/nimiq_auth.go:333-340 | Different 20-byte digests have different addresses. |
| `AddressGuarantees.PairAccepted` | backend/internal/shared/nimiq/address.go:17-24 | A check pair of any two symbols is accepted exactly when it completes the remainder to 1. |
| `AddressGuarantees.LettersInCheckPositions` | backend/internal/shared/nimiq/address.go:17 | The alphabet test starts behind the check positions: an address with letters there is accepted. |
| `AddressGuarantees.NormalizersAgree` | frontend/web/lib/nimiq/address.ts:31-39 | The Go and TypeScript normalisers differ exactly on the strings that TypeScript accepts and that have white space other than blanks inside; Go then rejects. |
| `AddressGuarantees.SpaceInsideSeparates` | frontend/web/lib/nimiq/address.ts:4-5 | White space other than a blank, anywhere inside any accepted address: TypeScript returns the formatted address and Go rejects. |
| `AddressGuarantees.TabInside` | backend/internal/shared/nimiq/address.go:13 | Such an input: an accepted address with a tab behind its check positions. |
| `AddressGuarantees.SameMeansEqualCompact` | frontend/web/lib/nimiq/address.ts:41-50 | Both branches of the comparison decide whether the compact forms are equal and not empty. |
| `NimAmount.FormatNIM` | backend/internal/application/eventpurchase/usecase/purchase.go:490-504 | The offset-and-trim printer, loop included, writes the same text as the BigInt printer. |
| `NimAmount.PrintersAgree` | backend/internal/application/event/usecase/events.go:394-404 | So does the Sprintf-and-TrimRight printer, for every amount. |
| `NimAmount.TotalIsExact` | backend/internal/application/event/usecase/events.go:374-386 | The integer built from the two digit strings is the value of the decimal times 100000, without rounding. |
| `NimAmount.ParsersAreExact` | backend/internal/application/paymentrequest/usecase/request.go:398-435 | A non-blank string is parsed exactly when it is a decimal with at most five fraction digits that fits in 2^63-1 Luna, with that exact result; requests also need it positive; the three parsers agree. |
| `NimAmount.BlankAmounts` | backend/internal/application/paymentrequest/usecase/request.go:398-435 | Blank text, and only blank text, is a missing amount; as a price it is free and to the browser it is no number. |
| `NimAmount.RefusalsAreExact` | backend/internal/application/paymentrequest/usecase/request.go:398-435 | Any other refusal has exactly one reason: no decimal with at most five fraction digits, zero where that is not allowed, or too large. |
| `NimAmount.ParsedAlike` | backend/internal/application/event/usecase/events.go:358-392 | Two accepted strings are parsed alike exactly when they denote the same number. |
| `NimAmount.PrintedIsCanonical` | frontend/web/lib/nimiq/amount.ts:19-27 | Printed text has no superfluous zero or dot and denotes exactly the amount. |
| `NimAmount.CanonicalIsPrinted` | frontend/web/lib/nimiq/amount.ts:19-27 | Canonical text is unique: it is what the printers write for its amount. |
| `NimAmount.PrintParse` | backend/internal/application/event/usecase/events.go:358-404 | Every amount up to 2^63-1 survives printing and parsing by all three parsers, except that requests reject zero. |
| `NimAmount.NormalizeIsCanonical` | frontend/web/lib/nimiq/amount.ts:30-34 | Normalising is defined exactly on payable strings, keeps the number, gives canonical text and is idempotent. |
| `NimAmount.NormalFormsAreCanonical` | frontend/web/lib/nimiq/amount.ts:30-34 | Its fixed points are exactly the canonical payable strings. |
| `SignedMessage.HubPayloadInjective` | backend/internal/application/iam/usecase/nimiq_auth.go:300-301 | Prefix, decimal length and message without separator determine the message, for all messages. |
| `SignedMessage.HubMessageIsBound` | backend/internal/application/iam/usecase/nimiq_auth.go:296-307 | Two hub messages are signed alike only if they are equal or exhibit a collision of the hash. |
| `SignedMessage.OtherTransports` | backend/internal/application/iam/usecase/nimiq_auth.go:296-309 | A mini app signs the message itself, so that equal signed bytes are equal messages; any transport other than the two is refused. |
| `RateLimit.MemoryLimiter.Allow` | backend/internal/shared/ratelimit/limiter.go:70-94 | One call on the in-memory limiter: the new counters and the answer. |
| `RateLimit.RedisLimiter.Allow` | backend/internal/shared/ratelimit/limiter.go:29-52 | The Redis form, with INCR and EXPIRE as one step, computes the same. |
| `RateLimit.RunIsAccounted` | backend/internal/shared/ratelimit/limiter.go:70-94 | At every point of every run, admissions and arrivals in the live bucket agree with its count, and older intervals stay within the bound. |
| `RateLimit.WindowBound` | backend/internal/shared/ratelimit/limiter.go:70-94 | An interval one window long never holds more than 2 * limit - 1 admissions, for every run at nondecreasing times. |
| `RateLimit.WindowBoundAttained` | backend/internal/shared/ratelimit/limiter.go:70-94 | A run that attains that bound exists exactly if the window has at least two ticks or the limit is 1: a window of one tick holds at most limit admissions. |
| `RateLimit.BucketAdmits` | backend/internal/shared/ratelimit/limiter.go:83-93 | Every bucket admits exactly min(limit, arrivals) requests. |
| `RateLimit.KeysIndependent` | backend/internal/shared/ratelimit/limiter.go:83-93 | A key's counter and answers depend on the calls on that key alone. |
| `RateLimit.Burst` | backend/internal/shared/ratelimit/limiter.go:88-93 | n equal calls in a live bucket raise its count by n and are admitted as long as the limit lasts. |
| `RateLimit.UnlimitedIsAllowed` | backend/internal/shared/ratelimit/limiter.go:74-76 | A limit that is not positive allows every call and counts none. |
| `RateLimit.BucketLasts` | backend/internal/shared/ratelimit/limiter.go:77-87 | The first call of a bucket is allowed, and the next bucket starts exactly from the end of its window on, a minute if none is given. |
| `EventBus.InProcessBus.constructor` | backend/internal/shared/events/inprocess.go:29-41 | A size that is not positive means 256; nothing is buffered. |
| `EventBus.InProcessBus.PublishEvent` | backend/internal/shared/events/inprocess.go:44-52 | A publication enters the channel or, when it is full, is dropped without an error. |
| `EventBus.InProcessBus.SubscribeHandler` | backend/internal/shared/events/inprocess.go:55-60 | A handler is appended to its topic's list. |
| `EventBus.InProcessBus.DispatchOne` | backend/internal/shared/events/inprocess.go:71-80 | The dispatcher takes one envelope and calls every handler listed for its topic then once, in the order of the list; nothing else is called. |
| `EventBus.InProcessBus.CallHandlers` | backend/internal/shared/events/inprocess.go:76-80 | The loop over the handlers, from any point of it, calls each of the remaining ones once with the event, in the order of the list. |
| `EventBus.InProcessBus.Dispatch` | backend/internal/shared/events/inprocess.go:69-82 | The loop drains a closed channel, from wherever the dispatcher is, in the middle of a handler list included. |
| `EventBus.InProcessBus.Close` | backend/internal/shared/events/inprocess.go:63-67 | Closing, whatever the dispatcher is doing, returns once it is done; by then every handler has seen every accepted event of its topic from its subscription on. |
| `EventBus.RunKeeps` | backend/internal/shared/events/inprocess.go:44-82 | Every interleaving of publishers, subscribers, dispatcher and Close keeps the accounting of accepted, taken, buffered and delivered events. |
| `EventBus.DeliveryInOrder` | backend/internal/shared/events/inprocess.go:44-82 | Accepted = taken + buffered, the buffer stays within its capacity, and every handler has seen exactly its topic's events since it subscribed, in acceptance order. |
| `EventBus.ListedInOrder` | backend/internal/shared/events/inprocess.go:55-60 | In every run a topic has each of its handlers once, in the order in which they subscribed. |
| `EventBus.DroppedWhenFull` | backend/internal/shared/events/inprocess.go:44-52 | An event is dropped exactly when the buffer is full. |
| `EventBus.ClosedMeansDelivered` | backend/internal/shared/events/inprocess.go:63-82 | Once Close returns, in every run, every handler has seen all accepted events of its topic from its subscription on, whenever it subscribed. |
| `Rooms.UserRoomInjective` | backend/internal/domain/realtime/model/room.go:64-76 | A user room key determines user and channel. |
| `Rooms.OrgRoomInjective` | backend/internal/domain/realtime/model/room.go:23-32 | An organisation room key determines organisation, app and channel. |
| `Rooms.UserIsNotOrg` | backend/internal/domain/realtime/model/room.go:31 | No user room is an organisation room. |
| `Rooms.SelectsOrganization` | backend/internal/infrastructure/websocket/hub.go:148-155 | Over the keys the hub stores, the prefix and suffix test selects exactly the rooms of that organisation and channel. |
| `HubModel.StepKeeps` | backend/internal/infrastructure/websocket/hub.go:38-243 | Every operation, removals with any object included, keeps the invariant: connected clients are listed exactly in their own rooms, no room is empty, clients are only in rooms they are entitled to, the cap holds, the gauge counts the clients, and the open channels are those of the connected clients. Rooms that list connected clients only stay so exactly if the operation is not a removal that leaves its client in a room. |
| `HubModel.RunKeeps` | backend/internal/infrastructure/websocket/hub.go:38-243 | So it holds after every sequence of operations, whatever objects removals are given. |
| `HubModel.RemoveCleansIff` | backend/internal/infrastructure/websocket/hub.go:217-234 | Removing a connected client keeps every room safe to broadcast to exactly when the argument's own room set covers the client's rooms; the rest of the invariant is kept in any case. |
| `HubModel.CleanMeans` | backend/internal/infrastructure/websocket/hub.go:217-243 | No removed client is listed, the two indexes agree, every listed channel is open: three ways to say the same of any reachable hub. |
| `HubModel.CleanIff` | backend/internal/infrastructure/websocket/hub.go:38-243 | After every run, the two indexes agree, and every listed channel is open, exactly if the hub has been closed or every removal so far covered its client's rooms. |
| `HubModel.TwinLeavesRooms` | backend/internal/infrastructure/websocket/session.go:19-36 | The second client object of a session has no rooms: removing it leaves the id, with a closed channel, in every room it was in, and the unregister call that follows changes nothing. |
| `HubModel.NeverPanicsIff` | backend/internal/infrastructure/websocket/hub.go:119-175 | After every run, no broadcast or send can reach a closed channel exactly if the hub has been closed or every removal so far covered its client's rooms. |
| `HubModel.SessionEndPanics` | backend/internal/infrastructure/websocket/client.go:58-60 | A user who connects and disconnects as the session is coded is enough: the next payload for the user's payments room is sent on a closed channel. |
| `HubModel.ClosedAtMostOnce` | backend/internal/infrastructure/websocket/client.go:101-108 | In every run a channel is closed at most once, whatever mix of unregister calls, removals with any object, and Close, and it is closed exactly when it was closed once. |
| `HubModel.PaymentsReachUser` | backend/internal/infrastructure/websocket/hub.go:137-175 | Broadcasting to a payments room offers the payload once to each connected client of that user still in it, and to no other connected client; in a hub whose removals covered their rooms, to no other client at all. |
| `HubModel.MatchingIsOwn` | backend/internal/infrastructure/websocket/hub.go:144-156 | A connected client is in at most one room of an organisation and channel, the one of its own app. |
| `HubModel.OrganizationReachesMembers` | backend/internal/infrastructure/websocket/hub.go:144-175 | An organisation broadcast offers the payload exactly once to each connected client in its own app's room of that channel, and to no other connected client. |
| `Membership.RoomForMeans` | backend/internal/domain/realtime/model/room.go:23-32 | A channel name means the room of that channel of the client's app, with white space around it ignored and a blank name standing for "events"; without an app only "payments" means anything, the user's payments room. It is resolved to exactly the room it means. |
| `Membership.AvailableIff` | backend/internal/infrastructure/websocket/hub.go:109-117 | Which names are available to which client. |
| `Membership.StepMembership` | backend/internal/infrastructure/websocket/hub.go:38-107 | After any operation a connected client is in a room exactly if the operation lets it in by a name that means the room, or it was in and the operation does not take it out: no other membership changes. |
| `Membership.MembersJoined` | backend/internal/infrastructure/websocket/hub.go:38-243 | In every run a client is in exactly the rooms it has joined, by registering or subscribing, and not left since. |
| `Membership.SubscribedIsReached` | backend/internal/infrastructure/websocket/event_bridge.go:87-101 | Subscribing to a channel puts a client into that channel's room and no other, and the organisation's next payload for the channel is offered to it once. |
| `Membership.UnsubscribedIsNot` | backend/internal/infrastructure/websocket/hub.go:93-107 | Unsubscribing takes it out of that room and no other, and the payload is not offered to it. |
| `Membership.QueueStep` | backend/internal/infrastructure/websocket/hub.go:119-133 | A payload goes to the end of a client's queue if the client is addressed and there is room, and is dropped otherwise; a client takes the first one; nothing else changes a queue. |
| `Membership.QueuesBounded` | backend/internal/infrastructure/websocket/hub.go:127-133 | In every run no queue outgrows its channel. |
| `Membership.TargetsAreOffered` | backend/internal/infrastructure/websocket/hub.go:119-175 | The channels that an operation is said to send to are exactly those on which it offers its payload. |
| `Hub.Channel.TrySend` | backend/internal/infrastructure/websocket/hub.go:127-133 | A send that never blocks: appended if there is room, dropped otherwise; the channel must be open. |
| `Hub.Channel.Close` | backend/internal/infrastructure/websocket/client.go:106 | Closing needs an open channel. |
| `Hub.Client.CloseSend` | backend/internal/infrastructure/websocket/client.go:101-108 | Closes the channel the first time and does nothing afterwards. |
| `Hub.Hub.constructor` | backend/internal/infrastructure/websocket/hub.go:25-35 | A limit that is not positive means 1000; the hub starts empty. |
| `Hub.Hub.AddToRoomLocked` | backend/internal/infrastructure/websocket/hub.go:199-205 | Enters the client in the room's map, creating the room if need be, and the room in the client's set. |
| `Hub.Hub.RemoveFromRoomLocked` | backend/internal/infrastructure/websocket/hub.go:207-215 | Takes the client out of both; a room left empty is deleted. |
| `Hub.Hub.Register` | backend/internal/infrastructure/websocket/hub.go:38-73 | Registers and joins the default rooms, or refuses when closed or at the cap; at the cap it closes the caller's channel. |
| `Hub.Hub.Greet` | backend/internal/infrastructure/http/handler/realtime/handler.go:115-150 | Register and welcome, as the connection handler does them: the welcome meets a closed channel exactly when the hub is open and at its cap; otherwise it is the one payload in the channel, and the hub is as after the registration. |
| `Hub.Hub.SubscribeChannel` | backend/internal/infrastructure/websocket/hub.go:76-90 | Joins the room that the channel name stands for; it succeeds exactly if the client is connected and the name is available to it. |
| `Hub.Hub.UnsubscribeChannel` | backend/internal/infrastructure/websocket/hub.go:93-107 | Leaves that room, under the same condition. |
| `Hub.Hub.RemoveClient` | backend/internal/infrastructure/websocket/hub.go:217-243 | Removes the id and sweeps the rooms of the argument's own set, for any argument object. |
| `Hub.Hub.EndSession` | backend/internal/infrastructure/websocket/session.go:27-35 | The end of a session as it is coded: the twin is removed first, then the stored client is unregistered to no effect. |
| `Hub.Hub.BroadcastRoom` | backend/internal/infrastructure/websocket/hub.go:137-141 | The loop over a room's members, in any order, is one offer to each member of the room, provided none of them has a closed channel. |
| `Hub.Hub.BroadcastOrganization` | backend/internal/infrastructure/websocket/hub.go:144-156 | The loop over all rooms, in any order, offers the payload once per matching room that lists a client, provided none of them has a closed channel. |
| `Hub.Hub.SendTo` | backend/internal/infrastructure/websocket/hub.go:120-134 | One offer to one connected client, none after Close. |
| `Hub.Hub.CloseHub` | backend/internal/infrastructure/websocket/hub.go:185-197 | Closes every client's channel and empties both indexes; the gauge drops by the client count. |
| `RealtimeEvents.EventTypesAreDelivered` | backend/internal/domain/realtime/event/events.go:39-90 | The event type of a status is empty or one that the bridge delivers, and names the status. |
| `RealtimeEvents.DeliveredTypes` | backend/internal/domain/realtime/event/events.go:77-90 | The bridge delivers wallet activity, the types that statuses map to, and nothing else. |
| `RealtimeEvents.UniqueUserIds` | backend/internal/domain/realtime/event/events.go:93-107 | The loop with its seen set computes the specified de-duplication. |
| `RealtimeEvents.UniqueMeans` | backend/internal/domain/realtime/event/events.go:93-107 | No id twice, and exactly the ids that are listed and not nil. |
| `Fanout.DeliverOnce` | backend/internal/infrastructure/websocket/event_bridge.go:214-230 | Delivery to distinct users, where it meets no closed channel, is one offer to every addressed client and to nobody else; nothing but queues changes. |
| `Fanout.DeliverUnique` | backend/internal/infrastructure/websocket/event_bridge.go:214-230 | So is delivery to any list of ids, repeated and nil ones included. |
| `Fanout.ParseNonNil` | backend/internal/infrastructure/websocket/event_bridge.go:233-250 | The ids that arrive over the relay stand for the same users as the ids that were sent. |
| `Fanout.RunIsExact` | backend/internal/infrastructure/websocket/fanout.go:43-104 | For every number of instances, every interleaving and every object given to a removal: each instance's hub is what its history makes; each event is delivered there or waiting there exactly once if it concerns the instance and the instance has not been stopped by a panic, and at most once otherwise; and an instance whose removals all covered their rooms has not been stopped. |
| `Fanout.DeliveredExactlyOnce` | backend/internal/infrastructure/websocket/event_bridge.go:181-251 | An event is delivered exactly once on its own instance and never from its echo; on another running instance not at all if the relay did not take it, and otherwise exactly once as soon as its message, at most one, has been received; on an instance that a panic has stopped, at most once. |
| `Fanout.StopsOnlyIfLeft` | backend/internal/infrastructure/websocket/hub.go:236-243 | In every run, an instance is stopped by a panic only if an earlier removal on it left a client in a room. |
| `Fanout.ArrivedInOrder` | backend/internal/infrastructure/websocket/fanout.go:73-104 | In every run, what the relay carries to an instance is delivered there in the order in which it was handled, and what is still to be received comes after what has been. |
| `Fanout.NothingInvented` | backend/internal/infrastructure/websocket/event_bridge.go:233-251 | Nothing is delivered that was not handled on some instance that concerns the receiver. |
| `Fanout.ListenStep` | backend/internal/infrastructure/websocket/fanout.go:73-104 | Receiving publishes nothing, touches no other instance, and takes one message from the inbox of an instance that survives it. |
| `Fanout.ListeningDrains` | backend/internal/infrastructure/websocket/fanout.go:73-104 | An instance that keeps listening and is not stopped empties its inbox after as many turns as it has messages. |
| `EventBridge.RedisRelay.Publish` | backend/internal/infrastructure/websocket/fanout.go:43-70 | One message with the ids that are not nil, or none if Redis does not take it. |
| `EventBridge.RedisRelay.Listen` | backend/internal/infrastructure/websocket/fanout.go:73-104 | The receive loop applies the messages of other instances in order and skips its own. |
| `EventBridge.EventBridge.DeliverToUsers` | backend/internal/infrastructure/websocket/event_bridge.go:214-230 | The loop over the target users offers the payload once to every addressed client of the instance, provided none of them has a closed channel. |
| `EventBridge.EventBridge.DeliverFanout` | backend/internal/infrastructure/websocket/event_bridge.go:233-251 | A message of another instance is delivered locally; an own one is ignored. |
| `EventBridge.EventBridge.HandlePaymentEvent` | backend/internal/infrastructure/websocket/event_bridge.go:181-211 | A payment event is delivered locally and published once; any other event is ignored. |
| `Payment.Normalize` | backend/internal/application/eventpurchase/usecase/purchase.go:37-48 | Bounds that are set are kept and missing ones become positive. |
| `Payment.DefaultPolicy` | backend/internal/application/eventpurchase/usecase/purchase.go:24-28 | Each missing bound becomes a minute, an hour or fifty rows, independently of the others. |
| `Payment.ClaimDuration` | backend/internal/infrastructure/postgres/eventpurchase/purchase_repository.go:256-258 | A claim lasts at least 30 seconds and no longer than the configured whole seconds otherwise. |
| `Payment.LaterIsReached` | backend/internal/domain/eventpurchase/model/purchase.go:10-20 | The lifecycle order is what any number of single changes of status reach, and no change leads back. |
| `Payment.NormalHashIsFixed` | backend/internal/application/eventpurchase/usecase/purchase.go:211-214 | An accepted hash is stored in a form that submitting again leaves alone. |
| `Payment.NormalHashIff` | backend/internal/application/eventpurchase/usecase/purchase.go:211-214 | A submission is a hash exactly if it is 64 hexadecimal digits between any white space; it is stored in the same spelling but without capital letters. |
| `Payment.SpellingsAreOne` | backend/internal/application/paymentrequest/usecase/request.go:259-262 | Submissions that differ in letter case and surrounding white space only are accepted alike and stored alike. |
| `Purchases.CandidatesAreClaimable` | backend/internal/infrastructure/postgres/eventpurchase/purchase_repository.go:293-304 | The batch query selects exactly the purchases that can be claimed, provided the deadline is stored or in whole seconds; what can be claimed is always selected. |
| `Requests.CandidatesAreClaimable` | backend/internal/infrastructure/postgres/paymentrequest/request_repository.go:291-300 | The same for requests. |
| `NimiqTx.ConsumedTransactions.Consume` | backend/internal/infrastructure/postgres/nimiqtx/consume.go:18-23 | A hash is inserted once; a second insertion fails and changes nothing. |
| `PurchaseService.PurchaseRepo.Create` | backend/internal/infrastructure/postgres/eventpurchase/purchase_repository.go:30-128 | The creation transaction over the whole table: which refusal, existing or new purchase is returned, and the table afterwards. |
| `PurchaseService.PurchaseRepo.ClaimVerification` | backend/internal/infrastructure/postgres/eventpurchase/purchase_repository.go:252-280 | Claims an unresolved row of its owner that nobody holds and, unless forced, that is due again, for at least 30 seconds from now; the claimed row keeps its status, hash and deadline, and no other row changes. |
| `PurchaseService.PurchaseRepo.SetVerificationState` | backend/internal/infrastructure/postgres/eventpurchase/purchase_repository.go:444-504 | Writes an outcome to an unresolved row only; returns a row that has the status already; refuses otherwise; the instant of an earlier settlement, a resolved row and every other row stay. |
| `PurchaseService.PurchaseRepo.ExpireUnresolved` | backend/internal/infrastructure/postgres/eventpurchase/purchase_repository.go:329-356 | Expires an unresolved row, never before its deadline and always from then on; returns any other row as it is; no other row changes. |
| `PurchaseService.PurchaseRepo.SubmitTransaction` | backend/internal/infrastructure/postgres/eventpurchase/purchase_repository.go:181-248 | Row and reservation change together or not at all; a repeated submission is idempotent. |
| `PurchaseService.PurchaseRepo.ConfirmExpiredRecovery` | backend/internal/infrastructure/postgres/eventpurchase/purchase_repository.go:360-441 | Confirms an expired row that owns its hash and cancels the user's other pending purchases of the event. |
| `PurchaseService.RecoveryIsSeats` | backend/internal/infrastructure/postgres/eventpurchase/purchase_repository.go:360-441 | What a recovery writes is, in the table of its event, what `Seats` says of the event's recovery, and nothing in any other event. |
| `PurchaseService.PurchaseUseCase.PublishStatus` | backend/internal/application/eventpurchase/usecase/purchase.go:506-531 | One status event, and wallet activity besides for a confirmation. |
| `PurchaseService.PurchaseUseCase.PersistVerificationState` | backend/internal/application/eventpurchase/usecase/purchase.go:416-429 | The row, the report and the events of writing an outcome, failures included. |
| `PurchaseService.PurchaseUseCase.ExpireStale` | backend/internal/application/eventpurchase/usecase/purchase.go:431-444 | The same for expiring a row. |
| `PurchaseService.PurchaseUseCase.ReconcilePurchase` | backend/internal/application/eventpurchase/usecase/purchase.go:356-414 | One reconciliation of any candidate: table, events, returned row and report, in every branch. |
| `PurchaseService.PurchaseUseCase.Reconcile` | backend/internal/application/eventpurchase/usecase/purchase.go:455-470 | The batch loop: table, events and reports of all candidates in order. |
| `PurchaseService.PurchaseUseCase.SubmitTransaction` | backend/internal/application/eventpurchase/usecase/purchase.go:207-231 | A submission: rejected without effect, or stored, published and reconciled once. |
| `PurchaseService.PurchaseUseCase.RecoverExpired` | backend/internal/application/eventpurchase/usecase/purchase.go:235-281 | A recovery changes a row only if it is expired with a hash and the verifier confirms. |
| `PurchaseService.BatchIsPointwise` | backend/internal/application/eventpurchase/usecase/purchase.go:455-470 | A batch treats each of its rows as if it were alone, whatever happens to the others, and publishes in the order of the batch. |
| `PurchaseService.BatchSparesOthers` | backend/internal/application/eventpurchase/usecase/purchase.go:455-470 | And leaves every other row alone. |
| `RequestService.RequestRepo.Create` | backend/internal/infrastructure/postgres/paymentrequest/request_repository.go:33-51 | Stores a new request under its id and its public id. |
| `RequestService.RequestRepo.GetByPublicId` | backend/internal/infrastructure/postgres/paymentrequest/request_repository.go:53-66 | A read by public id expires a due pending row first. |
| `RequestService.RequestRepo.ClaimVerification` | backend/internal/infrastructure/postgres/paymentrequest/request_repository.go:254-279 | Claims an unresolved row that nobody holds and, unless forced, that is due again, for at least 30 seconds from now; the claimed row keeps its status, hash, payer and deadline, and no other row changes. |
| `RequestService.RequestRepo.SetVerificationState` | backend/internal/infrastructure/postgres/paymentrequest/request_repository.go:410-441 | Writes an outcome to an unresolved row only; returns a row that has the status already; refuses otherwise; the instant of an earlier settlement, a resolved row and every other row stay. |
| `RequestService.RequestRepo.ExpireUnresolved` | backend/internal/infrastructure/postgres/paymentrequest/request_repository.go:323-342 | Expires an unresolved row, never before its deadline and always from then on; returns any other row as it is; no other row changes. |
| `RequestService.RequestRepo.SubmitTransaction` | backend/internal/infrastructure/postgres/paymentrequest/request_repository.go:171-252 | Hash, payer, deadline and reservation are stored together or not at all; the same payer may repeat the hash. |
| `RequestService.RequestRepo.CancelPending` | backend/internal/infrastructure/postgres/paymentrequest/request_repository.go:114-169 | Cancels a pending row of its creator; cancelled and expired rows are returned; others are refused. |
| `RequestService.RequestRepo.ConfirmExpiredRecovery` | backend/internal/infrastructure/postgres/paymentrequest/request_repository.go:346-408 | Marks an expired row as paid only if it owns the reservation of its hash; returns a paid row; refuses every other; no other row changes. |
| `RequestService.RequestUseCase.PublishStatus` | backend/internal/application/paymentrequest/usecase/request.go:517-553 | One status event to creator and payer, and wallet activity besides for a payment. |
| `RequestService.RequestUseCase.PersistVerificationState` | backend/internal/application/paymentrequest/usecase/reconciliation.go:117-130 | The row, the report and the events of writing an outcome, failures included. |
| `RequestService.RequestUseCase.ExpireStale` | backend/internal/application/paymentrequest/usecase/reconciliation.go:132-145 | The same for expiring a row. |
| `RequestService.RequestUseCase.ReconcileRequest` | backend/internal/application/paymentrequest/usecase/reconciliation.go:45-115 | One reconciliation of any candidate, rows without hash or payer included. |
| `RequestService.RequestUseCase.Reconcile` | backend/internal/application/paymentrequest/usecase/reconciliation.go:156-171 | The batch loop: table, events and reports of all candidates in order. |
| `RequestService.RequestUseCase.SubmitTransaction` | backend/internal/application/paymentrequest/usecase/request.go:242-274 | A submission: rejected without effect, or stored, published and reconciled once. |
| `RequestService.RequestUseCase.Cancel` | backend/internal/application/paymentrequest/usecase/request.go:216-239 | A cancellation with the lazy expiry before it, and what is published. |
| `RequestService.RequestUseCase.RecoverExpired` | backend/internal/application/paymentrequest/usecase/request.go:277-331 | A recovery, for creator or payer only, changes a row only if the verifier confirms. |
| `RequestService.BatchIsPointwise` | backend/internal/application/paymentrequest/usecase/reconciliation.go:156-171 | A batch treats each of its requests as if it were alone, whatever happens to the others, and publishes in the order of the batch. |
| `RequestService.BatchSparesOthers` | backend/internal/application/paymentrequest/usecase/reconciliation.go:156-171 | And leaves every other request alone. |
| `Reconcilers.ActAlike` | backend/internal/application/paymentrequest/usecase/reconciliation.go:117-145 | Acting on the same answer gives matching rows, reports and decisions to publish, whatever the rows have become since they were claimed. |
| `Reconcilers.ReconcileAlike` | backend/internal/application/paymentrequest/usecase/reconciliation.go:45-115 | For candidates with a hash and a payer: same claim, same row afterwards, same report, same decision to publish, for every policy, clock and answer. |
| `Reconcilers.RunsAlike` | backend/internal/application/eventpurchase/usecase/purchase.go:356-452 | Over any number of passes the two rows stay at the same point of the protocol. |
| `Reconcilers.AlikeIff` | backend/internal/application/paymentrequest/usecase/reconciliation.go:54-60 | Unresolved rows are treated alike exactly when they have a hash and a payer. |
| `Deadline.ResolvedIff` | backend/internal/application/eventpurchase/usecase/purchase.go:356-452 | For every unresolved row and passes at any times: it is resolved exactly when some pass claims it and hears "confirmed" or "invalid" or finds it stale. |
| `Deadline.StoredResolvedIff` | backend/internal/application/eventpurchase/usecase/purchase.go:370-452 | With a stored deadline: exactly when some pass that claims it hears the final word or comes at or after that deadline: not later and not earlier. |
| `Deadline.LegacyResolvedIff` | backend/internal/application/eventpurchase/usecase/purchase.go:446-452 | Without one: exactly when some pass that claims it hears the final word or comes one deadline after the last change, which is the write of the latest "not final" answer or the row's own. |
| `Deadline.ResolvedByDeadline` | backend/internal/application/eventpurchase/usecase/purchase.go:221-222 | Whatever the verifier answers and however short the gap, a submitted purchase is resolved after ceil(deadline / gap) + 1 passes if each of them claims it, and after ceil((deadline + claim duration) / gap) + 1 passes in any case. |
| `Deadline.WideClaims` | backend/internal/infrastructure/postgres/eventpurchase/purchase_repository.go:252-280 | Passes apart by at least the retry interval and the claim duration all claim the row. |
| `Deadline.RequestResolvedIff` | backend/internal/application/paymentrequest/usecase/reconciliation.go:62-114 | The same characterisation for requests with a hash and a payer. |
| `Deadline.RequestResolvedByDeadline` | backend/internal/application/paymentrequest/usecase/request.go:263-264 | The same two bounds for submitted requests. |
| `Guarantee.GuaranteeIff` | backend/internal/application/eventpurchase/usecase/purchase.go:446-452 | For every unresolved purchase there is a number of passes that resolve it, whatever the verifier answers, exactly if its deadline is stored, or the passes are a whole deadline apart, or it is stale by the time its last claim and retry interval let a pass claim it. |
| `Guarantee.FastIsNotGuaranteed` | backend/internal/application/eventpurchase/usecase/purchase.go:446-452 | In every other case, however many passes are made, "not final" answers to a worker within the gap leave the purchase unresolved. |
| `Guarantee.RequestGuaranteeIff` | backend/internal/application/paymentrequest/usecase/reconciliation.go:147-154 | The same condition for every unresolved request with a hash and a payer. |
| `Ledger.ActEvolves` | backend/internal/application/eventpurchase/usecase/purchase.go:416-444 | Acting on an old snapshot moves the row forward in its lifecycle and settles it only by a decision to settle it. |
| `Ledger.RecoverEvolves` | backend/internal/infrastructure/postgres/eventpurchase/purchase_repository.go:387-438 | A recovery settles an expired row and keeps its hash, parties and amount. |
| `Ledger.StepKeeps` | backend/internal/application/eventpurchase/usecase/purchase.go:207-281 | Every step of users, workers, recoveries and account deletions keeps: hashes and reservations correspond, settled rows are backed by an answer, and every worker's snapshot is an earlier state of its row. |
| `Ledger.RunKeeps` | backend/internal/application/eventpurchase/usecase/purchase.go:207-444 | So it holds after every run. |
| `Ledger.RowsEvolve` | backend/internal/domain/eventpurchase/model/purchase.go:10-20 | Whatever happens in between, a row's status follows the lifecycle, its parties and amount never change, and its hash, payer and deadline are set once. |
| `Ledger.FinalRowsNeverChange` | backend/internal/domain/paymentrequest/model/request.go:24-28 | A confirmed, paid or failed row never changes again, in any field. |
| `Ledger.SettledOnlyIfConfirmed` | backend/internal/application/eventpurchase/usecase/purchase.go:382-395 | In every run, a row is confirmed or paid only if at an earlier step the verifier answered "confirmed" to a transfer under the row's own hash, of the row's own amount, from its user or payer, to the merchant or the request's recipient. |
| `Ledger.ConfirmedWasAnswered` | backend/internal/application/eventpurchase/usecase/purchase.go:258-272 | Every recorded confirmation goes back to one step of the run in which the verifier gave it. |
| `Ledger.HashesAreUnique` | backend/internal/infrastructure/postgres/migrations/00025_create_payment_requests.sql:1-9 | In every run, no two rows of either table hold the same transaction hash, in whatever spelling. |
| `Provenance.CreatedAs` | backend/internal/domain/eventpurchase/model/purchase.go:22-37 | In every run a row has the parties and the amount of the step that created it, pending and without a hash. |
| `Provenance.StatusHasCause` | backend/internal/infrastructure/postgres/eventpurchase/purchase_repository.go:181-504 | Every change of a row's status in a step, of whatever kind, has a cause of its own that is entitled to it, and a hash is stored by a submission and by nothing else. |
| `Provenance.SinceWhen` | backend/internal/domain/eventpurchase/model/purchase.go:10-20 | So in every run a row that is not pending was given its status by such a step. |
| `Provenance.CauseFollows` | backend/internal/domain/paymentrequest/model/request.go:10-28 | A step changes a status by a single change of the lifecycle. |
| `Provenance.HashWasSubmitted` | backend/internal/application/eventpurchase/usecase/purchase.go:207-231 | In every run a stored hash was submitted before: for a purchase by its buyer while the event was not cancelled, for a request by its payer before it expired, and nobody had used it. |
| `Provenance.ExpiredWasDue` | backend/internal/infrastructure/postgres/eventpurchase/purchase_repository.go:329-356 | In every run an expired row was pending when its hold or its time was over, or unresolved at its deadline. |
| `Provenance.CancelledWasAsked` | backend/internal/infrastructure/postgres/paymentrequest/request_repository.go:114-169 | In every run a cancelled request was pending and cancelled by its creator, in time or with the account; a cancelled purchase was pending when its buyer recovered another one for the event. |
| `Provenance.AnsweredWasAsked` | backend/internal/application/eventpurchase/usecase/purchase.go:382-413 | In every run a worker's decision goes back to the verifier's answer about the very row it had claimed. |
| `Provenance.ConcludedWasAnswered` | backend/internal/application/paymentrequest/usecase/reconciliation.go:80-114 | In every run a row failed only because the verifier called a transfer that pays for it invalid, and is being verified only because it called such a transfer not final. |
| `Sequential.UndisturbedPass` | backend/internal/application/eventpurchase/usecase/purchase.go:356-444 | For every row with a hash, every clock and every answer, the steps of a worker that nobody disturbs, reading, claiming, asking and writing, leave the row that the sequential reconciler leaves and publish what it publishes. |
| `Sequential.UndisturbedRecovery` | backend/internal/application/eventpurchase/usecase/purchase.go:235-281 | The same for a recovery: it changes the ledger only for an expired row with a hash whose transfer is confirmed, and then replaces that row, releases the buyer's other pending purchases of the event, and publishes the new status. |
| `Seats.CreateKeeps` | backend/internal/infrastructure/postgres/eventpurchase/purchase_repository.go:29-128 | Creating a purchase, with the lapse of old holds, the search for an active one and the capacity check, never gives a user a second active purchase and never overbooks the event. |
| `Seats.CreateIff` | backend/internal/infrastructure/postgres/eventpurchase/purchase_repository.go:41-101 | Each outcome of a creation has its exact condition: a new purchase exactly for an open event that has not ended and has a price, to a user without an active purchase other than a lapsed hold, while fewer places are taken than there are. |
| `Seats.CreatedRows` | backend/internal/infrastructure/postgres/eventpurchase/purchase_repository.go:56-128 | The new row is pending, of that user and event, at the event's price, with a hold exactly if the event has a capacity; lapsed holds are expired and nothing else changes; a refusal changes nothing. |
| `Seats.LapsedAreGone` | backend/internal/infrastructure/postgres/eventpurchase/purchase_repository.go:56-101 | Once lapsed holds are expired, the count of the capacity query is the number of all places that can still be taken. |
| `Seats.RecoverTakesOne` | backend/internal/infrastructure/postgres/eventpurchase/purchase_repository.go:408-432 | A recovery takes exactly one place, its user's, whatever the capacity; the user's pending purchases are released. |
| `Seats.StepFitsIff` | backend/internal/infrastructure/postgres/event/event_repository.go:222-236 | Every operation keeps the event within its capacity except two, which always exceed it: recovering a payment for a full event, and lowering the capacity to the counted places while more lapsed holds are waiting than there is room for. |
| `Seats.NeverOverbooked` | backend/internal/infrastructure/postgres/eventpurchase/purchase_repository.go:29-128 | In every run without those two, no more users hold or can still take places than the capacity allows; in every run a user has at most one active purchase. |
| `Seats.RecoveryCanOverbook` | backend/internal/infrastructure/postgres/eventpurchase/purchase_repository.go:360-441 | A run from an event without purchases to a recovery that exceeds the capacity: a purchase expires, another user takes its place, the first is recovered. |
| `Seats.EditCanOverbook` | backend/internal/infrastructure/postgres/event/event_repository.go:222-236 | A run from an event without purchases to such an edit: it is accepted, and the submission of a lapsed hold then exceeds the new capacity. |
| `Announcements.AnnouncementIs` | backend/internal/application/paymentrequest/usecase/request.go:517-553 | A publication is empty for a pending row and otherwise one event of the table's type for the status, with wallet activity besides exactly for a settled row; every event names the row or a request's public id, its status, and each of its parties once: the buyer, or creator and payer. |
| `Announcements.ActTells` | backend/internal/application/eventpurchase/usecase/purchase.go:416-444 | Every change of status a reconciler writes is published, although it compares with the status its claim saw. |
| `Announcements.StepTells` | backend/internal/application/eventpurchase/usecase/purchase.go:207-281 | Every step publishes nothing or the present status of one row, and leaves no change of a submitted row untold. |
| `Announcements.DeleteTells` | backend/internal/infrastructure/postgres/iam/account_deletion.go:80-84 | Deleting an account leaves no pending request of its user, cancels them without publishing, and touches nothing else. |
| `Announcements.RunIsFaithful` | backend/internal/application/eventpurchase/usecase/purchase.go:416-444 | In every run, nothing is told of a row before its submission, and afterwards what was told and what happened are one story. |
| `Announcements.ToldAsLived` | backend/internal/application/eventpurchase/usecase/purchase.go:506-531 | The status events published about a submitted payment, without adjacent repetitions, are exactly the statuses it went through since its submission, recoveries included. |
| `Announcements.PublishedNames` | backend/internal/application/paymentrequest/usecase/request.go:517-553 | In every run, whatever is published names a row as it was at some time: its status then, and its parties. |

## Left out

- HTTP handlers, routing, configuration, tokens, logging, metrics other than the gauge's total, Kafka: wrappers around libraries.
- readPump and writePump, pings and deadlines: network I/O; a client's consumption of its queue is the step DoReceive.
- Locks: every hub, bus and limiter operation runs under its mutex and is one step here.
- The org and app routing of other domain events (extractRoutes) and the JSON envelopes: case analysis without state; `StatusChanged` reaches the bridge as it is, and a payload is an opaque string.
- MemoryRelay: used only by the repository's own tests; its broadcast is the publication step of `Fanout`.
- Text forms of identifiers that uuid.Parse accepts besides the canonical one: the sender always writes the canonical one.
- The verifier's own rules (RPC lookups, sender identities, finality by batch): its answer is arbitrary.
- Wallet identity and configuration checks before a submission, and calls without a user: they only refuse earlier, and the ledger has the refusal without a user.
- Creation checks of purchases in `Ledger`: there, creation adds any pending row, which allows more runs than the code does; `Seats` has the checks.
- The displayed attendee count: a cached number that no decision uses.
- Account deletion beyond the ledger's step: it also anonymises the user, archives calendars and cancels events, which are not part of this model; a cancelled event is an arbitrary outcome of a submission.
- Database errors other than the modelled refusals: in `Ledger` a worker may abandon its work at any point; the service classes have no such outcome.
- The order and size of reconciliation batches: a batch is any list of candidates.
- Repository methods that only read: the model reads the table.
- RateLimit.RedisLimiter.Allow: INCR and EXPIRE are one step, because their failure in between is an outage and not a limit.
- Other writers of a row between the passes of `Deadline` and `Guarantee`: a competing claim of another worker is the same pass made elsewhere; `Ledger` has every interleaving.
- Announcements.ToldAsLived: does not model a full event bus, which drops events silently (`EventBus.DroppedWhenFull`).
- NimAmount.FormatNIM: negative amounts, which the database refuses.
- Unicode case mapping and white space, in addresses and amounts.
- shortenNimiqAddress, identicons, balances, note normalisation, and the calendar, place and profile code: they would add easy members.
