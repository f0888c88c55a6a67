# A Dafny model of ppmxmpp

ppmxmpp is a single-threaded XMPP server in C. This project models the state
machines at its core and proves what they keep over whole runs: message routing
with carbons and offline storage, the subscription protocol and the presence it
controls, stream negotiation behind the TLS gate, SASL PLAIN with base64, the IQ
handler registry, and the TLS input buffer.

`dafny verify dfyconfig.toml` checks everything.

## How it is organised

| file | contents |
|---|---|
| `Options`, `Jids` | optional values, octets, bounded C strings, bare JIDs |
| `Sessions` | the session table: slots, their view as a map, best resource, passes over the table, and the class `SessionTable` |
| `Stanzas`, `Offline` | bounded stanza building; the offline store, its order, quota, and the delay splice |
| `Routing`, `RoutingRuns`, `Router` | one message as a function and as each receiver sees it; every run; the imperative handlers |
| `Subscriptions`, `Presence` | roster rows against the set of subscriptions; the imperative presence code and its broadcasts |
| `Base64`, `SaslPlain` | the encoder and decoder pair; the PLAIN handler |
| `Streams`, `StreamRuns`, `Connection` | negotiation and connection as functions; every run; the session and connection objects |
| `StreamSteps`, `Logins` | each event against what the protocol says of it; over every run, the events that prove a login |
| `ServerRuns` | many connections over one session table: which connection stands behind an entry, over every run |
| `IqRegistry`, `TlsInput` | the handler registry and its dispatch; the input FIFO |

Code that updates things in place is a class. Each of its methods is proved equal
to a function of the old state (`View() == Next(old(View()), ...)`), and what the
server promises is proved about those functions, by induction over every sequence
of operations. The classes carry these results as their own invariants:
`Router.Server.Valid` is the invariant of the runs, `TcpConnection.Valid` says
that the object is where some run is, and `TcpConnection.Sound` reads the
consequences off its fields.

What a session is due, what a contact is owed and what an event does to a stream are
written a second time with the protocol's own words and numbers, without the functions
that decide it (`Due`, `Owed`, `LoginEffect` and the `...Iff` lemmas), and the two are
proved equal.

Outside the model and handed in as parameters: the clocks, random resources, the
blocklist answer, the account table, SCRAM answers, the outcome of each write
whose result the code looks at, the events libstrophe emits, and what mbedTLS
decrypts. A sink that is in `down` fails its writes; the log `wire` records the
writes that succeed, so the routing statements hold with failing sinks too. SQL
tables are sequences and maps without storage failures. Rows with equal
timestamps are listed in insertion order; only the first-in-first-out statement
uses that.

In `ServerRuns` a stanza of a connection may be handled at any time after that
connection was online, also when its stream has ended since, and a connection may
be freed at any time, so its statements cover every order in which one buffer
mixes stream events and stanzas.

## Findings

Where code and comments differ the model follows the code.

- A handshake result is accepted in any state (src/server.c:301-302). A client
  that sends `<starttls/>` and its closing tag in one segment leaves CLOSING when
  the handshake completes, so CLOSING is not absorbing for a connection and two
  closing tags can go out. `EndingIsAbsorbingIff` says exactly when an ended
  stream stays ended and `FurtherTagIff` exactly when another closing tag can
  still go out; `ClosingTagsAreFew` bounds them, and `SecondTagAfterRevival` and
  `SecondTagAfterSmError` are runs with two, the second one after a login by PLAIN.
- A message that passes every check can be lost without notice: when the best
  resource cannot be written to nothing is stored (src/xmpp_message.c:351-361),
  and a message to oneself goes nowhere without another live resource
  (src/xmpp_message.c:336-344). `ArrivesIff` and `AdmittedArrivesIff` say exactly
  when a message arrives; `AdmittedCanBeLost` has a run and an input for both.
- A drain deletes the rows whatever the writes return
  (src/storage/db_offline.c:354-358). `ReplaysAreHanded`: what goes out is what was
  handed out if and only if no non-empty queue was drained into a failing sink;
  `FailedDrainHappens` is a run that loses a stored message.
- Attribute values are written between single quotes as they are
  (src/xmpp_message.c:52-62). `MessageRead`, `ErrorRead`, `ReceiptRead` and
  `DelayRead` say that a reader gets them back if and only if none holds a quote.
- The authzid of a PLAIN message is compared after a cut to 2047 octets;
  `AuthzidTest` says exactly when that differs from equality, and
  `LongAuthzidIsGranted` has the input.
- The authcid of a PLAIN message is kept cut to 1023 octets while the account is
  looked up under the whole of it (src/xmpp_sasl.c:167-174), so a session can go
  on under a shorter name. `KeptAuthcidIff` and `IdentityIsExactIff` say exactly
  when the name is kept; `LongAuthcidIsCut` has the input.
- A subscription stanza to oneself rewrites one row twice; `SelfSubscription`
  says exactly when the two halves still agree afterwards, and
  `SelfGrantDisagrees` has the input.
- An empty last token of a handler's type list is never compared;
  `MatchesIsMembership` says exactly when that matters, and `EmptyTypeIsMissed`
  has the input.
- The offline byte cap is checked before the insert, so a queue can exceed 1 MiB
  by one stanza. `StoreWithinCapIff` says exactly which store does, and
  `QuotaBoundIsReached` is a run that reaches the bound of `RunKeepsInvariant`.
- `send_carbon_sent` is described as also serving the sending resource
  (src/xmpp_message.c:171-174), but its callers exclude it (`NoDuplicates`).
- include/xmpp_iq_dispatch.h:13-17 calls every positive handler result an error
  that was answered; the dispatcher only stops on 1. `HeaderIsMetIff` says exactly
  when that matters, and `ErrorIsWalkedPast` has the input.
- Which copy of a handler an unregister removes can depend on whether a dispatch
  sorted the array in between. `RemovalIgnoresSortIff` says exactly when,
  `DispatchChangesRemoval` has the input, and `LiveSetIgnoresDispatch` shows that
  one priority for each name is enough.
- The table is keyed by full JID, and the end of a connection unregisters its JID
  whoever holds it (src/server.c:66-80). `CloseTakesOtherIff` says exactly when
  that takes another connection's entry, and `CloseTakesOther` is a run after which
  a connection is online without one.
- After `subscribed` the code sends the subscriber's presence to the granter
  (src/xmpp_presence.c:277-281), where section 3.1 of RFC 6121 has it the other
  way round. `PresencesFollowEdgesIff` says exactly when that tells somebody about
  a user they are not subscribed to; `WrongWayHappens` has the input.
- A subscription stanza longer than its 512-octet buffer is replaced by an empty
  write (src/xmpp_presence.c:224-228). `ContactIsToldIff` says exactly when the
  contact gets the stanza, the empty write, or neither; `EmptyWriteHappens` has
  the input.

## Model

| member | source | states |
|---|---|---|
| `Jids.BareIsProjection` | src/xmpp_session.c:38-45 | stripping a JID twice is stripping it once, for every string, including those longer than the buffer |
| `Jids.BareOfBoundJid` | src/xmpp_session.c:38-45 | `local@domain/resource` strips to `local@domain` if and only if the domain has no '/' |
| `Jids.DomainIs` | src/xmpp_message.c:36-44 | the domain of `local@domain`, with or without a resource, is `domain`, cut to 1023 octets |
| `Jids.DomainOfHost` | src/xmpp_message.c:36-44 | an address without '@' is its own domain up to the '/' |
| `Sessions.UpdateRefines` | src/xmpp_session.c:111-128 | an in-place slot update changes the entry of its own key in the map view and no other |
| `Sessions.SwapRemoveRefines` | src/xmpp_session.c:90-99 | moving the last slot into the hole deletes exactly the removed key and keeps keys distinct |
| `Sessions.UpdatesRefineMap` | src/xep-0280-carbons.c:42-50 | priority, activity and carbons updates are the map updates of one existing key, and nothing for a missing key |
| `Sessions.MembershipRefinesMap` | src/xmpp_session.c:51-99 | register inserts or refreshes exactly one key (keeping the priority on a re-bind), refuses only an empty JID or a full table; unregister deletes exactly one key |
| `Sessions.BestSlotRefines` | src/xmpp_session.c:130-149 | the scan finds a maximum by (priority, last activity) over the map, and fails if and only if no key has that bare JID |
| `Sessions.BestSlotIff` | src/xmpp_session.c:130-149 | the scan settles on a slot if and only if no slot of that bare JID has a higher priority, or the same and a later activity, and no earlier slot ties with it |
| `Sessions.BestIndependentOfSlots` | src/xmpp_session.c:130-149 | with distinct ranks, tables with the same map choose the same resource whatever their slot order |
| `Sessions.FanoutInbox` | src/xmpp_session.c:151-208 | a pass over the table writes exactly one packet to each selected live session and none to any other |
| `Sessions.SessionTable.FindSlot` | src/xmpp_session.c:163-168 | the scan returns the slot of the JID, or the count |
| `Sessions.SessionTable.Claim` | src/xmpp_session.c:51-79 | the table after a registration, and whether a new slot was claimed |
| `Sessions.SessionTable.Unregister` | src/xmpp_session.c:90-99 | the in-place removal is the map without that key |
| `Sessions.SessionTable.UpdatePriority` | src/xmpp_session.c:111-118 | only that entry's priority changes |
| `Sessions.SessionTable.Touch` | src/xmpp_session.c:120-128 | only that entry's activity time changes |
| `Sessions.SessionTable.UpdateCarbons` | src/xep-0280-carbons.c:42-50 | only that entry's carbons flag changes |
| `Sessions.SessionTable.BestResource` | src/xmpp_session.c:130-149 | returns a resource whose priority no other exceeds, nor its last activity at the same priority, or none if and only if there is no resource |
| `Sessions.SessionTable.WriteTo` | src/xmpp_session.c:101-109 | succeeds if and only if the JID is registered on a live sink, and then writes once to it |
| `Sessions.SessionTable.Broadcast` | src/xmpp_session.c:151-208 | the loop makes exactly the writes of one pass, in slot order |
| `Stanzas.Buffer.Append` | include/xmpp_iq_buf.h:13-23 | all or nothing: succeeds if and only if text and terminator fit; contents grow by the whole text or not at all; writes stay in the buffer |
| `Stanzas.AppendPieces` | src/xmpp_message.c:46-80 | piecewise appending succeeds if and only if the whole text fits, and then yields that text |
| `Stanzas.BuildMessage` | src/xmpp_message.c:46-80 | yields the forwarded stanza if it is shorter than 65536 octets, else nothing |
| `Stanzas.MessageRead` | src/xmpp_message.c:46-80 | the forwarded stanza holds a non-empty body behind its tag; a reader of the tag finds from, to, type and id with their values, in this order, if and only if no value holds a single quote |
| `Stanzas.ErrorRead` | src/xmpp_message.c:213-237 | an error is sent if and only if it is shorter than 512 octets, with the condition in its namespace; a reader finds type error, id and addressee, and the error type, if and only if they hold no single quote |
| `Stanzas.ReceiptRead` | src/xep-0184-receipts.c:59-79 | a receipt is sent if and only if it is shorter than 1024 octets; a reader finds from, to, the receipts namespace and the id acknowledged, if and only if they hold no single quote |
| `Offline.PendingWithout` | src/storage/db_offline.c:240-268 | deleting one recipient's rows empties that queue and leaves every other as it was |
| `Offline.StoreWithinCapIff` | src/storage/db_offline.c:149-167 | a queue is within the byte cap after a store if and only if there was room for the whole stanza |
| `Offline.ByTimeSorts` | src/storage/db_offline.c:169-212 | the listing is in nondecreasing time order and holds exactly the selected rows |
| `Offline.DelayedUndone` | src/storage/db_offline.c:277-336 | the delay element sits right behind the first '>' if there is one and the sum fits; removing it gives back the stored text; otherwise the text is unchanged |
| `Offline.DelayRead` | src/storage/db_offline.c:316-318 | a reader of the delay element finds its namespace, the stamp and the recipient, if and only if they hold no single quote |
| `Offline.DrainCallback` | src/storage/db_offline.c:277-336 | the stepwise buffer filling with its three size checks never leaves the buffer and emits exactly that splice |
| `Offline.OfflineStore.Store` | src/storage/db_offline.c:37-83 | refuses if and only if the recipient is at a cap; otherwise adds one row, and stays within the byte cap exactly if the row fitted |
| `Offline.OfflineStore.Drain` | src/storage/db_offline.c:338-365 | hands out the recipient's rows in time order, each once, and deletes exactly them |
| `Routing.RouteFacts` | src/xmpp_message.c:303-378 | an exact target is the addressed, reachable JID; a best target has no resource of that user above it in priority, nor in activity at the same priority, and belongs to another user; the self-addressed route is the sender's own bare JID; storing happens only when the recipient has no session |
| `Routing.WritesInbox` | src/xmpp_message.c:303-378 | on every route, the writes of that route seen from any session are exactly the receiver-side share |
| `Routing.TrafficMeetsExpected` | src/xmpp_message.c:303-378 | the handler's writes, seen from any session, are exactly what the receiver-side definition says: original, sent carbon, received carbon or nothing |
| `Routing.NoDuplicates` | src/xmpp_message.c:303-378 | no session gets two packets, except a carbons-enabled other resource on a self-addressed message, which gets the original and one sent carbon; the sender then gets nothing |
| `Routing.ArrivesIff` | src/xmpp_message.c:303-378 | a message reaches some session or the store if and only if its route is the exact resource, a best resource whose write succeeds, the sender's bare JID with another live resource, or the store below its caps |
| `Routing.AdmittedArrivesIff` | src/xmpp_message.c:243-381 | the same without naming the route: there is a non-empty recipient in the sender's domain who has not blocked the sender, and the exact resource takes it, or the fall-back stanza fits and its resource, another own resource, or the quota lets it through |
| `Routing.TrafficIsDue` | src/xmpp_message.c:243-381 | what the handler writes, seen from any session, is exactly what it is due: nothing unless the session is live and the message has a non-empty local recipient who has not blocked the sender; else the stanza or the carbons of the exact resource, of the own resources, of the best resource, or of an offline recipient |
| `Routing.StoredIsDue` | src/xmpp_message.c:363-377 | a row is stored exactly for such a message that fits, to another user without a session and with fewer than 100 messages and 1048576 octets waiting |
| `Routing.RefusedReachesNobody` | src/xmpp_message.c:252-301 | a message without recipient, with an empty one, to another domain, or blocked reaches no session and is not stored |
| `Routing.RepliesAreDue` | src/xmpp_message.c:213-301 | what is written back to the sending connection is exactly what it is due: bad-request without a recipient, service-unavailable for another domain or a full queue, and the receipt if one was asked for |
| `Routing.SenderIsTouched` | src/xmpp_message.c:316-378 | the sender's activity is renewed exactly when the message is accepted and its stanza could be built; the table does not change otherwise |
| `RoutingRuns.RunKeepsInvariant` | src/xmpp_session.c:51-99 | after every interleaving of register, unregister, updates and messages: distinct keys, at most 256 sessions; no bare JID both online and stored for; at most 100 messages and 1048575 + 65535 octets a queue; accepted = pending + handed out, as multisets |
| `RoutingRuns.NextKeepsInvariant` | src/xmpp_session.c:51-128 | each single operation keeps that invariant, from any state that has it |
| `RoutingRuns.QuotaBoundIsReached` | src/storage/db_offline.c:48-51 | the byte bound of the invariant is reached: a run after which 1048575 + 65535 octets wait for one recipient |
| `RoutingRuns.RunThenDeliver` | src/xmpp_message.c:243-381 | after any run, one more message gives each session exactly its receiver-side share, at most one packet unless self-addressed |
| `RoutingRuns.RunThenArrives` | src/xmpp_message.c:243-381 | after any run, a message arrives exactly under the condition of `AdmittedArrivesIff` |
| `RoutingRuns.RunThenDue` | src/xmpp_message.c:243-381 | after any run, one more message brings each session what it is due, the sending connection what it is due back, and the store the row due |
| `RoutingRuns.RunThenRefused` | src/xmpp_message.c:252-301 | after any run, a message without a local recipient or a blocked one reaches no session, stores nothing and changes no slot |
| `RoutingRuns.AdmittedCanBeLost` | src/xmpp_message.c:331-362 | after a run with one registered session, two admitted messages that fit and reach neither a session nor the store: one to a resource that fails its writes, one to oneself |
| `RoutingRuns.RegistrationHandsOver` | src/xmpp_session.c:72-88 | a newly registered live session receives everything pending for it, each message once, in time order, with its delay element; no other session receives anything; nothing stays |
| `RoutingRuns.ReplaysAreHanded` | src/storage/db_offline.c:338-365 | over every run, the replayed packets on the wire are exactly the messages handed out, in order, each for its recipient and with its delay element, if and only if no non-empty queue was drained into a failing sink |
| `RoutingRuns.FailedDrainHappens` | src/storage/db_offline.c:338-365 | a run in which a stored message is handed to a failing sink and is gone |
| `RoutingRuns.RunIsFifo` | src/storage/db_offline.c:169-212 | with a clock that never steps back, each queue is first in first out over the whole run, across drains |
| `Router.Server.Register` | src/xmpp_session.c:51-88 | the imperative registration with its drain is the register step of the run, and keeps the invariant of the runs |
| `Router.Server.Unregister` | src/xmpp_session.c:90-99 | the imperative removal is the unregister step, and keeps the invariant of the runs |
| `Router.Server.SetPriority` | src/xmpp_session.c:111-118 | the imperative update is the priority step, and keeps the invariant of the runs |
| `Router.Server.SetCarbons` | src/xep-0280-carbons.c:42-50 | the imperative update is the carbons step, and keeps the invariant of the runs |
| `Router.Server.Broadcast` | src/xmpp_session.c:151-208 | a pass over the table writes what the pass says and changes nothing else; the invariant is kept |
| `Router.Server.Admit` | src/xmpp_message.c:252-301 | goes on if and only if there is a non-empty recipient in the sender's domain who has not blocked the sender; the notices sent back until then |
| `Router.Server.TryExact` | src/xmpp_message.c:306-325 | delivers to the exact resource and its received carbons, or changes nothing |
| `Router.Server.ToMyself` | src/xmpp_message.c:331-344 | the self-addressed path makes the writes of that route |
| `Router.Server.ToBest` | src/xmpp_message.c:346-362 | the best-resource path makes the writes of that route |
| `Router.Server.ToNobody` | src/xmpp_message.c:363-377 | the offline path stores one row, or reports the cap, and makes the sent carbons |
| `Router.Server.RouteBare` | src/xmpp_message.c:327-378 | bare-JID routing takes the route the decision function names |
| `Router.Server.HandleMessage` | src/xmpp_message.c:243-381 | the whole handler is the delivery step of the run, keeps its invariant, writes to each session exactly what it is due and back to the sender what that is due, and stores exactly the row due |
| `Subscriptions.ApplyPair` | src/xmpp_presence.c:198-371 | the two halves of both rows of a pair after each verb |
| `Subscriptions.RowsRefineEdges` | src/xmpp_presence.c:152-371 | for every run of stanzas between different users: the rows stand for exactly the set of granted and not withdrawn subscriptions and the set of requests in flight; the two rows of each pair agree; `ask` only on "none" and "from" rows; no self rows |
| `Subscriptions.RowsTellHistory` | src/xmpp_presence.c:152-371 | after every such run, u's row for v says "to" or "both", and v's row for u "from" or "both", if and only if v granted u a subscription that neither of them took back since |
| `Subscriptions.SelfSubscription` | src/xmpp_presence.c:152-371 | a stanza keeps the rows in agreement if and only if it is between different users, or is a `subscribe`, or has nothing to grant or withdraw |
| `Subscriptions.SelfGrantDisagrees` | src/xmpp_presence.c:232-281 | a grant to oneself after which the rows disagree |
| `Presence.PushesReportRows` | src/xmpp_presence.c:198-371 | every roster push tells an owner the row as it is afterwards, and every row that changes is pushed to its owner |
| `Presence.AnnouncementsMeetShare` | src/xmpp_presence.c:198-371 | what a subscription stanza writes, seen from any session, is exactly the receiver-side share: the contact gets its row if it changed and the stanza if it is passed on; the sender gets its row if it changed or was asked for again, the answer to a cancellation, and after a grant the contact's presences; nobody else gets anything |
| `Presence.AnnouncementsAreOwed` | src/xmpp_presence.c:198-371 | the same in the words of the protocol: stanza types, row states and the room for two addresses in 512 octets written out for each verb |
| `Presence.RunThenSubscription` | src/xmpp_presence.c:152-371 | that holds after every run of the protocol, and the subscriptions it goes by are those granted and not withdrawn so far |
| `Presence.ContactIsToldIff` | src/xmpp_presence.c:198-371 | for each of the four verbs: a live session of the contact gets the stanza of type "subscribe", "subscribed", "unsubscribe" or "unsubscribed" once if it is passed on and the addresses have at most 469, 468, 467 or 466 octets, the empty write once if it is passed on and they have more, and neither otherwise |
| `Presence.CancellationIsAnswered` | src/xmpp_presence.c:283-329 | whoever cancels is answered once with "unsubscribed" in the contact's name, or by an empty write when that does not fit |
| `Presence.Conversation` | src/xmpp_presence.c:198-371 | from empty rosters with both users online: everything both sessions get from a request, its grant, then its cancellation or withdrawal, written out in full |
| `Presence.EmptyWriteHappens` | src/xmpp_presence.c:224-228 | a request from a user with a long name that a session of the contact gets as an empty write and nothing else |
| `Presence.PresencesFollowEdgesIff` | src/xmpp_presence.c:277-281 | the presences a stanza sends go to users subscribed to their sender, if and only if it is not an effective grant to an online contact by a user without a subscription in return; all of them go from the contact to the granter |
| `Presence.WrongWayHappens` | src/xmpp_presence.c:277-281 | a first grant by a@x to b@x announces b@x/r to a@x, which is not subscribed to b@x afterwards |
| `Presence.BroadcastFollowsSubscriptions` | src/xmpp_presence.c:379-402 | after any such run a broadcast by U reaches every live session of each subscriber once, each other live resource of U once, and nobody else |
| `Presence.PresenceServer.OnSubscribe` | src/xmpp_presence.c:201-230 | roster change and writes of `subscribe` |
| `Presence.PresenceServer.OnSubscribed` | src/xmpp_presence.c:232-281 | roster change and writes of `subscribed` |
| `Presence.PresenceServer.OnUnsubscribe` | src/xmpp_presence.c:283-329 | roster change and writes of `unsubscribe` |
| `Presence.PresenceServer.OnUnsubscribed` | src/xmpp_presence.c:331-370 | roster change and writes of `unsubscribed` |
| `Presence.PresenceServer.HandleSubscription` | src/xmpp_presence.c:152-371 | a stanza without target changes nothing; otherwise the rosters and the writes are those of the verb, and from orderly rosters each session gets exactly what it is owed |
| `Presence.PresenceServer.BroadcastPresence` | src/xmpp_presence.c:379-402 | each session's share of a broadcast, whatever order the roster listing has |
| `Presence.PresenceServer.Unavailable` | src/xmpp_presence.c:468-473 | subscribers and own resources are told, then the session leaves the table |
| `Presence.PresenceServer.OnDisconnect` | src/xmpp_presence.c:484-491 | the same for a lost connection, and nothing for a session that was not registered |
| `Presence.PresenceServer.InitialPresence` | src/xmpp_presence.c:426-444 | registers, sets the priority clamped to -128..127, and broadcasts to subscribers and own resources |
| `Base64.NoiseIgnored` | src/xmpp_sasl.c:43-47 | inserting any non-alphabet text anywhere does not change the decoding |
| `Base64.RoundTrip` | src/xmpp_sasl.c:30-70 | decoding inverts encoding on every byte sequence |
| `Base64.TableIsAlphabet` | src/xmpp_sasl_scram.c:24-25 | the table is "A" to "Z", "a" to "z", "0" to "9", "+", "/" |
| `Base64.ValueIff` | src/xmpp_sasl.c:43-47 | a character counts for its place in that alphabet, and for nothing if it is not in it |
| `Base64.EncodeConcat` | src/xmpp_sasl_scram.c:38-55 | encoding goes block by block of three octets |
| `Base64.EncodeBlock` | src/xmpp_sasl_scram.c:38-55 | the characters of a block stand for the same 24-bit number as its octets, and '=' fills up to four |
| `Base64.DecodeBlock` | src/xmpp_sasl.c:43-70 | two to four sextets give one octet less, the leading ones of the number they make |
| `Base64.Vectors` | src/xmpp_sasl_scram.c:31-58 | three texts with '+', '/' and padding, and one decoded |
| `Base64.Base64Encode` | src/xmpp_sasl_scram.c:31-58 | succeeds if and only if text and terminator fit, writes exactly the encoding, otherwise leaves the output alone |
| `Base64.Base64Decode` | src/xmpp_sasl.c:30-70 | the four-state loop yields exactly the decoding and never leaves its input-sized buffer |
| `SaslPlain.OutcomeOfSplit` | src/xmpp_sasl.c:118-158 | the two scans find the only split of the message |
| `SaslPlain.GrantedIff` | src/xmpp_sasl.c:106-251 | success if and only if the message splits into a non-empty clean authcid, a non-empty password, a JID of at most 2047 octets of a known enabled account with exactly that password, and an authzid that is empty, equal to the JID, or longer than 2047 octets with the JID as its cut |
| `SaslPlain.RetryIff` | src/xmpp_sasl.c:197-228 | a retryable failure if and only if the account is unknown, or enabled with another password |
| `SaslPlain.AuthzidTest` | src/xmpp_sasl.c:232-245 | the cut comparison means equality if and only if the JID is not the 2047-octet prefix of a longer authzid |
| `SaslPlain.LongAuthzidIsGranted` | src/xmpp_sasl.c:232-245 | a success with an authzid that is longer than the account JID |
| `SaslPlain.KeptAuthcidIsClean` | src/xmpp_sasl.c:160-170 | an authcid left behind by any call fits its field and has no forbidden character |
| `SaslPlain.KeptAuthcidIff` | src/xmpp_sasl.c:167-170 | the authcid kept after a success is the one authenticated if and only if it has at most 1023 octets |
| `SaslPlain.LongAuthcidIsCut` | src/xmpp_sasl.c:167-174 | a success that keeps another name than the one authenticated |
| `SaslPlain.EncodedCredentials` | src/xmpp_sasl.c:106-151 | credentials encoded in base64, with noise inserted anywhere, are understood as exactly those three fields |
| `SaslPlain.ConstantTimeEqual` | src/xmpp_sasl.c:76-84 | the accumulated difference is zero if and only if the prefixes are equal |
| `SaslPlain.LocalpartHasForbidden` | src/xmpp_sasl.c:90-100 | finds a forbidden character if and only if there is one |
| `SaslPlain.ForbiddenIff` | src/xmpp_sasl.c:90-100 | the forbidden characters are the quotes, '&', '/', ':', ';', '<', '>' and '@', and no other |
| `SaslPlain.CheckAccount` | src/xmpp_sasl.c:153-251 | the checks behind the split, in their order, give the decision |
| `SaslPlain.HandleSaslPlain` | src/xmpp_sasl.c:106-251 | the whole handler on a base64 text |
| `StreamRuns.RunConnOk` | src/server.c:250-378 | the joint invariant of gate, order, identity, attempt budget, closing tags and names holds after every sequence of reads |
| `StreamRuns.NegotiationIsOrdered` | src/xmpp.c:556-577 | in every run, any phase past plaintext implies a finished handshake; an authenticated phase implies a successful SCRAM or PLAIN call that set the present authcid; ONLINE is reached only by open, starttls, handshake, restart, authentication, restart, bind |
| `StreamRuns.IdentityIsExactIff` | src/xmpp_sasl.c:167-174 | in every run the authcid of a session authenticated by PLAIN is the one in the message if and only if that has at most 1023 octets |
| `StreamRuns.AuthenticationIsBounded` | src/xmpp.c:663-816 | at most six handler calls and three retryable failures a connection, none before the handshake, and after the third failure nothing is evaluated again |
| `StreamRuns.SixCallsHappen` | src/xmpp.c:732-805 | the bound is reached: a run with six handler calls and three retryable failures, for any SCRAM texts that are answered by a challenge and a refused proof |
| `StreamRuns.EndingAbsorbsFeed` | src/xmpp.c:1018-1061 | CLOSING and CLOSED are absorbing under every feed, with no call evaluated and no closing tag written |
| `StreamRuns.EndingIsAbsorbingIff` | src/server.c:289-304 | an ended session stays ended under every input if and only if no handshake is outstanding on it |
| `StreamRuns.ClosingTagsAreFew` | src/xmpp.c:440-460 | in every run at most one closing tag, plus one if a handshake completed on a closed stream, plus one for each stream management error |
| `StreamRuns.FurtherTagIff` | src/xmpp.c:440-460 | some input makes a connection write another closing tag if and only if it is open and its stream has not ended, or a handshake is outstanding on it |
| `StreamRuns.TagAfterTagIff` | src/server.c:289-304 | in every run that condition is exact, and a tag can follow a tag only if a handshake completed on a closed stream or is outstanding on it, or stream management failed |
| `StreamRuns.SecondTagAfterRevival` | src/server.c:300-304 | the first extra tag occurs: a run from a new connection with two |
| `StreamRuns.SecondTagAfterSmError` | src/xep-0198-stream-mgmt.c:163-173 | the second extra tag occurs: a run from a new connection through TLS and a login by PLAIN, a repeated enable and a close, with two |
| `StreamRuns.BoundJidIsExact` | src/xmpp.c:883-897 | in every run a bound JID is authcid@domain/resource without truncation, with a valid resource, and strips to authcid@domain if and only if the domain has no '/' |
| `StreamRuns.OnlineHappens` | src/xmpp.c:883-928 | a run from a new connection that logs in, binds and is online under its JID |
| `StreamRuns.OnlineIsSettled` | src/xmpp.c:930-953 | a connection that is online has bound a JID |
| `StreamRuns.StepKeepsAddress` | src/server.c:250-378 | once a connection was online its JID never changes, whatever it reads |
| `StreamSteps.ParserFilters` | src/xmpp.c:514-592 | nothing reaches a session before its stream header, nor a second header or anything behind the end of one parser |
| `StreamSteps.BeforeTlsIff` | src/xmpp.c:610-661 | before TLS only a starttls element in its namespace goes on; a login attempt ends the stream in CLOSED unless it is PLAIN, everything else in CLOSING; no handler is called |
| `StreamSteps.LoginIs` | src/xmpp.c:663-816 | in the login phases every element has exactly the effect the protocol gives it on phase, calls, failures, closing tags, error flag and names |
| `StreamSteps.LogsInIff` | src/xmpp.c:663-816 | an element logs in if and only if it is a SCRAM answer to a challenge that is granted, or PLAIN credentials that are |
| `StreamSteps.ScramLogsInIff` | src/xmpp.c:732-805 | the SCRAM handler reaches success if and only if a challenge is out, the text is not empty, and the answer is granted |
| `StreamSteps.RetriesIff` | src/xmpp.c:687-805 | another try is allowed if and only if a proof or a password was refused and fewer than two failures were counted |
| `StreamSteps.BindIff` | src/xmpp.c:818-928 | a bound stream goes online if and only if it is sent a set with a bind request for a resource of at most 1023 octets without a forbidden character and the reply fits; which JID it then has; what ends it and what leaves it where it is |
| `StreamSteps.StreamManagementIff` | src/xep-0198-stream-mgmt.c:332-388 | when stream management is switched on and off, and when it is an error with a closing tag |
| `StreamSteps.OnlineStays` | src/xmpp.c:930-953 | an online stream stays online whatever element it is sent |
| `StreamSteps.ElementsIgnored` | src/xmpp.c:592-960 | in every phase without a handler an element changes nothing |
| `StreamSteps.GoodOpen` | src/xmpp.c:514-577 | a stream header of version 1.0 in its two namespaces sets the domain and moves the stream on if it is expected, its answer is written and the features are |
| `StreamSteps.BadOpen` | src/xmpp.c:514-577 | any other header is an error, with a closing tag unless the stream has ended |
| `StreamSteps.EndIff` | src/xmpp.c:579-590 | a closing tag is answered once unless the stream has ended |
| `StreamSteps.PlainReadIff` | src/server.c:357-378 | a plaintext read leaves the connection open, and turns it to TLS, exactly if the session takes the buffer and a granted starttls finds TLS ready |
| `StreamSteps.TlsReadIff` | src/server.c:289-304 | overflow and a failed handshake close; nothing is fed before the handshake is done |
| `StreamSteps.BufferIff` | src/xmpp.c:1018-1061 | a decrypted buffer closes the connection if and only if it does not parse or leaves an error; when the parser is set up anew |
| `Logins.LoginIsEvidenced` | src/xmpp.c:663-816 | in every run a stream authenticated by PLAIN has read credentials that were granted with the accounts of that moment, and one authenticated by SCRAM a granted answer and a first message challenged under its name |
| `Logins.NoGrantNoLogin` | src/xmpp.c:663-816 | a run in which no SCRAM answer is granted authenticates by PLAIN or not at all; if no PLAIN credentials are granted either, not at all |
| `Connection.ValidateResource` | src/xmpp.c:133-166 | accepts exactly resources of 1 to 1023 octets without a forbidden character |
| `Connection.ResourceIff` | src/xmpp.c:133-166 | a valid resource has 1 to 1023 octets, no control character or DEL, no quote and none of '/', ':', '<', '>', '@' |
| `Connection.XmppSession.SendStreamClose` | src/xmpp.c:440-460 | one closing tag outside CLOSING and CLOSED; only a successful one moves to CLOSING |
| `Connection.XmppSession.SendStreamError` | src/xmpp.c:190-227 | the closing tag behind a stream error and the pending error |
| `Connection.XmppSession.TransitionTo` | src/xmpp.c:338-379 | an invalid event ends the stream; a valid one reaches the stable phase if and only if the features are written |
| `Connection.XmppSession.OnStreamStart` | src/xmpp.c:514-577 | the session after a stream header |
| `Connection.XmppSession.OnStreamEnd` | src/xmpp.c:579-590 | the session after a closing tag |
| `Connection.XmppSession.StanzaBeforeTls` | src/xmpp.c:610-661 | only a proper starttls goes on before TLS; everything else ends the stream |
| `Connection.XmppSession.StanzaPlain` | src/xmpp.c:687-730 | PLAIN: success, end, or a counted retry |
| `Connection.XmppSession.StanzaScram` | src/xmpp.c:732-805 | SCRAM: challenge, success, end, or a counted retry, by step; success if and only if a challenge is out, the text is not empty and the answer is granted |
| `Connection.XmppSession.HandleStreamManagement` | src/xep-0198-stream-mgmt.c:332-388 | the stream-level effect of stream management elements |
| `Connection.XmppSession.StanzaBinding` | src/xmpp.c:818-928 | binding, a rejected resource, or the end of the stream |
| `Connection.XmppSession.OnElementSeen` | src/xmpp.c:592-960 | the session after any top-level element |
| `Connection.XmppSession.FeedBytes` | src/xmpp.c:1018-1061 | the session after one buffer, and whether the connection must close; an ended stream stays ended and silent; behind the handshake the session invariant is kept |
| `Connection.TcpConnection.DrainPendingTls` | src/server.c:94-122 | everything left is fed, only behind a finished handshake |
| `Connection.TcpConnection.ReadDecrypted` | src/server.c:306-354 | records are fed in order until one is rejected or the peer leaves |
| `Connection.TcpConnection.ReadPlain` | src/server.c:357-378 | plaintext feeding, and the switch to TLS |
| `Connection.TcpConnection.ReadCallback` | src/server.c:250-378 | the object stays where the run with one more read is; its own fields keep gate, identity, order, budget, closing tags and bound JID; an ended stream without an outstanding handshake stays ended and silent |
| `Connection.TcpConnection.ValidIsSound` | src/server.c:250-378 | an object that is where some run is has a finished handshake in every phase past plaintext, an accountable identity and the events that prove it in every authenticated phase, at most six handler calls, few closing tags and an exact bound JID |
| `ServerRuns.RunServerOk` | src/server.c:66-89 | over every interleaving of connections that come in, read, become available or unavailable, send and end: the connection and table invariants hold, and every entry is backed by a connection bound to its JID |
| `ServerRuns.EntriesAreNegotiated` | src/xmpp_session.c:51-79 | in every such run each entry belongs to a connection that is not freed, is bound to exactly that JID and went through TLS, authentication and bind; while it is online its name is the one it authenticated as |
| `ServerRuns.MessagesReachBoundConnections` | src/xmpp_message.c:243-381 | in every such run whatever a message makes the server write to a session goes to a connection that is not freed and is bound to that JID |
| `ServerRuns.SendIsDue` | src/xmpp_message.c:243-381 | in every such run a message of a connection that was online is delivered as coming from the JID it is bound to: each session, the connection and the store get exactly what is due |
| `ServerRuns.TableIsHolders` | src/xmpp_session.c:51-99 | in every such run the table says exactly which connection became available last under each JID and has not given it up since, told from the events alone |
| `ServerRuns.CloseTakesOtherIff` | src/xmpp_presence.c:484-491 | the end of a connection takes another connection's entry if and only if both are bound to the same full JID and the other one became available last; its own entry always goes |
| `ServerRuns.CloseTakesOther` | src/server.c:66-89 | a run after which a connection is online and has lost its entry to the end of another |
| `IqRegistry.SortedFacts` | src/xmpp_iq_dispatch.c:24-39 | the insertion sort is a stable permutation into descending priority |
| `IqRegistry.CallOrderIsCanonical` | src/xmpp_iq_dispatch.c:24-39 | descending priority with ties in registration order determines the order completely |
| `IqRegistry.DispatchOrder` | src/xmpp_iq_dispatch.c:25-102 | for every interleaving of register, unregister and dispatch, a dispatch walks the live handlers in that one order |
| `IqRegistry.RemovalIgnoresSortIff` | src/xmpp_iq_dispatch.c:86-102 | an unregister removes the same entry before and after a sort if and only if no live entry of that namespace and function outranks the first one |
| `IqRegistry.LiveSetIgnoresDispatch` | src/xmpp_iq_dispatch.c:25-102 | in every run that registers each namespace and function with one priority, the live handlers are those of the run without its dispatches |
| `IqRegistry.DispatchChangesRemoval` | src/xmpp_iq_dispatch.c:86-102 | with two priorities a dispatch can change which handlers are live |
| `IqRegistry.CalledIff` | src/xmpp_iq_dispatch.c:204-227 | a live handler is called if and only if it matches and no matching handler in front of it handled the IQ or failed |
| `IqRegistry.HeaderIsMetIff` | include/xmpp_iq_dispatch.h:13-17 | the dispatcher calls exactly the handlers the header promises if and only if no matching handler stands behind a first non-negative result above 1 |
| `IqRegistry.ErrorIsWalkedPast` | src/xmpp_iq_dispatch.c:204-227 | two handlers that answer 2 are both called |
| `IqRegistry.MatchesIsMembership` | src/xmpp_iq_dispatch.c:150-171 | matching is membership in the '\|'-separated list, exactly unless the type is empty and only the last token is |
| `IqRegistry.TokensAreSplit` | src/xmpp_iq_dispatch.c:150-171 | the tokens hold no bar, and joined by bars they are the list |
| `IqRegistry.EmptyTypeIsMissed` | src/xmpp_iq_dispatch.c:150-171 | the list "get\|" has an empty token, and an empty type does not match it |
| `IqRegistry.HandlerRegistry.SortHandlers` | src/xmpp_iq_dispatch.c:24-39 | the lazy in-place sort is the stable sort, or nothing when the flag is set |
| `IqRegistry.HandlerRegistry.RegisterHandler` | src/xmpp_iq_dispatch.c:41-70 | appends a copy unless the registry is full; ties stay in registration order |
| `IqRegistry.HandlerRegistry.UnregisterHandler` | src/xmpp_iq_dispatch.c:86-102 | removes the first entry with that namespace and function by shifting; ties stay in registration order |
| `IqRegistry.HandlerRegistry.HandlerMatches` | src/xmpp_iq_dispatch.c:150-171 | the token scan decides matching |
| `IqRegistry.HandlerRegistry.DispatchIq` | src/xmpp_iq_dispatch.c:201-234 | leaves the live handlers in call order; the calls made, and whether feature-not-implemented is answered; each copy of a handler may answer differently |
| `TlsInput.RunIsLossless` | src/server.c:189-200 | over any mix of arrivals and partial takes, taken bytes followed by waiting bytes are exactly the accepted bytes in order, and at most 16896 wait |
| `TlsInput.TlsBuffer.Compact` | src/server.c:272-280 | moving the unread bytes to the front keeps them |
| `TlsInput.TlsBuffer.Accept` | src/server.c:271-287 | accepts if and only if waiting and new bytes fit, and then appends them all |
| `TlsInput.TlsBuffer.Receive` | src/server.c:189-200 | takes the oldest bytes, as many as asked for and available |

## Left out

- Sockets, libuv callbacks, mbedTLS internals, certificates, configuration, logging and `main`: input and output, and foreign code.
- XML parsing and the extraction of namespaces: libstrophe is an event source that emits at most one stream open, then elements, then one end for each parser instance.
- The SCRAM exchange and `scram_base64_decode`: only the return codes of the two steps and the validated user name are used; a message without text fails as in the code, the answer to any other text is a parameter.
- Stream management counters: only their effect on the stream is modelled; whether an acknowledged count is too high is a parameter.
- Roster set and remove, and roster groups: a set overwrites the subscription and a remove touches one side only, so neither is a step of the subscription protocol.
- Roster contacts longer than 2047 octets: the table stores them cut, as `Update` does; the statements over runs are about JIDs that fit.
- The domain of the authenticated identity: each stream header may replace it, so the identity statements are about the authcid.
- The exact text of carbons, presences and roster pushes: they are packets with fields; the bytes of forwarded, stored and replayed messages and of notices are modelled.
- Which direction the blocklist is asked in: its answer is a parameter.
- Failure to format a timestamp while draining, and allocation failures.
- Directed presence, receipts beyond the one sent back, chat markers, client state, ping, service discovery, vCards, roster versions: handlers that answer one stanza from fixed text or one table row and keep no state another handler reads.
- `iq_dispatch` in front of its namespace check: missing namespaces and result or error types are answered without touching the registry.
