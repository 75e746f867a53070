# Verified models of the Aries Agent Test Harness

Dafny models of the parts of the Aries Agent Test Harness that keep state or transform data, with
proofs of what they promise. `dafny verify dfyconfig.toml` checks everything.

## What is modelled

**The .NET backchannel's exchanges** (`Exchanges`, `Runs`, `IssueCredential`, `IssueStates`,
`IssueUpdates`, `PresentProof`, `ProofStates`, `Connection`, `ConnectionSteps` and the three
`...Controller` modules). Each agent keeps, per thread or connection id, a cached exchange object with
a state, and one-shot subscriptions that assign a new state to the object they captured when an event
of their type and thread is published. `Exchanges.Hub` is that cache and event aggregator over real
objects; `Exchanges.Local` is the share of one thread. The protocol modules are state machines over two
agents whose steps are the stretches of a handler between two awaits, with any number of handlers under
way, and messages delivered late, in any order, again, or never. The controller modules run the same
stretches on `Hub` objects and are proved to do exactly the machine's step to their own thread and
nothing to the others; `Runs.Projection` carries every result about one thread to any number of
interleaved ones.

What is assumed of the agent framework: processing a message publishes one event with its type and
thread; a request or credential is processed and its event published in one step; service calls fail
unless the message they work on has been processed (and, for a record, unless the record exists).
Thread ids are fresh, and one agent is the issuer (verifier, inviter) of a thread and the other the
holder (prover, invitee). Reads between two awaits are merged with the stretch next to them. A handler
may fail at any await.

**The shared Python parts** (`MessageQueue`, `Storage`, `StoreHistory`). The message queues are a
system of any number of calls with program counters, each step of which is a dictionary look-up, a
lock operation, a put or get of the shielded task, an answer or a timeout. The webhook store is a class
updated in place; its operations hold one lock in the source, so a run is a sequence of operations.

**The ACA-Py and AFGO backchannels against that store** (`AcapyBackchannel`, `AfgoBackchannel`): the
poll loops, the swap of thread ids for exchange ids, and the issue-credential webhooks. Wherever a
handler sleeps or waits, a parameter says what other handlers do to the store meanwhile, and the
contracts hold for every such parameter. A webhook message is a map from member names to texts.

**Transformations** (`Strings`, `Json`, `JsonGrammar`, `JsonWriter`, `StateTranslation`, `Canonical`,
`ProcessArgs`, `PrefixFilter`, `Scenarios`, `LegacyIds`). `Json` has json.dumps and json.loads with
Python's default settings, down to escape sequences and surrogate pairs, because two of the
transformations depend on the text and not only on the value. `JsonGrammar` is the grammar of RFC 8259,
stated on its own, that the reader is proved to accept and the writer to write.

## What turned out not to hold

Where the code does less than its comments or tests suggest, the code is modelled as it is; a lemma
gives a concrete reachable case, and another says exactly when the promise is kept.

- A second delivery of an unsolicited offer may replace the holder's exchange, which then hears of
  nothing the first one was waiting for (`IssueUpdates.LostUpdate`, `ReplacingExchangeIsDeaf`); and a
  handler that fails between adding the holder's record and caching an exchange leaves an offer that no
  exchange ever hears of (`OfferLost`). Over all runs, a processed request or credential has missed the
  cached exchange exactly when every exchange subscribed for it beforehand has been replaced, and a
  published offer exactly when none is cached (`LostIff`), for good exactly when no handler is about to
  make one either (`LostForGoodIff`); so without replacements only an offer can be lost, and only in that
  way (`NoLostUpdate`).
- An OK ack is dropped exactly when a duplicated presentation request has replaced the prover's
  exchange and nothing has been presented on the new one (`PresentProof.AckDroppedIff`, `DroppedAck`), never
  without duplicates (`AckNeverDropped`).
- accept-invitation, accept-request and send-ping assign their state after sending, so an answer may
  overtake them and a party goes back, or a ping is lost for good (`Connection.ResponseOvertakes`,
  `PingLost`); and a second accept-invitation, which the controller accepts, takes a complete invitee back
  (`AcceptedAgain`). In every run, commands issued again included, a step takes a party back exactly when
  the party is past the state the step assigns (`AnyForwardIff`, and `GoesBackInRun` from the run's
  earlier steps alone but for pending subscriptions), so both parties only move forward exactly in the
  runs without such a step (`AnyForwardRunIff`); with each command issued at most once, those are the runs in
  which nothing is overtaken (`ForwardRunIff`). In every run, too, a ping completes its receiver exactly
  when the last step that put it at requested, responded or complete was not one to requested
  (`AnyPingCompletesIff`); with each command issued at most once and nothing overtaken, that is when the
  receiver has answered, has the answer, or has pinged itself (`PingCompletesIff`).
- A pop that timed out still takes a message (`MessageQueue.MessageLost`); `Conservation` counts them, and no
  more are lost than timers have expired (`LostAtMostExpired`).
- A swap throws an exchange id away that it finds at the very last moment
  (`AcapyBackchannel.FoundTooLate`, `SwapThreadIdForExchangeId`).
- A member name that only ends in `"state` is caught by the text substitution too
  (`StateTranslation.StrayIsReplaced`, `StructuralIff`).
- Groups of tag options that mix negated tags with others are not read as documented
  (`Scenarios.DocumentedIff`, with a set of tags to show it from `Misread`).

## Model

| member | source | states |
|---|---|---|
| `Exchanges.Hub.Create` | aries-backchannels/dotnet/server/Controllers/IssueCredentialController.cs:122-129 | a new exchange is cached for its thread; a replaced one, its subscriptions and all other threads stay |
| `Exchanges.Hub.Assign` | aries-backchannels/dotnet/server/Controllers/IssueCredentialController.cs:246 | only that exchange object changes, whether or not it is still the cached one |
| `Exchanges.Hub.Subscribe` | aries-backchannels/dotnet/server/Controllers/IssueCredentialController.cs:310-316 | the subscription waits for the captured object, of its thread alone |
| `Exchanges.Hub.Publish` | aries-backchannels/dotnet/server/Handlers/CredentialHandler.cs:273-278 | an event fires and spends the subscriptions of its type and thread and nobody else's |
| `Exchanges.PublishMoves` | aries-backchannels/dotnet/server/Controllers/IssueCredentialController.cs:310-316 | exactly the objects some pending subscription captured move, and those subscriptions are gone |
| `Runs.Projection` | aries-backchannels/dotnet/server/Controllers/IssueCredentialController.cs:310-316 | however any number of threads interleave, each goes through a run of its own |
| `IssueCredentialController.ContinueHolder` | aries-backchannels/dotnet/server/Controllers/IssueCredentialController.cs:237-255 | on real objects, each stretch of send-proposal, offer processing, send-request and store does the machine's step to its own thread only |
| `IssueCredentialController.ContinueIssuer` | aries-backchannels/dotnet/server/Controllers/IssueCredentialController.cs:139-235 | the same for proposal processing, send-offer and issue |
| `IssueCredentialController.ReceiveHolder` | aries-backchannels/dotnet/server/Handlers/CredentialHandler.cs:185-198 | processing a credential publishes its event to its own thread only |
| `IssueCredentialController.ReceiveIssuer` | aries-backchannels/dotnet/server/Handlers/CredentialHandler.cs:164-183 | the same for a request |
| `IssueCredential.RunsAreCausal` | aries-backchannels/dotnet/server/Controllers/IssueCredentialController.cs:82-295 | in every run, whatever is delivered when, each message was preceded by the one that entitles its sender to send it, and states reveal only what has happened |
| `IssueCredential.SentEarlier` | aries-backchannels/dotnet/server/Controllers/IssueCredentialController.cs:232-276 | a message in flight was sent by the one command that sends it, after what that command needs |
| `IssueCredential.ProcessedEarlier` | aries-backchannels/dotnet/server/Handlers/CredentialHandler.cs:164-198 | a processed request or credential was delivered, and had been sent |
| `IssueCredential.RequestCausedInOrder` | aries-backchannels/dotnet/server/Controllers/IssueCredentialController.cs:229-255 | request-received at the issuer implies, in this order: offer sent, stored by the holder, request sent by send-request, delivered |
| `IssueCredential.CredentialCausedInOrder` | aries-backchannels/dotnet/server/Controllers/IssueCredentialController.cs:237-281 | credential-received at the holder implies the whole chain up to the send inside issue, in order, on one connection |
| `IssueCredential.CausedOnItsOwnThread` | aries-backchannels/dotnet/server/Controllers/IssueCredentialController.cs:237-281 | both for any number of interleaved threads: the causes are actions of the same thread |
| `IssueStates.StateIsLastAssigned` | aries-backchannels/dotnet/server/Controllers/IssueCredentialController.cs:82-295 | in every run each exchange of either agent is at the state that the last action concerning it assigns, by two tables from actions to states |
| `IssueStates.IssuedFromProposal` | aries-backchannels/dotnet/server/Controllers/IssueCredentialController.cs:82-295 | the run from a proposal to a stored credential: the states both agents answer with after each of its nine stretches, to credential-issued and done |
| `IssueStates.StepIff` | aries-backchannels/dotnet/server/Controllers/IssueCredentialController.cs:82-295 | after every run, which commands, deliveries and continuations are possible, read off the actions of the run: a command needs an exchange of its agent, a message its sender, send-request a stored offer, issue a request, and nothing else throws |
| `IssueUpdates.LostIff` | aries-backchannels/dotnet/server/Handlers/CredentialHandler.cs:226-257 | over all runs: a processed request or credential has missed the cached exchange exactly when every exchange subscribed for it before it was processed has been replaced (and there was one); a published offer exactly when none is cached |
| `IssueUpdates.NoLostUpdate` | aries-backchannels/dotnet/server/Controllers/IssueCredentialController.cs:131-134 | in runs that replace no exchange, every processed request and credential has reached the cached exchange, and a published offer has if there is one |
| `IssueUpdates.OfferTakesEffectOnce` | aries-backchannels/dotnet/server/Handlers/CredentialHandler.cs:226-278 | in every run: publishing an offer puts a cached exchange that has not heard of it at offer-received, and changes nothing otherwise |
| `IssueUpdates.UpdateTakesEffect` | aries-backchannels/dotnet/server/Handlers/CredentialHandler.cs:164-198 | in every run: processing a request or credential the cached exchange has not heard of moves it to request-received or credential-received exactly when it was subscribed |
| `IssueUpdates.SingleIffNeverReplaced` | aries-backchannels/dotnet/server/Handlers/CredentialHandler.cs:249-256 | each agent has at most one exchange exactly when no step replaces one |
| `IssueUpdates.LostUpdate` | aries-backchannels/dotnet/server/Handlers/CredentialHandler.cs:226-257 | a reachable state in which the processed credential went to a replaced exchange |
| `IssueUpdates.OfferLost` | aries-backchannels/dotnet/server/Handlers/CredentialHandler.cs:249-278 | a run that replaces nothing, after which an offer is published and lost for good |
| `IssueUpdates.LostForGoodIff` | aries-backchannels/dotnet/server/Handlers/CredentialHandler.cs:226-278 | after every run with a published offer: no continuation gives the holder an exchange exactly when there is none and no handler is about to make one |
| `IssueUpdates.ReplacingExchangeIsDeaf` | aries-backchannels/dotnet/server/Handlers/CredentialHandler.cs:249-256 | a replacing exchange hears of nothing the old one was waiting for |
| `PresentProofController.ContinueProver` | aries-backchannels/dotnet/server/Controllers/PresentProofController.cs:138-162 | on real objects: the middleware's new exchange and the assignment before the send |
| `PresentProofController.ContinueVerifier` | aries-backchannels/dotnet/server/Controllers/PresentProofController.cs:95-199 | creation with its subscription, and done after a successful verification |
| `PresentProofController.ReceiveProver` | aries-backchannels/dotnet/server/Handlers/PresentationAckHandler.cs:50-58 | the guarded move from presentation-sent to done on the cached object |
| `PresentProofController.ReceiveVerifier` | aries-backchannels/dotnet/server/Controllers/PresentProofController.cs:201-207 | a processed presentation fires the verifier's subscription |
| `PresentProof.RunsAreOk` | aries-backchannels/dotnet/server/Controllers/PresentProofController.cs:95-199 | the invariant of all runs, with lost, late and duplicated messages |
| `ProofStates.StateIsLastAssigned` | aries-backchannels/dotnet/server/Controllers/PresentProofController.cs:95-207 | in every run each exchange is at the state that the last action concerning it assigns, by two tables from actions to states |
| `ProofStates.StepIff` | aries-backchannels/dotnet/server/Controllers/PresentProofController.cs:95-207 | the same for presentations: of the handlers under way only a verification without a presentation throws |
| `PresentProof.Agreement` | aries-backchannels/dotnet/server/Controllers/PresentProofController.cs:155-196 | done at the prover implies the verifier's only exchange is done and verified |
| `PresentProof.AgreementOnEveryThread` | aries-backchannels/dotnet/server/Controllers/PresentProofController.cs:155-196 | the same for any number of interleaved threads |
| `PresentProof.AckDroppedIff` | aries-backchannels/dotnet/server/Handlers/PresentationAckHandler.cs:50-58 | an ack is dropped exactly when the cached exchange is still at request-received, which takes two exchanges |
| `PresentProof.OneExchange` | aries-backchannels/dotnet/server/Middlewares/MessageMiddleware.cs:49-68 | without duplicates one request makes one exchange at most |
| `PresentProof.AckNeverDropped` | aries-backchannels/dotnet/server/Controllers/PresentProofController.cs:155-159 | without duplicates every delivered OK ack leaves the prover done |
| `PresentProof.AckDelivered` | aries-backchannels/dotnet/server/Handlers/PresentationAckHandler.cs:50-58 | a reachable state without duplicates whose ack leaves both sides done |
| `PresentProof.DroppedAck` | aries-backchannels/dotnet/server/Middlewares/MessageMiddleware.cs:49-68 | a duplicated request reaches a state whose only ack will be dropped |
| `ConnectionController.CreateInvitation` | aries-backchannels/dotnet/server/Controllers/ConnectionController.cs:76-95 | on real objects: the invited connection and its subscription for the request |
| `ConnectionController.ReceiveInvitation` | aries-backchannels/dotnet/server/Controllers/ConnectionController.cs:97-116 | the invitee's connection, with no subscription yet |
| `ConnectionController.ContinueCommand` | aries-backchannels/dotnet/server/Controllers/ConnectionController.cs:118-189 | subscription before the send, state after it, for accept-invitation, accept-request and send-ping |
| `ConnectionController.Receives` | aries-backchannels/dotnet/server/Middlewares/MessageMiddleware.cs:35-48 | handshake events, and the guard of the trust ping |
| `ConnectionSteps.StateIsLastAssigned` | aries-backchannels/dotnet/server/Controllers/ConnectionController.cs:76-197 | in every run each party is at the state that the last action concerning it assigns, by two tables from actions to states |
| `ConnectionSteps.StepIff` | aries-backchannels/dotnet/server/Controllers/ConnectionController.cs:76-197 | the same for connections: of the commands under way only accept-request without a request throws |
| `Connection.ForwardIff` | aries-backchannels/dotnet/server/Controllers/ConnectionController.cs:118-197 | commands issued at most once: as long as no step went back, the next one does exactly when it comes after what it should have come before |
| `Connection.ForwardRunIff` | aries-backchannels/dotnet/server/Controllers/ConnectionController.cs:118-197 | for every run of commands issued at most once: only forward moves if and only if nothing is overtaken |
| `Connection.AnyForwardIff` | aries-backchannels/dotnet/server/Controllers/ConnectionController.cs:118-197 | after every run, whatever is overtaken or issued again: a step takes a party back exactly when the party is past the state the step assigns |
| `Connection.AnyForwardRunIff` | aries-backchannels/dotnet/server/Controllers/ConnectionController.cs:118-197 | for every run: only forward moves exactly when there is no such step |
| `Connection.GoesBackInRun` | aries-backchannels/dotnet/server/Controllers/ConnectionController.cs:118-197 | the same read off the run: by which state was the last one assigned to the party |
| `Connection.DisciplinedForward` | aries-backchannels/dotnet/server/Controllers/ConnectionController.cs:76-197 | commands issued in order: both parties only move forward in invited, requested, responded, complete |
| `Connection.DisciplinedPingCompletes` | aries-backchannels/dotnet/server/Middlewares/MessageMiddleware.cs:35-48 | commands issued in order: a delivered ping always completes its receiver |
| `Connection.PingCompletesIff` | aries-backchannels/dotnet/server/Middlewares/MessageMiddleware.cs:35-48 | commands issued at most once and nothing overtaken: a ping completes its receiver exactly when the receiver has answered, has the answer, or has pinged |
| `Connection.AnyPingCompletesIff` | aries-backchannels/dotnet/server/Middlewares/MessageMiddleware.cs:35-48 | in every run, whatever is overtaken or issued again: exactly when the receiver's last move to requested, responded or complete was not one to requested |
| `Connection.HandshakeTakesEffectOnce` | aries-backchannels/dotnet/server/Controllers/ConnectionController.cs:191-197 | commands issued at most once, overtaken or not: each subscription fires at most once, so a handshake message delivered again changes nothing |
| `Connection.ResponseOvertakes` | aries-backchannels/dotnet/server/Controllers/ConnectionController.cs:131-136 | a reachable state: the response processed, the invitee back at requested |
| `Connection.PingLost` | aries-backchannels/dotnet/server/Controllers/ConnectionController.cs:159-161 | a reachable state: everything returned, the ping ignored, the inviter never complete |
| `Connection.AcceptedAgain` | aries-backchannels/dotnet/server/Controllers/ConnectionController.cs:118-136 | a reachable state with both parties complete, from which a second accept-invitation ends with the invitee at requested |
| `MessageQueue.RunBinds` | aries-backchannels/python/message_queue.py:7-20 | under every interleaving the lock is exclusive and every queue is bound to its type, but for the one being bound under the lock |
| `MessageQueue.NeverRebound` | aries-backchannels/python/message_queue.py:13-18 | a binding is never overwritten |
| `MessageQueue.OneQueuePerType` | aries-backchannels/python/message_queue.py:7-20 | one queue per type, the same for all callers of the type and for no other, and no look-up fails |
| `MessageQueue.Conservation` | aries-backchannels/python/message_queue.py:23-51 | put = waiting + returned + about to be returned + taken for timed-out pops, in numbers and item by item |
| `MessageQueue.EndsAsDecided` | aries-backchannels/python/message_queue.py:30-32 | in every run: a call has returned exactly if its answer is among the actions, has timed out exactly if its timer's expiry is, and never both |
| `MessageQueue.LostAtMostExpired` | aries-backchannels/python/message_queue.py:30-32 | no more items of a queue are lost than timers have expired |
| `MessageQueue.AnsweredPopReturns` | aries-backchannels/python/message_queue.py:30-36 | an answered pop returns an item of its own type's queue, with the value of the push of that type that put it |
| `MessageQueue.PopReturnsItem` | aries-backchannels/python/message_queue.py:23-36 | a pop that waits while an item does can take the oldest (of a stack: newest) one and return it, timer or no timer |
| `MessageQueue.EachItemOnce` | aries-backchannels/python/message_queue.py:30-48 | no two pops get one item, no two pushes put one |
| `MessageQueue.LeftInOrder` | aries-backchannels/python/message_queue.py:66-93 | a queue is left in the order of the pushes, a stack by its newest item |
| `MessageQueue.RunValues` | aries-backchannels/python/message_queue.py:39-48 | an item is the value of the push that put it, also when that push timed out |
| `MessageQueue.MessageLost` | aries-backchannels/python/message_queue.py:30-32 | a reachable state in which a pop that had given up took a later message |
| `Storage.Store.AddMapping` | aries-backchannels/python/storage.py:17-28 | both maps of the name get the pair, or nothing changes |
| `Storage.Store.PushResource` | aries-backchannels/python/storage.py:106-117 | the message goes to the end of its list, a new id becomes the latest, the index is updated |
| `Storage.Store.PopResource` | aries-backchannels/python/storage.py:120-131 | takes the oldest message of the key or nothing |
| `Storage.Store.PopResourceLatest` | aries-backchannels/python/storage.py:134-150 | takes the newest message of the latest id; IndexError exactly on an empty store |
| `Storage.Store.GetResource` | aries-backchannels/python/storage.py:57-65 | tells a missing list from an empty one |
| `Storage.Store.GetResourceLatest` | aries-backchannels/python/storage.py:68-78 | the newest message of the latest id, or which of two errors |
| `StoreHistory.History` | aries-backchannels/python/storage.py:106-150 | any run, any key: pushed = taken + left as multisets, left is a subsequence of pushed, and pushed = taken then left unless a pop-latest took the newest of several |
| `StoreHistory.LatestIsNewest` | aries-backchannels/python/storage.py:134-138 | the latest id is the one whose first push is newest |
| `StoreHistory.LatestMisses` | aries-backchannels/python/storage.py:139-148 | a pop-latest finds nothing exactly when that id's pushes of the type are all taken |
| `StoreHistory.IndexHoldsTheLast` | aries-backchannels/python/storage.py:17-28 | each map holds what the last push with that key bound |
| `StoreHistory.InverseIff` | aries-backchannels/python/storage.py:17-42 | the two maps are mutual inverses throughout a run exactly when its bindings are one-to-one |
| `StoreHistory.DataIdIsLastThread` | aries-backchannels/python/storage.py:31-35 | the look-up by exchange id answers the thread of the last binding, KeyError, or None |
| `StoreHistory.ExchangeIdIsLastExchange` | aries-backchannels/python/storage.py:38-42 | the look-up by thread id answers the exchange id of the last binding, KeyError, or None |
| `StoreHistory.NamesInterfereIff` | aries-backchannels/python/storage.py:13-14 | two mapping names coincide exactly when equal or overlapping past a dot |
| `StoreHistory.DotFreeNamesDiffer` | aries-backchannels/python/storage.py:13-14 | without a dot in the types, or in the id names, they never interfere |
| `AcapyBackchannel.GetResponse` | aries-backchannels/acapy/acapy_backchannel.py:1892-1906 | at most MAX_TIMEOUT + 1 tries, at most one message taken, the first of the first try that finds one; with webhooks as the only source of messages, `{}` exactly when none was taken |
| `AcapyBackchannel.StaysNonEmpty` | aries-backchannels/acapy/acapy_backchannel.py:415-538 | however the backchannel's webhooks and pops interleave, no stored message is empty |
| `AcapyBackchannel.WebhookFiled` | aries-backchannels/acapy/acapy_backchannel.py:415-538 | a table of the lists each webhook's message goes to by what the message holds: once to each of those, and to no other |
| `AcapyBackchannel.WebhookBound` | aries-backchannels/acapy/acapy_backchannel.py:415-538 | a table of the member each webhook indexes: its value is bound to the thread once for each list, and nothing else is |
| `AcapyBackchannel.FindsOldest` | aries-backchannels/acapy/acapy_backchannel.py:1842-1847 | what a try finds is the pushed messages not yet taken, oldest first |
| `AcapyBackchannel.PollsFindOldest` | aries-backchannels/acapy/acapy_backchannel.py:1842-1847 | that holds in every run that pops no latest message of the type, as none is popped of any type but connection-msg and those a did-exchange caller names |
| `AcapyBackchannel.SwapThreadIdForExchangeId` | aries-backchannels/acapy/acapy_backchannel.py:540-563 | terminates within its bound, never takes a message, and its exact outcome, errors included |
| `AcapyBackchannel.FoundTooLate` | aries-backchannels/acapy/acapy_backchannel.py:540-563 | a v2.0 credential webhook in the last second: the swap can only find its exchange id and raise TimeoutError all the same |
| `AcapyBackchannel.PollStarvesSwap` | aries-backchannels/acapy/acapy_backchannel.py:550-557 | after a poll that took the only message every swap raises IndexError at its first look, whatever comes later |
| `AcapyBackchannel.HandleIssueCredentialV20` | aries-backchannels/acapy/acapy_backchannel.py:459-468 | a v2.0 webhook goes to the credential messages of its thread and, with a revocation id, to its revocation messages, and nowhere else; deletions are ignored; KeyError without a thread id |
| `AcapyBackchannel.HandleIssueCredentialV20Anoncreds` | aries-backchannels/acapy/acapy_backchannel.py:470-490 | files the webhook's message, with the answered ids each in its own member, under the thread found before the wait, whatever happens during it; which calls raise KeyError |
| `AcapyBackchannel.CompletedIs` | aries-backchannels/acapy/acapy_backchannel.py:483-487 | the message filed has revocation_id from cred_rev_id and revoc_reg_id from rev_reg_id where the answer has them, and is the webhook's otherwise, also without a 200 |
| `AcapyBackchannel.AnoncredsFiled` | aries-backchannels/acapy/acapy_backchannel.py:488-490 | that message is added to the thread's revocation messages exactly if it has a revocation id; no other list changes |
| `AcapyBackchannel.BothIdsFiled` | aries-backchannels/acapy/acapy_backchannel.py:483-490 | with both ids answered, the newest revocation message of the thread has each of them where the harness looks for it |
| `AcapyBackchannel.FiledUnderSameThread` | aries-backchannels/acapy/acapy_backchannel.py:459-490 | that is the thread of the v2.0 webhook before it, unless a later push rebinds the exchange |
| `AcapyBackchannel.FiledUnderNoThread` | aries-backchannels/acapy/acapy_backchannel.py:472-474 | with no such webhook the thread is None, or the look-up raises KeyError |
| `AfgoBackchannel.HandleIssueCredentialStates` | aries-backchannels/afgo/afgo_backchannel.py:350-363 | messages are keyed by their piid |
| `AfgoBackchannel.HandleIssueCredentialActions` | aries-backchannels/afgo/afgo_backchannel.py:365-372 | the same for actions |
| `AfgoBackchannel.RunKeyed` | aries-backchannels/afgo/afgo_backchannel.py:350-372 | in every run each credential message is under the thread it names |
| `AfgoBackchannel.RequestResponseIssueCredential` | aries-backchannels/afgo/afgo_backchannel.py:2515-2578 | bounded tries on the latest thread, the fallback that reads a state off the actions message, and the saving of what is handed out |
| `AfgoBackchannel.LatestStays` | aries-backchannels/afgo/afgo_backchannel.py:2559-2572 | polling and issuing never change which id is the latest; what is polled is of that thread |
| `AfgoBackchannel.HandOutIs` | aries-backchannels/afgo/afgo_backchannel.py:2522-2527 | what a poll that finds a message does to every list: the newest of the latest thread goes, copies of it come, nothing else changes |
| `AfgoBackchannel.FallBackIs` | aries-backchannels/afgo/afgo_backchannel.py:2534-2568 | the same for a fall-back: the latest actions message stays with its state written into it |
| `AfgoBackchannel.DetailsKept` | aries-backchannels/afgo/afgo_backchannel.py:2552-2568 | in every run: attaching messages handed out = used by issues, then still kept, in order |
| `AfgoBackchannel.KeptByItsWords` | aries-backchannels/afgo/afgo_backchannel.py:2559-2562 | after any run, a message handed out is kept for its thread, last, exactly if one of two words is part of a name or value in it |
| `AfgoBackchannel.CachedByItsWords` | aries-backchannels/afgo/afgo_backchannel.py:2559-2568 | the same for the copy of an issued credential and its two words |
| `AfgoBackchannel.MentionsIff` | aries-backchannels/afgo/afgo_backchannel.py:2559-2566 | the search of a message's text finds a word exactly when a name or a value has it as a part |
| `AfgoBackchannel.IssueFinds` | aries-backchannels/afgo/afgo_backchannel.py:1525-1531 | an issue finds details exactly when more were handed out than used, and then the oldest of the rest |
| `AfgoBackchannel.IssueFindsKept` | aries-backchannels/afgo/afgo_backchannel.py:1525-1531 | end to end: with none kept before, the issue that follows the hand-out of such a message, whatever comes between, takes that message |
| `AfgoBackchannel.CredentialForIssue` | aries-backchannels/afgo/afgo_backchannel.py:1517-1531 | issue uses the state message itself or takes the kept details |
| `AfgoBackchannel.StatedTwice` | aries-backchannels/afgo/afgo_backchannel.py:2543-2547 | writing the state into the shared message again changes nothing, so kept copies stay the same message |
| `AfgoBackchannel.StatedIs` | aries-backchannels/afgo/afgo_backchannel.py:2543-2547 | the message given out for an actions message has the state its type stands for in two members, and is the same otherwise |
| `Strings.ReplaceSkips` | aries-backchannels/acapy/acapy_backchannel.py:2307-2308 | text in which no occurrence starts passes through a replacement |
| `Strings.SplitJoin` | aries-test-harness/util/scenarios.py:29-37 | splitting undoes joining |
| `Strings.JoinSplit` | aries-test-harness/util/scenarios.py:29-37 | joining undoes splitting |
| `Strings.LessIff` | aries-test-harness/agent_backchannel_client.py:61 | keys are ordered by the first position in which they differ |
| `Json.RoundTrip` | aries-test-harness/agent_backchannel_client.py:56-63 | json.loads undoes json.dumps on every value |
| `JsonWriter.WrittenIff` | aries-test-harness/agent_backchannel_client.py:63 | json.dumps writes one text of the grammar for a value: no repeated names, one space after commas and colons, one spelling for each character |
| `JsonGrammar.LoadsIff` | aries-test-harness/agent_backchannel_client.py:56-57 | json.loads accepts exactly the texts of the JSON grammar, whatever their whitespace, spellings of characters and repeated names, and reads what they mean |
| `JsonGrammar.DictIs` | aries-test-harness/agent_backchannel_client.py:56-57 | a dict of pairs has each name once, where it first came, with the value that came last |
| `JsonGrammar.WordIff` | aries-test-harness/agent_backchannel_client.py:56-57 | the literals read are the grammar's words and numerals |
| `Json.LoadsIsGood` | aries-test-harness/agent_backchannel_client.py:56-57 | what is read has one member per name and weighs no more than its text, which is why the sort terminates |
| `StateTranslation.SubstitutionUpdates` | aries-backchannels/acapy/acapy_backchannel.py:2307-2357 | for every value: replacing in the text is an update of members, at any depth, and touches nothing else |
| `StateTranslation.StructuralIff` | aries-backchannels/acapy/acapy_backchannel.py:2307-2357 | it is the update of the state members exactly when no other name ends in `"state` with the old state |
| `StateTranslation.StrayIsReplaced` | aries-backchannels/acapy/acapy_backchannel.py:2307-2357 | whatever goes before `"state` in a name, a member of that name loses the old state, which no update of state members does |
| `StateTranslation.QuoteFreeIsStructural` | aries-backchannels/acapy/acapy_backchannel.py:2307-2357 | with names free of quotes, reading the new text gives the value with its states set |
| `StateTranslation.NamedIff` | aries-backchannels/acapy/acapy_backchannel.py:2307-2308 | which names the pattern can match, in their escaped text and in themselves |
| `Canonical.Idempotent` | aries-test-harness/agent_backchannel_client.py:53-64 | what is logged has its dict keys in order at every level, and sorting it again changes nothing |
| `Canonical.LoggedAlikeIff` | aries-test-harness/agent_backchannel_client.py:53-64 | two payloads give the same text exactly when equal up to key order along dict paths, JSON text counting as its dict |
| `Canonical.LoggedIsSame` | aries-test-harness/agent_backchannel_client.py:53-64 | the logged text still is the payload, but for key order |
| `Canonical.RaisesIff` | aries-test-harness/agent_backchannel_client.py:53-64 | the log call raises exactly when some path of names leads, from dict to dict, to text in braces that is not a JSON dict |
| `Canonical.ViewIs` | aries-test-harness/agent_backchannel_client.py:55-59 | a payload counts as the dict it is or, as text in braces, means by the JSON grammar; text in braces that means none is what makes json.loads or dict raise |
| `Canonical.SortKeysInOrder` | aries-test-harness/agent_backchannel_client.py:61-62 | sorting a dict's items orders the names and keeps what each stands for |
| `ProcessArgs.StartArgs` | aries-backchannels/acapy/acapy_backchannel.py:2021-2034 | the in-place deletion loop computes: head, groups less one first group per overriding name, then the arguments |
| `ProcessArgs.FlagCounts` | aries-backchannels/acapy/acapy_backchannel.py:2021-2034 | each token with two dashes comes as often in the command line started as in the defaults or in the arguments, whichever is more |
| `ProcessArgs.NothingDeleted` | aries-backchannels/acapy/acapy_backchannel.py:2021-2034 | arguments that repeat no such token of the defaults are only added at the end |
| `ProcessArgs.RemoveAllKeeps` | aries-backchannels/acapy/acapy_backchannel.py:2025-2033 | a group stays exactly when at least as many groups of its flag come before it as names override the flag; order is kept |
| `ProcessArgs.NoDuplicateIff` | aries-backchannels/acapy/acapy_backchannel.py:2021-2024 | no default of a flag is left exactly when the arguments repeat it at least as often |
| `ProcessArgs.FlattenGroups` | aries-backchannels/acapy/acapy_backchannel.py:2031-2033 | the groups are the command line |
| `PrefixFilter.Lines` | aries-backchannels/python/utils.py:29-42 | typed characters conserved; each line but the last ends in its only newline, a token of its own; newline count + 1 lines for a non-empty stream |
| `PrefixFilter.LinesUnique` | aries-backchannels/python/utils.py:29-42 | a text splits into such lines in one way |
| `PrefixFilter.Filter` | aries-backchannels/python/utils.py:44-53 | the prefix before each line, once, for each kind of prefix |
| `Scenarios.NormaliseTwice` | aries-test-harness/util/scenarios.py:28-39 | normalisation is idempotent; which options raise IndexError |
| `Scenarios.OnlyMissingAts` | aries-test-harness/util/scenarios.py:28-37 | an option and what is made of it differ by the missing `@` signs alone, tag by tag |
| `Scenarios.PassesIff` | aries-test-harness/util/scenarios.py:42-50 | how every group is read, mixed ones included: after a negated tag an AND of the negated ones, otherwise an OR of the others |
| `Scenarios.DocumentedIff` | aries-test-harness/util/scenarios.py:42-50 | a group is read as the documented OR on every set of tags exactly when it is all positive or one negated tag |
| `Scenarios.AndOfOrs` | README.md:125 | with such groups the options are an AND of ORs |
| `Scenarios.Misread` | aries-test-harness/util/scenarios.py:44-49 | for every other group, tags on which it is not |
| `Scenarios.KeptIff` | aries-test-harness/util/scenarios.py:59-64 | a scenario is kept exactly when its and its feature's tags are selected |
| `Scenarios.NeverMore` | aries-test-harness/util/scenarios.py:42-50 | one more option never adds a scenario |
| `Scenarios.KeptAgain` | aries-test-harness/util/scenarios.py:65-69 | the same options keep every scenario again, although its tags were rewritten |
| `Scenarios.SelectedAgain` | aries-test-harness/util/scenarios.py:65-69 | the rewriting loses no tag the options ask for |
| `Scenarios.RewrittenIs` | aries-test-harness/util/scenarios.py:67-69 | which tags a selected scenario is left with, and that the relevant ones are sorted |
| `Scenarios.ParseOptions` | aries-test-harness/util/scenarios.py:39-44 | the groups of the options, or IndexError |
| `Scenarios.SelectFeatures` | aries-test-harness/util/scenarios.py:22-72 | copies of the features with a selected scenario, in order, none empty; scenario objects rewritten in place, all others untouched |
| `Scenarios.NonEmptyIs` | aries-test-harness/util/scenarios.py:70-71 | no empty feature survives and no other is dropped |
| `LegacyIds.SchemaParts` | aries-test-harness/features/steps/0036-issue-credential.py:300-305 | splitting the legacy id gives issuer, name and version; IndexError exactly below six fields |
| `LegacyIds.CredDefParts` | aries-backchannels/acapy/acapy_backchannel.py:827-829 | the fifth part of a legacy credential definition id is the tag the duplicate check compares |
| `LegacyIds.ConvertedAlikeIff` | aries-test-harness/features/steps/0036-issue-credential.py:292-305 | two ids convert alike exactly when three fields agree; the two kinds never collide |
| `LegacyIds.RoundTrip` | aries-test-harness/features/steps/0036-issue-credential.py:292-305 | for any namespace and parts free of colons and slashes |

## Left out

- Ledger, wallets, AnonCreds, HTTP servers and clients, start-up, logging and Docker: no property of their own.
- The connectionless branch of request processing, CleanCredentialPreviewAttributes and the credential id that store copies: they touch no state of an exchange.
- Exchanges.Hub.Publish: the event is matched by thread id; the connection controller matches by record id, which is the same one-to-one key.
- GET requests of the .NET controllers: they only read.
- IssueCredential.RunsAreCausal: roles do not mix on one thread, and a thread is started once.
- Presentation acks whose status is not OK: the handler ignores them; no modelled agent sends one.
- `clear_all` and `clear_all_stacks`: they assign a local name and change nothing shared.
- `store_resource`, `get_resources` and `delete_resource`: no modelled caller; values that are not lists are kept apart.
- The index look-ups of the store read two dictionaries without the lock; since entries are never removed they are one step here.
- AcapyBackchannel.SwapThreadIdForExchangeId: asks for a positive sleep time, as all callers pass; with none the source may look for ever.
- AfgoBackchannel.RequestResponseIssueCredential: asks that messages are filed under their thread, which holds in every run; messages are flat maps, so the text test for an attachment is a test on names and values; the present-proof twin is the same loop.
- Json.RoundTrip: numbers keep their text, so Python's re-rendering of a float (1.0e5 as 100000.0) is not modelled; nor are lone surrogates, which a character here cannot be.
- JsonGrammar.LoadsIff: Python's limits on nesting and on the digits of an integer are not modelled.
- Canonical.RaisesIff: a text with a lone surrogate escape counts as no JSON here, although Python reads it, because a character here cannot be a surrogate.
- The branches of the state translation that replace the bare state: not structural.
- The choice of the translation table, and the translation tables themselves: finite.
- ProcessArgs.StartArgs: starting the process with the arguments.
- get_acapy_version_as_float and flatten: one expression each.
- Scenarios.SelectFeatures: needs each scenario object to belong to one feature, as the reader of feature files makes them; a test id's three digits are ASCII digits.
- The JavaScript, Credo, AFGO connection and mobile backchannels, and the behave steps: wrappers over endpoints.
