# Live poll voting: broadcast hub and vote step

This project is a Dafny model of the two pieces of logic in a small live-poll
server:

- **The broadcast hub**, `VotingPubSub` in `src/utils/voting-pub-sub.ts`. It keeps
  a registry from poll id (the topic) to an ordered list of subscriber
  callbacks. `subscribe` creates the topic when it is missing and appends the
  subscriber. `publish` calls every subscriber of a topic in order, and does
  nothing for an unknown topic.
- **The vote step**, the body of the `POST /polls/:pollId/votes` handler in
  `src/http/routes/vote-on-poll.ts`. It works on three stores:
  - the vote table, with a unique key on (pollId, sessionId);
  - the per-poll option counters, kept in a Redis sorted set and moved with
    `ZINCRBY`;
  - the hub.

  A request repeating the session's vote is rejected with 400. A request that
  changes the vote goes through these steps in order: delete the old row,
  decrement the old option, publish the old option's count, insert the new row,
  increment the new option, publish the new option's count. A first vote only
  does the last three steps. Both kinds of accepted request answer 201.

Files:

- `wrappers.dfy`: `Option`.
- `pubsub.dfy`, module `PubSub`:
  - the class `VotingPubSub`, whose fields are `channels` (the registry) and
    `log`;
  - `log` records every subscriber call as a `Delivery` (topic, subscriber,
    message). Subscribers are opaque ids here; in the program they are
    callbacks.
- `vote_on_poll.dfy`, module `VoteOnPoll`:
  - the specification function `Cast`. It gives a request's outcome and the
    ordered list of its effects (`DeleteVote`, `CreateVote`, `IncrBy`, `Publish`);
  - `ApplyAll`, which replays those effects on the stores;
  - the class `VotingServer`. Its fields are the vote table (`votes`), the
    counter store (`counters`) and the hub, plus a ghost `trace` of every store
    step and publish in the order performed. Only the four single-step
    methods (`DeleteRow`, `InsertRow`, `IncrementCounter`, `Announce`) write
    the trace, each appending the step it has just performed. The method
    `VoteOnPoll` does the handler's steps in place and is proved to agree with
    `Cast` and `ApplyAll`, and its `trace` grows by exactly `Cast`'s effect
    list, so the order of the steps is checked, not only their end result.

The vote table is a sequence of rows (id, pollId, sessionId, pollOptionId)
rather than a map keyed by (pollId, sessionId). With a map, "at most one vote
per (poll, session)" would hold by construction. With rows it is the invariant
`UniqueVotes`, which the step is proved to keep. A second invariant,
`CountersMatch`, says that every counter equals the number of rows voting for
that (poll, option). The step is proved to keep it too.

The program's truthiness test on the session cookie (`if (sessionId)`) treats
an empty cookie value like a missing one. The model does the same (`Truthy`).
`ZINCRBY` on an option that is not yet in the set starts from 0. The model does
the same (`Count`).

## Notes on the program's behaviour

- The 201 answer carries no body. The session identifier reaches the client
  only through the cookie. `Created201(sessionId)` records which session the
  request used.
- There is no unsubscribe.
- A subscriber that throws is not isolated.
- The same message value is passed to every subscriber.

## Model

| member | source | states |
|---|---|---|
| `PubSub.Subscribed` | src/utils/voting-pub-sub.ts:7-13 | the topic's list becomes the old list (empty if the topic was absent) with the subscriber appended; the topic now exists; every other topic's list is unchanged |
| `PubSub.VotingPubSub.Subscribe` | src/utils/voting-pub-sub.ts:7-13 | creating the missing topic and then pushing leaves `channels` equal to `Subscribed` of the old registry; the delivery log is untouched |
| `PubSub.SubscribeNoDedup` | src/utils/voting-pub-sub.ts:12 | no de-duplication: each subscribe adds one occurrence of the subscriber, so subscribing twice lists it twice at the end |
| `PubSub.VotingPubSub.Publish` | src/utils/voting-pub-sub.ts:15-21 | an unknown topic makes no call; otherwise the calls made are exactly `Fanout` of the topic's list and are appended to the log; the registry is not modified |
| `PubSub.Fanout` | src/utils/voting-pub-sub.ts:18-20 | one publish to a list of subscribers makes exactly as many calls as the list has entries |
| `PubSub.FanoutDeliversEach` | src/utils/voting-pub-sub.ts:18-20 | one publish calls each subscriber of the list exactly once, in list order, all with the identical message and topic |
| `PubSub.VotingPubSub.constructor` | src/utils/voting-pub-sub.ts:5 | a new hub has no topics and has made no calls |
| `VoteOnPoll.FindVote` | src/http/routes/vote-on-poll.ts:24-31 | the lookup by (pollId, sessionId) returns a row of the table with that key, and returns nothing exactly when no row has that key |
| `VoteOnPoll.FindVoteUnique` | src/http/routes/vote-on-poll.ts:24-31 | under the unique key, any row with the key is the one the lookup returns |
| `VoteOnPoll.Without` | src/http/routes/vote-on-poll.ts:38-42 | deleting by id keeps exactly the rows whose id differs |
| `VoteOnPoll.WithoutKeepsUnique` | src/http/routes/vote-on-poll.ts:38-42 | deleting a row keeps ids unique and at most one vote per (poll, session) |
| `VoteOnPoll.ZIncrBy` | src/http/routes/vote-on-poll.ts:43 | `ZINCRBY` moves the (poll, option) counter by exactly delta, starting from 0 when absent, and leaves every other counter unchanged |
| `VoteOnPoll.Truthy` | src/http/routes/vote-on-poll.ts:23 | a missing cookie and an empty cookie are both falsy; any non-empty cookie is truthy |
| `VoteOnPoll.Withdraw` | src/http/routes/vote-on-poll.ts:38-47 | withdrawing a vote inserts nothing and publishes exactly one message: the previous option with its counter after the decrement |
| `VoteOnPoll.Record` | src/http/routes/vote-on-poll.ts:61-74 | recording a vote deletes nothing, only increments by 1, and publishes exactly one message: the option with its counter after the increment |
| `VoteOnPoll.Cast` | src/http/routes/vote-on-poll.ts:21-76 | a request is rejected exactly when the session's previous vote in the poll is for the same option, and then has no effects; an accepted request answers with the cookie's session, or the minted one when the cookie is falsy |
| `VoteOnPoll.DeliveriesArePublishedFanouts` | src/utils/voting-pub-sub.ts:15-21 | the subscriber calls of a request are the fan-outs, in order, of the (topic, message) pairs it publishes |
| `VoteOnPoll.CastDeliversToPoll` | src/http/routes/vote-on-poll.ts:33-74 | every subscriber call a request makes is for topic pollId, and a rejected request calls no subscriber |
| `VoteOnPoll.VotingServer.DeleteRow` | src/http/routes/vote-on-poll.ts:38-42 | the table loses exactly the rows with the given id, and the delete is appended to the trace |
| `VoteOnPoll.VotingServer.InsertRow` | src/http/routes/vote-on-poll.ts:61-67 | the row is appended to the table, and the insert is appended to the trace |
| `VoteOnPoll.VotingServer.Announce` | src/http/routes/vote-on-poll.ts:44-47 | the hub log grows by the fan-out of the message to the topic's subscribers, and the publish is appended to the trace |
| `VoteOnPoll.VotingServer.IncrementCounter` | src/http/routes/vote-on-poll.ts:69 | the counter store becomes `ZIncrBy` of the old one, the value returned is the member's post-increment count, and the step is appended to the trace |
| `VoteOnPoll.VotingServer.WithdrawVote` | src/http/routes/vote-on-poll.ts:38-47 | delete, decrement and publish leave the stores and the hub log as replaying `Withdraw` would, and are performed in exactly `Withdraw`'s order |
| `VoteOnPoll.VotingServer.RecordVote` | src/http/routes/vote-on-poll.ts:61-74 | insert, increment and publish leave the stores and the hub log as replaying `Record` would, and are performed in exactly `Record`'s order |
| `VoteOnPoll.VotingServer.VoteOnPoll` | src/http/routes/vote-on-poll.ts:21-76 | the handler's outcome, stores and hub log are those of `Cast` and `ApplyAll`; its steps are performed in exactly the order of `Cast`'s effects; a rejection changes neither the stores nor the hub log; it keeps at most one vote per (poll, session) and keeps counters in agreement with the table |
| `VoteOnPoll.CastRejectsRepeat` | src/http/routes/vote-on-poll.ts:33-36 | rejection (400) happens exactly when the session already voted for the same option; then the table, the counters and the published messages are all unchanged; otherwise the outcome is 201 |
| `VoteOnPoll.CastChangesVote` | src/http/routes/vote-on-poll.ts:37-74 | a changed vote performs delete old, decrement old, publish old (count minus 1), insert new, increment new, publish new (count plus 1), in that order |
| `VoteOnPoll.CastChangedEffects` | src/http/routes/vote-on-poll.ts:37-74 | a changed vote's effects are the withdrawal followed by the record, the record reading the counters after the decrement |
| `VoteOnPoll.CastWithoutSession` | src/http/routes/vote-on-poll.ts:51-74 | with no session cookie the minted session is used; nothing is deleted and no counter goes down; exactly one message is published; the new row is appended |
| `VoteOnPoll.CastAfterFirstVote` | src/http/routes/vote-on-poll.ts:61-74 | with no previous vote the request is accepted, adds one row, increments the option and publishes its post-increment count |
| `VoteOnPoll.CastAfterChangedVote` | src/http/routes/vote-on-poll.ts:37-67 | after a changed vote the table is the old one without the previous row plus the new row, and the counters are decremented for the old option and incremented for the new one |
| `VoteOnPoll.CastPublishesChangedVote` | src/http/routes/vote-on-poll.ts:43-74 | a changed vote publishes two messages, old option first, each carrying that option's count in the final counter store |
| `VoteOnPoll.CastAfter` | src/http/routes/vote-on-poll.ts:37-67 | the table after any accepted request: the new row appended, after the previous row is removed if there was one |
| `VoteOnPoll.RepeatedVoteRejected` | src/http/routes/vote-on-poll.ts:33-36 | repeating an accepted vote, with the (non-empty) session it used, is rejected with 400 and changes neither the stores nor the published messages |
| `VoteOnPoll.CastRecordsVote` | src/http/routes/vote-on-poll.ts:24-67 | after a 201, the lookup for (pollId, session) returns the new row with the requested option, and the lookup for every other (poll, session) key is unchanged |
| `VoteOnPoll.CastInsertKeyFree` | src/http/routes/vote-on-poll.ts:23-67 | just before the insert the table has no vote for (pollId, session), so the insert never meets the unique key |
| `VoteOnPoll.CastMovesCounters` | src/http/routes/vote-on-poll.ts:43-74 | after a 201 the requested option's counter is up by exactly 1 and the previous option's (if any) down by exactly 1; every other (poll, option) counter is unchanged; the last message carries the post-increment count |
| `VoteOnPoll.CastPublishCount` | src/http/routes/vote-on-poll.ts:33-74 | every message goes to topic pollId; a rejection publishes 0 messages, a first vote 1 and a changed vote 2 |
| `VoteOnPoll.CastKeepsUnique` | src/http/routes/vote-on-poll.ts:24-67 | if each (poll, session) had at most one vote and ids were unique before the request, the same holds after |
| `VoteOnPoll.CastKeepsCountersMatch` | src/http/routes/vote-on-poll.ts:38-69 | if every counter equalled the number of votes for its (poll, option) before the request, it does after |
| `VoteOnPoll.TallyWithout` | src/http/routes/vote-on-poll.ts:38-43 | deleting a row by its unique id removes exactly that row from every per-option tally |
| `VoteOnPoll.VotingScenario` | src/http/routes/vote-on-poll.ts:21-76 | from empty stores: a first vote for opt-1 gives count 1 and message (opt-1, 1); the same vote again is rejected with nothing changed; switching to opt-2 gives counts 0 and 1 and messages (opt-1, 0) then (opt-2, 1) |

## Left out

- HTTP routing, zod validation of the body and params, and the response bodies. `pollId` and `pollOptionId` are taken as already-valid strings.
- Cookie issuance and signing. The cookie is set with `signed: true` (src/http/routes/vote-on-poll.ts:56) but read back through `req.cookies` (line 21) without being unsigned. If the cookie plugin signs as it documents, a later request carries the signed string rather than the stored identifier, the lookup at lines 24-31 misses the earlier vote, and a repeated vote is accepted with 201 instead of rejected with 400 (not executed). The model assumes the cookie value is the identifier the vote was stored under, so `VotingScenario` describes the intended behaviour.
- `randomUUID` and the row id the table generates. Both are parameters of the step (`freshSession`, `freshVoteId`). The step requires them unused in the table, as the collision-free allocator promises.
- `VoteOnPoll.VotingServer.VoteOnPoll`: requires `UniqueVotes` on entry. This is the database's unique constraint, which the program relies on but does not check itself.
- The real database and Redis clients. They are in-memory values here. Redis sorted-set scores are floating point, and the `Number(votes)` conversion is not modelled: counts are unbounded integers.
- Interleaving of concurrent requests at the `await` points, and store failures partway through a request. One request is modelled as atomic, so the partial-mutation window between delete and insert is not captured.
- Subscriber callbacks. They become opaque ids, and a call is a `Delivery` in the hub's log. What a callback does, and an exception thrown from one, are not modelled.
- The module-level singleton `voting`. The server holds an explicit hub instance.
- The registry is a plain object in the program. Keys inherited from the object prototype (such as `constructor`) would behave differently there. In the model, every topic key is an ordinary map key.
