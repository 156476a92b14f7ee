/**
 * The vote step behind POST /polls/:pollId/votes, without its HTTP, ORM and
 * cache plumbing: a state transition over the vote table (the durable store,
 * with a unique key on (pollId, sessionId)), the per-poll option counters
 * (the cache's sorted sets, moved with ZINCRBY) and the broadcast hub.
 *
 * `Cast` is the specification: the outcome and the ordered list of effects
 * one request performs.  `VotingServer.VoteOnPoll` performs those effects in
 * place and is proved to leave the stores as replaying that list would.
 */
module VoteOnPoll {

  import opened Wrappers
  import opened PubSub

  /** A row of the vote table. */
  datatype Vote = Vote(id: string, pollId: string, sessionId: string, pollOptionId: string)

  /** The HTTP answer: 400 for a repeated vote, 201 for an accepted one (with the session used). */
  datatype Outcome = Rejected400 | Created201(sessionId: string)

  /** The counter store: (poll, option) to its vote count; a missing member counts 0. */
  type Counters = map<(string, string), int>

  datatype Store = Store(votes: seq<Vote>, counters: Counters)

  /** The side effects of one request, in the order the handler performs them. */
  datatype Effect =
    | DeleteVote(id: string)
    | CreateVote(vote: Vote)
    | IncrBy(pollId: string, pollOptionId: string, delta: int)
    | Publish(topic: string, message: Message)

  datatype Transition = Transition(outcome: Outcome, effects: seq<Effect>)

  // ---------------------------------------------------------------------------
  // The vote table

  /** Two rows that may coexist: different ids and different (poll, session) keys. */
  predicate Apart(v: Vote, w: Vote)
  {
    v.id != w.id && (v.pollId != w.pollId || v.sessionId != w.sessionId)
  }

  /** The table's constraints: unique ids and at most one vote per (poll, session). */
  predicate UniqueVotes(votes: seq<Vote>)
  {
    forall i, j :: 0 <= i < j < |votes| ==> Apart(votes[i], votes[j])
  }

  predicate KeyMatches(v: Vote, pollId: string, sessionId: string)
  {
    v.pollId == pollId && v.sessionId == sessionId
  }

  /** The lookup by the unique key (pollId, sessionId). */
  function FindVote(votes: seq<Vote>, pollId: string, sessionId: string): (r: Option<Vote>)
    ensures r.Some? ==> r.value in votes && KeyMatches(r.value, pollId, sessionId)
    ensures r.None? <==> forall v :: v in votes ==> !KeyMatches(v, pollId, sessionId)
  {
    if votes == [] then None
    else if KeyMatches(votes[0], pollId, sessionId) then Some(votes[0])
    else FindVote(votes[1..], pollId, sessionId)
  }

  /** The table after deleting the row with id `id`. */
  function Without(votes: seq<Vote>, id: string): (r: seq<Vote>)
    ensures forall v :: v in r <==> v in votes && v.id != id
  {
    if votes == [] then []
    else if votes[0].id == id then Without(votes[1..], id)
    else [votes[0]] + Without(votes[1..], id)
  }

  /** No row of the table uses `sessionId` (a freshly minted session). */
  predicate SessionUnused(votes: seq<Vote>, sessionId: string)
  {
    forall v :: v in votes ==> v.sessionId != sessionId
  }

  /** No row of the table has id `id` (a freshly generated row id). */
  predicate VoteIdUnused(votes: seq<Vote>, id: string)
  {
    forall v :: v in votes ==> v.id != id
  }

  lemma {:induction false} UniqueVotesCons(v: Vote, rest: seq<Vote>)
    ensures UniqueVotes([v] + rest) <==> UniqueVotes(rest) && forall w :: w in rest ==> Apart(v, w)
  {
    var s := [v] + rest;
    assert s[1..] == rest;
    if UniqueVotes(s) {
      forall w | w in rest ensures Apart(v, w) {
        var k :| 0 <= k < |rest| && rest[k] == w;
        assert s[0] == v && s[k + 1] == w;
        assert Apart(s[0], s[k + 1]);
      }
    }
    if UniqueVotes(rest) && forall w :: w in rest ==> Apart(v, w) {
      forall i, j | 0 <= i < j < |s| ensures Apart(s[i], s[j]) {
        if i > 0 {
          assert s[i] == rest[i - 1] && s[j] == rest[j - 1];
        } else {
          assert s[j] in rest;
        }
      }
    }
  }

  /** Deleting a row keeps the table's constraints. */
  lemma {:induction false} WithoutKeepsUnique(votes: seq<Vote>, id: string)
    requires UniqueVotes(votes)
    ensures UniqueVotes(Without(votes, id))
  {
    if votes != [] {
      assert votes == [votes[0]] + votes[1..];
      UniqueVotesCons(votes[0], votes[1..]);
      WithoutKeepsUnique(votes[1..], id);
      if votes[0].id != id {
        UniqueVotesCons(votes[0], Without(votes[1..], id));
      }
    }
  }

  /** Appending a row that clashes with no existing row keeps the table's constraints. */
  lemma AppendKeepsUnique(votes: seq<Vote>, v: Vote)
    requires UniqueVotes(votes)
    requires forall w :: w in votes ==> Apart(w, v)
    ensures UniqueVotes(votes + [v])
  {
    var s := votes + [v];
    forall i, j | 0 <= i < j < |s| ensures Apart(s[i], s[j]) {
      if j == |votes| {
        assert s[i] in votes;
      } else {
        assert s[i] == votes[i] && s[j] == votes[j];
      }
    }
  }

  /** Under the unique key, a row with the key is the one the lookup finds. */
  lemma FindVoteUnique(votes: seq<Vote>, v: Vote)
    requires UniqueVotes(votes)
    requires v in votes
    ensures FindVote(votes, v.pollId, v.sessionId) == Some(v)
  {
    var r := FindVote(votes, v.pollId, v.sessionId);
    var i :| 0 <= i < |votes| && votes[i] == r.value;
    var j :| 0 <= j < |votes| && votes[j] == v;
    assert KeyMatches(votes[i], v.pollId, v.sessionId) && KeyMatches(votes[j], v.pollId, v.sessionId);
  }

  /** Under the unique key, what the lookup returns is determined by membership alone. */
  lemma FindVoteByMembership(votes: seq<Vote>, other: seq<Vote>, pollId: string, sessionId: string)
    requires UniqueVotes(votes) && UniqueVotes(other)
    requires forall v :: KeyMatches(v, pollId, sessionId) ==> (v in votes <==> v in other)
    ensures FindVote(votes, pollId, sessionId) == FindVote(other, pollId, sessionId)
  {
    var r := FindVote(votes, pollId, sessionId);
    if r.Some? {
      FindVoteUnique(other, r.value);
    }
  }

  // ---------------------------------------------------------------------------
  // The counter store

  /** ZSCORE: the count of `pollOptionId` in poll `pollId`, 0 when absent. */
  function Count(counters: Counters, pollId: string, pollOptionId: string): int
  {
    if (pollId, pollOptionId) in counters then counters[(pollId, pollOptionId)] else 0
  }

  /** ZINCRBY pollId delta pollOptionId, as a new counter store. */
  function ZIncrBy(counters: Counters, pollId: string, pollOptionId: string, delta: int): (r: Counters)
    ensures Count(r, pollId, pollOptionId) == Count(counters, pollId, pollOptionId) + delta
    ensures forall p, o :: (p, o) != (pollId, pollOptionId) ==> Count(r, p, o) == Count(counters, p, o)
  {
    counters[(pollId, pollOptionId) := Count(counters, pollId, pollOptionId) + delta]
  }

  // ---------------------------------------------------------------------------
  // The specification of one request

  /** JavaScript truthiness of the session cookie: absent and "" are both false. */
  predicate Truthy(cookie: Option<string>): (b: bool)
    ensures cookie.None? ==> !b
    ensures cookie == Some("") ==> !b
    ensures cookie.Some? && |cookie.value| > 0 ==> b
  {
    cookie.Some? && cookie.value != ""
  }

  /** Removing the previous vote: delete it, decrement its option, announce the new count. */
  function Withdraw(counters: Counters, pollId: string, previous: Vote): (r: seq<Effect>)
    ensures forall e :: e in r ==> !e.CreateVote?
    ensures Published(r)
         == [(pollId, Message(previous.pollOptionId,
                              Count(ZIncrBy(counters, pollId, previous.pollOptionId, -1), pollId, previous.pollOptionId)))]
  {
    var r := [ DeleteVote(previous.id),
               IncrBy(pollId, previous.pollOptionId, -1),
               Publish(pollId, Message(previous.pollOptionId, Count(counters, pollId, previous.pollOptionId) - 1)) ];
    UnrollPublished3(r);
    r
  }

  /** Recording the new vote: insert it, increment its option, announce the new count. */
  function Record(counters: Counters, pollId: string, sessionId: string, pollOptionId: string, voteId: string)
    : (r: seq<Effect>)
    ensures forall e :: e in r ==> !e.DeleteVote? && (e.IncrBy? ==> e.delta == 1)
    ensures Published(r)
         == [(pollId, Message(pollOptionId, Count(ZIncrBy(counters, pollId, pollOptionId, 1), pollId, pollOptionId)))]
  {
    var r := [ CreateVote(Vote(voteId, pollId, sessionId, pollOptionId)),
               IncrBy(pollId, pollOptionId, 1),
               Publish(pollId, Message(pollOptionId, Count(counters, pollId, pollOptionId) + 1)) ];
    UnrollPublished3(r);
    r
  }

  /**
   * One request: the outcome and the effects, in order.  `freshSession`
   * stands for the identifier minted when no session cookie is present,
   * `freshVoteId` for the id the table gives the new row.
   */
  function Cast(s: Store, pollId: string, pollOptionId: string, cookie: Option<string>,
                freshSession: string, freshVoteId: string): (t: Transition)
    ensures var previous := PreviousVote(s, pollId, cookie);
            t.outcome == Rejected400 <==> previous.Some? && previous.value.pollOptionId == pollOptionId
    ensures t.outcome == Rejected400 ==> t.effects == []
    ensures t.outcome.Created201? ==> t.outcome.sessionId == if Truthy(cookie) then cookie.value else freshSession
  {
    if !Truthy(cookie) then
      Transition(Created201(freshSession), Record(s.counters, pollId, freshSession, pollOptionId, freshVoteId))
    else
      match FindVote(s.votes, pollId, cookie.value)
      case None =>
        Transition(Created201(cookie.value), Record(s.counters, pollId, cookie.value, pollOptionId, freshVoteId))
      case Some(previous) =>
        if previous.pollOptionId == pollOptionId then Transition(Rejected400, [])
        else
          var afterWithdraw := ZIncrBy(s.counters, pollId, previous.pollOptionId, -1);
          Transition(Created201(cookie.value),
                     Withdraw(s.counters, pollId, previous)
                     + Record(afterWithdraw, pollId, cookie.value, pollOptionId, freshVoteId))
  }

  /** The stores after one effect; a publish leaves them as they are. */
  function Apply(s: Store, e: Effect): Store
  {
    match e
    case DeleteVote(id) => s.(votes := Without(s.votes, id))
    case CreateVote(v) => s.(votes := s.votes + [v])
    case IncrBy(p, o, d) => s.(counters := ZIncrBy(s.counters, p, o, d))
    case Publish(_, _) => s
  }

  /** The stores after a list of effects, applied in order. */
  function ApplyAll(s: Store, effects: seq<Effect>): Store
    decreases effects
  {
    if effects == [] then s else ApplyAll(Apply(s, effects[0]), effects[1..])
  }

  /** The subscriber calls a list of effects makes through a hub with registry `channels`. */
  function Deliveries(channels: map<string, seq<SubId>>, effects: seq<Effect>): seq<Delivery>
  {
    if effects == [] then []
    else
      (match effects[0]
       case Publish(topic, m) => Fanout(topic, ChannelOf(channels, topic), m)
       case _ => [])
      + Deliveries(channels, effects[1..])
  }

  /** The (topic, message) pairs a list of effects publishes, in order. */
  function Published(effects: seq<Effect>): seq<(string, Message)>
  {
    if effects == [] then []
    else
      (match effects[0]
       case Publish(topic, m) => [(topic, m)]
       case _ => [])
      + Published(effects[1..])
  }

  /** The subscriber calls of a list of (topic, message) publishes, in order. */
  function FanoutAll(channels: map<string, seq<SubId>>, published: seq<(string, Message)>): seq<Delivery>
  {
    if published == [] then []
    else Fanout(published[0].0, ChannelOf(channels, published[0].0), published[0].1)
         + FanoutAll(channels, published[1..])
  }

  /** The subscriber calls of a list of effects are the fan-outs of what it publishes, in order. */
  lemma {:induction false} DeliveriesArePublishedFanouts(channels: map<string, seq<SubId>>, effects: seq<Effect>)
    ensures Deliveries(channels, effects) == FanoutAll(channels, Published(effects))
  {
    if effects != [] {
      DeliveriesArePublishedFanouts(channels, effects[1..]);
      var e := effects[0];
      if e.Publish? {
        var p := Published(effects);
        assert p == [(e.topic, e.message)] + Published(effects[1..]);
        assert p != [] && p[0] == (e.topic, e.message) && p[1..] == Published(effects[1..]);
        assert Deliveries(channels, effects)
            == Fanout(e.topic, ChannelOf(channels, e.topic), e.message) + Deliveries(channels, effects[1..]);
      } else {
        assert Published(effects) == Published(effects[1..]);
        assert Deliveries(channels, effects) == Deliveries(channels, effects[1..]);
      }
    }
  }

  /** When every publish goes to `topic`, every subscriber call is for `topic`. */
  lemma {:induction false} FanoutAllTopic(channels: map<string, seq<SubId>>, published: seq<(string, Message)>,
                                          topic: string)
    requires forall i :: 0 <= i < |published| ==> published[i].0 == topic
    ensures forall d :: d in FanoutAll(channels, published) ==> d.topic == topic
  {
    if published != [] {
      FanoutAllTopic(channels, published[1..], topic);
      var p := published[0];
      FanoutDeliversEach(p.0, ChannelOf(channels, p.0), p.1);
    }
  }

  lemma {:induction false} ApplyAllConcat(s: Store, a: seq<Effect>, b: seq<Effect>)
    ensures ApplyAll(s, a + b) == ApplyAll(ApplyAll(s, a), b)
    decreases a
  {
    if a != [] {
      assert (a + b)[0] == a[0];
      assert (a + b)[1..] == a[1..] + b;
      ApplyAllConcat(Apply(s, a[0]), a[1..], b);
    } else {
      assert a + b == b;
    }
  }

  lemma {:induction false} DeliveriesConcat(channels: map<string, seq<SubId>>, a: seq<Effect>, b: seq<Effect>)
    ensures Deliveries(channels, a + b) == Deliveries(channels, a) + Deliveries(channels, b)
  {
    if a != [] {
      assert (a + b)[0] == a[0];
      assert (a + b)[1..] == a[1..] + b;
      DeliveriesConcat(channels, a[1..], b);
    } else {
      assert a + b == b;
    }
  }

  lemma {:induction false} PublishedConcat(a: seq<Effect>, b: seq<Effect>)
    ensures Published(a + b) == Published(a) + Published(b)
  {
    if a != [] {
      assert (a + b)[0] == a[0];
      assert (a + b)[1..] == a[1..] + b;
      PublishedConcat(a[1..], b);
    } else {
      assert a + b == b;
    }
  }

  /** Regrouping a concatenation (kept separate to keep the handler's proof small). */
  lemma ConcatAssoc<T>(a: seq<T>, b: seq<T>, c: seq<T>)
    ensures (a + b) + c == a + (b + c)
  {
  }

  lemma UnrollApplyAll3(s: Store, e: seq<Effect>)
    requires |e| == 3
    ensures ApplyAll(s, e) == Apply(Apply(Apply(s, e[0]), e[1]), e[2])
  {
    var s1 := Apply(s, e[0]);
    var s2 := Apply(s1, e[1]);
    assert e[1..][0] == e[1] && e[1..][1..][0] == e[2] && e[1..][1..][1..] == [];
    assert ApplyAll(s2, e[1..][1..]) == Apply(s2, e[2]);
    assert ApplyAll(s1, e[1..]) == Apply(s2, e[2]);
  }

  lemma UnrollDeliveries3(channels: map<string, seq<SubId>>, e: seq<Effect>)
    requires |e| == 3
    ensures Deliveries(channels, e) == Deliveries(channels, [e[0]]) + Deliveries(channels, [e[1]])
                                       + Deliveries(channels, [e[2]])
  {
    assert e == [e[0]] + [e[1]] + [e[2]];
    DeliveriesConcat(channels, [e[0]] + [e[1]], [e[2]]);
    DeliveriesConcat(channels, [e[0]], [e[1]]);
  }

  lemma ApplyWithdraw(s: Store, pollId: string, previous: Vote)
    ensures ApplyAll(s, Withdraw(s.counters, pollId, previous))
         == Store(Without(s.votes, previous.id), ZIncrBy(s.counters, pollId, previous.pollOptionId, -1))
  {
    var e := Withdraw(s.counters, pollId, previous);
    UnrollApplyAll3(s, e);
  }

  /** The three trace entries of a withdrawal, appended one at a time, are `Withdraw`. */
  lemma TraceWithdraw(trace: seq<Effect>, c: Counters, pollId: string, previous: Vote)
    ensures trace + [DeleteVote(previous.id)] + [IncrBy(pollId, previous.pollOptionId, -1)]
            + [Publish(pollId, Message(previous.pollOptionId, Count(c, pollId, previous.pollOptionId) - 1))]
         == trace + Withdraw(c, pollId, previous)
  {
  }

  /** The three trace entries of a recording, appended one at a time, are `Record`. */
  lemma TraceRecord(trace: seq<Effect>, c: Counters, pollId: string, sessionId: string, pollOptionId: string,
                    voteId: string)
    ensures trace + [CreateVote(Vote(voteId, pollId, sessionId, pollOptionId))] + [IncrBy(pollId, pollOptionId, 1)]
            + [Publish(pollId, Message(pollOptionId, Count(c, pollId, pollOptionId) + 1))]
         == trace + Record(c, pollId, sessionId, pollOptionId, voteId)
  {
  }

  lemma ApplyRecord(s: Store, pollId: string, sessionId: string, pollOptionId: string, voteId: string)
    ensures ApplyAll(s, Record(s.counters, pollId, sessionId, pollOptionId, voteId))
         == Store(s.votes + [Vote(voteId, pollId, sessionId, pollOptionId)],
                  ZIncrBy(s.counters, pollId, pollOptionId, 1))
  {
    var e := Record(s.counters, pollId, sessionId, pollOptionId, voteId);
    UnrollApplyAll3(s, e);
  }

  lemma DeliveriesWithdraw(channels: map<string, seq<SubId>>, c: Counters, pollId: string, previous: Vote)
    ensures Deliveries(channels, Withdraw(c, pollId, previous))
         == Fanout(pollId, ChannelOf(channels, pollId),
                   Message(previous.pollOptionId, Count(c, pollId, previous.pollOptionId) - 1))
  {
    var e := Withdraw(c, pollId, previous);
    UnrollDeliveries3(channels, e);
  }

  lemma DeliveriesRecord(channels: map<string, seq<SubId>>, c: Counters, pollId: string,
                         sessionId: string, pollOptionId: string, voteId: string)
    ensures Deliveries(channels, Record(c, pollId, sessionId, pollOptionId, voteId))
         == Fanout(pollId, ChannelOf(channels, pollId),
                   Message(pollOptionId, Count(c, pollId, pollOptionId) + 1))
  {
    var e := Record(c, pollId, sessionId, pollOptionId, voteId);
    UnrollDeliveries3(channels, e);
  }

  // ---------------------------------------------------------------------------
  // The stateful handler

  class VotingServer {
    /** The vote table. */
    var votes: seq<Vote>
    /** The counter store. */
    var counters: Counters
    /** The hub the handler publishes to (the module-level singleton in the program). */
    const hub: VotingPubSub
    /** Every store step and publish performed so far, in the order performed. */
    ghost var trace: seq<Effect>

    function State(): Store
      reads this
    {
      Store(votes, counters)
    }

    constructor (hub: VotingPubSub)
      ensures votes == [] && counters == map[] && this.hub == hub && trace == []
    {
      votes := [];
      counters := map[];
      this.hub := hub;
      trace := [];
    }

    /** Deletes the row with id `id` from the vote table. */
    method DeleteRow(id: string)
      modifies this`votes, this`trace
      ensures votes == Without(old(votes), id)
      ensures trace == old(trace) + [DeleteVote(id)]
    {
      votes := Without(votes, id);
      trace := trace + [DeleteVote(id)];
    }

    /** Inserts row `v` into the vote table. */
    method InsertRow(v: Vote)
      modifies this`votes, this`trace
      ensures votes == old(votes) + [v]
      ensures trace == old(trace) + [CreateVote(v)]
    {
      votes := votes + [v];
      trace := trace + [CreateVote(v)];
    }

    /** Publishes `message` on the hub under topic `pollId`. */
    method Announce(pollId: string, message: Message)
      modifies hub`log, this`trace
      ensures hub.log == old(hub.log) + Fanout(pollId, ChannelOf(hub.channels, pollId), message)
      ensures trace == old(trace) + [Publish(pollId, message)]
    {
      var _ := hub.Publish(pollId, message);
      trace := trace + [Publish(pollId, message)];
    }

    /** ZINCRBY on the counter store; answers the member's new count. */
    method IncrementCounter(pollId: string, pollOptionId: string, delta: int) returns (newCount: int)
      modifies this`counters, this`trace
      ensures counters == ZIncrBy(old(counters), pollId, pollOptionId, delta)
      ensures newCount == Count(old(counters), pollId, pollOptionId) + delta
      ensures trace == old(trace) + [IncrBy(pollId, pollOptionId, delta)]
    {
      newCount := Count(counters, pollId, pollOptionId) + delta;
      counters := counters[(pollId, pollOptionId) := newCount];
      trace := trace + [IncrBy(pollId, pollOptionId, delta)];
    }

    /** Deletes the previous vote, decrements its option and publishes the option's new count. */
    method WithdrawVote(pollId: string, previous: Vote)
      modifies this`votes, this`counters, this`trace, hub`log
      ensures State() == ApplyAll(old(State()), Withdraw(old(counters), pollId, previous))
      ensures hub.log == old(hub.log) + Deliveries(hub.channels, Withdraw(old(counters), pollId, previous))
      ensures trace == old(trace) + Withdraw(old(counters), pollId, previous)
    {
      ghost var s0, trace0 := State(), trace;
      DeleteRow(previous.id);
      var votesNow := IncrementCounter(pollId, previous.pollOptionId, -1);
      Announce(pollId, Message(previous.pollOptionId, votesNow));
      ApplyWithdraw(s0, pollId, previous);
      DeliveriesWithdraw(hub.channels, s0.counters, pollId, previous);
      TraceWithdraw(trace0, s0.counters, pollId, previous);
    }

    /** Inserts the new vote, increments its option and publishes the option's new count. */
    method RecordVote(pollId: string, sessionId: string, pollOptionId: string, voteId: string)
      modifies this`votes, this`counters, this`trace, hub`log
      ensures State() == ApplyAll(old(State()), Record(old(counters), pollId, sessionId, pollOptionId, voteId))
      ensures hub.log
           == old(hub.log) + Deliveries(hub.channels, Record(old(counters), pollId, sessionId, pollOptionId, voteId))
      ensures trace == old(trace) + Record(old(counters), pollId, sessionId, pollOptionId, voteId)
    {
      ghost var s0, trace0 := State(), trace;
      InsertRow(Vote(voteId, pollId, sessionId, pollOptionId));
      var votesNow := IncrementCounter(pollId, pollOptionId, 1);
      Announce(pollId, Message(pollOptionId, votesNow));
      ApplyRecord(s0, pollId, sessionId, pollOptionId, voteId);
      DeliveriesRecord(hub.channels, s0.counters, pollId, sessionId, pollOptionId, voteId);
      TraceRecord(trace0, s0.counters, pollId, sessionId, pollOptionId, voteId);
    }

    /**
     * The handler body.  `cookie` is the session cookie, if any; `freshSession`
     * is the identifier minted when it is missing and `freshVoteId` the id of
     * the row inserted.
     */
    method VoteOnPoll(pollId: string, pollOptionId: string, cookie: Option<string>,
                      freshSession: string, freshVoteId: string) returns (outcome: Outcome)
      requires UniqueVotes(votes)
      requires SessionUnused(votes, freshSession)
      requires VoteIdUnused(votes, freshVoteId)
      modifies this`votes, this`counters, this`trace, hub`log
      ensures outcome == Cast(old(State()), pollId, pollOptionId, cookie, freshSession, freshVoteId).outcome
      ensures State()
           == ApplyAll(old(State()), Cast(old(State()), pollId, pollOptionId, cookie, freshSession, freshVoteId).effects)
      ensures hub.log
           == old(hub.log)
              + Deliveries(hub.channels, Cast(old(State()), pollId, pollOptionId, cookie, freshSession, freshVoteId).effects)
      ensures trace == old(trace) + Cast(old(State()), pollId, pollOptionId, cookie, freshSession, freshVoteId).effects
      ensures outcome == Rejected400 ==> hub.log == old(hub.log) && State() == old(State())
      ensures UniqueVotes(votes)
      ensures CountersMatch(old(State())) ==> CountersMatch(State())
    {
      ghost var s0 := State();
      ghost var log0 := hub.log;
      ghost var trace0 := trace;
      CastKeepsUnique(s0, pollId, pollOptionId, cookie, freshSession, freshVoteId);
      if CountersMatch(s0) {
        CastKeepsCountersMatch(s0, pollId, pollOptionId, cookie, freshSession, freshVoteId);
      }
      var sessionId: string;
      ghost var withdrawn: seq<Effect> := [];
      if Truthy(cookie) {
        sessionId := cookie.value;
        var previous := FindVote(votes, pollId, sessionId);
        if previous.Some? {
          if previous.value.pollOptionId == pollOptionId {
            return Rejected400;
          }
          withdrawn := Withdraw(counters, pollId, previous.value);
          ApplyWithdraw(s0, pollId, previous.value);
          WithdrawVote(pollId, previous.value);
        }
      } else {
        sessionId := freshSession;
      }
      ghost var s1 := State();
      ghost var log1 := hub.log;
      ghost var recorded := Record(counters, pollId, sessionId, pollOptionId, freshVoteId);
      RecordVote(pollId, sessionId, pollOptionId, freshVoteId);
      outcome := Created201(sessionId);
      assert withdrawn == [] ==> withdrawn + recorded == recorded;
      assert Cast(s0, pollId, pollOptionId, cookie, freshSession, freshVoteId).effects == withdrawn + recorded;
      ApplyAllConcat(s0, withdrawn, recorded);
      DeliveriesConcat(hub.channels, withdrawn, recorded);
      ghost var dw, dr := Deliveries(hub.channels, withdrawn), Deliveries(hub.channels, recorded);
      ConcatAssoc(log0, dw, dr);
      ConcatAssoc(trace0, withdrawn, recorded);
    }
  }

  // ---------------------------------------------------------------------------
  // Properties of one request

  /** The step keeps the table's constraints: at most one vote per (poll, session), unique ids. */
  lemma CastKeepsUnique(s: Store, pollId: string, pollOptionId: string, cookie: Option<string>,
                        freshSession: string, freshVoteId: string)
    requires UniqueVotes(s.votes)
    requires SessionUnused(s.votes, freshSession)
    requires VoteIdUnused(s.votes, freshVoteId)
    ensures UniqueVotes(ApplyAll(s, Cast(s, pollId, pollOptionId, cookie, freshSession, freshVoteId).effects).votes)
  {
    var t := Cast(s, pollId, pollOptionId, cookie, freshSession, freshVoteId);
    if !Truthy(cookie) {
      ApplyRecord(s, pollId, freshSession, pollOptionId, freshVoteId);
      AppendKeepsUnique(s.votes, Vote(freshVoteId, pollId, freshSession, pollOptionId));
    } else {
      var sid := cookie.value;
      match FindVote(s.votes, pollId, sid)
      case None =>
        ApplyRecord(s, pollId, sid, pollOptionId, freshVoteId);
        AppendKeepsUnique(s.votes, Vote(freshVoteId, pollId, sid, pollOptionId));
      case Some(previous) =>
        if previous.pollOptionId != pollOptionId {
          var w := Withdraw(s.counters, pollId, previous);
          var s1 := ApplyAll(s, w);
          ApplyWithdraw(s, pollId, previous);
          ApplyRecord(s1, pollId, sid, pollOptionId, freshVoteId);
          ApplyAllConcat(s, w, Record(s1.counters, pollId, sid, pollOptionId, freshVoteId));
          WithoutKeepsUnique(s.votes, previous.id);
          forall v | v in s1.votes ensures Apart(v, Vote(freshVoteId, pollId, sid, pollOptionId)) {
            if KeyMatches(v, pollId, sid) {
              FindVoteUnique(s.votes, v);
            }
          }
          AppendKeepsUnique(s1.votes, Vote(freshVoteId, pollId, sid, pollOptionId));
        }
    }
  }

  /** The vote the handler finds for the session: looked up only when a session cookie is present. */
  function PreviousVote(s: Store, pollId: string, cookie: Option<string>): Option<Vote>
  {
    if Truthy(cookie) then FindVote(s.votes, pollId, cookie.value) else None
  }

  /**
   * A request is rejected exactly when the session already voted for the same
   * option of this poll; a rejection changes no store and publishes nothing.
   */
  lemma CastRejectsRepeat(s: Store, pollId: string, pollOptionId: string, cookie: Option<string>,
                          freshSession: string, freshVoteId: string)
    ensures var t := Cast(s, pollId, pollOptionId, cookie, freshSession, freshVoteId);
            var previous := PreviousVote(s, pollId, cookie);
            (t.outcome == Rejected400 <==> previous.Some? && previous.value.pollOptionId == pollOptionId)
            && (t.outcome == Rejected400 ==> ApplyAll(s, t.effects) == s && Published(t.effects) == [])
            && (t.outcome != Rejected400 ==> t.outcome.Created201?)
  {
  }

  /**
   * Changing a vote: the old vote is deleted, its option decremented and its
   * new count published, all before the new vote is inserted, its option
   * incremented and its new count published.
   */
  lemma CastChangesVote(s: Store, pollId: string, pollOptionId: string, cookie: Option<string>,
                        freshSession: string, freshVoteId: string, previous: Vote)
    requires PreviousVote(s, pollId, cookie) == Some(previous)
    requires previous.pollOptionId != pollOptionId
    ensures var t := Cast(s, pollId, pollOptionId, cookie, freshSession, freshVoteId);
            t.outcome == Created201(cookie.value)
            && t.effects
               == [ DeleteVote(previous.id),
                    IncrBy(pollId, previous.pollOptionId, -1),
                    Publish(pollId, Message(previous.pollOptionId, Count(s.counters, pollId, previous.pollOptionId) - 1)),
                    CreateVote(Vote(freshVoteId, pollId, cookie.value, pollOptionId)),
                    IncrBy(pollId, pollOptionId, 1),
                    Publish(pollId, Message(pollOptionId, Count(s.counters, pollId, pollOptionId) + 1)) ]
  {
  }

  /**
   * Without a session cookie the minted session is used, nothing is deleted,
   * no counter goes down and exactly one message is published.
   */
  lemma CastWithoutSession(s: Store, pollId: string, pollOptionId: string, cookie: Option<string>,
                           freshSession: string, freshVoteId: string)
    requires !Truthy(cookie)
    ensures var t := Cast(s, pollId, pollOptionId, cookie, freshSession, freshVoteId);
            t.outcome == Created201(freshSession)
            && (forall e :: e in t.effects ==> !e.DeleteVote? && (e.IncrBy? ==> e.delta == 1))
            && Published(t.effects) == [(pollId, Message(pollOptionId, Count(s.counters, pollId, pollOptionId) + 1))]
            && ApplyAll(s, t.effects).votes == s.votes + [Vote(freshVoteId, pollId, freshSession, pollOptionId)]
  {
    var e := Record(s.counters, pollId, freshSession, pollOptionId, freshVoteId);
    ApplyRecord(s, pollId, freshSession, pollOptionId, freshVoteId);
    UnrollPublished3(e);
  }

  lemma UnrollPublished3(e: seq<Effect>)
    requires |e| == 3
    ensures Published(e) == Published([e[0]]) + Published([e[1]]) + Published([e[2]])
  {
    assert e == [e[0]] + [e[1]] + [e[2]];
    PublishedConcat([e[0]] + [e[1]], [e[2]]);
    PublishedConcat([e[0]], [e[1]]);
  }

  /** The stores and messages after an accepted request with no previous vote. */
  lemma CastAfterFirstVote(s: Store, pollId: string, pollOptionId: string, cookie: Option<string>,
                           freshSession: string, freshVoteId: string)
    requires PreviousVote(s, pollId, cookie).None?
    ensures var t := Cast(s, pollId, pollOptionId, cookie, freshSession, freshVoteId);
            var after := ApplyAll(s, t.effects);
            t.outcome.Created201?
            && after == Store(s.votes + [Vote(freshVoteId, pollId, t.outcome.sessionId, pollOptionId)],
                              ZIncrBy(s.counters, pollId, pollOptionId, 1))
            && Published(t.effects) == [(pollId, Message(pollOptionId, Count(after.counters, pollId, pollOptionId)))]
  {
    var t := Cast(s, pollId, pollOptionId, cookie, freshSession, freshVoteId);
    var sid := t.outcome.sessionId;
    ApplyRecord(s, pollId, sid, pollOptionId, freshVoteId);
    UnrollPublished3(t.effects);
  }

  /** The effects of an accepted request that replaces a previous vote: withdraw, then record. */
  lemma CastChangedEffects(s: Store, pollId: string, pollOptionId: string, cookie: Option<string>,
                           freshSession: string, freshVoteId: string, previous: Vote)
    requires PreviousVote(s, pollId, cookie) == Some(previous)
    requires previous.pollOptionId != pollOptionId
    ensures Cast(s, pollId, pollOptionId, cookie, freshSession, freshVoteId)
         == Transition(Created201(cookie.value),
                       Withdraw(s.counters, pollId, previous)
                       + Record(ApplyAll(s, Withdraw(s.counters, pollId, previous)).counters,
                                pollId, cookie.value, pollOptionId, freshVoteId))
  {
    ApplyWithdraw(s, pollId, previous);
  }

  /** The stores after an accepted request that replaces a previous vote. */
  lemma CastAfterChangedVote(s: Store, pollId: string, pollOptionId: string, cookie: Option<string>,
                             freshSession: string, freshVoteId: string, previous: Vote)
    requires PreviousVote(s, pollId, cookie) == Some(previous)
    requires previous.pollOptionId != pollOptionId
    ensures var t := Cast(s, pollId, pollOptionId, cookie, freshSession, freshVoteId);
            t.outcome.Created201?
            && ApplyAll(s, t.effects)
               == Store(Without(s.votes, previous.id) + [Vote(freshVoteId, pollId, t.outcome.sessionId, pollOptionId)],
                        ZIncrBy(ZIncrBy(s.counters, pollId, previous.pollOptionId, -1), pollId, pollOptionId, 1))
  {
    var sid := cookie.value;
    var w := Withdraw(s.counters, pollId, previous);
    var s1 := ApplyAll(s, w);
    var r := Record(s1.counters, pollId, sid, pollOptionId, freshVoteId);
    CastChangedEffects(s, pollId, pollOptionId, cookie, freshSession, freshVoteId, previous);
    ApplyWithdraw(s, pollId, previous);
    ApplyRecord(s1, pollId, sid, pollOptionId, freshVoteId);
    ApplyAllConcat(s, w, r);
  }

  /** The messages of an accepted request that replaces a previous vote: old option first, each with its new count. */
  lemma CastPublishesChangedVote(s: Store, pollId: string, pollOptionId: string, cookie: Option<string>,
                                 freshSession: string, freshVoteId: string, previous: Vote)
    requires PreviousVote(s, pollId, cookie) == Some(previous)
    requires previous.pollOptionId != pollOptionId
    ensures var t := Cast(s, pollId, pollOptionId, cookie, freshSession, freshVoteId);
            var after := ApplyAll(s, t.effects).counters;
            Published(t.effects)
            == [(pollId, Message(previous.pollOptionId, Count(after, pollId, previous.pollOptionId))),
                (pollId, Message(pollOptionId, Count(after, pollId, pollOptionId)))]
  {
    var sid := cookie.value;
    var w := Withdraw(s.counters, pollId, previous);
    var s1 := ApplyAll(s, w);
    var r := Record(s1.counters, pollId, sid, pollOptionId, freshVoteId);
    CastChangedEffects(s, pollId, pollOptionId, cookie, freshSession, freshVoteId, previous);
    CastAfterChangedVote(s, pollId, pollOptionId, cookie, freshSession, freshVoteId, previous);
    ApplyWithdraw(s, pollId, previous);
    PublishedConcat(w, r);
    UnrollPublished3(w);
    UnrollPublished3(r);
  }

  /** The stores and messages after an accepted request, on either path. */
  lemma CastAfter(s: Store, pollId: string, pollOptionId: string, cookie: Option<string>,
                  freshSession: string, freshVoteId: string)
    requires Cast(s, pollId, pollOptionId, cookie, freshSession, freshVoteId).outcome.Created201?
    ensures var t := Cast(s, pollId, pollOptionId, cookie, freshSession, freshVoteId);
            var after := ApplyAll(s, t.effects);
            var v := Vote(freshVoteId, pollId, t.outcome.sessionId, pollOptionId);
            var previous := PreviousVote(s, pollId, cookie);
            (previous.None? ==> after.votes == s.votes + [v])
            && (previous.Some? ==> after.votes == Without(s.votes, previous.value.id) + [v])
  {
    var previous := PreviousVote(s, pollId, cookie);
    if previous.None? {
      CastAfterFirstVote(s, pollId, pollOptionId, cookie, freshSession, freshVoteId);
    } else {
      CastAfterChangedVote(s, pollId, pollOptionId, cookie, freshSession, freshVoteId, previous.value);
    }
  }

  /**
   * An accepted request leaves the table mapping (pollId, session) to the
   * requested option, and every other (poll, session) key as it was.
   */
  /**
   * Repeating an accepted vote with the session it answered is rejected and
   * changes nothing.  (An empty session would be falsy on the repeat.)
   */
  lemma RepeatedVoteRejected(s: Store, pollId: string, pollOptionId: string, cookie: Option<string>,
                             freshSession: string, freshVoteId: string, nextSession: string, nextVoteId: string)
    requires UniqueVotes(s.votes)
    requires SessionUnused(s.votes, freshSession)
    requires VoteIdUnused(s.votes, freshVoteId)
    requires Cast(s, pollId, pollOptionId, cookie, freshSession, freshVoteId).outcome.Created201?
    requires Cast(s, pollId, pollOptionId, cookie, freshSession, freshVoteId).outcome.sessionId != ""
    ensures var t := Cast(s, pollId, pollOptionId, cookie, freshSession, freshVoteId);
            var after := ApplyAll(s, t.effects);
            var again := Cast(after, pollId, pollOptionId, Some(t.outcome.sessionId), nextSession, nextVoteId);
            again.outcome == Rejected400 && ApplyAll(after, again.effects) == after && Published(again.effects) == []
  {
    CastRecordsVote(s, pollId, pollOptionId, cookie, freshSession, freshVoteId);
  }

  lemma CastRecordsVote(s: Store, pollId: string, pollOptionId: string, cookie: Option<string>,
                        freshSession: string, freshVoteId: string)
    requires UniqueVotes(s.votes)
    requires SessionUnused(s.votes, freshSession)
    requires VoteIdUnused(s.votes, freshVoteId)
    requires Cast(s, pollId, pollOptionId, cookie, freshSession, freshVoteId).outcome.Created201?
    ensures var t := Cast(s, pollId, pollOptionId, cookie, freshSession, freshVoteId);
            var after := ApplyAll(s, t.effects);
            FindVote(after.votes, pollId, t.outcome.sessionId) == Some(Vote(freshVoteId, pollId, t.outcome.sessionId, pollOptionId))
            && forall p, x :: (p, x) != (pollId, t.outcome.sessionId) ==> FindVote(after.votes, p, x) == FindVote(s.votes, p, x)
  {
    var t := Cast(s, pollId, pollOptionId, cookie, freshSession, freshVoteId);
    var sid := t.outcome.sessionId;
    var v := Vote(freshVoteId, pollId, sid, pollOptionId);
    var after := ApplyAll(s, t.effects);
    CastAfter(s, pollId, pollOptionId, cookie, freshSession, freshVoteId);
    CastKeepsUnique(s, pollId, pollOptionId, cookie, freshSession, freshVoteId);
    assert v in after.votes;
    FindVoteUnique(after.votes, v);
    forall p, x | (p, x) != (pollId, sid)
      ensures FindVote(after.votes, p, x) == FindVote(s.votes, p, x)
    {
      FindVoteByMembership(after.votes, s.votes, p, x);
    }
  }

  /**
   * The insert never meets the unique key: just before it, the table holds no
   * vote for (pollId, session), because the previous one was deleted, none
   * was found, or the session is freshly minted.
   */
  lemma CastInsertKeyFree(s: Store, pollId: string, pollOptionId: string, cookie: Option<string>,
                          freshSession: string, freshVoteId: string)
    requires UniqueVotes(s.votes)
    requires SessionUnused(s.votes, freshSession)
    requires Cast(s, pollId, pollOptionId, cookie, freshSession, freshVoteId).outcome.Created201?
    ensures var sid := Cast(s, pollId, pollOptionId, cookie, freshSession, freshVoteId).outcome.sessionId;
            var previous := PreviousVote(s, pollId, cookie);
            var beforeInsert := if previous.None? then s.votes else Without(s.votes, previous.value.id);
            FindVote(beforeInsert, pollId, sid).None?
  {
    var sid := Cast(s, pollId, pollOptionId, cookie, freshSession, freshVoteId).outcome.sessionId;
    var previous := PreviousVote(s, pollId, cookie);
    if previous.Some? {
      var rest := Without(s.votes, previous.value.id);
      forall v | v in rest ensures !KeyMatches(v, pollId, sid) {
        if KeyMatches(v, pollId, sid) {
          FindVoteUnique(s.votes, v);
        }
      }
    }
  }

  /**
   * The counters after an accepted request: the requested option one up, the
   * previous option (if any) one down, every other (poll, option) unchanged;
   * each published count is the counter's value afterwards.
   */
  lemma CastMovesCounters(s: Store, pollId: string, pollOptionId: string, cookie: Option<string>,
                          freshSession: string, freshVoteId: string)
    requires Cast(s, pollId, pollOptionId, cookie, freshSession, freshVoteId).outcome.Created201?
    ensures var t := Cast(s, pollId, pollOptionId, cookie, freshSession, freshVoteId);
            var previous := PreviousVote(s, pollId, cookie);
            var after := ApplyAll(s, t.effects).counters;
            Count(after, pollId, pollOptionId) == Count(s.counters, pollId, pollOptionId) + 1
            && (previous.Some? ==>
                  Count(after, pollId, previous.value.pollOptionId) == Count(s.counters, pollId, previous.value.pollOptionId) - 1)
            && (forall p, o :: (p, o) != (pollId, pollOptionId)
                               && (previous.None? || (p, o) != (pollId, previous.value.pollOptionId))
                               ==> Count(after, p, o) == Count(s.counters, p, o))
            && Published(t.effects) != []
            && Published(t.effects)[|Published(t.effects)| - 1] == (pollId, Message(pollOptionId, Count(after, pollId, pollOptionId)))
  {
    var previous := PreviousVote(s, pollId, cookie);
    CastRejectsRepeat(s, pollId, pollOptionId, cookie, freshSession, freshVoteId);
    if previous.None? {
      CastAfterFirstVote(s, pollId, pollOptionId, cookie, freshSession, freshVoteId);
    } else {
      CastAfterChangedVote(s, pollId, pollOptionId, cookie, freshSession, freshVoteId, previous.value);
      CastPublishesChangedVote(s, pollId, pollOptionId, cookie, freshSession, freshVoteId, previous.value);
    }
  }

  /**
   * Every message goes to the poll's own topic; a rejection publishes none,
   * an accepted request one (first vote) or two (changed vote).
   */
  lemma CastPublishCount(s: Store, pollId: string, pollOptionId: string, cookie: Option<string>,
                         freshSession: string, freshVoteId: string)
    ensures var t := Cast(s, pollId, pollOptionId, cookie, freshSession, freshVoteId);
            var published := Published(t.effects);
            (forall i :: 0 <= i < |published| ==> published[i].0 == pollId)
            && |published| == (if t.outcome == Rejected400 then 0
                               else if PreviousVote(s, pollId, cookie).Some? then 2 else 1)
  {
    var t := Cast(s, pollId, pollOptionId, cookie, freshSession, freshVoteId);
    var previous := PreviousVote(s, pollId, cookie);
    CastRejectsRepeat(s, pollId, pollOptionId, cookie, freshSession, freshVoteId);
    if previous.None? {
      CastAfterFirstVote(s, pollId, pollOptionId, cookie, freshSession, freshVoteId);
    } else if previous.value.pollOptionId != pollOptionId {
      CastPublishesChangedVote(s, pollId, pollOptionId, cookie, freshSession, freshVoteId, previous.value);
    }
  }

  /**
   * Every subscriber call a request makes is for topic pollId, and a
   * rejection makes none.
   */
  lemma CastDeliversToPoll(s: Store, pollId: string, pollOptionId: string, cookie: Option<string>,
                           freshSession: string, freshVoteId: string, channels: map<string, seq<SubId>>)
    ensures var t := Cast(s, pollId, pollOptionId, cookie, freshSession, freshVoteId);
            (forall d :: d in Deliveries(channels, t.effects) ==> d.topic == pollId)
            && (t.outcome == Rejected400 ==> Deliveries(channels, t.effects) == [])
  {
    var t := Cast(s, pollId, pollOptionId, cookie, freshSession, freshVoteId);
    CastPublishCount(s, pollId, pollOptionId, cookie, freshSession, freshVoteId);
    DeliveriesArePublishedFanouts(channels, t.effects);
    FanoutAllTopic(channels, Published(t.effects), pollId);
  }

  /**
   * A first vote without a session, the same vote again, then a change of
   * option, starting from empty stores.
   */
  lemma VotingScenario()
    ensures var s0 := Store([], map[]);
            var t1 := Cast(s0, "poll-1", "opt-1", None, "session-1", "vote-1");
            var s1 := ApplyAll(s0, t1.effects);
            var t2 := Cast(s1, "poll-1", "opt-1", Some("session-1"), "session-2", "vote-2");
            var s2 := ApplyAll(s1, t2.effects);
            var t3 := Cast(s2, "poll-1", "opt-2", Some("session-1"), "session-3", "vote-3");
            var s3 := ApplyAll(s2, t3.effects);
            t1.outcome == Created201("session-1")
            && Count(s1.counters, "poll-1", "opt-1") == 1
            && Published(t1.effects) == [("poll-1", Message("opt-1", 1))]
            && t2.outcome == Rejected400 && s2 == s1 && Published(t2.effects) == []
            && t3.outcome == Created201("session-1")
            && Count(s3.counters, "poll-1", "opt-1") == 0 && Count(s3.counters, "poll-1", "opt-2") == 1
            && Published(t3.effects) == [("poll-1", Message("opt-1", 0)), ("poll-1", Message("opt-2", 1))]
  {
    var s0 := Store([], map[]);
    CastAfterFirstVote(s0, "poll-1", "opt-1", None, "session-1", "vote-1");
    var s1 := ApplyAll(s0, Cast(s0, "poll-1", "opt-1", None, "session-1", "vote-1").effects);
    var v1 := Vote("vote-1", "poll-1", "session-1", "opt-1");
    assert s1.votes == [v1];
    assert PreviousVote(s1, "poll-1", Some("session-1")) == Some(v1);
    CastRejectsRepeat(s1, "poll-1", "opt-1", Some("session-1"), "session-2", "vote-2");
    CastAfterChangedVote(s1, "poll-1", "opt-2", Some("session-1"), "session-3", "vote-3", v1);
    CastPublishesChangedVote(s1, "poll-1", "opt-2", Some("session-1"), "session-3", "vote-3", v1);
  }

  // ---------------------------------------------------------------------------
  // Agreement of the counter store with the vote table

  /** The number of rows of the table that vote for `pollOptionId` in poll `pollId`. */
  function Tally(votes: seq<Vote>, pollId: string, pollOptionId: string): nat
  {
    if votes == [] then 0
    else Counts(votes[0], pollId, pollOptionId) + Tally(votes[1..], pollId, pollOptionId)
  }

  /** 1 when `v` is a vote for `pollOptionId` in poll `pollId`, else 0. */
  function Counts(v: Vote, pollId: string, pollOptionId: string): nat
  {
    if v.pollId == pollId && v.pollOptionId == pollOptionId then 1 else 0
  }

  /** Every counter equals the number of votes for its (poll, option). */
  ghost predicate CountersMatch(s: Store)
  {
    forall p, o :: Count(s.counters, p, o) == Tally(s.votes, p, o)
  }

  lemma {:induction false} TallyAppend(votes: seq<Vote>, v: Vote, p: string, o: string)
    ensures Tally(votes + [v], p, o) == Tally(votes, p, o) + Counts(v, p, o)
  {
    if votes == [] {
      assert [v][1..] == [];
    } else {
      assert (votes + [v])[1..] == votes[1..] + [v];
      TallyAppend(votes[1..], v, p, o);
    }
  }

  lemma {:induction false} WithoutAbsent(votes: seq<Vote>, id: string)
    requires VoteIdUnused(votes, id)
    ensures Without(votes, id) == votes
  {
    if votes != [] {
      WithoutAbsent(votes[1..], id);
    }
  }

  /** Deleting a row by its (unique) id takes exactly that row out of every tally. */
  lemma {:induction false} TallyWithout(votes: seq<Vote>, v: Vote, p: string, o: string)
    requires UniqueVotes(votes)
    requires v in votes
    ensures Tally(Without(votes, v.id), p, o) == Tally(votes, p, o) - Counts(v, p, o)
  {
    UniqueVotesCons(votes[0], votes[1..]);
    assert votes == [votes[0]] + votes[1..];
    if votes[0] == v {
      forall w | w in votes[1..] ensures w.id != v.id {
        assert Apart(v, w);
      }
      WithoutAbsent(votes[1..], v.id);
    } else {
      assert v in votes[1..];
      assert Apart(votes[0], v);
      TallyWithout(votes[1..], v, p, o);
      assert Without(votes, v.id) == [votes[0]] + Without(votes[1..], v.id);
      assert ([votes[0]] + Without(votes[1..], v.id))[1..] == Without(votes[1..], v.id);
    }
  }

  /** Inserting a vote and incrementing its option keeps the counters in agreement. */
  lemma RecordKeepsCountersMatch(votes: seq<Vote>, counters: Counters, v: Vote)
    requires CountersMatch(Store(votes, counters))
    ensures CountersMatch(Store(votes + [v], ZIncrBy(counters, v.pollId, v.pollOptionId, 1)))
  {
    forall p, o ensures Count(ZIncrBy(counters, v.pollId, v.pollOptionId, 1), p, o) == Tally(votes + [v], p, o) {
      TallyAppend(votes, v, p, o);
    }
  }

  /** Deleting a vote and decrementing its option keeps the counters in agreement. */
  lemma WithdrawKeepsCountersMatch(votes: seq<Vote>, counters: Counters, v: Vote)
    requires UniqueVotes(votes)
    requires v in votes
    requires CountersMatch(Store(votes, counters))
    ensures CountersMatch(Store(Without(votes, v.id), ZIncrBy(counters, v.pollId, v.pollOptionId, -1)))
  {
    forall p, o ensures Count(ZIncrBy(counters, v.pollId, v.pollOptionId, -1), p, o) == Tally(Without(votes, v.id), p, o) {
      TallyWithout(votes, v, p, o);
    }
  }

  /**
   * If every counter agreed with the vote table before a request, it agrees
   * after: the counter moves are exactly the row changes.
   */
  lemma CastKeepsCountersMatch(s: Store, pollId: string, pollOptionId: string, cookie: Option<string>,
                               freshSession: string, freshVoteId: string)
    requires UniqueVotes(s.votes)
    requires CountersMatch(s)
    ensures CountersMatch(ApplyAll(s, Cast(s, pollId, pollOptionId, cookie, freshSession, freshVoteId).effects))
  {
    var t := Cast(s, pollId, pollOptionId, cookie, freshSession, freshVoteId);
    var previous := PreviousVote(s, pollId, cookie);
    CastRejectsRepeat(s, pollId, pollOptionId, cookie, freshSession, freshVoteId);
    if t.outcome.Created201? {
      var v := Vote(freshVoteId, pollId, t.outcome.sessionId, pollOptionId);
      if previous.None? {
        CastAfterFirstVote(s, pollId, pollOptionId, cookie, freshSession, freshVoteId);
        RecordKeepsCountersMatch(s.votes, s.counters, v);
      } else {
        var prev := previous.value;
        CastAfterChangedVote(s, pollId, pollOptionId, cookie, freshSession, freshVoteId, prev);
        WithdrawKeepsCountersMatch(s.votes, s.counters, prev);
        RecordKeepsCountersMatch(Without(s.votes, prev.id), ZIncrBy(s.counters, pollId, prev.pollOptionId, -1), v);
      }
    }
  }
}
