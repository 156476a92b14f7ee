/**
 * The in-process broadcast hub: a registry from poll id (the topic) to the
 * ordered list of subscribers of that poll.  Subscribers are callbacks in the
 * program; here they are opaque ids, and calling one is recorded as a
 * Delivery in the hub's log.
 */
module PubSub {

  /** An opaque subscriber (a callback in the program). */
  type SubId = nat

  /** The vote-change message: an option and its vote count after the change. */
  datatype Message = Message(pollOptionId: string, votes: int)

  /** One call of a subscriber: who was called, for which topic, with what. */
  datatype Delivery = Delivery(topic: string, subscriber: SubId, message: Message)

  /** The subscribers of `topic`, or none when the topic was never created. */
  function ChannelOf(channels: map<string, seq<SubId>>, topic: string): seq<SubId>
  {
    if topic in channels then channels[topic] else []
  }

  /** The registry after `subscriber` is registered under `topic`. */
  function Subscribed(channels: map<string, seq<SubId>>, topic: string, subscriber: SubId)
    : (r: map<string, seq<SubId>>)
    ensures r.Keys == channels.Keys + {topic}
    ensures ChannelOf(r, topic) == ChannelOf(channels, topic) + [subscriber]
    ensures forall other :: other != topic ==> ChannelOf(r, other) == ChannelOf(channels, other)
  {
    channels[topic := ChannelOf(channels, topic) + [subscriber]]
  }

  /** The calls that one publish of `message` makes to the subscriber list `subs` of `topic`. */
  function Fanout(topic: string, subs: seq<SubId>, message: Message): (r: seq<Delivery>)
    ensures |r| == |subs|
  {
    if subs == [] then []
    else Fanout(topic, subs[..|subs| - 1], message) + [Delivery(topic, subs[|subs| - 1], message)]
  }

  /**
   * A publish calls each subscriber of the list exactly once, in list order,
   * each time with the same message and for the same topic.
   */
  lemma {:induction false} FanoutDeliversEach(topic: string, subs: seq<SubId>, message: Message)
    ensures |Fanout(topic, subs, message)| == |subs|
    ensures forall i :: 0 <= i < |subs| ==>
      Fanout(topic, subs, message)[i] == Delivery(topic, subs[i], message)
  {
    if subs != [] {
      FanoutDeliversEach(topic, subs[..|subs| - 1], message);
    }
  }

  /** The fan-out to one more subscriber extends the fan-out so far by one call (the loop step). */
  lemma FanoutStep(topic: string, subs: seq<SubId>, i: nat, message: Message)
    requires i < |subs|
    ensures Fanout(topic, subs[..i + 1], message)
         == Fanout(topic, subs[..i], message) + [Delivery(topic, subs[i], message)]
  {
    assert subs[..i + 1][..i] == subs[..i];
  }

  /**
   * Subscribing does not de-duplicate: each subscribe adds one more
   * occurrence of the subscriber, so subscribing twice lists it twice.
   */
  lemma SubscribeNoDedup(channels: map<string, seq<SubId>>, topic: string, s: SubId)
    ensures multiset(ChannelOf(Subscribed(channels, topic, s), topic))[s]
         == multiset(ChannelOf(channels, topic))[s] + 1
    ensures ChannelOf(Subscribed(Subscribed(channels, topic, s), topic, s), topic)
         == ChannelOf(channels, topic) + [s, s]
  {
    var once := Subscribed(channels, topic, s);
    assert ChannelOf(Subscribed(once, topic, s), topic) == ChannelOf(channels, topic) + [s] + [s];
  }

  class VotingPubSub {
    /** The topic registry: poll id to its subscribers, in subscription order. */
    var channels: map<string, seq<SubId>>
    /** Every subscriber call made so far, in the order the calls were made. */
    var log: seq<Delivery>

    constructor ()
      ensures channels == map[] && log == []
    {
      channels := map[];
      log := [];
    }

    /** Creates the topic when missing, then appends the subscriber to it. */
    method Subscribe(pollId: string, subscriber: SubId)
      modifies this`channels
      ensures channels == Subscribed(old(channels), pollId, subscriber)
    {
      if pollId !in channels {
        channels := channels[pollId := []];
      }
      channels := channels[pollId := channels[pollId] + [subscriber]];
    }

    /**
     * Calls every subscriber of `pollId` with `message`, in subscription
     * order; an unknown topic makes no call.  The registry is not changed.
     */
    method Publish(pollId: string, message: Message) returns (delivered: seq<Delivery>)
      modifies this`log
      ensures pollId !in channels ==> delivered == []
      ensures delivered == Fanout(pollId, ChannelOf(channels, pollId), message)
      ensures log == old(log) + delivered
    {
      delivered := [];
      if pollId !in channels {
        return;
      }
      var subs := channels[pollId];
      for i := 0 to |subs|
        invariant delivered == Fanout(pollId, subs[..i], message)
        invariant log == old(log) + delivered
      {
        FanoutStep(pollId, subs, i, message);
        var d := Delivery(pollId, subs[i], message);
        log := log + [d];
        delivered := delivered + [d];
      }
      assert subs[..|subs|] == subs;
    }
  }
}
