/**
  The consumer side of the driver: which topics `createConsumer` subscribes to
  for a topic with a given partition count, with which settings, and what the
  message listener it installs hands to the benchmark and acknowledges.

  The subscriptions themselves are asynchronous. A `ConsumerHandle` is the
  benchmark consumer the driver returns; it learns its physical consumers only
  when every subscribe it waits for has completed, and not at all if any of
  them failed.
*/
module Fanout {
  import opened Common
  import Naming
  import Client

  /** The partition count the driver reads off the metadata; a null answer counts as zero. */
  function PartitionCount(meta: Option<int>): int {
    match meta
    case None => 0
    case Some(n) => n
  }

  /** The sub-topics of partitions 0 .. n - 1, in partition order. */
  function PartitionTopics(topic: string, n: nat): (ts: seq<string>)
    ensures |ts| == n
    ensures forall i :: 0 <= i < n ==> ts[i] == Naming.PartitionName(topic, i)
  {
    if n == 0 then [] else PartitionTopics(topic, n - 1) + [Naming.PartitionName(topic, n - 1)]
  }

  /**
    The topics subscribed for a partition count: one per partition when the
    topic is partitioned, the topic itself when it is not, and none for a
    negative count.
  */
  function SubscribeTargets(topic: string, n: int): seq<string> {
    if n > 0 then PartitionTopics(topic, n) else if n == 0 then [topic] else []
  }

  /** One Failover subscribe at priority level 0 per target, all under the same subscription name. */
  function SubscribeCalls(targets: seq<string>, subscription: string): (cs: seq<Client.SubscribeCall>)
    ensures |cs| == |targets|
    ensures forall i :: 0 <= i < |cs| ==> cs[i] == Client.SubscribeCall(targets[i], subscription, Client.Failover, 0)
  {
    if targets == [] then []
    else SubscribeCalls(targets[..|targets| - 1], subscription)
         + [Client.SubscribeCall(targets[|targets| - 1], subscription, Client.Failover, 0)]
  }

  /** One more partition adds one more subscribe and one more consumer id. */
  lemma PartitionStep(topic: string, i: nat, subscription: string, start: nat)
    ensures |SubscribeCalls(PartitionTopics(topic, i), subscription)| == i
    ensures SubscribeCalls(PartitionTopics(topic, i + 1), subscription)
            == SubscribeCalls(PartitionTopics(topic, i), subscription)
               + [Client.SubscribeCall(Naming.PartitionName(topic, i), subscription, Client.Failover, 0)]
    ensures Ids(start, i + 1) == Ids(start, i) + [start + i]
  {
    SubscribeCallsSnoc(PartitionTopics(topic, i), Naming.PartitionName(topic, i), subscription);
  }

  /** Subscribing to one more target appends one more call. */
  lemma SubscribeCallsSnoc(targets: seq<string>, t: string, subscription: string)
    ensures SubscribeCalls(targets + [t], subscription)
            == SubscribeCalls(targets, subscription) + [Client.SubscribeCall(t, subscription, Client.Failover, 0)]
  {
    assert (targets + [t])[..|targets|] == targets;
  }

  /** The consumer ids start, start + 1, ..., start + count - 1. */
  function Ids(start: nat, count: nat): (ids: seq<Client.ConsumerId>)
    ensures |ids| == count
    ensures forall i :: 0 <= i < count ==> ids[i] == start + i
  {
    if count == 0 then [] else Ids(start, count - 1) + [start + count - 1]
  }

  lemma AppendAssoc<T>(a: seq<T>, b: seq<T>, c: seq<T>)
    ensures (a + b) + c == a + (b + c)
  {
  }

  /** The subscribes of the partition loop of `createConsumer`, one per partition in partition order. */
  method SubscribePartitions(client: Client.PulsarClient, topic: string, n: nat, subscription: string)
    returns (ids: seq<Client.ConsumerId>)
    modifies client
    ensures client.subscribes == old(client.subscribes) + SubscribeCalls(PartitionTopics(topic, n), subscription)
    ensures ids == Ids(|old(client.subscribes)|, n)
    ensures client.closed == old(client.closed)
  {
    ids := [];
    var i := 0;
    while i < n
      invariant 0 <= i <= n
      invariant client.subscribes == old(client.subscribes) + SubscribeCalls(PartitionTopics(topic, i), subscription)
      invariant ids == Ids(|old(client.subscribes)|, i)
      invariant client.closed == old(client.closed)
    {
      PartitionStep(topic, i, subscription, |old(client.subscribes)|);
      var id := client.Subscribe(Naming.PartitionName(topic, i), subscription, Client.Failover, 0);
      ids := ids + [id];
      AppendAssoc(old(client.subscribes), SubscribeCalls(PartitionTopics(topic, i), subscription),
        [Client.SubscribeCall(Naming.PartitionName(topic, i), subscription, Client.Failover, 0)]);
      i := i + 1;
    }
  }

  /**
    The subscribes of `createConsumer` once the partition count is known: one
    per partition, then one for the topic itself if there are no partitions.
    `ids` are the physical consumers, in subscription order.
  */
  method SubscribeAll(client: Client.PulsarClient, topic: string, partitions: int, subscription: string)
    returns (ids: seq<Client.ConsumerId>)
    modifies client
    ensures client.subscribes == old(client.subscribes) + SubscribeCalls(SubscribeTargets(topic, partitions), subscription)
    ensures ids == Ids(|old(client.subscribes)|, |SubscribeTargets(topic, partitions)|)
    ensures client.closed == old(client.closed)
  {
    ids := [];
    if partitions > 0 {
      ids := SubscribePartitions(client, topic, partitions, subscription);
    }
    if partitions == 0 {
      var id := client.Subscribe(topic, subscription, Client.Failover, 0);
      ids := ids + [id];
      assert SubscribeCalls([topic], subscription) == [Client.SubscribeCall(topic, subscription, Client.Failover, 0)];
    }
  }

  /**
    A partitioned topic is consumed through exactly its partitions: partition
    `i` is subscribed, as sub-topic `i`, for every `i` below the count and for
    no other `i`, and the topic itself is not subscribed.
  */
  lemma PartitionedTargets(topic: string, n: int, i: nat)
    requires n > 0
    ensures |SubscribeTargets(topic, n)| == n
    ensures Naming.PartitionName(topic, i) in SubscribeTargets(topic, n) <==> i < n
    ensures topic !in SubscribeTargets(topic, n)
  {
    var ts := SubscribeTargets(topic, n);
    if Naming.PartitionName(topic, i) in ts {
      var j :| 0 <= j < n && ts[j] == Naming.PartitionName(topic, i);
      Naming.PartitionNamesDistinct(topic, i, j);
    }
    if i < n {
      assert ts[i] == Naming.PartitionName(topic, i);
    }
    forall j | 0 <= j < n ensures ts[j] != topic {
      Naming.PartitionNamesDistinct(topic, j, j);
    }
  }

  /** No target is subscribed twice, so no two physical consumers of one call share a topic. */
  lemma TargetsDistinct(topic: string, n: int)
    ensures Distinct(SubscribeTargets(topic, n))
  {
    var ts := SubscribeTargets(topic, n);
    if n > 0 {
      forall i, j | 0 <= i < j < |ts| ensures ts[i] != ts[j] {
        Naming.PartitionNamesDistinct(topic, i, j);
      }
    }
  }

  /** A topic without partitions gets exactly one subscribe, for the topic itself; a negative count gets none. */
  lemma UnpartitionedTargets(topic: string, n: int)
    requires n <= 0
    ensures SubscribeTargets(topic, n) == if n == 0 then [topic] else []
  {
  }

  /**
    The benchmark consumer `createConsumer` returns. `pending` are the physical
    consumers whose subscription it waits for; `members` is the list it reads
    from, empty until every one of them has subscribed.
  */
  class ConsumerHandle {
    var members: seq<Client.ConsumerId>
    const pending: seq<Client.ConsumerId>

    constructor (pending: seq<Client.ConsumerId>)
      ensures this.pending == pending && members == []
    {
      this.pending := pending;
      members := [];
    }

    /**
      The completion of the wait on all subscribes: unless one of them failed,
      each physical consumer is added to the list, in subscription order.
    */
    method AllSubscribed(failed: set<Client.ConsumerId>)
      modifies this
      ensures (forall i :: 0 <= i < |pending| ==> pending[i] !in failed) ==> members == old(members) + pending
      ensures (exists i :: 0 <= i < |pending| && pending[i] in failed) ==> members == old(members)
    {
      if exists i :: 0 <= i < |pending| && pending[i] in failed {
        return;
      }
      var k := 0;
      var start := members;
      while k < |pending|
        invariant 0 <= k <= |pending|
        invariant members == start + pending[..k]
      {
        members := members + [pending[k]];
        k := k + 1;
      }
    }
  }

  /**
    What `createConsumer` hands back: a future already completed with the
    consumer; a future that completes with the consumer when one given
    subscribe does (the fallback after an admin error); or an
    IllegalArgumentException thrown by the call itself.
  */
  datatype ConsumerFuture =
    | Completed(consumer: ConsumerHandle)
    | OnSubscribe(subscription: Client.ConsumerId)
    | ThrewIllegalArgument

  /**
    What a future of `createConsumer` yields once the subscribes in `failed`
    have failed and every other one has succeeded: a completed future its
    consumer; the fallback future a new consumer holding exactly its one
    physical consumer, or nothing (it completes exceptionally) when that
    subscribe failed; a call that threw no consumer at all.
  */
  method Settle(f: ConsumerFuture, failed: set<Client.ConsumerId>) returns (r: Option<ConsumerHandle>)
    ensures f.Completed? ==> r == Some(f.consumer)
    ensures f.ThrewIllegalArgument? ==> r == None
    ensures f.OnSubscribe? ==> (r.Some? <==> f.subscription !in failed)
    ensures f.OnSubscribe? && r.Some? ==>
              fresh(r.value) && r.value.members == [f.subscription] && r.value.pending == [f.subscription]
  {
    match f
    case Completed(consumer) =>
      r := Some(consumer);
    case ThrewIllegalArgument =>
      r := None;
    case OnSubscribe(id) =>
      if id in failed {
        r := None;
      } else {
        var consumer := new ConsumerHandle([id]);
        consumer.members := [id];
        r := Some(consumer);
      }
  }

  /** A received message: its payload and its publish time in milliseconds, a Java `long`. */
  datatype Message = Message(data: seq<Byte>, publishTime: int)

  /** What the listener does, in order. */
  datatype ListenerEffect =
    | Delivered(payload: seq<Byte>, publishTimestampNanos: int)
    | Acknowledged(consumer: Client.ConsumerId, message: Message)

  /**
    The message listener of every subscribe: hand the payload and the publish
    time converted to nanoseconds to the benchmark callback, then acknowledge
    the message on the consumer that received it. `c` stands for the consumer
    the listener was installed on: an id returned by `Client.PulsarClient.Subscribe`
    in `createConsumer`.
  */
  function Listen(c: Client.ConsumerId, msg: Message): (effects: seq<ListenerEffect>)
    requires IsLong(msg.publishTime)
    ensures |effects| == 2 && effects[0].Delivered? && effects[1].Acknowledged?
    ensures effects[0].payload == msg.data
    ensures IsLong(effects[0].publishTimestampNanos)
    ensures effects[1].consumer == c && effects[1].message == msg
  {
    [Delivered(msg.data, Naming.ToNanos(msg.publishTime)), Acknowledged(c, msg)]
  }

  /** Two messages the listener cannot tell apart are the same message: it acknowledges exactly what it received. */
  lemma ListenAcknowledgesReceived(c: Client.ConsumerId, m1: Message, m2: Message)
    requires IsLong(m1.publishTime) && IsLong(m2.publishTime)
    ensures Listen(c, m1)[1] == Listen(c, m2)[1] <==> m1 == m2
  {
  }

  /**
    For every publish time up to about 292 years away from the epoch (the range
    where the conversion does not saturate), the callback sees exactly that
    time in nanoseconds, from which the milliseconds are recovered without loss.
  */
  lemma ListenDeliversPublishTime(c: Client.ConsumerId, msg: Message)
    requires -Naming.MAX_MILLIS <= msg.publishTime <= Naming.MAX_MILLIS
    ensures IsLong(msg.publishTime)
    ensures Listen(c, msg)[0].publishTimestampNanos == msg.publishTime * Naming.NANOS_PER_MILLI
    ensures Listen(c, msg)[0].publishTimestampNanos / Naming.NANOS_PER_MILLI == msg.publishTime
  {
    Naming.ToNanosRoundTrip(msg.publishTime);
  }

  /** The listener keeps the order of publish times, also where the conversion saturates. */
  lemma ListenKeepsOrder(c: Client.ConsumerId, m1: Message, m2: Message)
    requires IsLong(m1.publishTime) && IsLong(m2.publishTime)
    requires m1.publishTime <= m2.publishTime
    ensures Listen(c, m1)[0].publishTimestampNanos <= Listen(c, m2)[0].publishTimestampNanos
  {
    Naming.ToNanosMonotone(m1.publishTime, m2.publishTime);
  }
}
