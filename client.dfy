/**
  A stand-in for the Pulsar data-plane client, as far as the consumer fan-out
  uses it: every subscribe the driver issues is recorded, and the physical
  consumer it creates is named by its position in that record. Whether a
  subscribe later succeeds is decided by whoever completes it.
*/
module Client {

  datatype SubscriptionType = Exclusive | Shared | Failover | KeyShared

  /** One `subscribeAsync()` on a consumer builder: the topic, the subscription and the settings that matter here. */
  datatype SubscribeCall = SubscribeCall(topic: string, subscription: string, subscriptionType: SubscriptionType, priorityLevel: int)

  /** A physical consumer: the position of the subscribe that created it. */
  type ConsumerId = nat

  class PulsarClient {
    var subscribes: seq<SubscribeCall>
    var closed: bool

    constructor ()
      ensures subscribes == [] && !closed
    {
      subscribes := [];
      closed := false;
    }

    method Subscribe(topic: string, subscription: string, subscriptionType: SubscriptionType, priorityLevel: int)
      returns (id: ConsumerId)
      modifies this
      ensures id == |old(subscribes)|
      ensures subscribes == old(subscribes) + [SubscribeCall(topic, subscription, subscriptionType, priorityLevel)]
      ensures closed == old(closed)
    {
      id := |subscribes|;
      subscribes := subscribes + [SubscribeCall(topic, subscription, subscriptionType, priorityLevel)];
    }

    method Close()
      modifies this
      ensures subscribes == old(subscribes) && closed
    {
      closed := true;
    }
  }
}
