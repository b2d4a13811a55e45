/**
  The Pulsar benchmark driver itself: the object the benchmark framework
  initializes once, asks for topics, consumers and the topic name prefix, and
  closes at the end.

  The two clients are handed to `Initialize` already built, and the random
  namespace suffix is a parameter; everything the driver then does with them
  is the model of the admin service in `Admin`, the client in `Client`, the
  cleanup sweep in `Cleanup` and the provisioning in `Provisioning`.
*/
module Driver {
  import opened Common
  import opened Admin
  import Naming
  import Client
  import Fanout
  import Cleanup
  import Provisioning

  /** How `close` ends: normally, or with the NullPointerException of the cleanup on a missing admin client. */
  datatype CloseOutcome = Closed | ThrewNullPointer

  class PulsarBenchmarkDriver {
    var client: Client.PulsarClient?
    var adminClient: PulsarAdmin?
    var config: Option<Provisioning.Config>
    var namespace: Option<string>

    /** A driver before `initialize`: every field is still null. */
    constructor ()
      ensures client == null && adminClient == null && config == None && namespace == None
    {
      client := null;
      adminClient := null;
      config := None;
      namespace := None;
    }

    /**
      Store the configuration and the clients, sweep the benchmark tenant of
      what earlier runs left behind (whatever error the sweep meets is
      swallowed), then provision the tenant and a fresh namespace named by
      `suffix` with its policies.
    */
    method Initialize(cfg: Provisioning.Config, newClient: Client.PulsarClient, newAdmin: PulsarAdmin, suffix: string)
      returns (outcome: Provisioning.InitOutcome, ghost plan: Cleanup.SweepPlan)
      modifies this, newAdmin
      ensures config == Some(cfg) && client == newClient && adminClient == newAdmin
      ensures Cleanup.SweepFollows(old(newAdmin.State()), plan)
      ensures var r := Provisioning.Provision(Cleanup.SweepRun(old(newAdmin.State()), plan).after, cfg, suffix);
              newAdmin.State() == r.after && outcome == r.outcome
              && namespace == (if r.namespace.Some? then r.namespace else old(namespace))
      ensures newAdmin.closed == old(newAdmin.closed)
    {
      config := Some(cfg);
      client := newClient;
      adminClient := newAdmin;
      var swallowed;
      swallowed, plan := Cleanup.CleanupTopics(newAdmin);
      var written;
      outcome, written := Provisioning.ProvisionOn(newAdmin, cfg, suffix);
      if written.Some? {
        namespace := written;
      }
    }

    /** The prefix of every topic name the benchmark creates: the topic type, then the namespace. */
    function GetTopicNamePrefix(): (r: string)
      reads this
      requires config.Some?
      ensures var t := config.value.topicType;
              && |r| == |t| + 3 + |Naming.NamespaceText(namespace)| + 5
              && r[..|t|] == t && r[|t|..|t| + 3] == "://"
              && r[|t| + 3..|r| - 5] == Naming.NamespaceText(namespace)
              && r[|r| - 5..] == "/test"
    {
      Naming.TopicNamePrefixParts(config.value.topicType, namespace);
      Naming.TopicNamePrefix(config.value.topicType, namespace)
    }

    /**
      A topic of one partition is left to be created on first use; any other
      count is created as a partitioned topic.
    */
    method CreateTopic(topic: string, partitions: int) returns (r: Result<(), AdminError>)
      requires partitions != 1 ==> adminClient != null
      modifies adminClient
      ensures partitions == 1 ==> r == Success(()) && (adminClient != null ==> unchanged(adminClient))
      ensures partitions != 1 ==>
                var st := CreatePartitionedTopicStep(old(adminClient.State()), topic, partitions);
                adminClient.State() == st.after && r == st.result && adminClient.closed == old(adminClient.closed)
    {
      if partitions == 1 {
        return Success(());
      }
      r := adminClient.CreatePartitionedTopic(topic, partitions);
    }

    /** Nothing to do once a topic exists. */
    method NotifyTopicCreation(topic: string, partitions: int) returns (r: Result<(), AdminError>)
      ensures r == Success(())
    {
      r := Success(());
    }

    /**
      Read the partition count of the topic and subscribe once per partition,
      or to the topic itself when it has none; the consumer returned learns its
      physical consumers once all of them have subscribed. When the metadata
      cannot be read, subscribe to the topic itself instead, and hand back the
      future of that one subscribe (see `Fanout.Settle`).
    */
    method CreateConsumer(topic: string, subscriptionName: string) returns (f: Fanout.ConsumerFuture)
      requires adminClient != null && client != null
      modifies adminClient, client
      ensures adminClient.closed == old(adminClient.closed) && client.closed == old(client.closed)
      ensures var st := GetPartitionedTopicMetadataStep(old(adminClient.State()), topic);
              adminClient.State() == st.after
      ensures var st := GetPartitionedTopicMetadataStep(old(adminClient.State()), topic);
              st.result.Failure? ==>
                client.subscribes == old(client.subscribes) + [Client.SubscribeCall(topic, subscriptionName, Client.Failover, 0)]
                && f == Fanout.OnSubscribe(|old(client.subscribes)|)
      ensures var st := GetPartitionedTopicMetadataStep(old(adminClient.State()), topic);
              st.result.Success? ==>
                var n := Fanout.PartitionCount(st.result.value);
                var targets := Fanout.SubscribeTargets(topic, n);
                client.subscribes == old(client.subscribes) + Fanout.SubscribeCalls(targets, subscriptionName)
                && (f.ThrewIllegalArgument? <==> n < 0)
                && (n >= 0 ==> f.Completed? && fresh(f.consumer) && f.consumer.members == []
                               && f.consumer.pending == Fanout.Ids(|old(client.subscribes)|, |targets|))
    {
      var meta := adminClient.GetPartitionedTopicMetadata(topic);
      if meta.Failure? {
        var id := client.Subscribe(topic, subscriptionName, Client.Failover, 0);
        return Fanout.OnSubscribe(id);
      }
      var partitions := Fanout.PartitionCount(meta.value);
      var ids := Fanout.SubscribeAll(client, topic, partitions, subscriptionName);
      if partitions < 0 {
        return Fanout.ThrewIllegalArgument;
      }
      var consumer := new Fanout.ConsumerHandle(ids);
      f := Fanout.Completed(consumer);
    }

    /**
      Sweep the benchmark tenant, then close the data-plane client and the
      admin client, each only if it exists. The sweep runs first and reads the
      admin client unguarded.
    */
    method Close() returns (outcome: CloseOutcome, ghost plan: Cleanup.SweepPlan)
      modifies adminClient, client
      ensures adminClient == null ==> outcome == ThrewNullPointer && (client != null ==> unchanged(client))
      ensures adminClient != null ==>
                outcome == Closed && Cleanup.SweepFollows(old(adminClient.State()), plan)
                && adminClient.State() == Cleanup.SweepRun(old(adminClient.State()), plan).after
                && adminClient.closed
      ensures adminClient != null && client != null ==>
                client.closed && client.subscribes == old(client.subscribes)
    {
      if adminClient == null {
        return ThrewNullPointer, [];
      }
      var swallowed;
      swallowed, plan := Cleanup.CleanupTopics(adminClient);
      if client != null {
        client.Close();
      }
      adminClient.Close();
      outcome := Closed;
    }

    /** `close` with the sweep skipped when there is no admin client to sweep with. */
    method CloseGuarded() returns (outcome: CloseOutcome, ghost plan: Cleanup.SweepPlan)
      modifies adminClient, client
      ensures outcome == Closed
      ensures client != null ==> client.closed && client.subscribes == old(client.subscribes)
      ensures adminClient == null ==> plan == []
      ensures adminClient != null ==>
                Cleanup.SweepFollows(old(adminClient.State()), plan)
                && adminClient.State() == Cleanup.SweepRun(old(adminClient.State()), plan).after
                && adminClient.closed
    {
      plan := [];
      if adminClient != null {
        var swallowed;
        swallowed, plan := Cleanup.CleanupTopics(adminClient);
      }
      if client != null {
        client.Close();
      }
      if adminClient != null {
        adminClient.Close();
      }
      outcome := Closed;
    }
  }

  /**
    A driver whose data-plane client was built but whose admin client was
    not (its builder threw) cannot be closed: `close` throws before it reaches
    the client, which stays open.
  */
  method CloseWithoutAdmin() returns (outcome: CloseOutcome, clientClosed: bool)
    ensures outcome == ThrewNullPointer && !clientClosed
  {
    var driver := new PulsarBenchmarkDriver();
    var client := new Client.PulsarClient();
    driver.client := client;
    ghost var plan;
    outcome, plan := driver.Close();
    clientClosed := client.closed;
  }

  /** The guarded close of the same driver ends normally and closes the client. */
  method CloseGuardedWithoutAdmin() returns (outcome: CloseOutcome, clientClosed: bool)
    ensures outcome == Closed && clientClosed
  {
    var driver := new PulsarBenchmarkDriver();
    var client := new Client.PulsarClient();
    driver.client := client;
    ghost var plan;
    outcome, plan := driver.CloseGuarded();
    clientClosed := client.closed;
  }

  /**
    A topic created through `createTopic` and then consumed, with no admin
    error in between, is subscribed through exactly the topics its partition
    count calls for: the topic itself when it has one partition (it was never
    created as partitioned), its partitions otherwise.
  */
  lemma CreateThenConsumeTargets(s: Store, topic: string, partitions: int)
    requires topic !in s.partitioned
    requires |s.log| !in s.faults && |s.log| + 1 !in s.faults
    ensures var created := if partitions == 1 then s else CreatePartitionedTopicStep(s, topic, partitions).after;
            var meta := GetPartitionedTopicMetadataStep(created, topic);
            meta.result.Success?
            && Fanout.SubscribeTargets(topic, Fanout.PartitionCount(meta.result.value))
               == if partitions == 1 then [topic] else Fanout.SubscribeTargets(topic, partitions)
  {
  }
}
