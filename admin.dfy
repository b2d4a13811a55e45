/**
  An abstract, in-memory stand-in for the Pulsar admin service, as far as the
  driver uses it: tenants as a set, every namespace as a map from each of its
  topics to that topic's set of subscriptions, and the partitioned-topic
  metadata registry.

  Every call is appended to a log. Which calls fail is decided by a fault plan
  fixed up front: the call whose position in the log is a key of `faults`
  throws that error. A planned Conflict on the creation of a tenant stands for
  another client creating the same tenant just before, so the tenant exists
  afterwards. Besides, the service answers Conflict for a tenant or namespace
  that exists already, and NotFound when the tenant whose namespaces are
  listed, or the namespace, topic or subscription named, does not exist.
  Creating a namespace does not check that its tenant exists. A topic's name
  carries its namespace in Pulsar; here the namespace is passed next to the
  topic name instead of being parsed out of it.
*/
module Admin {
  import opened Common
  import Naming

  /** The subclasses of PulsarAdminException the model tells apart. */
  datatype AdminError = Conflict | NotFound | ServerError(reason: string)

  datatype AdminCall =
    | GetTenants
    | CreateTenant(tenant: string, cluster: string)
    | CreateNamespace(namespace: string)
    | SetPersistence(namespace: string, ensembleSize: int, writeQuorum: int, ackQuorum: int)
    | SetBacklogQuota(namespace: string)
    | SetDeduplicationStatus(namespace: string, enabled: bool)
    | GetNamespaces(tenant: string)
    | GetTopics(namespace: string)
    | GetSubscriptions(namespace: string, topic: string)
    | DeleteSubscription(namespace: string, topic: string, subscription: string, force: bool)
    | DeleteTopic(namespace: string, topic: string, force: bool)
    | CreatePartitionedTopic(topic: string, partitions: int)
    | GetPartitionedTopicMetadata(topic: string)

  type Namespaces = map<string, map<string, set<string>>>

  datatype Store = Store(
    tenants: set<string>,
    namespaces: Namespaces,
    partitioned: map<string, int>,
    faults: map<nat, AdminError>,
    log: seq<AdminCall>)

  /** What one call returns, and the store after it. */
  datatype Step<+T> = Step(result: Result<T, AdminError>, after: Store)

  /** No call at a log position in [from, to) is planned to fail. */
  ghost predicate FaultFree(faults: map<nat, AdminError>, from: int, to: int) {
    forall k: nat :: from <= k < to ==> k !in faults
  }

  /** Fault-free stretches of the log join up. */
  lemma FaultFreeJoin(faults: map<nat, AdminError>, a: int, b: int, c: int)
    requires FaultFree(faults, a, b) && FaultFree(faults, b, c)
    ensures FaultFree(faults, a, c)
  {
  }

  /** A call that met no planned failure, followed by a fault-free stretch. */
  lemma FaultFreeCons(faults: map<nat, AdminError>, n: nat, c: int)
    requires n !in faults && FaultFree(faults, n + 1, c)
    ensures FaultFree(faults, n, c)
  {
  }

  /** The planned failure of the next call, if any. */
  function NextFault(s: Store): Option<AdminError> {
    if |s.log| in s.faults then Some(s.faults[|s.log|]) else None
  }

  function Record(s: Store, c: AdminCall): (s': Store)
    ensures s'.log == s.log + [c]
    ensures s'.tenants == s.tenants && s'.namespaces == s.namespaces
    ensures s'.partitioned == s.partitioned && s'.faults == s.faults
  {
    s.(log := s.log + [c])
  }

  /** A call that changes nothing: it records itself and answers `ok` unless it is planned to fail. */
  function Query<T>(s: Store, c: AdminCall, ok: Result<T, AdminError>): Step<T> {
    match NextFault(s)
    case Some(e) => Step(Failure(e), Record(s, c))
    case None => Step(ok, Record(s, c))
  }

  function GetTenantsStep(s: Store): Step<set<string>> {
    Query(s, GetTenants, Success(s.tenants))
  }

  function CreateTenantStep(s: Store, tenant: string, cluster: string): Step<()> {
    var s' := Record(s, CreateTenant(tenant, cluster));
    match NextFault(s)
    case Some(Conflict) => Step(Failure(Conflict), s'.(tenants := s.tenants + {tenant}))
    case Some(e) => Step(Failure(e), s')
    case None =>
      if tenant in s.tenants then Step(Failure(Conflict), s')
      else Step(Success(()), s'.(tenants := s.tenants + {tenant}))
  }

  function CreateNamespaceStep(s: Store, ns: string): Step<()> {
    var s' := Record(s, CreateNamespace(ns));
    match NextFault(s)
    case Some(e) => Step(Failure(e), s')
    case None =>
      if ns in s.namespaces then Step(Failure(Conflict), s')
      else Step(Success(()), s'.(namespaces := s.namespaces[ns := map[]]))
  }

  /** A namespace policy setter: only the fact of the call is kept, not the policy. */
  function PolicyStep(s: Store, c: AdminCall, ns: string): Step<()> {
    Query(s, c, if ns in s.namespaces then Success(()) else Failure(NotFound))
  }

  function GetNamespacesStep(s: Store, tenant: string): Step<set<string>> {
    Query(s, GetNamespaces(tenant),
      if tenant in s.tenants
      then Success(set ns | ns in s.namespaces && Naming.TenantOfNamespace(ns) == tenant)
      else Failure(NotFound))
  }

  function GetTopicsStep(s: Store, ns: string): Step<set<string>> {
    Query(s, GetTopics(ns), if ns in s.namespaces then Success(s.namespaces[ns].Keys) else Failure(NotFound))
  }

  function GetSubscriptionsStep(s: Store, ns: string, topic: string): Step<set<string>> {
    Query(s, GetSubscriptions(ns, topic),
      if ns in s.namespaces && topic in s.namespaces[ns]
      then Success(s.namespaces[ns][topic])
      else Failure(NotFound))
  }

  function DeleteSubscriptionStep(s: Store, ns: string, topic: string, sub: string, force: bool): Step<()> {
    var s' := Record(s, DeleteSubscription(ns, topic, sub, force));
    match NextFault(s)
    case Some(e) => Step(Failure(e), s')
    case None =>
      if ns in s.namespaces && topic in s.namespaces[ns] && sub in s.namespaces[ns][topic]
      then
        var topics := s.namespaces[ns];
        Step(Success(()), s'.(namespaces := s.namespaces[ns := topics[topic := topics[topic] - {sub}]]))
      else Step(Failure(NotFound), s')
  }

  function DeleteTopicStep(s: Store, ns: string, topic: string, force: bool): Step<()> {
    var s' := Record(s, DeleteTopic(ns, topic, force));
    match NextFault(s)
    case Some(e) => Step(Failure(e), s')
    case None =>
      if ns in s.namespaces && topic in s.namespaces[ns]
      then Step(Success(()), s'.(namespaces := s.namespaces[ns := s.namespaces[ns] - {topic}]))
      else Step(Failure(NotFound), s')
  }

  function CreatePartitionedTopicStep(s: Store, topic: string, partitions: int): Step<()> {
    var s' := Record(s, CreatePartitionedTopic(topic, partitions));
    match NextFault(s)
    case Some(e) => Step(Failure(e), s')
    case None =>
      if topic in s.partitioned then Step(Failure(Conflict), s')
      else Step(Success(()), s'.(partitioned := s.partitioned[topic := partitions]))
  }

  /**
    The metadata of a topic: its partition count, 0 for a topic that is not
    partitioned. `None` stands for a null metadata object, which the service
    modelled here never returns but the driver still handles.
  */
  function GetPartitionedTopicMetadataStep(s: Store, topic: string): Step<Option<int>> {
    Query(s, GetPartitionedTopicMetadata(topic),
      Success(Some(if topic in s.partitioned then s.partitioned[topic] else 0)))
  }

  /** `r` lists the answer of `st`, or fails as `st` does. */
  ghost predicate Lists(r: Result<seq<string>, AdminError>, st: Step<set<string>>) {
    match st.result
    case Success(names) => r.Success? && Enumerates(r.value, names)
    case Failure(e) => r == Failure(e)
  }

  /** The admin client object, a view of the service's state. */
  class PulsarAdmin {
    var tenants: set<string>
    var namespaces: Namespaces
    var partitioned: map<string, int>
    const faults: map<nat, AdminError>
    var log: seq<AdminCall>
    var closed: bool

    function State(): Store
      reads this
    {
      Store(tenants, namespaces, partitioned, faults, log)
    }

    constructor (tenants: set<string>, namespaces: Namespaces, partitioned: map<string, int>, faults: map<nat, AdminError>)
      ensures State() == Store(tenants, namespaces, partitioned, faults, []) && !closed
    {
      this.tenants := tenants;
      this.namespaces := namespaces;
      this.partitioned := partitioned;
      this.faults := faults;
      this.log := [];
      this.closed := false;
    }

    method Commit(s: Store)
      requires s.faults == faults
      modifies this
      ensures State() == s && closed == old(closed)
    {
      tenants, namespaces, partitioned, log := s.tenants, s.namespaces, s.partitioned, s.log;
    }

    method GetTenants() returns (r: Result<seq<string>, AdminError>)
      modifies this
      ensures var st := GetTenantsStep(old(State())); State() == st.after && Lists(r, st)
      ensures closed == old(closed)
    {
      var st := GetTenantsStep(State());
      Commit(st.after);
      r := ListOf(st.result);
    }

    method CreateTenant(tenant: string, cluster: string) returns (r: Result<(), AdminError>)
      modifies this
      ensures var st := CreateTenantStep(old(State()), tenant, cluster); State() == st.after && r == st.result
      ensures closed == old(closed)
    {
      var st := CreateTenantStep(State(), tenant, cluster);
      Commit(st.after);
      r := st.result;
    }

    method CreateNamespace(ns: string) returns (r: Result<(), AdminError>)
      modifies this
      ensures var st := CreateNamespaceStep(old(State()), ns); State() == st.after && r == st.result
      ensures closed == old(closed)
    {
      var st := CreateNamespaceStep(State(), ns);
      Commit(st.after);
      r := st.result;
    }

    method SetPersistence(ns: string, ensembleSize: int, writeQuorum: int, ackQuorum: int)
      returns (r: Result<(), AdminError>)
      modifies this
      ensures var st := PolicyStep(old(State()), AdminCall.SetPersistence(ns, ensembleSize, writeQuorum, ackQuorum), ns);
              State() == st.after && r == st.result
      ensures closed == old(closed)
    {
      var st := PolicyStep(State(), AdminCall.SetPersistence(ns, ensembleSize, writeQuorum, ackQuorum), ns);
      Commit(st.after);
      r := st.result;
    }

    method SetBacklogQuota(ns: string) returns (r: Result<(), AdminError>)
      modifies this
      ensures var st := PolicyStep(old(State()), AdminCall.SetBacklogQuota(ns), ns);
              State() == st.after && r == st.result
      ensures closed == old(closed)
    {
      var st := PolicyStep(State(), AdminCall.SetBacklogQuota(ns), ns);
      Commit(st.after);
      r := st.result;
    }

    method SetDeduplicationStatus(ns: string, enabled: bool) returns (r: Result<(), AdminError>)
      modifies this
      ensures var st := PolicyStep(old(State()), AdminCall.SetDeduplicationStatus(ns, enabled), ns);
              State() == st.after && r == st.result
      ensures closed == old(closed)
    {
      var st := PolicyStep(State(), AdminCall.SetDeduplicationStatus(ns, enabled), ns);
      Commit(st.after);
      r := st.result;
    }

    method GetNamespaces(tenant: string) returns (r: Result<seq<string>, AdminError>)
      modifies this
      ensures var st := GetNamespacesStep(old(State()), tenant); State() == st.after && Lists(r, st)
      ensures closed == old(closed)
    {
      var st := GetNamespacesStep(State(), tenant);
      Commit(st.after);
      r := ListOf(st.result);
    }

    method GetTopics(ns: string) returns (r: Result<seq<string>, AdminError>)
      modifies this
      ensures var st := GetTopicsStep(old(State()), ns); State() == st.after && Lists(r, st)
      ensures closed == old(closed)
    {
      var st := GetTopicsStep(State(), ns);
      Commit(st.after);
      r := ListOf(st.result);
    }

    method GetSubscriptions(ns: string, topic: string) returns (r: Result<seq<string>, AdminError>)
      modifies this
      ensures var st := GetSubscriptionsStep(old(State()), ns, topic); State() == st.after && Lists(r, st)
      ensures closed == old(closed)
    {
      var st := GetSubscriptionsStep(State(), ns, topic);
      Commit(st.after);
      r := ListOf(st.result);
    }

    method DeleteSubscription(ns: string, topic: string, sub: string, force: bool) returns (r: Result<(), AdminError>)
      modifies this
      ensures var st := DeleteSubscriptionStep(old(State()), ns, topic, sub, force);
              State() == st.after && r == st.result
      ensures closed == old(closed)
    {
      var st := DeleteSubscriptionStep(State(), ns, topic, sub, force);
      Commit(st.after);
      r := st.result;
    }

    method DeleteTopic(ns: string, topic: string, force: bool) returns (r: Result<(), AdminError>)
      modifies this
      ensures var st := DeleteTopicStep(old(State()), ns, topic, force); State() == st.after && r == st.result
      ensures closed == old(closed)
    {
      var st := DeleteTopicStep(State(), ns, topic, force);
      Commit(st.after);
      r := st.result;
    }

    method CreatePartitionedTopic(topic: string, partitions: int) returns (r: Result<(), AdminError>)
      modifies this
      ensures var st := CreatePartitionedTopicStep(old(State()), topic, partitions);
              State() == st.after && r == st.result
      ensures closed == old(closed)
    {
      var st := CreatePartitionedTopicStep(State(), topic, partitions);
      Commit(st.after);
      r := st.result;
    }

    method GetPartitionedTopicMetadata(topic: string) returns (r: Result<Option<int>, AdminError>)
      modifies this
      ensures var st := GetPartitionedTopicMetadataStep(old(State()), topic); State() == st.after && r == st.result
      ensures closed == old(closed)
    {
      var st := GetPartitionedTopicMetadataStep(State(), topic);
      Commit(st.after);
      r := st.result;
    }

    method Close()
      modifies this
      ensures State() == old(State()) && closed
    {
      closed := true;
    }
  }

  /** The answer of a listing call, as a list in the service's order. */
  method ListOf(answer: Result<set<string>, AdminError>) returns (r: Result<seq<string>, AdminError>)
    ensures answer.Success? ==> r.Success? && Enumerates(r.value, answer.value)
    ensures answer.Failure? ==> r == Failure(answer.error)
  {
    match answer
    case Success(names) =>
      var xs := Enumerate(names);
      r := Success(xs);
    case Failure(e) =>
      r := Failure(e);
  }
}
