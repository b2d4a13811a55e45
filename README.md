# Pulsar benchmark driver, modelled in Dafny

This project models the Pulsar driver of the OpenMessaging benchmark, the
class `PulsarBenchmarkDriver`. The benchmark framework initializes the driver once. It
then asks the driver for the topic name prefix, for partitioned topics and for
consumers, and closes it at the end. The model covers four parts:

- **Provisioning** (`Provisioning`, `Naming`): `initialize` reads the tenant
  off the configured namespace prefix. It then creates the tenant unless it is
  listed, and takes a Conflict from that creation as success. Next it creates
  the namespace `prefix-suffix` and sets its persistence policy, backlog quota
  and deduplication status. The first admin error ends initialization.
- **Cleanup** (`Cleanup`): `cleanupTopics` sweeps the `benchmark` tenant. For
  every namespace, and every topic in it, it force-deletes each subscription and
  then the topic. The first admin error ends the whole sweep, silently.
- **Consumer fan-out** (`Fanout`): `createConsumer` reads the partition count
  of a topic. It then subscribes once per partition `topic-partition-i`, or to
  the topic itself when the count is zero, always Failover at priority 0. It
  falls back to a single subscribe when the metadata cannot be read.
- **The driver object** (`Driver`): its fields and the order in which
  `initialize` and `close` use them.

The remaining modules are the environment:

- `Admin` is a model of the Pulsar admin service. It keeps tenants, namespaces
  with their topics and subscriptions, and partitioned-topic metadata.
  Every call is appended to a log. A fault plan, keyed by the position of the
  call in that log, says which calls fail and with which error.
- `Client` records the subscribes of the data-plane client.

The pure parts are functions: names, the partition plan, and the specification
functions `Provision` and `SweepRun` with the admin store as a value. The
driver, the admin client, the data-plane client and the consumer handle are
classes whose methods change their fields. Each method is proved to leave
exactly the state its specification function computes. The properties the
driver promises are proved as lemmas about those functions.

The code is followed where a description of the driver says otherwise:

- The first sweep runs right after the clients are built, before provisioning,
  not at the end of initialization.
- The first error ends the sweep; it does not continue past it.
- A second sweep still lists the benchmark namespaces, because the sweep
  deletes only topics and subscriptions, never namespaces. What repeats
  without effect is the deleting: see `Cleanup.SweepOfSweptDeletesNothing`.
- A negative partition count throws instead of yielding one consumer.

## Model

| member | source | states |
|---|---|---|
| Naming.BeforeFirstSlash | driver-pulsar/src/main/java/io/openmessaging/benchmark/driver/pulsar/PulsarBenchmarkDriver.java:123 | the result is a prefix of the input with no '/', followed in the input by '/' unless it is all of it |
| Naming.TenantIsBeforeFirstSlash | driver-pulsar/src/main/java/io/openmessaging/benchmark/driver/pulsar/PulsarBenchmarkDriver.java:123 | `split("/")[0]` has no element to index (the array index exception) exactly when the prefix is made of slashes only; otherwise the tenant is the text before the first '/' |
| Naming.NamespaceName | driver-pulsar/src/main/java/io/openmessaging/benchmark/driver/pulsar/PulsarBenchmarkDriver.java:136 | the namespace is the prefix, one '-', then the random suffix |
| Naming.NamespaceBelongsToTenant | driver-pulsar/src/main/java/io/openmessaging/benchmark/driver/pulsar/PulsarBenchmarkDriver.java:123-137 | for a prefix of the form `tenant/...`, the namespace created lies in the tenant `initialize` ensured |
| Naming.TopicNamePrefixParts | driver-pulsar/src/main/java/io/openmessaging/benchmark/driver/pulsar/PulsarBenchmarkDriver.java:156-158 | the prefix is the topic type, "://", the namespace (the text "null" before one was written), then "/test" |
| Driver.PulsarBenchmarkDriver.GetTopicNamePrefix | driver-pulsar/src/main/java/io/openmessaging/benchmark/driver/pulsar/PulsarBenchmarkDriver.java:155-158 | the driver's prefix is its configured topic type, "://", its `namespace` field ("null" before `initialize` wrote it), then "/test" |
| Naming.PartitionName | driver-pulsar/src/main/java/io/openmessaging/benchmark/driver/pulsar/PulsarBenchmarkDriver.java:199 | a sub-topic name is the topic, "-partition-", then the partition number in decimal |
| Naming.NatToStringInjective | driver-pulsar/src/main/java/io/openmessaging/benchmark/driver/pulsar/PulsarBenchmarkDriver.java:199 | different partition numbers are rendered as different decimal texts |
| Naming.PartitionNamesDistinct | driver-pulsar/src/main/java/io/openmessaging/benchmark/driver/pulsar/PulsarBenchmarkDriver.java:192-205 | two sub-topic names of a topic are equal exactly when their partition numbers are, and none equals the topic |
| Naming.ToNanos | driver-pulsar/src/main/java/io/openmessaging/benchmark/driver/pulsar/PulsarBenchmarkDriver.java:196 | milliseconds to nanoseconds: exact within about 292 years of the epoch, saturating at the `long` bounds beyond |
| Naming.ToNanosRoundTrip | driver-pulsar/src/main/java/io/openmessaging/benchmark/driver/pulsar/PulsarBenchmarkDriver.java:196 | inside the exact range the nanoseconds are a multiple of a million and give back the milliseconds |
| Naming.ToNanosMonotone | driver-pulsar/src/main/java/io/openmessaging/benchmark/driver/pulsar/PulsarBenchmarkDriver.java:196 | the conversion never reverses the order of two publish times |
| Fanout.PartitionTopics | driver-pulsar/src/main/java/io/openmessaging/benchmark/driver/pulsar/PulsarBenchmarkDriver.java:192-205 | the partition loop targets sub-topic i at position i, for every i below the count |
| Fanout.SubscribeCalls | driver-pulsar/src/main/java/io/openmessaging/benchmark/driver/pulsar/PulsarBenchmarkDriver.java:193-203 | each target gets one subscribe of type Failover at priority level 0 under the given subscription name |
| Fanout.PartitionedTargets | driver-pulsar/src/main/java/io/openmessaging/benchmark/driver/pulsar/PulsarBenchmarkDriver.java:192-205 | for a positive count, partition i is subscribed exactly when i is below the count, and the topic itself is not subscribed |
| Fanout.TargetsDistinct | driver-pulsar/src/main/java/io/openmessaging/benchmark/driver/pulsar/PulsarBenchmarkDriver.java:192-219 | no topic is subscribed twice by one call |
| Fanout.UnpartitionedTargets | driver-pulsar/src/main/java/io/openmessaging/benchmark/driver/pulsar/PulsarBenchmarkDriver.java:206-220 | a count of zero subscribes the topic once; a negative count subscribes nothing before the list allocation throws |
| Fanout.SubscribePartitions | driver-pulsar/src/main/java/io/openmessaging/benchmark/driver/pulsar/PulsarBenchmarkDriver.java:192-205 | the loop issues exactly the partition subscribes, in order, and returns their consumer ids |
| Fanout.SubscribeAll | driver-pulsar/src/main/java/io/openmessaging/benchmark/driver/pulsar/PulsarBenchmarkDriver.java:192-219 | the loop and the zero-partition case together issue exactly the subscribes of the plan |
| Fanout.ConsumerHandle.constructor | driver-pulsar/src/main/java/io/openmessaging/benchmark/driver/pulsar/PulsarBenchmarkDriver.java:220-226 | the consumer is returned with an empty consumer list and the subscribes it waits for |
| Fanout.ConsumerHandle.AllSubscribed | driver-pulsar/src/main/java/io/openmessaging/benchmark/driver/pulsar/PulsarBenchmarkDriver.java:221-225 | once every subscribe completes, the consumers are added in subscription order; if one fails, none is added |
| Fanout.Settle | driver-pulsar/src/main/java/io/openmessaging/benchmark/driver/pulsar/PulsarBenchmarkDriver.java:226-239 | a completed future yields its consumer; the fallback future yields a new consumer holding exactly its one physical consumer when that subscribe succeeds, and fails (yields none) when it fails |
| Fanout.Listen | driver-pulsar/src/main/java/io/openmessaging/benchmark/driver/pulsar/PulsarBenchmarkDriver.java:194-198 | the listener hands the whole payload and a `long` nanosecond timestamp to the callback, then acknowledges that same message on the consumer that received it |
| Fanout.ListenAcknowledgesReceived | driver-pulsar/src/main/java/io/openmessaging/benchmark/driver/pulsar/PulsarBenchmarkDriver.java:197 | the acknowledgements of two messages are equal exactly when the messages are: the one acknowledged is the one received |
| Fanout.ListenDeliversPublishTime | driver-pulsar/src/main/java/io/openmessaging/benchmark/driver/pulsar/PulsarBenchmarkDriver.java:195-196 | where the conversion does not saturate, the callback sees the publish time in nanoseconds, from which the milliseconds are recovered |
| Fanout.ListenKeepsOrder | driver-pulsar/src/main/java/io/openmessaging/benchmark/driver/pulsar/PulsarBenchmarkDriver.java:196 | later publish times never reach the callback as earlier timestamps |
| Provisioning.ProvisionWithoutTenant | driver-pulsar/src/main/java/io/openmessaging/benchmark/driver/pulsar/PulsarBenchmarkDriver.java:123 | a prefix of slashes only ends initialization with the index exception before any admin call |
| Provisioning.EnsureTenantLog | driver-pulsar/src/main/java/io/openmessaging/benchmark/driver/pulsar/PulsarBenchmarkDriver.java:125-133 | the tenant step lists the tenants and creates the tenant only when it is not listed; on success it issued exactly those calls |
| Provisioning.EnsureTenantWithoutFaults | driver-pulsar/src/main/java/io/openmessaging/benchmark/driver/pulsar/PulsarBenchmarkDriver.java:125-133 | with no admin error the tenant exists afterwards and nothing else changed |
| Provisioning.EnsureTenantFirstFault | driver-pulsar/src/main/java/io/openmessaging/benchmark/driver/pulsar/PulsarBenchmarkDriver.java:125-134 | the first failing call ends the tenant step with its error, unless it is a Conflict from the creation |
| Provisioning.ApplyPoliciesLog | driver-pulsar/src/main/java/io/openmessaging/benchmark/driver/pulsar/PulsarBenchmarkDriver.java:140-146 | the policy calls are issued in order, stopping at the first one that fails; only the log changes |
| Provisioning.ApplyPoliciesWithoutFaults | driver-pulsar/src/main/java/io/openmessaging/benchmark/driver/pulsar/PulsarBenchmarkDriver.java:140-146 | with no admin error all policy calls succeed on an existing namespace |
| Provisioning.ApplyPoliciesFirstFault | driver-pulsar/src/main/java/io/openmessaging/benchmark/driver/pulsar/PulsarBenchmarkDriver.java:140-146 | the k-th failing policy call ends the step with its error, after exactly k + 1 calls |
| Provisioning.ProvisionNamespaceLog | driver-pulsar/src/main/java/io/openmessaging/benchmark/driver/pulsar/PulsarBenchmarkDriver.java:136-146 | the namespace field is written; the creation comes first; on success exactly the creation and the three policy calls were issued |
| Provisioning.ProvisionNamespaceWithoutFaults | driver-pulsar/src/main/java/io/openmessaging/benchmark/driver/pulsar/PulsarBenchmarkDriver.java:136-146 | with no admin error a new, empty namespace exists and initialization is ready |
| Provisioning.ProvisionNamespaceFirstFault | driver-pulsar/src/main/java/io/openmessaging/benchmark/driver/pulsar/PulsarBenchmarkDriver.java:136-151 | the first admin error of the namespace calls becomes the setup error; the namespace exists unless its creation failed |
| Provisioning.ProvisionFollowsPlan | driver-pulsar/src/main/java/io/openmessaging/benchmark/driver/pulsar/PulsarBenchmarkDriver.java:121-152 | the calls issued are a non-empty prefix of the plan (tenants, tenant creation if missing, namespace, policies); when initialization is ready, all of it was issued |
| Provisioning.ProvisionReportsNamespace | driver-pulsar/src/main/java/io/openmessaging/benchmark/driver/pulsar/PulsarBenchmarkDriver.java:136-137 | the namespace field is written exactly when createNamespace was issued |
| Provisioning.ProvisionWithoutFaults | driver-pulsar/src/main/java/io/openmessaging/benchmark/driver/pulsar/PulsarBenchmarkDriver.java:121-152 | with no admin error initialization is ready, the tenant exists, the new namespace is empty and the field names it |
| Provisioning.ProvisionStopsAtFirstError | driver-pulsar/src/main/java/io/openmessaging/benchmark/driver/pulsar/PulsarBenchmarkDriver.java:121-152 | the first admin error, other than the tolerated tenant Conflict, is the setup error, and no later call is issued |
| Provisioning.ProvisionToleratesTenantConflict | driver-pulsar/src/main/java/io/openmessaging/benchmark/driver/pulsar/PulsarBenchmarkDriver.java:126-132 | a Conflict from creating the tenant (another worker created it) does not stop initialization, which ends with that tenant and the new empty namespace in place |
| Provisioning.ProvisionRejectsExistingNamespace | driver-pulsar/src/main/java/io/openmessaging/benchmark/driver/pulsar/PulsarBenchmarkDriver.java:137-151 | an existing namespace name makes the creation fail with Conflict, which becomes the setup error, and no policy is set |
| Provisioning.ProvisionKeepsTenantsCover | driver-pulsar/src/main/java/io/openmessaging/benchmark/driver/pulsar/PulsarBenchmarkDriver.java:121-139 | for a prefix of the form `tenant/...`, provisioning creates the namespace only under a tenant that exists, so no namespace is ever left without its tenant |
| Provisioning.EnsureTenantOn | driver-pulsar/src/main/java/io/openmessaging/benchmark/driver/pulsar/PulsarBenchmarkDriver.java:125-133 | the tenant step on the admin client leaves the state and result the tenant specification gives |
| Provisioning.ApplyPoliciesOn | driver-pulsar/src/main/java/io/openmessaging/benchmark/driver/pulsar/PulsarBenchmarkDriver.java:140-146 | the policy calls on the admin client leave the state and result of the policy specification |
| Provisioning.ProvisionOn | driver-pulsar/src/main/java/io/openmessaging/benchmark/driver/pulsar/PulsarBenchmarkDriver.java:121-152 | provisioning on the admin client leaves the state, outcome and namespace field value of `Provision` |
| Cleanup.SweptIsPruned | driver-pulsar/src/main/java/io/openmessaging/benchmark/driver/pulsar/PulsarBenchmarkDriver.java:263-274 | the swept state keeps every namespace, leaves namespaces of other tenants as they were, and only removes topics and subscriptions |
| Cleanup.SweptIsOnlyEmptyingPruning | driver-pulsar/src/main/java/io/openmessaging/benchmark/driver/pulsar/PulsarBenchmarkDriver.java:263-274 | any such pruning that empties every benchmark namespace is the swept state |
| Cleanup.SweptIdempotent | driver-pulsar/src/main/java/io/openmessaging/benchmark/driver/pulsar/PulsarBenchmarkDriver.java:263-274 | sweeping a swept state changes nothing |
| Cleanup.DeleteSubscriptionsRunFrame | driver-pulsar/src/main/java/io/openmessaging/benchmark/driver/pulsar/PulsarBenchmarkDriver.java:269-271 | deleting subscriptions changes only the topics of that namespace, and the topic stays |
| Cleanup.DeleteSubscriptionsRunSucceeds | driver-pulsar/src/main/java/io/openmessaging/benchmark/driver/pulsar/PulsarBenchmarkDriver.java:269-271 | on success every listed subscription was deleted with force, in order, with no admin error |
| Cleanup.DeleteSubscriptionsRunFails | driver-pulsar/src/main/java/io/openmessaging/benchmark/driver/pulsar/PulsarBenchmarkDriver.java:269-271 | a failure is the planned error of the last call issued, and every earlier call succeeded |
| Cleanup.TopicRunFrame | driver-pulsar/src/main/java/io/openmessaging/benchmark/driver/pulsar/PulsarBenchmarkDriver.java:268-272 | sweeping one topic changes only that namespace's topics and the log |
| Cleanup.TopicRunSucceeds | driver-pulsar/src/main/java/io/openmessaging/benchmark/driver/pulsar/PulsarBenchmarkDriver.java:268-272 | on success the subscriptions listed were all of the topic's, each was deleted, then the topic was deleted |
| Cleanup.TopicRunFails | driver-pulsar/src/main/java/io/openmessaging/benchmark/driver/pulsar/PulsarBenchmarkDriver.java:268-272 | a failure is the planned error of the last call issued |
| Cleanup.TopicsRunSucceeds | driver-pulsar/src/main/java/io/openmessaging/benchmark/driver/pulsar/PulsarBenchmarkDriver.java:267-273 | on success the topics were swept in listing order with no admin error |
| Cleanup.TopicsRunRemoves | driver-pulsar/src/main/java/io/openmessaging/benchmark/driver/pulsar/PulsarBenchmarkDriver.java:267-273 | on success exactly the listed topics are gone from the namespace and every other namespace is as it was |
| Cleanup.TopicsRunListed | driver-pulsar/src/main/java/io/openmessaging/benchmark/driver/pulsar/PulsarBenchmarkDriver.java:267-273 | on success every topic swept had its subscriptions listed as exactly the ones it held before the sweep, each once |
| Cleanup.TopicsRunFails | driver-pulsar/src/main/java/io/openmessaging/benchmark/driver/pulsar/PulsarBenchmarkDriver.java:267-273 | a failure is the planned error of the last call issued |
| Cleanup.NamespaceRunSucceeds | driver-pulsar/src/main/java/io/openmessaging/benchmark/driver/pulsar/PulsarBenchmarkDriver.java:266-273 | on success the namespace's topics were listed and swept with no admin error |
| Cleanup.NamespaceRunRemoves | driver-pulsar/src/main/java/io/openmessaging/benchmark/driver/pulsar/PulsarBenchmarkDriver.java:266-273 | on success the namespace is left without topics, and the listing was all of its topics |
| Cleanup.NamespaceRunFails | driver-pulsar/src/main/java/io/openmessaging/benchmark/driver/pulsar/PulsarBenchmarkDriver.java:266-273 | a failure is the planned error of the last call issued |
| Cleanup.NamespacesRunSucceeds | driver-pulsar/src/main/java/io/openmessaging/benchmark/driver/pulsar/PulsarBenchmarkDriver.java:265-274 | on success the namespaces were swept in listing order with no admin error |
| Cleanup.NamespacesRunRemoves | driver-pulsar/src/main/java/io/openmessaging/benchmark/driver/pulsar/PulsarBenchmarkDriver.java:265-274 | on success exactly the listed namespaces are emptied of topics |
| Cleanup.NamespacesRunFails | driver-pulsar/src/main/java/io/openmessaging/benchmark/driver/pulsar/PulsarBenchmarkDriver.java:265-274 | a failure is the planned error of the last call issued |
| Cleanup.SweepRunFrame | driver-pulsar/src/main/java/io/openmessaging/benchmark/driver/pulsar/PulsarBenchmarkDriver.java:263-277 | however the sweep ends, only benchmark topics and subscriptions have gone: no namespace, no tenant and no other tenant's topic changes |
| Cleanup.SweepRunSucceeds | driver-pulsar/src/main/java/io/openmessaging/benchmark/driver/pulsar/PulsarBenchmarkDriver.java:263-274 | on success the benchmark tenant existed and the sweep issued exactly the calls of the listing order, with no admin error |
| Cleanup.SweepRunRemoves | driver-pulsar/src/main/java/io/openmessaging/benchmark/driver/pulsar/PulsarBenchmarkDriver.java:263-274 | on success the state is the swept state, and the listings were complete |
| Cleanup.SweepRunFails | driver-pulsar/src/main/java/io/openmessaging/benchmark/driver/pulsar/PulsarBenchmarkDriver.java:263-277 | a failure is either the planned error of the last call issued or the NotFound of listing a missing benchmark tenant |
| Cleanup.SweepRunOutcome | driver-pulsar/src/main/java/io/openmessaging/benchmark/driver/pulsar/PulsarBenchmarkDriver.java:263-277 | the sweep succeeds exactly when the benchmark tenant exists and no call it issues meets an admin error |
| Cleanup.SweepOfSweptDeletesNothing | driver-pulsar/src/main/java/io/openmessaging/benchmark/driver/pulsar/PulsarBenchmarkDriver.java:264-274 | a sweep of a swept state only lists the namespaces and their (empty) topic lists, and deletes nothing |
| Cleanup.DeleteSubscriptions | driver-pulsar/src/main/java/io/openmessaging/benchmark/driver/pulsar/PulsarBenchmarkDriver.java:269-271 | the subscription loop on the admin client leaves the state and error of its specification |
| Cleanup.SweepTopic | driver-pulsar/src/main/java/io/openmessaging/benchmark/driver/pulsar/PulsarBenchmarkDriver.java:268-272 | the per-topic sweep on the admin client follows its specification for the subscriptions the service listed |
| Cleanup.SweepTopics | driver-pulsar/src/main/java/io/openmessaging/benchmark/driver/pulsar/PulsarBenchmarkDriver.java:267-273 | the topic loop follows its specification for the order the service listed the topics in |
| Cleanup.SweepNamespace | driver-pulsar/src/main/java/io/openmessaging/benchmark/driver/pulsar/PulsarBenchmarkDriver.java:266-273 | listing and sweeping one namespace follows its specification |
| Cleanup.SweepNamespaces | driver-pulsar/src/main/java/io/openmessaging/benchmark/driver/pulsar/PulsarBenchmarkDriver.java:265-274 | the namespace loop follows its specification for the listed order |
| Cleanup.CleanupTopics | driver-pulsar/src/main/java/io/openmessaging/benchmark/driver/pulsar/PulsarBenchmarkDriver.java:260-280 | the whole sweep on the admin client leaves the state of `SweepRun` for the order the service listed things in, and reports, not throws, its error |
| Driver.PulsarBenchmarkDriver.constructor | driver-pulsar/src/main/java/io/openmessaging/benchmark/driver/pulsar/PulsarBenchmarkDriver.java:66-75 | before `initialize` the clients, the configuration and the namespace are all null |
| Driver.PulsarBenchmarkDriver.Initialize | driver-pulsar/src/main/java/io/openmessaging/benchmark/driver/pulsar/PulsarBenchmarkDriver.java:77-153 | the configuration and clients are stored; the sweep runs first and its error is dropped; the result and the namespace field are those of provisioning on the swept state |
| Driver.PulsarBenchmarkDriver.CreateTopic | driver-pulsar/src/main/java/io/openmessaging/benchmark/driver/pulsar/PulsarBenchmarkDriver.java:161-168 | one partition is a no-op that succeeds; any other count creates a partitioned topic, failing with Conflict if it exists |
| Driver.PulsarBenchmarkDriver.NotifyTopicCreation | driver-pulsar/src/main/java/io/openmessaging/benchmark/driver/pulsar/PulsarBenchmarkDriver.java:171-174 | always succeeds and changes nothing |
| Driver.PulsarBenchmarkDriver.CreateConsumer | driver-pulsar/src/main/java/io/openmessaging/benchmark/driver/pulsar/PulsarBenchmarkDriver.java:183-241 | one metadata read; on an admin error a single fallback subscribe to the topic and the future of that subscribe; otherwise exactly the planned subscribes, a consumer waiting for all of them, or the exception of a negative count |
| Driver.PulsarBenchmarkDriver.Close | driver-pulsar/src/main/java/io/openmessaging/benchmark/driver/pulsar/PulsarBenchmarkDriver.java:244-258 | as written: without an admin client the sweep throws before anything is closed; otherwise sweep, close the client, close the admin client |
| Driver.PulsarBenchmarkDriver.CloseGuarded | driver-pulsar/src/main/java/io/openmessaging/benchmark/driver/pulsar/PulsarBenchmarkDriver.java:244-258 | the guarded close never throws and closes whichever clients exist, sweeping only when it can |
| Driver.CloseWithoutAdmin | driver-pulsar/src/main/java/io/openmessaging/benchmark/driver/pulsar/PulsarBenchmarkDriver.java:247-264 | a driver with a client but no admin client throws on close and leaves its client open |
| Driver.CloseGuardedWithoutAdmin | driver-pulsar/src/main/java/io/openmessaging/benchmark/driver/pulsar/PulsarBenchmarkDriver.java:244-258 | the guarded close of that driver succeeds and closes the client |
| Driver.CreateThenConsumeTargets | driver-pulsar/src/main/java/io/openmessaging/benchmark/driver/pulsar/PulsarBenchmarkDriver.java:161-219 | a topic created by `createTopic` and then consumed, with no admin error, is subscribed through the topic itself for one partition; for any other count through its partitions when the count is positive, the topic itself for zero, and nothing for a negative count |

## Left out

- createProducer and the producer builder (lines 114-119, 177-180): the producer side is not part of this model.
- readConfig (lines 285-287): YAML parsing is replaced by a configuration value. Its IOException and the unread settings (thread counts, URLs, TLS, authentication, receiver queue sizes) are not modelled.
- The client and admin builders (lines 81-109): `Initialize` receives both clients already built. A builder that throws appears only as the driver state of `Driver.CloseWithoutAdmin`.
- getRandomString (lines 291-295): the random base64url suffix is a parameter. That two drivers draw different suffixes is not modelled or proved.
- Policy contents are not modelled: the mark-delete rate 1.0 and the unlimited backlog quota with producer_exception. Only the call, its namespace, the three persistence numbers and the deduplication flag are modelled. The tenant's allowed cluster is recorded in the `CreateTenant` call but not kept in the store.
- Logging and the JSON pretty-printing of the configuration: no effect on the state.
- Asynchrony: `createPartitionedTopicAsync` is modelled as completing at once. The subscribes are recorded in issue order, and their completion is one `AllSubscribed` event, or one `Settle` of the fallback future; interleavings with other calls are not modelled.
- The admin store and the data-plane client are separate: `CreateTopic` fills only the partitioned-topic registry, never a namespace's topics; `Client.PulsarClient.Subscribe` adds no subscription to the store; and the sweep leaves the partitioned-topic registry as it was. So the model does not relate what `CreateConsumer` subscribes to with what `CleanupTopics` deletes.
- Creating a namespace does not check that its tenant exists, nor the form of the name (a prefix without a slash gives a namespace with no tenant part, which the real service refuses); `Provisioning.ProvisionKeepsTenantsCover` is stated for prefixes of the form `tenant/...`. A planned Conflict on creating the tenant stands for another worker creating it in between, so the tenant exists afterwards.
- Broker semantics beyond the modelled store: the admin model accepts any partition count, never refuses a request for reasons other than the fault plan, Conflict or NotFound, and by-topic calls take the namespace as a separate argument.
- Exceptions other than admin errors (runtime exceptions of the admin client, a PulsarClientException from a close) are not modelled.
- Driver.PulsarBenchmarkDriver.GetTopicNamePrefix: requires the configuration, where the source would throw NullPointerException before initialize.
- Driver.PulsarBenchmarkDriver.CreateTopic: requires the admin client for counts other than one, where the source would throw NullPointerException.
- Driver.PulsarBenchmarkDriver.CreateConsumer: requires both clients, where the source would throw NullPointerException; the unused `partition` argument and the callback object are left out (the callback is modelled by `Fanout.Listen`).

## Findings

| source | as written | input that shows it | evidently intended | confidence | as-written member | corrected member |
|---|---|---|---|---|---|---|
| driver-pulsar/src/main/java/io/openmessaging/benchmark/driver/pulsar/PulsarBenchmarkDriver.java:247 | `close` calls `cleanupTopics` before its null checks, and `cleanupTopics` reads `adminClient` at line 264 guarded only against admin errors | a driver whose client was built (line 104) but whose admin builder threw (line 108): `close` throws NullPointerException and the client is never closed | the null checks at lines 249-255 show that `close` is meant to handle missing clients: skip the sweep when there is no admin client and still close the client | medium, not executed | Driver.CloseWithoutAdmin | Driver.PulsarBenchmarkDriver.CloseGuarded |
