/**
  The sweep `cleanupTopics` runs when the driver starts and when it closes:
  for every namespace of the `benchmark` tenant, for every topic in it, delete
  each subscription of the topic and then the topic itself, forcing both. The
  first admin error ends the whole sweep; it is swallowed, not thrown.

  `Swept` is the state the sweep reaches when it meets no error, `SweepLog`
  the calls it issues on the way, for the order (`SweepPlan`) in which the
  service happened to list namespaces, topics and subscriptions.
*/
module Cleanup {
  import opened Common
  import opened Admin
  import Naming

  /** The tenant whose namespaces are swept, whatever namespace prefix is configured. */
  const BENCHMARK_TENANT: string := "benchmark"

  predicate InBenchmarkTenant(ns: string) {
    Naming.TenantOfNamespace(ns) == BENCHMARK_TENANT
  }

  // ---------------------------------------------------------------------------
  // What the sweep leaves behind
  // ---------------------------------------------------------------------------

  /** Every namespace of the benchmark tenant emptied of topics; every other namespace as it was. */
  function Swept(m: Namespaces): Namespaces {
    map ns | ns in m :: if InBenchmarkTenant(ns) then map[] else m[ns]
  }

  /** `after` keeps some of the topics of `before`, each with some of its subscriptions. */
  ghost predicate Shrinks(before: map<string, set<string>>, after: map<string, set<string>>) {
    && after.Keys <= before.Keys
    && forall t :: t in after ==> after[t] <= before[t]
  }

  /**
    Only topics and subscriptions of benchmark namespaces have gone: the same
    namespaces, the others untouched, the benchmark ones shrunk.
  */
  ghost predicate Pruned(before: Namespaces, after: Namespaces) {
    && after.Keys == before.Keys
    && forall ns :: ns in before ==>
         && Shrinks(before[ns], after[ns])
         && (!InBenchmarkTenant(ns) ==> after[ns] == before[ns])
  }

  /** Only namespace `ns` has lost topics or subscriptions. */
  ghost predicate ShrunkAt(before: Namespaces, after: Namespaces, ns: string) {
    && after.Keys == before.Keys
    && ns in before
    && Shrinks(before[ns], after[ns])
    && forall x :: x in before && x != ns ==> after[x] == before[x]
  }

  lemma ShrinksTransitive(a: map<string, set<string>>, b: map<string, set<string>>, c: map<string, set<string>>)
    requires Shrinks(a, b) && Shrinks(b, c)
    ensures Shrinks(a, c)
  {
  }

  lemma ShrunkAtTransitive(a: Namespaces, b: Namespaces, c: Namespaces, ns: string)
    requires ShrunkAt(a, b, ns) && ShrunkAt(b, c, ns)
    ensures ShrunkAt(a, c, ns)
  {
    ShrinksTransitive(a[ns], b[ns], c[ns]);
  }

  /** Shrinking one benchmark namespace keeps a pruning a pruning. */
  lemma PrunedThenShrunkAt(m0: Namespaces, m: Namespaces, m': Namespaces, ns: string)
    requires Pruned(m0, m) && ShrunkAt(m, m', ns) && InBenchmarkTenant(ns)
    ensures Pruned(m0, m')
  {
    forall x | x in m0
      ensures Shrinks(m0[x], m'[x]) && (!InBenchmarkTenant(x) ==> m'[x] == m0[x])
    {
      if x == ns {
        ShrinksTransitive(m0[x], m[x], m'[x]);
      }
    }
  }

  /** The swept state is a pruning of the state before. */
  lemma SweptIsPruned(m: Namespaces)
    ensures Pruned(m, Swept(m))
  {
  }

  /**
    And it is the only pruning that leaves no benchmark namespace with a
    topic: nothing outside the benchmark tenant is touched.
  */
  lemma {:induction false} SweptIsOnlyEmptyingPruning(m: Namespaces, m': Namespaces)
    requires Pruned(m, m')
    requires forall ns :: ns in m' && InBenchmarkTenant(ns) ==> m'[ns] == map[]
    ensures m' == Swept(m)
  {
    forall ns | ns in m' ensures m'[ns] == Swept(m)[ns] {
      if !InBenchmarkTenant(ns) {
        assert m'[ns] == m[ns];
      }
    }
  }

  /** A second sweep with no error finds nothing more to delete. */
  lemma SweptIdempotent(m: Namespaces)
    ensures Swept(Swept(m)) == Swept(m)
  {
  }

  // ---------------------------------------------------------------------------
  // The order the service listed things in, and the calls that follow from it
  // ---------------------------------------------------------------------------

  /** One topic as swept: its name and its subscriptions in listing order. */
  datatype TopicSweep = TopicSweep(topic: string, subscriptions: seq<string>)

  /** One namespace as swept: its name and its topics in listing order. */
  datatype NamespaceSweep = NamespaceSweep(namespace: string, topics: seq<TopicSweep>)

  type SweepPlan = seq<NamespaceSweep>

  function TopicNames(tss: seq<TopicSweep>): (names: seq<string>)
    ensures |names| == |tss| && forall i :: 0 <= i < |tss| ==> names[i] == tss[i].topic
  {
    seq(|tss|, i requires 0 <= i < |tss| => tss[i].topic)
  }

  function NamespaceNames(plan: SweepPlan): (names: seq<string>)
    ensures |names| == |plan| && forall i :: 0 <= i < |plan| ==> names[i] == plan[i].namespace
  {
    seq(|plan|, i requires 0 <= i < |plan| => plan[i].namespace)
  }

  /** `tss` lists the topics of a namespace with contents `topics`, each with its subscriptions, once each. */
  ghost predicate TopicsFit(tss: seq<TopicSweep>, topics: map<string, set<string>>) {
    && Enumerates(TopicNames(tss), topics.Keys)
    && forall i :: 0 <= i < |tss| ==> Enumerates(tss[i].subscriptions, topics[tss[i].topic])
  }

  /** `plan` is an order in which the service may list the benchmark namespaces of `m` and their contents. */
  ghost predicate PlanFits(plan: SweepPlan, m: Namespaces) {
    && Enumerates(NamespaceNames(plan), set ns | ns in m && InBenchmarkTenant(ns))
    && forall i :: 0 <= i < |plan| ==> plan[i].namespace in m && TopicsFit(plan[i].topics, m[plan[i].namespace])
  }

  /** The forced deletion of each subscription of a topic, in listing order. */
  function SubscriptionDeletes(ns: string, topic: string, subs: seq<string>): (cs: seq<AdminCall>)
    ensures |cs| == |subs|
    ensures forall k :: 0 <= k < |subs| ==> cs[k] == DeleteSubscription(ns, topic, subs[k], true)
  {
    if subs == [] then []
    else SubscriptionDeletes(ns, topic, subs[..|subs| - 1]) + [DeleteSubscription(ns, topic, subs[|subs| - 1], true)]
  }

  /** List the subscriptions of a topic, delete each, then delete the topic. */
  function TopicLog(ns: string, ts: TopicSweep): seq<AdminCall> {
    [GetSubscriptions(ns, ts.topic)] + SubscriptionDeletes(ns, ts.topic, ts.subscriptions) + [DeleteTopic(ns, ts.topic, true)]
  }

  function TopicsLog(ns: string, tss: seq<TopicSweep>): seq<AdminCall> {
    if tss == [] then [] else TopicsLog(ns, tss[..|tss| - 1]) + TopicLog(ns, tss[|tss| - 1])
  }

  /** List the topics of a namespace, then sweep each. */
  function NamespaceLog(n: NamespaceSweep): seq<AdminCall> {
    [GetTopics(n.namespace)] + TopicsLog(n.namespace, n.topics)
  }

  function NamespacesLog(plan: SweepPlan): seq<AdminCall> {
    if plan == [] then [] else NamespacesLog(plan[..|plan| - 1]) + NamespaceLog(plan[|plan| - 1])
  }

  /** The calls of a sweep that meets no error: list the benchmark namespaces, then sweep each. */
  function SweepLog(plan: SweepPlan): seq<AdminCall> {
    [GetNamespaces(BENCHMARK_TENANT)] + NamespacesLog(plan)
  }

  // ---------------------------------------------------------------------------
  // Intermediate states of the loops
  // ---------------------------------------------------------------------------

  /** The subscriptions of `subs` not among the first ones deleted. */
  function SubsLeft(subs: set<string>, deleted: seq<string>): (left: set<string>)
    ensures left <= subs
    ensures forall x :: x in left <==> x in subs && x !in deleted
  {
    set x | x in subs && x !in deleted
  }

  /** A namespace's topics without those already deleted. */
  function TopicsLeft(topics: map<string, set<string>>, deleted: seq<string>): (left: map<string, set<string>>)
    ensures Shrinks(topics, left)
    ensures forall t :: t in left <==> t in topics && t !in deleted
    ensures forall t :: t in left ==> left[t] == topics[t]
  {
    map t | t in topics && t !in deleted :: topics[t]
  }

  /** The namespaces with the first ones swept emptied of topics. */
  function NamespacesLeft(m: Namespaces, swept: seq<string>): (left: Namespaces)
    ensures left.Keys == m.Keys
    ensures forall ns :: ns in m ==> left[ns] == if ns in swept then map[] else m[ns]
  {
    map ns | ns in m :: if ns in swept then map[] else m[ns]
  }

  // ---------------------------------------------------------------------------
  // The sweep as a function of the service's state and the listing order
  // ---------------------------------------------------------------------------

  /** The error a step ends with, if any. */
  function ErrorOf(r: Result<(), AdminError>): Option<AdminError> {
    if r.Failure? then Some(r.error) else None
  }

  /** The call that ended a run, the last one recorded after position `from`, met a planned failure `e`. */
  ghost predicate FailedAtFault(from: int, after: Store, e: AdminError) {
    && from < |after.log|
    && FaultFree(after.faults, from, |after.log| - 1)
    && |after.log| - 1 in after.faults && e == after.faults[|after.log| - 1]
  }

  /** Delete the given subscriptions of a topic, forcing each, until one deletion fails. */
  function DeleteSubscriptionsRun(s: Store, ns: string, topic: string, subs: seq<string>): Step<()>
    decreases |subs|
  {
    if subs == [] then Step(Success(()), s)
    else
      var st := DeleteSubscriptionStep(s, ns, topic, subs[0], true);
      if st.result.Failure? then st else DeleteSubscriptionsRun(st.after, ns, topic, subs[1..])
  }

  /** List the subscriptions of a topic, delete them in the order `ts` gives, then delete the topic. */
  function TopicRun(s: Store, ns: string, ts: TopicSweep): Step<()> {
    var listed := GetSubscriptionsStep(s, ns, ts.topic);
    if listed.result.Failure? then Step(Failure(listed.result.error), listed.after)
    else
      var deleted := DeleteSubscriptionsRun(listed.after, ns, ts.topic, ts.subscriptions);
      if deleted.result.Failure? then deleted else DeleteTopicStep(deleted.after, ns, ts.topic, true)
  }

  /** Sweep the topics of a namespace in the order `tss` gives, until one call fails. */
  function TopicsRun(s: Store, ns: string, tss: seq<TopicSweep>): Step<()> {
    if tss == [] then Step(Success(()), s)
    else
      var done := TopicsRun(s, ns, tss[..|tss| - 1]);
      if done.result.Failure? then done else TopicRun(done.after, ns, tss[|tss| - 1])
  }

  /** List the topics of a namespace, then sweep them in the order `n` gives. */
  function NamespaceRun(s: Store, n: NamespaceSweep): Step<()> {
    var listed := GetTopicsStep(s, n.namespace);
    if listed.result.Failure? then Step(Failure(listed.result.error), listed.after)
    else TopicsRun(listed.after, n.namespace, n.topics)
  }

  /** Sweep the namespaces in the order `plan` gives, until one call fails. */
  function NamespacesRun(s: Store, plan: SweepPlan): Step<()> {
    if plan == [] then Step(Success(()), s)
    else
      var done := NamespacesRun(s, plan[..|plan| - 1]);
      if done.result.Failure? then done else NamespaceRun(done.after, plan[|plan| - 1])
  }

  /** The whole of `cleanupTopics`: list the namespaces of the benchmark tenant, then sweep each. */
  function SweepRun(s: Store, plan: SweepPlan): Step<()> {
    var listed := GetNamespacesStep(s, BENCHMARK_TENANT);
    if listed.result.Failure? then Step(Failure(listed.result.error), listed.after)
    else NamespacesRun(listed.after, plan)
  }

  // The listing orders `plan` gives are the ones the service answered with,
  // as far as the run got.

  ghost predicate TopicFollows(s: Store, ns: string, ts: TopicSweep) {
    var listed := GetSubscriptionsStep(s, ns, ts.topic);
    listed.result.Success? ==> Enumerates(ts.subscriptions, listed.result.value)
  }

  ghost predicate TopicsFollow(s: Store, ns: string, tss: seq<TopicSweep>) {
    tss != [] ==>
      && TopicsFollow(s, ns, tss[..|tss| - 1])
      && var done := TopicsRun(s, ns, tss[..|tss| - 1]);
         done.result.Success? ==> TopicFollows(done.after, ns, tss[|tss| - 1])
  }

  ghost predicate NamespaceFollows(s: Store, n: NamespaceSweep) {
    var listed := GetTopicsStep(s, n.namespace);
    listed.result.Success? ==>
      Enumerates(TopicNames(n.topics), listed.result.value) && TopicsFollow(listed.after, n.namespace, n.topics)
  }

  ghost predicate NamespacesFollow(s: Store, plan: SweepPlan) {
    plan != [] ==>
      && NamespacesFollow(s, plan[..|plan| - 1])
      && var done := NamespacesRun(s, plan[..|plan| - 1]);
         done.result.Success? ==> NamespaceFollows(done.after, plan[|plan| - 1])
  }

  ghost predicate SweepFollows(s: Store, plan: SweepPlan) {
    var listed := GetNamespacesStep(s, BENCHMARK_TENANT);
    listed.result.Success? ==>
      Enumerates(NamespaceNames(plan), listed.result.value) && NamespacesFollow(listed.after, plan)
  }

  // ---------------------------------------------------------------------------
  // Single calls
  // ---------------------------------------------------------------------------

  /** One forced subscription deletion of an existing subscription: only a planned failure stops it. */
  lemma DeleteSubscriptionEffect(s: Store, ns: string, topic: string, sub: string)
    requires ns in s.namespaces && topic in s.namespaces[ns] && sub in s.namespaces[ns][topic]
    ensures var st := DeleteSubscriptionStep(s, ns, topic, sub, true);
            && st.after.log == s.log + [DeleteSubscription(ns, topic, sub, true)]
            && st.after.tenants == s.tenants && st.after.partitioned == s.partitioned && st.after.faults == s.faults
            && (st.result.Failure? <==> |s.log| in s.faults)
            && (st.result.Failure? ==> st.result.error == s.faults[|s.log|] && st.after.namespaces == s.namespaces)
            && (st.result.Success? ==>
                  st.after.namespaces == s.namespaces[ns := s.namespaces[ns][topic := s.namespaces[ns][topic] - {sub}]])
  {
  }

  /** The forced deletion of an existing topic: only a planned failure stops it. */
  lemma DeleteTopicEffect(s: Store, ns: string, topic: string)
    requires ns in s.namespaces && topic in s.namespaces[ns]
    ensures var st := DeleteTopicStep(s, ns, topic, true);
            && st.after.log == s.log + [DeleteTopic(ns, topic, true)]
            && st.after.tenants == s.tenants && st.after.partitioned == s.partitioned && st.after.faults == s.faults
            && (st.result.Failure? <==> |s.log| in s.faults)
            && (st.result.Failure? ==> st.result.error == s.faults[|s.log|] && st.after.namespaces == s.namespaces)
            && (st.result.Success? ==> st.after.namespaces == s.namespaces[ns := s.namespaces[ns] - {topic}])
  {
  }

  /** A listing changes nothing but the log and answers `ok` unless a failure is planned. */
  lemma QueryEffect<T>(s: Store, c: AdminCall, ok: Result<T, AdminError>)
    ensures var st := Query(s, c, ok);
            && st.after == s.(log := s.log + [c])
            && (|s.log| in s.faults ==> st.result == Failure(s.faults[|s.log|]))
            && (|s.log| !in s.faults ==> st.result == ok)
  {
  }

  // ---------------------------------------------------------------------------
  // The subscriptions of one topic
  // ---------------------------------------------------------------------------

  /** The namespaces once the first subscriptions of `topic` in `ns` have been deleted. */
  function DuringSubscriptions(m: Namespaces, ns: string, topic: string, deleted: seq<string>): Namespaces
    requires ns in m && topic in m[ns]
  {
    m[ns := m[ns][topic := SubsLeft(m[ns][topic], deleted)]]
  }

  lemma DuringSubscriptionsShrunk(m: Namespaces, ns: string, topic: string, deleted: seq<string>)
    requires ns in m && topic in m[ns]
    ensures ShrunkAt(m, DuringSubscriptions(m, ns, topic, deleted), ns)
    ensures DuringSubscriptions(m, ns, topic, []) == m
  {
    assert SubsLeft(m[ns][topic], []) == m[ns][topic];
    assert m[ns][topic := m[ns][topic]] == m[ns];
  }

  /** What is left of a list of distinct existing subscriptions once its first one is deleted. */
  lemma DistinctTail(subs: seq<string>, present: set<string>)
    requires |subs| > 0 && Distinct(subs) && forall x :: x in subs ==> x in present
    ensures Distinct(subs[1..]) && forall x :: x in subs[1..] ==> x in present - {subs[0]}
  {
    var rest := subs[1..];
    forall x | x in rest ensures x in present - {subs[0]} {
      var i :| 0 <= i < |rest| && rest[i] == x;
      assert subs[i + 1] == x;
    }
    forall i, j | 0 <= i < j < |rest| ensures rest[i] != rest[j] {
      assert rest[i] == subs[i + 1] && rest[j] == subs[j + 1];
    }
  }

  /** Deleting the first subscription, then the rest, leaves what deleting them all does. */
  lemma DuringSubscriptionsCons(m: Namespaces, ns: string, topic: string, subs: seq<string>)
    requires ns in m && topic in m[ns] && |subs| > 0
    ensures var m' := m[ns := m[ns][topic := m[ns][topic] - {subs[0]}]];
            DuringSubscriptions(m', ns, topic, subs[1..]) == DuringSubscriptions(m, ns, topic, subs)
  {
    var left := m[ns][topic] - {subs[0]};
    assert subs == [subs[0]] + subs[1..];
    assert SubsLeft(left, subs[1..]) == SubsLeft(m[ns][topic], subs);
    var m' := m[ns := m[ns][topic := left]];
    assert m'[ns][topic := SubsLeft(left, subs[1..])] == m[ns][topic := SubsLeft(m[ns][topic], subs)];
  }

  lemma SubscriptionDeletesCons(log: seq<AdminCall>, ns: string, topic: string, subs: seq<string>)
    requires |subs| > 0
    ensures log + [DeleteSubscription(ns, topic, subs[0], true)] + SubscriptionDeletes(ns, topic, subs[1..])
            == log + SubscriptionDeletes(ns, topic, subs)
  {
    SubscriptionDeletesFirst(ns, topic, subs);
    var rest := SubscriptionDeletes(ns, topic, subs[1..]);
    assert log + [DeleteSubscription(ns, topic, subs[0], true)] + rest
           == log + ([DeleteSubscription(ns, topic, subs[0], true)] + rest);
  }

  /** The deletions of a list of subscriptions are the deletion of its first, then those of the rest. */
  lemma SubscriptionDeletesFirst(ns: string, topic: string, subs: seq<string>)
    requires |subs| > 0
    ensures [DeleteSubscription(ns, topic, subs[0], true)] + SubscriptionDeletes(ns, topic, subs[1..])
            == SubscriptionDeletes(ns, topic, subs)
  {
    var rest := SubscriptionDeletes(ns, topic, subs[1..]);
    var whole := SubscriptionDeletes(ns, topic, subs);
    var joined := [DeleteSubscription(ns, topic, subs[0], true)] + rest;
    forall k | 0 <= k < |whole| ensures joined[k] == whole[k] {
      if k > 0 {
        assert joined[k] == rest[k - 1];
      }
    }
  }

  /** The subscription loop changes nothing but namespace `ns` and the log, and only shrinks `ns`. */
  lemma {:induction false} DeleteSubscriptionsRunFrame(s: Store, ns: string, topic: string, subs: seq<string>)
    requires ns in s.namespaces && topic in s.namespaces[ns]
    requires Distinct(subs) && forall x :: x in subs ==> x in s.namespaces[ns][topic]
    ensures var st := DeleteSubscriptionsRun(s, ns, topic, subs);
            && st.after == s.(namespaces := st.after.namespaces, log := st.after.log)
            && s.log <= st.after.log
            && ShrunkAt(s.namespaces, st.after.namespaces, ns) && topic in st.after.namespaces[ns]
    decreases |subs|
  {
    DuringSubscriptionsShrunk(s.namespaces, ns, topic, []);
    if subs != [] {
      var d := DeleteSubscriptionStep(s, ns, topic, subs[0], true);
      if d.result.Success? {
        DistinctTail(subs, s.namespaces[ns][topic]);
        DeleteSubscriptionsRunFrame(d.after, ns, topic, subs[1..]);
        var st := DeleteSubscriptionsRun(d.after, ns, topic, subs[1..]);
        DeleteSubscriptionEffect(s, ns, topic, subs[0]);
        ShrunkAtTransitive(s.namespaces, d.after.namespaces, st.after.namespaces, ns);
      }
    }
  }

  /**
    When the subscription loop on distinct existing subscriptions succeeds, no
    call met a planned failure, every subscription listed is gone, and the
    calls were the forced deletions in order.
  */
  lemma {:induction false} DeleteSubscriptionsRunSucceeds(s: Store, ns: string, topic: string, subs: seq<string>)
    requires ns in s.namespaces && topic in s.namespaces[ns]
    requires Distinct(subs) && forall x :: x in subs ==> x in s.namespaces[ns][topic]
    ensures var st := DeleteSubscriptionsRun(s, ns, topic, subs);
            st.result.Success? ==>
              && FaultFree(s.faults, |s.log|, |st.after.log|)
              && st.after.namespaces == DuringSubscriptions(s.namespaces, ns, topic, subs)
              && st.after.log == s.log + SubscriptionDeletes(ns, topic, subs)
    decreases |subs|
  {
    if subs == [] {
      DuringSubscriptionsShrunk(s.namespaces, ns, topic, []);
    } else {
      var m := s.namespaces;
      var d := DeleteSubscriptionStep(s, ns, topic, subs[0], true);
      var m1 := m[ns := m[ns][topic := m[ns][topic] - {subs[0]}]];
      if d.result.Success? {
        assert |s.log| !in s.faults && d.after.namespaces == m1 && d.after.faults == s.faults
               && d.after.log == s.log + [DeleteSubscription(ns, topic, subs[0], true)] by {
          DeleteSubscriptionEffect(s, ns, topic, subs[0]);
        }
        assert Distinct(subs[1..]) && forall x :: x in subs[1..] ==> x in m1[ns][topic] by {
          DistinctTail(subs, m[ns][topic]);
        }
        DeleteSubscriptionsRunSucceeds(d.after, ns, topic, subs[1..]);
        var st := DeleteSubscriptionsRun(d.after, ns, topic, subs[1..]);
        if st.result.Success? {
          FaultFreeCons(s.faults, |s.log|, |st.after.log|);
        }
        assert DuringSubscriptions(m1, ns, topic, subs[1..]) == DuringSubscriptions(m, ns, topic, subs) by {
          DuringSubscriptionsCons(m, ns, topic, subs);
        }
        SubscriptionDeletesCons(s.log, ns, topic, subs);
      }
    }
  }

  /** The subscription loop on distinct existing subscriptions fails only at a planned failure. */
  lemma {:induction false} DeleteSubscriptionsRunFails(s: Store, ns: string, topic: string, subs: seq<string>)
    requires ns in s.namespaces && topic in s.namespaces[ns]
    requires Distinct(subs) && forall x :: x in subs ==> x in s.namespaces[ns][topic]
    ensures var st := DeleteSubscriptionsRun(s, ns, topic, subs);
            st.result.Failure? ==> FailedAtFault(|s.log|, st.after, st.result.error)
    decreases |subs|
  {
    if subs != [] {
      DeleteSubscriptionEffect(s, ns, topic, subs[0]);
      var d := DeleteSubscriptionStep(s, ns, topic, subs[0], true);
      if d.result.Success? {
        DistinctTail(subs, s.namespaces[ns][topic]);
        DeleteSubscriptionsRunFails(d.after, ns, topic, subs[1..]);
        DeleteSubscriptionsRunFrame(d.after, ns, topic, subs[1..]);
      }
    }
  }

  // ---------------------------------------------------------------------------
  // One topic
  // ---------------------------------------------------------------------------

  lemma LogAppend3(log: seq<AdminCall>, a: seq<AdminCall>, b: seq<AdminCall>, c: seq<AdminCall>)
    ensures log + a + b + c == log + (a + b + c)
  {
  }

  /** Emptying a topic's subscriptions and then deleting it is deleting it. */
  lemma DropEmptiedTopic(m: Namespaces, ns: string, t: string, left: set<string>)
    requires ns in m && t in m[ns]
    ensures var during := m[ns := m[ns][t := left]];
            during[ns := during[ns] - {t}] == m[ns := m[ns] - {t}]
  {
    assert m[ns][t := left] - {t} == m[ns] - {t};
  }

  /** A failure after a stretch of calls that met no planned failure is still the first planned one. */
  lemma FailedAtFaultCons(n: nat, after: Store, e: AdminError)
    requires n !in after.faults && FailedAtFault(n + 1, after, e)
    ensures FailedAtFault(n, after, e)
  {
    FaultFreeCons(after.faults, n, |after.log| - 1);
  }

  /** The listing of a topic's subscriptions: it fails at a planned failure, or when the topic is missing. */
  lemma ListSubscriptionsEffect(s: Store, ns: string, topic: string)
    ensures var listed := GetSubscriptionsStep(s, ns, topic);
            && listed.after == s.(log := s.log + [GetSubscriptions(ns, topic)])
            && (|s.log| in s.faults ==> listed.result == Failure(s.faults[|s.log|]))
            && (listed.result.Success? <==> |s.log| !in s.faults && ns in s.namespaces && topic in s.namespaces[ns])
            && (listed.result.Success? ==> listed.result.value == s.namespaces[ns][topic])
  {
    QueryEffect(s, GetSubscriptions(ns, topic),
      if ns in s.namespaces && topic in s.namespaces[ns] then Success(s.namespaces[ns][topic]) else Failure(NotFound));
  }

  /** Sweeping a topic changes nothing but namespace `ns` and the log, and only shrinks `ns`. */
  lemma TopicRunFrame(s: Store, ns: string, ts: TopicSweep)
    requires ns in s.namespaces && TopicFollows(s, ns, ts)
    ensures var st := TopicRun(s, ns, ts);
            && st.after == s.(namespaces := st.after.namespaces, log := st.after.log)
            && s.log <= st.after.log
            && ShrunkAt(s.namespaces, st.after.namespaces, ns)
  {
    var m := s.namespaces;
    var listed := GetSubscriptionsStep(s, ns, ts.topic);
    ListSubscriptionsEffect(s, ns, ts.topic);
    if listed.result.Success? {
      DuringSubscriptionsShrunk(m, ns, ts.topic, []);
      var deleted := DeleteSubscriptionsRun(listed.after, ns, ts.topic, ts.subscriptions);
      DeleteSubscriptionsRunFrame(listed.after, ns, ts.topic, ts.subscriptions);
      if deleted.result.Success? {
        DeleteTopicEffect(deleted.after, ns, ts.topic);
        var st := DeleteTopicStep(deleted.after, ns, ts.topic, true);
        ShrunkAtTransitive(m, deleted.after.namespaces, st.after.namespaces, ns);
      }
    }
  }

  /**
    When sweeping an existing topic succeeds, no call met a planned failure,
    the topic is gone from its namespace, the subscriptions deleted were
    exactly the topic's, and the calls were those of `TopicLog`.
  */
  lemma TopicRunSucceeds(s: Store, ns: string, ts: TopicSweep)
    requires ns in s.namespaces && ts.topic in s.namespaces[ns] && TopicFollows(s, ns, ts)
    ensures var st := TopicRun(s, ns, ts);
            st.result.Success? ==>
              && FaultFree(s.faults, |s.log|, |st.after.log|)
              && Enumerates(ts.subscriptions, s.namespaces[ns][ts.topic])
              && st.after.namespaces == s.namespaces[ns := s.namespaces[ns] - {ts.topic}]
              && st.after.log == s.log + TopicLog(ns, ts)
  {
    var m := s.namespaces;
    var t := ts.topic;
    var listed := GetSubscriptionsStep(s, ns, t);
    ListSubscriptionsEffect(s, ns, t);
    if listed.result.Success? {
      var deleted := DeleteSubscriptionsRun(listed.after, ns, t, ts.subscriptions);
      DeleteSubscriptionsRunSucceeds(listed.after, ns, t, ts.subscriptions);
      DeleteSubscriptionsRunFrame(listed.after, ns, t, ts.subscriptions);
      if deleted.result.Success? {
        var st := DeleteTopicStep(deleted.after, ns, t, true);
        var during := DuringSubscriptions(m, ns, t, ts.subscriptions);
        assert SubsLeft(m[ns][t], ts.subscriptions) == {};
        DeleteTopicEffect(deleted.after, ns, t);
        if st.result.Success? {
          DropEmptiedTopic(m, ns, t, {});
          LogAppend3(s.log, [GetSubscriptions(ns, t)], SubscriptionDeletes(ns, t, ts.subscriptions), [DeleteTopic(ns, t, true)]);
          FaultFreeCons(s.faults, |s.log|, |deleted.after.log|);
          FaultFreeCons(s.faults, |deleted.after.log|, |deleted.after.log| + 1);
          FaultFreeJoin(s.faults, |s.log|, |deleted.after.log|, |st.after.log|);
        }
      }
    }
  }

  /** Sweeping an existing topic fails only at a planned failure. */
  lemma TopicRunFails(s: Store, ns: string, ts: TopicSweep)
    requires ns in s.namespaces && ts.topic in s.namespaces[ns] && TopicFollows(s, ns, ts)
    ensures var st := TopicRun(s, ns, ts);
            st.result.Failure? ==> FailedAtFault(|s.log|, st.after, st.result.error)
  {
    var m := s.namespaces;
    var t := ts.topic;
    var listed := GetSubscriptionsStep(s, ns, t);
    ListSubscriptionsEffect(s, ns, t);
    if listed.result.Success? {
      var deleted := DeleteSubscriptionsRun(listed.after, ns, t, ts.subscriptions);
      DeleteSubscriptionsRunFails(listed.after, ns, t, ts.subscriptions);
      DeleteSubscriptionsRunFrame(listed.after, ns, t, ts.subscriptions);
      if deleted.result.Failure? {
        FailedAtFaultCons(|s.log|, deleted.after, deleted.result.error);
      } else {
        DeleteSubscriptionsRunSucceeds(listed.after, ns, t, ts.subscriptions);
        var st := DeleteTopicStep(deleted.after, ns, t, true);
        DeleteTopicEffect(deleted.after, ns, t);
        if st.result.Failure? {
          FaultFreeCons(s.faults, |s.log|, |deleted.after.log|);
        }
      }
    }
  }

  // ---------------------------------------------------------------------------
  // The topics of one namespace
  // ---------------------------------------------------------------------------

  lemma Assoc(a: seq<AdminCall>, b: seq<AdminCall>, c: seq<AdminCall>)
    ensures a + b + c == a + (b + c)
  {
  }

  lemma DistinctPrefix<T>(xs: seq<T>, k: nat)
    requires Distinct(xs) && k <= |xs|
    ensures Distinct(xs[..k])
  {
  }

  lemma TopicNamesPrefix(tss: seq<TopicSweep>, k: nat)
    requires k <= |tss|
    ensures TopicNames(tss[..k]) == TopicNames(tss)[..k]
  {
  }

  /** Deleting one more topic. */
  lemma TopicsLeftSnoc(a: map<string, set<string>>, names: seq<string>, t: string)
    ensures TopicsLeft(a, names) - {t} == TopicsLeft(a, names + [t])
  {
    assert TopicsLeft(a, names) - {t} == TopicsLeft(a, names + [t]);
  }

  /** Deleting every topic listed leaves none. */
  lemma TopicsLeftAll(a: map<string, set<string>>, names: seq<string>)
    requires forall t :: t in names <==> t in a
    ensures TopicsLeft(a, names) == map[]
  {
  }

  lemma ShrunkAtSelf(m: Namespaces, ns: string)
    requires ns in m
    ensures ShrunkAt(m, m, ns)
  {
  }

  /** The topics of a namespace, in the listing order: distinct, existing, each listed as it was found. */
  ghost predicate TopicsReady(s: Store, ns: string, tss: seq<TopicSweep>) {
    && ns in s.namespaces
    && Distinct(TopicNames(tss))
    && (forall i :: 0 <= i < |tss| ==> tss[i].topic in s.namespaces[ns])
    && TopicsFollow(s, ns, tss)
  }

  lemma TopicsReadyPrefix(s: Store, ns: string, tss: seq<TopicSweep>)
    requires TopicsReady(s, ns, tss) && tss != []
    ensures TopicsReady(s, ns, tss[..|tss| - 1])
  {
    var k := |tss| - 1;
    TopicNamesPrefix(tss, k);
    DistinctPrefix(TopicNames(tss), k);
  }

  /** Sweeping the topics of a namespace changes nothing but that namespace and the log, and only shrinks it. */
  lemma {:induction false} TopicsRunFrame(s: Store, ns: string, tss: seq<TopicSweep>)
    requires ns in s.namespaces && TopicsFollow(s, ns, tss)
    ensures var st := TopicsRun(s, ns, tss);
            && st.after == s.(namespaces := st.after.namespaces, log := st.after.log)
            && s.log <= st.after.log
            && ShrunkAt(s.namespaces, st.after.namespaces, ns)
  {
    if tss == [] {
      ShrunkAtSelf(s.namespaces, ns);
    } else {
      var init := tss[..|tss| - 1];
      TopicsRunFrame(s, ns, init);
      var done := TopicsRun(s, ns, init);
      if done.result.Success? {
        TopicRunFrame(done.after, ns, tss[|tss| - 1]);
        var st := TopicRun(done.after, ns, tss[|tss| - 1]);
        ShrunkAtTransitive(s.namespaces, done.after.namespaces, st.after.namespaces, ns);
      }
    }
  }

  /** The topic swept after the first `k` is not among them. */
  lemma NextTopicIsNew(tss: seq<TopicSweep>, k: nat)
    requires k < |tss| && Distinct(TopicNames(tss))
    ensures tss[k].topic !in TopicNames(tss[..k])
  {
    TopicNamesPrefix(tss, k);
    var names := TopicNames(tss[..k]);
    forall i | 0 <= i < k ensures names[i] != tss[k].topic {
      assert TopicNames(tss)[i] == names[i] && TopicNames(tss)[k] == tss[k].topic;
    }
  }

  /**
    When sweeping the topics of a namespace succeeds, no call met a planned
    failure and the calls were those of `TopicsLog`.
  */
  lemma {:induction false} TopicsRunSucceeds(s: Store, ns: string, tss: seq<TopicSweep>)
    requires TopicsReady(s, ns, tss)
    ensures var st := TopicsRun(s, ns, tss);
            st.result.Success? ==>
              && FaultFree(s.faults, |s.log|, |st.after.log|)
              && st.after.log == s.log + TopicsLog(ns, tss)
  {
    if tss != [] {
      var k := |tss| - 1;
      var init := tss[..k];
      var last := tss[k];
      TopicsReadyPrefix(s, ns, tss);
      TopicsRunSucceeds(s, ns, init);
      var done := TopicsRun(s, ns, init);
      if done.result.Success? {
        TopicsRunFrame(s, ns, init);
        TopicsRunRemoves(s, ns, init);
        NextTopicIsNew(tss, k);
        TopicRunSucceeds(done.after, ns, last);
        var st := TopicRun(done.after, ns, last);
        if st.result.Success? {
          Assoc(s.log, TopicsLog(ns, init), TopicLog(ns, last));
          FaultFreeJoin(s.faults, |s.log|, |done.after.log|, |st.after.log|);
        }
      }
    }
  }

  /** When sweeping the topics of a namespace succeeds, the topics listed are gone from it. */
  lemma {:induction false} TopicsRunRemoves(s: Store, ns: string, tss: seq<TopicSweep>)
    requires TopicsReady(s, ns, tss)
    ensures var st := TopicsRun(s, ns, tss);
            st.result.Success? ==> st.after.namespaces == s.namespaces[ns := TopicsLeft(s.namespaces[ns], TopicNames(tss))]
  {
    var m := s.namespaces;
    if tss == [] {
      assert TopicsLeft(m[ns], []) == m[ns];
      assert m[ns := m[ns]] == m;
    } else {
      var k := |tss| - 1;
      var init := tss[..k];
      TopicsReadyPrefix(s, ns, tss);
      TopicsRunRemoves(s, ns, init);
      var done := TopicsRun(s, ns, init);
      if done.result.Success? {
        var last := tss[k];
        NextTopicIsNew(tss, k);
        assert TopicFollows(done.after, ns, last);
        TopicsRemovesStep(m, ns, TopicNames(init), last, done);
        assert TopicsRun(s, ns, tss) == TopicRun(done.after, ns, last);
        TopicNamesLast(tss);
      }
    }
  }

  /** Each topic swept is in `topics`, and its subscriptions were exactly its own there. */
  ghost predicate SubscriptionsListed(tss: seq<TopicSweep>, topics: map<string, set<string>>) {
    forall i :: 0 <= i < |tss| ==> tss[i].topic in topics && Enumerates(tss[i].subscriptions, topics[tss[i].topic])
  }

  /**
    When sweeping the topics of a namespace succeeds, each topic's
    subscriptions were listed as exactly those it had before the sweep.
  */
  lemma {:induction false} TopicsRunListed(s: Store, ns: string, tss: seq<TopicSweep>)
    requires TopicsReady(s, ns, tss)
    ensures TopicsRun(s, ns, tss).result.Success? ==> SubscriptionsListed(tss, s.namespaces[ns])
  {
    var m := s.namespaces;
    if tss != [] {
      var k := |tss| - 1;
      var init := tss[..k];
      TopicsReadyPrefix(s, ns, tss);
      TopicsRunListed(s, ns, init);
      var done := TopicsRun(s, ns, init);
      if done.result.Success? {
        var last := tss[k];
        TopicsRunRemoves(s, ns, init);
        NextTopicIsNew(tss, k);
        assert TopicFollows(done.after, ns, last);
        TopicsRemovesStep(m, ns, TopicNames(init), last, done);
        assert TopicsRun(s, ns, tss) == TopicRun(done.after, ns, last);
        if TopicRun(done.after, ns, last).result.Success? {
          ListedSnoc(tss, m[ns]);
        }
      }
    }
  }

  lemma ListedSnoc(tss: seq<TopicSweep>, topics: map<string, set<string>>)
    requires tss != [] && SubscriptionsListed(tss[..|tss| - 1], topics)
    requires tss[|tss| - 1].topic in topics && Enumerates(tss[|tss| - 1].subscriptions, topics[tss[|tss| - 1].topic])
    ensures SubscriptionsListed(tss, topics)
  {
    var k := |tss| - 1;
    forall i | 0 <= i < k ensures tss[i] == tss[..k][i] {
    }
  }

  lemma TopicNamesLast(tss: seq<TopicSweep>)
    requires tss != []
    ensures TopicNames(tss) == TopicNames(tss[..|tss| - 1]) + [tss[|tss| - 1].topic]
  {
    var k := |tss| - 1;
    var joined := TopicNames(tss[..k]) + [tss[k].topic];
    forall i | 0 <= i < |tss| ensures TopicNames(tss)[i] == joined[i] {
      if i < k {
        assert tss[..k][i] == tss[i];
      }
    }
  }

  /** The step of `TopicsRunRemoves`: sweeping the next topic after the ones in `names`. */
  lemma TopicsRemovesStep(m: Namespaces, ns: string, names: seq<string>, last: TopicSweep, done: Step<()>)
    requires ns in m && last.topic in m[ns] && last.topic !in names
    requires done.after.namespaces == m[ns := TopicsLeft(m[ns], names)]
    requires TopicFollows(done.after, ns, last)
    ensures var st := TopicRun(done.after, ns, last);
            st.result.Success? ==>
              && st.after.namespaces == m[ns := TopicsLeft(m[ns], names + [last.topic])]
              && Enumerates(last.subscriptions, m[ns][last.topic])
  {
    TopicsLeftStep(m, ns, names, last.topic);
    TopicRunSucceeds(done.after, ns, last);
  }

  /** Deleting the next topic of a namespace, when it was not deleted before. */
  lemma TopicsLeftStep(m: Namespaces, ns: string, names: seq<string>, t: string)
    requires ns in m && t in m[ns] && t !in names
    ensures var cur := m[ns := TopicsLeft(m[ns], names)];
            && cur[ns][t] == m[ns][t]
            && cur[ns := cur[ns] - {t}] == m[ns := TopicsLeft(m[ns], names + [t])]
  {
    TopicsLeftSnoc(m[ns], names, t);
  }

  /** A failure in the middle of one call of `FailedAtFault` after a fault-free stretch. */
  lemma FailedAtFaultJoin(n: int, k: int, after: Store, e: AdminError)
    requires n <= k && FaultFree(after.faults, n, k) && FailedAtFault(k, after, e)
    ensures FailedAtFault(n, after, e)
  {
    FaultFreeJoin(after.faults, n, k, |after.log| - 1);
  }

  /** Sweeping the topics of a namespace fails only at a planned failure. */
  lemma {:induction false} TopicsRunFails(s: Store, ns: string, tss: seq<TopicSweep>)
    requires TopicsReady(s, ns, tss)
    ensures var st := TopicsRun(s, ns, tss);
            st.result.Failure? ==> FailedAtFault(|s.log|, st.after, st.result.error)
  {
    if tss != [] {
      var k := |tss| - 1;
      var init := tss[..k];
      TopicsReadyPrefix(s, ns, tss);
      TopicsRunFails(s, ns, init);
      var done := TopicsRun(s, ns, init);
      if done.result.Success? {
        TopicsRunFrame(s, ns, init);
        TopicsRunSucceeds(s, ns, init);
        TopicsRunRemoves(s, ns, init);
        NextTopicIsNew(tss, k);
        TopicRunFails(done.after, ns, tss[k]);
        TopicRunFrame(done.after, ns, tss[k]);
        var st := TopicRun(done.after, ns, tss[k]);
        if st.result.Failure? {
          FailedAtFaultJoin(|s.log|, |done.after.log|, st.after, st.result.error);
        }
      }
    }
  }

  /** Once the sweep of a namespace's topics has failed, the topics after are never reached. */
  lemma {:induction false} TopicsRunStopped(s: Store, ns: string, a: seq<TopicSweep>, b: seq<TopicSweep>)
    requires TopicsRun(s, ns, a).result.Failure?
    ensures TopicsRun(s, ns, a + b) == TopicsRun(s, ns, a)
    ensures TopicsFollow(s, ns, a) ==> TopicsFollow(s, ns, a + b)
    decreases |b|
  {
    if b != [] {
      var b' := b[..|b| - 1];
      assert (a + b)[..|a + b| - 1] == a + b';
      TopicsRunStopped(s, ns, a, b');
    } else {
      assert a + b == a;
    }
  }

  // ---------------------------------------------------------------------------
  // One namespace
  // ---------------------------------------------------------------------------

  /** The listing of a namespace's topics: it fails at a planned failure, or when the namespace is missing. */
  lemma ListTopicsEffect(s: Store, ns: string)
    ensures var listed := GetTopicsStep(s, ns);
            && listed.after == s.(log := s.log + [GetTopics(ns)])
            && (|s.log| in s.faults ==> listed.result == Failure(s.faults[|s.log|]))
            && (listed.result.Success? <==> |s.log| !in s.faults && ns in s.namespaces)
            && (listed.result.Success? ==> listed.result.value == s.namespaces[ns].Keys)
  {
    QueryEffect(s, GetTopics(ns), if ns in s.namespaces then Success(s.namespaces[ns].Keys) else Failure(NotFound));
  }

  /** The topics the service listed, in a listing order, are ready to be swept. */
  lemma ListedTopicsReady(s: Store, n: NamespaceSweep)
    requires n.namespace in s.namespaces && NamespaceFollows(s, n)
    requires GetTopicsStep(s, n.namespace).result.Success?
    ensures TopicsReady(GetTopicsStep(s, n.namespace).after, n.namespace, n.topics)
    ensures Enumerates(TopicNames(n.topics), s.namespaces[n.namespace].Keys)
  {
    ListTopicsEffect(s, n.namespace);
    forall i | 0 <= i < |n.topics| ensures n.topics[i].topic in s.namespaces[n.namespace] {
      assert TopicNames(n.topics)[i] == n.topics[i].topic;
    }
  }

  /** Sweeping a namespace changes nothing but that namespace and the log, and only shrinks it. */
  lemma NamespaceRunFrame(s: Store, n: NamespaceSweep)
    requires n.namespace in s.namespaces && NamespaceFollows(s, n)
    ensures var st := NamespaceRun(s, n);
            && st.after == s.(namespaces := st.after.namespaces, log := st.after.log)
            && s.log < st.after.log
            && ShrunkAt(s.namespaces, st.after.namespaces, n.namespace)
  {
    var listed := GetTopicsStep(s, n.namespace);
    ListTopicsEffect(s, n.namespace);
    if listed.result.Success? {
      TopicsRunFrame(listed.after, n.namespace, n.topics);
    } else {
      ShrunkAtSelf(s.namespaces, n.namespace);
    }
  }

  /**
    When sweeping a namespace succeeds, no call met a planned failure and the
    calls were those of `NamespaceLog`.
  */
  lemma NamespaceRunSucceeds(s: Store, n: NamespaceSweep)
    requires n.namespace in s.namespaces && NamespaceFollows(s, n)
    ensures var st := NamespaceRun(s, n);
            st.result.Success? ==>
              && FaultFree(s.faults, |s.log|, |st.after.log|)
              && st.after.log == s.log + NamespaceLog(n)
  {
    var listed := GetTopicsStep(s, n.namespace);
    ListTopicsEffect(s, n.namespace);
    if listed.result.Success? {
      ListedTopicsReady(s, n);
      TopicsRunSucceeds(listed.after, n.namespace, n.topics);
      var st := NamespaceRun(s, n);
      if st.result.Success? {
        Assoc(s.log, [GetTopics(n.namespace)], TopicsLog(n.namespace, n.topics));
        FaultFreeCons(s.faults, |s.log|, |st.after.log|);
      }
    }
  }

  /**
    When sweeping a namespace succeeds, it has no topic left, and the sweep
    went through each of its topics and each of their subscriptions once.
  */
  lemma NamespaceRunRemoves(s: Store, n: NamespaceSweep)
    requires n.namespace in s.namespaces && NamespaceFollows(s, n)
    ensures var st := NamespaceRun(s, n);
            st.result.Success? ==>
              && st.after.namespaces == s.namespaces[n.namespace := map[]]
              && TopicsFit(n.topics, s.namespaces[n.namespace])
  {
    var ns := n.namespace;
    var listed := GetTopicsStep(s, ns);
    ListTopicsEffect(s, ns);
    if listed.result.Success? {
      ListedTopicsReady(s, n);
      TopicsRunRemoves(listed.after, ns, n.topics);
      TopicsRunListed(listed.after, ns, n.topics);
      TopicsLeftAll(s.namespaces[ns], TopicNames(n.topics));
    }
  }

  /** Sweeping a namespace fails only at a planned failure. */
  lemma NamespaceRunFails(s: Store, n: NamespaceSweep)
    requires n.namespace in s.namespaces && NamespaceFollows(s, n)
    ensures var st := NamespaceRun(s, n);
            st.result.Failure? ==> FailedAtFault(|s.log|, st.after, st.result.error)
  {
    var listed := GetTopicsStep(s, n.namespace);
    ListTopicsEffect(s, n.namespace);
    if listed.result.Success? {
      ListedTopicsReady(s, n);
      TopicsRunFails(listed.after, n.namespace, n.topics);
      TopicsRunFrame(listed.after, n.namespace, n.topics);
      var st := NamespaceRun(s, n);
      if st.result.Failure? {
        FailedAtFaultCons(|s.log|, st.after, st.result.error);
      }
    }
  }

  // ---------------------------------------------------------------------------
  // The benchmark namespaces
  // ---------------------------------------------------------------------------

  lemma PrunedSelf(m: Namespaces)
    ensures Pruned(m, m)
  {
  }

  lemma NamespaceNamesPrefix(plan: SweepPlan, k: nat)
    requires k <= |plan|
    ensures NamespaceNames(plan[..k]) == NamespaceNames(plan)[..k]
  {
  }

  /** The namespace swept after the first `k` is not among them. */
  lemma NextNamespaceIsNew(plan: SweepPlan, k: nat)
    requires k < |plan| && Distinct(NamespaceNames(plan))
    ensures plan[k].namespace !in NamespaceNames(plan[..k])
  {
    NamespaceNamesPrefix(plan, k);
    var names := NamespaceNames(plan[..k]);
    forall i | 0 <= i < k ensures names[i] != plan[k].namespace {
      assert NamespaceNames(plan)[i] == names[i] && NamespaceNames(plan)[k] == plan[k].namespace;
    }
  }

  /** Emptying the next namespace, when it was not emptied before. */
  lemma NamespacesLeftStep(m: Namespaces, names: seq<string>, x: string)
    requires x in m && x !in names
    ensures var cur := NamespacesLeft(m, names);
            && cur[x] == m[x]
            && cur[x := map[]] == NamespacesLeft(m, names + [x])
  {
    assert NamespacesLeft(m, names)[x := map[]] == NamespacesLeft(m, names + [x]);
  }

  /** Emptying every benchmark namespace is the sweep. */
  lemma NamespacesLeftAll(m: Namespaces, names: seq<string>)
    requires forall x :: x in names <==> x in m && InBenchmarkTenant(x)
    ensures NamespacesLeft(m, names) == Swept(m)
  {
  }

  /** The namespaces to sweep, in the listing order: existing benchmark namespaces, each once, each listed as found. */
  ghost predicate NamespacesReady(s: Store, plan: SweepPlan) {
    && Distinct(NamespaceNames(plan))
    && (forall i :: 0 <= i < |plan| ==> plan[i].namespace in s.namespaces && InBenchmarkTenant(plan[i].namespace))
    && NamespacesFollow(s, plan)
  }

  lemma NamespacesReadyPrefix(s: Store, plan: SweepPlan)
    requires NamespacesReady(s, plan) && plan != []
    ensures NamespacesReady(s, plan[..|plan| - 1])
  {
    var k := |plan| - 1;
    NamespaceNamesPrefix(plan, k);
    DistinctPrefix(NamespaceNames(plan), k);
  }

  /** Sweeping the benchmark namespaces changes nothing but their topics and the log. */
  lemma {:induction false} NamespacesRunFrame(s: Store, plan: SweepPlan)
    requires NamespacesReady(s, plan)
    ensures var st := NamespacesRun(s, plan);
            && st.after == s.(namespaces := st.after.namespaces, log := st.after.log)
            && s.log <= st.after.log
            && Pruned(s.namespaces, st.after.namespaces)
  {
    if plan == [] {
      PrunedSelf(s.namespaces);
    } else {
      var k := |plan| - 1;
      NamespacesReadyPrefix(s, plan);
      NamespacesRunFrame(s, plan[..k]);
      var done := NamespacesRun(s, plan[..k]);
      if done.result.Success? {
        NamespaceRunFrame(done.after, plan[k]);
        var st := NamespaceRun(done.after, plan[k]);
        PrunedThenShrunkAt(s.namespaces, done.after.namespaces, st.after.namespaces, plan[k].namespace);
      }
    }
  }

  /**
    When sweeping the benchmark namespaces succeeds, no call met a planned
    failure and the calls were those of `NamespacesLog`.
  */
  lemma {:induction false} NamespacesRunSucceeds(s: Store, plan: SweepPlan)
    requires NamespacesReady(s, plan)
    ensures var st := NamespacesRun(s, plan);
            st.result.Success? ==>
              && FaultFree(s.faults, |s.log|, |st.after.log|)
              && st.after.log == s.log + NamespacesLog(plan)
  {
    if plan != [] {
      var k := |plan| - 1;
      NamespacesReadyPrefix(s, plan);
      NamespacesRunSucceeds(s, plan[..k]);
      var done := NamespacesRun(s, plan[..k]);
      if done.result.Success? {
        NamespacesRunFrame(s, plan[..k]);
        NamespaceRunSucceeds(done.after, plan[k]);
        var st := NamespaceRun(done.after, plan[k]);
        if st.result.Success? {
          Assoc(s.log, NamespacesLog(plan[..k]), NamespaceLog(plan[k]));
          FaultFreeJoin(s.faults, |s.log|, |done.after.log|, |st.after.log|);
        }
      }
    }
  }

  /**
    When sweeping the benchmark namespaces succeeds, each of them is empty,
    and the sweep went through each of their topics and subscriptions once.
  */
  lemma {:induction false} NamespacesRunRemoves(s: Store, plan: SweepPlan)
    requires NamespacesReady(s, plan)
    ensures var st := NamespacesRun(s, plan);
            st.result.Success? ==>
              && st.after.namespaces == NamespacesLeft(s.namespaces, NamespaceNames(plan))
              && forall i :: 0 <= i < |plan| ==> TopicsFit(plan[i].topics, s.namespaces[plan[i].namespace])
  {
    var m := s.namespaces;
    if plan == [] {
      assert NamespacesLeft(m, []) == m;
    } else {
      var k := |plan| - 1;
      var init := plan[..k];
      var last := plan[k];
      NamespacesReadyPrefix(s, plan);
      NamespacesRunRemoves(s, init);
      var done := NamespacesRun(s, init);
      if done.result.Success? {
        NamespacesRunFrame(s, init);
        NextNamespaceIsNew(plan, k);
        NamespaceRunRemoves(done.after, last);
        var st := NamespaceRun(done.after, last);
        if st.result.Success? {
          NamespacesRemovesStep(m, plan, done.after.namespaces, st.after.namespaces);
        }
      }
    }
  }

  /** One more namespace emptied, and its contents gone through once. */
  lemma NamespacesRemovesStep(m: Namespaces, plan: SweepPlan, cur: Namespaces, after: Namespaces)
    requires plan != [] && forall i :: 0 <= i < |plan| ==> plan[i].namespace in m
    requires var k := |plan| - 1;
             && plan[k].namespace !in NamespaceNames(plan[..k])
             && cur == NamespacesLeft(m, NamespaceNames(plan[..k]))
             && (forall i :: 0 <= i < k ==> TopicsFit(plan[..k][i].topics, m[plan[..k][i].namespace]))
             && after == cur[plan[k].namespace := map[]] && TopicsFit(plan[k].topics, cur[plan[k].namespace])
    ensures after == NamespacesLeft(m, NamespaceNames(plan))
    ensures forall i :: 0 <= i < |plan| ==> TopicsFit(plan[i].topics, m[plan[i].namespace])
  {
    var k := |plan| - 1;
    assert NamespaceNames(plan) == NamespaceNames(plan[..k]) + [plan[k].namespace];
    NamespacesLeftStep(m, NamespaceNames(plan[..k]), plan[k].namespace);
    forall i | 0 <= i < |plan| ensures TopicsFit(plan[i].topics, m[plan[i].namespace]) {
      if i < k {
        assert plan[i] == plan[..k][i];
      }
    }
  }

  /** Sweeping the benchmark namespaces fails only at a planned failure. */
  lemma {:induction false} NamespacesRunFails(s: Store, plan: SweepPlan)
    requires NamespacesReady(s, plan)
    ensures var st := NamespacesRun(s, plan);
            st.result.Failure? ==> FailedAtFault(|s.log|, st.after, st.result.error)
  {
    if plan != [] {
      var k := |plan| - 1;
      NamespacesReadyPrefix(s, plan);
      NamespacesRunFails(s, plan[..k]);
      var done := NamespacesRun(s, plan[..k]);
      if done.result.Success? {
        NamespacesRunFrame(s, plan[..k]);
        NamespacesRunSucceeds(s, plan[..k]);
        NamespaceRunFails(done.after, plan[k]);
        NamespaceRunFrame(done.after, plan[k]);
        var st := NamespaceRun(done.after, plan[k]);
        if st.result.Failure? {
          FailedAtFaultJoin(|s.log|, |done.after.log|, st.after, st.result.error);
        }
      }
    }
  }

  /** Once the sweep of the namespaces has failed, the namespaces after are never reached. */
  lemma {:induction false} NamespacesRunStopped(s: Store, a: SweepPlan, b: SweepPlan)
    requires NamespacesRun(s, a).result.Failure?
    ensures NamespacesRun(s, a + b) == NamespacesRun(s, a)
    ensures NamespacesFollow(s, a) ==> NamespacesFollow(s, a + b)
    decreases |b|
  {
    if b != [] {
      var b' := b[..|b| - 1];
      assert (a + b)[..|a + b| - 1] == a + b';
      NamespacesRunStopped(s, a, b');
    } else {
      assert a + b == a;
    }
  }

  // ---------------------------------------------------------------------------
  // The whole sweep
  // ---------------------------------------------------------------------------

  /** The listing of the benchmark tenant's namespaces: it fails at a planned failure, or when the tenant is missing. */
  lemma ListNamespacesEffect(s: Store)
    ensures var listed := GetNamespacesStep(s, BENCHMARK_TENANT);
            && listed.after == s.(log := s.log + [GetNamespaces(BENCHMARK_TENANT)])
            && (|s.log| in s.faults ==> listed.result == Failure(s.faults[|s.log|]))
            && (|s.log| !in s.faults && BENCHMARK_TENANT !in s.tenants ==> listed.result == Failure(NotFound))
            && (listed.result.Success? <==> |s.log| !in s.faults && BENCHMARK_TENANT in s.tenants)
            && (listed.result.Success? ==> listed.result.value == set ns | ns in s.namespaces && InBenchmarkTenant(ns))
  {
    QueryEffect(s, GetNamespaces(BENCHMARK_TENANT),
      if BENCHMARK_TENANT in s.tenants
      then Success(set ns | ns in s.namespaces && Naming.TenantOfNamespace(ns) == BENCHMARK_TENANT)
      else Failure(NotFound));
  }

  /** The namespaces the service listed, in a listing order, are ready to be swept. */
  lemma ListedNamespacesReady(s: Store, plan: SweepPlan)
    requires SweepFollows(s, plan) && GetNamespacesStep(s, BENCHMARK_TENANT).result.Success?
    ensures NamespacesReady(GetNamespacesStep(s, BENCHMARK_TENANT).after, plan)
    ensures Enumerates(NamespaceNames(plan), set ns | ns in s.namespaces && InBenchmarkTenant(ns))
  {
    ListNamespacesEffect(s);
    forall i | 0 <= i < |plan|
      ensures plan[i].namespace in s.namespaces && InBenchmarkTenant(plan[i].namespace)
    {
      assert NamespaceNames(plan)[i] == plan[i].namespace;
      assert plan[i].namespace in NamespaceNames(plan);
    }
  }

  /**
    `cleanupTopics` changes nothing but topics and subscriptions of benchmark
    namespaces, and records at least the listing of those namespaces.
  */
  lemma SweepRunFrame(s: Store, plan: SweepPlan)
    requires SweepFollows(s, plan)
    ensures var st := SweepRun(s, plan);
            && st.after == s.(namespaces := st.after.namespaces, log := st.after.log)
            && s.log < st.after.log
            && Pruned(s.namespaces, st.after.namespaces)
  {
    var listed := GetNamespacesStep(s, BENCHMARK_TENANT);
    ListNamespacesEffect(s);
    if listed.result.Success? {
      ListedNamespacesReady(s, plan);
      NamespacesRunFrame(listed.after, plan);
    } else {
      PrunedSelf(s.namespaces);
    }
  }

  /**
    When `cleanupTopics` succeeds, the benchmark tenant exists, no call met a
    planned failure, and the calls were those of `SweepLog`.
  */
  lemma SweepRunSucceeds(s: Store, plan: SweepPlan)
    requires SweepFollows(s, plan)
    ensures var st := SweepRun(s, plan);
            st.result.Success? ==>
              && BENCHMARK_TENANT in s.tenants
              && FaultFree(s.faults, |s.log|, |st.after.log|)
              && st.after.log == s.log + SweepLog(plan)
  {
    var listed := GetNamespacesStep(s, BENCHMARK_TENANT);
    ListNamespacesEffect(s);
    if listed.result.Success? {
      ListedNamespacesReady(s, plan);
      NamespacesRunSucceeds(listed.after, plan);
      var st := SweepRun(s, plan);
      if st.result.Success? {
        Assoc(s.log, [GetNamespaces(BENCHMARK_TENANT)], NamespacesLog(plan));
        FaultFreeCons(s.faults, |s.log|, |st.after.log|);
      }
    }
  }

  /**
    When `cleanupTopics` succeeds, every benchmark namespace is left without
    topics and every other namespace is as it was, and the sweep went through
    each benchmark namespace, topic and subscription exactly once.
  */
  lemma SweepRunRemoves(s: Store, plan: SweepPlan)
    requires SweepFollows(s, plan)
    ensures var st := SweepRun(s, plan);
            st.result.Success? ==> st.after.namespaces == Swept(s.namespaces) && PlanFits(plan, s.namespaces)
  {
    var listed := GetNamespacesStep(s, BENCHMARK_TENANT);
    ListNamespacesEffect(s);
    if listed.result.Success? {
      ListedNamespacesReady(s, plan);
      NamespacesRunRemoves(listed.after, plan);
      NamespacesLeftAll(s.namespaces, NamespaceNames(plan));
    }
  }

  /**
    `cleanupTopics` fails either at the first planned failure, or with
    NotFound on its first call when there is no benchmark tenant.
  */
  lemma SweepRunFails(s: Store, plan: SweepPlan)
    requires SweepFollows(s, plan)
    ensures var st := SweepRun(s, plan);
            st.result.Failure? ==>
              || FailedAtFault(|s.log|, st.after, st.result.error)
              || (&& BENCHMARK_TENANT !in s.tenants && |s.log| !in s.faults
                  && st.result.error == NotFound
                  && st.after.log == s.log + [GetNamespaces(BENCHMARK_TENANT)])
  {
    var listed := GetNamespacesStep(s, BENCHMARK_TENANT);
    ListNamespacesEffect(s);
    if listed.result.Success? {
      ListedNamespacesReady(s, plan);
      NamespacesRunFails(listed.after, plan);
      NamespacesRunFrame(listed.after, plan);
      var st := SweepRun(s, plan);
      if st.result.Failure? {
        FailedAtFaultCons(|s.log|, st.after, st.result.error);
      }
    }
  }

  /** `cleanupTopics` succeeds exactly when the benchmark tenant exists and none of its calls meets a planned failure. */
  lemma SweepRunOutcome(s: Store, plan: SweepPlan)
    requires SweepFollows(s, plan)
    ensures var st := SweepRun(s, plan);
            st.result.Success? <==> BENCHMARK_TENANT in s.tenants && FaultFree(s.faults, |s.log|, |st.after.log|)
  {
    SweepRunFrame(s, plan);
    SweepRunSucceeds(s, plan);
    SweepRunFails(s, plan);
    var st := SweepRun(s, plan);
    if st.result.Failure? && BENCHMARK_TENANT in s.tenants {
      assert |st.after.log| - 1 in s.faults;
    }
  }

  /**
    Nothing is left for a later sweep of the swept state: it lists the
    benchmark namespaces and the topics of each, and deletes nothing.
  */
  lemma SweepOfSweptDeletesNothing(plan: SweepPlan, m: Namespaces)
    requires PlanFits(plan, Swept(m))
    ensures SweepLog(plan) == [GetNamespaces(BENCHMARK_TENANT)] + seq(|plan|, i requires 0 <= i < |plan| => GetTopics(plan[i].namespace))
  {
    forall i | 0 <= i < |plan| ensures plan[i].topics == [] {
      assert Swept(m)[plan[i].namespace] == map[] by {
        assert NamespaceNames(plan)[i] == plan[i].namespace;
        assert plan[i].namespace in NamespaceNames(plan);
      }
      NothingListed(TopicNames(plan[i].topics));
    }
    ListingsOnly(plan);
  }

  /** Listing the topics of an empty namespace gives none. */
  lemma NothingListed(names: seq<string>)
    requires Enumerates(names, {})
    ensures names == []
  {
    EnumeratesSize(names, {});
  }

  lemma {:induction false} ListingsOnly(plan: SweepPlan)
    requires forall i :: 0 <= i < |plan| ==> plan[i].topics == []
    ensures NamespacesLog(plan) == seq(|plan|, i requires 0 <= i < |plan| => GetTopics(plan[i].namespace))
  {
    if plan != [] {
      var k := |plan| - 1;
      ListingsOnly(plan[..k]);
      assert NamespaceLog(plan[k]) == [GetTopics(plan[k].namespace)];
    }
  }

  // ---------------------------------------------------------------------------
  // The sweep on the admin client, as the driver runs it
  // ---------------------------------------------------------------------------

  /** Delete the given subscriptions of a topic, forcing each, stopping at the first error. */
  method DeleteSubscriptions(admin: PulsarAdmin, ns: string, topic: string, subs: seq<string>)
    returns (failure: Option<AdminError>)
    modifies admin
    ensures var st := DeleteSubscriptionsRun(old(admin.State()), ns, topic, subs);
            admin.State() == st.after && failure == ErrorOf(st.result)
    ensures admin.closed == old(admin.closed)
  {
    var k := 0;
    while k < |subs|
      invariant 0 <= k <= |subs|
      invariant DeleteSubscriptionsRun(old(admin.State()), ns, topic, subs)
                == DeleteSubscriptionsRun(admin.State(), ns, topic, subs[k..])
      invariant admin.closed == old(admin.closed)
    {
      var r := admin.DeleteSubscription(ns, topic, subs[k], true);
      if r.Failure? {
        return Some(r.error);
      }
      assert subs[k..][1..] == subs[k + 1..];
      k := k + 1;
    }
    return None;
  }

  /**
    List the subscriptions of a topic, delete each, then delete the topic.
    `ts` is the topic with its subscriptions in the order they were listed.
  */
  method SweepTopic(admin: PulsarAdmin, ns: string, topic: string)
    returns (failure: Option<AdminError>, ghost ts: TopicSweep)
    modifies admin
    ensures ts.topic == topic && TopicFollows(old(admin.State()), ns, ts)
    ensures var st := TopicRun(old(admin.State()), ns, ts);
            admin.State() == st.after && failure == ErrorOf(st.result)
    ensures admin.closed == old(admin.closed)
  {
    var listed := admin.GetSubscriptions(ns, topic);
    if listed.Failure? {
      return Some(listed.error), TopicSweep(topic, []);
    }
    ts := TopicSweep(topic, listed.value);
    failure := DeleteSubscriptions(admin, ns, topic, listed.value);
    if failure.None? {
      var r := admin.DeleteTopic(ns, topic, true);
      failure := ErrorOf(r);
    }
  }

  /** Sweeping one more topic after a prefix that succeeded. */
  lemma TopicsRunSnoc(s: Store, ns: string, before: seq<TopicSweep>, ts: TopicSweep, mid: Store)
    requires TopicsRun(s, ns, before) == Step(Success(()), mid)
    ensures TopicsRun(s, ns, before + [ts]) == TopicRun(mid, ns, ts)
    ensures TopicsFollow(s, ns, before) && TopicFollows(mid, ns, ts) ==> TopicsFollow(s, ns, before + [ts])
  {
    assert (before + [ts])[..|before|] == before;
  }

  /** After a listing that succeeded, sweeping a namespace is sweeping its topics. */
  lemma NamespaceRunListed(s: Store, n: NamespaceSweep)
    requires GetTopicsStep(s, n.namespace).result.Success?
    ensures NamespaceRun(s, n) == TopicsRun(GetTopicsStep(s, n.namespace).after, n.namespace, n.topics)
    ensures NamespaceFollows(s, n) <==>
              Enumerates(TopicNames(n.topics), GetTopicsStep(s, n.namespace).result.value)
              && TopicsFollow(GetTopicsStep(s, n.namespace).after, n.namespace, n.topics)
  {
  }

  /** Sweeping one more namespace after a prefix that succeeded. */
  lemma NamespacesRunSnoc(s: Store, before: SweepPlan, n: NamespaceSweep, mid: Store)
    requires NamespacesRun(s, before) == Step(Success(()), mid)
    ensures NamespacesRun(s, before + [n]) == NamespaceRun(mid, n)
    ensures NamespacesFollow(s, before) && NamespaceFollows(mid, n) ==> NamespacesFollow(s, before + [n])
  {
    assert (before + [n])[..|before|] == before;
  }

  /** After a listing that succeeded, the sweep is the sweep of the namespaces listed. */
  lemma SweepRunListed(s: Store, plan: SweepPlan)
    requires GetNamespacesStep(s, BENCHMARK_TENANT).result.Success?
    ensures SweepRun(s, plan) == NamespacesRun(GetNamespacesStep(s, BENCHMARK_TENANT).after, plan)
    ensures SweepFollows(s, plan) <==>
              Enumerates(NamespaceNames(plan), GetNamespacesStep(s, BENCHMARK_TENANT).result.value)
              && NamespacesFollow(GetNamespacesStep(s, BENCHMARK_TENANT).after, plan)
  {
  }

  /** Topics not reached by a sweep that stopped early, as far as the listing order goes. */
  function Unvisited(topics: seq<string>): (tss: seq<TopicSweep>)
    ensures TopicNames(tss) == topics
  {
    seq(|topics|, j requires 0 <= j < |topics| => TopicSweep(topics[j], []))
  }

  /** The names swept so far grow with the name swept next. */
  lemma TopicNamesSnoc(topics: seq<string>, j: nat, tss: seq<TopicSweep>, ts: TopicSweep)
    requires j < |topics| && TopicNames(tss) == topics[..j] && ts.topic == topics[j]
    ensures TopicNames(tss + [ts]) == topics[..j + 1]
  {
    TopicNamesConcat(tss, [ts]);
    assert topics[..j + 1] == topics[..j] + [topics[j]];
  }

  /** The names swept so far and those not reached make up the listing. */
  lemma TopicNamesRest(topics: seq<string>, j: nat, tss: seq<TopicSweep>)
    requires j < |topics| && TopicNames(tss) == topics[..j + 1]
    ensures TopicNames(tss + Unvisited(topics[j + 1..])) == topics
  {
    TopicNamesConcat(tss, Unvisited(topics[j + 1..]));
    assert topics[..j + 1] + topics[j + 1..] == topics;
  }

  lemma TopicNamesConcat(a: seq<TopicSweep>, b: seq<TopicSweep>)
    ensures TopicNames(a + b) == TopicNames(a) + TopicNames(b)
  {
  }

  /** One turn of the loop over a namespace's topics that succeeds: the sweep so far grows by one. */
  lemma TopicsLoopStep(s1: Store, ns: string, topics: seq<string>, j: nat, tss: seq<TopicSweep>,
                       ts: TopicSweep, mid: Store, after: Store)
    requires j < |topics|
    requires TopicNames(tss) == topics[..j] && TopicsFollow(s1, ns, tss)
    requires TopicsRun(s1, ns, tss) == Step(Success(()), mid)
    requires ts.topic == topics[j] && TopicFollows(mid, ns, ts)
    requires after == TopicRun(mid, ns, ts).after && TopicRun(mid, ns, ts).result.Success?
    ensures TopicNames(tss + [ts]) == topics[..j + 1] && TopicsFollow(s1, ns, tss + [ts])
    ensures TopicsRun(s1, ns, tss + [ts]) == Step(Success(()), after)
  {
    TopicsRunSnoc(s1, ns, tss, ts, mid);
    TopicNamesSnoc(topics, j, tss, ts);
  }

  /** One turn of the loop over a namespace's topics that fails: the sweep ends there. */
  lemma TopicsLoopStop(s1: Store, ns: string, topics: seq<string>, j: nat, tss: seq<TopicSweep>,
                       ts: TopicSweep, mid: Store, after: Store, e: AdminError)
    requires j < |topics|
    requires TopicNames(tss) == topics[..j] && TopicsFollow(s1, ns, tss)
    requires TopicsRun(s1, ns, tss) == Step(Success(()), mid)
    requires ts.topic == topics[j] && TopicFollows(mid, ns, ts)
    requires after == TopicRun(mid, ns, ts).after && TopicRun(mid, ns, ts).result == Failure(e)
    ensures var all := tss + [ts] + Unvisited(topics[j + 1..]);
            && TopicNames(all) == topics && TopicsFollow(s1, ns, all)
            && TopicsRun(s1, ns, all) == Step(Failure(e), after)
  {
    var rest := Unvisited(topics[j + 1..]);
    TopicNamesSnoc(topics, j, tss, ts);
    TopicNamesRest(topics, j, tss + [ts]);
    assert TopicsRun(s1, ns, tss + [ts]) == Step(Failure(e), after) && TopicsFollow(s1, ns, tss + [ts]) by {
      TopicsRunSnoc(s1, ns, tss, ts, mid);
    }
    TopicsRunStopped(s1, ns, tss + [ts], rest);
  }

  /**
    Sweep the listed topics of a namespace in their listing order, stopping
    at the first error. `tss` is each topic with its subscriptions as listed.
  */
  method SweepTopics(admin: PulsarAdmin, ns: string, topics: seq<string>)
    returns (failure: Option<AdminError>, ghost tss: seq<TopicSweep>)
    modifies admin
    ensures TopicNames(tss) == topics && TopicsFollow(old(admin.State()), ns, tss)
    ensures var st := TopicsRun(old(admin.State()), ns, tss);
            admin.State() == st.after && failure == ErrorOf(st.result)
    ensures admin.closed == old(admin.closed)
  {
    ghost var s1 := admin.State();
    tss := [];
    var j := 0;
    while j < |topics|
      invariant 0 <= j <= |topics|
      invariant TopicNames(tss) == topics[..j]
      invariant TopicsRun(s1, ns, tss) == Step(Success(()), admin.State())
      invariant TopicsFollow(s1, ns, tss)
      invariant admin.closed == old(admin.closed)
    {
      ghost var mid := admin.State();
      var f;
      ghost var ts;
      f, ts := SweepTopic(admin, ns, topics[j]);
      if f.Some? {
        TopicsLoopStop(s1, ns, topics, j, tss, ts, mid, admin.State(), f.value);
        return f, tss + [ts] + Unvisited(topics[j + 1..]);
      }
      TopicsLoopStep(s1, ns, topics, j, tss, ts, mid, admin.State());
      tss := tss + [ts];
      j := j + 1;
    }
    assert topics[..j] == topics;
    return None, tss;
  }

  /**
    List the topics of a namespace and sweep each, stopping at the first
    error. `n` is the namespace with its topics in the order they were listed.
  */
  method SweepNamespace(admin: PulsarAdmin, ns: string)
    returns (failure: Option<AdminError>, ghost n: NamespaceSweep)
    modifies admin
    ensures n.namespace == ns && NamespaceFollows(old(admin.State()), n)
    ensures var st := NamespaceRun(old(admin.State()), n);
            admin.State() == st.after && failure == ErrorOf(st.result)
    ensures admin.closed == old(admin.closed)
  {
    ghost var s0 := admin.State();
    var listed := admin.GetTopics(ns);
    if listed.Failure? {
      return Some(listed.error), NamespaceSweep(ns, []);
    }
    ghost var tss;
    failure, tss := SweepTopics(admin, ns, listed.value);
    n := NamespaceSweep(ns, tss);
    NamespaceRunListed(s0, n);
  }

  /** Namespaces not reached by a sweep that stopped early. */
  function UnvisitedNamespaces(namespaces: seq<string>): (plan: SweepPlan)
    ensures NamespaceNames(plan) == namespaces
  {
    seq(|namespaces|, j requires 0 <= j < |namespaces| => NamespaceSweep(namespaces[j], []))
  }

  /** The names swept so far grow with the name swept next. */
  lemma NamespaceNamesSnoc(namespaces: seq<string>, j: nat, plan: SweepPlan, n: NamespaceSweep)
    requires j < |namespaces| && NamespaceNames(plan) == namespaces[..j] && n.namespace == namespaces[j]
    ensures NamespaceNames(plan + [n]) == namespaces[..j + 1]
  {
    NamespaceNamesConcat(plan, [n]);
    assert namespaces[..j + 1] == namespaces[..j] + [namespaces[j]];
  }

  /** The names swept so far and those not reached make up the listing. */
  lemma NamespaceNamesRest(namespaces: seq<string>, j: nat, plan: SweepPlan)
    requires j < |namespaces| && NamespaceNames(plan) == namespaces[..j + 1]
    ensures NamespaceNames(plan + UnvisitedNamespaces(namespaces[j + 1..])) == namespaces
  {
    NamespaceNamesConcat(plan, UnvisitedNamespaces(namespaces[j + 1..]));
    assert namespaces[..j + 1] + namespaces[j + 1..] == namespaces;
  }

  lemma NamespaceNamesConcat(a: SweepPlan, b: SweepPlan)
    ensures NamespaceNames(a + b) == NamespaceNames(a) + NamespaceNames(b)
  {
  }

  /** One turn of the loop over the benchmark namespaces that succeeds: the sweep so far grows by one. */
  lemma NamespacesLoopStep(s1: Store, namespaces: seq<string>, j: nat, plan: SweepPlan,
                       n: NamespaceSweep, mid: Store, after: Store)
    requires j < |namespaces|
    requires NamespaceNames(plan) == namespaces[..j] && NamespacesFollow(s1, plan)
    requires NamespacesRun(s1, plan) == Step(Success(()), mid)
    requires n.namespace == namespaces[j] && NamespaceFollows(mid, n)
    requires after == NamespaceRun(mid, n).after && NamespaceRun(mid, n).result.Success?
    ensures NamespaceNames(plan + [n]) == namespaces[..j + 1] && NamespacesFollow(s1, plan + [n])
    ensures NamespacesRun(s1, plan + [n]) == Step(Success(()), after)
  {
    NamespacesRunSnoc(s1, plan, n, mid);
    NamespaceNamesSnoc(namespaces, j, plan, n);
  }

  /** One turn of the loop over the benchmark namespaces that fails: the sweep ends there. */
  lemma NamespacesLoopStop(s1: Store, namespaces: seq<string>, j: nat, plan: SweepPlan,
                       n: NamespaceSweep, mid: Store, after: Store, e: AdminError)
    requires j < |namespaces|
    requires NamespaceNames(plan) == namespaces[..j] && NamespacesFollow(s1, plan)
    requires NamespacesRun(s1, plan) == Step(Success(()), mid)
    requires n.namespace == namespaces[j] && NamespaceFollows(mid, n)
    requires after == NamespaceRun(mid, n).after && NamespaceRun(mid, n).result == Failure(e)
    ensures var all := plan + [n] + UnvisitedNamespaces(namespaces[j + 1..]);
            && NamespaceNames(all) == namespaces && NamespacesFollow(s1, all)
            && NamespacesRun(s1, all) == Step(Failure(e), after)
  {
    var rest := UnvisitedNamespaces(namespaces[j + 1..]);
    NamespaceNamesSnoc(namespaces, j, plan, n);
    NamespaceNamesRest(namespaces, j, plan + [n]);
    assert NamespacesRun(s1, plan + [n]) == Step(Failure(e), after) && NamespacesFollow(s1, plan + [n]) by {
      NamespacesRunSnoc(s1, plan, n, mid);
    }
    NamespacesRunStopped(s1, plan + [n], rest);
  }

  /**
    Sweep the listed benchmark namespaces in their listing order, stopping at
    the first error. `plan` is what was listed under each.
  */
  method SweepNamespaces(admin: PulsarAdmin, namespaces: seq<string>)
    returns (failure: Option<AdminError>, ghost plan: SweepPlan)
    modifies admin
    ensures NamespaceNames(plan) == namespaces && NamespacesFollow(old(admin.State()), plan)
    ensures var st := NamespacesRun(old(admin.State()), plan);
            admin.State() == st.after && failure == ErrorOf(st.result)
    ensures admin.closed == old(admin.closed)
  {
    ghost var s1 := admin.State();
    plan := [];
    var j := 0;
    while j < |namespaces|
      invariant 0 <= j <= |namespaces|
      invariant NamespaceNames(plan) == namespaces[..j]
      invariant NamespacesRun(s1, plan) == Step(Success(()), admin.State())
      invariant NamespacesFollow(s1, plan)
      invariant admin.closed == old(admin.closed)
    {
      ghost var mid := admin.State();
      var f;
      ghost var n;
      f, n := SweepNamespace(admin, namespaces[j]);
      if f.Some? {
        NamespacesLoopStop(s1, namespaces, j, plan, n, mid, admin.State(), f.value);
        return f, plan + [n] + UnvisitedNamespaces(namespaces[j + 1..]);
      }
      NamespacesLoopStep(s1, namespaces, j, plan, n, mid, admin.State());
      plan := plan + [n];
      j := j + 1;
    }
    assert namespaces[..j] == namespaces;
    return None, plan;
  }

  /**
    `cleanupTopics`: list the namespaces of the benchmark tenant and sweep
    each, stopping at the first error, which it reports instead of throwing.
    `plan` is the order in which the service listed what was swept.
  */
  method CleanupTopics(admin: PulsarAdmin) returns (failure: Option<AdminError>, ghost plan: SweepPlan)
    modifies admin
    ensures SweepFollows(old(admin.State()), plan)
    ensures var st := SweepRun(old(admin.State()), plan);
            admin.State() == st.after && failure == ErrorOf(st.result)
    ensures admin.closed == old(admin.closed)
  {
    ghost var s0 := admin.State();
    var listed := admin.GetNamespaces(BENCHMARK_TENANT);
    if listed.Failure? {
      return Some(listed.error), [];
    }
    failure, plan := SweepNamespaces(admin, listed.value);
    SweepRunListed(s0, plan);
  }
}
