/**
  The provisioning part of `initialize`: derive the tenant from the namespace
  prefix, make sure the tenant exists (a concurrent creator's Conflict is
  ignored), then create the namespace and set its persistence policy, backlog
  quota and deduplication status. Every other admin error aborts the setup.

  `Provision` states the sequence as a function of the admin service's state;
  the driver's method is proved to follow it, and the lemmas below say what it
  does on the fault-free path, at the first failure, and on a tenant conflict.
*/
module Provisioning {
  import opened Common
  import opened Admin
  import Naming

  /** The persistence settings applied to the namespace. */
  datatype Persistence = Persistence(ensembleSize: int, writeQuorum: int, ackQuorum: int, deduplicationEnabled: bool)

  /** The configuration fields the modelled operations read. */
  datatype Config = Config(topicType: string, namespacePrefix: string, clusterName: string, persistence: Persistence)

  /**
    How `initialize` ends: normally, with the IOException that wraps an admin
    error, or with the ArrayIndexOutOfBoundsException of an empty split.
  */
  datatype InitOutcome = Ready | SetupError(cause: AdminError) | TenantIndexOutOfBounds

  /** The outcome, the service afterwards, and the value written to the `namespace` field if it was written. */
  datatype Provisioned = Provisioned(outcome: InitOutcome, after: Store, namespace: Option<string>)

  function Provision(s: Store, cfg: Config, suffix: string): Provisioned {
    match Naming.Tenant(cfg.namespacePrefix)
    case None => Provisioned(TenantIndexOutOfBounds, s, None)
    case Some(tenant) =>
      var ensured := EnsureTenant(s, tenant, cfg.clusterName);
      if ensured.result.Failure? then Provisioned(SetupError(ensured.result.error), ensured.after, None)
      else ProvisionNamespace(ensured.after, Naming.NamespaceName(cfg.namespacePrefix, suffix), cfg.persistence)
  }

  /**
    List the tenants; create the tenant only if it is not listed, and take a
    Conflict from that creation as success.
  */
  function EnsureTenant(s: Store, tenant: string, cluster: string): Step<()> {
    var listed := GetTenantsStep(s);
    if listed.result.Failure? then Step(Failure(listed.result.error), listed.after)
    else if tenant in listed.result.value then Step(Success(()), listed.after)
    else
      var created := CreateTenantStep(listed.after, tenant, cluster);
      if created.result == Failure(Conflict) then Step(Success(()), created.after) else created
  }

  /** From the assignment of the `namespace` field on: create it, then apply the policies. */
  function ProvisionNamespace(s: Store, ns: string, p: Persistence): Provisioned {
    var created := CreateNamespaceStep(s, ns);
    var applied := if created.result.Failure? then created else ApplyPolicies(created.after, ns, PolicyCalls(ns, p));
    Provisioned(if applied.result.Failure? then SetupError(applied.result.error) else Ready, applied.after, Some(ns))
  }

  /** The persistence policy, the backlog quota and the deduplication status, in that order. */
  function PolicyCalls(ns: string, p: Persistence): seq<AdminCall> {
    [ SetPersistence(ns, p.ensembleSize, p.writeQuorum, p.ackQuorum),
      SetBacklogQuota(ns),
      SetDeduplicationStatus(ns, p.deduplicationEnabled) ]
  }

  /** Issue the policy calls one after the other, stopping at the first that fails. */
  function ApplyPolicies(s: Store, ns: string, calls: seq<AdminCall>): Step<()>
    decreases |calls|
  {
    if calls == [] then Step(Success(()), s)
    else
      var st := PolicyStep(s, calls[0], ns);
      if st.result.Failure? then st else ApplyPolicies(st.after, ns, calls[1..])
  }

  function NamespaceCalls(ns: string, p: Persistence): seq<AdminCall> {
    [CreateNamespace(ns)] + PolicyCalls(ns, p)
  }

  function TenantCalls(s: Store, tenant: string, cluster: string): seq<AdminCall> {
    [GetTenants] + (if tenant in s.tenants then [] else [CreateTenant(tenant, cluster)])
  }

  /**
    The calls of a provisioning that meets no error: list the tenants, create
    the tenant only if it is not listed, then the namespace calls.
  */
  function Plan(s: Store, cfg: Config, suffix: string): seq<AdminCall>
    requires Naming.Tenant(cfg.namespacePrefix).Some?
  {
    TenantCalls(s, Naming.Tenant(cfg.namespacePrefix).value, cfg.clusterName)
    + NamespaceCalls(Naming.NamespaceName(cfg.namespacePrefix, suffix), cfg.persistence)
  }

  // ---------------------------------------------------------------------------
  // The policy calls
  // ---------------------------------------------------------------------------

  /**
    The policy calls change nothing but the log; they issue a non-empty prefix
    of `calls` (all of them on success), and the failing one is the last issued.
  */
  lemma {:induction false} ApplyPoliciesLog(s: Store, ns: string, calls: seq<AdminCall>)
    ensures var st := ApplyPolicies(s, ns, calls);
            && st.after == s.(log := st.after.log)
            && s.log <= st.after.log && st.after.log[|s.log|..] <= calls
            && (st.result.Success? ==> st.after.log == s.log + calls)
            && (st.result.Failure? ==> |st.after.log| > |s.log|)
    decreases |calls|
  {
    if calls != [] {
      var st := PolicyStep(s, calls[0], ns);
      if st.result.Success? {
        ApplyPoliciesLog(st.after, ns, calls[1..]);
        var r := ApplyPolicies(st.after, ns, calls[1..]);
        assert r.after.log[|s.log|..] == [calls[0]] + r.after.log[|st.after.log|..];
        assert calls == [calls[0]] + calls[1..];
      }
    }
  }

  /** On an existing namespace, with no planned failure, every policy call succeeds. */
  lemma {:induction false} ApplyPoliciesWithoutFaults(s: Store, ns: string, calls: seq<AdminCall>)
    requires ns in s.namespaces
    requires FaultFree(s.faults, |s.log|, |s.log| + |calls|)
    ensures ApplyPolicies(s, ns, calls) == Step(Success(()), s.(log := s.log + calls))
    decreases |calls|
  {
    if calls != [] {
      assert |s.log| !in s.faults;
      var st := PolicyStep(s, calls[0], ns);
      ApplyPoliciesWithoutFaults(st.after, ns, calls[1..]);
      assert s.log + [calls[0]] + calls[1..] == s.log + calls;
    }
  }

  /** On an existing namespace, the first planned failure, at call k, is the error returned after k + 1 calls. */
  lemma {:induction false} ApplyPoliciesFirstFault(s: Store, ns: string, calls: seq<AdminCall>, k: nat)
    requires ns in s.namespaces
    requires k < |calls|
    requires FaultFree(s.faults, |s.log|, |s.log| + k) && |s.log| + k in s.faults
    ensures ApplyPolicies(s, ns, calls)
            == Step(Failure(s.faults[|s.log| + k]), s.(log := s.log + calls[..k + 1]))
    decreases k
  {
    var st := PolicyStep(s, calls[0], ns);
    if k > 0 {
      assert |s.log| !in s.faults;
      ApplyPoliciesFirstFault(st.after, ns, calls[1..], k - 1);
      assert s.log + [calls[0]] + calls[1..][..k] == s.log + calls[..k + 1];
    }
  }

  // ---------------------------------------------------------------------------
  // The whole provisioning
  // ---------------------------------------------------------------------------

  /** With a prefix of slashes only the split throws before any admin call. */
  lemma ProvisionWithoutTenant(s: Store, cfg: Config, suffix: string)
    requires Naming.OnlySlashes(cfg.namespacePrefix)
    ensures Provision(s, cfg, suffix) == Provisioned(TenantIndexOutOfBounds, s, None)
  {
    Naming.TenantIsBeforeFirstSlash(cfg.namespacePrefix);
  }

  /**
    Making sure of the tenant issues a non-empty prefix of the tenant calls
    (all of them on success) and changes nothing but the tenants and the log.
  */
  lemma EnsureTenantLog(s: Store, tenant: string, cluster: string)
    ensures var st := EnsureTenant(s, tenant, cluster);
            && st.after == s.(tenants := st.after.tenants, log := st.after.log)
            && s.log <= st.after.log
            && var calls := st.after.log[|s.log|..];
               1 <= |calls| && calls <= TenantCalls(s, tenant, cluster)
               && (st.result.Success? ==> calls == TenantCalls(s, tenant, cluster))
  {
    var listed := GetTenantsStep(s);
    assert listed.after.log[|s.log|..] == [GetTenants];
    if listed.result.Success? && tenant !in listed.result.value {
      var created := CreateTenantStep(listed.after, tenant, cluster);
      TwoCalls(s.log, GetTenants, CreateTenant(tenant, cluster), listed.after.log, created.after.log);
    }
  }

  lemma TwoCalls(base: seq<AdminCall>, a: AdminCall, b: AdminCall, mid: seq<AdminCall>, fin: seq<AdminCall>)
    requires mid == base + [a] && fin == mid + [b]
    ensures base <= fin && fin[|base|..] == [a, b]
  {
    assert fin == base + [a, b];
  }

  /**
    The namespace part issues a non-empty prefix of the namespace calls (all of
    them when it ends normally), starting with the creation, and leaves the
    tenants, the fault plan and the partitioned-topic metadata alone.
  */
  lemma ProvisionNamespaceLog(s: Store, ns: string, p: Persistence)
    ensures var r := ProvisionNamespace(s, ns, p);
            && r.namespace == Some(ns)
            && r.after.tenants == s.tenants && r.after.faults == s.faults
            && r.after.partitioned == s.partitioned
            && s.log <= r.after.log
            && var calls := r.after.log[|s.log|..];
               1 <= |calls| && calls <= NamespaceCalls(ns, p) && calls[0] == CreateNamespace(ns)
               && (r.outcome == Ready ==> calls == NamespaceCalls(ns, p))
  {
    var c := CreateNamespaceStep(s, ns);
    assert c.after.log[|s.log|..] == [CreateNamespace(ns)];
    if c.result.Success? {
      var policies := PolicyCalls(ns, p);
      ApplyPoliciesLog(c.after, ns, policies);
      var st := ApplyPolicies(c.after, ns, policies);
      assert st.after.log[|s.log|..] == [CreateNamespace(ns)] + st.after.log[|c.after.log|..];
    }
  }

  /** The calls of two stretches of the log, one after the other. */
  lemma LogJoin(base: seq<AdminCall>, head: seq<AdminCall>, rest: seq<AdminCall>, mid: seq<AdminCall>, fin: seq<AdminCall>)
    requires base <= mid && mid[|base|..] == head
    requires mid <= fin && fin[|mid|..] == rest
    ensures base <= fin && fin[|base|..] == head + rest
  {
    assert mid == base + head;
    assert fin == mid + rest;
    assert fin == base + (head + rest);
  }

  lemma NotInPrefix(e: seq<AdminCall>, head: seq<AdminCall>, c: AdminCall)
    requires e <= head && c !in head
    ensures c !in e
  {
    forall i | 0 <= i < |e| ensures e[i] != c {
      assert e[i] == head[i];
    }
  }

  lemma PrefixAfter(head: seq<AdminCall>, rest: seq<AdminCall>, tail: seq<AdminCall>)
    requires rest <= tail
    ensures head + rest <= head + tail
  {
    assert (head + tail)[..|head + rest|] == head + rest;
  }

  /**
    Provisioning issues a non-empty prefix of the plan, in order, and the whole
    plan when it ends normally; it never touches the partitioned-topic metadata.
  */
  lemma ProvisionFollowsPlan(s: Store, cfg: Config, suffix: string)
    requires Naming.Tenant(cfg.namespacePrefix).Some?
    ensures var r := Provision(s, cfg, suffix);
            && s.log <= r.after.log
            && r.after.faults == s.faults && r.after.partitioned == s.partitioned
            && var calls := r.after.log[|s.log|..];
               && 1 <= |calls| && calls <= Plan(s, cfg, suffix)
               && (r.outcome == Ready ==> calls == Plan(s, cfg, suffix))
  {
    var tenant := Naming.Tenant(cfg.namespacePrefix).value;
    var ns := Naming.NamespaceName(cfg.namespacePrefix, suffix);
    var head := TenantCalls(s, tenant, cfg.clusterName);
    var ensured := EnsureTenant(s, tenant, cfg.clusterName);
    EnsureTenantLog(s, tenant, cfg.clusterName);
    if ensured.result.Success? {
      ProvisionNamespaceLog(ensured.after, ns, cfg.persistence);
      var r := ProvisionNamespace(ensured.after, ns, cfg.persistence);
      var rest := r.after.log[|ensured.after.log|..];
      LogJoin(s.log, head, rest, ensured.after.log, r.after.log);
      PrefixAfter(head, rest, NamespaceCalls(ns, cfg.persistence));
    } else {
      var e := ensured.after.log[|s.log|..];
      assert e <= head + NamespaceCalls(ns, cfg.persistence);
    }
  }

  /** Provisioning reports a namespace exactly when it issued the namespace's creation. */
  lemma ProvisionReportsNamespace(s: Store, cfg: Config, suffix: string)
    requires Naming.Tenant(cfg.namespacePrefix).Some?
    ensures var r := Provision(s, cfg, suffix);
            && s.log <= r.after.log
            && (r.namespace.Some? <==>
                  CreateNamespace(Naming.NamespaceName(cfg.namespacePrefix, suffix)) in r.after.log[|s.log|..])
  {
    var tenant := Naming.Tenant(cfg.namespacePrefix).value;
    var ns := Naming.NamespaceName(cfg.namespacePrefix, suffix);
    var head := TenantCalls(s, tenant, cfg.clusterName);
    var ensured := EnsureTenant(s, tenant, cfg.clusterName);
    EnsureTenantLog(s, tenant, cfg.clusterName);
    NotInPrefix(ensured.after.log[|s.log|..], head, CreateNamespace(ns));
    if ensured.result.Success? {
      ProvisionNamespaceLog(ensured.after, ns, cfg.persistence);
      var r := ProvisionNamespace(ensured.after, ns, cfg.persistence);
      var rest := r.after.log[|ensured.after.log|..];
      LogJoin(s.log, head, rest, ensured.after.log, r.after.log);
      assert (head + rest)[|head|] == CreateNamespace(ns);
    }
  }

  /**
    When no call meets a planned failure and the namespace is new, provisioning
    ends normally: the tenant exists, the namespace exists and holds no topic.
  */
  lemma ProvisionWithoutFaults(s: Store, cfg: Config, suffix: string)
    requires Naming.Tenant(cfg.namespacePrefix).Some?
    requires FaultFree(s.faults, |s.log|, |s.log| + |Plan(s, cfg, suffix)|)
    requires Naming.NamespaceName(cfg.namespacePrefix, suffix) !in s.namespaces
    ensures var r := Provision(s, cfg, suffix);
            var ns := Naming.NamespaceName(cfg.namespacePrefix, suffix);
            && r.outcome == Ready
            && r.after.log == s.log + Plan(s, cfg, suffix)
            && r.after.tenants == s.tenants + {Naming.Tenant(cfg.namespacePrefix).value}
            && r.after.namespaces == s.namespaces[ns := map[]]
            && r.namespace == Some(ns)
  {
    var tenant := Naming.Tenant(cfg.namespacePrefix).value;
    var ns := Naming.NamespaceName(cfg.namespacePrefix, suffix);
    var head := TenantCalls(s, tenant, cfg.clusterName);
    EnsureTenantWithoutFaults(s, tenant, cfg.clusterName);
    var ensured := EnsureTenant(s, tenant, cfg.clusterName);
    ProvisionNamespaceWithoutFaults(ensured.after, ns, cfg.persistence);
    assert s.log + head + NamespaceCalls(ns, cfg.persistence) == s.log + Plan(s, cfg, suffix);
  }

  /** With no planned failure on its calls, the tenant exists afterwards and every tenant call was issued. */
  lemma EnsureTenantWithoutFaults(s: Store, tenant: string, cluster: string)
    requires FaultFree(s.faults, |s.log|, |s.log| + |TenantCalls(s, tenant, cluster)|)
    ensures EnsureTenant(s, tenant, cluster)
            == Step(Success(()), s.(tenants := s.tenants + {tenant}, log := s.log + TenantCalls(s, tenant, cluster)))
  {
    assert |s.log| !in s.faults;
    if tenant !in s.tenants { assert |s.log| + 1 !in s.faults; }
  }

  /** The first planned failure among the tenant calls, other than a creation Conflict, is the error returned. */
  lemma EnsureTenantFirstFault(s: Store, tenant: string, cluster: string, k: nat)
    requires k < |TenantCalls(s, tenant, cluster)|
    requires FaultFree(s.faults, |s.log|, |s.log| + k) && |s.log| + k in s.faults
    requires !(k == 1 && s.faults[|s.log| + k] == Conflict)
    ensures EnsureTenant(s, tenant, cluster)
            == Step(Failure(s.faults[|s.log| + k]), s.(log := s.log + TenantCalls(s, tenant, cluster)[..k + 1]))
  {
    if k == 1 { assert |s.log| !in s.faults; }
  }

  /** On a new namespace with no planned failure, the namespace is created and every policy applied. */
  lemma ProvisionNamespaceWithoutFaults(s: Store, ns: string, p: Persistence)
    requires ns !in s.namespaces
    requires FaultFree(s.faults, |s.log|, |s.log| + 4)
    ensures ProvisionNamespace(s, ns, p)
            == Provisioned(Ready, s.(namespaces := s.namespaces[ns := map[]], log := s.log + NamespaceCalls(ns, p)), Some(ns))
  {
    assert |s.log| !in s.faults;
    var c := CreateNamespaceStep(s, ns);
    ApplyPoliciesWithoutFaults(c.after, ns, PolicyCalls(ns, p));
  }

  /** On a new namespace, the first planned failure among the namespace calls is the setup error. */
  lemma ProvisionNamespaceFirstFault(s: Store, ns: string, p: Persistence, k: nat)
    requires ns !in s.namespaces
    requires k < 4
    requires FaultFree(s.faults, |s.log|, |s.log| + k) && |s.log| + k in s.faults
    ensures ProvisionNamespace(s, ns, p)
            == Provisioned(SetupError(s.faults[|s.log| + k]), s.(log := s.log + NamespaceCalls(ns, p)[..k + 1],
                 namespaces := if k == 0 then s.namespaces else s.namespaces[ns := map[]]), Some(ns))
  {
    if k > 0 {
      assert |s.log| !in s.faults;
      var c := CreateNamespaceStep(s, ns);
      ApplyPoliciesFirstFault(c.after, ns, PolicyCalls(ns, p), k - 1);
      assert s.log + [CreateNamespace(ns)] + PolicyCalls(ns, p)[..k] == s.log + NamespaceCalls(ns, p)[..k + 1];
    }
  }

  /**
    The first error ends the setup: if call `k` of the plan is the first to
    fail, and it is not the Conflict of the tenant creation, provisioning fails
    with that very error after exactly the first k + 1 calls.
  */
  lemma ProvisionStopsAtFirstError(s: Store, cfg: Config, suffix: string, k: nat)
    requires Naming.Tenant(cfg.namespacePrefix).Some?
    requires Naming.NamespaceName(cfg.namespacePrefix, suffix) !in s.namespaces
    requires k < |Plan(s, cfg, suffix)|
    requires FaultFree(s.faults, |s.log|, |s.log| + k) && |s.log| + k in s.faults
    requires !(Plan(s, cfg, suffix)[k].CreateTenant? && s.faults[|s.log| + k] == Conflict)
    ensures var r := Provision(s, cfg, suffix);
            && r.outcome == SetupError(s.faults[|s.log| + k])
            && r.after.log == s.log + Plan(s, cfg, suffix)[..k + 1]
  {
    if k < |TenantCalls(s, Naming.Tenant(cfg.namespacePrefix).value, cfg.clusterName)| {
      ProvisionStopsInTenant(s, cfg, suffix, k);
    } else {
      ProvisionStopsInNamespace(s, cfg, suffix, k);
    }
  }

  lemma ProvisionStopsInTenant(s: Store, cfg: Config, suffix: string, k: nat)
    requires Naming.Tenant(cfg.namespacePrefix).Some?
    requires Naming.NamespaceName(cfg.namespacePrefix, suffix) !in s.namespaces
    requires k < |Plan(s, cfg, suffix)|
    requires FaultFree(s.faults, |s.log|, |s.log| + k) && |s.log| + k in s.faults
    requires !(Plan(s, cfg, suffix)[k].CreateTenant? && s.faults[|s.log| + k] == Conflict)
    requires k < |TenantCalls(s, Naming.Tenant(cfg.namespacePrefix).value, cfg.clusterName)|
    ensures var r := Provision(s, cfg, suffix);
            && r.outcome == SetupError(s.faults[|s.log| + k])
            && r.after.log == s.log + Plan(s, cfg, suffix)[..k + 1]
  {
    var tenant := Naming.Tenant(cfg.namespacePrefix).value;
    var head := TenantCalls(s, tenant, cfg.clusterName);
    var plan := Plan(s, cfg, suffix);
    assert plan[k] == head[k];
    EnsureTenantFirstFault(s, tenant, cfg.clusterName, k);
    assert head[..k + 1] == plan[..k + 1];
  }

  lemma ProvisionStopsInNamespace(s: Store, cfg: Config, suffix: string, k: nat)
    requires Naming.Tenant(cfg.namespacePrefix).Some?
    requires Naming.NamespaceName(cfg.namespacePrefix, suffix) !in s.namespaces
    requires k < |Plan(s, cfg, suffix)|
    requires FaultFree(s.faults, |s.log|, |s.log| + k) && |s.log| + k in s.faults
    requires !(Plan(s, cfg, suffix)[k].CreateTenant? && s.faults[|s.log| + k] == Conflict)
    requires k >= |TenantCalls(s, Naming.Tenant(cfg.namespacePrefix).value, cfg.clusterName)|
    ensures var r := Provision(s, cfg, suffix);
            && r.outcome == SetupError(s.faults[|s.log| + k])
            && r.after.log == s.log + Plan(s, cfg, suffix)[..k + 1]
  {
    var tenant := Naming.Tenant(cfg.namespacePrefix).value;
    var ns := Naming.NamespaceName(cfg.namespacePrefix, suffix);
    var head := TenantCalls(s, tenant, cfg.clusterName);
    var plan := Plan(s, cfg, suffix);
    var ensured := EnsureTenant(s, tenant, cfg.clusterName);
    assert ensured == Step(Success(()), s.(tenants := s.tenants + {tenant}, log := s.log + head)) by {
      EnsureTenantWithoutFaults(s, tenant, cfg.clusterName);
    }
    assert Provision(s, cfg, suffix) == ProvisionNamespace(ensured.after, ns, cfg.persistence);
    var t := ensured.after;
    var j := k - |head|;
    var calls := NamespaceCalls(ns, cfg.persistence);
    assert FaultFree(t.faults, |t.log|, |t.log| + j);
    assert |t.log| + j == |s.log| + k;
    ProvisionNamespaceFirstFault(t, ns, cfg.persistence, j);
    var r := ProvisionNamespace(t, ns, cfg.persistence);
    assert t.faults == s.faults;
    assert r.outcome == SetupError(s.faults[|s.log| + k]);
    assert r.after.log == t.log + calls[..j + 1];
    PlanSlice(s.log, head, calls, k);
  }

  /** A prefix of the plan that reaches into the namespace calls, appended to a log. */
  lemma PlanSlice(log: seq<AdminCall>, head: seq<AdminCall>, tail: seq<AdminCall>, k: nat)
    requires |head| <= k < |head| + |tail|
    ensures (log + head) + tail[..k - |head| + 1] == log + (head + tail)[..k + 1]
  {
    assert (head + tail)[..k + 1] == head + tail[..k - |head| + 1];
  }

  /**
    A Conflict from the tenant creation (another worker created it first) is
    swallowed: provisioning carries on with the namespace and ends normally,
    with the tenant the other worker created in place.
  */
  lemma ProvisionToleratesTenantConflict(s: Store, cfg: Config, suffix: string)
    requires Naming.Tenant(cfg.namespacePrefix).Some?
    requires Naming.Tenant(cfg.namespacePrefix).value !in s.tenants
    requires Naming.NamespaceName(cfg.namespacePrefix, suffix) !in s.namespaces
    requires |s.log| !in s.faults
    requires |s.log| + 1 in s.faults && s.faults[|s.log| + 1] == Conflict
    requires FaultFree(s.faults, |s.log| + 2, |s.log| + 6)
    ensures var r := Provision(s, cfg, suffix);
            var ns := Naming.NamespaceName(cfg.namespacePrefix, suffix);
            && r.outcome == Ready
            && r.after.log == s.log + Plan(s, cfg, suffix)
            && r.after.tenants == s.tenants + {Naming.Tenant(cfg.namespacePrefix).value}
            && r.after.namespaces == s.namespaces[ns := map[]]
  {
    var tenant := Naming.Tenant(cfg.namespacePrefix).value;
    var ns := Naming.NamespaceName(cfg.namespacePrefix, suffix);
    var head := TenantCalls(s, tenant, cfg.clusterName);
    var ensured := EnsureTenant(s, tenant, cfg.clusterName);
    assert ensured == Step(Success(()), s.(tenants := s.tenants + {tenant}, log := s.log + head));
    ProvisionNamespaceWithoutFaults(ensured.after, ns, cfg.persistence);
    assert s.log + head + NamespaceCalls(ns, cfg.persistence) == s.log + Plan(s, cfg, suffix);
  }

  /**
    Only the tenant's Conflict is tolerated: a namespace that exists already
    makes the setup fail with Conflict, before any policy is applied.
  */
  lemma ProvisionRejectsExistingNamespace(s: Store, cfg: Config, suffix: string)
    requires Naming.Tenant(cfg.namespacePrefix).Some?
    requires Naming.NamespaceName(cfg.namespacePrefix, suffix) in s.namespaces
    requires FaultFree(s.faults, |s.log|, |s.log| + |Plan(s, cfg, suffix)|)
    ensures var r := Provision(s, cfg, suffix);
            && r.outcome == SetupError(Conflict)
            && r.after.log == s.log + Plan(s, cfg, suffix)[..|Plan(s, cfg, suffix)| - 3]
            && r.after.namespaces == s.namespaces
  {
    var tenant := Naming.Tenant(cfg.namespacePrefix).value;
    var ns := Naming.NamespaceName(cfg.namespacePrefix, suffix);
    var head := TenantCalls(s, tenant, cfg.clusterName);
    EnsureTenantWithoutFaults(s, tenant, cfg.clusterName);
    assert |s.log| + |head| !in s.faults;
    assert Plan(s, cfg, suffix)[..|Plan(s, cfg, suffix)| - 3] == head + [CreateNamespace(ns)];
  }

  /** Every namespace of the service lies under a tenant that exists. */
  ghost predicate TenantsCover(s: Store) {
    forall ns :: ns in s.namespaces ==> Naming.TenantOfNamespace(ns) in s.tenants
  }

  /** Making sure of the tenant only adds tenants, and the tenant exists when it succeeds. */
  lemma EnsureTenantAdds(s: Store, tenant: string, cluster: string)
    ensures var st := EnsureTenant(s, tenant, cluster);
            && st.after.namespaces == s.namespaces && s.tenants <= st.after.tenants
            && (st.result.Success? ==> tenant in st.after.tenants)
  {
  }

  /** The namespace part adds at most the namespace it creates, and no tenant. */
  lemma ProvisionNamespaceAdds(s: Store, ns: string, p: Persistence)
    ensures var r := ProvisionNamespace(s, ns, p);
            && r.after.tenants == s.tenants
            && r.after.namespaces.Keys <= s.namespaces.Keys + {ns}
  {
    var c := CreateNamespaceStep(s, ns);
    if c.result.Success? {
      ApplyPoliciesLog(c.after, ns, PolicyCalls(ns, p));
    }
  }

  /**
    Provisioning never leaves a namespace without its tenant: the namespace is
    created only once its tenant exists, whether this worker or another one
    created that tenant. This holds for a prefix holding a slash, the form the
    admin service accepts for a namespace name.
  */
  lemma ProvisionKeepsTenantsCover(s: Store, cfg: Config, suffix: string)
    requires '/' in cfg.namespacePrefix && !Naming.OnlySlashes(cfg.namespacePrefix)
    requires TenantsCover(s)
    ensures TenantsCover(Provision(s, cfg, suffix).after)
  {
    Naming.NamespaceBelongsToTenant(cfg.namespacePrefix, suffix);
    var tenant := Naming.Tenant(cfg.namespacePrefix).value;
    var ns := Naming.NamespaceName(cfg.namespacePrefix, suffix);
    var ensured := EnsureTenant(s, tenant, cfg.clusterName);
    EnsureTenantAdds(s, tenant, cfg.clusterName);
    if ensured.result.Success? {
      ProvisionNamespaceAdds(ensured.after, ns, cfg.persistence);
    }
  }

  // ---------------------------------------------------------------------------
  // Provisioning on the admin client, as `initialize` runs it
  // ---------------------------------------------------------------------------

  /** List the tenants and create the tenant if it is missing; a Conflict from the creation is ignored. */
  method EnsureTenantOn(admin: PulsarAdmin, tenant: string, cluster: string) returns (r: Result<(), AdminError>)
    modifies admin
    ensures var st := EnsureTenant(old(admin.State()), tenant, cluster);
            admin.State() == st.after && r == st.result
    ensures admin.closed == old(admin.closed)
  {
    var tenants := admin.GetTenants();
    if tenants.Failure? {
      return Failure(tenants.error);
    }
    if tenant in tenants.value {
      return Success(());
    }
    r := admin.CreateTenant(tenant, cluster);
    if r == Failure(Conflict) {
      r := Success(());
    }
  }

  /** Set the persistence policy, the backlog quota and the deduplication status, stopping at the first error. */
  method ApplyPoliciesOn(admin: PulsarAdmin, ns: string, p: Persistence) returns (r: Result<(), AdminError>)
    modifies admin
    ensures var st := ApplyPolicies(old(admin.State()), ns, PolicyCalls(ns, p));
            admin.State() == st.after && r == st.result
    ensures admin.closed == old(admin.closed)
  {
    ghost var calls := PolicyCalls(ns, p);
    ghost var s0 := admin.State();
    r := admin.SetPersistence(ns, p.ensembleSize, p.writeQuorum, p.ackQuorum);
    if r.Failure? {
      return;
    }
    ghost var s1 := admin.State();
    assert ApplyPolicies(s0, ns, calls) == ApplyPolicies(s1, ns, calls[1..]);
    r := admin.SetBacklogQuota(ns);
    if r.Failure? {
      return;
    }
    ghost var s2 := admin.State();
    assert ApplyPolicies(s1, ns, calls[1..]) == ApplyPolicies(s2, ns, calls[1..][1..]);
    r := admin.SetDeduplicationStatus(ns, p.deduplicationEnabled);
    assert calls[1..][1..][1..] == [];
    assert admin.State() == ApplyPolicies(s2, ns, calls[1..][1..]).after;
    assert r == ApplyPolicies(s2, ns, calls[1..][1..]).result;
  }

  /**
    The provisioning part of `initialize`: the tenant, then the namespace and
    its policies. `namespace` is the value written to the driver's field, if
    it was written.
  */
  method ProvisionOn(admin: PulsarAdmin, cfg: Config, suffix: string)
    returns (outcome: InitOutcome, namespace: Option<string>)
    modifies admin
    ensures var r := Provision(old(admin.State()), cfg, suffix);
            admin.State() == r.after && outcome == r.outcome && namespace == r.namespace
    ensures admin.closed == old(admin.closed)
  {
    var tenant := Naming.Tenant(cfg.namespacePrefix);
    if tenant.None? {
      return TenantIndexOutOfBounds, None;
    }
    var ensured := EnsureTenantOn(admin, tenant.value, cfg.clusterName);
    if ensured.Failure? {
      return SetupError(ensured.error), None;
    }
    var ns := Naming.NamespaceName(cfg.namespacePrefix, suffix);
    namespace := Some(ns);
    var r := admin.CreateNamespace(ns);
    if r.Success? {
      r := ApplyPoliciesOn(admin, ns, cfg.persistence);
    }
    outcome := if r.Failure? then SetupError(r.error) else Ready;
  }
}
