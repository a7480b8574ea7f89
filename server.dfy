/** The replica (alertServer.go): one scan cycle refreshes the replica count, rebuilds
    the ring, keeps the instances this replica owns and hands each managed one to the
    rule set for its service label. */
module Server {
  import opened Common
  import opened Decimal
  import opened Platform
  import opened Ring
  import opened Rules

  /** What one cycle works with: the collaborators as they answer during this cycle,
      the ring's Locate, the environment name and the notification sender. */
  datatype Cycle = Cycle(b: Backends, locate: Locator, environment: string, sender: Sender)

  /** One instance handed to its rule set: the service label it resolved to and the
      Sends Process made for it. */
  datatype Visit = Visit(instance: ServiceInstance, serviceLabel: string, calls: seq<SendCall>)

  /** The label the cycle resolves for a plan: the service lookup's error is only
      logged, so the label returned beside it is used. */
  function ServiceLabel(cy: Cycle, plan: ServicePlan): string
  {
    cy.b.cf.serviceByGuid(plan.serviceGuid).value.serviceLabel
  }

  /** An instance the rules apply to, whoever owns it: it has a service plan (it is not
      user-provided), the plan lookup succeeds and the rule catalog has its label. */
  predicate Managed(cy: Cycle, alertRules: map<string, seq<AlertRule>>, instance: ServiceInstance)
  {
    var planGuid := RelatedGuid(instance, "service_plan");
    && planGuid != ""
    && cy.b.cf.planByGuid(planGuid).Success?
    && ServiceLabel(cy, cy.b.cf.planByGuid(planGuid).value) in alertRules
  }

  /** The body of the instance loop for one instance: None when it is skipped. An
      instance is visited exactly when this replica owns it and it is managed, and the
      visit runs the rule set of its label. */
  function ScanStep(cy: Cycle, node: string, nodes: int, alertRules: map<string, seq<AlertRule>>,
                    instance: ServiceInstance): (r: Option<Visit>)
    ensures r.Some? <==> Owns(cy.locate, nodes, node, instance.guid) && Managed(cy, alertRules, instance)
    ensures r.Some? ==>
              && r.value.instance == instance
              && r.value.serviceLabel == ServiceLabel(cy, cy.b.cf.planByGuid(RelatedGuid(instance, "service_plan")).value)
              && r.value.calls == RuleCalls(cy.b, cy.environment, cy.sender, instance,
                                            alertRules[r.value.serviceLabel], |alertRules[r.value.serviceLabel]|)
  {
    if Located(cy.locate, nodes, instance.guid) != node then None
    else
      var planGuid := RelatedGuid(instance, "service_plan");
      if planGuid == "" then None
      else
        match cy.b.cf.planByGuid(planGuid)
        case Failure(_) => None
        case Success(plan) =>
          var serviceLabel := ServiceLabel(cy, plan);
          if serviceLabel in alertRules then
            Some(Visit(instance, serviceLabel, RuleCalls(cy.b, cy.environment, cy.sender, instance,
                                                  alertRules[serviceLabel], |alertRules[serviceLabel]|)))
          else None
  }

  /** The visits of the instance loop over the first `n` instances. */
  function ScanVisits(cy: Cycle, node: string, nodes: int, alertRules: map<string, seq<AlertRule>>,
                      instances: seq<ServiceInstance>, n: nat): (visits: seq<Visit>)
    requires n <= |instances|
    ensures |visits| <= n
    decreases n
  {
    if n == 0 then []
    else
      ScanVisits(cy, node, nodes, alertRules, instances, n - 1)
      + match ScanStep(cy, node, nodes, alertRules, instances[n - 1])
        case Some(v) => [v]
        case None => []
  }

  /** Every visit is of a listed instance that this replica owns and that is managed. */
  lemma {:induction false} VisitsAreOwnedAndManaged(cy: Cycle, node: string, nodes: int,
                                                    alertRules: map<string, seq<AlertRule>>,
                                                    instances: seq<ServiceInstance>, n: nat)
    requires n <= |instances|
    ensures forall v :: v in ScanVisits(cy, node, nodes, alertRules, instances, n) ==>
              && v.instance in instances[..n]
              && Owns(cy.locate, nodes, node, v.instance.guid)
              && Managed(cy, alertRules, v.instance)
              && ScanStep(cy, node, nodes, alertRules, v.instance) == Some(v)
    decreases n
  {
    if n > 0 {
      VisitsAreOwnedAndManaged(cy, node, nodes, alertRules, instances, n - 1);
      assert instances[..n - 1] <= instances[..n];
    }
  }

  /** Every listed instance this replica owns and that is managed is visited. */
  lemma {:induction false} OwnedManagedAreVisited(cy: Cycle, node: string, nodes: int,
                                                  alertRules: map<string, seq<AlertRule>>,
                                                  instances: seq<ServiceInstance>, n: nat)
    requires n <= |instances|
    ensures forall k :: 0 <= k < n && Owns(cy.locate, nodes, node, instances[k].guid)
                        && Managed(cy, alertRules, instances[k]) ==>
              ScanStep(cy, node, nodes, alertRules, instances[k]).Some?
              && ScanStep(cy, node, nodes, alertRules, instances[k]).value
                 in ScanVisits(cy, node, nodes, alertRules, instances, n)
    decreases n
  {
    if n > 0 {
      var before := ScanVisits(cy, node, nodes, alertRules, instances, n - 1);
      var last := ScanStep(cy, node, nodes, alertRules, instances[n - 1]);
      var after := ScanVisits(cy, node, nodes, alertRules, instances, n);
      assert after == before + (if last.Some? then [last.value] else []);
      OwnedManagedAreVisited(cy, node, nodes, alertRules, instances, n - 1);
      forall k | 0 <= k < n && Owns(cy.locate, nodes, node, instances[k].guid)
                 && Managed(cy, alertRules, instances[k])
        ensures ScanStep(cy, node, nodes, alertRules, instances[k]).Some?
                && ScanStep(cy, node, nodes, alertRules, instances[k]).value in after
      {
        if k < n - 1 {
          assert ScanStep(cy, node, nodes, alertRules, instances[k]).value in before;
        } else {
          assert last.value == after[|after| - 1];
        }
      }
    }
  }

  /** No two replicas of one ring configuration handle the same instance, so an
      instance is never alerted on twice in one cycle. */
  lemma ReplicasShareNoInstance(cy: Cycle, nodes: int, alertRules: map<string, seq<AlertRule>>,
                                instances: seq<ServiceInstance>, i: int, j: int)
    requires i != j
    ensures forall v1, v2 ::
              v1 in ScanVisits(cy, Itoa(i), nodes, alertRules, instances, |instances|)
              && v2 in ScanVisits(cy, Itoa(j), nodes, alertRules, instances, |instances|) ==>
              v1.instance.guid != v2.instance.guid
  {
    VisitsAreOwnedAndManaged(cy, Itoa(i), nodes, alertRules, instances, |instances|);
    VisitsAreOwnedAndManaged(cy, Itoa(j), nodes, alertRules, instances, |instances|);
    forall v1, v2 | v1 in ScanVisits(cy, Itoa(i), nodes, alertRules, instances, |instances|)
                    && v2 in ScanVisits(cy, Itoa(j), nodes, alertRules, instances, |instances|)
      ensures v1.instance.guid != v2.instance.guid
    {
      if v1.instance.guid == v2.instance.guid {
        OwnerIsUnique(cy.locate, nodes, v1.instance.guid, i, j);
      }
    }
  }

  /** Every managed instance is handled by one of replicas 0 .. nodes-1. */
  lemma ManagedInstanceHasReplica(cy: Cycle, nodes: int, alertRules: map<string, seq<AlertRule>>,
                                  instances: seq<ServiceInstance>, k: int)
    requires LocatesOntoMembers(cy.locate) && nodes > 0
    requires 0 <= k < |instances| && Managed(cy, alertRules, instances[k])
    ensures exists i :: 0 <= i < nodes
              && ScanStep(cy, Itoa(i), nodes, alertRules, instances[k]).Some?
              && ScanStep(cy, Itoa(i), nodes, alertRules, instances[k]).value
                 in ScanVisits(cy, Itoa(i), nodes, alertRules, instances, |instances|)
  {
    EveryGuidHasOwner(cy.locate, nodes, instances[k].guid);
    var i :| 0 <= i < nodes && Owns(cy.locate, nodes, Itoa(i), instances[k].guid);
    OwnedManagedAreVisited(cy, Itoa(i), nodes, alertRules, instances, |instances|);
  }

  /** A replica whose index is outside 0 .. nodes-1 (more replicas than the count it
      read, or a count of zero) handles nothing. */
  lemma IdleOutsideRing(cy: Cycle, nodes: int, alertRules: map<string, seq<AlertRule>>,
                        instances: seq<ServiceInstance>, index: int)
    requires LocatesOntoMembers(cy.locate) && !(0 <= index < nodes)
    ensures ScanVisits(cy, Itoa(index), nodes, alertRules, instances, |instances|) == []
  {
    VisitsAreOwnedAndManaged(cy, Itoa(index), nodes, alertRules, instances, |instances|);
    var visits := ScanVisits(cy, Itoa(index), nodes, alertRules, instances, |instances|);
    if visits != [] {
      NoOwnerOutsideRing(cy.locate, nodes, index, visits[0].instance.guid);
    }
  }

  /** One replica of the service. `node` is its own name, the decimal form of its
      instance index; `nodes` is the replica count read in the last cycle. */
  class AlertServer {
    const appGuid: string
    const node: string
    var nodes: int
    const alertRules: map<string, seq<AlertRule>>

    /** The server as the process sets it up: no cycle has run, so the count is 0. */
    constructor (appGuid: string, index: int, alertRules: map<string, seq<AlertRule>>)
      ensures this.appGuid == appGuid && node == Itoa(index) && nodes == 0
      ensures this.alertRules == alertRules
    {
      this.appGuid := appGuid;
      this.node := Itoa(index);
      this.nodes := 0;
      this.alertRules := alertRules;
    }

    /** alertServer.scanServices: store the replica count the app lookup returns (its
        error is discarded), build the ring, and run the instance loop over the listed
        instances (the listing's error is discarded too). */
    method ScanServices(cy: Cycle) returns (visits: seq<Visit>)
      modifies this`nodes
      ensures nodes == cy.b.cf.appByGuid(appGuid).value.instances
      ensures visits == ScanVisits(cy, node, nodes, alertRules, cy.b.cf.serviceInstances.value,
                                   |cy.b.cf.serviceInstances.value|)
      ensures forall v :: v in visits ==>
                && v.instance in cy.b.cf.serviceInstances.value
                && Owns(cy.locate, nodes, node, v.instance.guid)
                && Managed(cy, alertRules, v.instance)
    {
      var app := cy.b.cf.appByGuid(appGuid);
      nodes := app.value.instances;
      var ring := BuildRing(nodes);
      var serviceInstances := cy.b.cf.serviceInstances.value;
      visits := [];
      for k := 0 to |serviceInstances|
        invariant nodes == app.value.instances && ring == RingFor(nodes)
        invariant visits == ScanVisits(cy, node, nodes, alertRules, serviceInstances, k)
      {
        var instance := serviceInstances[k];
        var n := cy.locate(ring, instance.guid).value;
        if n == node {
          var planGuid := RelatedGuid(instance, "service_plan");
          if planGuid == "" {
            continue;  // a user-provided instance
          }
          var servicePlan := cy.b.cf.planByGuid(planGuid);
          if servicePlan.Failure? {
            continue;
          }
          var service := cy.b.cf.serviceByGuid(servicePlan.value.serviceGuid);
          var serviceLabel := service.value.serviceLabel;
          if serviceLabel in alertRules {
            var calls := Process(alertRules[serviceLabel], cy.b, cy.environment, cy.sender, instance);
            visits := visits + [Visit(instance, serviceLabel, calls)];
          }
        }
      }
      VisitsAreOwnedAndManaged(cy, node, nodes, alertRules, serviceInstances, |serviceInstances|);
      assert serviceInstances[..|serviceInstances|] == serviceInstances;
    }
  }
}
