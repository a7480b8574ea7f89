/** The collaborators the pipeline calls but does not implement: the Cloud Foundry
    Cloud Controller client, the Prometheus query client and Go's text/template engine.
    Each is a function value that may fail; within one scan cycle it answers the same
    question the same way. */
module Platform {
  import opened Common

  /** The fields of the Cloud Controller's records that the pipeline reads. */
  datatype App = App(guid: string, instances: int)

  /** A V3 service instance; `relationships` maps a relationship name ("space",
      "service_plan") to the GUID it points at. */
  datatype ServiceInstance = ServiceInstance(guid: string, name: string, relationships: map<string, string>)

  datatype ServicePlan = ServicePlan(guid: string, serviceGuid: string)

  datatype Service = Service(guid: string, serviceLabel: string)

  datatype Space = Space(guid: string, name: string)

  datatype Org = Org(guid: string, name: string)

  /** `instance.Relationships[name].Data.GUID`: Go's map lookup yields the zero value,
      the empty GUID, for a relationship the instance does not have. */
  function RelatedGuid(instance: ServiceInstance, name: string): (guid: string)
    ensures name !in instance.relationships ==> guid == ""
    ensures name in instance.relationships ==> guid == instance.relationships[name]
  {
    if name in instance.relationships then instance.relationships[name] else ""
  }

  /** The Cloud Controller as seen during one scan cycle. */
  datatype CloudController = CloudController(
    appByGuid: string -> Returned<App>,                       // GetAppByGuid
    serviceInstances: Returned<seq<ServiceInstance>>,         // ListV3ServiceInstances
    planByGuid: string -> Result<ServicePlan, Fault>,         // GetServicePlanByGUID
    serviceByGuid: string -> Returned<Service>,               // GetServiceByGuid
    spaceByGuid: string -> Result<Space, Fault>,              // GetSpaceByGuid
    orgOfSpace: Space -> Result<Org, Fault>)                  // space.Org()

  /** One point of a Prometheus vector: its label set, value and timestamp. */
  datatype Sample = Sample(metric: map<string, string>, value: real, timestamp: int)

  /** The shapes a Prometheus query result can take (model.Value). */
  datatype QueryValue =
    | ScalarValue(value: real, timestamp: int)
    | VectorValue(samples: seq<Sample>)
    | MatrixValue(series: seq<seq<Sample>>)
    | StringValue(text: string, timestamp: int)

  /** The Prometheus client's Query. */
  type Query = string -> Result<QueryValue, Fault>

  /** Go's text/template: `execute` parses and runs a template text against the named
      fields of a data record; `formatMetric` is ParseFloat(..., 32) followed by "%.2f". */
  datatype Templates = Templates(
    execute: (string, map<string, string>) -> Result<string, Fault>,
    formatMetric: real -> string)
}
