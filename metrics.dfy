/** alertServer.GetMetric: render a rule's query template for one instance, run it
    against Prometheus and insist on a vector result. */
module Metrics {
  import opened Common
  import opened Platform

  /** The record the query template is executed against: the one field InstanceId. */
  function QueryData(instanceId: string): map<string, string>
  {
    map["InstanceId" := instanceId]
  }

  /** The three-step chain: render, query, vector check. Each step's failure is the
      result, and no later step runs. */
  function GetMetric(query: Query, templates: Templates, queryTemplate: string, instanceId: string)
    : (r: Result<seq<Sample>, Error>)
    ensures templates.execute(queryTemplate, QueryData(instanceId)).Failure? ==>
              r == Failure(RenderQueryFailed(templates.execute(queryTemplate, QueryData(instanceId)).error))
    ensures templates.execute(queryTemplate, QueryData(instanceId)).Success? ==>
              var rendered := templates.execute(queryTemplate, QueryData(instanceId)).value;
              && (query(rendered).Failure? ==> r == Failure(QueryFailed(query(rendered).error)))
              && (query(rendered).Success? && !query(rendered).value.VectorValue? ==> r == Failure(NotAVector))
              && (query(rendered).Success? && query(rendered).value.VectorValue? ==>
                    r == Success(query(rendered).value.samples))
  {
    match templates.execute(queryTemplate, QueryData(instanceId))
    case Failure(f) => Failure(RenderQueryFailed(f))
    case Success(rendered) =>
      match query(rendered)
      case Failure(f) => Failure(QueryFailed(f))
      case Success(VectorValue(samples)) => Success(samples)
      case Success(_) => Failure(NotAVector)
  }

  /** GetMetric yields samples exactly when the rendered query returned a vector of
      them, and then it yields that vector unchanged. */
  lemma GetMetricSucceedsIff(query: Query, templates: Templates, queryTemplate: string, instanceId: string,
                             samples: seq<Sample>)
    ensures GetMetric(query, templates, queryTemplate, instanceId) == Success(samples) <==>
      (exists rendered :: templates.execute(queryTemplate, QueryData(instanceId)) == Success(rendered)
                          && query(rendered) == Success(VectorValue(samples)))
  {
  }

  /** The only query GetMetric issues is the rendered template: two Prometheus clients
      that answer it alike give the same result. When rendering fails the condition is
      empty, so no query is issued at all. */
  lemma GetMetricQueriesOnlyRendered(q1: Query, q2: Query, templates: Templates, queryTemplate: string,
                                     instanceId: string)
    requires templates.execute(queryTemplate, QueryData(instanceId)).Success? ==>
               q1(templates.execute(queryTemplate, QueryData(instanceId)).value)
               == q2(templates.execute(queryTemplate, QueryData(instanceId)).value)
    ensures GetMetric(q1, templates, queryTemplate, instanceId) == GetMetric(q2, templates, queryTemplate, instanceId)
  {
  }
}
