/** Alert rules (alertRule.go): the threshold test, the notification a breach produces
    and alertRuleSet.Process, which runs every rule of a set against one instance. */
module Rules {
  import opened Common
  import opened Decimal
  import opened Platform
  import opened Metrics
  import opened Notification

  /** One rule of the rule file; `treshold` and `notifyInterval` are kept as text. */
  datatype AlertRule = AlertRule(
    name: string,
    promq: string,
    treshold: string,
    notifyInterval: string,
    above: bool,
    subject: string,
    message: string)

  /** Go's `int(f)` for a float64 in range: truncation toward zero. */
  function Trunc(x: real): (t: int)
    ensures 0.0 <= x ==> t as real <= x < t as real + 1.0
    ensures x < 0.0 ==> t as real - 1.0 < x <= t as real
  {
    if x >= 0.0 then x.Floor else -((-x).Floor)
  }

  /** alertRule.TresholdExceeded: parse the threshold, truncate the sample, compare
      strictly in the rule's direction. */
  function TresholdExceeded(rule: AlertRule, sample: Sample): (r: Result<bool, Error>)
    ensures r.Failure? <==> Atoi(rule.treshold).Failure?
    ensures r.Failure? ==> r.error == NumError(rule.treshold)
    ensures r == Success(true) ==> Trunc(sample.value) != Atoi(rule.treshold).value
  {
    match Atoi(rule.treshold)
    case Failure(e) => Failure(e)
    case Success(treshold) =>
      if rule.above then Success(Trunc(sample.value) > treshold)
      else Success(Trunc(sample.value) < treshold)
  }

  /** A threshold that is not a decimal int (or does not fit in 64 bits) is an error,
      never a breach. */
  lemma InvalidTresholdNeverBreaches(rule: AlertRule, sample: Sample)
    requires !WellFormed(rule.treshold) || !InInt64(SignedValue(rule.treshold))
    ensures TresholdExceeded(rule, sample) == Failure(NumError(rule.treshold))
  {
    AtoiAccepts(rule.treshold);
  }

  /** With `above`, a threshold k is breached exactly by values of at least k+1 (for
      k >= 0) or above k (for k < 0): the fraction is dropped before comparing. */
  lemma AboveBreachIff(rule: AlertRule, sample: Sample, k: int)
    requires rule.above && Atoi(rule.treshold) == Success(k)
    ensures TresholdExceeded(rule, sample) ==
      Success(if k >= 0 then sample.value >= (k + 1) as real else sample.value > k as real)
  {
  }

  /** With `above` unset, a threshold k is breached exactly by values below k (for
      k > 0) or of at most k-1 (for k <= 0). */
  lemma BelowBreachIff(rule: AlertRule, sample: Sample, k: int)
    requires !rule.above && Atoi(rule.treshold) == Success(k)
    ensures TresholdExceeded(rule, sample) ==
      Success(if k > 0 then sample.value < k as real else sample.value <= (k - 1) as real)
  {
  }

  /** A truncated value equal to the threshold breaches in neither direction. */
  lemma EqualityNeverBreaches(rule: AlertRule, sample: Sample)
    requires Atoi(rule.treshold).Success? && Trunc(sample.value) == Atoi(rule.treshold).value
    ensures TresholdExceeded(rule, sample) == Success(false)
  {
  }

  /** The worked examples: 81.7 over 80 breaches, 80.0 and 80.9 over 80 do not (the
      fraction is dropped), 9.4 under 10 breaches, -0.5 under 0 does not. */
  lemma TresholdExamples(s: Sample)
    ensures TresholdExceeded(AlertRule("cpu", "", "80", "", true, "", ""), s.(value := 81.7)) == Success(true)
    ensures TresholdExceeded(AlertRule("cpu", "", "80", "", true, "", ""), s.(value := 80.0)) == Success(false)
    ensures TresholdExceeded(AlertRule("cpu", "", "80", "", true, "", ""), s.(value := 80.9)) == Success(false)
    ensures TresholdExceeded(AlertRule("disk", "", "10", "", false, "", ""), s.(value := 9.4)) == Success(true)
    ensures TresholdExceeded(AlertRule("disk", "", "0", "", false, "", ""), s.(value := -0.5)) == Success(false)
  {
    assert Itoa(80) == "80";
    AtoiItoa(80);
    assert Itoa(10) == "10";
    AtoiItoa(10);
    assert Itoa(0) == "0";
    AtoiItoa(0);
  }

  /** The collaborators a replica holds: its Cloud Controller view, Prometheus and the
      template engine. */
  datatype Backends = Backends(cf: CloudController, query: Query, templates: Templates)

  /** The notification service client and its transport. */
  datatype Sender = Sender(client: NotificationServiceClient, http: Http)

  /** `fmt.Sprintf("%s-%s\n", guid, name)`: the identity the notification service
      deduplicates on. */
  function MessageId(guid: string, name: string): (id: string)
    ensures |id| == |guid| + |name| + 2
    ensures id[..|guid|] == guid && id[|guid|] == '-' && id[|guid| + 1..|id| - 1] == name
    ensures id[|id| - 1] == '\n'
  {
    guid + "-" + name + "\n"
  }

  /** For instance GUIDs of one length (Cloud Foundry GUIDs all have 36 characters) the
      identity determines both the instance and the rule. */
  lemma MessageIdInjective(g1: string, n1: string, g2: string, n2: string)
    requires |g1| == |g2| && MessageId(g1, n1) == MessageId(g2, n2)
    ensures g1 == g2 && n1 == n2
  {
    var id := MessageId(g1, n1);
    assert g1 == id[..|g1|] == g2;
    assert n1 == id[|g1| + 1..|id| - 1] == n2;
  }

  /** Two rules of different names never share an identity on the same instance. */
  lemma MessageIdDistinguishesRules(guid: string, n1: string, n2: string)
    requires n1 != n2
    ensures MessageId(guid, n1) != MessageId(guid, n2)
  {
    if MessageId(guid, n1) == MessageId(guid, n2) {
      MessageIdInjective(guid, n1, guid, n2);
    }
  }

  /** The record the subject and message templates are executed against. The threshold
      is the rule's text, not re-parsed. */
  function MessageTemplateData(rule: AlertRule, instance: ServiceInstance, environment: string,
                               space: Space, org: Org, metricValue: string): (data: map<string, string>)
    ensures data.Keys == {"AlertName", "InstanceId", "InstanceName", "EnvironmentName",
                          "SpaceName", "OrgName", "Treshold", "MetricValue"}
    ensures data["Treshold"] == rule.treshold && data["AlertName"] == rule.name
    ensures data["InstanceId"] == instance.guid && data["InstanceName"] == instance.name
    ensures data["EnvironmentName"] == environment && data["MetricValue"] == metricValue
    ensures data["SpaceName"] == space.name && data["OrgName"] == org.name
  {
    map["AlertName" := rule.name, "InstanceId" := instance.guid, "InstanceName" := instance.name,
        "EnvironmentName" := environment, "SpaceName" := space.name, "OrgName" := org.name,
        "Treshold" := rule.treshold, "MetricValue" := metricValue]
  }

  /** alertRule.GenerateMessageForSpace: look up the instance's space and its org,
      render the message and then the subject, and build the record. */
  function GenerateMessageForSpace(rule: AlertRule, b: Backends, instance: ServiceInstance,
                                   sampleValue: real, environment: string): (r: Result<NotificationMessage, Error>)
    ensures r.Success? ==>
              && r.value.id == MessageId(instance.guid, rule.name)
              && r.value.expiresIn == rule.notifyInterval
              && r.value.target.kind == "space" && r.value.target.environment == environment
    ensures r.Failure? ==> r.error.Lookup? || r.error.RenderMessageFailed? || r.error.RenderSubjectFailed?
  {
    match b.cf.spaceByGuid(RelatedGuid(instance, "space"))
    case Failure(f) => Failure(Lookup(f))
    case Success(space) =>
      match b.cf.orgOfSpace(space)
      case Failure(f) => Failure(Lookup(f))
      case Success(org) =>
        var data := MessageTemplateData(rule, instance, environment, space, org, b.templates.formatMetric(sampleValue));
        match b.templates.execute(rule.message, data)
        case Failure(f) => Failure(RenderMessageFailed(f))
        case Success(body) =>
          match b.templates.execute(rule.subject, data)
          case Failure(f) => Failure(RenderSubjectFailed(f))
          case Success(subject) =>
            Success(NotificationMessage(MessageId(instance.guid, rule.name), subject, body, rule.notifyInterval,
                                        NotificationMessageTarget("space", environment, space.guid)))
  }

  /** A generated message carries the instance/rule identity, the rule's interval as its
      validity, the space as its target and the two rendered texts; a failed space or org
      lookup is the error, unwrapped. */
  lemma GeneratedMessageShape(rule: AlertRule, b: Backends, instance: ServiceInstance,
                              sampleValue: real, environment: string)
    ensures var r := GenerateMessageForSpace(rule, b, instance, sampleValue, environment);
            var space := b.cf.spaceByGuid(RelatedGuid(instance, "space"));
            && (space.Failure? ==> r == Failure(Lookup(space.error)))
            && (space.Success? && b.cf.orgOfSpace(space.value).Failure? ==>
                  r == Failure(Lookup(b.cf.orgOfSpace(space.value).error)))
            && (r.Success? ==>
                  && space.Success? && b.cf.orgOfSpace(space.value).Success?
                  && r.value.id == instance.guid + "-" + rule.name + "\n"
                  && r.value.expiresIn == rule.notifyInterval
                  && r.value.target == NotificationMessageTarget("space", environment, space.value.guid)
                  && var data := MessageTemplateData(rule, instance, environment, space.value,
                                                     b.cf.orgOfSpace(space.value).value,
                                                     b.templates.formatMetric(sampleValue));
                     && b.templates.execute(rule.message, data) == Success(r.value.message)
                     && b.templates.execute(rule.subject, data) == Success(r.value.subject))
  {
  }

  /** Once the space and org are found, a failed rendering of the body, and then of the
      subject, is the error; when both render, generation succeeds with that message. */
  lemma RenderOutcomes(rule: AlertRule, b: Backends, instance: ServiceInstance, sampleValue: real,
                       environment: string, space: Space, org: Org)
    requires b.cf.spaceByGuid(RelatedGuid(instance, "space")) == Success(space)
    requires b.cf.orgOfSpace(space) == Success(org)
    ensures var data := MessageTemplateData(rule, instance, environment, space, org,
                                            b.templates.formatMetric(sampleValue));
            var r := GenerateMessageForSpace(rule, b, instance, sampleValue, environment);
            && (b.templates.execute(rule.message, data).Failure? ==>
                  r == Failure(RenderMessageFailed(b.templates.execute(rule.message, data).error)))
            && (b.templates.execute(rule.message, data).Success?
                && b.templates.execute(rule.subject, data).Failure? ==>
                  r == Failure(RenderSubjectFailed(b.templates.execute(rule.subject, data).error)))
            && (b.templates.execute(rule.message, data).Success?
                && b.templates.execute(rule.subject, data).Success? ==>
                  r == Success(NotificationMessage(MessageId(instance.guid, rule.name),
                                                   b.templates.execute(rule.subject, data).value,
                                                   b.templates.execute(rule.message, data).value,
                                                   rule.notifyInterval,
                                                   NotificationMessageTarget("space", environment, space.guid))))
  {
  }

  /** One Send of Process: which rule and which sample caused it, the message sent and
      what Send returned (only logged). */
  datatype SendCall = SendCall(ruleIndex: nat, sampleIndex: nat, message: NotificationMessage, outcome: Outcome<Error>)

  /** The samples rule `rule`'s query yields for `instance`, or the error. */
  function RuleMetric(b: Backends, rule: AlertRule, instance: ServiceInstance): Result<seq<Sample>, Error>
  {
    GetMetric(b.query, b.templates, rule.promq, instance.guid)
  }

  /** The message value GenerateMessageForSpace returns beside its error: the generated
      message, or the zero `NotificationMessage{}` it returns with every error. */
  function MessageOrZero(rule: AlertRule, b: Backends, instance: ServiceInstance, sample: Sample,
                         environment: string): (m: NotificationMessage)
    ensures m == ZeroMessage <==> GenerateMessageForSpace(rule, b, instance, sample.value, environment).Failure?
    ensures m != ZeroMessage ==> m == GenerateMessageForSpace(rule, b, instance, sample.value, environment).value
  {
    match GenerateMessageForSpace(rule, b, instance, sample.value, environment)
    case Success(m) => m
    case Failure(_) => ZeroMessage
  }

  /** The Send made for sample `j` of rule `i`. */
  function CallFor(b: Backends, environment: string, sender: Sender, instance: ServiceInstance,
                   i: nat, rule: AlertRule, j: nat, sample: Sample): SendCall
  {
    var msg := MessageOrZero(rule, b, instance, sample, environment);
    SendCall(i, j, msg, Send(sender.client, sender.http, msg))
  }

  /** The Sends of the inner loop over the first `n` samples of rule `i`. */
  function SampleCalls(b: Backends, environment: string, sender: Sender, instance: ServiceInstance,
                       i: nat, rule: AlertRule, samples: seq<Sample>, n: nat): seq<SendCall>
    requires n <= |samples|
    decreases n
  {
    if n == 0 then []
    else
      SampleCalls(b, environment, sender, instance, i, rule, samples, n - 1)
      + (if TresholdExceeded(rule, samples[n - 1]) == Success(true)
         then [CallFor(b, environment, sender, instance, i, rule, n - 1, samples[n - 1])]
         else [])
  }

  /** The Sends of rule `i`: none when its metric could not be fetched. */
  function OneRuleCalls(b: Backends, environment: string, sender: Sender, instance: ServiceInstance,
                        i: nat, rule: AlertRule): seq<SendCall>
  {
    match RuleMetric(b, rule, instance)
    case Failure(_) => []
    case Success(samples) => SampleCalls(b, environment, sender, instance, i, rule, samples, |samples|)
  }

  /** The Sends of the outer loop over the first `n` rules. */
  function RuleCalls(b: Backends, environment: string, sender: Sender, instance: ServiceInstance,
                     rs: seq<AlertRule>, n: nat): seq<SendCall>
    requires n <= |rs|
    decreases n
  {
    if n == 0 then []
    else RuleCalls(b, environment, sender, instance, rs, n - 1)
         + OneRuleCalls(b, environment, sender, instance, n - 1, rs[n - 1])
  }

  /** Sample `j` of rule `i` breached: the rule's metric was fetched, has a sample `j`,
      and that sample crosses a well-formed threshold. */
  predicate Breached(b: Backends, instance: ServiceInstance, rs: seq<AlertRule>, i: int, j: int)
  {
    && 0 <= i < |rs|
    && RuleMetric(b, rs[i], instance).Success?
    && 0 <= j < |RuleMetric(b, rs[i], instance).value|
    && TresholdExceeded(rs[i], RuleMetric(b, rs[i], instance).value[j]) == Success(true)
  }

  /** A Send that belongs where it is: its sample breached and it carries that breach's
      message (or the zero message) and Send's outcome for it. */
  predicate Justified(b: Backends, environment: string, sender: Sender, instance: ServiceInstance,
                      rs: seq<AlertRule>, c: SendCall)
  {
    && Breached(b, instance, rs, c.ruleIndex, c.sampleIndex)
    && c == CallFor(b, environment, sender, instance, c.ruleIndex, rs[c.ruleIndex], c.sampleIndex,
                    RuleMetric(b, rs[c.ruleIndex], instance).value[c.sampleIndex])
  }

  /** Rules in declaration order, samples in vector order. */
  predicate Precedes(c1: SendCall, c2: SendCall)
  {
    c1.ruleIndex < c2.ruleIndex || (c1.ruleIndex == c2.ruleIndex && c1.sampleIndex < c2.sampleIndex)
  }

  /** Each (rule, sample) pair is sent at most once, and in loop order. */
  predicate InLoopOrder(calls: seq<SendCall>)
  {
    forall k1, k2 :: 0 <= k1 < k2 < |calls| ==> Precedes(calls[k1], calls[k2])
  }

  /** Every Send answers a breach. */
  predicate AllJustified(b: Backends, environment: string, sender: Sender, instance: ServiceInstance,
                         rs: seq<AlertRule>, calls: seq<SendCall>)
  {
    All(calls, c => Justified(b, environment, sender, instance, rs, c))
  }

  predicate All(calls: seq<SendCall>, p: SendCall -> bool)
  {
    forall k :: 0 <= k < |calls| ==> p(calls[k])
  }

  lemma AllConcat(a: seq<SendCall>, b: seq<SendCall>, p: SendCall -> bool)
    requires All(a, p) && All(b, p)
    ensures All(a + b, p)
  {
    forall k | 0 <= k < |a + b|
      ensures p((a + b)[k])
    {
      if k < |a| {
        assert (a + b)[k] == a[k];
      } else {
        assert (a + b)[k] == b[k - |a|];
      }
    }
  }

  /** Every breach of one of the first `n` rules has its Send. */
  ghost predicate CoversBreaches(b: Backends, instance: ServiceInstance, rs: seq<AlertRule>, n: nat,
                                 calls: seq<SendCall>)
  {
    forall i, j :: 0 <= i < n && Breached(b, instance, rs, i, j) ==>
      exists k :: 0 <= k < |calls| && calls[k].ruleIndex == i && calls[k].sampleIndex == j
  }

  lemma {:induction false} SampleCallsFacts(b: Backends, environment: string, sender: Sender,
                                            instance: ServiceInstance, i: nat, rule: AlertRule,
                                            samples: seq<Sample>, n: nat)
    requires n <= |samples|
    ensures var cs := SampleCalls(b, environment, sender, instance, i, rule, samples, n);
            && (forall k :: 0 <= k < |cs| ==>
                  && cs[k].ruleIndex == i && cs[k].sampleIndex < n
                  && TresholdExceeded(rule, samples[cs[k].sampleIndex]) == Success(true)
                  && cs[k] == CallFor(b, environment, sender, instance, i, rule, cs[k].sampleIndex,
                                      samples[cs[k].sampleIndex]))
            && InLoopOrder(cs)
            && (forall j :: 0 <= j < n && TresholdExceeded(rule, samples[j]) == Success(true) ==>
                  exists k :: 0 <= k < |cs| && cs[k].sampleIndex == j)
    decreases n
  {
    if n > 0 {
      SampleCallsFacts(b, environment, sender, instance, i, rule, samples, n - 1);
      var prev := SampleCalls(b, environment, sender, instance, i, rule, samples, n - 1);
      var cs := SampleCalls(b, environment, sender, instance, i, rule, samples, n);
      assert forall k :: 0 <= k < |prev| ==> cs[k] == prev[k];
      forall k1, k2 | 0 <= k1 < k2 < |cs|
        ensures Precedes(cs[k1], cs[k2])
      {
        assert cs[k1] == prev[k1];
        if k2 < |prev| {
          assert cs[k2] == prev[k2];
        }
      }
      forall j | 0 <= j < n && TresholdExceeded(rule, samples[j]) == Success(true)
        ensures exists k :: 0 <= k < |cs| && cs[k].sampleIndex == j
      {
        if j == n - 1 {
          assert cs[|cs| - 1].sampleIndex == j;
        } else {
          var k :| 0 <= k < |prev| && prev[k].sampleIndex == j;
          assert cs[k].sampleIndex == j;
        }
      }
    }
  }

  /** The Sends of one rule are all for that rule, in sample order. */
  lemma OneRuleCallsOrdered(b: Backends, environment: string, sender: Sender,
                            instance: ServiceInstance, i: nat, rule: AlertRule)
    ensures var last := OneRuleCalls(b, environment, sender, instance, i, rule);
            && (forall k :: 0 <= k < |last| ==> last[k].ruleIndex == i)
            && InLoopOrder(last)
  {
    var metric := RuleMetric(b, rule, instance);
    if metric.Success? {
      SampleCallsFacts(b, environment, sender, instance, i, rule, metric.value, |metric.value|);
    }
  }

  /** Every Send of one rule answers a breach of that rule. */
  lemma OneRuleCallsJustified(b: Backends, environment: string, sender: Sender,
                              instance: ServiceInstance, rs: seq<AlertRule>, i: nat)
    requires i < |rs|
    ensures AllJustified(b, environment, sender, instance, rs, OneRuleCalls(b, environment, sender, instance, i, rs[i]))
  {
    var metric := RuleMetric(b, rs[i], instance);
    if metric.Success? {
      SampleCallsFacts(b, environment, sender, instance, i, rs[i], metric.value, |metric.value|);
      var last := OneRuleCalls(b, environment, sender, instance, i, rs[i]);
      forall k | 0 <= k < |last|
        ensures Justified(b, environment, sender, instance, rs, last[k])
      {
        assert Breached(b, instance, rs, i, last[k].sampleIndex);
      }
    }
  }

  /** Every breached sample of one rule has its Send among that rule's Sends. */
  lemma OneRuleCallsCover(b: Backends, environment: string, sender: Sender,
                          instance: ServiceInstance, rs: seq<AlertRule>, i: nat)
    requires i < |rs|
    ensures var last := OneRuleCalls(b, environment, sender, instance, i, rs[i]);
            forall j :: Breached(b, instance, rs, i, j) ==>
              exists k :: 0 <= k < |last| && last[k].sampleIndex == j
  {
    var metric := RuleMetric(b, rs[i], instance);
    if metric.Success? {
      SampleCallsFacts(b, environment, sender, instance, i, rs[i], metric.value, |metric.value|);
      var last := OneRuleCalls(b, environment, sender, instance, i, rs[i]);
      assert last == SampleCalls(b, environment, sender, instance, i, rs[i], metric.value, |metric.value|);
      forall j | Breached(b, instance, rs, i, j)
        ensures exists k :: 0 <= k < |last| && last[k].sampleIndex == j
      {
        assert 0 <= j < |metric.value| && TresholdExceeded(rs[i], metric.value[j]) == Success(true);
      }
    }
  }

  lemma {:induction false} RuleCallsJustified(b: Backends, environment: string, sender: Sender,
                                              instance: ServiceInstance, rs: seq<AlertRule>, n: nat)
    requires n <= |rs|
    ensures AllJustified(b, environment, sender, instance, rs, RuleCalls(b, environment, sender, instance, rs, n))
    decreases n
  {
    if n > 0 {
      RuleCallsJustified(b, environment, sender, instance, rs, n - 1);
      OneRuleCallsJustified(b, environment, sender, instance, rs, n - 1);
      var prev := RuleCalls(b, environment, sender, instance, rs, n - 1);
      var last := OneRuleCalls(b, environment, sender, instance, n - 1, rs[n - 1]);
      AllConcat(prev, last, c => Justified(b, environment, sender, instance, rs, c));
    }
  }

  lemma {:induction false} RuleCallsInLoopOrder(b: Backends, environment: string, sender: Sender,
                                                instance: ServiceInstance, rs: seq<AlertRule>, n: nat)
    requires n <= |rs|
    ensures forall k :: 0 <= k < |RuleCalls(b, environment, sender, instance, rs, n)| ==>
              RuleCalls(b, environment, sender, instance, rs, n)[k].ruleIndex < n
    ensures InLoopOrder(RuleCalls(b, environment, sender, instance, rs, n))
    decreases n
  {
    if n > 0 {
      RuleCallsInLoopOrder(b, environment, sender, instance, rs, n - 1);
      OneRuleCallsOrdered(b, environment, sender, instance, n - 1, rs[n - 1]);
      var prev := RuleCalls(b, environment, sender, instance, rs, n - 1);
      var last := OneRuleCalls(b, environment, sender, instance, n - 1, rs[n - 1]);
      var cs := RuleCalls(b, environment, sender, instance, rs, n);
      assert cs == prev + last;
      forall k | 0 <= k < |cs|
        ensures cs[k].ruleIndex < n
      {
        if k < |prev| {
          assert cs[k] == prev[k];
        } else {
          assert cs[k] == last[k - |prev|];
        }
      }
      forall k1, k2 | 0 <= k1 < k2 < |cs|
        ensures Precedes(cs[k1], cs[k2])
      {
        if k2 < |prev| {
          assert cs[k1] == prev[k1] && cs[k2] == prev[k2];
        } else if k1 < |prev| {
          assert cs[k1] == prev[k1] && cs[k2] == last[k2 - |prev|];
        } else {
          assert cs[k1] == last[k1 - |prev|] && cs[k2] == last[k2 - |prev|];
        }
      }
    }
  }

  lemma {:induction false} RuleCallsCoverBreaches(b: Backends, environment: string, sender: Sender,
                                                  instance: ServiceInstance, rs: seq<AlertRule>, n: nat)
    requires n <= |rs|
    ensures CoversBreaches(b, instance, rs, n, RuleCalls(b, environment, sender, instance, rs, n))
    decreases n
  {
    if n > 0 {
      RuleCallsCoverBreaches(b, environment, sender, instance, rs, n - 1);
      RuleCallsInLoopOrder(b, environment, sender, instance, rs, n - 1);
      OneRuleCallsOrdered(b, environment, sender, instance, n - 1, rs[n - 1]);
      OneRuleCallsCover(b, environment, sender, instance, rs, n - 1);
      var prev := RuleCalls(b, environment, sender, instance, rs, n - 1);
      var last := OneRuleCalls(b, environment, sender, instance, n - 1, rs[n - 1]);
      var cs := RuleCalls(b, environment, sender, instance, rs, n);
      assert cs == prev + last;
      forall i, j | 0 <= i < n && Breached(b, instance, rs, i, j)
        ensures exists k :: 0 <= k < |cs| && cs[k].ruleIndex == i && cs[k].sampleIndex == j
      {
        if i == n - 1 {
          var k :| 0 <= k < |last| && last[k].sampleIndex == j;
          assert cs[|prev| + k] == last[k];
        } else {
          var k :| 0 <= k < |prev| && prev[k].ruleIndex == i && prev[k].sampleIndex == j;
          assert cs[k] == prev[k];
        }
      }
    }
  }

  /** alertRuleSet.Process: for each rule in declaration order fetch its metric (an
      error skips that rule only), test each sample (a threshold error skips that sample
      only) and Send once per breach, with the zero message when generation failed;
      Send's outcome is only logged. */
  method Process(rs: seq<AlertRule>, b: Backends, environment: string, sender: Sender,
                 instance: ServiceInstance) returns (calls: seq<SendCall>)
    ensures calls == RuleCalls(b, environment, sender, instance, rs, |rs|)
    ensures AllJustified(b, environment, sender, instance, rs, calls)
    ensures InLoopOrder(calls)
    ensures CoversBreaches(b, instance, rs, |rs|, calls)
  {
    calls := [];
    for i := 0 to |rs|
      invariant calls == RuleCalls(b, environment, sender, instance, rs, i)
    {
      var rule := rs[i];
      var vres := GetMetric(b.query, b.templates, rule.promq, instance.guid);
      if vres.Failure? {
        continue;
      }
      var samples := vres.value;
      for j := 0 to |samples|
        invariant calls == RuleCalls(b, environment, sender, instance, rs, i)
                           + SampleCalls(b, environment, sender, instance, i, rule, samples, j)
      {
        var exceeded := TresholdExceeded(rule, samples[j]);
        if exceeded.Failure? {
          continue;
        }
        if exceeded.value {
          // the message GenerateMessageForSpace returns beside its error (zero on error)
          var msg := MessageOrZero(rule, b, instance, samples[j], environment);
          var outcome := Send(sender.client, sender.http, msg);
          calls := calls + [SendCall(i, j, msg, outcome)];
        }
      }
    }
    RuleCallsJustified(b, environment, sender, instance, rs, |rs|);
    RuleCallsInLoopOrder(b, environment, sender, instance, rs, |rs|);
    RuleCallsCoverBreaches(b, environment, sender, instance, rs, |rs|);
  }

  /** A Send whose message generation failed still goes out, with the zero message. */
  lemma FailedGenerationSendsZeroMessage(b: Backends, environment: string, sender: Sender,
                                         instance: ServiceInstance, rs: seq<AlertRule>, c: SendCall)
    requires Justified(b, environment, sender, instance, rs, c)
    requires GenerateMessageForSpace(rs[c.ruleIndex], b, instance,
               RuleMetric(b, rs[c.ruleIndex], instance).value[c.sampleIndex].value, environment).Failure?
    ensures c.message == ZeroMessage
  {
  }
}
