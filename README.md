# cfServiceAlert in Dafny

cfServiceAlert is a Cloud Foundry application that watches service instances. It runs as one or more replicas of the same app.

Each replica runs the same scan cycle. It reads its own instance count from the Cloud Controller. It builds a consistent-hash ring of the replica names `"0" .. "nodes-1"` and keeps the service instances that hash onto its own name. For every owned instance that has a service plan, it resolves plan → service → label and looks up the alert rules configured for that label. For each rule it renders the rule's Prometheus query for the instance and fetches the resulting vector. It compares every sample with the rule's threshold. For each sample that crosses the threshold, it renders a notification addressed to the instance's space and POSTs it to the notification service.

This project models that cycle and proves properties about it:

- `Decimal` (decimal.dfy): Go's `strconv.Atoi` on a 64-bit `int`, and `strconv.Itoa`.
- `Platform` (platform.dfy): the Cloud Controller records the cycle reads, the Prometheus sample and query value, and the template renderer. All collaborators are function-valued fields, so any answer they give to a request is covered. Each collaborator answers a given request the same way every time it is asked within a cycle (see "## Left out").
- `Metrics` (metrics.dfy): `alertServer.GetMetric`.
- `Notification` (notification.dfy): the notification message and target, their JSON shape (with `omitempty`), and `NotificationServiceClient.Send` over an HTTP round-trip parameter.
- `Rules` (rules.dfy): the alert rule, `TresholdExceeded`, `GenerateMessageForSpace`, and `alertRuleSet.Process`. `Process` is a method with the source's two nested loops. It returns the trace of the Sends it made, because each Send is the cycle's only visible effect.
- `Ring` (ring.dfy): building the ring, and the ownership facts that hold for any `Locate` that answers with a ring member.
- `Server` (server.dfy): the `alertServer` replica as a class. `ScanServices` overwrites the replica count, rebuilds the ring and runs the instance loop. Lemmas show that replicas split the instances among themselves.

Some behaviours of the Go code are easy to misread; the model follows the code:

- The id of a notification is `guid + "-" + name + "\n"`, with the trailing newline (alertRule.go:127).
- When generating a message fails, Process still sends, and what it sends is the zero `NotificationMessage{}` (alertRule.go:44-49).
- An error from the service lookup is only logged. The label returned beside it is still used to pick the rule set (alertServer.go:64-69).
- Errors from the app lookup and from listing instances are discarded (alertServer.go:39, 47). The values returned beside them are used.

## Model

| member | source | states |
|---|---|---|
| Decimal.Itoa | main.go:56 | the decimal name of a replica index is never empty, and starts with '-' exactly for negative indexes |
| Decimal.DigitChar | alertServer.go:44 | each digit value 0..9 has a digit character that reads back as that value |
| Decimal.NatToString | alertServer.go:44 | the decimal form of a natural number is a non-empty string of digits, with a leading zero only for 0 itself |
| Decimal.NatToStringValue | alertServer.go:44 | reading the decimal form of n back as digits gives n |
| Decimal.AccumulateSnoc | alertRule.go:59 | strconv's left-to-right accumulation of one more digit multiplies by ten and adds the digit |
| Decimal.AccumulateIsDigitsValue | alertRule.go:59 | strconv's left-to-right accumulation equals the positional value of the digit string |
| Decimal.Atoi | alertRule.go:59 | strconv.Atoi: a success is a well-formed decimal within int64, negative only after a '-' sign; every failure is a number error naming the input |
| Decimal.AtoiAccepts | alertRule.go:59-62 | Atoi succeeds exactly on an optional sign followed by one or more digits whose value fits in int64; the result is that signed value; every failure is a number error naming the input |
| Decimal.AtoiItoa | alertRule.go:59 | every int64 survives formatting with Itoa and parsing with Atoi |
| Decimal.ItoaInjective | main.go:56 | different replica indexes have different names |
| Platform.RelatedGuid | alertServer.go:55 | a relationship missing from an instance reads as the empty GUID; a present one reads as its GUID |
| Metrics.GetMetric | alertServer.go:77-98 | a render failure gives RenderQueryFailed; a query failure gives QueryFailed; a non-vector result gives NotAVector; a vector answer gives exactly its samples |
| Metrics.GetMetricSucceedsIff | alertServer.go:77-98 | GetMetric returns samples exactly when the query renders and Prometheus answers that rendered query with a vector of those samples |
| Metrics.GetMetricQueriesOnlyRendered | alertServer.go:84-88 | the result depends on Prometheus only through its answer to the rendered query |
| Notification.TargetJson | notificationServiceClient.go:28-32 | json.Marshal of the target: an object of three members, or two when the environment is empty and omitted |
| Notification.MessageJson | notificationServiceClient.go:20-26 | json.Marshal of the message: an object of five members, or four when the validity is empty and omitted |
| Notification.Member | notificationServiceClient.go:20-32 | a JSON member lookup finds a pair with that key, or reports that no pair has it |
| Notification.MemberConcat | notificationServiceClient.go:20-32 | looking up a key in concatenated members finds it in the first part if it is there, else in the second |
| Notification.TargetMembers | notificationServiceClient.go:28-32 | the target's JSON has "type" and "id" always, and "environment" only when it is non-empty (omitempty) |
| Notification.MessageMembers | notificationServiceClient.go:20-26 | the message's JSON has "id", "subject", "message" and "target" always, and "validity" only when non-empty (omitempty) |
| Notification.TargetRoundTrip | notificationServiceClient.go:28-32 | decoding the target's JSON gives back the target |
| Notification.MessageRoundTrip | notificationServiceClient.go:20-32 | decoding a message's JSON gives back the message, including omitted empty fields |
| Notification.MessageJsonFields | notificationServiceClient.go:20-32 | which keys the encoded message and target carry: omitempty fields appear exactly when non-empty, the others always |
| Notification.SendRequest | notificationServiceClient.go:56-57 | the request is a POST to the client URL plus "/send", with the client's credentials and the marshalled body |
| Notification.StatusOutcome | notificationServiceClient.go:63-72 | 200 and only 200 is success; 401 and only 401 is a login failure; 409 and only 409 is already-sent; every other code is an error carrying the code |
| Notification.StatusOutcomeInjective | notificationServiceClient.go:63-72 | different status codes give different Send results |
| Notification.Send | notificationServiceClient.go:50-74 | a marshal failure gives MarshalFailed; a transport failure gives CallFailed; otherwise the result is the status code's outcome for the one request to "/send" |
| Notification.SendSucceedsIff | notificationServiceClient.go:50-74 | Send succeeds exactly when the message marshals and the POST to "/send" answers 200 |
| Notification.SendIssuesOnlySendRequest | notificationServiceClient.go:51-58 | Send depends on the transport only through its answer to the one request it builds |
| Ring.RingForAt | alertServer.go:42-45 | the ring of n replicas has n entries, and entry k is the name of replica n-1-k |
| Ring.RingMembers | alertServer.go:42-45 | a name is on the ring exactly when it is the name of a replica index in 0..n-1 |
| Ring.BuildRing | alertServer.go:42-45 | the countdown loop adds the names "n-1" .. "0" in that order, and the result is the ring of n replicas |
| Ring.Located | alertServer.go:51 | the name Locate gives for a GUID, its error discarded: a replica name in 0..n-1 when the ring is non-empty, and "" when it is empty |
| Ring.Owns | alertServer.go:52 | a replica keeps an instance when the located name is its own; a non-empty name that owns anything is the name of a replica index in 0..n-1 |
| Ring.OwnerIsUnique | alertServer.go:50-52 | no instance is owned by two different replica indexes |
| Ring.EveryGuidHasOwner | alertServer.go:50-52 | with at least one replica, every instance is owned by some replica index in 0..n-1 |
| Ring.NoOwnerOutsideRing | alertServer.go:50-52 | a replica whose index is outside 0..n-1 owns nothing |
| Ring.OwnedGuidsPartition | alertServer.go:50-52 | the replicas' owned sets of listed instances are pairwise disjoint and together cover every listed instance |
| Rules.Trunc | alertRule.go:65 | `int(sample.Value)` truncates toward zero |
| Rules.TresholdExceeded | alertRule.go:58-77 | the check fails exactly when the threshold does not parse, with the parse error; a breach needs the truncated sample to differ from the threshold (the comparison is strict) |
| Rules.InvalidTresholdNeverBreaches | alertRule.go:59-62 | a threshold that does not parse as an int64 gives the parse error and never a breach |
| Rules.AboveBreachIff | alertRule.go:64-68 | for an "above" rule, a value breaches threshold k exactly when it is at least k+1 (k >= 0) or above k (k < 0) |
| Rules.BelowBreachIff | alertRule.go:69-74 | for a "below" rule, a value breaches threshold k exactly when it is below k (k > 0) or at most k-1 (k <= 0) |
| Rules.EqualityNeverBreaches | alertRule.go:64-76 | a sample whose truncated value equals the threshold never breaches, in either direction |
| Rules.TresholdExamples | alertRule.go:58-77 | 81.7 breaches "above 80", while 80.0 and 80.9 do not; 9.4 breaches "below 10"; -0.5 does not breach "below 0" |
| Rules.MessageId | alertRule.go:127 | the id is the instance GUID, a '-', the rule name and a trailing newline, in that order |
| Rules.MessageIdInjective | alertRule.go:127 | ids of instances whose GUIDs have equal length determine both the GUID and the rule name |
| Rules.MessageIdDistinguishesRules | alertRule.go:127 | two rules on one instance never share a message id, so the notification service does not deduplicate one against the other |
| Rules.MessageTemplateData | alertRule.go:92-110 | the template sees exactly the eight fields; the threshold is the rule's unparsed text |
| Rules.GenerateMessageForSpace | alertRule.go:79-139 | a generated message carries the instance/rule id, the rule's interval as validity, and a "space" target in the environment; every failure is a lookup or a render error |
| Rules.GeneratedMessageShape | alertRule.go:79-139 | a generated message has id guid-name with a newline, the rule's interval as validity, target type "space" with the environment and the space GUID, and the body and subject rendered from the template data; a failed space or org lookup gives that lookup's error |
| Rules.RenderOutcomes | alertRule.go:114-138 | once the space and org are found, a body that fails to render gives RenderMessageFailed, then a subject that fails gives RenderSubjectFailed, and when both render, generation succeeds with the message built from them, addressed to the space |
| Rules.SampleCallsFacts | alertRule.go:36-53 | the inner loop sends once for each breaching sample and for nothing else, in sample order |
| Rules.OneRuleCallsOrdered | alertRule.go:29-54 | one rule's Sends are all tagged with that rule and come in sample order |
| Rules.OneRuleCallsJustified | alertRule.go:29-54 | every Send for one rule answers a breach of that rule |
| Rules.OneRuleCallsCover | alertRule.go:29-54 | every breach of one rule has its Send |
| Rules.AllConcat | alertRule.go:29 | proof step for the outer loop appending one rule's Sends to the trace: a property of every Send in both parts holds for every Send of the appended trace |
| Rules.RuleCallsJustified | alertRule.go:28-56 | every Send of the outer loop answers a breach and carries that breach's message, or the zero message, and Send's outcome for it |
| Rules.RuleCallsInLoopOrder | alertRule.go:28-56 | the Sends come in rule order, then sample order, with no (rule, sample) pair twice |
| Rules.RuleCallsCoverBreaches | alertRule.go:28-56 | every breach of every rule whose metric was fetched has its Send |
| Rules.MessageOrZero | alertRule.go:44-49 | the message Process hands to Send is the zero message exactly when generation failed, and otherwise the generated message |
| Rules.Process | alertRule.go:28-56 | the loops produce the specified trace: only breaches are sent, each one once, all of them, in loop order |
| Rules.FailedGenerationSendsZeroMessage | alertRule.go:44-49 | when generating the message fails, the message that is still sent is the zero message |
| Server.ScanStep | alertServer.go:50-72 | an instance is handed to a rule set exactly when this replica owns it and it has a plan GUID, a successful plan lookup and a configured label; the visit runs that label's rule set |
| Server.ScanVisits | alertServer.go:50-74 | the instance loop makes at most one visit per listed instance (which visits it makes is stated by VisitsAreOwnedAndManaged and OwnedManagedAreVisited) |
| Server.VisitsAreOwnedAndManaged | alertServer.go:50-72 | every instance the cycle processes is listed, owned by this replica and managed |
| Server.OwnedManagedAreVisited | alertServer.go:50-72 | every listed instance that this replica owns and that is managed is processed |
| Server.ReplicasShareNoInstance | alertServer.go:42-52 | two replicas with different indexes never process the same instance in one cycle |
| Server.ManagedInstanceHasReplica | alertServer.go:42-72 | with at least one replica, every managed instance is processed by some replica index in 0..n-1 |
| Server.IdleOutsideRing | alertServer.go:42-52 | a replica whose index is outside the count it read processes nothing |
| Server.AlertServer.constructor | main.go:52-59 | a new replica is named by its index and has replica count 0 |
| Server.AlertServer.ScanServices | alertServer.go:38-75 | the stored replica count becomes the app's instance count; the cycle's visits are the specified instance loop; every visited instance is listed, owned and managed |

## Left out

- Time, the ticker goroutine (`Start`, main.go) and the `/status` handler: each cycle is one call of ScanServices.
- Logging: every `log.Print*` call is left out. Errors that are only logged are visible through the returned trace instead.
- The hash ring's internals (three virtual nodes per name and the hash function). `Locate` is a parameter. The ownership lemmas assume only that it answers with a ring member, or "" on an empty ring.
- Go's `text/template` engine. Rendering is a parameter that can succeed with any text or fail. The `Parse` error that alertRule.go:115,121 and alertServer.go:83 overwrite is not modelled: a parse failure leaves a nil template, whose `Execute` panics in Go.
- Rules.MessageTemplateData: the metric value's text comes from a formatting parameter. `ParseFloat(…, 32)` and `%.2f` are not modelled.
- Rules.Trunc: NaN and infinite samples, and values outside the int64 range, are not modelled. Samples are exact reals.
- Decimal.AtoiAccepts: syntax and range errors are one error kind. Go's `NumError` tells them apart, but the program only logs them.
- Rules.Process: the notification service answers a repeated request the same way within a cycle. Two breaching samples of one rule on one instance share the id guid-name; the service is then expected to answer the second with 409 (notificationServiceClient.go:66-67). Two failed generations both send the zero message. A 409 for such a repeat is not shown.
- Notification.Send: the transport is a function of the request alone, so it cannot depend on earlier Sends; the same applies to Prometheus's `Query`, which in the Go code runs at the current time (prometheus.go:37).
- JSON byte encoding and HTTP Basic authentication encoding (RFC 7617). The body is an abstract JSON value, marshalled by a parameter. The request carries the credentials as fields.
- `NewNotificationServiceClient`: URL parsing and `log.Fatal` are process set-up. The 15-second timeout is a transport failure like any other.
- config.go (reading the rule catalog and credentials), prometheus.go (the HTTP client for Prometheus) and main.go's wiring: only the replica's name, `strconv.Itoa(index)` (main.go:56), is modelled.
- scanServices.go is not part of this model. It is an older copy of the scan loop that does not fit the rule catalog's type.
- The Go source declares `alertServer` twice, and Process uses `environment` and a notification client that no struct declares. The model gives the cycle both as inputs (`Cycle.environment`, `Cycle.sender`).
