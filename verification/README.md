# Reliability lab: the remediation loop and the order flow it protects

A Dafny model of the remediation operator (webhook, dedupe, classifier, remedies) and of the order flow
(orders-svc, payments-svc, inventory-svc, email-worker) with the brake that joins them. `dafny verify dfyconfig.toml`
checks the whole project.

The parts, and the theorems they lead to:

* **Cooldown, CooldownHistory.** The fingerprint map as a class whose ghost history never forgets. After any call, in
  any time order, the map is exactly the last stamp of every fingerprint whose last stamp is still live. From that
  follow the rate limit under a clock skew (and that the loss is real), the window count, bounded liveness, and exactly
  when forgetting can be noticed.
* **Webhook.** `HandleAlert` as a loop over a payload, with a closed description of what one payload dispatches, the
  same for every order of its alerts and every pattern of remedy failures.
* **JsonPatch, Cluster, Remedies, RemedyLaws.** JSON Merge Patch (section 2 of RFC 7396), the difference that a
  copy-assign-patch sends, and the three remedies. Each patch is an assignment to one field.
* **OperatorRuns, Uninterleaved, Footprint, ReplicaBound, StaleReads.** The operator as a transition system: any number
  of concurrent handlers, each with the time it captured; reads that may be any number of versions old, because the
  manager's client reads from a cache (operator/cmd/manager/main.go:71); writes without version check that may fail or
  lose their reply; others who patch, create and delete meanwhile. `ReplicaBound.ReplicasBounded` puts the rate limit
  and the scale-up race together. `StaleReads` says exactly when a CircuitBreak that reports success has left the brake
  on, exactly when a late scale-up takes a newer one back, and that without such a race the minimum never falls. Every
  run of a handler left alone does what the sequential handler does.
* **OrderFlow, BrakeLoop, FlagFile.** The order flow as a transition system: causality, conservation of reservations and
  exactly when one is orphaned, and the brake: how it gets from the operator to every replica, what may still be
  published then, and how the load drains.
* **HttpMetrics, OrdersService, Backends.** The request handler inside the metrics middleware, when the recorded code
  is the one that was sent, and the counters over any run; inventory, payments and the worker.

Where the code and its own comments disagree, the code is modelled:

* "Apply must be idempotent" (operator/internal/remedy/remedy.go:30-32) and "idempotency falls out"
  (operator/internal/remedy/scale.go:14-15) do not hold of ScaleUp: `RemedyLaws.ScaleUpNotIdempotent` is the run
  2, 4, 6 and `RemedyLaws.ScaleUpIdempotentIff` the exact condition.
* A CircuitBreak that returns no error has not always engaged the brake (operator/internal/remedy/circuitbreak.go:60-64
  trusts a read that may be old): `StaleReads.StaleSuccess` is such a run, `StaleReads.SuccessMeansEngagedIff` the
  exact condition.
* services/orders-svc/cbwatch.go:35-40 speaks of a missing file; every read error resumes publishing.
  `OrderFlow.BrakeStaysIff` says exactly which steps release the brake. A new replica is one of them
  (`OrderFlow.NewReplicaLeaks`): it publishes until its watcher's first read.
* pkg/obs/redmetrics.go:80-86 records the first WriteHeader, which is not always the code that is sent:
  `HttpMetrics.RecordedButNotSent` gives two handlers, `HttpMetrics.RecordedIsSentIff` the exact condition. The order
  handler is one for which it is.

Times and identifiers are integers; the clock only moves forward. Uninterpreted inputs of the environment (what fails,
which reply is lost, which version a read finds, fresh identifiers) are parameters of methods and steps.

## Model

| member | source | states |
|---|---|---|
| Cooldown.AcquireKeepsMemory | operator/internal/server/dedupe.go:34-58 | For every call, in any time order: the answer is refusal exactly when the fingerprint's last accepted stamp is younger than the cooldown and no later stamp was a whole cooldown after it; and the map stays exactly the live last stamps. |
| Cooldown.Dedupe.constructor | operator/internal/server/dedupe.go:25-27 | A new dedupe remembers nothing. |
| Cooldown.Dedupe.Acquire | operator/internal/server/dedupe.go:34-46 | Answer and new map as the history demands; an empty fingerprint is always allowed and leaves no stamp; a refusal changes nothing. |
| Cooldown.Dedupe.GcLocked | operator/internal/server/dedupe.go:52-58 | The loop deletes exactly the entries a cooldown old, whatever the iteration order. |
| CooldownHistory.RateLimit | operator/internal/server/dedupe.go:34-58 | If accepted stamps are at most skew out of order, two stamps of one fingerprint are cooldown - skew apart (cooldown without skew), over runs of any length. |
| CooldownHistory.SkewLossIsReal | operator/internal/server/dedupe.go:43-57 | A three-call run for every skew in which collection makes the gap exactly cooldown - skew, where a map that never forgets refuses. |
| CooldownHistory.AcceptedPerWindow | operator/internal/server/dedupe.go:40-45 | At most length / (cooldown - skew) + 1 accepts of one fingerprint in any closed interval. |
| CooldownHistory.WindowCountInOrder | operator/internal/server/dedupe.go:40-45 | The same with times in order: length / cooldown + 1. |
| CooldownHistory.AgreesIff | operator/internal/server/dedupe.go:34-58 | The collected map gives the answers of a map that never forgets, over a whole run, exactly when no call arrives inside a cooldown that an accepted call has already seen expire. |
| CooldownHistory.CollectionIsInvisible | operator/internal/server/dedupe.go:48-58 | For non-decreasing times the two always agree. |
| CooldownHistory.ExactMemory | operator/internal/server/dedupe.go:43-57 | In time order, right after an accepted stamp, the map is every fingerprint's last stamp younger than the cooldown and nothing else. |
| CooldownHistory.MemoryBound | operator/internal/server/dedupe.go:48-51 | Its size is at most the number of stamps in the last window. |
| CooldownHistory.BoundedLiveness | operator/internal/server/dedupe.go:40-45 | A fingerprint redelivered at gaps of at most R is accepted again at least a cooldown and less than cooldown + R after its last action. |
| Webhook.Server.constructor | operator/internal/server/server.go:38-49 | Unset cooldown, namespace and registry get their defaults, ten minutes, reliability-lab and an empty registry; the cooldown is then positive. |
| Webhook.Server.HandleAlert | operator/internal/server/server.go:95-122 | 400 and nothing changes if the body does not decode; otherwise every alert is processed, the answer is 202, and map, dispatches and cluster are those of the loop, whatever fails; `DispatchedIff`, `SeenIff`, `OnlyFiring` and `DispatchTable` say what those are. |
| Webhook.Server.Dispatch | operator/internal/server/server.go:128-147 | Classify, look up, apply; errors end there. |
| Webhook.DispatchTable | operator/internal/server/server.go:128-147 | With the manager's registry, over the labels as they come: which remedy runs on which object, and that nothing happens for any other labels. |
| Webhook.BatchSpec | operator/internal/server/server.go:102-120 | One payload dispatches, in order, the firing alerts without fingerprint and the first firing alert of each fingerprint that is unseen or a cooldown old; the final map in closed form. |
| Webhook.DispatchedIff | operator/internal/server/payload.go:28-31 | The i-th alert is dispatched exactly if its status is firing and it has no fingerprint, or is the first such alert of one that is unseen or a cooldown old. |
| Webhook.SeenIff | operator/internal/server/dedupe.go:34-58 | The map after a payload, from the statuses, fingerprints and times alone. |
| Webhook.OnlyFiring | operator/internal/server/server.go:103-120 | Every dispatched alert has status firing; a payload without such an alert leaves map, dispatches and cluster as they were. |
| Webhook.BatchPermutes | operator/internal/server/server.go:102-120 | Permuting the alerts, and changing the failures and the cluster, leaves the final map and the multiset of dispatched fingerprints unchanged. |
| Webhook.FailureIndependence | operator/internal/server/server.go:124-147 | For one payload, dispatches and final map do not depend on failures, registry or cluster. |
| JsonPatch.MergeFrame | operator/internal/remedy/rollback.go:44-49 | A merge patch leaves every path it does not name as it was, on arbitrary documents. |
| JsonPatch.MergeLeaf | operator/internal/remedy/rollback.go:44-49 | A leaf of the patch is what the document holds there afterwards, a null leaf an absence. |
| JsonPatch.MergeReads | operator/internal/remedy/circuitbreak.go:65-70 | Exactly when a patched document holds a given scalar at a path: the patch puts it there, or does not name the path and the document held it before. |
| JsonPatch.MergeIdempotent | operator/internal/remedy/rollback.go:44-49 | Any merge patch applied twice is as applied once. |
| JsonPatch.MergeCommutes | operator/internal/remedy/circuitbreak.go:65-70 | Merge patches on disjoint paths commute on every document. |
| JsonPatch.MergeExamples | operator/internal/remedy/rollback.go:44-49 | Members are added and deleted, arrays replaced whole, as in the examples of RFC 7396. |
| JsonPatch.DiffRoundTrip | operator/internal/remedy/circuitbreak.go:65-70 | Sending the difference of original and copy yields the copy exactly when the copy introduces no null. |
| JsonPatch.DiffOfSet | operator/internal/remedy/scale.go:59-61 | The difference made by one assignment names that one path. |
| JsonPatch.MergeOfNest | operator/internal/remedy/scale.go:59-61 | On whatever version it reaches, that patch is the same assignment. |
| Remedies.AssignAndPatch | operator/internal/remedy/scale.go:59-61 | Copy, assign, patch sends the one-field patch. |
| Remedies.ApplyScaleUp | operator/internal/remedy/scale.go:33-68 | Read, int32 sum, cap, no-op test and patch, with every error return, as the specification function whose meaning the lemmas below give. |
| Remedies.ApplyCircuitBreak | operator/internal/remedy/circuitbreak.go:40-76 | Create if missing, no-op if engaged, patch otherwise, with every error return. |
| Remedies.ApplyRollback | operator/internal/remedy/rollback.go:38-55 | One merge patch of the rollout's status, no read. |
| Remedies.Registry.Register | operator/internal/remedy/remedy.go:46-46 | Later registrations of a kind replace earlier ones. |
| Remedies.Registry.Apply | operator/internal/remedy/remedy.go:56-62 | An unregistered kind is an error that changes nothing; otherwise the registered remedy runs on its target. |
| RemedyLaws.BumpExact | operator/internal/remedy/scale.go:34-60 | With int32 wrap-around included: an apply writes exactly when it is below the cap and the sum fits, then by one whole step or to the cap; it never lowers and never exceeds. |
| RemedyLaws.SequentialScaleUp | operator/internal/remedy/scale.go:34-60 | k applies give min(max, m0 + k * step). |
| RemedyLaws.ScaleUpConverges | operator/internal/remedy/scale.go:34-60 | The cap is reached after exactly the ceiling of (max - m0) / step applies and is a fixpoint; below it every apply makes progress. |
| RemedyLaws.ScaleUpIdempotentIff | operator/internal/remedy/remedy.go:30-32 | The exact condition under which a repeated scale-up changes nothing. |
| RemedyLaws.ScaleUpNotIdempotent | operator/internal/remedy/scale.go:12-15 | The run 2, 4, 6. |
| RemedyLaws.ScaleUpMeaning | operator/internal/remedy/scale.go:39-61 | A fault-free apply bumps minReplicas, keeps maxReplicas and every other object. |
| RemedyLaws.ScaleUpNeedsItsRead | operator/internal/remedy/scale.go:41-43 | A failed or missing read is an error and writes nothing. |
| RemedyLaws.ScaleUpOnDocument | operator/internal/remedy/scale.go:33-68 | An undisturbed apply to a document with given spec.minReplicas and spec.maxReplicas: the minimum goes up by the step (2 if not positive) but not above the maximum, nothing is written if there is no room or the sum leaves the int32 range, and every other path stays. |
| RemedyLaws.RemedyPatchLaws | operator/internal/remedy/remedy.go:30-35 | Every patch a remedy can send, on any read, fresh or stale, is idempotent on arbitrary documents, keeps every path apart from its one field, and commutes with every merge patch that does not name that field. |
| RemedyLaws.CircuitBreakEngages | operator/internal/remedy/circuitbreak.go:40-76 | For an apply that reads one state of the cluster and writes to another: on afterwards exactly if it was on or was read as off and the write took effect; success means on exactly unless the read saw a brake that is off by now (for a read of the current state: success means on); a brake read as on is not written; a created ConfigMap carries its name and namespace; nothing else changes. |
| RemedyLaws.CircuitBreakOnDocument | operator/internal/remedy/circuitbreak.go:40-76 | With any fault: data.publish_enabled becomes the string false in a present or a created ConfigMap unless it is that already, or the read fails, or the write is refused; success exactly if the read succeeds and the write, if one is needed, is acknowledged. |
| RemedyLaws.RollbackAborts | operator/internal/remedy/rollback.go:38-55 | status.abort becomes true and nothing else changes; a missing rollout is an error; success exactly if there is one and the reply arrives. |
| RemedyLaws.RollbackOnDocument | operator/internal/remedy/rollback.go:38-55 | With any fault: status.abort becomes true in an existing rollout unless the call is refused, nothing else changes, success exactly if there is one and the reply arrives. |
| RemedyLaws.LatePatchIff | operator/internal/remedy/scale.go:41-61 | A patch decided on any old version and sent to any current one lowers minReplicas exactly if it takes effect and min(max, min + step) of the version read is below the current minimum. |
| RemedyLaws.LatePatchUndoes | operator/internal/remedy/scale.go:41-61 | Such a run: two handlers decide on one read, the first writes, a third apply follows, and the second one's patch takes that one back. |
| OperatorRuns.RunKeeps | operator/internal/server/server.go:95-147 | In every interleaving: the map is that of the calls in lock order, the dispatches are the accepted alerts with a remedy, and every remedy under way belongs to a firing alert that classifies to it and writes what it decided on the version it names. |
| OperatorRuns.CapturesArrival | operator/internal/server/server.go:102-102 | A handler's time is the clock at its arrival, the start plus all time that has passed, for the whole run. |
| OperatorRuns.FailureIndependence | operator/internal/server/server.go:110-146 | Two runs with the same passages through the lock end with the same map and dispatches, whatever reads, faults, foreign writes, clusters and interleavings. |
| OperatorRuns.HandlersFinish | operator/internal/server/server.go:103-121 | Every own step of a handler, with any fault, brings it nearer to its answer; no other step moves it. |
| OperatorRuns.AnsweredAtTheEnd | operator/internal/server/server.go:92-121 | A request is answered, with 202, only after its last alert. |
| Uninterleaved.AloneIsBatch | operator/internal/server/server.go:95-147 | Every run of one handler's own steps to its answer, each read finding the current version, ends with the map, the cluster and the dispatches of the sequential loop for the faults of that run. |
| Uninterleaved.CanFinish | operator/internal/server/server.go:103-121 | Every such run, however far it has got, can be continued to the answer. |
| Classifier.DecisionTable | operator/internal/classifier/classifier.go:53-112 | The table over the labels as they come: each of the four decisions exactly for its labels, no remedy otherwise. |
| Footprint.TargetTable | operator/cmd/manager/main.go:64-67 | With the manager's registry: exactly which labels have a remedy, and for each the remedy, its step, and the kind, namespace and name of its object. |
| Footprint.Targets | operator/internal/classifier/classifier.go:53-112 | Every alert with a remedy is a page and its object is one of the four. |
| Footprint.EveryWriteHasAnAlert | operator/internal/remedy/remedy.go:56-62 | Every operator write in every reachable state is caused by a firing page-severity alert and changes only the object it classifies to, and there only the remedy's field. |
| Footprint.RunFrame | operator/cmd/manager/main.go:64-75 | Over every run, a path outside the four objects' own fields that nobody else touches reads the same at the end. |
| Footprint.NothingAppears | operator/internal/remedy/circuitbreak.go:45-52 | The operator creates no object but the flags ConfigMap and deletes none. |
| ReplicaBound.TimelyRunsAreSkewed | operator/internal/server/server.go:102-119 | If whenever a handler calls Acquire at most skew has passed since it captured its time, accepted stamps are at most skew out of order; the last remedy and the answer may take any time. |
| ReplicaBound.ConcurrentRateLimit | operator/internal/server/server.go:102-119 | The rate limit under every interleaving of such handlers. |
| ReplicaBound.HpaInterleaving | operator/internal/remedy/scale.go:39-61 | For every int32 step and maximum, with any number of interleaved scale-ups, stale reads, failed and half-failed writes, minReplicas is always min(max, m0 + j * step) for some j up to the number of patches that took effect, so within m0 and max; maxReplicas never moves. |
| ReplicaBound.ReplicasBounded | operator/internal/server/server.go:95-147 | End to end, for every int32 step and maximum: minReplicas is at most min(max, m0 + step * (dispatches without fingerprint + fingerprints routed there * (length / (cooldown - skew) + 1))). |
| StaleReads.SendEngages | operator/internal/remedy/circuitbreak.go:45-75 | In every reachable state, a CircuitBreak write that takes effect leaves the brake on, whatever version it was decided on. |
| StaleReads.StillEngagedIff | operator/internal/remedy/circuitbreak.go:60-64 | Over every run: a brake that some version shows is on at the end exactly unless, after that version, others deleted the ConfigMap or patched the flag away and no write has engaged it again. |
| StaleReads.SuccessMeansEngagedIff | operator/internal/remedy/circuitbreak.go:40-76 | Over every run, with stale reads: a CircuitBreak that returns no error leaves the brake on exactly if it wrote, or the brake it read has not been lifted since the version read. |
| StaleReads.StaleSuccess | operator/internal/remedy/circuitbreak.go:60-64 | The condition can fail: the key is deleted, the cache still shows the brake on, the apply succeeds, the request is answered, and the brake is off. |
| StaleReads.FallsIff | operator/internal/remedy/scale.go:39-61 | In every reachable state: a step of the operator lowers minReplicas exactly if it lands a scale-up whose target, a capped step above the minimum it read, is below the current minimum. |
| StaleReads.NeverFalls | operator/internal/remedy/scale.go:39-61 | Over every run in which nothing lands on the HPA between the version a scale-up reads and its write, minReplicas never falls. |
| FlagFile.EnabledIff | services/orders-svc/cbwatch.go:33-48 | A readable file enables publishing exactly if, between characters of a listed white space, it is a word whose lower case is true. |
| FlagFile.KnownValues | k8s/base/orders-svc.yaml:24-24 | The shipped value true enables, also with a final newline or a capital; false, an empty file and any other word pause; a missing file enables. |
| FlagFile.Watcher.Read | services/orders-svc/cbwatch.go:33-48 | paused becomes the decoding of the file; any read error means not paused. |
| FlagFile.Watcher.WatchCircuitBreak | services/orders-svc/cbwatch.go:31-86 | After the first read, over every sequence of turns, paused is the decoding of the latest read; a failed set-up leaves the first one. |
| FlagFile.LatestReadIsLast | services/orders-svc/cbwatch.go:64-85 | The read that counts is that of the last tick or event before the loop ends. |
| OrderFlow.Causality | services/orders-svc/main.go:71-105 | In every interleaving with lost and late replies: a stored event belongs to an authorized order, an authorized order holds its own reservation of one default item, a declined or failed order publishes nothing, an undecodable one is not even charged. |
| OrderFlow.ReservationsConserved | services/inventory-svc/main.go:33-42 | Reservations are the authorized orders' and the orphans', one each; published orders are authorized ones. |
| OrderFlow.OrphanIff | services/payments-svc/main.go:40-50 | Over all runs: a charge is declined exactly if payments-svc gave up on the reservation it awaited; so a decided order leaves stock reserved for nobody exactly if payments-svc gave up and inventory-svc executed the Reserve, before or after. |
| OrderFlow.OrphanReservation | services/payments-svc/main.go:40-50 | Such a run: with the reply to Reserve lost, the client is told the order was declined and its stock stays reserved. |
| OrderFlow.BacklogIff | services/email-worker/main.go:123-153 | Over all runs: an event is in the stream exactly if the stream stored it, lost exactly if it was dropped on the way, in the backlog exactly if stored and not settled since. |
| OrderFlow.BrakeStaysIff | services/orders-svc/cbwatch.go:33-49 | The brake stays on in all replicas over exactly the steps that start no replica and read no enabling or failing flag. |
| OrderFlow.BrakedStep | services/orders-svc/main.go:86-105 | With the brake on, no step adds to the backlog plus the orders past the check, and a settled delivery takes one off. |
| OrderFlow.BrakeDrains | services/email-worker/main.go:136-151 | Over a whole braked run: what is published later was already past the check, and settled deliveries plus the load left are at most the load at the start. |
| OrderFlow.NewReplicaLeaks | services/orders-svc/main.go:161-172 | A replica that starts during the brake can publish before its first read. |
| BrakeLoop.FlagIsTheKey | services/orders-svc/cbwatch.go:30-33 | The projected file is there with a content exactly if the ConfigMap holds that string at data.publish_enabled. |
| BrakeLoop.RemedyPauses | operator/internal/remedy/circuitbreak.go:40-75 | After an apply that reports success, reading any version, the projected flag is the word false exactly unless it read a brake lifted by now; reading that word pauses. |
| BrakeLoop.DeletingTheKeyResumes | docs/runbooks/circuit-break.md:44-53 | Deleting the key leaves no flag, and reading that resumes. |
| BrakeLoop.FlagReaches | services/orders-svc/cbwatch.go:33-49 | A replica whose file is projected and then read follows the flag from then on, whatever happens in between. |
| BrakeLoop.EveryReplicaFollows | services/orders-svc/cbwatch.go:33-49 | Once the flag is set and every replica's file has been projected and then read, every replica is paused or not as the value says. |
| BrakeLoop.FreshReplicaFollows | services/orders-svc/main.go:161-172 | A new replica starts publishing whatever the flag, and its first read makes it follow. |
| BrakeLoop.BrakeReachesEveryReplica | operator/internal/remedy/circuitbreak.go:40-75 | From any run of the operator to the replicas: a CircuitBreak succeeds, having written or read a brake not lifted since, the flag takes the value it leaves, and is projected and read everywhere: then every replica is paused. |
| HttpMetrics.StatusRecorder.WriteHeader | pkg/obs/redmetrics.go:80-86 | Only the first call is recorded, every call is passed on. |
| HttpMetrics.SentFirst | pkg/obs/redmetrics.go:70-86 | Nothing said, or a body first, is 200; a first header is recorded, and sent unless it is informational. |
| HttpMetrics.RecordedIsSentIff | pkg/obs/redmetrics.go:70-86 | The recorded code is the sent one exactly if the handler's first operation is a settling WriteHeader, or a body write with no other code than 200 set later. |
| HttpMetrics.RecordedButNotSent | pkg/obs/redmetrics.go:80-86 | Two handlers for which they differ: an informational code before the response, and a code set after the body has begun. |
| HttpMetrics.CountersConserve | pkg/obs/redmetrics.go:55-68 | Summed over labels with at least a given code, the counters are the completed requests with such a code. |
| OrdersService.App.HandleCreate | services/orders-svc/main.go:61-113 | On the wire and in the recorder: 400 exactly if the body does not decode, 502 if the charge fails, 402 if it returns anything but authorized, 200 if it is authorized; and which event, with which fields, is published. |
| OrdersService.ResponseCode | services/orders-svc/main.go:61-112 | For every attempt the recorded, the sent and the intended code coincide, and are 400, 502, 402 or 200 exactly in these cases. |
| OrdersService.Metrics.Wrap | pkg/obs/redmetrics.go:55-68 | Exactly the counter of the code that went out goes up by one. |
| OrdersService.MetricsConserve | services/orders-svc/main.go:61-112 | Over any run the counters add up to the requests, and those with a server-error code to the failed charges: declines never burn the SLO. |
| OrdersService.AfterReceive | services/orders-svc/main.go:63-71 | An undecodable body is answered 400 at once and never charged or published, whatever follows; any other waits for its charge, and nothing is published meanwhile. |
| OrdersService.SameAnswers | services/orders-svc/main.go:71-112 | From the arrival of a request, decodable or not, over any run of everything else: the handler in one go and the handler as steps of the order flow answer the same code and publish in the same case. |
| Backends.Inventory.Release | services/inventory-svc/main.go:44-50 | Removes the reservation and says whether there was one. |
| Backends.ReserveThenRelease | services/inventory-svc/main.go:33-50 | On an inventory: releasing a fresh reservation gives the store back as it was, once. |
| Backends.Charge | services/payments-svc/main.go:35-55 | Authorized exactly if the reservation was made and its reply arrived; the reservation is made whenever the request arrived. |
| Backends.Handle | services/email-worker/main.go:123-153 | One settlement per delivery, Term if it does not decode and Ack otherwise; the message stays only if that is lost. |

## Left out

- HTTP, gRPC, NATS, fsnotify and the Kubernetes client inside: each call is a step that succeeds, fails or loses its reply.
- Redelivery timing, MaxAckPending and the 24 h expiry of the stream: the backlog is a set of events that shrinks by settlement only.
- Messages in the stream that orders-svc did not publish: in the order flow a delivery of such a message is not a step; `Backends.Handle` covers its Term.
- Tracing, logging, health endpoints, environment variables, start-up and shutdown, request durations: no effect on the state modelled.
- Decision reasons and remedy log lines: no effect on behaviour.
- Saturation of time differences and wall-clock jumps: times are unbounded integers.
- Restart of the operator, of inventory-svc, or a crash of a replica mid-request: in-memory state is kept for the whole run.
- Recording rules, alert timing, Terraform, Kustomize, Argo CD, Kyverno, chaos experiments and load generation: configuration.
- Cluster.ApiServer.Get: the sequential class reads the current object; reads from the manager's cache, any number of versions old, are modelled in the transition system.
- HttpMetrics.ResponseWriter.WriteHeader: does not model the panic on codes outside 100 to 999, which no handler here sends.
- FlagFile.EnabledIff: the file is a string of characters; decoding of invalid UTF-8 is not modelled.
- OrdersService.App.HandleCreate: encoding of the request, the event and the response body as JSON is not modelled.
