/** operator/internal/classifier: from an alert's labels to a remedy and its target. */
module Classifier {
  datatype Kind = NoRemedy | Rollback | ScaleUp | CircuitBreak

  datatype Decision = Decision(kind: Kind, target: string)

  type Labels = map<string, string>

  /** Reading a missing key of a Go map gives the empty string. */
  function Label(labels: Labels, key: string): string {
    if key in labels then labels[key] else ""
  }

  function Classify(labels: Labels): Decision {
    var severity, service := Label(labels, "severity"), Label(labels, "service");
    var slo, burn := Label(labels, "slo"), Label(labels, "burn_speed");
    if severity != "page" then Decision(NoRemedy, "")
    else if service == "email-worker" then Decision(CircuitBreak, "orders-svc-flags")
    else if service == "orders" && (burn == "fast" || slo == "orders_latency") then Decision(Rollback, "orders-svc")
    else if service == "payments" && burn == "fast" then Decision(ScaleUp, "payments-svc")
    else if service == "inventory" && burn == "fast" then Decision(ScaleUp, "inventory-svc")
    else Decision(NoRemedy, "")
  }

  /** The decision table over the labels as they come: each decision exactly for its labels, and no other decision. */
  lemma DecisionTable(labels: Labels)
    ensures var page, fast := ("severity", "page") in labels.Items, ("burn_speed", "fast") in labels.Items;
            var d := Classify(labels);
            && (d == Decision(CircuitBreak, "orders-svc-flags") <==> page && ("service", "email-worker") in labels.Items)
            && (d == Decision(Rollback, "orders-svc")
                <==> page && ("service", "orders") in labels.Items && (fast || ("slo", "orders_latency") in labels.Items))
            && (d == Decision(ScaleUp, "payments-svc") <==> page && ("service", "payments") in labels.Items && fast)
            && (d == Decision(ScaleUp, "inventory-svc") <==> page && ("service", "inventory") in labels.Items && fast)
            && d in {Decision(CircuitBreak, "orders-svc-flags"), Decision(Rollback, "orders-svc"),
                     Decision(ScaleUp, "payments-svc"), Decision(ScaleUp, "inventory-svc"), Decision(NoRemedy, "")}
  {
    ItemIsLabel(labels, "severity", "page");
    ItemIsLabel(labels, "burn_speed", "fast");
    ItemIsLabel(labels, "slo", "orders_latency");
    ItemIsLabel(labels, "service", "email-worker");
    ItemIsLabel(labels, "service", "orders");
    ItemIsLabel(labels, "service", "payments");
    ItemIsLabel(labels, "service", "inventory");
  }

  lemma ItemIsLabel(labels: Labels, key: string, value: string)
    requires value != ""
    ensures (key, value) in labels.Items <==> Label(labels, key) == value
  {
    assert (key, value) in labels.Items <==> key in labels && labels[key] == value;
  }
}
