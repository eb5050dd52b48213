/** What the operator may touch, over every run. */
module Footprint {
  import opened JsonPatch
  import opened Cluster
  import opened Remedies
  import opened RemedyLaws
  import opened Webhook
  import opened OperatorRuns
  import Classifier

  /** The objects the remedies act on, with the manager's registry. */
  predicate MayWrite(ns: string, key: Key) {
    || key == Key(Rollout, ns, "orders-svc")
    || key == Key(HPA, ns, "payments-svc")
    || key == Key(HPA, ns, "inventory-svc")
    || key == Key(ConfigMap, ns, "orders-svc-flags")
  }

  /** With the manager's registry: which labels lead to which remedy on which object, and that no others do. */
  lemma TargetTable(cfg: Config, a: Alert)
    requires cfg.kinds == Production()
    ensures var page, fast := ("severity", "page") in a.labels.Items, ("burn_speed", "fast") in a.labels.Items;
            var mail := page && ("service", "email-worker") in a.labels.Items;
            var orders := page && ("service", "orders") in a.labels.Items && (fast || ("slo", "orders_latency") in a.labels.Items);
            var payments := page && ("service", "payments") in a.labels.Items && fast;
            var inventory := page && ("service", "inventory") in a.labels.Items && fast;
            && (HasRemedy(cfg, a) <==> mail || orders || payments || inventory)
            && (mail ==> Leads(cfg, a, CircuitBreak, Key(ConfigMap, cfg.ns, "orders-svc-flags")))
            && (orders ==> Leads(cfg, a, Rollback, Key(Rollout, cfg.ns, "orders-svc")))
            && (payments ==> Leads(cfg, a, ScaleUp(0), Key(HPA, cfg.ns, "payments-svc")))
            && (inventory ==> Leads(cfg, a, ScaleUp(0), Key(HPA, cfg.ns, "inventory-svc")))
  {
    Classifier.DecisionTable(a.labels);
  }

  predicate Leads(cfg: Config, a: Alert, rem: Remedy, key: Key) {
    HasRemedy(cfg, a) && RemedyFor(cfg, a) == rem && TargetOf(cfg, a) == key
  }

  /** So every alert with a remedy is a page, and its object is one of four. */
  lemma Targets(cfg: Config, a: Alert)
    requires cfg.kinds == Production() && HasRemedy(cfg, a)
    ensures ("severity", "page") in a.labels.Items && MayWrite(cfg.ns, TargetOf(cfg, a))
  {
    TargetTable(cfg, a);
  }

  /** What one send of a handler with an orderly job does to the cluster. */
  lemma SendFootprint(store: Store, rem: Remedy, key: Key, read: Read, act: Action, fault: Fault)
    requires act == Decide(rem, key, read) && !act.Stop? && key.kind == KindFor(rem)
    ensures Touches(store, Perform(store, key, act, fault).store, key)
  {
    if act.SendPatch? && key in store {
      RemedyPatchLaws(rem, key, read, store[key]);
    }
  }

  /** The handler is at a firing page-severity alert, and its job is on the object that alert classifies to. */
  predicate CausedByAlert(cfg: Config, x: Handler)
    requires Busy(x)
  {
    && x.at < |x.alerts| && x.alerts[x.at].status == "firing" && HasRemedy(cfg, x.alerts[x.at])
    && ("severity", "page") in x.alerts[x.at].labels.Items
    && x.pc.job.key == TargetOf(cfg, x.alerts[x.at]) && MayWrite(cfg.ns, x.pc.job.key)
  }

  /** Every change of the cluster that is not a foreign write is the send of one handler, caused by a firing
      page-severity alert, to the object that alert classifies to; every other object is untouched, and so is
      every path of that object apart from its one field. */
  lemma EveryWriteHasAnAlert(cfg: Config, s: State, st: Step)
    requires Inv(cfg, s) && cfg.kinds == Production()
    requires !st.Foreign? && Current(Next(cfg, s, st)) != Current(s)
    ensures Sends(s, st) && CausedByAlert(cfg, s.handlers[st.h])
    ensures Touches(Current(s), Current(Next(cfg, s, st)), s.handlers[st.h].pc.job.key)
  {
    StepWrites(cfg, s, st);
    SendTouches(cfg, s, st.h, st.fault);
  }

  /** Between two states of the cluster only the remedy's field of key has changed, or key is the flags ConfigMap and is new. */
  ghost predicate Touches(store: Store, store': Store, key: Key) {
    && (forall k | k in store :: k in store')
    && (forall k | k != key && k in store' :: k in store && store'[k] == store[k])
    && (key in store' && key !in store ==> key.kind.ConfigMap?)
    && (forall path | key in store && Apart(FieldAt(key.kind), path) :: Lookup(store'[key], path) == Lookup(store[key], path))
  }

  lemma SendTouches(cfg: Config, s: State, h: int, fault: Fault)
    requires Inv(cfg, s) && cfg.kinds == Production() && Sends(s, Send(h, fault))
    ensures CausedByAlert(cfg, s.handlers[h])
    ensures Touches(Current(s), StoreAfter(s, Send(h, fault)), s.handlers[h].pc.job.key)
  {
    var x := s.handlers[h];
    assert HandlerOk(cfg, s.dispatches, s.landed, x) && Decided(s.versions, x);
    var job := x.pc.job;
    Targets(cfg, x.alerts[x.at]);
    SendFootprint(Current(s), job.rem, job.key, ReadOf(s.versions, job, x.pc.base), x.pc.act, fault);
  }

  /** The paths of an object that are none of the operator's business. */
  predicate OffLimits(ns: string, key: Key, path: Path) {
    MayWrite(ns, key) ==> Apart(FieldAt(key.kind), path)
  }

  /** The object is in both and reads the same at path. */
  predicate SameAt(store: Store, store': Store, key: Key, path: Path) {
    key in store && key in store' && Lookup(store'[key], path) == Lookup(store[key], path)
  }

  lemma StepFrame(cfg: Config, s: State, st: Step, key: Key, path: Path)
    requires Inv(cfg, s) && cfg.kinds == Production() && key in Current(s)
    requires OffLimits(cfg.ns, key, path) && ForeignLeaves(st, key, path)
    ensures SameAt(Current(s), StoreAfter(s, st), key, path)
  {
    if Sends(s, st) {
      SendTouches(cfg, s, st.h, st.fault);
    } else if st.Foreign? {
      ChangeFrame(Current(s), st.key, st.change, key, path);
    }
  }

  /** Run-wide frame: whatever the alerts, faults and interleaving, a path that is not the operator's and that nobody
      else touches reads the same at the end. */
  lemma {:induction false} RunFrame(cfg: Config, s: State, steps: seq<Step>, key: Key, path: Path)
    requires Initial(s) && cfg.kinds == Production() && key in Current(s)
    requires OffLimits(cfg.ns, key, path) && forall st | st in steps :: ForeignLeaves(st, key, path)
    ensures SameAt(Current(s), Current(Exec(cfg, s, steps)), key, path)
  {
    if steps != [] {
      var n := |steps| - 1;
      var r := Exec(cfg, s, steps[..n]);
      assert forall st | st in steps[..n] :: st in steps;
      RunFrame(cfg, s, steps[..n], key, path);
      RunKeeps(cfg, s, steps[..n]);
      StepFrame(cfg, r, steps[n], key, path);
      StepWrites(cfg, r, steps[n]);
    }
  }

  /** Others neither create nor delete the object. */
  predicate OnlyPatched(steps: seq<Step>, key: Key) {
    forall st | st in steps && st.Foreign? && st.key == key :: st.change.Merged?
  }

  /** The operator makes no object appear but, at most, the flags ConfigMap, and none disappear. */
  lemma {:induction false} NothingAppears(cfg: Config, s: State, steps: seq<Step>, key: Key)
    requires Initial(s) && cfg.kinds == Production() && key != Key(ConfigMap, cfg.ns, "orders-svc-flags")
    requires OnlyPatched(steps, key)
    ensures key in Current(Exec(cfg, s, steps)) <==> key in Current(s)
  {
    if steps != [] {
      var n := |steps| - 1;
      assert forall st | st in steps[..n] :: st in steps;
      assert steps[n] in steps;
      var r := Exec(cfg, s, steps[..n]);
      NothingAppears(cfg, s, steps[..n], key);
      RunKeeps(cfg, s, steps[..n]);
      StepAddsNothing(cfg, r, steps[n], key);
      StepWrites(cfg, r, steps[n]);
    }
  }

  lemma StepAddsNothing(cfg: Config, s: State, st: Step, key: Key)
    requires Inv(cfg, s) && cfg.kinds == Production() && key != Key(ConfigMap, cfg.ns, "orders-svc-flags")
    requires st.Foreign? && st.key == key ==> st.change.Merged?
    ensures key in StoreAfter(s, st) <==> key in Current(s)
  {
    if Sends(s, st) {
      SendTouches(cfg, s, st.h, st.fault);
    }
  }
}
