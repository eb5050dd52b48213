/** operator/internal/server/server.go: one decoded AlertManager payload, handled start to end. */
module Webhook {
  import opened Options
  import opened HttpStatus
  import opened Cluster
  import opened Remedies
  import opened Cooldown
  import Classifier

  datatype Alert = Alert(status: string, labels: Classifier.Labels, fingerprint: string)

  predicate Firing(a: Alert) {
    a.status == "firing"
  }

  type Kinds = map<Classifier.Kind, Remedy>

  /** dispatch: classify, look up, apply; a missing kind or a failed apply changes nothing further. */
  function DispatchEffect(store: Store, kinds: Kinds, ns: string, a: Alert, faults: Faults): Store {
    var d := Classifier.Classify(a.labels);
    if d.kind.NoRemedy? || d.kind !in kinds then store
    else ApplyRemedy(kinds[d.kind], store, KeyFor(kinds[d.kind], ns, d.target), faults).store
  }

  datatype Outcome = Outcome(seen: Seen, dispatched: seq<Alert>, store: Store)

  /** One alert of the loop. */
  function HandleOne(o: Outcome, a: Alert, now: int, cooldown: int, kinds: Kinds, ns: string, faults: Faults): Outcome {
    if !Firing(a) then o
    else
      var v := AcquireStep(o.seen, a.fingerprint, now, cooldown);
      if !v.ok then o
      else Outcome(v.seen, o.dispatched + [a], DispatchEffect(o.store, kinds, ns, a, faults))
  }

  /** The loop over the alerts; faults(i) is what befalls the i-th remedy. */
  function Batch(alerts: seq<Alert>, seen: Seen, store: Store, now: int, cooldown: int, kinds: Kinds, ns: string,
                 faults: nat -> Faults): Outcome
  {
    if alerts == [] then Outcome(seen, [], store)
    else
      var n := |alerts| - 1;
      HandleOne(Batch(alerts[..n], seen, store, now, cooldown, kinds, ns, faults), alerts[n], now, cooldown, kinds, ns,
                faults(n))
  }

  lemma BatchNext(alerts: seq<Alert>, i: nat, seen: Seen, store: Store, now: int, cooldown: int, kinds: Kinds, ns: string,
                  faults: nat -> Faults)
    requires i < |alerts|
    ensures Batch(alerts[..i + 1], seen, store, now, cooldown, kinds, ns, faults)
            == HandleOne(Batch(alerts[..i], seen, store, now, cooldown, kinds, ns, faults), alerts[i], now, cooldown, kinds, ns,
                         faults(i))
  {
    assert alerts[..i + 1][..i] == alerts[..i];
  }

  const DEFAULT_COOLDOWN := 600_000_000_000 // ten minutes, in nanoseconds

  class Server {
    const dedupe: Dedupe
    const api: ApiServer
    const registry: Registry
    const ns: string
    ghost var dispatched: seq<Alert>

    ghost predicate Valid()
      reads this, dedupe
    {
      dedupe.Valid() && dedupe.cooldown > 0
    }

    /** New: an unset cooldown, namespace or registry gets its default. */
    constructor (cooldown: int, ns: string, registry: Option<Registry>, api: ApiServer)
      ensures Valid() && fresh(dedupe) && dedupe.seen == map[] && dispatched == []
      ensures dedupe.cooldown == if cooldown <= 0 then 600 * 1_000_000_000 else cooldown
      ensures this.ns == if ns == "" then "reliability-lab" else ns
      ensures this.api == api
      ensures match registry case Some(r) => this.registry == r case None => fresh(this.registry) && this.registry.m == map[]
    {
      var window := if cooldown <= 0 then DEFAULT_COOLDOWN else cooldown;
      var d := new Dedupe(window);
      var r: Registry;
      match registry {
        case Some(given) => r := given;
        case None => r := new Registry();
      }
      this.dedupe, this.api, this.registry := d, api, r;
      this.ns := if ns == "" then "reliability-lab" else ns;
      dispatched := [];
    }

    /** Whatever the remedies do, a payload that parses is worked through to its last alert and answered 202. */
    method HandleAlert(body: Option<seq<Alert>>, now: int, faults: nat -> Faults) returns (code: int)
      requires Valid()
      modifies this, dedupe, api
      ensures Valid()
      ensures body.None? ==> code == 400 && unchanged(this) && unchanged(dedupe) && unchanged(api)
      ensures body.Some? ==>
                var o := Batch(body.value, old(dedupe.seen), old(api.objects), now, dedupe.cooldown, registry.m, ns, faults);
                && code == 202
                && dedupe.seen == o.seen
                && dispatched == old(dispatched) + o.dispatched
                && api.objects == o.store
    {
      if body.None? {
        return BAD_REQUEST;
      }
      var alerts := body.value;
      ghost var seen0, store0, before := dedupe.seen, api.objects, dispatched;
      ghost var o := Outcome(seen0, [], store0);
      var i := 0;
      while i < |alerts|
        invariant 0 <= i <= |alerts|
        invariant Valid()
        invariant o == Batch(alerts[..i], seen0, store0, now, dedupe.cooldown, registry.m, ns, faults)
        invariant dedupe.seen == o.seen && dispatched == before + o.dispatched && api.objects == o.store
      {
        var a := alerts[i];
        ghost var next := HandleOne(o, a, now, dedupe.cooldown, registry.m, ns, faults(i));
        BatchNext(alerts, i, seen0, store0, now, dedupe.cooldown, registry.m, ns, faults);
        if Firing(a) {
          var allowed := dedupe.Acquire(a.fingerprint, now);
          if allowed {
            assert dispatched + [a] == before + (o.dispatched + [a]);
            dispatched := dispatched + [a];
            Dispatch(a, faults(i));
          }
        }
        assert dedupe.seen == next.seen && dispatched == before + next.dispatched && api.objects == next.store;
        o := next;
        i := i + 1;
      }
      assert alerts[..i] == alerts;
      return ACCEPTED;
    }

    method Dispatch(a: Alert, faults: Faults)
      modifies api
      ensures api.objects == DispatchEffect(old(api.objects), registry.m, ns, a, faults)
    {
      var d := Classifier.Classify(a.labels);
      if d.kind == Classifier.NoRemedy {
        return;
      }
      var _ := registry.Apply(api, ns, d, faults);
    }
  }

  // ----- what one payload dispatches -----

  predicate Expired(seen: Seen, fp: string, now: int, cooldown: int) {
    fp !in seen || now - seen[fp] >= cooldown
  }

  /** A firing alert without fingerprint, or the first firing alert of a fingerprint that is unseen or a cooldown old. */
  predicate Chosen(alerts: seq<Alert>, i: int, seen: Seen, now: int, cooldown: int)
    requires 0 <= i < |alerts|
  {
    && Firing(alerts[i])
    && (alerts[i].fingerprint == ""
        || (&& Expired(seen, alerts[i].fingerprint, now, cooldown)
            && forall j | 0 <= j < i :: !(Firing(alerts[j]) && alerts[j].fingerprint == alerts[i].fingerprint)))
  }

  function Selected(alerts: seq<Alert>, seen: Seen, now: int, cooldown: int): seq<Alert> {
    if alerts == [] then []
    else
      var n := |alerts| - 1;
      Selected(alerts[..n], seen, now, cooldown) + if Chosen(alerts, n, seen, now, cooldown) then [alerts[n]] else []
  }

  /** The fingerprints a payload newly stamps. */
  function Stamped(alerts: seq<Alert>, seen: Seen, now: int, cooldown: int): set<string> {
    set a | a in alerts && Firing(a) && a.fingerprint != "" && Expired(seen, a.fingerprint, now, cooldown) :: a.fingerprint
  }

  /** The map after a payload: untouched if nothing is stamped, otherwise the stamps and what is still on cooldown. */
  function SeenAfter(stamped: set<string>, seen: Seen, now: int, cooldown: int): Seen {
    if stamped == {} then seen
    else map fp | fp in seen.Keys + stamped && (fp in stamped || now - seen[fp] < cooldown) ::
           if fp in stamped then now else seen[fp]
  }

  lemma StampedGrows(alerts: seq<Alert>, seen: Seen, now: int, cooldown: int)
    requires alerts != []
    ensures var n := |alerts| - 1;
            var a, s0 := alerts[n], Stamped(alerts[..n], seen, now, cooldown);
            var stamps := Firing(a) && a.fingerprint != "" && Expired(seen, a.fingerprint, now, cooldown);
            && Stamped(alerts, seen, now, cooldown) == (if stamps then s0 + {a.fingerprint} else s0)
            && (stamps ==> (Chosen(alerts, n, seen, now, cooldown) <==> a.fingerprint !in s0))
  {
    var n := |alerts| - 1;
    var a, before := alerts[n], alerts[..n];
    assert forall x :: x in alerts <==> x in before || x == a;
    var s0 := Stamped(before, seen, now, cooldown);
    if Firing(a) && a.fingerprint != "" && Expired(seen, a.fingerprint, now, cooldown) {
      if a.fingerprint in s0 {
        var x :| x in before && Firing(x) && x.fingerprint == a.fingerprint;
        var j :| 0 <= j < n && alerts[j] == x;
      } else {
        forall j | 0 <= j < n && Firing(alerts[j])
          ensures alerts[j].fingerprint != a.fingerprint
        {
          assert alerts[j] in before;
        }
      }
    }
  }

  lemma SeenAfterStep(s0: set<string>, seen: Seen, fp: string, now: int, cooldown: int)
    requires cooldown > 0 && fp != ""
    ensures var v := AcquireStep(SeenAfter(s0, seen, now, cooldown), fp, now, cooldown);
            && (v.ok <==> fp !in s0 && Expired(seen, fp, now, cooldown))
            && v.seen == SeenAfter(if v.ok then s0 + {fp} else s0, seen, now, cooldown)
  {
    var was := SeenAfter(s0, seen, now, cooldown);
    if fp !in s0 && Expired(seen, fp, now, cooldown) {
      assert Collect(was[fp := now], now, cooldown) == SeenAfter(s0 + {fp}, seen, now, cooldown);
    }
  }

  /** One more alert, in the closed form. */
  lemma OneMoreAlert(alerts: seq<Alert>, seen: Seen, now: int, cooldown: int)
    requires cooldown > 0 && alerts != [] && Firing(alerts[|alerts| - 1])
    ensures var n := |alerts| - 1;
            var a, s0 := alerts[n], Stamped(alerts[..n], seen, now, cooldown);
            var v := AcquireStep(SeenAfter(s0, seen, now, cooldown), a.fingerprint, now, cooldown);
            && (v.ok <==> Chosen(alerts, n, seen, now, cooldown))
            && v.seen == SeenAfter(Stamped(alerts, seen, now, cooldown), seen, now, cooldown)
  {
    var n := |alerts| - 1;
    StampedGrows(alerts, seen, now, cooldown);
    if alerts[n].fingerprint != "" {
      SeenAfterStep(Stamped(alerts[..n], seen, now, cooldown), seen, alerts[n].fingerprint, now, cooldown);
    }
  }

  /** The whole payload, for every fault pattern, registry and cluster. */
  lemma {:induction false} BatchSpec(alerts: seq<Alert>, seen: Seen, store: Store, now: int, cooldown: int, kinds: Kinds,
                                     ns: string, faults: nat -> Faults)
    requires cooldown > 0
    ensures var o := Batch(alerts, seen, store, now, cooldown, kinds, ns, faults);
            && o.dispatched == Selected(alerts, seen, now, cooldown)
            && o.seen == SeenAfter(Stamped(alerts, seen, now, cooldown), seen, now, cooldown)
  {
    if alerts != [] {
      var n := |alerts| - 1;
      BatchSpec(alerts[..n], seen, store, now, cooldown, kinds, ns, faults);
      if Firing(alerts[n]) {
        OneMoreAlert(alerts, seen, now, cooldown);
      } else {
        StampedGrows(alerts, seen, now, cooldown);
      }
    }
  }

  // ----- in the payload's own terms -----

  /** The i-th alert adds itself to the dispatches exactly if it is firing and has no fingerprint, or is the first firing
      alert of one that is unseen or a cooldown old. */
  lemma DispatchedIff(alerts: seq<Alert>, i: nat, seen: Seen, store: Store, now: int, cooldown: int, kinds: Kinds,
                      ns: string, faults: nat -> Faults)
    requires cooldown > 0 && i < |alerts|
    ensures var a := alerts[i];
            var taken := && a.status == "firing"
                         && (a.fingerprint == ""
                             || (&& (a.fingerprint in seen ==> now - seen[a.fingerprint] >= cooldown)
                                 && forall j: nat | j < i && alerts[j].status == "firing" :: alerts[j].fingerprint != a.fingerprint));
            Batch(alerts[..i + 1], seen, store, now, cooldown, kinds, ns, faults).dispatched
            == Batch(alerts[..i], seen, store, now, cooldown, kinds, ns, faults).dispatched + if taken then [a] else []
  {
    BatchSpec(alerts[..i], seen, store, now, cooldown, kinds, ns, faults);
    BatchSpec(alerts[..i + 1], seen, store, now, cooldown, kinds, ns, faults);
    SelectedNext(alerts, i, seen, now, cooldown);
    ChosenIs(alerts, i, seen, now, cooldown);
  }

  lemma SelectedNext(alerts: seq<Alert>, i: nat, seen: Seen, now: int, cooldown: int)
    requires i < |alerts|
    ensures Selected(alerts[..i + 1], seen, now, cooldown)
            == Selected(alerts[..i], seen, now, cooldown) + if Chosen(alerts, i, seen, now, cooldown) then [alerts[i]] else []
  {
    assert alerts[..i + 1][..i] == alerts[..i];
  }

  lemma ChosenIs(alerts: seq<Alert>, i: nat, seen: Seen, now: int, cooldown: int)
    requires i < |alerts|
    ensures var a := alerts[i];
            Chosen(alerts, i, seen, now, cooldown)
            <==> && a.status == "firing"
                 && (a.fingerprint == ""
                     || (&& (a.fingerprint in seen ==> now - seen[a.fingerprint] >= cooldown)
                         && forall j: nat | j < i && alerts[j].status == "firing" :: alerts[j].fingerprint != a.fingerprint))
  {
  }

  /** The final map: a payload that stamps nothing leaves it alone; any other puts the payload's time on every
      fingerprint of a firing alert that was unseen or a cooldown old, and drops what else is a cooldown old. */
  lemma SeenIff(alerts: seq<Alert>, seen: Seen, store: Store, now: int, cooldown: int, kinds: Kinds, ns: string,
                faults: nat -> Faults, stamped: set<string>)
    requires cooldown > 0
    requires stamped == set a | && a in alerts && a.status == "firing" && a.fingerprint != ""
                                && (a.fingerprint in seen ==> now - seen[a.fingerprint] >= cooldown) :: a.fingerprint
    ensures Batch(alerts, seen, store, now, cooldown, kinds, ns, faults).seen
            == if stamped == {} then seen
               else map fp | fp in seen.Keys + stamped && (fp in stamped || now - seen[fp] < cooldown) ::
                    if fp in stamped then now else seen[fp]
  {
    StampedIs(alerts, seen, now, cooldown, stamped);
    BatchSpec(alerts, seen, store, now, cooldown, kinds, ns, faults);
  }

  lemma StampedIs(alerts: seq<Alert>, seen: Seen, now: int, cooldown: int, stamped: set<string>)
    requires stamped == set a | && a in alerts && a.status == "firing" && a.fingerprint != ""
                                && (a.fingerprint in seen ==> now - seen[a.fingerprint] >= cooldown) :: a.fingerprint
    ensures stamped == Stamped(alerts, seen, now, cooldown)
  {
  }

  /** Only firing alerts are acted on; a payload without one leaves everything as it was. */
  lemma {:induction false} OnlyFiring(alerts: seq<Alert>, seen: Seen, store: Store, now: int, cooldown: int, kinds: Kinds,
                                      ns: string, faults: nat -> Faults)
    ensures var o := Batch(alerts, seen, store, now, cooldown, kinds, ns, faults);
            && (forall a | a in o.dispatched :: a in alerts && a.status == "firing")
            && ((forall a | a in alerts :: a.status != "firing") ==> o == Outcome(seen, [], store))
  {
    if alerts != [] {
      var before, last := alerts[..|alerts| - 1], alerts[|alerts| - 1];
      assert forall a :: a in alerts <==> a in before || a == last;
      OnlyFiring(before, seen, store, now, cooldown, kinds, ns, faults);
    }
  }

  /** What a dispatched alert does with the manager's registry: by its labels, one remedy on one object, or nothing. */
  lemma DispatchTable(store: Store, ns: string, a: Alert, faults: Faults)
    ensures var page, fast := ("severity", "page") in a.labels.Items, ("burn_speed", "fast") in a.labels.Items;
            var mail := page && ("service", "email-worker") in a.labels.Items;
            var orders := page && ("service", "orders") in a.labels.Items && (fast || ("slo", "orders_latency") in a.labels.Items);
            var payments := page && ("service", "payments") in a.labels.Items && fast;
            var inventory := page && ("service", "inventory") in a.labels.Items && fast;
            DispatchEffect(store, Production(), ns, a, faults)
            == if mail then ApplyRemedy(CircuitBreak, store, Key(ConfigMap, ns, "orders-svc-flags"), faults).store
               else if orders then ApplyRemedy(Rollback, store, Key(Rollout, ns, "orders-svc"), faults).store
               else if payments then ApplyRemedy(ScaleUp(0), store, Key(HPA, ns, "payments-svc"), faults).store
               else if inventory then ApplyRemedy(ScaleUp(0), store, Key(HPA, ns, "inventory-svc"), faults).store
               else store
  {
    Classifier.DecisionTable(a.labels);
  }

  function FingerprintsOf(alerts: seq<Alert>): seq<string> {
    if alerts == [] then []
    else FingerprintsOf(alerts[..|alerts| - 1]) + [alerts[|alerts| - 1].fingerprint]
  }

  function EmptyFiring(alerts: seq<Alert>): nat {
    if alerts == [] then 0
    else
      var a := alerts[|alerts| - 1];
      EmptyFiring(alerts[..|alerts| - 1]) + if Firing(a) && a.fingerprint == "" then 1 else 0
  }

  /** Whether one more alert is chosen, for the alerts of one fingerprint. */
  lemma ChosenCounts(alerts: seq<Alert>, seen: Seen, now: int, cooldown: int, fp: string)
    requires alerts != []
    ensures var n := |alerts| - 1;
            var more := Chosen(alerts, n, seen, now, cooldown) && alerts[n].fingerprint == fp;
            if fp == "" then EmptyFiring(alerts) == EmptyFiring(alerts[..n]) + if more then 1 else 0
            else && (fp in Stamped(alerts, seen, now, cooldown) <==> more || fp in Stamped(alerts[..n], seen, now, cooldown))
                 && (more ==> fp !in Stamped(alerts[..n], seen, now, cooldown))
  {
    StampedGrows(alerts, seen, now, cooldown);
  }

  lemma {:induction false} SelectedCounts(alerts: seq<Alert>, seen: Seen, now: int, cooldown: int, fp: string)
    ensures multiset(FingerprintsOf(Selected(alerts, seen, now, cooldown)))[fp]
            == if fp == "" then EmptyFiring(alerts) else if fp in Stamped(alerts, seen, now, cooldown) then 1 else 0
  {
    if alerts != [] {
      var n := |alerts| - 1;
      var s := Selected(alerts[..n], seen, now, cooldown);
      SelectedCounts(alerts[..n], seen, now, cooldown, fp);
      ChosenCounts(alerts, seen, now, cooldown, fp);
      if Chosen(alerts, n, seen, now, cooldown) {
        assert Selected(alerts, seen, now, cooldown) == s + [alerts[n]];
        OneMore(s, alerts[n], fp);
      } else {
        assert Selected(alerts, seen, now, cooldown) == s;
      }
    }
  }

  lemma OneMore(s: seq<Alert>, a: Alert, fp: string)
    ensures multiset(FingerprintsOf(s + [a]))[fp] == multiset(FingerprintsOf(s))[fp] + if a.fingerprint == fp then 1 else 0
  {
    assert (s + [a])[..|s|] == s;
    assert FingerprintsOf(s + [a]) == FingerprintsOf(s) + [a.fingerprint];
  }

  lemma {:induction false} RemoveOne(alerts: seq<Alert>, i: nat)
    requires i < |alerts|
    ensures multiset(alerts[..i] + alerts[i + 1..]) == multiset(alerts) - multiset{alerts[i]}
    ensures EmptyFiring(alerts)
            == EmptyFiring(alerts[..i] + alerts[i + 1..]) + if Firing(alerts[i]) && alerts[i].fingerprint == "" then 1 else 0
  {
    assert alerts == alerts[..i] + [alerts[i]] + alerts[i + 1..];
    EmptyFiringAppend(alerts[..i] + [alerts[i]], alerts[i + 1..]);
    EmptyFiringAppend(alerts[..i], [alerts[i]]);
    EmptyFiringAppend(alerts[..i], alerts[i + 1..]);
    assert EmptyFiring([alerts[i]]) == EmptyFiring([alerts[i]][..0]) + if Firing(alerts[i]) && alerts[i].fingerprint == "" then 1 else 0;
  }

  lemma {:induction false} EmptyFiringAppend(a: seq<Alert>, b: seq<Alert>)
    ensures EmptyFiring(a + b) == EmptyFiring(a) + EmptyFiring(b)
  {
    if b == [] {
      assert a + b == a;
    } else {
      EmptyFiringAppend(a, b[..|b| - 1]);
      assert (a + b)[..|a + b| - 1] == a + b[..|b| - 1];
    }
  }

  lemma {:induction false} EmptyFiringPermutes(alerts: seq<Alert>, others: seq<Alert>)
    requires multiset(alerts) == multiset(others)
    ensures EmptyFiring(alerts) == EmptyFiring(others)
  {
    if alerts == [] {
      assert |multiset(others)| == 0;
    } else {
      var n := |alerts| - 1;
      assert alerts[n] in multiset(others);
      var i :| 0 <= i < |others| && others[i] == alerts[n];
      RemoveOne(alerts, n);
      RemoveOne(others, i);
      assert alerts[..n] + alerts[n + 1..] == alerts[..n];
      EmptyFiringPermutes(alerts[..n], others[..i] + others[i + 1..]);
    }
  }

  /** The order of the alerts in a payload does not matter, and neither do the remedies' failures: the final
      map and the multiset of dispatched fingerprints are the same. */
  lemma BatchPermutes(alerts: seq<Alert>, others: seq<Alert>, seen: Seen, now: int, cooldown: int,
                      store: Store, store': Store, kinds: Kinds, kinds': Kinds, ns: string,
                      faults: nat -> Faults, faults': nat -> Faults)
    requires cooldown > 0 && multiset(alerts) == multiset(others)
    ensures var o, o' := Batch(alerts, seen, store, now, cooldown, kinds, ns, faults),
                         Batch(others, seen, store', now, cooldown, kinds', ns, faults');
            && o.seen == o'.seen
            && multiset(FingerprintsOf(o.dispatched)) == multiset(FingerprintsOf(o'.dispatched))
  {
    BatchSpec(alerts, seen, store, now, cooldown, kinds, ns, faults);
    BatchSpec(others, seen, store', now, cooldown, kinds', ns, faults');
    assert forall x :: x in alerts <==> x in multiset(alerts);
    assert forall x :: x in others <==> x in multiset(others);
    assert Stamped(alerts, seen, now, cooldown) == Stamped(others, seen, now, cooldown);
    EmptyFiringPermutes(alerts, others);
    var f, f' := multiset(FingerprintsOf(Selected(alerts, seen, now, cooldown))),
                 multiset(FingerprintsOf(Selected(others, seen, now, cooldown)));
    forall fp: string
      ensures f[fp] == f'[fp]
    {
      SelectedCounts(alerts, seen, now, cooldown, fp);
      SelectedCounts(others, seen, now, cooldown, fp);
    }
  }

  /** For one schedule of alerts and times, what is dispatched and what is remembered do not depend on which
      remedies fail, how, or on the cluster. */
  lemma {:induction false} FailureIndependence(alerts: seq<Alert>, seen: Seen, now: int, cooldown: int, ns: string,
                                               store: Store, store': Store, kinds: Kinds, kinds': Kinds,
                                               faults: nat -> Faults, faults': nat -> Faults)
    ensures var o, o' := Batch(alerts, seen, store, now, cooldown, kinds, ns, faults),
                         Batch(alerts, seen, store', now, cooldown, kinds', ns, faults');
            o.seen == o'.seen && o.dispatched == o'.dispatched
  {
    if alerts != [] {
      FailureIndependence(alerts[..|alerts| - 1], seen, now, cooldown, ns, store, store', kinds, kinds', faults, faults');
    }
  }
}
