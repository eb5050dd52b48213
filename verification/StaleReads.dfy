/** What comes of deciding on an old version: a brake reported as engaged that is not, a minimum taken back. Exactly
    when, over every run. */
module StaleReads {
  import opened Options
  import opened JsonPatch
  import opened Cluster
  import opened Remedies
  import opened RemedyLaws
  import opened Webhook
  import opened OperatorRuns
  import Classifier

  /** A write of the operator to key that takes effect. */
  predicate LandsOn(s: State, st: Step, key: Key)
    requires s.versions != []
  {
    && Sends(s, st) && s.handlers[st.h].pc.job.key == key
    && Lands(Current(s), key, s.handlers[st.h].pc.act, st.fault)
  }

  /** What the last step of a run writes. */
  lemma LastWrite(cfg: Config, s: State, steps: seq<Step>)
    requires s.versions != [] && steps != []
    ensures var n := |steps| - 1;
            var r, r' := Exec(cfg, s, steps[..n]), Exec(cfg, s, steps);
            && r.versions <= r'.versions && |r'.versions| <= |r.versions| + 1
            && Current(r') == StoreAfter(r, steps[n])
  {
    StepWrites(cfg, Exec(cfg, s, steps[..|steps| - 1]), steps[|steps| - 1]);
  }

  // ----- the brake -----

  /** Others delete the ConfigMap, or patch the flag to anything but the word false. */
  predicate Lifts(st: Step, key: Key) {
    st.Foreign? && st.key == key &&
    match st.change
    case Merged(patch) => Names(patch, FLAG) && Lookup(patch, FLAG) != Some(PAUSED)
    case Created(_) => false
    case Deleted => true
  }

  /** A write of the remedy lands, or others patch the flag to the word false or create the ConfigMap with it. */
  predicate Engages(s: State, st: Step, key: Key)
    requires s.versions != []
  {
    LandsOn(s, st, key) ||
    (st.Foreign? && st.key == key &&
     match st.change
     case Merged(patch) => key in Current(s) && Lookup(patch, FLAG) == Some(PAUSED)
     case Created(obj) => key !in Current(s) && Lookup(obj, FLAG) == Some(PAUSED)
     case Deleted => false)
  }

  /** Any write the remedy decided on, from whatever version, that is not refused leaves the brake on. */
  lemma SendEngages(cfg: Config, s: State, st: Step, key: Key)
    requires Inv(cfg, s) && key.kind.ConfigMap? && LandsOn(s, st, key)
    ensures Engaged(StoreAfter(s, st), key)
  {
    var x := s.handlers[st.h];
    assert HandlerOk(cfg, s.dispatches, s.landed, x) && Decided(s.versions, x);
    LandedEngages(Current(s), key, ReadOf(s.versions, x.pc.job, x.pc.base), st.fault);
  }

  /** What a foreign patch does to it. */
  lemma PatchedFlag(store: Store, key: Key, patch: Object)
    requires key in store
    ensures Engaged(store[key := MergePatch(store[key], patch)], key)
            <==> Lookup(patch, FLAG) == Some(PAUSED) || (Engaged(store, key) && !Names(patch, FLAG))
    ensures Lookup(patch, FLAG) == Some(PAUSED) ==> Names(patch, FLAG)
  {
    MergeReads(store[key], patch, FLAG, PAUSED);
    if Lookup(patch, FLAG) == Some(PAUSED) {
      LeafIsNamed(patch, FLAG);
    }
  }

  lemma ForeignFlag(s: State, st: Step, key: Key)
    requires s.versions != [] && st.Foreign? && st.key == key
    ensures Engaged(StoreAfter(s, st), key) <==> Engages(s, st, key) || (Engaged(Current(s), key) && !Lifts(st, key))
  {
    if st.change.Merged? && key in Current(s) {
      PatchedFlag(Current(s), key, st.change.patch);
    }
  }

  lemma OtherFlag(s: State, st: Step, key: Key)
    requires s.versions != [] && !LandsOn(s, st, key) && !(st.Foreign? && st.key == key)
    ensures Engaged(StoreAfter(s, st), key) <==> Engaged(Current(s), key)
  {
  }

  /** What one step does to the brake. */
  lemma FlagStep(cfg: Config, s: State, st: Step, key: Key)
    requires Inv(cfg, s) && key.kind.ConfigMap?
    ensures Engaged(StoreAfter(s, st), key) <==> Engages(s, st, key) || (Engaged(Current(s), key) && !Lifts(st, key))
  {
    if LandsOn(s, st, key) {
      SendEngages(cfg, s, st, key);
    } else if st.Foreign? && st.key == key {
      ForeignFlag(s, st, key);
    } else {
      OtherFlag(s, st, key);
    }
  }

  /** After the given version the brake has been lifted, and not engaged again since: the last step lifts it, or
      does not engage it and finds it lifted. */
  predicate LiftedSince(cfg: Config, s: State, steps: seq<Step>, version: nat, key: Key)
    requires s.versions != []
  {
    steps != [] &&
    var before, st := steps[..|steps| - 1], steps[|steps| - 1];
    var r := Exec(cfg, s, before);
    || (version < |r.versions| && Lifts(st, key))
    || (LiftedSince(cfg, s, before, version, key) && !Engages(r, st, key))
  }

  lemma {:induction false} NotLiftedYet(cfg: Config, s: State, steps: seq<Step>, version: nat, key: Key)
    requires s.versions != []
    requires steps != [] ==> |Exec(cfg, s, steps[..|steps| - 1]).versions| <= version
    ensures !LiftedSince(cfg, s, steps, version, key)
  {
    if steps != [] {
      var before := steps[..|steps| - 1];
      if before != [] {
        LastWrite(cfg, s, before);
      }
      NotLiftedYet(cfg, s, before, version, key);
    }
  }

  lemma FlagLast(cfg: Config, s: State, steps: seq<Step>, key: Key)
    requires Initial(s) && key.kind.ConfigMap? && steps != []
    ensures var n := |steps| - 1;
            var r := Exec(cfg, s, steps[..n]);
            Engaged(Current(Exec(cfg, s, steps)), key)
            <==> Engages(r, steps[n], key) || (Engaged(Current(r), key) && !Lifts(steps[n], key))
  {
    var before := steps[..|steps| - 1];
    LastWrite(cfg, s, steps);
    RunKeeps(cfg, s, before);
    FlagStep(cfg, Exec(cfg, s, before), steps[|steps| - 1], key);
  }

  lemma EngageOrLift(s: State, st: Step, key: Key)
    requires s.versions != [] && Lifts(st, key)
    ensures !Engages(s, st, key)
  {
  }

  /** A brake that some version shows is still on exactly unless it has been lifted since. */
  lemma {:induction false} StillEngagedIff(cfg: Config, s: State, steps: seq<Step>, version: nat, key: Key)
    requires Initial(s) && key.kind.ConfigMap? && version < |Exec(cfg, s, steps).versions|
    requires Engaged(Exec(cfg, s, steps).versions[version], key)
    ensures Engaged(Current(Exec(cfg, s, steps)), key) <==> !LiftedSince(cfg, s, steps, version, key)
  {
    if steps == [] {
      NotLiftedYet(cfg, s, steps, version, key);
    } else {
      var before, st := steps[..|steps| - 1], steps[|steps| - 1];
      LastWrite(cfg, s, steps);
      if version < |Exec(cfg, s, before).versions| {
        StillEngagedIff(cfg, s, before, version, key);
        FlagLast(cfg, s, steps, key);
        if Lifts(st, key) {
          EngageOrLift(Exec(cfg, s, before), st, key);
        }
      } else {
        NotLiftedYet(cfg, s, steps, version, key);
      }
    }
  }

  /** The step with which an apply to key returns without error: a read that finds nothing to do, or a write that is
      acknowledged. */
  predicate Succeeds(s: State, st: Step, key: Key)
    requires s.versions != []
  {
    || (Sends(s, st) && s.handlers[st.h].pc.job.key == key
        && Perform(Current(s), key, s.handlers[st.h].pc.act, st.fault).ok)
    || (&& st.Get? && st.h in s.handlers && s.handlers[st.h].pc.Reading? && st.version < |s.versions|
        && s.handlers[st.h].pc.job.key == key
        && Decide(s.handlers[st.h].pc.job.rem, key, ReadObject(s.versions[st.version], key, st.fails)) == Stop(true))
  }

  /** Over every run, with reads any number of versions old: a CircuitBreak that reports success leaves the brake on
      exactly if it wrote, or nobody has lifted the brake since the version it read. */
  lemma SuccessMeansEngagedIff(cfg: Config, s: State, steps: seq<Step>, st: Step, key: Key)
    requires Initial(s) && key.kind.ConfigMap? && Succeeds(Exec(cfg, s, steps), st, key)
    ensures Engaged(Current(Next(cfg, Exec(cfg, s, steps), st)), key)
            <==> st.Send? || !LiftedSince(cfg, s, steps, st.version, key)
  {
    var r := Exec(cfg, s, steps);
    RunKeeps(cfg, s, steps);
    StepWrites(cfg, r, st);
    if st.Send? {
      SuccessLands(cfg, r, st, key);
      SendEngages(cfg, r, st, key);
    } else {
      NothingToDo(cfg, r, st, key);
      StillEngagedIff(cfg, s, steps, st.version, key);
    }
  }

  /** An acknowledged write has landed. */
  lemma SuccessLands(cfg: Config, s: State, st: Step, key: Key)
    requires Inv(cfg, s) && st.Send? && Succeeds(s, st, key)
    ensures LandsOn(s, st, key)
  {
    assert Decided(s.versions, s.handlers[st.h]);
  }

  /** A CircuitBreak that finds nothing to do has read a version with the brake on. */
  lemma NothingToDo(cfg: Config, s: State, st: Step, key: Key)
    requires Inv(cfg, s) && key.kind.ConfigMap? && st.Get? && Succeeds(s, st, key)
    ensures st.version < |s.versions| && Engaged(s.versions[st.version], key)
  {
    assert HandlerOk(cfg, s.dispatches, s.landed, s.handlers[st.h]);
  }

  /** An alert that calls for the brake. */
  predicate BrakeAlert(a: Alert) {
    a.status == "firing" && ("severity", "page") in a.labels.Items && ("service", "email-worker") in a.labels.Items
  }

  /** A brake alert that arrives first thing is about to read the flags. */
  lemma AboutToRead(cfg: Config, s: State, h: int, a: Alert)
    requires Initial(s) && cfg.kinds == Production() && BrakeAlert(a)
    ensures var r := Exec(cfg, s, [Arrive(h, [a]), Advance(h)]);
            && r.versions == s.versions
            && r.handlers == map[h := Handler(s.clock, [a], 0, Reading(Job(0, CircuitBreak, Key(ConfigMap, cfg.ns, "orders-svc-flags"))))]
  {
    var r1 := Next(cfg, s, Arrive(h, [a]));
    Classifier.DecisionTable(a.labels);
    ExecOneMore(cfg, s, [], Arrive(h, [a]));
    ExecOneMore(cfg, s, [Arrive(h, [a])], Advance(h));
    assert [] + [Arrive(h, [a])] == [Arrive(h, [a])];
    assert [Arrive(h, [a])] + [Advance(h)] == [Arrive(h, [a]), Advance(h)];
    assert r1.handlers == map[h := Handler(s.clock, [a], 0, AtAlert)];
  }

  /** Someone deletes the key. */
  lemma AfterDelete(cfg: Config, s: State, steps: seq<Step>, key: Key)
    requires s.versions != [] && key in Current(Exec(cfg, s, steps))
    ensures var r, r' := Exec(cfg, s, steps), Exec(cfg, s, steps + [Foreign(key, Merged(FieldPatch(FLAG, Null)))]);
            r'.handlers == r.handlers && r.versions <= r'.versions && !Engaged(Current(r'), key)
  {
    var store := Current(Exec(cfg, s, steps));
    ExecOneMore(cfg, s, steps, Foreign(key, Merged(FieldPatch(FLAG, Null))));
    NestLookup(FLAG, Null);
    MergeLeaf(store[key], Nest(FLAG, Null), FLAG);
  }

  /** The handler reads an old version that shows the brake on, has nothing to do, and moves on. */
  lemma AfterOldRead(cfg: Config, s: State, steps: seq<Step>, h: int, key: Key)
    requires s.versions != [] && h in Exec(cfg, s, steps).handlers
    requires Exec(cfg, s, steps).handlers[h].pc == Reading(Job(0, CircuitBreak, key))
    requires Engaged(Exec(cfg, s, steps).versions[0], key)
    ensures var r, r' := Exec(cfg, s, steps), Exec(cfg, s, steps + [Get(h, 0, false)]);
            && Succeeds(r, Get(h, 0, false), key)
            && r'.versions == r.versions && r'.handlers == r.handlers[h := NextAlert(r.handlers[h])]
  {
    ExecOneMore(cfg, s, steps, Get(h, 0, false));
  }

  lemma AfterAnswer(cfg: Config, s: State, steps: seq<Step>, h: int)
    requires s.versions != [] && h in Exec(cfg, s, steps).handlers
    requires var x := Exec(cfg, s, steps).handlers[h]; x.pc.AtAlert? && x.at >= |x.alerts|
    ensures var r, r' := Exec(cfg, s, steps), Exec(cfg, s, steps + [Advance(h)]);
            r'.versions == r.versions && r'.handlers == r.handlers[h := r.handlers[h].(pc := Answered202)]
  {
    ExecOneMore(cfg, s, steps, Advance(h));
  }

  /** The condition can fail: the key is deleted behind the back of a handler whose cache still shows the brake on. The
      apply succeeds, the request is answered, nothing has failed, and the brake is off. */
  lemma StaleSuccess(cfg: Config, s: State, h: int, a: Alert, key: Key) returns (steps: seq<Step>, read: Step)
    requires Initial(s) && cfg.kinds == Production() && key == Key(ConfigMap, cfg.ns, "orders-svc-flags")
    requires Engaged(Current(s), key) && BrakeAlert(a)
    ensures steps == [Arrive(h, [a]), Advance(h), Foreign(key, Merged(FieldPatch(FLAG, Null)))] && read == Get(h, 0, false)
    ensures Succeeds(Exec(cfg, s, steps), read, key)
    ensures var r := Exec(cfg, s, steps + [read] + [Advance(h)]);
            && r.handlers == map[h := Handler(s.clock, [a], 1, Answered202)]
            && !Engaged(Current(r), key)
  {
    var deleted := [Arrive(h, [a]), Advance(h)];
    AboutToRead(cfg, s, h, a);
    AfterDelete(cfg, s, deleted, key);
    steps, read := deleted + [Foreign(key, Merged(FieldPatch(FLAG, Null)))], Get(h, 0, false);
    AfterOldRead(cfg, s, steps, h, key);
    AfterAnswer(cfg, s, steps + [read], h);
  }

  // ----- minReplicas -----

  /** The step lands a scale-up whose target, a step above the minimum it read and capped, is below the current minimum. */
  predicate LandsLate(s: State, st: Step, key: Key)
    requires s.versions != [] && key in Current(s)
  {
    LandsOn(s, st, key) &&
    var pc := s.handlers[st.h].pc;
    && pc.base.Some? && pc.base.value < |s.versions| && key in s.versions[pc.base.value] && pc.job.rem.ScaleUp?
    && var read := s.versions[pc.base.value][key];
       Level(pc.job.rem.step, MinOf(read), MaxOf(read), 1) < MinOf(Current(s)[key])
  }

  /** What the API server and Go let these fields be. */
  ghost predicate Int32Fields(cfg: Config, versions: seq<Store>, key: Key) {
    && (forall v | v in versions && key in v :: Int32(MinOf(v[key])) && Int32(MaxOf(v[key])))
    && (forall k | k in cfg.kinds && cfg.kinds[k].ScaleUp? :: Int32(cfg.kinds[k].step))
  }

  /** In every reachable state: a step of the operator lowers minReplicas exactly if it is such a late write. */
  lemma FallsIff(cfg: Config, s: State, st: Step, key: Key)
    requires Inv(cfg, s) && key.kind.HPA? && key in Current(s)
    requires ForeignLeaves(st, key, MIN_REPLICAS) && Int32Fields(cfg, s.versions, key)
    ensures key in Current(Next(cfg, s, st))
    ensures MinOf(Current(Next(cfg, s, st))[key]) < MinOf(Current(s)[key]) <==> LandsLate(s, st, key)
  {
    StepWrites(cfg, s, st);
    if LandsOn(s, st, key) {
      SendFallsIff(cfg, s, st, key);
    } else {
      MinStays(s, st, key);
    }
  }

  lemma SendFallsIff(cfg: Config, s: State, st: Step, key: Key)
    requires Inv(cfg, s) && key.kind.HPA? && key in Current(s) && LandsOn(s, st, key) && Int32Fields(cfg, s.versions, key)
    ensures key in StoreAfter(s, st)
    ensures MinOf(StoreAfter(s, st)[key]) < MinOf(Current(s)[key]) <==> LandsLate(s, st, key)
  {
    var x := s.handlers[st.h];
    assert HandlerOk(cfg, s.dispatches, s.landed, x) && Decided(s.versions, x);
    var was := s.versions[x.pc.base.value];
    assert was in s.versions;
    LatePatchIff(x.pc.job.rem.step, was, Current(s), key, st.fault);
  }

  /** Nothing but a landing of the operator's moves minReplicas. */
  lemma MinStays(s: State, st: Step, key: Key)
    requires s.versions != [] && key in Current(s) && ForeignLeaves(st, key, MIN_REPLICAS) && !LandsOn(s, st, key)
    ensures key in StoreAfter(s, st) && MinOf(StoreAfter(s, st)[key]) == MinOf(Current(s)[key])
  {
    if st.Foreign? {
      ChangeFrame(Current(s), st.key, st.change, key, MIN_REPLICAS);
    }
  }

  /** Nothing has landed on key since the version. */
  predicate QuietSince(cfg: Config, s: State, steps: seq<Step>, version: nat, key: Key)
    requires s.versions != []
  {
    steps != [] ==>
      var before, st := steps[..|steps| - 1], steps[|steps| - 1];
      var r := Exec(cfg, s, before);
      QuietSince(cfg, s, before, version, key) && (LandsOn(r, st, key) ==> |r.versions| <= version)
  }

  /** Every write that lands on key was decided on a version since which nothing had landed on it. */
  predicate Unraced(cfg: Config, s: State, steps: seq<Step>, key: Key)
    requires s.versions != []
  {
    steps != [] ==>
      var before, st := steps[..|steps| - 1], steps[|steps| - 1];
      var r := Exec(cfg, s, before);
      Unraced(cfg, s, before, key) && (LandsOn(r, st, key) ==> Fresh(cfg, s, before, r.handlers[st.h].pc.base, key))
  }

  predicate Fresh(cfg: Config, s: State, steps: seq<Step>, base: Option<nat>, key: Key)
    requires s.versions != []
  {
    base.Some? ==> QuietSince(cfg, s, steps, base.value, key)
  }

  predicate SameMin(store: Store, store': Store, key: Key) {
    key in store && key in store' && MinOf(store[key]) == MinOf(store'[key])
  }

  /** Nobody but the operator writes minReplicas. */
  predicate OthersLeave(steps: seq<Step>, key: Key) {
    forall i: nat | i < |steps| :: ForeignLeaves(steps[i], key, MIN_REPLICAS)
  }

  lemma LeaveBefore(steps: seq<Step>, key: Key)
    requires steps != [] && OthersLeave(steps, key)
    ensures OthersLeave(steps[..|steps| - 1], key) && ForeignLeaves(steps[|steps| - 1], key, MIN_REPLICAS)
  {
    var before := steps[..|steps| - 1];
    forall i: nat | i < |before|
      ensures ForeignLeaves(before[i], key, MIN_REPLICAS)
    {
      assert before[i] == steps[i];
    }
  }

  lemma KeyStep(s: State, st: Step, key: Key)
    requires s.versions != [] && key in Current(s) && ForeignLeaves(st, key, MIN_REPLICAS)
    ensures key in StoreAfter(s, st)
  {
  }

  lemma {:induction false} KeyStays(cfg: Config, s: State, steps: seq<Step>, key: Key)
    requires s.versions != [] && key in Current(s) && OthersLeave(steps, key)
    ensures key in Current(Exec(cfg, s, steps))
  {
    if steps != [] {
      var before := steps[..|steps| - 1];
      LeaveBefore(steps, key);
      KeyStays(cfg, s, before, key);
      KeyStep(Exec(cfg, s, before), steps[|steps| - 1], key);
      LastWrite(cfg, s, steps);
    }
  }

  lemma MinLast(cfg: Config, s: State, steps: seq<Step>, key: Key)
    requires s.versions != [] && key in Current(s) && steps != [] && OthersLeave(steps, key)
    requires !LandsOn(Exec(cfg, s, steps[..|steps| - 1]), steps[|steps| - 1], key)
    ensures SameMin(Current(Exec(cfg, s, steps[..|steps| - 1])), Current(Exec(cfg, s, steps)), key)
  {
    LastWrite(cfg, s, steps);
    LeaveBefore(steps, key);
    KeyStays(cfg, s, steps[..|steps| - 1], key);
    MinStays(Exec(cfg, s, steps[..|steps| - 1]), steps[|steps| - 1], key);
  }

  /** A version since which nothing has landed shows the current minimum. */
  lemma {:induction false} QuietMin(cfg: Config, s: State, steps: seq<Step>, version: nat, key: Key)
    requires |s.versions| == 1 && key in Current(s) && OthersLeave(steps, key)
    requires version < |Exec(cfg, s, steps).versions| && QuietSince(cfg, s, steps, version, key)
    ensures SameMin(Exec(cfg, s, steps).versions[version], Current(Exec(cfg, s, steps)), key)
  {
    if steps != [] {
      var before := steps[..|steps| - 1];
      LastWrite(cfg, s, steps);
      if version < |Exec(cfg, s, before).versions| {
        LeaveBefore(steps, key);
        QuietMin(cfg, s, before, version, key);
        MinLast(cfg, s, steps, key);
      } else {
        KeyStays(cfg, s, steps, key);
      }
    }
  }

  /** A scale-up decided on a version with the current minimum raises it. */
  lemma FreshClimbs(cfg: Config, s: State, st: Step, key: Key)
    requires Inv(cfg, s) && key.kind.HPA? && key in Current(s) && LandsOn(s, st, key)
    requires var base := s.handlers[st.h].pc.base;
             base.Some? && base.value < |s.versions| ==> SameMin(s.versions[base.value], Current(s), key)
    ensures key in StoreAfter(s, st) && MinOf(StoreAfter(s, st)[key]) > MinOf(Current(s)[key])
  {
    var x := s.handlers[st.h];
    assert HandlerOk(cfg, s.dispatches, s.landed, x) && Decided(s.versions, x);
    var read := s.versions[x.pc.base.value][key];
    FieldAfter(MIN_REPLICAS, Num(ScaleTarget(x.pc.job.rem.step, MinOf(read), MaxOf(read))), Current(s)[key]);
  }

  predicate NoLower(store: Store, store': Store, key: Key) {
    key in store && key in store' && MinOf(store[key]) <= MinOf(store'[key])
  }

  lemma LastClimbs(cfg: Config, s: State, steps: seq<Step>, key: Key)
    requires Initial(s) && key.kind.HPA? && key in Current(s) && steps != []
    requires Unraced(cfg, s, steps, key) && OthersLeave(steps, key)
    ensures NoLower(Current(Exec(cfg, s, steps[..|steps| - 1])), Current(Exec(cfg, s, steps)), key)
  {
    var before, st := steps[..|steps| - 1], steps[|steps| - 1];
    var r := Exec(cfg, s, before);
    LeaveBefore(steps, key);
    if LandsOn(r, st, key) {
      var base := r.handlers[st.h].pc.base;
      RunKeeps(cfg, s, before);
      KeyStays(cfg, s, before, key);
      if base.Some? && base.value < |r.versions| {
        QuietMin(cfg, s, before, base.value, key);
      }
      FreshClimbs(cfg, r, st, key);
      LastWrite(cfg, s, steps);
    } else {
      MinLast(cfg, s, steps, key);
    }
  }

  /** Over every run in which no other write lands on the HPA between the version a scale-up reads and its own
      write, minReplicas never falls, whatever the arithmetic. */
  lemma {:induction false} NeverFalls(cfg: Config, s: State, steps: seq<Step>, key: Key, i: nat)
    requires Initial(s) && key.kind.HPA? && key in Current(s) && i <= |steps|
    requires Unraced(cfg, s, steps, key) && OthersLeave(steps, key)
    ensures NoLower(Current(Exec(cfg, s, steps[..i])), Current(Exec(cfg, s, steps)), key)
  {
    if i == |steps| {
      assert steps[..i] == steps;
      KeyStays(cfg, s, steps, key);
    } else {
      var before := steps[..|steps| - 1];
      assert before[..i] == steps[..i];
      LeaveBefore(steps, key);
      NeverFalls(cfg, s, before, key, i);
      LastClimbs(cfg, s, steps, key);
    }
  }
}
