/** How far the operator can drive an HPA: the rate limit of the dedupe and the race of the scale-ups, put together. */
module ReplicaBound {
  import opened Arithmetic
  import opened Options
  import opened JsonPatch
  import opened Cluster
  import opened Remedies
  import opened RemedyLaws
  import opened Cooldown
  import opened CooldownHistory
  import opened Webhook
  import opened OperatorRuns

  // ----- where the skew comes from -----

  /** The step with which a handler calls Acquire. */
  predicate TakesLock(s: State, st: Step) {
    && st.Advance? && st.h in s.handlers && s.handlers[st.h].pc.AtAlert?
    && s.handlers[st.h].at < |s.handlers[st.h].alerts| && Firing(s.handlers[st.h].alerts[s.handlers[st.h].at])
  }

  predicate InTime(s: State, st: Step, skew: int) {
    TakesLock(s, st) ==> s.clock - s.handlers[st.h].now <= skew
  }

  /** Whenever a handler takes the lock, at most skew has passed since it captured its time; what it does after its
      last Acquire may take as long as it likes. */
  predicate Timely(cfg: Config, s: State, steps: seq<Step>, skew: int)
    requires s.versions != []
  {
    steps != [] ==>
      var before, st := steps[..|steps| - 1], steps[|steps| - 1];
      Timely(cfg, s, before, skew) && InTime(Exec(cfg, s, before), st, skew)
  }

  ghost predicate ClockOk(s: State, skew: int) {
    && (forall h | h in s.handlers :: s.handlers[h].now <= s.clock)
    && (forall t | t in s.taken :: t.now <= s.clock)
    && (forall i, j | 0 <= i < j < |s.taken| :: s.taken[j].now >= s.taken[i].now - skew)
  }

  lemma StepClock(cfg: Config, s: State, st: Step, skew: int)
    requires s.versions != [] && ClockOk(s, skew) && InTime(s, st, skew)
    ensures ClockOk(Next(cfg, s, st), skew)
  {
    var s' := Next(cfg, s, st);
    if TakesLock(s, st) {
      var x := s.handlers[st.h];
      assert s'.taken == s.taken + [Taken(x.alerts[x.at], x.now)];
      assert forall i | 0 <= i < |s.taken| :: s.taken[i] in s.taken;
    } else {
      assert s'.taken == s.taken;
    }
    forall h | h in s'.handlers
      ensures s'.handlers[h].now <= s'.clock
    {
      assert h in s.handlers ==> s'.handlers[h].now == s.handlers[h].now;
    }
  }

  lemma {:induction false} TimelyClock(cfg: Config, s: State, steps: seq<Step>, skew: int)
    requires Initial(s) && Timely(cfg, s, steps, skew)
    ensures ClockOk(Exec(cfg, s, steps), skew)
  {
    if steps != [] {
      var before := steps[..|steps| - 1];
      TimelyClock(cfg, s, before, skew);
      StepClock(cfg, Exec(cfg, s, before), steps[|steps| - 1], skew);
    }
  }

  lemma {:induction false} CallAt(taken: seq<Taken>, j: nat)
    requires j < |taken|
    ensures CallsOf(taken)[j] == Call(taken[j].alert.fingerprint, taken[j].now)
  {
    if j < |taken| - 1 {
      CallAt(taken[..|taken| - 1], j);
    }
  }

  lemma {:induction false} SkewedStamps(taken: seq<Taken>, cooldown: int, skew: int)
    requires forall i, j | 0 <= i < j < |taken| :: taken[j].now >= taken[i].now - skew
    ensures Skewed(Run(CallsOf(taken), cooldown).stamps, skew)
  {
    if taken != [] {
      var n := |taken| - 1;
      var before, calls := taken[..n], CallsOf(taken);
      SkewedStamps(before, cooldown, skew);
      assert calls[..n] == CallsOf(before);
      StampsAreCalls(calls[..n], cooldown);
      var h := Run(calls[..n], cooldown).stamps;
      forall k | 0 <= k < |h|
        ensures calls[n].now >= h[k].now - skew
      {
        assert h[k] in h;
        var j :| 0 <= j < n && calls[j] == Call(h[k].fp, h[k].now);
        CallAt(taken, j);
      }
    }
  }

  /** If handlers reach the lock within skew of their arrival, accepted stamps are at most skew out of order. */
  lemma TimelyRunsAreSkewed(cfg: Config, s: State, steps: seq<Step>, skew: int)
    requires Initial(s) && Timely(cfg, s, steps, skew)
    ensures Skewed(Run(CallsOf(Exec(cfg, s, steps).taken), cfg.cooldown).stamps, skew)
  {
    TimelyClock(cfg, s, steps, skew);
    SkewedStamps(Exec(cfg, s, steps).taken, cfg.cooldown, skew);
  }

  /** The rate limit under every interleaving of handlers that reach the lock within skew of their arrival. */
  lemma ConcurrentRateLimit(cfg: Config, s: State, steps: seq<Step>, skew: int)
    requires Initial(s) && Timely(cfg, s, steps, skew) && 0 <= skew <= cfg.cooldown
    ensures Spaced(Run(CallsOf(Exec(cfg, s, steps).taken), cfg.cooldown).stamps, cfg.cooldown - skew)
  {
    TimelyRunsAreSkewed(cfg, s, steps, skew);
    RateLimit(CallsOf(Exec(cfg, s, steps).taken), cfg.cooldown, skew);
  }

  // ----- counting dispatches -----

  function CountTo(ds: seq<Dispatched>, key: Key, fps: set<string>): nat {
    if ds == [] then 0
    else
      var d := ds[|ds| - 1];
      CountTo(ds[..|ds| - 1], key, fps) + if d.key == key && d.alert.fingerprint in fps then 1 else 0
  }

  function LandedTo(ds: seq<Dispatched>, landed: set<nat>, key: Key): nat {
    if ds == [] then 0
    else
      var n := |ds| - 1;
      LandedTo(ds[..n], landed, key) + if n in landed && ds[n].key == key then 1 else 0
  }

  /** The fingerprints whose alerts have been dispatched to key. */
  function Routed(ds: seq<Dispatched>, key: Key): set<string> {
    set d | d in ds && d.key == key && d.alert.fingerprint != "" :: d.alert.fingerprint
  }

  lemma {:induction false} LandedOnce(ds: seq<Dispatched>, landed: set<nat>, key: Key, d: nat)
    requires d !in landed
    ensures LandedTo(ds, landed + {d}, key) == LandedTo(ds, landed, key) + if d < |ds| && ds[d].key == key then 1 else 0
  {
    if ds != [] {
      LandedOnce(ds[..|ds| - 1], landed, key, d);
    }
  }

  lemma LandedUnlogged(ds: seq<Dispatched>, landed: set<nat>, key: Key, d: Dispatched)
    requires |ds| !in landed
    ensures LandedTo(ds + [d], landed, key) == LandedTo(ds, landed, key)
  {
    assert (ds + [d])[..|ds|] == ds;
  }

  lemma {:induction false} LandedIsLogged(ds: seq<Dispatched>, landed: set<nat>, key: Key, fps: set<string>)
    requires forall d | d in ds && d.key == key :: d.alert.fingerprint in fps
    ensures LandedTo(ds, landed, key) <= CountTo(ds, key, fps)
  {
    if ds != [] {
      assert forall d | d in ds[..|ds| - 1] :: d in ds;
      LandedIsLogged(ds[..|ds| - 1], landed, key, fps);
    }
  }

  lemma {:induction false} CountSplits(ds: seq<Dispatched>, key: Key, fps: set<string>, fp: string)
    requires fp !in fps
    ensures CountTo(ds, key, fps + {fp}) == CountTo(ds, key, fps) + CountTo(ds, key, {fp})
  {
    if ds != [] {
      CountSplits(ds[..|ds| - 1], key, fps, fp);
    }
  }

  lemma {:induction false} CountBounded(ds: seq<Dispatched>, key: Key, fps: set<string>, each: nat)
    requires forall fp | fp in fps :: CountTo(ds, key, {fp}) <= each
    ensures CountTo(ds, key, fps) <= |fps| * each
    decreases fps
  {
    if fp :| fp in fps {
      var rest := fps - {fp};
      CountBounded(ds, key, rest, each);
      CountSplits(ds, key, rest, fp);
      assert fps == rest + {fp};
      Distribute(|rest|, each);
    } else {
      CountNone(ds, key);
    }
  }

  lemma {:induction false} CountNone(ds: seq<Dispatched>, key: Key)
    ensures CountTo(ds, key, {}) == 0
  {
    if ds != [] {
      CountNone(ds[..|ds| - 1], key);
    }
  }

  ghost predicate Within(h: seq<Stamp>, lo: int, hi: int) {
    forall s | s in h :: lo <= s.now <= hi
  }

  lemma CountAppend(ds: seq<Dispatched>, more: seq<Dispatched>, key: Key, fp: string)
    requires |more| <= 1
    ensures CountTo(ds + more, key, {fp})
            == CountTo(ds, key, {fp})
               + if more != [] && more[0].key == key && more[0].alert.fingerprint == fp then 1 else 0
  {
    if more == [] {
      assert ds + more == ds;
    } else {
      assert (ds + more)[..|ds|] == ds;
    }
  }

  lemma CountExtend(h: seq<Stamp>, fp: string, now: int, ok: bool, f: string, lo: int, hi: int)
    ensures CountIn(Extend(h, fp, now, ok), f, lo, hi)
            == CountIn(h, f, lo, hi) + if ok && fp != "" && fp == f && lo <= now <= hi then 1 else 0
  {
    if ok && fp != "" {
      assert (h + [Stamp(fp, now)])[..|h|] == h;
    }
  }

  lemma ExtendWithin(h: seq<Stamp>, fp: string, now: int, ok: bool, lo: int, hi: int)
    requires Within(Extend(h, fp, now, ok), lo, hi)
    ensures Within(h, lo, hi) && (ok && fp != "" ==> lo <= now <= hi)
  {
    var h' := Extend(h, fp, now, ok);
    assert forall s | s in h :: s in h';
    if ok && fp != "" {
      assert h'[|h|] == Stamp(fp, now) && h'[|h|] in h';
    }
  }

  /** One more passage through the lock adds a dispatch of fp only if it adds a stamp of fp in the interval. */
  lemma DispatchIsStamp(cfg: Config, before: seq<Taken>, t: Taken, key: Key, fp: string, lo: int, hi: int)
    requires fp != "" && Within(Run(CallsOf(before + [t]), cfg.cooldown).stamps, lo, hi)
    ensures var h, h' := Run(CallsOf(before), cfg.cooldown).stamps, Run(CallsOf(before + [t]), cfg.cooldown).stamps;
            && Within(h, lo, hi)
            && CountTo(DispatchLog(cfg, before + [t]), key, {fp}) - CountTo(DispatchLog(cfg, before), key, {fp})
               <= CountIn(h', fp, lo, hi) - CountIn(h, fp, lo, hi)
  {
    var h, ok, f := Run(CallsOf(before), cfg.cooldown).stamps, Accepts(cfg, before, t), t.alert.fingerprint;
    TakeOne(cfg, before, t);
    ExtendWithin(h, f, t.now, ok, lo, hi);
    CountExtend(h, f, t.now, ok, fp, lo, hi);
    CountAppend(DispatchLog(cfg, before), if ok then Entry(cfg, t.alert) else [], key, fp);
  }

  /** Every dispatch of a fingerprint is one of its accepted stamps. */
  lemma {:induction false} DispatchesAreStamps(cfg: Config, taken: seq<Taken>, key: Key, fp: string, lo: int, hi: int)
    requires fp != "" && Within(Run(CallsOf(taken), cfg.cooldown).stamps, lo, hi)
    ensures CountTo(DispatchLog(cfg, taken), key, {fp}) <= CountIn(Run(CallsOf(taken), cfg.cooldown).stamps, fp, lo, hi)
  {
    if taken != [] {
      var before, t := taken[..|taken| - 1], taken[|taken| - 1];
      assert before + [t] == taken;
      DispatchIsStamp(cfg, before, t, key, fp, lo, hi);
      DispatchesAreStamps(cfg, before, key, fp, lo, hi);
    }
  }

  // ----- the HPA under concurrent scale-ups -----

  /** An HPA and what it started from. */
  datatype Hpa = Hpa(key: Key, step: int, m0: int, max: int)

  ghost predicate AtLevel(p: Hpa, x: int, n: nat) {
    exists j: nat :: j <= n && x == Level(p.step, p.m0, p.max, j)
  }

  /** Every version of the HPA, and every patch on its way to it, is a level that the patches landed so far can explain. */
  ghost predicate Bounded(s: State, p: Hpa) {
    var n := LandedTo(s.dispatches, s.landed, p.key);
    && (forall v | v in s.versions :: VersionOk(p, v, n))
    && (forall h | h in s.handlers && s.handlers[h].pc.Writing? && s.handlers[h].pc.job.key == p.key ::
          PatchOk(p, s.handlers[h].pc.act, n + 1))
  }

  ghost predicate PatchOk(p: Hpa, act: Action, n: nat) {
    act.SendPatch? && exists x :: act.patch == Nest(MIN_REPLICAS, Num(x)) && AtLevel(p, x, n)
  }

  predicate StartsAt(s: State, p: Hpa)
    requires s.versions != []
  {
    p.key in Current(s) && MinOf(Current(s)[p.key]) == p.m0 && MaxOf(Current(s)[p.key]) == p.max
  }

  /** What the fields are in Go; an HPA's minimum does not exceed its maximum. */
  predicate Fits(p: Hpa) {
    Int32(p.step) && Int32(p.m0) && Int32(p.max) && p.m0 <= p.max
  }

  /** The scale-ups of the configuration use p's step. */
  predicate OnlyScaleUps(cfg: Config, p: Hpa) {
    && p.key.kind.HPA? && Fits(p)
    && forall k | k in cfg.kinds && cfg.kinds[k].ScaleUp? :: EffectiveStep(cfg.kinds[k].step) == EffectiveStep(p.step)
  }

  predicate LeavesReplicas(p: Hpa, st: Step) {
    ForeignLeaves(st, p.key, MIN_REPLICAS) && ForeignLeaves(st, p.key, MAX_REPLICAS)
  }

  lemma LevelMonotone(p: Hpa, x: int, n: nat, n': nat)
    requires AtLevel(p, x, n) && n <= n'
    ensures AtLevel(p, x, n')
  {
    var j: nat :| j <= n && x == Level(p.step, p.m0, p.max, j);
    assert j <= n' && x == Level(p.step, p.m0, p.max, j);
  }

  lemma PatchMonotone(p: Hpa, act: Action, n: nat, n': nat)
    requires PatchOk(p, act, n) && n <= n'
    ensures PatchOk(p, act, n')
  {
    var x :| act.patch == Nest(MIN_REPLICAS, Num(x)) && AtLevel(p, x, n);
    LevelMonotone(p, x, n, n');
  }

  /** What a scale-up decides on any version at some level goes one level up. */
  lemma DecisionClimbs(p: Hpa, rem: Remedy, read: Read, n: nat)
    requires Fits(p) && rem.ScaleUp? && EffectiveStep(rem.step) == EffectiveStep(p.step)
    requires read.Found? ==> MaxOf(read.obj) == p.max && AtLevel(p, MinOf(read.obj), n)
    requires !Decide(rem, p.key, read).Stop?
    ensures PatchOk(p, Decide(rem, p.key, read), n + 1)
  {
    var m := MinOf(read.obj);
    var j: nat :| j <= n && m == Level(p.step, p.m0, p.max, j);
    BumpOfLevel(p.step, p.m0, p.max, j);
    var target := ScaleTarget(rem.step, m, p.max);
    assert target == Level(p.step, p.m0, p.max, j + 1);
    assert AtLevel(p, target, n + 1);
    assert Decide(rem, p.key, read).patch == Nest(MIN_REPLICAS, Num(target));
  }

  lemma PatchLands(p: Hpa, doc: Object, act: Action, n: nat)
    requires PatchOk(p, act, n) && MaxOf(doc) == p.max
    ensures MaxOf(MergePatch(doc, act.patch)) == p.max && AtLevel(p, MinOf(MergePatch(doc, act.patch)), n)
  {
    var x :| act.patch == Nest(MIN_REPLICAS, Num(x)) && AtLevel(p, x, n);
    FieldAfter(MIN_REPLICAS, Num(x), doc);
    assert Apart(MIN_REPLICAS[1..], MAX_REPLICAS[1..]) && Apart(MIN_REPLICAS, MAX_REPLICAS);
    NestNames(MIN_REPLICAS, Num(x), MAX_REPLICAS);
    MergeFrame(doc, act.patch, MAX_REPLICAS);
  }

  ghost predicate VersionOk(p: Hpa, v: Store, n: nat) {
    p.key in v && MaxOf(v[p.key]) == p.max && AtLevel(p, MinOf(v[p.key]), n)
  }

  /** A handler moves without writing. */
  lemma Unwritten(s: State, s': State, h: int, p: Hpa)
    requires Bounded(s, p) && s'.versions == s.versions && h in s'.handlers && s'.handlers == s.handlers[h := s'.handlers[h]]
    requires LandedTo(s'.dispatches, s'.landed, p.key) == LandedTo(s.dispatches, s.landed, p.key)
    requires var x := s'.handlers[h];
             x.pc.Writing? && x.pc.job.key == p.key ==> PatchOk(p, x.pc.act, LandedTo(s.dispatches, s.landed, p.key) + 1)
    ensures Bounded(s', p)
  {
  }

  lemma WrittenVersion(p: Hpa, was: Store, key: Key, act: Action, fault: Fault, n: nat)
    requires VersionOk(p, was, n) && (key == p.key ==> PatchOk(p, act, n + 1))
    ensures VersionOk(p, Perform(was, key, act, fault).store, n + if key == p.key && Lands(was, key, act, fault) then 1 else 0)
  {
    LevelMonotone(p, MinOf(was[p.key]), n, n + 1);
    if key == p.key {
      PatchLands(p, was[p.key], act, n + 1);
    }
  }

  /** A send counts if it is to p and takes effect. */
  lemma SendCounts(cfg: Config, s: State, h: int, fault: Fault, p: Hpa)
    requires Inv(cfg, s) && h in s.handlers && s.handlers[h].pc.Writing?
    ensures var job := s.handlers[h].pc.job;
            LandedTo(s.dispatches, SendTo(s, h, fault).landed, p.key)
            == LandedTo(s.dispatches, s.landed, p.key)
               + if job.key == p.key && Lands(Current(s), job.key, s.handlers[h].pc.act, fault) then 1 else 0
  {
    assert HandlerOk(cfg, s.dispatches, s.landed, s.handlers[h]);
    LandedOnce(s.dispatches, s.landed, p.key, s.handlers[h].pc.job.id);
  }

  lemma VersionsAge(p: Hpa, versions: seq<Store>, n: nat, n': nat)
    requires n <= n' && forall v | v in versions :: VersionOk(p, v, n)
    ensures forall v | v in versions :: VersionOk(p, v, n')
  {
    forall v | v in versions
      ensures VersionOk(p, v, n')
    {
      assert VersionOk(p, v, n);
      LevelMonotone(p, MinOf(v[p.key]), n, n');
    }
  }

  lemma SendBounded(cfg: Config, s: State, h: int, fault: Fault, p: Hpa)
    requires Inv(cfg, s) && Bounded(s, p)
    requires h in s.handlers && s.handlers[h].pc.Writing?
    ensures Bounded(SendTo(s, h, fault), p)
  {
    var x, n := s.handlers[h], LandedTo(s.dispatches, s.landed, p.key);
    var n' := LandedTo(s.dispatches, SendTo(s, h, fault).landed, p.key);
    SendCounts(cfg, s, h, fault, p);
    assert Current(s) in s.versions;
    WrittenVersion(p, Current(s), x.pc.job.key, x.pc.act, fault, n);
    VersionsAge(p, s.versions, n, n');
    PatchesAge(s, h, p, n + 1, n' + 1);
  }

  /** The patches still on their way when h has sent its own. */
  lemma PatchesAge(s: State, h: int, p: Hpa, n: nat, n': nat)
    requires n <= n' && h in s.handlers
    requires forall g | g in s.handlers && s.handlers[g].pc.Writing? && s.handlers[g].pc.job.key == p.key ::
               PatchOk(p, s.handlers[g].pc.act, n)
    ensures var hs := s.handlers[h := NextAlert(s.handlers[h])];
            forall g | g in hs && hs[g].pc.Writing? && hs[g].pc.job.key == p.key :: PatchOk(p, hs[g].pc.act, n')
  {
    forall g | g in s.handlers && g != h && s.handlers[g].pc.Writing? && s.handlers[g].pc.job.key == p.key
      ensures PatchOk(p, s.handlers[g].pc.act, n')
    {
      PatchMonotone(p, s.handlers[g].pc.act, n, n');
    }
  }

  lemma AdvanceBounded(cfg: Config, s: State, h: int, p: Hpa)
    requires Bounded(s, p) && p.key.kind.HPA? && |s.dispatches| !in s.landed
    requires h in s.handlers && s.handlers[h].pc.AtAlert?
    ensures Bounded(AdvanceTo(cfg, s, h), p)
  {
    var s' := AdvanceTo(cfg, s, h);
    if s'.dispatches != s.dispatches {
      LandedUnlogged(s.dispatches, s.landed, p.key, s'.dispatches[|s.dispatches|]);
    }
    Unwritten(s, s', h, p);
  }

  lemma GetBounded(cfg: Config, s: State, h: int, version: nat, fails: bool, p: Hpa)
    requires Inv(cfg, s) && Bounded(s, p) && OnlyScaleUps(cfg, p)
    requires h in s.handlers && s.handlers[h].pc.Reading? && version < |s.versions|
    ensures Bounded(GetTo(s, h, version, fails), p)
  {
    var s', job, v := GetTo(s, h, version, fails), s.handlers[h].pc.job, s.versions[version];
    if job.key == p.key && s'.handlers[h].pc.Writing? {
      assert HandlerOk(cfg, s.dispatches, s.landed, s.handlers[h]);
      assert v in s.versions;
      DecisionClimbs(p, job.rem, ReadObject(v, p.key, fails), LandedTo(s.dispatches, s.landed, p.key));
    }
    Unwritten(s, s', h, p);
  }

  lemma ForeignBounded(cfg: Config, s: State, key: Key, change: Change, p: Hpa)
    requires s.versions != [] && Bounded(s, p) && LeavesReplicas(p, Foreign(key, change))
    ensures Bounded(Next(cfg, s, Foreign(key, change)), p)
  {
    var was, n := Current(s), LandedTo(s.dispatches, s.landed, p.key);
    assert was in s.versions;
    ChangeFrame(was, key, change, p.key, MIN_REPLICAS);
    ChangeFrame(was, key, change, p.key, MAX_REPLICAS);
    assert VersionOk(p, Changed(was, key, change), n);
  }

  lemma StepBounded(cfg: Config, s: State, st: Step, p: Hpa)
    requires Inv(cfg, s) && Bounded(s, p) && OnlyScaleUps(cfg, p) && LeavesReplicas(p, st)
    ensures Bounded(Next(cfg, s, st), p)
  {
    var s' := Next(cfg, s, st);
    match st {
      case Advance(h) =>
        if h in s.handlers && s.handlers[h].pc.AtAlert? {
          AdvanceBounded(cfg, s, h, p);
        }
      case Send(h, fault) =>
        if h in s.handlers && s.handlers[h].pc.Writing? {
          SendBounded(cfg, s, h, fault, p);
        }
      case Get(h, version, fails) =>
        if h in s.handlers && s.handlers[h].pc.Reading? && version < |s.versions| {
          GetBounded(cfg, s, h, version, fails, p);
        }
      case Foreign(key, change) =>
        ForeignBounded(cfg, s, key, change, p);
      case Arrive(h, alerts) =>
        if h !in s.handlers {
          Unwritten(s, s', h, p);
        }
      case Tick(_) =>
    }
  }

  lemma {:induction false} RunBounded(cfg: Config, s: State, steps: seq<Step>, p: Hpa)
    requires Initial(s) && StartsAt(s, p) && OnlyScaleUps(cfg, p) && forall st | st in steps :: LeavesReplicas(p, st)
    ensures Inv(cfg, Exec(cfg, s, steps)) && Bounded(Exec(cfg, s, steps), p)
  {
    RunKeeps(cfg, s, steps);
    if steps == [] {
      assert Level(p.step, p.m0, p.max, 0) == p.m0;
      assert AtLevel(p, p.m0, 0);
    } else {
      var n := |steps| - 1;
      assert forall st | st in steps[..n] :: st in steps;
      RunBounded(cfg, s, steps[..n], p);
      StepBounded(cfg, Exec(cfg, s, steps[..n]), steps[n], p);
    }
  }

  /** Under every interleaving of any number of scale-ups, with reads any number of versions old and writes that
      fail or lose their reply, minReplicas is always some number of whole steps above its start, capped, and
      never more steps than patches have landed on it. */
  lemma HpaInterleaving(cfg: Config, s: State, steps: seq<Step>, p: Hpa)
    requires Initial(s) && StartsAt(s, p) && OnlyScaleUps(cfg, p) && forall st | st in steps :: LeavesReplicas(p, st)
    ensures var r := Exec(cfg, s, steps);
            && p.key in Current(r)
            && MaxOf(Current(r)[p.key]) == p.max
            && p.m0 <= MinOf(Current(r)[p.key]) <= p.max
            && exists j: nat :: j <= LandedTo(r.dispatches, r.landed, p.key)
                                && MinOf(Current(r)[p.key]) == Min(p.max, p.m0 + j * EffectiveStep(p.step))
  {
    RunBounded(cfg, s, steps, p);
    var r := Exec(cfg, s, steps);
    assert Current(r) in r.versions;
    var j: nat :| j <= LandedTo(r.dispatches, r.landed, p.key) && MinOf(Current(r)[p.key]) == Level(p.step, p.m0, p.max, j);
    BumpOfLevel(p.step, p.m0, p.max, j);
    assert MinOf(Current(r)[p.key]) == Min(p.max, p.m0 + j * EffectiveStep(p.step));
  }

  /** The most dispatches that may reach key if every fingerprint is acted on at most a given number of times. */
  function DispatchBudget(ds: seq<Dispatched>, key: Key, perFingerprint: nat): nat {
    CountTo(ds, key, {""}) + |Routed(ds, key)| * perFingerprint
  }

  /** The accepted stamps of a run lie in the interval and are at most skew out of order. */
  ghost predicate StampsWithin(cfg: Config, taken: seq<Taken>, skew: int, lo: int, length: nat) {
    var h := Run(CallsOf(taken), cfg.cooldown).stamps;
    Skewed(h, skew) && Within(h, lo, lo + length)
  }

  predicate WithinBudget(r: State, p: Hpa, perFingerprint: nat)
    requires r.versions != []
  {
    && p.key in Current(r)
    && MinOf(Current(r)[p.key])
       <= Min(p.max, p.m0 + EffectiveStep(p.step) * DispatchBudget(r.dispatches, p.key, perFingerprint))
  }

  /** End to end: over any run whose accepted stamps lie in an interval of a given length and are at most skew
      out of order, minReplicas rises by at most one step per dispatch without fingerprint and, for each
      fingerprint routed to the HPA, length / (cooldown - skew) + 1 steps. */
  lemma ReplicasBounded(cfg: Config, s: State, steps: seq<Step>, p: Hpa, skew: int, lo: int, length: nat)
    requires Initial(s) && StartsAt(s, p) && OnlyScaleUps(cfg, p) && forall st | st in steps :: LeavesReplicas(p, st)
    requires 0 <= skew < cfg.cooldown && StampsWithin(cfg, Exec(cfg, s, steps).taken, skew, lo, length)
    ensures WithinBudget(Exec(cfg, s, steps), p, PerWindow(length, cfg.cooldown - skew))
  {
    RunBounded(cfg, s, steps, p);
    StateWithinBudget(cfg, Exec(cfg, s, steps), p, skew, lo, length, PerWindow(length, cfg.cooldown - skew));
  }

  lemma StateWithinBudget(cfg: Config, r: State, p: Hpa, skew: int, lo: int, length: nat, each: nat)
    requires LogOk(cfg, r) && Bounded(r, p) && 0 <= skew < cfg.cooldown && StampsWithin(cfg, r.taken, skew, lo, length)
    requires each == PerWindow(length, cfg.cooldown - skew)
    ensures WithinBudget(r, p, each)
  {
    RateLimit(CallsOf(r.taken), cfg.cooldown, skew);
    EachPerWindow(Run(CallsOf(r.taken), cfg.cooldown).stamps, lo, length, cfg.cooldown - skew);
    StateBounded(cfg, r, p, lo, lo + length, each);
  }

  lemma StateBounded(cfg: Config, r: State, p: Hpa, lo: int, hi: int, each: nat)
    requires LogOk(cfg, r) && Bounded(r, p)
    requires var h := Run(CallsOf(r.taken), cfg.cooldown).stamps; Within(h, lo, hi) && EachAtMost(h, lo, hi, each)
    ensures WithinBudget(r, p, each)
  {
    BudgetHolds(cfg, r, p.key, lo, hi, each);
    assert VersionOk(p, Current(r), LandedTo(r.dispatches, r.landed, p.key));
    Climb(p, MinOf(Current(r)[p.key]), LandedTo(r.dispatches, r.landed, p.key), DispatchBudget(r.dispatches, p.key, each));
  }

  lemma Climb(p: Hpa, m: int, landed: nat, budget: nat)
    requires AtLevel(p, m, landed) && landed <= budget
    ensures m <= Min(p.max, p.m0 + EffectiveStep(p.step) * budget)
  {
    var j: nat :| j <= landed && m == Level(p.step, p.m0, p.max, j);
    MultiplyMonotone(j, budget, EffectiveStep(p.step));
  }

  lemma BudgetHolds(cfg: Config, r: State, key: Key, lo: int, hi: int, each: nat)
    requires LogOk(cfg, r)
    requires var h := Run(CallsOf(r.taken), cfg.cooldown).stamps; Within(h, lo, hi) && EachAtMost(h, lo, hi, each)
    ensures LandedTo(r.dispatches, r.landed, key) <= DispatchBudget(r.dispatches, key, each)
  {
    forall fp | fp in Routed(r.dispatches, key)
      ensures CountTo(r.dispatches, key, {fp}) <= each
    {
      DispatchesAreStamps(cfg, r.taken, key, fp, lo, hi);
    }
    LandedWithinBudget(r.dispatches, r.landed, key, each);
  }

  lemma LandedWithinBudget(ds: seq<Dispatched>, landed: set<nat>, key: Key, each: nat)
    requires forall fp | fp in Routed(ds, key) :: CountTo(ds, key, {fp}) <= each
    ensures LandedTo(ds, landed, key) <= DispatchBudget(ds, key, each)
  {
    var routed := Routed(ds, key);
    CountBounded(ds, key, routed, each);
    CountSplits(ds, key, routed, "");
    LandedIsLogged(ds, landed, key, routed + {""});
  }
}
