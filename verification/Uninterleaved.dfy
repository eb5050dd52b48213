/** A request that nobody interrupts: the transition system then does what the sequential handler does. */
module Uninterleaved {
  import opened Options
  import opened Cluster
  import opened Remedies
  import opened Cooldown
  import opened Webhook
  import opened OperatorRuns

  /** A run of one handler's own steps, in which each read finds the current version. */
  predicate Alone(cfg: Config, s: State, h: int, steps: seq<Step>)
    requires s.versions != []
  {
    steps != [] ==>
      var before, st := steps[..|steps| - 1], steps[|steps| - 1];
      var r := Exec(cfg, s, before);
      Alone(cfg, s, h, before) && OwnStep(r, h, st) && (st.Get? ==> st.version == |r.versions| - 1)
  }

  // ----- what befell the remedies of a run -----

  /** The faults of the remedy of each alert, by the alert's place in the payload. */
  type FaultLog = map<nat, Faults>

  function FaultAt(m: FaultLog, i: nat): Faults {
    if i in m then m[i] else Faults(false, Fine)
  }

  function Befalls(m: FaultLog): nat -> Faults {
    (i: nat) => FaultAt(m, i)
  }

  function Noted(m: FaultLog, at: nat, st: Step): FaultLog {
    match st
    case Get(_, _, fails) => m[at := FaultAt(m, at).(readFails := fails)]
    case Send(_, fault) => m[at := FaultAt(m, at).(write := fault)]
    case _ => m
  }

  function FaultsOf(cfg: Config, s: State, h: int, steps: seq<Step>): FaultLog
    requires s.versions != []
  {
    if steps == [] then map[]
    else
      var before, st := steps[..|steps| - 1], steps[|steps| - 1];
      var m, r := FaultsOf(cfg, s, h, before), Exec(cfg, s, before);
      if h in r.handlers then Noted(m, r.handlers[h].at, st) else m
  }

  /** What the accepted alerts of a payload add to the dispatch log. */
  function LogOf(cfg: Config, accepted: seq<Alert>): seq<Dispatched> {
    if accepted == [] then []
    else LogOf(cfg, accepted[..|accepted| - 1]) + Entry(cfg, accepted[|accepted| - 1])
  }

  lemma LogOneMore(cfg: Config, log: seq<Dispatched>, accepted: seq<Alert>, a: Alert)
    ensures log + LogOf(cfg, accepted + [a]) == log + LogOf(cfg, accepted) + Entry(cfg, a)
  {
    assert (accepted + [a])[..|accepted|] == accepted;
  }

  lemma LogSkips(cfg: Config, accepted: seq<Alert>, a: Alert)
    requires !HasRemedy(cfg, a)
    ensures LogOf(cfg, accepted + [a]) == LogOf(cfg, accepted)
  {
    assert (accepted + [a])[..|accepted|] == accepted;
  }

  // ----- the sequential handler, one alert at a time -----

  /** Where a request starts. */
  datatype Start = Start(seen: Seen, store: Store, dispatches: seq<Dispatched>, now: int, alerts: seq<Alert>)

  /** The sequential outcome of the first n alerts. */
  function Sequential(cfg: Config, b: Start, n: nat, m: FaultLog): Outcome
    requires n <= |b.alerts|
  {
    Batch(b.alerts[..n], b.seen, b.store, b.now, cfg.cooldown, cfg.kinds, cfg.ns, Befalls(m))
  }

  lemma SequentialNext(cfg: Config, b: Start, n: nat, m: FaultLog)
    requires n < |b.alerts|
    ensures Sequential(cfg, b, n + 1, m)
            == HandleOne(Sequential(cfg, b, n, m), b.alerts[n], b.now, cfg.cooldown, cfg.kinds, cfg.ns, FaultAt(m, n))
  {
    BatchNext(b.alerts, n, b.seen, b.store, b.now, cfg.cooldown, cfg.kinds, cfg.ns, Befalls(m));
  }

  /** Faults of later alerts do not matter. */
  lemma {:induction false} SequentialFaults(cfg: Config, b: Start, n: nat, m: FaultLog, m': FaultLog)
    requires n <= |b.alerts| && forall i: nat | i < n :: FaultAt(m, i) == FaultAt(m', i)
    ensures Sequential(cfg, b, n, m) == Sequential(cfg, b, n, m')
  {
    if n > 0 {
      SequentialFaults(cfg, b, n - 1, m, m');
      SequentialNext(cfg, b, n - 1, m);
      SequentialNext(cfg, b, n - 1, m');
    }
  }

  /** The sequential handler and one firing alert. */
  lemma OneFiring(cfg: Config, b: Start, n: nat, m: FaultLog)
    requires n < |b.alerts| && Firing(b.alerts[n])
    ensures var o, o', a := Sequential(cfg, b, n, m), Sequential(cfg, b, n + 1, m), b.alerts[n];
            var v := AcquireStep(o.seen, a.fingerprint, b.now, cfg.cooldown);
            && o'.seen == v.seen
            && o'.dispatched == (if v.ok then o.dispatched + [a] else o.dispatched)
            && o'.store == if v.ok && HasRemedy(cfg, a) then ApplyRemedy(RemedyFor(cfg, a), o.store, TargetOf(cfg, a), FaultAt(m, n)).store
                           else o.store
  {
    SequentialNext(cfg, b, n, m);
  }

  lemma OneUnremedied(cfg: Config, b: Start, n: nat, m: FaultLog, seen: Seen)
    requires n < |b.alerts| && Firing(b.alerts[n]) && !HasRemedy(cfg, b.alerts[n]) && seen == Sequential(cfg, b, n, m).seen
    requires AcquireStep(seen, b.alerts[n].fingerprint, b.now, cfg.cooldown).ok
    ensures var o, o' := Sequential(cfg, b, n, m), Sequential(cfg, b, n + 1, m);
            && o'.seen == AcquireStep(seen, b.alerts[n].fingerprint, b.now, cfg.cooldown).seen
            && o'.dispatched == o.dispatched + [b.alerts[n]] && o'.store == o.store
  {
    OneFiring(cfg, b, n, m);
  }

  // ----- the two in step -----

  /** Between two alerts: map, cluster and log are the sequential ones. */
  predicate Between(cfg: Config, b: Start, r: State, o: Outcome)
    requires r.versions != []
  {
    r.seen == o.seen && Current(r) == o.store && r.dispatches == b.dispatches + LogOf(cfg, o.dispatched)
  }

  /** Inside the remedy of alert a: the lock has been taken, the cluster is still that of the alerts before. */
  predicate Inside(cfg: Config, b: Start, r: State, x: Handler, o: Outcome, faults: Faults)
    requires r.versions != [] && Busy(x) && x.at < |b.alerts|
  {
    var a, v := b.alerts[x.at], AcquireStep(o.seen, b.alerts[x.at].fingerprint, b.now, cfg.cooldown);
    && Firing(a) && v.ok && HasRemedy(cfg, a)
    && x.pc.job.rem == RemedyFor(cfg, a) && x.pc.job.key == TargetOf(cfg, a)
    && r.seen == v.seen && Current(r) == o.store && r.dispatches == b.dispatches + LogOf(cfg, o.dispatched + [a])
    && (x.pc.Reading? ==> Reads(x.pc.job.rem))
    && (x.pc.Writing? ==> x.pc.act == Decide(x.pc.job.rem, x.pc.job.key, ReadObject(o.store, x.pc.job.key, faults.readFails)))
  }

  predicate Tracks(cfg: Config, b: Start, r: State, h: int, m: FaultLog) {
    && r.versions != [] && h in r.handlers
    && var x := r.handlers[h];
       && x.now == b.now && x.alerts == b.alerts && x.at <= |b.alerts|
       && var o := Sequential(cfg, b, x.at, m);
          if Busy(x) then x.at < |b.alerts| && Inside(cfg, b, r, x, o, FaultAt(m, x.at))
          else Between(cfg, b, r, o) && (x.pc.Answered202? ==> x.at == |b.alerts|)
  }

  /** A handler between two alerts is in step if map, cluster and log are. */
  lemma StaysInStep(cfg: Config, b: Start, r: State, h: int, m: FaultLog)
    requires r.versions != [] && h in r.handlers && r.handlers[h].pc.AtAlert?
    requires r.handlers[h].now == b.now && r.handlers[h].alerts == b.alerts && r.handlers[h].at <= |b.alerts|
    requires Between(cfg, b, r, Sequential(cfg, b, r.handlers[h].at, m))
    ensures Tracks(cfg, b, r, h, m)
  {
  }

  /** A resolved alert is over at once. */
  lemma SkipTracks(cfg: Config, b: Start, r: State, h: int, m: FaultLog)
    requires Tracks(cfg, b, r, h, m) && r.handlers[h].pc.AtAlert?
    requires r.handlers[h].at < |b.alerts| && !Firing(b.alerts[r.handlers[h].at])
    ensures Tracks(cfg, b, AdvanceTo(cfg, r, h), h, m)
  {
    var x, r' := r.handlers[h], AdvanceTo(cfg, r, h);
    SequentialNext(cfg, b, x.at, m);
    assert r' == Put(r, h, NextAlert(x));
  }

  lemma AnswerTracks(cfg: Config, b: Start, r: State, h: int, m: FaultLog)
    requires Tracks(cfg, b, r, h, m) && r.handlers[h].pc.AtAlert? && r.handlers[h].at >= |b.alerts|
    ensures Tracks(cfg, b, AdvanceTo(cfg, r, h), h, m)
  {
    assert AdvanceTo(cfg, r, h) == Put(r, h, r.handlers[h].(pc := Answered202));
  }

  predicate AtFiring(b: Start, r: State, h: int) {
    && h in r.handlers && r.handlers[h].pc.AtAlert? && r.handlers[h].alerts == b.alerts
    && r.handlers[h].at < |b.alerts| && Firing(b.alerts[r.handlers[h].at])
  }

  /** The verdict on the alert a handler is at. */
  function VerdictAt(cfg: Config, b: Start, r: State, h: int): Verdict
    requires AtFiring(b, r, h)
  {
    AcquireStep(r.seen, b.alerts[r.handlers[h].at].fingerprint, b.now, cfg.cooldown)
  }

  /** An alert that is refused is over at once. */
  lemma RefusedTracks(cfg: Config, b: Start, r: State, h: int, m: FaultLog)
    requires Tracks(cfg, b, r, h, m) && AtFiring(b, r, h) && !VerdictAt(cfg, b, r, h).ok
    ensures Tracks(cfg, b, AdvanceTo(cfg, r, h), h, m)
  {
    var x, r' := r.handlers[h], AdvanceTo(cfg, r, h);
    assert r'.seen == r.seen && r'.versions == r.versions && r'.dispatches == r.dispatches && r'.handlers[h] == NextAlert(x);
    OneFiring(cfg, b, x.at, m);
    StaysInStep(cfg, b, r', h, m);
  }

  lemma Unremedied(cfg: Config, b: Start, r: State, h: int)
    requires r.versions != [] && AtFiring(b, r, h) && r.handlers[h].now == b.now && VerdictAt(cfg, b, r, h).ok
    requires !HasRemedy(cfg, b.alerts[r.handlers[h].at])
    ensures var x, r' := r.handlers[h], AdvanceTo(cfg, r, h);
            && h in r'.handlers && r'.versions == r.versions && r'.dispatches == r.dispatches
            && r'.seen == VerdictAt(cfg, b, r, h).seen && r'.handlers[h] == NextAlert(x)
  {
  }

  /** So is one for which there is no remedy. */
  lemma UnremediedTracks(cfg: Config, b: Start, r: State, h: int, m: FaultLog)
    requires Tracks(cfg, b, r, h, m) && AtFiring(b, r, h) && VerdictAt(cfg, b, r, h).ok
    requires !HasRemedy(cfg, b.alerts[r.handlers[h].at])
    ensures Tracks(cfg, b, AdvanceTo(cfg, r, h), h, m)
  {
    var at, r' := r.handlers[h].at, AdvanceTo(cfg, r, h);
    OneUnremedied(cfg, b, at, m, r.seen);
    Unremedied(cfg, b, r, h);
    LogSkips(cfg, Sequential(cfg, b, at, m).dispatched, b.alerts[at]);
    assert Between(cfg, b, r', Sequential(cfg, b, at + 1, m));
    StaysInStep(cfg, b, r', h, m);
  }

  lemma Entered(cfg: Config, b: Start, r: State, h: int)
    requires r.versions != [] && AtFiring(b, r, h) && r.handlers[h].now == b.now && VerdictAt(cfg, b, r, h).ok
    requires HasRemedy(cfg, b.alerts[r.handlers[h].at])
    ensures var x, r' := r.handlers[h], AdvanceTo(cfg, r, h);
            var a := b.alerts[x.at];
            var job := Job(|r.dispatches|, RemedyFor(cfg, a), TargetOf(cfg, a));
            && h in r'.handlers && r'.versions == r.versions
            && r'.seen == VerdictAt(cfg, b, r, h).seen
            && r'.dispatches == r.dispatches + Entry(cfg, a)
            && r'.handlers[h] == x.(pc := if Reads(job.rem) then Reading(job)
                                          else Writing(job, Decide(job.rem, job.key, ReadFailed), None))
  {
  }

  /** Any other enters its remedy. */
  lemma EnterTracks(cfg: Config, b: Start, r: State, h: int, m: FaultLog)
    requires Tracks(cfg, b, r, h, m) && AtFiring(b, r, h) && VerdictAt(cfg, b, r, h).ok
    requires HasRemedy(cfg, b.alerts[r.handlers[h].at])
    ensures Tracks(cfg, b, AdvanceTo(cfg, r, h), h, m)
  {
    var at := r.handlers[h].at;
    Entered(cfg, b, r, h);
    LogOneMore(cfg, b.dispatches, Sequential(cfg, b, at, m).dispatched, b.alerts[at]);
  }

  lemma TakeTracks(cfg: Config, b: Start, r: State, h: int, m: FaultLog)
    requires Tracks(cfg, b, r, h, m) && AtFiring(b, r, h)
    ensures Tracks(cfg, b, AdvanceTo(cfg, r, h), h, m)
  {
    if !VerdictAt(cfg, b, r, h).ok {
      RefusedTracks(cfg, b, r, h, m);
    } else if HasRemedy(cfg, b.alerts[r.handlers[h].at]) {
      EnterTracks(cfg, b, r, h, m);
    } else {
      UnremediedTracks(cfg, b, r, h, m);
    }
  }

  /** The remedy of alert x.at is through: the cluster is what a sequential apply leaves. */
  lemma LeavesRemedy(cfg: Config, b: Start, r: State, h: int, x: Handler, r': State, m: FaultLog)
    requires r.versions != [] && r'.versions != [] && Busy(x) && x.at < |b.alerts| && x.now == b.now && x.alerts == b.alerts
    requires var o := Sequential(cfg, b, x.at, m);
             && Inside(cfg, b, r, x, o, FaultAt(m, x.at))
             && Current(r') == ApplyRemedy(x.pc.job.rem, o.store, x.pc.job.key, FaultAt(m, x.at)).store
    requires r'.seen == r.seen && r'.dispatches == r.dispatches && h in r'.handlers && r'.handlers[h] == NextAlert(x)
    ensures Tracks(cfg, b, r', h, m)
  {
    OneFiring(cfg, b, x.at, m);
    StaysInStep(cfg, b, r', h, m);
  }

  lemma NotedPast(cfg: Config, b: Start, m: FaultLog, at: nat, st: Step)
    requires at <= |b.alerts|
    ensures Sequential(cfg, b, at, Noted(m, at, st)) == Sequential(cfg, b, at, m)
  {
    SequentialFaults(cfg, b, at, m, Noted(m, at, st));
  }

  lemma GetTracks(cfg: Config, b: Start, r: State, h: int, fails: bool, m: FaultLog)
    requires Tracks(cfg, b, r, h, m) && r.handlers[h].pc.Reading?
    ensures var get := Get(h, |r.versions| - 1, fails);
            Tracks(cfg, b, GetTo(r, h, |r.versions| - 1, fails), h, Noted(m, r.handlers[h].at, get))
  {
    var get, x, r' := Get(h, |r.versions| - 1, fails), r.handlers[h], GetTo(r, h, |r.versions| - 1, fails);
    var m' := Noted(m, x.at, get);
    NotedPast(cfg, b, m, x.at, get);
    assert Inside(cfg, b, r, x, Sequential(cfg, b, x.at, m'), FaultAt(m', x.at));
    if r'.handlers[h].pc.AtAlert? {
      LeavesRemedy(cfg, b, r, h, x, r', m');
    }
  }

  lemma Sent(r: State, h: int, fault: Fault)
    requires r.versions != [] && h in r.handlers && r.handlers[h].pc.Writing?
    ensures var x, r' := r.handlers[h], SendTo(r, h, fault);
            && r'.versions != [] && Current(r') == Perform(Current(r), x.pc.job.key, x.pc.act, fault).store
            && r'.seen == r.seen && r'.dispatches == r.dispatches
            && h in r'.handlers && r'.handlers[h] == NextAlert(x)
  {
  }

  lemma SentIsApply(cfg: Config, b: Start, r: State, x: Handler, o: Outcome, faults: Faults)
    requires r.versions != [] && x.pc.Writing? && x.at < |b.alerts| && Inside(cfg, b, r, x, o, faults)
    ensures Perform(Current(r), x.pc.job.key, x.pc.act, faults.write)
            == ApplyRemedy(x.pc.job.rem, o.store, x.pc.job.key, faults)
  {
  }

  lemma SendTracks(cfg: Config, b: Start, r: State, h: int, fault: Fault, m: FaultLog)
    requires Tracks(cfg, b, r, h, m) && r.handlers[h].pc.Writing?
    ensures Tracks(cfg, b, SendTo(r, h, fault), h, Noted(m, r.handlers[h].at, Send(h, fault)))
  {
    var x := r.handlers[h];
    var m' := Noted(m, x.at, Send(h, fault));
    var o := Sequential(cfg, b, x.at, m');
    NotedPast(cfg, b, m, x.at, Send(h, fault));
    assert FaultAt(m', x.at) == FaultAt(m, x.at).(write := fault);
    assert Inside(cfg, b, r, x, o, FaultAt(m', x.at));
    SentIsApply(cfg, b, r, x, o, FaultAt(m', x.at));
    Sent(r, h, fault);
    LeavesRemedy(cfg, b, r, h, x, SendTo(r, h, fault), m');
  }

  lemma StepTracks(cfg: Config, b: Start, r: State, h: int, st: Step, m: FaultLog)
    requires Tracks(cfg, b, r, h, m) && OwnStep(r, h, st) && (st.Get? ==> st.version == |r.versions| - 1)
    ensures Tracks(cfg, b, Next(cfg, r, st), h, Noted(m, r.handlers[h].at, st))
  {
    var x := r.handlers[h];
    if x.pc.Reading? {
      GetTracks(cfg, b, r, h, st.fails, m);
    } else if x.pc.Writing? {
      SendTracks(cfg, b, r, h, st.fault, m);
    } else if x.at < |b.alerts| && Firing(b.alerts[x.at]) {
      TakeTracks(cfg, b, r, h, m);
    } else if x.at < |b.alerts| {
      SkipTracks(cfg, b, r, h, m);
    } else {
      AnswerTracks(cfg, b, r, h, m);
    }
  }

  function StartOf(s: State, x: Handler): Start
    requires s.versions != []
  {
    Start(s.seen, Current(s), s.dispatches, x.now, x.alerts)
  }

  lemma {:induction false} RunTracks(cfg: Config, s: State, h: int, steps: seq<Step>)
    requires s.versions != [] && h in s.handlers && s.handlers[h].at == 0 && s.handlers[h].pc.AtAlert?
    requires Alone(cfg, s, h, steps)
    ensures Tracks(cfg, StartOf(s, s.handlers[h]), Exec(cfg, s, steps), h, FaultsOf(cfg, s, h, steps))
  {
    if steps == [] {
      var b := StartOf(s, s.handlers[h]);
      assert Sequential(cfg, b, 0, map[]) == Outcome(b.seen, [], b.store);
      assert b.dispatches + LogOf(cfg, []) == b.dispatches;
    } else {
      var before := steps[..|steps| - 1];
      RunTracks(cfg, s, h, before);
      StepTracks(cfg, StartOf(s, s.handlers[h]), Exec(cfg, s, before), h, steps[|steps| - 1], FaultsOf(cfg, s, h, before));
    }
  }

  /** Every run of one handler's own steps, from the arrival of its payload to its answer, in which each read finds the
      current version: map, cluster and dispatches at the end are those of the sequential loop, given the faults of that
      run. */
  lemma AloneIsBatch(cfg: Config, s: State, h: int, now: int, alerts: seq<Alert>, steps: seq<Step>)
    requires s.versions != [] && h in s.handlers && s.handlers[h] == Handler(now, alerts, 0, AtAlert)
    requires Alone(cfg, s, h, steps)
    requires h in Exec(cfg, s, steps).handlers && Exec(cfg, s, steps).handlers[h].pc.Answered202?
    ensures var r := Exec(cfg, s, steps);
            var o := Batch(alerts, s.seen, Current(s), now, cfg.cooldown, cfg.kinds, cfg.ns, Befalls(FaultsOf(cfg, s, h, steps)));
            r.seen == o.seen && Current(r) == o.store && r.dispatches == s.dispatches + LogOf(cfg, o.dispatched)
  {
    RunTracks(cfg, s, h, steps);
    assert alerts[..|alerts|] == alerts;
  }

  /** And every such run can be continued to its answer. */
  lemma {:induction false} CanFinish(cfg: Config, s: State, h: int, steps: seq<Step>) returns (all: seq<Step>)
    requires s.versions != [] && h in s.handlers && s.handlers[h].at == 0 && s.handlers[h].pc.AtAlert?
    requires Alone(cfg, s, h, steps)
    ensures steps <= all && Alone(cfg, s, h, all)
    ensures h in Exec(cfg, s, all).handlers && Exec(cfg, s, all).handlers[h].pc.Answered202?
    decreases Left(Exec(cfg, s, steps), h)
  {
    RunTracks(cfg, s, h, steps);
    if Exec(cfg, s, steps).handlers[h].pc.Answered202? {
      all := steps;
    } else {
      var st := OwnMove(cfg, Exec(cfg, s, steps), h);
      OneMoreAlone(cfg, s, h, steps, st);
      all := CanFinish(cfg, s, h, steps + [st]);
    }
  }

  lemma OneMoreAlone(cfg: Config, s: State, h: int, steps: seq<Step>, st: Step)
    requires s.versions != [] && Alone(cfg, s, h, steps)
    requires var r := Exec(cfg, s, steps); OwnStep(r, h, st) && (st.Get? ==> st.version == |r.versions| - 1)
    ensures Alone(cfg, s, h, steps + [st]) && Exec(cfg, s, steps + [st]) == Next(cfg, Exec(cfg, s, steps), st)
  {
    assert (steps + [st])[..|steps|] == steps;
  }

  function Left(r: State, h: int): nat {
    if h in r.handlers && Remaining(r.handlers[h]) >= 0 then Remaining(r.handlers[h]) else 0
  }

  /** A handler that has not answered can move. */
  lemma OwnMove(cfg: Config, r: State, h: int) returns (st: Step)
    requires r.versions != [] && h in r.handlers && !r.handlers[h].pc.Answered202?
    requires r.handlers[h].at <= |r.handlers[h].alerts| && (Busy(r.handlers[h]) ==> r.handlers[h].at < |r.handlers[h].alerts|)
    ensures OwnStep(r, h, st) && (st.Get? ==> st.version == |r.versions| - 1)
    ensures Left(Next(cfg, r, st), h) < Left(r, h)
  {
    match r.handlers[h].pc {
      case AtAlert =>
        st := Advance(h);
        OwnAdvance(cfg, r, h);
      case Reading(_) =>
        st := Get(h, |r.versions| - 1, false);
        OwnGet(r, h, |r.versions| - 1, false);
      case Writing(_, _, _) =>
        st := Send(h, Fine);
        OwnSend(r, h, Fine);
    }
  }
}
