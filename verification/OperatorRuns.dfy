/** The operator as a transition system: webhook handlers run concurrently, each with the time it captured on
    arrival; the lock covers one Acquire; reads come from a cache that may be any number of versions behind;
    writes carry no version check and may fail or lose their reply; others patch, create and delete meanwhile. */
module OperatorRuns {
  import opened JsonPatch
  import opened Cluster
  import opened Remedies
  import opened Cooldown
  import opened CooldownHistory
  import opened Webhook
  import opened Options
  import Classifier

  datatype Config = Config(cooldown: int, kinds: Kinds, ns: string)

  /** A remedy under way; id is its place in the dispatch log. */
  datatype Job = Job(id: nat, rem: Remedy, key: Key)

  /** A write under way was decided on the version it names, or on none if its remedy does not read. */
  datatype Pc = AtAlert | Reading(job: Job) | Writing(job: Job, act: Action, base: Option<nat>) | Answered202

  datatype Handler = Handler(now: int, alerts: seq<Alert>, at: nat, pc: Pc)

  /** One passage through the lock. */
  datatype Taken = Taken(alert: Alert, now: int)

  datatype Dispatched = Dispatched(alert: Alert, key: Key)

  /** versions holds every state the cluster has had, the current one last; taken, dispatches and landed, the jobs
      whose write took effect, are histories. */
  datatype State = State(clock: int, seen: Seen, handlers: map<int, Handler>, versions: seq<Store>,
                         taken: seq<Taken>, dispatches: seq<Dispatched>, landed: set<nat>)

  datatype Step =
    | Tick(elapsed: nat)
    | Arrive(h: int, alerts: seq<Alert>)
    | Advance(h: int)
    | Get(h: int, version: nat, fails: bool)
    | Send(h: int, fault: Fault)
    | Foreign(key: Key, change: Change)

  function Current(s: State): Store
    requires s.versions != []
  {
    s.versions[|s.versions| - 1]
  }

  function Put(s: State, h: int, x: Handler): State {
    s.(handlers := s.handlers[h := x])
  }

  function NextAlert(x: Handler): Handler {
    x.(at := x.at + 1, pc := AtAlert)
  }

  predicate HasRemedy(cfg: Config, a: Alert) {
    var k := Classifier.Classify(a.labels).kind;
    !k.NoRemedy? && k in cfg.kinds
  }

  function RemedyFor(cfg: Config, a: Alert): Remedy
    requires HasRemedy(cfg, a)
  {
    cfg.kinds[Classifier.Classify(a.labels).kind]
  }

  function TargetOf(cfg: Config, a: Alert): Key
    requires HasRemedy(cfg, a)
  {
    KeyFor(RemedyFor(cfg, a), cfg.ns, Classifier.Classify(a.labels).target)
  }

  /** The body of the loop up to the first call to the cluster. */
  function AdvanceTo(cfg: Config, s: State, h: int): State
    requires h in s.handlers && s.handlers[h].pc.AtAlert?
  {
    var x := s.handlers[h];
    if x.at >= |x.alerts| then Put(s, h, x.(pc := Answered202))
    else
      var a := x.alerts[x.at];
      if !Firing(a) then Put(s, h, NextAlert(x))
      else
        var v := AcquireStep(s.seen, a.fingerprint, x.now, cfg.cooldown);
        var s' := s.(seen := v.seen, taken := s.taken + [Taken(a, x.now)]);
        if !v.ok || !HasRemedy(cfg, a) then Put(s', h, NextAlert(x))
        else
          var job := Job(|s.dispatches|, RemedyFor(cfg, a), TargetOf(cfg, a));
          var pc := if Reads(job.rem) then Reading(job) else Writing(job, Decide(job.rem, job.key, ReadFailed), None);
          Put(s'.(dispatches := s.dispatches + [Dispatched(a, job.key)]), h, x.(pc := pc))
  }

  /** The read, from a cache that may be behind, and the decision on it. */
  function GetTo(s: State, h: int, version: nat, fails: bool): State
    requires h in s.handlers && s.handlers[h].pc.Reading? && version < |s.versions|
  {
    var x := s.handlers[h];
    var job := x.pc.job;
    var act := Decide(job.rem, job.key, ReadObject(s.versions[version], job.key, fails));
    Put(s, h, if act.Stop? then NextAlert(x) else x.(pc := Writing(job, act, Some(version))))
  }

  /** The write, to whatever the cluster is by then. */
  function SendTo(s: State, h: int, fault: Fault): State
    requires s.versions != [] && h in s.handlers && s.handlers[h].pc.Writing?
  {
    var x, now := s.handlers[h], Current(s);
    var job := x.pc.job;
    var landed := if Lands(now, job.key, x.pc.act, fault) then s.landed + {job.id} else s.landed;
    Put(s.(versions := s.versions + [Perform(now, job.key, x.pc.act, fault).store], landed := landed), h, NextAlert(x))
  }

  function Next(cfg: Config, s: State, st: Step): State
    requires s.versions != []
  {
    match st
    case Tick(elapsed) => s.(clock := s.clock + elapsed)
    case Arrive(h, alerts) =>
      if h in s.handlers then s else Put(s, h, Handler(s.clock, alerts, 0, AtAlert))
    case Advance(h) =>
      if h in s.handlers && s.handlers[h].pc.AtAlert? then AdvanceTo(cfg, s, h) else s
    case Get(h, version, fails) =>
      if h in s.handlers && s.handlers[h].pc.Reading? && version < |s.versions| then GetTo(s, h, version, fails) else s
    case Send(h, fault) =>
      if h in s.handlers && s.handlers[h].pc.Writing? then SendTo(s, h, fault) else s
    case Foreign(key, change) => s.(versions := s.versions + [Changed(Current(s), key, change)])
  }

  predicate Sends(s: State, st: Step) {
    st.Send? && st.h in s.handlers && s.handlers[st.h].pc.Writing?
  }

  /** The cluster after a step: only sends and foreign changes reach it. */
  function StoreAfter(s: State, st: Step): Store
    requires s.versions != []
  {
    if Sends(s, st) then Perform(Current(s), s.handlers[st.h].pc.job.key, s.handlers[st.h].pc.act, st.fault).store
    else if st.Foreign? then Changed(Current(s), st.key, st.change)
    else Current(s)
  }

  lemma StepWrites(cfg: Config, s: State, st: Step)
    requires s.versions != []
    ensures s.versions <= Next(cfg, s, st).versions && |Next(cfg, s, st).versions| <= |s.versions| + 1
    ensures Current(Next(cfg, s, st)) == StoreAfter(s, st)
  {
  }

  /** A step with which nobody but the operator writes this path of key. */
  predicate ForeignLeaves(st: Step, key: Key, path: Path) {
    st.Foreign? && st.key == key ==> Leaves(st.change, path)
  }

  /** Any interleaving whatsoever: a step that is not enabled leaves the state as it is. */
  function Exec(cfg: Config, s: State, steps: seq<Step>): (r: State)
    requires s.versions != []
    ensures r.versions != []
  {
    if steps == [] then s
    else Next(cfg, Exec(cfg, s, steps[..|steps| - 1]), steps[|steps| - 1])
  }

  lemma ExecOneMore(cfg: Config, s: State, steps: seq<Step>, st: Step)
    requires s.versions != []
    ensures Exec(cfg, s, steps + [st]) == Next(cfg, Exec(cfg, s, steps), st)
  {
    assert (steps + [st])[..|steps|] == steps;
  }

  predicate Initial(s: State) {
    && s.seen == map[] && s.handlers == map[] && |s.versions| == 1
    && s.taken == [] && s.dispatches == [] && s.landed == {}
  }

  /** The time that passes in a run. */
  function Elapsed(steps: seq<Step>): nat {
    if steps == [] then 0
    else Elapsed(steps[..|steps| - 1]) + if steps[|steps| - 1].Tick? then steps[|steps| - 1].elapsed else 0
  }

  /** A request captures the time at which it arrives, and keeps it. */
  lemma {:induction false} CapturesArrival(cfg: Config, s: State, h: int, alerts: seq<Alert>, before: seq<Step>, after: seq<Step>)
    requires s.versions != [] && h !in Exec(cfg, s, before).handlers
    ensures Exec(cfg, s, before).clock == s.clock + Elapsed(before)
    ensures var arrived := Next(cfg, Exec(cfg, s, before), Arrive(h, alerts));
            var r := Exec(cfg, arrived, after);
            h in r.handlers && r.handlers[h].now == s.clock + Elapsed(before) && r.handlers[h].alerts == alerts
  {
    ClockRuns(cfg, s, before);
    HandlerStays(cfg, Next(cfg, Exec(cfg, s, before), Arrive(h, alerts)), after, h);
  }

  lemma {:induction false} ClockRuns(cfg: Config, s: State, steps: seq<Step>)
    requires s.versions != []
    ensures Exec(cfg, s, steps).clock == s.clock + Elapsed(steps)
  {
    if steps != [] {
      ClockRuns(cfg, s, steps[..|steps| - 1]);
    }
  }

  lemma {:induction false} HandlerStays(cfg: Config, s: State, steps: seq<Step>, h: int)
    requires s.versions != [] && h in s.handlers
    ensures var r := Exec(cfg, s, steps);
            h in r.handlers && r.handlers[h].now == s.handlers[h].now && r.handlers[h].alerts == s.handlers[h].alerts
  {
    if steps != [] {
      var before := steps[..|steps| - 1];
      HandlerStays(cfg, s, before, h);
      HandlerStep(cfg, Exec(cfg, s, before), steps[|steps| - 1], h);
    }
  }

  lemma HandlerStep(cfg: Config, s: State, st: Step, h: int)
    requires s.versions != [] && h in s.handlers
    ensures var r := Next(cfg, s, st);
            h in r.handlers && r.handlers[h].now == s.handlers[h].now && r.handlers[h].alerts == s.handlers[h].alerts
  {
  }

  // ----- what every step keeps -----

  function CallsOf(taken: seq<Taken>): (r: seq<Call>)
    ensures |r| == |taken|
  {
    if taken == [] then []
    else
      var t := taken[|taken| - 1];
      CallsOf(taken[..|taken| - 1]) + [Call(t.alert.fingerprint, t.now)]
  }

  /** The answer to one more passage through the lock. */
  function Accepts(cfg: Config, before: seq<Taken>, t: Taken): bool {
    AcquireStep(Run(CallsOf(before), cfg.cooldown).seen, t.alert.fingerprint, t.now, cfg.cooldown).ok
  }

  /** What an accepted alert adds to the dispatch log: itself, if there is a remedy for it. */
  function Entry(cfg: Config, a: Alert): seq<Dispatched> {
    if HasRemedy(cfg, a) then [Dispatched(a, TargetOf(cfg, a))] else []
  }

  /** What a schedule of Acquire calls dispatches: the accepted alerts for which there is a remedy. */
  function DispatchLog(cfg: Config, taken: seq<Taken>): seq<Dispatched> {
    if taken == [] then []
    else
      var before, t := taken[..|taken| - 1], taken[|taken| - 1];
      DispatchLog(cfg, before) + if Accepts(cfg, before, t) then Entry(cfg, t.alert) else []
  }

  predicate Busy(x: Handler) {
    x.pc.Reading? || x.pc.Writing?
  }

  /** What a remedy under way has read. */
  function ReadOf(versions: seq<Store>, job: Job, base: Option<nat>): Read {
    if base.Some? && base.value < |versions| then ReadObject(versions[base.value], job.key, false) else ReadFailed
  }

  /** A remedy under way belongs to a firing alert that classifies to it, is logged, and has not landed. */
  predicate JobOk(cfg: Config, dispatches: seq<Dispatched>, landed: set<nat>, x: Handler)
    requires Busy(x)
  {
    var job := x.pc.job;
    && x.at < |x.alerts| && Firing(x.alerts[x.at]) && HasRemedy(cfg, x.alerts[x.at])
    && job.rem == RemedyFor(cfg, x.alerts[x.at]) && job.key == TargetOf(cfg, x.alerts[x.at])
    && job.id < |dispatches| && job.id !in landed
    && dispatches[job.id] == Dispatched(x.alerts[x.at], job.key)
    && (x.pc.Reading? ==> Reads(job.rem))
  }

  predicate HandlerOk(cfg: Config, dispatches: seq<Dispatched>, landed: set<nat>, x: Handler) {
    && x.at <= |x.alerts|
    && (x.pc.Answered202? ==> x.at == |x.alerts|)
    && (Busy(x) ==> JobOk(cfg, dispatches, landed, x))
  }

  ghost predicate HandlersOk(cfg: Config, dispatches: seq<Dispatched>, landed: set<nat>, handlers: map<int, Handler>) {
    && (forall h | h in handlers :: HandlerOk(cfg, dispatches, landed, handlers[h]))
    && (forall h, g | h in handlers && g in handlers && h != g && Busy(handlers[h]) && Busy(handlers[g]) ::
          handlers[h].pc.job.id != handlers[g].pc.job.id)
  }

  /** What a handler is about to write was decided on the version it names. */
  predicate Decided(versions: seq<Store>, x: Handler) {
    x.pc.Writing? ==>
      && !x.pc.act.Stop?
      && x.pc.act == Decide(x.pc.job.rem, x.pc.job.key, ReadOf(versions, x.pc.job, x.pc.base))
      && (if Reads(x.pc.job.rem) then x.pc.base.Some? && x.pc.base.value < |versions| else x.pc.base.None?)
  }

  ghost predicate AllDecided(versions: seq<Store>, handlers: map<int, Handler>) {
    forall h | h in handlers :: Decided(versions, handlers[h])
  }

  ghost predicate LogOk(cfg: Config, s: State) {
    && s.versions != []
    && s.seen == Run(CallsOf(s.taken), cfg.cooldown).seen
    && s.dispatches == DispatchLog(cfg, s.taken)
    && (forall d | d in s.landed :: d < |s.dispatches|)
  }

  ghost predicate Inv(cfg: Config, s: State) {
    LogOk(cfg, s) && HandlersOk(cfg, s.dispatches, s.landed, s.handlers) && AllDecided(s.versions, s.handlers)
  }

  /** One handler moves, the log grows: the others are still in order. */
  lemma Moved(cfg: Config, ds: seq<Dispatched>, landed: set<nat>, hs: map<int, Handler>,
              ds': seq<Dispatched>, landed': set<nat>, h: int, x: Handler)
    requires HandlersOk(cfg, ds, landed, hs) && ds <= ds' && HandlerOk(cfg, ds', landed', x)
    requires forall g | g in hs && g != h && Busy(hs[g]) :: hs[g].pc.job.id !in landed'
    requires Busy(x) ==> forall g | g in hs && g != h && Busy(hs[g]) :: hs[g].pc.job.id != x.pc.job.id
    ensures HandlersOk(cfg, ds', landed', hs[h := x])
  {
    forall g | g in hs && g != h
      ensures HandlerOk(cfg, ds', landed', hs[g])
    {
      assert HandlerOk(cfg, ds, landed, hs[g]);
    }
  }

  lemma StillDecided(versions: seq<Store>, versions': seq<Store>, hs: map<int, Handler>, h: int, x: Handler)
    requires AllDecided(versions, hs) && versions <= versions' && Decided(versions', x)
    ensures AllDecided(versions', hs[h := x])
  {
    forall g | g in hs && g != h
      ensures Decided(versions', hs[g])
    {
      assert Decided(versions, hs[g]);
    }
  }

  lemma OneMoreCall(taken: seq<Taken>, t: Taken)
    ensures CallsOf(taken + [t]) == CallsOf(taken) + [Call(t.alert.fingerprint, t.now)]
  {
    assert (taken + [t])[..|taken|] == taken;
  }

  lemma OneMoreRun(calls: seq<Call>, call: Call, cooldown: int)
    ensures var l := Run(calls, cooldown);
            Run(calls + [call], cooldown) == Record(l, call, AcquireStep(l.seen, call.fp, call.now, cooldown))
  {
    assert (calls + [call])[..|calls|] == calls;
  }

  lemma OneMoreEntry(cfg: Config, taken: seq<Taken>, t: Taken)
    ensures DispatchLog(cfg, taken + [t])
            == DispatchLog(cfg, taken) + if Accepts(cfg, taken, t) then Entry(cfg, t.alert) else []
  {
    assert (taken + [t])[..|taken|] == taken;
  }

  /** One passage through the lock, in the history and in the log. */
  lemma TakeOne(cfg: Config, taken: seq<Taken>, t: Taken)
    ensures var l := Run(CallsOf(taken), cfg.cooldown);
            var v := AcquireStep(l.seen, t.alert.fingerprint, t.now, cfg.cooldown);
            && Run(CallsOf(taken + [t]), cfg.cooldown).seen == v.seen
            && Run(CallsOf(taken + [t]), cfg.cooldown).stamps == Extend(l.stamps, t.alert.fingerprint, t.now, v.ok)
            && DispatchLog(cfg, taken + [t]) == DispatchLog(cfg, taken) + if v.ok then Entry(cfg, t.alert) else []
  {
    OneMoreCall(taken, t);
    OneMoreRun(CallsOf(taken), Call(t.alert.fingerprint, t.now), cfg.cooldown);
    OneMoreEntry(cfg, taken, t);
  }

  lemma Ids(cfg: Config, ds: seq<Dispatched>, landed: set<nat>, hs: map<int, Handler>)
    requires HandlersOk(cfg, ds, landed, hs)
    ensures forall g | g in hs && Busy(hs[g]) :: hs[g].pc.job.id < |ds| && hs[g].pc.job.id !in landed
  {
    assert forall g | g in hs && Busy(hs[g]) :: HandlerOk(cfg, ds, landed, hs[g]);
  }

  lemma TakenState(cfg: Config, s: State, h: int)
    requires h in s.handlers && s.handlers[h].pc.AtAlert?
    ensures var s' := AdvanceTo(cfg, s, h);
            && h in s'.handlers && s'.handlers == s.handlers[h := s'.handlers[h]]
            && s'.landed == s.landed && s'.versions == s.versions
  {
  }

  /** Where a handler that took the lock stands next. */
  lemma TakenHandler(cfg: Config, s: State, h: int)
    requires LogOk(cfg, s) && h in s.handlers && s.handlers[h].pc.AtAlert?
    requires var x := s.handlers[h]; x.at < |x.alerts| && Firing(x.alerts[x.at])
    ensures var s', x' := AdvanceTo(cfg, s, h), AdvanceTo(cfg, s, h).handlers[h];
            && HandlerOk(cfg, s'.dispatches, s.landed, x') && Decided(s.versions, x')
            && (Busy(x') ==> x'.pc.job.id == |s.dispatches|)
  {
  }

  lemma TakenLog(cfg: Config, s: State, h: int)
    requires LogOk(cfg, s) && h in s.handlers && s.handlers[h].pc.AtAlert?
    requires var x := s.handlers[h]; x.at < |x.alerts| && Firing(x.alerts[x.at])
    ensures LogOk(cfg, AdvanceTo(cfg, s, h)) && s.dispatches <= AdvanceTo(cfg, s, h).dispatches
  {
    var x := s.handlers[h];
    TakeOne(cfg, s.taken, Taken(x.alerts[x.at], x.now));
  }

  lemma TakeKeeps(cfg: Config, s: State, h: int)
    requires Inv(cfg, s) && h in s.handlers && s.handlers[h].pc.AtAlert?
    requires var x := s.handlers[h]; x.at < |x.alerts| && Firing(x.alerts[x.at])
    ensures Inv(cfg, AdvanceTo(cfg, s, h))
  {
    var s' := AdvanceTo(cfg, s, h);
    TakenLog(cfg, s, h);
    TakenState(cfg, s, h);
    TakenHandler(cfg, s, h);
    Ids(cfg, s.dispatches, s.landed, s.handlers);
    Moved(cfg, s.dispatches, s.landed, s.handlers, s'.dispatches, s.landed, h, s'.handlers[h]);
    StillDecided(s.versions, s.versions, s.handlers, h, s'.handlers[h]);
  }

  /** One handler moves and nothing is logged. */
  lemma HandlerMoves(cfg: Config, s: State, h: int, x: Handler)
    requires Inv(cfg, s) && HandlerOk(cfg, s.dispatches, s.landed, x) && Decided(s.versions, x)
    requires Busy(x) ==> h in s.handlers && Busy(s.handlers[h]) && x.pc.job == s.handlers[h].pc.job
    ensures Inv(cfg, Put(s, h, x))
  {
    Ids(cfg, s.dispatches, s.landed, s.handlers);
    Moved(cfg, s.dispatches, s.landed, s.handlers, s.dispatches, s.landed, h, x);
    StillDecided(s.versions, s.versions, s.handlers, h, x);
  }

  lemma AdvanceKeeps(cfg: Config, s: State, h: int)
    requires Inv(cfg, s) && h in s.handlers && s.handlers[h].pc.AtAlert?
    ensures Inv(cfg, AdvanceTo(cfg, s, h))
  {
    var x := s.handlers[h];
    if x.at < |x.alerts| && Firing(x.alerts[x.at]) {
      TakeKeeps(cfg, s, h);
    } else {
      assert HandlerOk(cfg, s.dispatches, s.landed, x);
      HandlerMoves(cfg, s, h, AdvanceTo(cfg, s, h).handlers[h]);
    }
  }

  lemma ReadHandler(cfg: Config, s: State, h: int, version: nat, fails: bool)
    requires h in s.handlers && s.handlers[h].pc.Reading? && version < |s.versions|
    requires HandlerOk(cfg, s.dispatches, s.landed, s.handlers[h])
    ensures var x' := GetTo(s, h, version, fails).handlers[h];
            && GetTo(s, h, version, fails) == Put(s, h, x')
            && HandlerOk(cfg, s.dispatches, s.landed, x') && Decided(s.versions, x')
            && (Busy(x') ==> x'.pc.job == s.handlers[h].pc.job)
  {
  }

  lemma GetKeeps(cfg: Config, s: State, h: int, version: nat, fails: bool)
    requires Inv(cfg, s) && h in s.handlers && s.handlers[h].pc.Reading? && version < |s.versions|
    ensures Inv(cfg, GetTo(s, h, version, fails))
  {
    assert HandlerOk(cfg, s.dispatches, s.landed, s.handlers[h]);
    ReadHandler(cfg, s, h, version, fails);
    HandlerMoves(cfg, s, h, GetTo(s, h, version, fails).handlers[h]);
  }

  lemma SentHandler(cfg: Config, s: State, h: int, fault: Fault)
    requires s.versions != [] && h in s.handlers && s.handlers[h].pc.Writing?
    requires HandlerOk(cfg, s.dispatches, s.landed, s.handlers[h])
    ensures var s' := SendTo(s, h, fault);
            && s'.handlers == s.handlers[h := NextAlert(s.handlers[h])]
            && s'.dispatches == s.dispatches && s.versions <= s'.versions
            && s'.landed <= s.landed + {s.handlers[h].pc.job.id}
            && HandlerOk(cfg, s.dispatches, s'.landed, s'.handlers[h]) && Decided(s'.versions, s'.handlers[h])
  {
  }

  lemma SentLog(cfg: Config, s: State, h: int, fault: Fault)
    requires LogOk(cfg, s) && h in s.handlers && s.handlers[h].pc.Writing?
    requires HandlerOk(cfg, s.dispatches, s.landed, s.handlers[h])
    ensures LogOk(cfg, SendTo(s, h, fault))
  {
  }

  lemma SendKeeps(cfg: Config, s: State, h: int, fault: Fault)
    requires Inv(cfg, s) && h in s.handlers && s.handlers[h].pc.Writing?
    ensures Inv(cfg, SendTo(s, h, fault))
  {
    var s' := SendTo(s, h, fault);
    assert HandlerOk(cfg, s.dispatches, s.landed, s.handlers[h]);
    SentLog(cfg, s, h, fault);
    SentHandler(cfg, s, h, fault);
    Ids(cfg, s.dispatches, s.landed, s.handlers);
    Moved(cfg, s.dispatches, s.landed, s.handlers, s.dispatches, s'.landed, h, s'.handlers[h]);
    StillDecided(s.versions, s'.versions, s.handlers, h, s'.handlers[h]);
  }

  lemma ForeignKeeps(cfg: Config, s: State, key: Key, change: Change)
    requires Inv(cfg, s)
    ensures Inv(cfg, Next(cfg, s, Foreign(key, change)))
  {
    var s' := Next(cfg, s, Foreign(key, change));
    forall g | g in s.handlers
      ensures Decided(s'.versions, s.handlers[g])
    {
      assert Decided(s.versions, s.handlers[g]);
    }
  }

  lemma AdvanceStepKeeps(cfg: Config, s: State, h: int)
    requires Inv(cfg, s)
    ensures Inv(cfg, Next(cfg, s, Advance(h)))
  {
    if h in s.handlers && s.handlers[h].pc.AtAlert? {
      AdvanceKeeps(cfg, s, h);
    }
  }

  lemma GetStepKeeps(cfg: Config, s: State, h: int, version: nat, fails: bool)
    requires Inv(cfg, s)
    ensures Inv(cfg, Next(cfg, s, Get(h, version, fails)))
  {
    if h in s.handlers && s.handlers[h].pc.Reading? && version < |s.versions| {
      GetKeeps(cfg, s, h, version, fails);
    }
  }

  lemma SendStepKeeps(cfg: Config, s: State, h: int, fault: Fault)
    requires Inv(cfg, s)
    ensures Inv(cfg, Next(cfg, s, Send(h, fault)))
  {
    if h in s.handlers && s.handlers[h].pc.Writing? {
      SendKeeps(cfg, s, h, fault);
    }
  }

  lemma ArriveStepKeeps(cfg: Config, s: State, h: int, alerts: seq<Alert>)
    requires Inv(cfg, s)
    ensures Inv(cfg, Next(cfg, s, Arrive(h, alerts)))
  {
    if h !in s.handlers {
      HandlerMoves(cfg, s, h, Handler(s.clock, alerts, 0, AtAlert));
    }
  }

  lemma TickKeeps(cfg: Config, s: State, elapsed: nat)
    requires Inv(cfg, s)
    ensures Inv(cfg, Next(cfg, s, Tick(elapsed)))
  {
  }

  lemma StepKeeps(cfg: Config, s: State, st: Step)
    requires Inv(cfg, s)
    ensures Inv(cfg, Next(cfg, s, st))
  {
    match st {
      case Tick(elapsed) => TickKeeps(cfg, s, elapsed);
      case Arrive(h, alerts) => ArriveStepKeeps(cfg, s, h, alerts);
      case Advance(h) => AdvanceStepKeeps(cfg, s, h);
      case Get(h, version, fails) => GetStepKeeps(cfg, s, h, version, fails);
      case Send(h, fault) => SendStepKeeps(cfg, s, h, fault);
      case Foreign(key, change) => ForeignKeeps(cfg, s, key, change);
    }
  }

  lemma {:induction false} RunKeeps(cfg: Config, s: State, steps: seq<Step>)
    requires Initial(s)
    ensures Inv(cfg, Exec(cfg, s, steps))
  {
    if steps != [] {
      RunKeeps(cfg, s, steps[..|steps| - 1]);
      StepKeeps(cfg, Exec(cfg, s, steps[..|steps| - 1]), steps[|steps| - 1]);
    }
  }

  // ----- failures of remedies leave no trace in the dedupe -----

  /** Two runs in which the same alerts take the lock in the same order with the same times, whatever else
      happens: other reads, faults, foreign writes, clusters and interleavings. */
  lemma FailureIndependence(cfg: Config, s: State, steps: seq<Step>, t: State, others: seq<Step>)
    requires Initial(s) && Initial(t)
    requires Exec(cfg, s, steps).taken == Exec(cfg, t, others).taken
    ensures Exec(cfg, s, steps).seen == Exec(cfg, t, others).seen
    ensures Exec(cfg, s, steps).dispatches == Exec(cfg, t, others).dispatches
  {
    RunKeeps(cfg, s, steps);
    RunKeeps(cfg, t, others);
  }

  /** Work a handler still has to do. */
  function Remaining(x: Handler): int {
    3 * (|x.alerts| - x.at)
    + match x.pc case AtAlert => 1 case Reading(_) => 0 case Writing(_, _, _) => -1 case Answered202 => 0
  }

  predicate OwnStep(s: State, h: int, st: Step) {
    h in s.handlers &&
    match s.handlers[h].pc
    case AtAlert => st == Advance(h)
    case Reading(_) => st.Get? && st.h == h && st.version < |s.versions|
    case Writing(_, _, _) => st.Send? && st.h == h
    case Answered202 => false
  }

  /** Every own step of a handler, with any fault, brings it nearer to its answer; no other step moves it. */
  lemma HandlersFinish(cfg: Config, s: State, h: int, st: Step)
    requires Inv(cfg, s) && h in s.handlers
    ensures Remaining(s.handlers[h]) >= 0
    ensures Remaining(s.handlers[h]) == 0 <==> s.handlers[h].pc.Answered202?
    ensures h in Next(cfg, s, st).handlers
    ensures if OwnStep(s, h, st) then Remaining(Next(cfg, s, st).handlers[h]) < Remaining(s.handlers[h])
            else Next(cfg, s, st).handlers[h] == s.handlers[h]
  {
    var x := s.handlers[h];
    assert HandlerOk(cfg, s.dispatches, s.landed, x);
    RemainingIs(cfg, s.dispatches, s.landed, x);
    if OwnStep(s, h, st) {
      OwnNext(cfg, s, h, st);
    } else {
      OthersStay(cfg, s, h, st);
    }
  }

  lemma RemainingIs(cfg: Config, dispatches: seq<Dispatched>, landed: set<nat>, x: Handler)
    requires HandlerOk(cfg, dispatches, landed, x)
    ensures Remaining(x) >= 0 && (Remaining(x) == 0 <==> x.pc.Answered202?)
  {
  }

  lemma OwnNext(cfg: Config, s: State, h: int, st: Step)
    requires s.versions != [] && OwnStep(s, h, st) && s.handlers[h].at <= |s.handlers[h].alerts|
    ensures h in Next(cfg, s, st).handlers && Remaining(Next(cfg, s, st).handlers[h]) < Remaining(s.handlers[h])
  {
    match s.handlers[h].pc {
      case AtAlert => OwnAdvance(cfg, s, h);
      case Reading(_) => OwnGet(s, h, st.version, st.fails);
      case Writing(_, _, _) => OwnSend(s, h, st.fault);
    }
  }

  lemma OthersStay(cfg: Config, s: State, h: int, st: Step)
    requires s.versions != [] && h in s.handlers && !OwnStep(s, h, st)
    ensures h in Next(cfg, s, st).handlers && Next(cfg, s, st).handlers[h] == s.handlers[h]
  {
  }

  lemma OwnAdvance(cfg: Config, s: State, h: int)
    requires h in s.handlers && s.handlers[h].pc.AtAlert? && s.handlers[h].at <= |s.handlers[h].alerts|
    ensures Remaining(AdvanceTo(cfg, s, h).handlers[h]) < Remaining(s.handlers[h])
  {
  }

  lemma OwnGet(s: State, h: int, version: nat, fails: bool)
    requires h in s.handlers && s.handlers[h].pc.Reading? && version < |s.versions|
    ensures Remaining(GetTo(s, h, version, fails).handlers[h]) < Remaining(s.handlers[h])
  {
  }

  lemma OwnSend(s: State, h: int, fault: Fault)
    requires s.versions != [] && h in s.handlers && s.handlers[h].pc.Writing?
    ensures Remaining(SendTo(s, h, fault).handlers[h]) < Remaining(s.handlers[h])
  {
  }

  /** A request is answered, always with 202, only after its last alert. */
  lemma AnsweredAtTheEnd(cfg: Config, s: State, steps: seq<Step>, h: int)
    requires Initial(s) && h in Exec(cfg, s, steps).handlers && Exec(cfg, s, steps).handlers[h].pc.Answered202?
    ensures Exec(cfg, s, steps).handlers[h].at == |Exec(cfg, s, steps).handlers[h].alerts|
  {
    RunKeeps(cfg, s, steps);
    var r := Exec(cfg, s, steps);
    assert HandlerOk(cfg, r.dispatches, r.landed, r.handlers[h]);
  }
}
