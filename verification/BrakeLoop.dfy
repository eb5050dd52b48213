/** From the CircuitBreak remedy to a paused publisher and back. */
module BrakeLoop {
  import opened Options
  import opened JsonPatch
  import opened Cluster
  import opened Remedies
  import opened RemedyLaws
  import opened FlagFile
  import opened OrderFlow
  import O = OperatorRuns
  import R = StaleReads

  /** The content kubelet projects for the flag key of the ConfigMap, if there is one. */
  function FlagValue(store: Store, key: Key): Option<string> {
    if key in store then
      match Lookup(store[key], FLAG)
      case Some(Str(v)) => Some(v)
      case _ => None
    else None
  }

  /** The file is there exactly if the ConfigMap has the key, and holds its value. */
  lemma FlagIsTheKey(store: Store, key: Key, value: string)
    ensures FlagValue(store, key) == Some(value)
            <==> key in store && Lookup(store[key], ["data", "publish_enabled"]) == Some(Str(value))
  {
  }

  /** After an apply that reports success the projected flag is the word false exactly unless the apply read a brake
      that has been lifted since; and a replica that reads that word stops publishing. */
  lemma RemedyPauses(was: Store, store: Store, key: Key, faults: Faults)
    requires ApplyFrom(CircuitBreak, was, store, key, faults).ok
    ensures var flag := FlagValue(ApplyFrom(CircuitBreak, was, store, key, faults).store, key);
            && (flag == Some("false") <==> !Engaged(was, key) || Engaged(store, key))
            && (flag == Some("false") ==> Paused(flag))
  {
    CircuitBreakEngages(was, store, key, faults);
    KnownValues();
  }

  /** Deleting the key, the preferred way to lift the brake, leaves no value, which reads as not paused. */
  lemma DeletingTheKeyResumes(store: Store, key: Key)
    requires key in store
    ensures var store' := PatchObject(store, key, FieldPatch(FLAG, Null), Fine).store;
            FlagValue(store', key) == None && !Paused(FlagValue(store', key))
  {
    NestLookup(FLAG, Null);
    MergeLeaf(store[key], Nest(FLAG, Null), FLAG);
  }

  /** The flag's value stays put, reads do not fail, and no replica restarts. */
  predicate Steady(s: State, steps: seq<Step>) {
    forall st | st in steps :: !st.SetFlag? && (st.StartReplica? ==> st.r in s.paused) && (st.ReadFlag? ==> !st.fails)
  }

  lemma SteadyStep(s: State, st: Step)
    requires !st.SetFlag? && (st.StartReplica? ==> st.r in s.paused) && (st.ReadFlag? ==> !st.fails)
    ensures var t := Next(s, st);
            && t.flag == s.flag && t.paused.Keys == s.paused.Keys && s.files.Keys <= t.files.Keys
            && (forall r | r in s.files && !(st == Project(r) && r in s.paused) :: t.files[r] == s.files[r])
            && (forall r | r in s.paused && st == Project(r) :: r in t.files && t.files[r] == s.flag)
            && (forall r | r in s.paused && r in s.files ::
                  t.paused[r] == if st == ReadFlag(r, false) then Paused(s.files[r]) else s.paused[r])
  {
  }

  lemma {:induction false} Unmoved(s: State, steps: seq<Step>)
    requires Steady(s, steps)
    ensures Exec(s, steps).flag == s.flag && Exec(s, steps).paused.Keys == s.paused.Keys
    ensures s.files.Keys <= Exec(s, steps).files.Keys
  {
    if steps != [] {
      var before, st := steps[..|steps| - 1], steps[|steps| - 1];
      assert forall x | x in before :: x in steps;
      assert st in steps;
      Unmoved(s, before);
      SteadyStep(Exec(s, before), st);
    }
  }

  /** If a replica's file is projected after the flag was set and then read, its atomic flag follows the flag and
      stays with it, whatever else happens in between. */
  lemma {:induction false} FlagReaches(s: State, steps: seq<Step>, r: int, i: int, j: int)
    requires Steady(s, steps) && r in s.paused && r in s.files
    requires 0 <= i < |steps| && steps[i] == Project(r)
    ensures Follows(Exec(s, steps), r, s.flag, i < j < |steps| && steps[j] == ReadFlag(r, false))
  {
    var n := |steps| - 1;
    var before, st := steps[..n], steps[n];
    assert forall x | x in before :: x in steps;
    assert st in steps;
    Unmoved(s, before);
    if i < n {
      FlagReaches(s, before, r, i, j);
      StillFollows(Exec(s, before), st, r, i < j < n && steps[j] == ReadFlag(r, false));
    } else {
      SteadyStep(Exec(s, before), st);
    }
  }

  lemma StillFollows(t: State, st: Step, r: int, read: bool)
    requires !st.SetFlag? && (st.StartReplica? ==> st.r in t.paused) && (st.ReadFlag? ==> !st.fails)
    requires Follows(t, r, t.flag, read)
    ensures Follows(Next(t, st), r, t.flag, read || st == ReadFlag(r, false))
  {
    SteadyStep(t, st);
  }

  /** The replica's file shows the flag, and if it has been read since, so does its atomic flag. */
  predicate Follows(t: State, r: int, flag: Option<string>, read: bool) {
    r in t.paused && r in t.files && t.files[r] == flag && (read ==> t.paused[r] == Paused(flag))
  }

  /** Every replica's file is projected and then read. */
  ghost predicate Reaches(s: State, steps: seq<Step>) {
    forall r | r in s.paused ::
      exists i, j :: 0 <= i < j < |steps| && steps[i] == Project(r) && steps[j] == ReadFlag(r, false)
  }

  /** The flag is set; then every replica follows it, whatever it is. */
  lemma EveryReplicaFollows(s: State, value: Option<string>, steps: seq<Step>)
    requires var s' := Next(s, SetFlag(value)); Steady(s', steps) && Reaches(s', steps)
    requires s.paused.Keys <= s.files.Keys
    ensures var t := Exec(Next(s, SetFlag(value)), steps);
            t.paused.Keys == s.paused.Keys && forall r | r in s.paused :: t.paused[r] == Paused(value)
  {
    var s' := Next(s, SetFlag(value));
    Unmoved(s', steps);
    forall r | r in s.paused
      ensures Exec(s', steps).paused[r] == Paused(value)
    {
      var i, j :| 0 <= i < j < |steps| && steps[i] == Project(r) && steps[j] == ReadFlag(r, false);
      FlagReaches(s', steps, r, i, j);
    }
  }

  /** A new replica publishes, whatever the flag, until its first read; its mount is current, so that read makes it follow. */
  lemma FreshReplicaFollows(s: State, r: int)
    requires r !in s.paused
    ensures var started := Next(s, StartReplica(r));
            var read := Next(started, ReadFlag(r, false));
            started.paused == s.paused[r := false] && read.paused == s.paused[r := Paused(s.flag)]
  {
  }

  /** From the operator to every replica. In any run of the operator, a CircuitBreak reports success, having written or
      having read a brake that nobody has lifted since; the flag of the ConfigMap reaches every replica: then every
      replica is paused, the state from which the load drains. */
  lemma BrakeReachesEveryReplica(cfg: O.Config, op: O.State, ops: seq<O.Step>, st: O.Step, key: Key,
                                 s: State, value: Option<string>, steps: seq<Step>)
    requires O.Initial(op) && key.kind.ConfigMap? && R.Succeeds(O.Exec(cfg, op, ops), st, key)
    requires st.Send? || !R.LiftedSince(cfg, op, ops, st.version, key)
    requires value == FlagValue(O.Current(O.Next(cfg, O.Exec(cfg, op, ops), st)), key)
    requires var s' := Next(s, SetFlag(value)); Steady(s', steps) && Reaches(s', steps)
    requires s.paused.Keys <= s.files.Keys
    ensures AllPaused(Exec(Next(s, SetFlag(value)), steps))
  {
    R.SuccessMeansEngagedIff(cfg, op, ops, st, key);
    KnownValues();
    EveryReplicaFollows(s, value, steps);
  }
}
