/** Whole runs of Acquire: rate limit, window count, agreement with a map that never forgets, memory, liveness. */
module CooldownHistory {
  import opened Arithmetic
  import opened Cooldown

  /** The calls that reach Acquire, in the order in which they take the lock. */
  datatype Call = Call(fp: string, now: int)

  datatype Log = Log(seen: Seen, answers: seq<bool>, stamps: seq<Stamp>)

  function Record(l: Log, call: Call, v: Verdict): Log {
    Log(v.seen, l.answers + [v.ok], Extend(l.stamps, call.fp, call.now, v.ok))
  }

  function Run(calls: seq<Call>, cooldown: int): (l: Log)
    ensures |l.answers| == |calls|
  {
    if calls == [] then Log(map[], [], [])
    else
      var l, call := Run(calls[..|calls| - 1], cooldown), calls[|calls| - 1];
      Record(l, call, AcquireStep(l.seen, call.fp, call.now, cooldown))
  }

  /** The reference: the same test on a map from which nothing is ever collected. */
  function Unforgetting(seen: Seen, fp: string, now: int, cooldown: int): Verdict {
    if fp == "" then Verdict(true, seen)
    else if fp in seen && now - seen[fp] < cooldown then Verdict(false, seen)
    else Verdict(true, seen[fp := now])
  }

  function RunUnforgetting(calls: seq<Call>, cooldown: int): (l: Log)
    ensures |l.answers| == |calls|
  {
    if calls == [] then Log(map[], [], [])
    else
      var l, call := RunUnforgetting(calls[..|calls| - 1], cooldown), calls[|calls| - 1];
      Record(l, call, Unforgetting(l.seen, call.fp, call.now, cooldown))
  }

  lemma {:induction false} RunRemembers(calls: seq<Call>, cooldown: int)
    ensures Remembers(Run(calls, cooldown).seen, Run(calls, cooldown).stamps, cooldown)
  {
    if calls != [] {
      var before, call := calls[..|calls| - 1], calls[|calls| - 1];
      RunRemembers(before, cooldown);
      var l := Run(before, cooldown);
      AcquireKeepsMemory(l.seen, l.stamps, call.fp, call.now, cooldown);
    }
  }

  /** Stamps are accepted calls: non-empty fingerprints with the time their call carried. */
  lemma {:induction false} StampsAreCalls(calls: seq<Call>, cooldown: int)
    ensures forall s | s in Run(calls, cooldown).stamps :: s.fp != "" && Call(s.fp, s.now) in calls
    ensures forall s | s in RunUnforgetting(calls, cooldown).stamps :: s.fp != "" && Call(s.fp, s.now) in calls
  {
    if calls != [] {
      StampsAreCalls(calls[..|calls| - 1], cooldown);
    }
  }

  // ----- rate limit -----

  /** No stamp is more than skew older than an earlier one. */
  ghost predicate Skewed(h: seq<Stamp>, skew: int) {
    forall i, j | 0 <= i < j < |h| :: h[j].now >= h[i].now - skew
  }

  /** Any two stamps of one fingerprint are at least gap apart, in order. */
  ghost predicate Spaced(h: seq<Stamp>, gap: int) {
    forall i, j | 0 <= i < j < |h| && h[i].fp == h[j].fp :: h[j].now - h[i].now >= gap
  }

  lemma {:induction false} LastOf(h: seq<Stamp>, i: nat) returns (last: nat)
    requires i < |h|
    ensures i <= last && LastAt(h, h[i].fp, last)
    decreases |h| - i
  {
    if LastAt(h, h[i].fp, i) {
      last := i;
    } else {
      var k :| i < k < |h| && h[k].fp == h[i].fp;
      last := LastOf(h, k);
    }
  }

  /** An accepted stamp is cooldown - skew after the last one of its fingerprint: either that one is still
      remembered, and the test itself says so, or it was collected at a time the new call cannot precede by
      more than the skew. */
  lemma AcceptedIsSpaced(h: seq<Stamp>, fp: string, now: int, cooldown: int, skew: int)
    requires 0 <= skew <= cooldown && Spaced(h, cooldown - skew)
    requires !OnCooldown(h, fp, now, cooldown)
    requires forall k | 0 <= k < |h| :: now >= h[k].now - skew
    ensures Spaced(h + [Stamp(fp, now)], cooldown - skew)
  {
    forall i | 0 <= i < |h| && h[i].fp == fp
      ensures now - h[i].now >= cooldown - skew
    {
      var last := LastOf(h, i);
      assert now - h[last].now >= cooldown - skew by {
        if Live(h, last, cooldown) {
          assert Kept(h, fp, last, cooldown);
        }
      }
    }
  }

  /** Under every order in which calls reach the lock with times at most skew behind an earlier accepted
      one, accepted stamps of one fingerprint are cooldown - skew apart; cooldown when there is no skew. */
  lemma {:induction false} RateLimit(calls: seq<Call>, cooldown: int, skew: int)
    requires 0 <= skew <= cooldown && Skewed(Run(calls, cooldown).stamps, skew)
    ensures Spaced(Run(calls, cooldown).stamps, cooldown - skew)
  {
    if calls != [] {
      var before, call := calls[..|calls| - 1], calls[|calls| - 1];
      var l, h := Run(before, cooldown), Run(calls, cooldown).stamps;
      assert forall k | 0 <= k < |l.stamps| :: l.stamps[k] == h[k];
      RateLimit(before, cooldown, skew);
      RunRemembers(before, cooldown);
      AcquireKeepsMemory(l.seen, l.stamps, call.fp, call.now, cooldown);
      if h != l.stamps {
        assert h[|l.stamps|] == Stamp(call.fp, call.now);
        AcceptedIsSpaced(l.stamps, call.fp, call.now, cooldown, skew);
      }
    }
  }

  /** The loss is real: another fingerprint's stamp collects the first one, and a call that is skew late
      is then accepted cooldown - skew after it. */
  lemma SkewLossIsReal(a: string, b: string, cooldown: int, skew: int)
    requires a != "" && b != "" && a != b && 0 < skew <= cooldown
    ensures var calls := [Call(a, 0), Call(b, cooldown), Call(a, cooldown - skew)];
            && Run(calls, cooldown).stamps == [Stamp(a, 0), Stamp(b, cooldown), Stamp(a, cooldown - skew)]
            && Skewed(Run(calls, cooldown).stamps, skew)
            && RunUnforgetting(calls, cooldown).answers == [true, true, false]
  {
    var c1, c2 := [Call(a, 0)], [Call(a, 0), Call(b, cooldown)];
    var c3 := [Call(a, 0), Call(b, cooldown), Call(a, cooldown - skew)];
    assert c1[..0] == [] && c2[..1] == c1 && c3[..2] == c2;
    assert Run(c1, cooldown) == Log(map[a := 0], [true], [Stamp(a, 0)]);
    assert Run(c2, cooldown) == Log(map[b := cooldown], [true, true], [Stamp(a, 0), Stamp(b, cooldown)]);
    assert RunUnforgetting(c1, cooldown) == Log(map[a := 0], [true], [Stamp(a, 0)]);
    assert RunUnforgetting(c2, cooldown).seen == map[a := 0, b := cooldown];
    assert RunUnforgetting(c2, cooldown).answers == [true, true];
    var h := Run(c3, cooldown).stamps;
    assert h == Run(c2, cooldown).stamps + [Stamp(a, cooldown - skew)];
    assert RunUnforgetting(c3, cooldown).answers == [true, true] + [false];
  }

  // ----- window count -----

  function CountIn(h: seq<Stamp>, fp: string, lo: int, hi: int): nat {
    if h == [] then 0
    else
      var s := h[|h| - 1];
      CountIn(h[..|h| - 1], fp, lo, hi) + if s.fp == fp && lo <= s.now <= hi then 1 else 0
  }

  /** The k-th stamp inside a window is at least k - 1 gaps after its start. */
  lemma {:induction false} CountReaches(h: seq<Stamp>, fp: string, lo: int, hi: int, gap: int) returns (i: int)
    requires gap >= 0 && Spaced(h, gap) && CountIn(h, fp, lo, hi) > 0
    ensures 0 <= i < |h| && h[i].fp == fp && h[i].now <= hi
    ensures h[i].now >= lo + (CountIn(h, fp, lo, hi) - 1) * gap
  {
    var n := |h| - 1;
    var before, k := h[..n], CountIn(h, fp, lo, hi);
    if CountIn(before, fp, lo, hi) > 0 {
      i := CountReaches(before, fp, lo, hi, gap);
      if CountIn(before, fp, lo, hi) < k {
        assert h[n].now >= h[i].now + gap;
        Distribute(k - 2, gap);
        i := n;
      }
    } else {
      i := n;
    }
  }

  /** How many points at least gap apart fit a closed interval. */
  function PerWindow(length: nat, gap: int): nat
    requires gap > 0
  {
    length / gap + 1
  }

  /** A closed interval of a given length holds at most length / gap + 1 stamps of one fingerprint. */
  lemma WindowCount(h: seq<Stamp>, fp: string, lo: int, length: nat, gap: int)
    requires gap > 0 && Spaced(h, gap)
    ensures CountIn(h, fp, lo, lo + length) <= PerWindow(length, gap)
  {
    var k := CountIn(h, fp, lo, lo + length);
    if k > 0 {
      var i := CountReaches(h, fp, lo, lo + length, gap);
      QuotientBound(k - 1, gap, length);
    }
  }

  ghost predicate EachAtMost(h: seq<Stamp>, lo: int, hi: int, each: nat) {
    forall fp: string :: CountIn(h, fp, lo, hi) <= each
  }

  lemma EachPerWindow(h: seq<Stamp>, lo: int, length: nat, gap: int)
    requires gap > 0 && Spaced(h, gap)
    ensures EachAtMost(h, lo, lo + length, PerWindow(length, gap))
  {
    var hi, each := lo + length, PerWindow(length, gap);
    forall fp: string
      ensures CountIn(h, fp, lo, hi) <= each
    {
      WindowCount(h, fp, lo, length, gap);
    }
  }

  /** How often one fingerprint is acted on in any window, over runs of any length. */
  lemma AcceptedPerWindow(calls: seq<Call>, cooldown: int, skew: int, fp: string, lo: int, length: nat)
    requires 0 <= skew < cooldown && Skewed(Run(calls, cooldown).stamps, skew)
    ensures CountIn(Run(calls, cooldown).stamps, fp, lo, lo + length) <= PerWindow(length, cooldown - skew)
  {
    RateLimit(calls, cooldown, skew);
    WindowCount(Run(calls, cooldown).stamps, fp, lo, length, cooldown - skew);
  }

  // ----- agreement with the map that never forgets -----

  /** Call i falls in a cooldown that an accepted call has already seen expire: the full history still
      refuses it, the collected map no longer can. */
  ghost predicate Forgets(calls: seq<Call>, i: int, cooldown: int)
    requires 0 <= i < |calls|
  {
    var h, call := RunUnforgetting(calls[..i], cooldown).stamps, calls[i];
    exists last :: LastAt(h, call.fp, last) && call.now - h[last].now < cooldown && !Live(h, last, cooldown)
  }

  ghost predicate KeepsAll(seen: Seen, h: seq<Stamp>) {
    && (forall fp | fp in seen :: exists i :: LastAt(h, fp, i) && seen[fp] == h[i].now)
    && (forall fp, i | LastAt(h, fp, i) :: fp in seen && seen[fp] == h[i].now)
  }

  lemma {:induction false} UnforgettingKeepsAll(calls: seq<Call>, cooldown: int)
    ensures KeepsAll(RunUnforgetting(calls, cooldown).seen, RunUnforgetting(calls, cooldown).stamps)
  {
    if calls != [] {
      var before, call := calls[..|calls| - 1], calls[|calls| - 1];
      UnforgettingKeepsAll(before, cooldown);
      var l, l' := RunUnforgetting(before, cooldown), RunUnforgetting(calls, cooldown);
      if l'.stamps != l.stamps {
        forall f | f in l'.seen
          ensures exists i :: LastAt(l'.stamps, f, i) && l'.seen[f] == l'.stamps[i].now
        {
          if f == call.fp {
            assert LastAt(l'.stamps, f, |l.stamps|);
          } else {
            var i :| LastAt(l.stamps, f, i) && l.seen[f] == l.stamps[i].now;
            assert LastAt(l'.stamps, f, i);
          }
        }
        forall f, i | LastAt(l'.stamps, f, i)
          ensures f in l'.seen && l'.seen[f] == l'.stamps[i].now
        {
          if i < |l.stamps| {
            assert l'.stamps[|l.stamps|].fp != f;
            assert forall k | i < k < |l.stamps| :: l.stamps[k] == l'.stamps[k];
            assert LastAt(l.stamps, f, i);
          }
        }
      }
    }
  }

  lemma OneStepAgreement(l: Log, r: Log, call: Call, cooldown: int)
    requires l.stamps == r.stamps && Remembers(l.seen, l.stamps, cooldown) && KeepsAll(r.seen, r.stamps)
    requires forall s | s in r.stamps :: s.fp != ""
    ensures AcquireStep(l.seen, call.fp, call.now, cooldown).ok == Unforgetting(r.seen, call.fp, call.now, cooldown).ok
            <==> !exists last :: LastAt(r.stamps, call.fp, last) && call.now - r.stamps[last].now < cooldown
                                 && !Live(r.stamps, last, cooldown)
  {
    AcquireKeepsMemory(l.seen, l.stamps, call.fp, call.now, cooldown);
    if last :| LastAt(r.stamps, call.fp, last) && call.now - r.stamps[last].now < cooldown {
      assert forall i | LastAt(r.stamps, call.fp, i) :: i == last;
      assert r.stamps[last] in r.stamps;
      if Live(r.stamps, last, cooldown) {
        assert Kept(l.stamps, call.fp, last, cooldown);
      }
    }
  }

  lemma LastCallAgreement(calls: seq<Call>, cooldown: int)
    requires calls != []
    requires var before := calls[..|calls| - 1];
             Run(before, cooldown).stamps == RunUnforgetting(before, cooldown).stamps
    ensures Run(calls, cooldown).answers[|calls| - 1] == RunUnforgetting(calls, cooldown).answers[|calls| - 1]
            <==> !Forgets(calls, |calls| - 1, cooldown)
    ensures !Forgets(calls, |calls| - 1, cooldown)
            ==> Run(calls, cooldown).stamps == RunUnforgetting(calls, cooldown).stamps
  {
    var before := calls[..|calls| - 1];
    RunRemembers(before, cooldown);
    UnforgettingKeepsAll(before, cooldown);
    StampsAreCalls(before, cooldown);
    OneStepAgreement(Run(before, cooldown), RunUnforgetting(before, cooldown), calls[|calls| - 1], cooldown);
  }

  /** The collected map answers a whole run like one that never forgets exactly when no call of the run
      arrives inside a cooldown that an accepted call has already seen expire. */
  lemma {:induction false} AgreesIff(calls: seq<Call>, cooldown: int)
    ensures Run(calls, cooldown).answers == RunUnforgetting(calls, cooldown).answers
            <==> forall i | 0 <= i < |calls| :: !Forgets(calls, i, cooldown)
    ensures Run(calls, cooldown).answers == RunUnforgetting(calls, cooldown).answers
            ==> Run(calls, cooldown).stamps == RunUnforgetting(calls, cooldown).stamps
  {
    if calls != [] {
      var n := |calls| - 1;
      var before := calls[..n];
      AgreesIff(before, cooldown);
      forall i | 0 <= i < n
        ensures Forgets(calls, i, cooldown) <==> Forgets(before, i, cooldown)
      {
        assert calls[..i] == before[..i];
      }
      var a, b := Run(calls, cooldown).answers, RunUnforgetting(calls, cooldown).answers;
      var a0, b0 := Run(before, cooldown).answers, RunUnforgetting(before, cooldown).answers;
      assert a == a0 + [a[n]] && b == b0 + [b[n]];
      if a0 == b0 {
        LastCallAgreement(calls, cooldown);
        assert a == b <==> !Forgets(calls, n, cooldown);
      } else {
        assert a[..n] != b[..n];
      }
    }
  }

  ghost predicate NonDecreasing(calls: seq<Call>) {
    forall i, j | 0 <= i < j < |calls| :: calls[i].now <= calls[j].now
  }

  /** With clocks that do not run backwards nothing is lost by forgetting. */
  lemma CollectionIsInvisible(calls: seq<Call>, cooldown: int)
    requires NonDecreasing(calls)
    ensures Run(calls, cooldown).answers == RunUnforgetting(calls, cooldown).answers
  {
    forall i | 0 <= i < |calls|
      ensures !Forgets(calls, i, cooldown)
    {
      StampsAreCalls(calls[..i], cooldown);
      var h := RunUnforgetting(calls[..i], cooldown).stamps;
      forall k | 0 <= k < |h|
        ensures h[k].now <= calls[i].now
      {
        assert h[k] in h;
        var j :| 0 <= j < i && calls[j] == Call(h[k].fp, h[k].now);
      }
    }
    AgreesIff(calls, cooldown);
  }

  // ----- runs in time order -----

  lemma {:induction false} StampsInOrder(calls: seq<Call>, cooldown: int)
    requires NonDecreasing(calls)
    ensures Skewed(Run(calls, cooldown).stamps, 0)
  {
    if calls != [] {
      var before, n := calls[..|calls| - 1], |calls| - 1;
      StampsInOrder(before, cooldown);
      StampsAreCalls(before, cooldown);
      var h := Run(before, cooldown).stamps;
      forall k | 0 <= k < |h|
        ensures h[k].now <= calls[n].now
      {
        assert h[k] in h;
        var j :| 0 <= j < n && calls[j] == Call(h[k].fp, h[k].now);
      }
    }
  }

  /** With clocks that do not run backwards: at most length / cooldown + 1 in any closed interval. */
  lemma WindowCountInOrder(calls: seq<Call>, cooldown: int, fp: string, lo: int, length: nat)
    requires NonDecreasing(calls) && cooldown > 0
    ensures CountIn(Run(calls, cooldown).stamps, fp, lo, lo + length) <= PerWindow(length, cooldown)
  {
    StampsInOrder(calls, cooldown);
    AcceptedPerWindow(calls, cooldown, 0, fp, lo, length);
  }

  /** Right after an accepted stamp the map is every fingerprint's last stamp younger than the cooldown. */
  lemma ExactMemory(calls: seq<Call>, cooldown: int)
    requires NonDecreasing(calls) && Run(calls, cooldown).stamps != []
    ensures var l := Run(calls, cooldown);
            var latest := l.stamps[|l.stamps| - 1].now;
            && (forall fp | fp in l.seen ::
                  exists i :: LastAt(l.stamps, fp, i) && l.seen[fp] == l.stamps[i].now && latest - l.seen[fp] < cooldown)
            && (forall fp, i | LastAt(l.stamps, fp, i) && latest - l.stamps[i].now < cooldown ::
                  fp in l.seen && l.seen[fp] == l.stamps[i].now)
  {
    var l := Run(calls, cooldown);
    var n := |l.stamps| - 1;
    RunRemembers(calls, cooldown);
    StampsInOrder(calls, cooldown);
    forall fp, i | LastAt(l.stamps, fp, i)
      ensures Kept(l.stamps, fp, i, cooldown) <==> l.stamps[n].now - l.stamps[i].now < cooldown
    {
      assert forall k | i <= k <= n :: l.stamps[k].now <= l.stamps[n].now;
    }
  }

  /** So it is no bigger than the number of stamps in the last window. */
  lemma MemoryBound(calls: seq<Call>, cooldown: int)
    requires NonDecreasing(calls) && Run(calls, cooldown).stamps != []
    ensures var l := Run(calls, cooldown);
            |l.seen| <= |Recent(l.stamps, l.stamps[|l.stamps| - 1].now - cooldown)|
  {
    ExactMemory(calls, cooldown);
    var l := Run(calls, cooldown);
    YoungStamps(l.seen, l.stamps, l.stamps[|l.stamps| - 1].now - cooldown);
  }

  lemma YoungStamps(seen: Seen, h: seq<Stamp>, after: int)
    requires forall fp | fp in seen :: exists i :: LastAt(h, fp, i) && seen[fp] == h[i].now && seen[fp] > after
    ensures |seen| <= |Recent(h, after)|
  {
    forall fp | fp in seen.Keys
      ensures exists i :: i in Recent(h, after) && h[i].fp == fp
    {
      var i :| LastAt(h, fp, i) && seen[fp] == h[i].now;
      assert i in Recent(h, after);
    }
    OneStampEach(seen.Keys, Recent(h, after), h);
    assert |seen| == |seen.Keys|;
  }

  ghost function Recent(h: seq<Stamp>, after: int): set<int> {
    set i | 0 <= i < |h| && h[i].now > after
  }

  lemma {:induction false} OneStampEach(fps: set<string>, indices: set<int>, h: seq<Stamp>)
    requires forall i | i in indices :: 0 <= i < |h|
    requires forall fp | fp in fps :: exists i :: i in indices && h[i].fp == fp
    ensures |fps| <= |indices|
    decreases fps
  {
    if fp :| fp in fps {
      var i :| i in indices && h[i].fp == fp;
      OneStampEach(fps - {fp}, indices - {i}, h);
    }
  }

  /** A refusal never refreshes the stamp: a fingerprint redelivered at gaps of at most redelivery, long
      enough, is acted on again within cooldown + redelivery of its last action. */
  lemma BoundedLiveness(calls: seq<Call>, cooldown: int, redelivery: int, a: int, b: int)
    requires NonDecreasing(calls) && cooldown > 0
    requires 0 <= a < b < |calls| && calls[a].fp == calls[b].fp != ""
    requires Run(calls, cooldown).answers[a]
    requires calls[b].now >= calls[a].now + cooldown
    requires forall i | a <= i < b && calls[i].fp == calls[a].fp ::
               exists j | i < j <= b :: calls[j].fp == calls[a].fp && calls[j].now - calls[i].now <= redelivery
    ensures exists j | a < j <= b :: calls[j].fp == calls[a].fp && Run(calls, cooldown).answers[j]
                                     && calls[a].now + cooldown <= calls[j].now < calls[a].now + cooldown + redelivery
  {
    var due := calls[a].now + cooldown;
    var j := FirstDue(calls, calls[a].fp, due, redelivery, a, b);
    NothingAcceptedBefore(calls, cooldown, a, j);
  }

  /** The first delivery at or after due, walking from one delivery to the next. */
  lemma {:induction false} FirstDue(calls: seq<Call>, fp: string, due: int, redelivery: int, i: int, b: int) returns (j: int)
    requires NonDecreasing(calls) && 0 <= i < b < |calls| && calls[i].fp == fp && calls[i].now < due <= calls[b].now
    requires forall x | i <= x < b && calls[x].fp == fp ::
               exists y | x < y <= b :: calls[y].fp == fp && calls[y].now - calls[x].now <= redelivery
    ensures i < j <= b && calls[j].fp == fp && due <= calls[j].now < due + redelivery
    ensures forall x | i <= x < j && calls[x].fp == fp :: calls[x].now < due
    decreases b - i
  {
    var y :| i < y <= b && calls[y].fp == fp && calls[y].now - calls[i].now <= redelivery;
    if x :| i < x < y && calls[x].fp == fp && calls[x].now >= due {
      j := FirstIn(calls, fp, due, i, x);
    } else if calls[y].now >= due {
      j := y;
    } else {
      j := FirstDue(calls, fp, due, redelivery, y, b);
    }
  }

  lemma {:induction false} FirstIn(calls: seq<Call>, fp: string, due: int, i: int, x: int) returns (j: int)
    requires 0 <= i < x < |calls| && calls[i].now < due && calls[x].fp == fp && calls[x].now >= due
    ensures i < j <= x && calls[j].fp == fp && calls[j].now >= due
    ensures forall k | i <= k < j && calls[k].fp == fp :: calls[k].now < due
    decreases x
  {
    if k :| i < k < x && calls[k].fp == fp && calls[k].now >= due {
      j := FirstIn(calls, fp, due, i, k);
    } else {
      j := x;
    }
  }

  /** Between an accepted call and the first delivery a cooldown later nothing of the fingerprint is accepted,
      so that delivery is. */
  lemma NothingAcceptedBefore(calls: seq<Call>, cooldown: int, a: int, j: int)
    requires NonDecreasing(calls) && cooldown > 0
    requires 0 <= a < j < |calls| && calls[a].fp == calls[j].fp != "" && Run(calls, cooldown).answers[a]
    requires calls[j].now >= calls[a].now + cooldown
    requires forall x | a <= x < j && calls[x].fp == calls[a].fp :: calls[x].now < calls[a].now + cooldown
    ensures Run(calls, cooldown).answers[j]
  {
    PrefixAnswers(calls, cooldown, j);
    StampStays(calls[..j], cooldown, a);
    DueIsAccepted(calls, cooldown, j);
  }

  lemma DueIsAccepted(calls: seq<Call>, cooldown: int, j: int)
    requires 0 <= j < |calls|
    requires var seen, call := Run(calls[..j], cooldown).seen, calls[j];
             call.fp in seen ==> call.now - seen[call.fp] >= cooldown
    ensures Run(calls, cooldown).answers[j]
  {
    assert calls[..j + 1][..j] == calls[..j];
    assert Run(calls[..j + 1], cooldown).answers[j];
    PrefixAnswers(calls, cooldown, j + 1);
  }

  lemma {:induction false} PrefixAnswers(calls: seq<Call>, cooldown: int, i: int)
    requires 0 <= i <= |calls|
    ensures Run(calls[..i], cooldown).answers == Run(calls, cooldown).answers[..i]
  {
    var n := |calls| - 1;
    if i <= n {
      PrefixAnswers(calls[..n], cooldown, i);
      assert calls[..n][..i] == calls[..i];
    } else {
      assert calls[..i] == calls;
    }
  }

  /** Until the cooldown is over, the map's entry for an accepted fingerprint stays the accepted call's. */
  lemma {:induction false} StampStays(calls: seq<Call>, cooldown: int, a: int)
    requires NonDecreasing(calls) && cooldown > 0
    requires 0 <= a < |calls| && calls[a].fp != "" && Run(calls, cooldown).answers[a]
    requires forall x | a <= x < |calls| && calls[x].fp == calls[a].fp :: calls[x].now < calls[a].now + cooldown
    ensures calls[a].fp in Run(calls, cooldown).seen ==> Run(calls, cooldown).seen[calls[a].fp] == calls[a].now
    ensures calls[|calls| - 1].now < calls[a].now + cooldown ==> calls[a].fp in Run(calls, cooldown).seen
  {
    var n := |calls| - 1;
    if a < n {
      StampStays(calls[..n], cooldown, a);
    }
  }
}
