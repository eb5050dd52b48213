/** operator/internal/server/dedupe.go: the fingerprint cooldown map, and the history it is a cache of. */
module Cooldown {
  /** fingerprint -> last action time */
  type Seen = map<string, int>

  datatype Verdict = Verdict(ok: bool, seen: Seen)

  function Collect(seen: Seen, now: int, cooldown: int): Seen {
    map fp | fp in seen && now - seen[fp] < cooldown :: seen[fp]
  }

  function AcquireStep(seen: Seen, fp: string, now: int, cooldown: int): Verdict {
    if fp == "" then Verdict(true, seen)
    else if fp in seen && now - seen[fp] < cooldown then Verdict(false, seen)
    else Verdict(true, Collect(seen[fp := now], now, cooldown))
  }

  // ----- the accepted stamps, oldest first, never forgotten -----

  datatype Stamp = Stamp(fp: string, now: int)

  ghost predicate LastAt(h: seq<Stamp>, fp: string, i: int) {
    0 <= i < |h| && h[i].fp == fp && forall k | i < k < |h| :: h[k].fp != fp
  }

  /** No stamp from the i-th on was taken a whole cooldown after the i-th: nothing has collected it. */
  ghost predicate Live(h: seq<Stamp>, i: int, cooldown: int)
    requires 0 <= i < |h|
  {
    forall k | i <= k < |h| :: h[k].now - h[i].now < cooldown
  }

  ghost predicate Kept(h: seq<Stamp>, fp: string, i: int, cooldown: int) {
    LastAt(h, fp, i) && Live(h, i, cooldown)
  }

  /** The map is exactly the last stamp of every fingerprint whose last stamp is still live. */
  ghost predicate Remembers(seen: Seen, h: seq<Stamp>, cooldown: int) {
    && (forall fp | fp in seen :: exists i :: Kept(h, fp, i, cooldown) && seen[fp] == h[i].now)
    && (forall fp, i | Kept(h, fp, i, cooldown) :: fp in seen && seen[fp] == h[i].now)
  }

  /** What the history says about a call. */
  ghost predicate OnCooldown(h: seq<Stamp>, fp: string, now: int, cooldown: int) {
    exists i :: Kept(h, fp, i, cooldown) && now - h[i].now < cooldown
  }

  function Extend(h: seq<Stamp>, fp: string, now: int, ok: bool): seq<Stamp> {
    if ok && fp != "" then h + [Stamp(fp, now)] else h
  }

  /** One call, in whatever time order: the answer is the one the history gives, and the map stays its exact cache. */
  lemma AcquireKeepsMemory(seen: Seen, h: seq<Stamp>, fp: string, now: int, cooldown: int)
    requires Remembers(seen, h, cooldown)
    ensures var v := AcquireStep(seen, fp, now, cooldown);
            && (v.ok <==> fp == "" || !OnCooldown(h, fp, now, cooldown))
            && Remembers(v.seen, Extend(h, fp, now, v.ok), cooldown)
  {
    var v := AcquireStep(seen, fp, now, cooldown);
    if fp != "" && v.ok {
      var h' := h + [Stamp(fp, now)];
      forall f | f in v.seen
        ensures exists i :: Kept(h', f, i, cooldown) && v.seen[f] == h'[i].now
      {
        if f == fp {
          assert Kept(h', f, |h|, cooldown);
        } else {
          var i :| Kept(h, f, i, cooldown) && seen[f] == h[i].now;
          assert Kept(h', f, i, cooldown);
        }
      }
      forall f, i | Kept(h', f, i, cooldown)
        ensures f in v.seen && v.seen[f] == h'[i].now
      {
        if i < |h| {
          assert h'[|h|].now - h'[i].now < cooldown && h'[|h|].fp != f;
          assert forall k | i <= k < |h| :: h'[k] == h[k];
          assert Kept(h, f, i, cooldown);
        }
      }
    }
  }

  class Dedupe {
    const cooldown: int
    var seen: Seen
    ghost var history: seq<Stamp>

    ghost predicate Valid()
      reads this
    {
      Remembers(seen, history, cooldown)
    }

    constructor (cooldown: int)
      ensures Valid() && this.cooldown == cooldown && seen == map[] && history == []
    {
      this.cooldown := cooldown;
      seen := map[];
      history := [];
    }

    method Acquire(fingerprint: string, now: int) returns (ok: bool)
      requires Valid()
      modifies this
      ensures Valid()
      ensures ok <==> fingerprint == "" || !OnCooldown(old(history), fingerprint, now, cooldown)
      ensures history == Extend(old(history), fingerprint, now, ok)
      ensures Verdict(ok, seen) == AcquireStep(old(seen), fingerprint, now, cooldown)
    {
      AcquireKeepsMemory(seen, history, fingerprint, now, cooldown);
      if fingerprint == "" {
        return true;
      }
      if fingerprint in seen && now - seen[fingerprint] < cooldown {
        return false;
      }
      seen := seen[fingerprint := now];
      GcLocked(now);
      history := history + [Stamp(fingerprint, now)];
      return true;
    }

    method GcLocked(now: int)
      modifies this`seen
      ensures seen == Collect(old(seen), now, cooldown)
    {
      var todo := seen.Keys;
      while todo != {}
        invariant todo <= old(seen).Keys
        invariant seen == map fp | fp in old(seen) && (fp in todo || now - old(seen)[fp] < cooldown) :: old(seen)[fp]
      {
        var fp :| fp in todo;
        if now - seen[fp] >= cooldown {
          seen := seen - {fp};
        }
        todo := todo - {fp};
      }
    }
  }
}
