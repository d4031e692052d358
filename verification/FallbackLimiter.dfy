/** The in-process counter that stands in for Redis: one dictionary, emptied whenever the
    minute changes. */
module FallbackLimiter {

  type Key = (nat, nat)

  datatype Hit = Hit(key: Key, window: nat)

  /** What an ideal counter would have counted so far. */
  function Ideal(log: seq<Hit>, key: Key, w: nat): nat {
    if log == [] then 0
    else Ideal(log[..|log| - 1], key, w) + if log[|log| - 1] == Hit(key, w) then 1 else 0
  }

  lemma {:induction false} IdealCounts(log: seq<Hit>, key: Key, w: nat)
    ensures Ideal(log, key, w) == |set k: nat | k < |log| && log[k] == Hit(key, w)|
  {
    if log != [] {
      var n := |log| - 1;
      IdealCounts(log[..n], key, w);
      var before := set k: nat | k < n && log[..n][k] == Hit(key, w);
      assert n !in before;
      assert (set k: nat | k < |log| && log[k] == Hit(key, w)) == if log[n] == Hit(key, w) then before + {n} else before;
    }
  }

  /** What survives in the dictionary: the hits since the minute last changed to w. */
  function Trailing(log: seq<Hit>, key: Key, w: nat): nat {
    if log == [] || log[|log| - 1].window != w then 0
    else Trailing(log[..|log| - 1], key, w) + if log[|log| - 1].key == key then 1 else 0
  }

  /** No hit of the key in that minute lies before a hit of another minute. */
  predicate NoneInterrupted(log: seq<Hit>, key: Key, w: nat) {
    if log == [] then true
    else if log[|log| - 1].window == w then NoneInterrupted(log[..|log| - 1], key, w)
    else Hit(key, w) !in log
  }

  predicate MonotoneTo(log: seq<Hit>, w: nat) {
    && (forall j, k :: 0 <= j < k < |log| ==> log[j].window <= log[k].window)
    && (forall k :: 0 <= k < |log| ==> log[k].window <= w)
  }

  lemma {:induction false} IdealZero(log: seq<Hit>, key: Key, w: nat)
    ensures Ideal(log, key, w) == 0 <==> Hit(key, w) !in log
  {
    if log != [] {
      var n := |log| - 1;
      IdealZero(log[..n], key, w);
      assert log == log[..n] + [log[n]];
    }
  }

  /** The dictionary agrees with the ideal counter exactly when the clock never left the
      minute and came back to it around one of the key's hits. */
  lemma {:induction false} TrailingIsIdealIff(log: seq<Hit>, key: Key, w: nat)
    ensures Trailing(log, key, w) <= Ideal(log, key, w)
    ensures Trailing(log, key, w) == Ideal(log, key, w) <==> NoneInterrupted(log, key, w)
  {
    IdealZero(log, key, w);
    if log != [] && log[|log| - 1].window == w {
      TrailingIsIdealIff(log[..|log| - 1], key, w);
    }
  }

  /** Under a clock that does not run backwards it always agrees. */
  lemma {:induction false} MonotoneNeverInterrupts(log: seq<Hit>, key: Key, w: nat)
    requires MonotoneTo(log, w)
    ensures NoneInterrupted(log, key, w)
  {
    if log != [] {
      var n := |log| - 1;
      if log[n].window == w {
        MonotoneNeverInterrupts(log[..n], key, w);
      } else {
        assert log[n].window < w;
        assert forall k :: 0 <= k < n ==> log[k].window <= log[n].window;
      }
    }
  }

  lemma TrailingNext(log: seq<Hit>, hit: Hit, key: Key, w: nat)
    requires hit.window == w
    ensures Trailing(log + [hit], key, w) == Trailing(log, key, w) + if hit.key == key then 1 else 0
  {
    assert (log + [hit])[..|log|] == log;
  }

  lemma Interrupted(log: seq<Hit>, w: nat)
    ensures log == [] || log[|log| - 1].window != w ==> forall key :: Trailing(log, key, w) == 0
  {
  }

  class LocalFallback {
    var counts: map<Key, nat>
    var window: nat
    ghost var log: seq<Hit>

    /** The dictionary holds the trailing run of the current minute. */
    ghost predicate Valid()
      reads this
    {
      && (log == [] ==> counts == map[])
      && (log != [] ==> window == log[|log| - 1].window)
      && (forall key :: (if key in counts then counts[key] else 0) == Trailing(log, key, window))
    }

    constructor ()
      ensures Valid() && log == []
    {
      counts, window, log := map[], 0, [];
    }

    method HitOnce(now: nat, key: Key, limit: nat) returns (allowed: bool, count: nat)
      requires Valid()
      modifies this
      ensures Valid() && log == old(log) + [Hit(key, now / 60)]
      ensures count == Trailing(old(log), key, now / 60) + 1 && (allowed <==> count <= limit)
      ensures MonotoneTo(old(log), now / 60) ==> count == Ideal(old(log), key, now / 60) + 1
    {
      hide Trailing, Ideal, NoneInterrupted, MonotoneTo;
      var w := now / 60;
      ghost var was := log;
      forall k ensures Trailing(was + [Hit(key, w)], k, w) == Trailing(was, k, w) + if k == key then 1 else 0 {
        TrailingNext(was, Hit(key, w), k, w);
      }
      Interrupted(was, w);
      if MonotoneTo(log, w) {
        MonotoneNeverInterrupts(log, key, w);
      }
      TrailingIsIdealIff(log, key, w);
      if w != window {
        counts, window := map[], w;
      }
      count := (if key in counts then counts[key] else 0) + 1;
      counts := counts[key := count];
      allowed := count <= limit;
      log := log + [Hit(key, w)];
    }
  }
}
