/** Fixed one-minute windows: the Redis counters, what they admit over any sixty seconds, and
    the in-process fallback. */
module RateLimit {
  import opened Common

  const WINDOW_SECONDS: nat := 60
  const COUNTER_TTL_SECONDS: nat := 90
  const TOR_GLOBAL_MULTIPLIER: nat := 20

  /** All onion traffic shares one identifier; beside it each claimed identity has its own. */
  datatype Identifier = Clear(ip: nat) | Tor | TorAs(claim: nat)

  function Limit(id: Identifier, perMinute: nat): nat {
    if id.Tor? then perMinute * TOR_GLOBAL_MULTIPLIER else perMinute
  }

  datatype Counter = Counter(count: nat, exp: int)

  /** A request admitted for an identifier at the time it read. */
  datatype Admission = Admission(id: Identifier, now: nat)

  /** One bucket. `pending`: requests that read the clock and have not counted yet. */
  datatype Bucket = Bucket(
    clock: nat, counters: map<(Identifier, nat), Counter>, pending: map<nat, Admission>, admitted: seq<Admission>)

  datatype Step = Wait(seconds: nat) | Read(o: nat, id: Identifier) | Count(o: nat)

  function WindowOf(now: nat): nat { now / WINDOW_SECONDS }

  function CountAt(b: Bucket, id: Identifier, w: nat): nat {
    if (id, w) in b.counters && b.clock < b.counters[(id, w)].exp then b.counters[(id, w)].count else 0
  }

  /** INCR and EXPIRE on the window's key, then the comparison. */
  function DoCount(b: Bucket, o: nat, perMinute: nat): Bucket {
    if o !in b.pending then b
    else
      var a := b.pending[o];
      var n := CountAt(b, a.id, WindowOf(a.now)) + 1;
      b.(counters := b.counters[(a.id, WindowOf(a.now)) := Counter(n, b.clock + COUNTER_TTL_SECONDS)],
         pending := b.pending - {o},
         admitted := if n <= Limit(a.id, perMinute) then b.admitted + [a] else b.admitted)
  }

  function Apply(b: Bucket, step: Step, perMinute: nat): Bucket {
    match step
    case Wait(d) => b.(clock := b.clock + d)
    case Read(o, id) => if o in b.pending then b else b.(pending := b.pending[o := Admission(id, b.clock)])
    case Count(o) => DoCount(b, o, perMinute)
  }

  function Run(b: Bucket, steps: seq<Step>, perMinute: nat): Bucket
    decreases |steps|
  {
    if steps == [] then b else Run(Apply(b, steps[0], perMinute), steps[1..], perMinute)
  }

  function Start(now: nat): Bucket { Bucket(now, map[], map[], []) }

  /** A request counts within half a minute of reading the clock: the counter's 90 seconds
      leave no more room than that. */
  predicate Prompt(b: Bucket, steps: seq<Step>, perMinute: nat)
    decreases |steps|
  {
    steps == [] ||
    ((steps[0].Count? && steps[0].o in b.pending ==>
        b.clock <= b.pending[steps[0].o].now + (COUNTER_TTL_SECONDS - WINDOW_SECONDS))
     && Prompt(Apply(b, steps[0], perMinute), steps[1..], perMinute))
  }

  /** How many admissions for id fall into [lo, hi). */
  function Admitted(log: seq<Admission>, id: Identifier, lo: int, hi: int): nat {
    if log == [] then 0
    else
      var (rest, a) := (log[..|log| - 1], log[|log| - 1]);
      Admitted(rest, id, lo, hi) + if a.id == id && lo <= a.now < hi then 1 else 0
  }

  function InWindow(log: seq<Admission>, id: Identifier, w: nat): nat {
    Admitted(log, id, WINDOW_SECONDS * w, WINDOW_SECONDS * w + WINDOW_SECONDS)
  }

  predicate WindowInv(b: Bucket, id: Identifier, w: nat, perMinute: nat) {
    && InWindow(b.admitted, id, w) <= Limit(id, perMinute)
    && (InWindow(b.admitted, id, w) > 0 ==> (id, w) in b.counters)
    && ((id, w) in b.counters ==>
          && WINDOW_SECONDS * w + COUNTER_TTL_SECONDS <= b.counters[(id, w)].exp
          && InWindow(b.admitted, id, w) <= b.counters[(id, w)].count)
  }

  ghost predicate Inv(b: Bucket, perMinute: nat) {
    && (forall id, w :: WindowInv(b, id, w, perMinute))
    && (forall o :: o in b.pending ==> b.pending[o].now <= b.clock)
  }

  lemma WindowBounds(now: nat)
    ensures WINDOW_SECONDS * WindowOf(now) <= now < WINDOW_SECONDS * WindowOf(now) + WINDOW_SECONDS
  {
  }

  lemma SameWindow(now: nat, w: nat)
    ensures WINDOW_SECONDS * w <= now < WINDOW_SECONDS * w + WINDOW_SECONDS <==> WindowOf(now) == w
  {
  }

  lemma AdmitOne(log: seq<Admission>, a: Admission, id: Identifier, w: nat)
    ensures InWindow(log + [a], id, w) == InWindow(log, id, w) + if a.id == id && WindowOf(a.now) == w then 1 else 0
  {
    assert (log + [a])[..|log|] == log;
    SameWindow(a.now, w);
  }

  lemma CountKeeps(b: Bucket, o: nat, perMinute: nat, id: Identifier, w: nat)
    requires Inv(b, perMinute)
    requires o in b.pending ==> b.clock <= b.pending[o].now + (COUNTER_TTL_SECONDS - WINDOW_SECONDS)
    ensures WindowInv(DoCount(b, o, perMinute), id, w, perMinute)
  {
    assert WindowInv(b, id, w, perMinute);
    if o in b.pending {
      AdmitOne(b.admitted, b.pending[o], id, w);
      WindowBounds(b.pending[o].now);
      hide InWindow;
    }
  }

  lemma {:induction false} RunKeeps(b: Bucket, steps: seq<Step>, perMinute: nat)
    requires Inv(b, perMinute) && Prompt(b, steps, perMinute)
    ensures Inv(Run(b, steps, perMinute), perMinute)
    decreases |steps|
  {
    if steps != [] {
      var v := Apply(b, steps[0], perMinute);
      forall id, w ensures WindowInv(v, id, w, perMinute) {
        assert WindowInv(b, id, w, perMinute);
        if steps[0].Count? { CountKeeps(b, steps[0].o, perMinute, id, w); }
      }
      RunKeeps(v, steps[1..], perMinute);
    }
  }

  lemma {:induction false} SplitInterval(log: seq<Admission>, id: Identifier, lo: nat, w: nat)
    requires w == WindowOf(lo)
    ensures Admitted(log, id, lo, lo + WINDOW_SECONDS) <= InWindow(log, id, w) + InWindow(log, id, w + 1)
  {
    if log != [] {
      SplitInterval(log[..|log| - 1], id, lo, w);
      WindowBounds(lo);
    }
  }

  /** Any sixty consecutive seconds admit at most twice the limit: for one identifier, and
      with the raised limit, forty times it for all onion traffic together. */
  lemma TwiceTheLimit(now: nat, steps: seq<Step>, perMinute: nat, id: Identifier, lo: nat)
    requires Prompt(Start(now), steps, perMinute)
    ensures var log := Run(Start(now), steps, perMinute).admitted;
            && Admitted(log, id, lo, lo + WINDOW_SECONDS) <= 2 * Limit(id, perMinute)
            && Admitted(log, Tor, lo, lo + WINDOW_SECONDS) <= 40 * perMinute
  {
    RunKeeps(Start(now), steps, perMinute);
    var b := Run(Start(now), steps, perMinute);
    var w := WindowOf(lo);
    assert WindowInv(b, id, w, perMinute) && WindowInv(b, id, w + 1, perMinute);
    assert WindowInv(b, Tor, w, perMinute) && WindowInv(b, Tor, w + 1, perMinute);
    SplitInterval(b.admitted, id, lo, w);
    SplitInterval(b.admitted, Tor, lo, w);
  }

  // ---- the bound is reached ----

  function Burst(o: nat, n: nat): seq<Step> { if n == 0 then [] else Burst(o, n - 1) + [Read(o + n, Clear(0))] + [Count(o + n)] }

  lemma {:induction false} RunMore(b: Bucket, steps: seq<Step>, last: Step, perMinute: nat)
    ensures Run(b, steps + [last], perMinute) == Apply(Run(b, steps, perMinute), last, perMinute)
    decreases |steps|
  {
    if steps == [] {
      assert (steps + [last])[1..] == [];
    } else {
      RunMore(Apply(b, steps[0], perMinute), steps[1..], last, perMinute);
      assert (steps + [last])[1..] == steps[1..] + [last];
    }
  }

  /** A burst of exactly the limit inside one untouched window is admitted whole. */
  lemma {:induction false} BurstAdmitted(b: Bucket, o: nat, n: nat, perMinute: nat)
    requires n <= perMinute && b.pending == map[] && CountAt(b, Clear(0), WindowOf(b.clock)) == 0
    ensures var v := Run(b, Burst(o, n), perMinute);
            && v.clock == b.clock && v.pending == map[] && CountAt(v, Clear(0), WindowOf(b.clock)) == n
            && |v.admitted| == |b.admitted| + n && b.admitted <= v.admitted
            && (forall k :: |b.admitted| <= k < |v.admitted| ==> v.admitted[k] == Admission(Clear(0), b.clock))
            && (forall w :: w != WindowOf(b.clock) ==> CountAt(v, Clear(0), w) == CountAt(b, Clear(0), w))
  {
    if n > 0 {
      BurstAdmitted(b, o, n - 1, perMinute);
      var v := Run(b, Burst(o, n - 1), perMinute);
      RunMore(b, Burst(o, n - 1), Read(o + n, Clear(0)), perMinute);
      RunMore(b, Burst(o, n - 1) + [Read(o + n, Clear(0))], Count(o + n), perMinute);
      var v1 := Apply(v, Read(o + n, Clear(0)), perMinute);
      assert v1.pending == map[o + n := Admission(Clear(0), b.clock)];
      assert Apply(v1, Count(o + n), perMinute).pending == map[];
    }
  }

  lemma {:induction false} RunConcat(b: Bucket, s1: seq<Step>, s2: seq<Step>, perMinute: nat)
    ensures Run(b, s1 + s2, perMinute) == Run(Run(b, s1, perMinute), s2, perMinute)
    decreases |s1|
  {
    if s1 == [] {
      assert s1 + s2 == s2;
    } else {
      assert (s1 + s2)[1..] == s1[1..] + s2;
      RunConcat(Apply(b, s1[0], perMinute), s1[1..], s2, perMinute);
    }
  }

  lemma {:induction false} AllInside(log: seq<Admission>, id: Identifier, lo: int, hi: int)
    requires forall k :: 0 <= k < |log| ==> log[k].id == id && lo <= log[k].now < hi
    ensures Admitted(log, id, lo, hi) == |log|
  {
    if log != [] {
      AllInside(log[..|log| - 1], id, lo, hi);
    }
  }

  /** Twice is not too much to say: a burst at the end of one window and another a second
      later, in the next, pass the limit twice over. */
  lemma TwiceIsReached(perMinute: nat)
    ensures var log := Run(Start(59), Burst(0, perMinute) + ([Wait(1)] + Burst(perMinute, perMinute)), perMinute).admitted;
            Admitted(log, Clear(0), 59, 59 + WINDOW_SECONDS) == 2 * perMinute
  {
    var b0 := Start(59);
    BurstAdmitted(b0, 0, perMinute, perMinute);
    var b1 := Run(b0, Burst(0, perMinute), perMinute);
    RunConcat(b0, Burst(0, perMinute), [Wait(1)] + Burst(perMinute, perMinute), perMinute);
    var b2 := b1.(clock := 60);
    assert ([Wait(1)] + Burst(perMinute, perMinute))[1..] == Burst(perMinute, perMinute);
    assert CountAt(b1, Clear(0), 1) == CountAt(b0, Clear(0), 1) == 0;
    BurstAdmitted(b2, perMinute, perMinute, perMinute);
    var b3 := Run(b2, Burst(perMinute, perMinute), perMinute);
    forall k | 0 <= k < |b3.admitted| ensures b3.admitted[k].id == Clear(0) && 59 <= b3.admitted[k].now < 119 {
      assert k < |b2.admitted| ==> b3.admitted[k] == b2.admitted[k];
    }
    AllInside(b3.admitted, Clear(0), 59, 119);
  }

  // ---- the checks in place ----

  class RateLimiter {
    const perMinute: nat
    var clock: nat
    var counters: map<(Identifier, nat), Counter>
    ghost var admitted: seq<Admission>

    ghost function View(): Bucket
      reads this
    {
      Bucket(clock, counters, map[], admitted)
    }

    constructor (now: nat, perMinute: nat)
      ensures View() == Start(now) && this.perMinute == perMinute
    {
      this.perMinute := perMinute;
      clock, counters, admitted := now, map[], [];
    }

    method CheckRateLimit(id: Identifier) returns (allowed: bool, count: nat, retryAfter: nat)
      modifies this`counters, this`admitted
      ensures View() == Apply(Apply(old(View()), Read(0, id), perMinute), Count(0), perMinute)
      ensures count == CountAt(old(View()), id, WindowOf(clock)) + 1
      ensures allowed <==> count <= if id.Tor? then 20 * perMinute else perMinute
      ensures var key := (id, clock / 60);
              && count == 1 + (if key in old(counters) && clock < old(counters)[key].exp then old(counters)[key].count else 0)
              && counters == old(counters)[key := Counter(count, clock + 90)]
      ensures WindowOf(clock + retryAfter) == WindowOf(clock) + 1 && 0 < retryAfter <= WINDOW_SECONDS
    {
      ghost var b := View();
      var w := clock / WINDOW_SECONDS;
      retryAfter := WINDOW_SECONDS - clock % WINDOW_SECONDS;
      count := 1;
      if (id, w) in counters && clock < counters[(id, w)].exp {
        count := counters[(id, w)].count + 1;
      }
      counters := counters[(id, w) := Counter(count, clock + COUNTER_TTL_SECONDS)];
      allowed := count <= Limit(id, perMinute);
      if allowed {
        admitted := admitted + [Admission(id, clock)];
      }
      ghost var none: map<nat, Admission> := map[];
      assert none[0 := Admission(id, clock)] - {0} == none;
    }

    /** Onion traffic passes the shared ceiling first and then, if it claims an identity, that
        identity's own limit; anything else is one plain check. */
    method TorAwareCheck(source: Identifier, claim: Option<nat>) returns (allowed: bool, count: nat, retryAfter: nat)
      requires !source.TorAs?
      modifies this`counters, this`admitted
      ensures allowed <==>
              && CountAt(old(View()), source, WindowOf(clock)) < (if source.Tor? then 20 * perMinute else perMinute)
              && (source.Tor? && claim.Some? ==> CountAt(old(View()), TorAs(claim.value), WindowOf(clock)) < perMinute)
      ensures CountAt(View(), source, WindowOf(clock)) == CountAt(old(View()), source, WindowOf(clock)) + 1
      ensures allowed ==> Admission(source, clock) in admitted
      ensures forall key: (Identifier, nat) :: key.0 != source && !key.0.TorAs? ==>
                (key in counters <==> key in old(counters)) && (key in counters ==> counters[key] == old(counters)[key])
      ensures !source.Tor? || claim.None? || CountAt(old(View()), Tor, WindowOf(clock)) >= 20 * perMinute ==>
                counters == old(counters)[(source, clock / 60) := Counter(count, clock + 90)]
    {
      allowed, count, retryAfter := CheckRateLimit(source);
      if source.Tor? && allowed && claim.Some? {
        allowed, count, retryAfter := CheckRateLimit(TorAs(claim.value));
      }
    }
  }
}
