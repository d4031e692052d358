/** WebSocket slots of one public key: a sorted set of connections by last activity. A
    reservation adds and counts in one block and takes itself back later if it was one too
    many. */
module WsSlots {
  import opened Common

  type Conn = nat

  const WS_SLOT_TTL_SECONDS := 90
  const WS_SLOT_KEY_TTL := 200

  /** `reading`, `refreshing`: requests that read the clock and have not written. `accepted`:
      connections that were let in and have not ended; `rejected`: those that still have to
      take their entry back. */
  datatype Slots = Slots(
    clock: int, scores: map<Conn, int>, keyExp: int,
    reading: map<Conn, int>, refreshing: map<Conn, int>,
    accepted: set<Conn>, rejected: set<Conn>, ended: set<Conn>, used: set<Conn>)

  datatype Step =
    | Wait(seconds: nat)
    | Arrive(c: Conn)
    | Reserve(c: Conn)
    | RollBack(c: Conn)
    | RefreshRead(c: Conn)
    | RefreshWrite(c: Conn)
    | End(c: Conn)
    | Release(c: Conn)

  function Tick(s: Slots, seconds: nat): Slots {
    var now := s.clock + seconds;
    s.(clock := now, scores := if s.keyExp <= now then map[] else s.scores)
  }

  function Pruned(scores: map<Conn, int>, cutoff: int): map<Conn, int> {
    map c | c in scores && cutoff < scores[c] :: scores[c]
  }

  function DoReserve(s: Slots, c: Conn, limit: nat): Slots {
    if c !in s.reading then s
    else
      var now := s.reading[c];
      var scores := Pruned(s.scores, now - WS_SLOT_TTL_SECONDS)[c := now];
      var over := |scores| > limit;
      s.(scores := scores, keyExp := s.clock + WS_SLOT_KEY_TTL, reading := s.reading - {c},
         accepted := if over then s.accepted else s.accepted + {c},
         rejected := if over then s.rejected + {c} else s.rejected)
  }

  function Apply(s: Slots, step: Step, limit: nat): Slots {
    match step
    case Wait(d) => Tick(s, d)
    case Arrive(c) => if c in s.used then s else s.(reading := s.reading[c := s.clock], used := s.used + {c})
    case Reserve(c) => DoReserve(s, c, limit)
    case RollBack(c) => if c in s.rejected then s.(scores := s.scores - {c}, rejected := s.rejected - {c}) else s
    case RefreshRead(c) => if c in s.accepted then s.(refreshing := s.refreshing[c := s.clock]) else s
    case RefreshWrite(c) =>
      if c !in s.refreshing then s
      else s.(scores := s.scores[c := s.refreshing[c]], keyExp := s.clock + WS_SLOT_KEY_TTL,
              refreshing := s.refreshing - {c})
    case End(c) => if c in s.accepted then s.(accepted := s.accepted - {c}, ended := s.ended + {c}) else s
    case Release(c) => if c in s.ended then s.(scores := s.scores - {c}, ended := s.ended - {c}) else s
  }

  function Run(s: Slots, steps: seq<Step>, limit: nat): Slots
    decreases |steps|
  {
    if steps == [] then s else Run(Apply(s, steps[0], limit), steps[1..], limit)
  }

  function Start(now: int): Slots { Slots(now, map[], now, map[], map[], {}, {}, {}, {}) }

  /** Every accepted connection's entry, where it is on record, is younger than 90 seconds. */
  predicate Refreshed(s: Slots) {
    forall c :: c in s.accepted && c in s.scores ==> s.clock < s.scores[c] + WS_SLOT_TTL_SECONDS
  }

  /** Every accepted connection refreshes in under 90 seconds, and no request takes that long
      from reading the clock to writing its score. */
  predicate Lively(s: Slots, steps: seq<Step>, limit: nat)
    decreases |steps|
  {
    steps == [] || (LivelyStep(s, steps[0]) && Lively(Apply(s, steps[0], limit), steps[1..], limit))
  }

  predicate LivelyStep(s: Slots, step: Step) {
    match step
    case Wait(d) => Refreshed(s.(clock := s.clock + d))
    case Reserve(c) => c in s.reading ==> s.clock < s.reading[c] + WS_SLOT_TTL_SECONDS
    case RefreshWrite(c) => c in s.refreshing ==> s.clock < s.refreshing[c] + WS_SLOT_TTL_SECONDS
    case _ => true
  }

  /** A connection is in one stage only, and identifiers are not used twice. */
  predicate OneStage(s: Slots, c: Conn) {
    && (c in s.reading || c in s.refreshing || c in s.accepted || c in s.rejected || c in s.ended ==> c in s.used)
    && (c in s.accepted ==> c !in s.reading && c !in s.rejected && c !in s.ended)
    && (c in s.rejected || c in s.ended ==> c !in s.reading)
  }

  ghost predicate Stages(s: Slots) { forall c :: OneStage(s, c) }

  predicate Times(s: Slots) {
    && (forall c :: c in s.scores ==> s.scores[c] <= s.clock && s.scores[c] + WS_SLOT_KEY_TTL <= s.keyExp)
    && (forall c :: c in s.reading ==> s.reading[c] <= s.clock)
    && (forall c :: c in s.refreshing ==> s.refreshing[c] <= s.clock)
  }

  /** Every accepted connection has its entry, and it is fresh. */
  predicate Entered(s: Slots) {
    forall c :: c in s.accepted ==> c in s.scores && s.clock < s.scores[c] + WS_SLOT_TTL_SECONDS
  }

  ghost predicate Inv(s: Slots, limit: nat) { Stages(s) && Times(s) && Entered(s) && |s.accepted| <= limit }

  lemma StepStage(s: Slots, step: Step, limit: nat, c: Conn)
    requires OneStage(s, c) && (step.RefreshRead? ==> OneStage(s, step.c)) && (step.Reserve? ==> OneStage(s, step.c))
    ensures OneStage(Apply(s, step, limit), c)
  {
    hide Pruned;
  }

  lemma StepStages(s: Slots, step: Step, limit: nat)
    requires Stages(s)
    ensures Stages(Apply(s, step, limit))
  {
    hide OneStage, Apply;
    forall c ensures OneStage(Apply(s, step, limit), c) {
      StepStage(s, step, limit, c);
    }
  }

  lemma StepTimes(s: Slots, step: Step, limit: nat)
    requires Times(s)
    ensures Times(Apply(s, step, limit))
  {
  }

  lemma StepEntered(s: Slots, step: Step, limit: nat)
    requires Stages(s) && Times(s) && Entered(s) && LivelyStep(s, step)
    ensures Entered(Apply(s, step, limit))
  {
    if !step.Wait? { assert OneStage(s, step.c); }
  }

  /** Everyone accepted is among those a reservation counts, so being let in keeps the limit. */
  lemma StepLimit(s: Slots, step: Step, limit: nat)
    requires Inv(s, limit) && LivelyStep(s, step)
    ensures |Apply(s, step, limit).accepted| <= limit
  {
    var v := Apply(s, step, limit);
    if v.accepted <= s.accepted {
      SubsetSize(v.accepted, s.accepted);
    } else {
      StepEntered(s, step, limit);
      assert v.accepted <= v.scores.Keys;
      SubsetSize(v.accepted, v.scores.Keys);
      assert |v.scores.Keys| == |v.scores|;
    }
  }

  lemma {:induction false} RunKeeps(s: Slots, steps: seq<Step>, limit: nat)
    requires Inv(s, limit) && Lively(s, steps, limit)
    ensures Inv(Run(s, steps, limit), limit)
    decreases |steps|
  {
    if steps != [] {
      StepStages(s, steps[0], limit);
      StepTimes(s, steps[0], limit);
      StepEntered(s, steps[0], limit);
      StepLimit(s, steps[0], limit);
      RunKeeps(Apply(s, steps[0], limit), steps[1..], limit);
    }
  }

  /** However reservations, rollbacks, refreshes and releases interleave, no more connections
      are accepted at once than the limit, and each of them still has its entry. */
  lemma AcceptedWithinLimit(now: int, steps: seq<Step>, limit: nat)
    requires Lively(Start(now), steps, limit)
    ensures var s := Run(Start(now), steps, limit);
            |s.accepted| <= limit && s.accepted <= s.scores.Keys
  {
    RunKeeps(Start(now), steps, limit);
  }

  /** The other entries a reservation counts: accepted, ended, or not yet taken back. */
  function Others(s: Slots, c: Conn): set<Conn>
    requires c in s.reading
  {
    set x | x in s.scores && x != c && s.reading[c] - WS_SLOT_TTL_SECONDS < s.scores[x]
  }

  lemma CountedEntries(s: Slots, c: Conn)
    requires c in s.reading
    ensures |Pruned(s.scores, s.reading[c] - WS_SLOT_TTL_SECONDS)[c := s.reading[c]]| == |Others(s, c)| + 1
  {
    var scores := Pruned(s.scores, s.reading[c] - WS_SLOT_TTL_SECONDS)[c := s.reading[c]];
    assert scores.Keys == Others(s, c) + {c};
    assert |scores| == |scores.Keys|;
  }

  /** A reservation is turned away exactly when the other entries no older than 90 seconds
      already fill the limit, and all accepted connections are among those. */
  lemma RejectedIff(now: int, steps: seq<Step>, limit: nat, c: Conn)
    requires Lively(Start(now), steps, limit)
    ensures var s := Run(Start(now), steps, limit);
            c in s.reading ==>
              && (c in DoReserve(s, c, limit).rejected <==> |Others(s, c)| >= limit)
              && s.accepted <= Others(s, c)
  {
    RunKeeps(Start(now), steps, limit);
    var s := Run(Start(now), steps, limit);
    assert OneStage(s, c);
    if c in s.reading {
      CountedEntries(s, c);
      assert forall x :: x in s.accepted ==> OneStage(s, x);
    }
    hide Run, Lively, Pruned;
  }

  lemma RunStep(s: Slots, step: Step, rest: seq<Step>, limit: nat)
    ensures Run(s, [step] + rest, limit) == Run(Apply(s, step, limit), rest, limit)
  {
    assert ([step] + rest)[1..] == rest;
  }

  /** The delayed rollback can cost a slot: with limit 1 connection 3 is turned away although
      nobody is connected, because connection 2, itself rejected, has not taken its entry back. */
  lemma PendingRollbackBlocks()
    ensures var s := Run(Start(0), [Arrive(1)] + ([Reserve(1)] + ([Arrive(2)] + ([Reserve(2)] + ([End(1)] +
                       ([Release(1)] + ([Arrive(3)] + ([Reserve(3)] + []))))))), 1);
            s.accepted == {} && 3 in s.rejected
  {
    hide Run, Apply;
    var rest := [End(1)] + ([Release(1)] + ([Arrive(3)] + ([Reserve(3)] + [])));
    TwoArrive(rest);
    OneLeaves();
  }

  const FULL := Slots(0, map[1 := 0, 2 := 0], 200, map[], map[], {1}, {2}, {}, {1, 2})

  lemma TwoArrive(rest: seq<Step>)
    ensures Run(Start(0), [Arrive(1)] + ([Reserve(1)] + ([Arrive(2)] + ([Reserve(2)] + rest))), 1) == Run(FULL, rest, 1)
  {
    hide Run;
    RunStep(Start(0), Arrive(1), [Reserve(1)] + ([Arrive(2)] + ([Reserve(2)] + rest)), 1);
    FirstReserve();
    var s1 := Start(0).(reading := map[1 := 0], used := {1});
    RunStep(s1, Reserve(1), [Arrive(2)] + ([Reserve(2)] + rest), 1);
    var s2 := Slots(0, map[1 := 0], 200, map[], map[], {1}, {}, {}, {1});
    RunStep(s2, Arrive(2), [Reserve(2)] + rest, 1);
    assert {1} + {2} == {1, 2};
    SecondReserve();
    var s3 := s2.(reading := map[2 := 0], used := {1, 2});
    RunStep(s3, Reserve(2), rest, 1);
  }

  lemma OneLeaves()
    ensures var s := Run(FULL, [End(1)] + ([Release(1)] + ([Arrive(3)] + ([Reserve(3)] + []))), 1);
            s.accepted == {} && 3 in s.rejected
  {
    Left();
    hide Run, Apply;
    var s5 := Apply(FULL, End(1), 1);
    var s6 := Apply(s5, Release(1), 1);
    var s7 := Apply(s6, Arrive(3), 1);
    RunStep(FULL, End(1), [Release(1)] + ([Arrive(3)] + ([Reserve(3)] + [])), 1);
    RunStep(s5, Release(1), [Arrive(3)] + ([Reserve(3)] + []), 1);
    RunStep(s6, Arrive(3), [Reserve(3)] + [], 1);
    RunStep(s7, Reserve(3), [], 1);
    ThirdReserve(s7);
    EmptyRun(Apply(s7, Reserve(3), 1), 1);
  }

  lemma Left()
    ensures var s7 := Apply(Apply(Apply(FULL, End(1), 1), Release(1), 1), Arrive(3), 1);
            s7.scores == map[2 := 0] && 3 in s7.reading && s7.reading[3] == 0 && s7.accepted == {}
  {
  }

  lemma EmptyRun(s: Slots, limit: nat)
    ensures Run(s, [], limit) == s
  {
  }

  lemma FirstReserve()
    ensures Apply(Start(0), Arrive(1), 1) == Start(0).(reading := map[1 := 0], used := {1})
    ensures Apply(Start(0).(reading := map[1 := 0], used := {1}), Reserve(1), 1) ==
            Slots(0, map[1 := 0], 200, map[], map[], {1}, {}, {}, {1})
  {
    var none: set<Conn> := {};
    assert none + {1} == {1};
    var empty: map<Conn, int> := map[];
    assert Pruned(empty, -90)[1 := 0] == map[1 := 0];
    assert |map[1 := 0]| == 1;
  }

  lemma SecondReserve()
    ensures Apply(Slots(0, map[1 := 0], 200, map[2 := 0], map[], {1}, {}, {}, {1, 2}), Reserve(2), 1) ==
            Slots(0, map[1 := 0, 2 := 0], 200, map[], map[], {1}, {2}, {}, {1, 2})
  {
    assert Pruned(map[1 := 0], -90)[2 := 0] == map[1 := 0, 2 := 0];
    assert map[1 := 0, 2 := 0].Keys == {1, 2};
    assert |map[1 := 0, 2 := 0]| == 2;
    var none: set<Conn> := {};
    assert none + {2} == {2};
  }

  lemma ThirdReserve(s: Slots)
    requires s.scores == map[2 := 0] && 3 in s.reading && s.reading[3] == 0
    ensures var v := Apply(s, Reserve(3), 1); 3 in v.rejected && v.accepted == s.accepted
  {
    var scores := Pruned(s.scores, -90)[3 := 0];
    assert scores.Keys == {2, 3};
    assert |scores| == |scores.Keys|;
  }

  /** The sorted set updated in place, one block after the other. */
  class SlotSet {
    const limit: nat
    var clock: int
    var scores: map<Conn, int>
    var keyExp: int

    predicate Holds(c: Conn)
      reads this
    {
      clock < keyExp && c in scores
    }

    constructor (limit: nat, now: int)
      ensures this.limit == limit && clock == now && scores == map[]
    {
      this.limit, clock, scores, keyExp := limit, now, map[], now;
    }

    /** Prune, add, expire, count; one entry too many is taken back at once. */
    method ReserveSlot(c: Conn) returns (ok: bool)
      modifies this`scores, this`keyExp
      ensures var live := if old(clock < keyExp) then Pruned(old(scores), clock - WS_SLOT_TTL_SECONDS) else map[];
              && (ok <==> |live[c := clock]| <= limit)
              && scores == (if ok then live[c := clock] else live[c := clock] - {c})
      ensures keyExp == clock + 200 && (c in scores <==> ok) && (ok ==> scores[c] == clock)
      ensures forall d :: d != c ==>
                && (d in scores <==> old(clock < keyExp) && d in old(scores) && clock < old(scores)[d] + 90)
                && (d in scores ==> scores[d] == old(scores)[d])
      ensures ok ==> Holds(c) && |scores| <= limit
    {
      if clock >= keyExp {
        scores := map[];
      }
      scores := Pruned(scores, clock - WS_SLOT_TTL_SECONDS);
      assert old(clock >= keyExp) ==> scores == map[];
      scores := scores[c := clock];
      keyExp := clock + WS_SLOT_KEY_TTL;
      var count := |scores|;
      if count > limit {
        scores := scores - {c};
        return false;
      }
      return true;
    }

    method RefreshSlot(c: Conn)
      modifies this`scores, this`keyExp
      ensures scores == (if old(clock < keyExp) then old(scores) else map[])[c := clock]
      ensures keyExp == clock + 200 && Holds(c)
    {
      if clock >= keyExp {
        scores := map[];
      }
      scores := scores[c := clock];
      keyExp := clock + WS_SLOT_KEY_TTL;
    }

    method ReleaseSlot(c: Conn)
      modifies this`scores
      ensures scores == old(scores) - {c} && !Holds(c)
    {
      scores := scores - {c};
    }
  }
}
