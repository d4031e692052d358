/** Two short runs of DmsMachine in which the Dead Man's Switch does not do what its own
    comments say; DmsSafety has the exact conditions. */
module DmsCounterexamples {
  import opened Common
  import opened DmsRows
  import opened DmsMachine

  lemma Unfold5(w: World, s: seq<Step>)
    requires |s| >= 5
    ensures Run(w, s) == Run(Apply(Apply(Apply(Apply(Apply(w, s[0]), s[1]), s[2]), s[3]), s[4]), s[5..])
  {
    hide Apply;
    var w1 := Apply(w, s[0]);
    var w2 := Apply(w1, s[1]);
    var w3 := Apply(w2, s[2]);
    var w4 := Apply(w3, s[3]);
    assert s[1..][1..] == s[2..] && s[2..][1..] == s[3..] && s[3..][1..] == s[4..] && s[4..][1..] == s[5..];
    assert Run(w, s) == Run(w1, s[1..]);
    assert Run(w1, s[1..]) == Run(w2, s[2..]);
    assert Run(w2, s[2..]) == Run(w3, s[3..]);
    assert Run(w3, s[3..]) == Run(w4, s[4..]);
  }

  lemma Only(w: World, step: Step)
    requires |w.cells| == 1
    ensures Moved(w, step) == [Evolve(w.cells[0], EventFor(w, step, 0))]
  {
  }

  /** Creator 7, one hour, payload [1], recipient 8. */
  function Row(last: int, status: Status, mark: Option<int>): Switch {
    Switch(7, 3600, last, if status == Armed then [1] else [], status, [8], [mark])
  }

  function World1(clock: int, c: Cell, passes: map<nat, Pass>, bumps: map<nat, Bump>): World {
    World(clock, [c], passes, bumps, {})
  }

  const ASKED := Request(7, 3600, [1], [8])

  function Fresh0(): Cell { Cell(Row(0, Armed, None), Free, map[], map[], ASKED, {0}, {}, {}, {}) }

  lemma Created()
    ensures Apply(Start({}), Create(7, 3600, [1], [8])) == World1(0, Fresh0(), map[], map[])
  {
    assert CreateAllowed(Start({}), 7, 3600, [1], [8]);
    assert NewSwitch(7, 3600, 0, [1], [8]) == Row(0, Armed, None);
  }

  function Rewound(): Cell { Fresh0().(checkIns := {0, 3600}) }

  lemma StaleBump()
    ensures Apply(Apply(Apply(Apply(Apply(World1(0, Fresh0(), map[], map[]), BumpRead(0, 7)), Wait(3600)),
              LockRow(0)), CheckInRow(0)), BumpWrite(0)) == World1(3600, Rewound(), map[], map[])
  {
    var w2 := World1(3600, Fresh0(), map[], map[0 := Bumping(7, 0)]);
    assert Apply(Apply(World1(0, Fresh0(), map[], map[]), BumpRead(0, 7)), Wait(3600)) == w2;
    Only(w2, LockRow(0));
    var w3 := World1(3600, Fresh0().(lock := ByUser(3600)), map[], map[0 := Bumping(7, 0)]);
    assert Apply(w2, LockRow(0)) == w3;
    Only(w3, CheckInRow(0));
    var w4 := World1(3600, Rewound().(row := Row(3600, Armed, None)), map[], map[0 := Bumping(7, 0)]);
    assert {0} + {3600} == {0, 3600} && {0, 3600} + {0} == {0, 3600};
    assert Apply(w3, CheckInRow(0)) == w4;
    Only(w4, BumpWrite(0));
    assert BumpReady(w4, 0);
    assert map[0 := Bumping(7, 0)] - {0} == map[];
  }

  function Working(c: Cell, p: nat, now: int, claimed: Option<int>): Cell {
    c.(lock := ByReaper(p, now, c.row, 0, true, claimed),
       metaUntil := if claimed.Some? then map[0 := claimed.value] else c.metaUntil)
  }

  /** A pass that starts, locks the one due row and sets the metadata key. */
  lemma PassToClaim(c: Cell, p: nat)
    requires c == Fresh0() || c == Rewound()
    ensures Apply(Apply(Apply(World1(3600, c, map[], map[]), PassStart(p)), PassLock(p, {})), PassPrepare(0)) ==
            World1(3600, Working(c, p, 3600, Some(90000)), map[p := Pass(3600, true, {})], map[])
  {
    var w := World1(3600, c, map[p := Pass(3600, false, {})], map[]);
    assert Apply(World1(3600, c, map[], map[]), PassStart(p)) == w;
    Only(w, PassLock(p, {}));
    assert Overlooked(w, p, {}) == {};
    var v := World1(3600, Working(c, p, 3600, None), map[p := Pass(3600, true, {})], map[]);
    assert Apply(w, PassLock(p, {})) == v;
    Only(v, PassPrepare(0));
  }

  /** A bump captured at 0 but written after the check-in of 3600 lets the reaper hand the
      payload over in the very second of that check-in. */
  lemma StaleBumpFiresEarly()
    ensures var steps := [Create(7, 3600, [1], [8]), BumpRead(0, 7), Wait(3600), LockRow(0), CheckInRow(0),
                          BumpWrite(0), PassStart(1), PassLock(1, {}), PassPrepare(0), PassDeliver(0, false)];
            var w := Run(Start({}), steps);
            |w.cells| == 1 && Handing(0, 8, 3600, [1], {0, 3600}) in w.cells[0].handed
  {
    var steps := [Create(7, 3600, [1], [8]), BumpRead(0, 7), Wait(3600), LockRow(0), CheckInRow(0),
                  BumpWrite(0), PassStart(1), PassLock(1, {}), PassPrepare(0), PassDeliver(0, false)];
    hide Apply, Run;
    Created();
    StaleBump();
    PassToClaim(Rewound(), 1);
    HandedOver();
    Chain10(Start({}), steps);
  }

  lemma HandedOver()
    ensures var v := World1(3600, Working(Rewound(), 1, 3600, Some(90000)), map[1 := Pass(3600, true, {})], map[]);
            var w := Apply(v, PassDeliver(0, false));
            |w.cells| == 1 && Handing(0, 8, 3600, [1], {0, 3600}) in w.cells[0].handed
  {
    var v := World1(3600, Working(Rewound(), 1, 3600, Some(90000)), map[1 := Pass(3600, true, {})], map[]);
    Only(v, PassDeliver(0, false));
  }

  lemma Chain10(w: World, s: seq<Step>)
    requires |s| == 10
    ensures Run(w, s) == Apply(Apply(Apply(Apply(Apply(
              Apply(Apply(Apply(Apply(Apply(w, s[0]), s[1]), s[2]), s[3]), s[4]),
              s[5]), s[6]), s[7]), s[8]), s[9])
  {
    hide Apply;
    Unfold5(w, s);
    Unfold5(Apply(Apply(Apply(Apply(Apply(w, s[0]), s[1]), s[2]), s[3]), s[4]), s[5..]);
    assert s[5..][5..] == [];
  }

  /** A pass dies between the metadata key and the inbox row; the next takes the live key for
      a queued envelope, marks, triggers and scrubs. No inbox ever had the payload. */
  lemma TornCrashLosesPayload()
    ensures var steps := [Create(7, 3600, [1], [8]), Wait(3600), PassStart(1), PassLock(1, {}), PassPrepare(0),
                          PassCrash(1), PassStart(2), PassLock(2, {}), PassPrepare(0), PassCommit(2)];
            var w := Run(Start({}), steps);
            |w.cells| == 1 && w.cells[0].row == Row(0, Triggered, Some(3600)) && w.cells[0].accepted == {}
  {
    var steps := [Create(7, 3600, [1], [8]), Wait(3600), PassStart(1), PassLock(1, {}), PassPrepare(0),
                  PassCrash(1), PassStart(2), PassLock(2, {}), PassPrepare(0), PassCommit(2)];
    Created();
    assert Apply(World1(0, Fresh0(), map[], map[]), Wait(3600)) == World1(3600, Fresh0(), map[], map[]);
    hide Apply, Run;
    PassToClaim(Fresh0(), 1);
    Crashed();
    Retried();
    Chain10(Start({}), steps);
  }

  function Torn(): Cell { Fresh0().(metaUntil := map[0 := 90000], torn := {0}) }

  lemma Crashed()
    ensures Apply(World1(3600, Working(Fresh0(), 1, 3600, Some(90000)), map[1 := Pass(3600, true, {})], map[]),
                  PassCrash(1)) == World1(3600, Torn(), map[], map[])
  {
    var w := World1(3600, Working(Fresh0(), 1, 3600, Some(90000)), map[1 := Pass(3600, true, {})], map[]);
    Only(w, PassCrash(1));
    var none: set<nat> := {};
    assert none + {0} == {0};
    assert map[1 := Pass(3600, true, {})] - {1} == map[];
  }

  function Held(mark: Option<int>): World {
    World1(3600, Torn().(lock := ByReaper(2, 3600, Row(0, Armed, mark), if mark.Some? then 1 else 0, true, None)),
           map[2 := Pass(3600, true, {})], map[])
  }

  lemma Relocked()
    ensures Apply(Apply(World1(3600, Torn(), map[], map[]), PassStart(2)), PassLock(2, {})) == Held(None)
  {
    var w := World1(3600, Torn(), map[2 := Pass(3600, false, {})], map[]);
    assert Apply(World1(3600, Torn(), map[], map[]), PassStart(2)) == w;
    Only(w, PassLock(2, {}));
    assert Overlooked(w, 2, {}) == {};
  }

  lemma Deduplicated()
    ensures Apply(Held(None), PassPrepare(0)) == Held(Some(3600))
  {
    Only(Held(None), PassPrepare(0));
    assert [None][0 := Some(3600)] == [Some(3600)];
  }

  lemma Retried()
    ensures Apply(Apply(Apply(Apply(World1(3600, Torn(), map[], map[]), PassStart(2)), PassLock(2, {})),
              PassPrepare(0)), PassCommit(2)) ==
            World1(3600, Torn().(row := Row(0, Triggered, Some(3600))), map[], map[])
  {
    Relocked();
    Deduplicated();
    var u := Held(Some(3600));
    Only(u, PassCommit(2));
    assert PassDone(u, 2);
    assert u.passes - {2} == map[];
  }
}
