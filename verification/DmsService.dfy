/** The switch operations as the relay runs them, updating the rows in place, and the proof
    that one uninterrupted reaper pass is a schedule of DmsRows' events. */
module DmsService {
  import opened Common
  import opened DmsRows
  import M = DmsMachine

  /** A switch row beside the envelope keys of its recipients. */
  datatype Desk = Desk(row: Switch, metaUntil: map<nat, int>, boxUntil: map<nat, int>)

  function DeskOf(c: Cell): Desk { Desk(c.row, c.metaUntil, c.boxUntil) }

  function CellAt(d: Desk): Cell {
    var row := d.row;
    Cell(row, Free, d.metaUntil, d.boxUntil, Request(row.creator, row.trigger, row.payload, row.recipients), {}, {}, {}, {})
  }

  /** A switch that was just created, column by column, with no envelope key yet. */
  predicate IsNew(d: Desk, pk: nat, trigger: int, now: int, payload: Bytes, recipients: seq<nat>) {
    && d.row.creator == pk && d.row.trigger == trigger && d.row.payload == payload && d.row.recipients == recipients
    && d.row.lastCheckIn == now && d.row.status == Armed
    && |d.row.marks| == |recipients| && (forall j :: 0 <= j < |d.row.marks| ==> d.row.marks[j].None?)
    && d.metaUntil == map[] && d.boxUntil == map[]
  }

  predicate Shaped(d: Desk) { |d.row.marks| == |d.row.recipients| }

  /** One delivery: skipped if marked; a live metadata key counts as queued; a full inbox
      leaves neither key nor mark. */
  function DeliverOne(d: Desk, j: nat, now: int, clock: int, full: set<nat>): Desk
    requires Shaped(d) && j < |d.row.marks|
  {
    if d.row.marks[j].Some? then d
    else if j in d.metaUntil && clock < d.metaUntil[j] then d.(row := d.row.Mark(j, now))
    else if d.row.recipients[j] in full then d.(metaUntil := d.metaUntil - {j})
    else
      var x := clock + MESSAGE_TTL_HARD_SECONDS;
      Desk(d.row.Mark(j, now), d.metaUntil[j := x], d.boxUntil[j := x])
  }

  function DeliverUpTo(d: Desk, k: nat, now: int, clock: int, full: set<nat>): (r: Desk)
    requires Shaped(d) && k <= |d.row.marks|
    ensures Shaped(r) && r.row == d.row.(marks := r.row.marks) && |r.row.marks| == |d.row.marks|
  {
    if k == 0 then d else DeliverOne(DeliverUpTo(d, k - 1, now, clock, full), k - 1, now, clock, full)
  }

  predicate AllMarked(row: Switch) { forall j :: 0 <= j < |row.marks| ==> row.marks[j].Some? }

  function FireRow(d: Desk, now: int, clock: int, full: set<nat>): (r: Desk)
    requires Shaped(d)
    ensures Shaped(r)
  {
    if !d.row.Due(now) then d
    else
      var r := DeliverUpTo(d, |d.row.marks|, now, clock, full);
      r.(row := r.row.Finished(AllMarked(r.row)))
  }

  function EvolveAll(c: Cell, evs: seq<Event>): Cell
    decreases |evs|
  {
    if evs == [] then c else Evolve(EvolveAll(c, evs[..|evs| - 1]), evs[|evs| - 1])
  }

  lemma EvolveMore(c: Cell, evs: seq<Event>, ev: Event)
    ensures EvolveAll(c, evs + [ev]) == Evolve(EvolveAll(c, evs), ev)
  {
    assert (evs + [ev])[..|evs|] == evs;
  }

  function Deliveries(row: Switch, k: nat, clock: int, full: set<nat>): seq<Event>
    requires k <= |row.recipients|
  {
    if k == 0 then []
    else Deliveries(row, k - 1, clock, full) + [Prepare(clock)] + [Deliver(row.recipients[k - 1] in full)]
  }

  function PassEvents(row: Switch, p: nat, now: int, clock: int, full: set<nat>): seq<Event> {
    [Claim(p, now)] + Deliveries(row, |row.recipients|, clock, full) + [Commit]
  }

  /** The working copy of a pass that has reached recipient k. */
  predicate AtRecipient(c: Cell, row: Switch, d: Desk, k: nat, p: nat, now: int) {
    && c.HeldBy(p) && c.lock.now == now && c.lock.next == k && c.lock.claimed.None?
    && c.row == row && c.lock.work == d.row
    && c.metaUntil == d.metaUntil && c.boxUntil == d.boxUntil
  }

  predicate MarkedUpTo(row: Switch, k: nat) { forall j :: 0 <= j < k && j < |row.marks| ==> row.marks[j].Some? }

  predicate CleanSoFar(c: Cell, k: nat) { c.lock.ByReaper? && (c.lock.clean <==> MarkedUpTo(c.lock.work, k)) }

  lemma DeliveryIsTwoEvents(c: Cell, row: Switch, d: Desk, k: nat, p: nat, now: int, clock: int, full: set<nat>)
    requires AtRecipient(c, row, d, k, p, now) && Shaped(d) && k < |d.row.recipients|
    ensures var c2 := Evolve(Evolve(c, Prepare(clock)), Deliver(d.row.recipients[k] in full));
            AtRecipient(c2, row, DeliverOne(d, k, now, clock, full), k + 1, p, now)
  {
    var x := clock + MESSAGE_TTL_HARD_SECONDS;
    assert d.metaUntil[k := x] - {k} == d.metaUntil - {k};
  }

  lemma EventsStayClean(c: Cell, k: nat, clock: int, full: bool)
    requires c.lock.ByReaper? && c.lock.next == k < |c.lock.work.marks| == |c.lock.work.recipients|
    requires c.lock.claimed.None? && CleanSoFar(c, k)
    ensures CleanSoFar(Evolve(Evolve(c, Prepare(clock)), Deliver(full)), k + 1)
  {
    hide Prepared, Delivered;
    OneMarkAtMost(c, k, clock, full);
    var c2 := Delivered(Prepared(c, clock), full);
    assert MarkedUpTo(c2.lock.work, k + 1) <==> MarkedUpTo(c2.lock.work, k) && c2.lock.work.marks[k].Some?;
    assert forall j :: 0 <= j < k ==> c2.lock.work.marks[j] == c.lock.work.marks[j];
  }

  lemma OneMarkAtMost(c: Cell, k: nat, clock: int, full: bool)
    requires c.lock.ByReaper? && c.lock.next == k < |c.lock.work.marks| == |c.lock.work.recipients|
    requires c.lock.claimed.None?
    ensures var c2 := Delivered(Prepared(c, clock), full);
            && c2.lock.ByReaper? && |c2.lock.work.marks| == |c.lock.work.marks|
            && (c2.lock.clean <==> c.lock.clean && c2.lock.work.marks[k].Some?)
            && (forall j :: 0 <= j < k ==> c2.lock.work.marks[j] == c.lock.work.marks[j])
  {
  }

  lemma {:induction false} DeliveriesReach(c: Cell, k: nat, p: nat, now: int, clock: int, full: set<nat>)
    requires c.lock.Free? && c.row.Due(now) && |c.row.marks| == |c.row.recipients| && k <= |c.row.recipients|
    ensures AtRecipient(EvolveAll(c, [Claim(p, now)] + Deliveries(c.row, k, clock, full)), c.row,
                        DeliverUpTo(DeskOf(c), k, now, clock, full), k, p, now)
    ensures CleanSoFar(EvolveAll(c, [Claim(p, now)] + Deliveries(c.row, k, clock, full)), k)
  {
    hide Prepared, Delivered, DeliverOne;
    var evs := [Claim(p, now)] + Deliveries(c.row, k, clock, full);
    if k == 0 {
      assert evs == [Claim(p, now)];
      assert EvolveAll(c, []) == c;
      EvolveMore(c, [], Claim(p, now));
      assert evs == [] + [Claim(p, now)];
    } else {
      var before := [Claim(p, now)] + Deliveries(c.row, k - 1, clock, full);
      var ev := Deliver(c.row.recipients[k - 1] in full);
      assert evs == before + [Prepare(clock)] + [ev];
      DeliveriesReach(c, k - 1, p, now, clock, full);
      EvolveMore(c, before, Prepare(clock));
      EvolveMore(c, before + [Prepare(clock)], ev);
      DeliveryIsTwoEvents(EvolveAll(c, before), c.row, DeliverUpTo(DeskOf(c), k - 1, now, clock, full),
                          k - 1, p, now, clock, full);
      EventsStayClean(EvolveAll(c, before), k - 1, clock, c.row.recipients[k - 1] in full);
    }
  }

  /** What the nested loops do to a due row is what its events, run in order, do. */
  lemma PassIsOneSchedule(c: Cell, p: nat, now: int, clock: int, full: set<nat>)
    requires c.lock.Free? && c.row.Due(now) && |c.row.marks| == |c.row.recipients|
    ensures var d := EvolveAll(c, PassEvents(c.row, p, now, clock, full));
            d.lock.Free? && DeskOf(d) == FireRow(DeskOf(c), now, clock, full)
  {
    DeliveriesReach(c, |c.row.recipients|, p, now, clock, full);
    EvolveMore(c, [Claim(p, now)] + Deliveries(c.row, |c.row.recipients|, clock, full), Commit);
  }

  datatype Reply = Done | SignedOnly410 | BadProof401 | Gone404 | Conflict409(status: Status) | Refused403 | AlreadyOver(cancelled: bool)

  class Switchboard {
    var clock: int
    var desks: seq<Desk>
    var premium: set<nat>

    predicate Valid()
      reads this
    {
      forall i :: 0 <= i < |desks| ==> Shaped(desks[i])
    }

    constructor (premium: set<nat>)
      ensures Valid() && desks == [] && clock == 0 && this.premium == premium
    {
      clock, desks, this.premium := 0, [], premium;
    }

    function Cells(): seq<Cell>
      reads this
    {
      seq(|desks|, i reads this requires 0 <= i < |desks| =>
        CellAt(desks[i]))
    }

    /** The quota is counted in one query over the rows, under the creator's advisory lock. */
    method CreateSwitch(pk: nat, trigger: int, payload: Bytes, recipients: seq<nat>) returns (reply: Reply)
      requires Valid() && M.RequestValid(trigger, payload, recipients)
      modifies this`desks
      ensures Valid()
      ensures reply == Done <==>
              M.CreateAllowed(M.World(clock, old(Cells()), map[], map[], premium), pk, trigger, payload, recipients)
      ensures reply == Done <==>
              && |recipients| <= (if pk in premium then 20 else 5)
              && M.ActiveCount(old(Cells()), pk) < (if pk in premium then 20 else 5)
              && M.ActiveBytes(old(Cells()), pk) + |payload| <= if pk in premium then 20971520 else 2097152
      ensures reply == Done ==>
                && |desks| == |old(desks)| + 1 && desks[..|old(desks)|] == old(desks)
                && IsNew(desks[|old(desks)|], pk, trigger, clock, payload, recipients)
      ensures reply != Done ==> reply == Refused403 && desks == old(desks)
    {
      var w := M.World(clock, Cells(), map[], map[], premium);
      if |recipients| > M.MaxRecipients(w, pk) {
        return Refused403;
      }
      var activeCount, activeBytes := CountActive(pk);
      if activeCount >= M.MaxActive(w, pk) {
        return Refused403;
      }
      if activeBytes + |payload| > M.MaxBytes(w, pk) {
        return Refused403;
      }
      desks := desks + [Desk(M.NewSwitch(pk, trigger, clock, payload, recipients), map[], map[])];
      return Done;
    }

    method CountActive(pk: nat) returns (count: nat, bytes: nat)
      ensures count == M.ActiveCount(Cells(), pk) && bytes == M.ActiveBytes(Cells(), pk)
    {
      count, bytes := 0, 0;
      for i := 0 to |desks|
        invariant count == M.ActiveCount(Cells()[..i], pk) && bytes == M.ActiveBytes(Cells()[..i], pk)
      {
        var row := desks[i].row;
        assert Cells()[..i + 1][..i] == Cells()[..i];
        if row.creator == pk && row.status == Armed {
          count, bytes := count + 1, bytes + |row.payload|;
        }
      }
      assert Cells()[..|desks|] == Cells();
    }

    /** `strict`: the owner's client signs its check-ins, so the plain one is refused. Then
        owner, row lock, and the status that the lock made final. */
    method CheckIn(owner: nat, id: nat, strict: bool) returns (reply: Reply)
      requires Valid()
      modifies this`desks
      ensures Valid()
      ensures reply == SignedOnly410 <==> strict
      ensures reply == Done <==>
              !strict && id < |old(desks)| && old(desks)[id].row.creator == owner && old(desks)[id].row.status == Armed
      ensures reply == Done ==>
                desks == old(desks)[id := old(desks)[id].(row := old(desks)[id].row.(lastCheckIn := clock))]
      ensures reply != Done ==> desks == old(desks)
      ensures reply == Gone404 <==> !strict && !(id < |desks| && desks[id].row.creator == owner)
      ensures reply.Conflict409? ==> id < |desks| && reply.status == desks[id].row.status != Armed
    {
      if strict {
        return SignedOnly410;
      }
      if id >= |desks| || desks[id].row.creator != owner {
        return Gone404;
      }
      var row := desks[id].row;
      if row.status != Armed {
        return Conflict409(row.status);
      }
      desks := desks[id := desks[id].(row := row.(lastCheckIn := clock))];
      return Done;
    }

    /** `proven`: the sensitive-action proof verified, or none is required. It is asked for
        only when there is something to cancel. */
    method CancelSwitch(owner: nat, id: nat, proven: bool) returns (reply: Reply)
      requires Valid()
      modifies this`desks
      ensures Valid()
      ensures |desks| == |old(desks)|
      ensures reply == Gone404 <==> !(id < |desks| && old(desks)[id].row.creator == owner)
      ensures reply.AlreadyOver? ==> id < |desks| && desks == old(desks) && old(desks)[id].row.status != Armed
                                     && (reply.cancelled <==> old(desks)[id].row.status == Cancelled)
      ensures reply == Done || reply == BadProof401 <==>
              id < |desks| && old(desks)[id].row.creator == owner && old(desks)[id].row.status == Armed
      ensures reply == Done ==>
                && proven
                && desks == old(desks)[id := old(desks)[id].(row := old(desks)[id].row.(status := Cancelled, payload := []))]
      ensures reply == BadProof401 ==> !proven
      ensures reply != Done ==> desks == old(desks)
      ensures reply == Done || reply == BadProof401 || reply == Gone404 || reply.AlreadyOver?
    {
      if id >= |desks| || desks[id].row.creator != owner {
        return Gone404;
      }
      var row := desks[id].row;
      if row.status != Armed {
        return AlreadyOver(row.status == Cancelled);
      }
      if !proven {
        return BadProof401;
      }
      desks := desks[id := desks[id].(row := row.(status := Cancelled, payload := []))];
      return Done;
    }

    /** The metadata key, then the inbox script; false stands for the exception. */
    method BuildAndDeliver(d: Desk, j: nat, now: int, full: set<nat>) returns (r: Desk, ok: bool)
      requires Shaped(d) && j < |d.row.marks| && d.row.marks[j].None?
      ensures r == DeliverOne(d, j, now, clock, full) && ok == r.row.marks[j].Some?
      ensures ok <==> (j in d.metaUntil && clock < d.metaUntil[j]) || d.row.recipients[j] !in full
      ensures r.row == if ok then d.row.(marks := d.row.marks[j := Some(now)]) else d.row
      ensures j in d.metaUntil && clock < d.metaUntil[j] ==> r.metaUntil == d.metaUntil && r.boxUntil == d.boxUntil
      ensures ok && !(j in d.metaUntil && clock < d.metaUntil[j]) ==>
                r.metaUntil == d.metaUntil[j := clock + 86400] && r.boxUntil == d.boxUntil[j := clock + 86400]
      ensures !ok ==> r.metaUntil == d.metaUntil - {j} && r.boxUntil == d.boxUntil
    {
      r, ok := d, true;
      if !(j in d.metaUntil && clock < d.metaUntil[j]) {
        var x := clock + MESSAGE_TTL_HARD_SECONDS;
        ok := d.row.recipients[j] !in full;
        r := if ok then d.(metaUntil := d.metaUntil[j := x], boxUntil := d.boxUntil[j := x])
             else d.(metaUntil := d.metaUntil - {j});
      }
      if ok {
        r := r.(row := r.row.Mark(j, now));
      }
    }

    /** The loop over one locked row's recipients. */
    method DeliverRow(i: nat, now: int, full: set<nat>) returns (delivered: nat, errors: nat)
      requires Valid() && i < |desks| && desks[i].row.Due(now)
      modifies this`desks
      ensures desks == old(desks)[i := FireRow(old(desks)[i], now, clock, full)]
      ensures delivered + errors == Unmarked(old(desks)[i].row.marks)
      ensures errors == Unmarked(FireRow(old(desks)[i], now, clock, full).row.marks)
    {
      ghost var was := desks[i];
      var d := desks[i];
      var n := |d.row.recipients|;
      delivered, errors := 0, 0;
      for j := 0 to n
        invariant desks == old(desks) && d == DeliverUpTo(was, j, now, clock, full)
        invariant errors == Unmarked(d.row.marks[..j]) && delivered + errors == Unmarked(was.row.marks[..j])
      {
        hide DeliverOne;
        DeliveryTouches(was, d, j, now, clock, full);
        if d.row.marks[j].None? {
          var ok;
          d, ok := BuildAndDeliver(d, j, now, full);
          if ok {
            delivered := delivered + 1;
          } else {
            errors := errors + 1;
          }
        }
      }
      assert d.row.marks[..n] == d.row.marks && was.row.marks[..n] == was.row.marks;
      NoneUnmarked(d.row.marks);
      if errors == 0 {
        d := d.(row := d.row.(status := Triggered, payload := []));
      }
      desks := desks[i := d];
    }

    /** One uninterrupted pass: every row moves as FireRow says, and the pass reports exactly
        the switches triggered, the recipients newly marked and those still missing. */
    method FireSwitches(full: set<nat>) returns (fired: int, delivered: int, errors: int)
      requires Valid()
      modifies this`desks
      ensures Valid() && |desks| == |old(desks)|
      ensures forall i :: 0 <= i < |desks| ==> desks[i] == FireRow(old(desks)[i], clock, clock, full)
      ensures (fired, delivered, errors) == PassStats(old(desks), clock, clock, full)
    {
      hide FireRow, PassStats, Unmarked;
      var now := clock;
      ghost var was := desks;
      StatsOfNone(now, clock, full);
      assert was[..0] == [];
      fired, delivered, errors := 0, 0, 0;
      for i := 0 to |desks|
        invariant |desks| == |was| && Valid()
        invariant forall k :: 0 <= k < i ==> desks[k] == FireRow(was[k], now, clock, full)
        invariant forall k :: i <= k < |desks| ==> desks[k] == was[k]
        invariant (fired, delivered, errors) == PassStats(was[..i], now, clock, full)
      {
        StatsNext(was, i, now, clock, full);
        NotDueStays(was[i], now, clock, full);
        if desks[i].row.Due(now) {
          var some, failed := DeliverRow(i, now, full);
          if failed == 0 {
            fired := fired + 1;
          }
          delivered, errors := delivered + some, errors + failed;
        }
      }
      assert was[..|was|] == was;
    }
  }

  /** Over the due rows: switches left without an unmarked recipient, marks gained, marks missing. */
  function PassStats(ds: seq<Desk>, now: int, clock: int, full: set<nat>): (int, int, int)
    requires forall i :: 0 <= i < |ds| ==> Shaped(ds[i])
  {
    if ds == [] then (0, 0, 0)
    else
      var (d, n) := (ds[|ds| - 1], |ds| - 1);
      var (fired, delivered, errors) := PassStats(ds[..n], now, clock, full);
      if !d.row.Due(now) then (fired, delivered, errors)
      else
        var missing := Unmarked(FireRow(d, now, clock, full).row.marks);
        (fired + if missing == 0 then 1 else 0, delivered + Unmarked(d.row.marks) - missing, errors + missing)
  }

  lemma StatsOfNone(now: int, clock: int, full: set<nat>)
    ensures PassStats([], now, clock, full) == (0, 0, 0)
  {
  }

  /** A row that was not due stays as it is. */
  lemma NotDueStays(d: Desk, now: int, clock: int, full: set<nat>)
    requires Shaped(d)
    ensures Shaped(FireRow(d, now, clock, full)) && (!d.row.Due(now) ==> FireRow(d, now, clock, full) == d)
  {
  }

  lemma StatsNext(ds: seq<Desk>, i: nat, now: int, clock: int, full: set<nat>)
    requires i < |ds| && forall k :: 0 <= k < |ds| ==> Shaped(ds[k])
    ensures PassStats(ds[..i + 1], now, clock, full) ==
            var (fired, delivered, errors) := PassStats(ds[..i], now, clock, full);
            if !ds[i].row.Due(now) then (fired, delivered, errors)
            else
              var missing := Unmarked(FireRow(ds[i], now, clock, full).row.marks);
              (fired + if missing == 0 then 1 else 0, delivered + Unmarked(ds[i].row.marks) - missing, errors + missing)
  {
    assert ds[..i + 1][..i] == ds[..i];
  }

  /** A pass reports no errors exactly when it leaves no armed row overdue. */
  lemma {:induction false} NoErrorsIffNoneDue(ds: seq<Desk>, now: int, clock: int, full: set<nat>)
    requires forall i :: 0 <= i < |ds| ==> Shaped(ds[i])
    ensures PassStats(ds, now, clock, full).2 >= 0
    ensures PassStats(ds, now, clock, full).2 == 0 <==>
            forall i :: 0 <= i < |ds| ==> !FireRow(ds[i], now, clock, full).row.Due(now)
  {
    if ds != [] {
      var n := |ds| - 1;
      NoErrorsIffNoneDue(ds[..n], now, clock, full);
      NoneUnmarked(FireRow(ds[n], now, clock, full).row.marks);
      assert forall i :: 0 <= i < n ==> ds[..n][i] == ds[i];
    }
  }

  /** Delivery j decides mark j and no other. */
  lemma DeliveryTouches(was: Desk, d: Desk, j: nat, now: int, clock: int, full: set<nat>)
    requires Shaped(was) && j < |was.row.marks| && d == DeliverUpTo(was, j, now, clock, full)
    ensures d.row.marks[j] == was.row.marks[j]
    ensures d.row.marks[j].Some? ==> DeliverOne(d, j, now, clock, full) == d
    ensures var e := DeliverUpTo(was, j + 1, now, clock, full);
            && e == DeliverOne(d, j, now, clock, full)
            && Unmarked(e.row.marks[..j + 1]) == Unmarked(d.row.marks[..j]) + (if e.row.marks[j].None? then 1 else 0)
            && Unmarked(was.row.marks[..j + 1]) == Unmarked(was.row.marks[..j]) + if d.row.marks[j].None? then 1 else 0
  {
    LaterMarksKept(was, j, j, now, clock, full);
    var e := DeliverUpTo(was, j + 1, now, clock, full);
    UnmarkedNext(was.row.marks, j);
    UnmarkedNext(e.row.marks, j);
    assert e.row.marks[..j] == d.row.marks[..j];
  }

  lemma {:induction false} LaterMarksKept(was: Desk, k: nat, j: nat, now: int, clock: int, full: set<nat>)
    requires Shaped(was) && k <= j < |was.row.marks|
    ensures DeliverUpTo(was, k, now, clock, full).row.marks[j] == was.row.marks[j]
  {
    if k > 0 {
      LaterMarksKept(was, k - 1, j, now, clock, full);
    }
  }

  function Unmarked(marks: seq<Option<int>>): nat {
    if marks == [] then 0
    else Unmarked(marks[..|marks| - 1]) + if marks[|marks| - 1].None? then 1 else 0
  }

  lemma UnmarkedNext(marks: seq<Option<int>>, j: nat)
    requires j < |marks|
    ensures Unmarked(marks[..j + 1]) == Unmarked(marks[..j]) + if marks[j].None? then 1 else 0
  {
    assert marks[..j + 1][..j] == marks[..j];
  }

  lemma {:induction false} NoneUnmarked(marks: seq<Option<int>>)
    ensures Unmarked(marks) == 0 <==> forall j :: 0 <= j < |marks| ==> marks[j].Some?
  {
    if marks != [] {
      NoneUnmarked(marks[..|marks| - 1]);
    }
  }
}
