/** All switches, reaper passes and activity bumps together, in any interleaving. */
module DmsMachine {
  import opened Common
  import opened DmsRows

  const DMS_FREE_TIER_MAX_RECIPIENTS: nat := 5
  const DMS_PREMIUM_TIER_MAX_RECIPIENTS: nat := 20
  const DMS_FREE_TIER_MAX_ACTIVE: nat := 5
  const DMS_PREMIUM_TIER_MAX_ACTIVE: nat := 20
  const DMS_FREE_TIER_MAX_TOTAL_BYTES: nat := 2 * 1024 * 1024
  const DMS_PREMIUM_TIER_MAX_TOTAL_BYTES: nat := 20 * 1024 * 1024

  /** `now` is read when the pass starts, the rows are locked later. `skipped` are the due
      rows SKIP LOCKED passed over. */
  datatype Pass = Pass(now: int, locked: bool, skipped: set<nat>)

  datatype Bump = Bumping(creator: nat, captured: int)

  datatype World = World(
    clock: int, cells: seq<Cell>, passes: map<nat, Pass>, bumps: map<nat, Bump>, premium: set<nat>)

  datatype Step =
    | Wait(seconds: nat)
    | Create(creator: nat, trigger: int, payload: Bytes, recipients: seq<nat>)
    | LockRow(i: nat)
    | CheckInRow(i: nat)
    | CancelRow(i: nat)
    | BumpRead(b: nat, creator: nat)
    | BumpWrite(b: nat)
    | PassStart(p: nat)
    | PassLock(p: nat, skip: set<nat>)
    | PassPrepare(i: nat)
    | PassDeliver(i: nat, full: bool)
    | PassFail(i: nat)
    | PassCommit(p: nat)
    | PassCrash(p: nat)
    | RowVanishes(i: nat, j: nat, withMeta: bool)

  function MaxActive(w: World, pk: nat): nat {
    if pk in w.premium then DMS_PREMIUM_TIER_MAX_ACTIVE else DMS_FREE_TIER_MAX_ACTIVE
  }

  function MaxBytes(w: World, pk: nat): nat {
    if pk in w.premium then DMS_PREMIUM_TIER_MAX_TOTAL_BYTES else DMS_FREE_TIER_MAX_TOTAL_BYTES
  }

  function MaxRecipients(w: World, pk: nat): nat {
    if pk in w.premium then DMS_PREMIUM_TIER_MAX_RECIPIENTS else DMS_FREE_TIER_MAX_RECIPIENTS
  }

  function ActiveCount(cells: seq<Cell>, pk: nat): nat {
    if cells == [] then 0
    else
      var n := |cells| - 1;
      ActiveCount(cells[..n], pk) + if cells[n].row.creator == pk && cells[n].row.status == Armed then 1 else 0
  }

  function ActiveBytes(cells: seq<Cell>, pk: nat): nat {
    if cells == [] then 0
    else
      var n := |cells| - 1;
      ActiveBytes(cells[..n], pk) + if cells[n].row.creator == pk then Weight(cells[n]) else 0
  }

  predicate RequestValid(trigger: int, payload: Bytes, recipients: seq<nat>) {
    && DMS_TRIGGER_MIN_SECONDS <= trigger <= DMS_TRIGGER_MAX_SECONDS
    && 0 < |payload| <= DMS_PAYLOAD_MAX_BYTES
    && recipients != [] && NoDup(recipients) && |recipients| <= DMS_PREMIUM_TIER_MAX_RECIPIENTS
  }

  predicate CreateAllowed(w: World, pk: nat, trigger: int, payload: Bytes, recipients: seq<nat>) {
    && RequestValid(trigger, payload, recipients)
    && |recipients| <= MaxRecipients(w, pk)
    && ActiveCount(w.cells, pk) < MaxActive(w, pk)
    && ActiveBytes(w.cells, pk) + |payload| <= MaxBytes(w, pk)
  }

  function NewSwitch(pk: nat, trigger: int, now: int, payload: Bytes, recipients: seq<nat>): Switch {
    Switch(pk, trigger, now, payload, Armed, recipients, seq(|recipients|, _ => None))
  }

  function NewCell(asked: Request, now: int): Cell {
    Cell(NewSwitch(asked.creator, asked.trigger, now, asked.payload, asked.recipients),
         Free, map[], map[], asked, {now}, {}, {}, {})
  }

  /** One UPDATE for all the creator's armed rows: it waits for every lock on them. */
  predicate BumpReady(w: World, b: nat) {
    b in w.bumps &&
    forall i :: 0 <= i < |w.cells| ==>
      (w.cells[i].row.creator == w.bumps[b].creator && w.cells[i].row.status == Armed ==> w.cells[i].lock.Free?)
  }

  predicate PassDone(w: World, p: nat) {
    p in w.passes && w.passes[p].locked &&
    forall i :: 0 <= i < |w.cells| && w.cells[i].HeldBy(p) ==> w.cells[i].Idle()
  }

  function EventFor(w: World, step: Step, i: nat): Event
    requires i < |w.cells|
  {
    match step
    case LockRow(k) => if k == i then UserLock(w.clock) else Quiet
    case CheckInRow(k) => if k == i then CheckIn else Quiet
    case CancelRow(k) => if k == i then Cancel else Quiet
    case BumpWrite(b) =>
      if BumpReady(w, b) && w.cells[i].row.creator == w.bumps[b].creator then Bump(w.bumps[b].captured) else Quiet
    case PassLock(p, skip) =>
      if p in w.passes && !w.passes[p].locked && i !in skip then Claim(p, w.passes[p].now) else Quiet
    case PassPrepare(k) => if k == i then Prepare(w.clock) else Quiet
    case PassDeliver(k, full) => if k == i then Deliver(full) else Quiet
    case PassFail(k) => if k == i then Fail else Quiet
    case PassCommit(p) => if PassDone(w, p) && w.cells[i].HeldBy(p) then Commit else Quiet
    case PassCrash(p) => if p in w.passes && w.cells[i].HeldBy(p) then Abandon else Quiet
    case RowVanishes(k, j, withMeta) => if k == i then Vanish(j, withMeta) else Quiet
    case _ => Quiet
  }

  /** Every row that is there before the step, moved by the step's event for it. */
  function Moved(w: World, step: Step): seq<Cell> {
    seq(|w.cells|, i requires 0 <= i < |w.cells| => Evolve(w.cells[i], EventFor(w, step, i)))
  }

  function Overlooked(w: World, p: nat, skip: set<nat>): set<nat>
    requires p in w.passes
  {
    set i: nat | i < |w.cells| && w.cells[i].row.Due(w.passes[p].now) && (i in skip || !w.cells[i].lock.Free?)
  }

  function Apply(w: World, step: Step): World {
    match step
    case Wait(d) => w.(clock := w.clock + d)
    case Create(pk, trigger, payload, recipients) =>
      if CreateAllowed(w, pk, trigger, payload, recipients) then
        w.(cells := w.cells + [NewCell(Request(pk, trigger, payload, recipients), w.clock)])
      else w
    case BumpRead(b, pk) => if b in w.bumps then w else w.(bumps := w.bumps[b := Bumping(pk, w.clock)])
    case BumpWrite(b) => w.(cells := Moved(w, step), bumps := if BumpReady(w, b) then w.bumps - {b} else w.bumps)
    case PassStart(p) => if p in w.passes then w else w.(passes := w.passes[p := Pass(w.clock, false, {})])
    case PassLock(p, skip) =>
      if p in w.passes && !w.passes[p].locked then
        w.(cells := Moved(w, step), passes := w.passes[p := Pass(w.passes[p].now, true, Overlooked(w, p, skip))])
      else w
    case PassCommit(p) =>
      if PassDone(w, p) then w.(cells := Moved(w, step), passes := w.passes - {p}) else w
    case PassCrash(p) => w.(cells := Moved(w, step), passes := w.passes - {p})
    case _ => w.(cells := Moved(w, step))
  }

  function Run(w: World, steps: seq<Step>): World
    decreases |steps|
  {
    if steps == [] then w else Run(Apply(w, steps[0]), steps[1..])
  }

  /** Every bump of the run writes its time at most `slack` seconds after reading it. */
  predicate PromptBumps(w: World, steps: seq<Step>, slack: nat)
    decreases |steps|
  {
    steps == [] || (PromptStep(w, steps[0], slack) && PromptBumps(Apply(w, steps[0]), steps[1..], slack))
  }

  predicate PromptStep(w: World, step: Step, slack: nat) {
    step.BumpWrite? && BumpReady(w, step.b) ==> w.clock <= w.bumps[step.b].captured + slack
  }

  /** Tiers do not change during a run. */
  function Start(premium: set<nat>): World { World(0, [], map[], map[], premium) }

  ghost predicate WorldInv(w: World, slack: nat) {
    && (forall i :: 0 <= i < |w.cells| ==> CellInv(w.cells[i], w.clock, slack))
    && (forall p :: p in w.passes ==> w.passes[p].now <= w.clock)
    && (forall b :: b in w.bumps ==> w.bumps[b].captured <= w.clock)
  }

  lemma NewCellInv(pk: nat, trigger: int, now: int, payload: Bytes, recipients: seq<nat>, slack: nat)
    requires RequestValid(trigger, payload, recipients)
    ensures CellInv(NewCell(Request(pk, trigger, payload, recipients), now), now, slack)
  {
  }

  lemma StepKeeps(w: World, step: Step, slack: nat)
    requires WorldInv(w, slack) && PromptStep(w, step, slack)
    ensures WorldInv(Apply(w, step), slack)
  {
    hide CellInv, Evolve;
    var v := Apply(w, step);
    forall i | 0 <= i < |v.cells| ensures CellInv(v.cells[i], v.clock, slack) {
      if step.Wait? {
        TimeKeeps(w.cells[i], w.clock, v.clock, slack);
      } else if i < |w.cells| {
        EventKeeps(w.cells[i], EventFor(w, step, i), w.clock, slack);
        if v.cells[i] != w.cells[i] {
          assert v.cells[i] == Evolve(w.cells[i], EventFor(w, step, i));
        }
      } else {
        NewCellInv(step.creator, step.trigger, w.clock, step.payload, step.recipients, slack);
      }
    }
  }

  lemma {:induction false} RunKeeps(w: World, steps: seq<Step>, slack: nat)
    requires WorldInv(w, slack) && PromptBumps(w, steps, slack)
    ensures WorldInv(Run(w, steps), slack)
    decreases |steps|
  {
    if steps != [] {
      StepKeeps(w, steps[0], slack);
      RunKeeps(Apply(w, steps[0]), steps[1..], slack);
    }
  }
}
