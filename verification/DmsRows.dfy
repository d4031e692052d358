/** One Dead Man's Switch as its SQL row, its row lock and its recipients' envelopes, with
    every event that can touch it. The world of DmsMachine is many of these side by side. */
module DmsRows {
  import opened Common

  type Bytes = seq<nat>

  const DMS_TRIGGER_MIN_SECONDS := 3600
  const DMS_TRIGGER_MAX_SECONDS := 365 * 86400
  const DMS_PAYLOAD_MAX_BYTES := 262144
  const MESSAGE_TTL_HARD_SECONDS := 86400

  datatype Status = Armed | Triggered | Cancelled

  /** `marks[j]` is the delivered_at column of recipient j. */
  datatype Switch = Switch(
    creator: nat, trigger: int, lastCheckIn: int, payload: Bytes, status: Status,
    recipients: seq<nat>, marks: seq<Option<int>>)
  {
    predicate Due(now: int) { status == Armed && lastCheckIn + trigger <= now }

    predicate Marked(j: nat) { j < |marks| && marks[j].Some? }

    function Mark(j: nat, now: int): Switch
      requires j < |marks|
    {
      this.(marks := marks[j := Some(now)])
    }

    /** What the reaper commits: the marks, and the scrubbed TRIGGERED row if none failed. */
    function Finished(clean: bool): Switch {
      if clean then this.(status := Triggered, payload := []) else this
    }
  }

  /** A reaper pass works on its own copy of the row until it commits; `claimed` is the
      expiry of an envelope whose metadata key is set and whose inbox row is not yet. */
  datatype Lock =
    | Free
    | ByUser(at: int)
    | ByReaper(pass: nat, now: int, work: Switch, next: nat, clean: bool, claimed: Option<int>)

  /** What the creator asked for. */
  datatype Request = Request(creator: nat, trigger: int, payload: Bytes, recipients: seq<nat>)

  /** History: what one inbox insertion gave to whom, and what had been said before it. */
  datatype Handing = Handing(j: nat, recipient: nat, now: int, payload: Bytes, checkIns: set<int>)

  /** Envelope keys are per recipient: the envelope id hashes switch, recipient and payload.
      `asked` and what follows it are history. */
  datatype Cell = Cell(
    row: Switch, lock: Lock,
    metaUntil: map<nat, int>, boxUntil: map<nat, int>,
    asked: Request, checkIns: set<int>, accepted: set<nat>, torn: set<nat>, handed: set<Handing>)
  {
    predicate MetaLive(j: nat, clock: int) { j in metaUntil && clock < metaUntil[j] }

    predicate InBox(j: nat, clock: int) { j in boxUntil && clock < boxUntil[j] }

    predicate HeldBy(p: nat) { lock.ByReaper? && lock.pass == p }

    predicate Delivering() {
      lock.ByReaper? && lock.next < |lock.work.recipients| && lock.next < |lock.work.marks|
    }

    predicate Idle() {
      lock.ByReaper? && lock.next >= |lock.work.recipients| && lock.claimed.None?
    }
  }

  datatype Event =
    | Quiet
    | Bump(captured: int)
    | UserLock(at: int)
    | CheckIn
    | Cancel
    | Claim(pass: nat, now: int)
    | Prepare(clock: int)
    | Deliver(full: bool)
    | Fail
    | Commit
    | Abandon
    | Vanish(j: nat, withMeta: bool)

  function OnUser(c: Cell, ev: Event): Cell {
    match ev
    case Bump(t) =>
      if c.row.status != Armed || !c.lock.Free? then c
      else c.(row := c.row.(lastCheckIn := t), checkIns := c.checkIns + {t})
    case UserLock(at) =>
      if !c.lock.Free? then c else c.(lock := ByUser(at))
    case CheckIn =>
      if !c.lock.ByUser? then c
      else if c.row.status != Armed then c.(lock := Free)
      else c.(lock := Free, row := c.row.(lastCheckIn := c.lock.at), checkIns := c.checkIns + {c.lock.at})
    case Cancel =>
      if !c.lock.ByUser? then c
      else if c.row.status != Armed then c.(lock := Free)
      else c.(lock := Free, row := c.row.(status := Cancelled, payload := []))
    case _ => c
  }

  function Claimed(c: Cell, p: nat, now: int): Cell {
    if !c.lock.Free? || !c.row.Due(now) then c
    else c.(lock := ByReaper(p, now, c.row, 0, true, None))
  }

  /** SET NX on the metadata. A live key means "already queued": the caller marks and goes on. */
  function Prepared(c: Cell, clock: int): Cell {
    if !c.Delivering() || c.lock.claimed.Some? then c
    else if c.lock.work.marks[c.lock.next].Some? then c.(lock := c.lock.(next := c.lock.next + 1))
    else if c.MetaLive(c.lock.next, clock) then
      c.(lock := c.lock.(next := c.lock.next + 1, work := c.lock.work.Mark(c.lock.next, c.lock.now)))
    else
      c.(lock := c.lock.(claimed := Some(clock + MESSAGE_TTL_HARD_SECONDS)),
         metaUntil := c.metaUntil[c.lock.next := clock + MESSAGE_TTL_HARD_SECONDS])
  }

  /** The inbox script: a row and a mark, or a full inbox and the metadata key deleted. */
  function Delivered(c: Cell, full: bool): Cell {
    if !c.Delivering() || c.lock.claimed.None? then c
    else if full then
      c.(lock := c.lock.(next := c.lock.next + 1, clean := false, claimed := None),
         metaUntil := c.metaUntil - {c.lock.next})
    else
      var j := c.lock.next;
      c.(lock := c.lock.(next := j + 1, claimed := None, work := c.lock.work.Mark(j, c.lock.now)),
         boxUntil := c.boxUntil[j := c.lock.claimed.value],
         accepted := c.accepted + {j},
         handed := c.handed + {Handing(j, c.lock.work.recipients[j], c.lock.now, c.lock.work.payload, c.checkIns)})
  }

  function Failed(c: Cell): Cell {
    if !c.Delivering() || c.lock.claimed.Some? || c.lock.work.marks[c.lock.next].Some? then c
    else c.(lock := c.lock.(next := c.lock.next + 1, clean := false))
  }

  function Committed(c: Cell): Cell {
    if !c.Idle() then c else c.(lock := Free, row := c.lock.work.Finished(c.lock.clean))
  }

  /** The pass dies: SQL rolls back, what Redis was told stays. */
  function Abandoned(c: Cell): Cell {
    if !c.lock.ByReaper? then c
    else c.(lock := Free, torn := if c.lock.claimed.Some? then c.torn + {c.lock.next} else c.torn)
  }

  /** An inbox row goes: acknowledged, or lost with its inbox key. An acknowledgement that
      found the pending set takes the metadata too. */
  function Vanished(c: Cell, j: nat, withMeta: bool): Cell {
    if j !in c.boxUntil then c
    else
      var inFlight := c.lock.ByReaper? && c.lock.claimed.Some? && c.lock.next == j;
      c.(boxUntil := c.boxUntil - {j},
         metaUntil := if withMeta && !inFlight then c.metaUntil - {j} else c.metaUntil)
  }

  function Evolve(c: Cell, ev: Event): Cell {
    match ev
    case Quiet => c
    case Claim(p, now) => Claimed(c, p, now)
    case Prepare(clock) => Prepared(c, clock)
    case Deliver(full) => Delivered(c, full)
    case Fail => Failed(c)
    case Commit => Committed(c)
    case Abandon => Abandoned(c)
    case Vanish(j, withMeta) => Vanished(c, j, withMeta)
    case _ => OnUser(c, ev)
  }

  /** When an event may happen: the clock is read, never invented; a bump may write a time
      captured up to `slack` seconds earlier. */
  predicate Timely(c: Cell, ev: Event, clock: int, slack: nat) {
    match ev
    case Bump(t) => t <= clock <= t + slack
    case UserLock(at) => at == clock
    case Claim(p, now) => now <= clock
    case Prepare(t) => t == clock
    case _ => true
  }

  // ---- what holds of a switch at any time ----

  ghost predicate RowAgrees(c: Cell) {
    && DMS_TRIGGER_MIN_SECONDS <= c.row.trigger
    && |c.row.marks| == |c.row.recipients|
    && c.row.creator == c.asked.creator && c.row.trigger == c.asked.trigger && c.row.recipients == c.asked.recipients
    && c.asked.payload != []
    && (if c.row.status == Armed then c.row.payload == c.asked.payload else c.row.payload == [])
    && (c.row.status == Triggered ==> forall j :: 0 <= j < |c.row.marks| ==> c.row.marks[j].Some?)
  }

  ghost predicate TimesAgree(c: Cell, clock: int, slack: nat) {
    && (forall t :: t in c.checkIns ==> t <= clock && t <= c.row.lastCheckIn + slack)
    && c.row.lastCheckIn in c.checkIns
    && (c.lock.ByUser? ==> c.lock.at <= clock && forall t :: t in c.checkIns ==> t <= c.lock.at)
    && (c.lock.ByReaper? ==> c.lock.now <= clock && c.row.Due(c.lock.now))
    && (forall h :: h in c.handed ==>
          && h.payload == c.asked.payload && h.j < |c.asked.recipients| && h.recipient == c.asked.recipients[h.j]
          && forall t :: t in h.checkIns ==> t + c.asked.trigger <= h.now + slack)
  }

  ghost predicate WorkAgrees(c: Cell) {
    c.lock.ByReaper? ==>
      && c.row.status == Armed
      && c.lock.work == c.row.(marks := c.lock.work.marks)
      && |c.lock.work.marks| == |c.row.marks|
      && c.lock.next <= |c.lock.work.marks|
      && (forall j :: 0 <= j < |c.row.marks| && c.row.marks[j].Some? ==> c.lock.work.marks[j].Some?)
      && (c.lock.clean ==> forall j :: 0 <= j < c.lock.next ==> c.lock.work.marks[j].Some?)
      && (!c.lock.clean ==> exists j :: 0 <= j < c.lock.next && c.lock.work.marks[j].None?)
      && (c.lock.claimed.Some? ==> c.lock.next < |c.lock.work.marks| && c.lock.work.marks[c.lock.next].None?)
  }

  predicate InFlight(c: Cell, j: nat) {
    c.lock.ByReaper? && c.lock.claimed.Some? && c.lock.next == j
  }

  ghost predicate KeysAgree(c: Cell, clock: int) {
    && (forall j :: c.InBox(j, clock) ==> j in c.metaUntil && c.boxUntil[j] <= c.metaUntil[j] && !InFlight(c, j))
    && (forall j :: InFlight(c, j) ==> j in c.metaUntil && c.lock.claimed.value <= c.metaUntil[j])
    && (forall j :: c.MetaLive(j, clock) && !InFlight(c, j) ==> j in c.accepted + c.torn)
    && (forall j :: 0 <= j < |c.row.marks| && c.row.marks[j].Some? ==> j in c.accepted + c.torn)
    && (c.lock.ByReaper? ==> forall j :: 0 <= j < |c.lock.work.marks| && c.lock.work.marks[j].Some? ==> j in c.accepted + c.torn)
  }

  ghost predicate CellInv(c: Cell, clock: int, slack: nat) {
    RowAgrees(c) && TimesAgree(c, clock, slack) && WorkAgrees(c) && KeysAgree(c, clock)
  }

  lemma UserEventKeeps(c: Cell, ev: Event, clock: int, slack: nat)
    requires CellInv(c, clock, slack) && Timely(c, ev, clock, slack)
    ensures CellInv(OnUser(c, ev), clock, slack)
  {
  }

  lemma ClaimKeeps(c: Cell, p: nat, now: int, clock: int, slack: nat)
    requires CellInv(c, clock, slack) && now <= clock
    ensures CellInv(Claimed(c, p, now), clock, slack)
  {
  }

  lemma PrepareKeys(c: Cell, clock: int)
    requires WorkAgrees(c) && KeysAgree(c, clock)
    ensures KeysAgree(Prepared(c, clock), clock)
  {
    var d := Prepared(c, clock);
    forall j | d.InBox(j, clock)
      ensures j in d.metaUntil && d.boxUntil[j] <= d.metaUntil[j] && !InFlight(d, j)
    {
      assert c.InBox(j, clock);
    }
    forall j | d.MetaLive(j, clock) && !InFlight(d, j) ensures j in d.accepted + d.torn {
      assert c.MetaLive(j, clock) && !InFlight(c, j);
    }
  }

  lemma PrepareKeeps(c: Cell, clock: int, slack: nat)
    requires CellInv(c, clock, slack)
    ensures CellInv(Prepared(c, clock), clock, slack)
  {
    PrepareKeys(c, clock);
    hide KeysAgree;
    if c.lock.ByReaper? && !c.lock.clean {
      var j :| 0 <= j < c.lock.next && c.lock.work.marks[j].None?;
      assert Prepared(c, clock).lock.work.marks[j].None?;
    }
  }

  lemma DeliverKeys(c: Cell, full: bool, clock: int)
    requires WorkAgrees(c) && KeysAgree(c, clock)
    ensures KeysAgree(Delivered(c, full), clock)
  {
    var d := Delivered(c, full);
    forall j | d.InBox(j, clock)
      ensures j in d.metaUntil && d.boxUntil[j] <= d.metaUntil[j] && !InFlight(d, j)
    {
      assert InFlight(c, j) || c.InBox(j, clock);
    }
    forall j | d.MetaLive(j, clock) && !InFlight(d, j) ensures j in d.accepted + d.torn {
      assert InFlight(c, j) || c.MetaLive(j, clock);
    }
  }

  lemma DeliverKeeps(c: Cell, full: bool, clock: int, slack: nat)
    requires CellInv(c, clock, slack)
    ensures CellInv(Delivered(c, full), clock, slack)
  {
    DeliverKeys(c, full, clock);
    hide KeysAgree;
    if c.lock.ByReaper? && !c.lock.clean {
      var j :| 0 <= j < c.lock.next && c.lock.work.marks[j].None?;
      assert Delivered(c, full).lock.work.marks[j].None?;
    }
  }

  lemma FailKeeps(c: Cell, clock: int, slack: nat)
    requires CellInv(c, clock, slack)
    ensures CellInv(Failed(c), clock, slack)
  {
  }

  lemma CommitKeeps(c: Cell, clock: int, slack: nat)
    requires CellInv(c, clock, slack)
    ensures CellInv(Committed(c), clock, slack)
  {
  }

  lemma AbandonKeeps(c: Cell, clock: int, slack: nat)
    requires CellInv(c, clock, slack)
    ensures CellInv(Abandoned(c), clock, slack)
  {
  }

  lemma VanishKeeps(c: Cell, j: nat, withMeta: bool, clock: int, slack: nat)
    requires CellInv(c, clock, slack)
    ensures CellInv(Vanished(c, j, withMeta), clock, slack)
  {
  }

  lemma TimeKeeps(c: Cell, clock: int, later: int, slack: nat)
    requires CellInv(c, clock, slack) && clock <= later
    ensures CellInv(c, later, slack)
  {
  }

  lemma EventKeeps(c: Cell, ev: Event, clock: int, slack: nat)
    requires CellInv(c, clock, slack) && Timely(c, ev, clock, slack)
    ensures CellInv(Evolve(c, ev), clock, slack)
  {
    hide CellInv;
    match ev {
      case Quiet =>
      case Claim(p, now) => ClaimKeeps(c, p, now, clock, slack);
      case Prepare(t) => PrepareKeeps(c, clock, slack);
      case Deliver(full) => DeliverKeeps(c, full, clock, slack);
      case Fail => FailKeeps(c, clock, slack);
      case Commit => CommitKeeps(c, clock, slack);
      case Abandon => AbandonKeeps(c, clock, slack);
      case Vanish(j, withMeta) => VanishKeeps(c, j, withMeta, clock, slack);
      case _ => UserEventKeeps(c, ev, clock, slack);
    }
  }

  // ---- what one event can and cannot do ----

  /** A triggered or cancelled switch never changes again and gives nothing away. */
  lemma EndIsFinal(c: Cell, ev: Event, clock: int, slack: nat)
    requires CellInv(c, clock, slack) && c.row.status != Armed
    ensures Evolve(c, ev).row == c.row && Evolve(c, ev).handed == c.handed
  {
  }

  function Weight(c: Cell): nat { if c.row.status == Armed then |c.row.payload| else 0 }

  /** No event makes a switch count for more of its creator's quota. */
  lemma EventKeepsQuota(c: Cell, ev: Event, clock: int, slack: nat)
    requires CellInv(c, clock, slack)
    ensures var d := Evolve(c, ev);
            && d.row.creator == c.row.creator && d.row.recipients == c.row.recipients
            && (d.row.status == Armed ==> c.row.status == Armed)
            && Weight(d) <= Weight(c)
  {
  }
}
