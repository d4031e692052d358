/** What the Dead Man's Switch promises, over every run of DmsMachine. */
module DmsSafety {
  import opened Common
  import opened DmsRows
  import opened DmsMachine

  lemma Reachable(premium: set<nat>, steps: seq<Step>, slack: nat)
    requires PromptBumps(Start(premium), steps, slack)
    ensures WorldInv(Run(Start(premium), steps), slack)
  {
    RunKeeps(Start(premium), steps, slack);
  }

  // ---- when a payload may leave ----

  /** A payload handed over by a pass that read the clock at h.now is the one the creator
      asked for, it went to a recipient asked for, and every check-in committed before is at
      least as old as the silence asked for, give or take the longest a bump dawdled between
      reading the clock and its UPDATE. */
  lemma PayloadOnlyAfterSilence(premium: set<nat>, steps: seq<Step>, slack: nat, i: nat, h: Handing, t: int)
    requires PromptBumps(Start(premium), steps, slack)
    ensures var w := Run(Start(premium), steps);
            i < |w.cells| && h in w.cells[i].handed ==>
              && h.payload == w.cells[i].asked.payload && h.recipient in w.cells[i].asked.recipients
              && (t in h.checkIns ==> t + w.cells[i].asked.trigger <= h.now + slack)
  {
    Reachable(premium, steps, slack);
    var w := Run(Start(premium), steps);
    if i < |w.cells| {
      assert TimesAgree(w.cells[i], w.clock, slack);
    }
  }

  /** What a delivery records is every check-in committed up to that very moment. */
  lemma HandingSeesAllCheckIns(w: World, i: nat, full: bool, h: Handing)
    requires i < |w.cells|
    ensures h in Apply(w, PassDeliver(i, full)).cells[i].handed && h !in w.cells[i].handed ==>
              h.checkIns == w.cells[i].checkIns
  {
  }

  lemma StepKeepsCheckIns(w: World, step: Step, i: nat)
    requires i < |w.cells|
    ensures i < |Apply(w, step).cells| && w.cells[i].checkIns <= Apply(w, step).cells[i].checkIns
  {
    var v := Apply(w, step);
    assert i < |v.cells| && (v.cells[i] == w.cells[i] || v.cells[i] == Evolve(w.cells[i], EventFor(w, step, i)));
    EvolveKeepsCheckIns(w.cells[i], EventFor(w, step, i));
  }

  lemma EvolveKeepsCheckIns(c: Cell, ev: Event)
    ensures c.checkIns <= Evolve(c, ev).checkIns
  {
  }

  lemma {:induction false} RunKeepsCheckIns(w: World, steps: seq<Step>, i: nat)
    requires i < |w.cells|
    ensures i < |Run(w, steps).cells| && w.cells[i].checkIns <= Run(w, steps).cells[i].checkIns
    decreases |steps|
  {
    if steps != [] {
      StepKeepsCheckIns(w, steps[0], i);
      RunKeepsCheckIns(Apply(w, steps[0]), steps[1..], i);
    }
  }

  lemma {:induction false} RunConcat(w: World, a: seq<Step>, b: seq<Step>, slack: nat)
    requires PromptBumps(w, a + b, slack)
    ensures Run(w, a + b) == Run(Run(w, a), b)
    ensures PromptBumps(w, a, slack) && PromptBumps(Run(w, a), b, slack)
    decreases |a|
  {
    if a == [] {
      assert a + b == b;
    } else {
      assert (a + b)[1..] == a[1..] + b;
      RunConcat(Apply(w, a[0]), a[1..], b, slack);
    }
  }

  function AskedBy(step: Step): Request
    requires step.Create?
  {
    Request(step.creator, step.trigger, step.payload, step.recipients)
  }

  /** A switch as a request creates it: armed with what was asked for, its silence counted from
      now, nothing delivered and nobody working on it. */
  predicate Begins(c: Cell, step: Step, now: int)
    requires step.Create?
  {
    && c.asked == Request(step.creator, step.trigger, step.payload, step.recipients)
    && c.row.creator == step.creator && c.row.trigger == step.trigger && c.row.payload == step.payload
    && c.row.recipients == step.recipients && c.row.status == Armed && c.row.lastCheckIn == now
    && |c.row.marks| == |step.recipients| && (forall j :: 0 <= j < |c.row.marks| ==> c.row.marks[j].None?)
    && c.lock.Free? && c.checkIns == {now} && c.metaUntil == map[] && c.boxUntil == map[]
    && c.accepted == {} && c.torn == {} && c.handed == {}
  }

  lemma EvolveKeepsAsked(c: Cell, ev: Event)
    ensures Evolve(c, ev).asked == c.asked
  {
  }

  /** A step keeps every request, and the one it may add is what its Create asked for. */
  lemma StepAsked(w: World, step: Step)
    ensures var v := Apply(w, step);
            && |w.cells| <= |v.cells|
            && (forall i :: 0 <= i < |w.cells| ==> v.cells[i].asked == w.cells[i].asked)
            && (|w.cells| < |v.cells| ==> step.Create? && |v.cells| == |w.cells| + 1 && Begins(v.cells[|w.cells|], step, w.clock))
  {
    hide Evolve;
    var v := Apply(w, step);
    forall i | 0 <= i < |w.cells| ensures v.cells[i].asked == w.cells[i].asked {
      EvolveKeepsAsked(w.cells[i], EventFor(w, step, i));
      assert v.cells[i] == w.cells[i] || v.cells[i] == Evolve(w.cells[i], EventFor(w, step, i));
    }
  }

  /** Every switch of a run was asked for by one of its Create steps, and its history keeps
      that request. */
  lemma {:induction false} EverySwitchWasAskedFor(w: World, steps: seq<Step>, i: nat)
    requires i < |Run(w, steps).cells|
    ensures if i < |w.cells| then Run(w, steps).cells[i].asked == w.cells[i].asked
            else exists k :: 0 <= k < |steps| && steps[k].Create? && AskedBy(steps[k]) == Run(w, steps).cells[i].asked
    decreases |steps|
  {
    if steps != [] {
      StepAsked(w, steps[0]);
      EverySwitchWasAskedFor(Apply(w, steps[0]), steps[1..], i);
      var asked := Run(w, steps).cells[i].asked;
      hide Apply, Run;
      if |Apply(w, steps[0]).cells| <= i {
        var k :| 0 <= k < |steps[1..]| && steps[1..][k].Create? && AskedBy(steps[1..][k]) == asked;
        assert steps[k + 1] == steps[1..][k];
      }
    }
  }

  /** Main theorem, along a run: whatever check-in was committed at any earlier moment, the
      delivery that hands the payload over belongs to a pass whose clock had left it behind by
      the trigger some Create step of the run asked for (up to the bumps' slack), and payload
      and recipient are those of that same request. */
  lemma NoPayloadUntilSilent(premium: set<nat>, before: seq<Step>, meanwhile: seq<Step>, slack: nat, i: nat, full: bool,
                             h: Handing, t: int)
    requires PromptBumps(Start(premium), before + meanwhile + [PassDeliver(i, full)], slack)
    ensures var (w, v) := (Run(Start(premium), before), Run(Start(premium), before + meanwhile));
            var u := Run(Start(premium), before + meanwhile + [PassDeliver(i, full)]);
            i < |w.cells| && i < |v.cells| && i < |u.cells| && t in w.cells[i].checkIns
            && h in u.cells[i].handed && h !in v.cells[i].handed ==>
              exists k :: 0 <= k < |before + meanwhile| && (before + meanwhile)[k].Create? &&
                var asked := AskedBy((before + meanwhile)[k]);
                && asked == u.cells[i].asked && t + asked.trigger <= h.now + slack
                && h.payload == asked.payload && h.recipient in asked.recipients
  {
    var s := Start(premium);
    var last := [PassDeliver(i, full)];
    RunConcat(s, before + meanwhile, last, slack);
    RunConcat(s, before, meanwhile, slack);
    var (w, v) := (Run(s, before), Run(s, before + meanwhile));
    assert Run(v, last) == Apply(v, last[0]) by { assert last[1..] == []; }
    if i < |w.cells| {
      RunKeepsCheckIns(w, meanwhile, i);
      HandingSeesAllCheckIns(v, i, full, h);
      PayloadOnlyAfterSilence(premium, before + meanwhile + last, slack, i, h, t);
      if i < |v.cells| {
        StepAsked(v, last[0]);
        EverySwitchWasAskedFor(s, before + meanwhile, i);
      }
    }
    hide Apply;
  }

  predicate Fresh(c: Cell) { forall t :: t in c.checkIns ==> t <= c.row.lastCheckIn }

  /** The SQL guard proves silence at every time it could be asked exactly when the column
      holds the latest check-in. */
  lemma GuardSoundIff(c: Cell)
    requires c.row.status == Armed
    ensures Fresh(c) <==>
            forall now, t | c.row.Due(now) && t in c.checkIns :: t + c.row.trigger <= now
  {
    if t :| t in c.checkIns && c.row.lastCheckIn < t {
      var now := c.row.lastCheckIn + c.row.trigger;
      assert c.row.Due(now) && !(t + c.row.trigger <= now);
    }
  }

  /** The one step that can lose that: an activity bump, exactly when the time it captured is
      older than the row already shows. */
  lemma FreshKeptIff(c: Cell, ev: Event, clock: int, slack: nat)
    requires CellInv(c, clock, slack) && Timely(c, ev, clock, slack) && Fresh(c)
    ensures Fresh(Evolve(c, ev)) <==>
            !(ev.Bump? && c.row.status == Armed && c.lock.Free? && ev.captured < c.row.lastCheckIn)
  {
    if ev.Bump? && c.row.status == Armed && c.lock.Free? && ev.captured < c.row.lastCheckIn {
      assert c.row.lastCheckIn in Evolve(c, ev).checkIns;
    }
  }

  // ---- the end of a switch ----

  lemma StepEnd(w: World, step: Step, slack: nat, i: nat)
    requires WorldInv(w, slack) && i < |w.cells| && w.cells[i].row.status != Armed
    ensures i < |Apply(w, step).cells|
    ensures Apply(w, step).cells[i].row == w.cells[i].row && Apply(w, step).cells[i].handed == w.cells[i].handed
  {
    hide CellInv, Evolve;
    EndIsFinal(w.cells[i], EventFor(w, step, i), w.clock, slack);
    assert Apply(w, step).cells[i] != w.cells[i] ==>
        Apply(w, step).cells[i] == Evolve(w.cells[i], EventFor(w, step, i));
  }

  /** After a committed cancel (or trigger) the row never changes and nothing is handed over,
      whatever a pass that started earlier still does. */
  lemma {:induction false} CancelIsFinal(w: World, steps: seq<Step>, slack: nat, i: nat)
    requires WorldInv(w, slack) && PromptBumps(w, steps, slack)
    requires i < |w.cells| && w.cells[i].row.status != Armed
    ensures i < |Run(w, steps).cells|
    ensures Run(w, steps).cells[i].row == w.cells[i].row && Run(w, steps).cells[i].handed == w.cells[i].handed
    ensures w.cells[i].row.payload == []
    decreases |steps|
  {
    assert CellInv(w.cells[i], w.clock, slack);
    if steps != [] {
      StepEnd(w, steps[0], slack, i);
      StepKeeps(w, steps[0], slack);
      CancelIsFinal(Apply(w, steps[0]), steps[1..], slack, i);
    }
  }

  /** Status, payload and marks agree in every state. */
  lemma StatusPayloadMarksAgree(premium: set<nat>, steps: seq<Step>, slack: nat, i: nat)
    requires PromptBumps(Start(premium), steps, slack)
    ensures var w := Run(Start(premium), steps);
            i < |w.cells| ==>
              var c := w.cells[i];
              && (c.row.status == Armed <==> c.row.payload != [])
              && c.row.creator == c.asked.creator && c.row.trigger == c.asked.trigger && c.row.recipients == c.asked.recipients
              && (c.row.status == Armed ==> c.row.payload == c.asked.payload)
              && (c.row.status == Triggered ==> forall j :: 0 <= j < |c.row.recipients| ==>
                    c.row.Marked(j) && j in c.accepted + c.torn)
  {
    Reachable(premium, steps, slack);
    var w := Run(Start(premium), steps);
    if i < |w.cells| {
      assert CellInv(w.cells[i], w.clock, slack);
    }
  }

  // ---- crash safety of the marks ----

  /** A crash that hits a delivery between its metadata key and its inbox row. */
  predicate TearsDelivery(w: World, step: Step) {
    step.PassCrash? && exists i :: 0 <= i < |w.cells| && w.cells[i].HeldBy(step.p) && w.cells[i].lock.claimed.Some?
  }

  predicate NoTear(w: World, steps: seq<Step>)
    decreases |steps|
  {
    steps == [] || (!TearsDelivery(w, steps[0]) && NoTear(Apply(w, steps[0]), steps[1..]))
  }

  predicate NoneTorn(w: World) { forall i :: 0 <= i < |w.cells| ==> w.cells[i].torn == {} }

  lemma StepNoneTorn(w: World, step: Step)
    requires NoneTorn(w) && !TearsDelivery(w, step)
    ensures NoneTorn(Apply(w, step))
  {
    var v := Apply(w, step);
    forall i | 0 <= i < |v.cells| ensures v.cells[i].torn == {} {
      if i < |w.cells| && v.cells[i] != w.cells[i] {
        assert v.cells[i] == Evolve(w.cells[i], EventFor(w, step, i));
      }
    }
  }

  lemma {:induction false} RunNoneTorn(w: World, steps: seq<Step>)
    requires NoneTorn(w) && NoTear(w, steps)
    ensures NoneTorn(Run(w, steps))
    decreases |steps|
  {
    if steps != [] {
      StepNoneTorn(w, steps[0]);
      RunNoneTorn(Apply(w, steps[0]), steps[1..]);
    }
  }

  /** Unless a crash tears a delivery, a recipient is marked only once an inbox took the
      envelope, and a triggered switch reached every recipient. */
  lemma MarkedMeansAccepted(premium: set<nat>, steps: seq<Step>, slack: nat, i: nat, j: nat)
    requires PromptBumps(Start(premium), steps, slack) && NoTear(Start(premium), steps)
    ensures var w := Run(Start(premium), steps);
            i < |w.cells| ==>
              && (w.cells[i].row.Marked(j) ==> j in w.cells[i].accepted)
              && (w.cells[i].row.status == Triggered && j < |w.cells[i].row.recipients| ==> j in w.cells[i].accepted)
  {
    Reachable(premium, steps, slack);
    RunNoneTorn(Start(premium), steps);
    var w := Run(Start(premium), steps);
    if i < |w.cells| {
      assert CellInv(w.cells[i], w.clock, slack);
    }
  }

  /** A retry marks a recipient no inbox ever took the envelope for exactly when an earlier
      pass died in mid-delivery and the metadata key it left has not expired. */
  lemma RetryLosesIff(premium: set<nat>, steps: seq<Step>, slack: nat, i: nat)
    requires PromptBumps(Start(premium), steps, slack)
    requires var w := Run(Start(premium), steps);
             i < |w.cells| && w.cells[i].Delivering() && w.cells[i].lock.claimed.None?
             && !w.cells[i].lock.work.Marked(w.cells[i].lock.next)
    ensures var w := Run(Start(premium), steps);
            var c, d := w.cells[i], Apply(w, PassPrepare(i)).cells[i];
            var j := c.lock.next;
            (d.lock.work.Marked(j) && j !in d.accepted) <==>
            (j in c.torn && j !in c.accepted && c.MetaLive(j, w.clock))
  {
    Reachable(premium, steps, slack);
    var w := Run(Start(premium), steps);
    var c := w.cells[i];
    assert CellInv(c, w.clock, slack);
    assert Apply(w, PassPrepare(i)).cells[i] == Prepared(c, w.clock);
  }

  /** A rerun never puts a copy beside one that an inbox still holds. */
  lemma NoSecondCopy(premium: set<nat>, steps: seq<Step>, slack: nat, i: nat, full: bool, j: nat)
    requires PromptBumps(Start(premium), steps, slack)
    ensures var w := Run(Start(premium), steps);
            i < |w.cells| && w.cells[i].InBox(j, w.clock) ==>
              var d := Apply(w, PassDeliver(i, full)).cells[i];
              j in d.boxUntil && d.boxUntil[j] == w.cells[i].boxUntil[j]
              && (forall h :: h in d.handed && h.j == j ==> h in w.cells[i].handed)
  {
    Reachable(premium, steps, slack);
    var w := Run(Start(premium), steps);
    if i < |w.cells| && w.cells[i].InBox(j, w.clock) {
      assert CellInv(w.cells[i], w.clock, slack);
      assert !InFlight(w.cells[i], j);
      assert Apply(w, PassDeliver(i, full)).cells[i] == Delivered(w.cells[i], full);
    }
  }

  // ---- a pass leaves nothing due behind ----

  ghost predicate PassCovers(w: World, p: nat) {
    && (forall i :: 0 <= i < |w.cells| && w.cells[i].HeldBy(p) ==>
          p in w.passes && w.passes[p].locked && w.cells[i].lock.now == w.passes[p].now)
    && (p in w.passes && w.passes[p].locked ==>
          forall i :: 0 <= i < |w.cells| && i !in w.passes[p].skipped && w.cells[i].row.Due(w.passes[p].now) ==>
            w.cells[i].HeldBy(p))
  }

  lemma EventCovers(c: Cell, ev: Event, clock: int, slack: nat, p: nat, now: int)
    requires CellInv(c, clock, slack) && Timely(c, ev, clock, slack)
    requires slack < DMS_TRIGGER_MIN_SECONDS && now <= clock
    requires c.row.Due(now) ==> c.HeldBy(p)
    requires ev.Commit? || ev.Abandon? ==> !c.HeldBy(p)
    ensures Evolve(c, ev).row.Due(now) ==> Evolve(c, ev).HeldBy(p)
  {
  }

  lemma StepCovers(w: World, step: Step, slack: nat, p: nat)
    requires WorldInv(w, slack) && PromptStep(w, step, slack) && slack < DMS_TRIGGER_MIN_SECONDS
    requires PassCovers(w, p)
    ensures PassCovers(Apply(w, step), p)
  {
    StepHolds(w, step, p);
    hide CellInv, Evolve;
    var v := Apply(w, step);
    if p in v.passes && v.passes[p].locked {
      var now := v.passes[p].now;
      forall i | 0 <= i < |v.cells| && i !in v.passes[p].skipped && v.cells[i].row.Due(now)
        ensures v.cells[i].HeldBy(p)
      {
        if i >= |w.cells| {
        } else if step.PassLock? && step.p == p && !w.passes[p].locked {
          assert v.cells[i] == Evolve(w.cells[i], EventFor(w, step, i));
          LockCovers(w, step, i);
        } else if v.cells[i] != w.cells[i] {
          assert v.cells[i] == Evolve(w.cells[i], EventFor(w, step, i));
          EventCovers(w.cells[i], EventFor(w, step, i), w.clock, slack, p, now);
        }
      }
    }
  }

  /** A row changes hands only to a claim, and a commit or an abandon lets it go. */
  lemma EventHolds(c: Cell, ev: Event, p: nat)
    ensures var d := Evolve(c, ev);
            && (d.HeldBy(p) ==> (c.HeldBy(p) && d.lock.now == c.lock.now) || (ev.Claim? && ev.pass == p && d.lock.now == ev.now))
            && (c.HeldBy(p) && (ev.Abandon? || (ev.Commit? && c.Idle())) ==> !d.HeldBy(p))
  {
  }

  lemma StepHolds(w: World, step: Step, p: nat)
    requires PassCovers(w, p)
    ensures var v := Apply(w, step);
            forall i :: 0 <= i < |v.cells| && v.cells[i].HeldBy(p) ==>
              p in v.passes && v.passes[p].locked && v.cells[i].lock.now == v.passes[p].now
  {
    hide CellInv, Evolve;
    var v := Apply(w, step);
    forall i | 0 <= i < |v.cells| && v.cells[i].HeldBy(p)
      ensures p in v.passes && v.passes[p].locked && v.cells[i].lock.now == v.passes[p].now
    {
      if i < |w.cells| {
        EventHolds(w.cells[i], EventFor(w, step, i), p);
        if step.PassLock? || step.PassCommit? || step.PassCrash? {
          assert v.cells[i] != w.cells[i] ==> v.cells[i] == Evolve(w.cells[i], EventFor(w, step, i));
          assert v != w ==> v.cells[i] == Evolve(w.cells[i], EventFor(w, step, i));
        } else if v.cells[i] != w.cells[i] {
          assert v.cells[i] == Evolve(w.cells[i], EventFor(w, step, i));
        }
      }
    }
  }

  lemma CommitDueIff(c: Cell, clock: int, slack: nat, p: nat, now: int)
    requires CellInv(c, clock, slack) && (c.row.Due(now) ==> c.HeldBy(p)) && (c.HeldBy(p) ==> c.Idle() && c.lock.now == now)
    ensures (if c.HeldBy(p) then Committed(c) else c).row.Due(now) <==> c.HeldBy(p) && !c.lock.clean
  {
  }

  lemma LockCovers(w: World, step: Step, i: nat)
    requires step.PassLock? && step.p in w.passes && !w.passes[step.p].locked && i < |w.cells|
    requires i !in Overlooked(w, step.p, step.skip)
    ensures var d := Evolve(w.cells[i], EventFor(w, step, i));
            d.row.Due(w.passes[step.p].now) ==> d.HeldBy(step.p)
  {
  }

  lemma {:induction false} RunCovers(w: World, steps: seq<Step>, slack: nat, p: nat)
    requires WorldInv(w, slack) && PromptBumps(w, steps, slack) && slack < DMS_TRIGGER_MIN_SECONDS
    requires PassCovers(w, p)
    ensures PassCovers(Run(w, steps), p)
    decreases |steps|
  {
    if steps != [] {
      StepCovers(w, steps[0], slack, p);
      StepKeeps(w, steps[0], slack);
      RunCovers(Apply(w, steps[0]), steps[1..], slack, p);
    }
  }

  /** When a pass commits, the rows still due at its `now` are those SKIP LOCKED passed over
      and those with a failed delivery; an error-free pass that skipped none leaves none. */
  lemma CommittedPassLeavesDueIff(premium: set<nat>, steps: seq<Step>, slack: nat, p: nat, i: nat)
    requires PromptBumps(Start(premium), steps, slack) && slack < DMS_TRIGGER_MIN_SECONDS
    requires var w := Run(Start(premium), steps); PassDone(w, p) && i < |w.cells| && i !in w.passes[p].skipped
    ensures var w := Run(Start(premium), steps);
            Apply(w, PassCommit(p)).cells[i].row.Due(w.passes[p].now) <==>
            w.cells[i].HeldBy(p) && !w.cells[i].lock.clean
  {
    Reachable(premium, steps, slack);
    RunCovers(Start(premium), steps, slack, p);
    var w := Run(Start(premium), steps);
    assert CellInv(w.cells[i], w.clock, slack);
    CommitDueIff(w.cells[i], w.clock, slack, p, w.passes[p].now);
    assert Apply(w, PassCommit(p)).cells[i] ==
           if w.cells[i].HeldBy(p) then Committed(w.cells[i]) else w.cells[i];
  }

  // ---- quota ----

  predicate WithinQuota(w: World, pk: nat) {
    && ActiveCount(w.cells, pk) <= MaxActive(w, pk) && ActiveBytes(w.cells, pk) <= MaxBytes(w, pk)
    && forall i :: 0 <= i < |w.cells| && w.cells[i].row.creator == pk ==> |w.cells[i].row.recipients| <= MaxRecipients(w, pk)
  }

  /** The armed switches of one creator. */
  function ActiveSet(cells: seq<Cell>, pk: nat): set<nat> {
    set i: nat | i < |cells| && cells[i].row.creator == pk && cells[i].row.status == Armed
  }

  lemma {:induction false} CountIsSize(cells: seq<Cell>, pk: nat)
    ensures ActiveCount(cells, pk) == |ActiveSet(cells, pk)|
  {
    if cells != [] {
      var n := |cells| - 1;
      CountIsSize(cells[..n], pk);
      assert n !in ActiveSet(cells[..n], pk);
      assert ActiveSet(cells, pk) ==
             if cells[n].row.creator == pk && cells[n].row.status == Armed then ActiveSet(cells[..n], pk) + {n}
             else ActiveSet(cells[..n], pk);
    }
  }

  /** The bytes counted are the payloads of the armed switches: replacing one switch changes
      the sum by the difference of what the two hold while armed. */
  lemma {:induction false} BytesAddUp(cells: seq<Cell>, i: nat, c: Cell, pk: nat)
    requires i < |cells| && c.row.creator == cells[i].row.creator == pk
    ensures ActiveBytes([], pk) == 0
    ensures ActiveBytes(cells[i := c], pk) - (if c.row.status == Armed then |c.row.payload| else 0) ==
            ActiveBytes(cells, pk) - if cells[i].row.status == Armed then |cells[i].row.payload| else 0
    ensures ActiveBytes(cells + [c], pk) == ActiveBytes(cells, pk) + if c.row.status == Armed then |c.row.payload| else 0
  {
    var n := |cells| - 1;
    assert (cells + [c])[..n + 1] == cells;
    if i < n {
      BytesAddUp(cells[..n], i, c, pk);
      assert cells[i := c][..n] == cells[..n][i := c];
    } else {
      assert cells[i := c][..n] == cells[..n];
    }
  }

  lemma {:induction false} LighterCells(a: seq<Cell>, b: seq<Cell>, pk: nat)
    requires |a| == |b|
    requires forall i :: 0 <= i < |a| ==>
      && b[i].row.creator == a[i].row.creator && Weight(b[i]) <= Weight(a[i])
      && (b[i].row.status == Armed ==> a[i].row.status == Armed)
    ensures ActiveCount(b, pk) <= ActiveCount(a, pk) && ActiveBytes(b, pk) <= ActiveBytes(a, pk)
  {
    if a != [] {
      LighterCells(a[..|a| - 1], b[..|a| - 1], pk);
    }
  }

  lemma StepQuota(w: World, step: Step, slack: nat, pk: nat)
    requires WorldInv(w, slack) && WithinQuota(w, pk)
    ensures WithinQuota(Apply(w, step), pk)
  {
    hide CellInv, Evolve, Weight;
    var v := Apply(w, step);
    if |v.cells| == |w.cells| {
      forall i | 0 <= i < |w.cells|
        ensures v.cells[i].row.creator == w.cells[i].row.creator && Weight(v.cells[i]) <= Weight(w.cells[i])
        ensures v.cells[i].row.recipients == w.cells[i].row.recipients
        ensures v.cells[i].row.status == Armed ==> w.cells[i].row.status == Armed
      {
        EventKeepsQuota(w.cells[i], EventFor(w, step, i), w.clock, slack);
        assert v.cells[i] != w.cells[i] ==> v.cells[i] == Evolve(w.cells[i], EventFor(w, step, i));
      }
      LighterCells(w.cells, v.cells, pk);
    } else {
      AddedCell(w, step, pk);
    }
  }

  lemma AddedCell(w: World, step: Step, pk: nat)
    requires WithinQuota(w, pk) && step.Create? && |Apply(w, step).cells| != |w.cells|
    ensures WithinQuota(Apply(w, step), pk)
  {
    var cells := Apply(w, step).cells;
    assert cells[..|cells| - 1] == w.cells;
  }

  lemma {:induction false} RunQuota(w: World, steps: seq<Step>, slack: nat, pk: nat)
    requires WorldInv(w, slack) && PromptBumps(w, steps, slack) && WithinQuota(w, pk)
    ensures WithinQuota(Run(w, steps), pk) && Run(w, steps).premium == w.premium
    decreases |steps|
  {
    if steps != [] {
      StepQuota(w, steps[0], slack, pk);
      StepKeeps(w, steps[0], slack);
      RunQuota(Apply(w, steps[0]), steps[1..], slack, pk);
    }
  }

  /** One creator's armed switches never exceed the tier's count or bytes, and none of them
      has more recipients than the tier allows. */
  lemma QuotaHolds(premium: set<nat>, steps: seq<Step>, slack: nat, pk: nat)
    requires PromptBumps(Start(premium), steps, slack)
    ensures var cells := Run(Start(premium), steps).cells;
            && |ActiveSet(cells, pk)| <= (if pk in premium then 20 else 5)
            && ActiveBytes(cells, pk) <= (if pk in premium then 20971520 else 2097152)
            && (forall i :: 0 <= i < |cells| && cells[i].row.creator == pk ==>
                  |cells[i].row.recipients| <= if pk in premium then 20 else 5)
  {
    RunQuota(Start(premium), steps, slack, pk);
    CountIsSize(Run(Start(premium), steps).cells, pk);
  }
}
