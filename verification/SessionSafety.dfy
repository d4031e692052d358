/** The reverse index dominates the live sessions, over every orderly run. */
module SessionSafety {
  import opened Common
  import opened SessionKeys

  const MARGIN := REVERSE_TTL_SECONDS - SESSION_TTL_SECONDS

  ghost predicate Unstored(s: State, t: Token) { exists o :: Has(s, o, t) && s.ops[o].Stored? }

  ghost predicate Unsettled(s: State, t: Token) { exists o :: Has(s, o, t) && s.ops[o].Unsettled() }

  predicate Outlives(k: Keys, at: int) {
    k.rev.Some? && (k.rev.value.exp.Some? ==> at + MARGIN <= k.rev.value.exp.value)
  }

  ghost predicate Refreshing(s: State, t: Token) {
    exists o :: Has(s, o, t) && s.ops[o].Refreshed? && Outlives(s.k, s.ops[o].at)
  }

  /** The index lives long enough past the session, or past a refresh that is still going on. */
  ghost predicate Covered(s: State, t: Token)
    requires t in s.k.fwd
  {
    Outlives(s.k, s.k.fwd[t].exp) || Refreshing(s, t)
  }

  ghost predicate TokenInv(s: State, t: Token) {
    && (t in s.k.fwd ==> t in s.used && t !in s.k.raw && s.k.clock < s.k.fwd[t].exp <= s.k.clock + SESSION_TTL_SECONDS)
    && (t in s.k.raw || Indexed(s.k, Hashed(t)) ==> t in s.used)
    && (t in s.k.fwd && !Unstored(s, t) ==> Indexed(s.k, Hashed(t)))
    && (t in s.k.fwd && !Unstored(s, t) && !Unsettled(s, t) ==> Covered(s, t))
  }

  predicate OpInv(s: State, op: Op) {
    && op.t in s.used
    && (op.Refreshed? ==> op.at <= s.k.clock <= op.at + DAY)
    && (op.Ending? ==> op.drops <= {Hashed(op.t), Raw(op.t)} && (op.kills == Hashed(op.t) || op.kills == Raw(op.t)))
    && (op.Dropping? ==> op.drops <= {Hashed(op.t), Raw(op.t)})
  }

  /** Every indexed session was seen by the sweep or joined after; what it deleted stays away. */
  ghost predicate SweepInv(s: State, w: Sweep) {
    forall t :: Indexed(s.k, Hashed(t)) ==>
      t in w.added || (Hashed(t) in w.members && (w.cleared ==> t !in s.k.fwd))
  }

  ghost predicate OpsInv(s: State) {
    && (forall o :: o in s.ops ==> OpInv(s, s.ops[o]))
    && (forall o, p :: o in s.ops && p in s.ops && s.ops[o].Stored? && s.ops[p].Stored? && s.ops[o].t == s.ops[p].t ==> o == p)
  }

  ghost predicate Inv(s: State) {
    && (forall t :: TokenInv(s, t))
    && OpsInv(s)
    && (forall o :: o in s.sweeps ==> SweepInv(s, s.sweeps[o]))
  }

  /** What a run must be spared; SessionGuarantees shows each of the last three to be exact.
      No request dawdles a day between its two EXPIREs. When an index lapses, no session still
      being added to it is alive. When a request that ended a session unlists it, the session
      is not alive again. When a sweep drops the index, no session that joined since it looked
      is alive. A session whose token nobody has been given yet does not count. */
  ghost predicate Orderly(s: State, step: Step) {
    match step
    case Wait(d) =>
      && (forall o :: o in s.ops && s.ops[o].Refreshed? ==> s.k.clock + d <= s.ops[o].at + DAY)
      && (RevLapsed(s.k, s.k.clock + d) ==>
            forall t :: Unsettled(s, t) && t in Tick(s.k, d).fwd ==> Unstored(s, t))
    case EndUnindex(o) =>
      o in s.ops && s.ops[o].Dropping? && Hashed(s.ops[o].t) in s.ops[o].drops && s.ops[o].t in s.k.fwd ==>
        Unstored(s, s.ops[o].t)
    case SweepUnindex(o) =>
      o in s.sweeps && s.sweeps[o].cleared ==>
        forall t :: t in s.sweeps[o].added && t in s.k.fwd ==> Unstored(s, t)
    case _ => true
  }

  ghost predicate OrderlyRun(s: State, steps: seq<Step>)
    decreases |steps|
  {
    steps == [] || (Orderly(s, steps[0]) && OrderlyRun(Apply(s, steps[0]), steps[1..]))
  }

  // ---- what each step does to the requests in flight ----

  predicate Actor(step: Step, o: nat) {
    !step.Wait? && !step.SweepRead? && !step.SweepDelete? && !step.SweepUnindex? && step.o == o
  }

  lemma ClockAndUsed(s: State, step: Step)
    ensures s.used <= Apply(s, step).used
    ensures Apply(s, step).k.clock == if step.Wait? then s.k.clock + step.seconds else s.k.clock
  {
  }

  lemma OtherOp(s: State, step: Step, o: nat)
    requires !Actor(step, o) && o in Apply(s, step).ops
    ensures o in s.ops
    ensures Apply(s, step).ops[o] == s.ops[o]
  {
  }

  lemma StepOtherOp(s: State, step: Step, o: nat)
    requires Inv(s) && Orderly(s, step) && !Actor(step, o) && o in Apply(s, step).ops
    ensures OpInv(Apply(s, step), Apply(s, step).ops[o])
  {
    OtherOp(s, step, o);
    assert OpInv(s, s.ops[o]);
    ClockAndUsed(s, step);
    hide Apply, Inv;
  }

  lemma StepOp(s: State, step: Step, o: nat)
    requires Inv(s) && o in Apply(s, step).ops && Actor(step, o)
    ensures OpInv(Apply(s, step), Apply(s, step).ops[o])
  {
    if step.Create? || step.VerifyRead? || step.RevokeRead? {
      assert TokenInv(s, step.t);
    }
  }

  lemma StepStored(s: State, step: Step, o: nat, p: nat)
    requires OpsInv(s)
    ensures var v := Apply(s, step);
            o in v.ops && p in v.ops && v.ops[o].Stored? && v.ops[p].Stored? && v.ops[o].t == v.ops[p].t ==> o == p
  {
  }

  lemma StepOps(s: State, step: Step)
    requires Inv(s) && Orderly(s, step)
    ensures OpsInv(Apply(s, step))
  {
    hide *;
    var v := Apply(s, step);
    InvOps(s);
    forall o | o in v.ops ensures OpInv(v, v.ops[o]) {
      if Actor(step, o) { StepOp(s, step, o); } else { StepOtherOp(s, step, o); }
    }
    forall o, p | o in v.ops && p in v.ops && v.ops[o].Stored? && v.ops[p].Stored? && v.ops[o].t == v.ops[p].t ensures o == p {
      StepStored(s, step, o, p);
    }
    OpsFrom(v);
  }

  lemma OpsFrom(v: State)
    requires forall o :: o in v.ops ==> OpInv(v, v.ops[o])
    requires forall o, p :: o in v.ops && p in v.ops && v.ops[o].Stored? && v.ops[p].Stored? && v.ops[o].t == v.ops[p].t ==> o == p
    ensures OpsInv(v)
  {
  }

  lemma InvOps(s: State)
    requires Inv(s)
    ensures OpsInv(s)
  {
  }

  lemma StepSweeps(s: State, step: Step, o: nat)
    requires Inv(s) && o in Apply(s, step).sweeps
    ensures SweepInv(Apply(s, step), Apply(s, step).sweeps[o])
  {
    if step.Create? {
      assert TokenInv(s, step.t);
    }
  }

  // ---- what each step does to one session ----

  lemma WaitToken(s: State, d: nat, x: Token)
    requires Inv(s) && Orderly(s, Wait(d))
    ensures TokenInv(Apply(s, Wait(d)), x)
  {
    var v := Apply(s, Wait(d));
    assert TokenInv(s, x);
    assert Unstored(v, x) == Unstored(s, x) && Unsettled(v, x) == Unsettled(s, x) by {
      assert forall o :: Has(v, o, x) == Has(s, o, x);
    }
    if Refreshing(s, x) && v.k.rev.Some? {
      var o :| Has(s, o, x) && s.ops[o].Refreshed? && Outlives(s.k, s.ops[o].at);
      assert Has(v, o, x) && Outlives(v.k, v.ops[o].at);
    }
  }

  lemma RenewToken(s: State, o: nat, x: Token)
    requires Inv(s) && o in s.ops && (s.ops[o].Added? || s.ops[o].Refreshed?)
    ensures TokenInv(s.(k := ExpireRev(s.k), ops := s.ops - {o}), x)
  {
    var v := s.(k := ExpireRev(s.k), ops := s.ops - {o});
    assert TokenInv(s, x);
    assert Unstored(v, x) == Unstored(s, x) by {
      assert forall p :: p != o ==> Has(v, p, x) == Has(s, p, x);
    }
    if x in v.k.fwd && !Unstored(v, x) {
      assert Outlives(v.k, v.k.fwd[x].exp);
    }
  }

  lemma RefreshToken(s: State, o: nat, x: Token)
    requires Inv(s)
    ensures TokenInv(DoVerifyRefresh(s, o), x)
  {
    var v := DoVerifyRefresh(s, o);
    assert TokenInv(s, x);
    if v != s {
      assert forall p :: Has(v, p, x) == Has(s, p, x);
      assert Unstored(v, x) == Unstored(s, x);
      assert Unsettled(v, x) == Unsettled(s, x);
      assert s.ops[o].t == x ==> Has(v, o, x) && v.ops[o].Refreshed?;
    }
  }

  /** The requests about x are as before, whatever else changed. */
  lemma SameOps(s: State, v: State, x: Token)
    requires forall p :: Has(v, p, x) == Has(s, p, x)
    requires forall p :: Has(s, p, x) && p in v.ops ==>
      s.ops[p].Stored? == v.ops[p].Stored? && s.ops[p].Unsettled() == v.ops[p].Unsettled()
    requires forall p :: Has(s, p, x) && p in v.ops && s.ops[p].Refreshed? ==> v.ops[p] == s.ops[p]
    requires s.k.rev.Some? && v.k.rev.Some? ==> v.k.rev.value.exp == s.k.rev.value.exp || v.k.rev.value.exp.None?
    ensures Unstored(v, x) == Unstored(s, x) && Unsettled(v, x) == Unsettled(s, x)
    ensures Refreshing(s, x) && v.k.rev.Some? ==> Refreshing(v, x)
  {
    if Refreshing(s, x) && v.k.rev.Some? {
      var o :| Has(s, o, x) && s.ops[o].Refreshed? && Outlives(s.k, s.ops[o].at);
      assert Has(v, o, x) && Outlives(v.k, v.ops[o].at);
    }
  }

  lemma CreateToken(s: State, o: nat, t: Token, x: Token)
    requires Inv(s)
    ensures TokenInv(DoCreate(s, o, t), x)
  {
    var v := DoCreate(s, o, t);
    assert TokenInv(s, x) && TokenInv(s, t);
    if v != s {
      if x == t {
        assert Has(v, o, x) && v.ops[o].Stored?;
      } else {
        assert forall p :: Has(v, p, x) == Has(s, p, x);
        SameOps(s, v, x);
      }
    }
  }

  lemma CreateIndexToken(s: State, o: nat, x: Token)
    requires Inv(s)
    ensures TokenInv(DoCreateIndex(s, o), x)
  {
    var v := DoCreateIndex(s, o);
    assert TokenInv(s, x);
    if v != s {
      var t := s.ops[o].t;
      if x == t {
        assert Has(v, o, x) && v.ops[o].Unsettled();
      } else {
        assert forall p :: Has(v, p, x) == Has(s, p, x);
        SameOps(s, v, x);
      }
    }
  }

  /** A request that only looks adds itself to those in flight. */
  lemma ReadToken(s: State, o: nat, op: Op, x: Token)
    requires TokenInv(s, x) && o !in s.ops && (op.LegacyRead? || op.Ending? || op == Found(op.t, false))
    ensures TokenInv(s.(ops := s.ops[o := op]), x)
  {
    var v := s.(ops := s.ops[o := op]);
    assert forall p :: p != o ==> Has(v, p, x) == Has(s, p, x);
    assert Unstored(v, x) == Unstored(s, x) && Unsettled(v, x) == Unsettled(s, x);
    assert Refreshing(s, x) ==> Refreshing(v, x);
  }

  lemma ReadStep(s: State, o: nat, t: Token, x: Token)
    requires TokenInv(s, x)
    ensures TokenInv(DoVerifyRead(s, o, t), x) && TokenInv(DoRevokeRead(s, o, t), x)
  {
    hide TokenInv;
    var v, u := DoVerifyRead(s, o, t), DoRevokeRead(s, o, t);
    if v != s {
      ReadToken(s, o, v.ops[o], x);
    }
    if u != s {
      ReadToken(s, o, u.ops[o], x);
    }
  }

  lemma MigrateToken(s: State, o: nat, x: Token)
    requires Inv(s)
    ensures TokenInv(DoVerifyMigrate(s, o), x)
  {
    var v := DoVerifyMigrate(s, o);
    assert TokenInv(s, x);
    if v != s {
      var t := s.ops[o].t;
      assert OpInv(s, s.ops[o]);
      if x == t {
        assert Has(v, o, x) && v.ops[o].Unsettled();
      } else {
        assert forall p :: Has(v, p, x) == Has(s, p, x);
        SameOps(s, v, x);
      }
    }
  }

  lemma EndDeleteToken(s: State, o: nat, x: Token)
    requires Inv(s)
    ensures TokenInv(DoEndDelete(s, o), x)
  {
    var v := DoEndDelete(s, o);
    assert TokenInv(s, x);
    if v != s {
      assert forall p :: Has(v, p, x) == Has(s, p, x);
      SameOps(s, v, x);
    }
  }

  lemma EndUnindexToken(s: State, o: nat, x: Token)
    requires Inv(s) && Orderly(s, EndUnindex(o))
    ensures TokenInv(DoEndUnindex(s, o), x)
  {
    var v := DoEndUnindex(s, o);
    assert TokenInv(s, x);
    if v != s {
      assert OpInv(s, s.ops[o]);
      assert x != s.ops[o].t ==> Hashed(x) !in s.ops[o].drops;
      assert Unstored(v, x) == Unstored(s, x) && Unsettled(v, x) == Unsettled(s, x) by {
        assert forall p :: p != o ==> Has(v, p, x) == Has(s, p, x);
      }
      if Refreshing(s, x) && v.k.rev.Some? {
        var p :| Has(s, p, x) && s.ops[p].Refreshed? && Outlives(s.k, s.ops[p].at);
        assert Has(v, p, x) && Outlives(v.k, v.ops[p].at);
      }
    }
  }

  lemma SweepToken(s: State, step: Step, x: Token)
    requires Inv(s) && Orderly(s, step) && (step.SweepRead? || step.SweepDelete? || step.SweepUnindex?)
    ensures TokenInv(Apply(s, step), x)
  {
    var v := Apply(s, step);
    assert TokenInv(s, x);
    assert forall p :: Has(v, p, x) == Has(s, p, x);
    SameOps(s, v, x);
    if step.SweepUnindex? && step.o in s.sweeps && s.sweeps[step.o].cleared {
      assert SweepInv(s, s.sweeps[step.o]);
    }
  }

  lemma StepToken(s: State, step: Step, x: Token)
    requires Inv(s) && Orderly(s, step)
    ensures TokenInv(Apply(s, step), x)
  {
    assert TokenInv(s, x);
    hide TokenInv, Inv;
    match step {
      case Wait(d) => WaitToken(s, d, x);
      case Create(o, t) => CreateToken(s, o, t, x);
      case CreateIndex(o) => CreateIndexToken(s, o, x);
      case CreateExpire(o) => if o in s.ops && s.ops[o].Added? { RenewToken(s, o, x); }
      case VerifyRead(o, t) => ReadStep(s, o, t, x);
      case VerifyMigrate(o) => MigrateToken(s, o, x);
      case VerifyRefresh(o) => RefreshToken(s, o, x);
      case VerifyRefreshIndex(o) => if o in s.ops && s.ops[o].Refreshed? { RenewToken(s, o, x); }
      case RevokeRead(o, t) => ReadStep(s, o, t, x);
      case EndDelete(o) => EndDeleteToken(s, o, x);
      case EndUnindex(o) => EndUnindexToken(s, o, x);
      case _ => SweepToken(s, step, x);
    }
  }

  lemma StepInv(s: State, step: Step)
    requires Inv(s) && Orderly(s, step)
    ensures Inv(Apply(s, step))
  {
    hide *;
    var v := Apply(s, step);
    forall x ensures TokenInv(v, x) { StepToken(s, step, x); }
    StepOps(s, step);
    forall o | o in v.sweeps ensures SweepInv(v, v.sweeps[o]) { StepSweeps(s, step, o); }
    InvFrom(v);
  }

  lemma InvFrom(v: State)
    requires forall x :: TokenInv(v, x)
    requires OpsInv(v) && forall o :: o in v.sweeps ==> SweepInv(v, v.sweeps[o])
    ensures Inv(v)
  {
  }

  lemma {:induction false} RunInv(s: State, steps: seq<Step>)
    requires Inv(s) && OrderlyRun(s, steps)
    ensures Inv(Run(s, steps))
    decreases |steps|
  {
    if steps != [] {
      StepInv(s, steps[0]);
      RunInv(Apply(s, steps[0]), steps[1..]);
    }
  }
}
