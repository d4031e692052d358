/** Sessions that would still verify, however long requests dawdle: a step loses one from the
    index exactly in three interleavings. */
module SessionReach {
  import opened Common
  import opened SessionKeys
  import opened SessionSafety
  import opened SessionGuarantees

  /** There and under the absolute ceiling. */
  predicate Verifiable(k: Keys, t: Token) { t in k.fwd && !OverAge(k.fwd[t].stamp, k.clock) }

  predicate Lasts(k: Keys, created: int) {
    k.rev.Some? && (k.rev.value.exp.Some? ==> created + REVERSE_TTL_SECONDS <= k.rev.value.exp.value)
  }

  /** The index outlives the ceiling of every session whose login or migration is complete. */
  ghost predicate AgeInv(s: State, t: Token) {
    && (t in s.k.fwd ==> t in s.used && s.k.fwd[t].stamp.At? && s.k.fwd[t].stamp.created <= s.k.clock)
    && (t in s.k.raw || Indexed(s.k, Hashed(t)) ==> t in s.used)
    && (Verifiable(s.k, t) && !Unstored(s, t) ==> Indexed(s.k, Hashed(t)))
    && (Verifiable(s.k, t) && !Unstored(s, t) && !Unsettled(s, t) ==> Lasts(s.k, s.k.fwd[t].stamp.created))
  }

  predicate RequestInv(s: State, op: Op) {
    && op.t in s.used && (op.LegacyRead? ==> op.now <= s.k.clock)
    && (op.Ending? || op.Dropping? ==> op.drops <= {Hashed(op.t), Raw(op.t)})
  }

  ghost predicate ReachInv(s: State) {
    && (forall t :: AgeInv(s, t))
    && (forall o :: o in s.ops ==> RequestInv(s, s.ops[o]))
    && (forall o :: o in s.sweeps ==> SweepInv(s, s.sweeps[o]))
  }

  /** The three interleavings, by what could be looked up before the step: an index that lapses
      under a session still being added, an SREM for a session that is alive again, and a sweep
      dropping the index with a session in it that joined since the sweep looked. */
  ghost predicate Calm(s: State, step: Step) {
    match step
    case Wait(d) =>
      RevLapsed(s.k, s.k.clock + d) ==> forall t :: Unsettled(s, t) && Verifiable(Tick(s.k, d), t) ==> Unstored(s, t)
    case EndUnindex(o) =>
      o in s.ops && s.ops[o].Dropping? && Hashed(s.ops[o].t) in s.ops[o].drops && Verifiable(s.k, s.ops[o].t) ==>
        Unstored(s, s.ops[o].t)
    case SweepUnindex(o) =>
      o in s.sweeps && s.sweeps[o].cleared ==>
        forall t :: t in s.sweeps[o].added && Verifiable(s.k, t) ==> Unstored(s, t)
    case _ => true
  }

  ghost predicate CalmRun(s: State, steps: seq<Step>)
    decreases |steps|
  {
    steps == [] || (Calm(s, steps[0]) && CalmRun(Apply(s, steps[0]), steps[1..]))
  }

  // ---- requests and sweeps ----

  lemma StepRequest(s: State, step: Step, o: nat)
    requires ReachInv(s) && o in Apply(s, step).ops
    ensures RequestInv(Apply(s, step), Apply(s, step).ops[o])
  {
    ClockAndUsed(s, step);
    if Actor(step, o) {
      if step.VerifyRead? || step.RevokeRead? { assert AgeInv(s, step.t); }
    } else {
      OtherOp(s, step, o);
      assert RequestInv(s, s.ops[o]);
      hide Apply;
    }
  }

  lemma StepSweep(s: State, step: Step, o: nat)
    requires ReachInv(s) && o in Apply(s, step).sweeps
    ensures SweepInv(Apply(s, step), Apply(s, step).sweeps[o])
  {
    if step.Create? { assert AgeInv(s, step.t); }
  }

  // ---- one session ----

  /** The requests about x that matter are as before. */
  predicate SameStage(s: State, v: State, x: Token) {
    && (forall p :: p in s.ops && s.ops[p].t == x && (s.ops[p].Stored? || s.ops[p].Unsettled()) ==>
          p in v.ops && v.ops[p].t == x && v.ops[p].Stored? == s.ops[p].Stored? && v.ops[p].Unsettled() == s.ops[p].Unsettled())
    && (forall p :: p in v.ops && v.ops[p].t == x && (v.ops[p].Stored? || v.ops[p].Unsettled()) ==>
          p in s.ops && s.ops[p].t == x && v.ops[p].Stored? == s.ops[p].Stored? && v.ops[p].Unsettled() == s.ops[p].Unsettled())
  }

  lemma StageKept(s: State, v: State, x: Token)
    requires SameStage(s, v, x)
    ensures Unstored(v, x) == Unstored(s, x) && Unsettled(v, x) == Unsettled(s, x)
  {
    if Unstored(s, x) {
      var p :| Has(s, p, x) && s.ops[p].Stored?;
      assert Has(v, p, x);
    }
    if Unstored(v, x) {
      var p :| Has(v, p, x) && v.ops[p].Stored?;
      assert Has(s, p, x);
    }
    if Unsettled(s, x) {
      var p :| Has(s, p, x) && s.ops[p].Unsettled();
      assert Has(v, p, x);
    }
    if Unsettled(v, x) {
      var p :| Has(v, p, x) && v.ops[p].Unsettled();
      assert Has(s, p, x);
    }
  }

  /** Steps of other sessions, and those that only refresh keys, look or delete keys. */
  lemma AgeFrame(s: State, v: State, x: Token)
    requires AgeInv(s, x) && s.used <= v.used && s.k.clock == v.k.clock
    requires Unstored(v, x) == Unstored(s, x) && Unsettled(v, x) == Unsettled(s, x)
    requires x in v.k.fwd ==> x in s.k.fwd && v.k.fwd[x].stamp == s.k.fwd[x].stamp
    requires x in v.k.raw ==> x in s.k.raw
    requires Indexed(v.k, Hashed(x)) ==> Indexed(s.k, Hashed(x))
    requires Verifiable(v.k, x) && !Unstored(v, x) && Indexed(s.k, Hashed(x)) ==> Indexed(v.k, Hashed(x))
    requires s.k.rev.Some? && v.k.rev.Some? ==> v.k.rev.value.exp == s.k.rev.value.exp || v.k.rev.value.exp.None?
    ensures AgeInv(v, x)
  {
  }

  lemma WaitAge(s: State, d: nat, x: Token)
    requires AgeInv(s, x) && Calm(s, Wait(d))
    ensures AgeInv(Apply(s, Wait(d)), x)
  {
    var v := Apply(s, Wait(d));
    StageKept(s, v, x);
    hide SameStage;
  }

  lemma RenewAge(s: State, o: nat, x: Token)
    requires AgeInv(s, x) && o in s.ops && (s.ops[o].Added? || s.ops[o].Refreshed?)
    ensures AgeInv(s.(k := ExpireRev(s.k), ops := s.ops - {o}), x)
  {
    var v := s.(k := ExpireRev(s.k), ops := s.ops - {o});
    assert Unstored(v, x) == Unstored(s, x) by {
      assert forall p :: p != o ==> Has(v, p, x) == Has(s, p, x);
    }
  }

  lemma CreateAge(s: State, o: nat, t: Token, x: Token)
    requires AgeInv(s, x) && AgeInv(s, t)
    ensures AgeInv(DoCreate(s, o, t), x)
  {
    var v := DoCreate(s, o, t);
    if v != s {
      if x == t {
        assert Has(v, o, x) && v.ops[o].Stored?;
      } else {
        StageKept(s, v, x);
      }
    }
  }

  lemma AddAge(s: State, o: nat, x: Token)
    requires AgeInv(s, x) && forall p :: p in s.ops ==> RequestInv(s, s.ops[p])
    ensures AgeInv(DoCreateIndex(s, o), x) && AgeInv(DoVerifyMigrate(s, o), x)
  {
    AddIndexAge(s, o, x);
    MigrateAge(s, o, x);
  }

  lemma AddIndexAge(s: State, o: nat, x: Token)
    requires AgeInv(s, x) && forall p :: p in s.ops ==> RequestInv(s, s.ops[p])
    ensures AgeInv(DoCreateIndex(s, o), x)
  {
    var v := DoCreateIndex(s, o);
    if v != s {
      if x == s.ops[o].t {
        assert Has(v, o, x) && v.ops[o].Unsettled();
      } else {
        StageKept(s, v, x);
        AgeFrame(s, v, x);
      }
    }
  }

  lemma MigrateAge(s: State, o: nat, x: Token)
    requires AgeInv(s, x) && forall p :: p in s.ops ==> RequestInv(s, s.ops[p])
    ensures AgeInv(DoVerifyMigrate(s, o), x)
  {
    var v := DoVerifyMigrate(s, o);
    if v != s {
      if x == s.ops[o].t {
        assert Has(v, o, x) && v.ops[o].Unsettled();
      } else {
        StageKept(s, v, x);
        AgeFrame(s, v, x);
      }
    }
  }

  lemma LookAge(s: State, step: Step, x: Token)
    requires AgeInv(s, x) && (step.VerifyRead? || step.RevokeRead?)
    ensures AgeInv(Apply(s, step), x)
  {
    var v := Apply(s, step);
    StageKept(s, v, x);
    AgeFrame(s, v, x);
  }

  lemma RefreshAge(s: State, step: Step, x: Token)
    requires AgeInv(s, x) && (step.VerifyRefresh? || step.EndDelete?)
    ensures AgeInv(Apply(s, step), x)
  {
    var v := Apply(s, step);
    StageKept(s, v, x);
    AgeFrame(s, v, x);
  }

  lemma UnlistAge(s: State, o: nat, x: Token)
    requires AgeInv(s, x) && (o in s.ops ==> RequestInv(s, s.ops[o])) && Calm(s, EndUnindex(o))
    ensures AgeInv(DoEndUnindex(s, o), x)
  {
    var v := DoEndUnindex(s, o);
    if v != s {
      assert x != s.ops[o].t ==> Hashed(x) !in s.ops[o].drops;
      StageKept(s, v, x);
      AgeFrame(s, v, x);
    }
  }

  lemma SweepAge(s: State, step: Step, x: Token)
    requires ReachInv(s) && Calm(s, step) && (step.SweepRead? || step.SweepDelete? || step.SweepUnindex?)
    ensures AgeInv(Apply(s, step), x)
  {
    var v := Apply(s, step);
    assert AgeInv(s, x);
    StageKept(s, v, x);
    if step.SweepUnindex? && step.o in s.sweeps && s.sweeps[step.o].cleared {
      assert SweepInv(s, s.sweeps[step.o]);
    }
    AgeFrame(s, v, x);
  }

  lemma StepAge(s: State, step: Step, x: Token)
    requires ReachInv(s) && Calm(s, step)
    ensures AgeInv(Apply(s, step), x)
  {
    assert AgeInv(s, x);
    if step.Create? { assert AgeInv(s, step.t); }
    hide AgeInv, Calm;
    match step {
      case Wait(d) => WaitAge(s, d, x);
      case Create(o, t) => CreateAge(s, o, t, x);
      case CreateIndex(o) => AddAge(s, o, x);
      case CreateExpire(o) => if o in s.ops && s.ops[o].Added? { RenewAge(s, o, x); }
      case VerifyRead(_, _) => LookAge(s, step, x);
      case VerifyMigrate(o) => AddAge(s, o, x);
      case VerifyRefresh(_) => RefreshAge(s, step, x);
      case VerifyRefreshIndex(o) => if o in s.ops && s.ops[o].Refreshed? { RenewAge(s, o, x); }
      case RevokeRead(_, _) => LookAge(s, step, x);
      case EndDelete(_) => RefreshAge(s, step, x);
      case EndUnindex(o) => UnlistAge(s, o, x);
      case _ => SweepAge(s, step, x);
    }
  }

  lemma StepReach(s: State, step: Step)
    requires ReachInv(s) && Calm(s, step)
    ensures ReachInv(Apply(s, step))
  {
    hide *;
    var v := Apply(s, step);
    forall x ensures AgeInv(v, x) { StepAge(s, step, x); }
    forall o | o in v.ops ensures RequestInv(v, v.ops[o]) { StepRequest(s, step, o); }
    forall o | o in v.sweeps ensures SweepInv(v, v.sweeps[o]) { StepSweep(s, step, o); }
    ReachFrom(v);
  }

  lemma ReachFrom(v: State)
    requires forall x :: AgeInv(v, x)
    requires forall o :: o in v.ops ==> RequestInv(v, v.ops[o])
    requires forall o :: o in v.sweeps ==> SweepInv(v, v.sweeps[o])
    ensures ReachInv(v)
  {
  }

  lemma {:induction false} RunReach(s: State, steps: seq<Step>)
    requires ReachInv(s) && CalmRun(s, steps)
    ensures ReachInv(Run(s, steps))
    decreases |steps|
  {
    if steps != [] {
      StepReach(s, steps[0]);
      RunReach(Apply(s, steps[0]), steps[1..]);
    }
  }

  // ---- the guarantee, and that its condition is exact ----

  lemma StartReach(raw: map<Token, Fwd>, rev: Option<Rev>)
    ensures ReachInv(Start(raw, rev))
  {
    var s := Start(raw, rev);
    forall t ensures AgeInv(s, t) {
      assert Indexed(s.k, Hashed(t)) ==> Hashed(t).token in s.used;
    }
  }

  /** Main theorem: over every calm run, whatever requests stall or die in between, a session
      its user holds and that would verify is in the index, and the index outlives the session's
      ceiling; has_any_live_session never denies it. */
  lemma VerifiableIsListed(raw: map<Token, Fwd>, rev: Option<Rev>, steps: seq<Step>, t: Token)
    requires CalmRun(Start(raw, rev), steps)
    ensures var s := Run(Start(raw, rev), steps);
            HandedOut(s, t) && IsAlive(s.k, t) ==>
              && Indexed(s.k, Hashed(t)) && HasAnyLiveSession(s.k) && s.k.fwd[t].stamp.At?
              && (s.k.rev.value.exp.Some? ==>
                    s.k.fwd[t].stamp.created + SESSION_ABSOLUTE_MAX_SECONDS < s.k.rev.value.exp.value)
  {
    StartReach(raw, rev);
    RunReach(Start(raw, rev), steps);
    assert AgeInv(Run(Start(raw, rev), steps), t);
  }

  ghost predicate AllListed(s: State) {
    forall t :: Verifiable(s.k, t) && !Unstored(s, t) ==> Indexed(s.k, Hashed(t))
  }

  lemma ReachLists(s: State)
    requires ReachInv(s)
    ensures AllListed(s)
  {
    forall t | Verifiable(s.k, t) && !Unstored(s, t) ensures Indexed(s.k, Hashed(t)) {
      assert AgeInv(s, t);
    }
  }

  /** Of all steps of all requests, one loses a verifiable session from the index exactly if it
      is one of the three. */
  lemma CalmIff(s: State, step: Step)
    requires ReachInv(s)
    ensures AllListed(Apply(s, step)) <==> Calm(s, step)
  {
    if Calm(s, step) {
      StepReach(s, step);
      ReachLists(Apply(s, step));
    } else if step.Wait? {
      LapseLoses(s, step.seconds);
    } else if step.EndUnindex? {
      UnlistLoses(s, step.o);
    } else {
      SweepLoses(s, step.o);
    }
  }

  lemma LapseLoses(s: State, d: nat)
    requires !Calm(s, Wait(d))
    ensures !AllListed(Apply(s, Wait(d)))
  {
    var v := Apply(s, Wait(d));
    var t :| Unsettled(s, t) && Verifiable(Tick(s.k, d), t) && !Unstored(s, t);
    StageKept(s, v, t);
    assert Verifiable(v.k, t) && !Indexed(v.k, Hashed(t));
  }

  lemma UnlistLoses(s: State, o: nat)
    requires !Calm(s, EndUnindex(o))
    ensures !AllListed(Apply(s, EndUnindex(o)))
  {
    var (v, t) := (Apply(s, EndUnindex(o)), s.ops[o].t);
    StageKept(s, v, t);
    assert Verifiable(v.k, t) && !Indexed(v.k, Hashed(t));
  }

  lemma SweepLoses(s: State, o: nat)
    requires !Calm(s, SweepUnindex(o))
    ensures !AllListed(Apply(s, SweepUnindex(o)))
  {
    var v := Apply(s, SweepUnindex(o));
    var t :| t in s.sweeps[o].added && Verifiable(s.k, t) && !Unstored(s, t);
    StageKept(s, v, t);
    assert Verifiable(v.k, t) && !Indexed(v.k, Hashed(t));
  }
}
