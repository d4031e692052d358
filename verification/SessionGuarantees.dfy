/** What the session index guarantees, when it does not, and what a liveness check sees. */
module SessionGuarantees {
  import opened Common
  import opened SessionKeys
  import opened SessionSafety

  lemma StartInv(raw: map<Token, Fwd>, rev: Option<Rev>)
    ensures Inv(Start(raw, rev))
  {
    var s := Start(raw, rev);
    forall t ensures TokenInv(s, t) {
      assert Indexed(s.k, Hashed(t)) ==> Hashed(t).token in s.used;
    }
  }

  /** The user holds the token: its creation or migration has run to its end. */
  ghost predicate HandedOut(s: State, t: Token) { t in s.k.fwd && !Unstored(s, t) && !Unsettled(s, t) }

  predicate HasAnyLiveSession(k: Keys) { k.rev.Some? }

  /** Main theorem: in every state of every orderly run each live session is in the reverse
      index and the index expires no earlier, so has_any_live_session never misses one. */
  lemma IndexDominates(raw: map<Token, Fwd>, rev: Option<Rev>, steps: seq<Step>, t: Token)
    requires OrderlyRun(Start(raw, rev), steps)
    ensures var s := Run(Start(raw, rev), steps);
            HandedOut(s, t) ==>
              && Indexed(s.k, Hashed(t)) && HasAnyLiveSession(s.k)
              && (s.k.rev.value.exp.Some? ==> s.k.fwd[t].exp <= s.k.rev.value.exp.value)
  {
    StartInv(raw, rev);
    RunInv(Start(raw, rev), steps);
    var s := Run(Start(raw, rev), steps);
    assert TokenInv(s, t);
    if HandedOut(s, t) && !Outlives(s.k, s.k.fwd[t].exp) {
      var o :| Has(s, o, t) && s.ops[o].Refreshed? && Outlives(s.k, s.ops[o].at);
      assert OpInv(s, s.ops[o]);
    }
  }

  ghost predicate AllIndexed(s: State) {
    forall t :: t in s.k.fwd && !Unstored(s, t) ==> Indexed(s.k, Hashed(t))
  }

  /** The delete that ends a logout-everywhere keeps every live session findable exactly when
      none of the sessions that joined the index since it was read is alive. */
  lemma SweepKeepsIndexIff(s: State, o: nat)
    requires Inv(s) && o in s.sweeps && s.sweeps[o].cleared
    ensures AllIndexed(DoSweepUnindex(s, o)) <==>
            forall t :: t in s.sweeps[o].added && t in s.k.fwd ==> Unstored(s, t)
  {
    var v := DoSweepUnindex(s, o);
    assert SweepInv(s, s.sweeps[o]);
    forall t ensures Unstored(v, t) == Unstored(s, t) {
      assert forall p :: Has(v, p, t) == Has(s, p, t);
    }
    forall t | t in s.k.fwd && !Unstored(s, t) ensures t in s.sweeps[o].added {
      assert TokenInv(s, t);
    }
  }

  /** The SREM that ends a single logout (or an over-age session) keeps every live session
      findable exactly when the one it unlists has not come back to life meanwhile. */
  lemma EndUnindexKeepsIndexIff(s: State, o: nat)
    requires Inv(s) && AllIndexed(s) && o in s.ops && s.ops[o].Dropping?
    ensures var t := s.ops[o].t;
            AllIndexed(DoEndUnindex(s, o)) <==> (Hashed(t) in s.ops[o].drops && t in s.k.fwd ==> Unstored(s, t))
  {
    var (v, t) := (DoEndUnindex(s, o), s.ops[o].t);
    assert OpInv(s, s.ops[o]);
    forall x
      ensures Unstored(v, x) == Unstored(s, x)
      ensures x != t ==> Hashed(x) !in s.ops[o].drops
    {
      assert forall p :: p != o ==> Has(v, p, x) == Has(s, p, x);
    }
    if Hashed(t) in s.ops[o].drops && t in s.k.fwd && !Unstored(s, t) {
      assert t in v.k.fwd && !Indexed(v.k, Hashed(t));
    } else {
      forall x | x in v.k.fwd && !Unstored(v, x) ensures Indexed(v.k, Hashed(x)) {
        assert Indexed(s.k, Hashed(x)) && Hashed(x) !in s.ops[o].drops;
        assert Hashed(x) in s.k.rev.value.members - s.ops[o].drops;
      }
    }
  }

  /** Time passing keeps every live session findable exactly when, should the index lapse, no
      session still being added to it outlives it. */
  lemma LapseKeepsIndexIff(s: State, d: nat)
    requires Inv(s) && forall o :: o in s.ops && s.ops[o].Refreshed? ==> s.k.clock + d <= s.ops[o].at + DAY
    ensures AllIndexed(Apply(s, Wait(d))) <==>
            (RevLapsed(s.k, s.k.clock + d) ==>
               forall t :: Unsettled(s, t) && t in Tick(s.k, d).fwd ==> Unstored(s, t))
  {
    var v := Apply(s, Wait(d));
    forall t ensures Unstored(v, t) == Unstored(s, t) {
      assert forall p :: Has(v, p, t) == Has(s, p, t);
    }
    if Orderly(s, Wait(d)) {
      forall t | t in v.k.fwd && !Unstored(v, t) ensures Indexed(v.k, Hashed(t)) {
        WaitToken(s, d, t);
      }
    }
    if t :| RevLapsed(s.k, s.k.clock + d) && Unsettled(s, t) && t in Tick(s.k, d).fwd && !Unstored(s, t) {
      assert t in v.k.fwd && !Indexed(v.k, Hashed(t));
    }
  }

  // ---- logout everywhere ----

  /** No key, and nobody about to write one. */
  predicate Gone(s: State, t: Token) {
    t in s.used && t !in s.k.fwd && t !in s.k.raw && forall o :: o in s.ops && s.ops[o].LegacyRead? ==> s.ops[o].t != t
  }

  lemma StepGone(s: State, step: Step, t: Token)
    requires Gone(s, t)
    ensures Gone(Apply(s, step), t)
  {
  }

  lemma {:induction false} RunGone(s: State, steps: seq<Step>, t: Token)
    requires Gone(s, t)
    ensures Gone(Run(s, steps), t)
    decreases |steps|
  {
    if steps != [] {
      StepGone(s, steps[0], t);
      RunGone(Apply(s, steps[0]), steps[1..], t);
    }
  }

  /** Between a sweep's look and its delete: the list stays, and so does the session's form. */
  predicate NoMigrationOf(s: State, steps: seq<Step>, t: Token)
    decreases |steps|
  {
    steps == [] ||
    (!(steps[0].VerifyMigrate? && Has(s, steps[0].o, t)) && NoMigrationOf(Apply(s, steps[0]), steps[1..], t))
  }

  predicate Sweeping(s: State, o: nat, members: set<Member>) {
    o in s.sweeps && s.sweeps[o].members == members && !s.sweeps[o].cleared
  }

  predicate SweepUntouched(steps: seq<Step>, o: nat) {
    forall k :: 0 <= k < |steps| ==> steps[k] != SweepDelete(o)
  }

  lemma {:induction false} MeanwhileKept(s: State, o: nat, members: set<Member>, steps: seq<Step>, t: Token)
    requires Sweeping(s, o, members) && SweepUntouched(steps, o) && NoMigrationOf(s, steps, t) && t in s.used
    ensures var v := Run(s, steps);
            && Sweeping(v, o, members) && t in v.used
            && (t in v.k.fwd ==> t in s.k.fwd) && (t in v.k.raw ==> t in s.k.raw)
    decreases |steps|
  {
    if steps != [] {
      StepKept(s, o, members, steps[0], t);
      MeanwhileKept(Apply(s, steps[0]), o, members, steps[1..], t);
    }
  }

  lemma StepKept(s: State, o: nat, members: set<Member>, step: Step, t: Token)
    requires Sweeping(s, o, members) && step != SweepDelete(o) && t in s.used
    requires !(step.VerifyMigrate? && Has(s, step.o, t))
    ensures var v := Apply(s, step);
            && Sweeping(v, o, members) && t in v.used
            && (t in v.k.fwd ==> t in s.k.fwd) && (t in v.k.raw ==> t in s.k.raw)
  {
  }

  /** The sweep's list names every form in which the session exists, and nobody is about to
      write it anew. */
  predicate InReach(s: State, members: set<Member>, t: Token) {
    && (t in s.k.fwd ==> Hashed(t) in members) && (t in s.k.raw ==> Raw(t) in members)
    && forall p :: p in s.ops && s.ops[p].LegacyRead? ==> s.ops[p].t != t
  }

  /** The delete of a logout-everywhere ends a session for good, in every run that may follow,
      exactly when the session was in its reach: listed in the form it has at that moment, and
      not being migrated by a request that has read it. */
  lemma LogoutEndsSessionIff(s: State, o: nat, t: Token)
    requires o in s.sweeps && !s.sweeps[o].cleared && t in s.used
    ensures InReach(s, s.sweeps[o].members, t) <==>
            forall later :: t !in Run(DoSweepDelete(s, o), later).k.fwd && t !in Run(DoSweepDelete(s, o), later).k.raw
  {
    var v := DoSweepDelete(s, o);
    EmptyRun(v);
    if InReach(s, s.sweeps[o].members, t) {
      forall later ensures t !in Run(v, later).k.fwd && t !in Run(v, later).k.raw { RunGone(v, later, t); }
    } else if p :| p in s.ops && s.ops[p].LegacyRead? && s.ops[p].t == t {
      MigrationRevives(v, p);
      assert t in Run(v, [VerifyMigrate(p)]).k.fwd;
    } else {
      assert t in Run(v, []).k.fwd || t in Run(v, []).k.raw;
    }
  }

  /** A migration that has read the old key writes the session back whatever became of the key. */
  lemma MigrationRevives(s: State, o: nat)
    requires o in s.ops && s.ops[o].LegacyRead?
    ensures s.ops[o].t in Run(s, [VerifyMigrate(o)]).k.fwd
  {
    EmptyRun(Apply(s, VerifyMigrate(o)));
    assert Run(s, [VerifyMigrate(o)]) == Run(Apply(s, VerifyMigrate(o)), [VerifyMigrate(o)][1..]);
  }

  /** So after revoke_all no session the user had when it looked ever verifies again, hashed or
      old and indexed, unless a request was just then migrating it; whatever runs beside the
      revocation and whatever comes after. */
  lemma LogoutEverywhereIsFinal(s: State, o: nat, meanwhile: seq<Step>, later: seq<Step>, t: Token)
    requires Inv(s) && o !in s.sweeps
    requires HandedOut(s, t) || (t in s.k.raw && Indexed(s.k, Raw(t)))
    requires var s1 := Apply(s, SweepRead(o));
             SweepUntouched(meanwhile, o) && NoMigrationOf(s1, meanwhile, t)
             && forall p :: p in Run(s1, meanwhile).ops && Run(s1, meanwhile).ops[p].LegacyRead? ==>
                  Run(s1, meanwhile).ops[p].t != t
    ensures var v := Run(Apply(Run(Apply(s, SweepRead(o)), meanwhile), SweepDelete(o)), later);
            t !in v.k.fwd && t !in v.k.raw
  {
    assert TokenInv(s, t);
    var s1 := Apply(s, SweepRead(o));
    MeanwhileKept(s1, o, s1.sweeps[o].members, meanwhile, t);
    LogoutEndsSessionIff(Run(s1, meanwhile), o, t);
  }

  // ---- the races ----

  lemma RunStep(s: State, step: Step, rest: seq<Step>)
    ensures Run(s, [step] + rest) == Run(Apply(s, step), rest)
  {
    assert ([step] + rest)[1..] == rest;
  }

  function Login(o: nat, t: Token): seq<Step> { [Create(o, t)] + ([CreateIndex(o)] + [CreateExpire(o)]) }

  /** An undisturbed login: the key, the index entry and the index's time to live. */
  lemma LoginRuns(s: State, o: nat, t: Token, rest: seq<Step>)
    requires o !in s.ops && t !in s.used && s.ops == map[]
    ensures var k1 := ExpireRev(AddMember(SetFwd(s.k, t, At(s.k.clock)), Hashed(t)));
            Run(s, Login(o, t) + rest) ==
            Run(State(k1, s.used + {t}, map[], Joined(s.sweeps, t)), rest)
  {
    hide Run;
    assert Login(o, t) + rest == [Create(o, t)] + ([CreateIndex(o)] + ([CreateExpire(o)] + rest));
    var s1 := Apply(s, Create(o, t));
    var s2 := Apply(s1, CreateIndex(o));
    RunStep(s, Create(o, t), [CreateIndex(o)] + ([CreateExpire(o)] + rest));
    RunStep(s1, CreateIndex(o), [CreateExpire(o)] + rest);
    RunStep(s2, CreateExpire(o), rest);
    assert s2.ops.Keys == {o};
    assert s2.ops - {o} == map[];
  }

  /** A login between the look and the delete of a logout-everywhere: the new session lives,
      has_any_live_session denies it, and the next logout-everywhere will not find it. */
  lemma LoginDuringLogoutIsHidden(first: Token, second: Token)
    requires first != second
    ensures var s := Run(Start(map[], None), Login(0, first) + ([SweepRead(9)] + (Login(0, second) +
                       ([SweepDelete(9)] + ([SweepUnindex(9)] + [])))));
            second in s.k.fwd && first !in s.k.fwd && !HasAnyLiveSession(s.k) && s.ops == map[]
  {
    hide Run, Apply;
    var end := [SweepDelete(9)] + ([SweepUnindex(9)] + []);
    FirstLogin(first, [SweepRead(9)] + (Login(0, second) + end));
    RunStep(One(first), SweepRead(9), Login(0, second) + end);
    SecondLogin(first, second, end);
    RunStep(Two(first, second), SweepDelete(9), [SweepUnindex(9)] + []);
    RunStep(Apply(Two(first, second), SweepDelete(9)), SweepUnindex(9), []);
    EmptyRun(Apply(Apply(Two(first, second), SweepDelete(9)), SweepUnindex(9)));
    SweepHides(first, second);
  }

  const NEW := Fwd(At(0), SESSION_TTL_SECONDS)

  function One(t: Token): State {
    State(Keys(0, map[t := NEW], map[], Some(Rev({Hashed(t)}, Some(REVERSE_TTL_SECONDS)))), {t}, map[], map[])
  }

  function Two(t: Token, u: Token): State {
    State(Keys(0, map[t := NEW, u := NEW], map[], Some(Rev({Hashed(t), Hashed(u)}, Some(REVERSE_TTL_SECONDS)))),
          {t, u}, map[], map[9 := Sweep({Hashed(t)}, {u}, false)])
  }

  lemma FirstLogin(t: Token, rest: seq<Step>)
    ensures Run(Start(map[], None), Login(0, t) + rest) == Run(One(t), rest)
  {
    hide Run;
    var s := Start(map[], None);
    LoginRuns(s, 0, t, rest);
    var none: set<Token> := {};
    assert s.used == none && none + {t} == {t};
    assert Joined(s.sweeps, t) == map[];
  }

  lemma SecondLogin(t: Token, u: Token, rest: seq<Step>)
    requires t != u
    ensures Run(Apply(One(t), SweepRead(9)), Login(0, u) + rest) == Run(Two(t, u), rest)
  {
    hide Run;
    var s := Apply(One(t), SweepRead(9));
    LoginRuns(s, 0, u, rest);
    var none: set<Token> := {};
    assert none + {u} == {u} && {t} + {u} == {t, u} && {Hashed(t)} + {Hashed(u)} == {Hashed(t), Hashed(u)};
    assert ExpireRev(AddMember(SetFwd(s.k, u, At(s.k.clock)), Hashed(u))) == Two(t, u).k by {
      assert map[t := NEW][u := NEW] == map[t := NEW, u := NEW];
    }
    assert s.sweeps.Keys == {9} && s.sweeps[9] == Sweep({Hashed(t)}, {}, false);
    assert Joined(s.sweeps, u) == Two(t, u).sweeps;
  }

  lemma SweepHides(t: Token, u: Token)
    requires t != u
    ensures var s := Apply(Apply(Two(t, u), SweepDelete(9)), SweepUnindex(9));
            u in s.k.fwd && t !in s.k.fwd && !HasAnyLiveSession(s.k) && s.ops == map[]
  {
    var s := Two(t, u);
    assert Apply(s, SweepDelete(9)) == DoSweepDelete(s, 9);
    assert Apply(Apply(s, SweepDelete(9)), SweepUnindex(9)) == DoSweepUnindex(DoSweepDelete(s, 9), 9);
  }

  lemma EmptyRun(s: State)
    ensures Run(s, []) == s
  {
  }

  /** A migration that read the old key before a logout-everywhere deleted it writes the
      session back afterwards. */
  lemma MigrationOutlivesLogout(t: Token, exp: int)
    requires 0 < exp
    ensures var s := Run(Start(map[t := Fwd(Bare, exp)], Some(Rev({Raw(t)}, None))),
                         [VerifyRead(0, t)] + ([SweepRead(9)] + ([SweepDelete(9)] + ([VerifyMigrate(0)] + []))));
            t in s.k.fwd
  {
    hide Run;
    var s0 := Start(map[t := Fwd(Bare, exp)], Some(Rev({Raw(t)}, None)));
    var s1 := Apply(s0, VerifyRead(0, t));
    var s2 := Apply(s1, SweepRead(9));
    var s3 := Apply(s2, SweepDelete(9));
    RunStep(s0, VerifyRead(0, t), [SweepRead(9)] + ([SweepDelete(9)] + ([VerifyMigrate(0)] + [])));
    RunStep(s1, SweepRead(9), [SweepDelete(9)] + ([VerifyMigrate(0)] + []));
    RunStep(s2, SweepDelete(9), [VerifyMigrate(0)] + []);
    RunStep(s3, VerifyMigrate(0), []);
    EmptyRun(Apply(s3, VerifyMigrate(0)));
  }

  /** A logout from one device that read the old key while a verification was migrating it:
      the session lives on, its index entry is gone, and nothing is in flight any more. */
  lemma LogoutDuringMigrationIsHidden(t: Token, exp: int)
    requires 0 < exp
    ensures var s := Run(Start(map[t := Fwd(Bare, exp)], Some(Rev({Raw(t)}, None))),
                         [VerifyRead(0, t)] + ([RevokeRead(1, t)] + ([VerifyMigrate(0)] + ([VerifyRefresh(0)] +
                         ([VerifyRefreshIndex(0)] + ([EndDelete(1)] + ([EndUnindex(1)] + [])))))));
            t in s.k.fwd && s.ops == map[] && !HasAnyLiveSession(s.k)
  {
    hide Run, Apply;
    var s0 := Start(map[t := Fwd(Bare, exp)], Some(Rev({Raw(t)}, None)));
    var tail := [VerifyRefresh(0)] + ([VerifyRefreshIndex(0)] + ([EndDelete(1)] + ([EndUnindex(1)] + [])));
    var s1 := Apply(s0, VerifyRead(0, t));
    var s2 := Apply(s1, RevokeRead(1, t));
    var s3 := Apply(s2, VerifyMigrate(0));
    RunStep(s0, VerifyRead(0, t), [RevokeRead(1, t)] + ([VerifyMigrate(0)] + tail));
    RunStep(s1, RevokeRead(1, t), [VerifyMigrate(0)] + tail);
    RunStep(s2, VerifyMigrate(0), tail);
    MigratedBeside(t, exp);
    var s4 := Apply(s3, VerifyRefresh(0));
    var s5 := Apply(s4, VerifyRefreshIndex(0));
    var s6 := Apply(s5, EndDelete(1));
    RunStep(s3, VerifyRefresh(0), [VerifyRefreshIndex(0)] + ([EndDelete(1)] + ([EndUnindex(1)] + [])));
    RunStep(s4, VerifyRefreshIndex(0), [EndDelete(1)] + ([EndUnindex(1)] + []));
    RunStep(s5, EndDelete(1), [EndUnindex(1)] + []);
    RunStep(s6, EndUnindex(1), []);
    EmptyRun(Apply(s6, EndUnindex(1)));
    UnlistedAlive(s3, t);
  }

  lemma MigratedBeside(t: Token, exp: int)
    requires 0 < exp
    ensures var s0 := Start(map[t := Fwd(Bare, exp)], Some(Rev({Raw(t)}, None)));
            var s3 := Apply(Apply(Apply(s0, VerifyRead(0, t)), RevokeRead(1, t)), VerifyMigrate(0));
            && s3.ops == map[0 := Found(t, true), 1 := Ending(t, Raw(t), {Hashed(t), Raw(t)})]
            && t in s3.k.fwd && s3.k.rev.Some? && s3.k.rev.value.members == {Hashed(t)}
  {
  }

  lemma UnlistedAlive(s: State, t: Token)
    requires s.ops == map[0 := Found(t, true), 1 := Ending(t, Raw(t), {Hashed(t), Raw(t)})]
    requires t in s.k.fwd && s.k.rev.Some? && s.k.rev.value.members == {Hashed(t)}
    ensures var v := Apply(Apply(Apply(Apply(s, VerifyRefresh(0)), VerifyRefreshIndex(0)), EndDelete(1)), EndUnindex(1));
            t in v.k.fwd && v.ops == map[] && !HasAnyLiveSession(v.k)
  {
    Verified(s, t);
    Unlisted(Apply(Apply(s, VerifyRefresh(0)), VerifyRefreshIndex(0)), t);
    hide Apply;
  }

  lemma Verified(s: State, t: Token)
    requires s.ops == map[0 := Found(t, true), 1 := Ending(t, Raw(t), {Hashed(t), Raw(t)})]
    requires t in s.k.fwd && s.k.rev.Some? && s.k.rev.value.members == {Hashed(t)}
    ensures var v := Apply(Apply(s, VerifyRefresh(0)), VerifyRefreshIndex(0));
            v.ops == map[1 := Ending(t, Raw(t), {Hashed(t), Raw(t)})]
            && t in v.k.fwd && v.k.rev.Some? && v.k.rev.value.members == {Hashed(t)}
  {
  }

  lemma Unlisted(s: State, t: Token)
    requires s.ops == map[1 := Ending(t, Raw(t), {Hashed(t), Raw(t)})]
    requires t in s.k.fwd && s.k.rev.Some? && s.k.rev.value.members == {Hashed(t)}
    ensures var v := Apply(Apply(s, EndDelete(1)), EndUnindex(1));
            t in v.k.fwd && v.ops == map[] && !HasAnyLiveSession(v.k)
  {
    assert Apply(s, EndDelete(1)).ops == map[1 := Dropping(t, {Hashed(t), Raw(t)})];
    assert {Hashed(t)} - {Hashed(t), Raw(t)} == {};
  }

  /** A login whose SADD meets an index one second from its end: the index lapses before the
      EXPIRE, which then finds nothing to extend. */
  lemma LoginAtLapseIsHidden(first: Token, second: Token)
    requires first != second
    ensures var s := Run(Start(map[], None), Login(0, first) + ([Wait(REVERSE_TTL_SECONDS - 1)] + ([Create(0, second)] +
                       ([CreateIndex(0)] + ([Wait(1)] + ([CreateExpire(0)] + []))))));
            second in s.k.fwd && s.ops == map[] && !HasAnyLiveSession(s.k)
  {
    hide Run, Apply;
    var tail := [Create(0, second)] + ([CreateIndex(0)] + ([Wait(1)] + ([CreateExpire(0)] + [])));
    FirstLogin(first, [Wait(REVERSE_TTL_SECONDS - 1)] + tail);
    var s1 := Apply(One(first), Wait(REVERSE_TTL_SECONDS - 1));
    var s2 := Apply(s1, Create(0, second));
    var s3 := Apply(s2, CreateIndex(0));
    var s4 := Apply(s3, Wait(1));
    RunStep(One(first), Wait(REVERSE_TTL_SECONDS - 1), tail);
    RunStep(s1, Create(0, second), [CreateIndex(0)] + ([Wait(1)] + ([CreateExpire(0)] + [])));
    RunStep(s2, CreateIndex(0), [Wait(1)] + ([CreateExpire(0)] + []));
    RunStep(s3, Wait(1), [CreateExpire(0)] + []);
    RunStep(s4, CreateExpire(0), []);
    EmptyRun(Apply(s4, CreateExpire(0)));
    LapsedUnder(first, second);
  }

  lemma LapsedUnder(first: Token, second: Token)
    requires first != second
    ensures var s1 := Apply(One(first), Wait(REVERSE_TTL_SECONDS - 1));
            var v := Apply(Apply(Apply(Apply(s1, Create(0, second)), CreateIndex(0)), Wait(1)), CreateExpire(0));
            second in v.k.fwd && v.ops == map[] && !HasAnyLiveSession(v.k)
  {
    var s1 := Apply(One(first), Wait(REVERSE_TTL_SECONDS - 1));
    assert s1.k.rev == Some(Rev({Hashed(first)}, Some(REVERSE_TTL_SECONDS))) && s1.k.clock == REVERSE_TTL_SECONDS - 1;
    var s3 := Apply(Apply(s1, Create(0, second)), CreateIndex(0));
    assert s3.ops == map[0 := Added(second)] && second in s3.k.fwd;
    var s4 := Apply(s3, Wait(1));
    assert s4.k.rev == None && s4.ops == map[0 := Added(second)] && second in s4.k.fwd;
    assert map[0 := Added(second)] - {0} == map[];
  }

  // ---- the liveness check ----

  /** verify_session_token run without interruption: the keys after it, and its verdict. */
  function Verify(k: Keys, t: Token): (Keys, bool) {
    if t in k.fwd then
      if OverAge(k.fwd[t].stamp, k.clock) then (DropMembers(DelKeys(k, {Hashed(t)}), {Hashed(t)}), false)
      else (ExpireRev(ExpireFwd(k, t)), true)
    else if t in k.raw then (ExpireRev(ExpireFwd(Migrate(k, t, k.clock), t)), true)
    else (k, false)
  }

  function IsAlive(k: Keys, t: Token): bool {
    if t in k.fwd then !OverAge(k.fwd[t].stamp, k.clock)
    else t in k.raw && !OverAge(k.raw[t].stamp, k.clock)
  }

  /** The read-only check agrees with verification exactly unless only an old-scheme key is
      left and that key already carries a creation time past the ceiling. */
  lemma AliveAgreesIff(k: Keys, t: Token)
    ensures IsAlive(k, t) == Verify(k, t).1 <==>
            !(t !in k.fwd && t in k.raw && OverAge(k.raw[t].stamp, k.clock))
    ensures IsAlive(k, t) ==> Verify(k, t).1
  {
  }

  /** After verification both agree again, and nothing but time makes them differ from now. */
  lemma VerifySettles(k: Keys, t: Token)
    requires t in k.fwd ==> t !in k.raw
    ensures var (k', ok) := Verify(k, t); IsAlive(k', t) == ok
    ensures Verify(k, t).1 ==> Verify(Verify(k, t).0, t) == Verify(k, t)
  {
    var k1 := Verify(k, t).0;
    if Verify(k, t).1 {
      assert k1.fwd[t := k1.fwd[t]] == k1.fwd;
    }
  }
}
