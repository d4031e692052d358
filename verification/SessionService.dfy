/** The session operations as the relay runs them, one user's keys updated in place, and how
    each is a schedule of the steps that SessionKeys interleaves. */
module SessionService {
  import opened Common
  import opened SessionKeys
  import opened SessionGuarantees

  function Created(k: Keys, t: Token): Keys { ExpireRev(AddMember(SetFwd(k, t, At(k.clock)), Hashed(t))) }

  function Revoke(k: Keys, t: Token): (Keys, bool) {
    if t in k.fwd then (DropMembers(DelKeys(k, {Hashed(t)}), {Hashed(t), Raw(t)}), true)
    else if t in k.raw then (DropMembers(DelKeys(k, {Raw(t)}), {Hashed(t), Raw(t)}), true)
    else (k, false)
  }

  function Members(rev: Option<Rev>): set<Member> { if rev.Some? then rev.value.members else {} }

  predicate Alive(k: Keys, m: Member) {
    match m
    case Hashed(t) => t in k.fwd
    case Raw(t) => t in k.raw
  }

  function RevokeAll(k: Keys): (Keys, nat) {
    if k.rev.None? then (k, 0)
    else (DelRev(DelKeys(k, k.rev.value.members)), |set m | m in k.rev.value.members && Alive(k, m)|)
  }

  lemma DelKeysMore(k: Keys, ms: set<Member>, m: Member)
    requires m !in ms
    ensures DelKeys(DelKeys(k, ms), {m}) == DelKeys(k, ms + {m})
    ensures Alive(DelKeys(k, ms), m) == Alive(k, m)
    ensures var (a, b) := (set x | x in ms && Alive(k, x), set x | x in ms + {m} && Alive(k, x));
            |b| == |a| + if Alive(k, m) then 1 else 0
  {
    var (a, b) := (set x | x in ms && Alive(k, x), set x | x in ms + {m} && Alive(k, x));
    assert b == if Alive(k, m) then a + {m} else a;
  }

  lemma DelKeysNone(k: Keys)
    ensures DelKeys(k, {}) == k
    ensures (set x: Member | x in {} && Alive(k, x)) == {}
  {
  }

  class SessionStore {
    var clock: int
    var fwd: map<Token, Fwd>
    var raw: map<Token, Fwd>
    var rev: Option<Rev>

    function View(): Keys
      reads this
    {
      Keys(clock, fwd, raw, rev)
    }

    constructor ()
      ensures View() == Keys(0, map[], map[], None)
    {
      clock, fwd, raw, rev := 0, map[], map[], None;
    }

    method Sadd(m: Member)
      modifies this`rev
      ensures View() == AddMember(old(View()), m)
    {
      rev := Some(if rev.Some? then rev.value.(members := rev.value.members + {m}) else Rev({m}, None));
    }

    method Srem(ms: set<Member>)
      modifies this`rev
      ensures View() == DropMembers(old(View()), ms)
    {
      if rev.Some? {
        var left := rev.value.members - ms;
        rev := if left == {} then None else Some(rev.value.(members := left));
      }
    }

    method Delete(m: Member) returns (existed: bool)
      modifies this`fwd, this`raw
      ensures View() == DelKeys(old(View()), {m}) && existed == Alive(old(View()), m)
    {
      existed := Alive(View(), m);
      match m
      case Hashed(t) => fwd := fwd - {t};
      case Raw(t) => raw := raw - {t};
      ghost var k := old(View());
      assert fwd == (map t | t in k.fwd && Hashed(t) !in {m} :: k.fwd[t]);
      assert raw == (map t | t in k.raw && Raw(t) !in {m} :: k.raw[t]);
    }

    method CreateSession(t: Token) returns (expiresAt: int)
      requires t !in fwd
      modifies this`fwd, this`rev
      ensures View() == Created(old(View()), t)
      ensures fwd == old(fwd)[t := Fwd(At(clock), clock + 604800)] && expiresAt == clock + 604800
      ensures raw == old(raw) && rev == Some(Rev(Members(old(rev)) + {Hashed(t)}, Some(clock + 2678400)))
      ensures Verify(View(), t).1 && IsAlive(View(), t)
    {
      expiresAt := clock + SESSION_TTL_SECONDS;
      fwd := fwd[t := Fwd(At(clock), expiresAt)];
      Sadd(Hashed(t));
      RefreshIndex();
      assert rev.value.members == Members(old(rev)) + {Hashed(t)};
    }

    method RefreshIndex()
      modifies this`rev
      ensures View() == ExpireRev(old(View()))
    {
      if rev.Some? {
        rev := Some(rev.value.(exp := Some(clock + REVERSE_TTL_SECONDS)));
      }
    }

    method VerifySessionToken(t: Token) returns (ok: bool)
      requires t in fwd ==> t !in raw
      modifies this`fwd, this`raw, this`rev
      ensures (View(), ok) == Verify(old(View()), t)
      ensures ok <==> if t in old(fwd) then !(old(fwd)[t].stamp.At? && clock - old(fwd)[t].stamp.created > 2592000)
                      else t in old(raw)
      ensures ok ==> && fwd == old(fwd)[t := Fwd(if t in old(fwd) then old(fwd)[t].stamp else At(clock), clock + 604800)]
                     && raw == old(raw) - {t}
                     && (rev.Some? ==> rev.value.exp == Some(clock + 2678400))
                     && Members(rev) == if t in old(fwd) then Members(old(rev)) else Members(old(rev)) - {Raw(t)} + {Hashed(t)}
      ensures !ok ==> && fwd == old(fwd) - {t} && raw == old(raw)
                      && Members(rev) == if t in old(fwd) then Members(old(rev)) - {Hashed(t)} else Members(old(rev))
      ensures IsAlive(View(), t) == ok
    {
      ghost var k := View();
      VerifySettles(k, t);
      if t !in fwd {
        if t !in raw {
          return false;
        }
        fwd := fwd[t := Fwd(At(clock), clock + SESSION_TTL_SECONDS)];
        var _ := Delete(Raw(t));
        Srem({Raw(t)});
        Sadd(Hashed(t));
        assert View() == Migrate(k, t, clock);
      }
      if OverAge(fwd[t].stamp, clock) {
        var _ := Delete(Hashed(t));
        Srem({Hashed(t)});
        return false;
      }
      fwd := fwd[t := fwd[t].(exp := clock + SESSION_TTL_SECONDS)];
      RefreshIndex();
      return true;
    }

    method IsSessionAlive(t: Token) returns (alive: bool)
      ensures alive == IsAlive(View(), t)
    {
      if t in fwd {
        return !OverAge(fwd[t].stamp, clock);
      }
      if t !in raw {
        return false;
      }
      return !OverAge(raw[t].stamp, clock);
    }

    method RevokeSession(t: Token) returns (deleted: bool)
      requires t in fwd ==> t !in raw
      modifies this`fwd, this`raw, this`rev
      ensures (View(), deleted) == Revoke(old(View()), t)
      ensures deleted <==> t in old(fwd) || t in old(raw)
      ensures fwd == old(fwd) - {t} && raw == old(raw) - {t}
      ensures deleted ==> Members(rev) == Members(old(rev)) - {Hashed(t), Raw(t)}
      ensures !deleted ==> rev == old(rev)
      ensures (!Verify(View(), t).1 && !Indexed(View(), Hashed(t))) || (!deleted && View() == old(View()))
    {
      var m := Hashed(t);
      if t !in fwd {
        m := Raw(t);
        if t !in raw {
          return false;
        }
      }
      deleted := Delete(m);
      Srem({Raw(t), Hashed(t)});
      assert {Raw(t), Hashed(t)} == {Hashed(t), Raw(t)};
    }

    /** One forward key after the other, then the index. */
    method RevokeAllSessions() returns (count: nat)
      modifies this`fwd, this`raw, this`rev
      ensures (View(), count) == RevokeAll(old(View()))
      ensures rev == None && forall m :: m in Members(old(rev)) ==> !Alive(View(), m)
      ensures forall t :: t in fwd <==> t in old(fwd) && Hashed(t) !in Members(old(rev))
      ensures forall t :: t in raw <==> t in old(raw) && Raw(t) !in Members(old(rev))
      ensures (forall t :: t in fwd ==> fwd[t] == old(fwd)[t]) && forall t :: t in raw ==> raw[t] == old(raw)[t]
      ensures count == |set m | m in Members(old(rev)) && Alive(old(View()), m)|
    {
      if rev.None? {
        return 0;
      }
      ghost var k := View();
      ghost var done: set<Member> := {};
      var todo := rev.value.members;
      count := 0;
      DelKeysNone(k);
      while todo != {}
        invariant todo + done == k.rev.value.members && todo !! done && rev == k.rev
        invariant View() == DelKeys(k, done) && count == |set m | m in done && Alive(k, m)|
        decreases todo
      {
        hide DelKeys, Alive;
        var m :| m in todo;
        DelKeysMore(k, done, m);
        var existed := Delete(m);
        count := count + if existed then 1 else 0;
        todo, done := todo - {m}, done + {m};
      }
      assert done == k.rev.value.members;
      assert (set m | m in done && Alive(k, m)) == set m | m in Members(k.rev) && Alive(k, m);
      rev := None;
    }
  }

  /** After a logout-everywhere no session the user had verifies, unless its key was not the
      one the index listed. */
  lemma RevokedNeverVerify(k: Keys, t: Token)
    ensures Verify(RevokeAll(k).0, t).1 ==>
              (t in k.fwd && Hashed(t) !in Members(k.rev)) || (t in k.raw && Raw(t) !in Members(k.rev))
    ensures RevokeAll(k).0.rev.None? && RevokeAll(k).0.clock == k.clock
  {
  }

  /** The window slides with every verification, up to the ceiling: seven days without one end
      a session, and thirty days end it whatever happens. */
  lemma SlidesUpToTheCeiling(k: Keys, t: Token, later: nat)
    requires (t in k.fwd ==> t !in k.raw) && Verify(k, t).1
    ensures var stamp := if t in k.fwd then k.fwd[t].stamp else At(k.clock);
            Verify(Tick(Verify(k, t).0, later), t).1 <==>
            later < 604800 && (stamp.At? ==> k.clock + later - stamp.created <= 2592000)
  {
    var v := Tick(Verify(k, t).0, later);
    assert t in v.fwd <==> later < 604800;
    assert t !in v.raw;
  }

  // ---- the same operations as schedules ----

  /** A logout-everywhere with nothing in between is its look, its delete and its last command. */
  lemma RevokeAllIsOneSchedule(s: State, o: nat)
    requires o !in s.sweeps
    ensures var v := Run(s, [SweepRead(o)] + ([SweepDelete(o)] + ([SweepUnindex(o)] + [])));
            v.k == RevokeAll(s.k).0 && v.sweeps == s.sweeps
  {
    hide Run;
    var s1 := Apply(s, SweepRead(o));
    var s2 := Apply(s1, SweepDelete(o));
    RunStep(s, SweepRead(o), [SweepDelete(o)] + ([SweepUnindex(o)] + []));
    RunStep(s1, SweepDelete(o), [SweepUnindex(o)] + []);
    RunStep(s2, SweepUnindex(o), []);
    EmptyRun(Apply(s2, SweepUnindex(o)));
    if s.k.rev.Some? {
      assert Apply(s2, SweepUnindex(o)).sweeps == s.sweeps;
    }
  }

  /** A logout from one device likewise. */
  lemma RevokeIsOneSchedule(s: State, o: nat, t: Token)
    requires s.ops == map[]
    ensures var v := Run(s, [RevokeRead(o, t)] + ([EndDelete(o)] + ([EndUnindex(o)] + [])));
            v.k == Revoke(s.k, t).0 && v.ops == map[]
  {
    hide Run;
    var s1 := Apply(s, RevokeRead(o, t));
    RunStep(s, RevokeRead(o, t), [EndDelete(o)] + ([EndUnindex(o)] + []));
    if t in s.k.fwd || t in s.k.raw {
      EndRuns(s1, o);
    } else {
      RunStep(s, EndDelete(o), [EndUnindex(o)] + []);
      RunStep(s, EndUnindex(o), []);
      EmptyRun(s);
    }
  }

  /** A login with nothing in between is its three commands. */
  lemma CreateIsOneSchedule(s: State, o: nat, t: Token)
    requires s.ops == map[] && t !in s.used
    ensures Run(s, Login(o, t) + []).k == Created(s.k, t) && Run(s, Login(o, t) + []).ops == map[]
  {
    LoginRuns(s, o, t, []);
    EmptyRun(State(Created(s.k, t), s.used + {t}, map[], Joined(s.sweeps, t)));
  }

  function VerifySteps(k: Keys, o: nat, t: Token): seq<Step> {
    if t in k.fwd && OverAge(k.fwd[t].stamp, k.clock) then [VerifyRead(o, t)] + ([EndDelete(o)] + ([EndUnindex(o)] + []))
    else if t in k.fwd then [VerifyRead(o, t)] + ([VerifyRefresh(o)] + ([VerifyRefreshIndex(o)] + []))
    else if t in k.raw then
      [VerifyRead(o, t)] + ([VerifyMigrate(o)] + ([VerifyRefresh(o)] + ([VerifyRefreshIndex(o)] + [])))
    else []
  }

  lemma VerifyIsOneSchedule(s: State, o: nat, t: Token)
    requires s.ops == map[]
    ensures Run(s, VerifySteps(s.k, o, t)).k == Verify(s.k, t).0 && Run(s, VerifySteps(s.k, o, t)).ops == map[]
  {
    hide Run;
    EmptyRun(s);
    if t in s.k.fwd || t in s.k.raw {
      var s1 := Apply(s, VerifyRead(o, t));
      if t in s.k.fwd && OverAge(s.k.fwd[t].stamp, s.k.clock) {
        RunStep(s, VerifyRead(o, t), [EndDelete(o)] + ([EndUnindex(o)] + []));
        EndRuns(s1, o);
      } else if t in s.k.fwd {
        RunStep(s, VerifyRead(o, t), [VerifyRefresh(o)] + ([VerifyRefreshIndex(o)] + []));
        RefreshRuns(s1, o);
      } else {
        RunStep(s, VerifyRead(o, t), [VerifyMigrate(o)] + ([VerifyRefresh(o)] + ([VerifyRefreshIndex(o)] + [])));
        RunStep(s1, VerifyMigrate(o), [VerifyRefresh(o)] + ([VerifyRefreshIndex(o)] + []));
        RefreshRuns(Apply(s1, VerifyMigrate(o)), o);
      }
    }
  }

  lemma RefreshRuns(s: State, o: nat)
    requires s.ops.Keys == {o} && s.ops[o].Found?
    ensures var v := Run(s, [VerifyRefresh(o)] + ([VerifyRefreshIndex(o)] + []));
            v.k == ExpireRev(ExpireFwd(s.k, s.ops[o].t)) && v.ops == map[]
  {
    hide Run;
    RunStep(s, VerifyRefresh(o), [VerifyRefreshIndex(o)] + []);
    RunStep(Apply(s, VerifyRefresh(o)), VerifyRefreshIndex(o), []);
    EmptyRun(Apply(Apply(s, VerifyRefresh(o)), VerifyRefreshIndex(o)));
  }

  lemma EndRuns(s: State, o: nat)
    requires s.ops.Keys == {o} && s.ops[o].Ending?
    ensures var v := Run(s, [EndDelete(o)] + ([EndUnindex(o)] + []));
            v.k == DropMembers(DelKeys(s.k, {s.ops[o].kills}), s.ops[o].drops) && v.ops == map[]
  {
    hide Run;
    RunStep(s, EndDelete(o), [EndUnindex(o)] + []);
    RunStep(Apply(s, EndDelete(o)), EndUnindex(o), []);
    EmptyRun(Apply(Apply(s, EndDelete(o)), EndUnindex(o)));
  }
}
