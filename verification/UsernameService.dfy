/** The username endpoints updating the rows in place, and two interleavings that break the
    handover rule of Usernames. */
module UsernameService {
  import opened Common
  import opened Usernames

  /** One request, read and committed with nothing in between. */
  function Claimed(r: Registry, p: Policy, pk: Pubkey, name: Name): Registry {
    DoCommit(DoClaimRead(r, p, 0, pk, name), 0)
  }

  function Released(r: Registry, pk: Pubkey, deleting: bool): Registry {
    DoCommit(DoReleaseRead(r, 0, pk, deleting), 0)
  }

  class Users {
    const policy: Policy
    var clock: int
    var names: map<Pubkey, Name>
    var changedAt: map<Pubkey, int>
    var history: set<Release>
    ghost var since: map<Pubkey, int>
    ghost var versions: map<Pubkey, nat>

    ghost function View(): Registry
      reads this
    {
      Registry(clock, names, changedAt, history, map[], since, versions)
    }

    constructor (policy: Policy)
      ensures View() == EMPTY && this.policy == policy
    {
      this.policy := policy;
      clock, names, changedAt, history, since, versions := 0, map[], map[], {}, map[], map[];
    }

    method LatestRelease(name: Name, cutoff: int) returns (last: Option<Release>)
      ensures last.None? <==> forall x :: x in history && x.name == name ==> x.at < cutoff
      ensures last.Some? ==> last.value in history && last.value.name == name && cutoff <= last.value.at
      ensures last.Some? ==> forall x :: x in history && x.name == name ==> x.at <= last.value.at
    {
      last := None;
      var todo := history;
      while todo != {}
        invariant todo <= history
        invariant last.None? ==> forall x :: x in history - todo && x.name == name ==> x.at < cutoff
        invariant last.Some? ==> last.value in history && last.value.name == name && cutoff <= last.value.at
        invariant last.Some? ==> forall x :: x in history - todo && x.name == name ==> x.at <= last.value.at
        decreases todo
      {
        var x :| x in todo;
        if x.name == name && cutoff <= x.at && (last.None? || last.value.at < x.at) {
          last := Some(x);
        }
        todo := todo - {x};
      }
    }

    /** With releases of the name far enough apart, the verdict is the one Check gives and a
        committed claim is the two-step request without interruption. */
    method ClaimUsername(pk: Pubkey, name: Name) returns (v: Verdict)
      requires Inv(View(), policy)
      modifies this
      ensures v == Check(old(View()), policy, pk, name, clock)
      ensures v == Unchanged <==> pk in old(names) && old(names)[pk] == name
      ensures v == NameTaken <==> v != Unchanged && exists q :: q in old(names) && q != pk && old(names)[q] == name
      ensures v == TooSoon <==>
                v != Unchanged && v != NameTaken && pk in old(changedAt) && clock < old(changedAt)[pk] + policy.changeInterval
      ensures v == Allowed ==> forall x :: x in old(history) && x.name == name && x.pubkey != pk ==> x.at + policy.cooldown < clock
      ensures v == InCooldown ==> exists x :: x in old(history) && x.name == name && x.pubkey != pk && clock <= x.at + policy.cooldown
      ensures v == Allowed ==>
                && names == old(names)[pk := name] && changedAt == old(changedAt)[pk := clock]
                && history == old(history) + if pk in old(names) then {Release(old(names)[pk], pk, clock)} else {}
      ensures v != Allowed ==> names == old(names) && changedAt == old(changedAt) && history == old(history)
      ensures View() == Claimed(old(View()), policy, pk, name)
      ensures Inv(View(), policy)
    {
      hide Inv, Claimed, LatestIsOwn;
      ghost var r := View();
      ClaimKeepsInv(r, policy, pk, name);
      ClaimEffect(r, policy, pk, name);
      if pk in names && names[pk] == name {
        return Unchanged;
      }
      if exists q :: q in names && q != pk && names[q] == name {
        return NameTaken;
      }
      var now := clock;
      if pk in changedAt && now - changedAt[pk] < policy.changeInterval {
        return TooSoon;
      }
      var last := LatestRelease(name, now - policy.cooldown);
      OneLatest(r, policy, pk, name, now, last);
      AllEarlier(r, policy, pk, name);
      if last.Some? && last.value.pubkey != pk {
        return InCooldown;
      }
      if pk in names {
        history := history + {Release(names[pk], pk, now)};
      }
      names, changedAt := names[pk := name], changedAt[pk := now];
      since, versions := since[pk := now], versions[pk := Version(r, pk) + 1];
      return Allowed;
    }

    /** Both DELETE /me/username and the account deletion. */
    method ReleaseUsername(pk: Pubkey, deleting: bool) returns (released: bool)
      requires Inv(View(), policy)
      modifies this
      ensures released <==> pk in old(names)
      ensures names == old(names) - {pk}
      ensures history == old(history) + if released then {Release(old(names)[pk], pk, clock)} else {}
      ensures changedAt == if released && deleting then old(changedAt) - {pk} else old(changedAt)
      ensures View() == Released(old(View()), pk, deleting)
      ensures Inv(View(), policy)
    {
      ghost var r := View();
      ReleaseKeepsInv(r, policy, pk, deleting);
      if pk !in names {
        return false;
      }
      history := history + {Release(names[pk], pk, clock)};
      names := names - {pk};
      if deleting {
        changedAt := changedAt - {pk};
      }
      since, versions := since - {pk}, versions[pk := Version(r, pk) + 1];
      var none: map<nat, Pending> := map[];
      assert none[0 := Releasing(pk, clock, r.names[pk], Version(r, pk), deleting)] - {0} == none;
      return true;
    }
  }

  /** The query's one row decides as the window does: no two keys tie for the latest release. */
  lemma OneLatest(r: Registry, p: Policy, pk: Pubkey, name: Name, now: int, last: Option<Release>)
    requires Inv(r, p) && now == r.clock
    requires last.None? <==> forall x :: x in r.history && x.name == name ==> x.at < now - p.cooldown
    requires last.Some? ==> last.value in r.history && last.value.name == name && now - p.cooldown <= last.value.at
                            && forall x :: x in r.history && x.name == name ==> x.at <= last.value.at
    ensures (last.Some? && last.value.pubkey != pk) <==> !LatestIsOwn(r.history, pk, name, now, p.cooldown)
  {
    if last.Some? {
      assert InWindow(last.value, name, now, p.cooldown);
    }
  }

  lemma AllEarlier(r: Registry, p: Policy, pk: Pubkey, name: Name)
    requires Inv(r, p)
    ensures LatestIsOwn(r.history, pk, name, r.clock, p.cooldown) <==>
            forall x :: x in r.history && x.name == name && x.pubkey != pk ==> x.at + p.cooldown < r.clock
  {
    LatestIsEnough(r, p, pk, name, r.clock);
  }

  /** What an allowed claim writes; any other verdict writes nothing. */
  lemma ClaimEffect(r: Registry, p: Policy, pk: Pubkey, name: Name)
    requires r.pending == map[]
    ensures Claimed(r, p, pk, name) ==
            if Check(r, p, pk, name, r.clock) != Allowed then r
            else r.(names := r.names[pk := name], changedAt := r.changedAt[pk := r.clock],
                    history := if pk in r.names then r.history + {Release(r.names[pk], pk, r.clock)} else r.history,
                    since := r.since[pk := r.clock], versions := r.versions[pk := Version(r, pk) + 1])
  {
    hide LatestIsOwn;
    var none: map<nat, Pending> := map[];
    assert none[0 := Claiming(pk, name, r.clock, NameOf(r, pk), Version(r, pk))] - {0} == none;
  }

  lemma ClaimKeepsInv(r: Registry, p: Policy, pk: Pubkey, name: Name)
    requires Inv(r, p) && r.pending == map[]
    ensures Inv(Claimed(r, p, pk, name), p)
  {
    var r1 := DoClaimRead(r, p, 0, pk, name);
    ReadKeeps(r, p, ClaimRead(0, pk, name));
    CommitSound(r1, p, 0);
    if 0 in r1.pending {
      ClaimCommits(r1, p, 0);
    }
  }

  lemma ReleaseKeepsInv(r: Registry, p: Policy, pk: Pubkey, deleting: bool)
    requires Inv(r, p) && r.pending == map[]
    ensures Inv(Released(r, pk, deleting), p)
  {
    var r1 := DoReleaseRead(r, 0, pk, deleting);
    ReadKeeps(r, p, ReleaseRead(0, pk, deleting));
    CommitSound(r1, p, 0);
    if 0 in r1.pending {
      ReleaseCommits(r1, p, 0);
    }
  }

  // ---- two races ----

  lemma RunStep(r: Registry, p: Policy, step: Step, rest: seq<Step>)
    ensures Run(r, p, [step] + rest) == Run(Apply(r, p, step), p, rest)
  {
    assert ([step] + rest)[1..] == rest;
  }

  /** Key 2 looks while name 5 is free; key 1 takes it and gives it back; key 2 commits and
      holds a name released that very second. */
  lemma CheckThenCommitSkipsCooldown(p: Policy)
    ensures var r := Run(EMPTY, p, [ClaimRead(0, 2, 5)] + ([ClaimRead(1, 1, 5)] + ([Commit(1)] +
                       ([ReleaseRead(2, 1, false)] + ([Commit(2)] + ([Commit(0)] + []))))));
            NameOf(r, 2) == Some(5) && Release(5, 1, 0) in r.history && r.clock == 0
  {
    hide Run, Apply;
    var r1 := Apply(EMPTY, p, ClaimRead(0, 2, 5));
    var r2 := Apply(r1, p, ClaimRead(1, 1, 5));
    var r3 := Apply(r2, p, Commit(1));
    var r4 := Apply(r3, p, ReleaseRead(2, 1, false));
    var r5 := Apply(r4, p, Commit(2));
    RunStep(EMPTY, p, ClaimRead(0, 2, 5), [ClaimRead(1, 1, 5)] + ([Commit(1)] + ([ReleaseRead(2, 1, false)] + ([Commit(2)] + ([Commit(0)] + [])))));
    RunStep(r1, p, ClaimRead(1, 1, 5), [Commit(1)] + ([ReleaseRead(2, 1, false)] + ([Commit(2)] + ([Commit(0)] + []))));
    RunStep(r2, p, Commit(1), [ReleaseRead(2, 1, false)] + ([Commit(2)] + ([Commit(0)] + [])));
    RunStep(r3, p, ReleaseRead(2, 1, false), [Commit(2)] + ([Commit(0)] + []));
    RunStep(r4, p, Commit(2), [Commit(0)] + []);
    RunStep(r5, p, Commit(0), []);
    NoMoreSteps(Apply(r5, p, Commit(0)), p);
    TakenFirst(p);
    GivenBack(r3, p);
  }

  lemma TakenFirst(p: Policy)
    ensures var r3 := Apply(Apply(Apply(EMPTY, p, ClaimRead(0, 2, 5)), p, ClaimRead(1, 1, 5)), p, Commit(1));
            r3.names == map[1 := 5] && r3.pending == map[0 := Claiming(2, 5, 0, None, 0)] && r3.clock == 0
  {
    var r2 := Apply(Apply(EMPTY, p, ClaimRead(0, 2, 5)), p, ClaimRead(1, 1, 5));
    assert r2.pending == map[0 := Claiming(2, 5, 0, None, 0), 1 := Claiming(1, 5, 0, None, 0)];
  }

  lemma GivenBack(r: Registry, p: Policy)
    requires r.names == map[1 := 5] && r.pending == map[0 := Claiming(2, 5, 0, None, 0)] && r.clock == 0
    ensures var v := Apply(Apply(Apply(r, p, ReleaseRead(2, 1, false)), p, Commit(2)), p, Commit(0));
            NameOf(v, 2) == Some(5) && Release(5, 1, 0) in v.history && v.clock == 0
  {
    var r5 := Apply(Apply(r, p, ReleaseRead(2, 1, false)), p, Commit(2));
    assert r5.names == map[] && 0 in r5.pending && r5.pending[0] == Claiming(2, 5, 0, None, 0);
  }

  lemma NoMoreSteps(r: Registry, p: Policy)
    ensures Run(r, p, []) == r
  {
  }

  /** A release that read the row before the same key renamed drops the new name without a
      history row: key 1 holds name 6, nobody ever releases it on record, and key 2 holds it in
      the same second. */
  lemma StaleReleaseSkipsCooldown(p: Policy)
    ensures var rest := [Commit(1)] + ([ClaimRead(3, 2, 6)] + ([Commit(3)] + []));
            var r := Run(EMPTY, p, Renamed(p));
            var v := Run(EMPTY, p, Renamed(p) + rest);
            && NameOf(r, 1) == Some(6) && NameOf(v, 2) == Some(6) && r.clock == v.clock
            && forall x :: x in v.history ==> x.name != 6
  {
    hide Run, Apply;
    var rest := [Commit(1)] + ([ClaimRead(3, 2, 6)] + ([Commit(3)] + []));
    RenamedRuns(p, []);
    assert Renamed(p) + [] == Renamed(p);
    RenamedRuns(p, rest);
    NoMoreSteps(AfterRename(p), p);
    var r1 := Apply(AfterRename(p), p, Commit(1));
    var r2 := Apply(r1, p, ClaimRead(3, 2, 6));
    RunStep(AfterRename(p), p, Commit(1), [ClaimRead(3, 2, 6)] + ([Commit(3)] + []));
    RunStep(r1, p, ClaimRead(3, 2, 6), [Commit(3)] + []);
    RunStep(r2, p, Commit(3), []);
    NoMoreSteps(Apply(r2, p, Commit(3)), p);
    TakenOver(p);
  }

  /** Key 1 claims 5, starts to release it, waits, and renames to 6. */
  function Renamed(p: Policy): seq<Step> {
    [ClaimRead(0, 1, 5)] + ([Commit(0)] + ([ReleaseRead(1, 1, false)] + ([Wait(p.changeInterval)] +
      ([ClaimRead(2, 1, 6)] + [Commit(2)]))))
  }

  function AfterRename(p: Policy): Registry {
    var t := p.changeInterval;
    Registry(t, map[1 := 6], map[1 := t], {Release(5, 1, t)}, map[1 := Releasing(1, 0, 5, 1, false)], map[1 := t], map[1 := 2])
  }

  function Claimed5(): Registry { Registry(0, map[1 := 5], map[1 := 0], {}, map[], map[1 := 0], map[1 := 1]) }

  lemma FirstClaim(p: Policy)
    ensures Apply(Apply(EMPTY, p, ClaimRead(0, 1, 5)), p, Commit(0)) == Claimed5()
  {
    var none: map<nat, Pending> := map[];
    assert none[0 := Claiming(1, 5, 0, None, 0)] - {0} == none;
    var r := Apply(EMPTY, p, ClaimRead(0, 1, 5));
    assert r == EMPTY.(pending := map[0 := Claiming(1, 5, 0, None, 0)]);
    assert EMPTY.history + {} == EMPTY.history;
  }

  lemma SecondClaim(p: Policy)
    ensures var r := Claimed5().(clock := p.changeInterval, pending := map[1 := Releasing(1, 0, 5, 1, false)]);
            Apply(Apply(r, p, ClaimRead(2, 1, 6)), p, Commit(2)) == AfterRename(p)
  {
    var t := p.changeInterval;
    var r := Claimed5().(clock := t, pending := map[1 := Releasing(1, 0, 5, 1, false)]);
    assert Check(r, p, 1, 6, t) == Allowed;
    var op := Claiming(1, 6, t, Some(5), 1);
    assert r.pending[2 := op] - {2} == r.pending;
    var none: set<Release> := {};
    assert none + {Release(5, 1, t)} == {Release(5, 1, t)};
  }

  lemma RenamedRuns(p: Policy, rest: seq<Step>)
    ensures Run(EMPTY, p, Renamed(p) + rest) == Run(AfterRename(p), p, rest)
  {
    hide Run;
    var tail := [ReleaseRead(1, 1, false)] + ([Wait(p.changeInterval)] + ([ClaimRead(2, 1, 6)] + ([Commit(2)] + rest)));
    assert Renamed(p) + rest == [ClaimRead(0, 1, 5)] + ([Commit(0)] + tail);
    FirstClaim(p);
    SecondClaim(p);
    hide Apply;
    RunStep(EMPTY, p, ClaimRead(0, 1, 5), [Commit(0)] + tail);
    RunStep(Apply(EMPTY, p, ClaimRead(0, 1, 5)), p, Commit(0), tail);
    ReadAndWait(p);
    RunStep(Claimed5(), p, ReleaseRead(1, 1, false), [Wait(p.changeInterval)] + ([ClaimRead(2, 1, 6)] + ([Commit(2)] + rest)));
    var r3 := Apply(Claimed5(), p, ReleaseRead(1, 1, false));
    RunStep(r3, p, Wait(p.changeInterval), [ClaimRead(2, 1, 6)] + ([Commit(2)] + rest));
    var r4 := Apply(r3, p, Wait(p.changeInterval));
    RunStep(r4, p, ClaimRead(2, 1, 6), [Commit(2)] + rest);
    RunStep(Apply(r4, p, ClaimRead(2, 1, 6)), p, Commit(2), rest);
  }

  lemma ReadAndWait(p: Policy)
    ensures Apply(Apply(Claimed5(), p, ReleaseRead(1, 1, false)), p, Wait(p.changeInterval)) ==
            Claimed5().(clock := p.changeInterval, pending := map[1 := Releasing(1, 0, 5, 1, false)])
  {
  }

  lemma TakenOver(p: Policy)
    ensures var v := Apply(Apply(Apply(AfterRename(p), p, Commit(1)), p, ClaimRead(3, 2, 6)), p, Commit(3));
            NameOf(v, 2) == Some(6) && v.clock == p.changeInterval && forall x :: x in v.history ==> x.name != 6
  {
    var r1 := Apply(AfterRename(p), p, Commit(1));
    assert r1.names == map[] && forall x :: x in r1.history ==> x.name == 5;
    assert Check(r1, p, 2, 6, r1.clock) == Allowed;
  }
}
