/** Usernames of local users: claims, renames, releases and account deletions, each a read of
    the rows followed by a commit, in any interleaving. */
module Usernames {
  import opened Common

  type Pubkey = nat
  type Name = nat

  datatype Release = Release(name: Name, pubkey: Pubkey, at: int)

  /** Settings that stay as they are during a run, in seconds. */
  datatype Policy = Policy(cooldown: nat, changeInterval: nat)

  /** A request that has read its user row (at `version`) and decided, not yet committed. */
  datatype Pending =
    | Claiming(pubkey: Pubkey, name: Name, now: int, was: Option<Name>, version: nat)
    | Releasing(pubkey: Pubkey, now: int, gives: Name, version: nat, deleting: bool)

  /** `since` and `versions` are history: when the holder's claim read the clock, and how
      often a user row was written. */
  datatype Registry = Registry(
    clock: int, names: map<Pubkey, Name>, changedAt: map<Pubkey, int>, history: set<Release>,
    pending: map<nat, Pending>, since: map<Pubkey, int>, versions: map<Pubkey, nat>)

  datatype Step =
    | Wait(seconds: nat)
    | ClaimRead(o: nat, pubkey: Pubkey, name: Name)
    | ReleaseRead(o: nat, pubkey: Pubkey, deleting: bool)
    | Commit(o: nat)

  function NameOf(r: Registry, pk: Pubkey): Option<Name> { if pk in r.names then Some(r.names[pk]) else None }

  function Version(r: Registry, pk: Pubkey): nat { if pk in r.versions then r.versions[pk] else 0 }

  predicate Taken(r: Registry, pk: Pubkey, name: Name) { exists q :: q in r.names && q != pk && r.names[q] == name }

  predicate InWindow(x: Release, name: Name, now: int, cooldown: nat) { x.name == name && now - cooldown <= x.at }

  /** The cooldown query: the latest release of the name in the window is the claimant's own. */
  predicate LatestIsOwn(history: set<Release>, pk: Pubkey, name: Name, now: int, cooldown: nat) {
    forall x :: x in history && InWindow(x, name, now, cooldown) && x.pubkey != pk ==>
      exists y :: y in history && InWindow(y, name, now, cooldown) && x.at < y.at
  }

  predicate ChangedTooRecently(r: Registry, pk: Pubkey, now: int, p: Policy) {
    pk in r.changedAt && now - r.changedAt[pk] < p.changeInterval
  }

  datatype Verdict = Unchanged | NameTaken | TooSoon | InCooldown | Allowed

  function Check(r: Registry, p: Policy, pk: Pubkey, name: Name, now: int): Verdict {
    if NameOf(r, pk) == Some(name) then Unchanged
    else if Taken(r, pk, name) then NameTaken
    else if ChangedTooRecently(r, pk, now, p) then TooSoon
    else if !LatestIsOwn(r.history, pk, name, now, p.cooldown) then InCooldown
    else Allowed
  }

  function DoClaimRead(r: Registry, p: Policy, o: nat, pk: Pubkey, name: Name): Registry {
    if o in r.pending || Check(r, p, pk, name, r.clock) != Allowed then r
    else r.(pending := r.pending[o := Claiming(pk, name, r.clock, NameOf(r, pk), Version(r, pk))])
  }

  function DoReleaseRead(r: Registry, o: nat, pk: Pubkey, deleting: bool): Registry {
    if o in r.pending || pk !in r.names then r
    else r.(pending := r.pending[o := Releasing(pk, r.clock, r.names[pk], Version(r, pk), deleting)])
  }

  /** The history row of the name that is given up, if there is one. */
  function Given(c: Pending): set<Release> {
    match c
    case Claiming(pk, name, now, was, _) => if was.Some? then {Release(was.value, pk, now)} else {}
    case Releasing(pk, now, gives, _, _) => {Release(gives, pk, now)}
  }

  /** A claim is held back only by the UNIQUE constraint; a release by nothing. */
  function DoCommit(r: Registry, o: nat): Registry {
    if o !in r.pending then r
    else
      var c := r.pending[o];
      var pk := c.pubkey;
      var left := r.(pending := r.pending - {o});
      if c.Claiming? then
        if Taken(r, pk, c.name) then left
        else left.(names := r.names[pk := c.name], changedAt := r.changedAt[pk := c.now],
                   history := r.history + Given(c), since := r.since[pk := c.now],
                   versions := r.versions[pk := Version(r, pk) + 1])
      else left.(names := r.names - {pk}, changedAt := if c.deleting then r.changedAt - {pk} else r.changedAt,
                 history := r.history + Given(c), since := r.since - {pk},
                 versions := r.versions[pk := Version(r, pk) + 1])
  }

  function Apply(r: Registry, p: Policy, step: Step): Registry {
    match step
    case Wait(d) => r.(clock := r.clock + d)
    case ClaimRead(o, pk, name) => DoClaimRead(r, p, o, pk, name)
    case ReleaseRead(o, pk, deleting) => DoReleaseRead(r, o, pk, deleting)
    case Commit(o) => DoCommit(r, o)
  }

  function Run(r: Registry, p: Policy, steps: seq<Step>): Registry
    decreases |steps|
  {
    if steps == [] then r else Run(Apply(r, p, steps[0]), p, steps[1..])
  }

  const EMPTY := Registry(0, map[], map[], {}, map[], map[], map[])

  /** At its commit a request finds the user row as it read it, and a claim would still pass
      its own cooldown query. */
  predicate Undisturbed(r: Registry, p: Policy, step: Step) {
    step.Commit? && step.o in r.pending ==>
      var c := r.pending[step.o];
      && Version(r, c.pubkey) == c.version
      && (c.Claiming? ==> LatestIsOwn(r.history, c.pubkey, c.name, c.now, p.cooldown))
  }

  predicate UndisturbedRun(r: Registry, p: Policy, steps: seq<Step>)
    decreases |steps|
  {
    steps == [] || (Undisturbed(r, p, steps[0]) && UndisturbedRun(Apply(r, p, steps[0]), p, steps[1..]))
  }

  // ---- the invariant ----

  /** Whoever holds a name claimed it more than the cooldown after any other key's release. */
  ghost predicate Handover(r: Registry, p: Policy) {
    forall q, x :: q in r.names && x in r.history && x.name == r.names[q] && x.pubkey != q ==>
      q in r.since && x.at + p.cooldown < r.since[q]
  }

  /** Releases of one name by different keys lie more than the cooldown apart. */
  ghost predicate Apart(r: Registry, p: Policy) {
    forall x, y :: x in r.history && y in r.history && x.name == y.name && x.pubkey != y.pubkey && x.at <= y.at ==>
      x.at + p.cooldown < y.at
  }

  ghost predicate Sound(r: Registry) {
    && (forall q, q' :: q in r.names && q' in r.names && r.names[q] == r.names[q'] ==> q == q')
    && (forall q :: q in r.names ==> q in r.since && r.since[q] <= r.clock)
    && (forall x :: x in r.history ==> x.at <= r.clock)
    && (forall o :: o in r.pending ==> PendingSound(r, r.pending[o]))
  }

  /** As long as the row is the one that was read, so are its name and its claim time. */
  predicate PendingSound(r: Registry, c: Pending) {
    && c.now <= r.clock && c.version <= Version(r, c.pubkey)
    && (c.Claiming? ==> c.was != Some(c.name))
    && (c.version == Version(r, c.pubkey) ==>
          && NameOf(r, c.pubkey) == (if c.Claiming? then c.was else Some(c.gives))
          && (c.pubkey in r.names && c.pubkey in r.since ==> r.since[c.pubkey] <= c.now)
          && (forall x :: x in r.history && x.pubkey == c.pubkey ==> x.at <= c.now))
  }

  ghost predicate Inv(r: Registry, p: Policy) { Sound(r) && Handover(r, p) && Apart(r, p) }

  /** Why looking at the latest release alone is enough. */
  lemma LatestIsEnough(r: Registry, p: Policy, pk: Pubkey, name: Name, now: int)
    requires Apart(r, p) && forall x :: x in r.history && x.pubkey == pk ==> x.at <= now
    ensures LatestIsOwn(r.history, pk, name, now, p.cooldown) <==>
            forall x :: x in r.history && x.name == name && x.pubkey != pk ==> x.at + p.cooldown < now
  {
    if x :| x in r.history && x.name == name && x.pubkey != pk && now <= x.at + p.cooldown {
      var others := set y | y in r.history && InWindow(y, name, now, p.cooldown) && y.pubkey != pk;
      assert x in others;
      var last := Latest(others);
      forall y | y in r.history && InWindow(y, name, now, p.cooldown) ensures y.at <= last.at {
        assert y.pubkey != pk ==> y in others;
        assert last in r.history && last.name == y.name && last.pubkey != pk;
        assert y.pubkey == pk && last.at < y.at ==> last.at + p.cooldown < y.at;
      }
    }
  }

  ghost function Latest(s: set<Release>): (last: Release)
    requires s != {}
    ensures last in s && forall y :: y in s ==> y.at <= last.at
  {
    var x :| x in s;
    if s == {x} then x
    else
      assert s - {x} != {} by { assert s - {x} == {} ==> s <= {x}; }
      var rest := Latest(s - {x});
      if rest.at <= x.at then x else rest
  }

  lemma ReadKeeps(r: Registry, p: Policy, step: Step)
    requires Inv(r, p) && !step.Commit?
    ensures Inv(Apply(r, p, step), p)
  {
  }

  /** A commit writes one user row: its version moves on, and its history rows are its own. */
  lemma CommitWrites(r: Registry, o: nat, pk: Pubkey)
    requires o in r.pending
    ensures var (v, c) := (DoCommit(r, o), r.pending[o]);
            && v.clock == r.clock && v.pending == r.pending - {o}
            && (pk == c.pubkey && v.versions != r.versions ==> Version(v, pk) == Version(r, pk) + 1)
            && (pk != c.pubkey || v.versions == r.versions ==>
                  && Version(v, pk) == Version(r, pk) && NameOf(v, pk) == NameOf(r, pk)
                  && (pk in v.since <==> pk in r.since) && (pk in r.since ==> v.since[pk] == r.since[pk])
                  && forall x :: x in v.history && x.pubkey == pk ==> x in r.history)
  {
    hide Taken;
  }

  lemma CommitPending(r: Registry, o: nat, x: nat)
    requires Sound(r) && x in DoCommit(r, o).pending
    ensures PendingSound(DoCommit(r, o), DoCommit(r, o).pending[x])
  {
    assert PendingSound(r, r.pending[x]);
    if o in r.pending {
      CommitWrites(r, o, r.pending[x].pubkey);
      hide DoCommit, Sound, Version, NameOf;
    }
  }

  lemma CommitSound(r: Registry, p: Policy, o: nat)
    requires Sound(r)
    ensures Sound(DoCommit(r, o))
  {
    var v := DoCommit(r, o);
    forall x | x in v.pending ensures PendingSound(v, v.pending[x]) {
      CommitPending(r, o, x);
    }
    assert o in r.pending ==> r.pending[o].now <= r.clock by {
      assert o in r.pending ==> PendingSound(r, r.pending[o]);
    }
    hide PendingSound;
  }

  /** A claim that commits: the two handover facts for the new holder and the new release. */
  lemma ClaimCommits(r: Registry, p: Policy, o: nat)
    requires Inv(r, p) && Undisturbed(r, p, Commit(o)) && o in r.pending && r.pending[o].Claiming?
    ensures Handover(DoCommit(r, o), p) && Apart(DoCommit(r, o), p)
  {
    var c := r.pending[o];
    assert PendingSound(r, c);
    LatestIsEnough(r, p, c.pubkey, c.name, c.now);
  }

  lemma ReleaseCommits(r: Registry, p: Policy, o: nat)
    requires Inv(r, p) && Undisturbed(r, p, Commit(o)) && o in r.pending && r.pending[o].Releasing?
    ensures Handover(DoCommit(r, o), p) && Apart(DoCommit(r, o), p)
  {
    var c := r.pending[o];
    assert PendingSound(r, c);
  }

  lemma StepKeeps(r: Registry, p: Policy, step: Step)
    requires Inv(r, p) && Undisturbed(r, p, step)
    ensures Inv(Apply(r, p, step), p)
  {
    if !step.Commit? {
      ReadKeeps(r, p, step);
    } else {
      CommitSound(r, p, step.o);
      if step.o in r.pending {
        if r.pending[step.o].Claiming? {
          ClaimCommits(r, p, step.o);
        } else {
          ReleaseCommits(r, p, step.o);
        }
      }
    }
    hide DoCommit, Sound, Handover, Apart;
  }

  lemma {:induction false} RunKeeps(r: Registry, p: Policy, steps: seq<Step>)
    requires Inv(r, p) && UndisturbedRun(r, p, steps)
    ensures Inv(Run(r, p, steps), p)
    decreases |steps|
  {
    if steps != [] {
      StepKeeps(r, p, steps[0]);
      RunKeeps(Apply(r, p, steps[0]), p, steps[1..]);
    }
  }

  // ---- how often one key may change ----

  /** A claim waiting to be committed on the row it read comes an interval after the last. */
  ghost predicate Paced(r: Registry, p: Policy) {
    forall o :: o in r.pending && r.pending[o].Claiming? && r.pending[o].version == Version(r, r.pending[o].pubkey) ==>
      r.pending[o].pubkey in r.changedAt ==> r.changedAt[r.pending[o].pubkey] + p.changeInterval <= r.pending[o].now
  }

  lemma StepPaced(r: Registry, p: Policy, step: Step)
    requires Sound(r) && Paced(r, p)
    ensures Paced(Apply(r, p, step), p)
  {
    hide LatestIsOwn, Taken;
    if step.Commit? && step.o in r.pending {
      var v := DoCommit(r, step.o);
      forall o | o in v.pending && v.pending[o].Claiming? && v.pending[o].version == Version(v, v.pending[o].pubkey)
        ensures v.pending[o].pubkey in v.changedAt ==> v.changedAt[v.pending[o].pubkey] + p.changeInterval <= v.pending[o].now
      {
        assert PendingSound(r, r.pending[o]);
      }
    }
  }

  lemma {:induction false} RunPaced(r: Registry, p: Policy, steps: seq<Step>)
    requires Inv(r, p) && Paced(r, p) && UndisturbedRun(r, p, steps)
    ensures Paced(Run(r, p, steps), p)
    decreases |steps|
  {
    if steps != [] {
      StepPaced(r, p, steps[0]);
      StepKeeps(r, p, steps[0]);
      RunPaced(Apply(r, p, steps[0]), p, steps[1..]);
    }
  }

  /** One key changes its name at most once per interval: a claim that commits, in any run,
      read the clock at least an interval after the key's last change, even when it released
      the name in between; only deleting the account forgets the last change. */
  lemma ChangesLieApart(p: Policy, steps: seq<Step>, o: nat)
    requires UndisturbedRun(EMPTY, p, steps) && Undisturbed(Run(EMPTY, p, steps), p, Commit(o))
    ensures var r := Run(EMPTY, p, steps);
            o in r.pending && r.pending[o].Claiming? && !Taken(r, r.pending[o].pubkey, r.pending[o].name) ==>
              var (c, v) := (r.pending[o], Apply(r, p, Commit(o)));
              && (c.pubkey in r.changedAt ==> r.changedAt[c.pubkey] + p.changeInterval <= c.now)
              && NameOf(v, c.pubkey) == Some(c.name) && c.pubkey in v.changedAt && v.changedAt[c.pubkey] == c.now
  {
    RunKeeps(EMPTY, p, steps);
    RunPaced(EMPTY, p, steps);
  }

  /** Releases leave the time of the last change alone unless the account goes with the name. */
  lemma ReleaseKeepsInterval(r: Registry, p: Policy, o: nat, pk: Pubkey)
    requires o in r.pending && pk in r.changedAt && r.pending[o].Releasing?
    ensures var v := Apply(r, p, Commit(o));
            && (pk in v.changedAt <==> !(r.pending[o].deleting && r.pending[o].pubkey == pk))
            && (pk in v.changedAt ==> v.changedAt[pk] == r.changedAt[pk])
  {
  }

  /** Main theorem: a name that P released is held by another key only by a claim that read
      the clock more than the cooldown after that release. */
  lemma HandoverTakesCooldown(p: Policy, steps: seq<Step>, q: Pubkey, x: Release)
    requires UndisturbedRun(EMPTY, p, steps)
    ensures var r := Run(EMPTY, p, steps);
            q in r.names && x in r.history && x.name == r.names[q] && x.pubkey != q ==>
              q in r.since && x.at + p.cooldown < r.since[q] <= r.clock
  {
    RunKeeps(EMPTY, p, steps);
  }

  /** And releases of one name by two keys are never within a cooldown of each other. */
  lemma ReleasesLieApart(p: Policy, steps: seq<Step>, x: Release, y: Release)
    requires UndisturbedRun(EMPTY, p, steps)
    ensures var r := Run(EMPTY, p, steps);
            x in r.history && y in r.history && x.name == y.name && x.pubkey != y.pubkey ==>
              x.at + p.cooldown < y.at || y.at + p.cooldown < x.at
  {
    RunKeeps(EMPTY, p, steps);
  }

  /** A claim by an untouched user row that wins the UNIQUE check keeps the rule exactly when
      its cooldown query, asked again at the commit, would still let it through. */
  lemma LateClaimKeepsCooldownIff(r: Registry, p: Policy, o: nat)
    requires Inv(r, p) && o in r.pending && r.pending[o].Claiming?
    requires r.pending[o].version == Version(r, r.pending[o].pubkey)
    requires !Taken(r, r.pending[o].pubkey, r.pending[o].name)
    ensures Handover(DoCommit(r, o), p) <==>
            LatestIsOwn(r.history, r.pending[o].pubkey, r.pending[o].name, r.pending[o].now, p.cooldown)
  {
    var c := r.pending[o];
    assert PendingSound(r, c);
    LatestIsEnough(r, p, c.pubkey, c.name, c.now);
    var v := DoCommit(r, o);
    if Handover(v, p) {
      forall x | x in r.history && x.name == c.name && x.pubkey != c.pubkey ensures x.at + p.cooldown < c.now {
        assert c.pubkey in v.names && x in v.history && x.name == v.names[c.pubkey];
      }
    } else if LatestIsOwn(r.history, c.pubkey, c.name, c.now, p.cooldown) {
      ClaimCommits(r, p, o);
    }
  }

  /** Whether its row changed or not, any claim that wins the UNIQUE check keeps the rule exactly
      when every other key's release of the name lies more than the cooldown before the time it
      read, and nobody else has meanwhile taken the name it will record as its own. */
  lemma AnyClaimKeepsCooldownIff(r: Registry, p: Policy, o: nat)
    requires Inv(r, p) && o in r.pending && r.pending[o].Claiming?
    requires !Taken(r, r.pending[o].pubkey, r.pending[o].name)
    ensures var c := r.pending[o];
            Handover(DoCommit(r, o), p) <==>
            && (forall x :: x in r.history && x.name == c.name && x.pubkey != c.pubkey ==> x.at + p.cooldown < c.now)
            && (forall q :: q in r.names && q != c.pubkey && c.was == Some(r.names[q]) ==> c.now + p.cooldown < r.since[q])
  {
    var (c, v) := (r.pending[o], DoCommit(r, o));
    assert PendingSound(r, c);
    hide Taken, PendingSound;
    if Handover(v, p) {
      forall x | x in r.history && x.name == c.name && x.pubkey != c.pubkey ensures x.at + p.cooldown < c.now {
        assert c.pubkey in v.names && x in v.history && x.name == v.names[c.pubkey];
      }
      forall q | q in r.names && q != c.pubkey && c.was == Some(r.names[q]) ensures c.now + p.cooldown < r.since[q] {
        var x := Release(r.names[q], c.pubkey, c.now);
        assert q in v.names && x in v.history && x.name == v.names[q];
      }
    }
  }

  // ---- names given up are on record ----

  /** The name a request saw when it read its user row. */
  function ReadName(c: Pending): Option<Name> { if c.Claiming? then c.was else Some(c.gives) }

  predicate Records(xs: set<Release>, pk: Pubkey, name: Name) {
    exists x :: x in xs && x.name == name && x.pubkey == pk
  }

  /** A commit that takes a name from its key puts that name on record exactly when the request
      had read it. */
  lemma GivenUpRecordedIff(r: Registry, o: nat)
    requires o in r.pending && r.pending[o].pubkey in r.names
    requires var pk := r.pending[o].pubkey; NameOf(DoCommit(r, o), pk) != NameOf(r, pk)
    ensures var c := r.pending[o];
            Records(Given(c), c.pubkey, r.names[c.pubkey]) <==> ReadName(c) == NameOf(r, c.pubkey)
  {
    var c := r.pending[o];
    if ReadName(c) == NameOf(r, c.pubkey) {
      assert Release(r.names[c.pubkey], c.pubkey, c.now) in Given(c);
    }
  }

  /** One step: a key keeps its name, and then its claim time never goes back, or the name goes
      on record with a time between the claim and now. */
  lemma StepRecords(r: Registry, p: Policy, step: Step, pk: Pubkey)
    requires Inv(r, p) && Undisturbed(r, p, step) && pk in r.names
    ensures var v := Apply(r, p, step);
            && r.history <= v.history && r.clock <= v.clock
            && (NameOf(v, pk) == Some(r.names[pk]) ==> pk in r.since && pk in v.since && r.since[pk] <= v.since[pk])
            && (NameOf(v, pk) != Some(r.names[pk]) ==>
                  exists x :: x in v.history && x.name == r.names[pk] && x.pubkey == pk && r.since[pk] <= x.at <= v.clock)
  {
    var v := Apply(r, p, step);
    if step.Commit? && step.o in r.pending {
      var c := r.pending[step.o];
      assert PendingSound(r, c);
      if NameOf(v, pk) != Some(r.names[pk]) {
        assert pk == c.pubkey;
        assert Release(r.names[pk], pk, c.now) in v.history;
      }
    }
  }

  /** Over a run: a name its key no longer holds is on record as released by that key, no
      earlier than it was claimed. */
  lemma {:induction false} RunRecords(r: Registry, p: Policy, steps: seq<Step>, pk: Pubkey)
    requires Inv(r, p) && UndisturbedRun(r, p, steps) && pk in r.names
    ensures var v := Run(r, p, steps);
            && r.history <= v.history && pk in r.since && r.clock <= v.clock
            && (NameOf(v, pk) != Some(r.names[pk]) ==>
                  exists x :: x in v.history && x.name == r.names[pk] && x.pubkey == pk && r.since[pk] <= x.at <= v.clock)
    decreases |steps|
  {
    if steps != [] {
      var r1 := Apply(r, p, steps[0]);
      StepRecords(r, p, steps[0], pk);
      StepKeeps(r, p, steps[0]);
      RunGrows(r1, p, steps[1..]);
      if NameOf(r1, pk) == Some(r.names[pk]) {
        RunRecords(r1, p, steps[1..], pk);
      }
    }
  }

  lemma {:induction false} RunGrows(r: Registry, p: Policy, steps: seq<Step>)
    ensures r.history <= Run(r, p, steps).history && r.clock <= Run(r, p, steps).clock
    decreases |steps|
  {
    if steps != [] {
      StepGrows(r, p, steps[0]);
      RunGrows(Apply(r, p, steps[0]), p, steps[1..]);
    }
  }

  lemma StepGrows(r: Registry, p: Policy, step: Step)
    ensures r.history <= Apply(r, p, step).history && r.clock <= Apply(r, p, step).clock
  {
  }

  lemma {:induction false} RunConcat(r: Registry, p: Policy, a: seq<Step>, b: seq<Step>)
    requires UndisturbedRun(r, p, a + b)
    ensures Run(r, p, a + b) == Run(Run(r, p, a), p, b)
    ensures UndisturbedRun(r, p, a) && UndisturbedRun(Run(r, p, a), p, b)
    decreases |a|
  {
    if a == [] {
      assert a + b == b;
    } else {
      assert (a + b)[1..] == a[1..] + b;
      RunConcat(Apply(r, p, a[0]), p, a[1..], b);
    }
  }

  /** Main theorem, without reference to what happens to be on record: if one key holds a name
      at some moment of a run and another key holds it later, then the first released it in
      between, on record and no earlier than its own claim, and the second's claim read the
      clock more than the cooldown after that release. */
  lemma NamePassesOnlyAfterCooldown(p: Policy, before: seq<Step>, after: seq<Step>, pk: Pubkey, q: Pubkey)
    requires UndisturbedRun(EMPTY, p, before + after)
    ensures var (r, v) := (Run(EMPTY, p, before), Run(EMPTY, p, before + after));
            pk in r.names && q in v.names && q != pk && v.names[q] == r.names[pk] ==>
              && pk in r.since && q in v.since
              && exists x :: x in v.history && x.name == r.names[pk] && x.pubkey == pk
                             && r.since[pk] <= x.at && x.at + p.cooldown < v.since[q] <= v.clock
  {
    RunConcat(EMPTY, p, before, after);
    RunKeeps(EMPTY, p, before);
    RunKeeps(EMPTY, p, before + after);
    var (r, v) := (Run(EMPTY, p, before), Run(EMPTY, p, before + after));
    if pk in r.names && q in v.names && q != pk && v.names[q] == r.names[pk] {
      RunRecords(r, p, after, pk);
      assert NameOf(v, pk) != Some(r.names[pk]);
      var x :| x in v.history && x.name == r.names[pk] && x.pubkey == pk && r.since[pk] <= x.at <= v.clock;
      assert x.at + p.cooldown < v.since[q];
    }
  }
}
