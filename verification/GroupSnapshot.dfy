/** A group as its host serializes it and as a mirror relay upserts it. */
module GroupSnapshot {
  import opened Common

  type Pubkey = nat
  type Relay = nat

  const PROTOCOL_MAX_MEMBERS: nat := 200
  const GROUP_NAME_MAX_BYTES: nat := 2048
  const MAX_TTL_SECONDS := 30 * 86400

  datatype Member = Member(isAdmin: bool, joinedAt: int)

  datatype Group = Group(
    creator: Pubkey, name: seq<nat>, isChannel: bool, ttl: int, slug: Option<string>, expiresAt: Option<int>,
    anonymous: bool, maxMembers: int, home: Option<Relay>, members: map<Pubkey, Member>)

  /** A member of the payload: a key that is not 32 bytes of hex reads as None. */
  datatype Entry = Entry(pubkey: Option<Pubkey>, isAdmin: Option<bool>, joinedAt: Option<int>)

  /** The payload: what may be missing is optional. */
  datatype Snapshot = Snapshot(
    creator: Option<Pubkey>, name: Option<seq<nat>>, isChannel: Option<bool>, ttl: Option<int>, slug: Option<string>,
    expiresAt: Option<int>, anonymous: Option<bool>, maxMembers: Option<int>, members: seq<Entry>)

  datatype Result<T> = Ok(value: T) | Err(status: int)

  function Or<T>(o: Option<T>, d: T): T { if o.Some? then o.value else d }

  predicate WellFormed(s: Snapshot) {
    && s.creator.Some?
    && s.name.Some? && |s.name.value| <= GROUP_NAME_MAX_BYTES
    && 1 <= Or(s.maxMembers, 50) <= PROTOCOL_MAX_MEMBERS
    && |s.members| <= PROTOCOL_MAX_MEMBERS
    && 0 < Or(s.ttl, 86400) <= MAX_TTL_SECONDS
  }

  /** The dictionary the entries build: later entries win, unreadable ones are passed over. */
  function Listed(entries: seq<Entry>): map<Pubkey, Entry> {
    if entries == [] then map[]
    else
      var (rest, m) := (Listed(entries[..|entries| - 1]), entries[|entries| - 1]);
      if m.pubkey.Some? then rest[m.pubkey.value := m] else rest
  }

  function Upserted(m: Entry, prior: Option<Member>, now: int): Member {
    if prior.Some? then prior.value.(isAdmin := Or(m.isAdmin, prior.value.isAdmin))
    else Member(Or(m.isAdmin, false), Or(m.joinedAt, now))
  }

  function Find(members: map<Pubkey, Member>, pk: Pubkey): Option<Member> {
    if pk in members then Some(members[pk]) else None
  }

  function Reconciled(prior: map<Pubkey, Member>, listed: map<Pubkey, Entry>, now: int): map<Pubkey, Member> {
    map pk | pk in listed :: Upserted(listed[pk], Find(prior, pk), now)
  }

  function Created(s: Snapshot, peer: Relay): Group
    requires WellFormed(s)
  {
    Group(s.creator.value, s.name.value, Or(s.isChannel, false), Or(s.ttl, 86400), s.slug, s.expiresAt,
          Or(s.anonymous, false), Or(s.maxMembers, 50), Some(peer), map[])
  }

  function Updated(g: Group, s: Snapshot, peer: Relay): Group {
    g.(home := if g.home.Some? then g.home else Some(peer),
       isChannel := Or(s.isChannel, g.isChannel), ttl := Or(s.ttl, g.ttl),
       anonymous := Or(s.anonymous, g.anonymous), maxMembers := Or(s.maxMembers, g.maxMembers))
  }

  /** `peer` is the verified sender of the push, or the relay a pull was sent to. */
  function Apply(row: Option<Group>, s: Snapshot, peer: Option<Relay>, now: int): Result<Group> {
    if peer.None? || !WellFormed(s) then Err(400)
    else if row.Some? && row.value.home.Some? && row.value.home != peer then Err(403)
    else
      var base := if row.None? then Created(s, peer.value) else Updated(row.value, s, peer.value);
      Ok(base.(members := Reconciled(base.members, Listed(s.members), now)))
  }

  /** The members in the order the host's query returned them. */
  function Entries(g: Group, order: seq<Pubkey>): seq<Entry>
    requires forall k :: 0 <= k < |order| ==> order[k] in g.members
  {
    seq(|order|, k requires 0 <= k < |order| =>
      Entry(Some(order[k]), Some(g.members[order[k]].isAdmin), Some(g.members[order[k]].joinedAt)))
  }

  function Serialize(g: Group, order: seq<Pubkey>): Snapshot
    requires forall k :: 0 <= k < |order| ==> order[k] in g.members
  {
    Snapshot(Some(g.creator), Some(g.name), Some(g.isChannel), Some(g.ttl), g.slug, g.expiresAt,
             Some(g.anonymous), Some(g.maxMembers), Entries(g, order))
  }

  predicate WithinProtocol(g: Group) {
    && |g.name| <= GROUP_NAME_MAX_BYTES && 1 <= g.maxMembers <= PROTOCOL_MAX_MEMBERS
    && |g.members| <= PROTOCOL_MAX_MEMBERS && 0 < g.ttl <= MAX_TTL_SECONDS
  }

  function Roles(members: map<Pubkey, Member>): map<Pubkey, bool> { map pk | pk in members :: members[pk].isAdmin }

  // ---- the dictionary ----

  lemma {:induction false} ListedSize(entries: seq<Entry>)
    ensures |Listed(entries)| <= |entries|
  {
    if entries != [] {
      var (rest, m) := (entries[..|entries| - 1], entries[|entries| - 1]);
      ListedSize(rest);
      if m.pubkey.Some? {
        var d := Listed(rest);
        SubsetSize(d[m.pubkey.value := m].Keys, d.Keys + {m.pubkey.value});
        assert |d[m.pubkey.value := m]| == |d[m.pubkey.value := m].Keys| && |d| == |d.Keys|;
      }
    }
  }

  lemma {:induction false} ListedEntry(entries: seq<Entry>, pk: Pubkey)
    ensures pk in Listed(entries) <==> exists k :: 0 <= k < |entries| && entries[k].pubkey == Some(pk)
    ensures pk in Listed(entries) ==> Listed(entries)[pk] in entries && Listed(entries)[pk].pubkey == Some(pk)
  {
    if entries != [] {
      var n := |entries| - 1;
      ListedEntry(entries[..n], pk);
      assert entries == entries[..n] + [entries[n]];
    }
  }

  // ---- properties of one application ----

  /** Applying the same snapshot again, at any later time, changes nothing. */
  lemma ApplyIsIdempotent(row: Option<Group>, s: Snapshot, peer: Option<Relay>, now: int, later: int)
    ensures var once := Apply(row, s, peer, now);
            once.Ok? ==> Apply(Some(once.value), s, peer, later) == once
  {
    var once := Apply(row, s, peer, now);
    if once.Ok? {
      var g := once.value;
      assert Reconciled(g.members, Listed(s.members), later) == g.members;
    }
  }

  /** An accepted push comes from the recorded host or finds none, and records its sender. */
  lemma AcceptedIff(row: Option<Group>, s: Snapshot, peer: Option<Relay>, now: int)
    ensures Apply(row, s, peer, now).Ok? <==>
            peer.Some? && WellFormed(s) && (row.None? || row.value.home.None? || row.value.home == peer)
    ensures Apply(row, s, peer, now).Ok? ==> Apply(row, s, peer, now).value.home == peer
    ensures Apply(row, s, peer, now).Err? ==>
              (Apply(row, s, peer, now).status == 403 <==> peer.Some? && WellFormed(s))
    ensures Apply(row, s, peer, now).Err? ==> Apply(row, s, peer, now).status in {400, 403}
    ensures WellFormed(s) <==>
              && s.creator.Some? && s.name.Some? && |s.name.value| <= 2048 && |s.members| <= 200
              && (s.maxMembers.Some? ==> 1 <= s.maxMembers.value <= 200)
              && (s.ttl.Some? ==> 0 < s.ttl.value <= 2592000)
  {
  }

  /** The entry listed for a key is its last in the payload. */
  lemma {:induction false} LastEntryWins(entries: seq<Entry>, k: nat, pk: Pubkey)
    requires k < |entries| && entries[k].pubkey == Some(pk)
    requires forall j :: k < j < |entries| ==> entries[j].pubkey != Some(pk)
    ensures pk in Listed(entries) && Listed(entries)[pk] == entries[k]
  {
    var n := |entries| - 1;
    if k < n {
      LastEntryWins(entries[..n], k, pk);
    }
  }

  /** Who is a member after an accepted push, since when, and as what: the payload's last entry
      for a key decides, a member already there keeps joined_at and, if the entry is silent, the
      role; a new one joins as the entry says, or now and as no admin. */
  lemma MembersAfter(row: Option<Group>, s: Snapshot, peer: Option<Relay>, now: int, pk: Pubkey)
    ensures var r := Apply(row, s, peer, now);
            r.Ok? ==>
              && (pk in r.value.members <==> exists k :: 0 <= k < |s.members| && s.members[k].pubkey == Some(pk))
              && (forall k :: 0 <= k < |s.members| && s.members[k].pubkey == Some(pk)
                              && (forall j :: k < j < |s.members| ==> s.members[j].pubkey != Some(pk)) ==>
                    var (m, e) := (r.value.members[pk], s.members[k]);
                    if row.Some? && pk in row.value.members then
                      && m.joinedAt == row.value.members[pk].joinedAt
                      && m.isAdmin == if e.isAdmin.Some? then e.isAdmin.value else row.value.members[pk].isAdmin
                    else
                      && m.joinedAt == (if e.joinedAt.Some? then e.joinedAt.value else now)
                      && m.isAdmin == (e.isAdmin == Some(true)))
  {
    var r := Apply(row, s, peer, now);
    if r.Ok? {
      ListedEntry(s.members, pk);
      forall k | 0 <= k < |s.members| && s.members[k].pubkey == Some(pk)
                 && (forall j :: k < j < |s.members| ==> s.members[j].pubkey != Some(pk))
        ensures pk in Listed(s.members) && Listed(s.members)[pk] == s.members[k]
      {
        LastEntryWins(s.members, k, pk);
      }
    }
    hide Listed, WellFormed;
  }

  /** And the row's own fields: a new row takes the payload's, or the defaults; an existing one
      only the four settings the payload names, and keeps creator, name, slug and expiry. */
  lemma FieldsAfter(row: Option<Group>, s: Snapshot, peer: Option<Relay>, now: int)
    ensures var r := Apply(row, s, peer, now);
            r.Ok? && row.None? ==>
              && Some(r.value.creator) == s.creator && Some(r.value.name) == s.name
              && r.value.slug == s.slug && r.value.expiresAt == s.expiresAt
              && r.value.isChannel == (s.isChannel == Some(true)) && r.value.anonymous == (s.anonymous == Some(true))
              && r.value.ttl == (if s.ttl.Some? then s.ttl.value else 86400)
              && r.value.maxMembers == if s.maxMembers.Some? then s.maxMembers.value else 50
    ensures var r := Apply(row, s, peer, now);
            r.Ok? && row.Some? ==>
              && r.value.creator == row.value.creator && r.value.name == row.value.name
              && r.value.slug == row.value.slug && r.value.expiresAt == row.value.expiresAt
              && r.value.isChannel == (if s.isChannel.Some? then s.isChannel.value else row.value.isChannel)
              && r.value.anonymous == (if s.anonymous.Some? then s.anonymous.value else row.value.anonymous)
              && r.value.ttl == (if s.ttl.Some? then s.ttl.value else row.value.ttl)
              && r.value.maxMembers == if s.maxMembers.Some? then s.maxMembers.value else row.value.maxMembers
  {
  }

  lemma SizeBound(row: Option<Group>, s: Snapshot, peer: Option<Relay>, now: int)
    ensures var r := Apply(row, s, peer, now); r.Ok? ==> |r.value.members| <= 200
  {
    var r := Apply(row, s, peer, now);
    if r.Ok? {
      ListedSize(s.members);
      assert r.value.members.Keys == Listed(s.members).Keys;
      assert |r.value.members| == |r.value.members.Keys| && |Listed(s.members)| == |Listed(s.members).Keys|;
    }
  }

  /** A member who was there and stays keeps the mirror's joined_at. */
  lemma RetainedKeepJoinedAt(row: Option<Group>, s: Snapshot, peer: Option<Relay>, now: int, pk: Pubkey)
    ensures var r := Apply(row, s, peer, now);
            r.Ok? && row.Some? && pk in row.value.members && pk in r.value.members ==>
              r.value.members[pk].joinedAt == row.value.members[pk].joinedAt
  {
  }

  // ---- serializing and applying ----

  predicate InOrder(g: Group, order: seq<Pubkey>) { NoDup(order) && Elems(order) == g.members.Keys }

  predicate AllListed(order: seq<Pubkey>, g: Group) { forall k :: 0 <= k < |order| ==> order[k] in g.members }

  lemma OrderListed(g: Group, order: seq<Pubkey>)
    requires InOrder(g, order)
    ensures AllListed(order, g) && |order| == |g.members|
  {
    forall k | 0 <= k < |order| ensures order[k] in g.members {
      assert order[k] in Elems(order);
    }
    NoDupSize(order);
  }

  lemma SerializedEntry(g: Group, order: seq<Pubkey>, pk: Pubkey)
    requires InOrder(g, order) && AllListed(order, g)
    ensures pk in Listed(Entries(g, order)) <==> pk in g.members
    ensures pk in g.members ==>
              Listed(Entries(g, order))[pk] == Entry(Some(pk), Some(g.members[pk].isAdmin), Some(g.members[pk].joinedAt))
  {
    var es := Entries(g, order);
    ListedEntry(es, pk);
    if pk in g.members {
      assert pk in Elems(order);
      var k :| 0 <= k < |order| && order[k] == pk;
      assert es[k].pubkey == Some(pk);
    }
    if pk in Listed(es) {
      var k :| 0 <= k < |es| && es[k] == Listed(es)[pk];
      assert es[k].pubkey == Some(order[k]);
      assert order[k] in Elems(order);
    }
  }

  /** A serialized group is accepted exactly when it is within the protocol's bounds. */
  lemma SerializedIsWellFormed(g: Group, order: seq<Pubkey>)
    requires InOrder(g, order) && AllListed(order, g)
    ensures WellFormed(Serialize(g, order)) <==> WithinProtocol(g)
    ensures WithinProtocol(g) <==>
            |g.name| <= 2048 && 1 <= g.maxMembers <= 200 && |g.members| <= 200 && 0 < g.ttl <= 2592000
  {
    OrderListed(g, order);
  }

  /** Whatever the mirror held before, an accepted serialized snapshot leaves it with the
      host's members, admins and mutable settings. */
  lemma MirrorsHost(row: Option<Group>, host: Group, order: seq<Pubkey>, peer: Option<Relay>, now: int)
    requires InOrder(host, order) && AllListed(order, host)
    ensures var r := Apply(row, Serialize(host, order), peer, now);
            r.Ok? ==>
              && Roles(r.value.members) == Roles(host.members)
              && r.value.isChannel == host.isChannel && r.value.ttl == host.ttl
              && r.value.anonymous == host.anonymous && r.value.maxMembers == host.maxMembers
  {
    var r := Apply(row, Serialize(host, order), peer, now);
    if r.Ok? {
      forall pk
        ensures pk in r.value.members <==> pk in host.members
        ensures pk in host.members ==> r.value.members[pk].isAdmin == host.members[pk].isAdmin
      {
        SerializedEntry(host, order, pk);
      }
    }
  }

  /** A new mirror row is the host's row in every field; the host is the verified sender. */
  lemma NewMirrorIsCopy(host: Group, order: seq<Pubkey>, peer: Relay, now: int)
    requires InOrder(host, order) && AllListed(order, host) && WithinProtocol(host)
    ensures Apply(None, Serialize(host, order), Some(peer), now) == Ok(host.(home := Some(peer)))
  {
    SerializedIsWellFormed(host, order);
    var r := Apply(None, Serialize(host, order), Some(peer), now);
    forall pk
      ensures pk in r.value.members <==> pk in host.members
      ensures pk in host.members ==> r.value.members[pk] == host.members[pk]
    {
      SerializedEntry(host, order, pk);
    }
    assert r.value.members == host.members;
  }

  /** Name, slug and expiry travel in every snapshot, but an existing row takes none of them:
      it agrees with the host after the push exactly if it did before. */
  lemma NameFollowsHostIff(g: Group, host: Group, order: seq<Pubkey>, peer: Option<Relay>, now: int)
    requires InOrder(host, order) && AllListed(order, host)
    ensures var r := Apply(Some(g), Serialize(host, order), peer, now);
            r.Ok? ==> (r.value.name == host.name && r.value.slug == host.slug && r.value.expiresAt == host.expiresAt
                       <==> g.name == host.name && g.slug == host.slug && g.expiresAt == host.expiresAt)
  {
  }

  // ---- runs ----

  datatype Push = Push(snapshot: Snapshot, peer: Option<Relay>, now: int)

  /** Pushes as they arrive: a refused one leaves the row alone. */
  function Run(row: Option<Group>, pushes: seq<Push>): Option<Group>
    decreases |pushes|
  {
    if pushes == [] then row
    else
      var before := Run(row, pushes[..|pushes| - 1]);
      var p := pushes[|pushes| - 1];
      var r := Apply(before, p.snapshot, p.peer, p.now);
      if r.Ok? then Some(r.value) else before
  }

  /** Once a home relay is recorded no run of pushes changes it, and a row a push ever
      touched has at most the protocol's number of members. */
  lemma {:induction false} HomeNeverChanges(row: Option<Group>, pushes: seq<Push>)
    requires row.Some? ==> |row.value.members| <= PROTOCOL_MAX_MEMBERS
    ensures row.Some? && row.value.home.Some? ==>
              Run(row, pushes).Some? && Run(row, pushes).value.home == row.value.home
    ensures Run(row, pushes).Some? ==> |Run(row, pushes).value.members| <= PROTOCOL_MAX_MEMBERS
    decreases |pushes|
  {
    if pushes != [] {
      HomeNeverChanges(row, pushes[..|pushes| - 1]);
      var p := pushes[|pushes| - 1];
      SizeBound(Run(row, pushes[..|pushes| - 1]), p.snapshot, p.peer, p.now);
    }
  }

  /** A push of a host state that the row would accept. */
  predicate HostPush(p: Push, host: Group, order: seq<Pubkey>) {
    InOrder(host, order) && AllListed(order, host) && p.snapshot == Serialize(host, order)
  }

  predicate Accepts(row: Option<Group>, p: Push) { Apply(row, p.snapshot, p.peer, p.now).Ok? }

  predicate AllRefused(row: Option<Group>, pushes: seq<Push>)
    decreases |pushes|
  {
    pushes == [] || (!Accepts(row, pushes[0]) && AllRefused(row, pushes[1..]))
  }

  lemma {:induction false} RunFrom(row: Option<Group>, first: Push, rest: seq<Push>)
    ensures Run(row, [first] + rest) == Run(Run(row, [first]), rest)
    decreases |rest|
  {
    assert [first][..0] == [];
    if rest != [] {
      var n := |rest| - 1;
      RunFrom(row, first, rest[..n]);
      assert ([first] + rest)[..|rest|] == [first] + rest[..n];
    } else {
      assert [first] + rest == [first];
    }
  }

  lemma {:induction false} RefusedRun(row: Option<Group>, pushes: seq<Push>)
    requires AllRefused(row, pushes)
    ensures Run(row, pushes) == row
    decreases |pushes|
  {
    if pushes != [] {
      assert pushes == [pushes[0]] + pushes[1..];
      RunFrom(row, pushes[0], pushes[1..]);
      assert [pushes[0]][..0] == [];
      assert Run(row, [pushes[0]]) == row;
      RefusedRun(row, pushes[1..]);
    }
  }

  /** Membership and admins are those of the host state in the last accepted snapshot,
      whatever came before it and whatever was refused after it. */
  lemma LastAcceptedDecides(row: Option<Group>, before: seq<Push>, p: Push, after: seq<Push>, host: Group, order: seq<Pubkey>)
    requires HostPush(p, host, order) && Accepts(Run(row, before), p)
    requires AllRefused(Run(Run(row, before), [p]), after)
    ensures var g := Run(Run(Run(row, before), [p]), after);
            g.Some? && Roles(g.value.members) == Roles(host.members)
  {
    RefusedRun(Run(Run(row, before), [p]), after);
    assert [p][..0] == [];
    MirrorsHost(Run(row, before), host, order, p.peer, p.now);
  }

  /** Nothing compares snapshot times: a push that was delayed past a newer one takes the
      mirror back, unless the host has the same members and admins at both moments. */
  lemma DelayedPushWinsIff(row: Option<Group>, newer: Push, older: Push, hostNow: Group, hostThen: Group,
                           orderNow: seq<Pubkey>, orderThen: seq<Pubkey>)
    requires HostPush(newer, hostNow, orderNow) && HostPush(older, hostThen, orderThen)
    requires Accepts(row, newer) && newer.peer == older.peer && WithinProtocol(hostThen)
    ensures var g := Run(Run(row, [newer]), [older]);
            g.Some? && (Roles(g.value.members) == Roles(hostNow.members) <==> Roles(hostThen.members) == Roles(hostNow.members))
  {
    assert [newer][..0] == [] && [older][..0] == [];
    var g1 := Run(row, [newer]);
    AcceptedIff(row, newer.snapshot, newer.peer, newer.now);
    SerializedIsWellFormed(hostThen, orderThen);
    AcceptedIff(g1, older.snapshot, older.peer, older.now);
    MirrorsHost(g1, hostThen, orderThen, older.peer, older.now);
  }

  // ---- the upsert in place ----

  lemma ListedNext(entries: seq<Entry>, k: nat)
    requires k < |entries|
    ensures Listed(entries[..k + 1]) ==
            var d := Listed(entries[..k]);
            if entries[k].pubkey.Some? then d[entries[k].pubkey.value := entries[k]] else d
  {
    assert entries[..k + 1][..k] == entries[..k];
  }

  /** The table halfway: the keys in `gone` were examined for removal. */
  function Removed(prior: map<Pubkey, Member>, listed: map<Pubkey, Entry>, seen: set<Pubkey>): map<Pubkey, Member> {
    map pk | pk in prior && !(pk in seen && pk !in listed) :: prior[pk]
  }

  /** Then: the listed keys in `seen` were added or updated. */
  function Upserting(prior: map<Pubkey, Member>, listed: map<Pubkey, Entry>, seen: set<Pubkey>, now: int): map<Pubkey, Member> {
    map pk | pk in listed && (pk in seen || pk in prior) ::
      if pk in seen then Upserted(listed[pk], Find(prior, pk), now) else prior[pk]
  }

  lemma RemovedNext(prior: map<Pubkey, Member>, listed: map<Pubkey, Entry>, seen: set<Pubkey>, pk: Pubkey)
    requires pk in prior
    ensures Removed(prior, listed, seen + {pk}) ==
            if pk in listed then Removed(prior, listed, seen) else Removed(prior, listed, seen) - {pk}
  {
  }

  lemma UpsertingNext(prior: map<Pubkey, Member>, listed: map<Pubkey, Entry>, seen: set<Pubkey>, pk: Pubkey, now: int)
    requires pk in listed && pk !in seen
    ensures Upserting(prior, listed, seen + {pk}, now) ==
            Upserting(prior, listed, seen, now)[pk := Upserted(listed[pk], Find(prior, pk), now)]
    ensures Find(Upserting(prior, listed, seen, now), pk) == Find(prior, pk)
  {
  }

  lemma UpsertEnds(prior: map<Pubkey, Member>, listed: map<Pubkey, Entry>, now: int)
    ensures Removed(prior, listed, {}) == prior
    ensures Removed(prior, listed, prior.Keys) == Upserting(prior, listed, {}, now)
    ensures Upserting(prior, listed, listed.Keys, now) == Reconciled(prior, listed, now)
  {
  }

  class Mirror {
    var clock: int
    var groups: map<nat, Group>

    constructor (now: int)
      ensures groups == map[] && clock == now
    {
      clock, groups := now, map[];
    }

    function Row(gid: nat): Option<Group>
      reads this
    {
      if gid in groups then Some(groups[gid]) else None
    }

    method ListMembers(entries: seq<Entry>) returns (listed: map<Pubkey, Entry>)
      ensures listed == Listed(entries)
    {
      listed := map[];
      for k := 0 to |entries|
        invariant listed == Listed(entries[..k])
      {
        ListedNext(entries, k);
        if entries[k].pubkey.Some? {
          listed := listed[entries[k].pubkey.value := entries[k]];
        }
      }
      assert entries[..|entries|] == entries;
    }

    /** Removals, then additions and updates, one row at a time. */
    method ReconcileMembers(prior: map<Pubkey, Member>, listed: map<Pubkey, Entry>) returns (members: map<Pubkey, Member>)
      ensures members == Reconciled(prior, listed, clock)
    {
      hide *;
      members := prior;
      UpsertEnds(prior, listed, clock);
      var todo, seen := prior.Keys, {};
      while todo != {}
        invariant todo + seen == prior.Keys && todo !! seen
        invariant members == Removed(prior, listed, seen)
        decreases todo
      {
        var pk :| pk in todo;
        RemovedNext(prior, listed, seen, pk);
        if pk !in listed {
          members := members - {pk};
        }
        todo, seen := todo - {pk}, seen + {pk};
      }
      assert seen == prior.Keys;
      todo, seen := listed.Keys, {};
      while todo != {}
        invariant todo + seen == listed.Keys && todo !! seen
        invariant members == Upserting(prior, listed, seen, clock)
        decreases todo
      {
        var pk :| pk in todo;
        UpsertingNext(prior, listed, seen, pk, clock);
        members := members[pk := Upserted(listed[pk], Find(members, pk), clock)];
        todo, seen := todo - {pk}, seen + {pk};
      }
      assert seen == listed.Keys;
    }

    method ApplyGroupSnapshot(gid: nat, s: Snapshot, peer: Option<Relay>) returns (r: Result<Group>)
      modifies this`groups
      ensures r == Apply(old(Row(gid)), s, peer, clock)
      ensures groups == if r.Ok? then old(groups)[gid := r.value] else old(groups)
    {
      if peer.None? {
        return Err(400);
      }
      if !WellFormed(s) {
        return Err(400);
      }
      var group;
      if gid !in groups {
        group := Created(s, peer.value);
      } else {
        group := groups[gid];
        if group.home.Some? && group.home != peer {
          return Err(403);
        }
        group := Updated(group, s, peer.value);
      }
      var listed := ListMembers(s.members);
      var members := ReconcileMembers(group.members, listed);
      group := group.(members := members);
      groups := groups[gid := group];
      return Ok(group);
    }
  }
}
