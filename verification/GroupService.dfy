/** The host's fan-out and the mirror's delivery as loops that fill lists and dictionaries. */
module GroupService {
  import opened Common
  import opened GroupRouting

  /** remote_by_relay: one list per relay that has members, in member order. */
  function ByRelay(net: Net, r: Relay, members: seq<Pubkey>): map<Relay, seq<Pubkey>> {
    map to | to in Targets(net, r, members) :: MembersAt(net, r, members, to)
  }

  lemma ByRelayNext(net: Net, r: Relay, members: seq<Pubkey>, pk: Pubkey)
    ensures var to := Route(net, r, pk);
            ByRelay(net, r, members + [pk]) ==
            if pk == net.sender || to == r then ByRelay(net, r, members)
            else ByRelay(net, r, members)[to := (if to in ByRelay(net, r, members) then ByRelay(net, r, members)[to] else []) + [pk]]
  {
    var longer := members + [pk];
    var to := Route(net, r, pk);
    assert longer[..|members|] == members;
    TargetsNext(net, r, members, pk);
    if to !in Targets(net, r, members) && to != r {
      forall x ensures x !in MembersAt(net, r, members, to) {
        MembersAtIff(net, r, members, to, x);
      }
      if MembersAt(net, r, members, to) != [] {
        HasFirst(MembersAt(net, r, members, to));
      }
    }
  }

  lemma HasFirst<T>(s: seq<T>)
    requires s != []
    ensures exists x :: x in s
  {
    assert s[0] in s;
  }

  lemma TargetsNext(net: Net, r: Relay, members: seq<Pubkey>, pk: Pubkey)
    ensures Targets(net, r, members + [pk]) ==
            if pk == net.sender || Route(net, r, pk) == r then Targets(net, r, members)
            else Targets(net, r, members) + {Route(net, r, pk)}
  {
    var longer := members + [pk];
    forall x | x in Targets(net, r, longer)
      ensures x in Targets(net, r, members) || (x == Route(net, r, pk) && pk != net.sender && x != r)
    {
      if y :| y in longer && y != net.sender && Route(net, r, y) != r && Route(net, r, y) == x {
        assert y in members || y == pk;
      }
      assert pk in longer && forall y :: y in members ==> y in longer;
    }
  }

  /** Every member but the sender is in exactly one of the lists, once if the rows are distinct. */
  lemma ListsPartitionMembers(net: Net, r: Relay, members: seq<Pubkey>, pk: Pubkey)
    requires pk in members && pk != net.sender
    ensures var to := Route(net, r, pk);
            && (to != r ==> to in ByRelay(net, r, members))
            && pk in MembersAt(net, r, members, to)
            && forall x :: x != to ==> pk !in MembersAt(net, r, members, x)
    ensures forall to :: to in ByRelay(net, r, members) ==> ByRelay(net, r, members)[to] != [] && to != r
    ensures NoDup(members) ==> forall to :: to in ByRelay(net, r, members) ==> NoDup(ByRelay(net, r, members)[to])
  {
    var to := Route(net, r, pk);
    forall x ensures pk in MembersAt(net, r, members, x) <==> x == to {
      MembersAtIff(net, r, members, x, pk);
    }
    forall t | t in ByRelay(net, r, members)
      ensures ByRelay(net, r, members)[t] != [] && t != r
      ensures NoDup(members) ==> NoDup(ByRelay(net, r, members)[t])
    {
      var y :| y in members && y != net.sender && Route(net, r, y) != r && Route(net, r, y) == t;
      MembersAtIff(net, r, members, t, y);
      if NoDup(members) {
        MembersAtNoDup(net, r, members, t);
      }
    }
  }

  class GroupRelay {
    const net: Net
    const self: Relay
    /** Everyone an inbox here took the envelope for, whether its metadata is there, and the
        outbound rows for it by target. */
    var given: set<Pubkey>
    var hasMeta: bool
    var outbound: map<Relay, seq<Pubkey>>

    constructor (net: Net, self: Relay)
      requires self in net.groups
      ensures this.net == net && this.self == self && given == {} && !hasMeta && outbound == map[]
    {
      this.net, this.self, given, hasMeta, outbound := net, self, {}, false, map[];
    }

    method EnqueueForRecipients(recipients: seq<Pubkey>, full: set<Pubkey>) returns (count: nat)
      requires recipients != [] && NoDup(recipients)
      modifies this`given, this`hasMeta
      ensures given == old(given) + (Elems(recipients) - full) && hasMeta
      ensures count == |Elems(recipients) - full|
    {
      hide *;
      ghost var was := given;
      count := 0;
      TakenNone(recipients, full);
      for i := 0 to |recipients|
        invariant given == was + Taken(recipients[..i], full) && count == |Taken(recipients[..i], full)|
      {
        TakenNext(recipients, i, full);
        if recipients[i] !in full {
          given := given + {recipients[i]};
          count := count + 1;
        }
      }
      assert recipients[..|recipients|] == recipients;
      TakenAre(recipients, full);
      hasMeta := true;
    }

    method SplitByHome(members: seq<Pubkey>) returns (local: seq<Pubkey>, remote: map<Relay, seq<Pubkey>>)
      ensures local == MembersAt(net, self, members, self) && remote == ByRelay(net, self, members)
    {
      local, remote := [], map[];
      for i := 0 to |members|
        invariant local == MembersAt(net, self, members[..i], self)
        invariant remote == ByRelay(net, self, members[..i])
      {
        var pk := members[i];
        assert members[..i + 1] == members[..i] + [pk];
        assert (members[..i] + [pk])[..i] == members[..i];
        ByRelayNext(net, self, members[..i], pk);
        if pk != net.sender {
          var home := Route(net, self, pk);
          if home == self {
            local := local + [pk];
          } else {
            remote := remote[home := (if home in remote then remote[home] else []) + [pk]];
          }
        }
      }
      assert members[..|members|] == members;
    }

    /** Local members are queued, and each other relay with members gets one row unless it
        already has one for this envelope. */
    method DoGroupFanout(full: set<Pubkey>) returns (localCount: nat, relays: nat, remoteCount: nat, skipped: bool)
      requires self in net.groups && NoDup(net.groups[self].members)
      modifies this
      ensures var local := MembersAt(net, self, net.groups[self].members, self);
              && given == old(given) + Taken(local, full)
              && (hasMeta <==> old(hasMeta) || local != [])
              && localCount == |Taken(local, full)| && (skipped <==> Elems(local) * full != {})
      ensures var remote := ByRelay(net, self, net.groups[self].members);
              outbound == remote + old(outbound) && relays == |remote|
      ensures localCount + remoteCount + |Elems(MembersAt(net, self, net.groups[self].members, self)) * full| ==
              |Elems(net.groups[self].members) - {net.sender}|
    {
      hide *;
      var members := net.groups[self].members;
      var local, remote := SplitByHome(members);
      MembersAtNoDup(net, self, members, self);
      LocalSize(local, full);
      localCount := 0;
      if local != [] {
        TakenAre(local, full);
        localCount := EnqueueForRecipients(local, full);
      }
      skipped := localCount < |local|;
      remoteCount := AddRows(members, remote);
      relays := |remote|;
      EveryoneCounted(net, self, members, local, full);
    }

    /** The loop over remote_by_relay. */
    method AddRows(members: seq<Pubkey>, remote: map<Relay, seq<Pubkey>>) returns (count: nat)
      requires NoDup(members) && remote == ByRelay(net, self, members)
      modifies this`outbound
      ensures outbound == remote + old(outbound)
      ensures count == |AtRelays(net, self, members, Targets(net, self, members))|
    {
      hide *;
      var todo := remote.Keys;
      ghost var done: set<Relay> := {};
      ghost var was := outbound;
      RowsStart(net, self, members, remote, was);
      count := 0;
      while todo != {}
        invariant todo + done == remote.Keys && todo !! done
        invariant outbound == Rows(remote, done, was)
        invariant count == |AtRelays(net, self, members, done)|
        decreases todo
      {
        var to :| to in todo;
        RowsNext(remote, done, was, to);
        RowIsList(net, self, members, remote, to);
        AtRelaysPlus(net, self, members, done, to);
        if to !in outbound {
          outbound := outbound[to := remote[to]];
        }
        count := count + |remote[to]|;
        todo, done := todo - {to}, done + {to};
      }
      RowsEnd(net, self, members, remote, done, was);
    }
  }

  /** Whom the inboxes take the envelope for. */
  function Taken(recipients: seq<Pubkey>, full: set<Pubkey>): set<Pubkey> { Elems(recipients) - full }

  lemma TakenAre(recipients: seq<Pubkey>, full: set<Pubkey>)
    ensures Taken(recipients, full) == Elems(recipients) - full
  {
  }

  /** Member by member: who is queued here, and whose copy goes in which relay's row. */
  lemma ListsByDirectory(net: Net, r: Relay, members: seq<Pubkey>, full: set<Pubkey>, pk: Pubkey)
    ensures pk in Taken(MembersAt(net, r, members, r), full) <==>
              && pk in members && pk != net.sender && pk !in full
              && ((r, pk) in net.directory ==> net.directory[(r, pk)] == r)
    ensures var remote := ByRelay(net, r, members);
            && (forall to :: to in remote && pk in remote[to] ==>
                  pk in members && pk != net.sender && (r, pk) in net.directory && net.directory[(r, pk)] == to && to != r)
            && (pk in members && pk != net.sender && (r, pk) in net.directory && net.directory[(r, pk)] != r ==>
                  net.directory[(r, pk)] in remote && pk in remote[net.directory[(r, pk)]])
  {
    var remote := ByRelay(net, r, members);
    MembersAtIff(net, r, members, r, pk);
    forall to | to in remote && pk in remote[to]
      ensures pk in members && pk != net.sender && (r, pk) in net.directory && net.directory[(r, pk)] == to && to != r
    {
      MembersAtIff(net, r, members, to, pk);
    }
    if pk in members && pk != net.sender && (r, pk) in net.directory && net.directory[(r, pk)] != r {
      MembersAtIff(net, r, members, net.directory[(r, pk)], pk);
      assert Route(net, r, pk) in Targets(net, r, members);
    }
    hide MembersAt, Targets;
  }

  lemma TakenNone(recipients: seq<Pubkey>, full: set<Pubkey>)
    ensures Taken(recipients[..0], full) == {}
  {
  }

  lemma TakenNext(recipients: seq<Pubkey>, i: nat, full: set<Pubkey>)
    requires i < |recipients| && NoDup(recipients)
    ensures var (a, b) := (Taken(recipients[..i], full), Taken(recipients[..i + 1], full));
            && b == (if recipients[i] in full then a else a + {recipients[i]})
            && |b| == |a| + if recipients[i] in full then 0 else 1
  {
    assert recipients[..i + 1] == recipients[..i] + [recipients[i]];
    assert Taken(recipients[..i + 1], full) ==
           if recipients[i] in full then Taken(recipients[..i], full) else Taken(recipients[..i], full) + {recipients[i]};
    assert recipients[i] !in recipients[..i];
  }

  lemma LocalSize(local: seq<Pubkey>, full: set<Pubkey>)
    requires NoDup(local)
    ensures |Taken(local, full)| + |Elems(local) * full| == |local|
    ensures |Taken(local, full)| < |local| <==> Elems(local) * full != {}
    ensures local == [] ==> Taken(local, full) == {}
  {
    NoDupSize(local);
    SplitSize(Elems(local), full);
  }

  /** The outbound rows once some relays of the dictionary were seen: older rows stay. */
  function Rows(remote: map<Relay, seq<Pubkey>>, done: set<Relay>, was: map<Relay, seq<Pubkey>>): map<Relay, seq<Pubkey>> {
    (map to | to in done && to in remote :: remote[to]) + was
  }

  lemma RowsStart(net: Net, r: Relay, members: seq<Pubkey>, remote: map<Relay, seq<Pubkey>>, was: map<Relay, seq<Pubkey>>)
    ensures Rows(remote, {}, was) == was && AtRelays(net, r, members, {}) == {}
  {
  }

  lemma RowsNext(remote: map<Relay, seq<Pubkey>>, done: set<Relay>, was: map<Relay, seq<Pubkey>>, to: Relay)
    requires to in remote && to !in done
    ensures Rows(remote, done + {to}, was) ==
            if to in Rows(remote, done, was) then Rows(remote, done, was) else Rows(remote, done, was)[to := remote[to]]
  {
  }

  lemma RowIsList(net: Net, r: Relay, members: seq<Pubkey>, remote: map<Relay, seq<Pubkey>>, to: Relay)
    requires remote == ByRelay(net, r, members) && to in remote
    ensures remote[to] == MembersAt(net, r, members, to)
  {
  }

  lemma RowsEnd(net: Net, r: Relay, members: seq<Pubkey>, remote: map<Relay, seq<Pubkey>>, done: set<Relay>,
                was: map<Relay, seq<Pubkey>>)
    requires remote == ByRelay(net, r, members) && done == remote.Keys
    ensures Rows(remote, done, was) == remote + was && done == Targets(net, r, members)
  {
    assert (map to | to in done && to in remote :: remote[to]) == remote;
  }

  lemma SplitSize(a: set<Pubkey>, b: set<Pubkey>)
    ensures |a - b| + |a * b| == |a|
    ensures |a - b| < |a| <==> a * b != {}
  {
    assert a == (a - b) + a * b;
  }

  /** The members that the lists for some relays reach. */
  function AtRelays(net: Net, r: Relay, members: seq<Pubkey>, rs: set<Relay>): set<Pubkey> {
    set pk | pk in members && pk != net.sender && Route(net, r, pk) in rs
  }

  lemma AtRelaysPlus(net: Net, r: Relay, members: seq<Pubkey>, rs: set<Relay>, to: Relay)
    requires NoDup(members) && to !in rs
    ensures |AtRelays(net, r, members, rs + {to})| ==
            |AtRelays(net, r, members, rs)| + |MembersAt(net, r, members, to)|
  {
    var list := MembersAt(net, r, members, to);
    ListElems(net, r, members, to);
    MembersAtNoDup(net, r, members, to);
    NoDupSize(list);
    hide MembersAt, NoDup;
    assert AtRelays(net, r, members, rs + {to}) == AtRelays(net, r, members, rs) + AtRelays(net, r, members, {to});
    assert AtRelays(net, r, members, rs) !! AtRelays(net, r, members, {to});
  }

  lemma ListElems(net: Net, r: Relay, members: seq<Pubkey>, to: Relay)
    ensures Elems(MembersAt(net, r, members, to)) == AtRelays(net, r, members, {to})
  {
    forall pk ensures pk in MembersAt(net, r, members, to) <==> pk in AtRelays(net, r, members, {to}) {
      MembersAtIff(net, r, members, to, pk);
    }
  }

  /** Every member but the sender is queued here, skipped for a full inbox, or sent on. */
  lemma EveryoneCounted(net: Net, r: Relay, members: seq<Pubkey>, local: seq<Pubkey>, full: set<Pubkey>)
    requires local == MembersAt(net, r, members, r)
    ensures |Taken(local, full)| + |Elems(local) * full| + |AtRelays(net, r, members, Targets(net, r, members))| ==
            |Elems(members) - {net.sender}|
  {
    var remote := AtRelays(net, r, members, Targets(net, r, members));
    ListElems(net, r, members, r);
    SplitSize(Elems(local), full);
    assert Elems(local) !! remote;
    assert Elems(local) + remote == Elems(members) - {net.sender};
  }
}
