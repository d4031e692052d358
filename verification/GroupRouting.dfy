/** One group message on its way: sent at some relay, handed to the group's host, fanned out
    to members' home relays. Packets may arrive any number of times and in any order. */
module GroupRouting {
  import opened Common

  type Pubkey = nat
  type Relay = nat

  /** A relay's own row for the group; no home_relay means "here". */
  datatype GroupRow = GroupRow(home: Option<Relay>, members: seq<Pubkey>)

  /** What the relays know: group rows, and the home each has on record for a user. */
  datatype Net = Net(groups: map<Relay, GroupRow>, directory: map<(Relay, Pubkey), Relay>, sender: Pubkey)

  function HostAt(net: Net, r: Relay): Relay
    requires r in net.groups
  {
    if net.groups[r].home.Some? then net.groups[r].home.value else r
  }

  /** Where relay r would send a member's copy: an unknown user counts as local. */
  function Route(net: Net, r: Relay, pk: Pubkey): Relay {
    if (r, pk) in net.directory then net.directory[(r, pk)] else r
  }

  /** The members, in order, whose copy relay r sends to relay `to`; the sender has none. */
  function MembersAt(net: Net, r: Relay, members: seq<Pubkey>, to: Relay): seq<Pubkey> {
    if members == [] then []
    else
      var (rest, pk) := (members[..|members| - 1], members[|members| - 1]);
      if pk != net.sender && Route(net, r, pk) == to
      then MembersAt(net, r, rest, to) + [pk]
      else MembersAt(net, r, rest, to)
  }

  function Targets(net: Net, r: Relay, members: seq<Pubkey>): set<Relay> {
    set pk | pk in members && pk != net.sender && Route(net, r, pk) != r :: Route(net, r, pk)
  }

  datatype Packet = ToHost(from: Relay, to: Relay, hops: nat) | Deliver(from: Relay, to: Relay, recipients: seq<Pubkey>, hops: nat)

  /** `meta` are the relays whose Redis has the envelope's metadata, `given` everyone an inbox
      ever took it for, `open` fan-outs whose outbound rows are not committed. */
  datatype World = World(
    wire: set<Packet>, meta: set<Relay>, given: map<Relay, set<Pubkey>>,
    open: map<Relay, set<Packet>>, handled: set<Packet>, sent: bool)

  const SILENT := World({}, {}, map[], map[], {}, false)

  function Given(w: World, r: Relay): set<Pubkey> { if r in w.given then w.given[r] else {} }

  datatype Step =
    | Send(origin: Relay, full: set<Pubkey>)
    | Receive(packet: Packet, full: set<Pubkey>)
    | Commit(r: Relay)
    | Crash(r: Relay)
    | Forget(r: Relay)

  function Deliveries(net: Net, r: Relay, hops: nat): set<Packet>
    requires r in net.groups
  {
    set to | to in Targets(net, r, net.groups[r].members) ::
      Deliver(r, to, MembersAt(net, r, net.groups[r].members, to), hops)
  }

  /** Queueing locally writes metadata whenever there is someone to queue for. */
  function QueueFor(w: World, r: Relay, recipients: seq<Pubkey>, full: set<Pubkey>): World {
    if recipients == [] then w
    else w.(meta := w.meta + {r}, given := w.given[r := Given(w, r) + (Elems(recipients) - full)])
  }

  /** Local members into Redis at once; the rows for other relays wait for the SQL commit. */
  function FanOut(net: Net, w: World, r: Relay, hops: nat, full: set<Pubkey>): World
    requires r in net.groups
  {
    var w1 := QueueFor(w, r, MembersAt(net, r, net.groups[r].members, r), full);
    w1.(open := w1.open[r := Deliveries(net, r, hops)])
  }

  function DoSend(net: Net, w: World, o: Relay, full: set<Pubkey>): World {
    if o !in net.groups || net.sender !in net.groups[o].members || o in w.meta || o in w.open then w
    else if HostAt(net, o) != o then w.(wire := w.wire + {ToHost(o, HostAt(net, o), 1)}, sent := true)
    else FanOut(net, w, o, 1, full).(sent := true)
  }

  predicate HostAccepts(net: Net, r: Relay) {
    r in net.groups && HostAt(net, r) == r && net.sender in net.groups[r].members
  }

  predicate MirrorAccepts(net: Net, p: Packet) {
    p.Deliver? && p.to in net.groups && HostAt(net, p.to) != p.to && HostAt(net, p.to) == p.from
    && net.sender in net.groups[p.to].members
  }

  /** Only local members of the group are served, in the list's order. */
  function Served(net: Net, r: Relay, recipients: seq<Pubkey>): seq<Pubkey>
    requires r in net.groups
  {
    if recipients == [] then []
    else
      var (rest, pk) := (recipients[..|recipients| - 1], recipients[|recipients| - 1]);
      if (r, pk) in net.directory && net.directory[(r, pk)] == r && pk in net.groups[r].members
      then Served(net, r, rest) + [pk]
      else Served(net, r, rest)
  }

  function DoReceive(net: Net, w: World, p: Packet, full: set<Pubkey>): World {
    if p !in w.wire || p.to in w.open then w
    else if p.to in w.meta then w.(handled := w.handled + {p})
    else if p.ToHost? then
      if HostAccepts(net, p.to) then FanOut(net, w, p.to, p.hops + 1, full).(handled := w.handled + {p}) else w
    else if MirrorAccepts(net, p) && Served(net, p.to, p.recipients) != [] then
      QueueFor(w, p.to, Served(net, p.to, p.recipients), full).(handled := w.handled + {p})
    else w
  }

  function Apply(net: Net, w: World, step: Step): World {
    match step
    case Send(o, full) => DoSend(net, w, o, full)
    case Receive(p, full) => DoReceive(net, w, p, full)
    case Commit(r) => if r in w.open then w.(wire := w.wire + w.open[r], open := w.open - {r}) else w
    case Crash(r) => w.(open := w.open - {r})
    case Forget(r) => w.(meta := w.meta - {r})
  }

  function Run(net: Net, w: World, steps: seq<Step>): World
    decreases |steps|
  {
    if steps == [] then w else Run(net, Apply(net, w, steps[0]), steps[1..])
  }

  // ---- the routing function ----

  lemma {:induction false} MembersAtIff(net: Net, r: Relay, members: seq<Pubkey>, to: Relay, pk: Pubkey)
    ensures pk in MembersAt(net, r, members, to) <==> pk in members && pk != net.sender && Route(net, r, pk) == to
    ensures Route(net, r, pk) == if (r, pk) in net.directory then net.directory[(r, pk)] else r
  {
    if members != [] {
      var n := |members| - 1;
      MembersAtIff(net, r, members[..n], to, pk);
      assert members == members[..n] + [members[n]];
    }
  }

  lemma {:induction false} MembersAtNoDup(net: Net, r: Relay, members: seq<Pubkey>, to: Relay)
    requires NoDup(members)
    ensures NoDup(MembersAt(net, r, members, to))
  {
    if members != [] {
      var n := |members| - 1;
      MembersAtNoDup(net, r, members[..n], to);
      MembersAtIff(net, r, members[..n], to, members[n]);
    }
  }

  lemma {:induction false} ServedIff(net: Net, r: Relay, recipients: seq<Pubkey>, pk: Pubkey)
    requires r in net.groups
    ensures pk in Served(net, r, recipients) <==>
            pk in recipients && (r, pk) in net.directory && net.directory[(r, pk)] == r && pk in net.groups[r].members
  {
    if recipients != [] {
      var n := |recipients| - 1;
      ServedIff(net, r, recipients[..n], pk);
      assert recipients == recipients[..n] + [recipients[n]];
    }
  }

  // ---- whatever the relays believe ----

  /** A packet is a first hop to a host, or a list of members other than the sender. */
  predicate PacketOk(net: Net, p: Packet) {
    match p
    case ToHost(from, to, hops) => hops == 1
    case Deliver(from, to, rs, hops) =>
      1 <= hops <= 2 && from in net.groups && HostAt(net, from) == from && to != from
      && rs == MembersAt(net, from, net.groups[from].members, to)
  }

  ghost predicate Bounded(net: Net, w: World) {
    && (forall p :: p in w.wire ==> PacketOk(net, p))
    && (forall r, p :: r in w.open && p in w.open[r] ==> PacketOk(net, p))
    && (forall r :: r in w.given ==> r in net.groups && net.sender in net.groups[r].members && net.sender !in w.given[r])
    && (forall r, pk :: r in w.given && pk in w.given[r] ==>
          pk in net.groups[r].members && ((r, pk) in net.directory ==> net.directory[(r, pk)] == r))
  }

  lemma DeliveriesOk(net: Net, r: Relay, hops: nat)
    requires r in net.groups && HostAt(net, r) == r && 1 <= hops <= 2
    ensures forall p :: p in Deliveries(net, r, hops) ==> PacketOk(net, p)
  {
  }

  lemma FanOutBounded(net: Net, w: World, r: Relay, hops: nat, full: set<Pubkey>)
    requires Bounded(net, w) && r in net.groups && HostAt(net, r) == r && 1 <= hops <= 2
    requires net.sender in net.groups[r].members
    ensures Bounded(net, FanOut(net, w, r, hops, full))
  {
    DeliveriesOk(net, r, hops);
    var local := MembersAt(net, r, net.groups[r].members, r);
    forall pk ensures pk in local <==> pk in net.groups[r].members && pk != net.sender && Route(net, r, pk) == r {
      MembersAtIff(net, r, net.groups[r].members, r, pk);
    }
    hide PacketOk, Deliveries, MembersAt;
  }

  lemma MirrorBounded(net: Net, w: World, p: Packet, full: set<Pubkey>)
    requires Bounded(net, w) && p in w.wire && MirrorAccepts(net, p)
    ensures Bounded(net, QueueFor(w, p.to, Served(net, p.to, p.recipients), full))
  {
    forall pk
      ensures pk in Served(net, p.to, p.recipients) ==> pk in net.groups[p.to].members && pk != net.sender
                                                        && (p.to, pk) in net.directory && net.directory[(p.to, pk)] == p.to
    {
      ServedIff(net, p.to, p.recipients, pk);
      MembersAtIff(net, p.from, net.groups[p.from].members, p.to, pk);
    }
    hide PacketOk, Served;
  }

  lemma StepBounded(net: Net, w: World, step: Step)
    requires Bounded(net, w)
    ensures Bounded(net, Apply(net, w, step))
  {
    var v := Apply(net, w, step);
    match step {
      case Send(o, full) =>
        if o in net.groups && HostAt(net, o) == o && net.sender in net.groups[o].members { FanOutBounded(net, w, o, 1, full); }
      case Receive(p, full) =>
        if p in w.wire && p.to !in w.open && p.to !in w.meta {
          if p.ToHost? && HostAccepts(net, p.to) {
            FanOutBounded(net, w, p.to, p.hops + 1, full);
          } else if MirrorAccepts(net, p) {
            MirrorBounded(net, w, p, full);
          }
        }
      case _ =>
    }
    hide FanOut, QueueFor, Served, PacketOk;
  }

  lemma {:induction false} RunBounded(net: Net, w: World, steps: seq<Step>)
    requires Bounded(net, w)
    ensures Bounded(net, Run(net, w, steps))
    decreases |steps|
  {
    if steps != [] {
      StepBounded(net, w, steps[0]);
      RunBounded(net, Apply(net, w, steps[0]), steps[1..]);
    }
  }

  /** Even when directories and mirrors disagree: no copy crosses more than two relay hops,
      the sender gets none, and a relay gives one only if its own row lists the sender, and
      only to members of that row whom its own directory places at no other relay. */
  lemma TwoHopsAtMost(net: Net, steps: seq<Step>)
    ensures var w := Run(net, SILENT, steps);
            && (forall p :: p in w.wire ==> p.hops <= 2)
            && (forall r :: net.sender !in Given(w, r))
            && (forall r, pk :: pk in Given(w, r) ==>
                  && r in net.groups && net.sender in net.groups[r].members && pk in net.groups[r].members
                  && ((r, pk) in net.directory ==> net.directory[(r, pk)] == r))
  {
    RunBounded(net, SILENT, steps);
  }

  // ---- what one step does, member by member ----

  /** A fan-out gives a copy to every member its directory does not place elsewhere, save the
      sender and those with a full inbox, and has one packet for each other relay. */
  lemma FanOutLeaves(net: Net, w: World, r: Relay, hops: nat, full: set<Pubkey>, pk: Pubkey)
    requires r in net.groups
    ensures var v := FanOut(net, w, r, hops, full);
            && (pk in Given(v, r) <==>
                  || pk in Given(w, r)
                  || (&& pk in net.groups[r].members && pk != net.sender && pk !in full
                      && ((r, pk) in net.directory ==> net.directory[(r, pk)] == r)))
            && (forall q :: q != r ==> Given(v, q) == Given(w, q))
            && r in v.open && v.open - {r} == w.open - {r} && v.wire == w.wire
            && (forall p :: p in v.open[r] ==> p.Deliver? && p.from == r && p.hops == hops && p.to != r)
            && (forall p, q :: p in v.open[r] && q in v.open[r] && p.to == q.to ==> p == q)
            && (forall p :: p in v.open[r] ==>
                  (pk in p.recipients <==> pk in net.groups[r].members && pk != net.sender
                                           && (r, pk) in net.directory && net.directory[(r, pk)] == p.to))
    ensures var v := FanOut(net, w, r, hops, full);
            pk in net.groups[r].members && pk != net.sender && (r, pk) in net.directory && net.directory[(r, pk)] != r ==>
              exists p :: p in v.open[r] && p.to == net.directory[(r, pk)]
  {
    var ms := net.groups[r].members;
    MembersAtIff(net, r, ms, r, pk);
    var v := FanOut(net, w, r, hops, full);
    forall p | p in v.open[r]
      ensures pk in p.recipients <==> pk in ms && pk != net.sender && (r, pk) in net.directory && net.directory[(r, pk)] == p.to
    {
      MembersAtIff(net, r, ms, p.to, pk);
    }
    if pk in ms && pk != net.sender && (r, pk) in net.directory && net.directory[(r, pk)] != r {
      var to := net.directory[(r, pk)];
      assert to in Targets(net, r, ms) by { assert Route(net, r, pk) == to; }
      assert Deliver(r, to, MembersAt(net, r, ms, to), hops) in v.open[r];
    }
    hide MembersAt, Targets;
  }

  /** A host fans a forwarded message out exactly if its own row makes it the host and lists
      the sender. */
  lemma HostServesIff(net: Net, w: World, p: Packet, full: set<Pubkey>)
    requires p in w.wire && p.ToHost? && p.to !in w.open && p.to !in w.meta
    ensures var v := DoReceive(net, w, p, full);
            if p.to in net.groups && net.groups[p.to].home in {None, Some(p.to)} && net.sender in net.groups[p.to].members
            then v == FanOut(net, w, p.to, p.hops + 1, full).(handled := w.handled + {p}) else v == w
  {
    hide FanOut;
  }

  /** A mirror gives a copy to every listed recipient that is a local member with room, exactly
      if the packet comes from the host its own row names and the sender is a member. */
  lemma MirrorServesIff(net: Net, w: World, p: Packet, full: set<Pubkey>, pk: Pubkey)
    requires p in w.wire && p.Deliver? && p.to !in w.open && p.to !in w.meta
    ensures var v := DoReceive(net, w, p, full);
            && (pk in Given(v, p.to) <==>
                  || pk in Given(w, p.to)
                  || (&& p.to in net.groups && net.groups[p.to].home == Some(p.from) && p.from != p.to
                      && net.sender in net.groups[p.to].members
                      && pk in p.recipients && pk in net.groups[p.to].members && pk !in full
                      && (p.to, pk) in net.directory && net.directory[(p.to, pk)] == p.to))
            && (forall q :: q != p.to ==> Given(v, q) == Given(w, q))
            && v.open == w.open && v.wire == w.wire
  {
    if p.to in net.groups {
      ServedIff(net, p.to, p.recipients, pk);
    }
    hide Served;
  }
}
