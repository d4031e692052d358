/** Who gets a group message when the relays agree on the group's host, its members and
    their homes; and what a crash between the host's queue and its SQL commit does. */
module GroupDelivery {
  import opened Common
  import opened GroupRouting

  /** The one relay whose own row makes it the host. */
  ghost predicate OneHost(net: Net, host: Relay) {
    forall r :: r in net.groups && HostAt(net, r) == r ==> r == host
  }

  /** Everyone the host's routing assigns to relay r. */
  function Expected(net: Net, host: Relay, r: Relay): set<Pubkey>
    requires host in net.groups
  {
    set pk | pk in net.groups[host].members && pk != net.sender && Route(net, host, pk) == r
  }

  ghost predicate Agree(net: Net, host: Relay) {
    && host in net.groups && net.sender in net.groups[host].members
    && (forall r :: r in net.groups ==>
          HostAt(net, r) == host && Elems(net.groups[r].members) == Elems(net.groups[host].members))
    && (forall pk :: pk in net.groups[host].members && pk != net.sender && Route(net, host, pk) != host ==>
          var to := Route(net, host, pk);
          to in net.groups && (to, pk) in net.directory && net.directory[(to, pk)] == to)
  }

  lemma ExpectedIsMembersAt(net: Net, host: Relay, r: Relay)
    requires host in net.groups
    ensures Elems(MembersAt(net, host, net.groups[host].members, r)) == Expected(net, host, r)
  {
    forall pk ensures pk in MembersAt(net, host, net.groups[host].members, r) <==> pk in Expected(net, host, r) {
      MembersAtIff(net, host, net.groups[host].members, r, pk);
    }
  }

  // ---- nobody is served twice ----

  ghost predicate Assigned(net: Net, host: Relay, w: World)
    requires host in net.groups
  {
    forall r, pk :: r in w.given && pk in w.given[r] ==> pk in Expected(net, host, r)
  }

  lemma StepAssigned(net: Net, host: Relay, w: World, step: Step)
    requires host in net.groups && OneHost(net, host) && Bounded(net, w) && Assigned(net, host, w)
    ensures Assigned(net, host, Apply(net, w, step))
  {
    ExpectedIsMembersAt(net, host, host);
    if step.Receive? && step.packet in w.wire && step.packet.Deliver? && step.packet.to in net.groups {
      var p := step.packet;
      ExpectedIsMembersAt(net, host, p.to);
      forall pk ensures pk in Served(net, p.to, p.recipients) ==> pk in Expected(net, host, p.to) {
        ServedIff(net, p.to, p.recipients, pk);
      }
    }
    hide MembersAt, Served, Expected, Deliveries;
  }

  lemma {:induction false} RunAssigned(net: Net, host: Relay, w: World, steps: seq<Step>)
    requires host in net.groups && OneHost(net, host) && Bounded(net, w) && Assigned(net, host, w)
    ensures Assigned(net, host, Run(net, w, steps))
    decreases |steps|
  {
    if steps != [] {
      StepAssigned(net, host, w, steps[0]);
      StepBounded(net, w, steps[0]);
      RunAssigned(net, host, Apply(net, w, steps[0]), steps[1..]);
    }
  }

  /** Under any repeats and reordering a member's copy appears at one relay only: the one the
      host has on record for that member, or the host if it has none. */
  lemma OneRelayPerMember(net: Net, host: Relay, steps: seq<Step>, r: Relay, pk: Pubkey)
    requires host in net.groups && OneHost(net, host)
    ensures pk in Given(Run(net, SILENT, steps), r) ==>
              && pk in net.groups[host].members && pk != net.sender
              && r == if (host, pk) in net.directory then net.directory[(host, pk)] else host
  {
    RunAssigned(net, host, SILENT, steps);
  }

  // ---- everybody is served ----

  predicate LosslessStep(w: World, step: Step) {
    match step
    case Send(o, full) => full == {}
    case Receive(p, full) => full == {}
    case Crash(r) => r !in w.open
    case _ => true
  }

  predicate Lossless(net: Net, w: World, steps: seq<Step>)
    decreases |steps|
  {
    steps == [] || (LosslessStep(w, steps[0]) && Lossless(net, Apply(net, w, steps[0]), steps[1..]))
  }

  ghost predicate Full(net: Net, host: Relay, w: World, r: Relay)
    requires host in net.groups
  {
    Expected(net, host, r) <= Given(w, r)
  }

  /** The packet for relay `to` is on the wire or about to be. */
  ghost predicate Addressed(w: World, host: Relay, to: Relay) {
    exists p: Packet :: p.Deliver? && p.to == to && (p in w.wire || (host in w.open && p in w.open[host]))
  }

  ghost predicate FannedOut(net: Net, host: Relay, w: World)
    requires host in net.groups
  {
    && Full(net, host, w, host)
    && (forall to :: to in Targets(net, host, net.groups[host].members) ==> Addressed(w, host, to))
  }

  ghost predicate OnItsWay(w: World) { exists p: Packet :: p in w.wire && p.ToHost? }

  ghost predicate Complete(net: Net, host: Relay, w: World)
    requires host in net.groups
  {
    && (forall p :: p in w.wire && p.ToHost? ==> p.to == host)
    && (forall r :: r in w.meta ==> if r == host then FannedOut(net, host, w) else Full(net, host, w, r))
    && (forall p :: p in w.handled ==> if p.ToHost? then FannedOut(net, host, w) else Full(net, host, w, p.to))
    && (w.sent ==> FannedOut(net, host, w) || OnItsWay(w))
    && (forall r :: r in w.open ==> r == host && forall p :: p in w.open[r] ==> p.Deliver?)
  }

  lemma LosslessGrows(net: Net, w: World, step: Step, r: Relay)
    requires LosslessStep(w, step)
    ensures var v := Apply(net, w, step);
            && w.wire <= v.wire && Given(w, r) <= Given(v, r)
            && (r in w.open ==> (r in v.open && w.open[r] == v.open[r]) || w.open[r] <= v.wire)
  {
    hide MembersAt, Served, Deliveries;
  }

  /** Nothing already achieved is undone as long as inboxes only gain and packets stay. */
  lemma LosslessKeeps(net: Net, host: Relay, w: World, step: Step)
    requires host in net.groups && LosslessStep(w, step)
    ensures var v := Apply(net, w, step);
            && (forall r :: Full(net, host, w, r) ==> Full(net, host, v, r))
            && (FannedOut(net, host, w) ==> FannedOut(net, host, v))
            && (OnItsWay(w) ==> OnItsWay(v))
  {
    var v := Apply(net, w, step);
    forall r ensures Given(w, r) <= Given(v, r) { LosslessGrows(net, w, step, r); }
    LosslessGrows(net, w, step, host);
    hide Apply, Targets, Expected;
    forall to | Addressed(w, host, to) ensures Addressed(v, host, to) {
      var p: Packet :| p.Deliver? && p.to == to && (p in w.wire || (host in w.open && p in w.open[host]));
      assert p in v.wire || (host in v.open && p in v.open[host]);
    }
    if OnItsWay(w) {
      var p: Packet :| p in w.wire && p.ToHost?;
      assert p in v.wire;
    }
  }

  lemma QueueForGives(w: World, r: Relay, rs: seq<Pubkey>)
    ensures Given(QueueFor(w, r, rs, {}), r) == Given(w, r) + Elems(rs)
  {
  }

  lemma FanOutCompletes(net: Net, host: Relay, w: World, hops: nat)
    requires host in net.groups
    ensures FannedOut(net, host, FanOut(net, w, host, hops, {}))
  {
    var v := FanOut(net, w, host, hops, {});
    var local := MembersAt(net, host, net.groups[host].members, host);
    ExpectedIsMembersAt(net, host, host);
    QueueForGives(w, host, local);
    forall to | to in Targets(net, host, net.groups[host].members) ensures Addressed(v, host, to) {
      var p := Deliver(host, to, MembersAt(net, host, net.groups[host].members, to), hops);
      assert p in v.open[host];
    }
  }

  /** A mirror serves the whole list it was sent. */
  lemma MirrorServesAll(net: Net, host: Relay, p: Packet)
    requires Agree(net, host) && p.Deliver? && PacketOk(net, p)
    ensures p.to in net.groups && HostAt(net, p.from) == p.from ==> p.from == host
    ensures p.to in net.groups ==> Elems(Served(net, p.to, p.recipients)) == Expected(net, host, p.to)
  {
    assert p.from == host;
    if p.to in net.groups {
      ExpectedIsMembersAt(net, host, p.to);
      assert forall pk :: pk in p.recipients <==> pk in Elems(p.recipients);
      assert forall pk :: pk in net.groups[p.to].members <==> pk in Elems(net.groups[p.to].members);
      assert forall pk :: pk in net.groups[host].members <==> pk in Elems(net.groups[host].members);
      forall pk ensures pk in Served(net, p.to, p.recipients) <==> pk in Expected(net, host, p.to) {
        ServedIff(net, p.to, p.recipients, pk);
      }
    }
  }

  lemma ReceiveCompletes(net: Net, host: Relay, w: World, p: Packet)
    requires Agree(net, host) && Bounded(net, w) && Complete(net, host, w) && p in w.wire
    requires p !in w.handled && p in DoReceive(net, w, p, {}).handled
    ensures var v := DoReceive(net, w, p, {});
            if p.ToHost? then FannedOut(net, host, v) else Full(net, host, v, p.to)
  {
    var v := DoReceive(net, w, p, {});
    if p.to in w.meta {
      LosslessKeeps(net, host, w, Receive(p, {}));
    } else if p.ToHost? {
      FanOutCompletes(net, host, w, p.hops + 1);
      var f := FanOut(net, w, host, p.hops + 1, {});
      assert FannedOut(net, host, f) && v == f.(handled := v.handled);
      assert forall to :: Addressed(f, host, to) ==> Addressed(v, host, to);
    } else {
      MirrorServesAll(net, host, p);
      QueueForGives(w, p.to, Served(net, p.to, p.recipients));
    }
  }

  lemma SendCompletes(net: Net, host: Relay, w: World, o: Relay)
    requires Agree(net, host)
    ensures o !in net.groups ==> DoSend(net, w, o, {}) == w
    ensures var v := DoSend(net, w, o, {});
            v == w || (if HostAt(net, o) == o then FannedOut(net, host, v) else OnItsWay(v))
  {
    var v := DoSend(net, w, o, {});
    if v != w {
      if HostAt(net, o) != o {
        assert ToHost(o, HostAt(net, o), 1) in v.wire;
      } else {
        FanOutCompletes(net, host, w, 1);
        var f := FanOut(net, w, host, 1, {});
        assert v == f.(sent := true);
        assert forall to :: Addressed(f, host, to) ==> Addressed(v, host, to);
      }
    }
  }

  /** Where metadata or an open fan-out can newly appear. */
  lemma NewMarks(net: Net, host: Relay, w: World, step: Step)
    requires Agree(net, host) && Bounded(net, w) && Complete(net, host, w) && LosslessStep(w, step)
    ensures var v := Apply(net, w, step);
            && (forall r :: r in v.meta && r !in w.meta ==>
                  (step.Send? && r == host && v != w && HostAt(net, step.origin) == step.origin)
                  || (step.Receive? && r == step.packet.to && step.packet in v.handled && step.packet in w.wire))
            && (forall p :: p in v.handled && p !in w.handled ==> step == Receive(p, {}) && p in w.wire)
            && (forall p :: p in v.wire && p.ToHost? ==> p.to == host)
            && (forall r :: r in v.open ==> r == host && forall p :: p in v.open[r] ==> p.Deliver?)
            && (v.sent && !w.sent ==> step.Send? && v != w)
  {
    hide MembersAt, Served, Targets, Expected, FannedOut, Full;
  }

  lemma StepComplete(net: Net, host: Relay, w: World, step: Step)
    requires Agree(net, host) && Bounded(net, w) && Complete(net, host, w) && LosslessStep(w, step)
    ensures Complete(net, host, Apply(net, w, step))
  {
    var v := Apply(net, w, step);
    LosslessKeeps(net, host, w, step);
    NewMarks(net, host, w, step);
    if step.Send? {
      SendCompletes(net, host, w, step.origin);
    } else if step.Receive? && step.packet in w.wire && step.packet in v.handled {
      if step.packet !in w.handled {
        ReceiveCompletes(net, host, w, step.packet);
      }
      assert step.packet.Deliver? ==> step.packet.to != host;
    }
    hide Apply, FannedOut, Full, OnItsWay;
  }

  lemma {:induction false} RunComplete(net: Net, host: Relay, w: World, steps: seq<Step>)
    requires Agree(net, host) && Bounded(net, w) && Complete(net, host, w) && Lossless(net, w, steps)
    ensures Complete(net, host, Run(net, w, steps)) && Bounded(net, Run(net, w, steps))
    decreases |steps|
  {
    if steps != [] {
      StepComplete(net, host, w, steps[0]);
      StepBounded(net, w, steps[0]);
      RunComplete(net, host, Apply(net, w, steps[0]), steps[1..]);
    }
  }

  /** Main theorem. Once a message was taken and every packet of it was handled at least once,
      each relay has given it to exactly the members the host assigns there: every member but
      the sender, each at one relay. */
  lemma EveryMemberServedAtOneRelay(net: Net, host: Relay, steps: seq<Step>, r: Relay)
    requires Agree(net, host) && Lossless(net, SILENT, steps)
    ensures var w := Run(net, SILENT, steps);
            w.sent && w.open == map[] && w.wire <= w.handled ==>
              && Given(w, r) == Expected(net, host, r)
              && forall pk :: pk in Given(w, r) <==>
                   && pk in net.groups[host].members && pk != net.sender
                   && r == if (host, pk) in net.directory then net.directory[(host, pk)] else host
  {
    var w := Run(net, SILENT, steps);
    RunComplete(net, host, SILENT, steps);
    RunAssigned(net, host, SILENT, steps);
    if w.sent && w.open == map[] && w.wire <= w.handled {
      assert FannedOut(net, host, w);
      if r != host {
        forall pk | pk in Expected(net, host, r) ensures pk in Given(w, r) {
          assert r in Targets(net, host, net.groups[host].members);
          assert Addressed(w, host, r);
          var p: Packet :| p in w.wire && p.Deliver? && p.to == r;
          assert Full(net, host, w, r);
        }
      }
    }
  }

  /** And no packet is ever turned away: one that meets no open fan-out is handled. */
  lemma AgreementNeverRefuses(net: Net, host: Relay, steps: seq<Step>, p: Packet)
    requires Agree(net, host) && Lossless(net, SILENT, steps)
    ensures var w := Run(net, SILENT, steps);
            p in w.wire && p.to !in w.open && (p.Deliver? ==> p.recipients != []) && p.to in net.groups ==>
              p in DoReceive(net, w, p, {}).handled
  {
    var w := Run(net, SILENT, steps);
    RunComplete(net, host, SILENT, steps);
    if p in w.wire && p.to in net.groups {
      assert forall pk :: pk in net.groups[p.to].members <==> pk in Elems(net.groups[p.to].members);
      assert forall pk :: pk in net.groups[host].members <==> pk in Elems(net.groups[host].members);
      if p.Deliver? && p.recipients != [] {
        MirrorServesAll(net, host, p);
        ExpectedIsMembersAt(net, host, p.to);
        assert p.recipients[0] in Elems(p.recipients);
        assert Served(net, p.to, p.recipients) != [];
      }
    }
  }

  // ---- a crash between the queue and the commit ----

  predicate NoForget(steps: seq<Step>, r: Relay) { forall k :: 0 <= k < |steps| ==> steps[k] != Forget(r) }

  predicate Starved(w: World, host: Relay) {
    host in w.meta && w.open == map[] && forall p :: p in w.wire ==> p.ToHost?
  }

  lemma {:induction false} StarvedRun(net: Net, host: Relay, w: World, steps: seq<Step>, r: Relay)
    requires OneHost(net, host) && Starved(w, host) && NoForget(steps, host) && r != host
    ensures Starved(Run(net, w, steps), host) && Given(Run(net, w, steps), r) == Given(w, r)
    decreases |steps|
  {
    if steps != [] {
      StarvedRun(net, host, Apply(net, w, steps[0]), steps[1..], r);
    }
  }

  /** If the host dies after queueing for its own members and before committing the outbound
      rows, its metadata makes every resend a duplicate: as long as that key lives no member
      elsewhere is ever served. */
  lemma CrashedFanOutStarvesRemotes(net: Net, host: Relay, steps: seq<Step>, r: Relay)
    requires OneHost(net, host) && host in net.groups && HostAt(net, host) == host
    requires net.sender in net.groups[host].members
    requires MembersAt(net, host, net.groups[host].members, host) != []
    requires NoForget(steps, host) && r != host
    ensures Given(Run(net, SILENT, [Send(host, {})] + ([Crash(host)] + steps)), r) == {}
  {
    var w1 := Apply(net, SILENT, Send(host, {}));
    var w2 := Apply(net, w1, Crash(host));
    assert ([Send(host, {})] + ([Crash(host)] + steps))[1..] == [Crash(host)] + steps;
    assert ([Crash(host)] + steps)[1..] == steps;
    assert w2.open == map[];
    StarvedRun(net, host, w2, steps, r);
  }

  lemma RunStep(net: Net, w: World, step: Step, rest: seq<Step>)
    ensures Run(net, w, [step] + rest) == Run(net, Apply(net, w, step), rest)
  {
    assert ([step] + rest)[1..] == rest;
  }

  lemma EmptyRun(net: Net, w: World)
    ensures Run(net, w, []) == w
  {
  }

  /** Without local recipients the crash leaves no trace but that a send was tried. */
  lemma CrashLeavesNothing(net: Net, host: Relay)
    requires host in net.groups && HostAt(net, host) == host
    requires MembersAt(net, host, net.groups[host].members, host) == []
    ensures var w := Apply(net, Apply(net, SILENT, Send(host, {})), Crash(host));
            w == SILENT || w == SILENT.(sent := true)
  {
    var w1 := Apply(net, SILENT, Send(host, {}));
    assert w1.open - {host} == map[];
  }

  /** A resend that is fanned out and committed puts relay r's packet on the wire; received,
      it serves all of r's members. */
  lemma ResendServes(net: Net, host: Relay, r: Relay, w: World)
    requires Agree(net, host) && r in Targets(net, host, net.groups[host].members)
    requires w == SILENT || w == SILENT.(sent := true)
    requires MembersAt(net, host, net.groups[host].members, host) == []
    ensures var p := Deliver(host, r, MembersAt(net, host, net.groups[host].members, r), 1);
            var v := Apply(net, Apply(net, Apply(net, w, Send(host, {})), Commit(host)), Receive(p, {}));
            Given(v, r) == Expected(net, host, r) != {}
  {
    var ms := net.groups[host].members;
    var p := Deliver(host, r, MembersAt(net, host, ms, r), 1);
    var w1 := Apply(net, w, Send(host, {}));
    assert w1.open == map[host := Deliveries(net, host, 1)] && w1.meta == {} && w1.given == map[];
    var w2 := Apply(net, w1, Commit(host));
    assert p in w2.wire && w2.open == map[];
    var pk :| pk in ms && pk != net.sender && Route(net, host, pk) != host && Route(net, host, pk) == r;
    assert pk in Expected(net, host, r);
    assert net.sender in Elems(net.groups[r].members);
    ExpectedIsMembersAt(net, host, r);
    assert PacketOk(net, p);
    MirrorServesAll(net, host, p);
    assert pk in Elems(Served(net, r, p.recipients));
    QueueForGives(w2, r, Served(net, r, p.recipients));
  }

  /** After such a crash relay r's members can still be served, without waiting for the host's
      key to go, exactly if the host had no local recipients and so wrote no key. */
  lemma ServedAfterCrashIff(net: Net, host: Relay, r: Relay)
    requires Agree(net, host) && r in Targets(net, host, net.groups[host].members)
    ensures (exists steps :: NoForget(steps, host) && GivenAfterCrash(net, host, steps, r) != {}) <==>
            MembersAt(net, host, net.groups[host].members, host) == []
  {
    var ms := net.groups[host].members;
    if MembersAt(net, host, ms, host) == [] {
      var p := Deliver(host, r, MembersAt(net, host, ms, r), 1);
      var w := Apply(net, Apply(net, SILENT, Send(host, {})), Crash(host));
      CrashLeavesNothing(net, host);
      ResendServes(net, host, r, w);
      hide Run, Apply, Expected;
      var steps := [Send(host, {})] + ([Commit(host)] + ([Receive(p, {})] + []));
      RunStep(net, SILENT, Send(host, {}), [Crash(host)] + steps);
      RunStep(net, Apply(net, SILENT, Send(host, {})), Crash(host), steps);
      RunStep(net, w, Send(host, {}), [Commit(host)] + ([Receive(p, {})] + []));
      RunStep(net, Apply(net, w, Send(host, {})), Commit(host), [Receive(p, {})] + []);
      RunStep(net, Apply(net, Apply(net, w, Send(host, {})), Commit(host)), Receive(p, {}), []);
      EmptyRun(net, Apply(net, Apply(net, Apply(net, w, Send(host, {})), Commit(host)), Receive(p, {})));
      assert NoForget(steps, host);
      assert GivenAfterCrash(net, host, steps, r) != {};
    } else {
      forall steps | NoForget(steps, host) ensures GivenAfterCrash(net, host, steps, r) == {} {
        CrashedFanOutStarvesRemotes(net, host, steps, r);
      }
    }
  }

  function GivenAfterCrash(net: Net, host: Relay, steps: seq<Step>, r: Relay): set<Pubkey> {
    Given(Run(net, SILENT, [Send(host, {})] + ([Crash(host)] + steps)), r)
  }
}
