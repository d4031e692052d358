/** The methods of RelayStore are schedules of EnvelopeMachine, and what they promise alone. */
module QueueSchedules {
  import opened Common
  import opened QueueKeys
  import opened EnvelopeMachine
  import opened QueueService

  lemma ScriptEffect(k: Keys, r: Pubkey, now: int, e: EnvelopeId, x: int)
    ensures var (k', ok) := InboxScript(k, r, now, e, x);
            && (forall q :: q != r ==> Inbox(k', q) == Inbox(k, q))
            && (e !in Inbox(k, r) ==> (e in Inbox(k', r) <==> ok))
            && (!ok ==> |Inbox(k', r)| >= MAX_INBOX_QUEUE_DEPTH)
            && k' == k.(inboxes := k'.inboxes, inboxExp := k'.inboxExp)
  {
  }

  /** Who got a row in a fan-out of an envelope new to every inbox: exactly the recipients that
      hold it afterwards, each counted once; whoever was skipped had a full inbox. */
  lemma {:induction false} InsertAllExact(k: Keys, e: EnvelopeId, rs: seq<Pubkey>, now: int, x: int)
    requires NoDup(rs) && (forall r :: e !in Inbox(k, r))
    ensures var (k', el) := InsertAll(k, e, rs, now, x);
            && NoDup(el) && Elems(el) <= Elems(rs)
            && (forall r :: e in Inbox(k', r) <==> r in el)
            && (forall r :: r in rs && r !in el ==> |Inbox(k', r)| >= MAX_INBOX_QUEUE_DEPTH)
    decreases |rs|
  {
    if rs != [] {
      hide Inbox, InboxScript;
      var n := |rs| - 1;
      InsertAllExact(k, e, rs[..n], now, x);
      var (k1, el) := InsertAll(k, e, rs[..n], now, x);
      var (k2, ok) := InboxScript(k1, rs[n], now, e, x);
      var el' := if ok then el + [rs[n]] else el;
      assert InsertAll(k, e, rs, now, x) == (k2, el');
      assert rs[n] !in Elems(rs[..n]) && rs[n] !in Elems(el);
      ScriptEffect(k1, rs[n], now, e, x);
      assert forall r :: r in rs ==> r == rs[n] || r in rs[..n];
      forall r | r in el' ensures r in Elems(rs) {
        assert r == rs[n] || r in Elems(el);
      }
    }
  }

  /** The reported count is the number of inboxes that hold the message. */
  lemma FanOutCountsHolders(k: Keys, e: EnvelopeId, o: Order)
    requires o.WellFormed() && (forall r :: e !in Inbox(k, r))
    ensures var (k', _, count) := FanOut(k, e, o);
            count == |set r | r in Elems(o.recipients) && e in Inbox(k', r)|
  {
    hide InsertAll;
    var now, x := k.clock, o.ExpiresAt(k.clock);
    if x > now {
      var k1 := SetMeta(k, e, o, now, x);
      assert forall r :: Inbox(k1, r) == Inbox(k, r);
      InsertAllExact(k1, e, o.recipients, now, x);
      var (k2, el) := InsertAll(k1, e, o.recipients, now, x);
      NoDupSize(el);
      var k' := Register(k2, e, o, el, now, x);
      assert k'.inboxes == k2.inboxes;
      assert forall r :: Inbox(k', r) == Inbox(k2, r);
      assert (set r | r in Elems(o.recipients) && e in Inbox(k', r)) == Elems(el);
    } else {
      assert (set r | r in Elems(o.recipients) && e in Inbox(k, r)) == {};
    }
  }

  /** A refused insertion only prunes the one inbox. */
  lemma RefusedScript(k: Keys, r: Pubkey, now: int, e: EnvelopeId, x: int)
    requires !InboxScript(k, r, now, e, x).1
    ensures var k' := InboxScript(k, r, now, e, x).0;
            && k' == k.(inboxes := k'.inboxes, inboxExp := k'.inboxExp)
            && (forall q :: Inbox(k', q) == if q == r then Pruned(Inbox(k, r), now) else Inbox(k, q))
  {
    hide Pruned;
  }

  /** A rejected DM with a fresh id changes nothing but expired rows of the addressee. */
  lemma RejectedDmLeavesStore(k: Keys, e: EnvelopeId, o: Order)
    requires o.to.Direct? && e !in k.metas && e !in k.blobs && WriteThenEnqueue(k, e, o).1.Rejected?
    ensures var k' := WriteThenEnqueue(k, e, o).0;
            && k'.metas == k.metas && k'.blobs == k.blobs && k'.pendings == k.pendings
            && k'.index == k.index && k'.tombs == k.tombs
            && (forall r :: r != o.to.pubkey ==> Inbox(k', r) == Inbox(k, r))
            && (Inbox(k', o.to.pubkey) == Inbox(k, o.to.pubkey)
                || Inbox(k', o.to.pubkey) == Pruned(Inbox(k, o.to.pubkey), k.clock))
  {
    hide InboxScript, Pruned, Register;
    assert k.blobs + {e} - {e} == k.blobs;
    var (now, x, r) := (k.clock, o.ExpiresAt(k.clock), o.to.pubkey);
    var k1 := SetMeta(WriteBlob(k, e), e, o, now, x);
    assert k1.metas - {e} == k.metas;
    if now < x {
      RefusedScript(k1, r, now, e, x);
      var k2 := InboxScript(k1, r, now, e, x).0;
      assert WriteThenEnqueue(k, e, o).0 == Unlink(DropMeta(k2, e), e);
      assert Inbox(k1, r) == Inbox(k, r);
      assert forall q :: Inbox(Unlink(DropMeta(k2, e), e), q) == Inbox(k2, q);
      assert forall q :: Inbox(k1, q) == Inbox(k, q);
    }
  }

  function At(k: Keys): State { INIT.(k := k) }

  function DmSchedule(k: Keys, e: EnvelopeId, o: Order): seq<Step>
    requires o.to.Direct?
  {
    match WriteThenEnqueue(k, e, o).1
    case Queued(_) => [BeginSend(e, o), Capture(e), StoreMeta(e), Insert(e), Close(e)]
    case Duplicate => []
    case Rejected(s) =>
      if s == 400 then [BeginSend(e, o), Capture(e), CleanBlob(e)]
      else [BeginSend(e, o), Capture(e), StoreMeta(e), Insert(e), CleanMeta(e), CleanBlob(e)]
  }

  lemma Run3(s: State, a: Step, b: Step, c: Step, rest: seq<Step>)
    ensures Run(s, [a, b, c] + rest) == Run(Apply(Apply(Apply(s, a), b), c), rest)
  {
    RunCons(s, a, [b, c] + rest);
    RunCons(Apply(s, a), b, [c] + rest);
    RunCons(Apply(Apply(s, a), b), c, rest);
    assert [a, b, c] + rest == [a] + ([b, c] + rest) && [b, c] + rest == [b] + ([c] + rest);
  }

  lemma RunOne(s: State, a: Step)
    ensures Run(s, [a]) == Apply(s, a)
  {
    RunAppend(s, [], a);
    assert [] + [a] == [a];
  }

  function Begun(k: Keys, e: EnvelopeId, o: Order): State {
    var x := o.ExpiresAt(k.clock);
    At(WriteBlob(k, e)).(sends := map[e := Send(o, k.clock, x, if x > k.clock then Captured else if o.to.Direct? then DroppingBlob else Refused)])
  }

  lemma BeginTwo(k: Keys, e: EnvelopeId, o: Order)
    requires o.WellFormed()
    ensures Apply(Apply(At(k), BeginSend(e, o)), Capture(e)) == Begun(k, e, o)
  {
    var s1 := At(WriteBlob(k, e)).(sends := map[e := Send(o, 0, 0, BlobWritten)]);
    assert Apply(At(k), BeginSend(e, o)) == s1;
    assert s1.sends[e := Send(o, k.clock, o.ExpiresAt(k.clock), Begun(k, e, o).sends[e].phase)] == Begun(k, e, o).sends;
  }

  function Inserting0(k: Keys, e: EnvelopeId, o: Order): State {
    Begun(k, e, o).(k := SetMeta(WriteBlob(k, e), e, o, k.clock, o.ExpiresAt(k.clock)),
                    sends := map[e := Send(o, k.clock, o.ExpiresAt(k.clock), Inserting(0, []))])
  }

  lemma StoreThird(k: Keys, e: EnvelopeId, o: Order)
    requires o.ExpiresAt(k.clock) > k.clock && (o.to.Direct? ==> e !in k.metas)
    ensures Apply(Begun(k, e, o), StoreMeta(e)) == Inserting0(k, e, o)
  {
    var d := Begun(k, e, o).sends[e].(phase := Inserting(0, []));
    assert Begun(k, e, o).sends[e := d] == map[e := d];
  }

  lemma InsertFourth(k: Keys, e: EnvelopeId, o: Order)
    requires o.WellFormed() && o.to.Direct?
    ensures var s3, s4 := Inserting0(k, e, o), Apply(Inserting0(k, e, o), Insert(e));
            var (k2, ok) := InboxScript(s3.k, o.to.pubkey, k.clock, e, o.ExpiresAt(k.clock));
            && s4.k == k2 && e in s4.sends && s4.sends[e].order == o && s4.sends[e].now == k.clock
            && s4.sends[e].expiresAt == o.ExpiresAt(k.clock)
            && s4.sends[e].phase == if ok then Inserting(1, [o.to.pubkey]) else DroppingMeta
  {
    assert o.recipients[0] == o.to.pubkey;
  }

  lemma RunAfterInsert(k: Keys, e: EnvelopeId, o: Order, rest: seq<Step>)
    requires o.WellFormed() && o.to.Direct? && o.ExpiresAt(k.clock) > k.clock && e !in k.metas
    ensures Run(At(k), [BeginSend(e, o), Capture(e), StoreMeta(e)] + ([Insert(e)] + rest)) ==
            Run(Apply(Inserting0(k, e, o), Insert(e)), rest)
  {
    BeginTwo(k, e, o);
    StoreThird(k, e, o);
    Run3(At(k), BeginSend(e, o), Capture(e), StoreMeta(e), [Insert(e)] + rest);
    RunCons(Inserting0(k, e, o), Insert(e), rest);
  }

  lemma AcceptedResult(k: Keys, e: EnvelopeId, o: Order)
    requires o.WellFormed() && o.to.Direct? && e !in k.metas && WriteThenEnqueue(k, e, o).1.Queued?
    ensures o.ExpiresAt(k.clock) > k.clock
    ensures var s4 := Apply(Inserting0(k, e, o), Insert(e));
            Apply(s4, Close(e)).k == WriteThenEnqueue(k, e, o).0
  {
    hide Register, InboxScript;
    InsertFourth(k, e, o);
  }

  lemma AcceptedSchedule(k: Keys, e: EnvelopeId, o: Order)
    requires o.WellFormed() && o.to.Direct? && e !in k.metas && WriteThenEnqueue(k, e, o).1.Queued?
    ensures Run(At(k), DmSchedule(k, e, o)).k == WriteThenEnqueue(k, e, o).0
  {
    hide Run, WriteThenEnqueue, Apply;
    AcceptedResult(k, e, o);
    RunAfterInsert(k, e, o, [Close(e)]);
    assert DmSchedule(k, e, o) == [BeginSend(e, o), Capture(e), StoreMeta(e)] + ([Insert(e)] + [Close(e)]);
    RunOne(Apply(Inserting0(k, e, o), Insert(e)), Close(e));
  }

  lemma FullSchedule(k: Keys, e: EnvelopeId, o: Order)
    requires o.WellFormed() && o.to.Direct? && e !in k.metas && WriteThenEnqueue(k, e, o).1 == Rejected(429)
    ensures Run(At(k), DmSchedule(k, e, o)).k == WriteThenEnqueue(k, e, o).0
  {
    RunAfterInsert(k, e, o, [CleanMeta(e), CleanBlob(e)]);
    assert DmSchedule(k, e, o) == [BeginSend(e, o), Capture(e), StoreMeta(e)] + ([Insert(e)] + [CleanMeta(e), CleanBlob(e)]);
    InsertFourth(k, e, o);
    var s4 := Apply(Inserting0(k, e, o), Insert(e));
    assert [CleanMeta(e), CleanBlob(e)] == [CleanMeta(e)] + [CleanBlob(e)];
    RunAppend(s4, [CleanMeta(e)], CleanBlob(e));
    RunAppend(s4, [], CleanMeta(e));
  }

  /** Undisturbed, the method is one schedule of the machine. */
  lemma DmSendIsOneSchedule(k: Keys, e: EnvelopeId, o: Order)
    requires o.WellFormed() && o.to.Direct? && e !in k.metas
    ensures Run(At(k), DmSchedule(k, e, o)).k == WriteThenEnqueue(k, e, o).0
  {
    match WriteThenEnqueue(k, e, o).1
    case Queued(_) => AcceptedSchedule(k, e, o);
    case Duplicate =>
    case Rejected(s) =>
      if s == 400 {
        BeginTwo(k, e, o);
        Run3(At(k), BeginSend(e, o), Capture(e), CleanBlob(e), []);
        assert DmSchedule(k, e, o) == [BeginSend(e, o), Capture(e), CleanBlob(e)] + [];
      } else {
        FullSchedule(k, e, o);
      }
  }

  function Inserts(e: EnvelopeId, n: nat): seq<Step> { seq(n, _ => Insert(e)) }

  function FanOutSchedule(k: Keys, e: EnvelopeId, o: Order): seq<Step> {
    [BeginSend(e, o), Capture(e)] +
    if o.ExpiresAt(k.clock) > k.clock then [StoreMeta(e)] + (Inserts(e, |o.recipients|) + [Close(e)]) else []
  }

  /** The machine after the first i insertions of a fan-out running alone. */
  function InsertingAt(k: Keys, e: EnvelopeId, o: Order, i: nat): State
    requires i <= |o.recipients|
  {
    var s := Inserting0(k, e, o);
    var (k', el) := InsertAll(s.k, e, o.recipients[..i], k.clock, o.ExpiresAt(k.clock));
    s.(k := k', sends := map[e := Send(o, k.clock, o.ExpiresAt(k.clock), Inserting(i, el))])
  }

  lemma InsertStep(k: Keys, e: EnvelopeId, o: Order, i: nat)
    requires o.to.Group? && i < |o.recipients|
    ensures Apply(InsertingAt(k, e, o, i), Insert(e)) == InsertingAt(k, e, o, i + 1)
  {
    var (s, s') := (InsertingAt(k, e, o, i), InsertingAt(k, e, o, i + 1));
    InsertNext(Inserting0(k, e, o).k, e, o.recipients, i, k.clock, o.ExpiresAt(k.clock));
    assert s.sends[e := s'.sends[e]] == s'.sends;
    hide InsertAll, InboxScript, Inserting0;
  }

  lemma {:induction false} InsertSteps(k: Keys, e: EnvelopeId, o: Order, i: nat)
    requires o.to.Group? && i <= |o.recipients|
    ensures Run(Inserting0(k, e, o), Inserts(e, i)) == InsertingAt(k, e, o, i)
  {
    if i == 0 {
      InsertNone(Inserting0(k, e, o).k, e, o.recipients, k.clock, o.ExpiresAt(k.clock));
    } else {
      InsertSteps(k, e, o, i - 1);
      assert Inserts(e, i) == Inserts(e, i - 1) + [Insert(e)];
      RunAppend(Inserting0(k, e, o), Inserts(e, i - 1), Insert(e));
      InsertStep(k, e, o, i - 1);
      hide InsertingAt, Inserting0, Inserts, Apply, Run;
    }
  }

  lemma CloseLast(k: Keys, e: EnvelopeId, o: Order)
    requires o.to.Group? && k.clock < o.ExpiresAt(k.clock)
    ensures Apply(InsertingAt(k, e, o, |o.recipients|), Close(e)).k == FanOut(WriteBlob(k, e), e, o).0
  {
    assert o.recipients[..|o.recipients|] == o.recipients;
    hide InsertAll, Register;
  }

  /** Undisturbed, the fan-out is one schedule of the machine: metadata, one run of the inbox
      script per recipient in order, and the closing block. */
  lemma FanOutIsOneSchedule(k: Keys, e: EnvelopeId, o: Order)
    requires o.WellFormed() && o.to.Group?
    ensures Run(At(k), FanOutSchedule(k, e, o)).k == FanOut(WriteBlob(k, e), e, o).0
  {
    var n := |o.recipients|;
    BeginTwo(k, e, o);
    if o.ExpiresAt(k.clock) > k.clock {
      var rest := Inserts(e, n) + [Close(e)];
      assert FanOutSchedule(k, e, o) == [BeginSend(e, o), Capture(e), StoreMeta(e)] + rest;
      Run3(At(k), BeginSend(e, o), Capture(e), StoreMeta(e), rest);
      StoreThird(k, e, o);
      InsertSteps(k, e, o, n);
      RunAppend(Inserting0(k, e, o), Inserts(e, n), Close(e));
      CloseLast(k, e, o);
      hide Run, Apply, InsertingAt, Inserting0, Begun, FanOut, Inserts, FanOutSchedule;
    } else {
      RunAppend(At(k), [BeginSend(e, o)], Capture(e));
      RunOne(At(k), BeginSend(e, o));
      assert FanOutSchedule(k, e, o) == [BeginSend(e, o)] + [Capture(e)];
      hide Run, Apply;
    }
  }

  lemma AckIsOneSchedule(k: Keys, r: Pubkey, e: EnvelopeId)
    ensures Run(At(k), [AckRemove(r, e), AckEval(r, e), AckUnlink(e)]).k == Acknowledge(k, r, e).0
  {
    Run3(At(k), AckRemove(r, e), AckEval(r, e), AckUnlink(e), []);
    assert [AckRemove(r, e), AckEval(r, e), AckUnlink(e)] + [] == [AckRemove(r, e), AckEval(r, e), AckUnlink(e)];
    if Held(k, r, e) {
      var s1 := Apply(At(k), AckRemove(r, e));
      assert (r, e) in s1.acking;
      var s2 := Apply(s1, AckEval(r, e));
      assert e in s2.unlinking <==> AckScript(s1.k, r, e).1 == 1;
    }
  }
}
