/** The lifecycle invariant holds for every envelope in every state of every run. */
module EnvelopeSafety {
  import opened Common
  import opened QueueKeys
  import opened EnvelopeMachine
  import opened EnvelopeView

  function Get<K, V>(m: map<K, V>, x: K): Option<V> { if x in m then Some(m[x]) else None }

  /** The inboxes that hold e, with the score each gives it. */
  function Rows(boxes: Inboxes, e: EnvelopeId): map<Pubkey, int> {
    map r | r in boxes && e in boxes[r] :: boxes[r][e]
  }

  function Acking(a: set<(Pubkey, EnvelopeId)>, e: EnvelopeId): set<Pubkey> {
    set p | p in a && p.1 == e :: p.0
  }

  function Jobs(js: set<DeleteJob>, e: EnvelopeId): set<DeleteJob> { set j | j in js && j.e == e }

  function Project(s: State, e: EnvelopeId): View {
    View(s.k.clock, Get(s.sends, e), Rows(s.k.inboxes, e), Acking(s.acking, e),
         Get(s.k.metas, e), Get(s.k.pendings, e), Get(s.k.index, e), Get(s.k.tombs, e),
         e in s.k.blobs, e in s.unlinking, Jobs(s.deletes, e), Get(s.seen, e),
         Get(s.reaps, e), Get(s.scans, e), e in s.earlyDeletes, e in s.earlySweeps, Evals(s, e))
  }

  lemma RowsPut(b: Inboxes, r: Pubkey, box: map<EnvelopeId, int>, e: EnvelopeId)
    ensures Rows(Put(b, r, box), e) == if e in box then Rows(b, e)[r := box[e]] else Rows(b, e) - {r}
  {
  }

  ghost predicate AllInv(s: State) { forall e :: Inv(Project(s, e)) }

  // Each step moves the envelope it names as its own machine says, and leaves every other
  // envelope alone, but for rows that time or pruning removes.

  lemma ProjWait(s: State, d: nat, e: EnvelopeId)
    ensures var v, w := Project(s, e), Project(Apply(s, Wait(d)), e);
            && w.rows.Keys <= v.rows.Keys && (forall r :: r in w.rows ==> w.rows[r] == v.rows[r])
            && w == v.(clock := v.clock + d, rows := w.rows,
                       meta := if v.meta.Some? && v.meta.value.keyExp <= v.clock + d then None else v.meta,
                       pending := if v.pending.Some? && v.pending.value.keyExp <= v.clock + d then None else v.pending,
                       tomb := if v.tomb.Some? && v.tomb.value.keyExp <= v.clock + d then None else v.tomb)
  {
  }

  lemma ProjBegin(s: State, x: EnvelopeId, o: Order, e: EnvelopeId)
    ensures var v := Project(s, e);
            Project(DoBegin(s, x, o), e) ==
            if x == e && v.send.None? && o.WellFormed() then
              v.(send := Some(Send(o, 0, 0, BlobWritten)), blob := true)
            else v
  {
  }

  lemma ProjCapture(s: State, x: EnvelopeId, e: EnvelopeId)
    ensures var v := Project(s, e);
            Project(DoCapture(s, x), e) ==
            if x == e && v.send.Some? && v.send.value.phase.BlobWritten? then AfterCapture(v) else v
  {
  }

  /** How the send of x moving on with keys k' shows in the view of e. */
  lemma ProjMove(s: State, x: EnvelopeId, p: Phase, k': Keys, e: EnvelopeId)
    requires x in s.sends
    ensures Project(Move(s, x, p, k'), e) == Project(s, e).(
              send := if x == e then Some(s.sends[x].(phase := p)) else Get(s.sends, e),
              clock := k'.clock, rows := Rows(k'.inboxes, e), meta := Get(k'.metas, e),
              pending := Get(k'.pendings, e), index := Get(k'.index, e), tomb := Get(k'.tombs, e),
              blob := e in k'.blobs)
  {
  }

  lemma ProjStoreMeta(s: State, x: EnvelopeId, e: EnvelopeId)
    ensures var v := Project(s, e);
            Project(DoStoreMeta(s, x), e) ==
            if x == e && v.send.Some? && v.send.value.phase.Captured? then
              if v.send.value.order.to.Direct? && v.meta.Some? then
                v.(send := Some(v.send.value.(phase := Refused)))
              else AfterStore(v)
            else v
  {
    if x in s.sends && s.sends[x].phase.Captured? {
      var d := s.sends[x];
      if d.order.to.Direct? && x in s.k.metas {
        ProjMove(s, x, Refused, s.k, e);
      } else {
        ProjMove(s, x, Inserting(0, []), SetMeta(s.k, x, d.order, d.now, d.expiresAt), e);
      }
    }
  }

  lemma PruneRows(k: Keys, r: Pubkey, now: int, e: EnvelopeId)
    ensures var a := Rows(k.inboxes, e);
            Rows(Prune(k, r, now).inboxes, e) == if r in a && 0 <= a[r] <= now then a - {r} else a
  {
    var box, a := Pruned(Inbox(k, r), now), Rows(k.inboxes, e);
    RowsPut(k.inboxes, r, box, e);
    assert r in a <==> e in Inbox(k, r);
    if r !in a {
      assert a - {r} == a;
    } else if e in box {
      assert a[r := box[e]] == a;
    }
  }

  lemma AddRow(k: Keys, r: Pubkey, now: int, x: EnvelopeId, expiresAt: int, e: EnvelopeId)
    ensures var a, b := Rows(k.inboxes, e), Rows(PutInbox(k, r, Pruned(Inbox(k, r), now)[x := expiresAt]).inboxes, e);
            b == if x == e then a[r := expiresAt] else if r in a && 0 <= a[r] <= now then a - {r} else a
  {
    var box, a := Pruned(Inbox(k, r), now), Rows(k.inboxes, e);
    RowsPut(k.inboxes, r, box[x := expiresAt], e);
    assert r in a <==> e in Inbox(k, r);
    if r !in a {
      assert a - {r} == a;
    } else if x != e && e in box {
      assert a[r := box[e]] == a;
    }
  }

  /** The script prunes only expired rows of other envelopes. */
  lemma ScriptRows(k: Keys, r: Pubkey, now: int, x: EnvelopeId, expiresAt: int, e: EnvelopeId)
    ensures var (k', ok) := InboxScript(k, r, now, x, expiresAt);
            var a, b := Rows(k.inboxes, e), Rows(k'.inboxes, e);
            b == if x == e && ok then a[r := expiresAt]
                 else if r in a && 0 <= a[r] <= now then a - {r} else a
  {
    PruneRows(k, r, now, e);
    AddRow(k, r, now, x, expiresAt, e);
  }

  lemma ProjInsert(s: State, x: EnvelopeId, e: EnvelopeId) returns (ok: bool)
    requires x in s.sends && RowsToCome(s.sends[x])
    ensures var v, w := Project(s, e), Project(DoInsert(s, x), e);
            var d := s.sends[x];
            var r := d.order.recipients[d.phase.next];
            && (x != e ==> w == v.(rows := if r in v.rows && 0 <= v.rows[r] <= d.now then v.rows - {r} else v.rows))
            && (x == e && r !in v.rows ==> w == AfterInsert(v, ok))
  {
    var d := s.sends[x];
    var i, el := d.phase.next, d.phase.eligible;
    var r := d.order.recipients[i];
    var (k', b) := InboxScript(s.k, r, d.now, x, d.expiresAt);
    ok := b;
    ScriptRows(s.k, r, d.now, x, d.expiresAt, e);
    ProjMove(s, x, if ok then Inserting(i + 1, el + [r]) else if d.order.to.Direct? then DroppingMeta
                   else Inserting(i + 1, el), k', e);
  }

  /** What registration writes under x, and that it leaves every other envelope alone. */
  lemma RegisterFacts(k: Keys, x: EnvelopeId, o: Order, el: seq<Pubkey>, now: int, expiresAt: int, e: EnvelopeId)
    ensures var k' := Register(k, x, o, el, now, expiresAt);
            && k'.clock == k.clock && k'.inboxes == k.inboxes && k'.metas == k.metas && k'.blobs == k.blobs
            && Get(k'.index, e) == (if e == x then Some(expiresAt) else Get(k.index, e))
            && (e != x ==> Get(k'.pendings, e) == Get(k.pendings, e) && Get(k'.tombs, e) == Get(k.tombs, e))
            && (e == x && Elems(el) == {} ==> Get(k'.pendings, e) == Get(k.pendings, e))
            && (e == x && Elems(el) != {} && x !in k.pendings ==>
                  Get(k'.pendings, e) == Some(Pending({} + Elems(el), k.clock + (expiresAt - now))))
            && (x in k'.tombs && x !in k.tombs ==> Names(o, k'.tombs[x]))
  {
    hide ExpireInboxes;
    ExpireOnlyTtl(k, Elems(el), expiresAt - now);
  }

  lemma ExpireOnlyTtl(k: Keys, rs: set<Pubkey>, ttl: int)
    ensures var k' := ExpireInboxes(k, rs, ttl); k' == k.(inboxExp := k'.inboxExp)
  {
  }

  predicate Closing(s: State, x: EnvelopeId) {
    x in s.sends && s.sends[x].phase.Inserting? && !RowsToCome(s.sends[x])
  }

  lemma CloseIsMove(s: State, x: EnvelopeId)
    ensures if Closing(s, x) then
              var d := s.sends[x];
              DoClose(s, x) == Move(s, x, Registered(d.phase.eligible),
                                    Register(s.k, x, d.order, d.phase.eligible, d.now, d.expiresAt))
            else DoClose(s, x) == s
  {
    hide Register;
  }

  lemma CloseElsewhere(s: State, x: EnvelopeId, e: EnvelopeId)
    requires Closing(s, x) && x != e
    ensures Project(DoClose(s, x), e) == Project(s, e)
  {
    var d := s.sends[x];
    CloseIsMove(s, x);
    RegisterFacts(s.k, x, d.order, d.phase.eligible, d.now, d.expiresAt, e);
    var k' := Register(s.k, x, d.order, d.phase.eligible, d.now, d.expiresAt);
    ProjMove(s, x, Registered(d.phase.eligible), k', e);
    hide Register, DoClose, Move, Rows, Acking, Jobs, Evals;
  }

  lemma CloseHere(s: State, e: EnvelopeId)
    requires Closing(s, e)
    ensures var v := Project(s, e);
            && (v.pending.None? ==> Project(DoClose(s, e), e) == AfterClose(v, Project(DoClose(s, e), e).tomb))
            && (Project(DoClose(s, e), e).tomb.Some? && v.tomb.None? ==>
                  Names(v.send.value.order, Project(DoClose(s, e), e).tomb.value))
  {
    var d := s.sends[e];
    CloseIsMove(s, e);
    RegisterFacts(s.k, e, d.order, d.phase.eligible, d.now, d.expiresAt, e);
    var k' := Register(s.k, e, d.order, d.phase.eligible, d.now, d.expiresAt);
    ProjMove(s, e, Registered(d.phase.eligible), k', e);
    assert {} + Elems(d.phase.eligible) == Elems(d.phase.eligible);
    hide Register, DoClose, Move, Rows, Acking, Jobs, Evals, Elems;
  }

  lemma ProjClose(s: State, x: EnvelopeId, e: EnvelopeId) returns (tomb: Option<Tombstone>)
    ensures var v := Project(s, e);
            if x == e && v.send.Some? && v.send.value.phase.Inserting? && !RowsToCome(v.send.value) then
              && (v.pending.None? ==> Project(DoClose(s, x), e) == AfterClose(v, tomb))
              && (tomb.Some? && v.tomb.None? ==> Names(v.send.value.order, tomb.value))
            else Project(DoClose(s, x), e) == v
  {
    hide DoClose, AfterClose;
    tomb := Project(DoClose(s, x), e).tomb;
    CloseIsMove(s, x);
    if Closing(s, x) {
      if x == e { CloseHere(s, e); } else { CloseElsewhere(s, x, e); }
    }
    hide Move;
  }

  lemma ProjClean(s: State, x: EnvelopeId, e: EnvelopeId)
    ensures var v := Project(s, e);
            Project(DoCleanMeta(s, x), e) ==
            if x == e && v.send.Some? && v.send.value.phase.DroppingMeta? then
              v.(send := Some(v.send.value.(phase := DroppingBlob)), meta := None)
            else v
    ensures var v := Project(s, e);
            Project(DoCleanBlob(s, x), e) ==
            if x == e && v.send.Some? && v.send.value.phase.DroppingBlob? then
              v.(send := Some(v.send.value.(phase := Refused)), blob := false)
            else v
  {
  }

  lemma AckingPlus(a: set<(Pubkey, EnvelopeId)>, r: Pubkey, x: EnvelopeId, e: EnvelopeId)
    ensures Acking(a + {(r, x)}, e) == if x == e then Acking(a, e) + {r} else Acking(a, e)
    ensures Acking(a - {(r, x)}, e) == if x == e then Acking(a, e) - {r} else Acking(a, e)
  {
    var b, c := a + {(r, x)}, a - {(r, x)};
    forall q | q in Acking(a, e) ensures q in Acking(b, e) {
      assert (q, e) in b;
    }
    forall q | q in Acking(a, e) && (q != r || x != e) ensures q in Acking(c, e) {
      assert (q, e) in c;
    }
    if x == e {
      assert (r, e) in b;
    }
  }

  lemma ProjAckRemove(s: State, r: Pubkey, x: EnvelopeId, e: EnvelopeId)
    ensures var v := Project(s, e);
            Project(DoAckRemove(s, r, x), e) ==
            if x == e && r in v.rows then v.(rows := v.rows - {r}, acking := v.acking + {r}) else v
  {
    var v := Project(s, e);
    if Held(s.k, r, x) {
      RowsPut(s.k.inboxes, r, Inbox(s.k, r) - {x}, e);
      AckingPlus(s.acking, r, x, e);
      var w := Project(DoAckRemove(s, r, x), e);
      if x == e {
        assert w == v.(rows := v.rows - {r}, acking := v.acking + {r});
      } else {
        assert e in Inbox(s.k, r) <==> r in v.rows;
        assert w.rows == v.rows;
        assert w == v;
      }
    } else {
      assert x == e ==> r !in v.rows;
    }
  }

  lemma ProjAckEval(s: State, r: Pubkey, x: EnvelopeId, e: EnvelopeId)
    ensures var v := Project(s, e);
            Project(DoAckEval(s, r, x), e) == if x == e && r in v.acking then AfterEval(v, r) else v
  {
    AckingPlus(s.acking, r, x, e);
    assert x == e ==> (r in Project(s, e).acking <==> (r, x) in s.acking);
  }

  lemma ProjAckUnlink(s: State, x: EnvelopeId, e: EnvelopeId)
    ensures var v := Project(s, e);
            Project(DoAckUnlink(s, x), e) == if x == e && v.unlinking then v.(unlinking := false, blob := false) else v
  {
  }

  lemma JobsPlus(js: set<DeleteJob>, j: DeleteJob, e: EnvelopeId)
    ensures Jobs(js + {j}, e) == if j.e == e then Jobs(js, e) + {j} else Jobs(js, e)
    ensures Jobs(js - {j}, e) == if j.e == e then Jobs(js, e) - {j} else Jobs(js, e)
  {
  }

  lemma ProjDeleteRead(s: State, x: EnvelopeId, caller: Pubkey, r: Pubkey, e: EnvelopeId)
    ensures var v := Project(s, e);
            Project(DoDeleteRead(s, x, caller, r), e) ==
            if x == e && MayDelete(s.k, x, caller, r) then v.(jobs := v.jobs + {DeleteJob(x, r, Caller(caller))}) else v
  {
    JobsPlus(s.deletes, DeleteJob(x, r, Caller(caller)), e);
  }

  lemma ProjSealedRead(s: State, x: EnvelopeId, key: nat, e: EnvelopeId)
    ensures var v := Project(s, e);
            Project(DoSealedRead(s, x, key), e) ==
            if x == e && MayDeleteSealed(s.k, x, key) then
              v.(jobs := v.jobs + {DeleteJob(x, s.k.metas[x].to.pubkey, KeyHolder(key))})
            else v
  {
    if MayDeleteSealed(s.k, x, key) {
      JobsPlus(s.deletes, DeleteJob(x, s.k.metas[x].to.pubkey, KeyHolder(key)), e);
    }
  }

  lemma ProjDeleteCommit(s: State, job: DeleteJob, e: EnvelopeId)
    requires job in s.deletes && job.e == e ==> e in s.sends
    ensures var v := Project(s, e);
            Project(DoDeleteCommit(s, job), e) == if job in v.jobs then AfterDelete(v, job) else v
  {
    var v, w := Project(s, e), Project(DoDeleteCommit(s, job), e);
    if job in s.deletes {
      RowsPut(s.k.inboxes, job.recipient, Inbox(s.k, job.recipient) - {job.e}, e);
      JobsPlus(s.deletes, job, e);
      assert job.e != e ==> w.rows == v.rows;
    }
  }

  lemma ProjSeenRead(s: State, r: Pubkey, x: EnvelopeId, e: EnvelopeId)
    ensures var v := Project(s, e);
            Project(DoSeenRead(s, r, x), e) ==
            if x == e && v.meta.Some? && DoSeenRead(s, r, x) != s then
              v.(seen := Some(v.meta.value.(mailSeen := true)))
            else v
  {
  }

  lemma ProjSeenWrite(s: State, x: EnvelopeId, e: EnvelopeId)
    ensures var v := Project(s, e);
            Project(DoSeenWrite(s, x), e) ==
            if x == e && v.seen.Some? then
              v.(seen := None,
                 meta := if v.meta.None? then None else Some(v.seen.value.(keyExp := v.meta.value.keyExp)))
            else v
  {
  }

  lemma ProjReapPick(s: State, x: EnvelopeId, e: EnvelopeId)
    ensures var v := Project(s, e);
            Project(DoReapPick(s, x), e) ==
            if x == e && v.index.Some? && 0 <= v.index.value <= v.clock then v.(reap := Some(Picked)) else v
  {
  }

  lemma ProjReapLook(s: State, x: EnvelopeId, e: EnvelopeId)
    ensures var v := Project(s, e);
            Project(DoReapLook(s, x), e) ==
            if x == e && v.reap == Some(Picked) then
              v.(reap := Some(if v.meta.Some? then Forgetting else MetaGone))
            else v
  {
  }

  lemma ProjReapUnlink(s: State, x: EnvelopeId, e: EnvelopeId)
    ensures var v := Project(s, e);
            Project(DoReapUnlink(s, x), e) ==
            if x == e && v.reap == Some(MetaGone) then v.(blob := false, reap := Some(Forgetting)) else v
  {
  }

  lemma ProjReapForget(s: State, x: EnvelopeId, e: EnvelopeId)
    ensures var v := Project(s, e);
            Project(DoReapForget(s, x), e) ==
            if x == e && v.reap == Some(Forgetting) then v.(index := None, reap := None) else v
  {
  }

  lemma ProjScanLook(s: State, x: EnvelopeId, e: EnvelopeId)
    ensures var v := Project(s, e);
            Project(DoScanLook(s, x), e) ==
            if x == e && v.blob && v.meta.None? then
              v.(scan := Some(v.send.Some? && PreMeta(v.send.value.phase)))
            else v
  {
  }

  lemma ProjScanUnlink(s: State, x: EnvelopeId, e: EnvelopeId)
    ensures var v := Project(s, e);
            Project(DoScanUnlink(s, x), e) ==
            if x == e && v.scan.Some? then
              v.(scan := None, blob := false, earlySweep := v.earlySweep || v.scan.value)
            else v
  {
  }

  lemma ProjListInbox(s: State, r: Pubkey, now: int, e: EnvelopeId)
    ensures var v, w := Project(s, e), Project(DoListInbox(s, r, now), e);
            w == if r in v.rows && 0 <= v.rows[r] <= now <= v.clock then v.(rows := v.rows - {r}) else v
  {
    PruneRows(s.k, r, now, e);
  }

  lemma ProjDropBox(s: State, r: Pubkey, e: EnvelopeId)
    ensures var v := Project(s, e);
            Project(Apply(s, DropBox(r)), e) == v.(rows := v.rows - {r})
  {
    RowsPut(s.k.inboxes, r, map[], e);
  }

  lemma StepSend(s: State, step: Step, e: EnvelopeId)
    requires AllInv(s)
    requires step.Wait? || step.BeginSend? || step.Capture? || step.StoreMeta? || step.Insert?
          || step.Close? || step.CleanMeta? || step.CleanBlob?
    ensures Inv(Project(Apply(s, step), e))
  {
    hide Inv;
    var v := Project(s, e);
    match step {
      case Wait(d) => ProjWait(s, d, e); WaitView(v, Project(Apply(s, step), e), d);
      case BeginSend(x, o) =>
        ProjBegin(s, x, o, e);
        if v.send.None? && o.WellFormed() { BeginView(v, o); }
      case Capture(x) =>
        ProjCapture(s, x, e);
        if v.send.Some? && v.send.value.phase.BlobWritten? { CaptureView(v); }
      case StoreMeta(x) =>
        ProjStoreMeta(s, x, e);
        if v.send.Some? && v.send.value.phase.Captured? { StoreView(v); FirstWriterWins(v); }
      case Insert(x) => StepInsert(s, x, e);
      case Close(x) =>
        var tomb := ProjClose(s, x, e);
        if x == e && v.send.Some? && v.send.value.phase.Inserting? && !RowsToCome(v.send.value) {
          FreshRegistry(v);
          CloseView(v, tomb);
        }
      case CleanMeta(x) => ProjClean(s, x, e); if v.send.Some? { CleanView(v); }
      case CleanBlob(x) => ProjClean(s, x, e); if v.send.Some? { CleanView(v); }
    }
  }

  /** With one send per id the metadata slot is still free. */
  lemma FirstWriterWins(v: View)
    requires Inv(v) && v.send.Some? && v.send.value.phase.Captured?
    ensures v.meta.None?
  {
  }

  lemma FreshRegistry(v: View)
    requires Inv(v) && v.send.Some? && v.send.value.phase.Inserting?
    ensures v.pending.None? && v.tomb.None?
  {
  }

  lemma StepInsert(s: State, x: EnvelopeId, e: EnvelopeId)
    requires AllInv(s)
    ensures Inv(Project(DoInsert(s, x), e))
  {
    var v := Project(s, e);
    if x in s.sends && RowsToCome(s.sends[x]) {
      var d := s.sends[x];
      var ok := ProjInsert(s, x, e);
      if x == e {
        InsertElems(d.order.recipients, d.phase.next, d.phase.eligible);
        InsertView(v, ok);
      } else {
        assert Inv(Project(s, x)) && d.now <= s.k.clock;
        Shrink(v, Project(DoInsert(s, x), e));
      }
    }
  }

  lemma StepAckOrDelete(s: State, step: Step, e: EnvelopeId)
    requires AllInv(s)
    requires step.AckRemove? || step.AckEval? || step.AckUnlink? || step.DeleteRead? || step.SealedRead?
          || step.DeleteCommit?
    ensures Inv(Project(Apply(s, step), e))
  {
    hide Inv;
    var v := Project(s, e);
    match step {
      case AckRemove(r, x) =>
        ProjAckRemove(s, r, x, e);
        if r in v.rows { AckRemoveView(v, r); }
      case AckEval(r, x) =>
        ProjAckEval(s, r, x, e);
        if r in v.acking { AckEvalView(v, r); }
      case AckUnlink(x) =>
        ProjAckUnlink(s, x, e);
        if v.unlinking { AckUnlinkView(v); }
      case DeleteRead(x, c, r) =>
        ProjDeleteRead(s, x, c, r, e);
        if x == e && MayDelete(s.k, x, c, r) { JobView(v, DeleteJob(x, r, Caller(c))); }
      case SealedRead(x, key) =>
        ProjSealedRead(s, x, key, e);
        if x == e && MayDeleteSealed(s.k, x, key) { JobView(v, DeleteJob(x, s.k.metas[x].to.pubkey, KeyHolder(key))); }
      case DeleteCommit(job) =>
        assert job in s.deletes && job.e == e <==> job in v.jobs;
        if job in v.jobs { JobHasSend(v, job); }
        ProjDeleteCommit(s, job, e);
        if job in v.jobs { DeleteView(v, job); }
    }
  }

  lemma JobHasSend(v: View, job: DeleteJob)
    requires Inv(v) && job in v.jobs
    ensures v.send.Some?
  {
  }

  lemma StepReap(s: State, step: Step, e: EnvelopeId)
    requires AllInv(s)
    requires step.ReapPick? || step.ReapLook? || step.ReapUnlink? || step.ReapForget?
    ensures Inv(Project(Apply(s, step), e))
  {
    hide Inv;
    ReapView(Project(s, e));
    match step {
      case ReapPick(x) => ProjReapPick(s, x, e);
      case ReapLook(x) => ProjReapLook(s, x, e);
      case ReapUnlink(x) => ProjReapUnlink(s, x, e);
      case ReapForget(x) => ProjReapForget(s, x, e);
    }
  }

  lemma StepSeenOrBox(s: State, step: Step, e: EnvelopeId)
    requires AllInv(s)
    requires step.SeenRead? || step.SeenWrite? || step.ListInbox? || step.DropBox?
    ensures Inv(Project(Apply(s, step), e))
  {
    hide Inv;
    var v := Project(s, e);
    SeenView(v);
    match step {
      case SeenRead(r, x) => ProjSeenRead(s, r, x, e);
      case SeenWrite(x) => ProjSeenWrite(s, x, e);
      case ListInbox(r, now) => ProjListInbox(s, r, now, e); Shrink(v, Project(Apply(s, step), e));
      case DropBox(r) => ProjDropBox(s, r, e); Shrink(v, Project(Apply(s, step), e));
    }
  }

  lemma StepScan(s: State, step: Step, e: EnvelopeId)
    requires AllInv(s)
    requires step.ScanLook? || step.ScanUnlink?
    ensures Inv(Project(Apply(s, step), e))
  {
    hide Inv;
    var v := Project(s, e);
    match step {
      case ScanLook(x) =>
        ProjScanLook(s, x, e);
        if v.blob && v.meta.None? { LookView(v); }
      case ScanUnlink(x) =>
        ProjScanUnlink(s, x, e);
        if v.scan.Some? { ScanView(v); }
    }
  }

  lemma StepKeeps(s: State, step: Step)
    requires AllInv(s)
    ensures AllInv(Apply(s, step))
  {
    forall e ensures Inv(Project(Apply(s, step), e)) {
      if step.Wait? || step.BeginSend? || step.Capture? || step.StoreMeta? || step.Insert? || step.Close?
        || step.CleanMeta? || step.CleanBlob? {
        StepSend(s, step, e);
      } else if step.AckRemove? || step.AckEval? || step.AckUnlink? || step.DeleteRead? || step.SealedRead?
        || step.DeleteCommit? {
        StepAckOrDelete(s, step, e);
      } else if step.ReapPick? || step.ReapLook? || step.ReapUnlink? || step.ReapForget? {
        StepReap(s, step, e);
      } else if step.ScanLook? || step.ScanUnlink? {
        StepScan(s, step, e);
      } else {
        StepSeenOrBox(s, step, e);
      }
    }
  }

  lemma {:induction false} RunKeeps(s: State, steps: seq<Step>)
    requires AllInv(s)
    ensures AllInv(Run(s, steps))
    decreases |steps|
  {
    if steps != [] {
      StepKeeps(s, steps[0]);
      RunKeeps(Apply(s, steps[0]), steps[1..]);
    }
  }

  lemma InitInv()
    ensures AllInv(INIT)
  {
    forall x ensures Inv(Project(INIT, x)) {
      assert Project(INIT, x) == Blank(0);
    }
  }

  /** Main theorem: in every state of every interleaving, an unexpired envelope in some inbox
      has its metadata and its blob, exactly unless the send was undercut, and its pending set
      is absent or still counts that recipient. */
  lemma UnexpiredRowIsDeliverable(steps: seq<Step>, r: Pubkey, e: EnvelopeId)
    ensures var s := Run(INIT, steps);
            Held(s.k, r, e) && s.k.clock < s.k.inboxes[r][e] ==>
              && (e in s.k.metas && e in s.k.blobs <==> e !in s.earlyDeletes && e !in s.earlySweeps)
              && (e in s.k.pendings ==> r in s.k.pendings[e].members)
  {
    var s := Run(INIT, steps);
    InitInv();
    RunKeeps(INIT, steps);
    if Held(s.k, r, e) && s.k.clock < s.k.inboxes[r][e] {
      HeldIsDeliverable(Project(s, e), r);
    }
  }

  /** Over every run a delete that was let through was asked for by the sender of the message
      and names its addressee, whether metadata or tombstone decided; a sealed one by somebody
      who presented the key it was sent with. */
  lemma OnlySenderDeletes(steps: seq<Step>, job: DeleteJob)
    ensures var s := Run(INIT, steps);
            job in s.deletes ==>
              && job.e in s.sends && s.sends[job.e].order.to == Direct(job.recipient)
              && (job.asker.Caller? ==> s.sends[job.e].order.sender == Some(job.asker.pubkey))
              && (job.asker.KeyHolder? ==> s.sends[job.e].order.sealed && s.sends[job.e].order.deleteKey == Some(job.asker.key))
  {
    InitInv();
    RunKeeps(INIT, steps);
    var s := Run(INIT, steps);
    if job in s.deletes {
      assert job in Project(s, job.e).jobs;
      assert Inv(Project(s, job.e));
    }
  }

  /** Said of the request itself: whenever a delete request has any effect, at any point of any
      run, its caller is the sender and it names the addressee. */
  lemma StrangerDeletesNothing(steps: seq<Step>, e: EnvelopeId, caller: Pubkey, r: Pubkey)
    ensures var s := Run(INIT, steps);
            Apply(s, DeleteRead(e, caller, r)) != s ==>
              e in s.sends && s.sends[e].order.sender == Some(caller) && s.sends[e].order.to == Direct(r)
  {
    var s := Run(INIT, steps);
    var v := Apply(s, DeleteRead(e, caller, r));
    if v != s {
      RunAppend(INIT, steps, DeleteRead(e, caller, r));
      assert DeleteJob(e, r, Caller(caller)) in v.deletes && v.sends == s.sends;
      OnlySenderDeletes(steps + [DeleteRead(e, caller, r)], DeleteJob(e, r, Caller(caller)));
    }
  }

  lemma WrongKeyDeletesNothing(steps: seq<Step>, e: EnvelopeId, key: nat)
    ensures var s := Run(INIT, steps);
            Apply(s, SealedRead(e, key)) != s ==>
              e in s.sends && s.sends[e].order.sealed && s.sends[e].order.deleteKey == Some(key)
  {
    var s := Run(INIT, steps);
    var v := Apply(s, SealedRead(e, key));
    if v != s {
      RunAppend(INIT, steps, SealedRead(e, key));
      var job := DeleteJob(e, s.k.metas[e].to.pubkey, KeyHolder(key));
      assert job in v.deletes && v.sends == s.sends;
      OnlySenderDeletes(steps + [SealedRead(e, key)], job);
    }
  }
}
