/** All that the state says about one envelope, as a machine of its own: the reference count
    of the shared blob. `Inv` is what each of its transitions keeps. */
module EnvelopeView {
  import opened Common
  import opened QueueKeys
  import opened EnvelopeMachine

  datatype View = View(
    clock: int, send: Option<Send>, rows: map<Pubkey, int>, acking: set<Pubkey>,
    meta: Option<Meta>, pending: Option<Pending>, index: Option<int>, tomb: Option<Tombstone>,
    blob: bool, unlinking: bool, jobs: set<DeleteJob>, seen: Option<Meta>,
    reap: Option<ReapPhase>, scan: Option<bool>, earlyDelete: bool, earlySweep: bool,
    evals: seq<(Pubkey, int)>)

  /** Recipients whose inbox insertion succeeded so far. */
  function Eligible(d: Send): seq<Pubkey> {
    match d.phase
    case Inserting(_, el) => el
    case Registered(el) => el
    case _ => []
  }

  predicate Matches(m: Meta, d: Send) {
    && m.sender == d.order.sender && m.to == d.order.to && m.sealed == d.order.sealed
    && m.deleteKey == d.order.deleteKey && m.mail == d.order.mail && m.expiresAt == d.expiresAt
  }

  /** Some inbox holds the envelope, or one still may. */
  predicate Wanted(v: View, d: Send) { RowsToCome(d) || v.rows != map[] }

  ghost predicate RowsInv(v: View, d: Send) {
    && d.order.WellFormed() && NoDup(Eligible(d))
    && (d.phase.Inserting? ==> d.phase.next <= |d.order.recipients|)
    && (d.phase.Inserting? ==> Elems(d.phase.eligible) <= Elems(d.order.recipients[..d.phase.next]))
    && Elems(Eligible(d)) <= Elems(d.order.recipients)
    && v.rows.Keys <= Elems(Eligible(d))
    && (forall r :: r in v.rows ==> v.rows[r] == d.expiresAt)
    && v.acking <= Elems(Eligible(d)) && v.acking !! v.rows.Keys
    && (!d.phase.BlobWritten? ==> d.now <= v.clock)
    && (d.phase.Captured? || d.phase.Inserting? || d.phase.Registered? ==> d.now < d.expiresAt)
  }

  ghost predicate MetaInv(v: View, d: Send) {
    && (v.meta.Some? ==> d.phase.Inserting? || d.phase.Registered? || d.phase.DroppingMeta?)
    && (v.meta.Some? ==> !v.earlyDelete && Matches(v.meta.value, d) && d.expiresAt <= v.meta.value.keyExp)
    && (v.earlyDelete ==> !PreMeta(d.phase))
    && (v.clock < d.expiresAt && !v.earlyDelete && Wanted(v, d) ==> v.meta.Some?)
    && (v.seen.Some? ==> Matches(v.seen.value, d) && !PreMeta(d.phase))
  }

  ghost predicate BlobInv(v: View, d: Send) {
    && (v.earlySweep ==> !v.blob)
    && (PreMeta(d.phase) && !v.earlySweep ==> v.blob)
    && (v.clock < d.expiresAt && !v.earlyDelete && !v.earlySweep && Wanted(v, d) ==> v.blob)
    && (v.unlinking ==> d.phase.Registered? && v.rows == map[])
    && (d.phase.Refused? && d.order.to.Direct? ==> !v.blob)
    && (v.scan == Some(false) ==> !PreMeta(d.phase))
    && (v.scan == Some(false) ==> d.expiresAt <= v.clock || v.earlyDelete || !Wanted(v, d))
  }

  /** A tombstone names the sender and the addressee of the order. */
  predicate Names(o: Order, t: Tombstone) { o.to == Direct(t.recipient) && o.sender == Some(t.sender) }

  /** The delete was asked for by the sender, or by the holder of a sealed envelope's key. */
  predicate Authorised(o: Order, job: DeleteJob) {
    && o.to == Direct(job.recipient)
    && match job.asker
       case Caller(p) => o.sender == Some(p)
       case KeyHolder(key) => o.sealed && o.deleteKey == Some(key)
  }

  ghost predicate RegistryInv(v: View, d: Send) {
    && (v.pending.Some? ==> d.phase.Registered? && d.expiresAt <= v.pending.value.keyExp)
    && (v.pending.Some? ==> v.rows.Keys <= v.pending.value.members)
    && (v.index.Some? ==> d.phase.Registered? && v.index.value == d.expiresAt)
    && (v.tomb.Some? ==> d.phase.Registered? && Names(d.order, v.tomb.value))
    && (v.reap.Some? ==> d.phase.Registered? && d.expiresAt <= v.clock)
    && (forall j :: j in v.jobs ==> Authorised(d.order, j) && !PreMeta(d.phase))
  }

  /** An id that was never sent has left no trace. */
  ghost predicate Inv(v: View) {
    match v.send
    case None => v == Blank(v.clock)
    case Some(d) => RowsInv(v, d) && MetaInv(v, d) && BlobInv(v, d) && RegistryInv(v, d)
  }

  function Blank(clock: int): View {
    View(clock, None, map[], {}, None, None, None, None, false, false, {}, None, None, None, false, false, [])
  }

  /** Rows may vanish and time may pass without harm. */
  lemma Shrink(v: View, w: View)
    requires Inv(v)
    requires v.clock <= w.clock && w.rows.Keys <= v.rows.Keys
    requires forall r :: r in w.rows ==> w.rows[r] == v.rows[r]
    requires w == v.(rows := w.rows, clock := w.clock)
    ensures Inv(w)
  {
    if v.send.None? {
      assert w.rows == map[];
    }
  }

  lemma BeginView(v: View, o: Order)
    requires Inv(v) && v.send.None? && o.WellFormed()
    ensures Inv(v.(send := Some(Send(o, 0, 0, BlobWritten)), blob := true))
  {
  }

  function AfterCapture(v: View): View
    requires v.send.Some?
  {
    var o := v.send.value.order;
    var x := o.ExpiresAt(v.clock);
    v.(send := Some(Send(o, v.clock, x,
      if x > v.clock then Captured else if o.to.Direct? then DroppingBlob else Refused)))
  }

  lemma CaptureView(v: View)
    requires Inv(v) && v.send.Some? && v.send.value.phase.BlobWritten?
    ensures Inv(AfterCapture(v))
  {
  }

  function AfterStore(v: View): View
    requires v.send.Some?
  {
    var d := v.send.value;
    v.(send := Some(d.(phase := Inserting(0, []))),
       meta := Some(NewMeta(d.order, d.expiresAt, v.clock + (d.expiresAt - d.now))))
  }

  lemma StoreView(v: View)
    requires Inv(v) && v.send.Some? && v.send.value.phase.Captured?
    ensures Inv(AfterStore(v))
  {
  }

  lemma InsertElems(o: seq<Pubkey>, i: nat, el: seq<Pubkey>)
    requires NoDup(o) && NoDup(el) && i < |o| && Elems(el) <= Elems(o[..i])
    ensures o[i] !in el && NoDup(el + [o[i]])
    ensures Elems(el + [o[i]]) == Elems(el) + {o[i]}
    ensures Elems(el + [o[i]]) <= Elems(o[..i + 1]) <= Elems(o)
    ensures Elems(el) <= Elems(o[..i + 1])
  {
    assert o[..i + 1] == o[..i] + [o[i]];
    assert o[i] !in Elems(o[..i]);
  }

  /** The row is inserted, or refused: a DM then cleans up, a group send goes on. */
  function AfterInsert(v: View, ok: bool): View
    requires v.send.Some? && RowsToCome(v.send.value)
  {
    var d := v.send.value;
    var i, el := d.phase.next, d.phase.eligible;
    var r := d.order.recipients[i];
    v.(rows := if ok then v.rows[r := d.expiresAt] else v.rows,
       send := Some(d.(phase :=
         if ok then Inserting(i + 1, el + [r])
         else if d.order.to.Direct? then DroppingMeta else Inserting(i + 1, el))))
  }

  lemma InsertView(v: View, ok: bool)
    requires Inv(v) && v.send.Some? && RowsToCome(v.send.value)
    ensures Inv(AfterInsert(v, ok))
  {
    var d := v.send.value;
    InsertElems(d.order.recipients, d.phase.next, d.phase.eligible);
    var w := AfterInsert(v, ok);
    var d' := w.send.value;
    if ok {
      assert Elems(Eligible(d')) == Elems(Eligible(d)) + {d.order.recipients[d.phase.next]};
      assert RowsInv(w, d');
    } else if d.order.to.Direct? {
      assert d.phase.next == 0;
      assert Elems(d.order.recipients[..0]) == {};
      assert v.rows == map[] && v.acking == {};
      assert RowsInv(w, d');
    } else {
      assert RowsInv(w, d');
    }
    assert MetaInv(w, d') && BlobInv(w, d') && RegistryInv(w, d');
  }

  function AfterClose(v: View, tomb: Option<Tombstone>): View
    requires v.send.Some? && v.send.value.phase.Inserting?
  {
    var d := v.send.value;
    var el := d.phase.eligible;
    v.(send := Some(d.(phase := Registered(el))),
       pending := if Elems(el) == {} then None else Some(Pending(Elems(el), v.clock + (d.expiresAt - d.now))),
       index := Some(d.expiresAt),
       tomb := tomb)
  }

  lemma CloseView(v: View, tomb: Option<Tombstone>)
    requires Inv(v) && v.send.Some? && v.send.value.phase.Inserting? && !RowsToCome(v.send.value)
    requires tomb.Some? ==> Names(v.send.value.order, tomb.value)
    ensures Inv(AfterClose(v, tomb))
  {
  }

  lemma CleanView(v: View)
    requires Inv(v) && v.send.Some?
    ensures v.send.value.phase.DroppingMeta? ==> Inv(v.(send := Some(v.send.value.(phase := DroppingBlob)), meta := None))
    ensures v.send.value.phase.DroppingBlob? ==> Inv(v.(send := Some(v.send.value.(phase := Refused)), blob := false))
  {
  }

  lemma AckRemoveView(v: View, r: Pubkey)
    requires Inv(v) && r in v.rows
    ensures Inv(v.(rows := v.rows - {r}, acking := v.acking + {r}))
  {
  }

  /** The script's three outcomes. */
  function AfterEval(v: View, r: Pubkey): View {
    var u := v.(acking := v.acking - {r});
    if v.pending.None? then u.(evals := v.evals + [(r, -1)])
    else if v.pending.value.members - {r} == {} then
      u.(evals := v.evals + [(r, 1)], pending := None, meta := None, unlinking := true)
    else
      u.(evals := v.evals + [(r, 0)], pending := Some(v.pending.value.(members := v.pending.value.members - {r})))
  }

  lemma AckEvalView(v: View, r: Pubkey)
    requires Inv(v) && r in v.acking
    ensures Inv(AfterEval(v, r))
  {
    if v.pending.Some? && v.pending.value.members - {r} == {} {
      assert v.rows.Keys <= {r};
      assert v.rows == map[];
    }
  }

  lemma AckUnlinkView(v: View)
    requires Inv(v) && v.unlinking
    ensures Inv(v.(unlinking := false, blob := false))
  {
  }

  function AfterDelete(v: View, job: DeleteJob): View
    requires v.send.Some?
  {
    v.(rows := v.rows - {job.recipient}, meta := None, jobs := v.jobs - {job},
       tomb := if job.asker.KeyHolder? then v.tomb else None,
       earlyDelete := v.earlyDelete || RowsToCome(v.send.value))
  }

  lemma DeleteView(v: View, job: DeleteJob)
    requires Inv(v) && v.send.Some? && job in v.jobs
    ensures Inv(AfterDelete(v, job))
  {
    assert v.send.value.order.recipients == [job.recipient];
    assert AfterDelete(v, job).rows == map[];
  }

  lemma ScanView(v: View)
    requires Inv(v) && v.scan.Some?
    ensures Inv(v.(scan := None, blob := false, earlySweep := v.earlySweep || v.scan.value))
  {
  }

  /** A delete was authorised against the metadata or the tombstone. */
  lemma JobView(v: View, job: DeleteJob)
    requires Inv(v)
    requires match job.asker
             case Caller(p) =>
               || (v.meta.Some? && v.meta.value.to == Direct(job.recipient) && v.meta.value.sender == Some(p))
               || (v.tomb.Some? && v.tomb.value.recipient == job.recipient && v.tomb.value.sender == p)
             case KeyHolder(key) =>
               v.meta.Some? && v.meta.value.to == Direct(job.recipient) && v.meta.value.sealed
               && v.meta.value.deleteKey == Some(key)
    ensures Inv(v.(jobs := v.jobs + {job}))
  {
  }

  lemma SeenView(v: View)
    requires Inv(v)
    ensures v.meta.Some? ==> Inv(v.(seen := Some(v.meta.value.(mailSeen := true))))
    ensures v.seen.Some? ==> Inv(v.(seen := None,
              meta := if v.meta.None? then None else Some(v.seen.value.(keyExp := v.meta.value.keyExp))))
  {
  }

  lemma ReapView(v: View)
    requires Inv(v)
    ensures v.index.Some? && v.index.value <= v.clock ==> Inv(v.(reap := Some(Picked)))
    ensures v.reap.Some? ==> Inv(v.(reap := Some(Forgetting))) && Inv(v.(reap := Some(MetaGone)))
    ensures v.reap.Some? ==> Inv(v.(blob := false, reap := Some(Forgetting)))
    ensures v.reap.Some? ==> Inv(v.(index := None, reap := None))
  {
  }

  lemma LookView(v: View)
    requires Inv(v) && v.blob && v.meta.None?
    ensures Inv(v.(scan := Some(v.send.Some? && PreMeta(v.send.value.phase))))
  {
  }

  lemma WaitView(v: View, w: View, d: nat)
    requires Inv(v)
    requires w.rows.Keys <= v.rows.Keys && (forall r :: r in w.rows ==> w.rows[r] == v.rows[r])
    requires w == v.(clock := v.clock + d, rows := w.rows,
                     meta := if v.meta.Some? && v.meta.value.keyExp <= v.clock + d then None else v.meta,
                     pending := if v.pending.Some? && v.pending.value.keyExp <= v.clock + d then None else v.pending,
                     tomb := if v.tomb.Some? && v.tomb.value.keyExp <= v.clock + d then None else v.tomb)
    ensures Inv(w)
  {
    if v.send.None? {
      assert w.rows == map[];
    }
  }

  /** What a recipient may rely on: while an inbox holds the envelope unexpired, its metadata
      and blob are both there, unless the send was undercut; and then one of them is not. */
  lemma HeldIsDeliverable(v: View, r: Pubkey)
    requires Inv(v) && r in v.rows && v.clock < v.rows[r]
    ensures v.meta.Some? && v.blob <==> !v.earlyDelete && !v.earlySweep
    ensures v.pending.Some? ==> r in v.pending.value.members
  {
  }

  lemma RefusedLeavesNothing(v: View)
    requires Inv(v) && v.send.Some? && v.send.value.phase.Refused?
    ensures v.rows == map[] && v.meta.None? && v.pending.None? && v.index.None? && v.tomb.None?
    ensures v.send.value.order.to.Direct? ==> !v.blob
  {
    assert Elems(Eligible(v.send.value)) == {};
  }
}
