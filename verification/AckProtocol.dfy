/** Acknowledgements as a reference count. As long as nobody deletes the envelope and nothing of
    it expires, the pending set is exactly the recipients not yet answered by the script, and
    one acknowledgement, the last, is told to delete the blob. */
module AckProtocol {
  import opened Common
  import opened QueueKeys
  import opened EnvelopeMachine
  import opened EnvelopeView
  import opened EnvelopeSafety

  type Answers = seq<(Pubkey, int)>

  /** Recipients whose acknowledgement found a pending set. */
  function Counted(a: Answers): set<Pubkey> { set i | 0 <= i < |a| && a[i].1 != -1 :: a[i].0 }

  /** Recipients whose acknowledgement overtook the pending registration. */
  function Overtook(a: Answers): set<Pubkey> { set i | 0 <= i < |a| && a[i].1 == -1 :: a[i].0 }

  function Answered(a: Answers): set<Pubkey> { set i | 0 <= i < |a| :: a[i].0 }

  lemma CountedPlus(a: Answers, r: Pubkey, z: int)
    ensures Counted(a + [(r, z)]) == if z == -1 then Counted(a) else Counted(a) + {r}
    ensures Overtook(a + [(r, z)]) == if z == -1 then Overtook(a) + {r} else Overtook(a)
    ensures Answered(a + [(r, z)]) == Answered(a) + {r}
    ensures Answered(a) == Counted(a) + Overtook(a)
  {
    var b := a + [(r, z)];
    assert b[|a|] == (r, z);
    forall q | q in Answered(a) ensures q in Answered(b) {
      var i :| 0 <= i < |a| && a[i].0 == q;
      assert b[i].0 == q;
    }
    forall q | q in Counted(a) ensures q in Counted(b) {
      var i :| 0 <= i < |a| && a[i].1 != -1 && a[i].0 == q;
      assert b[i] == a[i];
    }
    forall q | q in Overtook(a) ensures q in Overtook(b) {
      var i :| 0 <= i < |a| && a[i].1 == -1 && a[i].0 == q;
      assert b[i] == a[i];
    }
  }

  /** The script has said "delete now". */
  predicate Done(v: View) { v.evals != [] && v.evals[|v.evals| - 1].1 == 1 }

  predicate OneAtTheEnd(a: Answers) {
    && (forall i :: 0 <= i < |a| ==> a[i].1 in {-1, 0, 1})
    && (forall i :: 0 <= i < |a| - 1 ==> a[i].1 != 1)
    && (forall i, j :: 0 <= i < j < |a| ==> a[i].0 != a[j].0)
  }

  ghost predicate AckInv(v: View) {
    && OneAtTheEnd(v.evals) && !v.earlyDelete
    && match v.send
       case None => v.evals == []
       case Some(d) =>
         var all := Elems(Eligible(d));
         && all == v.rows.Keys + v.acking + Answered(v.evals)
         && v.rows.Keys !! v.acking !! Answered(v.evals)
         && Counted(v.evals) !! Overtook(v.evals)
         && (!d.phase.Registered? ==> Counted(v.evals) == {} && !Done(v))
         && (d.phase.Registered? && Done(v) ==> v.pending.None? && v.meta.None? && Counted(v.evals) == all)
         && (d.phase.Registered? && !Done(v) && all == {} ==> v.pending.None?)
         && (d.phase.Registered? && !Done(v) && all != {} ==>
               v.pending.Some? && v.pending.value.members == all - Counted(v.evals) != {})
         && (Live(v, d) ==> v.meta.Some? && v.scan != Some(false) && v.reap.None? && !v.unlinking)
         && (Live(v, d) ==> (v.blob <==> !v.earlySweep))
  }

  /** The send is past its metadata write and "delete now" has not been said. */
  predicate Live(v: View, d: Send) { (d.phase.Inserting? || d.phase.Registered?) && !Done(v) }

  predicate Unexpired(v: View) {
    v.send.Some? && (v.send.value.phase.Captured? || v.send.value.phase.Inserting? || v.send.value.phase.Registered?) ==>
      v.clock < v.send.value.expiresAt
  }

  lemma AckBegin(v: View, o: Order)
    requires Inv(v) && AckInv(v) && v.send.None? && o.WellFormed()
    ensures AckInv(v.(send := Some(Send(o, 0, 0, BlobWritten)), blob := true))
  {
  }

  lemma AckCapture(v: View)
    requires Inv(v) && AckInv(v) && v.send.Some? && v.send.value.phase.BlobWritten?
    ensures AckInv(AfterCapture(v))
  {
  }

  lemma AckStore(v: View)
    requires Inv(v) && AckInv(v) && v.send.Some? && v.send.value.phase.Captured? && Unexpired(v)
    ensures AckInv(AfterStore(v))
  {
  }

  lemma AckInsert(v: View, ok: bool)
    requires Inv(v) && AckInv(v) && v.send.Some? && RowsToCome(v.send.value) && Unexpired(v)
    ensures AckInv(AfterInsert(v, ok))
  {
    var d := v.send.value;
    InsertElems(d.order.recipients, d.phase.next, d.phase.eligible);
    var w := AfterInsert(v, ok);
    if !ok && d.order.to.Direct? {
      assert d.phase.next == 0;
      assert Elems(d.order.recipients[..0]) == {};
    }
    assert Elems(Eligible(w.send.value)) == if ok then Elems(d.phase.eligible) + {d.order.recipients[d.phase.next]}
                                            else Elems(d.phase.eligible);
  }

  lemma AckClose(v: View, tomb: Option<Tombstone>)
    requires Inv(v) && AckInv(v) && v.send.Some? && v.send.value.phase.Inserting? && !RowsToCome(v.send.value)
    ensures AckInv(AfterClose(v, tomb))
  {
    var d := v.send.value;
    assert Elems(Eligible(d)) - Counted(v.evals) == Elems(Eligible(d));
  }

  lemma AckTake(v: View, r: Pubkey)
    requires Inv(v) && AckInv(v) && r in v.rows
    ensures AckInv(v.(rows := v.rows - {r}, acking := v.acking + {r}))
  {
    assert (v.rows - {r}).Keys == v.rows.Keys - {r};
  }

  lemma NotYetDone(v: View, r: Pubkey)
    requires Inv(v) && AckInv(v) && r in v.acking && v.send.Some?
    ensures !Done(v) && r !in Answered(v.evals) && r in Elems(Eligible(v.send.value))
    ensures v.pending.Some? <==> v.send.value.phase.Registered?
  {
    CountedPlus(v.evals, r, 0);
  }

  lemma AnswersGrow(a: Answers, r: Pubkey, z: int)
    requires OneAtTheEnd(a) && r !in Answered(a) && z in {-1, 0, 1}
    requires a != [] ==> a[|a| - 1].1 != 1
    ensures OneAtTheEnd(a + [(r, z)])
  {
    var b := a + [(r, z)];
    forall i | 0 <= i < |a| ensures b[i] == a[i] && b[i].0 != r {
      assert a[i].0 in Answered(a);
    }
  }

  lemma AckAnswer(v: View, r: Pubkey)
    requires Inv(v) && AckInv(v) && r in v.acking && v.send.Some?
    ensures AckInv(AfterEval(v, r))
  {
    var w, all := AfterEval(v, r), Elems(Eligible(v.send.value));
    NotYetDone(v, r);
    var z := w.evals[|v.evals|].1;
    CountedPlus(v.evals, r, z);
    AnswersGrow(v.evals, r, z);
    assert Done(w) <==> z == 1;
    assert all == w.rows.Keys + w.acking + Answered(w.evals);
    assert w.rows.Keys !! w.acking !! Answered(w.evals);
    if v.pending.Some? {
      assert v.pending.value.members - {r} == all - Counted(w.evals);
    }
  }

  /** Housekeeping that touches none of rows, acknowledgements, pending set and metadata. */
  lemma AckOther(v: View, w: View)
    requires AckInv(v) && w.evals == v.evals && w.send == v.send && w.rows == v.rows && w.acking == v.acking
    requires w.pending == v.pending && w.earlyDelete == v.earlyDelete
    requires w.meta.Some? <==> v.meta.Some?
    requires v.send.Some? && Live(v, v.send.value) ==>
      w.scan != Some(false) && w.reap.None? && !w.unlinking && (w.blob <==> !w.earlySweep)
    ensures AckInv(w)
  {
  }

  /** The full scan and the reaper cannot reach an envelope that is neither done nor expired. */
  lemma Undisturbed(v: View)
    requires Inv(v) && AckInv(v) && Unexpired(v) && v.send.Some? && Live(v, v.send.value)
    ensures v.meta.Some? && v.scan != Some(false) && !v.unlinking && v.reap.None?
    ensures v.index.Some? ==> v.clock < v.index.value
  {
  }

  lemma AckWait(v: View, w: View, d: nat)
    requires Inv(v) && AckInv(v) && Unexpired(w) && w.rows == v.rows
    requires w == v.(clock := v.clock + d,
                     meta := if v.meta.Some? && v.meta.value.keyExp <= v.clock + d then None else v.meta,
                     pending := if v.pending.Some? && v.pending.value.keyExp <= v.clock + d then None else v.pending,
                     tomb := w.tomb)
    ensures AckInv(w)
  {
  }

  lemma AckCleanUp(v: View)
    requires Inv(v) && AckInv(v) && v.send.Some?
    ensures v.send.value.phase.DroppingMeta? ==> AckInv(v.(send := Some(v.send.value.(phase := DroppingBlob)), meta := None))
    ensures v.send.value.phase.DroppingBlob? ==> AckInv(v.(send := Some(v.send.value.(phase := Refused)), blob := false))
  {
  }

  /** No delete of e is committed, no inbox holding it is dropped, and nothing of it expires. */
  ghost predicate QuietStep(s: State, step: Step, e: EnvelopeId) {
    var v, w := Project(s, e), Project(Apply(s, step), e);
    && Unexpired(v) && Unexpired(w)
    && !(step.DeleteCommit? && step.job.e == e)
    && (step.DropBox? || step.Wait? ==> w.rows == v.rows)
  }

  ghost predicate QuietRun(s: State, steps: seq<Step>, e: EnvelopeId)
    decreases |steps|
  {
    steps == [] || (QuietStep(s, steps[0], e) && QuietRun(Apply(s, steps[0]), steps[1..], e))
  }

  lemma QuietSend(s: State, step: Step, e: EnvelopeId)
    requires AllInv(s) && AckInv(Project(s, e)) && QuietStep(s, step, e)
    requires step.Wait? || step.BeginSend? || step.Capture? || step.StoreMeta? || step.Insert?
          || step.Close? || step.CleanMeta? || step.CleanBlob?
    ensures AckInv(Project(Apply(s, step), e))
  {
    hide Inv, AckInv;
    var v, w := Project(s, e), Project(Apply(s, step), e);
    match step {
      case Wait(d) => ProjWait(s, d, e); AckWait(v, w, d);
      case BeginSend(x, o) =>
        ProjBegin(s, x, o, e);
        if v.send.None? && o.WellFormed() { AckBegin(v, o); }
      case Capture(x) =>
        ProjCapture(s, x, e);
        if v.send.Some? && v.send.value.phase.BlobWritten? { AckCapture(v); }
      case StoreMeta(x) =>
        ProjStoreMeta(s, x, e);
        if v.send.Some? && v.send.value.phase.Captured? { FirstWriterWins(v); AckStore(v); }
      case Insert(x) => QuietInsert(s, x, e);
      case Close(x) =>
        var tomb := ProjClose(s, x, e);
        if x == e && v.send.Some? && v.send.value.phase.Inserting? && !RowsToCome(v.send.value) {
          FreshRegistry(v);
          AckClose(v, tomb);
        }
      case CleanMeta(x) => ProjClean(s, x, e); if v.send.Some? { AckCleanUp(v); }
      case CleanBlob(x) => ProjClean(s, x, e); if v.send.Some? { AckCleanUp(v); }
    }
  }

  /** Pruning with a captured clock removes nothing of an unexpired envelope. */
  lemma PruneSpares(v: View, r: Pubkey, now: int)
    requires Inv(v) && Unexpired(v) && now <= v.clock && r in v.rows
    ensures now < v.rows[r]
  {
  }

  lemma QuietInsert(s: State, x: EnvelopeId, e: EnvelopeId)
    requires AllInv(s) && AckInv(Project(s, e)) && Unexpired(Project(s, e))
    ensures AckInv(Project(DoInsert(s, x), e))
  {
    var v := Project(s, e);
    if x in s.sends && RowsToCome(s.sends[x]) {
      var d := s.sends[x];
      var r := d.order.recipients[d.phase.next];
      var ok := ProjInsert(s, x, e);
      if x == e {
        InsertElems(d.order.recipients, d.phase.next, d.phase.eligible);
        AckInsert(v, ok);
      } else {
        assert Inv(Project(s, x)) && d.now <= s.k.clock;
        if r in v.rows { PruneSpares(v, r, d.now); }
      }
    }
  }

  lemma QuietAck(s: State, step: Step, e: EnvelopeId)
    requires AllInv(s) && AckInv(Project(s, e)) && Unexpired(Project(s, e))
    requires step.AckRemove? || step.AckEval?
    ensures AckInv(Project(Apply(s, step), e))
  {
    hide Inv, AckInv, Unexpired;
    var v := Project(s, e);
    match step {
      case AckRemove(r, x) =>
        ProjAckRemove(s, r, x, e);
        if r in v.rows { AckTake(v, r); }
      case AckEval(r, x) =>
        ProjAckEval(s, r, x, e);
        if r in v.acking { AckingHasSend(v, r); AckAnswer(v, r); }
    }
  }

  lemma QuietUnlink(s: State, x: EnvelopeId, e: EnvelopeId)
    requires AllInv(s) && AckInv(Project(s, e)) && Unexpired(Project(s, e))
    ensures AckInv(Project(Apply(s, AckUnlink(x)), e))
  {
    var v := Project(s, e);
    assert Inv(v);
    Untouchable(v);
    hide Inv, AckInv, Unexpired, Live;
    ProjAckUnlink(s, x, e);
    if v.unlinking { AckOther(v, v.(unlinking := false, blob := false)); }
  }

  lemma AckingHasSend(v: View, r: Pubkey)
    requires Inv(v) && r in v.acking
    ensures v.send.Some?
  {
  }

  lemma QuietOther(v: View, w: View)
    requires Inv(v) && AckInv(v) && Unexpired(v)
    requires w == v.(jobs := w.jobs, seen := w.seen, meta := w.meta) && (w.meta.Some? <==> v.meta.Some?)
    ensures AckInv(w)
  {
  }

  lemma Blobs(v: View)
    requires Inv(v) && AckInv(v) && v.send.Some? && Live(v, v.send.value)
    ensures v.blob <==> !v.earlySweep
  {
  }

  lemma QuietRead(s: State, step: Step, e: EnvelopeId)
    requires Inv(Project(s, e)) && AckInv(Project(s, e)) && Unexpired(Project(s, e))
    requires step.DeleteRead? || step.SealedRead? || step.SeenRead? || step.SeenWrite?
    ensures AckInv(Project(Apply(s, step), e))
  {
    hide Inv, AckInv, Project, DoDeleteRead, DoSealedRead, DoSeenRead, DoSeenWrite;
    match step {
      case DeleteRead(x, caller, r) => ProjDeleteRead(s, x, caller, r, e);
      case SealedRead(x, key) => ProjSealedRead(s, x, key, e);
      case SeenRead(r, x) => ProjSeenRead(s, r, x, e);
      case SeenWrite(x) => ProjSeenWrite(s, x, e);
    }
    QuietOther(Project(s, e), Project(Apply(s, step), e));
  }

  lemma Untouchable(v: View)
    requires Inv(v) && AckInv(v) && Unexpired(v)
    ensures v.send.Some? && Live(v, v.send.value) ==>
              && v.meta.Some? && v.scan != Some(false) && !v.unlinking && v.reap.None?
              && (v.index.Some? ==> v.clock < v.index.value) && (v.blob <==> !v.earlySweep)
  {
    if v.send.Some? && Live(v, v.send.value) {
      Undisturbed(v);
      Blobs(v);
    }
  }

  /** What the reaper and the full scan do to one envelope. */
  function Reaped(v: View, step: Step): View {
    match step
    case ReapPick(_) => if v.index.Some? && 0 <= v.index.value <= v.clock then v.(reap := Some(Picked)) else v
    case ReapLook(_) =>
      if v.reap == Some(Picked) then v.(reap := Some(if v.meta.Some? then Forgetting else MetaGone)) else v
    case ReapUnlink(_) => if v.reap == Some(MetaGone) then v.(blob := false, reap := Some(Forgetting)) else v
    case ReapForget(_) => if v.reap == Some(Forgetting) then v.(index := None, reap := None) else v
    case ScanLook(_) =>
      if v.blob && v.meta.None? then v.(scan := Some(v.send.Some? && PreMeta(v.send.value.phase))) else v
    case ScanUnlink(_) =>
      if v.scan.Some? then v.(blob := false, scan := None, earlySweep := v.earlySweep || v.scan.value) else v
    case _ => v
  }

  lemma ReapedKeeps(v: View, step: Step)
    requires Inv(v) && AckInv(v) && Unexpired(v)
    ensures AckInv(Reaped(v, step))
  {
    Untouchable(v);
    hide Inv, AckInv, Unexpired, Live, PreMeta;
    AckOther(v, Reaped(v, step));
  }

  lemma PickOrLook(s: State, step: Step, e: EnvelopeId)
    requires step.ReapPick? || step.ReapLook?
    ensures var (v, w) := (Project(s, e), Project(Apply(s, step), e)); w == v || w == Reaped(v, step)
  {
    hide Project, PreMeta, DoReapPick, DoReapLook;
    match step {
      case ReapPick(x) => ProjReapPick(s, x, e);
      case ReapLook(x) => ProjReapLook(s, x, e);
    }
  }

  lemma UnlinkOrForget(s: State, step: Step, e: EnvelopeId)
    requires step.ReapUnlink? || step.ReapForget?
    ensures var (v, w) := (Project(s, e), Project(Apply(s, step), e)); w == v || w == Reaped(v, step)
  {
    hide Project, PreMeta, DoReapUnlink, DoReapForget;
    match step {
      case ReapUnlink(x) => ProjReapUnlink(s, x, e);
      case ReapForget(x) => ProjReapForget(s, x, e);
    }
  }

  lemma ScanStep(s: State, step: Step, e: EnvelopeId)
    requires step.ScanLook? || step.ScanUnlink?
    ensures var (v, w) := (Project(s, e), Project(Apply(s, step), e)); w == v || w == Reaped(v, step)
  {
    hide Project, PreMeta, DoScanLook, DoScanUnlink;
    match step {
      case ScanLook(x) => ProjScanLook(s, x, e);
      case ScanUnlink(x) => ProjScanUnlink(s, x, e);
    }
  }

  lemma QuietReap(s: State, step: Step, e: EnvelopeId)
    requires Inv(Project(s, e)) && AckInv(Project(s, e)) && Unexpired(Project(s, e))
    requires step.ReapPick? || step.ReapLook? || step.ReapUnlink? || step.ReapForget? || step.ScanLook? || step.ScanUnlink?
    ensures AckInv(Project(Apply(s, step), e))
  {
    hide Inv, AckInv, Unexpired, Project, Reaped, Apply;
    ReapedKeeps(Project(s, e), step);
    if step.ReapPick? || step.ReapLook? {
      PickOrLook(s, step, e);
    } else if step.ReapUnlink? || step.ReapForget? {
      UnlinkOrForget(s, step, e);
    } else {
      ScanStep(s, step, e);
    }
  }

  lemma QuietListInbox(s: State, r: Pubkey, now: int, e: EnvelopeId)
    requires Inv(Project(s, e)) && AckInv(Project(s, e)) && Unexpired(Project(s, e))
    ensures AckInv(Project(DoListInbox(s, r, now), e))
  {
    hide Inv, AckInv;
    var v, w := Project(s, e), Project(DoListInbox(s, r, now), e);
    ProjListInbox(s, r, now, e);
    if r in v.rows && now <= v.clock { PruneSpares(v, r, now); }
  }

  lemma QuietKeeps(s: State, step: Step, e: EnvelopeId)
    requires AllInv(s) && AckInv(Project(s, e)) && QuietStep(s, step, e)
    ensures AckInv(Project(Apply(s, step), e))
  {
    hide Inv, AckInv;
    match step {
      case AckRemove(_, _) => QuietAck(s, step, e);
      case AckEval(_, _) => QuietAck(s, step, e);
      case AckUnlink(x) => QuietUnlink(s, x, e);
      case DeleteRead(_, _, _) => QuietRead(s, step, e);
      case SealedRead(_, _) => QuietRead(s, step, e);
      case SeenRead(_, _) => QuietRead(s, step, e);
      case SeenWrite(_) => QuietRead(s, step, e);
      case DeleteCommit(job) => assert job !in Project(s, e).jobs; ProjDeleteCommit(s, job, e);
      case ReapPick(_) => QuietReap(s, step, e);
      case ReapLook(_) => QuietReap(s, step, e);
      case ReapUnlink(_) => QuietReap(s, step, e);
      case ReapForget(_) => QuietReap(s, step, e);
      case ScanLook(_) => QuietReap(s, step, e);
      case ScanUnlink(_) => QuietReap(s, step, e);
      case ListInbox(r, now) => QuietListInbox(s, r, now, e);
      case DropBox(r) => ProjDropBox(s, r, e);
      case _ => QuietSend(s, step, e);
    }
  }

  lemma {:induction false} QuietRunKeeps(s: State, steps: seq<Step>, e: EnvelopeId)
    requires AllInv(s) && AckInv(Project(s, e)) && QuietRun(s, steps, e)
    ensures AckInv(Project(Run(s, steps), e)) && AllInv(Run(s, steps))
    decreases |steps|
  {
    if steps != [] {
      StepKeeps(s, steps[0]);
      QuietKeeps(s, steps[0], e);
      QuietRunKeeps(Apply(s, steps[0]), steps[1..], e);
    }
  }

  lemma QuietFromStart(steps: seq<Step>, e: EnvelopeId)
    requires QuietRun(INIT, steps, e)
    ensures AckInv(Project(Run(INIT, steps), e)) && AllInv(Run(INIT, steps))
  {
    InitInv();
    assert Project(INIT, e) == Blank(0);
    QuietRunKeeps(INIT, steps, e);
  }

  /** Reference counting: the recipients whose insertion succeeded are those still holding the
      envelope, those between row removal and script, and those answered; the pending set is
      all of them but the answered; each is answered once; and "delete now" is said at most
      once, as the last answer, when everyone has been counted. */
  lemma PendingIsReferenceCount(steps: seq<Step>, e: EnvelopeId)
    requires QuietRun(INIT, steps, e) && e in Run(INIT, steps).sends
    ensures var s := Run(INIT, steps);
            var a, all := Evals(s, e), Elems(Eligible(s.sends[e]));
            var holders, between := Rows(s.k.inboxes, e).Keys, Acking(s.acking, e);
            && all == holders + between + Answered(a)
            && holders !! between !! Answered(a)
            && (forall i, j :: 0 <= i < j < |a| ==> a[i].0 != a[j].0)
            && (forall i :: 0 <= i < |a| && a[i].1 == 1 ==> i == |a| - 1 && Counted(a) == all)
            && (s.sends[e].phase.Registered? && !(exists i :: 0 <= i < |a| && a[i].1 == 1) && all != {} ==>
                  e in s.k.pendings && s.k.pendings[e].members == all - Counted(a))
  {
    QuietFromStart(steps, e);
    var s := Run(INIT, steps);
    var v := Project(s, e);
    if Done(v) {
      assert v.evals[|v.evals| - 1].1 == 1;
    }
  }

  predicate SaidDeleteNow(a: Answers) { exists i :: 0 <= i < |a| && a[i].1 == 1 }

  lemma DoneIff(v: View)
    requires AckInv(v)
    ensures SaidDeleteNow(v.evals) <==> Done(v)
  {
    if Done(v) {
      assert v.evals[|v.evals| - 1].1 == 1;
    }
  }

  lemma BlobUntilDone(v: View)
    requires AckInv(v) && v.send.Some? && v.send.value.phase.Registered?
    ensures if Done(v) then v.meta.None? && v.pending.None? else v.meta.Some? && (v.blob <==> !v.earlySweep)
  {
  }

  /** Before "delete now" metadata and blob stay; after it metadata and pending set are gone. */
  lemma BlobOutlivesLastAck(steps: seq<Step>, e: EnvelopeId)
    requires QuietRun(INIT, steps, e)
    ensures var s := Run(INIT, steps);
            e in s.sends && s.sends[e].phase.Registered? ==>
              if SaidDeleteNow(Evals(s, e))
              then e !in s.k.metas && e !in s.k.pendings
              else e in s.k.metas && (e in s.k.blobs <==> e !in s.earlySweeps)
  {
    QuietFromStart(steps, e);
    var s := Run(INIT, steps);
    hide AckInv, AllInv, Run, SaidDeleteNow, Done, Rows, Acking, Jobs, Evals;
    var v := Project(s, e);
    DoneIff(v);
    if e in s.sends && s.sends[e].phase.Registered? {
      BlobUntilDone(v);
    }
  }

  /** Once every recipient has acknowledged, the envelope is gone at once if and only if no
      acknowledgement overtook the pending registration; otherwise it waits for the reaper. */
  lemma PromptDeletionIff(steps: seq<Step>, e: EnvelopeId)
    requires QuietRun(INIT, steps, e)
    requires var s := Run(INIT, steps);
             && e in s.sends && s.sends[e].phase.Registered? && s.sends[e].phase.eligible != []
             && Rows(s.k.inboxes, e) == map[] && Acking(s.acking, e) == {}
    ensures var s := Run(INIT, steps);
            e !in s.k.metas && e !in s.k.pendings <==> Overtook(Evals(s, e)) == {}
  {
    QuietFromStart(steps, e);
    var s := Run(INIT, steps);
    var v, el := Project(s, e), s.sends[e].phase.eligible;
    assert el[0] in Elems(el);
    CountedPlus(v.evals, 0, 0);
    assert Overtook(v.evals) == {} ==> Elems(el) - Counted(v.evals) == {};
  }
}
