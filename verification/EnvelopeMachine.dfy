/** Every operation on the queue as a sequence of indivisible steps, and runs that interleave
    the steps of any number of operations in any order. A task that dies simply takes no
    further step. */
module EnvelopeMachine {
  import opened Common
  import opened QueueKeys

  /** How far the send of one envelope has come. `next` counts recipients already tried. */
  datatype Phase =
    | BlobWritten
    | Captured
    | Inserting(next: nat, eligible: seq<Pubkey>)
    | Registered(eligible: seq<Pubkey>)
    | DroppingMeta
    | DroppingBlob
    | Refused

  datatype Send = Send(order: Order, now: int, expiresAt: int, phase: Phase)

  /** Who asked for a delete: a caller by public key, or whoever presented a sealed
      envelope's delete key. */
  datatype Requester = Caller(pubkey: Pubkey) | KeyHolder(key: nat)

  datatype DeleteJob = DeleteJob(e: EnvelopeId, recipient: Pubkey, asker: Requester)

  datatype ReapPhase = Picked | MetaGone | Forgetting

  /** `earlyDeletes` and `earlySweeps` record the two schedules that undercut a send:
      a delete committed between its metadata write and its inbox insertion, and a full
      scan that looked between its blob write and its metadata write.
      `evals` is the history of acknowledgement results per envelope. */
  datatype State = State(
    k: Keys,
    sends: map<EnvelopeId, Send>,
    acking: set<(Pubkey, EnvelopeId)>,
    unlinking: set<EnvelopeId>,
    deletes: set<DeleteJob>,
    seen: map<EnvelopeId, Meta>,
    reaps: map<EnvelopeId, ReapPhase>,
    scans: map<EnvelopeId, bool>,
    earlyDeletes: set<EnvelopeId>,
    earlySweeps: set<EnvelopeId>,
    evals: map<EnvelopeId, seq<(Pubkey, int)>>)

  const INIT := State(EMPTY_KEYS, map[], {}, {}, {}, map[], map[], map[], {}, {}, map[])

  datatype Step =
    | Wait(seconds: nat)
    | BeginSend(e: EnvelopeId, order: Order)
    | Capture(e: EnvelopeId)
    | StoreMeta(e: EnvelopeId)
    | Insert(e: EnvelopeId)
    | Close(e: EnvelopeId)
    | CleanMeta(e: EnvelopeId)
    | CleanBlob(e: EnvelopeId)
    | AckRemove(r: Pubkey, e: EnvelopeId)
    | AckEval(r: Pubkey, e: EnvelopeId)
    | AckUnlink(e: EnvelopeId)
    | DeleteRead(e: EnvelopeId, caller: Pubkey, r: Pubkey)
    | SealedRead(e: EnvelopeId, key: nat)
    | DeleteCommit(job: DeleteJob)
    | SeenRead(r: Pubkey, e: EnvelopeId)
    | SeenWrite(e: EnvelopeId)
    | ReapPick(e: EnvelopeId)
    | ReapLook(e: EnvelopeId)
    | ReapUnlink(e: EnvelopeId)
    | ReapForget(e: EnvelopeId)
    | ScanLook(e: EnvelopeId)
    | ScanUnlink(e: EnvelopeId)
    | ListInbox(r: Pubkey, now: int)
    | DropBox(r: Pubkey)

  /** The send of e moves on to phase p, leaving the keys as k. */
  function Move(s: State, e: EnvelopeId, p: Phase, k: Keys): State
    requires e in s.sends
  {
    s.(sends := s.sends[e := s.sends[e].(phase := p)], k := k)
  }

  predicate PreMeta(p: Phase) { p.BlobWritten? || p.Captured? }

  function Evals(s: State, e: EnvelopeId): seq<(Pubkey, int)> {
    if e in s.evals then s.evals[e] else []
  }

  /** Each envelope id is sent once. */
  function DoBegin(s: State, e: EnvelopeId, o: Order): State {
    if e in s.sends || !o.WellFormed() then s
    else s.(sends := s.sends[e := Send(o, 0, 0, BlobWritten)], k := WriteBlob(s.k, e))
  }

  function DoCapture(s: State, e: EnvelopeId): State {
    if e !in s.sends || !s.sends[e].phase.BlobWritten? then s
    else
      var o, now := s.sends[e].order, s.k.clock;
      var x := o.ExpiresAt(now);
      var p := if x > now then Captured else if o.to.Direct? then DroppingBlob else Refused;
      s.(sends := s.sends[e := Send(o, now, x, p)])
  }

  /** SET NX for a DM, plain SET for a group message. */
  function DoStoreMeta(s: State, e: EnvelopeId): State {
    if e !in s.sends || !s.sends[e].phase.Captured? then s
    else
      var d := s.sends[e];
      if d.order.to.Direct? && e in s.k.metas then Move(s, e, Refused, s.k)
      else Move(s, e, Inserting(0, []), SetMeta(s.k, e, d.order, d.now, d.expiresAt))
  }

  function DoInsert(s: State, e: EnvelopeId): State {
    if e !in s.sends || !s.sends[e].phase.Inserting? then s
    else
      var d := s.sends[e];
      var i := d.phase.next;
      if i >= |d.order.recipients| then s
      else
        var r := d.order.recipients[i];
        var (k', ok) := InboxScript(s.k, r, d.now, e, d.expiresAt);
        if ok then Move(s, e, Inserting(i + 1, d.phase.eligible + [r]), k')
        else if d.order.to.Direct? then Move(s, e, DroppingMeta, k')
        else Move(s, e, Inserting(i + 1, d.phase.eligible), k')
  }

  function DoClose(s: State, e: EnvelopeId): State {
    if e !in s.sends || !s.sends[e].phase.Inserting? then s
    else
      var d := s.sends[e];
      if d.phase.next < |d.order.recipients| then s
      else Move(s, e, Registered(d.phase.eligible),
                Register(s.k, e, d.order, d.phase.eligible, d.now, d.expiresAt))
  }

  function DoCleanMeta(s: State, e: EnvelopeId): State {
    if e !in s.sends || !s.sends[e].phase.DroppingMeta? then s
    else Move(s, e, DroppingBlob, DropMeta(s.k, e))
  }

  function DoCleanBlob(s: State, e: EnvelopeId): State {
    if e !in s.sends || !s.sends[e].phase.DroppingBlob? then s
    else Move(s, e, Refused, Unlink(s.k, e))
  }

  function DoAckRemove(s: State, r: Pubkey, e: EnvelopeId): State {
    if !Held(s.k, r, e) then s
    else s.(k := RemoveRow(s.k, r, e), acking := s.acking + {(r, e)})
  }

  function DoAckEval(s: State, r: Pubkey, e: EnvelopeId): State {
    if (r, e) !in s.acking then s
    else
      var (k', v) := AckScript(s.k, r, e);
      s.(k := k', acking := s.acking - {(r, e)},
         unlinking := if v == 1 then s.unlinking + {e} else s.unlinking,
         evals := s.evals[e := Evals(s, e) + [(r, v)]])
  }

  function DoAckUnlink(s: State, e: EnvelopeId): State {
    if e !in s.unlinking then s
    else s.(k := Unlink(s.k, e), unlinking := s.unlinking - {e})
  }

  predicate MayDelete(k: Keys, e: EnvelopeId, caller: Pubkey, r: Pubkey) {
    if e in k.metas then k.metas[e].sender == Some(caller) && k.metas[e].to == Direct(r)
    else e in k.tombs && k.tombs[e].sender == caller && k.tombs[e].recipient == r
  }

  predicate MayDeleteSealed(k: Keys, e: EnvelopeId, key: nat) {
    && e in k.metas && k.metas[e].sealed && k.metas[e].to.Direct?
    && k.metas[e].deleteKey == Some(key)
  }

  function DoDeleteRead(s: State, e: EnvelopeId, caller: Pubkey, r: Pubkey): State {
    if MayDelete(s.k, e, caller, r) then s.(deletes := s.deletes + {DeleteJob(e, r, Caller(caller))}) else s
  }

  function DoSealedRead(s: State, e: EnvelopeId, key: nat): State {
    if MayDeleteSealed(s.k, e, key) then
      s.(deletes := s.deletes + {DeleteJob(e, s.k.metas[e].to.pubkey, KeyHolder(key))})
    else s
  }

  /** The metadata is written and some inbox insertion is still ahead. */
  predicate RowsToCome(d: Send) {
    d.phase.Inserting? && d.phase.next < |d.order.recipients|
  }

  function DoDeleteCommit(s: State, job: DeleteJob): State {
    if job !in s.deletes then s
    else s.(k := DeleteBlock(s.k, job.recipient, job.e, job.asker.KeyHolder?),
            deletes := s.deletes - {job},
            earlyDeletes := if job.e in s.sends && RowsToCome(s.sends[job.e]) then s.earlyDeletes + {job.e} else s.earlyDeletes)
  }

  function DoSeenRead(s: State, r: Pubkey, e: EnvelopeId): State {
    if Held(s.k, r, e) && e in s.k.metas && s.k.metas[e].mail && s.k.metas[e].to == Direct(r)
      && !s.k.metas[e].mailSeen
    then s.(seen := s.seen[e := s.k.metas[e].(mailSeen := true)])
    else s
  }

  function DoSeenWrite(s: State, e: EnvelopeId): State {
    if e !in s.seen then s
    else s.(k := OverwriteMeta(s.k, e, s.seen[e]), seen := s.seen - {e})
  }

  function DoReapPick(s: State, e: EnvelopeId): State {
    if e in s.k.index && 0 <= s.k.index[e] <= s.k.clock then s.(reaps := s.reaps[e := Picked]) else s
  }

  function DoReapLook(s: State, e: EnvelopeId): State {
    if e !in s.reaps || !s.reaps[e].Picked? then s
    else s.(reaps := s.reaps[e := if e in s.k.metas then Forgetting else MetaGone])
  }

  function DoReapUnlink(s: State, e: EnvelopeId): State {
    if e !in s.reaps || !s.reaps[e].MetaGone? then s
    else s.(k := Unlink(s.k, e), reaps := s.reaps[e := Forgetting])
  }

  function DoReapForget(s: State, e: EnvelopeId): State {
    if e !in s.reaps || !s.reaps[e].Forgetting? then s
    else s.(k := ForgetIndex(s.k, e), reaps := s.reaps - {e})
  }

  /** The full scan visits files on disk; `true` marks a look before the metadata write. */
  function DoScanLook(s: State, e: EnvelopeId): State {
    if e !in s.k.blobs || e in s.k.metas then s
    else s.(scans := s.scans[e := e in s.sends && PreMeta(s.sends[e].phase)])
  }

  function DoScanUnlink(s: State, e: EnvelopeId): State {
    if e !in s.scans then s
    else s.(k := Unlink(s.k, e), scans := s.scans - {e},
            earlySweeps := if s.scans[e] then s.earlySweeps + {e} else s.earlySweeps)
  }

  function DoListInbox(s: State, r: Pubkey, now: int): State {
    if now > s.k.clock then s else s.(k := Prune(s.k, r, now))
  }

  function Apply(s: State, step: Step): State {
    match step
    case Wait(d) => s.(k := Tick(s.k, d))
    case BeginSend(e, o) => DoBegin(s, e, o)
    case Capture(e) => DoCapture(s, e)
    case StoreMeta(e) => DoStoreMeta(s, e)
    case Insert(e) => DoInsert(s, e)
    case Close(e) => DoClose(s, e)
    case CleanMeta(e) => DoCleanMeta(s, e)
    case CleanBlob(e) => DoCleanBlob(s, e)
    case AckRemove(r, e) => DoAckRemove(s, r, e)
    case AckEval(r, e) => DoAckEval(s, r, e)
    case AckUnlink(e) => DoAckUnlink(s, e)
    case DeleteRead(e, c, r) => DoDeleteRead(s, e, c, r)
    case SealedRead(e, key) => DoSealedRead(s, e, key)
    case DeleteCommit(job) => DoDeleteCommit(s, job)
    case SeenRead(r, e) => DoSeenRead(s, r, e)
    case SeenWrite(e) => DoSeenWrite(s, e)
    case ReapPick(e) => DoReapPick(s, e)
    case ReapLook(e) => DoReapLook(s, e)
    case ReapUnlink(e) => DoReapUnlink(s, e)
    case ReapForget(e) => DoReapForget(s, e)
    case ScanLook(e) => DoScanLook(s, e)
    case ScanUnlink(e) => DoScanUnlink(s, e)
    case ListInbox(r, now) => DoListInbox(s, r, now)
    case DropBox(r) => s.(k := DropInbox(s.k, r))
  }

  /** Any finite sequence of steps is a run; a step that is not enabled changes nothing. */
  function Run(s: State, steps: seq<Step>): State
    decreases |steps|
  {
    if steps == [] then s else Run(Apply(s, steps[0]), steps[1..])
  }

  lemma {:induction false} RunAppend(s: State, steps: seq<Step>, last: Step)
    ensures Run(s, steps + [last]) == Apply(Run(s, steps), last)
    decreases |steps|
  {
    if steps == [] {
      assert (steps + [last])[1..] == [];
    } else {
      RunAppend(Apply(s, steps[0]), steps[1..], last);
      assert (steps + [last])[1..] == steps[1..] + [last];
    }
  }

  lemma RunCons(s: State, first: Step, rest: seq<Step>)
    ensures Run(s, [first] + rest) == Run(Apply(s, first), rest)
  {
    assert ([first] + rest)[1..] == rest;
  }
}
