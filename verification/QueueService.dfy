/** The queue operations as the relay runs them, updating the store in place. Each method is
    tied to a function of the old store; the functions are composed of the indivisible steps
    that EnvelopeMachine interleaves. */
module QueueService {
  import opened Common
  import opened QueueKeys
  import opened EnvelopeMachine

  datatype DeleteError = GroupMessage | NotSender | RecipientMismatch | NotFound

  /** The reply to a sender's delete; no error means the operation was accepted. */
  datatype Deletion = Deletion(deletedFromQueue: bool, metaExisted: bool, error: Option<DeleteError>)

  datatype Outcome = Queued(expiresAt: int) | Duplicate | Rejected(status: int)

  function Enqueue(k: Keys, e: EnvelopeId, o: Order): (Keys, Outcome)
    requires o.to.Direct?
  {
    var now, x, r := k.clock, o.ExpiresAt(k.clock), o.to.pubkey;
    if x <= now then (k, Rejected(400))
    else if e in k.metas then (k, Duplicate)
    else
      var (k2, ok) := InboxScript(SetMeta(k, e, o, now, x), r, now, e, x);
      if ok then (Register(k2, e, o, [r], now, x), Queued(x)) else (DropMeta(k2, e), Rejected(429))
  }

  function WriteThenEnqueue(k: Keys, e: EnvelopeId, o: Order): (Keys, Outcome)
    requires o.to.Direct?
  {
    var (k', out) := Enqueue(WriteBlob(k, e), e, o);
    (if out.Rejected? then Unlink(k', e) else k', out)
  }

  /** The inbox script for each recipient in turn: the store, and who got a row. */
  function InsertAll(k: Keys, e: EnvelopeId, rs: seq<Pubkey>, now: int, x: int): (Keys, seq<Pubkey>)
    decreases |rs|
  {
    if rs == [] then (k, [])
    else
      var n := |rs| - 1;
      var (k1, el) := InsertAll(k, e, rs[..n], now, x);
      var (k2, ok) := InboxScript(k1, rs[n], now, e, x);
      (k2, if ok then el + [rs[n]] else el)
  }

  lemma InsertNone(k: Keys, e: EnvelopeId, rs: seq<Pubkey>, now: int, x: int)
    ensures InsertAll(k, e, rs[..0], now, x) == (k, [])
  {
  }

  lemma InsertNext(k: Keys, e: EnvelopeId, rs: seq<Pubkey>, i: nat, now: int, x: int)
    requires i < |rs|
    ensures var (k1, el) := InsertAll(k, e, rs[..i], now, x);
            var (k2, ok) := InboxScript(k1, rs[i], now, e, x);
            InsertAll(k, e, rs[..i + 1], now, x) == (k2, if ok then el + [rs[i]] else el)
  {
    assert rs[..i + 1][..i] == rs[..i];
    hide InboxScript;
  }

  function FanOut(k: Keys, e: EnvelopeId, o: Order): (Keys, int, nat) {
    var now, x := k.clock, o.ExpiresAt(k.clock);
    if x <= now then (k, x, 0)
    else
      var (k2, el) := InsertAll(SetMeta(k, e, o, now, x), e, o.recipients, now, x);
      (Register(k2, e, o, el, now, x), x, |el|)
  }

  function Acknowledge(k: Keys, r: Pubkey, e: EnvelopeId): (Keys, bool) {
    if !Held(k, r, e) then (k, false)
    else
      var (k', z) := AckScript(RemoveRow(k, r, e), r, e);
      (if z == 1 then Unlink(k', e) else k', true)
  }

  function Due(k: Keys): set<EnvelopeId> { set e | e in k.index && 0 <= k.index[e] <= k.clock }

  /** The candidates leave the index; those without metadata lose their blob. */
  function Reap(k: Keys, es: set<EnvelopeId>): Keys {
    k.(index := k.index - es, blobs := k.blobs - (es - k.metas.Keys))
  }

  function Reaped(k: Keys, es: set<EnvelopeId>): set<EnvelopeId> { (es - k.metas.Keys) * k.blobs }

  function StillQueued(k: Keys, es: set<EnvelopeId>): set<EnvelopeId> { es * k.metas.Keys }

  lemma QueuedPlus(k: Keys, es: set<EnvelopeId>, e: EnvelopeId)
    requires e !in es
    ensures |StillQueued(k, es + {e})| == |StillQueued(k, es)| + if e in k.metas then 1 else 0
  {
    assert StillQueued(k, es + {e}) == if e in k.metas then StillQueued(k, es) + {e} else StillQueued(k, es);
  }

  lemma ReapPlus(k: Keys, es: set<EnvelopeId>, e: EnvelopeId)
    requires e !in es
    ensures Reap(Reap(k, es), {e}) == Reap(k, es + {e})
  {
    var kept := k.metas.Keys;
    assert es + {e} - kept == (es - kept) + ({e} - kept);
    assert k.index - es - {e} == k.index - (es + {e});
    assert k.blobs - (es - kept) - ({e} - kept) == k.blobs - (es + {e} - kept);
  }

  lemma GrowDifference(es: set<EnvelopeId>, kept: set<EnvelopeId>, blobs: set<EnvelopeId>, e: EnvelopeId)
    ensures (es + {e} - kept) * blobs ==
            if e in blobs && e !in kept then (es - kept) * blobs + {e} else (es - kept) * blobs
  {
  }

  lemma ReapedPlus(k: Keys, es: set<EnvelopeId>, e: EnvelopeId)
    requires e !in es
    ensures |Reaped(k, es + {e})| == |Reaped(k, es)| + if e in Reap(k, es).blobs && e !in k.metas then 1 else 0
  {
    GrowDifference(es, k.metas.Keys, k.blobs, e);
    assert e in Reap(k, es).blobs <==> e in k.blobs;
    assert e !in Reaped(k, es);
  }

  lemma ReapKeepsMetas(k: Keys, es: set<EnvelopeId>)
    ensures Reap(k, es).metas == k.metas
  {
  }

  lemma ReapNone(k: Keys)
    ensures Reap(k, {}) == k && Reaped(k, {}) == {} && StillQueued(k, {}) == {}
  {
    assert k.index - {} == k.index;
  }

  predicate SeenBy(k: Keys, r: Pubkey, e: EnvelopeId) {
    Held(k, r, e) && e in k.metas && k.metas[e].mail && k.metas[e].to == Direct(r)
  }

  function Flagged(m: map<EnvelopeId, Meta>, es: set<EnvelopeId>): map<EnvelopeId, Meta> {
    map e | e in m :: if e in es then m[e].(mailSeen := true) else m[e]
  }

  /** Own mail rows among the ids are flagged; nothing else changes. */
  function MarkSeen(k: Keys, r: Pubkey, ids: seq<EnvelopeId>): Keys {
    k.(metas := Flagged(k.metas, set e | e in ids && SeenBy(k, r, e)))
  }

  const MAIL_SEEN_BATCH_MAX: nat := 200

  function SeenBatch(ids: seq<EnvelopeId>): seq<EnvelopeId> {
    if |ids| <= MAIL_SEEN_BATCH_MAX then ids else ids[..MAIL_SEEN_BATCH_MAX]
  }

  function SeenIndices(k: Keys, r: Pubkey, ids: seq<EnvelopeId>): set<nat> {
    set i: nat | i < |ids| && SeenBy(k, r, ids[i])
  }

  lemma SeenIndicesPlus(k: Keys, r: Pubkey, ids: seq<EnvelopeId>, i: nat)
    requires i < |ids|
    ensures SeenIndices(k, r, ids[..i + 1]) ==
            if SeenBy(k, r, ids[i]) then SeenIndices(k, r, ids[..i]) + {i} else SeenIndices(k, r, ids[..i])
    ensures |SeenIndices(k, r, ids[..i + 1])| == |SeenIndices(k, r, ids[..i])| + if SeenBy(k, r, ids[i]) then 1 else 0
  {
    assert i !in SeenIndices(k, r, ids[..i]);
  }

  class RelayStore {
    var clock: int
    var inboxes: Inboxes
    var inboxExp: map<Pubkey, int>
    var metas: map<EnvelopeId, Meta>
    var pendings: map<EnvelopeId, Pending>
    var index: map<EnvelopeId, int>
    var tombs: map<EnvelopeId, Tombstone>
    var blobs: set<EnvelopeId>

    function View(): Keys
      reads this
    {
      Keys(clock, inboxes, inboxExp, metas, pendings, index, tombs, blobs)
    }

    constructor ()
      ensures View() == EMPTY_KEYS
    {
      clock, inboxes, inboxExp, metas := 0, map[], map[], map[];
      pendings, index, tombs, blobs := map[], map[], map[], {};
    }

    method StoreInbox(r: Pubkey, box: map<EnvelopeId, int>)
      modifies this
      ensures View() == PutInbox(old(View()), r, box)
    {
      if box == map[] {
        inboxes := inboxes - {r};
        inboxExp := inboxExp - {r};
      } else {
        inboxes := inboxes[r := box];
      }
    }

    method RunInboxScript(r: Pubkey, now: int, e: EnvelopeId, expiresAt: int) returns (inserted: bool)
      modifies this
      ensures (View(), inserted) == InboxScript(old(View()), r, now, e, expiresAt)
    {
      var box := Pruned(Inbox(View(), r), now);
      inserted := |box| < MAX_INBOX_QUEUE_DEPTH;
      if inserted {
        box := box[e := expiresAt];
      }
      StoreInbox(r, box);
    }

    method RunAckScript(r: Pubkey, e: EnvelopeId) returns (result: int)
      modifies this
      ensures (View(), result) == AckScript(old(View()), r, e)
      ensures result == (if e !in old(pendings) then -1 else if old(pendings)[e].members - {r} == {} then 1 else 0)
    {
      if e !in pendings {
        return -1;
      }
      var left := pendings[e].members - {r};
      if left == {} {
        pendings := pendings - {e};
        metas := metas - {e};
        return 1;
      }
      pendings := pendings[e := pendings[e].(members := left)];
      return 0;
    }

    method Commit(k: Keys)
      modifies this
      ensures View() == k
    {
      clock, inboxes, inboxExp, metas := k.clock, k.inboxes, k.inboxExp, k.metas;
      pendings, index, tombs, blobs := k.pendings, k.index, k.tombs, k.blobs;
    }

    method EnqueueEnvelope(e: EnvelopeId, o: Order) returns (out: Outcome)
      requires o.to.Direct?
      modifies this
      ensures (View(), out) == Enqueue(old(View()), e, o)
    {
      var now := clock;
      var expiresAt := o.ExpiresAt(now);
      if expiresAt - now <= 0 {
        return Rejected(400);
      }
      if e in metas {
        return Duplicate;
      }
      metas := metas[e := NewMeta(o, expiresAt, clock + (expiresAt - now))];
      var inserted := RunInboxScript(o.to.pubkey, now, e, expiresAt);
      if !inserted {
        metas := metas - {e};
        return Rejected(429);
      }
      Commit(Register(View(), e, o, [o.to.pubkey], now, expiresAt));
      return Queued(expiresAt);
    }

    method WriteBlobThenEnqueue(e: EnvelopeId, o: Order) returns (out: Outcome)
      requires o.to.Direct?
      modifies this
      ensures (View(), out) == WriteThenEnqueue(old(View()), e, o)
      ensures blobs == if out.Rejected? then old(blobs) - {e} else old(blobs) + {e}
    {
      blobs := blobs + {e};
      out := EnqueueEnvelope(e, o);
      if out.Rejected? {
        blobs := blobs - {e};
      }
    }

    method EnqueueForRecipients(e: EnvelopeId, o: Order) returns (expiresAt: int, count: nat)
      modifies this
      ensures (View(), expiresAt, count) == FanOut(old(View()), e, o)
    {
      var now := clock;
      expiresAt := o.ExpiresAt(now);
      if expiresAt - now <= 0 {
        return expiresAt, 0;
      }
      metas := metas[e := NewMeta(o, expiresAt, clock + (expiresAt - now))];
      ghost var k1 := View();
      var eligible: seq<Pubkey> := [];
      InsertNone(k1, e, o.recipients, now, expiresAt);
      for i := 0 to |o.recipients|
        invariant (View(), eligible) == InsertAll(k1, e, o.recipients[..i], now, expiresAt)
      {
        hide InsertAll, InboxScript;
        InsertNext(k1, e, o.recipients, i, now, expiresAt);
        var inserted := RunInboxScript(o.recipients[i], now, e, expiresAt);
        if inserted {
          eligible := eligible + [o.recipients[i]];
        }
      }
      assert o.recipients[..|o.recipients|] == o.recipients;
      Commit(Register(View(), e, o, eligible, now, expiresAt));
      count := |eligible|;
    }

    method AcknowledgeEnvelope(r: Pubkey, e: EnvelopeId) returns (acked: bool)
      modifies this
      ensures (View(), acked) == Acknowledge(old(View()), r, e)
    {
      if !Held(View(), r, e) {
        return false;
      }
      StoreInbox(r, inboxes[r] - {e});
      var result := RunAckScript(r, e);
      if result == 1 {
        blobs := blobs - {e};
      }
      return true;
    }

    /** Metadata decides while it is there, then the tombstone; each refusal has its own name,
        and the caller learns whether a row was removed. */
    method DeleteBySender(e: EnvelopeId, caller: Pubkey, r: Pubkey) returns (reply: Deletion)
      modifies this
      ensures reply.error.None? <==> MayDelete(old(View()), e, caller, r)
      ensures reply.error.None? <==>
                if e in old(metas) then old(metas)[e].sender == Some(caller) && old(metas)[e].to == Direct(r)
                else e in old(tombs) && old(tombs)[e].sender == caller && old(tombs)[e].recipient == r
      ensures reply.error == Some(NotSender) <==>
                if e in old(metas) then old(metas)[e].to.Direct? && old(metas)[e].sender != Some(caller)
                else e in old(tombs) && !(old(tombs)[e].sender == caller && old(tombs)[e].recipient == r)
      ensures reply.error.None? ==> e !in metas && e !in tombs && !Held(View(), r, e) && blobs == old(blobs)
      ensures View() == if reply.error.None? then DeleteBlock(old(View()), r, e, false) else old(View())
      ensures reply.metaExisted <==> e in old(metas)
      ensures reply.deletedFromQueue <==> reply.error.None? && Held(old(View()), r, e)
      ensures reply.error == Some(GroupMessage) <==> e in old(metas) && old(metas)[e].to.Group?
      ensures reply.error == Some(RecipientMismatch) <==>
              e in old(metas) && old(metas)[e].sender == Some(caller) && old(metas)[e].to.Direct? && old(metas)[e].to.pubkey != r
      ensures reply.error == Some(NotFound) <==> e !in old(metas) && e !in old(tombs)
    {
      var existed := e in metas;
      if existed {
        if metas[e].to.Group? {
          return Deletion(false, true, Some(GroupMessage));
        }
        if metas[e].sender != Some(caller) {
          return Deletion(false, true, Some(NotSender));
        }
        if metas[e].to.pubkey != r {
          return Deletion(false, true, Some(RecipientMismatch));
        }
      } else {
        if e !in tombs {
          return Deletion(false, false, Some(NotFound));
        }
        if tombs[e].sender != caller || tombs[e].recipient != r {
          return Deletion(false, false, Some(NotSender));
        }
      }
      var present := r in inboxes && e in inboxes[r];
      StoreInbox(r, Inbox(View(), r) - {e});
      metas := metas - {e};
      tombs := tombs - {e};
      return Deletion(present, existed, None);
    }

    method ReapOne(e: EnvelopeId) returns (deleted: bool, queued: bool)
      modifies this
      ensures View() == Reap(old(View()), {e})
      ensures deleted <==> e in old(View()).blobs && e !in old(View()).metas
      ensures queued <==> e in old(View()).metas
    {
      deleted, queued := false, e in metas;
      if !queued {
        deleted := e in blobs;
        blobs := blobs - {e};
      }
      index := index - {e};
      assert {e} - metas.Keys == if e in metas then {} else {e};
    }

    /** One pass over the due candidates, with the statistics of the pass. */
    method ReapBlobsIndexed() returns (candidates: nat, deleted: nat, stillQueued: nat)
      modifies this
      ensures View() == Reap(old(View()), Due(old(View())))
      ensures candidates == |Due(old(View()))|
      ensures deleted == |Reaped(old(View()), Due(old(View())))|
      ensures stillQueued == |StillQueued(old(View()), Due(old(View())))|
    {
      hide Reap, Reaped, Due, View, StillQueued;
      ghost var k := View();
      var todo := Due(View());
      ghost var done: set<EnvelopeId> := {};
      candidates, deleted, stillQueued := |todo|, 0, 0;
      ReapNone(k);
      while todo != {}
        invariant done + todo == Due(k) && done !! todo
        invariant View() == Reap(k, done) && deleted == |Reaped(k, done)| && stillQueued == |StillQueued(k, done)|
        decreases todo
      {
        var e :| e in todo;
        ReapPlus(k, done, e);
        ReapedPlus(k, done, e);
        QueuedPlus(k, done, e);
        ReapKeepsMetas(k, done);
        var gone, queued := ReapOne(e);
        deleted := deleted + if gone then 1 else 0;
        stillQueued := stillQueued + if queued then 1 else 0;
        done := done + {e};
        todo := todo - {e};
      }
      assert done == Due(k);
    }

    method MarkMailSeen(r: Pubkey, envelopeIds: seq<EnvelopeId>) returns (marked: nat)
      modifies this
      ensures View() == MarkSeen(old(View()), r, SeenBatch(envelopeIds))
      ensures marked == |SeenIndices(old(View()), r, SeenBatch(envelopeIds))|
    {
      var ids := SeenBatch(envelopeIds);
      var toSet;
      ghost var k := View();
      marked, toSet := PlanSeen(r, ids);
      assert Flagged(k.metas, {}) == k.metas;
      for j := 0 to |toSet|
        invariant View() == k.(metas := Flagged(k.metas, Elems(toSet[..j])))
        invariant marked + |toSet| - j == |SeenIndices(k, r, ids)|
      {
        assert Elems(toSet[..j + 1]) == Elems(toSet[..j]) + {toSet[j]};
        assert toSet[j] in toSet && toSet[j] in k.metas;
        FlaggedPlus(k.metas, Elems(toSet[..j]), toSet[j]);
        metas := metas[toSet[j] := metas[toSet[j]].(mailSeen := true)];
        marked := marked + 1;
      }
      assert toSet[..|toSet|] == toSet;
      assert Flagged(k.metas, Elems(toSet)) == MarkSeen(k, r, ids).metas;
    }

    /** Reading pass: what is flagged already counts at once, the rest is to be written. */
    method PlanSeen(r: Pubkey, ids: seq<EnvelopeId>) returns (marked: nat, toSet: seq<EnvelopeId>)
      ensures marked + |toSet| == |SeenIndices(View(), r, ids)|
      ensures forall e :: e in toSet <==> e in ids && ToFlag(View(), r, e)
    {
      hide SeenBy, ToFlag, SeenIndices;
      marked, toSet := 0, [];
      NoIndices(View(), r, ids);
      for i := 0 to |ids|
        invariant marked + |toSet| == |SeenIndices(View(), r, ids[..i])|
        invariant forall e :: e in toSet <==> e in ids[..i] && ToFlag(View(), r, e)
      {
        SeenIndicesPlus(View(), r, ids, i);
        SeenOrFlag(View(), r, ids[i]);
        assert ids[..i + 1] == ids[..i] + [ids[i]];
        if SeenBy(View(), r, ids[i]) {
          if metas[ids[i]].mailSeen {
            marked := marked + 1;
          } else {
            toSet := toSet + [ids[i]];
          }
        }
      }
      assert ids[..|ids|] == ids;
    }
  }

  predicate ToFlag(k: Keys, r: Pubkey, e: EnvelopeId) { SeenBy(k, r, e) && !k.metas[e].mailSeen }

  lemma SeenOrFlag(k: Keys, r: Pubkey, e: EnvelopeId)
    ensures SeenBy(k, r, e) ==> e in k.metas && (ToFlag(k, r, e) <==> !k.metas[e].mailSeen)
    ensures ToFlag(k, r, e) ==> SeenBy(k, r, e)
  {
  }

  lemma NoIndices(k: Keys, r: Pubkey, ids: seq<EnvelopeId>)
    ensures SeenIndices(k, r, ids[..0]) == {}
  {
  }

  lemma FlaggedPlus(m: map<EnvelopeId, Meta>, es: set<EnvelopeId>, e: EnvelopeId)
    requires e in m
    ensures e in Flagged(m, es)
    ensures Flagged(m, es + {e}) == Flagged(m, es)[e := Flagged(m, es)[e].(mailSeen := true)]
  {
  }
}
