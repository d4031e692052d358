/** The hard cap on every inbox, what a refusal leaves behind, and the schedules under which the
    promises of the queue do not hold. */
module EnvelopeBounds {
  import opened Common
  import opened QueueKeys
  import opened EnvelopeMachine
  import opened EnvelopeView
  import opened EnvelopeSafety

  // The cap.

  ghost predicate Capped(b: Inboxes) { forall r :: r in b ==> |b[r]| <= MAX_INBOX_QUEUE_DEPTH }

  lemma MapSubsetSize<K, V>(a: map<K, V>, b: map<K, V>)
    requires a.Keys <= b.Keys
    ensures |a| <= |b|
  {
    SubsetSize(a.Keys, b.Keys);
    assert |a| == |a.Keys| && |b| == |b.Keys|;
  }

  lemma PutCapped(b: Inboxes, r: Pubkey, box: map<EnvelopeId, int>)
    requires Capped(b) && |box| <= MAX_INBOX_QUEUE_DEPTH
    ensures Capped(Put(b, r, box))
  {
  }

  lemma ScriptCapped(k: Keys, r: Pubkey, now: int, e: EnvelopeId, x: int)
    requires Capped(k.inboxes)
    ensures Capped(InboxScript(k, r, now, e, x).0.inboxes)
  {
    var box := Pruned(Inbox(k, r), now);
    MapSubsetSize(box, Inbox(k, r));
    PutCapped(k.inboxes, r, box);
    if |box| < MAX_INBOX_QUEUE_DEPTH {
      assert |box[e := x]| <= |box| + 1 by {
        assert box[e := x].Keys == box.Keys + {e};
      }
      PutCapped(k.inboxes, r, box[e := x]);
    }
  }

  lemma RowRemovalCapped(k: Keys, r: Pubkey, e: EnvelopeId, now: int)
    requires Capped(k.inboxes)
    ensures Capped(RemoveRow(k, r, e).inboxes) && Capped(Prune(k, r, now).inboxes) && Capped(DropInbox(k, r).inboxes)
  {
    MapSubsetSize(Inbox(k, r) - {e}, Inbox(k, r));
    MapSubsetSize(Pruned(Inbox(k, r), now), Inbox(k, r));
  }

  lemma InsertCapped(s: State, e: EnvelopeId)
    requires Capped(s.k.inboxes)
    ensures Capped(DoInsert(s, e).k.inboxes)
  {
    if e in s.sends && RowsToCome(s.sends[e]) {
      var d := s.sends[e];
      ScriptCapped(s.k, d.order.recipients[d.phase.next], d.now, e, d.expiresAt);
    }
    hide Capped, InboxScript;
  }

  /** The steps of a send, a reaper or a reader that touch no inbox. */
  lemma BoxesKept(s: State, step: Step)
    requires !step.Wait? && !step.Insert? && !step.AckRemove? && !step.DeleteCommit? && !step.ListInbox? && !step.DropBox?
    ensures Apply(s, step).k.inboxes == s.k.inboxes
  {
    hide Elems;
  }

  lemma WaitCapped(k: Keys, d: nat)
    requires Capped(k.inboxes)
    ensures Capped(Tick(k, d).inboxes)
  {
  }

  lemma StepCapped(s: State, step: Step)
    requires Capped(s.k.inboxes)
    ensures Capped(Apply(s, step).k.inboxes)
  {
    hide Capped, DoInsert, Tick, RemoveRow, Prune, DropInbox;
    match step {
      case Wait(d) => WaitCapped(s.k, d);
      case Insert(e) => InsertCapped(s, e);
      case AckRemove(r, e) => RowRemovalCapped(s.k, r, e, 0);
      case DeleteCommit(job) => RowRemovalCapped(s.k, job.recipient, job.e, 0);
      case ListInbox(r, now) => RowRemovalCapped(s.k, r, 0, now);
      case DropBox(r) => RowRemovalCapped(s.k, r, 0, 0);
      case _ => BoxesKept(s, step);
    }
  }

  /** No interleaving of any number of senders overfills an inbox. */
  lemma {:induction false} InboxNeverOverfull(s: State, steps: seq<Step>)
    requires Capped(s.k.inboxes)
    ensures Capped(Run(s, steps).k.inboxes)
    ensures forall r :: |Inbox(Run(s, steps).k, r)| <= 5000
    decreases |steps|
  {
    if steps != [] {
      StepCapped(s, steps[0]);
      InboxNeverOverfull(Apply(s, steps[0]), steps[1..]);
    }
  }

  /** A send that ended in refusal left no row, metadata, pending set, index entry or tombstone,
      and a refused DM no blob either. */
  lemma RefusalLeavesNothing(steps: seq<Step>, e: EnvelopeId)
    requires var s := Run(INIT, steps); e in s.sends && s.sends[e].phase.Refused?
    ensures var s := Run(INIT, steps);
            && (forall r :: !Held(s.k, r, e)) && e !in s.k.metas && e !in s.k.pendings
            && e !in s.k.index && e !in s.k.tombs
            && (s.sends[e].order.to.Direct? ==> e !in s.k.blobs)
  {
    InitInv();
    RunKeeps(INIT, steps);
    var s := Run(INIT, steps);
    RefusedLeavesNothing(Project(s, e));
    forall r ensures !Held(s.k, r, e) {
      assert r !in Rows(s.k.inboxes, e);
    }
  }

  // The undercutting schedules are real.

  function Dm(from: Pubkey, to: Pubkey, ttl: int): Order {
    Order(Some(from), Direct(to), [to], 0, ttl, ttl, None, false, ttl > 86400)
  }

  function Stored(e: EnvelopeId, o: Order): State {
    INIT.(k := EMPTY_KEYS.(metas := map[e := NewMeta(o, o.ttl, o.ttl)], blobs := {e}),
          sends := map[e := Send(o, 0, o.ttl, Inserting(0, []))])
  }

  lemma ReachStored(e: EnvelopeId, o: Order) returns (steps: seq<Step>)
    requires o.WellFormed() && o.to.Direct? && o.timestamp == 0 && o.ceiling == o.ttl > 0
    ensures Run(INIT, steps) == Stored(e, o)
  {
    var s1 := INIT.(k := EMPTY_KEYS.(blobs := {e}), sends := map[e := Send(o, 0, 0, BlobWritten)]);
    var s2 := s1.(sends := map[e := Send(o, 0, o.ttl, Captured)]);
    assert Apply(INIT, BeginSend(e, o)) == s1;
    assert Apply(s1, Capture(e)) == s2;
    assert Apply(s2, StoreMeta(e)) == Stored(e, o);
    RunAppend(INIT, [], BeginSend(e, o));
    RunAppend(INIT, [BeginSend(e, o)], Capture(e));
    RunAppend(INIT, [BeginSend(e, o)] + [Capture(e)], StoreMeta(e));
    steps := [BeginSend(e, o)] + [Capture(e)] + [StoreMeta(e)];
  }

  function Undercut(e: EnvelopeId, o: Order): State {
    Stored(e, o).(k := EMPTY_KEYS.(blobs := {e}), earlyDeletes := {e})
  }

  lemma DeleteStored(e: EnvelopeId, o: Order)
    requires o.to.Direct? && o.sender.Some? && o.recipients == [o.to.pubkey]
    ensures var job := DeleteJob(e, o.to.pubkey, Caller(o.sender.value));
            var s4 := Stored(e, o).(deletes := {job});
            && Apply(Stored(e, o), DeleteRead(e, o.sender.value, o.to.pubkey)) == s4
            && Apply(s4, DeleteCommit(job)) == Undercut(e, o)
  {
    var job := DeleteJob(e, o.to.pubkey, Caller(o.sender.value));
    var s3 := Stored(e, o);
    var s4 := s3.(deletes := {job});
    assert {} + {job} == {job} && {job} - {job} == {};
    assert Apply(s3, DeleteRead(e, o.sender.value, o.to.pubkey)) == s4;
    assert DeleteBlock(s3.k, o.to.pubkey, e, false) == EMPTY_KEYS.(blobs := {e}) by {
      assert s3.k.metas - {e} == map[];
    }
    assert s3.earlyDeletes + {e} == {e};
  }

  lemma InsertUndercut(e: EnvelopeId, o: Order)
    requires o.to.Direct? && o.recipients == [o.to.pubkey]
    ensures var k := Apply(Undercut(e, o), Insert(e)).k;
            Held(k, o.to.pubkey, e) && k.inboxes[o.to.pubkey][e] == o.ttl && k.metas == map[] && e in k.blobs && k.clock == 0
  {
    assert Pruned(map[], 0) == map[];
  }

  /** The sender deletes between its own metadata write and inbox insertion: the recipient then
      holds an unexpired row whose metadata no longer exists. */
  lemma EarlyDeleteOrphansRow() returns (steps: seq<Step>)
    ensures var s := Run(INIT, steps);
            Held(s.k, 2, 7) && s.k.clock < s.k.inboxes[2][7] && 7 !in s.k.metas && 7 in s.k.blobs
  {
    var o, job := Dm(1, 2, 100), DeleteJob(7, 2, Caller(1));
    var a := ReachStored(7, o);
    var b := a + [DeleteRead(7, 1, 2)];
    var c := b + [DeleteCommit(job)];
    steps := c + [Insert(7)];
    RunAppend(INIT, a, DeleteRead(7, 1, 2));
    RunAppend(INIT, b, DeleteCommit(job));
    RunAppend(INIT, c, Insert(7));
    DeleteStored(7, o);
    InsertUndercut(7, o);
  }

  // The lifetime of the inbox key. Every send sets it afresh from its own time to live.

  /** The row is there for as long as it is unexpired. */
  ghost predicate OutlivesItself(k: Keys, r: Pubkey, e: EnvelopeId)
    requires Held(k, r, e)
  {
    forall d: nat :: k.clock + d < k.inboxes[r][e] ==> Held(Tick(k, d), r, e)
  }

  lemma RowSurvivesIff(k: Keys, r: Pubkey, e: EnvelopeId)
    requires Held(k, r, e) && (r in k.inboxExp ==> k.clock < k.inboxExp[r])
    ensures OutlivesItself(k, r, e) <==> (r !in k.inboxExp || k.inboxes[r][e] <= k.inboxExp[r])
  {
    if r in k.inboxExp && k.inboxExp[r] < k.inboxes[r][e] {
      var d: nat := k.inboxExp[r] - k.clock;
      assert !Held(Tick(k, d), r, e);
    }
  }

  /** After a send of x to r is registered, another row e of r lives out its own time exactly if
      it expires no later than the lifetime the send gave the key; the row of x always does. */
  lemma RegistrationKeepsRowIff(k: Keys, x: EnvelopeId, o: Order, el: seq<Pubkey>, now: int, expiresAt: int,
                                r: Pubkey, e: EnvelopeId)
    requires r in el && Held(k, r, e) && now <= k.clock
    ensures OutlivesItself(Register(k, x, o, el, now, expiresAt), r, e) <==>
            k.inboxes[r][e] <= k.clock + (if expiresAt - now < 60 then 60 else expiresAt - now) + 3600
    ensures e == x && k.inboxes[r][x] == expiresAt ==> OutlivesItself(Register(k, x, o, el, now, expiresAt), r, x)
  {
    var k' := Register(k, x, o, el, now, expiresAt);
    assert r in Elems(el) * k.inboxes.Keys;
    RowSurvivesIff(k', r, e);
  }

  /** A week-long mail row is lost an hour after a one-minute DM arrived in the same inbox. */
  lemma ShortDmDropsLongMail()
    ensures var mail, dm := Dm(1, 2, 604800), Dm(3, 2, 60);
            var k0 := EMPTY_KEYS.(inboxes := map[2 := map[7 := 604800]], metas := map[7 := NewMeta(mail, 604800, 604800)]);
            var k1 := Register(k0, 7, mail, [2], 0, 604800);
            var (k2, ok) := InboxScript(k1, 2, 0, 8, 60);
            var k3 := Register(k2, 8, dm, [2], 0, 60);
            var k4 := Tick(k3, 3660);
            ok && Held(k3, 2, 7) && !Held(k4, 2, 7) && 7 in k4.metas && k4.clock < 604800
  {
    var mail, dm := Dm(1, 2, 604800), Dm(3, 2, 60);
    var k0 := EMPTY_KEYS.(inboxes := map[2 := map[7 := 604800]], metas := map[7 := NewMeta(mail, 604800, 604800)]);
    var k1 := Register(k0, 7, mail, [2], 0, 604800);
    var box := map[7 := 604800];
    assert Pruned(box, 0) == box;
    assert |box| == 1;
    var (k2, ok) := InboxScript(k1, 2, 0, 8, 60);
    assert ok && 7 in k2.inboxes[2];
    var k3 := Register(k2, 8, dm, [2], 0, 60);
    assert 2 in Elems([2]) * k2.inboxes.Keys;
    assert k3.inboxExp[2] == 3660;
  }

  // The indexed reaper drops a candidate from its index whatever it finds.

  function ReapPass(s: State, e: EnvelopeId): State {
    DoReapForget(DoReapUnlink(DoReapLook(DoReapPick(s, e), e), e), e)
  }

  /** One pass over a due candidate removes the blob exactly when the metadata is gone, and
      forgets the candidate either way. */
  lemma ReapPassIff(s: State, e: EnvelopeId)
    requires e in s.k.index && 0 <= s.k.index[e] <= s.k.clock && e in s.k.blobs
    ensures var t := ReapPass(s, e);
            e !in t.k.index && (e !in t.k.blobs <==> e !in s.k.metas)
  {
    ProjReapPick(s, e, e);
    ProjReapLook(DoReapPick(s, e), e, e);
    ProjReapUnlink(DoReapLook(DoReapPick(s, e), e), e, e);
    ProjReapForget(DoReapUnlink(DoReapLook(DoReapPick(s, e), e), e), e, e);
    var v, w := Project(s, e), Project(ReapPass(s, e), e);
    assert w.index == None && (w.blob <==> v.meta.Some?);
  }

  predicate Forgotten(s: State, e: EnvelopeId) {
    && e in s.k.blobs && e !in s.k.index && e !in s.reaps
    && e in s.sends && s.sends[e].phase.Registered?
  }

  lemma ForgottenSend(s: State, step: Step, e: EnvelopeId)
    requires Forgotten(s, e)
    requires step.BeginSend? || step.Capture? || step.StoreMeta? || step.Close? || step.CleanMeta? || step.CleanBlob?
    ensures Forgotten(Apply(s, step), e)
  {
  }

  lemma ScriptOnlyBoxes(k: Keys, r: Pubkey, now: int, e: EnvelopeId, x: int)
    ensures var k' := InboxScript(k, r, now, e, x).0; k' == k.(inboxes := k'.inboxes, inboxExp := k'.inboxExp)
  {
  }

  lemma ForgottenInsert(s: State, x: EnvelopeId, e: EnvelopeId)
    requires Forgotten(s, e)
    ensures Forgotten(DoInsert(s, x), e)
  {
    if x in s.sends && RowsToCome(s.sends[x]) {
      var d := s.sends[x];
      ScriptOnlyBoxes(s.k, d.order.recipients[d.phase.next], d.now, x, d.expiresAt);
    }
    hide InboxScript;
  }

  lemma ForgottenAck(s: State, step: Step, e: EnvelopeId)
    requires Forgotten(s, e) && step != AckUnlink(e) && step != ScanUnlink(e)
    requires step.AckRemove? || step.AckEval? || step.AckUnlink? || step.DeleteCommit? || step.ScanUnlink?
    ensures Forgotten(Apply(s, step), e)
  {
  }

  lemma ForgottenReap(s: State, step: Step, e: EnvelopeId)
    requires Forgotten(s, e)
    requires step.ReapPick? || step.ReapLook? || step.ReapUnlink? || step.ReapForget?
    ensures Forgotten(Apply(s, step), e)
  {
  }

  lemma ForgottenRest(s: State, step: Step, e: EnvelopeId)
    requires Forgotten(s, e)
    requires step.Wait? || step.DeleteRead? || step.SealedRead? || step.SeenRead? || step.SeenWrite?
          || step.ScanLook? || step.ListInbox? || step.DropBox?
    ensures Forgotten(Apply(s, step), e)
  {
  }

  lemma ForgottenStep(s: State, step: Step, e: EnvelopeId)
    requires Forgotten(s, e) && step != AckUnlink(e) && step != ScanUnlink(e)
    ensures Forgotten(Apply(s, step), e)
  {
    hide Apply, Forgotten;
    if step.Insert? {
      ForgottenInsert(s, step.e, e);
      assert Forgotten(Apply(s, step), e) by { InsertApplies(s, step.e); }
    } else if step.AckRemove? || step.AckEval? || step.AckUnlink? || step.DeleteCommit? || step.ScanUnlink? {
      ForgottenAck(s, step, e);
    } else if step.ReapPick? || step.ReapLook? || step.ReapUnlink? || step.ReapForget? {
      ForgottenReap(s, step, e);
    } else if step.BeginSend? || step.Capture? || step.StoreMeta? || step.Close? || step.CleanMeta? || step.CleanBlob? {
      ForgottenSend(s, step, e);
    } else {
      ForgottenRest(s, step, e);
    }
  }

  lemma InsertApplies(s: State, x: EnvelopeId)
    ensures Apply(s, Insert(x)) == DoInsert(s, x)
  {
  }

  /** So a blob whose metadata outlived its score by a moment is never reaped through the index
      again: only a late acknowledgement or the full scan can still remove it. */
  lemma {:induction false} ForgottenBlobStays(s: State, steps: seq<Step>, e: EnvelopeId)
    requires Forgotten(s, e)
    requires forall i :: 0 <= i < |steps| ==> steps[i] != AckUnlink(e) && steps[i] != ScanUnlink(e)
    ensures e in Run(s, steps).k.blobs
    decreases |steps|
  {
    if steps != [] {
      ForgottenStep(s, steps[0], e);
      ForgottenBlobStays(Apply(s, steps[0]), steps[1..], e);
    }
  }
}
