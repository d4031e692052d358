/** What each queue operation leaves under every key, field by field, and the group fan-out as
    one schedule of the machine. */
module QueueContents {
  import opened Common
  import opened QueueKeys
  import opened EnvelopeMachine
  import opened QueueService
  import opened QueueSchedules

  const WEEK := 604800

  /** Whichever comes first: the sender's own time to live, or the relay's ceiling from now. */
  predicate Expires(o: Order, now: int, x: int) {
    x <= o.timestamp + o.ttl && x <= now + o.ceiling && (x == o.timestamp + o.ttl || x == now + o.ceiling)
  }

  /** Every field of the metadata an order is stored with. */
  predicate StoredAs(m: Meta, o: Order, x: int) {
    && m.sender == o.sender && m.to == o.to && m.sealed == o.sealed && m.deleteKey == o.deleteKey && m.mail == o.mail
    && !m.mailSeen && m.expiresAt == x && m.keyExp == x
  }

  /** An inbox after a script ran on it: expired rows are gone, and the new row is there. */
  ghost predicate Scripted(box: map<EnvelopeId, int>, after: map<EnvelopeId, int>, now: int, e: EnvelopeId, x: int) {
    && e in after && after[e] == x
    && forall f :: f != e ==> ((f in after <==> f in box && !(0 <= box[f] <= now)) && (f in after ==> after[f] == box[f]))
  }

  predicate KeyLives(k: Keys, r: Pubkey, now: int, x: int) {
    r in k.inboxExp && k.inboxExp[r] == now + (if x - now < 60 then 60 else x - now) + 3600
  }

  lemma ScriptLeaves(k: Keys, r: Pubkey, now: int, e: EnvelopeId, x: int)
    ensures var (k', ok) := InboxScript(k, r, now, e, x);
            && (ok <==> |Pruned(Inbox(k, r), now)| < 5000)
            && (ok ==> Scripted(Inbox(k, r), Inbox(k', r), now, e, x) && r in k'.inboxes)
            && (forall q :: q != r ==> Inbox(k', q) == Inbox(k, q) && (q in k'.inboxes <==> q in k.inboxes))
            && (forall q :: q != r ==> (q in k'.inboxExp <==> q in k.inboxExp) && (q in k'.inboxExp ==> k'.inboxExp[q] == k.inboxExp[q]))
            && k' == k.(inboxes := k'.inboxes, inboxExp := k'.inboxExp)
  {
  }

  lemma OrderExpires(o: Order, now: int)
    ensures Expires(o, now, o.ExpiresAt(now))
  {
  }

  /** Which of the three answers a DM gets, and that a refused or repeated one leaves the
      metadata, pending sets, index and tombstones alone. */
  lemma DmAnswer(k: Keys, e: EnvelopeId, o: Order)
    requires o.to.Direct?
    ensures var out := Enqueue(k, e, o).1;
            var x := o.ExpiresAt(k.clock);
            && (out == Rejected(400) <==> x <= k.clock)
            && (out == Duplicate <==> k.clock < x && e in k.metas)
            && (out == Queued(x) <==> k.clock < x && e !in k.metas && |Pruned(Inbox(k, o.to.pubkey), k.clock)| < 5000)
            && (out == Rejected(429) <==> k.clock < x && e !in k.metas && |Pruned(Inbox(k, o.to.pubkey), k.clock)| >= 5000)
  {
    var x := o.ExpiresAt(k.clock);
    ScriptLeaves(SetMeta(k, e, o, k.clock, x), o.to.pubkey, k.clock, e, x);
    assert Inbox(SetMeta(k, e, o, k.clock, x), o.to.pubkey) == Inbox(k, o.to.pubkey);
    hide InboxScript, Register;
  }

  lemma MetaLeaves(k: Keys, e: EnvelopeId, o: Order, x: int)
    ensures var k' := SetMeta(k, e, o, k.clock, x);
            && e in k'.metas && StoredAs(k'.metas[e], o, x) && k'.metas - {e} == k.metas - {e}
            && k' == k.(metas := k'.metas) && forall q :: Inbox(k', q) == Inbox(k, q)
  {
  }

  lemma EnqueueIs(k: Keys, e: EnvelopeId, o: Order)
    requires o.to.Direct? && Enqueue(k, e, o).1.Queued?
    ensures var x := o.ExpiresAt(k.clock);
            var (k2, ok) := InboxScript(SetMeta(k, e, o, k.clock, x), o.to.pubkey, k.clock, e, x);
            && ok && k.clock < x && e !in k.metas
            && Enqueue(k, e, o) == (Register(k2, e, o, [o.to.pubkey], k.clock, x), Queued(x))
  {
    hide InboxScript, Register, SetMeta, o.ExpiresAt;
  }

  /** What a queued DM leaves in the inboxes: its row, expired rows of that inbox pruned, every
      other inbox untouched, and the lifetime of the addressee's. */
  lemma QueuedDmRows(k: Keys, e: EnvelopeId, o: Order)
    requires o.to.Direct? && Enqueue(k, e, o).1.Queued?
    ensures var (k', out) := Enqueue(k, e, o);
            var (r, x) := (o.to.pubkey, out.expiresAt);
            && Expires(o, k.clock, x) && k.clock < x
            && Scripted(Inbox(k, r), Inbox(k', r), k.clock, e, x)
            && (forall q :: q != r ==> Inbox(k', q) == Inbox(k, q))
            && KeyLives(k', r, k.clock, x)
  {
    var (x, r) := (o.ExpiresAt(k.clock), o.to.pubkey);
    var k1 := SetMeta(k, e, o, k.clock, x);
    var k2 := InboxScript(k1, r, k.clock, e, x).0;
    OrderExpires(o, k.clock);
    EnqueueIs(k, e, o);
    MetaLeaves(k, e, o, x);
    ScriptLeaves(k1, r, k.clock, e, x);
    RegisterOne(k2, e, o, r, k.clock, x);
    hide Enqueue, InboxScript, Register, SetMeta, Scripted, KeyLives, Expires, o.ExpiresAt, Inbox;
  }

  lemma RegisterOne(k: Keys, e: EnvelopeId, o: Order, r: Pubkey, now: int, x: int)
    requires now == k.clock && r in k.inboxes
    ensures var k' := Register(k, e, o, [r], now, x);
            KeyLives(k', r, now, x) && forall q :: Inbox(k', q) == Inbox(k, q)
  {
    RegisterLeaves(k, e, o, [r], now, x);
    hide Register, KeyLives;
    assert r in [r];
  }

  /** And under every other key: its metadata, a pending set holding its addressee, its reaper
      score, and the tombstone that lets its sender delete it for a week longer. */
  lemma QueuedDmLeaves(k: Keys, e: EnvelopeId, o: Order)
    requires o.to.Direct? && Enqueue(k, e, o).1.Queued?
    ensures var (k', out) := Enqueue(k, e, o);
            var (r, x) := (o.to.pubkey, out.expiresAt);
            && e in k'.metas && StoredAs(k'.metas[e], o, x) && k'.metas - {e} == k.metas - {e}
            && e in k'.pendings && r in k'.pendings[e].members && k'.pendings[e].keyExp == x
            && (forall q :: q in k'.pendings[e].members ==> q == r || (e in k.pendings && q in k.pendings[e].members))
            && k'.pendings - {e} == k.pendings - {e} && k'.index == k.index[e := x]
            && (if !o.sealed && o.sender.Some? then k'.tombs == k.tombs[e := Tombstone(o.sender.value, r, x + WEEK)]
                else k'.tombs == k.tombs)
            && k'.blobs == k.blobs && k'.clock == k.clock
  {
    var (x, r) := (o.ExpiresAt(k.clock), o.to.pubkey);
    var k1 := SetMeta(k, e, o, k.clock, x);
    var k2 := InboxScript(k1, r, k.clock, e, x).0;
    EnqueueIs(k, e, o);
    MetaLeaves(k, e, o, x);
    ScriptLeaves(k1, r, k.clock, e, x);
    RegisterLeaves(k2, e, o, [r], k.clock, x);
    assert r in [r];
    hide Enqueue, InboxScript, Register, SetMeta, StoredAs, KeyLives, o.ExpiresAt, Inbox, Scripted;
  }

  /** The closing block, field by field. */
  lemma RegisterLeaves(k: Keys, e: EnvelopeId, o: Order, el: seq<Pubkey>, now: int, x: int)
    requires now == k.clock
    ensures var k' := Register(k, e, o, el, now, x);
            && k'.clock == k.clock && k'.inboxes == k.inboxes && k'.metas == k.metas && k'.blobs == k.blobs
            && (forall r :: r in el && r in k.inboxes ==> KeyLives(k', r, now, x))
            && (forall r :: r !in el || r !in k.inboxes ==>
                  (r in k'.inboxExp <==> r in k.inboxExp) && (r in k.inboxExp ==> k'.inboxExp[r] == k.inboxExp[r]))
            && k'.index == k.index[e := x]
    ensures var k' := Register(k, e, o, el, now, x);
            && k'.pendings - {e} == k.pendings - {e}
            && (el == [] ==> k'.pendings == k.pendings)
            && (el != [] ==> e in k'.pendings && k'.pendings[e].keyExp == x)
            && (el != [] ==>
                  forall r :: r in k'.pendings[e].members <==> r in el || (e in k.pendings && r in k.pendings[e].members))
            && (if o.to.Direct? && !o.sealed && o.sender.Some?
                then k'.tombs == k.tombs[e := Tombstone(o.sender.value, o.to.pubkey, x + WEEK)] else k'.tombs == k.tombs)
  {
    if el != [] {
      assert el[0] in Elems(el);
    } else {
      assert Elems(el) == {};
    }
    assert forall r :: r in el <==> r in Elems(el);
  }

  lemma FanOutIs(k: Keys, e: EnvelopeId, o: Order)
    requires k.clock < o.ExpiresAt(k.clock)
    ensures var x := o.ExpiresAt(k.clock);
            var (k2, el) := InsertAll(SetMeta(k, e, o, k.clock, x), e, o.recipients, k.clock, x);
            FanOut(k, e, o) == (Register(k2, e, o, el, k.clock, x), x, |el|)
  {
    hide InsertAll, Register, SetMeta, o.ExpiresAt;
  }

  /** What a fan-out leaves in the inboxes: the message with its expiry for recipients only, each
      skipped one with 5000 unexpired rows, and the lifetimes of those it went to. */
  lemma FanOutRows(k: Keys, e: EnvelopeId, o: Order)
    requires o.WellFormed() && k.clock < o.ExpiresAt(k.clock) && (forall r :: e !in Inbox(k, r))
    ensures var (k', x, count) := FanOut(k, e, o);
            && Expires(o, k.clock, x)
            && (forall r :: e in Inbox(k', r) ==> r in o.recipients && Inbox(k', r)[e] == x && KeyLives(k', r, k.clock, x))
            && (forall r :: r in o.recipients && e !in Inbox(k', r) ==> |Inbox(k', r)| >= 5000)
            && (forall r :: r !in o.recipients ==> Inbox(k', r) == Inbox(k, r))
  {
    var x := o.ExpiresAt(k.clock);
    var k1 := SetMeta(k, e, o, k.clock, x);
    var (k2, el) := InsertAll(k1, e, o.recipients, k.clock, x);
    OrderExpires(o, k.clock);
    FanOutIs(k, e, o);
    MetaLeaves(k, e, o, x);
    InsertAllExact(k1, e, o.recipients, k.clock, x);
    InsertAllRows(k1, e, o.recipients, k.clock, x);
    RegisterLeaves(k2, e, o, el, k.clock, x);
    SameBoxes(k2, Register(k2, e, o, el, k.clock, x));
    hide FanOut, InsertAll, Register, SetMeta, KeyLives, Expires, o.ExpiresAt, Inbox;
  }

  lemma SameBoxes(k: Keys, k': Keys)
    requires k'.inboxes == k.inboxes
    ensures forall r :: Inbox(k', r) == Inbox(k, r)
    ensures forall r, e :: e in Inbox(k, r) ==> r in k.inboxes
  {
  }

  /** And under every other key: exactly the recipients whose inbox holds the message are
      pending, and metadata, index and the pending set's life are the message's own. */
  lemma FanOutLeaves(k: Keys, e: EnvelopeId, o: Order)
    requires o.WellFormed() && o.to.Group? && k.clock < o.ExpiresAt(k.clock)
    requires e !in k.pendings && (forall r :: e !in Inbox(k, r))
    ensures var (k', x, count) := FanOut(k, e, o);
            && e in k'.metas && StoredAs(k'.metas[e], o, x) && k'.metas - {e} == k.metas - {e}
            && (e in k'.pendings <==> exists r :: e in Inbox(k', r))
            && (e in k'.pendings ==>
                  k'.pendings[e].keyExp == x && forall r :: r in k'.pendings[e].members <==> e in Inbox(k', r))
            && k'.pendings - {e} == k.pendings - {e} && k'.index == k.index[e := x]
            && k'.tombs == k.tombs && k'.blobs == k.blobs && k'.clock == k.clock
  {
    var x := o.ExpiresAt(k.clock);
    var k1 := SetMeta(k, e, o, k.clock, x);
    var (k2, el) := InsertAll(k1, e, o.recipients, k.clock, x);
    FanOutIs(k, e, o);
    MetaLeaves(k, e, o, x);
    InsertAllExact(k1, e, o.recipients, k.clock, x);
    InsertAllRows(k1, e, o.recipients, k.clock, x);
    RegisterLeaves(k2, e, o, el, k.clock, x);
    SameBoxes(k2, Register(k2, e, o, el, k.clock, x));
    assert el != [] ==> el[0] in el;
    hide FanOut, InsertAll, Register, SetMeta, StoredAs, KeyLives, o.ExpiresAt, Inbox;
  }

  /** The rows a fan-out writes, and what it leaves alone. */
  lemma {:induction false} InsertAllRows(k: Keys, e: EnvelopeId, rs: seq<Pubkey>, now: int, x: int)
    requires NoDup(rs) && (forall r :: e !in Inbox(k, r))
    ensures var (k', el) := InsertAll(k, e, rs, now, x);
            && k' == k.(inboxes := k'.inboxes, inboxExp := k'.inboxExp)
            && (forall r :: r in el ==> r in rs && e in Inbox(k', r) && Inbox(k', r)[e] == x)
            && (forall r :: r !in rs ==> Inbox(k', r) == Inbox(k, r))
    decreases |rs|
  {
    if rs != [] {
      var n := |rs| - 1;
      InsertAllRows(k, e, rs[..n], now, x);
      InsertNext(k, e, rs, n, now, x);
      assert rs[..n + 1] == rs;
      var k1 := InsertAll(k, e, rs[..n], now, x).0;
      ScriptLeaves(k1, rs[n], now, e, x);
      assert rs[n] !in rs[..n];
      hide InsertAll, InboxScript, Scripted;
      assert forall r :: r in rs <==> r in rs[..n] || r == rs[n];
      ScriptedRow(k, k1, rs[n], now, e, x);
    }
  }

  lemma ScriptedRow(k: Keys, k1: Keys, r: Pubkey, now: int, e: EnvelopeId, x: int)
    ensures var (k', ok) := InboxScript(k1, r, now, e, x); ok ==> e in Inbox(k', r) && Inbox(k', r)[e] == x
  {
    ScriptLeaves(k1, r, now, e, x);
    hide InboxScript;
  }

  /** An acknowledgement takes the one row; the metadata, pending set and blob go with it exactly
      if the recipient was the last one pending, and else only its name leaves the set. */
  lemma AckLeaves(k: Keys, r: Pubkey, e: EnvelopeId)
    requires Held(k, r, e)
    ensures var k' := Acknowledge(k, r, e).0;
            && (forall q :: Inbox(k', q) == if q == r then Inbox(k, r) - {e} else Inbox(k, q))
            && (e !in k.pendings ==> k'.metas == k.metas && k'.pendings == k.pendings && k'.blobs == k.blobs)
            && (e in k.pendings && k.pendings[e].members <= {r} ==>
                  k'.metas == k.metas - {e} && k'.pendings == k.pendings - {e} && k'.blobs == k.blobs - {e})
            && (e in k.pendings && !(k.pendings[e].members <= {r}) ==>
                  && k'.metas == k.metas && k'.blobs == k.blobs && k'.pendings - {e} == k.pendings - {e}
                  && e in k'.pendings && k'.pendings[e].members == k.pendings[e].members - {r})
            && k'.index == k.index && k'.tombs == k.tombs && k'.clock == k.clock
  {
    if e in k.pendings {
      assert k.pendings[e].members <= {r} <==> k.pendings[e].members - {r} == {};
    }
  }

  /** A pass over the due candidates, key by key: scores up to now leave the index, whatever
      becomes of the candidate, and of those the blobs without metadata go. */
  lemma ReapLeaves(k: Keys)
    ensures var v := Reap(k, Due(k));
            && (forall e :: e in v.index <==> e in k.index && !(0 <= k.index[e] <= k.clock))
            && (forall e :: e in v.index ==> v.index[e] == k.index[e])
            && (forall e :: e in v.blobs <==> e in k.blobs && !(e in k.index && 0 <= k.index[e] <= k.clock && e !in k.metas))
            && v == k.(index := v.index, blobs := v.blobs)
  {
  }

  /** Exactly the caller's own mail rows among the first 200 ids are flagged, nothing else of
      them changes, and no other metadata does. */
  lemma SeenLeaves(k: Keys, r: Pubkey, ids: seq<EnvelopeId>)
    ensures var v := MarkSeen(k, r, SeenBatch(ids));
            && v.metas.Keys == k.metas.Keys
            && v == k.(metas := v.metas)
            && forall e :: e in v.metas ==>
                 v.metas[e] == if (exists i :: 0 <= i < |ids| && i < 200 && ids[i] == e)
                                  && Held(k, r, e) && k.metas[e].mail && k.metas[e].to == Direct(r)
                               then k.metas[e].(mailSeen := true) else k.metas[e]
  {
    var batch := SeenBatch(ids);
    forall e
      ensures e in batch <==> exists i :: 0 <= i < |ids| && i < 200 && ids[i] == e
    {
      if e in batch {
        var i :| 0 <= i < |batch| && batch[i] == e;
        assert ids[i] == e;
      }
      if i :| 0 <= i < |ids| && i < 200 && ids[i] == e {
        assert batch[i] == e;
      }
    }
  }
}
