/** The keys of the per-recipient queue and the blob directory, with one function for each
    step that Redis (or the file system) performs indivisibly: a command, a Lua script or a
    MULTI block. A key whose time to live has run out is gone; `Tick` removes it. */
module QueueKeys {
  import opened Common

  /** A public key or an envelope id is 32 bytes, read here as a number. */
  type Pubkey = nat
  type EnvelopeId = nat

  const MAX_INBOX_QUEUE_DEPTH: nat := 5000
  const INBOX_KEY_TTL_SLACK_SECONDS: nat := 3600
  const TOMBSTONE_EXTRA_TTL_SECONDS: nat := 7 * 86400

  datatype Addressee = Direct(pubkey: Pubkey) | Group(groupId: nat)

  /** What a caller asks to be queued: one DM, or one group message for several inboxes.
      A sealed or burner message names no sender. */
  datatype Order = Order(
    sender: Option<Pubkey>, to: Addressee, recipients: seq<Pubkey>,
    timestamp: int, ttl: int, ceiling: int,
    deleteKey: Option<nat>, sealed: bool, mail: bool)
  {
    /** A DM has exactly its addressee as recipient; group members are distinct rows. */
    predicate WellFormed() {
      && NoDup(recipients)
      && (to.Direct? ==> recipients == [to.pubkey])
      && (sealed ==> to.Direct?)
    }

    function ExpiresAt(now: int): int { Min(timestamp + ttl, now + ceiling) }
  }

  /** Envelope metadata. `keyExp` is when the Redis key itself dies. */
  datatype Meta = Meta(
    sender: Option<Pubkey>, to: Addressee, sealed: bool, deleteKey: Option<nat>,
    mail: bool, mailSeen: bool, expiresAt: int, keyExp: int)

  datatype Pending = Pending(members: set<Pubkey>, keyExp: int)

  /** The stored value is the hash of "from|to", which the pair stands for. */
  datatype Tombstone = Tombstone(sender: Pubkey, recipient: Pubkey, keyExp: int)

  type Inboxes = map<Pubkey, map<EnvelopeId, int>>

  datatype Keys = Keys(
    clock: int,
    inboxes: Inboxes,
    inboxExp: map<Pubkey, int>,
    metas: map<EnvelopeId, Meta>,
    pendings: map<EnvelopeId, Pending>,
    index: map<EnvelopeId, int>,
    tombs: map<EnvelopeId, Tombstone>,
    blobs: set<EnvelopeId>)

  const EMPTY_KEYS := Keys(0, map[], map[], map[], map[], map[], map[], {})

  function Inbox(k: Keys, r: Pubkey): map<EnvelopeId, int> {
    if r in k.inboxes then k.inboxes[r] else map[]
  }

  predicate Held(k: Keys, r: Pubkey, e: EnvelopeId) {
    r in k.inboxes && e in k.inboxes[r]
  }

  /** Redis drops a sorted set that becomes empty, together with its time to live. */
  function Put(boxes: Inboxes, r: Pubkey, box: map<EnvelopeId, int>): Inboxes {
    if box == map[] then boxes - {r} else boxes[r := box]
  }

  function PutInbox(k: Keys, r: Pubkey, box: map<EnvelopeId, int>): Keys {
    k.(inboxes := Put(k.inboxes, r, box),
       inboxExp := if box == map[] then k.inboxExp - {r} else k.inboxExp)
  }

  function Tick(k: Keys, seconds: nat): Keys {
    var t := k.clock + seconds;
    k.(clock := t,
       inboxes := map r | r in k.inboxes && !(r in k.inboxExp && k.inboxExp[r] <= t) :: k.inboxes[r],
       inboxExp := map r | r in k.inboxExp && t < k.inboxExp[r] :: k.inboxExp[r],
       metas := map e | e in k.metas && t < k.metas[e].keyExp :: k.metas[e],
       pendings := map e | e in k.pendings && t < k.pendings[e].keyExp :: k.pendings[e],
       tombs := map e | e in k.tombs && t < k.tombs[e].keyExp :: k.tombs[e])
  }

  /** ZREMRANGEBYSCORE key 0 now */
  function Pruned(box: map<EnvelopeId, int>, now: int): map<EnvelopeId, int> {
    map e | e in box && !(0 <= box[e] <= now) :: box[e]
  }

  function Prune(k: Keys, r: Pubkey, now: int): Keys {
    PutInbox(k, r, Pruned(Inbox(k, r), now))
  }

  /** The inbox script: prune, count, insert when there is room. */
  function InboxScript(k: Keys, r: Pubkey, now: int, e: EnvelopeId, expiresAt: int): (Keys, bool) {
    var box := Pruned(Inbox(k, r), now);
    if |box| >= MAX_INBOX_QUEUE_DEPTH then (PutInbox(k, r, box), false)
    else (PutInbox(k, r, box[e := expiresAt]), true)
  }

  function RemoveRow(k: Keys, r: Pubkey, e: EnvelopeId): Keys {
    PutInbox(k, r, Inbox(k, r) - {e})
  }

  function NewMeta(o: Order, expiresAt: int, keyExp: int): Meta {
    Meta(o.sender, o.to, o.sealed, o.deleteKey, o.mail, false, expiresAt, keyExp)
  }

  /** SET ... EX, counted from the moment the command runs. */
  function SetMeta(k: Keys, e: EnvelopeId, o: Order, now: int, expiresAt: int): Keys {
    k.(metas := k.metas[e := NewMeta(o, expiresAt, k.clock + (expiresAt - now))])
  }

  function InboxKeyLife(ttl: int): int { Max(ttl, 60) + INBOX_KEY_TTL_SLACK_SECONDS }

  /** EXPIRE on the inboxes named, for those that exist. */
  function ExpireInboxes(k: Keys, rs: set<Pubkey>, ttl: int): Keys {
    k.(inboxExp := map r | r in k.inboxExp.Keys + (rs * k.inboxes.Keys) ::
         if r in rs && r in k.inboxes then k.clock + InboxKeyLife(ttl) else k.inboxExp[r])
  }

  /** The closing MULTI block of both enqueue paths: key lifetimes, pending set, reaper index
      and, for a signed DM, the sender tombstone. */
  function Register(k: Keys, e: EnvelopeId, o: Order, eligible: seq<Pubkey>, now: int, expiresAt: int): Keys {
    var ttl := expiresAt - now;
    var rs := Elems(eligible);
    var k1 := ExpireInboxes(k, rs, ttl);
    var had := if e in k.pendings then k.pendings[e].members else {};
    k1.(pendings := if rs == {} then k.pendings else k.pendings[e := Pending(had + rs, k.clock + ttl)],
        index := k.index[e := expiresAt],
        tombs := if o.to.Direct? && !o.sealed && o.sender.Some? then
                   k.tombs[e := Tombstone(o.sender.value, o.to.pubkey, k.clock + ttl + TOMBSTONE_EXTRA_TTL_SECONDS)]
                 else k.tombs)
  }

  /** The acknowledgement script: -1 no pending set, 0 others still wait, 1 last one. */
  function AckScript(k: Keys, r: Pubkey, e: EnvelopeId): (Keys, int) {
    if e !in k.pendings then (k, -1)
    else
      var left := k.pendings[e].members - {r};
      if left == {} then (k.(pendings := k.pendings - {e}, metas := k.metas - {e}), 1)
      else (k.(pendings := k.pendings[e := k.pendings[e].(members := left)]), 0)
  }

  /** The MULTI block of a DM or sealed delete. */
  function DeleteBlock(k: Keys, r: Pubkey, e: EnvelopeId, sealed: bool): Keys {
    var k1 := RemoveRow(k, r, e);
    k1.(metas := k1.metas - {e}, tombs := if sealed then k1.tombs else k1.tombs - {e})
  }

  /** SET ... XX KEEPTTL */
  function OverwriteMeta(k: Keys, e: EnvelopeId, m: Meta): Keys {
    if e in k.metas then k.(metas := k.metas[e := m.(keyExp := k.metas[e].keyExp)]) else k
  }

  function DropMeta(k: Keys, e: EnvelopeId): Keys { k.(metas := k.metas - {e}) }

  function Unlink(k: Keys, e: EnvelopeId): Keys { k.(blobs := k.blobs - {e}) }

  function WriteBlob(k: Keys, e: EnvelopeId): Keys { k.(blobs := k.blobs + {e}) }

  function ForgetIndex(k: Keys, e: EnvelopeId): Keys { k.(index := k.index - {e}) }

  function DropInbox(k: Keys, r: Pubkey): Keys { PutInbox(k, r, map[]) }
}
