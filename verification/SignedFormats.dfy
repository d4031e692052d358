/** Every message format the relay signs or checks a signature over, and why a signature on
    one never passes for another. Ed25519 is symbolic: a signature names its key and text. */
module SignedFormats {
  import opened Common
  import opened CanonicalJson
  import opened JsonParser

  datatype Message =
    | Auth(challenge: string, pubkey: string, ts: int)
    | Handshake(hostname: string, pubkey: string, ts: int)
    | Forward(envelope: Fields, pubkey: string, ts: int)
    | DmDelete(envelopeId: string, ts: int)
    | GroupDelete(groupId: string, envelopeId: string, ts: int)
    | GroupGone(groupId: string, ts: int)
    | DmsTrigger(envelopeId: string, to: string, ts: int, creator: string, dmsId: string)
    | DmsCheckin(pubkey: string, ts: int)
    | SensitiveAction(action: string, relay: string, ts: int, nonce: string, target: string)
    | ReadReceipt(envelopeId: string, sender: string, reader: string, group: Option<string>, ts: int)
    | PullSnapshot(groupId: string, caller: string, pubkey: string, ts: int)
    | Envelope(fields: Fields)

  /** The five fields of an envelope that are signed, those that are there. */
  function SignedPart(fs: Fields): Fields {
    Keep(fs, "from", Keep(fs, "to", Keep(fs, "ts", Keep(fs, "ttl", Keep(fs, "blob", NoFields)))))
  }

  function Keep(fs: Fields, k: string, rest: Fields): Fields {
    match Lookup(fs, k)
    case None => rest
    case Some(v) => Field(k, v, rest)
  }

  function Nullable(s: Option<string>): Json { if s.Some? then Str(s.value) else Null }

  type Entry = (string, Json)

  /** The dictionary that is printed, in the order the source writes it. */
  function Entries(m: Message): seq<Entry>
    requires !m.Envelope?
  {
    match m
    case Auth(c, p, t) => [("morok_auth", Str("v1")), ("challenge", Str(c)), ("pubkey", Str(p)), ("timestamp", Num(t))]
    case Handshake(h, p, t) => [("morok_handshake", Str("v1")), ("hostname", Str(h)), ("pubkey", Str(p)), ("timestamp", Num(t))]
    case Forward(e, p, t) => [("morok_forward", Str("v1")), ("envelope", Obj(e)), ("relay_pubkey", Str(p)), ("forwarded_at", Num(t))]
    case DmDelete(e, t) => [("kind", Str("dm_delete")), ("envelope_id", Str(e)), ("ts", Num(t))]
    case GroupDelete(g, e, t) => [("kind", Str("group_delete")), ("envelope_id", Str(e)), ("ts", Num(t)), ("group_id", Str(g))]
    case GroupGone(g, t) => [("kind", Str("group_gone")), ("ts", Num(t)), ("group_id", Str(g))]
    case DmsTrigger(e, to, t, c, d) =>
      [("morok_dms_trigger", Str("v1")), ("envelope_id", Str(e)), ("to", Str(to)), ("ts", Num(t)),
       ("dms_creator_pubkey", Str(c)), ("dms_id", Str(d))]
    case DmsCheckin(p, t) => [("morok_dms_checkin", Str("v1")), ("pubkey", Str(p)), ("timestamp", Num(t))]
    case SensitiveAction(a, r, t, n, g) =>
      [("morok_sensitive_action", Str("v1")), ("action", Str(a)), ("relay", Str(r)), ("timestamp", Num(t)),
       ("nonce", Str(n)), ("target", Str(g))]
    case ReadReceipt(e, s, r, g, t) =>
      [("morok_read_receipt", Str("morok_read_receipt:v1")), ("envelope_id", Str(e)), ("sender_pubkey_hex", Str(s)),
       ("reader_pubkey_hex", Str(r)), ("group_id", Nullable(g)), ("signed_at", Num(t))]
    case PullSnapshot(g, c, p, t) =>
      [("morok_pull_snapshot", Str("v1")), ("group_id", Str(g)), ("caller_pubkey", Str(c)), ("relay_pubkey", Str(p)),
       ("timestamp", Num(t))]
  }

  function Dict(es: seq<Entry>): Fields { if es == [] then NoFields else Field(es[0].0, es[0].1, Dict(es[1..])) }

  function Payload(m: Message): Fields { if m.Envelope? then SignedPart(m.fields) else Dict(Entries(m)) }

  function Bytes(m: Message): string { Canonical(Obj(Payload(m))) }

  /** The key that marks a format, and its value; an envelope has none. */
  function Tag(m: Message): Option<(string, string)> {
    match m
    case Auth(_, _, _) => Some(("morok_auth", "v1"))
    case Handshake(_, _, _) => Some(("morok_handshake", "v1"))
    case Forward(_, _, _) => Some(("morok_forward", "v1"))
    case DmDelete(_, _) => Some(("kind", "dm_delete"))
    case GroupDelete(_, _, _) => Some(("kind", "group_delete"))
    case GroupGone(_, _) => Some(("kind", "group_gone"))
    case DmsTrigger(_, _, _, _, _) => Some(("morok_dms_trigger", "v1"))
    case DmsCheckin(_, _) => Some(("morok_dms_checkin", "v1"))
    case SensitiveAction(_, _, _, _, _) => Some(("morok_sensitive_action", "v1"))
    case ReadReceipt(_, _, _, _, _) => Some(("morok_read_receipt", "morok_read_receipt:v1"))
    case PullSnapshot(_, _, _, _) => Some(("morok_pull_snapshot", "v1"))
    case Envelope(_) => None
  }

  // ---- dictionaries from lists ----

  lemma {:induction false} DictLookup(es: seq<Entry>, i: nat)
    requires i < |es| && forall j :: 0 <= j < i ==> es[j].0 != es[i].0
    ensures Lookup(Dict(es), es[i].0) == Some(es[i].1)
  {
    if i > 0 {
      DictLookup(es[1..], i - 1);
    }
  }

  lemma {:induction false} DictHas(es: seq<Entry>, k: string)
    ensures Lookup(Dict(es), k).Some? ==> exists i :: 0 <= i < |es| && es[i].0 == k
  {
    if es != [] && es[0].0 != k {
      DictHas(es[1..], k);
      if i :| 0 <= i < |es[1..]| && es[1..][i].0 == k {
        assert es[i + 1].0 == k;
      }
    }
  }

  // ---- marks ----

  /** "kind" or a key that begins with "morok_". */
  predicate Marks(k: string) { k == "kind" || "morok_" <= k }

  lemma NotMark(k: string)
    requires k != [] && k[0] != 'm' && k[0] != 'k'
    ensures !Marks(k)
  {
  }

  /** A tagged format's first key is its mark, and no other key of it is one. */
  lemma MarkIsFirst(m: Message, i: nat)
    requires !m.Envelope? && i < |Entries(m)|
    ensures Tag(m).Some? && Entries(m)[0] == (Tag(m).value.0, Str(Tag(m).value.1)) && Marks(Tag(m).value.0)
    ensures i > 0 ==> Entries(m)[i].0 != [] && Entries(m)[i].0[0] != 'm' && Entries(m)[i].0[0] != 'k' && !Marks(Entries(m)[i].0)
  {
    if i > 0 {
      NotMark(Entries(m)[i].0);
    }
    hide Marks;
    FirstMarks(m);
  }

  lemma FirstMarks(m: Message)
    requires !m.Envelope?
    ensures Marks(Entries(m)[0].0)
  {
  }

  /** Looking up a mark in a payload finds its own tag and nothing else. */
  lemma MarkLookup(m: Message, k: string)
    requires Marks(k)
    ensures Lookup(Payload(m), k) == if Tag(m).Some? && k == Tag(m).value.0 then Some(Str(Tag(m).value.1)) else None
  {
    if m.Envelope? {
      EnvelopeLookup(m.fields, k);
      NotMark("from"); NotMark("to"); NotMark("ts"); NotMark("ttl"); NotMark("blob");
    } else {
      var es := Entries(m);
      MarkIsFirst(m, 0);
      hide Entries, Tag, Marks;
      if k == es[0].0 {
        DictLookup(es, 0);
      } else {
        DictHas(es, k);
        forall i | 0 <= i < |es| ensures es[i].0 != k { MarkIsFirst(m, i); }
      }
    }
  }

  predicate Signed(k: string) { k == "from" || k == "to" || k == "ts" || k == "ttl" || k == "blob" }

  lemma KeepLookup(fs: Fields, k: string, rest: Fields, x: string)
    ensures Lookup(Keep(fs, k, rest), x) == if x == k && Lookup(fs, k).Some? then Lookup(fs, k) else Lookup(rest, x)
  {
  }

  /** The signed part of an envelope: its own entry for the five fields, nothing for others. */
  lemma EnvelopeLookup(fs: Fields, x: string)
    ensures Lookup(SignedPart(fs), x) == if Signed(x) then Lookup(fs, x) else None
  {
    hide Lookup, Keep;
    var r5 := NoFields;
    var r4 := Keep(fs, "blob", r5);
    var r3 := Keep(fs, "ttl", r4);
    var r2 := Keep(fs, "ts", r3);
    var r1 := Keep(fs, "to", r2);
    KeepLookup(fs, "from", r1, x);
    KeepLookup(fs, "to", r2, x);
    KeepLookup(fs, "ts", r3, x);
    KeepLookup(fs, "ttl", r4, x);
    KeepLookup(fs, "blob", r5, x);
    EmptyLookup(x);
  }

  lemma EmptyLookup(x: string)
    ensures Lookup(NoFields, x) == None
  {
  }

  // ---- one text, one message ----

  /** The same message: the forwarded envelope as a JSON value, an envelope by its signed part. */
  ghost predicate Same(a: Message, b: Message) {
    if a.Envelope? && b.Envelope? then SameKeys(SignedPart(a.fields), SignedPart(b.fields))
    else if a.Forward? && b.Forward? then
      Norm(Obj(a.envelope)) == Norm(Obj(b.envelope)) && a.pubkey == b.pubkey && a.ts == b.ts
    else a == b
  }

  lemma TagCarries(a: Message, b: Message)
    requires Tag(a).Some? && SameEntry(Lookup(Payload(a), Tag(a).value.0), Lookup(Payload(b), Tag(a).value.0))
    ensures Tag(b) == Tag(a)
  {
    hide Lookup, Payload, Tag, Marks, Entries;
    TagIsMark(a);
    MarkLookup(a, Tag(a).value.0);
    MarkLookup(b, Tag(a).value.0);
  }

  lemma TagIsMark(a: Message)
    requires Tag(a).Some?
    ensures Marks(Tag(a).value.0)
  {
    hide Marks, Lookup, Payload;
    assert !a.Envelope?;
    MarkIsFirst(a, 0);
  }

  lemma SameTag(a: Message, b: Message)
    requires SameKeys(Payload(a), Payload(b))
    ensures Tag(a) == Tag(b)
  {
    hide Lookup, Payload, Tag, SameEntry;
    if Tag(a).Some? { TagCarries(a, b); }
    if Tag(b).Some? {
      SameKeysBack(Payload(a), Payload(b), Tag(b).value.0);
      TagCarries(b, a);
    }
  }

  lemma SameKeysBack(f: Fields, g: Fields, k: string)
    requires SameKeys(f, g)
    ensures SameEntry(Lookup(g, k), Lookup(f, k))
  {
    assert SameEntry(Lookup(f, k), Lookup(g, k));
    hide Lookup;
  }

  /** The tag decides the format. */
  lemma TagDecides(a: Message, b: Message)
    requires Tag(a) == Tag(b)
    ensures a.Auth? == b.Auth? && a.Handshake? == b.Handshake? && a.Forward? == b.Forward? && a.DmDelete? == b.DmDelete?
    ensures a.GroupDelete? == b.GroupDelete? && a.GroupGone? == b.GroupGone? && a.DmsTrigger? == b.DmsTrigger?
    ensures a.DmsCheckin? == b.DmsCheckin? && a.SensitiveAction? == b.SensitiveAction? && a.ReadReceipt? == b.ReadReceipt?
    ensures a.PullSnapshot? == b.PullSnapshot? && a.Envelope? == b.Envelope?
  {
  }

  predicate Aligned(a: seq<Entry>, b: seq<Entry>) {
    && |a| == |b| && (forall i :: 0 <= i < |a| ==> a[i].0 == b[i].0)
    && (forall i, j :: 0 <= i < j < |a| ==> a[i].0 != a[j].0)
  }

  lemma EntriesDistinct(m: Message, i: nat, j: nat)
    requires !m.Envelope? && i < j < |Entries(m)|
    ensures Entries(m)[i].0 != Entries(m)[j].0
  {
  }

  lemma EntriesMatch(a: Message, b: Message)
    requires Tag(a) == Tag(b) && !a.Envelope?
    ensures !b.Envelope? && |Entries(a)| == |Entries(b)|
    ensures forall i :: 0 <= i < |Entries(a)| ==> Entries(a)[i].0 == Entries(b)[i].0
  {
    TagDecides(a, b);
    hide Tag;
  }

  lemma AlignedEntries(a: Message, b: Message)
    requires Tag(a) == Tag(b) && !a.Envelope?
    ensures !b.Envelope? && Aligned(Entries(a), Entries(b))
  {
    hide Tag, Entries;
    EntriesMatch(a, b);
    forall i, j | 0 <= i < j < |Entries(a)| ensures Entries(a)[i].0 != Entries(a)[j].0 { EntriesDistinct(a, i, j); }
  }

  lemma AlignedSame(a: seq<Entry>, b: seq<Entry>, i: nat)
    requires Aligned(a, b) && SameKeys(Dict(a), Dict(b)) && i < |a|
    ensures Norm(a[i].1) == Norm(b[i].1)
  {
    DictLookup(a, i);
    DictLookup(b, i);
    assert SameEntry(Lookup(Dict(a), a[i].0), Lookup(Dict(b), a[i].0));
  }

  /** Printed values decide the members of the message. */
  lemma ValuesDecide(a: Message, b: Message)
    requires Tag(a) == Tag(b) && !a.Envelope? && !b.Envelope? && |Entries(a)| == |Entries(b)|
    requires forall i :: 0 <= i < |Entries(a)| ==> Norm(Entries(a)[i].1) == Norm(Entries(b)[i].1)
    ensures Same(a, b)
  {
    TagDecides(a, b);
    hide Tag, SameKeys;
    var (x, y) := (Entries(a), Entries(b));
    assert |x| > 2 && Norm(x[1].1) == Norm(y[1].1) && Norm(x[2].1) == Norm(y[2].1);
    assert |x| > 3 ==> Norm(x[3].1) == Norm(y[3].1);
    assert |x| > 4 ==> Norm(x[4].1) == Norm(y[4].1);
    assert |x| > 5 ==> Norm(x[5].1) == Norm(y[5].1);
  }

  lemma SameKeysSame(a: Message, b: Message)
    requires SameKeys(Payload(a), Payload(b))
    ensures Same(a, b)
  {
    SameTag(a, b);
    TagDecides(a, b);
    if !a.Envelope? {
      AlignedEntries(a, b);
      hide Tag, Entries, Aligned, SameKeys, Same;
      forall i | 0 <= i < |Entries(a)| ensures Norm(Entries(a)[i].1) == Norm(Entries(b)[i].1) {
        AlignedSame(Entries(a), Entries(b), i);
      }
      AlignedLength(Entries(a), Entries(b));
      ValuesDecide(a, b);
    }
  }

  lemma AlignedLength(a: seq<Entry>, b: seq<Entry>)
    requires Aligned(a, b)
    ensures |a| == |b|
  {
  }

  lemma {:induction false} NormDict(a: seq<Entry>, b: seq<Entry>)
    requires |a| == |b| && forall i :: 0 <= i < |a| ==> a[i].0 == b[i].0 && Norm(a[i].1) == Norm(b[i].1)
    ensures NormFields(Dict(a)) == NormFields(Dict(b))
  {
    if a != [] {
      NormDict(a[1..], b[1..]);
    }
  }

  lemma SameForward(a: Message, b: Message)
    requires Same(a, b) && a.Forward? && b.Forward?
    ensures NormFields(Payload(a)) == NormFields(Payload(b))
  {
    var (x, y) := (Entries(a), Entries(b));
    hide SameKeys;
    assert x == [("morok_forward", Str("v1")), ("envelope", Obj(a.envelope)), ("relay_pubkey", Str(a.pubkey)), ("forwarded_at", Num(a.ts))];
    NormDict(x, y);
  }

  /** Main theorem: two messages of any formats have the same signed bytes exactly when they
      are the same message. The images of the formats are disjoint and each is injective. */
  lemma BytesIdentifyMessage(a: Message, b: Message)
    ensures Bytes(a) == Bytes(b) <==> Same(a, b)
  {
    CanonicalObjectIff(Payload(a), Payload(b));
    if SameKeys(Payload(a), Payload(b)) { SameKeysSame(a, b); }
    if Same(a, b) {
      if a.Forward? && b.Forward? { SameForward(a, b); }
      hide Canonical, SameKeys, Entries, SignedPart, Dict;
    }
  }

  // ---- signatures ----

  datatype Signature = Signature(pubkey: string, text: string)

  function Sign(pubkey: string, m: Message): Signature { Signature(pubkey, Bytes(m)) }

  predicate Verify(m: Message, sig: Signature, pubkey: string) { sig == Signature(pubkey, Bytes(m)) }

  /** A signature made over one message verifies for that message and that key only. */
  lemma SignatureFitsOneMessage(signer: string, signed: Message, pubkey: string, claimed: Message)
    ensures Verify(claimed, Sign(signer, signed), pubkey) <==> pubkey == signer && Same(claimed, signed)
  {
    BytesIdentifyMessage(claimed, signed);
    hide Same;
  }

  const MAX_AGE_SECONDS := 300
  const MAX_FUTURE_SECONDS := 60

  /** verify_envelope_signature on an envelope with its signature beside it. */
  predicate EnvelopeValid(fs: Fields, sig: Signature, now: int) {
    && Lookup(fs, "from").Some? && Lookup(fs, "from").value.Str? && |Lookup(fs, "from").value.s| == 64
    && Lookup(fs, "to").Some? && Lookup(fs, "to").value.Str? && |Lookup(fs, "to").value.s| == 64
    && Lookup(fs, "ts").Some? && Lookup(fs, "ts").value.Num?
    && Lookup(fs, "ttl").Some? && Lookup(fs, "ttl").value.Num? && Lookup(fs, "ttl").value.n > 0
    && Lookup(fs, "blob").Some? && Lookup(fs, "blob").value.Str?
    && now - MAX_AGE_SECONDS <= Lookup(fs, "ts").value.n <= now + MAX_FUTURE_SECONDS
    && Verify(Envelope(fs), sig, Lookup(fs, "from").value.s)
  }

  ghost predicate AgreeOnSigned(fs: Fields, gs: Fields) { forall k :: Signed(k) ==> Lookup(fs, k) == Lookup(gs, k) }

  lemma AgreeingSameBytes(fs: Fields, gs: Fields)
    requires AgreeOnSigned(fs, gs)
    ensures Bytes(Envelope(fs)) == Bytes(Envelope(gs))
  {
    forall k ensures SameEntry(Lookup(SignedPart(fs), k), Lookup(SignedPart(gs), k)) {
      EnvelopeLookup(fs, k);
      EnvelopeLookup(gs, k);
      assert Signed(k) ==> Lookup(fs, k) == Lookup(gs, k);
    }
    SameKeysFrom(SignedPart(fs), SignedPart(gs));
    CanonicalObjectIff(SignedPart(fs), SignedPart(gs));
  }

  /** Whatever a relay adds, drops or reorders beside the five signed fields, an envelope
      verifies exactly if it did before. */
  lemma MetadataDoesNotMatter(fs: Fields, gs: Fields, sig: Signature, now: int)
    requires AgreeOnSigned(fs, gs)
    ensures EnvelopeValid(fs, sig, now) <==> EnvelopeValid(gs, sig, now)
  {
    AgreeingSameBytes(fs, gs);
    hide Bytes, Lookup;
    assert Signed("from") && Signed("to") && Signed("ts") && Signed("ttl") && Signed("blob");
  }

  /** The envelope the Dead Man's Switch reaper signs, and the metadata it travels in. */
  function DmsFields(relay: string, to: string, ts: int, ttl: int, blob: string, extra: Fields): Fields {
    Field("from", Str(relay), Field("to", Str(to), Field("ts", Num(ts), Field("ttl", Num(ttl), Field("blob", Str(blob), extra)))))
  }

  lemma Step(k: string, v: Json, rest: Fields, x: string)
    ensures Lookup(Field(k, v, rest), x) == if k == x then Some(v) else Lookup(rest, x)
  {
  }

  lemma DmsLookup(relay: string, to: string, ts: int, ttl: int, blob: string, extra: Fields, x: string)
    ensures Lookup(DmsFields(relay, to, ts, ttl, blob, extra), x) ==
            if x == "from" then Some(Str(relay)) else if x == "to" then Some(Str(to)) else if x == "ts" then Some(Num(ts))
            else if x == "ttl" then Some(Num(ttl)) else if x == "blob" then Some(Str(blob)) else Lookup(extra, x)
  {
    hide Lookup;
    var f4 := Field("blob", Str(blob), extra);
    var f3 := Field("ttl", Num(ttl), f4);
    var f2 := Field("ts", Num(ts), f3);
    var f1 := Field("to", Str(to), f2);
    Step("from", Str(relay), f1, x);
    Step("to", Str(to), f2, x);
    Step("ts", Num(ts), f3, x);
    Step("ttl", Num(ttl), f4, x);
    Step("blob", Str(blob), extra, x);
  }

  lemma DmsAgrees(relay: string, to: string, ts: int, ttl: int, blob: string, extra: Fields)
    ensures AgreeOnSigned(DmsFields(relay, to, ts, ttl, blob, extra), DmsFields(relay, to, ts, ttl, blob, NoFields))
  {
    forall k | Signed(k)
      ensures Lookup(DmsFields(relay, to, ts, ttl, blob, extra), k) == Lookup(DmsFields(relay, to, ts, ttl, blob, NoFields), k)
    {
      DmsLookup(relay, to, ts, ttl, blob, extra, k);
      DmsLookup(relay, to, ts, ttl, blob, NoFields, k);
    }
    hide Lookup, Signed;
  }

  /** It verifies like any envelope, for as long as one would, with all its labels attached. */
  lemma DmsEnvelopeVerifiesIff(relay: string, to: string, ts: int, ttl: int, blob: string, extra: Fields, now: int)
    requires |relay| == 64 && |to| == 64 && ttl > 0
    ensures EnvelopeValid(DmsFields(relay, to, ts, ttl, blob, extra),
                          Signature(relay, Canonical(Obj(DmsFields(relay, to, ts, ttl, blob, NoFields)))), now)
            <==> now - MAX_AGE_SECONDS <= ts <= now + MAX_FUTURE_SECONDS
  {
    var bare := DmsFields(relay, to, ts, ttl, blob, NoFields);
    var sig := Signature(relay, Canonical(Obj(bare)));
    DmsAgrees(relay, to, ts, ttl, blob, extra);
    MetadataDoesNotMatter(DmsFields(relay, to, ts, ttl, blob, extra), bare, sig, now);
    BareIsSigned(relay, to, ts, ttl, blob);
    DmsLookups(relay, to, ts, ttl, blob);
    hide Lookup, Canonical, DmsFields;
  }

  lemma DmsLookups(relay: string, to: string, ts: int, ttl: int, blob: string)
    ensures var fs := DmsFields(relay, to, ts, ttl, blob, NoFields);
            && Lookup(fs, "from") == Some(Str(relay)) && Lookup(fs, "to") == Some(Str(to)) && Lookup(fs, "ts") == Some(Num(ts))
            && Lookup(fs, "ttl") == Some(Num(ttl)) && Lookup(fs, "blob") == Some(Str(blob))
  {
    hide Lookup, DmsFields;
    DmsLookup(relay, to, ts, ttl, blob, NoFields, "from");
    DmsLookup(relay, to, ts, ttl, blob, NoFields, "to");
    DmsLookup(relay, to, ts, ttl, blob, NoFields, "ts");
    DmsLookup(relay, to, ts, ttl, blob, NoFields, "ttl");
    DmsLookup(relay, to, ts, ttl, blob, NoFields, "blob");
  }

  lemma BareIsSigned(relay: string, to: string, ts: int, ttl: int, blob: string)
    ensures SignedPart(DmsFields(relay, to, ts, ttl, blob, NoFields)) == DmsFields(relay, to, ts, ttl, blob, NoFields)
  {
    DmsLookups(relay, to, ts, ttl, blob);
    hide Lookup;
  }
}
