/** Envelope ids as the bytes that are hashed, SHA-256 being taken as injective: one queue
    slot per message, and when two kinds of message could ever share a slot. */
module EnvelopeIds {

  newtype byte = b: int | 0 <= b < 256

  type Bytes = seq<byte>

  const KEY_BYTES: nat := 32
  const UUID_BYTES: nat := 16
  const HASH_BYTES: nat := 32
  const TIME_BYTES: nat := 8
  const TIME_LIMIT: nat := 0x1_0000_0000_0000_0000

  /** n as `width` bytes, most significant first. */
  function BigEndian(n: nat, width: nat): (r: Bytes)
    ensures |r| == width
  {
    if width == 0 then [] else BigEndian(n / 256, width - 1) + [(n % 256) as byte]
  }

  function Power256(width: nat): nat { if width == 0 then 1 else 256 * Power256(width - 1) }

  /** What a reader makes of bytes that come most significant first. */
  function Value(bs: Bytes): nat { if bs == [] then 0 else Value(bs[..|bs| - 1]) * 256 + bs[|bs| - 1] as int }

  lemma {:induction false} BigEndianReads(n: nat, width: nat)
    requires n < Power256(width)
    ensures Value(BigEndian(n, width)) == n
  {
    if width > 0 {
      BigEndianReads(n / 256, width - 1);
      assert BigEndian(n, width)[..width - 1] == BigEndian(n / 256, width - 1);
    }
  }

  lemma {:induction false} BigEndianInjective(m: nat, n: nat, width: nat)
    requires m < Power256(width) && n < Power256(width)
    ensures BigEndian(m, width) == BigEndian(n, width) <==> m == n
  {
    if width > 0 {
      BigEndianInjective(m / 256, n / 256, width - 1);
      var (a, b) := (BigEndian(m, width), BigEndian(n, width));
      if a == b {
        assert a[..width - 1] == BigEndian(m / 256, width - 1) && b[..width - 1] == BigEndian(n / 256, width - 1);
        assert a[width - 1] == (m % 256) as byte && b[width - 1] == (n % 256) as byte;
        assert (m % 256) as byte as int == (n % 256) as byte as int;
      }
    }
  }

  /** A DM, a group message, and the envelope of a triggered switch, each by what it hashes;
      `digest` is the SHA-256 of the blob. */
  datatype Source =
    | Direct(sender: Bytes, recipient: Bytes, ts: nat, digest: Bytes)
    | Group(sender: Bytes, group: Bytes, ts: nat, digest: Bytes)
    | Dms(dms: Bytes, recipient: Bytes, payload: Bytes)
  {
    predicate WellFormed() {
      match this
      case Direct(s, r, t, d) => |s| == KEY_BYTES && |r| == KEY_BYTES && t < TIME_LIMIT && |d| == HASH_BYTES
      case Group(s, g, t, d) => |s| == KEY_BYTES && |g| == UUID_BYTES && t < TIME_LIMIT && |d| == HASH_BYTES
      case Dms(i, r, p) => |i| == UUID_BYTES && |r| == KEY_BYTES
    }

    function Preimage(): Bytes {
      match this
      case Direct(s, r, t, d) => s + r + BigEndian(t, TIME_BYTES) + d
      case Group(s, g, t, d) => s + g + BigEndian(t, TIME_BYTES) + d
      case Dms(i, r, p) => i + r + p
    }
  }

  /** Where each field of a message lies in what is hashed. */
  lemma Layout(a: Source)
    requires a.WellFormed()
    ensures var p := a.Preimage();
            match a
            case Direct(s, r, t, d) =>
              |p| == 104 && p[..32] == s && p[32..64] == r && p[64..72] == BigEndian(t, 8) && p[72..] == d
            case Group(s, g, t, d) =>
              |p| == 88 && p[..32] == s && p[32..48] == g && p[48..56] == BigEndian(t, 8) && p[56..] == d
            case Dms(i, r, payload) =>
              |p| == 48 + |payload| && p[..16] == i && p[16..48] == r && p[48..] == payload
  {
  }

  lemma TimeFits()
    ensures Power256(TIME_BYTES) == TIME_LIMIT
  {
    assert Power256(2) == 0x1_0000;
    assert Power256(4) == 0x1_0000_0000;
    assert Power256(6) == 0x1_0000_0000_0000;
  }

  lemma SplitAt(a: Bytes, b: Bytes, c: Bytes, d: Bytes)
    requires a + b == c + d && |a| == |c|
    ensures a == c && b == d
  {
    assert (a + b)[..|a|] == a && (c + d)[..|c|] == c;
    assert (a + b)[|a|..] == b && (c + d)[|c|..] == d;
  }

  /** Within one kind the id identifies sender, addressee, time and blob. */
  lemma IdIdentifiesMessage(a: Source, b: Source)
    requires a.WellFormed() && b.WellFormed()
    requires a.Direct? == b.Direct? && a.Group? == b.Group?
    ensures a.Preimage() == b.Preimage() <==> a == b
  {
    if a.Preimage() == b.Preimage() {
      if a.Dms? {
        SplitAt(a.dms + a.recipient, a.payload, b.dms + b.recipient, b.payload);
        SplitAt(a.dms, a.recipient, b.dms, b.recipient);
      } else {
        var (p, q) := if a.Direct? then (a.recipient, b.recipient) else (a.group, b.group);
        var (s, t) := (BigEndian(a.ts, TIME_BYTES), BigEndian(b.ts, TIME_BYTES));
        SplitAt(a.sender + p + s, a.digest, b.sender + q + t, b.digest);
        SplitAt(a.sender + p, s, b.sender + q, t);
        SplitAt(a.sender, p, b.sender, q);
        TimeFits();
        BigEndianInjective(a.ts, b.ts, TIME_BYTES);
      }
    }
  }

  /** A DM and a group message never share a slot. */
  lemma DirectIsNotGroup(a: Source, b: Source)
    requires a.WellFormed() && b.WellFormed() && a.Direct? && b.Group?
    ensures a.Preimage() != b.Preimage()
  {
    assert |a.Preimage()| == 104 && |b.Preimage()| == 88;
  }

  /** A switch hashes its payload bare: it shares a DM's slot exactly if the payload has 56
      bytes and identifier, recipient and payload spell the DM's fields. */
  lemma DmsSharesSlotIff(a: Source, b: Source)
    requires a.WellFormed() && b.WellFormed() && a.Direct? && b.Dms?
    ensures a.Preimage() == b.Preimage() <==>
            && |b.payload| == 56
            && a.sender == b.dms + b.recipient[..16]
            && a.recipient == b.recipient[16..] + b.payload[..16]
            && BigEndian(a.ts, TIME_BYTES) == b.payload[16..24]
            && a.digest == b.payload[24..]
  {
    var (x, y) := (b.recipient, b.payload);
    assert x == x[..16] + x[16..];
    if |y| == 56 {
      assert y == y[..16] + (y[16..24] + y[24..]);
      assert b.Preimage() == (b.dms + x[..16]) + ((x[16..] + y[..16]) + (y[16..24] + y[24..]));
      var t := BigEndian(a.ts, TIME_BYTES);
      assert a.Preimage() == a.sender + (a.recipient + (t + a.digest));
      if a.Preimage() == b.Preimage() {
        SplitAt(a.sender, a.recipient + (t + a.digest), b.dms + x[..16], (x[16..] + y[..16]) + (y[16..24] + y[24..]));
        SplitAt(a.recipient, t + a.digest, x[16..] + y[..16], y[16..24] + y[24..]);
        SplitAt(t, a.digest, y[16..24], y[24..]);
      }
    }
  }
}
