/** The very characters a signature covers, format by format: keys in ascending order, values
    as they were given, no space anywhere. */
module SignedText {
  import opened Common
  import opened CanonicalJson
  import opened JsonParser
  import opened SignedFormats

  // ---- the order of keys ----

  /** A string comes before another where they first differ, or as its proper beginning. */
  ghost predicate Before(a: string, b: string) {
    exists n: nat :: n <= |a| && n < |b| && a[..n] == b[..n] && (n == |a| || a[n] < b[n])
  }

  lemma {:induction false} LessIff(a: string, b: string)
    ensures Less(a, b) <==> Before(a, b)
    decreases |a|
  {
    if a != [] && b != [] && a[0] == b[0] {
      LessIff(a[1..], b[1..]);
      BeforeTail(a, b);
      TailBefore(a, b);
    } else if b != [] && (a == [] || a[0] < b[0]) {
      assert a[..0] == b[..0];
    } else {
      FirstsDecide(a, b);
    }
    hide Before;
  }

  lemma BeforeTail(a: string, b: string)
    requires a != [] && b != [] && a[0] == b[0]
    ensures Before(a, b) ==> Before(a[1..], b[1..])
  {
    if Before(a, b) {
      var n: nat :| n <= |a| && n < |b| && a[..n] == b[..n] && (n == |a| || a[n] < b[n]);
      assert a[1..][..n - 1] == a[..n][1..] && b[1..][..n - 1] == b[..n][1..];
    }
  }

  lemma TailBefore(a: string, b: string)
    requires a != [] && b != [] && a[0] == b[0]
    ensures Before(a[1..], b[1..]) ==> Before(a, b)
  {
    if Before(a[1..], b[1..]) {
      var n: nat :| n <= |a[1..]| && n < |b[1..]| && a[1..][..n] == b[1..][..n] && (n == |a[1..]| || a[1..][n] < b[1..][n]);
      PrefixNext(a, n);
      PrefixNext(b, n);
      assert a[..n + 1] == b[..n + 1];
    }
  }

  lemma PrefixNext(s: string, n: nat)
    requires n < |s|
    ensures s[..n + 1] == [s[0]] + s[1..][..n]
  {
  }

  lemma FirstsDecide(a: string, b: string)
    ensures Before(a, b) ==> b != [] && (a != [] ==> a[0] <= b[0])
  {
    if n: nat :| 0 < n <= |a| && n < |b| && a[..n] == b[..n] {
      assert a[0] == a[..n][0] == b[..n][0] == b[0];
    }
  }

  function Keys(fs: Fields): seq<string> {
    match fs
    case NoFields => []
    case Field(k, _, rest) => [k] + Keys(rest)
  }

  lemma {:induction false} SortedAscends(fs: Fields, i: nat, j: nat)
    requires Sorted(fs) && i < j < |Keys(fs)|
    ensures Less(Keys(fs)[i], Keys(fs)[j])
  {
    if i > 0 {
      SortedAscends(fs.rest, i - 1, j - 1);
    } else if j > 1 {
      SortedAscends(fs.rest, 0, j - 1);
      LessTransitive(fs.key, fs.rest.key, Keys(fs)[j]);
    }
  }

  /** However a dictionary was filled, it is printed with its keys strictly ascending. */
  lemma PrintedKeysAscend(fs: Fields, i: nat, j: nat)
    requires i < j < |Keys(Norm(Obj(fs)).fields)|
    ensures Before(Keys(Norm(Obj(fs)).fields)[i], Keys(Norm(Obj(fs)).fields)[j])
  {
    SortSorted(NormFields(fs));
    SortedAscends(Norm(Obj(fs)).fields, i, j);
    LessIff(Keys(Norm(Obj(fs)).fields)[i], Keys(Norm(Obj(fs)).fields)[j]);
  }

  // ---- strings and numbers ----

  predicate Plain(c: char) { c != '\"' && c != '\\' && c as int >= 32 }

  /** Letters, digits, anything but quotes, backslashes and control characters, beyond ASCII
      too, stands as it is. */
  lemma {:induction false} PlainIsVerbatim(s: string)
    requires forall i :: 0 <= i < |s| ==> Plain(s[i])
    ensures EscapeAll(s) == s && Quote(s) == "\"" + s + "\""
  {
    if s != [] {
      PlainIsVerbatim(s[1..]);
      assert Plain(s[0]);
      assert s == [s[0]] + s[1..];
    }
  }

  /** Anything else takes two characters if it has a short escape, and six otherwise. */
  lemma EscapedExactly(c: char)
    ensures Escape(c) == [c] <==> Plain(c)
    ensures !Plain(c) ==> Escape(c)[0] == '\\'
    ensures Escape('\"') == "\\\"" && Escape('\\') == "\\\\" && Escape('\n') == "\\n" && Escape('\r') == "\\r" && Escape('\t') == "\\t"
    ensures Escape(8 as char) == "\\b" && Escape(12 as char) == "\\f"
    ensures !Plain(c) ==> |Escape(c)| == if c in {'\"', '\\', '\n', '\r', '\t', 8 as char, 12 as char} then 2 else 6
  {
  }

  /** Numbers are decimal, without a leading zero or a plus. */
  lemma {:induction false} DecimalExactly(n: nat)
    ensures Value(Digits(n)) == n && |Digits(n)| > 0 && (n > 0 ==> Digits(n)[0] != '0') && (n == 0 ==> Digits(n) == "0")
    ensures forall c :: c in Digits(n) ==> '0' <= c <= '9'
  {
    var d := Digit(n % 10);
    DigitValue(n % 10);
    if n >= 10 {
      DecimalExactly(n / 10);
      assert Digits(n) == Digits(n / 10) + [d];
      LastDigit(Digits(n / 10), d);
    } else {
      assert Digits(n) == [] + [d];
      LastDigit([], d);
    }
    hide Digits, Value, Digit;
  }

  lemma DigitValue(d: nat)
    requires d < 10
    ensures '0' <= Digit(d) <= '9' && Digit(d) as int == '0' as int + d
  {
  }

  lemma LastDigit(ds: string, c: char)
    requires '0' <= c <= '9'
    ensures Value(ds + [c]) == Value(ds) * 10 + (c as int - '0' as int)
    ensures Value([]) == 0
  {
    assert (ds + [c])[..|ds|] == ds;
  }

  // ---- one dictionary, printed ----

  /** Names and printed values between braces, as they go over the wire. */
  function Printed(lines: seq<(string, string)>): string { "{" + Commas(lines) + "}" }

  function Commas(lines: seq<(string, string)>): string {
    if lines == [] then ""
    else Quote(lines[0].0) + ":" + lines[0].1 + if |lines| == 1 then "" else "," + Commas(lines[1..])
  }

  function Lines(es: seq<Entry>): seq<(string, string)> {
    seq(|es|, i requires 0 <= i < |es| => (es[i].0, Canonical(es[i].1)))
  }

  lemma {:induction false} DictText(es: seq<Entry>)
    ensures TextFields(NormFields(Dict(es))) == Commas(Lines(es))
  {
    if es != [] {
      DictText(es[1..]);
      assert Lines(es)[1..] == Lines(es[1..]);
    }
  }

  ghost predicate Ascending(es: seq<Entry>) { forall i :: 0 <= i < |es| - 1 ==> Less(es[i].0, es[i + 1].0) }

  lemma {:induction false} AscendingIsSorted(es: seq<Entry>)
    requires Ascending(es)
    ensures Sorted(NormFields(Dict(es)))
  {
    if es != [] {
      forall i | 0 <= i < |es[1..]| - 1 ensures Less(es[1..][i].0, es[1..][i + 1].0) {
        assert Less(es[i + 1].0, es[i + 2].0);
      }
      AscendingIsSorted(es[1..]);
    }
  }

  lemma {:induction false} DictFinds(es: seq<Entry>, k: string)
    ensures match Lookup(Dict(es), k)
            case Some(v) => (k, v) in es
            case None => forall e :: e in es ==> e.0 != k
  {
    if es != [] && es[0].0 != k {
      DictFinds(es[1..], k);
      assert es == [es[0]] + es[1..];
    }
  }

  ghost predicate OneValueEach(es: seq<Entry>) { forall e, f :: e in es && f in es && e.0 == f.0 ==> e == f }

  lemma SameEntriesSameLookup(es: seq<Entry>, ts: seq<Entry>, k: string)
    requires OneValueEach(es) && forall e :: e in es <==> e in ts
    ensures Lookup(Dict(es), k) == Lookup(Dict(ts), k)
  {
    DictFinds(es, k);
    DictFinds(ts, k);
  }

  /** The same entries in ascending order are what is printed. */
  lemma PrintedInOrder(es: seq<Entry>, ts: seq<Entry>)
    requires OneValueEach(es) && (forall e :: e in es <==> e in ts) && Ascending(ts)
    ensures Canonical(Obj(Dict(es))) == Printed(Lines(ts))
  {
    var (f, g) := (NormFields(Dict(es)), NormFields(Dict(ts)));
    SortSorted(f);
    AscendingIsSorted(ts);
    forall k ensures Lookup(Sort(f), k) == Lookup(g, k) {
      SortLookup(f, k);
      NormLookup(Dict(es), k);
      NormLookup(Dict(ts), k);
      SameEntriesSameLookup(es, ts, k);
    }
    SortedUnique(Sort(f), g);
    DictText(ts);
    hide Sort, Lookup, NormFields, Dict, Commas, Lines, TextFields;
  }

  // ---- format by format ----

  lemma LessAt(a: string, b: string, n: nat)
    requires n < |a| && n < |b| && a[..n] == b[..n] && a[n] < b[n]
    ensures Less(a, b)
  {
    LessIff(a, b);
  }

  /** The entries of a format in the order they are printed. */
  function Ordered(m: Message): seq<Entry>
    requires !m.Envelope?
  {
    match m
    case Auth(c, p, t) =>
      [("challenge", Str(c)), ("morok_auth", Str("v1")), ("pubkey", Str(p)), ("timestamp", Num(t))]
    case Handshake(h, p, t) =>
      [("hostname", Str(h)), ("morok_handshake", Str("v1")), ("pubkey", Str(p)), ("timestamp", Num(t))]
    case Forward(e, p, t) =>
      [("envelope", Obj(e)), ("forwarded_at", Num(t)), ("morok_forward", Str("v1")), ("relay_pubkey", Str(p))]
    case DmDelete(e, t) =>
      [("envelope_id", Str(e)), ("kind", Str("dm_delete")), ("ts", Num(t))]
    case GroupDelete(g, e, t) =>
      [("envelope_id", Str(e)), ("group_id", Str(g)), ("kind", Str("group_delete")), ("ts", Num(t))]
    case GroupGone(g, t) =>
      [("group_id", Str(g)), ("kind", Str("group_gone")), ("ts", Num(t))]
    case DmsTrigger(e, to, t, c, d) =>
      [("dms_creator_pubkey", Str(c)), ("dms_id", Str(d)), ("envelope_id", Str(e)), ("morok_dms_trigger", Str("v1")),
       ("to", Str(to)), ("ts", Num(t))]
    case DmsCheckin(p, t) =>
      [("morok_dms_checkin", Str("v1")), ("pubkey", Str(p)), ("timestamp", Num(t))]
    case SensitiveAction(a, r, t, n, g) =>
      [("action", Str(a)), ("morok_sensitive_action", Str("v1")), ("nonce", Str(n)), ("relay", Str(r)),
       ("target", Str(g)), ("timestamp", Num(t))]
    case ReadReceipt(e, s, r, g, t) =>
      [("envelope_id", Str(e)), ("group_id", Nullable(g)), ("morok_read_receipt", Str("morok_read_receipt:v1")),
       ("reader_pubkey_hex", Str(r)), ("sender_pubkey_hex", Str(s)), ("signed_at", Num(t))]
    case PullSnapshot(g, c, p, t) =>
      [("caller_pubkey", Str(c)), ("group_id", Str(g)), ("morok_pull_snapshot", Str("v1")), ("relay_pubkey", Str(p)),
       ("timestamp", Num(t))]
  }

  lemma DmsKeys()
    ensures Less("dms_creator_pubkey", "dms_id")
  {
    LessAt("dms_creator_pubkey", "dms_id", 4);
  }

  lemma ToTs()
    ensures Less("to", "ts")
  {
    LessAt("to", "ts", 1);
  }

  lemma TargetTime()
    ensures Less("target", "timestamp")
  {
    LessAt("target", "timestamp", 1);
  }

  lemma SenderSigned()
    ensures Less("sender_pubkey_hex", "signed_at")
  {
    LessAt("sender_pubkey_hex", "signed_at", 1);
  }

  lemma OrderedAscends(m: Message)
    requires !m.Envelope?
    ensures Ascending(Ordered(m))
  {
    hide Less;
    match m {
      case Auth(_, _, _) =>
        LessAt("challenge", "morok_auth", 0); LessAt("morok_auth", "pubkey", 0); LessAt("pubkey", "timestamp", 0);
      case Handshake(_, _, _) =>
        LessAt("hostname", "morok_handshake", 0); LessAt("morok_handshake", "pubkey", 0);
        LessAt("pubkey", "timestamp", 0);
      case Forward(_, _, _) =>
        LessAt("envelope", "forwarded_at", 0); LessAt("forwarded_at", "morok_forward", 0);
        LessAt("morok_forward", "relay_pubkey", 0);
      case DmDelete(_, _) =>
        LessAt("envelope_id", "kind", 0); LessAt("kind", "ts", 0);
      case GroupDelete(_, _, _) =>
        LessAt("envelope_id", "group_id", 0); LessAt("group_id", "kind", 0); LessAt("kind", "ts", 0);
      case GroupGone(_, _) =>
        LessAt("group_id", "kind", 0); LessAt("kind", "ts", 0);
      case _ => LongerAscend(m);
    }
  }

  lemma LongerAscend(m: Message)
    requires m.DmsTrigger? || m.DmsCheckin? || m.SensitiveAction? || m.ReadReceipt? || m.PullSnapshot?
    ensures Ascending(Ordered(m))
  {
    hide Less;
    match m {
      case DmsTrigger(_, _, _, _, _) =>
        DmsKeys(); LessAt("dms_id", "envelope_id", 0);
        LessAt("envelope_id", "morok_dms_trigger", 0); LessAt("morok_dms_trigger", "to", 0); ToTs();
      case DmsCheckin(_, _) =>
        LessAt("morok_dms_checkin", "pubkey", 0); LessAt("pubkey", "timestamp", 0);
      case SensitiveAction(_, _, _, _, _) => ActionAscends(m);
      case ReadReceipt(_, _, _, _, _) => ReceiptAscends(m);
      case PullSnapshot(_, _, _, _) =>
        LessAt("caller_pubkey", "group_id", 0); LessAt("group_id", "morok_pull_snapshot", 0);
        LessAt("morok_pull_snapshot", "relay_pubkey", 0); LessAt("relay_pubkey", "timestamp", 0);
    }
  }

  lemma ActionAscends(m: Message)
    requires m.SensitiveAction?
    ensures Ascending(Ordered(m))
  {
    hide Less;
    LessAt("action", "morok_sensitive_action", 0); LessAt("morok_sensitive_action", "nonce", 0);
    LessAt("nonce", "relay", 0); LessAt("relay", "target", 0); TargetTime();
  }

  lemma ReceiptAscends(m: Message)
    requires m.ReadReceipt?
    ensures Ascending(Ordered(m))
  {
    hide Less;
    LessAt("envelope_id", "group_id", 0); LessAt("group_id", "morok_read_receipt", 0);
    LessAt("morok_read_receipt", "reader_pubkey_hex", 0); LessAt("reader_pubkey_hex", "sender_pubkey_hex", 0);
    SenderSigned();
  }

  lemma OrderedHasAll(m: Message, e: Entry)
    requires !m.Envelope?
    ensures e in Entries(m) <==> e in Ordered(m)
  {
  }

  lemma EachOnce(m: Message)
    requires !m.Envelope?
    ensures OneValueEach(Entries(m))
  {
    forall e, f | e in Entries(m) && f in Entries(m) && e.0 == f.0 ensures e == f {
      var i :| 0 <= i < |Entries(m)| && Entries(m)[i] == e;
      var j :| 0 <= j < |Entries(m)| && Entries(m)[j] == f;
      if i < j { EntriesDistinct(m, i, j); }
      if j < i { EntriesDistinct(m, j, i); }
    }
  }

  /** Main theorem: the exact text each tagged format is signed as. */
  lemma SignedAs(m: Message)
    requires !m.Envelope?
    ensures Bytes(m) == Printed(
              match m
              case Auth(c, p, t) =>
                [("challenge", Quote(c)), ("morok_auth", Quote("v1")), ("pubkey", Quote(p)), ("timestamp", Number(t))]
              case Handshake(h, p, t) =>
                [("hostname", Quote(h)), ("morok_handshake", Quote("v1")), ("pubkey", Quote(p)), ("timestamp", Number(t))]
              case Forward(e, p, t) =>
                [("envelope", Canonical(Obj(e))), ("forwarded_at", Number(t)), ("morok_forward", Quote("v1")),
                 ("relay_pubkey", Quote(p))]
              case DmDelete(e, t) =>
                [("envelope_id", Quote(e)), ("kind", Quote("dm_delete")), ("ts", Number(t))]
              case GroupDelete(g, e, t) =>
                [("envelope_id", Quote(e)), ("group_id", Quote(g)), ("kind", Quote("group_delete")), ("ts", Number(t))]
              case GroupGone(g, t) =>
                [("group_id", Quote(g)), ("kind", Quote("group_gone")), ("ts", Number(t))]
              case DmsTrigger(e, to, t, c, d) =>
                [("dms_creator_pubkey", Quote(c)), ("dms_id", Quote(d)), ("envelope_id", Quote(e)),
                 ("morok_dms_trigger", Quote("v1")), ("to", Quote(to)), ("ts", Number(t))]
              case DmsCheckin(p, t) =>
                [("morok_dms_checkin", Quote("v1")), ("pubkey", Quote(p)), ("timestamp", Number(t))]
              case SensitiveAction(a, r, t, n, g) =>
                [("action", Quote(a)), ("morok_sensitive_action", Quote("v1")), ("nonce", Quote(n)), ("relay", Quote(r)),
                 ("target", Quote(g)), ("timestamp", Number(t))]
              case ReadReceipt(e, s, r, g, t) =>
                [("envelope_id", Quote(e)), ("group_id", if g.Some? then Quote(g.value) else "null"),
                 ("morok_read_receipt", Quote("morok_read_receipt:v1")), ("reader_pubkey_hex", Quote(r)),
                 ("sender_pubkey_hex", Quote(s)), ("signed_at", Number(t))]
              case PullSnapshot(g, c, p, t) =>
                [("caller_pubkey", Quote(c)), ("group_id", Quote(g)), ("morok_pull_snapshot", Quote("v1")),
                 ("relay_pubkey", Quote(p)), ("timestamp", Number(t))])
  {
    OrderedAscends(m);
    EachOnce(m);
    forall e ensures e in Entries(m) <==> e in Ordered(m) { OrderedHasAll(m, e); }
    PrintedInOrder(Entries(m), Ordered(m));
    hide Ascending, OneValueEach, Entries, Dict, Printed;
    LinesOf(m);
  }

  lemma PrintedValues()
    ensures forall t :: Canonical(Str(t)) == Quote(t)
    ensures forall n :: Canonical(Num(n)) == Number(n)
    ensures Canonical(Null) == "null"
  {
    hide Quote, Number;
  }

  lemma LinesOf(m: Message)
    requires !m.Envelope?
    ensures Lines(Ordered(m)) ==
            match m
            case Auth(c, p, t) =>
              [("challenge", Quote(c)), ("morok_auth", Quote("v1")), ("pubkey", Quote(p)), ("timestamp", Number(t))]
            case Handshake(h, p, t) =>
              [("hostname", Quote(h)), ("morok_handshake", Quote("v1")), ("pubkey", Quote(p)), ("timestamp", Number(t))]
            case Forward(e, p, t) =>
              [("envelope", Canonical(Obj(e))), ("forwarded_at", Number(t)), ("morok_forward", Quote("v1")),
               ("relay_pubkey", Quote(p))]
            case DmDelete(e, t) =>
              [("envelope_id", Quote(e)), ("kind", Quote("dm_delete")), ("ts", Number(t))]
            case GroupDelete(g, e, t) =>
              [("envelope_id", Quote(e)), ("group_id", Quote(g)), ("kind", Quote("group_delete")), ("ts", Number(t))]
            case GroupGone(g, t) =>
              [("group_id", Quote(g)), ("kind", Quote("group_gone")), ("ts", Number(t))]
            case DmsTrigger(e, to, t, c, d) =>
              [("dms_creator_pubkey", Quote(c)), ("dms_id", Quote(d)), ("envelope_id", Quote(e)),
               ("morok_dms_trigger", Quote("v1")), ("to", Quote(to)), ("ts", Number(t))]
            case DmsCheckin(p, t) =>
              [("morok_dms_checkin", Quote("v1")), ("pubkey", Quote(p)), ("timestamp", Number(t))]
            case SensitiveAction(a, r, t, n, g) =>
              [("action", Quote(a)), ("morok_sensitive_action", Quote("v1")), ("nonce", Quote(n)), ("relay", Quote(r)),
               ("target", Quote(g)), ("timestamp", Number(t))]
            case ReadReceipt(e, s, r, g, t) =>
              [("envelope_id", Quote(e)), ("group_id", if g.Some? then Quote(g.value) else "null"),
               ("morok_read_receipt", Quote("morok_read_receipt:v1")), ("reader_pubkey_hex", Quote(r)),
               ("sender_pubkey_hex", Quote(s)), ("signed_at", Number(t))]
            case PullSnapshot(g, c, p, t) =>
              [("caller_pubkey", Quote(c)), ("group_id", Quote(g)), ("morok_pull_snapshot", Quote("v1")),
               ("relay_pubkey", Quote(p)), ("timestamp", Number(t))]
  {
    hide Quote, Number, Canonical;
    PrintedValues();
  }

  /** And an envelope's: the five signed fields, whatever else it carries and in whatever order. */
  lemma EnvelopeSignedAs(fs: Fields)
    requires forall k :: Signed(k) ==> Lookup(fs, k).Some?
    ensures Lookup(fs, "blob").Some? && Lookup(fs, "from").Some? && Lookup(fs, "to").Some? && Lookup(fs, "ts").Some?
            && Lookup(fs, "ttl").Some?
            && Bytes(Envelope(fs)) == Printed(
                 [("blob", Canonical(Lookup(fs, "blob").value)), ("from", Canonical(Lookup(fs, "from").value)),
                  ("to", Canonical(Lookup(fs, "to").value)), ("ts", Canonical(Lookup(fs, "ts").value)),
                  ("ttl", Canonical(Lookup(fs, "ttl").value))])
  {
    assert Signed("blob") && Signed("from") && Signed("to") && Signed("ts") && Signed("ttl");
    var (blob, from, to) := (Lookup(fs, "blob").value, Lookup(fs, "from").value, Lookup(fs, "to").value);
    var (ts, ttl) := (Lookup(fs, "ts").value, Lookup(fs, "ttl").value);
    FiveKept(fs, from, to, ts, ttl, blob);
    FiveAscend(from, to, ts, ttl, blob);
    FiveOnce(from, to, ts, ttl, blob);
    forall e ensures e in FiveSigned(from, to, ts, ttl, blob) <==> e in FiveSorted(from, to, ts, ttl, blob) {
      FiveSame(from, to, ts, ttl, blob, e);
    }
    FiveLines(from, to, ts, ttl, blob);
    hide Signed, Lookup, Canonical, Dict, Ascending, OneValueEach, SignedPart, FiveSigned, FiveSorted, Lines, Printed;
    PrintedInOrder(FiveSigned(from, to, ts, ttl, blob), FiveSorted(from, to, ts, ttl, blob));
  }

  function FiveSigned(from: Json, to: Json, ts: Json, ttl: Json, blob: Json): seq<Entry> {
    [("from", from), ("to", to), ("ts", ts), ("ttl", ttl), ("blob", blob)]
  }

  function FiveSorted(from: Json, to: Json, ts: Json, ttl: Json, blob: Json): seq<Entry> {
    [("blob", blob), ("from", from), ("to", to), ("ts", ts), ("ttl", ttl)]
  }

  lemma FiveKept(fs: Fields, from: Json, to: Json, ts: Json, ttl: Json, blob: Json)
    requires Lookup(fs, "from") == Some(from) && Lookup(fs, "to") == Some(to) && Lookup(fs, "ts") == Some(ts)
    requires Lookup(fs, "ttl") == Some(ttl) && Lookup(fs, "blob") == Some(blob)
    ensures SignedPart(fs) == Dict(FiveSigned(from, to, ts, ttl, blob))
  {
    var es := FiveSigned(from, to, ts, ttl, blob);
    DictNext(es);
    DictNext(es[1..]);
    DictNext(es[1..][1..]);
    DictNext(es[1..][1..][1..]);
    hide Lookup, Dict;
    assert es[1..] == [("to", to), ("ts", ts), ("ttl", ttl), ("blob", blob)];
    assert es[1..][1..] == [("ts", ts), ("ttl", ttl), ("blob", blob)];
    assert es[1..][1..][1..] == [("ttl", ttl), ("blob", blob)];
    assert es[1..][1..][1..][1..] == [("blob", blob)];
    DictNext([("blob", blob)]);
  }

  lemma DictNext(es: seq<Entry>)
    ensures es != [] ==> Dict(es) == Field(es[0].0, es[0].1, Dict(es[1..]))
    ensures Dict([]) == NoFields
  {
  }

  lemma FiveLines(from: Json, to: Json, ts: Json, ttl: Json, blob: Json)
    ensures Lines(FiveSorted(from, to, ts, ttl, blob)) ==
            [("blob", Canonical(blob)), ("from", Canonical(from)), ("to", Canonical(to)), ("ts", Canonical(ts)),
             ("ttl", Canonical(ttl))]
  {
    hide Canonical;
  }

  lemma FiveAscend(from: Json, to: Json, ts: Json, ttl: Json, blob: Json)
    ensures Ascending(FiveSorted(from, to, ts, ttl, blob))
  {
    hide Less;
    LessAt("blob", "from", 0);
    LessAt("from", "to", 0);
    ToTs();
    TsTtl();
  }

  lemma TsTtl()
    ensures Less("ts", "ttl")
  {
    LessAt("ts", "ttl", 1);
  }

  lemma FiveOnce(from: Json, to: Json, ts: Json, ttl: Json, blob: Json)
    ensures OneValueEach(FiveSigned(from, to, ts, ttl, blob))
  {
    var es := FiveSigned(from, to, ts, ttl, blob);
    forall i, j | 0 <= i < j < |es| ensures es[i].0 != es[j].0 {
      FiveDistinct(i, j);
    }
  }

  lemma FiveDistinct(i: nat, j: nat)
    requires i < j < 5
    ensures var names := ["from", "to", "ts", "ttl", "blob"]; names[i] != names[j]
  {
  }

  lemma FiveSame(from: Json, to: Json, ts: Json, ttl: Json, blob: Json, e: Entry)
    ensures e in FiveSigned(from, to, ts, ttl, blob) <==> e in FiveSorted(from, to, ts, ttl, blob)
  {
  }
}
