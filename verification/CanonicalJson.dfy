/** The printer whose bytes every signature covers: keys sorted, no white space, the string
    escapes of section 7 of RFC 8259. Characters stand for their UTF-8 encoding. */
module CanonicalJson {
  import opened Common

  datatype Json = Null | Bool(b: bool) | Num(n: int) | Str(s: string) | Arr(items: Items) | Obj(fields: Fields)

  datatype Items = NoItems | Item(head: Json, tail: Items)

  /** A dictionary in insertion order; should a key repeat, its first entry counts. */
  datatype Fields = NoFields | Field(key: string, value: Json, rest: Fields)

  function Lookup(fs: Fields, k: string): Option<Json> {
    match fs
    case NoFields => None
    case Field(key, value, rest) => if key == k then Some(value) else Lookup(rest, k)
  }

  // ---- key order ----

  /** Strings compare by code points, as Python's sort does. */
  predicate Less(a: string, b: string)
    decreases |a|
  {
    b != [] && (a == [] || a[0] < b[0] || (a[0] == b[0] && Less(a[1..], b[1..])))
  }

  lemma {:induction false} LessTotal(a: string, b: string)
    ensures a == b || Less(a, b) || Less(b, a)
    ensures !(Less(a, b) && Less(b, a)) && (a == b ==> !Less(a, b))
    decreases |a|
  {
    if a != [] && b != [] && a[0] == b[0] {
      LessTotal(a[1..], b[1..]);
      assert a == [a[0]] + a[1..] && b == [b[0]] + b[1..];
    }
  }

  lemma {:induction false} LessTransitive(a: string, b: string, c: string)
    requires Less(a, b) && Less(b, c)
    ensures Less(a, c)
    decreases |a|
  {
    if a != [] && a[0] == b[0] && b[0] == c[0] {
      LessTransitive(a[1..], b[1..], c[1..]);
    }
  }

  // ---- the normal form ----

  function Insert(k: string, v: Json, fs: Fields): Fields {
    match fs
    case NoFields => Field(k, v, NoFields)
    case Field(key, value, rest) =>
      if Less(k, key) then Field(k, v, fs)
      else if k == key then Field(k, v, rest)
      else Field(key, value, Insert(k, v, rest))
  }

  function Sort(fs: Fields): Fields {
    match fs
    case NoFields => NoFields
    case Field(k, v, rest) => Insert(k, v, Sort(rest))
  }

  function Norm(j: Json): Json {
    match j
    case Arr(items) => Arr(NormItems(items))
    case Obj(fields) => Obj(Sort(NormFields(fields)))
    case _ => j
  }

  function NormItems(items: Items): Items {
    match items
    case NoItems => NoItems
    case Item(j, rest) => Item(Norm(j), NormItems(rest))
  }

  function NormFields(fs: Fields): Fields {
    match fs
    case NoFields => NoFields
    case Field(k, v, rest) => Field(k, Norm(v), NormFields(rest))
  }

  predicate Sorted(fs: Fields) {
    match fs
    case NoFields => true
    case Field(k, v, rest) => Sorted(rest) && (rest.Field? ==> Less(k, rest.key))
  }

  lemma {:induction false} InsertSorted(k: string, v: Json, fs: Fields)
    requires Sorted(fs)
    ensures Sorted(Insert(k, v, fs))
    ensures Insert(k, v, fs).Field? && (Insert(k, v, fs).key == k || (fs.Field? && Insert(k, v, fs).key == fs.key))
  {
    match fs {
      case NoFields =>
      case Field(key, value, rest) =>
        LessTotal(k, key);
        if !Less(k, key) && k != key { InsertSorted(k, v, rest); }
    }
  }

  lemma {:induction false} SortSorted(fs: Fields)
    ensures Sorted(Sort(fs))
  {
    match fs {
      case NoFields =>
      case Field(k, v, rest) => SortSorted(rest); InsertSorted(k, v, Sort(rest));
    }
  }

  lemma {:induction false} InsertLookup(k: string, v: Json, fs: Fields, x: string)
    requires Sorted(fs)
    ensures Lookup(Insert(k, v, fs), x) == if x == k then Some(v) else Lookup(fs, x)
  {
    match fs {
      case NoFields =>
      case Field(key, value, rest) =>
        LessTotal(k, key);
        if !Less(k, key) && k != key { InsertLookup(k, v, rest, x); }
    }
  }

  lemma {:induction false} SortLookup(fs: Fields, x: string)
    ensures Lookup(Sort(fs), x) == Lookup(fs, x)
  {
    match fs {
      case NoFields =>
      case Field(k, v, rest) => SortLookup(rest, x); SortSorted(rest); InsertLookup(k, v, Sort(rest), x);
    }
  }

  lemma {:induction false} NormLookup(fs: Fields, x: string)
    ensures Lookup(NormFields(fs), x) == match Lookup(fs, x) case None => None case Some(v) => Some(Norm(v))
  {
    match fs {
      case NoFields =>
      case Field(k, v, rest) => NormLookup(rest, x);
    }
  }

  /** In a sorted dictionary nothing is found before its first key. */
  lemma {:induction false} BeforeFirst(fs: Fields, x: string)
    requires Sorted(fs) && (fs.Field? ==> Less(x, fs.key))
    ensures Lookup(fs, x) == None
  {
    match fs {
      case NoFields =>
      case Field(k, v, rest) =>
        LessTotal(x, k);
        if rest.Field? { LessTransitive(x, k, rest.key); }
        BeforeFirst(rest, x);
    }
  }

  lemma {:induction false} SortedUnique(f: Fields, g: Fields)
    requires Sorted(f) && Sorted(g) && forall x :: Lookup(f, x) == Lookup(g, x)
    ensures f == g
  {
    assert f.Field? ==> Lookup(f, f.key) == Some(f.value) && Lookup(f, f.key) == Lookup(g, f.key);
    assert g.Field? ==> Lookup(g, g.key) == Some(g.value) && Lookup(f, g.key) == Lookup(g, g.key);
    if f.Field? && g.Field? {
      LessTotal(f.key, g.key);
      if Less(f.key, g.key) { BeforeFirst(g, f.key); }
      if Less(g.key, f.key) { BeforeFirst(f, g.key); }
      forall x ensures Lookup(f.rest, x) == Lookup(g.rest, x) {
        assert Lookup(f, x) == Lookup(g, x);
        if x == f.key { BeforeFirst(f.rest, x); BeforeFirst(g.rest, x); }
      }
      SortedUnique(f.rest, g.rest);
    }
  }

  predicate SameEntry(a: Option<Json>, b: Option<Json>) {
    match (a, b)
    case (Some(x), Some(y)) => Norm(x) == Norm(y)
    case (None, None) => true
    case _ => false
  }

  lemma SameKeyIff(f: Fields, g: Fields, k: string)
    ensures Lookup(Sort(NormFields(f)), k) == Lookup(Sort(NormFields(g)), k) <==> SameEntry(Lookup(f, k), Lookup(g, k))
  {
    SortLookup(NormFields(f), k);
    SortLookup(NormFields(g), k);
    NormLookup(f, k);
    NormLookup(g, k);
  }

  lemma SameKeysSort(f: Fields, g: Fields)
    requires forall k :: SameEntry(Lookup(f, k), Lookup(g, k))
    ensures Sort(NormFields(f)) == Sort(NormFields(g))
  {
    hide *;
    var (a, b) := (Sort(NormFields(f)), Sort(NormFields(g)));
    forall k ensures Lookup(a, k) == Lookup(b, k) {
      assert SameEntry(Lookup(f, k), Lookup(g, k));
      SameKeyIff(f, g, k);
    }
    SortSorted(NormFields(f));
    SortSorted(NormFields(g));
    SortedUnique(a, b);
  }

  ghost predicate SameKeys(f: Fields, g: Fields) { forall k :: SameEntry(Lookup(f, k), Lookup(g, k)) }

  lemma SortSameKeys(f: Fields, g: Fields)
    requires Sort(NormFields(f)) == Sort(NormFields(g))
    ensures SameKeys(f, g)
  {
    hide *;
    forall k ensures SameEntry(Lookup(f, k), Lookup(g, k)) { SameKeyIff(f, g, k); }
    SameKeysFrom(f, g);
  }

  lemma SameKeysFrom(f: Fields, g: Fields)
    requires forall k :: SameEntry(Lookup(f, k), Lookup(g, k))
    ensures SameKeys(f, g)
  {
    hide SameEntry, Lookup;
  }

  /** Two objects are the same exactly when they agree key by key, in whatever order the
      keys were inserted. */
  lemma SameObjectIff(f: Fields, g: Fields)
    ensures Norm(Obj(f)) == Norm(Obj(g)) <==> SameKeys(f, g)
  {
    hide SameEntry, Lookup, Sort, NormFields;
    if SameKeys(f, g) { SameKeysSort(f, g); }
    if Norm(Obj(f)) == Norm(Obj(g)) { SortSameKeys(f, g); }
  }

  // ---- printing ----

  const HEX: string := "0123456789abcdef"

  function Hex(d: nat): char
    requires d < 16
  {
    HEX[d]
  }

  function Escape(c: char): string {
    if c == '\"' then "\\\""
    else if c == '\\' then "\\\\"
    else if c == '\n' then "\\n"
    else if c == '\r' then "\\r"
    else if c == '\t' then "\\t"
    else if c as int == 8 then "\\b"
    else if c as int == 12 then "\\f"
    else if c as int < 32 then "\\u00" + [Hex(c as int / 16), Hex(c as int % 16)]
    else [c]
  }

  function EscapeAll(s: string): string { if s == [] then [] else Escape(s[0]) + EscapeAll(s[1..]) }

  function Digit(d: nat): char
    requires d < 10
  {
    HEX[d]
  }

  function Digits(n: nat): string { if n < 10 then [Digit(n)] else Digits(n / 10) + [Digit(n % 10)] }

  function Number(n: int): string { if n < 0 then "-" + Digits(-n) else Digits(n) }

  function Quote(s: string): string { "\"" + EscapeAll(s) + "\"" }

  function Text(j: Json): string {
    match j
    case Null => "null"
    case Bool(b) => if b then "true" else "false"
    case Num(n) => Number(n)
    case Str(s) => Quote(s)
    case Arr(items) => "[" + TextItems(items) + "]"
    case Obj(fields) => "{" + TextFields(fields) + "}"
  }

  function TextItems(items: Items): string {
    match items
    case NoItems => ""
    case Item(j, rest) => Text(j) + if rest.NoItems? then "" else "," + TextItems(rest)
  }

  function TextFields(fs: Fields): string {
    match fs
    case NoFields => ""
    case Field(k, v, rest) => Quote(k) + ":" + Text(v) + if rest.NoFields? then "" else "," + TextFields(rest)
  }

  function Canonical(j: Json): string { Text(Norm(j)) }
}
