/** A parser that undoes the canonical printer; hence the printer is injective. */
module JsonParser {
  import opened Common
  import opened CanonicalJson

  /** One character of a string literal, escaped or plain. */
  function ReadChar(s: string): (r: Option<(char, string)>)
    ensures r.Some? ==> |r.value.1| < |s|
  {
    if s == [] || s[0] == '\"' || s[0] as int < 32 then None
    else if s[0] != '\\' then Some((s[0], s[1..]))
    else if |s| < 2 then None
    else if s[1] == '\"' then Some(('\"', s[2..]))
    else if s[1] == '\\' then Some(('\\', s[2..]))
    else if s[1] == 'n' then Some(('\n', s[2..]))
    else if s[1] == 'r' then Some(('\r', s[2..]))
    else if s[1] == 't' then Some(('\t', s[2..]))
    else if s[1] == 'b' then Some((8 as char, s[2..]))
    else if s[1] == 'f' then Some((12 as char, s[2..]))
    else if s[1] == 'u' && |s| >= 6 && s[2] == '0' && s[3] == '0' && HexValue(s[4]) < 2 && HexValue(s[5]) < 16 then
      Some(((HexValue(s[4]) * 16 + HexValue(s[5])) as char, s[6..]))
    else None
  }

  /** 16 for anything that is not a lower-case hexadecimal digit. */
  function HexValue(c: char): nat {
    if '0' <= c <= '9' then c as int - '0' as int
    else if 'a' <= c <= 'f' then c as int - 'a' as int + 10
    else 16
  }

  function ReadChars(s: string): (r: Option<(string, string)>)
    ensures r.Some? ==> |r.value.1| < |s|
    decreases |s|
  {
    if s == [] then None
    else if s[0] == '\"' then Some(("", s[1..]))
    else
      match ReadChar(s)
      case None => None
      case Some((c, r)) =>
        match ReadChars(r)
        case None => None
        case Some((t, r2)) => Some(([c] + t, r2))
  }

  predicate IsDigit(c: char) { '0' <= c <= '9' }

  function DigitRun(s: string): (n: nat)
    ensures n <= |s|
  {
    if s == [] || !IsDigit(s[0]) then 0 else 1 + DigitRun(s[1..])
  }

  function Value(ds: string): nat {
    if ds == [] then 0 else Value(ds[..|ds| - 1]) * 10 + if IsDigit(ds[|ds| - 1]) then ds[|ds| - 1] as int - '0' as int else 0
  }

  function ReadNat(s: string): (r: Option<(nat, string)>)
    ensures r.Some? ==> |r.value.1| < |s|
  {
    if DigitRun(s) == 0 then None else Some((Value(s[..DigitRun(s)]), s[DigitRun(s)..]))
  }

  function ReadWord(s: string, w: string, j: Json): (r: Option<(Json, string)>)
    requires w != []
    ensures r.Some? ==> |r.value.1| < |s|
  {
    if w <= s then Some((j, s[|w|..])) else None
  }

  function ReadValue(s: string): (r: Option<(Json, string)>)
    ensures r.Some? ==> |r.value.1| < |s|
    decreases |s|, 0
  {
    if s == [] then None
    else if s[0] == 'n' then ReadWord(s, "null", Null)
    else if s[0] == 't' then ReadWord(s, "true", Bool(true))
    else if s[0] == 'f' then ReadWord(s, "false", Bool(false))
    else if s[0] == '\"' then
      match ReadChars(s[1..])
      case None => None
      case Some((t, r)) => Some((Str(t), r))
    else if s[0] == '[' then
      if |s| > 1 && s[1] == ']' then Some((Arr(NoItems), s[2..]))
      else
        match ReadItems(s[1..])
        case None => None
        case Some((items, r)) => Some((Arr(items), r))
    else if s[0] == '{' then
      if |s| > 1 && s[1] == '}' then Some((Obj(NoFields), s[2..]))
      else
        match ReadFields(s[1..])
        case None => None
        case Some((fields, r)) => Some((Obj(fields), r))
    else if s[0] == '-' then
      match ReadNat(s[1..])
      case None => None
      case Some((n, r)) => Some((Num(0 - n as int), r))
    else
      match ReadNat(s)
      case None => None
      case Some((n, r)) => Some((Num(n), r))
  }

  /** Values separated by commas, and the closing bracket. */
  function ReadItems(s: string): (r: Option<(Items, string)>)
    ensures r.Some? ==> |r.value.1| < |s|
    decreases |s|, 1
  {
    match ReadValue(s)
    case None => None
    case Some((j, r)) =>
      if r == [] then None
      else if r[0] == ']' then Some((Item(j, NoItems), r[1..]))
      else if r[0] != ',' then None
      else
        match ReadItems(r[1..])
        case None => None
        case Some((items, r2)) => Some((Item(j, items), r2))
  }

  function ReadFields(s: string): (r: Option<(Fields, string)>)
    ensures r.Some? ==> |r.value.1| < |s|
    decreases |s|, 1
  {
    if s == [] || s[0] != '\"' then None
    else
      match ReadChars(s[1..])
      case None => None
      case Some((k, r)) =>
        if r == [] || r[0] != ':' then None
        else
          match ReadValue(r[1..])
          case None => None
          case Some((v, r2)) =>
            if r2 == [] then None
            else if r2[0] == '}' then Some((Field(k, v, NoFields), r2[1..]))
            else if r2[0] != ',' then None
            else
              match ReadFields(r2[1..])
              case None => None
              case Some((fields, r3)) => Some((Field(k, v, fields), r3))
  }

  /** The whole text is one value. */
  function Parse(s: string): Option<Json> {
    match ReadValue(s)
    case None => None
    case Some((j, r)) => if r == [] then Some(j) else None
  }

  // ---- strings ----

  lemma HexRead(d: nat)
    requires d < 16
    ensures HexValue(Hex(d)) == d
  {
  }

  lemma EscapeRead(c: char, rest: string)
    ensures ReadChar(Escape(c) + rest) == Some((c, rest)) && (Escape(c) + rest)[0] != '\"'
  {
    if c as int < 32 && c != '\n' && c != '\r' && c != '\t' && c as int != 8 && c as int != 12 {
      HexRead(c as int / 16);
      HexRead(c as int % 16);
      var e := "\\u00" + [Hex(c as int / 16), Hex(c as int % 16)];
      assert |e| == 6 && (e + rest)[6..] == rest;
      assert (e + rest)[4] == Hex(c as int / 16) && (e + rest)[5] == Hex(c as int % 16);
    } else {
      assert (Escape(c) + rest)[|Escape(c)|..] == rest;
    }
  }

  lemma {:induction false} CharsRead(t: string, rest: string)
    ensures ReadChars(EscapeAll(t) + ("\"" + rest)) == Some((t, rest))
  {
    if t == [] {
      assert EscapeAll(t) + ("\"" + rest) == "\"" + rest;
    } else {
      var more := EscapeAll(t[1..]) + ("\"" + rest);
      assert EscapeAll(t) + ("\"" + rest) == Escape(t[0]) + more;
      EscapeRead(t[0], more);
      CharsRead(t[1..], rest);
      assert [t[0]] + t[1..] == t;
    }
  }

  // ---- numbers ----

  predicate Stops(rest: string) { rest == [] || !IsDigit(rest[0]) }

  lemma {:induction false} RunOf(ds: string, rest: string)
    requires Stops(rest) && forall k :: 0 <= k < |ds| ==> IsDigit(ds[k])
    ensures DigitRun(ds + rest) == |ds|
  {
    if ds == [] {
      assert ds + rest == rest;
    } else {
      assert (ds + rest)[1..] == ds[1..] + rest;
      RunOf(ds[1..], rest);
    }
  }

  lemma DigitIsDigit(d: nat)
    requires d < 10
    ensures IsDigit(Digit(d)) && Digit(d) as int - '0' as int == d
  {
  }

  lemma {:induction false} DigitsRead(n: nat)
    ensures |Digits(n)| > 0 && Value(Digits(n)) == n && forall k :: 0 <= k < |Digits(n)| ==> IsDigit(Digits(n)[k])
  {
    DigitIsDigit(n % 10);
    if n >= 10 {
      DigitsRead(n / 10);
      assert Digits(n)[..|Digits(n)| - 1] == Digits(n / 10);
    } else {
      assert Digits(n)[..0] == [];
    }
  }

  lemma NatRead(n: nat, rest: string)
    requires Stops(rest)
    ensures ReadNat(Digits(n) + rest) == Some((n, rest)) && IsDigit((Digits(n) + rest)[0])
  {
    DigitsRead(n);
    RunOf(Digits(n), rest);
    assert (Digits(n) + rest)[..|Digits(n)|] == Digits(n) && (Digits(n) + rest)[|Digits(n)|..] == rest;
  }

  // ---- values ----

  lemma FirstChar(j: Json)
    ensures Text(j) != [] && Text(j)[0] != ']' && Text(j)[0] != '}'
  {
    if j.Num? {
      DigitsRead(if j.n < 0 then -j.n else j.n);
    }
  }

  lemma WordRead(w: string, j: Json, rest: string)
    requires w != []
    ensures ReadWord(w + rest, w, j) == Some((j, rest))
  {
    assert (w + rest)[|w|..] == rest;
  }

  // Which branch a value's first character selects.

  lemma OnDigit(s: string)
    requires s != [] && IsDigit(s[0]) && ReadNat(s).Some?
    ensures ReadValue(s) == Some((Num(ReadNat(s).value.0), ReadNat(s).value.1))
  {
    hide ReadNat, ReadItems, ReadFields, ReadChars, ReadWord;
  }

  lemma OnMinus(s: string)
    requires s != [] && s[0] == '-' && ReadNat(s[1..]).Some?
    ensures ReadValue(s) == Some((Num(0 - ReadNat(s[1..]).value.0), ReadNat(s[1..]).value.1))
  {
    hide ReadNat, ReadItems, ReadFields, ReadChars, ReadWord;
  }

  lemma OnQuote(s: string)
    requires s != [] && s[0] == '\"' && ReadChars(s[1..]).Some?
    ensures ReadValue(s) == Some((Str(ReadChars(s[1..]).value.0), ReadChars(s[1..]).value.1))
  {
    hide ReadNat, ReadItems, ReadFields, ReadChars, ReadWord;
  }

  lemma OnBracket(s: string)
    requires |s| > 1 && s[0] == '['
    ensures s[1] == ']' ==> ReadValue(s) == Some((Arr(NoItems), s[2..]))
    ensures s[1] != ']' && ReadItems(s[1..]).Some? ==>
              ReadValue(s) == Some((Arr(ReadItems(s[1..]).value.0), ReadItems(s[1..]).value.1))
  {
    hide ReadNat, ReadItems, ReadFields, ReadChars, ReadWord;
  }

  lemma OnBrace(s: string)
    requires |s| > 1 && s[0] == '{'
    ensures s[1] == '}' ==> ReadValue(s) == Some((Obj(NoFields), s[2..]))
    ensures s[1] != '}' && ReadFields(s[1..]).Some? ==>
              ReadValue(s) == Some((Obj(ReadFields(s[1..]).value.0), ReadFields(s[1..]).value.1))
  {
    hide ReadNat, ReadItems, ReadFields, ReadChars, ReadWord;
  }

  lemma NumberRead(n: int, rest: string)
    requires Stops(rest)
    ensures ReadValue(Number(n) + rest) == Some((Num(n), rest))
  {
    hide ReadValue, ReadNat, Digits;
    var s := Number(n) + rest;
    if n < 0 {
      NatRead(-n, rest);
      assert s[1..] == Digits(-n) + rest;
      OnMinus(s);
    } else {
      NatRead(n, rest);
      OnDigit(s);
    }
  }

  lemma QuoteRead(t: string, rest: string)
    ensures var s := Quote(t) + rest; s != [] && s[0] == '\"' && ReadChars(s[1..]) == Some((t, rest))
  {
    assert (Quote(t) + rest)[1..] == EscapeAll(t) + ("\"" + rest);
    CharsRead(t, rest);
  }

  lemma WordsRead(j: Json, rest: string)
    requires j.Null? || j.Bool?
    ensures ReadValue(Text(j) + rest) == Some((j, rest))
  {
    if j.Null? { WordRead("null", j, rest); } else { WordRead(if j.b then "true" else "false", j, rest); }
    hide ReadWord, ReadNat, ReadItems, ReadFields, ReadChars;
  }

  lemma {:induction false} ValueRead(j: Json, rest: string)
    requires j.Num? ==> Stops(rest)
    ensures ReadValue(Text(j) + rest) == Some((j, rest))
    decreases j, 0
  {
    hide ReadValue, ReadItems, ReadFields, ReadChars, Quote, Number, Stops;
    var s := Text(j) + rest;
    match j {
      case Null => WordsRead(j, rest);
      case Bool(b) => WordsRead(j, rest);
      case Num(n) => NumberRead(n, rest);
      case Str(t) => QuoteRead(t, rest); OnQuote(s);
      case Arr(items) =>
        assert s[1..] == TextItems(items) + ("]" + rest);
        if items.NoItems? {
          assert s[1] == ']' && s[2..] == rest;
        } else {
          FirstChar(items.head);
          assert s[1] == Text(items.head)[0];
          ItemsRead(items, rest);
        }
        OnBracket(s);
      case Obj(fields) =>
        assert s[1..] == TextFields(fields) + ("}" + rest);
        if fields.NoFields? {
          assert s[1] == '}' && s[2..] == rest;
        } else {
          QuoteRead(fields.key, "");
          assert s[1] == Quote(fields.key)[0];
          FieldsRead(fields, rest);
        }
        OnBrace(s);
    }
  }

  /** After a value: the closing bracket, or a comma and more. */
  lemma OnItem(s: string, j: Json, after: string)
    requires after != [] && ReadValue(s) == Some((j, after))
    ensures after[0] == ']' ==> ReadItems(s) == Some((Item(j, NoItems), after[1..]))
    ensures after[0] == ',' && ReadItems(after[1..]).Some? ==>
              ReadItems(s) == Some((Item(j, ReadItems(after[1..]).value.0), ReadItems(after[1..]).value.1))
  {
    hide ReadValue;
  }

  lemma {:induction false} ItemsRead(items: Items, rest: string)
    requires items.Item?
    ensures ReadItems(TextItems(items) + ("]" + rest)) == Some((items, rest))
    decreases items, 1
  {
    hide ReadValue, ReadItems, Text;
    var s := TextItems(items) + ("]" + rest);
    if items.tail.NoItems? {
      var after := "]" + rest;
      assert s == Text(items.head) + after;
      ValueRead(items.head, after);
      assert after[1..] == rest;
      OnItem(s, items.head, after);
    } else {
      var after := "," + (TextItems(items.tail) + ("]" + rest));
      assert s == Text(items.head) + after;
      ValueRead(items.head, after);
      assert after[1..] == TextItems(items.tail) + ("]" + rest);
      ItemsRead(items.tail, rest);
      OnItem(s, items.head, after);
    }
  }

  lemma OnField(s: string, k: string, r: string, v: Json, after: string)
    requires s != [] && s[0] == '\"' && ReadChars(s[1..]) == Some((k, r)) && r != [] && r[0] == ':'
    requires after != [] && ReadValue(r[1..]) == Some((v, after))
    ensures after[0] == '}' ==> ReadFields(s) == Some((Field(k, v, NoFields), after[1..]))
    ensures after[0] == ',' && ReadFields(after[1..]).Some? ==>
              ReadFields(s) == Some((Field(k, v, ReadFields(after[1..]).value.0), ReadFields(after[1..]).value.1))
  {
    hide ReadValue, ReadChars;
  }

  lemma {:induction false} FieldsRead(fs: Fields, rest: string)
    requires fs.Field?
    ensures ReadFields(TextFields(fs) + ("}" + rest)) == Some((fs, rest))
    decreases fs, 1
  {
    hide ReadValue, ReadFields, ReadChars, Text, Quote;
    var s := TextFields(fs) + ("}" + rest);
    if fs.rest.NoFields? {
      var after := "}" + rest;
      FieldText(fs, rest, after);
      EntryRead(fs.key, fs.value, after);
      ValueRead(fs.value, after);
      assert after[1..] == rest;
      OnField(s, fs.key, ":" + (Text(fs.value) + after), fs.value, after);
    } else {
      var after := "," + (TextFields(fs.rest) + ("}" + rest));
      FieldText(fs, rest, after);
      EntryRead(fs.key, fs.value, after);
      ValueRead(fs.value, after);
      assert after[1..] == TextFields(fs.rest) + ("}" + rest);
      FieldsRead(fs.rest, rest);
      OnField(s, fs.key, ":" + (Text(fs.value) + after), fs.value, after);
    }
  }

  lemma FieldText(fs: Fields, rest: string, after: string)
    requires fs.Field?
    requires after == if fs.rest.NoFields? then "}" + rest else "," + (TextFields(fs.rest) + ("}" + rest))
    ensures TextFields(fs) + ("}" + rest) == Quote(fs.key) + (":" + (Text(fs.value) + after))
  {
    hide Quote, Text;
  }

  /** The key and the colon. */
  lemma EntryRead(k: string, v: Json, after: string)
    ensures var s := Quote(k) + (":" + (Text(v) + after));
            && s != [] && s[0] == '\"' && ReadChars(s[1..]) == Some((k, ":" + (Text(v) + after)))
            && (":" + (Text(v) + after))[1..] == Text(v) + after
  {
    QuoteRead(k, ":" + (Text(v) + after));
  }

  /** Main theorem: parsing what was printed gives the value with its keys sorted. */
  lemma ParseUndoesCanonical(j: Json)
    ensures Parse(Canonical(j)) == Some(Norm(j))
  {
    ValueRead(Norm(j), "");
    assert Text(Norm(j)) + "" == Text(Norm(j));
  }

  /** Hence two values have the same bytes exactly when they are the same value. */
  lemma CanonicalInjectiveIff(a: Json, b: Json)
    ensures Canonical(a) == Canonical(b) <==> Norm(a) == Norm(b)
  {
    ParseUndoesCanonical(a);
    ParseUndoesCanonical(b);
  }

  /** For two objects: exactly when they agree key by key, however they were built. */
  lemma CanonicalObjectIff(f: Fields, g: Fields)
    ensures Canonical(Obj(f)) == Canonical(Obj(g)) <==> SameKeys(f, g)
  {
    CanonicalInjectiveIff(Obj(f), Obj(g));
    SameObjectIff(f, g);
  }
}
