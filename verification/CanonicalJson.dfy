/**
 The canonical JSON printer every signature is taken over, and a reader of what it prints.

 Printing then reading gives back the JSON data (objects as maps, numbers by value), so two values have the
 same canonical text exactly when they are the same data: member order and the way a number was written do
 not matter, and nothing else is lost.
 */
module CanonicalJson {
  import opened Wrappers
  import opened CanonicalNumbers
  import opened CanonicalStrings

  datatype Entry<T> = Entry(key: string, value: T)

  datatype Value =
    | Null
    | Bool(b: bool)
    | Num(n: Number)
    | Str(s: string)
    | Array(items: seq<Value>)
    | Object(members: seq<Entry<Value>>)

  ghost predicate DistinctKeys<T>(xs: seq<Entry<T>>) { forall i, j | 0 <= i < j < |xs| :: xs[i].key != xs[j].key }

  /** What a JSON value can be: 64-bit integers or doubles, and each key of an object once. */
  ghost predicate Valid(v: Value) {
    match v
    case Num(n) => n.Valid()
    case Array(items) => forall i | 0 <= i < |items| :: Valid(items[i])
    case Object(members) => DistinctKeys(members) && forall i | 0 <= i < |members| :: Valid(members[i].value)
    case _ => true
  }

  /** No number in it is infinite or not a number. */
  ghost predicate Finite(v: Value) {
    match v
    case Num(n) => n != DoubleNumber(NotFinite)
    case Array(items) => forall i | 0 <= i < |items| :: Finite(items[i])
    case Object(members) => forall i | 0 <= i < |members| :: Finite(members[i].value)
    case _ => true
  }

  // -------------------------------------------------------------------------
  // Sorting members

  function InsertEntry<T>(e: Entry<T>, xs: seq<Entry<T>>): seq<Entry<T>> {
    if xs == [] then [e]
    else if Before(e.key, xs[0].key) then [e] + xs
    else [xs[0]] + InsertEntry(e, xs[1..])
  }

  function SortEntries<T>(xs: seq<Entry<T>>): seq<Entry<T>> {
    if xs == [] then [] else InsertEntry(xs[0], SortEntries(xs[1..]))
  }

  ghost predicate StrictlySorted<T>(xs: seq<Entry<T>>) {
    forall i, j | 0 <= i < j < |xs| :: Before(xs[i].key, xs[j].key)
  }

  lemma {:induction false} InsertKeeps<T>(e: Entry<T>, xs: seq<Entry<T>>, x: Entry<T>)
    ensures x in InsertEntry(e, xs) <==> x == e || x in xs
    ensures |InsertEntry(e, xs)| == |xs| + 1
  {
    hide Before;
    if xs != [] && !Before(e.key, xs[0].key) {
      InsertKeeps(e, xs[1..], x);
      assert x in xs <==> x == xs[0] || x in xs[1..];
    }
  }

  lemma FirstBeforeRest<T>(xs: seq<Entry<T>>)
    requires StrictlySorted(xs) && xs != []
    ensures StrictlySorted(xs[1..]) && forall x | x in xs[1..] :: Before(xs[0].key, x.key)
  {
    hide Before;
    forall x | x in xs[1..] ensures Before(xs[0].key, x.key) {
      var i :| 0 <= i < |xs[1..]| && xs[1..][i] == x;
      assert xs[i + 1] == x;
    }
  }

  lemma PrependSorted<T>(e: Entry<T>, xs: seq<Entry<T>>)
    requires StrictlySorted(xs) && forall x | x in xs :: Before(e.key, x.key)
    ensures StrictlySorted([e] + xs)
  {
    hide Before;
    var all := [e] + xs;
    forall i, j | 0 <= i < j < |all| ensures Before(all[i].key, all[j].key) {
      assert all[j] == xs[j - 1];
      if i > 0 { assert all[i] == xs[i - 1]; }
    }
  }

  lemma {:induction false} InsertSorted<T>(e: Entry<T>, xs: seq<Entry<T>>)
    requires StrictlySorted(xs) && forall x | x in xs :: x.key != e.key
    ensures StrictlySorted(InsertEntry(e, xs))
  {
    hide Before;
    if xs != [] {
      var rest := xs[1..];
      BeforeIsTotal(e.key, xs[0].key);
      FirstBeforeRest(xs);
      assert forall x | x in xs :: x == xs[0] || x in rest;
      assert xs[0] in xs;
      if Before(e.key, xs[0].key) {
        forall x | x in xs ensures Before(e.key, x.key) {
          if x != xs[0] {
            assert x in rest;
            BeforeTransitive(e.key, xs[0].key, x.key);
          }
        }
        PrependSorted(e, xs);
      } else {
        assert forall x | x in rest :: x in xs;
        InsertSorted(e, rest);
        forall x | x in InsertEntry(e, rest) ensures Before(xs[0].key, x.key) { InsertKeeps(e, rest, x); }
        PrependSorted(xs[0], InsertEntry(e, rest));
      }
    } else {
      PrependSorted(e, xs);
    }
  }

  lemma DistinctFirst<T>(xs: seq<Entry<T>>)
    requires DistinctKeys(xs) && xs != []
    ensures DistinctKeys(xs[1..]) && forall x | x in xs[1..] :: x.key != xs[0].key
  {
    forall x | x in xs[1..] ensures x.key != xs[0].key {
      var i :| 0 <= i < |xs[1..]| && xs[1..][i] == x;
      assert xs[i + 1] == x;
    }
  }

  /** Sorting keeps the entries. */
  lemma {:induction false} SortKeeps<T>(xs: seq<Entry<T>>, x: Entry<T>)
    ensures x in SortEntries(xs) <==> x in xs
    ensures |SortEntries(xs)| == |xs|
  {
    hide InsertEntry;
    if xs != [] {
      SortKeeps(xs[1..], x);
      InsertKeeps(xs[0], SortEntries(xs[1..]), x);
      assert x in xs <==> x == xs[0] || x in xs[1..];
    }
  }

  /** Sorting puts distinct keys in strictly increasing order. */
  lemma {:induction false} SortIsSorted<T>(xs: seq<Entry<T>>)
    requires DistinctKeys(xs)
    ensures StrictlySorted(SortEntries(xs))
  {
    if xs != [] {
      hide InsertEntry, DistinctKeys, StrictlySorted;
      DistinctFirst(xs);
      SortIsSorted(xs[1..]);
      forall x | x in SortEntries(xs[1..]) ensures x.key != xs[0].key { SortKeeps(xs[1..], x); }
      InsertSorted(xs[0], SortEntries(xs[1..]));
    }
  }

  /** A strictly sorted list is determined by its entries. */
  lemma {:induction false} SortedUnique<T>(xs: seq<Entry<T>>, ys: seq<Entry<T>>)
    requires StrictlySorted(xs) && StrictlySorted(ys) && |xs| == |ys| && forall x :: x in xs <==> x in ys
    ensures xs == ys
  {
    hide Before;
    if xs != [] {
      assert xs[0] in xs && ys[0] in ys;
      FirstIsLeast(xs, ys[0]);
      FirstIsLeast(ys, xs[0]);
      BeforeIsTotal(xs[0].key, ys[0].key);
      TailEntries(xs);
      TailEntries(ys);
      SortedUnique(xs[1..], ys[1..]);
      assert xs == [xs[0]] + xs[1..] && ys == [ys[0]] + ys[1..];
    }
  }

  lemma FirstIsLeast<T>(xs: seq<Entry<T>>, x: Entry<T>)
    requires StrictlySorted(xs) && x in xs
    ensures x == xs[0] || Before(xs[0].key, x.key)
  {
  }

  lemma TailEntries<T>(xs: seq<Entry<T>>)
    requires StrictlySorted(xs) && xs != []
    ensures StrictlySorted(xs[1..]) && forall x :: x in xs[1..] <==> x in xs && x != xs[0]
  {
    hide Before;
    BeforeIsTotal(xs[0].key, xs[0].key);
    FirstBeforeRest(xs);
    assert forall x :: x in xs <==> x == xs[0] || x in xs[1..];
  }

  // -------------------------------------------------------------------------
  // Printing

  function JoinComma(texts: seq<string>): string {
    if texts == [] then []
    else if |texts| == 1 then texts[0]
    else texts[0] + "," + JoinComma(texts[1..])
  }

  function EntryText(e: Entry<string>): string { "\"" + Escape(e.key) + "\":" + e.value }

  function EntryTexts(es: seq<Entry<string>>): (r: seq<string>)
    ensures |r| == |es|
  {
    seq(|es|, i requires 0 <= i < |es| => EntryText(es[i]))
  }

  /** The canonical text. */
  ghost function Text(v: Value): string
    requires Valid(v) && Finite(v)
    decreases v, 1
  {
    match v
    case Null => "null"
    case Bool(b) => if b then "true" else "false"
    case Num(n) => NumberTextReads(n); NumberText(n).value
    case Str(s) => "\"" + Escape(s) + "\""
    case Array(items) => "[" + JoinComma(ItemTexts(items)) + "]"
    case Object(members) => "{" + JoinComma(EntryTexts(SortEntries(MemberTexts(members)))) + "}"
  }

  ghost function ItemTexts(items: seq<Value>): (r: seq<string>)
    requires forall i | 0 <= i < |items| :: Valid(items[i]) && Finite(items[i])
    ensures |r| == |items| && forall i | 0 <= i < |r| :: r[i] == Text(items[i])
    decreases items, 0
  {
    if items == [] then [] else [Text(items[0])] + ItemTexts(items[1..])
  }

  ghost function MemberTexts(members: seq<Entry<Value>>): (r: seq<Entry<string>>)
    requires forall i | 0 <= i < |members| :: Valid(members[i].value) && Finite(members[i].value)
    ensures |r| == |members| && forall i | 0 <= i < |r| :: r[i] == Entry(members[i].key, Text(members[i].value))
    decreases members, 0
  {
    if members == [] then [] else [Entry(members[0].key, Text(members[0].value))] + MemberTexts(members[1..])
  }

  // -------------------------------------------------------------------------
  // JSON data

  /** What a value says: objects are maps, numbers are their values. */
  datatype Data =
    | DNull
    | DBool(b: bool)
    | DNumber(value: Signed)
    | DString(s: string)
    | DArray(items: seq<Data>)
    | DObject(members: map<string, Data>)

  ghost function DataOf(v: Value): Data
    requires Valid(v) && Finite(v)
    decreases v, 1
  {
    match v
    case Null => DNull
    case Bool(b) => DBool(b)
    case Num(n) => DNumber(ValueOf(n))
    case Str(s) => DString(s)
    case Array(items) => DArray(ItemData(items))
    case Object(members) => DObject(MemberData(members))
  }

  ghost function ItemData(items: seq<Value>): (r: seq<Data>)
    requires forall i | 0 <= i < |items| :: Valid(items[i]) && Finite(items[i])
    ensures |r| == |items| && forall i | 0 <= i < |r| :: r[i] == DataOf(items[i])
    decreases items, 0
  {
    if items == [] then [] else [DataOf(items[0])] + ItemData(items[1..])
  }

  ghost function MemberData(members: seq<Entry<Value>>): (r: map<string, Data>)
    requires forall i | 0 <= i < |members| :: Valid(members[i].value) && Finite(members[i].value)
    decreases members, 0
  {
    if members == [] then map[] else MemberData(members[1..])[members[0].key := DataOf(members[0].value)]
  }

  // -------------------------------------------------------------------------
  // Reading

  /** The longest prefix of numeral characters. */
  function NumeralToken(t: string): (r: string)
    ensures r <= t
  {
    if t == [] || !IsNumeralChar(t[0]) then [] else [t[0]] + NumeralToken(t[1..])
  }

  /** One value off the front of a text, and the rest. */
  function Parse(t: string): (r: Option<(Data, string)>)
    ensures r.Some? ==> |r.value.1| < |t|
    decreases |t|, 0
  {
    if t == [] then None
    else if t[0] == '"' then
      match Unescape(t[1..])
      case None => None
      case Some((s, rest)) => Some((DString(s), rest))
    else if t[0] == '[' then
      if |t| > 1 && t[1] == ']' then Some((DArray([]), t[2..]))
      else match ParseItems(t[1..])
        case None => None
        case Some((items, rest)) => Some((DArray(items), rest))
    else if t[0] == '{' then
      if |t| > 1 && t[1] == '}' then Some((DObject(map[]), t[2..]))
      else match ParseMembers(t[1..])
        case None => None
        case Some((members, rest)) => Some((DObject(members), rest))
    else if IsDigit(t[0]) || t[0] == '-' then
      var token := NumeralToken(t);
      match ReadNumeral(token)
      case None => None
      case Some(value) => Some((DNumber(value), t[|token|..]))
    else if "null" <= t then Some((DNull, t[4..]))
    else if "true" <= t then Some((DBool(true), t[4..]))
    else if "false" <= t then Some((DBool(false), t[5..]))
    else None
  }

  /** Items separated by commas, up to the closing bracket. */
  function ParseItems(t: string): (r: Option<(seq<Data>, string)>)
    ensures r.Some? ==> |r.value.1| < |t|
    decreases |t|, 1
  {
    match Parse(t)
    case None => None
    case Some((item, rest)) =>
      if rest == [] then None
      else if rest[0] == ']' then Some(([item], rest[1..]))
      else if rest[0] != ',' then None
      else match ParseItems(rest[1..])
        case None => None
        case Some((items, rest')) => Some(([item] + items, rest'))
  }

  /** Members separated by commas, up to the closing brace; a repeated key is refused. */
  function ParseMembers(t: string): (r: Option<(map<string, Data>, string)>)
    ensures r.Some? ==> |r.value.1| < |t|
    decreases |t|, 1
  {
    if t == [] || t[0] != '"' then None
    else match Unescape(t[1..])
      case None => None
      case Some((key, afterKey)) =>
        if afterKey == [] || afterKey[0] != ':' then None
        else match Parse(afterKey[1..])
          case None => None
          case Some((data, rest)) =>
            if rest == [] then None
            else if rest[0] == '}' then Some((map[key := data], rest[1..]))
            else if rest[0] != ',' then None
            else match ParseMembers(rest[1..])
              case None => None
              case Some((members, rest')) => if key in members then None else Some((members[key := data], rest'))
  }

  // -------------------------------------------------------------------------
  // Reading undoes printing

  predicate EndsNumeral(rest: string) { rest == [] || !IsNumeralChar(rest[0]) }

  /** `text`, followed by anything that does not continue a numeral, reads as `data` and leaves the rest. */
  ghost predicate Reads(text: string, data: Data) {
    forall rest: string | EndsNumeral(rest) :: Parse(text + rest) == Some((data, rest))
  }

  lemma ReadsStart(text: string, data: Data)
    requires Reads(text, data)
    ensures text != [] && text[0] != ']' && text[0] != '}'
  {
    assert Parse(text + []) == Some((data, []));
    assert text + [] == text;
  }

  lemma {:induction false} TokenIs(t: string, rest: string)
    requires AllNumeral(t) && EndsNumeral(rest)
    ensures NumeralToken(t + rest) == t
  {
    if t == [] {
      assert t + rest == rest;
    } else {
      assert (t + rest)[1..] == t[1..] + rest;
      TokenIs(t[1..], rest);
    }
  }

  lemma NumberReads(n: Number)
    requires n.Valid() && n != DoubleNumber(NotFinite)
    ensures NumberText(n).Ok? && Reads(NumberText(n).value, DNumber(ValueOf(n)))
  {
    hide NumberText, ReadNumeral, ValueOf;
    NumberTextReads(n);
    NumeralChars(n);
    var t := NumberText(n).value;
    forall rest: string | EndsNumeral(rest) ensures Parse(t + rest) == Some((DNumber(ValueOf(n)), rest)) {
      TokenIs(t, rest);
      assert (t + rest)[|t|..] == rest;
    }
  }

  lemma StringReads(s: string)
    ensures Reads("\"" + Escape(s) + "\"", DString(s))
  {
    hide Escape, Unescape;
    var t := "\"" + Escape(s) + "\"";
    forall rest: string | EndsNumeral(rest) ensures Parse(t + rest) == Some((DString(s), rest)) {
      assert (t + rest)[1..] == Escape(s) + "\"" + rest;
      EscapeReads(s, rest);
    }
  }

  lemma KeywordsRead()
    ensures Reads("null", DNull) && Reads("true", DBool(true)) && Reads("false", DBool(false))
  {
    forall rest: string | EndsNumeral(rest)
      ensures Parse("null" + rest) == Some((DNull, rest))
      ensures Parse("true" + rest) == Some((DBool(true), rest))
      ensures Parse("false" + rest) == Some((DBool(false), rest))
    {
      assert ("null" + rest)[4..] == rest && ("true" + rest)[4..] == rest && ("false" + rest)[5..] == rest;
    }
  }

  lemma {:induction false} ItemsRead(texts: seq<string>, data: seq<Data>, rest: string)
    requires texts != [] && |texts| == |data| && forall i | 0 <= i < |texts| :: Reads(texts[i], data[i])
    ensures ParseItems(JoinComma(texts) + "]" + rest) == Some((data, rest))
  {
    hide Parse;
    assert Reads(texts[0], data[0]);
    if |texts| == 1 {
      assert JoinComma(texts) + "]" + rest == texts[0] + ("]" + rest);
      assert ("]" + rest)[1..] == rest;
      assert data == [data[0]];
    } else {
      var more := JoinComma(texts[1..]) + "]" + rest;
      ItemsRead(texts[1..], data[1..], rest);
      assert JoinComma(texts) + "]" + rest == texts[0] + ("," + more);
      assert ("," + more)[1..] == more;
      assert data == [data[0]] + data[1..];
    }
  }

  lemma ArrayReads(texts: seq<string>, data: seq<Data>)
    requires |texts| == |data| && forall i | 0 <= i < |texts| :: Reads(texts[i], data[i])
    ensures Reads("[" + JoinComma(texts) + "]", DArray(data))
  {
    hide Parse, ParseItems, Reads, JoinComma;
    var body := JoinComma(texts);
    var t := "[" + body + "]";
    forall rest: string | EndsNumeral(rest) ensures Parse(t + rest) == Some((DArray(data), rest)) {
      if texts == [] {
        JoinNothing();
        assert t + rest == "[]" + rest;
        EmptyArrayReads(rest);
      } else {
        ItemsRead(texts, data, rest);
        ReadsStart(texts[0], data[0]);
        JoinStartsAs(texts);
        assert t + rest == "[" + (body + "]" + rest);
        ItemsAreArray(body + "]" + rest, data, rest);
      }
    }
    assert Reads(t, DArray(data)) by { ReadsIntro(t, DArray(data)); }
  }

  lemma EmptyArrayReads(rest: string)
    ensures Parse("[]" + rest) == Some((DArray([]), rest))
  {
    assert ("[]" + rest)[2..] == rest;
  }

  lemma JoinStartsAs(texts: seq<string>)
    requires texts != [] && texts[0] != []
    ensures JoinComma(texts) != [] && JoinComma(texts)[0] == texts[0][0]
  {
  }

  lemma ItemsAreArray(body: string, data: seq<Data>, rest: string)
    requires body != [] && body[0] != ']' && ParseItems(body) == Some((data, rest))
    ensures Parse("[" + body) == Some((DArray(data), rest))
  {
    hide ParseMembers, ParseItems;
    assert ("[" + body)[1..] == body;
  }

  lemma ReadsIntro(text: string, data: Data)
    requires forall rest: string | EndsNumeral(rest) :: Parse(text + rest) == Some((data, rest))
    ensures Reads(text, data)
  {
  }

  /** The part of `m` under the keys of `es`. */
  ghost function Under(es: seq<Entry<string>>, m: map<string, Data>): (r: map<string, Data>)
    requires forall i | 0 <= i < |es| :: es[i].key in m
    ensures forall k :: k in r <==> exists i | 0 <= i < |es| :: es[i].key == k
    ensures forall k | k in r :: k in m && r[k] == m[k]
  {
    if es == [] then map[] else Under(es[1..], m)[es[0].key := m[es[0].key]]
  }

  lemma KeyReads(key: string, rest: string)
    ensures var t := "\"" + Escape(key) + "\":" + rest; t[0] == '"' && Unescape(t[1..]) == Some((key, ":" + rest))
  {
    hide Escape, Unescape;
    var t := "\"" + Escape(key) + "\":" + rest;
    assert t[1..] == Escape(key) + "\"" + (":" + rest);
    EscapeReads(key, ":" + rest);
  }

  /** Reading one member and what follows it. */
  lemma EntryReads(e: Entry<string>, data: Data, rest: string)
    requires Reads(e.value, data) && rest != [] && (rest[0] == '}' || rest[0] == ',')
    ensures ParseMembers(EntryText(e) + rest)
            == if rest[0] == '}' then Some((map[e.key := data], rest[1..]))
               else match ParseMembers(rest[1..])
                    case None => None
                    case Some((members, rest')) =>
                      if e.key in members then None else Some((members[e.key := data], rest'))
  {
    hide Parse, Escape, Unescape;
    var t := EntryText(e) + rest;
    assert t == "\"" + Escape(e.key) + "\":" + (e.value + rest);
    KeyReads(e.key, e.value + rest);
    assert (":" + (e.value + rest))[1..] == e.value + rest;
    assert Parse(e.value + rest) == Some((data, rest));
  }

  lemma {:induction false} MembersRead(es: seq<Entry<string>>, m: map<string, Data>, rest: string)
    requires es != [] && DistinctKeys(es)
    requires forall i | 0 <= i < |es| :: es[i].key in m && Reads(es[i].value, m[es[i].key])
    ensures ParseMembers(JoinComma(EntryTexts(es)) + "}" + rest) == Some((Under(es, m), rest))
  {
    hide ParseMembers, EntryText, Reads;
    var texts := EntryTexts(es);
    if |es| == 1 {
      assert JoinComma(texts) + "}" + rest == EntryText(es[0]) + ("}" + rest);
      EntryReads(es[0], m[es[0].key], "}" + rest);
      assert ("}" + rest)[1..] == rest;
      assert es[1..] == [];
      assert Under(es, m) == map[es[0].key := m[es[0].key]];
    } else {
      var more := JoinComma(EntryTexts(es[1..])) + "}" + rest;
      assert texts[1..] == EntryTexts(es[1..]);
      assert JoinComma(texts) + "}" + rest == EntryText(es[0]) + ("," + more);
      EntryReads(es[0], m[es[0].key], "," + more);
      assert ("," + more)[1..] == more;
      DistinctFirst(es);
      MembersRead(es[1..], m, rest);
      assert es[0].key !in Under(es[1..], m);
    }
  }

  lemma ObjectReads(es: seq<Entry<string>>, m: map<string, Data>)
    requires DistinctKeys(es)
    requires forall i | 0 <= i < |es| :: es[i].key in m && Reads(es[i].value, m[es[i].key])
    requires forall k | k in m :: exists i | 0 <= i < |es| :: es[i].key == k
    ensures Reads("{" + JoinComma(EntryTexts(es)) + "}", DObject(m))
  {
    hide Parse, Reads, ParseMembers, EntryText, JoinComma;
    var t := "{" + JoinComma(EntryTexts(es)) + "}";
    assert Under(es, m) == m;
    forall rest: string | EndsNumeral(rest) ensures Parse(t + rest) == Some((DObject(m), rest)) {
      ObjectReadsBefore(es, m, rest);
    }
    assert Reads(t, DObject(m)) by { ReadsIntro(t, DObject(m)); }
  }

  lemma ObjectReadsBefore(es: seq<Entry<string>>, m: map<string, Data>, rest: string)
    requires forall i | 0 <= i < |es| :: es[i].key in m && Reads(es[i].value, m[es[i].key])
    requires DistinctKeys(es) && Under(es, m) == m && EndsNumeral(rest)
    ensures Parse("{" + JoinComma(EntryTexts(es)) + "}" + rest) == Some((DObject(m), rest))
  {
    hide Parse, Reads, ParseMembers, EntryText, JoinComma;
    var body := JoinComma(EntryTexts(es));
    var all := "{" + body + "}" + rest;
    if es == [] {
      JoinNothing();
      assert m == map[];
      assert all == "{}" + rest;
      EmptyObjectReads(rest);
    } else {
      MembersRead(es, m, rest);
      JoinStarts(es);
      assert all == "{" + (body + "}" + rest);
      MembersAreObject(body + "}" + rest, m, rest);
    }
  }

  lemma EmptyObjectReads(rest: string)
    ensures Parse("{}" + rest) == Some((DObject(map[]), rest))
  {
    assert ("{}" + rest)[2..] == rest;
  }

  lemma JoinStarts(es: seq<Entry<string>>)
    requires es != []
    ensures JoinComma(EntryTexts(es)) != [] && JoinComma(EntryTexts(es))[0] == '"'
  {
    hide Escape;
    assert EntryText(es[0])[0] == '"';
  }

  lemma MembersAreObject(body: string, m: map<string, Data>, rest: string)
    requires body != [] && body[0] == '"' && ParseMembers(body) == Some((m, rest))
    ensures Parse("{" + body) == Some((DObject(m), rest))
  {
    hide ParseMembers, ParseItems;
    assert ("{" + body)[1..] == body;
  }

  /** The data of an object, member by member. */
  lemma {:induction false} MemberDataAt(members: seq<Entry<Value>>)
    requires DistinctKeys(members)
    requires forall i | 0 <= i < |members| :: Valid(members[i].value) && Finite(members[i].value)
    ensures var m := MemberData(members);
            && (forall i | 0 <= i < |members| :: members[i].key in m && m[members[i].key] == DataOf(members[i].value))
            && (forall k | k in m :: exists i | 0 <= i < |members| :: members[i].key == k)
            && |m| == |members|
  {
    hide Valid, Finite, DataOf;
    if members != [] {
      MemberDataAt(members[1..]);
      var m, rest := MemberData(members), MemberData(members[1..]);
      assert members[0].key !in rest;
      forall k | k in m ensures exists i | 0 <= i < |members| :: members[i].key == k {
        if k != members[0].key {
          var j :| 0 <= j < |members[1..]| && members[1..][j].key == k;
          assert members[j + 1].key == k;
        }
      }
      forall i | 0 <= i < |members| ensures members[i].key in m && m[members[i].key] == DataOf(members[i].value) {
        if i > 0 { assert members[i] == members[1..][i - 1]; }
      }
    }
  }

  /** The printed entries of an object, sorted: every member once, with its text. */
  lemma SortedTexts(members: seq<Entry<Value>>)
    requires DistinctKeys(members)
    requires forall i | 0 <= i < |members| :: Valid(members[i].value) && Finite(members[i].value)
    ensures var es := SortEntries(MemberTexts(members));
            && StrictlySorted(es) && DistinctKeys(es) && |es| == |members|
            && (forall e | e in es ::
                  exists i | 0 <= i < |members| :: e == Entry(members[i].key, Text(members[i].value)))
            && (forall i | 0 <= i < |members| :: Entry(members[i].key, Text(members[i].value)) in es)
  {
    hide Valid, Finite, Text, SortEntries, Before;
    var ts := MemberTexts(members);
    var es := SortEntries(ts);
    SortIsSorted(ts);
    forall e | e in es ensures exists i | 0 <= i < |members| :: e == Entry(members[i].key, Text(members[i].value)) {
      SortKeeps(ts, e);
      var i :| 0 <= i < |ts| && ts[i] == e;
    }
    forall i | 0 <= i < |members| ensures Entry(members[i].key, Text(members[i].value)) in es {
      assert ts[i] in ts;
      SortKeeps(ts, ts[i]);
    }
    SortKeeps(ts, Entry("", ""));
    forall i, j | 0 <= i < j < |es| ensures es[i].key != es[j].key { BeforeIsTotal(es[i].key, es[j].key); }
  }

  /** Printing then reading: any printed value, followed by anything that does not continue a numeral, reads
      as the data it was printed from. */
  lemma {:induction false} TextReads(v: Value)
    requires Valid(v) && Finite(v)
    ensures Reads(Text(v), DataOf(v))
    decreases v
  {
    hide Reads;
    match v
    case Null => KeywordsRead();
    case Bool(b) => KeywordsRead();
    case Num(n) => NumberReads(n);
    case Str(s) => StringReads(s);
    case Array(items) =>
      forall i | 0 <= i < |items| ensures Reads(ItemTexts(items)[i], ItemData(items)[i]) { TextReads(items[i]); }
      ArrayReads(ItemTexts(items), ItemData(items));
    case Object(members) =>
      forall i | 0 <= i < |members| ensures Reads(Text(members[i].value), DataOf(members[i].value)) {
        TextReads(members[i].value);
      }
      ObjectTextReads(members);
  }

  lemma ObjectTextReads(members: seq<Entry<Value>>)
    requires DistinctKeys(members)
    requires forall i | 0 <= i < |members| :: Valid(members[i].value) && Finite(members[i].value)
    requires forall i | 0 <= i < |members| :: Reads(Text(members[i].value), DataOf(members[i].value))
    ensures Reads("{" + JoinComma(EntryTexts(SortEntries(MemberTexts(members)))) + "}", DObject(MemberData(members)))
  {
    hide Reads, Valid, Finite, Text, DataOf, SortEntries, JoinComma, EntryTexts, MemberData, MemberTexts;
    var es, m := SortEntries(MemberTexts(members)), MemberData(members);
    SortedTexts(members);
    MemberDataAt(members);
    forall j | 0 <= j < |es| ensures es[j].key in m && Reads(es[j].value, m[es[j].key]) {
      assert es[j] in es;
      var i :| 0 <= i < |members| && es[j] == Entry(members[i].key, Text(members[i].value));
    }
    forall k | k in m ensures exists j | 0 <= j < |es| :: es[j].key == k {
      var i :| 0 <= i < |members| && members[i].key == k;
      var e := Entry(members[i].key, Text(members[i].value));
      assert e in es;
      var j :| 0 <= j < |es| && es[j] == e;
    }
    ObjectReads(es, m);
  }

  // -------------------------------------------------------------------------
  // Canonical text identifies data

  /** Equal objects print equal entries. */
  lemma SameEntries(a: seq<Entry<Value>>, b: seq<Entry<Value>>, e: Entry<string>)
    requires DistinctKeys(a) && DistinctKeys(b)
    requires forall i | 0 <= i < |a| :: Valid(a[i].value) && Finite(a[i].value)
    requires forall i | 0 <= i < |b| :: Valid(b[i].value) && Finite(b[i].value)
    requires MemberData(a) == MemberData(b) && e in SortEntries(MemberTexts(a))
    requires forall i, j | 0 <= i < |a| && 0 <= j < |b| && DataOf(a[i].value) == DataOf(b[j].value) ::
               Text(a[i].value) == Text(b[j].value)
    ensures e in SortEntries(MemberTexts(b))
  {
    hide Valid, Finite, Text, DataOf, SortEntries, MemberData, MemberTexts, StrictlySorted;
    SortedTexts(a);
    SortedTexts(b);
    MemberDataAt(a);
    MemberDataAt(b);
    var i :| 0 <= i < |a| && e == Entry(a[i].key, Text(a[i].value));
    assert a[i].key in MemberData(b);
    var j :| 0 <= j < |b| && b[j].key == a[i].key;
    assert Entry(b[j].key, Text(b[j].value)) in SortEntries(MemberTexts(b));
  }

  lemma SameSortedTexts(a: seq<Entry<Value>>, b: seq<Entry<Value>>)
    requires DistinctKeys(a) && DistinctKeys(b)
    requires forall i | 0 <= i < |a| :: Valid(a[i].value) && Finite(a[i].value)
    requires forall i | 0 <= i < |b| :: Valid(b[i].value) && Finite(b[i].value)
    requires MemberData(a) == MemberData(b)
    requires forall i, j | 0 <= i < |a| && 0 <= j < |b| && DataOf(a[i].value) == DataOf(b[j].value) ::
               Text(a[i].value) == Text(b[j].value)
    ensures SortEntries(MemberTexts(a)) == SortEntries(MemberTexts(b))
  {
    hide Valid, Finite, Text, DataOf, SortEntries, MemberData, MemberTexts, StrictlySorted, DistinctKeys;
    SortedTexts(a);
    SortedTexts(b);
    MemberDataAt(a);
    MemberDataAt(b);
    var x, y := SortEntries(MemberTexts(a)), SortEntries(MemberTexts(b));
    forall e ensures e in x <==> e in y {
      if e in x { SameEntries(a, b, e); }
      if e in y { SameEntries(b, a, e); }
    }
    SortedUnique(x, y);
  }

  lemma {:induction false} SameDataSameText(v: Value, w: Value)
    requires Valid(v) && Finite(v) && Valid(w) && Finite(w) && DataOf(v) == DataOf(w)
    ensures Text(v) == Text(w)
    decreases v
  {
    match (v, w)
    case (Num(m), Num(n)) => SameTextSameValue(m, n);
    case (Array(a), Array(b)) =>
      assert |a| == |ItemData(a)| == |b|;
      forall i | 0 <= i < |a| ensures ItemTexts(a)[i] == ItemTexts(b)[i] {
        assert ItemData(a)[i] == ItemData(b)[i];
        SameDataSameText(a[i], b[i]);
      }
      assert ItemTexts(a) == ItemTexts(b);
    case (Object(a), Object(b)) =>
      forall i, j | 0 <= i < |a| && 0 <= j < |b| && DataOf(a[i].value) == DataOf(b[j].value)
        ensures Text(a[i].value) == Text(b[j].value)
      {
        SameDataSameText(a[i].value, b[j].value);
      }
      SameSortedTexts(a, b);
    case _ =>
  }

  /** Reading the canonical text of a value gives exactly its data and uses all of the text. */
  lemma RoundTrip(v: Value)
    requires Valid(v) && Finite(v)
    ensures Parse(Text(v)) == Some((DataOf(v), []))
  {
    hide Text, DataOf, Parse;
    TextReads(v);
    assert Parse(Text(v) + []) == Some((DataOf(v), []));
    assert Text(v) + [] == Text(v);
  }

  /** Canonical text is unambiguous and canonical: two values print alike exactly when they are the same data. */
  lemma TextIdentifiesData(v: Value, w: Value)
    requires Valid(v) && Finite(v) && Valid(w) && Finite(w)
    ensures Text(v) == Text(w) <==> DataOf(v) == DataOf(w)
  {
    hide Text, DataOf, Parse, Valid, Finite;
    RoundTrip(v);
    RoundTrip(w);
    if DataOf(v) == DataOf(w) { SameDataSameText(v, w); }
  }

  /** Printing what any faithful reader made of a canonical text reproduces that text. */
  lemma RecanonicalizingIsIdentity(v: Value, w: Value)
    requires Valid(v) && Finite(v) && Valid(w) && Finite(w) && Parse(Text(v)) == Some((DataOf(w), []))
    ensures Text(w) == Text(v)
  {
    hide Text, DataOf, Parse, Valid, Finite;
    RoundTrip(v);
    TextIdentifiesData(v, w);
  }

  lemma {:induction false} InsertBag<T>(e: Entry<T>, xs: seq<Entry<T>>)
    ensures multiset(InsertEntry(e, xs)) == multiset(xs) + multiset{e}
  {
    hide Before;
    if xs != [] {
      InsertBag(e, xs[1..]);
      assert xs == [xs[0]] + xs[1..];
    }
  }

  lemma {:induction false} SortBag<T>(xs: seq<Entry<T>>)
    ensures multiset(SortEntries(xs)) == multiset(xs)
  {
    hide InsertEntry;
    if xs != [] {
      SortBag(xs[1..]);
      InsertBag(xs[0], SortEntries(xs[1..]));
      assert xs == [xs[0]] + xs[1..];
    }
  }

  /** The members of an object are printed once each, every key before those that come after it in the order of code
      units. */
  lemma MembersPrintedInOrder(members: seq<Entry<Value>>) returns (es: seq<Entry<string>>)
    requires Valid(Object(members)) && Finite(Object(members))
    ensures Text(Object(members)) == "{" + JoinComma(EntryTexts(es)) + "}"
    ensures multiset(es) == multiset(MemberTexts(members))
    ensures forall i, j | 0 <= i < |es| && 0 <= j < |es| :: i < j <==> Below(Units(es[i].key), Units(es[j].key))
  {
    hide SortEntries, JoinComma, EntryTexts, Before, Below, Units;
    es := SortEntries(MemberTexts(members));
    SortBag(MemberTexts(members));
    SortIsSorted(MemberTexts(members));
    forall i, j | 0 <= i < |es| && 0 <= j < |es| ensures i < j <==> Below(Units(es[i].key), Units(es[j].key)) {
      BeforeExactly(es[i].key, es[j].key);
      BeforeIsTotal(es[i].key, es[j].key);
    }
  }

  /** The order in which an object holds its members does not affect the text. */
  lemma MemberOrderIsIrrelevant(a: seq<Entry<Value>>, b: seq<Entry<Value>>)
    requires Valid(Object(a)) && Finite(Object(a)) && multiset(a) == multiset(b)
    ensures Valid(Object(b)) && Finite(Object(b)) && Text(Object(a)) == Text(Object(b))
  {
    hide Text, DataOf, MemberData, StrictlySorted;
    forall j | 0 <= j < |b| ensures exists i | 0 <= i < |a| :: a[i] == b[j] {
      assert b[j] in multiset(a);
      assert b[j] in a;
    }
    DistinctStays(a, b);
    assert Valid(Object(b)) && Finite(Object(b));
    SameMembersSameData(a, b);
    TextIdentifiesData(Object(a), Object(b));
  }

  /** A permutation of entries with distinct keys has distinct keys. */
  lemma DistinctStays<T>(a: seq<Entry<T>>, b: seq<Entry<T>>)
    requires DistinctKeys(a) && multiset(a) == multiset(b)
    ensures DistinctKeys(b)
  {
    forall i, j | 0 <= i < j < |b| ensures b[i].key != b[j].key {
      assert b[i] in multiset(a) && b[j] in multiset(a);
      assert b[i] in a && b[j] in a;
      var k :| 0 <= k < |a| && a[k] == b[i];
      var l :| 0 <= l < |a| && a[l] == b[j];
      if k == l {
        TwiceCounts(b, i, j);
        OnceCounts(a, k);
      }
    }
  }

  lemma TwiceCounts<T>(b: seq<T>, i: nat, j: nat)
    requires i < j < |b| && b[i] == b[j]
    ensures multiset(b)[b[i]] >= 2
  {
    assert b == b[..j] + [b[j]] + b[j + 1..];
    assert b[..j] == b[..i] + [b[i]] + b[i + 1..j];
  }

  lemma OnceCounts<T>(a: seq<Entry<T>>, k: nat)
    requires DistinctKeys(a) && k < |a|
    ensures multiset(a)[a[k]] == 1
  {
    assert a == a[..k] + [a[k]] + a[k + 1..];
    assert a[k] !in a[..k] && a[k] !in a[k + 1..];
  }

  lemma MemberCarriesOver(a: seq<Entry<Value>>, b: seq<Entry<Value>>, k: string)
    requires DistinctKeys(a) && DistinctKeys(b) && multiset(a) == multiset(b)
    requires forall i | 0 <= i < |a| :: Valid(a[i].value) && Finite(a[i].value)
    requires forall i | 0 <= i < |b| :: Valid(b[i].value) && Finite(b[i].value)
    requires k in MemberData(a)
    ensures k in MemberData(b) && MemberData(b)[k] == MemberData(a)[k]
  {
    hide MemberData, Valid, Finite, DataOf, DistinctKeys;
    MemberDataAt(a);
    MemberDataAt(b);
    var i :| 0 <= i < |a| && a[i].key == k;
    assert a[i] in multiset(b);
    assert a[i] in b;
    var j :| 0 <= j < |b| && b[j] == a[i];
  }

  lemma SameMembersSameData(a: seq<Entry<Value>>, b: seq<Entry<Value>>)
    requires Valid(Object(a)) && Finite(Object(a)) && Valid(Object(b)) && Finite(Object(b))
    requires multiset(a) == multiset(b)
    ensures DataOf(Object(a)) == DataOf(Object(b))
  {
    hide MemberData;
    var m, n := MemberData(a), MemberData(b);
    forall k | k in m ensures k in n && n[k] == m[k] { MemberCarriesOver(a, b, k); }
    forall k | k in n ensures k in m { MemberCarriesOver(b, a, k); }
    assert m == n;
  }

  // -------------------------------------------------------------------------
  // The printer as it is written

  lemma {:induction false} InsertCommutes(e: Entry<Value>, xs: seq<Entry<Value>>)
    requires Valid(e.value) && Finite(e.value)
    requires forall i | 0 <= i < |xs| :: Valid(xs[i].value) && Finite(xs[i].value)
    ensures AllPrintable(InsertEntry(e, xs))
    ensures MemberTexts(InsertEntry(e, xs)) == InsertEntry(Entry(e.key, Text(e.value)), MemberTexts(xs))
  {
    hide Valid, Finite, Text, Before;
    if xs != [] && !Before(e.key, xs[0].key) {
      InsertCommutes(e, xs[1..]);
      assert MemberTexts(xs)[1..] == MemberTexts(xs[1..]);
    }
  }

  ghost predicate AllPrintable(xs: seq<Entry<Value>>) {
    forall i | 0 <= i < |xs| :: Valid(xs[i].value) && Finite(xs[i].value)
  }

  /** Sorting members and then printing them is printing them and then sorting. */
  lemma {:induction false} SortCommutes(xs: seq<Entry<Value>>)
    requires AllPrintable(xs)
    ensures AllPrintable(SortEntries(xs)) && MemberTexts(SortEntries(xs)) == SortEntries(MemberTexts(xs))
  {
    hide Valid, Finite, Text, InsertEntry;
    if xs != [] {
      SortCommutes(xs[1..]);
      InsertCommutes(xs[0], SortEntries(xs[1..]));
      assert MemberTexts(xs)[1..] == MemberTexts(xs[1..]);
    }
  }

  lemma JoinAppend(texts: seq<string>, last: string)
    ensures JoinComma(texts + [last]) == if texts == [] then last else JoinComma(texts) + "," + last
  {
    if |texts| > 0 {
      JoinAppend(texts[1..], last);
      assert (texts + [last])[1..] == texts[1..] + [last];
    }
  }

  /** Prints a value; the only failure is a number that is not finite. */
  method Canonicalize(v: Value) returns (r: Result<string, NumberError>)
    requires Valid(v)
    ensures r.Ok? <==> Finite(v)
    ensures r.Ok? ==> r.value == Text(v)
    decreases v
  {
    hide JoinComma, EntryTexts, SortEntries, Escape, DistinctKeys;
    match v
    case Null => return Ok("null");
    case Bool(b) => return Ok(if b then "true" else "false");
    case Num(n) =>
      if n == DoubleNumber(NotFinite) { return Err(NonFinite); }
      NumberTextReads(n);
      return NumberText(n);
    case Str(s) =>
      var e := EscapeJsonString(s);
      return Ok("\"" + e + "\"");
    case Array(items) =>
      r := CanonicalizeItems(v, items);
    case Object(members) =>
      r := CanonicalizeMembers(v, members);
  }

  lemma ArrayParts(items: seq<Value>)
    requires Valid(Array(items))
    ensures forall i | 0 <= i < |items| :: Valid(items[i])
    ensures Finite(Array(items)) <==> forall i | 0 <= i < |items| :: Finite(items[i])
    ensures Finite(Array(items)) ==> Text(Array(items)) == "[" + JoinComma(ItemTexts(items)) + "]"
  {
  }

  lemma ObjectParts(members: seq<Entry<Value>>)
    requires Valid(Object(members))
    ensures forall i | 0 <= i < |members| :: Valid(members[i].value)
    ensures Finite(Object(members)) <==> forall i | 0 <= i < |members| :: Finite(members[i].value)
    ensures Finite(Object(members)) ==>
              Text(Object(members)) == "{" + JoinComma(EntryTexts(SortEntries(MemberTexts(members)))) + "}"
  {
  }

  lemma JoinNothing()
    ensures JoinComma([]) == []
  {
  }

  method CanonicalizeItems(v: Value, items: seq<Value>) returns (r: Result<string, NumberError>)
    requires v == Array(items) && Valid(v)
    ensures r.Ok? <==> Finite(v)
    ensures r.Ok? ==> r.value == Text(v)
    decreases v, 0
  {
    hide JoinComma, Valid, Finite, Text;
    ArrayParts(items);
    JoinNothing();
    var out := "[";
    ghost var texts := [];
    for i := 0 to |items|
      invariant forall j | 0 <= j < i :: Finite(items[j])
      invariant |texts| == i && forall j | 0 <= j < i :: texts[j] == Text(items[j])
      invariant out == "[" + JoinComma(texts)
    {
      var item := Canonicalize(items[i]);
      if item.Err? { return item; }
      JoinGrows("[", texts, item.value);
      if i > 0 { out := out + ","; }
      out := out + item.value;
      texts := texts + [item.value];
    }
    assert texts == ItemTexts(items);
    return Ok(out + "]");
  }

  method CanonicalizeMembers(v: Value, members: seq<Entry<Value>>) returns (r: Result<string, NumberError>)
    requires v == Object(members) && Valid(v)
    ensures r.Ok? <==> Finite(v)
    ensures r.Ok? ==> r.value == Text(v)
    decreases v, 0
  {
    hide JoinComma, Valid, Finite, Text, SortEntries, Escape, EntryText;
    ObjectParts(members);
    JoinNothing();
    var pairs := SortEntries(members);
    var out := "{";
    ghost var texts := [];
    for i := 0 to |pairs|
      invariant forall j | 0 <= j < i :: Finite(pairs[j].value) && Valid(pairs[j].value)
      invariant |texts| == i
      invariant forall j | 0 <= j < i :: texts[j] == EntryText(Entry(pairs[j].key, Text(pairs[j].value)))
      invariant out == "{" + JoinComma(texts)
    {
      SortKeeps(members, pairs[i]);
      ghost var k :| 0 <= k < |members| && members[k] == pairs[i];
      var key := EscapeJsonString(pairs[i].key);
      var value := Canonicalize(pairs[i].value);
      if value.Err? { return value; }
      ghost var text := EntryText(Entry(pairs[i].key, value.value));
      JoinGrows("{", texts, text);
      if i > 0 { out := out + ","; }
      EntryAppended(out, pairs[i].key, value.value);
      out := out + "\"" + key + "\":" + value.value;
      texts := texts + [text];
    }
    MembersDone(members, texts);
    return Ok(out + "}");
  }

  /** The entry texts of the sorted members make up the text of the object. */
  lemma MembersDone(members: seq<Entry<Value>>, texts: seq<string>)
    requires Valid(Object(members)) && |texts| == |SortEntries(members)|
    requires forall j | 0 <= j < |texts| ::
               Finite(SortEntries(members)[j].value) && Valid(SortEntries(members)[j].value)
    requires forall j | 0 <= j < |texts| ::
               texts[j] == EntryText(Entry(SortEntries(members)[j].key, Text(SortEntries(members)[j].value)))
    ensures Finite(Object(members)) && Text(Object(members)) == "{" + JoinComma(texts) + "}"
  {
    hide JoinComma, Valid, Finite, Text, SortEntries, EntryText;
    ObjectParts(members);
    AllMembersFinite(members);
    SortCommutes(members);
    assert texts == EntryTexts(MemberTexts(SortEntries(members)));
  }

  lemma JoinGrows(open: string, texts: seq<string>, text: string)
    ensures var soFar := open + JoinComma(texts);
            open + JoinComma(texts + [text]) == (if texts == [] then soFar else soFar + ",") + text
  {
    JoinNothing();
    JoinAppend(texts, text);
  }

  lemma EntryAppended(out: string, key: string, value: string)
    ensures out + "\"" + Escape(key) + "\":" + value == out + EntryText(Entry(key, value))
  {
  }

  lemma AllMembersFinite(members: seq<Entry<Value>>)
    requires forall j | 0 <= j < |SortEntries(members)| :: Finite(SortEntries(members)[j].value)
    ensures forall i | 0 <= i < |members| :: Finite(members[i].value)
  {
    hide Finite, SortEntries;
    forall i | 0 <= i < |members| ensures Finite(members[i].value) {
      SortKeeps(members, members[i]);
      assert members[i] in SortEntries(members);
      var j :| 0 <= j < |SortEntries(members)| && SortEntries(members)[j] == members[i];
    }
  }
}
