/**
 Strings of the canonical printer: escaping, and the order of member keys by UTF-16 code units.

 The escaped text is the shortest that reads back as the string, and no other is as short.  The code units of a string
 are the only ones that decode to it, and keys are ordered by the first unit in which they differ.
 */
module CanonicalStrings {
  import opened Wrappers

  // -------------------------------------------------------------------------
  // Escaping

  /** Category Cc: C0 controls, delete and C1 controls. */
  predicate IsControl(c: char) {
    var n := c as int; n <= 0x1F || 0x7F <= n <= 0x9F
  }

  function HexDigit(d: nat): (c: char)
    requires d < 16
  {
    if d < 10 then ('0' as int + d) as char else ('a' as int + (d - 10)) as char
  }

  function HexValue(c: char): (r: Option<nat>)
    ensures r.Some? ==> r.value < 16
  {
    if '0' <= c <= '9' then Some(c as int - '0' as int)
    else if 'a' <= c <= 'f' then Some(c as int - 'a' as int + 10)
    else None
  }

  function EscapeChar(c: char): string {
    if c == '"' then "\\\""
    else if c == '\\' then "\\\\"
    else if c as int == 0x08 then "\\b"
    else if c as int == 0x0C then "\\f"
    else if c == '\n' then "\\n"
    else if c == '\r' then "\\r"
    else if c == '\t' then "\\t"
    else if IsControl(c) then
      var n := c as int;
      "\\u" + [HexDigit(n / 4096 % 16), HexDigit(n / 256 % 16), HexDigit(n / 16 % 16), HexDigit(n % 16)]
    else [c]
  }

  function Escape(s: string): string {
    if s == [] then [] else EscapeChar(s[0]) + Escape(s[1..])
  }

  method EscapeJsonString(value: string) returns (result: string)
    ensures result == Escape(value)
  {
    result := "";
    assert value[0..] == value;
    for i := 0 to |value|
      invariant result + Escape(value[i..]) == Escape(value)
    {
      assert value[i..][1..] == value[i + 1..];
      assert result + (EscapeChar(value[i]) + Escape(value[i + 1..]))
        == result + EscapeChar(value[i]) + Escape(value[i + 1..]);
      result := result + EscapeChar(value[i]);
    }
  }

  /** One escaped character off the front of a text: the character and how many characters it took. */
  function UnescapeChar(t: string): (r: Option<(char, nat)>)
    ensures r.Some? ==> 1 <= r.value.1 <= |t|
  {
    if t == [] then None
    else if t[0] != '\\' then (if t[0] == '"' || IsControl(t[0]) then None else Some((t[0], 1)))
    else if |t| < 2 then None
    else match t[1]
      case '"' => Some(('"', 2))
      case '\\' => Some(('\\', 2))
      case 'b' => Some((0x08 as char, 2))
      case 'f' => Some((0x0C as char, 2))
      case 'n' => Some(('\n', 2))
      case 'r' => Some(('\r', 2))
      case 't' => Some(('\t', 2))
      case 'u' => if |t| < 6 then None else UnescapeHex(t[2], t[3], t[4], t[5])
      case _ => None
  }

  function UnescapeHex(a: char, b: char, c: char, d: char): (r: Option<(char, nat)>)
    ensures r.Some? ==> r.value.1 == 6
  {
    match (HexValue(a), HexValue(b), HexValue(c), HexValue(d))
    case (Some(w), Some(x), Some(y), Some(z)) =>
      var n := ((w * 16 + x) * 16 + y) * 16 + z;
      if n < 0xD800 || 0xE000 <= n then Some((n as char, 6)) else None
    case _ => None
  }

  /** A string up to its closing quote: its value and the text after the quote. */
  function Unescape(t: string): (r: Option<(string, string)>)
    ensures r.Some? ==> |r.value.1| < |t|
    decreases |t|
  {
    if t == [] then None
    else if t[0] == '"' then Some(([], t[1..]))
    else match UnescapeChar(t)
      case None => None
      case Some((c, k)) =>
        match Unescape(t[k..])
        case None => None
        case Some((s, rest)) => Some(([c] + s, rest))
  }

  lemma HexRoundTrip(d: nat)
    requires d < 16
    ensures HexValue(HexDigit(d)) == Some(d)
  {
  }

  lemma ControlHex(n: nat)
    requires n < 0xA0
    ensures UnescapeHex(HexDigit(n / 4096 % 16), HexDigit(n / 256 % 16), HexDigit(n / 16 % 16), HexDigit(n % 16))
            == Some((n as char, 6))
  {
    hide HexDigit, HexValue;
    assert n / 4096 == 0 && n / 256 == 0;
    HexRoundTrip(0);
    HexRoundTrip(n / 16 % 16);
    HexRoundTrip(n % 16);
  }

  lemma EscapeCharReads(c: char, rest: string)
    ensures var e := EscapeChar(c); UnescapeChar(e + rest) == Some((c, |e|)) && (e + rest)[0] != '"'
  {
    var e := EscapeChar(c);
    if |e| == 6 {
      ControlHex(c as int);
    }
  }

  /** Unescaping undoes escaping. */
  lemma {:induction false} EscapeReads(s: string, rest: string)
    ensures Unescape(Escape(s) + "\"" + rest) == Some((s, rest))
  {
    if s == [] {
      assert (Escape(s) + "\"" + rest)[1..] == rest;
    } else {
      var e, tail := EscapeChar(s[0]), Escape(s[1..]) + "\"" + rest;
      var t := Escape(s) + "\"" + rest;
      assert t == e + tail;
      EscapeCharReads(s[0], tail);
      EscapeReads(s[1..], rest);
      assert t[|e|..] == tail;
      assert [s[0]] + s[1..] == s;
    }
  }

  // -------------------------------------------------------------------------
  // The escape is the shortest

  lemma HexUnique(c: char)
    requires HexValue(c).Some?
    ensures HexDigit(HexValue(c).value) == c
  {
  }

  /** Four hexadecimal digits are those of the number they read as. */
  lemma HexDigits(a: char, b: char, c: char, d: char)
    requires UnescapeHex(a, b, c, d).Some?
    ensures var n := UnescapeHex(a, b, c, d).value.0 as int;
            [a, b, c, d] == [HexDigit(n / 4096 % 16), HexDigit(n / 256 % 16), HexDigit(n / 16 % 16), HexDigit(n % 16)]
  {
    hide HexDigit, HexValue;
    HexUnique(a);
    HexUnique(b);
    HexUnique(c);
    HexUnique(d);
    Nibbles(HexValue(a).value, HexValue(b).value, HexValue(c).value, HexValue(d).value);
  }

  lemma Nibbles(w: nat, x: nat, y: nat, z: nat)
    requires w < 16 && x < 16 && y < 16 && z < 16
    ensures var n := ((w * 16 + x) * 16 + y) * 16 + z;
            n / 4096 % 16 == w && n / 256 % 16 == x && n / 16 % 16 == y && n % 16 == z
  {
    var n := ((w * 16 + x) * 16 + y) * 16 + z;
    assert n / 16 == (w * 16 + x) * 16 + y && n / 256 == w * 16 + x && n / 4096 == w;
  }

  /** Whatever reads as a character is longer than its escape, or is its escape. */
  lemma CharShortest(t: string)
    requires UnescapeChar(t).Some?
    ensures var (c, k) := UnescapeChar(t).value;
            |EscapeChar(c)| <= k && (|EscapeChar(c)| == k ==> t[..k] == EscapeChar(c))
  {
    hide UnescapeHex, HexDigit;
    var (c, k) := UnescapeChar(t).value;
    if k == 6 {
      HexDigits(t[2], t[3], t[4], t[5]);
      assert t[..6] == "\\u" + [t[2], t[3], t[4], t[5]];
    }
  }

  /** The escaped string is the only shortest text that reads back as the string. */
  lemma {:induction false} EscapeIsShortest(s: string, t: string, rest: string)
    requires Unescape(t + "\"" + rest) == Some((s, rest))
    ensures |Escape(s)| <= |t| && (|Escape(s)| == |t| ==> t == Escape(s))
    decreases |t|
  {
    hide UnescapeChar, EscapeChar;
    var full := t + "\"" + rest;
    if t != [] {
      var (c, k) := UnescapeChar(full).value;
      CharShortest(full);
      assert full[k..] == t[k..] + "\"" + rest;
      EscapeIsShortest(s[1..], t[k..], rest);
      assert full[..k] == t[..k] && t == t[..k] + t[k..];
    }
  }

  /** A quote, a backslash, or a character of U+0000 to U+001F or U+007F to U+009F. */
  predicate MustEscape(c: char) {
    c == '"' || c == '\\' || 0x00 <= c as int <= 0x1F || 0x7F <= c as int <= 0x9F
  }

  /** The escaped text holds no control character, and differs from the string exactly when that holds something
      that must be escaped. */
  lemma {:induction false} EscapesExactly(s: string)
    ensures forall c | c in Escape(s) :: !(0x00 <= c as int <= 0x1F || 0x7F <= c as int <= 0x9F)
    ensures |Escape(s)| >= |s|
    ensures Escape(s) == s <==> forall c | c in s :: !MustEscape(c)
  {
    if s != [] {
      EscapesExactly(s[1..]);
      assert s == [s[0]] + s[1..];
      EscapeCharPlain(s[0]);
      if Escape(s) == s { assert |EscapeChar(s[0])| == 1 && Escape(s)[1..] == Escape(s[1..]); }
    }
  }

  lemma EscapeCharPlain(c: char)
    ensures forall d | d in EscapeChar(c) :: !(0x00 <= d as int <= 0x1F || 0x7F <= d as int <= 0x9F)
    ensures |EscapeChar(c)| >= 1 && (if MustEscape(c) then |EscapeChar(c)| >= 2 else EscapeChar(c) == [c])
  {
  }

  // -------------------------------------------------------------------------
  // UTF-16 order

  type Unit = nat

  function UnitsOf(c: char): (r: seq<Unit>)
    ensures r != []
  {
    var n := c as int;
    if n < 0x1_0000 then [n]
    else [0xD800 + (n - 0x1_0000) / 0x400, 0xDC00 + (n - 0x1_0000) % 0x400]
  }

  function Units(s: string): seq<Unit> {
    if s == [] then [] else UnitsOf(s[0]) + Units(s[1..])
  }

  /** The standard decoding of code units: a unit outside D800 to DFFF is a character, a unit of D800 to DBFF
      followed by one of DC00 to DFFF is a character above FFFF, and nothing else is text. */
  function DecodeUnits(us: seq<Unit>): Option<string> {
    if us == [] then Some([])
    else if us[0] < 0xD800 || 0xE000 <= us[0] <= 0xFFFF then
      match DecodeUnits(us[1..])
      case None => None
      case Some(s) => Some([us[0] as char] + s)
    else if us[0] <= 0xDBFF && |us| >= 2 && 0xDC00 <= us[1] <= 0xDFFF then
      match DecodeUnits(us[2..])
      case None => None
      case Some(s) => Some([(0x1_0000 + (us[0] - 0xD800) * 0x400 + (us[1] - 0xDC00)) as char] + s)
    else None
  }

  /** The code units of a string are exactly those that decode to it. */
  lemma {:induction false} UnitsExactly(us: seq<Unit>, s: string)
    ensures DecodeUnits(us) == Some(s) <==> us == Units(s)
  {
    if us == Units(s) { UnitsDecode(s); }
    if DecodeUnits(us) == Some(s) { DecodedUnits(us); }
  }

  /** One unit below 10000, or a pair of surrogates, for the character. */
  lemma UnitsOfIs(c: char)
    ensures var u := UnitsOf(c);
            if |u| == 1 then (u[0] < 0xD800 || 0xE000 <= u[0] <= 0xFFFF) && u[0] as char == c
            else
              && |u| == 2 && 0xD800 <= u[0] <= 0xDBFF && 0xDC00 <= u[1] <= 0xDFFF
              && (0x1_0000 + (u[0] - 0xD800) * 0x400 + (u[1] - 0xDC00)) as char == c
  {
  }

  lemma {:induction false} UnitsDecode(s: string)
    ensures DecodeUnits(Units(s)) == Some(s)
  {
    hide UnitsOf;
    if s != [] {
      UnitsDecode(s[1..]);
      var u, us := UnitsOf(s[0]), Units(s);
      UnitsOfIs(s[0]);
      assert us[0] == u[0] && (|u| == 2 ==> us[1] == u[1]) && us[|u|..] == Units(s[1..]);
      assert [s[0]] + s[1..] == s;
    }
  }

  lemma {:induction false} DecodedUnits(us: seq<Unit>)
    requires DecodeUnits(us).Some?
    ensures us == Units(DecodeUnits(us).value)
  {
    hide UnitsOf;
    if us != [] {
      var single := us[0] < 0xD800 || 0xE000 <= us[0] <= 0xFFFF;
      var k := if single then 1 else 2;
      DecodedUnits(us[k..]);
      if single { UnitDecodes(us[0]); } else { PairDecodes(us[0], us[1]); }
      var s := DecodeUnits(us).value;
      assert us == us[..k] + us[k..] && s[1..] == DecodeUnits(us[k..]).value;
    }
  }

  lemma UnitDecodes(unit: Unit)
    requires unit < 0xD800 || 0xE000 <= unit <= 0xFFFF
    ensures UnitsOf(unit as char) == [unit]
  {
  }

  /** A pair of units is that of the character it decodes to. */
  lemma PairDecodes(high: Unit, low: Unit)
    requires 0xD800 <= high <= 0xDBFF && 0xDC00 <= low <= 0xDFFF
    ensures UnitsOf((0x1_0000 + (high - 0xD800) * 0x400 + (low - 0xDC00)) as char) == [high, low]
  {
    var n := (high - 0xD800) * 0x400 + (low - 0xDC00);
    assert n / 0x400 == high - 0xD800 && n % 0x400 == low - 0xDC00;
  }

  datatype Ordering = Less | Equal | Greater

  /** The sequences agree below `k`, where `a` ends or has the smaller unit. */
  predicate BelowAt(a: seq<Unit>, b: seq<Unit>, k: nat) {
    k <= |a| && k < |b| && a[..k] == b[..k] && (k == |a| || a[k] < b[k])
  }

  /** `a` comes before `b` in the order of code units. */
  ghost predicate Below(a: seq<Unit>, b: seq<Unit>) { exists k :: BelowAt(a, b, k) }

  function CompareUnits(a: seq<Unit>, b: seq<Unit>): Ordering {
    if a == [] then (if b == [] then Equal else Less)
    else if b == [] then Greater
    else if a[0] < b[0] then Less
    else if a[0] > b[0] then Greater
    else CompareUnits(a[1..], b[1..])
  }

  function Compare(a: string, b: string): Ordering { CompareUnits(Units(a), Units(b)) }

  /** Orders two strings by the first code unit in which they differ, a proper prefix first. */
  method CompareUtf16(left: string, right: string) returns (r: Ordering)
    ensures r == Compare(left, right)
    ensures r == Less <==> Below(Units(left), Units(right))
    ensures r == Greater <==> Below(Units(right), Units(left))
    ensures r == Equal <==> left == right
  {
    var a, b := Units(left), Units(right);
    CompareExactly(a, b);
    CompareExactly(b, a);
    CompareFlips(b, a);
    CompareEqual(a, b);
    if a == b { UnitsInjective(left, right); }
    var i := 0;
    assert a[0..] == a && b[0..] == b;
    while true
      invariant i <= |a| && i <= |b| && CompareUnits(a[i..], b[i..]) == CompareUnits(a, b)
      decreases |a| - i
    {
      if i < |a| && i < |b| {
        if a[i] < b[i] { return Less; }
        if a[i] > b[i] { return Greater; }
        assert a[i..][1..] == a[i + 1..] && b[i..][1..] == b[i + 1..];
        i := i + 1;
      } else if i < |b| {
        return Less;
      } else if i < |a| {
        return Greater;
      } else {
        return Equal;
      }
    }
  }

  /** The comparison finds the first difference. */
  lemma {:induction false} CompareExactly(a: seq<Unit>, b: seq<Unit>)
    ensures CompareUnits(a, b) == Less <==> Below(a, b)
  {
    if a == [] || b == [] || a[0] != b[0] {
      assert CompareUnits(a, b) == Less ==> BelowAt(a, b, 0);
      assert forall k: nat | k > 0 && BelowAt(a, b, k) :: a[..k][0] == b[..k][0];
    } else {
      CompareExactly(a[1..], b[1..]);
      if Below(a[1..], b[1..]) {
        var k: nat :| BelowAt(a[1..], b[1..], k);
        assert a[..k + 1] == [a[0]] + a[1..][..k] && b[..k + 1] == [b[0]] + b[1..][..k];
        assert BelowAt(a, b, k + 1);
      }
      if Below(a, b) {
        var k: nat :| BelowAt(a, b, k);
        assert k > 0;
        assert a[1..][..k - 1] == a[..k][1..] && b[1..][..k - 1] == b[..k][1..];
        assert BelowAt(a[1..], b[1..], k - 1);
      }
    }
  }

  lemma {:induction false} CompareEqual(a: seq<Unit>, b: seq<Unit>)
    ensures CompareUnits(a, b) == Equal <==> a == b
  {
    if a != [] && b != [] && a[0] == b[0] {
      CompareEqual(a[1..], b[1..]);
      assert a == [a[0]] + a[1..] && b == [b[0]] + b[1..];
    }
  }

  lemma {:induction false} CompareFlips(a: seq<Unit>, b: seq<Unit>)
    ensures CompareUnits(a, b) == Less <==> CompareUnits(b, a) == Greater
  {
    if a != [] && b != [] && a[0] == b[0] { CompareFlips(a[1..], b[1..]); }
  }

  lemma {:induction false} CompareTransitive(a: seq<Unit>, b: seq<Unit>, c: seq<Unit>)
    requires CompareUnits(a, b) == Less && CompareUnits(b, c) == Less
    ensures CompareUnits(a, c) == Less
  {
    if a != [] && b != [] && c != [] && a[0] == b[0] == c[0] { CompareTransitive(a[1..], b[1..], c[1..]); }
  }

  /** Code units determine the character they start. */
  lemma UnitsOfPrefix(c: char, d: char, s: seq<Unit>, t: seq<Unit>)
    requires UnitsOf(c) + s == UnitsOf(d) + t
    ensures c == d && s == t
  {
    var x, y := UnitsOf(c), UnitsOf(d);
    assert (x + s)[0] == (y + t)[0];
    if |x| == 2 { assert (x + s)[1] == (y + t)[1]; }
    assert |x| == |y|;
    assert s == (x + s)[|x|..] && t == (y + t)[|y|..];
  }

  lemma {:induction false} UnitsInjective(a: string, b: string)
    requires Units(a) == Units(b)
    ensures a == b
  {
    if a != [] && b != [] {
      UnitsOfPrefix(a[0], b[0], Units(a[1..]), Units(b[1..]));
      UnitsInjective(a[1..], b[1..]);
      assert a == [a[0]] + a[1..] && b == [b[0]] + b[1..];
    }
  }

  predicate Before(a: string, b: string) { Compare(a, b) == Less }

  /** One key comes before another exactly when its code units do: they agree up to some place, at which it ends or
      has the smaller unit. */
  lemma BeforeExactly(a: string, b: string)
    ensures Before(a, b) <==> Below(Units(a), Units(b))
  {
    hide CompareUnits, Units, Below;
    CompareExactly(Units(a), Units(b));
  }

  /** Comparing code units is a strict total order on strings. */
  lemma BeforeIsTotal(a: string, b: string)
    ensures a != b ==> Before(a, b) || Before(b, a)
    ensures !(Before(a, b) && Before(b, a)) && !Before(a, a)
  {
    hide CompareUnits, Units;
    CompareEqual(Units(a), Units(b));
    CompareEqual(Units(a), Units(a));
    CompareFlips(Units(a), Units(b));
    CompareFlips(Units(b), Units(a));
    if Units(a) == Units(b) { UnitsInjective(a, b); }
  }

  lemma BeforeTransitive(a: string, b: string, c: string)
    requires Before(a, b) && Before(b, c)
    ensures Before(a, c)
  {
    CompareTransitive(Units(a), Units(b), Units(c));
  }
}
