/**
 Canonical numerals.

 A double reaches the printer as the shortest decimal literal of its absolute value, in one of two shapes:
 `int.frac`, or one non-zero digit with an optional fraction and an exponent.  The printer turns it into
 digits and a scientific exponent and renders those.  A decimal value `m * 10^e` is represented by its only
 pair whose mantissa does not end in zero; printed numerals are proved to denote exactly the value of the
 literal, and to be equal exactly when the values are.
 */
module CanonicalNumbers {
  import opened Wrappers

  datatype NumberError = NonFinite | EmptyNumber | InvalidExponent

  // -------------------------------------------------------------------------
  // Decimal values

  function Pow10(k: nat): (p: nat)
    ensures p >= 1
  {
    if k == 0 then 1 else 10 * Pow10(k - 1)
  }

  lemma {:induction false} Pow10Add(a: nat, b: nat)
    ensures Pow10(a + b) == Pow10(a) * Pow10(b)
  {
    if a > 0 {
      Pow10Add(a - 1, b);
      assert Pow10(a + b) == 10 * Pow10(a - 1 + b);
    }
  }

  /** The value `mantissa * 10^exponent`, with a mantissa that is zero or does not end in zero. */
  datatype Decimal = Decimal(mantissa: nat, exponent: int)

  /** The decimal value of `m * 10^e`. */
  function Norm(m: nat, e: int): (d: Decimal)
    ensures d.mantissa == 0 <==> m == 0
    ensures m == 0 ==> d.exponent == 0
    ensures m != 0 ==> d.mantissa % 10 != 0
    decreases m
  {
    if m == 0 then Decimal(0, 0)
    else if m % 10 == 0 then Norm(m / 10, e + 1)
    else Decimal(m, e)
  }

  lemma NormTimesTen(m: nat, e: int)
    ensures Norm(10 * m, e) == Norm(m, e + 1)
  {
    assert (10 * m) % 10 == 0 && (10 * m) / 10 == m;
  }

  lemma {:induction false} NormScale(m: nat, e: int, k: nat)
    ensures Norm(m * Pow10(k), e) == Norm(m, e + k)
    decreases k
  {
    hide Norm;
    if k > 0 {
      var p := m * Pow10(k - 1);
      assert m * Pow10(k) == 10 * p;
      NormTimesTen(p, e);
      NormScale(m, e + 1, k - 1);
    }
  }

  /** `m1 * 10^e1 == m2 * 10^e2`, compared as integers over a common exponent. */
  ghost predicate SameRational(m1: nat, e1: int, m2: nat, e2: int) {
    if e1 >= e2 then m1 * Pow10(e1 - e2) == m2 else m1 == m2 * Pow10(e2 - e1)
  }

  lemma {:induction false} NormScales(m: nat, e: int) returns (k: nat)
    requires m != 0
    ensures m == Norm(m, e).mantissa * Pow10(k) && Norm(m, e).exponent == e + k
    decreases m
  {
    if m % 10 == 0 {
      var j := NormScales(m / 10, e + 1);
      k := j + 1;
      assert Norm(m, e).mantissa * Pow10(k) == 10 * (Norm(m, e).mantissa * Pow10(j));
    } else {
      k := 0;
    }
  }

  lemma SameNormSameRational(m1: nat, e1: int, m2: nat, e2: int)
    requires m1 != 0 && Norm(m1, e1) == Norm(m2, e2) && e1 >= e2
    ensures m1 * Pow10(e1 - e2) == m2
  {
    hide Norm, Pow10;
    var k1 := NormScales(m1, e1);
    var k2 := NormScales(m2, e2);
    var m, d := Norm(m1, e1).mantissa, e1 - e2;
    Pow10Add(k1, d);
    assert k2 == k1 + d;
    Associate(m, Pow10(k1), Pow10(d));
  }

  lemma Associate(a: nat, b: nat, c: nat)
    ensures a * b * c == a * (b * c)
  {
  }

  /** Two pairs denote the same number exactly when their normal forms are equal. */
  lemma NormIsValue(m1: nat, e1: int, m2: nat, e2: int)
    ensures Norm(m1, e1) == Norm(m2, e2) <==> SameRational(m1, e1, m2, e2) || (m1 == 0 && m2 == 0)
  {
    if SameRational(m1, e1, m2, e2) {
      if e1 >= e2 { NormScale(m1, e2, e1 - e2); } else { NormScale(m2, e1, e2 - e1); }
    } else if Norm(m1, e1) == Norm(m2, e2) && m1 != 0 {
      if e1 >= e2 { SameNormSameRational(m1, e1, m2, e2); } else { SameNormSameRational(m2, e2, m1, e1); }
    }
  }

  // -------------------------------------------------------------------------
  // Digit strings

  predicate IsDigit(c: char) { '0' <= c <= '9' }

  predicate AllDigits(s: string) { forall i | 0 <= i < |s| :: IsDigit(s[i]) }

  function DigitValue(c: char): (d: nat)
    requires IsDigit(c)
    ensures d < 10
  {
    c as int - '0' as int
  }

  function DigitChar(d: nat): (c: char)
    requires d < 10
    ensures IsDigit(c) && DigitValue(c) == d
  {
    ('0' as int + d) as char
  }

  function Val(s: string): nat
    requires AllDigits(s)
  {
    if s == [] then 0 else 10 * Val(s[..|s| - 1]) + DigitValue(s[|s| - 1])
  }

  function Zeros(k: nat): (s: string)
    ensures |s| == k && AllDigits(s)
  {
    seq(k, i => '0')
  }

  lemma {:induction false} ValAppend(a: string, b: string)
    requires AllDigits(a) && AllDigits(b)
    ensures AllDigits(a + b) && Val(a + b) == Val(a) * Pow10(|b|) + Val(b)
    decreases |b|
  {
    if b == [] {
      assert a + b == a;
    } else {
      var front := b[..|b| - 1];
      ValAppend(a, front);
      assert (a + b)[..|a + b| - 1] == a + front;
      assert Val(a) * Pow10(|b|) == 10 * (Val(a) * Pow10(|front|));
    }
  }

  lemma {:induction false} ValZeros(k: nat)
    ensures Val(Zeros(k)) == 0
  {
    if k > 0 {
      ValZeros(k - 1);
      assert Zeros(k)[..k - 1] == Zeros(k - 1);
    }
  }

  /** A number written without leading zero lies between powers of ten given by its length. */
  lemma {:induction false} ValBounds(s: string)
    requires AllDigits(s) && s != []
    ensures Val(s) < Pow10(|s|)
    ensures s[0] != '0' ==> Pow10(|s| - 1) <= Val(s)
  {
    if |s| > 1 { ValBounds(s[..|s| - 1]); } else { assert s[..0] == []; }
  }

  lemma {:induction false} ValInjective(a: string, b: string)
    requires AllDigits(a) && AllDigits(b) && |a| == |b| && Val(a) == Val(b)
    ensures a == b
  {
    if a != [] {
      var a', b' := a[..|a| - 1], b[..|b| - 1];
      assert DigitValue(a[|a| - 1]) == DigitValue(b[|b| - 1]);
      ValInjective(a', b');
      assert a == a' + [a[|a| - 1]] && b == b' + [b[|b| - 1]];
    }
  }

  /** Of two numbers written without leading zero, the shorter is the smaller. */
  lemma ShorterIsSmaller(a: string, b: string)
    requires AllDigits(a) && AllDigits(b) && a != [] && |a| < |b| && b[0] != '0'
    ensures Val(a) < Val(b)
  {
    ValBounds(a);
    ValBounds(b);
    Pow10Monotone(|a|, |b| - 1);
  }

  /** Numbers written without leading zero are written in one way. */
  lemma WrittenOnce(a: string, b: string)
    requires AllDigits(a) && AllDigits(b) && a != [] && b != [] && a[0] != '0' && b[0] != '0' && Val(a) == Val(b)
    ensures a == b
  {
    if |a| < |b| { ShorterIsSmaller(a, b); }
    else if |b| < |a| { ShorterIsSmaller(b, a); }
    else { ValInjective(a, b); }
  }

  lemma {:induction false} Pow10Monotone(a: nat, b: nat)
    requires a <= b
    ensures Pow10(a) <= Pow10(b)
  {
    if a < b { Pow10Monotone(a, b - 1); }
  }

  // -------------------------------------------------------------------------
  // String helpers of the printer

  function TrimStart(s: string): (r: string)
    ensures |r| <= |s|
  {
    if s != [] && s[0] == '0' then TrimStart(s[1..]) else s
  }

  lemma {:induction false} TrimStartFacts(s: string)
    ensures var r := TrimStart(s); s == Zeros(|s| - |r|) + r && (r != [] ==> r[0] != '0')
  {
    if s != [] && s[0] == '0' {
      TrimStartFacts(s[1..]);
      var r := TrimStart(s);
      assert s == "0" + s[1..] && "0" + Zeros(|s| - 1 - |r|) == Zeros(|s| - |r|);
    }
  }

  function TrimEnd(s: string): (r: string)
    ensures |r| <= |s|
  {
    if s != [] && s[|s| - 1] == '0' then TrimEnd(s[..|s| - 1]) else s
  }

  lemma {:induction false} TrimEndFacts(s: string)
    ensures var r := TrimEnd(s); s == r + Zeros(|s| - |r|) && (r != [] ==> r[|r| - 1] != '0')
  {
    if s != [] && s[|s| - 1] == '0' {
      TrimEndFacts(s[..|s| - 1]);
      var r := TrimEnd(s);
      assert s == s[..|s| - 1] + "0" && Zeros(|s| - 1 - |r|) + "0" == Zeros(|s| - |r|);
    }
  }

  /** The parts before and after the first occurrence. */
  function SplitOnce(s: string, c: char): Option<(string, string)> {
    if s == [] then None
    else if s[0] == c then Some(([], s[1..]))
    else match SplitOnce(s[1..], c)
         case None => None
         case Some((a, b)) => Some(([s[0]] + a, b))
  }

  predicate IsWhitespace(c: char) {
    var n := c as int;
    || 9 <= n <= 13 || n == 32 || n == 0x85 || n == 0xA0 || n == 0x1680 || 0x2000 <= n <= 0x200A
    || n == 0x2028 || n == 0x2029 || n == 0x202F || n == 0x205F || n == 0x3000
  }

  function Trim(s: string): string {
    if s != [] && IsWhitespace(s[0]) then Trim(s[1..])
    else if s != [] && IsWhitespace(s[|s| - 1]) then Trim(s[..|s| - 1])
    else s
  }

  function NatText(n: nat): (s: string)
    ensures s != [] && AllDigits(s) && Val(s) == n && (n != 0 ==> s[0] != '0')
  {
    if n < 10 then [DigitChar(n)]
    else
      var front := NatText(n / 10);
      var s := front + [DigitChar(n % 10)];
      assert s[..|s| - 1] == front;
      s
  }

  function IntText(n: int): string { if n < 0 then "-" + NatText(-n) else NatText(n) }

  const MIN_I32: int := -0x8000_0000
  const MAX_I32: int := 0x7FFF_FFFF

  function ParseI32(s: string): Option<int> {
    var negative := s != [] && s[0] == '-';
    var digits := if s != [] && (s[0] == '-' || s[0] == '+') then s[1..] else s;
    if digits == [] || !AllDigits(digits) then None
    else
      var magnitude: int := Val(digits);
      var n := if negative then -magnitude else magnitude;
      if MIN_I32 <= n <= MAX_I32 then Some(n) else None
  }

  lemma ParseIntText(n: int)
    requires MIN_I32 <= n <= MAX_I32
    ensures ParseI32(IntText(n)) == Some(n) && ParseI32("+" + IntText(n)) == if n >= 0 then Some(n) else None
  {
    var t := IntText(n);
    assert ("+" + t)[1..] == t;
    if n < 0 {
      assert t[1..] == NatText(-n);
      assert !IsDigit(t[0]);
    }
  }

  function OrZero(s: string): string { if s == [] then "0" else s }

  /** Digits and scientific exponent of a rendered number, `parse_to_scientific_parts`. */
  function ScientificParts(literal: string): Result<(string, int), NumberError> {
    var rendered := Trim(literal);
    if rendered == [] then Err(EmptyNumber)
    else
      var (mantissa, exponent) :=
        match SplitOnce(rendered, 'e')
        case Some((m, x)) => (m, Some(x))
        case None =>
          match SplitOnce(rendered, 'E')
          case Some((m, x)) => (m, Some(x))
          case None => (rendered, None);
      var (before, joined) :=
        match SplitOnce(mantissa, '.')
        case Some((left, right)) => (|left|, left + TrimEnd(right))
        case None => (|mantissa|, mantissa);
      var digits := OrZero(TrimEnd(OrZero(TrimStart(joined))));
      match exponent
      case Some(text) =>
        (match ParseI32(text)
         case None => Err(InvalidExponent)
         case Some(exp) => Ok((digits, exp + (before - 1))))
      case None =>
        match SplitOnce(mantissa, '.')
        case Some((left, right)) =>
          var stripped := TrimStart(left);
          if stripped != [] then Ok((digits, |stripped| - 1))
          else
            var fraction := TrimEnd(right);
            Ok((digits, -(|fraction| - |TrimStart(fraction)| + 1)))
        case None => Ok((digits, |TrimStart(mantissa)| - 1))
  }

  // -------------------------------------------------------------------------
  // Literals

  /** The two shapes in which the shortest literal of a positive double is handed over. */
  datatype Literal =
    | Plain(whole: string, fraction: string)
    | Scientific(lead: char, fraction: string, exp: int)
  {
    predicate Valid() {
      match this
      case Plain(whole, fraction) =>
        && whole != [] && fraction != [] && AllDigits(whole) && AllDigits(fraction)
        && (whole[0] == '0' ==> |whole| == 1) && Mantissa() != 0
      case Scientific(lead, fraction, exp) =>
        IsDigit(lead) && lead != '0' && AllDigits(fraction) && MIN_I32 <= exp <= MAX_I32
    }

    function Digits(): string { match this case Plain(w, f) => w + f case Scientific(l, f, _) => [l] + f }

    function Mantissa(): nat
      requires AllDigits(Digits())
    {
      Val(Digits())
    }

    /** The number the literal denotes. */
    function Value(): Decimal
      requires AllDigits(Digits())
    {
      Norm(Mantissa(), match this case Plain(_, f) => -|f| case Scientific(_, f, x) => x - |f|)
    }

    function Text(): string {
      match this
      case Plain(w, f) => w + "." + f
      case Scientific(l, f, x) => [l] + (if f == [] then [] else "." + f) + "e" + IntText(x)
    }
  }

  /** Digits without redundant zeros, and the exponent of the first one. */
  ghost predicate GoodParts(digits: string, exp: int) {
    && digits != [] && AllDigits(digits) && digits[0] != '0' && digits[|digits| - 1] != '0'
  }

  function PartsValue(digits: string, exp: int): Decimal
    requires AllDigits(digits)
  {
    Norm(Val(digits), exp - |digits| + 1)
  }

  lemma {:induction false} SplitOnceNone(s: string, c: char)
    requires c !in s
    ensures SplitOnce(s, c) == None
  {
    if s != [] { SplitOnceNone(s[1..], c); }
  }

  lemma {:induction false} SplitOnceAt(a: string, c: char, b: string)
    requires c !in a
    ensures SplitOnce(a + [c] + b, c) == Some((a, b))
  {
    var s := a + [c] + b;
    if a == [] {
      assert s[1..] == b;
    } else {
      assert s[1..] == a[1..] + [c] + b;
      SplitOnceAt(a[1..], c, b);
      assert [a[0]] + a[1..] == a;
    }
  }

  lemma NotTrimmed(s: string)
    requires s != [] && IsDigit(s[0]) && IsDigit(s[|s| - 1])
    ensures Trim(s) == s
  {
  }

  lemma ValTrimEnd(s: string)
    requires AllDigits(s)
    ensures AllDigits(TrimEnd(s)) && Val(s) == Val(TrimEnd(s)) * Pow10(|s| - |TrimEnd(s)|)
  {
    hide TrimEnd, Val;
    var r := TrimEnd(s);
    TrimEndFacts(s);
    assert r == s[..|r|];
    ValAppend(r, Zeros(|s| - |r|));
    ValZeros(|s| - |r|);
  }

  lemma ValTrimStart(s: string)
    requires AllDigits(s)
    ensures AllDigits(TrimStart(s)) && Val(s) == Val(TrimStart(s))
  {
    hide TrimStart, Val;
    var r := TrimStart(s);
    TrimStartFacts(s);
    assert r == s[|s| - |r|..];
    ValAppend(Zeros(|s| - |r|), r);
    ValZeros(|s| - |r|);
  }

  /** Dropping trailing zeros and moving the exponent keeps the value. */
  lemma NormTrimEnd(s: string, e: int)
    requires AllDigits(s)
    ensures AllDigits(TrimEnd(s)) && Norm(Val(s), e) == Norm(Val(TrimEnd(s)), e + (|s| - |TrimEnd(s)|))
  {
    hide Norm;
    ValTrimEnd(s);
    NormScale(Val(TrimEnd(s)), e, |s| - |TrimEnd(s)|);
  }

  /** What the printer extracts from `whole.fraction`. */
  lemma PlainParts(l: Literal)
    requires l.Plain? && l.Valid()
    ensures var joined := l.whole + TrimEnd(l.fraction);
            var digits := OrZero(TrimEnd(OrZero(TrimStart(joined))));
            ScientificParts(l.Text())
            == Ok((digits, if l.whole[0] != '0' then |l.whole| - 1
                           else -(|TrimEnd(l.fraction)| - |TrimStart(TrimEnd(l.fraction))| + 1)))
  {
    hide TrimStart, TrimEnd, SplitOnce, Trim, ParseI32, OrZero, Val;
    TrimWhole(l);
    var t := l.Text();
    NotTrimmed(t);
    PlainSplits(l);
  }

  lemma TrimWhole(l: Literal)
    requires l.Plain? && l.Valid()
    ensures TrimStart(l.whole) == if l.whole[0] == '0' then [] else l.whole
    ensures l.whole[0] == '0' ==> TrimStart(l.whole + TrimEnd(l.fraction)) == TrimStart(TrimEnd(l.fraction))
  {
    hide Val, TrimEnd;
    if l.whole[0] == '0' {
      assert l.whole == "0" && l.whole[1..] == [];
      assert (l.whole + TrimEnd(l.fraction))[1..] == TrimEnd(l.fraction);
    }
  }

  lemma PlainSplits(l: Literal)
    requires l.Plain? && l.Valid()
    ensures var t := l.Text();
            SplitOnce(t, 'e') == None && SplitOnce(t, 'E') == None && SplitOnce(t, '.') == Some((l.whole, l.fraction))
  {
    hide SplitOnce;
    var t := l.Text();
    SplitOnceNone(t, 'e');
    SplitOnceNone(t, 'E');
    SplitOnceAt(l.whole, '.', l.fraction);
  }

  lemma TrimStartKeeps(s: string)
    requires s != [] && s[0] != '0'
    ensures TrimStart(s) == s
  {
  }

  lemma TrimEndKeeps(s: string)
    requires s != [] && s[|s| - 1] != '0'
    ensures TrimEnd(s) == s
  {
  }

  lemma {:induction false} TrimEndNonEmpty(s: string)
    requires s != [] && s[0] != '0'
    ensures TrimEnd(s) != [] && TrimEnd(s)[0] == s[0]
  {
    if s[|s| - 1] == '0' { TrimEndNonEmpty(s[..|s| - 1]); }
  }

  /** Digits followed by a fraction whose trailing zeros are dropped. */
  lemma DroppedZeros(whole: string, fraction: string, e: int)
    requires AllDigits(whole) && AllDigits(fraction)
    ensures AllDigits(whole + TrimEnd(fraction))
    ensures Norm(Val(whole + fraction), e)
            == Norm(Val(whole + TrimEnd(fraction)), e + (|fraction| - |TrimEnd(fraction)|))
  {
    hide Norm, Val, TrimEnd;
    var f, z := TrimEnd(fraction), |fraction| - |TrimEnd(fraction)|;
    ValTrimEnd(fraction);
    ValAppend(whole, fraction);
    ValAppend(whole, f);
    Pow10Add(|f|, z);
    Distribute(Val(whole), Pow10(|f|), Pow10(z), Val(f));
    NormScale(Val(whole + f), e, z);
  }

  lemma Distribute(a: nat, p: nat, q: nat, b: nat)
    ensures a * (p * q) + b * q == (a * p + b) * q
  {
  }

  /** The digits of `whole.fraction` when the whole part is not zero. */
  lemma WholeValue(l: Literal)
    requires l.Plain? && l.Valid() && l.whole[0] != '0'
    ensures var joined := l.whole + TrimEnd(l.fraction);
            var digits := OrZero(TrimEnd(OrZero(TrimStart(joined))));
            GoodParts(digits, |l.whole| - 1) && PartsValue(digits, |l.whole| - 1) == l.Value()
  {
    hide Norm, Val, TrimEnd, TrimStart;
    var joined, z := l.whole + TrimEnd(l.fraction), |l.fraction| - |TrimEnd(l.fraction)|;
    DroppedZeros(l.whole, l.fraction, -|l.fraction|);
    TrimStartKeeps(joined);
    NormTrimEnd(joined, z - |l.fraction|);
    TrimEndNonEmpty(joined);
    TrimEndFacts(joined);
  }

  /** The digits of `0.fraction`. */
  lemma FractionValue(l: Literal)
    requires l.Plain? && l.Valid() && l.whole[0] == '0'
    ensures var joined := l.whole + TrimEnd(l.fraction);
            var digits := OrZero(TrimEnd(OrZero(TrimStart(joined))));
            var exp := -(|TrimEnd(l.fraction)| - |TrimStart(TrimEnd(l.fraction))| + 1);
            GoodParts(digits, exp) && PartsValue(digits, exp) == l.Value()
  {
    hide Norm, Val, TrimEnd, TrimStart;
    TrimWhole(l);
    var f := TrimEnd(l.fraction);
    var g := TrimStart(f);
    DroppedZeros(l.whole, l.fraction, -|l.fraction|);
    ValTrimStart(l.whole + f);
    FractionDigits(l);
    assert PartsValue(g, -(|f| - |g| + 1)) == Norm(Val(g), -|f|);
  }

  lemma FractionDigits(l: Literal)
    requires l.Plain? && l.Valid() && l.whole[0] == '0'
    ensures var g := TrimStart(TrimEnd(l.fraction));
            g != [] && AllDigits(g) && g[0] != '0' && g[|g| - 1] != '0' && OrZero(TrimEnd(OrZero(g))) == g
  {
    hide Norm, Val, TrimEnd, TrimStart;
    var f := TrimEnd(l.fraction);
    var g := TrimStart(f);
    assert l.whole == Zeros(1);
    ValAppend(l.whole, l.fraction);
    ValZeros(1);
    ValTrimEnd(l.fraction);
    ValTrimStart(f);
    ValEmpty();
    assert g != [];
    TrimEndFacts(l.fraction);
    TrimStartFacts(f);
    assert g[|g| - 1] == f[|f| - 1];
    TrimEndKeeps(g);
  }

  lemma ValEmpty()
    ensures Val([]) == 0
  {
  }

  /** What the printer extracts from a literal in scientific notation. */
  lemma ScientificLiteralParts(l: Literal)
    requires l.Scientific? && l.Valid()
    ensures var digits := [l.lead] + TrimEnd(l.fraction);
            ScientificParts(l.Text()) == Ok((digits, l.exp)) && GoodParts(digits, l.exp)
  {
    hide TrimStart, TrimEnd, SplitOnce, Trim, ParseI32, Val, IntText;
    var t := l.Text();
    ScientificSplits(l);
    ParseIntText(l.exp);
    var joined := [l.lead] + TrimEnd(l.fraction);
    TrimStartKeeps(joined);
    TrimEndFacts(l.fraction);
    TrimEndKeeps(joined);
    ValTrimEnd(l.fraction);
    if l.fraction == [] { assert TrimEnd([]) == [] by { TrimEndFacts([]); } }
  }

  lemma ScientificSplits(l: Literal)
    requires l.Scientific? && l.Valid()
    ensures var mantissa := [l.lead] + (if l.fraction == [] then [] else "." + l.fraction);
            && l.Text() != [] && Trim(l.Text()) == l.Text()
            && SplitOnce(l.Text(), 'e') == Some((mantissa, IntText(l.exp)))
            && SplitOnce(mantissa, '.') == if l.fraction == [] then None else Some(([l.lead], l.fraction))
  {
    hide SplitOnce, Trim, Val;
    var mantissa, x := [l.lead] + (if l.fraction == [] then [] else "." + l.fraction), IntText(l.exp);
    assert l.Text() == mantissa + "e" + x;
    assert IsDigit(x[|x| - 1]);
    NotTrimmed(l.Text());
    SplitOnceAt(mantissa, 'e', x);
    if l.fraction == [] {
      SplitOnceNone(mantissa, '.');
    } else {
      assert mantissa == [l.lead] + "." + l.fraction;
      SplitOnceAt([l.lead], '.', l.fraction);
    }
  }

  lemma ScientificValue(l: Literal)
    requires l.Scientific? && l.Valid()
    ensures AllDigits([l.lead] + TrimEnd(l.fraction))
    ensures PartsValue([l.lead] + TrimEnd(l.fraction), l.exp) == l.Value()
  {
    hide Norm, Val, TrimEnd;
    DroppedZeros([l.lead], l.fraction, l.exp - |l.fraction|);
  }

  /** Digits and exponent denote exactly the literal's value, without redundant zeros. */
  lemma PartsPreserveValue(l: Literal)
    requires l.Valid()
    ensures var r := ScientificParts(l.Text());
            r.Ok? && GoodParts(r.value.0, r.value.1) && PartsValue(r.value.0, r.value.1) == l.Value()
  {
    hide ScientificParts, Norm, Val, TrimEnd, TrimStart;
    match l
    case Plain(whole, _) =>
      PlainParts(l);
      if whole[0] != '0' { WholeValue(l); } else { FractionValue(l); }
    case Scientific(_, _, _) =>
      ScientificLiteralParts(l);
      ScientificValue(l);
  }

  // -------------------------------------------------------------------------
  // Rendering

  /** Drops zeros after the point, and the point if nothing is left behind it. */
  function TrimDecimal(s: string): string {
    match SplitOnce(s, '.')
    case None => s
    case Some((before, _)) =>
      var t := TrimEnd(s);
      if |t| == |before| + 1 then t[..|before|] else t
  }

  function RenderDecimal(digits: string, exp: int): string {
    var shift := exp - (|digits| - 1);
    if shift >= 0 then digits + Zeros(shift)
    else
      var pos := |digits| + shift;
      if pos > 0 then TrimDecimal(digits[..pos] + "." + digits[pos..])
      else TrimDecimal("0." + Zeros(-pos) + digits)
  }

  function RenderExponential(digits: string, exp: int): string
    requires digits != []
  {
    (if |digits| == 1 then digits else digits[..1] + "." + digits[1..]) + "e" + (if exp >= 0 then "+" else "")
      + IntText(exp)
  }

  /** `d >= 10^k`, in integers. */
  predicate AtLeast(d: Decimal, k: int) {
    if d.exponent >= k then d.mantissa >= 1 else d.mantissa >= Pow10(k - d.exponent)
  }

  /** Outside `[1e-6, 1e21)`. */
  predicate UsesExponent(d: Decimal) { !(AtLeast(d, -6) && !AtLeast(d, 21)) }

  datatype Double = NotFinite | ZeroDouble(negative: bool) | FiniteDouble(negative: bool, literal: Literal)

  datatype Number = IntegerNumber(n: int) | DoubleNumber(d: Double) {
    /** 64-bit integers, signed or unsigned; doubles with a literal in one of the two shapes. */
    predicate Valid() {
      match this
      case IntegerNumber(n) => -0x8000_0000_0000_0000 <= n < 0x1_0000_0000_0000_0000
      case DoubleNumber(d) => d.FiniteDouble? ==> d.literal.Valid()
    }
  }

  function Sign(negative: bool): string { if negative then "-" else "" }

  function DoubleText(d: Double): Result<string, NumberError>
    requires d.FiniteDouble? ==> d.literal.Valid()
  {
    match d
    case NotFinite => Err(NonFinite)
    case ZeroDouble(_) => Ok("0")
    case FiniteDouble(negative, literal) =>
      match ScientificParts(literal.Text())
      case Err(error) => Err(error)
      case Ok((digits, exp)) =>
        if !UsesExponent(literal.Value()) then Ok(Sign(negative) + RenderDecimal(digits, exp))
        else Ok(Sign(negative) + RenderExponential(OrZero(digits), exp))
  }

  function NumberText(n: Number): Result<string, NumberError>
    requires n.Valid()
  {
    match n
    case IntegerNumber(i) => Ok(IntText(i))
    case DoubleNumber(d) => DoubleText(d)
  }

  // -------------------------------------------------------------------------
  // Reading a numeral

  /** A signed decimal value; zero has no sign. */
  datatype Signed = Signed(negative: bool, magnitude: Decimal)

  function MakeSigned(negative: bool, d: Decimal): Signed { Signed(negative && d.mantissa != 0, d) }

  function ReadExponent(s: string): Option<int> {
    var digits := if s != [] && (s[0] == '-' || s[0] == '+') then s[1..] else s;
    if digits == [] || !AllDigits(digits) then None
    else
      var magnitude: int := Val(digits);
      Some(if s[0] == '-' then -magnitude else magnitude)
  }

  function ReadMantissa(s: string, exp: int): Option<Decimal> {
    var (whole, fraction) := match SplitOnce(s, '.') case None => (s, []) case Some((a, b)) => (a, b);
    if whole == [] || !AllDigits(whole) || !AllDigits(fraction) then None
    else Some(Norm(Val(whole + fraction), exp - |fraction|))
  }

  function ReadMagnitude(s: string): Option<Decimal> {
    match SplitOnce(s, 'e')
    case None => ReadMantissa(s, 0)
    case Some((mantissa, exponent)) =>
      match ReadExponent(exponent)
      case None => None
      case Some(exp) => ReadMantissa(mantissa, exp)
  }

  /** The value of a JSON numeral: sign, whole part, optional fraction and exponent. */
  function ReadNumeral(s: string): Option<Signed> {
    var negative := s != [] && s[0] == '-';
    match ReadMagnitude(if negative then s[1..] else s)
    case None => None
    case Some(d) => Some(MakeSigned(negative, d))
  }

  function ValueOf(n: Number): Signed
    requires n.Valid() && n != DoubleNumber(NotFinite)
  {
    match n
    case IntegerNumber(i) => MakeSigned(i < 0, Norm(if i < 0 then -i else i, 0))
    case DoubleNumber(ZeroDouble(_)) => Signed(false, Decimal(0, 0))
    case DoubleNumber(FiniteDouble(negative, literal)) => MakeSigned(negative, literal.Value())
  }

  // -------------------------------------------------------------------------
  // Numerals by their parts

  /** The canonical text of given parts. */
  function PartsText(negative: bool, digits: string, exp: int): string
    requires digits != []
  {
    Sign(negative) + if -6 <= exp <= 20 then RenderDecimal(digits, exp) else RenderExponential(digits, exp)
  }

  lemma NotMultipleOfTen(s: string)
    requires AllDigits(s) && s != [] && s[|s| - 1] != '0'
    ensures Val(s) % 10 != 0
  {
    hide Val;
    assert Val(s) == 10 * Val(s[..|s| - 1]) + DigitValue(s[|s| - 1]) by { ValStep(s); }
    var v, d := Val(s[..|s| - 1]), DigitValue(s[|s| - 1]);
    assert (10 * v + d) % 10 == d;
  }

  lemma ValStep(s: string)
    requires AllDigits(s) && s != []
    ensures Val(s) == 10 * Val(s[..|s| - 1]) + DigitValue(s[|s| - 1])
  {
  }

  /** Good parts are already normal. */
  lemma PartsNormal(digits: string, exp: int)
    requires GoodParts(digits, exp)
    ensures Val(digits) != 0 && PartsValue(digits, exp) == Decimal(Val(digits), exp - |digits| + 1)
  {
    NotMultipleOfTen(digits);
  }

  /** A value has only one pair of good parts. */
  lemma PartsUnique(digits1: string, exp1: int, digits2: string, exp2: int)
    requires GoodParts(digits1, exp1) && GoodParts(digits2, exp2)
    requires PartsValue(digits1, exp1) == PartsValue(digits2, exp2)
    ensures digits1 == digits2 && exp1 == exp2
  {
    PartsNormal(digits1, exp1);
    PartsNormal(digits2, exp2);
    WrittenOnce(digits1, digits2);
  }

  /** Comparing with a power of ten is comparing the exponent of the first digit. */
  lemma AtLeastByExponent(digits: string, exp: int, k: int)
    requires GoodParts(digits, exp)
    ensures AtLeast(PartsValue(digits, exp), k) <==> exp >= k
  {
    hide Val, Norm;
    PartsNormal(digits, exp);
    ValBounds(digits);
    var e := exp - |digits| + 1;
    if e < k {
      if |digits| - 1 >= k - e { Pow10Monotone(k - e, |digits| - 1); } else { Pow10Monotone(|digits|, k - e); }
    }
  }

  /** Exponent form exactly outside `[1e-6, 1e21)`. */
  lemma ExponentFormExactly(digits: string, exp: int)
    requires GoodParts(digits, exp)
    ensures UsesExponent(PartsValue(digits, exp)) <==> !(-6 <= exp <= 20)
  {
    hide AtLeast;
    AtLeastByExponent(digits, exp, -6);
    AtLeastByExponent(digits, exp, 21);
  }

  /** The printer's text of a finite double is the canonical text of the parts of its value. */
  lemma DoubleTextByParts(negative: bool, literal: Literal) returns (digits: string, exp: int)
    requires literal.Valid()
    ensures GoodParts(digits, exp) && PartsValue(digits, exp) == literal.Value()
    ensures DoubleText(FiniteDouble(negative, literal)) == Ok(PartsText(negative, digits, exp))
  {
    hide ScientificParts, RenderDecimal, RenderExponential, UsesExponent, Literal.Text, Literal.Value, Literal.Valid;
    PartsPreserveValue(literal);
    digits, exp := ScientificParts(literal.Text()).value.0, ScientificParts(literal.Text()).value.1;
    ExponentFormExactly(digits, exp);
  }

  /** The text of a non-zero integer is the canonical text of the parts of its value. */
  lemma IntTextByParts(i: int) returns (digits: string, exp: int)
    requires i != 0 && -0x8000_0000_0000_0000 <= i < 0x1_0000_0000_0000_0000
    ensures GoodParts(digits, exp) && PartsValue(digits, exp) == Norm(if i < 0 then -i else i, 0)
    ensures IntText(i) == PartsText(i < 0, digits, exp)
  {
    hide Val, Norm, TrimEnd, NatText, Pow10;
    var text := NatText(if i < 0 then -i else i);
    digits, exp := TrimEnd(text), |text| - 1;
    TrimEndNonEmpty(text);
    TrimEndFacts(text);
    NormTrimEnd(text, 0);
    ShortInteger(text);
    assert RenderDecimal(digits, exp) == text;
  }

  lemma ShortInteger(text: string)
    requires AllDigits(text) && text != [] && text[0] != '0' && Val(text) < 0x1_0000_0000_0000_0000
    ensures |text| <= 20
  {
    hide Val;
    ValBounds(text);
    assert Pow10(20) > 0x1_0000_0000_0000_0000 by {
      assert Pow10(1) == 10 && Pow10(2) == 100;
      Pow10Add(2, 2);
      Pow10Add(4, 1);
      Pow10Add(5, 5);
      Pow10Add(10, 10);
    }
    if |text| > 20 { Pow10Monotone(20, |text| - 1); }
  }

  // -------------------------------------------------------------------------
  // Reading back

  lemma TrimDecimalKeeps(before: string, after: string)
    requires AllDigits(before) && AllDigits(after) && after != [] && after[|after| - 1] != '0'
    ensures TrimDecimal(before + "." + after) == before + "." + after
  {
    hide TrimEnd, SplitOnce;
    var s := before + "." + after;
    SplitOnceAt(before, '.', after);
    TrimEndKeeps(s);
  }

  /** The three ways a decimal is rendered: an integer, a point among the digits, a point before them. */
  lemma RenderCases(digits: string, exp: int)
    requires GoodParts(digits, exp)
    ensures var shift := exp - (|digits| - 1);
            var pos := |digits| + shift;
            RenderDecimal(digits, exp)
            == if shift >= 0 then digits + Zeros(shift)
               else if pos > 0 then digits[..pos] + "." + digits[pos..]
               else "0" + "." + (Zeros(-pos) + digits)
  {
    hide TrimDecimal;
    var pos := exp + 1;
    if exp < |digits| - 1 {
      if pos > 0 {
        TrimDecimalKeeps(digits[..pos], digits[pos..]);
      } else {
        TrimDecimalKeeps("0", Zeros(-pos) + digits);
        assert "0." + Zeros(-pos) + digits == "0" + "." + (Zeros(-pos) + digits);
      }
    }
  }

  lemma IntegralValue(digits: string, shift: nat)
    requires AllDigits(digits)
    ensures AllDigits(digits + Zeros(shift)) && Norm(Val(digits + Zeros(shift)), 0) == Norm(Val(digits), shift)
  {
    hide Norm, Val;
    ValAppend(digits, Zeros(shift));
    ValZeros(shift);
    NormScale(Val(digits), 0, shift);
  }

  lemma PaddedValue(digits: string, k: nat)
    requires AllDigits(digits)
    ensures AllDigits("0" + (Zeros(k) + digits)) && Val("0" + (Zeros(k) + digits)) == Val(digits)
  {
    hide Val;
    ValAppend(Zeros(k + 1), digits);
    ValZeros(k + 1);
    assert "0" + (Zeros(k) + digits) == Zeros(k + 1) + digits;
  }

  /** A rendered decimal, piece by piece: whole part and fraction. */
  lemma DecimalPieces(digits: string, exp: int) returns (whole: string, fraction: string)
    requires GoodParts(digits, exp)
    ensures RenderDecimal(digits, exp) == whole + if fraction == [] then [] else "." + fraction
    ensures AllDigits(whole) && AllDigits(fraction) && whole != [] && (whole[0] == '0' ==> |whole| == 1)
    ensures fraction != [] ==> fraction[|fraction| - 1] != '0'
    ensures Norm(Val(whole + fraction), -|fraction|) == PartsValue(digits, exp)
  {
    hide RenderDecimal, Norm, Val;
    RenderCases(digits, exp);
    var pos := exp + 1;
    if pos >= |digits| {
      whole, fraction := digits + Zeros(pos - |digits|), [];
      IntegralValue(digits, pos - |digits|);
      assert whole + fraction == whole;
    } else {
      if pos > 0 {
        whole, fraction := digits[..pos], digits[pos..];
        assert whole + fraction == digits;
      } else {
        whole, fraction := "0", Zeros(-pos) + digits;
        PaddedValue(digits, -pos);
      }
      assert whole + "." + fraction == whole + ("." + fraction);
    }
  }

  /** A numeral in exponent form, piece by piece. */
  lemma ExponentialPieces(digits: string, exp: int) returns (whole: string, fraction: string)
    requires GoodParts(digits, exp)
    ensures RenderExponential(digits, exp)
            == whole + (if fraction == [] then [] else "." + fraction) + "e"
              + ((if exp >= 0 then "+" else "") + IntText(exp))
    ensures AllDigits(whole) && AllDigits(fraction) && |whole| == 1 && whole != "0"
    ensures fraction != [] ==> fraction[|fraction| - 1] != '0'
    ensures Norm(Val(whole + fraction), exp - |fraction|) == PartsValue(digits, exp)
  {
    hide Norm, Val, IntText;
    whole, fraction := digits[..1], digits[1..];
    assert whole + fraction == digits;
    if fraction == [] { assert whole == digits; }
    assert whole + "." + fraction == whole + ("." + fraction);
  }

  lemma MantissaReads(whole: string, fraction: string, exp: int)
    requires AllDigits(whole) && AllDigits(fraction) && whole != []
    ensures ReadMantissa(whole + (if fraction == [] then [] else "." + fraction), exp)
            == Some(Norm(Val(whole + fraction), exp - |fraction|))
  {
    hide SplitOnce, Norm, Val;
    if fraction == [] {
      SplitOnceNone(whole, '.');
      assert whole + [] == whole;
    } else {
      assert whole + ("." + fraction) == whole + "." + fraction;
      SplitOnceAt(whole, '.', fraction);
    }
  }

  lemma ExponentReads(exp: int)
    ensures ReadExponent((if exp >= 0 then "+" else "") + IntText(exp)) == Some(exp)
  {
    hide Val;
    var t := IntText(exp);
    if exp >= 0 { assert ("+" + t)[1..] == t; } else { assert "" + t == t && t[1..] == NatText(-exp); }
  }

  lemma DecimalReads(digits: string, exp: int)
    requires GoodParts(digits, exp)
    ensures ReadMagnitude(RenderDecimal(digits, exp)) == Some(PartsValue(digits, exp))
    ensures RenderDecimal(digits, exp) != [] && IsDigit(RenderDecimal(digits, exp)[0])
  {
    hide RenderDecimal, SplitOnce, Norm, Val, ReadMantissa, PartsValue;
    var whole, fraction := DecimalPieces(digits, exp);
    var t := RenderDecimal(digits, exp);
    SplitOnceNone(t, 'e');
    MantissaReads(whole, fraction, 0);
  }

  lemma ExponentialReads(digits: string, exp: int)
    requires GoodParts(digits, exp)
    ensures ReadMagnitude(RenderExponential(digits, exp)) == Some(PartsValue(digits, exp))
    ensures RenderExponential(digits, exp) != [] && IsDigit(RenderExponential(digits, exp)[0])
  {
    hide RenderExponential, SplitOnce, Norm, Val, ReadMantissa, ReadExponent, PartsValue, IntText;
    var whole, fraction := ExponentialPieces(digits, exp);
    var mantissa := whole + (if fraction == [] then [] else "." + fraction);
    var x := (if exp >= 0 then "+" else "") + IntText(exp);
    SplitOnceAt(mantissa, 'e', x);
    MantissaReads(whole, fraction, exp);
    ExponentReads(exp);
  }

  /** The canonical text of parts reads as their value. */
  lemma PartsTextReads(negative: bool, digits: string, exp: int)
    requires GoodParts(digits, exp)
    ensures ReadNumeral(PartsText(negative, digits, exp)) == Some(MakeSigned(negative, PartsValue(digits, exp)))
  {
    hide ReadMagnitude, RenderDecimal, RenderExponential, PartsValue;
    var body := if -6 <= exp <= 20 then RenderDecimal(digits, exp) else RenderExponential(digits, exp);
    DecimalReads(digits, exp);
    ExponentialReads(digits, exp);
    assert PartsText(negative, digits, exp) == Sign(negative) + body;
    if negative { assert ("-" + body)[1..] == body; } else { assert "" + body == body; }
  }

  lemma ZeroReads()
    ensures ReadNumeral("0") == Some(Signed(false, Decimal(0, 0)))
  {
    SplitOnceNone("0", 'e');
    SplitOnceNone("0", '.');
    assert "0" + [] == Zeros(1);
    ValZeros(1);
  }

  lemma IntegerByParts(i: int) returns (digits: string, exp: int)
    requires IntegerNumber(i).Valid() && i != 0
    ensures GoodParts(digits, exp) && PartsValue(digits, exp) == ValueOf(IntegerNumber(i)).magnitude
    ensures NumberText(IntegerNumber(i)) == Ok(PartsText(ValueOf(IntegerNumber(i)).negative, digits, exp))
  {
    hide PartsText, PartsValue, IntText;
    digits, exp := IntTextByParts(i);
  }

  lemma DoubleByParts(negative: bool, literal: Literal) returns (digits: string, exp: int)
    requires literal.Valid()
    ensures var n := DoubleNumber(FiniteDouble(negative, literal));
            && GoodParts(digits, exp) && PartsValue(digits, exp) == ValueOf(n).magnitude
            && ValueOf(n).magnitude.mantissa != 0
            && NumberText(n) == Ok(PartsText(ValueOf(n).negative, digits, exp))
  {
    hide PartsText, DoubleText, Norm, Literal.Valid, Val;
    digits, exp := DoubleTextByParts(negative, literal);
    PartsNormal(digits, exp);
  }

  /** Either the number is zero and prints as "0", or its text is that of the parts of its value. */
  lemma TextByParts(n: Number) returns (digits: string, exp: int)
    requires n.Valid() && n != DoubleNumber(NotFinite)
    ensures NumberText(n).Ok?
    ensures ValueOf(n).magnitude.mantissa == 0
            ==> NumberText(n) == Ok("0") && ValueOf(n) == Signed(false, Decimal(0, 0))
    ensures ValueOf(n).magnitude.mantissa != 0 ==>
              && GoodParts(digits, exp) && PartsValue(digits, exp) == ValueOf(n).magnitude
              && NumberText(n) == Ok(PartsText(ValueOf(n).negative, digits, exp))
  {
    digits, exp := [], 0;
    if n == IntegerNumber(0) || (n.DoubleNumber? && n.d.ZeroDouble?) {
      ZeroText(n);
    } else {
      hide NumberText, PartsText, PartsValue, ValueOf, Literal.Valid;
      match n
      case IntegerNumber(i) => digits, exp := IntegerByParts(i);
      case DoubleNumber(FiniteDouble(negative, literal)) => digits, exp := DoubleByParts(negative, literal);
    }
  }

  lemma ZeroText(n: Number)
    requires n == IntegerNumber(0) || (n.DoubleNumber? && n.d.ZeroDouble?)
    ensures NumberText(n) == Ok("0") && ValueOf(n) == Signed(false, Decimal(0, 0))
  {
  }

  /** A printed numeral denotes exactly the number it was printed from. */
  lemma NumberTextReads(n: Number)
    requires n.Valid() && n != DoubleNumber(NotFinite)
    ensures NumberText(n).Ok? && ReadNumeral(NumberText(n).value) == Some(ValueOf(n))
  {
    hide NumberText, ReadNumeral, PartsText, PartsValue, ValueOf;
    var digits, exp := TextByParts(n);
    if ValueOf(n).magnitude.mantissa == 0 {
      ZeroReads();
    } else {
      PartsTextReads(ValueOf(n).negative, digits, exp);
      SignKept(n);
    }
  }

  lemma SignKept(n: Number)
    requires n.Valid() && n != DoubleNumber(NotFinite)
    ensures MakeSigned(ValueOf(n).negative, ValueOf(n).magnitude) == ValueOf(n)
  {
  }

  /** Numbers print alike exactly when they are equal in value. */
  lemma SameTextSameValue(a: Number, b: Number)
    requires a.Valid() && b.Valid() && a != DoubleNumber(NotFinite) && b != DoubleNumber(NotFinite)
    ensures NumberText(a) == NumberText(b) <==> ValueOf(a) == ValueOf(b)
  {
    hide NumberText, ReadNumeral, PartsText, PartsValue, ValueOf;
    NumberTextReads(a);
    NumberTextReads(b);
    var da, xa := TextByParts(a);
    var db, xb := TextByParts(b);
    if ValueOf(a) == ValueOf(b) && ValueOf(a).magnitude.mantissa != 0 { PartsUnique(da, xa, db, xb); }
  }

  // -------------------------------------------------------------------------
  // Shape of a numeral

  predicate IsNumeralChar(c: char) { IsDigit(c) || c == '-' || c == '+' || c == '.' || c == 'e' }

  predicate AllNumeral(s: string) { forall i | 0 <= i < |s| :: IsNumeralChar(s[i]) }

  /** Sign, whole part, fraction and exponent of a numeral without redundant zeros. */
  ghost predicate IsMinimal(t: string, negative: bool, whole: string, fraction: string, exponent: string) {
    && t == Sign(negative) + (whole + (if fraction == [] then [] else "." + fraction) + exponent)
    && AllDigits(whole) && AllDigits(fraction) && whole != [] && (whole[0] == '0' ==> |whole| == 1)
    && (fraction != [] ==> fraction[|fraction| - 1] != '0')
    && (exponent != [] ==>
          && |whole| == 1 && whole != "0" && |exponent| > 2 && exponent[0] == 'e'
          && (exponent[1] == '+' || exponent[1] == '-')
          && AllDigits(exponent[2..]) && exponent[2] != '0')
  }

  lemma ExponentShape(exp: int)
    requires exp != 0
    ensures var x := "e" + ((if exp >= 0 then "+" else "") + IntText(exp));
            |x| > 2 && x[0] == 'e' && (x[1] == '+' || x[1] == '-') && AllDigits(x[2..]) && x[2] != '0'
  {
    hide Val;
    var x := "e" + ((if exp >= 0 then "+" else "") + IntText(exp));
    assert x[2..] == NatText(if exp >= 0 then exp else -exp);
  }

  lemma PartsMinimal(
    negative: bool, digits: string, exp: int)
    returns (whole: string, fraction: string, exponent: string)
    requires GoodParts(digits, exp)
    ensures IsMinimal(PartsText(negative, digits, exp), negative, whole, fraction, exponent)
    ensures exponent != [] <==> UsesExponent(PartsValue(digits, exp))
  {
    hide RenderDecimal, RenderExponential, IntText, UsesExponent, PartsValue, Val, Norm;
    ExponentFormExactly(digits, exp);
    if -6 <= exp <= 20 {
      whole, fraction := DecimalPieces(digits, exp);
      exponent := [];
      assert RenderDecimal(digits, exp) == RenderDecimal(digits, exp) + exponent;
    } else {
      whole, fraction := ExponentialPieces(digits, exp);
      exponent := "e" + ((if exp >= 0 then "+" else "") + IntText(exp));
      ExponentShape(exp);
      var mantissa := whole + (if fraction == [] then [] else "." + fraction);
      assert mantissa + "e" + ((if exp >= 0 then "+" else "") + IntText(exp)) == mantissa + exponent;
    }
  }

  /** A printed numeral has no redundant zeros, and an exponent exactly if the number is outside
      `[1e-6, 1e21)`. */
  lemma NumeralIsMinimal(n: Number) returns (whole: string, fraction: string, exponent: string)
    requires n.Valid() && n != DoubleNumber(NotFinite)
    ensures NumberText(n).Ok? && IsMinimal(NumberText(n).value, ValueOf(n).negative, whole, fraction, exponent)
    ensures exponent != [] <==> ValueOf(n).magnitude.mantissa != 0 && UsesExponent(ValueOf(n).magnitude)
  {
    hide NumberText, PartsText, PartsValue, ValueOf, UsesExponent;
    var digits, exp := TextByParts(n);
    if ValueOf(n).magnitude.mantissa == 0 {
      whole, fraction, exponent := "0", [], [];
    } else {
      whole, fraction, exponent := PartsMinimal(ValueOf(n).negative, digits, exp);
    }
  }

  lemma NumeralChars(n: Number)
    requires n.Valid() && n != DoubleNumber(NotFinite)
    ensures NumberText(n).Ok?
    ensures var t := NumberText(n).value; t != [] && AllNumeral(t) && (IsDigit(t[0]) || t[0] == '-')
  {
    hide NumberText, ValueOf, UsesExponent;
    var whole, fraction, exponent := NumeralIsMinimal(n);
    var f := if fraction == [] then [] else "." + fraction;
    assert AllNumeral(f) && AllNumeral(whole);
    assert AllNumeral(exponent) by {
      if exponent != [] { assert forall i | 2 <= i < |exponent| :: exponent[i] == exponent[2..][i - 2]; }
    }
  }

  // -------------------------------------------------------------------------
  // The loops of the printer

  /** Pops trailing zeros behind a point, and then a bare point. */
  method TrimDecimalInPlace(text: string) returns (rendered: string)
    ensures rendered == TrimDecimal(text)
  {
    rendered := text;
    var split := SplitOnce(text, '.');
    if split.Some? {
      var dot := |split.value.0|;
      while rendered != [] && rendered[|rendered| - 1] == '0'
        invariant TrimEnd(rendered) == TrimEnd(text)
        decreases |rendered|
      {
        rendered := rendered[..|rendered| - 1];
      }
      if |rendered| == dot + 1 { rendered := rendered[..|rendered| - 1]; }
    }
  }
}
