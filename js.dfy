/**
  The part of JavaScript's value semantics that the dashboard's data code relies on:
  JSON-like values, truthiness (what `if (v)` and `a || b` test), property access with
  optional chaining, the `Number(...)` and `parseInt(..., 10)` coercions, the arithmetic
  results NaN and Infinity, and integer-to-text conversion.

  Numbers are exact reals: the rounding of binary floating point is not modelled.
*/
module Js {
  import opened Wrappers

  /** A JavaScript value as it can appear in a parsed JSON payload, plus `undefined`. */
  datatype Value =
    | Undef
    | Null
    | Bool(b: bool)
    | Num(n: real)
    | Str(s: string)
    | Arr(items: seq<Value>)
    | Obj(fields: map<string, Value>)

  /** JavaScript truthiness. `0`, `""`, `null`, `undefined` and `false` are falsy. */
  predicate Truthy(v: Value)
  {
    match v
    case Undef => false
    case Null => false
    case Bool(b) => b
    case Num(n) => n != 0.0
    case Str(s) => s != ""
    case Arr(_) => true
    case Obj(_) => true
  }

  predicate Nullish(v: Value)
  {
    v.Undef? || v.Null?
  }

  /** `typeof v === 'object'`, which holds for `null` as well. */
  predicate IsObjectType(v: Value)
  {
    v.Null? || v.Arr? || v.Obj?
  }

  /**
    `v?.key`. Property access on anything but an object yields `undefined` for the
    field names the dashboard reads (none of them is `length` or an index).
  */
  function Get(v: Value, key: string): Value
  {
    if v.Obj? && key in v.fields then v.fields[key] else Undef
  }

  /** A chain of property names, read with optional chaining: `v?.a?.b?.c`. */
  type Path = seq<string>

  function GetPath(v: Value, p: Path): Value
    decreases |p|
  {
    if p == [] then v else GetPath(Get(v, p[0]), p[1..])
  }

  /** `a || b` */
  function Or(a: Value, b: Value): Value
  {
    if Truthy(a) then a else b
  }

  /**
    `v.p0 || v.p1 || ... || fallback`: the value at the first candidate path that is
    truthy, or the fallback when none is.
  */
  function FirstTruthy(v: Value, candidates: seq<Path>, fallback: Value): Value
    decreases |candidates|
  {
    if candidates == [] then fallback
    else Or(GetPath(v, candidates[0]), FirstTruthy(v, candidates[1..], fallback))
  }

  /** When candidate k is the first truthy one, the chain yields exactly its value. */
  lemma {:induction false} FirstTruthyPicksFirst(v: Value, candidates: seq<Path>, fallback: Value, k: nat)
    requires k < |candidates|
    requires Truthy(GetPath(v, candidates[k]))
    requires forall j :: 0 <= j < k ==> !Truthy(GetPath(v, candidates[j]))
    ensures FirstTruthy(v, candidates, fallback) == GetPath(v, candidates[k])
  {
    if k > 0 {
      assert !Truthy(GetPath(v, candidates[0]));
      FirstTruthyPicksFirst(v, candidates[1..], fallback, k - 1);
    }
  }

  /** When no candidate is truthy, the chain yields the fallback. */
  lemma {:induction false} FirstTruthyFallsBack(v: Value, candidates: seq<Path>, fallback: Value)
    requires forall j :: 0 <= j < |candidates| ==> !Truthy(GetPath(v, candidates[j]))
    ensures FirstTruthy(v, candidates, fallback) == fallback
  {
    if candidates != [] {
      assert !Truthy(GetPath(v, candidates[0]));
      FirstTruthyFallsBack(v, candidates[1..], fallback);
    }
  }

  /** The result of the chain is one of its candidates or the fallback, and it is truthy unless it is the fallback. */
  lemma {:induction false} FirstTruthyIsCandidate(v: Value, candidates: seq<Path>, fallback: Value)
    ensures var r := FirstTruthy(v, candidates, fallback);
      r == fallback || (Truthy(r) && exists k :: 0 <= k < |candidates| && r == GetPath(v, candidates[k]))
  {
    if candidates != [] {
      FirstTruthyIsCandidate(v, candidates[1..], fallback);
      var r := FirstTruthy(v, candidates, fallback);
      if Truthy(GetPath(v, candidates[0])) {
        assert r == GetPath(v, candidates[0]);
      } else if r != fallback {
        var k :| 0 <= k < |candidates[1..]| && r == GetPath(v, candidates[1..][k]);
        assert r == GetPath(v, candidates[k + 1]);
      }
    }
  }

  /** The message of the TypeError raised by reading property `key` of `null` or `undefined`. */
  function NullRead(v: Value, key: string): string
  {
    "Cannot read properties of " + (if v.Null? then "null" else "undefined") + " (reading '" + key + "')"
  }

  // ---------------------------------------------------------------------------
  // Numbers

  /** A computed JavaScript number: a finite value, NaN, or one of the infinities. */
  datatype Number = NaN | Finite(r: real) | Infinity(positive: bool)

  /** The whitespace that `Number(...)`, `parseInt` and `trim` skip. */
  predicate IsSpace(c: char)
  {
    c == ' ' || c == '\t' || c == '\n' || c == '\r' || c == '\U{000B}' || c == '\U{000C}'
    || c == '\U{00A0}' || c == '\U{1680}' || ('\U{2000}' <= c <= '\U{200A}')
    || c == '\U{2028}' || c == '\U{2029}' || c == '\U{202F}' || c == '\U{205F}'
    || c == '\U{3000}' || c == '\U{FEFF}'
  }

  predicate IsDigit(c: char)
  {
    '0' <= c <= '9'
  }

  predicate AllDigits(s: string)
  {
    forall i :: 0 <= i < |s| ==> IsDigit(s[i])
  }

  function DigitValue(c: char): nat
    requires IsDigit(c)
  {
    (c as int - '0' as int) as nat
  }

  /** The value of a string of decimal digits, most significant first. */
  function DigitsValue(s: string): nat
    requires AllDigits(s)
    decreases |s|
  {
    if s == [] then 0 else DigitsValue(s[..|s| - 1]) * 10 + DigitValue(s[|s| - 1])
  }

  function Pow10(k: nat): (r: nat)
    ensures r >= 1
  {
    if k == 0 then 1 else 10 * Pow10(k - 1)
  }

  function TrimStart(s: string): (r: string)
    ensures |r| <= |s| && r == s[|s| - |r|..]
    ensures r != [] ==> !IsSpace(r[0])
    decreases |s|
  {
    if s != [] && IsSpace(s[0]) then TrimStart(s[1..]) else s
  }

  function TrimEnd(s: string): (r: string)
    ensures |r| <= |s| && r == s[..|r|]
    ensures r != [] ==> !IsSpace(r[|r| - 1])
    decreases |s|
  {
    if s != [] && IsSpace(s[|s| - 1]) then TrimEnd(s[..|s| - 1]) else s
  }

  function Trim(s: string): string
  {
    TrimEnd(TrimStart(s))
  }

  /** The position of the first occurrence of `c` in `s`. */
  function IndexOf(s: string, c: char): (r: Option<nat>)
    ensures r.Some? ==> r.value < |s| && s[r.value] == c && forall j :: 0 <= j < r.value ==> s[j] != c
    ensures r.None? ==> forall j :: 0 <= j < |s| ==> s[j] != c
    decreases |s|
  {
    if s == [] then None
    else if s[0] == c then Some(0)
    else match IndexOf(s[1..], c)
      case None => None
      case Some(i) => Some(i + 1)
  }

  /** An unsigned decimal literal `digits`, `digits.digits`, `digits.` or `.digits`. */
  function UnsignedDecimal(t: string): Option<real>
  {
    match IndexOf(t, '.')
    case None =>
      if t != [] && AllDigits(t) then Some(DigitsValue(t) as real) else None
    case Some(i) =>
      var whole, frac := t[..i], t[i + 1..];
      if AllDigits(whole) && AllDigits(frac) && |whole| + |frac| > 0
      then Some(DigitsValue(whole) as real + DigitsValue(frac) as real / Pow10(|frac|) as real)
      else None
  }

  /** A decimal literal with an optional sign. */
  function SignedDecimal(t: string): Option<real>
  {
    if t != [] && t[0] == '-' then
      match UnsignedDecimal(t[1..])
      case None => None
      case Some(x) => Some(-x)
    else if t != [] && t[0] == '+' then UnsignedDecimal(t[1..])
    else UnsignedDecimal(t)
  }

  /**
    `Number(s)` for a string: surrounding whitespace is ignored, the empty string is 0,
    a decimal literal is its value, anything else is NaN.
  */
  function StringToNumber(s: string): (r: Number)
    ensures !r.Infinity?
  {
    var t := Trim(s);
    if t == [] then Finite(0.0)
    else match SignedDecimal(t)
      case Some(x) => Finite(x)
      case None => NaN
  }

  /** `Number(v)`, the coercion behind `isNaN`, `>=`, `/` and `.map(Number)`. */
  function ToNumber(v: Value): (r: Number)
    ensures !r.Infinity?
  {
    match v
    case Undef => NaN
    case Null => Finite(0.0)
    case Bool(b) => Finite(if b then 1.0 else 0.0)
    case Num(n) => Finite(n)
    case Str(s) => StringToNumber(s)
    case Obj(_) => NaN
    case Arr(xs) =>
      // an array converts through its comma-joined text
      if |xs| == 0 then Finite(0.0)
      else if |xs| > 1 then NaN
      else if Nullish(xs[0]) then Finite(0.0)
      else if xs[0].Bool? then NaN
      else ToNumber(xs[0])
  }

  /** `isNaN(v)` */
  predicate IsNaN(v: Value)
  {
    ToNumber(v).NaN?
  }

  /** The longest prefix of `s` made of decimal digits. */
  function DigitPrefix(s: string): (r: string)
    ensures AllDigits(r) && |r| <= |s| && r == s[..|r|]
    ensures |r| < |s| ==> !IsDigit(s[|r|])
    decreases |s|
  {
    if s != [] && IsDigit(s[0]) then [s[0]] + DigitPrefix(s[1..]) else []
  }

  /**
    `parseInt(s, 10)`: leading whitespace and one sign are skipped, the longest run of
    digits that follows is read, and NaN results when there is none.
  */
  function ParseInt(s: string): (r: Number)
    ensures !r.Infinity?
  {
    ParseSigned(TrimStart(s))
  }

  /** `parseInt` of a text that starts after the whitespace. */
  function ParseSigned(u: string): (r: Number)
    ensures !r.Infinity?
  {
    var negative := u != [] && u[0] == '-';
    var rest := if u != [] && (u[0] == '-' || u[0] == '+') then u[1..] else u;
    var digits := DigitPrefix(rest);
    if digits == [] then NaN
    else if negative then Finite(-(DigitsValue(digits) as real))
    else Finite(DigitsValue(digits) as real)
  }

  lemma TrimStartNoSpace(s: string)
    requires s == [] || !IsSpace(s[0])
    ensures TrimStart(s) == s
  {
  }

  /** The digit run at the head of `d + tail` is `d` when `tail` does not start with a digit. */
  lemma {:induction false} DigitPrefixOf(d: string, tail: string)
    requires AllDigits(d)
    requires tail == [] || !IsDigit(tail[0])
    ensures DigitPrefix(d + tail) == d
    decreases |d|
  {
    if d == [] {
      assert d + tail == tail;
    } else {
      assert (d + tail)[1..] == d[1..] + tail;
      DigitPrefixOf(d[1..], tail);
    }
  }

  /**
    `parseInt` reads the digits at the head of its text up to the first character that
    is not a digit, and ignores the rest of the text.
  */
  lemma ParseIntLeadingDigits(d: string, tail: string)
    requires d != [] && AllDigits(d)
    requires tail == [] || !IsDigit(tail[0])
    ensures ParseInt(d + tail) == Finite(DigitsValue(d) as real)
  {
    var s := d + tail;
    assert s[0] == d[0];
    TrimStartNoSpace(s);
    DigitPrefixOf(d, tail);
    ParseSignedDigits(s, d);
  }

  /** The same after a minus sign, which negates the value. */
  lemma ParseIntNegativeDigits(d: string, tail: string)
    requires d != [] && AllDigits(d)
    requires tail == [] || !IsDigit(tail[0])
    ensures ParseInt("-" + d + tail) == Finite(-(DigitsValue(d) as real))
  {
    var rest := d + tail;
    var s := ['-'] + rest;
    assert "-" + d + tail == s;
    TrimStartNoSpace(s);
    DigitPrefixOf(d, tail);
    ParseSignedMinus(rest, d);
  }

  lemma ParseSignedDigits(s: string, d: string)
    requires s != [] && IsDigit(s[0])
    requires d != [] && DigitPrefix(s) == d
    ensures ParseSigned(s) == Finite(DigitsValue(d) as real)
  {
    assert DigitsValue(DigitPrefix(s)) == DigitsValue(d);
  }

  lemma ParseSignedMinus(rest: string, d: string)
    requires d != [] && DigitPrefix(rest) == d
    ensures ParseSigned(['-'] + rest) == Finite(-(DigitsValue(d) as real))
  {
    assert (['-'] + rest)[1..] == rest;
    assert DigitsValue(DigitPrefix(rest)) == DigitsValue(d);
  }

  /** `parseInt` is NaN when no digit follows the optional sign. */
  lemma ParseIntNoDigits(sign: string, tail: string)
    requires sign == "" || sign == "-" || sign == "+"
    requires tail == [] || !IsDigit(tail[0])
    requires sign == "" && tail != [] ==> !IsSpace(tail[0]) && tail[0] != '-' && tail[0] != '+'
    ensures ParseInt(sign + tail).NaN?
  {
    if sign == "" {
      assert sign + tail == tail;
      ParseIntNoDigitsUnsigned(tail);
    } else {
      assert sign + tail == [sign[0]] + tail;
      ParseIntNoDigitsSigned(sign[0], tail);
    }
  }

  lemma ParseIntNoDigitsUnsigned(tail: string)
    requires tail == [] || (!IsDigit(tail[0]) && !IsSpace(tail[0]) && tail[0] != '-' && tail[0] != '+')
    ensures ParseInt(tail).NaN?
  {
    TrimStartNoSpace(tail);
    assert DigitPrefix(tail) == [];
  }

  lemma ParseIntNoDigitsSigned(c: char, tail: string)
    requires c == '-' || c == '+'
    requires tail == [] || !IsDigit(tail[0])
    ensures ParseInt([c] + tail).NaN?
  {
    var s := [c] + tail;
    calc {
      ParseInt(s);
      ParseSigned(TrimStart(s));
      { TrimStartNoSpace(s); }
      ParseSigned(s);
      { assert s[0] == c && s[1..] == tail && DigitPrefix(tail) == []; }
      NaN;
    }
  }

  /** Leading whitespace does not change what `parseInt` reads. */
  lemma ParseIntSkipsSpace(w: string, s: string)
    requires forall i :: 0 <= i < |w| ==> IsSpace(w[i])
    ensures ParseInt(w + s) == ParseInt(s)
  {
    TrimStartSkipsSpace(w, s);
  }

  lemma {:induction false} TrimStartSkipsSpace(w: string, s: string)
    requires forall i :: 0 <= i < |w| ==> IsSpace(w[i])
    ensures TrimStart(w + s) == TrimStart(s)
    decreases |w|
  {
    if w != [] {
      assert IsSpace((w + s)[0]);
      assert (w + s)[1..] == w[1..] + s;
      TrimStartSkipsSpace(w[1..], s);
    } else {
      assert w + s == s;
    }
  }

  /** `parseInt` of the decimal text of an integer gives the integer back. */
  lemma ParseIntOfText(k: int)
    ensures ParseInt(IntToString(k)) == Finite(k as real)
  {
    if k < 0 {
      var n: nat := -k;
      assert IntToString(k) == "-" + NatToString(n);
      ParseIntOfNegative(n);
    } else {
      assert IntToString(k) == NatToString(k);
      ParseIntOfNatText(k);
    }
  }

  lemma ParseIntOfNatText(n: nat)
    ensures ParseInt(NatToString(n)) == Finite(n as real)
  {
    var d := NatToString(n);
    assert d + [] == d;
    ParseIntLeadingDigits(d, []);
    NatToStringValue(n);
    assert DigitsValue(d) == n;
  }

  lemma ParseIntOfNegative(n: nat)
    ensures ParseInt("-" + NatToString(n)) == Finite(-(n as real))
  {
    var d := NatToString(n);
    assert "-" + d + [] == "-" + d;
    ParseIntNegativeDigits(d, []);
    NatToStringValue(n);
    assert DigitsValue(d) == n;
  }

  /** Truncation toward zero. */
  function Trunc(x: real): int
  {
    if x >= 0.0 then x.Floor else -((-x).Floor)
  }

  /**
    `parseInt(String(v), 10)`. `String(v)` of `undefined`, `null`, booleans and objects
    starts with a letter or `[`, so it never parses; an array reads as the text of its
    first element (the comma that follows ends the digits).
  */
  function ParseIntOf(v: Value): (r: Number)
    ensures !r.Infinity?
  {
    match v
    case Undef => NaN
    case Null => NaN
    case Bool(_) => NaN
    case Obj(_) => NaN
    case Num(n) => Finite(Trunc(n) as real)
    case Str(s) => ParseInt(s)
    case Arr(xs) => if xs == [] || Nullish(xs[0]) then NaN else ParseIntOf(xs[0])
  }

  /** `x / y` */
  function Div(x: Number, y: Number): Number
  {
    match (x, y)
    case (Finite(a), Finite(b)) =>
      if b != 0.0 then Finite(a / b)
      else if a == 0.0 then NaN
      else Infinity(a > 0.0)
    case (Finite(_), Infinity(_)) => Finite(0.0)
    case (Infinity(p), Finite(b)) => if b >= 0.0 then Infinity(p) else Infinity(!p)
    case _ => NaN
  }

  /** `x * k` for a positive constant `k`. */
  function Scale(x: Number, k: real): Number
    requires k > 0.0
  {
    match x
    case Finite(a) => Finite(a * k)
    case other => other
  }

  /** `x % d` for a positive constant `d`: the remainder of truncating division. */
  function Rem(x: Number, d: real): Number
    requires d > 0.0
  {
    match x
    case Finite(a) => Finite(a - d * (Trunc(a / d) as real))
    case _ => NaN
  }

  /** `x >= k` */
  predicate AtLeast(x: Number, k: real)
  {
    match x
    case Finite(a) => a >= k
    case Infinity(p) => p
    case NaN => false
  }

  /** `x > k` */
  predicate Above(x: Number, k: real)
  {
    match x
    case Finite(a) => a > k
    case Infinity(p) => p
    case NaN => false
  }

  /** The result of `Math.floor`, `Math.ceil` or `Math.round`. */
  datatype Integral = NotANumber | Whole(i: int) | Infinite(positive: bool)

  function Floor(x: Number): Integral
  {
    match x
    case Finite(a) => Whole(a.Floor)
    case Infinity(p) => Infinite(p)
    case NaN => NotANumber
  }

  /** `Math.round`: halves round up. */
  function Round(x: Number): Integral
  {
    match x
    case Finite(a) => Whole((a + 0.5).Floor)
    case Infinity(p) => Infinite(p)
    case NaN => NotANumber
  }

  // ---------------------------------------------------------------------------
  // Integers as text

  function DigitChar(d: nat): char
    requires d < 10
  {
    ('0' as int + d) as char
  }

  /** The decimal text of a natural number, without leading zeros. */
  function NatToString(n: nat): (r: string)
    ensures |r| >= 1 && AllDigits(r)
    ensures (n < 10) == (|r| == 1)
    decreases n
  {
    if n < 10 then [DigitChar(n)] else NatToString(n / 10) + [DigitChar(n % 10)]
  }

  /** Reading back the decimal text of a number gives the number. */
  lemma {:induction false} NatToStringValue(n: nat)
    ensures DigitsValue(NatToString(n)) == n
  {
    var s := NatToString(n);
    if n >= 10 {
      NatToStringValue(n / 10);
      assert s[..|s| - 1] == NatToString(n / 10);
    }
  }

  /** Distinct numbers have distinct decimal texts. */
  lemma NatToStringInjective(m: nat, n: nat)
    requires NatToString(m) == NatToString(n)
    ensures m == n
  {
    NatToStringValue(m);
    NatToStringValue(n);
  }

  /** A number below `10^k` has at most `k` decimal digits. */
  lemma {:induction false} NatToStringLength(n: nat, k: nat)
    requires 1 <= k && n < Pow10(k)
    ensures |NatToString(n)| <= k
    decreases k
  {
    if n >= 10 {
      assert k >= 2;
      NatToStringLength(n / 10, k - 1);
    }
  }

  /** `k` decimal digits are worth less than `10^k`. */
  lemma {:induction false} DigitsValueBound(s: string)
    requires AllDigits(s)
    ensures DigitsValue(s) < Pow10(|s|)
    decreases |s|
  {
    if s != [] {
      DigitsValueBound(s[..|s| - 1]);
    }
  }

  /** Digit strings of one length with one value are the same string. */
  lemma {:induction false} DigitsValueInjective(a: string, b: string)
    requires AllDigits(a) && AllDigits(b) && |a| == |b|
    requires DigitsValue(a) == DigitsValue(b)
    ensures a == b
    decreases |a|
  {
    if a != [] {
      var i := |a| - 1;
      assert DigitValue(a[i]) == DigitsValue(a) % 10 == DigitValue(b[i]);
      DigitsValueInjective(a[..i], b[..i]);
      assert a == a[..i] + [a[i]] && b == b[..i] + [b[i]];
    }
  }

  /** `${i}` for an integer. */
  function IntToString(i: int): string
  {
    if i < 0 then "-" + NatToString(-i) else NatToString(i)
  }

  /** The decimal text of a positive number does not start with `0`. */
  lemma {:induction false} NatToStringLeading(n: nat)
    requires n >= 1
    ensures NatToString(n)[0] != '0'
    decreases n
  {
    if n >= 10 {
      NatToStringLeading(n / 10);
      assert NatToString(n)[0] == NatToString(n / 10)[0];
    }
  }

  /** The text of an integer is digits, with a minus sign in front of a negative one. */
  lemma IntToStringShape(k: int)
    ensures var t := IntToString(k);
      t != [] && (t[0] == '-' || IsDigit(t[0])) && (t[0] == '-' <==> k < 0)
      && IsDigit(t[|t| - 1]) && forall i :: 0 < i < |t| ==> IsDigit(t[i])
  {
  }

  /** `${x}` for the result of `Math.floor` and friends. */
  function IntegralText(x: Integral): string
  {
    match x
    case Whole(i) => IntToString(i)
    case NotANumber => "NaN"
    case Infinite(p) => if p then "Infinity" else "-Infinity"
  }
}
