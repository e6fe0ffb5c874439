/**
 * The pieces of JavaScript semantics that the Netlify handlers rely on:
 * truthiness of request fields, `Number(...)` conversion, `toLowerCase()`,
 * `Number.prototype.toString(radix)` and template-literal rendering of numbers.
 */
module Js {

  datatype Option<+T> = None | Some(value: T)

  /** A field of a parsed JSON request body (objects and arrays are not modelled). */
  datatype Input = Absent | Null | Flag(b: bool) | Numeric(n: int) | Text(s: string)

  /** `!!f`: undefined, null, false, 0 and "" are falsy. */
  predicate Truthy(f: Input)
  {
    match f
    case Absent => false
    case Null => false
    case Flag(b) => b
    case Numeric(n) => n != 0
    case Text(s) => s != ""
  }

  /** `Number(f)`; `None` stands for NaN. */
  function ToNumber(f: Input): Option<int>
  {
    match f
    case Absent => None
    case Null => Some(0)
    case Flag(b) => Some(if b then 1 else 0)
    case Numeric(n) => Some(n)
    case Text(s) => ParseNumber(s)
  }

  /** `${f}` in a template literal. */
  function InputString(f: Input): string
  {
    match f
    case Absent => "undefined"
    case Null => "null"
    case Flag(b) => if b then "true" else "false"
    case Numeric(n) => IntToString(n)
    case Text(s) => s
  }

  // ---------------------------------------------------------------------------
  // Characters and case

  function LowerChar(c: char): char
  {
    if 'A' <= c <= 'Z' then (c as int + 32) as char else c
  }

  /** `s.toLowerCase()`, on the ASCII letters. */
  function ToLower(s: string): (r: string)
    ensures |r| == |s|
    ensures forall i :: 0 <= i < |s| ==> r[i] == LowerChar(s[i])
  {
    if s == [] then [] else [LowerChar(s[0])] + ToLower(s[1..])
  }

  /** A string that `toLowerCase()` leaves as it is. */
  predicate IsLower(s: string)
  {
    forall i :: 0 <= i < |s| ==> !('A' <= s[i] <= 'Z')
  }

  lemma {:induction false} ToLowerIsLower(s: string)
    ensures IsLower(ToLower(s))
    ensures IsLower(s) <==> ToLower(s) == s
  {
    var r := ToLower(s);
    forall i | 0 <= i < |r| ensures !('A' <= r[i] <= 'Z') {
      assert r[i] == LowerChar(s[i]);
    }
    if IsLower(s) {
      forall i | 0 <= i < |s| ensures r[i] == s[i] {
        assert r[i] == LowerChar(s[i]);
      }
    }
    if r == s {
      forall i | 0 <= i < |s| ensures !('A' <= s[i] <= 'Z') {
        assert s[i] == r[i];
      }
    }
  }

  /** Lower-casing twice is lower-casing once. */
  lemma ToLowerIdempotent(s: string)
    ensures ToLower(ToLower(s)) == ToLower(s)
  {
    ToLowerIsLower(s);
    ToLowerIsLower(ToLower(s));
  }

  // ---------------------------------------------------------------------------
  // Digits: `n.toString(radix)` and its inverse

  /** The digit for `d` in the alphabet 0-9a-z that `toString(radix)` uses. */
  function Digit(d: nat): (c: char)
    requires d < 36
  {
    if d < 10 then ('0' as int + d) as char else ('a' as int + d - 10) as char
  }

  function DigitValue(c: char): Option<nat>
  {
    if '0' <= c <= '9' then Some(c as int - '0' as int)
    else if 'a' <= c <= 'z' then Some(c as int - 'a' as int + 10)
    else None
  }

  lemma DigitRoundTrip(d: nat)
    requires d < 36
    ensures DigitValue(Digit(d)) == Some(d)
  {
  }

  /** The digits of `n` in the given base. */
  predicate IsDigits(s: string, base: nat)
  {
    forall i :: 0 <= i < |s| ==> DigitValue(s[i]).Some? && DigitValue(s[i]).value < base
  }

  /** `n.toString(base)` for a non-negative integer `n`. */
  function Radix(n: nat, base: nat): (r: string)
    requires 2 <= base <= 36
    ensures |r| > 0
    ensures IsDigits(r, base)
    decreases n
  {
    if n < base then [Digit(n)]
    else
      var q, d := n / base, n % base;
      DivMod(n, base);
      var prefix := Radix(q, base);
      var last := Digit(d);
      DigitRoundTrip(d);
      assert forall i :: 0 <= i < |prefix| ==> (prefix + [last])[i] == prefix[i];
      prefix + [last]
  }

  lemma DivMod(n: nat, base: nat)
    requires 2 <= base && n >= base
    ensures n % base < base && n / base < n && (n / base) * base + n % base == n
  {
  }

  /** Reads a non-empty string of digits in the given base. */
  function ParseRadix(s: string, base: nat): (r: Option<nat>)
    requires 2 <= base <= 36
    ensures r.Some? <==> s != "" && IsDigits(s, base)
    decreases |s|
  {
    if |s| == 0 then None
    else
      var d := DigitValue(s[|s| - 1]);
      if d.None? || d.value >= base then None
      else if |s| == 1 then Some(d.value)
      else
        var init := s[..|s| - 1];
        assert forall i :: 0 <= i < |init| ==> init[i] == s[i];
        match ParseRadix(init, base)
        case None => None
        case Some(m) => Some(m * base + d.value)
  }

  /** Reading back `n.toString(base)` gives `n`. */
  lemma {:induction false} ParseRadixInverse(n: nat, base: nat)
    requires 2 <= base <= 36
    ensures ParseRadix(Radix(n, base), base) == Some(n)
    decreases n
  {
    if n >= base {
      var q, d := n / base, n % base;
      DivMod(n, base);
      DigitRoundTrip(d);
      ParseRadixInverse(q, base);
      var r := Radix(n, base);
      assert r == Radix(q, base) + [Digit(d)];
      assert r[..|r| - 1] == Radix(q, base);
    } else {
      DigitRoundTrip(n);
    }
  }

  /** `String(n)` / `${n}` for an integer. */
  function IntToString(n: int): (r: string)
  {
    if n < 0 then "-" + Radix(-n, 10) else Radix(n, 10)
  }

  /**
   * `Number(s)` for a string: "" is 0, an optional sign followed by decimal
   * digits is that integer, anything else is NaN (`None`).
   */
  function ParseNumber(s: string): (r: Option<int>)
    ensures r.Some? <==> s == "" || IsDigits(s, 10) || (s[0] in "+-" && |s| > 1 && IsDigits(s[1..], 10))
  {
    if s == "" then Some(0)
    else if s[0] == '-' || s[0] == '+' then
      match ParseRadix(s[1..], 10)
      case None => None
      case Some(m) =>
        var v: int := if s[0] == '-' then 0 - (m as int) else m;
        Some(v)
    else
      match ParseRadix(s, 10)
      case None => None
      case Some(m) => Some(m)
  }

  /** `Number(String(n)) === n` for every integer. */
  lemma NumberOfString(n: int)
    ensures ParseNumber(IntToString(n)) == Some(n)
  {
    var s := IntToString(n);
    if n < 0 {
      assert s[1..] == Radix(-n, 10);
      ParseRadixInverse(-n, 10);
    } else {
      ParseRadixInverse(n, 10);
      assert DigitValue(s[0]).Some?;
    }
  }

  /** The number of decimal digits of `n` grows by one per factor of ten. */
  lemma {:induction false} DecimalLength(n: nat, k: nat)
    requires k >= 1
    requires Pow10(k - 1) <= n < Pow10(k)
    ensures |Radix(n, 10)| == k
    decreases k
  {
    if k > 1 {
      DecimalLength(n / 10, k - 1);
    }
  }

  function Pow10(k: nat): (p: nat)
    ensures p >= 1
  {
    if k == 0 then 1 else 10 * Pow10(k - 1)
  }

  /** First position of `c` in `s`. */
  function IndexOf(s: string, c: char): (r: Option<nat>)
    ensures r.Some? ==> r.value < |s| && s[r.value] == c
    ensures r.Some? ==> forall j :: 0 <= j < r.value ==> s[j] != c
    ensures r.None? ==> forall j :: 0 <= j < |s| ==> s[j] != c
  {
    if s == [] then None
    else if s[0] == c then Some(0)
    else
      match IndexOf(s[1..], c)
      case None => None
      case Some(i) => Some(i + 1)
  }
}
