/** Wrappers for results that may fail. */
module Wrappers {

  datatype Option<+T> = None | Some(value: T)

  datatype Result<+T, +E> = Success(value: T) | Failure(error: E)

  /** The outcome of an Express middleware check: call `next()`, or throw. */
  datatype Outcome<+E> = Pass | Fail(error: E)
}

/**
 * JavaScript values and the handful of language built-ins the core relies on:
 * truthiness, `>` between possibly absent values, `String.prototype.trim`,
 * and the decimal text of a non-negative integer (as a template literal prints it).
 */
module Js {
  import opened Wrappers

  /** A JavaScript value as it occurs in a filter, an update object or a token payload. Numbers are integers. */
  datatype Value = Str(s: string) | Num(n: int) | Bool(b: bool) | Null | Undefined

  /** A plain object: its own properties in `Object.keys` order. */
  type Object = seq<(string, Value)>

  /** The errors of the application's error classes the core throws, and the TypeError of reading a property of `undefined`. */
  datatype Error = BadRequest(message: string) | Unauthorized | TypeError(message: string)

  /** `Object.values(o)`. */
  function Values(o: Object): seq<Value>
  {
    seq(|o|, i requires 0 <= i < |o| => o[i].1)
  }

  /** `o[key]`: the value of the first property named `key`, or `undefined` when there is none. */
  function Get(o: Object, key: string): (v: Value)
    ensures (forall i :: 0 <= i < |o| ==> o[i].0 != key) ==> v == Undefined
    ensures forall i :: 0 <= i < |o| && o[i].0 == key && (forall j :: 0 <= j < i ==> o[j].0 != key) ==> v == o[i].1
    ensures v != Undefined ==> exists i :: 0 <= i < |o| && o[i] == (key, v)
  {
    if |o| == 0 then Undefined
    else if o[0].0 == key then o[0].1
    else
      var rest := o[1..];
      assert forall i :: 1 <= i < |o| ==> o[i] == rest[i - 1];
      Get(rest, key)
  }

  /** JavaScript truthiness. */
  predicate Truthy(v: Value)
  {
    match v
    case Str(s) => s != ""
    case Num(n) => n != 0
    case Bool(b) => b
    case Null => false
    case Undefined => false
  }

  // ---------------------------------------------------------------- strings

  /** The WhiteSpace and LineTerminator code points of ECMAScript: what `trim` removes. */
  predicate IsWhitespace(c: char)
  {
    || c == '\t' || c == '\n' || c == '\U{000B}' || c == '\U{000C}' || c == '\r' || c == ' '
    || c == '\U{00A0}' || c == '\U{1680}' || ('\U{2000}' <= c <= '\U{200A}')
    || c == '\U{2028}' || c == '\U{2029}' || c == '\U{202F}' || c == '\U{205F}'
    || c == '\U{3000}' || c == '\U{FEFF}'
  }

  /** `s.trimStart()`: the suffix of `s` after its leading whitespace. */
  function TrimStart(s: string): string
  {
    if |s| > 0 && IsWhitespace(s[0]) then TrimStart(s[1..]) else s
  }

  /** `s.trimEnd()`: the prefix of `s` before its trailing whitespace. */
  function TrimEnd(s: string): string
  {
    if |s| > 0 && IsWhitespace(s[|s| - 1]) then TrimEnd(s[..|s| - 1]) else s
  }

  /** `s.trim()`. */
  function Trim(s: string): string
  {
    TrimEnd(TrimStart(s))
  }

  /** When `s[..i]` is whitespace and `s[i]` is not (or is the end), `trimStart` leaves `s[i..]`. */
  lemma {:induction false} TrimStartAt(s: string, i: nat)
    requires i <= |s|
    requires forall k :: 0 <= k < i ==> IsWhitespace(s[k])
    requires i < |s| ==> !IsWhitespace(s[i])
    ensures TrimStart(s) == s[i..]
  {
    if i > 0 {
      assert IsWhitespace(s[0]);
      forall k | 0 <= k < i - 1
        ensures IsWhitespace(s[1..][k])
      {
        assert s[1..][k] == s[k + 1];
      }
      TrimStartAt(s[1..], i - 1);
      assert s[1..][i - 1..] == s[i..];
    }
  }

  /** When `s[j..]` is whitespace and `s[j-1]` is not (or is the start), `trimEnd` leaves `s[..j]`. */
  lemma {:induction false} TrimEndAt(s: string, j: nat)
    requires j <= |s|
    requires forall k :: j <= k < |s| ==> IsWhitespace(s[k])
    requires j > 0 ==> !IsWhitespace(s[j - 1])
    ensures TrimEnd(s) == s[..j]
  {
    if j < |s| {
      assert IsWhitespace(s[|s| - 1]);
      var p := s[..|s| - 1];
      forall k | j <= k < |p|
        ensures IsWhitespace(p[k])
      {
        assert p[k] == s[k];
      }
      if j > 0 {
        assert p[j - 1] == s[j - 1];
      }
      TrimEndAt(p, j);
      assert p[..j] == s[..j];
    } else {
      assert s[..j] == s;
    }
  }

  /**
   * `trim` is determined by where the non-blank part of `s` begins and ends:
   * when `s[..i]` and `s[j..]` are whitespace and `s[i..j]` neither begins nor
   * ends with whitespace, the trimmed string is exactly `s[i..j]`.
   */
  lemma TrimIsCore(s: string, i: nat, j: nat)
    requires i <= j <= |s|
    requires forall k :: 0 <= k < i ==> IsWhitespace(s[k])
    requires forall k :: j <= k < |s| ==> IsWhitespace(s[k])
    requires i < j ==> !IsWhitespace(s[i]) && !IsWhitespace(s[j - 1])
    ensures Trim(s) == s[i..j]
  {
    if i == j {
      TrimStartAt(s, |s|);
      assert TrimStart(s) == [];
    } else {
      TrimStartAt(s, i);
      var t := s[i..];
      forall k | j - i <= k < |t|
        ensures IsWhitespace(t[k])
      {
        assert t[k] == s[i + k];
      }
      assert t[j - i - 1] == s[j - 1];
      TrimEndAt(t, j - i);
      assert t[..j - i] == s[i..j];
    }
  }

  /** `trimStart` drops a whitespace prefix and stops at a non-whitespace character. */
  lemma {:induction false} TrimStartShape(s: string)
    ensures |TrimStart(s)| <= |s| && TrimStart(s) == s[|s| - |TrimStart(s)|..]
    ensures forall k :: 0 <= k < |s| - |TrimStart(s)| ==> IsWhitespace(s[k])
    ensures TrimStart(s) == [] || !IsWhitespace(TrimStart(s)[0])
  {
    if |s| > 0 && IsWhitespace(s[0]) {
      TrimStartShape(s[1..]);
      forall k | 0 <= k < |s| - |TrimStart(s)|
        ensures IsWhitespace(s[k])
      {
        if k > 0 {
          assert s[k] == s[1..][k - 1];
        }
      }
    }
  }

  /** `trimEnd` drops a whitespace suffix and stops at a non-whitespace character. */
  lemma {:induction false} TrimEndShape(s: string)
    ensures |TrimEnd(s)| <= |s| && TrimEnd(s) == s[..|TrimEnd(s)|]
    ensures forall k :: |TrimEnd(s)| <= k < |s| ==> IsWhitespace(s[k])
    ensures TrimEnd(s) == [] || !IsWhitespace(TrimEnd(s)[|TrimEnd(s)| - 1])
  {
    if |s| > 0 && IsWhitespace(s[|s| - 1]) {
      var p := s[..|s| - 1];
      TrimEndShape(p);
      forall k | |TrimEnd(s)| <= k < |s|
        ensures IsWhitespace(s[k])
      {
        if k < |p| {
          assert s[k] == p[k];
        }
      }
      assert p[..|TrimEnd(p)|] == s[..|TrimEnd(p)|];
    }
  }

  /** Trimming twice is trimming once. */
  lemma TrimIdempotent(s: string)
    ensures Trim(Trim(s)) == Trim(s)
  {
    var u := TrimStart(s);
    var t := Trim(s);
    TrimStartShape(s);
    TrimEndShape(u);
    if t != [] {
      assert t[0] == u[0];
    }
    TrimIsCore(t, 0, |t|);
    assert t[0..|t|] == t;
  }

  // ---------------------------------------------------------------- numbers

  predicate IsDigit(c: char)
  {
    '0' <= c <= '9'
  }

  predicate AllDigits(s: string)
  {
    forall i :: 0 <= i < |s| ==> IsDigit(s[i])
  }

  /** The decimal digit for `d`. */
  function DigitChar(d: nat): (c: char)
    requires d < 10
    ensures IsDigit(c) && c as int == '0' as int + d
  {
    (('0' as int) + d) as char
  }

  /** The decimal text of `n`, as `${n}` prints a non-negative integer. */
  function NatToString(n: nat): (s: string)
    ensures |s| > 0 && AllDigits(s)
    ensures |s| > 1 ==> s[0] != '0'
  {
    if n < 10 then [DigitChar(n)] else NatToString(n / 10) + [DigitChar(n % 10)]
  }

  /** The value of a string of decimal digits. */
  function ParseDecimal(s: string): nat
    requires AllDigits(s)
  {
    if s == [] then 0
    else ParseDecimal(s[..|s| - 1]) * 10 + (s[|s| - 1] as int - '0' as int)
  }

  /** The decimal text of `n` reads back as `n`, so `$k` names placeholder `k` and no other. */
  lemma {:induction false} ParseNatToString(n: nat)
    ensures ParseDecimal(NatToString(n)) == n
  {
    if n >= 10 {
      var s := NatToString(n);
      ParseNatToString(n / 10);
      assert s[..|s| - 1] == NatToString(n / 10);
    }
  }

  /** Different numbers have different decimal texts. */
  lemma NatToStringInjective(m: nat, n: nat)
    requires NatToString(m) == NatToString(n)
    ensures m == n
  {
    ParseNatToString(m);
    ParseNatToString(n);
  }

  /**
   * JavaScript's ToNumber, with NaN as None. Strings convert only when, once
   * trimmed, they are empty (0) or decimal digits; other numeric string
   * syntax is not modelled and reads as NaN.
   */
  function ToNumber(v: Value): Option<int>
  {
    match v
    case Num(n) => Some(n)
    case Bool(b) => Some(if b then 1 else 0)
    case Null => Some(0)
    case Undefined => None
    case Str(s) =>
      var t := Trim(s);
      if AllDigits(t) then Some(ParseDecimal(t)) else None
  }

  /** `a < b` on strings: lexicographic by character, a proper prefix being smaller. */
  predicate StringLess(a: string, b: string)
  {
    if |a| == 0 then |b| > 0
    else if |b| == 0 then false
    else if a[0] != b[0] then a[0] < b[0]
    else StringLess(a[1..], b[1..])
  }

  /** JavaScript's `a > b`: string comparison when both are strings, otherwise numeric, false when either is NaN. */
  predicate GreaterThan(a: Value, b: Value)
  {
    if a.Str? && b.Str? then StringLess(b.s, a.s)
    else
      match (ToNumber(a), ToNumber(b))
      case (Some(x), Some(y)) => x > y
      case _ => false
  }

  /** `undefined` compares false against anything, in either position. */
  lemma UndefinedNeverGreater(v: Value)
    ensures !GreaterThan(Undefined, v) && !GreaterThan(v, Undefined)
  {
  }

  /** No value is greater than itself. */
  lemma {:induction false} GreaterThanIrreflexive(v: Value)
    ensures !GreaterThan(v, v)
  {
    if v.Str? {
      StringLessIrreflexive(v.s);
    }
  }

  lemma {:induction false} StringLessIrreflexive(s: string)
    ensures !StringLess(s, s)
  {
    if |s| > 0 {
      StringLessIrreflexive(s[1..]);
    }
  }
}
