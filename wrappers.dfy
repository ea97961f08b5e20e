/** Shared result types: Python exceptions raised by the compiler become
  * `Failure` values, and the compiler's error log becomes a list of reports. */
module Wrappers {

  datatype Option<T> = None | Some(value: T)

  /** The Python exception classes raised by the modelled code. */
  datatype ErrorKind =
    | TypeError
    | ValueError
    | KeyError
    | IndexError
    | NotImplementedError
    | AssertionError
    | AttributeError
    | UnboundLocalError
    | NameError
    /** Not a Python class: a report of severity `fatal` to the compiler's
      * error collector, which stops the pass. */
    | FatalReport

  datatype Result<T> = Success(value: T) | Failure(kind: ErrorKind, msg: string)
  {
    predicate IsFailure() { Failure? }

    function PropagateFailure<U>(): Result<U>
      requires Failure?
    {
      Failure(kind, msg)
    }

    function Extract(): T
      requires Success?
    {
      value
    }
  }

  /** Severity of a report in pyccel's error collector; `Fatal` stops the pass. */
  datatype Severity = Warning | Error | Fatal

  datatype Report = Report(msg: string, severity: Severity)

  /** True when the log holds a fatal report. */
  predicate HasFatal(log: seq<Report>)
  {
    exists k :: 0 <= k < |log| && log[k].severity == Fatal
  }

  /** Decimal rendering of a natural number, as Python's `str(n)`. */
  function NatToString(n: nat): (s: string)
    decreases n
  {
    if n < 10 then [Digit(n)] else NatToString(n / 10) + [Digit(n % 10)]
  }

  function Digit(d: nat): char
    requires d < 10
  {
    "0123456789"[d]
  }

  lemma DigitInjective(a: nat, b: nat)
    requires a < 10 && b < 10 && Digit(a) == Digit(b)
    ensures a == b
  {
  }

  /** Distinct numbers have distinct decimal renderings. */
  lemma {:induction false} NatToStringInjective(n: nat, m: nat)
    requires NatToString(n) == NatToString(m)
    ensures n == m
    decreases n
  {
    var s := NatToString(n);
    if n < 10 && m < 10 {
      DigitInjective(n, m);
    } else if n < 10 {
      NatToStringLong(m);
    } else if m < 10 {
      NatToStringLong(n);
    } else {
      var a, b := NatToString(n / 10), NatToString(m / 10);
      assert s == a + [Digit(n % 10)];
      assert s == b + [Digit(m % 10)];
      assert s[|s| - 1] == Digit(n % 10) == Digit(m % 10);
      DigitInjective(n % 10, m % 10);
      assert a == s[..|s| - 1] == b;
      NatToStringInjective(n / 10, m / 10);
    }
  }

  lemma NatToStringLong(n: nat)
    ensures n >= 10 ==> |NatToString(n)| >= 2
  {
  }

  /** Decimal rendering of an integer, as Python's `str(n)`. */
  function IntToString(n: int): string
  {
    if n < 0 then "-" + NatToString(-n) else NatToString(n)
  }

  function LowerChar(c: char): char
  {
    if 'A' <= c <= 'Z' then (c as int + 32) as char else c
  }

  /** `str.lower()` on ASCII letters. */
  function Lower(s: string): (r: string)
    ensures |r| == |s| && forall k :: 0 <= k < |s| ==> r[k] == LowerChar(s[k])
  {
    if s == [] then [] else [LowerChar(s[0])] + Lower(s[1..])
  }

  /** `str.strip(c)` for one character. */
  function StripChar(s: string, c: char): (r: string)
    ensures |r| <= |s|
    ensures r != [] ==> r[0] != c && r[|r| - 1] != c
    ensures (forall i :: 0 <= i < |s| ==> s[i] != c) ==> r == s
  {
    if s == [] then s
    else if s[0] == c then StripChar(s[1..], c)
    else if s[|s| - 1] == c then StripChar(s[..|s| - 1], c)
    else s
  }

  /** `sep.join(parts)` in Python. */
  function Join(parts: seq<string>, sep: string): (r: string)
  {
    if |parts| == 0 then ""
    else if |parts| == 1 then parts[0]
    else parts[0] + sep + Join(parts[1..], sep)
  }

  /** Python's `sub in s` for strings. */
  predicate Contains(s: string, sub: string)
  {
    exists k :: 0 <= k <= |s| - |sub| && OccursAt(s, sub, k)
  }

  predicate OccursAt(s: string, sub: string, k: int)
  {
    0 <= k <= |s| - |sub| && s[k..k + |sub|] == sub
  }
}
