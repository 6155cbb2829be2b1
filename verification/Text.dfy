/** Strings cut at a separator, and numbers written in decimal. */
module Text {
  datatype Option<+T> = None | Some(value: T)

  function Concat(parts: seq<string>): string {
    if parts == [] then "" else parts[0] + Concat(parts[1..])
  }

  lemma Reassociate<T>(a: seq<T>, b: seq<T>, c: seq<T>)
    ensures a + (b + c) == (a + b) + c
  {
  }

  lemma {:induction false} ConcatAppend(a: seq<string>, b: seq<string>)
    ensures Concat(a + b) == Concat(a) + Concat(b)
  {
    if a == [] {
      assert a + b == b;
    } else {
      ConcatAppend(a[1..], b);
      assert (a + b)[0] == a[0] && (a + b)[1..] == a[1..] + b;
      Reassociate(a[0], Concat(a[1..]), Concat(b));
    }
  }

  /** Unicode's White_Space. */
  predicate IsSpace(c: char) {
    var n := c as int;
    9 <= n <= 13 || n == 0x20 || n == 0x85 || n == 0xA0 || n == 0x1680 || 0x2000 <= n <= 0x200A
    || n == 0x2028 || n == 0x2029 || n == 0x202F || n == 0x205F || n == 0x3000
  }

  predicate Blank(s: string) {
    forall i :: 0 <= i < |s| ==> IsSpace(s[i])
  }

  /** The part of `s` before the first `c`, which is all of it when there is none. */
  function Before(s: string, c: char): string {
    if s == "" || s[0] == c then "" else [s[0]] + Before(s[1..], c)
  }

  lemma {:induction false} BeforeIsPrefix(s: string, c: char)
    ensures var n := |Before(s, c)|; n <= |s| && Before(s, c) == s[..n] && c !in Before(s, c)
    ensures |Before(s, c)| < |s| ==> s[|Before(s, c)|] == c
    ensures |Before(s, c)| == |s| <==> c !in s
  {
    if s != "" && s[0] != c {
      BeforeIsPrefix(s[1..], c);
      assert s == [s[0]] + s[1..];
    }
  }

  lemma {:induction false} BeforeSeparator(a: string, c: char, rest: string)
    requires c !in a
    ensures Before(a + [c] + rest, c) == a
  {
    if a != "" {
      assert (a + [c] + rest)[1..] == a[1..] + [c] + rest;
      BeforeSeparator(a[1..], c, rest);
    }
  }

  /** Text up to a separator that neither part contains determines both parts. */
  lemma SeparatorSplits(a: string, b: string, c: char, x: string, y: string)
    requires c !in a && c !in b && a + [c] + x == b + [c] + y
    ensures a == b && x == y
  {
    BeforeSeparator(a, c, x);
    BeforeSeparator(b, c, y);
    assert x == (a + [c] + x)[|a| + 1..] && y == (b + [c] + y)[|b| + 1..];
  }

  function Digit(d: nat): char
    requires d < 10
  {
    "0123456789"[d]
  }

  function DigitValue(c: char): nat {
    if '0' <= c <= '9' then (c - '0') as nat else 0
  }

  /** `%d` of a non-negative number. */
  function Nat(n: nat): string {
    (if n < 10 then "" else Nat(n / 10)) + [Digit(n % 10)]
  }

  /** `%d`. */
  function Int(n: int): string {
    if n < 0 then "-" + Nat(-n) else Nat(n)
  }

  function Value(s: string): nat {
    if s == "" then 0 else 10 * Value(s[..|s| - 1]) + DigitValue(s[|s| - 1])
  }

  predicate IsDigits(s: string) {
    forall i :: 0 <= i < |s| ==> '0' <= s[i] <= '9'
  }

  /** `%02d`. */
  function TwoDigits(i: int): string {
    if 0 <= i < 10 then "0" + Int(i) else Int(i)
  }

  lemma DigitRoundTrip(d: nat)
    requires d < 10
    ensures DigitValue(Digit(d)) == d && '0' <= Digit(d) <= '9'
  {
  }

  lemma OneMoreDigit(front: string, d: nat)
    requires d < 10 && IsDigits(front)
    ensures Value(front + [Digit(d)]) == 10 * Value(front) + d && IsDigits(front + [Digit(d)])
  {
    DigitRoundTrip(d);
    assert (front + [Digit(d)])[..|front|] == front;
  }

  /** Reading back a printed number gives the number. */
  lemma {:induction false} NatRoundTrip(n: nat)
    ensures Value(Nat(n)) == n && IsDigits(Nat(n)) && Nat(n) != ""
  {
    var front := if n < 10 then "" else Nat(n / 10);
    if n >= 10 {
      NatRoundTrip(n / 10);
    }
    assert Value(front) == n / 10 && IsDigits(front);
    OneMoreDigit(front, n % 10);
  }

  lemma IntInjective(m: int, n: int)
    requires Int(m) == Int(n)
    ensures m == n
  {
    IntSign(m);
    IntSign(n);
    NatRoundTrip(if m < 0 then -m else m);
    NatRoundTrip(if n < 0 then -n else n);
  }

  lemma IntSign(n: int)
    ensures Int(n) != "" && (Int(n)[0] == '-' <==> n < 0)
    ensures n < 0 ==> Int(n)[1..] == Nat(-n)
  {
    NatRoundTrip(if n < 0 then -n else n);
  }

  lemma IntAvoids(n: int, c: char)
    requires c != '-' && !('0' <= c <= '9')
    ensures c !in Int(n)
  {
    var digits := Nat(if n < 0 then -n else n);
    NatRoundTrip(if n < 0 then -n else n);
    assert c !in digits;
  }
}
