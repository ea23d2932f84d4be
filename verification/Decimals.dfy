/** Decimal text of integers, as Go's strconv prints and parses it, and the
    bytewise order in which Redis ranks members of equal score. */
module Decimals {

  const MAX_UINT64: nat := 0xFFFF_FFFF_FFFF_FFFF
  const MIN_INT64: int := -0x8000_0000_0000_0000
  const MAX_INT64: int := 0x7FFF_FFFF_FFFF_FFFF

  predicate IsDigit(c: char) {
    '0' <= c <= '9'
  }

  predicate AllDigits(s: string) {
    forall i :: 0 <= i < |s| ==> IsDigit(s[i])
  }

  function FormatUint(n: nat): (s: string)
    ensures s != [] && AllDigits(s)
  {
    var last := [(n % 10 + '0' as int) as char];
    if n < 10 then last else FormatUint(n / 10) + last
  }

  function FormatInt(n: int): string {
    if n < 0 then "-" + FormatUint(-n) else FormatUint(n)
  }

  function Value(s: string): nat
    requires AllDigits(s)
  {
    if s == [] then 0 else 10 * Value(s[..|s| - 1]) + (s[|s| - 1] as int - '0' as int)
  }

  /** Length of the leading run of digits. */
  function DigitRun(s: string): (n: nat)
    ensures n <= |s| && AllDigits(s[..n])
    ensures n < |s| ==> !IsDigit(s[n])
  {
    if s == [] || !IsDigit(s[0]) then 0 else 1 + DigitRun(s[1..])
  }

  /** strconv.ParseUint(s, 10, 64) with its error dropped. The scan stops at the first
      prefix out of range, which leaves the largest value; a stray character leaves 0. */
  function ParseUint(s: string): nat {
    var value := Value(s[..DigitRun(s)]);
    if value > MAX_UINT64 then MAX_UINT64
    else if DigitRun(s) < |s| then 0
    else value
  }

  /** strconv.ParseInt(s, 10, 64) with its error dropped. */
  function ParseInt(s: string): int {
    if s == [] then 0
    else
      var negative := s[0] == '-';
      var magnitude: int := ParseUint(if negative || s[0] == '+' then s[1..] else s);
      if negative then (if magnitude > -MIN_INT64 then MIN_INT64 else -magnitude)
      else if magnitude > MAX_INT64 then MAX_INT64
      else magnitude
  }

  lemma {:induction false} FormatHasValue(n: nat)
    ensures Value(FormatUint(n)) == n
  {
    var s := FormatUint(n);
    if n >= 10 {
      FormatHasValue(n / 10);
      assert s[..|s| - 1] == FormatUint(n / 10);
    }
  }

  lemma ParseUintFormats(n: nat)
    requires n <= MAX_UINT64
    ensures ParseUint(FormatUint(n)) == n
  {
    FormatHasValue(n);
    assert FormatUint(n)[..DigitRun(FormatUint(n))] == FormatUint(n);
  }

  lemma ParseIntFormats(n: int)
    requires MIN_INT64 <= n <= MAX_INT64
    ensures ParseInt(FormatInt(n)) == n
  {
    var digits := FormatUint(if n < 0 then -n else n);
    ParseUintFormats(if n < 0 then -n else n);
    if n < 0 {
      assert FormatInt(n)[1..] == digits;
    } else {
      assert IsDigit(digits[0]);
    }
  }

  /** Any text: digits alone give their value, cut off at the largest number; anything else gives no value of its
      own. */
  lemma ParseUintOf(s: string)
    ensures AllDigits(s) ==> ParseUint(s) == if Value(s) <= MAX_UINT64 then Value(s) else MAX_UINT64
    ensures !AllDigits(s) ==> ParseUint(s) == 0 || ParseUint(s) == MAX_UINT64
  {
    if AllDigits(s) {
      assert s[..DigitRun(s)] == s;
    }
  }

  /** Bytewise lexicographic order. */
  predicate TextBelow(a: string, b: string) {
    b != [] && (a == [] || a[0] < b[0] || (a[0] == b[0] && TextBelow(a[1..], b[1..])))
  }

  /** One text is below another exactly when, after a common beginning, it ends or has the smaller character. */
  lemma {:induction false} TextBelowIff(a: string, b: string)
    ensures TextBelow(a, b) <==>
      exists k :: 0 <= k <= |a| && k < |b| && a[..k] == b[..k] && (k == |a| || a[k] < b[k])
    decreases |a|
  {
    if a != [] && b != [] {
      TextBelowIff(a[1..], b[1..]);
      if k :| 0 <= k <= |a[1..]| && k < |b[1..]| && a[1..][..k] == b[1..][..k]
              && (k == |a[1..]| || a[1..][k] < b[1..][k]) && a[0] == b[0] {
        assert a[..k + 1] == [a[0]] + a[1..][..k] && b[..k + 1] == [b[0]] + b[1..][..k];
      }
      if k :| 0 < k <= |a| && k < |b| && a[..k] == b[..k] && (k == |a| || a[k] < b[k]) {
        assert a[0] == a[..k][0] && b[0] == b[..k][0];
        assert a[1..][..k - 1] == a[..k][1..] && b[1..][..k - 1] == b[..k][1..];
      }
    } else if b != [] {
      assert a[..0] == b[..0];
    }
    if a != [] && b != [] && a[0] < b[0] {
      assert a[..0] == b[..0];
    }
  }

  lemma {:induction false} TextBelowTotal(a: string, b: string)
    ensures a == b || TextBelow(a, b) || TextBelow(b, a)
    ensures !(TextBelow(a, b) && (a == b || TextBelow(b, a)))
    decreases |a| + |b|
  {
    if a != [] && b != [] {
      TextBelowTotal(a[1..], b[1..]);
      assert a == [a[0]] + a[1..] && b == [b[0]] + b[1..];
    }
  }

  lemma {:induction false} TextBelowTransitive(a: string, b: string, c: string)
    requires TextBelow(a, b) && TextBelow(b, c)
    ensures TextBelow(a, c)
    decreases |a|
  {
    if a != [] && a[0] == b[0] && b[0] == c[0] {
      TextBelowTransitive(a[1..], b[1..], c[1..]);
    }
  }
}
