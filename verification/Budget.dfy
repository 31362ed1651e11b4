/** TruncateResponse: cutting a response to a byte budget. Strings are sequences
    of bytes, one char each. */
module Budget {

  function Digit(d: nat): char
    requires d < 10
  {
    '0' + d as char
  }

  /** fmt's %d for a size. */
  function Decimal(n: nat): string {
    if n < 10 then [Digit(n)] else Decimal(n / 10) + [Digit(n % 10)]
  }

  predicate Digits(s: string) {
    s != "" && forall i :: 0 <= i < |s| ==> '0' <= s[i] <= '9'
  }

  /** The number a string of digits denotes. */
  function Value(s: string): int {
    if s == "" then 0 else 10 * Value(s[..|s| - 1]) + (s[|s| - 1] as int - '0' as int)
  }

  lemma {:induction false} DecimalDenotes(n: nat)
    ensures Digits(Decimal(n)) && Value(Decimal(n)) == n
  {
    var s := Decimal(n);
    if n < 10 {
      assert s[..0] == "";
    } else {
      DecimalDenotes(n / 10);
      assert s[..|s| - 1] == Decimal(n / 10);
    }
  }

  function Pow10(k: nat): nat {
    if k == 0 then 1 else 10 * Pow10(k - 1)
  }

  lemma {:induction false} DecimalLength(n: nat, k: nat)
    requires k > 0
    ensures |Decimal(n)| <= k <==> n < Pow10(k)
    decreases k
  {
    if n < 10 {
      Pow10AtLeastTen(k);
    } else if k == 1 {
      assert Pow10(1) == 10 && |Decimal(n / 10)| >= 1;
    } else {
      DecimalLength(n / 10, k - 1);
      assert n / 10 < Pow10(k - 1) <==> n < 10 * Pow10(k - 1);
    }
  }

  lemma {:induction false} Pow10AtLeastTen(k: nat)
    requires k > 0
    ensures Pow10(k) >= 10
  {
    if k > 1 { Pow10AtLeastTen(k - 1); }
  }

  const OPENING := "\n\n[Truncated: response was "
  const MIDDLE := " bytes, showing first "
  const CLOSING := " bytes. Use more specific queries or filters to reduce output size.]"

  function Notice(total: nat, shown: nat): (s: string)
    ensures |s| == 117 + |Decimal(total)| + |Decimal(shown)|
  {
    OPENING + Decimal(total) + MIDDLE + Decimal(shown) + CLOSING
  }

  /** The shown part leaves 150 bytes of the budget to the notice. */
  function Cutoff(maxBytes: int): int {
    if maxBytes < 150 then 0 else maxBytes - 150
  }

  /** Position i is a newline in the last 199 bytes before the cutoff. */
  predicate Boundary(response: string, cutoff: int, i: int) {
    0 <= i < cutoff <= |response| && cutoff - 200 < i && response[i] == '\n'
  }

  /** How much of the response is shown: up to the last newline of the window,
      or up to the cutoff when the window has none. */
  ghost predicate Shown(response: string, cutoff: int, n: int) {
    && 0 <= n <= cutoff <= |response|
    && if exists i :: Boundary(response, cutoff, i)
       then Boundary(response, cutoff, n - 1) && forall i :: Boundary(response, cutoff, i) ==> i < n
       else n == cutoff
  }

  /** `r` is the shown part followed by the notice. */
  ghost predicate IsTruncation(response: string, maxBytes: int, r: string) {
    exists n :: Shown(response, Cutoff(maxBytes), n) && r == response[..n] + Notice(|response|, n)
  }

  /** What the reader of `r` learns: a notice with two numbers in digits, the
      size of the whole response first and that of the part shown second. */
  ghost predicate Reports(response: string, n: nat, r: string) {
    n <= |response| && exists total, shown ::
      && r == response[..n] + OPENING + total + MIDDLE + shown + CLOSING
      && Digits(total) && Value(total) == |response|
      && Digits(shown) && Value(shown) == n
  }

  lemma InFront(front: string, a: string, b: string, c: string, d: string, e: string)
    ensures front + (a + b + c + d + e) == front + a + b + c + d + e
  {
  }

  lemma NoticeReports(response: string, n: nat)
    requires n <= |response|
    ensures Reports(response, n, response[..n] + Notice(|response|, n))
  {
    DecimalDenotes(|response|);
    DecimalDenotes(n);
    InFront(response[..n], OPENING, Decimal(|response|), MIDDLE, Decimal(n), CLOSING);
  }

  method TruncateResponse(response: string, maxBytes: int) returns (r: string)
    ensures maxBytes <= 0 || |response| <= maxBytes ==> r == response
    ensures 0 < maxBytes < |response| ==>
      && IsTruncation(response, maxBytes, r)
      && exists n: nat :: Shown(response, if maxBytes < 150 then 0 else maxBytes - 150, n) && Reports(response, n, r)
  {
    if maxBytes <= 0 || |response| <= maxBytes {
      return response;
    }
    var cutoff := maxBytes - 150;
    if cutoff < 0 {
      cutoff := 0;
    }
    var truncated := response[..cutoff];
    var i := |truncated| - 1;
    while i > cutoff - 200 && i >= 0
      invariant -1 <= i < cutoff && truncated == response[..cutoff]
      invariant forall j :: Boundary(response, cutoff, j) ==> j <= i
    {
      if truncated[i] == '\n' {
        assert Boundary(response, cutoff, i);
        truncated := truncated[..i + 1];
        break;
      }
      i := i - 1;
    }
    assert Shown(response, cutoff, |truncated|) && truncated == response[..|truncated|];
    NoticeReports(response, |truncated|);
    return truncated + Notice(|response|, |truncated|);
  }

  /** Main result: a truncated response of under 10^16 bytes keeps to the budget
      exactly when the budget has room for the notice alone, which every budget
      of 150 bytes or more has. */
  lemma BudgetHolds(response: string, maxBytes: int, r: string)
    requires 0 < maxBytes < |response| < Pow10(16) && IsTruncation(response, maxBytes, r)
    ensures |r| <= maxBytes <==> maxBytes >= |Notice(|response|, 0)|
    ensures maxBytes >= 150 ==> maxBytes >= |Notice(|response|, 0)|
  {
    var shown :| Shown(response, Cutoff(maxBytes), shown) && r == response[..shown] + Notice(|response|, shown);
    DecimalLength(|response|, 16);
    DecimalLength(shown, 16);
    assert |Decimal(0)| == 1;
  }

  /** At least cutoff - 198 bytes are shown, ending in a newline whenever one
      lies in the window. */
  lemma ShownIsMost(response: string, cutoff: int, shown: nat)
    requires Shown(response, cutoff, shown)
    ensures shown >= cutoff - 198
    ensures (exists i :: Boundary(response, cutoff, i)) ==> shown > 0 && response[shown - 1] == '\n'
    ensures forall m :: Shown(response, cutoff, m) ==> m == shown
  {
    forall m | Shown(response, cutoff, m) ensures m == shown {
      if exists i :: Boundary(response, cutoff, i) {
        assert Boundary(response, cutoff, m - 1) && Boundary(response, cutoff, shown - 1);
      }
    }
  }
}
