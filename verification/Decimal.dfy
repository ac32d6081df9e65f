/** Decimal numerals, as `%d`, `String(n)` and `strconv.Atoi` write and read them. */
module Decimal {

  function Digit(d: nat): char
    requires d < 10
  {
    '0' + d as char
  }

  predicate IsDigit(c: char) {
    '0' <= c <= '9'
  }

  /** Digits by their codes and their values. */
  lemma Digits(c: char, d: nat)
    ensures IsDigit(c) <==> 48 <= c as int <= 57
    ensures d < 10 ==> Digit(d) as int == 48 + d
  {
  }

  predicate AllDigits(s: string) {
    forall i :: 0 <= i < |s| ==> IsDigit(s[i])
  }

  function Show(n: nat): (s: string)
    ensures s != "" && AllDigits(s)
  {
    if n < 10 then [Digit(n)] else Show(n / 10) + [Digit(n % 10)]
  }

  /** The number a string of digits denotes; leading zeros are allowed. */
  function Value(s: string): nat
    requires AllDigits(s)
  {
    if s == "" then 0 else 10 * Value(s[..|s| - 1]) + (s[|s| - 1] - '0') as nat
  }

  lemma {:induction false} ValueOfShow(n: nat)
    ensures Value(Show(n)) == n
  {
    var s := Show(n);
    if n < 10 {
      assert s[..0] == "";
      assert Value("") == 0;
    } else {
      ValueOfShow(n / 10);
      assert s[..|s| - 1] == Show(n / 10);
    }
  }

  /** A number below `10^k` needs at most `k` digits. */
  lemma {:induction false} ShowLength(n: nat, k: nat)
    requires k > 0 && n < Pow10(k)
    ensures |Show(n)| <= k
  {
    if n >= 10 {
      if k > 1 {
        ShowLength(n / 10, k - 1);
      }
    }
  }

  function Pow10(k: nat): nat {
    if k == 0 then 1 else 10 * Pow10(k - 1)
  }

  /** And a number from `10^k` on needs more than `k` digits. */
  lemma {:induction false} ShowTooLong(n: nat, k: nat)
    requires n >= Pow10(k)
    ensures |Show(n)| > k
  {
    if k > 0 {
      assert n >= 10 * Pow10(k - 1);
      PowPositive(k - 1);
      ShowTooLong(n / 10, k - 1);
    }
  }

  lemma PowPositive(k: nat)
    ensures Pow10(k) >= 1
  {
  }
}
