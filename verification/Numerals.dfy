/** Number formatting as template literals, `toString(16)` and `padStart` do it, with the parsers that undo it. */
module Numerals {

  function Digit(d: nat): char
    requires d < 16
  {
    if d < 10 then '0' + d as char else 'a' + (d - 10) as char
  }

  function DigitValue(c: char): nat {
    if '0' <= c <= '9' then (c - '0') as nat
    else if 'a' <= c <= 'f' then (c - 'a') as nat + 10
    else 0
  }

  lemma MulMonotone(x: int, y: int, c: int)
    requires x <= y && 0 <= c
    ensures x * c <= y * c
  {
    assert (y - x) * c >= 0;
  }

  lemma DivMod(b: nat, n: nat)
    requires 2 <= b
    ensures 0 <= n % b < b
    ensures n == (n / b) * b + n % b
    ensures 0 <= n / b <= n
    ensures b <= n ==> n / b < n
  {
    QuotientBounds(b, n / b, n % b, n);
  }

  lemma QuotientBounds(b: nat, q: int, r: nat, n: nat)
    requires 2 <= b && r < b
    requires n == b * q + r
    ensures n == q * b + r
    ensures 0 <= q <= n
    ensures b <= n ==> q < n
  {
    if q < 0 {
      MulMonotone(q, -1, b);
    } else {
      MulMonotone(2, b, q);
    }
  }

  function InBase(b: nat, n: nat): (s: string)
    requires 2 <= b <= 16
    ensures |s| > 0
    ensures forall c :: c in s ==> '0' <= c <= '9' || 'a' <= c <= 'f'
    decreases n
  {
    DivMod(b, n);
    if n < b then [Digit(n)] else InBase(b, n / b) + [Digit(n % b)]
  }

  function Parse(b: nat, s: string): nat {
    if |s| == 0 then 0 else Parse(b, s[..|s| - 1]) * b + DigitValue(s[|s| - 1])
  }

  lemma {:induction false} ParseInBase(b: nat, n: nat)
    requires 2 <= b <= 16
    ensures Parse(b, InBase(b, n)) == n
  {
    var s := InBase(b, n);
    if n < b {
      assert s[..0] == "";
      assert Parse(b, "") == 0;
    } else {
      DivMod(b, n);
      assert s[..|s| - 1] == InBase(b, n / b);
      assert s[|s| - 1] == Digit(n % b);
      ParseInBase(b, n / b);
      assert DigitValue(Digit(n % b)) == n % b;
    }
  }

  /** `${n}` of an integer. */
  function Decimal(n: int): (s: string)
    ensures ':' !in s
  {
    if n < 0 then "-" + InBase(10, -n) else InBase(10, n)
  }

  lemma DecimalInjective(m: int, n: int)
    requires Decimal(m) == Decimal(n)
    ensures m == n
  {
    DecimalSign(m);
    DecimalSign(n);
    if m >= 0 && n >= 0 {
      ParseInBase(10, m);
      ParseInBase(10, n);
    } else if m < 0 && n < 0 {
      assert Decimal(m)[1..] == InBase(10, -m);
      assert Decimal(n)[1..] == InBase(10, -n);
      ParseInBase(10, -m);
      ParseInBase(10, -n);
    }
  }

  lemma DecimalSign(n: int)
    ensures |Decimal(n)| > 0
    ensures Decimal(n)[0] == '-' <==> n < 0
  {
    if n >= 0 {
      assert Decimal(n)[0] in InBase(10, n);
    }
  }

  function Zeros(n: nat): (s: string)
    ensures |s| == n
  {
    seq(n, _ => '0')
  }

  function PadStart(s: string, width: nat): string {
    if |s| < width then Zeros(width - |s|) + s else s
  }

  lemma {:induction false} ParsePadded(b: nat, k: nat, s: string)
    ensures Parse(b, Zeros(k) + s) == Parse(b, s)
    decreases |s| + k
  {
    var p := Zeros(k) + s;
    if |s| > 0 {
      assert p[..|p| - 1] == Zeros(k) + s[..|s| - 1];
      ParsePadded(b, k, s[..|s| - 1]);
    } else if k > 0 {
      assert p[..|p| - 1] == Zeros(k - 1) + "";
      ParsePadded(b, k - 1, "");
    } else {
      assert p == s;
    }
  }

  function Pow(b: nat, k: nat): nat {
    if k == 0 then 1 else b * Pow(b, k - 1)
  }

  lemma {:induction false} PowPositive(b: nat, k: nat)
    requires b > 0
    ensures Pow(b, k) > 0
  {
    if k > 0 {
      PowPositive(b, k - 1);
    }
  }

  lemma {:induction false} LengthInBase(b: nat, n: nat, k: nat)
    requires 2 <= b <= 16 && k > 0
    requires n < Pow(b, k)
    ensures |InBase(b, n)| <= k
  {
    if n >= b {
      assert Pow(b, k) == b * Pow(b, k - 1);
      DivMod(b, n);
      Quotient(b, n, Pow(b, k - 1));
      if k > 1 {
        LengthInBase(b, n / b, k - 1);
      }
    }
  }

  lemma Quotient(b: nat, n: nat, p: nat)
    requires b >= 2 && n < b * p
    ensures n / b < p
  {
    DivMod(b, n);
    if n / b >= p {
      MulMonotone(p, n / b, b);
    }
  }
}
