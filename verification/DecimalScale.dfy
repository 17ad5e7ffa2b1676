/** Rescaling a price by moving its decimal point, done on the digit string. */
module DecimalScale {
  import opened Prelude

  predicate IsDigits(s: string) {
    forall i | 0 <= i < |s| :: '0' <= s[i] <= '9'
  }

  function Zeros(n: nat): (s: string)
    ensures |s| == n && IsDigits(s)
  {
    seq(n, _ => '0')
  }

  /** The source's `convertDecimal`. */
  function ConvertDecimal(price: string, from: int, to: int): string {
    if to > from then price + Zeros(to - from)
    else if to < from then
      var delta := from - to;
      if |price| <= delta then "" else price[..|price| - delta]
    else price
  }

  /** What a digit string denotes; the empty string denotes zero. */
  function Number(s: string): nat
    requires IsDigits(s)
  {
    if s == "" then 0 else 10 * Number(s[..|s| - 1]) + (s[|s| - 1] - '0') as nat
  }

  function Pow10(n: nat): (p: nat)
    ensures p > 0
  {
    if n == 0 then 1 else 10 * Pow10(n - 1)
  }

  lemma {:induction false} NumberOfZeros(s: string, n: nat)
    requires IsDigits(s)
    ensures IsDigits(s + Zeros(n)) && Number(s + Zeros(n)) == Number(s) * Pow10(n)
  {
    if n == 0 {
      assert s + Zeros(n) == s;
    } else {
      var longer := s + Zeros(n);
      assert longer[..|longer| - 1] == s + Zeros(n - 1);
      assert longer[|longer| - 1] == '0';
      NumberOfZeros(s, n - 1);
      TenTimes(Number(s), Pow10(n - 1));
    }
  }

  lemma TenTimes(x: nat, p: nat)
    ensures x * (10 * p) == 10 * (x * p)
  {
  }

  /** Cutting `n` digits off is dividing by the power of ten, rounding down. */
  lemma {:induction false} NumberOfPrefix(s: string, n: nat)
    requires IsDigits(s) && n <= |s|
    ensures Number(s[..|s| - n]) == Number(s) / Pow10(n)
    decreases n
  {
    if n == 0 {
      assert s[..|s| - n] == s;
    } else {
      var shorter := s[..|s| - 1];
      assert shorter[..|shorter| - (n - 1)] == s[..|s| - n];
      NumberOfPrefix(shorter, n - 1);
      assert Number(shorter) == Number(s) / 10;
      DivideTwice(Number(s), 10, Pow10(n - 1));
    }
  }

  lemma DivideTwice(x: nat, a: nat, b: nat)
    requires a > 0 && b > 0
    ensures x / a / b == x / (a * b)
  {
    var y := x / a;
    RemainderFits(a, b, y % b, x % a);
    Regroup(a, b, y / b, y % b);
    Quotient(x, a * b, y / b, a * (y % b) + x % a);
  }

  lemma RemainderFits(a: nat, b: nat, r: nat, s: nat)
    requires r < b && s < a
    ensures 0 <= a * r + s < a * b
  {
    MulFrom(a, r + 1, b);
  }

  lemma Regroup(a: nat, b: nat, q: nat, r: nat)
    ensures a * (b * q + r) == a * b * q + a * r
  {
  }

  lemma Quotient(x: nat, d: nat, q: nat, r: nat)
    requires d > 0 && r < d && x == d * q + r
    ensures x / d == q
  {
    var q' := x / d;
    if q' > q {
      MulFrom(d, q + 1, q');
    } else if q' < q {
      MulFrom(d, q' + 1, q);
    }
  }

  lemma {:induction false} MulFrom(d: nat, a: nat, b: nat)
    requires 1 <= a <= b
    ensures d * (a - 1) + d <= d * b
    decreases b - a
  {
    if a < b {
      MulFrom(d, a + 1, b);
    }
  }

  lemma {:induction false} NumberBelowPower(s: string)
    requires IsDigits(s)
    ensures Number(s) < Pow10(|s|)
  {
    if s != "" {
      NumberBelowPower(s[..|s| - 1]);
    }
  }

  lemma {:induction false} Pow10Monotone(a: nat, b: nat)
    requires a <= b
    ensures Pow10(a) <= Pow10(b)
  {
    if a < b {
      Pow10Monotone(a, b - 1);
    }
  }

  /**
   The rescaled string denotes the price times the power of ten of the difference, rounded down: a
   string that is cut away altogether was less than one.
   */
  lemma ConvertScales(price: string, from: int, to: int)
    requires IsDigits(price)
    ensures IsDigits(ConvertDecimal(price, from, to))
    ensures Number(ConvertDecimal(price, from, to)) ==
            if to >= from then Number(price) * Pow10(to - from) else Number(price) / Pow10(from - to)
  {
    if to > from {
      NumberOfZeros(price, to - from);
    } else if to < from {
      if |price| <= from - to {
        NumberBelowPower(price);
        Pow10Monotone(|price|, from - to);
        Quotient(Number(price), Pow10(from - to), 0, Number(price));
      } else {
        NumberOfPrefix(price, from - to);
      }
    }
  }

  /** The digits cut off on the way through `b` that the direct way keeps are zeros. */
  predicate LostDigitsAreZeros(price: string, a: int, b: int, c: int)
    requires b < Min(a, c)
  {
    var kept := if c < a then |price| - (a - c) else |price|;
    && |price| >= a - b
    && forall i | |price| - (a - b) <= i < kept :: price[i] == '0'
  }

  /** With `b` below both, cutting down to it and filling up again puts zeros for the digits lost. */
  lemma BelowBoth(price: string, a: int, b: int, c: int)
    requires b < a && b < c
    ensures ConvertDecimal(ConvertDecimal(price, a, b), b, c) == ConvertDecimal(price, a, c) <==>
              LostDigitsAreZeros(price, a, b, c)
  {
    var two, direct := ConvertDecimal(price, a, b) + Zeros(c - b), ConvertDecimal(price, a, c);
    var cut := |price| - (a - b);
    if cut < 0 {
      assert |two| != |direct|;
    } else {
      assert |two| == |direct|;
      assert forall i | 0 <= i < |two| :: two[i] == if i < cut then price[i] else '0';
      assert forall i | 0 <= i < |direct| :: direct[i] == if i < |price| then price[i] else '0';
      if LostDigitsAreZeros(price, a, b, c) {
        assert two == direct;
      } else {
        var i :| cut <= i < (if c < a then |price| - (a - c) else |price|) && price[i] != '0';
        assert two[i] != direct[i];
      }
    }
  }

  /** With `b` keeping enough digits nothing is lost on the way. */
  lemma AboveOne(price: string, a: int, b: int, c: int)
    requires b >= Min(a, c)
    ensures ConvertDecimal(ConvertDecimal(price, a, b), b, c) == ConvertDecimal(price, a, c)
  {
    if b >= a {
      var mid := price + Zeros(b - a);
      if c >= b {
        assert mid + Zeros(c - b) == price + Zeros(c - a);
      } else if |mid| > b - c {
        assert mid[..|mid| - (b - c)] == ConvertDecimal(price, a, c);
      }
    } else {
      assert c <= b < a;
      assert |price| > a - c ==> price[..|price| - (a - b)][..|price| - (a - c)] == price[..|price| - (a - c)];
    }
  }

  /**
   Going from `a` to `b` to `c` gives the string of going from `a` to `c` directly when `b` keeps at
   least the digits of the smaller of the two, so scaling up and back changes nothing. For a `b`
   below both it does so exactly when the digits lost on the way were zeros.
   */
  lemma ConvertComposes(price: string, a: int, b: int, c: int)
    ensures ConvertDecimal(ConvertDecimal(price, a, b), b, c) == ConvertDecimal(price, a, c) <==>
              b >= Min(a, c) || LostDigitsAreZeros(price, a, b, c)
  {
    if b < a && b < c {
      BelowBoth(price, a, b, c);
    } else {
      AboveOne(price, a, b, c);
    }
  }
}
