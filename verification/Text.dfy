/** Small vocabulary shared by every part of the model: options, ASCII case
    folding, and the numerals the services print into ids and nicks. */
module Text {

  datatype Option<+T> = None | Some(value: T)

  function LowerChar(c: char): char {
    if 'A' <= c <= 'Z' then (c as int + 32) as char else c
  }

  /** ASCII lower-casing: the key form of every nick and channel name. */
  function Lower(s: string): (r: string)
    ensures |r| == |s|
    ensures forall i :: 0 <= i < |s| ==> r[i] == LowerChar(s[i])
  {
    seq(|s|, i requires 0 <= i < |s| => LowerChar(s[i]))
  }

  lemma LowerConcat(a: string, b: string)
    ensures Lower(a + b) == Lower(a) + Lower(b)
  {
  }
}

/** Positional numerals: decimal counters in nicks and uids, base 36 in incident ids. */
module Numerals {

  function Digit(d: nat): char
    requires d < 36
  {
    if d < 10 then ('0' as int + d) as char else ('A' as int + (d - 10)) as char
  }

  function DigitValue(c: char): int {
    if '0' <= c <= '9' then c as int - '0' as int else c as int - 'A' as int + 10
  }

  /** The digits of `n`, most significant first, with no leading zero. */
  function Numeral(n: nat, radix: nat): (s: string)
    requires 2 <= radix <= 36
    ensures s != ""
    decreases n
  {
    if n < radix then [Digit(n)] else Numeral(n / radix, radix) + [Digit(n % radix)]
  }

  /** `{:05}`-style formatting: zeros in front until the width is reached. */
  function Padded(n: nat, width: nat): string {
    var s := Numeral(n, 10);
    seq(if |s| < width then width - |s| else 0, _ => '0') + s
  }

  function Value(s: string, radix: nat): int {
    if s == "" then 0
    else Value(s[..|s| - 1], radix) * radix + DigitValue(s[|s| - 1])
  }

  lemma DigitRoundTrip(d: nat)
    requires d < 36
    ensures DigitValue(Digit(d)) == d
    ensures '0' <= Digit(d) <= '9' || 'A' <= Digit(d) <= 'Z'
    ensures d < 10 ==> '0' <= Digit(d) <= '9'
  {
  }

  lemma ValueSnoc(s: string, c: char, radix: nat)
    ensures Value(s + [c], radix) == Value(s, radix) * radix + DigitValue(c)
  {
    assert (s + [c])[..|s + [c]| - 1] == s;
  }

  lemma {:induction false} ValueOfNumeral(n: nat, radix: nat)
    requires 2 <= radix <= 36
    ensures Value(Numeral(n, radix), radix) == n
    decreases n
  {
    if n < radix {
      ValueSnoc("", Digit(n), radix);
      DigitRoundTrip(n);
    } else {
      var q, d := NumeralStep(n, radix);
      ValueOfNumeral(q, radix);
      ValueOfLastDigit(q, d, Numeral(q, radix), radix);
    }
  }

  lemma NumeralStep(n: nat, radix: nat) returns (q: nat, d: nat)
    requires 2 <= radix <= 36 && radix <= n
    ensures d < radix && q < n && n == q * radix + d
    ensures Numeral(n, radix) == Numeral(q, radix) + [Digit(d)]
  {
    q, d := n / radix, n % radix;
  }

  lemma ValueOfLastDigit(q: nat, d: nat, s: string, radix: nat)
    requires d < radix <= 36 && Value(s, radix) == q
    ensures Value(s + [Digit(d)], radix) == q * radix + d
  {
    ValueSnoc(s, Digit(d), radix);
    DigitRoundTrip(d);
  }

  /** Reading a numeral back gives the number, so no two numbers print alike. */
  lemma NumeralInjective(m: nat, n: nat, radix: nat)
    requires 2 <= radix <= 36
    requires Numeral(m, radix) == Numeral(n, radix)
    ensures m == n
  {
    ValueOfNumeral(m, radix);
    ValueOfNumeral(n, radix);
  }

  lemma {:induction false} ValueIgnoresZeros(k: nat, s: string)
    ensures Value(seq(k, _ => '0') + s, 10) == Value(s, 10)
    decreases k + |s|
  {
    var z := seq(k, _ => '0');
    if s != "" {
      assert (z + s)[..|z + s| - 1] == z + s[..|s| - 1];
      ValueIgnoresZeros(k, s[..|s| - 1]);
    } else if k > 0 {
      assert (z + s)[..|z + s| - 1] == seq(k - 1, _ => '0') + "";
      ValueIgnoresZeros(k - 1, "");
    }
  }

  lemma PaddedReads(n: nat, width: nat)
    ensures Value(Padded(n, width), 10) == n && |Padded(n, width)| >= width
  {
    var a := Numeral(n, 10);
    ValueIgnoresZeros(if |a| < width then width - |a| else 0, a);
    ValueOfNumeral(n, 10);
  }

  /** `bound` is the tenth power of `digits`. */
  predicate PowerOfTen(digits: nat, bound: nat) {
    if digits == 0 then bound == 1 else bound % 10 == 0 && PowerOfTen(digits - 1, bound / 10)
  }

  lemma {:induction false} ShortNumeral(n: nat, digits: nat, bound: nat)
    requires digits > 0 && PowerOfTen(digits, bound) && n < bound
    ensures |Numeral(n, 10)| <= digits
    decreases digits
  {
    if n >= 10 {
      var q, d := NumeralStep(n, 10);
      assert digits > 1 by {
        assert PowerOfTen(digits - 1, bound / 10);
      }
      ShortNumeral(q, digits - 1, bound / 10);
    }
  }

  lemma PaddedInjective(m: nat, n: nat, width: nat)
    requires Padded(m, width) == Padded(n, width)
    ensures m == n
  {
    var a, b := Numeral(m, 10), Numeral(n, 10);
    ValueIgnoresZeros(if |a| < width then width - |a| else 0, a);
    ValueIgnoresZeros(if |b| < width then width - |b| else 0, b);
    ValueOfNumeral(m, 10);
    ValueOfNumeral(n, 10);
  }

  /** Every character of a numeral is one of its digits. */
  lemma {:induction false} NumeralDigits(n: nat, radix: nat)
    requires 2 <= radix <= 36
    ensures forall c :: c in Numeral(n, radix) ==> '0' <= c <= '9' || 'A' <= c <= 'Z'
    ensures radix <= 10 ==> forall c :: c in Numeral(n, radix) ==> '0' <= c <= '9'
    decreases n
  {
    if n < radix {
      DigitRoundTrip(n);
    } else {
      var q, d := NumeralStep(n, radix);
      NumeralDigits(q, radix);
      DigitRoundTrip(d);
    }
  }
}

/** Iterating over hash maps and sets, whose order is whatever the process yields. */
module Iteration {

  function Elements<X>(order: seq<X>): set<X> {
    set x | x in order
  }

  ghost predicate Distinct<X>(order: seq<X>) {
    forall i, j :: 0 <= i < j < |order| ==> order[i] != order[j]
  }

  lemma ElementsSnoc<X>(order: seq<X>)
    requires order != [] && Distinct(order)
    ensures var front, last := order[..|order| - 1], order[|order| - 1];
            Distinct(front) && last !in Elements(front) && Elements(order) == Elements(front) + {last}
  {
    assert order == order[..|order| - 1] + [order[|order| - 1]];
  }

  lemma SubsetFits<X>(a: set<X>, b: set<X>)
    requires a <= b
    ensures |a| <= |b| && (|a| == |b| ==> a == b)
  {
    assert b == a + (b - a);
    assert |b| == |a| + |b - a|;
  }

  /** The entries of a hash map or set, in the order this process happens to yield. */
  method Enumerate<X(==)>(s: set<X>) returns (order: seq<X>)
    ensures Distinct(order) && Elements(order) == s
  {
    order := [];
    var rest := s;
    while rest != {}
      invariant Distinct(order) && Elements(order) == s - rest && rest <= s
      decreases rest
    {
      var x :| x in rest;
      assert Elements(order + [x]) == Elements(order) + {x};
      assert x !in Elements(order);
      order := order + [x];
      rest := rest - {x};
    }
  }
}

/** Quotients and remainders, without asking the solver to divide. */
module Division {

  lemma Quotient(n: int, d: int, k: int)
    requires d > 0 && k * d <= n < (k + 1) * d
    ensures n / d == k
  {
    assert n == d * (n / d) + n % d;
    Between(d, n / d, k);
    Between(d, k, n / d);
  }

  lemma Between(d: int, x: int, y: int)
    requires d > 0
    ensures x < y ==> d * x + d <= d * y
  {
    if x < y {
      assert d * (y - x - 1) >= 0;
    }
  }

  lemma Remainder(n: int, d: int, k: int, r: int)
    requires d > 0 && n == k * d + r && 0 <= r < d
    ensures n % d == r
  {
    Quotient(n, d, k);
  }
}
