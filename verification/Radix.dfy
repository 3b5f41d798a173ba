/** Positional numerals in an arbitrary base: the arithmetic the two base58
    implementations share. Digit strings are most significant digit first. */
module Radix {

  ghost predicate IsDigits(base: nat, s: seq<nat>) {
    forall i :: 0 <= i < |s| ==> s[i] < base
  }

  /** The number a digit string spells. */
  function Value(base: nat, s: seq<nat>): nat {
    if s == [] then 0 else Value(base, s[..|s| - 1]) * base + s[|s| - 1]
  }

  lemma DivDecreases(n: nat, base: nat)
    requires 2 <= base && 0 < n
    ensures n / base < n
  {
    assert n == base * (n / base) + n % base;
    if n <= n / base {
      assert 2 * (n / base) <= base * (n / base) by { MulMono(2, base, n / base); }
    }
  }

  lemma MulMono(a: nat, b: nat, c: nat)
    requires a <= b
    ensures a * c <= b * c
  {
  }

  /** The shortest digit string of n; zero has none. */
  function Digits(base: nat, n: nat): seq<nat>
    requires 2 <= base
  {
    if n == 0 then [] else
      DivDecreases(n, base);
      Digits(base, n / base) + [n % base]
  }

  lemma DivModUnique(base: nat, q: nat, r: nat)
    requires 2 <= base && r < base
    ensures (q * base + r) / base == q && (q * base + r) % base == r
  {
    var q', r' := DivModParts(base, q * base + r);
    if q < q' { MulMono(q + 1, q', base); }
    if q' < q { MulMono(q' + 1, q, base); }
  }

  lemma ValueSnoc(base: nat, s: seq<nat>, d: nat)
    ensures Value(base, s + [d]) == Value(base, s) * base + d
  {
    assert (s + [d])[..|s|] == s;
  }

  lemma DivModParts(base: nat, n: nat) returns (q: nat, r: nat)
    requires 2 <= base
    ensures q == n / base && r == n % base && q * base + r == n && r < base
  {
    q, r := n / base, n % base;
  }

  lemma {:induction false} DigitsValue(base: nat, n: nat)
    requires 2 <= base
    ensures IsDigits(base, Digits(base, n)) && Value(base, Digits(base, n)) == n
    ensures n > 0 ==> Digits(base, n) != [] && Digits(base, n)[0] != 0
  {
    if n > 0 {
      var q, r := DivModParts(base, n);
      DivDecreases(n, base);
      DigitsValue(base, q);
      ValueSnoc(base, Digits(base, q), r);
    }
  }

  /** A digit string that does not start with zero is the shortest one of its value. */
  lemma {:induction false} ValueDigits(base: nat, s: seq<nat>)
    requires 2 <= base && IsDigits(base, s)
    requires s != [] ==> s[0] != 0
    ensures Digits(base, Value(base, s)) == s
    ensures s != [] ==> Value(base, s) > 0
  {
    if s != [] {
      var init, last := s[..|s| - 1], s[|s| - 1];
      ValueDigits(base, init);
      DivModUnique(base, Value(base, init), last);
      if init != [] {
        MulMono(1, Value(base, init), base);
      }
      assert s == init + [last];
    }
  }

  function Zeros(k: nat): seq<nat> {
    seq(k, _ => 0)
  }

  function LeadingZeros(s: seq<nat>): (k: nat)
    ensures k <= |s| && (forall i :: 0 <= i < k ==> s[i] == 0)
    ensures k < |s| ==> s[k] != 0
  {
    if s == [] || s[0] != 0 then 0 else 1 + LeadingZeros(s[1..])
  }

  lemma LeadingZerosUnique(s: seq<nat>, k: nat)
    requires k <= |s| && (forall i :: 0 <= i < k ==> s[i] == 0)
    requires k < |s| ==> s[k] != 0
    ensures LeadingZeros(s) == k
  {
  }

  lemma {:induction false} ValueZerosPrefix(base: nat, k: nat, s: seq<nat>)
    ensures Value(base, Zeros(k) + s) == Value(base, s)
    decreases k + |s|
  {
    var t := Zeros(k) + s;
    if s != [] {
      assert t[..|t| - 1] == Zeros(k) + s[..|s| - 1];
      ValueZerosPrefix(base, k, s[..|s| - 1]);
    } else if k > 0 {
      assert t[..|t| - 1] == Zeros(k - 1) + s;
      ValueZerosPrefix(base, k - 1, s);
    }
  }

  /** Base conversion that keeps one zero digit for every leading zero digit. */
  function Convert(from: nat, to: nat, s: seq<nat>): seq<nat>
    requires 2 <= to
  {
    Zeros(LeadingZeros(s)) + Digits(to, Value(from, s))
  }

  /** Converting back restores the digit string, leading zeros included. */
  lemma {:induction false} ConvertInverse(from: nat, to: nat, s: seq<nat>)
    requires 2 <= from && 2 <= to && IsDigits(from, s)
    ensures IsDigits(to, Convert(from, to, s))
    ensures LeadingZeros(Convert(from, to, s)) == LeadingZeros(s)
    ensures Convert(to, from, Convert(from, to, s)) == s
  {
    var k := LeadingZeros(s);
    var rest := s[k..];
    assert s == Zeros(k) + rest;
    ValueZerosPrefix(from, k, rest);
    var n := Value(from, rest);
    ValueDigits(from, rest);
    DigitsValue(to, n);
    var t := Convert(from, to, s);
    assert t == Zeros(k) + Digits(to, n);
    ValueZerosPrefix(to, k, Digits(to, n));
    LeadingZerosUnique(t, k);
  }
}
