/** The primes below 312. */
module Primes {
  import opened Words

  predicate IsPrime(n: nat) {
    n >= 2 && forall d :: 2 <= d < n ==> n % d != 0
  }

  /** None of the first seven primes divides n, unless it is n. */
  predicate Sieved(n: nat) {
    && n >= 2 && (n == 2 || n % 2 != 0) && (n == 3 || n % 3 != 0) && (n == 5 || n % 5 != 0) && (n == 7 || n % 7 != 0)
    && (n == 11 || n % 11 != 0) && (n == 13 || n % 13 != 0) && (n == 17 || n % 17 != 0)
  }

  /** From n up to the end exactly these four are left by the sieve. */
  predicate OnlySieved(n: nat, end: nat, a: nat, b: nat, c: nat, d: nat)
    decreases end - n
  {
    n >= end || ((Sieved(n) <==> n == a || n == b || n == c || n == d) && OnlySieved(n + 1, end, a, b, c, d))
  }

  lemma {:induction false} OneOfFour(from: nat, end: nat, a: nat, b: nat, c: nat, d: nat, n: nat)
    requires OnlySieved(from, end, a, b, c, d) && from <= n < end
    ensures Sieved(n) <==> n == a || n == b || n == c || n == d
    decreases end - from
  {
    if from < n {
      OneOfFour(from + 1, end, a, b, c, d, n);
    }
  }

  lemma Sieve0(n: nat)
    requires n < 11
    ensures Sieved(n) <==> n == 2 || n == 3 || n == 5 || n == 7
  {
    assert OnlySieved(3, 11, 2, 3, 5, 7);
    assert OnlySieved(0, 11, 2, 3, 5, 7);
    OneOfFour(0, 11, 2, 3, 5, 7, n);
  }

  lemma Sieve1(n: nat)
    requires 11 <= n < 23
    ensures Sieved(n) <==> n == 11 || n == 13 || n == 17 || n == 19
  {
    assert OnlySieved(15, 23, 11, 13, 17, 19);
    assert OnlySieved(11, 23, 11, 13, 17, 19);
    OneOfFour(11, 23, 11, 13, 17, 19, n);
  }

  lemma Sieve2(n: nat)
    requires 23 <= n < 41
    ensures Sieved(n) <==> n == 23 || n == 29 || n == 31 || n == 37
  {
    assert OnlySieved(33, 41, 23, 29, 31, 37);
    assert OnlySieved(25, 41, 23, 29, 31, 37);
    assert OnlySieved(23, 41, 23, 29, 31, 37);
    OneOfFour(23, 41, 23, 29, 31, 37, n);
  }

  lemma Sieve3(n: nat)
    requires 41 <= n < 59
    ensures Sieved(n) <==> n == 41 || n == 43 || n == 47 || n == 53
  {
    assert OnlySieved(51, 59, 41, 43, 47, 53);
    assert OnlySieved(43, 59, 41, 43, 47, 53);
    assert OnlySieved(41, 59, 41, 43, 47, 53);
    OneOfFour(41, 59, 41, 43, 47, 53, n);
  }

  lemma Sieve4(n: nat)
    requires 59 <= n < 73
    ensures Sieved(n) <==> n == 59 || n == 61 || n == 67 || n == 71
  {
    assert OnlySieved(65, 73, 59, 61, 67, 71);
    assert OnlySieved(59, 73, 59, 61, 67, 71);
    OneOfFour(59, 73, 59, 61, 67, 71, n);
  }

  lemma Sieve5(n: nat)
    requires 73 <= n < 97
    ensures Sieved(n) <==> n == 73 || n == 79 || n == 83 || n == 89
  {
    assert OnlySieved(89, 97, 73, 79, 83, 89);
    assert OnlySieved(81, 97, 73, 79, 83, 89);
    assert OnlySieved(73, 97, 73, 79, 83, 89);
    OneOfFour(73, 97, 73, 79, 83, 89, n);
  }

  lemma Sieve6(n: nat)
    requires 97 <= n < 109
    ensures Sieved(n) <==> n == 97 || n == 101 || n == 103 || n == 107
  {
    assert OnlySieved(101, 109, 97, 101, 103, 107);
    assert OnlySieved(97, 109, 97, 101, 103, 107);
    OneOfFour(97, 109, 97, 101, 103, 107, n);
  }

  lemma Sieve7(n: nat)
    requires 109 <= n < 137
    ensures Sieved(n) <==> n == 109 || n == 113 || n == 127 || n == 131
  {
    assert OnlySieved(129, 137, 109, 113, 127, 131);
    assert OnlySieved(121, 137, 109, 113, 127, 131);
    assert OnlySieved(113, 137, 109, 113, 127, 131);
    assert OnlySieved(109, 137, 109, 113, 127, 131);
    OneOfFour(109, 137, 109, 113, 127, 131, n);
  }

  lemma Sieve8(n: nat)
    requires 137 <= n < 157
    ensures Sieved(n) <==> n == 137 || n == 139 || n == 149 || n == 151
  {
    assert OnlySieved(149, 157, 137, 139, 149, 151);
    assert OnlySieved(141, 157, 137, 139, 149, 151);
    assert OnlySieved(137, 157, 137, 139, 149, 151);
    OneOfFour(137, 157, 137, 139, 149, 151, n);
  }

  lemma Sieve9(n: nat)
    requires 157 <= n < 179
    ensures Sieved(n) <==> n == 157 || n == 163 || n == 167 || n == 173
  {
    assert OnlySieved(171, 179, 157, 163, 167, 173);
    assert OnlySieved(163, 179, 157, 163, 167, 173);
    assert OnlySieved(157, 179, 157, 163, 167, 173);
    OneOfFour(157, 179, 157, 163, 167, 173, n);
  }

  lemma Sieve10(n: nat)
    requires 179 <= n < 197
    ensures Sieved(n) <==> n == 179 || n == 181 || n == 191 || n == 193
  {
    assert OnlySieved(189, 197, 179, 181, 191, 193);
    assert OnlySieved(181, 197, 179, 181, 191, 193);
    assert OnlySieved(179, 197, 179, 181, 191, 193);
    OneOfFour(179, 197, 179, 181, 191, 193, n);
  }

  lemma Sieve11(n: nat)
    requires 197 <= n < 227
    ensures Sieved(n) <==> n == 197 || n == 199 || n == 211 || n == 223
  {
    assert OnlySieved(219, 227, 197, 199, 211, 223);
    assert OnlySieved(211, 227, 197, 199, 211, 223);
    assert OnlySieved(203, 227, 197, 199, 211, 223);
    assert OnlySieved(197, 227, 197, 199, 211, 223);
    OneOfFour(197, 227, 197, 199, 211, 223, n);
  }

  lemma Sieve12(n: nat)
    requires 227 <= n < 241
    ensures Sieved(n) <==> n == 227 || n == 229 || n == 233 || n == 239
  {
    assert OnlySieved(233, 241, 227, 229, 233, 239);
    assert OnlySieved(227, 241, 227, 229, 233, 239);
    OneOfFour(227, 241, 227, 229, 233, 239, n);
  }

  lemma Sieve13(n: nat)
    requires 241 <= n < 269
    ensures Sieved(n) <==> n == 241 || n == 251 || n == 257 || n == 263
  {
    assert OnlySieved(261, 269, 241, 251, 257, 263);
    assert OnlySieved(253, 269, 241, 251, 257, 263);
    assert OnlySieved(245, 269, 241, 251, 257, 263);
    assert OnlySieved(241, 269, 241, 251, 257, 263);
    OneOfFour(241, 269, 241, 251, 257, 263, n);
  }

  lemma Sieve14(n: nat)
    requires 269 <= n < 283
    ensures Sieved(n) <==> n == 269 || n == 271 || n == 277 || n == 281
  {
    assert OnlySieved(275, 283, 269, 271, 277, 281);
    assert OnlySieved(269, 283, 269, 271, 277, 281);
    OneOfFour(269, 283, 269, 271, 277, 281, n);
  }

  lemma Sieve15(n: nat)
    requires 283 <= n < 312
    ensures Sieved(n) <==> n == 283 || n == 293 || n == 307 || n == 311
  {
    assert OnlySieved(304, 312, 283, 293, 307, 311);
    assert OnlySieved(296, 312, 283, 293, 307, 311);
    assert OnlySieved(288, 312, 283, 293, 307, 311);
    assert OnlySieved(283, 312, 283, 293, 307, 311);
    OneOfFour(283, 312, 283, 293, 307, 311, n);
  }

  /** What divides n below 18 has a prime factor the sieve tries. */
  lemma SmallFactor(d: nat) returns (p: nat)
    requires 2 <= d < 18
    ensures p in {2, 3, 5, 7, 11, 13, 17} && d % p == 0
  {
    p := if d % 2 == 0 then 2 else if d % 3 == 0 then 3 else if d % 5 == 0 then 5 else if d % 7 == 0 then 7 else d;
  }

  lemma Divides(n: nat, d: nat, p: nat)
    requires d > 0 && p > 0 && n % d == 0 && d % p == 0
    ensures n % p == 0
  {
    var a, b := n / d, d / p;
    assert n == a * (b * p) + 0;
    assert a * (b * p) == (a * b) * p;
    RemainderUnique(n, p, a * b, 0);
  }

  lemma AtLeast(d: nat, k: nat)
    ensures d >= 18 && k >= 18 ==> d * k >= 324
  {
    if d >= 18 && k >= 18 {
      assert d * k >= 18 * k;
    }
  }

  lemma Cofactor(n: nat, d: nat) returns (k: nat)
    requires 2 <= d < n && n % d == 0 && n < 324 && d >= 18
    ensures 2 <= k < 18 && k < n && n % k == 0
  {
    k := n / d;
    assert n == d * k + 0;
    AtLeast(d, k);
    RemainderUnique(n, k, d, 0);
  }

  lemma SievedIsPrime(n: nat)
    requires n < 312
    ensures Sieved(n) <==> IsPrime(n)
  {
    if Sieved(n) {
      forall d | 2 <= d < n
        ensures n % d != 0
      {
        NoDivisor(n, d);
      }
    }
  }

  lemma NoDivisor(n: nat, d: nat)
    requires Sieved(n) && n < 312 && 2 <= d < n
    ensures n % d != 0
  {
    if n % d == 0 {
      if d < 18 {
        NoSmallDivisor(n, d);
      } else {
        var k := Cofactor(n, d);
        NoSmallDivisor(n, k);
      }
    }
  }

  lemma NoSmallDivisor(n: nat, d: nat)
    requires Sieved(n) && 2 <= d < 18 && d < n
    ensures n % d != 0
  {
    if n % d == 0 {
      var p := SmallFactor(d);
      Divides(n, d, p);
      SmallPrime(d, p, n);
    }
  }

  /** A sieved number that one of the sieve's primes divides is that prime. */
  lemma SmallPrime(d: nat, p: nat, n: nat)
    requires p in {2, 3, 5, 7, 11, 13, 17} && 2 <= d < 18 && n % p == 0 && n % d == 0 && Sieved(n)
    ensures n == p && d == n
  {
  }
}
