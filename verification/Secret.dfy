/** The password comparison that takes the same time wherever the first difference is. */
module Secret {
  /** Bitwise exclusive or and or, digit by binary digit. */
  function Xor(x: nat, y: nat): nat
  {
    if x == 0 && y == 0 then 0 else 2 * Xor(x / 2, y / 2) + if x % 2 == y % 2 then 0 else 1
  }

  function Or(x: nat, y: nat): nat
  {
    if x == 0 && y == 0 then 0 else 2 * Or(x / 2, y / 2) + if x % 2 == 0 && y % 2 == 0 then 0 else 1
  }

  /** The low bits of n, as a cast to a narrower unsigned type keeps them. */
  function Low(n: nat, bits: nat): nat
  {
    if bits == 0 then 0 else 2 * Low(n / 2, bits - 1) + n % 2
  }

  lemma {:induction false} XorZero(x: nat, y: nat)
    ensures Xor(x, y) == 0 <==> x == y
  {
    if x != 0 || y != 0 {
      XorZero(x / 2, y / 2);
    }
  }

  lemma {:induction false} OrZero(x: nat, y: nat)
    ensures Or(x, y) == 0 <==> x == 0 && y == 0
  {
    if x != 0 || y != 0 {
      OrZero(x / 2, y / 2);
    }
  }

  lemma {:induction false} LowXorZero(x: nat, y: nat, bits: nat)
    ensures Low(Xor(x, y), bits) == 0 <==> Low(x, bits) == Low(y, bits)
    decreases bits
  {
    if bits > 0 {
      LowXorZero(x / 2, y / 2, bits - 1);
    }
  }

  lemma MultipleSize(p: int, d: int)
    requires p > 0
    ensures d >= 1 ==> p * d >= p
    ensures d <= -1 ==> p * d <= -p
  {
  }

  lemma RemainderUnique(x: nat, p: nat, t: nat, u: nat)
    requires u < p && x == p * t + u
    ensures x % p == u
  {
    var d := x / p - t;
    assert p * (x / p) + x % p == x;
    assert p * d == u - x % p;
    MultipleSize(p, d);
  }

  lemma HalfRemainder(n: nat, m: nat)
    requires m > 0
    ensures n % (2 * m) == 2 * (n / 2 % m) + n % 2
  {
    var t, u := n / 2 / m, n / 2 % m;
    assert n / 2 == m * t + u;
    assert n == 2 * (n / 2) + n % 2;
    assert 2 * (m * t) == 2 * m * t;
    RemainderUnique(n, 2 * m, t, 2 * u + n % 2);
  }

  function Power(bits: nat): (p: nat)
    ensures p > 0
  {
    if bits == 0 then 1 else 2 * Power(bits - 1)
  }

  lemma {:induction false} LowIsRemainder(n: nat, bits: nat)
    ensures Low(n, bits) == n % Power(bits)
    decreases bits
  {
    if bits > 0 {
      LowIsRemainder(n / 2, bits - 1);
      HalfRemainder(n, Power(bits - 1));
    }
  }

  lemma LowByte(n: nat)
    ensures Low(n, 8) == n % 256
  {
    LowIsRemainder(n, 8);
    assert Power(4) == 16;
    assert Power(8) == 256;
  }

  /** The byte at i, or a NUL past the end. */
  function Padded(s: string, i: nat): char
  {
    if i < |s| then s[i] else '\0'
  }

  function Longer(a: string, b: string): nat
  {
    if |a| >= |b| then |a| else |b|
  }

  /** What the comparison accepts: lengths that agree in their low eight bits, and the same
      bytes once the shorter string is padded with NULs. */
  predicate SecretEq(a: string, b: string)
  {
    |a| % 256 == |b| % 256 && forall i :: 0 <= i < Longer(a, b) ==> Padded(a, i) == Padded(b, i)
  }

  /** Differences are collected with OR and looked at once, at the end. */
  method ConstantTimeEquals(a: string, b: string) returns (same: bool)
    ensures same <==> SecretEq(a, b)
  {
    var n := Longer(a, b);
    var acc := Low(Xor(|a|, |b|), 8);
    LowXorZero(|a|, |b|, 8);
    LowByte(|a|);
    LowByte(|b|);
    for i := 0 to n
      invariant acc == 0 <==> |a| % 256 == |b| % 256 && forall j :: 0 <= j < i ==> Padded(a, j) == Padded(b, j)
    {
      var av, bv := Padded(a, i) as nat, Padded(b, i) as nat;
      XorZero(av, bv);
      OrZero(acc, Xor(av, bv));
      acc := Or(acc, Xor(av, bv));
    }
    return acc == 0;
  }

  /** b is a, followed by a whole number of blocks of 256 NULs. */
  predicate NulExtends(a: string, b: string)
  {
    && |a| <= |b| && (|b| - |a|) % 256 == 0
    && b[..|a|] == a && forall i :: |a| <= i < |b| ==> b[i] == '\0'
  }

  lemma SameRemainder(m: nat, n: nat)
    requires m <= n
    ensures m % 256 == n % 256 <==> (n - m) % 256 == 0
  {
  }

  lemma SameBytes(a: string, b: string)
    requires |a| <= |b|
    ensures (forall i :: 0 <= i < |b| ==> Padded(a, i) == Padded(b, i)) <==>
            b[..|a|] == a && forall i :: |a| <= i < |b| ==> b[i] == '\0'
  {
    forall i | 0 <= i < |b|
      ensures Padded(a, i) == Padded(b, i) <==> b[i] == if i < |a| then a[i] else '\0'
    {
    }
    assert b[..|a|] == a <==> forall i :: 0 <= i < |a| ==> b[i] == a[i];
  }

  lemma ShorterFirst(a: string, b: string)
    requires |a| <= |b|
    ensures SecretEq(a, b) <==> NulExtends(a, b)
    ensures SecretEq(b, a) <==> NulExtends(a, b)
  {
    SameRemainder(|a|, |b|);
    SameBytes(a, b);
  }

  /** Two strings compare equal exactly when the longer one is the shorter one padded with a
      multiple of 256 NULs. */
  lemma SecretExact(a: string, b: string)
    ensures SecretEq(a, b) <==> NulExtends(a, b) || NulExtends(b, a)
  {
    if |a| <= |b| {
      ShorterFirst(a, b);
      assert NulExtends(b, a) ==> a == b;
    } else {
      ShorterFirst(b, a);
    }
  }

  predicate EndsInNul(s: string) { s != "" && s[|s| - 1] == '\0' }

  lemma NulExtendsItself(a: string, b: string)
    requires NulExtends(a, b) && (|a| == |b| || !EndsInNul(b))
    ensures a == b
  {
    assert |a| < |b| ==> EndsInNul(b);
    assert b[..|b|] == b;
  }

  /** So it is equality for strings of one length, and for strings that do not end in NUL. */
  lemma SecretIsEquality(a: string, b: string)
    requires |a| == |b| || (!EndsInNul(a) && !EndsInNul(b))
    ensures SecretEq(a, b) <==> a == b
  {
    SecretExact(a, b);
    if NulExtends(a, b) {
      NulExtendsItself(a, b);
    } else if NulExtends(b, a) {
      NulExtendsItself(b, a);
    } else {
      assert a[..|a|] == a;
    }
  }
}
