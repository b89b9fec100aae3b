/** The signature scheme, idealised.  A group element is its exponent, so that
    adding points is addition modulo the group order, a public key is its secret
    exponent, and a signature on a message with hash-to-curve exponent `h` is
    `key * h`.  The pairing check then compares `signature` with `key * h`. */
module Bn254 {

  type Order = r: nat | r > 0 witness 1

  type Element = nat

  function Add(r: Order, a: Element, b: Element): Element {
    (a + b) % r
  }

  function Sign(r: Order, h: nat, key: Element): Element {
    (key * h) % r
  }

  predicate Verify(r: Order, h: nat, signature: Element, key: Element) {
    signature % r == (key * h) % r
  }

  /** The sum of a list of elements, folded from the left as both sides fold it. */
  function Sum(r: Order, xs: seq<Element>): Element
    requires xs != []
  {
    if |xs| == 1 then xs[0] else Add(r, Sum(r, xs[..|xs| - 1]), xs[|xs| - 1])
  }

  lemma SumAppend(r: Order, xs: seq<Element>, x: Element)
    ensures Sum(r, xs + [x]) == if xs == [] then x else Add(r, Sum(r, xs), x)
  {
    assert (xs + [x])[..|xs|] == xs;
  }

  // ----- congruences

  lemma ModShift(a: int, k: int, r: Order)
    ensures (a + k * r) % r == a % r
    decreases if k >= 0 then k else -k
  {
    if k > 0 {
      ModShift(a, k - 1, r);
      ModStep(a + (k - 1) * r, r);
      assert a + k * r == a + (k - 1) * r + r;
    } else if k < 0 {
      ModShift(a, k + 1, r);
      ModStep(a + k * r, r);
      assert a + (k + 1) * r == a + k * r + r;
    }
  }

  lemma ModStep(a: int, r: Order)
    ensures (a + r) % r == a % r
  {
    var q, m := a / r, a % r;
    assert a == q * r + m;
    assert a + r == (q + 1) * r + m;
    DivModUnique(a + r, q + 1, m, r);
  }

  lemma SmallMultiple(d: int, r: int, x: int)
    requires d * r == x && x < r && 0 < x + r
    ensures d == 0
  {
    assert d >= 1 ==> d * r >= r;
    assert d <= -1 ==> d * r <= -r;
  }

  lemma DivModUnique(a: int, q: int, m: int, r: Order)
    requires a == q * r + m && 0 <= m < r
    ensures a % r == m
  {
    var d := a / r - q;
    assert a == (a / r) * r + a % r;
    assert d * r == m - a % r;
    SmallMultiple(d, r, m - a % r);
  }

  lemma ModAdd(a: int, b: int, r: Order)
    ensures (a % r + b % r) % r == (a + b) % r
  {
    assert a + b == (a % r + b % r) + (a / r + b / r) * r;
    ModShift(a % r + b % r, a / r + b / r, r);
  }

  lemma ModMul(a: int, h: int, r: Order)
    ensures ((a % r) * h) % r == (a * h) % r
  {
    assert a * h == (a % r) * h + ((a / r) * h) * r by {
      assert a == (a / r) * r + a % r;
      assert ((a / r) * r) * h == ((a / r) * h) * r;
    }
    ModShift((a % r) * h, (a / r) * h, r);
  }

  // ----- aggregation

  /** Signatures on one message add up to a signature under the sum of the keys. */
  lemma AddVerifies(r: Order, h: nat, s1: Element, k1: Element, s2: Element, k2: Element)
    requires Verify(r, h, s1, k1) && Verify(r, h, s2, k2)
    ensures Verify(r, h, Add(r, s1, s2), Add(r, k1, k2))
  {
    ModAdd(s1, s2, r);
    ModAdd(k1 * h, k2 * h, r);
    assert k1 * h + k2 * h == (k1 + k2) * h;
    ModMul(k1 + k2, h, r);
    ModIdempotent(s1 + s2, r);
  }

  lemma ModIdempotent(a: int, r: Order)
    ensures (a % r) % r == a % r
  {
    DivModUnique(a % r, 0, a % r, r);
  }

  lemma {:induction false} SumVerifies(r: Order, h: nat, sigs: seq<Element>, keys: seq<Element>)
    requires |sigs| == |keys| > 0
    requires forall i :: 0 <= i < |sigs| ==> Verify(r, h, sigs[i], keys[i])
    ensures Verify(r, h, Sum(r, sigs), Sum(r, keys))
  {
    var n := |sigs| - 1;
    if n > 0 {
      SumVerifies(r, h, sigs[..n], keys[..n]);
      AddVerifies(r, h, Sum(r, sigs[..n]), Sum(r, keys[..n]), sigs[n], keys[n]);
    }
  }

  // ----- a signature pins its message

  ghost predicate Divides(d: nat, n: int) {
    exists k: int :: Times(k, d) == n
  }

  function Times(k: int, d: int): int { k * d }

  ghost predicate Prime(r: nat) {
    r > 1 && forall d :: 1 < d < r ==> !Divides(d, r)
  }

  /** Euclid's lemma, by descent on `a` through the remainders of `r`. */
  lemma {:induction false} Euclid(r: nat, a: nat, b: int)
    requires Prime(r) && 0 < a < r && Divides(r, a * b)
    ensures Divides(r, b)
    decreases a
  {
    if a == 1 {
    } else {
      var q, t := r / a, r % a;
      assert r == q * a + t;
      if t == 0 {
        assert Times(q, a) == r;
        assert Divides(a, r);
        assert false;
      }
      var k: int :| Times(k, r) == a * b;
      assert t * b == Times(b - q * k, r) by {
        calc {
          t * b;
          (r - q * a) * b;
          r * b - q * (a * b);
          r * b - q * (k * r);
          (b - q * k) * r;
        }
      }
      assert Divides(r, t * b);
      Euclid(r, t, b);
    }
  }

  lemma SameRemainder(a: int, b: int, r: Order)
    requires a % r == b % r
    ensures Divides(r, a - b)
  {
    assert a - b == Times(a / r - b / r, r);
  }

  lemma DividesSmall(r: Order, n: int)
    requires Divides(r, n) && n < r && 0 < n + r
    ensures n == 0
  {
    var k: int :| Times(k, r) == n;
    SmallMultiple(k, r, n);
  }

  /** In a group of prime order a signature under a non-zero key verifies against
      one hash-to-curve exponent only. */
  lemma SignaturePinsMessage(r: Order, s: Element, key: Element, h1: nat, h2: nat)
    requires Prime(r) && key % r != 0 && h1 < r && h2 < r
    requires Verify(r, h1, s, key)
    ensures Verify(r, h2, s, key) <==> h1 == h2
  {
    if Verify(r, h2, s, key) {
      ModMul(key, h1, r);
      ModMul(key, h2, r);
      var a := key % r;
      SameRemainder(a * h1, a * h2, r);
      assert a * h1 - a * h2 == a * (h1 - h2);
      Euclid(r, a, h1 - h2);
      DividesSmall(r, h1 - h2);
    }
  }
}
