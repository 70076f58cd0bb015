/** Integer facts the other modules share: floor division, Go's `/` and `&`, powers of two. */
module Arith {

  /** Go's int64 division, which truncates toward zero. */
  function GoDiv(a: int, b: int): int
    requires b > 0
  {
    if a >= 0 then a / b else -((-a) / b)
  }

  /** Go's conversion of an int64 to uint32: the low 32 bits. */
  function Uint32(x: int): nat {
    x % 0x1_0000_0000
  }

  /** Bitwise AND of two unsigned values. */
  function And(a: nat, b: nat): (r: nat)
    ensures r <= a && r <= b
  {
    if a == 0 || b == 0 then 0
    else 2 * And(a / 2, b / 2) + (if a % 2 == 1 && b % 2 == 1 then 1 else 0)
  }

  function Pow2(k: nat): (r: nat)
    ensures r >= 1
  {
    if k == 0 then 1 else 2 * Pow2(k - 1)
  }

  predicate IsPow2Uint32(size: nat) {
    exists k: nat :: k < 32 && size == Pow2(k)
  }

  lemma AndDouble(a: nat, p: nat)
    requires p >= 1 && a > 0
    ensures And(a, 2 * p - 1) == 2 * And(a / 2, p - 1) + a % 2
  {
    assert (2 * p - 1) / 2 == p - 1 && (2 * p - 1) % 2 == 1;
  }

  lemma ModDouble(a: nat, p: nat)
    requires p >= 1
    ensures a % (2 * p) == 2 * ((a / 2) % p) + a % 2
  {
    var h := a / 2;
    DivMod(h, p);
    var q, r := h / p, h % p;
    assert a == (2 * p) * q + (2 * r + a % 2) by {
      assert 2 * (q * p) == (2 * p) * q;
    }
    ModUnique(a, 2 * p, q, 2 * r + a % 2);
  }

  /** Masking with 2^k - 1 is reduction modulo 2^k. */
  lemma {:induction false} MaskIsMod(a: nat, k: nat)
    ensures And(a, Pow2(k) - 1) == a % Pow2(k)
    decreases k
  {
    if k == 0 {
    } else if a == 0 {
      ModOfSmall(0, Pow2(k));
    } else {
      var p := Pow2(k - 1);
      AndDouble(a, p);
      ModDouble(a, p);
      MaskIsMod(a / 2, k - 1);
    }
  }

  lemma {:induction false} Pow2Divides(k: nat, n: nat)
    requires k <= n
    ensures Pow2(n) % Pow2(k) == 0
    decreases n
  {
    if k == n {
      ModUnique(Pow2(n), Pow2(k), 1, 0);
    } else {
      Pow2Divides(k, n - 1);
      DivMod(Pow2(n - 1), Pow2(k));
      var q := Pow2(n - 1) / Pow2(k);
      assert Pow2(n) == (2 * q) * Pow2(k) + 0;
      ModUnique(Pow2(n), Pow2(k), 2 * q, 0);
    }
  }

  lemma DivMod(x: int, t: int)
    requires t > 0
    ensures x == (x / t) * t + x % t && 0 <= x % t < t
  {
  }

  lemma DivBounds(x: int, t: int)
    requires t > 0
    ensures (x / t) * t <= x < (x / t + 1) * t
  {
    DivMod(x, t);
    assert (x / t + 1) * t == (x / t) * t + t;
  }

  lemma MulMono(a: int, b: int, t: int)
    requires a <= b && t >= 0
    ensures a * t <= b * t
  {
    assert (b - a) * t >= 0;
  }

  /** The quotient and remainder are unique. */
  lemma ModUnique(x: int, t: int, q: int, r: int)
    requires t > 0 && x == t * q + r && 0 <= r < t
    ensures x / t == q && x % t == r
  {
    DivMod(x, t);
    var d := x / t - q;
    assert d * t == r - x % t by {
      assert d * t == (x / t) * t - q * t;
    }
    if d >= 1 { MulMono(1, d, t); }
    if d <= -1 { MulMono(d, -1, t); }
  }

  lemma DivUnique(x: int, t: int, q: int)
    requires t > 0 && q * t <= x < (q + 1) * t
    ensures x / t == q
  {
    assert (q + 1) * t == q * t + t;
    ModUnique(x, t, q, x - q * t);
  }

  lemma ModOfSmall(x: int, t: int)
    requires 0 <= x < t
    ensures x % t == x && x / t == 0
  {
    ModUnique(x, t, 0, x);
  }

  lemma DivMono(x: int, y: int, t: int)
    requires t > 0 && x <= y
    ensures x / t <= y / t
  {
    DivBounds(x, t);
    DivBounds(y, t);
    if x / t > y / t {
      MulMono(y / t + 1, x / t, t);
    }
  }

  /** Adding whole periods only moves the quotient. */
  lemma DivAdd(x: int, t: int, n: int)
    requires t > 0
    ensures (x + n * t) / t == x / t + n
    ensures (x + n * t) % t == x % t
  {
    DivMod(x, t);
    assert x + n * t == t * (x / t + n) + x % t by {
      assert t * (x / t + n) == (x / t) * t + n * t;
    }
    ModUnique(x + n * t, t, x / t + n, x % t);
  }

  lemma MulMod(q: int, t: int)
    requires t > 0
    ensures (q * t) % t == 0 && (q * t) / t == q
  {
    ModUnique(q * t, t, q, 0);
  }

  /** Two residues that agree and differ by less than a period are equal. */
  lemma SameResidue(x: int, y: int, t: int)
    requires t > 0 && x % t == y % t && -t < x - y < t
    ensures x == y
  {
    DivMod(x, t);
    DivMod(y, t);
    var d := x / t - y / t;
    assert x - y == d * t by {
      assert d * t == (x / t) * t - (y / t) * t;
    }
    if d >= 1 { MulMono(1, d, t); }
    if d <= -1 { MulMono(d, -1, t); }
  }

  /** Dividing by t and then by s is dividing by t * s. */
  lemma NestedDiv(x: int, t: int, s: int)
    requires t > 0 && s > 0
    ensures t * s > 0
    ensures (x / t) / s == x / (t * s)
    ensures x % (t * s) == 0 <==> x % t == 0 && (x / t) % s == 0
  {
    assert t * s > 0 by { MulMono(1, s, t); }
    DivMod(x, t);
    DivMod(x / t, s);
    var q, r := (x / t) / s, (x / t) % s;
    var rest := r * t + x % t;
    assert x == (t * s) * q + rest by {
      assert x == (q * s + r) * t + x % t;
      assert (q * s + r) * t == (t * s) * q + r * t;
    }
    assert 0 <= rest < t * s by {
      MulMono(0, r, t);
      MulMono(r + 1, s, t);
      assert (r + 1) * t == r * t + t;
      assert s * t == t * s;
    }
    ModUnique(x, t * s, q, rest);
    if rest == 0 {
      if r >= 1 { MulMono(1, r, t); }
    }
  }

  lemma {:induction false} Pow2Add(a: nat, b: nat)
    ensures Pow2(a + b) == Pow2(a) * Pow2(b)
    decreases b
  {
    if b == 0 {
    } else {
      Pow2Add(a, b - 1);
      assert Pow2(a + b) == 2 * Pow2(a + (b - 1));
      assert 2 * (Pow2(a) * Pow2(b - 1)) == Pow2(a) * (2 * Pow2(b - 1));
    }
  }

  lemma Pow2Of32()
    ensures Pow2(32) == 0x1_0000_0000
  {
    assert Pow2(4) == 16;
    Pow2Add(4, 4);
    Pow2Add(8, 8);
    Pow2Add(16, 16);
  }

  /** Reducing modulo a multiple of p first does not change the residue modulo p. */
  lemma ModOfMod(x: int, n: int, p: int)
    requires n > 0 && p > 0 && n % p == 0
    ensures (x % n) % p == x % p
  {
    DivMod(x, n);
    DivMod(n, p);
    var c := (x / n) * (n / p);
    assert x % n == x + (-c) * p by {
      assert (x / n) * n == (x / n) * ((n / p) * p);
      assert (x / n) * ((n / p) * p) == c * p;
      assert (-c) * p == -(c * p);
    }
    DivAdd(x, p, -c);
  }

  /** Truncating to 32 bits before masking does not change the slot of a power-of-two wheel. */
  lemma MaskedUint32(x: nat, size: nat)
    requires IsPow2Uint32(size)
    ensures size > 0 && And(Uint32(x), size - 1) == x % size
  {
    var k: nat :| k < 32 && size == Pow2(k);
    MaskIsMod(Uint32(x), k);
    Pow2Of32();
    Pow2Divides(k, 32);
    ModOfMod(x, 0x1_0000_0000, size);
  }
}
