/** Numbers as bit strings, most significant bit first. */
module BitStrings {
  import opened ByteStrings

  type Bits = seq<bool>

  function Pow2(n: nat): (p: nat)
    ensures p >= 1
  {
    if n == 0 then 1 else 2 * Pow2(n - 1)
  }

  /** `x << m` and `x >> m` on numbers of any width. */
  function Shl(x: nat, m: nat): nat {
    x * Pow2(m)
  }

  function Shr(x: nat, m: nat): nat {
    DivMod(x, Pow2(m));
    x / Pow2(m)
  }

  /** The low `n` bits of `v`. */
  function BitsOf(v: nat, n: nat): (b: Bits)
    ensures |b| == n
  {
    if n == 0 then [] else BitsOf(v / 2, n - 1) + [v % 2 == 1]
  }

  function Ones(n: nat): (b: Bits)
    ensures |b| == n && forall i :: 0 <= i < n ==> b[i]
  {
    seq(n, i => true)
  }

  function ByteBits(bs: Bytes): (b: Bits)
    ensures |b| == 8 * |bs|
  {
    if bs == [] then [] else ByteBits(bs[..|bs| - 1]) + BitsOf(bs[|bs| - 1], 8)
  }

  lemma MulAssoc(k: nat, x: nat, y: nat)
    ensures (k * x) * y == k * (x * y)
  {
  }

  lemma {:induction false} Pow2Add(a: nat, b: nat)
    ensures Pow2(a + b) == Pow2(a) * Pow2(b)
  {
    if a > 0 {
      Pow2Add(a - 1, b);
      var x, y := Pow2(a - 1), Pow2(b);
      assert Pow2(a + b) == 2 * Pow2(a - 1 + b);
      MulAssoc(2, x, y);
    }
  }

  lemma Pow2Grows(a: nat, b: nat)
    requires a <= b
    ensures Pow2(a) <= Pow2(b)
    decreases b - a
  {
    if a < b { Pow2Grows(a, b - 1); }
  }

  lemma {:induction false} BitsAppend(a: nat, n: nat, b: nat, m: nat)
    requires b < Pow2(m)
    ensures BitsOf(a * Pow2(m) + b, n + m) == BitsOf(a, n) + BitsOf(b, m)
  {
    if m > 0 {
      var p := Pow2(m - 1);
      assert Pow2(m) == 2 * p;
      hide Pow2;
      HalfSum(a, p, b);
      var v := a * (2 * p) + b;
      BitsAppend(a, n, b / 2, m - 1);
      assert BitsOf(v, n + m) == BitsOf(v / 2, n + (m - 1)) + [v % 2 == 1];
    } else {
      assert BitsOf(a, n) + [] == BitsOf(a, n);
    }
  }

  lemma HalfSum(a: nat, p: nat, b: nat)
    ensures var v := a * (2 * p) + b;
            v / 2 == a * p + b / 2 && v % 2 == b % 2
  {
    var x := a * p;
    assert a * (2 * p) == 2 * x by { MulAssoc(2, a, p); MulSwap(a, p); }
  }

  lemma MulSwap(a: nat, p: nat)
    ensures a * (2 * p) == (2 * a) * p
  {
  }

  lemma DivMod(v: nat, p: nat)
    requires p > 0
    ensures 0 <= v % p < p && v == (v / p) * p + v % p && v / p >= 0
  {
  }

  lemma Quotient(v: nat, p: nat, k: nat)
    requires p > 0
    ensures k > v / p <==> k * p > v
  {
    DivMod(v, p);
    var q := v / p;
    if k > q {
      MulMonotone(q + 1, k, p);
      assert (q + 1) * p == q * p + p;
    } else {
      MulMonotone(k, q, p);
    }
  }

  lemma MulMonotone(a: nat, b: nat, p: nat)
    requires a <= b
    ensures a * p <= b * p
  {
  }

  lemma ModUnique(q: nat, p: nat, v: nat)
    requires v < p
    ensures (q * p + v) % p == v
  {
    var w := q * p + v;
    var d := w / p;
    DivMod(w, p);
    assert (q + 1) * p == q * p + p && (d + 1) * p == d * p + p;
    if d > q {
      MulMonotone(q + 1, d, p);
    } else if d < q {
      MulMonotone(d + 1, q, p);
    }
  }

  lemma Pow2Of30()
    ensures Pow2(30) == 0x4000_0000
  {
    assert Pow2(10) == 1024;
    Pow2Add(10, 10);
    Pow2Add(20, 10);
  }

  /** The first `k` bits are a quotient, the others a remainder. */
  lemma BitsCut(v: nat, n: nat, k: nat)
    requires k <= n
    ensures BitsOf(v, n)[..k] == BitsOf(v / Pow2(n - k), k)
    ensures BitsOf(v, n)[k..] == BitsOf(v % Pow2(n - k), n - k)
  {
    hide BitsOf, Pow2;
    var p := Pow2(n - k);
    DivMod(v, p);
    BitsAppend(v / p, k, v % p, n - k);
    assert k + (n - k) == n;
  }

  /** Bits above the width do not matter. */
  lemma LowBits(v: nat, n: nat, w: nat)
    requires n <= w
    ensures BitsOf(v % Pow2(w), n) == BitsOf(v, n)
  {
    hide BitsOf, Pow2;
    var u := v % Pow2(w);
    BitsCut(v, w, 0);
    BitsCut(v, w, w - n);
    BitsCut(u, w, w - n);
    BitsCut(v, n, 0);
    BitsCut(u, n, 0);
    assert BitsOf(v, w)[0..] == BitsOf(v, w) && BitsOf(v, n)[0..] == BitsOf(v, n) && BitsOf(u, n)[0..] == BitsOf(u, n);
  }

  lemma {:induction false} BitsInjective(a: nat, b: nat, n: nat)
    requires a < Pow2(n) && b < Pow2(n) && BitsOf(a, n) == BitsOf(b, n)
    ensures a == b
  {
    if n > 0 {
      assert BitsOf(a / 2, n - 1) == BitsOf(a, n)[..n - 1];
      assert BitsOf(b / 2, n - 1) == BitsOf(b, n)[..n - 1];
      assert (a % 2 == 1) == BitsOf(a, n)[n - 1];
      assert (b % 2 == 1) == BitsOf(b, n)[n - 1];
      BitsInjective(a / 2, b / 2, n - 1);
    }
  }

  lemma {:induction false} OnesAre(n: nat)
    ensures BitsOf(Pow2(n) - 1, n) == Ones(n)
  {
    if n > 0 {
      OnesAre(n - 1);
      assert (Pow2(n) - 1) / 2 == Pow2(n - 1) - 1;
      assert Ones(n - 1) + [true] == Ones(n);
    }
  }

  /** A number is all ones exactly when it is the largest of its width. */
  lemma AllOnes(v: nat, n: nat)
    requires v < Pow2(n)
    ensures BitsOf(v, n) == Ones(n) <==> v == Pow2(n) - 1
  {
    OnesAre(n);
    if BitsOf(v, n) == Ones(n) { BitsInjective(v, Pow2(n) - 1, n); }
  }

  lemma {:induction false} ByteBitsConcat(a: Bytes, b: Bytes)
    ensures ByteBits(a + b) == ByteBits(a) + ByteBits(b)
  {
    if b == [] {
      assert a + b == a;
    } else {
      var n := |b| - 1;
      assert (a + b)[..|a + b| - 1] == a + b[..n];
      ByteBitsConcat(a, b[..n]);
    }
  }

  lemma ByteBitsOne(b: Byte)
    ensures ByteBits([b]) == BitsOf(b, 8)
  {
    assert [b][..0] == [];
  }

  lemma {:induction false} ByteBitsInjective(a: Bytes, b: Bytes)
    requires ByteBits(a) == ByteBits(b)
    ensures a == b
  {
    assert 8 * |a| == 8 * |b|;
    if a != [] {
      var n := |a| - 1;
      assert ByteBits(a[..n]) == ByteBits(a)[..8 * n];
      assert ByteBits(b[..n]) == ByteBits(b)[..8 * n];
      assert BitsOf(a[n], 8) == ByteBits(a)[8 * n..];
      assert BitsOf(b[n], 8) == ByteBits(b)[8 * n..];
      ByteBitsInjective(a[..n], b[..n]);
      assert Pow2(8) == 256;
      BitsInjective(a[n], b[n], 8);
      assert a == a[..n] + [a[n]];
    }
  }

  /** The number whose bits these are. */
  function Number(b: Bits): (v: nat)
    ensures v < Pow2(|b|)
  {
    if b == [] then 0 else 2 * Number(b[..|b| - 1]) + if b[|b| - 1] then 1 else 0
  }

  lemma {:induction false} NumberBits(b: Bits)
    ensures BitsOf(Number(b), |b|) == b
  {
    if b != [] {
      NumberBits(b[..|b| - 1]);
      assert b == b[..|b| - 1] + [b[|b| - 1]];
    }
  }

  /** Eight bits to a byte. */
  function Pack(b: Bits): (s: Bytes)
    requires |b| % 8 == 0
    ensures 8 * |s| == |b|
  {
    if b == [] then []
    else
      var n := |b| - 8;
      assert Pow2(8) == 256;
      Pack(b[..n]) + [Number(b[n..])]
  }

  lemma {:induction false} PackBits(b: Bits)
    requires |b| % 8 == 0
    ensures ByteBits(Pack(b)) == b
  {
    hide BitsOf, Number;
    if b != [] {
      var n := |b| - 8;
      var s := Pack(b);
      assert Pow2(8) == 256;
      PackBits(b[..n]);
      NumberBits(b[n..]);
      assert s[..|s| - 1] == Pack(b[..n]);
      assert b == b[..n] + b[n..];
    }
  }
}
