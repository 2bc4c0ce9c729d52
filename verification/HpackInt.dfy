/** HPACK integers (section 5.1 of RFC 7541): `EncodeInt` and `HpackDecodeInt` of
    core/hpack.go, and the outbound client's `hpackReadInt` of core/fp_hpack.go. */
module HpackInt {
  import opened ByteStrings
  import opened BitStrings

  /** How many bytes up to and with the first one that has no continuation bit;
      zero when there is none. */
  function TailLen(d: Bytes): (n: nat)
    ensures n <= |d|
  {
    if d == [] then 0
    else if d[0] < 128 then 1
    else if TailLen(d[1..]) == 0 then 0
    else TailLen(d[1..]) + 1
  }

  /** What those bytes are worth: seven bits each, the lowest first. */
  function TailValue(d: Bytes): nat
    requires TailLen(d) > 0
  {
    if d[0] < 128 then d[0] else (d[0] - 128) + 128 * TailValue(d[1..])
  }

  datatype Read = Bad | Value(val: nat, n: nat)

  /** What an integer in front of `data` is worth, when it has at most `most`
      continuation bytes and is below `limit`. */
  function IntRead(data: Bytes, bits: nat, most: nat, limit: nat): Read
    requires 1 <= bits <= 8
  {
    if data == [] then Bad
    else
      var mask := Pow2(bits) - 1;
      var first := data[0] % Pow2(bits);
      if first < mask then Value(first, 1)
      else
        var k := TailLen(data[1..]);
        if 1 <= k <= most && mask + TailValue(data[1..]) < limit then Value(mask + TailValue(data[1..]), k + 1) else Bad
  }

  /** The writer's bytes. `prefix` holds flags above the low `bits` bits. */
  function IntBytes(prefix: Byte, bits: nat, val: nat): (s: Bytes)
    requires Prefix(prefix, bits)
    ensures s != []
  {
    var mask := Pow2(bits) - 1;
    PrefixFits(prefix, bits, if val < mask then val else mask);
    if val < mask then [prefix + val] else [prefix + mask] + IntTail(val - mask)
  }

  function IntTail(val: nat): (s: Bytes)
    ensures s != []
  {
    if val < 128 then [val] else [val % 128 + 128] + IntTail(val / 128)
  }

  predicate Prefix(prefix: Byte, bits: nat) {
    1 <= bits <= 8 && prefix % Pow2(bits) == 0
  }

  lemma Widths(bits: nat)
    requires 1 <= bits <= 8
    ensures Pow2(bits) == [2, 4, 8, 16, 32, 64, 128, 256][bits - 1]
  {
    assert Pow2(1) == 2 && Pow2(2) == 4 && Pow2(3) == 8 && Pow2(4) == 16;
    assert Pow2(5) == 32 && Pow2(6) == 64 && Pow2(7) == 128 && Pow2(8) == 256;
  }

  lemma PrefixFits(prefix: Byte, bits: nat, v: nat)
    requires Prefix(prefix, bits) && v < Pow2(bits)
    ensures prefix + v < 256 && (prefix + v) % Pow2(bits) == v
  {
    var p := Pow2(bits);
    Divides(bits);
    hide Pow2;
    DivMod(prefix, p);
    ModUnique(prefix / p, p, v);
    var r :| 0 < r && r * p == 256;
    Below(prefix / p, r, p);
  }

  lemma Divides(bits: nat)
    requires 1 <= bits <= 8
    ensures exists r: nat :: 0 < r && r * Pow2(bits) == 256
  {
    Pow2Add(8 - bits, bits);
    assert Pow2(8) == 256;
    assert Pow2(8 - bits) * Pow2(bits) == 256;
  }

  lemma Below(q: nat, r: nat, p: nat)
    requires q * p < r * p
    ensures q * p + p <= r * p
  {
    if r <= q {
      MulMonotone(r, q, p);
    } else {
      MulMonotone(q + 1, r, p);
      assert (q + 1) * p == q * p + p;
    }
  }

  /** `EncodeInt` */
  method EncodeInt(buf: Bytes, prefix: Byte, bits: nat, val: nat) returns (out: Bytes)
    requires Prefix(prefix, bits) && val < WIDE
    ensures out == buf + IntBytes(prefix, bits, val)
  {
    hide Pow2;
    var maxFirst := Pow2(bits) - 1;
    PrefixFits(prefix, bits, if val < maxFirst then val else maxFirst);
    if val < maxFirst {
      return buf + [prefix + val];
    }
    out := buf + [prefix + maxFirst];
    var v := val - maxFirst;
    while v >= 128
      invariant 0 <= v
      invariant out + IntTail(v) == buf + ([prefix + maxFirst] + IntTail(val - maxFirst))
    {
      assert out + IntTail(v) == (out + [v % 128 + 128]) + IntTail(v / 128);
      out := out + [v % 128 + 128];
      v := v / 128;
    }
    out := out + [v];
  }

  /** The bytes from `i` on, seen from an integer of which the bytes before are
      worth `val`. */
  predicate Partial(data: Bytes, i: nat, mask: nat, val: nat) {
    && 1 <= i <= |data|
    && (TailLen(data[1..]) > 0 <==> TailLen(data[i..]) > 0)
    && (TailLen(data[i..]) > 0 ==>
          && TailLen(data[1..]) == i - 1 + TailLen(data[i..])
          && mask + TailValue(data[1..]) == val + Shl(TailValue(data[i..]), 7 * (i - 1)))
  }

  lemma PartialStart(data: Bytes, mask: nat)
    requires data != []
    ensures Partial(data, 1, mask, mask)
  {
  }

  lemma PartialStep(data: Bytes, i: nat, mask: nat, val: nat)
    requires Partial(data, i, mask, val) && i < |data|
    ensures var more := val + Shl(data[i] % 128, 7 * (i - 1));
            && (data[i] >= 128 ==> Partial(data, i + 1, mask, more))
            && (data[i] < 128 ==> TailLen(data[1..]) == i && mask + TailValue(data[1..]) == more)
            && (data[i] >= 128 && TailLen(data[1..]) > 0 ==> TailLen(data[1..]) > i)
            && (TailLen(data[1..]) > 0 ==> TailLen(data[1..]) >= i && mask + TailValue(data[1..]) >= more)
  {
    hide Shl;
    assert data[i..][1..] == data[i + 1..];
    if data[i] >= 128 && TailLen(data[i + 1..]) > 0 {
      StepValue(7 * (i - 1), data[i] - 128, TailValue(data[i + 1..]));
    }
  }

  lemma StepValue(m: nat, low: nat, rest: nat)
    ensures Shl(low + 128 * rest, m) == Shl(low, m) + Shl(rest, m + 7)
  {
    Pow2Add(m, 7);
    var p := Pow2(m);
    assert Pow2(7) == 128;
    hide Pow2;
    assert (low + 128 * rest) * p == low * p + (128 * rest) * p;
    assert (128 * rest) * p == rest * (p * 128);
  }

  /** The guard against overflow is exact. */
  lemma GuardExact(val: nat, low: nat, m: nat)
    requires val < WIDE
    ensures low > Shr(WIDE - 1 - val, m) <==> val + Shl(low, m) >= WIDE
  {
    var p := Pow2(m);
    hide Pow2;
    Quotient(WIDE - 1 - val, p, low);
  }

  /** `HpackDecodeInt`, whose two results 0, 0 are `Bad`. */
  method DecodeInt(data: Bytes, bits: nat) returns (r: Read)
    ensures r == if 1 <= bits <= 8 then IntRead(data, bits, 10, WIDE) else Bad
  {
    hide Pow2, Shl, Shr, TailLen, TailValue, Partial;
    if data == [] || bits == 0 || bits > 8 { return Bad; }
    Widths(bits);
    var mask := Pow2(bits) - 1;
    var val: nat := data[0] % Pow2(bits);
    if val < mask { return Value(val, 1); }
    var m, i := 0, 1;
    PartialStart(data, mask);
    while i < |data|
      invariant 1 <= i <= |data| && m == 7 * (i - 1) && i <= 11 && val < WIDE && Partial(data, i, mask, val)
    {
      var b := data[i];
      PartialStep(data, i, mask, val);
      GuardExact(val, b % 128, m);
      i := i + 1;
      if m > 63 || b % 128 > Shr(WIDE - 1 - val, m) { return Bad; }
      val := val + Shl(b % 128, m);
      m := m + 7;
      if b < 128 { return Value(val, i); }
    }
    NoEnd(data, mask, val);
    return Bad;
  }

  lemma NoEnd(data: Bytes, mask: nat, val: nat)
    requires Partial(data, |data|, mask, val)
    ensures TailLen(data[1..]) == 0
  {
    hide Shl;
    assert data[|data|..] == [];
  }

  /** `hpackReadInt` */
  method ReadInt(b: Bytes, bits: nat) returns (r: Read)
    requires 1 <= bits <= 8
    ensures r == IntRead(b, bits, 5, WIDE)
  {
    hide Pow2, Shl, TailLen, TailValue, Partial;
    if b == [] { return Bad; }
    Widths(bits);
    var maxFirst := Pow2(bits) - 1;
    var val: nat := b[0] % Pow2(bits);
    if val < maxFirst { return Value(val, 1); }
    var pos, m := 1, 0;
    PartialStart(b, maxFirst);
    while true
      invariant 1 <= pos <= |b| && m == 7 * (pos - 1) && pos <= 5 && Partial(b, pos, maxFirst, val)
      decreases |b| - pos
    {
      if pos >= |b| {
        NoEnd(b, maxFirst, val);
        return Bad;
      }
      var c := b[pos];
      PartialStep(b, pos, maxFirst, val);
      pos := pos + 1;
      val := val + Shl(c % 128, m);
      if c < 128 {
        TailBound(b[1..], 9);
        return Value(val, pos);
      }
      m := m + 7;
      if m > 28 { return Bad; }
    }
  }

  lemma TailBound(d: Bytes, k: nat)
    requires 0 < TailLen(d) <= k <= 9
    ensures 256 + TailValue(d) < WIDE
  {
    hide TailLen, TailValue;
    TailGroups(d, k);
  }

  lemma {:induction false} TailGroups(d: Bytes, k: nat)
    requires 0 < TailLen(d) <= k <= 10
    ensures TailValue(d) < GROUPS[k]
  {
    if d[0] >= 128 { TailGroups(d[1..], k - 1); }
  }

  // ----- Round trip

  lemma {:induction false} TailReads(val: nat, rest: Bytes)
    ensures TailLen(IntTail(val) + rest) == |IntTail(val)| && TailValue(IntTail(val) + rest) == val
  {
    var s := IntTail(val) + rest;
    if val >= 128 {
      TailReads(val / 128, rest);
      assert s[1..] == IntTail(val / 128) + rest;
    }
  }

  const GROUPS: seq<nat> := [1, 0x80, 0x4000, 0x200000, 0x10000000, 0x800000000, 0x40000000000,
                             0x2000000000000, 0x100000000000000, 0x8000000000000000, 0x400000000000000000]

  /** Ten groups of seven bits hold 64 bits. */
  lemma {:induction false} TailShort(val: nat, k: nat)
    requires 1 <= k <= 10 && val < GROUPS[k]
    ensures |IntTail(val)| <= k
  {
    if val >= 128 { TailShort(val / 128, k - 1); }
  }

  /** Every value of 64 bits, written after any flags and read back in front of
      any bytes, is itself. */
  lemma IntRoundTrip(prefix: Byte, bits: nat, val: nat, rest: Bytes)
    requires Prefix(prefix, bits) && val < WIDE
    ensures IntRead(IntBytes(prefix, bits, val) + rest, bits, 10, WIDE) == Value(val, |IntBytes(prefix, bits, val)|)
  {
    hide Pow2, TailLen, TailValue, IntTail;
    var mask := Pow2(bits) - 1;
    PrefixFits(prefix, bits, if val < mask then val else mask);
    var s := IntBytes(prefix, bits, val) + rest;
    if val >= mask {
      assert s[1..] == IntTail(val - mask) + rest;
      TailReads(val - mask, rest);
      TailShort(val - mask, 10);
    }
  }

  /** The count of tail bytes, byte by byte. */
  lemma {:induction false} TailLenIs(d: Bytes, n: nat)
    requires 0 < n <= |d|
    ensures TailLen(d) == n <==> d[n - 1] < 128 && forall i :: 0 <= i < n - 1 ==> d[i] >= 128
  {
    if n > 1 {
      TailLenIs(d[1..], n - 1);
      assert (forall i :: 0 <= i < n - 1 ==> d[i] >= 128)
             <==> d[0] >= 128 && forall i :: 0 <= i < n - 2 ==> d[1..][i] >= 128
      by {
        if d[0] >= 128 && forall i :: 0 <= i < n - 2 ==> d[1..][i] >= 128 {
          forall i | 0 <= i < n - 1 ensures d[i] >= 128 {
            if i > 0 { assert d[1..][i - 1] >= 128; }
          }
        }
      }
    }
  }

  /** An integer of six to ten continuation bytes. Up to nine always fit 64 bits;
      ten do if they are not worth too much. */
  predicate LongInt(data: Bytes, bits: nat)
    requires 1 <= bits <= 8
  {
    && data != [] && data[0] % Pow2(bits) == Pow2(bits) - 1
    && 6 <= TailLen(data[1..]) <= 10
    && (TailLen(data[1..]) == 10 ==> Pow2(bits) - 1 + TailValue(data[1..]) < WIDE)
  }

  /** The two readers agree on every input but one family, which only the server
      reads. */
  lemma ReadersAgree(data: Bytes, bits: nat)
    requires 1 <= bits <= 8
    ensures IntRead(data, bits, 5, WIDE) == IntRead(data, bits, 10, WIDE) <==> !LongInt(data, bits)
    ensures LongInt(data, bits) ==> IntRead(data, bits, 5, WIDE) == Bad
  {
    hide Pow2, TailLen, TailValue;
    Widths(bits);
    if data != [] && 0 < TailLen(data[1..]) <= 9 { TailBound(data[1..], 9); }
  }

  /** What the server reads and the client does not. */
  lemma LongIntegerDiffers()
    ensures IntRead([0x7F, 0x80, 0x80, 0x80, 0x80, 0x80, 0], 7, 10, WIDE) == Value(127, 7)
    ensures IntRead([0x7F, 0x80, 0x80, 0x80, 0x80, 0x80, 0], 7, 5, WIDE) == Bad
  {
    Widths(7);
    var d: Bytes := [0x7F, 0x80, 0x80, 0x80, 0x80, 0x80, 0];
    assert d[1..] == [0x80, 0x80, 0x80, 0x80, 0x80, 0];
    assert d[1..][1..] == [0x80, 0x80, 0x80, 0x80, 0];
    assert d[1..][1..][1..] == [0x80, 0x80, 0x80, 0];
    assert d[1..][1..][1..][1..] == [0x80, 0x80, 0];
    assert d[1..][1..][1..][1..][1..] == [0x80, 0];
    assert d[1..][1..][1..][1..][1..][1..] == [0];
  }
}
