/** Huffman coding of HPACK strings: the encoder and decoder of core/hpack.go and
    the outbound client's decoder of core/fp_hpack.go and core/fp_huffman.go. */
module Huffman {
  import opened ByteStrings
  import opened BitStrings
  import opened HuffmanCode

  const MAX_CODE_BITS := 30

  /** The code words of a string, one after the other. */
  function Coded(s: Bytes): Bits {
    if s == [] then [] else Word(s[0]) + Coded(s[1..])
  }

  /** `src` is the coded form of `s`: its words, filled up with ones. */
  ghost predicate Codes(src: Bytes, s: Bytes) {
    exists k :: 0 <= k <= 7 && ByteBits(src) == Coded(s) + Ones(k)
  }

  /** No word begins `b`. */
  ghost predicate Stuck(b: Bits) {
    forall sym :: 0 <= sym < EOS ==> !(Word(sym) <= b)
  }

  // ----- What the words mean

  lemma {:induction false} CodedConcat(a: Bytes, b: Bytes)
    ensures Coded(a + b) == Coded(a) + Coded(b)
  {
    hide Word;
    if a == [] {
      assert a + b == b;
    } else {
      assert (a + b)[1..] == a[1..] + b;
      CodedConcat(a[1..], b);
    }
  }

  lemma CodedSnoc(s: Bytes, c: Byte)
    ensures Coded(s + [c]) == Coded(s) + Word(c)
  {
    hide Word;
    CodedConcat(s, [c]);
    assert [c][1..] == [];
    assert Coded([c]) == Word(c);
  }

  /** At most one word begins a bit string. */
  lemma Unique(s: nat, t: nat, b: Bits)
    requires s < EOS && t < EOS
    ensures Word(s) <= b && Word(t) <= b ==> s == t
  {
    hide Word;
    if Word(s) <= b && Word(t) <= b {
      if |Word(s)| <= |Word(t)| {
        assert Word(s) == Word(t)[..|Word(s)|];
        PrefixFree(s, t);
      } else {
        assert Word(t) == Word(s)[..|Word(t)|];
        PrefixFree(t, s);
      }
    }
  }

  /** Filling never yields a symbol. */
  lemma FillIsStuck(k: nat)
    requires k <= 30
    ensures Stuck(Ones(k))
  {
    hide Word, Entry;
    forall sym | 0 <= sym < EOS
      ensures !(Word(sym) <= Ones(k))
    {
      if Word(sym) <= Ones(k) {
        assert Word(sym) == Ones(|Word(sym)|);
        Bounds(sym);
        NotAllOnes(sym, |Word(sym)|);
      }
    }
  }

  /** Whatever a coded form begins with has been decided: a string whose words
      come first is the beginning of the string. */
  lemma {:induction false} Peel(s: Bytes, k: nat, dst: Bytes, rest: Bits)
    requires k <= 7 && Coded(s) + Ones(k) == Coded(dst) + rest
    ensures dst <= s && Coded(s[|dst|..]) + Ones(k) == rest
    decreases |dst|
  {
    hide Word, Entry, Coded;
    if dst == [] {
      Nothing(0);
      assert s[0..] == s;
    } else {
      var b := Coded(s) + Ones(k);
      CodedHead(dst, rest);
      if s == [] {
        Nothing(0);
        assert b == Ones(k);
        FillIsStuck(k);
      } else {
        CodedHead(s, Ones(k));
        Unique(s[0], dst[0], b);
        Peel(s[1..], k, dst[1..], rest);
        assert s[1..][|dst| - 1..] == s[|dst|..];
      }
    }
  }

  lemma CodedHead(s: Bytes, tail: Bits)
    requires s != []
    ensures Word(s[0]) <= Coded(s) + tail && (Coded(s) + tail)[|Word(s[0])|..] == Coded(s[1..]) + tail
  {
    hide Word;
    assert Coded(s) + tail == Word(s[0]) + (Coded(s[1..]) + tail);
  }

  /** Nothing left to decode: the coded form ends here, with ones. */
  lemma StuckEnds(t: Bytes, k: nat, rest: Bits)
    requires k <= 7 && Stuck(rest) && Coded(t) + Ones(k) == rest
    ensures t == [] && rest == Ones(k)
  {
    hide Word;
    if t != [] { Begins(t, Ones(k), rest, []); }
  }

  lemma Begins(t: Bytes, tail: Bits, rest: Bits, more: Bits)
    requires t != [] && Coded(t) + tail == rest + more && (more == [] || |rest| >= MAX_CODE_BITS)
    ensures !Stuck(rest)
  {
    hide Word, Entry;
    Bounds(t[0]);
    assert Word(t[0]) <= Coded(t) + tail;
    if more == [] { assert rest + more == rest; }
    assert Word(t[0]) <= rest;
  }

  /** Thirty bits that no word begins are the end of every hope. */
  lemma StuckFails(src: Bytes, dst: Bytes, rest: Bits, more: Bits, s: Bytes)
    requires ByteBits(src) == Coded(dst) + rest + more && Stuck(rest) && |rest| >= MAX_CODE_BITS
    ensures !Codes(src, s)
  {
    hide Word, Entry, ByteBits;
    if Codes(src, s) {
      var k :| 0 <= k <= 7 && ByteBits(src) == Coded(s) + Ones(k);
      assert Coded(dst) + (rest + more) == Coded(s) + Ones(k);
      Peel(s, k, dst, rest + more);
      if s[|dst|..] != [] { Begins(s[|dst|..], Ones(k), rest, more); }
    }
  }

  /** A coded form has one meaning. */
  lemma CodesUnique(src: Bytes, s: Bytes, t: Bytes)
    ensures Codes(src, s) && Codes(src, t) ==> s == t
  {
    hide Word, ByteBits;
    if Codes(src, s) && Codes(src, t) {
      var k :| 0 <= k <= 7 && ByteBits(src) == Coded(s) + Ones(k);
      var l :| 0 <= l <= 7 && ByteBits(src) == Coded(t) + Ones(l);
      Peel(s, k, t, Ones(l));
      FillIsStuck(l);
      StuckEnds(s[|t|..], k, Ones(l));
    }
  }

  /** A string has one coded form. */
  lemma CodesOnce(a: Bytes, b: Bytes, s: Bytes)
    ensures Codes(a, s) && Codes(b, s) ==> a == b
  {
    hide Word, ByteBits, Coded;
    if Codes(a, s) && Codes(b, s) {
      var k :| 0 <= k <= 7 && ByteBits(a) == Coded(s) + Ones(k);
      var l :| 0 <= l <= 7 && ByteBits(b) == Coded(s) + Ones(l);
      assert |ByteBits(a)| == 8 * |a| && |ByteBits(b)| == 8 * |b|;
      assert k == l;
      ByteBitsInjective(a, b);
    }
  }

  /** The coded form of a string. */
  function HuffmanBytes(s: Bytes): Bytes {
    Pack(Coded(s) + Ones(FillTo8(|Coded(s)|)))
  }

  /** How many ones fill the last byte. */
  function FillTo8(n: nat): (k: nat)
    ensures k < 8 && (n + k) % 8 == 0
  {
    if n % 8 == 0 then 0 else 8 - n % 8
  }

  lemma HuffmanBytesCode(s: Bytes)
    ensures Codes(HuffmanBytes(s), s) && |HuffmanBytes(s)| == (|Coded(s)| + 7) / 8
  {
    hide Coded, ByteBits, Pack;
    PackBits(Coded(s) + Ones(FillTo8(|Coded(s)|)));
  }

  /** A symbol takes five bits at least, so a text is at most eight fifths of its
      coded form. */
  lemma Expansion(src: Bytes, s: Bytes)
    ensures Codes(src, s) ==> 5 * |s| <= 8 * |src|
  {
    hide Word, Entry, Coded, ByteBits;
    if Codes(src, s) {
      AtLeastFive(s);
      var k :| 0 <= k <= 7 && ByteBits(src) == Coded(s) + Ones(k);
      assert |ByteBits(src)| == 8 * |src|;
    }
  }

  lemma {:induction false} AtLeastFive(s: Bytes)
    ensures |Coded(s)| >= 5 * |s|
  {
    hide Word, Entry;
    if s != [] {
      Bounds(s[0]);
      AtLeastFive(s[1..]);
    }
  }

  // ----- The encoder

  /** `hpackHuffmanEncodedLen`, with its loop over four bytes at a time. */
  method EncodedLen(s: Bytes) returns (n: nat)
    ensures n == (|Coded(s)| + 7) / 8
  {
    hide Word;
    var bits, i := 0, 0;
    while i + 3 < |s|
      invariant 0 <= i <= |s| && bits == |Coded(s[..i])|
    {
      Longer(s, i);
      Longer(s, i + 1);
      Longer(s, i + 2);
      Longer(s, i + 3);
      bits := bits + Entry(s[i]).bits + Entry(s[i + 1]).bits + Entry(s[i + 2]).bits + Entry(s[i + 3]).bits;
      i := i + 4;
    }
    while i < |s|
      invariant 0 <= i <= |s| && bits == |Coded(s[..i])|
    {
      Longer(s, i);
      bits := bits + Entry(s[i]).bits;
      i := i + 1;
    }
    assert s[..i] == s;
    return (bits + 7) / 8;
  }

  lemma Longer(s: Bytes, i: nat)
    requires i < |s|
    ensures Coded(s[..i + 1]) == Coded(s[..i]) + Word(s[i])
  {
    assert s[..i + 1] == s[..i] + [s[i]];
    CodedSnoc(s[..i], s[i]);
  }

  /** `hpackHuffmanAppend`. The accumulator is never masked: bits already written
      stay above the `nbits` that matter until they fall off at 64. */
  method Append(dst: Bytes, s: Bytes) returns (out: Bytes)
    ensures out == dst + HuffmanBytes(s) && Codes(HuffmanBytes(s), s)
  {
    hide HuffmanBytes, Word, Entry, Coded, BitsOf, ByteBits, Pow2, Shl, Shr;
    var coded: Bytes := [];
    var cur: nat, nbits: nat := 0, 0;
    assert s[..0] == [];
    Nothing(cur);
    for i := 0 to |s|
      invariant nbits < 8 && Coded(s[..i]) == ByteBits(coded) + BitsOf(cur, nbits)
    {
      var entry := Entry(s[i]);
      Bounds(s[i]);
      Longer(s, i);
      Push(cur, nbits, s[i]);
      cur := (Shl(cur, entry.bits) + entry.code) % WIDE;
      nbits := nbits + entry.bits;
      coded, nbits := WriteBytes(coded, cur, nbits);
    }
    assert s[..|s|] == s;
    if nbits > 0 {
      Fill(cur, nbits, coded);
      coded := coded + [LastByte(cur, nbits)];
      assert ByteBits(coded) == Coded(s) + Ones(8 - nbits);
    } else {
      Nothing(cur);
      assert ByteBits(coded) == Coded(s) + Ones(0);
    }
    HuffmanBytesCode(s);
    CodesOnce(coded, HuffmanBytes(s), s);
    out := dst + coded;
  }

  /** The inner loop: all whole bytes go out. */
  method WriteBytes(dst: Bytes, cur: nat, bits: nat) returns (out: Bytes, nbits: nat)
    ensures nbits < 8 && ByteBits(out) + BitsOf(cur, nbits) == ByteBits(dst) + BitsOf(cur, bits)
  {
    hide BitsOf, ByteBits, Pow2, Shr;
    out, nbits := dst, bits;
    while nbits >= 8
      invariant ByteBits(out) + BitsOf(cur, nbits) == ByteBits(dst) + BitsOf(cur, bits)
    {
      nbits := nbits - 8;
      Pop(cur, nbits, out);
      out := out + [Shr(cur, nbits) % 256];
    }
  }

  lemma Nothing(cur: nat)
    ensures BitsOf(cur, 0) == [] && Coded([]) == [] && ByteBits([]) == []
  {
  }

  lemma Push(cur: nat, nbits: nat, sym: Byte)
    requires nbits < 8
    ensures BitsOf((Shl(cur, Entry(sym).bits) + Entry(sym).code) % WIDE, nbits + Entry(sym).bits)
            == BitsOf(cur, nbits) + Word(sym)
  {
    hide BitsOf, Entry, Words, Pow2;
    var e := Entry(sym);
    Bounds(sym);
    BandFits(e.bits);
    BitsAppend(cur, nbits, e.code, e.bits);
    WideIs();
    LowBits(Shl(cur, e.bits) + e.code, nbits + e.bits, 64);
  }

  lemma WideIs()
    ensures WIDE == Pow2(64)
  {
    assert Pow2(8) == 256;
    hide Pow2;
    Pow2Add(8, 8);
    assert Pow2(16) == 0x1_0000;
    Pow2Add(16, 16);
    assert Pow2(32) == 0x1_0000_0000;
    Pow2Add(32, 32);
  }

  lemma Pop(cur: nat, m: nat, out: Bytes)
    ensures ByteBits(out + [Shr(cur, m) % 256]) + BitsOf(cur, m) == ByteBits(out) + BitsOf(cur, m + 8)
  {
    hide BitsOf, ByteBits;
    var b := Shr(cur, m) % 256;
    ByteBitsConcat(out, [b]);
    ByteBitsOne(b);
    assert Pow2(8) == 256;
    hide Pow2;
    LowBits(Shr(cur, m), 8, 8);
    BitsCut(cur, m + 8, 8);
    LowBits(cur, m, m);
    var all := BitsOf(cur, m + 8);
    assert all == all[..8] + all[8..];
    assert ByteBits(out) + (all[..8] + all[8..]) == (ByteBits(out) + all[..8]) + all[8..];
  }

  /** The last byte: what is pending, then ones. The source ors the two, and the
      low bits of the shifted accumulator are zero. */
  function LastByte(cur: nat, nbits: nat): Byte
    requires nbits <= 8
  {
    (Shl(cur, 8 - nbits) + Pow2(8 - nbits) - 1) % 256
  }

  lemma Fill(cur: nat, nbits: nat, out: Bytes)
    requires 0 < nbits < 8
    ensures ByteBits(out + [LastByte(cur, nbits)]) == ByteBits(out) + BitsOf(cur, nbits) + Ones(8 - nbits)
  {
    hide BitsOf, ByteBits;
    var b := LastByte(cur, nbits);
    ByteBitsConcat(out, [b]);
    ByteBitsOne(b);
    assert Pow2(8) == 256;
    hide Pow2;
    var ones := Pow2(8 - nbits) - 1;
    LowBits(Shl(cur, 8 - nbits) + ones, 8, 8);
    BitsAppend(cur, nbits, ones, 8 - nbits);
    OnesAre(8 - nbits);
    assert ByteBits(out) + (BitsOf(cur, nbits) + Ones(8 - nbits))
        == ByteBits(out) + BitsOf(cur, nbits) + Ones(8 - nbits);
  }

  // ----- The lookup tables

  datatype Prim = Prim(sym: Byte, bits: nat)

  datatype Long = Long(code: nat, sym: Byte)

  datatype Tables = Tables(primary: seq<Prim>, long: seq<seq<Long>>)

  predicate Short(sym: nat) {
    sym < EOS && Entry(sym).bits <= 8
  }

  /** Entry `idx` of the primary table, when the symbols below `n` are in: the
      symbol whose word begins the eight bits of `idx`, if there is one. */
  ghost predicate PrimaryAt(e: Prim, idx: nat, n: nat) {
    if e.bits == 0 then forall sym :: 0 <= sym < n && Short(sym) ==> !(Word(sym) <= BitsOf(idx, 8))
    else e.sym < n && Short(e.sym) && e.bits == Entry(e.sym).bits && Word(e.sym) <= BitsOf(idx, 8)
  }

  /** Group `b`: the words of that many bits, for symbols below `n`. */
  ghost predicate LongAt(group: seq<Long>, b: nat, n: nat)
    requires n <= EOS
  {
    && (forall i :: 0 <= i < |group| ==> group[i].sym < n && Entry(group[i].sym) == Code(group[i].code, b))
    && (forall sym :: 0 <= sym < n && Entry(sym).bits == b ==> Long(Entry(sym).code, sym) in group)
  }

  ghost predicate Good(t: Tables) {
    && |t.primary| == 256 && |t.long| == 31
    && (forall i :: 0 <= i < 256 ==> PrimaryAt(t.primary[i], i, EOS))
    && (forall b :: 8 < b < 31 ==> LongAt(t.long[b], b, EOS))
  }

  /** The indices whose eight bits begin with a short word are one run. */
  lemma Run(sym: nat, idx: nat)
    requires Short(sym) && idx < 256
    ensures var p := Pow2(8 - Entry(sym).bits);
            Word(sym) <= BitsOf(idx, 8) <==> Entry(sym).code * p <= idx < Entry(sym).code * p + p
  {
    hide BitsOf, Words, Entry;
    var e := Entry(sym);
    Bounds(sym);
    BandFits(e.bits);
    BitsCut(idx, 8, e.bits);
    assert Pow2(8) == 256;
    hide Pow2;
    var p := Pow2(8 - e.bits);
    TopBits(idx, 8, 8 - e.bits);
    Quotient(idx, p, e.code);
    Quotient(idx, p, e.code + 1);
    assert (e.code + 1) * p == e.code * p + p;
    var top := idx / p;
    if Word(sym) <= BitsOf(idx, 8) {
      assert BitsOf(top, e.bits) == BitsOf(e.code, e.bits);
      BitsInjective(top, e.code, e.bits);
    }
  }

  /** `buildHuffmanDecodeTable` and the `init` of core/fp_huffman.go. */
  method BuildTables() returns (t: Tables)
    ensures Good(t)
  {
    hide Entry, Word, PrimaryAt, LongAt;
    var primary := new Prim[256](i => Prim(0, 0));
    var long := new seq<Long>[31](i => []);
    Empty();
    for sym := 0 to EOS
      invariant forall i :: 0 <= i < 256 ==> PrimaryAt(primary[i], i, sym)
      invariant forall b :: 8 < b < 31 ==> LongAt(long[b], b, sym)
    {
      var entry := Entry(sym);
      Bounds(sym);
      ghost var groups := long[..];
      if entry.bits <= 8 {
        FillRun(primary, sym);
      } else {
        long[entry.bits] := long[entry.bits] + [Long(entry.code, sym)];
        OnlyLong(primary[..], sym);
      }
      forall b | 8 < b < 31
        ensures LongAt(long[b], b, sym + 1)
      {
        AddLong(groups[b], b, sym);
      }
    }
    t := Tables(primary[..], long[..]);
  }

  lemma Empty()
    ensures forall i :: 0 <= i < 256 ==> PrimaryAt(Prim(0, 0), i, 0)
    ensures forall b :: 8 < b < 31 ==> LongAt([], b, 0)
  {
    hide Entry, Word;
  }

  lemma OnlyLong(primary: seq<Prim>, sym: nat)
    requires |primary| == 256 && sym < EOS && Entry(sym).bits > 8
    requires forall i :: 0 <= i < 256 ==> PrimaryAt(primary[i], i, sym)
    ensures forall i :: 0 <= i < 256 ==> PrimaryAt(primary[i], i, sym + 1)
  {
    hide Entry, Word, BitsOf;
  }

  lemma AddLong(group: seq<Long>, b: nat, sym: nat)
    requires sym < EOS && LongAt(group, b, sym)
    ensures LongAt(if Entry(sym).bits == b then group + [Long(Entry(sym).code, sym)] else group, b, sym + 1)
  {
    hide Entry;
    var e := Long(Entry(sym).code, sym);
    assert Entry(sym) == Code(e.code, Entry(sym).bits);
  }

  /** The loop that enters one short word at every index it begins. An entry that
      is already there would be of another word that begins the same index. */
  method FillRun(primary: array<Prim>, sym: nat)
    requires primary.Length == 256 && Short(sym)
    requires forall i :: 0 <= i < 256 ==> PrimaryAt(primary[i], i, sym)
    modifies primary
    ensures forall i :: 0 <= i < 256 ==> PrimaryAt(primary[i], i, sym + 1)
  {
    hide Entry, Word, PrimaryAt, BitsOf, Pow2, Shl;
    var entry := Entry(sym);
    Bounds(sym);
    var base := Shl(entry.code, 8 - entry.bits);
    var count := Pow2(8 - entry.bits);
    ghost var was := primary[..];
    var j := 0;
    while j < count
      invariant 0 <= j <= count
      invariant forall i :: 0 <= i < 256 ==>
                  primary[i] == if base <= i < base + j then Prim(sym, entry.bits) else was[i]
    {
      var idx := base + j;
      if idx < 256 {
        var free := primary[idx].bits == 0 || entry.bits < primary[idx].bits;
        Free(was[idx], sym, idx);
        if free {
          primary[idx] := Prim(sym, entry.bits);
        }
      }
      j := j + 1;
    }
    forall i | 0 <= i < 256
      ensures PrimaryAt(primary[i], i, sym + 1)
    {
      Filled(was[i], sym, i);
    }
  }

  lemma Free(e: Prim, sym: nat, idx: nat)
    requires Short(sym) && idx < 256 && PrimaryAt(e, idx, sym)
    requires var first := Shl(Entry(sym).code, 8 - Entry(sym).bits);
             first <= idx < first + Pow2(8 - Entry(sym).bits)
    ensures e.bits == 0
  {
    hide Entry, Word, BitsOf, Pow2;
    Run(sym, idx);
    if e.bits != 0 { Unique(e.sym, sym, BitsOf(idx, 8)); }
  }

  lemma Filled(e: Prim, sym: nat, idx: nat)
    requires Short(sym) && idx < 256 && PrimaryAt(e, idx, sym)
    ensures var base, count := Shl(Entry(sym).code, 8 - Entry(sym).bits), Pow2(8 - Entry(sym).bits);
            PrimaryAt(if base <= idx < base + count then Prim(sym, Entry(sym).bits) else e, idx, sym + 1)
  {
    Bounds(sym);
    hide Entry, Word, BitsOf, Pow2;
    Run(sym, idx);
  }

  /** `huffmanLookup` and `huffLookup`: the symbol whose word begins the pending
      bits, if any does. */
  method Lookup(t: Tables, bits: nat, nbits: nat) returns (sym: Byte, len: nat)
    requires Good(t) && 5 <= nbits <= 37 && bits < Pow2(nbits)
    ensures len == 0 ==> Stuck(BitsOf(bits, nbits))
    ensures len > 0 ==> sym < EOS && len == Entry(sym).bits <= nbits && Word(sym) <= BitsOf(bits, nbits)
  {
    hide Entry, Word, PrimaryAt, LongAt, BitsOf, Pow2, Shl, Shr;
    if nbits >= 8 {
      TopByte(bits, nbits);
      var idx := Shr(bits, nbits - 8) % 256;
      var e := t.primary[idx];
      PrimaryMatch(e, idx, bits, nbits);
      if e.bits > 0 { return e.sym, e.bits; }
      var b := 9;
      while b <= nbits && b <= MAX_CODE_BITS
        invariant 9 <= b <= MAX_CODE_BITS + 1 && b <= nbits + 1
        invariant forall s :: 0 <= s < EOS && Entry(s).bits < b ==> !(Word(s) <= BitsOf(bits, nbits))
      {
        var group := t.long[b];
        var target := Shr(bits, nbits - b);
        for i := 0 to |group|
          invariant forall k :: 0 <= k < i ==> group[k].code != target
        {
          if group[i].code == target {
            LongMatch(group, b, bits, nbits, i);
            return group[i].sym, b;
          }
        }
        NoLong(group, b, bits, nbits);
        b := b + 1;
      }
      AllTried(bits, nbits, b);
      return 0, 0;
    }
    LowByte(bits, nbits);
    var idx := Shl(bits, 8 - nbits) % 256;
    var e := t.primary[idx];
    PrimaryLow(e, idx, bits, nbits);
    if e.bits > 0 && e.bits <= nbits { return e.sym, e.bits; }
    return 0, 0;
  }

  lemma TopByte(bits: nat, nbits: nat)
    requires nbits >= 8 && bits < Pow2(nbits)
    ensures Shr(bits, nbits - 8) < 256 && BitsOf(Shr(bits, nbits - 8), 8) == BitsOf(bits, nbits)[..8]
  {
    assert Pow2(8) == 256;
    hide BitsOf, Pow2;
    TopBits(bits, nbits, nbits - 8);
    BitsCut(bits, nbits, 8);
  }

  lemma LowByte(bits: nat, nbits: nat)
    requires nbits <= 8 && bits < Pow2(nbits)
    ensures Shl(bits, 8 - nbits) < 256 && BitsOf(Shl(bits, 8 - nbits), 8)[..nbits] == BitsOf(bits, nbits)
  {
    assert Pow2(8) == 256;
    hide BitsOf, Pow2;
    Pow2Add(nbits, 8 - nbits);
    var p := Pow2(8 - nbits);
    assert (bits + 1) * p == bits * p + p;
    MulMonotone(bits + 1, Pow2(nbits), p);
    BitsAppend(bits, nbits, 0, 8 - nbits);
  }

  lemma PrimaryMatch(e: Prim, idx: nat, bits: nat, nbits: nat)
    requires nbits >= 8 && PrimaryAt(e, idx, EOS) && BitsOf(idx, 8) == BitsOf(bits, nbits)[..8]
    ensures e.bits > 0 ==> e.bits == Entry(e.sym).bits <= nbits && Word(e.sym) <= BitsOf(bits, nbits)
    ensures e.bits == 0 ==> forall s :: 0 <= s < EOS && Entry(s).bits < 9 ==> !(Word(s) <= BitsOf(bits, nbits))
  {
    hide Entry, Word, BitsOf;
    var b := BitsOf(bits, nbits);
    if e.bits == 0 {
      forall s | 0 <= s < EOS && Entry(s).bits < 9
        ensures !(Word(s) <= b)
      {
        assert Short(s);
        PrefixIn(Word(s), b, 8);
      }
    }
  }

  lemma PrefixIn(w: Bits, b: Bits, n: nat)
    requires |w| <= n <= |b|
    ensures w <= b <==> w <= b[..n]
  {
  }

  lemma PrimaryLow(e: Prim, idx: nat, bits: nat, nbits: nat)
    requires nbits < 8 && PrimaryAt(e, idx, EOS) && BitsOf(idx, 8)[..nbits] == BitsOf(bits, nbits)
    ensures 0 < e.bits <= nbits ==> e.bits == Entry(e.sym).bits && Word(e.sym) <= BitsOf(bits, nbits)
    ensures !(0 < e.bits <= nbits) ==> Stuck(BitsOf(bits, nbits))
  {
    hide Entry, Word, BitsOf;
    var b, all := BitsOf(bits, nbits), BitsOf(idx, 8);
    if !(0 < e.bits <= nbits) {
      forall s | 0 <= s < EOS
        ensures !(Word(s) <= b)
      {
        if Word(s) <= b {
          assert Word(s) <= all;
          assert Short(s);
          if e.bits > 0 { Unique(s, e.sym, all); }
        }
      }
    }
  }

  lemma LongMatch(group: seq<Long>, b: nat, bits: nat, nbits: nat, i: nat)
    requires LongAt(group, b, EOS) && i < |group| && b <= nbits && group[i].code == Shr(bits, nbits - b)
    ensures Word(group[i].sym) <= BitsOf(bits, nbits) && Entry(group[i].sym).bits == b
  {
    hide Entry, BitsOf;
    BitsCut(bits, nbits, b);
  }

  lemma NoLong(group: seq<Long>, b: nat, bits: nat, nbits: nat)
    requires LongAt(group, b, EOS) && b <= nbits && b <= MAX_CODE_BITS && bits < Pow2(nbits)
    requires forall k :: 0 <= k < |group| ==> group[k].code != Shr(bits, nbits - b)
    ensures forall s :: 0 <= s < EOS && Entry(s).bits == b ==> !(Word(s) <= BitsOf(bits, nbits))
  {
    hide Entry, BitsOf, Pow2, Words;
    forall s | 0 <= s < EOS && Entry(s).bits == b
      ensures !(Word(s) <= BitsOf(bits, nbits))
    {
      assert Long(Entry(s).code, s) in group;
      Bounds(s);
      BandFits(b);
      BitsCut(bits, nbits, b);
      TopBits(bits, nbits, nbits - b);
      if Word(s) <= BitsOf(bits, nbits) {
        assert BitsOf(Entry(s).code, b) == BitsOf(bits / Pow2(nbits - b), b);
        BitsInjective(Entry(s).code, bits / Pow2(nbits - b), b);
      }
    }
  }

  lemma AllTried(bits: nat, nbits: nat, b: nat)
    requires b > nbits || b > MAX_CODE_BITS
    requires forall s :: 0 <= s < EOS && Entry(s).bits < b ==> !(Word(s) <= BitsOf(bits, nbits))
    ensures Stuck(BitsOf(bits, nbits))
  {
    hide Entry, Word, BitsOf;
    forall s | 0 <= s < EOS
      ensures !(Word(s) <= BitsOf(bits, nbits))
    {
      Bounds(s);
    }
  }

  // ----- The decoders

  /** What either decoder has read: its output, and bits that wait for more. */
  ghost predicate Reading(read: Bytes, dst: Bytes, bits: nat, nbits: nat) {
    bits < Pow2(nbits) && ByteBits(read) == Coded(dst) + BitsOf(bits, nbits)
  }

  lemma NextByte(read: Bytes, b: Byte, dst: Bytes, bits: nat, nbits: nat)
    requires Reading(read, dst, bits, nbits)
    ensures Reading(read + [b], dst, bits * 256 + b, nbits + 8)
  {
    hide Word, BitsOf, ByteBits, Coded;
    assert Pow2(8) == 256;
    Pow2Add(nbits, 8);
    hide Pow2;
    ByteBitsConcat(read, [b]);
    ByteBitsOne(b);
    BitsAppend(bits, nbits, b, 8);
    assert Coded(dst) + (BitsOf(bits, nbits) + BitsOf(b, 8)) == (Coded(dst) + BitsOf(bits, nbits)) + BitsOf(b, 8);
  }

  lemma TakeWord(read: Bytes, dst: Bytes, bits: nat, nbits: nat, sym: Byte)
    requires Reading(read, dst, bits, nbits) && Entry(sym).bits <= nbits && Word(sym) <= BitsOf(bits, nbits)
    ensures Reading(read, dst + [sym], bits % Pow2(nbits - Entry(sym).bits), nbits - Entry(sym).bits)
  {
    hide Word, Entry, BitsOf, ByteBits, Coded, Pow2;
    var n := Entry(sym).bits;
    var all := BitsOf(bits, nbits);
    CodedSnoc(dst, sym);
    BitsCut(bits, nbits, n);
    assert all == all[..n] + all[n..] && all[..n] == Word(sym);
    assert Coded(dst) + (Word(sym) + all[n..]) == (Coded(dst) + Word(sym)) + all[n..];
  }

  /** The inner loop of the server's decoder: takes every symbol the pending bits
      hold, and fails where thirty of them hold none. */
  method TakeOrFail(t: Tables, dst: Bytes, bits: nat, nbits: nat, ghost read: Bytes)
    returns (ok: bool, out: Bytes, rest: nat, nrest: nat)
    requires Good(t) && nbits <= 37 && Reading(read, dst, bits, nbits)
    ensures Reading(read, out, rest, nrest) && Stuck(BitsOf(rest, nrest))
    ensures ok <==> nrest < MAX_CODE_BITS
  {
    hide Good, Entry, Word, BitsOf, ByteBits, Coded, Pow2, Reading, Stuck;
    out, rest, nrest := dst, bits, nbits;
    Holds(read, out, rest, nrest);
    while nrest >= 5
      invariant nrest <= nbits && rest < Pow2(nrest) && Reading(read, out, rest, nrest)
    {
      var sym, len := Lookup(t, rest, nrest);
      if len == 0 {
        ok := nrest < MAX_CODE_BITS;
        return;
      }
      Bounds(sym);
      TakeWord(read, out, rest, nrest, sym);
      out := out + [sym];
      nrest := nrest - len;
      rest := rest % Pow2(nrest);
      Holds(read, out, rest, nrest);
    }
    TooFew(BitsOf(rest, nrest));
    ok := true;
  }

  /** The inner loop of the client's decoder. */
  method Take(t: Tables, dst: Bytes, bits: nat, nbits: nat, ghost read: Bytes)
    returns (out: Bytes, rest: nat, nrest: nat)
    requires Good(t) && nbits <= 37 && Reading(read, dst, bits, nbits)
    ensures Reading(read, out, rest, nrest) && Stuck(BitsOf(rest, nrest))
  {
    hide Good, Entry, Word, BitsOf, ByteBits, Coded, Pow2, Reading, Stuck;
    out, rest, nrest := dst, bits, nbits;
    Holds(read, out, rest, nrest);
    while nrest >= 5
      invariant nrest <= nbits && rest < Pow2(nrest) && Reading(read, out, rest, nrest)
    {
      var sym, used := Lookup(t, rest, nrest);
      if used == 0 || used > nrest { return; }
      Bounds(sym);
      TakeWord(read, out, rest, nrest, sym);
      out := out + [sym];
      nrest := nrest - used;
      rest := rest % Pow2(nrest);
      Holds(read, out, rest, nrest);
    }
    TooFew(BitsOf(rest, nrest));
  }

  lemma Holds(read: Bytes, dst: Bytes, bits: nat, nbits: nat)
    requires Reading(read, dst, bits, nbits)
    ensures bits < Pow2(nbits) && (nbits == 0 ==> bits == 0 == Pow2(0) - 1)
  {
  }

  lemma TooFew(b: Bits)
    requires |b| < 5
    ensures Stuck(b)
  {
    hide Entry, Word;
    forall s | 0 <= s < EOS
      ensures !(Word(s) <= b)
    {
      Bounds(s);
    }
  }

  lemma NothingRead()
    ensures Reading([], [], 0, 0) && Stuck(BitsOf(0, 0))
  {
    TooFew([]);
  }

  /** Read to the end and nothing decodes any more: the ones decide. */
  lemma AtEnd(src: Bytes, dst: Bytes, bits: nat, nbits: nat)
    requires Reading(src, dst, bits, nbits) && Stuck(BitsOf(bits, nbits))
    ensures (nbits <= 7 && bits == Pow2(nbits) - 1) ==> Codes(src, dst)
    ensures !(nbits <= 7 && bits == Pow2(nbits) - 1) ==> forall s :: !Codes(src, s)
  {
    hide Word, BitsOf, ByteBits, Pow2;
    AllOnes(bits, nbits);
    if !(nbits <= 7 && bits == Pow2(nbits) - 1) {
      forall s
        ensures !Codes(src, s)
      {
        if Codes(src, s) {
          var k :| 0 <= k <= 7 && ByteBits(src) == Coded(s) + Ones(k);
          Peel(s, k, dst, BitsOf(bits, nbits));
          StuckEnds(s[|dst|..], k, BitsOf(bits, nbits));
        }
      }
    }
  }

  lemma TooLong(read: Bytes, dst: Bytes, bits: nat, nbits: nat, rest: Bytes)
    requires Reading(read, dst, bits, nbits) && Stuck(BitsOf(bits, nbits)) && nbits >= MAX_CODE_BITS
    ensures forall s :: !Codes(read + rest, s)
  {
    hide Word, BitsOf, ByteBits, Stuck, Codes, Pow2;
    ByteBitsConcat(read, rest);
    forall s
      ensures !Codes(read + rest, s)
    {
      StuckFails(read + rest, dst, BitsOf(bits, nbits), ByteBits(rest), s);
    }
  }

  /** `hpackHuffmanDecode`: gives up inside the loop over one byte's symbols. */
  method Decode(t: Tables, src: Bytes) returns (ok: bool, dst: Bytes)
    requires Good(t)
    ensures ok ==> Codes(src, dst)
    ensures !ok ==> forall s :: !Codes(src, s)
  {
    hide Good, Word, BitsOf, ByteBits, Coded, Pow2, Reading, Stuck, Codes;
    dst := [];
    var bits: nat, nbits: nat := 0, 0;
    NothingRead();
    for i := 0 to |src|
      invariant nbits < MAX_CODE_BITS && Reading(src[..i], dst, bits, nbits) && Stuck(BitsOf(bits, nbits))
    {
      NextByte(src[..i], src[i], dst, bits, nbits);
      assert src[..i] + [src[i]] == src[..i + 1];
      ok, dst, bits, nbits := TakeOrFail(t, dst, bits * 256 + src[i], nbits + 8, src[..i + 1]);
      if !ok {
        TooLong(src[..i + 1], dst, bits, nbits, src[i + 1..]);
        assert src[..i + 1] + src[i + 1..] == src;
        return;
      }
    }
    assert src[..|src|] == src;
    AtEnd(src, dst, bits, nbits);
    Holds(src, dst, bits, nbits);
    if nbits > 7 || (nbits > 0 && bits != Pow2(nbits) - 1) { return false, dst; }
    return true, dst;
  }

  /** `fpHpackHuffmanDecode`: gives up after each byte, and masks what is left. */
  method ClientDecode(t: Tables, data: Bytes) returns (ok: bool, out: Bytes)
    requires Good(t)
    ensures ok ==> Codes(data, out)
    ensures !ok ==> forall s :: !Codes(data, s)
  {
    hide Good, Word, BitsOf, ByteBits, Coded, Pow2, Reading, Stuck, Codes;
    out := [];
    var acc: nat, nbits: nat := 0, 0;
    NothingRead();
    for i := 0 to |data|
      invariant nbits < MAX_CODE_BITS && Reading(data[..i], out, acc, nbits) && Stuck(BitsOf(acc, nbits))
    {
      NextByte(data[..i], data[i], out, acc, nbits);
      assert data[..i] + [data[i]] == data[..i + 1];
      out, acc, nbits := Take(t, out, acc * 256 + data[i], nbits + 8, data[..i + 1]);
      if nbits >= MAX_CODE_BITS {
        TooLong(data[..i + 1], out, acc, nbits, data[i + 1..]);
        assert data[..i + 1] + data[i + 1..] == data;
        return false, out;
      }
    }
    assert data[..|data|] == data;
    AtEnd(data, out, acc, nbits);
    Holds(data, out, acc, nbits);
    if nbits > 7 { return false, out; }
    if nbits > 0 && acc % Pow2(nbits) != Pow2(nbits) - 1 { return false, out; }
    return true, out;
  }

  /** The two decoders agree on every input, and both undo the encoder. */
  method Agree(t: Tables, src: Bytes, s: Bytes)
    returns (ok: bool, dst: Bytes, also: bool, out: Bytes, coded: Bytes, back: bool, again: Bytes)
    requires Good(t)
    ensures ok == also && (ok ==> dst == out)
    ensures back && again == s && coded == HuffmanBytes(s)
    ensures ok && dst == s ==> src == coded
  {
    hide Good, Codes, Coded, HuffmanBytes;
    ok, dst := Decode(t, src);
    also, out := ClientDecode(t, src);
    if ok && also { CodesUnique(src, dst, out); }
    coded := Append([], s);
    assert [] + HuffmanBytes(s) == HuffmanBytes(s);
    back, again := Decode(t, coded);
    if back { CodesUnique(coded, again, s); }
    if ok && dst == s { CodesOnce(src, coded, s); }
  }
}
