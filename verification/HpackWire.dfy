/** The representations of section 6 of RFC 7541 as they are written, and what the
    decoder of core/hpack.go makes of each: every one that may come, in any of its
    spellings, and nothing else. */
module HpackWire {
  import opened ByteStrings
  import opened BitStrings
  import opened HpackInt
  import Huffman
  import opened HpackTable
  import opened HpackStatic
  import opened HpackCodec

  // ----- Integers

  /** What groups of seven bits are worth, the lowest first. */
  function Groups(s: Bytes): nat {
    if s == [] then 0 else Groups(s[..|s| - 1]) + (s[|s| - 1] % 128) * Pow2(7 * (|s| - 1))
  }

  /** `s` is the integer `val` behind flags (section 5.1): in the first byte if it
      fits there, otherwise in at most ten more, of which all but the last have the
      top bit set. Groups worth nothing may follow. */
  predicate IsInt(s: Bytes, flags: Byte, bits: nat, val: nat)
    requires Prefix(flags, bits)
  {
    var mask := Pow2(bits) - 1;
    if val < mask then |s| == 1 && s[0] == flags + val
    else
      && 2 <= |s| <= 11 && s[0] == flags + mask && val < WIDE
      && s[|s| - 1] < 128 && (forall i :: 0 < i < |s| - 1 ==> s[i] >= 128)
      && val == mask + Groups(s[1..])
  }

  lemma {:induction false} GroupsCons(s: Bytes)
    requires s != []
    ensures Groups(s) == s[0] % 128 + 128 * Groups(s[1..])
  {
    if |s| == 1 {
      assert s[..0] == [] && s[1..] == [];
      assert Groups(s) == 0 + (s[0] % 128) * Pow2(0);
    } else {
      var init, last := s[..|s| - 1], s[|s| - 1] % 128;
      GroupsCons(init);
      assert init[1..] == s[1..][..|s| - 2];
      Shifted(last, |s| - 1);
    }
  }

  lemma Shifted(x: nat, n: nat)
    requires n > 0
    ensures x * Pow2(7 * n) == 128 * (x * Pow2(7 * (n - 1)))
  {
    Pow2Add(7 * (n - 1), 7);
    assert 7 * n == 7 * (n - 1) + 7 && Pow2(7) == 128;
    hide Pow2;
    Regroup(x, Pow2(7 * (n - 1)));
  }

  lemma Regroup(x: nat, p: nat)
    ensures x * (p * 128) == 128 * (x * p)
  {
  }

  lemma {:induction false} GroupsTail(d: Bytes)
    requires TailLen(d) > 0
    ensures TailValue(d) == Groups(d[..TailLen(d)])
  {
    var s := d[..TailLen(d)];
    GroupsCons(s);
    if d[0] < 128 {
      assert s[1..] == [];
    } else {
      GroupsTail(d[1..]);
      assert s[1..] == d[1..][..TailLen(d[1..])];
    }
  }

  /** An integer is read, whatever follows it. */
  lemma IntIsRead(s: Bytes, flags: Byte, bits: nat, val: nat, rest: Bytes)
    requires Prefix(flags, bits) && IsInt(s, flags, bits, val)
    ensures IntRead(s + rest, bits, 10, WIDE) == Value(val, |s|)
    ensures s != [] && flags <= (s + rest)[0] < flags + Pow2(bits)
  {
    hide Pow2, TailValue, TailLen, Groups;
    var mask := Pow2(bits) - 1;
    PrefixFits(flags, bits, if val < mask then val else mask);
    if val >= mask {
      var d := (s + rest)[1..];
      assert d[..|s| - 1] == s[1..];
      forall i | 0 <= i < |s| - 2
        ensures d[i] >= 128
      {
        assert d[i] == s[i + 1];
      }
      TailLenIs(d, |s| - 1);
      GroupsTail(d);
    }
  }

  /** Whatever is read is an integer. */
  lemma IntWasThere(data: Bytes, flags: Byte, bits: nat)
    requires Prefix(flags, bits) && data != [] && flags <= data[0] < flags + Pow2(bits)
    requires IntRead(data, bits, 10, WIDE).Value?
    ensures var r := IntRead(data, bits, 10, WIDE);
            r.n <= |data| && IsInt(data[..r.n], flags, bits, r.val)
  {
    hide Pow2, TailValue, TailLen, Groups;
    var r := IntRead(data, bits, 10, WIDE);
    PrefixFits(flags, bits, data[0] - flags);
    if data[0] - flags == Pow2(bits) - 1 {
      var d := data[1..];
      TailLenIs(d, r.n - 1);
      GroupsTail(d);
      assert data[..r.n][1..] == d[..r.n - 1];
      forall i | 0 < i < r.n - 1
        ensures data[i] >= 128
      {
        assert d[i - 1] >= 128;
      }
    }
  }

  // ----- Strings

  /** A string as written (section 5.2): its length, and the text itself or its
      Huffman code. */
  datatype Text = Text(head: Bytes, raw: Bytes, huffman: bool, s: Bytes)

  ghost predicate SoundText(t: Text) {
    Prefixes();
    && IsInt(t.head, if t.huffman then 0x80 else 0x00, 7, |t.raw|)
    && if t.huffman then Huffman.Codes(t.raw, t.s) else t.raw == t.s
  }

  function TextBytes(t: Text): Bytes {
    t.head + t.raw
  }

  lemma TextIsRead(t: Text, rest: Bytes)
    requires SoundText(t)
    ensures ReadString(TextBytes(t) + rest) == Str(t.s, |TextBytes(t)|)
  {
    hide IntRead, IsInt, HuffmanOf, Huffman.Codes;
    Prefixes();
    Widths(7);
    hide Pow2;
    var data := TextBytes(t) + rest;
    assert data == t.head + (t.raw + rest);
    IntIsRead(t.head, if t.huffman then 0x80 else 0x00, 7, |t.raw|, t.raw + rest);
    assert data[|t.head|..|t.head| + |t.raw|] == t.raw;
    if t.huffman { HuffmanIs(t.raw, t.s); }
  }

  lemma TextWasThere(data: Bytes) returns (t: Text)
    requires ReadString(data).Str?
    ensures SoundText(t) && t.s == ReadString(data).s && TextBytes(t) == data[..ReadString(data).n]
  {
    hide IntRead, IsInt, Huffman.Codes;
    Prefixes();
    Widths(7);
    hide Pow2;
    var i := IntRead(data, 7, 10, WIDE);
    var huffman := data[0] >= 128;
    IntWasThere(data, if huffman then 0x80 else 0x00, 7);
    t := Text(data[..i.n], data[i.n..i.n + i.val], huffman, ReadString(data).s);
  }

  // ----- Representations

  datatype Kind = WithIndexing | WithoutIndexing | NeverIndexed

  function Flags(k: Kind): Byte {
    match k
    case WithIndexing => 0x40
    case WithoutIndexing => 0x00
    case NeverIndexed => 0x10
  }

  function Width(k: Kind): nat {
    if k.WithIndexing? then 6 else 4
  }

  lemma KindFits(k: Kind)
    ensures Prefix(Flags(k), Width(k))
  {
    Widths(4);
    Widths(6);
  }

  /** An indexed field, a literal one with its name by index or spelled out, or a
      change of the table's size. */
  datatype Rep =
    | Indexed(head: Bytes, idx: nat)
    | Literal(kind: Kind, head: Bytes, idx: nat, name: Option<Text>, value: Text)
    | Update(head: Bytes, max: nat)

  ghost predicate Sound(r: Rep) {
    Prefixes();
    match r
    case Indexed(head, idx) => IsInt(head, 0x80, 7, idx)
    case Literal(kind, head, idx, name, value) =>
      KindFits(kind);
      && IsInt(head, Flags(kind), Width(kind), idx) && SoundText(value)
      && (name.Some? <==> idx == 0) && (name.Some? ==> SoundText(name.value))
    case Update(head, max) => IsInt(head, 0x20, 5, max)
  }

  function NameBytes(name: Option<Text>): Bytes {
    if name.Some? then TextBytes(name.value) else []
  }

  function RepBytes(r: Rep): Bytes {
    match r
    case Indexed(head, _) => head
    case Literal(_, head, _, name, value) => head + NameBytes(name) + TextBytes(value)
    case Update(head, _) => head
  }

  /** `t` is what fits of `full`, from its newest entry on. */
  predicate Fitting(t: seq<Field>, full: seq<Field>, max: nat) {
    t <= full && Size(t) <= max && (|t| < |full| ==> Size(full[..|t| + 1]) > max)
  }

  /** Entry `idx` of the static table and the dynamic one behind it. */
  function At(d: Dec, idx: nat): Field
    requires 0 < idx <= 61 + |d.table|
  {
    if idx <= 61 then Static(idx) else d.table[idx - 62]
  }

  /** What a representation means to a decoder. */
  predicate Means(d: Dec, r: Rep, first: bool, s: Step) {
    var n := |RepBytes(r)|;
    match r
    case Indexed(_, idx) => s == if 0 < idx <= 61 + |d.table| then Emit(At(d, idx), n, d) else Wrong(BadHeader)
    case Literal(kind, _, idx, name, value) =>
      if idx > 61 + |d.table| || (idx == 0 && name.None?) then s == Wrong(BadHeader)
      else
        var f := Field(if idx > 0 then At(d, idx).name else name.value.s, value.s);
        && s.Emit? && s.f == f && s.n == n && s.d == d.(table := s.d.table)
        && if kind.WithIndexing? then Fitting(s.d.table, [f] + d.table, d.max) else s.d.table == d.table
    case Update(_, max) =>
      if !first then s == Wrong(SizeUpdateAfterField)
      else if max > d.most then s == Wrong(TableSizeExceeded)
      else
        && s.Resize? && s.n == n && s.d == d.(max := max, table := s.d.table)
        && Fitting(s.d.table, d.table, max)
  }

  /** Eviction leaves what fits. */
  lemma {:induction false} EvictIsFitting(t: seq<Field>, max: nat)
    ensures Fitting(Evict(t, max), t, max)
  {
    var e := Evict(t, max);
    EvictFits(t, max);
    if |e| < |t| && Size(t[..|e| + 1]) <= max {
      EvictLongest(t[..|e| + 1], t, max);
      assert false;
    }
  }

  lemma AddIsFitting(t: seq<Field>, max: nat, f: Field)
    ensures Fitting(Add(t, max, f), [f] + t, max)
  {
    hide Evict;
    var full, a := [f] + t, Add(t, max, f);
    AddFits(t, max, f);
    if Cost(f) > max {
      assert full[..1] == [f] + [];
      SizeCons(f, []);
    } else {
      hide Size, Cost;
      EvictIsFitting(t, max - Cost(f));
      var e := Evict(t, max - Cost(f));
      if |a| < |full| {
        assert full[..|a| + 1] == [f] + t[..|e| + 1];
        SizeCons(f, t[..|e| + 1]);
      }
    }
  }

  /** A literal is read, whatever follows it. */
  lemma LiteralIsRead(table: seq<Field>, r: Rep, rest: Bytes)
    requires r.Literal? && Sound(r)
    ensures ReadLiteral(table, RepBytes(r) + rest, Width(r.kind))
            == if r.idx > 61 + |table| then NoLiteral
               else
                 var name := if r.idx == 0 then r.name.value.s
                             else if r.idx <= 61 then Static(r.idx).name else table[r.idx - 62].name;
                 Lit(Field(name, r.value.s), |RepBytes(r)|)
  {
    hide IntRead, IsInt, ReadString, SoundText, TextBytes, Static, Pow2;
    KindFits(r.kind);
    var data := RepBytes(r) + rest;
    var n := |r.head|;
    assert data == r.head + (NameBytes(r.name) + TextBytes(r.value) + rest);
    IntIsRead(r.head, Flags(r.kind), Width(r.kind), r.idx, NameBytes(r.name) + TextBytes(r.value) + rest);
    TextIsRead(r.value, rest);
    if r.idx == 0 {
      assert data[n..] == TextBytes(r.name.value) + (TextBytes(r.value) + rest);
      TextIsRead(r.name.value, TextBytes(r.value) + rest);
      assert data[n + |TextBytes(r.name.value)|..] == TextBytes(r.value) + rest;
    } else {
      assert data[n..] == TextBytes(r.value) + rest;
    }
  }

  lemma LiteralStep(d: Dec, r: Rep, rest: Bytes, first: bool)
    requires r.Literal? && Sound(r)
    ensures Means(d, r, first, OneStep(d, RepBytes(r) + rest, first))
  {
    hide IntRead, IsInt, ReadLiteral, SoundText, TextBytes, Static, Add, Evict, Fitting, Size, NameBytes;
    KindFits(r.kind);
    Widths(4);
    Widths(6);
    hide Pow2;
    var tail := NameBytes(r.name) + TextBytes(r.value) + rest;
    assert RepBytes(r) + rest == r.head + tail;
    IntIsRead(r.head, Flags(r.kind), Width(r.kind), r.idx, tail);
    LiteralIsRead(d.table, r, rest);
    if r.idx <= 61 + |d.table| {
      AddIsFitting(d.table, d.max, Field(if r.idx > 0 then At(d, r.idx).name else r.name.value.s, r.value.s));
    }
  }

  /** Every representation, in every spelling and in front of any bytes, is read as
      what it means. */
  lemma RepIsRead(d: Dec, r: Rep, rest: Bytes, first: bool)
    requires Sound(r)
    ensures RepBytes(r) != [] && Means(d, r, first, OneStep(d, RepBytes(r) + rest, first))
  {
    hide IntRead, ReadLiteral, SoundText, TextBytes, Static, Add, Evict, Fitting, Size;
    Prefixes();
    Widths(5);
    Widths(7);
    hide Pow2;
    match r {
      case Indexed(head, idx) => IntIsRead(head, 0x80, 7, idx, rest);
      case Literal(kind, head, idx, name, value) => LiteralStep(d, r, rest, first);
      case Update(head, max) =>
        IntIsRead(head, 0x20, 5, max, rest);
        EvictIsFitting(d.table, max);
    }
  }

  lemma LiteralWasThere(table: seq<Field>, data: Bytes, kind: Kind) returns (r: Rep)
    requires data != [] && Flags(kind) <= data[0] < Flags(kind) + Pow2(Width(kind))
    requires ReadLiteral(table, data, Width(kind)).Lit?
    ensures Sound(r) && RepBytes(r) <= data
  {
    hide IntRead, IsInt, ReadString, SoundText, TextBytes, Static, Pow2;
    KindFits(kind);
    var i := IntRead(data, Width(kind), 10, WIDE);
    IntWasThere(data, Flags(kind), Width(kind));
    var head := data[..i.n];
    if i.val > 0 {
      var value := TextWasThere(data[i.n..]);
      r := Rep.Literal(kind, head, i.val, None, value);
      assert head + [] + TextBytes(value) == data[..i.n + |TextBytes(value)|];
    } else {
      var name := TextWasThere(data[i.n..]);
      var k := i.n + ReadString(data[i.n..]).n;
      var value := TextWasThere(data[k..]);
      r := Rep.Literal(kind, head, 0, Some(name), value);
      assert head + TextBytes(name) == data[..k];
      assert head + TextBytes(name) + TextBytes(value) == data[..k + |TextBytes(value)|];
    }
  }

  /** Whatever is read is a representation. */
  lemma RepWasThere(d: Dec, data: Bytes, first: bool) returns (r: Rep)
    requires data != [] && (32 <= data[0] < 64 ==> first) && OneStep(d, data, first) != Wrong(BadHeader)
    ensures Sound(r) && RepBytes(r) <= data
  {
    hide IntRead, IsInt, ReadLiteral, SoundText, TextBytes, Static, Add, Evict, Size, Lookup;
    Prefixes();
    Widths(4);
    Widths(5);
    Widths(6);
    Widths(7);
    hide Pow2;
    if data[0] >= 128 {
      var i := IntRead(data, 7, 10, WIDE);
      IntWasThere(data, 0x80, 7);
      r := Indexed(data[..i.n], i.val);
    } else if data[0] >= 64 {
      r := LiteralWasThere(d.table, data, WithIndexing);
    } else if data[0] >= 32 {
      var i := IntRead(data, 5, 10, WIDE);
      IntWasThere(data, 0x20, 5);
      r := Update(data[..i.n], i.val);
    } else {
      r := LiteralWasThere(d.table, data, if data[0] >= 16 then NeverIndexed else WithoutIndexing);
    }
  }

  /** Bytes that no representation begins are refused. */
  lemma NothingElseIsRead(d: Dec, data: Bytes, first: bool)
    requires data != [] && forall r :: Sound(r) ==> !(RepBytes(r) <= data)
    ensures OneStep(d, data, first) == Wrong(if 32 <= data[0] < 64 && !first then SizeUpdateAfterField else BadHeader)
  {
    hide Sound, RepBytes, IntRead, ReadLiteral, Lookup, Add, Evict;
    if (32 <= data[0] < 64 ==> first) && OneStep(d, data, first) != Wrong(BadHeader) {
      var _ := RepWasThere(d, data, first);
    }
  }

  // ----- Blocks

  function Written(reps: seq<Rep>): Bytes {
    if reps == [] then [] else RepBytes(reps[0]) + Written(reps[1..])
  }

  ghost predicate AllSound(reps: seq<Rep>) {
    forall i :: 0 <= i < |reps| ==> Sound(reps[i])
  }

  /** These representations, one after the other, take a decoder that has read
      `fields` to `d1` and `all`. */
  ghost predicate Lead(d: Dec, reps: seq<Rep>, fields: seq<Field>, d1: Dec, all: seq<Field>)
    decreases |reps|
  {
    if reps == [] then d1 == d && all == fields
    else
      exists s ::
        && Means(d, reps[0], fields == [], s) && !s.Wrong?
        && Lead(s.d, reps[1..], if s.Emit? then fields + [s.f] else fields, d1, all)
  }

  lemma FittingOnce(a: seq<Field>, b: seq<Field>, full: seq<Field>, max: nat)
    requires Fitting(a, full, max) && Fitting(b, full, max)
    ensures a == b
  {
    if |a| < |b| {
      SizeGrows(full[..|a| + 1], b);
      assert false;
    } else if |b| < |a| {
      SizeGrows(full[..|b| + 1], a);
      assert false;
    }
  }

  lemma {:induction false} SizeGrows(p: seq<Field>, t: seq<Field>)
    requires p <= t
    ensures Size(p) <= Size(t)
    decreases |t|
  {
    if |p| < |t| {
      SizeGrows(p, t[..|t| - 1]);
    } else {
      assert p == t;
    }
  }

  /** A representation means one thing. */
  lemma OneMeaning(d: Dec, r: Rep, first: bool, s: Step, t: Step)
    requires Means(d, r, first, s) && Means(d, r, first, t)
    ensures s == t
  {
    hide Fitting, At, RepBytes, Size;
    if s.Emit? && r.Literal? && r.kind.WithIndexing? {
      FittingOnce(s.d.table, t.d.table, [s.f] + d.table, d.max);
    } else if s.Resize? {
      FittingOnce(s.d.table, t.d.table, d.table, r.max);
    }
  }

  /** A block of representations is read as what they mean, one after the other. */
  lemma {:induction false} BlockIsRead(d: Dec, reps: seq<Rep>, fields: seq<Field>, d1: Dec, all: seq<Field>)
    requires AllSound(reps) && Lead(d, reps, fields, d1, all)
    ensures DecodeAll(d, Written(reps), fields) == Fields(all, d1)
    decreases |reps|
  {
    hide Sound, RepBytes, Means, OneStep;
    if reps != [] {
      var s :| Means(d, reps[0], fields == [], s) && !s.Wrong?
               && Lead(s.d, reps[1..], if s.Emit? then fields + [s.f] else fields, d1, all);
      var rest := Written(reps[1..]);
      RepIsRead(d, reps[0], rest, fields == []);
      OneMeaning(d, reps[0], fields == [], s, OneStep(d, RepBytes(reps[0]) + rest, fields == []));
      StepLength(d, reps[0], fields == [], s);
      assert (RepBytes(reps[0]) + rest)[s.n..] == rest;
      BlockIsRead(s.d, reps[1..], if s.Emit? then fields + [s.f] else fields, d1, all);
    }
  }

  lemma StepLength(d: Dec, r: Rep, first: bool, s: Step)
    requires Means(d, r, first, s) && !s.Wrong?
    ensures s.n == |RepBytes(r)|
  {
  }

  /** And every block that is read is a block of representations. */
  lemma {:induction false} BlockWasThere(d: Dec, data: Bytes, fields: seq<Field>) returns (reps: seq<Rep>)
    requires DecodeAll(d, data, fields).Fields?
    ensures AllSound(reps) && Written(reps) == data
    ensures var r := DecodeAll(d, data, fields); Lead(d, reps, fields, r.d, r.fields)
    decreases |data|
  {
    hide Sound, RepBytes, Means, OneStep;
    reps := [];
    if data != [] {
      var s := OneStep(d, data, fields == []);
      NotLate(d, data, fields == []);
      var r := RepWasThere(d, data, fields == []);
      var rest := data[|RepBytes(r)|..];
      assert data == RepBytes(r) + rest;
      RepIsRead(d, r, rest, fields == []);
      StepLength(d, r, fields == [], s);
      var more := BlockWasThere(s.d, rest, if s.Emit? then fields + [s.f] else fields);
      reps := [r] + more;
      assert reps[1..] == more;
    }
  }

  lemma NotLate(d: Dec, data: Bytes, first: bool)
    requires data != [] && !OneStep(d, data, first).Wrong?
    ensures 32 <= data[0] < 64 ==> first
  {
    hide IntRead, ReadLiteral;
  }
}
