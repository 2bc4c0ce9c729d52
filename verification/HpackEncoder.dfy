/** The encoder's methods over a growing buffer: core/hpack.go and
    core/h2_enctable.go. Each writes what the functions of `HpackCodec` say. */
module HpackEncoder {
  import opened ByteStrings
  import opened HpackInt
  import Huffman
  import opened HpackTable
  import opened HpackStatic
  import opened HpackCodec

  const CACHE_MAX_VALUE := 96

  /** `EncodeString` */
  method EncodeString(buf: Bytes, s: Bytes) returns (out: Bytes)
    requires Short(s)
    ensures out == buf + StringBytes(s)
  {
    hide IntBytes, Huffman.HuffmanBytes, Huffman.Coded;
    Prefixes();
    if |s| < MIN_HUFFMAN {
      out := EncodeInt(buf, 0x00, 7, |s|);
      return out + s;
    }
    var huffLen := Huffman.EncodedLen(s);
    Huffman.HuffmanBytesCode(s);
    if huffLen < |s| {
      out := EncodeInt(buf, 0x80, 7, huffLen);
      out := Huffman.Append(out, s);
    } else {
      out := EncodeInt(buf, 0x00, 7, |s|);
      out := out + s;
    }
  }

  /** `encodeStringLower`: no length is too short for Huffman here. */
  method EncodeStringLower(buf: Bytes, name: Bytes) returns (out: Bytes)
    requires Short(name)
    ensures out == buf + AnyString(LowerAll(name))
  {
    hide IntBytes, Huffman.HuffmanBytes, Huffman.Coded;
    Prefixes();
    var lower := LowerAll(name);
    var huffLen := Huffman.EncodedLen(lower);
    Huffman.HuffmanBytesCode(lower);
    if huffLen < |name| {
      out := EncodeInt(buf, 0x80, 7, huffLen);
      out := Huffman.Append(out, lower);
    } else {
      out := EncodeInt(buf, 0x00, 7, |name|);
      out := out + lower;
    }
  }

  datatype Cached = Cached(idx: nat, value: Bytes, enc: Bytes)

  /** `hpackFieldCache`: fields already encoded, by slot. Two fields may want the
      same slot, and whoever comes last has it. */
  class FieldCache {
    var slots: map<nat, Cached>

    ghost predicate Valid()
      reads this
    {
      forall k :: k in slots ==> slots[k].idx > 0 && slots[k].enc == StaticBytes(slots[k].idx, slots[k].value)
    }

    constructor ()
      ensures Valid()
    {
      slots := map[];
    }

    /** `encodeStaticFieldCached`, for whatever slot the hash gives. */
    method Encode(buf: Bytes, idx: nat, value: Bytes, slot: nat) returns (out: Bytes)
      requires Valid() && 0 < idx <= STATIC_COUNT && Short(value)
      modifies this
      ensures Valid() && out == buf + StaticBytes(idx, value)
    {
      hide IntBytes, StringBytes;
      Prefixes();
      if |value| <= CACHE_MAX_VALUE && slot in slots && slots[slot].idx == idx && slots[slot].value == value {
        return buf + slots[slot].enc;
      }
      out := EncodeInt(buf, 0x00, 4, idx);
      out := EncodeString(out, value);
      if |value| <= CACHE_MAX_VALUE {
        slots := slots[slot := Cached(idx, value, out[|buf|..])];
      }
    }
  }

  function StaticBytes(idx: nat, value: Bytes): Bytes {
    Prefixes();
    IntBytes(0x00, 4, idx) + StringBytes(value)
  }

  /** `EncodeHeaderFold` */
  method EncodeHeaderFold(cache: FieldCache, buf: Bytes, name: Bytes, value: Bytes, slot: nat) returns (out: Bytes)
    requires cache.Valid() && Short(name) && Short(value)
    modifies cache
    ensures cache.Valid() && out == buf + PlainBytes(name, value)
  {
    hide IntBytes, StringBytes, AnyString, Static, StaticNameFold, LowerAll, PlainBytes;
    Prefixes();
    PlainIs(name, value);
    var idx := StaticNameFold(name);
    if idx > 0 {
      out := cache.Encode(buf, idx, value, slot);
    } else {
      ZeroIndex(0x00, 4);
      out := EncodeStringLower(buf + [0x00], name);
      out := EncodeString(out, value);
      Regroup(buf, [0x00], AnyString(LowerAll(name)), StringBytes(value));
    }
  }

  lemma PlainIs(name: Bytes, value: Bytes)
    ensures Prefix(0x00, 4)
    ensures var idx := StaticNameFold(name);
            PlainBytes(name, value) == if idx > 0 then StaticBytes(idx, value)
                                       else IntBytes(0x00, 4, 0) + AnyString(LowerAll(name)) + StringBytes(value)
  {
    hide IntBytes, StringBytes, AnyString, Static, StaticNameFold, LowerAll;
    Prefixes();
  }

  lemma Regroup(a: Bytes, b: Bytes, c: Bytes, d: Bytes)
    ensures a + b + c + d == a + (b + c + d)
  {
  }

  lemma ZeroIndex(flags: Byte, bits: nat)
    requires Prefix(flags, bits) && bits > 1
    ensures IntBytes(flags, bits, 0) == [flags]
  {
    Widths(bits);
  }

  /** `EncodeStatus` */
  method EncodeStatus(buf: Bytes, code: int) returns (out: Bytes)
    requires code < WIDE
    ensures out == buf + StatusBytes(code)
  {
    hide IntBytes, Digits;
    Prefixes();
    var idx := StatusIndex(code);
    if idx > 0 {
      out := EncodeInt(buf, 0x80, 7, idx);
    } else {
      out := EncodeInt(buf, 0x00, 4, 8);
      var s := Digits(code);
      DigitsShort(code);
      out := EncodeInt(out, 0x00, 7, |s|);
      out := out + s;
    }
  }

  /** The state of a table, as `HpackCodec` sees it. */
  function View(t: EncTable): Enc
    reads t
  {
    Enc(Newest(t.entries), t.maxSize, t.pendingUpdate)
  }

  /** `beginBlock` */
  method BeginBlock(t: EncTable, buf: Bytes) returns (out: Bytes)
    requires t.Valid()
    modifies t`pendingUpdate
    ensures t.Valid() && out == buf + UpdateBytes(old(View(t))) && View(t) == old(View(t)).(pending := false)
  {
    hide IntBytes;
    Prefixes();
    out := buf;
    if t.pendingUpdate {
      out := EncodeInt(buf, 0x20, 5, t.maxSize);
      t.pendingUpdate := false;
    }
  }

  /** `encodeField` */
  method EncodeField(t: EncTable, cache: FieldCache, buf: Bytes, idx: nat, f: Field, slot: nat) returns (out: Bytes)
    requires t.Valid() && cache.Valid() && Proper(Keep(idx, f))
    modifies t`entries, t`size, t`gen, cache
    ensures t.Valid() && cache.Valid()
    ensures out == buf + OpBytes(old(View(t)), Keep(idx, f)) && View(t) == AfterOp(old(View(t)), Keep(idx, f))
    ensures t.gen >= old(t.gen) && (t.gen == old(t.gen) ==> t.entries == old(t.entries))
  {
    hide IntBytes, LiteralBytes, Static, Size, Evict, PositionOf;
    Prefixes();
    var at := t.Find(f);
    if at > 0 {
      FewEntries(Newest(t.entries));
      out := EncodeInt(buf, 0x80, 7, at);
      return;
    }
    if |f.value| > INDEX_MAX_VALUE || Cost(f) > t.maxSize {
      out := WithoutIndexing(cache, buf, idx, f, slot);
      return;
    }
    out := WithIndexing(buf, idx, f);
    t.AddField(f);
  }

  method WithoutIndexing(cache: FieldCache, buf: Bytes, idx: nat, f: Field, slot: nat) returns (out: Bytes)
    requires cache.Valid() && Proper(Keep(idx, f))
    modifies cache
    ensures cache.Valid() && Prefix(0x00, 4) && out == buf + LiteralBytes(0x00, 4, idx, f.name, f.value)
  {
    hide IntBytes, StringBytes, Static;
    Prefixes();
    if idx > 0 {
      out := cache.Encode(buf, idx, f.value, slot);
      return;
    }
    ZeroIndex(0x00, 4);
    out := EncodeString(buf + [0x00], f.name);
    out := EncodeString(out, f.value);
  }

  method WithIndexing(buf: Bytes, idx: nat, f: Field) returns (out: Bytes)
    requires Proper(Keep(idx, f))
    ensures Prefix(0x40, 6) && out == buf + LiteralBytes(0x40, 6, idx, f.name, f.value)
  {
    hide IntBytes, StringBytes, Static;
    Prefixes();
    if idx > 0 {
      out := EncodeInt(buf, 0x40, 6, idx);
    } else {
      ZeroIndex(0x40, 6);
      out := EncodeString(buf + [0x40], f.name);
    }
    out := EncodeString(out, f.value);
  }
}
