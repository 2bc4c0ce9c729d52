/** HPACK header blocks: what the encoder of core/h2_enctable.go and core/hpack.go
    writes, what `DecodeInto` of core/hpack.go reads, and why the two stay in step
    over any run of blocks and table limits. */
module HpackCodec {
  import opened ByteStrings
  import opened BitStrings
  import opened HpackInt
  import Huffman
  import opened HpackTable
  import opened HpackStatic

  const MIN_HUFFMAN := 12
  const INDEX_MAX_VALUE := 128
  const MAX_HEADERS := 128

  /** A length a machine word can hold. */
  predicate Short(s: Bytes) {
    |s| < WIDE
  }

  predicate ShortField(f: Field) {
    Short(f.name) && Short(f.value)
  }

  // ----- Strings

  function RawString(s: Bytes): Bytes {
    Prefixes();
    IntBytes(0x00, 7, |s|) + s
  }

  /** Huffman if that is shorter. */
  function AnyString(s: Bytes): Bytes {
    Prefixes();
    var h := Huffman.HuffmanBytes(s);
    if |h| < |s| then IntBytes(0x80, 7, |h|) + h else RawString(s)
  }

  /** `EncodeString` */
  function StringBytes(s: Bytes): Bytes {
    if |s| < MIN_HUFFMAN then RawString(s) else AnyString(s)
  }

  /** The flags this codec puts before an integer. */
  lemma Prefixes()
    ensures Prefix(0x00, 4) && Prefix(0x00, 7) && Prefix(0x80, 7) && Prefix(0x40, 6) && Prefix(0x20, 5)
  {
    Widths(4);
    Widths(5);
    Widths(6);
    Widths(7);
  }

  ghost function HuffmanOf(raw: Bytes): Option<Bytes> {
    if exists s :: Huffman.Codes(raw, s) then
      var s :| Huffman.Codes(raw, s);
      Some(s)
    else None
  }

  lemma HuffmanIs(raw: Bytes, s: Bytes)
    requires Huffman.Codes(raw, s)
    ensures HuffmanOf(raw) == Some(s)
  {
    hide Huffman.Codes;
    Huffman.CodesUnique(raw, HuffmanOf(raw).value, s);
  }

  datatype Str = NoStr | Str(s: Bytes, n: nat)

  /** `HpackDecodeString` and `decodeString`: the text and the bytes it took. */
  ghost function ReadString(data: Bytes): (r: Str)
    ensures r.Str? ==> 0 < r.n <= |data|
  {
    if data == [] then NoStr
    else
      var i := IntRead(data, 7, 10, WIDE);
      if i.Bad? || i.n == 0 || i.n + i.val > |data| then NoStr
      else
        var raw := data[i.n..i.n + i.val];
        if data[0] < 128 then Str(raw, i.n + i.val)
        else
          match HuffmanOf(raw)
          case None => NoStr
          case Some(s) => Str(s, i.n + i.val)
  }

  /** The first byte of an integer keeps its flags. */
  lemma FirstByte(prefix: Byte, bits: nat, val: nat, rest: Bytes)
    requires Prefix(prefix, bits)
    ensures var s := IntBytes(prefix, bits, val) + rest;
            s != [] && prefix <= s[0] < prefix + Pow2(bits)
  {
    hide Pow2;
  }

  lemma RawReads(s: Bytes, rest: Bytes)
    requires Short(s)
    ensures ReadString(RawString(s) + rest) == Str(s, |RawString(s)|)
  {
    hide HuffmanOf, IntBytes, IntRead, Pow2;
    Prefixes();
    Widths(7);
    var head := IntBytes(0x00, 7, |s|);
    var data := RawString(s) + rest;
    assert data == head + (s + rest);
    IntRoundTrip(0x00, 7, |s|, s + rest);
    FirstByte(0x00, 7, |s|, s + rest);
    assert data[|head|..|head| + |s|] == s;
  }

  lemma AnyReads(s: Bytes, rest: Bytes)
    requires Short(s)
    ensures ReadString(AnyString(s) + rest) == Str(s, |AnyString(s)|)
  {
    hide HuffmanOf, IntBytes, IntRead, Pow2, Huffman.HuffmanBytes, RawString, Huffman.Codes;
    Prefixes();
    Widths(7);
    var h := Huffman.HuffmanBytes(s);
    if |h| < |s| {
      var head := IntBytes(0x80, 7, |h|);
      var data := AnyString(s) + rest;
      assert data == head + (h + rest);
      IntRoundTrip(0x80, 7, |h|, h + rest);
      FirstByte(0x80, 7, |h|, h + rest);
      Huffman.HuffmanBytesCode(s);
      HuffmanIs(h, s);
      assert data[|head|..|head| + |h|] == h;
    } else {
      RawReads(s, rest);
    }
  }

  /** A string written and read back is itself. */
  lemma StringRoundTrip(s: Bytes, rest: Bytes)
    requires Short(s)
    ensures ReadString(StringBytes(s) + rest) == Str(s, |StringBytes(s)|)
  {
    hide ReadString, AnyString, RawString;
    if |s| < MIN_HUFFMAN { RawReads(s, rest); } else { AnyReads(s, rest); }
  }

  // ----- What the encoder writes

  /** The parts of a block, as the response writer makes them: `EncodeStatus`, a
      field the dynamic table may keep (`encodeField`), a literal with a static
      name, and any other field (`EncodeHeaderFold`). */
  datatype Op =
    | Status(code: int)
    | Keep(idx: nat, f: Field)
    | Literal(idx: nat, value: Bytes)
    | Plain(name: Bytes, value: Bytes)

  /** What the callers of these operations make sure of. */
  predicate Proper(op: Op) {
    match op
    case Status(code) => code < WIDE
    case Keep(idx, f) => ShortField(f) && idx <= STATIC_COUNT && (idx > 0 ==> Static(idx).name == f.name)
    case Literal(idx, value) => 0 < idx <= STATIC_COUNT && Short(value)
    case Plain(name, value) => Short(name) && Short(value)
  }

  /** The field an operation means. */
  function FieldOf(op: Op): Field
    requires Proper(op)
  {
    match op
    case Status(code) => Field(Ascii(":status"), Digits(code))
    case Keep(_, f) => f
    case Literal(idx, value) => Field(Static(idx).name, value)
    case Plain(name, value) => Field(LowerAll(name), value)
  }

  /** `appendUint` */
  function Decimal(n: nat): Bytes {
    if n < 10 then [48 + n] else Decimal(n / 10) + [48 + n % 10]
  }

  /** `appendUint` of a status, which may be anything: a negative number comes out
      as one byte. */
  function Digits(n: int): Bytes {
    if n < 0 then [(n + 48) % 256] else Decimal(n)
  }

  /** The encoder's state: table newest first, limit, update to be announced. */
  datatype Enc = Enc(table: seq<Field>, max: nat, pending: bool)

  /** The static entry for a common status, or zero. */
  function StatusIndex(code: int): (i: nat)
    ensures i <= 14 && (i > 0 ==> i >= 8)
  {
    match code
    case 200 => 8
    case 204 => 9
    case 206 => 10
    case 304 => 11
    case 400 => 12
    case 404 => 13
    case 500 => 14
    case _ => 0
  }

  function IndexedBytes(idx: nat): Bytes {
    Prefixes();
    IntBytes(0x80, 7, idx)
  }

  /** A literal field after `flags`: the name by static index, or spelled out. */
  function LiteralBytes(flags: Byte, bits: nat, idx: nat, name: Bytes, value: Bytes): Bytes
    requires Prefix(flags, bits)
  {
    if idx > 0 then IntBytes(flags, bits, idx) + StringBytes(value)
    else IntBytes(flags, bits, 0) + StringBytes(name) + StringBytes(value)
  }

  /** `EncodeHeaderFold`, whose names skip the minimum length for Huffman. */
  function PlainBytes(name: Bytes, value: Bytes): Bytes {
    Prefixes();
    var idx := StaticNameFold(name);
    if idx > 0 then IntBytes(0x00, 4, idx) + StringBytes(value)
    else IntBytes(0x00, 4, 0) + AnyString(LowerAll(name)) + StringBytes(value)
  }

  function StatusBytes(code: int): Bytes {
    Prefixes();
    if StatusIndex(code) > 0 then IndexedBytes(StatusIndex(code))
    else IntBytes(0x00, 4, 8) + RawString(Digits(code))
  }

  function OpBytes(e: Enc, op: Op): Bytes {
    Prefixes();
    match op
    case Status(code) => StatusBytes(code)
    case Keep(idx, f) =>
      var k := PositionOf(e.table, f);
      if k >= 0 then IndexedBytes(DYNAMIC_INDEX_MIN + k)
      else if |f.value| > INDEX_MAX_VALUE || Cost(f) > e.max then LiteralBytes(0x00, 4, idx, f.name, f.value)
      else LiteralBytes(0x40, 6, idx, f.name, f.value)
    case Literal(idx, value) => LiteralBytes(0x00, 4, idx, [], value)
    case Plain(name, value) => PlainBytes(name, value)
  }

  function AfterOp(e: Enc, op: Op): Enc {
    if !op.Keep? || PositionOf(e.table, op.f) >= 0 || |op.f.value| > INDEX_MAX_VALUE || Cost(op.f) > e.max then e
    else e.(table := Add(e.table, e.max, op.f))
  }

  function OpsBytes(e: Enc, ops: seq<Op>): Bytes
    decreases ops
  {
    if ops == [] then [] else OpBytes(e, ops[0]) + OpsBytes(AfterOp(e, ops[0]), ops[1..])
  }

  function AfterOps(e: Enc, ops: seq<Op>): Enc
    decreases ops
  {
    if ops == [] then e else AfterOps(AfterOp(e, ops[0]), ops[1..])
  }

  /** `beginBlock`: only the size in force is announced, however many there were. */
  function UpdateBytes(e: Enc): Bytes {
    Prefixes();
    if e.pending then IntBytes(0x20, 5, e.max) else []
  }

  function BlockBytes(e: Enc, ops: seq<Op>): Bytes {
    UpdateBytes(e) + OpsBytes(e.(pending := false), ops)
  }

  function AfterBlock(e: Enc, ops: seq<Op>): Enc {
    AfterOps(e.(pending := false), ops)
  }

  /** `setPeerLimit` */
  function PeerLimit(e: Enc, limit: nat): Enc {
    var max := if limit < ENC_MAX_SIZE then limit else ENC_MAX_SIZE;
    if max == e.max then e else Enc(Evict(e.table, max), max, true)
  }

  // ----- What the decoder reads

  /** The decoder's state: table newest first, its limit, and the largest limit it
      accepts. */
  datatype Dec = Dec(table: seq<Field>, max: nat, most: nat)

  datatype Error = BadHeader | TooManyHeaders | SizeUpdateAfterField | TableSizeExceeded

  datatype Step = Wrong(error: Error) | Emit(f: Field, n: nat, d: Dec) | Resize(n: nat, d: Dec)

  /** `lookupIndex` */
  function Lookup(table: seq<Field>, idx: nat): Option<Field> {
    if idx == 0 then None
    else if idx <= STATIC_COUNT then Some(Static(idx))
    else if idx - DYNAMIC_INDEX_MIN < |table| then Some(table[idx - DYNAMIC_INDEX_MIN])
    else None
  }

  datatype LitRead = NoLiteral | Lit(f: Field, n: nat)

  /** The name of a literal field, by index or spelled out. */
  ghost function ReadName(table: seq<Field>, data: Bytes, bits: nat): (r: Str)
    requires 1 <= bits <= 8
    ensures r.Str? ==> 0 < r.n <= |data|
  {
    match IntRead(data, bits, 10, WIDE)
    case Bad => NoStr
    case Value(idx, n) =>
      if n == 0 || n > |data| then NoStr
      else if idx > 0 then
        match Lookup(table, idx) {
          case None => NoStr
          case Some(f) => Str(f.name, n)
        }
      else
        match ReadString(data[n..]) {
          case NoStr => NoStr
          case Str(s, k) => Str(s, n + k)
        }
  }

  ghost function ReadLiteral(table: seq<Field>, data: Bytes, bits: nat): (r: LitRead)
    requires 1 <= bits <= 8
    ensures r.Lit? ==> 0 < r.n <= |data|
  {
    match ReadName(table, data, bits)
    case NoStr => NoLiteral
    case Str(name, n) =>
      match ReadString(data[n..])
      case NoStr => NoLiteral
      case Str(value, k) => Lit(Field(name, value), n + k)
  }

  /** One turn of the decoding loop. */
  ghost function OneStep(d: Dec, data: Bytes, first: bool): (r: Step)
    requires data != []
    ensures !r.Wrong? ==> 0 < r.n <= |data|
  {
    if data[0] >= 128 then
      match IntRead(data, 7, 10, WIDE) {
        case Bad => Wrong(BadHeader)
        case Value(idx, n) =>
          match Lookup(d.table, idx) {
            case None => Wrong(BadHeader)
            case Some(f) => if 0 < n <= |data| then Emit(f, n, d) else Wrong(BadHeader)
          }
      }
    else if data[0] >= 64 then
      match ReadLiteral(d.table, data, 6) {
        case NoLiteral => Wrong(BadHeader)
        case Lit(f, n) => Emit(f, n, d.(table := Add(d.table, d.max, f)))
      }
    else if data[0] >= 32 then
      if !first then Wrong(SizeUpdateAfterField)
      else
        match IntRead(data, 5, 10, WIDE) {
          case Bad => Wrong(BadHeader)
          case Value(max, n) =>
            if max > d.most then Wrong(TableSizeExceeded)
            else if 0 < n <= |data| then Resize(n, d.(table := Evict(d.table, max), max := max))
            else Wrong(BadHeader)
        }
    else
      match ReadLiteral(d.table, data, 4) {
        case NoLiteral => Wrong(BadHeader)
        case Lit(f, n) => Emit(f, n, d)
      }
  }

  datatype Decoded = Failed(error: Error) | Fields(fields: seq<Field>, d: Dec)

  /** `DecodeInto`, with `fields` already read. */
  ghost function DecodeBlock(d: Dec, data: Bytes, fields: seq<Field>): Decoded
    decreases |data|
  {
    if data == [] then Fields(fields, d)
    else
      var s := OneStep(d, data, fields == []);
      if s.Wrong? then Failed(s.error)
      else if s.Resize? then DecodeBlock(s.d, data[s.n..], fields)
      else if |fields| + 1 > MAX_HEADERS then Failed(TooManyHeaders)
      else DecodeBlock(s.d, data[s.n..], fields + [s.f])
  }

  /** The same without the limit on the number of fields. */
  ghost function DecodeAll(d: Dec, data: Bytes, fields: seq<Field>): Decoded
    decreases |data|
  {
    if data == [] then Fields(fields, d)
    else
      var s := OneStep(d, data, fields == []);
      if s.Wrong? then Failed(s.error)
      else if s.Resize? then DecodeAll(s.d, data[s.n..], fields)
      else DecodeAll(s.d, data[s.n..], fields + [s.f])
  }

  /** What `DecodeInto` makes of a block that is sound but for its length. */
  function Capped(r: Decoded): Decoded
    requires r.Fields?
  {
    if |r.fields| <= MAX_HEADERS then r else Failed(TooManyHeaders)
  }

  lemma {:induction false} CapOnly(d: Dec, data: Bytes, fields: seq<Field>)
    requires |fields| <= MAX_HEADERS && DecodeAll(d, data, fields).Fields?
    ensures |DecodeAll(d, data, fields).fields| >= |fields|
    ensures DecodeBlock(d, data, fields) == Capped(DecodeAll(d, data, fields))
    decreases |data|
  {
    hide OneStep;
    if data != [] {
      var s := OneStep(d, data, fields == []);
      if s.Resize? {
        CapOnly(s.d, data[s.n..], fields);
      } else if |fields| < MAX_HEADERS {
        CapOnly(s.d, data[s.n..], fields + [s.f]);
      } else {
        OnlyMore(s.d, data[s.n..], fields + [s.f]);
      }
    }
  }

  lemma {:induction false} OnlyMore(d: Dec, data: Bytes, fields: seq<Field>)
    ensures DecodeAll(d, data, fields).Fields? ==> |DecodeAll(d, data, fields).fields| >= |fields|
    decreases |data|
  {
    hide OneStep;
    if data != [] {
      var s := OneStep(d, data, fields == []);
      if s.Resize? {
        OnlyMore(s.d, data[s.n..], fields);
      } else if s.Emit? {
        OnlyMore(s.d, data[s.n..], fields + [s.f]);
      }
    }
  }

  // ----- The two in step

  /** The encoder's table begins the decoder's, under the same limit unless a new
      one is still to be announced. */
  predicate InStep(e: Enc, d: Dec) {
    && e.table <= d.table && Size(e.table) <= e.max <= ENC_MAX_SIZE && e.max <= d.most
    && (e.pending || d.max == e.max)
  }

  lemma IndexedReads(d: Dec, idx: nat, rest: Bytes, first: bool)
    requires idx < WIDE && Lookup(d.table, idx).Some?
    ensures OneStep(d, IndexedBytes(idx) + rest, first) == Emit(Lookup(d.table, idx).value, |IndexedBytes(idx)|, d)
  {
    hide Lookup, IntBytes, IntRead, ReadLiteral, Pow2;
    Prefixes();
    Widths(7);
    IntRoundTrip(0x80, 7, idx, rest);
    FirstByte(0x80, 7, idx, rest);
  }

  /** A literal field reads back as its name and value, however they are written. */
  lemma LiteralReads(table: seq<Field>, flags: Byte, bits: nat, idx: nat, name: Bytes, spelled: Bytes, value: Bytes,
                     tail: Bytes, rest: Bytes)
    requires Prefix(flags, bits) && idx <= STATIC_COUNT
    requires if idx > 0 then Static(idx).name == name && spelled == []
             else forall r :: ReadString(spelled + r) == Str(name, |spelled|)
    requires forall r :: ReadString(tail + r) == Str(value, |tail|)
    ensures var s := IntBytes(flags, bits, idx) + spelled + tail;
            && s != [] && flags <= (s + rest)[0] < flags + Pow2(bits)
            && ReadLiteral(table, s + rest, bits) == Lit(Field(name, value), |s|)
  {
    hide IntBytes, IntRead, ReadString, Static, Pow2;
    var head := IntBytes(flags, bits, idx);
    var data := head + spelled + tail + rest;
    assert data == head + (spelled + (tail + rest));
    IntRoundTrip(flags, bits, idx, spelled + (tail + rest));
    FirstByte(flags, bits, idx, spelled + (tail + rest));
    assert ReadString(tail + rest) == Str(value, |tail|);
    if idx > 0 {
      assert data[|head|..] == tail + rest;
    } else {
      assert data[|head|..] == spelled + (tail + rest);
      assert ReadString(spelled + (tail + rest)) == Str(name, |spelled|);
      assert data[|head| + |spelled|..] == tail + rest;
    }
  }

  lemma StringsRead(s: Bytes)
    requires Short(s)
    ensures forall r :: ReadString(StringBytes(s) + r) == Str(s, |StringBytes(s)|)
    ensures forall r :: ReadString(AnyString(s) + r) == Str(s, |AnyString(s)|)
    ensures forall r :: ReadString(RawString(s) + r) == Str(s, |RawString(s)|)
  {
    hide ReadString, StringBytes, AnyString, RawString;
    forall r
      ensures ReadString(StringBytes(s) + r) == Str(s, |StringBytes(s)|)
      ensures ReadString(AnyString(s) + r) == Str(s, |AnyString(s)|)
      ensures ReadString(RawString(s) + r) == Str(s, |RawString(s)|)
    {
      StringRoundTrip(s, r);
      AnyReads(s, r);
      RawReads(s, r);
    }
  }

  /** The static entries for common statuses say what the number says. */
  lemma StatusText(code: int)
    requires StatusIndex(code) > 0
    ensures Static(StatusIndex(code)) == Field(Ascii(":status"), Digits(code))
  {
    hide Decimal;
    match code
    case 200 => ThreeDigits(2, 0, 0, "200");
    case 204 => ThreeDigits(2, 0, 4, "204");
    case 206 => ThreeDigits(2, 0, 6, "206");
    case 304 => ThreeDigits(3, 0, 4, "304");
    case 400 => ThreeDigits(4, 0, 0, "400");
    case 404 => ThreeDigits(4, 0, 4, "404");
    case _ => ThreeDigits(5, 0, 0, "500");
  }

  lemma ThreeDigits(a: nat, b: nat, c: nat, s: string)
    requires 0 < a < 10 && b < 10 && c < 10
    requires |s| == 3 && s[0] as int == 48 + a && s[1] as int == 48 + b && s[2] as int == 48 + c
    ensures Decimal(100 * a + 10 * b + c) == Ascii(s)
  {
    var n := 100 * a + 10 * b + c;
    assert n / 10 == 10 * a + b && n % 10 == c;
    assert n / 10 / 10 == a && n / 10 % 10 == b;
    assert Decimal(n / 10) == [48 + a, 48 + b];
  }

  lemma StatusReads(d: Dec, code: int, rest: Bytes, first: bool)
    requires code < WIDE
    ensures OneStep(d, StatusBytes(code) + rest, first)
            == Emit(Field(Ascii(":status"), Digits(code)), |StatusBytes(code)|, d)
  {
    hide IntBytes, IntRead, ReadLiteral, Pow2, Static, Digits, RawString, StringBytes, IndexedBytes;
    Prefixes();
    Widths(4);
    var idx := StatusIndex(code);
    if idx > 0 {
      StatusText(code);
      IndexedReads(d, idx, rest, first);
    } else {
      StatusName();
      var v := Digits(code);
      DigitsShort(code);
      StringsRead(v);
      LiteralReads(d.table, 0x00, 4, 8, Ascii(":status"), [], v, RawString(v), rest);
      assert IntBytes(0x00, 4, 8) + [] + RawString(v) == StatusBytes(code);
    }
  }

  lemma StatusName()
    ensures Static(8).name == Ascii(":status")
  {
  }

  lemma {:induction false} DecimalShort(n: nat, k: nat)
    requires k > 0 && n < Tens(k)
    ensures |Decimal(n)| <= k
  {
    if n >= 10 { DecimalShort(n / 10, k - 1); }
  }

  function Tens(k: nat): nat {
    if k == 0 then 1 else 10 * Tens(k - 1)
  }

  /** A number of 64 bits has at most twenty digits. */
  lemma LengthShort(n: nat)
    requires n < WIDE
    ensures |Decimal(n)| <= 20 && Short(Decimal(n))
  {
    hide Decimal;
    assert Tens(5) == 100000;
    TensAdd(5, 5);
    TensAdd(10, 10);
    DecimalShort(n, 20);
  }

  lemma DigitsShort(n: int)
    requires n < WIDE
    ensures |Digits(n)| <= 20 && Short(Digits(n))
  {
    hide Decimal;
    if n >= 0 { LengthShort(n); }
  }

  lemma {:induction false} TensAdd(a: nat, b: nat)
    ensures Tens(a + b) == Tens(a) * Tens(b)
  {
    if a > 0 {
      TensAdd(a - 1, b);
      var x, y := Tens(a - 1), Tens(b);
      assert Tens(a + b) == 10 * Tens(a - 1 + b);
      MulAssoc(10, x, y);
    }
  }

  /** The writer's literal, with the name by index or spelled out. */
  lemma WrittenLiteral(d: Dec, flags: Byte, bits: nat, idx: nat, f: Field, rest: Bytes)
    requires Prefix(flags, bits) && ShortField(f) && idx <= STATIC_COUNT && (idx > 0 ==> Static(idx).name == f.name)
    ensures var s := LiteralBytes(flags, bits, idx, f.name, f.value);
            && s != [] && flags <= (s + rest)[0] < flags + Pow2(bits)
            && ReadLiteral(d.table, s + rest, bits) == Lit(f, |s|)
  {
    hide IntBytes, ReadLiteral, ReadString, StringBytes, Static, Pow2;
    StringsRead(f.name);
    StringsRead(f.value);
    if idx > 0 {
      LiteralReads(d.table, flags, bits, idx, f.name, [], f.value, StringBytes(f.value), rest);
      assert IntBytes(flags, bits, idx) + [] + StringBytes(f.value) == LiteralBytes(flags, bits, idx, f.name, f.value);
    } else {
      LiteralReads(d.table, flags, bits, 0, f.name, StringBytes(f.name), f.value, StringBytes(f.value), rest);
    }
  }

  lemma PlainReads(d: Dec, name: Bytes, value: Bytes, rest: Bytes, first: bool)
    requires Short(name) && Short(value)
    ensures OneStep(d, PlainBytes(name, value) + rest, first)
            == Emit(Field(LowerAll(name), value), |PlainBytes(name, value)|, d)
  {
    hide IntBytes, IntRead, ReadLiteral, ReadString, StringBytes, AnyString, Static, Pow2, StaticNameFold;
    Prefixes();
    Widths(4);
    var idx := StaticNameFold(name);
    var lower := LowerAll(name);
    StringsRead(lower);
    StringsRead(value);
    if idx > 0 {
      LiteralReads(d.table, 0x00, 4, idx, lower, [], value, StringBytes(value), rest);
      assert IntBytes(0x00, 4, idx) + [] + StringBytes(value) == PlainBytes(name, value);
    } else {
      LiteralReads(d.table, 0x00, 4, 0, lower, AnyString(lower), value, StringBytes(value), rest);
    }
  }

  lemma KeepReads(e: Enc, d: Dec, idx: nat, f: Field, rest: Bytes, first: bool)
    requires InStep(e, d) && !e.pending && Proper(Keep(idx, f))
    ensures var s, e' := OpBytes(e, Keep(idx, f)), AfterOp(e, Keep(idx, f));
            && s != []
            && var r := OneStep(d, s + rest, first);
               && r.Emit? && r.f == f && r.n == |s| && InStep(e', r.d) && !e'.pending
               && (e.table == d.table ==> e'.table == r.d.table)
  {
    hide IntBytes, IntRead, ReadLiteral, LiteralBytes, Static, Pow2, Size, Evict, IndexedBytes;
    Prefixes();
    Widths(4);
    Widths(6);
    var k := PositionOf(e.table, f);
    if k >= 0 {
      FewEntries(e.table);
      IndexedReads(d, DYNAMIC_INDEX_MIN + k, rest, first);
      IndexedSome(DYNAMIC_INDEX_MIN + k);
    } else if |f.value| > INDEX_MAX_VALUE || Cost(f) > e.max {
      WrittenLiteral(d, 0x00, 4, idx, f, rest);
    } else {
      WrittenLiteral(d, 0x40, 6, idx, f, rest);
      AddPrefix(e.table, d.table, e.max, f);
      AddFits(e.table, e.max, f);
    }
  }

  lemma IndexedSome(idx: nat)
    ensures IndexedBytes(idx) != []
  {
  }

  lemma StaticReads(d: Dec, idx: nat, value: Bytes, rest: Bytes, first: bool)
    requires Proper(Literal(idx, value))
    ensures var s := LiteralBytes(0x00, 4, idx, [], value);
            s != [] && OneStep(d, s + rest, first) == Emit(Field(Static(idx).name, value), |s|, d)
  {
    hide IntBytes, IntRead, ReadLiteral, ReadString, StringBytes, Static, Pow2;
    Prefixes();
    Widths(4);
    StringsRead(value);
    LiteralReads(d.table, 0x00, 4, idx, Static(idx).name, [], value, StringBytes(value), rest);
    assert IntBytes(0x00, 4, idx) + [] + StringBytes(value) == LiteralBytes(0x00, 4, idx, [], value);
  }

  /** One operation, written by an encoder in step with the reader, is read as the
      field it means, and leaves the two in step. */
  lemma OpReads(e: Enc, d: Dec, op: Op, rest: Bytes, first: bool)
    requires InStep(e, d) && !e.pending && Proper(op)
    ensures var s, e' := OpBytes(e, op), AfterOp(e, op);
            && s != []
            && var r := OneStep(d, s + rest, first);
               && r.Emit? && r.f == FieldOf(op) && r.n == |s| && InStep(e', r.d) && !e'.pending
               && (e.table == d.table ==> e'.table == r.d.table)
  {
    hide OneStep, InStep, IntBytes, Static, StatusBytes, PlainBytes, LiteralBytes, PositionOf;
    match op
    case Status(code) =>
      StatusReads(d, code, rest, first);
      StatusSome(code);
    case Keep(idx, f) => KeepReads(e, d, idx, f, rest, first);
    case Literal(idx, value) => StaticReads(d, idx, value, rest, first);
    case Plain(name, value) =>
      PlainReads(d, name, value, rest, first);
      PlainSome(name, value);
  }

  lemma StatusSome(code: int)
    ensures StatusBytes(code) != []
  {
    hide IntBytes, Digits, RawString;
  }

  lemma PlainSome(name: Bytes, value: Bytes)
    ensures PlainBytes(name, value) != []
  {
    hide IntBytes, StringBytes, AnyString, StaticNameFold;
  }

  predicate AllProper(ops: seq<Op>) {
    forall i :: 0 <= i < |ops| ==> Proper(ops[i])
  }

  function FieldsOf(ops: seq<Op>): seq<Field>
    requires AllProper(ops)
  {
    seq(|ops|, i requires 0 <= i < |ops| => FieldOf(ops[i]))
  }

  lemma {:induction false} OpsRead(e: Enc, d: Dec, ops: seq<Op>, fields: seq<Field>)
    requires InStep(e, d) && !e.pending && AllProper(ops)
    ensures var r, e' := DecodeAll(d, OpsBytes(e, ops), fields), AfterOps(e, ops);
            && r.Fields? && r.fields == fields + FieldsOf(ops) && InStep(e', r.d) && !e'.pending
            && (e.table == d.table ==> e'.table == r.d.table)
    decreases ops
  {
    hide OneStep, InStep, OpBytes, AfterOp, Proper, FieldOf;
    if ops == [] {
      assert fields + FieldsOf(ops) == fields;
    } else {
      var s, rest := OpBytes(e, ops[0]), OpsBytes(AfterOp(e, ops[0]), ops[1..]);
      OpReads(e, d, ops[0], rest, fields == []);
      var r := OneStep(d, s + rest, fields == []);
      assert (s + rest)[|s|..] == rest;
      OpsRead(AfterOp(e, ops[0]), r.d, ops[1..], fields + [r.f]);
      assert fields + FieldsOf(ops) == (fields + [r.f]) + FieldsOf(ops[1..]);
    }
  }

  /** A whole block, with the table size announced first if there is a new one.
      The tables are equal after it if they are once the decoder has resized.
      `DecodeInto` reads it if and only if it has no more fields than it allows. */
  lemma BlockReads(e: Enc, d: Dec, ops: seq<Op>)
    requires InStep(e, d) && AllProper(ops)
    ensures var r, e' := DecodeAll(d, BlockBytes(e, ops), []), AfterBlock(e, ops);
            && r.Fields? && r.fields == FieldsOf(ops) && InStep(e', r.d) && !e'.pending
            && (e.table == (if e.pending then Evict(d.table, e.max) else d.table) ==> e'.table == r.d.table)
            && DecodeBlock(d, BlockBytes(e, ops), []) == if |ops| <= MAX_HEADERS then r else Failed(TooManyHeaders)
  {
    hide OneStep, IntBytes, OpsBytes, AfterOps, Evict, Size, FieldsOf, AllProper;
    var e0 := e.(pending := false);
    var body := OpsBytes(e0, ops);
    assert [] + FieldsOf(ops) == FieldsOf(ops);
    if e.pending {
      var s := UpdateBytes(e);
      UpdateReads(e, d, body);
      EvictLongest(e.table, d.table, e.max);
      assert (s + body)[|s|..] == body;
      OpsRead(e0, d.(table := Evict(d.table, e.max), max := e.max), ops, []);
    } else {
      assert BlockBytes(e, ops) == body;
      OpsRead(e0, d, ops, []);
    }
    Counted(ops);
    CapOnly(d, BlockBytes(e, ops), []);
  }

  lemma Counted(ops: seq<Op>)
    requires AllProper(ops)
    ensures |FieldsOf(ops)| == |ops|
  {
  }

  /** A block of one field too many is refused. */
  lemma OneTooMany(e: Enc, d: Dec)
    requires InStep(e, d)
    ensures DecodeBlock(d, BlockBytes(e, seq(MAX_HEADERS + 1, i => Status(200))), []) == Failed(TooManyHeaders)
  {
    hide DecodeBlock, BlockBytes, InStep;
    BlockReads(e, d, seq(MAX_HEADERS + 1, i => Status(200)));
  }

  lemma UpdateReads(e: Enc, d: Dec, rest: Bytes)
    requires e.pending && e.max <= ENC_MAX_SIZE && e.max <= d.most
    ensures var s := UpdateBytes(e);
            s != [] && OneStep(d, s + rest, true) == Resize(|s|, d.(table := Evict(d.table, e.max), max := e.max))
  {
    hide IntBytes, IntRead, ReadLiteral, Pow2, Evict;
    Prefixes();
    Widths(5);
    IntRoundTrip(0x20, 5, e.max, rest);
    FirstByte(0x20, 5, e.max, rest);
  }

  lemma LimitKeeps(e: Enc, d: Dec, limit: nat)
    requires InStep(e, d)
    ensures InStep(PeerLimit(e, limit), d.(most := limit))
  {
    hide Size, Evict;
    var max := if limit < ENC_MAX_SIZE then limit else ENC_MAX_SIZE;
    EvictFits(e.table, max);
    NoSize();
  }

  // ----- Whole connections

  /** The peer changes the limit of its decoder, or a block is sent. */
  datatype Event = Limit(limit: nat) | Block(ops: seq<Op>)

  predicate Sendable(ev: Event) {
    ev.Block? ==> AllProper(ev.ops)
  }

  predicate AllSendable(events: seq<Event>) {
    events == [] || (Sendable(events[0]) && AllSendable(events[1..]))
  }

  /** Over these events every block decodes to exactly its fields, and after each
      the encoder's table begins the decoder's. `DecodeInto` refuses those of too
      many fields and no others. */
  ghost predicate ReadsAll(e: Enc, d: Dec, events: seq<Event>)
    requires AllSendable(events)
    decreases events
  {
    events == [] ||
    match events[0]
    case Limit(limit) => ReadsAll(PeerLimit(e, limit), d.(most := limit), events[1..])
    case Block(ops) =>
      var r := DecodeAll(d, BlockBytes(e, ops), []);
      && r.Fields? && r.fields == FieldsOf(ops) && AfterBlock(e, ops).table <= r.d.table
      && DecodeBlock(d, BlockBytes(e, ops), []) == (if |ops| <= MAX_HEADERS then r else Failed(TooManyHeaders))
      && ReadsAll(AfterBlock(e, ops), r.d, events[1..])
  }

  lemma {:induction false} RunReads(e: Enc, d: Dec, events: seq<Event>)
    requires InStep(e, d) && AllSendable(events)
    ensures ReadsAll(e, d, events)
    decreases events
  {
    hide DecodeBlock, DecodeAll, BlockBytes, AfterBlock, FieldsOf, AllProper, PeerLimit;
    if events != [] {
      match events[0]
      case Limit(limit) =>
        LimitKeeps(e, d, limit);
        RunReads(PeerLimit(e, limit), d.(most := limit), events[1..]);
      case Block(ops) =>
        BlockReads(e, d, ops);
        RunReads(AfterBlock(e, ops), DecodeAll(d, BlockBytes(e, ops), []).d, events[1..]);
    }
  }

  const FRESH_ENC := Enc([], ENC_MAX_SIZE, false)
  const FRESH_DEC := Dec([], ENC_MAX_SIZE, ENC_MAX_SIZE)

  /** Every connection, from its first block on. */
  lemma EveryConnectionReads(events: seq<Event>)
    requires AllSendable(events)
    ensures ReadsAll(FRESH_ENC, FRESH_DEC, events)
  {
    hide ReadsAll;
    NoSize();
    RunReads(FRESH_ENC, FRESH_DEC, events);
  }

  /** A prefix and no more: a limit that drops to zero and comes back between two
      blocks empties the encoder's table and leaves the decoder's as it was. */
  lemma TablesMayDiffer(f: Field)
    requires ShortField(f) && |f.value| <= INDEX_MAX_VALUE && Cost(f) <= ENC_MAX_SIZE
    ensures var e1 := AfterBlock(FRESH_ENC, [Keep(0, f)]);
            var r1 := DecodeBlock(FRESH_DEC, BlockBytes(FRESH_ENC, [Keep(0, f)]), []);
            var e2 := PeerLimit(PeerLimit(e1, 0), ENC_MAX_SIZE);
            && r1.Fields?
            && var r2 := DecodeBlock(r1.d.(most := ENC_MAX_SIZE), BlockBytes(e2, []), []);
               && r2.Fields? && AfterBlock(e2, []).table == [] && r2.d.table == [f]
  {
    hide DecodeBlock, DecodeAll, OneStep, IntBytes, Static, BlockBytes;
    var ops := [Keep(0, f)];
    NoSize();
    BlockReads(FRESH_ENC, FRESH_DEC, ops);
    var e1, r1 := AfterBlock(FRESH_ENC, ops), DecodeBlock(FRESH_DEC, BlockBytes(FRESH_ENC, ops), []);
    assert ops[1..] == [];
    assert Add([], ENC_MAX_SIZE, f) == [f] by { assert Evict([], ENC_MAX_SIZE - Cost(f)) == []; }
    assert e1 == AfterOps(AfterOp(FRESH_ENC, ops[0]), ops[1..]);
    var d := r1.d.(most := ENC_MAX_SIZE);
    SizeOne(f);
    var e2 := Enc([], ENC_MAX_SIZE, true);
    assert PeerLimit(e1, 0) == Enc([], 0, true);
    assert PeerLimit(Enc([], 0, true), ENC_MAX_SIZE) == e2 by { assert Evict([], ENC_MAX_SIZE) == []; }
    BlockReads(e2, d, []);
    UpdateAlone(d, e2);
  }

  lemma SizeOne(f: Field)
    ensures Size([f]) == Cost(f) && Evict([f], 0) == []
  {
    assert [f][..0] == [];
  }

  lemma UpdateAlone(d: Dec, e: Enc)
    requires e.pending && e.max <= ENC_MAX_SIZE && e.max <= d.most
    ensures var r := DecodeBlock(d, BlockBytes(e, []), []);
            r.Fields? && r.d.table == Evict(d.table, e.max)
  {
    hide OneStep, IntBytes, Evict;
    var s := UpdateBytes(e);
    UpdateReads(e, d, []);
    assert s + [] == s && BlockBytes(e, []) == s && s[|s|..] == [];
  }
}
