/** Response heads: the block core/h2_headers.go writes, and the remembered block
    of core/h2_headmemo.go that stands in for it. */
module ResponseHead {
  import opened ByteStrings
  import opened HpackInt
  import opened HpackTable
  import opened HpackStatic
  import opened HpackCodec
  import opened HpackEncoder

  /** What a response head is made of. A negative length is no length. */
  datatype Head = Head(status: int, contentType: Bytes, contentLength: int, headers: seq<Field>, server: Bytes)

  predicate ProperHead(h: Head, date: Bytes) {
    && h.status < WIDE && Short(h.contentType) && Short(h.server) && Short(date) && h.contentLength < WIDE
    && forall i :: 0 <= i < |h.headers| ==> ShortField(h.headers[i])
  }

  predicate Is(name: Bytes, lower: string) {
    LowerAll(name) == Ascii(lower)
  }

  /** `headersHaveFold(headers, "date")` */
  predicate HasDate(headers: seq<Field>) {
    exists i :: 0 <= i < |headers| && Is(headers[i].name, "date")
  }

  /** Fields of the connection, which HTTP/2 does not carry. */
  predicate ConnectionSpecific(name: Bytes) {
    || Is(name, "te") || Is(name, "upgrade") || Is(name, "connection") || Is(name, "keep-alive")
    || Is(name, "proxy-connection") || Is(name, "transfer-encoding")
  }

  predicate Skipped(name: Bytes) {
    name == [] || name[0] == 58 || ConnectionSpecific(name)
  }

  /** `h2IndexableResponseField` */
  predicate Indexable(name: Bytes) {
    || Is(name, "vary") || Is(name, "alt-svc") || Is(name, "cache-control") || Is(name, "x-frame-options")
    || Is(name, "content-encoding") || Is(name, "x-content-type-options") || Is(name, "strict-transport-security")
    || Is(name, "access-control-allow-origin") || Is(name, "access-control-expose-headers")
    || Is(name, "access-control-allow-credentials")
  }

  /** What has been written already. */
  datatype Wrote = Wrote(contentType: bool, contentLength: bool, server: bool)

  /** What one header adds. */
  function HeaderOp(f: Field, w: Wrote): Option<Op> {
    if Skipped(f.name) then None
    else if Is(f.name, "content-type") then
      if w.contentType then None else Some(Keep(31, Field(Ascii("content-type"), f.value)))
    else if Is(f.name, "content-length") then
      if w.contentLength then None else Some(Plain(f.name, f.value))
    else if Is(f.name, "server") then
      if w.server then None else Some(Keep(54, Field(Ascii("server"), f.value)))
    else if Indexable(f.name) then Some(Keep(StaticNameFold(LowerAll(f.name)), Field(LowerAll(f.name), f.value)))
    else Some(Plain(f.name, f.value))
  }

  function AfterHeader(f: Field, w: Wrote): Wrote {
    if Skipped(f.name) then w
    else Wrote(w.contentType || Is(f.name, "content-type"), w.contentLength || Is(f.name, "content-length"),
               w.server || Is(f.name, "server"))
  }

  function HeaderOps(headers: seq<Field>, w: Wrote): seq<Op>
    decreases headers
  {
    if headers == [] then []
    else
      var rest := HeaderOps(headers[1..], AfterHeader(headers[0], w));
      match HeaderOp(headers[0], w)
      case None => rest
      case Some(op) => [op] + rest
  }

  function AfterHeaders(headers: seq<Field>, w: Wrote): Wrote
    decreases headers
  {
    if headers == [] then w else AfterHeaders(headers[1..], AfterHeader(headers[0], w))
  }

  /** The fields a head begins with. */
  function FixedOps(h: Head, date: Bytes): seq<Op> {
    [Status(h.status)]
    + (if HasDate(h.headers) then [] else [Keep(33, Field(Ascii("date"), date))])
    + (if h.contentType == [] then [] else [Keep(31, Field(Ascii("content-type"), h.contentType))])
    + (if h.contentLength < 0 then [] else [Literal(28, Decimal(h.contentLength))])
  }

  /** The operations of a head, in order. */
  function HeadOps(h: Head, date: Bytes): seq<Op> {
    var w := Wrote(h.contentType != [], h.contentLength >= 0, false);
    FixedOps(h, date) + HeaderOps(h.headers, w)
    + (if AfterHeaders(h.headers, w).server then [] else [Keep(54, Field(Ascii("server"), h.server))])
  }

  // ----- Every operation of a head is a proper one

  lemma StaticNames()
    ensures Static(33).name == Ascii("date") && Static(31).name == Ascii("content-type")
            && Static(54).name == Ascii("server")
  {
  }

  lemma LowerTwice(name: Bytes)
    ensures LowerAll(LowerAll(name)) == LowerAll(name)
  {
  }

  lemma HeaderOpProper(f: Field, w: Wrote)
    requires ShortField(f)
    ensures HeaderOp(f, w).Some? ==> Proper(HeaderOp(f, w).value)
  {
    StaticNames();
    hide Static;
    LowerTwice(f.name);
  }

  lemma {:induction false} HeaderOpsProper(headers: seq<Field>, w: Wrote)
    requires forall i :: 0 <= i < |headers| ==> ShortField(headers[i])
    ensures AllProper(HeaderOps(headers, w))
    decreases headers
  {
    hide HeaderOp, Proper, Static, AfterHeader;
    if headers != [] {
      HeaderOpProper(headers[0], w);
      HeaderOpsProper(headers[1..], AfterHeader(headers[0], w));
    }
  }

  lemma HeadProper(h: Head, date: Bytes)
    requires ProperHead(h, date)
    ensures AllProper(HeadOps(h, date))
  {
    StaticNames();
    hide Static, HeaderOps, AfterHeaders, Decimal, HasDate;
    HeaderOpsProper(h.headers, Wrote(h.contentType != [], h.contentLength >= 0, false));
    if h.contentLength >= 0 { LengthShort(h.contentLength); }
  }

  /** A head, encoded in step with the peer's decoder, is read as its fields;
      `DecodeInto` refuses it if and only if they are too many. */
  lemma HeadReads(e: Enc, d: Dec, h: Head, date: Bytes)
    requires InStep(e, d) && ProperHead(h, date)
    ensures AllProper(HeadOps(h, date))
    ensures var r := DecodeAll(d, BlockBytes(e, HeadOps(h, date)), []);
            && r.Fields? && r.fields == FieldsOf(HeadOps(h, date)) && InStep(AfterBlock(e, HeadOps(h, date)), r.d)
            && DecodeBlock(d, BlockBytes(e, HeadOps(h, date)), [])
               == if |HeadOps(h, date)| <= MAX_HEADERS then r else Failed(TooManyHeaders)
  {
    hide DecodeBlock, DecodeAll, BlockBytes, AfterBlock, HeadOps, InStep, FieldsOf;
    HeadProper(h, date);
    BlockReads(e, d, HeadOps(h, date));
  }

  // ----- The plain writer

  lemma {:induction false} OpsSnoc(e: Enc, ops: seq<Op>, op: Op)
    ensures OpsBytes(e, ops + [op]) == OpsBytes(e, ops) + OpBytes(AfterOps(e, ops), op)
    ensures AfterOps(e, ops + [op]) == AfterOp(AfterOps(e, ops), op)
    decreases ops
  {
    hide OpBytes, AfterOp;
    if ops == [] {
      assert [op][1..] == [] && ops + [op] == [op];
    } else {
      assert (ops + [op])[1..] == ops[1..] + [op];
      OpsSnoc(AfterOp(e, ops[0]), ops[1..], op);
    }
  }

  /** A block under way: `ops` have been written to `out`, from table `e` on. */
  ghost predicate Written(t: EncTable, out: Bytes, buf: Bytes, e: Enc, ops: seq<Op>)
    reads t
  {
    t.Valid() && out == buf + OpsBytes(e, ops) && View(t) == AfterOps(e, ops)
  }

  /** Writes one more operation. */
  method Emit(t: EncTable, cache: FieldCache, out: Bytes, op: Op, slot: nat, ghost buf: Bytes, ghost e: Enc,
              ghost ops: seq<Op>)
    returns (more: Bytes)
    requires cache.Valid() && Proper(op) && Written(t, out, buf, e, ops)
    modifies t`entries, t`size, t`gen, cache
    ensures cache.Valid() && Written(t, more, buf, e, ops + [op])
    ensures t.gen >= old(t.gen) && (t.gen == old(t.gen) ==> t.entries == old(t.entries))
  {
    hide OpsBytes, AfterOps, IntBytes, StringBytes, Static, LiteralBytes, StatusBytes, PlainBytes, PositionOf, Size,
         Newest;
    OpsSnoc(e, ops, op);
    match op {
      case Status(code) => more := EncodeStatus(out, code);
      case Keep(idx, f) => more := EncodeField(t, cache, out, idx, f, slot);
      case Literal(idx, value) =>
        Prefixes();
        more := EncodeInt(out, 0x00, 4, idx);
        more := EncodeString(more, value);
        LiteralIs(idx, value);
      case Plain(name, value) => more := EncodeHeaderFold(cache, out, name, value, slot);
    }
    assert out + OpBytes(AfterOps(e, ops), op) == buf + (OpsBytes(e, ops) + OpBytes(AfterOps(e, ops), op));
  }

  lemma LiteralIs(idx: nat, value: Bytes)
    requires idx > 0
    ensures Prefix(0x00, 4) && LiteralBytes(0x00, 4, idx, [], value) == IntBytes(0x00, 4, idx) + StringBytes(value)
  {
    Prefixes();
  }

  /** The header loop of `encodeH2ResponseHeadersDated`. */
  method EncodeHeaders(t: EncTable, cache: FieldCache, out: Bytes, headers: seq<Field>, w: Wrote, slots: nat -> nat,
                       ghost buf: Bytes, ghost e: Enc, ghost ops: seq<Op>)
    returns (more: Bytes, now: Wrote)
    requires cache.Valid() && Written(t, out, buf, e, ops)
    requires forall i :: 0 <= i < |headers| ==> ShortField(headers[i])
    modifies t`entries, t`size, t`gen, cache
    ensures cache.Valid() && Written(t, more, buf, e, ops + HeaderOps(headers, w)) && now == AfterHeaders(headers, w)
    ensures t.gen >= old(t.gen) && (t.gen == old(t.gen) ==> t.entries == old(t.entries))
  {
    hide Written, HeaderOp, AfterHeader, Proper;
    more, now := out, w;
    ghost var done := ops;
    assert headers[0..] == headers;
    for i := 0 to |headers|
      invariant cache.Valid() && Written(t, more, buf, e, done)
      invariant done + HeaderOps(headers[i..], now) == ops + HeaderOps(headers, w)
      invariant AfterHeaders(headers[i..], now) == AfterHeaders(headers, w)
      invariant t.gen >= old(t.gen) && (t.gen == old(t.gen) ==> t.entries == old(t.entries))
    {
      var f := headers[i];
      assert headers[i..][0] == f && headers[i..][1..] == headers[i + 1..];
      var op := HeaderOp(f, now);
      if op.Some? {
        HeaderOpProper(f, now);
        more := Emit(t, cache, more, op.value, slots(i), buf, e, done);
        assert done + ([op.value] + HeaderOps(headers[i + 1..], AfterHeader(f, now)))
            == (done + [op.value]) + HeaderOps(headers[i + 1..], AfterHeader(f, now));
        done := done + [op.value];
      }
      now := AfterHeader(f, now);
    }
    assert done == ops + HeaderOps(headers, w);
  }

  /** `encodeH2ResponseHeadersDated`, which begins a block and writes a head. */
  method EncodeDated(t: EncTable, cache: FieldCache, buf: Bytes, h: Head, date: Bytes, slots: nat -> nat)
    returns (out: Bytes)
    requires t.Valid() && cache.Valid() && ProperHead(h, date)
    modifies t, cache
    ensures t.Valid() && cache.Valid()
    ensures out == buf + BlockBytes(old(View(t)), HeadOps(h, date))
            && View(t) == AfterBlock(old(View(t)), HeadOps(h, date))
    ensures t.gen >= old(t.gen) && (t.gen == old(t.gen) ==> t.entries == old(t.entries))
  {
    hide Static, Written, HeaderOps, AfterHeaders, FixedOps, OpsBytes, AfterOps, UpdateBytes;
    ghost var e := View(t).(pending := false);
    var head := BeginBlock(t, buf);
    Begun(t, head, e);
    out := EncodeFixed(t, cache, head, h, date, head, e);
    var w := Wrote(h.contentType != [], h.contentLength >= 0, false);
    var now;
    out, now := EncodeHeaders(t, cache, out, h.headers, w, slots, head, e, FixedOps(h, date));
    ghost var ops := FixedOps(h, date) + HeaderOps(h.headers, w);
    if !now.server {
      StaticNames();
      out := Emit(t, cache, out, Keep(54, Field(Ascii("server"), h.server)), 4, head, e, ops);
    } else {
      assert ops + [] == ops;
    }
    Ended(t, out, head, e, HeadOps(h, date));
    assert buf + UpdateBytes(old(View(t))) + OpsBytes(e, HeadOps(h, date))
        == buf + (UpdateBytes(old(View(t))) + OpsBytes(e, HeadOps(h, date)));
  }

  /** The fields before the header loop. */
  method EncodeFixed(t: EncTable, cache: FieldCache, out: Bytes, h: Head, date: Bytes, ghost buf: Bytes, ghost e: Enc)
    returns (more: Bytes)
    requires cache.Valid() && ProperHead(h, date) && Written(t, out, buf, e, [])
    modifies t`entries, t`size, t`gen, cache
    ensures cache.Valid() && Written(t, more, buf, e, FixedOps(h, date))
    ensures t.gen >= old(t.gen) && (t.gen == old(t.gen) ==> t.entries == old(t.entries))
  {
    StaticNames();
    hide Static, Written, Decimal, HasDate;
    ghost var ops: seq<Op> := [];
    more := Emit(t, cache, out, Status(h.status), 0, buf, e, ops);
    ops := ops + [Status(h.status)];
    if !HasDate(h.headers) {
      more := Emit(t, cache, more, Keep(33, Field(Ascii("date"), date)), 1, buf, e, ops);
      ops := ops + [Keep(33, Field(Ascii("date"), date))];
    }
    if h.contentType != [] {
      more := Emit(t, cache, more, Keep(31, Field(Ascii("content-type"), h.contentType)), 2, buf, e, ops);
      ops := ops + [Keep(31, Field(Ascii("content-type"), h.contentType))];
    }
    if h.contentLength >= 0 {
      LengthShort(h.contentLength);
      more := Emit(t, cache, more, Literal(28, Decimal(h.contentLength)), 3, buf, e, ops);
      ops := ops + [Literal(28, Decimal(h.contentLength))];
    }
    assert ops == FixedOps(h, date);
  }

  lemma Begun(t: EncTable, buf: Bytes, e: Enc)
    requires t.Valid() && View(t) == e
    ensures Written(t, buf, buf, e, [])
  {
    assert buf + [] == buf;
  }

  lemma Ended(t: EncTable, out: Bytes, buf: Bytes, e: Enc, ops: seq<Op>)
    requires Written(t, out, buf, e, ops)
    ensures t.Valid() && out == buf + OpsBytes(e, ops) && View(t) == AfterOps(e, ops)
  {
  }
}
