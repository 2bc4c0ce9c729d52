/** The remembered response head of core/h2_headmemo.go: a hit emits, byte for byte,
    what the plain writer would emit now, and leaves the table as it would. */
module HeadMemo {
  import opened ByteStrings
  import opened HpackTable
  import opened HpackCodec
  import opened HpackEncoder
  import opened ResponseHead

  const MAX_FIELDS := 16
  const MAX_KEY := 1024
  const MISS_BACKOFF := 64

  /** `h2DateField`: compared by identity, and its text never changes. */
  class DateField {
    const value: Bytes

    constructor (value: Bytes)
      ensures this.value == value
    {
      this.value := value;
    }
  }

  /** All names and values, one after the other, and their lengths. */
  function Flat(headers: seq<Field>): Bytes {
    if headers == [] then [] else headers[0].name + headers[0].value + Flat(headers[1..])
  }

  function Lens(headers: seq<Field>): (l: seq<nat>)
    ensures |l| == 2 * |headers|
  {
    if headers == [] then [] else [|headers[0].name|, |headers[0].value|] + Lens(headers[1..])
  }

  /** The text of two lists is that of one and then the other. */
  lemma {:induction false} FlatConcat(a: seq<Field>, b: seq<Field>)
    ensures Flat(a + b) == Flat(a) + Flat(b)
  {
    if a == [] {
      assert a + b == b;
      assert Flat(a) + Flat(b) == Flat(b);
    } else {
      assert (a + b)[1..] == a[1..] + b && (a + b)[0] == a[0];
      FlatConcat(a[1..], b);
      Regroup(a[0].name + a[0].value, Flat(a[1..]), Flat(b));
    }
  }

  lemma Regroup(x: Bytes, y: Bytes, z: Bytes)
    ensures x + (y + z) == (x + y) + z
  {
  }

  lemma FlatOne(f: Field)
    ensures Flat([f]) == f.name + f.value
  {
    assert [f][1..] == [];
    assert f.name + f.value + [] == f.name + f.value;
  }

  lemma {:induction false} LensAt(headers: seq<Field>, i: nat)
    requires i < |headers|
    ensures Lens(headers)[2 * i] == |headers[i].name| && Lens(headers)[2 * i + 1] == |headers[i].value|
  {
    if i > 0 {
      LensAt(headers[1..], i - 1);
      assert Lens(headers)[2 * i] == Lens(headers[1..])[2 * (i - 1)];
      assert Lens(headers)[2 * i + 1] == Lens(headers[1..])[2 * (i - 1) + 1];
    }
  }

  lemma FlatCut(headers: seq<Field>, i: nat)
    requires i < |headers|
    ensures Flat(headers) == Flat(headers[..i]) + (headers[i].name + headers[i].value + Flat(headers[i + 1..]))
    ensures Flat(headers[..i + 1]) == Flat(headers[..i]) + (headers[i].name + headers[i].value)
    ensures Lens(headers)[2 * i] == |headers[i].name| && Lens(headers)[2 * i + 1] == |headers[i].value|
  {
    hide Flat, Lens;
    LensAt(headers, i);
    FlatOne(headers[i]);
    FlatConcat(headers[..i], [headers[i]]);
    FlatConcat(headers[..i + 1], headers[i + 1..]);
    assert headers[..i + 1] == headers[..i] + [headers[i]] && headers == headers[..i + 1] + headers[i + 1..];
    Regroup(Flat(headers[..i]), headers[i].name + headers[i].value, Flat(headers[i + 1..]));
  }

  /** The lengths take the text apart again. */
  lemma {:induction false} FlatInjective(a: seq<Field>, b: seq<Field>)
    requires Lens(a) == Lens(b)
    ensures |Flat(a)| == |Flat(b)|
    ensures Flat(a) == Flat(b) ==> a == b
  {
    if a == [] {
      assert |Lens(a)| == 0;
    } else {
      assert |Lens(b)| > 0;
      assert Lens(a)[0] == Lens(b)[0] && Lens(a)[1] == Lens(b)[1];
      assert Lens(a)[2..] == Lens(a[1..]) && Lens(b)[2..] == Lens(b[1..]);
      FlatInjective(a[1..], b[1..]);
      if Flat(a) == Flat(b) {
        SameParts(a[0].name, a[0].value, Flat(a[1..]), b[0].name, b[0].value, Flat(b[1..]));
        assert a == [a[0]] + a[1..];
      }
    }
  }

  lemma SameParts(a: Bytes, b: Bytes, c: Bytes, x: Bytes, y: Bytes, z: Bytes)
    requires a + b + c == x + y + z && |a| == |x| && |b| == |y|
    ensures a == x && b == y && c == z
  {
    assert (a + b + c)[..|a|] == a && (x + y + z)[..|a|] == x;
    assert (a + b + c)[|a|..|a| + |b|] == b && (x + y + z)[|a|..|a| + |b|] == y;
    assert (a + b + c)[|a| + |b|..] == c && (x + y + z)[|a| + |b|..] == z;
  }

  /** The recorded key pins down the head, although the length of the server name
      is not recorded: it is what the others leave. */
  lemma KeyInjective(h: Head, g: Head)
    requires |h.contentType| == |g.contentType| && Lens(h.headers) == Lens(g.headers)
    requires h.contentType + h.server + Flat(h.headers) == g.contentType + g.server + Flat(g.headers)
    ensures h.contentType == g.contentType && h.server == g.server && h.headers == g.headers
  {
    FlatInjective(h.headers, g.headers);
    assert |h.contentType + h.server + Flat(h.headers)| == |h.contentType| + |h.server| + |Flat(h.headers)|;
    assert |g.contentType + g.server + Flat(g.headers)| == |g.contentType| + |g.server| + |Flat(g.headers)|;
    SameParts(h.contentType, h.server, Flat(h.headers), g.contentType, g.server, Flat(g.headers));
  }

  class Memo {
    var gen: nat
    var status: int
    var contentLength: int
    var date: DateField
    var ctLen: nat
    var key: Bytes
    var headerLens: seq<nat>
    var block: Bytes
    var probation: bool
    var skip: nat
    ghost var head: Head

    /** The fields hold what `head` is made of. */
    ghost predicate Remembers()
      reads this
    {
      && status == head.status && contentLength == head.contentLength && ctLen == |head.contentType|
      && key == head.contentType + head.server + Flat(head.headers) && headerLens == Lens(head.headers)
    }

    constructor (gen: nat, date: DateField, h: Head, block: Bytes)
      ensures Remembers() && head == h && this.gen == gen && this.date == date && this.block == block
    {
      this.gen, this.date, this.block := gen, date, block;
      status, contentLength, ctLen := h.status, h.contentLength, |h.contentType|;
      key := h.contentType + h.server + Flat(h.headers);
      headerLens := Lens(h.headers);
      probation, skip := true, 0;
      head := h;
    }

    /** `remember` */
    method Remember(gen: nat, date: DateField, h: Head, block: Bytes)
      modifies this
      ensures Remembers() && head == h && this.gen == gen && this.date == date && this.block == block
      ensures probation && skip == old(skip)
    {
      hide Lens, Flat;
      this.gen, this.date, this.block := gen, date, block;
      status, contentLength, ctLen := h.status, h.contentLength, |h.contentType|;
      key := h.contentType + h.server;
      headerLens := [];
      NoFields();
      for i := 0 to |h.headers|
        invariant key == h.contentType + h.server + Flat(h.headers[..i])
        invariant headerLens == Lens(h.headers[..i])
        invariant status == h.status && contentLength == h.contentLength && ctLen == |h.contentType|
        invariant this.gen == gen && this.date == date && this.block == block && skip == old(skip)
      {
        var f := h.headers[i];
        FlatCut(h.headers, i);
        LensSnoc(h.headers[..i], f);
        assert h.headers[..i] + [f] == h.headers[..i + 1];
        headerLens := headerLens + [|f.name|, |f.value|];
        key := key + f.name + f.value;
      }
      assert h.headers[..|h.headers|] == h.headers;
      probation := true;
      head := h;
    }

    /** `headersMatch`: the rest of the key is these headers. */
    method HeadersMatch(start: nat, headers: seq<Field>) returns (ok: bool)
      requires start <= |key| && |headerLens| == 2 * |headers|
      ensures ok <==> headerLens == Lens(headers) && key[start..] == Flat(headers)
    {
      hide Flat, Lens;
      var off := start;
      NoFields();
      for i := 0 to |headers|
        invariant start <= off <= |key| && key[start..off] == Flat(headers[..i])
        invariant headerLens[..2 * i] == Lens(headers)[..2 * i]
      {
        var f := headers[i];
        FlatCut(headers, i);
        var before, rest := key[start..off], Flat(headers[i + 1..]);
        var n := headerLens[2 * i];
        if n != |f.name| || off + n > |key| || key[off..off + n] != f.name {
          Differs(key, start, before, [], f.name, f.value + rest);
          assert Flat(headers) == before + [] + f.name + (f.value + rest);
          return false;
        }
        off := off + n;
        n := headerLens[2 * i + 1];
        if n != |f.value| || off + n > |key| || key[off..off + n] != f.value {
          Differs(key, start, before, f.name, f.value, rest);
          assert Flat(headers) == before + f.name + f.value + rest;
          return false;
        }
        off := off + n;
        assert key[start..off] == before + (f.name + f.value);
        assert headerLens[..2 * (i + 1)] == headerLens[..2 * i] + [headerLens[2 * i], headerLens[2 * i + 1]];
        assert Lens(headers)[..2 * (i + 1)]
            == Lens(headers)[..2 * i] + [Lens(headers)[2 * i], Lens(headers)[2 * i + 1]];
      }
      assert headers[..|headers|] == headers;
      assert headerLens[..2 * |headers|] == headerLens && Lens(headers)[..2 * |headers|] == Lens(headers);
      assert key[start..] == key[start..off] + key[off..];
      return off == |key|;
    }
  }

  // ----- The writer with a memo

  /** The part of a head a memo is kept for. */
  predicate Eligible(headers: seq<Field>) {
    |headers| == 0 || (|headers| <= MAX_FIELDS && |Flat(headers)| <= MAX_KEY && !HasDate(headers))
  }

  /** What a head is encoded as against a table with no update to announce. */
  function FreshBlock(e: Enc, h: Head, date: Bytes): Bytes {
    OpsBytes(e.(pending := false), HeadOps(h, date))
  }

  /** A head that leaves the table alone. */
  predicate Settled(e: Enc, h: Head, date: Bytes) {
    AfterOps(e.(pending := false), HeadOps(h, date)) == e.(pending := false)
  }

  /** A memo of the current generation holds the block a fresh encoding gives. */
  ghost predicate Current(m: Memo, t: EncTable)
    reads m, t
  {
    && m.Remembers() && m.gen <= t.gen
    && (m.gen == t.gen ==>
        m.block == FreshBlock(View(t), m.head, m.date.value) && Settled(View(t), m.head, m.date.value))
  }

  /** The encoding side of one connection. */
  class Writer {
    const table: EncTable
    const cache: FieldCache
    var memo: Memo?

    ghost predicate Valid()
      reads this, table, cache, memo
    {
      table.Valid() && cache.Valid() && (memo != null ==> Current(memo, table))
    }

    constructor ()
      ensures Valid() && fresh(table) && fresh(cache) && memo == null && View(table) == FRESH_ENC
    {
      table := new EncTable();
      cache := new FieldCache();
      memo := null;
    }

    /** `setPeerLimit`: a memo of an older generation is never used again. */
    method SetPeerLimit(limit: nat)
      requires Valid()
      modifies table
      ensures Valid() && View(table) == PeerLimit(old(View(table)), limit)
    {
      hide FreshBlock, Settled, Evict, Size;
      Kept(Newest(table.entries), table.maxSize);
      table.SetPeerLimit(limit);
    }

    /** `headMemoReady` */
    method Ready(headers: seq<Field>) returns (ready: bool)
      requires Valid()
      modifies memo
      ensures Valid() && View(table) == old(View(table)) && table.gen == old(table.gen)
    {
      hide FreshBlock, Settled, Flat, HasDate;
      if memo != null && memo.skip > 0 {
        memo.skip := memo.skip - 1;
        return false;
      }
      ready := Eligible(headers);
    }

    /** `matches` */
    method Matches(m: Memo, date: DateField, h: Head) returns (ok: bool)
      requires m.Remembers()
      ensures ok ==> m.gen == table.gen && m.date == date && m.head == h
      ensures !ok ==> m.gen != table.gen || m.date != date || m.head != h || m.block == []
    {
      hide Flat, Lens;
      if m.gen != table.gen || m.date != date || m.status != h.status || m.contentLength != h.contentLength
         || |m.headerLens| != 2 * |h.headers| || m.block == [] || m.ctLen != |h.contentType| {
        return false;
      }
      var n := m.ctLen + |h.server|;
      ghost var whole := h.contentType + h.server + Flat(h.headers);
      if |m.key| < n || m.key[..m.ctLen] != h.contentType || m.key[m.ctLen..n] != h.server {
        assert whole[..m.ctLen] == h.contentType && whole[m.ctLen..n] == h.server;
        return false;
      }
      if |h.headers| == 0 {
        NoFields();
        ok := |m.key| == n;
      } else {
        ok := m.HeadersMatch(n, h.headers);
      }
      assert m.key[..n] == h.contentType + h.server;
      assert m.key == m.key[..n] + m.key[n..];
      if ok {
        assert m.key == whole;
        KeyInjective(m.head, h);
      } else {
        assert whole[n..] == Flat(h.headers);
      }
    }

    /** `encodeH2ResponseHeadersRemembered` */
    method EncodeRemembered(buf: Bytes, h: Head, date: DateField, slots: nat -> nat) returns (out: Bytes)
      requires Valid() && ProperHead(h, date.value) && !table.pendingUpdate
      modifies this, table, cache, memo
      ensures Valid() && (memo == old(memo) || fresh(memo))
      ensures out == buf + BlockBytes(old(View(table)), HeadOps(h, date.value))
      ensures View(table) == AfterBlock(old(View(table)), HeadOps(h, date.value))
    {
      hide OpsBytes, AfterOps, HeadOps, Newest, Size;
      var gen := table.gen;
      out := EncodeDated(table, cache, buf, h, date.value, slots);
      KeepsLimit(old(View(table)).(pending := false), HeadOps(h, date.value));
      if table.gen != gen { return; }
      Unchanged(old(View(table)), View(table), h, date.value);
      assert out[|buf|..] == BlockBytes(old(View(table)), HeadOps(h, date.value));
      if memo == null {
        memo := new Memo(gen, date, h, out[|buf|..]);
      } else if memo.probation && memo.gen == gen && memo.date == date {
        memo.probation := false;
        memo.skip := MISS_BACKOFF;
      } else {
        memo.Remember(gen, date, h, out[|buf|..]);
      }
    }

    /** `encodeH2ResponseHeadersIndexed`: with or without the memo, the block and
        the table are those of the plain writer. */
    method EncodeIndexed(buf: Bytes, h: Head, date: DateField, slots: nat -> nat) returns (out: Bytes)
      requires Valid() && ProperHead(h, date.value)
      modifies this, table, cache, memo
      ensures Valid() && (memo == old(memo) || fresh(memo))
      ensures out == buf + BlockBytes(old(View(table)), HeadOps(h, date.value))
      ensures View(table) == AfterBlock(old(View(table)), HeadOps(h, date.value))
    {
      hide OpsBytes, AfterOps, HeadOps, Newest, Size, Flat;
      var ready := !table.pendingUpdate;
      if ready && memo != null {
        ready := Ready(h.headers);
      } else if ready {
        ready := Eligible(h.headers);
      }
      if !ready {
        out := EncodeDated(table, cache, buf, h, date.value, slots);
        KeepsLimit(old(View(table)).(pending := false), HeadOps(h, date.value));
        return;
      }
      if memo != null {
        var hit := Matches(memo, date, h);
        if hit {
          memo.probation := false;
          Hit(View(table), h, date.value);
          return buf + memo.block;
        }
      }
      out := EncodeRemembered(buf, h, date, slots);
    }
  }

  lemma Unchanged(e: Enc, now: Enc, h: Head, date: Bytes)
    requires !e.pending && now == AfterBlock(e, HeadOps(h, date)) && now.table == e.table && now.max == e.max
    ensures BlockBytes(e, HeadOps(h, date)) == FreshBlock(now, h, date) && Settled(now, h, date) && now == e
  {
    hide OpsBytes, AfterOps, HeadOps;
    KeepsLimit(e.(pending := false), HeadOps(h, date));
    Hit(e, h, date);
  }

  lemma {:induction false} KeepsLimit(e: Enc, ops: seq<Op>)
    ensures AfterOps(e, ops).max == e.max && AfterOps(e, ops).pending == e.pending
    decreases ops
  {
    if ops != [] { KeepsLimit(AfterOp(e, ops[0]), ops[1..]); }
  }

  lemma Hit(e: Enc, h: Head, date: Bytes)
    requires !e.pending
    ensures BlockBytes(e, HeadOps(h, date)) == FreshBlock(e, h, date) && e.(pending := false) == e
  {
    hide OpsBytes, HeadOps;
    assert UpdateBytes(e) == [];
  }

  lemma NoFields()
    ensures Flat([]) == [] && Lens([]) == []
  {
  }

  lemma {:induction false} LensSnoc(headers: seq<Field>, f: Field)
    ensures Lens(headers + [f]) == Lens(headers) + [|f.name|, |f.value|]
  {
    if headers == [] {
      assert [f][1..] == [] && headers + [f] == [f];
    } else {
      assert (headers + [f])[1..] == headers[1..] + [f];
      LensSnoc(headers[1..], f);
    }
  }

  /** A part that is not where it should be makes the whole different. */
  lemma Differs(key: Bytes, start: nat, a: Bytes, b: Bytes, part: Bytes, rest: Bytes)
    requires start + |a| + |b| <= |key|
    ensures var off := start + |a| + |b|;
            off + |part| > |key| || key[off..off + |part|] != part ==> key[start..] != a + b + part + rest
  {
    var off, whole := start + |a| + |b|, a + b + part + rest;
    if key[start..] == whole {
      assert |key[start..]| == |whole|;
      assert key[off..off + |part|] == key[start..][|a| + |b|..|a| + |b| + |part|];
      assert whole[|a| + |b|..|a| + |b| + |part|] == part;
    }
  }

  // ----- Whole connections

  /** What happens on the encoding side of a connection. */
  datatype Call = NewLimit(limit: nat) | Send(h: Head, date: DateField, slots: nat -> nat)

  predicate ProperCall(c: Call) {
    c.Send? ==> ProperHead(c.h, c.date.value)
  }

  /** The blocks a writer without a memo sends. */
  function PlainBlocks(e: Enc, calls: seq<Call>): seq<Bytes>
    decreases calls
  {
    if calls == [] then []
    else
      match calls[0]
      case NewLimit(limit) => PlainBlocks(PeerLimit(e, limit), calls[1..])
      case Send(h, date, _) =>
        [BlockBytes(e, HeadOps(h, date.value))] + PlainBlocks(AfterBlock(e, HeadOps(h, date.value)), calls[1..])
  }

  /** Over any run of limits and heads, the memo never shows. */
  method SendAll(w: Writer, calls: seq<Call>) returns (blocks: seq<Bytes>)
    requires w.Valid() && forall i :: 0 <= i < |calls| ==> ProperCall(calls[i])
    modifies w, w.table, w.cache, w.memo
    ensures w.Valid() && blocks == PlainBlocks(old(View(w.table)), calls)
  {
    hide BlockBytes, AfterBlock, HeadOps, PeerLimit;
    blocks := [];
    assert calls[0..] == calls;
    for i := 0 to |calls|
      invariant w.Valid() && (w.memo == old(w.memo) || fresh(w.memo))
      invariant blocks + PlainBlocks(View(w.table), calls[i..]) == PlainBlocks(old(View(w.table)), calls)
    {
      assert calls[i..][0] == calls[i] && calls[i..][1..] == calls[i + 1..];
      ghost var rest := PlainBlocks(View(w.table), calls[i..]);
      match calls[i] {
        case NewLimit(limit) => w.SetPeerLimit(limit);
        case Send(h, date, slots) =>
          assert ProperCall(calls[i]);
          ghost var whole := BlockBytes(View(w.table), HeadOps(h, date.value));
          assert [] + whole == whole;
          var block := w.EncodeIndexed([], h, date, slots);
          assert rest == [block] + PlainBlocks(View(w.table), calls[i + 1..]);
          assert blocks + ([block] + PlainBlocks(View(w.table), calls[i + 1..]))
              == (blocks + [block]) + PlainBlocks(View(w.table), calls[i + 1..]);
          blocks := blocks + [block];
      }
    }
    assert calls[|calls|..] == [];
  }
}
