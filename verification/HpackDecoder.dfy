/** `HpackDecoder` of core/hpack.go: the loop of `DecodeInto` over the ring table,
    with its cache of Huffman strings. It computes what `DecodeBlock` says. */
module HpackDecoder {
  import opened ByteStrings
  import opened HpackInt
  import Huffman
  import opened HpackTable
  import opened HpackStatic
  import opened HpackCodec
  import opened HpackBound

  const CACHE_SIZE := 16
  const CACHE_MAX_RAW := 256

  datatype Outcome = Refused(error: Error) | Headers(fields: seq<Field>)

  /** A cached string: the coded form and the text. */
  datatype Known = Known(raw: Bytes, text: Bytes)

  class Decoder {
    const table: DynTable
    const huff: Huffman.Tables
    const most: nat
    var refBytes: nat
    var cache: seq<Option<Known>>
    var cacheNext: nat
    /** Counts every change of the table; each of them also drops the memo. */
    var tableGen: nat
    var memoValid: bool

    ghost predicate Valid()
      reads this, table, table.inline, table.ring
    {
      && table.Valid() && Huffman.Good(huff) && |cache| == CACHE_SIZE
      && (forall i :: 0 <= i < CACHE_SIZE && cache[i].Some? ==>
          HuffmanOf(cache[i].value.raw) == Some(cache[i].value.text))
    }

    /** The state the block functions speak of. */
    ghost function View(): Dec
      reads this, table
    {
      Dec(table.contents, table.maxSize, most)
    }

    constructor (huff: Huffman.Tables, size: nat)
      requires Huffman.Good(huff)
      ensures Valid() && View() == Dec([], size, size) && fresh(table) && fresh(table.inline) && fresh(table.ring)
      ensures refBytes == 0 && table.nameMax == 0 && !memoValid
    {
      table := new DynTable(size);
      this.huff := huff;
      most := size;
      refBytes, cacheNext, tableGen, memoValid := 0, 0, 0, false;
      cache := seq(CACHE_SIZE, i => None);
    }

    /** Looks a coded string up, or decodes and remembers it. */
    method HuffmanText(raw: Bytes) returns (text: Option<Bytes>)
      requires Valid()
      modifies this`cache, this`cacheNext
      ensures Valid() && text == HuffmanOf(raw)
    {
      hide Huffman.Good, HuffmanOf, Huffman.Codes;
      for i := 0 to CACHE_SIZE {
        if cache[i].Some? && cache[i].value.raw == raw {
          return Some(cache[i].value.text);
        }
      }
      var ok, decoded := Huffman.Decode(huff, raw);
      if !ok {
        NoHuffman(raw);
        return None;
      }
      HuffmanIs(raw, decoded);
      if |raw| <= CACHE_MAX_RAW {
        cache := cache[cacheNext % CACHE_SIZE := Some(Known(raw, decoded))];
        cacheNext := (cacheNext + 1) % 256;
      }
      return Some(decoded);
    }

    /** `decodeString`; no bytes taken is failure. */
    method DecodeString(data: Bytes) returns (s: Bytes, n: nat)
      requires Valid()
      modifies this`cache, this`cacheNext
      ensures Valid()
      ensures ReadString(data) == if n == 0 then NoStr else Str(s, n)
    {
      hide IntRead, HuffmanOf, Huffman.Good;
      if data == [] { return [], 0; }
      var r := DecodeInt(data, 7);
      IntReads(data, 7);
      if r.Bad? || r.val > |data| || r.n + r.val > |data| { return [], 0; }
      var raw := data[r.n..r.n + r.val];
      if data[0] < 128 { return raw, r.n + r.val; }
      var text := HuffmanText(raw);
      if text.None? { return [], 0; }
      return text.value, r.n + r.val;
    }

    /** `lookupIndex` and `lookupName`, but for the byte count. */
    method LookupIndex(idx: nat) returns (r: Option<Field>)
      requires Valid()
      ensures r == Lookup(table.contents, idx)
    {
      hide Static, Huffman.Good, Slot, Size;
      if idx == 0 { return None; }
      if idx <= STATIC_COUNT { return Some(Static(idx)); }
      if idx - DYNAMIC_INDEX_MIN < table.len {
        var f := table.Get(idx - DYNAMIC_INDEX_MIN);
        return Some(f);
      }
      return None;
    }

    /** A literal field, from its first byte on; no bytes taken is failure. */
    method DecodeLiteral(data: Bytes, bits: nat) returns (f: Field, n: nat)
      requires Valid() && 4 <= bits <= 6 && data != []
      modifies this`cache, this`cacheNext
      ensures Valid()
      ensures ReadLiteral(table.contents, data, bits) == if n == 0 then NoLiteral else Lit(f, n)
    {
      hide IntRead, ReadString, Lookup, Huffman.Good, HuffmanOf, Slot, Size;
      f, n := Field([], []), 0;
      var r := DecodeInt(data, bits);
      IntReads(data, bits);
      if r.Bad? { return; }
      var name, k := [], 0;
      if r.val > 0 {
        var e := LookupIndex(r.val);
        if e.None? { return; }
        name := e.value.name;
      } else {
        name, k := DecodeString(data[r.n..]);
        if k == 0 { return; }
      }
      var value, m := DecodeString(data[r.n + k..]);
      if m == 0 { return; }
      return Field(name, value), r.n + k + m;
    }

    /** The body of the decoding loops, up to what they do with the field: a field
        to be kept is entered by the caller. */
    method Turn(data: Bytes, first: bool) returns (r: Turned)
      requires Valid() && data != []
      modifies this, table, table.inline, table.ring
      ensures Valid() && table.ring == old(table.ring) && table.nameMax == old(table.nameMax)
      ensures Follows(r, OneStep(old(View()), data, first))
      ensures r.Got? ==> View() == old(View()) && r.keep == AddsEntry(data)
      ensures r.Resized? ==> View() == OneStep(old(View()), data, first).d
      ensures refBytes == old(refBytes) + RefCost(old(View()), data)
      ensures Marked(tableGen, memoValid, View(), old(tableGen), old(memoValid), old(View()))
    {
      hide IntRead, ReadLiteral, Lookup, Evict, Huffman.Good, HuffmanOf, Slot, Size, Static;
      IntReads(data, 7);
      IntReads(data, 5);
      if data[0] >= 128 {
        r := TurnIndexed(data);
      } else if data[0] >= 64 {
        var f, n := DecodeLiteral(data, 6);
        if n == 0 { return Stopped(BadHeader); }
        r := Got(f, n, true);
      } else if data[0] >= 32 {
        if !first { return Stopped(SizeUpdateAfterField); }
        var v := DecodeInt(data, 5);
        if v.Bad? { return Stopped(BadHeader); }
        if v.val > most { return Stopped(TableSizeExceeded); }
        tableGen, memoValid := tableGen + 1, false;
        table.SetMaxSize(v.val);
        r := Resized(v.n);
      } else {
        var f, n := DecodeLiteral(data, 4);
        if n == 0 { return Stopped(BadHeader); }
        r := Got(f, n, false);
      }
    }

    method AddEntry(f: Field)
      requires Valid()
      modifies this`tableGen, this`memoValid, table, table.inline, table.ring
      ensures Valid() && View() == old(View()).(table := Add(old(table.contents), table.maxSize, f))
      ensures (table.ring == old(table.ring) || fresh(table.ring)) && tableGen == old(tableGen) + 1
      ensures table.nameMax == Max(old(table.nameMax), |f.name|) && !memoValid
    {
      hide HuffmanOf, Huffman.Good;
      tableGen, memoValid := tableGen + 1, false;
      table.AddEntry(f);
    }

    /** An indexed field; one from the dynamic table is charged for. */
    method TurnIndexed(data: Bytes) returns (r: Turned)
      requires Valid() && data != [] && data[0] >= 128
      modifies this`refBytes
      ensures Valid() && refBytes == old(refBytes) + RefCost(View(), data)
      ensures Follows(r, OneStep(View(), data, true)) && OneStep(View(), data, true) == OneStep(View(), data, false)
      ensures !r.Resized? && (r.Got? ==> !r.keep)
    {
      hide IntRead, Lookup, Huffman.Good, HuffmanOf, Slot, Size, Static;
      var v := DecodeInt(data, 7);
      IntReads(data, 7);
      if v.Bad? { return Stopped(BadHeader); }
      var f := LookupIndex(v.val);
      if f.None? { return Stopped(BadHeader); }
      if v.val >= DYNAMIC_INDEX_MIN { refBytes := refBytes + Cost(f.value); }
      return Got(f.value, v.n, false);
    }

    /** `DecodeInto` */
    method DecodeInto(data: Bytes) returns (r: Outcome)
      requires Valid()
      modifies this, table, table.inline, table.ring
      ensures Valid() && (table.ring == old(table.ring) || fresh(table.ring))
      ensures var all := DecodeBlock(old(View()), data, []);
              if all.Failed? then r == Refused(all.error) else r == Headers(all.fields) && View() == all.d
      ensures refBytes == old(refBytes) + Refs(old(View()), data, [])
      ensures table.nameMax == NameMax(old(View()), data, [], old(table.nameMax))
      ensures Marked(tableGen, memoValid, View(), old(tableGen), old(memoValid), old(View()))
    {
      hide OneStep, RefCost, DecodeBlock, Refs, NameMax, Huffman.Good, HuffmanOf, Slot, Size, Evict, Add;
      var headers: seq<Field> := [];
      var pos := 0;
      ghost var d := View();
      assert data[0..] == data;
      while pos < |data|
        invariant Valid() && 0 <= pos <= |data| && (table.ring == old(table.ring) || fresh(table.ring))
        invariant DecodeBlock(View(), data[pos..], headers) == DecodeBlock(d, data, [])
        invariant refBytes + Refs(View(), data[pos..], headers) == old(refBytes) + Refs(d, data, [])
        invariant NameMax(View(), data[pos..], headers, table.nameMax) == NameMax(d, data, [], old(table.nameMax))
        invariant Marked(tableGen, memoValid, View(), old(tableGen), old(memoValid), d)
      {
        ghost var rest := data[pos..];
        RunStep(View(), rest, headers, table.nameMax);
        var turn := Turn(data[pos..], headers == []);
        if turn.Stopped? { return Refused(turn.error); }
        assert rest[turn.n..] == data[pos + turn.n..];
        pos := pos + turn.n;
        if turn.Got? {
          EmitState(View(), rest, headers == []);
          headers := headers + [turn.f];
          if |headers| > MAX_HEADERS { return Refused(TooManyHeaders); }
          if turn.keep { AddEntry(turn.f); }
        }
      }
      assert data[pos..] == [];
      RunEnd(View(), headers, table.nameMax);
      return Headers(headers);
    }
  }

  /** One turn of a decoding loop. */
  datatype Turned = Stopped(error: Error) | Got(f: Field, n: nat, keep: bool) | Resized(n: nat)

  /** What a turn found is what `OneStep` says, with its counts. */
  ghost predicate Follows(r: Turned, s: Step) {
    match s
    case Wrong(error) => r == Stopped(error)
    case Emit(f, n, _) => r.Got? && r.f == f && r.n == n
    case Resize(n, _) => r == Resized(n)
  }

  /** The generation tells whether the table can have changed, and a change drops
      the memo. */
  predicate Marked(gen: nat, memo: bool, now: Dec, oldGen: nat, oldMemo: bool, was: Dec) {
    && gen >= oldGen
    && (if gen == oldGen then now == was && memo == oldMemo else !memo)
  }

  /** A field read changes the table only if it is kept. */
  lemma EmitState(d: Dec, data: Bytes, first: bool)
    requires data != [] && OneStep(d, data, first).Emit?
    ensures var s := OneStep(d, data, first);
            s.d == if AddsEntry(data) then d.(table := Add(d.table, d.max, s.f)) else d
  {
    hide IntRead, ReadLiteral, Lookup, Evict;
  }

  /** A block, one step on. */
  lemma RunStep(d: Dec, data: Bytes, fields: seq<Field>, longest: nat)
    requires data != []
    ensures var s := OneStep(d, data, fields == []);
            var all, refs := DecodeBlock(d, data, fields), Refs(d, data, fields);
            var names := NameMax(d, data, fields, longest);
            match s
            case Wrong(error) => all == Failed(error) && refs == RefCost(d, data) && names == longest
            case Resize(n, d') =>
              && all == DecodeBlock(d', data[n..], fields) && refs == Refs(d', data[n..], fields)
                && RefCost(d, data) == 0
              && names == NameMax(d', data[n..], fields, longest)
            case Emit(f, n, d') =>
              var next := fields + [f];
              var more := if AddsEntry(data) then Max(longest, |f.name|) else longest;
              if |fields| + 1 > MAX_HEADERS
              then all == Failed(TooManyHeaders) && refs == RefCost(d, data) && names == longest
              else all == DecodeBlock(d', data[n..], next) && refs == RefCost(d, data) + Refs(d', data[n..], next)
                   && names == NameMax(d', data[n..], next, more)
  {
    hide IntRead, ReadLiteral, Lookup, Evict;
  }

  lemma RunEnd(d: Dec, fields: seq<Field>, longest: nat)
    ensures DecodeBlock(d, [], fields) == Fields(fields, d) && Refs(d, [], fields) == 0
            && NameMax(d, [], fields, longest) == longest
  {
  }

  lemma NoHuffman(raw: Bytes)
    requires forall s :: !Huffman.Codes(raw, s)
    ensures HuffmanOf(raw) == None
  {
    hide Huffman.Codes;
  }

  /** An integer that was read took some bytes, and no more than there are. */
  lemma IntReads(data: Bytes, bits: nat)
    requires 1 <= bits <= 8
    ensures IntRead(data, bits, 10, WIDE).Value? ==> 0 < IntRead(data, bits, 10, WIDE).n <= |data|
  {
  }
}
