/** The cheap bound on the size of a decoded header list (core/hpack.go). It is
    never below the true size, so testing it first changes nothing. */
module HpackBound {
  import opened ByteStrings
  import opened HpackInt
  import Huffman
  import opened HpackTable
  import opened HpackStatic
  import opened HpackCodec

  /** `h2FieldListSize` */
  function ListSize(fields: seq<Field>): nat {
    if fields == [] then 0 else ListSize(fields[..|fields| - 1]) + Cost(fields[|fields| - 1])
  }

  function Max(a: nat, b: nat): nat {
    if a < b then b else a
  }

  /** `hpackStaticFieldMaxSize`: the largest entry of the static table. */
  function LargestStatic(n: nat): nat
    requires n <= STATIC_COUNT
  {
    var cost := Cost(Static(n));
    if n == 0 then cost else Max(LargestStatic(n - 1), cost)
  }

  const STATIC_MAX := LargestStatic(STATIC_COUNT)

  lemma {:induction false} StaticBelow(i: nat, n: nat)
    requires i <= n <= STATIC_COUNT
    ensures Cost(Static(i)) <= LargestStatic(n)
    decreases n
  {
    hide Static;
    if i < n { StaticBelow(i, n - 1); }
  }

  /** What an indexed field from the dynamic table adds to `dynRefBytes`. */
  ghost function RefCost(d: Dec, data: Bytes): nat {
    if data == [] || data[0] < 128 then 0
    else
      match IntRead(data, 7, 10, WIDE)
      case Bad => 0
      case Value(idx, _) =>
        if idx >= DYNAMIC_INDEX_MIN && Lookup(d.table, idx).Some? then Cost(Lookup(d.table, idx).value) else 0
  }

  /** `dynRefBytes` over a block. */
  ghost function Refs(d: Dec, data: Bytes, fields: seq<Field>): nat
    decreases |data|
  {
    if data == [] then 0
    else
      var s := OneStep(d, data, fields == []);
      if s.Wrong? then RefCost(d, data)
      else if s.Resize? then Refs(s.d, data[s.n..], fields)
      else RefCost(d, data) + if |fields| + 1 > MAX_HEADERS then 0 else Refs(s.d, data[s.n..], fields + [s.f])
  }

  /** `dynNameMax` over a block: the longest name added so far. */
  ghost function NameMax(d: Dec, data: Bytes, fields: seq<Field>, longest: nat): nat
    decreases |data|
  {
    if data == [] then longest
    else
      var s := OneStep(d, data, fields == []);
      if s.Wrong? then longest
      else if s.Resize? then NameMax(s.d, data[s.n..], fields, longest)
      else if |fields| + 1 > MAX_HEADERS then longest
      else NameMax(s.d, data[s.n..], fields + [s.f], if AddsEntry(data) then Max(longest, |s.f.name|) else longest)
  }

  predicate AddsEntry(data: Bytes) {
    data != [] && 64 <= data[0] < 128
  }

  predicate NamesWithin(table: seq<Field>, longest: nat) {
    forall i :: 0 <= i < |table| ==> |table[i].name| <= longest
  }

  // ----- One field

  lemma StringGrowth(data: Bytes)
    requires ReadString(data).Str?
    ensures 5 * |ReadString(data).s| <= 8 * ReadString(data).n
  {
    hide IntRead, Huffman.Codes;
    var i := IntRead(data, 7, 10, WIDE);
    var raw := data[i.n..i.n + i.val];
    if data[0] >= 128 { Huffman.Expansion(raw, HuffmanOf(raw).value); }
  }

  /** The name of a literal is in a table, or is one of its strings. */
  lemma NameGrowth(table: seq<Field>, data: Bytes, bits: nat, longest: nat)
    requires 1 <= bits <= 8 && NamesWithin(table, longest) && ReadName(table, data, bits).Str?
    ensures var r := ReadName(table, data, bits);
            5 * |r.s| <= 5 * (STATIC_MAX - OVERHEAD + longest) + 8 * r.n
  {
    hide IntRead, ReadString, Static, LargestStatic;
    var i := IntRead(data, bits, 10, WIDE);
    if i.val == 0 {
      StringGrowth(data[i.n..]);
      AtLeastOverhead();
    } else if i.val <= STATIC_COUNT {
      StaticBelow(i.val, STATIC_COUNT);
    } else {
      AtLeastOverhead();
    }
  }

  lemma AtLeastOverhead()
    ensures STATIC_MAX >= OVERHEAD
  {
    hide Static, LargestStatic;
    StaticBelow(0, STATIC_COUNT);
  }

  lemma LiteralGrowth(table: seq<Field>, data: Bytes, bits: nat, longest: nat)
    requires 1 <= bits <= 8 && NamesWithin(table, longest) && ReadLiteral(table, data, bits).Lit?
    ensures var r := ReadLiteral(table, data, bits);
            5 * Cost(r.f) <= 5 * (STATIC_MAX + longest) + 8 * r.n
  {
    hide ReadName, ReadString, LargestStatic, Static;
    NameGrowth(table, data, bits, longest);
    StringGrowth(data[ReadName(table, data, bits).n..]);
  }

  /** One field costs no more than the largest static entry, the longest dynamic
      name, the entry it refers to and eight fifths of its bytes together. */
  lemma FieldGrowth(d: Dec, data: Bytes, first: bool, longest: nat)
    requires data != [] && NamesWithin(d.table, longest) && OneStep(d, data, first).Emit?
    ensures var s := OneStep(d, data, first);
            5 * Cost(s.f) <= 5 * (STATIC_MAX + longest + RefCost(d, data)) + 8 * s.n
  {
    hide IntRead, ReadLiteral, LargestStatic, Static;
    if data[0] >= 128 {
      var idx := IntRead(data, 7, 10, WIDE).val;
      if idx <= STATIC_COUNT { StaticBelow(idx, STATIC_COUNT); }
    } else if data[0] >= 64 {
      LiteralGrowth(d.table, data, 6, longest);
    } else {
      LiteralGrowth(d.table, data, 4, longest);
    }
  }

  // ----- A block

  lemma StepNames(d: Dec, data: Bytes, first: bool, longest: nat)
    requires data != [] && NamesWithin(d.table, longest) && !OneStep(d, data, first).Wrong?
    ensures var s := OneStep(d, data, first);
            NamesWithin(s.d.table, if s.Emit? && AddsEntry(data) then Max(longest, |s.f.name|) else longest)
  {
    hide IntRead, ReadLiteral, Lookup, Evict;
  }

  lemma {:induction false} NameMaxGrows(d: Dec, data: Bytes, fields: seq<Field>, longest: nat)
    ensures NameMax(d, data, fields, longest) >= longest
    decreases |data|
  {
    hide OneStep;
    if data != [] {
      var s := OneStep(d, data, fields == []);
      if s.Resize? {
        NameMaxGrows(s.d, data[s.n..], fields, longest);
      } else if s.Emit? && |fields| + 1 <= MAX_HEADERS {
        NameMaxGrows(s.d, data[s.n..], fields + [s.f], if AddsEntry(data) then Max(longest, |s.f.name|) else longest);
      }
    }
  }

  /** What a block still to be read can add to a list. */
  lemma {:induction false} BlockGrowth(d: Dec, data: Bytes, fields: seq<Field>, longest: nat)
    requires NamesWithin(d.table, longest) && DecodeBlock(d, data, fields).Fields?
    ensures var all := DecodeBlock(d, data, fields).fields;
            var names := NameMax(d, data, fields, longest);
            && |all| >= |fields|
            && 5 * ListSize(all) <= 5 * (ListSize(fields) + Refs(d, data, fields))
                                    + 5 * ((|all| - |fields|) * (STATIC_MAX + names)) + 8 * |data|
    decreases |data|
  {
    hide OneStep, RefCost, LargestStatic, NamesWithin;
    if data != [] {
      var s := OneStep(d, data, fields == []);
      var more := if s.Emit? && AddsEntry(data) then Max(longest, |s.f.name|) else longest;
      StepNames(d, data, fields == [], longest);
      if s.Resize? {
        BlockGrowth(s.d, data[s.n..], fields, longest);
      } else {
        var next := fields + [s.f];
        BlockGrowth(s.d, data[s.n..], next, more);
        NameMaxGrows(s.d, data[s.n..], next, more);
        FieldGrowth(d, data, fields == [], longest);
        assert next[..|fields|] == fields;
        var all, names := DecodeBlock(d, data, fields).fields, NameMax(d, data, fields, longest);
        OneMoreTimes(|all| - |fields|, STATIC_MAX + names);
      }
    }
  }

  lemma OneMoreTimes(k: nat, x: nat)
    requires k > 0
    ensures k * x == (k - 1) * x + x
  {
  }

  /** `fieldListTooLarge` */
  predicate TooLarge(blockLen: nat, fields: seq<Field>, longest: nat, refs: nat, limit: nat) {
    var bound := blockLen * 8 / 5 + |fields| * (STATIC_MAX + longest) + refs;
    bound > limit && ListSize(fields) > limit
  }

  /** For every block the general loop decodes, against every table, the cheap
      bound is never below the true size. */
  lemma BoundHolds(d: Dec, data: Bytes, longest: nat)
    requires NamesWithin(d.table, longest) && DecodeBlock(d, data, []).Fields?
    ensures var all := DecodeBlock(d, data, []).fields;
            ListSize(all) <= |data| * 8 / 5 + |all| * (STATIC_MAX + NameMax(d, data, [], longest)) + Refs(d, data, [])
  {
    hide DecodeBlock, NameMax, Refs, LargestStatic, NamesWithin;
    BlockGrowth(d, data, [], longest);
  }

  /** So the test in two stages is the exact comparison. */
  lemma TestIsExact(d: Dec, data: Bytes, longest: nat, limit: nat)
    requires NamesWithin(d.table, longest) && DecodeBlock(d, data, []).Fields?
    ensures var all := DecodeBlock(d, data, []).fields;
            TooLarge(|data|, all, NameMax(d, data, [], longest), Refs(d, data, []), limit) <==> ListSize(all) > limit
  {
    hide DecodeBlock, NameMax, Refs, LargestStatic, NamesWithin;
    BoundHolds(d, data, longest);
  }
}
