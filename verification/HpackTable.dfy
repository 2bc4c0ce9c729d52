/** Dynamic tables of HPACK (section 4 of RFC 7541): the plain list both sides
    mean, the decoder's ring of core/hpack.go and the encoder's slice of
    core/h2_enctable.go. */
module HpackTable {
  import opened ByteStrings
  import opened BitStrings

  datatype Field = Field(name: Bytes, value: Bytes)

  const OVERHEAD := 32

  function Cost(f: Field): nat {
    |f.name| + |f.value| + OVERHEAD
  }

  // ----- The plain list, newest entry first

  function Size(t: seq<Field>): nat {
    if t == [] then 0 else Size(t[..|t| - 1]) + Cost(t[|t| - 1])
  }

  /** Drops oldest entries until the rest fits. */
  function Evict(t: seq<Field>, limit: int): (r: seq<Field>)
    ensures r <= t
  {
    if t == [] || Size(t) <= limit then t else Evict(t[..|t| - 1], limit)
  }

  function Add(t: seq<Field>, max: nat, f: Field): seq<Field> {
    if Cost(f) > max then [] else [f] + Evict(t, max - Cost(f))
  }

  lemma {:induction false} EvictFits(t: seq<Field>, limit: int)
    ensures Evict(t, limit) == [] || Size(Evict(t, limit)) <= limit
  {
    if t != [] && Size(t) > limit { EvictFits(t[..|t| - 1], limit); }
  }

  /** Nothing is dropped that could have stayed. */
  lemma {:induction false} EvictLongest(p: seq<Field>, t: seq<Field>, limit: int)
    requires p <= t && (p == [] || Size(p) <= limit)
    ensures p <= Evict(t, limit)
  {
    if t != [] && Size(t) > limit {
      if p == t {
      } else {
        assert p <= t[..|t| - 1];
        EvictLongest(p, t[..|t| - 1], limit);
      }
    }
  }

  /** A table that begins another still does after both evict. */
  lemma EvictPrefix(a: seq<Field>, b: seq<Field>, limit: int)
    requires a <= b
    ensures Evict(a, limit) <= Evict(b, limit)
  {
    EvictFits(a, limit);
    EvictLongest(Evict(a, limit), b, limit);
  }

  lemma AddPrefix(a: seq<Field>, b: seq<Field>, max: nat, f: Field)
    requires a <= b
    ensures Add(a, max, f) <= Add(b, max, f)
  {
    hide Evict;
    EvictPrefix(a, b, max - Cost(f));
  }

  lemma {:induction false} SizeCons(f: Field, t: seq<Field>)
    ensures Size([f] + t) == Cost(f) + Size(t)
  {
    if t == [] {
      assert [f] + t == [f];
      assert [f][..0] == [];
    } else {
      assert ([f] + t)[..|t|] == [f] + t[..|t| - 1];
      SizeCons(f, t[..|t| - 1]);
    }
  }

  lemma AddFits(t: seq<Field>, max: nat, f: Field)
    ensures Size(Add(t, max, f)) <= max
  {
    if Cost(f) <= max {
      EvictFits(t, max - Cost(f));
      SizeCons(f, Evict(t, max - Cost(f)));
    }
  }

  /** An entry costs 32 at least, so a table holds few. */
  lemma {:induction false} FewEntries(t: seq<Field>)
    ensures OVERHEAD * |t| <= Size(t)
  {
    if t != [] { FewEntries(t[..|t| - 1]); }
  }

  // ----- The decoder's ring

  datatype Entry = Entry(name: Bytes, value: Bytes, size: nat)

  function EntryOf(f: Field): Entry {
    Entry(f.name, f.value, Cost(f))
  }

  /** `(head + i) % cap` */
  function Slot(head: nat, i: nat, cap: nat): (k: nat)
    requires head < cap && i <= cap
    ensures k < cap && k == (head + i) % cap
  {
    if head + i < cap then head + i
    else (assert (head + i) % cap == head + i - cap by { Wrap(head + i - cap, cap); } head + i - cap)
  }

  lemma Wrap(k: nat, cap: nat)
    requires k < cap
    ensures (k + cap) % cap == k
  {
    ModUnique(1, cap, k);
  }

  /** The dynamic table of `HpackDecoder`: a ring of 128 slots that moves to a
      larger one when it fills up. */
  class DynTable {
    const inline: array<Entry>
    var ring: array<Entry>
    var head: nat
    var len: nat
    var size: nat
    var maxSize: nat
    var nameMax: nat
    ghost var contents: seq<Field>

    /** The slots in use: the larger ring once there is one. */
    function Slots(): array<Entry>
      reads this
    {
      if ring.Length > 0 then ring else inline
    }

    ghost predicate Valid()
      reads this, inline, ring
    {
      && inline.Length == 128 && ring != inline
      && head < Slots().Length && len == |contents| <= Slots().Length
      && (forall i :: 0 <= i < len ==> Slots()[Slot(head, i, Slots().Length)] == EntryOf(contents[i]))
      && size == Size(contents) <= maxSize
      && (forall i :: 0 <= i < len ==> |contents[i].name| <= nameMax)
    }

    constructor (maxSize: nat)
      ensures Valid() && contents == [] && this.maxSize == maxSize && fresh(inline) && fresh(ring) && nameMax == 0
    {
      inline := new Entry[128](i => Entry([], [], 0));
      ring := new Entry[0];
      head, len, size, nameMax := 0, 0, 0, 0;
      this.maxSize := maxSize;
      contents := [];
      new;
    }

    /** `dynGet`, for an entry that is there. */
    method Get(i: nat) returns (f: Field)
      requires Valid() && i < len
      ensures f == contents[i]
    {
      var e := Slots()[Slot(head, i, Slots().Length)];
      return Field(e.name, e.value);
    }

    /** The loop body of both evictions: the oldest entry goes. */
    method DropOldest()
      requires Valid() && len > 0
      modifies this, inline, ring
      ensures Valid() && contents == old(contents)[..old(len) - 1]
              && size == old(size) - Cost(old(contents)[old(len) - 1])
      ensures maxSize == old(maxSize) && ring == old(ring) && nameMax == old(nameMax) && head == old(head)
    {
      var slots := Slots();
      var k := Slot(head, len - 1, slots.Length);
      size := size - slots[k].size;
      slots[k] := Entry([], [], 0);
      len := len - 1;
      contents := contents[..len];
      OtherSlots(head, len, slots.Length);
    }

    /** `setMaxSize` */
    method SetMaxSize(max: nat)
      requires Valid()
      modifies this, inline, ring
      ensures Valid() && contents == Evict(old(contents), max) && maxSize == max
      ensures ring == old(ring) && nameMax == old(nameMax)
    {
      hide Size, Evict, Slot;
      while size > max && len > 0
        invariant Valid() && Evict(contents, max) == Evict(old(contents), max)
        invariant maxSize == old(maxSize) && ring == old(ring) && nameMax == old(nameMax)
        decreases len
      {
        EvictStep(contents, max);
        DropOldest();
      }
      Kept(contents, max);
      NoSize();
      maxSize := max;
    }

    /** `growDynRing`: the entries move to a ring twice as long, or as long as the
        size limit could ever fill. */
    method Grow()
      requires Valid() && len == Slots().Length
      modifies this
      ensures Valid() && contents == old(contents) && size == old(size) && maxSize == old(maxSize)
              && nameMax == old(nameMax)
      ensures ring == old(ring) || fresh(ring)
      ensures maxSize / 32 > old(Slots().Length) ==> len < Slots().Length
    {
      hide Size, Slot;
      var oldCapacity := Slots().Length;
      var maxEntries := maxSize / 32;
      if maxEntries <= oldCapacity { return; }
      var newCapacity := oldCapacity * 2;
      if newCapacity > maxEntries { newCapacity := maxEntries; }
      var next := new Entry[newCapacity](i => Entry([], [], 0));
      CopyTo(next);
      ring := next;
      head := 0;
      FromStart(newCapacity);
    }

    /** The copying loop of `growDynRing`. */
    method CopyTo(next: array<Entry>)
      requires Valid() && len <= next.Length && next != inline && next != ring
      modifies next
      ensures forall i :: 0 <= i < len ==> next[i] == EntryOf(contents[i])
    {
      hide Size;
      for i := 0 to len
        invariant forall k :: 0 <= k < i ==> next[k] == EntryOf(contents[k])
      {
        next[i] := Slots()[Slot(head, i, Slots().Length)];
      }
    }

    /** The loop of `addEntry`: room for `cost`, or an empty table. */
    method MakeRoom(cost: nat)
      requires Valid()
      modifies this, inline, ring
      ensures Valid() && contents == Evict(old(contents), maxSize - cost) && maxSize == old(maxSize)
      ensures ring == old(ring) && nameMax == old(nameMax)
      ensures size + cost <= maxSize || len == 0
    {
      hide Size, Evict, Slot;
      while size + cost > maxSize && len > 0
        invariant Valid() && Evict(contents, maxSize - cost) == Evict(old(contents), maxSize - cost)
        invariant maxSize == old(maxSize) && ring == old(ring) && nameMax == old(nameMax)
        decreases len
      {
        EvictStep(contents, maxSize - cost);
        DropOldest();
      }
      Kept(contents, maxSize - cost);
    }

    /** The end of `addEntry`: one slot before the head. */
    method Insert(f: Field)
      requires Valid() && len < Slots().Length && size + Cost(f) <= maxSize && |f.name| <= nameMax
      modifies this, inline, ring
      ensures Valid() && contents == [f] + old(contents) && maxSize == old(maxSize)
      ensures ring == old(ring) && nameMax == old(nameMax)
    {
      hide Size;
      var slots := Slots();
      var capacity := slots.Length;
      ghost var was := contents;
      SizeCons(f, was);
      Before(head, len, capacity);
      head := Slot(head, capacity - 1, capacity);
      slots[Slot(head, 0, capacity)] := EntryOf(f);
      len := len + 1;
      size := size + Cost(f);
      contents := [f] + was;
    }

    /** `addEntry`. A field that fits the limit is never dropped for want of a
        slot. */
    method AddEntry(f: Field)
      requires Valid()
      modifies this, inline, ring
      ensures Valid() && contents == Add(old(contents), maxSize, f) && maxSize == old(maxSize)
      ensures ring == old(ring) || fresh(ring)
      ensures nameMax == if |f.name| > old(nameMax) then |f.name| else old(nameMax)
    {
      hide Evict, Size;
      if nameMax < |f.name| { nameMax := |f.name|; }
      var entrySize := Cost(f);
      MakeRoom(entrySize);
      if entrySize <= maxSize && len == Slots().Length {
        FewEntries(contents);
        Grow();
      }
      if entrySize <= maxSize && len < Slots().Length {
        NoSize();
        Insert(f);
      } else {
        NothingLeft(old(contents), maxSize - entrySize);
      }
    }
  }

  lemma FromStart(cap: nat)
    ensures forall i :: 0 <= i < cap ==> Slot(0, i, cap) == i
  {
  }

  lemma EvictStep(t: seq<Field>, limit: int)
    requires t != [] && Size(t) > limit
    ensures Evict(t, limit) == Evict(t[..|t| - 1], limit)
  {
  }

  lemma NoSize()
    ensures Size([]) == 0
  {
  }

  lemma NothingLeft(t: seq<Field>, limit: int)
    ensures limit < 0 ==> Evict(t, limit) == []
  {
    EvictFits(t, limit);
  }

  /** Stepping the head back moves every entry up by one. */
  lemma Before(head: nat, n: nat, cap: nat)
    requires head < cap && n < cap
    ensures var h := Slot(head, cap - 1, cap);
            && h == (head - 1 + cap) % cap && Slot(h, 0, cap) == h
            && (forall i :: 0 < i <= n ==> Slot(h, i, cap) == Slot(head, i - 1, cap))
            && (forall i :: 0 < i <= n ==> Slot(h, i, cap) != h)
  {
  }

  lemma OtherSlots(head: nat, n: nat, cap: nat)
    requires head < cap && n < cap
    ensures forall i :: 0 <= i < n ==> Slot(head, i, cap) != Slot(head, n, cap)
  {
  }

  // ----- The encoder's slice, oldest entry first

  const ENC_MAX_SIZE := 4096
  const DYNAMIC_INDEX_MIN := 62

  function Newest(entries: seq<Field>): (t: seq<Field>)
    ensures |t| == |entries|
  {
    seq(|entries|, i requires 0 <= i < |entries| => entries[|entries| - 1 - i])
  }

  /** Where a field stands in a table, newest first, or -1. */
  function PositionOf(t: seq<Field>, f: Field): (i: int)
    ensures -1 <= i < |t|
    ensures i >= 0 ==> t[i] == f && f !in t[..i]
    ensures i < 0 ==> f !in t
  {
    if t == [] then -1
    else if t[0] == f then 0
    else
      var k := PositionOf(t[1..], f);
      if k < 0 then (assert t == [t[0]] + t[1..]; -1)
      else (assert t[..k + 1] == [t[0]] + t[1..][..k]; k + 1)
  }

  lemma {:induction false} PositionIs(t: seq<Field>, f: Field, i: nat)
    requires i < |t| && t[i] == f && f !in t[..i]
    ensures PositionOf(t, f) == i
  {
    if i > 0 {
      assert t[..i] == [t[0]] + t[1..][..i - 1];
      PositionIs(t[1..], f, i - 1);
    }
  }

  /** `hpackEncTable` */
  class EncTable {
    var entries: seq<Field>
    var size: nat
    var maxSize: nat
    var pendingUpdate: bool
    var gen: nat

    ghost predicate Valid()
      reads this
    {
      size == Size(Newest(entries)) <= maxSize <= ENC_MAX_SIZE
    }

    /** The zero value after `reset`. */
    constructor ()
      ensures Valid() && entries == [] && maxSize == ENC_MAX_SIZE && !pendingUpdate
    {
      entries, size, maxSize, pendingUpdate, gen := [], 0, ENC_MAX_SIZE, false, 1;
    }

    /** The loop of `evictTo`. A new generation marks every change. */
    method EvictTo(limit: int)
      requires size == Size(Newest(entries))
      modifies this`entries, this`size, this`gen
      ensures size == Size(Newest(entries)) && Newest(entries) == Evict(old(Newest(entries)), limit)
      ensures gen >= old(gen) && (gen == old(gen) ==> entries == old(entries))
    {
      hide Evict, Size;
      var drop := 0;
      Whole(entries);
      while size > limit && drop < |entries|
        invariant drop <= |entries| && entries == old(entries) && gen == old(gen)
        invariant size == Size(Newest(entries[drop..]))
        invariant Evict(Newest(entries[drop..]), limit) == Evict(Newest(entries), limit)
      {
        DropOne(entries[drop..], limit);
        assert entries[drop..][1..] == entries[drop + 1..];
        size := size - Cost(entries[drop]);
        drop := drop + 1;
      }
      Kept(Newest(entries[drop..]), limit);
      if drop == 0 { return; }
      gen := gen + 1;
      entries := entries[drop..];
    }

    /** `setPeerLimit` */
    method SetPeerLimit(limit: nat)
      requires Valid()
      modifies this
      ensures Valid() && maxSize == (if limit < ENC_MAX_SIZE then limit else ENC_MAX_SIZE)
      ensures Newest(entries) == Evict(old(Newest(entries)), maxSize)
      ensures pendingUpdate == (old(pendingUpdate) || maxSize != old(maxSize))
      ensures gen >= old(gen)
      ensures gen == old(gen) ==>
                entries == old(entries) && maxSize == old(maxSize) && pendingUpdate == old(pendingUpdate)
    {
      hide Evict, Size;
      var newMax := if limit < ENC_MAX_SIZE then limit else ENC_MAX_SIZE;
      Kept(Newest(entries), newMax);
      if newMax == maxSize { return; }
      EvictFits(Newest(entries), newMax);
      NoSize();
      maxSize := newMax;
      EvictTo(newMax);
      pendingUpdate := true;
      gen := gen + 1;
    }

    /** `find`: the dynamic index of the newest such entry, or zero. */
    method Find(f: Field) returns (idx: nat)
      ensures var k := PositionOf(Newest(entries), f); idx == if k < 0 then 0 else DYNAMIC_INDEX_MIN + k
    {
      var i := |entries| - 1;
      ghost var t := Newest(entries);
      while i >= 0
        invariant -1 <= i < |entries| && f !in t[..|entries| - 1 - i]
      {
        if entries[i].value == f.value && entries[i].name == f.name {
          PositionIs(t, f, |entries| - 1 - i);
          return DYNAMIC_INDEX_MIN + |entries| - 1 - i;
        }
        assert t[..|entries| - i] == t[..|entries| - 1 - i] + [entries[i]];
        i := i - 1;
      }
      assert t[..|entries|] == t;
      idx := 0;
    }

    /** `add` */
    method AddField(f: Field)
      requires Valid()
      modifies this`entries, this`size, this`gen
      ensures Valid() && Newest(entries) == Add(old(Newest(entries)), maxSize, f)
      ensures gen >= old(gen) && (gen == old(gen) ==> entries == old(entries))
    {
      hide Evict, Size;
      var cost := Cost(f);
      AddFits(Newest(entries), maxSize, f);
      if cost > maxSize {
        EvictTo(0);
        OnlyNothing(old(Newest(entries)));
        return;
      }
      EvictTo(maxSize - cost);
      SizeCons(f, Newest(entries));
      assert Newest(entries + [f]) == [f] + Newest(entries);
      entries := entries + [f];
      size := size + cost;
      gen := gen + 1;
    }
  }

  lemma Whole(entries: seq<Field>)
    ensures entries[0..] == entries
  {
  }

  lemma DropOne(entries: seq<Field>, limit: int)
    requires entries != [] && Size(Newest(entries)) > limit
    ensures Size(Newest(entries)) == Size(Newest(entries[1..])) + Cost(entries[0])
    ensures Evict(Newest(entries), limit) == Evict(Newest(entries[1..]), limit)
  {
    var t := Newest(entries);
    assert t[..|t| - 1] == Newest(entries[1..]);
  }

  lemma Kept(t: seq<Field>, limit: int)
    ensures t == [] || Size(t) <= limit ==> Evict(t, limit) == t
  {
  }

  /** Nothing fits a limit of zero: every entry costs 32. */
  lemma {:induction false} OnlyNothing(t: seq<Field>)
    ensures Evict(t, 0) == []
  {
    if t != [] { OnlyNothing(t[..|t| - 1]); }
  }
}
