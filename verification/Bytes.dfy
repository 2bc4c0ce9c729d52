/** Bytes, byte strings and the few searches every codec here needs. */
module ByteStrings {

  type Byte = b: int | 0 <= b < 256

  type Bytes = seq<Byte>

  datatype Option<+T> = None | Some(value: T)

  /** The first number that 64 bits do not hold. */
  const WIDE := 0x1_0000_0000_0000_0000

  const CR: Byte := 13
  const LF: Byte := 10

  /** The first position of `c` in `s`, or -1. */
  function IndexByte(s: Bytes, c: Byte): (i: int)
    ensures -1 <= i < |s|
    ensures i >= 0 ==> s[i] == c && c !in s[..i]
    ensures i < 0 ==> c !in s
  {
    if s == [] then -1
    else if s[0] == c then 0
    else
      var k := IndexByte(s[1..], c);
      if k < 0 then (assert s == [s[0]] + s[1..]; -1)
      else (assert s[..k + 1] == [s[0]] + s[1..][..k]; k + 1)
  }

  /** The position is pinned down by what it says. */
  lemma {:induction false} IndexIs(s: Bytes, c: Byte, i: nat)
    requires i < |s| && s[i] == c && c !in s[..i]
    ensures IndexByte(s, c) == i
  {
    if i > 0 {
      assert s[..i] == [s[0]] + s[1..][..i - 1];
      IndexIs(s[1..], c, i - 1);
    }
  }

  /** A first position is the same in every longer string. */
  lemma IndexStable(s: Bytes, t: Bytes, c: Byte)
    requires s <= t && IndexByte(s, c) >= 0
    ensures IndexByte(t, c) == IndexByte(s, c)
  {
    var i := IndexByte(s, c);
    assert t[..i] == s[..i];
    IndexIs(t, c, i);
  }

  lemma IndexAbsent(s: Bytes, c: Byte)
    requires c !in s
    ensures IndexByte(s, c) == -1
  {
  }

  /** All strings of a list, one after the other. */
  function Concat(parts: seq<Bytes>): Bytes {
    if parts == [] then [] else parts[0] + Concat(parts[1..])
  }

  lemma {:induction false} ConcatSnoc(parts: seq<Bytes>, x: Bytes)
    ensures Concat(parts + [x]) == Concat(parts) + x
  {
    if parts == [] {
      assert Concat([x]) == x + Concat([]);
    } else {
      assert (parts + [x])[1..] == parts[1..] + [x];
      ConcatSnoc(parts[1..], x);
    }
  }

  // ----- Pieces between separators

  /** The pieces of a string between the bytes `sep`, byte by byte. */
  function Pieces(sep: Byte, s: Bytes): (r: seq<Bytes>)
    ensures r != []
  {
    if s == [] then [[]] else Grown(sep, Pieces(sep, s[..|s| - 1]), s[|s| - 1])
  }

  /** The pieces with one byte more. */
  function Grown(sep: Byte, pieces: seq<Bytes>, c: Byte): (r: seq<Bytes>)
    requires pieces != []
    ensures r != []
  {
    if c == sep then pieces + [[]] else pieces[..|pieces| - 1] + [pieces[|pieces| - 1] + [c]]
  }

  lemma {:induction false} OnePiece(sep: Byte, s: Bytes)
    requires sep !in s
    ensures Pieces(sep, s) == [s]
  {
    if s != [] {
      OnePiece(sep, s[..|s| - 1]);
      assert s == s[..|s| - 1] + [s[|s| - 1]];
    }
  }

  lemma GrownCat(sep: Byte, a: seq<Bytes>, b: seq<Bytes>, c: Byte)
    requires b != []
    ensures Grown(sep, a + b, c) == a + Grown(sep, b, c)
  {
    assert (a + b)[..|a + b| - 1] == a + b[..|b| - 1];
  }

  lemma GrownSep(sep: Byte, a: seq<Bytes>)
    requires a != []
    ensures Grown(sep, a, sep) == a + Pieces(sep, [])
  {
  }

  lemma {:induction false} PiecesCat(sep: Byte, a: Bytes, b: Bytes)
    ensures Pieces(sep, a + [sep] + b) == Pieces(sep, a) + Pieces(sep, b)
    decreases |b|
  {
    hide Grown;
    var all := a + [sep] + b;
    if b == [] {
      assert all[..|all| - 1] == a;
      GrownSep(sep, Pieces(sep, a));
    } else {
      assert all[..|all| - 1] == a + [sep] + b[..|b| - 1];
      PiecesCat(sep, a, b[..|b| - 1]);
      GrownCat(sep, Pieces(sep, a), Pieces(sep, b[..|b| - 1]), b[|b| - 1]);
    }
  }
}
