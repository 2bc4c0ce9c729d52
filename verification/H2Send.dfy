/** The windowed response senders of a plain HTTP/2 connection: buffered
    (core/epoll_h2_linux_amd64.go, `h2AppendWindowed`) and direct
    (core/epoll_h2_direct_linux_amd64.go), where the kernel may accept any prefix
    of a vectored write and whole frames it did not touch are taken back. */
module H2Send {
  import opened ByteStrings
  import opened H2Frames
  import H2Fragment

  const DIRECT_MAX_FRAMES := 64

  // ----- What was emitted

  /** One emission: a DATA frame of a stream, or a frame of any other kind; a DATA
      frame without payload counts as one of those. */
  datatype Item = Other(typ: Byte, flags: Byte, on: nat, content: Bytes) | Data(sid: nat, end: bool, payload: Bytes)

  predicate Encodable(x: Item) {
    match x
    case Other(typ, _, on, content) =>
      (typ != DATA || content == []) && on < 0x8000_0000 && |content| < 0x100_0000
    case Data(sid, _, payload) => sid < 0x8000_0000 && 0 < |payload| < 0x100_0000
  }

  function Flags(end: bool): Byte {
    if end then END_STREAM else 0
  }

  function Encode(x: Item): Bytes
    requires Encodable(x)
  {
    match x
    case Other(typ, flags, on, content) => Frame(typ, flags, on, content)
    case Data(sid, end, payload) => Frame(DATA, Flags(end), sid, payload)
  }

  function EncodeAll(xs: seq<Item>): Bytes
    requires AllEncodable(xs)
  {
    if xs == [] then [] else EncodeAll(xs[..|xs| - 1]) + Encode(xs[|xs| - 1])
  }

  function DataIn(x: Item, sid: nat): Bytes {
    if x.Data? && x.sid == sid then x.payload else []
  }

  /** The DATA payloads of one stream, in order. */
  function DataOf(xs: seq<Item>, sid: nat): Bytes {
    if xs == [] then [] else DataOf(xs[..|xs| - 1], sid) + DataIn(xs[|xs| - 1], sid)
  }

  /** The HEADERS frames of one stream: whether each has END_STREAM. */
  function HeadsOf(xs: seq<Item>, sid: nat): seq<bool> {
    if xs == [] then []
    else
      var x := xs[|xs| - 1];
      HeadsOf(xs[..|xs| - 1], sid) + if x.Other? && x.typ == HEADERS && x.on == sid then [x.flags % 2 == 1] else []
  }

  /** A DATA frame of the stream comes after HEADERS, and has END_STREAM exactly
      when it brings the last byte of the body. */
  predicate EndsRight(xs: seq<Item>, sid: nat, size: nat) {
    xs == [] ||
    var x := xs[|xs| - 1];
    && EndsRight(xs[..|xs| - 1], sid, size)
    && (x.Data? && x.sid == sid ==> HeadsOf(xs[..|xs| - 1], sid) != [] && (x.end <==> |DataOf(xs, sid)| == size))
  }

  /** How many frames of the stream have END_STREAM. */
  function Ends(xs: seq<Item>, sid: nat): nat {
    if xs == [] then 0
    else
      var x := xs[|xs| - 1];
      Ends(xs[..|xs| - 1], sid)
      + (if x.Data? && x.sid == sid && x.end then 1 else 0)
      + (if x.Other? && x.typ == HEADERS && x.on == sid && x.flags % 2 == 1 then 1 else 0)
  }

  lemma {:induction false} EndsCount(xs: seq<Item>, sid: nat, size: nat)
    requires AllEncodable(xs) && EndsRight(xs, sid, size) && |DataOf(xs, sid)| <= size
    ensures Ends(xs, sid) == Trues(HeadsOf(xs, sid)) + if 0 < size == |DataOf(xs, sid)| then 1 else 0
  {
    if xs != [] {
      var n := |xs| - 1;
      EndsCount(xs[..n], sid, size);
      TruesSnoc(HeadsOf(xs[..n], sid), true);
      TruesSnoc(HeadsOf(xs[..n], sid), false);
      assert HeadsOf(xs[..n], sid) + [] == HeadsOf(xs[..n], sid);
    }
  }

  function Trues(s: seq<bool>): nat {
    if s == [] then 0 else Trues(s[..|s| - 1]) + if s[|s| - 1] then 1 else 0
  }

  lemma TruesSnoc(s: seq<bool>, b: bool)
    ensures Trues(s + [b]) == Trues(s) + if b then 1 else 0
  {
    assert (s + [b])[..|s|] == s;
  }

  // ----- Reading the wire

  /** A frame as the peer reads it. */
  datatype Raw = Raw(typ: Byte, flags: Byte, sid: nat, payload: Bytes)

  function RawOf(x: Item): Raw {
    match x
    case Other(typ, flags, on, content) => Raw(typ, flags, on, content)
    case Data(sid, end, payload) => Raw(DATA, Flags(end), sid, payload)
  }

  function RawAll(xs: seq<Item>): seq<Raw> {
    seq(|xs|, i requires 0 <= i < |xs| => RawOf(xs[i]))
  }

  /** The frames in front of `b`, and what is left of it. */
  function ReadRaw(b: Bytes): (seq<Raw>, Bytes)
    decreases |b|
  {
    if |b| < HEADER_LEN || |b| < HEADER_LEN + PayloadLen(b) then ([], b)
    else
      var n := HEADER_LEN + PayloadLen(b);
      var (more, rest) := ReadRaw(b[n..]);
      ([Raw(b[3], b[4], StreamId(b), b[HEADER_LEN..n])] + more, rest)
  }

  /** What was emitted reads as exactly its frames, in order, with nothing left. */
  lemma {:induction false} ReadsBack(xs: seq<Item>)
    requires AllEncodable(xs)
    ensures ReadRaw(EncodeAll(xs)) == (RawAll(xs), [])
    decreases |xs|
  {
    hide Frame, RawOf, EncodeAll, Encode, ReadRaw, RawAll, Encodable;
    if xs == [] {
      NoItems();
    } else {
      var rest := xs[1..];
      ReadsBack(rest);
      EncodeConcat([xs[0]], rest);
      OneItem(xs[0]);
      assert [xs[0]] + rest == xs;
      assert EncodeAll(xs) == Encode(xs[0]) + EncodeAll(rest);
      ReadOne(xs[0], EncodeAll(rest));
      RawFirst(xs);
    }
  }

  lemma NoItems()
    ensures ReadRaw(EncodeAll([])) == (RawAll([]), [])
  {
    assert RawAll([]) == [] && EncodeAll([]) == [];
  }

  lemma RawFirst(xs: seq<Item>)
    requires xs != []
    ensures RawAll(xs) == [RawOf(xs[0])] + RawAll(xs[1..])
  {
    hide RawOf;
  }

  lemma OneItem(x: Item)
    requires Encodable(x)
    ensures AllEncodable([x]) && EncodeAll([x]) == Encode(x)
  {
    hide Encode;
    assert [x][..0] == [] && [x][0] == x;
  }

  lemma ReadOne(x: Item, b: Bytes)
    requires Encodable(x)
    ensures ReadRaw(Encode(x) + b) == ([RawOf(x)] + ReadRaw(b).0, ReadRaw(b).1)
  {
    hide FrameHeader, PayloadLen, StreamId;
    var f := RawOf(x);
    var all := Encode(x) + b;
    assert all == FrameHeader(f.typ, f.flags, f.sid, |f.payload|) + (f.payload + b);
    HeaderReads(f.typ, f.flags, f.sid, |f.payload|, f.payload + b);
    var n := HEADER_LEN + |f.payload|;
    assert all[HEADER_LEN..n] == f.payload && all[n..] == b;
  }

  // ----- What emissions add up to

  predicate AllEncodable(xs: seq<Item>) {
    forall i :: 0 <= i < |xs| ==> Encodable(xs[i])
  }

  lemma {:induction false} EncodeConcat(xs: seq<Item>, ys: seq<Item>)
    requires AllEncodable(xs) && AllEncodable(ys)
    ensures AllEncodable(xs + ys) && EncodeAll(xs + ys) == EncodeAll(xs) + EncodeAll(ys)
  {
    hide Encode;
    if ys == [] {
      assert xs + ys == xs;
    } else {
      var n := |ys| - 1;
      assert (xs + ys)[..|xs + ys| - 1] == xs + ys[..n];
      EncodeConcat(xs, ys[..n]);
      assert EncodeAll(xs) + EncodeAll(ys[..n]) + Encode(ys[n]) == EncodeAll(xs) + EncodeAll(ys);
    }
  }

  lemma Associate(a: Bytes, b: Bytes, c: Bytes)
    ensures (a + b) + c == a + (b + c)
  {
  }

  lemma {:induction false} DataConcat(xs: seq<Item>, ys: seq<Item>, sid: nat)
    ensures DataOf(xs + ys, sid) == DataOf(xs, sid) + DataOf(ys, sid)
  {
    hide DataIn;
    if ys == [] {
      assert xs + ys == xs;
      assert DataOf(xs, sid) + [] == DataOf(xs, sid);
    } else {
      var n := |ys| - 1;
      assert (xs + ys)[..|xs + ys| - 1] == xs + ys[..n];
      DataConcat(xs, ys[..n], sid);
      Associate(DataOf(xs, sid), DataOf(ys[..n], sid), DataIn(ys[n], sid));
    }
  }

  /** DATA frames are no HEADERS. */
  lemma {:induction false} NoHeads(items: seq<Item>, fs: seq<Item>, sid: nat)
    requires forall i :: 0 <= i < |fs| ==> fs[i].Data?
    ensures HeadsOf(items + fs, sid) == HeadsOf(items, sid)
  {
    if fs == [] {
      assert items + fs == items;
    } else {
      var n := |fs| - 1;
      assert (items + fs)[..|items| + n] == items + fs[..n];
      NoHeads(items, fs[..n], sid);
    }
  }

  lemma DataLonger(xs: seq<Item>, sid: nat, i: nat, j: nat)
    requires i <= j <= |xs|
    ensures |DataOf(xs[..i], sid)| <= |DataOf(xs[..j], sid)|
    ensures i < j && xs[j - 1].Data? && xs[j - 1].sid == sid ==>
              |DataOf(xs[..i], sid)| + |xs[j - 1].payload| <= |DataOf(xs[..j], sid)|
  {
    if i < j {
      DataLonger(xs, sid, i, j - 1);
      assert xs[..j][..j - 1] == xs[..j - 1];
    }
  }

  lemma {:induction false} EndAt(xs: seq<Item>, sid: nat, size: nat, i: nat)
    requires EndsRight(xs, sid, size) && i < |xs| && xs[i].Data? && xs[i].sid == sid
    ensures xs[i].end <==> |DataOf(xs[..i + 1], sid)| == size
  {
    var n := |xs| - 1;
    if i < n {
      EndAt(xs[..n], sid, size, i);
      assert xs[..n][..i + 1] == xs[..i + 1];
    } else {
      assert xs[..i + 1] == xs;
    }
  }

  /** DATA frames carry payload, so END_STREAM appears at most once, and nothing
      of the stream follows it. */
  lemma EndOnce(xs: seq<Item>, sid: nat, size: nat, i: nat, j: nat)
    requires AllEncodable(xs) && EndsRight(xs, sid, size) && |DataOf(xs, sid)| <= size && i < j < |xs|
    requires xs[i].Data? && xs[i].sid == sid && xs[j].Data? && xs[j].sid == sid
    ensures !xs[i].end
  {
    hide DataOf, EndsRight;
    EndAt(xs, sid, size, i);
    DataLonger(xs, sid, i + 1, j + 1);
    DataLonger(xs, sid, j + 1, |xs|);
    assert xs[..|xs|] == xs;
  }

  // ----- A vectored write that was cut short

  /** How many of the frames `fs` stay emitted when the kernel took `s` of their
      bytes: those it took whole, and the one it stopped in or before. */
  function Kept(fs: seq<Bytes>, s: nat): (k: nat)
    ensures k <= |fs|
  {
    if fs == [] then 0 else if s >= |fs[0]| then 1 + Kept(fs[1..], s - |fs[0]|) else 1
  }

  /** The bytes of that last frame which have yet to be written. */
  function Left(fs: seq<Bytes>, s: nat): Bytes {
    if fs == [] then [] else if s >= |fs[0]| then Left(fs[1..], s - |fs[0]|) else fs[0][s..]
  }

  /** Whole frames: what the kernel took, followed by what is kept for later, is
      the kept frames and nothing else. */
  lemma {:induction false} CutIsWhole(fs: seq<Bytes>, s: nat)
    requires s <= |Concat(fs)|
    ensures Concat(fs)[..s] + Left(fs, s) == Concat(fs[..Kept(fs, s)])
  {
    if fs != [] {
      var f, rest := fs[0], fs[1..];
      if s >= |f| {
        CutIsWhole(rest, s - |f|);
        assert Concat(fs)[..s] == f + Concat(rest)[..s - |f|];
        var k := Kept(rest, s - |f|);
        assert fs[..k + 1] == [f] + rest[..k];
        assert Concat(fs[..k + 1]) == f + Concat(rest[..k]);
      } else {
        assert Concat(fs)[..s] == f[..s];
        assert f[..s] + f[s..] == f;
        assert fs[..1] == [f] && Concat([f]) == f + Concat([]);
      }
    }
  }

  /** Frames of one stream, as the segments of the vectored write: header,
      payload, header, payload, and so on. */
  function Segments(fs: seq<Item>): (s: seq<Bytes>)
    requires AllEncodable(fs) && forall i :: 0 <= i < |fs| ==> fs[i].Data?
    ensures |s| == 2 * |fs|
  {
    if fs == [] then []
    else
      var f := fs[|fs| - 1];
      Segments(fs[..|fs| - 1]) + [FrameHeader(DATA, Flags(f.end), f.sid, |f.payload|), f.payload]
  }

  predicate AllData(fs: seq<Item>, sid: nat) {
    AllEncodable(fs) && forall i :: 0 <= i < |fs| ==> fs[i].Data? && fs[i].sid == sid
  }

  lemma {:induction false} SegmentAt(fs: seq<Item>, sid: nat, i: nat)
    requires AllData(fs, sid) && i < |fs|
    ensures Segments(fs)[2 * i] == FrameHeader(DATA, Flags(fs[i].end), sid, |fs[i].payload|)
    ensures Segments(fs)[2 * i + 1] == fs[i].payload
    ensures Encode(fs[i]) == Segments(fs)[2 * i] + Segments(fs)[2 * i + 1]
  {
    if i < |fs| - 1 { SegmentAt(fs[..|fs| - 1], sid, i); }
  }

  function Encoded(fs: seq<Item>): (e: seq<Bytes>)
    requires AllEncodable(fs)
    ensures |e| == |fs|
  {
    seq(|fs|, i requires 0 <= i < |fs| => Encode(fs[i]))
  }

  lemma {:induction false} EncodedConcat(fs: seq<Item>)
    requires AllEncodable(fs)
    ensures Concat(Encoded(fs)) == EncodeAll(fs)
  {
    hide Encode;
    if fs != [] {
      var n := |fs| - 1;
      EncodedConcat(fs[..n]);
      assert Encoded(fs) == Encoded(fs[..n]) + [Encode(fs[n])];
      ConcatSnoc(Encoded(fs[..n]), Encode(fs[n]));
    }
  }

  /** The loop of `h2SendFrames` that cuts headers and data into segments. */
  method CutSegments(hdrs: Bytes, data: Bytes, ghost fs: seq<Item>, ghost sid: nat) returns (segs: seq<Bytes>)
    requires AllData(fs, sid) && hdrs == Headers(fs) && data == DataOf(fs, sid)
    ensures segs == Segments(fs)
  {
    hide FrameHeader, PayloadLen, DataOf, Segments, Headers, Encodable;
    segs := [];
    var rest := data;
    var h := 0;
    ghost var j := 0;
    NoSegments(sid);
    assert fs[..0] == [] && data == [] + data;
    while h < |hdrs|
      invariant 0 <= j <= |fs| && h == j * HEADER_LEN && |hdrs| == |fs| * HEADER_LEN
      invariant segs == Segments(fs[..j])
      invariant data == DataOf(fs[..j], sid) + rest
    {
      HeaderAt(fs, sid, j);
      var n := PayloadLen(hdrs[h..]);
      NextPayload(fs, sid, j, rest);
      NextSegments(fs, sid, j);
      segs := segs + [hdrs[h..h + HEADER_LEN], rest[..n]];
      rest := rest[n..];
      h := h + HEADER_LEN;
      j := j + 1;
    }
    assert fs[..j] == fs;
  }

  lemma NoSegments(sid: nat)
    ensures Segments([]) == [] && DataOf([], sid) == []
  {
  }

  lemma NextSegments(fs: seq<Item>, sid: nat, j: nat)
    requires AllData(fs, sid) && j < |fs|
    ensures Segments(fs[..j + 1])
            == Segments(fs[..j]) + [FrameHeader(DATA, Flags(fs[j].end), sid, |fs[j].payload|), fs[j].payload]
  {
    assert fs[..j + 1][..j] == fs[..j];
  }

  /** All frame headers, one after the other. */
  function Headers(fs: seq<Item>): (h: Bytes)
    requires AllEncodable(fs) && forall i :: 0 <= i < |fs| ==> fs[i].Data?
    ensures |h| == |fs| * HEADER_LEN
  {
    if fs == [] then []
    else
      var f := fs[|fs| - 1];
      Headers(fs[..|fs| - 1]) + FrameHeader(DATA, Flags(f.end), f.sid, |f.payload|)
  }

  lemma {:induction false} HeaderAt(fs: seq<Item>, sid: nat, i: nat)
    requires AllData(fs, sid) && i < |fs|
    ensures (i + 1) * HEADER_LEN <= |Headers(fs)|
    ensures Headers(fs)[i * HEADER_LEN..(i + 1) * HEADER_LEN]
            == FrameHeader(DATA, Flags(fs[i].end), sid, |fs[i].payload|)
    ensures PayloadLen(Headers(fs)[i * HEADER_LEN..]) == |fs[i].payload|
  {
    hide FrameHeader, PayloadLen, StreamId;
    var n := |fs| - 1;
    var f := fs[n];
    var last := FrameHeader(DATA, Flags(f.end), f.sid, |f.payload|);
    if i == n {
      HeaderReads(DATA, Flags(f.end), f.sid, |f.payload|, []);
      assert Headers(fs)[i * HEADER_LEN..] == last + [];
    } else {
      HeaderAt(fs[..n], sid, i);
      var h := Headers(fs[..n]);
      assert Headers(fs)[i * HEADER_LEN..(i + 1) * HEADER_LEN] == h[i * HEADER_LEN..(i + 1) * HEADER_LEN];
      SamePayloadLen(Headers(fs)[i * HEADER_LEN..], h[i * HEADER_LEN..]);
    }
  }

  lemma SamePayloadLen(a: Bytes, b: Bytes)
    requires |a| >= 3 && |b| >= 3 && a[0] == b[0] && a[1] == b[1] && a[2] == b[2]
    ensures PayloadLen(a) == PayloadLen(b)
  {
  }

  /** The next payload stands at the front of what is left of the data. */
  lemma NextPayload(fs: seq<Item>, sid: nat, j: nat, rest: Bytes)
    requires AllData(fs, sid) && j < |fs| && DataOf(fs, sid) == DataOf(fs[..j], sid) + rest
    ensures |fs[j].payload| <= |rest| && rest[..|fs[j].payload|] == fs[j].payload
    ensures DataOf(fs, sid) == DataOf(fs[..j + 1], sid) + rest[|fs[j].payload|..]
  {
    hide DataOf, AllEncodable;
    DataAround(fs, sid, j);
    FrontOf(DataOf(fs[..j], sid), rest, fs[j].payload, DataOf(fs[j + 1..], sid));
  }

  lemma DataAround(fs: seq<Item>, sid: nat, j: nat)
    requires j < |fs| && fs[j].Data? && fs[j].sid == sid
    ensures DataOf(fs[..j + 1], sid) == DataOf(fs[..j], sid) + fs[j].payload
    ensures DataOf(fs, sid) == DataOf(fs[..j + 1], sid) + DataOf(fs[j + 1..], sid)
  {
    assert fs[..j + 1][..j] == fs[..j];
    assert fs == fs[..j + 1] + fs[j + 1..];
    DataConcat(fs[..j + 1], fs[j + 1..], sid);
  }

  lemma FrontOf(a: Bytes, rest: Bytes, d: Bytes, after: Bytes)
    requires a + rest == a + d + after
    ensures |d| <= |rest| && rest[..|d|] == d && a + rest == (a + d) + rest[|d|..]
  {
    assert a + d + after == a + (d + after);
    SameTail(a, rest, d + after);
  }

  lemma SameTail(a: Bytes, x: Bytes, y: Bytes)
    requires a + x == a + y
    ensures x == y
  {
    assert x == (a + x)[|a|..];
  }

  /** `h2KeepPartialFrame`, over segments without the pending output in front:
      what goes back into the write buffer, and how many frames stay emitted. */
  method KeepPartialFrame(segs: seq<Bytes>, took: nat, ghost fs: seq<Item>, ghost sid: nat)
    returns (kept: Bytes, from: nat)
    requires AllData(fs, sid) && segs == Segments(fs)
    ensures kept == Left(Encoded(fs), took) && from == 2 * Kept(Encoded(fs), took)
  {
    hide Encode, Encodable, Segments;
    ghost var all := Encoded(fs);
    ghost var j := 0;
    var sent: nat := took;
    var i := 0;
    while i < |segs|
      invariant 0 <= j <= |fs| && i == 2 * j
      invariant Left(all, took) == Left(all[j..], sent) && Kept(all, took) == j + Kept(all[j..], sent)
    {
      SegmentAt(fs, sid, j);
      var frameLen := |segs[i]| + |segs[i + 1]|;
      assert all[j] == segs[i] + segs[i + 1];
      if sent >= frameLen {
        assert all[j..][1..] == all[j + 1..];
        sent := sent - frameLen;
        i := i + 2;
        j := j + 1;
        continue;
      }
      var hdrRest := if |segs[i]| > sent then |segs[i]| - sent else 0;
      var dataSent := if sent > |segs[i]| then sent - |segs[i]| else 0;
      kept := segs[i][|segs[i]| - hdrRest..] + segs[i + 1][dataSent..];
      CutPair(segs[i], segs[i + 1], sent);
      return kept, i + 2;
    }
    return [], |segs|;
  }

  /** What is left of two segments behind the first `n` bytes of them. */
  lemma CutPair(a: Bytes, b: Bytes, n: nat)
    requires n <= |a| + |b|
    ensures var rest, past := if |a| > n then |a| - n else 0, if n > |a| then n - |a| else 0;
            a[|a| - rest..] + b[past..] == (a + b)[n..]
  {
  }

  /** The sum in `h2UnconsumeFrames`: the payload of the frames taken back. */
  method Unsent(segs: seq<Bytes>, from: nat, ghost fs: seq<Item>, ghost sid: nat, ghost k: nat) returns (unsent: nat)
    requires AllData(fs, sid) && segs == Segments(fs) && k <= |fs| && from == 2 * k
    ensures unsent == |DataOf(fs, sid)| - |DataOf(fs[..k], sid)|
  {
    hide Encodable, Segments, DataOf, Encode, FrameHeader;
    unsent := 0;
    var i := from + 1;
    ghost var j := k;
    while i < |segs|
      invariant k <= j <= |fs| && i == 2 * j + 1
      invariant unsent == |DataOf(fs[..j], sid)| - |DataOf(fs[..k], sid)|
    {
      SegmentAt(fs, sid, j);
      DataAround(fs, sid, j);
      unsent := unsent + |segs[i]|;
      i := i + 2;
      j := j + 1;
    }
    assert fs[..j] == fs;
  }

  // ----- Connection and streams

  /** The output side of a connection. `wire` is what the kernel has accepted and
      `items` what was emitted so far; both are history. */
  class Conn {
    var writeBuf: Bytes
    var writeSent: nat
    var connWindow: int
    ghost var wire: Bytes
    ghost var items: seq<Item>

    /** Bytes on the wire and bytes waiting together are whole emissions. */
    ghost predicate Valid()
      reads this`writeBuf, this`writeSent, this`wire, this`items
    {
      writeSent <= |writeBuf| && AllEncodable(items) && wire + writeBuf[writeSent..] == EncodeAll(items)
    }

    constructor (window: int)
      ensures Valid() && items == [] && wire == [] && writeBuf == [] && connWindow == window
    {
      writeBuf, writeSent, connWindow := [], 0, window;
      wire, items := [], [];
    }

    /** Appends whole frames of any kind to the write buffer. */
    method Append(bytes: Bytes, ghost xs: seq<Item>)
      requires Valid() && AllEncodable(xs) && EncodeAll(xs) == bytes
      modifies this
      ensures Valid() && items == old(items) + xs && writeBuf == old(writeBuf) + bytes
      ensures wire == old(wire) && writeSent == old(writeSent) && connWindow == old(connWindow)
    {
      hide EncodeAll;
      EncodeConcat(items, xs);
      assert (writeBuf + bytes)[writeSent..] == writeBuf[writeSent..] + bytes;
      assert wire + (writeBuf[writeSent..] + bytes) == (wire + writeBuf[writeSent..]) + bytes;
      writeBuf := writeBuf + bytes;
      items := items + xs;
    }

    /** An ordinary flush: the kernel accepts some prefix of what is waiting. */
    method Flush(accept: nat)
      requires Valid()
      modifies this
      ensures Valid() && items == old(items) && connWindow == old(connWindow) && old(wire) <= wire
    {
      hide EncodeAll, AllEncodable;
      var n := if accept < |writeBuf| - writeSent then accept else |writeBuf| - writeSent;
      wire := wire + writeBuf[writeSent..writeSent + n];
      assert wire + writeBuf[writeSent + n..] == old(wire) + writeBuf[writeSent..];
      writeSent := writeSent + n;
      if writeSent == |writeBuf| {
        writeBuf, writeSent := [], 0;
      }
    }
  }

  /** A response being sent. `block` is its encoded header block. */
  class Stream {
    const sid: nat
    const body: Bytes
    const block: Bytes
    var window: int
    var respOff: nat
    var headersSent: bool

    constructor (sid: nat, body: Bytes, block: Bytes, window: int)
      ensures this.sid == sid && this.body == body && this.block == block && this.window == window
      ensures respOff == 0 && !headersSent
    {
      this.sid, this.body, this.block, this.window := sid, body, block, window;
      respOff, headersSent := 0, false;
    }

    /** The stream's DATA on the connection is the body up to `respOff`, behind one
        header block, with END_STREAM where it belongs: on HEADERS if there is no
        body. */
    ghost predicate Sent(items: seq<Item>)
      reads this
    {
      && 0 < sid < 0x8000_0000 && respOff <= |body|
      && DataOf(items, sid) == body[..respOff]
      && EndsRight(items, sid, |body|)
      && HeadsOf(items, sid) == if headersSent then [body == []] else []
    }

    /** So END_STREAM is there once when the response is complete, and not before. */
    lemma EndsOnce(items: seq<Item>)
      requires Sent(items) && AllEncodable(items)
      ensures Ends(items, sid) == if headersSent && respOff == |body| then 1 else 0
    {
      EndsCount(items, sid, |body|);
      if !headersSent { NoHeadNoData(items, sid, |body|); }
      TruesSnoc([], body == []);
      assert [] + [body == []] == [body == []];
    }

    /** `h2DataChunk` */
    function Chunk(connWindow: int, frameLimit: nat): (n: int)
      reads this
      ensures window <= 0 || connWindow <= 0 ==> n == 0
      ensures window > 0 && connWindow > 0 ==>
                && n <= |body| - respOff && n <= window && n <= connWindow && n <= frameLimit
                && n in {|body| - respOff, window, connWindow, frameLimit}
    {
      var avail := if window < connWindow then window else connWindow;
      if avail <= 0 then 0
      else
        var n := if |body| - respOff < avail then |body| - respOff else avail;
        if n < frameLimit then n else frameLimit
    }
  }

  /** No DATA comes before HEADERS. */
  lemma {:induction false} NoHeadNoData(xs: seq<Item>, sid: nat, size: nat)
    requires EndsRight(xs, sid, size) && HeadsOf(xs, sid) == []
    ensures DataOf(xs, sid) == []
  {
    if xs != [] { NoHeadNoData(xs[..|xs| - 1], sid, size); }
  }

  lemma SentAnother(items: seq<Item>, sid: nat, body: Bytes, off: nat, n: nat)
    requires sid < 0x8000_0000 && off + n <= |body| && DataOf(items, sid) == body[..off]
             && EndsRight(items, sid, |body|)
    requires HeadsOf(items, sid) != []
    ensures var x := Data(sid, off + n == |body|, body[off..off + n]);
            DataOf(items + [x], sid) == body[..off + n] && EndsRight(items + [x], sid, |body|)
  {
    var x := Data(sid, off + n == |body|, body[off..off + n]);
    assert (items + [x])[..|items|] == items;
    assert body[..off] + body[off..off + n] == body[..off + n];
  }

  /** `now` adds to `was` only frames of stream `sid`. */
  predicate Adds(was: seq<Item>, now: seq<Item>, sid: nat) {
    was <= now && forall i :: |was| <= i < |now| ==> if now[i].Data? then now[i].sid == sid else now[i].on == sid
  }

  /** What one stream adds does not touch another. */
  lemma {:induction false} OthersUntouched(was: seq<Item>, now: seq<Item>, sid: nat, other: nat, size: nat)
    requires Adds(was, now, sid) && other != sid && EndsRight(was, other, size)
    ensures DataOf(now, other) == DataOf(was, other) && EndsRight(now, other, size)
            && HeadsOf(now, other) == HeadsOf(was, other)
    decreases |now|
  {
    if |now| > |was| {
      OthersUntouched(was, now[..|now| - 1], sid, other, size);
    } else {
      assert now == was;
    }
  }

  /** The CONTINUATION frames of a header block. */
  function MoreItems(rest: Bytes, sid: nat, max: nat): seq<Item>
    requires H2Fragment.Limits(sid, max)
  {
    if |rest| <= max then [Other(CONTINUATION, END_HEADERS, sid, rest)]
    else [Other(CONTINUATION, 0, sid, rest[..max])] + MoreItems(rest[max..], sid, max)
  }

  /** The frames of a header block. */
  function HeadItems(block: Bytes, sid: nat, max: nat, end: bool): seq<Item>
    requires H2Fragment.Limits(sid, max)
  {
    if |block| <= max then [Other(HEADERS, END_HEADERS + Flags(end), sid, block)]
    else [Other(HEADERS, Flags(end), sid, block[..max])] + MoreItems(block[max..], sid, max)
  }

  /** A CONTINUATION frame, or any frame that is neither DATA nor HEADERS. */
  predicate Beside(x: Item) {
    x.Other? && x.typ != HEADERS && x.typ != DATA
  }

  lemma {:induction false} MoreEncode(rest: Bytes, sid: nat, max: nat)
    requires H2Fragment.Limits(sid, max)
    ensures var xs := MoreItems(rest, sid, max);
            && AllEncodable(xs) && EncodeAll(xs) == H2Fragment.Continuations(rest, sid, max)
            && forall i :: 0 <= i < |xs| ==> Beside(xs[i]) && xs[i].on == sid
    decreases |rest|
  {
    hide EncodeAll, Frame;
    if |rest| <= max {
      OneItem(Other(CONTINUATION, END_HEADERS, sid, rest));
    } else {
      var x := Other(CONTINUATION, 0, sid, rest[..max]);
      OneItem(x);
      MoreEncode(rest[max..], sid, max);
      EncodeConcat([x], MoreItems(rest[max..], sid, max));
    }
  }

  /** Those frames are the bytes the header writer puts out. */
  lemma HeadEncodes(block: Bytes, sid: nat, max: nat, end: bool)
    requires H2Fragment.Limits(sid, max)
    ensures var xs := HeadItems(block, sid, max, end);
            && AllEncodable(xs) && EncodeAll(xs) == H2Fragment.Split(block, sid, max, end)
            && xs != [] && xs[0].Other? && xs[0].typ == HEADERS && xs[0].on == sid && (xs[0].flags % 2 == 1 <==> end)
            && forall i :: 0 < i < |xs| ==> Beside(xs[i]) && xs[i].on == sid
  {
    hide EncodeAll, Frame, MoreItems, H2Fragment.Continuations;
    if |block| <= max {
      OneItem(Other(HEADERS, END_HEADERS + Flags(end), sid, block));
    } else {
      var x := Other(HEADERS, Flags(end), sid, block[..max]);
      OneItem(x);
      MoreEncode(block[max..], sid, max);
      EncodeConcat([x], MoreItems(block[max..], sid, max));
    }
  }

  /** Frames that are neither DATA nor HEADERS leave every stream alone. */
  lemma {:induction false} BesideKeeps(items: seq<Item>, xs: seq<Item>, sid: nat, size: nat)
    requires EndsRight(items, sid, size) && forall i :: 0 <= i < |xs| ==> Beside(xs[i])
    ensures DataOf(items + xs, sid) == DataOf(items, sid) && EndsRight(items + xs, sid, size)
    ensures HeadsOf(items + xs, sid) == HeadsOf(items, sid)
  {
    if xs == [] {
      assert items + xs == items;
    } else {
      var n := |xs| - 1;
      assert (items + xs)[..|items| + n] == items + xs[..n];
      BesideKeeps(items, xs[..n], sid, size);
    }
  }

  /** A header block is one HEADERS frame to its stream. */
  lemma HeadItem(items: seq<Item>, xs: seq<Item>, sid: nat, size: nat)
    requires EndsRight(items, sid, size)
    requires xs != [] && xs[0].Other? && xs[0].typ == HEADERS && xs[0].on == sid
    requires forall i :: 0 < i < |xs| ==> Beside(xs[i])
    ensures DataOf(items + xs, sid) == DataOf(items, sid) && EndsRight(items + xs, sid, size)
    ensures HeadsOf(items + xs, sid) == HeadsOf(items, sid) + [xs[0].flags % 2 == 1]
  {
    assert (items + [xs[0]])[..|items|] == items;
    BesideKeeps(items + [xs[0]], xs[1..], sid, size);
    assert (items + [xs[0]]) + xs[1..] == items + xs;
  }

  lemma AddsAll(items: seq<Item>, xs: seq<Item>, sid: nat)
    requires forall i :: 0 <= i < |xs| ==> xs[i].Other? && xs[i].on == sid
    ensures Adds(items, items + xs, sid)
  {
  }

  /** `h2AppendResponseHead` */
  method AppendHead(c: Conn, s: Stream, max: nat)
    requires c.Valid() && s.Sent(c.items) && H2Fragment.Limits(s.sid, max)
    modifies c, s
    ensures c.Valid() && s.Sent(c.items) && Adds(old(c.items), c.items, s.sid)
    ensures s.respOff == old(s.respOff) && s.window == old(s.window) && s.headersSent
    ensures c.connWindow == old(c.connWindow) && c.wire == old(c.wire) && c.writeSent == old(c.writeSent)
    ensures c.items == old(c.items) + if old(s.headersSent) then [] else HeadItems(s.block, s.sid, max, s.body == [])
    ensures c.writeBuf == old(c.writeBuf)
            + if old(s.headersSent) then [] else H2Fragment.Split(s.block, s.sid, max, s.body == [])
  {
    hide DataOf, EndsRight, EncodeAll, HeadItems, H2Fragment.Split, HeadsOf, Encodable, Adds;
    if s.headersSent {
      assert c.writeBuf + [] == c.writeBuf && c.items + [] == c.items;
      AddsAll(c.items, [], s.sid);
      return;
    }
    ghost var xs := HeadItems(s.block, s.sid, max, s.body == []);
    HeadEncodes(s.block, s.sid, max, s.body == []);
    HeadItem(c.items, xs, s.sid, |s.body|);
    AddsAll(c.items, xs, s.sid);
    c.Append(H2Fragment.Split(s.block, s.sid, max, s.body == []), xs);
    s.headersSent := true;
  }

  /** `h2ConsumeData`, after the frame went into the write buffer. */
  method EmitChunk(c: Conn, s: Stream, n: nat)
    requires c.Valid() && s.Sent(c.items) && s.headersSent && 0 < n < 0x100_0000 && s.respOff + n <= |s.body|
    modifies c, s
    ensures c.Valid() && s.Sent(c.items) && Adds(old(c.items), c.items, s.sid) && s.headersSent == old(s.headersSent)
    ensures s.respOff == old(s.respOff) + n && s.window == old(s.window) - n && c.connWindow == old(c.connWindow) - n
    ensures |c.writeBuf| == |old(c.writeBuf)| + HEADER_LEN + n && c.wire == old(c.wire)
  {
    hide Frame, DataOf, EndsRight, EncodeAll, HeadsOf;
    var end := s.respOff + n == |s.body|;
    var payload := s.body[s.respOff..s.respOff + n];
    SentAnother(c.items, s.sid, s.body, s.respOff, n);
    ghost var x := Data(s.sid, end, payload);
    OneItem(x);
    NoHeads(c.items, [x], s.sid);
    c.Append(Frame(DATA, Flags(end), s.sid, payload), [x]);
    s.respOff := s.respOff + n;
    c.connWindow := c.connWindow - n;
    s.window := s.window - n;
  }

  /** `h2AppendWindowed`: frames go into the write buffer until the body, a
      window or the budget is used up. */
  method AppendWindowed(c: Conn, s: Stream, budget: int, frameLimit: nat) returns (done: bool)
    requires c.Valid() && s.Sent(c.items) && 0 < frameLimit < 0x100_0000
    modifies c, s
    ensures c.Valid() && s.Sent(c.items) && Adds(old(c.items), c.items, s.sid) && s.headersSent
    ensures s.respOff >= old(s.respOff) && c.wire == old(c.wire)
    ensures s.window == old(s.window) - (s.respOff - old(s.respOff))
    ensures c.connWindow == old(c.connWindow) - (s.respOff - old(s.respOff))
    ensures s.respOff > old(s.respOff) ==> s.window >= 0 && c.connWindow >= 0
    ensures done <==> s.respOff == |s.body|
    ensures !done ==> s.window <= 0 || c.connWindow <= 0 || |c.writeBuf| >= |old(c.writeBuf)| + budget
  {
    hide DataOf, EndsRight, EncodeAll, HeadsOf, HeadItems, H2Fragment.Split;
    var limit := |c.writeBuf| + budget;
    AppendHead(c, s, frameLimit);
    while s.respOff < |s.body| && |c.writeBuf| < limit
      invariant c.Valid() && s.Sent(c.items) && Adds(old(c.items), c.items, s.sid) && s.headersSent
      invariant old(s.respOff) <= s.respOff && c.wire == old(c.wire)
      invariant s.window == old(s.window) - (s.respOff - old(s.respOff))
      invariant c.connWindow == old(c.connWindow) - (s.respOff - old(s.respOff))
      invariant s.respOff > old(s.respOff) ==> s.window >= 0 && c.connWindow >= 0
      decreases |s.body| - s.respOff
    {
      var n := s.Chunk(c.connWindow, frameLimit);
      if n <= 0 { break; }
      EmitChunk(c, s, n);
    }
    done := s.respOff >= |s.body|;
  }

  lemma EncodedPrefix(fs: seq<Item>, k: nat)
    requires AllEncodable(fs) && k <= |fs|
    ensures Encoded(fs)[..k] == Encoded(fs[..k])
  {
  }

  /** `h2SendFrames`: pending output and the planned frames go out in one
      vectored write of which the kernel accepts some prefix. The first `k`
      frames count as emitted, the rest is taken back: offset and both windows
      are as if those frames had never been made. */
  method SendFrames(c: Conn, s: Stream, hdrs: Bytes, data: Bytes, accept: nat, ghost fs: seq<Item>)
    returns (ghost k: nat, ghost refused: nat)
    requires c.Valid() && AllData(fs, s.sid) && hdrs == Headers(fs) && data == DataOf(fs, s.sid) && |data| <= s.respOff
    modifies c, s
    ensures k <= |fs| && c.Valid() && c.items == old(c.items) + fs[..k]
    ensures s.respOff == old(s.respOff) - (|data| - |DataOf(fs[..k], s.sid)|)
    ensures s.window == old(s.window) + (|data| - |DataOf(fs[..k], s.sid)|)
    ensures c.connWindow == old(c.connWindow) + (|data| - |DataOf(fs[..k], s.sid)|)
    ensures s.headersSent == old(s.headersSent) && old(c.wire) <= c.wire
    ensures |c.wire| == |old(c.wire)| + |old(c.writeBuf)| - old(c.writeSent) + |hdrs| + |data| - refused
    ensures refused == 0 ==> k == |fs|
  {
    hide DataOf, Segments, Headers, Encodable, Conn.Valid;
    var segs := CutSegments(hdrs, data, fs, s.sid);
    var from;
    from, k, refused := Writev(c, segs, |hdrs| + |data|, accept, fs, s.sid);
    var unsent := Unsent(segs, from, fs, s.sid, k);
    Shorter(fs, s.sid, k);
    s.respOff := s.respOff - unsent;
    c.connWindow := c.connWindow + unsent;
    s.window := s.window + unsent;
  }

  /** The vectored write itself: `size` bytes of segments behind what was waiting.
      The frame the kernel stopped in goes to the write buffer. */
  method Writev(c: Conn, segs: seq<Bytes>, size: nat, accept: nat, ghost fs: seq<Item>, ghost sid: nat)
    returns (from: nat, ghost k: nat, ghost refused: nat)
    requires c.Valid() && AllData(fs, sid) && segs == Segments(fs) && size == |Headers(fs)| + |DataOf(fs, sid)|
    modifies c
    ensures k <= |fs| && from == 2 * k && c.Valid() && c.items == old(c.items) + fs[..k]
    ensures c.connWindow == old(c.connWindow) && old(c.wire) <= c.wire
    ensures |c.wire| == |old(c.wire)| + |old(c.writeBuf)| - old(c.writeSent) + size - refused
    ensures refused == 0 ==> k == |fs|
  {
    hide DataOf, Segments, Headers, Encodable, EncodeAll, Encoded, Kept, Left, Concat;
    var pending := c.writeBuf[c.writeSent..];
    var total := |pending| + size;
    var sent := if accept < total then accept else total;
    TotalLength(fs, sid);
    EncodedConcat(fs);
    ghost var flat := Concat(Encoded(fs));
    refused := total - sent;
    ghost var was := c.wire;
    c.wire := was + (pending + flat)[..sent];
    if sent < |pending| {
      CutBefore(was, pending, flat, sent);
      assert c.writeBuf[c.writeSent + sent..] == pending[sent..];
      c.writeSent := c.writeSent + sent;
      from, k := 0, 0;
      assert c.items + fs[..0] == c.items;
    } else {
      var took := sent - |pending|;
      var kept;
      kept, from := KeepPartialFrame(segs, took, fs, sid);
      k := Kept(Encoded(fs), took);
      KeptItems(c.items, fs, took, k);
      CutBehind(was, pending, flat, took, kept);
      c.writeBuf, c.writeSent := kept, 0;
      assert kept[0..] == kept;
      c.items := c.items + fs[..k];
    }
  }

  lemma CutBefore(was: Bytes, pending: Bytes, flat: Bytes, n: nat)
    requires n < |pending|
    ensures (was + (pending + flat)[..n]) + pending[n..] == was + pending
  {
    assert (pending + flat)[..n] == pending[..n];
    assert pending[..n] + pending[n..] == pending;
  }

  lemma CutBehind(was: Bytes, pending: Bytes, flat: Bytes, n: nat, kept: Bytes)
    requires n <= |flat|
    ensures (was + (pending + flat)[..|pending| + n]) + kept == (was + pending) + (flat[..n] + kept)
  {
    assert (pending + flat)[..|pending| + n] == pending + flat[..n];
  }

  /** The frames that stay, behind what was emitted before. */
  lemma KeptItems(items: seq<Item>, fs: seq<Item>, took: nat, k: nat)
    requires AllEncodable(items) && AllEncodable(fs) && k == Kept(Encoded(fs), took) && took <= |Concat(Encoded(fs))|
    ensures AllEncodable(items + fs[..k])
    ensures EncodeAll(items + fs[..k]) == EncodeAll(items) + (Concat(Encoded(fs))[..took] + Left(Encoded(fs), took))
    ensures took == |Concat(Encoded(fs))| ==> k == |fs|
  {
    hide Encodable, EncodeAll, Encoded, Kept, Left, Concat;
    CutIsWhole(Encoded(fs), took);
    EncodedPrefix(fs, k);
    EncodedConcat(fs[..k]);
    EncodeConcat(items, fs[..k]);
    KeptAll(Encoded(fs), took);
  }

  lemma Shorter(fs: seq<Item>, sid: nat, k: nat)
    requires k <= |fs|
    ensures |DataOf(fs[..k], sid)| <= |DataOf(fs, sid)|
  {
    DataLonger(fs, sid, k, |fs|);
    assert fs[..|fs|] == fs;
  }

  lemma {:induction false} TotalLength(fs: seq<Item>, sid: nat)
    requires AllData(fs, sid)
    ensures |EncodeAll(fs)| == |Headers(fs)| + |DataOf(fs, sid)|
  {
    if fs != [] { TotalLength(fs[..|fs| - 1], sid); }
  }

  lemma {:induction false} KeptAll(fs: seq<Bytes>, s: nat)
    ensures s >= |Concat(fs)| ==> Kept(fs, s) == |fs|
  {
    if fs != [] && s >= |fs[0]| { KeptAll(fs[1..], s - |fs[0]|); }
  }

  lemma PrefixSent(items: seq<Item>, fs: seq<Item>, sid: nat, body: Bytes, off: nat, k: nat)
    requires k <= |fs| && off <= |body| && DataOf(items + fs, sid) == body[..off] && EndsRight(items + fs, sid, |body|)
    requires AllData(fs, sid)
    ensures |DataOf(fs[..k], sid)| <= |DataOf(fs, sid)| <= off
    ensures DataOf(items + fs[..k], sid) == body[..off - (|DataOf(fs, sid)| - |DataOf(fs[..k], sid)|)]
    ensures EndsRight(items + fs[..k], sid, |body|) && HeadsOf(items + fs[..k], sid) == HeadsOf(items, sid)
  {
    hide DataOf, EndsRight, HeadsOf;
    NoHeads(items, fs[..k], sid);
    DataConcat(items, fs, sid);
    DataConcat(items, fs[..k], sid);
    DataConcat(fs[..k], fs[k..], sid);
    assert fs[..k] + fs[k..] == fs;
    PrefixOfBody(DataOf(items, sid), DataOf(fs[..k], sid), DataOf(fs[k..], sid), body, off);
    EndsPrefix(items + fs, sid, |body|, |items| + k);
    assert (items + fs)[..|items| + k] == items + fs[..k];
  }

  lemma PrefixOfBody(a: Bytes, b: Bytes, r: Bytes, body: Bytes, off: nat)
    requires off <= |body| && a + (b + r) == body[..off]
    ensures |a| + |b| + |r| == off && a + b == body[..|a| + |b|]
  {
    assert (a + (b + r))[..|a| + |b|] == a + b;
  }

  lemma {:induction false} EndsPrefix(xs: seq<Item>, sid: nat, size: nat, k: nat)
    requires EndsRight(xs, sid, size) && k <= |xs|
    ensures EndsRight(xs[..k], sid, size)
    decreases |xs|
  {
    var n := |xs| - 1;
    if k <= n {
      EndsPrefix(xs[..n], sid, size, k);
      assert xs[..n][..k] == xs[..k];
    } else {
      assert xs[..k] == xs;
    }
  }

  /** The planning loop of `h2SendWindowed`: frame headers for as much of the body
      as windows, budget and frame count allow. */
  method Plan(c: Conn, s: Stream, budget: int, frameLimit: nat) returns (hdrs: Bytes, ghost fs: seq<Item>)
    requires c.Valid() && s.Sent(c.items) && s.headersSent && 0 < frameLimit < 0x100_0000
    modifies c`connWindow, s
    ensures AllData(fs, s.sid) && hdrs == Headers(fs) && |fs| <= DIRECT_MAX_FRAMES
    ensures old(s.respOff) <= s.respOff <= |s.body| && DataOf(fs, s.sid) == s.body[old(s.respOff)..s.respOff]
    ensures DataOf(c.items + fs, s.sid) == s.body[..s.respOff] && EndsRight(c.items + fs, s.sid, |s.body|)
    ensures s.window == old(s.window) - (s.respOff - old(s.respOff)) && s.headersSent == old(s.headersSent)
    ensures c.connWindow == old(c.connWindow) - (s.respOff - old(s.respOff))
    ensures s.respOff > old(s.respOff) ==> s.window >= 0 && c.connWindow >= 0
    ensures s.respOff == |s.body| || s.window <= 0 || c.connWindow <= 0 || |fs| == DIRECT_MAX_FRAMES
            || s.respOff - old(s.respOff) + |hdrs| >= budget
  {
    hide DataOf, EndsRight, Headers, FrameHeader, HeadsOf;
    hdrs, fs := [], [];
    var sent := 0;
    var start := s.respOff;
    NoFrames(c.items, s.sid, s.body, start);
    while s.respOff < |s.body| && sent < budget && |hdrs| < DIRECT_MAX_FRAMES * HEADER_LEN
      invariant AllData(fs, s.sid) && hdrs == Headers(fs) && |fs| <= DIRECT_MAX_FRAMES && |hdrs| == |fs| * HEADER_LEN
      invariant start <= s.respOff <= |s.body| && sent == s.respOff - start + |hdrs|
      invariant DataOf(fs, s.sid) == s.body[start..s.respOff]
      invariant DataOf(c.items + fs, s.sid) == s.body[..s.respOff] && EndsRight(c.items + fs, s.sid, |s.body|)
      invariant s.window == old(s.window) - (s.respOff - start)
                && c.connWindow == old(c.connWindow) - (s.respOff - start)
      invariant s.headersSent == old(s.headersSent)
      invariant s.respOff > start ==> s.window >= 0 && c.connWindow >= 0
      decreases |s.body| - s.respOff
    {
      var n := s.Chunk(c.connWindow, frameLimit);
      if n <= 0 { break; }
      var end := s.respOff + n == |s.body|;
      ghost var x := Data(s.sid, end, s.body[s.respOff..s.respOff + n]);
      NoHeads(c.items, fs, s.sid);
      OneMore(c.items, fs, s.sid, s.body, start, s.respOff, n);
      hdrs := hdrs + FrameHeader(DATA, Flags(end), s.sid, n);
      fs := fs + [x];
      sent := sent + HEADER_LEN + n;
      s.respOff := s.respOff + n;
      c.connWindow := c.connWindow - n;
      s.window := s.window - n;
    }
  }

  lemma NoFrames(items: seq<Item>, sid: nat, body: Bytes, off: nat)
    requires off <= |body| && DataOf(items, sid) == body[..off] && EndsRight(items, sid, |body|)
    ensures Headers([]) == [] && DataOf([], sid) == body[off..off]
    ensures DataOf(items + [], sid) == body[..off] && EndsRight(items + [], sid, |body|)
  {
    assert items + [] == items;
  }

  lemma OneMore(items: seq<Item>, fs: seq<Item>, sid: nat, body: Bytes, start: nat, off: nat, n: nat)
    requires sid < 0x8000_0000 && start <= off && off + n <= |body| && 0 < n < 0x100_0000 && AllData(fs, sid)
    requires DataOf(fs, sid) == body[start..off]
    requires DataOf(items + fs, sid) == body[..off] && EndsRight(items + fs, sid, |body|)
             && HeadsOf(items + fs, sid) != []
    ensures var x := Data(sid, off + n == |body|, body[off..off + n]);
            && AllData(fs + [x], sid)
            && Headers(fs + [x]) == Headers(fs) + FrameHeader(DATA, Flags(off + n == |body|), sid, n)
            && DataOf(fs + [x], sid) == body[start..off + n]
            && DataOf(items + (fs + [x]), sid) == body[..off + n] && EndsRight(items + (fs + [x]), sid, |body|)
  {
    hide Headers, DataOf, EndsRight, FrameHeader, HeadsOf;
    var x := Data(sid, off + n == |body|, body[off..off + n]);
    SentAnother(items + fs, sid, body, off, n);
    assert items + (fs + [x]) == (items + fs) + [x];
    AfterFrame(fs, x, sid);
    SliceGrows(body, start, off, off + n);
  }

  lemma AfterFrame(fs: seq<Item>, x: Item, sid: nat)
    requires AllData(fs, sid) && AllData([x], sid)
    ensures AllData(fs + [x], sid) && DataOf(fs + [x], sid) == DataOf(fs, sid) + x.payload
    ensures Headers(fs + [x]) == Headers(fs) + FrameHeader(DATA, Flags(x.end), sid, |x.payload|)
  {
    hide FrameHeader;
    assert [x][0] == x;
    assert (fs + [x])[..|fs|] == fs;
  }

  lemma SliceGrows(s: Bytes, i: nat, j: nat, k: nat)
    requires i <= j <= k <= |s|
    ensures s[i..j] + s[j..k] == s[i..k]
  {
  }

  /** `h2SendWindowed`: whatever the kernel accepts, the stream's DATA stays the
      body up to `respOff`, and both windows drop by exactly what stayed. */
  method SendWindowed(c: Conn, s: Stream, budget: int, frameLimit: nat, accept: nat)
    returns (done: bool, ghost refused: nat, ghost kept: seq<Item>)
    requires c.Valid() && s.Sent(c.items) && 0 < frameLimit < 0x100_0000
    modifies c, s
    ensures c.Valid() && s.Sent(c.items) && Adds(old(c.items), c.items, s.sid) && s.headersSent
    ensures s.respOff >= old(s.respOff) && old(c.wire) <= c.wire
    ensures s.window == old(s.window) - (s.respOff - old(s.respOff))
    ensures c.connWindow == old(c.connWindow) - (s.respOff - old(s.respOff))
    ensures s.respOff > old(s.respOff) ==> s.window >= 0 && c.connWindow >= 0
    ensures done <==> s.respOff == |s.body|
    ensures c.items == old(c.items)
            + (if old(s.headersSent) then [] else HeadItems(s.block, s.sid, frameLimit, s.body == [])) + kept
    ensures AllData(kept, s.sid) && |kept| <= DIRECT_MAX_FRAMES
    ensures !done && refused == 0 ==>
              || s.window <= 0 || c.connWindow <= 0 || |kept| == DIRECT_MAX_FRAMES
              || s.respOff - old(s.respOff) + |kept| * HEADER_LEN >= budget
  {
    hide DataOf, EndsRight, Headers, FrameHeader, EncodeAll, HeadsOf, HeadItems, H2Fragment.Split;
    AppendHead(c, s, frameLimit);
    var start := s.respOff;
    ghost var items := c.items;
    var hdrs, fs := Plan(c, s, budget, frameLimit);
    refused, kept := 0, fs;
    AtLeastOne(fs, s.sid);
    if |hdrs| > 0 {
      ghost var k;
      k, refused := SendFrames(c, s, hdrs, s.body[start..s.respOff], accept, fs);
      PrefixSent(items, fs, s.sid, s.body, start + |DataOf(fs, s.sid)|, k);
      kept := fs[..k];
      assert fs[..|fs|] == fs;
    } else {
      assert c.items + fs == c.items;
    }
    done := s.respOff >= |s.body|;
  }

  lemma {:induction false} AtLeastOne(fs: seq<Item>, sid: nat)
    requires AllData(fs, sid)
    ensures |DataOf(fs, sid)| >= |fs|
    ensures |Headers(fs)| == 0 ==> fs == []
  {
    if fs != [] { AtLeastOne(fs[..|fs| - 1], sid); }
  }

  // ----- Any mix of sends over any run

  datatype Op =
    | Direct(i: nat, budget: int, frameLimit: nat, accept: nat)
    | Buffered(i: nat, budget: int, frameLimit: nat)
    | Write(accept: nat)
    | Control(x: Item)
    | Streamed(sid: nat, data: Bytes, ended: bool, window: int, frameLimit: nat)
    | Credit(n: nat)
    | StreamCredit(i: nat, n: nat)

  /** A control frame is neither DATA nor HEADERS, or belongs to another stream, and
      so does what a streaming writer sends. */
  predicate Usable(op: Op, ss: seq<Stream>) {
    match op
    case Direct(i, _, l, _) => i < |ss| && 0 < l < 0x100_0000
    case Buffered(i, _, l) => i < |ss| && 0 < l < 0x100_0000
    case Control(x) => x.Other? && x.typ != DATA && Encodable(x)
      && (x.typ == HEADERS ==> forall j :: 0 <= j < |ss| ==> ss[j].sid != x.on)
    case Streamed(sid, _, _, _, l) =>
      0 < l < 0x100_0000 && sid < 0x8000_0000 && forall j :: 0 <= j < |ss| ==> ss[j].sid != sid
    case StreamCredit(i, _) => i < |ss|
    case _ => true
  }

  ghost predicate AllSent(items: seq<Item>, ss: seq<Stream>)
    reads ss
  {
    forall i :: 0 <= i < |ss| ==> ss[i].Sent(items)
  }

  predicate Distinct(ss: seq<Stream>)
  {
    forall i, j :: 0 <= i < j < |ss| ==> ss[i].sid != ss[j].sid
  }

  /** One operation on stream `i` leaves every other stream's account intact. */
  lemma StillSent(was: seq<Item>, now: seq<Item>, ss: seq<Stream>, i: nat)
    requires i < |ss| && Distinct(ss) && ss[i].Sent(now) && Adds(was, now, ss[i].sid)
    requires forall j :: 0 <= j < |ss| && j != i ==> ss[j].Sent(was)
    ensures AllSent(now, ss)
  {
    hide DataOf, EndsRight, HeadsOf, Adds;
    forall j | 0 <= j < |ss|
      ensures ss[j].Sent(now)
    {
      if j != i {
        assert ss[j].sid != ss[i].sid;
        OthersUntouched(was, now, ss[i].sid, ss[j].sid, |ss[j].body|);
      }
    }
  }

  /** A frame of no stream here, or of no matter to one. */
  lemma BesideAll(items: seq<Item>, x: Item, ss: seq<Stream>)
    requires AllSent(items, ss)
    requires x.Data? ==> forall j :: 0 <= j < |ss| ==> ss[j].sid != x.sid
    requires x.Other? ==> x.typ != DATA && (x.typ == HEADERS ==> forall j :: 0 <= j < |ss| ==> ss[j].sid != x.on)
    ensures AllSent(items + [x], ss)
  {
    hide DataOf, EndsRight, HeadsOf;
    forall k | 0 <= k < |ss|
      ensures ss[k].Sent(items + [x])
    {
      if x.Data? || x.typ == HEADERS {
        var on := if x.Data? then x.sid else x.on;
        assert Adds(items, items + [x], on);
        OthersUntouched(items, items + [x], on, ss[k].sid, |ss[k].body|);
      } else {
        BesideKeeps(items, [x], ss[k].sid, |ss[k].body|);
      }
    }
  }

  // ----- Windows over a run

  function Sum(a: seq<int>): int {
    if a == [] then 0 else Sum(a[..|a| - 1]) + a[|a| - 1]
  }

  lemma {:induction false} SumUpdate(a: seq<int>, i: nat, v: int)
    requires i < |a|
    ensures Sum(a[i := v]) == Sum(a) - a[i] + v
  {
    var n := |a| - 1;
    if i < n {
      SumUpdate(a[..n], i, v);
      assert a[i := v][..n] == a[..n][i := v];
    } else {
      assert a[i := v][..n] == a[..n];
    }
  }

  /** What the peer has granted to stream `i`, and to the connection. */
  function Granted(ops: seq<Op>, i: nat): nat {
    if ops == [] then 0
    else
      var op := ops[|ops| - 1];
      Granted(ops[..|ops| - 1], i) + if op.StreamCredit? && op.i == i then op.n else 0
  }

  function ConnGranted(ops: seq<Op>): nat {
    if ops == [] then 0
    else
      var op := ops[|ops| - 1];
      ConnGranted(ops[..|ops| - 1]) + if op.Credit? then op.n else 0
  }

  function Offsets(ss: seq<Stream>): (r: seq<int>)
    reads ss
    ensures |r| == |ss|
  {
    seq(|ss|, i requires 0 <= i < |ss| reads ss => ss[i].respOff)
  }

  function Windows(ss: seq<Stream>): (r: seq<int>)
    reads ss
    ensures |r| == |ss|
  {
    seq(|ss|, i requires 0 <= i < |ss| reads ss => ss[i].window)
  }

  function Sids(ss: seq<Stream>): set<nat> {
    set i | 0 <= i < |ss| :: ss[i].sid
  }

  /** How much DATA was sent on streams other than these. */
  function OtherData(xs: seq<Item>, sids: set<nat>): nat {
    if xs == [] then 0
    else
      var x := xs[|xs| - 1];
      OtherData(xs[..|xs| - 1], sids) + if x.Data? && x.sid !in sids then |x.payload| else 0
  }

  lemma {:induction false} OtherSame(xs: seq<Item>, ys: seq<Item>, sids: set<nat>)
    requires forall i :: 0 <= i < |ys| && ys[i].Data? ==> ys[i].sid in sids
    ensures OtherData(xs + ys, sids) == OtherData(xs, sids)
  {
    if ys == [] {
      assert xs + ys == xs;
    } else {
      var n := |ys| - 1;
      assert (xs + ys)[..|xs| + n] == xs + ys[..n];
      OtherSame(xs, ys[..n], sids);
    }
  }

  /** What one stream adds is not sent on others. */
  lemma AddsNoOther(was: seq<Item>, now: seq<Item>, ss: seq<Stream>, i: nat)
    requires i < |ss| && Adds(was, now, ss[i].sid)
    ensures OtherData(now, Sids(ss)) == OtherData(was, Sids(ss))
  {
    hide OtherData;
    var more := now[|was|..];
    assert now == was + more;
    forall k | 0 <= k < |more| && more[k].Data?
      ensures more[k].sid in Sids(ss)
    {
      assert more[k] == now[|was| + k];
    }
    OtherSame(was, more, Sids(ss));
  }

  lemma OtherMore(xs: seq<Item>, x: Item, sids: set<nat>)
    ensures OtherData(xs + [x], sids) == OtherData(xs, sids) + if x.Data? && x.sid !in sids then |x.payload| else 0
  {
    assert (xs + [x])[..|xs|] == xs;
  }

  /** The windows, what each stream has sent, and what others have. */
  datatype Sheet = Sheet(windows: seq<int>, offsets: seq<int>, conn: int, other: nat)

  ghost function SheetOf(c: Conn, ss: seq<Stream>): Sheet
    reads c, ss
  {
    Sheet(Windows(ss), Offsets(ss), c.connWindow, OtherData(c.items, Sids(ss)))
  }

  /** Each window is what it was plus what was granted minus what was sent, and
      none that was open has been overdrawn. */
  ghost predicate Paid(b0: Sheet, b: Sheet, ops: seq<Op>) {
    var w0, o0, w, o := b0.windows, b0.offsets, b.windows, b.offsets;
    && |w0| == |o0| == |w| == |o|
    && (forall i :: 0 <= i < |w| ==> o0[i] <= o[i] && w[i] == w0[i] + Granted(ops, i) - (o[i] - o0[i]))
    && b.conn == b0.conn + ConnGranted(ops) - (Sum(o) - Sum(o0)) - (b.other - b0.other)
    && (forall i :: 0 <= i < |w| && w0[i] >= 0 ==> w[i] >= 0)
    && (b0.conn >= 0 ==> b.conn >= 0)
  }

  lemma PaidNothing(b: Sheet)
    requires |b.windows| == |b.offsets|
    ensures Paid(b, b, [])
  {
  }

  /** One operation more, on stream `i`. */
  lemma PaidStep(b0: Sheet, b: Sheet, ops: seq<Op>, op: Op, i: nat, w1: int, o1: int, c1: int)
    requires Paid(b0, b, ops) && i < |b.windows| && i < |b.offsets| && b.offsets[i] <= o1
    requires w1 == b.windows[i] + (if op.StreamCredit? then op.n else 0) - (o1 - b.offsets[i])
    requires (op.StreamCredit? ==> op.i == i) && !op.Credit?
    requires c1 == b.conn - (o1 - b.offsets[i])
    requires o1 > b.offsets[i] ==> w1 >= 0 && c1 >= 0
    ensures Paid(b0, Sheet(b.windows[i := w1], b.offsets[i := o1], c1, b.other), ops + [op])
  {
    hide Sum, Granted, ConnGranted;
    SumUpdate(b.offsets, i, o1);
    GrantedSnoc(ops, op);
  }

  /** One that changes no stream, with `n` bytes sent elsewhere. */
  lemma PaidBeside(b0: Sheet, b: Sheet, ops: seq<Op>, op: Op, n: nat)
    requires Paid(b0, b, ops) && !op.StreamCredit? && (n > 0 ==> n <= b.conn)
    ensures var c1 := b.conn + (if op.Credit? then op.n else 0) - n;
            Paid(b0, Sheet(b.windows, b.offsets, c1, b.other + n), ops + [op])
  {
    hide Sum, Granted, ConnGranted;
    GrantedSnoc(ops, op);
  }

  lemma GrantedSnoc(ops: seq<Op>, op: Op)
    ensures forall i :: Granted(ops + [op], i) == Granted(ops, i) + if op.StreamCredit? && op.i == i then op.n else 0
    ensures ConnGranted(ops + [op]) == ConnGranted(ops) + if op.Credit? then op.n else 0
  {
    assert (ops + [op])[..|ops|] == ops;
  }

  /** For any mix of direct and buffered sends, streaming writers, flushes and
      control frames, over any number of streams, and whatever lengths the kernel
      accepts: the bytes on the wire and those waiting are whole frames, each
      stream's DATA is its body up to its offset behind one header block, END_STREAM
      on the last byte or on the HEADERS of an empty body, and the windows are paid
      for. */
  method Serve(c: Conn, ss: seq<Stream>, ops: seq<Op>)
    requires c.Valid() && Distinct(ss) && AllSent(c.items, ss)
    requires forall i :: 0 <= i < |ops| ==> Usable(ops[i], ss)
    modifies c, ss
    ensures c.Valid() && AllSent(c.items, ss) && old(c.wire) <= c.wire && old(c.items) <= c.items
    ensures Paid(old(SheetOf(c, ss)), SheetOf(c, ss), ops)
    ensures ReadRaw(c.wire + c.writeBuf[c.writeSent..]) == (RawAll(c.items), [])
  {
    hide Paid, SheetOf, Usable, ReadRaw, Conn.Valid, AllSent;
    ghost var b0 := SheetOf(c, ss);
    Begun(c, ss);
    for k := 0 to |ops|
      invariant c.Valid() && AllSent(c.items, ss) && old(c.wire) <= c.wire && old(c.items) <= c.items
      invariant Paid(b0, SheetOf(c, ss), ops[..k])
    {
      Perform(c, ss, ops[k], b0, ops[..k]);
      assert ops[..k] + [ops[k]] == ops[..k + 1];
    }
    assert ops[..|ops|] == ops;
    Whole(c);
  }

  lemma Begun(c: Conn, ss: seq<Stream>)
    ensures Paid(SheetOf(c, ss), SheetOf(c, ss), [])
  {
    PaidNothing(SheetOf(c, ss));
  }

  lemma Whole(c: Conn)
    requires c.Valid()
    ensures ReadRaw(c.wire + c.writeBuf[c.writeSent..]) == (RawAll(c.items), [])
  {
    hide ReadRaw, EncodeAll, RawOf;
    ReadsBack(c.items);
  }

  method Perform(c: Conn, ss: seq<Stream>, op: Op, ghost b0: Sheet, ghost ops: seq<Op>)
    requires c.Valid() && Distinct(ss) && AllSent(c.items, ss) && Usable(op, ss) && Paid(b0, SheetOf(c, ss), ops)
    modifies c, ss
    ensures c.Valid() && AllSent(c.items, ss) && old(c.wire) <= c.wire && old(c.items) <= c.items
    ensures Paid(b0, SheetOf(c, ss), ops + [op])
  {
    hide Conn.Valid, AllSent, Paid, Usable, SheetOf;
    if op.Direct? || op.Buffered? {
      PerformSend(c, ss, op, b0, ops);
    } else if op.StreamCredit? {
      PerformCredit(c, ss, op, b0, ops);
    } else if op.Control? || op.Streamed? {
      PerformFrame(c, ss, op, b0, ops);
    } else {
      PerformBeside(c, ss, op, b0, ops);
    }
  }

  /** One of the senders, on one of the streams. */
  method PerformSend(c: Conn, ss: seq<Stream>, op: Op, ghost b0: Sheet, ghost ops: seq<Op>)
    requires op.Direct? || op.Buffered?
    requires c.Valid() && Distinct(ss) && AllSent(c.items, ss) && Usable(op, ss) && Paid(b0, SheetOf(c, ss), ops)
    modifies c, ss
    ensures c.Valid() && AllSent(c.items, ss) && old(c.wire) <= c.wire && old(c.items) <= c.items
    ensures Paid(b0, SheetOf(c, ss), ops + [op])
  {
    hide Conn.Valid, Paid, Stream.Sent, HeadItems, Windows, Offsets, OtherData, Sids;
    ghost var b, items := SheetOf(c, ss), c.items;
    Entries(ss);
    var s := ss[op.i];
    if op.Direct? {
      var _, _, _ := SendWindowed(c, s, op.budget, op.frameLimit, op.accept);
    } else {
      var _ := AppendWindowed(c, s, op.budget, op.frameLimit);
    }
    StillSent(items, c.items, ss, op.i);
    AddsNoOther(items, c.items, ss, op.i);
    Others(ss, b.windows, b.offsets, op.i);
    PaidStep(b0, b, ops, op, op.i, s.window, s.respOff, c.connWindow);
  }

  /** An increment for one of the streams. */
  method PerformCredit(c: Conn, ss: seq<Stream>, op: Op, ghost b0: Sheet, ghost ops: seq<Op>)
    requires op.StreamCredit?
    requires c.Valid() && Distinct(ss) && AllSent(c.items, ss) && Usable(op, ss) && Paid(b0, SheetOf(c, ss), ops)
    modifies c, ss
    ensures c.Valid() && AllSent(c.items, ss) && old(c.wire) <= c.wire && old(c.items) <= c.items
    ensures Paid(b0, SheetOf(c, ss), ops + [op])
  {
    hide Conn.Valid, Paid, DataOf, EndsRight, HeadsOf, Windows, Offsets, OtherData, Sids;
    ghost var b := SheetOf(c, ss);
    Entries(ss);
    ss[op.i].window := ss[op.i].window + op.n;
    Others(ss, b.windows, b.offsets, op.i);
    PaidStep(b0, b, ops, op, op.i, ss[op.i].window, ss[op.i].respOff, c.connWindow);
  }

  /** A control frame, or a DATA frame of a streaming writer on another stream: as
      much of its buffer as its own window, that of the connection and the frame
      limit allow. */
  method PerformFrame(c: Conn, ss: seq<Stream>, op: Op, ghost b0: Sheet, ghost ops: seq<Op>)
    requires op.Control? || op.Streamed?
    requires c.Valid() && Distinct(ss) && AllSent(c.items, ss) && Usable(op, ss) && Paid(b0, SheetOf(c, ss), ops)
    modifies c, ss
    ensures c.Valid() && AllSent(c.items, ss) && old(c.wire) <= c.wire && old(c.items) <= c.items
    ensures Paid(b0, SheetOf(c, ss), ops + [op])
  {
    hide Conn.Valid, Paid, AllSent, Windows, Offsets, OtherData, Encode;
    ghost var b := SheetOf(c, ss);
    var n, x := 0, Data(0, false, []);
    if op.Control? {
      x := op.x;
    } else {
      n := Least(|op.data|, op.window, c.connWindow, op.frameLimit);
      if n <= 0 {
        PaidBeside(b0, b, ops, op, 0);
        return;
      }
      x := Data(op.sid, op.ended && n == |op.data|, op.data[..n]);
    }
    BesideAll(c.items, x, ss);
    OneItem(x);
    OtherMore(c.items, x, Sids(ss));
    c.Append(Encode(x), [x]);
    c.connWindow := c.connWindow - n;
    PaidBeside(b0, b, ops, op, n);
  }

  /** A flush, or an increment for the connection. */
  method PerformBeside(c: Conn, ss: seq<Stream>, op: Op, ghost b0: Sheet, ghost ops: seq<Op>)
    requires op.Write? || op.Credit?
    requires c.Valid() && Distinct(ss) && AllSent(c.items, ss) && Usable(op, ss) && Paid(b0, SheetOf(c, ss), ops)
    modifies c, ss
    ensures c.Valid() && AllSent(c.items, ss) && old(c.wire) <= c.wire && old(c.items) <= c.items
    ensures Paid(b0, SheetOf(c, ss), ops + [op])
  {
    hide Paid, AllSent, Windows, Offsets, OtherData, Sids, Conn.Valid;
    ghost var b := SheetOf(c, ss);
    if op.Write? { c.Flush(op.accept); } else { c.connWindow := c.connWindow + op.n; }
    PaidBeside(b0, b, ops, op, 0);
  }

  /** The least of four numbers. */
  function Least(a: int, b: int, c: int, d: int): (n: int)
    ensures n <= a && n <= b && n <= c && n <= d && n in {a, b, c, d}
  {
    var x, y := if a < b then a else b, if c < d then c else d;
    if x < y then x else y
  }

  lemma Entries(ss: seq<Stream>)
    ensures forall j :: 0 <= j < |ss| ==> Windows(ss)[j] == ss[j].window && Offsets(ss)[j] == ss[j].respOff
  {
  }

  /** Only stream `i` has moved. */
  lemma Others(ss: seq<Stream>, w: seq<int>, o: seq<int>, i: nat)
    requires i < |ss| == |w| == |o|
    requires forall j :: 0 <= j < |ss| && j != i ==> ss[j].window == w[j] && ss[j].respOff == o[j]
    ensures Windows(ss) == w[i := ss[i].window] && Offsets(ss) == o[i := ss[i].respOff]
  {
  }
}
