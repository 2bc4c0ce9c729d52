/** Splitting a header block over HEADERS and CONTINUATION frames: in place and
    from the back in core/h2_shared.go, by the simple loop of core/fp_h2.go, and
    the reader of core/epoll_h2_linux_amd64.go that puts it together again. */
module H2Fragment {
  import opened ByteStrings
  import opened H2Frames

  predicate Limits(sid: nat, max: nat) {
    0 < sid < 0x8000_0000 && 0 < max < 0x100_0000
  }

  /** The loop of `h2WriteHeaders` over what does not fit the first frame. */
  function Continuations(rest: Bytes, sid: nat, max: nat): (b: Bytes)
    requires Limits(sid, max)
  {
    if |rest| <= max then Frame(CONTINUATION, END_HEADERS, sid, rest)
    else Frame(CONTINUATION, 0, sid, rest[..max]) + Continuations(rest[max..], sid, max)
  }

  function EndFlag(endStream: bool): Byte {
    if endStream then END_STREAM else 0
  }

  function Split(block: Bytes, sid: nat, max: nat, endStream: bool): Bytes
    requires Limits(sid, max)
  {
    if |block| <= max then Frame(HEADERS, END_HEADERS + EndFlag(endStream), sid, block)
    else Frame(HEADERS, EndFlag(endStream), sid, block[..max]) + Continuations(block[max..], sid, max)
  }

  /** `h2WriteHeaders` */
  method WriteHeaders(block: Bytes, sid: nat, max: nat, endStream: bool) returns (out: Bytes)
    requires Limits(sid, max)
    ensures out == Split(block, sid, max, endStream)
  {
    hide FrameHeader, Frame;
    if |block| <= max { return Frame(HEADERS, END_HEADERS + EndFlag(endStream), sid, block); }
    out := Frame(HEADERS, EndFlag(endStream), sid, block[..max]);
    var rest := block[max..];
    while |rest| > max
      invariant Split(block, sid, max, endStream) == out + Continuations(rest, sid, max)
      decreases |rest|
    {
      out := out + Frame(CONTINUATION, 0, sid, rest[..max]);
      rest := rest[max..];
    }
    out := out + Frame(CONTINUATION, END_HEADERS, sid, rest);
  }

  // ----- In place

  /** How many frames: the block length divided by the limit, rounded up. */
  function FrameCount(n: nat, max: nat): (k: nat)
    requires 0 < max < n
    ensures k >= 2 && (k - 1) * max < n <= k * max
  {
    var k := (n + max - 1) / max;
    assert k * max <= n + max - 1 < (k + 1) * max;
    assert (k - 1) * max < n <= k * max
    by { assert (k + 1) * max == k * max + max; assert (k - 1) * max == k * max - max; }
    assert k >= 2 by { assert n + max - 1 >= 2 * max; }
    k
  }

  /** Copies `n` bytes from `from` to `to`, as Go's copy does when they overlap. */
  method Move(dst: array<Byte>, to: nat, from: nat, n: nat)
    requires to + n <= dst.Length && from + n <= dst.Length
    modifies dst
    ensures dst[to..to + n] == old(dst[from..from + n])
    ensures dst[..to] == old(dst[..to]) && dst[to + n..] == old(dst[to + n..])
  {
    forall k | 0 <= k < n {
      dst[to + k] := dst[from + k];
    }
  }

  method Put(dst: array<Byte>, at: nat, bytes: Bytes)
    requires at + |bytes| <= dst.Length
    modifies dst
    ensures dst[at..at + |bytes|] == bytes
    ensures dst[..at] == old(dst[..at]) && dst[at + |bytes|..] == old(dst[at + |bytes|..])
  {
    forall k | 0 <= k < |bytes| {
      dst[at + k] := bytes[k];
    }
  }

  /** One round of the loop: a chunk moves to its place behind its header, in
      front of the frames already in place. Everything before that header is left
      alone. */
  method PlaceFrame(dst: array<Byte>, frameOff: nat, chunkStart: nat, n: nat, flags: Byte, sid: nat,
                    ghost behind: Bytes)
    requires sid < 0x8000_0000 && n < 0x100_0000
    requires chunkStart + n <= dst.Length && frameOff + HEADER_LEN + n <= dst.Length
    requires dst[frameOff + HEADER_LEN + n..] == behind
    modifies dst
    ensures dst[frameOff..] == Frame(CONTINUATION, flags, sid, old(dst[chunkStart..chunkStart + n])) + behind
    ensures dst[..frameOff] == old(dst[..frameOff])
  {
    hide FrameHeader;
    ghost var chunk := dst[chunkStart..chunkStart + n];
    var at := frameOff + HEADER_LEN;
    Move(dst, at, chunkStart, n);
    assert dst[at..] == chunk + behind by { CutTail(dst[..], at, at + n); }
    CutPrefix(dst[..], old(dst[..]), frameOff, at);
    ghost var was := dst[..];
    Put(dst, frameOff, FrameHeader(CONTINUATION, flags, sid, n));
    CutTail(dst[..], frameOff, at);
    assert dst[at..] == was[at..];
    assert FrameHeader(CONTINUATION, flags, sid, n) + (chunk + behind)
        == (FrameHeader(CONTINUATION, flags, sid, n) + chunk) + behind;
  }

  lemma CutTail(a: Bytes, lo: nat, hi: nat)
    requires lo <= hi <= |a|
    ensures a[lo..] == a[lo..hi] + a[hi..]
  {
  }

  lemma CutPrefix(a: Bytes, b: Bytes, lo: nat, hi: nat)
    requires lo <= hi <= |a| && hi <= |b| && a[..hi] == b[..hi]
    ensures a[..lo] == b[..lo]
  {
    assert a[..lo] == a[..hi][..lo];
  }

  lemma MulMono(a: nat, b: nat, m: nat)
    requires a <= b
    ensures a * m <= b * m
  {
  }

  function ChunkStart(off: nat, max: nat, i: nat): nat {
    off + HEADER_LEN + i * max
  }

  function FrameOff(off: nat, max: nat, i: nat): nat {
    off + i * (HEADER_LEN + max)
  }

  /** Where chunk `i` of the block lies before it moves, and where frame `i`
      begins afterwards; for `i == frames`, where the last one ends. */
  function ChunkAt(off: nat, end: nat, max: nat, i: nat, frames: nat): int {
    if i == frames then end else ChunkStart(off, max, i)
  }

  function FrameAt(off: nat, end: nat, max: nat, i: nat, frames: nat): int {
    if i == frames then end + (frames - 1) * HEADER_LEN else FrameOff(off, max, i)
  }

  /** Frame `i` begins behind every chunk that has yet to move, and is exactly as
      long as its header and its chunk. */
  lemma Layout(off: nat, end: nat, max: nat, i: nat, frames: nat)
    requires 0 < max && off + HEADER_LEN + max < end && frames == FrameCount(end - off - HEADER_LEN, max)
             && 0 < i < frames
    ensures var c, d := ChunkAt(off, end, max, i, frames), ChunkAt(off, end, max, i + 1, frames);
            var f, g := FrameAt(off, end, max, i, frames), FrameAt(off, end, max, i + 1, frames);
            && off + HEADER_LEN + max <= c < d <= end && d - c <= max && c <= f
            && g == f + HEADER_LEN + (d - c) && g <= end + (frames - 1) * HEADER_LEN
            && d - c == (if i == frames - 1 then end - c else max)
            && c - (off + HEADER_LEN) == i * max
  {
    MulMono(1, i, max);
    assert i * (HEADER_LEN + max) == i * HEADER_LEN + i * max;
    assert (i + 1) * (HEADER_LEN + max) == (i + 1) * HEADER_LEN + (i + 1) * max;
    assert (i + 1) * max == i * max + max;
    if i < frames - 1 {
      MulMono(i + 1, frames - 1, max);
    }
  }

  /** The chunks from `i` on, as the simple loop writes them. */
  function Tail(block: Bytes, sid: nat, max: nat, i: nat): Bytes
    requires Limits(sid, max)
  {
    if i * max >= |block| then [] else Continuations(block[i * max..], sid, max)
  }

  /** Frame `i` in front of the frames behind it. */
  lemma FrontFrame(block: Bytes, sid: nat, max: nat, i: nat, frames: nat, n: nat)
    requires Limits(sid, max) && max < |block| && frames == FrameCount(|block|, max) && 0 < i < frames
    requires n == if i == frames - 1 then |block| - i * max else max
    ensures i * max + n <= |block| && n <= max
    ensures Tail(block, sid, max, i)
            == Frame(CONTINUATION, if i == frames - 1 then END_HEADERS else 0, sid, block[i * max..i * max + n])
               + Tail(block, sid, max, i + 1)
  {
    MulMono(i, frames - 1, max);
    assert (i + 1) * max == i * max + max;
    var rest := block[i * max..];
    if i < frames - 1 {
      MulMono(i + 1, frames - 1, max);
      assert rest[..max] == block[i * max..i * max + n];
      assert rest[max..] == block[(i + 1) * max..];
    } else {
      assert rest == block[i * max..i * max + n];
    }
  }

  /** The loop of `fragmentH2HeadersFrame`: frames are placed from the last to
      the second; the first chunk stays where it is. */
  method SpreadOut(dst: array<Byte>, off: nat, end: nat, max: nat, frames: nat, sid: nat, ghost block: Bytes)
    requires Limits(sid, max) && off + HEADER_LEN + max < end <= dst.Length
    requires block == dst[off + HEADER_LEN..end] && frames == FrameCount(|block|, max)
    requires dst.Length == end + (frames - 1) * HEADER_LEN
    modifies dst
    ensures dst[..off + HEADER_LEN + max] == old(dst[..off + HEADER_LEN + max])
    ensures dst[off + HEADER_LEN + max..] == Continuations(block[max..], sid, max)
  {
    hide FrameCount, Tail, ChunkAt, FrameAt, Continuations, Placed;
    ghost var was := dst[..];
    var i := frames - 1;
    StartPlaced(was, off, end, max, frames, sid, block);
    while i > 0
      invariant 0 <= i < frames && Placed(dst[..], was, off, end, max, i + 1, frames, sid, block)
    {
      Round(dst, off, end, max, i, frames, sid, was, block);
      i := i - 1;
    }
    AllPlaced(dst[..], was, off, end, max, frames, sid, block);
  }

  /** Chunks before `i` are where they were, frames from `i` on are in place. */
  ghost predicate Placed(a: Bytes, was: Bytes, off: nat, end: nat, max: nat, i: nat, frames: nat, sid: nat,
                         block: Bytes)
    requires Limits(sid, max)
  {
    var c, f := ChunkAt(off, end, max, i, frames), FrameAt(off, end, max, i, frames);
    && off + HEADER_LEN + max <= c <= end && end <= |was| && c <= f <= |a|
    && a[..c] == was[..c] && a[f..] == Tail(block, sid, max, i)
  }

  lemma StartPlaced(was: Bytes, off: nat, end: nat, max: nat, frames: nat, sid: nat, block: Bytes)
    requires Limits(sid, max) && max < |block| && end == off + HEADER_LEN + |block|
             && frames == FrameCount(|block|, max)
    requires |was| == end + (frames - 1) * HEADER_LEN
    ensures frames >= 1 && Placed(was, was, off, end, max, frames, frames, sid, block)
  {
    Ends(off, end, block, sid, max, frames);
    assert was[|was|..] == [];
  }

  lemma AllPlaced(a: Bytes, was: Bytes, off: nat, end: nat, max: nat, frames: nat, sid: nat, block: Bytes)
    requires Limits(sid, max) && max < |block| && end == off + HEADER_LEN + |block|
             && frames == FrameCount(|block|, max)
    requires Placed(a, was, off, end, max, 1, frames, sid, block)
    ensures off + HEADER_LEN + max <= |a| && off + HEADER_LEN + max <= |was|
    ensures a[..off + HEADER_LEN + max] == was[..off + HEADER_LEN + max]
    ensures a[off + HEADER_LEN + max..] == Continuations(block[max..], sid, max)
  {
    Ends(off, end, block, sid, max, frames);
  }

  /** One round of the loop. */
  method Round(dst: array<Byte>, off: nat, end: nat, max: nat, i: nat, frames: nat, sid: nat, ghost was: Bytes,
               ghost block: Bytes)
    requires Limits(sid, max) && end == off + HEADER_LEN + |block| && max < |block| && end <= |was|
             && block == was[off + HEADER_LEN..end]
    requires frames == FrameCount(|block|, max) && 0 < i < frames && end <= dst.Length
    requires Placed(dst[..], was, off, end, max, i + 1, frames, sid, block)
    modifies dst
    ensures Placed(dst[..], was, off, end, max, i, frames, sid, block)
  {
    hide FrameCount, Tail, ChunkAt, FrameAt, ChunkStart, FrameOff, Continuations, Frame;
    RoundLayout(off, end, max, i, frames, sid, block);
    var chunkStart := ChunkStart(off, max, i);
    var chunkLen := if max < end - chunkStart then max else end - chunkStart;
    var frameOff := FrameOff(off, max, i);
    MoveChunk(dst, frameOff, chunkStart, chunkLen, if i == frames - 1 then END_HEADERS else 0, sid,
              was, off + HEADER_LEN, chunkStart + chunkLen, end, block, Tail(block, sid, max, i + 1));
  }

  /** Everything one round needs to know about its places. */
  lemma RoundLayout(off: nat, end: nat, max: nat, i: nat, frames: nat, sid: nat, block: Bytes)
    requires Limits(sid, max) && end == off + HEADER_LEN + |block| && max < |block|
    requires frames == FrameCount(|block|, max) && 0 < i < frames
    ensures var c, f := ChunkStart(off, max, i), FrameOff(off, max, i);
            var n := if max < end - c then max else end - c;
            && c == ChunkAt(off, end, max, i, frames) && f == FrameAt(off, end, max, i, frames)
            && off + HEADER_LEN + max <= c <= f && 0 < n <= max
            && c + n == ChunkAt(off, end, max, i + 1, frames) <= end
            && f + HEADER_LEN + n == FrameAt(off, end, max, i + 1, frames)
            && Tail(block, sid, max, i)
               == Frame(CONTINUATION, if i == frames - 1 then END_HEADERS else 0, sid,
                        block[c - off - HEADER_LEN..c - off - HEADER_LEN + n])
                  + Tail(block, sid, max, i + 1)
  {
    hide Tail, Frame, FrameCount;
    var c := ChunkStart(off, max, i);
    var n := if max < end - c then max else end - c;
    Layout(off, end, max, i, frames);
    FrontFrame(block, sid, max, i, frames, n);
  }

  /** One round, against the buffer as it was before the first. */
  method MoveChunk(dst: array<Byte>, frameOff: nat, start: nat, n: nat, flags: Byte, sid: nat,
                   ghost was: Bytes, ghost lo: nat, ghost hi: nat, ghost end: nat, ghost block: Bytes,
                   ghost behind: Bytes)
    requires sid < 0x8000_0000 && n < 0x100_0000
    requires lo <= start <= frameOff && start + n == hi && hi <= end && end <= |was| && end <= dst.Length
    requires frameOff + HEADER_LEN + n <= dst.Length && dst[..][frameOff + HEADER_LEN + n..] == behind
    requires dst[..][..hi] == was[..hi] && block == was[lo..end]
    modifies dst
    ensures dst[..][frameOff..] == Frame(CONTINUATION, flags, sid, block[start - lo..start - lo + n]) + behind
    ensures dst[..][..start] == was[..start]
  {
    hide Frame;
    assert dst[..hi] == dst[..][..hi] && dst[frameOff + HEADER_LEN + n..] == dst[..][frameOff + HEADER_LEN + n..];
    ChunkInPlace(dst[..], was, lo, start, n, hi, end, block);
    CutPrefix(dst[..], was, start, hi);
    ghost var mid := dst[..];
    PlaceFrame(dst, frameOff, start, n, flags, sid, behind);
    CutPrefix(dst[..], mid, start, frameOff);
    assert dst[..][frameOff..] == dst[frameOff..];
  }

  /** A chunk that has yet to move is where the block left it. */
  lemma ChunkInPlace(a: Bytes, was: Bytes, lo: nat, start: nat, n: nat, hi: nat, end: nat, block: Bytes)
    requires lo <= start && start + n <= hi <= end && end <= |a| && end <= |was|
    requires a[..hi] == was[..hi] && block == was[lo..end]
    ensures a[start..start + n] == block[start - lo..start - lo + n]
  {
    forall j | start <= j < start + n
      ensures a[j] == was[j] && was[j] == block[j - lo]
    {
      assert a[..hi][j] == was[..hi][j];
    }
  }

  lemma SameSlice(a: Bytes, b: Bytes, lo: nat, hi: nat, end: nat, block: Bytes)
    requires lo <= hi <= end && end <= |a| && end <= |b| && a[..hi] == b[..hi] && block == b[lo..end]
    ensures a[lo..hi] == block[..hi - lo]
  {
    assert a[lo..hi] == a[..hi][lo..];
  }

  /** A HEADERS frame header, but for its length field, which may hold anything. */
  predicate HeadersAt(a: Bytes, off: nat, sid: nat, endStream: bool)
    requires sid < 0x8000_0000
  {
    && off + HEADER_LEN <= |a|
    && a[off + 3..off + HEADER_LEN] == FrameHeader(HEADERS, END_HEADERS + EndFlag(endStream), sid, 0)[3..]
  }

  /** `fragmentH2HeadersFrame`. `dst` has already been grown: its first `end`
      bytes hold earlier output, a HEADERS frame header at `off` and the block.
      The block is spread out over frames from the back, without a second buffer,
      and the result is what the simple splitter writes. */
  method FragmentInPlace(dst: array<Byte>, off: nat, end: nat, max: nat, ghost sid: nat, ghost endStream: bool)
    requires Limits(sid, max) && off + HEADER_LEN + max < end <= dst.Length
    requires dst.Length == end + (FrameCount(end - off - HEADER_LEN, max) - 1) * HEADER_LEN
    requires HeadersAt(dst[..], off, sid, endStream)
    modifies dst
    ensures dst[..] == old(dst[..off]) + Split(old(dst[off + HEADER_LEN..end]), sid, max, endStream)
  {
    hide Continuations, FrameHeader, FrameCount;
    var id, flags := ReadHeader(dst, off, sid, endStream);
    var frames := FrameCount(end - off - HEADER_LEN, max);
    ghost var block, was := dst[off + HEADER_LEN..end], dst[..];
    SpreadOut(dst, off, end, max, frames, id, block);
    ghost var mid := off + HEADER_LEN + max;
    SameSlice(dst[..], was, off + HEADER_LEN, mid, end, block);
    CutPrefix(dst[..], was, off, mid);
    ghost var spread := dst[..];
    Put(dst, off, FrameHeader(HEADERS, flags, id, max));
    Assembled(dst[..], spread, off, max, block, FrameHeader(HEADERS, flags, id, max),
              Continuations(block[max..], id, max));
  }

  /** Header, first chunk and the frames behind it, in front of which nothing
      changed. */
  lemma Assembled(now: Bytes, spread: Bytes, off: nat, max: nat, block: Bytes, head: Bytes, more: Bytes)
    requires |head| == HEADER_LEN && max <= |block| && off + HEADER_LEN + max <= |spread| == |now|
    requires spread[off + HEADER_LEN..off + HEADER_LEN + max] == block[..max]
    requires spread[off + HEADER_LEN + max..] == more
    requires now[..off] == spread[..off] && now[off..off + HEADER_LEN] == head
    requires now[off + HEADER_LEN..] == spread[off + HEADER_LEN..]
    ensures now == spread[..off] + ((head + block[..max]) + more)
  {
    var at := off + HEADER_LEN;
    assert spread[at..] == spread[at..at + max] + spread[at + max..];
    assert now == now[..off] + (now[off..at] + now[at..]);
    assert head + (block[..max] + more) == (head + block[..max]) + more;
  }

  /** `finishH2HeadersFrame`: a block within the limit only gets its length written,
      a longer one is split in a buffer grown for it. */
  method FinishHeaders(dst: array<Byte>, off: nat, max: nat, ghost sid: nat, ghost endStream: bool)
    returns (out: array<Byte>)
    requires Limits(sid, max) && HeadersAt(dst[..], off, sid, endStream)
    modifies dst
    ensures out == dst || fresh(out)
    ensures out[..] == old(dst[..off]) + Split(old(dst[off + HEADER_LEN..]), sid, max, endStream)
  {
    hide Continuations, FrameHeader, FrameCount, Frame;
    var end := dst.Length;
    var n := end - off - HEADER_LEN;
    if n > max {
      out := Grown(dst, (FrameCount(n, max) - 1) * HEADER_LEN);
      StillHeaders(dst[..], out[..], off, sid, endStream);
      assert out[off + HEADER_LEN..end] == dst[off + HEADER_LEN..] && out[..off] == dst[..off];
      FragmentInPlace(out, off, end, max, sid, endStream);
    } else {
      out := dst;
      ghost var was := dst[..];
      Put(dst, off, LengthField(n));
      LengthWritten(was, dst[..], off, n, sid, endStream);
    }
  }

  /** `putH2FrameLength` */
  function LengthField(n: nat): (b: Bytes)
    requires n < 0x100_0000
    ensures |b| == 3
  {
    [n / 65536, n / 256 % 256, n % 256]
  }

  /** `slices.Grow` and the longer slice of it: the same bytes with room behind. */
  method Grown(dst: array<Byte>, more: nat) returns (out: array<Byte>)
    ensures fresh(out) && out.Length == dst.Length + more && out[..dst.Length] == dst[..]
  {
    out := new Byte[dst.Length + more](_ => 0);
    forall k | 0 <= k < dst.Length {
      out[k] := dst[k];
    }
  }

  lemma StillHeaders(a: Bytes, b: Bytes, off: nat, sid: nat, endStream: bool)
    requires sid < 0x8000_0000 && HeadersAt(a, off, sid, endStream) && |a| <= |b| && b[..|a|] == a
    ensures HeadersAt(b, off, sid, endStream)
  {
    assert b[off + 3..off + HEADER_LEN] == b[..|a|][off + 3..off + HEADER_LEN];
  }

  lemma LengthWritten(was: Bytes, now: Bytes, off: nat, n: nat, sid: nat, endStream: bool)
    requires sid < 0x8000_0000 && HeadersAt(was, off, sid, endStream) && n < 0x100_0000
    requires |now| == |was| == off + HEADER_LEN + n && now[..off] == was[..off]
    requires now[off..off + 3] == LengthField(n) && now[off + 3..] == was[off + 3..]
    ensures now == was[..off] + Frame(HEADERS, END_HEADERS + EndFlag(endStream), sid, was[off + HEADER_LEN..])
  {
    var h := FrameHeader(HEADERS, END_HEADERS + EndFlag(endStream), sid, n);
    assert was[off + HEADER_LEN..] == was[off + 3..][6..] && now[off + HEADER_LEN..] == now[off + 3..][6..];
    assert now[off + 3..off + HEADER_LEN] == now[off + 3..][..6];
    assert was[off + 3..off + HEADER_LEN] == was[off + 3..][..6];
    assert now[off..off + HEADER_LEN] == now[off..off + 3] + now[off + 3..off + HEADER_LEN] == h;
    assert now == now[..off] + (now[off..off + HEADER_LEN] + now[off + HEADER_LEN..]);
  }

  /** `appendH2HeaderBlockFrame`: a block encoded earlier, behind the table update
      that is still to be announced, if there is one. */
  method AppendHeaderBlock(dst: array<Byte>, sid: nat, endStream: bool, update: Bytes, block: Bytes, max: nat)
    returns (out: array<Byte>)
    requires Limits(sid, max)
    ensures out[..] == dst[..] + Split(update + block, sid, max, endStream)
  {
    hide Split, FrameHeader;
    var off := dst.Length;
    var length := if update == [] then |block| % 0x100_0000 else 0;
    var head := FrameHeader(HEADERS, END_HEADERS + EndFlag(endStream), sid, length);
    var buf := Grown(dst, HEADER_LEN + |update| + |block|);
    Put(buf, off, head + update + block);
    assert buf[off..] == head + update + block && buf[..off] == dst[..];
    assert buf[off + HEADER_LEN..] == update + block && buf[off..off + HEADER_LEN] == head;
    AnyLength(buf[..], off, sid, endStream, length);
    out := FinishHeaders(buf, off, max, sid, endStream);
  }

  lemma AnyLength(a: Bytes, off: nat, sid: nat, endStream: bool, n: nat)
    requires sid < 0x8000_0000 && n < 0x100_0000 && off + HEADER_LEN <= |a|
    requires a[off..off + HEADER_LEN] == FrameHeader(HEADERS, END_HEADERS + EndFlag(endStream), sid, n)
    ensures HeadersAt(a, off, sid, endStream)
  {
    assert a[off + 3..off + HEADER_LEN] == a[off..off + HEADER_LEN][3..];
  }

  lemma Ends(off: nat, end: nat, block: Bytes, sid: nat, max: nat, frames: nat)
    requires Limits(sid, max) && max < |block| && end == off + HEADER_LEN + |block|
             && frames == FrameCount(|block|, max)
    ensures frames >= 2 && Tail(block, sid, max, frames) == []
            && Tail(block, sid, max, 1) == Continuations(block[max..], sid, max)
    ensures ChunkAt(off, end, max, frames, frames) == end && ChunkAt(off, end, max, 1, frames) == off + HEADER_LEN + max
    ensures FrameAt(off, end, max, frames, frames) == end + (frames - 1) * HEADER_LEN
    ensures FrameAt(off, end, max, 1, frames) == off + HEADER_LEN + max
  {
    assert 1 * max == max;
  }

  /** The stream and the flags, read back from the frame header. */
  method ReadHeader(dst: array<Byte>, off: nat, ghost sid: nat, ghost endStream: bool) returns (id: nat, flags: Byte)
    requires sid < 0x8000_0000 && HeadersAt(dst[..], off, sid, endStream)
    ensures id == sid && flags == EndFlag(endStream)
  {
    var h := dst[off + 3..off + HEADER_LEN];
    assert h == dst[..][off + 3..off + HEADER_LEN];
    id := Num(h[2]) * 0x100_0000 + Num(h[3]) * 65536 + Num(h[4]) * 256 + Num(h[5]);
    Bytes4(sid);
    flags := h[1] - END_HEADERS;
  }

  // ----- The reader

  /** Header assembly of one connection: between blocks, or inside one. */
  datatype Reader = Idle | Expecting(sid: nat, endStream: bool, accum: Bytes)

  datatype Fault = ProtocolError | FrameSizeError | EnhanceYourCalm

  datatype Progress =
    | Waiting(reader: Reader)
    | Block(sid: nat, endStream: bool, block: Bytes)
    | Refused(fault: Fault)

  predicate Bit(flags: Byte, bit: Byte)
    requires bit > 0
  {
    flags / bit % 2 == 1
  }

  datatype Stripped = Plain(payload: Bytes) | Bad(fault: Fault)

  /** Removes padding and priority from a HEADERS payload. */
  function StripHeaders(flags: Byte, payload: Bytes): Stripped {
    var padded := Bit(flags, 8);
    if padded && payload == [] then Bad(FrameSizeError)
    else if padded && Num(payload[0]) > |payload| - 1 then Bad(ProtocolError)
    else
      var p := if padded then payload[1..|payload| - Num(payload[0])] else payload;
      if !Bit(flags, 32) then Plain(p) else if |p| < 5 then Bad(FrameSizeError) else Plain(p[5..])
  }

  /** `epollH2Headers` and `epollH2Continuation`, up to the decoded block; frames
      of other types outside a block leave the assembly alone. */
  function OnFrame(r: Reader, typ: Byte, flags: Byte, sid: nat, payload: Bytes, listLimit: nat): Progress {
    match r
    case Expecting(want, endStream, accum) =>
      if typ != CONTINUATION || sid != want then Refused(ProtocolError)
      else if |accum + payload| > listLimit * 4 then Refused(EnhanceYourCalm)
      else if !Bit(flags, END_HEADERS) then Waiting(Expecting(want, endStream, accum + payload))
      else Block(want, endStream, accum + payload)
    case Idle =>
      if typ == CONTINUATION || (typ == HEADERS && sid == 0) then Refused(ProtocolError)
      else if typ != HEADERS then Waiting(Idle)
      else match StripHeaders(flags, payload)
        case Bad(fault) => Refused(fault)
        case Plain(p) =>
          if !Bit(flags, END_HEADERS) then Waiting(Expecting(sid, Bit(flags, END_STREAM), p))
          else Block(sid, Bit(flags, END_STREAM), p)
  }

  /** The frame loop of `epollProcessH2Frames`, until a block is complete; the
      second result is what follows it. */
  function ReadFrames(r: Reader, b: Bytes, frameLimit: nat, listLimit: nat): (Progress, Bytes)
    decreases |b|
  {
    if |b| < HEADER_LEN then (Waiting(r), b)
    else if PayloadLen(b) > frameLimit then (Refused(FrameSizeError), b)
    else if |b| < HEADER_LEN + PayloadLen(b) then (Waiting(r), b)
    else
      var end := HEADER_LEN + PayloadLen(b);
      var q := OnFrame(r, b[3], b[4], StreamId(b), b[HEADER_LEN..end], listLimit);
      if q.Waiting? then ReadFrames(q.reader, b[end..], frameLimit, listLimit) else (q, b[end..])
  }

  lemma FrameReads(r: Reader, typ: Byte, flags: Byte, sid: nat, payload: Bytes, rest: Bytes, frameLimit: nat,
                   listLimit: nat)
    requires |payload| <= frameLimit < 0x100_0000 && sid < 0x8000_0000
    ensures var q := OnFrame(r, typ, flags, sid, payload, listLimit);
            ReadFrames(r, Frame(typ, flags, sid, payload) + rest, frameLimit, listLimit)
            == if q.Waiting? then ReadFrames(q.reader, rest, frameLimit, listLimit) else (q, rest)
  {
    hide OnFrame, FrameHeader, StreamId, PayloadLen;
    var b := Frame(typ, flags, sid, payload) + rest;
    assert b == FrameHeader(typ, flags, sid, |payload|) + (payload + rest);
    HeaderReads(typ, flags, sid, |payload|, payload + rest);
    assert b[HEADER_LEN..HEADER_LEN + |payload|] == payload;
    assert b[HEADER_LEN + |payload|..] == rest;
  }

  lemma {:induction false} ContinuationsRead(part: Bytes, tail: Bytes, sid: nat, endStream: bool, max: nat,
                                             rest: Bytes, frameLimit: nat, listLimit: nat)
    requires Limits(sid, max) && max <= frameLimit < 0x100_0000
    ensures ReadFrames(Expecting(sid, endStream, part), Continuations(tail, sid, max) + rest, frameLimit, listLimit).0
            == if |part + tail| > listLimit * 4 then Refused(EnhanceYourCalm) else Block(sid, endStream, part + tail)
    ensures |part + tail| <= listLimit * 4 ==>
              ReadFrames(Expecting(sid, endStream, part), Continuations(tail, sid, max) + rest, frameLimit,
                listLimit).1 == rest
    decreases |tail|
  {
    hide FrameHeader, ReadFrames, Frame;
    var r := Expecting(sid, endStream, part);
    if |tail| <= max {
      FrameReads(r, CONTINUATION, END_HEADERS, sid, tail, rest, frameLimit, listLimit);
    } else {
      var more := Continuations(tail[max..], sid, max) + rest;
      assert Continuations(tail, sid, max) + rest == Frame(CONTINUATION, 0, sid, tail[..max]) + more;
      FrameReads(r, CONTINUATION, 0, sid, tail[..max], more, frameLimit, listLimit);
      assert part + tail[..max] + tail[max..] == part + tail;
      ContinuationsRead(part + tail[..max], tail[max..], sid, endStream, max, rest, frameLimit, listLimit);
    }
  }

  lemma PlainHeaders(endStream: bool, payload: Bytes, more: bool)
    ensures var flags := EndFlag(endStream) + (if more then 0 else END_HEADERS);
            StripHeaders(flags, payload) == Plain(payload) && Bit(flags, END_STREAM) == endStream
              && Bit(flags, END_HEADERS) == !more
  {
  }

  /** The reader takes what either splitter wrote, whatever follows on the
      connection, back to the block and its END_STREAM flag; no frame is over
      the limit. It refuses exactly when the block needed CONTINUATION frames and
      is longer than four times the list limit. */
  lemma SplitReassembles(block: Bytes, sid: nat, max: nat, endStream: bool, rest: Bytes, frameLimit: nat,
                         listLimit: nat)
    requires Limits(sid, max) && max <= frameLimit < 0x100_0000
    ensures var got := ReadFrames(Idle, Split(block, sid, max, endStream) + rest, frameLimit, listLimit);
            if |block| <= max || |block| <= listLimit * 4 then got == (Block(sid, endStream, block), rest)
            else got.0 == Refused(EnhanceYourCalm)
  {
    hide FrameHeader, ReadFrames, Continuations, StripHeaders, Bit, Frame;
    if |block| <= max {
      PlainHeaders(endStream, block, false);
      FrameReads(Idle, HEADERS, END_HEADERS + EndFlag(endStream), sid, block, rest, frameLimit, listLimit);
    } else {
      var first, tail := block[..max], block[max..];
      var more := Continuations(tail, sid, max) + rest;
      assert Split(block, sid, max, endStream) + rest == Frame(HEADERS, EndFlag(endStream), sid, first) + more;
      PlainHeaders(endStream, first, true);
      FrameReads(Idle, HEADERS, EndFlag(endStream), sid, first, more, frameLimit, listLimit);
      assert first + tail == block;
      ContinuationsRead(first, tail, sid, endStream, max, rest, frameLimit, listLimit);
    }
  }
}
