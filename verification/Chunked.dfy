/** The chunked request-body decoder of core/chunked_decoder.go, the restartable
    completeness scan of core/conn_shared.go, the decode of a complete body in
    core/epoll_h1_linux_amd64.go, and the chunk writer the proxy relays with. */
module Chunked {
  import opened ByteStrings

  const FRAMING_LINE_MAX := 4096
  const MAX_PARSED_LENGTH := 0x4_0000_0000_0000

  // ----- Chunk-size lines

  predicate IsHex(c: Byte) {
    48 <= c <= 57 || 97 <= c <= 102 || 65 <= c <= 70
  }

  function HexValue(c: Byte): nat
    requires IsHex(c)
  {
    if c <= 57 then c - 48 else if c <= 70 then c - 55 else c - 87
  }

  /** The number a string of hex digits stands for. */
  function HexNumber(s: Bytes): nat
    requires forall i :: 0 <= i < |s| ==> IsHex(s[i])
  {
    if s == [] then 0 else 16 * HexNumber(s[..|s| - 1]) + HexValue(s[|s| - 1])
  }

  predicate AllHex(s: Bytes) {
    forall i :: 0 <= i < |s| ==> IsHex(s[i])
  }

  /** What `parseHex64Bytes` accepts: a non-empty string of digits whose value
      does not exceed the length limit. */
  function ParseHex(s: Bytes): Option<nat> {
    if s != [] && AllHex(s) && HexNumber(s) <= MAX_PARSED_LENGTH then Some(HexNumber(s)) else None
  }

  lemma {:induction false} HexGrows(s: Bytes, k: nat)
    requires AllHex(s) && k <= |s|
    ensures AllHex(s[..k]) && HexNumber(s[..k]) <= HexNumber(s)
    decreases |s| - k
  {
    if k < |s| {
      HexGrows(s, k + 1);
      assert s[..k + 1][..k] == s[..k];
    } else {
      assert s[..k] == s;
    }
  }

  /** The digit loop: it may stop at the first prefix over the limit, because a
      longer prefix is never smaller. */
  method ParseHex64Bytes(b: Bytes) returns (r: Option<nat>)
    ensures r == ParseHex(b)
  {
    if |b| == 0 { return None; }
    var n := 0;
    for i := 0 to |b|
      invariant AllHex(b[..i]) && n == HexNumber(b[..i]) <= MAX_PARSED_LENGTH
    {
      if !IsHex(b[i]) { return None; }
      n := n * 16 + HexValue(b[i]);
      assert b[..i + 1][..i] == b[..i];
      if n > MAX_PARSED_LENGTH {
        if AllHex(b) { HexGrows(b, i + 1); }
        return None;
      }
    }
    assert b[..|b|] == b;
    return Some(n);
  }

  predicate IsBlank(c: Byte) {
    c == 32 || c == 9
  }

  /** token characters: letters, digits and !#$%&'*+-.^_`|~ */
  predicate IsToken(c: Byte) {
    || 97 <= c <= 122 || 65 <= c <= 90 || 48 <= c <= 57
    || c in {33, 35, 36, 37, 38, 39, 42, 43, 45, 46, 94, 95, 96, 124, 126}
  }

  predicate IsQuotedText(c: Byte) {
    c == 9 || c == 32 || c == 0x21 || 0x23 <= c <= 0x5b || 0x5d <= c <= 0x7e || c >= 0x80
  }

  predicate IsQuotedPair(c: Byte) {
    c == 9 || 32 <= c <= 0x7e || c >= 0x80
  }

  function SkipBlank(b: Bytes, i: nat): (j: nat)
    requires i <= |b|
    ensures i <= j <= |b|
    decreases |b| - i
  {
    if i < |b| && IsBlank(b[i]) then SkipBlank(b, i + 1) else i
  }

  function SkipToken(b: Bytes, i: nat): (j: nat)
    requires i <= |b|
    ensures i <= j <= |b|
    decreases |b| - i
  {
    if i < |b| && IsToken(b[i]) then SkipToken(b, i + 1) else i
  }

  /** From inside a quoted string to just past its closing quote, or -1. */
  function SkipQuoted(b: Bytes, j: nat): (k: int)
    requires j <= |b|
    ensures k == -1 || j < k <= |b|
    decreases |b| - j
  {
    if j == |b| then -1
    else if b[j] == 34 then j + 1
    else if b[j] == 92 then
      if j + 1 < |b| && IsQuotedPair(b[j + 1]) then SkipQuoted(b, j + 2) else -1
    else if IsQuotedText(b[j]) then SkipQuoted(b, j + 1)
    else -1
  }

  function SkipExtValue(b: Bytes, i: nat): (k: int)
    requires i <= |b|
    ensures k == -1 || i < k <= |b|
  {
    if i < |b| && b[i] == 34 then SkipQuoted(b, i + 1)
    else if SkipToken(b, i) > i then SkipToken(b, i)
    else -1
  }

  /** Chunk extensions from position `i` on: ; name [= value], blanks allowed
      around the separators but not at the end. */
  predicate ValidExtensions(b: Bytes, i: nat)
    requires i <= |b|
    decreases |b| - i
  {
    i == |b| ||
    var semi := SkipBlank(b, i);
    semi < |b| && b[semi] == 59 &&
    var name := SkipBlank(b, semi + 1);
    var nameEnd := SkipToken(b, name);
    nameEnd > name &&
    var eq := SkipBlank(b, nameEnd);
    if eq < |b| && b[eq] == 61 then
      var end := SkipExtValue(b, SkipBlank(b, eq + 1));
      end >= 0 && ValidExtensions(b, end)
    else ValidExtensions(b, nameEnd)
  }

  function HexPrefix(b: Bytes, i: nat): (j: nat)
    requires i <= |b|
    ensures i <= j <= |b|
    ensures forall k :: i <= k < j ==> IsHex(b[k])
    decreases |b| - i
  {
    if i < |b| && IsHex(b[i]) then HexPrefix(b, i + 1) else i
  }

  /** A chunk-size line without its line feed. */
  function ParseSizeLine(line: Bytes): Option<nat> {
    if line == [] || line[|line| - 1] != CR then None
    else
      var body := line[..|line| - 1];
      var digits := HexPrefix(body, 0);
      if ValidExtensions(body, digits) then ParseHex(body[..digits]) else None
  }

  // ----- Trailer lines

  type Field = (Bytes, Bytes)

  predicate IsSpecial(c: Byte) {
    (c < 0x20 && c != 9) || c == 0x7f
  }

  function FirstSpecial(b: Bytes, i: nat): (j: nat)
    requires i <= |b|
    ensures i <= j <= |b|
    decreases |b| - i
  {
    if i < |b| && !IsSpecial(b[i]) then FirstSpecial(b, i + 1) else i
  }

  function TrimBlank(b: Bytes): Bytes
    decreases |b|
  {
    if b != [] && IsBlank(b[0]) then TrimBlank(b[1..])
    else if b != [] && IsBlank(b[|b| - 1]) then TrimBlank(b[..|b| - 1])
    else b
  }

  /** name ":" value CR LF, with no other control byte after the name. */
  function SplitTrailer(line: Bytes): Option<Field> {
    var nameEnd := SkipToken(line, 0);
    var special := FirstSpecial(line, nameEnd);
    if special + 2 == |line| && line[special] == CR && line[special + 1] == LF
       && 0 < nameEnd < special && line[nameEnd] == 58
    then Some((line[..nameEnd], TrimBlank(line[nameEnd + 1..special])))
    else None
  }

  function Lower(c: Byte): Byte {
    if 65 <= c <= 90 then c + 32 else c
  }

  predicate EqualFold(a: Bytes, lower: Bytes) {
    |a| == |lower| && forall i :: 0 <= i < |a| ==> Lower(a[i]) == lower[i]
  }

  /** host, trailer, connection, content-length, transfer-encoding */
  predicate TrailerForbidden(name: Bytes) {
    || EqualFold(name, [104, 111, 115, 116])
    || EqualFold(name, [116, 114, 97, 105, 108, 101, 114])
    || EqualFold(name, [99, 111, 110, 110, 101, 99, 116, 105, 111, 110])
    || EqualFold(name, [99, 111, 110, 116, 101, 110, 116, 45, 108, 101, 110, 103, 116, 104])
    || EqualFold(name, [116, 114, 97, 110, 115, 102, 101, 114, 45, 101, 110, 99, 111, 100, 105, 110, 103])
  }

  // ----- The decoder

  datatype Phase = AwaitSize | InData | AwaitDataEnd | InTrailer | Finished

  datatype Dec = Dec(phase: Phase, left: nat, trailerBytes: nat, trailers: seq<Field>, capture: bool)

  function Fresh(capture: bool): Dec {
    Dec(AwaitSize, 0, 0, [], capture)
  }

  /** What one call of `next` does: the new decoder, the bytes it consumed, the
      body bytes among them; or malformed input. */
  datatype Step = Bad(dec: Dec) | Took(dec: Dec, n: nat, data: Bytes)

  /** The end of the line that starts `src`, -1 if it is not complete yet, or -2
      if it is longer than a framing line may be. */
  function LineEnd(src: Bytes): (nl: int)
    ensures -2 <= nl < |src|
  {
    var window := if |src| < FRAMING_LINE_MAX then src else src[..FRAMING_LINE_MAX];
    var nl := IndexByte(window, LF);
    if nl >= 0 then nl else if |src| >= FRAMING_LINE_MAX then -2 else -1
  }

  function Next(d: Dec, src: Bytes): (r: Step)
    ensures r.Took? ==> r.n <= |src|
  {
    match d.phase
    case InData =>
      var n := if |src| < d.left then |src| else d.left;
      Took(d.(left := d.left - n, phase := if d.left == n then AwaitDataEnd else InData), n, src[..n])
    case AwaitDataEnd =>
      if |src| < 2 then Took(d, 0, [])
      else if src[0] != CR || src[1] != LF then Bad(d)
      else Took(d.(phase := AwaitSize), 2, [])
    case Finished => Took(d, 0, [])
    case InTrailer =>
      var nl := LineEnd(src);
      if nl == -2 then Bad(d) else if nl == -1 then Took(d, 0, []) else TrailerLine(d, src[..nl + 1])
    case AwaitSize =>
      var nl := LineEnd(src);
      if nl == -2 then Bad(d) else if nl == -1 then Took(d, 0, []) else SizeLine(d, src[..nl + 1])
  }

  function TrailerLine(d: Dec, line: Bytes): (r: Step)
    ensures r.Took? ==> r.n == |line| && r.data == [] && r.dec.phase in {Finished, d.phase}
  {
    var t := d.(trailerBytes := d.trailerBytes + |line|);
    if t.trailerBytes > FRAMING_LINE_MAX then Bad(t)
    else if |line| == 2 && line[0] == CR then Took(t.(phase := Finished), 2, [])
    else match SplitTrailer(line)
      case None => Bad(t)
      case Some(f) =>
        Took(if t.capture && !TrailerForbidden(f.0) then t.(trailers := t.trailers + [f]) else t, |line|, [])
  }

  function SizeLine(d: Dec, line: Bytes): (r: Step)
    requires line != []
    ensures r.Took? ==> r.n == |line| && r.data == [] && r.dec.phase in {InData, InTrailer}
  {
    match ParseSizeLine(line[..|line| - 1])
    case None => Bad(d)
    case Some(size) =>
      if size == 0 then Took(d.(phase := InTrailer), |line|, [])
      else Took(d.(phase := InData, left := size), |line|, [])
  }

  /** The decoder object of core/chunked_decoder.go. */
  class Decoder {
    var phase: Phase
    var left: nat
    var trailerBytes: nat
    var trailers: seq<Field>
    var capture: bool

    function Value(): Dec
      reads this
    {
      Dec(phase, left, trailerBytes, trailers, capture)
    }

    constructor (capture: bool)
      ensures Value() == Fresh(capture)
    {
      phase, left, trailerBytes, trailers, this.capture := AwaitSize, 0, 0, [], capture;
    }

    /** `next` */
    method Advance(src: Bytes) returns (n: nat, data: Bytes, ok: bool)
      modifies this
      ensures var r := Next(old(Value()), src);
              && Value() == r.dec && ok == r.Took?
              && (ok ==> n == r.n && data == r.data) && (!ok ==> n == 0)
      ensures n <= |src|
    {
      n, data, ok := 0, [], true;
      match phase {
        case InData =>
          n := if |src| < left then |src| else left;
          left := left - n;
          if left == 0 { phase := AwaitDataEnd; }
          data := src[..n];
        case AwaitDataEnd =>
          if |src| < 2 { return; }
          if src[0] != CR || src[1] != LF { return 0, [], false; }
          phase := AwaitSize;
          n := 2;
        case Finished =>
        case InTrailer =>
          var nl := FindLine(src);
          if nl < 0 { return 0, [], nl == -1; }
          n, ok := TakeTrailer(src[..nl + 1]);
        case AwaitSize =>
          var nl := FindLine(src);
          if nl < 0 { return 0, [], nl == -1; }
          n, ok := TakeSize(src[..nl + 1]);
      }
    }

    method FindLine(src: Bytes) returns (nl: int)
      ensures nl == LineEnd(src)
    {
      nl := IndexByte(if |src| < FRAMING_LINE_MAX then src else src[..FRAMING_LINE_MAX], LF);
      if nl < 0 && |src| >= FRAMING_LINE_MAX { nl := -2; }
    }

    method TakeTrailer(line: Bytes) returns (n: nat, ok: bool)
      requires line != []
      modifies this
      ensures var r := TrailerLine(old(Value()), line);
              Value() == r.dec && ok == r.Took? && n == if ok then |line| else 0
    {
      trailerBytes := trailerBytes + |line|;
      if trailerBytes > FRAMING_LINE_MAX { return 0, false; }
      if |line| == 2 && line[0] == CR {
        phase := Finished;
        return 2, true;
      }
      var f := SplitTrailer(line);
      if f.None? { return 0, false; }
      if capture && !TrailerForbidden(f.value.0) { trailers := trailers + [f.value]; }
      return |line|, true;
    }

    method TakeSize(line: Bytes) returns (n: nat, ok: bool)
      requires line != []
      modifies this
      ensures var r := SizeLine(old(Value()), line);
              Value() == r.dec && ok == r.Took? && n == if ok then |line| else 0
    {
      var size := ParseSizeLine(line[..|line| - 1]);
      if size.None? { return 0, false; }
      if size.value == 0 {
        phase := InTrailer;
      } else {
        phase, left := InData, size.value;
      }
      return |line|, true;
    }
  }

  // ----- The restartable scan

  datatype Verdict = Malformed(resume: nat) | Incomplete(resume: nat) | Complete(end: nat)

  /** `asyncChunkedComplete`, from decoder `d` at `pos`, with the current chunk
      starting at `start`. */
  function Scan(d: Dec, buf: Bytes, pos: nat, start: nat): Verdict
    requires pos <= |buf|
    decreases |buf| - pos
  {
    var r := Next(d, buf[pos..]);
    if r.Bad? then Malformed(start)
    else if r.n == 0 then Incomplete(start)
    else if r.dec.phase == Finished then Complete(pos + r.n)
    else Scan(r.dec, buf, pos + r.n, if r.dec.phase == AwaitSize then pos + r.n else start)
  }

  method AsyncChunkedComplete(buf: Bytes, from: nat) returns (v: Verdict)
    requires from <= |buf|
    ensures v == Scan(Fresh(false), buf, from, from)
  {
    hide Next;
    var d := new Decoder(false);
    var pos: nat, start: nat := from, from;
    while true
      invariant pos <= |buf|
      invariant Scan(Fresh(false), buf, from, from) == Scan(d.Value(), buf, pos, start)
      decreases |buf| - pos
    {
      var n, data, ok := d.Advance(buf[pos..]);
      if !ok { return Malformed(start); }
      if n == 0 { return Incomplete(start); }
      pos := pos + n;
      if d.phase == Finished { return Complete(pos); }
      if d.phase == AwaitSize { start := pos; }
    }
  }

  type Decoded = Option<(Bytes, seq<Field>)>

  function Prepend(data: Bytes, rest: Decoded): Decoded {
    if rest.None? then None else Some((data + rest.value.0, rest.value.1))
  }

  lemma PrependTwice(a: Bytes, b: Bytes, rest: Decoded)
    ensures Prepend(a, Prepend(b, rest)) == Prepend(a + b, rest)
    ensures Prepend([], rest) == rest
  {
    if rest.Some? {
      assert a + (b + rest.value.0) == (a + b) + rest.value.0;
      assert [] + rest.value.0 == rest.value.0;
    }
  }

  /** `decodeChunkedInto`: body and trailers of a complete body. */
  function Decode(d: Dec, src: Bytes, pos: nat): Decoded
    requires pos <= |src|
    decreases |src| - pos
  {
    if d.phase == Finished then Some(([], d.trailers))
    else
      var r := Next(d, src[pos..]);
      if r.Bad? || r.n == 0 then None
      else Prepend(r.data, Decode(r.dec, src, pos + r.n))
  }

  method DecodeChunkedInto(src: Bytes) returns (r: Decoded)
    ensures r == Decode(Fresh(true), src, 0)
  {
    hide Next;
    var d := new Decoder(true);
    var pos: nat, dst: Bytes := 0, [];
    PrependTwice([], [], Decode(Fresh(true), src, 0));
    while d.phase != Finished
      invariant pos <= |src|
      invariant Decode(Fresh(true), src, 0) == Prepend(dst, Decode(d.Value(), src, pos))
      decreases |src| - pos, if d.phase == Finished then 0 else 1
    {
      var n, data, ok := d.Advance(src[pos..]);
      if !ok || n == 0 { return None; }
      PrependTwice(dst, data, Decode(d.Value(), src, pos + n));
      dst := dst + data;
      pos := pos + n;
    }
    assert dst + [] == dst;
    return Some((dst, d.trailers));
  }

  // ----- More input never changes what was already decided

  lemma LineStable(src: Bytes, full: Bytes)
    requires src <= full
    ensures LineEnd(src) != -1 ==> LineEnd(full) == LineEnd(src)
  {
    var small := if |src| < FRAMING_LINE_MAX then src else src[..FRAMING_LINE_MAX];
    var large := if |full| < FRAMING_LINE_MAX then full else full[..FRAMING_LINE_MAX];
    assert small <= large;
    if IndexByte(small, LF) >= 0 {
      IndexStable(small, large, LF);
    } else if |src| >= FRAMING_LINE_MAX {
      assert small == large;
    }
  }

  /** A step that failed, or that was not cut short inside chunk data, is the
      same step when more bytes follow. */
  lemma NextStable(d: Dec, src: Bytes, full: Bytes)
    requires src <= full
    ensures Next(d, src).Bad? ==> Next(d, full).Bad?
    ensures Next(d, src).Took? && Next(d, src).n > 0 && (d.phase == InData ==> Next(d, src).n == d.left) ==>
              Next(d, full) == Next(d, src)
  {
    hide TrailerLine, SizeLine, LineEnd;
    LineStable(src, full);
    var nl := LineEnd(src);
    if nl >= 0 {
      assert src[..nl + 1] == full[..nl + 1];
    }
    if d.phase == InData && d.left <= |src| {
      assert src[..d.left] == full[..d.left];
    }
  }

  /** A step that fits into the first `e` bytes needs no more than those. */
  lemma NextCut(d: Dec, src: Bytes, e: nat)
    requires e <= |src| && Next(d, src).Took? && 0 < Next(d, src).n <= e
    requires d.phase == InData ==> Next(d, src).n == d.left
    ensures Next(d, src[..e]) == Next(d, src)
  {
    hide TrailerLine, SizeLine;
    if d.phase == AwaitSize || d.phase == InTrailer {
      var nl := LineEnd(src);
      var window := if |src| < FRAMING_LINE_MAX then src else src[..FRAMING_LINE_MAX];
      var cut := if e < FRAMING_LINE_MAX then src[..e] else src[..e][..FRAMING_LINE_MAX];
      assert 0 <= nl && nl + 1 == Next(d, src).n;
      assert nl == IndexByte(window, LF);
      assert cut[..nl] == window[..nl];
      IndexIs(cut, LF, nl);
      assert src[..e][..nl + 1] == src[..nl + 1];
    } else if d.phase == InData {
      assert src[..e][..d.left] == src[..d.left];
    }
  }

  /** Between chunks the decoder is as new; inside one it remembers only how
      much data is missing. */
  predicate Clean(d: Dec) {
    match d.phase
    case AwaitSize => d == Fresh(d.capture)
    case InData => d == Fresh(d.capture).(phase := InData, left := d.left) && d.left > 0
    case AwaitDataEnd => d == Fresh(d.capture).(phase := AwaitDataEnd)
    case InTrailer => d.left == 0
    case Finished => true
  }

  lemma NextClean(d: Dec, src: Bytes)
    requires Clean(d)
    ensures Clean(Next(d, src).dec) && Next(d, src).dec.capture == d.capture
  {
  }

  /** Chunk data cut short by the end of the buffer. */
  lemma CutData(d: Dec, buf: Bytes, pos: nat, start: nat)
    requires pos <= |buf| && d.phase == InData && |buf| - pos < d.left
    ensures Scan(d, buf, pos, start) == Incomplete(start)
  {
    if pos < |buf| {
      var e := d.(left := d.left - (|buf| - pos));
      assert Next(d, buf[pos..]).dec == e;
      assert buf[|buf|..] == [];
    }
  }

  /** What a scan of a prefix says about the scan of the whole: a verdict stands,
      and an incomplete scan may be resumed, with a fresh decoder, from the
      position it reports. */
  lemma {:induction false} ScanResume(d: Dec, buf: Bytes, full: Bytes, pos: nat, start: nat)
    requires buf <= full && start <= pos <= |buf| && Clean(d) && d.phase != Finished && !d.capture
    requires Scan(Fresh(false), full, start, start) == Scan(d, full, pos, start)
    ensures var v := Scan(d, buf, pos, start);
            if v.Incomplete? then
              start <= v.resume <= |buf| && Scan(Fresh(false), full, v.resume, v.resume) == Scan(d, full, pos, start)
            else Scan(d, full, pos, start) == v
    decreases |buf| - pos
  {
    hide Next;
    assert buf[pos..] <= full[pos..];
    var r := Next(d, buf[pos..]);
    NextStable(d, buf[pos..], full[pos..]);
    NextClean(d, buf[pos..]);
    if d.phase == InData { DataLength(d, buf[pos..]); }
    if r.Took? && r.n > 0 {
      if d.phase == InData && r.n < d.left {
        CutData(d, buf, pos, start);
      } else if r.dec.phase != Finished {
        ScanResume(r.dec, buf, full, pos + r.n, if r.dec.phase == AwaitSize then pos + r.n else start);
      }
    }
  }

  lemma DataLength(d: Dec, src: Bytes)
    requires d.phase == InData
    ensures Next(d, src).Took? && Next(d, src).n == (if |src| < d.left then |src| else d.left)
  {
  }

  // ----- The buffered request body of serveH1

  /** Where serveH1 starts to scan: the saved position if it lies inside the
      body it holds, else the end of the head. */
  function ScanFrom(headerEnd: nat, saved: nat, have: nat): (p: nat)
    requires headerEnd <= have
    ensures headerEnd <= p <= have
  {
    if headerEnd < saved <= have then saved else headerEnd
  }

  /** The buffer as it stood at each call of serveH1 while the body came in. */
  predicate Growing(bufs: seq<Bytes>) {
    forall i :: 0 <= i < |bufs| - 1 ==> bufs[i] <= bufs[i + 1]
  }

  /** serveH1 over those calls: each scan resumes where the last one said, until
      one is not incomplete. */
  function Rescan(bufs: seq<Bytes>, headerEnd: nat, saved: nat): Verdict
    requires bufs != [] && headerEnd <= |bufs[0]| && Growing(bufs)
  {
    var from := ScanFrom(headerEnd, saved, |bufs[0]|);
    var v := Scan(Fresh(false), bufs[0], from, from);
    if |bufs| == 1 || !v.Incomplete? then v else Rescan(bufs[1..], headerEnd, v.resume)
  }

  predicate SameVerdict(a: Verdict, b: Verdict) {
    match a
    case Complete(e) => b == Complete(e)
    case Malformed(_) => b.Malformed?
    case Incomplete(_) => b.Incomplete?
  }

  lemma {:induction false} GrowingLast(bufs: seq<Bytes>)
    requires bufs != [] && Growing(bufs)
    ensures bufs[0] <= bufs[|bufs| - 1]
    decreases |bufs|
  {
    if |bufs| > 1 {
      assert bufs[0] <= bufs[1];
      assert Growing(bufs[1..]);
      GrowingLast(bufs[1..]);
    }
  }

  /** However often the scan is interrupted and resumed while the body arrives,
      it reports the same end, or the same rejection, as one scan of everything
      that arrived. */
  lemma {:induction false} RestartsAgree(bufs: seq<Bytes>, headerEnd: nat, saved: nat)
    requires bufs != [] && headerEnd <= |bufs[0]| && Growing(bufs)
    requires var all, from := bufs[|bufs| - 1], ScanFrom(headerEnd, saved, |bufs[0]|);
             from <= |all| && headerEnd <= |all| && (saved <= |bufs[0]| || saved == 0) &&
             Scan(Fresh(false), all, from, from) == Scan(Fresh(false), all, headerEnd, headerEnd)
    ensures var all := bufs[|bufs| - 1];
            headerEnd <= |all|
              && SameVerdict(Rescan(bufs, headerEnd, saved), Scan(Fresh(false), all, headerEnd, headerEnd))
    decreases |bufs|
  {
    hide Next;
    var all := bufs[|bufs| - 1];
    var from := ScanFrom(headerEnd, saved, |bufs[0]|);
    GrowingLast(bufs);
    ScanResume(Fresh(false), bufs[0], all, from, from);
    var v := Scan(Fresh(false), bufs[0], from, from);
    if |bufs| > 1 && v.Incomplete? {
      assert bufs[0] <= bufs[1];
      assert Growing(bufs[1..]);
      RestartsAgree(bufs[1..], headerEnd, v.resume);
    }
  }

  lemma ServedScanAgrees(bufs: seq<Bytes>, headerEnd: nat)
    requires bufs != [] && headerEnd <= |bufs[0]| && Growing(bufs)
    ensures var all := bufs[|bufs| - 1];
            headerEnd <= |all| && SameVerdict(Rescan(bufs, headerEnd, 0), Scan(Fresh(false), all, headerEnd, headerEnd))
  {
    GrowingLast(bufs);
    RestartsAgree(bufs, headerEnd, 0);
  }

  /** The same decoder with trailer capture on. */
  predicate Twin(d: Dec, c: Dec) {
    !d.capture && c.capture && c == d.(capture := true, trailers := c.trailers)
  }

  /** Capturing trailers changes nothing else about a step. */
  lemma NextTwin(d: Dec, c: Dec, src: Bytes)
    requires Twin(d, c)
    ensures var r, q := Next(d, src), Next(c, src);
            (r.Took? <==> q.Took?) && Twin(r.dec, q.dec) && (r.Took? ==> q.n == r.n && q.data == r.data)
  {
    hide SplitTrailer, ParseSizeLine, TrailerForbidden, LineEnd;
  }

  /** A scan that found the end went through whole chunks only. */
  lemma {:induction false} ScanEnd(d: Dec, buf: Bytes, pos: nat, start: nat)
    requires pos <= |buf| && Scan(d, buf, pos, start).Complete?
    ensures pos < Scan(d, buf, pos, start).end <= |buf|
    ensures var r := Next(d, buf[pos..]);
            r.Took? && r.n > 0 && pos + r.n <= Scan(d, buf, pos, start).end && (d.phase == InData ==> r.n == d.left)
    decreases |buf| - pos
  {
    hide Next;
    var r := Next(d, buf[pos..]);
    if d.phase == InData {
      DataLength(d, buf[pos..]);
      if |buf| - pos < d.left { CutData(d, buf, pos, start); }
    }
    if r.dec.phase != Finished {
      ScanEnd(r.dec, buf, pos + r.n, if r.dec.phase == AwaitSize then pos + r.n else start);
    }
  }

  lemma {:induction false} ScanThenDecode(d: Dec, c: Dec, buf: Bytes, from: nat, pos: nat, start: nat)
    requires from <= pos <= |buf| && Twin(d, c) && d.phase != Finished
    requires Scan(d, buf, pos, start).Complete?
    ensures var e := Scan(d, buf, pos, start).end;
            pos <= e <= |buf| && Decode(c, buf[from..e], pos - from).Some?
    decreases |buf| - pos
  {
    hide Next;
    var e := Scan(d, buf, pos, start).end;
    ScanEnd(d, buf, pos, start);
    var src := buf[from..e];
    NextTwin(d, c, buf[pos..]);
    var q := Next(c, buf[pos..]);
    NextCut(c, buf[pos..], e - pos);
    assert buf[pos..][..e - pos] == src[pos - from..];
    if q.dec.phase == Finished {
      assert Decode(q.dec, src, pos - from + q.n).Some?;
    } else {
      var r := Next(d, buf[pos..]);
      ScanThenDecode(r.dec, q.dec, buf, from, pos + r.n, if r.dec.phase == AwaitSize then pos + r.n else start);
    }
  }

  /** When the scan, resumed any number of times, reports the end of the body,
      decoding exactly the range it reports succeeds: the branch of serveH1 that
      rejects a failed decode is never taken. */
  lemma CompleteBodyDecodes(bufs: seq<Bytes>, headerEnd: nat)
    requires bufs != [] && headerEnd <= |bufs[0]| && Growing(bufs)
    requires Rescan(bufs, headerEnd, 0).Complete?
    ensures var e := Rescan(bufs, headerEnd, 0).end;
            headerEnd <= e <= |bufs[|bufs| - 1]| && Decode(Fresh(true), bufs[|bufs| - 1][headerEnd..e], 0).Some?
  {
    ServedScanAgrees(bufs, headerEnd);
    ScanThenDecode(Fresh(false), Fresh(true), bufs[|bufs| - 1], headerEnd, headerEnd, headerEnd);
  }

  // ----- The chunk writer

  function HexDigit(v: nat): Byte
    requires v < 16
  {
    if v < 10 then 48 + v else 87 + v
  }

  /** strconv.AppendUint in base 16. */
  function HexDigits(n: nat): Bytes {
    if n < 16 then [HexDigit(n)] else HexDigits(n / 16) + [HexDigit(n % 16)]
  }

  lemma {:induction false} HexRoundTrip(n: nat)
    ensures AllHex(HexDigits(n)) && HexNumber(HexDigits(n)) == n && HexDigits(n) != []
  {
    if n < 16 {
      assert HexDigits(n)[..0] == [];
    } else {
      HexRoundTrip(n / 16);
      assert HexDigits(n)[..|HexDigits(n)| - 1] == HexDigits(n / 16);
    }
  }

  function Power16(k: nat): nat {
    if k == 0 then 1 else 16 * Power16(k - 1)
  }

  lemma {:induction false} HexLength(n: nat, k: nat)
    requires n < Power16(k) && k > 0
    ensures |HexDigits(n)| <= k
  {
    if n >= 16 {
      assert k > 1;
      HexLength(n / 16, k - 1);
    }
  }

  /** `appendChunkFrame` */
  function ChunkFrame(data: Bytes): Bytes {
    HexDigits(|data|) + [CR, LF] + data + [CR, LF]
  }

  const LAST_CHUNK: Bytes := [48, CR, LF, CR, LF]

  /** What the client receives for the pieces of a streamed response. */
  function Relay(pieces: seq<Bytes>): Bytes {
    if pieces == [] then LAST_CHUNK else ChunkFrame(pieces[0]) + Relay(pieces[1..])
  }

  lemma {:induction false} HexPrefixAll(b: Bytes, i: nat)
    requires AllHex(b) && i <= |b|
    ensures HexPrefix(b, i) == |b|
    decreases |b| - i
  {
    if i < |b| { HexPrefixAll(b, i + 1); }
  }

  lemma SizeTextReads(n: nat)
    requires n <= MAX_PARSED_LENGTH
    ensures ParseSizeLine(HexDigits(n) + [CR]) == Some(n)
  {
    var h := HexDigits(n);
    HexRoundTrip(n);
    assert (h + [CR])[..|h|] == h;
    HexPrefixAll(h, 0);
    assert h[..|h|] == h;
  }

  lemma ShortHex(n: nat)
    requires n <= MAX_PARSED_LENGTH
    ensures |HexDigits(n)| <= 14
  {
    assert Power16(14) == 0x100_0000_0000_0000 by {
      assert Power16(7) == 0x1000_0000 by { assert Power16(4) == 0x1_0000; }
      assert Power16(11) == 0x1000_0000_0000 by { assert Power16(9) == 0x10_0000_0000; }
    }
    HexLength(n, 14);
  }

  /** A size line written by the relay is read back as the size. */
  lemma SizeLineReads(n: nat, d: Dec, rest: Bytes)
    requires n <= MAX_PARSED_LENGTH && d.phase == AwaitSize
    ensures var line := HexDigits(n) + [CR, LF];
            Next(d, line + rest)
            == Took(if n == 0 then d.(phase := InTrailer) else d.(phase := InData, left := n), |line|, [])
  {
    hide ParseSizeLine, HexNumber;
    var h := HexDigits(n);
    HexRoundTrip(n);
    ShortHex(n);
    SizeTextReads(n);
    var src := h + [CR, LF] + rest;
    var window := if |src| < FRAMING_LINE_MAX then src else src[..FRAMING_LINE_MAX];
    assert window[..|h| + 1] == h + [CR];
    IndexIs(window, LF, |h| + 1);
    assert src[..|h| + 2] == h + [CR, LF];
    assert (h + [CR, LF])[..|h| + 1] == h + [CR];
  }

  /** `a` stands at `pos`, followed by `b`. */
  lemma StandsAt(a: Bytes, b: Bytes, buf: Bytes, pos: nat)
    requires pos <= |buf| && a + b <= buf[pos..]
    ensures pos + |a| + |b| <= |buf|
    ensures a == buf[pos..][..|a|] && b <= buf[pos + |a|..] && buf[pos..] == a + buf[pos + |a|..]
  {
    assert a + b == buf[pos..][..|a| + |b|];
  }

  /** The decoder and the scan both pass over one relayed piece, the decoder
      yielding its bytes. */
  lemma FrameReads(data: Bytes, buf: Bytes, pos: nat, start: nat)
    requires 0 < |data| <= MAX_PARSED_LENGTH && pos <= |buf| && ChunkFrame(data) <= buf[pos..]
    ensures var next := pos + |ChunkFrame(data)|;
            && next <= |buf|
            && Scan(Fresh(false), buf, pos, start) == Scan(Fresh(false), buf, next, next)
            && Decode(Fresh(true), buf, pos) == Prepend(data, Decode(Fresh(true), buf, next))
  {
    hide Next;
    hide Scan, Decode;
    var line := HexDigits(|data|) + [CR, LF];
    var p1 := pos + |line|;
    var p2 := p1 + |data|;
    assert ChunkFrame(data) == line + (data + [CR, LF]);
    StandsAt(line, data + [CR, LF], buf, pos);
    StandsAt(data, [CR, LF], buf, p1);
    assert [CR, LF] + [] == [CR, LF];
    StandsAt([CR, LF], [], buf, p2);
    SizeLineReads(|data|, Fresh(true), buf[p1..]);
    SizeLineReads(|data|, Fresh(false), buf[p1..]);
    DataReads(data, buf[p1..], buf[p2..]);
    FrameSteps(data, buf, pos, p1, p2, p2 + 2, start);
  }

  lemma DataReads(data: Bytes, src: Bytes, after: Bytes)
    requires |data| <= |src| && data == src[..|data|] && |after| >= 2 && after[..2] == [CR, LF]
    ensures forall capture :: Next(Fresh(capture).(phase := InData, left := |data|), src)
                              == Took(Fresh(capture).(phase := AwaitDataEnd), |data|, data)
    ensures forall capture :: Next(Fresh(capture).(phase := AwaitDataEnd), after) == Took(Fresh(capture), 2, [])
  {
  }

  lemma FrameSteps(data: Bytes, buf: Bytes, pos: nat, p1: nat, p2: nat, p3: nat, start: nat)
    requires pos < p1 < p2 < p3 <= |buf| && p2 == p1 + |data| && p3 == p2 + 2
    requires forall capture ::
             Next(Fresh(capture), buf[pos..]) == Took(Fresh(capture).(phase := InData, left := |data|), p1 - pos, [])
    requires forall capture :: Next(Fresh(capture).(phase := InData, left := |data|), buf[p1..])
                               == Took(Fresh(capture).(phase := AwaitDataEnd), |data|, data)
    requires forall capture :: Next(Fresh(capture).(phase := AwaitDataEnd), buf[p2..]) == Took(Fresh(capture), 2, [])
    ensures Scan(Fresh(false), buf, pos, start) == Scan(Fresh(false), buf, p3, p3)
    ensures Decode(Fresh(true), buf, pos) == Prepend(data, Decode(Fresh(true), buf, p3))
  {
    hide Next;
    var inData := Fresh(false).(phase := InData, left := |data|);
    assert Scan(Fresh(false), buf, pos, start) == Scan(inData, buf, p1, start);
    assert Scan(inData, buf, p1, start) == Scan(Fresh(false).(phase := AwaitDataEnd), buf, p2, start);
    var rest := Decode(Fresh(true), buf, p3);
    PrependTwice([], [], rest);
    assert Decode(Fresh(true).(phase := AwaitDataEnd), buf, p2) == rest;
    assert Decode(Fresh(true).(phase := InData, left := |data|), buf, p1) == Prepend(data, rest);
    PrependTwice([], [], Prepend(data, rest));
  }

  lemma LastChunkReads(buf: Bytes, pos: nat, start: nat)
    requires pos <= |buf| && LAST_CHUNK <= buf[pos..]
    ensures Scan(Fresh(false), buf, pos, start) == Complete(pos + 5)
    ensures Decode(Fresh(true), buf, pos) == Some(([], []))
  {
    hide Next;
    hide Scan, Decode;
    assert HexDigits(0) == [48];
    assert LAST_CHUNK == (HexDigits(0) + [CR, LF]) + [CR, LF];
    StandsAt(HexDigits(0) + [CR, LF], [CR, LF], buf, pos);
    SizeLineReads(0, Fresh(true), buf[pos + 3..]);
    SizeLineReads(0, Fresh(false), buf[pos + 3..]);
    assert [CR, LF] + [] == [CR, LF];
    StandsAt([CR, LF], [], buf, pos + 3);
    BlankLine(buf[pos + 3..]);
    BlankLineEnds(buf, pos, start);
  }

  lemma BlankLine(src: Bytes)
    requires |src| >= 2 && src[..2] == [CR, LF]
    ensures LineEnd(src) == 1
  {
    var window := if |src| < FRAMING_LINE_MAX then src else src[..FRAMING_LINE_MAX];
    assert window[..2] == [CR, LF];
    assert window[0] == CR && window[1] == LF;
    assert window[..1] == [CR];
    IndexIs(window, LF, 1);
  }

  lemma BlankLineEnds(buf: Bytes, pos: nat, start: nat)
    requires pos + 5 <= |buf| && LineEnd(buf[pos + 3..]) == 1 && buf[pos + 3..][..2] == [CR, LF]
    requires forall capture :: Next(Fresh(capture), buf[pos..]) == Took(Fresh(capture).(phase := InTrailer), 3, [])
    ensures Scan(Fresh(false), buf, pos, start) == Complete(pos + 5)
    ensures Decode(Fresh(true), buf, pos) == Some(([], []))
  {
    forall capture: bool
      ensures Next(Fresh(capture).(phase := InTrailer), buf[pos + 3..])
              == Took(Fresh(capture).(phase := Finished, trailerBytes := 2), 2, [])
    {
      hide LineEnd;
    }
    hide Next;
    assert Scan(Fresh(false).(phase := InTrailer), buf, pos + 3, start) == Complete(pos + 5);
    var none: Decoded := Some(([], []));
    PrependTwice([], [], none);
    assert Decode(Fresh(true).(phase := Finished, trailerBytes := 2), buf, pos + 5) == none;
    assert Decode(Fresh(true).(phase := InTrailer), buf, pos + 3) == Some(([], []));
  }

  /** Relaying a body piece by piece and ending it with the last chunk is read
      back, by the same decoder, as the body: the scan finds the end exactly
      behind the terminator whatever surrounds the message, and the decode yields
      the pieces in order, no trailers. */
  lemma {:induction false} RelayRoundTrip(pieces: seq<Bytes>, buf: Bytes, pos: nat, start: nat)
    requires forall i :: 0 <= i < |pieces| ==> 0 < |pieces[i]| <= MAX_PARSED_LENGTH
    requires pos <= |buf| && Relay(pieces) <= buf[pos..]
    ensures Scan(Fresh(false), buf, pos, start) == Complete(pos + |Relay(pieces)|)
    ensures Decode(Fresh(true), buf, pos) == Some((Concat(pieces), []))
    decreases |pieces|
  {
    hide Next;
    hide Scan, Decode, ChunkFrame;
    if pieces == [] {
      LastChunkReads(buf, pos, start);
    } else {
      var frame := ChunkFrame(pieces[0]);
      StandsAt(frame, Relay(pieces[1..]), buf, pos);
      FrameReads(pieces[0], buf, pos, start);
      RelayRoundTrip(pieces[1..], buf, pos + |frame|, pos + |frame|);
    }
  }

  /** An empty piece would be read as the end of the body: exactly the non-empty
      ones may be relayed. */
  lemma EmptyPieceEndsBody(rest: Bytes)
    ensures Scan(Fresh(false), ChunkFrame([]) + rest, 0, 0) == Complete(5)
  {
    assert HexDigits(0) == [48];
    assert ChunkFrame([]) == LAST_CHUNK;
    var buf := ChunkFrame([]) + rest;
    assert buf[0..] == buf;
    LastChunkReads(buf, 0, 0);
  }
}
