/** The upstream HTTP/1 response parser of core/fp_h1.go over the read buffer of
    core/fp_buf.go, and the relay of the pieces it emits.

    The parser runs in the outbound client loop of core/fp_loop.go, where an
    upgrade is a protocol error. `streamed` stands for the sink's answer to
    `shouldStreamResponse`, any function of the declared length. */
module H1Response {
  import opened ByteStrings
  import opened Chunked

  const MAX_CHUNK_LINE := 4096

  datatype Config = Config(maxHeaderBytes: nat, maxResponseBody: nat, verb: Bytes, streamed: int -> bool)

  // ----- The head

  /** The first blank line: position of CR LF CR LF, or -1. */
  function HeadEnd(s: Bytes): (i: int)
    ensures -1 <= i && i + 4 <= |s| + 3
    ensures i >= 0 ==> i + 4 <= |s| && s[i..i + 4] == [CR, LF, CR, LF]
  {
    if |s| < 4 then -1
    else if s[..4] == [CR, LF, CR, LF] then (assert s[0..4] == s[..4]; 0)
    else
      var k := HeadEnd(s[1..]);
      if k < 0 then -1 else (assert s[1..][k..k + 4] == s[k + 1..k + 5]; k + 1)
  }

  /** Appending bytes keeps a blank line that was found, and puts a new one
      nowhere but across or behind the old end. */
  lemma {:induction false} HeadEndAppend(s: Bytes, t: Bytes)
    ensures HeadEnd(s) >= 0 ==> HeadEnd(s + t) == HeadEnd(s)
    ensures HeadEnd(s) < 0 && HeadEnd(s + t) >= 0 ==> HeadEnd(s + t) + 4 > |s|
  {
    if |s| >= 4 {
      assert (s + t)[..4] == s[..4];
      assert (s + t)[1..] == s[1..] + t;
      HeadEndAppend(s[1..], t);
    }
  }

  predicate StartsWith(s: Bytes, prefix: Bytes) {
    prefix <= s
  }

  predicate IsDigit(c: Byte) {
    48 <= c <= 57
  }

  function Digit(c: Byte): nat
    requires IsDigit(c)
  {
    c - 48
  }

  const HTTP_ONE: Bytes := [72, 84, 84, 80, 47, 49, 46]
  const CONTENT_LENGTH: Bytes := [99, 111, 110, 116, 101, 110, 116, 45, 108, 101, 110, 103, 116, 104]
  const TRANSFER_ENCODING: Bytes := [116, 114, 97, 110, 115, 102, 101, 114, 45, 101, 110, 99, 111, 100, 105, 110, 103]
  const CONNECTION: Bytes := [99, 111, 110, 110, 101, 99, 116, 105, 111, 110]
  const CHUNKED_TOKEN: Bytes := [99, 104, 117, 110, 107, 101, 100]
  const CLOSE_TOKEN: Bytes := [99, 108, 111, 115, 101]
  const KEEP_ALIVE_TOKEN: Bytes := [107, 101, 101, 112, 45, 97, 108, 105, 118, 101]
  const HEAD_METHOD: Bytes := [72, 69, 65, 68]

  function Decimal(s: Bytes): nat
    requires forall i :: 0 <= i < |s| ==> IsDigit(s[i])
  {
    if s == [] then 0 else 10 * Decimal(s[..|s| - 1]) + Digit(s[|s| - 1])
  }

  /** strconv.ParseInt in base 10 and 64 bits, restricted to what the parser
      keeps: a value that is not negative. */
  function ParseLength(s: Bytes): Option<nat> {
    var digits := if s != [] && (s[0] == 43 || s[0] == 45) then s[1..] else s;
    if digits == [] || exists i :: 0 <= i < |digits| && !IsDigit(digits[i]) then None
    else
      var v := Decimal(digits);
      if v > 0x7fff_ffff_ffff_ffff || (s[0] == 45 && v != 0) then None else Some(v)
  }

  /** The comma-separated `value` holds `token`, compared without case. */
  predicate HasToken(value: Bytes, token: Bytes)
    decreases |value|
  {
    var comma := IndexByte(value, 44);
    if comma < 0 then EqualFold(TrimBlank(value), token)
    else EqualFold(TrimBlank(value[..comma]), token) || HasToken(value[comma + 1..], token)
  }

  function LowerAll(s: Bytes): Bytes {
    seq(|s|, i requires 0 <= i < |s| => Lower(s[i]))
  }

  /** `lowerFieldNameUntilColon`: the name, lowered, and the position of the
      colon, which may stand behind blanks. */
  function FieldName(line: Bytes): Option<(Bytes, nat)> {
    var end := SkipToken(line, 0);
    if end == |line| || end == 0 then None
    else
      var colon := SkipBlank(line, end);
      if colon < |line| && line[colon] == 58 then Some((LowerAll(line[..end]), colon)) else None
  }

  datatype Head = Head(status: nat, keepAlive: bool, noBody: bool, hdr: seq<Field>, chunked: bool, length: Option<nat>)

  /** A line of the block with its carriage return removed, and the rest. */
  function CutLine(block: Bytes): (r: (Bytes, bool, Bytes))
    requires block != []
    ensures |r.2| < |block|
  {
    var nl := IndexByte(block, LF);
    var line := if nl < 0 then block else block[..nl];
    var rest := if nl < 0 then [] else block[nl + 1..];
    if line != [] && line[|line| - 1] == CR then (line[..|line| - 1], true, rest) else (line, false, rest)
  }

  function CountCR(s: Bytes): nat {
    if s == [] then 0 else (if s[0] == CR then 1 else 0) + CountCR(s[1..])
  }

  function WithField(h: Head, name: Bytes, value: Bytes): Option<Head> {
    var g := h.(hdr := h.hdr + [(name, value)]);
    if name == CONTENT_LENGTH then
      match ParseLength(value)
      case None => None
      case Some(v) => if g.length.Some? && g.length.value != v then None else Some(g.(length := Some(v)))
    else if name == TRANSFER_ENCODING then Some(if HasToken(value, CHUNKED_TOKEN) then g.(chunked := true) else g)
    else if name == CONNECTION then
      Some(if HasToken(value, CLOSE_TOKEN) then g.(keepAlive := false)
           else if HasToken(value, KEEP_ALIVE_TOKEN) then g.(keepAlive := true) else g)
    else Some(g)
  }

  /** The header lines; `crs` counts carriage returns not yet paired with a line. */
  function HeadLines(h: Head, block: Bytes, crs: int): Option<Head>
    decreases |block|
  {
    if block == [] then (if crs == 0 then Some(if h.chunked then h.(length := None) else h) else None)
    else
      var (line, paired, rest) := CutLine(block);
      var left := if paired then crs - 1 else crs;
      if line == [] then HeadLines(h, rest, left)
      else match FieldName(line)
        case None => None
        case Some(f) =>
          match WithField(h, f.0, TrimBlank(line[f.1 + 1..]))
          case None => None
          case Some(g) => HeadLines(g, rest, left)
  }

  function StatusLine(line: Bytes, verb: Bytes): Option<Head> {
    if |line| < 12 || !StartsWith(line, HTTP_ONE) || line[8] != 32
       || !IsDigit(line[9]) || !IsDigit(line[10]) || !IsDigit(line[11])
    then None
    else
      var status := Digit(line[9]) * 100 + Digit(line[10]) * 10 + Digit(line[11]);
      Some(Head(status, line[7] == 49, verb == HEAD_METHOD || status == 204 || status == 304, [], false, None))
  }

  /** `parseHeaderBlock` */
  function ParseHead(block: Bytes, verb: Bytes): Option<Head> {
    if 0 in block then None
    else if block == [] then None
    else
      var (line, paired, rest) := CutLine(block);
      match StatusLine(line, verb)
      case None => None
      case Some(h) => HeadLines(h, rest, CountCR(block) - if paired then 1 else 0)
  }

  // ----- The parser

  datatype Phase = Headers | BodyCL | ChunkSize | ChunkData | ChunkCRLF | Trailers | BodyEOF

  datatype Error = BadResponse | HeaderTooLarge | BodyTooLarge

  /** `body` is everything emitted to the sink or buffered, in order. */
  datatype Parser = Parser(
    phase: Phase, status: nat, keepAlive: bool, noBody: bool, stream: bool,
    remaining: nat, trailerBytes: nat, hdr: seq<Field>, body: Bytes)

  const START := Parser(Headers, 0, false, false, false, 0, 0, [], [])

  /** After the bytes at hand: more are needed, the response is complete with
      bytes left over, or it is rejected. */
  datatype Result = More(p: Parser, unread: Bytes) | Done(p: Parser, unread: Bytes) | Failed(error: Error)

  /** One turn of the loop in `advance`: stop with a result, or go on. */
  datatype Turn = Stop(result: Result) | Go(p: Parser, used: nat)

  function HeadTurn(cfg: Config, p: Parser, data: Bytes): (t: Turn)
    ensures t.Go? ==> 0 < t.used <= |data|
  {
    var idx := HeadEnd(data);
    if idx < 0 then Stop(if |data| > cfg.maxHeaderBytes then Failed(HeaderTooLarge) else More(p, data))
    else if idx + 4 > cfg.maxHeaderBytes then Stop(Failed(HeaderTooLarge))
    else match ParseHead(data[..idx], cfg.verb)
      case None => Stop(Failed(BadResponse))
      case Some(h) => AfterHead(cfg, p, h, data, idx + 4)
  }

  function AfterHead(cfg: Config, p: Parser, h: Head, data: Bytes, used: nat): (t: Turn)
    requires 0 < used <= |data|
    ensures t.Go? ==> t.used == used
  {
    var q := p.(status := h.status, keepAlive := h.keepAlive, noBody := h.noBody, hdr := h.hdr);
    var rest := data[used..];
    if h.status == 101 then Stop(Failed(BadResponse))
    else if 100 <= h.status < 200 then Go(q.(hdr := []), used)
    else if h.noBody then Stop(Done(q, rest))
    else
      var s := q.(stream := cfg.streamed(if h.length.Some? then h.length.value else -1));
      if h.chunked then Go(s.(phase := ChunkSize), used)
      else if h.length.None? then Go(s.(keepAlive := false, phase := BodyEOF), used)
      else if h.length.value == 0 then Stop(Done(s, rest))
      else if !s.stream && h.length.value > cfg.maxResponseBody then Stop(Failed(BodyTooLarge))
      else Go(s.(remaining := h.length.value, phase := BodyCL), used)
  }

  function SizeTurn(cfg: Config, p: Parser, data: Bytes): (t: Turn)
    ensures t.Go? ==> 0 < t.used <= |data|
  {
    var idx := IndexByte(data, LF);
    if idx < 0 then Stop(if |data| > MAX_CHUNK_LINE then Failed(BadResponse) else More(p, data))
    else if idx >= MAX_CHUNK_LINE then Stop(Failed(BadResponse))
    else match ChunkLength(data[..idx])
      case None => Stop(Failed(BadResponse))
      case Some(size) =>
        if size == 0 then Go(p.(phase := Trailers), idx + 1)
        else if !p.stream && size > cfg.maxResponseBody - |p.body| then Stop(Failed(BodyTooLarge))
        else Go(p.(phase := ChunkData, remaining := size), idx + 1)
  }

  /** The size before any extension, white space trimmed off. */
  function ChunkLength(raw: Bytes): Option<nat> {
    var line := if raw != [] && raw[|raw| - 1] == CR then raw[..|raw| - 1] else raw;
    var semi := IndexByte(line, 59);
    ParseHex(TrimSpace(if semi >= 0 then line[..semi] else line))
  }

  /** bytes.TrimSpace: white space as unicode.IsSpace has it, in UTF-8. */
  function TrimSpace(s: Bytes): Bytes
    decreases |s|
  {
    if LeadingSpace(s) > 0 then TrimSpace(s[LeadingSpace(s)..])
    else if TrailingSpace(s) > 0 then TrimSpace(s[..|s| - TrailingSpace(s)])
    else s
  }

  function LeadingSpace(s: Bytes): (k: nat)
    ensures k <= |s|
  {
    if |s| >= 1 && IsSpace(s[..1]) then 1
    else if |s| >= 2 && IsSpace(s[..2]) then 2
    else if |s| >= 3 && IsSpace(s[..3]) then 3
    else 0
  }

  function TrailingSpace(s: Bytes): (k: nat)
    ensures k <= |s|
  {
    if |s| >= 1 && IsSpace(s[|s| - 1..]) then 1
    else if |s| >= 2 && IsSpace(s[|s| - 2..]) then 2
    else if |s| >= 3 && IsSpace(s[|s| - 3..]) then 3
    else 0
  }

  predicate IsSpace(r: Bytes) {
    match |r|
    case 1 => r[0] == 32 || 9 <= r[0] <= 13
    case 2 => r[0] == 0xC2 && (r[1] == 0x85 || r[1] == 0xA0)
    case 3 =>
      || r == [0xE1, 0x9A, 0x80] || r == [0xE2, 0x81, 0x9F] || r == [0xE3, 0x80, 0x80]
      || (r[0] == 0xE2 && r[1] == 0x80 && (0x80 <= r[2] <= 0x8A || r[2] in {0xA8, 0xA9, 0xAF}))
    case _ => false
  }

  function TrailerTurn(cfg: Config, p: Parser, data: Bytes): (t: Turn)
    ensures t.Go? ==> 0 < t.used <= |data|
  {
    var idx := IndexByte(data, LF);
    var budget := cfg.maxHeaderBytes - p.trailerBytes;
    if idx < 0 then Stop(if |data| > budget then Failed(HeaderTooLarge) else More(p, data))
    else if idx >= budget then Stop(Failed(HeaderTooLarge))
    else
      var q := p.(trailerBytes := p.trailerBytes + idx + 1);
      if idx == 0 || (idx == 1 && data[0] == CR) then Stop(Done(q, data[idx + 1..])) else Go(q, idx + 1)
  }

  /** Body bytes up to what the phase still expects. */
  function DataTurn(p: Parser, data: Bytes): (t: Turn)
    requires p.phase == BodyCL || p.phase == ChunkData
    ensures t.Go? ==> t.used <= |data| && (t.p.phase != p.phase || 0 < t.used)
  {
    if data == [] then Stop(More(p, data))
    else
      var take := if |data| < p.remaining then |data| else p.remaining;
      var q := p.(body := p.body + data[..take], remaining := p.remaining - take);
      if p.phase == BodyCL then Stop(if q.remaining == 0 then Done(q, data[take..]) else More(q, data[take..]))
      else Go(if q.remaining == 0 then q.(phase := ChunkCRLF) else q, take)
  }

  function OneTurn(cfg: Config, p: Parser, data: Bytes): (t: Turn)
    ensures t.Go? ==> t.used <= |data| && (0 < t.used || (p.phase == ChunkData && t.p.phase == ChunkCRLF))
  {
    match p.phase
    case Headers => HeadTurn(cfg, p, data)
    case BodyCL => DataTurn(p, data)
    case ChunkSize => SizeTurn(cfg, p, data)
    case ChunkData => DataTurn(p, data)
    case ChunkCRLF =>
      if |data| < 2 then Stop(More(p, data))
      else if data[0] != CR || data[1] != LF then Stop(Failed(BadResponse))
      else Go(p.(phase := ChunkSize), 2)
    case Trailers => TrailerTurn(cfg, p, data)
    case BodyEOF =>
      if data != [] && !p.stream && |p.body| + |data| > cfg.maxResponseBody then Stop(Failed(BodyTooLarge))
      else Stop(More(p.(body := p.body + data), []))
  }

  /** `advance` over the unread bytes. */
  function Advance(cfg: Config, p: Parser, data: Bytes): Result
    decreases |data|, if p.phase == ChunkData then 1 else 0
  {
    var t := OneTurn(cfg, p, data);
    if t.Stop? then t.result else Advance(cfg, t.p, data[t.used..])
  }

  // ----- The read buffer

  /** core/fp_buf.go: bytes `b`, of which the first `r` have been consumed. */
  class ByteBuffer {
    var b: Bytes
    var r: nat

    predicate Valid()
      reads this
    {
      r <= |b|
    }

    function Unread(): Bytes
      requires Valid()
      reads this
    {
      b[r..]
    }

    constructor ()
      ensures Valid() && Unread() == []
    {
      b, r := [], 0;
    }

    /** `compacts` is the outcome of the capacity test. */
    method Write(p: Bytes, compacts: bool)
      requires Valid()
      modifies this
      ensures Valid() && Unread() == old(Unread()) + p
    {
      if r > 0 && compacts { Compact(); }
      b := b + p;
    }

    method Consume(n: nat)
      requires Valid() && n <= |Unread()|
      modifies this
      ensures Valid() && Unread() == old(Unread())[n..]
    {
      r := r + n;
      if r >= |b| { b, r := [], 0; }
    }

    method Compact()
      requires Valid()
      modifies this
      ensures Valid() && Unread() == old(Unread())
    {
      b, r := b[r..], 0;
    }
  }

  /** `b` adds pieces of at most `n` bytes to `a`. */
  predicate Grew(a: seq<Bytes>, b: seq<Bytes>, n: nat) {
    a <= b && forall i :: |a| <= i < |b| ==> |b[i]| <= n
  }

  lemma NoneNew(a: seq<Bytes>, n: nat)
    ensures Grew(a, a, n)
  {
  }

  /** The parser of one connection: its fields, its read buffer, and the pieces
      it handed to the sink or appended to the buffered body. */
  class H1Parser {
    var value: Parser
    var pieces: seq<Bytes>
    const rbuf: ByteBuffer

    /** The pieces are the body, cut into non-empty parts. */
    ghost predicate Valid()
      reads this, rbuf
    {
      rbuf.Valid() && Concat(pieces) == value.body && forall i :: 0 <= i < |pieces| ==> pieces[i] != []
    }

    constructor ()
      ensures Valid() && value == START && rbuf.Unread() == [] && fresh(rbuf)
    {
      rbuf := new ByteBuffer();
      value, pieces := START, [];
    }

    /** `emit`, or the append to the buffered body. */
    method Emit(data: Bytes)
      requires Valid() && data != []
      modifies this
      ensures Valid() && value == old(value).(body := old(value).body + data) && pieces == old(pieces) + [data]
    {
      ConcatSnoc(pieces, data);
      pieces := pieces + [data];
      value := value.(body := value.body + data);
    }

    /** The new state agrees with what the turn `t` prescribes. */
    ghost predicate Took(t: Turn, unread: Bytes)
      requires rbuf.Valid()
      requires t.Go? ==> t.used <= |unread|
      reads this, rbuf
    {
      match t
      case Go(p, used) => value == p && rbuf.Unread() == unread[used..]
      case Stop(r) => r.Failed? || (value == r.p && rbuf.Unread() == r.unread)
    }

    method OnHeaders(cfg: Config) returns (t: Turn)
      requires Valid() && value.phase == Headers
      modifies this, rbuf
      ensures Valid() && t == HeadTurn(cfg, old(value), old(rbuf.Unread())) && Took(t, old(rbuf.Unread()))
      ensures pieces == old(pieces)
    {
      hide HeadEnd, ParseHead;
      var data := rbuf.Unread();
      var idx := HeadEnd(data);
      if idx < 0 {
        return Stop(if |data| > cfg.maxHeaderBytes then Failed(HeaderTooLarge) else More(value, data));
      }
      if idx + 4 > cfg.maxHeaderBytes { return Stop(Failed(HeaderTooLarge)); }
      var head := ParseHead(data[..idx], cfg.verb);
      if head.None? { return Stop(Failed(BadResponse)); }
      var h := head.value;
      rbuf.Consume(idx + 4);
      value := value.(status := h.status, keepAlive := h.keepAlive, noBody := h.noBody, hdr := h.hdr);
      if h.status == 101 { return Stop(Failed(BadResponse)); }
      if 100 <= h.status < 200 {
        value := value.(hdr := []);
        return Go(value, idx + 4);
      }
      if h.noBody { return Stop(Done(value, rbuf.Unread())); }
      value := value.(stream := cfg.streamed(if h.length.Some? then h.length.value else -1));
      if h.chunked {
        value := value.(phase := ChunkSize);
        return Go(value, idx + 4);
      }
      if h.length.Some? {
        if h.length.value == 0 { return Stop(Done(value, rbuf.Unread())); }
        if !value.stream && h.length.value > cfg.maxResponseBody { return Stop(Failed(BodyTooLarge)); }
        value := value.(remaining := h.length.value, phase := BodyCL);
        return Go(value, idx + 4);
      }
      value := value.(keepAlive := false, phase := BodyEOF);
      return Go(value, idx + 4);
    }

    method OnSize(cfg: Config) returns (t: Turn)
      requires Valid() && value.phase == ChunkSize
      modifies this, rbuf
      ensures Valid() && t == SizeTurn(cfg, old(value), old(rbuf.Unread())) && Took(t, old(rbuf.Unread()))
      ensures pieces == old(pieces)
    {
      hide ChunkLength;
      var data := rbuf.Unread();
      var idx := IndexByte(data, LF);
      if idx < 0 { return Stop(if |data| > MAX_CHUNK_LINE then Failed(BadResponse) else More(value, data)); }
      if idx >= MAX_CHUNK_LINE { return Stop(Failed(BadResponse)); }
      var size := ChunkLength(data[..idx]);
      if size.None? { return Stop(Failed(BadResponse)); }
      rbuf.Consume(idx + 1);
      if size.value == 0 {
        value := value.(phase := Trailers);
        return Go(value, idx + 1);
      }
      if !value.stream && size.value > cfg.maxResponseBody - |value.body| { return Stop(Failed(BodyTooLarge)); }
      value := value.(phase := ChunkData, remaining := size.value);
      return Go(value, idx + 1);
    }

    method OnTrailers(cfg: Config) returns (t: Turn)
      requires Valid() && value.phase == Trailers
      modifies this, rbuf
      ensures Valid() && t == TrailerTurn(cfg, old(value), old(rbuf.Unread())) && Took(t, old(rbuf.Unread()))
      ensures pieces == old(pieces)
    {
      var data := rbuf.Unread();
      var idx := IndexByte(data, LF);
      var budget := cfg.maxHeaderBytes - value.trailerBytes;
      if idx < 0 { return Stop(if |data| > budget then Failed(HeaderTooLarge) else More(value, data)); }
      if idx >= budget { return Stop(Failed(HeaderTooLarge)); }
      value := value.(trailerBytes := value.trailerBytes + idx + 1);
      rbuf.Consume(idx + 1);
      var line := data[..idx];
      if line != [] && line[|line| - 1] == CR { line := line[..|line| - 1]; }
      if line == [] { return Stop(Done(value, rbuf.Unread())); }
      return Go(value, idx + 1);
    }

    method OnData() returns (t: Turn)
      requires Valid() && (value.phase == BodyCL || value.phase == ChunkData)
      modifies this, rbuf
      ensures Valid() && t == DataTurn(old(value), old(rbuf.Unread())) && Took(t, old(rbuf.Unread()))
      ensures Grew(old(pieces), pieces, |old(rbuf.Unread())|)
    {
      hide Concat, Grew;
      var data := rbuf.Unread();
      if data == [] {
        NoneNew(pieces, 0);
        return Stop(More(value, data));
      }
      var take := if |data| < value.remaining then |data| else value.remaining;
      TakeData(take);
      if value.phase == ChunkData {
        if value.remaining == 0 { value := value.(phase := ChunkCRLF); }
        return Go(value, take);
      }
      return Stop(if value.remaining == 0 then Done(value, rbuf.Unread()) else More(value, rbuf.Unread()));
    }

    /** The next bytes of the body, emitted and consumed. */
    method TakeData(take: nat)
      requires Valid() && take <= value.remaining && take <= |rbuf.Unread()|
      modifies this, rbuf
      ensures Valid() && rbuf.Unread() == old(rbuf.Unread())[take..]
      ensures value == old(value).(body := old(value).body + old(rbuf.Unread())[..take],
                                   remaining := old(value).remaining - take)
      ensures Grew(old(pieces), pieces, |old(rbuf.Unread())|)
    {
      hide Concat;
      var data := rbuf.Unread();
      if take > 0 { Emit(data[..take]); } else { assert value.body + data[..0] == value.body; }
      rbuf.Consume(take);
      value := value.(remaining := value.remaining - take);
    }

    method OnRest(cfg: Config) returns (t: Turn)
      requires Valid() && (value.phase == ChunkCRLF || value.phase == BodyEOF)
      modifies this, rbuf
      ensures Valid() && t == OneTurn(cfg, old(value), old(rbuf.Unread())) && Took(t, old(rbuf.Unread()))
      ensures Grew(old(pieces), pieces, |old(rbuf.Unread())|)
    {
      var data := rbuf.Unread();
      if value.phase == ChunkCRLF {
        if |data| < 2 { return Stop(More(value, data)); }
        if data[0] != CR || data[1] != LF { return Stop(Failed(BadResponse)); }
        rbuf.Consume(2);
        value := value.(phase := ChunkSize);
        return Go(value, 2);
      }
      if data != [] {
        if !value.stream && |value.body| + |data| > cfg.maxResponseBody { return Stop(Failed(BodyTooLarge)); }
        Emit(data);
        rbuf.Consume(|data|);
      } else {
        assert value.body + data == value.body;
      }
      return Stop(More(value, rbuf.Unread()));
    }

    /** The loop of `advance`: what is left of the parser and of the read buffer
        is what the run of turns prescribes. */
    method Run(cfg: Config) returns (r: Result)
      requires Valid()
      modifies this, rbuf
      ensures Valid() && r == Advance(cfg, old(value), old(rbuf.Unread()))
      ensures !r.Failed? ==> value == r.p && rbuf.Unread() == r.unread
      ensures Grew(old(pieces), pieces, |old(rbuf.Unread())|)
    {
      hide HeadTurn, SizeTurn, TrailerTurn, DataTurn;
      while true
        invariant Valid() && Grew(old(pieces), pieces, |old(rbuf.Unread())|) && |rbuf.Unread()| <= |old(rbuf.Unread())|
        invariant Advance(cfg, old(value), old(rbuf.Unread())) == Advance(cfg, value, rbuf.Unread())
        decreases |rbuf.Unread()|, if value.phase == ChunkData then 1 else 0
      {
        var t;
        match value.phase {
          case Headers => t := OnHeaders(cfg);
          case ChunkSize => t := OnSize(cfg);
          case Trailers => t := OnTrailers(cfg);
          case BodyCL => t := OnData();
          case ChunkData => t := OnData();
          case ChunkCRLF => t := OnRest(cfg);
          case BodyEOF => t := OnRest(cfg);
        }
        if t.Stop? { return t.result; }
      }
    }
  }

  // ----- The cut of the stream into reads does not matter

  lemma IndexAppend(s: Bytes, t: Bytes, c: Byte)
    ensures IndexByte(s, c) >= 0 ==> IndexByte(s + t, c) == IndexByte(s, c)
    ensures IndexByte(s, c) < 0 && IndexByte(s + t, c) >= 0 ==> IndexByte(s + t, c) >= |s|
  {
    if IndexByte(s, c) >= 0 {
      IndexStable(s, s + t, c);
    }
  }

  lemma HeadTurnStable(cfg: Config, p: Parser, a: Bytes, b: Bytes)
    ensures var t, u := HeadTurn(cfg, p, a), HeadTurn(cfg, p, a + b);
            Stable(p, t, u, a, b)
  {
    hide ParseHead, HeadEnd;
    HeadEndAppend(a, b);
    var idx := HeadEnd(a);
    if idx >= 0 {
      assert (a + b)[..idx] == a[..idx];
      assert (a + b)[idx + 4..] == a[idx + 4..] + b;
    }
  }

  lemma SizeTurnStable(cfg: Config, p: Parser, a: Bytes, b: Bytes)
    ensures Stable(p, SizeTurn(cfg, p, a), SizeTurn(cfg, p, a + b), a, b)
  {
    hide ChunkLength;
    IndexAppend(a, b, LF);
    var idx := IndexByte(a, LF);
    if idx >= 0 { assert (a + b)[..idx] == a[..idx]; }
  }

  lemma TrailerTurnStable(cfg: Config, p: Parser, a: Bytes, b: Bytes)
    ensures Stable(p, TrailerTurn(cfg, p, a), TrailerTurn(cfg, p, a + b), a, b)
  {
    IndexAppend(a, b, LF);
    var idx := IndexByte(a, LF);
    if idx >= 0 { assert (a + b)[idx + 1..] == a[idx + 1..] + b; }
  }

  /** Turn `t` on `a`, turn `u` on `a + b`: a decision on `a` stands, and if `a`
      decides nothing it is left alone. */
  predicate Stable(p: Parser, t: Turn, u: Turn, a: Bytes, b: Bytes) {
    if t.Go? || t.result.Failed? then u == t
    else if t.result.More? then t.result == More(p, a)
    else u == Stop(Done(t.result.p, t.result.unread + b))
  }

  /** Body bytes that do not reach the end of what is expected. */
  predicate CutShort(p: Parser, a: Bytes) {
    p.phase == BodyEOF || ((p.phase == BodyCL || p.phase == ChunkData) && |a| < p.remaining)
  }

  lemma TurnStable(cfg: Config, p: Parser, a: Bytes, b: Bytes)
    requires !CutShort(p, a)
    ensures Stable(p, OneTurn(cfg, p, a), OneTurn(cfg, p, a + b), a, b)
  {
    match p.phase {
      case Headers => HeadTurnStable(cfg, p, a, b);
      case ChunkSize => SizeTurnStable(cfg, p, a, b);
      case Trailers => TrailerTurnStable(cfg, p, a, b);
      case BodyCL => DataTurnStable(p, a, b);
      case ChunkData => DataTurnStable(p, a, b);
      case ChunkCRLF => if |a| >= 2 { assert (a + b)[0] == a[0] && (a + b)[1] == a[1]; }
      case BodyEOF =>
    }
  }

  lemma DataTurnStable(p: Parser, a: Bytes, b: Bytes)
    requires (p.phase == BodyCL || p.phase == ChunkData) && |a| >= p.remaining
    ensures Stable(p, DataTurn(p, a), DataTurn(p, a + b), a, b)
  {
    if a != [] {
      assert (a + b)[..p.remaining] == a[..p.remaining];
      assert (a + b)[p.remaining..] == a[p.remaining..] + b;
    }
  }

  function Taken(p: Parser, a: Bytes): Parser
    requires CutShort(p, a)
  {
    if p.phase == BodyEOF then p.(body := p.body + a)
    else p.(body := p.body + a, remaining := p.remaining - |a|)
  }

  /** Body bytes cut short are the same in one piece or in two. */
  lemma DataSplit(cfg: Config, p: Parser, a: Bytes, b: Bytes)
    requires CutShort(p, a) && p.phase != BodyEOF && a != []
    ensures Advance(cfg, p, a) == More(Taken(p, a), [])
    ensures Advance(cfg, Taken(p, a), b) == Advance(cfg, p, a + b)
  {
    hide HeadTurn, SizeTurn, TrailerTurn, DataTurn;
    var q := Taken(p, a);
    DataTaken(p, a);
    if p.phase == ChunkData {
      assert Advance(cfg, q, []) == More(q, []) by { DataTaken(p, a); }
    }
    if b == [] {
      assert a + b == a;
      assert OneTurn(cfg, q, b) == DataTurn(q, b);
    } else {
      DataTwice(p, a, b);
    }
  }

  lemma DataTaken(p: Parser, a: Bytes)
    requires CutShort(p, a) && p.phase != BodyEOF && a != []
    ensures var q := Taken(p, a);
            && DataTurn(q, []) == Stop(More(q, []))
            && DataTurn(p, a) == (if p.phase == BodyCL then Stop(More(q, [])) else Go(q, |a|))
            && a[|a|..] == []
  {
    assert a[..|a|] == a && a[|a|..] == [];
  }

  lemma DataTwice(p: Parser, a: Bytes, b: Bytes)
    requires CutShort(p, a) && p.phase != BodyEOF && a != [] && b != []
    ensures var t, u := DataTurn(Taken(p, a), b), DataTurn(p, a + b);
            if t.Stop? then u == t else u == Go(t.p, |a| + t.used) && (a + b)[u.used..] == b[t.used..]
  {
    var q := Taken(p, a);
    var take := if |b| < q.remaining then |b| else q.remaining;
    assert (a + b)[..|a| + take] == a + b[..take];
    assert (a + b)[|a| + take..] == b[take..];
    assert p.body + (a + b[..take]) == (p.body + a) + b[..take];
  }

  lemma RestSplit(cfg: Config, p: Parser, a: Bytes, b: Bytes)
    requires p.phase == BodyEOF
    ensures var r := Advance(cfg, p, a);
            if r.Failed? then Advance(cfg, p, a + b) == r
            else r.More? && r.unread == [] && Advance(cfg, r.p, b) == Advance(cfg, p, a + b)
  {
    assert p.body + (a + b) == (p.body + a) + b;
    assert p.body + [] == p.body && [] + b == b && a + [] == a;
  }

  /** Feeding `a` and then `b` is feeding both at once. */
  lemma {:induction false} FeedTwice(cfg: Config, p: Parser, a: Bytes, b: Bytes)
    ensures var r, both := Advance(cfg, p, a), Advance(cfg, p, a + b);
            && (r.More? ==> Advance(cfg, r.p, r.unread + b) == both)
            && (r.Done? ==> both == Done(r.p, r.unread + b))
            && (r.Failed? ==> both == r)
    decreases |a|, if p.phase == ChunkData then 1 else 0
  {
    if p.phase == BodyEOF {
      RestSplit(cfg, p, a, b);
      assert [] + b == b;
    } else if CutShort(p, a) && a != [] {
      DataSplit(cfg, p, a, b);
      assert [] + b == b;
    } else if CutShort(p, a) {
      assert a + b == b;
      assert OneTurn(cfg, p, a) == Stop(More(p, a));
    } else {
      hide OneTurn;
      TurnStable(cfg, p, a, b);
      var t := OneTurn(cfg, p, a);
      if t.Go? {
        assert (a + b)[t.used..] == a[t.used..] + b;
        FeedTwice(cfg, t.p, a[t.used..], b);
      }
    }
  }

  /** `onData` for each read in turn, until the response is decided. */
  function Feed(cfg: Config, r: Result, segs: seq<Bytes>): Result
    decreases |segs|
  {
    if segs == [] || !r.More? then r
    else Feed(cfg, Advance(cfg, r.p, r.unread + segs[0]), segs[1..])
  }

  /** What the exchange gets once the backend has sent its bytes and closed. */
  datatype Outcome = Response(status: nat, hdr: seq<Field>, body: Bytes) | Rejected(error: Error) | ClosedEarly

  function OutcomeOf(r: Result): Outcome {
    match r
    case Done(p, _) => Response(p.status, p.hdr, p.body)
    case Failed(e) => Rejected(e)
    case More(p, _) => if p.phase == BodyEOF then Response(p.status, p.hdr, p.body) else ClosedEarly
  }

  lemma {:induction false} FeedAll(cfg: Config, p: Parser, unread: Bytes, segs: seq<Bytes>)
    requires Advance(cfg, p, unread) == More(p, unread)
    ensures var r, whole := Feed(cfg, More(p, unread), segs), Advance(cfg, p, unread + Concat(segs));
            if r.Done? then whole.Done? && whole.p == r.p else whole == r
    decreases |segs|
  {
    hide OneTurn;
    if segs == [] {
      assert unread + [] == unread;
    } else {
      var x, rest := segs[0], Concat(segs[1..]);
      assert unread + Concat(segs) == (unread + x) + rest;
      FeedTwice(cfg, p, unread + x, rest);
      var r := Advance(cfg, p, unread + x);
      if r.More? {
        Settled(cfg, p, unread + x);
        FeedAll(cfg, r.p, r.unread, segs[1..]);
      }
    }
  }

  /** Waiting for more is a fixed point: advancing again without input changes
      nothing. */
  lemma {:induction false} Settled(cfg: Config, p: Parser, data: Bytes)
    ensures var r := Advance(cfg, p, data);
            r.More? ==> Advance(cfg, r.p, r.unread) == r
    decreases |data|, if p.phase == ChunkData then 1 else 0
  {
    FeedTwice(cfg, p, data, []);
    assert data + [] == data;
    var r := Advance(cfg, p, data);
    if r.More? { assert r.unread + [] == r.unread; }
  }

  /** For every partition of the backend's bytes into reads, the parser delivers
      the same status, headers and body, or the same error. */
  lemma PartitionIndependent(cfg: Config, segs: seq<Bytes>, others: seq<Bytes>)
    requires Concat(segs) == Concat(others)
    ensures OutcomeOf(Feed(cfg, More(START, []), segs)) == OutcomeOf(Feed(cfg, More(START, []), others))
  {
    assert HeadEnd([]) == -1;
    assert Advance(cfg, START, []) == More(START, []);
    FeedAll(cfg, START, [], segs);
    FeedAll(cfg, START, [], others);
  }

  /** How much the parser may leave unread. */
  function Slack(cfg: Config): nat {
    if cfg.maxHeaderBytes < MAX_CHUNK_LINE then MAX_CHUNK_LINE else cfg.maxHeaderBytes
  }

  lemma {:induction false} Leftover(cfg: Config, p: Parser, data: Bytes)
    ensures var r := Advance(cfg, p, data);
            r.More? ==> |r.unread| <= Slack(cfg)
    decreases |data|, if p.phase == ChunkData then 1 else 0
  {
    hide HeadEnd, ParseHead, ChunkLength;
    var t := OneTurn(cfg, p, data);
    if t.Go? { Leftover(cfg, t.p, data[t.used..]); }
  }

  /** A connection that reads `segs` from its backend, relays what the parser emits
      as chunks, and ends the chunked body when the response is complete: what it
      sends on decodes to the body of the response, whatever the cut and however
      long the body. No read may be so long that its chunk could not be read. */
  method RelayReads(cfg: Config, segs: seq<Bytes>, compacts: seq<bool>) returns (out: Bytes, r: Result)
    requires |compacts| == |segs|
    ensures r == Feed(cfg, More(START, []), segs)
    ensures OutcomeOf(r).Response? && (forall i :: 0 <= i < |segs| ==> Slack(cfg) + |segs[i]| <= MAX_PARSED_LENGTH) ==>
              Decode(Fresh(true), out, 0) == Some((OutcomeOf(r).body, []))
  {
    hide OneTurn, Decode, Slack;
    var p := new H1Parser();
    r := More(START, []);
    var i := 0;
    while i < |segs| && r.More?
      invariant 0 <= i <= |segs| && p.Valid() && fresh(p) && fresh(p.rbuf)
      invariant r.More? ==> r == More(p.value, p.rbuf.Unread()) && |r.unread| <= Slack(cfg)
      invariant r.Done? ==> r.p == p.value
      invariant Feed(cfg, More(START, []), segs) == Feed(cfg, r, segs[i..])
      invariant (forall j :: 0 <= j < i ==> Slack(cfg) + |segs[j]| <= MAX_PARSED_LENGTH) ==>
                  forall k :: 0 <= k < |p.pieces| ==> |p.pieces[k]| <= MAX_PARSED_LENGTH
    {
      assert segs[i..][1..] == segs[i + 1..];
      p.rbuf.Write(segs[i], compacts[i]);
      Leftover(cfg, p.value, p.rbuf.Unread());
      r := p.Run(cfg);
      i := i + 1;
    }
    out := Relay(p.pieces);
    if OutcomeOf(r).Response? && forall j :: 0 <= j < |segs| ==> Slack(cfg) + |segs[j]| <= MAX_PARSED_LENGTH {
      assert forall k :: 0 <= k < |p.pieces| ==> 0 < |p.pieces[k]| <= MAX_PARSED_LENGTH;
      assert out[0..] == out;
      RelayRoundTrip(p.pieces, out, 0, 0);
    }
  }
}
