/** HTTP/1 responses as backends write them, and what the parser of core/fp_h1.go
    reads from each: the status, the fields and exactly the body. */
module H1Reading {
  import opened ByteStrings
  import opened Chunked
  import opened ChunkedReading
  import opened H1Response

  // ----- Heads as they are written

  /** Text of one line. */
  predicate Inline(s: Bytes) {
    forall i :: 0 <= i < |s| ==> s[i] != CR && s[i] != LF && s[i] != 0
  }

  /** A header field: name, blanks, colon, blanks, value, blanks. */
  datatype Line = Line(name: Bytes, pad: Bytes, lead: Bytes, value: Bytes, trail: Bytes)

  predicate SoundLine(l: Line) {
    && l.name != [] && (forall i :: 0 <= i < |l.name| ==> IsToken(l.name[i]))
    && Blanks(l.pad) && Blanks(l.lead) && Blanks(l.trail) && Inline(l.value)
    && (l.value != [] ==> !IsBlank(l.value[0]) && !IsBlank(l.value[|l.value| - 1]))
  }

  function LineBytes(l: Line): Bytes {
    l.name + l.pad + [58] + (l.lead + l.value + l.trail)
  }

  /** Lines, each behind a line break. */
  function Follow(lines: seq<Line>): Bytes {
    if lines == [] then [] else [CR, LF] + LineBytes(lines[0]) + Follow(lines[1..])
  }

  /** A response head: minor version, status, the rest of that line, and fields. */
  datatype Written = Written(minor: Byte, status: nat, reason: Bytes, lines: seq<Line>)

  predicate AllSound(lines: seq<Line>) {
    forall i :: 0 <= i < |lines| ==> SoundLine(lines[i])
  }

  predicate Sound(w: Written) {
    w.status < 1000 && Inline([w.minor]) && Inline(w.reason) && AllSound(w.lines)
  }

  function ThreeDigits(n: nat): Bytes
    requires n < 1000
  {
    [48 + n / 100, 48 + n / 10 % 10, 48 + n % 10]
  }

  function StatusText(w: Written): Bytes
    requires Sound(w)
  {
    HTTP_ONE + [w.minor, 32] + ThreeDigits(w.status) + w.reason
  }

  function HeadText(w: Written): Bytes
    requires Sound(w)
  {
    StatusText(w) + Follow(w.lines)
  }

  const BLANK_LINE: Bytes := [CR, LF, CR, LF]

  function HeadBytes(w: Written): Bytes
    requires Sound(w)
  {
    HeadText(w) + BLANK_LINE
  }

  // ----- Lines

  lemma LineParts(l: Line)
    ensures var b, n, c := LineBytes(l), |l.name|, |l.name| + |l.pad|;
            && n <= c < |b| && b[..n] == l.name && b[n..c] == l.pad && b[c] == 58
            && b[c + 1..] == l.lead + l.value + l.trail
  {
  }

  lemma LineInline(l: Line)
    requires SoundLine(l)
    ensures Inline(LineBytes(l)) && LineBytes(l) != []
  {
    assert Inline(l.name) && Inline(l.pad) && Inline(l.lead) && Inline(l.trail);
  }

  /** A line is read as its field. */
  lemma LineReads(l: Line)
    requires SoundLine(l)
    ensures Inline(LineBytes(l)) && LineBytes(l) != []
    ensures var f := FieldName(LineBytes(l));
            && f.Some? && f.value.0 == LowerAll(l.name) && f.value.1 < |LineBytes(l)|
            && TrimBlank(LineBytes(l)[f.value.1 + 1..]) == l.value
  {
    LineParts(l);
    LineInline(l);
    hide TrimBlank, LineBytes, Inline;
    var b, n, c := LineBytes(l), |l.name|, |l.name| + |l.pad|;
    forall k | 0 <= k < n
      ensures IsToken(b[k])
    {
      assert b[k] == b[..n][k];
    }
    forall k | n <= k < c
      ensures IsBlank(b[k]) && !IsToken(b[k])
    {
      assert b[k] == b[n..c][k - n];
    }
    TokenEnds(b, 0, n);
    BlankEnds(b, n, c);
    Trims(l.lead, l.value, l.trail);
  }

  /** What follows a line break. */
  function Tail(lines: seq<Line>): Bytes {
    if lines == [] then [] else LineBytes(lines[0]) + Follow(lines[1..])
  }

  lemma FollowIs(lines: seq<Line>)
    ensures Follow(lines) == if lines == [] then [] else [CR, LF] + Tail(lines)
    ensures lines == [] ==> Tail(lines) == []
  {
  }

  /** A line is cut off at its break. */
  lemma CutsLine(text: Bytes, lines: seq<Line>)
    requires Inline(text) && text != []
    ensures var block := text + Follow(lines);
            block != [] && CutLine(block) == (text, lines != [], Tail(lines))
  {
    hide Tail, LineBytes;
    hide Follow;
    FollowIs(lines);
    var block := text + Follow(lines);
    if lines == [] {
      assert block == text;
      IndexAbsent(text, LF);
    } else {
      var n := |text|;
      assert block[n] == CR && block[n + 1] == LF && block[..n + 1] == text + [CR] && block[n + 2..] == Tail(lines);
      IndexIs(block, LF, n + 1);
      assert block[..n + 1][..n] == text;
    }
  }

  lemma {:induction false} CountInline(text: Bytes, rest: Bytes)
    requires Inline(text)
    ensures CountCR(text + rest) == CountCR(rest)
    decreases |text|
  {
    if text == [] {
      assert text + rest == rest;
    } else {
      assert (text + rest)[1..] == text[1..] + rest;
      CountInline(text[1..], rest);
    }
  }

  lemma {:induction false} CountBreaks(lines: seq<Line>)
    requires AllSound(lines)
    ensures CountCR(Follow(lines)) == |lines|
    decreases |lines|
  {
    hide LineBytes, SoundLine;
    if lines != [] {
      LineReads(lines[0]);
      var s, rest := Follow(lines), LineBytes(lines[0]) + Follow(lines[1..]);
      assert s[1..] == [LF] + rest && s[1..][1..] == rest;
      CountInline(LineBytes(lines[0]), Follow(lines[1..]));
      CountBreaks(lines[1..]);
    }
  }

  lemma {:induction false} NoNul(lines: seq<Line>)
    requires AllSound(lines)
    ensures 0 !in Follow(lines)
    decreases |lines|
  {
    hide LineBytes, SoundLine;
    if lines != [] {
      LineReads(lines[0]);
      NoNul(lines[1..]);
    }
  }

  // ----- What a list of fields says

  predicate ChunkedIn(fs: seq<Field>) {
    exists i :: 0 <= i < |fs| && fs[i].0 == TRANSFER_ENCODING && HasToken(fs[i].1, CHUNKED_TOKEN)
  }

  /** The length in the last content-length. */
  function LengthIn(fs: seq<Field>): Option<nat> {
    if fs == [] then None
    else if fs[|fs| - 1].0 == CONTENT_LENGTH then ParseLength(fs[|fs| - 1].1)
    else LengthIn(fs[..|fs| - 1])
  }

  /** Lengths are numbers and agree. */
  predicate ProperAt(fs: seq<Field>, i: nat)
    requires i < |fs|
  {
    fs[i].0 == CONTENT_LENGTH ==>
      ParseLength(fs[i].1).Some? && (LengthIn(fs[..i]).None? || LengthIn(fs[..i]) == ParseLength(fs[i].1))
  }

  predicate Proper(fs: seq<Field>) {
    forall i :: 0 <= i < |fs| ==> ProperAt(fs, i)
  }

  /** The last connection field that says so decides. */
  predicate KeepIn(fs: seq<Field>, keep: bool) {
    if fs == [] then keep
    else
      var name, value := fs[|fs| - 1].0, fs[|fs| - 1].1;
      if name == CONNECTION && HasToken(value, CLOSE_TOKEN) then false
      else if name == CONNECTION && HasToken(value, KEEP_ALIVE_TOKEN) then true
      else KeepIn(fs[..|fs| - 1], keep)
  }

  function FieldsOf(lines: seq<Line>): seq<Field> {
    seq(|lines|, i requires 0 <= i < |lines| => (LowerAll(lines[i].name), lines[i].value))
  }

  /** A head so far: its fields and what they say. */
  predicate SaidBy(h: Head, fs: seq<Field>, keep: bool) {
    h.hdr == fs && (h.chunked <==> ChunkedIn(fs)) && h.length == LengthIn(fs) && (h.keepAlive <==> KeepIn(fs, keep))
  }

  lemma NamesDiffer()
    ensures CONTENT_LENGTH != TRANSFER_ENCODING && CONTENT_LENGTH != CONNECTION && TRANSFER_ENCODING != CONNECTION
  {
    assert |CONTENT_LENGTH| == 14 && |TRANSFER_ENCODING| == 17 && |CONNECTION| == 10;
  }

  lemma SaidMore(fs: seq<Field>, f: Field, keep: bool)
    ensures var all := fs + [f];
            && (ChunkedIn(all) <==> ChunkedIn(fs) || (f.0 == TRANSFER_ENCODING && HasToken(f.1, CHUNKED_TOKEN)))
            && LengthIn(all) == (if f.0 == CONTENT_LENGTH then ParseLength(f.1) else LengthIn(fs))
            && (KeepIn(all, keep) <==>
                  if f.0 == CONNECTION && HasToken(f.1, CLOSE_TOKEN) then false
                  else (f.0 == CONNECTION && HasToken(f.1, KEEP_ALIVE_TOKEN)) || KeepIn(fs, keep))
            && ProperAt(all, |fs|)
               == (f.0 == CONTENT_LENGTH ==>
                     ParseLength(f.1).Some? && (LengthIn(fs).None? || LengthIn(fs) == ParseLength(f.1)))
  {
    hide HasToken, ParseLength;
    var all := fs + [f];
    assert all[..|fs|] == fs && all[|fs|] == f;
    if ChunkedIn(fs) {
      var i :| 0 <= i < |fs| && fs[i].0 == TRANSFER_ENCODING && HasToken(fs[i].1, CHUNKED_TOKEN);
      assert all[i] == fs[i];
    }
  }

  /** One field more. */
  lemma FieldAdds(h: Head, fs: seq<Field>, f: Field, keep: bool)
    requires SaidBy(h, fs, keep)
    ensures var r := WithField(h, f.0, f.1);
            && (r.Some? <==> ProperAt(fs + [f], |fs|))
            && (r.Some? ==> SaidBy(r.value, fs + [f], keep) && r.value.status == h.status && r.value.noBody == h.noBody)
  {
    hide HasToken, ParseLength, ChunkedIn, LengthIn, KeepIn, ProperAt;
    NamesDiffer();
    SaidMore(fs, f, keep);
  }

  lemma ProperBefore(fs: seq<Field>, all: seq<Field>, i: nat)
    requires fs <= all && i < |fs|
    ensures ProperAt(fs, i) == ProperAt(all, i)
  {
    assert all[..i] == fs[..i];
  }

  /** The fields of a head, from the ones before. */
  lemma {:induction false} LinesRead(h: Head, fs: seq<Field>, lines: seq<Line>, keep: bool)
    requires AllSound(lines) && SaidBy(h, fs, keep) && Proper(fs)
    ensures var all := fs + FieldsOf(lines);
            var r := HeadLines(h, Tail(lines), if lines == [] then 0 else |lines| - 1);
            && (r.Some? <==> Proper(all))
            && (r.Some? ==>
                  && r.value.hdr == all && r.value.status == h.status && r.value.noBody == h.noBody
                  && (r.value.chunked <==> ChunkedIn(all)) && (r.value.keepAlive <==> KeepIn(all, keep))
                  && r.value.length == if ChunkedIn(all) then None else LengthIn(all))
    decreases |lines|
  {
    hide ChunkedIn, LengthIn, KeepIn, ProperAt, LineBytes, SoundLine, FieldName, TrimBlank, WithField, LowerAll,
      CutLine;
    var all := fs + FieldsOf(lines);
    if lines == [] {
      assert all == fs;
    } else {
      var l := lines[0];
      var f: Field := (LowerAll(l.name), l.value);
      LineReads(l);
      CutsLine(LineBytes(l), lines[1..]);
      FieldAdds(h, fs, f, keep);
      var more := fs + [f];
      assert all == more + FieldsOf(lines[1..]);
      ProperSnoc(fs, f);
      var g := WithField(h, f.0, f.1);
      if g.Some? {
        LinesRead(g.value, more, lines[1..], keep);
      } else {
        ProperBefore(more, all, |fs|);
      }
    }
  }

  lemma ProperSnoc(fs: seq<Field>, f: Field)
    requires Proper(fs)
    ensures Proper(fs + [f]) <==> ProperAt(fs + [f], |fs|)
  {
    hide ProperAt;
    forall i | 0 <= i < |fs|
      ensures ProperAt(fs + [f], i)
    {
      ProperBefore(fs, fs + [f], i);
    }
  }

  // ----- The head

  lemma {:induction false} HeadEndBehind(text: Bytes, s: Bytes)
    requires Inline(text) && HeadEnd(s) >= 0
    ensures HeadEnd(text + s) == |text| + HeadEnd(s)
    decreases |text|
  {
    if text == [] {
      assert text + s == s;
    } else {
      var all := text + s;
      assert all[..4][0] == text[0];
      assert all[1..] == text[1..] + s;
      HeadEndBehind(text[1..], s);
    }
  }

  lemma BlankAtOnce(rest: Bytes)
    ensures HeadEnd(BLANK_LINE + rest) == 0
  {
    assert (BLANK_LINE + rest)[..4] == BLANK_LINE;
  }

  /** The first blank line is the one at the end. */
  lemma {:induction false} EndsThere(lines: seq<Line>, rest: Bytes)
    requires AllSound(lines)
    ensures HeadEnd(Follow(lines) + (BLANK_LINE + rest)) == |Follow(lines)|
    decreases |lines|
  {
    hide LineBytes, SoundLine, HeadEnd;
    var end := BLANK_LINE + rest;
    if lines == [] {
      assert Follow(lines) + end == end;
      BlankAtOnce(rest);
    } else {
      var b, more := LineBytes(lines[0]), Follow(lines[1..]);
      LineReads(lines[0]);
      EndsThere(lines[1..], rest);
      HeadEndBehind(b, more + end);
      BreakBehind(b, more + end);
      Regroup([CR, LF], b, more, end);
    }
  }

  lemma Regroup(a: Bytes, b: Bytes, c: Bytes, d: Bytes)
    ensures a + b + c + d == a + (b + (c + d))
  {
  }

  /** A break in front of a line is no blank line. */
  lemma BreakBehind(b: Bytes, s: Bytes)
    requires Inline(b) && b != [] && HeadEnd(b + s) >= 0
    ensures HeadEnd([CR, LF] + (b + s)) == 2 + HeadEnd(b + s)
  {
    var all := [CR, LF] + (b + s);
    assert all[..4][2] == b[0];
    assert all[1..] == [LF] + (b + s);
    assert all[1..][..4][0] == LF;
    assert all[1..][1..] == b + s;
  }

  /** A status is the number written. */
  lemma StatusReads(w: Written, verb: Bytes)
    requires Sound(w)
    ensures var t := StatusText(w);
            && Inline(t) && t != []
            && StatusLine(t, verb)
               == Some(Head(w.status, w.minor == 49, verb == HEAD_METHOD || w.status == 204 || w.status == 304, [],
                            false, None))
  {
    var t := StatusText(w);
    assert t[..7] == HTTP_ONE && t[7] == w.minor && t[8] == 32;
    assert t[9] == 48 + w.status / 100 && t[10] == 48 + w.status / 10 % 10 && t[11] == 48 + w.status % 10;
    Hundreds(w.status);
    forall i | 0 <= i < |t|
      ensures t[i] != CR && t[i] != LF && t[i] != 0
    {
      if i >= 12 {
        assert t[i] == w.reason[i - 12];
      } else if i == 7 {
        assert [w.minor][0] == t[i];
      } else if i < 7 {
        assert t[i] == HTTP_ONE[i];
      }
    }
  }

  lemma Hundreds(n: nat)
    requires n < 1000
    ensures n == n / 100 * 100 + n / 10 % 10 * 10 + n % 10
  {
    assert n == n / 10 * 10 + n % 10;
    assert n / 10 == n / 10 / 10 * 10 + n / 10 % 10;
    assert n / 10 / 10 == n / 100;
  }

  /** What a head says. */
  function Said(w: Written, verb: Bytes): Head {
    var fs := FieldsOf(w.lines);
    Head(w.status, KeepIn(fs, w.minor == 49), verb == HEAD_METHOD || w.status == 204 || w.status == 304, fs,
         ChunkedIn(fs), if ChunkedIn(fs) then None else LengthIn(fs))
  }

  /** A head is read as what was written, unless its lengths are no numbers or
      differ. */
  lemma HeadReads(w: Written, verb: Bytes)
    requires Sound(w)
    ensures ParseHead(HeadText(w), verb) == if Proper(FieldsOf(w.lines)) then Some(Said(w, verb)) else None
  {
    hide StatusLine, CutLine, HeadLines, StatusText, CountCR, ChunkedIn, LengthIn, KeepIn, ProperAt;
    var fs := FieldsOf(w.lines);
    StatusReads(w, verb);
    var h := StatusLine(StatusText(w), verb).value;
    CutsLine(StatusText(w), w.lines);
    NoNul(w.lines);
    CountInline(StatusText(w), Follow(w.lines));
    CountBreaks(w.lines);
    NothingSaid(h, w.minor == 49);
    LinesRead(h, [], w.lines, w.minor == 49);
    assert [] + fs == fs;
  }

  lemma NothingSaid(h: Head, keep: bool)
    requires h.hdr == [] && !h.chunked && h.length == None && h.keepAlive == keep
    ensures SaidBy(h, [], keep) && Proper([])
  {
  }

  /** The turn for a head, whatever follows it. */
  lemma HeadIsRead(cfg: Config, p: Parser, w: Written, rest: Bytes)
    requires Sound(w)
    ensures var data := HeadBytes(w) + rest;
            HeadTurn(cfg, p, data)
            == if |HeadBytes(w)| > cfg.maxHeaderBytes then Stop(Failed(HeaderTooLarge))
               else if !Proper(FieldsOf(w.lines)) then Stop(Failed(BadResponse))
               else AfterHead(cfg, p, Said(w, cfg.verb), data, |HeadBytes(w)|)
    ensures (HeadBytes(w) + rest)[|HeadBytes(w)|..] == rest
  {
    hide AfterHead, ParseHead, Said, Proper, StatusText, HeadEnd;
    var data := HeadBytes(w) + rest;
    assert data == StatusText(w) + (Follow(w.lines) + (BLANK_LINE + rest));
    EndsThere(w.lines, rest);
    StatusReads(w, cfg.verb);
    HeadEndBehind(StatusText(w), Follow(w.lines) + (BLANK_LINE + rest));
    assert data[..|HeadText(w)|] == HeadText(w);
    HeadReads(w, cfg.verb);
  }

  // ----- Bodies

  /** The parser awaits a head. */
  predicate Awaits(p: Parser) {
    p.phase == Headers && p.body == [] && p.trailerBytes == 0
  }

  /** A head that is read. */
  predicate Readable(cfg: Config, w: Written) {
    Sound(w) && |HeadBytes(w)| <= cfg.maxHeaderBytes && Proper(FieldsOf(w.lines))
  }

  /** The head of a response whose body follows: neither interim nor without one. */
  predicate Bodied(cfg: Config, w: Written) {
    && Readable(cfg, w) && !(100 <= w.status < 200)
    && cfg.verb != HEAD_METHOD && w.status != 204 && w.status != 304
  }

  predicate IsResponse(r: Result, w: Written, body: Bytes) {
    OutcomeOf(r) == Response(w.status, FieldsOf(w.lines), body)
  }

  /** Interim responses are skipped, but for 101, which is an error. */
  lemma SkipsInterim(cfg: Config, p: Parser, w: Written, rest: Bytes) returns (q: Parser)
    requires Readable(cfg, w) && Awaits(p) && 100 <= w.status < 200
    ensures Awaits(q)
    ensures Advance(cfg, p, HeadBytes(w) + rest)
            == if w.status == 101 then Failed(BadResponse) else Advance(cfg, q, rest)
  {
    hide HeadTurn, FieldsOf, ChunkedIn, LengthIn, KeepIn, HeadBytes, Proper;
    HeadIsRead(cfg, p, w, rest);
    var h := Said(w, cfg.verb);
    q := p.(status := w.status, keepAlive := h.keepAlive, noBody := h.noBody, hdr := []);
  }

  /** A response to HEAD, or one of 204 or 304, has no body. */
  lemma ReadsNoBody(cfg: Config, p: Parser, w: Written, rest: Bytes)
    requires Readable(cfg, w) && Awaits(p) && !(100 <= w.status < 200) && !Bodied(cfg, w)
    ensures var r := Advance(cfg, p, HeadBytes(w) + rest);
            r.Done? && r.unread == rest && IsResponse(r, w, [])
  {
    hide HeadTurn, FieldsOf, ChunkedIn, LengthIn, KeepIn, HeadBytes, Proper;
    HeadIsRead(cfg, p, w, rest);
  }

  /** A response with a length has a body of that many bytes, and what follows is
      left unread. */
  lemma ReadsLength(cfg: Config, p: Parser, w: Written, body: Bytes, rest: Bytes)
    requires Bodied(cfg, w) && Awaits(p) && !ChunkedIn(FieldsOf(w.lines)) && LengthIn(FieldsOf(w.lines)) == Some(|body|)
    ensures var r := Advance(cfg, p, HeadBytes(w) + (body + rest));
            if body != [] && !cfg.streamed(|body|) && |body| > cfg.maxResponseBody then r == Failed(BodyTooLarge)
            else r.Done? && r.unread == rest && IsResponse(r, w, body)
  {
    hide HeadTurn, FieldsOf, ChunkedIn, LengthIn, KeepIn, HeadBytes, Proper;
    HeadIsRead(cfg, p, w, body + rest);
    assert [] + body == body;
    if body == [] {
      assert body + rest == rest;
    } else {
      assert (body + rest)[..|body|] == body && (body + rest)[|body|..] == rest;
    }
  }

  /** A response without either has a body up to the close. */
  lemma ReadsToClose(cfg: Config, p: Parser, w: Written, body: Bytes)
    requires Bodied(cfg, w) && Awaits(p) && !ChunkedIn(FieldsOf(w.lines)) && LengthIn(FieldsOf(w.lines)) == None
    ensures var r := Advance(cfg, p, HeadBytes(w) + body);
            if body != [] && !cfg.streamed(-1) && |body| > cfg.maxResponseBody then r == Failed(BodyTooLarge)
            else r.More? && r.unread == [] && IsResponse(r, w, body)
  {
    hide HeadTurn, FieldsOf, ChunkedIn, LengthIn, KeepIn, HeadBytes, Proper;
    HeadIsRead(cfg, p, w, body);
    assert [] + body == body;
  }

  // ----- Chunks

  /** A chunk: its size in hexadecimal digits, with blanks around it and an
      extension, and its data. */
  datatype Chunk = Chunk(lead: Bytes, digits: Bytes, trail: Bytes, ext: Bytes, data: Bytes)

  predicate SoundSize(c: Chunk, n: nat) {
    && Blanks(c.lead) && Blanks(c.trail) && c.digits != [] && AllHex(c.digits) && HexNumber(c.digits) == n
    && n <= MAX_PARSED_LENGTH && LF !in c.ext && (c.ext != [] ==> c.ext[0] == 59)
    && |SizeText(c)| + 1 < MAX_CHUNK_LINE
  }

  function SizeText(c: Chunk): Bytes {
    c.lead + c.digits + c.trail + c.ext
  }

  function ChunkBytes(c: Chunk): Bytes {
    SizeText(c) + [CR, LF] + c.data + [CR, LF]
  }

  predicate SoundChunk(c: Chunk) {
    c.data != [] && SoundSize(c, |c.data|)
  }

  predicate SoundChunks(cs: seq<Chunk>) {
    forall i :: 0 <= i < |cs| ==> SoundChunk(cs[i])
  }

  function ChunksBytes(cs: seq<Chunk>): Bytes {
    if cs == [] then [] else ChunkBytes(cs[0]) + ChunksBytes(cs[1..])
  }

  function Data(cs: seq<Chunk>): Bytes {
    if cs == [] then [] else cs[0].data + Data(cs[1..])
  }

  lemma HexIsPlain(s: Bytes)
    requires s != [] && AllHex(s)
    ensures LeadingSpace(s) == 0 && TrailingSpace(s) == 0
  {
    hide LeadingSpace, TrailingSpace;
    PlainLeads(s);
    PlainTrails(s);
  }

  lemma PlainLeads(s: Bytes)
    requires s != [] && 32 < s[0] < 128
    ensures LeadingSpace(s) == 0
  {
    hide IsSpace;
    NoSpace(s[..1]);
    if |s| >= 2 { NoSpace(s[..2]); }
    if |s| >= 3 { NoSpace(s[..3]); }
  }

  lemma PlainTrails(s: Bytes)
    requires s != [] && 32 < s[|s| - 1] < 128 && (|s| >= 2 ==> s[|s| - 2] < 128) && (|s| >= 3 ==> s[|s| - 3] < 128)
    ensures TrailingSpace(s) == 0
  {
    LastSpace(s, 1);
    if |s| >= 2 { LastSpace(s, 2); }
    if |s| >= 3 { LastSpace(s, 3); }
    hide IsSpace;
  }

  lemma LastSpace(s: Bytes, k: nat)
    requires 0 < k <= |s| && s[|s| - k] < 128 && (k == 1 ==> 32 < s[|s| - 1])
    ensures !IsSpace(s[|s| - k..])
  {
    hide IsSpace;
    var r := s[|s| - k..];
    assert r[0] == s[|s| - k];
    NoSpace(r);
  }

  /** Of the bytes below 128 only some are white space, each alone. */
  lemma NoSpace(r: Bytes)
    requires r != [] && r[0] < 128 && (|r| == 1 ==> r[0] > 32)
    ensures !IsSpace(r)
  {
    if |r| == 3 { assert r != [0xE1, 0x9A, 0x80] && r != [0xE2, 0x81, 0x9F] && r != [0xE3, 0x80, 0x80]; }
  }

  lemma {:induction false} TrimsSize(lead: Bytes, digits: Bytes, trail: Bytes)
    requires Blanks(lead) && Blanks(trail) && digits != [] && AllHex(digits)
    ensures TrimSpace(lead + digits + trail) == digits
    decreases |lead| + |trail|
  {
    hide AllHex, Blanks, LeadingSpace, TrailingSpace;
    var s := lead + digits + trail;
    if lead != [] {
      BlankLeads(lead, digits + trail);
      assert s == lead + (digits + trail) && s[1..] == lead[1..] + digits + trail;
      TrimsSize(lead[1..], digits, trail);
    } else if trail != [] {
      BlankTrails(digits, trail);
      assert s == digits + trail && s[..|s| - 1] == [] + digits + trail[..|trail| - 1];
      TrimsSize([], digits, trail[..|trail| - 1]);
    } else {
      assert s == digits;
      HexIsPlain(digits);
    }
  }

  lemma BlankLeads(lead: Bytes, rest: Bytes)
    requires lead != [] && Blanks(lead)
    ensures LeadingSpace(lead + rest) == 1 && Blanks(lead[1..])
  {
    assert (lead + rest)[..1] == [lead[0]];
    assert IsSpace([lead[0]]);
  }

  lemma BlankTrails(digits: Bytes, trail: Bytes)
    requires trail != [] && Blanks(trail) && digits != [] && AllHex(digits)
    ensures LeadingSpace(digits + trail) == 0 && TrailingSpace(digits + trail) == 1 && Blanks(trail[..|trail| - 1])
  {
    var s := digits + trail;
    assert s[0] == digits[0];
    assert s[|s| - 1..] == [trail[|trail| - 1]];
    assert IsSpace([trail[|trail| - 1]]);
    hide LeadingSpace;
    PlainLeads(s);
  }

  /** A size is the number its digits stand for. */
  lemma SizeIsRead(c: Chunk, n: nat)
    requires SoundSize(c, n)
    ensures ChunkLength(SizeText(c) + [CR]) == Some(n) && LF !in SizeText(c)
  {
    hide TrimSpace, HexNumber;
    var line := SizeText(c);
    var raw := line + [CR];
    assert raw[..|raw| - 1] == line;
    var size := c.lead + c.digits + c.trail;
    TrimsSize(c.lead, c.digits, c.trail);
    assert 59 !in size && LF !in size;
    if c.ext == [] {
      assert line == size;
      IndexAbsent(size, 59);
    } else {
      assert line[..|size|] == size && line[|size|] == 59;
      IndexIs(line, 59, |size|);
    }
  }

  lemma SizeTurnIs(cfg: Config, p: Parser, c: Chunk, n: nat, rest: Bytes)
    requires SoundSize(c, n)
    ensures var used := |SizeText(c)| + 2;
            SizeTurn(cfg, p, SizeText(c) + [CR, LF] + rest)
            == if n == 0 then Go(p.(phase := Trailers), used)
               else if !p.stream && n > cfg.maxResponseBody - |p.body| then Stop(Failed(BodyTooLarge))
               else Go(p.(phase := ChunkData, remaining := n), used)
  {
    hide ChunkLength;
    SizeIsRead(c, n);
    hide SizeText;
    var line := SizeText(c) + [CR];
    var data := SizeText(c) + [CR, LF] + rest;
    assert data[..|line|] == line && data[|line|] == LF;
    IndexIs(data, LF, |line|);
  }

  /** A chunk is read as its data, unless that is too much. */
  lemma ChunkIsRead(cfg: Config, p: Parser, c: Chunk, rest: Bytes)
    requires SoundChunk(c) && p.phase == ChunkSize
    ensures Advance(cfg, p, ChunkBytes(c) + rest)
            == if !p.stream && |p.body| + |c.data| > cfg.maxResponseBody then Failed(BodyTooLarge)
               else Advance(cfg, p.(body := p.body + c.data, remaining := 0), rest)
  {
    hide SizeTurn, SoundSize, SizeText;
    var n := |c.data|;
    var after := c.data + ([CR, LF] + rest);
    var data := ChunkBytes(c) + rest;
    assert data == SizeText(c) + [CR, LF] + after;
    SizeTurnIs(cfg, p, c, n, after);
    assert data[|SizeText(c)| + 2..] == after;
    if p.stream || |p.body| + n <= cfg.maxResponseBody {
      var q := p.(phase := ChunkData, remaining := n);
      assert Advance(cfg, p, data) == Advance(cfg, q, after);
      DataIsRead(cfg, q, c.data, rest);
    }
  }

  lemma DataIsRead(cfg: Config, q: Parser, body: Bytes, rest: Bytes)
    requires q.phase == ChunkData && q.remaining == |body| > 0
    ensures Advance(cfg, q, body + ([CR, LF] + rest))
            == Advance(cfg, q.(phase := ChunkSize, body := q.body + body, remaining := 0), rest)
  {
    var end := [CR, LF] + rest;
    var data := body + end;
    var s := q.(phase := ChunkCRLF, body := q.body + body, remaining := 0);
    assert data[..|body|] == body && data[|body|..] == end;
    assert OneTurn(cfg, q, data) == Go(s, |body|);
    assert end[2..] == rest;
    assert OneTurn(cfg, s, end) == Go(s.(phase := ChunkSize), 2);
  }

  lemma {:induction false} ChunksAreRead(cfg: Config, p: Parser, cs: seq<Chunk>, rest: Bytes)
    requires SoundChunks(cs) && p.phase == ChunkSize
    ensures var r := Advance(cfg, p, ChunksBytes(cs) + rest);
            if !p.stream && cs != [] && |p.body| + |Data(cs)| > cfg.maxResponseBody then r == Failed(BodyTooLarge)
            else
              r == Advance(cfg, if cs == [] then p else p.(body := p.body + Data(cs), remaining := 0), rest)
    decreases |cs|
  {
    hide OneTurn, Advance, ChunkBytes, SoundChunk;
    if cs == [] {
      assert ChunksBytes(cs) + rest == rest;
    } else {
      var more := ChunksBytes(cs[1..]) + rest;
      assert ChunksBytes(cs) + rest == ChunkBytes(cs[0]) + more;
      ChunkIsRead(cfg, p, cs[0], more);
      var q := p.(body := p.body + cs[0].data, remaining := 0);
      ChunksAreRead(cfg, q, cs[1..], rest);
      assert p.body + (cs[0].data + Data(cs[1..])) == q.body + Data(cs[1..]);
      if cs[1..] == [] { assert Data(cs) == cs[0].data; }
    }
  }

  /** Trailer lines, none of them empty. */
  predicate SoundTrailers(ts: seq<Bytes>) {
    forall i :: 0 <= i < |ts| ==> ts[i] != [] && LF !in ts[i]
  }

  function TrailerBytes(ts: seq<Bytes>): Bytes {
    if ts == [] then [CR, LF] else ts[0] + [CR, LF] + TrailerBytes(ts[1..])
  }

  /** The turn for a line of the trailers; an empty one ends them. */
  lemma TrailerTurnIs(cfg: Config, p: Parser, line: Bytes, rest: Bytes)
    requires LF !in line
    ensures var used := |line| + 2;
            TrailerTurn(cfg, p, line + [CR, LF] + rest)
            == if p.trailerBytes + used > cfg.maxHeaderBytes then Stop(Failed(HeaderTooLarge))
               else
                 var q := p.(trailerBytes := p.trailerBytes + used);
                 if line == [] then Stop(Done(q, rest)) else Go(q, used)
    ensures (line + [CR, LF] + rest)[|line| + 2..] == rest
  {
    var data := line + [CR, LF] + rest;
    assert data[..|line| + 1] == line + [CR] && data[|line| + 1] == LF && data[|line|] == CR;
    IndexIs(data, LF, |line| + 1);
  }

  /** Trailers are passed over up to the empty line, within the limit of a head. */
  lemma {:induction false} TrailersAreRead(cfg: Config, p: Parser, ts: seq<Bytes>, rest: Bytes)
    requires SoundTrailers(ts) && p.phase == Trailers
    ensures Advance(cfg, p, TrailerBytes(ts) + rest)
            == if p.trailerBytes + |TrailerBytes(ts)| > cfg.maxHeaderBytes then Failed(HeaderTooLarge)
               else Done(p.(trailerBytes := p.trailerBytes + |TrailerBytes(ts)|), rest)
    decreases |ts|
  {
    hide HeadTurn, SizeTurn, DataTurn, TrailerTurn;
    if ts == [] {
      assert TrailerBytes(ts) + rest == [] + [CR, LF] + rest;
      TrailerTurnIs(cfg, p, [], rest);
    } else {
      var more := TrailerBytes(ts[1..]) + rest;
      assert TrailerBytes(ts) + rest == ts[0] + [CR, LF] + more;
      TrailerTurnIs(cfg, p, ts[0], more);
      TrailersAreRead(cfg, p.(trailerBytes := p.trailerBytes + |ts[0]| + 2), ts[1..], rest);
    }
  }

  /** A chunked response has the data of its chunks as body, and what follows its
      last line is left unread. */
  lemma ReadsChunked(cfg: Config, p: Parser, w: Written, cs: seq<Chunk>, zero: Chunk, ts: seq<Bytes>, rest: Bytes)
    requires Bodied(cfg, w) && Awaits(p) && ChunkedIn(FieldsOf(w.lines))
    requires SoundChunks(cs) && SoundSize(zero, 0) && SoundTrailers(ts)
    ensures var r := Advance(cfg, p, HeadBytes(w)
                                     + (ChunksBytes(cs) + (SizeText(zero) + [CR, LF] + (TrailerBytes(ts) + rest))));
            if !cfg.streamed(-1) && |Data(cs)| > cfg.maxResponseBody then r == Failed(BodyTooLarge)
            else if |TrailerBytes(ts)| > cfg.maxHeaderBytes then r == Failed(HeaderTooLarge)
            else r.Done? && r.unread == rest && IsResponse(r, w, Data(cs))
  {
    hide HeadTurn, SizeTurn, DataTurn, TrailerTurn, FieldsOf, ChunkedIn, LengthIn, KeepIn, HeadBytes, Proper,
      ChunksBytes, SizeText, SoundSize;
    var end := TrailerBytes(ts) + rest;
    var last := SizeText(zero) + [CR, LF] + end;
    HeadIsRead(cfg, p, w, ChunksBytes(cs) + last);
    var h := Said(w, cfg.verb);
    var q := p.(status := h.status, keepAlive := h.keepAlive, noBody := h.noBody, hdr := h.hdr,
                stream := cfg.streamed(-1), phase := ChunkSize);
    ChunksAreRead(cfg, q, cs, last);
    assert [] + Data(cs) == Data(cs);
    if cs == [] { assert Data(cs) == []; }
    if q.stream || |Data(cs)| <= cfg.maxResponseBody {
      var s := if cs == [] then q else q.(body := Data(cs), remaining := 0);
      SizeTurnIs(cfg, s, zero, 0, end);
      assert last[|SizeText(zero)| + 2..] == end;
      TrailersAreRead(cfg, s.(phase := Trailers), ts, rest);
    }
  }

  // ----- What tokens and lengths are

  /** A token is one of the items between commas, blanks around it and case aside. */
  predicate Listed(value: Bytes, token: Bytes) {
    exists i :: 0 <= i < |Pieces(44, value)| && EqualFold(TrimBlank(Pieces(44, value)[i]), token)
  }

  lemma {:induction false} TokenIsListed(value: Bytes, token: Bytes)
    ensures HasToken(value, token) <==> Listed(value, token)
    decreases |value|
  {
    hide EqualFold, TrimBlank, Pieces;
    var comma := IndexByte(value, 44);
    if comma < 0 {
      OnePiece(44, value);
      assert HasToken(value, token) <==> EqualFold(TrimBlank([value][0]), token);
    } else {
      var first: Bytes, rest: Bytes := value[..comma], value[comma + 1..];
      assert value == first + [44] + rest;
      PiecesCat(44, first, rest);
      OnePiece(44, first);
      TokenIsListed(rest, token);
      ListedCons(first, Pieces(44, rest), token);
    }
  }

  lemma ListedCons(first: Bytes, rest: seq<Bytes>, token: Bytes)
    ensures (exists i :: 0 <= i < |[first] + rest| && EqualFold(TrimBlank(([first] + rest)[i]), token))
            <==> EqualFold(TrimBlank(first), token)
                 || exists i :: 0 <= i < |rest| && EqualFold(TrimBlank(rest[i]), token)
  {
    hide EqualFold, TrimBlank;
    var all := [first] + rest;
    if i :| 0 <= i < |rest| && EqualFold(TrimBlank(rest[i]), token) {
      assert all[i + 1] == rest[i];
    }
    if EqualFold(TrimBlank(first), token) {
      assert all[0] == first;
    }
  }

  /** A number as written. */
  function Text(n: nat): Bytes {
    if n < 10 then [48 + n] else Text(n / 10) + [48 + n % 10]
  }

  lemma {:induction false} TextIsNumber(n: nat)
    ensures Text(n) != [] && (forall i :: 0 <= i < |Text(n)| ==> IsDigit(Text(n)[i])) && Decimal(Text(n)) == n
  {
    if n < 10 {
      assert Text(n)[..0] == [];
    } else {
      TextIsNumber(n / 10);
      assert Text(n)[..|Text(n)| - 1] == Text(n / 10);
    }
  }

  /** A length is the number written. */
  lemma LengthIsNumber(n: nat)
    requires n < 0x8000_0000_0000_0000
    ensures ParseLength(Text(n)) == Some(n)
  {
    hide Decimal;
    TextIsNumber(n);
  }

  /** All lengths of a list that is read say the same. */
  lemma {:induction false} TheLength(fs: seq<Field>, i: nat)
    requires Proper(fs) && i < |fs| && fs[i].0 == CONTENT_LENGTH
    ensures LengthIn(fs) == ParseLength(fs[i].1) && LengthIn(fs).Some?
  {
    hide ParseLength;
    var n := |fs| - 1;
    assert ProperAt(fs, n);
    if i < n {
      var init := fs[..n];
      assert init[i] == fs[i];
      forall k | 0 <= k < n
        ensures ProperAt(init, k)
      {
        ProperBefore(init, fs, k);
      }
      TheLength(init, i);
    }
  }

  /** However a response is cut into reads, it is read the same. */
  lemma ReadsInAnyCut(cfg: Config, segs: seq<Bytes>, message: Bytes)
    requires Concat(segs) == message
    ensures OutcomeOf(Feed(cfg, H1Response.More(START, []), segs)) == OutcomeOf(Advance(cfg, START, message))
  {
    hide OneTurn;
    NothingYet(cfg);
    FeedAll(cfg, START, [], segs);
    assert [] + Concat(segs) == message;
  }

  lemma NothingYet(cfg: Config)
    ensures Advance(cfg, START, []) == H1Response.More(START, []) && Awaits(START)
  {
    assert HeadEnd([]) == -1;
  }
}
