/** Requests from header blocks (core/hpack.go): what the fields of a block have to
    be, and the plain way to decode one. */
module H2Request {
  import opened ByteStrings
  import opened HpackTable
  import opened HpackStatic
  import opened HpackCodec

  // ----- Names, values, paths

  predicate NameByte(c: Byte) {
    0x21 <= c < 0x7F && c != 58 && !(65 <= c <= 90)
  }

  /** `isValidH2FieldName` */
  predicate ValidName(name: Bytes) {
    && name != []
    && if name[0] == 58 then |name| > 1 && (forall i :: 1 <= i < |name| ==> NameByte(name[i]))
       else forall i :: 0 <= i < |name| ==> NameByte(name[i])
  }

  predicate Blank(c: Byte) {
    c == 32 || c == 9
  }

  /** `isValidH2FieldValue` */
  predicate ValidValue(value: Bytes) {
    && (value != [] ==> !Blank(value[0]) && !Blank(value[|value| - 1]))
    && CR !in value && LF !in value && 0 !in value
  }

  /** `isValidH2Path` */
  predicate ValidPath(path: Bytes) {
    forall i :: 0 <= i < |path| ==> path[i] >= 0x21 && path[i] != 0x7F
  }

  predicate TokenByte(c: Byte) {
    48 <= c <= 57 || 65 <= c <= 90 || 97 <= c <= 122
      || c in {33, 35, 36, 37, 38, 39, 42, 43, 45, 46, 94, 95, 96, 124, 126}
  }

  /** `isH1Token` */
  predicate Token(s: Bytes) {
    s != [] && forall i :: 0 <= i < |s| ==> TokenByte(s[i])
  }

  predicate HostByte(c: Byte) {
    || 48 <= c <= 57 || 65 <= c <= 90 || 97 <= c <= 122
    || c in {45, 46, 95, 126, 37, 33, 36, 38, 39, 40, 41, 42, 43, 44, 59, 61, 58, 91, 93}
  }

  /** `ValidateHost` */
  predicate ValidHost(host: Bytes) {
    forall i :: 0 <= i < |host| ==> HostByte(host[i])
  }

  function Number(s: Bytes): nat
    requires forall i :: 0 <= i < |s| ==> 48 <= s[i] <= 57
  {
    if s == [] then 0 else 10 * Number(s[..|s| - 1]) + (s[|s| - 1] - 48)
  }

  /** `parseUint` */
  function ParseUint(s: Bytes): Option<nat> {
    if s != [] && (forall i :: 0 <= i < |s| ==> 48 <= s[i] <= 57) && Number(s) <= 0x4_0000_0000_0000
      then Some(Number(s))
    else None
  }

  /** `isH2ConnectionSpecificField` */
  predicate ConnectionField(f: Field) {
    || f.name == Ascii("connection") || f.name == Ascii("proxy-connection") || f.name == Ascii("keep-alive")
    || f.name == Ascii("transfer-encoding") || f.name == Ascii("upgrade")
    || (f.name == Ascii("te") && LowerAll(f.value) != Ascii("trailers"))
  }

  function Until(s: Bytes, c: Byte): Bytes {
    if IndexByte(s, c) >= 0 then s[..IndexByte(s, c)] else s
  }

  /** The part of `splitPathQuery` behind the question mark. */
  function Query(raw: Bytes): Bytes {
    if IndexByte(raw, 63) >= 0 then raw[IndexByte(raw, 63) + 1..] else []
  }

  /** `sanitizeRequestPath` */
  function Sanitize(path: Bytes): Bytes {
    CleanPath(Until(Until(Until(Until(path, 0), CR), LF), 63))
  }

  const SLASH: Byte := 47
  const DOT: Byte := 46

  /** A slash before a slash or a dot. */
  predicate Untidy(p: Bytes) {
    exists i :: 0 <= i < |p| - 1 && p[i] == SLASH && (p[i + 1] == SLASH || p[i + 1] == DOT)
  }

  /** `sanitizeSplitPath` */
  function CleanPath(p: Bytes): Bytes {
    if p == [] then [SLASH]
    else if p[0] == SLASH && !Untidy(p) then p
    else
      var q := if p[0] == SLASH then p else [SLASH] + p;
      var segs := Segments(q[1..], []);
      if segs == [] then [SLASH] else Joined(segs)
  }

  /** The segments of a path, dots resolved, behind those already there. */
  function Segments(p: Bytes, segs: seq<Bytes>): seq<Bytes>
    decreases |p|
  {
    var k := IndexByte(p, SLASH);
    var now := Resolved(segs, if k >= 0 then p[..k] else p);
    if k >= 0 then Segments(p[k + 1..], now) else now
  }

  /** One segment more, with its dots resolved. */
  function Resolved(segs: seq<Bytes>, seg: Bytes): seq<Bytes> {
    if seg == [] || seg == [DOT] then segs
    else if seg == [DOT, DOT] then (if segs == [] then [] else segs[..|segs| - 1])
    else segs + [seg]
  }

  function Joined(segs: seq<Bytes>): Bytes {
    if segs == [] then [] else Joined(segs[..|segs| - 1]) + [SLASH] + segs[|segs| - 1]
  }

  // ----- The request so far

  /** `hpackRequestMeta` */
  datatype Meta = Meta(
    verb: Bytes, path: Bytes, rawPath: Bytes, query: Bytes, scheme: Bytes, authority: Bytes, length: Option<nat>,
    hasMethod: bool, hasScheme: bool, hasPath: bool, hasAuthority: bool, hasProtocol: bool,
    sawRegular: bool, allowProtocol: bool, protocolSet: bool, webSocket: bool)

  function NoMeta(allow: bool): Meta {
    Meta([], [], [], [], [], [], None, false, false, false, false, false, false, allow, false, false)
  }

  /** The pseudo-fields of `observeHeader`. */
  function ObservePseudo(m: Meta, f: Field): Option<Meta> {
    if m.sawRegular then None
    else if f.name == Ascii(":method") then
      if m.hasMethod || (f.value != [] && f.value != Ascii("GET") && !Token(f.value)) then None
      else Some(m.(hasMethod := true, verb := f.value))
    else if f.name == Ascii(":path") then
      if m.hasPath || !ValidPath(f.value) then None
      else
        var path := if f.value == [SLASH] then [SLASH] else Sanitize(f.value);
        Some(m.(hasPath := true, rawPath := f.value, query := Query(f.value), path := path))
    else if !ValidValue(f.value) then None
    else if f.name == Ascii(":scheme") then
      if m.hasScheme then None else Some(m.(hasScheme := true, scheme := f.value))
    else if f.name == Ascii(":authority") then
      if m.hasAuthority || !ValidHost(f.value) then None else Some(m.(hasAuthority := true, authority := f.value))
    else if f.name == Ascii(":protocol") then
      if !m.allowProtocol || m.hasProtocol then None
      else Some(m.(hasProtocol := true, protocolSet := f.value != [],
        webSocket := LowerAll(f.value) == Ascii("websocket")))
    else None
  }

  /** `observeHeader`; nothing is an error of the whole connection. */
  function Observe(m: Meta, f: Field): Option<Meta> {
    if !ValidName(f.name) then None
    else if f.name[0] == 58 then ObservePseudo(m, f)
    else if !ValidValue(f.value) || ConnectionField(f) then None
    else if f.name == Ascii("content-length") then
      match ParseUint(f.value)
      case None => None
      case Some(n) =>
        if m.length.Some? && m.length.value != n then None else Some(m.(sawRegular := true, length := Some(n)))
    else Some(m.(sawRegular := true))
  }

  /** `validate` */
  predicate WellFormed(m: Meta) {
    if m.hasProtocol then
      && m.verb == Ascii("CONNECT") && m.protocolSet && m.authority != [] && m.scheme != [] && m.path != []
      && m.rawPath != [] && m.rawPath[0] == SLASH
    else if m.verb == Ascii("CONNECT") then m.authority != [] && m.scheme == [] && m.path == []
    else
      && m.verb != [] && m.scheme != [] && m.path != []
      && m.rawPath != [] && (m.rawPath[0] == SLASH || (m.rawPath == [42] && m.verb == Ascii("OPTIONS")))
  }

  // ----- The general loop

  /** A connection error, a request that is malformed, or a request. Only the
      first leaves part of the block unread. */
  datatype Request =
    | Fatal(error: Error)
    | Malformed(fields: seq<Field>, meta: Meta, d: Dec)
    | Accepted(fields: seq<Field>, meta: Meta, d: Dec)

  /** The loop of `DecodeIntoRequest`, with `fields` and `meta` from what was read. */
  ghost function General(d: Dec, data: Bytes, fields: seq<Field>, meta: Meta): Request
    decreases |data|
  {
    if data == [] then
      if WellFormed(meta) then Accepted(fields, meta, d) else Malformed(fields, meta, d)
    else
      var s := OneStep(d, data, fields == []);
      if s.Wrong? then Fatal(s.error)
      else if s.Resize? then General(s.d, data[s.n..], fields, meta)
      else
        match Observe(meta, s.f)
        case None => Fatal(BadHeader)
        case Some(m) =>
          if |fields| + 1 > MAX_HEADERS then Fatal(TooManyHeaders)
          else General(s.d, data[s.n..], fields + [s.f], m)
  }

  /** Unless the connection ends, the whole block was decoded, malformed request
      or not: the fields and the table are those of a full decode. */
  lemma {:induction false} GeneralIsFull(d: Dec, data: Bytes, fields: seq<Field>, meta: Meta)
    ensures var r := General(d, data, fields, meta);
            !r.Fatal? ==> DecodeBlock(d, data, fields) == Fields(r.fields, r.d)
    decreases |data|
  {
    hide OneStep, Observe, WellFormed;
    if data != [] {
      var s := OneStep(d, data, fields == []);
      if s.Resize? {
        GeneralIsFull(s.d, data[s.n..], fields, meta);
      } else if s.Emit? && Observe(meta, s.f).Some? && |fields| + 1 <= MAX_HEADERS {
        GeneralIsFull(s.d, data[s.n..], fields + [s.f], Observe(meta, s.f).value);
      }
    }
  }
}
