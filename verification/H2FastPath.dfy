/** The shortcuts around the plain request decoder: the GET-path block, the
    three-byte root block and the memo (core/hpack.go,
    core/epoll_h2_linux_amd64.go), against a full decode. */
module H2FastPath {
  import opened ByteStrings
  import opened HpackInt
  import opened HpackTable
  import opened HpackStatic
  import opened HpackCodec
  import opened HpackBound
  import opened H2Request

  // ----- Single steps of the short blocks

  lemma SmallIndex(d: Dec, b: Byte, rest: Bytes, first: bool)
    requires 0x81 <= b <= 0x80 + STATIC_COUNT
    ensures OneStep(d, [b] + rest, first) == Emit(Static(b - 0x80), 1, d)
  {
    hide Static, ReadLiteral;
    Widths(7);
  }

  lemma PathLiteral(d: Dec, rest: Bytes, first: bool)
    requires ReadString(rest).Str?
    ensures OneStep(d, [0x04] + rest, first)
            == Emit(Field(Static(4).name, ReadString(rest).s), 1 + ReadString(rest).n, d)
  {
    hide Static, ReadString;
    Widths(4);
    assert ([0x04] + rest)[1..] == rest;
  }

  lemma Pseudo()
    ensures Static(2) == Field(Ascii(":method"), Ascii("GET")) && Static(4) == Field(Ascii(":path"), [SLASH])
    ensures Static(7) == Field(Ascii(":scheme"), Ascii("https"))
  {
    assert Ascii("/") == [SLASH];
  }

  lemma LowerName(s: string)
    requires |s| > 1 && s[0] == ':' && forall i :: 1 <= i < |s| ==> 'a' <= s[i] <= 'z'
    ensures ValidName(Ascii(s)) && Ascii(s)[0] == 58
  {
  }

  lemma PseudoValid()
    ensures ValidName(Ascii(":method")) && ValidName(Ascii(":path")) && ValidName(Ascii(":scheme"))
            && ValidValue(Ascii("https"))
    ensures Ascii(":method")[0] == 58 && Ascii(":path")[0] == 58 && Ascii(":scheme")[0] == 58
    ensures ValidPath([SLASH]) && Ascii("GET") != [] && Ascii("https") != [] && Ascii("GET") != Ascii("CONNECT")
  {
    hide ValidName;
    LowerName(":method");
    LowerName(":path");
    LowerName(":scheme");
    assert |Ascii("GET")| != |Ascii("CONNECT")|;
  }

  lemma DifferentNames()
    ensures Ascii(":method") != Ascii(":path") && Ascii(":method") != Ascii(":scheme")
            && Ascii(":path") != Ascii(":scheme")
  {
    assert |Ascii(":method")| != |Ascii(":path")| && |Ascii(":scheme")| != |Ascii(":path")|;
    assert Ascii(":method")[1] != Ascii(":scheme")[1];
  }

  /** A GET with this scheme and path, by the fields seen so far. */
  function WithMethod(m: Meta): Meta {
    m.(hasMethod := true, verb := Ascii("GET"))
  }

  function WithPath(m: Meta, raw: Bytes): Meta {
    m.(hasPath := true, rawPath := raw, query := Query(raw), path := if raw == [SLASH] then [SLASH] else Sanitize(raw))
  }

  function WithScheme(m: Meta): Meta {
    m.(hasScheme := true, scheme := Ascii("https"))
  }

  lemma Observes(m: Meta, raw: Bytes)
    requires !m.sawRegular
    ensures !m.hasMethod ==> Observe(m, Static(2)) == Some(WithMethod(m))
    ensures !m.hasPath ==>
              Observe(m, Field(Static(4).name, raw)) == if ValidPath(raw) then Some(WithPath(m, raw)) else None
    ensures !m.hasScheme ==> Observe(m, Static(7)) == Some(WithScheme(m))
  {
    Pseudo();
    PseudoValid();
    DifferentNames();
    hide Static, ValidName, ValidValue, ValidPath, Token, Sanitize, Query;
  }

  /** One field further in the general loop. */
  lemma Onward(d: Dec, data: Bytes, fields: seq<Field>, meta: Meta, f: Field, n: nat)
    requires data != [] && OneStep(d, data, fields == []) == Emit(f, n, d) && |fields| < MAX_HEADERS
    ensures General(d, data, fields, meta)
            == match Observe(meta, f)
               case None => Fatal(BadHeader)
               case Some(m) => General(d, data[n..], fields + [f], m)
  {
    hide OneStep, Observe, WellFormed;
  }

  // ----- The GET-path block

  /** The shape `decodeSimpleGetPathHTTPSRequest` looks for. */
  ghost predicate IsFast(data: Bytes) {
    && |data| >= 4 && data[0] == 0x82 && data[1] == 0x04 && data[|data| - 1] == 0x87
    && ReadString(data[2..]).Str? && 2 + ReadString(data[2..]).n + 1 == |data|
  }

  ghost function FastPath(data: Bytes): Bytes
    requires IsFast(data)
  {
    ReadString(data[2..]).s
  }

  /** The headers it returns hold the sanitized path. */
  function FastFields(path: Bytes): seq<Field> {
    [Text(":method", "GET"), Field(Ascii(":path"), Sanitize(path)), Text(":scheme", "https")]
  }

  function FastMeta(path: Bytes): Meta {
    NoMeta(false).(verb := Ascii("GET"), path := Sanitize(path), rawPath := path, query := Query(path),
      scheme := Ascii("https"))
  }

  function FastResult(d: Dec, path: Bytes): Request {
    if !ValidPath(path) then Fatal(BadHeader)
    else if WellFormed(FastMeta(path)) then Accepted(FastFields(path), FastMeta(path), d)
    else Malformed(FastFields(path), FastMeta(path), d)
  }

  /** Two requests a handler cannot tell apart. */
  predicate SameRequest(a: Meta, b: Meta) {
    && a.verb == b.verb && a.path == b.path && a.rawPath == b.rawPath && a.query == b.query && a.scheme == b.scheme
    && a.authority == b.authority && a.length == b.length && a.protocolSet == b.protocolSet
      && a.webSocket == b.webSocket
  }

  /** The fields that are not pseudo-fields. */
  function Regular(fields: seq<Field>): seq<Field> {
    if fields == [] then []
    else
      var f := fields[|fields| - 1];
      Regular(fields[..|fields| - 1]) + if f.name != [] && f.name[0] == 58 then [] else [f]
  }

  predicate Agree(a: Request, b: Request) {
    && (a.Fatal? ==> b == a)
    && (a.Malformed? ==> b.Malformed?) && (a.Accepted? ==> b.Accepted?)
    && (!a.Fatal? && !b.Fatal? ==> a.d == b.d && SameRequest(a.meta, b.meta) && Regular(a.fields) == Regular(b.fields))
  }

  /** What the general loop makes of such a block. */
  lemma GeneralFast(d: Dec, data: Bytes, allow: bool)
    requires IsFast(data)
    ensures var path := FastPath(data);
            var m := WithScheme(WithPath(WithMethod(NoMeta(allow)), path));
            General(d, data, [], NoMeta(allow))
            == if !ValidPath(path) then Fatal(BadHeader)
               else if WellFormed(m) then Accepted([Static(2), Field(Static(4).name, path), Static(7)], m, d)
               else Malformed([Static(2), Field(Static(4).name, path), Static(7)], m, d)
  {
    hide General, OneStep, Observe, WellFormed, ReadString, Static, ValidPath, Sanitize, Query;
    var m0 := NoMeta(allow);
    var m1 := WithMethod(m0);
    var path := FastPath(data);
    assert data == [0x82] + data[1..];
    SmallIndex(d, 0x82, data[1..], true);
    Onward(d, data, [], m0, Static(2), 1);
    Observes(m0, path);
    assert [] + [Static(2)] == [Static(2)];
    AfterMethod(d, data, m1);
    if ValidPath(path) { AfterPath(d, path, WithPath(m1, path)); }
  }

  /** Behind the method of such a block. */
  lemma AfterMethod(d: Dec, data: Bytes, m: Meta)
    requires IsFast(data) && m == WithMethod(NoMeta(m.allowProtocol))
    ensures var path := FastPath(data);
            General(d, data[1..], [Static(2)], m)
            == if !ValidPath(path) then Fatal(BadHeader)
               else General(d, [0x87], [Static(2), Field(Static(4).name, path)], WithPath(m, path))
  {
    hide General, OneStep, Observe, WellFormed, ReadString, Static, ValidPath, Sanitize, Query;
    var rest := data[2..];
    var s := ReadString(rest);
    assert data[1..] == [0x04] + rest && data[1..][1 + s.n..] == [0x87];
    PathLiteral(d, rest, false);
    var f := Field(Static(4).name, s.s);
    assert [Static(2)] + [f] == [Static(2), f];
    Onward(d, data[1..], [Static(2)], m, f, 1 + s.n);
    Observes(m, s.s);
  }

  /** Behind its path. */
  lemma AfterPath(d: Dec, path: Bytes, m: Meta)
    requires !m.hasScheme && !m.sawRegular
    ensures var fields, all := [Static(2), Field(Static(4).name, path), Static(7)], WithScheme(m);
            General(d, [0x87], [Static(2), Field(Static(4).name, path)], m)
            == if WellFormed(all) then Accepted(fields, all, d) else Malformed(fields, all, d)
  {
    hide General, OneStep, Observe, WellFormed, ReadString, Static, ValidPath, Sanitize, Query;
    var f := Field(Static(4).name, path);
    assert [0x87] + [] == [0x87] && [0x87][1..] == [];
    assert [Static(2), f] + [Static(7)] == [Static(2), f, Static(7)];
    SmallIndex(d, 0x87, [], false);
    Onward(d, [0x87], [Static(2), f], m, Static(7), 1);
    Observes(m, path);
    Finish(d, [Static(2), f, Static(7)], WithScheme(m));
  }

  lemma Finish(d: Dec, fields: seq<Field>, meta: Meta)
    ensures General(d, [], fields, meta)
            == if WellFormed(meta) then Accepted(fields, meta, d) else Malformed(fields, meta, d)
  {
  }

  lemma SanitizeRoot()
    ensures Sanitize([SLASH]) == [SLASH]
  {
    IndexAbsent([SLASH], 0);
    IndexAbsent([SLASH], CR);
    IndexAbsent([SLASH], LF);
    IndexAbsent([SLASH], 63);
  }

  /** The shortcut gives the request the general loop gives: same method, path,
      query and scheme, no regular fields, the same table, the same errors. */
  lemma FastAgrees(d: Dec, data: Bytes, allow: bool)
    requires IsFast(data)
    ensures Agree(General(d, data, [], NoMeta(allow)), FastResult(d, FastPath(data)))
  {
    hide General, Sanitize, Query, ValidPath, ReadString;
    GeneralFast(d, data, allow);
    Pseudo();
    hide Static;
    SanitizeRoot();
    PseudoOnly(FastPath(data));
    PseudoOnly(Sanitize(FastPath(data)));
  }

  lemma PseudoOnly(path: Bytes)
    ensures Regular([Field(Ascii(":method"), Ascii("GET")), Field(Ascii(":path"), path),
                     Field(Ascii(":scheme"), Ascii("https"))]) == []
  {
    var a, b, c := Field(Ascii(":method"), Ascii("GET")), Field(Ascii(":path"), path),
      Field(Ascii(":scheme"), Ascii("https"));
    assert a.name[0] == 58 && b.name[0] == 58 && c.name[0] == 58;
    assert [a][..0] == [] && Regular([a]) == [];
    assert [a, b][..1] == [a] && Regular([a, b]) == [];
    assert [a, b, c][..2] == [a, b];
  }

  // ----- The root block

  /** The indexed fields for GET, the root path and https, once each. */
  predicate RootBlock(block: Bytes) {
    |block| == 3 && 0x82 in block && 0x84 in block && 0x87 in block
  }

  /** `matchIndexedH2FastRootHeaderBlock` */
  method MatchRoot(block: Bytes) returns (ok: bool)
    ensures ok <==> RootBlock(block)
  {
    if |block| != 3 { return false; }
    var seen: set<Byte> := {};
    for i := 0 to 3
      invariant forall c :: c in seen <==> c in block[..i]
      invariant forall k :: 0 <= k < i ==> block[k] in {0x82, 0x84, 0x87}
    {
      assert block[..i + 1] == block[..i] + [block[i]];
      match block[i] {
        case 0x82 => seen := seen + {0x82};
        case 0x84 => seen := seen + {0x84};
        case 0x87 => seen := seen + {0x87};
        case _ => return false;
      }
    }
    assert block[..3] == block;
    ok := 0x82 in seen && 0x84 in seen && 0x87 in seen;
  }

  /** What each of the three bytes adds. */
  function Apply(m: Meta, b: Byte): Meta {
    if b == 0x82 then WithMethod(m) else if b == 0x84 then WithPath(m, [SLASH]) else WithScheme(m)
  }

  predicate Awaits(m: Meta, b: Byte) {
    && !m.sawRegular && b in {0x82, 0x84, 0x87}
    && (b == 0x82 ==> !m.hasMethod) && (b == 0x84 ==> !m.hasPath) && (b == 0x87 ==> !m.hasScheme)
  }

  lemma RootStep(d: Dec, b: Byte, rest: Bytes, fields: seq<Field>, m: Meta)
    requires Awaits(m, b) && |fields| < 3
    ensures General(d, [b] + rest, fields, m) == General(d, rest, fields + [Static(b - 0x80)], Apply(m, b))
  {
    hide OneStep, Observe, General, Static, ValidPath;
    SmallIndex(d, b, rest, fields == []);
    Onward(d, [b] + rest, fields, m, Static(b - 0x80), 1);
    Pseudo();
    PseudoValid();
    Observes(m, [SLASH]);
    assert ([b] + rest)[1..] == rest;
  }

  /** The three indexed fields in any order are a GET for the root over https, and
      leave the table alone. */
  lemma RootReads(d: Dec, block: Bytes, allow: bool)
    requires RootBlock(block)
    ensures var g := General(d, block, [], NoMeta(allow));
            && g.Accepted? && g.d == d && g.meta.verb == Ascii("GET") && g.meta.path == [SLASH]
            && g.meta.scheme == Ascii("https") && g.meta.query == [] && Regular(g.fields) == []
  {
    hide General, Static, WellFormed, Regular;
    var x, y, z := block[0], block[1], block[2];
    assert block == [x] + ([y] + ([z] + []));
    var m := NoMeta(allow);
    var f, g, h := Static(x - 0x80), Static(y - 0x80), Static(z - 0x80);
    assert [] + [f] == [f] && [f] + [g] == [f, g] && [f, g] + [h] == [f, g, h];
    IndexAbsent([SLASH], 63);
    RootStep(d, x, [y] + ([z] + []), [], m);
    RootStep(d, y, [z] + [], [f], Apply(m, x));
    RootStep(d, z, [], [f, g], Apply(Apply(m, x), y));
    RootEnd(d, [f, g, h], Apply(Apply(Apply(m, x), y), z));
    AllPseudo(f, g, h);
  }

  lemma RootEnd(d: Dec, fields: seq<Field>, m: Meta)
    requires m.verb == Ascii("GET") && m.path == [SLASH] && m.rawPath == [SLASH] && m.scheme == Ascii("https")
             && !m.hasProtocol
    ensures General(d, [], fields, m) == Accepted(fields, m, d)
  {
    PseudoValid();
  }

  predicate RootField(f: Field) {
    f == Static(2) || f == Static(4) || f == Static(7)
  }

  lemma AllPseudo(f: Field, g: Field, h: Field)
    requires RootField(f) && RootField(g) && RootField(h)
    ensures Regular([f, g, h]) == []
  {
    Pseudo();
    PseudoValid();
    hide Static;
    assert [f][..0] == [] && Regular([f]) == [];
    assert [f, g][..1] == [f] && Regular([f, g]) == [];
    assert [f, g, h][..2] == [f, g];
  }

  // ----- Sanitizing never lengthens a path

  lemma UntilShorter(p: Bytes, c: Byte)
    requires p != [] && p[0] == SLASH && c != SLASH
    ensures var q := Until(p, c); q != [] && q[0] == SLASH && |q| <= |p|
  {
  }

  lemma {:induction false} SegmentsShort(p: Bytes, segs: seq<Bytes>)
    ensures |Joined(Segments(p, segs))| <= |Joined(segs)| + |p| + 1
    decreases |p|
  {
    hide Joined, Resolved, IndexByte;
    var k := IndexByte(p, SLASH);
    var seg := if k >= 0 then p[..k] else p;
    ResolvedShort(segs, seg);
    if k >= 0 { SegmentsShort(p[k + 1..], Resolved(segs, seg)); }
  }

  lemma ResolvedShort(segs: seq<Bytes>, seg: Bytes)
    ensures |Joined(Resolved(segs, seg))| <= |Joined(segs)| + 1 + |seg|
  {
    hide Joined;
    JoinedSnoc(segs, seg);
  }

  lemma JoinedSnoc(segs: seq<Bytes>, seg: Bytes)
    ensures |Joined(segs + [seg])| == |Joined(segs)| + 1 + |seg|
    ensures segs != [] ==> |Joined(segs[..|segs| - 1])| <= |Joined(segs)|
  {
    assert (segs + [seg])[..|segs|] == segs;
  }

  lemma SanitizeShorter(p: Bytes)
    requires p != [] && p[0] == SLASH
    ensures |Sanitize(p)| <= |p|
  {
    hide Until, Untidy, Segments, Joined;
    UntilShorter(p, 0);
    UntilShorter(Until(p, 0), CR);
    UntilShorter(Until(Until(p, 0), CR), LF);
    UntilShorter(Until(Until(Until(p, 0), CR), LF), 63);
    var q := Until(Until(Until(Until(p, 0), CR), LF), 63);
    SegmentsShort(q[1..], []);
    NoSegments();
  }

  lemma NoSegments()
    ensures Joined([]) == []
  {
  }

  // ----- The size test on the shortcut

  /** Both lists cost the same but for the path. */
  lemma FastSizes(path: Bytes)
    ensures ListSize(FastFields(path)) == 123 + |Sanitize(path)|
    ensures ListSize([Static(2), Field(Static(4).name, path), Static(7)]) == 123 + |path|
  {
    hide Sanitize;
    Pseudo();
    hide Static;
    ThreeCosts(Text(":method", "GET"), Field(Ascii(":path"), Sanitize(path)), Text(":scheme", "https"));
    ThreeCosts(Text(":method", "GET"), Field(Ascii(":path"), path), Text(":scheme", "https"));
  }

  lemma ThreeCosts(a: Field, b: Field, c: Field)
    ensures ListSize([a, b, c]) == Cost(a) + Cost(b) + Cost(c)
  {
    assert [a][..0] == [] && ListSize([a]) == Cost(a);
    assert [a, b][..1] == [a] && ListSize([a, b]) == Cost(a) + Cost(b);
    assert [a, b, c][..2] == [a, b];
  }

  /** On the shortcut, too, the cheap bound is never below the true size. */
  lemma FastBound(d: Dec, data: Bytes, longest: nat, limit: nat, refs: nat)
    requires IsFast(data) && NamesWithin(d.table, longest) && FastResult(d, FastPath(data)).Accepted?
    ensures TooLarge(|data|, FastFields(FastPath(data)), longest, refs, limit) <==>
              ListSize(FastFields(FastPath(data))) > limit
  {
    hide General, Sanitize, LargestStatic, ReadString, Query;
    var path := FastPath(data);
    GeneralIsFull(d, data, [], NoMeta(false));
    GeneralFast(d, data, false);
    BoundOf(data, longest);
    FastSizes(path);
    SanitizeShorter(path);
    hide Static;
  }

  lemma BoundOf(data: Bytes, longest: nat)
    requires IsFast(data)
    ensures 123 + |FastPath(data)| <= |data| * 8 / 5 + 3 * (STATIC_MAX + longest)
  {
    hide ReadString, LargestStatic;
    StringGrowth(data[2..]);
    AuthorizationSize();
  }

  lemma AuthorizationSize()
    ensures STATIC_MAX >= 41
  {
    hide LargestStatic;
    StaticBelow(4, STATIC_COUNT);
    StaticBelow(2, STATIC_COUNT);
  }
}
