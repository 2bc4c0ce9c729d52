/** What a request is, said of the list of its fields alone: which lists the
    decoder of core/hpack.go takes, which it calls malformed, which end the
    connection, and what it reads from those it takes. */
module RequestMeaning {
  import opened ByteStrings
  import opened HpackTable
  import opened HpackStatic
  import opened HpackCodec
  import opened H2Request

  // ----- Fields of a list

  predicate Pseudo(f: Field) {
    f.name != [] && f.name[0] == 58
  }

  predicate Has(fs: seq<Field>, name: Bytes) {
    exists i :: 0 <= i < |fs| && fs[i].name == name
  }

  /** The value of the last field of a name; nothing if there is none. */
  function ValueIn(fs: seq<Field>, name: Bytes): Bytes {
    if fs == [] then []
    else if fs[|fs| - 1].name == name then fs[|fs| - 1].value
    else ValueIn(fs[..|fs| - 1], name)
  }

  /** The number in the last content-length. */
  function LengthIn(fs: seq<Field>): Option<nat> {
    if fs == [] then None
    else if fs[|fs| - 1].name == Ascii("content-length") then ParseUint(fs[|fs| - 1].value)
    else LengthIn(fs[..|fs| - 1])
  }

  predicate AllPseudo(fs: seq<Field>) {
    forall i :: 0 <= i < |fs| ==> Pseudo(fs[i])
  }

  // ----- Which lists are sound

  /** The five pseudo-fields of a request, and what may stand in each. */
  predicate SoundPseudo(f: Field, allow: bool) {
    || (f.name == Ascii(":method") && (f.value == [] || Token(f.value)))
    || (f.name == Ascii(":path") && ValidPath(f.value))
    || (f.name == Ascii(":scheme") && ValidValue(f.value))
    || (f.name == Ascii(":authority") && ValidValue(f.value) && ValidHost(f.value))
    || (f.name == Ascii(":protocol") && ValidValue(f.value) && allow)
  }

  /** A field is sound behind those before it: a pseudo-field is a known one, there
      once, before all others; any other field is not about the connection, and
      lengths agree. */
  predicate SoundAt(fs: seq<Field>, i: nat, allow: bool)
    requires i < |fs|
  {
    var f := fs[i];
    && ValidName(f.name)
    && if Pseudo(f) then
         SoundPseudo(f, allow) && AllPseudo(fs[..i]) && !Has(fs[..i], f.name)
       else
         && ValidValue(f.value) && !ConnectionField(f)
         && (f.name == Ascii("content-length") ==>
               ParseUint(f.value).Some? && (LengthIn(fs[..i]).None? || LengthIn(fs[..i]) == ParseUint(f.value)))
  }

  predicate AllSound(fs: seq<Field>, allow: bool) {
    forall i :: 0 <= i < |fs| ==> SoundAt(fs, i, allow)
  }

  /** A sound list that is a request: an ordinary one, a CONNECT, or a CONNECT that
      names a protocol. */
  predicate ProperRequest(fs: seq<Field>) {
    var verb, path := ValueIn(fs, Ascii(":method")), ValueIn(fs, Ascii(":path"));
    var scheme, authority := ValueIn(fs, Ascii(":scheme")), ValueIn(fs, Ascii(":authority"));
    if Has(fs, Ascii(":protocol")) then
      && verb == Ascii("CONNECT") && ValueIn(fs, Ascii(":protocol")) != []
      && authority != [] && scheme != [] && path != [] && path[0] == SLASH
    else if verb == Ascii("CONNECT") then authority != [] && scheme == [] && !Has(fs, Ascii(":path"))
    else
      verb != [] && scheme != [] && path != [] && (path[0] == SLASH || (path == Ascii("*") && verb == Ascii("OPTIONS")))
  }

  // ----- What is read from a list

  /** A path with its query: `raw` is `before`, and a question mark and `query` if it
      has one. */
  predicate Splits(raw: Bytes, before: Bytes, query: Bytes) {
    63 !in before && (raw == before + [63] + query || (raw == before && query == []))
  }

  /** What was read from a list of fields. */
  ghost predicate MetaOf(fs: seq<Field>, allow: bool, m: Meta) {
    && ValuesOf(fs, m) && SeenIn(fs, m) && m.allowProtocol == allow
    && PathOf(m.hasPath, m.rawPath, m.path, m.query)
  }

  predicate ValuesOf(fs: seq<Field>, m: Meta) {
    && m.verb == ValueIn(fs, Ascii(":method")) && m.scheme == ValueIn(fs, Ascii(":scheme"))
    && m.authority == ValueIn(fs, Ascii(":authority")) && m.rawPath == ValueIn(fs, Ascii(":path"))
    && m.protocolSet == (ValueIn(fs, Ascii(":protocol")) != [])
    && m.webSocket == (LowerAll(ValueIn(fs, Ascii(":protocol"))) == Ascii("websocket"))
    && m.length == LengthIn(fs)
  }

  predicate SeenIn(fs: seq<Field>, m: Meta) {
    && (m.hasMethod <==> Has(fs, Ascii(":method"))) && (m.hasScheme <==> Has(fs, Ascii(":scheme")))
    && (m.hasPath <==> Has(fs, Ascii(":path"))) && (m.hasAuthority <==> Has(fs, Ascii(":authority")))
    && (m.hasProtocol <==> Has(fs, Ascii(":protocol"))) && (m.sawRegular <==> !AllPseudo(fs))
  }

  /** The path without its query, cleaned; nothing if there is none. */
  ghost predicate PathOf(has: bool, raw: Bytes, path: Bytes, query: Bytes) {
    exists before :: Splits(raw, before, query) && path == if has then CleanPath(before) else []
  }

  lemma NamesDiffer()
    ensures var a, b, c, d, e := Ascii(":method"), Ascii(":path"), Ascii(":scheme"), Ascii(":authority"),
                                 Ascii(":protocol");
            && a != b && a != c && a != d && a != e && b != c && b != d && b != e && c != d && c != e && d != e
            && a[0] == 58 && b[0] == 58 && c[0] == 58 && d[0] == 58 && e[0] == 58
            && |Ascii("content-length")| == 14 && Ascii("content-length")[0] != 58
  {
    assert Ascii(":method")[1] != Ascii(":scheme")[1];
  }

  lemma HasSnoc(fs: seq<Field>, f: Field, name: Bytes)
    ensures Has(fs + [f], name) <==> Has(fs, name) || f.name == name
    ensures ValueIn(fs + [f], name) == if f.name == name then f.value else ValueIn(fs, name)
  {
    var all := fs + [f];
    assert all[..|fs|] == fs && all[|fs|] == f;
    if Has(fs, name) {
      var i :| 0 <= i < |fs| && fs[i].name == name;
      assert all[i].name == name;
    }
  }

  lemma LengthSnoc(fs: seq<Field>, f: Field)
    ensures LengthIn(fs + [f]) == if f.name == Ascii("content-length") then ParseUint(f.value) else LengthIn(fs)
    ensures AllPseudo(fs + [f]) <==> AllPseudo(fs) && Pseudo(f)
  {
    var all := fs + [f];
    assert all[..|fs|] == fs && all[|fs|] == f;
    assert forall i :: 0 <= i < |fs| ==> all[i] == fs[i];
  }

  lemma QuerySplits(raw: Bytes)
    ensures Splits(raw, Until(raw, 63), Query(raw))
  {
    var i := IndexByte(raw, 63);
    if i >= 0 { assert raw == raw[..i] + [63] + raw[i + 1..]; }
  }

  /** A valid path has none of the bytes that end a path early. */
  lemma ValidPathKept(raw: Bytes)
    requires ValidPath(raw)
    ensures Sanitize(raw) == CleanPath(Until(raw, 63))
  {
    hide CleanPath;
    IndexAbsent(raw, 0);
    IndexAbsent(raw, CR);
    IndexAbsent(raw, LF);
  }

  lemma PathSeen(raw: Bytes)
    requires ValidPath(raw)
    ensures PathOf(true, raw, if raw == [SLASH] then [SLASH] else Sanitize(raw), Query(raw))
  {
    hide CleanPath;
    QuerySplits(raw);
    ValidPathKept(raw);
    if raw == [SLASH] {
      RootPath();
      IndexAbsent(raw, 63);
    }
  }

  lemma RootPath()
    ensures CleanPath([SLASH]) == [SLASH]
  {
  }

  lemma GetIsToken()
    ensures Token(Ascii("GET"))
  {
    assert Ascii("GET") == [71, 69, 84];
  }

  /** A pseudo-field is taken exactly if it is sound and new and in front. */
  lemma PseudoTaken(fs: seq<Field>, f: Field, allow: bool, m: Meta)
    requires MetaOf(fs, allow, m) && Pseudo(f)
    ensures ObservePseudo(m, f).Some? <==> SoundPseudo(f, allow) && AllPseudo(fs) && !Has(fs, f.name)
  {
    hide Has, ValueIn, LengthIn, AllPseudo, ValidPath, ValidValue, ValidHost, Token, Sanitize, Query, LowerAll, PathOf,
      Ascii;
    NamesDiffer();
    GetIsToken();
  }

  /** What one field more adds to what there is. */
  lemma MoreRead(fs: seq<Field>, f: Field)
    ensures var all := fs + [f];
            && (Has(all, Ascii(":method")) <==> Has(fs, Ascii(":method")) || f.name == Ascii(":method"))
            && (Has(all, Ascii(":path")) <==> Has(fs, Ascii(":path")) || f.name == Ascii(":path"))
            && (Has(all, Ascii(":scheme")) <==> Has(fs, Ascii(":scheme")) || f.name == Ascii(":scheme"))
            && (Has(all, Ascii(":authority")) <==> Has(fs, Ascii(":authority")) || f.name == Ascii(":authority"))
            && (Has(all, Ascii(":protocol")) <==> Has(fs, Ascii(":protocol")) || f.name == Ascii(":protocol"))
    ensures f.name != Ascii(":method") ==> ValueIn(fs + [f], Ascii(":method")) == ValueIn(fs, Ascii(":method"))
    ensures f.name != Ascii(":path") ==> ValueIn(fs + [f], Ascii(":path")) == ValueIn(fs, Ascii(":path"))
    ensures f.name != Ascii(":scheme") ==> ValueIn(fs + [f], Ascii(":scheme")) == ValueIn(fs, Ascii(":scheme"))
    ensures f.name != Ascii(":authority") ==> ValueIn(fs + [f], Ascii(":authority")) == ValueIn(fs, Ascii(":authority"))
    ensures f.name != Ascii(":protocol") ==> ValueIn(fs + [f], Ascii(":protocol")) == ValueIn(fs, Ascii(":protocol"))
    ensures ValueIn(fs + [f], f.name) == f.value
  {
    hide Has, ValueIn, Ascii;
    HasSnoc(fs, f, Ascii(":method"));
    HasSnoc(fs, f, Ascii(":path"));
    HasSnoc(fs, f, Ascii(":scheme"));
    HasSnoc(fs, f, Ascii(":authority"));
    HasSnoc(fs, f, Ascii(":protocol"));
    HasSnoc(fs, f, f.name);
  }

  lemma PseudoValues(fs: seq<Field>, f: Field, m: Meta)
    requires ValuesOf(fs, m) && Pseudo(f) && ObservePseudo(m, f).Some?
    ensures ValuesOf(fs + [f], ObservePseudo(m, f).value)
  {
    hide Has, ValueIn, LengthIn, ValidPath, ValidValue, ValidHost, Token, Sanitize, Query, LowerAll, Ascii;
    NamesDiffer();
    MoreRead(fs, f);
    LengthSnoc(fs, f);
  }

  lemma PseudoRead(fs: seq<Field>, f: Field, allow: bool, m: Meta)
    requires MetaOf(fs, allow, m) && Pseudo(f) && ObservePseudo(m, f).Some?
    ensures MetaOf(fs + [f], allow, ObservePseudo(m, f).value)
  {
    hide Has, ValuesOf, AllPseudo, ValidPath, ValidValue, ValidHost, Token, Sanitize, Query, LowerAll, PathOf, Ascii,
      ValueIn, LengthIn;
    NamesDiffer();
    MoreRead(fs, f);
    LengthSnoc(fs, f);
    PseudoValues(fs, f, m);
    if f.name == Ascii(":path") { PathSeen(f.value); }
  }

  lemma RegularRead(fs: seq<Field>, f: Field, allow: bool, m: Meta)
    requires MetaOf(fs, allow, m) && f.name != [] && !Pseudo(f)
    ensures MetaOf(fs + [f], allow,
              m.(sawRegular := true,
                 length := if f.name == Ascii("content-length") then ParseUint(f.value) else m.length))
  {
    hide Has, ValueIn, LengthIn, AllPseudo, LowerAll, PathOf, Ascii, ParseUint;
    NamesDiffer();
    MoreRead(fs, f);
    LengthSnoc(fs, f);
  }

  lemma RegularSeen(fs: seq<Field>, f: Field, allow: bool, m: Meta)
    requires MetaOf(fs, allow, m) && ValidName(f.name) && !Pseudo(f)
    ensures var r := Observe(m, f);
            && (r.Some? <==> SoundAt(fs + [f], |fs|, allow))
            && (r.Some? ==> MetaOf(fs + [f], allow, r.value))
  {
    hide Has, ValueIn, AllPseudo, ValidName, ValidValue, PathOf, SeenIn, ParseUint, ConnectionField, LowerAll, Ascii;
    assert (fs + [f])[..|fs|] == fs;
    hide LengthIn;
    SomeName(f.name);
    RegularRead(fs, f, allow, m);
  }

  /** One field more, behind fields of which `m` is what was read. */
  lemma FieldSeen(fs: seq<Field>, f: Field, allow: bool, m: Meta)
    requires MetaOf(fs, allow, m)
    ensures var r := Observe(m, f);
            && (r.Some? <==> SoundAt(fs + [f], |fs|, allow))
            && (r.Some? ==> MetaOf(fs + [f], allow, r.value))
  {
    hide Has, AllPseudo, MetaOf, ValidName, ObservePseudo, SoundPseudo, LengthIn, ParseUint, Ascii;
    assert (fs + [f])[..|fs|] == fs;
    if ValidName(f.name) {
      SomeName(f.name);
      if Pseudo(f) {
        PseudoTaken(fs, f, allow, m);
        if ObservePseudo(m, f).Some? { PseudoRead(fs, f, allow, m); }
      } else {
        RegularSeen(fs, f, allow, m);
      }
    }
  }

  lemma SomeName(name: Bytes)
    requires ValidName(name)
    ensures name != []
  {
  }

  // ----- From blocks to lists

  /** Every field a decoder finds in a block, up to the first error. */
  datatype Scan = Scan(fields: seq<Field>, error: Option<Error>, d: Dec)

  ghost function Found(d: Dec, data: Bytes, fields: seq<Field>): (r: Scan)
    ensures fields <= r.fields
    decreases |data|
  {
    if data == [] then Scan(fields, None, d)
    else
      var s := OneStep(d, data, fields == []);
      if s.Wrong? then Scan(fields, Some(s.error), d)
      else if s.Resize? then Found(s.d, data[s.n..], fields)
      else Found(s.d, data[s.n..], fields + [s.f])
  }

  /** The list a block holds, if it holds one, is that of a full decode. */
  lemma {:induction false} FoundIsAll(d: Dec, data: Bytes, fields: seq<Field>)
    ensures var r := Found(d, data, fields);
            DecodeAll(d, data, fields)
            == match r.error { case None => Fields(r.fields, r.d) case Some(e) => Failed(e) }
    decreases |data|
  {
    hide OneStep;
    if data != [] {
      var s := OneStep(d, data, fields == []);
      if s.Resize? {
        FoundIsAll(s.d, data[s.n..], fields);
      } else if s.Emit? {
        FoundIsAll(s.d, data[s.n..], fields + [s.f]);
      }
    }
  }

  /** What becomes of a block, by its fields alone: an unsound one among the first
      129 ends the connection, then more than 128 do, then an error of the block;
      otherwise it is a request or not, with what is read from the list. */
  ghost predicate Judged(r: Request, scan: Scan, allow: bool) {
    var fs := scan.fields;
    var seen := if |fs| <= MAX_HEADERS then fs else fs[..MAX_HEADERS + 1];
    if !AllSound(seen, allow) then r == Fatal(BadHeader)
    else if |fs| > MAX_HEADERS then r == Fatal(TooManyHeaders)
    else if scan.error.Some? then r == Fatal(scan.error.value)
    else
      && !r.Fatal? && r.fields == fs && r.d == scan.d && MetaOf(fs, allow, r.meta)
      && (r.Accepted? <==> ProperRequest(fs))
  }

  lemma SoundBefore(fs: seq<Field>, all: seq<Field>, i: nat, allow: bool)
    requires fs <= all && i < |fs|
    ensures SoundAt(all, i, allow) == SoundAt(fs, i, allow)
  {
    assert all[..i] == fs[..i];
  }

  lemma AllSoundSnoc(fs: seq<Field>, f: Field, allow: bool)
    requires AllSound(fs, allow)
    ensures AllSound(fs + [f], allow) <==> SoundAt(fs + [f], |fs|, allow)
  {
    hide SoundAt;
    forall i | 0 <= i < |fs|
      ensures SoundAt(fs + [f], i, allow)
    {
      SoundBefore(fs, fs + [f], i, allow);
    }
  }

  lemma Unsound(fs: seq<Field>, all: seq<Field>, allow: bool)
    requires fs <= all && !AllSound(fs, allow)
    ensures !AllSound(all, allow)
  {
    hide SoundAt;
    var i :| 0 <= i < |fs| && !SoundAt(fs, i, allow);
    SoundBefore(fs, all, i, allow);
  }

  /** What `validate` asks of what was read is that the list is a request. */
  lemma ValidatesList(fs: seq<Field>, allow: bool, m: Meta)
    requires MetaOf(fs, allow, m)
    ensures WellFormed(m) <==> ProperRequest(fs)
  {
    hide Has, ValueIn, LengthIn, AllPseudo, Splits;
    hide CleanPath;
    var before :| Splits(m.rawPath, before, m.query) && m.path == if m.hasPath then CleanPath(before) else [];
    SomePath(before);
    if !Has(fs, Ascii(":path")) { NoValue(fs, Ascii(":path")); }
    assert Ascii("*") == [42];
  }

  lemma {:induction false} NoValue(fs: seq<Field>, name: Bytes)
    requires !Has(fs, name)
    ensures ValueIn(fs, name) == []
  {
    if fs != [] {
      assert fs[..|fs| - 1] + [fs[|fs| - 1]] == fs;
      HasSnoc(fs[..|fs| - 1], fs[|fs| - 1], name);
      NoValue(fs[..|fs| - 1], name);
    }
  }

  lemma SomePath(p: Bytes)
    ensures CleanPath(p) != []
  {
  }

  lemma {:induction false} GeneralJudges(d: Dec, data: Bytes, fields: seq<Field>, meta: Meta, allow: bool)
    requires |fields| <= MAX_HEADERS && AllSound(fields, allow) && MetaOf(fields, allow, meta)
    ensures Judged(General(d, data, fields, meta), Found(d, data, fields), allow)
    decreases |data|
  {
    hide OneStep, Observe, WellFormed, MetaOf, AllSound, SoundAt, ProperRequest;
    var all := Found(d, data, fields).fields;
    if data == [] {
      ValidatesList(fields, allow, meta);
    } else {
      var s := OneStep(d, data, fields == []);
      if s.Resize? {
        GeneralJudges(s.d, data[s.n..], fields, meta, allow);
      } else if s.Emit? {
        var more := fields + [s.f];
        FieldSeen(fields, s.f, allow, meta);
        AllSoundSnoc(fields, s.f, allow);
        if Observe(meta, s.f).None? {
          Unsound(more, if |all| <= MAX_HEADERS then all else all[..MAX_HEADERS + 1], allow);
        } else if |fields| < MAX_HEADERS {
          GeneralJudges(s.d, data[s.n..], more, Observe(meta, s.f).value, allow);
        } else {
          assert all[..MAX_HEADERS + 1] == more;
        }
      }
    }
  }

  lemma NothingRead(allow: bool)
    ensures MetaOf([], allow, NoMeta(allow)) && AllSound([], allow)
  {
    hide CleanPath;
    assert Splits([], [], []);
    assert LowerAll([]) == [] && |Ascii("websocket")| == 9;
  }

  /** What `DecodeIntoRequest` makes of a block is what its list of fields says. */
  lemma EveryBlockJudged(d: Dec, data: Bytes, allow: bool)
    ensures Judged(General(d, data, [], NoMeta(allow)), Found(d, data, []), allow)
  {
    hide Judged, General, Found, MetaOf, AllSound;
    NothingRead(allow);
    GeneralJudges(d, data, [], NoMeta(allow), allow);
  }

  // ----- What a request says

  /** What was read agrees with a field of the list. */
  predicate Agrees(m: Meta, f: Field) {
    && (f.name == Ascii(":method") ==> m.verb == f.value)
    && (f.name == Ascii(":scheme") ==> m.scheme == f.value)
    && (f.name == Ascii(":authority") ==> m.authority == f.value)
    && (f.name == Ascii(":path") ==> m.rawPath == f.value)
    && (f.name == Ascii("content-length") ==> m.length == ParseUint(f.value) && m.length.Some?)
  }

  /** What was not in the list was not read either. */
  predicate NoneElse(m: Meta, fs: seq<Field>) {
    && (!Has(fs, Ascii(":method")) ==> m.verb == []) && (!Has(fs, Ascii(":scheme")) ==> m.scheme == [])
    && (!Has(fs, Ascii(":authority")) ==> m.authority == []) && (!Has(fs, Ascii(":path")) ==> m.rawPath == [])
    && (!Has(fs, Ascii("content-length")) ==> m.length == None)
  }

  /** No pseudo-field is there twice, or behind another field. */
  predicate InOrder(fs: seq<Field>) {
    forall i, j :: 0 <= i < j < |fs| && Pseudo(fs[j]) ==> Pseudo(fs[i]) && fs[i].name != fs[j].name
  }

  lemma OrderOf(fs: seq<Field>, allow: bool)
    requires AllSound(fs, allow)
    ensures InOrder(fs)
  {
    hide ValidName, SoundPseudo, ValidValue, ConnectionField, ParseUint, LengthIn;
    forall i, j | 0 <= i < j < |fs| && Pseudo(fs[j])
      ensures Pseudo(fs[i]) && fs[i].name != fs[j].name
    {
      assert SoundAt(fs, j, allow);
      assert fs[..j][i] == fs[i];
    }
  }

  /** The value of a pseudo-field is that of the one field of its name. */
  lemma {:induction false} TheOne(fs: seq<Field>, i: nat)
    requires InOrder(fs) && i < |fs| && Pseudo(fs[i])
    ensures ValueIn(fs, fs[i].name) == fs[i].value
  {
    if i < |fs| - 1 {
      var init := fs[..|fs| - 1];
      assert init[i] == fs[i];
      TheOne(init, i);
    }
  }

  /** All lengths of a list say the same. */
  lemma {:induction false} TheLength(fs: seq<Field>, i: nat, allow: bool)
    requires AllSound(fs, allow) && i < |fs| && fs[i].name == Ascii("content-length")
    ensures LengthIn(fs) == ParseUint(fs[i].value) && LengthIn(fs).Some?
  {
    hide ValidName, SoundPseudo, ValidValue, ConnectionField, ParseUint, Has;
    NamesDiffer();
    var n := |fs| - 1;
    assert SoundAt(fs, n, allow);
    if i < n {
      var init := fs[..n];
      assert init[i] == fs[i];
      forall k | 0 <= k < n
        ensures SoundAt(init, k, allow)
      {
        SoundBefore(init, fs, k, allow);
      }
      TheLength(init, i, allow);
    }
  }

  lemma {:induction false} NoLength(fs: seq<Field>)
    requires !Has(fs, Ascii("content-length"))
    ensures LengthIn(fs) == None
  {
    if fs != [] {
      var init, last := fs[..|fs| - 1], fs[|fs| - 1];
      assert init + [last] == fs;
      HasSnoc(init, last, Ascii("content-length"));
      NoLength(init);
    }
  }

  lemma ListAgrees(fs: seq<Field>, allow: bool, m: Meta, i: nat)
    requires AllSound(fs, allow) && MetaOf(fs, allow, m) && i < |fs|
    ensures Agrees(m, fs[i])
  {
    hide AllSound, Has, ValueIn, LengthIn, AllPseudo, PathOf, ParseUint;
    NamesDiffer();
    OrderOf(fs, allow);
    if Pseudo(fs[i]) {
      TheOne(fs, i);
    } else if fs[i].name == Ascii("content-length") {
      TheLength(fs, i, allow);
    }
  }

  lemma ListIsAll(fs: seq<Field>, allow: bool, m: Meta)
    requires MetaOf(fs, allow, m)
    ensures NoneElse(m, fs)
  {
    hide Has, ValueIn, LengthIn, AllPseudo, PathOf;
    if !Has(fs, Ascii(":method")) { NoValue(fs, Ascii(":method")); }
    if !Has(fs, Ascii(":scheme")) { NoValue(fs, Ascii(":scheme")); }
    if !Has(fs, Ascii(":authority")) { NoValue(fs, Ascii(":authority")); }
    if !Has(fs, Ascii(":path")) { NoValue(fs, Ascii(":path")); }
    if !Has(fs, Ascii("content-length")) { NoLength(fs); }
  }

  /** What a request that was accepted, or only malformed, says is what its fields
      say: each pseudo-field at most once and in front, its value the one read, and
      the path split at its question mark. */
  lemma RequestSays(d: Dec, data: Bytes, allow: bool)
    ensures var r := General(d, data, [], NoMeta(allow));
            !r.Fatal? ==>
              && InOrder(r.fields) && NoneElse(r.meta, r.fields)
              && (forall i :: 0 <= i < |r.fields| ==> Agrees(r.meta, r.fields[i]))
              && PathOf(Has(r.fields, Ascii(":path")), r.meta.rawPath, r.meta.path, r.meta.query)
  {
    hide General, Found, AllSound, ProperRequest, Agrees, NoneElse, InOrder, PathOf, Has, ValueIn, LengthIn, AllPseudo;
    EveryBlockJudged(d, data, allow);
    var r := General(d, data, [], NoMeta(allow));
    if !r.Fatal? {
      OrderOf(r.fields, allow);
      ListIsAll(r.fields, allow, r.meta);
      forall i | 0 <= i < |r.fields|
        ensures Agrees(r.meta, r.fields[i])
      {
        ListAgrees(r.fields, allow, r.meta, i);
      }
    }
  }

  /** A length is the number it spells. */
  lemma LengthSpelled(n: nat)
    requires n <= 0x4_0000_0000_0000
    ensures ParseUint(Decimal(n)) == Some(n)
  {
    DecimalDigits(n);
  }

  lemma {:induction false} DecimalDigits(n: nat)
    ensures Decimal(n) != [] && forall i :: 0 <= i < |Decimal(n)| ==> 48 <= Decimal(n)[i] <= 57
    ensures Number(Decimal(n)) == n
  {
    if n >= 10 {
      DecimalDigits(n / 10);
      assert Decimal(n)[..|Decimal(n)| - 1] == Decimal(n / 10);
    } else {
      assert Decimal(n)[..0] == [];
    }
  }
}
