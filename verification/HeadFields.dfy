/** What a response head of core/h2_headers.go holds, said of the head alone. */
module HeadFields {
  import opened ByteStrings
  import opened HpackTable
  import opened HpackStatic
  import opened HpackCodec
  import opened ResponseHead

  /** Names that HTTP/2 does not carry (section 8.2.2 of RFC 9113). */
  const CONNECTION_NAMES: set<Bytes> := {Ascii("te"), Ascii("upgrade"), Ascii("connection"), Ascii("keep-alive"),
    Ascii("proxy-connection"), Ascii("transfer-encoding")}

  function NameAt(h: Head, i: nat): Bytes
    requires i < |h.headers|
  {
    LowerAll(h.headers[i].name)
  }

  /** Some header before `i` has this name. */
  predicate Before(h: Head, i: nat, name: Bytes)
    requires i <= |h.headers|
  {
    exists j :: 0 <= j < i && NameAt(h, j) == name
  }

  predicate HasHeader(h: Head, name: Bytes) {
    Before(h, |h.headers|, name)
  }

  /** Header `i` goes out: its name is not empty, not a pseudo-field's and not one
      of the connection; a type, length or server was not given before it. */
  predicate Carried(h: Head, i: nat)
    requires i < |h.headers|
  {
    var name := NameAt(h, i);
    && name != [] && name[0] != 58 && name !in CONNECTION_NAMES
    && (name == Ascii("content-type") ==> h.contentType == [] && !Before(h, i, name))
    && (name == Ascii("content-length") ==> h.contentLength < 0 && !Before(h, i, name))
    && (name == Ascii("server") ==> !Before(h, i, name))
  }

  /** The headers from `i` on that go out, names in lower case. */
  function CarriedFrom(h: Head, i: nat): seq<Field>
    requires i <= |h.headers|
    decreases |h.headers| - i
  {
    if i == |h.headers| then []
    else (if Carried(h, i) then [Field(NameAt(h, i), h.headers[i].value)] else []) + CarriedFrom(h, i + 1)
  }

  /** The fields of a head. */
  function FieldsIn(h: Head, date: Bytes): seq<Field> {
    [Field(Ascii(":status"), Digits(h.status))]
    + (if HasHeader(h, Ascii("date")) then [] else [Field(Ascii("date"), date)])
    + (if h.contentType == [] then [] else [Field(Ascii("content-type"), h.contentType)])
    + (if h.contentLength < 0 then [] else [Field(Ascii("content-length"), Decimal(h.contentLength))])
    + CarriedFrom(h, 0)
    + (if HasHeader(h, Ascii("server")) then [] else [Field(Ascii("server"), h.server)])
  }

  // ----- The operations hold these fields

  lemma FieldsCat(a: seq<Op>, b: seq<Op>)
    requires AllProper(a) && AllProper(b)
    ensures AllProper(a + b) && FieldsOf(a + b) == FieldsOf(a) + FieldsOf(b)
  {
    hide FieldOf, Proper;
  }

  lemma OneField(op: Op)
    requires Proper(op)
    ensures AllProper([op]) && FieldsOf([op]) == [FieldOf(op)]
  {
    hide FieldOf, Proper;
  }

  /** The type a head gives, and its length. */
  function TypeOps(h: Head): seq<Op> {
    if h.contentType == [] then [] else [Keep(31, Field(Ascii("content-type"), h.contentType))]
  }

  function LengthOps(h: Head): seq<Op> {
    if h.contentLength < 0 then [] else [Literal(28, Decimal(h.contentLength))]
  }

  /** What has been written when header `i` comes. */
  function WroteAt(h: Head, i: nat): Wrote
    requires i <= |h.headers|
  {
    Wrote(h.contentType != [] || Before(h, i, Ascii("content-type")),
          h.contentLength >= 0 || Before(h, i, Ascii("content-length")), Before(h, i, Ascii("server")))
  }

  lemma BeforeMore(h: Head, i: nat, name: Bytes)
    requires i < |h.headers|
    ensures Before(h, i + 1, name) <==> Before(h, i, name) || NameAt(h, i) == name
  {
    hide NameAt;
  }

  lemma NotSkipped(name: Bytes)
    ensures Skipped(name) <==> LowerAll(name) == [] || LowerAll(name)[0] == 58 || LowerAll(name) in CONNECTION_NAMES
    ensures LowerAll(name) in {Ascii("content-type"), Ascii("content-length"), Ascii("server")} ==> !Skipped(name)
  {
  }

  lemma WroteMore(h: Head, i: nat)
    requires i < |h.headers|
    ensures WroteAt(h, i + 1) == AfterHeader(h.headers[i], WroteAt(h, i))
  {
    hide Before, Skipped, Ascii, LowerAll;
    NotSkipped(h.headers[i].name);
    BeforeMore(h, i, Ascii("content-type"));
    BeforeMore(h, i, Ascii("content-length"));
    BeforeMore(h, i, Ascii("server"));
  }

  /** What one header adds is itself, if it is carried. */
  lemma OneHeader(h: Head, i: nat)
    requires i < |h.headers| && ShortField(h.headers[i])
    ensures var op := HeaderOp(h.headers[i], WroteAt(h, i));
            && (op.Some? <==> Carried(h, i))
            && (op.Some? ==> Proper(op.value) && FieldOf(op.value) == Field(NameAt(h, i), h.headers[i].value))
  {
    hide Before, Skipped, Ascii, LowerAll, Proper, Indexable, StaticNameFold;
    NotSkipped(h.headers[i].name);
    HeaderOpProper(h.headers[i], WroteAt(h, i));
  }

  lemma {:induction false} HeadersHold(h: Head, i: nat)
    requires i <= |h.headers| && forall k :: 0 <= k < |h.headers| ==> ShortField(h.headers[k])
    ensures var ops := HeaderOps(h.headers[i..], WroteAt(h, i));
            AllProper(ops) && FieldsOf(ops) == CarriedFrom(h, i)
    ensures AfterHeaders(h.headers[i..], WroteAt(h, i)) == WroteAt(h, |h.headers|)
    decreases |h.headers| - i
  {
    hide HeaderOp, AfterHeader, Carried, WroteAt, Proper, FieldOf, ShortField, NameAt;
    if i < |h.headers| {
      var rest := h.headers[i..];
      assert rest[0] == h.headers[i] && rest[1..] == h.headers[i + 1..];
      WroteMore(h, i);
      OneHeader(h, i);
      HeadersHold(h, i + 1);
    }
  }

  lemma DateIs(h: Head)
    ensures HasDate(h.headers) <==> HasHeader(h, Ascii("date"))
  {
    hide Ascii, LowerAll;
    if HasHeader(h, Ascii("date")) {
      var j :| 0 <= j < |h.headers| && NameAt(h, j) == Ascii("date");
      assert Is(h.headers[j].name, "date");
    } else {
      forall i | 0 <= i < |h.headers|
        ensures !Is(h.headers[i].name, "date")
      {
        assert NameAt(h, i) != Ascii("date");
      }
    }
  }

  lemma LengthName()
    ensures Static(28).name == Ascii("content-length")
  {
  }

  /** The fields before the headers. */
  lemma FixedHold(h: Head, date: Bytes)
    requires ProperHead(h, date)
    ensures AllProper(FixedOps(h, date))
    ensures FieldsOf(FixedOps(h, date))
            == [Field(Ascii(":status"), Digits(h.status))]
               + (if HasHeader(h, Ascii("date")) then [] else [Field(Ascii("date"), date)])
               + (if h.contentType == [] then [] else [Field(Ascii("content-type"), h.contentType)])
               + (if h.contentLength < 0 then [] else [Field(Ascii("content-length"), Decimal(h.contentLength))])
  {
    StaticNames();
    LengthName();
    DateIs(h);
    hide Static, Decimal, HasDate, HasHeader, FieldsOf, AllProper, Ascii;
    if h.contentLength >= 0 { LengthShort(h.contentLength); }
    var a, b := [Status(h.status)], if HasDate(h.headers) then [] else [Keep(33, Field(Ascii("date"), date))];
    OneField(Status(h.status));
    OneOrNone(b);
    OneOrNone(TypeOps(h));
    OneOrNone(LengthOps(h));
    FieldsCat(a, b);
    FieldsCat(a + b, TypeOps(h));
    FieldsCat(a + b + TypeOps(h), LengthOps(h));
  }

  lemma OneOrNone(ops: seq<Op>)
    requires |ops| <= 1 && (ops != [] ==> Proper(ops[0]))
    ensures AllProper(ops) && FieldsOf(ops) == if ops == [] then [] else [FieldOf(ops[0])]
  {
    hide FieldOf, Proper;
  }

  lemma NothingBefore(h: Head)
    ensures WroteAt(h, 0) == Wrote(h.contentType != [], h.contentLength >= 0, false)
  {
  }

  /** A head is written as its fields: the status, a date if it has none, the type
      and the length it gives, its headers that are carried in their order, and a
      server if it has none; nothing else. */
  lemma HeadHolds(h: Head, date: Bytes)
    requires ProperHead(h, date)
    ensures AllProper(HeadOps(h, date)) && FieldsOf(HeadOps(h, date)) == FieldsIn(h, date)
  {
    StaticNames();
    hide Static, HeaderOps, AfterHeaders, CarriedFrom, FixedOps, FieldsOf, AllProper, HasHeader, Ascii, Decimal;
    NothingBefore(h);
    HeadersHold(h, 0);
    assert h.headers[0..] == h.headers;
    FixedHold(h, date);
    var w := WroteAt(h, 0);
    var server := if AfterHeaders(h.headers, w).server then [] else [Keep(54, Field(Ascii("server"), h.server))];
    ServerIs(h);
    OneOrNone(server);
    FieldsCat(FixedOps(h, date), HeaderOps(h.headers, w));
    FieldsCat(FixedOps(h, date) + HeaderOps(h.headers, w), server);
  }

  lemma ServerIs(h: Head)
    ensures WroteAt(h, |h.headers|).server <==> HasHeader(h, Ascii("server"))
  {
  }

  // ----- How often a name is there

  function Count(fs: seq<Field>, name: Bytes): nat {
    if fs == [] then 0 else (if fs[0].name == name then 1 else 0) + Count(fs[1..], name)
  }

  lemma {:induction false} CountCat(a: seq<Field>, b: seq<Field>, name: Bytes)
    ensures Count(a + b, name) == Count(a, name) + Count(b, name)
  {
    if a == [] {
      assert a + b == b;
    } else {
      assert (a + b)[1..] == a[1..] + b;
      CountCat(a[1..], b, name);
    }
  }

  /** How many headers from `i` on have a name. */
  function Headers(h: Head, i: nat, name: Bytes): nat
    requires i <= |h.headers|
    decreases |h.headers| - i
  {
    if i == |h.headers| then 0 else (if NameAt(h, i) == name then 1 else 0) + Headers(h, i + 1, name)
  }

  lemma {:induction false} HeadersNone(h: Head, i: nat, name: Bytes)
    requires i <= |h.headers|
    ensures HasHeader(h, name) <==> Before(h, i, name) || Headers(h, i, name) > 0
    decreases |h.headers| - i
  {
    hide NameAt, Before;
    if i < |h.headers| {
      BeforeMore(h, i, name);
      HeadersNone(h, i + 1, name);
    }
  }

  /** The names that are there once at most. */
  predicate Single(name: Bytes) {
    name == Ascii("content-type") || name == Ascii("content-length") || name == Ascii("server")
  }

  /** The head itself gives a type or a length. */
  predicate Given(h: Head, name: Bytes) {
    (name == Ascii("content-type") && h.contentType != []) || (name == Ascii("content-length") && h.contentLength >= 0)
  }

  predicate Fit(name: Bytes) {
    name != [] && name[0] != 58 && name !in CONNECTION_NAMES
  }

  /** Headers go out as often as they are there; of a single name only the first,
      and only if the head gives none. */
  lemma {:induction false} CarriedCount(h: Head, i: nat, name: Bytes)
    requires i <= |h.headers| && Fit(name)
    ensures Count(CarriedFrom(h, i), name)
            == if !Single(name) then Headers(h, i, name)
               else if Given(h, name) || Before(h, i, name) || Headers(h, i, name) == 0 then 0 else 1
    decreases |h.headers| - i
  {
    hide Ascii, NameAt, Before;
    if i < |h.headers| {
      NamesApart();
      BeforeMore(h, i, name);
      CarriedCount(h, i + 1, name);
      CountOne(Field(NameAt(h, i), h.headers[i].value), CarriedFrom(h, i + 1), name);
    }
  }

  lemma CountOne(f: Field, fs: seq<Field>, name: Bytes)
    ensures Count([f] + fs, name) == (if f.name == name then 1 else 0) + Count(fs, name)
    ensures [] + fs == fs
  {
    assert ([f] + fs)[1..] == fs;
  }

  lemma NamesApart()
    ensures |Ascii("content-type")| == 12 && |Ascii("content-length")| == 14 && |Ascii("server")| == 6
  {
  }

  lemma FixedNames()
    ensures var status, date, mime, size, server := Ascii(":status"), Ascii("date"), Ascii("content-type"),
                                                    Ascii("content-length"), Ascii("server");
            && Fit(date) && Fit(mime) && Fit(size) && Fit(server) && status[0] == 58
            && date != mime && date != size && date != server && mime != size && mime != server && size != server
            && status != date && status != mime && status != size && status != server
            && Single(mime) && Single(size) && Single(server) && !Single(date)
  {
    assert Ascii("date")[0] == 100 && Ascii("content-type")[0] == 99 && Ascii("content-length")[0] == 99;
    assert Ascii("server")[0] == 115 && Ascii("server")[5] == 114;
    assert Ascii("date")[3] == 101;
    assert |Ascii("te")| == 2 && |Ascii("upgrade")| == 7 && |Ascii("connection")| == 10 && |Ascii("keep-alive")| == 10;
    assert |Ascii("proxy-connection")| == 16 && |Ascii("transfer-encoding")| == 17;
  }

  lemma {:induction false} CarriedFit(h: Head, i: nat)
    requires i <= |h.headers|
    ensures forall k :: 0 <= k < |CarriedFrom(h, i)| ==>
              Fit(CarriedFrom(h, i)[k].name) && LowerAll(CarriedFrom(h, i)[k].name) == CarriedFrom(h, i)[k].name
    decreases |h.headers| - i
  {
    hide Fit, Ascii, LowerAll, Before;
    if i < |h.headers| {
      CarriedFit(h, i + 1);
      LowerTwice(h.headers[i].name);
      if Carried(h, i) { FitName(h, i); }
    }
  }

  lemma FitName(h: Head, i: nat)
    requires i < |h.headers| && Carried(h, i)
    ensures Fit(NameAt(h, i))
  {
  }

  lemma LowerNames()
    ensures LowerAll(Ascii("date")) == Ascii("date") && LowerAll(Ascii("content-type")) == Ascii("content-type")
    ensures LowerAll(Ascii("content-length")) == Ascii("content-length") && LowerAll(Ascii("server")) == Ascii("server")
  {
  }

  /** Behind the status every name is one that HTTP/2 carries, in lower case. */
  lemma HeadFits(h: Head, date: Bytes)
    ensures var fs := FieldsIn(h, date);
            && fs != [] && fs[0] == Field(Ascii(":status"), Digits(h.status))
            && forall k :: 0 < k < |fs| ==> Fit(fs[k].name) && LowerAll(fs[k].name) == fs[k].name
  {
    FixedNames();
    LowerNames();
    CarriedFit(h, 0);
    hide Fit, Ascii, LowerAll, CarriedFrom, HasHeader, Digits, Decimal, Single;
  }

  /** What the fields before the headers add to a count. */
  lemma FixedCount(h: Head, date: Bytes, name: Bytes)
    requires Fit(name)
    ensures var a := [Field(Ascii(":status"), Digits(h.status))];
            var b := if HasHeader(h, Ascii("date")) then [] else [Field(Ascii("date"), date)];
            var c := if h.contentType == [] then [] else [Field(Ascii("content-type"), h.contentType)];
            var d := if h.contentLength < 0 then []
                     else [Field(Ascii("content-length"), Decimal(h.contentLength))];
            Count(a + b + c + d, name)
            == if Given(h, name) || (name == Ascii("date") && !HasHeader(h, name)) then 1 else 0
  {
    FixedNames();
    NotFit(name);
    hide Fit, Ascii, Digits, Decimal, HasHeader;
    var a := [Field(Ascii(":status"), Digits(h.status))];
    var b := if HasHeader(h, Ascii("date")) then [] else [Field(Ascii("date"), date)];
    var c := if h.contentType == [] then [] else [Field(Ascii("content-type"), h.contentType)];
    var d := if h.contentLength < 0 then [] else [Field(Ascii("content-length"), Decimal(h.contentLength))];
    CountFew(a, name);
    CountFew(b, name);
    CountFew(c, name);
    CountFew(d, name);
    hide Count;
    CountCat(a, b, name);
    CountCat(a + b, c, name);
    CountCat(a + b + c, d, name);
  }

  /** A type or a length is there once at most, a server once, a date once unless
      the headers have more; any other name as often as in the headers. */
  lemma HeadCounts(h: Head, date: Bytes, name: Bytes)
    requires Fit(name)
    ensures Count(FieldsIn(h, date), name)
            == if name == Ascii("date") then (if Headers(h, 0, name) == 0 then 1 else Headers(h, 0, name))
               else if name == Ascii("server") then 1
               else if !Single(name) then Headers(h, 0, name)
               else if Given(h, name) || HasHeader(h, name) then 1 else 0
  {
    FixedNames();
    FixedCount(h, date, name);
    NoneYet(h, name);
    HeadersNone(h, 0, name);
    CarriedCount(h, 0, name);
    hide Fit, Ascii, CarriedFrom, Digits, Decimal, HasHeader, Headers;
    var fixed := [Field(Ascii(":status"), Digits(h.status))]
      + (if HasHeader(h, Ascii("date")) then [] else [Field(Ascii("date"), date)])
      + (if h.contentType == [] then [] else [Field(Ascii("content-type"), h.contentType)])
      + (if h.contentLength < 0 then [] else [Field(Ascii("content-length"), Decimal(h.contentLength))]);
    var server := if HasHeader(h, Ascii("server")) then [] else [Field(Ascii("server"), h.server)];
    CountFew(server, name);
    hide Count;
    CountCat(fixed, CarriedFrom(h, 0), name);
    CountCat(fixed + CarriedFrom(h, 0), server, name);
  }

  lemma NotFit(name: Bytes)
    requires Fit(name)
    ensures name != Ascii(":status")
  {
  }

  lemma NoneYet(h: Head, name: Bytes)
    ensures !Before(h, 0, name) && !Before(h, 0, Ascii("date")) && !Before(h, 0, Ascii("server"))
  {
  }

  lemma CountFew(fs: seq<Field>, name: Bytes)
    requires |fs| <= 1
    ensures Count(fs, name) == if fs != [] && fs[0].name == name then 1 else 0
  {
  }

  /** Two dates among the headers both go out. */
  lemma TwoDates(date: Bytes)
    ensures var f := Field(Ascii("date"), date);
            Count(FieldsIn(Head(200, [], -1, [f, f], []), date), Ascii("date")) == 2
  {
    FixedNames();
    LowerNames();
    var f := Field(Ascii("date"), date);
    var h := Head(200, [], -1, [f, f], []);
    hide Ascii, LowerAll;
    HeadCounts(h, date, Ascii("date"));
    assert Headers(h, 2, Ascii("date")) == 0;
    assert Headers(h, 1, Ascii("date")) == 1;
    assert Headers(h, 0, Ascii("date")) == 2;
  }
}
