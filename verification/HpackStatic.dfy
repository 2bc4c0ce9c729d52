/** Names, case and the static table of HPACK (Appendix A of RFC 7541). */
module HpackStatic {
  import opened ByteStrings
  import opened HpackTable

  const STATIC_COUNT := 61

  /** A text of plain ASCII as bytes. */
  function Ascii(s: string): (b: Bytes)
    ensures |b| == |s|
  {
    seq(|s|, i requires 0 <= i < |s| => s[i] as int % 256)
  }

  function Lower(c: Byte): Byte {
    if 65 <= c <= 90 then c + 32 else c
  }

  function LowerAll(s: Bytes): (t: Bytes)
    ensures |t| == |s|
  {
    seq(|s|, i requires 0 <= i < |s| => Lower(s[i]))
  }

  function Text(name: string, value: string): Field {
    Field(Ascii(name), Ascii(value))
  }

  /** `HpackStaticTable`; entry 0 is not used. */
  function Static(i: nat): Field
    requires i <= STATIC_COUNT
  {
    match i
    case 0 => Text("", "")
    case 1 => Text(":authority", "")
    case 2 => Text(":method", "GET")
    case 3 => Text(":method", "POST")
    case 4 => Text(":path", "/")
    case 5 => Text(":path", "/index.html")
    case 6 => Text(":scheme", "http")
    case 7 => Text(":scheme", "https")
    case 8 => Text(":status", "200")
    case 9 => Text(":status", "204")
    case 10 => Text(":status", "206")
    case 11 => Text(":status", "304")
    case 12 => Text(":status", "400")
    case 13 => Text(":status", "404")
    case 14 => Text(":status", "500")
    case 15 => Text("accept-charset", "")
    case 16 => Text("accept-encoding", "gzip, deflate")
    case 17 => Text("accept-language", "")
    case 18 => Text("accept-ranges", "")
    case 19 => Text("accept", "")
    case 20 => Text("access-control-allow-origin", "")
    case 21 => Text("age", "")
    case 22 => Text("allow", "")
    case 23 => Text("authorization", "")
    case 24 => Text("cache-control", "")
    case 25 => Text("content-disposition", "")
    case 26 => Text("content-encoding", "")
    case 27 => Text("content-language", "")
    case 28 => Text("content-length", "")
    case 29 => Text("content-location", "")
    case 30 => Text("content-range", "")
    case 31 => Text("content-type", "")
    case 32 => Text("cookie", "")
    case 33 => Text("date", "")
    case 34 => Text("etag", "")
    case 35 => Text("expect", "")
    case 36 => Text("expires", "")
    case 37 => Text("from", "")
    case 38 => Text("host", "")
    case 39 => Text("if-match", "")
    case 40 => Text("if-modified-since", "")
    case 41 => Text("if-none-match", "")
    case 42 => Text("if-range", "")
    case 43 => Text("if-unmodified-since", "")
    case 44 => Text("last-modified", "")
    case 45 => Text("link", "")
    case 46 => Text("location", "")
    case 47 => Text("max-forwards", "")
    case 48 => Text("proxy-authenticate", "")
    case 49 => Text("proxy-authorization", "")
    case 50 => Text("range", "")
    case 51 => Text("referer", "")
    case 52 => Text("refresh", "")
    case 53 => Text("retry-after", "")
    case 54 => Text("server", "")
    case 55 => Text("set-cookie", "")
    case 56 => Text("strict-transport-security", "")
    case 57 => Text("transfer-encoding", "")
    case 58 => Text("user-agent", "")
    case 59 => Text("vary", "")
    case 60 => Text("via", "")
    case 61 => Text("www-authenticate", "")
  }

  /** The static entries `hpackFindStaticNameFold` tries for a name of this length. */
  function Named(len: nat): seq<nat> {
    match len
    case 3 => [21, 60]
    case 4 => [33, 34, 37, 38, 45, 59]
    case 5 => [4, 22, 50]
    case 6 => [19, 32, 35, 54]
    case 7 => [2, 6, 8, 36, 51, 52]
    case 8 => [39, 42, 46]
    case 10 => [1, 55, 58]
    case 11 => [53]
    case 12 => [31, 47]
    case 13 => [18, 23, 24, 30, 41, 44]
    case 14 => [15, 28]
    case 15 => [16, 17]
    case 16 => [26, 27, 29, 61]
    case 17 => [40, 57]
    case 18 => [48]
    case 19 => [25, 43, 49]
    case 25 => [56]
    case 27 => [20]
    case _ => []
  }

  /** The first of these entries with this name, or zero. */
  function FindNamed(entries: seq<nat>, name: Bytes): (idx: nat)
    ensures idx > 0 ==> idx in entries && idx <= STATIC_COUNT && Static(idx).name == name
    ensures idx == 0 ==> forall i :: 0 <= i < |entries| && 0 < entries[i] <= STATIC_COUNT ==>
              Static(entries[i]).name != name
  {
    if entries == [] then 0
    else if 0 < entries[0] <= STATIC_COUNT && Static(entries[0]).name == name then entries[0]
    else FindNamed(entries[1..], name)
  }

  /** The first entry with the name of entry `i`. */
  function FirstNamed(i: nat): nat {
    if i in {3, 5, 7} then i - 1 else if 9 <= i <= 14 then 8 else i
  }

  /** `hpackFindStaticNameFold`. The names in the table are lower case, so folding
      both sides is folding one. */
  function StaticNameFold(name: Bytes): (idx: nat)
    ensures idx > 0 ==> idx <= STATIC_COUNT && Static(idx).name == LowerAll(name)
  {
    FindNamed(Named(|name|), LowerAll(name))
  }

  lemma NamedTo20(i: nat)
    requires 0 < i <= 20
    ensures FirstNamed(i) in Named(|Static(i).name|)
  {
  }

  lemma NamedTo40(i: nat)
    requires 20 < i <= 40
    ensures FirstNamed(i) in Named(|Static(i).name|)
  {
  }

  lemma NamedTo50(i: nat)
    requires 40 < i <= 50
    ensures FirstNamed(i) in Named(|Static(i).name|)
  {
  }

  lemma NamedTo61(i: nat)
    requires 50 < i <= 61
    ensures FirstNamed(i) in Named(|Static(i).name|)
  {
  }

  /** Every name of the table is tried. */
  lemma AllNamed(i: nat)
    requires 0 < i <= STATIC_COUNT
    ensures FirstNamed(i) in Named(|Static(i).name|) && 0 < FirstNamed(i) <= STATIC_COUNT
  {
    hide Static, Named;
    if i <= 20 { NamedTo20(i); }
    else if i <= 40 { NamedTo40(i); }
    else if i <= 50 { NamedTo50(i); }
    else { NamedTo61(i); }
  }

  lemma SameName(i: nat)
    requires 0 < i <= STATIC_COUNT
    ensures Static(FirstNamed(i)).name == Static(i).name
  {
  }

  /** A name is found if and only if some entry has it. */
  lemma StaticNameComplete(name: Bytes)
    ensures StaticNameFold(name) > 0 <==> exists i :: 0 < i <= STATIC_COUNT && Static(i).name == LowerAll(name)
  {
    hide Static, LowerAll;
    if i :| 0 < i <= STATIC_COUNT && Static(i).name == LowerAll(name) {
      AllNamed(i);
      SameName(i);
    }
  }
}
