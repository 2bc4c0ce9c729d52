/** Chunked bodies as clients write them, and what the decoder of
    core/chunked_decoder.go reads from each: sizes in digits of either case, any
    extensions, and trailers. */
module ChunkedReading {
  import opened ByteStrings
  import opened Chunked

  predicate Blanks(s: Bytes) {
    forall i :: 0 <= i < |s| ==> IsBlank(s[i])
  }

  predicate Tokens(s: Bytes) {
    s != [] && forall i :: 0 <= i < |s| ==> IsToken(s[i])
  }

  // ----- Digits

  const LOWER_DIGITS := "0123456789abcdef"
  const UPPER_DIGITS := "0123456789ABCDEF"

  /** A hexadecimal digit is one of these, and stands for its place among them. */
  lemma HexIs(c: Byte)
    ensures IsHex(c) <==> exists v :: 0 <= v < 16 && (c == LOWER_DIGITS[v] as int || c == UPPER_DIGITS[v] as int)
    ensures forall v :: 0 <= v < 16 && (c == LOWER_DIGITS[v] as int || c == UPPER_DIGITS[v] as int) ==>
              IsHex(c) && HexValue(c) == v
  {
    if IsHex(c) {
      var v := HexValue(c);
      assert c == LOWER_DIGITS[v] as int || c == UPPER_DIGITS[v] as int;
    }
  }

  // ----- Runs of blanks and of tokens

  lemma {:induction false} TokenEnds(b: Bytes, i: nat, end: nat)
    requires i <= end <= |b| && (forall k :: i <= k < end ==> IsToken(b[k])) && (end < |b| ==> !IsToken(b[end]))
    ensures SkipToken(b, i) == end
    decreases end - i
  {
    if i < end { TokenEnds(b, i + 1, end); }
  }

  lemma {:induction false} BlankEnds(b: Bytes, i: nat, end: nat)
    requires i <= end <= |b| && (forall k :: i <= k < end ==> IsBlank(b[k])) && (end < |b| ==> !IsBlank(b[end]))
    ensures SkipBlank(b, i) == end
    decreases end - i
  {
    if i < end { BlankEnds(b, i + 1, end); }
  }

  lemma {:induction false} TokenRun(b: Bytes, i: nat)
    requires i <= |b|
    ensures forall k :: i <= k < SkipToken(b, i) ==> IsToken(b[k])
    decreases |b| - i
  {
    if i < |b| && IsToken(b[i]) { TokenRun(b, i + 1); }
  }

  lemma {:induction false} BlankRun(b: Bytes, i: nat)
    requires i <= |b|
    ensures forall k :: i <= k < SkipBlank(b, i) ==> IsBlank(b[k])
    decreases |b| - i
  {
    if i < |b| && IsBlank(b[i]) { BlankRun(b, i + 1); }
  }

  lemma {:induction false} Trims(lead: Bytes, value: Bytes, trail: Bytes)
    requires Blanks(lead) && Blanks(trail)
    requires value != [] ==> !IsBlank(value[0]) && !IsBlank(value[|value| - 1])
    ensures TrimBlank(lead + value + trail) == value
    decreases |lead| + |trail|
  {
    var s := lead + value + trail;
    if lead != [] {
      assert s[1..] == lead[1..] + value + trail;
      Trims(lead[1..], value, trail);
    } else if value == [] {
      assert s == trail;
      if trail != [] {
        assert trail[1..] == trail[1..] + [] + [];
        Trims(trail[1..], [], []);
      }
    } else {
      assert s == value + trail;
      if trail != [] {
        assert s[..|s| - 1] == [] + value + trail[..|trail| - 1];
        Trims([], value, trail[..|trail| - 1]);
      } else {
        assert s == value;
      }
    }
  }

  // ----- Extensions

  /** A byte of a quoted string: itself, or any other behind a backslash. */
  datatype Quoted = Plain(c: Byte) | Escaped(c: Byte)

  predicate SoundQuoted(q: seq<Quoted>) {
    forall i :: 0 <= i < |q| ==> if q[i].Plain? then IsQuotedText(q[i].c) else IsQuotedPair(q[i].c)
  }

  function QuotedBytes(q: seq<Quoted>): Bytes {
    if q == [] then [34] else (if q[0].Plain? then [q[0].c] else [92, q[0].c]) + QuotedBytes(q[1..])
  }

  /** The value of an extension, blanks around its equals sign. */
  datatype Value = NoValue | Token(pre: Bytes, gap: Bytes, t: Bytes) | Quote(pre: Bytes, gap: Bytes, q: seq<Quoted>)

  predicate SoundValue(v: Value) {
    match v
    case NoValue => true
    case Token(pre, gap, t) => Blanks(pre) && Blanks(gap) && Tokens(t)
    case Quote(pre, gap, q) => Blanks(pre) && Blanks(gap) && SoundQuoted(q)
  }

  function ValueBytes(v: Value): Bytes {
    match v
    case NoValue => []
    case Token(pre, gap, t) => pre + ([61] + (gap + t))
    case Quote(pre, gap, q) => pre + ([61] + (gap + ([34] + QuotedBytes(q))))
  }

  /** One extension, blanks around its semicolon. */
  datatype Ext = Ext(pre: Bytes, gap: Bytes, name: Bytes, value: Value)

  predicate SoundExt(e: Ext) {
    Blanks(e.pre) && Blanks(e.gap) && Tokens(e.name) && SoundValue(e.value)
  }

  predicate SoundExts(es: seq<Ext>) {
    forall i :: 0 <= i < |es| ==> SoundExt(es[i])
  }

  function ExtBytes(e: Ext): Bytes {
    e.pre + ([59] + (e.gap + (e.name + ValueBytes(e.value))))
  }

  function ExtsBytes(es: seq<Ext>): Bytes {
    if es == [] then [] else ExtBytes(es[0]) + ExtsBytes(es[1..])
  }

  /** Where `s` stands in `b`. */
  predicate At(b: Bytes, i: nat, s: Bytes) {
    i + |s| <= |b| && b[i..i + |s|] == s
  }

  lemma Parts(b: Bytes, i: nat, s: Bytes, t: Bytes)
    requires At(b, i, s + t)
    ensures At(b, i, s) && At(b, i + |s|, t)
  {
    var w := b[i..i + |s + t|];
    assert w[..|s|] == s && w[|s|..] == t;
    assert b[i..i + |s|] == w[..|s|] && b[i + |s|..i + |s| + |t|] == w[|s|..];
  }

  lemma BytesAt(b: Bytes, i: nat, s: Bytes)
    requires At(b, i, s)
    ensures forall k :: i <= k < i + |s| ==> b[k] == s[k - i]
  {
    assert forall k :: i <= k < i + |s| ==> b[k] == b[i..i + |s|][k - i];
  }

  lemma {:induction false} QuoteEnds(b: Bytes, i: nat, q: seq<Quoted>)
    requires SoundQuoted(q) && At(b, i, QuotedBytes(q))
    ensures SkipQuoted(b, i) == i + |QuotedBytes(q)|
    decreases |q|
  {
    if q == [] {
      BytesAt(b, i, [34]);
    } else {
      var first: Bytes := if q[0].Plain? then [q[0].c] else [92, q[0].c];
      Parts(b, i, first, QuotedBytes(q[1..]));
      BytesAt(b, i, first);
      QuoteEnds(b, i + |first|, q[1..]);
    }
  }

  lemma BlanksAt(b: Bytes, i: nat, s: Bytes)
    requires At(b, i, s) && Blanks(s)
    ensures forall k :: i <= k < i + |s| ==> IsBlank(b[k])
  {
    BytesAt(b, i, s);
  }

  lemma TokensAt(b: Bytes, i: nat, s: Bytes)
    requires At(b, i, s) && Tokens(s)
    ensures s != [] && forall k :: i <= k < i + |s| ==> IsToken(b[k]) && !IsBlank(b[k])
  {
    BytesAt(b, i, s);
  }

  /** The parts of an extension. */
  lemma ExtSplit(b: Bytes, i: nat, e: Ext)
    requires At(b, i, ExtBytes(e))
    ensures var semi := i + |e.pre|;
            var name := semi + 1 + |e.gap|;
            var end := name + |e.name|;
            && At(b, i, e.pre) && At(b, semi, [59]) && At(b, semi + 1, e.gap) && At(b, name, e.name)
            && At(b, end, ValueBytes(e.value)) && |ExtBytes(e)| == end - i + |ValueBytes(e.value)|
  {
    hide At, ValueBytes;
    var semi := i + |e.pre|;
    var name := semi + 1 + |e.gap|;
    Parts(b, i, e.pre, [59] + (e.gap + (e.name + ValueBytes(e.value))));
    Parts(b, semi, [59], e.gap + (e.name + ValueBytes(e.value)));
    Parts(b, semi + 1, e.gap, e.name + ValueBytes(e.value));
    Parts(b, name, e.name, ValueBytes(e.value));
  }

  /** Blanks, up to something else. */
  lemma SkipsBlanks(b: Bytes, i: nat, s: Bytes)
    requires At(b, i, s) && Blanks(s) && (i + |s| < |b| ==> !IsBlank(b[i + |s|]))
    ensures i + |s| <= |b| && SkipBlank(b, i) == i + |s| && (s != [] ==> !IsToken(b[i]))
  {
    Inside(b, i, s);
    BlanksAt(b, i, s);
    hide At, Blanks;
    BlankEnds(b, i, i + |s|);
  }

  lemma OneAt(b: Bytes, i: nat, c: Byte)
    requires At(b, i, [c])
    ensures i < |b| && b[i] == c
  {
    BytesAt(b, i, [c]);
  }

  /** An extension from its semicolon on. */
  lemma ExtParts(b: Bytes, i: nat, e: Ext)
    requires SoundExt(e) && At(b, i, ExtBytes(e))
    ensures var semi := i + |e.pre|;
            var name := semi + 1 + |e.gap|;
            var end := name + |e.name|;
            && (i < |b| ==> !IsToken(b[i])) && semi < |b| && b[semi] == 59 && SkipBlank(b, i) == semi
            && name <= |b| && SkipBlank(b, semi + 1) == name && name < end <= |b|
            && (forall k :: name <= k < end ==> IsToken(b[k]))
            && At(b, end, ValueBytes(e.value)) && |ExtBytes(e)| == end - i + |ValueBytes(e.value)|
  {
    hide At, ValueBytes, Blanks, Tokens, ExtBytes, SkipBlank;
    ExtSplit(b, i, e);
    var semi := i + |e.pre|;
    var name := semi + 1 + |e.gap|;
    Inside(b, name, e.name);
    TokensAt(b, name, e.name);
    OneAt(b, semi, 59);
    SkipsBlanks(b, i, e.pre);
    SkipsBlanks(b, semi + 1, e.gap);
  }

  lemma Inside(b: Bytes, i: nat, s: Bytes)
    requires At(b, i, s)
    ensures i + |s| <= |b|
  {
  }

  lemma NoExts(es: seq<Ext>)
    requires es == []
    ensures ExtsBytes(es) == []
  {
  }

  lemma FirstExt(b: Bytes, i: nat, es: seq<Ext>)
    requires es != [] && At(b, i, ExtsBytes(es))
    ensures At(b, i, ExtBytes(es[0])) && At(b, i + |ExtBytes(es[0])|, ExtsBytes(es[1..]))
    ensures |ExtsBytes(es)| == |ExtBytes(es[0])| + |ExtsBytes(es[1..])|
  {
    hide At, ExtBytes;
    Parts(b, i, ExtBytes(es[0]), ExtsBytes(es[1..]));
  }

  /** Behind one extension there is another or nothing. */
  lemma Separates(b: Bytes, i: nat, es: seq<Ext>)
    requires SoundExts(es) && At(b, i, ExtsBytes(es)) && i + |ExtsBytes(es)| == |b|
    ensures i < |b| ==> !IsToken(b[i])
    ensures SkipBlank(b, i) < |b| ==> b[SkipBlank(b, i)] == 59
  {
    hide At, ExtBytes, ExtsBytes, SoundExt, SkipBlank;
    if es == [] {
      NoExts(es);
      BlankEnds(b, i, i);
    } else {
      FirstExt(b, i, es);
      ExtParts(b, i, es[0]);
    }
  }

  lemma ValueStarts(b: Bytes, i: nat, pre: Bytes, gap: Bytes, rest: Bytes)
    requires Blanks(pre) && Blanks(gap) && At(b, i, pre + ([61] + (gap + rest)))
    ensures i < |b| && !IsToken(b[i]) && i + |pre| < |b| && SkipBlank(b, i) == i + |pre| && b[i + |pre|] == 61
    ensures var at := i + |pre| + 1 + |gap|;
            && At(b, at, rest) && at + |rest| <= |b|
            && (at == |b| || !IsBlank(b[at]) ==> SkipBlank(b, i + |pre| + 1) == at)
  {
    hide At, Blanks, SkipBlank;
    var eq := i + |pre|;
    var at := eq + 1 + |gap|;
    Parts(b, i, pre, [61] + (gap + rest));
    Parts(b, eq, [61], gap + rest);
    Parts(b, eq + 1, gap, rest);
    Inside(b, at, rest);
    OneAt(b, eq, 61);
    SkipsBlanks(b, i, pre);
    if at == |b| || !IsBlank(b[at]) { SkipsBlanks(b, eq + 1, gap); }
  }

  /** A value, and where it ends if no token follows. */
  lemma ValueEnds(b: Bytes, i: nat, v: Value)
    requires SoundValue(v) && !v.NoValue? && At(b, i, ValueBytes(v))
    requires var end := i + |ValueBytes(v)|; end < |b| ==> !IsToken(b[end])
    ensures i < |b| && !IsToken(b[i])
    ensures var eq := SkipBlank(b, i);
            eq < |b| && b[eq] == 61 && SkipExtValue(b, SkipBlank(b, eq + 1)) == i + |ValueBytes(v)|
  {
    hide At, Blanks, Tokens, QuotedBytes, SkipExtValue, IsToken, SoundQuoted;
    var at := i + |v.pre| + 1 + |v.gap|;
    if v.Token? {
      ValueStarts(b, i, v.pre, v.gap, v.t);
      TokenValue(b, at, v.t);
    } else {
      ValueStarts(b, i, v.pre, v.gap, [34] + QuotedBytes(v.q));
      QuoteValue(b, at, v.q);
    }
  }

  lemma TokenValue(b: Bytes, at: nat, s: Bytes)
    requires At(b, at, s) && Tokens(s) && (at + |s| < |b| ==> !IsToken(b[at + |s|]))
    ensures at < |b| && !IsBlank(b[at]) && SkipExtValue(b, at) == at + |s|
  {
    Inside(b, at, s);
    TokensAt(b, at, s);
    hide At, Tokens;
    TokenEnds(b, at, at + |s|);
  }

  lemma QuoteValue(b: Bytes, at: nat, q: seq<Quoted>)
    requires At(b, at, [34] + QuotedBytes(q)) && SoundQuoted(q)
    ensures at < |b| && !IsBlank(b[at]) && SkipExtValue(b, at) == at + 1 + |QuotedBytes(q)|
  {
    hide At, QuotedBytes, SoundQuoted;
    Parts(b, at, [34], QuotedBytes(q));
    Inside(b, at, [34]);
    BytesAt(b, at, [34]);
    QuoteEnds(b, at + 1, q);
  }

  /** One extension, and those behind it. */
  lemma OneMore(b: Bytes, i: nat, semi: nat, name: nat, end: nat, next: nat)
    requires i < semi + 1 <= name < end <= next <= |b| && b[semi] == 59
    requires SkipBlank(b, i) == semi && SkipBlank(b, semi + 1) == name && SkipToken(b, name) == end
    requires var eq := SkipBlank(b, end);
             if eq < |b| && b[eq] == 61 then SkipExtValue(b, SkipBlank(b, eq + 1)) == next else next == end
    ensures ValidExtensions(b, i) == ValidExtensions(b, next)
  {
    hide SkipBlank, SkipToken, SkipExtValue;
  }

  /** Every list of extensions is valid. */
  lemma {:induction false} ExtsAreValid(b: Bytes, i: nat, es: seq<Ext>)
    requires SoundExts(es) && At(b, i, ExtsBytes(es)) && i + |ExtsBytes(es)| == |b|
    ensures ValidExtensions(b, i)
    decreases |es|
  {
    hide At, ExtBytes, ExtsBytes, SoundExt, SkipBlank;
    if es == [] {
      NoExts(es);
    } else {
      var e := es[0];
      FirstExt(b, i, es);
      var next := i + |ExtBytes(e)|;
      Separates(b, next, es[1..]);
      ExtsAreValid(b, next, es[1..]);
      ExtIsOne(b, i, e);
    }
  }

  lemma ExtIsOne(b: Bytes, i: nat, e: Ext)
    requires SoundExt(e) && At(b, i, ExtBytes(e)) && i + |ExtBytes(e)| <= |b|
    requires var next := i + |ExtBytes(e)|;
             && (next < |b| ==> !IsToken(b[next])) && (SkipBlank(b, next) < |b| ==> b[SkipBlank(b, next)] == 59)
    ensures ValidExtensions(b, i) == ValidExtensions(b, i + |ExtBytes(e)|)
  {
    hide At, ExtBytes, ValueBytes, SkipExtValue, ValidExtensions, SkipBlank, SkipToken, IsToken, Blanks, Tokens,
      SoundValue;
    ExtParts(b, i, e);
    var next := i + |ExtBytes(e)|;
    var semi := i + |e.pre|;
    var name := semi + 1 + |e.gap|;
    var end := name + |e.name|;
    if e.value.NoValue? {
      NoValueBytes(e.value);
    } else {
      ValueEnds(b, end, e.value);
    }
    TokenEnds(b, name, end);
    OneMore(b, i, semi, name, end, next);
  }

  lemma NoValueBytes(v: Value)
    requires v.NoValue?
    ensures ValueBytes(v) == []
  {
  }

  // ----- And nothing else is valid

  lemma {:induction false} QuoteFound(b: Bytes, i: nat) returns (q: seq<Quoted>)
    requires i <= |b| && SkipQuoted(b, i) >= 0
    ensures SoundQuoted(q) && b[i..SkipQuoted(b, i)] == QuotedBytes(q)
    decreases |b| - i
  {
    if b[i] == 34 {
      q := [];
    } else if b[i] == 92 {
      var more := QuoteFound(b, i + 2);
      q := [Escaped(b[i + 1])] + more;
      assert q[1..] == more;
      assert b[i..SkipQuoted(b, i)] == [92, b[i + 1]] + b[i + 2..SkipQuoted(b, i)];
    } else {
      var more := QuoteFound(b, i + 1);
      q := [Plain(b[i])] + more;
      assert q[1..] == more;
      assert b[i..SkipQuoted(b, i)] == [b[i]] + b[i + 1..SkipQuoted(b, i)];
    }
  }

  lemma BlanksFound(b: Bytes, i: nat)
    requires i <= |b|
    ensures Blanks(b[i..SkipBlank(b, i)])
  {
    BlankRun(b, i);
  }

  /** The bytes of a value behind its equals sign. */
  function ValueTail(v: Value): Bytes {
    match v
    case NoValue => []
    case Token(_, _, t) => t
    case Quote(_, _, q) => [34] + QuotedBytes(q)
  }

  lemma ValueIs(b: Bytes, i: nat, eq: nat, at: nat, end: nat, v: Value)
    requires i <= eq < at <= end <= |b| && b[eq] == 61 && !v.NoValue?
    requires v.pre == b[i..eq] && v.gap == b[eq + 1..at] && ValueTail(v) == b[at..end]
    ensures ValueBytes(v) == b[i..end]
  {
    hide QuotedBytes;
    FourParts(b, i, eq, at, end);
  }

  lemma TailFound(b: Bytes, at: nat, pre: Bytes, gap: Bytes) returns (v: Value)
    requires at <= |b| && SkipExtValue(b, at) >= 0 && Blanks(pre) && Blanks(gap)
    ensures SoundValue(v) && !v.NoValue? && v.pre == pre && v.gap == gap
    ensures at < SkipExtValue(b, at) <= |b| && ValueTail(v) == b[at..SkipExtValue(b, at)]
  {
    hide Blanks;
    if at < |b| && b[at] == 34 {
      var q := QuoteFound(b, at + 1);
      hide QuotedBytes, SoundQuoted, SkipQuoted;
      v := Quote(pre, gap, q);
    } else {
      TokenRun(b, at);
      v := Token(pre, gap, b[at..SkipExtValue(b, at)]);
    }
  }

  lemma ValueFound(b: Bytes, i: nat) returns (v: Value)
    requires i <= |b|
             && var eq := SkipBlank(b, i); eq < |b| && b[eq] == 61 && SkipExtValue(b, SkipBlank(b, eq + 1)) >= 0
    ensures SoundValue(v)
    ensures i <= SkipExtValue(b, SkipBlank(b, SkipBlank(b, i) + 1)) <= |b|
    ensures b[i..SkipExtValue(b, SkipBlank(b, SkipBlank(b, i) + 1))] == ValueBytes(v)
  {
    hide Blanks, SkipBlank, SkipExtValue, ValueTail, ValueBytes, SoundValue;
    var eq := SkipBlank(b, i);
    var at := SkipBlank(b, eq + 1);
    BlanksFound(b, i);
    BlanksFound(b, eq + 1);
    v := TailFound(b, at, b[i..eq], b[eq + 1..at]);
    ValueIs(b, i, eq, at, SkipExtValue(b, at), v);
  }

  lemma FourParts(b: Bytes, i: nat, eq: nat, at: nat, end: nat)
    requires i <= eq < at <= end <= |b|
    ensures b[i..end] == b[i..eq] + ([b[eq]] + (b[eq + 1..at] + b[at..end]))
  {
  }

  lemma ExtIs(b: Bytes, i: nat, semi: nat, name: nat, end: nat, next: nat, e: Ext)
    requires i <= semi < name <= end <= next <= |b| && b[semi] == 59
    requires e.pre == b[i..semi] && e.gap == b[semi + 1..name] && e.name == b[name..end]
             && ValueBytes(e.value) == b[end..next]
    ensures ExtBytes(e) == b[i..next]
  {
    hide ValueBytes;
    FourParts(b, i, semi, name, next);
    assert b[name..next] == b[name..end] + b[end..next];
  }

  lemma TokensFound(b: Bytes, i: nat)
    requires i <= |b| && i < SkipToken(b, i)
    ensures Tokens(b[i..SkipToken(b, i)])
  {
    TokenRun(b, i);
  }

  /** A valid extension is one. */
  lemma ExtFound(b: Bytes, i: nat) returns (e: Ext, next: nat)
    requires i < |b| && ValidExtensions(b, i)
    ensures i < next <= |b| && SoundExt(e) && ExtBytes(e) == b[i..next] && ValidExtensions(b, next)
  {
    hide ExtBytes, ValueBytes, Blanks, Tokens, SkipBlank, SkipToken, SkipExtValue;
    var semi := SkipBlank(b, i);
    var name := SkipBlank(b, semi + 1);
    var end := SkipToken(b, name);
    var eq := SkipBlank(b, end);
    var v := NoValue;
    next := end;
    if eq < |b| && b[eq] == 61 {
      v := ValueFound(b, end);
      next := SkipExtValue(b, SkipBlank(b, eq + 1));
    } else {
      NoValueBytes(v);
    }
    hide ValidExtensions;
    BlanksFound(b, i);
    BlanksFound(b, semi + 1);
    TokensFound(b, name);
    e := Ext(b[i..semi], b[semi + 1..name], b[name..end], v);
    ExtIs(b, i, semi, name, end, next, e);
  }

  /** Extensions that are valid are a list of them. */
  lemma {:induction false} ExtsFound(b: Bytes, i: nat) returns (es: seq<Ext>)
    requires i <= |b| && ValidExtensions(b, i)
    ensures SoundExts(es) && b[i..] == ExtsBytes(es)
    decreases |b| - i
  {
    hide ValidExtensions, SoundExt, ExtBytes;
    es := [];
    if i < |b| {
      var e, next := ExtFound(b, i);
      var more := ExtsFound(b, next);
      es := [e] + more;
      assert es[1..] == more;
      assert b[i..] == b[i..next] + b[next..];
    }
  }

  // ----- Size lines

  /** A size as written: its digits and its extensions. */
  datatype Size = Size(digits: Bytes, exts: seq<Ext>)

  predicate SoundSize(s: Size, n: nat) {
    && s.digits != [] && AllHex(s.digits) && HexNumber(s.digits) == n && n <= MAX_PARSED_LENGTH
    && SoundExts(s.exts)
  }

  function SizeBytes(s: Size): Bytes {
    s.digits + ExtsBytes(s.exts)
  }

  lemma {:induction false} HexEnds(b: Bytes, i: nat, end: nat)
    requires i <= end <= |b| && (forall k :: i <= k < end ==> IsHex(b[k])) && (end < |b| ==> !IsHex(b[end]))
    ensures HexPrefix(b, i) == end
    decreases end - i
  {
    if i < end { HexEnds(b, i + 1, end); }
  }

  lemma NotToken(c: Byte)
    requires !IsToken(c)
    ensures !IsHex(c)
  {
  }

  /** Every size is read as the number its digits stand for. */
  lemma SizeIsRead(s: Size, n: nat)
    requires SoundSize(s, n)
    ensures ParseSizeLine(SizeBytes(s) + [CR]) == Some(n)
  {
    var body, k := SizeBytes(s), |s.digits|;
    assert (body + [CR])[..|body|] == body;
    assert body[..k] == s.digits && body[k..] == ExtsBytes(s.exts);
    Separates(body, k, s.exts);
    if k < |body| { NotToken(body[k]); }
    HexEnds(body, 0, k);
    ExtsAreValid(body, k, s.exts);
    hide ValidExtensions, HexNumber;
  }

  /** And whatever is read is a size. */
  lemma SizeWasThere(line: Bytes) returns (s: Size)
    requires ParseSizeLine(line).Some?
    ensures SoundSize(s, ParseSizeLine(line).value) && line == SizeBytes(s) + [CR]
  {
    hide ValidExtensions, HexNumber, HexPrefix, SoundExts, ExtsBytes;
    var body := line[..|line| - 1];
    var k := HexPrefix(body, 0);
    var es := ExtsFound(body, k);
    s := Size(body[..k], es);
    assert body == body[..k] + body[k..];
    assert line == body + [CR];
  }

  predicate NoBreak(s: Bytes) {
    forall i :: 0 <= i < |s| ==> s[i] != LF
  }

  lemma NoBreakCat(a: Bytes, b: Bytes)
    requires NoBreak(a) && NoBreak(b)
    ensures NoBreak(a + b)
  {
  }

  lemma {:induction false} QuotedNoBreak(q: seq<Quoted>)
    requires SoundQuoted(q)
    ensures NoBreak(QuotedBytes(q))
    decreases |q|
  {
    if q != [] { QuotedNoBreak(q[1..]); }
  }

  lemma ValueNoBreak(v: Value)
    requires SoundValue(v)
    ensures NoBreak(ValueBytes(v))
  {
    if v.Quote? { QuotedNoBreak(v.q); }
    hide QuotedBytes, SoundQuoted;
  }

  lemma ExtNoBreak(e: Ext)
    requires SoundExt(e)
    ensures NoBreak(ExtBytes(e))
  {
    ValueNoBreak(e.value);
    hide ValueBytes, SoundValue;
  }

  lemma {:induction false} ExtsNoBreak(es: seq<Ext>)
    requires SoundExts(es)
    ensures NoBreak(ExtsBytes(es))
    decreases |es|
  {
    hide SoundExt, ExtBytes;
    if es != [] {
      ExtNoBreak(es[0]);
      ExtsNoBreak(es[1..]);
    }
  }

  /** The line that starts `src`. */
  lemma LineIs(text: Bytes, rest: Bytes)
    requires NoBreak(text) && |text| + 2 <= FRAMING_LINE_MAX
    ensures var src := text + [CR, LF] + rest;
            LineEnd(src) == |text| + 1 && src[..|text| + 2] == text + [CR, LF] && src[|text| + 2..] == rest
  {
    var src := text + [CR, LF] + rest;
    var window := if |src| < FRAMING_LINE_MAX then src else src[..FRAMING_LINE_MAX];
    assert window[..|text| + 1] == text + [CR] && window[|text| + 1] == LF;
    IndexIs(window, LF, |text| + 1);
  }

  lemma SizeStep(d: Dec, s: Size, n: nat, rest: Bytes)
    requires SoundSize(s, n) && |SizeBytes(s)| + 2 <= FRAMING_LINE_MAX && d.phase == AwaitSize
    ensures Next(d, SizeBytes(s) + [CR, LF] + rest)
            == Took(if n == 0 then d.(phase := InTrailer) else d.(phase := InData, left := n), |SizeBytes(s)| + 2, [])
  {
    hide ParseSizeLine, LineEnd;
    SizeIsRead(s, n);
    ExtsNoBreak(s.exts);
    assert NoBreak(s.digits);
    NoBreakCat(s.digits, ExtsBytes(s.exts));
    hide HexNumber, AllHex, SoundExts;
    LineIs(SizeBytes(s), rest);
    hide SizeBytes;
    var line := SizeBytes(s) + [CR, LF];
    assert line[..|line| - 1] == SizeBytes(s) + [CR];
  }

  // ----- Chunks

  datatype Chunk = Chunk(size: Size, data: Bytes)

  predicate SoundChunk(c: Chunk) {
    c.data != [] && SoundSize(c.size, |c.data|) && |SizeBytes(c.size)| + 2 <= FRAMING_LINE_MAX
  }

  function ChunkBytes(c: Chunk): Bytes {
    SizeBytes(c.size) + [CR, LF] + (c.data + [CR, LF])
  }

  /** The decoder and the scan both pass over a chunk, the decoder yielding its
      data. */
  lemma ChunkIsRead(c: Chunk, buf: Bytes, pos: nat, start: nat)
    requires SoundChunk(c) && pos <= |buf| && ChunkBytes(c) <= buf[pos..]
    ensures var next := pos + |ChunkBytes(c)|;
            && next <= |buf|
            && Scan(Fresh(false), buf, pos, start) == Scan(Fresh(false), buf, next, next)
            && Decode(Fresh(true), buf, pos) == Prepend(c.data, Decode(Fresh(true), buf, next))
  {
    hide Next, Scan, Decode, SizeBytes, SoundSize;
    var line := SizeBytes(c.size) + [CR, LF];
    var p1 := pos + |line|;
    var p2 := p1 + |c.data|;
    StandsAt(line, c.data + [CR, LF], buf, pos);
    StandsAt(c.data, [CR, LF], buf, p1);
    assert [CR, LF] + [] == [CR, LF];
    StandsAt([CR, LF], [], buf, p2);
    SizeStep(Fresh(true), c.size, |c.data|, buf[p1..]);
    SizeStep(Fresh(false), c.size, |c.data|, buf[p1..]);
    DataReads(c.data, buf[p1..], buf[p2..]);
    FrameSteps(c.data, buf, pos, p1, p2, p2 + 2, start);
  }

  // ----- Trailers

  datatype Trailer = Trailer(name: Bytes, lead: Bytes, value: Bytes, trail: Bytes)

  predicate SoundTrailer(t: Trailer) {
    && Tokens(t.name) && Blanks(t.lead) && Blanks(t.trail)
    && (forall i :: 0 <= i < |t.value| ==> !IsSpecial(t.value[i]))
    && (t.value != [] ==> !IsBlank(t.value[0]) && !IsBlank(t.value[|t.value| - 1]))
  }

  function TrailerText(t: Trailer): Bytes {
    t.name + ([58] + (t.lead + t.value + t.trail))
  }

  lemma {:induction false} SpecialEnds(b: Bytes, i: nat, end: nat)
    requires i <= end < |b| && (forall k :: i <= k < end ==> !IsSpecial(b[k])) && IsSpecial(b[end])
    ensures FirstSpecial(b, i) == end
    decreases end - i
  {
    if i < end { SpecialEnds(b, i + 1, end); }
  }

  lemma TrailerParts(t: Trailer)
    requires SoundTrailer(t)
    ensures var line, n, end := TrailerText(t) + [CR, LF], |t.name|, |TrailerText(t)|;
            && 0 < n < end == |line| - 2 && line[..n] == t.name && line[n] == 58
            && line[end] == CR && line[end + 1] == LF
            && line[n + 1..end] == t.lead + t.value + t.trail
            && (forall k :: n <= k < end ==> !IsSpecial(line[k])) && (forall k :: 0 <= k < n ==> IsToken(line[k]))
            && NoBreak(TrailerText(t))
  {
    var line, n, end := TrailerText(t) + [CR, LF], |t.name|, |TrailerText(t)|;
    var rest := t.lead + t.value + t.trail;
    assert forall i :: 0 <= i < |rest| ==> !IsSpecial(rest[i]);
    assert line[n + 1..end] == rest;
    forall k | n <= k < end
      ensures !IsSpecial(line[k])
    {
      if k > n { assert line[k] == rest[k - n - 1]; }
    }
  }

  /** A trailer is read as its field. */
  lemma TrailerIsRead(t: Trailer)
    requires SoundTrailer(t)
    ensures SplitTrailer(TrailerText(t) + [CR, LF]) == Some((t.name, t.value)) && NoBreak(TrailerText(t))
  {
    hide TrimBlank;
    TrailerParts(t);
    Trims(t.lead, t.value, t.trail);
    var line, n, end := TrailerText(t) + [CR, LF], |t.name|, |TrailerText(t)|;
    hide TrailerText;
    TokenEnds(line, 0, n);
    SpecialEnds(line, n, end);
  }

  predicate SoundTrailers(ts: seq<Trailer>) {
    forall i :: 0 <= i < |ts| ==> SoundTrailer(ts[i])
  }

  /** Trailers, and the empty line behind them. */
  function TrailersBytes(ts: seq<Trailer>): Bytes {
    if ts == [] then [CR, LF] else TrailerText(ts[0]) + [CR, LF] + TrailersBytes(ts[1..])
  }

  /** The trailers that are handed on, in order. */
  function Captured(ts: seq<Trailer>): seq<Field> {
    if ts == [] then []
    else
      (if TrailerForbidden(ts[0].name) then [] else [(ts[0].name, ts[0].value)]) + Captured(ts[1..])
  }

  lemma TrailerStep(d: Dec, text: Bytes, rest: Bytes)
    requires d.phase == InTrailer && NoBreak(text) && d.trailerBytes + |text| + 2 <= FRAMING_LINE_MAX
    ensures Next(d, text + [CR, LF] + rest) == TrailerLine(d, text + [CR, LF])
  {
    hide TrailerLine, LineEnd;
    LineIs(text, rest);
  }

  /** The decoder after a trailer. */
  function AfterTrailer(d: Dec, t: Trailer): Dec {
    d.(trailerBytes := d.trailerBytes + |TrailerText(t)| + 2,
       trailers := if d.capture && !TrailerForbidden(t.name) then d.trailers + [(t.name, t.value)] else d.trailers)
  }

  lemma TrailerNext(d: Dec, t: Trailer, rest: Bytes)
    requires SoundTrailer(t) && d.phase == InTrailer && d.trailerBytes + |TrailerText(t)| + 2 <= FRAMING_LINE_MAX
    ensures Next(d, TrailerText(t) + [CR, LF] + rest) == Took(AfterTrailer(d, t), |TrailerText(t)| + 2, [])
  {
    SomeTrailer(TrailerText(t), t);
    TrailerIsRead(t);
    hide Next, SplitTrailer, TrailerForbidden, SoundTrailer, TrailerText;
    TrailerStep(d, TrailerText(t), rest);
  }

  lemma EndNext(d: Dec, rest: Bytes)
    requires d.phase == InTrailer && d.trailerBytes + 2 <= FRAMING_LINE_MAX
    ensures Next(d, [CR, LF] + rest) == Took(d.(phase := Finished, trailerBytes := d.trailerBytes + 2), 2, [])
  {
    hide Next, SplitTrailer, TrailerForbidden;
    assert [CR, LF] + rest == [] + [CR, LF] + rest && [] + [CR, LF] == [CR, LF];
    TrailerStep(d, [], rest);
  }

  /** A line of the trailers is passed over; the empty one ends them. */
  lemma PassesOver(d: Dec, e: Dec, n: nat, buf: Bytes, pos: nat, start: nat)
    requires pos <= |buf| && d.phase == InTrailer && n > 0 && Next(d, buf[pos..]) == Took(e, n, [])
    requires e.phase == InTrailer || e.phase == Finished
    ensures pos + n <= |buf|
    ensures Scan(d, buf, pos, start) == if e.phase == Finished then Complete(pos + n) else Scan(e, buf, pos + n, start)
    ensures Decode(d, buf, pos) == Decode(e, buf, pos + n)
  {
    hide Next;
    PrependTwice([], [], Decode(e, buf, pos + n));
  }

  lemma {:induction false} TrailersAreRead(d: Dec, ts: seq<Trailer>, buf: Bytes, pos: nat, start: nat)
    requires SoundTrailers(ts) && d.phase == InTrailer && pos <= |buf| && TrailersBytes(ts) <= buf[pos..]
    requires d.trailerBytes + |TrailersBytes(ts)| <= FRAMING_LINE_MAX
    ensures Scan(d, buf, pos, start) == Complete(pos + |TrailersBytes(ts)|)
    ensures Decode(d, buf, pos) == Some(([], d.trailers + if d.capture then Captured(ts) else []))
    decreases |ts|
  {
    hide Next, Scan, Decode, TrailerForbidden, SoundTrailer, TrailerText;
    if ts == [] {
      assert [CR, LF] + [] == [CR, LF];
      StandsAt([CR, LF], [], buf, pos);
      EndNext(d, buf[pos + 2..]);
      var e := d.(phase := Finished, trailerBytes := d.trailerBytes + 2);
      PassesOver(d, e, 2, buf, pos, start);
      NoneLeft(e, buf, pos + 2);
    } else {
      var n := |TrailerText(ts[0])| + 2;
      StandsAt(TrailerText(ts[0]) + [CR, LF], TrailersBytes(ts[1..]), buf, pos);
      TrailerNext(d, ts[0], buf[pos + n..]);
      var e := AfterTrailer(d, ts[0]);
      PassesOver(d, e, n, buf, pos, start);
      TrailersAreRead(e, ts[1..], buf, pos + n, start);
      CapturedMore(d, ts);
    }
  }

  lemma NoneLeft(d: Dec, buf: Bytes, pos: nat)
    requires pos <= |buf| && d.phase == Finished
    ensures Decode(d, buf, pos) == Some(([], d.trailers + []))
  {
    assert d.trailers + [] == d.trailers;
  }

  lemma CapturedMore(d: Dec, ts: seq<Trailer>)
    requires ts != []
    ensures AfterTrailer(d, ts[0]).trailers + (if d.capture then Captured(ts[1..]) else [])
            == d.trailers + (if d.capture then Captured(ts) else [])
  {
    var f: seq<Field> := if TrailerForbidden(ts[0].name) then [] else [(ts[0].name, ts[0].value)];
    assert Captured(ts) == f + Captured(ts[1..]);
    hide Captured, TrailerForbidden, TrailerText;
    Regroup(d.trailers, f, Captured(ts[1..]));
  }

  lemma Regroup(a: seq<Field>, b: seq<Field>, c: seq<Field>)
    ensures a + b + c == a + (b + c) && a + [] == a
  {
  }

  lemma SomeTrailer(text: Bytes, t: Trailer)
    requires SoundTrailer(t) && text == TrailerText(t)
    ensures text != []
  {
  }

  // ----- Bodies

  predicate SoundChunks(cs: seq<Chunk>) {
    forall i :: 0 <= i < |cs| ==> SoundChunk(cs[i])
  }

  /** A whole body: chunks, the last one, and trailers. */
  function BodyBytes(cs: seq<Chunk>, zero: Size, ts: seq<Trailer>): Bytes {
    if cs == [] then SizeBytes(zero) + [CR, LF] + TrailersBytes(ts)
    else ChunkBytes(cs[0]) + BodyBytes(cs[1..], zero, ts)
  }

  function Data(cs: seq<Chunk>): Bytes {
    if cs == [] then [] else cs[0].data + Data(cs[1..])
  }

  /** However a body is written, the scan finds its end, whatever follows, and it is
      decoded to the data of its chunks and the trailers that may be handed on. */
  lemma {:induction false} BodyIsRead(cs: seq<Chunk>, zero: Size, ts: seq<Trailer>, buf: Bytes, pos: nat, start: nat)
    requires SoundChunks(cs) && SoundSize(zero, 0) && SoundTrailers(ts)
    requires |SizeBytes(zero)| + 2 <= FRAMING_LINE_MAX && |TrailersBytes(ts)| <= FRAMING_LINE_MAX
    requires pos <= |buf| && BodyBytes(cs, zero, ts) <= buf[pos..]
    ensures Scan(Fresh(false), buf, pos, start) == Complete(pos + |BodyBytes(cs, zero, ts)|)
    ensures Decode(Fresh(true), buf, pos) == Some((Data(cs), Captured(ts)))
    decreases |cs|
  {
    hide Next, SizeBytes, ChunkBytes, SoundChunk, SoundSize, TrailersBytes, SoundTrailers, Captured;
    if cs == [] {
      LastIsRead(zero, ts, buf, pos, start);
    } else {
      hide Scan, Decode;
      var rest := BodyBytes(cs[1..], zero, ts);
      StandsAt(ChunkBytes(cs[0]), rest, buf, pos);
      ChunkIsRead(cs[0], buf, pos, start);
      var next := pos + |ChunkBytes(cs[0])|;
      BodyIsRead(cs[1..], zero, ts, buf, next, next);
    }
  }

  lemma LastIsRead(zero: Size, ts: seq<Trailer>, buf: Bytes, pos: nat, start: nat)
    requires SoundSize(zero, 0) && SoundTrailers(ts)
    requires |SizeBytes(zero)| + 2 <= FRAMING_LINE_MAX && |TrailersBytes(ts)| <= FRAMING_LINE_MAX
    requires pos <= |buf| && SizeBytes(zero) + [CR, LF] + TrailersBytes(ts) <= buf[pos..]
    ensures Scan(Fresh(false), buf, pos, start) == Complete(pos + |SizeBytes(zero) + [CR, LF] + TrailersBytes(ts)|)
    ensures Decode(Fresh(true), buf, pos) == Some(([], Captured(ts)))
  {
    hide Next, SizeBytes, SoundSize, TrailersBytes, SoundTrailers, Captured;
    var line := SizeBytes(zero) + [CR, LF];
    var next := pos + |line|;
    StandsAt(line, TrailersBytes(ts), buf, pos);
    SizeStep(Fresh(true), zero, 0, buf[next..]);
    SizeStep(Fresh(false), zero, 0, buf[next..]);
    TrailersAreRead(Fresh(true).(phase := InTrailer), ts, buf, next, start);
    TrailersAreRead(Fresh(false).(phase := InTrailer), ts, buf, next, start);
    assert [] + Captured(ts) == Captured(ts);
    PrependTwice([], [], Some(([], Captured(ts))));
  }
}
