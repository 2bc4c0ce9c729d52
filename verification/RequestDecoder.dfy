/** `DecodeIntoRequest` and `DecodeRequest` of core/hpack.go with their memo, and the
    root shortcuts of core/epoll_h2_linux_amd64.go in front of them. */
module RequestDecoder {
  import opened ByteStrings
  import opened HpackInt
  import Huffman
  import opened HpackTable
  import opened HpackStatic
  import opened HpackCodec
  import opened HpackBound
  import opened HpackDecoder
  import opened H2Request
  import opened H2FastPath

  const MEMO_MAX_BLOCK := 512

  /** What the decoder's loop ends with. */
  datatype Result = Broken(error: Error) | Unfit | Fit(fields: seq<Field>, meta: Meta)

  /** What a request is answered with. */
  datatype Answer =
    | Rejected(error: Error)
    | MalformedRequest
    | ListTooLarge
    | Served(fields: seq<Field>, meta: Meta, isRoot: bool)

  predicate IsRoot(meta: Meta) {
    meta.verb == Ascii("GET") && meta.path == [SLASH]
  }

  function ResultOf(r: Request): Result {
    match r
    case Fatal(error) => Broken(error)
    case Malformed(_, _, _) => Unfit
    case Accepted(fields, meta, _) => Fit(fields, meta)
  }

  /** The answer for a decoded request, by the exact size of its header list. */
  function AnswerFor(r: Request, limit: nat): Answer {
    match r
    case Fatal(error) => Rejected(error)
    case Malformed(_, _, _) => MalformedRequest
    case Accepted(fields, meta, _) =>
      if ListSize(fields) > limit then ListTooLarge else Served(fields, meta, IsRoot(meta))
  }

  /** What decoding without a memo gives: the shortcut where it applies. */
  ghost function Decoding(d: Dec, data: Bytes, allow: bool): Request {
    if IsFast(data) then FastResult(d, FastPath(data)) else General(d, data, [], NoMeta(allow))
  }

  ghost function FullDecode(d: Dec, data: Bytes, allow: bool): Request {
    General(d, data, [], NoMeta(allow))
  }

  class Requests {
    const dec: Decoder
    const allow: bool
    const limit: nat
    var memoBlock: Bytes
    var memoHeaders: seq<Field>
    var memoMeta: Meta
    var memoRoot: bool
    /** The highest stream the peer has opened. */
    var highest: nat

    /** A valid memo answers as decoding its block now would, and decoding it would
        not change the table. */
    ghost predicate Valid()
      reads this`memoBlock, this`memoHeaders, this`memoMeta, this`memoRoot, dec, dec.table, dec.table.inline,
            dec.table.ring
    {
      && dec.Valid()
      && (dec.memoValid ==>
            && AnswerFor(Decoding(dec.View(), memoBlock, allow), limit) == Served(memoHeaders, memoMeta, memoRoot)
            && Leaves(FullDecode(dec.View(), memoBlock, allow), dec.View()))
    }

    constructor (huff: Huffman.Tables, size: nat, allow: bool, limit: nat)
      requires Huffman.Good(huff)
      ensures Valid() && dec.View() == Dec([], size, size) && highest == 0
      ensures fresh(dec) && fresh(dec.table) && fresh(dec.table.inline) && fresh(dec.table.ring)
    {
      dec := new Decoder(huff, size);
      this.allow, this.limit := allow, limit;
      memoBlock, memoHeaders, memoMeta, memoRoot, highest := [], [], NoMeta(false), false, 0;
    }

    /** The general loop of `DecodeIntoRequest`. */
    method Loop(data: Bytes) returns (r: Result)
      requires dec.Valid()
      modifies dec, dec.table, dec.table.inline, dec.table.ring
      ensures dec.Valid() && (dec.table.ring == old(dec.table.ring) || fresh(dec.table.ring))
      ensures var g := FullDecode(old(dec.View()), data, allow);
              && r == ResultOf(g)
              && (!g.Fatal? ==>
                    && dec.View() == g.d && dec.refBytes == old(dec.refBytes) + Refs(old(dec.View()), data, [])
                    && dec.table.nameMax == NameMax(old(dec.View()), data, [], old(dec.table.nameMax)))
      ensures Marked(dec.tableGen, dec.memoValid, dec.View(), old(dec.tableGen), old(dec.memoValid), old(dec.View()))
    {
      hide OneStep, RefCost, Progress, General, Refs, NameMax, Decoder.Valid, Add, Observe, WellFormed;
      var headers: seq<Field> := [];
      var meta := NoMeta(allow);
      var pos := 0;
      ghost var from := From(dec.View(), data, meta, dec.refBytes, dec.table.nameMax);
      assert data[0..] == data;
      NoProgress(from);
      while pos < |data|
        invariant dec.Valid() && 0 <= pos <= |data| && (dec.table.ring == old(dec.table.ring) || fresh(dec.table.ring))
        invariant Progress(from, From(dec.View(), data[pos..], meta, dec.refBytes, dec.table.nameMax), headers)
        invariant Marked(dec.tableGen, dec.memoValid, dec.View(), old(dec.tableGen), old(dec.memoValid), from.d)
      {
        ghost var at := From(dec.View(), data[pos..], meta, dec.refBytes, dec.table.nameMax);
        ProgressStep(from, at, headers);
        var turn := dec.Turn(data[pos..], headers == []);
        if turn.Stopped? { return Broken(turn.error); }
        assert at.data[turn.n..] == data[pos + turn.n..];
        pos := pos + turn.n;
        if turn.Got? {
          EmitState(at.d, at.data, headers == []);
          var seen := Observe(meta, turn.f);
          if seen.None? { return Broken(BadHeader); }
          meta := seen.value;
          headers := headers + [turn.f];
          if |headers| > MAX_HEADERS { return Broken(TooManyHeaders); }
          if turn.keep { dec.AddEntry(turn.f); }
        }
      }
      assert data[pos..] == [];
      ProgressEnd(from, From(dec.View(), [], meta, dec.refBytes, dec.table.nameMax), headers);
      r := if WellFormed(meta) then Fit(headers, meta) else Unfit;
    }

    /** `decodeSimpleGetPathHTTPSRequest` */
    method Simple(data: Bytes) returns (ok: bool, r: Result)
      requires dec.Valid()
      modifies dec`cache, dec`cacheNext
      ensures dec.Valid() && (ok <==> IsFast(data))
      ensures ok ==> r == ResultOf(FastResult(dec.View(), FastPath(data)))
    {
      hide ReadString, Huffman.Good, HuffmanOf, Slot, Size, WellFormed, ValidPath, Sanitize, Query;
      ok, r := false, Unfit;
      if |data| < 4 || data[0] != 0x82 || data[1] != 0x04 || data[|data| - 1] != 0x87 { return; }
      var path, n := dec.DecodeString(data[2..]);
      if n == 0 || 2 + n + 1 != |data| { return; }
      ok := true;
      if !ValidPath(path) {
        r := Broken(BadHeader);
      } else if WellFormed(FastMeta(path)) {
        r := Fit(FastFields(path), FastMeta(path));
      }
    }

    /** `DecodeIntoRequest`, and the size test of `DecodeRequest` behind it. */
    method Decode(data: Bytes) returns (a: Answer)
      requires dec.Valid()
      modifies dec, dec.table, dec.table.inline, dec.table.ring
      ensures dec.Valid() && (dec.table.ring == old(dec.table.ring) || fresh(dec.table.ring))
      ensures a == AnswerFor(Decoding(old(dec.View()), data, allow), limit)
      ensures !a.Rejected? ==> Leaves(FullDecode(old(dec.View()), data, allow), dec.View())
      ensures Marked(dec.tableGen, dec.memoValid, dec.View(), old(dec.tableGen), old(dec.memoValid), old(dec.View()))
    {
      hide General, DecodeBlock, Refs, NameMax, Huffman.Good, HuffmanOf, Slot, Size, IsFast, FastResult, LargestStatic,
           ListSize, TooLarge;
      var refStart := dec.refBytes;
      Names(dec);
      var fast, r := Simple(data);
      if fast {
        FastLeaves(dec.View(), data, allow);
      } else {
        r := Loop(data);
        GeneralIsFull(old(dec.View()), data, [], NoMeta(allow));
      }
      match r {
        case Broken(error) => a := Rejected(error);
        case Unfit => a := MalformedRequest;
        case Fit(fields, meta) =>
          var large := TooLarge(|data|, fields, dec.table.nameMax, dec.refBytes - refStart, limit);
          if fast {
            FastExact(dec.View(), data, dec.table.nameMax, limit, fields, meta);
          } else {
            TestIsExact(old(dec.View()), data, old(dec.table.nameMax), limit);
          }
          a := if large then ListTooLarge else Served(fields, meta, IsRoot(meta));
      }
    }

    /** `DecodeRequest`: with the memo in front, the answer and the table are those
        of decoding the block. */
    method DecodeRequest(data: Bytes) returns (a: Answer)
      requires Valid()
      modifies this`memoBlock, this`memoHeaders, this`memoMeta, this`memoRoot, dec, dec.table, dec.table.inline,
               dec.table.ring
      ensures Valid() && (dec.table.ring == old(dec.table.ring) || fresh(dec.table.ring))
      ensures a == AnswerFor(Decoding(old(dec.View()), data, allow), limit)
      ensures !a.Rejected? ==> Leaves(FullDecode(old(dec.View()), data, allow), dec.View())
    {
      hide Decoding, FullDecode, AnswerFor, Huffman.Good, HuffmanOf, Slot, Size;
      if dec.memoValid && data == memoBlock {
        return Served(memoHeaders, memoMeta, memoRoot);
      }
      var gen := dec.tableGen;
      a := Decode(data);
      if a.Served? && dec.tableGen == gen && |data| <= MEMO_MAX_BLOCK {
        memoBlock, memoHeaders, memoMeta, memoRoot := data, a.fields, a.meta, a.isRoot;
        dec.memoValid := true;
      }
    }

    /** `epollH2DecodedHeaders`, from a new stream on. `fastRoot` is whether the root
        may be answered at once, and `slots` whether a request slot was free at each
        of the three places that ask for one. */
    method NewStream(block: Bytes, endStream: bool, fastRoot: bool, slots: (bool, bool, bool)) returns (a: Action)
      requires Valid()
      modifies this`memoBlock, this`memoHeaders, this`memoMeta, this`memoRoot, dec, dec.table, dec.table.inline,
               dec.table.ring
      ensures Valid() && (dec.table.ring == old(dec.table.ring) || fresh(dec.table.ring))
      ensures !a.GoAway? ==> Leaves(FullDecode(old(dec.View()), block, allow), dec.View())
      ensures Right(a, FullDecode(old(dec.View()), block, allow), limit)
    {
      hide General, Decoding, FullDecode, AnswerFor, Huffman.Good, HuffmanOf, Slot, Size, Right, RootBlock, IsRoot;
      if endStream && fastRoot {
        var root := MatchRoot(block);
        if root && slots.0 {
          RootIsRight(dec.View(), block, allow, limit);
          return RootAnswer;
        }
        if dec.memoValid && memoRoot && block == memoBlock && slots.1 {
          AnswersAgree(dec.View(), block, allow, limit);
          return RootAnswer;
        }
      }
      AnswersAgree(dec.View(), block, allow, limit);
      var answer := DecodeRequest(block);
      match answer {
        case Rejected(_) => a := GoAway;
        case MalformedRequest => a := ResetStream;
        case ListTooLarge => a := TooLargeAnswer;
        case Served(fields, meta, isRoot) =>
          if endStream && fastRoot && isRoot && slots.2 {
            a := RootAnswer;
          } else {
            a := Route(fields, meta);
          }
      }
    }

    /** `DecodeInto` on the decoder that has the memo: whatever the block did to the
        table, the memo still answers as decoding does. */
    method DecodeFields(block: Bytes) returns (r: Outcome)
      requires Valid()
      modifies dec, dec.table, dec.table.inline, dec.table.ring
      ensures Valid() && (dec.table.ring == old(dec.table.ring) || fresh(dec.table.ring))
      ensures var full := DecodeBlock(old(dec.View()), block, []);
              if full.Failed? then r == Refused(full.error) else r == Headers(full.fields) && dec.View() == full.d
    {
      hide Decoding, FullDecode, AnswerFor, DecodeBlock, Refs, NameMax, Huffman.Good, HuffmanOf, Slot, Size;
      r := dec.DecodeInto(block);
    }

    /** `epollH2Trailers` */
    method Trailers(x: Arrival) returns (a: Reply)
      requires Valid()
      modifies dec, dec.table, dec.table.inline, dec.table.ring
      ensures Valid() && (dec.table.ring == old(dec.table.ring) || fresh(dec.table.ring))
      ensures var full := DecodeBlock(old(dec.View()), x.block, []);
              && a == TrailerReply(full, x, limit) && (full.Fields? ==> dec.View() == full.d)
    {
      hide Valid, DecodeBlock, ListSize, TrailerField;
      var r := DecodeFields(x.block);
      if r.Refused? { return GoneAway; }
      var size := FieldListSize(r.fields);
      if size > limit { return BodyRejected; }
      var ok, trailers := TrailerFields(r.fields);
      if x.halfClosed { return StreamClosed; }
      if !x.endStream || !ok || x.mismatch { return BodyRejected; }
      return Taken(trailers);
    }

    /** `epollH2DecodedHeaders`: any header block, on any stream. */
    method Arrive(x: Arrival) returns (a: Reply)
      requires Valid()
      modifies this, dec, dec.table, dec.table.inline, dec.table.ring
      ensures Valid() && (dec.table.ring == old(dec.table.ring) || fresh(dec.table.ring))
      ensures highest == HighestAfter(old(highest), x)
      ensures TableAfter(old(dec.View()), old(highest), x, allow) == if a.GoneAway? then None else Some(dec.View())
      ensures Fitting(a, old(dec.View()), old(highest), x, allow, limit)
    {
      hide Valid, DecodeBlock, FullDecode, ListSize, TrailerField, Leaves, Right;
      ghost var d := dec.View();
      if x.id % 2 == 1 && x.id <= highest {
        if x.receiving {
          a := Trailers(x);
          return;
        }
        if x.endStream && !x.awaiting {
          var r := DecodeFields(x.block);
          return if r.Refused? then GoneAway else Discarded;
        }
      }
      if x.id % 2 == 0 || x.id <= highest { return GoneAway; }
      highest := x.id;
      if x.goingAway {
        a := Refuse(x.block);
        return;
      }
      var action := NewStream(x.block, x.endStream, x.fastRoot, x.slots);
      ActionLeaves(action, FullDecode(d, x.block, allow), dec.View(), limit);
      a := if action.GoAway? then GoneAway else Opened(action);
    }

    /** `refuseH2StreamGoingAway` */
    method Refuse(block: Bytes) returns (a: Reply)
      requires Valid()
      modifies this`memoBlock, this`memoHeaders, this`memoMeta, this`memoRoot, dec, dec.table, dec.table.inline,
               dec.table.ring
      ensures Valid() && (dec.table.ring == old(dec.table.ring) || fresh(dec.table.ring))
      ensures var full := FullDecode(old(dec.View()), block, allow);
              a == (if full.Fatal? then GoneAway else RefusedStream) && (!full.Fatal? ==> dec.View() == full.d)
    {
      hide General, Decoding, FullDecode, AnswerFor, Huffman.Good, HuffmanOf, Slot, Size, IsRoot, Valid, ListSize,
           Regular;
      AnswersAgree(dec.View(), block, allow, limit);
      var answer := DecodeRequest(block);
      a := if answer.Rejected? then GoneAway else RefusedStream;
    }
  }

  /** What becomes of a new stream's header block. */
  datatype Action = GoAway | ResetStream | TooLargeAnswer | RootAnswer | Route(fields: seq<Field>, meta: Meta)

  /** The action is one a full decode of the block calls for. */
  predicate Right(a: Action, full: Request, limit: nat) {
    match a
    case GoAway => full.Fatal?
    case ResetStream => full.Malformed?
    case TooLargeAnswer => full.Accepted? && ListSize(full.fields) > limit
    case RootAnswer => full.Accepted? && IsRoot(full.meta)
    case Route(fields, meta) =>
      full.Accepted? && SameRequest(full.meta, meta) && Regular(full.fields) == Regular(fields)
  }

  lemma RootIsRight(d: Dec, block: Bytes, allow: bool, limit: nat)
    requires RootBlock(block)
    ensures Leaves(FullDecode(d, block, allow), d) && Right(RootAnswer, FullDecode(d, block, allow), limit)
  {
    hide General, Regular, RootBlock;
    RootReads(d, block, allow);
  }

  /** Whatever the shortcut answers, a full decode bears out. */
  lemma AnswersAgree(d: Dec, block: Bytes, allow: bool, limit: nat)
    ensures var a, full := AnswerFor(Decoding(d, block, allow), limit), FullDecode(d, block, allow);
            match a
            case Rejected(_) => Right(GoAway, full, limit)
            case MalformedRequest => Right(ResetStream, full, limit)
            case ListTooLarge => Right(TooLargeAnswer, full, limit)
            case Served(fields, meta, isRoot) =>
              Right(Route(fields, meta), full, limit) && (isRoot ==> Right(RootAnswer, full, limit))
  {
    hide General, IsFast, FastResult, Regular, ListSize;
    if IsFast(block) {
      FastAgrees(d, block, allow);
      FastSmaller(d, block, allow);
    }
  }

  /** The list of the shortcut is no larger than that of a full decode. */
  lemma FastSmaller(d: Dec, data: Bytes, allow: bool)
    requires IsFast(data)
    ensures var a, b := FastResult(d, FastPath(data)), FullDecode(d, data, allow);
            a.Accepted? && b.Accepted? ==> ListSize(a.fields) <= ListSize(b.fields)
  {
    hide General, IsFast, Sanitize, Query, ListSize, ValidPath;
    GeneralFast(d, data, allow);
    FastWellFormed(FastPath(data));
    FastSizes(FastPath(data));
    SanitizedNoLonger(FastPath(data));
    hide Static;
  }

  // ----- Where the shortcut and the plain decoder part

  predicate SameAnswer(a: Answer, b: Answer) {
    match a
    case Rejected(_) => a == b
    case MalformedRequest => a == b
    case ListTooLarge => a == b
    case Served(fields, meta, isRoot) =>
      b.Served? && SameRequest(meta, b.meta) && isRoot == b.isRoot && Regular(fields) == Regular(b.fields)
  }

  /** The path as it came makes the list too large, the sanitized one does not. */
  predicate QueryTips(path: Bytes, limit: nat) {
    ValidPath(path) && path != [] && path[0] == SLASH && 123 + |Sanitize(path)| <= limit < 123 + |path|
  }

  lemma {:induction false} SomePath(p: Bytes)
    ensures Sanitize(p) != []
  {
    hide Until, Untidy, Segments;
  }

  lemma FastWellFormed(path: Bytes)
    ensures WellFormed(FastMeta(path)) <==> path != [] && path[0] == SLASH
  {
    SomePath(path);
    PseudoValid();
    hide Sanitize, Query;
    assert |Ascii("GET")| != |Ascii("OPTIONS")|;
  }

  /** The shortcut counts the sanitized path, the general loop the path as it came.
      So the two answer the same if and only if the query does not tip the scale. */
  lemma ShortcutExact(d: Dec, data: Bytes, allow: bool, limit: nat)
    requires IsFast(data)
    ensures SameAnswer(AnswerFor(FullDecode(d, data, allow), limit), AnswerFor(Decoding(d, data, allow), limit))
            <==> !QueryTips(FastPath(data), limit)
  {
    hide General, IsFast, Regular, Sanitize, Query, ListSize, ValidPath;
    var path := FastPath(data);
    GeneralFast(d, data, allow);
    FastAgrees(d, data, allow);
    FastWellFormed(path);
    FastSizes(path);
    SanitizedNoLonger(path);
    hide Static;
  }

  lemma SanitizedNoLonger(path: Bytes)
    ensures path != [] && path[0] == SLASH ==> |Sanitize(path)| <= |path|
  {
    hide Sanitize;
    if path != [] && path[0] == SLASH { SanitizeShorter(path); }
  }

  /** A path of `n` bytes that are nearly all query. */
  function QueryPath(n: nat): Bytes
    requires n >= 2
  {
    [SLASH, 63] + seq(n - 2, i => 97)
  }

  function QueryBlock(limit: nat): Bytes
    requires limit >= 124
  {
    [0x82, 0x04] + RawString(QueryPath(limit - 122)) + [0x87]
  }

  /** Such a block, whatever the limit is: the root path with a query that the
      shortcut does not count. */
  lemma QueryTipsTheScale(d: Dec, allow: bool, limit: nat)
    requires 124 <= limit < WIDE
    ensures AnswerFor(Decoding(d, QueryBlock(limit), allow), limit).Served?
    ensures AnswerFor(FullDecode(d, QueryBlock(limit), allow), limit).ListTooLarge?
  {
    hide General, Regular, ListSize, Static, IsFast, Sanitize, Query, ValidPath, WellFormed, QueryPath, QueryBlock;
    var path, data := QueryPath(limit - 122), QueryBlock(limit);
    FastQuery(limit);
    CutQuery(limit - 122);
    FastWellFormed(path);
    GeneralFast(d, data, allow);
    FastSizes(path);
    FastAgrees(d, data, allow);
  }

  /** `h2HeaderListLimitFor` */
  function ListLimitFor(maxHeaderSize: nat): nat {
    var allowance := OVERHEAD * MAX_HEADERS;
    (if maxHeaderSize < 0xFFFF_FFFF - allowance then maxHeaderSize else 0xFFFF_FFFF - allowance) + allowance
  }

  /** So every server has one, however it is configured. */
  lemma EveryLimitTips(d: Dec, allow: bool, maxHeaderSize: nat)
    ensures var limit := ListLimitFor(maxHeaderSize);
            && limit >= 124
            && AnswerFor(Decoding(d, QueryBlock(limit), allow), limit).Served?
            && AnswerFor(FullDecode(d, QueryBlock(limit), allow), limit).ListTooLarge?
  {
    hide Decoding, FullDecode, AnswerFor, QueryBlock;
    QueryTipsTheScale(d, allow, ListLimitFor(maxHeaderSize));
  }

  lemma FastQuery(limit: nat)
    requires 124 <= limit < WIDE
    ensures var data, path := QueryBlock(limit), QueryPath(limit - 122);
            && IsFast(data) && FastPath(data) == path && ValidPath(path) && path[0] == SLASH && |path| == limit - 122
  {
    hide ReadString, RawString;
    var data, path := QueryBlock(limit), QueryPath(limit - 122);
    RawReads(path, [0x87]);
    RawSome(path);
    assert data[2..] == RawString(path) + [0x87];
  }

  lemma RawSome(s: Bytes)
    ensures RawString(s) != []
  {
    hide IntBytes;
  }

  lemma CutQuery(n: nat)
    requires n >= 2
    ensures Sanitize(QueryPath(n)) == [SLASH]
  {
    var p := QueryPath(n);
    IndexAbsent(p, 0);
    IndexAbsent(p, CR);
    IndexAbsent(p, LF);
    assert p[..1] == [SLASH];
    IndexIs(p, 63, 1);
  }

  lemma Names(dec: Decoder)
    requires dec.Valid()
    ensures NamesWithin(dec.View().table, dec.table.nameMax)
  {
    hide Huffman.Good, HuffmanOf, Slot, Size;
  }

  lemma FastLeaves(d: Dec, data: Bytes, allow: bool)
    requires IsFast(data)
    ensures !FastResult(d, FastPath(data)).Fatal? ==> Leaves(FullDecode(d, data, allow), d)
  {
    hide General, IsFast, ValidPath, WellFormed, Sanitize, Query;
    FastAgrees(d, data, allow);
  }

  lemma FastExact(d: Dec, data: Bytes, longest: nat, limit: nat, fields: seq<Field>, meta: Meta)
    requires IsFast(data) && NamesWithin(d.table, longest)
             && ResultOf(FastResult(d, FastPath(data))) == Fit(fields, meta)
    ensures TooLarge(|data|, fields, longest, 0, limit) <==> ListSize(fields) > limit
  {
    hide TooLarge, ListSize, IsFast, Sanitize, Query;
    FastBound(d, data, longest, limit, 0);
  }

  /** The connection goes on, with this table. */
  predicate Leaves(r: Request, d: Dec) {
    !r.Fatal? && r.d == d
  }

  /** A place in a block: the table, what is left, the request so far, the bytes
      referenced and the longest name. */
  datatype From = From(d: Dec, data: Bytes, meta: Meta, refs: nat, longest: nat)

  /** Going on from `at` with `fields` comes to what starting at `from` does. */
  ghost predicate Progress(from: From, at: From, fields: seq<Field>) {
    && General(at.d, at.data, fields, at.meta) == General(from.d, from.data, [], from.meta)
    && at.refs + Refs(at.d, at.data, fields) == from.refs + Refs(from.d, from.data, [])
    && NameMax(at.d, at.data, fields, at.longest) == NameMax(from.d, from.data, [], from.longest)
  }

  lemma NoProgress(from: From)
    ensures Progress(from, from, [])
  {
  }

  /** One step on. */
  lemma ProgressStep(from: From, at: From, fields: seq<Field>)
    requires Progress(from, at, fields) && at.data != []
    ensures var s, g := OneStep(at.d, at.data, fields == []), General(from.d, from.data, [], from.meta);
            var refs := at.refs + RefCost(at.d, at.data);
            match s
            case Wrong(error) => g == Fatal(error)
            case Resize(n, d') => Progress(from, From(d', at.data[n..], at.meta, refs, at.longest), fields)
            case Emit(f, n, d') =>
              var seen := Observe(at.meta, f);
              var longest := if AddsEntry(at.data) then Max(at.longest, |f.name|) else at.longest;
              if seen.None? then g == Fatal(BadHeader)
              else if |fields| + 1 > MAX_HEADERS then g == Fatal(TooManyHeaders)
              else Progress(from, From(d', at.data[n..], seen.value, refs, longest), fields + [f])
  {
    hide OneStep, RefCost, General, Refs, NameMax, Observe, WellFormed, DecodeBlock;
    RunStep(at.d, at.data, fields, at.longest);
    LoopStep(at.d, at.data, fields, at.meta);
  }

  lemma ProgressEnd(from: From, at: From, fields: seq<Field>)
    requires Progress(from, at, fields) && at.data == []
    ensures General(from.d, from.data, [], from.meta)
            == if WellFormed(at.meta) then Accepted(fields, at.meta, at.d) else Malformed(fields, at.meta, at.d)
    ensures at.refs == from.refs + Refs(from.d, from.data, [])
    ensures at.longest == NameMax(from.d, from.data, [], from.longest)
  {
    hide OneStep, RefCost, General, Refs, NameMax, WellFormed, DecodeBlock;
    RunEnd(at.d, fields, at.longest);
    Finish(at.d, fields, at.meta);
  }

  /** A request, one step on. */
  lemma LoopStep(d: Dec, data: Bytes, fields: seq<Field>, meta: Meta)
    requires data != []
    ensures var s, g := OneStep(d, data, fields == []), General(d, data, fields, meta);
            match s
            case Wrong(error) => g == Fatal(error)
            case Resize(n, d') => g == General(d', data[n..], fields, meta)
            case Emit(f, n, d') =>
              if Observe(meta, f).None? then g == Fatal(BadHeader)
              else if |fields| + 1 > MAX_HEADERS then g == Fatal(TooManyHeaders)
              else g == General(d', data[n..], fields + [f], Observe(meta, f).value)
  {
    hide OneStep, Observe, WellFormed;
  }

  // ----- Any header block

  /** A header block as it arrives. `receiving` is whether the stream's body is
      still coming in, `awaiting` whether its response is still to be sent,
      `halfClosed` and `mismatch` what the stream says of its body. */
  datatype Arrival = Arrival(id: nat, block: Bytes, endStream: bool, receiving: bool, awaiting: bool, halfClosed: bool,
                             mismatch: bool, goingAway: bool, fastRoot: bool, slots: (bool, bool, bool))

  /** What becomes of a header block. */
  datatype Reply =
    | GoneAway
    | Opened(action: Action)
    | RefusedStream
    | Taken(trailers: seq<Field>)
    | BodyRejected
    | StreamClosed
    | Discarded

  /** Where a block belongs: to a stream that is there or was, or to a new one. */
  datatype Home = Body | Closed | Fresh | Nowhere

  predicate Old(x: Arrival, highest: nat) {
    x.id % 2 == 1 && x.id <= highest
  }

  function HomeOf(x: Arrival, highest: nat): Home {
    if Old(x, highest) then
      if x.receiving then Body else if x.endStream && !x.awaiting then Closed else Nowhere
    else if x.id % 2 == 1 then Fresh
    else Nowhere
  }

  function HighestAfter(highest: nat, x: Arrival): nat {
    if HomeOf(x, highest).Fresh? then x.id else highest
  }

  /** A field trailers may have (`h2TrailerFields`). */
  predicate TrailerField(f: Field) {
    ValidName(f.name) && f.name[0] != 58 && ValidValue(f.value) && !ConnectionField(f)
  }

  /** `trailerFieldForbidden` */
  predicate Forbidden(name: Bytes) {
    var n := LowerAll(name);
    || n == Ascii("host") || n == Ascii("trailer") || n == Ascii("connection") || n == Ascii("content-length")
    || n == Ascii("transfer-encoding")
  }

  /** The trailers handed on: those not forbidden, in order. */
  function HandedOn(fields: seq<Field>): seq<Field> {
    if fields == [] then []
    else
      var last := fields[|fields| - 1];
      HandedOn(fields[..|fields| - 1]) + if Forbidden(last.name) then [] else [last]
  }

  /** `h2TrailerFields` */
  method TrailerFields(fields: seq<Field>) returns (ok: bool, trailers: seq<Field>)
    ensures ok <==> forall i :: 0 <= i < |fields| ==> TrailerField(fields[i])
    ensures ok ==> trailers == HandedOn(fields)
  {
    hide TrailerField, Forbidden;
    trailers := [];
    for i := 0 to |fields|
      invariant forall j :: 0 <= j < i ==> TrailerField(fields[j])
      invariant trailers == HandedOn(fields[..i])
    {
      var f := fields[i];
      if !TrailerField(f) { return false, []; }
      assert fields[..i + 1][..i] == fields[..i];
      if !Forbidden(f.name) { trailers := trailers + [f]; }
    }
    assert fields[..|fields|] == fields;
    ok := true;
  }

  /** `h2FieldListSize` */
  method FieldListSize(fields: seq<Field>) returns (n: nat)
    ensures n == ListSize(fields)
  {
    n := 0;
    for i := 0 to |fields|
      invariant n == ListSize(fields[..i])
    {
      assert fields[..i + 1][..i] == fields[..i];
      n := n + |fields[i].name| + |fields[i].value| + OVERHEAD;
    }
    assert fields[..|fields|] == fields;
  }

  /** What trailers come to, by a full decode of their block. */
  function TrailerReply(full: Decoded, x: Arrival, limit: nat): Reply {
    if full.Failed? then GoneAway
    else if ListSize(full.fields) > limit then BodyRejected
    else if x.halfClosed then StreamClosed
    else if x.endStream && !x.mismatch && forall i :: 0 <= i < |full.fields| ==> TrailerField(full.fields[i])
    then Taken(HandedOn(full.fields))
    else BodyRejected
  }

  /** The table after a full decode of the block; nothing if the connection ends. */
  ghost function TableAfter(d: Dec, highest: nat, x: Arrival, allow: bool): Option<Dec> {
    match HomeOf(x, highest)
    case Nowhere => None
    case Fresh =>
      var full := FullDecode(d, x.block, allow);
      if full.Fatal? then None else Some(full.d)
    case _ =>
      var full := DecodeBlock(d, x.block, []);
      if full.Failed? then None else Some(full.d)
  }

  /** The reply is the one a full decode calls for. */
  ghost predicate Fitting(a: Reply, d: Dec, highest: nat, x: Arrival, allow: bool, limit: nat) {
    match HomeOf(x, highest)
    case Nowhere => a.GoneAway?
    case Body => a == TrailerReply(DecodeBlock(d, x.block, []), x, limit)
    case Closed => a == if DecodeBlock(d, x.block, []).Failed? then GoneAway else Discarded
    case Fresh =>
      var full := FullDecode(d, x.block, allow);
      if full.Fatal? then a.GoneAway?
      else if x.goingAway then a.RefusedStream?
      else a.Opened? && Right(a.action, full, limit)
  }

  /** An action and the table a full decode leaves. */
  lemma ActionLeaves(a: Action, full: Request, d: Dec, limit: nat)
    requires Right(a, full, limit) && (!a.GoAway? ==> Leaves(full, d))
    ensures a.GoAway? <==> full.Fatal?
    ensures !full.Fatal? ==> full.d == d
  {
  }

  // ----- Whole connections

  /** The table after full decodes of all the blocks. */
  ghost function FullTable(d: Dec, highest: nat, blocks: seq<Arrival>, allow: bool): Option<Dec>
    decreases blocks
  {
    if blocks == [] then Some(d)
    else
      match TableAfter(d, highest, blocks[0], allow)
      case None => None
      case Some(next) => FullTable(next, HighestAfter(highest, blocks[0]), blocks[1..], allow)
  }

  /** The same with nothing but `DecodeInto`. */
  ghost function PlainTable(d: Dec, blocks: seq<Arrival>): Option<Dec>
    decreases blocks
  {
    if blocks == [] then Some(d)
    else
      var full := DecodeBlock(d, blocks[0].block, []);
      if full.Failed? then None else PlainTable(full.d, blocks[1..])
  }

  lemma {:induction false} FullIsPlain(d: Dec, highest: nat, blocks: seq<Arrival>, allow: bool)
    ensures FullTable(d, highest, blocks, allow).Some? ==> FullTable(d, highest, blocks, allow) == PlainTable(d, blocks)
    decreases blocks
  {
    hide General, DecodeBlock, HomeOf;
    if blocks != [] {
      GeneralIsFull(d, blocks[0].block, [], NoMeta(allow));
      var next := TableAfter(d, highest, blocks[0], allow);
      if next.Some? { FullIsPlain(next.value, HighestAfter(highest, blocks[0]), blocks[1..], allow); }
    }
  }

  ghost function HighestIn(highest: nat, blocks: seq<Arrival>): nat {
    if blocks == [] then highest else HighestAfter(HighestIn(highest, blocks[..|blocks| - 1]), blocks[|blocks| - 1])
  }

  /** For any run of header blocks, requests, trailers and blocks nobody waits for,
      whichever shortcuts they take, the table is that of full decodes as long as
      the connection goes on. */
  method ServeAll(r: Requests, arrivals: seq<Arrival>) returns (n: nat)
    requires r.Valid()
    modifies r, r.dec, r.dec.table, r.dec.table.inline, r.dec.table.ring
    ensures n <= |arrivals|
    ensures n == |arrivals| ==> r.Valid() && PlainTable(old(r.dec.View()), arrivals) == Some(r.dec.View())
    ensures n < |arrivals| ==> FullTable(old(r.dec.View()), old(r.highest), arrivals[..n + 1], r.allow) == None
    ensures FullTable(old(r.dec.View()), old(r.highest), arrivals[..n], r.allow).Some?
  {
    hide TableAfter, Fitting, HighestAfter, Requests.Valid;
    n := 0;
    ghost var d, top := r.dec.View(), r.highest;
    TableSoFar(d, top, arrivals, 0, r.allow);
    while n < |arrivals|
      invariant 0 <= n <= |arrivals| && r.Valid()
                && (r.dec.table.ring == old(r.dec.table.ring) || fresh(r.dec.table.ring))
      invariant FullTable(d, top, arrivals[..n], r.allow) == Some(r.dec.View())
                && r.highest == HighestIn(top, arrivals[..n])
    {
      TableSoFar(d, top, arrivals, n, r.allow);
      var a := r.Arrive(arrivals[n]);
      if a.GoneAway? { return; }
      n := n + 1;
    }
    assert arrivals[..n] == arrivals;
    FullIsPlain(d, top, arrivals, r.allow);
  }

  /** The table after one block more. */
  lemma {:induction false} TableSoFar(d: Dec, highest: nat, arrivals: seq<Arrival>, n: nat, allow: bool)
    requires n <= |arrivals|
    ensures n == 0 ==>
              FullTable(d, highest, arrivals[..0], allow) == Some(d) && HighestIn(highest, arrivals[..0]) == highest
    ensures var t, top := FullTable(d, highest, arrivals[..n], allow), HighestIn(highest, arrivals[..n]);
            n < |arrivals| ==>
              && HighestIn(highest, arrivals[..n + 1]) == HighestAfter(top, arrivals[n])
              && (t.Some? ==>
                  FullTable(d, highest, arrivals[..n + 1], allow) == TableAfter(t.value, top, arrivals[n], allow))
    decreases n
  {
    hide TableAfter, HighestAfter;
    if n < |arrivals| {
      assert arrivals[..n + 1][..n] == arrivals[..n];
      if n == 0 {
        assert arrivals[..1][1..] == [];
      } else {
        var next := TableAfter(d, highest, arrivals[0], allow);
        assert arrivals[..n][1..] == arrivals[1..][..n - 1] && arrivals[..n + 1][1..] == arrivals[1..][..n];
        HighestCons(highest, arrivals[..n]);
        if next.Some? { TableSoFar(next.value, HighestAfter(highest, arrivals[0]), arrivals[1..], n - 1, allow); }
      }
    }
  }

  lemma {:induction false} HighestCons(highest: nat, blocks: seq<Arrival>)
    requires blocks != []
    ensures HighestIn(highest, blocks) == HighestIn(HighestAfter(highest, blocks[0]), blocks[1..])
  {
    hide HighestAfter;
    if |blocks| > 1 {
      HighestCons(highest, blocks[..|blocks| - 1]);
      assert blocks[..|blocks| - 1][1..] == blocks[1..][..|blocks| - 2];
    }
  }
}
