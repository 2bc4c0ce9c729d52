/** Streaming responses of core/epoll_h2_stream_linux_amd64.go as bytes: what a
    handler writes goes out in DATA frames behind its HEADERS, as windows and room
    allow, and END_STREAM when it has ended and everything is out. */
module H2StreamSend {
  import opened ByteStrings
  import opened H2Frames
  import opened H2Send
  import H2Fragment

  const RST_STREAM: Byte := 3

  // ----- Frames of one stream

  /** A DATA or HEADERS frame of the stream. */
  predicate On(x: Item, sid: nat) {
    if x.Data? then x.sid == sid else x.on == sid && (x.typ == HEADERS || x.typ == DATA)
  }

  predicate EndsIt(x: Item, sid: nat) {
    On(x, sid) && if x.Data? then x.end else x.flags % 2 == 1
  }

  /** END_STREAM has been sent. */
  predicate Ended(xs: seq<Item>, sid: nat) {
    exists i :: 0 <= i < |xs| && EndsIt(xs[i], sid)
  }

  /** Nothing of the stream comes behind END_STREAM. */
  predicate EndIsLast(xs: seq<Item>, sid: nat) {
    forall i, j :: 0 <= i < j < |xs| && EndsIt(xs[i], sid) ==> !On(xs[j], sid)
  }

  /** What a list of frames says of a stream. */
  datatype Story = Story(data: Bytes, heads: nat, ended: bool, last: bool)

  ghost function StoryOf(xs: seq<Item>, sid: nat): Story {
    Story(DataOf(xs, sid), |HeadsOf(xs, sid)|, Ended(xs, sid), EndIsLast(xs, sid))
  }

  lemma EndSnoc(xs: seq<Item>, x: Item, sid: nat)
    ensures Ended(xs + [x], sid) <==> Ended(xs, sid) || EndsIt(x, sid)
    ensures EndIsLast(xs + [x], sid) <==> EndIsLast(xs, sid) && (On(x, sid) ==> !Ended(xs, sid))
  {
    hide EndsIt, On;
    var all := xs + [x];
    assert forall i :: 0 <= i < |xs| ==> all[i] == xs[i];
    assert all[|xs|] == x;
  }

  lemma StorySnoc(xs: seq<Item>, x: Item, sid: nat)
    ensures var s := StoryOf(xs, sid);
            StoryOf(xs + [x], sid)
            == Story(s.data + DataIn(x, sid),
                     s.heads + (if x.Other? && x.typ == HEADERS && x.on == sid then 1 else 0),
                     s.ended || EndsIt(x, sid), s.last && (On(x, sid) ==> !s.ended))
  {
    hide Ended, EndIsLast, EndsIt, On;
    EndSnoc(xs, x, sid);
    assert (xs + [x])[..|xs|] == xs;
  }

  /** Frames of other streams, or of no matter, change nothing. */
  lemma {:induction false} StoryStays(xs: seq<Item>, ys: seq<Item>, sid: nat)
    requires forall i :: 0 <= i < |ys| ==> !On(ys[i], sid)
    ensures StoryOf(xs + ys, sid) == StoryOf(xs, sid)
    decreases |ys|
  {
    hide StoryOf;
    if ys == [] {
      assert xs + ys == xs;
    } else {
      var n := |ys| - 1;
      StoryStays(xs, ys[..n], sid);
      StorySnoc(xs + ys[..n], ys[n], sid);
      assert xs + ys == (xs + ys[..n]) + [ys[n]];
      assert !On(ys[n], sid);
      NotOn(StoryOf(xs, sid).data, ys[n], sid);
    }
  }

  lemma NotOn(data: Bytes, x: Item, sid: nat)
    requires !On(x, sid)
    ensures data + DataIn(x, sid) == data && !EndsIt(x, sid) && !(x.Other? && x.typ == HEADERS && x.on == sid)
  {
  }

  /** A HEADERS frame and what continues it. */
  lemma StoryHead(xs: seq<Item>, ys: seq<Item>, sid: nat)
    requires ys != [] && ys[0].Other? && ys[0].typ == HEADERS && ys[0].on == sid
    requires forall i :: 0 < i < |ys| ==> Beside(ys[i])
    ensures var s, end := StoryOf(xs, sid), ys[0].flags % 2 == 1;
            StoryOf(xs + ys, sid) == Story(s.data, s.heads + 1, s.ended || end, s.last && !s.ended)
  {
    hide StoryOf;
    StorySnoc(xs, ys[0], sid);
    assert StoryOf(xs, sid).data + [] == StoryOf(xs, sid).data;
    assert xs + ys == (xs + [ys[0]]) + ys[1..];
    StoryStays(xs + [ys[0]], ys[1..], sid);
  }

  // ----- A writer

  /** A streaming writer: `pending` is what is buffered, `written` all that the
      handler wrote. */
  class Writer {
    const sid: nat
    const block: Bytes
    var pending: Bytes
    var window: int
    var ended: bool
    var failed: bool
    var sendRST: bool
    var headersOut: bool
    var finished: bool
    ghost var written: Bytes

    constructor (sid: nat, block: Bytes, window: int)
      requires 0 < sid < 0x8000_0000
      ensures this.sid == sid && this.window == window && written == [] && !ended && !failed && Sent([])
    {
      this.sid, this.block, this.window := sid, block, window;
      pending, written := [], [];
      ended, failed, sendRST, headersOut, finished := false, false, false, false, false;
    }

    /** What went out and what is buffered are what was written, behind one HEADERS.
        If END_STREAM went out, everything else did before it and the handler has
        ended; a writer that is finished and did not fail has sent it. */
    ghost predicate Sent(items: seq<Item>)
      reads this
    {
      var s := StoryOf(items, sid);
      && 0 < sid < 0x8000_0000 && s.data + pending == written && s.last
      && s.heads == (if headersOut then 1 else 0) && (!headersOut ==> s.data == [])
      && (s.ended ==> finished && ended && pending == [] && headersOut) && (finished && !failed ==> s.ended)
    }

    /** So a writer that is finished and did not fail has sent everything. */
    lemma AllOut(items: seq<Item>)
      requires Sent(items) && finished && !failed
      ensures ended && pending == [] && DataOf(items, sid) == written && Ended(items, sid) && EndIsLast(items, sid)
    {
      assert DataOf(items, sid) + [] == DataOf(items, sid);
      hide DataOf, Ended, EndIsLast;
    }

    /** One turn of `WriteChunk`, once there is room. */
    method WriteChunk(data: Bytes, ghost items: seq<Item>) returns (ok: bool)
      requires Sent(items)
      modifies this`pending, this`written
      ensures Sent(items) && (ok <==> !ended && !failed)
      ensures written == if ok then old(written) + data else old(written)
    {
      hide StoryOf;
      ok := !ended && !failed;
      if ok {
        assert StoryOf(items, sid).data + (pending + data) == written + data;
        pending := pending + data;
        written := written + data;
      }
    }

    /** `Close` */
    method Close(ghost items: seq<Item>)
      requires Sent(items)
      modifies this`ended
      ensures Sent(items) && ended
    {
      ended := true;
    }

    /** `h2CreditWindow` */
    method Credit(n: nat, ghost items: seq<Item>)
      requires Sent(items)
      modifies this`window
      ensures Sent(items) && window == old(window) + n
    {
      window := window + n;
    }

    /** `fail`, or the wait for room that took too long, which leaves it to the next
        pump to reset the stream. */
    method Fail(stalled: bool, ghost items: seq<Item>)
      requires Sent(items)
      modifies this`failed, this`finished, this`sendRST
      ensures Sent(items) && failed && (finished <==> old(finished) || !stalled)
    {
      failed := true;
      if stalled { sendRST := true; } else { finished := true; }
    }
  }

  /** A frame of a stream is appended. */
  method Emit(c: Conn, x: Item, ghost sid: nat)
    requires c.Valid() && Encodable(x) && (if x.Data? then x.sid == sid else x.on == sid)
    modifies c
    ensures c.Valid() && c.items == old(c.items) + [x] && Adds(old(c.items), c.items, sid)
    ensures c.wire == old(c.wire) && c.connWindow == old(c.connWindow) && c.writeSent == old(c.writeSent)
    ensures |c.writeBuf| >= |old(c.writeBuf)|
  {
    hide Encode, EncodeAll, Encodable;
    OneItem(x);
    c.Append(Encode(x), [x]);
  }

  /** The HEADERS of a writer, with END_STREAM if there is nothing to follow. */
  method PumpHead(c: Conn, w: Writer, max: nat) returns (end: bool)
    requires c.Valid() && w.Sent(c.items) && !w.headersOut && !w.finished && !w.failed && 0 < max < 0x100_0000
    modifies c, w`headersOut, w`finished
    ensures c.Valid() && w.Sent(c.items) && w.headersOut && Adds(old(c.items), c.items, w.sid)
    ensures end == (w.ended && w.pending == []) == w.finished
    ensures c.wire == old(c.wire) && c.connWindow == old(c.connWindow) && |c.writeBuf| >= |old(c.writeBuf)|
  {
    hide HeadItems, H2Fragment.Split, EncodeAll, StoryOf;
    end := w.ended && w.pending == [];
    ghost var xs := HeadItems(w.block, w.sid, max, end);
    HeadEncodes(w.block, w.sid, max, end);
    StoryHead(c.items, xs, w.sid);
    AddsAll(c.items, xs, w.sid);
    c.Append(H2Fragment.Split(w.block, w.sid, max, end), xs);
    w.headersOut := true;
    w.finished := end;
  }

  /** One DATA frame of a writer. */
  method PumpChunk(c: Conn, w: Writer, n: nat)
    requires c.Valid() && w.Sent(c.items) && w.headersOut && !w.finished && !w.failed
    requires 0 < n < 0x100_0000 && n <= |w.pending|
    modifies c, w`pending, w`finished, w`window
    ensures c.Valid() && w.Sent(c.items) && Adds(old(c.items), c.items, w.sid) && c.wire == old(c.wire)
    ensures Took(old(w.pending), w.pending, n) && |w.pending| == |old(w.pending)| - n
    ensures w.window == old(w.window) - n && c.connWindow == old(c.connWindow) - n
    ensures w.finished <==> w.ended && w.pending == []
  {
    hide StoryOf, Conn.Valid, Adds;
    var end := w.ended && n == |w.pending|;
    var x := Data(w.sid, end, w.pending[..n]);
    StorySnoc(c.items, x, w.sid);
    ghost var data := StoryOf(c.items, w.sid).data;
    assert data + w.pending == (data + w.pending[..n]) + w.pending[n..];
    Emit(c, x, w.sid);
    w.pending := w.pending[n..];
    c.connWindow := c.connWindow - n;
    w.window := w.window - n;
    if end { w.finished := true; }
  }

  lemma AddsNothing(items: seq<Item>, sid: nat)
    ensures Adds(items, items, sid)
  {
  }

  lemma AddsBoth(a: seq<Item>, b: seq<Item>, c: seq<Item>, sid: nat)
    requires Adds(a, b, sid) && Adds(b, c, sid)
    ensures Adds(a, c, sid)
  {
  }

  /** The DATA loop of `h2PumpFrames`: until nothing is buffered, a window is closed
      or the room is used up. */
  method PumpData(c: Conn, w: Writer, room: int, frameLimit: nat)
    requires c.Valid() && w.Sent(c.items) && w.headersOut && !w.finished && !w.failed && 0 < frameLimit < 0x100_0000
    modifies c, w`pending, w`finished, w`window
    ensures c.Valid() && w.Sent(c.items) && Adds(old(c.items), c.items, w.sid) && c.wire == old(c.wire)
    ensures Took(old(w.pending), w.pending, old(w.window) - w.window)
    ensures Took(old(w.pending), w.pending, old(c.connWindow) - c.connWindow)
    ensures w.pending == [] || w.window <= 0 || c.connWindow <= 0 || |c.writeBuf| - |old(c.writeBuf)| >= room
    ensures w.finished <==> w.ended && w.pending == [] && old(w.pending) != []
  {
    hide Conn.Valid, Adds, StoryOf, Writer.Sent, Took;
    AddsNothing(c.items, w.sid);
    TookNothing(w.pending);
    var start := |c.writeBuf|;
    while w.pending != [] && |c.writeBuf| - start < room
      invariant c.Valid() && w.Sent(c.items) && Adds(old(c.items), c.items, w.sid) && c.wire == old(c.wire)
      invariant Took(old(w.pending), w.pending, old(w.window) - w.window)
      invariant Took(old(w.pending), w.pending, old(c.connWindow) - c.connWindow)
      invariant w.finished <==> w.ended && w.pending == [] && old(w.pending) != []
      decreases |w.pending|
    {
      var avail := if c.connWindow < w.window then c.connWindow else w.window;
      if avail <= 0 { break; }
      var n := Least(|w.pending|, avail, frameLimit, frameLimit);
      ghost var items, was, win, conn := c.items, w.pending, w.window, c.connWindow;
      PumpChunk(c, w, n);
      AddsBoth(old(c.items), items, c.items, w.sid);
      TookMore(old(w.pending), was, w.pending, old(w.window) - win, n);
      TookMore(old(w.pending), was, w.pending, old(c.connWindow) - conn, n);
    }
  }

  /** The first `n` bytes were taken. */
  predicate Took(was: Bytes, now: Bytes, n: int) {
    0 <= n <= |was| && now == was[n..]
  }

  lemma TookNothing(s: Bytes)
    ensures Took(s, s, 0)
  {
  }

  lemma TookMore(a: Bytes, b: Bytes, c: Bytes, n: int, m: int)
    requires Took(a, b, n) && Took(b, c, m)
    ensures Took(a, c, n + m)
  {
  }

  /** `h2PumpFrames` of a writer without a file: HEADERS first, then what is
      buffered, and END_STREAM as soon as the handler has ended and all is out. */
  method Pump(c: Conn, w: Writer, ready: bool, room: int, frameLimit: nat)
    requires c.Valid() && w.Sent(c.items) && 0 < frameLimit < 0x100_0000
    modifies c, w`pending, w`finished, w`window, w`headersOut
    ensures c.Valid() && w.Sent(c.items) && Adds(old(c.items), c.items, w.sid) && c.wire == old(c.wire)
    ensures Took(old(w.pending), w.pending, old(w.window) - w.window)
    ensures Took(old(w.pending), w.pending, old(c.connWindow) - c.connWindow)
    ensures old(w.finished) ==> w.finished && c.items == old(c.items)
    ensures !old(w.finished) && w.failed ==> w.finished && w.pending == old(w.pending)
    ensures !old(w.finished) && !w.failed ==>
              && (w.headersOut <==> old(w.headersOut) || ready)
              && (w.finished <==> w.headersOut && w.ended && w.pending == [])
    ensures !w.failed && w.headersOut && w.pending != [] ==>
              w.window <= 0 || c.connWindow <= 0 || |c.writeBuf| - |old(c.writeBuf)| >= room
  {
    hide Conn.Valid, Adds, StoryOf, Writer.Sent, Took;
    AddsNothing(c.items, w.sid);
    TookNothing(w.pending);
    if w.finished {
      if !w.failed { w.AllOut(c.items); }
      return;
    }
    if w.failed {
      PumpReset(c, w);
      return;
    }
    if !w.headersOut {
      if !ready { return; }
      var end := PumpHead(c, w, frameLimit);
      if end { return; }
    }
    ghost var items := c.items;
    PumpData(c, w, room, frameLimit);
    AddsBoth(old(c.items), items, c.items, w.sid);
    items := c.items;
    if !w.finished && w.ended && w.pending == [] {
      PumpEnd(c, w);
      AddsBoth(old(c.items), items, c.items, w.sid);
    }
  }

  /** An empty DATA frame that ends the stream. */
  method PumpEnd(c: Conn, w: Writer)
    requires c.Valid() && w.Sent(c.items) && w.headersOut && !w.finished && !w.failed && w.ended && w.pending == []
    modifies c, w`finished
    ensures c.Valid() && w.Sent(c.items) && Adds(old(c.items), c.items, w.sid) && w.finished
    ensures c.wire == old(c.wire) && c.connWindow == old(c.connWindow)
  {
    hide Conn.Valid, Adds, StoryOf;
    var x := Other(DATA, END_STREAM, w.sid, []);
    StorySnoc(c.items, x, w.sid);
    ghost var data := StoryOf(c.items, w.sid).data;
    assert data + [] == data;
    Emit(c, x, w.sid);
    w.finished := true;
  }

  /** A writer that failed is reset if the peer does not know yet, and sends no
      more. */
  method PumpReset(c: Conn, w: Writer)
    requires c.Valid() && w.Sent(c.items) && w.failed && !w.finished
    modifies c, w`finished
    ensures c.Valid() && w.Sent(c.items) && Adds(old(c.items), c.items, w.sid) && w.finished
    ensures c.wire == old(c.wire) && c.connWindow == old(c.connWindow)
  {
    hide Conn.Valid, Adds, StoryOf;
    AddsNothing(c.items, w.sid);
    if w.sendRST {
      var x := Other(RST_STREAM, 0, w.sid, [0, 0, 0, 8]);
      StorySnoc(c.items, x, w.sid);
      ghost var data := StoryOf(c.items, w.sid).data;
      assert data + [] == data;
      Emit(c, x, w.sid);
    }
    w.finished := true;
  }

  // ----- Any run

  datatype Event =
    | Writes(i: nat, data: Bytes)
    | Closes(i: nat)
    | Fails(i: nat, stalled: bool)
    | Pumps(i: nat, ready: bool, room: int, frameLimit: nat)
    | Credits(i: nat, n: nat)
    | ConnCredits(n: nat)
    | Flushes(accept: nat)
    | Frames(x: Item)

  /** Frames besides are of other streams, or neither DATA nor HEADERS. */
  predicate Possible(e: Event, ws: seq<Writer>) {
    match e
    case ConnCredits(_) => true
    case Flushes(_) => true
    case Frames(x) => Encodable(x) && forall j :: 0 <= j < |ws| ==> !On(x, ws[j].sid)
    case Pumps(i, _, _, l) => i < |ws| && 0 < l < 0x100_0000
    case _ => e.i < |ws|
  }

  predicate Apart(ws: seq<Writer>) {
    forall i, j :: 0 <= i < j < |ws| ==> ws[i].sid != ws[j].sid
  }

  ghost predicate AllWritten(items: seq<Item>, ws: seq<Writer>)
    reads ws
  {
    forall i :: 0 <= i < |ws| ==> ws[i].Sent(items)
  }

  lemma OthersStay(was: seq<Item>, now: seq<Item>, sid: nat, other: nat)
    requires Adds(was, now, sid) && other != sid
    ensures StoryOf(now, other) == StoryOf(was, other)
  {
    hide StoryOf;
    var more := now[|was|..];
    assert now == was + more;
    forall k | 0 <= k < |more|
      ensures !On(more[k], other)
    {
      assert more[k] == now[|was| + k];
    }
    StoryStays(was, more, other);
  }

  /** What one writer adds leaves the others' accounts intact. */
  lemma StillWritten(was: seq<Item>, now: seq<Item>, ws: seq<Writer>, i: nat)
    requires i < |ws| && Apart(ws) && ws[i].Sent(now) && Adds(was, now, ws[i].sid)
    requires forall j :: 0 <= j < |ws| && j != i ==> ws[j].Sent(was)
    ensures AllWritten(now, ws)
  {
    hide StoryOf, Adds;
    forall j | 0 <= j < |ws|
      ensures ws[j].Sent(now)
    {
      if j != i {
        assert ws[j].sid != ws[i].sid;
        OthersStay(was, now, ws[i].sid, ws[j].sid);
      }
    }
  }

  /** What a handler has written, and whether it may write more. */
  datatype Account = Account(written: Bytes, open: bool)

  ghost function Accounts(ws: seq<Writer>): (a: seq<Account>)
    reads ws
    ensures |a| == |ws|
  {
    seq(|ws|, i requires 0 <= i < |ws| reads ws => Account(ws[i].written, !ws[i].ended && !ws[i].failed))
  }

  /** What an event adds. */
  function Booked(a: seq<Account>, e: Event): seq<Account> {
    if e.Writes? && e.i < |a| && a[e.i].open then a[e.i := Account(a[e.i].written + e.data, true)]
    else if (e.Closes? || e.Fails?) && e.i < |a| then a[e.i := Account(a[e.i].written, false)]
    else a
  }

  /** Only writer `i` has moved. */
  lemma OneBooked(ws: seq<Writer>, i: nat, a: seq<Account>)
    requires i < |ws| == |a|
    requires forall j :: 0 <= j < |ws| && j != i ==> a[j] == Account(ws[j].written, !ws[j].ended && !ws[j].failed)
    ensures Accounts(ws) == a[i := Account(ws[i].written, !ws[i].ended && !ws[i].failed)]
  {
  }

  lemma Entry(ws: seq<Writer>)
    ensures forall j :: 0 <= j < |ws| ==> Accounts(ws)[j] == Account(ws[j].written, !ws[j].ended && !ws[j].failed)
  {
  }

  /** An event of a handler, or an increment for a writer. */
  method StepWriter(c: Conn, ws: seq<Writer>, e: Event)
    requires e.Writes? || e.Closes? || e.Fails? || e.Credits?
    requires c.Valid() && Apart(ws) && AllWritten(c.items, ws) && Possible(e, ws)
    modifies ws
    ensures c.Valid() && AllWritten(c.items, ws) && Accounts(ws) == Booked(old(Accounts(ws)), e)
  {
    hide Conn.Valid, Writer.Sent, Accounts;
    ghost var a := Accounts(ws);
    Entry(ws);
    var w := ws[e.i];
    assert w.Sent(c.items);
    match e {
      case Writes(_, data) => var _ := w.WriteChunk(data, c.items);
      case Closes(_) => w.Close(c.items);
      case Fails(_, stalled) => w.Fail(stalled, c.items);
      case Credits(_, n) => w.Credit(n, c.items);
    }
    OneBooked(ws, e.i, a);
  }

  /** A pump. */
  method StepPump(c: Conn, ws: seq<Writer>, e: Event)
    requires c.Valid() && Apart(ws) && AllWritten(c.items, ws) && Possible(e, ws) && e.Pumps?
    modifies c, ws
    ensures c.Valid() && AllWritten(c.items, ws) && old(c.items) <= c.items && old(c.wire) <= c.wire
    ensures Accounts(ws) == old(Accounts(ws))
  {
    hide Conn.Valid, Writer.Sent, Accounts, Adds, Took;
    ghost var items, a := c.items, Accounts(ws);
    Entry(ws);
    assert ws[e.i].Sent(c.items);
    Pump(c, ws[e.i], e.ready, e.room, e.frameLimit);
    StillWritten(items, c.items, ws, e.i);
    Longer(items, c.items, ws[e.i].sid);
    OneBooked(ws, e.i, a);
    assert a[e.i := a[e.i]] == a;
  }

  /** One event. */
  method Step(c: Conn, ws: seq<Writer>, e: Event)
    requires c.Valid() && Apart(ws) && AllWritten(c.items, ws) && Possible(e, ws)
    modifies c, ws
    ensures c.Valid() && AllWritten(c.items, ws) && old(c.items) <= c.items && old(c.wire) <= c.wire
    ensures Accounts(ws) == Booked(old(Accounts(ws)), e)
  {
    hide Conn.Valid, AllWritten, Accounts, Encodable, On;
    if e.Pumps? {
      StepPump(c, ws, e);
    } else if e.Flushes? {
      c.Flush(e.accept);
    } else if e.ConnCredits? {
      c.connWindow := c.connWindow + e.n;
    } else if e.Frames? {
      Elsewhere(c.items, e.x, ws);
      OneItem(e.x);
      hide Encode, EncodeAll;
      c.Append(Encode(e.x), [e.x]);
    } else {
      StepWriter(c, ws, e);
    }
  }

  lemma Longer(was: seq<Item>, now: seq<Item>, sid: nat)
    requires Adds(was, now, sid)
    ensures was <= now
  {
  }

  lemma Elsewhere(items: seq<Item>, x: Item, ws: seq<Writer>)
    requires AllWritten(items, ws) && forall j :: 0 <= j < |ws| ==> !On(x, ws[j].sid)
    ensures AllWritten(items + [x], ws)
  {
    hide StoryOf, On;
    forall j | 0 <= j < |ws|
      ensures ws[j].Sent(items + [x])
    {
      assert ws[j].Sent(items);
      StoryStays(items, [x], ws[j].sid);
    }
  }

  /** The handler of writer `i` has neither closed it nor seen it fail. */
  predicate StillOpen(events: seq<Event>, i: nat) {
    forall k :: 0 <= k < |events| ==> !((events[k].Closes? || events[k].Fails?) && events[k].i == i)
  }

  /** What the handler of writer `i` wrote before that, in order. */
  function Accepted(events: seq<Event>, i: nat): Bytes {
    if events == [] then []
    else
      var e, front := events[|events| - 1], events[..|events| - 1];
      Accepted(front, i) + if e.Writes? && e.i == i && StillOpen(front, i) then e.data else []
  }

  lemma AcceptedSnoc(events: seq<Event>, e: Event, i: nat)
    ensures Accepted(events + [e], i)
            == Accepted(events, i) + if e.Writes? && e.i == i && StillOpen(events, i) then e.data else []
    ensures StillOpen(events + [e], i) <==> StillOpen(events, i) && !((e.Closes? || e.Fails?) && e.i == i)
  {
    var all := events + [e];
    assert all[..|events|] == events && all[|events|] == e;
    assert forall k :: 0 <= k < |events| ==> all[k] == events[k];
  }

  /** The accounts of writers that were new before these events. */
  predicate BookedAll(a: seq<Account>, events: seq<Event>) {
    forall i :: 0 <= i < |a| ==> a[i] == Account(Accepted(events, i), StillOpen(events, i))
  }

  lemma BookedMore(a: seq<Account>, events: seq<Event>, e: Event)
    requires BookedAll(a, events)
    ensures BookedAll(Booked(a, e), events + [e])
  {
    hide Accepted, StillOpen;
    var b := Booked(a, e);
    forall i | 0 <= i < |b|
      ensures b[i] == Account(Accepted(events + [e], i), StillOpen(events + [e], i))
    {
      AcceptedSnoc(events, e, i);
      assert a[i].written + [] == a[i].written;
    }
  }

  /** Over any run of handlers, pumps, flushes, increments and other frames, from new
      writers on: the bytes on the wire and those waiting read as exactly the frames
      emitted; of each writer, its DATA is what its handler wrote but for what is
      buffered, with END_STREAM where `Sent` says. */
  method Run(c: Conn, ws: seq<Writer>, events: seq<Event>)
    requires c.Valid() && Apart(ws) && AllWritten(c.items, ws) && BookedAll(Accounts(ws), [])
    requires forall k :: 0 <= k < |events| ==> Possible(events[k], ws)
    modifies c, ws
    ensures c.Valid() && AllWritten(c.items, ws) && old(c.items) <= c.items && old(c.wire) <= c.wire
    ensures BookedAll(Accounts(ws), events)
    ensures ReadRaw(c.wire + c.writeBuf[c.writeSent..]) == (RawAll(c.items), [])
  {
    hide Conn.Valid, AllWritten, Possible, ReadRaw, BookedAll, Accounts, Booked;
    for k := 0 to |events|
      invariant c.Valid() && AllWritten(c.items, ws) && old(c.items) <= c.items && old(c.wire) <= c.wire
      invariant BookedAll(Accounts(ws), events[..k])
    {
      BookedMore(Accounts(ws), events[..k], events[k]);
      Step(c, ws, events[k]);
      assert events[..k] + [events[k]] == events[..k + 1];
    }
    assert events[..|events|] == events;
    Whole(c);
  }
}
