/** Flow control of one HTTP/2 connection (section 6.9 of RFC 9113), as
    core/epoll_h2_linux_amd64.go, core/epoll_h2_stream_linux_amd64.go,
    core/epoll_h2_file_linux_amd64.go and core/h2_shared.go keep it: where streams
    live, what their windows hold, and what parked responses cost. */
module H2Flow {
  import opened DistinctLists

  const MAX_WINDOW := 0x7FFF_FFFF
  const DEFAULT_WINDOW := 65535
  const HARD_FACTOR := 8
  const FILE_FRAMES := 64

  /** A stream object. `bodyLen` and `respOff` belong to a buffered response. */
  datatype Stream = Stream(window: int, bodyLen: nat, respOff: nat, stall: nat, parked: nat, abandoned: bool)

  /** A streaming response: bytes buffered or left in a file, and how far it is. A
      writer that has failed sends no more and is finished at its next pump. */
  datatype Writer = Writer(buffered: nat, fileLeft: nat, ended: bool, finished: bool, done: bool, failed: bool)

  /** What reading a file comes to: all that was asked for, less for now, or an
      error or the end of the file. */
  datatype FileRead = Whole | Short | Broken

  /** Where a live stream is: its body still arriving, with a handler, being sent,
      or with a writer whose handler has returned. */
  datatype Place = Open | Busy | Sending | Draining

  /** A DATA frame, with the two windows it found. */
  datatype Data = Data(id: nat, n: nat, window: int, conn: int)

  function SentOn(log: seq<Data>, id: nat): nat {
    if log == [] then 0
    else
      var x := log[|log| - 1];
      SentOn(log[..|log| - 1], id) + if x.id == id then x.n else 0
  }

  function SentAll(log: seq<Data>): nat {
    if log == [] then 0 else SentAll(log[..|log| - 1]) + log[|log| - 1].n
  }

  lemma SentSnoc(log: seq<Data>, x: Data)
    ensures SentAll(log + [x]) == SentAll(log) + x.n
    ensures forall id :: SentOn(log + [x], id) == SentOn(log, id) + if x.id == id then x.n else 0
  {
    assert (log + [x])[..|log|] == log;
  }

  lemma {:induction false} NeverSent(log: seq<Data>, id: nat)
    requires forall i :: 0 <= i < |log| ==> log[i].id < id
    ensures SentOn(log, id) == 0
  {
    if log != [] { NeverSent(log[..|log| - 1], id); }
  }

  // ----- Sums over the streams being sent

  datatype Which = Stall | Park

  function Amount(s: Stream, w: Which): nat {
    if w.Stall? then s.stall else s.parked
  }

  ghost function Total(live: map<nat, Stream>, ids: set<nat>, w: Which): nat
    requires ids <= live.Keys
  {
    if ids == {} then 0
    else
      var x :| x in ids;
      Amount(live[x], w) + Total(live, ids - {x}, w)
  }

  lemma {:induction false} TotalOut(live: map<nat, Stream>, ids: set<nat>, w: Which, x: nat)
    requires ids <= live.Keys && x in ids
    ensures Total(live, ids, w) == Amount(live[x], w) + Total(live, ids - {x}, w)
    decreases |ids|
  {
    var y :| y in ids && Total(live, ids, w) == Amount(live[y], w) + Total(live, ids - {y}, w);
    if y != x {
      TotalOut(live, ids - {y}, w, x);
      TotalOut(live, ids - {x}, w, y);
      assert ids - {y} - {x} == ids - {x} - {y};
    }
  }

  lemma {:induction false} TotalSame(a: map<nat, Stream>, b: map<nat, Stream>, ids: set<nat>, w: Which)
    requires ids <= a.Keys && ids <= b.Keys && forall x :: x in ids ==> Amount(a[x], w) == Amount(b[x], w)
    ensures Total(a, ids, w) == Total(b, ids, w)
    decreases |ids|
  {
    if ids != {} {
      var x :| x in ids;
      TotalOut(a, ids, w, x);
      TotalOut(b, ids, w, x);
      TotalSame(a, b, ids - {x}, w);
    }
  }

  lemma TotalIn(live: map<nat, Stream>, ids: set<nat>, w: Which, x: nat)
    requires ids <= live.Keys && x in live && x !in ids
    ensures Total(live, ids + {x}, w) == Amount(live[x], w) + Total(live, ids, w)
  {
    TotalOut(live, ids + {x}, w, x);
    assert ids + {x} - {x} == ids;
  }

  /** `unlinkBusy` */
  function Without(s: seq<nat>, x: nat): seq<nat> {
    if s == [] then []
    else if s[0] == x then s[1..]
    else [s[0]] + Without(s[1..], x)
  }

  lemma {:induction false} WithoutIs(s: seq<nat>, x: nat)
    requires NoRepeats(s)
    ensures NoRepeats(Without(s, x)) && forall y :: y in Without(s, x) <==> y in s && y != x
  {
    if s != [] {
      assert s == [s[0]] + s[1..];
      WithoutIs(s[1..], x);
    }
  }

  function Min(a: int, b: int): int {
    if a < b then a else b
  }

  /** No frame exceeds the smaller of the two windows it finds. */
  predicate Fitted(x: Data) {
    0 < x.n <= x.window && x.n <= x.conn
  }

  // ----- What holds of a connection at all times

  /** The collections a change of the initial window goes through. */
  datatype Homes = Homes(streams: set<nat>, sending: set<nat>, busy: seq<nat>, writers: map<nat, Writer>)

  /** These are the streams at place `p`. */
  ghost predicate Holds(place: map<nat, Place>, ids: set<nat>, p: Place) {
    forall id :: id in ids <==> id in place && place[id] == p
  }

  ghost predicate HoldsBusy(place: map<nat, Place>, busy: seq<nat>) {
    NoRepeats(busy) && forall id :: id in busy <==> id in place && place[id] == Busy
  }

  /** A writer whose handler still runs belongs to a busy stream. */
  ghost predicate HoldsWriters(place: map<nat, Place>, writers: map<nat, Writer>) {
    && (forall id :: id in writers ==> id in place && place[id] == if writers[id].done then Draining else Busy)
    && (forall id :: id in place && place[id] == Draining ==> id in writers)
  }

  ghost predicate UpTo(place: map<nat, Place>, highest: nat) {
    forall id :: id in place ==> id <= highest
  }

  /** Each live stream is in exactly one of the collections. */
  ghost predicate Placed(place: map<nat, Place>, h: Homes, highest: nat) {
    && Holds(place, h.streams, Open) && Holds(place, h.sending, Sending) && HoldsBusy(place, h.busy)
    && HoldsWriters(place, h.writers) && UpTo(place, highest)
  }

  /** Windows are the current initial size, plus what the peer granted, minus what
      was sent; they stay below 2^31; and every frame fitted both windows. */
  ghost predicate Counted(live: map<nat, Stream>, credit: map<nat, nat>, initial: int, log: seq<Data>, conn: int,
                          connCredit: nat, highest: nat) {
    && live.Keys == credit.Keys
    && (forall id :: id in live ==> live[id].window == initial + credit[id] - SentOn(log, id) <= MAX_WINDOW)
    && conn == DEFAULT_WINDOW + connCredit - SentAll(log) <= MAX_WINDOW && initial <= MAX_WINDOW
    && (forall i :: 0 <= i < |log| ==> Fitted(log[i]) && log[i].id <= highest)
  }

  /** The two counters are sums over the streams being sent, within their caps. */
  ghost predicate Accounted(live: map<nat, Stream>, sending: set<nat>, stalled: int, parked: int, cap: nat) {
    && sending <= live.Keys
    && (forall id :: id in live && id !in sending ==> live[id].stall == 0 && live[id].parked == 0)
    && (forall id :: id in live ==> live[id].respOff <= live[id].bodyLen)
    && stalled == Total(live, sending, Stall) && parked == Total(live, sending, Park)
    && stalled <= cap && parked <= cap * HARD_FACTOR
  }

  /** What `h2SettleParked` charges a response: all it holds, and the same again as
      stalled while a window is closed. */
  function Charged(s: Stream, conn: int): Stream
    requires s.respOff <= s.bodyLen
  {
    var pending := s.bodyLen - s.respOff;
    s.(stall := if s.window <= 0 || conn <= 0 then pending else 0, parked := pending)
  }

  /** Whether that charge takes the connection over a cap. */
  predicate OverCap(s: Stream, conn: int, stalled: int, parked: int, cap: nat)
    requires s.respOff <= s.bodyLen
  {
    var c := Charged(s, conn);
    (c.stall > 0 && stalled + c.stall - s.stall > cap) || parked + c.parked - s.parked > cap * HARD_FACTOR
  }

  /** A response after `sent` more bytes of it. */
  function Advanced(s: Stream, sent: nat): Stream {
    s.(window := s.window - sent, respOff := s.respOff + sent)
  }

  // ----- Streams come, move and go

  /** A stream gets a place, or another one. */
  lemma Moved(place: map<nat, Place>, ids: set<nat>, p: Place, id: nat, to: Place)
    requires Holds(place, ids, p)
    ensures Holds(place[id := to], if p == to then ids + {id} else ids - {id}, p)
    ensures (id in ids <==> id in place && place[id] == p) && (id !in ids ==> ids - {id} == ids)
  {
  }

  lemma Gone(place: map<nat, Place>, ids: set<nat>, p: Place, id: nat)
    requires Holds(place, ids, p)
    ensures Holds(place - {id}, ids - {id}, p)
  {
  }

  lemma GoneWriter(place: map<nat, Place>, writers: map<nat, Writer>, highest: nat, id: nat)
    requires HoldsWriters(place, writers) && UpTo(place, highest)
    ensures HoldsWriters(place - {id}, writers - {id}) && UpTo(place - {id}, highest)
    ensures id in place && (place[id] == Open || place[id] == Sending) ==> writers - {id} == writers
  {
  }

  lemma MovedBusy(place: map<nat, Place>, busy: seq<nat>, id: nat, to: Place)
    requires HoldsBusy(place, busy)
    ensures to == Busy && (id in place ==> place[id] != Busy) ==> HoldsBusy(place[id := to], [id] + busy)
    ensures to != Busy ==> HoldsBusy(place[id := to], Without(busy, id))
    ensures HoldsBusy(place - {id}, Without(busy, id))
    ensures (id in busy <==> id in place && place[id] == Busy) && (id !in busy ==> Without(busy, id) == busy)
  {
    WithoutIs(busy, id);
    if id !in busy { WithoutNone(busy, id); }
  }

  lemma {:induction false} WithoutNone(s: seq<nat>, x: nat)
    requires x !in s
    ensures Without(s, x) == s
  {
    if s != [] { WithoutNone(s[1..], x); }
  }

  lemma PlaceNew(place: map<nat, Place>, h: Homes, highest: nat, id: nat)
    requires Placed(place, h, highest) && id > highest
    ensures id !in place
    ensures Placed(place[id := Open], h.(streams := h.streams + {id}), id)
    ensures Placed(place[id := Busy], h.(busy := [id] + h.busy), id)
    ensures Placed(place, h, id)
  {
    hide Holds, HoldsBusy;
    Moved(place, h.streams, Open, id, Open);
    Moved(place, h.streams, Open, id, Busy);
    Moved(place, h.sending, Sending, id, Open);
    Moved(place, h.sending, Sending, id, Busy);
    MovedBusy(place, h.busy, id, Open);
    MovedBusy(place, h.busy, id, Busy);
  }

  lemma PlaceGone(place: map<nat, Place>, h: Homes, highest: nat, id: nat)
    requires Placed(place, h, highest)
    ensures var g := Homes(h.streams - {id}, h.sending - {id}, Without(h.busy, id), h.writers - {id});
            Placed(place - {id}, g, highest)
    ensures id in place ==>
              && (place[id] != Open ==> h.streams - {id} == h.streams)
              && (place[id] != Sending ==> h.sending - {id} == h.sending)
              && (place[id] != Busy ==> Without(h.busy, id) == h.busy)
              && (place[id] == Open || place[id] == Sending ==> h.writers - {id} == h.writers)
  {
    hide Holds, HoldsBusy, HoldsWriters, UpTo, Without;
    GoneWriter(place, h.writers, highest, id);
    Gone(place, h.streams, Open, id);
    Gone(place, h.sending, Sending, id);
    Moved(place, h.streams, Open, id, Busy);
    Moved(place, h.sending, Sending, id, Busy);
    MovedBusy(place, h.busy, id, Open);
  }

  /** A body is complete. */
  lemma PlaceDispatched(place: map<nat, Place>, h: Homes, highest: nat, id: nat)
    requires Placed(place, h, highest) && id in place && place[id] == Open
    ensures Placed(place[id := Busy], h.(streams := h.streams - {id}, busy := [id] + h.busy), highest)
  {
    hide Holds, HoldsBusy;
    Moved(place, h.streams, Open, id, Busy);
    Moved(place, h.sending, Sending, id, Busy);
    MovedBusy(place, h.busy, id, Busy);
  }

  /** A handler has returned, with a response in a buffer. */
  lemma PlaceSending(place: map<nat, Place>, h: Homes, highest: nat, id: nat)
    requires Placed(place, h, highest) && id in place && place[id] == Busy && id !in h.writers
    ensures Placed(place[id := Sending], h.(busy := Without(h.busy, id), sending := h.sending + {id}), highest)
  {
    hide Holds, HoldsBusy;
    Moved(place, h.streams, Open, id, Sending);
    Moved(place, h.sending, Sending, id, Sending);
    MovedBusy(place, h.busy, id, Sending);
  }

  /** A handler has returned, and its writer has more to send. */
  lemma PlaceDraining(place: map<nat, Place>, h: Homes, highest: nat, id: nat, w: Writer)
    requires Placed(place, h, highest) && id in place && place[id] == Busy && w.done
    ensures Placed(place[id := Draining], h.(busy := Without(h.busy, id), writers := h.writers[id := w]), highest)
  {
    hide Holds, HoldsBusy;
    Moved(place, h.streams, Open, id, Draining);
    Moved(place, h.sending, Sending, id, Draining);
    MovedBusy(place, h.busy, id, Draining);
  }

  /** A writer appears, changes or goes. */
  lemma PlaceWriter(place: map<nat, Place>, h: Homes, highest: nat, id: nat, w: Writer)
    requires Placed(place, h, highest) && id in place
    ensures place[id] == (if w.done then Draining else Busy) ==>
              Placed(place, h.(writers := h.writers[id := w]), highest)
    ensures place[id] == Busy ==> Placed(place, h.(writers := h.writers - {id}), highest)
  {
    hide Holds, HoldsBusy, UpTo;
  }

  // ----- Windows

  lemma CountNew(live: map<nat, Stream>, credit: map<nat, nat>, initial: int, log: seq<Data>, conn: int,
                 connCredit: nat, highest: nat, id: nat, s: Stream)
    requires Counted(live, credit, initial, log, conn, connCredit, highest) && id > highest && s.window == initial
    ensures Counted(live[id := s], credit[id := 0], initial, log, conn, connCredit, id)
    ensures Counted(live, credit, initial, log, conn, connCredit, id)
  {
    hide SentAll;
    NeverSent(log, id);
  }

  lemma CountGone(live: map<nat, Stream>, credit: map<nat, nat>, initial: int, log: seq<Data>, conn: int,
                  connCredit: nat, highest: nat, id: nat)
    requires Counted(live, credit, initial, log, conn, connCredit, highest)
    ensures Counted(live - {id}, credit - {id}, initial, log, conn, connCredit, highest)
  {
    hide SentOn, SentAll;
  }

  /** What is not the window does not matter. */
  lemma CountSame(live: map<nat, Stream>, credit: map<nat, nat>, initial: int, log: seq<Data>, conn: int,
                  connCredit: nat, highest: nat, id: nat, s: Stream)
    requires Counted(live, credit, initial, log, conn, connCredit, highest) && id in live && s.window == live[id].window
    ensures Counted(live[id := s], credit, initial, log, conn, connCredit, highest)
  {
    hide SentOn, SentAll;
  }

  lemma CountSent(live: map<nat, Stream>, credit: map<nat, nat>, initial: int, log: seq<Data>, conn: int,
                  connCredit: nat, highest: nat, id: nat, n: nat)
    requires Counted(live, credit, initial, log, conn, connCredit, highest) && id in live && id <= highest
    requires 0 < n <= live[id].window && n <= conn
    ensures Counted(live[id := live[id].(window := live[id].window - n)], credit, initial,
                    log + [Data(id, n, live[id].window, conn)], conn - n, connCredit, highest)
  {
    hide SentOn, SentAll;
    SentSnoc(log, Data(id, n, live[id].window, conn));
  }

  lemma CountCredit(live: map<nat, Stream>, credit: map<nat, nat>, initial: int, log: seq<Data>, conn: int,
                    connCredit: nat, highest: nat, id: nat, n: nat)
    requires Counted(live, credit, initial, log, conn, connCredit, highest)
    ensures id in live && live[id].window + n <= MAX_WINDOW ==>
              Counted(live[id := live[id].(window := live[id].window + n)], credit[id := credit[id] + n], initial, log,
                conn, connCredit, highest)
    ensures conn + n <= MAX_WINDOW ==> Counted(live, credit, initial, log, conn + n, connCredit + n, highest)
  {
    hide SentOn, SentAll;
  }

  // ----- Counters

  lemma AccountGone(live: map<nat, Stream>, sending: set<nat>, stalled: int, parked: int, cap: nat, id: nat)
    requires Accounted(live, sending, stalled, parked, cap) && id in live
    ensures Accounted(live - {id}, sending - {id}, stalled - live[id].stall, parked - live[id].parked, cap)
  {
    hide Total;
    if id in sending {
      TotalOut(live, sending, Stall, id);
      TotalOut(live, sending, Park, id);
    } else {
      assert sending - {id} == sending;
    }
    TotalSame(live, live - {id}, sending - {id}, Stall);
    TotalSame(live, live - {id}, sending - {id}, Park);
  }

  lemma AccountSame(live: map<nat, Stream>, sending: set<nat>, stalled: int, parked: int, cap: nat, id: nat, s: Stream)
    requires Accounted(live, sending, stalled, parked, cap) && s.respOff <= s.bodyLen
    requires if id in live then s.stall == live[id].stall && s.parked == live[id].parked
             else s.stall == 0 && s.parked == 0
    ensures Accounted(live[id := s], sending, stalled, parked, cap)
  {
    hide Total;
    TotalSame(live, live[id := s], sending, Stall);
    TotalSame(live, live[id := s], sending, Park);
  }

  lemma AccountSend(live: map<nat, Stream>, sending: set<nat>, stalled: int, parked: int, cap: nat, id: nat)
    requires Accounted(live, sending, stalled, parked, cap) && id in live && id !in sending
    ensures Accounted(live, sending + {id}, stalled, parked, cap)
  {
    hide Total;
    TotalIn(live, sending, Stall, id);
    TotalIn(live, sending, Park, id);
  }

  /** A charge is put in place of the one before; a response that does not fit is
      the only one to go. */
  lemma AccountCharge(live: map<nat, Stream>, sending: set<nat>, stalled: int, parked: int, cap: nat, id: nat,
                      stall: nat, park: nat)
    requires Accounted(live, sending, stalled, parked, cap) && id in sending
    ensures var now := live[id := live[id].(stall := stall, parked := park)];
            var s, p := stalled + stall - live[id].stall, parked + park - live[id].parked;
            && (s <= cap && p <= cap * HARD_FACTOR ==> Accounted(now, sending, s, p, cap))
            && (stall == 0 ==> s <= cap)
            && Accounted(live - {id}, sending - {id}, s - stall, p - park, cap)
  {
    hide Total;
    var now := live[id := live[id].(stall := stall, parked := park)];
    var others := sending - {id};
    TotalOut(live, sending, Stall, id);
    TotalOut(live, sending, Park, id);
    TotalSame(live, now, others, Stall);
    TotalSame(live, now, others, Park);
    TotalOut(now, sending, Stall, id);
    TotalOut(now, sending, Park, id);
    AccountGone(live, sending, stalled, parked, cap, id);
  }

  /** The charges of a response being sent cover what it still holds. */
  ghost predicate Backed(live: map<nat, Stream>, sending: set<nat>) {
    forall id :: id in sending && id in live ==> CoveredBy(live[id])
  }

  predicate CoveredBy(s: Stream) {
    s.bodyLen - s.respOff <= s.parked && s.stall <= s.parked
  }

  lemma BackedWith(live: map<nat, Stream>, sending: set<nat>, id: nat, s: Stream)
    requires Backed(live, sending - {id}) && (id in sending ==> CoveredBy(s))
    ensures Backed(live[id := s], sending)
  {
  }

  lemma BackedWithout(live: map<nat, Stream>, sending: set<nat>, id: nat)
    requires Backed(live, sending - {id})
    ensures Backed(live - {id}, sending - {id})
  {
  }

  lemma BackedBut(live: map<nat, Stream>, sending: set<nat>, id: nat)
    requires Backed(live, sending)
    ensures Backed(live, sending - {id}) && (id in sending && id in live ==> CoveredBy(live[id]))
  {
  }

  /** What is stalled is part of what is parked. */
  lemma {:induction false} StallWithin(live: map<nat, Stream>, sending: set<nat>)
    requires sending <= live.Keys && Backed(live, sending)
    ensures Total(live, sending, Stall) <= Total(live, sending, Park)
    decreases |sending|
  {
    if sending != {} {
      var x :| x in sending;
      TotalOut(live, sending, Stall, x);
      TotalOut(live, sending, Park, x);
      StallWithin(live, sending - {x});
    }
  }

  /** A response that shrank is over no cap but that for stalled ones, and over
      that one only if more than the cap is parked. */
  lemma OverStalled(live: map<nat, Stream>, sending: set<nat>, stalled: int, parked: int, cap: nat, id: nat, conn: int)
    requires Accounted(live, sending, stalled, parked, cap) && Backed(live, sending) && id in sending
    requires OverCap(live[id], conn, stalled, parked, cap)
    ensures parked > cap && (live[id].window <= 0 || conn <= 0)
  {
    hide Total;
    TotalOut(live, sending, Stall, id);
    TotalOut(live, sending, Park, id);
    StallWithin(live, sending - {id});
  }

  // ----- What went out

  function FramesOn(log: seq<Data>, id: nat): nat {
    if log == [] then 0 else FramesOn(log[..|log| - 1], id) + if log[|log| - 1].id == id then 1 else 0
  }

  /** Since `log0` only frames of this stream were sent. */
  predicate Only(log0: seq<Data>, log: seq<Data>, id: nat) {
    log0 <= log && forall i :: |log0| <= i < |log| ==> log[i].id == id
  }

  lemma Nothing(log: seq<Data>, id: nat)
    ensures Only(log, log, id)
  {
  }

  lemma OnlyOn(a: seq<Data>, b: seq<Data>, c: seq<Data>, id: nat)
    requires Only(a, b, id) && Only(b, c, id)
    ensures Only(a, c, id)
  {
  }

  lemma {:induction false} OnlyCounts(log0: seq<Data>, log: seq<Data>, id: nat)
    requires Only(log0, log, id)
    ensures forall k :: k != id ==> SentOn(log, k) == SentOn(log0, k) && FramesOn(log, k) == FramesOn(log0, k)
    ensures FramesOn(log, id) == FramesOn(log0, id) + |log| - |log0| && |log| >= |log0|
    ensures SentAll(log) - SentAll(log0) == SentOn(log, id) - SentOn(log0, id) >= 0
    decreases |log|
  {
    if |log| > |log0| {
      OnlyCounts(log0, log[..|log| - 1], id);
    } else {
      assert log == log0;
    }
  }

  /** Frames were sent on one stream, and it and the connection have paid for them. */
  ghost predicate SentOnly(id: nat, l0: map<nat, Stream>, conn0: int, log0: seq<Data>,
                           live: map<nat, Stream>, conn: int, log: seq<Data>) {
    && id in l0 && conn <= conn0 && Only(log0, log, id)
    && live == l0[id := l0[id].(window := l0[id].window - (conn0 - conn))]
  }

  lemma BothSent(id: nat, l0: map<nat, Stream>, conn0: int, log0: seq<Data>,
                 l1: map<nat, Stream>, conn1: int, log1: seq<Data>, l2: map<nat, Stream>, conn2: int, log2: seq<Data>)
    requires SentOnly(id, l0, conn0, log0, l1, conn1, log1) && SentOnly(id, l1, conn1, log1, l2, conn2, log2)
    ensures SentOnly(id, l0, conn0, log0, l2, conn2, log2)
  {
    OnlyOn(log0, log1, log2, id);
  }

  lemma MoreSent(id: nat, l0: map<nat, Stream>, conn0: int, log0: seq<Data>,
                 l1: map<nat, Stream>, conn1: int, log1: seq<Data>, l2: map<nat, Stream>, conn2: int, log2: seq<Data>,
                 n: nat)
    requires SentOnly(id, l0, conn0, log0, l1, conn1, log1) && id in l1 && conn2 == conn1 - n
    requires l2 == l1[id := l1[id].(window := l1[id].window - n)]
    requires |log2| == |log1| + 1 && log1 <= log2 && log2[|log1|].id == id
    ensures SentOnly(id, l0, conn0, log0, l2, conn2, log2)
  {
    BothSent(id, l0, conn0, log0, l1, conn1, log1, l2, conn2, log2);
  }

  /** A writer `w0` was pumped and is now `w1`: its buffer was sent until it was
      empty, a window closed or the room was used up; behind an empty buffer as much
      of the file went as windows and room take, unless reading it came up short or
      failed; and it is finished exactly if it has ended and nothing is buffered. */
  predicate PumpedTo(w0: Writer, w1: Writer, sent: int, frames: int, closed: bool, p: Pumping, limit: nat) {
    if w0.finished then w1 == w0 && sent == 0
    else if p.failed || w0.failed then w1 == w0.(finished := true, failed := true) && sent == 0
    else
      && w1.done == w0.done && w1.ended == w0.ended && w1.buffered <= w0.buffered
      && if w1.buffered > 0 then
           && w1 == w0.(buffered := w1.buffered) && sent == w0.buffered - w1.buffered
           && (closed || frames == p.room)
         else
           && (w1.finished <==> w0.ended)
           && if w1.failed then w0.fileLeft > 0 && w1.fileLeft == 0 && p.read.Broken? && sent == w0.buffered
              else
                var gone := w0.fileLeft - w1.fileLeft;
                && 0 <= gone && sent == w0.buffered + gone
                && (w1.fileLeft > 0 ==>
                      closed || (p.read.Short? && gone == 0) || gone == Min(p.fileRoom, limit * FILE_FRAMES))
  }

  /** The same, with stream `s` and what was sent on it since `log0`. */
  predicate PumpedThen(id: nat, w0: Writer, w1: Writer, s: Stream, log0: seq<Data>, p: Pumping, live: map<nat, Stream>,
                       conn: int, log: seq<Data>, limit: nat) {
    var sent := SentOn(log, id) - SentOn(log0, id);
    && (id in live ==> live[id] == s.(window := s.window - sent))
    && PumpedTo(w0, w1, sent, FramesOn(log, id) - FramesOn(log0, id), s.window - sent <= 0 || conn <= 0, p, limit)
  }

  /** What the outside decides of a pump: room for frames, room for bytes of a file,
      what reading the file comes to, and whether the writer has failed. */
  datatype Pumping = Pumping(room: nat, fileRoom: nat, read: FileRead, failed: bool)

  /** A response `s` was resumed: it was sent until it was complete, a window closed
      or its room was used up. It is still being sent if and only if something is
      left, unless it had to go; and that happens only to one that is stalled, with
      more than the cap parked. */
  predicate Resumed(id: nat, s: Stream, log0: seq<Data>, parked0: int, room: nat, cap: nat, live: map<nat, Stream>,
                    sending: set<nat>, conn: int, log: seq<Data>) {
    var sent, frames := SentOn(log, id) - SentOn(log0, id), FramesOn(log, id) - FramesOn(log0, id);
    && 0 <= sent && s.respOff + sent <= s.bodyLen && 0 <= frames <= room
    && var now := Advanced(s, sent);
       var closed := now.window <= 0 || conn <= 0;
       if id in sending then
         && id in live && now.respOff < now.bodyLen && (closed || frames == room)
         && live[id] == now.(stall := live[id].stall, parked := now.bodyLen - now.respOff)
         && (live[id].stall == 0 || live[id].stall == live[id].parked)
       else id !in live && (now.respOff == now.bodyLen || (closed && parked0 > cap))
  }

  ghost predicate AllResumed(ids: set<nat>, l0: map<nat, Stream>, log0: seq<Data>, parked0: int, room: nat -> nat,
                             cap: nat, live: map<nat, Stream>, sending: set<nat>, conn: int, log: seq<Data>) {
    && ids <= l0.Keys
    && forall k :: k in ids ==> Resumed(k, l0[k], log0, parked0, room(k), cap, live, sending, conn, log)
  }

  /** Streams other than these are as they were, and nothing was sent on them. */
  ghost predicate OthersStay(ids: set<nat>, l0: map<nat, Stream>, log0: seq<Data>, live: map<nat, Stream>,
                             log: seq<Data>) {
    && (forall k :: k in live ==> k in l0)
    && (forall k :: k in l0 && k !in ids ==> k in live && live[k] == l0[k])
    && forall k :: k !in ids ==> SentOn(log, k) == SentOn(log0, k) && FramesOn(log, k) == FramesOn(log0, k)
  }

  ghost predicate AllPumped(ids: set<nat>, ws: map<nat, Writer>, now: map<nat, Writer>, l0: map<nat, Stream>,
                            log0: seq<Data>, p: nat -> Pumping, live: map<nat, Stream>, conn: int, log: seq<Data>,
                            limit: nat) {
    && ids <= ws.Keys && ids <= now.Keys && ids <= l0.Keys
    && forall k :: k in ids ==> PumpedThen(k, ws[k], now[k], l0[k], log0, p(k), live, conn, log, limit)
  }

  predicate Separate(a: set<nat>, b: set<nat>) {
    a !! b
  }

  /** Pumping writers left the responses being sent as they were. */
  lemma ResumedSince(ids: set<nat>, sending: set<nat>, b0: Book, b1: Book, parked0: int, room: nat -> nat, cap: nat,
                     live: map<nat, Stream>, still: set<nat>, conn: int, log: seq<Data>)
    requires AllResumed(sending, b1.live, b1.log, parked0, room, cap, live, still, conn, log)
    requires OthersStay(ids, b0.live, b0.log, b1.live, b1.log) && Separate(ids, sending)
    ensures AllResumed(sending, b0.live, b0.log, parked0, room, cap, live, still, conn, log)
  {
    hide SentOn, FramesOn;
  }

  /** Sending on other streams leaves pumped writers as they were. */
  lemma PumpedSince(ids: set<nat>, others: set<nat>, ws: map<nat, Writer>, now: map<nat, Writer>, b0: Book, b1: Book,
                    conn1: int, p: nat -> Pumping, live: map<nat, Stream>, conn: int, log: seq<Data>, limit: nat)
    requires AllPumped(ids, ws, now, b0.live, b0.log, p, b1.live, conn1, b1.log, limit) && conn <= conn1
    requires OthersStay(others, b1.live, b1.log, live, log) && Separate(ids, others)
    ensures AllPumped(ids, ws, now, b0.live, b0.log, p, live, conn, log, limit)
  {
    hide SentOn, FramesOn, PumpedTo;
    forall k | k in ids
      ensures PumpedThen(k, ws[k], now[k], b0.live[k], b0.log, p(k), live, conn, log, limit)
    {
      PumpedMore(k, ws[k], now[k], b0.live[k], b0.log, p(k), b1.live, conn1, b1.log, live, conn, log, limit);
    }
  }

  lemma PumpedMore(id: nat, w0: Writer, w1: Writer, s: Stream, log0: seq<Data>, p: Pumping, l1: map<nat, Stream>,
                   conn1: int, log1: seq<Data>, live: map<nat, Stream>, conn: int, log: seq<Data>, limit: nat)
    requires PumpedThen(id, w0, w1, s, log0, p, l1, conn1, log1, limit) && conn <= conn1
    requires (id in live ==> id in l1 && live[id] == l1[id])
    requires SentOn(log, id) == SentOn(log1, id) && FramesOn(log, id) == FramesOn(log1, id)
    ensures PumpedThen(id, w0, w1, s, log0, p, live, conn, log, limit)
  {
    hide SentOn, FramesOn;
  }

  /** One more writer was pumped, behind those of `ids`. */
  lemma AnotherPumped(ids: set<nat>, id: nat, ws: map<nat, Writer>, was: map<nat, Writer>, w: Writer, b0: Book,
                      b1: Book, conn1: int, p: nat -> Pumping, live: map<nat, Stream>, conn: int, log: seq<Data>,
                      limit: nat)
    requires AllPumped(ids, ws, was, b0.live, b0.log, p, b1.live, conn1, b1.log, limit) && id !in ids && id in ws
    requires OthersStay(ids, b0.live, b0.log, b1.live, b1.log) && OthersStay({id}, b1.live, b1.log, live, log)
    requires conn <= conn1 && id in b1.live
    requires PumpedThen(id, ws[id], w, b1.live[id], b1.log, p(id), live, conn, log, limit)
    ensures AllPumped(ids + {id}, ws, was[id := w], b0.live, b0.log, p, live, conn, log, limit)
    ensures OthersStay(ids + {id}, b0.live, b0.log, live, log)
  {
    hide SentOn, FramesOn, PumpedTo;
    PumpedSince(ids, {id}, ws, was, b0, b1, conn1, p, live, conn, log, limit);
  }

  lemma StillResumed(id: nat, s: Stream, log0: seq<Data>, parked0: int, room: nat, cap: nat,
                     l1: map<nat, Stream>, s1: set<nat>, c1: int, log1: seq<Data>,
                     l2: map<nat, Stream>, s2: set<nat>, c2: int, log2: seq<Data>)
    requires Resumed(id, s, log0, parked0, room, cap, l1, s1, c1, log1) && c2 <= c1
    requires (id in s1 <==> id in s2) && (id in l1 <==> id in l2) && (id in l1 ==> l2[id] == l1[id])
    requires SentOn(log2, id) == SentOn(log1, id) && FramesOn(log2, id) == FramesOn(log1, id)
    ensures Resumed(id, s, log0, parked0, room, cap, l2, s2, c2, log2)
  {
    hide SentOn, FramesOn;
  }

  // ----- Accounts over a run

  /** The streams, what each was granted, and every frame sent. */
  datatype Book = Book(live: map<nat, Stream>, credit: map<nat, nat>, log: seq<Data>)

  /** Streams may go; of those that stay no credit changes and an abandoned one
      stays abandoned; and no frame is forgotten. */
  ghost predicate After(b0: Book, b1: Book) {
    && b0.log <= b1.log
    && forall k :: k in b1.live ==>
         && k in b0.live && k in b0.credit && k in b1.credit && b1.credit[k] == b0.credit[k]
         && (b0.live[k].abandoned ==> b1.live[k].abandoned)
  }

  lemma AfterOn(b0: Book, b1: Book, b2: Book)
    requires After(b0, b1) && After(b1, b2)
    ensures After(b0, b2)
  {
  }

  lemma AfterNone(b: Book)
    requires b.live.Keys <= b.credit.Keys
    ensures After(b, b)
  {
  }

  lemma AfterGone(b: Book, id: nat)
    requires b.live.Keys <= b.credit.Keys
    ensures After(b, Book(b.live - {id}, b.credit - {id}, b.log))
  {
  }

  /** One stream changes, and there may be a frame more. */
  lemma AfterChange(b: Book, id: nat, s: Stream, more: seq<Data>)
    requires b.live.Keys <= b.credit.Keys && id in b.live && (b.live[id].abandoned ==> s.abandoned)
    ensures After(b, Book(b.live[id := s], b.credit, b.log + more))
  {
  }

  class Conn {
    /** `maxPendingWrite` */
    const cap: nat
    /** Every stream object in use, by its stream identifier. */
    var live: map<nat, Stream>
    var h: Homes
    var highest: nat
    var initial: int
    var frameLimit: nat
    var connWindow: int
    var sendingBytes: int
    var parkedBytes: int
    ghost var place: map<nat, Place>
    ghost var credit: map<nat, nat>
    ghost var connCredit: nat
    ghost var log: seq<Data>

    ghost predicate Valid()
      reads this
    {
      Core() && Backed(live, h.sending)
    }

    ghost predicate Core()
      reads this
    {
      && live.Keys == place.Keys && frameLimit > 0
      && Placed(place, h, highest)
      && Counted(live, credit, initial, log, connWindow, connCredit, highest)
      && Accounted(live, h.sending, sendingBytes, parkedBytes, cap)
    }

    constructor (cap: nat)
      ensures Valid() && this.cap == cap && live == map[] && connWindow == DEFAULT_WINDOW && initial == DEFAULT_WINDOW
    {
      this.cap := cap;
      live, h := map[], Homes({}, {}, [], map[]);
      highest, initial, frameLimit, connWindow := 0, DEFAULT_WINDOW, 16384, DEFAULT_WINDOW;
      sendingBytes, parkedBytes := 0, 0;
      place, credit, connCredit, log := map[], map[], 0, [];
    }

    ghost function Books(): Book
      reads this`live, this`credit, this`log
    {
      Book(live, credit, log)
    }

    lemma Keys()
      requires Core()
      ensures live.Keys == credit.Keys
    {
      hide Placed, Accounted, SentOn, SentAll;
    }

    lemma Now()
      requires Core()
      ensures After(Books(), Books())
    {
      hide Placed, Counted, Accounted;
      Keys();
      AfterNone(Books());
    }

    /** A stream goes. */
    lemma Going(id: nat)
      requires Core()
      ensures After(Books(), Book(live - {id}, credit - {id}, log))
    {
      hide Placed, Counted, Accounted, After;
      Keys();
      AfterGone(Books(), id);
    }

    /** A stream changes, and there may be a frame more. */
    lemma Changing(id: nat, s: Stream, more: seq<Data>)
      requires Core() && id in live && (live[id].abandoned ==> s.abandoned)
      ensures After(Books(), Book(live[id := s], credit, log + more))
      ensures more == [] ==> After(Books(), Book(live[id := s], credit, log))
    {
      hide Placed, Counted, Accounted, After;
      Keys();
      AfterChange(Books(), id, s, more);
      if more == [] { assert log + more == log; }
    }

    // ----- Sending

    /** One DATA frame of `n` bytes: `h2ConsumeData`, and the same lines in
        `h2PumpFrames` and `h2PumpFile`. */
    method Consume(id: nat, n: nat)
      requires Valid() && id in live && 0 < n <= live[id].window && n <= connWindow
      modifies this`live, this`connWindow, this`log
      ensures Valid() && live == old(live)[id := old(live)[id].(window := old(live)[id].window - n)]
      ensures connWindow == old(connWindow) - n
              && log == old(log) + [Data(id, n, old(live)[id].window, old(connWindow))]
      ensures After(old(Books()), Books())
    {
      hide Placed, Counted, Accounted, After;
      Changing(id, live[id].(window := live[id].window - n), [Data(id, n, live[id].window, connWindow)]);
      Known(id);
      BackedBut(live, h.sending, id);
      BackedWith(live, h.sending, id, live[id].(window := live[id].window - n));
      CountSent(live, credit, initial, log, connWindow, connCredit, highest, id, n);
      AccountSame(live, h.sending, sendingBytes, parkedBytes, cap, id, live[id].(window := live[id].window - n));
      var x := Data(id, n, live[id].window, connWindow);
      live := live[id := live[id].(window := live[id].window - n)];
      connWindow := connWindow - n;
      log := log + [x];
    }

    /** Where a stream is, from the collection it is in. */
    lemma At(id: nat)
      requires Core()
      ensures id in h.streams ==> id in place && place[id] == Open
      ensures id in h.sending ==> id in place && place[id] == Sending
      ensures id in h.busy ==> id in place && place[id] == Busy
      ensures id in h.writers ==> id in place && place[id] == if h.writers[id].done then Draining else Busy
      ensures id in live ==>
                id in h.streams || id in h.sending || id in h.busy || (id in h.writers && h.writers[id].done)
      ensures id > highest ==> id !in live
      ensures frameLimit > 0 && (id in place <==> id in live)
    {
      hide Counted, Accounted, NoRepeats;
    }

    lemma Known(id: nat)
      requires Core() && id in live
      ensures id <= highest && live[id].respOff <= live[id].bodyLen && id in credit
    {
      hide Holds, HoldsBusy, HoldsWriters, Total, SentOn, SentAll;
    }

    /** `h2AppendWindowed`, `h2SendWindowed` or `h2SealWindowed`, with room for so
        many frames. */
    method EmitWindowed(id: nat, room: nat) returns (done: bool)
      requires Valid() && id in live
      modifies this`live, this`connWindow, this`log
      ensures Valid() && live.Keys == old(live).Keys && (forall k :: k in live && k != id ==> live[k] == old(live)[k])
      ensures live[id] == old(live)[id].(window := live[id].window, respOff := live[id].respOff)
      ensures old(live)[id].respOff <= live[id].respOff
      ensures live[id].respOff - old(live)[id].respOff == old(connWindow) - connWindow
      ensures old(live)[id].window - live[id].window == old(connWindow) - connWindow
      ensures done <==> live[id].respOff == live[id].bodyLen
      ensures |log| <= |old(log)| + room
      ensures done || live[id].window <= 0 || connWindow <= 0 || |log| == |old(log)| + room
      ensures Only(old(log), log, id) && After(old(Books()), Books())
    {
      hide Placed, Counted, Accounted, After, Only, Core, Backed;
      Now();
      Nothing(log, id);
      var left := room;
      At(id);
      Known(id);
      while live[id].respOff < live[id].bodyLen && left > 0
        invariant Valid() && live.Keys == old(live).Keys
                  && (forall k :: k in live && k != id ==> live[k] == old(live)[k])
        invariant live[id] == old(live)[id].(window := live[id].window, respOff := live[id].respOff)
        invariant old(live)[id].respOff <= live[id].respOff <= live[id].bodyLen
        invariant live[id].respOff - old(live)[id].respOff == old(connWindow) - connWindow
        invariant old(live)[id].window - live[id].window == old(connWindow) - connWindow
        invariant |log| + left == |old(log)| + room && Only(old(log), log, id) && After(old(Books()), Books())
        decreases left
      {
        var avail := Min(live[id].window, connWindow);
        if avail <= 0 { break; }
        var n := Min(Min(live[id].bodyLen - live[id].respOff, avail), frameLimit);
        ghost var b := Books();
        EmitChunk(id, n);
        OnlyOn(old(log), b.log, log, id);
        AfterOn(old(Books()), b, Books());
        left := left - 1;
      }
      done := live[id].respOff >= live[id].bodyLen;
    }

    /** The next `n` bytes of a response. */
    method EmitChunk(id: nat, n: nat)
      requires Valid() && id in live && 0 < n <= live[id].window && n <= connWindow
      requires live[id].respOff + n <= live[id].bodyLen
      modifies this`live, this`connWindow, this`log
      ensures Valid() && live == old(live)[id := Advanced(old(live)[id], n)] && connWindow == old(connWindow) - n
      ensures |log| == |old(log)| + 1 && Only(old(log), log, id) && After(old(Books()), Books())
    {
      hide Placed, Counted, Accounted, After, Core, Backed;
      BackedBut(live, h.sending, id);
      Consume(id, n);
      ghost var b := Books();
      SetStream(id, live[id].(respOff := live[id].respOff + n));
      AfterOn(old(Books()), b, Books());
    }

    /** Changes of a stream that are neither its window nor its charges. */
    method SetStream(id: nat, s: Stream)
      requires Valid() && id in live && s.respOff <= s.bodyLen
      requires s.window == live[id].window && s.stall == live[id].stall && s.parked == live[id].parked
      requires id in h.sending ==> s.bodyLen - s.respOff <= s.parked
      modifies this`live
      ensures Valid() && live == old(live)[id := s]
      ensures (old(live)[id].abandoned ==> s.abandoned) ==> After(old(Books()), Books())
    {
      hide Placed, Counted, Accounted, After;
      if live[id].abandoned ==> s.abandoned { Changing(id, s, []); }
      BackedBut(live, h.sending, id);
      BackedWith(live, h.sending, id, s);
      CountSame(live, credit, initial, log, connWindow, connCredit, highest, id, s);
      AccountSame(live, h.sending, sendingBytes, parkedBytes, cap, id, s);
      live := live[id := s];
    }

    // ----- Responses being sent

    /** `releaseSending` */
    method ReleaseSending(id: nat)
      requires Core() && Backed(live, h.sending - {id}) && id in h.sending
      modifies this`live, this`h, this`sendingBytes, this`parkedBytes, this`place, this`credit
      ensures Valid() && live == old(live) - {id} && h == old(h).(sending := old(h).sending - {id})
      ensures sendingBytes == old(sendingBytes) - old(live)[id].stall
              && parkedBytes == old(parkedBytes) - old(live)[id].parked
      ensures credit == old(credit) - {id}
      ensures After(old(Books()), Books())
    {
      hide Placed, Counted, Accounted, After;
      At(id);
      PlaceGone(place, h, highest, id);
      CountGone(live, credit, initial, log, connWindow, connCredit, highest, id);
      AccountGone(live, h.sending, sendingBytes, parkedBytes, cap, id);
      Going(id);
      BackedWithout(live, h.sending, id);
      sendingBytes := sendingBytes - live[id].stall;
      parkedBytes := parkedBytes - live[id].parked;
      h := h.(sending := h.sending - {id});
      live := live - {id};
      place := place - {id};
      credit := credit - {id};
    }

    /** `h2SettleParked`: what a response still holds is charged, and a response
        that takes the connection over a cap is reset, its charge taken back. */
    method Settle(id: nat)
      requires Core() && Backed(live, h.sending - {id}) && id in h.sending
      modifies this`live, this`h, this`sendingBytes, this`parkedBytes, this`place, this`credit
      ensures Valid()
      ensures if id in h.sending then h == old(h) && live == old(live)[id := Charged(old(live)[id], connWindow)]
              else h == old(h).(sending := old(h).sending - {id}) && live == old(live) - {id}
      ensures id in old(live) && old(live)[id].respOff <= old(live)[id].bodyLen
      ensures id in h.sending <==> !OverCap(old(live)[id], connWindow, old(sendingBytes), old(parkedBytes), cap)
      ensures parkedBytes == old(parkedBytes) - old(live)[id].parked
                             + if id in h.sending then old(live)[id].bodyLen - old(live)[id].respOff else 0
      ensures credit == old(credit) || credit == old(credit) - {id}
      ensures After(old(Books()), Books())
    {
      hide Placed, Counted, Accounted, After;
      At(id);
      Known(id);
      var s := live[id];
      var pending := s.bodyLen - s.respOff;
      var stall := if s.window <= 0 || connWindow <= 0 then pending else 0;
      assert Charged(s, connWindow) == s.(stall := stall, parked := pending);
      AccountCharge(live, h.sending, sendingBytes, parkedBytes, cap, id, stall, pending);
      CountSame(live, credit, initial, log, connWindow, connCredit, highest, id, s.(stall := stall, parked := pending));
      var stalled, parked := sendingBytes + stall - s.stall, parkedBytes + pending - s.parked;
      if (stall > 0 && stalled > cap) || parked > cap * HARD_FACTOR {
        ReleaseSending(id);
      } else {
        Changing(id, s.(stall := stall, parked := pending), []);
        BackedWith(live, h.sending, id, s.(stall := stall, parked := pending));
        sendingBytes, parkedBytes := stalled, parked;
        live := live[id := s.(stall := stall, parked := pending)];
      }
    }

    /** A response `s` was sent as far as windows and room allow. It is parked if and
        only if it is not complete and fits the caps; otherwise it is gone. */
    ghost predicate Sent(s: Stream, conn: int, stalled: int, parked: int, frames: nat, room: nat, id: nat)
      reads this
    {
      && connWindow <= conn && s.respOff + (conn - connWindow) <= s.bodyLen && |log| <= frames + room
      && var now := Advanced(s, conn - connWindow);
         && (now.respOff < now.bodyLen ==> now.window <= 0 || connWindow <= 0 || |log| == frames + room)
         && (id in h.sending <==> now.respOff < now.bodyLen && !OverCap(now, connWindow, stalled, parked, cap))
         && (id in live <==> id in h.sending)
         && (id in live ==> live[id] == Charged(now, connWindow))
    }

    /** `h2ResumeStream` */
    method Resume(id: nat, room: nat)
      requires Valid() && id in h.sending
      modifies this`live, this`h, this`connWindow, this`log, this`sendingBytes, this`parkedBytes, this`place,
               this`credit
      ensures Valid() && (h == old(h) || h == old(h).(sending := old(h).sending - {id}))
      ensures credit == old(credit) || credit == old(credit) - {id}
      ensures id in old(live)
              && Sent(old(live)[id], old(connWindow), old(sendingBytes), old(parkedBytes), old(|log|), room, id)
      ensures Only(old(log), log, id) && After(old(Books()), Books())
      ensures SentOn(log, id) - SentOn(old(log), id) == old(connWindow) - connWindow
      ensures live.Keys <= old(live).Keys
      ensures forall k :: k in old(live) && k != id ==> k in live && live[k] == old(live)[k]
      ensures parkedBytes <= old(parkedBytes)
      ensures id !in h.sending && old(live)[id].respOff + (old(connWindow) - connWindow) < old(live)[id].bodyLen ==>
                old(parkedBytes) > cap
                && (connWindow <= 0 || old(live)[id].window - (old(connWindow) - connWindow) <= 0)
    {
      hide Placed, Counted, Accounted, OverCap, After, Only, Core, Backed, SentOn, SentAll;
      Now();
      At(id);
      Known(id);
      Windows(0);
      var done := EmitWindowed(id, room);
      Windows(0);
      OnlyCounts(old(log), log, id);
      ghost var b := Books();
      BackedBut(live, h.sending, id);
      Reasons(id);
      Known(id);
      if done { ReleaseSending(id); } else { Settle(id); }
      AfterOn(old(Books()), b, Books());
    }

    /** Why a response that is being sent may have to go, and what its charge does. */
    lemma Reasons(id: nat)
      requires Valid() && id in h.sending
      ensures id in live && 0 <= live[id].bodyLen - live[id].respOff <= live[id].parked
      ensures OverCap(live[id], connWindow, sendingBytes, parkedBytes, cap) ==>
                parkedBytes > cap && (live[id].window <= 0 || connWindow <= 0)
    {
      hide Placed, Counted, OverCap, Total;
      if OverCap(live[id], connWindow, sendingBytes, parkedBytes, cap) {
        OverStalled(live, h.sending, sendingBytes, parkedBytes, cap, id, connWindow);
      }
    }

    /** What `Resume` says of a response, as `Resumed` puts it. */
    lemma JustResumed(id: nat, s: Stream, log0: seq<Data>, parked0: int, room: nat, log1: seq<Data>, conn: int,
                      stalled: int, parked: int)
      requires Sent(s, conn, stalled, parked, |log1|, room, id) && parked <= parked0
      requires SentOn(log1, id) == SentOn(log0, id) && FramesOn(log1, id) == FramesOn(log0, id)
      requires SentOn(log, id) - SentOn(log1, id) == conn - connWindow
      requires FramesOn(log, id) - FramesOn(log1, id) == |log| - |log1| >= 0
      requires id !in h.sending && s.respOff + (conn - connWindow) < s.bodyLen ==>
                 parked > cap && (connWindow <= 0 || s.window - (conn - connWindow) <= 0)
      ensures Resumed(id, s, log0, parked0, room, cap, live, h.sending, connWindow, log)
    {
      hide SentOn, FramesOn, OverCap;
    }

    lemma InLive()
      requires Core()
      ensures h.sending <= live.Keys
    {
      hide Placed, Counted;
    }

    lemma NoneResumed(room: nat -> nat)
      ensures AllResumed({}, live, log, parkedBytes, room, cap, live, h.sending, connWindow, log)
      ensures OthersStay({}, live, log, live, log)
    {
      hide SentOn, FramesOn, Resumed;
    }

    /** One more response is resumed, behind those of `ids`. */
    method ResumeOne(id: nat, room: nat -> nat, ghost ids: set<nat>, ghost b0: Book, ghost parked0: int)
      requires Valid() && id in h.sending && id !in ids && id in b0.live
      requires After(b0, Books()) && parkedBytes <= parked0
      requires AllResumed(ids, b0.live, b0.log, parked0, room, cap, live, h.sending, connWindow, log)
      requires OthersStay(ids, b0.live, b0.log, live, log)
      modifies this`live, this`h, this`connWindow, this`log, this`sendingBytes, this`parkedBytes, this`place,
               this`credit
      ensures Valid() && (h == old(h) || h == old(h).(sending := old(h).sending - {id}))
      ensures After(b0, Books()) && parkedBytes <= parked0 && connWindow <= old(connWindow)
      ensures AllResumed(ids + {id}, b0.live, b0.log, parked0, room, cap, live, h.sending, connWindow, log)
      ensures OthersStay(ids + {id}, b0.live, b0.log, live, log)
    {
      hide Placed, Counted, Accounted, After, Core, Backed, Only, SentOn, FramesOn, Resumed, OverCap, Conn.Sent;
      ghost var b, conn, sending, stalled, parked := Books(), connWindow, h.sending, sendingBytes, parkedBytes;
      Resume(id, room(id));
      AfterOn(b0, b, Books());
      OnlyCounts(b.log, log, id);
      forall k | k in ids
        ensures Resumed(k, b0.live[k], b0.log, parked0, room(k), cap, live, h.sending, connWindow, log)
      {
        StillResumed(k, b0.live[k], b0.log, parked0, room(k), cap, b.live, sending, conn, b.log,
                     live, h.sending, connWindow, log);
      }
      JustResumed(id, b0.live[id], b0.log, parked0, room(id), b.log, conn, stalled, parked);
    }

    /** `h2ResumeSending(0)`, in whatever order the map gives: every response is sent
        as far as it goes. */
    method ResumeAll(room: nat -> nat)
      requires Valid()
      modifies this`live, this`h, this`connWindow, this`log, this`sendingBytes, this`parkedBytes, this`place,
               this`credit
      ensures Valid() && h == old(h).(sending := h.sending) && h.sending <= old(h).sending
      ensures After(old(Books()), Books()) && connWindow <= old(connWindow)
      ensures AllResumed(old(h).sending, old(live), old(log), old(parkedBytes), room, cap, live, h.sending, connWindow,
                         log)
      ensures OthersStay(old(h).sending, old(live), old(log), live, log)
    {
      hide After, Core, Backed, AllResumed, OthersStay;
      Now();
      InLive();
      NoneResumed(room);
      var todo := h.sending;
      ghost var did := {};
      while todo != {}
        invariant Valid() && todo <= h.sending <= old(h).sending && h == old(h).(sending := h.sending)
        invariant After(old(Books()), Books()) && parkedBytes <= old(parkedBytes) && connWindow <= old(connWindow)
        invariant did + todo == old(h).sending && did !! todo
        invariant AllResumed(did, old(live), old(log), old(parkedBytes), room, cap, live, h.sending, connWindow, log)
        invariant OthersStay(did, old(live), old(log), live, log)
        decreases |todo|
      {
        var id :| id in todo;
        ResumeOne(id, room, did, old(Books()), old(parkedBytes));
        todo := todo - {id};
        did := did + {id};
      }
      assert did == old(h).sending;
    }

    // ----- Streams come and go

    /** A new stream whose body is still to come, or which goes to a handler at
        once. A refused one only counts as seen. */
    method NewStream(id: nat, refused: bool, complete: bool)
      requires Valid() && id > highest
      modifies this`live, this`h, this`highest, this`place, this`credit
      ensures Valid() && highest == id
      ensures refused ==> live == old(live) && h == old(h)
      ensures live.Keys == credit.Keys && credit == if refused then old(credit) else old(credit)[id := 0]
      ensures !refused ==> id !in old(live) && live == old(live)[id := Stream(initial, 0, 0, 0, 0, false)]
      ensures !refused ==>
                h == if complete then old(h).(busy := [id] + old(h).busy) else old(h).(streams := old(h).streams + {id})
    {
      hide Placed, Counted, Accounted, After;
      Keys();
      Now();
      var s := Stream(initial, 0, 0, 0, 0, false);
      At(id);
      PlaceNew(place, h, highest, id);
      CountNew(live, credit, initial, log, connWindow, connCredit, highest, id, s);
      AccountSame(live, h.sending, sendingBytes, parkedBytes, cap, id, s);
      BackedBut(live, h.sending, id);
      BackedWith(live, h.sending, id, s);
      highest := id;
      if refused { return; }
      live := live[id := s];
      credit := credit[id := 0];
      if complete {
        h := h.(busy := [id] + h.busy);
        place := place[id := Busy];
      } else {
        h := h.(streams := h.streams + {id});
        place := place[id := Open];
      }
    }

    /** `epollH2Dispatch`, once a body is complete or is to be streamed. */
    method Dispatch(id: nat)
      requires Valid() && id in h.streams
      modifies this`h, this`place
      ensures Valid() && h == old(h).(streams := old(h).streams - {id}, busy := [id] + old(h).busy)
    {
      hide Placed, Counted, Accounted;
      At(id);
      PlaceDispatched(place, h, highest, id);
      h := h.(streams := h.streams - {id}, busy := [id] + h.busy);
      place := place[id := Busy];
    }

    /** A stream that is not being sent is done with. */
    method Forget(id: nat)
      requires Valid() && id in live && id !in h.sending
      modifies this`live, this`h, this`place, this`credit
      ensures Valid() && live == old(live) - {id}
      ensures h == Homes(old(h).streams - {id}, old(h).sending, Without(old(h).busy, id), old(h).writers - {id})
      ensures After(old(Books()), Books())
    {
      hide Placed, Counted, Accounted, After;
      At(id);
      PlaceGone(place, h, highest, id);
      CountGone(live, credit, initial, log, connWindow, connCredit, highest, id);
      AccountGone(live, h.sending, sendingBytes, parkedBytes, cap, id);
      Uncharged(id);
      Going(id);
      BackedBut(live, h.sending, id);
      BackedWithout(live, h.sending, id);
      assert h.sending - {id} == h.sending;
      h := Homes(h.streams - {id}, h.sending, Without(h.busy, id), h.writers - {id});
      live := live - {id};
      place := place - {id};
      credit := credit - {id};
    }

    lemma Uncharged(id: nat)
      requires Core() && id in live && id !in h.sending
      ensures live[id].stall == 0 && live[id].parked == 0 && place[id] != Sending
    {
      hide Counted, HoldsBusy, HoldsWriters, UpTo;
    }

    // ----- Streaming responses

    /** The DATA loop of `h2PumpFrames`. */
    method PumpBuffered(id: nat, room: nat) returns (w: Writer)
      requires Valid() && id in h.writers && id in live
      modifies this`live, this`connWindow, this`log
      ensures Valid() && |log| <= |old(log)| + room
      ensures SentOnly(id, old(live), old(connWindow), old(log), live, connWindow, log)
      ensures w == h.writers[id].(buffered := w.buffered, finished := w.finished)
      ensures h.writers[id].finished ==> w == h.writers[id] && connWindow == old(connWindow)
      ensures !h.writers[id].finished ==>
                (w.finished <==> w.ended && w.buffered == 0 && h.writers[id].buffered > 0)
      ensures w.buffered + (old(connWindow) - connWindow) == h.writers[id].buffered
      ensures h.writers[id].finished || w.buffered == 0 || live[id].window <= 0 || connWindow <= 0
              || |log| == |old(log)| + room
      ensures After(old(Books()), Books())
    {
      hide Placed, Counted, Accounted, After, Core, Backed, SentOnly;
      Now();
      At(id);
      NoneSent(id);
      w := h.writers[id];
      if w.finished { return; }
      var left := room;
      while w.buffered > 0 && left > 0
        invariant Valid() && SentOnly(id, old(live), old(connWindow), old(log), live, connWindow, log) && id in live
        invariant w == h.writers[id].(buffered := w.buffered, finished := w.finished)
        invariant w.finished <==> w.ended && w.buffered == 0 && h.writers[id].buffered > 0
        invariant w.buffered + (old(connWindow) - connWindow) == h.writers[id].buffered
        invariant |log| + left == |old(log)| + room && connWindow <= old(connWindow) && After(old(Books()), Books())
        decreases left
      {
        var avail := Min(live[id].window, connWindow);
        if avail <= 0 { break; }
        var n := Min(Min(w.buffered, avail), frameLimit);
        ghost var b, conn := Books(), connWindow;
        Consume(id, n);
        AfterOn(old(Books()), b, Books());
        MoreSent(id, old(live), old(connWindow), old(log), b.live, conn, b.log, live, connWindow, log, n);
        w := w.(buffered := w.buffered - n, finished := w.ended && n == w.buffered);
        left := left - 1;
      }
    }

    lemma NoneSent(id: nat)
      requires id in live
      ensures SentOnly(id, live, connWindow, log, live, connWindow, log)
    {
      assert live[id := live[id].(window := live[id].window - 0)] == live;
    }

    /** `h2PumpFile`: frames for what fits the windows and the room. If the read
        comes up short, the frames are dropped again and nothing has happened; if
        it fails, the writer has failed and the rest of the file is dropped. */
    method PumpFile(id: nat, w: Writer, room: nat, read: FileRead) returns (now: Writer)
      requires Valid() && id in live && !w.failed
      modifies this`live, this`connWindow, this`log
      ensures Valid() && SentOnly(id, old(live), old(connWindow), old(log), live, connWindow, log)
      ensures var fits := Min(Min(old(live)[id].window, old(connWindow)), w.fileLeft);
              var avail := Min(fits, Min(room, frameLimit * FILE_FRAMES));
              var sent := if avail <= 0 || !read.Whole? then 0 else avail;
              && connWindow == old(connWindow) - sent && sent <= w.fileLeft
              && now == if avail > 0 && read.Broken? then w.(fileLeft := 0, failed := true)
                else w.(fileLeft := w.fileLeft - sent)
      ensures After(old(Books()), Books())
    {
      hide Placed, Counted, Accounted, After, Core, Backed, SentOnly;
      Now();
      At(id);
      NoneSent(id);
      now := w;
      var avail := Min(Min(Min(live[id].window, connWindow), w.fileLeft), Min(room, frameLimit * FILE_FRAMES));
      if avail <= 0 || read.Short? { return; }
      if read.Broken? { return w.(fileLeft := 0, failed := true); }
      var left := avail;
      while left > 0
        invariant Valid() && SentOnly(id, old(live), old(connWindow), old(log), live, connWindow, log)
        invariant 0 <= left <= avail && id in live
        invariant live[id].window == old(live)[id].window - (avail - left)
        invariant connWindow == old(connWindow) - (avail - left) && After(old(Books()), Books())
        decreases left
      {
        var n := Min(left, frameLimit);
        ghost var b, conn := Books(), connWindow;
        Consume(id, n);
        AfterOn(old(Books()), b, Books());
        MoreSent(id, old(live), old(connWindow), old(log), b.live, conn, b.log, live, connWindow, log, n);
        left := left - n;
      }
      now := w.(fileLeft := w.fileLeft - avail);
    }

    /** `h2PumpSealed`: `h2PumpFrames`, then `h2SettleStream`. A writer that failed
        sends no more. */
    method Pump(id: nat, p: Pumping) returns (ghost w: Writer)
      requires Valid() && id in h.writers
      modifies this`live, this`h, this`connWindow, this`log, this`place, this`credit
      ensures Valid() && Pumped(id, old(h).writers[id], w, old(live), old(connWindow), old(log), p)
      ensures w.done == old(h).writers[id].done
      ensures h == old(h).(writers := if w.finished && w.done then old(h).writers - {id} else old(h).writers[id := w])
      ensures After(old(Books()), Books())
    {
      hide Placed, Counted, Accounted, After, Core, Backed, SentOnly, PumpedTo;
      At(id);
      Windows(0);
      var now := PumpFrames(id, p);
      ghost var b := Books();
      SettleWriter(id, now);
      AfterOn(old(Books()), b, Books());
      StillPumped(id, old(h).writers[id], now, old(live), old(connWindow), old(log), p, b.live);
      w := now;
    }

    /** A writer was pumped, and nothing else was sent; its stream may be gone. */
    ghost predicate Pumped(id: nat, w0: Writer, w1: Writer, l0: map<nat, Stream>, conn0: int, log0: seq<Data>,
                           p: Pumping)
      reads this
    {
      && id in l0 && Only(log0, log, id) && connWindow <= conn0 && live.Keys <= l0.Keys
      && SentOn(log, id) - SentOn(log0, id) == conn0 - connWindow
      && (forall k :: k in l0 && k != id ==> k in live && live[k] == l0[k])
      && (id in live ==> live[id] == l0[id].(window := l0[id].window - (conn0 - connWindow)))
      && PumpedTo(w0, w1, conn0 - connWindow, |log| - |log0|,
                  l0[id].window - (conn0 - connWindow) <= 0 || connWindow <= 0, p, frameLimit)
    }

    lemma StillPumped(id: nat, w0: Writer, w1: Writer, l0: map<nat, Stream>, conn0: int, log0: seq<Data>, p: Pumping,
                      l1: map<nat, Stream>)
      requires Valid() && SentOnly(id, l0, conn0, log0, l1, connWindow, log) && (live == l1 || live == l1 - {id})
      requires conn0 == DEFAULT_WINDOW + connCredit - SentAll(log0)
      requires PumpedTo(w0, w1, conn0 - connWindow, |log| - |log0|,
                        l0[id].window - (conn0 - connWindow) <= 0 || connWindow <= 0, p, frameLimit)
      ensures Pumped(id, w0, w1, l0, conn0, log0, p)
    {
      hide PumpedTo, SentOn, SentAll, Core, Backed;
      Windows(0);
      OnlyCounts(log0, log, id);
    }

    /** `h2PumpFrames`: what the buffer and then the file have, as far as it goes. */
    method PumpFrames(id: nat, p: Pumping) returns (w: Writer)
      requires Valid() && id in h.writers && id in live
      modifies this`live, this`connWindow, this`log
      ensures Valid() && After(old(Books()), Books())
      ensures SentOnly(id, old(live), old(connWindow), old(log), live, connWindow, log)
      ensures w.done == h.writers[id].done
      ensures PumpedTo(h.writers[id], w, old(connWindow) - connWindow, |log| - |old(log)|,
                       old(live)[id].window - (old(connWindow) - connWindow) <= 0 || connWindow <= 0, p, frameLimit)
    {
      hide Placed, Counted, Accounted, After, Core, Backed;
      Now();
      NoneSent(id);
      w := h.writers[id];
      if w.finished { return; }
      if p.failed || w.failed { return w.(finished := true, failed := true); }
      w := PumpBuffered(id, p.room);
      if w.buffered == 0 && w.fileLeft > 0 {
        ghost var b, conn := Books(), connWindow;
        w := PumpFile(id, w, p.fileRoom, p.read);
        AfterOn(old(Books()), b, Books());
        BothSent(id, old(live), old(connWindow), old(log), b.live, conn, b.log, live, connWindow, log);
      }
      if !w.finished && w.ended && w.buffered == 0 { w := w.(finished := true); }
    }

    /** `h2SettleStream`: a finished writer whose handler has returned goes with its
        stream. */
    method SettleWriter(id: nat, w: Writer)
      requires Valid() && id in h.writers && w.done == h.writers[id].done
      modifies this`live, this`h, this`place, this`credit
      ensures Valid() && After(old(Books()), Books())
      ensures h == old(h).(writers := if w.finished && w.done then old(h).writers - {id} else old(h).writers[id := w])
      ensures live == if w.finished && w.done then old(live) - {id} else old(live)
    {
      hide Placed, Counted, Accounted, After, Without;
      Now();
      At(id);
      PlaceWriter(place, h, highest, id, w);
      h := h.(writers := h.writers[id := w]);
      if w.finished && w.done {
        At(id);
        NotSending(id);
        Forget(id);
        assert h.writers == old(h).writers - {id};
      }
    }

    lemma NotSending(id: nat)
      requires Core() && id in h.writers
      ensures id !in h.sending && id !in h.streams && (h.writers[id].done ==> id !in h.busy)
      ensures id !in h.busy ==> Without(h.busy, id) == h.busy
    {
      hide Counted, Accounted, UpTo, NoRepeats;
      if id !in h.busy { WithoutNone(h.busy, id); }
    }

    /** `h2PumpTask`: a writer is registered at its first pump. */
    method PumpTask(id: nat, w: Writer, p: Pumping) returns (ghost now: Writer)
      requires Valid() && (id in h.writers || (id in h.busy && !w.done))
      modifies this`live, this`h, this`connWindow, this`log, this`place, this`credit
      ensures Valid() && After(old(Books()), Books())
      ensures Pumped(id, if id in old(h).writers then old(h).writers[id] else w, now, old(live), old(connWindow),
                     old(log), p)
      ensures h == old(h).(writers := if now.finished && now.done then old(h).writers - {id}
                                      else old(h).writers[id := now])
    {
      hide Placed, Counted, Accounted, After;
      Now();
      if id !in h.writers {
        At(id);
        PlaceWriter(place, h, highest, id, w);
        h := h.(writers := h.writers[id := w]);
      }
      now := Pump(id, p);
    }

    /** The handler writes, names a file or ends. */
    method HandlerWrites(id: nat, more: nat, file: nat, end: bool)
      requires Valid() && id in h.writers && !h.writers[id].done
      modifies this`h
      ensures Valid()
      ensures var w := old(h).writers[id];
              h == old(h).(writers := old(h).writers[id := w.(buffered := w.buffered + more, fileLeft := file,
                                                              ended := w.ended || end)])
    {
      hide Placed, Counted, Accounted;
      var w := h.writers[id];
      w := w.(buffered := w.buffered + more, fileLeft := file, ended := w.ended || end);
      At(id);
      PlaceWriter(place, h, highest, id, w);
      h := h.(writers := h.writers[id := w]);
    }

    /** `h2FinishStreamed`, for a writer that has sent its headers. */
    method FinishStreamed(id: nat, w: Writer, p: Pumping) returns (ghost now: Writer)
      requires Valid() && id in h.busy
      modifies this`live, this`h, this`connWindow, this`log, this`place, this`credit
      ensures Valid() && h.busy == Without(old(h).busy, id) && h.streams == old(h).streams
              && h.sending == old(h).sending
      ensures w.finished ==> live == old(live) - {id} && connWindow == old(connWindow) && log == old(log)
      ensures !w.finished ==>
                now.done && Pumped(id, w.(done := true, ended := true), now, old(live), old(connWindow), old(log), p)
      ensures h.writers == if w.finished || now.finished then old(h).writers - {id} else old(h).writers[id := now]
      ensures After(old(Books()), Books())
    {
      hide Placed, Counted, Accounted, Without, After;
      Now();
      At(id);
      if w.finished {
        BusyOnly(id);
        Forget(id);
        assert h.streams == old(h).streams;
        return w;
      }
      var done := w.(done := true, ended := true);
      PlaceDraining(place, h, highest, id, done);
      h := h.(busy := Without(h.busy, id), writers := h.writers[id := done]);
      place := place[id := Draining];
      now := Pump(id, p);
    }

    lemma BusyOnly(id: nat)
      requires Core() && id in h.busy
      ensures id !in h.sending && id !in h.streams
    {
      hide Counted, Accounted, UpTo, NoRepeats, HoldsWriters;
    }

    /** `finishH2Dispatch` of a response in a buffer: sent as far as windows and
        room allow, the rest parked. */
    method FinishBuffered(id: nat, bodyLen: nat, room: nat)
      requires Valid() && id in h.busy
      modifies this`live, this`h, this`connWindow, this`log, this`sendingBytes, this`parkedBytes, this`place,
               this`credit
      ensures Valid()
              && h == old(h).(busy := Without(old(h).busy, id), sending := h.sending, writers := old(h).writers - {id})
      ensures h.sending == if id in h.sending then old(h).sending + {id} else old(h).sending
      ensures id in old(live)
      ensures old(live)[id].abandoned ==> live == old(live) - {id} && log == old(log) && connWindow == old(connWindow)
      ensures !old(live)[id].abandoned ==>
                Sent(old(live)[id].(bodyLen := bodyLen, respOff := 0), old(connWindow), old(sendingBytes),
                  old(parkedBytes), old(|log|), room, id)
      ensures After(old(Books()), Books())
    {
      hide Placed, Counted, Accounted, Without, OverCap, Charged, After;
      Now();
      At(id);
      BusyOnly(id);
      Known(id);
      if id in h.writers {
        PlaceWriter(place, h, highest, id, h.writers[id]);
        h := h.(writers := h.writers - {id});
      }
      if live[id].abandoned {
        Forget(id);
        return;
      }
      SetStream(id, live[id].(bodyLen := bodyLen, respOff := 0));
      ghost var b := Books();
      SendBuffered(id, room);
      AfterOn(old(Books()), b, Books());
    }

    /** As much of a response as may be sent at once; the rest is parked. */
    method SendBuffered(id: nat, room: nat)
      requires Valid() && id in h.busy && id !in h.writers
      modifies this`live, this`h, this`connWindow, this`log, this`sendingBytes, this`parkedBytes, this`place,
               this`credit
      ensures Valid() && h == old(h).(busy := Without(old(h).busy, id), sending := h.sending)
      ensures h.sending == if id in h.sending then old(h).sending + {id} else old(h).sending
      ensures id in old(live)
              && Sent(old(live)[id], old(connWindow), old(sendingBytes), old(parkedBytes), old(|log|), room, id)
      ensures After(old(Books()), Books())
    {
      hide Placed, Counted, Accounted, Without, OverCap, Charged, After, Core, Backed;
      Now();
      At(id);
      BusyOnly(id);
      Known(id);
      var done := EmitWindowed(id, room);
      Known(id);
      ghost var b := Books();
      if done {
        Forget(id);
      } else {
        Park(id);
      }
      AfterOn(old(Books()), b, Books());
    }

    /** What is left of a response waits among those being sent, if it may. */
    method Park(id: nat)
      requires Valid() && id in h.busy && id !in h.writers
      modifies this`live, this`h, this`sendingBytes, this`parkedBytes, this`place, this`credit
      ensures Valid() && id in old(live) && old(live)[id].respOff <= old(live)[id].bodyLen
      ensures id in h.sending <==> !OverCap(old(live)[id], connWindow, old(sendingBytes), old(parkedBytes), cap)
      ensures h == old(h).(busy := Without(old(h).busy, id),
                           sending := if id in h.sending then old(h).sending + {id} else old(h).sending)
      ensures live == if id in h.sending then old(live)[id := Charged(old(live)[id], connWindow)] else old(live) - {id}
      ensures After(old(Books()), Books())
    {
      hide Placed, Counted, Accounted, Without, OverCap, Charged, After;
      Now();
      At(id);
      BusyOnly(id);
      Known(id);
      PlaceSending(place, h, highest, id);
      assert h.sending + {id} - {id} == h.sending;
      AccountSend(live, h.sending, sendingBytes, parkedBytes, cap, id);
      h := h.(busy := Without(h.busy, id), sending := h.sending + {id});
      place := place[id := Sending];
      Settle(id);
    }

    ghost function State(): Before
      reads this
    {
      Before(live, h, highest, initial, frameLimit, connWindow, sendingBytes, parkedBytes, log)
    }

    ghost predicate AsBefore(s: Before)
      reads this
    {
      live == s.live && h == s.h && connWindow == s.connWindow && log == s.log
    }

    /** A stream was reset: it is left at most with its handler. */
    ghost predicate WasReset(s: Before, id: nat)
      reads this
    {
      && h == Homes(s.h.streams - {id}, s.h.sending - {id}, s.h.busy, s.h.writers - {id})
      && live == (if id in s.h.busy && id in s.live then s.live[id := s.live[id].(abandoned := true)]
                  else s.live - {id})
      && connWindow == s.connWindow && log == s.log
    }

    /** A stream was given an increment, and a response being sent on it was resumed;
        an increment that overflows the window, or of nothing, resets it. */
    ghost predicate WasCredited(s: Before, id: nat, n: nat, room: nat)
      reads this
    {
      if id !in s.live || n == 0 || s.live[id].window + n > MAX_WINDOW then WasReset(s, id)
      else
        var moved := s.live[id].(window := s.live[id].window + n);
        if id !in s.h.sending then live == s.live[id := moved] && h == s.h && log == s.log
        else
          && h == s.h.(sending := h.sending) && h.sending + {id} == s.h.sending
          && (forall k :: k in s.live && k != id ==> k in live && live[k] == s.live[k])
          && Sent(moved, s.connWindow, s.sendingBytes, s.parkedBytes, |s.log|, room, id)
    }

    /** `h2CancelStreaming` */
    method CancelStreaming(id: nat)
      requires Valid()
      modifies this`live, this`h, this`place, this`credit
      ensures Valid() && h == old(h).(writers := old(h).writers - {id})
      ensures live == if id in old(h).writers && old(h).writers[id].done then old(live) - {id} else old(live)
      ensures After(old(Books()), Books())
    {
      hide Placed, Counted, Accounted, Without, After;
      Now();
      if id !in h.writers {
        assert h.writers - {id} == h.writers;
        return;
      }
      At(id);
      NotSending(id);
      if h.writers[id].done {
        Forget(id);
      } else {
        PlaceWriter(place, h, highest, id, h.writers[id]);
        h := h.(writers := h.writers - {id});
      }
    }

    /** `abandonH2Stream` */
    method Abandon(id: nat)
      requires Valid()
      modifies this`live, this`h, this`sendingBytes, this`parkedBytes, this`place, this`credit
      ensures Valid()
      ensures WasReset(old(State()), id) && (id in live ==> live[id].abandoned)
      ensures After(old(Books()), Books())
    {
      hide Placed, Counted, Accounted, Without, After, Core, Backed;
      Now();
      At(id);
      if id in h.streams {
        OpenOnly(id);
        Forget(id);
      }
      if id in h.sending {
        ghost var b := Books();
        BackedBut(live, h.sending, id);
        ReleaseSending(id);
        AfterOn(old(Books()), b, Books());
      }
      assert h == Homes(old(h).streams - {id}, old(h).sending - {id}, old(h).busy, h.writers);
      At(id);
      ghost var b := Books();
      if id in h.busy && !live[id].abandoned {
        Known(id);
        SetStream(id, live[id].(abandoned := true));
        AfterOn(old(Books()), b, Books());
      }
      b := Books();
      CancelStreaming(id);
      AfterOn(old(Books()), b, Books());
      At(id);
    }

    lemma OpenOnly(id: nat)
      requires Core() && id in h.streams
      ensures id !in h.sending && id !in h.busy && id !in h.writers && Without(h.busy, id) == h.busy
              && h.writers - {id} == h.writers
    {
      hide Counted, Accounted, UpTo, NoRepeats;
      if id !in h.busy { WithoutNone(h.busy, id); }
    }

    // ----- What the peer says

    /** `h2CreditWindow` */
    method Credit(id: nat, n: nat) returns (ok: bool)
      requires Valid() && id in live
      modifies this`live, this`credit
      ensures Valid() && (ok <==> old(live)[id].window + n <= MAX_WINDOW)
      ensures live == if ok then old(live)[id := old(live)[id].(window := old(live)[id].window + n)] else old(live)
      ensures id in old(credit) && credit == if ok then old(credit)[id := old(credit)[id] + n] else old(credit)
    {
      hide Placed, Counted, Accounted;
      ok := live[id].window + n <= MAX_WINDOW;
      Known(id);
      if ok {
        CountCredit(live, credit, initial, log, connWindow, connCredit, highest, id, n);
        AccountSame(live, h.sending, sendingBytes, parkedBytes, cap, id, live[id].(window := live[id].window + n));
        BackedBut(live, h.sending, id);
        BackedWith(live, h.sending, id, live[id].(window := live[id].window + n));
        live := live[id := live[id].(window := live[id].window + n)];
        credit := credit[id := credit[id] + n];
      }
    }

    /** `epollH2WindowUpdate` for the connection. */
    method ConnUpdate(n: nat, room: nat -> nat) returns (ok: bool)
      requires Valid()
      modifies this`live, this`h, this`connWindow, this`log, this`sendingBytes, this`parkedBytes, this`place,
               this`credit, this`connCredit
      ensures ok ==> Valid()
      ensures ok <==> 0 < n && old(connWindow) + n <= MAX_WINDOW
      ensures ok ==> connCredit == old(connCredit) + n && After(old(Books()), Books())
      ensures ok ==> h == old(h).(sending := h.sending) && OthersStay(old(h).sending, old(live), old(log), live, log)
      ensures ok ==>
                AllResumed(old(h).sending, old(live), old(log), old(parkedBytes), room, cap, live, h.sending,
                           connWindow, log)
    {
      hide Placed, Counted, Accounted, After, AllResumed, OthersStay;
      Now();
      if n == 0 { return false; }
      CountCredit(live, credit, initial, log, connWindow, connCredit, highest, 0, n);
      connWindow := connWindow + n;
      connCredit := connCredit + n;
      if connWindow > MAX_WINDOW { return false; }
      ResumeAll(room);
      ok := true;
    }

    /** `epollH2WindowUpdate` for a stream: credit goes to the stream wherever it is,
        and one that would overflow, or of nothing, resets it. */
    method StreamUpdate(id: nat, n: nat, room: nat)
      requires Valid()
      modifies this`live, this`h, this`connWindow, this`log, this`sendingBytes, this`parkedBytes, this`place,
               this`credit
      ensures Valid()
      ensures WasCredited(old(State()), id, n, room)
      ensures id in live && id in old(live) && 0 < n && old(live)[id].window + n <= MAX_WINDOW ==>
                id in old(credit) && id in credit && credit[id] == old(credit)[id] + n
      ensures old(log) <= log && Stepped(old(live), old(credit), live, credit, UpdateStream(id, n, room), highest)
    {
      hide Placed, Counted, Accounted, After, Stepped, Core, Backed, WasReset, Conn.Sent;
      Keys();
      Now();
      ghost var b := Books();
      if n == 0 {
        Abandon(id);
        StreamStepped(b, b, Books(), id, n, room, highest);
        return;
      }
      At(id);
      if id in h.streams || id in h.sending || id in h.writers || id in h.busy {
        StreamCredit(id, n, room);
      } else {
        NothingToReset(id);
        StreamStepped(b, b, b, id, n, room, highest);
      }
    }

    /** The credit for a stream that is there. */
    method StreamCredit(id: nat, n: nat, room: nat)
      requires Valid() && id in live && n > 0
      modifies this`live, this`h, this`connWindow, this`log, this`sendingBytes, this`parkedBytes, this`place,
               this`credit
      ensures Valid() && WasCredited(old(State()), id, n, room)
      ensures id in live && old(live)[id].window + n <= MAX_WINDOW ==>
                id in old(credit) && id in credit && credit[id] == old(credit)[id] + n
      ensures old(log) <= log && Stepped(old(live), old(credit), live, credit, UpdateStream(id, n, room), highest)
    {
      hide Placed, Counted, Accounted, After, Stepped, Core, Backed, Conn.Sent, WasReset, WasCredited, Only, SentOn,
        SentAll;
      Keys();
      Now();
      ghost var b, s := Books(), State();
      Known(id);
      var ok := Credit(id, n);
      Now();
      ghost var mid := Books();
      if ok && id in h.sending {
        Resume(id, room);
        Keys();
        CreditedThen(s, id, n, room);
      } else {
        if !ok { Abandon(id); }
        CreditedElse(s, id, n, room);
      }
      StreamStepped(b, mid, Books(), id, n, room, highest);
    }

    lemma CreditedThen(s: Before, id: nat, n: nat, room: nat)
      requires id in s.h.sending && id in s.live && 0 < n && s.live[id].window + n <= MAX_WINDOW
      requires h == s.h || h == s.h.(sending := s.h.sending - {id})
      requires forall k :: k in s.live && k != id ==> k in live && live[k] == s.live[k]
      requires Sent(s.live[id].(window := s.live[id].window + n), s.connWindow, s.sendingBytes, s.parkedBytes, |s.log|,
                    room, id)
      ensures WasCredited(s, id, n, room)
    {
      hide Conn.Sent;
    }

    lemma CreditedElse(s: Before, id: nat, n: nat, room: nat)
      requires id in s.live && 0 < n
      requires if s.live[id].window + n > MAX_WINDOW then WasReset(s, id)
               else
                 && id !in s.h.sending && h == s.h && log == s.log
                 && live == s.live[id := s.live[id].(window := s.live[id].window + n)]
      ensures WasCredited(s, id, n, room)
    {
      hide Conn.Sent, WasReset;
    }

    lemma NothingToReset(id: nat)
      requires Core() && id !in live
      ensures WasReset(State(), id)
    {
      hide Counted, Accounted, After;
      At(id);
      assert h.writers - {id} == h.writers;
    }

    /** One of the loops of `h2ShiftStreamWindows`. */
    method ShiftEach(ids: set<nat>, delta: int) returns (ok: bool)
      requires ids <= live.Keys
      modifies this`live
      ensures live == Shifted(old(live), ids, delta)
      ensures ok <==> Within(old(live), ids, delta)
    {
      ok := true;
      var todo := ids;
      ghost var was := live;
      while todo != {}
        invariant todo <= ids <= live.Keys && live == Shifted(was, ids - todo, delta)
        invariant ok <==> Within(was, ids - todo, delta)
        decreases |todo|
      {
        var id :| id in todo;
        var window := live[id].window + delta;
        ok := window <= MAX_WINDOW && ok;
        assert ids - (todo - {id}) == (ids - todo) + {id};
        live := live[id := live[id].(window := window)];
        todo := todo - {id};
      }
      assert ids - todo == ids;
    }

    /** `h2ShiftStreamWindows`: through all four collections. */
    method Shift(delta: int) returns (ok: bool)
      requires live.Keys == place.Keys && Placed(place, h, highest)
      modifies this`live
      ensures live == Shifted(old(live), old(live).Keys, delta)
      ensures ok <==> Within(old(live), old(live).Keys, delta)
    {
      hide Placed, Counted, Accounted, Within, Shifted;
      ghost var was := live;
      var draining := set id | id in h.writers && h.writers[id].done;
      var busy := set id | id in h.busy;
      Apart(draining, busy);
      ShiftKeys(was, h.streams, h.sending, busy, draining, delta);
      var a := ShiftEach(h.streams, delta);
      var b := ShiftEach(h.sending, delta);
      var c := ShiftEach(busy, delta);
      var d := ShiftEach(draining, delta);
      FourParts(was, h.streams, h.sending, busy, draining, delta);
      ok := a && b && c && d;
    }

    /** `epollH2Settings`. An invalid value ends the connection where it stands;
        otherwise every window moves by the change of the initial size, once. */
    method Settings(values: seq<Setting>, room: nat -> nat) returns (ok: bool)
      requires Valid()
      modifies this`live, this`h, this`initial, this`frameLimit, this`connWindow, this`log, this`sendingBytes,
               this`parkedBytes, this`place, this`credit
      ensures ok ==> Valid() && initial == LastWindow(values, old(initial))
      ensures ok ==> frameLimit == LastFrame(values, old(frameLimit)) && h == old(h).(sending := h.sending)
      ensures ok <==>
                AllProper(values) && Within(old(live), old(live).Keys, LastWindow(values, old(initial)) - old(initial))
      ensures ok && initial <= old(initial) ==>
                live == Shifted(old(live), old(live).Keys, initial - old(initial)) && h == old(h) && log == old(log)
      ensures ok && initial > old(initial) ==>
                var moved := Shifted(old(live), old(live).Keys, initial - old(initial));
                && OthersStay(old(h).sending, moved, old(log), live, log)
                && AllResumed(old(h).sending, moved, old(log), old(parkedBytes), room, cap, live, h.sending,
                              connWindow, log)
      ensures ok ==> After(old(Books()), Books())
    {
      hide Placed, Counted, Accounted, Within, Shifted, After, AllResumed, OthersStay;
      Keys();
      Now();
      var was := initial;
      var window, limit;
      ok, window, limit := ReadSettings(values, initial, frameLimit);
      if !ok {
        initial, frameLimit := window, limit;
        return;
      }
      InitialFits(values, was);
      var delta := window - was;
      frameLimit := limit;
      WindowsFit(0);
      ghost var before := live;
      if delta == 0 {
        NoShift(before);
        return true;
      }
      initial := window;
      ok := Shift(delta);
      if !ok { return; }
      CountShift(before, credit, was, log, connWindow, connCredit, highest, delta);
      AccountShift(before, h.sending, sendingBytes, parkedBytes, cap, delta);
      SameKeys(before, delta);
      BackedShift(before, h.sending, delta);
      ShiftCarries(before, credit, delta, log);
      ghost var b := Books();
      if delta > 0 {
        ResumeAll(room);
        AfterOn(old(Books()), b, Books());
      }
    }

    lemma WindowsFit(delta: int)
      requires Valid() && delta <= 0
      ensures Within(live, live.Keys, delta) && initial <= MAX_WINDOW
    {
      hide Placed, Accounted, SentOn, SentAll;
    }

    /** `h2PumpAll`: every writer is pumped, in whatever order, and then every
        response resumed. */
    method PumpAll(room: nat -> nat, p: nat -> Pumping) returns (ghost now: map<nat, Writer>)
      requires Valid()
      modifies this`live, this`h, this`connWindow, this`log, this`sendingBytes, this`parkedBytes, this`place,
               this`credit
      ensures Valid() && h.streams == old(h).streams && h.busy == old(h).busy && h.sending <= old(h).sending
      ensures After(old(Books()), Books())
      ensures AllPumped(old(h).writers.Keys, old(h).writers, now, old(live), old(log), p, live, connWindow, log,
                        frameLimit)
      ensures WritersAre(old(h).writers.Keys, old(h).writers, now)
      ensures AllResumed(old(h).sending, old(live), old(log), old(parkedBytes), room, cap, live, h.sending, connWindow,
                         log)
    {
      hide After, Core, Backed, AllResumed, OthersStay, AllPumped, PumpedThen, Separate;
      NotBoth();
      now := PumpWriters(p);
      ghost var b, conn := Books(), connWindow;
      ResumeAll(room);
      AfterOn(old(Books()), b, Books());
      ResumedSince(old(h).writers.Keys, old(h).sending, old(Books()), b, old(parkedBytes), room, cap, live, h.sending,
                   connWindow, log);
      PumpedSince(old(h).writers.Keys, old(h).sending, old(h).writers, now, old(Books()), b, conn, p, live, connWindow,
                  log, frameLimit);
    }

    /** Every writer is pumped. */
    method PumpWriters(p: nat -> Pumping) returns (ghost now: map<nat, Writer>)
      requires Valid()
      modifies this`live, this`h, this`connWindow, this`log, this`place, this`credit
      ensures Valid() && h == old(h).(writers := h.writers) && After(old(Books()), Books())
      ensures AllPumped(old(h).writers.Keys, old(h).writers, now, old(live), old(log), p, live, connWindow, log,
                        frameLimit)
      ensures OthersStay(old(h).writers.Keys, old(live), old(log), live, log)
      ensures WritersAre(old(h).writers.Keys, old(h).writers, now)
    {
      hide After, Core, Backed, OthersStay, AllPumped, WritersAre;
      Now();
      now := map[];
      NonePumped(p);
      var todo := h.writers.Keys;
      ghost var did := {};
      while todo != {}
        invariant Valid() && todo <= h.writers.Keys && h == old(h).(writers := h.writers)
        invariant did + todo == old(h).writers.Keys && did !! todo && After(old(Books()), Books())
        invariant AllPumped(did, old(h).writers, now, old(live), old(log), p, live, connWindow, log, frameLimit)
        invariant OthersStay(did, old(live), old(log), live, log) && WritersAre(did, old(h).writers, now)
        decreases |todo|
      {
        var id :| id in todo;
        now := PumpOne(id, p, did, old(Books()), old(h).writers, now);
        todo := todo - {id};
        did := did + {id};
      }
      assert did == old(h).writers.Keys;
    }

    /** One more writer is pumped, behind those of `ids`. */
    method PumpOne(id: nat, p: nat -> Pumping, ghost ids: set<nat>, ghost b0: Book, ghost ws: map<nat, Writer>,
                   ghost was: map<nat, Writer>)
      returns (ghost now: map<nat, Writer>)
      requires Valid() && id in h.writers && id !in ids && id in ws && After(b0, Books())
      requires AllPumped(ids, ws, was, b0.live, b0.log, p, live, connWindow, log, frameLimit)
      requires OthersStay(ids, b0.live, b0.log, live, log) && WritersAre(ids, ws, was)
      modifies this`live, this`h, this`connWindow, this`log, this`place, this`credit
      ensures Valid() && h == old(h).(writers := h.writers) && After(b0, Books())
      ensures AllPumped(ids + {id}, ws, now, b0.live, b0.log, p, live, connWindow, log, frameLimit)
      ensures OthersStay(ids + {id}, b0.live, b0.log, live, log) && WritersAre(ids + {id}, ws, now)
      ensures forall k :: k in old(h).writers && k != id ==> k in h.writers
    {
      hide After, Core, Backed, AllPumped, OthersStay, Pumped, PumpedThen;
      At(id);
      assert h.writers[id] == ws[id];
      ghost var b, conn := Books(), connWindow;
      ghost var w := Pump(id, p(id));
      AfterOn(b0, b, Books());
      PumpedAlone(id, ws[id], w, b, conn, p(id));
      now := was[id := w];
      AnotherPumped(ids, id, ws, was, w, b0, b, conn, p, live, connWindow, log, frameLimit);
    }

    lemma PumpedAlone(id: nat, w0: Writer, w1: Writer, b: Book, conn0: int, p: Pumping)
      requires Pumped(id, w0, w1, b.live, conn0, b.log, p)
      ensures connWindow <= conn0 && id in b.live && OthersStay({id}, b.live, b.log, live, log)
      ensures PumpedThen(id, w0, w1, b.live[id], b.log, p, live, connWindow, log, frameLimit)
    {
      hide SentOn, FramesOn, Only, PumpedTo;
      OnlyCounts(b.log, log, id);
    }

    /** Of these writers, those that are finished and whose handler has returned are
        gone and the others are as pumped; the rest is as it was. */
    ghost predicate WritersAre(ids: set<nat>, ws: map<nat, Writer>, now: map<nat, Writer>)
      reads this`h
    {
      && (forall k :: k in h.writers ==> k in ws)
      && forall k :: k in ws ==>
           if k in ids then
             && k in now
             && if now[k].finished && now[k].done then k !in h.writers else k in h.writers && h.writers[k] == now[k]
           else k in h.writers && h.writers[k] == ws[k]
    }

    lemma NotBoth()
      requires Core()
      ensures Separate(h.writers.Keys, h.sending)
    {
      hide Placed, Counted, Accounted;
      forall id | id in h.writers
        ensures id !in h.sending
      {
        At(id);
      }
    }

    lemma NonePumped(p: nat -> Pumping)
      ensures AllPumped({}, h.writers, map[], live, log, p, live, connWindow, log, frameLimit)
      ensures OthersStay({}, live, log, live, log) && WritersAre({}, h.writers, map[])
    {
      hide SentOn, FramesOn;
    }

    // ----- Any run

    /** Every response was resumed, from windows that may have moved. */
    ghost predicate AllWentOn(s: Before, moved: map<nat, Stream>, room: nat -> nat)
      reads this
    {
      && h == s.h.(sending := h.sending) && OthersStay(s.h.sending, moved, s.log, live, log)
      && AllResumed(s.h.sending, moved, s.log, s.parkedBytes, room, cap, live, h.sending, connWindow, log)
    }

    /** A writer was pumped, and goes with its stream if that finished it and its
        handler has returned. */
    ghost predicate WentOn(s: Before, id: nat, w0: Writer, w1: Writer, p: Pumping)
      reads this
    {
      && Pumped(id, w0, w1, s.live, s.connWindow, s.log, p)
      && h.writers == (if w1.finished && w1.done then s.h.writers - {id} else s.h.writers[id := w1])
    }

    /** What an event of a stream does. */
    ghost predicate StreamDid(e: Event, s: Before)
      requires OfStream(e)
      reads this
    {
      match e
      case Headers(id, refused, complete) =>
        if id <= s.highest || refused then AsBefore(s)
        else
          && live == s.live[id := Stream(initial, 0, 0, 0, 0, false)] && log == s.log
          && h == if complete then s.h.(busy := [id] + s.h.busy) else s.h.(streams := s.h.streams + {id})
      case BodyComplete(id) =>
        if id !in s.h.streams then AsBefore(s)
        else live == s.live && log == s.log && h == s.h.(streams := s.h.streams - {id}, busy := [id] + s.h.busy)
      case BodyRejected(id) =>
        if id !in s.h.streams then AsBefore(s)
        else live == s.live - {id} && log == s.log && h == s.h.(streams := s.h.streams - {id})
      case Returned(id, bodyLen, room) =>
        if id !in s.h.busy || id !in s.live then AsBefore(s)
        else
          && h == s.h.(busy := Without(s.h.busy, id), sending := h.sending, writers := s.h.writers - {id})
          && h.sending == (if id in h.sending then s.h.sending + {id} else s.h.sending)
          && if s.live[id].abandoned then live == s.live - {id} && log == s.log
             else Sent(s.live[id].(bodyLen := bodyLen, respOff := 0), s.connWindow, s.sendingBytes, s.parkedBytes,
                       |s.log|, room, id)
      case Reset(id) => WasReset(s, id)
      case UpdateStream(id, n, room) => WasCredited(s, id, n, room)
    }

    /** One event of a stream. */
    method StreamStep(e: Event)
      requires Valid() && OfStream(e)
      modifies this`live, this`h, this`highest, this`connWindow, this`log, this`sendingBytes, this`parkedBytes,
               this`place, this`credit
      ensures Valid() && old(log) <= log && highest == TopAfter(e, old(highest))
      ensures Stepped(old(live), old(credit), live, credit, e, old(highest)) && StreamDid(e, old(State()))
    {
      hide Placed, Counted, Accounted, Without, After, Stepped, Core, Backed, Conn.Sent, WasReset, WasCredited;
      Keys();
      Now();
      match e {
        case Headers(id, refused, complete) =>
          if id > highest { NewStream(id, refused, complete); }
          Opened(old(live), old(credit), live, credit, e, old(highest));
        case BodyComplete(id) => if id in h.streams { Dispatch(id); }
        case BodyRejected(id) => if id in h.streams { At(id); OpenOnly(id); Forget(id); }
        case Returned(id, bodyLen, room) => if id in h.busy { FinishBuffered(id, bodyLen, room); }
        case Reset(id) => Abandon(id);
        case UpdateStream(id, n, room) => StreamUpdate(id, n, room);
      }
      if !e.Headers? && !e.UpdateStream? { Unmoved(old(Books()), e, old(highest)); }
    }

    /** What an event of a streaming response does. */
    ghost predicate WriterDid(e: Event, s: Before, now: map<nat, Writer>)
      requires OfWriter(e)
      reads this
    {
      match e
      case ReturnedStreaming(id, w, p) =>
        if id !in s.h.busy || id !in s.live then AsBefore(s)
        else
          var w0 := if id in s.h.writers then s.h.writers[id] else w;
          && h == s.h.(busy := Without(s.h.busy, id), writers := h.writers)
          && if w0.finished || s.live[id].abandoned then
               live == s.live - {id} && h.writers == s.h.writers - {id} && log == s.log
             else id in now && now[id].done && WentOn(s, id, w0.(done := true, ended := true), now[id], p)
      case WriterTask(id, w, p) =>
        if id !in s.h.writers && (id !in s.h.busy || w.done) then AsBefore(s)
        else
          var w0 := if id in s.h.writers then s.h.writers[id] else w;
          h == s.h.(writers := h.writers) && id in now && WentOn(s, id, w0, now[id], p)
      case Writes(id, more, file, end) =>
        if id !in s.h.writers || s.h.writers[id].done then AsBefore(s)
        else
          var w := s.h.writers[id];
          && live == s.live && log == s.log
          && h == s.h.(writers := s.h.writers[id := w.(buffered := w.buffered + more, fileLeft := file,
                                                       ended := w.ended || end)])
    }

    /** One event of a streaming response. */
    method WriterStep(e: Event) returns (ghost now: map<nat, Writer>)
      requires Valid() && OfWriter(e)
      modifies this`live, this`h, this`connWindow, this`log, this`place, this`credit
      ensures Valid() && After(old(Books()), Books()) && WriterDid(e, old(State()), now)
    {
      hide Placed, Counted, Accounted, Without, After, Core, Backed, Pumped;
      Now();
      now := map[];
      match e {
        case ReturnedStreaming(id, w, p) =>
          if id in h.busy {
            At(id);
            var sw := if id in h.writers then h.writers[id] else w;
            ghost var w1 := FinishStreamed(id, sw.(finished := sw.finished || live[id].abandoned), p);
            now := now[id := w1];
          }
        case WriterTask(id, w, p) =>
          if id in h.writers || (id in h.busy && !w.done) {
            ghost var w1 := PumpTask(id, w, p);
            now := now[id := w1];
          }
        case Writes(id, more, file, end) =>
          if id in h.writers && !h.writers[id].done { HandlerWrites(id, more, file, end); }
      }
    }

    /** What an event does. */
    ghost predicate Did(e: Event, s: Before, now: map<nat, Writer>)
      reads this
    {
      if OfStream(e) then StreamDid(e, s)
      else if OfWriter(e) then WriterDid(e, s, now)
      else
        match e {
          case UpdateConn(_, room) => AllWentOn(s, s.live, room)
          case Set(values, room) =>
            var moved := Shifted(s.live, s.live.Keys, initial - s.initial);
            && frameLimit == LastFrame(values, s.frameLimit)
            && if initial <= s.initial then live == moved && h == s.h && log == s.log else AllWentOn(s, moved, room)
          case Flushed(room, p) =>
            && h.streams == s.h.streams && h.busy == s.h.busy && WritersAre(s.h.writers.Keys, s.h.writers, now)
            && AllPumped(s.h.writers.Keys, s.h.writers, now, s.live, s.log, p, live, connWindow, log, frameLimit)
            && AllResumed(s.h.sending, s.live, s.log, s.parkedBytes, room, cap, live, h.sending, connWindow, log)
        }
    }

    /** One event. Events that do not apply to the state leave it alone. */
    method Step(e: Event) returns (open: bool, ghost now: map<nat, Writer>)
      requires Valid()
      modifies this
      ensures open <==> Accepted(e, old(live), old(connWindow), old(initial))
      ensures open ==> Valid() && old(log) <= log && connCredit == old(connCredit) + ConnGrant(e)
      ensures open ==> highest == TopAfter(e, old(highest)) && initial == InitialAfter(e, old(initial))
      ensures open ==> Stepped(old(live), old(credit), live, credit, e, old(highest)) && Did(e, old(State()), now)
    {
      hide Placed, Counted, Accounted, Without, Within, After, Stepped, Core, Backed, AllResumed, OthersStay, AllPumped,
        WritersAre, Shifted, LastFrame, StreamDid, WriterDid;
      Keys();
      Now();
      open, now := true, map[];
      if OfStream(e) {
        StreamStep(e);
      } else if OfWriter(e) {
        now := WriterStep(e);
      } else {
        match e {
          case UpdateConn(n, room) => open := ConnUpdate(n, room);
          case Set(values, room) => open := Settings(values, room);
          case Flushed(room, p) => now := PumpAll(room, p);
        }
      }
      if open && !OfStream(e) { Unmoved(old(Books()), e, old(highest)); }
    }

    lemma Unmoved(b: Book, e: Event, top: nat)
      requires After(b, Books()) && !e.UpdateStream?
      ensures b.log <= log && Stepped(b.live, b.credit, live, credit, e, top)
    {
    }

    /** Every stream is one that has been seen. */
    lemma Below()
      requires Valid()
      ensures forall k :: k in live ==> k <= highest && k in credit
    {
      hide Counted, Accounted;
      Keys();
    }

    /** The windows, from the credits and the ledger. */
    lemma Windows(id: nat)
      requires Valid()
      ensures connWindow == DEFAULT_WINDOW + connCredit - SentAll(log)
      ensures id in live ==> id in credit && live[id].window == initial + credit[id] - SentOn(log, id)
    {
      hide Placed, Accounted, SentOn, SentAll;
    }

    /** In every state of every run, for as long as the connection is open, besides
        what `Valid` says: the ledger of frames only grows, and the windows are what
        they were, plus what the events granted, minus what the ledger gained. */
    method Run(events: seq<Event>) returns (n: nat)
      requires Valid()
      modifies this
      ensures n <= |events| && (n < |events| ==> events[n].UpdateConn? || events[n].Set?)
      ensures n == |events| ==> Valid() && old(log) <= log
      ensures n == |events| ==> highest == TopOf(events, old(highest)) && initial == InitialOf(events, old(initial))
      ensures n == |events| ==>
                connWindow == old(connWindow) + ConnGrants(events) - (SentAll(log) - SentAll(old(log)))
      ensures n == |events| ==>
                forall id :: id in live ==>
                  Balanced(id, events, old(highest), old(live), old(initial), old(log), live, initial, log)
    {
      hide Placed, Counted, Accounted, Stepped, Granted, Balanced, Core, Backed;
      ghost var l0, c0, top, i0, log0, cc0 := live, credit, highest, initial, log, connCredit;
      n := 0;
      Keys();
      Now();
      Below();
      NothingYet(l0, c0, top);
      forall id ensures id in l0 ==> id in c0 && l0[id].window == i0 + c0[id] - SentOn(log0, id) { Windows(id); }
      Windows(0);
      assert events[..0] == [];
      while n < |events|
        invariant n <= |events| && Valid() && log0 <= log && top <= highest
        invariant highest == TopOf(events[..n], top) && initial == InitialOf(events[..n], i0)
        invariant connCredit == cc0 + ConnGrants(events[..n]) && Granted(l0, c0, top, live, credit, events[..n])
      {
        Below();
        ghost var l, c, was := live, credit, highest;
        var open, _ := Step(events[n]);
        if !open { return; }
        GrantedOn(l0, c0, top, l, c, was, live, credit, events, n, i0);
        n := n + 1;
      }
      assert events[..n] == events;
      Windows(0);
      forall id | id in live
        ensures Balanced(id, events, top, l0, i0, log0, live, initial, log)
      {
        Windows(id);
        InBalance(id, events, top, l0, c0, i0, log0, live, credit, initial, log);
      }
    }

    /** So a change of the initial window reaches each live stream exactly once. */
    lemma ExactlyOne(id: nat)
      requires Valid() && id in live
      ensures var draining := id in h.writers && h.writers[id].done;
              One(id in h.streams) + One(id in h.sending) + One(id in h.busy) + One(draining) == 1
    {
      hide Counted, Accounted, UpTo, NoRepeats;
    }

    /** The four collections are disjoint and hold every live stream. */
    lemma Apart(draining: set<nat>, busy: set<nat>)
      requires live.Keys == place.Keys && Placed(place, h, highest)
      requires draining == (set id | id in h.writers && h.writers[id].done) && busy == set id | id in h.busy
      ensures live.Keys == h.streams + h.sending + busy + draining && h.streams !! h.sending !! busy !! draining
    {
      hide UpTo, NoRepeats;
    }
  }

  function One(b: bool): nat {
    if b then 1 else 0
  }

  /** What happens on a connection, with what the outside decides: the room the
      output has, the state of a writer not seen before, what reading a file comes to. */
  datatype Event =
    | Headers(id: nat, refused: bool, complete: bool)
    | BodyComplete(id: nat)
    | BodyRejected(id: nat)
    | Returned(id: nat, bodyLen: nat, room: nat)
    | ReturnedStreaming(id: nat, w: Writer, p: Pumping)
    | WriterTask(id: nat, w: Writer, p: Pumping)
    | Writes(id: nat, more: nat, file: nat, end: bool)
    | Reset(id: nat)
    | UpdateConn(n: nat, roomFor: nat -> nat)
    | UpdateStream(id: nat, n: nat, room: nat)
    | Set(values: seq<Setting>, roomFor: nat -> nat)
    | Flushed(roomFor: nat -> nat, pumpFor: nat -> Pumping)

  // ----- What events grant

  /** An event of one stream, its streaming response aside. */
  predicate OfStream(e: Event) {
    e.Headers? || e.BodyComplete? || e.BodyRejected? || e.Returned? || e.Reset? || e.UpdateStream?
  }

  predicate OfWriter(e: Event) {
    e.ReturnedStreaming? || e.WriterTask? || e.Writes?
  }

  /** A connection before an event. */
  datatype Before = Before(live: map<nat, Stream>, h: Homes, highest: nat, initial: int, frameLimit: nat,
                           connWindow: int, sendingBytes: int, parkedBytes: int, log: seq<Data>)

  /** What an event grants to a stream, and to the connection. */
  function Grant(e: Event, id: nat): nat {
    if e.UpdateStream? && e.id == id then e.n else 0
  }

  function ConnGrant(e: Event): nat {
    if e.UpdateConn? then e.n else 0
  }

  /** The highest stream seen after an event, and the initial window. */
  function TopAfter(e: Event, top: nat): nat {
    if e.Headers? && e.id > top then e.id else top
  }

  function InitialAfter(e: Event, initial: int): int {
    if e.Set? then LastWindow(e.values, initial) else initial
  }

  /** An event after which the connection goes on. */
  predicate Accepted(e: Event, live: map<nat, Stream>, conn: int, initial: int) {
    match e
    case UpdateConn(n, _) => 0 < n && conn + n <= MAX_WINDOW
    case Set(values, _) => AllProper(values) && Within(live, live.Keys, LastWindow(values, initial) - initial)
    case _ => true
  }

  /** A stream that is there after an event was there before, and has what it had
      and what the event grants, or was abandoned instead; or the event opened it. */
  ghost predicate Stepped(l0: map<nat, Stream>, c0: map<nat, nat>, l1: map<nat, Stream>, c1: map<nat, nat>, e: Event,
                          top: nat) {
    forall k :: k in l1 ==>
      && k in c1
      && if k in l0 then
           && k in c0 && (l0[k].abandoned ==> l1[k].abandoned)
           && (c1[k] == c0[k] + Grant(e, k) || (c1[k] == c0[k] && l1[k].abandoned))
         else e.Headers? && e.id == k && k > top && c1[k] == 0
  }

  /** A stream has got its increment or none, and then went on. */
  lemma StreamStepped(b: Book, mid: Book, now: Book, id: nat, n: nat, room: nat, top: nat)
    requires After(mid, now) && b.live.Keys == b.credit.Keys
    requires if mid == b then n == 0 || id !in now.live || now.live[id].abandoned
             else id in b.live && id in mid.live && mid.log == b.log
                  && mid.live == b.live[id := mid.live[id]] && mid.live[id].abandoned == b.live[id].abandoned
                  && mid.credit == b.credit[id := b.credit[id] + n]
    ensures b.log <= now.log && Stepped(b.live, b.credit, now.live, now.credit, UpdateStream(id, n, room), top)
  {
  }

  lemma Opened(l0: map<nat, Stream>, c0: map<nat, nat>, l1: map<nat, Stream>, c1: map<nat, nat>, e: Event, top: nat)
    requires e.Headers? && l0.Keys == c0.Keys && l1.Keys == c1.Keys
    requires || (l1 == l0 && c1 == c0)
             || (e.id > top && e.id !in l0 && e.id in l1 && l1 == l0[e.id := l1[e.id]] && c1 == c0[e.id := 0])
    ensures Stepped(l0, c0, l1, c1, e, top)
  {
  }

  function TopOf(events: seq<Event>, top: nat): nat {
    if events == [] then top else TopAfter(events[|events| - 1], TopOf(events[..|events| - 1], top))
  }

  function InitialOf(events: seq<Event>, initial: int): int {
    if events == [] then initial else InitialAfter(events[|events| - 1], InitialOf(events[..|events| - 1], initial))
  }

  function ConnGrants(events: seq<Event>): nat {
    if events == [] then 0 else ConnGrants(events[..|events| - 1]) + ConnGrant(events[|events| - 1])
  }

  /** What events grant to a stream, since it was opened if one of them opens it. */
  function Grants(events: seq<Event>, id: nat, top: nat): nat {
    if events == [] then 0
    else
      var e, before := events[|events| - 1], events[..|events| - 1];
      if e.Headers? && e.id == id && id > TopOf(before, top) then 0 else Grants(before, id, top) + Grant(e, id)
  }

  /** Credits after these events, from those before. Only a stream that was
      abandoned may have got less than was granted. */
  ghost predicate Granted(l0: map<nat, Stream>, c0: map<nat, nat>, top: nat, l: map<nat, Stream>, c: map<nat, nat>,
                          events: seq<Event>) {
    forall k :: k in l ==>
      && k in c && (k in l0 ==> k in c0)
      && var sum := (if k in l0 then c0[k] else 0) + Grants(events, k, top);
         c[k] <= sum && (!l[k].abandoned ==> c[k] == sum)
  }

  lemma NothingYet(l0: map<nat, Stream>, c0: map<nat, nat>, top: nat)
    requires l0.Keys == c0.Keys
    ensures Granted(l0, c0, top, l0, c0, [])
  {
  }

  lemma Sums(events: seq<Event>, n: nat, id: nat, top: nat, initial: int)
    requires n < |events|
    ensures TopOf(events[..n + 1], top) == TopAfter(events[n], TopOf(events[..n], top))
    ensures InitialOf(events[..n + 1], initial) == InitialAfter(events[n], InitialOf(events[..n], initial))
    ensures ConnGrants(events[..n + 1]) == ConnGrants(events[..n]) + ConnGrant(events[n])
    ensures Grants(events[..n + 1], id, top)
            == if events[n].Headers? && events[n].id == id && id > TopOf(events[..n], top) then 0
               else Grants(events[..n], id, top) + Grant(events[n], id)
  {
    assert events[..n + 1][..n] == events[..n];
  }

  /** One event more. */
  lemma GrantedOn(l0: map<nat, Stream>, c0: map<nat, nat>, top: nat, l: map<nat, Stream>, c: map<nat, nat>, was: nat,
                  l1: map<nat, Stream>, c1: map<nat, nat>, events: seq<Event>, n: nat, initial: int)
    requires n < |events| && Granted(l0, c0, top, l, c, events[..n]) && Stepped(l, c, l1, c1, events[n], was)
    requires was == TopOf(events[..n], top) && top <= was
    requires (forall k :: k in l ==> k <= was) && (forall k :: k in l0 ==> k <= top && k in c0)
    ensures Granted(l0, c0, top, l1, c1, events[..n + 1])
    ensures TopOf(events[..n + 1], top) == TopAfter(events[n], was) && top <= TopOf(events[..n + 1], top)
    ensures InitialOf(events[..n + 1], initial) == InitialAfter(events[n], InitialOf(events[..n], initial))
    ensures ConnGrants(events[..n + 1]) == ConnGrants(events[..n]) + ConnGrant(events[n])
  {
    hide Grants, TopOf, InitialOf, ConnGrants;
    Sums(events, n, 0, top, initial);
    forall k | k in l1
      ensures k in c1 && (k in l0 ==> k in c0)
      ensures var sum := (if k in l0 then c0[k] else 0) + Grants(events[..n + 1], k, top);
              c1[k] <= sum && (!l1[k].abandoned ==> c1[k] == sum)
    {
      Sums(events, n, k, top, initial);
    }
  }

  /** A stream's window is the current initial size, plus what was granted, minus
      what was sent, counted from an earlier state; less only if it was abandoned. */
  predicate Balanced(id: nat, events: seq<Event>, top: nat, l0: map<nat, Stream>, i0: int, log0: seq<Data>,
                     l: map<nat, Stream>, initial: int, log: seq<Data>)
    requires id in l
  {
    var was := if id in l0 then l0[id].window - i0 + SentOn(log0, id) else 0;
    var now := l[id].window - initial + SentOn(log, id);
    var sum := was + Grants(events, id, top);
    now <= sum && (!l[id].abandoned ==> now == sum)
  }

  lemma InBalance(id: nat, events: seq<Event>, top: nat, l0: map<nat, Stream>, c0: map<nat, nat>, i0: int,
                  log0: seq<Data>, l: map<nat, Stream>, c: map<nat, nat>, initial: int, log: seq<Data>)
    requires id in l && id in c && Granted(l0, c0, top, l, c, events)
    requires id in l0 ==> id in c0 && l0[id].window == i0 + c0[id] - SentOn(log0, id)
    requires l[id].window == initial + c[id] - SentOn(log, id)
    ensures Balanced(id, events, top, l0, i0, log0, l, initial, log)
  {
    hide Grants, SentOn;
  }

  /** The settings that matter to flow control. */
  datatype Setting = InitialWindow(val: nat) | MaxFrame(val: nat) | OtherSetting

  predicate ProperSetting(s: Setting) {
    match s
    case InitialWindow(val) => val <= MAX_WINDOW
    case MaxFrame(val) => 16384 <= val <= 16777215
    case OtherSetting => true
  }

  predicate AllProper(values: seq<Setting>) {
    forall i :: 0 <= i < |values| ==> ProperSetting(values[i])
  }

  /** The loop over a SETTINGS payload, up to the first invalid value. */
  method ReadSettings(values: seq<Setting>, was: int, frameLimit: nat) returns (ok: bool, window: int, limit: nat)
    requires frameLimit > 0
    ensures ok <==> AllProper(values)
    ensures ok ==> window == LastWindow(values, was) && limit == LastFrame(values, frameLimit) > 0
  {
    window, limit := was, frameLimit;
    for i := 0 to |values|
      invariant AllProper(values[..i]) && window == LastWindow(values[..i], was)
      invariant limit == LastFrame(values[..i], frameLimit) > 0
    {
      SettingsSnoc(values, i, was, frameLimit);
      if !ProperSetting(values[i]) { return false, window, limit; }
      match values[i] {
        case InitialWindow(val) => window := val;
        case MaxFrame(val) => limit := val;
        case OtherSetting =>
      }
    }
    assert values[..|values|] == values;
    ok := true;
  }

  /** The initial window the last of these settings gives. */
  function LastWindow(values: seq<Setting>, was: int): int {
    if values == [] then was
    else
      var last := values[|values| - 1];
      if last.InitialWindow? then last.val else LastWindow(values[..|values| - 1], was)
  }

  /** The largest frame the last of these settings allows. */
  function LastFrame(values: seq<Setting>, was: nat): nat {
    if values == [] then was
    else
      var last := values[|values| - 1];
      if last.MaxFrame? then last.val else LastFrame(values[..|values| - 1], was)
  }

  lemma SettingsSnoc(values: seq<Setting>, i: nat, was: int, limit: nat)
    requires i < |values|
    ensures LastWindow(values[..i + 1], was)
            == if values[i].InitialWindow? then values[i].val else LastWindow(values[..i], was)
    ensures LastFrame(values[..i + 1], limit)
            == if values[i].MaxFrame? then values[i].val else LastFrame(values[..i], limit)
    ensures AllProper(values[..i]) && ProperSetting(values[i]) ==> AllProper(values[..i + 1])
    ensures !ProperSetting(values[i]) ==> !AllProper(values)
  {
    assert values[..i + 1][..i] == values[..i];
  }

  lemma CountShift(live: map<nat, Stream>, credit: map<nat, nat>, initial: int, log: seq<Data>, conn: int,
                   connCredit: nat, highest: nat, delta: int)
    requires Counted(live, credit, initial, log, conn, connCredit, highest)
    requires initial + delta <= MAX_WINDOW && Within(live, live.Keys, delta)
    ensures Counted(Shifted(live, live.Keys, delta), credit, initial + delta, log, conn, connCredit, highest)
  {
    hide SentOn, SentAll;
  }

  lemma AccountShift(live: map<nat, Stream>, sending: set<nat>, stalled: int, parked: int, cap: nat, delta: int)
    requires Accounted(live, sending, stalled, parked, cap)
    ensures Accounted(Shifted(live, live.Keys, delta), sending, stalled, parked, cap)
  {
    hide Total;
    var now := Shifted(live, live.Keys, delta);
    TotalSame(live, now, sending, Stall);
    TotalSame(live, now, sending, Park);
  }

  lemma BackedShift(live: map<nat, Stream>, sending: set<nat>, delta: int)
    requires Backed(live, sending)
    ensures Backed(Shifted(live, live.Keys, delta), sending)
  {
  }

  lemma ShiftCarries(live: map<nat, Stream>, credit: map<nat, nat>, delta: int, log: seq<Data>)
    requires live.Keys <= credit.Keys
    ensures After(Book(live, credit, log), Book(Shifted(live, live.Keys, delta), credit, log))
  {
  }

  lemma NoShift(live: map<nat, Stream>)
    ensures Shifted(live, live.Keys, 0) == live
  {
  }

  lemma SameKeys(live: map<nat, Stream>, delta: int)
    ensures Shifted(live, live.Keys, delta).Keys == live.Keys
  {
  }

  lemma {:induction false} InitialFits(values: seq<Setting>, was: int)
    requires AllProper(values)
    ensures LastWindow(values, was) == was || LastWindow(values, was) <= MAX_WINDOW
  {
    if values != [] && !values[|values| - 1].InitialWindow? { InitialFits(values[..|values| - 1], was); }
  }

  /** These streams, with their windows moved by `delta`. */
  function Shifted(live: map<nat, Stream>, ids: set<nat>, delta: int): map<nat, Stream> {
    map id | id in live :: if id in ids then live[id].(window := live[id].window + delta) else live[id]
  }

  /** None of these windows would overflow. */
  predicate Within(live: map<nat, Stream>, ids: set<nat>, delta: int) {
    forall id :: id in ids && id in live ==> live[id].window + delta <= MAX_WINDOW
  }

  lemma ShiftKeys(live: map<nat, Stream>, a: set<nat>, b: set<nat>, c: set<nat>, d: set<nat>, delta: int)
    requires live.Keys == a + b + c + d
    ensures Shifted(live, a, delta).Keys == live.Keys
    ensures Shifted(Shifted(live, a, delta), b, delta).Keys == live.Keys
    ensures Shifted(Shifted(Shifted(live, a, delta), b, delta), c, delta).Keys == live.Keys
  {
  }

  lemma ShiftTwice(live: map<nat, Stream>, a: set<nat>, b: set<nat>, delta: int)
    requires a !! b
    ensures Shifted(Shifted(live, a, delta), b, delta) == Shifted(live, a + b, delta)
    ensures Within(Shifted(live, a, delta), b, delta) <==> Within(live, b, delta)
    ensures Within(live, a + b, delta) <==> Within(live, a, delta) && Within(live, b, delta)
  {
  }

  /** Disjoint collections are one collection. */
  lemma FourParts(live: map<nat, Stream>, a: set<nat>, b: set<nat>, c: set<nat>, d: set<nat>, delta: int)
    requires live.Keys == a + b + c + d && a !! b !! c !! d
    ensures var x := Shifted(live, a, delta);
            var y := Shifted(x, b, delta);
            var z := Shifted(y, c, delta);
            && Shifted(z, d, delta) == Shifted(live, live.Keys, delta)
            && (Within(live, live.Keys, delta) <==>
                  Within(live, a, delta) && Within(x, b, delta) && Within(y, c, delta) && Within(z, d, delta))
  {
    hide Shifted, Within;
    ShiftTwice(live, a, b, delta);
    ShiftTwice(live, a + b, c, delta);
    ShiftTwice(live, a + b + c, d, delta);
  }
}
