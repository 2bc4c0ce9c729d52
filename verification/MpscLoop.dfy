/** The intrusive multi-producer queue of core/fp_queue.go and the sleep/wake
    protocol that core/fp_loop.go builds on it.

    Every load, store, swap and compare-and-swap on shared memory is one atomic
    step; a run is any interleaving of the steps of any number of submitting
    threads and of the one loop that pops. `order`, `gone`, `seat`,
    `linker`, `holder`, `returned` and the position `at` are history: every node
    ever swapped into `head`, in swap order; how many of those `tail` has passed;
    the last position each node took; the thread that filled a position; the
    thread that last won each `queued` flag; the exchanges `pop` returned; the
    position a swap took. No step looks at them. */
module MpscLoop {

  /** The stub node embedded in the queue, or the node of one exchange. */
  datatype Node = Stub | Ex(id: nat)

  datatype Link = Nil | To(node: Node)

  /** Where a thread is inside `notify`/`submit`: about to clear its node's
      next, to swap head, to link its predecessor, to swap `sleeping`, or to
      write the wake descriptor. A thread that is in none of these is idle. */
  datatype Producer =
    | Clearing(id: nat)
    | Swapping(id: nat)
    | Linking(prev: Node, id: nat, at: nat)
    | Waking
    | Writing

  /** Which of the two `pop` calls in `run` is executing. */
  datatype Site = Drain | Recheck

  /** Where the loop is: the atomic points of `pop`, and of `run` around it. */
  datatype Loop =
    | PopTail(site: Site)
    | PopNext(site: Site)
    | PopHead(site: Site)
    | StubClear(site: Site)
    | StubSwap(site: Site)
    | StubLink(site: Site, prev: Node, at: nat)
    | PopLast(site: Site)
    | Rouse(id: nat)
    | Dispatch(site: Site, id: nat)
    | Sleep
    | Poll
    | Blocked
    | Awake

  datatype State = State(
    next: map<Node, Link>,
    head: Node,
    tail: Node,
    queued: set<nat>,
    producers: map<nat, Producer>,
    sleeping: bool,
    token: bool,
    loop: Loop,
    drained: bool,
    order: seq<Node>,
    gone: nat,
    seat: map<Node, nat>,
    linker: map<nat, nat>,
    holder: map<nat, nat>,
    returned: seq<nat>)

  function Next(s: State, n: Node): Link {
    if n in s.next then s.next[n] else Nil
  }

  function Init(): State {
    State(map[], Stub, Stub, {}, map[], false, false, PopTail(Drain), false, [Stub], 0, map[Stub := 0], map[], map[],
      [])
  }

  /** One atomic step: thread `p` calls `notify` for exchange `id` and wins the
      `queued` flag; thread `p` moves on inside `submit`; the loop moves on.
      `positive` is the sign of the timeout `run` computed, `clear` says whether
      the events it received included the wake descriptor. */
  datatype Action =
    | Notify(p: nat, id: nat)
    | Submit(p: nat)
    | Turn(positive: bool, clear: bool)

  predicate Enabled(s: State, a: Action) {
    match a
    case Notify(p, id) => p !in s.producers && id !in s.queued
    case Submit(p) => p in s.producers
    case Turn(_, _) => true
  }

  function Apply(s: State, a: Action): State
    requires Enabled(s, a)
  {
    match a
    case Notify(p, id) =>
      s.(queued := s.queued + {id}, producers := s.producers[p := Clearing(id)], holder := s.holder[id := p])
    case Submit(p) => ApplySubmit(s, p)
    case Turn(positive, clear) => ApplyTurn(s, positive, clear)
  }

  function ApplySubmit(s: State, p: nat): State
    requires p in s.producers
  {
    match s.producers[p]
    case Clearing(id) =>
      s.(next := s.next[Ex(id) := Nil], producers := s.producers[p := Swapping(id)])
    case Swapping(id) =>
      s.(head := Ex(id), producers := s.producers[p := Linking(s.head, id, |s.order|)],
      order := s.order + [Ex(id)], seat := s.seat[Ex(id) := |s.order|], linker := s.linker[|s.order| := p])
    case Linking(prev, id, _) =>
      s.(next := s.next[prev := To(Ex(id))], producers := s.producers[p := Waking])
    case Waking =>
      if s.sleeping then s.(sleeping := false, producers := s.producers[p := Writing])
      else s.(producers := s.producers - {p})
    case Writing =>
      s.(token := true, producers := s.producers - {p})
  }

  /** The exchange a popped node is embedded in; `run` never asks it of the stub. */
  function ExchangeOf(n: Node): nat {
    if n.Ex? then n.id else 0
  }

  /** `pop` found a successor: advance `tail` and hand the old tail out. */
  function Return(s: State, site: Site, succ: Node): State {
    var id := ExchangeOf(s.tail);
    s.(tail := succ, gone := s.gone + 1, returned := s.returned + [id],
    loop := if site == Drain then Dispatch(Drain, id) else Rouse(id))
  }

  /** `pop` returned nil: the drain loop ends and the timeout is chosen, or the
      recheck failed and the loop blocks in epoll_wait. */
  function Empty(s: State, site: Site, positive: bool): State {
    if site == Recheck then s.(loop := Blocked)
    else if !s.drained && positive then s.(loop := Sleep)
    else s.(loop := Poll)
  }

  function ApplyTurn(s: State, positive: bool, clear: bool): State {
    match s.loop
    case PopTail(site) =>
      if s.tail == Stub then
        if Next(s, Stub).Nil? then Empty(s, site, positive)
        else s.(tail := Next(s, Stub).node, gone := s.gone + 1, loop := PopNext(site))
      else if Next(s, s.tail).To? then Return(s, site, Next(s, s.tail).node)
      else s.(loop := PopHead(site))
    case PopNext(site) =>
      if Next(s, s.tail).To? then Return(s, site, Next(s, s.tail).node)
      else s.(loop := PopHead(site))
    case PopHead(site) =>
      if s.tail != s.head then Empty(s, site, positive)
      else s.(loop := StubClear(site))
    case StubClear(site) =>
      s.(next := s.next[Stub := Nil], loop := StubSwap(site))
    case StubSwap(site) =>
      s.(head := Stub, loop := StubLink(site, s.head, |s.order|),
      order := s.order + [Stub], seat := s.seat[Stub := |s.order|])
    case StubLink(site, prev, _) =>
      s.(next := s.next[prev := To(Stub)], loop := PopLast(site))
    case PopLast(site) =>
      if Next(s, s.tail).To? then Return(s, site, Next(s, s.tail).node)
      else Empty(s, site, positive)
    case Rouse(id) => s.(sleeping := false, loop := Dispatch(Recheck, id))
    case Dispatch(site, id) =>
      s.(queued := s.queued - {id}, drained := site == Drain,
      loop := if site == Drain then PopTail(Drain) else Poll)
    case Sleep => s.(sleeping := true, loop := PopTail(Recheck))
    case Poll => s.(loop := Awake, token := s.token && !clear)
    case Blocked => s.(loop := Awake, token := s.token && !clear)
    case Awake => s.(sleeping := false, drained := false, loop := PopTail(Drain))
  }

  // ----- What holds in every reachable state

  /** Thread `p` has swapped position `k` in and has yet to link it. */
  predicate LinkingAt(s: State, p: nat, k: nat) {
    p in s.producers && s.producers[p].Linking? && s.producers[p].at == k
  }

  predicate Pending(s: State, k: nat) {
    || (k in s.linker && LinkingAt(s, s.linker[k], k))
    || (s.loop.StubLink? && s.loop.at == k)
  }

  predicate Joined(s: State, i: nat)
    requires i + 1 < |s.order|
  {
    || Next(s, s.order[i]) == To(s.order[i + 1])
    || (Next(s, s.order[i]).Nil? && Pending(s, i + 1))
  }

  /** A node is in the queue when its last position has not been passed. */
  predicate InList(s: State, n: Node) {
    n in s.seat && s.gone <= s.seat[n]
  }

  /** The list from tail to head holds each node once. */
  ghost predicate SeatInv(s: State) {
    && s.gone < |s.order|
    && s.order[s.gone] == s.tail
    && s.order[|s.order| - 1] == s.head
    && (forall n :: n in s.seat ==> s.seat[n] < |s.order| && s.order[s.seat[n]] == n)
    && (forall i :: s.gone <= i < |s.order| ==> s.order[i] in s.seat && s.seat[s.order[i]] == i)
  }

  /** Each node of the list is linked to the next or about to be, and nothing
      follows head. */
  ghost predicate ChainInv(s: State) {
    && (forall i {:trigger Joined(s, i)} :: s.gone <= i && i + 1 < |s.order| ==> Joined(s, i))
    && Next(s, s.head).Nil?
  }

  predicate LinkSound(s: State, prev: Node, n: Node, at: nat) {
    && s.gone < at < |s.order|
    && s.order[at] == n
    && s.order[at - 1] == prev
    && Next(s, prev).Nil?
  }

  /** A thread about to link writes to the next pointer of a node that is still
      in the list, and whose successor is the node that thread swapped in. */
  ghost predicate LinkInv(s: State) {
    && (forall p :: p in s.producers && s.producers[p].Linking? ==>
          && LinkSound(s, s.producers[p].prev, Ex(s.producers[p].id), s.producers[p].at)
          && s.producers[p].at in s.linker && s.linker[s.producers[p].at] == p)
    && (s.loop.StubLink? ==> LinkSound(s, s.loop.prev, Stub, s.loop.at))
  }

  predicate InHand(l: Loop) {
    l.Dispatch? || l.Rouse?
  }

  /** Each exchange in the queue, in a submitter's hands before the swap, or in
      the dispatcher's hands carries `queued`, and is in only one of these. */
  ghost predicate OwnerInv(s: State) {
    && (forall id :: InList(s, Ex(id)) ==> id in s.queued)
    && (forall p :: p in s.producers && (s.producers[p].Clearing? || s.producers[p].Swapping?) ==>
          var id := s.producers[p].id;
          id in s.queued && !InList(s, Ex(id)) && id in s.holder && s.holder[id] == p
          && (InHand(s.loop) ==> s.loop.id != id)
          && (s.producers[p].Swapping? ==> Next(s, Ex(id)).Nil?))
    && (InHand(s.loop) ==> s.loop.id in s.queued && !InList(s, Ex(s.loop.id)))
  }

  predicate MidPop(l: Loop) {
    l.PopNext? || l.PopHead? || l.StubClear? || l.StubSwap? || l.StubLink? || l.PopLast?
  }

  /** The loop's own progress through `pop`. */
  ghost predicate PopInv(s: State) {
    && (MidPop(s.loop) ==> s.tail.Ex?)
    && (s.loop.StubClear? || s.loop.StubSwap? ==> !InList(s, Stub))
    && (s.loop.StubSwap? ==> Next(s, Stub).Nil?)
    && (s.loop.StubLink? || s.loop.PopLast? ==> s.gone + 1 < |s.order|)
  }

  /** The exchanges among the nodes of a list, in order. */
  function Ids(ns: seq<Node>): seq<nat> {
    if ns == [] then []
    else if ns[|ns| - 1].Ex? then Ids(ns[..|ns| - 1]) + [ns[|ns| - 1].id]
    else Ids(ns[..|ns| - 1])
  }

  /** `pop` has returned exactly what lies before `tail`, in swap order. */
  ghost predicate HistoryInv(s: State) {
    s.gone <= |s.order| && s.returned == Ids(s.order[..s.gone])
  }

  ghost predicate InFlight(s: State) {
    exists p :: p in s.producers && (s.producers[p].Linking? || s.producers[p].Waking?)
  }

  ghost predicate WriterReady(s: State) {
    exists p :: p in s.producers && s.producers[p].Writing?
  }

  predicate InRecheck(l: Loop) {
    l.Blocked? || ((l.PopTail? || MidPop(l)) && l.site == Recheck)
  }

  ghost predicate Waiting(s: State) {
    exists id :: InList(s, Ex(id))
  }

  /** From the moment the loop announces that it will sleep, either the
      announcement stands or its cancellation carries a wake token; once the
      recheck has seen nothing to pop, a node left in the list has a submitter
      behind it that has not yet looked at the announcement. */
  ghost predicate WakeInv(s: State) {
    && (InRecheck(s.loop) && !s.sleeping ==> s.token || WriterReady(s))
    && (s.loop.PopHead? && s.loop.site == Recheck && s.sleeping && s.gone + 1 < |s.order| ==> InFlight(s))
    && (s.loop.Blocked? && s.sleeping && Waiting(s) ==> InFlight(s))
  }

  ghost predicate Inv(s: State) {
    SeatInv(s) && ChainInv(s) && LinkInv(s) && OwnerInv(s) && PopInv(s) && HistoryInv(s) && WakeInv(s)
  }

  // ----- Every step keeps the invariant

  lemma InitInv()
    ensures Inv(Init())
  {
  }

  /** A step of thread `p` leaves the other threads where they were. */
  lemma Others(s: State, t: State, p: nat)
    requires forall q :: q in s.producers && q != p ==> q in t.producers && t.producers[q] == s.producers[q]
    ensures WriterReady(s) && !(p in s.producers && s.producers[p].Writing?) ==> WriterReady(t)
    ensures InFlight(s) && !(p in s.producers && (s.producers[p].Linking? || s.producers[p].Waking?)) ==> InFlight(t)
  {
  }

  /** Threads between swap and link, and the loop's own stub link, stay put. */
  predicate LinkersStay(s: State, t: State) {
    && t.linker == s.linker
    && (forall p :: p in s.producers && s.producers[p].Linking? ==>
        p in t.producers && t.producers[p] == s.producers[p])
    && (forall p :: p in t.producers && t.producers[p].Linking? ==>
        p in s.producers && s.producers[p] == t.producers[p])
    && (s.loop.StubLink? ==> t.loop == s.loop)
    && (t.loop.StubLink? ==> s.loop == t.loop)
  }

  /** A step that neither swaps nor links. */
  lemma ListFrame(s: State, t: State)
    requires SeatInv(s) && ChainInv(s) && LinkInv(s) && LinkersStay(s, t)
    requires t.order == s.order && t.seat == s.seat && t.gone == s.gone && t.head == s.head && t.tail == s.tail
    requires forall i :: s.gone <= i < |s.order| ==> Next(t, s.order[i]) == Next(s, s.order[i])
    ensures SeatInv(t) && ChainInv(t) && LinkInv(t)
  {
    forall i | t.gone <= i && i + 1 < |t.order|
      ensures Joined(t, i)
    {
      assert Joined(s, i);
    }
  }

  lemma NotifyKeeps(s: State, p: nat, id: nat)
    requires Inv(s) && Enabled(s, Notify(p, id))
    ensures Inv(Apply(s, Notify(p, id)))
  {
    hide SeatInv, ChainInv, LinkInv, OwnerInv;
    var t := Apply(s, Notify(p, id));
    Others(s, t, p);
    ListFrame(s, t);
    NotifyOwner(s, p, id);
  }

  lemma NotifyOwner(s: State, p: nat, id: nat)
    requires OwnerInv(s) && Enabled(s, Notify(p, id))
    ensures OwnerInv(Apply(s, Notify(p, id)))
  {
    assert forall x :: InList(Apply(s, Notify(p, id)), Ex(x)) ==> InList(s, Ex(x));
  }

  lemma ClearKeeps(s: State, p: nat)
    requires Inv(s) && p in s.producers && s.producers[p].Clearing?
    ensures Inv(ApplySubmit(s, p))
  {
    hide ChainInv, LinkInv;
    var t := ApplySubmit(s, p);
    Others(s, t, p);
    ListFrame(s, t);
    ClearOwner(s, p);
  }

  lemma ClearOwner(s: State, p: nat)
    requires OwnerInv(s) && p in s.producers && s.producers[p].Clearing?
    ensures OwnerInv(ApplySubmit(s, p))
  {
    assert forall x :: InList(ApplySubmit(s, p), Ex(x)) ==> InList(s, Ex(x));
  }

  lemma SwapKeeps(s: State, p: nat)
    requires Inv(s) && p in s.producers && s.producers[p].Swapping?
    ensures Inv(ApplySubmit(s, p))
  {
    hide SeatInv, ChainInv, LinkInv, OwnerInv;
    var t := ApplySubmit(s, p);
    Others(s, t, p);
    SwapLinks(s, p);
    SwapOwner(s, p);
    assert t.order[..t.gone] == s.order[..s.gone];
    assert t.producers[p].Linking?;
  }

  /** Appending a node nobody has linked behind to the list. */
  lemma AppendKeeps(s: State, t: State, n: Node)
    requires SeatInv(s) && ChainInv(s) && !InList(s, n) && Next(s, n).Nil?
    requires t.order == s.order + [n] && t.seat == s.seat[n := |s.order|] && t.gone == s.gone
    requires t.head == n && t.tail == s.tail && t.next == s.next
    requires forall k :: 0 <= k < |s.order| && Pending(s, k) ==> Pending(t, k)
    requires Pending(t, |s.order|)
    ensures SeatInv(t) && ChainInv(t)
  {
    forall i | t.gone <= i && i + 1 < |t.order|
      ensures Joined(t, i)
    {
      if i + 1 < |s.order| {
        assert Joined(s, i);
      }
    }
  }

  lemma SwapLinks(s: State, p: nat)
    requires SeatInv(s) && ChainInv(s) && LinkInv(s) && OwnerInv(s)
    requires p in s.producers && s.producers[p].Swapping?
    ensures var t := ApplySubmit(s, p); SeatInv(t) && ChainInv(t) && LinkInv(t)
  {
    HeadEnds(s);
    hide ChainInv;
    var t := ApplySubmit(s, p);
    SwapPending(s, t, p);
    AppendKeeps(s, t, Ex(s.producers[p].id));
  }

  lemma SwapPending(s: State, t: State, p: nat)
    requires SeatInv(s) && LinkInv(s) && Next(s, s.head).Nil? && p in s.producers && s.producers[p].Swapping?
    requires var id := s.producers[p].id;
             && t.producers == s.producers[p := Linking(s.head, id, |s.order|)] && t.order == s.order + [Ex(id)]
             && t.linker == s.linker[|s.order| := p] && t.next == s.next && t.gone == s.gone && t.loop == s.loop
    ensures LinkInv(t) && Pending(t, |s.order|)
    ensures forall k :: 0 <= k < |s.order| && Pending(s, k) ==> Pending(t, k)
  {
    hide SeatInv;
    SwapSound(s, t, p);
    forall k | 0 <= k < |s.order| && Pending(s, k)
      ensures Pending(t, k)
    {
      assert k in s.linker && LinkingAt(s, s.linker[k], k) ==> LinkingAt(t, t.linker[k], k);
    }
    assert LinkingAt(t, p, |s.order|);
  }

  lemma SwapSound(s: State, t: State, p: nat)
    requires SeatInv(s) && LinkInv(s) && Next(s, s.head).Nil? && p in s.producers && !s.producers[p].Linking?
    requires |t.order| > 0
    requires var id := ExchangeOf(t.order[|t.order| - 1]);
             && t.producers == s.producers[p := Linking(s.head, id, |s.order|)] && t.order == s.order + [Ex(id)]
             && t.linker == s.linker[|s.order| := p] && t.next == s.next && t.gone == s.gone && t.loop == s.loop
    ensures LinkInv(t)
  {
    forall q | q in t.producers && t.producers[q].Linking?
      ensures LinkSound(t, t.producers[q].prev, Ex(t.producers[q].id), t.producers[q].at)
      ensures t.producers[q].at in t.linker && t.linker[t.producers[q].at] == q
    {
      if q != p { assert s.producers[q].at < |s.order|; }
    }
  }

  lemma SwapOwner(s: State, p: nat)
    requires SeatInv(s) && OwnerInv(s) && p in s.producers && s.producers[p].Swapping?
    ensures OwnerInv(ApplySubmit(s, p))
  {
  }

  /** Writing the link of position `k` joins it and disturbs no other. */
  lemma LinkJoins(s: State, t: State, k: nat)
    requires SeatInv(s) && ChainInv(s) && s.gone < k < |s.order|
    requires t.order == s.order && t.seat == s.seat && t.gone == s.gone && t.head == s.head && t.tail == s.tail
    requires t.next == s.next[s.order[k - 1] := To(s.order[k])]
    requires forall j :: 0 <= j && j != k && Pending(s, j) ==> Pending(t, j)
    ensures SeatInv(t) && ChainInv(t)
  {
    hide SeatInv, Pending;
    SameSeats(s, t);
    forall i | t.gone <= i && i + 1 < |t.order|
      ensures Joined(t, i)
    {
      assert Joined(s, i);
      if i != k - 1 { Elsewhere(s, i, k - 1); }
    }
    Elsewhere(s, |s.order| - 1, k - 1);
  }

  lemma SameSeats(s: State, t: State)
    requires SeatInv(s)
    requires t.order == s.order && t.seat == s.seat && t.gone == s.gone && t.head == s.head && t.tail == s.tail
    ensures SeatInv(t) && s.head == s.order[|s.order| - 1]
  {
  }

  lemma Elsewhere(s: State, i: nat, j: nat)
    requires SeatInv(s) && s.gone <= i < |s.order| && s.gone <= j < |s.order| && i != j
    ensures s.order[i] != s.order[j]
  {
  }

  lemma LinkKeeps(s: State, p: nat)
    requires Inv(s) && p in s.producers && s.producers[p].Linking?
    ensures Inv(ApplySubmit(s, p))
  {
    hide SeatInv, ChainInv, LinkInv, OwnerInv;
    var t := ApplySubmit(s, p);
    Others(s, t, p);
    LinkLinks(s, p);
    LinkOwner(s, p);
    assert t.producers[p].Waking?;
  }

  lemma LinkLinks(s: State, p: nat)
    requires SeatInv(s) && ChainInv(s) && LinkInv(s) && p in s.producers && s.producers[p].Linking?
    ensures var t := ApplySubmit(s, p); SeatInv(t) && ChainInv(t) && LinkInv(t)
  {
    var t := ApplySubmit(s, p);
    LinkJoins(s, t, s.producers[p].at);
    OtherLinks(s, t, p);
  }

  lemma OtherLinks(s: State, t: State, p: nat)
    requires SeatInv(s) && LinkInv(s) && p in s.producers && s.producers[p].Linking?
    requires t.next == s.next[s.producers[p].prev := To(Ex(s.producers[p].id))]
    requires t.producers == s.producers[p := Waking] && t.linker == s.linker
    requires t.order == s.order && t.gone == s.gone && t.loop == s.loop
    ensures LinkInv(t)
  {
    forall q | q in t.producers && t.producers[q].Linking?
      ensures LinkSound(t, t.producers[q].prev, Ex(t.producers[q].id), t.producers[q].at)
    {
      assert s.producers[q].at != s.producers[p].at;
    }
  }

  lemma LinkOwner(s: State, p: nat)
    requires SeatInv(s) && LinkInv(s) && OwnerInv(s) && PopInv(s) && p in s.producers && s.producers[p].Linking?
    ensures OwnerInv(ApplySubmit(s, p)) && PopInv(ApplySubmit(s, p))
  {
    var t := ApplySubmit(s, p);
    assert s.order[s.producers[p].at - 1] == s.producers[p].prev;
    assert InList(s, s.producers[p].prev);
    assert forall n :: InList(t, n) <==> InList(s, n);
  }

  lemma WakeKeeps(s: State, p: nat)
    requires Inv(s) && p in s.producers && (s.producers[p].Waking? || s.producers[p].Writing?)
    ensures Inv(ApplySubmit(s, p))
  {
    hide SeatInv, ChainInv, LinkInv, OwnerInv, WakeInv;
    WakeLinkers(s, p);
    ListFrame(s, ApplySubmit(s, p));
    WakeOwner(s, p);
    WakeWake(s, p);
  }

  lemma WakeLinkers(s: State, p: nat)
    requires p in s.producers && (s.producers[p].Waking? || s.producers[p].Writing?)
    ensures LinkersStay(s, ApplySubmit(s, p))
    ensures forall n :: Next(ApplySubmit(s, p), n) == Next(s, n)
  {
  }

  lemma WakeOwner(s: State, p: nat)
    requires OwnerInv(s) && p in s.producers && (s.producers[p].Waking? || s.producers[p].Writing?)
    ensures OwnerInv(ApplySubmit(s, p))
  {
    assert forall x :: InList(ApplySubmit(s, p), Ex(x)) ==> InList(s, Ex(x));
  }

  lemma WakeWake(s: State, p: nat)
    requires WakeInv(s) && p in s.producers && (s.producers[p].Waking? || s.producers[p].Writing?)
    ensures WakeInv(ApplySubmit(s, p))
  {
    var t := ApplySubmit(s, p);
    Others(s, t, p);
    assert s.producers[p].Waking? && s.sleeping ==> t.producers[p].Writing?;
  }

  lemma SubmitKeeps(s: State, p: nat)
    requires Inv(s) && p in s.producers
    ensures Inv(ApplySubmit(s, p))
  {
    match s.producers[p] {
      case Clearing(_) => ClearKeeps(s, p);
      case Swapping(_) => SwapKeeps(s, p);
      case Linking(_, _, _) => LinkKeeps(s, p);
      case Waking => WakeKeeps(s, p);
      case Writing => WakeKeeps(s, p);
    }
  }

  /** A turn of the loop that leaves list, links and threads alone. */
  lemma TurnFrame(s: State, t: State)
    requires Inv(s) && PopInv(t) && WakeInv(t)
    requires t == s.(loop := t.loop, sleeping := t.sleeping, token := t.token, drained := t.drained, queued := t.queued)
    requires !s.loop.StubLink? && !t.loop.StubLink?
    requires InHand(t.loop) ==> InHand(s.loop) && t.loop.id == s.loop.id
    requires t.queued == s.queued || (s.loop.Dispatch? && !InHand(t.loop) && t.queued == s.queued - {s.loop.id})
    ensures Inv(t)
  {
    hide SeatInv, ChainInv, LinkInv, OwnerInv;
    ListFrame(s, t);
    TurnOwner(s, t);
  }

  lemma TurnOwner(s: State, t: State)
    requires OwnerInv(s)
    requires t == s.(loop := t.loop, sleeping := t.sleeping, token := t.token, drained := t.drained, queued := t.queued)
    requires InHand(t.loop) ==> InHand(s.loop) && t.loop.id == s.loop.id
    requires t.queued == s.queued || (s.loop.Dispatch? && !InHand(t.loop) && t.queued == s.queued - {s.loop.id})
    ensures OwnerInv(t)
  {
    assert forall id :: InList(t, Ex(id)) ==> InList(s, Ex(id));
  }

  /** The dispatcher clears `queued`: the exchange may be submitted again. */
  lemma DispatchKeeps(s: State, positive: bool, clear: bool)
    requires Inv(s) && s.loop.Dispatch?
    ensures Inv(ApplyTurn(s, positive, clear))
  {
    hide SeatInv, ChainInv, LinkInv, OwnerInv;
    TurnFrame(s, ApplyTurn(s, positive, clear));
  }

  lemma SleepKeeps(s: State, positive: bool, clear: bool)
    requires Inv(s) && (s.loop.Sleep? || s.loop.Awake? || s.loop.Rouse?)
    ensures Inv(ApplyTurn(s, positive, clear))
  {
    hide SeatInv, ChainInv, LinkInv, OwnerInv;
    if s.loop.Sleep? {
      TurnFrame(s, s.(sleeping := true, loop := PopTail(Recheck)));
    } else if s.loop.Awake? {
      TurnFrame(s, s.(sleeping := false, drained := false, loop := PopTail(Drain)));
    } else {
      TurnFrame(s, s.(sleeping := false, loop := Dispatch(Recheck, s.loop.id)));
    }
  }

  lemma WaitKeeps(s: State, positive: bool, clear: bool)
    requires Inv(s) && (s.loop.Poll? || s.loop.Blocked?)
    ensures Inv(ApplyTurn(s, positive, clear))
  {
    hide SeatInv, ChainInv, LinkInv, OwnerInv;
    TurnFrame(s, s.(loop := Awake, token := s.token && !clear));
  }

  /** A tail with nothing linked behind it, but with a successor in swap order,
      has a submitter at work between its swap and its link. */
  lemma UnlinkedMeansInFlight(s: State)
    requires SeatInv(s) && ChainInv(s) && LinkInv(s)
    requires Next(s, s.tail).Nil? && s.gone + 1 < |s.order| && !s.loop.StubLink?
    ensures InFlight(s)
  {
    assert Joined(s, s.gone);
  }

  /** `pop` gives up. */
  lemma GiveUpKeeps(s: State, positive: bool)
    requires Inv(s) && (s.loop.PopTail? || s.loop.PopHead? || s.loop.PopLast?)
    requires s.loop.PopTail? ==> s.tail == Stub && Next(s, Stub).Nil?
    requires s.loop.PopHead? ==> s.tail != s.head
    requires s.loop.PopLast? ==> Next(s, s.tail).Nil?
    ensures Inv(Empty(s, s.loop.site, positive))
  {
    hide SeatInv, ChainInv, LinkInv, OwnerInv;
    GiveUpWake(s);
    if s.loop.site == Recheck {
      BlockKeeps(s, s.(loop := Blocked));
    } else if !s.drained && positive {
      TurnFrame(s, s.(loop := Sleep));
    } else {
      TurnFrame(s, s.(loop := Poll));
    }
  }

  lemma BlockKeeps(s: State, t: State)
    requires Inv(s) && InRecheck(s.loop) && !s.loop.StubLink? && t == s.(loop := Blocked)
    requires s.sleeping && Waiting(s) ==> InFlight(s)
    ensures Inv(t)
  {
    hide SeatInv, ChainInv, LinkInv, OwnerInv;
    assert WriterReady(s) ==> WriterReady(t);
    assert InFlight(s) ==> InFlight(t);
    assert Waiting(t) ==> Waiting(s);
    TurnFrame(s, t);
  }

  lemma GiveUpWake(s: State)
    requires SeatInv(s) && ChainInv(s) && LinkInv(s) && WakeInv(s)
    requires s.loop.PopTail? || s.loop.PopHead? || s.loop.PopLast?
    requires s.loop.PopTail? ==> s.tail == Stub && Next(s, Stub).Nil?
    requires s.loop.PopHead? ==> s.tail != s.head
    requires s.loop.PopLast? ==> Next(s, s.tail).Nil? && s.gone + 1 < |s.order|
    ensures s.loop.site == Recheck && s.sleeping && Waiting(s) ==> InFlight(s)
  {
    if s.gone + 1 < |s.order| && !s.loop.PopHead? {
      UnlinkedMeansInFlight(s);
    }
  }

  lemma IdsGrow(ns: seq<Node>, k: nat)
    requires k < |ns|
    ensures Ids(ns[..k + 1]) == Ids(ns[..k]) + (if ns[k].Ex? then [ns[k].id] else [])
  {
    assert ns[..k + 1][..k] == ns[..k];
  }

  /** `tail` moves to its linked successor: the stub is skipped, or an exchange
      is handed out. No thread will write to the node that was passed. */
  lemma AdvanceKeeps(s: State, t: State)
    requires Inv(s) && PopInv(t) && WakeInv(t)
    requires Next(s, s.tail).To? && (s.loop.PopTail? || s.loop.PopNext? || s.loop.PopLast?)
    requires t == s.(tail := Next(s, s.tail).node, gone := s.gone + 1, loop := t.loop, returned := t.returned)
    requires if s.tail.Ex? then InHand(t.loop) && t.loop.id == s.tail.id && t.returned == s.returned + [s.tail.id]
             else !InHand(t.loop) && !t.loop.StubLink? && t.returned == s.returned
    ensures Inv(t)
  {
    hide ChainInv, LinkInv, OwnerInv;
    AdvanceList(s, t);
    AdvanceOwner(s, t);
    IdsGrow(s.order, s.gone);
  }

  lemma AdvanceList(s: State, t: State)
    requires SeatInv(s) && ChainInv(s) && LinkInv(s) && Next(s, s.tail).To?
    requires t == s.(tail := Next(s, s.tail).node, gone := s.gone + 1, loop := t.loop, returned := t.returned)
    requires !s.loop.StubLink? && !t.loop.StubLink?
    ensures SeatInv(t) && ChainInv(t) && LinkInv(t)
  {
    assert s.gone + 1 < |s.order|;
    assert Joined(s, s.gone);
    forall i | t.gone <= i && i + 1 < |t.order|
      ensures Joined(t, i)
    {
      assert Joined(s, i);
    }
  }

  lemma AdvanceOwner(s: State, t: State)
    requires SeatInv(s) && OwnerInv(s) && !InHand(s.loop)
    requires t == s.(tail := t.tail, gone := s.gone + 1, loop := t.loop, returned := t.returned)
    requires if s.tail.Ex? then InHand(t.loop) && t.loop.id == s.tail.id else !InHand(t.loop)
    ensures OwnerInv(t)
  {
    assert InList(s, s.tail);
    assert forall n :: InList(t, n) <==> InList(s, n) && n != s.tail;
  }

  /** The successor was not there: the loop goes on to compare with head. */
  lemma StayKeeps(s: State, t: State)
    requires Inv(s) && (s.loop.PopTail? || s.loop.PopNext?) && s.tail.Ex? && Next(s, s.tail).Nil?
    requires t == s.(loop := PopHead(s.loop.site))
    ensures Inv(t)
  {
    if s.gone + 1 < |s.order| { UnlinkedMeansInFlight(s); }
    TurnFrame(s, t);
  }

  /** An exchange is handed out of `pop`. */
  lemma ReturnKeeps(s: State)
    requires Inv(s) && Next(s, s.tail).To? && s.tail.Ex? && (s.loop.PopTail? || s.loop.PopNext? || s.loop.PopLast?)
    ensures Inv(Return(s, s.loop.site, Next(s, s.tail).node))
  {
    AdvanceKeeps(s, Return(s, s.loop.site, Next(s, s.tail).node));
  }

  lemma SkipStubKeeps(s: State, t: State)
    requires Inv(s) && s.loop.PopTail? && s.tail == Stub && Next(s, Stub).To?
    requires t == s.(tail := Next(s, Stub).node, gone := s.gone + 1, loop := PopNext(s.loop.site))
    ensures Inv(t)
  {
    assert s.gone + 1 < |s.order|;
    assert Joined(s, s.gone);
    assert t.tail == s.order[s.gone + 1];
    AdvanceKeeps(s, t);
  }

  lemma PopTailKeeps(s: State, positive: bool, clear: bool)
    requires Inv(s) && s.loop.PopTail?
    ensures Inv(ApplyTurn(s, positive, clear))
  {
    hide SeatInv, ChainInv, LinkInv, OwnerInv;
    if s.tail == Stub {
      if Next(s, Stub).Nil? { GiveUpKeeps(s, positive); } else { SkipStubKeeps(s, ApplyTurn(s, positive, clear)); }
    } else if Next(s, s.tail).To? { ReturnKeeps(s); } else { StayKeeps(s, s.(loop := PopHead(s.loop.site))); }
  }

  lemma PopRestKeeps(s: State, positive: bool, clear: bool)
    requires Inv(s) && (s.loop.PopNext? || s.loop.PopHead? || s.loop.PopLast?)
    ensures Inv(ApplyTurn(s, positive, clear))
  {
    hide ChainInv, LinkInv, OwnerInv;
    if s.loop.PopHead? {
      if s.tail != s.head { GiveUpKeeps(s, positive); } else { TurnFrame(s, s.(loop := StubClear(s.loop.site))); }
    } else if Next(s, s.tail).To? {
      ReturnKeeps(s);
    } else if s.loop.PopNext? {
      StayKeeps(s, s.(loop := PopHead(s.loop.site)));
    } else {
      GiveUpKeeps(s, positive);
    }
  }

  lemma TurnKeeps(s: State, positive: bool, clear: bool)
    requires Inv(s)
    ensures Inv(ApplyTurn(s, positive, clear))
  {
    hide SeatInv, ChainInv, LinkInv, OwnerInv;
    match s.loop {
      case PopTail(_) => PopTailKeeps(s, positive, clear);
      case PopNext(_) => PopRestKeeps(s, positive, clear);
      case PopHead(_) => PopRestKeeps(s, positive, clear);
      case StubClear(_) => StubClearKeeps(s, positive, clear);
      case StubSwap(_) => StubSwapKeeps(s, positive, clear);
      case StubLink(_, _, _) => StubLinkKeeps(s, positive, clear);
      case PopLast(_) => PopRestKeeps(s, positive, clear);
      case Rouse(_) => SleepKeeps(s, positive, clear);
      case Dispatch(_, _) => DispatchKeeps(s, positive, clear);
      case Sleep => SleepKeeps(s, positive, clear);
      case Poll => WaitKeeps(s, positive, clear);
      case Blocked => WaitKeeps(s, positive, clear);
      case Awake => SleepKeeps(s, positive, clear);
    }
  }

  lemma StubClearKeeps(s: State, positive: bool, clear: bool)
    requires Inv(s) && s.loop.StubClear?
    ensures Inv(ApplyTurn(s, positive, clear))
  {
    var t := s.(next := s.next[Stub := Nil], loop := StubSwap(s.loop.site));
    ListFrame(s, t);
    StubOwner(s, t);
  }

  /** The loop's own push of the stub concerns no exchange. */
  lemma StubOwner(s: State, t: State)
    requires OwnerInv(s) && t.producers == s.producers && t.queued == s.queued && t.holder == s.holder
             && t.gone == s.gone
    requires !InHand(s.loop) && !InHand(t.loop)
    requires forall id :: InList(t, Ex(id)) ==> InList(s, Ex(id))
    requires forall p :: p in s.producers && s.producers[p].Swapping? ==> Next(t, Ex(s.producers[p].id)).Nil?
    ensures OwnerInv(t)
  {
  }

  lemma HeadEnds(s: State)
    requires ChainInv(s)
    ensures Next(s, s.head).Nil?
  {
  }

  predicate StubSwapped(s: State, t: State) {
    && s.loop.StubSwap?
    && t == s.(head := Stub, loop := StubLink(s.loop.site, s.head, |s.order|),
               order := s.order + [Stub], seat := s.seat[Stub := |s.order|])
  }

  lemma StubSwapKeeps(s: State, positive: bool, clear: bool)
    requires Inv(s) && s.loop.StubSwap?
    ensures Inv(ApplyTurn(s, positive, clear))
  {
    var t := ApplyTurn(s, positive, clear);
    assert StubSwapped(s, t);
    hide ApplyTurn;
    HeadEnds(s);
    hide ChainInv, SeatInv, LinkInv, OwnerInv, HistoryInv, WakeInv;
    StubSwapLinks(s, t);
    AppendKeeps(s, t, Stub);
    StubOwner(s, t);
    StubSwapWakes(s, t);
  }

  lemma StubSwapLinks(s: State, t: State)
    requires SeatInv(s) && LinkInv(s) && OwnerInv(s) && PopInv(s) && Next(s, s.head).Nil? && StubSwapped(s, t)
    ensures LinkInv(t) && PopInv(t) && Pending(t, |s.order|)
    ensures forall k :: 0 <= k < |s.order| && Pending(s, k) ==> Pending(t, k)
    ensures forall p :: p in s.producers && s.producers[p].Swapping? ==> Next(t, Ex(s.producers[p].id)).Nil?
  {
  }

  lemma StubSwapWakes(s: State, t: State)
    requires SeatInv(s) && HistoryInv(s) && WakeInv(s) && StubSwapped(s, t)
    ensures HistoryInv(t) && WakeInv(t)
  {
    assert t.order[..t.gone] == s.order[..s.gone];
    assert WriterReady(s) ==> WriterReady(t);
  }

  lemma StubLinkKeeps(s: State, positive: bool, clear: bool)
    requires Inv(s) && s.loop.StubLink?
    ensures Inv(ApplyTurn(s, positive, clear))
  {
    var t := ApplyTurn(s, positive, clear);
    LinkJoins(s, t, s.loop.at);
    StubLinks(s, t);
    assert WriterReady(s) ==> WriterReady(t);
  }

  lemma StubLinks(s: State, t: State)
    requires SeatInv(s) && LinkInv(s) && OwnerInv(s) && s.loop.StubLink?
    requires t == s.(next := s.next[s.loop.prev := To(Stub)], loop := PopLast(s.loop.site))
    ensures LinkInv(t) && OwnerInv(t)
  {
    assert InList(s, s.loop.prev);
    StubOwner(s, t);
  }

  // ----- Whole runs

  /** `acts` is an interleaving the program can take from `s`. */
  predicate Legal(s: State, acts: seq<Action>)
    decreases acts
  {
    acts == [] || (Enabled(s, acts[0]) && Legal(Apply(s, acts[0]), acts[1..]))
  }

  function Run(s: State, acts: seq<Action>): State
    requires Legal(s, acts)
    decreases acts
  {
    if acts == [] then s else Run(Apply(s, acts[0]), acts[1..])
  }

  lemma {:induction false} RunKeeps(s: State, acts: seq<Action>)
    requires Inv(s) && Legal(s, acts)
    ensures Inv(Run(s, acts))
    decreases acts
  {
    if acts != [] {
      match acts[0] {
        case Notify(p, id) => NotifyKeeps(s, p, id);
        case Submit(p) => SubmitKeeps(s, p);
        case Turn(positive, clear) => TurnKeeps(s, positive, clear);
      }
      RunKeeps(Apply(s, acts[0]), acts[1..]);
    }
  }

  lemma {:induction false} IdsConcat(a: seq<Node>, b: seq<Node>)
    ensures Ids(a + b) == Ids(a) + Ids(b)
  {
    if b == [] {
      assert a + b == a;
    } else {
      assert (a + b)[..|a + b| - 1] == a + b[..|b| - 1];
      IdsConcat(a, b[..|b| - 1]);
    }
  }

  /** In every interleaving the exchanges come out in the order their swaps went
      in, none lost and none twice: what was returned, followed by what is still
      between tail and head, is the swap order. The list never holds a node
      twice, an exchange in it carries `queued`, and every thread that still has
      a link to write will write it into a node of the list, never into a node
      that was handed out. */
  lemma QueueIsFifo(acts: seq<Action>)
    requires Legal(Init(), acts)
    ensures var s := Run(Init(), acts);
            && s.gone < |s.order|
            && s.returned + Ids(s.order[s.gone..]) == Ids(s.order)
            && (forall i, j :: s.gone <= i < j < |s.order| ==> s.order[i] != s.order[j])
            && (forall i :: s.gone <= i < |s.order| && s.order[i].Ex? ==> s.order[i].id in s.queued)
            && (forall p :: p in s.producers && s.producers[p].Linking? ==> s.producers[p].prev in s.order[s.gone..])
  {
    InitInv();
    RunKeeps(Init(), acts);
    FifoParts(Run(Init(), acts));
  }

  lemma FifoParts(s: State)
    requires SeatInv(s) && LinkInv(s) && OwnerInv(s) && HistoryInv(s)
    ensures s.returned + Ids(s.order[s.gone..]) == Ids(s.order)
    ensures forall i, j :: s.gone <= i < j < |s.order| ==> s.order[i] != s.order[j]
    ensures forall i :: s.gone <= i < |s.order| && s.order[i].Ex? ==> s.order[i].id in s.queued
    ensures forall p :: p in s.producers && s.producers[p].Linking? ==> s.producers[p].prev in s.order[s.gone..]
  {
    Split(s);
    forall p | p in s.producers && s.producers[p].Linking?
      ensures s.producers[p].prev in s.order[s.gone..]
    {
      assert s.order[s.gone..][s.producers[p].at - 1 - s.gone] == s.producers[p].prev;
    }
    forall i | s.gone <= i < |s.order| && s.order[i].Ex?
      ensures s.order[i].id in s.queued
    {
      assert InList(s, Ex(s.order[i].id));
    }
  }

  lemma Split(s: State)
    requires s.gone <= |s.order| && HistoryInv(s)
    ensures s.returned + Ids(s.order[s.gone..]) == Ids(s.order)
  {
    IdsConcat(s.order[..s.gone], s.order[s.gone..]);
    assert s.order[..s.gone] + s.order[s.gone..] == s.order;
  }

  /** No thread is between the swap of its submission and its look at `sleeping`
      or its write of the wake descriptor. */
  predicate SubmittersDone(s: State) {
    forall p :: p in s.producers ==> s.producers[p].Clearing? || s.producers[p].Swapping?
  }

  predicate AllConsumed(s: State) {
    s.returned == Ids(s.order)
  }

  lemma {:induction false} IdsNone(ns: seq<Node>)
    ensures Ids(ns) == [] <==> forall i :: 0 <= i < |ns| ==> ns[i] == Stub
  {
    if ns != [] {
      IdsNone(ns[..|ns| - 1]);
      assert forall i :: 0 <= i < |ns| - 1 ==> ns[..|ns| - 1][i] == ns[i];
    }
  }

  lemma ConsumedMeansNoneWaiting(s: State)
    requires SeatInv(s) && HistoryInv(s)
    ensures AllConsumed(s) <==> !Waiting(s)
  {
    hide Ids, SeatInv;
    Split(s);
    IdsNone(s.order[s.gone..]);
    WaitingIs(s);
  }

  lemma WaitingIs(s: State)
    requires SeatInv(s)
    ensures Waiting(s) <==> exists i :: 0 <= i < |s.order[s.gone..]| && s.order[s.gone..][i] != Stub
  {
    if id :| InList(s, Ex(id)) {
      assert s.order[s.gone..][s.seat[Ex(id)] - s.gone] == Ex(id);
    }
    if i :| 0 <= i < |s.order[s.gone..]| && s.order[s.gone..][i] != Stub {
      var n := s.order[s.gone + i];
      assert InList(s, Ex(n.id));
    }
  }

  /** No lost wake-up: when the loop is blocked with a positive timeout, no wake
      token is pending and nobody is inside a submission, every submission has
      been consumed. */
  lemma NoLostWakeup(acts: seq<Action>)
    requires Legal(Init(), acts)
    ensures var s := Run(Init(), acts);
            s.loop.Blocked? && !s.token && SubmittersDone(s) ==> AllConsumed(s)
  {
    var s := Run(Init(), acts);
    InitInv();
    RunKeeps(Init(), acts);
    ConsumedMeansNoneWaiting(s);
  }

  // ----- Completed submissions

  datatype Stage = AtClear | AtSwap | AtLink | AtWake | AtWrite

  function StageOf(p: Producer): Stage {
    match p
    case Clearing(_) => AtClear
    case Swapping(_) => AtSwap
    case Linking(_, _, _) => AtLink
    case Waking => AtWake
    case Writing => AtWrite
  }

  /** Position `k` was taken by a submission that is over: its thread has left
      `submit`, or is inside a later one. */
  ghost predicate Completed(s: State, k: nat) {
    && k < |s.order| && s.order[k].Ex?
    && (k in s.linker && s.linker[k] in s.producers ==>
          var p := s.linker[k];
          match s.producers[p]
          case Clearing(_) => true
          case Swapping(_) => true
          case Linking(_, _, at) => at != k
          case _ => exists j :: k < j && j in s.linker && s.linker[j] == p)
  }

  /** Every completed submission has been popped. */
  ghost predicate CompletedSeen(s: State) {
    forall k: nat :: Completed(s, k) ==> k < s.gone
  }

  /** The loop is blocked, no token is pending, and every thread inside a
      submission is at one of these stages. */
  predicate Sleeps(s: State, stages: set<Stage>) {
    s.loop.Blocked? && !s.token && forall p :: p in s.producers ==> StageOf(s.producers[p]) in stages
  }

  /** A completed submission that a blocked loop has not seen, with no token
      pending, has a thread behind it that is past its swap and not yet out of
      `submit`. */
  lemma UnseenHasInsider(acts: seq<Action>)
    requires Legal(Init(), acts)
    ensures var s := Run(Init(), acts);
            s.loop.Blocked? && !s.token && !CompletedSeen(s) ==>
              exists p :: p in s.producers && StageOf(s.producers[p]) in {AtLink, AtWake, AtWrite}
  {
    var s := Run(Init(), acts);
    InitInv();
    RunKeeps(Init(), acts);
    if s.loop.Blocked? && !s.token && !CompletedSeen(s) {
      UnseenWaits(s);
      if s.sleeping {
        var p :| p in s.producers && (s.producers[p].Linking? || s.producers[p].Waking?);
      } else {
        var p :| p in s.producers && s.producers[p].Writing?;
      }
    }
  }

  lemma UnseenWaits(s: State)
    requires SeatInv(s) && !CompletedSeen(s)
    ensures Waiting(s)
  {
    var k: nat :| Completed(s, k) && k >= s.gone;
    assert InList(s, s.order[k]);
  }

  /** The exact condition on the threads: with the threads inside a submission kept
      to these stages, every completed submission is seen by every loop that
      sleeps, if and only if the stages are those before the swap. */
  lemma CompletedSeenExactly(stages: set<Stage>)
    ensures (forall acts :: Legal(Init(), acts) && Sleeps(Run(Init(), acts), stages) ==>
              CompletedSeen(Run(Init(), acts)))
            <==> stages !! {AtLink, AtWake, AtWrite}
  {
    hide Legal, Run, CompletedSeen, Completed;
    if stages !! {AtLink, AtWake, AtWrite} {
      forall acts | Legal(Init(), acts) && Sleeps(Run(Init(), acts), stages)
        ensures CompletedSeen(Run(Init(), acts))
      {
        UnseenHasInsider(acts);
      }
    } else {
      var stage :| stage in stages && stage in {AtLink, AtWake, AtWrite};
      var acts := CompletedSubmitUnseen(stage);
      assert Sleeps(Run(Init(), acts), stages);
    }
  }

  /** Of all that was swapped in, completed or not: a blocked loop without token, all of whose past submitters
      have looked at `sleeping`, has consumed everything if and only if no thread
      stands between its swap and its link. */
  lemma ConsumedIffNoGap(acts: seq<Action>)
    requires Legal(Init(), acts)
    ensures var s := Run(Init(), acts);
            s.loop.Blocked? && !s.token
              && (forall p :: p in s.producers ==> !s.producers[p].Waking? && !s.producers[p].Writing?) ==>
              (AllConsumed(s) <==> forall p :: p in s.producers ==> !s.producers[p].Linking?)
  {
    var s := Run(Init(), acts);
    InitInv();
    RunKeeps(Init(), acts);
    ConsumedMeansNoneWaiting(s);
    if p :| p in s.producers && s.producers[p].Linking? {
      assert InList(s, Ex(s.producers[p].id));
    }
  }

  /** The steps `more`, all of them thread `p`'s own, leave a token for the blocked
      loop. */
  predicate WakesBy(s: State, p: nat, more: seq<Action>) {
    && (forall i :: 0 <= i < |more| ==> more[i] == Submit(p))
    && Legal(s, more) && Run(s, more).loop.Blocked? && Run(s, more).token
  }

  /** Whenever the loop sleeps over unconsumed work without a token, some thread
      inside its submission will, by its own next steps alone, leave a token. */
  lemma SomeSubmitterWakes(acts: seq<Action>)
    requires Legal(Init(), acts)
    ensures var s := Run(Init(), acts);
            s.loop.Blocked? && !s.token && !AllConsumed(s) ==>
              exists p, more :: p in s.producers && !s.producers[p].Clearing? && !s.producers[p].Swapping?
                && WakesBy(s, p, more)
  {
    hide Apply;
    var s := Run(Init(), acts);
    if s.loop.Blocked? && !s.token && !AllConsumed(s) {
      InitInv();
      RunKeeps(Init(), acts);
      ConsumedMeansNoneWaiting(s);
      if s.sleeping {
        var p :| p in s.producers && (s.producers[p].Linking? || s.producers[p].Waking?);
        if s.producers[p].Linking? { LinkingWakes(s, p); } else { WakingWakes(s, p); }
      } else {
        var p :| p in s.producers && s.producers[p].Writing?;
        WritingWakes(s, p);
      }
    }
  }

  lemma WritingWakes(s: State, p: nat)
    requires p in s.producers && s.producers[p].Writing? && s.loop.Blocked?
    ensures WakesBy(s, p, [Submit(p)])
  {
    var more := [Submit(p)];
    assert more[1..] == [];
    assert Legal(Apply(s, Submit(p)), []);
    assert Run(s, more) == Apply(s, Submit(p));
  }

  lemma WakingWakes(s: State, p: nat)
    requires p in s.producers && s.producers[p].Waking? && s.sleeping && s.loop.Blocked?
    ensures WakesBy(s, p, [Submit(p), Submit(p)])
  {
    var more := [Submit(p), Submit(p)];
    assert more[1..] == [Submit(p)];
    WritingWakes(Apply(s, Submit(p)), p);
  }

  lemma LinkingWakes(s: State, p: nat)
    requires p in s.producers && s.producers[p].Linking? && s.sleeping && s.loop.Blocked?
    ensures WakesBy(s, p, [Submit(p), Submit(p), Submit(p)])
  {
    var more := [Submit(p), Submit(p), Submit(p)];
    assert more[1..] == [Submit(p), Submit(p)];
    WakingWakes(Apply(s, Submit(p)), p);
  }

  /** Without the condition the claim fails: thread 0 stops between its swap and
      its link, thread 1 submits to completion behind it, and the loop goes to
      sleep with no token although exchange 1 is in the queue. It is still asleep
      when thread 0 has linked, and when it is about to write the descriptor. */
  lemma CompletedSubmitUnseen(stage: Stage) returns (acts: seq<Action>)
    requires stage in {AtLink, AtWake, AtWrite}
    ensures Legal(Init(), acts)
    ensures var s := Run(Init(), acts);
            && s.loop.Blocked? && !s.token && 1 !in s.producers && InList(s, Ex(1))
            && s.producers.Keys == {0} && StageOf(s.producers[0]) == stage && !CompletedSeen(s)
  {
    var u;
    u, acts := AsleepOverGap();
    var one := Submit(0);
    var v := Apply(u, one);
    var w := Apply(v, one);
    Step1(u, one, []);
    Step1(v, one, []);
    Step1(u, one, [one]);
    assert [one] + [] == [one] && [one] + [one] == [one, one];
    assert Completed(u, 2) && Completed(v, 2) && Completed(w, 2);
    if stage == AtWake {
      RunConcat(Init(), acts, [one]);
      acts := acts + [one];
    } else if stage == AtWrite {
      RunConcat(Init(), acts, [one, one]);
      acts := acts + [one, one];
    }
  }

  lemma AsleepOverGap() returns (u: State, acts: seq<Action>)
    ensures Legal(Init(), acts) && Run(Init(), acts) == u
    ensures u.loop.Blocked? && !u.token && u.sleeping && u.producers == map[0 := Linking(Stub, 0, 1)]
    ensures u.gone == 0 && u.order == [Stub, Ex(0), Ex(1)] && Ex(1) in u.seat && u.seat[Ex(1)] == 2
    ensures 2 in u.linker && u.linker[2] == 1
  {
    var s, first := StalledSwap();
    var t, second := SubmitBehind(s);
    var third;
    u, third := FallAsleep(t);
    acts := first + (second + third);
    RunConcat(s, second, third);
    RunConcat(Init(), first, second + third);
  }

  /** The loop finds nothing linked behind the stub, twice. */
  lemma FallAsleep(t: State) returns (u: State, acts: seq<Action>)
    requires t.loop == PopTail(Drain) && t.tail == Stub && Next(t, Stub).Nil? && !t.drained
    ensures Legal(t, acts) && Run(t, acts) == u && u == t.(loop := Blocked, sleeping := true)
  {
    var go := Turn(true, false);
    acts := [go, go, go];
    u := t.(loop := Blocked, sleeping := true);
    assert Apply(t, go) == t.(loop := Sleep);
    assert Apply(t.(loop := Sleep), go) == t.(loop := PopTail(Recheck), sleeping := true);
    Steps3(t, go, go, go, []);
    assert [go, go, go] + [] == [go, go, go];
  }

  lemma StalledSwap() returns (s: State, acts: seq<Action>)
    ensures Legal(Init(), acts) && Run(Init(), acts) == s
    ensures s == Init().(head := Ex(0), next := map[Ex(0) := Nil], queued := {0},
                         producers := map[0 := Linking(Stub, 0, 1)], order := [Stub, Ex(0)],
                         seat := map[Stub := 0, Ex(0) := 1], linker := map[1 := 0], holder := map[0 := 0])
  {
    acts := [Notify(0, 0), Submit(0), Submit(0)];
    var s1 := Apply(Init(), acts[0]);
    var s2 := Apply(s1, acts[1]);
    s := Apply(s2, acts[2]);
    Steps3(Init(), acts[0], acts[1], acts[2], []);
    assert acts == acts + [];
  }

  lemma SubmitBehind(s: State) returns (t: State, acts: seq<Action>)
    requires s.head == Ex(0) && s.order == [Stub, Ex(0)] && 1 !in s.producers && 1 !in s.queued && !s.sleeping
    ensures Legal(s, acts) && Run(s, acts) == t
    ensures t.order == [Stub, Ex(0), Ex(1)] && t.tail == s.tail && t.loop == s.loop && t.drained == s.drained
    ensures !t.sleeping && t.token == s.token && t.returned == s.returned && t.gone == s.gone
    ensures t.producers == s.producers && t.linker == s.linker[2 := 1]
    ensures Ex(1) in t.seat && t.seat[Ex(1)] == 2 && Next(t, Stub) == Next(s, Stub)
  {
    acts := [Notify(1, 1), Submit(1), Submit(1)];
    var s1 := Apply(s, acts[0]);
    var s2 := Apply(s1, acts[1]);
    var s3 := Apply(s2, acts[2]);
    var s4 := Apply(s3, Submit(1));
    t := Apply(s4, Submit(1));
    Steps3(s, acts[0], acts[1], acts[2], [Submit(1), Submit(1)]) by {
      assert [Submit(1), Submit(1)][1..] == [Submit(1)] && [Submit(1)][1..] == [];
      assert Legal(t, []) && Legal(s4, [Submit(1)]);
    }
    assert [Submit(1), Submit(1)][1..] == [Submit(1)] && [Submit(1)][1..] == [];
    assert Run(s4, [Submit(1)]) == t && Run(s3, [Submit(1), Submit(1)]) == t;
    acts := acts + [Submit(1), Submit(1)];
  }

  lemma {:induction false} RunConcat(s: State, a: seq<Action>, b: seq<Action>)
    requires Legal(s, a) && Legal(Run(s, a), b)
    ensures Legal(s, a + b) && Run(s, a + b) == Run(Run(s, a), b)
    decreases a
  {
    if a == [] {
      assert a + b == b;
    } else {
      assert (a + b)[1..] == a[1..] + b;
      RunConcat(Apply(s, a[0]), a[1..], b);
    }
  }

  lemma Step1(s: State, a: Action, rest: seq<Action>)
    requires Enabled(s, a) && Legal(Apply(s, a), rest)
    ensures Legal(s, [a] + rest) && Run(s, [a] + rest) == Run(Apply(s, a), rest)
  {
    assert ([a] + rest)[1..] == rest;
  }

  lemma Steps3(s: State, a: Action, b: Action, c: Action, rest: seq<Action>)
    requires Enabled(s, a) && Enabled(Apply(s, a), b) && Enabled(Apply(Apply(s, a), b), c)
    requires Legal(Apply(Apply(Apply(s, a), b), c), rest)
    ensures Legal(s, [a, b, c] + rest)
    ensures Run(s, [a, b, c] + rest) == Run(Apply(Apply(Apply(s, a), b), c), rest)
  {
    Step1(Apply(Apply(s, a), b), c, rest);
    Step1(Apply(s, a), b, [c] + rest);
    Step1(s, a, [b] + ([c] + rest));
    assert [a, b, c] + rest == [a] + ([b] + ([c] + rest));
  }
}
