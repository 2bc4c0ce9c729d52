/** How other goroutines hand work to an epoll worker and wake it:
    `postTask`, `pushH1Done`, `drainTasks`, `finishH1Done` and `waitEvents` of
    core/epoll_backend_linux_amd64.go.

    Each access to the task channel, to `h1Done`, `taskPending`, `parked` and the
    wake descriptor is one atomic step, interleaved in any way. Items are numbered
    as they are posted; `conn` is the connection whose completion an item is, and
    the compare-and-swap on `h1Done` compares connections, so one that was finished
    and pushed again in between looks the same. `owner`, `sent`, `ran`, `pushed` and `finished` are
    history: the goroutine that posts an item, the tasks in send order, those that
    ran, the completions in the order their compare-and-swap went through, and
    those that were finished. No step looks at them. */
module WorkerWake {
  import opened ByteStrings

  /** A goroutine inside `postTask` or `pushH1Done`, carrying item `x`. */
  datatype Poster =
    | Sending(x: nat)
    | Loading(x: nat)
    | Swapping(x: nat, seen: Option<nat>)
    | Storing(x: nat)
    | Looking(x: nat)
    | Writing(x: nat)

  /** The worker: in its rounds, at the steps of `drainTasks`, at the steps of
      `waitEvents`. `taken` is the list the drain took out of `h1Done`. */
  datatype Worker =
    | Working
    | DrainSwap
    | DrainChan(taken: seq<nat>)
    | Checking
    | Poll
    | Blocked

  datatype State = State(
    tasks: seq<nat>,
    done: seq<nat>,
    taskPending: bool,
    parked: bool,
    token: bool,
    posters: map<nat, Poster>,
    worker: Worker,
    conn: map<nat, nat>,
    items: nat,
    owner: map<nat, nat>,
    sent: seq<nat>,
    ran: seq<nat>,
    pushed: seq<nat>,
    finished: seq<nat>)

  function Init(): State {
    State([], [], false, false, false, map[], Working, map[], 0, map[], [], [], [], [])
  }

  datatype Action =
    | PostTask(p: nat)
    | PushDone(p: nat, c: nat)
    | Proceed(p: nat)
    | ReadWake
    | Drain
    | Park
    | Turn(zero: bool)

  predicate Enabled(s: State, a: Action) {
    match a
    case PostTask(p) => p !in s.posters
    case PushDone(p, _) => p !in s.posters
    case Proceed(p) => p in s.posters
    case ReadWake => s.worker.Working?
    case Drain => s.worker.Working? && s.taskPending
    case Park => s.worker.Working?
    case Turn(_) => !s.worker.Working?
  }

  function ConnOf(s: State, x: nat): nat {
    if x in s.conn then s.conn[x] else 0
  }

  /** What `h1Done` points to. */
  function Top(s: State): Option<nat> {
    if s.done == [] then None else Some(ConnOf(s, s.done[0]))
  }

  function Reverse<T>(l: seq<T>): seq<T> {
    if l == [] then [] else Reverse(l[1..]) + [l[0]]
  }

  function Move(s: State, p: nat): State
    requires p in s.posters
  {
    match s.posters[p]
    case Sending(x) =>
      s.(tasks := s.tasks + [x], sent := s.sent + [x], posters := s.posters[p := Storing(x)])
    case Loading(x) => s.(posters := s.posters[p := Swapping(x, Top(s))])
    case Swapping(x, seen) =>
      if Top(s) == seen then
        s.(done := [x] + s.done, pushed := s.pushed + [x], posters := s.posters[p := Storing(x)])
      else s.(posters := s.posters[p := Loading(x)])
    case Storing(x) => s.(taskPending := true, posters := s.posters[p := Looking(x)])
    case Looking(x) =>
      if s.parked then s.(posters := s.posters[p := Writing(x)]) else s.(posters := s.posters - {p})
    case Writing(x) => s.(token := true, posters := s.posters - {p})
  }

  function Apply(s: State, a: Action): State
    requires Enabled(s, a)
  {
    match a
    case PostTask(p) =>
      s.(items := s.items + 1, owner := s.owner[s.items := p], posters := s.posters[p := Sending(s.items)])
    case PushDone(p, c) =>
      s.(items := s.items + 1, owner := s.owner[s.items := p], conn := s.conn[s.items := c],
      posters := s.posters[p := Loading(s.items)])
    case Proceed(p) => Move(s, p)
    case ReadWake => s.(token := false)
    case Drain => s.(taskPending := false, worker := DrainSwap)
    case Park => s.(parked := true, worker := Checking)
    case Turn(zero) => TurnWorker(s, zero)
  }

  function TurnWorker(s: State, zero: bool): State
    requires !s.worker.Working?
  {
    match s.worker
    case DrainSwap => s.(done := [], worker := DrainChan(s.done))
    case DrainChan(taken) =>
      if s.tasks != [] then s.(tasks := s.tasks[1..], ran := s.ran + [s.tasks[0]])
      else s.(worker := Working, finished := s.finished + Reverse(taken))
    case Checking => if s.taskPending || zero then s.(worker := Poll) else s.(worker := Blocked)
    case Poll => s.(parked := false, worker := Working)
    case Blocked => s.(parked := false, worker := Working)
  }

  // ----- What holds in every reachable state

  predicate Inside(s: State, x: nat) {
    x in s.owner && s.owner[x] in s.posters && s.posters[s.owner[x]].x == x
  }

  /** An item in the channel or in `h1Done` is announced: its poster has yet to
      set `taskPending`, or it is set, or the drain that cleared it comes by. */
  predicate Announced(s: State, x: nat, draining: bool) {
    s.taskPending || draining || (Inside(s, x) && s.posters[s.owner[x]].Storing?)
  }

  ghost predicate AnnounceInv(s: State) {
    && (forall x :: x in s.tasks ==> Announced(s, x, s.worker.DrainSwap? || s.worker.DrainChan?))
    && (forall x :: x in s.done ==> Announced(s, x, s.worker.DrainSwap?))
  }

  ghost predicate BlockInv(s: State) {
    && (s.parked <==> s.worker.Checking? || s.worker.Poll? || s.worker.Blocked?)
    && (s.worker.Blocked? && !s.token ==>
          (forall x :: x in s.tasks ==> Inside(s, x)) && (forall x :: x in s.done ==> Inside(s, x)))
  }

  ghost predicate OwnerInv(s: State) {
    && (forall p :: p in s.posters ==>
        s.posters[p].x < s.items && s.posters[p].x in s.owner && s.owner[s.posters[p].x] == p)
    && (forall x :: x in s.tasks ==> x < s.items)
    && (forall x :: x in s.done ==> x < s.items)
  }

  function Taken(w: Worker): seq<nat> {
    if w.DrainChan? then w.taken else []
  }

  predicate OrderInv(s: State) {
    && s.sent == s.ran + s.tasks
    && s.pushed == s.finished + Reverse(Taken(s.worker)) + Reverse(s.done)
  }

  ghost predicate Inv(s: State) {
    AnnounceInv(s) && BlockInv(s) && OwnerInv(s) && OrderInv(s)
  }

  lemma InitInv()
    ensures Inv(Init())
  {
  }

  lemma PostKeeps(s: State, a: Action)
    requires Inv(s) && Enabled(s, a) && (a.PostTask? || a.PushDone?)
    ensures Inv(Apply(s, a))
  {
    var t := Apply(s, a);
    assert forall x: nat :: x < s.items && Inside(s, x) ==>
             Inside(t, x) && t.posters[t.owner[x]] == s.posters[s.owner[x]];
  }

  lemma OthersInside(s: State, t: State, p: nat)
    requires OwnerInv(s) && p in s.posters && t.owner == s.owner
    requires forall q :: q in s.posters && q != p ==> q in t.posters && t.posters[q] == s.posters[q]
    ensures forall x :: Inside(s, x) && x != s.posters[p].x ==>
              Inside(t, x) && t.posters[t.owner[x]] == s.posters[s.owner[x]]
  {
  }

  lemma MoveKeeps(s: State, p: nat)
    requires Inv(s) && p in s.posters
    ensures Inv(Move(s, p))
  {
    MoveOrder(s, p);
    MoveOwner(s, p);
    if s.posters[p].Sending? || s.posters[p].Loading? || s.posters[p].Swapping? {
      PutKeeps(s, p);
    } else {
      FlagKeeps(s, p);
    }
  }

  /** The item goes in; its poster still has to set `taskPending`. */
  lemma PutKeeps(s: State, p: nat)
    requires AnnounceInv(s) && BlockInv(s) && OwnerInv(s)
    requires p in s.posters && (s.posters[p].Sending? || s.posters[p].Loading? || s.posters[p].Swapping?)
    ensures AnnounceInv(Move(s, p)) && BlockInv(Move(s, p))
  {
    hide Top, AnnounceInv, BlockInv, OwnerInv, Steps;
    MoveFrame(s, p);
    PutFrame(s, Move(s, p), p);
  }

  lemma PutFrame(s: State, t: State, p: nat)
    requires AnnounceInv(s) && BlockInv(s) && OwnerInv(s) && Steps(s, t, p) && p in t.posters
    requires t.taskPending == s.taskPending && t.token == s.token && !s.posters[p].Storing?
    requires (t.tasks == s.tasks && t.done == s.done) || t.posters[p].Storing?
    ensures AnnounceInv(t) && BlockInv(t)
  {
    OthersInside(s, t, p);
    assert Inside(t, s.posters[p].x);
    assert forall x :: x in t.tasks ==> x in s.tasks || (x == s.posters[p].x && t.posters[p].Storing?);
    assert forall x :: x in t.done ==> x in s.done || (x == s.posters[p].x && t.posters[p].Storing?);
    assert forall x :: Inside(s, x) && s.posters[s.owner[x]].Storing? ==>
             Inside(t, x) && t.posters[t.owner[x]].Storing?;
  }

  /** `taskPending` is set, then `parked` is looked at, then the token written. */
  lemma FlagKeeps(s: State, p: nat)
    requires AnnounceInv(s) && BlockInv(s) && OwnerInv(s)
    requires p in s.posters && (s.posters[p].Storing? || s.posters[p].Looking? || s.posters[p].Writing?)
    ensures AnnounceInv(Move(s, p)) && BlockInv(Move(s, p))
  {
    var t := Move(s, p);
    OthersInside(s, t, p);
    assert t.tasks == s.tasks && t.done == s.done && t.worker == s.worker;
  }

  lemma MoveOrder(s: State, p: nat)
    requires OrderInv(s) && p in s.posters
    ensures OrderInv(Move(s, p))
  {
    hide Top;
    if s.posters[p].Swapping? && Top(s) == s.posters[p].seen {
      assert ([s.posters[p].x] + s.done)[1..] == s.done;
    }
  }

  lemma MoveOwner(s: State, p: nat)
    requires OwnerInv(s) && p in s.posters
    ensures OwnerInv(Move(s, p))
  {
    hide Top, OwnerInv;
    MoveFrame(s, p);
    OwnerFrame(s, Move(s, p), p);
  }

  /** What a poster's step may change: its own state, and its item may go in. */
  predicate Steps(s: State, t: State, p: nat) {
    && p in s.posters && t.items == s.items && t.owner == s.owner && t.worker == s.worker && t.parked == s.parked
    && (t.posters == s.posters - {p}
      || (p in t.posters && t.posters == s.posters[p := t.posters[p]] && t.posters[p].x == s.posters[p].x))
    && (t.tasks == s.tasks || t.tasks == s.tasks + [s.posters[p].x])
    && (t.done == s.done || t.done == [s.posters[p].x] + s.done)
  }

  lemma MoveFrame(s: State, p: nat)
    requires p in s.posters
    ensures Steps(s, Move(s, p), p)
  {
    hide Top;
    if s.posters[p].Sending? || s.posters[p].Loading? || s.posters[p].Swapping? {
      PutMove(s, p);
    } else {
      FlagMove(s, p);
    }
  }

  lemma PutMove(s: State, p: nat)
    requires p in s.posters && (s.posters[p].Sending? || s.posters[p].Loading? || s.posters[p].Swapping?)
    ensures Steps(s, Move(s, p), p)
  {
    hide Top;
  }

  lemma FlagMove(s: State, p: nat)
    requires p in s.posters && (s.posters[p].Storing? || s.posters[p].Looking? || s.posters[p].Writing?)
    ensures Steps(s, Move(s, p), p)
  {
    hide Top;
  }

  lemma OwnerFrame(s: State, t: State, p: nat)
    requires OwnerInv(s) && Steps(s, t, p)
    ensures OwnerInv(t)
  {
  }

  /** The drain: `taskPending` is cleared before anything is taken out. */
  lemma DrainKeeps(s: State, a: Action)
    requires Inv(s) && Enabled(s, a) && (a.Drain? || (a.Turn? && s.worker.DrainSwap?))
    ensures Inv(Apply(s, a))
  {
    var t := Apply(s, a);
    assert t.posters == s.posters && t.owner == s.owner && t.tasks == s.tasks;
    assert t.done == s.done || t.done == [];
  }

  lemma ReceiveKeeps(s: State, a: Action)
    requires Inv(s) && a.Turn? && s.worker.DrainChan?
    ensures Inv(Apply(s, a))
  {
    var t := Apply(s, a);
    ReceiveOrder(s, a);
    if s.tasks == [] {
      assert t == s.(worker := Working, finished := t.finished);
    } else {
      assert t == s.(tasks := s.tasks[1..], ran := t.ran);
      assert forall x :: x in t.tasks ==> x in s.tasks;
    }
  }

  lemma ReceiveOrder(s: State, a: Action)
    requires OrderInv(s) && a.Turn? && s.worker.DrainChan?
    ensures OrderInv(Apply(s, a))
  {
    if s.tasks != [] {
      assert s.tasks == [s.tasks[0]] + s.tasks[1..];
    }
  }

  /** The way into epoll_wait and out of it: `parked` is set before
      `taskPending` is looked at. */
  lemma WaitKeeps(s: State, a: Action)
    requires Inv(s) && Enabled(s, a)
    requires a.ReadWake? || a.Park? || (a.Turn? && !s.worker.DrainSwap? && !s.worker.DrainChan?)
    ensures Inv(Apply(s, a))
  {
    hide AnnounceInv, OwnerInv, OrderInv;
    var t := Apply(s, a);
    SameItems(s, t);
    if !s.taskPending { AnnouncedInside(s); }
    assert forall x :: Inside(s, x) <==> Inside(t, x);
  }

  lemma SameItems(s: State, t: State)
    requires AnnounceInv(s) && OwnerInv(s) && OrderInv(s)
    requires t == s.(worker := t.worker, parked := t.parked, token := t.token) && Taken(t.worker) == Taken(s.worker)
    requires !s.worker.DrainSwap? && !s.worker.DrainChan?
    ensures AnnounceInv(t) && OwnerInv(t) && OrderInv(t)
  {
    assert forall x :: Inside(s, x) <==> Inside(t, x);
  }

  /** With `taskPending` clear and no drain under way, posters are still inside. */
  lemma AnnouncedInside(s: State)
    requires AnnounceInv(s) && !s.taskPending && !s.worker.DrainSwap? && !s.worker.DrainChan?
    ensures forall x :: x in s.tasks || x in s.done ==> Inside(s, x)
  {
  }

  // ----- Whole runs

  predicate Legal(s: State, acts: seq<Action>)
    decreases acts
  {
    acts == [] || (Enabled(s, acts[0]) && Legal(Apply(s, acts[0]), acts[1..]))
  }

  function Run(s: State, acts: seq<Action>): State
    requires Legal(s, acts)
    decreases acts
  {
    if acts == [] then s else Run(Apply(s, acts[0]), acts[1..])
  }

  lemma {:induction false} RunKeeps(s: State, acts: seq<Action>)
    requires Inv(s) && Legal(s, acts)
    ensures Inv(Run(s, acts))
    decreases acts
  {
    if acts != [] {
      match acts[0] {
        case PostTask(_) => PostKeeps(s, acts[0]);
        case PushDone(_, _) => PostKeeps(s, acts[0]);
        case Proceed(p) => MoveKeeps(s, p);
        case Turn(_) =>
          if s.worker.DrainSwap? { DrainKeeps(s, acts[0]); }
          else if s.worker.DrainChan? { ReceiveKeeps(s, acts[0]); }
          else { WaitKeeps(s, acts[0]); }
        case Drain => DrainKeeps(s, acts[0]);
        case _ => WaitKeeps(s, acts[0]);
      }
      RunKeeps(Apply(s, acts[0]), acts[1..]);
    }
  }

  /** No lost wake-up: while the worker is blocked with a positive timeout and no
      wake token is pending, every item that was sent or pushed has been run or
      finished, except those whose own poster has not yet returned. */
  lemma NoLostWakeup(acts: seq<Action>)
    requires Legal(Init(), acts)
    ensures var s := Run(Init(), acts);
            s.worker.Blocked? && !s.token ==>
              && (forall x :: x in s.sent && !Inside(s, x) ==> x in s.ran)
              && (forall x :: x in s.pushed && !Inside(s, x) ==> x in s.finished)
  {
    InitInv();
    RunKeeps(Init(), acts);
    var s := Run(Init(), acts);
    forall x | x in s.pushed && x !in s.finished
      ensures s.worker.Blocked? ==> x in s.done
    {
      ReverseMembers(s.done);
    }
  }

  lemma {:induction false} ReverseMembers(l: seq<nat>)
    ensures forall x :: x in Reverse(l) <==> x in l
  {
    if l != [] { ReverseMembers(l[1..]); }
  }

  /** Tasks run in send order, and completions are finished in the order their
      pushes went through, over all drains together: each history is what was
      consumed followed by what is still waiting. */
  lemma ConsumedInOrder(acts: seq<Action>)
    requires Legal(Init(), acts)
    ensures var s := Run(Init(), acts);
            && s.ran <= s.sent
            && s.finished <= s.pushed
            && (s.tasks == [] ==> s.ran == s.sent)
            && (s.done == [] && !s.worker.DrainChan? ==> s.finished == s.pushed)
  {
    InitInv();
    RunKeeps(Init(), acts);
  }

  // ----- The list behind `h1Done`

  /** The part of a connection that the completion list is threaded through. */
  class Conn {
    var h1DoneNext: Conn?

    constructor ()
      ensures h1DoneNext == null
    {
      h1DoneNext := null;
    }
  }

  function At(l: seq<Conn>, i: int): Conn? {
    if 0 <= i < |l| then l[i] else null
  }

  /** Following `h1DoneNext` from `head` visits the connections of `l`, each once. */
  ghost predicate Threaded(head: Conn?, l: seq<Conn>)
    reads l
  {
    && head == At(l, 0)
    && (forall i {:trigger l[i].h1DoneNext} :: 0 <= i < |l| ==> l[i].h1DoneNext == At(l, i + 1))
    && (forall i, j :: 0 <= i < j < |l| ==> l[i] != l[j])
  }

  /** `finishH1Done`: the list a drain took out of `h1Done`, newest first, is
      turned around in place and finished in push order; every connection leaves
      with its link cleared. */
  method FinishH1Done(head: Conn?, ghost l: seq<Conn>) returns (finished: seq<Conn>)
    requires Threaded(head, l)
    modifies l
    ensures finished == Reverse(l)
    ensures forall c :: c in l ==> c.h1DoneNext == null
  {
    var ordered: Conn? := null;
    var c := head;
    ghost var k := 0;
    while c != null
      invariant 0 <= k <= |l| && c == At(l, k) && ordered == At(l, k - 1)
      invariant forall i {:trigger l[i].h1DoneNext} :: 0 <= i < k ==> l[i].h1DoneNext == At(l, i - 1)
      invariant forall i {:trigger l[i].h1DoneNext} :: k <= i < |l| ==> l[i].h1DoneNext == At(l, i + 1)
      decreases |l| - k
    {
      var next := c.h1DoneNext;
      c.h1DoneNext := ordered;
      ordered := c;
      c := next;
      k := k + 1;
    }
    finished := [];
    while ordered != null
      invariant 0 <= k <= |l| && ordered == At(l, k - 1) && finished == Reverse(l[k..])
      invariant forall i {:trigger l[i].h1DoneNext} :: 0 <= i < k ==> l[i].h1DoneNext == At(l, i - 1)
      invariant forall i {:trigger l[i].h1DoneNext} :: k <= i < |l| ==> l[i].h1DoneNext == null
      decreases k
    {
      c := ordered;
      ordered := c.h1DoneNext;
      c.h1DoneNext := null;
      finished := finished + [c];
      k := k - 1;
      assert l[k..][1..] == l[k + 1..];
    }
    assert l[0..] == l;
  }
}
