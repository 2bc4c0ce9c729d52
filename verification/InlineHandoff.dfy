/** The inline run / hand-off / watchdog protocol of
    core/epoll_inline_linux_amd64.go, with the part of the worker loop of
    core/epoll_backend_linux_amd64.go that calls it.

    A handler that runs inline blocks its worker's event loop, so the loop can be
    handed to a successor goroutine while the handler is still at work: by the
    watchdog that saw one run twice, by the handler leaving inline mode, or by a
    handler that exits its goroutine. Each access to `inlineRun` is one atomic
    step, and any goroutine or the watchdog may take the next step.

    `driver`, `base`, `takenBy`, `starts`, `handoffs` and `spawned` are history;
    no step looks at them. `inlineSeq` is a counter without wrap-around. */
module InlineHandoff {

  /** The word `inlineRun`: 0, the sequence number of a run, or all ones. */
  datatype Slot = Free | Running(no: nat) | HandedOff

  /** Where a goroutine of this worker is.
      - Start: entering `loop` as successor; InLoop: in `loop` outside the queue;
        InQueue: at the head of `runInlineQueue`.
      - Taken: took a task; Arming: has drawn a number and is about to store it;
        Armed: has stored it, the handler has not begun.
      - Handling: inside the handler, `field` is what the task's own copy of the
        number still holds (0 after it left); Returned: about to swap back to 0.
      - Leaving / Exiting: won the swap to all ones, is about to start the
        successor; Exiting then ends. */
  datatype Pc =
    | Start | InLoop | InQueue
    | Taken(task: nat)
    | Arming(task: nat, no: nat)
    | Armed(task: nat, no: nat)
    | Handling(no: nat, field: nat)
    | Returned(no: nat)
    | Leaving(no: nat)
    | Exiting

  /** The watchdog: between ticks, about to swap, or about to start the successor. */
  datatype Watch = Idle | Striking(no: nat) | Promoting

  /** Who drives the loop, or owes it a driver. */
  datatype Driver = By(g: nat) | Owed(g: nat) | OwedByWatchdog | Closed

  datatype State = State(
    run: Slot,
    inlineSeq: nat,
    queue: seq<nat>,
    head: nat,
    resumed: bool,
    gors: map<nat, Pc>,
    watch: Watch,
    seen: nat,
    driver: Driver,
    base: nat,
    takenBy: map<nat, nat>,
    starts: multiset<nat>,
    handoffs: nat,
    spawned: nat)

  function Init(): State {
    State(Free, 0, [], 0, false, map[0 := InLoop], Idle, 0, By(0), 0, map[], multiset{}, 0, 0)
  }

  datatype Action =
    | Boot(g: nat)
    | Enqueue(g: nat)
    | Enter(g: nat)
    | Take(g: nat)
    | Drained(g: nat)
    | Spill(g: nat)
    | Arm(g: nat)
    | Store(g: nat)
    | Begin(g: nat)
    | Leave(g: nat)
    | Return(g: nat)
    | Exit(g: nat)
    | Settle(g: nat)
    | Spawn(g: nat, born: nat)
    | Close(g: nat)
    | Tick
    | Strike
    | Promote(born: nat)

  predicate At(s: State, g: nat) {
    g in s.gors
  }

  predicate Enabled(s: State, a: Action) {
    match a
    case Boot(g) => At(s, g) && s.gors[g].Start?
    case Enqueue(g) => At(s, g) && s.gors[g].InLoop?
    case Enter(g) => At(s, g) && s.gors[g].InLoop? && s.head < |s.queue|
    case Take(g) => At(s, g) && s.gors[g].InQueue? && s.head < |s.queue|
    case Drained(g) => At(s, g) && s.gors[g].InQueue? && s.head >= |s.queue|
    case Spill(g) => At(s, g) && s.gors[g].Taken?
    case Arm(g) => At(s, g) && s.gors[g].Taken?
    case Store(g) => At(s, g) && s.gors[g].Arming?
    case Begin(g) => At(s, g) && s.gors[g].Armed?
    case Leave(g) => At(s, g) && s.gors[g].Handling? && s.gors[g].field != 0
    case Return(g) => At(s, g) && s.gors[g].Handling?
    case Exit(g) => At(s, g) && s.gors[g].Handling?
    case Settle(g) => At(s, g) && s.gors[g].Returned?
    case Spawn(g, born) => At(s, g) && (s.gors[g].Leaving? || s.gors[g].Exiting?) && born !in s.gors
    case Close(g) => At(s, g) && s.gors[g].InLoop?
    case Tick => s.watch.Idle?
    case Strike => s.watch.Striking?
    case Promote(born) => s.watch.Promoting? && born !in s.gors
  }

  /** `handOff`: the compare-and-swap that takes the loop away from run `no`. */
  predicate Wins(s: State, no: nat) {
    s.run == Running(no)
  }

  function Apply(s: State, a: Action): State
    requires Enabled(s, a)
  {
    match a
    case Boot(g) => s.(resumed := false, gors := s.gors[g := InLoop])
    case Enqueue(g) => s.(queue := s.queue + [s.base + |s.queue|])
    case Enter(g) => s.(gors := s.gors[g := InQueue])
    case Take(g) =>
      var task := s.queue[s.head];
      s.(head := s.head + 1, gors := s.gors[g := Taken(task)], takenBy := s.takenBy[task := g])
    case Drained(g) =>
      s.(base := s.base + |s.queue|, queue := [], head := 0, gors := s.gors[g := InLoop])
    case Spill(g) =>
      s.(starts := s.starts + multiset{s.gors[g].task}, gors := s.gors[g := InQueue])
    case Arm(g) =>
      s.(inlineSeq := s.inlineSeq + 1, gors := s.gors[g := Arming(s.gors[g].task, s.inlineSeq + 1)])
    case Store(g) =>
      s.(run := Running(s.gors[g].no), gors := s.gors[g := Armed(s.gors[g].task, s.gors[g].no)])
    case Begin(g) =>
      s.(starts := s.starts + multiset{s.gors[g].task}, gors := s.gors[g := Handling(s.gors[g].no, s.gors[g].no)])
    case Leave(g) =>
      if Wins(s, s.gors[g].field) then
        s.(run := HandedOff, gors := s.gors[g := Leaving(s.gors[g].no)], driver := Owed(g), handoffs := s.handoffs + 1)
      else s.(gors := s.gors[g := Handling(s.gors[g].no, 0)])
    case Return(g) => s.(gors := s.gors[g := Returned(s.gors[g].no)])
    case Exit(g) =>
      if s.gors[g].field != 0 && Wins(s, s.gors[g].field) then
        s.(run := HandedOff, gors := s.gors[g := Exiting], driver := Owed(g), handoffs := s.handoffs + 1)
      else s.(gors := s.gors - {g})
    case Settle(g) =>
      if s.run == Running(s.gors[g].no) then s.(run := Free, gors := s.gors[g := InQueue])
      else s.(gors := s.gors - {g})
    case Spawn(g, born) =>
      var rest := if s.gors[g].Leaving? then s.gors[g := Handling(s.gors[g].no, 0)] else s.gors - {g};
      s.(resumed := true, gors := rest[born := Start], driver := By(born), spawned := s.spawned + 1)
    case Close(g) => s.(gors := s.gors - {g}, driver := Closed)
    case Tick =>
      if !s.run.Running? then s.(seen := 0)
      else if s.run.no != s.seen then s.(seen := s.run.no)
      else s.(seen := 0, watch := Striking(s.run.no))
    case Strike =>
      if Wins(s, s.watch.no)
        then s.(run := HandedOff, watch := Promoting, driver := OwedByWatchdog, handoffs := s.handoffs + 1)
      else s.(watch := Idle)
    case Promote(born) =>
      s.(resumed := true, gors := s.gors[born := Start], driver := By(born), watch := Idle, spawned := s.spawned + 1)
  }

  // ----- What holds in every reachable state

  predicate InRun(pc: Pc) {
    pc.Armed? || pc.Handling? || pc.Returned?
  }

  /** A goroutine drives the loop: it is in the loop, or it is inside a run that
      still owns `inlineRun`. */
  predicate Drives(s: State, pc: Pc) {
    if InRun(pc) then s.run == Running(pc.no)
    else !pc.Leaving? && !pc.Exiting?
  }

  predicate ArmingNow(s: State) {
    s.driver.By? && s.driver.g in s.gors && s.gors[s.driver.g].Arming?
  }

  ghost predicate DriverInv(s: State) {
    && (forall g :: g in s.gors ==> (Drives(s, s.gors[g]) <==> s.driver == By(g)))
    && (forall g :: g in s.gors ==> (s.gors[g].Leaving? || s.gors[g].Exiting? <==> s.driver == Owed(g)))
    && (s.driver.By? || s.driver.Owed? ==> s.driver.g in s.gors)
    && (s.watch.Promoting? <==> s.driver.OwedByWatchdog?)
    && (s.run.Running? ==> s.driver.By? && InRun(s.gors[s.driver.g]))
  }

  /** What goroutine `g` knows of its run's number. */
  predicate SeqAt(s: State, g: nat)
    requires g in s.gors
  {
    var pc := s.gors[g];
    && (InRun(pc) ==> 0 < pc.no <= s.inlineSeq && (ArmingNow(s) ==> pc.no < s.inlineSeq))
    && (pc.Leaving? ==> 0 < pc.no <= s.inlineSeq)
    && (pc.Arming? ==> pc.no == s.inlineSeq > 0)
    && (pc.Handling? ==> pc.field == pc.no || (pc.field == 0 && s.run != Running(pc.no)))
  }

  ghost predicate SeqInv(s: State) {
    forall g :: g in s.gors ==> SeqAt(s, g)
  }

  predicate Carries(pc: Pc, task: nat) {
    (pc.Taken? || pc.Arming? || pc.Armed?) && pc.task == task
  }

  /** Tasks are numbered in the order they were queued. A task still in the queue
      has not been started; a task taken out has been started once, or is in the
      hands of one goroutine that has not started it yet. */
  ghost predicate TaskInv(s: State) {
    && s.head <= |s.queue|
    && (forall i :: 0 <= i < |s.queue| ==> s.queue[i] == s.base + i)
    && (forall k :: k >= s.base + s.head ==> s.starts[k] == 0)
    && (forall k :: 0 <= k < s.base + s.head ==>
          s.starts[k] == 1 ||
          (s.starts[k] == 0 && k in s.takenBy && s.takenBy[k] in s.gors && Carries(s.gors[s.takenBy[k]], k)))
    && (forall g :: g in s.gors && HasTask(s.gors[g]) ==>
          s.gors[g].task < s.base + s.head && s.starts[s.gors[g].task] == 0
          && s.gors[g].task in s.takenBy && s.takenBy[s.gors[g].task] == g)
  }

  predicate CountInv(s: State) {
    && s.handoffs == s.spawned + (if s.driver.Owed? || s.driver.OwedByWatchdog? then 1 else 0)
    && (s.driver.By? && s.driver.g in s.gors && s.gors[s.driver.g].Start? ==> s.resumed)
  }

  ghost predicate Inv(s: State) {
    DriverInv(s) && SeqInv(s) && TaskInv(s) && CountInv(s)
  }

  lemma InitInv()
    ensures Inv(Init())
  {
  }

  predicate HasTask(pc: Pc) {
    pc.Taken? || pc.Arming? || pc.Armed?
  }

  /** A step that leaves the queue, the counts and every task in hand alone. */
  lemma TasksFrame(s: State, t: State)
    requires TaskInv(s)
    requires t.queue == s.queue && t.head == s.head && t.base == s.base && t.starts == s.starts
             && t.takenBy == s.takenBy
    requires forall g :: g in s.gors && HasTask(s.gors[g]) ==>
               g in t.gors && HasTask(t.gors[g]) && t.gors[g].task == s.gors[g].task
    requires forall g :: g in t.gors && HasTask(t.gors[g]) ==>
               g in s.gors && HasTask(s.gors[g]) && t.gors[g].task == s.gors[g].task
    ensures TaskInv(t)
  {
  }

  /** A step of goroutine `g` that draws no number and arms no run. */
  lemma SeqFrame(s: State, t: State, g: nat)
    requires SeqInv(s) && t.inlineSeq == s.inlineSeq && (t.run == s.run || !t.run.Running?)
    requires forall h :: h in t.gors && h != g ==> h in s.gors && t.gors[h] == s.gors[h]
    requires (g in t.gors ==> SeqAt(t, g)) && (ArmingNow(t) ==> ArmingNow(s))
    ensures SeqInv(t)
  {
  }

  /** A step of the watchdog. */
  lemma WatchFrame(s: State, t: State)
    requires SeqInv(s) && TaskInv(s) && (t.run == s.run || !t.run.Running?)
    requires t == s.(run := t.run, seen := t.seen, watch := t.watch, driver := t.driver, handoffs := t.handoffs)
    requires ArmingNow(t) ==> ArmingNow(s)
    ensures SeqInv(t) && TaskInv(t)
  {
    assert forall g :: g in t.gors ==> SeqAt(s, g);
  }

  lemma SeqOf(s: State, g: nat)
    requires SeqInv(s) && g in s.gors
    ensures SeqAt(s, g)
  {
  }

  lemma BootKeeps(s: State, g: nat)
    requires Inv(s) && Enabled(s, Boot(g))
    ensures Inv(Apply(s, Boot(g)))
  {
    hide SeqInv, TaskInv;
    var t := Apply(s, Boot(g));
    SeqOf(s, g);
    SeqFrame(s, t, g);
    TasksFrame(s, t);
  }

  lemma EnqueueKeeps(s: State, g: nat)
    requires Inv(s) && Enabled(s, Enqueue(g))
    ensures Inv(Apply(s, Enqueue(g)))
  {
    hide SeqInv;
    var t := Apply(s, Enqueue(g));
    SeqOf(s, g);
    SeqFrame(s, t, g);
  }

  lemma EnterKeeps(s: State, g: nat)
    requires Inv(s) && Enabled(s, Enter(g))
    ensures Inv(Apply(s, Enter(g)))
  {
    hide SeqInv, TaskInv;
    var t := Apply(s, Enter(g));
    SeqOf(s, g);
    SeqFrame(s, t, g);
    TasksFrame(s, t);
  }

  lemma TakeKeeps(s: State, g: nat)
    requires Inv(s) && Enabled(s, Take(g))
    ensures Inv(Apply(s, Take(g)))
  {
    hide SeqInv;
    var t := Apply(s, Take(g));
    SeqOf(s, g);
    SeqFrame(s, t, g);
  }

  lemma DrainedKeeps(s: State, g: nat)
    requires Inv(s) && Enabled(s, Drained(g))
    ensures Inv(Apply(s, Drained(g)))
  {
    hide SeqInv;
    var t := Apply(s, Drained(g));
    SeqOf(s, g);
    SeqFrame(s, t, g);
  }

  lemma CloseKeeps(s: State, g: nat)
    requires Inv(s) && Enabled(s, Close(g))
    ensures Inv(Apply(s, Close(g)))
  {
    hide SeqInv, TaskInv;
    var t := Apply(s, Close(g));
    SeqOf(s, g);
    SeqFrame(s, t, g);
    TasksFrame(s, t);
  }

  lemma SpillKeeps(s: State, g: nat)
    requires Inv(s) && Enabled(s, Spill(g))
    ensures Inv(Apply(s, Spill(g)))
  {
    hide SeqInv, TaskInv;
    var t := Apply(s, Spill(g));
    SeqOf(s, g);
    SeqFrame(s, t, g);
    Started(s, t, g);
  }

  lemma ArmKeeps(s: State, g: nat)
    requires Inv(s) && Enabled(s, Arm(g))
    ensures Inv(Apply(s, Arm(g)))
  {
    hide TaskInv;
    var t := Apply(s, Arm(g));
    TasksFrame(s, t);
  }

  lemma StoreKeeps(s: State, g: nat)
    requires Inv(s) && Enabled(s, Store(g))
    ensures Inv(Apply(s, Store(g)))
  {
    hide TaskInv;
    var t := Apply(s, Store(g));
    TasksFrame(s, t);
  }

  lemma BeginKeeps(s: State, g: nat)
    requires Inv(s) && Enabled(s, Begin(g))
    ensures Inv(Apply(s, Begin(g)))
  {
    hide SeqInv, TaskInv;
    var t := Apply(s, Begin(g));
    SeqOf(s, g);
    SeqFrame(s, t, g);
    Started(s, t, g);
  }

  /** The task in `g`'s hands is started. */
  lemma Started(s: State, t: State, g: nat)
    requires TaskInv(s) && g in s.gors && HasTask(s.gors[g]) && g in t.gors && !HasTask(t.gors[g])
    requires t.queue == s.queue && t.head == s.head && t.base == s.base && t.takenBy == s.takenBy
    requires t.starts == s.starts + multiset{s.gors[g].task} && t.gors == s.gors[g := t.gors[g]]
    ensures TaskInv(t)
  {
  }

  lemma LeaveKeeps(s: State, g: nat)
    requires Inv(s) && Enabled(s, Leave(g))
    ensures Inv(Apply(s, Leave(g)))
  {
    hide SeqInv, TaskInv;
    SeqOf(s, g);
    LeaveNumbers(s, g);
  }

  lemma LeaveNumbers(s: State, g: nat)
    requires SeqInv(s) && TaskInv(s) && Enabled(s, Leave(g))
    ensures SeqInv(Apply(s, Leave(g))) && TaskInv(Apply(s, Leave(g)))
  {
    hide SeqInv, TaskInv;
    var t := Apply(s, Leave(g));
    SeqOf(s, g);
    SeqFrame(s, t, g);
    TasksFrame(s, t);
  }

  lemma ReturnKeeps(s: State, g: nat)
    requires Inv(s) && Enabled(s, Return(g))
    ensures Inv(Apply(s, Return(g)))
  {
    hide SeqInv, TaskInv;
    var t := Apply(s, Return(g));
    SeqOf(s, g);
    SeqFrame(s, t, g);
    TasksFrame(s, t);
  }

  lemma ExitKeeps(s: State, g: nat)
    requires Inv(s) && Enabled(s, Exit(g))
    ensures Inv(Apply(s, Exit(g)))
  {
    hide SeqInv, TaskInv;
    SeqOf(s, g);
    ExitNumbers(s, g);
  }

  lemma ExitNumbers(s: State, g: nat)
    requires SeqInv(s) && TaskInv(s) && Enabled(s, Exit(g))
    ensures SeqInv(Apply(s, Exit(g))) && TaskInv(Apply(s, Exit(g)))
  {
    hide SeqInv, TaskInv;
    var t := Apply(s, Exit(g));
    SeqOf(s, g);
    SeqFrame(s, t, g);
    TasksFrame(s, t);
  }

  lemma SettleKeeps(s: State, g: nat)
    requires Inv(s) && Enabled(s, Settle(g))
    ensures Inv(Apply(s, Settle(g)))
  {
    hide SeqInv, TaskInv;
    SeqOf(s, g);
    SettleNumbers(s, g);
  }

  lemma SettleNumbers(s: State, g: nat)
    requires SeqInv(s) && TaskInv(s) && Enabled(s, Settle(g))
    ensures SeqInv(Apply(s, Settle(g))) && TaskInv(Apply(s, Settle(g)))
  {
    hide SeqInv, TaskInv;
    var t := Apply(s, Settle(g));
    SeqOf(s, g);
    SeqFrame(s, t, g);
    TasksFrame(s, t);
  }

  lemma SpawnKeeps(s: State, g: nat, born: nat)
    requires Inv(s) && Enabled(s, Spawn(g, born))
    ensures Inv(Apply(s, Spawn(g, born)))
  {
    hide TaskInv;
    var t := Apply(s, Spawn(g, born));
    TasksFrame(s, t);
  }

  lemma PromoteKeeps(s: State, born: nat)
    requires Inv(s) && Enabled(s, Promote(born))
    ensures Inv(Apply(s, Promote(born)))
  {
    hide SeqInv, TaskInv;
    var t := Apply(s, Promote(born));
    SeqFrame(s, t, born);
    TasksFrame(s, t);
  }

  lemma TickKeeps(s: State)
    requires Inv(s) && Enabled(s, Tick)
    ensures Inv(Apply(s, Tick))
  {
    hide SeqInv, TaskInv;
    WatchFrame(s, Apply(s, Tick));
  }

  lemma StrikeKeeps(s: State)
    requires Inv(s) && Enabled(s, Strike)
    ensures Inv(Apply(s, Strike))
  {
    hide SeqInv, TaskInv;
    WatchFrame(s, Apply(s, Strike));
  }

  lemma StepKeeps(s: State, a: Action)
    requires Inv(s) && Enabled(s, a)
    ensures Inv(Apply(s, a))
  {
    hide Inv, Apply;
    match a
    case Boot(g) => BootKeeps(s, g);
    case Enqueue(g) => EnqueueKeeps(s, g);
    case Enter(g) => EnterKeeps(s, g);
    case Take(g) => TakeKeeps(s, g);
    case Drained(g) => DrainedKeeps(s, g);
    case Close(g) => CloseKeeps(s, g);
    case Spill(g) => SpillKeeps(s, g);
    case Arm(g) => ArmKeeps(s, g);
    case Store(g) => StoreKeeps(s, g);
    case Begin(g) => BeginKeeps(s, g);
    case Leave(g) => LeaveKeeps(s, g);
    case Return(g) => ReturnKeeps(s, g);
    case Exit(g) => ExitKeeps(s, g);
    case Settle(g) => SettleKeeps(s, g);
    case Spawn(g, born) => SpawnKeeps(s, g, born);
    case Promote(born) => PromoteKeeps(s, born);
    case Tick => TickKeeps(s);
    case Strike => StrikeKeeps(s);
  }

  // ----- Whole runs

  predicate Legal(s: State, acts: seq<Action>)
    decreases acts
  {
    acts == [] || (Enabled(s, acts[0]) && Legal(Apply(s, acts[0]), acts[1..]))
  }

  function Run(s: State, acts: seq<Action>): State
    requires Legal(s, acts)
    decreases acts
  {
    if acts == [] then s else Run(Apply(s, acts[0]), acts[1..])
  }

  lemma {:induction false} RunKeeps(s: State, acts: seq<Action>)
    requires Inv(s) && Legal(s, acts)
    ensures Inv(Run(s, acts))
    decreases acts
  {
    if acts != [] {
      StepKeeps(s, acts[0]);
      RunKeeps(Apply(s, acts[0]), acts[1..]);
    }
  }

  /** A goroutine is about to start the successor it owes the loop. */
  predicate Owes(s: State, g: nat) {
    g in s.gors && (s.gors[g].Leaving? || s.gors[g].Exiting?)
  }

  /** At every moment of every interleaving, until the loop is closed: at most
      one goroutine drives the loop, and if none does then exactly one party has
      won the hand-off and is about to start the successor. So the loop is never
      driven twice and never orphaned. Every hand-off starts one successor, and a
      successor always finds `resumed` set. */
  lemma OneDriver(acts: seq<Action>)
    requires Legal(Init(), acts)
    ensures var s := Run(Init(), acts);
            && (forall g, h :: g in s.gors && h in s.gors && Drives(s, s.gors[g]) && Drives(s, s.gors[h]) ==> g == h)
            && (forall g :: Owes(s, g) ==> !s.watch.Promoting? && forall h :: h in s.gors ==> !Drives(s, s.gors[h]))
            && (forall g, h :: Owes(s, g) && Owes(s, h) ==> g == h)
            && (s.watch.Promoting? ==> forall h :: h in s.gors ==> !Drives(s, s.gors[h]))
            && (|| s.driver.Closed? || s.watch.Promoting?
                || exists g :: g in s.gors && (Owes(s, g) || Drives(s, s.gors[g])))
            && s.spawned <= s.handoffs <= s.spawned + 1
            && (s.handoffs == s.spawned + 1 <==> s.watch.Promoting? || exists g :: Owes(s, g))
            && (forall g :: g in s.gors && s.gors[g].Start? ==> s.resumed)
  {
    InitInv();
    RunKeeps(Init(), acts);
    DriverParts(Run(Init(), acts));
  }

  lemma DriverParts(s: State)
    requires DriverInv(s) && CountInv(s)
    ensures forall g, h :: g in s.gors && h in s.gors && Drives(s, s.gors[g]) && Drives(s, s.gors[h]) ==> g == h
    ensures forall g :: Owes(s, g) ==> !s.watch.Promoting? && forall h :: h in s.gors ==> !Drives(s, s.gors[h])
    ensures forall g, h :: Owes(s, g) && Owes(s, h) ==> g == h
    ensures s.watch.Promoting? ==> forall h :: h in s.gors ==> !Drives(s, s.gors[h])
    ensures s.driver.Closed? || s.watch.Promoting? || exists g :: g in s.gors && (Owes(s, g) || Drives(s, s.gors[g]))
    ensures s.spawned <= s.handoffs <= s.spawned + 1
    ensures s.handoffs == s.spawned + 1 <==> s.watch.Promoting? || exists g :: Owes(s, g)
    ensures forall g :: g in s.gors && s.gors[g].Start? ==> s.resumed
  {
    if s.driver.By? || s.driver.Owed? {
      assert s.driver.g in s.gors && (Owes(s, s.driver.g) || Drives(s, s.gors[s.driver.g]));
    }
  }

  /** Every inline task is started exactly once: none is ever started twice, and
      one that was queued and not started is still in the queue or in the hands
      of one goroutine on the way to its handler. */
  lemma TasksStartOnce(acts: seq<Action>, k: nat)
    requires Legal(Init(), acts)
    ensures var s := Run(Init(), acts);
            && s.starts[k] <= 1
            && s.head <= |s.queue|
            && (k < s.base + |s.queue| && s.starts[k] == 0 ==>
                  || k in s.queue[s.head..]
                  || (exists g :: g in s.gors && Carries(s.gors[g], k)))
            && (forall g, h :: g in s.gors && h in s.gors && Carries(s.gors[g], k) && Carries(s.gors[h], k) ==> g == h)
            && (forall g :: g in s.gors && Carries(s.gors[g], k) ==> s.starts[k] == 0 && k !in s.queue[s.head..])
  {
    InitInv();
    RunKeeps(Init(), acts);
    TaskParts(Run(Init(), acts), k);
  }

  lemma TaskParts(s: State, k: nat)
    requires TaskInv(s)
    ensures s.starts[k] <= 1
    ensures k < s.base + |s.queue| && s.starts[k] == 0 ==>
              k in s.queue[s.head..] || exists g :: g in s.gors && Carries(s.gors[g], k)
    ensures forall g, h :: g in s.gors && h in s.gors && Carries(s.gors[g], k) && Carries(s.gors[h], k) ==> g == h
    ensures forall g :: g in s.gors && Carries(s.gors[g], k) ==> s.starts[k] == 0 && k !in s.queue[s.head..]
  {
    if s.base + s.head <= k < s.base + |s.queue| {
      assert s.queue[s.head..][k - s.base - s.head] == k;
    }
    if k < s.base + s.head {
      assert forall i :: 0 <= i < |s.queue[s.head..]| ==> s.queue[s.head..][i] == s.base + s.head + i;
    }
  }

  /** Only the goroutine whose run still owns `inlineRun` goes back into the
      queue after its handler; any other ends without touching `inlineRun`, and
      its own copy of the number can no longer win a hand-off. */
  lemma LateHandlerCannotWin(acts: seq<Action>, g: nat)
    requires Legal(Init(), acts)
    requires var s := Run(Init(), acts);
             g in s.gors && s.gors[g].Handling? && s.driver != By(g)
    ensures var s := Run(Init(), acts);
            && !Wins(s, s.gors[g].field)
            && Apply(Apply(s, Return(g)), Settle(g)) == s.(gors := s.gors - {g})
  {
    InitInv();
    RunKeeps(Init(), acts);
    LateParts(Run(Init(), acts), g);
  }

  lemma LateParts(s: State, g: nat)
    requires DriverInv(s) && SeqInv(s) && g in s.gors && s.gors[g].Handling? && s.driver != By(g)
    ensures !Wins(s, s.gors[g].field)
    ensures Apply(Apply(s, Return(g)), Settle(g)) == s.(gors := s.gors - {g})
  {
    var t := Apply(s, Return(g));
    assert t.run != Running(t.gors[g].no);
    assert t.gors - {g} == s.gors - {g};
  }

  // ----- When the watchdog strikes

  /** What each tick of a run saw. */
  function Observed(s: State, acts: seq<Action>): seq<Slot>
    requires Legal(s, acts)
    decreases acts
  {
    if acts == [] then [] else (if acts[0].Tick? then [s.run] else []) + Observed(Apply(s, acts[0]), acts[1..])
  }

  /** A number that was stored before, and not drawn just now. */
  predicate Used(s: State, no: nat) {
    0 < no <= s.inlineSeq && (ArmingNow(s) ==> no < s.inlineSeq)
  }

  /** A run that is over. */
  predicate Over(s: State, no: nat) {
    Used(s, no) && s.run != Running(no)
  }

  /** Numbers are not stored twice. */
  lemma UsedStays(s: State, a: Action, no: nat)
    requires Inv(s) && Enabled(s, a) && Used(s, no)
    ensures Used(Apply(s, a), no) && (Over(s, no) ==> Over(Apply(s, a), no))
  {
    hide TaskInv;
    if a.Store? { assert Drives(s, s.gors[a.g]); }
    if ArmingNow(Apply(s, a)) && !a.Arm? { assert ArmingNow(s); }
  }

  lemma RunIsUsed(s: State)
    requires Inv(s) && s.run.Running?
    ensures Used(s, s.run.no)
  {
    hide TaskInv;
    assert Drives(s, s.gors[s.driver.g]);
  }

  predicate SawTwice(obs: seq<Slot>, no: nat) {
    |obs| >= 2 && obs[|obs| - 1] == obs[|obs| - 2] == Running(no)
  }

  /** What the watchdog remembers of what it saw: the run it saw last, unless that
      was the second time. */
  ghost predicate Remembers(s: State, obs: seq<Slot>) {
    && (s.watch.Striking? ==> SawTwice(obs, s.watch.no) && Used(s, s.watch.no) && s.seen == 0)
    && (s.seen != 0 ==> obs != [] && obs[|obs| - 1] == Running(s.seen))
    && (s.seen == 0 && obs != [] && obs[|obs| - 1].Running? ==>
          var no := obs[|obs| - 1].no;
          SawTwice(obs, no) && Used(s, no) && (s.watch == Striking(no) || Over(s, no)))
  }

  lemma StepRemembers(s: State, a: Action, obs: seq<Slot>)
    requires Inv(s) && Enabled(s, a) && Remembers(s, obs)
    ensures Remembers(Apply(s, a), obs + if a.Tick? then [s.run] else [])
  {
    hide Inv, Used;
    if a.Tick? {
      if s.run.Running? { TickRemembers(s, obs); }
    } else {
      assert obs + [] == obs;
      if s.watch.Striking? { UsedStays(s, a, s.watch.no); }
      if s.seen == 0 && obs != [] && obs[|obs| - 1].Running? { UsedStays(s, a, obs[|obs| - 1].no); }
    }
  }

  lemma TickRemembers(s: State, obs: seq<Slot>)
    requires Inv(s) && Enabled(s, Tick) && Remembers(s, obs) && s.run.Running?
    ensures Remembers(Apply(s, Tick), obs + [s.run])
    ensures Apply(s, Tick).watch == if obs != [] && obs[|obs| - 1] == s.run then Striking(s.run.no) else Idle
  {
    RunIsUsed(s);
    hide Inv;
    var all := obs + [s.run];
    assert all[|all| - 1] == s.run && (obs != [] ==> all[|all| - 2] == obs[|obs| - 1]);
  }

  lemma {:induction false} RunRemembers(s: State, acts: seq<Action>, obs: seq<Slot>)
    requires Inv(s) && Legal(s, acts) && Remembers(s, obs)
    ensures Remembers(Run(s, acts), obs + Observed(s, acts))
    decreases acts
  {
    hide Inv, Remembers, Enabled, Apply;
    if acts == [] {
      assert obs + [] == obs;
    } else {
      var now := if acts[0].Tick? then [s.run] else [];
      StepKeeps(s, acts[0]);
      StepRemembers(s, acts[0], obs);
      RunRemembers(Apply(s, acts[0]), acts[1..], obs + now);
      assert obs + Observed(s, acts) == (obs + now) + Observed(Apply(s, acts[0]), acts[1..]);
    }
  }

  /** A tick makes the watchdog strike at a run exactly if it is the second in a row
      to see that run: not sooner, and not later. */
  lemma StrikesAtSecond(acts: seq<Action>)
    requires Legal(Init(), acts) && Enabled(Run(Init(), acts), Tick)
    ensures var s, obs := Run(Init(), acts), Observed(Init(), acts);
            Apply(s, Tick).watch
            == if obs != [] && obs[|obs| - 1].Running? && obs[|obs| - 1] == s.run then Striking(s.run.no) else Idle
  {
    hide Inv, Legal, Run, Observed;
    InitInv();
    RunKeeps(Init(), acts);
    RunRemembers(Init(), acts, []);
    var s, obs := Run(Init(), acts), Observed(Init(), acts);
    assert [] + obs == obs;
    if s.run.Running? { TickRemembers(s, obs); }
  }
}
