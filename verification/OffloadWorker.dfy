/** The offload callback thread and the callers that share its monitor (audio/qcom/hal/audio_hw.c):
    every step runs between two changes of lock ownership, in any interleaving. */
module OffloadWorker {
  import opened Common

  datatype Kind = WaitForBuffer | PartialDrain | Drain | Error | Exit

  /** A queued command; serial numbers tell otherwise equal commands apart. */
  datatype Cmd = Cmd(kind: Kind, serial: nat)

  datatype Holder = Free | Worker | Client(i: nat)

  /** Where the worker is: not started, at the top of its loop with the lock, waiting for a command,
      inside a compress call without the lock, or finished. */
  datatype WorkerAt = Boot | Top | Sleeping | Calling(cmd: Cmd, handle: nat) | Done

  /** What callers do with the stream.  `Route` is every call that takes the stream lock and then the
      device lock whether or not the stream is in standby: routing through out_set_parameters, A2DP
      restore and reconfiguration, and opening the stream. */
  datatype Op = Standby | OnError | Flush | Destroy | Write | Submit | Route

  /** Where a caller is: outside, holding the stream lock and wanting the device lock, at the
      `offload_thread_blocked` test with the stream lock, waiting on the condition without it, or
      holding only the device lock for some other stream. */
  datatype ClientAt = Idle | WantsDevice(op: Op) | Stopping(op: Op) | Waiting(op: Op) | Elsewhere

  /** `signalled` are the waiting callers that a signal has picked and that have yet to lock again. */
  datatype State = State(
    stream: Holder, device: Holder,
    standby: bool, blocked: bool,
    compr: Option<nat>, open: set<nat>, nextHandle: nat,
    queue: seq<Cmd>, sent: seq<Cmd>, freed: seq<Cmd>,
    worker: WorkerAt, clients: seq<ClientAt>, signalled: set<nat>)

  function Start(clients: nat): State {
    State(Free, Free, true, false, None, {}, 0, [], [], [], Boot, seq(clients, _ => Idle), {})
  }

  /** A caller that waits on the condition and has not been signalled. */
  predicate Asleep(s: State, i: nat) {
    i < |s.clients| && s.clients[i].Waiting? && i !in s.signalled
  }

  /** Whom `pthread_cond_signal` may pick: somebody asleep, if there is anybody. */
  predicate MayPick(s: State, w: nat) {
    Asleep(s, w) || forall i: nat | i < |s.clients| :: !Asleep(s, i)
  }

  function Signal(s: State, w: nat): State {
    if Asleep(s, w) then s.(signalled := s.signalled + {w}) else s
  }

  // ----- steps -----

  /** What the surroundings decide: which thread runs, what a caller calls, whether a stream starts
      and its handle opens, whether a write is short, whom a signal picks.  Waking needs no signal. */
  datatype Action =
    | WorkerLocks
    | WorkerTakes(w: nat)
    | WorkerReturns(w: nat)
    | Enters(i: nat, op: Op, kind: Kind, short: bool)
    | GetsDevice(i: nat, starts: bool, opens: bool, short: bool)
    | Stops(i: nat)
    | Wakes(i: nat)
    | TakesDeviceElsewhere(i: nat)
    | DropsDeviceElsewhere(i: nat)

  predicate Enabled(s: State, a: Action) {
    match a
    case WorkerLocks => s.stream == Free && (s.worker == Boot || s.worker == Sleeping)
    case WorkerTakes(w) => s.worker == Top && MayPick(s, w)
    case WorkerReturns(w) => s.stream == Free && s.worker.Calling? && MayPick(s, w)
    case Enters(i, op, kind, _) => s.stream == Free && i < |s.clients| && s.clients[i] == Idle
    case GetsDevice(i, _, _, _) => s.device == Free && i < |s.clients| && s.clients[i].WantsDevice?
    case Stops(i) => i < |s.clients| && s.clients[i].Stopping?
    case Wakes(i) => s.stream == Free && i < |s.clients| && s.clients[i].Waiting?
    case TakesDeviceElsewhere(i) => s.device == Free && i < |s.clients| && s.clients[i] == Idle
    case DropsDeviceElsewhere(i) => i < |s.clients| && s.clients[i] == Elsewhere
  }

  /** `send_offload_cmd_l`. */
  function Send(s: State, kind: Kind): (t: State)
    ensures t == s.(queue := t.queue, sent := t.sent)
  {
    var cmd := Cmd(kind, |s.sent|);
    s.(queue := s.queue + [cmd], sent := s.sent + [cmd])
  }

  function At(s: State, i: nat, at: ClientAt): State
    requires i < |s.clients|
  {
    s.(clients := s.clients[i := at])
  }

  /** One turn of `offload_thread_loop` with the lock held. */
  function Take(s: State, w: nat): State {
    if s.queue == [] then s.(worker := Sleeping, stream := Free)
    else
      var cmd, rest := s.queue[0], s.queue[1..];
      if cmd.kind == Exit then
        Signal(s, w).(queue := [], freed := s.freed + [cmd] + rest, worker := Done, stream := Free)
      else if s.compr == None then Signal(s, w).(queue := rest, freed := s.freed + [cmd])
      else s.(queue := rest, blocked := true, stream := Free, worker := Calling(cmd, s.compr.value))
  }

  /** What follows `stop_compressed_output_l`, up to the release of the locks. */
  function Finish(s: State, i: nat, op: Op): State
    requires i < |s.clients|
  {
    var done := At(s, i, Idle).(stream := Free);
    match op
    case Standby =>
      (if s.compr == None then done else done.(open := s.open - {s.compr.value}, compr := None)).(device := Free)
    case OnError => Send(done, Error)
    case Destroy => Send(done, Exit)
    case _ => done
  }

  /** `stop_compressed_output_l`: callers with no handle to stop finish at once. */
  function Stop(s: State, i: nat, op: Op): State
    requires i < |s.clients|
  {
    if s.compr == None then Finish(s, i, op) else At(s, i, Stopping(op))
  }

  /** A call into the stream up to the first point where it may block. */
  function Enter(s: State, i: nat, op: Op, kind: Kind, short: bool): State
    requires i < |s.clients|
  {
    var locked := s.(stream := Client(i));
    match op
    case Standby => if s.standby then s else At(locked, i, WantsDevice(Standby))
    case OnError => if s.standby then s else Stop(locked, i, OnError)
    case Write =>
      if s.standby then At(locked, i, WantsDevice(Write)).(standby := false)
      else if short then Send(s, WaitForBuffer) else s
    case Route => At(locked, i, WantsDevice(Route))
    case Submit => Send(s, if kind == PartialDrain then PartialDrain else Drain)
    case _ => Stop(locked, i, op)
  }

  /** The device lock obtained: standby begins, routing is done, or `start_output_stream` runs. */
  function Obtain(s: State, i: nat, op: Op, starts: bool, opens: bool, short: bool): State
    requires i < |s.clients|
  {
    var done := At(s, i, Idle).(stream := Free);
    if op == Standby then Stop(s.(device := Client(i), standby := true), i, Standby)
    else if op == Route then done
    else if !starts then done.(standby := true)
    else
      var started :=
        if opens then
          done.(compr := Some(s.nextHandle), open := s.open + {s.nextHandle}, nextHandle := s.nextHandle + 1)
        else done;
      if short then Send(started, WaitForBuffer) else started
  }

  /** The test of `offload_thread_blocked`. */
  function Test(s: State, i: nat, op: Op): State
    requires i < |s.clients|
  {
    if s.blocked then At(s, i, Waiting(op)).(stream := Free) else Finish(s, i, op)
  }

  predicate ByWorker(a: Action) {
    a.WorkerLocks? || a.WorkerTakes? || a.WorkerReturns?
  }

  function Next(s: State, a: Action): State
    requires Enabled(s, a)
  {
    match a
    case WorkerLocks => s.(stream := Worker, worker := Top)
    case WorkerTakes(w) => Take(s, w)
    case WorkerReturns(w) =>
      Signal(s, w).(stream := Worker, worker := Top, blocked := false, freed := s.freed + [s.worker.cmd])
    case Enters(i, op, kind, short) => Enter(s, i, op, kind, short)
    case GetsDevice(i, starts, opens, short) => Obtain(s, i, s.clients[i].op, starts, opens, short)
    case Stops(i) => Test(s, i, s.clients[i].op)
    case Wakes(i) => At(s, i, Stopping(s.clients[i].op)).(stream := Client(i), signalled := s.signalled - {i})
    case TakesDeviceElsewhere(i) => At(s, i, Elsewhere).(device := Client(i))
    case DropsDeviceElsewhere(i) => At(s, i, Idle).(device := Free)
  }

  ghost predicate Runs(s: State, actions: seq<Action>)
    decreases |actions|
  {
    actions == [] || (Enabled(s, actions[0]) && Runs(Next(s, actions[0]), actions[1..]))
  }

  ghost function Run(s: State, actions: seq<Action>): State
    requires Runs(s, actions)
    decreases |actions|
  {
    if actions == [] then s else Run(Next(s, actions[0]), actions[1..])
  }

  ghost predicate Reachable(s: State) {
    exists clients: nat, actions: seq<Action> | Runs(Start(clients), actions) :: s == Run(Start(clients), actions)
  }

  // ----- the invariant -----

  predicate InStreamLock(c: ClientAt) {
    c.WantsDevice? || c.Stopping?
  }

  predicate InDeviceLock(c: ClientAt) {
    c == Elsewhere || ((c.Stopping? || c.Waiting?) && c.op == Standby)
  }

  /** Both locks are held by exactly the thread whose position says so. */
  ghost predicate Locks(s: State) {
    && (s.stream == Worker <==> s.worker == Top)
    && (forall i: nat | i < |s.clients| :: InStreamLock(s.clients[i]) <==> s.stream == Client(i))
    && (forall i: nat | i < |s.clients| :: InDeviceLock(s.clients[i]) <==> s.device == Client(i))
    && s.device != Worker
    && (s.stream.Client? ==> s.stream.i < |s.clients|) && (s.device.Client? ==> s.device.i < |s.clients|)
    && (forall i: nat | i < |s.clients| && s.clients[i].WantsDevice? ::
          s.clients[i].op in {Standby, Write, Route})
  }

  /** A caller that has set standby and keeps the device lock until the handle is closed. */
  predicate Closing(s: State) {
    && s.device.Client? && s.device.i < |s.clients|
    && (s.clients[s.device.i].Stopping? || s.clients[s.device.i].Waiting?)
  }

  /** A writer that has left standby but not yet started the stream. */
  predicate Starting(s: State) {
    s.stream.Client? && s.stream.i < |s.clients| && s.clients[s.stream.i] == WantsDevice(Write)
  }

  function InFlight(s: State): seq<Cmd> {
    if s.worker.Calling? then [s.worker.cmd] else []
  }

  ghost predicate Handles(s: State) {
    && (s.compr.Some? ==> Closing(s) || (!s.standby && !Starting(s)))
    && (Starting(s) ==> !s.standby)
    && s.open == (if s.compr.Some? then {s.compr.value} else {})
    && (forall h | h in s.open :: h < s.nextHandle)
    && (s.blocked <==> s.worker.Calling?)
    && (s.worker.Calling? ==> s.compr == Some(s.worker.handle) && s.worker.cmd.kind != Exit)
  }

  ghost predicate Commands(s: State) {
    && s.sent == s.freed + InFlight(s) + s.queue
    && forall k | 0 <= k < |s.sent| :: s.sent[k].serial == k
  }

  /** Standby is sought only out of standby, and while a handle is being closed `standby` is set,
      unless a writer has just cleared it. */
  ghost predicate Order(s: State) {
    && (forall i: nat | i < |s.clients| :: s.clients[i] == WantsDevice(Standby) ==> !s.standby)
    && (Closing(s) ==> s.standby || Starting(s))
  }

  /** Only waiting callers are signalled, and while the worker is out of its call some caller is not
      asleep: each return from a call has picked one. */
  ghost predicate Wakeups(s: State) {
    && (forall i | i in s.signalled :: i < |s.clients| && s.clients[i].Waiting?)
    && (s.blocked <==> s.worker.Calling?)
    && (|s.clients| > 0 && !s.worker.Calling? ==> exists i: nat :: i < |s.clients| && !Asleep(s, i))
  }

  ghost predicate Inv(s: State) {
    Locks(s) && Handles(s) && Commands(s) && Order(s) && Wakeups(s)
  }

  lemma StartInv(clients: nat)
    ensures Inv(Start(clients))
  {
    assert clients > 0 ==> !Asleep(Start(clients), 0);
  }

  /** Who may hold what after a step: `i` is the only caller that moved. */
  ghost predicate OnlyMoves(s: State, t: State, i: nat) {
    |t.clients| == |s.clients| && forall j: nat | j < |s.clients| && j != i :: t.clients[j] == s.clients[j]
  }

  lemma LocksAfter(s: State, t: State, i: nat)
    requires Locks(s) && i < |s.clients| && OnlyMoves(s, t, i) && t.worker == s.worker
    requires s.stream == t.stream || (s.stream in {Free, Client(i)} && t.stream in {Free, Client(i)})
    requires s.device == t.device || (s.device in {Free, Client(i)} && t.device in {Free, Client(i)})
    requires InStreamLock(t.clients[i]) <==> t.stream == Client(i)
    requires InDeviceLock(t.clients[i]) <==> t.device == Client(i)
    requires t.clients[i].WantsDevice? ==> t.clients[i].op in {Standby, Write, Route}
    ensures Locks(t)
  {}

  lemma EnterLocks(s: State, i: nat, op: Op, kind: Kind, short: bool)
    requires Locks(s) && s.stream == Free && i < |s.clients| && s.clients[i] == Idle
    ensures Locks(Enter(s, i, op, kind, short))
  {
    assert !InDeviceLock(s.clients[i]);
    hide Locks, Send;
    LocksAfter(s, Enter(s, i, op, kind, short), i);
  }

  lemma ObtainLocks(s: State, i: nat, starts: bool, opens: bool, short: bool)
    requires Locks(s) && s.device == Free && i < |s.clients| && s.clients[i].WantsDevice?
    ensures Locks(Obtain(s, i, s.clients[i].op, starts, opens, short))
  {
    assert InStreamLock(s.clients[i]) && !InDeviceLock(s.clients[i]);
    hide Locks, Send;
    LocksAfter(s, Obtain(s, i, s.clients[i].op, starts, opens, short), i);
  }

  lemma TestLocks(s: State, i: nat)
    requires Locks(s) && i < |s.clients| && s.clients[i].Stopping?
    ensures Locks(Test(s, i, s.clients[i].op))
  {
    assert InStreamLock(s.clients[i]);
    assert InDeviceLock(s.clients[i]) <==> s.clients[i].op == Standby;
    hide Locks;
    LocksAfter(s, Test(s, i, s.clients[i].op), i);
  }

  lemma WorkerLocksAfter(s: State, t: State)
    requires Locks(s) && t.clients == s.clients && t.device == s.device
    requires s.stream in {Free, Worker} && t.stream in {Free, Worker} && (t.stream == Worker <==> t.worker == Top)
    ensures Locks(t)
  {}

  /** What the worker's steps leave to the callers. */
  lemma WorkerLeaves(s: State, a: Action)
    requires Enabled(s, a) && ByWorker(a) && (s.stream == Worker <==> s.worker == Top)
    ensures var t := Next(s, a);
      && t.clients == s.clients && t.device == s.device && t.standby == s.standby
      && s.stream in {Free, Worker} && t.stream in {Free, Worker} && (t.stream == Worker <==> t.worker == Top)
  {
    hide MayPick;
  }

  lemma WorkerLocksKept(s: State, a: Action)
    requires Locks(s) && Enabled(s, a) && ByWorker(a)
    ensures Locks(Next(s, a))
  {
    assert s.worker == Top <==> s.stream == Worker;
    WorkerLeaves(s, a);
    hide Locks, Next, Enabled;
    WorkerLocksAfter(s, Next(s, a));
  }

  lemma LocksKept(s: State, a: Action)
    requires Locks(s) && Enabled(s, a)
    ensures Locks(Next(s, a))
  {
    hide Enter, Obtain, Test, Take, Signal, MayPick;
    match a
    case WorkerLocks => WorkerLocksKept(s, a);
    case WorkerTakes(w) => WorkerLocksKept(s, a);
    case WorkerReturns(w) => WorkerLocksKept(s, a);
    case Enters(i, op, kind, short) => EnterLocks(s, i, op, kind, short);
    case GetsDevice(i, starts, opens, short) => ObtainLocks(s, i, starts, opens, short);
    case Stops(i) => TestLocks(s, i);
    case Wakes(i) => LocksAfter(s, Next(s, a), i);
    case TakesDeviceElsewhere(i) => LocksAfter(s, Next(s, a), i);
    case DropsDeviceElsewhere(i) => LocksAfter(s, Next(s, a), i);
  }

  lemma EnterHandles(s: State, i: nat, op: Op, kind: Kind, short: bool)
    requires Locks(s) && Handles(s) && s.stream == Free && i < |s.clients| && s.clients[i] == Idle
    ensures Handles(Enter(s, i, op, kind, short))
  {
    assert !InDeviceLock(s.clients[i]);
    hide Locks, Send;
  }

  lemma ObtainHandles(s: State, i: nat, starts: bool, opens: bool, short: bool)
    requires Locks(s) && Handles(s) && s.device == Free && i < |s.clients| && s.clients[i].WantsDevice?
    ensures Handles(Obtain(s, i, s.clients[i].op, starts, opens, short))
  {
    assert InStreamLock(s.clients[i]) && s.stream == Client(i);
    assert s.clients[i].op in {Standby, Write, Route};
    assert s.clients[i].op == Write ==> Starting(s) && s.compr == None && s.open + {s.nextHandle} == {s.nextHandle};
    hide Locks, Send;
  }

  lemma TestHandles(s: State, i: nat)
    requires Locks(s) && Handles(s) && i < |s.clients| && s.clients[i].Stopping?
    ensures Handles(Test(s, i, s.clients[i].op))
  {
    assert InStreamLock(s.clients[i]) && s.stream == Client(i);
    assert InDeviceLock(s.clients[i]) <==> s.clients[i].op == Standby;
    hide Locks;
  }

  lemma WorkerHandles(s: State, a: Action)
    requires Locks(s) && Handles(s) && Enabled(s, a) && ByWorker(a)
    ensures Handles(Next(s, a))
  {
    hide Locks;
  }

  /** Callers that wake, or take and drop the device lock for another stream. */
  lemma OtherHandles(s: State, a: Action)
    requires Locks(s) && Handles(s) && Enabled(s, a)
    requires a.Wakes? || a.TakesDeviceElsewhere? || a.DropsDeviceElsewhere?
    ensures Handles(Next(s, a))
  {
    assert InDeviceLock(s.clients[a.i]) <==> s.device == Client(a.i);
    hide Locks;
  }

  lemma HandlesKept(s: State, a: Action)
    requires Locks(s) && Handles(s) && Enabled(s, a)
    ensures Handles(Next(s, a))
  {
    hide Enter, Obtain, Test, Take, Signal, MayPick, Locks, Handles;
    match a
    case Enters(i, op, kind, short) => EnterHandles(s, i, op, kind, short);
    case GetsDevice(i, starts, opens, short) => ObtainHandles(s, i, starts, opens, short);
    case Stops(i) => TestHandles(s, i);
    case WorkerLocks => WorkerHandles(s, a);
    case WorkerTakes(_) => WorkerHandles(s, a);
    case WorkerReturns(_) => WorkerHandles(s, a);
    case _ => OtherHandles(s, a);
  }

  lemma EnterOrder(s: State, i: nat, op: Op, kind: Kind, short: bool)
    requires Locks(s) && Order(s) && s.stream == Free && i < |s.clients| && s.clients[i] == Idle
    ensures Order(Enter(s, i, op, kind, short))
  {
    assert !InDeviceLock(s.clients[i]);
    assert forall j: nat | j < |s.clients| :: !InStreamLock(s.clients[j]);
    assert s.device != Client(i) && (s.device.Client? ==> s.device.i < |s.clients|);
    hide Locks, Order, Send;
    var t := Enter(s, i, op, kind, short);
    EntersAlone(s, i, op, kind, short);
    OrderElsewhere(s, t, i);
  }

  /** What entering changes for the order: the caller itself, and `standby` only by a writer. */
  lemma EntersAlone(s: State, i: nat, op: Op, kind: Kind, short: bool)
    requires s.stream == Free && i < |s.clients| && s.clients[i] == Idle
    ensures var t := Enter(s, i, op, kind, short);
      && OnlyMoves(s, t, i) && t.device == s.device
      && (t.clients[i] == WantsDevice(Standby) ==> !s.standby && !t.standby)
      && (t.standby == s.standby || (Starting(t) && !t.standby))
  {
    hide Send;
  }

  lemma OrderElsewhere(s: State, t: State, i: nat)
    requires Order(s) && i < |s.clients| && OnlyMoves(s, t, i) && t.device == s.device && s.device != Client(i)
    requires s.stream == Free && (s.device.Client? ==> s.device.i < |s.clients|)
    requires t.clients[i] == WantsDevice(Standby) ==> !t.standby
    requires t.standby == s.standby || (Starting(t) && !t.standby)
    ensures Order(t)
  {}

  lemma ObtainOrder(s: State, i: nat, starts: bool, opens: bool, short: bool)
    requires Locks(s) && Order(s) && s.device == Free && i < |s.clients| && s.clients[i].WantsDevice?
    ensures Order(Obtain(s, i, s.clients[i].op, starts, opens, short))
  {
    assert InStreamLock(s.clients[i]) && s.stream == Client(i);
    assert forall j: nat | j < |s.clients| && j != i :: !InStreamLock(s.clients[j]);
    hide Locks, Send;
  }

  lemma TestOrder(s: State, i: nat)
    requires Locks(s) && Order(s) && i < |s.clients| && s.clients[i].Stopping?
    ensures Order(Test(s, i, s.clients[i].op))
  {
    assert InStreamLock(s.clients[i]) && s.stream == Client(i);
    assert InDeviceLock(s.clients[i]) <==> s.clients[i].op == Standby;
    hide Locks;
  }

  lemma WorkerOrder(s: State, a: Action)
    requires Locks(s) && Order(s) && Enabled(s, a) && ByWorker(a)
    ensures Order(Next(s, a))
  {
    assert s.worker == Top <==> s.stream == Worker;
    WorkerLeaves(s, a);
    hide Locks, Next, Enabled;
  }

  lemma OtherOrder(s: State, a: Action)
    requires Locks(s) && Order(s) && Enabled(s, a)
    requires a.Wakes? || a.TakesDeviceElsewhere? || a.DropsDeviceElsewhere?
    ensures Order(Next(s, a))
  {
    assert InDeviceLock(s.clients[a.i]) <==> s.device == Client(a.i);
    hide Locks;
  }

  lemma OrderKept(s: State, a: Action)
    requires Locks(s) && Order(s) && Enabled(s, a)
    ensures Order(Next(s, a))
  {
    hide Enter, Obtain, Test, Take, Signal, Locks, Order, MayPick;
    match a
    case Enters(i, op, kind, short) => EnterOrder(s, i, op, kind, short);
    case GetsDevice(i, starts, opens, short) => ObtainOrder(s, i, starts, opens, short);
    case Stops(i) => TestOrder(s, i);
    case WorkerLocks => WorkerOrder(s, a);
    case WorkerTakes(_) => WorkerOrder(s, a);
    case WorkerReturns(_) => WorkerOrder(s, a);
    case _ => OtherOrder(s, a);
  }

  /** A step of a caller: nobody else falls asleep, and it does so itself only while the worker is in a
      call. */
  lemma CallerWakeups(s: State, t: State, i: nat)
    requires Wakeups(s) && i < |s.clients| && OnlyMoves(s, t, i) && t.worker == s.worker && t.blocked == s.blocked
    requires t.signalled == s.signalled - {i} && (t.clients[i].Waiting? ==> s.blocked)
    ensures Wakeups(t)
  {
    if !s.worker.Calling? {
      assert !Asleep(t, i);
    }
  }

  /** What a caller's step leaves alone, itself waiting only while the worker is in a call. */
  ghost predicate Quiet(s: State, t: State, i: nat) {
    && i < |s.clients| && OnlyMoves(s, t, i) && t.worker == s.worker && t.blocked == s.blocked
    && t.signalled == s.signalled && (t.clients[i].Waiting? ==> s.blocked)
  }

  lemma EnterIsQuiet(s: State, i: nat, op: Op, kind: Kind, short: bool)
    requires i < |s.clients| && s.clients[i] == Idle
    ensures Quiet(s, Enter(s, i, op, kind, short), i)
  {
    hide Send;
  }

  lemma ObtainIsQuiet(s: State, i: nat, op: Op, starts: bool, opens: bool, short: bool)
    requires i < |s.clients|
    ensures Quiet(s, Obtain(s, i, op, starts, opens, short), i)
  {
    hide Send;
  }

  lemma TestIsQuiet(s: State, i: nat, op: Op)
    requires i < |s.clients|
    ensures Quiet(s, Test(s, i, op), i)
  {
    hide Send;
  }

  lemma CallerSteps(s: State, a: Action)
    requires Wakeups(s) && Enabled(s, a) && !ByWorker(a)
    ensures var t := Next(s, a);
      && OnlyMoves(s, t, a.i) && t.worker == s.worker && t.blocked == s.blocked
      && t.signalled == s.signalled - {a.i} && (t.clients[a.i].Waiting? ==> s.blocked)
  {
    assert a.Wakes? || a.i !in s.signalled;
    hide Wakeups, Enter, Obtain, Test;
    match a
    case Enters(i, op, kind, short) => EnterIsQuiet(s, i, op, kind, short);
    case GetsDevice(i, starts, opens, short) => ObtainIsQuiet(s, i, s.clients[i].op, starts, opens, short);
    case Stops(i) => TestIsQuiet(s, i, s.clients[i].op);
    case _ =>
  }

  lemma PickedWakeups(s: State, w: nat)
    requires MayPick(s, w) && |s.clients| > 0
    ensures exists i: nat :: i < |s.clients| && !Asleep(Signal(s, w), i)
  {
    var i: nat := if Asleep(s, w) then w else 0;
    assert !Asleep(Signal(s, w), i);
  }

  lemma WakeupsKept(s: State, a: Action)
    requires Wakeups(s) && Enabled(s, a)
    ensures Wakeups(Next(s, a))
  {
    if ByWorker(a) {
      if |s.clients| > 0 {
        var t := Next(s, a);
        if a.WorkerReturns? {
          PickedWakeups(s, a.w);
          var i: nat :| i < |s.clients| && !Asleep(Signal(s, a.w), i);
          assert !Asleep(t, i);
        } else {
          var i: nat :| i < |s.clients| && !Asleep(s, i);
          assert !Asleep(t, i);
        }
      }
    } else {
      hide Next, Enabled, Wakeups;
      CallerSteps(s, a);
      CallerWakeups(s, Next(s, a), a.i);
    }
  }

  /** A caller leaves the commands alone or appends one. */
  ghost predicate Appends(s: State, t: State) {
    && t.worker == s.worker && t.freed == s.freed
    && ((t.queue == s.queue && t.sent == s.sent)
        || exists kind :: t.queue == s.queue + [Cmd(kind, |s.sent|)] && t.sent == s.sent + [Cmd(kind, |s.sent|)])
  }

  lemma EnterAppends(s: State, i: nat, op: Op, kind: Kind, short: bool)
    requires i < |s.clients|
    ensures Appends(s, Enter(s, i, op, kind, short))
  {}

  lemma ObtainAppends(s: State, i: nat, op: Op, starts: bool, opens: bool, short: bool)
    requires i < |s.clients|
    ensures Appends(s, Obtain(s, i, op, starts, opens, short))
  {}

  lemma CallersAppend(s: State, a: Action)
    requires Enabled(s, a) && !ByWorker(a)
    ensures Appends(s, Next(s, a))
  {
    hide Enter, Obtain;
    match a
    case Enters(i, op, kind, short) => EnterAppends(s, i, op, kind, short);
    case GetsDevice(i, starts, opens, short) => ObtainAppends(s, i, s.clients[i].op, starts, opens, short);
    case _ =>
  }

  lemma AppendedCommands(s: State, t: State)
    requires Commands(s) && Appends(s, t)
    ensures Commands(t)
  {}

  lemma Regrouped(freed: seq<Cmd>, queue: seq<Cmd>)
    requires queue != []
    ensures freed + [] + queue == freed + [queue[0]] + queue[1..]
    ensures freed + [] + queue == (freed + [queue[0]]) + [] + queue[1..]
    ensures freed + [] + queue == (freed + [queue[0]] + queue[1..]) + [] + []
  {
    assert queue == [queue[0]] + queue[1..];
  }

  lemma TakenCommands(s: State, w: nat)
    requires Commands(s) && s.worker == Top
    ensures var t := Take(s, w);
      Commands(t) && (t.worker == Done ==> t.freed == s.sent && t.queue == [])
  {
    if s.queue != [] {
      Regrouped(s.freed, s.queue);
      var t := Take(s, w);
      assert t.sent == t.freed + InFlight(t) + t.queue;
    }
  }

  lemma ReturnedCommands(s: State, w: nat)
    requires Commands(s) && Enabled(s, WorkerReturns(w))
    ensures Commands(Next(s, WorkerReturns(w)))
  {}

  lemma CommandsKept(s: State, a: Action)
    requires Commands(s) && Enabled(s, a)
    ensures Commands(Next(s, a))
  {
    if a.WorkerTakes? {
      TakenCommands(s, a.w);
    } else if a.WorkerReturns? {
      ReturnedCommands(s, a.w);
    } else if a != WorkerLocks {
      hide Next, Enabled, Commands, Appends;
      CallersAppend(s, a);
      AppendedCommands(s, Next(s, a));
    }
  }

  lemma {:induction false} InvOfRun(s: State, actions: seq<Action>)
    requires Inv(s) && Runs(s, actions)
    ensures Inv(Run(s, actions))
    decreases |actions|
  {
    hide Inv, Enabled, Next;
    if actions != [] {
      InvOfStep(s, actions[0]);
      InvOfRun(Next(s, actions[0]), actions[1..]);
    }
  }

  lemma InvOfStep(s: State, a: Action)
    requires Inv(s) && Enabled(s, a)
    ensures Inv(Next(s, a))
  {
    hide Locks, Handles, Commands, Order, Wakeups, Next, Enabled;
    LocksKept(s, a);
    WakeupsKept(s, a);
    OrderKept(s, a);
    HandlesKept(s, a);
    CommandsKept(s, a);
  }

  lemma ReachableInv(s: State)
    requires Reachable(s)
    ensures Inv(s)
  {
    var clients: nat, actions: seq<Action> :| Runs(Start(clients), actions) && s == Run(Start(clients), actions);
    StartInv(clients);
    InvOfRun(Start(clients), actions);
  }

  // ----- what it gives -----

  /** While the worker is inside a compress call, the handle it reads without the lock is the one it
      entered with, and it is open. */
  lemma WorkerHandleStaysOpen(s: State)
    requires Reachable(s) && s.worker.Calling?
    ensures s.compr == Some(s.worker.handle) && s.worker.handle in s.open && s.blocked
  {
    ReachableInv(s);
  }

  /** No step closes a handle while the worker is inside a call, and a step closes only the current
      handle. */
  lemma NeverClosedUnderTheWorker(s: State, a: Action, h: nat)
    requires Reachable(s) && Enabled(s, a) && h in s.open && h !in Next(s, a).open
    ensures !s.worker.Calling? && s.compr == Some(h) && Next(s, a).compr == None
  {
    hide Send, Commands, Reachable;
    ReachableInv(s);
    HandlesKept(s, a);
  }

  /** At most one handle is open at any time, and none is lost. */
  lemma OneHandle(s: State)
    requires Reachable(s)
    ensures s.open == (if s.compr.Some? then {s.compr.value} else {})
  {
    ReachableInv(s);
  }

  /** Commands are freed in the order they were sent, none twice and none lost. */
  lemma FirstInFirstOut(s: State)
    requires Reachable(s)
    ensures s.freed + InFlight(s) + s.queue == s.sent
    ensures forall j, k | 0 <= j < k < |s.freed| :: s.freed[j].serial < s.freed[k].serial
  {
    ReachableInv(s);
    forall j, k | 0 <= j < k < |s.freed| ensures s.freed[j].serial < s.freed[k].serial {
      assert s.freed[j] == s.sent[j] && s.freed[k] == s.sent[k];
    }
  }

  /** The step that ends the worker leaves nothing unfreed. */
  lemma LeftoversFreedAtExit(s: State, a: Action)
    requires Reachable(s) && Enabled(s, a) && s.worker != Done && Next(s, a).worker == Done
    ensures Next(s, a).freed == s.sent && Next(s, a).queue == []
  {
    ReachableInv(s);
    if ByWorker(a) {
      hide Commands, Handles, Locks, Reachable, Take;
      if a.WorkerTakes? {
        TakenCommands(s, a.w);
      }
    } else {
      hide *;
      CallersAppend(s, a);
      WorkerUnchanged(s, Next(s, a));
    }
  }

  lemma WorkerUnchanged(s: State, t: State)
    requires Appends(s, t)
    ensures s.worker == t.worker
  {}

  lemma EnterStaysClosing(s: State, i: nat, op: Op, kind: Kind, short: bool)
    requires Closing(s) && i < |s.clients| && s.device != Client(i)
    ensures Closing(Enter(s, i, op, kind, short))
  {}

  lemma StaysClosing(s: State, a: Action)
    requires Locks(s) && Closing(s) && Enabled(s, a) && a != Stops(s.device.i)
    ensures Closing(Next(s, a))
  {
    if a.Stops? {
      assert s.device != Client(a.i) && !InDeviceLock(s.clients[a.i]);
    }
    hide Locks, Enter;
    if a.Enters? {
      EnterStaysClosing(s, a.i, a.op, a.kind, a.short);
    }
  }

  /** Standby keeps the device lock until the handle is closed and the worker is out of its call. */
  lemma StandbyCloses(s: State, a: Action)
    requires Reachable(s) && Enabled(s, a) && Closing(s) && !Closing(Next(s, a))
    ensures Next(s, a).compr == None && Next(s, a).open == {} && !Next(s, a).worker.Calling?
  {
    ReachableInv(s);
    if a != Stops(s.device.i) {
      StaysClosing(s, a);
    } else {
      var c := s.clients[s.device.i];
      assert InDeviceLock(c);
      hide Reachable, Locks, Commands;
    }
  }

  // ----- what the lock order does not give -----

  /** A writer that has left standby, or a routing call, keeps the stream lock and wants the device lock,
      while a caller waiting to close the handle keeps the device lock and wants the stream lock. */
  predicate Stuck(s: State, closer: nat, other: nat) {
    && closer < |s.clients| && other < |s.clients|
    && s.stream == Client(other) && s.clients[other] in {WantsDevice(Write), WantsDevice(Route)}
    && s.device == Client(closer) && s.clients[closer] == Waiting(Standby)
  }

  lemma StuckStopsEverything(s: State, closer: nat, other: nat, a: Action)
    requires Reachable(s) && Stuck(s, closer, other)
    ensures !Enabled(s, a)
  {
    ReachableInv(s);
    if (a.Stops? || a.DropsDeviceElsewhere?) && a.i < |s.clients| {
      assert InStreamLock(s.clients[a.i]) <==> s.stream == Client(a.i);
      assert InDeviceLock(s.clients[a.i]) <==> s.device == Client(a.i);
    }
  }

  /** A step that does not count on a spurious wake-up. */
  predicate Owed(s: State, a: Action) {
    && Enabled(s, a)
    && (a.Wakes? ==> a.i in s.signalled)
    && (a == WorkerLocks && s.worker == Sleeping ==> s.queue != [])
  }

  /** Whoever holds the stream lock while no step is owed is such a caller. */
  lemma OnlyTheyStop(s: State, other: nat)
    requires Locks(s) && Order(s) && s.stream == Client(other) && forall a: Action :: !Owed(s, a)
    ensures s.device.Client? && Stuck(s, s.device.i, other)
  {
    assert InStreamLock(s.clients[other]);
    assert !Owed(s, Stops(other)) && !Owed(s, GetsDevice(other, true, true, true));
    assert s.device.Client?;
    var closer := s.device.i;
    assert InDeviceLock(s.clients[closer]);
    assert !Owed(s, Stops(closer)) && !Owed(s, DropsDeviceElsewhere(closer));
    assert Closing(s);
  }

  lemma SomebodyToPick(s: State) returns (w: nat)
    ensures MayPick(s, w)
  {
    if i: nat :| i < |s.clients| && Asleep(s, i) {
      w := i;
    } else {
      w := 0;
    }
  }

  /** With the stream lock free somebody can always move. */
  lemma FreeStreamMoves(s: State)
    requires Locks(s) && Wakeups(s) && s.stream == Free && |s.clients| > 0
    ensures exists a: Action :: Owed(s, a)
  {
    if s.worker.Calling? {
      var w := SomebodyToPick(s);
      assert Owed(s, WorkerReturns(w));
    } else {
      var i: nat :| i < |s.clients| && !Asleep(s, i);
      var c := s.clients[i];
      assert !InStreamLock(c);
      assert c == Idle ==> Owed(s, Enters(i, Flush, Drain, false));
      assert c.Waiting? ==> Owed(s, Wakes(i));
      assert c == Elsewhere ==> Owed(s, DropsDeviceElsewhere(i));
    }
  }

  lemma WorkerMoves(s: State)
    requires Locks(s) && s.stream == Worker
    ensures exists a: Action :: Owed(s, a)
  {
    var w := SomebodyToPick(s);
    assert Owed(s, WorkerTakes(w));
  }

  /** A deadlock is exactly that: in a reachable state with a caller, no thread is owed a step if and only
      if a closer and a writer or routing call block each other; and then no thread can move at all. */
  lemma DeadlockExactly(s: State)
    requires Reachable(s) && |s.clients| > 0
    ensures (forall a: Action :: !Owed(s, a)) <==> exists closer, other :: Stuck(s, closer, other)
    ensures (forall a: Action :: !Enabled(s, a)) <==> exists closer, other :: Stuck(s, closer, other)
  {
    hide Enabled, Stuck, Reachable;
    ReachableInv(s);
    if closer, other :| Stuck(s, closer, other) {
      forall a: Action ensures !Enabled(s, a) {
        StuckStopsEverything(s, closer, other, a);
      }
    }
    if forall a: Action :: !Owed(s, a) {
      if s.stream == Free {
        FreeStreamMoves(s);
        assert false;
      } else if s.stream == Worker {
        WorkerMoves(s);
        assert false;
      } else {
        OnlyTheyStop(s, s.stream.i);
      }
    }
  }

  ghost predicate CloserWaits(s: State) {
    exists closer: nat | closer < |s.clients| :: s.clients[closer] == Waiting(Standby)
  }

  /** A call that takes both locks: a routing call, or a write that finds `standby` set. */
  predicate TakesBoth(s: State, a: Action) {
    a.Enters? && ((a.op == Write && s.standby) || a.op == Route)
  }

  /** And it begins exactly when such a call comes while a closer waits for the worker. */
  lemma DeadlockBegins(s: State, a: Action)
    requires Reachable(s) && Enabled(s, a)
    ensures (exists closer, other :: Stuck(Next(s, a), closer, other)) <==> (TakesBoth(s, a) && CloserWaits(s))
  {
    ReachableInv(s);
    hide Reachable, Handles, Commands, Wakeups;
    if closer, other :| Stuck(Next(s, a), closer, other) {
      StuckAfterBoth(s, a, closer, other);
    }
    if TakesBoth(s, a) && CloserWaits(s) {
      var closer: nat :| closer < |s.clients| && s.clients[closer] == Waiting(Standby);
      assert InDeviceLock(s.clients[closer]);
      assert Stuck(Next(s, a), closer, a.i);
    }
  }

  lemma StuckAfterEntry(s: State, i: nat, op: Op, kind: Kind, short: bool, closer: nat, other: nat)
    requires Locks(s) && s.stream == Free && i < |s.clients| && s.clients[i] == Idle
    requires Stuck(Enter(s, i, op, kind, short), closer, other)
    ensures (op == Write && s.standby) || op == Route
    ensures closer < |s.clients| && s.clients[closer] == Waiting(Standby)
  {
    hide Send, Locks;
  }

  /** Every other step leaves the stream lock free, to the worker, or to a caller that is no longer
      waiting for the device lock. */
  lemma StuckAfterBoth(s: State, a: Action, closer: nat, other: nat)
    requires Locks(s) && Enabled(s, a) && Stuck(Next(s, a), closer, other)
    ensures TakesBoth(s, a) && closer < |s.clients| && s.clients[closer] == Waiting(Standby)
  {
    hide Enter, Obtain, Test, Take;
    match a
    case Enters(i, op, kind, short) => StuckAfterEntry(s, i, op, kind, short, closer, other);
    case GetsDevice(i, starts, opens, short) => ObtainedNotStuck(s, i, starts, opens, short, closer, other);
    case Stops(i) => TestedNotStuck(s, i, s.clients[i].op, closer, other);
    case WorkerTakes(w) => TakenNotStuck(s, w, closer, other);
    case _ =>
  }

  lemma ObtainedNotStuck(s: State, i: nat, starts: bool, opens: bool, short: bool, closer: nat, other: nat)
    requires Locks(s) && i < |s.clients| && s.clients[i].WantsDevice?
    ensures !Stuck(Obtain(s, i, s.clients[i].op, starts, opens, short), closer, other)
  {
    assert InStreamLock(s.clients[i]) && s.stream == Client(i);
    hide Send, Locks;
  }

  lemma TestedNotStuck(s: State, i: nat, op: Op, closer: nat, other: nat)
    requires i < |s.clients|
    ensures !Stuck(Test(s, i, op), closer, other)
  {
    hide Send;
  }

  lemma TakenNotStuck(s: State, w: nat, closer: nat, other: nat)
    requires s.stream == Worker
    ensures !Stuck(Take(s, w), closer, other)
  {}

  /** A return from a call leaves a waiting caller asleep exactly when two were. */
  lemma LeftBehindExactly(s: State, w: nat)
    requires Enabled(s, WorkerReturns(w))
    ensures (exists i: nat :: Asleep(Next(s, WorkerReturns(w)), i))
       <==> exists i: nat, j: nat :: i != j && Asleep(s, i) && Asleep(s, j)
  {
    var t := Next(s, WorkerReturns(w));
    assert forall i: nat :: Asleep(t, i) <==> Asleep(s, i) && i != w;
    if i: nat :| Asleep(t, i) {
      assert Asleep(s, w) && Asleep(s, i);
    }
    if i: nat, j: nat :| i != j && Asleep(s, i) && Asleep(s, j) {
      assert Asleep(t, if i != w then i else j);
    }
  }

  /** And a caller left asleep stays so until a later signal picks it, or it wakes without one. */
  lemma StaysAsleep(s: State, a: Action, i: nat)
    requires Reachable(s) && Enabled(s, a) && Asleep(s, i)
    requires a != Wakes(i) && a != WorkerTakes(i) && a != WorkerReturns(i)
    ensures Asleep(Next(s, a), i)
  {
    ReachableInv(s);
    hide Reachable, Locks, Handles, Commands, Order;
    if ByWorker(a) {
      assert Next(s, a).clients == s.clients;
      assert i !in Next(s, a).signalled;
    } else {
      CallerSteps(s, a);
      CallerStepsElsewhere(s, a, i);
    }
  }

  /** Only a wake-up moves a caller that waits. */
  lemma CallerStepsElsewhere(s: State, a: Action, i: nat)
    requires Enabled(s, a) && !ByWorker(a) && i < |s.clients| && s.clients[i].Waiting? && a != Wakes(i)
    ensures a.i != i
  {
    hide Enter, Obtain, Test;
  }

  // ----- two runs -----

  const WAIT: Cmd := Cmd(WaitForBuffer, 0)
  const STARTED: State :=
    State(Free, Free, false, false, Some(0), {0}, 1, [WAIT], [WAIT], [], Boot, [Idle, Idle], {})
  const TAKEN: State :=
    State(Free, Free, false, true, Some(0), {0}, 1, [], [WAIT], [], Calling(WAIT, 0), [Idle, Idle], {})
  const CLOSING: State := TAKEN.(device := Client(0), standby := true, clients := [Waiting(Standby), Idle])

  /** A caller that takes both locks meets the waiting closer. */
  function Jammed(op: Op): State {
    CLOSING.(stream := Client(1), standby := op != Write, clients := [Waiting(Standby), WantsDevice(op)])
  }

  /** The closer waits, without a signal, for a worker that sleeps. */
  const LEFT: State :=
    State(Free, Client(0), true, false, Some(0), {0}, 1, [], [WAIT], [WAIT], Sleeping, [Waiting(Standby), Idle], {})

  /** A stream starts, and its first write is short. */
  lemma StreamStarts()
    ensures Enabled(Start(2), Enters(1, Write, Exit, false))
    ensures var s1 := Next(Start(2), Enters(1, Write, Exit, false));
      && Enabled(s1, GetsDevice(1, true, true, true))
      && Next(s1, GetsDevice(1, true, true, true)) == STARTED
  {
    var s2 := Next(Next(Start(2), Enters(1, Write, Exit, false)), GetsDevice(1, true, true, true));
    assert s2.open == {0} && s2.clients == [Idle, Idle] && [] + [WAIT] == [WAIT];
  }

  /** The worker takes the command. */
  lemma WorkerGetsBusy()
    ensures Enabled(STARTED, WorkerLocks) && Enabled(Next(STARTED, WorkerLocks), WorkerTakes(0))
    ensures Next(Next(STARTED, WorkerLocks), WorkerTakes(0)) == TAKEN
  {
    assert [WAIT][1..] == [];
  }

  /** One caller enters standby and waits for the worker. */
  lemma StandbyWaits()
    ensures Enabled(TAKEN, Enters(0, Standby, Exit, false))
    ensures var s5 := Next(TAKEN, Enters(0, Standby, Exit, false));
      && Enabled(s5, GetsDevice(0, true, true, false))
      && var s6 := Next(s5, GetsDevice(0, true, true, false));
      && Enabled(s6, Stops(0)) && Next(s6, Stops(0)) == CLOSING
  {}

  /** Another flushes and is the one the worker signals. */
  lemma FlushIsSignalled()
    ensures Enabled(CLOSING, Enters(1, Flush, Exit, false))
    ensures var s8 := Next(CLOSING, Enters(1, Flush, Exit, false));
      && Enabled(s8, Stops(1)) && Enabled(Next(s8, Stops(1)), WorkerReturns(1))
      && var s10 := Next(Next(s8, Stops(1)), WorkerReturns(1));
      && s10 == LEFT.(stream := Worker, worker := Top, signalled := {1},
                      clients := [Waiting(Standby), Waiting(Flush)])
  {
    var s9 := Next(Next(CLOSING, Enters(1, Flush, Exit, false)), Stops(1));
    assert Asleep(s9, 1) && [] + [WAIT] == [WAIT];
  }

  lemma WorkerSleepsAgain()
    ensures var s10 := LEFT.(stream := Worker, worker := Top, signalled := {1},
                             clients := [Waiting(Standby), Waiting(Flush)]);
      && Enabled(s10, WorkerTakes(0)) && Enabled(Next(s10, WorkerTakes(0)), Wakes(1))
      && var s12 := Next(Next(s10, WorkerTakes(0)), Wakes(1));
      && Enabled(s12, Stops(1)) && Next(s12, Stops(1)) == LEFT
  {
    var s10 := LEFT.(stream := Worker, worker := Top, signalled := {1},
                     clients := [Waiting(Standby), Waiting(Flush)]);
    assert Asleep(s10, 0) && {1} - {1} == {};
  }

  lemma {:induction false} RunMore(s: State, actions: seq<Action>, a: Action)
    requires Runs(s, actions) && Enabled(Run(s, actions), a)
    ensures Runs(s, actions + [a]) && Run(s, actions + [a]) == Next(Run(s, actions), a)
    decreases |actions|
  {
    hide Next, Enabled;
    if actions == [] {
      assert [] + [a] == [a] && [a][1..] == [];
    } else {
      assert (actions + [a])[1..] == actions[1..] + [a];
      RunMore(Next(s, actions[0]), actions[1..], a);
    }
  }

  lemma StartReachable(clients: nat)
    ensures Reachable(Start(clients))
  {
    assert Runs(Start(clients), []) && Start(clients) == Run(Start(clients), []);
  }

  lemma StepReachable(s: State, a: Action)
    requires Reachable(s) && Enabled(s, a)
    ensures Reachable(Next(s, a))
  {
    hide Next, Enabled;
    var clients: nat, actions: seq<Action> :| Runs(Start(clients), actions) && s == Run(Start(clients), actions);
    RunMore(Start(clients), actions, a);
  }

  lemma ClosingIsReachable()
    ensures Reachable(CLOSING)
  {
    StreamStarts();
    WorkerGetsBusy();
    StandbyWaits();
    hide Next, Enabled, Reachable;
    StartReachable(2);
    var s1 := Next(Start(2), Enters(1, Write, Exit, false));
    StepReachable(Start(2), Enters(1, Write, Exit, false));
    StepReachable(s1, GetsDevice(1, true, true, true));
    StepReachable(STARTED, WorkerLocks);
    StepReachable(Next(STARTED, WorkerLocks), WorkerTakes(0));
    StepReachable(TAKEN, Enters(0, Standby, Exit, false));
    var s5 := Next(TAKEN, Enters(0, Standby, Exit, false));
    StepReachable(s5, GetsDevice(0, true, true, false));
    StepReachable(Next(s5, GetsDevice(0, true, true, false)), Stops(0));
  }

  lemma StuckIsReachable(op: Op)
    requires op == Write || op == Route
    ensures Reachable(Jammed(op)) && Stuck(Jammed(op), 0, 1)
  {
    ClosingIsReachable();
    assert Enabled(CLOSING, Enters(1, op, Exit, false));
    assert Next(CLOSING, Enters(1, op, Exit, false)) == Jammed(op);
    hide Next, Enabled, Reachable;
    StepReachable(CLOSING, Enters(1, op, Exit, false));
  }

  /** A closer can be left asleep with the device lock, nobody about to signal it. */
  lemma LeftBehindIsReachable()
    ensures Reachable(LEFT) && Asleep(LEFT, 0) && LEFT.device == Client(0)
    ensures LEFT.worker == Sleeping && LEFT.queue == []
  {
    ClosingIsReachable();
    FlushIsSignalled();
    WorkerSleepsAgain();
    hide Next, Enabled, Reachable;
    StepReachable(CLOSING, Enters(1, Flush, Exit, false));
    var s8 := Next(CLOSING, Enters(1, Flush, Exit, false));
    StepReachable(s8, Stops(1));
    StepReachable(Next(s8, Stops(1)), WorkerReturns(1));
    var s10 := Next(Next(s8, Stops(1)), WorkerReturns(1));
    StepReachable(s10, WorkerTakes(0));
    StepReachable(Next(s10, WorkerTakes(0)), Wakes(1));
    StepReachable(Next(Next(s10, WorkerTakes(0)), Wakes(1)), Stops(1));
  }
}
