/** Shared power of the two endpoints and the deferred power-off of
    dualscreen/hwcomposer/hwc2_fujisan.cpp.  Entry points are single steps; the power-off thread takes
    a snapshot in one step, and wakes and decides in another. */
module HwcPower {

  /** The generation counter is 64 bits wide. */
  type Generation = x: nat | x < 0x1_0000_0000_0000_0000

  datatype Thread = NoThread | Running | Asleep(snapshot: Generation)

  /** `threadRun` is the flag that says a thread is under way; `panel` is the physical panel. */
  datatype Power = Power(small: bool, wide: bool, generation: Generation, threadRun: bool, thread: Thread, panel: bool)

  function Start(): Power {
    Power(true, false, 0, false, NoThread, true)
  }

  function Bump(g: Generation): Generation {
    (g + 1) % 0x1_0000_0000_0000_0000
  }

  predicate BothOff(s: Power) {
    !s.small && !s.wide
  }

  /** `ScheduleSharedPowerOff`. */
  function Schedule(s: Power, created: bool): Power {
    var s1 := s.(generation := Bump(s.generation));
    if s1.threadRun || !created then s1 else s1.(threadRun := true, thread := Running)
  }

  /** `SetPowerMode`; modes other than ON count as off. */
  function AfterPowerMode(s: Power, wide: bool, on: bool, created: bool, onOk: bool): Power {
    var s1 := if wide then s.(wide := on) else s.(small := on);
    var s2 := s1.(generation := Bump(s.generation));
    if on then s2.(panel := s2.panel || onOk)
    else if BothOff(s2) then Schedule(s2, created) else s2
  }

  /** Whether a waking thread commands the panel off. */
  predicate CommandsOff(s: Power) {
    s.thread.Asleep? && s.threadRun && s.thread.snapshot == s.generation && BothOff(s)
  }

  /** `SharedPowerOffThreadMain` from the wake-up on: exit, start over, or decide. */
  function Wake(s: Power, offOk: bool): Power
    requires s.thread.Asleep?
  {
    if s.threadRun && s.thread.snapshot != s.generation then s.(thread := Running)
    else s.(thread := NoThread, threadRun := false, panel := s.panel && !(CommandsOff(s) && offOk))
  }

  datatype Step =
    | PowerMode(wide: bool, on: bool, created: bool, onOk: bool)
    | Snapshot
    | WakeUp(offOk: bool)
    | Elsewhere

  predicate Enabled(s: Power, a: Step) {
    match a
    case Snapshot => s.thread == Running
    case WakeUp(_) => s.thread.Asleep?
    case _ => true
  }

  function Next(s: Power, a: Step): Power
    requires Enabled(s, a)
  {
    match a
    case PowerMode(wide, on, created, onOk) => AfterPowerMode(s, wide, on, created, onOk)
    case Snapshot => s.(thread := Asleep(s.generation))
    case WakeUp(offOk) => Wake(s, offOk)
    case Elsewhere => s
  }

  ghost predicate Runs(s: Power, steps: seq<Step>)
    decreases |steps|
  {
    steps == [] || (Enabled(s, steps[0]) && Runs(Next(s, steps[0]), steps[1..]))
  }

  function Run(s: Power, steps: seq<Step>): Power
    requires Runs(s, steps)
    decreases |steps|
  {
    if steps == [] then s else Run(Next(s, steps[0]), steps[1..])
  }

  // ----- invariants over runs -----

  /** The flag is set exactly while there is a thread. */
  predicate FlagTells(s: Power) {
    s.threadRun <==> s.thread != NoThread
  }

  /** A powered endpoint has a powered panel. */
  predicate PanelServes(s: Power) {
    s.small || s.wide ==> s.panel
  }

  /** With both endpoints off, a panel that is still on has a thread to turn it off. */
  predicate OffIsPending(s: Power) {
    BothOff(s) && s.panel ==> s.threadRun
  }

  lemma FlagKept(s: Power, a: Step)
    requires FlagTells(s) && Enabled(s, a)
    ensures FlagTells(Next(s, a))
  {}

  /** Only an ON command that fails while the panel is off leaves a powered endpoint without panel. */
  lemma PanelServesExactly(s: Power, a: Step)
    requires FlagTells(s) && PanelServes(s) && Enabled(s, a)
    ensures PanelServes(Next(s, a)) <==> !(a.PowerMode? && a.on && !a.onOk && !s.panel)
  {}

  /** Only a failed thread creation or a failed OFF command leaves the panel on with nothing pending. */
  lemma OffIsPendingExactly(s: Power, a: Step)
    requires FlagTells(s) && OffIsPending(s) && Enabled(s, a)
    ensures OffIsPending(Next(s, a)) <==>
      !(a.PowerMode? && !a.on && !a.created && BothOff(Next(s, a)) && s.panel && !s.threadRun)
      && !(a.WakeUp? && !a.offOk && CommandsOff(s) && s.panel)
  {}

  ghost predicate Succeeds(a: Step) {
    match a
    case PowerMode(_, _, created, onOk) => created && onOk
    case WakeUp(offOk) => offOk
    case _ => true
  }

  lemma {:induction false} PowerIsShared(s: Power, steps: seq<Step>)
    requires FlagTells(s) && PanelServes(s) && OffIsPending(s)
    requires Runs(s, steps) && forall k | 0 <= k < |steps| :: Succeeds(steps[k])
    ensures var t := Run(s, steps); FlagTells(t) && PanelServes(t) && OffIsPending(t)
    decreases |steps|
  {
    hide Next, Enabled;
    if steps != [] {
      assert Succeeds(steps[0]);
      FlagKept(s, steps[0]);
      PanelServesExactly(s, steps[0]);
      OffIsPendingExactly(s, steps[0]);
      PowerIsShared(Next(s, steps[0]), steps[1..]);
    }
  }

  /** Over every run from power-up whose commands succeed: the panel serves powered endpoints, and is
      off or about to be turned off once both endpoints are off. */
  lemma PowerFromStart(steps: seq<Step>)
    requires Runs(Start(), steps) && forall k | 0 <= k < |steps| :: Succeeds(steps[k])
    ensures var t := Run(Start(), steps); FlagTells(t) && PanelServes(t) && OffIsPending(t)
  {
    PowerIsShared(Start(), steps);
  }

  // ----- the grace window -----

  /** How often the calls of a window move the generation on. */
  function Bumps(s: Power, steps: seq<Step>): nat
    requires Runs(s, steps)
    decreases |steps|
  {
    if steps == [] then 0
    else
      var a := steps[0];
      (if !a.PowerMode? then 0 else if !a.on && BothOff(Next(s, a)) then 2 else 1) + Bumps(Next(s, a), steps[1..])
  }

  /** Steps while the thread sleeps. */
  ghost predicate Window(s: Power, steps: seq<Step>) {
    s.thread.Asleep? && Runs(s, steps) && forall k | 0 <= k < |steps| :: steps[k].PowerMode? || steps[k] == Elsewhere
  }

  lemma ModSum(g: nat, a: nat, b: nat)
    ensures ((g + a) % 0x1_0000_0000_0000_0000 + b) % 0x1_0000_0000_0000_0000 == (g + a + b) % 0x1_0000_0000_0000_0000
  {}

  lemma StepBumps(s: Power, a: Step)
    requires Enabled(s, a) && (a.PowerMode? || a == Elsewhere) && s.thread.Asleep? && s.threadRun
    ensures var t := Next(s, a);
      t.thread == s.thread && t.threadRun
      && var bumps := if !a.PowerMode? then 0 else if !a.on && BothOff(t) then 2 else 1;
         t.generation == (s.generation + bumps) % 0x1_0000_0000_0000_0000
  {
    ModSum(s.generation, 1, 1);
  }

  lemma {:induction false} WindowGeneration(s: Power, steps: seq<Step>)
    requires Window(s, steps) && s.threadRun
    ensures var t := Run(s, steps);
      t.thread == s.thread && t.threadRun && t.generation == (s.generation + Bumps(s, steps)) % 0x1_0000_0000_0000_0000
    decreases |steps|
  {
    hide Next, Enabled;
    if steps != [] {
      var a := steps[0];
      StepBumps(s, a);
      var bump := if !a.PowerMode? then 0 else if !a.on && BothOff(Next(s, a)) then 2 else 1;
      WindowGeneration(Next(s, a), steps[1..]);
      ModSum(s.generation, bump, Bumps(Next(s, a), steps[1..]));
    }
  }

  lemma {:induction false} NoCallNoChange(s: Power, steps: seq<Step>, k: nat)
    requires Runs(s, steps) && Bumps(s, steps) == 0 && k <= |steps|
    requires forall j | 0 <= j < |steps| :: steps[j].PowerMode? || steps[j] == Elsewhere
    ensures Runs(s, steps[..k]) && Run(s, steps[..k]) == s && Run(s, steps) == s
    decreases |steps|
  {
    if steps != [] {
      assert steps[0] == Elsewhere;
      NoCallNoChange(s, steps[1..], if k == 0 then 0 else k - 1);
      if k > 0 {
        assert steps[..k][1..] == steps[1..][..k - 1];
      }
    }
  }

  /** A panel is commanded off only if both endpoints were off during the whole time from the snapshot to
      the wake-up, unless the calls in between moved the 64-bit generation exactly round. */
  lemma OffOnlyAfterQuietWindow(s: Power, steps: seq<Step>)
    requires Window(s, steps) && s.thread == Asleep(s.generation) && FlagTells(s)
    requires CommandsOff(Run(s, steps))
    ensures Bumps(s, steps) % 0x1_0000_0000_0000_0000 == 0
    ensures Bumps(s, steps) < 0x1_0000_0000_0000_0000 ==>
      forall k | 0 <= k <= |steps| :: Runs(s, steps[..k]) && BothOff(Run(s, steps[..k]))
  {
    hide Run, Runs, Bumps;
    WindowGeneration(s, steps);
    var n := Bumps(s, steps);
    RoundTrip(s.generation, n);
    if n == 0 {
      forall k | 0 <= k <= |steps| ensures Runs(s, steps[..k]) && BothOff(Run(s, steps[..k])) {
        NoCallNoChange(s, steps, k);
      }
    }
  }

  lemma RoundTrip(g: Generation, n: nat)
    requires (g + n) % 0x1_0000_0000_0000_0000 == g
    ensures n % 0x1_0000_0000_0000_0000 == 0
  {}

  /** The thread's own steps from a pending off: a stale snapshot is taken anew, then the panel goes off. */
  function Grace(s: Power): seq<Step> {
    if s.thread == Running then [Snapshot, WakeUp(true)]
    else if s.thread.Asleep? && s.thread.snapshot != s.generation then [WakeUp(true), Snapshot, WakeUp(true)]
    else [WakeUp(true)]
  }

  /** An off that is pending happens within three thread steps if no call comes in between. */
  lemma GraceEnds(s: Power)
    requires FlagTells(s) && OffIsPending(s) && BothOff(s) && s.panel
    ensures Runs(s, Grace(s)) && !Run(s, Grace(s)).panel && BothOff(Run(s, Grace(s))) && !Run(s, Grace(s)).threadRun
  {
    var steps := Grace(s);
    if s.thread == Running {
      GraceFromRunning(s);
    } else if s.thread.snapshot != s.generation {
      var s1 := Next(s, steps[0]);
      assert steps[1..] == Grace(s1);
      GraceFromRunning(s1);
    } else {
      assert steps[1..] == [];
    }
  }

  lemma GraceFromRunning(s: Power)
    requires s.thread == Running && s.threadRun && BothOff(s)
    ensures Runs(s, Grace(s)) && !Run(s, Grace(s)).panel && BothOff(Run(s, Grace(s))) && !Run(s, Grace(s)).threadRun
  {
    var steps := Grace(s);
    var s1 := Next(s, steps[0]);
    assert steps[1..] == [WakeUp(true)] && [WakeUp(true)][1..] == [];
    var s2 := Next(s1, steps[1]);
    assert Runs(s2, []) && Run(s2, []) == s2;
    assert Runs(s1, steps[1..]) && Run(s1, steps[1..]) == s2;
  }

  // ----- the fields of the device -----

  class PowerState {
    var smallPowerOn: bool
    var widePowerOn: bool
    var generation: Generation
    var threadRun: bool
    /** The thread and the panel are not fields of the device. */
    ghost var thread: Thread
    ghost var panel: bool

    ghost function View(): Power
      reads this
    {
      Power(smallPowerOn, widePowerOn, generation, threadRun, thread, panel)
    }

    constructor ()
      ensures View() == Start()
    {
      smallPowerOn, widePowerOn, generation, threadRun, thread, panel := true, false, 0, false, NoThread, true;
    }

    method ScheduleSharedPowerOff(created: bool)
      modifies this
      ensures View() == Schedule(old(View()), created)
    {
      generation := Bump(generation);
      if threadRun {
        return;
      }
      threadRun := true;
      if created {
        thread := Running;
      } else {
        threadRun := false;
      }
    }

    method SetPowerMode(wide: bool, on: bool, created: bool, onOk: bool) returns (ok: bool)
      modifies this
      ensures View() == AfterPowerMode(old(View()), wide, on, created, onOk) && ok == (!on || onOk)
    {
      if wide {
        widePowerOn := on;
      } else {
        smallPowerOn := on;
      }
      generation := Bump(generation);
      if !on {
        if !smallPowerOn && !widePowerOn {
          ScheduleSharedPowerOff(created);
        }
        return true;
      }
      panel := panel || onOk;
      ok := onOk;
    }

    /** One turn of the thread after its sleep; `again` when it starts over. */
    method WakeAndDecide(snapshot: Generation, offOk: bool) returns (again: bool)
      requires thread == Asleep(snapshot)
      modifies this
      ensures View() == Wake(old(View()), offOk) && (again <==> thread == Running)
    {
      if threadRun {
        if snapshot != generation {
          thread := Running;
          return true;
        }
        if !smallPowerOn && !widePowerOn {
          panel := panel && !offOk;
        }
      }
      threadRun, thread := false, NoThread;
      again := false;
    }
  }
}
