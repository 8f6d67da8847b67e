/** Over every run of the router (audio/qcom/hal/audio_hw.c): which calls close only mixer paths that
    are open, and which do not. */
module RouteHistory {
  import opened Common
  import opened SoundRouting
  import opened UsecaseRouting
  import opened RouterRuns
  import opened RouteBalance

  /** What a call that starts in step with the history leaves: the same if it is clean, and otherwise a
      path that has been closed without being open. */
  ghost predicate Outcome(p: Platform, r: Router, id: int, clean: bool, exact: bool) {
    if clean then Mirror(p, r, id, exact) else !Bracketed(r.calls)
  }

  // ----- closing what is not open -----

  lemma StaysBroken(a: seq<MixerCall>, b: seq<MixerCall>)
    requires a <= b
    ensures !Bracketed(a) ==> !Bracketed(b)
  {
    if Bracketed(b) {
      BrokenStays(a, b);
    }
  }

  lemma NegativeBreaks(calls: seq<MixerCall>, name: string)
    requires Balance(calls, name) < 0
    ensures !Bracketed(calls)
  {
    if Bracketed(calls) {
      BracketedWhole(calls, name);
      assert false;
    }
  }

  lemma CloseBreaks(p: Platform, st: Router, u: Usecase)
    requires Opened(p, st, u) <= 0
    ensures !Bracketed(st.calls + [RouteCall(p, u, false)])
  {
    var call := RouteCall(p, u, false);
    BalanceAppend(st.calls, [call], call.name);
    BalanceOfOne(call, call.name);
    NegativeBreaks(st.calls + [call], call.name);
  }

  /** A use case whose path is open less often than it lets go of devices: a call that holds both closes
      its one route twice. */
  lemma FreedBreaks(p: Platform, st: Router, u: Usecase)
    requires PlatformOk(p) && NamesApart(p) && |st.refs| == p.max && Closes(u) > Opened(p, st, u)
    ensures !Bracketed(Freed(p, st, u).calls)
  {
    hide Dropped;
    DroppedBalance(p, st, u, u.out);
    DroppedBalance(p, Dropped(p, st, u, u.out), u, u.in_);
    NegativeBreaks(Freed(p, st, u).calls, p.mixerPath(u.id, RouteDevice(u)));
  }

  lemma {:induction false} ClosesAtLeast(p: Platform, ucs: seq<Usecase>, plan: Plan, j: nat, name: string)
    requires |plan| == |ucs| && j < |ucs| && plan[j].Some? && RouteCall(p, ucs[j], false).name == name
    ensures Balance(RouteCalls(p, ucs, plan, false), name) <= -1
    decreases |ucs|
  {
    FirstOfRouteCalls(p, ucs, plan, false, name);
    if j == 0 {
      RouteCallsAre(p, ucs[1..], plan[1..], false);
      OnlyApplies(RouteCalls(p, ucs[1..], plan[1..], false), false, name);
    } else {
      ClosesAtLeast(p, ucs[1..], plan[1..], j - 1, name);
    }
  }

  /** A re-route that moves a use case whose path is not open. */
  lemma RouteBreaks(p: Platform, st: Router, plan: Plan, side: Side, j: nat)
    requires PlatformOk(p) && |st.refs| == p.max && |plan| == |st.ucs|
    requires j < |st.ucs| && plan[j].Some? && Opened(p, st, st.ucs[j]) <= 0
    ensures !Bracketed(Route(p, st, plan, side).calls)
  {
    hide Balance, Bracketed, RouteCalls, EnableAllCalls, DisableAllCalls;
    var close, name := RouteCalls(p, st.ucs, plan, false), RouteCall(p, st.ucs[j], false).name;
    ClosesAtLeast(p, st.ucs, plan, j, name);
    BalanceAppend(st.calls, close, name);
    NegativeBreaks(st.calls + close, name);
    StaysBroken(st.calls + close, Route(p, st, plan, side).calls);
  }

  // ----- one switch -----

  /** The path of every use case that the re-route of playback use cases to `d` moves is open. */
  predicate OutputsOpen(p: Platform, st: Router, uc: Usecase, d: Device, force: bool) {
    forall j | 0 <= j < |st.ucs| && MovesOut(p, st.ucs[j], uc, d, force) :: Opened(p, st, st.ucs[j]) >= 1
  }

  predicate InputsOpen(p: Platform, st: Router, uc: Usecase, d: Device) {
    forall j | 0 <= j < |st.ucs| && MovesIn(p, st.ucs[j], uc, d) :: Opened(p, st, st.ucs[j]) >= 1
  }

  predicate OutputClean(p: Platform, st: Router, uc: Usecase, out: Device, force: bool) {
    out != NONE && uc.devices * (p.codecBackend + p.usb + p.a2dp) != {} ==> OutputsOpen(p, st, uc, out, force)
  }

  predicate InputClean(p: Platform, st: Router, uc: Usecase, in_: Device) {
    in_ != NONE ==> InputsOpen(p, st, uc, in_)
  }

  /** The use case's own path is open as often as it is closed, and so is that of everybody moved. */
  predicate SwitchClean(p: Platform, st: Router, k: nat, out: Device, in_: Device, force: bool)
    requires PlatformOk(p) && |st.refs| == p.max && k < |st.ucs|
  {
    var uc := st.ucs[k];
    && Closes(uc) <= Opened(p, st, uc)
    && OutputClean(p, Freed(p, st, uc), uc, out, force)
    && InputClean(p, SwitchOut(p, Freed(p, st, uc), uc, out, force), uc, in_)
  }

  lemma PlaybackPlanStays(p: Platform, ucs: seq<Usecase>, uc: Usecase, d: Device, force: bool)
    requires d != NONE
    ensures StayRouted(ucs, PlaybackPlan(p, ucs, uc, d, force), Out)
  {}

  lemma CapturePlanStays(p: Platform, ucs: seq<Usecase>, uc: Usecase, d: Device)
    requires d != NONE
    ensures StayRouted(ucs, CapturePlan(p, ucs, uc, d), In)
  {}

  lemma PlaybackHistory(p: Platform, st: Router, uc: Usecase, d: Device, force: bool, exact: bool)
    requires PlatformOk(p) && NamesApart(p) && Mirror(p, st, uc.id, exact) && Unique(st.ucs)
    requires exact ==> d != NONE
    ensures Outcome(p, Route(p, st, PlaybackPlan(p, st.ucs, uc, d, force), Out), uc.id,
                    OutputsOpen(p, st, uc, d, force), exact)
  {
    hide Route, Mirror, Bracketed, Derive, PlatformOk, NamesApart, Opened, StayRouted;
    var plan := PlaybackPlan(p, st.ucs, uc, d, force);
    HasCounts(p, st, uc.id, exact);
    if OutputsOpen(p, st, uc, d, force) {
      if exact {
        PlaybackPlanStays(p, st.ucs, uc, d, force);
      }
      RouteMirrors(p, st, plan, Out, uc.id, exact);
    } else {
      var j :| 0 <= j < |st.ucs| && MovesOut(p, st.ucs[j], uc, d, force) && Opened(p, st, st.ucs[j]) < 1;
      RouteBreaks(p, st, plan, Out, j);
    }
  }

  lemma CaptureHistory(p: Platform, st: Router, uc: Usecase, d: Device, exact: bool)
    requires PlatformOk(p) && NamesApart(p) && Mirror(p, st, uc.id, exact) && Unique(st.ucs) && d != NONE
    ensures Outcome(p, Route(p, st, CapturePlan(p, st.ucs, uc, d), In), uc.id, InputsOpen(p, st, uc, d), exact)
  {
    hide Route, Mirror, Bracketed, PlatformOk, NamesApart, Opened, StayRouted;
    var plan := CapturePlan(p, st.ucs, uc, d);
    HasCounts(p, st, uc.id, exact);
    if InputsOpen(p, st, uc, d) {
      CapturePlanStays(p, st.ucs, uc, d);
      RouteMirrors(p, st, plan, In, uc.id, exact);
    } else {
      var j :| 0 <= j < |st.ucs| && MovesIn(p, st.ucs[j], uc, d) && Opened(p, st, st.ucs[j]) < 1;
      RouteBreaks(p, st, plan, In, j);
    }
  }

  lemma SwitchOutHistory(p: Platform, st: Router, uc: Usecase, out: Device, force: bool, exact: bool)
    requires PlatformOk(p) && NamesApart(p) && Mirror(p, st, uc.id, exact) && Unique(st.ucs)
    ensures Outcome(p, SwitchOut(p, st, uc, out, force), uc.id, OutputClean(p, st, uc, out, force), exact)
  {
    hide Route, Mirror, Bracketed, PlatformOk, NamesApart, PlaybackPlan, OutputsOpen, Enabled;
    HasCounts(p, st, uc.id, exact);
    if out != NONE {
      var plan := PlaybackPlan(p, st.ucs, uc, out, force);
      PlaybackHistory(p, st, uc, out, force, exact);
      var routed := if uc.devices * (p.codecBackend + p.usb + p.a2dp) != {} then Route(p, st, plan, Out) else st;
      StaysBroken(routed.calls, Enabled(p, routed, out).calls);
      if OutputClean(p, st, uc, out, force) {
        EnabledMirrors(p, routed, out, uc.id, exact);
      }
    }
  }

  lemma SwitchInHistory(p: Platform, st: Router, uc: Usecase, in_: Device, exact: bool)
    requires PlatformOk(p) && NamesApart(p) && Mirror(p, st, uc.id, exact) && Unique(st.ucs)
    ensures Outcome(p, SwitchIn(p, st, uc, in_), uc.id, InputClean(p, st, uc, in_), exact)
  {
    hide Route, Mirror, Bracketed, PlatformOk, NamesApart, CapturePlan, InputsOpen, Enabled;
    HasCounts(p, st, uc.id, exact);
    if in_ != NONE {
      CaptureHistory(p, st, uc, in_, exact);
      var routed := Route(p, st, CapturePlan(p, st.ucs, uc, in_), In);
      StaysBroken(routed.calls, Enabled(p, routed, in_).calls);
      if InputClean(p, st, uc, in_) {
        EnabledMirrors(p, routed, in_, uc.id, exact);
      }
    }
  }

  lemma InvIsUnique(p: Platform, st: Router)
    requires Inv(p, st)
    ensures Unique(st.ucs) && forall k | 0 <= k < |st.ucs| :: UsecaseOk(p, st.ucs[k])
  {}

  /** A switch keeps the calls bracketed exactly when it is clean; and what they leave open exact if the use
      case ends with the device its path goes by. */
  lemma SwitchHistory(p: Platform, st: Router, k: nat, out: Device, in_: Device, force: bool, exact: bool)
    requires PlatformOk(p) && NamesApart(p) && Mirror(p, st, -1, exact) && k < |st.ucs|
    requires Unique(st.ucs) && UsecaseOk(p, st.ucs[k])
    ensures Outcome(p, Switch(p, st, k, out, in_, force), -1, SwitchClean(p, st, k, out, in_, force),
                    exact && Routed(st.ucs[k].(out := out, in_ := in_)))
  {
    hide Mirror, Bracketed, PlatformOk, NamesApart, Freed, SwitchOut, SwitchIn, OutputClean, InputClean, RouteCall;
    hide Opened, Closes;
    HasCounts(p, st, -1, exact);
    var uc := st.ucs[k];
    var freed := Freed(p, st, uc);
    var half := SwitchOut(p, freed, uc, out, force);
    var full := SwitchIn(p, half, uc, in_);
    var r := Switch(p, st, k, out, in_, force);
    assert freed.calls <= half.calls && half.calls <= full.calls && full.calls <= r.calls;
    StaysBroken(freed.calls, half.calls);
    StaysBroken(half.calls, full.calls);
    StaysBroken(full.calls, r.calls);
    if Closes(uc) > Opened(p, st, uc) {
      FreedBreaks(p, st, uc);
    } else {
      FreedMirrors(p, st, k, exact);
      SwitchOutHistory(p, freed, uc, out, force, exact);
      if OutputClean(p, freed, uc, out, force) {
        OutputKeepsUsers(p, freed, uc, out, force);
        SwitchInHistory(p, half, uc, in_, exact);
        if InputClean(p, half, uc, in_) {
          InputKeepsUsers(p, half, uc, in_);
          OpenMirrors(p, full, k, full.ucs[k].(out := out, in_ := in_), exact);
        }
      }
    }
  }

  lemma OutputKeepsUsers(p: Platform, st: Router, uc: Usecase, out: Device, force: bool)
    requires PlatformOk(p) && |st.refs| == p.max && Unique(st.ucs)
    ensures var half := SwitchOut(p, st, uc, out, force);
      Unique(half.ucs) && SameUsers(st.ucs, half.ucs)
  {
    hide PlaybackPlan, EnableAll, DisableAll, EnableAllCalls, DisableAllCalls, RouteCalls, Enable, EnableCalls;
    hide PlatformOk;
  }

  lemma InputKeepsUsers(p: Platform, st: Router, uc: Usecase, in_: Device)
    requires PlatformOk(p) && |st.refs| == p.max && Unique(st.ucs)
    ensures var full := SwitchIn(p, st, uc, in_);
      Unique(full.ucs) && SameUsers(st.ucs, full.ucs)
  {
    hide CapturePlan, EnableAll, DisableAll, EnableAllCalls, DisableAllCalls, RouteCalls, Enable, EnableCalls;
    hide PlatformOk;
  }

  // ----- in terms of devices -----

  /** A re-route moves nobody without a device. */
  predicate OutputsRouted(p: Platform, ucs: seq<Usecase>, uc: Usecase, d: Device, force: bool) {
    forall j | 0 <= j < |ucs| && MovesOut(p, ucs[j], uc, d, force) :: Routed(ucs[j])
  }

  predicate InputsRouted(p: Platform, ucs: seq<Usecase>, uc: Usecase, d: Device) {
    forall j | 0 <= j < |ucs| && MovesIn(p, ucs[j], uc, d) :: Routed(ucs[j])
  }

  /** Before a switch: the use case is no call that holds an input device, and nobody without a device
      is moved. */
  predicate SwitchGuard(p: Platform, ucs: seq<Usecase>, k: nat, out: Device, in_: Device, force: bool)
    requires k < |ucs|
  {
    var uc := ucs[k];
    && !(uc.kind == VoiceCall && uc.in_ != NONE)
    && (out != NONE && uc.devices * (p.codecBackend + p.usb + p.a2dp) != {} ==> OutputsRouted(p, ucs, uc, out, force))
    && (in_ != NONE ==> InputsRouted(p, ucs, uc, in_))
  }

  /** Only a forced re-route moves use cases without a device. */
  lemma OnlyForceMovesTheUnrouted(p: Platform, ucs: seq<Usecase>, uc: Usecase, d: Device, force: bool)
    requires forall a: Device :: !p.sameBackend(a, NONE)
    ensures OutputsRouted(p, ucs, uc, d, force)
       <==> (!force || forall j | 0 <= j < |ucs| && ucs[j].kind != Capture && ucs[j].id != uc.id :: Routed(ucs[j]))
  {
    if force && OutputsRouted(p, ucs, uc, d, force) {
      forall j | 0 <= j < |ucs| && ucs[j].kind != Capture && ucs[j].id != uc.id ensures Routed(ucs[j]) {
        assert MovesOut(p, ucs[j], uc, d, force);
      }
    }
  }

  /** While exactly the routed paths are open, a use case other than the one in flight has its path open
      exactly when it is routed. */
  lemma OpenedInFlight(p: Platform, st: Router, id: int)
    requires NamesApart(p) && Mirror(p, st, id, true) && Unique(st.ucs)
    ensures forall j | 0 <= j < |st.ucs| && st.ucs[j].id != id :: Opened(p, st, st.ucs[j]) >= 1 <==> Routed(st.ucs[j])
  {
    hide DevicesOn, RoutesOn, Balance, Bracketed, NamesApart;
    forall j | 0 <= j < |st.ucs| && st.ucs[j].id != id
      ensures Opened(p, st, st.ucs[j]) >= 1 <==> Routed(st.ucs[j])
    {
      var u := st.ucs[j];
      NoDeviceNamed(p, st.refs, u.id, RouteDevice(u), p.max);
      RoutesOfOne(p, st.ucs, id, j);
    }
  }

  lemma {:induction false} RoutesOfOne(p: Platform, ucs: seq<Usecase>, id: int, j: nat)
    requires NamesApart(p) && Unique(ucs) && j < |ucs| && ucs[j].id != id
    ensures RoutesOn(p, ucs, id, p.mixerPath(ucs[j].id, RouteDevice(ucs[j]))) == if Routed(ucs[j]) then 1 else 0
  {
    var u := ucs[j];
    if j == 0 {
      NobodyNamed(p, ucs[1..], id, u.id, RouteDevice(u));
    } else {
      assert ucs[0].id != u.id;
      RoutesOfOne(p, ucs[1..], id, j - 1);
    }
  }

  /** Moving outputs changes nothing a capture re-route asks about. */
  lemma OutputsDoNotMatter(p: Platform, ucs: seq<Usecase>, uc: Usecase, out: Device, force: bool, in_: Device)
    requires OutputsRouted(p, ucs, uc, out, force) && out != NONE
    ensures var moved := Moved(ucs, PlaybackPlan(p, ucs, uc, out, force), Out);
      InputsRouted(p, ucs, uc, in_) <==> InputsRouted(p, moved, uc, in_)
  {
    var moved := Moved(ucs, PlaybackPlan(p, ucs, uc, out, force), Out);
    assert forall j | 0 <= j < |ucs| :: Routed(moved[j]) == Routed(ucs[j]);
    assert forall j | 0 <= j < |ucs| :: MovesIn(p, moved[j], uc, in_) == MovesIn(p, ucs[j], uc, in_);
  }

  lemma InputsAsBefore(p: Platform, st: Router, uc: Usecase, out: Device, force: bool, in_: Device)
    requires PlatformOk(p) && |st.refs| == p.max
    requires out != NONE && uc.devices * (p.codecBackend + p.usb + p.a2dp) != {} ==>
      OutputsRouted(p, st.ucs, uc, out, force)
    ensures InputsRouted(p, SwitchOut(p, st, uc, out, force).ucs, uc, in_) <==> InputsRouted(p, st.ucs, uc, in_)
  {
    hide OutputsRouted, InputsRouted, PlaybackPlan, EnableAll, DisableAll, EnableAllCalls, DisableAllCalls, RouteCalls;
    hide Enable, EnableCalls, PlatformOk;
    if out != NONE && uc.devices * (p.codecBackend + p.usb + p.a2dp) != {} {
      OutputsDoNotMatter(p, st.ucs, uc, out, force, in_);
    }
  }

  lemma OutputGuard(p: Platform, st: Router, uc: Usecase, out: Device, force: bool)
    requires NamesApart(p) && Mirror(p, st, uc.id, true) && Unique(st.ucs)
    ensures OutputsOpen(p, st, uc, out, force) <==> OutputsRouted(p, st.ucs, uc, out, force)
  {
    OpenedInFlight(p, st, uc.id);
    hide Mirror, Opened, NamesApart;
  }

  lemma InputGuard(p: Platform, st: Router, uc: Usecase, in_: Device)
    requires NamesApart(p) && Mirror(p, st, uc.id, true) && Unique(st.ucs)
    ensures InputsOpen(p, st, uc, in_) <==> InputsRouted(p, st.ucs, uc, in_)
  {
    OpenedInFlight(p, st, uc.id);
    hide Mirror, Opened, NamesApart;
  }

  /** While exactly the routed paths are open, a switch is clean exactly when its use case is no call that
      holds an input device and it moves nobody without a device. */
  lemma CleanIsGuarded(p: Platform, st: Router, k: nat, out: Device, in_: Device, force: bool)
    requires PlatformOk(p) && NamesApart(p) && Mirror(p, st, -1, true) && k < |st.ucs|
    requires Unique(st.ucs) && UsecaseOk(p, st.ucs[k])
    ensures SwitchClean(p, st, k, out, in_, force) <==> SwitchGuard(p, st.ucs, k, out, in_, force)
  {
    HasCounts(p, st, -1, true);
    OpenedExactly(p, st, k, true);
    var uc := st.ucs[k];
    assert Closes(uc) <= Opened(p, st, uc) <==> !(uc.kind == VoiceCall && uc.in_ != NONE);
    hide Mirror, NamesApart, PlatformOk, Freed, SwitchOut, OutputsOpen, InputsOpen, OutputsRouted, InputsRouted;
    hide Opened, Closes;
    if Closes(uc) <= Opened(p, st, uc) {
      FreedMirrors(p, st, k, true);
      var freed := Freed(p, st, uc);
      OutputGuard(p, freed, uc, out, force);
      SwitchOutHistory(p, freed, uc, out, force, true);
      if OutputClean(p, freed, uc, out, force) {
        InputsAsBefore(p, freed, uc, out, force, in_);
        OutputKeepsUsers(p, freed, uc, out, force);
        InputGuard(p, SwitchOut(p, freed, uc, out, force), uc, in_);
      }
    }
  }

  // ----- one selection -----

  /** The platform names a device wherever it is asked. */
  predicate AnswersName(a: Answers) {
    a.out != NONE && a.in_ != NONE && (a.voip.Some? ==> AnswersName(a.voip.value.1))
  }

  /** The switches of a selection are clean, the nested one included. */
  predicate SelectClean(p: Platform, st: Router, id: nat, a: Answers)
    requires PlatformOk(p) && |st.refs| == p.max
    decreases a
  {
    var k := Find(st.ucs, id);
    k < 0 ||
    var kind := st.ucs[k].kind;
    var st1 := st.(ucs := st.ucs[k := st.ucs[k].(devices := st.ucs[k].stream)]);
    var nested := kind == Playback && a.voip.Some?;
    var st2 := if nested then Select(p, st1, a.voip.value.0, a.voip.value.1) else st1;
    var out, in_ := if kind == Capture then NONE else a.out, if kind == Playback then NONE else a.in_;
    && (nested ==> SelectClean(p, st1, a.voip.value.0, a.voip.value.1))
    && (|| (out == st2.ucs[k].out && in_ == st2.ucs[k].in_ && !a.force)
        || (p.isA2dp(out) && !a.a2dpReady)
        || SwitchClean(p, st2, k, FinalOut(p, id, out, a.a2dpReady), in_, a.forceRouting))
  }

  lemma MasksMirror(p: Platform, st: Router, k: nat, devices: Mask, stream: Mask, exact: bool)
    requires Mirror(p, st, -1, exact) && k < |st.ucs|
    ensures Mirror(p, st.(ucs := st.ucs[k := st.ucs[k].(devices := devices, stream := stream)]), -1, exact)
  {
    var ucs := st.ucs[k := st.ucs[k].(devices := devices, stream := stream)];
    forall name ensures RoutesOn(p, ucs, -1, name) == RoutesOn(p, st.ucs, -1, name) {
      RoutesIgnore(p, ucs, st.ucs, -1, name);
    }
  }

  lemma FinallyRouted(p: Platform, u: Usecase, out: Device, in_: Device, ready: bool)
    requires PlatformOk(p) && UsecaseOk(p, u) && Known(p, out)
    requires if u.kind == Capture then in_ != NONE else out != NONE
    ensures Routed(u.(out := FinalOut(p, u.id, out, ready), in_ := in_))
  {}

  /** The last part of a selection. */
  lemma FinishHistory(p: Platform, st: Router, k: nat, a: Answers, exact: bool)
    requires NeverFails(p) && NamesApart(p) && Inv(p, st) && Mirror(p, st, -1, exact) && k < |st.ucs|
    requires AnswersOk(p, a)
    ensures var kind := st.ucs[k].kind;
      var out, in_ := if kind == Capture then NONE else a.out, if kind == Playback then NONE else a.in_;
      var final := FinalOut(p, st.ucs[k].id, out, a.a2dpReady);
      Outcome(p, Switch(p, st, k, final, in_, a.forceRouting), -1,
              SwitchClean(p, st, k, final, in_, a.forceRouting), exact && AnswersName(a))
  {
    hide Switch, SwitchClean, Mirror, Bracketed, NamesApart, Conserved;
    HasCounts(p, st, -1, exact);
    InvIsUnique(p, st);
    var u := st.ucs[k];
    var out, in_ := if u.kind == Capture then NONE else a.out, if u.kind == Playback then NONE else a.in_;
    var final := FinalOut(p, u.id, out, a.a2dpReady);
    if AnswersName(a) {
      FinallyRouted(p, u, out, in_, a.a2dpReady);
    }
    SwitchHistory(p, st, k, final, in_, a.forceRouting, exact);
    if SwitchClean(p, st, k, final, in_, a.forceRouting) {
      Weaker(p, Switch(p, st, k, final, in_, a.forceRouting), -1,
             exact && Routed(u.(out := final, in_ := in_)));
    }
  }

  /** The state in which a selection for the use case at place `k` looks at the answers. */
  function Nested(p: Platform, st: Router, k: nat, a: Answers): (r: Router)
    requires PlatformOk(p) && |st.refs| == p.max && k < |st.ucs|
    ensures |r.refs| == p.max && |r.ucs| == |st.ucs| && st.calls <= r.calls
  {
    var st1 := st.(ucs := st.ucs[k := st.ucs[k].(devices := st.ucs[k].stream)]);
    if st.ucs[k].kind == Playback && a.voip.Some? then Select(p, st1, a.voip.value.0, a.voip.value.1) else st1
  }

  /** A selection that has come through the nested one. */
  lemma SelectEnds(p: Platform, st: Router, k: nat, a: Answers, exact: bool)
    requires NeverFails(p) && NamesApart(p) && AnswersOk(p, a) && |st.refs| == p.max
    requires k < |st.ucs| && k == Find(st.ucs, st.ucs[k].id)
    requires var st2 := Nested(p, st, k, a);
      Inv(p, st2) && Mirror(p, st2, -1, exact) && SameUsers(st.ucs, st2.ucs)
    requires var st1 := st.(ucs := st.ucs[k := st.ucs[k].(devices := st.ucs[k].stream)]);
      st.ucs[k].kind == Playback && a.voip.Some? ==> SelectClean(p, st1, a.voip.value.0, a.voip.value.1)
    ensures var id := st.ucs[k].id;
      Outcome(p, Select(p, st, id, a), -1, SelectClean(p, st, id, a), exact && AnswersName(a))
  {
    hide Switch, SwitchClean, Inv, FinalOut, PlatformOk, Known, Real, NamesApart, Mirror, Bracketed, AnswersName;
    hide AnswersOk, Find;
    var st2 := Nested(p, st, k, a);
    FinishHistory(p, st2, k, a, exact);
    LessExact(p, st2, -1, exact, exact && AnswersName(a));
  }

  lemma LessExact(p: Platform, st: Router, id: int, exact: bool, less: bool)
    requires Mirror(p, st, id, exact) && (less ==> exact)
    ensures Mirror(p, st, id, less)
  {}

  lemma {:induction false} SelectHistory(p: Platform, st: Router, id: nat, a: Answers, exact: bool)
    requires NeverFails(p) && NamesApart(p) && Inv(p, st) && AnswersOk(p, a) && Mirror(p, st, -1, exact)
    ensures Outcome(p, Select(p, st, id, a), -1, SelectClean(p, st, id, a), exact && AnswersName(a))
    decreases a
  {
    hide Switch, SwitchClean, Inv, FinalOut, PlatformOk, Known, Real, NamesApart, Mirror, Bracketed;
    HasCounts(p, st, -1, exact);
    LessExact(p, st, -1, exact, exact && AnswersName(a));
    var k := Find(st.ucs, id);
    if k >= 0 {
      var u := st.ucs[k];
      var st1 := st.(ucs := st.ucs[k := u.(devices := u.stream)]);
      MasksConserve(p, st, k, u.stream, u.stream);
      MasksMirror(p, st, k, u.stream, u.stream, exact);
      if u.kind == Playback && a.voip.Some? {
        var nested := a.voip.value;
        SelectConserves(p, st1, nested.0, nested.1);
        SelectHistory(p, st1, nested.0, nested.1, exact);
        if SelectClean(p, st1, nested.0, nested.1) {
          SelectEnds(p, st, k, a, exact && AnswersName(nested.1));
        } else {
          StaysBroken(Select(p, st1, nested.0, nested.1).calls, Select(p, st, id, a).calls);
        }
      } else {
        SelectEnds(p, st, k, a, exact);
      }
    }
  }

  predicate AllNamed(selections: seq<(nat, Answers)>) {
    forall k | 0 <= k < |selections| :: AnswersName(selections[k].1)
  }

  predicate SelectAllClean(p: Platform, st: Router, selections: seq<(nat, Answers)>)
    requires PlatformOk(p) && |st.refs| == p.max
    decreases |selections|
  {
    selections == []
    || (SelectClean(p, st, selections[0].0, selections[0].1)
        && SelectAllClean(p, Select(p, st, selections[0].0, selections[0].1), selections[1..]))
  }

  lemma {:induction false} SelectAllHistory(p: Platform, st: Router, selections: seq<(nat, Answers)>, exact: bool)
    requires NeverFails(p) && NamesApart(p) && Inv(p, st) && SelectionsOk(p, selections) && Mirror(p, st, -1, exact)
    ensures Outcome(p, SelectAll(p, st, selections), -1, SelectAllClean(p, st, selections),
                    exact && AllNamed(selections))
    decreases |selections|
  {
    hide Select, SelectClean, Inv, Mirror, Bracketed, NamesApart, PlatformOk, AnswersOk, AnswersName;
    HasCounts(p, st, -1, exact);
    Weaker(p, st, -1, exact);
    if selections != [] {
      var next, first := Select(p, st, selections[0].0, selections[0].1), selections[0].1;
      SelectHistory(p, st, selections[0].0, first, exact);
      SelectConserves(p, st, selections[0].0, first);
      assert AllNamed(selections) <==> AnswersName(first) && AllNamed(selections[1..]);
      if SelectClean(p, st, selections[0].0, first) {
        SelectAllHistory(p, next, selections[1..], exact && AnswersName(first));
      } else {
        StaysBroken(next.calls, SelectAll(p, next, selections[1..]).calls);
      }
    }
  }

  // ----- stopping -----

  lemma LeaveHistory(p: Platform, st: Router, k: nat, exact: bool)
    requires PlatformOk(p) && NamesApart(p) && Mirror(p, st, -1, exact) && k < |st.ucs| && Unique(st.ucs)
    requires UsecaseOk(p, st.ucs[k])
    ensures Outcome(p, Leave(p, st, k), -1, Opened(p, st, st.ucs[k]) >= 1, exact)
  {
    hide Mirror, Bracketed, NamesApart, Disabled, PlatformOk, RouteCall, Opened;
    HasCounts(p, st, -1, exact);
    var u := st.ucs[k];
    var closed := st.(calls := st.calls + [RouteCall(p, u, false)]);
    if Opened(p, st, u) >= 1 {
      CloseMirrors(p, st, k, exact);
      var half := if u.kind == Capture then closed else Disabled(p, closed, u.out);
      if u.kind != Capture {
        DisabledMirrors(p, closed, u.out, u.id, exact);
      }
      var full := if u.kind == Playback then half else Disabled(p, half, u.in_);
      if u.kind != Playback {
        DisabledMirrors(p, half, u.in_, u.id, exact);
      }
      OutOfTheList(p, full, k, exact);
    } else {
      CloseBreaks(p, st, u);
      StaysBroken(closed.calls, Leave(p, st, k).calls);
    }
  }

  lemma OutOfTheList(p: Platform, st: Router, k: nat, exact: bool)
    requires k < |st.ucs| && Unique(st.ucs) && Mirror(p, st, st.ucs[k].id, exact)
    ensures Mirror(p, st.(ucs := Without(st.ucs, k)), -1, exact)
  {
    forall name ensures RoutesOn(p, Without(st.ucs, k), -1, name) == RoutesOn(p, st.ucs, st.ucs[k].id, name) {
      RoutesPull(p, st.ucs, k, name);
    }
  }

  predicate ReroutedClean(p: Platform, st: Router, left: Usecase, usb: Option<bool>) {
    usb.Some? && left.kind == Playback ==> OutputsOpen(p, st, left, left.out, usb.value)
  }

  /** The one that has left is not in the list, so nothing is in flight. */
  lemma NobodyInFlight(p: Platform, st: Router, id: int, exact: bool)
    requires forall j | 0 <= j < |st.ucs| :: st.ucs[j].id != id
    ensures Mirror(p, st, id, exact) <==> Mirror(p, st, -1, exact)
  {
    forall name ensures RoutesOn(p, st.ucs, id, name) == RoutesOn(p, st.ucs, -1, name) {
      NobodyLeftOut(p, st.ucs, id, name);
    }
  }

  lemma ReroutedHistory(p: Platform, st: Router, left: Usecase, usb: Option<bool>, exact: bool)
    requires PlatformOk(p) && NamesApart(p) && Mirror(p, st, -1, exact) && Unique(st.ucs)
    requires (exact ==> Routed(left)) && forall j | 0 <= j < |st.ucs| :: st.ucs[j].id != left.id
    ensures Outcome(p, Rerouted(p, st, left, usb), -1, ReroutedClean(p, st, left, usb), exact)
  {
    hide Bracketed, NamesApart, PlatformOk, Mirror, PlaybackPlan, Route, OutputsOpen;
    HasCounts(p, st, -1, exact);
    if usb.Some? && left.kind == Playback {
      NobodyInFlight(p, st, left.id, exact);
      var plan := PlaybackPlan(p, st.ucs, left, left.out, usb.value);
      PlaybackHistory(p, st, left, left.out, usb.value, exact);
      var r := Route(p, st, plan, Out);
      RouteKeepsIds(p, st, plan, Out);
      NobodyInFlight(p, r, left.id, exact);
    }
  }

  /** A stop is clean when the path of its use case is open, and so is all that is moved or selected
      behind it. */
  predicate StopClean(p: Platform, st: Router, id: nat, usb: Option<bool>, reselected: seq<(nat, Answers)>)
    requires PlatformOk(p) && |st.refs| == p.max
  {
    var k := Find(st.ucs, id);
    k < 0
    || (&& Opened(p, st, st.ucs[k]) >= 1 && ReroutedClean(p, Leave(p, st, k), st.ucs[k], usb)
        && SelectAllClean(p, Rerouted(p, Leave(p, st, k), st.ucs[k], usb), reselected))
  }

  lemma StopHistory(p: Platform, st: Router, id: nat, usb: Option<bool>, reselected: seq<(nat, Answers)>, exact: bool)
    requires NeverFails(p) && NamesApart(p) && Inv(p, st) && SelectionsOk(p, reselected) && Mirror(p, st, -1, exact)
    ensures Outcome(p, Stop(p, st, id, usb, reselected), -1, StopClean(p, st, id, usb, reselected),
                    exact && AllNamed(reselected))
  {
    hide Mirror, Bracketed, NamesApart, Conserved, SelectAll, SelectAllClean, Rerouted, ReroutedClean, Leave, Opened;
    hide AllNamed, PlatformOk, SelectionsOk, ListOk, UsecaseOk;
    HasCounts(p, st, -1, exact);
    Weaker(p, st, -1, exact);
    InvIsUnique(p, st);
    var k := Find(st.ucs, id);
    if k >= 0 {
      var left, r := st.ucs[k], Stop(p, st, id, usb, reselected);
      var without := Leave(p, st, k);
      var routed := Rerouted(p, without, left, usb);
      assert without.calls <= routed.calls && routed.calls <= r.calls;
      StaysBroken(without.calls, routed.calls);
      StaysBroken(routed.calls, r.calls);
      LeaveHistory(p, st, k, exact);
      LeaveConserves(p, st, k);
      OpenedExactly(p, st, k, exact);
      if Opened(p, st, left) >= 1 {
        InvIsUnique(p, without);
        ReroutedHistory(p, without, left, usb, exact);
        ReroutedConserves(p, without, left, usb);
        if ReroutedClean(p, without, left, usb) {
          SelectAllHistory(p, routed, reselected, exact);
        }
      }
    }
  }

  // ----- starting -----

  predicate FallBackClean(p: Platform, st: Router, id: nat, fallback: Option<(Mask, Answers)>)
    requires PlatformOk(p) && |st.refs| == p.max
  {
    fallback.Some? ==> SelectClean(p, st.(ucs := SetStream(st.ucs, id, fallback.value.0)), id, fallback.value.1)
  }

  lemma StreamMirrors(p: Platform, st: Router, id: nat, stream: Mask, exact: bool)
    requires Mirror(p, st, -1, exact)
    ensures Mirror(p, st.(ucs := SetStream(st.ucs, id, stream)), -1, exact)
  {
    hide Mirror;
    var k := Find(st.ucs, id);
    if k >= 0 {
      MasksMirror(p, st, k, st.ucs[k].devices, stream, exact);
      assert st.ucs[k].(stream := stream) == st.ucs[k].(devices := st.ucs[k].devices, stream := stream);
    }
  }

  predicate FallBackNamed(fallback: Option<(Mask, Answers)>) {
    fallback.Some? ==> AnswersName(fallback.value.1)
  }

  lemma FallBackHistory(p: Platform, st: Router, id: nat, stream: Mask, fallback: Option<(Mask, Answers)>, exact: bool)
    requires NeverFails(p) && NamesApart(p) && Inv(p, st) && Mirror(p, st, -1, exact)
    requires fallback.Some? ==> AnswersOk(p, fallback.value.1)
    ensures Outcome(p, FallBack(p, st, id, stream, fallback), -1, FallBackClean(p, st, id, fallback),
                    exact && FallBackNamed(fallback))
  {
    hide Mirror, Bracketed, NamesApart, Inv, Select, SelectClean, SetStream, AnswersOk, AnswersName;
    HasCounts(p, st, -1, exact);
    if fallback.Some? {
      SetStreamConserves(p, st, id, fallback.value.0);
      StreamMirrors(p, st, id, fallback.value.0, exact);
      var narrowed := st.(ucs := SetStream(st.ucs, id, fallback.value.0));
      SelectHistory(p, narrowed, id, fallback.value.1, exact);
      if FallBackClean(p, st, id, fallback) {
        StreamMirrors(p, Select(p, narrowed, id, fallback.value.1), id, stream, exact && FallBackNamed(fallback));
      }
    }
  }

  function Joined(st: Router, how: Startup): Router {
    st.(ucs := st.ucs + [Usecase(how.id, how.kind, NONE, NONE, how.stream, how.stream)])
  }

  function First(p: Platform, st: Router, how: Startup): (r: Router)
    requires PlatformOk(p) && |st.refs| == p.max
    ensures |r.refs| == p.max
  {
    if how.first.Some? then Select(p, Joined(st, how), how.id, how.first.value) else Joined(st, how)
  }

  /** A start is clean when its selections are, and the stop that follows if the stream does not open. */
  predicate StartClean(p: Platform, st: Router, how: Startup)
    requires PlatformOk(p) && |st.refs| == p.max
  {
    && (how.first.Some? ==> SelectClean(p, Joined(st, how), how.id, how.first.value))
    && FallBackClean(p, First(p, st, how), how.id, how.fallback)
    && (!how.opens ==>
          StopClean(p, FallBack(p, First(p, st, how), how.id, how.stream, how.fallback),
                    how.id, how.usb, how.reselected))
  }

  predicate StartupNamed(how: Startup) {
    && (how.first.Some? ==> AnswersName(how.first.value)) && FallBackNamed(how.fallback)
    && (!how.opens ==> AllNamed(how.reselected))
  }

  lemma JoinHistory(p: Platform, st: Router, how: Startup, exact: bool)
    requires Inv(p, st) && Mirror(p, st, -1, exact) && StartupOk(p, st, how)
    ensures Mirror(p, Joined(st, how), -1, exact) && Inv(p, Joined(st, how))
  {
    hide Conserved, DevicesOn, Balance, Bracketed;
    var u := Usecase(how.id, how.kind, NONE, NONE, how.stream, how.stream);
    forall name ensures RoutesOn(p, st.ucs + [u], -1, name) == RoutesOn(p, st.ucs, -1, name) {
      RoutesJoin(p, st.ucs, u, name);
    }
    JoinConserves(p, st, u);
  }

  lemma StartHistory(p: Platform, st: Router, how: Startup, exact: bool)
    requires NeverFails(p) && NamesApart(p) && Inv(p, st) && Mirror(p, st, -1, exact) && StartupOk(p, st, how)
    ensures Outcome(p, Start(p, st, how), -1, StartClean(p, st, how), exact && StartupNamed(how))
  {
    hide Mirror, Bracketed, NamesApart, Inv, Select, SelectClean, Stop, StopClean, FallBack, FallBackClean;
    hide AnswersOk, AnswersName, SelectionsOk, AllNamed, Joined, FallBackNamed;
    HasCounts(p, st, -1, exact);
    JoinHistory(p, st, how, exact);
    HasCounts(p, Joined(st, how), -1, exact);
    JoinedIs(st, how);
    var first, r := First(p, st, how), Start(p, st, how);
    var fallen := FallBack(p, first, how.id, how.stream, how.fallback);
    assert first.calls <= fallen.calls && fallen.calls <= r.calls;
    StaysBroken(first.calls, fallen.calls);
    StaysBroken(fallen.calls, r.calls);
    var exact1 := exact && (how.first.Some? ==> AnswersName(how.first.value));
    var exact2 := exact1 && FallBackNamed(how.fallback);
    if how.first.Some? {
      SelectHistory(p, Joined(st, how), how.id, how.first.value, exact);
      SelectConserves(p, Joined(st, how), how.id, how.first.value);
    }
    if how.first.None? || SelectClean(p, Joined(st, how), how.id, how.first.value) {
      FallBackHistory(p, first, how.id, how.stream, how.fallback, exact1);
      FallBackConserves(p, first, how.id, how.stream, how.fallback);
      if FallBackClean(p, first, how.id, how.fallback) && !how.opens {
        StopHistory(p, fallen, how.id, how.usb, how.reselected, exact2);
      }
    }
  }

  lemma JoinedIs(st: Router, how: Startup)
    ensures Joined(st, how) == st.(ucs := st.ucs + [Usecase(how.id, how.kind, NONE, NONE, how.stream, how.stream)])
  {}

  // ----- runs -----

  /** A call of the router that closes only what is open. */
  predicate Clean(p: Platform, st: Router, op: Op)
    requires PlatformOk(p) && |st.refs| == p.max
  {
    match op
    case OpStart(how) => StartClean(p, st, how)
    case OpReroute(id, stream, answers) => SelectClean(p, st.(ucs := SetStream(st.ucs, id, stream)), id, answers)
    case OpStop(id, usb, reselected) => StopClean(p, st, id, usb, reselected)
  }

  predicate Named(op: Op) {
    match op
    case OpStart(how) => StartupNamed(how)
    case OpReroute(_, _, answers) => AnswersName(answers)
    case OpStop(_, _, reselected) => AllNamed(reselected)
  }

  predicate RunClean(p: Platform, st: Router, ops: seq<Op>)
    requires PlatformOk(p) && |st.refs| == p.max
    decreases |ops|
  {
    ops == [] || (Clean(p, st, ops[0]) && RunClean(p, Step(p, st, ops[0]), ops[1..]))
  }

  lemma StepHistory(p: Platform, st: Router, op: Op, exact: bool)
    requires NeverFails(p) && NamesApart(p) && Inv(p, st) && Mirror(p, st, -1, exact) && OpOk(p, st, op)
    ensures Outcome(p, Step(p, st, op), -1, Clean(p, st, op), exact && Named(op))
  {
    hide Start, Stop, Select, SetStream, Inv, Mirror, Bracketed, NamesApart, StartClean, StopClean, SelectClean;
    hide StartupOk, StartupNamed, AnswersOk, AnswersName, SelectionsOk, AllNamed;
    HasCounts(p, st, -1, exact);
    match op
    case OpStart(how) => StartHistory(p, st, how, exact);
    case OpReroute(id, stream, answers) =>
      SetStreamConserves(p, st, id, stream);
      StreamMirrors(p, st, id, stream, exact);
      SelectHistory(p, st.(ucs := SetStream(st.ucs, id, stream)), id, answers, exact);
    case OpStop(id, usb, reselected) => StopHistory(p, st, id, usb, reselected, exact);
  }

  /** In every call of the run the platform names a device wherever it is asked. */
  predicate RunNamed(ops: seq<Op>) {
    forall k | 0 <= k < |ops| :: Named(ops[k])
  }

  lemma {:induction false} HistoryFrom(p: Platform, st: Router, ops: seq<Op>, exact: bool)
    requires NeverFails(p) && NamesApart(p) && Inv(p, st) && Mirror(p, st, -1, exact) && RunOk(p, st, ops)
    ensures Outcome(p, Run(p, st, ops), -1, RunClean(p, st, ops), exact && RunNamed(ops))
    decreases |ops|
  {
    hide Step, OpOk, Clean, Named, Inv, Mirror, Bracketed, NamesApart, PlatformOk;
    HasCounts(p, st, -1, exact);
    Weaker(p, st, -1, exact);
    if ops != [] {
      var next := Step(p, st, ops[0]);
      StepHistory(p, st, ops[0], exact);
      StepConserves(p, st, ops[0]);
      assert RunNamed(ops) <==> Named(ops[0]) && RunNamed(ops[1..]);
      if Clean(p, st, ops[0]) {
        HistoryFrom(p, next, ops[1..], exact && Named(ops[0]));
      } else {
        StaysBroken(next.calls, Run(p, next, ops[1..]).calls);
      }
    }
  }

  lemma {:induction false} NothingOn(p: Platform, name: string, n: nat)
    requires n <= p.max
    ensures DevicesOn(p, Initial(p).refs, name, n) == 0
  {
    if n > 0 {
      NothingOn(p, name, n - 1);
    }
  }

  lemma InitialMirrors(p: Platform)
    ensures Mirror(p, Initial(p), -1, true)
  {
    forall name ensures DevicesOn(p, Initial(p).refs, name, p.max) == 0 {
      NothingOn(p, name, p.max);
    }
  }

  lemma StartsConserved(p: Platform)
    requires NeverFails(p)
    ensures Inv(p, Initial(p))
  {
    RunConserves(p, []);
  }

  /** Over every run from power-up, the router closes only mixer paths it has opened if and only if
      each of its calls is clean.  Then the paths of the enabled devices and of the routed use cases are
      open, and no others if the platform has named a device in every selection. */
  lemma HistoryIsBracketedExactly(p: Platform, ops: seq<Op>)
    requires NeverFails(p) && NamesApart(p) && RunOk(p, Initial(p), ops)
    ensures Bracketed(Run(p, Initial(p), ops).calls) <==> RunClean(p, Initial(p), ops)
    ensures RunClean(p, Initial(p), ops) ==> Mirror(p, Run(p, Initial(p), ops), -1, RunNamed(ops))
  {
    InitialMirrors(p);
    StartsConserved(p);
    HistoryFrom(p, Initial(p), ops, true);
    var st := Run(p, Initial(p), ops);
    hide Run, RunOk, RunClean, RunNamed, NamesApart, Bracketed, PlatformOk;
    if RunClean(p, Initial(p), ops) {
      HasCounts(p, st, -1, RunNamed(ops));
    }
  }
}
