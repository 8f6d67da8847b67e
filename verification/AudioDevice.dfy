/** The audio device object of audio/qcom/hal/audio_hw.c: the counts array and the use-case list it
    updates in place, and the calls it makes to the mixer-route engine, against the functions of
    SoundRouting and UsecaseRouting. */
module AudioDevice {
  import opened Common
  import opened SoundRouting
  import opened UsecaseRouting

  // ----- loops over the list, one step at a time -----

  lemma OldsStep(ucs: seq<Usecase>, plan: Plan, side: Side, i: nat)
    requires |plan| == |ucs| && i < |ucs|
    ensures Olds(ucs[i..], plan[i..], side)
         == (if plan[i].Some? then [DeviceOf(ucs[i], side)] else []) + Olds(ucs[i + 1..], plan[i + 1..], side)
  {
    assert ucs[i..][1..] == ucs[i + 1..] && plan[i..][1..] == plan[i + 1..];
  }

  lemma NewsStep(plan: Plan, i: nat)
    requires i < |plan|
    ensures News(plan[i..]) == (if plan[i].Some? then [plan[i].value] else []) + News(plan[i + 1..])
  {
    assert plan[i..][1..] == plan[i + 1..];
  }

  lemma RouteCallsStep(p: Platform, ucs: seq<Usecase>, plan: Plan, apply: bool, i: nat)
    requires |plan| == |ucs| && i < |ucs|
    ensures RouteCalls(p, ucs[i..], plan[i..], apply)
         == (if plan[i].Some? then [RouteCall(p, ucs[i], apply)] else [])
            + RouteCalls(p, ucs[i + 1..], plan[i + 1..], apply)
  {
    assert ucs[i..][1..] == ucs[i + 1..] && plan[i..][1..] == plan[i + 1..];
  }

  lemma {:induction false} NobodyMoves(p: Platform, ucs: seq<Usecase>, plan: Plan, side: Side)
    requires |plan| == |ucs| && forall k | 0 <= k < |plan| :: plan[k] == None
    ensures Olds(ucs, plan, side) == [] && News(plan) == [] && Moved(ucs, plan, side) == ucs
    ensures forall apply: bool :: RouteCalls(p, ucs, plan, apply) == []
    decreases |ucs|
  {
    if ucs != [] {
      NobodyMoves(p, ucs[1..], plan[1..], side);
    }
  }

  lemma DisableAllCons(p: Platform, refs: seq<nat>, d: Device, ds: seq<Device>)
    requires PlatformOk(p) && |refs| == p.max
    ensures DisableAll(p, refs, [d] + ds) == DisableAll(p, Disable(p, refs, d), ds)
    ensures DisableAllCalls(p, refs, [d] + ds)
         == DisableCalls(p, refs, d) + DisableAllCalls(p, Disable(p, refs, d), ds)
  {
    assert ([d] + ds)[1..] == ds;
  }

  lemma EnableAllCons(p: Platform, refs: seq<nat>, d: Device, ds: seq<Device>)
    requires PlatformOk(p) && |refs| == p.max
    ensures EnableAll(p, refs, [d] + ds) == EnableAll(p, Enable(p, refs, d), ds)
    ensures EnableAllCalls(p, refs, [d] + ds) == EnableCalls(p, refs, d) + EnableAllCalls(p, Enable(p, refs, d), ds)
  {
    assert ([d] + ds)[1..] == ds;
  }

  // ----- loops over the parts of a combo device -----

  lemma WholeDevice(p: Platform, refs: seq<nat>, d: Device)
    requires PlatformOk(p) && |refs| == p.max && Real(p, d) && p.parts(d) == []
    ensures Enable(p, refs, d) == EnableWhole(p, refs, d) && EnableCalls(p, refs, d) == EnableWholeCalls(p, refs, d)
    ensures Disable(p, refs, d) == DisableWhole(refs, d) && DisableCalls(p, refs, d) == DisableWholeCalls(p, refs, d)
  {
    assert refs[d] == 1 ==> DisableWholes(refs[d := 0], []) == refs[d := 0];
  }

  lemma EnablePart(p: Platform, refs: seq<nat>, c: Device, i: nat)
    requires PlatformOk(p) && |refs| == p.max && Real(p, c) && i < |p.parts(c)|
    ensures var x, rest := p.parts(c)[i], p.parts(c)[i + 1..];
      && Real(p, x) && p.parts(x) == []
      && EnableWholes(p, refs, p.parts(c)[i..]) == EnableWholes(p, Enable(p, refs, x), rest)
      && EnableWholesCalls(p, refs, p.parts(c)[i..])
         == EnableCalls(p, refs, x) + EnableWholesCalls(p, Enable(p, refs, x), rest)
  {
    hide Enable, EnableCalls, EnableWhole, EnableWholeCalls;
    WholeDevice(p, refs, p.parts(c)[i]);
    assert p.parts(c)[i..][1..] == p.parts(c)[i + 1..];
  }

  lemma DisablePart(p: Platform, refs: seq<nat>, c: Device, i: nat)
    requires PlatformOk(p) && |refs| == p.max && Real(p, c) && i < |p.parts(c)|
    ensures var x, rest := p.parts(c)[i], p.parts(c)[i + 1..];
      && Real(p, x) && p.parts(x) == []
      && DisableWholes(refs, p.parts(c)[i..]) == DisableWholes(Disable(p, refs, x), rest)
      && DisableWholesCalls(p, refs, p.parts(c)[i..])
         == DisableCalls(p, refs, x) + DisableWholesCalls(p, Disable(p, refs, x), rest)
  {
    hide Disable, DisableCalls, DisableWhole, DisableWholeCalls;
    WholeDevice(p, refs, p.parts(c)[i]);
    assert p.parts(c)[i..][1..] == p.parts(c)[i + 1..];
  }

  lemma NoMoreParts(p: Platform, refs: seq<nat>)
    requires |refs| == p.max
    ensures EnableWholes(p, refs, []) == refs == DisableWholes(refs, [])
    ensures EnableWholesCalls(p, refs, []) == [] == DisableWholesCalls(p, refs, [])
  {}

  class AudioDevice {
    const p: Platform
    const refs: array<nat>
    var ucs: seq<Usecase>
    var calls: seq<MixerCall>

    ghost predicate Valid()
      reads this
    {
      PlatformOk(p) && refs.Length == p.max
    }

    ghost function State(): Router
      reads this, refs
    {
      Router(refs[..], ucs, calls)
    }

    constructor (p: Platform)
      requires PlatformOk(p)
      ensures Valid() && fresh(refs) && this.p == p && State() == Initial(p)
    {
      this.p := p;
      refs := new nat[p.max](_ => 0);
      ucs, calls := [], [];
    }

    /** `enable_audio_route`. */
    method EnableAudioRoute(u: Usecase)
      modifies `calls
      ensures calls == old(calls) + [RouteCall(p, u, true)]
    {
      calls := calls + [MixerCall(p.mixerPath(u.id, if u.kind == Capture then u.in_ else u.out), true)];
    }

    /** `disable_audio_route`. */
    method DisableAudioRoute(u: Usecase)
      modifies `calls
      ensures calls == old(calls) + [RouteCall(p, u, false)]
    {
      calls := calls + [MixerCall(p.mixerPath(u.id, if u.kind == Capture then u.in_ else u.out), false)];
    }

    /** `enable_snd_device`. */
    method EnableSndDevice(d: Device) returns (ok: bool)
      requires Valid()
      modifies refs, `calls
      ensures Valid() && State() == Enabled(p, old(State()), d)
      ensures ok <==> Real(p, d) && (old(refs[..])[d] > 0 || p.parts(d) != [] || p.starts(d))
      decreases if Real(p, d) then |p.parts(d)| else 0
    {
      hide EnableWholes, EnableWholesCalls;
      if !(0 < d < p.max) {
        return false;
      }
      if refs[d] == 0 {
        var halves := p.parts(d);
        assert halves[0..] == halves;
        if |halves| > 0 {
          for i := 0 to |halves|
            invariant refs.Length == p.max
            invariant EnableWholes(p, refs[..], halves[i..]) == EnableWholes(p, old(refs[..]), halves)
            invariant calls + EnableWholesCalls(p, refs[..], halves[i..])
                   == old(calls) + EnableWholesCalls(p, old(refs[..]), halves)
          {
            EnablePart(p, refs[..], d, i);
            ghost var before, was := calls, refs[..];
            var _ := EnableSndDevice(halves[i]);
            Regroup(before, EnableCalls(p, was, halves[i]), EnableWholesCalls(p, refs[..], halves[i + 1..]));
          }
          NoMoreParts(p, refs[..]);
        } else if p.starts(d) {
          calls := calls + [MixerCall(p.deviceName(d), true)];
        } else {
          return false;
        }
      }
      refs[d] := refs[d] + 1;
      return true;
    }

    /** `disable_snd_device`. */
    method DisableSndDevice(d: Device) returns (ok: bool)
      requires Valid()
      modifies refs, `calls
      ensures Valid() && State() == Disabled(p, old(State()), d)
      ensures ok <==> Real(p, d) && old(refs[..])[d] > 0
      decreases if Real(p, d) then |p.parts(d)| else 0
    {
      hide DisableWholes, DisableWholesCalls;
      if !(0 < d < p.max) || refs[d] == 0 {
        return false;
      }
      refs[d] := refs[d] - 1;
      if refs[d] == 0 {
        var halves := p.parts(d);
        ghost var was := refs[..];
        assert was == old(refs[..])[d := 0] && halves[0..] == halves;
        if |halves| > 0 {
          for i := 0 to |halves|
            invariant refs.Length == p.max
            invariant DisableWholes(refs[..], halves[i..]) == DisableWholes(was, halves)
            invariant calls + DisableWholesCalls(p, refs[..], halves[i..])
                   == old(calls) + DisableWholesCalls(p, was, halves)
          {
            DisablePart(p, refs[..], d, i);
            ghost var before, counts := calls, refs[..];
            var _ := DisableSndDevice(halves[i]);
            Regroup(before, DisableCalls(p, counts, halves[i]), DisableWholesCalls(p, refs[..], halves[i + 1..]));
          }
          NoMoreParts(p, refs[..]);
        } else {
          NoMoreParts(p, was);
          calls := calls + [MixerCall(p.deviceName(d), false)];
        }
      }
      return true;
    }

    /** `get_usecase_from_list`: the place of a use case, negative when it is not in the list. */
    method GetUsecase(id: nat) returns (k: int)
      ensures k == Find(ucs, id)
    {
      k := 0;
      while k < |ucs|
        invariant 0 <= k <= |ucs| && forall j | 0 <= j < k :: ucs[j].id != id
      {
        if ucs[k].id == id {
          return;
        }
        k := k + 1;
      }
      k := -1;
    }

    /** Second pass of a re-route: the marked use cases let go of their devices. */
    method ReleaseMarked(marked: set<nat>, side: Side, ghost plan: Plan)
      requires Valid() && |plan| == |ucs|
      requires forall k | 0 <= k < |ucs| :: ucs[k].id in marked <==> plan[k].Some?
      modifies refs, `calls
      ensures Valid() && refs[..] == DisableAll(p, old(refs[..]), Olds(ucs, plan, side))
      ensures calls == old(calls) + DisableAllCalls(p, old(refs[..]), Olds(ucs, plan, side))
    {
      hide Disable, Olds, DisableAll, DisableCalls, DisableAllCalls;
      assert ucs[0..] == ucs && plan[0..] == plan;
      ghost var olds := Olds(ucs, plan, side);
      for i := 0 to |ucs|
        invariant refs.Length == p.max
        invariant DisableAll(p, refs[..], Olds(ucs[i..], plan[i..], side)) == DisableAll(p, old(refs[..]), olds)
        invariant calls + DisableAllCalls(p, refs[..], Olds(ucs[i..], plan[i..], side))
               == old(calls) + DisableAllCalls(p, old(refs[..]), olds)
      {
        OldsStep(ucs, plan, side, i);
        ghost var rest := Olds(ucs[i + 1..], plan[i + 1..], side);
        if ucs[i].id in marked {
          DisableAllCons(p, refs[..], DeviceOf(ucs[i], side), rest);
          ghost var before, was := calls, refs[..];
          var _ := DisableSndDevice(DeviceOf(ucs[i], side));
          Regroup(before, DisableCalls(p, was, DeviceOf(ucs[i], side)), DisableAllCalls(p, refs[..], rest));
        } else {
          assert [] + Olds(ucs[i + 1..], plan[i + 1..], side) == Olds(ucs[i + 1..], plan[i + 1..], side);
        }
      }
      Nothing(p, refs[..], side);
    }

    /** Last pass of a re-route: the marked use cases open their mixer routes again. */
    method OpenMarked(marked: set<nat>, ghost plan: Plan)
      requires |plan| == |ucs| && forall k | 0 <= k < |ucs| :: ucs[k].id in marked <==> plan[k].Some?
      modifies `calls
      ensures calls == old(calls) + RouteCalls(p, ucs, plan, true)
    {
      hide RouteCall, RouteCalls;
      assert ucs[0..] == ucs && plan[0..] == plan;
      for i := 0 to |ucs|
        invariant calls + RouteCalls(p, ucs[i..], plan[i..], true) == old(calls) + RouteCalls(p, ucs, plan, true)
      {
        RouteCallsStep(p, ucs, plan, true, i);
        if ucs[i].id in marked {
          Regroup(calls, [RouteCall(p, ucs[i], true)], RouteCalls(p, ucs[i + 1..], plan[i + 1..], true));
          EnableAudioRoute(ucs[i]);
        }
      }
      AllCallsMade(p, calls, old(calls), ucs, plan, true);
    }

    /** `check_and_route_playback_usecases`. */
    method CheckAndRoutePlayback(uc: Usecase, d: Device, force: bool)
      requires Valid() && Unique(ucs)
      modifies refs, `ucs, `calls
      ensures Valid() && Unique(ucs)
      ensures State() == Route(p, old(State()), PlaybackPlan(p, old(ucs), uc, d, force), Out)
    {
      hide Route, Enable, EnableAll, DisableAll, Olds, News, RouteCall, RouteCalls, EnableAllCalls, DisableAllCalls;
      ghost var plan := PlaybackPlan(p, ucs, uc, d, force);
      assert ucs[0..] == ucs && plan[0..] == plan;
      var switchDevice: set<nat> := {};
      for i := 0 to |ucs|
        invariant forall j | 0 <= j < |ucs| :: ucs[j].id in switchDevice <==> j < i && MovesOut(p, ucs[j], uc, d, force)
        invariant ucs == old(ucs) && refs[..] == old(refs[..])
        invariant calls + RouteCalls(p, ucs[i..], plan[i..], false) == old(calls) + RouteCalls(p, ucs, plan, false)
      {
        RouteCallsStep(p, ucs, plan, false, i);
        var u := ucs[i];
        if u.kind == Capture || u.id == uc.id {
          continue;
        }
        if force || (u.out != d && Eligible(p, u) && p.sameBackend(d, u.out)) {
          Regroup(calls, [RouteCall(p, u, false)], RouteCalls(p, ucs[i + 1..], plan[i + 1..], false));
          DisableAudioRoute(u);
          switchDevice := switchDevice + {u.id};
        }
      }
      AllCallsMade(p, calls, old(calls), ucs, plan, false);
      if switchDevice != {} {
        ReleaseMarked(switchDevice, Out, plan);
        RerouteMarked(switchDevice, uc, d, force, plan);
        OpenMarked(switchDevice, plan);
        RouteIs(p, old(State()), plan, Out, State());
      } else {
        NobodyRoutes(p, old(State()), plan, Out);
        assert old(calls) + [] == old(calls);
      }
    }

    /** Third pass: each marked use case takes the device derived for it. */
    method RerouteMarked(marked: set<nat>, uc: Usecase, d: Device, force: bool, ghost plan: Plan)
      requires Valid() && plan == PlaybackPlan(p, ucs, uc, d, force) && Unique(ucs)
      requires forall k | 0 <= k < |ucs| :: ucs[k].id in marked <==> plan[k].Some?
      modifies refs, `ucs, `calls
      ensures Valid() && refs[..] == EnableAll(p, old(refs[..]), News(plan))
      ensures calls == old(calls) + EnableAllCalls(p, old(refs[..]), News(plan))
      ensures ucs == Moved(old(ucs), plan, Out) && Unique(ucs)
    {
      hide Enable, EnableAll, News, MovesOut, Derive, EnableCalls, EnableAllCalls;
      ghost var was := ucs;
      assert plan[0..] == plan;
      for i := 0 to |ucs|
        invariant refs.Length == p.max && |ucs| == |was|
        invariant forall j | 0 <= j < |ucs| :: ucs[j] == if j < i then Moved(was, plan, Out)[j] else was[j]
        invariant EnableAll(p, refs[..], News(plan[i..])) == EnableAll(p, old(refs[..]), News(plan))
        invariant calls + EnableAllCalls(p, refs[..], News(plan[i..]))
               == old(calls) + EnableAllCalls(p, old(refs[..]), News(plan))
      {
        NewsStep(plan, i);
        if ucs[i].id in marked {
          var derived := Derive(p, ucs[i], uc, d);
          EnableAllCons(p, refs[..], derived, News(plan[i + 1..]));
          ghost var before, counts := calls, refs[..];
          var _ := EnableSndDevice(derived);
          Regroup(before, EnableCalls(p, counts, derived), EnableAllCalls(p, refs[..], News(plan[i + 1..])));
          ucs := ucs[i := ucs[i].(out := derived)];
        } else {
          assert [] + News(plan[i + 1..]) == News(plan[i + 1..]);
        }
      }
      assert plan[|ucs|..] == [];
      Nothing(p, refs[..], Out);
    }

    /** `check_and_route_capture_usecases`. */
    method CheckAndRouteCapture(uc: Usecase, d: Device)
      requires Valid() && Unique(ucs)
      modifies refs, `ucs, `calls
      ensures Valid() && Unique(ucs)
      ensures State() == Route(p, old(State()), CapturePlan(p, old(ucs), uc, d), In)
    {
      hide Route, Enable, EnableAll, DisableAll, Olds, News, RouteCall, RouteCalls, EnableAllCalls, DisableAllCalls;
      ghost var plan := CapturePlan(p, ucs, uc, d);
      assert ucs[0..] == ucs && plan[0..] == plan;
      var switchDevice: set<nat> := {};
      for i := 0 to |ucs|
        invariant forall j | 0 <= j < |ucs| :: ucs[j].id in switchDevice <==> j < i && MovesIn(p, ucs[j], uc, d)
        invariant ucs == old(ucs) && refs[..] == old(refs[..])
        invariant calls + RouteCalls(p, ucs[i..], plan[i..], false) == old(calls) + RouteCalls(p, ucs, plan, false)
      {
        RouteCallsStep(p, ucs, plan, false, i);
        var u := ucs[i];
        if MovesIn(p, u, uc, d) {
          Regroup(calls, [RouteCall(p, u, false)], RouteCalls(p, ucs[i + 1..], plan[i + 1..], false));
          DisableAudioRoute(u);
          switchDevice := switchDevice + {u.id};
        }
      }
      AllCallsMade(p, calls, old(calls), ucs, plan, false);
      if switchDevice != {} {
        ReleaseMarked(switchDevice, In, plan);
        EnableMarked(switchDevice, d, plan);
        RecordMarked(switchDevice, d, plan);
        RouteIs(p, old(State()), plan, In, State());
      } else {
        NobodyRoutes(p, old(State()), plan, In);
        assert old(calls) + [] == old(calls);
      }
    }

    /** Last pass of a capture re-route: each marked use case takes the device and opens its route. */
    method RecordMarked(marked: set<nat>, d: Device, ghost plan: Plan)
      requires Unique(ucs) && |plan| == |ucs|
      requires forall k | 0 <= k < |ucs| :: plan[k] == if ucs[k].id in marked then Some(d) else None
      modifies `ucs, `calls
      ensures ucs == Moved(old(ucs), plan, In) && Unique(ucs)
      ensures calls == old(calls) + RouteCalls(p, ucs, plan, true)
    {
      hide RouteCall, RouteCalls;
      ghost var was, moved := ucs, Moved(ucs, plan, In);
      assert moved[0..] == moved && plan[0..] == plan;
      for i := 0 to |ucs|
        invariant |ucs| == |was|
        invariant forall j | 0 <= j < |ucs| :: ucs[j] == if j < i then moved[j] else was[j]
        invariant calls + RouteCalls(p, moved[i..], plan[i..], true) == old(calls) + RouteCalls(p, moved, plan, true)
      {
        RouteCallsStep(p, moved, plan, true, i);
        if ucs[i].id in marked {
          ucs := ucs[i := ucs[i].(in_ := d)];
          Regroup(calls, [RouteCall(p, ucs[i], true)], RouteCalls(p, moved[i + 1..], plan[i + 1..], true));
          EnableAudioRoute(ucs[i]);
        }
      }
      AllCallsMade(p, calls, old(calls), moved, plan, true);
      assert ucs == moved;
    }

    method EnableMarked(marked: set<nat>, d: Device, ghost plan: Plan)
      requires Valid() && |plan| == |ucs|
      requires forall k | 0 <= k < |ucs| :: plan[k] == if ucs[k].id in marked then Some(d) else None
      modifies refs, `calls
      ensures Valid() && refs[..] == EnableAll(p, old(refs[..]), News(plan))
      ensures calls == old(calls) + EnableAllCalls(p, old(refs[..]), News(plan))
    {
      hide Enable, EnableAll, News, EnableCalls, EnableAllCalls;
      assert plan[0..] == plan;
      for i := 0 to |ucs|
        invariant refs.Length == p.max
        invariant EnableAll(p, refs[..], News(plan[i..])) == EnableAll(p, old(refs[..]), News(plan))
        invariant calls + EnableAllCalls(p, refs[..], News(plan[i..]))
               == old(calls) + EnableAllCalls(p, old(refs[..]), News(plan))
      {
        NewsStep(plan, i);
        if ucs[i].id in marked {
          EnableAllCons(p, refs[..], d, News(plan[i + 1..]));
          ghost var before, counts := calls, refs[..];
          var _ := EnableSndDevice(d);
          Regroup(before, EnableCalls(p, counts, d), EnableAllCalls(p, refs[..], News(plan[i + 1..])));
        } else {
          assert [] + News(plan[i + 1..]) == News(plan[i + 1..]);
        }
      }
      assert plan[|ucs|..] == [];
      Nothing(p, refs[..], Out);
    }

    /** A use case about to switch closes its mixer route and lets go of each device it holds. */
    method FreeDevices(uc: Usecase)
      requires Valid()
      modifies refs, `calls
      ensures Valid() && State() == Freed(p, old(State()), uc)
    {
      hide Disabled, RouteCall;
      if uc.out != NONE {
        DisableAudioRoute(uc);
        var _ := DisableSndDevice(uc.out);
      }
      if uc.in_ != NONE {
        DisableAudioRoute(uc);
        var _ := DisableSndDevice(uc.in_);
      }
    }

    method EnableOutput(uc: Usecase, out: Device, forceRouting: bool)
      requires Valid() && Unique(ucs)
      modifies refs, `ucs, `calls
      ensures Valid() && Unique(ucs) && State() == SwitchOut(p, old(State()), uc, out, forceRouting)
    {
      hide Route, Enabled, PlaybackPlan;
      if out != NONE {
        if uc.devices * (p.codecBackend + p.usb + p.a2dp) != {} {
          CheckAndRoutePlayback(uc, out, forceRouting);
        }
        var _ := EnableSndDevice(out);
      }
    }

    method EnableInput(uc: Usecase, in_: Device)
      requires Valid() && Unique(ucs)
      modifies refs, `ucs, `calls
      ensures Valid() && Unique(ucs) && State() == SwitchIn(p, old(State()), uc, in_)
    {
      hide Route, Enabled, CapturePlan;
      if in_ != NONE {
        CheckAndRouteCapture(uc, in_);
        var _ := EnableSndDevice(in_);
      }
    }

    /** The switch of the use case at place `k`: release, move the others, enable, record. */
    method SwitchDevices(k: nat, out: Device, in_: Device, forceRouting: bool)
      requires Valid() && Unique(ucs) && k < |ucs|
      modifies refs, `ucs, `calls
      ensures Valid() && Unique(ucs) && State() == Switch(p, old(State()), k, out, in_, forceRouting)
    {
      hide Freed, SwitchOut, SwitchIn, RouteCall;
      var uc := ucs[k];
      FreeDevices(uc);
      EnableOutput(uc, out, forceRouting);
      EnableInput(uc, in_);
      ucs := ucs[k := ucs[k].(out := out, in_ := in_)];
      EnableAudioRoute(ucs[k]);
    }

    /** `select_devices_with_force_switch`. */
    method SelectDevices(id: nat, a: Answers)
      requires Valid() && Unique(ucs)
      modifies refs, `ucs, `calls
      ensures Valid() && Unique(ucs) && State() == Select(p, old(State()), id, a)
      decreases a
    {
      hide Switch, FinalOut, Find;
      var k := GetUsecase(id);
      if k < 0 {
        return;
      }
      var kind := ucs[k].kind;
      ucs := ucs[k := ucs[k].(devices := ucs[k].stream)];
      if kind == Playback && a.voip.Some? {
        SelectDevices(a.voip.value.0, a.voip.value.1);
      }
      var out, in_ := if kind == Capture then NONE else a.out, if kind == Playback then NONE else a.in_;
      if out == ucs[k].out && in_ == ucs[k].in_ && !a.force {
        return;
      }
      if p.isA2dp(out) && !a.a2dpReady {
        return;
      }
      SwitchDevices(k, FinalOut(p, id, out, a.a2dpReady), in_, a.forceRouting);
    }

    method SelectEach(selections: seq<(nat, Answers)>)
      requires Valid() && Unique(ucs)
      modifies refs, `ucs, `calls
      ensures Valid() && Unique(ucs) && State() == SelectAll(p, old(State()), selections)
    {
      hide Select;
      for i := 0 to |selections|
        invariant refs.Length == p.max && Unique(ucs)
        invariant SelectAll(p, State(), selections[i..]) == SelectAll(p, old(State()), selections)
      {
        assert selections[i..][1..] == selections[i + 1..];
        SelectDevices(selections[i].0, selections[i].1);
      }
    }

    /** `stop_output_stream` and `stop_input_stream`. */
    method StopStream(id: nat, usb: Option<bool>, reselected: seq<(nat, Answers)>)
      requires Valid() && Unique(ucs)
      modifies refs, `ucs, `calls
      ensures Valid() && Unique(ucs) && State() == Stop(p, old(State()), id, usb, reselected)
    {
      hide SelectAll, Disabled, Route, RouteCall, PlaybackPlan;
      var k := GetUsecase(id);
      if k < 0 {
        return;
      }
      var u := ucs[k];
      DisableAudioRoute(u);
      if u.kind != Capture {
        var _ := DisableSndDevice(u.out);
      }
      if u.kind != Playback {
        var _ := DisableSndDevice(u.in_);
      }
      ucs := ucs[..k] + ucs[k + 1..];
      if usb.Some? && u.kind == Playback {
        CheckAndRoutePlayback(u, u.out, usb.value);
      }
      SelectEach(reselected);
    }

    method SetStreamMask(id: nat, stream: Mask)
      requires Valid() && Unique(ucs)
      modifies `ucs
      ensures Unique(ucs) && ucs == SetStream(old(ucs), id, stream)
    {
      var k := GetUsecase(id);
      if k >= 0 {
        ucs := ucs[k := ucs[k].(stream := stream)];
      }
    }

    /** `start_output_stream` and `start_input_stream`. */
    method StartStream(how: Startup)
      requires Valid() && Unique(ucs) && forall k | 0 <= k < |ucs| :: ucs[k].id != how.id
      modifies refs, `ucs, `calls
      ensures Valid() && Unique(ucs) && State() == Start(p, old(State()), how)
    {
      hide Select, Stop, SetStream;
      ucs := ucs + [Usecase(how.id, how.kind, NONE, NONE, how.stream, how.stream)];
      if how.first.Some? {
        SelectDevices(how.id, how.first.value);
      }
      if how.fallback.Some? {
        SetStreamMask(how.id, how.fallback.value.0);
        SelectDevices(how.id, how.fallback.value.1);
        SetStreamMask(how.id, how.stream);
      }
      if !how.opens {
        StopStream(how.id, how.usb, how.reselected);
      }
    }
  }

  lemma Nothing(p: Platform, refs: seq<nat>, side: Side)
    requires PlatformOk(p) && |refs| == p.max
    ensures DisableAll(p, refs, Olds([], [], side)) == refs && DisableAllCalls(p, refs, Olds([], [], side)) == []
    ensures EnableAll(p, refs, News([])) == refs && EnableAllCalls(p, refs, News([])) == []
  {}

  lemma AllCallsMade(p: Platform, now: seq<MixerCall>, was: seq<MixerCall>, ucs: seq<Usecase>, plan: Plan, apply: bool)
    requires |plan| == |ucs|
    requires now + RouteCalls(p, ucs[|ucs|..], plan[|ucs|..], apply) == was + RouteCalls(p, ucs, plan, apply)
    ensures now == was + RouteCalls(p, ucs, plan, apply)
  {
    assert RouteCalls(p, ucs[|ucs|..], plan[|ucs|..], apply) == [];
    assert now + [] == now;
  }

  lemma Regroup(a: seq<MixerCall>, b: seq<MixerCall>, c: seq<MixerCall>)
    ensures (a + b) + c == a + (b + c)
  {}

  /** What the passes of a re-route amount to. */
  lemma RouteIs(p: Platform, st: Router, plan: Plan, side: Side, r: Router)
    requires PlatformOk(p) && |st.refs| == p.max && |plan| == |st.ucs|
    requires r.ucs == Moved(st.ucs, plan, side)
    requires var freed := DisableAll(p, st.refs, Olds(st.ucs, plan, side));
      && r.refs == EnableAll(p, freed, News(plan))
      && r.calls == st.calls + RouteCalls(p, st.ucs, plan, false)
                    + DisableAllCalls(p, st.refs, Olds(st.ucs, plan, side))
                    + EnableAllCalls(p, freed, News(plan)) + RouteCalls(p, r.ucs, plan, true)
    ensures r == Route(p, st, plan, side)
  {
    hide Olds, News, EnableAll, DisableAll, RouteCalls, EnableAllCalls, DisableAllCalls;
    assert r.calls == Route(p, st, plan, side).calls;
  }

  lemma NobodyRoutes(p: Platform, st: Router, plan: Plan, side: Side)
    requires PlatformOk(p) && |st.refs| == p.max && |plan| == |st.ucs|
    requires forall k | 0 <= k < |plan| :: plan[k] == None
    ensures Route(p, st, plan, side) == st && RouteCalls(p, st.ucs, plan, false) == []
  {
    NobodyMoves(p, st.ucs, plan, side);
    hide Olds, News, RouteCalls;
    assert st.calls + ([] + [] + [] + []) == st.calls;
  }
}
