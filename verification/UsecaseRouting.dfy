/** Selecting, starting and stopping use cases (audio/qcom/hal/audio_hw.c): what each call does to
    the router's state, and what every run of calls keeps. */
module UsecaseRouting {
  import opened Common
  import opened SoundRouting

  datatype Side = Out | In

  function DeviceOf(u: Usecase, side: Side): Device {
    if side == Out then u.out else u.in_
  }

  function WithDevice(u: Usecase, side: Side, d: Device): Usecase {
    if side == Out then u.(out := d) else u.(in_ := d)
  }

  /** Index of the first use case of that id, negative when there is none. */
  function Find(ucs: seq<Usecase>, id: nat): (k: int)
    ensures k >= 0 ==> k < |ucs| && ucs[k].id == id
    ensures forall j | 0 <= j < |ucs| && (k < 0 || j < k) :: ucs[j].id != id
  {
    if ucs == [] then -1
    else if ucs[0].id == id then 0
    else
      var k := Find(ucs[1..], id);
      assert forall j | 0 < j < |ucs| :: ucs[j] == ucs[1..][j - 1];
      if k < 0 then -1 else k + 1
  }

  /** One live use case per id. */
  ghost predicate Unique(ucs: seq<Usecase>) {
    forall j, k | 0 <= j < k < |ucs| :: ucs[j].id != ucs[k].id
  }

  // ----- moving the use cases of a shared backend -----

  /** Which use cases a re-route moves, and where to. */
  type Plan = seq<Option<Device>>

  function Olds(ucs: seq<Usecase>, plan: Plan, side: Side): seq<Device>
    requires |plan| == |ucs|
  {
    if ucs == [] then []
    else (if plan[0].Some? then [DeviceOf(ucs[0], side)] else []) + Olds(ucs[1..], plan[1..], side)
  }

  function News(plan: Plan): seq<Device> {
    if plan == [] then [] else (if plan[0].Some? then [plan[0].value] else []) + News(plan[1..])
  }

  function Moved(ucs: seq<Usecase>, plan: Plan, side: Side): (r: seq<Usecase>)
    requires |plan| == |ucs|
    ensures |r| == |ucs|
  {
    seq(|ucs|, k requires 0 <= k < |ucs| => if plan[k].Some? then WithDevice(ucs[k], side, plan[k].value) else ucs[k])
  }

  /** The device whose backend names the mixer path of a use case. */
  function RouteDevice(u: Usecase): Device {
    if u.kind == Capture then u.in_ else u.out
  }

  /** `enable_audio_route` and `disable_audio_route`. */
  function RouteCall(p: Platform, u: Usecase, apply: bool): MixerCall {
    MixerCall(p.mixerPath(u.id, RouteDevice(u)), apply)
  }

  /** The mixer routes of the moved use cases. */
  function RouteCalls(p: Platform, ucs: seq<Usecase>, plan: Plan, apply: bool): seq<MixerCall>
    requires |plan| == |ucs|
    decreases |ucs|
  {
    if ucs == [] then []
    else (if plan[0].Some? then [RouteCall(p, ucs[0], apply)] else []) + RouteCalls(p, ucs[1..], plan[1..], apply)
  }

  /** First every moved use case closes its mixer route, then lets go of its device, then each takes
      its new one, and last each opens its mixer route again. */
  function Route(p: Platform, st: Router, plan: Plan, side: Side): (r: Router)
    requires PlatformOk(p) && |st.refs| == p.max && |plan| == |st.ucs|
    ensures |r.refs| == p.max && |r.ucs| == |st.ucs| && st.calls <= r.calls
  {
    var olds, moved := Olds(st.ucs, plan, side), Moved(st.ucs, plan, side);
    var freed := DisableAll(p, st.refs, olds);
    Router(EnableAll(p, freed, News(plan)), moved,
           st.calls + (RouteCalls(p, st.ucs, plan, false) + DisableAllCalls(p, st.refs, olds)
                       + EnableAllCalls(p, freed, News(plan)) + RouteCalls(p, moved, plan, true)))
  }

  /** `enable_snd_device` and `disable_snd_device`, mixer calls included. */
  function Enabled(p: Platform, st: Router, d: Device): (r: Router)
    requires PlatformOk(p) && |st.refs| == p.max
    ensures |r.refs| == p.max && r.ucs == st.ucs && st.calls <= r.calls
  {
    st.(refs := Enable(p, st.refs, d), calls := st.calls + EnableCalls(p, st.refs, d))
  }

  function Disabled(p: Platform, st: Router, d: Device): (r: Router)
    requires PlatformOk(p) && |st.refs| == p.max
    ensures |r.refs| == p.max && r.ucs == st.ucs && st.calls <= r.calls
  {
    st.(refs := Disable(p, st.refs, d), calls := st.calls + DisableCalls(p, st.refs, d))
  }

  /** A use case lets go of one of its devices, closing its mixer route first. */
  function Dropped(p: Platform, st: Router, u: Usecase, d: Device): (r: Router)
    requires PlatformOk(p) && |st.refs| == p.max
    ensures |r.refs| == p.max && r.ucs == st.ucs && st.calls <= r.calls && r.refs == Disable(p, st.refs, d)
  {
    if d == NONE then st else Disabled(p, st.(calls := st.calls + [RouteCall(p, u, false)]), d)
  }

  /** The first step of a switch: the use case lets go of both devices. */
  function Freed(p: Platform, st: Router, u: Usecase): (r: Router)
    requires PlatformOk(p) && |st.refs| == p.max
    ensures |r.refs| == p.max && r.ucs == st.ucs && st.calls <= r.calls
    ensures r.refs == Disable(p, Disable(p, st.refs, u.out), u.in_)
  {
    Dropped(p, Dropped(p, st, u, u.out), u, u.in_)
  }

  /** `derive_playback_snd_device`: the device of an existing use case when another moves to `d`. */
  function Derive(p: Platform, u: Usecase, uc: Usecase, d: Device): Device {
    var a1, a2 := u.stream, uc.stream;
    if a1 != a2 && a1 * a2 != {} then
      var halves := p.parts(if |a1| > 1 then u.out else d);
      if |halves| < 2 then d
      else if p.sameBackend(halves[0], halves[1]) then d
      else u.out
    else if p.sameBackend(u.out, d) then d
    else u.out
  }

  /** Playback and call use cases on the codec or USB backends. */
  predicate Eligible(p: Platform, u: Usecase) {
    u.kind != Capture && u.devices * (p.codecBackend + p.usb) != {}
  }

  predicate MovesOut(p: Platform, u: Usecase, uc: Usecase, d: Device, force: bool) {
    && u.kind != Capture && u.id != uc.id
    && (force || (u.out != d && Eligible(p, u) && p.sameBackend(d, u.out)))
  }

  function PlaybackPlan(p: Platform, ucs: seq<Usecase>, uc: Usecase, d: Device, force: bool): (plan: Plan)
    ensures |plan| == |ucs|
  {
    seq(|ucs|, k requires 0 <= k < |ucs| =>
      if MovesOut(p, ucs[k], uc, d, force) then Some(Derive(p, ucs[k], uc, d)) else None)
  }

  predicate MovesIn(p: Platform, u: Usecase, uc: Usecase, d: Device) {
    && u.kind != Playback && u.id != uc.id && u.in_ != d
    && ((uc.kind == VoiceCall && u.devices == p.voiceIn) || p.sameBackend(d, u.in_))
    && u.id != p.calibration
  }

  function CapturePlan(p: Platform, ucs: seq<Usecase>, uc: Usecase, d: Device): (plan: Plan)
    ensures |plan| == |ucs|
  {
    seq(|ucs|, k requires 0 <= k < |ucs| => if MovesIn(p, ucs[k], uc, d) then Some(d) else None)
  }

  // ----- selecting devices for one use case -----

  /** What the platform answers during one selection; a playback selection may first re-select the
      voice-communication input. */
  datatype Answers = Answers(out: Device, in_: Device, force: bool, a2dpReady: bool, forceRouting: bool,
                             voip: Option<(nat, Answers)>)

  /** The output part of the switch: move the others, then enable the device. */
  function SwitchOut(p: Platform, st: Router, uc: Usecase, out: Device, forceRouting: bool): (r: Router)
    requires PlatformOk(p) && |st.refs| == p.max
    ensures |r.refs| == p.max && |r.ucs| == |st.ucs| && st.calls <= r.calls
  {
    if out == NONE then st
    else
      var routed :=
        if uc.devices * (p.codecBackend + p.usb + p.a2dp) != {} then
          Route(p, st, PlaybackPlan(p, st.ucs, uc, out, forceRouting), Out)
        else st;
      Enabled(p, routed, out)
  }

  function SwitchIn(p: Platform, st: Router, uc: Usecase, in_: Device): (r: Router)
    requires PlatformOk(p) && |st.refs| == p.max
    ensures |r.refs| == p.max && |r.ucs| == |st.ucs| && st.calls <= r.calls
  {
    if in_ == NONE then st
    else
      var routed := Route(p, st, CapturePlan(p, st.ucs, uc, in_), In);
      Enabled(p, routed, in_)
  }

  /** The switch of the use case at place `k` to new devices. */
  function Switch(p: Platform, st: Router, k: nat, out: Device, in_: Device, forceRouting: bool): (r: Router)
    requires PlatformOk(p) && |st.refs| == p.max && k < |st.ucs|
    ensures |r.refs| == p.max && |r.ucs| == |st.ucs| && st.calls <= r.calls
  {
    var uc := st.ucs[k];
    var switched := SwitchIn(p, SwitchOut(p, Freed(p, st, uc), uc, out, forceRouting), uc, in_);
    var u := switched.ucs[k].(out := out, in_ := in_);
    switched.(ucs := switched.ucs[k := u], calls := switched.calls + [RouteCall(p, u, true)])
  }

  /** The output device finally used: without A2DP while that is not ready, and fixed for call uplinks. */
  function FinalOut(p: Platform, id: nat, out: Device, a2dpReady: bool): Device {
    if id in p.uplinks then p.voiceMusicTx
    else if Real(p, out) && !a2dpReady then p.withoutA2dp(out) else out
  }

  /** `select_devices_with_force_switch`. */
  function Select(p: Platform, st: Router, id: nat, a: Answers): (r: Router)
    requires PlatformOk(p) && |st.refs| == p.max
    ensures |r.refs| == p.max && |r.ucs| == |st.ucs| && st.calls <= r.calls
    decreases a
  {
    var k := Find(st.ucs, id);
    if k < 0 then st
    else
      var kind := st.ucs[k].kind;
      var st1 := st.(ucs := st.ucs[k := st.ucs[k].(devices := st.ucs[k].stream)]);
      var st2 := match a.voip
        case Some((other, answers)) => if kind == Playback then Select(p, st1, other, answers) else st1
        case None => st1;
      var out, in_ := if kind == Capture then NONE else a.out, if kind == Playback then NONE else a.in_;
      if out == st2.ucs[k].out && in_ == st2.ucs[k].in_ && !a.force then st2
      else if p.isA2dp(out) && !a.a2dpReady then st2
      else Switch(p, st2, k, FinalOut(p, id, out, a.a2dpReady), in_, a.forceRouting)
  }

  function SelectAll(p: Platform, st: Router, selections: seq<(nat, Answers)>): (r: Router)
    requires PlatformOk(p) && |st.refs| == p.max
    ensures |r.refs| == p.max && st.calls <= r.calls
    decreases |selections|
  {
    if selections == [] then st
    else SelectAll(p, Select(p, st, selections[0].0, selections[0].1), selections[1..])
  }

  // ----- starting and stopping -----

  function Without(ucs: seq<Usecase>, k: nat): (r: seq<Usecase>)
    requires k < |ucs|
    ensures |r| == |ucs| - 1
    ensures forall j | 0 <= j < |r| :: r[j] == ucs[if j < k then j else j + 1]
  {
    ucs[..k] + ucs[k + 1..]
  }

  /** `stop_output_stream`, `stop_input_stream` and `voice_stop_usecase`: release the devices, leave
      the list, re-route the others when the USB service interval changed (`usb` says whether forced),
      and re-select those the caller names. */
  function Stop(p: Platform, st: Router, id: nat, usb: Option<bool>, reselected: seq<(nat, Answers)>): (r: Router)
    requires PlatformOk(p) && |st.refs| == p.max
    ensures |r.refs| == p.max && st.calls <= r.calls
  {
    var k := Find(st.ucs, id);
    if k < 0 then st else SelectAll(p, Rerouted(p, Leave(p, st, k), st.ucs[k], usb), reselected)
  }

  /** The use case at place `k` lets go of its devices and leaves the list. */
  function Leave(p: Platform, st: Router, k: nat): (r: Router)
    requires PlatformOk(p) && |st.refs| == p.max && k < |st.ucs|
    ensures |r.refs| == p.max && r.ucs == Without(st.ucs, k) && st.calls <= r.calls
  {
    var u := st.ucs[k];
    var closed := st.(calls := st.calls + [RouteCall(p, u, false)]);
    var half := if u.kind == Capture then closed else Disabled(p, closed, u.out);
    (if u.kind == Playback then half else Disabled(p, half, u.in_)).(ucs := Without(st.ucs, k))
  }

  /** The re-route to the device of the use case that has left. */
  function Rerouted(p: Platform, st: Router, left: Usecase, usb: Option<bool>): (r: Router)
    requires PlatformOk(p) && |st.refs| == p.max
    ensures |r.refs| == p.max && |r.ucs| == |st.ucs| && st.calls <= r.calls
  {
    if usb.Some? && left.kind == Playback then
      Route(p, st, PlaybackPlan(p, st.ucs, left, left.out, usb.value), Out)
    else st
  }

  /** `start_output_stream` and `start_input_stream`: join the list, select devices unless A2DP is not
      ready, select again under a narrowed mask when A2DP does not play, and stop again when the stream
      does not open. */
  function Start(p: Platform, st: Router, how: Startup): (r: Router)
    requires PlatformOk(p) && |st.refs| == p.max
    ensures |r.refs| == p.max && st.calls <= r.calls
  {
    var joined := st.(ucs := st.ucs + [Usecase(how.id, how.kind, NONE, NONE, how.stream, how.stream)]);
    var selected := if how.first.Some? then Select(p, joined, how.id, how.first.value) else joined;
    var fallen := FallBack(p, selected, how.id, how.stream, how.fallback);
    if how.opens then fallen else Stop(p, fallen, how.id, how.usb, how.reselected)
  }

  /** What is asked of a start, and what happens during it. */
  datatype Startup = Startup(id: nat, kind: Kind, stream: Mask, first: Option<Answers>,
                             fallback: Option<(Mask, Answers)>, opens: bool,
                             usb: Option<bool>, reselected: seq<(nat, Answers)>)

  /** The A2DP fallback: the stream's mask is narrowed for one selection and then put back. */
  function FallBack(p: Platform, st: Router, id: nat, stream: Mask, fallback: Option<(Mask, Answers)>): (r: Router)
    requires PlatformOk(p) && |st.refs| == p.max
    ensures |r.refs| == p.max && st.calls <= r.calls
  {
    if fallback == None then st
    else
      var selected := Select(p, st.(ucs := SetStream(st.ucs, id, fallback.value.0)), id, fallback.value.1);
      selected.(ucs := SetStream(selected.ucs, id, stream))
  }

  /** A routing request first changes the stream's own device mask. */
  function SetStream(ucs: seq<Usecase>, id: nat, stream: Mask): (r: seq<Usecase>)
    ensures |r| == |ucs|
  {
    var k := Find(ucs, id);
    if k < 0 then ucs else ucs[k := ucs[k].(stream := stream)]
  }

  // ----- runs -----

  datatype Op =
    | OpStart(how: Startup)
    | OpReroute(id: nat, stream: Mask, answers: Answers)
    | OpStop(id: nat, usb: Option<bool>, reselected: seq<(nat, Answers)>)

  function Step(p: Platform, st: Router, op: Op): (r: Router)
    requires PlatformOk(p) && |st.refs| == p.max
    ensures |r.refs| == p.max && st.calls <= r.calls
  {
    match op
    case OpStart(how) => Start(p, st, how)
    case OpReroute(id, stream, answers) =>
      Select(p, st.(ucs := SetStream(st.ucs, id, stream)), id, answers)
    case OpStop(id, usb, reselected) => Stop(p, st, id, usb, reselected)
  }

  function Run(p: Platform, st: Router, ops: seq<Op>): (r: Router)
    requires PlatformOk(p) && |st.refs| == p.max
    ensures |r.refs| == p.max && st.calls <= r.calls
    decreases |ops|
  {
    if ops == [] then st else Run(p, Step(p, st, ops[0]), ops[1..])
  }

  /** Router at power-up. */
  function Initial(p: Platform): Router {
    Router(seq(p.max, _ => 0), [], [])
  }
}
