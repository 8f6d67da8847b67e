/** Sound-device reference counts and use-case routing of audio/qcom/hal/audio_hw.c, as functions on
    the router's state.  Platform queries are parameters. */
module SoundRouting {
  import opened Common

  /** `snd_device_t`: 0 is SND_DEVICE_NONE, real devices run from 1. */
  type Device = nat

  const NONE: Device := 0

  /** Bits of an `audio_devices_t`. */
  type Mask = set<nat>

  datatype Kind = Playback | Capture | VoiceCall

  datatype Usecase = Usecase(id: nat, kind: Kind, out: Device, in_: Device, devices: Mask, stream: Mask)

  /** What the platform layer answers.  `parts` is the split of a combo device (empty for a device
      that is enabled as a whole), `starts` whether enabling a device as a whole succeeds, `deviceName`
      the mixer path of a device, `mixerPath` that of a use case on a device. */
  datatype Platform = Platform(
    max: nat,
    parts: Device -> seq<Device>,
    starts: Device -> bool,
    sameBackend: (Device, Device) -> bool,
    codecBackend: Mask, usb: Mask, a2dp: Mask, voiceIn: Mask,
    isA2dp: Device -> bool,
    withoutA2dp: Device -> Device,
    uplinks: set<nat>, voiceMusicTx: Device,
    calibration: nat,
    deviceName: Device -> string, mixerPath: (nat, Device) -> string)

  predicate Real(p: Platform, d: Device) {
    0 < d < p.max
  }

  /** Splits go one level deep and name real devices; overriding devices are real. */
  ghost predicate PlatformOk(p: Platform) {
    && (forall d | Real(p, d) :: forall k | 0 <= k < |p.parts(d)| ::
          Real(p, p.parts(d)[k]) && p.parts(p.parts(d)[k]) == [])
    && Real(p, p.voiceMusicTx)
    && (forall d | Real(p, d) :: Real(p, p.withoutA2dp(d)))
  }

  /** The device counts, the use-case list, and every call made to the mixer-route engine so far. */
  datatype Router = Router(refs: seq<nat>, ucs: seq<Usecase>, calls: seq<MixerCall>)

  // ----- enabling and disabling devices -----

  /** A device enabled as a whole: counted unless it is idle and does not start. */
  function EnableWhole(p: Platform, refs: seq<nat>, d: Device): (r: seq<nat>)
    requires Real(p, d) && |refs| == p.max
    ensures |r| == p.max
  {
    if refs[d] == 0 && !p.starts(d) then refs else refs[d := refs[d] + 1]
  }

  function EnableWholes(p: Platform, refs: seq<nat>, ds: seq<Device>): (r: seq<nat>)
    requires |refs| == p.max && forall k | 0 <= k < |ds| :: Real(p, ds[k])
    ensures |r| == p.max
    decreases |ds|
  {
    if ds == [] then refs else EnableWholes(p, EnableWhole(p, refs, ds[0]), ds[1..])
  }

  /** `enable_snd_device`: an idle combo device first enables its parts. */
  function Enable(p: Platform, refs: seq<nat>, d: Device): (r: seq<nat>)
    requires PlatformOk(p) && |refs| == p.max
    ensures |r| == p.max
  {
    if !Real(p, d) then refs
    else if refs[d] == 0 && p.parts(d) != [] then
      var r := EnableWholes(p, refs, p.parts(d));
      r[d := r[d] + 1]
    else EnableWhole(p, refs, d)
  }

  function DisableWhole(refs: seq<nat>, d: Device): (r: seq<nat>)
    requires d < |refs|
    ensures |r| == |refs|
  {
    if refs[d] == 0 then refs else refs[d := refs[d] - 1]
  }

  function DisableWholes(refs: seq<nat>, ds: seq<Device>): (r: seq<nat>)
    requires forall k | 0 <= k < |ds| :: ds[k] < |refs|
    ensures |r| == |refs|
    decreases |ds|
  {
    if ds == [] then refs else DisableWholes(DisableWhole(refs, ds[0]), ds[1..])
  }

  /** `disable_snd_device`: nothing when already idle; the last user of a combo device also
      releases its parts. */
  function Disable(p: Platform, refs: seq<nat>, d: Device): (r: seq<nat>)
    requires PlatformOk(p) && |refs| == p.max
    ensures |r| == p.max
  {
    if !Real(p, d) then refs
    else if refs[d] == 1 then DisableWholes(refs[d := 0], p.parts(d))
    else DisableWhole(refs, d)
  }

  function EnableAll(p: Platform, refs: seq<nat>, ds: seq<Device>): (r: seq<nat>)
    requires PlatformOk(p) && |refs| == p.max
    ensures |r| == p.max
    decreases |ds|
  {
    if ds == [] then refs else EnableAll(p, Enable(p, refs, ds[0]), ds[1..])
  }

  function DisableAll(p: Platform, refs: seq<nat>, ds: seq<Device>): (r: seq<nat>)
    requires PlatformOk(p) && |refs| == p.max
    ensures |r| == p.max
    decreases |ds|
  {
    if ds == [] then refs else DisableAll(p, Disable(p, refs, ds[0]), ds[1..])
  }

  // ----- the mixer paths of devices -----

  /** A whole device that starts applies its path. */
  function EnableWholeCalls(p: Platform, refs: seq<nat>, d: Device): seq<MixerCall>
    requires Real(p, d) && |refs| == p.max
  {
    if refs[d] == 0 && p.starts(d) then [MixerCall(p.deviceName(d), true)] else []
  }

  function EnableWholesCalls(p: Platform, refs: seq<nat>, ds: seq<Device>): seq<MixerCall>
    requires |refs| == p.max && forall k | 0 <= k < |ds| :: Real(p, ds[k])
    decreases |ds|
  {
    if ds == [] then []
    else EnableWholeCalls(p, refs, ds[0]) + EnableWholesCalls(p, EnableWhole(p, refs, ds[0]), ds[1..])
  }

  function EnableCalls(p: Platform, refs: seq<nat>, d: Device): seq<MixerCall>
    requires PlatformOk(p) && |refs| == p.max
  {
    if !Real(p, d) then []
    else if refs[d] == 0 && p.parts(d) != [] then EnableWholesCalls(p, refs, p.parts(d))
    else EnableWholeCalls(p, refs, d)
  }

  function EnableAllCalls(p: Platform, refs: seq<nat>, ds: seq<Device>): seq<MixerCall>
    requires PlatformOk(p) && |refs| == p.max
    decreases |ds|
  {
    if ds == [] then [] else EnableCalls(p, refs, ds[0]) + EnableAllCalls(p, Enable(p, refs, ds[0]), ds[1..])
  }

  /** The last user of a whole device resets its path. */
  function DisableWholeCalls(p: Platform, refs: seq<nat>, d: Device): seq<MixerCall>
    requires d < |refs|
  {
    if refs[d] == 1 then [MixerCall(p.deviceName(d), false)] else []
  }

  function DisableWholesCalls(p: Platform, refs: seq<nat>, ds: seq<Device>): seq<MixerCall>
    requires forall k | 0 <= k < |ds| :: ds[k] < |refs|
    decreases |ds|
  {
    if ds == [] then []
    else DisableWholeCalls(p, refs, ds[0]) + DisableWholesCalls(p, DisableWhole(refs, ds[0]), ds[1..])
  }

  function DisableCalls(p: Platform, refs: seq<nat>, d: Device): seq<MixerCall>
    requires PlatformOk(p) && |refs| == p.max
  {
    if !Real(p, d) then []
    else if refs[d] == 1 && p.parts(d) != [] then DisableWholesCalls(p, refs[d := 0], p.parts(d))
    else DisableWholeCalls(p, refs, d)
  }

  function DisableAllCalls(p: Platform, refs: seq<nat>, ds: seq<Device>): seq<MixerCall>
    requires PlatformOk(p) && |refs| == p.max
    decreases |ds|
  {
    if ds == [] then [] else DisableCalls(p, refs, ds[0]) + DisableAllCalls(p, Disable(p, refs, ds[0]), ds[1..])
  }

  // ----- conservation -----

  /** Occurrences of a device in a list. */
  function Times(ds: seq<Device>, d: Device): nat {
    if ds == [] then 0 else (if ds[0] == d then 1 else 0) + Times(ds[1..], d)
  }

  /** Active combo devices below `n` that have `d` as a part, with multiplicity. */
  function FromCombos(p: Platform, refs: seq<nat>, d: Device, n: nat): nat
    requires n <= |refs|
  {
    if n == 0 then 0
    else FromCombos(p, refs, d, n - 1) + if refs[n - 1] > 0 then Times(p.parts(n - 1), d) else 0
  }

  /** Every count is the number of holders of the device plus what active combo devices hold of it. */
  ghost predicate Conserved(p: Platform, refs: seq<nat>, holders: seq<Device>) {
    |refs| == p.max && (p.max > 0 ==> refs[0] == 0) &&
    forall d: Device | Real(p, d) :: refs[d] == Times(holders, d) + FromCombos(p, refs, d, p.max)
  }

  /** Only the activity of combo devices other than `c` matters to the rest of the sum. */
  lemma {:induction false} CombosChange(p: Platform, a: seq<nat>, b: seq<nat>, c: Device, d: Device, n: nat)
    requires n <= |a| == |b|
    requires forall k | 0 <= k < n && k != c && p.parts(k) != [] :: a[k] > 0 <==> b[k] > 0
    ensures FromCombos(p, b, d, n) + (if c < n && a[c] > 0 then Times(p.parts(c), d) else 0)
         == FromCombos(p, a, d, n) + (if c < n && b[c] > 0 then Times(p.parts(c), d) else 0)
  {
    if n > 0 {
      CombosChange(p, a, b, c, d, n - 1);
    }
  }

  lemma {:induction false} TimesAt(ds: seq<Device>, d: Device)
    ensures Times(ds, d) > 0 <==> d in ds
  {
    if ds != [] {
      TimesAt(ds[1..], d);
      assert d in ds <==> d == ds[0] || d in ds[1..];
    }
  }

  lemma {:induction false} TimesAppend(a: seq<Device>, b: seq<Device>, d: Device)
    ensures Times(a + b, d) == Times(a, d) + Times(b, d)
  {
    if a == [] {
      assert a + b == b;
    } else {
      assert (a + b)[1..] == a[1..] + b;
      TimesAppend(a[1..], b, d);
    }
  }

  /** A device that is idle and does not start is skipped; every other one gains its occurrences. */
  lemma {:induction false} EnableWholesCounts(p: Platform, refs: seq<nat>, ds: seq<Device>, d: Device)
    requires |refs| == p.max && d < p.max && forall k | 0 <= k < |ds| :: Real(p, ds[k])
    ensures EnableWholes(p, refs, ds)[d] == if refs[d] == 0 && !p.starts(d) then 0 else refs[d] + Times(ds, d)
    decreases |ds|
  {
    if ds != [] {
      EnableWholesCounts(p, EnableWhole(p, refs, ds[0]), ds[1..], d);
    }
  }

  lemma {:induction false} DisableWholesCounts(refs: seq<nat>, ds: seq<Device>, d: Device)
    requires d < |refs| && forall k | 0 <= k < |ds| :: ds[k] < |refs|
    ensures DisableWholes(refs, ds)[d] == if refs[d] >= Times(ds, d) then refs[d] - Times(ds, d) else 0
    decreases |ds|
  {
    if ds != [] {
      DisableWholesCounts(DisableWhole(refs, ds[0]), ds[1..], d);
    }
  }

  /** Parts are real devices without parts of their own. */
  lemma PartsAreWhole(p: Platform, c: Device, d: Device)
    requires PlatformOk(p) && Real(p, c) && Times(p.parts(c), d) > 0
    ensures Real(p, d) && p.parts(d) == [] && d != c
  {
    TimesAt(p.parts(c), d);
    var k :| 0 <= k < |p.parts(c)| && p.parts(c)[k] == d;
  }

  /** So only users hold a combo device. */
  lemma {:induction false} CombosAreNotParts(p: Platform, refs: seq<nat>, c: Device, n: nat)
    requires PlatformOk(p) && p.parts(c) != [] && n <= |refs| == p.max && (n > 0 ==> refs[0] == 0)
    ensures FromCombos(p, refs, c, n) == 0
  {
    if n > 0 {
      CombosAreNotParts(p, refs, c, n - 1);
      if refs[n - 1] > 0 && Times(p.parts(n - 1), c) > 0 {
        PartsAreWhole(p, n - 1, c);
      }
    }
  }

  /** Every device that enabling `d` has to start does start. */
  ghost predicate AllStart(p: Platform, refs: seq<nat>, d: Device)
    requires Real(p, d) && |refs| == p.max
  {
    || refs[d] > 0
    || (if p.parts(d) == [] then p.starts(d)
        else forall x: Device | Times(p.parts(d), x) > 0 && Real(p, x) :: p.starts(x) || refs[x] > 0)
  }

  /** `h2` holds `d` once more than `h` and otherwise the same real devices. */
  ghost predicate OneMore(p: Platform, h: seq<Device>, d: Device, h2: seq<Device>) {
    forall x: Device | Real(p, x) :: Times(h2, x) == Times(h, x) + if x == d then 1 else 0
  }

  /** Enabling keeps the counts conserved for one more holder exactly when no start fails. */
  lemma EnableConserves(p: Platform, refs: seq<nat>, h: seq<Device>, d: Device, h2: seq<Device>)
    requires PlatformOk(p) && Conserved(p, refs, h) && Real(p, d) && OneMore(p, h, d, h2)
    ensures Conserved(p, Enable(p, refs, d), h2) <==> AllStart(p, refs, d)
  {
    var r := Enable(p, refs, d);
    if refs[d] == 0 && p.parts(d) != [] {
      forall x: Device | x < p.max
        ensures r[x] == (if refs[x] == 0 && !p.starts(x) then 0 else refs[x] + Times(p.parts(d), x))
                        + if x == d then 1 else 0
        ensures p.parts(x) != [] ==> Times(p.parts(d), x) == 0
      {
        EnableWholesCounts(p, refs, p.parts(d), x);
        if Times(p.parts(d), x) > 0 {
          PartsAreWhole(p, d, x);
        }
      }
      forall x: Device | x < p.max
        ensures FromCombos(p, r, x, p.max) == FromCombos(p, refs, x, p.max) + Times(p.parts(d), x)
      {
        CombosChange(p, refs, r, d, x, p.max);
      }
      if Times(p.parts(d), 0) > 0 {
        PartsAreWhole(p, d, 0);
      }
    } else {
      forall x: Device | x < p.max ensures FromCombos(p, r, x, p.max) == FromCombos(p, refs, x, p.max) {
        CombosChange(p, refs, r, d, x, p.max);
      }
    }
  }

  /** Disabling a held device keeps the counts conserved for one holder fewer. */
  lemma DisableConserves(p: Platform, refs: seq<nat>, h: seq<Device>, d: Device, h2: seq<Device>)
    requires PlatformOk(p) && Conserved(p, refs, h2) && Real(p, d) && OneMore(p, h, d, h2)
    ensures Conserved(p, Disable(p, refs, d), h)
  {
    var r := Disable(p, refs, d);
    if refs[d] == 1 {
      forall x: Device | x < p.max
        ensures r[x] == (if x == d then 0
                         else if refs[x] >= Times(p.parts(d), x) then refs[x] - Times(p.parts(d), x) else 0)
        ensures p.parts(x) != [] || x == 0 ==> Times(p.parts(d), x) == 0
      {
        DisableWholesCounts(refs[d := 0], p.parts(d), x);
        if Times(p.parts(d), x) > 0 {
          PartsAreWhole(p, d, x);
        }
      }
      forall x: Device | x < p.max
        ensures FromCombos(p, r, x, p.max) + Times(p.parts(d), x) == FromCombos(p, refs, x, p.max)
      {
        CombosChange(p, refs, r, d, x, p.max);
      }
    } else {
      forall x: Device | x < p.max ensures FromCombos(p, r, x, p.max) == FromCombos(p, refs, x, p.max) {
        CombosChange(p, refs, r, d, x, p.max);
      }
    }
  }

  /** With no holder left every count is zero. */
  lemma NoHoldersNoCounts(p: Platform, refs: seq<nat>, h: seq<Device>)
    requires PlatformOk(p) && Conserved(p, refs, h) && forall d: Device | Real(p, d) :: Times(h, d) == 0
    ensures forall d | 0 <= d < p.max :: refs[d] == 0
  {
    forall c: Device | c < p.max && p.parts(c) != [] ensures refs[c] == 0 {
      CombosAreNotParts(p, refs, c, p.max);
    }
    forall d: Device | d < p.max ensures refs[d] == 0 {
      IdleCombosHoldNothing(p, refs, d, p.max);
    }
  }

  lemma {:induction false} IdleCombosHoldNothing(p: Platform, refs: seq<nat>, d: Device, n: nat)
    requires n <= |refs| == p.max && forall c: Device | c < p.max && p.parts(c) != [] :: refs[c] == 0
    ensures FromCombos(p, refs, d, n) == 0
  {
    if n > 0 {
      IdleCombosHoldNothing(p, refs, d, n - 1);
    }
  }
}
