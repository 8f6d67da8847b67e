/** The calls the router makes to the mixer-route engine (audio/qcom/hal/audio_hw.c): the paths they
    leave open are at least, and mostly exactly, those of the enabled devices and the routed use cases. */
module RouteBalance {
  import opened Common
  import opened SoundRouting
  import opened UsecaseRouting
  import opened RouterRuns

  // ----- sequences of calls -----

  /** Applications of a path not yet closed by a reset of the same path. */
  function Balance(calls: seq<MixerCall>, name: string): int {
    if calls == [] then 0
    else
      var call := calls[|calls| - 1];
      Balance(calls[..|calls| - 1], name) + if call.name != name then 0 else if call.apply then 1 else -1
  }

  /** No path is ever reset more often than it was applied. */
  ghost predicate Bracketed(calls: seq<MixerCall>) {
    forall n | 0 <= n <= |calls| :: forall name :: Balance(calls[..n], name) >= 0
  }

  ghost predicate AllAre(calls: seq<MixerCall>, apply: bool) {
    forall k | 0 <= k < |calls| :: calls[k].apply == apply
  }

  lemma {:induction false} BalanceAppend(a: seq<MixerCall>, b: seq<MixerCall>, name: string)
    ensures Balance(a + b, name) == Balance(a, name) + Balance(b, name)
  {
    if b == [] {
      assert a + b == a;
    } else {
      assert (a + b)[..|a + b| - 1] == a + b[..|b| - 1];
      BalanceAppend(a, b[..|b| - 1], name);
    }
  }

  lemma BalanceOfOne(call: MixerCall, name: string)
    ensures Balance([call], name) == if call.name != name then 0 else if call.apply then 1 else -1
  {
    assert [call][..0] == [];
  }

  lemma BracketedWhole(calls: seq<MixerCall>, name: string)
    requires Bracketed(calls)
    ensures Balance(calls, name) >= 0
  {
    assert calls[..|calls|] == calls;
  }

  lemma BrokenStays(a: seq<MixerCall>, b: seq<MixerCall>)
    requires a <= b && Bracketed(b)
    ensures Bracketed(a)
  {
    assert forall n | 0 <= n <= |a| :: a[..n] == b[..n];
  }

  /** Calls of one direction keep a sequence bracketed when they do at their end. */
  lemma {:induction false} OneDirection(a: seq<MixerCall>, b: seq<MixerCall>, apply: bool)
    requires Bracketed(a) && AllAre(b, apply) && forall name :: Balance(a + b, name) >= 0
    ensures Bracketed(a + b)
  {
    if b == [] {
      assert a + b == a;
    } else {
      var init, last := a + b[..|b| - 1], b[|b| - 1];
      assert (a + b)[..|a + b| - 1] == init;
      forall name ensures Balance(init, name) >= 0 {
        BalanceAppend(a, b[..|b| - 1], name);
        BracketedWhole(a, name);
        OnlyApplies(b[..|b| - 1], apply, name);
        assert Balance(a + b, name) >= 0;
      }
      OneDirection(a, b[..|b| - 1], apply);
      forall n | 0 <= n <= |a + b| ensures forall name :: Balance((a + b)[..n], name) >= 0 {
        if n <= |init| {
          assert (a + b)[..n] == init[..n];
        } else {
          assert (a + b)[..n] == a + b;
        }
      }
    }
  }

  lemma {:induction false} OnlyApplies(calls: seq<MixerCall>, apply: bool, name: string)
    requires AllAre(calls, apply)
    ensures if apply then Balance(calls, name) >= 0 else Balance(calls, name) <= 0
  {
    if calls != [] {
      OnlyApplies(calls[..|calls| - 1], apply, name);
    }
  }

  // ----- what the router has open -----

  predicate DeviceOn(p: Platform, refs: seq<nat>, d: Device, name: string)
    requires d < |refs|
  {
    refs[d] > 0 && p.parts(d) == [] && p.deviceName(d) == name
  }

  /** Enabled whole devices below `n` whose path has that name. */
  function DevicesOn(p: Platform, refs: seq<nat>, name: string, n: nat): nat
    requires n <= |refs|
  {
    if n == 0 then 0 else DevicesOn(p, refs, name, n - 1) + if DeviceOn(p, refs, n - 1, name) then 1 else 0
  }

  /** The use case holds the device its mixer path goes by. */
  predicate Routed(u: Usecase) {
    RouteDevice(u) != NONE
  }

  predicate RouteOn(p: Platform, u: Usecase, name: string) {
    Routed(u) && p.mixerPath(u.id, RouteDevice(u)) == name
  }

  /** Routed use cases whose path has that name, leaving out the one in flight. */
  function RoutesOn(p: Platform, ucs: seq<Usecase>, id: int, name: string): nat {
    if ucs == [] then 0
    else (if ucs[0].id != id && RouteOn(p, ucs[0], name) then 1 else 0) + RoutesOn(p, ucs[1..], id, name)
  }

  function On(p: Platform, st: Router, id: int, name: string): nat
    requires |st.refs| == p.max
  {
    DevicesOn(p, st.refs, name, p.max) + RoutesOn(p, st.ucs, id, name)
  }

  /** The calls made so far are bracketed, and leave open the paths of the enabled devices and of the
      routed use cases (but the one in flight): at least those, and exactly those if `exact`. */
  ghost predicate Mirror(p: Platform, st: Router, id: int, exact: bool) {
    && |st.refs| == p.max && Bracketed(st.calls)
    && (forall name :: Balance(st.calls, name) >= On(p, st, id, name))
    && (exact ==> forall name :: Balance(st.calls, name) == On(p, st, id, name))
  }

  lemma HasCounts(p: Platform, st: Router, id: int, exact: bool)
    requires Mirror(p, st, id, exact)
    ensures |st.refs| == p.max && Bracketed(st.calls)
  {}

  lemma Weaker(p: Platform, st: Router, id: int, exact: bool)
    requires Mirror(p, st, id, exact)
    ensures Mirror(p, st, id, false)
  {}

  /** How often the mixer path of the use case on its device has been opened and not closed. */
  function Opened(p: Platform, st: Router, u: Usecase): int {
    Balance(st.calls, p.mixerPath(u.id, RouteDevice(u)))
  }

  /** Different use cases have different mixer paths, and none is the path of a device. */
  ghost predicate NamesApart(p: Platform) {
    && (forall i: nat, d: Device, j: nat, e: Device | i != j :: p.mixerPath(i, d) != p.mixerPath(j, e))
    && (forall i: nat, d: Device, e: Device :: p.mixerPath(i, d) != p.deviceName(e))
  }

  lemma {:induction false} NoDeviceNamed(p: Platform, refs: seq<nat>, i: nat, d: Device, n: nat)
    requires NamesApart(p) && n <= |refs|
    ensures DevicesOn(p, refs, p.mixerPath(i, d), n) == 0
  {
    if n > 0 {
      NoDeviceNamed(p, refs, i, d, n - 1);
      assert p.mixerPath(i, d) != p.deviceName(n - 1);
    }
  }

  lemma {:induction false} NobodyNamed(p: Platform, ucs: seq<Usecase>, id: int, i: nat, d: Device)
    requires NamesApart(p) && forall k | 0 <= k < |ucs| && ucs[k].id == i :: i == id
    ensures RoutesOn(p, ucs, id, p.mixerPath(i, d)) == 0
  {
    if ucs != [] {
      NobodyNamed(p, ucs[1..], id, i, d);
    }
  }

  // ----- devices -----

  lemma {:induction false} DevicesOnChange(p: Platform, refs: seq<nat>, d: Device, x: nat, name: string, n: nat)
    requires n <= |refs| && d < |refs|
    ensures DevicesOn(p, refs[d := x], name, n) + (if d < n && DeviceOn(p, refs, d, name) then 1 else 0)
         == DevicesOn(p, refs, name, n) + (if d < n && DeviceOn(p, refs[d := x], d, name) then 1 else 0)
  {
    if n > 0 {
      DevicesOnChange(p, refs, d, x, name, n - 1);
    }
  }

  lemma {:induction false} EnableWholesOn(p: Platform, refs: seq<nat>, ds: seq<Device>, name: string)
    requires |refs| == p.max && forall k | 0 <= k < |ds| :: Real(p, ds[k]) && p.parts(ds[k]) == []
    ensures DevicesOn(p, EnableWholes(p, refs, ds), name, p.max)
         == DevicesOn(p, refs, name, p.max) + Balance(EnableWholesCalls(p, refs, ds), name)
    ensures AllAre(EnableWholesCalls(p, refs, ds), true)
    decreases |ds|
  {
    hide DevicesOn, EnableWhole;
    if ds != [] {
      EnableWholeOn(p, refs, ds[0], name);
      EnableWholesOn(p, EnableWhole(p, refs, ds[0]), ds[1..], name);
      BalanceAppend(EnableWholeCalls(p, refs, ds[0]),
                    EnableWholesCalls(p, EnableWhole(p, refs, ds[0]), ds[1..]), name);
    }
  }

  lemma EnableWholeOn(p: Platform, refs: seq<nat>, d: Device, name: string)
    requires |refs| == p.max && Real(p, d) && p.parts(d) == []
    ensures DevicesOn(p, EnableWhole(p, refs, d), name, p.max)
         == DevicesOn(p, refs, name, p.max) + Balance(EnableWholeCalls(p, refs, d), name)
  {
    DevicesOnChange(p, refs, d, refs[d] + 1, name, p.max);
    BalanceOfOne(MixerCall(p.deviceName(d), true), name);
  }

  lemma EnableComboOn(p: Platform, refs: seq<nat>, d: Device, name: string)
    requires PlatformOk(p) && |refs| == p.max && Real(p, d) && p.parts(d) != []
    ensures DevicesOn(p, Enable(p, refs, d), name, p.max)
         == DevicesOn(p, refs, name, p.max) + Balance(EnableCalls(p, refs, d), name)
    ensures AllAre(EnableCalls(p, refs, d), true)
  {
    assert Balance([], name) == 0;
    hide DevicesOn, Balance, EnableWholes, EnableWholesCalls;
    if refs[d] > 0 {
      DevicesOnChange(p, refs, d, refs[d] + 1, name, p.max);
    } else {
      EnableWholesOn(p, refs, p.parts(d), name);
      var r := EnableWholes(p, refs, p.parts(d));
      DevicesOnChange(p, r, d, r[d] + 1, name, p.max);
    }
  }

  lemma EnableOn(p: Platform, refs: seq<nat>, d: Device, name: string)
    requires PlatformOk(p) && |refs| == p.max
    ensures DevicesOn(p, Enable(p, refs, d), name, p.max)
         == DevicesOn(p, refs, name, p.max) + Balance(EnableCalls(p, refs, d), name)
    ensures AllAre(EnableCalls(p, refs, d), true)
  {
    assert Balance([], name) == 0;
    hide DevicesOn, Balance, EnableWholes, EnableWholesCalls;
    if Real(p, d) {
      if p.parts(d) == [] {
        EnableWholeOn(p, refs, d, name);
      } else {
        EnableComboOn(p, refs, d, name);
      }
    }
  }

  lemma {:induction false} DisableWholesOn(p: Platform, refs: seq<nat>, ds: seq<Device>, name: string)
    requires |refs| == p.max && forall k | 0 <= k < |ds| :: ds[k] < |refs| && Real(p, ds[k]) && p.parts(ds[k]) == []
    ensures DevicesOn(p, DisableWholes(refs, ds), name, p.max)
         == DevicesOn(p, refs, name, p.max) + Balance(DisableWholesCalls(p, refs, ds), name)
    ensures AllAre(DisableWholesCalls(p, refs, ds), false)
    decreases |ds|
  {
    hide DevicesOn, DisableWhole;
    if ds != [] {
      DisableWholeOn(p, refs, ds[0], name);
      DisableWholesOn(p, DisableWhole(refs, ds[0]), ds[1..], name);
      BalanceAppend(DisableWholeCalls(p, refs, ds[0]),
                    DisableWholesCalls(p, DisableWhole(refs, ds[0]), ds[1..]), name);
    }
  }

  lemma DisableWholeOn(p: Platform, refs: seq<nat>, d: Device, name: string)
    requires |refs| == p.max && Real(p, d) && p.parts(d) == []
    ensures DevicesOn(p, DisableWhole(refs, d), name, p.max)
         == DevicesOn(p, refs, name, p.max) + Balance(DisableWholeCalls(p, refs, d), name)
  {
    DevicesOnChange(p, refs, d, if refs[d] == 0 then 0 else refs[d] - 1, name, p.max);
    BalanceOfOne(MixerCall(p.deviceName(d), false), name);
  }

  lemma DisableOn(p: Platform, refs: seq<nat>, d: Device, name: string)
    requires PlatformOk(p) && |refs| == p.max
    ensures DevicesOn(p, Disable(p, refs, d), name, p.max)
         == DevicesOn(p, refs, name, p.max) + Balance(DisableCalls(p, refs, d), name)
    ensures AllAre(DisableCalls(p, refs, d), false)
  {
    if Real(p, d) {
      if p.parts(d) == [] {
        DisableWholeOn(p, refs, d, name);
        assert DisableWholes(refs[d := 0], []) == refs[d := 0];
      } else if refs[d] == 1 {
        DevicesOnChange(p, refs, d, 0, name, p.max);
        DisableWholesOn(p, refs[d := 0], p.parts(d), name);
      } else if refs[d] > 1 {
        DevicesOnChange(p, refs, d, refs[d] - 1, name, p.max);
      }
    }
  }

  lemma {:induction false} EnableAllOn(p: Platform, refs: seq<nat>, ds: seq<Device>, name: string)
    requires PlatformOk(p) && |refs| == p.max
    ensures DevicesOn(p, EnableAll(p, refs, ds), name, p.max)
         == DevicesOn(p, refs, name, p.max) + Balance(EnableAllCalls(p, refs, ds), name)
    ensures AllAre(EnableAllCalls(p, refs, ds), true)
    decreases |ds|
  {
    hide Enable, EnableCalls, DevicesOn;
    if ds != [] {
      EnableOn(p, refs, ds[0], name);
      EnableAllOn(p, Enable(p, refs, ds[0]), ds[1..], name);
      BalanceAppend(EnableCalls(p, refs, ds[0]), EnableAllCalls(p, Enable(p, refs, ds[0]), ds[1..]), name);
    }
  }

  lemma {:induction false} DisableAllOn(p: Platform, refs: seq<nat>, ds: seq<Device>, name: string)
    requires PlatformOk(p) && |refs| == p.max
    ensures DevicesOn(p, DisableAll(p, refs, ds), name, p.max)
         == DevicesOn(p, refs, name, p.max) + Balance(DisableAllCalls(p, refs, ds), name)
    ensures AllAre(DisableAllCalls(p, refs, ds), false)
    decreases |ds|
  {
    hide Disable, DisableCalls, DevicesOn;
    if ds != [] {
      DisableOn(p, refs, ds[0], name);
      DisableAllOn(p, Disable(p, refs, ds[0]), ds[1..], name);
      BalanceAppend(DisableCalls(p, refs, ds[0]), DisableAllCalls(p, Disable(p, refs, ds[0]), ds[1..]), name);
    }
  }

  lemma EnabledMirrors(p: Platform, st: Router, d: Device, id: int, exact: bool)
    requires PlatformOk(p) && Mirror(p, st, id, exact)
    ensures Mirror(p, Enabled(p, st, d), id, exact)
  {
    hide Enable, EnableCalls, DevicesOn, RoutesOn, Balance, Bracketed;
    var calls := EnableCalls(p, st.refs, d);
    forall name
      ensures Balance(st.calls + calls, name) - On(p, Enabled(p, st, d), id, name)
           == Balance(st.calls, name) - On(p, st, id, name)
    {
      BalanceAppend(st.calls, calls, name);
      EnableOn(p, st.refs, d, name);
    }
    EnableOn(p, st.refs, d, "");
    OneDirection(st.calls, calls, true);
  }

  lemma DisabledMirrors(p: Platform, st: Router, d: Device, id: int, exact: bool)
    requires PlatformOk(p) && Mirror(p, st, id, exact)
    ensures Mirror(p, Disabled(p, st, d), id, exact)
  {
    hide Disable, DisableCalls, DevicesOn, RoutesOn, Balance, Bracketed;
    var calls := DisableCalls(p, st.refs, d);
    forall name
      ensures Balance(st.calls + calls, name) - On(p, Disabled(p, st, d), id, name)
           == Balance(st.calls, name) - On(p, st, id, name)
    {
      BalanceAppend(st.calls, calls, name);
      DisableOn(p, st.refs, d, name);
    }
    DisableOn(p, st.refs, d, "");
    OneDirection(st.calls, calls, false);
  }

  // ----- use cases -----

  lemma {:induction false} RoutesIgnore(p: Platform, a: seq<Usecase>, b: seq<Usecase>, id: int, name: string)
    requires |a| == |b| && forall k | 0 <= k < |a| ::
               a[k].id == b[k].id && (a[k].id != id ==> RouteOn(p, a[k], name) == RouteOn(p, b[k], name))
    ensures RoutesOn(p, a, id, name) == RoutesOn(p, b, id, name)
    decreases |a|
  {
    if a != [] {
      RoutesIgnore(p, a[1..], b[1..], id, name);
    }
  }

  lemma {:induction false} NobodyLeftOut(p: Platform, ucs: seq<Usecase>, id: int, name: string)
    requires forall k | 0 <= k < |ucs| :: ucs[k].id != id || !RouteOn(p, ucs[k], name)
    ensures RoutesOn(p, ucs, id, name) == RoutesOn(p, ucs, -1, name)
  {
    if ucs != [] {
      NobodyLeftOut(p, ucs[1..], id, name);
    }
  }

  /** All routes are that of one use case and those of the others. */
  lemma {:induction false} RoutesPull(p: Platform, ucs: seq<Usecase>, k: nat, name: string)
    requires k < |ucs| && Unique(ucs)
    ensures RoutesOn(p, ucs, -1, name)
         == RoutesOn(p, ucs, ucs[k].id, name) + if RouteOn(p, ucs[k], name) then 1 else 0
    ensures RoutesOn(p, ucs, ucs[k].id, name) == RoutesOn(p, Without(ucs, k), -1, name)
    decreases |ucs|
  {
    if k == 0 {
      NobodyLeftOut(p, ucs[1..], ucs[0].id, name);
      assert Without(ucs, 0) == ucs[1..];
    } else {
      RoutesPull(p, ucs[1..], k - 1, name);
      assert Without(ucs, k)[1..] == Without(ucs[1..], k - 1);
    }
  }

  lemma {:induction false} RoutesJoin(p: Platform, ucs: seq<Usecase>, u: Usecase, name: string)
    requires !Routed(u)
    ensures RoutesOn(p, ucs + [u], -1, name) == RoutesOn(p, ucs, -1, name)
    decreases |ucs|
  {
    if ucs == [] {
      assert ([] + [u])[1..] == [];
    } else {
      assert (ucs + [u])[1..] == ucs[1..] + [u];
      RoutesJoin(p, ucs[1..], u, name);
    }
  }

  lemma RoutesAreAPart(p: Platform, st: Router, id: int, exact: bool, name: string)
    requires Mirror(p, st, id, exact)
    ensures Balance(st.calls, name) >= DevicesOn(p, st.refs, name, p.max) + RoutesOn(p, st.ucs, id, name) >= 0
  {}

  /** What is open of a use case's path: at least once if it is routed, and exactly then if exact. */
  lemma OpenedExactly(p: Platform, st: Router, k: nat, exact: bool)
    requires NamesApart(p) && Mirror(p, st, -1, exact) && k < |st.ucs| && Unique(st.ucs)
    ensures var n := if Routed(st.ucs[k]) then 1 else 0;
      Opened(p, st, st.ucs[k]) >= n && (exact ==> Opened(p, st, st.ucs[k]) == n)
  {
    hide DevicesOn, RoutesOn, Balance, Bracketed;
    var u := st.ucs[k];
    NoDeviceNamed(p, st.refs, u.id, RouteDevice(u), p.max);
    RoutesPull(p, st.ucs, k, p.mixerPath(u.id, RouteDevice(u)));
    NobodyNamed(p, st.ucs, u.id, u.id, RouteDevice(u));
  }

  /** A use case comes in flight: if it holds nothing, nothing is missing. */
  lemma ComesInFlight(p: Platform, st: Router, k: nat, exact: bool)
    requires Mirror(p, st, -1, exact) && k < |st.ucs| && Unique(st.ucs)
    ensures Mirror(p, st, st.ucs[k].id, exact && !Routed(st.ucs[k]))
  {
    forall name
      ensures RoutesOn(p, st.ucs, -1, name)
           == RoutesOn(p, st.ucs, st.ucs[k].id, name) + if RouteOn(p, st.ucs[k], name) then 1 else 0
    {
      RoutesPull(p, st.ucs, k, name);
    }
  }

  /** Closing one open path of the use case in flight. */
  lemma CloseInFlight(p: Platform, st: Router, u: Usecase, exact: bool)
    requires NamesApart(p) && Mirror(p, st, u.id, exact) && Opened(p, st, u) >= 1
    ensures Mirror(p, st.(calls := st.calls + [RouteCall(p, u, false)]), u.id, exact)
  {
    hide DevicesOn, RoutesOn, Balance, Bracketed;
    var call := RouteCall(p, u, false);
    NoDeviceNamed(p, st.refs, u.id, RouteDevice(u), p.max);
    NobodyNamed(p, st.ucs, u.id, u.id, RouteDevice(u));
    forall name
      ensures Balance(st.calls + [call], name) == Balance(st.calls, name) - if call.name == name then 1 else 0
    {
      BalanceAppend(st.calls, [call], name);
      BalanceOfOne(call, name);
    }
    OneDirection(st.calls, [call], false);
  }

  /** A use case closes its open route and is from then on in flight. */
  lemma CloseMirrors(p: Platform, st: Router, k: nat, exact: bool)
    requires NamesApart(p) && Mirror(p, st, -1, exact) && k < |st.ucs| && Unique(st.ucs)
    requires Opened(p, st, st.ucs[k]) >= 1
    ensures Mirror(p, st.(calls := st.calls + [RouteCall(p, st.ucs[k], false)]), st.ucs[k].id, exact)
  {
    hide DevicesOn, RoutesOn, Balance, Bracketed;
    var call := RouteCall(p, st.ucs[k], false);
    ComesInFlight(p, st, k, exact);
    CloseInFlight(p, st, st.ucs[k], false);
    OpenedExactly(p, st, k, exact);
    forall name
      ensures Balance(st.calls + [call], name) == Balance(st.calls, name) - if call.name == name then 1 else 0
      ensures RoutesOn(p, st.ucs, -1, name)
           == RoutesOn(p, st.ucs, st.ucs[k].id, name) + if RouteOn(p, st.ucs[k], name) then 1 else 0
    {
      BalanceAppend(st.calls, [call], name);
      BalanceOfOne(call, name);
      RoutesPull(p, st.ucs, k, name);
    }
  }

  /** The one in flight opens its route on its new devices. */
  lemma OpenMirrors(p: Platform, st: Router, k: nat, u: Usecase, exact: bool)
    requires k < |st.ucs| && Unique(st.ucs) && u.id == st.ucs[k].id && Mirror(p, st, u.id, exact)
    ensures Mirror(p, st.(ucs := st.ucs[k := u], calls := st.calls + [RouteCall(p, u, true)]), -1, exact && Routed(u))
  {
    hide DevicesOn, RoutesOn, Balance, Bracketed;
    var call, ucs := RouteCall(p, u, true), st.ucs[k := u];
    forall name
      ensures Balance(st.calls + [call], name) == Balance(st.calls, name) + if call.name == name then 1 else 0
      ensures RoutesOn(p, ucs, -1, name)
           == RoutesOn(p, st.ucs, u.id, name) + if RouteOn(p, u, name) then 1 else 0
      ensures Balance(st.calls, name) >= 0
    {
      BalanceAppend(st.calls, [call], name);
      BalanceOfOne(call, name);
      RoutesPull(p, ucs, k, name);
      RoutesIgnore(p, ucs, st.ucs, u.id, name);
      BracketedWhole(st.calls, name);
    }
    OneDirection(st.calls, [call], true);
  }

  /** How often a use case closes its route when it lets go of its devices. */
  function Closes(u: Usecase): nat {
    (if u.out == NONE then 0 else 1) + if u.in_ == NONE then 0 else 1
  }

  lemma DroppedBalance(p: Platform, st: Router, u: Usecase, d: Device)
    requires PlatformOk(p) && NamesApart(p) && |st.refs| == p.max
    ensures Opened(p, Dropped(p, st, u, d), u) == Opened(p, st, u) - if d == NONE then 0 else 1
  {
    hide DevicesOn, Balance, Disable, DisableCalls;
    var call, name := RouteCall(p, u, false), p.mixerPath(u.id, RouteDevice(u));
    if d != NONE {
      BalanceAppend(st.calls, [call], name);
      BalanceOfOne(call, name);
      BalanceAppend(st.calls + [call], DisableCalls(p, st.refs, d), name);
      DisableOn(p, st.refs, d, name);
      NoDeviceNamed(p, st.refs, u.id, RouteDevice(u), p.max);
      NoDeviceNamed(p, Disable(p, st.refs, d), u.id, RouteDevice(u), p.max);
    }
  }

  /** Letting go of both devices before a switch: as many routes are closed as were open. */
  lemma FreedMirrors(p: Platform, st: Router, k: nat, exact: bool)
    requires PlatformOk(p) && NamesApart(p) && Mirror(p, st, -1, exact) && k < |st.ucs| && Unique(st.ucs)
    requires UsecaseOk(p, st.ucs[k]) && Closes(st.ucs[k]) <= Opened(p, st, st.ucs[k])
    ensures Mirror(p, Freed(p, st, st.ucs[k]), st.ucs[k].id, exact)
  {
    hide Mirror, Disabled, Opened, NamesApart;
    HasCounts(p, st, -1, exact);
    var u := st.ucs[k];
    var half := Dropped(p, st, u, u.out);
    DroppedBalance(p, st, u, u.out);
    var closed := st.(calls := st.calls + [RouteCall(p, u, false)]);
    if u.out != NONE {
      CloseMirrors(p, st, k, exact);
      DisabledMirrors(p, closed, u.out, u.id, exact);
      if u.in_ != NONE {
        CloseInFlight(p, half, u, exact);
        DisabledMirrors(p, half.(calls := half.calls + [RouteCall(p, u, false)]), u.in_, u.id, exact);
      }
    } else if u.in_ != NONE {
      CloseMirrors(p, st, k, exact);
      DisabledMirrors(p, closed, u.in_, u.id, exact);
    } else {
      ComesInFlight(p, st, k, exact);
    }
  }

  // ----- moving other use cases -----

  lemma {:induction false} RouteCallsAre(p: Platform, ucs: seq<Usecase>, plan: Plan, apply: bool)
    requires |plan| == |ucs|
    ensures AllAre(RouteCalls(p, ucs, plan, apply), apply)
    decreases |ucs|
  {
    if ucs != [] {
      RouteCallsAre(p, ucs[1..], plan[1..], apply);
    }
  }

  lemma FirstOfRouteCalls(p: Platform, ucs: seq<Usecase>, plan: Plan, apply: bool, name: string)
    requires |plan| == |ucs| > 0
    ensures Balance(RouteCalls(p, ucs, plan, apply), name)
         == (if plan[0].None? || RouteCall(p, ucs[0], apply).name != name then 0 else if apply then 1 else -1)
            + Balance(RouteCalls(p, ucs[1..], plan[1..], apply), name)
  {
    var rest := RouteCalls(p, ucs[1..], plan[1..], apply);
    if plan[0].Some? {
      BalanceAppend([RouteCall(p, ucs[0], apply)], rest, name);
      BalanceOfOne(RouteCall(p, ucs[0], apply), name);
    } else {
      assert [] + rest == rest;
    }
  }

  /** Routes of the use cases that stay. */
  function StillOn(p: Platform, ucs: seq<Usecase>, plan: Plan, id: int, name: string): nat
    requires |plan| == |ucs|
    decreases |ucs|
  {
    if ucs == [] then 0
    else (if ucs[0].id != id && plan[0].None? && RouteOn(p, ucs[0], name) then 1 else 0)
         + StillOn(p, ucs[1..], plan[1..], id, name)
  }

  /** A path that no moved use case goes by stays as it is. */
  lemma {:induction false} NoneMoved(p: Platform, ucs: seq<Usecase>, plan: Plan, id: int, name: string)
    requires |plan| == |ucs|
    requires forall k | 0 <= k < |ucs| && plan[k].Some? :: RouteCall(p, ucs[k], false).name != name
    ensures Balance(RouteCalls(p, ucs, plan, false), name) == 0
    ensures StillOn(p, ucs, plan, id, name) == RoutesOn(p, ucs, id, name)
    decreases |ucs|
  {
    if ucs != [] {
      hide Balance, RouteCalls;
      FirstOfRouteCalls(p, ucs, plan, false, name);
      NoneMoved(p, ucs[1..], plan[1..], id, name);
    }
  }

  /** The path of a moved use case is closed once, and nobody else goes by it. */
  lemma {:induction false} OneMoved(p: Platform, ucs: seq<Usecase>, plan: Plan, id: int, k: nat)
    requires NamesApart(p) && |plan| == |ucs| && k < |ucs| && Unique(ucs) && plan[k].Some? && ucs[k].id != id
    ensures var name := RouteCall(p, ucs[k], false).name;
      && Balance(RouteCalls(p, ucs, plan, false), name) == -1 && StillOn(p, ucs, plan, id, name) == 0
      && RoutesOn(p, ucs, id, name) == if Routed(ucs[k]) then 1 else 0
    decreases |ucs|
  {
    var u := ucs[k];
    var name := RouteCall(p, u, false).name;
    FirstOfRouteCalls(p, ucs, plan, false, name);
    if k == 0 {
      assert forall j | 0 <= j < |ucs[1..]| :: ucs[1..][j].id != u.id;
      NoneMoved(p, ucs[1..], plan[1..], id, name);
      NobodyNamed(p, ucs[1..], id, u.id, RouteDevice(u));
    } else {
      assert ucs[0].id != u.id;
      OneMoved(p, ucs[1..], plan[1..], id, k - 1);
    }
  }

  /** What the moved use cases open covers their new routes. */
  lemma {:induction false} NewRoutes(p: Platform, ucs: seq<Usecase>, plan: Plan, side: Side, id: int, name: string)
    requires |plan| == |ucs| && forall k | 0 <= k < |ucs| && plan[k].Some? :: ucs[k].id != id
    ensures var moved := Moved(ucs, plan, side);
      var now := StillOn(p, ucs, plan, id, name) + Balance(RouteCalls(p, moved, plan, true), name);
      && RoutesOn(p, moved, id, name) <= now
      && ((forall k | 0 <= k < |ucs| && plan[k].Some? :: Routed(moved[k])) ==> RoutesOn(p, moved, id, name) == now)
    decreases |ucs|
  {
    if ucs != [] {
      hide Balance, RouteCalls;
      var moved := Moved(ucs, plan, side);
      assert moved[1..] == Moved(ucs[1..], plan[1..], side);
      NewRoutes(p, ucs[1..], plan[1..], side, id, name);
      FirstOfRouteCalls(p, moved, plan, true, name);
    }
  }

  /** The path of every moved use case is open. */
  predicate MovedAreOpen(p: Platform, st: Router, plan: Plan) {
    |plan| == |st.ucs| && forall k | 0 <= k < |st.ucs| && plan[k].Some? :: Opened(p, st, st.ucs[k]) >= 1
  }

  /** Routed use cases that are moved stay routed. */
  predicate StayRouted(ucs: seq<Usecase>, plan: Plan, side: Side) {
    |plan| == |ucs| && forall k | 0 <= k < |ucs| && plan[k].Some? && Routed(ucs[k]) ::
      Routed(WithDevice(ucs[k], side, plan[k].value))
  }

  lemma ClosedMoved(p: Platform, st: Router, plan: Plan, id: int, exact: bool, name: string)
    requires NamesApart(p) && Mirror(p, st, id, exact) && Unique(st.ucs) && MovedAreOpen(p, st, plan)
    requires forall k | 0 <= k < |st.ucs| && plan[k].Some? :: st.ucs[k].id != id
    ensures var after := Balance(st.calls, name) + Balance(RouteCalls(p, st.ucs, plan, false), name);
      var rest := DevicesOn(p, st.refs, name, p.max) + StillOn(p, st.ucs, plan, id, name);
      after >= rest && (exact ==> after == rest)
  {
    hide Balance, RouteCalls, DevicesOn, RoutesOn, StillOn, NamesApart;
    if k :| 0 <= k < |st.ucs| && plan[k].Some? && RouteCall(p, st.ucs[k], false).name == name {
      OneMoved(p, st.ucs, plan, id, k);
      NoDeviceNamed(p, st.refs, st.ucs[k].id, RouteDevice(st.ucs[k]), p.max);
    } else {
      NoneMoved(p, st.ucs, plan, id, name);
    }
  }

  lemma MovedWereRouted(p: Platform, st: Router, plan: Plan, id: int)
    requires NamesApart(p) && Mirror(p, st, id, true) && Unique(st.ucs) && MovedAreOpen(p, st, plan)
    requires forall k | 0 <= k < |st.ucs| && plan[k].Some? :: st.ucs[k].id != id
    ensures forall k | 0 <= k < |st.ucs| && plan[k].Some? :: Routed(st.ucs[k])
  {
    hide Balance, RouteCalls, DevicesOn, RoutesOn, StillOn, NamesApart;
    forall k | 0 <= k < |st.ucs| && plan[k].Some? ensures Routed(st.ucs[k]) {
      OneMoved(p, st.ucs, plan, id, k);
      NoDeviceNamed(p, st.refs, st.ucs[k].id, RouteDevice(st.ucs[k]), p.max);
    }
  }

  /** The four stretches of calls of a re-route, and what is open of a path after each. */
  lemma RouteStretches(p: Platform, st: Router, plan: Plan, side: Side, id: int, exact: bool, name: string)
    requires PlatformOk(p) && NamesApart(p) && Mirror(p, st, id, exact) && Unique(st.ucs)
    requires MovedAreOpen(p, st, plan) && (exact ==> StayRouted(st.ucs, plan, side))
    requires forall k | 0 <= k < |st.ucs| && plan[k].Some? :: st.ucs[k].id != id
    ensures var r, moved, olds := Route(p, st, plan, side), Moved(st.ucs, plan, side), Olds(st.ucs, plan, side);
      var freed := DisableAll(p, st.refs, olds);
      var closed := st.calls + RouteCalls(p, st.ucs, plan, false);
      var stopped := closed + DisableAllCalls(p, st.refs, olds);
      var started := stopped + EnableAllCalls(p, freed, News(plan));
      var open := started + RouteCalls(p, moved, plan, true);
      && Balance(closed, name) >= 0 && Balance(stopped, name) >= 0 && Balance(started, name) >= 0
      && Balance(open, name) >= On(p, r, id, name) && (exact ==> Balance(open, name) == On(p, r, id, name))
  {
    if exact {
      MovedWereRouted(p, st, plan, id);
    }
    ClosedMoved(p, st, plan, id, exact, name);
    NewRoutes(p, st.ucs, plan, side, id, name);
    hide Mirror, DevicesOn, RoutesOn, StillOn, Balance, RouteCalls, EnableAll, DisableAll, Olds, News;
    hide NamesApart, EnableAllCalls, DisableAllCalls, MovedAreOpen, PlatformOk, RouteOn, Unique;
    var moved, olds := Moved(st.ucs, plan, side), Olds(st.ucs, plan, side);
    var freed := DisableAll(p, st.refs, olds);
    var closed := st.calls + RouteCalls(p, st.ucs, plan, false);
    var stopped := closed + DisableAllCalls(p, st.refs, olds);
    var started := stopped + EnableAllCalls(p, freed, News(plan));
    DisableAllOn(p, st.refs, olds, name);
    EnableAllOn(p, freed, News(plan), name);
    BalanceAppend(st.calls, RouteCalls(p, st.ucs, plan, false), name);
    BalanceAppend(closed, DisableAllCalls(p, st.refs, olds), name);
    BalanceAppend(stopped, EnableAllCalls(p, freed, News(plan)), name);
    BalanceAppend(started, RouteCalls(p, moved, plan, true), name);
  }

  lemma RouteIsStretches(p: Platform, st: Router, plan: Plan, side: Side)
    requires PlatformOk(p) && |st.refs| == p.max && |plan| == |st.ucs|
    ensures var moved, olds := Moved(st.ucs, plan, side), Olds(st.ucs, plan, side);
      var freed := DisableAll(p, st.refs, olds);
      Route(p, st, plan, side).calls
      == st.calls + RouteCalls(p, st.ucs, plan, false) + DisableAllCalls(p, st.refs, olds)
         + EnableAllCalls(p, freed, News(plan)) + RouteCalls(p, moved, plan, true)
  {
    hide RouteCalls, EnableAll, DisableAll, Olds, News, EnableAllCalls, DisableAllCalls, PlatformOk;
    var moved, olds := Moved(st.ucs, plan, side), Olds(st.ucs, plan, side);
    var freed := DisableAll(p, st.refs, olds);
    Regroup(st.calls, RouteCalls(p, st.ucs, plan, false), DisableAllCalls(p, st.refs, olds),
            EnableAllCalls(p, freed, News(plan)), RouteCalls(p, moved, plan, true));
  }

  lemma Regroup(a: seq<MixerCall>, b: seq<MixerCall>, c: seq<MixerCall>, d: seq<MixerCall>, e: seq<MixerCall>)
    ensures a + (b + c + d + e) == a + b + c + d + e
  {}

  lemma FourStretches(c: seq<MixerCall>, close: seq<MixerCall>, stop: seq<MixerCall>,
                      start: seq<MixerCall>, open: seq<MixerCall>)
    requires Bracketed(c) && AllAre(close, false) && AllAre(stop, false) && AllAre(start, true) && AllAre(open, true)
    requires forall name :: Balance(c + close, name) >= 0
    requires forall name :: Balance(c + close + stop, name) >= 0
    requires forall name :: Balance(c + close + stop + start, name) >= 0
    requires forall name :: Balance(c + close + stop + start + open, name) >= 0
    ensures Bracketed(c + close + stop + start + open)
  {
    hide Bracketed, Balance, AllAre;
    OneDirection(c, close, false);
    OneDirection(c + close, stop, false);
    OneDirection(c + close + stop, start, true);
    OneDirection(c + close + stop + start, open, true);
  }

  lemma RouteBracketed(p: Platform, st: Router, plan: Plan, side: Side, id: int, exact: bool)
    requires PlatformOk(p) && NamesApart(p) && Mirror(p, st, id, exact) && Unique(st.ucs)
    requires MovedAreOpen(p, st, plan) && (exact ==> StayRouted(st.ucs, plan, side))
    requires forall k | 0 <= k < |st.ucs| && plan[k].Some? :: st.ucs[k].id != id
    ensures Bracketed(Route(p, st, plan, side).calls)
  {
    HasCounts(p, st, id, exact);
    hide On, Balance, Bracketed, RouteCalls, EnableAll, DisableAll, Olds, News, StayRouted, Unique, Mirror;
    hide NamesApart, EnableAllCalls, DisableAllCalls, MovedAreOpen, PlatformOk, Route, AllAre;
    var moved, olds := Moved(st.ucs, plan, side), Olds(st.ucs, plan, side);
    var freed := DisableAll(p, st.refs, olds);
    var close, stop := RouteCalls(p, st.ucs, plan, false), DisableAllCalls(p, st.refs, olds);
    var start, open := EnableAllCalls(p, freed, News(plan)), RouteCalls(p, moved, plan, true);
    var c, r := st.calls, Route(p, st, plan, side);
    RouteIsStretches(p, st, plan, side);
    forall name
      ensures Balance(c + close, name) >= 0 && Balance(c + close + stop, name) >= 0
      ensures Balance(c + close + stop + start, name) >= 0
      ensures Balance(c + close + stop + start + open, name) >= 0
    {
      RouteStretches(p, st, plan, side, id, exact, name);
      OnIsCounted(p, r, id, name);
    }
    RouteCallsAre(p, st.ucs, plan, false);
    RouteCallsAre(p, moved, plan, true);
    DisableAllOn(p, st.refs, olds, "");
    EnableAllOn(p, freed, News(plan), "");
    FourStretches(c, close, stop, start, open);
  }

  lemma OnIsCounted(p: Platform, st: Router, id: int, name: string)
    requires |st.refs| == p.max
    ensures On(p, st, id, name) >= 0
  {}

  /** A re-route of use cases whose paths are open is bracketed, and opens the new routes. */
  lemma RouteMirrors(p: Platform, st: Router, plan: Plan, side: Side, id: int, exact: bool)
    requires PlatformOk(p) && NamesApart(p) && Mirror(p, st, id, exact) && Unique(st.ucs)
    requires MovedAreOpen(p, st, plan) && (exact ==> StayRouted(st.ucs, plan, side))
    requires forall k | 0 <= k < |st.ucs| && plan[k].Some? :: st.ucs[k].id != id
    ensures Mirror(p, Route(p, st, plan, side), id, exact)
  {
    RouteBracketed(p, st, plan, side, id, exact);
    HasCounts(p, st, id, exact);
    hide On, Balance, Bracketed, RouteCalls, EnableAll, DisableAll, Olds, News, StayRouted, Unique, Route;
    hide NamesApart, EnableAllCalls, DisableAllCalls, MovedAreOpen, PlatformOk;
    var r := Route(p, st, plan, side);
    RouteIsStretches(p, st, plan, side);
    forall name
      ensures Balance(r.calls, name) >= On(p, r, id, name)
      ensures exact ==> Balance(r.calls, name) == On(p, r, id, name)
    {
      RouteStretches(p, st, plan, side, id, exact, name);
    }
  }
}
