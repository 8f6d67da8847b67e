/** The device object of dualscreen/hwcomposer/hwc2_fujisan.cpp: its entry points change fields and
    close descriptors, against the functions of HwcFences. */
module HwcDevice {
  import opened Common
  import opened HwcFences

  class Device {
    var small: Endpoint
    var wide: Endpoint
    var wideFd: int
    var wideRouteActive: bool
    var wideDrainFence: int
    /** The process and the WIDE timeline, of which the program sees nothing. */
    ghost var owned: map<int, Object>
    ghost var leaked: set<int>
    ghost var badCloses: nat
    ghost var given: seq<int>
    ghost var submits: nat
    ghost var done: nat
    ghost var signalled: nat
    ghost var commits: seq<Commit>

    ghost function View(): Hwc
      reads this
    {
      Hwc(small, wide, wideFd, wideRouteActive, wideDrainFence, owned, leaked, badCloses, given,
          submits, done, signalled, commits)
    }

    constructor ()
      ensures View() == HwcFences.Start()
    {
      small, wide := Endpoint(None, -1), Endpoint(None, -1);
      wideFd, wideRouteActive, wideDrainFence := -1, false, -1;
      owned, leaked, badCloses, given, submits, done, signalled, commits := map[], {}, 0, [], 0, 0, 0, [];
    }

    /** `if (fd >= 0) close(fd)`. */
    method CloseFd(fd: int)
      modifies `owned, `badCloses
      ensures View() == HwcFences.Close(old(View()), fd)
    {
      if fd >= 0 {
        if fd in owned {
          owned := owned - {fd};
        } else {
          badCloses := badCloses + 1;
        }
      }
    }

    method CloseWideFramebuffer()
      modifies this
      ensures View() == HwcFences.CloseWideFramebuffer(old(View()))
    {
      hide HwcFences.Close;
      var stale := wideDrainFence;
      wideDrainFence, wideRouteActive := -1, false;
      CloseFd(stale);
      var fd := wideFd;
      wideFd := -1;
      CloseFd(fd);
    }

    method DrainWideRoute(waitOk: bool) returns (ok: bool)
      modifies this
      ensures (ok, View()) == HwcFences.DrainWideRoute(old(View()), waitOk)
    {
      hide HwcFences.Close, HwcFences.CloseWideFramebuffer, Waited;
      if !wideRouteActive {
        return true;
      }
      if wideDrainFence < 0 {
        return false;
      }
      if !waitOk {
        return false;
      }
      signalled := Waited(View(), wideDrainFence).signalled;
      WaitedOnlySignals(old(View()), wideDrainFence);
      var fence := wideDrainFence;
      wideDrainFence, wideRouteActive := -1, false;
      CloseFd(fence);
      CloseWideFramebuffer();
      return true;
    }

    method OpenFramebuffer(node: int)
      modifies this
      ensures View() == HwcFences.OpenFramebuffer(old(View()), node)
    {
      if wideFd < 0 {
        owned := Gain(View(), node, Other).owned;
        wideFd := node;
      }
    }

    /** The fences of a refused or incomplete commit. */
    method DropFences(env: Env)
      modifies this
      ensures View() == HwcFences.DropFences(old(View()), env)
    {
      CloseFd(env.release);
      CloseFd(env.retire);
    }

    /** The copy of the newest completion fence replaces the one kept before. */
    method Retain(copy: int, ghost n: nat)
      modifies this
      ensures View() == HwcFences.Retain(old(View()), copy, n)
    {
      hide HwcFences.Close;
      if copy >= 0 {
        owned := Gain(View(), copy, Completion(n)).owned;
        CloseFd(wideDrainFence);
        wideDrainFence, wideRouteActive := copy, true;
      }
    }

    method Report(retire: int, wanted: bool) returns (out: int)
      modifies this
      ensures View() == HwcFences.Report(old(View()), retire, wanted) && out == if wanted then retire else -1
    {
      if wanted {
        owned, given := owned - {retire}, given + [retire];
        out := retire;
      } else {
        CloseFd(retire);
        out := -1;
      }
    }

    /** The commit has returned: its two fences are there, and the acquire fence is closed. */
    method TakeFences(acquire: int, env: Env, ghost what: Object)
      modifies `owned, `badCloses
      ensures View() == HwcFences.Close(Gain(Gain(old(View()), env.release, what), env.retire, Other), acquire)
    {
      hide HwcFences.Close, Gain;
      owned := Gain(Gain(View(), env.release, what), env.retire, Other).owned;
      CloseFd(acquire);
    }

    method CommitWide(acquire: int, wanted: bool, env: Env) returns (ok: bool, retire: int)
      modifies this
      ensures (ok, View()) == HwcFences.CommitWide(old(View()), acquire, wanted, env)
      ensures retire == if ok && wanted then env.retire else -1
    {
      hide HwcFences.Close, HwcFences.DropFences, HwcFences.Retain, HwcFences.Report, Gain;
      ghost var n := submits;
      TakeFences(acquire, env, Completion(n));
      submits := n + 1;
      if !env.accepted || env.release < 0 || env.retire < 0 {
        DropFences(env);
        commits := commits + [Wide(n, false)];
        return false, -1;
      }
      Retain(env.copy, n);
      CloseFd(env.release);
      retire := Report(env.retire, wanted);
      commits, done := commits + [Wide(n, true)], n + 1;
      ok := true;
    }

    /** `SubmitWideClientTarget`; a negative retire fence means none is reported. */
    method SubmitWide(target: Option<Buffer>, acquire: int, wanted: bool, env: Env) returns (ok: bool, retire: int)
      modifies this
      ensures (ok, View()) == HwcFences.SubmitWide(old(View()), target, acquire, wanted, env)
      ensures retire == if ok && wanted then env.retire else -1
    {
      hide HwcFences.Close, HwcFences.OpenFramebuffer, HwcFences.CommitWide, Fits;
      if !Fits(target, ZOOM_WIDTH, ZOOM_HEIGHT) {
        CloseFd(acquire);
        return false, -1;
      }
      OpenFramebuffer(env.node);
      if wideFd < 0 {
        CloseFd(acquire);
        return false, -1;
      }
      ok, retire := CommitWide(acquire, wanted, env);
    }

    /** `SubmitSingleClientTarget`. */
    method SubmitSingle(target: Option<Buffer>, acquire: int, wanted: bool, env: Env) returns (ok: bool, retire: int)
      modifies this
      ensures (ok, View()) == HwcFences.SubmitSingle(old(View()), target, acquire, wanted, env)
      ensures retire == if ok && wanted then env.retire else -1
    {
      hide HwcFences.Close, HwcFences.OpenFramebuffer, HwcFences.DropFences;
      hide HwcFences.Retain, HwcFences.Report, Gain, Fits;
      if !Fits(target, SEC_WIDTH, SEC_HEIGHT) {
        CloseFd(acquire);
        return false, -1;
      }
      OpenFramebuffer(env.node);
      if wideFd < 0 {
        CloseFd(acquire);
        return false, -1;
      }
      TakeFences(acquire, env, Other);
      commits := commits + [Single(signalled)];
      if !env.accepted || env.release < 0 || env.retire < 0 {
        DropFences(env);
        return false, -1;
      }
      CloseFd(env.release);
      retire := Report(env.retire, wanted);
      ok := true;
    }

    method PresentDisplay(isWide: bool, wanted: bool, env: Env) returns (status: Status, retire: int)
      modifies this
      ensures (status, View()) == HwcFences.PresentDisplay(old(View()), isWide, wanted, env)
      ensures retire == if wanted && Commits(old(View()), isWide, wanted, env) then env.retire else -1
    {
      hide HwcFences.Close, HwcFences.SubmitWide, HwcFences.SubmitSingle, HwcFences.DrainWideRoute;
      var e := if isWide then wide else small;
      if isWide {
        wide := wide.(fence := -1);
      } else {
        small := small.(fence := -1);
        var drained := DrainWideRoute(env.waitOk);
        if !drained {
          CloseFd(e.fence);
          return NoResources, -1;
        }
      }
      if e.target == None || !Expected(e.target.value, isWide) {
        CloseFd(e.fence);
        return NoError, -1;
      }
      var ok;
      if isWide {
        ok, retire := SubmitWide(e.target, e.fence, wanted, env);
      } else {
        ok, retire := SubmitSingle(e.target, e.fence, wanted, env);
      }
      status := if ok then NoError else NoResources;
    }

    method SetClientTarget(isWide: bool, target: Option<Buffer>, acquire: int, env: Env) returns (status: Status)
      modifies this
      ensures (status, View()) == HwcFences.SetClientTarget(old(View()), isWide, target, acquire, env)
    {
      hide HwcFences.Close, HwcFences.DrainWideRoute, Gain;
      owned := Gain(View(), acquire, Other).owned;
      if !isWide {
        var drained := DrainWideRoute(env.waitOk);
        if !drained {
          leaked := leaked + if acquire >= 0 then {acquire} else {};
          return NoResources;
        }
      }
      if isWide {
        CloseFd(wide.fence);
        wide := Endpoint(target, acquire);
      } else {
        CloseFd(small.fence);
        small := Endpoint(target, acquire);
      }
      return NoError;
    }

    method SetActiveConfig(isWide: bool, matches: bool, env: Env) returns (status: Status)
      modifies this
      ensures (status, View()) == HwcFences.SetActiveConfig(old(View()), isWide, matches, env)
    {
      hide HwcFences.DrainWideRoute;
      if !matches {
        return BadConfig;
      }
      if !isWide {
        var drained := DrainWideRoute(env.waitOk);
        if !drained {
          return NoResources;
        }
      }
      return NoError;
    }

    /** `HwcClose`, as far as descriptors go. */
    method Shutdown()
      modifies this
      ensures View() == HwcClose(old(View()))
    {
      hide HwcFences.Close, HwcFences.CloseWideFramebuffer;
      CloseWideFramebuffer();
      var a, b := small.fence, wide.fence;
      small, wide := small.(fence := -1), wide.(fence := -1);
      CloseFd(a);
      CloseFd(b);
    }
  }

  lemma WaitedOnlySignals(s: Hwc, fd: int)
    ensures Waited(s, fd) == s.(signalled := Waited(s, fd).signalled)
  {}
}
