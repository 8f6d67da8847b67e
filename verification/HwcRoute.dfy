/** The WIDE to SINGLE protocol of dualscreen/hwcomposer/hwc2_fujisan.cpp over whole runs: no SINGLE
    commit is issued while an earlier WIDE submit is still under way. */
module HwcRoute {
  import opened Common
  import opened HwcFences

  /** Every SINGLE commit was issued after the timeline had passed every WIDE submit that returned true
      before it. */
  ghost predicate SafeTrace(commits: seq<Commit>) {
    forall i, j | 0 <= i < j < |commits| && commits[i].Wide? && commits[i].done && commits[j].Single? ::
      commits[i].n < commits[j].signalled
  }

  /** How far the timeline will have got once a drain has succeeded. */
  function AfterDrain(s: Hwc): nat {
    if s.active then Waited(s, s.drain).signalled else s.signalled
  }

  /** The completion a drain waits for covers every submit that returned true. */
  predicate Covered(s: Hwc) {
    s.done <= AfterDrain(s)
  }

  ghost predicate Tracks(s: Hwc) {
    && s.signalled <= s.submits && s.done <= s.submits
    && (s.active ==> s.drain in s.owned && s.owned[s.drain].Completion? && s.owned[s.drain].n < s.submits)
    && (forall i | 0 <= i < |s.commits| && s.commits[i].Wide? && s.commits[i].done :: s.commits[i].n < s.done)
    && (s.done > 0 ==> Wide(s.done - 1, true) in s.commits)
  }

  /** A call issues at most one commit; it is a SINGLE one. */
  predicate IssuesSingle(s: Hwc, t: Hwc) {
    |t.commits| > |s.commits| && t.commits[|t.commits| - 1].Single?
  }

  /** What a call does to the protocol: completions stay covered unless a WIDE submit returned true, and
      then they are covered, whatever was before, exactly when it retained a copy of its fence; and a
      SINGLE commit is safe exactly when completions were covered before the call. */
  ghost predicate Progress(s: Hwc, t: Hwc, copied: bool) {
    && Tracks(t)
    && (if t.done != s.done then Covered(t) <==> copied else Covered(t) <==> Covered(s))
    && (SafeTrace(t.commits) <==> (SafeTrace(s.commits) && (IssuesSingle(s, t) ==> Covered(s))))
  }

  // ----- what the calls do to the timeline -----

  lemma CommitTimeline(s: Hwc, fence: int, wanted: bool, env: Env)
    ensures var (ok, t) := CommitWide(s, fence, wanted, env);
      && t.signalled == s.signalled && t.done == (if ok then s.submits + 1 else s.done)
      && t.submits == s.submits + 1 && t.commits == s.commits + [Wide(s.submits, ok)]
      && (if ok && env.copy >= 0 then t.active && t.drain == env.copy else t.active == s.active && t.drain == s.drain)
  {
    hide Close, Gain, Report, DropFences, Complete;
  }

  lemma WideTimeline(s: Hwc, target: Option<Buffer>, fence: int, wanted: bool, env: Env)
    ensures var (ok, t) := SubmitWide(s, target, fence, wanted, env);
      && t.signalled == s.signalled && t.done == (if ok then s.submits + 1 else s.done)
      && (if ok || t.submits != s.submits
          then t.submits == s.submits + 1 && t.commits == s.commits + [Wide(s.submits, ok)]
          else t.submits == s.submits && t.commits == s.commits)
      && (if ok && env.copy >= 0 then t.active && t.drain == env.copy else t.active == s.active && t.drain == s.drain)
  {
    hide Fits, Close, OpenFramebuffer, CommitWide;
    CommitTimeline(OpenFramebuffer(s, env.node), fence, wanted, env);
  }

  lemma SingleTimeline(s: Hwc, target: Option<Buffer>, fence: int, wanted: bool, env: Env)
    ensures var t := SubmitSingle(s, target, fence, wanted, env).1;
      && t.signalled == s.signalled && t.done == s.done && t.submits == s.submits
      && t.active == s.active && t.drain == s.drain
      && (t.commits == s.commits || t.commits == s.commits + [Single(s.signalled)])
  {
    hide Fits, Close, Gain, Report, DropFences, OpenFramebuffer, Complete;
  }

  // ----- the object behind a descriptor -----

  lemma GainKeepsObject(s: Hwc, fd: int, what: Object, kept: int)
    requires kept in s.owned && kept != fd
    ensures kept in Gain(s, fd, what).owned && Gain(s, fd, what).owned[kept] == s.owned[kept]
  {}

  lemma CloseKeepsObject(s: Hwc, fd: int, kept: int)
    requires kept in s.owned && kept != fd
    ensures kept in Close(s, fd).owned && Close(s, fd).owned[kept] == s.owned[kept]
  {}

  lemma OpenKeepsObject(s: Hwc, node: int, kept: int)
    requires kept in s.owned && (s.frame < 0 ==> kept != node)
    ensures kept in OpenFramebuffer(s, node).owned && OpenFramebuffer(s, node).owned[kept] == s.owned[kept]
  {}

  lemma ReportKeepsObject(s: Hwc, retire: int, wanted: bool, kept: int)
    requires kept in s.owned && kept != retire
    ensures kept in Report(s, retire, wanted).owned && Report(s, retire, wanted).owned[kept] == s.owned[kept]
  {}

  predicate Foreign(s: Hwc, env: Env, fence: int, kept: int) {
    (s.frame < 0 ==> kept != env.node) && kept !in [env.release, env.retire, env.copy, fence]
  }

  /** A submit replaces the drain fence by its own completion, or keeps it. */
  lemma WideDrainObject(s: Hwc, target: Option<Buffer>, fence: int, wanted: bool, env: Env)
    requires s.drain >= 0 ==> s.drain in s.owned && Foreign(s, env, fence, s.drain)
    requires env.copy >= 0 ==> env.copy !in [env.release, env.retire, s.drain]
    ensures var (ok, t) := SubmitWide(s, target, fence, wanted, env);
      if ok && env.copy >= 0 then env.copy in t.owned && t.owned[env.copy] == Completion(s.submits)
      else s.drain >= 0 ==> s.drain in t.owned && t.owned[s.drain] == s.owned[s.drain]
  {
    hide Fits, Close, Gain, Report, OpenFramebuffer, Complete;
    var d := s.drain;
    if Fits(target, ZOOM_WIDTH, ZOOM_HEIGHT) {
      var s1 := OpenFramebuffer(s, env.node);
      if s1.frame >= 0 {
        var a := Gain(s1, env.release, Completion(s1.submits));
        var b := Gain(a, env.retire, Other);
        var c := Close(b, fence);
        var s2 := c.(submits := s1.submits + 1);
        if d >= 0 {
          OpenKeepsObject(s, env.node, d);
          GainKeepsObject(s1, env.release, Completion(s1.submits), d);
          GainKeepsObject(a, env.retire, Other, d);
          CloseKeepsObject(b, fence, d);
        }
        if Complete(env) && env.copy >= 0 {
          GainedObject(s2, env.copy, Completion(s1.submits));
          var g := Gain(s2, env.copy, Completion(s1.submits));
          CloseKeepsObject(g, d, env.copy);
          var s3 := Retain(s2, env.copy, s1.submits);
          CloseKeepsObject(s3, env.release, env.copy);
          ReportKeepsObject(Close(s3, env.release), env.retire, wanted, env.copy);
        } else if d >= 0 {
          CloseKeepsObject(s2, env.release, d);
          CloseKeepsObject(Close(s2, env.release), env.retire, d);
          ReportKeepsObject(Close(s2, env.release), env.retire, wanted, d);
        }
      } else if d >= 0 {
        OpenKeepsObject(s, env.node, d);
        CloseKeepsObject(s1, fence, d);
      }
    } else if d >= 0 {
      CloseKeepsObject(s, fence, d);
    }
  }

  lemma GainedObject(s: Hwc, fd: int, what: Object)
    requires fd >= 0
    ensures fd in Gain(s, fd, what).owned && Gain(s, fd, what).owned[fd] == what
  {}

  // ----- the invariant, call by call -----

  /** Nothing the protocol depends on changed. */
  predicate SameRoute(s: Hwc, t: Hwc) {
    && t.active == s.active && t.drain == s.drain && t.signalled == s.signalled
    && t.done == s.done && t.submits == s.submits && t.commits == s.commits
    && (s.active && s.drain in s.owned ==> s.drain in t.owned && t.owned[s.drain] == s.owned[s.drain])
  }

  /** The same completions, commits and coverage. */
  ghost predicate SameCover(s: Hwc, t: Hwc) {
    Tracks(t) && t.done == s.done && t.commits == s.commits && AfterDrain(t) == AfterDrain(s)
  }

  lemma SameRouteKeeps(s: Hwc, t: Hwc)
    requires Tracks(s) && SameRoute(s, t)
    ensures SameCover(s, t)
  {}

  lemma SameCoverProgress(s: Hwc, t: Hwc, u: Hwc, copied: bool)
    requires SameCover(s, t) && Progress(t, u, copied)
    ensures Progress(s, u, copied)
  {
    hide SafeTrace, Tracks, AfterDrain;
  }

  lemma NoProgress(s: Hwc, t: Hwc, copied: bool)
    requires SameCover(s, t)
    ensures Progress(s, t, copied)
  {
    hide SafeTrace, Tracks, AfterDrain;
  }

  /** A successful drain brings the timeline past everything it covers; a failed one changes nothing. */
  lemma DrainRoute(s: Hwc, waitOk: bool, hand: set<int>)
    requires Accounts(s, hand) && Tracks(s)
    ensures var (drained, t) := DrainWideRoute(s, waitOk);
      SameCover(s, t) && (drained ==> !t.active && t.signalled == AfterDrain(s))
  {
    DrainAccounts(s, waitOk, hand);
  }

  /** A WIDE commit never harms a trace. */
  lemma WideTrace(commits: seq<Commit>, n: nat, done: bool)
    ensures SafeTrace(commits + [Wide(n, done)]) <==> SafeTrace(commits)
  {
    var after := commits + [Wide(n, done)];
    assert forall i | 0 <= i < |commits| :: after[i] == commits[i];
  }

  /** A SINGLE commit keeps a trace safe exactly when the timeline is past the last submit that
      returned true. */
  lemma SingleTrace(s: Hwc)
    requires Tracks(s)
    ensures SafeTrace(s.commits + [Single(s.signalled)]) <==> SafeTrace(s.commits) && s.done <= s.signalled
  {
    var commits, after := s.commits, s.commits + [Single(s.signalled)];
    assert forall i | 0 <= i < |commits| :: after[i] == commits[i];
    if SafeTrace(after) && s.done > 0 {
      var i :| 0 <= i < |commits| && commits[i] == Wide(s.done - 1, true);
      assert after[i].n < after[|commits|].signalled;
    }
  }

  /** A WIDE submit that returned true is covered by later drains if and only if it could copy its
      completion fence, whatever was lost before: the newest fence covers all earlier submits. */
  lemma WideRoute(s: Hwc, target: Option<Buffer>, fence: int, wanted: bool, env: Env, hand: set<int>)
    requires Accounts(s, hand + FdSet(fence)) && fence !in hand && Tracks(s)
    requires Granted(s, env) && CopyGranted(s, fence, env)
    ensures var (ok, t) := SubmitWide(s, target, fence, wanted, env);
      && Tracks(t) && (ok <==> t.done != s.done) && !IssuesSingle(s, t)
      && (if ok then Covered(t) <==> env.copy >= 0 else Covered(t) <==> Covered(s))
      && (SafeTrace(t.commits) <==> SafeTrace(s.commits))
  {
    hide SubmitWide, SafeTrace;
    var (ok, t) := SubmitWide(s, target, fence, wanted, env);
    InHandIsOwned(s, hand + FdSet(fence));
    DrainIsForeign(s, fence, env, hand);
    WideTimeline(s, target, fence, wanted, env);
    WideDrainObject(s, target, fence, wanted, env);
    WideTrace(s.commits, s.submits, ok);
  }

  lemma DrainIsForeign(s: Hwc, fence: int, env: Env, hand: set<int>)
    requires Accounts(s, hand + FdSet(fence)) && fence !in hand
    requires Granted(s, env) && CopyGranted(s, fence, env)
    ensures s.drain >= 0 ==> s.drain in s.owned && Foreign(s, env, fence, s.drain)
    ensures env.copy >= 0 ==> env.copy !in [env.release, env.retire, s.drain]
  {}

  /** A SINGLE submit on a drained route. */
  lemma SingleRoute(s: Hwc, target: Option<Buffer>, fence: int, wanted: bool, env: Env)
    requires Tracks(s) && !s.active
    ensures Progress(s, SubmitSingle(s, target, fence, wanted, env).1, env.copy >= 0)
  {
    hide SubmitSingle, SafeTrace;
    SingleTimeline(s, target, fence, wanted, env);
    SingleTrace(s);
  }

  lemma EndpointRoute(s: Hwc, wide: bool, e: Endpoint)
    ensures SameRoute(s, WithEndpoint(s, wide, e))
  {}

  lemma CloseRoute(s: Hwc, fd: int)
    requires fd != s.drain || fd < 0
    ensures SameRoute(s, Close(s, fd))
  {}

  lemma PresentRoute(s: Hwc, wide: bool, wanted: bool, env: Env)
    requires Accounts(s, {}) && Tracks(s) && PresentOk(s, wide, env)
    ensures Progress(s, PresentDisplay(s, wide, wanted, env).1, env.copy >= 0)
  {
    hide Accounts, Close, SubmitWide, SubmitSingle, DrainWideRoute, Tracks, SafeTrace, AfterDrain;
    hide Granted, CopyGranted;
    var e := EndpointOf(s, wide);
    var s1 := WithEndpoint(s, wide, e.(fence := -1));
    TakeFence(s, wide, {});
    EndpointRoute(s, wide, e.(fence := -1));
    SameRouteKeeps(s, s1);
    var hand := {} + FdSet(e.fence);
    InHandIsOwned(s1, hand);
    var (drained, s2) := if wide then (true, s1) else DrainWideRoute(s1, env.waitOk);
    if !wide {
      DrainAccounts(s1, env.waitOk, hand);
      DrainRoute(s1, env.waitOk, hand);
    }
    var t := PresentDisplay(s, wide, wanted, env).1;
    if drained && e.target.Some? && Expected(e.target.value, wide) {
      if wide {
        WideRoute(s2, e.target, e.fence, wanted, env, {});
      } else {
        SingleRoute(s2, e.target, e.fence, wanted, env);
      }
    } else {
      DrainNotInHand(s2, e.fence, {});
      CloseRoute(s2, e.fence);
      SameRouteKeeps(s2, Close(s2, e.fence));
      NoProgress(s2, t, env.copy >= 0);
    }
    SameCoverProgress(s, s2, t, env.copy >= 0);
  }

  lemma DrainNotInHand(s: Hwc, fence: int, hand: set<int>)
    requires Accounts(s, hand + FdSet(fence)) && fence !in hand
    ensures fence != s.drain || fence < 0
  {}

  lemma TargetRoute(s: Hwc, wide: bool, target: Option<Buffer>, fence: int, env: Env)
    requires Accounts(s, {}) && Tracks(s) && fence !in s.owned
    ensures SameCover(s, SetClientTarget(s, wide, target, fence, env).1)
  {
    hide Accounts, Close, Gain, DrainWideRoute, Tracks, AfterDrain;
    GainInHand(s, fence, Other, {});
    var s1 := Gain(s, fence, Other);
    var hand := {} + FdSet(fence);
    GainRoute(s, fence, Other);
    SameRouteKeeps(s, s1);
    var (drained, s2) := if wide then (true, s1) else DrainWideRoute(s1, env.waitOk);
    if !wide {
      DrainAccounts(s1, env.waitOk, hand);
      DrainRoute(s1, env.waitOk, hand);
    }
    if drained {
      var replaced := EndpointOf(s2, wide).fence;
      FenceIsNotDrain(s2, wide, hand);
      CloseRoute(s2, replaced);
      EndpointRoute(Close(s2, replaced), wide, Endpoint(target, fence));
      SameRouteKeeps(s2, Close(s2, replaced));
      SameRouteKeeps(Close(s2, replaced), WithEndpoint(Close(s2, replaced), wide, Endpoint(target, fence)));
    } else {
      SameRouteKeeps(s2, s2.(leaked := s2.leaked + if fence >= 0 then {fence} else {}));
    }
  }

  lemma GainRoute(s: Hwc, fd: int, what: Object)
    requires fd !in s.owned
    ensures SameRoute(s, Gain(s, fd, what))
  {}

  lemma FenceIsNotDrain(s: Hwc, wide: bool, hand: set<int>)
    requires Accounts(s, hand)
    ensures EndpointOf(s, wide).fence != s.drain || s.drain < 0
  {}

  // ----- runs -----

  /** The timeline passes only submits that were made. */
  ghost predicate Orderly(s: Hwc, call: Call, env: Env) {
    CallOk(s, call, env) && (call.Signal? ==> call.upTo <= s.submits)
  }

  /** What every step keeps and does: descriptors are accounted for; it makes the progress above, or the
      timeline passes more completions by itself. */
  lemma StepRoute(s: Hwc, call: Call, env: Env)
    requires Accounts(s, {}) && Tracks(s) && Orderly(s, call, env)
    ensures var t := Step(s, call, env);
      && Accounts(t, {}) && Tracks(t)
      && (!call.Signal? ==> Progress(s, t, env.copy >= 0))
      && (call.Signal? ==>
            t.commits == s.commits && t.done == s.done && (Covered(t) <==> Covered(s) || t.done <= t.signalled))
  {
    StepAccounts(s, call, env);
    hide Accounts, SetClientTarget, PresentDisplay, DrainWideRoute, PresentOk, SafeTrace;
    match call
    case Target(wide, target, fence) =>
      TargetRoute(s, wide, target, fence, env);
      NoProgress(s, Step(s, call, env), env.copy >= 0);
    case Present(wide, wanted) => PresentRoute(s, wide, wanted, env);
    case Config(wide, matches) =>
      DrainRoute(s, env.waitOk, {});
      NoProgress(s, Step(s, call, env), env.copy >= 0);
    case Signal(upTo) =>
  }

  ghost predicate RunOk(s: Hwc, steps: seq<(Call, Env)>)
    decreases |steps|
  {
    steps == [] || (Orderly(s, steps[0].0, steps[0].1) && RunOk(Step(s, steps[0].0, steps[0].1), steps[1..]))
  }

  function Run(s: Hwc, steps: seq<(Call, Env)>): Hwc
    decreases |steps|
  {
    if steps == [] then s else Run(Step(s, steps[0].0, steps[0].1), steps[1..])
  }

  /** Whenever a SINGLE commit is issued, a drain covers every submit that returned true. */
  ghost predicate SinglesCovered(s: Hwc, steps: seq<(Call, Env)>)
    decreases |steps|
  {
    steps == []
    || ((IssuesSingle(s, Step(s, steps[0].0, steps[0].1)) ==> Covered(s))
        && SinglesCovered(Step(s, steps[0].0, steps[0].1), steps[1..]))
  }

  lemma {:induction false} RunFrom(s: Hwc, steps: seq<(Call, Env)>)
    requires Accounts(s, {}) && Tracks(s) && RunOk(s, steps)
    ensures Accounts(Run(s, steps), {}) && Tracks(Run(s, steps))
    ensures SafeTrace(Run(s, steps).commits) <==> SafeTrace(s.commits) && SinglesCovered(s, steps)
    decreases |steps|
  {
    hide Accounts, Tracks, SafeTrace, Step, Orderly, Covered;
    if steps != [] {
      StepRoute(s, steps[0].0, steps[0].1);
      RunFrom(Step(s, steps[0].0, steps[0].1), steps[1..]);
    }
  }

  lemma StartTracks()
    ensures Accounts(Start(), {}) && Tracks(Start()) && Covered(Start()) && SafeTrace(Start().commits)
  {}

  /** Over every run from power-up, whatever fails: all SINGLE commits are safe if and only if, each time
      one is issued, the kept fence or the timeline itself covers every submit that returned true. */
  lemma SingleCommitsAreSafeExactly(steps: seq<(Call, Env)>)
    requires RunOk(Start(), steps)
    ensures SafeTrace(Run(Start(), steps).commits) <==> SinglesCovered(Start(), steps)
  {
    hide Run, RunOk, SinglesCovered;
    StartTracks();
    RunFrom(Start(), steps);
  }

  /** In terms of the calls: the last WIDE submit that returned true before each SINGLE commit retained a
      copy of its fence (`kept` says so of the last one before these steps). */
  ghost predicate CopiesKept(s: Hwc, kept: bool, steps: seq<(Call, Env)>)
    decreases |steps|
  {
    steps == []
    || var t := Step(s, steps[0].0, steps[0].1);
       && (IssuesSingle(s, t) ==> kept)
       && CopiesKept(t, if t.done != s.done then steps[0].1.copy >= 0 else kept, steps[1..])
  }

  lemma {:induction false} KeptCopiesCover(s: Hwc, kept: bool, steps: seq<(Call, Env)>)
    requires Accounts(s, {}) && Tracks(s) && RunOk(s, steps)
    requires CopiesKept(s, kept, steps) && (kept ==> Covered(s))
    ensures SinglesCovered(s, steps)
    decreases |steps|
  {
    hide Accounts, Tracks, SafeTrace, Step, Orderly, Covered;
    if steps != [] {
      var t := Step(s, steps[0].0, steps[0].1);
      StepRoute(s, steps[0].0, steps[0].1);
      KeptCopiesCover(t, if t.done != s.done then steps[0].1.copy >= 0 else kept, steps[1..]);
    }
  }

  /** Over every run from power-up in which the last WIDE submit before each SINGLE commit could copy its
      fence (earlier copies may fail): each SINGLE commit is issued after every earlier WIDE submit that
      returned true has completed, and the route is active exactly while there is a drain fence. */
  lemma SingleCommitsAreSafe(steps: seq<(Call, Env)>)
    requires RunOk(Start(), steps) && CopiesKept(Start(), true, steps)
    ensures SafeTrace(Run(Start(), steps).commits)
    ensures Run(Start(), steps).active <==> Run(Start(), steps).drain >= 0
  {
    hide Run, RunOk, SinglesCovered, CopiesKept;
    StartTracks();
    KeptCopiesCover(Start(), true, steps);
    RunFrom(Start(), steps);
  }

  lemma {:induction false} AllCopiesKept(s: Hwc, steps: seq<(Call, Env)>)
    requires forall k | 0 <= k < |steps| :: steps[k].1.copy >= 0
    ensures CopiesKept(s, true, steps)
    decreases |steps|
  {
    hide Step;
    if steps != [] {
      AllCopiesKept(Step(s, steps[0].0, steps[0].1), steps[1..]);
    }
  }

  /** In particular: over every run in which no copy fails, every SINGLE commit is safe. */
  lemma SafeWhenNoCopyFails(steps: seq<(Call, Env)>)
    requires RunOk(Start(), steps) && forall k | 0 <= k < |steps| :: steps[k].1.copy >= 0
    ensures SafeTrace(Run(Start(), steps).commits)
  {
    hide Run, RunOk, CopiesKept, SafeTrace;
    AllCopiesKept(Start(), steps);
    SingleCommitsAreSafe(steps);
  }

  lemma {:induction false} AccountsFrom(s: Hwc, steps: seq<(Call, Env)>)
    requires Accounts(s, {}) && RunOk(s, steps)
    ensures Accounts(Run(s, steps), {})
    decreases |steps|
  {
    hide Accounts, Step, CallOk;
    if steps != [] {
      StepAccounts(s, steps[0].0, steps[0].1);
      AccountsFrom(Step(s, steps[0].0, steps[0].1), steps[1..]);
    }
  }

  /** Descriptors are accounted for whatever fails, so closing the device afterwards leaves only leaks. */
  lemma DescriptorsAreConserved(steps: seq<(Call, Env)>)
    requires RunOk(Start(), steps)
    ensures Accounts(Run(Start(), steps), {})
    ensures HwcClose(Run(Start(), steps)).owned.Keys == Run(Start(), steps).leaked
    ensures HwcClose(Run(Start(), steps)).badCloses == 0
  {
    hide Run, RunOk, HwcClose;
    AccountsFrom(Start(), steps);
    CloseReleasesAll(Run(Start(), steps));
  }

  // ----- a lost completion fence -----

  const WIDE_BUFFER: Buffer := Buffer(true, ZOOM_WIDTH, ZOOM_HEIGHT, ZOOM_WIDTH, true, true, true)
  const SMALL_BUFFER: Buffer := Buffer(true, SEC_WIDTH, SEC_HEIGHT, SEC_WIDTH, true, true, true)

  /** A WIDE frame whose fence copy fails, then a Small frame: all calls succeed. */
  function LossySteps(): seq<(Call, Env)> {
    var quiet := Env(true, -1, true, -1, -1, -1);
    [(Target(true, Some(WIDE_BUFFER), -1), quiet),
     (Present(true, false), Env(true, 3, true, 4, 5, -1)),
     (Target(false, Some(SMALL_BUFFER), -1), quiet),
     (Present(false, false), Env(true, -1, true, 6, 7, -1))]
  }

  const AFTER_WIDE: Hwc :=
    Hwc(Endpoint(None, -1), Endpoint(Some(WIDE_BUFFER), -1), 3, false, -1, map[3 := Other], {}, 0, [],
        1, 1, 0, [Wide(0, true)])

  lemma WideFrameIsSubmitted()
    ensures var s1 := Step(Start(), LossySteps()[0].0, LossySteps()[0].1);
      Step(s1, LossySteps()[1].0, LossySteps()[1].1) == AFTER_WIDE
      && Orderly(Start(), LossySteps()[0].0, LossySteps()[0].1) && Orderly(s1, LossySteps()[1].0, LossySteps()[1].1)
  {
    var s1 := Step(Start(), LossySteps()[0].0, LossySteps()[0].1);
    assert s1 == Start().(wide := Endpoint(Some(WIDE_BUFFER), -1));
    var t := Step(s1, LossySteps()[1].0, LossySteps()[1].1);
    assert t.owned == map[3 := Other];
  }

  lemma SmallFrameFollows()
    ensures var s3 := Step(AFTER_WIDE, LossySteps()[2].0, LossySteps()[2].1);
      Orderly(AFTER_WIDE, LossySteps()[2].0, LossySteps()[2].1) && Orderly(s3, LossySteps()[3].0, LossySteps()[3].1)
      && Step(s3, LossySteps()[3].0, LossySteps()[3].1).commits == [Wide(0, true), Single(0)]
  {
    var s3 := Step(AFTER_WIDE, LossySteps()[2].0, LossySteps()[2].1);
    assert s3 == AFTER_WIDE.(small := Endpoint(Some(SMALL_BUFFER), -1));
  }

  /** So the copies matter: without one, a SINGLE commit is issued while a WIDE submit that returned true
      has not completed. */
  lemma LostFenceIsUnsafe()
    ensures RunOk(Start(), LossySteps()) && !SafeTrace(Run(Start(), LossySteps()).commits)
  {
    WideFrameIsSubmitted();
    SmallFrameFollows();
    hide Step, Orderly;
    var steps := LossySteps();
    var s1 := Step(Start(), steps[0].0, steps[0].1);
    var s3 := Step(AFTER_WIDE, steps[2].0, steps[2].1);
    var s4 := Step(s3, steps[3].0, steps[3].1);
    assert steps[1..][1..] == steps[2..] && steps[2..][1..] == steps[3..] && steps[3..][1..] == [];
    assert RunOk(s4, []) && Run(s4, []) == s4;
    assert RunOk(s3, steps[3..]) && Run(s3, steps[3..]) == s4;
    assert RunOk(AFTER_WIDE, steps[2..]) && Run(AFTER_WIDE, steps[2..]) == s4;
    assert RunOk(s1, steps[1..]) && Run(s1, steps[1..]) == s4;
    assert s4.commits[0] == Wide(0, true) && s4.commits[1] == Single(0);
  }
}
