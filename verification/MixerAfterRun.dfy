/** The mixer controls after any run of the router: the calls of audio/qcom/hal/audio_hw.c meet the
    engine of audio/audioroute_probe/audio_route.c. */
module MixerAfterRun {
  import opened Common
  import opened SoundRouting
  import opened UsecaseRouting
  import RouterRuns
  import opened RouteBalance
  import opened RouteHistory
  import M = MixerRoute
  import A = AudioRoute

  // ----- calls by name, events by path -----

  /** The open applications of a path of the table are those of its name. */
  lemma {:induction false} OpenIsBalance(paths: seq<M.Path>, calls: seq<MixerCall>, k: nat)
    requires A.NamesDiffer(paths) && k < |paths|
    ensures M.Open(A.Events(paths, calls), paths[k]) == Balance(calls, paths[k].name)
  {
    if calls != [] {
      var init, call := calls[..|calls| - 1], calls[|calls| - 1];
      OpenIsBalance(paths, init, k);
      var j := A.FindPath(paths, call.name);
      var es := A.Events(paths, init);
      if j >= 0 {
        var e := if call.apply then M.Apply(paths[j]) else M.Reset(paths[j]);
        assert (es + [e])[..|es|] == es;
        assert paths[j] == paths[k] <==> call.name == paths[k].name;
      } else {
        assert es + [] == es;
      }
    }
  }

  lemma {:induction false} OpenOfOthers(paths: seq<M.Path>, calls: seq<MixerCall>, path: M.Path)
    requires path !in paths
    ensures M.Open(A.Events(paths, calls), path) == 0
  {
    if calls != [] {
      var init, call := calls[..|calls| - 1], calls[|calls| - 1];
      OpenOfOthers(paths, init, path);
      var j := A.FindPath(paths, call.name);
      var es := A.Events(paths, init);
      if j >= 0 {
        var e := if call.apply then M.Apply(paths[j]) else M.Reset(paths[j]);
        assert (es + [e])[..|es|] == es;
      } else {
        assert es + [] == es;
      }
    }
  }

  lemma OpenIsNotNegative(paths: seq<M.Path>, calls: seq<MixerCall>)
    requires A.NamesDiffer(paths) && Bracketed(calls)
    ensures forall path :: M.Open(A.Events(paths, calls), path) >= 0
  {
    forall path ensures M.Open(A.Events(paths, calls), path) >= 0 {
      if path in paths {
        var k :| 0 <= k < |paths| && paths[k] == path;
        OpenIsBalance(paths, calls, k);
        BracketedWhole(calls, path.name);
      } else {
        OpenOfOthers(paths, calls, path);
      }
    }
  }

  /** Bracketed calls make a bracketed run of the engine. */
  lemma {:induction false} EventsAreBracketed(paths: seq<M.Path>, calls: seq<MixerCall>)
    requires A.NamesDiffer(paths) && Bracketed(calls)
    ensures M.Bracketed(A.Events(paths, calls))
  {
    if calls != [] {
      var init := calls[..|calls| - 1];
      BrokenStays(init, calls);
      EventsAreBracketed(paths, init);
      OpenIsNotNegative(paths, calls);
      var es, all := A.Events(paths, init), A.Events(paths, calls);
      assert all == es || (|all| == |es| + 1 && all[..|es|] == es);
      forall n | 0 <= n <= |all| ensures forall path :: M.Open(all[..n], path) >= 0 {
        if n == |all| {
          assert all[..n] == all;
        } else {
          assert all[..n] == es[..n];
        }
      }
    }
  }

  // ----- the controls -----

  /** What the router has open over the paths of the table that hold the control. */
  function Holding(p: Platform, st: Router, paths: seq<M.Path>, ctl: nat): nat
    requires |st.refs| == p.max
  {
    if paths == [] then 0
    else (if M.Touches(paths[0], ctl) then On(p, st, -1, paths[0].name) else 0) + Holding(p, st, paths[1..], ctl)
  }

  /** What is open of those paths beside that: opened by selections that named no device. */
  function LeftOpen(p: Platform, st: Router, paths: seq<M.Path>, ctl: nat): int
    requires |st.refs| == p.max
  {
    if paths == [] then 0
    else
      (if M.Touches(paths[0], ctl) then Balance(st.calls, paths[0].name) - On(p, st, -1, paths[0].name) else 0)
      + LeftOpen(p, st, paths[1..], ctl)
  }

  lemma {:induction false} OpenTotalIsHolding(p: Platform, st: Router, paths: seq<M.Path>, some: seq<M.Path>, ctl: nat,
                                              exact: bool)
    requires A.NamesDiffer(paths) && Mirror(p, st, -1, exact) && forall k | 0 <= k < |some| :: some[k] in paths
    ensures M.OpenTotal(A.Events(paths, st.calls), some, ctl)
         == Holding(p, st, some, ctl) + LeftOpen(p, st, some, ctl)
    ensures LeftOpen(p, st, some, ctl) >= 0 && (exact ==> LeftOpen(p, st, some, ctl) == 0)
    decreases |some|
  {
    hide Balance, On, Bracketed;
    if some != [] {
      var k :| 0 <= k < |paths| && paths[k] == some[0];
      OpenIsBalance(paths, st.calls, k);
      OpenTotalIsHolding(p, st, paths, some[1..], ctl, exact);
    }
  }

  /** The state the run of the engine starts from: what initialization leaves. */
  ghost predicate Fresh(cs: seq<M.Control>, paths: seq<M.Path>) {
    && A.NamesDiffer(paths)
    && (forall k | 0 <= k < |paths| :: M.PathFits(paths[k], cs))
    && forall i | 0 <= i < |cs| ::
         M.WellFormed(cs[i]) && M.Settled(cs[i]) && cs[i].active == 0 && cs[i].wanted == cs[i].saved
  }

  /** After any clean run of the router, each supported control is settled, its count is the number of
      enabled devices and routed use cases whose paths hold it (and of paths that selections without a
      device have left open, if there were any), and it is at its saved values if there are none, at those
      of the latest application otherwise. */
  lemma MixerFollowsRouter(p: Platform, ops: seq<Op>, cs: seq<M.Control>, paths: seq<M.Path>, i: nat)
    requires RouterRuns.NeverFails(p) && NamesApart(p) && Fresh(cs, paths) && i < |cs|
    requires RouterRuns.RunOk(p, Initial(p), ops) && RunClean(p, Initial(p), ops)
    requires M.CountsFit(A.Events(paths, Run(p, Initial(p), ops).calls), i)
    ensures var st := Run(p, Initial(p), ops);
      var es := A.Events(paths, st.calls);
      && M.RunFits(es, i, cs[i])
      && var c, left := M.Run(cs[i], i, es), LeftOpen(p, st, paths, i);
      && M.Settled(c) && c.active == Holding(p, st, paths, i) + left
      && left >= 0 && (RunNamed(ops) ==> left == 0)
      && (c.active == 0 ==> c.wanted == cs[i].saved)
      && (c.active > 0 ==> M.LastApplied(es, i) == Some(c.wanted))
  {
    hide Run, RunClean, RouterRuns.RunOk, PlatformOk, NamesApart, Mirror, RunNamed, M.Run, M.Settled, M.CountsFit;
    var st := Run(p, Initial(p), ops);
    HistoryIsBracketedExactly(p, ops);
    HasCounts(p, st, -1, RunNamed(ops));
    EventsAreBracketed(paths, st.calls);
    A.EventsFit(paths, st.calls, cs, i);
    A.PathsDoNotRepeat(paths);
    OpenTotalIsHolding(p, st, paths, paths, i, RunNamed(ops));
    M.RunInvariant(cs[i], i, A.Events(paths, st.calls), paths);
  }

  lemma {:induction false} NothingHolds(p: Platform, st: Router, paths: seq<M.Path>, ctl: nat)
    requires |st.refs| == p.max && st.ucs == [] && st.refs == Initial(p).refs
    ensures Holding(p, st, paths, ctl) == 0
  {
    if paths != [] {
      NothingOn(p, paths[0].name, p.max);
      NothingHolds(p, st, paths[1..], ctl);
    }
  }

  /** When the last use case has stopped, a supported control is unused and back at its initial values
      exactly when no selection without a device has left a path open that holds it; so all are if the
      platform has named a device in every selection. */
  lemma SilenceRestoresTheMixer(p: Platform, ops: seq<Op>, cs: seq<M.Control>, paths: seq<M.Path>, i: nat)
    requires RouterRuns.NeverFails(p) && NamesApart(p) && Fresh(cs, paths) && i < |cs|
    requires RouterRuns.RunOk(p, Initial(p), ops) && RunClean(p, Initial(p), ops) && Run(p, Initial(p), ops).ucs == []
    requires M.CountsFit(A.Events(paths, Run(p, Initial(p), ops).calls), i)
    ensures var st := Run(p, Initial(p), ops);
      var es := A.Events(paths, st.calls);
      && M.RunFits(es, i, cs[i])
      && var c, left := M.Run(cs[i], i, es), LeftOpen(p, st, paths, i);
      && (c.active == 0 <==> left == 0) && (RunNamed(ops) ==> left == 0)
      && (left == 0 && c.kind != M.Unsupported ==> c.last == cs[i].last && M.HwAgrees(c))
  {
    hide Run, RunClean, RouterRuns.RunOk, PlatformOk, NamesApart, RunNamed, M.Run, M.RunFits, M.CountsFit, Holding;
    hide A.Events, M.LastApplied, A.NamesDiffer, M.PathFits, LeftOpen;
    var st := Run(p, Initial(p), ops);
    MixerFollowsRouter(p, ops, cs, paths, i);
    RouterRuns.EmptyListAllZero(p, ops);
    NothingHolds(p, st, paths, i);
  }
}
