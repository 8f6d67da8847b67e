/** Use cases that share a backend are on the same device after a completed playback re-route
    (audio/qcom/hal/audio_hw.c:1064-1228). */
module BackendAgreement {
  import opened SoundRouting
  import opened UsecaseRouting

  /** Backend comparison is symmetric and fails on SND_DEVICE_NONE.  It need not be transitive. */
  ghost predicate BackendsOk(p: Platform) {
    && (forall a: Device, b: Device :: p.sameBackend(a, b) == p.sameBackend(b, a))
    && (forall a: Device :: !p.sameBackend(a, NONE))
  }

  predicate Agree(p: Platform, a: Device, b: Device) {
    a == b || !p.sameBackend(a, b)
  }

  /** What the re-route is for: all codec and USB playback use cases agree pairwise. */
  ghost predicate AllAgree(p: Platform, ucs: seq<Usecase>) {
    forall j, k | 0 <= j < |ucs| && 0 <= k < |ucs| && Eligible(p, ucs[j]) && Eligible(p, ucs[k]) ::
      Agree(p, ucs[j].out, ucs[k].out)
  }

  ghost predicate AllAgreeBut(p: Platform, ucs: seq<Usecase>, id: nat) {
    forall j, k | 0 <= j < |ucs| && 0 <= k < |ucs| && ucs[j].id != id && ucs[k].id != id
                  && Eligible(p, ucs[j]) && Eligible(p, ucs[k]) ::
      Agree(p, ucs[j].out, ucs[k].out)
  }

  predicate EqualOrDisjoint(a: Mask, b: Mask) {
    a == b || a * b == {}
  }

  /** The one way a moved use case ends up beside the new device: overlapping but different masks,
      and halves of the combo device that do not share a backend. */
  predicate SplitKeepsApart(p: Platform, u: Usecase, uc: Usecase, d: Device) {
    && u.stream != uc.stream && u.stream * uc.stream != {}
    && var halves := p.parts(if |u.stream| > 1 then u.out else d);
       |halves| >= 2 && !p.sameBackend(halves[0], halves[1])
  }

  /** One use case after the re-route to `d` agrees with `d` unless it already shared the backend of
      `d` on another device and the split keeps it there; and that is the only exception. */
  lemma AgreesExactly(p: Platform, ucs: seq<Usecase>, uc: Usecase, d: Device, force: bool, k: nat)
    requires BackendsOk(p) && k < |ucs| && ucs[k].id != uc.id && Eligible(p, ucs[k])
    ensures Agree(p, Moved(ucs, PlaybackPlan(p, ucs, uc, d, force), Out)[k].out, d)
       <==> (Agree(p, ucs[k].out, d) || !SplitKeepsApart(p, ucs[k], uc, d))
  {
    var u := ucs[k];
    assert p.sameBackend(u.out, d) == p.sameBackend(d, u.out);
  }

  /** A re-route never puts a use case on a third device. */
  lemma MovesToTheNewDeviceOrStays(p: Platform, ucs: seq<Usecase>, uc: Usecase, d: Device, force: bool, k: nat)
    requires k < |ucs|
    ensures var out := Moved(ucs, PlaybackPlan(p, ucs, uc, d, force), Out)[k].out; out == d || out == ucs[k].out
  {}

  ghost predicate OnlyOutputsDiffer(a: seq<Usecase>, b: seq<Usecase>) {
    |a| == |b| && forall j | 0 <= j < |a| :: b[j] == a[j].(out := b[j].out, in_ := b[j].in_)
  }

  predicate Routed(p: Platform, uc: Usecase, out: Device) {
    out != NONE && uc.devices * (p.codecBackend + p.usb + p.a2dp) != {}
  }

  function AfterRoute(p: Platform, ucs: seq<Usecase>, uc: Usecase, out: Device, force: bool): (r: seq<Usecase>)
    ensures OnlyOutputsDiffer(ucs, r)
  {
    if Routed(p, uc, out) then Moved(ucs, PlaybackPlan(p, ucs, uc, out, force), Out) else ucs
  }

  lemma InputsKeepOutputs(p: Platform, st: Router, uc: Usecase, in_: Device)
    requires PlatformOk(p) && |st.refs| == p.max
    ensures var r := SwitchIn(p, st, uc, in_).ucs;
      OnlyOutputsDiffer(st.ucs, r) && forall j | 0 <= j < |r| :: r[j].out == st.ucs[j].out
  {
    hide Enable, EnableAll, DisableAll, MovesIn;
  }

  /** The whole switch, in terms of output devices. */
  lemma SwitchOutputs(p: Platform, st: Router, k: nat, out: Device, in_: Device, forceRouting: bool)
    requires PlatformOk(p) && |st.refs| == p.max && k < |st.ucs|
    ensures var r, uc := Switch(p, st, k, out, in_, forceRouting).ucs, st.ucs[k];
      && OnlyOutputsDiffer(st.ucs, r) && r[k].out == out
      && forall j | 0 <= j < |r| && j != k :: r[j].out == AfterRoute(p, st.ucs, uc, out, forceRouting)[j].out
  {
    hide Enable, Disable, EnableAll, DisableAll, Moved, PlaybackPlan, SwitchIn, Eligible;
    var uc := st.ucs[k];
    var freed := Freed(p, st, uc);
    assert SwitchOut(p, freed, uc, out, forceRouting).ucs == AfterRoute(p, st.ucs, uc, out, forceRouting);
    InputsKeepOutputs(p, SwitchOut(p, freed, uc, out, forceRouting), uc, in_);
  }

  /** No other use case is kept beside the new device by the split rule. */
  ghost predicate NoneKeptApart(p: Platform, ucs: seq<Usecase>, k: nat, out: Device)
    requires k < |ucs|
  {
    forall j | 0 <= j < |ucs| && j != k && Eligible(p, ucs[j]) ::
      Agree(p, ucs[j].out, out) || !SplitKeepsApart(p, ucs[j], ucs[k], out)
  }

  /** A use case that is on the new device already, or that the re-route moves there. */
  predicate Joins(p: Platform, u: Usecase, uc: Usecase, out: Device, force: bool) {
    u.out == out || (MovesOut(p, u, uc, out, force) && Derive(p, u, uc, out) == out)
  }

  ghost predicate SomebodyJoins(p: Platform, ucs: seq<Usecase>, k: nat, out: Device, force: bool)
    requires k < |ucs|
  {
    exists j | 0 <= j < |ucs| && j != k :: Eligible(p, ucs[j]) && Joins(p, ucs[j], ucs[k], out, force)
  }

  lemma JoinsExactly(p: Platform, ucs: seq<Usecase>, k: nat, j: nat, out: Device, force: bool)
    requires k < |ucs| && j < |ucs| && Routed(p, ucs[k], out)
    ensures AfterRoute(p, ucs, ucs[k], out, force)[j].out == out <==> Joins(p, ucs[j], ucs[k], out, force)
  {}

  /** A completed switch to `out` leaves all codec and USB use cases in agreement if and only if it
      routes nobody, or the split rule keeps nobody apart, or nobody of them is on the new device:
      neither the use case in flight (which may be an A2DP-only one) nor another one that joins. */
  lemma SwitchAgreesExactly(p: Platform, st: Router, k: nat, out: Device, in_: Device, forceRouting: bool)
    requires PlatformOk(p) && BackendsOk(p) && |st.refs| == p.max && k < |st.ucs|
    requires Unique(st.ucs)
    requires AllAgreeBut(p, st.ucs, st.ucs[k].id)
    ensures AllAgree(p, Switch(p, st, k, out, in_, forceRouting).ucs) <==>
      || !Routed(p, st.ucs[k], out)
      || NoneKeptApart(p, st.ucs, k, out)
      || (!Eligible(p, st.ucs[k]) && !SomebodyJoins(p, st.ucs, k, out, forceRouting))
  {
    hide Switch, PlaybackPlan, Moved, SplitKeepsApart, AfterRoute, Joins;
    var uc, r := st.ucs[k], Switch(p, st, k, out, in_, forceRouting).ucs;
    SwitchOutputs(p, st, k, out, in_, forceRouting);
    var routed := Routed(p, uc, out);
    forall j | 0 <= j < |r| && j != k && Eligible(p, r[j])
      ensures Eligible(p, st.ucs[j]) && OutcomeOf(p, st.ucs[j], uc, out, r[j].out, routed)
    {
      OthersOutcome(p, st.ucs, k, j, out, forceRouting);
    }
    if !routed || NoneKeptApart(p, st.ucs, k, out) {
      forall i, j | 0 <= i < |r| && 0 <= j < |r| && Eligible(p, r[i]) && Eligible(p, r[j])
        ensures Agree(p, r[i].out, r[j].out)
      {
        PairAgrees(p, st.ucs, r, k, out, i, j, routed);
      }
    } else if Eligible(p, uc) {
      KeptApartDisagrees(p, st.ucs, r, k, k, out);
    } else if SomebodyJoins(p, st.ucs, k, out, forceRouting) {
      var i :| 0 <= i < |st.ucs| && i != k && Eligible(p, st.ucs[i])
               && Joins(p, st.ucs[i], uc, out, forceRouting);
      JoinsExactly(p, st.ucs, k, i, out, forceRouting);
      assert r[i].out == out;
      KeptApartDisagrees(p, st.ucs, r, k, i, out);
    } else {
      forall i, j | 0 <= i < |r| && 0 <= j < |r| && Eligible(p, r[i]) && Eligible(p, r[j])
        ensures Agree(p, r[i].out, r[j].out)
      {
        NobodyMoved(p, st, r, k, out, forceRouting, i);
        NobodyMoved(p, st, r, k, out, forceRouting, j);
        assert st.ucs[i].id != uc.id && st.ucs[j].id != uc.id;
        assert Agree(p, st.ucs[i].out, st.ucs[j].out);
      }
    }
  }

  /** What may have become of another eligible use case: unmoved or on the new device, and apart from
      it only where the split rule says so. */
  predicate OutcomeOf(p: Platform, u: Usecase, uc: Usecase, out: Device, after: Device, routed: bool) {
    if routed then
      (after == out || after == u.out)
      && (Agree(p, after, out) <==> (Agree(p, u.out, out) || !SplitKeepsApart(p, u, uc, out)))
    else after == u.out
  }

  lemma OthersOutcome(p: Platform, ucs: seq<Usecase>, k: nat, j: nat, out: Device, force: bool)
    requires BackendsOk(p) && k < |ucs| && j < |ucs| && ucs[j].id != ucs[k].id && Eligible(p, ucs[j])
    ensures OutcomeOf(p, ucs[j], ucs[k], out, AfterRoute(p, ucs, ucs[k], out, force)[j].out, Routed(p, ucs[k], out))
  {
    hide SplitKeepsApart, Moved, PlaybackPlan;
    AgreesExactly(p, ucs, ucs[k], out, force, j);
    MovesToTheNewDeviceOrStays(p, ucs, ucs[k], out, force, j);
  }

  lemma NobodyMoved(p: Platform, st: Router, after: seq<Usecase>, k: nat, out: Device, force: bool, i: nat)
    requires k < |st.ucs| && OnlyOutputsDiffer(st.ucs, after) && i < |after| && Eligible(p, after[i])
    requires !Eligible(p, st.ucs[k]) && !SomebodyJoins(p, st.ucs, k, out, force) && Routed(p, st.ucs[k], out)
    requires i != k ==> after[i].out == AfterRoute(p, st.ucs, st.ucs[k], out, force)[i].out
    requires i != k ==> after[i].out == out || after[i].out == st.ucs[i].out
    ensures i != k && Eligible(p, st.ucs[i]) && after[i].out == st.ucs[i].out
  {
    hide AfterRoute, Joins, Routed;
    assert Eligible(p, after[i]) == Eligible(p, st.ucs[i]);
    if i != k {
      JoinsExactly(p, st.ucs, k, i, out, force);
    }
  }

  /** One use case kept apart disagrees with any that is on the new device. */
  lemma KeptApartDisagrees(p: Platform, before: seq<Usecase>, after: seq<Usecase>, k: nat, i: nat, out: Device)
    requires k < |before| && OnlyOutputsDiffer(before, after)
    requires i < |after| && after[i].out == out && Eligible(p, before[i])
    requires !NoneKeptApart(p, before, k, out)
    requires forall j | 0 <= j < |after| && j != k && Eligible(p, after[j]) ::
      OutcomeOf(p, before[j], before[k], out, after[j].out, true)
    ensures !AllAgree(p, after)
  {
    hide SplitKeepsApart;
    var j :| 0 <= j < |before| && j != k && Eligible(p, before[j])
             && !(Agree(p, before[j].out, out) || !SplitKeepsApart(p, before[j], before[k], out));
    assert Eligible(p, after[j]) && Eligible(p, after[i]);
    assert !Agree(p, after[j].out, after[i].out);
  }

  /** When masks are pairwise equal or disjoint, a completed switch brings the use case in flight into
      agreement with all others and keeps every other pair in agreement. */
  lemma SwitchAgrees(p: Platform, st: Router, k: nat, out: Device, in_: Device, forceRouting: bool)
    requires PlatformOk(p) && BackendsOk(p) && |st.refs| == p.max && k < |st.ucs|
    requires Unique(st.ucs)
    requires forall j | 0 <= j < |st.ucs| && Eligible(p, st.ucs[j]) ::
      EqualOrDisjoint(st.ucs[j].stream, st.ucs[k].stream)
    requires AllAgreeBut(p, st.ucs, st.ucs[k].id)
    ensures AllAgree(p, Switch(p, st, k, out, in_, forceRouting).ucs)
  {
    hide Switch;
    SwitchAgreesExactly(p, st, k, out, in_, forceRouting);
  }

  lemma PairAgrees(p: Platform, before: seq<Usecase>, after: seq<Usecase>, k: nat, out: Device, i: nat, j: nat,
                   routed: bool)
    requires BackendsOk(p) && k < |before| == |after| && i < |after| && j < |after|
    requires Unique(before)
    requires AllAgreeBut(p, before, before[k].id) && after[k].out == out
    requires forall n | n in [i, j] && n != k ::
      (Eligible(p, before[n]) && (after[n].out == before[n].out || (routed && after[n].out == out))
       && (routed ==> Agree(p, after[n].out, out)))
    requires out == NONE || routed || (i != k && j != k)
    ensures Agree(p, after[i].out, after[j].out)
  {
    assert i in [i, j] && j in [i, j];
    if i != k && j != k {
      assert before[i].id != before[k].id && before[j].id != before[k].id;
      assert Agree(p, before[i].out, before[j].out);
    }
  }

  /** Overlapping masks: media on the combo of speaker and headset, a new stream on the speaker. */
  function TwoHalves(): Platform {
    Platform(4, d => if d == 3 then [1, 2] else [], d => true,
             (a, b) => a != 0 && b != 0 && (a == b || a == 3 || b == 3),
             {0, 1}, {}, {}, {}, d => false, d => if 0 < d < 4 then d else 1, {}, 1, 0,
             d => "device", (id, d) => "route")
  }

  const MEDIA: Usecase := Usecase(1, Playback, 3, 0, {0, 1}, {0, 1})
  const VOICE: Usecase := Usecase(2, Playback, 0, 0, {0}, {0})

  lemma MediaKeptApart()
    ensures Eligible(TwoHalves(), MEDIA) && Eligible(TwoHalves(), VOICE)
    ensures SplitKeepsApart(TwoHalves(), MEDIA, VOICE, 1) && !Agree(TwoHalves(), MEDIA.out, 1)
  {
    assert 0 in MEDIA.devices * (TwoHalves().codecBackend + TwoHalves().usb);
    assert 0 in VOICE.devices * (TwoHalves().codecBackend + TwoHalves().usb);
    assert 0 in MEDIA.stream * VOICE.stream && 1 in MEDIA.stream && 1 !in VOICE.stream;
    assert |MEDIA.stream| > 1 by { assert MEDIA.stream == {0} + {1}; }
  }

  lemma TwoHalvesOk()
    ensures PlatformOk(TwoHalves()) && BackendsOk(TwoHalves()) && TwoHalves().max == 4
  {}

  /** The exception is real: the two use cases end up on different devices of one backend. */
  lemma OverlapBreaksAgreement()
    ensures PlatformOk(TwoHalves()) && BackendsOk(TwoHalves()) && TwoHalves().max == 4
    ensures AllAgree(TwoHalves(), [MEDIA, VOICE])
    ensures !AllAgree(TwoHalves(), Switch(TwoHalves(), Router([0, 1, 1, 1], [MEDIA, VOICE], []), 1, 1, 0, false).ucs)
  {
    hide Switch, TwoHalves, SplitKeepsApart, Eligible;
    TwoHalvesOk();
    MediaKeptApart();
    var st := Router([0, 1, 1, 1], [MEDIA, VOICE], []);
    assert !NoneKeptApart(TwoHalves(), st.ucs, 1, 1) by { assert Eligible(TwoHalves(), st.ucs[0]); }
    SwitchAgreesExactly(TwoHalves(), st, 1, 1, 0, false);
  }
}
