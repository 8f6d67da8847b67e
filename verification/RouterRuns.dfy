/** Device reference counts over every run of starts, re-routes and stops
    (audio/qcom/hal/audio_hw.c). */
module RouterRuns {
  import opened Common
  import opened SoundRouting
  import opened UsecaseRouting

  // ----- holders -----

  /** The devices use cases hold, leaving out the use case of one id (the one in flight). */
  function HoldersBut(ucs: seq<Usecase>, id: int): seq<Device> {
    if ucs == [] then []
    else (if ucs[0].id == id then [] else [ucs[0].out, ucs[0].in_]) + HoldersBut(ucs[1..], id)
  }

  function Holders(ucs: seq<Usecase>): seq<Device> {
    HoldersBut(ucs, -1)
  }

  predicate Known(p: Platform, d: Device) {
    d == NONE || Real(p, d)
  }

  ghost predicate UsecaseOk(p: Platform, u: Usecase) {
    && Known(p, u.out) && Known(p, u.in_)
    && (u.kind == Playback ==> u.in_ == NONE)
    && (u.kind == Capture ==> u.out == NONE && u.id !in p.uplinks)
  }

  ghost predicate ListOk(p: Platform, ucs: seq<Usecase>) {
    && (forall k | 0 <= k < |ucs| :: UsecaseOk(p, ucs[k]))
    && Unique(ucs)
  }

  /** The state between calls. */
  ghost predicate Inv(p: Platform, st: Router) {
    ListOk(p, st.ucs) && Conserved(p, st.refs, Holders(st.ucs))
  }

  lemma InvHasCounts(p: Platform, st: Router)
    requires Inv(p, st)
    ensures |st.refs| == p.max
  {}

  ghost predicate NeverFails(p: Platform) {
    PlatformOk(p) && forall d: Device | Real(p, d) :: p.starts(d)
  }

  /** Two lists hold each real device equally often. */
  ghost predicate SameCounts(p: Platform, a: seq<Device>, b: seq<Device>) {
    forall d: Device | Real(p, d) :: Times(a, d) == Times(b, d)
  }

  lemma ConservedOfSame(p: Platform, refs: seq<nat>, a: seq<Device>, b: seq<Device>)
    requires Conserved(p, refs, a) && SameCounts(p, a, b)
    ensures Conserved(p, refs, b)
  {}

  // ----- enabling and disabling lists of devices -----

  lemma EnableOne(p: Platform, refs: seq<nat>, d: Device, h: seq<Device>)
    requires NeverFails(p) && Known(p, d) && Conserved(p, refs, h)
    ensures Conserved(p, Enable(p, refs, d), [d] + h)
  {
    forall x: Device ensures Times([d] + h, x) == Times(h, x) + if x == d then 1 else 0 {
      assert ([d] + h)[1..] == h;
    }
    if d != NONE {
      EnableConserves(p, refs, h, d, [d] + h);
    } else {
      ConservedOfSame(p, refs, h, [d] + h);
    }
  }

  lemma DisableOne(p: Platform, refs: seq<nat>, d: Device, h: seq<Device>)
    requires PlatformOk(p) && Known(p, d) && Conserved(p, refs, [d] + h)
    ensures Conserved(p, Disable(p, refs, d), h)
  {
    forall x: Device ensures Times([d] + h, x) == Times(h, x) + if x == d then 1 else 0 {
      assert ([d] + h)[1..] == h;
    }
    if d != NONE {
      DisableConserves(p, refs, h, d, [d] + h);
    } else {
      ConservedOfSame(p, refs, [d] + h, h);
    }
  }

  lemma {:induction false} EnableList(p: Platform, refs: seq<nat>, ds: seq<Device>, h: seq<Device>)
    requires NeverFails(p) && Conserved(p, refs, h) && forall k | 0 <= k < |ds| :: Known(p, ds[k])
    ensures Conserved(p, EnableAll(p, refs, ds), ds + h)
    decreases |ds|
  {
    if ds == [] {
      assert ds + h == h;
    } else {
      EnableOne(p, refs, ds[0], h);
      EnableList(p, Enable(p, refs, ds[0]), ds[1..], [ds[0]] + h);
      forall x: Device ensures Times(ds[1..] + ([ds[0]] + h), x) == Times(ds + h, x) {
        TimesAppend(ds[1..], [ds[0]] + h, x);
        TimesAppend([ds[0]], h, x);
        TimesAppend(ds, h, x);
        assert [ds[0]][1..] == [];
      }
      ConservedOfSame(p, EnableAll(p, refs, ds), ds[1..] + ([ds[0]] + h), ds + h);
    }
  }

  lemma {:induction false} DisableList(p: Platform, refs: seq<nat>, ds: seq<Device>, h: seq<Device>)
    requires PlatformOk(p) && Conserved(p, refs, ds + h) && forall k | 0 <= k < |ds| :: Known(p, ds[k])
    ensures Conserved(p, DisableAll(p, refs, ds), h)
    decreases |ds|
  {
    if ds == [] {
      assert ds + h == h;
    } else {
      assert ds + h == [ds[0]] + (ds[1..] + h);
      DisableOne(p, refs, ds[0], ds[1..] + h);
      DisableList(p, Disable(p, refs, ds[0]), ds[1..], h);
    }
  }

  // ----- moving use cases -----

  /** Devices that stay held while the moved use cases let go of theirs. */
  function Kept(ucs: seq<Usecase>, plan: Plan, side: Side, id: int): seq<Device>
    requires |plan| == |ucs|
  {
    if ucs == [] then []
    else
      (if ucs[0].id == id then []
       else if plan[0].Some? then [DeviceOf(ucs[0], if side == Out then In else Out)]
       else [ucs[0].out, ucs[0].in_])
      + Kept(ucs[1..], plan[1..], side, id)
  }

  ghost predicate PlanOk(p: Platform, ucs: seq<Usecase>, plan: Plan, side: Side, id: int) {
    && |plan| == |ucs|
    && forall k | 0 <= k < |ucs| && plan[k].Some? ::
         ucs[k].id != id && Known(p, plan[k].value) && ucs[k].kind != (if side == Out then Capture else Playback)
  }

  lemma TimesTwo(a: Device, b: Device, d: Device)
    ensures Times([a, b], d) == (if a == d then 1 else 0) + (if b == d then 1 else 0)
    ensures Times([a], d) == if a == d then 1 else 0
  {
    assert [a, b][1..] == [b] && [b][1..] == [] && [a][1..] == [];
    assert Times([b], d) == if b == d then 1 else 0;
  }

  lemma OldsFirst(ucs: seq<Usecase>, plan: Plan, side: Side, d: Device)
    requires |plan| == |ucs| > 0
    ensures Times(Olds(ucs, plan, side), d)
         == Times(Olds(ucs[1..], plan[1..], side), d) + if plan[0].Some? && DeviceOf(ucs[0], side) == d then 1 else 0
  {
    var first := if plan[0].Some? then [DeviceOf(ucs[0], side)] else [];
    TimesAppend(first, Olds(ucs[1..], plan[1..], side), d);
    TimesTwo(DeviceOf(ucs[0], side), NONE, d);
  }

  lemma NewsFirst(plan: Plan, d: Device)
    requires plan != []
    ensures Times(News(plan), d) == Times(News(plan[1..]), d) + if plan[0] == Some(d) then 1 else 0
  {
    TimesAppend(if plan[0].Some? then [plan[0].value] else [], News(plan[1..]), d);
    if plan[0].Some? {
      TimesTwo(plan[0].value, NONE, d);
    }
  }

  lemma KeptFirst(ucs: seq<Usecase>, plan: Plan, side: Side, id: int, d: Device)
    requires |plan| == |ucs| > 0
    ensures var u, other := ucs[0], DeviceOf(ucs[0], if side == Out then In else Out);
      Times(Kept(ucs, plan, side, id), d)
      == Times(Kept(ucs[1..], plan[1..], side, id), d)
         + (if u.id == id then 0 else if plan[0].Some? then Times([other], d) else Times([u.out, u.in_], d))
  {
    var u, other := ucs[0], DeviceOf(ucs[0], if side == Out then In else Out);
    TimesAppend(if u.id == id then [] else if plan[0].Some? then [other] else [u.out, u.in_],
                Kept(ucs[1..], plan[1..], side, id), d);
  }

  lemma {:induction false} HoldersSplit(ucs: seq<Usecase>, plan: Plan, side: Side, id: int, d: Device)
    requires |plan| == |ucs| && forall k | 0 <= k < |ucs| && plan[k].Some? :: ucs[k].id != id
    ensures Times(HoldersBut(ucs, id), d) == Times(Olds(ucs, plan, side), d) + Times(Kept(ucs, plan, side, id), d)
    ensures Times(HoldersBut(Moved(ucs, plan, side), id), d)
         == Times(News(plan), d) + Times(Kept(ucs, plan, side, id), d)
    decreases |ucs|
  {
    if ucs != [] {
      hide Times, Olds, News, Kept, HoldersBut;
      var moved := Moved(ucs, plan, side);
      assert moved[1..] == Moved(ucs[1..], plan[1..], side);
      HoldersSplit(ucs[1..], plan[1..], side, id, d);
      HoldersFirst(ucs, id, d);
      HoldersFirst(moved, id, d);
      OldsFirst(ucs, plan, side, d);
      NewsFirst(plan, d);
      KeptFirst(ucs, plan, side, id, d);
      TimesTwo(ucs[0].out, ucs[0].in_, d);
      TimesTwo(moved[0].out, moved[0].in_, d);
      TimesTwo(DeviceOf(ucs[0], if side == Out then In else Out), NONE, d);
    }
  }

  lemma {:induction false} OldsKnown(p: Platform, ucs: seq<Usecase>, plan: Plan, side: Side)
    requires |plan| == |ucs| && forall k | 0 <= k < |ucs| :: UsecaseOk(p, ucs[k])
    ensures forall k | 0 <= k < |Olds(ucs, plan, side)| :: Known(p, Olds(ucs, plan, side)[k])
    decreases |ucs|
  {
    if ucs != [] {
      OldsKnown(p, ucs[1..], plan[1..], side);
    }
  }

  lemma {:induction false} NewsKnown(p: Platform, plan: Plan)
    requires forall k | 0 <= k < |plan| && plan[k].Some? :: Known(p, plan[k].value)
    ensures forall k | 0 <= k < |News(plan)| :: Known(p, News(plan)[k])
  {
    if plan != [] {
      NewsKnown(p, plan[1..]);
    }
  }

  /** A re-route of other use cases keeps the counts conserved for everybody but the one in flight
      (and for what that one already holds, `beside`), although in between the moved use cases hold
      nothing. */
  lemma RouteConserves(p: Platform, st: Router, plan: Plan, side: Side, id: int, beside: seq<Device>)
    requires NeverFails(p) && ListOk(p, st.ucs) && PlanOk(p, st.ucs, plan, side, id)
    requires Conserved(p, st.refs, beside + HoldersBut(st.ucs, id))
    ensures ListOk(p, Route(p, st, plan, side).ucs)
    ensures Conserved(p, Route(p, st, plan, side).refs, beside + HoldersBut(Route(p, st, plan, side).ucs, id))
  {
    hide Times, HoldersBut, Kept, Olds, News, EnableAll, DisableAll;
    var olds, news, kept := Olds(st.ucs, plan, side), News(plan), Kept(st.ucs, plan, side, id);
    var moved := Moved(st.ucs, plan, side);
    forall d: Device
      ensures Times(beside + HoldersBut(st.ucs, id), d) == Times(olds + (beside + kept), d)
      ensures Times(beside + HoldersBut(moved, id), d) == Times(news + (beside + kept), d)
    {
      HoldersSplit(st.ucs, plan, side, id, d);
      TimesAppend(olds, beside + kept, d);
      TimesAppend(news, beside + kept, d);
      TimesAppend(beside, kept, d);
      TimesAppend(beside, HoldersBut(st.ucs, id), d);
      TimesAppend(beside, HoldersBut(moved, id), d);
    }
    ConservedOfSame(p, st.refs, beside + HoldersBut(st.ucs, id), olds + (beside + kept));
    OldsKnown(p, st.ucs, plan, side);
    DisableList(p, st.refs, olds, beside + kept);
    NewsKnown(p, plan);
    EnableList(p, DisableAll(p, st.refs, olds), news, beside + kept);
    ConservedOfSame(p, Route(p, st, plan, side).refs, news + (beside + kept), beside + HoldersBut(moved, id));
    assert forall k | 0 <= k < |moved| :: moved[k].id == st.ucs[k].id && moved[k].kind == st.ucs[k].kind;
  }

  // ----- one selection -----

  lemma PlaybackPlanOk(p: Platform, ucs: seq<Usecase>, uc: Usecase, d: Device, force: bool)
    requires ListOk(p, ucs) && Known(p, d)
    ensures PlanOk(p, ucs, PlaybackPlan(p, ucs, uc, d, force), Out, uc.id)
  {
    assert forall k | 0 <= k < |ucs| :: UsecaseOk(p, ucs[k]);
  }

  lemma CapturePlanOk(p: Platform, ucs: seq<Usecase>, uc: Usecase, d: Device)
    requires ListOk(p, ucs) && Real(p, d)
    ensures PlanOk(p, ucs, CapturePlan(p, ucs, uc, d), In, uc.id)
  {}

  lemma SwitchOutConserves(p: Platform, st: Router, uc: Usecase, out: Device, force: bool)
    requires NeverFails(p) && ListOk(p, st.ucs) && Known(p, out)
    requires Conserved(p, st.refs, HoldersBut(st.ucs, uc.id))
    ensures var r := SwitchOut(p, st, uc, out, force);
      ListOk(p, r.ucs) && Conserved(p, r.refs, [out] + HoldersBut(r.ucs, uc.id))
  {
    hide Times, HoldersBut, PlaybackPlan, Route, Enable, EnableCalls, ListOk, FromCombos;
    if out == NONE {
      EnableOne(p, st.refs, NONE, HoldersBut(st.ucs, uc.id));
      EnableNothing(p, st.refs);
    } else {
      var plan := PlaybackPlan(p, st.ucs, uc, out, force);
      PlaybackPlanOk(p, st.ucs, uc, out, force);
      assert [] + HoldersBut(st.ucs, uc.id) == HoldersBut(st.ucs, uc.id);
      RouteConserves(p, st, plan, Out, uc.id, []);
      var routed := if uc.devices * (p.codecBackend + p.usb + p.a2dp) != {} then Route(p, st, plan, Out) else st;
      assert [] + HoldersBut(routed.ucs, uc.id) == HoldersBut(routed.ucs, uc.id);
      EnableOne(p, routed.refs, out, HoldersBut(routed.ucs, uc.id));
    }
  }

  lemma EnableNothing(p: Platform, refs: seq<nat>)
    requires PlatformOk(p) && |refs| == p.max
    ensures Enable(p, refs, NONE) == refs
  {}

  /** The input part, while the use case in flight already holds its new output device. */
  lemma SwitchInConserves(p: Platform, st: Router, uc: Usecase, in_: Device, out: Device)
    requires NeverFails(p) && ListOk(p, st.ucs) && Known(p, in_)
    requires Conserved(p, st.refs, [out] + HoldersBut(st.ucs, uc.id))
    ensures var r := SwitchIn(p, st, uc, in_);
      ListOk(p, r.ucs) && Conserved(p, r.refs, [in_, out] + HoldersBut(r.ucs, uc.id))
  {
    hide Times, HoldersBut, CapturePlan, Route, Enable, EnableCalls, ListOk, FromCombos;
    var r := SwitchIn(p, st, uc, in_);
    if in_ == NONE {
      EnableOne(p, st.refs, NONE, [out] + HoldersBut(st.ucs, uc.id));
      EnableNothing(p, st.refs);
    } else {
      var plan := CapturePlan(p, st.ucs, uc, in_);
      CapturePlanOk(p, st.ucs, uc, in_);
      RouteConserves(p, st, plan, In, uc.id, [out]);
      var routed := Route(p, st, plan, In);
      EnableOne(p, routed.refs, in_, [out] + HoldersBut(routed.ucs, uc.id));
    }
    assert [in_] + ([out] + HoldersBut(r.ucs, uc.id)) == [in_, out] + HoldersBut(r.ucs, uc.id);
  }

  // ----- holders by place -----

  lemma HoldersFirst(ucs: seq<Usecase>, id: int, d: Device)
    requires ucs != []
    ensures Times(HoldersBut(ucs, id), d)
         == Times(HoldersBut(ucs[1..], id), d) + if ucs[0].id == id then 0 else Times([ucs[0].out, ucs[0].in_], d)
  {
    TimesAppend(if ucs[0].id == id then [] else [ucs[0].out, ucs[0].in_], HoldersBut(ucs[1..], id), d);
  }

  /** All holders are those of one use case and those of the others. */
  lemma {:induction false} HoldersPull(ucs: seq<Usecase>, k: nat, d: Device)
    requires k < |ucs| && Unique(ucs)
    ensures Times(Holders(ucs), d) == Times([ucs[k].out, ucs[k].in_], d) + Times(HoldersBut(ucs, ucs[k].id), d)
    ensures Times(HoldersBut(ucs, ucs[k].id), d) == Times(Holders(Without(ucs, k)), d)
    decreases |ucs|
  {
    hide Times, HoldersBut;
    HoldersFirst(ucs, ucs[k].id, d);
    HoldersFirst(ucs, -1, d);
    if k == 0 {
      NobodyElse(ucs[1..], ucs[0].id);
      assert Without(ucs, 0) == ucs[1..];
    } else {
      HoldersPull(ucs[1..], k - 1, d);
      assert Without(ucs, k)[1..] == Without(ucs[1..], k - 1);
      HoldersFirst(Without(ucs, k), -1, d);
    }
  }

  lemma {:induction false} NobodyElse(ucs: seq<Usecase>, id: int)
    requires forall k | 0 <= k < |ucs| :: ucs[k].id != id
    ensures HoldersBut(ucs, id) == Holders(ucs)
  {
    if ucs != [] {
      NobodyElse(ucs[1..], id);
    }
  }

  lemma {:induction false} HoldersButIgnores(a: seq<Usecase>, b: seq<Usecase>, id: int)
    requires |a| == |b| && forall k | 0 <= k < |a| ::
               a[k].id == b[k].id && (a[k].id != id ==> a[k].out == b[k].out && a[k].in_ == b[k].in_)
    ensures HoldersBut(a, id) == HoldersBut(b, id)
    decreases |a|
  {
    if a != [] {
      HoldersButIgnores(a[1..], b[1..], id);
    }
  }

  lemma {:induction false} HoldersJoin(ucs: seq<Usecase>, u: Usecase, d: Device)
    ensures Times(Holders(ucs + [u]), d) == Times(Holders(ucs), d) + Times([u.out, u.in_], d)
    decreases |ucs|
  {
    hide Times, HoldersBut;
    HoldersFirst(ucs + [u], -1, d);
    if ucs == [] {
      assert (ucs + [u])[1..] == ucs && ucs + [u] == [u];
      NoHolders(d);
    } else {
      assert (ucs + [u])[1..] == ucs[1..] + [u];
      HoldersJoin(ucs[1..], u, d);
      HoldersFirst(ucs, -1, d);
    }
  }

  lemma NoHolders(d: Device)
    ensures Times(Holders([]), d) == 0
  {}

  /** A use case whose two devices change is the only one that matters to the sum. */
  lemma HoldersOfSwitched(ucs: seq<Usecase>, k: nat, u: Usecase, d: Device)
    requires k < |ucs| && u.id == ucs[k].id && Unique(ucs)
    ensures Times(Holders(ucs[k := u]), d) == Times([u.out, u.in_], d) + Times(HoldersBut(ucs, u.id), d)
  {
    HoldersPull(ucs[k := u], k, d);
    HoldersButIgnores(ucs, ucs[k := u], u.id);
  }

  // ----- every call keeps the counts conserved -----

  ghost predicate SameUsers(a: seq<Usecase>, b: seq<Usecase>) {
    |a| == |b| && forall k | 0 <= k < |a| :: a[k].id == b[k].id && a[k].kind == b[k].kind
  }

  lemma SwitchKeepsUsers(p: Platform, st: Router, k: nat, out: Device, in_: Device, forceRouting: bool)
    requires PlatformOk(p) && |st.refs| == p.max && k < |st.ucs|
    ensures SameUsers(st.ucs, Switch(p, st, k, out, in_, forceRouting).ucs)
  {
    hide SwitchOut, SwitchIn, Freed, RouteCall;
    PartsKeepUsers(p, Freed(p, st, st.ucs[k]), st.ucs[k], out, in_, forceRouting);
  }

  /** Releasing the devices of the use case in flight. */
  lemma ReleaseConserves(p: Platform, st: Router, k: nat)
    requires PlatformOk(p) && Inv(p, st) && k < |st.ucs|
    ensures var u := st.ucs[k];
      Conserved(p, Disable(p, Disable(p, st.refs, u.out), u.in_), HoldersBut(st.ucs, u.id))
  {
    hide Times, HoldersBut;
    var u := st.ucs[k];
    var others := HoldersBut(st.ucs, u.id);
    forall d: Device ensures Times(Holders(st.ucs), d) == Times([u.out] + ([u.in_] + others), d) {
      HoldersPull(st.ucs, k, d);
      assert [u.out] + ([u.in_] + others) == [u.out, u.in_] + others;
      TimesAppend([u.out, u.in_], others, d);
    }
    ConservedOfSame(p, st.refs, Holders(st.ucs), [u.out] + ([u.in_] + others));
    assert UsecaseOk(p, u);
    DisableOne(p, st.refs, u.out, [u.in_] + others);
    DisableOne(p, Disable(p, st.refs, u.out), u.in_, others);
  }

  lemma SwitchConserves(p: Platform, st: Router, k: nat, out: Device, in_: Device, forceRouting: bool)
    requires NeverFails(p) && Inv(p, st) && k < |st.ucs|
    requires UsecaseOk(p, st.ucs[k].(out := out, in_ := in_))
    ensures Inv(p, Switch(p, st, k, out, in_, forceRouting))
  {
    hide Times, HoldersBut, SwitchOut, SwitchIn, Disable;
    var uc := st.ucs[k];
    var freed := Freed(p, st, uc);
    ReleaseConserves(p, st, k);
    SwitchOutConserves(p, freed, uc, out, forceRouting);
    var half := SwitchOut(p, freed, uc, out, forceRouting);
    SwitchInConserves(p, half, uc, in_, out);
    var full := SwitchIn(p, half, uc, in_);
    SwitchKeepsUsers(p, st, k, out, in_, forceRouting);
    PartsKeepUsers(p, freed, uc, out, in_, forceRouting);
    var u := full.ucs[k].(out := out, in_ := in_);
    forall d: Device
      ensures Times([in_, out] + HoldersBut(full.ucs, uc.id), d) == Times(Holders(full.ucs[k := u]), d)
    {
      HoldersOfSwitched(full.ucs, k, u, d);
      TimesAppend([in_, out], HoldersBut(full.ucs, uc.id), d);
      TimesTwo(in_, out, d);
      TimesTwo(out, in_, d);
    }
    ConservedOfSame(p, full.refs, [in_, out] + HoldersBut(full.ucs, uc.id), Holders(full.ucs[k := u]));
  }

  lemma PartsKeepUsers(p: Platform, st: Router, uc: Usecase, out: Device, in_: Device, forceRouting: bool)
    requires PlatformOk(p) && |st.refs| == p.max
    ensures SameUsers(st.ucs, SwitchIn(p, SwitchOut(p, st, uc, out, forceRouting), uc, in_).ucs)
  {
    hide Route, Enabled, PlaybackPlan, CapturePlan;
    if out != NONE {
      RouteKeepsIds(p, st, PlaybackPlan(p, st.ucs, uc, out, forceRouting), Out);
    }
    var half := SwitchOut(p, st, uc, out, forceRouting);
    if in_ != NONE {
      RouteKeepsIds(p, half, CapturePlan(p, half.ucs, uc, in_), In);
    }
  }

  ghost predicate AnswersOk(p: Platform, a: Answers) {
    Known(p, a.out) && Known(p, a.in_) && (a.voip.Some? ==> AnswersOk(p, a.voip.value.1))
  }

  /** Changing only the masks of a use case changes neither holders nor users. */
  lemma MasksConserve(p: Platform, st: Router, k: nat, devices: Mask, stream: Mask)
    requires Inv(p, st) && k < |st.ucs|
    ensures Inv(p, st.(ucs := st.ucs[k := st.ucs[k].(devices := devices, stream := stream)]))
  {
    HoldersButIgnores(st.ucs, st.ucs[k := st.ucs[k].(devices := devices, stream := stream)], -1);
  }

  lemma FinalOutOk(p: Platform, u: Usecase, out: Device, in_: Device, ready: bool)
    requires PlatformOk(p) && UsecaseOk(p, u) && Known(p, out) && Known(p, in_)
    requires (u.kind == Capture ==> out == NONE) && (u.kind == Playback ==> in_ == NONE)
    ensures UsecaseOk(p, u.(out := FinalOut(p, u.id, out, ready), in_ := in_))
  {}

  /** The last part of a selection, once the output device is settled. */
  lemma FinishConserves(p: Platform, st: Router, k: nat, out: Device, in_: Device, a: Answers)
    requires NeverFails(p) && Inv(p, st) && k < |st.ucs| && Known(p, out) && Known(p, in_)
    requires st.ucs[k].kind == Capture ==> out == NONE
    requires st.ucs[k].kind == Playback ==> in_ == NONE
    ensures var r := Switch(p, st, k, FinalOut(p, st.ucs[k].id, out, a.a2dpReady), in_, a.forceRouting);
      Inv(p, r) && SameUsers(st.ucs, r.ucs)
  {
    hide Switch, Conserved, FinalOut;
    InvHasCounts(p, st);
    var final := FinalOut(p, st.ucs[k].id, out, a.a2dpReady);
    assert UsecaseOk(p, st.ucs[k]);
    FinalOutOk(p, st.ucs[k], out, in_, a.a2dpReady);
    SwitchConserves(p, st, k, final, in_, a.forceRouting);
    SwitchKeepsUsers(p, st, k, final, in_, a.forceRouting);
  }

  /** `select_devices`, early returns included. */
  lemma {:induction false} SelectConserves(p: Platform, st: Router, id: nat, a: Answers)
    requires NeverFails(p) && Inv(p, st) && AnswersOk(p, a)
    ensures Inv(p, Select(p, st, id, a)) && SameUsers(st.ucs, Select(p, st, id, a).ucs)
    decreases a
  {
    hide Switch, Inv, FinalOut, PlatformOk, Known, Real;
    InvHasCounts(p, st);
    var k := Find(st.ucs, id);
    if k >= 0 {
      var kind := st.ucs[k].kind;
      var st1 := st.(ucs := st.ucs[k := st.ucs[k].(devices := st.ucs[k].stream)]);
      MasksConserve(p, st, k, st.ucs[k].stream, st.ucs[k].stream);
      InvHasCounts(p, st1);
      var st2 := st1;
      if a.voip.Some? && kind == Playback {
        SelectConserves(p, st1, a.voip.value.0, a.voip.value.1);
        st2 := Select(p, st1, a.voip.value.0, a.voip.value.1);
        InvHasCounts(p, st2);
      }
      NoneKnown(p);
      FinishConserves(p, st2, k, if kind == Capture then NONE else a.out, if kind == Playback then NONE else a.in_, a);
    }
  }

  lemma NoneKnown(p: Platform)
    ensures Known(p, NONE)
  {}

  ghost predicate SelectionsOk(p: Platform, selections: seq<(nat, Answers)>) {
    forall k | 0 <= k < |selections| :: AnswersOk(p, selections[k].1)
  }

  lemma {:induction false} SelectAllConserves(p: Platform, st: Router, selections: seq<(nat, Answers)>)
    requires NeverFails(p) && Inv(p, st) && SelectionsOk(p, selections)
    ensures Inv(p, SelectAll(p, st, selections)) && SameUsers(st.ucs, SelectAll(p, st, selections).ucs)
    decreases |selections|
  {
    hide Select, Inv;
    InvHasCounts(p, st);
    if selections != [] {
      SelectConserves(p, st, selections[0].0, selections[0].1);
      SelectAllConserves(p, Select(p, st, selections[0].0, selections[0].1), selections[1..]);
    }
  }

  lemma LeaveConserves(p: Platform, st: Router, k: nat)
    requires PlatformOk(p) && Inv(p, st) && k < |st.ucs|
    ensures Inv(p, Leave(p, st, k))
    ensures forall j | 0 <= j < |Without(st.ucs, k)| :: Without(st.ucs, k)[j].id != st.ucs[k].id
  {
    hide Times, HoldersBut;
    var u := st.ucs[k];
    assert UsecaseOk(p, u);
    ReleaseConserves(p, st, k);
    var rest := Without(st.ucs, k);
    forall d: Device ensures Times(HoldersBut(st.ucs, u.id), d) == Times(Holders(rest), d) {
      HoldersPull(st.ucs, k, d);
    }
    ConservedOfSame(p, Disable(p, Disable(p, st.refs, u.out), u.in_), HoldersBut(st.ucs, u.id), Holders(rest));
  }

  /** Re-routing the others to the device of a use case that has left. */
  lemma ReroutedConserves(p: Platform, st: Router, left: Usecase, usb: Option<bool>)
    requires NeverFails(p) && Inv(p, st) && UsecaseOk(p, left)
    requires forall j | 0 <= j < |st.ucs| :: st.ucs[j].id != left.id
    ensures Inv(p, Rerouted(p, st, left, usb))
  {
    if usb.Some? && left.kind == Playback {
      hide Times, HoldersBut, PlaybackPlan, Route, ListOk;
      var plan := PlaybackPlan(p, st.ucs, left, left.out, usb.value);
      PlaybackPlanOk(p, st.ucs, left, left.out, usb.value);
      NobodyElse(st.ucs, left.id);
      assert [] + HoldersBut(st.ucs, left.id) == Holders(st.ucs);
      RouteConserves(p, st, plan, Out, left.id, []);
      var r := Route(p, st, plan, Out);
      RouteKeepsIds(p, st, plan, Out);
      NobodyElse(r.ucs, left.id);
      assert [] + HoldersBut(r.ucs, left.id) == Holders(r.ucs);
    }
  }

  lemma RouteKeepsIds(p: Platform, st: Router, plan: Plan, side: Side)
    requires PlatformOk(p) && |st.refs| == p.max && |plan| == |st.ucs|
    ensures SameUsers(st.ucs, Route(p, st, plan, side).ucs)
  {
    hide EnableAll, DisableAll, EnableAllCalls, DisableAllCalls, RouteCalls, Olds, News;
  }

  lemma StopConserves(p: Platform, st: Router, id: nat, usb: Option<bool>, reselected: seq<(nat, Answers)>)
    requires NeverFails(p) && Inv(p, st) && SelectionsOk(p, reselected)
    ensures Inv(p, Stop(p, st, id, usb, reselected))
  {
    hide Conserved, SelectAll, Rerouted, Leave;
    InvHasCounts(p, st);
    var k := Find(st.ucs, id);
    if k >= 0 {
      assert UsecaseOk(p, st.ucs[k]);
      LeaveConserves(p, st, k);
      ReroutedConserves(p, Leave(p, st, k), st.ucs[k], usb);
      SelectAllConserves(p, Rerouted(p, Leave(p, st, k), st.ucs[k], usb), reselected);
    }
  }

  lemma SetStreamConserves(p: Platform, st: Router, id: nat, stream: Mask)
    requires Inv(p, st)
    ensures Inv(p, st.(ucs := SetStream(st.ucs, id, stream))) && SameUsers(st.ucs, SetStream(st.ucs, id, stream))
  {
    var k := Find(st.ucs, id);
    if k >= 0 {
      MasksConserve(p, st, k, st.ucs[k].devices, stream);
      assert st.ucs[k].(stream := stream) == st.ucs[k].(devices := st.ucs[k].devices, stream := stream);
    }
  }

  lemma FallBackConserves(p: Platform, st: Router, id: nat, stream: Mask, fallback: Option<(Mask, Answers)>)
    requires NeverFails(p) && Inv(p, st) && (fallback.Some? ==> AnswersOk(p, fallback.value.1))
    ensures Inv(p, FallBack(p, st, id, stream, fallback))
  {
    hide Conserved, Select, SetStream, ListOk;
    InvHasCounts(p, st);
    if fallback.Some? {
      SetStreamConserves(p, st, id, fallback.value.0);
      var narrowed := st.(ucs := SetStream(st.ucs, id, fallback.value.0));
      SelectConserves(p, narrowed, id, fallback.value.1);
      SetStreamConserves(p, Select(p, narrowed, id, fallback.value.1), id, stream);
    }
  }

  lemma JoinConserves(p: Platform, st: Router, u: Usecase)
    requires Inv(p, st) && u.out == NONE && u.in_ == NONE && UsecaseOk(p, u)
    requires forall k | 0 <= k < |st.ucs| :: st.ucs[k].id != u.id
    ensures Inv(p, st.(ucs := st.ucs + [u]))
  {
    hide Times, HoldersBut;
    forall d: Device | Real(p, d) ensures Times(Holders(st.ucs), d) == Times(Holders(st.ucs + [u]), d) {
      HoldersJoin(st.ucs, u, d);
      TimesTwo(NONE, NONE, d);
    }
    ConservedOfSame(p, st.refs, Holders(st.ucs), Holders(st.ucs + [u]));
  }

  ghost predicate StartupOk(p: Platform, st: Router, how: Startup) {
    && SelectionsOk(p, how.reselected) && (how.first.Some? ==> AnswersOk(p, how.first.value))
    && (how.fallback.Some? ==> AnswersOk(p, how.fallback.value.1))
    && (how.kind == Capture ==> how.id !in p.uplinks) && forall k | 0 <= k < |st.ucs| :: st.ucs[k].id != how.id
  }

  lemma StartConserves(p: Platform, st: Router, how: Startup)
    requires NeverFails(p) && Inv(p, st) && StartupOk(p, st, how)
    ensures Inv(p, Start(p, st, how))
  {
    hide Conserved, ListOk, Select, Stop, FallBack, AnswersOk;
    InvHasCounts(p, st);
    var u := Usecase(how.id, how.kind, NONE, NONE, how.stream, how.stream);
    JoinConserves(p, st, u);
    var joined := st.(ucs := st.ucs + [u]);
    if how.first.Some? {
      SelectConserves(p, joined, how.id, how.first.value);
    }
    var selected := if how.first.Some? then Select(p, joined, how.id, how.first.value) else joined;
    FallBackConserves(p, selected, how.id, how.stream, how.fallback);
    if !how.opens {
      StopConserves(p, FallBack(p, selected, how.id, how.stream, how.fallback), how.id, how.usb, how.reselected);
    }
  }

  // ----- runs -----

  /** What callers keep: one live use case per id, and the platform names real devices. */
  ghost predicate OpOk(p: Platform, st: Router, op: Op) {
    match op
    case OpStart(how) => StartupOk(p, st, how)
    case OpReroute(_, _, answers) => AnswersOk(p, answers)
    case OpStop(_, _, reselected) => SelectionsOk(p, reselected)
  }

  ghost predicate RunOk(p: Platform, st: Router, ops: seq<Op>)
    requires PlatformOk(p) && |st.refs| == p.max
    decreases |ops|
  {
    ops == [] || (OpOk(p, st, ops[0]) && RunOk(p, Step(p, st, ops[0]), ops[1..]))
  }

  lemma StepConserves(p: Platform, st: Router, op: Op)
    requires NeverFails(p) && Inv(p, st) && OpOk(p, st, op)
    ensures Inv(p, Step(p, st, op))
  {
    hide Start, Stop, Select, SetStream, Conserved, ListOk, StartupOk, AnswersOk;
    InvHasCounts(p, st);
    match op
    case OpStart(how) => StartConserves(p, st, how);
    case OpReroute(id, stream, answers) =>
      SetStreamConserves(p, st, id, stream);
      SelectConserves(p, st.(ucs := SetStream(st.ucs, id, stream)), id, answers);
    case OpStop(id, usb, reselected) => StopConserves(p, st, id, usb, reselected);
  }

  lemma {:induction false} RunFrom(p: Platform, st: Router, ops: seq<Op>)
    requires NeverFails(p) && Inv(p, st) && RunOk(p, st, ops)
    ensures Inv(p, Run(p, st, ops))
    decreases |ops|
  {
    hide Step, OpOk, Inv;
    InvHasCounts(p, st);
    if ops != [] {
      StepConserves(p, st, ops[0]);
      RunFrom(p, Step(p, st, ops[0]), ops[1..]);
    }
  }

  /** Device counts are conserved over every run from power-up. */
  lemma RunConserves(p: Platform, ops: seq<Op>)
    requires NeverFails(p) && RunOk(p, Initial(p), ops)
    ensures Inv(p, Run(p, Initial(p), ops))
  {
    hide Run, RunOk;
    forall d: Device ensures FromCombos(p, Initial(p).refs, d, p.max) == 0 {
      IdleHoldNothing(p, d, p.max);
    }
    RunFrom(p, Initial(p), ops);
  }

  lemma {:induction false} IdleHoldNothing(p: Platform, d: Device, n: nat)
    requires n <= p.max
    ensures FromCombos(p, Initial(p).refs, d, n) == 0
  {
    if n > 0 {
      IdleHoldNothing(p, d, n - 1);
    }
  }

  /** When the last use case has stopped no device is left enabled. */
  lemma EmptyListAllZero(p: Platform, ops: seq<Op>)
    requires NeverFails(p) && RunOk(p, Initial(p), ops) && Run(p, Initial(p), ops).ucs == []
    ensures Run(p, Initial(p), ops).refs == Initial(p).refs
  {
    RunConserves(p, ops);
    var st := Run(p, Initial(p), ops);
    NoHoldersNoCounts(p, st.refs, []);
    assert st.refs == Initial(p).refs;
  }

  /** A device is enabled exactly when a use case holds it or holds a combo device it is part of. */
  lemma EnabledExactlyWhenHeld(p: Platform, st: Router, d: Device)
    requires PlatformOk(p) && Inv(p, st) && Real(p, d)
    ensures st.refs[d] > 0 <==>
      d in Holders(st.ucs) || exists c: Device | Real(p, c) && c in Holders(st.ucs) :: d in p.parts(c)
  {
    var h := Holders(st.ucs);
    hide HoldersBut;
    TimesAt(h, d);
    SomeComboHolds(p, st.refs, d, p.max);
    forall c: Device | Real(p, c) && p.parts(c) != [] ensures st.refs[c] > 0 <==> c in h {
      CombosAreNotParts(p, st.refs, c, p.max);
      TimesAt(h, c);
    }
  }

  lemma {:induction false} SomeComboHolds(p: Platform, refs: seq<nat>, d: Device, n: nat)
    requires n <= |refs| == p.max && (n > 0 ==> refs[0] == 0)
    ensures FromCombos(p, refs, d, n) > 0 <==> exists c: Device | 0 < c < n && refs[c] > 0 :: d in p.parts(c)
  {
    if n > 0 {
      SomeComboHolds(p, refs, d, n - 1);
      TimesAt(p.parts(n - 1), d);
    }
  }
}
