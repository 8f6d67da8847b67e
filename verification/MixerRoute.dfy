/** Mixer controls and named paths of audio/audioroute_probe/audio_route.c: the values of one
    control, and what applying, resetting and updating a path does to it. */
module MixerRoute {
  import opened Common

  /** The four supported control types; every other one is skipped throughout. */
  datatype Kind = Bool | Int | Enum | Byte | Unsupported

  const WRAP: nat := 0x1_0000_0000

  /** A control: the driver's values, the last values written (`last`), the wanted values (`wanted`,
      the source's new_value), the saved values, and the 32-bit count of its users. */
  datatype Control = Control(kind: Kind, hw: seq<int>, last: seq<int>, wanted: seq<int>, saved: seq<int>, active: nat)

  datatype Setting = Setting(ctl: nat, kind: Kind, values: seq<int>)

  datatype Path = Path(name: string, settings: seq<Setting>)

  datatype Direction = Forward | Reverse | ReverseReset

  ghost predicate WellFormed(c: Control) {
    && c.active < WRAP
    && (c.kind != Unsupported ==>
          && |c.hw| == |c.last| == |c.wanted| == |c.saved|
          && (c.kind == Enum ==> |c.hw| > 0))
  }

  /** The driver holds the last written values; of an enumerated control only index 0 is exchanged. */
  predicate HwAgrees(c: Control) {
    if c.kind == Enum then |c.hw| > 0 && |c.last| > 0 && c.hw[0] == c.last[0] else c.hw == c.last
  }

  /** Between calls: nothing is pending. */
  predicate Settled(c: Control) {
    c.kind != Unsupported ==> c.last == c.wanted && HwAgrees(c)
  }

  // ----- one control -----

  /** Writes the wanted values to the driver when they differ from the last written ones. */
  function Push(c: Control): (r: Control)
    requires WellFormed(c) && c.kind != Unsupported
    ensures WellFormed(r) && r.kind == c.kind && r.active == c.active && r.saved == c.saved
    ensures r.last == r.wanted == c.wanted
    ensures HwAgrees(c) ==> HwAgrees(r)
  {
    if c.last == c.wanted then c
    else c.(hw := if c.kind == Enum then c.hw[0 := c.wanted[0]] else c.wanted, last := c.wanted)
  }

  function Count(active: nat, dir: Direction): nat {
    if dir == Forward then (active + 1) % 0x1_0000_0000
    else if active == 0 then 0
    else if dir == ReverseReset then 0
    else active - 1
  }

  /** A path update on one of its controls: count the user in or out, then write the wanted values,
      except that a reverse update of a control still in use drops them instead. */
  function Update(c: Control, dir: Direction): (r: Control)
    requires WellFormed(c)
    ensures WellFormed(r) && r.kind == c.kind && r.saved == c.saved && |r.wanted| == |c.wanted|
    ensures c.kind != Unsupported && HwAgrees(c) ==> Settled(r)
  {
    if c.kind == Unsupported then c
    else
      var counted := c.(active := Count(c.active, dir));
      if c.last != c.wanted && dir != Forward && counted.active > 0 then counted.(wanted := c.last) else Push(counted)
  }

  // ----- paths -----

  /** The setting a list holds for a control. */
  function Lookup(settings: seq<Setting>, ctl: nat): Option<Setting> {
    if settings == [] then None
    else if settings[0].ctl == ctl then Some(settings[0])
    else Lookup(settings[1..], ctl)
  }

  predicate Touches(p: Path, ctl: nat) {
    Lookup(p.settings, ctl).Some?
  }

  /** No control appears twice in the list. */
  ghost predicate Distinct(settings: seq<Setting>) {
    forall j, k | 0 <= j < k < |settings| :: settings[j].ctl != settings[k].ctl
  }

  /** A setting carries a full set of values for a supported control. */
  ghost predicate Fits(s: Setting, cs: seq<Control>) {
    s.ctl < |cs| && cs[s.ctl].kind == s.kind != Unsupported && |s.values| == |cs[s.ctl].wanted|
  }

  ghost predicate PathFits(p: Path, cs: seq<Control>) {
    Distinct(p.settings) && forall k | 0 <= k < |p.settings| :: Fits(p.settings[k], cs)
  }

  lemma {:induction false} LookupAt(settings: seq<Setting>, ctl: nat) returns (k: nat)
    requires Lookup(settings, ctl).Some?
    ensures k < |settings| && settings[k] == Lookup(settings, ctl).value && settings[k].ctl == ctl
  {
    if settings[0].ctl == ctl {
      k := 0;
    } else {
      k := LookupAt(settings[1..], ctl);
      k := k + 1;
    }
  }

  lemma {:induction false} LookupNone(settings: seq<Setting>, ctl: nat)
    requires Lookup(settings, ctl).None?
    ensures forall k | 0 <= k < |settings| :: settings[k].ctl != ctl
  {
    if settings != [] {
      LookupNone(settings[1..], ctl);
      assert forall k | 0 < k < |settings| :: settings[k] == settings[1..][k - 1];
    }
  }

  lemma {:induction false} LookupAppend(a: seq<Setting>, b: seq<Setting>, ctl: nat)
    ensures Lookup(a + b, ctl) == if Lookup(a, ctl).Some? then Lookup(a, ctl) else Lookup(b, ctl)
  {
    if a == [] {
      assert a + b == b;
    } else {
      assert (a + b)[1..] == a[1..] + b;
      LookupAppend(a[1..], b, ctl);
    }
  }

  // ----- all controls -----

  function WithWanted(c: Control, values: seq<int>): Control {
    c.(wanted := values)
  }

  /** `path_apply` for a list of settings. */
  function Applied(cs: seq<Control>, settings: seq<Setting>): (r: seq<Control>)
    ensures |r| == |cs|
  {
    seq(|cs|, i requires 0 <= i < |cs| =>
      match Lookup(settings, i) case None => cs[i] case Some(s) => WithWanted(cs[i], s.values))
  }

  /** `path_reset`. */
  function Restored(cs: seq<Control>, settings: seq<Setting>): (r: seq<Control>)
    ensures |r| == |cs|
  {
    seq(|cs|, i requires 0 <= i < |cs| =>
      if Lookup(settings, i).Some? then WithWanted(cs[i], cs[i].saved) else cs[i])
  }

  /** `audio_route_update_path`. */
  function Updated(cs: seq<Control>, settings: seq<Setting>, dir: Direction): (r: seq<Control>)
    requires forall i | 0 <= i < |cs| :: WellFormed(cs[i])
    ensures |r| == |cs|
  {
    seq(|cs|, i requires 0 <= i < |cs| =>
      if Lookup(settings, i).Some? then Update(cs[i], dir) else cs[i])
  }

  // ----- runs of the path API -----

  datatype Event = Apply(path: Path) | Reset(path: Path)

  /** One control across one apply-and-update or reset-and-update call. */
  function Step(c: Control, ctl: nat, e: Event): (r: Control)
    requires WellFormed(c) && EventFits(e, ctl, c)
    ensures WellFormed(r) && r.kind == c.kind && |r.wanted| == |c.wanted|
  {
    match e
    case Apply(p) =>
      if Touches(p, ctl) then Update(WithWanted(c, Lookup(p.settings, ctl).value.values), Forward) else c
    case Reset(p) =>
      if Touches(p, ctl) then Update(WithWanted(c, c.saved), Reverse) else c
  }

  ghost predicate EventFits(e: Event, ctl: nat, c: Control) {
    Touches(e.path, ctl) ==>
      c.kind != Unsupported && |Lookup(e.path.settings, ctl).value.values| == |c.wanted|
  }

  ghost predicate RunFits(es: seq<Event>, ctl: nat, c: Control) {
    forall k | 0 <= k < |es| :: EventFits(es[k], ctl, c)
  }

  /** A control after a run of calls, the latest last. */
  function Run(c: Control, ctl: nat, es: seq<Event>): (r: Control)
    requires WellFormed(c) && RunFits(es, ctl, c)
    ensures WellFormed(r) && r.kind == c.kind && |r.wanted| == |c.wanted|
  {
    if es == [] then c
    else
      var before := Run(c, ctl, es[..|es| - 1]);
      assert EventFits(es[|es| - 1], ctl, c);
      Step(before, ctl, es[|es| - 1])
  }

  /** Applications of a path not yet closed by a reset of the same path. */
  function Open(es: seq<Event>, p: Path): int {
    if es == [] then 0
    else
      var e := es[|es| - 1];
      Open(es[..|es| - 1], p) + if e.path != p then 0 else if e.Apply? then 1 else -1
  }

  /** Each reset closes an earlier application of the same path. */
  ghost predicate Bracketed(es: seq<Event>) {
    forall n | 0 <= n <= |es| :: forall p :: Open(es[..n], p) >= 0
  }

  /** Open applications over all paths that hold the control. */
  function Users(es: seq<Event>, ctl: nat): int {
    if es == [] then 0
    else
      var e := es[|es| - 1];
      Users(es[..|es| - 1], ctl) + if !Touches(e.path, ctl) then 0 else if e.Apply? then 1 else -1
  }

  /** The values of the most recent application that touched the control. */
  function LastApplied(es: seq<Event>, ctl: nat): Option<seq<int>> {
    if es == [] then None
    else
      var e := es[|es| - 1];
      if e.Apply? && Touches(e.path, ctl) then Some(Lookup(e.path.settings, ctl).value.values)
      else LastApplied(es[..|es| - 1], ctl)
  }

  // ----- counting -----

  /** Open applications summed over the table's paths that hold the control. */
  function OpenTotal(es: seq<Event>, table: seq<Path>, ctl: nat): int {
    if table == [] then 0
    else (if Touches(table[0], ctl) then Open(es, table[0]) else 0) + OpenTotal(es, table[1..], ctl)
  }

  ghost predicate NoRepeats(table: seq<Path>) {
    forall j, k | 0 <= j < k < |table| :: table[j] != table[k]
  }

  lemma {:induction false} OpenTotalStep(es: seq<Event>, e: Event, table: seq<Path>, ctl: nat)
    requires NoRepeats(table)
    ensures OpenTotal(es + [e], table, ctl)
         == OpenTotal(es, table, ctl)
            + if e.path !in table || !Touches(e.path, ctl) then 0 else if e.Apply? then 1 else -1
  {
    if table != [] {
      OpenTotalStep(es, e, table[1..], ctl);
      assert (es + [e])[..|es|] == es;
      assert table == [table[0]] + table[1..];
      if e.path == table[0] {
        assert forall k | 0 <= k < |table[1..]| :: table[1..][k] == table[k + 1] != table[0];
      }
    }
  }

  /** The users of a control are the open applications over the paths that hold it. */
  lemma {:induction false} UsersAreOpenApplications(es: seq<Event>, table: seq<Path>, ctl: nat)
    requires NoRepeats(table) && forall k | 0 <= k < |es| :: es[k].path in table
    ensures Users(es, ctl) == OpenTotal(es, table, ctl)
  {
    if es == [] {
      OpenTotalOfNothing(table, ctl);
    } else {
      var init, e := es[..|es| - 1], es[|es| - 1];
      UsersAreOpenApplications(init, table, ctl);
      OpenTotalStep(init, e, table, ctl);
      assert init + [e] == es;
    }
  }

  lemma {:induction false} OpenTotalOfNothing(table: seq<Path>, ctl: nat)
    ensures OpenTotal([], table, ctl) == 0
  {
    if table != [] {
      OpenTotalOfNothing(table[1..], ctl);
    }
  }

  /** A sum of open counts vanishes exactly when each term does. */
  lemma {:induction false} OpenTotalZero(es: seq<Event>, table: seq<Path>, ctl: nat)
    requires forall p :: Open(es, p) >= 0
    ensures OpenTotal(es, table, ctl) >= 0
    ensures OpenTotal(es, table, ctl) == 0 <==> forall p | p in table && Touches(p, ctl) :: Open(es, p) == 0
  {
    if table != [] {
      OpenTotalZero(es, table[1..], ctl);
      assert table == [table[0]] + table[1..];
    }
  }

  /** Every 32-bit count along the run stays representable. */
  ghost predicate CountsFit(es: seq<Event>, ctl: nat) {
    forall n | 0 <= n <= |es| :: Users(es[..n], ctl) < 0x1_0000_0000
  }

  lemma PrefixesOfInit(es: seq<Event>, ctl: nat)
    requires es != []
    requires Bracketed(es) && CountsFit(es, ctl)
    ensures Bracketed(es[..|es| - 1]) && CountsFit(es[..|es| - 1], ctl)
  {
    var init := es[..|es| - 1];
    assert forall n | 0 <= n <= |init| :: init[..n] == es[..n];
  }

  /** The whole-run theorem for one control, from the state initialization leaves behind: over any
      bracketed run nothing is pending between calls, the count is the number of users and so the
      saturating decrement never saturates, a control without users is back at its saved values,
      and a control with users holds the values of the latest application that touched it. */
  lemma {:induction false} RunInvariant(c: Control, ctl: nat, es: seq<Event>, table: seq<Path>)
    requires WellFormed(c) && RunFits(es, ctl, c)
    requires Settled(c) && c.active == 0 && c.wanted == c.saved
    requires NoRepeats(table) && forall k | 0 <= k < |es| :: es[k].path in table
    requires Bracketed(es) && CountsFit(es, ctl)
    ensures var r := Run(c, ctl, es);
      && Settled(r)
      && r.active == Users(es, ctl) == OpenTotal(es, table, ctl)
      && r.saved == c.saved
      && (r.active == 0 ==> r.wanted == c.saved)
      && (r.active > 0 ==> LastApplied(es, ctl) == Some(r.wanted))
    decreases |es|
  {
    UsersAreOpenApplications(es, table, ctl);
    if es != [] {
      var init, e := es[..|es| - 1], es[|es| - 1];
      PrefixesOfInit(es, ctl);
      RunInvariant(c, ctl, init, table);
      assert EventFits(e, ctl, c);
      assert es[..|es|] == es;
      OpenTotalZero(es, table, ctl);
      UsersAreOpenApplications(es, table, ctl);
      StepInvariant(Run(c, ctl, init), ctl, e, Users(init, ctl));
    }
  }

  lemma StepInvariant(c: Control, ctl: nat, e: Event, users: int)
    requires WellFormed(c) && EventFits(e, ctl, c) && Settled(c) && c.active == users
    requires c.active == 0 ==> c.wanted == c.saved
    requires Touches(e.path, ctl) && e.Apply? ==> users + 1 < 0x1_0000_0000
    requires Touches(e.path, ctl) && e.Reset? ==> users >= 1
    ensures var r := Step(c, ctl, e);
      && Settled(r) && r.saved == c.saved
      && r.active == users + (if !Touches(e.path, ctl) then 0 else if e.Apply? then 1 else -1)
      && (r.active == 0 ==> r.wanted == c.saved)
      && (e.Apply? && Touches(e.path, ctl) ==> r.wanted == Lookup(e.path.settings, ctl).value.values)
      && (!(e.Apply? && Touches(e.path, ctl)) && r.active > 0 ==> r.wanted == c.wanted)
  {}

  /** Once a run has closed every application, each control is back at its saved values. */
  lemma AllClosedRestores(c: Control, ctl: nat, es: seq<Event>, table: seq<Path>)
    requires WellFormed(c) && RunFits(es, ctl, c)
    requires Settled(c) && c.active == 0 && c.wanted == c.saved
    requires NoRepeats(table) && forall k | 0 <= k < |es| :: es[k].path in table
    requires Bracketed(es) && CountsFit(es, ctl)
    ensures Run(c, ctl, es).active == 0 <==> forall p | p in table && Touches(p, ctl) :: Open(es, p) == 0
    ensures (forall p | p in table && Touches(p, ctl) :: Open(es, p) == 0) ==>
      Run(c, ctl, es).last == c.last || c.kind == Unsupported
  {
    RunInvariant(c, ctl, es, table);
    assert es[..|es|] == es;
    OpenTotalZero(es, table, ctl);
  }

  /** Closing one application leaves the driver alone while another path still needs the control. */
  lemma ResetKeepsNeededControl(c: Control, ctl: nat, p: Path)
    requires WellFormed(c) && c.kind != Unsupported && Settled(c) && c.active >= 2 && EventFits(Reset(p), ctl, c)
    ensures Step(c, ctl, Reset(p)).hw == c.hw && Settled(Step(c, ctl, Reset(p)))
    ensures Step(c, ctl, Reset(p)).wanted == c.wanted
  {}

  /** The count follows the users across an application exactly while it fits 32 bits; at the
      2^32nd user it wraps to zero, and the next close restores the control under everybody. */
  lemma CountWraps(c: Control, ctl: nat, p: Path)
    requires WellFormed(c) && c.kind != Unsupported && Touches(p, ctl)
    requires |Lookup(p.settings, ctl).value.values| == |c.wanted|
    ensures Step(c, ctl, Apply(p)).active == c.active + 1 <==> c.active + 1 < 0x1_0000_0000
    ensures c.active == 0xFFFF_FFFF ==> Step(Step(c, ctl, Apply(p)), ctl, Reset(p)).wanted == c.saved
  {}

  /** A forced reset releases and restores the control whoever still uses it. */
  lemma ForcedResetRestores(c: Control)
    requires WellFormed(c) && c.kind != Unsupported && Settled(c)
    ensures var r := Update(WithWanted(c, c.saved), ReverseReset);
      r.active == 0 && r.wanted == c.saved && Settled(r)
  {}
}
