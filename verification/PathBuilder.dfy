/** How audio/audioroute_probe/audio_route.c assembles the settings of a path from the parsed
    configuration.  Whatever is added, a path never holds a control twice. */
module PathBuilder {
  import opened Common
  import opened MixerRoute

  /** A parsed nested control: `index` is -1 for all values, `values` the per-index list that byte
      and integer controls carry, `value` the single one. */
  datatype MixerValue = MixerValue(ctl: nat, index: int, value: int, values: seq<int>)

  /** A stored value as its C element type keeps it: unsigned char for byte controls, int for
      enumerated ones, long otherwise. */
  function StoreAs(kind: Kind, v: int): int {
    match kind
    case Byte => v % 0x100
    case Enum => (v + 0x8000_0000) % 0x1_0000_0000 - 0x8000_0000
    case _ => v
  }

  /** `path_add_setting`: refused (false) when the control is already there or unsupported. */
  function AddSetting(p: Path, s: Setting): (Path, bool) {
    if Touches(p, s.ctl) || s.kind == Unsupported then (p, false)
    else (p.(settings := p.settings + [s]), true)
  }

  /** `path_add_path`: adds the settings of another path until one is refused. */
  function AddPath(p: Path, sub: seq<Setting>): (Path, bool)
    decreases |sub|
  {
    if sub == [] then (p, true)
    else
      var (q, ok) := AddSetting(p, sub[0]);
      if ok then AddPath(q, sub[1..]) else (q, false)
  }

  /** A setting just created holds zeros except for the value at index 0. */
  function NewSetting(kind: Kind, num: nat, mv: MixerValue): Setting {
    Setting(mv.ctl, kind, seq(num, i => if i == 0 then StoreAs(kind, mv.value) else 0))
  }

  /** The values after one parsed control: one index, or all of them, taken from the per-index list
      for byte and integer controls. */
  function SetValues(kind: Kind, values: seq<int>, mv: MixerValue): (r: seq<int>)
    ensures |r| == |values|
  {
    seq(|values|, i requires 0 <= i < |values| =>
      if mv.index == -1 then
        StoreAs(kind, if kind != Byte && kind != Int then mv.value else if i < |mv.values| then mv.values[i] else 0)
      else if i == mv.index then StoreAs(kind, mv.value)
      else values[i])
  }

  /** What the caller of `path_add_value` provides for a control with `num` values. */
  ghost predicate Provided(mv: MixerValue, kind: Kind, num: nat) {
    mv.index >= -1 && num > 0 && (mv.index == -1 && kind in {Byte, Int} ==> |mv.values| >= num)
  }

  /** Position of the control in the list, negative when absent. */
  function Find(settings: seq<Setting>, ctl: nat): (i: int)
    ensures i < 0 <==> Lookup(settings, ctl).None?
    ensures i >= 0 ==> i < |settings| && settings[i].ctl == ctl && Lookup(settings, ctl) == Some(settings[i])
  {
    if settings == [] then -1
    else if settings[0].ctl == ctl then 0
    else
      var k := Find(settings[1..], ctl);
      if k < 0 then -1 else k + 1
  }

  /** `path_add_value` for a control of that kind with `num` values. */
  function AddValue(p: Path, kind: Kind, num: nat, mv: MixerValue): (Path, bool) {
    if mv.index >= num then (p, false)
    else
      var at := Find(p.settings, mv.ctl);
      if at >= 0 then
        var s := p.settings[at];
        (p.(settings := p.settings[at := s.(values := SetValues(s.kind, s.values, mv))]), true)
      else if kind == Unsupported then (p, false)
      else
        var s := NewSetting(kind, num, mv);
        (p.(settings := p.settings + [s.(values := SetValues(kind, s.values, mv))]), true)
  }

  // ----- what the builders keep -----

  lemma AddSettingKeepsFit(p: Path, s: Setting, cs: seq<Control>)
    requires PathFits(p, cs) && Fits(s, cs)
    ensures PathFits(AddSetting(p, s).0, cs)
  {
    if !Touches(p, s.ctl) {
      LookupNone(p.settings, s.ctl);
    }
  }

  lemma {:induction false} AddPathKeepsFit(p: Path, sub: seq<Setting>, cs: seq<Control>)
    requires PathFits(p, cs) && forall k | 0 <= k < |sub| :: Fits(sub[k], cs)
    ensures PathFits(AddPath(p, sub).0, cs)
    decreases |sub|
  {
    if sub != [] {
      AddSettingKeepsFit(p, sub[0], cs);
      AddPathKeepsFit(AddSetting(p, sub[0]).0, sub[1..], cs);
    }
  }

  lemma AddValueKeepsFit(p: Path, cs: seq<Control>, mv: MixerValue)
    requires PathFits(p, cs) && mv.ctl < |cs|
    ensures PathFits(AddValue(p, cs[mv.ctl].kind, |cs[mv.ctl].wanted|, mv).0, cs)
  {
    if !Touches(p, mv.ctl) {
      LookupNone(p.settings, mv.ctl);
    }
  }

  /** A fitting path holds, for each control, a setting of its kind and size. */
  lemma LookupFits(p: Path, cs: seq<Control>, ctl: nat)
    requires PathFits(p, cs) && Touches(p, ctl)
    ensures ctl < |cs| && Fits(Lookup(p.settings, ctl).value, cs) && Lookup(p.settings, ctl).value.ctl == ctl
  {
    var k := LookupAt(p.settings, ctl);
  }

  /** Adding a path succeeds exactly when it shares no control with the receiver, and then appends
      all its settings in order. */
  lemma {:induction false} AddPathOutcome(p: Path, sub: seq<Setting>)
    requires Distinct(sub) && forall k | 0 <= k < |sub| :: sub[k].kind != Unsupported
    ensures var (q, ok) := AddPath(p, sub);
      && q.name == p.name && p.settings <= q.settings
      && (ok <==> forall k | 0 <= k < |sub| :: !Touches(p, sub[k].ctl))
      && (ok ==> q.settings == p.settings + sub)
    decreases |sub|
  {
    if sub != [] && !Touches(p, sub[0].ctl) {
      var q := AddSetting(p, sub[0]).0;
      AddPathOutcome(q, sub[1..]);
      forall ctl ensures Touches(q, ctl) <==> Touches(p, ctl) || ctl == sub[0].ctl {
        LookupAppend(p.settings, [sub[0]], ctl);
        assert [sub[0]][1..] == [];
      }
      assert forall k | 0 <= k < |sub[1..]| :: sub[1..][k] == sub[k + 1];
      assert forall k | 1 <= k < |sub| :: sub[k] == sub[1..][k - 1];
      assert p.settings + [sub[0]] + sub[1..] == p.settings + sub;
    }
  }

  /** A parsed value lands in the addressed slot of the control's setting and nowhere else, except
      that a setting created for a single index also carries the value at index 0. */
  lemma AddValueOutcome(p: Path, kind: Kind, num: nat, mv: MixerValue, ctl: nat, i: nat)
    requires Provided(mv, kind, num) && kind != Unsupported && mv.index < num
    requires Touches(p, mv.ctl) ==>
      Lookup(p.settings, mv.ctl).value.kind == kind && |Lookup(p.settings, mv.ctl).value.values| == num
    requires Distinct(p.settings)
    ensures var q := AddValue(p, kind, num, mv).0;
      && Touches(q, mv.ctl)
      && (ctl != mv.ctl ==> Lookup(q.settings, ctl) == Lookup(p.settings, ctl))
      && (i < num ==>
            |Lookup(q.settings, mv.ctl).value.values| == num
            && Lookup(q.settings, mv.ctl).value.values[i]
            == if mv.index == -1 then StoreAs(kind, if kind in {Byte, Int} then mv.values[i] else mv.value)
               else if i == mv.index then StoreAs(kind, mv.value)
               else if Touches(p, mv.ctl) then Lookup(p.settings, mv.ctl).value.values[i]
               else if i == 0 then StoreAs(kind, mv.value) else 0)
  {
    var at := Find(p.settings, mv.ctl);
    if at >= 0 {
      var s := p.settings[at];
      var s' := s.(values := SetValues(s.kind, s.values, mv));
      LookupReplace(p.settings, at, s', mv.ctl);
      LookupReplace(p.settings, at, s', ctl);
    } else {
      var s := NewSetting(kind, num, mv);
      var s' := s.(values := SetValues(kind, s.values, mv));
      LookupAppend(p.settings, [s'], mv.ctl);
      LookupAppend(p.settings, [s'], ctl);
      assert [s'][1..] == [];
    }
  }

  lemma {:induction false} LookupReplace(settings: seq<Setting>, at: nat, s: Setting, ctl: nat)
    requires at < |settings| && Distinct(settings) && s.ctl == settings[at].ctl
    ensures Lookup(settings[at := s], ctl) == if ctl == s.ctl then Some(s) else Lookup(settings, ctl)
  {
    if at == 0 {
      assert settings[at := s][1..] == settings[1..];
    } else {
      assert settings[at := s][1..] == settings[1..][at - 1 := s];
      LookupReplace(settings[1..], at - 1, s, ctl);
    }
  }
}
