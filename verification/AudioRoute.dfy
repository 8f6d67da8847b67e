/** The engine of audio/audioroute_probe/audio_route.c: the table of controls, updated in place by
    its loops, and the table of named paths. */
module AudioRoute {
  import opened Common
  import opened MixerRoute
  import opened PathBuilder

  /** A parsed configuration element, in document order.  `values` is the per-index list that byte
      and integer controls carry, `id` the optional index attribute. */
  datatype Tag =
    | TopPath(name: string)
    | NestedPath(name: string)
    | TopCtl(ctl: nat, id: Option<int>, value: int, values: seq<int>)
    | NestedCtl(mv: MixerValue)

  /** Index of the first path of that name, negative when there is none. */
  function FindPath(paths: seq<Path>, name: string): (k: int)
    ensures k >= 0 ==> k < |paths| && paths[k].name == name
    ensures forall j | 0 <= j < |paths| && (k < 0 || j < k) :: paths[j].name != name
  {
    if paths == [] then -1
    else if paths[0].name == name then 0
    else
      var k := FindPath(paths[1..], name);
      assert forall j | 0 < j < |paths| :: paths[j] == paths[1..][j - 1];
      if k < 0 then -1 else k + 1
  }

  /** A control as read from the driver. */
  function FromDriver(kind: Kind, hw: seq<int>): (c: Control)
    requires kind == Enum ==> |hw| > 0
    ensures WellFormed(c) && Settled(c) && c.active == 0
  {
    if kind == Unsupported then Control(kind, hw, [], [], [], 0)
    else
      var read := if kind == Enum then [hw[0]] + seq(|hw| - 1, _ => 0) else hw;
      Control(kind, hw, read, read, seq(|hw|, _ => 0), 0)
  }

  /** A top-level control element: sets one wanted value, or all; an index outside is ignored. */
  function SetWanted(c: Control, id: Option<int>, value: int, values: seq<int>): Control {
    if c.kind == Unsupported then c
    else
      var listed := c.kind == Byte || c.kind == Int;
      WithWanted(c, seq(|c.wanted|, j requires 0 <= j < |c.wanted| =>
        if id.Some? && id.value != j then c.wanted[j]
        else
          var from := if id.Some? then 0 else j;
          StoreAs(c.kind, if !listed then value else if from < |values| then values[from] else 0)))
  }

  /** What the element handler keeps: the controls, the paths, and the path opened last
      (negative when its creation failed or there is none). */
  datatype Loading = Loading(cs: seq<Control>, paths: seq<Path>, current: int)

  /** The element handler: nested elements go to the path opened last and are dropped without one. */
  function Element(st: Loading, t: Tag): (r: Loading)
    requires -1 <= st.current < |st.paths|
    ensures -1 <= r.current < |r.paths|
  {
    match t
    case TopPath(name) =>
      if FindPath(st.paths, name) >= 0 then st.(current := -1)
      else st.(paths := st.paths + [Path(name, [])], current := |st.paths|)
    case NestedPath(name) =>
      var sub := FindPath(st.paths, name);
      if sub < 0 || st.current < 0 then st
      else st.(paths := st.paths[st.current := AddPath(st.paths[st.current], st.paths[sub].settings).0])
    case TopCtl(ctl, id, value, values) =>
      if ctl >= |st.cs| then st else st.(cs := st.cs[ctl := SetWanted(st.cs[ctl], id, value, values)])
    case NestedCtl(mv) =>
      if st.current < 0 || mv.ctl >= |st.cs| || st.cs[mv.ctl].kind == Unsupported then st
      else
        var c := st.cs[mv.ctl];
        st.(paths := st.paths[st.current := AddValue(st.paths[st.current], c.kind, |c.wanted|, mv).0])
  }

  function Elements(st: Loading, tags: seq<Tag>): (r: Loading)
    requires -1 <= st.current < |st.paths|
    ensures -1 <= r.current < |r.paths|
    decreases |tags|
  {
    if tags == [] then st else Elements(Element(st, tags[0]), tags[1..])
  }

  /** Two control tables that paths cannot tell apart. */
  ghost predicate SameShape(a: seq<Control>, b: seq<Control>) {
    |a| == |b| && forall i | 0 <= i < |a| :: a[i].kind == b[i].kind && |a[i].wanted| == |b[i].wanted|
  }

  lemma ShapeKeepsFit(paths: seq<Path>, a: seq<Control>, b: seq<Control>)
    requires SameShape(a, b) && forall k | 0 <= k < |paths| :: PathFits(paths[k], a)
    ensures forall k | 0 <= k < |paths| :: PathFits(paths[k], b)
  {
    forall k | 0 <= k < |paths| ensures PathFits(paths[k], b) {
      assert PathFits(paths[k], a);
      forall j | 0 <= j < |paths[k].settings| ensures Fits(paths[k].settings[j], b) {
        assert Fits(paths[k].settings[j], a);
      }
    }
  }

  /** Only the wanted values may differ, and not in number. */
  ghost predicate SameButWanted(a: Control, b: Control) {
    a == b.(wanted := a.wanted) && |a.wanted| == |b.wanted|
  }

  /** What parsing guarantees about an element: an existing control and enough values. */
  ghost predicate TagFits(t: Tag, cs: seq<Control>) {
    match t
    case TopCtl(ctl, id, _, values) =>
      ctl < |cs| && (cs[ctl].kind in {Byte, Int} ==> |values| >= (if id.Some? then 1 else |cs[ctl].wanted|))
    case NestedCtl(mv) =>
      mv.ctl < |cs| && (cs[mv.ctl].kind != Unsupported ==> Provided(mv, cs[mv.ctl].kind, |cs[mv.ctl].wanted|))
    case _ => true
  }

  lemma TagStillFits(t: Tag, was: seq<Control>, now: seq<Control>)
    requires TagFits(t, was) && |now| == |was| && forall i | 0 <= i < |was| :: SameButWanted(now[i], was[i])
    ensures TagFits(t, now)
  {}

  ghost predicate NamesDiffer(paths: seq<Path>) {
    forall j, k | 0 <= j < k < |paths| :: paths[j].name != paths[k].name
  }

  // ----- runs of calls -----

  /** What the calls amount to: those of unknown names to nothing. */
  function Events(paths: seq<Path>, calls: seq<MixerCall>): seq<Event> {
    if calls == [] then []
    else
      var call, k := calls[|calls| - 1], FindPath(paths, calls[|calls| - 1].name);
      Events(paths, calls[..|calls| - 1])
      + if k < 0 then [] else [if call.apply then Apply(paths[k]) else Reset(paths[k])]
  }

  lemma {:induction false} EventsFit(paths: seq<Path>, calls: seq<MixerCall>, cs: seq<Control>, i: nat)
    requires forall k | 0 <= k < |paths| :: PathFits(paths[k], cs)
    requires i < |cs| && WellFormed(cs[i])
    ensures RunFits(Events(paths, calls), i, cs[i])
    ensures forall k | 0 <= k < |Events(paths, calls)| :: Events(paths, calls)[k].path in paths
  {
    if calls != [] {
      EventsFit(paths, calls[..|calls| - 1], cs, i);
      var k := FindPath(paths, calls[|calls| - 1].name);
      if k >= 0 && Touches(paths[k], i) {
        LookupFits(paths[k], cs, i);
      }
    }
  }

  lemma RunOfMore(c: Control, ctl: nat, es: seq<Event>, e: Event)
    requires WellFormed(c) && RunFits(es + [e], ctl, c)
    ensures RunFits(es, ctl, c) && EventFits(e, ctl, Run(c, ctl, es))
    ensures Run(c, ctl, es + [e]) == Step(Run(c, ctl, es), ctl, e)
  {
    assert (es + [e])[..|es|] == es;
    assert forall k | 0 <= k < |es| :: (es + [e])[k] == es[k];
    assert (es + [e])[|es|] == e;
  }

  lemma PathsDoNotRepeat(paths: seq<Path>)
    requires NamesDiffer(paths)
    ensures NoRepeats(paths)
  {}

  /** The whole-run theorem for the whole table: from what initialization leaves, after any bracketed
      sequence of calls, every supported control is settled; one that no open path holds is back at its
      saved values, and any other has the values of the latest application that touched it. */
  lemma TableAfterRun(cs: seq<Control>, paths: seq<Path>, calls: seq<MixerCall>, i: nat)
    requires NamesDiffer(paths) && forall k | 0 <= k < |paths| :: PathFits(paths[k], cs)
    requires i < |cs| && WellFormed(cs[i]) && Settled(cs[i]) && cs[i].active == 0 && cs[i].wanted == cs[i].saved
    requires Bracketed(Events(paths, calls)) && CountsFit(Events(paths, calls), i)
    ensures var es := Events(paths, calls);
      && RunFits(es, i, cs[i])
      && var r := Run(cs[i], i, es);
      && Settled(r) && r.saved == cs[i].saved
      && (r.active == 0 <==> forall p | p in paths && Touches(p, i) :: Open(es, p) == 0)
      && (r.active == 0 ==> r.wanted == cs[i].saved)
      && (r.active > 0 ==> LastApplied(es, i) == Some(r.wanted))
  {
    hide Run;
    EventsFit(paths, calls, cs, i);
    PathsDoNotRepeat(paths);
    RunInvariant(cs[i], i, Events(paths, calls), paths);
    AllClosedRestores(cs[i], i, Events(paths, calls), paths);
  }

  class Engine {
    const ctls: array<Control>
    var paths: seq<Path>

    ghost predicate ControlsFit()
      reads ctls
    {
      forall i | 0 <= i < ctls.Length :: WellFormed(ctls[i])
    }

    ghost predicate Valid()
      reads this, ctls
    {
      ControlsFit() && NamesDiffer(paths) && forall k | 0 <= k < |paths| :: PathFits(paths[k], ctls[..])
    }

    // ----- initialization -----

    /** `alloc_mixer_state`: reads every supported control from the driver. */
    constructor (driver: seq<(Kind, seq<int>)>)
      requires forall i | 0 <= i < |driver| :: driver[i].0 == Enum ==> |driver[i].1| > 0
      ensures fresh(ctls) && Valid() && paths == [] && ctls.Length == |driver|
      ensures forall i | 0 <= i < |driver| :: ctls[i] == FromDriver(driver[i].0, driver[i].1)
    {
      var none := Control(Unsupported, [], [], [], [], 0);
      var table := new Control[|driver|](_ => none);
      ctls := table;
      paths := [];
      new;
      var i := 0;
      while i < |driver|
        invariant 0 <= i <= |driver| && paths == []
        invariant forall k | 0 <= k < i :: ctls[k] == FromDriver(driver[k].0, driver[k].1)
      {
        ctls[i] := FromDriver(driver[i].0, driver[i].1);
        i := i + 1;
      }
    }

    /** `audio_route_update_mixer`: writes every supported control whose wanted values changed. */
    method UpdateMixer()
      requires Valid()
      modifies ctls
      ensures Valid()
      ensures forall i | 0 <= i < ctls.Length ::
        ctls[i] == if old(ctls[i]).kind == Unsupported then old(ctls[i]) else Push(old(ctls[i]))
    {
      ghost var was := ctls[..];
      var i := 0;
      while i < ctls.Length
        invariant 0 <= i <= ctls.Length
        invariant forall k | i <= k < ctls.Length :: ctls[k] == was[k]
        invariant forall k | 0 <= k < i ::
          ctls[k] == if was[k].kind == Unsupported then was[k] else Push(was[k])
      {
        if ctls[i].kind != Unsupported {
          ctls[i] := Push(ctls[i]);
        }
        i := i + 1;
      }
      ShapeKeepsFit(paths, was, ctls[..]);
    }

    /** `save_mixer_state`: the wanted values become the saved ones. */
    method SaveMixerState()
      requires Valid()
      modifies ctls
      ensures Valid()
      ensures forall i | 0 <= i < ctls.Length ::
        ctls[i] == (if old(ctls[i]).kind == Unsupported then old(ctls[i])
                    else old(ctls[i]).(saved := old(ctls[i]).wanted))
    {
      ghost var was := ctls[..];
      var i := 0;
      while i < ctls.Length
        invariant 0 <= i <= ctls.Length
        invariant forall k | i <= k < ctls.Length :: ctls[k] == was[k]
        invariant forall k | 0 <= k < i ::
          ctls[k] == if was[k].kind == Unsupported then was[k] else was[k].(saved := was[k].wanted)
      {
        if ctls[i].kind != Unsupported {
          ctls[i] := ctls[i].(saved := ctls[i].wanted);
        }
        i := i + 1;
      }
      ShapeKeepsFit(paths, was, ctls[..]);
    }

    /** A top-level control element. */
    method SetInitial(ctl: nat, id: Option<int>, value: int, values: seq<int>)
      requires Valid() && ctl < ctls.Length
      requires ctls[ctl].kind in {Byte, Int} ==> |values| >= (if id.Some? then 1 else |ctls[ctl].wanted|)
      modifies ctls
      ensures Valid()
      ensures ctls[..] == old(ctls[..])[ctl := SetWanted(old(ctls[ctl]), id, value, values)]
    {
      ghost var was := ctls[..];
      var c := ctls[ctl];
      if c.kind != Unsupported {
        match id {
          case Some(at) =>
            if 0 <= at < |c.wanted| {
              var stored := StoreAs(c.kind, if c.kind == Byte || c.kind == Int then values[0] else value);
              ctls[ctl] := WithWanted(c, c.wanted[at := stored]);
            }
          case None =>
            ctls[ctl] := WithWanted(c, seq(|c.wanted|, j requires 0 <= j < |c.wanted| =>
              StoreAs(c.kind, if c.kind == Byte || c.kind == Int then values[j] else value)));
        }
        assert ctls[ctl].wanted == SetWanted(c, id, value, values).wanted;
      }
      ShapeKeepsFit(paths, was, ctls[..]);
    }

    /** `path_get_by_name`. */
    method PathGetByName(name: string) returns (k: int)
      ensures k == FindPath(paths, name)
    {
      var i := 0;
      while i < |paths|
        invariant 0 <= i <= |paths|
        invariant forall j | 0 <= j < i :: paths[j].name != name
      {
        if paths[i].name == name {
          return i;
        }
        i := i + 1;
      }
      return -1;
    }

    /** `path_create`: a new empty path, or -1 when the name is taken. */
    method PathCreate(name: string) returns (k: int)
      requires Valid()
      modifies this`paths
      ensures Valid()
      ensures FindPath(old(paths), name) >= 0 ==> k == -1 && paths == old(paths)
      ensures FindPath(old(paths), name) < 0 ==> k == |old(paths)| && paths == old(paths) + [Path(name, [])]
    {
      k := PathGetByName(name);
      if k >= 0 {
        return -1;
      }
      paths := paths + [Path(name, [])];
      return |paths| - 1;
    }

    /** `path_add_path`: copies settings until one is refused. */
    method PathAddPath(k: nat, sub: nat) returns (ok: bool)
      requires Valid() && k < |paths| && sub < |paths|
      modifies this`paths
      ensures Valid()
      ensures (paths, ok) == (old(paths)[k := AddPath(old(paths)[k], old(paths)[sub].settings).0],
                              AddPath(old(paths)[k], old(paths)[sub].settings).1)
    {
      ghost var was := paths;
      var settings := paths[sub].settings;
      AddPathKeepsFit(paths[k], settings, ctls[..]);
      var i := 0;
      while i < |settings|
        invariant 0 <= i <= |settings|
        invariant |paths| == |was| && paths == was[k := paths[k]] && paths[k].name == was[k].name
        invariant AddPath(was[k], settings) == AddPath(paths[k], settings[i..])
      {
        assert settings[i..][1..] == settings[i + 1..];
        var (q, added) := AddSetting(paths[k], settings[i]);
        if !added {
          return false;
        }
        paths := paths[k := q];
        i := i + 1;
      }
      return true;
    }

    /** `path_add_value`; unsupported controls are refused. */
    method PathAddValue(k: nat, mv: MixerValue) returns (ok: bool)
      requires Valid() && k < |paths| && mv.ctl < ctls.Length
      requires ctls[mv.ctl].kind != Unsupported ==> Provided(mv, ctls[mv.ctl].kind, |ctls[mv.ctl].wanted|)
      modifies this`paths
      ensures Valid()
      ensures if ctls[mv.ctl].kind == Unsupported then !ok && paths == old(paths)
              else
                var added := AddValue(old(paths)[k], ctls[mv.ctl].kind, |ctls[mv.ctl].wanted|, mv);
                paths == old(paths)[k := added.0] && ok == added.1
    {
      if ctls[mv.ctl].kind == Unsupported {
        return false;
      }
      AddValueKeepsFit(paths[k], ctls[..], mv);
      var (q, added) := AddValue(paths[k], ctls[mv.ctl].kind, |ctls[mv.ctl].wanted|, mv);
      paths := paths[k := q];
      return added;
    }

    /** The element handler `start_tag`. */
    method HandleElement(current: int, tag: Tag) returns (next: int)
      requires Valid() && -1 <= current < |paths| && TagFits(tag, ctls[..])
      modifies this`paths, ctls
      ensures Valid()
      ensures Loading(ctls[..], paths, next) == Element(Loading(old(ctls[..]), old(paths), current), tag)
      ensures forall i | 0 <= i < ctls.Length :: SameButWanted(ctls[i], old(ctls[i]))
    {
      hide FindPath, AddPath, AddValue, Provided;
      next := current;
      match tag {
        case TopPath(name) =>
          next := PathCreate(name);
        case NestedPath(name) =>
          var sub := PathGetByName(name);
          if sub >= 0 && current >= 0 {
            var _ := PathAddPath(current, sub);
          }
        case TopCtl(ctl, id, value, values) =>
          SetInitial(ctl, id, value, values);
        case NestedCtl(mv) =>
          if current >= 0 {
            var _ := PathAddValue(current, mv);
          }
      }
    }

    /** The element handler over a whole document. */
    method Parse(tags: seq<Tag>)
      requires Valid()
      requires forall k | 0 <= k < |tags| :: TagFits(tags[k], ctls[..])
      modifies this`paths, ctls
      ensures Valid()
      ensures var r := Elements(Loading(old(ctls[..]), old(paths), -1), tags);
        ctls[..] == r.cs && paths == r.paths
      ensures forall i | 0 <= i < ctls.Length :: SameButWanted(ctls[i], old(ctls[i]))
    {
      ghost var was, start := ctls[..], Loading(ctls[..], paths, -1);
      var current := -1;
      var n := 0;
      while n < |tags|
        invariant 0 <= n <= |tags|
        invariant Valid() && -1 <= current < |paths|
        invariant forall i | 0 <= i < ctls.Length :: SameButWanted(ctls[i], was[i])
        invariant Elements(start, tags) == Elements(Loading(ctls[..], paths, current), tags[n..])
      {
        hide Element;
        TagStillFits(tags[n], was, ctls[..]);
        assert tags[n..][1..] == tags[n + 1..];
        current := HandleElement(current, tags[n]);
        n := n + 1;
      }
    }

    /** `audio_route_init` after the parser is set up: parse, write the initial values, save them.
        What it leaves is what a run of path calls starts from. */
    method Init(tags: seq<Tag>)
      requires Valid()
      requires forall i | 0 <= i < ctls.Length ::
        ctls[i].active == 0 && (ctls[i].kind != Unsupported ==> HwAgrees(ctls[i]))
      requires forall k | 0 <= k < |tags| :: TagFits(tags[k], ctls[..])
      modifies this`paths, ctls
      ensures Valid()
      ensures forall i | 0 <= i < ctls.Length ::
        Settled(ctls[i]) && ctls[i].active == 0 && ctls[i].kind == old(ctls[i]).kind
        && (ctls[i].kind != Unsupported ==> ctls[i].wanted == ctls[i].saved)
      ensures var r := Elements(Loading(old(ctls[..]), old(paths), -1), tags);
        paths == r.paths && |r.cs| == ctls.Length
        && forall i | 0 <= i < ctls.Length && ctls[i].kind != Unsupported :: ctls[i].wanted == r.cs[i].wanted
    {
      Parse(tags);
      UpdateMixer();
      SaveMixerState();
    }

    // ----- the path calls -----

    /** `path_apply`. */
    method PathApply(settings: seq<Setting>)
      requires Distinct(settings) && forall k | 0 <= k < |settings| :: Fits(settings[k], ctls[..])
      modifies ctls
      ensures ctls[..] == Applied(old(ctls[..]), settings)
    {
      ghost var was := ctls[..];
      var i := 0;
      while i < |settings|
        invariant 0 <= i <= |settings|
        invariant ctls[..] == Applied(was, settings[..i])
      {
        var s := settings[i];
        assert Fits(s, was);
        NextIsNew(settings, i);
        if ctls[s.ctl].kind != Unsupported {
          ctls[s.ctl] := WithWanted(ctls[s.ctl], s.values);
        }
        i := i + 1;
      }
      assert settings[..i] == settings;
    }

    /** `path_reset`. */
    method PathReset(settings: seq<Setting>)
      requires Distinct(settings) && forall k | 0 <= k < |settings| :: Fits(settings[k], ctls[..])
      modifies ctls
      ensures ctls[..] == Restored(old(ctls[..]), settings)
    {
      ghost var was := ctls[..];
      var i := 0;
      while i < |settings|
        invariant 0 <= i <= |settings|
        invariant ctls[..] == Restored(was, settings[..i])
      {
        var s := settings[i];
        assert Fits(s, was);
        NextIsNew(settings, i);
        if ctls[s.ctl].kind != Unsupported {
          ctls[s.ctl] := WithWanted(ctls[s.ctl], ctls[s.ctl].saved);
        }
        i := i + 1;
      }
      assert settings[..i] == settings;
    }

    /** `audio_route_update_path`: in listed order forward, in reverse order otherwise. */
    method UpdatePath(settings: seq<Setting>, dir: Direction)
      requires ControlsFit()
      requires Distinct(settings) && forall k | 0 <= k < |settings| :: Fits(settings[k], ctls[..])
      modifies ctls
      ensures ctls[..] == Updated(old(ctls[..]), settings, dir)
    {
      hide Update, WellFormed, Lookup, Handled;
      ghost var was := ctls[..];
      HandledEnds(settings, dir);
      var n := |settings|;
      var i := 0;
      while i < n
        invariant 0 <= i <= n
        invariant ControlsFit()
        invariant ctls[..] == Updated(was, Handled(settings, i, dir), dir)
      {
        var s := settings[if dir == Forward then i else n - 1 - i];
        assert Fits(s, was);
        HandledNext(settings, i, dir);
        if ctls[s.ctl].kind != Unsupported {
          ctls[s.ctl] := Update(ctls[s.ctl], dir);
        }
        i := i + 1;
      }
    }

    /** `audio_route_apply_and_update_path`: false and no change for an unknown name. */
    method ApplyAndUpdatePath(name: string) returns (ok: bool)
      requires Valid()
      modifies ctls
      ensures Valid()
      ensures ok <==> FindPath(paths, name) >= 0
      ensures !ok ==> ctls[..] == old(ctls[..])
      ensures ok ==> forall i | 0 <= i < ctls.Length ::
        EventFits(Apply(paths[FindPath(paths, name)]), i, old(ctls[i]))
        && ctls[i] == Step(old(ctls[i]), i, Apply(paths[FindPath(paths, name)]))
    {
      var k := PathGetByName(name);
      if k < 0 {
        return false;
      }
      var p := paths[k];
      ghost var was := ctls[..];
      TouchedFit(p, was);
      PathApply(p.settings);
      ghost var applied := ctls[..];
      ShapeKeepsFit(paths, was, applied);
      UpdatePath(p.settings, Forward);
      ShapeKeepsFit(paths, applied, ctls[..]);
      return true;
    }

    /** `audio_route_reset_and_update_path`. */
    method ResetAndUpdatePath(name: string) returns (ok: bool)
      requires Valid()
      modifies ctls
      ensures Valid()
      ensures ok <==> FindPath(paths, name) >= 0
      ensures !ok ==> ctls[..] == old(ctls[..])
      ensures ok ==> forall i | 0 <= i < ctls.Length ::
        EventFits(Reset(paths[FindPath(paths, name)]), i, old(ctls[i]))
        && ctls[i] == Step(old(ctls[i]), i, Reset(paths[FindPath(paths, name)]))
    {
      var k := PathGetByName(name);
      if k < 0 {
        return false;
      }
      var p := paths[k];
      ghost var was := ctls[..];
      TouchedFit(p, was);
      PathReset(p.settings);
      ghost var restored := ctls[..];
      ShapeKeepsFit(paths, was, restored);
      UpdatePath(p.settings, Reverse);
      ShapeKeepsFit(paths, restored, ctls[..]);
      return true;
    }

    /** `audio_route_force_reset_and_update_path`. */
    method ForceResetAndUpdatePath(name: string) returns (ok: bool)
      requires Valid()
      modifies ctls
      ensures Valid()
      ensures ok <==> FindPath(paths, name) >= 0
      ensures !ok ==> ctls[..] == old(ctls[..])
      ensures ok ==> forall i | 0 <= i < ctls.Length ::
        WellFormed(WithWanted(old(ctls[i]), old(ctls[i]).saved)) || !Touches(paths[FindPath(paths, name)], i)
      ensures ok ==> forall i | 0 <= i < ctls.Length ::
        ctls[i] == (if Touches(paths[FindPath(paths, name)], i)
                    then Update(WithWanted(old(ctls[i]), old(ctls[i]).saved), ReverseReset) else old(ctls[i]))
    {
      var k := PathGetByName(name);
      if k < 0 {
        return false;
      }
      var p := paths[k];
      ghost var was := ctls[..];
      TouchedFit(p, was);
      PathReset(p.settings);
      ghost var restored := ctls[..];
      ShapeKeepsFit(paths, was, restored);
      UpdatePath(p.settings, ReverseReset);
      ShapeKeepsFit(paths, restored, ctls[..]);
      return true;
    }

    /** Any sequence of calls: every control of the table takes the run of their events. */
    method MakeCalls(calls: seq<MixerCall>)
      requires Valid()
      modifies ctls
      ensures Valid()
      ensures forall i | 0 <= i < ctls.Length ::
        RunFits(Events(paths, calls), i, old(ctls[i]))
        && ctls[i] == Run(old(ctls[i]), i, Events(paths, calls))
    {
      hide Run, Step, Update, WellFormed, Lookup, Events, FindPath;
      ghost var was := ctls[..];
      AllEventsFit(paths, calls, was);
      NoEvents(paths, was);
      for n := 0 to |calls|
        invariant Valid()
        invariant forall i | 0 <= i < ctls.Length ::
          RunFits(Events(paths, calls[..n]), i, was[i]) && ctls[i] == Run(was[i], i, Events(paths, calls[..n]))
      {
        var call := calls[n];
        ghost var before, es := ctls[..], Events(paths, calls[..n]);
        var ok;
        if call.apply {
          ok := ApplyAndUpdatePath(call.name);
        } else {
          ok := ResetAndUpdatePath(call.name);
        }
        OneMoreCall(paths, calls, n);
        AllEventsFit(paths, calls[..n + 1], was);
        if ok {
          ghost var p := paths[FindPath(paths, call.name)];
          ghost var e := if call.apply then Apply(p) else Reset(p);
          forall i | 0 <= i < ctls.Length ensures ctls[i] == Run(was[i], i, es + [e]) {
            RunOfMore(was[i], i, es, e);
          }
        } else {
          assert es + [] == es;
        }
      }
      assert calls[..|calls|] == calls;
    }
  }

  lemma AllEventsFit(paths: seq<Path>, calls: seq<MixerCall>, cs: seq<Control>)
    requires forall k | 0 <= k < |paths| :: PathFits(paths[k], cs)
    requires forall i | 0 <= i < |cs| :: WellFormed(cs[i])
    ensures forall i | 0 <= i < |cs| :: RunFits(Events(paths, calls), i, cs[i])
  {
    forall i | 0 <= i < |cs| ensures RunFits(Events(paths, calls), i, cs[i]) {
      EventsFit(paths, calls, cs, i);
    }
  }

  lemma NoEvents(paths: seq<Path>, cs: seq<Control>)
    requires forall i | 0 <= i < |cs| :: WellFormed(cs[i])
    ensures Events(paths, []) == []
    ensures forall i | 0 <= i < |cs| :: RunFits([], i, cs[i]) && Run(cs[i], i, []) == cs[i]
  {}

  lemma OneMoreCall(paths: seq<Path>, calls: seq<MixerCall>, n: nat)
    requires n < |calls|
    ensures var k := FindPath(paths, calls[n].name);
      Events(paths, calls[..n + 1])
      == Events(paths, calls[..n]) + if k < 0 then [] else [if calls[n].apply then Apply(paths[k]) else Reset(paths[k])]
  {
    assert calls[..n + 1][..n] == calls[..n];
  }

  /** The settings a path update has handled after `i` rounds. */
  function Handled(settings: seq<Setting>, i: nat, dir: Direction): seq<Setting>
    requires i <= |settings|
  {
    if dir == Forward then settings[..i] else settings[|settings| - i..]
  }

  lemma HandledEnds(settings: seq<Setting>, dir: Direction)
    ensures forall c :: Lookup(Handled(settings, 0, dir), c).None?
    ensures Handled(settings, |settings|, dir) == settings
  {
    assert Handled(settings, 0, dir) == [];
  }

  lemma HandledNext(settings: seq<Setting>, i: nat, dir: Direction)
    requires Distinct(settings) && i < |settings|
    ensures var s := settings[if dir == Forward then i else |settings| - 1 - i];
      && Lookup(Handled(settings, i, dir), s.ctl).None?
      && forall c :: Lookup(Handled(settings, i + 1, dir), c)
                  == if c == s.ctl then Some(s) else Lookup(Handled(settings, i, dir), c)
  {
    if dir == Forward {
      NextIsNew(settings, i);
    } else {
      PreviousIsNew(settings, |settings| - i);
    }
  }

  lemma TouchedFit(p: Path, cs: seq<Control>)
    requires PathFits(p, cs) && forall i | 0 <= i < |cs| :: WellFormed(cs[i])
    ensures forall i | 0 <= i < |cs| && Touches(p, i) ::
      cs[i].kind != Unsupported && |Lookup(p.settings, i).value.values| == |cs[i].wanted| == |cs[i].saved|
  {
    forall i | 0 <= i < |cs| && Touches(p, i)
      ensures cs[i].kind != Unsupported && |Lookup(p.settings, i).value.values| == |cs[i].wanted| == |cs[i].saved|
    {
      LookupFits(p, cs, i);
    }
  }

  /** Taking one more setting from the front. */
  lemma NextIsNew(settings: seq<Setting>, i: nat)
    requires Distinct(settings) && i < |settings|
    ensures Lookup(settings[..i], settings[i].ctl).None?
    ensures forall c :: Lookup(settings[..i + 1], c)
                     == if c == settings[i].ctl then Some(settings[i]) else Lookup(settings[..i], c)
  {
    if Lookup(settings[..i], settings[i].ctl).Some? {
      var k := LookupAt(settings[..i], settings[i].ctl);
      assert false;
    }
    forall c
      ensures Lookup(settings[..i + 1], c)
           == if c == settings[i].ctl then Some(settings[i]) else Lookup(settings[..i], c)
    {
      assert settings[..i + 1] == settings[..i] + [settings[i]];
      LookupAppend(settings[..i], [settings[i]], c);
      assert [settings[i]][1..] == [];
    }
  }

  /** Taking one more setting from the back. */
  lemma PreviousIsNew(settings: seq<Setting>, i: nat)
    requires Distinct(settings) && 0 < i <= |settings|
    ensures Lookup(settings[i..], settings[i - 1].ctl).None?
    ensures forall c :: Lookup(settings[i - 1..], c)
                     == if c == settings[i - 1].ctl then Some(settings[i - 1]) else Lookup(settings[i..], c)
  {
    if Lookup(settings[i..], settings[i - 1].ctl).Some? {
      var k := LookupAt(settings[i..], settings[i - 1].ctl);
      assert false;
    }
    assert settings[i - 1..][1..] == settings[i..];
  }
}
