/** Fence descriptors and the WIDE to SINGLE drain of dualscreen/hwcomposer/hwc2_fujisan.cpp, one
    entry point a step. */
module HwcFences {
  import opened Common

  /** What a descriptor stands for: the completion of the n-th WIDE submit, or anything else. */
  datatype Object = Completion(n: nat) | Other

  /** A client target as gralloc reports it. */
  datatype Buffer = Buffer(valid: bool, width: int, height: int, stride: int, rgb: bool, linear: bool, fits: bool)

  datatype Endpoint = Endpoint(target: Option<Buffer>, fence: int)

  /** Commits in the order they were issued: the n-th WIDE submit and whether it returned true, or a
      SINGLE one with how far the WIDE timeline had signalled when it was issued. */
  datatype Commit = Wide(n: nat, done: bool) | Single(signalled: nat)

  /** The device, and beside it what the process owns: every open descriptor, those nobody will ever
      close, closes of descriptors not owned, those handed to the caller; and the WIDE timeline:
      submits, one past the last that returned true, and how many have signalled. */
  datatype Hwc = Hwc(
    small: Endpoint, wide: Endpoint, frame: int, active: bool, drain: int,
    owned: map<int, Object>, leaked: set<int>, badCloses: nat, given: seq<int>,
    submits: nat, done: nat, signalled: nat, commits: seq<Commit>)

  /** What the surroundings answer during one call; negative descriptors mean failure. */
  datatype Env = Env(waitOk: bool, node: int, accepted: bool, release: int, retire: int, copy: int)

  datatype Status = NoError | NoResources | BadConfig

  const ZOOM_WIDTH := 2160
  const ZOOM_HEIGHT := 1915
  const SEC_WIDTH := 1080
  const SEC_HEIGHT := 1920

  function Start(): Hwc {
    Hwc(Endpoint(None, -1), Endpoint(None, -1), -1, false, -1, map[], {}, 0, [], 0, 0, 0, [])
  }

  // ----- descriptors -----

  /** `if (fd >= 0) close(fd)`; closing what is not open is recorded. */
  function Close(s: Hwc, fd: int): (t: Hwc)
    ensures t == s.(owned := t.owned, badCloses := t.badCloses)
  {
    if fd < 0 then s
    else if fd in s.owned then s.(owned := s.owned - {fd})
    else s.(badCloses := s.badCloses + 1)
  }

  function Gain(s: Hwc, fd: int, what: Object): (t: Hwc)
    ensures t == s.(owned := t.owned)
  {
    if fd < 0 then s else s.(owned := s.owned[fd := what])
  }

  /** A descriptor handed to the caller. */
  function Give(s: Hwc, fd: int): Hwc {
    s.(owned := s.owned - {fd}, given := s.given + [fd])
  }

  // ----- the wide route -----

  function CloseWideFramebuffer(s: Hwc): Hwc {
    var s1 := Close(s.(drain := -1, active := false), s.drain);
    Close(s1.(frame := -1), s1.frame)
  }

  function Max(a: nat, b: nat): nat {
    if a > b then a else b
  }

  /** A successful wait means the timeline has passed the fence. */
  function Waited(s: Hwc, fd: int): Hwc {
    if fd in s.owned && s.owned[fd].Completion? then s.(signalled := Max(s.signalled, s.owned[fd].n + 1)) else s
  }

  function DrainWideRoute(s: Hwc, waitOk: bool): (bool, Hwc) {
    if !s.active then (true, s)
    else if s.drain < 0 || !waitOk then (false, s)
    else (true, CloseWideFramebuffer(Close(Waited(s, s.drain).(drain := -1, active := false), s.drain)))
  }

  function OpenFramebuffer(s: Hwc, node: int): (t: Hwc)
    ensures t == s.(owned := t.owned, frame := t.frame)
  {
    if s.frame >= 0 then s else Gain(s, node, Other).(frame := node)
  }

  predicate Fits(target: Option<Buffer>, width: int, height: int) {
    target.Some? && var b := target.value;
      b.valid && b.linear && b.rgb && b.width == width && b.height == height && b.stride >= width && b.fits
  }

  /** What both submits do with the fences of an incomplete or refused commit. */
  function DropFences(s: Hwc, env: Env): (t: Hwc)
    ensures t == s.(owned := t.owned, badCloses := t.badCloses)
  {
    Close(Close(s, env.release), env.retire)
  }

  /** The retire fence goes to the caller if he asked for it. */
  function Report(s: Hwc, retire: int, wanted: bool): (t: Hwc)
    ensures t == s.(owned := t.owned, badCloses := t.badCloses, given := t.given)
    ensures t.given == s.given + if wanted then [retire] else []
  {
    if wanted then Give(s, retire) else Close(s, retire)
  }

  predicate Complete(env: Env) {
    env.accepted && env.release >= 0 && env.retire >= 0
  }

  function Retain(s: Hwc, copy: int, n: nat): (t: Hwc)
    ensures t == s.(owned := t.owned, badCloses := t.badCloses, drain := t.drain, active := t.active)
  {
    if copy < 0 then s
    else Close(Gain(s, copy, Completion(n)), s.drain).(drain := copy, active := true)
  }

  /** The WIDE commit itself, from the ioctl on. */
  function CommitWide(s: Hwc, fence: int, wanted: bool, env: Env): (bool, Hwc) {
    var n := s.submits;
    var s1 := Close(Gain(Gain(s, env.release, Completion(n)), env.retire, Other), fence).(submits := n + 1);
    if !Complete(env) then (false, DropFences(s1, env).(commits := s.commits + [Wide(n, false)]))
    else
      var s2 := Close(Retain(s1, env.copy, n), env.release);
      (true, Report(s2, env.retire, wanted).(commits := s.commits + [Wide(n, true)], done := n + 1))
  }

  /** `SubmitWideClientTarget`: whether it returned true, and the state after. */
  function SubmitWide(s: Hwc, target: Option<Buffer>, fence: int, wanted: bool, env: Env): (bool, Hwc) {
    if !Fits(target, ZOOM_WIDTH, ZOOM_HEIGHT) then (false, Close(s, fence))
    else
      var s1 := OpenFramebuffer(s, env.node);
      if s1.frame < 0 then (false, Close(s1, fence)) else CommitWide(s1, fence, wanted, env)
  }

  /** `SubmitSingleClientTarget`. */
  function SubmitSingle(s: Hwc, target: Option<Buffer>, fence: int, wanted: bool, env: Env): (bool, Hwc) {
    if !Fits(target, SEC_WIDTH, SEC_HEIGHT) then (false, Close(s, fence))
    else
      var s1 := OpenFramebuffer(s, env.node);
      if s1.frame < 0 then (false, Close(s1, fence))
      else
        var gained := Gain(Gain(s1, env.release, Other), env.retire, Other);
        var s2 := Close(gained, fence).(commits := s1.commits + [Single(s1.signalled)]);
        if !Complete(env) then (false, DropFences(s2, env))
        else (true, Report(Close(s2, env.release), env.retire, wanted))
  }

  // ----- entry points -----

  function EndpointOf(s: Hwc, wide: bool): Endpoint {
    if wide then s.wide else s.small
  }

  function WithEndpoint(s: Hwc, wide: bool, e: Endpoint): Hwc {
    if wide then s.(wide := e) else s.(small := e)
  }

  predicate Expected(target: Buffer, wide: bool) {
    if wide then target.width == ZOOM_WIDTH && target.height == ZOOM_HEIGHT
    else target.width == SEC_WIDTH && target.height == SEC_HEIGHT
  }

  function PresentDisplay(s: Hwc, wide: bool, wanted: bool, env: Env): (Status, Hwc) {
    var e := EndpointOf(s, wide);
    var s1 := WithEndpoint(s, wide, e.(fence := -1));
    var (drained, s2) := if wide then (true, s1) else DrainWideRoute(s1, env.waitOk);
    if !drained then (NoResources, Close(s2, e.fence))
    else if e.target == None || !Expected(e.target.value, wide) then (NoError, Close(s2, e.fence))
    else
      var (ok, s3) := if wide then SubmitWide(s2, e.target, e.fence, wanted, env)
                      else SubmitSingle(s2, e.target, e.fence, wanted, env);
      (if ok then NoError else NoResources, s3)
  }

  /** The caller's fence belongs to the callee from the call on. */
  function SetClientTarget(s: Hwc, wide: bool, target: Option<Buffer>, fence: int, env: Env): (Status, Hwc) {
    var s1 := Gain(s, fence, Other);
    var (drained, s2) := if wide then (true, s1) else DrainWideRoute(s1, env.waitOk);
    if !drained then (NoResources, s2.(leaked := s2.leaked + if fence >= 0 then {fence} else {}))
    else (NoError, WithEndpoint(Close(s2, EndpointOf(s2, wide).fence), wide, Endpoint(target, fence)))
  }

  function SetActiveConfig(s: Hwc, wide: bool, matches: bool, env: Env): (Status, Hwc) {
    if !matches then (BadConfig, s)
    else if wide then (NoError, s)
    else
      var (drained, s1) := DrainWideRoute(s, env.waitOk);
      (if drained then NoError else NoResources, s1)
  }

  function HwcClose(s: Hwc): Hwc {
    var s1 := CloseWideFramebuffer(s);
    Close(Close(s1.(small := s1.small.(fence := -1), wide := s1.wide.(fence := -1)), s1.small.fence), s1.wide.fence)
  }

  datatype Call =
    | Target(wide: bool, target: Option<Buffer>, fence: int)
    | Present(wide: bool, wanted: bool)
    | Config(wide: bool, matches: bool)
    | Signal(upTo: nat)

  function Step(s: Hwc, call: Call, env: Env): Hwc {
    match call
    case Target(wide, target, fence) => SetClientTarget(s, wide, target, fence, env).1
    case Present(wide, wanted) => PresentDisplay(s, wide, wanted, env).1
    case Config(wide, matches) => SetActiveConfig(s, wide, matches, env).1
    case Signal(upTo) => s.(signalled := Max(s.signalled, upTo))
  }

  // ----- descriptors are conserved -----

  function FdSet(fd: int): set<int> {
    if fd >= 0 then {fd} else {}
  }

  function Held(s: Hwc): set<int> {
    FdSet(s.small.fence) + FdSet(s.wide.fence) + FdSet(s.frame) + FdSet(s.drain)
  }

  predicate Differ(a: int, b: int) {
    a < 0 || a != b
  }

  /** Every owned descriptor is held by exactly one field, or is in hand, or is leaked; and no close
      has gone wrong. */
  ghost predicate Accounts(s: Hwc, hand: set<int>) {
    && Differ(s.small.fence, s.wide.fence) && Differ(s.small.fence, s.frame) && Differ(s.small.fence, s.drain)
    && Differ(s.wide.fence, s.frame) && Differ(s.wide.fence, s.drain) && Differ(s.frame, s.drain)
    && s.owned.Keys == Held(s) + s.leaked + hand && (forall fd | fd in s.owned :: fd >= 0)
    && Held(s) !! s.leaked && Held(s) !! hand && s.leaked !! hand
    && s.badCloses == 0
    && (s.active <==> s.drain >= 0)
  }

  /** The kernel hands out numbers that are free at that moment: one for the framebuffer if it has to be
      opened, and then two for the fences of the commit. */
  predicate Granted(s: Hwc, env: Env) {
    && (s.frame < 0 ==> env.node !in s.owned)
    && var now := OpenFramebuffer(s, env.node).owned;
       env.release !in now && env.retire !in now && Differ(env.release, env.retire)
  }

  /** When the fence is copied the acquire fence has been closed, so that the copy may take its number. */
  predicate CopyGranted(s: Hwc, fence: int, env: Env) {
    && (env.copy !in OpenFramebuffer(s, env.node).owned || env.copy == fence)
    && Differ(env.copy, env.release) && Differ(env.copy, env.retire)
  }

  /** The state in which a present submits: its acquire fence taken, and a Small one after the drain. */
  function Submitting(s: Hwc, wide: bool, env: Env): Hwc {
    var taken := WithEndpoint(s, wide, EndpointOf(s, wide).(fence := -1));
    if wide then taken else DrainWideRoute(taken, env.waitOk).1
  }

  predicate PresentOk(s: Hwc, wide: bool, env: Env) {
    && Granted(Submitting(s, wide, env), env)
    && (wide ==> CopyGranted(Submitting(s, wide, env), s.wide.fence, env))
  }

  predicate CallOk(s: Hwc, call: Call, env: Env) {
    match call
    case Target(_, _, fence) => fence !in s.owned
    case Present(wide, _) => PresentOk(s, wide, env)
    case _ => true
  }

  lemma CloseInHand(s: Hwc, fd: int, hand: set<int>)
    requires Accounts(s, hand + FdSet(fd)) && fd !in hand
    ensures Accounts(Close(s, fd), hand)
  {}

  lemma GiveInHand(s: Hwc, fd: int, hand: set<int>)
    requires Accounts(s, hand + FdSet(fd)) && fd !in hand && fd >= 0
    ensures Accounts(Give(s, fd), hand)
  {}

  lemma GainInHand(s: Hwc, fd: int, what: Object, hand: set<int>)
    requires Accounts(s, hand) && fd !in s.owned
    ensures Accounts(Gain(s, fd, what), hand + FdSet(fd)) && Gain(s, fd, what).owned.Keys == s.owned.Keys + FdSet(fd)
  {}

  /** A descriptor taken out of the fields that hold it. */
  lemma TakeDrain(s: Hwc, hand: set<int>)
    requires Accounts(s, hand)
    ensures Accounts(s.(drain := -1, active := false), hand + FdSet(s.drain)) && s.drain !in hand
  {}

  lemma TakeFrame(s: Hwc, hand: set<int>)
    requires Accounts(s, hand)
    ensures Accounts(s.(frame := -1), hand + FdSet(s.frame)) && s.frame !in hand
  {}

  lemma TakeFence(s: Hwc, wide: bool, hand: set<int>)
    requires Accounts(s, hand)
    ensures var e := EndpointOf(s, wide);
      Accounts(WithEndpoint(s, wide, e.(fence := -1)), hand + FdSet(e.fence)) && e.fence !in hand
  {}

  lemma NewTarget(s: Hwc, wide: bool, e: Endpoint, hand: set<int>)
    requires Accounts(s, hand + FdSet(e.fence)) && e.fence !in hand && EndpointOf(s, wide).fence < 0
    ensures Accounts(WithEndpoint(s, wide, e), hand)
  {}

  /** Counters and the trace do not matter to the accounts. */
  lemma SameBooks(s: Hwc, t: Hwc, hand: set<int>)
    requires Accounts(s, hand)
    requires t == s.(submits := t.submits, done := t.done, signalled := t.signalled, commits := t.commits)
    ensures Accounts(t, hand)
  {}

  lemma CloseWideAccounts(s: Hwc, hand: set<int>)
    requires Accounts(s, hand)
    ensures Accounts(CloseWideFramebuffer(s), hand)
    ensures CloseWideFramebuffer(s)
         == s.(frame := -1, drain := -1, active := false, owned := s.owned - FdSet(s.drain) - FdSet(s.frame))
  {
    TakeDrain(s, hand);
    CloseInHand(s.(drain := -1, active := false), s.drain, hand);
    var s1 := Close(s.(drain := -1, active := false), s.drain);
    TakeFrame(s1, hand);
    CloseInHand(s1.(frame := -1), s1.frame, hand);
  }

  /** A drain that waited closes the drain fence and the framebuffer and nothing else; otherwise nothing
      changes. */
  lemma DrainAccounts(s: Hwc, waitOk: bool, hand: set<int>)
    requires Accounts(s, hand)
    ensures Accounts(DrainWideRoute(s, waitOk).1, hand)
    ensures DrainWideRoute(s, waitOk).0 <==> !s.active || waitOk
    ensures DrainWideRoute(s, waitOk).1 == if s.active && waitOk
      then Waited(s, s.drain).(frame := -1, drain := -1, active := false,
                               owned := s.owned - FdSet(s.drain) - FdSet(s.frame))
      else s
  {
    if s.active && waitOk {
      var w := Waited(s, s.drain);
      SameBooks(s, w, hand);
      TakeDrain(w, hand);
      CloseInHand(w.(drain := -1, active := false), s.drain, hand);
      var s1 := Close(w.(drain := -1, active := false), s.drain);
      CloseWideAccounts(s1, hand);
      assert s1.owned == s.owned - FdSet(s.drain);
      assert s1.owned - FdSet(-1) - FdSet(s1.frame) == s.owned - FdSet(s.drain) - FdSet(s.frame);
    }
  }

  lemma OpenAccounts(s: Hwc, node: int, hand: set<int>)
    requires Accounts(s, hand) && (s.frame < 0 ==> node !in s.owned)
    ensures Accounts(OpenFramebuffer(s, node), hand)
  {}

  lemma RetainAccounts(s: Hwc, copy: int, n: nat, hand: set<int>)
    requires Accounts(s, hand) && copy !in s.owned
    ensures Accounts(Retain(s, copy, n), hand)
  {
    if copy >= 0 {
      hide Accounts;
      GainInHand(s, copy, Completion(n), hand);
      var s1 := Gain(s, copy, Completion(n));
      TakeDrain(s1, hand + {copy});
      var s2 := s1.(drain := -1, active := false);
      CloseInHand(s2, s.drain, hand + {copy});
      InHandIsOwned(s, hand);
      KeepDrain(Close(s2, s.drain), copy, hand);
    }
  }

  lemma KeepDrain(s: Hwc, fd: int, hand: set<int>)
    requires Accounts(s, hand + {fd}) && fd >= 0 && fd !in hand && s.drain < 0
    ensures Accounts(s.(drain := fd, active := true), hand)
  {}

  /** The fences of a commit: the acquire fence goes, the two of the kernel come. */
  lemma CommitAccounts(s: Hwc, fence: int, env: Env, what: Object, hand: set<int>)
    requires Accounts(s, hand + FdSet(fence)) && fence !in hand
    requires env.release !in s.owned && env.retire !in s.owned && Differ(env.release, env.retire)
    ensures var t := Close(Gain(Gain(s, env.release, what), env.retire, Other), fence);
      && Accounts(t, hand + FdSet(env.release) + FdSet(env.retire))
      && t.owned.Keys == s.owned.Keys - FdSet(fence) + FdSet(env.release) + FdSet(env.retire)
      && env.release !in hand + FdSet(env.retire) && env.retire !in hand
  {
    hide Accounts, Gain;
    var h, h2 := hand + FdSet(fence), hand + FdSet(env.release) + FdSet(env.retire);
    InHandIsOwned(s, h);
    GainInHand(s, env.release, what, h);
    var s1 := Gain(s, env.release, what);
    GainInHand(s1, env.retire, Other, h + FdSet(env.release));
    var s2 := Gain(s1, env.retire, Other);
    assert h + FdSet(env.release) + FdSet(env.retire) == h2 + FdSet(fence);
    assert fence >= 0 ==> fence in h;
    CloseInHand(s2, fence, h2);
    ClosedKeys(s2, fence);
  }

  lemma ClosedKeys(s: Hwc, fd: int)
    requires fd >= 0 ==> fd in s.owned
    ensures Close(s, fd).owned.Keys == s.owned.Keys - FdSet(fd)
  {}

  lemma InHandIsOwned(s: Hwc, hand: set<int>)
    requires Accounts(s, hand)
    ensures hand <= s.owned.Keys && forall fd | fd in hand :: fd >= 0
  {}

  lemma DropAccounts(s: Hwc, env: Env, hand: set<int>)
    requires Accounts(s, hand + FdSet(env.release) + FdSet(env.retire))
    requires env.release !in hand + FdSet(env.retire) && env.retire !in hand
    ensures Accounts(DropFences(s, env), hand)
  {
    assert hand + FdSet(env.release) + FdSet(env.retire) == (hand + FdSet(env.retire)) + FdSet(env.release);
    CloseInHand(s, env.release, hand + FdSet(env.retire));
    CloseInHand(Close(s, env.release), env.retire, hand);
  }

  lemma ReportAccounts(s: Hwc, retire: int, wanted: bool, hand: set<int>)
    requires Accounts(s, hand + FdSet(retire)) && retire >= 0 && retire !in hand
    ensures Accounts(Report(s, retire, wanted), hand) && retire !in Report(s, retire, wanted).owned
  {
    if wanted {
      GiveInHand(s, retire, hand);
    } else {
      CloseInHand(s, retire, hand);
    }
  }

  lemma SubmitWideAccounts(s: Hwc, target: Option<Buffer>, fence: int, wanted: bool, env: Env, hand: set<int>)
    requires Accounts(s, hand + FdSet(fence)) && fence !in hand
    requires Granted(s, env) && CopyGranted(s, fence, env)
    ensures Accounts(SubmitWide(s, target, fence, wanted, env).1, hand)
  {
    hide Accounts, Close, Gain, DropFences, Retain, Report, OpenFramebuffer, Give;
    if !Fits(target, ZOOM_WIDTH, ZOOM_HEIGHT) {
      CloseInHand(s, fence, hand);
    } else {
      OpenAccounts(s, env.node, hand + FdSet(fence));
      var s1 := OpenFramebuffer(s, env.node);
      if s1.frame < 0 {
        CloseInHand(s1, fence, hand);
      } else {
        CommitAccounts(s1, fence, env, Completion(s1.submits), hand);
        var t := Close(Gain(Gain(s1, env.release, Completion(s1.submits)), env.retire, Other), fence);
        var h := hand + FdSet(env.release) + FdSet(env.retire);
        var s2 := t.(submits := s1.submits + 1);
        SameBooks(t, s2, h);
        CopyIsFree(s1, s2, fence, env);
        if !Complete(env) {
          DropAccounts(s2, env, hand);
          SameBooks(DropFences(s2, env), SubmitWide(s, target, fence, wanted, env).1, hand);
        } else {
          RetainAccounts(s2, env.copy, s1.submits, h);
          assert h == (hand + FdSet(env.retire)) + FdSet(env.release);
          var s3 := Retain(s2, env.copy, s1.submits);
          CloseInHand(s3, env.release, hand + FdSet(env.retire));
          ReportAccounts(Close(s3, env.release), env.retire, wanted, hand);
          SameBooks(Report(Close(s3, env.release), env.retire, wanted),
                    SubmitWide(s, target, fence, wanted, env).1, hand);
        }
      }
    }
  }

  /** Once the acquire fence is closed and the two of the kernel are there, the copy is new. */
  lemma CopyIsFree(s: Hwc, t: Hwc, fence: int, env: Env)
    requires env.copy !in s.owned || env.copy == fence
    requires Differ(env.copy, env.release) && Differ(env.copy, env.retire)
    requires t.owned.Keys == s.owned.Keys - FdSet(fence) + FdSet(env.release) + FdSet(env.retire)
    requires forall fd | fd in t.owned :: fd >= 0
    ensures env.copy !in t.owned
  {}

  lemma SubmitSingleAccounts(s: Hwc, target: Option<Buffer>, fence: int, wanted: bool, env: Env, hand: set<int>)
    requires Accounts(s, hand + FdSet(fence)) && fence !in hand
    requires Granted(s, env)
    ensures Accounts(SubmitSingle(s, target, fence, wanted, env).1, hand)
  {
    hide Accounts, Close, Gain, DropFences, Report, OpenFramebuffer, Give;
    if !Fits(target, SEC_WIDTH, SEC_HEIGHT) {
      CloseInHand(s, fence, hand);
    } else {
      OpenAccounts(s, env.node, hand + FdSet(fence));
      var s1 := OpenFramebuffer(s, env.node);
      if s1.frame < 0 {
        CloseInHand(s1, fence, hand);
      } else {
        CommitAccounts(s1, fence, env, Other, hand);
        var t := Close(Gain(Gain(s1, env.release, Other), env.retire, Other), fence);
        var h := hand + FdSet(env.release) + FdSet(env.retire);
        var s2 := t.(commits := s1.commits + [Single(s1.signalled)]);
        SameBooks(t, s2, h);
        if !Complete(env) {
          DropAccounts(s2, env, hand);
        } else {
          assert h == (hand + FdSet(env.retire)) + FdSet(env.release);
          CloseInHand(s2, env.release, hand + FdSet(env.retire));
          ReportAccounts(Close(s2, env.release), env.retire, wanted, hand);
        }
      }
    }
  }

  /** What a call leaves alone: leaks, and the other endpoint. */
  ghost predicate Leaves(s: Hwc, t: Hwc, wide: bool) {
    t.leaked == s.leaked && EndpointOf(t, !wide) == EndpointOf(s, !wide)
  }

  lemma WideLeaves(s: Hwc, target: Option<Buffer>, fence: int, wanted: bool, env: Env)
    ensures var (ok, t) := SubmitWide(s, target, fence, wanted, env);
      && t.small == s.small && t.wide == s.wide && t.leaked == s.leaked
      && t.given == s.given + if ok && wanted then [env.retire] else []
  {
    hide Fits, Close, Gain, Retain, Report, DropFences, OpenFramebuffer, Complete;
  }

  lemma SingleLeaves(s: Hwc, target: Option<Buffer>, fence: int, wanted: bool, env: Env)
    ensures var (ok, t) := SubmitSingle(s, target, fence, wanted, env);
      && t.small == s.small && t.wide == s.wide && t.leaked == s.leaked && t.active == s.active && t.drain == s.drain
      && t.given == s.given + if ok && wanted then [env.retire] else []
  {
    hide Fits, Close, Gain, Report, DropFences, OpenFramebuffer, Complete;
  }

  /** A present that gets as far as a commit that is accepted with both fences. */
  predicate Commits(s: Hwc, wide: bool, wanted: bool, env: Env) {
    var target := EndpointOf(s, wide).target;
    PresentDisplay(s, wide, wanted, env).0 == NoError && target.Some? && Expected(target.value, wide)
  }

  lemma PresentAccounts(s: Hwc, wide: bool, wanted: bool, env: Env)
    requires Accounts(s, {}) && PresentOk(s, wide, env)
    ensures Accounts(PresentDisplay(s, wide, wanted, env).1, {})
  {
    hide Accounts, Close, SubmitWide, SubmitSingle, Granted, CopyGranted, DrainWideRoute, Expected;
    var e := EndpointOf(s, wide);
    var s1 := WithEndpoint(s, wide, e.(fence := -1));
    TakeFence(s, wide, {});
    var hand := {} + FdSet(e.fence);
    var (drained, s2) := if wide then (true, s1) else DrainWideRoute(s1, env.waitOk);
    if !wide {
      DrainAccounts(s1, env.waitOk, hand);
    }
    CloseInHand(s2, e.fence, {});
    if drained && e.target.Some? && Expected(e.target.value, wide) {
      if wide {
        SubmitWideAccounts(s2, e.target, e.fence, wanted, env, {});
      } else {
        SubmitSingleAccounts(s2, e.target, e.fence, wanted, env, {});
      }
    }
  }

  /** A drain touches the route and the books only. */
  lemma DrainLeaves(s: Hwc, waitOk: bool)
    ensures var t := DrainWideRoute(s, waitOk).1;
      t.small == s.small && t.wide == s.wide && t.leaked == s.leaked && t.given == s.given
  {
    hide Close;
  }

  lemma PresentLeaves(s: Hwc, wide: bool, wanted: bool, env: Env)
    ensures var e, t := EndpointOf(s, wide), PresentDisplay(s, wide, wanted, env).1;
      && Leaves(s, t, wide) && EndpointOf(t, wide) == e.(fence := -1)
      && t.given == s.given + if wanted && Commits(s, wide, wanted, env) then [env.retire] else []
  {
    hide Close, SubmitWide, SubmitSingle, DrainWideRoute, Expected;
    var e := EndpointOf(s, wide);
    var s1 := WithEndpoint(s, wide, e.(fence := -1));
    DrainLeaves(s1, env.waitOk);
    var s2 := if wide then s1 else DrainWideRoute(s1, env.waitOk).1;
    WideLeaves(s2, e.target, e.fence, wanted, env);
    SingleLeaves(s2, e.target, e.fence, wanted, env);
  }

  /** Every outcome of PresentDisplay: the acquire fence of the endpoint is closed (once: no close goes
      wrong), the retire fence is handed over exactly when a frame was committed and the caller wants
      it, nothing else is handed over or leaked, and what is owned afterwards is the other endpoint's
      fence, the framebuffer, one drain fence if the route is active, and old leaks. */
  lemma PresentConserves(s: Hwc, wide: bool, wanted: bool, env: Env)
    requires Accounts(s, {}) && PresentOk(s, wide, env)
    ensures var e, t := EndpointOf(s, wide), PresentDisplay(s, wide, wanted, env).1;
      && Accounts(t, {}) && Leaves(s, t, wide) && EndpointOf(t, wide) == e.(fence := -1)
      && t.given == s.given + (if wanted && Commits(s, wide, wanted, env) then [env.retire] else [])
      && t.owned.Keys == FdSet(EndpointOf(s, !wide).fence) + FdSet(t.frame) + FdSet(t.drain) + s.leaked
  {
    hide Accounts, PresentDisplay, PresentOk, Commits;
    PresentAccounts(s, wide, wanted, env);
    PresentLeaves(s, wide, wanted, env);
    OwnedAre(PresentDisplay(s, wide, wanted, env).1, wide);
  }

  lemma OwnedAre(t: Hwc, wide: bool)
    requires Accounts(t, {}) && EndpointOf(t, wide).fence == -1
    ensures t.owned.Keys == FdSet(EndpointOf(t, !wide).fence) + FdSet(t.frame) + FdSet(t.drain) + t.leaked
  {}

  /** The incoming fence is stored and the one it replaces closed, unless the drain fails: then, and only
      then, the incoming fence is neither stored nor closed. */
  lemma TargetConserves(s: Hwc, wide: bool, target: Option<Buffer>, fence: int, env: Env)
    requires Accounts(s, {}) && fence !in s.owned
    ensures var (status, t) := SetClientTarget(s, wide, target, fence, env);
      && Accounts(t, {}) && EndpointOf(t, !wide) == EndpointOf(s, !wide)
      && (status == NoError <==> wide || !s.active || env.waitOk)
      && (status == NoError ==> t.leaked == s.leaked && EndpointOf(t, wide) == Endpoint(target, fence))
      && (status != NoError ==> t.leaked == s.leaked + FdSet(fence) && EndpointOf(t, wide) == EndpointOf(s, wide))
  {
    hide Accounts, Close, Gain, DrainWideRoute;
    GainInHand(s, fence, Other, {});
    var s1 := Gain(s, fence, Other);
    var hand := {} + FdSet(fence);
    var (drained, s2) := if wide then (true, s1) else DrainWideRoute(s1, env.waitOk);
    if !wide {
      DrainAccounts(s1, env.waitOk, hand);
    }
    if drained {
      var e := EndpointOf(s2, wide);
      TakeFence(s2, wide, hand);
      var s3 := WithEndpoint(s2, wide, e.(fence := -1));
      CloseInHand(s3, e.fence, hand);
      CloseCommutes(s2, wide, e.fence);
      InHandIsOwned(s1, hand);
      NewTarget(Close(s3, e.fence), wide, Endpoint(target, fence), {});
    } else {
      LeakInHand(s2, fence, {});
    }
  }

  lemma CloseCommutes(s: Hwc, wide: bool, fd: int)
    ensures forall e: Endpoint ::
      WithEndpoint(Close(WithEndpoint(s, wide, EndpointOf(s, wide).(fence := -1)), fd), wide, e)
                                == WithEndpoint(Close(s, fd), wide, e)
  {}

  lemma LeakInHand(s: Hwc, fd: int, hand: set<int>)
    requires Accounts(s, hand + FdSet(fd)) && fd !in hand
    ensures Accounts(s.(leaked := s.leaked + if fd >= 0 then {fd} else {}), hand)
  {}

  lemma StepAccounts(s: Hwc, call: Call, env: Env)
    requires Accounts(s, {}) && CallOk(s, call, env)
    ensures Accounts(Step(s, call, env), {})
  {
    hide Accounts, SetClientTarget, PresentDisplay, DrainWideRoute, PresentOk;
    match call
    case Target(wide, target, fence) => TargetConserves(s, wide, target, fence, env);
    case Present(wide, wanted) => PresentConserves(s, wide, wanted, env);
    case Config(wide, matches) => DrainAccounts(s, env.waitOk, {});
    case Signal(upTo) => SameBooks(s, s.(signalled := Max(s.signalled, upTo)), {});
  }

  /** Closing the device closes everything but the leaks, each descriptor once. */
  lemma CloseReleasesAll(s: Hwc)
    requires Accounts(s, {})
    ensures HwcClose(s).owned.Keys == s.leaked && HwcClose(s).badCloses == 0
  {
    hide Accounts, Close, CloseWideFramebuffer;
    CloseWideAccounts(s, {});
    var s1 := CloseWideFramebuffer(s);
    TakeFence(s1, false, {});
    var a := s1.(small := s1.small.(fence := -1));
    TakeFence(a, true, {} + FdSet(s1.small.fence));
    var b := a.(wide := a.wide.(fence := -1));
    var hand := {} + FdSet(s1.small.fence) + FdSet(s1.wide.fence);
    assert hand == ({} + FdSet(s1.wide.fence)) + FdSet(s1.small.fence);
    InHandIsOwned(b, hand);
    TakenApart(s1);
    CloseInHand(b, s1.small.fence, {} + FdSet(s1.wide.fence));
    CloseInHand(Close(b, s1.small.fence), s1.wide.fence, {});
    NothingHeld(HwcClose(s), s.leaked);
  }

  lemma TakenApart(s: Hwc)
    requires Accounts(s, {})
    ensures s.small.fence !in {} + FdSet(s.wide.fence) && s.wide.fence !in {} + FdSet(-1)
  {}

  lemma NothingHeld(t: Hwc, leaked: set<int>)
    requires Accounts(t, {}) && t.leaked == leaked
    requires t.small.fence < 0 && t.wide.fence < 0 && t.frame < 0 && t.drain < 0
    ensures t.owned.Keys == leaked && t.badCloses == 0
  {}
}
