# Models and proofs for the Fujisan device tree

This project models the parts of a dual-screen Android device tree whose behaviour is decided by
intricate state, and proves what that code is for. Each component is one or a few Dafny modules; the
modules are independent of each other except where listed together.

| component | modules | source |
|---|---|---|
| mixer-route engine | `MixerRoute`, `PathBuilder`, `AudioRoute` | audio/audioroute_probe/audio_route.c |
| sound-device router | `SoundRouting`, `UsecaseRouting`, `RouterRuns`, `BackendAgreement`, `AudioDevice` | audio/qcom/hal/audio_hw.c |
| router and engine together | `RouteBalance`, `RouteHistory`, `MixerAfterRun` | audio/qcom/hal/audio_hw.c, audio/audioroute_probe/audio_route.c |
| offload callback thread | `OffloadWorker` | audio/qcom/hal/audio_hw.c |
| in-place buffers of out_write | `OutWrite` | audio/qcom/hal/audio_hw.c |
| dual-panel composer: fences and the WIDE to SINGLE drain | `HwcFences`, `HwcRoute`, `HwcDevice` | dualscreen/hwcomposer/hwc2_fujisan.cpp |
| dual-panel composer: shared power | `HwcPower` | dualscreen/hwcomposer/hwc2_fujisan.cpp |
| recovery kernel and its device trees | `Fdt`, `FdtImage`, `RecoveryKernel` | releasetools/make_recovery_kernel.py |
| legacy Parcel store | `ParcelFormat`, `ParcelStore` | radio-compat/parcel_compat.cpp |
| UTF-8 to UTF-16 converter | `Utf` | radio-compat/ril_compat.c |
| AR3K configuration and patch files | `Ar3kPs`, `Ar3kPsRoundTrip`, `Ar3kPatch` | bluetooth/libbt-vendor/src/hw_ar3k.c |
| HCI event reader | `HciEvent` | bluetooth/libbt-vendor/src/hci_uart.c |

Code that changes objects, arrays or lists in place is modelled by classes and methods with the same
loops; each method is proved against a function on values, and the theorems are about those functions
over all runs. Protocols between threads are state machines whose steps run between two changes of
lock ownership (offload thread) or are whole entry points (composer).

Where the code falls short of what it is for, the model keeps the code's behaviour, and the project
states exactly when the property holds:

- the UTF-16 length reported by `strdup8to16` is too large exactly when a decoded value exceeds U+10FFFF;
- a parcel write covers its data exactly while the alignment sum does not wrap;
- a persistent-storage entry of odd length overruns its buffer, so the file is read back exactly when
  all lengths are even and there are fewer than 50 entries;
- the patch load address loses its eighth digit, so the four bytes sent are the address written exactly when
  its last two digits are zero;
- use cases that overlap in their device masks can end up on different devices of one backend: a switch leaves all
  in agreement exactly when it routes nobody, or the split rule keeps nobody apart, or the switched use case is on
  A2DP only and nobody else ends on its device;
- the router closes only mixer paths it has opened exactly when, at each re-selection, move and stop, the path the use
  case goes by is open as often as it is closed there.  A selection for which the platform names no device opens a
  path that a later one may leave open; where there is none, the condition is that no call that holds an input device
  is selected again, no use case without a device is stopped, and no re-route moves one (a playback re-route does so
  only when forced);
- SINGLE commits are safe exactly when, each time one is issued, the kept fence or the timeline itself covers every
  WIDE submit that returned true; a failed fence copy can break that, a later copy that succeeds mends it;
- a Small client target whose drain fails loses its acquire fence, and in no other case is a descriptor lost;
- standby, the offload thread and a third caller stop for good exactly when a routing call, or a write that finds
  `standby` set, takes the stream lock while a closer is waiting for the offload thread with the device lock; in no
  other reachable state are all threads without a next step, even without spurious wake-ups;
- of several callers that wait for the offload thread its signal wakes one, so a return from a call leaves one behind
  exactly when two were waiting; that one can be standby, holding the device lock.

## Model

| member | source | states |
|---|---|---|
| MixerRoute.RunInvariant | audio/audioroute_probe/audio_route.c:397-441 | over every bracketed run of applies and resets: between calls hardware, old and new values agree (index 0 for enums), the count is the sum of open applications, a control without users holds its saved values, one with users those of the latest application touching it |
| MixerRoute.StepInvariant | audio/audioroute_probe/audio_route.c:849-937 | one call keeps that invariant, and counts its user exactly once |
| MixerRoute.AllClosedRestores | audio/audioroute_probe/audio_route.c:849-953 | the count is zero exactly when every path holding the control is closed, and the control is then back where the run began, never earlier |
| MixerRoute.UsersAreOpenApplications | audio/audioroute_probe/audio_route.c:880-935 | the users of a control are the open applications summed over the paths that contain it |
| MixerRoute.OpenTotalZero | audio/audioroute_probe/audio_route.c:880-935 | that sum vanishes exactly when each of its paths is closed, so the saturating decrement never saturates |
| MixerRoute.ResetKeepsNeededControl | audio/audioroute_probe/audio_route.c:880-935 | resetting a path leaves the hardware of a control unchanged while another open path needs it |
| MixerRoute.CountWraps | audio/audioroute_probe/audio_route.c:880-895 | the 32-bit count follows its users exactly up to 2^32 - 1; one more wraps it and the next reset restores the control under everybody |
| MixerRoute.ForcedResetRestores | audio/audioroute_probe/audio_route.c:955-962 | a forced reset releases and restores a control whoever still uses it |
| PathBuilder.AddSettingKeepsFit | audio/audioroute_probe/audio_route.c:236-310 | adding a setting never makes a path hold a control twice |
| PathBuilder.AddPathKeepsFit | audio/audioroute_probe/audio_route.c:385-395 | including a path, even one refused half-way, never makes a path hold a control twice |
| PathBuilder.AddValueKeepsFit | audio/audioroute_probe/audio_route.c:312-383 | adding a parsed value never makes a path hold a control twice and keeps the number of values |
| PathBuilder.AddPathOutcome | audio/audioroute_probe/audio_route.c:385-395 | including a path succeeds exactly when the two share no control, and then appends all its settings in order |
| PathBuilder.AddValueOutcome | audio/audioroute_probe/audio_route.c:312-383 | a parsed value lands in the addressed slot of its control and nowhere else, except index 0 of a setting it creates |
| AudioRoute.Engine.constructor | audio/audioroute_probe/audio_route.c:648-689 | allocation reads every supported control from the driver and leaves it settled and unused |
| AudioRoute.Engine.UpdateMixer | audio/audioroute_probe/audio_route.c:711-766 | each supported control whose wanted values changed is written to the driver, and nothing else changes |
| AudioRoute.Engine.SaveMixerState | audio/audioroute_probe/audio_route.c:769-783 | the wanted values of every supported control become its saved ones |
| AudioRoute.Engine.SetInitial | audio/audioroute_probe/audio_route.c:582-615 | a top-level control element changes the addressed wanted values only |
| AudioRoute.Engine.PathGetByName | audio/audioroute_probe/audio_route.c:188-198 | the first path of the name, or none |
| AudioRoute.Engine.PathCreate | audio/audioroute_probe/audio_route.c:200-234 | a fresh name appends an empty path, a taken one changes nothing |
| AudioRoute.Engine.PathAddPath | audio/audioroute_probe/audio_route.c:385-395 | the loop adds settings until one is refused |
| AudioRoute.Engine.PathAddValue | audio/audioroute_probe/audio_route.c:312-383 | the value goes to one path; unsupported controls are refused |
| AudioRoute.Engine.HandleElement | audio/audioroute_probe/audio_route.c:468-638 | one element, in place, is one step of the specified handler, and touches wanted values only |
| AudioRoute.Engine.Parse | audio/audioroute_probe/audio_route.c:468-638 | any document keeps all paths free of repeated controls and touches wanted values only |
| AudioRoute.Engine.Init | audio/audioroute_probe/audio_route.c:964-1043 | initialization leaves every control settled, unused, and saved as wanted: the state the run theorem starts from |
| AudioRoute.Engine.PathApply | audio/audioroute_probe/audio_route.c:397-417 | the loop sets the wanted values of exactly the controls of the path |
| AudioRoute.Engine.PathReset | audio/audioroute_probe/audio_route.c:419-441 | the loop wants back the saved values of exactly the controls of the path |
| AudioRoute.Engine.UpdatePath | audio/audioroute_probe/audio_route.c:849-937 | forward or in reverse order, the loop updates every control of the path exactly once |
| AudioRoute.Engine.ApplyAndUpdatePath | audio/audioroute_probe/audio_route.c:939-945 | an unknown name changes nothing; otherwise every control takes one apply step of the run |
| AudioRoute.Engine.ResetAndUpdatePath | audio/audioroute_probe/audio_route.c:947-953 | an unknown name changes nothing; otherwise every control takes one reset step of the run |
| AudioRoute.Engine.ForceResetAndUpdatePath | audio/audioroute_probe/audio_route.c:955-962 | an unknown name changes nothing; otherwise exactly the controls of the path are released and restored |
| AudioRoute.Engine.MakeCalls | audio/audioroute_probe/audio_route.c:939-953 | any sequence of apply and reset calls, unknown names included, takes every control of the table through the run of their events |
| AudioRoute.TableAfterRun | audio/audioroute_probe/audio_route.c:849-953 | from what initialization leaves, after any bracketed sequence of calls: every supported control is settled, one that no open path holds is back at its saved values, any other has those of the latest application |
| SoundRouting.EnableConserves | audio/qcom/hal/audio_hw.c:748-822 | enabling a device, combo devices with their parts included, keeps the counts conserved for one more holder if and only if no start fails |
| SoundRouting.DisableConserves | audio/qcom/hal/audio_hw.c:824-885 | disabling a held device keeps the counts conserved for one holder fewer |
| SoundRouting.EnableWholesCounts | audio/qcom/hal/audio_hw.c:792-797 | starting the parts of a combo device skips exactly those that are idle and do not start |
| SoundRouting.DisableWholesCounts | audio/qcom/hal/audio_hw.c:864-869 | releasing the parts takes each one down once per occurrence |
| SoundRouting.CombosAreNotParts | audio/qcom/hal/audio_hw.c:790-797 | no combo device is held by another one |
| SoundRouting.NoHoldersNoCounts | audio/qcom/hal/audio_hw.c:824-885 | conserved counts without holders are all zero |
| RouterRuns.RouteConserves | audio/qcom/hal/audio_hw.c:1136-1299 | re-routing other use cases conserves the counts of the list without the use case in flight, whatever that one holds beside |
| RouterRuns.ReleaseConserves | audio/qcom/hal/audio_hw.c:1793-1802 | after the use case in flight has let go, the counts are conserved for the list without it |
| RouterRuns.SwitchOutConserves | audio/qcom/hal/audio_hw.c:1816-1823 | the output part of a switch conserves the list without the use case in flight, plus its new output device |
| RouterRuns.SwitchInConserves | audio/qcom/hal/audio_hw.c:1825-1828 | the input part then conserves that list plus both new devices |
| RouterRuns.SwitchConserves | audio/qcom/hal/audio_hw.c:1793-1837 | releasing, moving the others, enabling and recording conserve the counts of the whole list |
| RouterRuns.SelectConserves | audio/qcom/hal/audio_hw.c:1608-1867 | select_devices conserves the counts on all its branches, early returns and the nested voice-input selection included, and keeps the users |
| RouterRuns.LeaveConserves | audio/qcom/hal/audio_hw.c:2362-2368 | a use case that leaves the list takes exactly its own holdings with it |
| RouterRuns.ReroutedConserves | audio/qcom/hal/audio_hw.c:2376-2383 | the re-route to the device of a use case that has already left conserves the counts of those that stay |
| RouterRuns.FallBackConserves | audio/qcom/hal/audio_hw.c:2521-2529 | selecting under a temporarily narrowed mask conserves the counts |
| RouterRuns.StopConserves | audio/qcom/hal/audio_hw.c:2332-2409 | stopping a stream, the re-route behind a changed USB service interval and the re-selections conserve the counts |
| RouterRuns.StartConserves | audio/qcom/hal/audio_hw.c:2446-2658 | starting a stream conserves the counts, also with the A2DP fallback, and when it does not open and is stopped again |
| RouterRuns.RunConserves | audio/qcom/hal/audio_hw.c:1608-2658 | over every run of starts, re-routes and stops from power-up each count is the number of use cases holding the device plus active combo devices having it as a part |
| RouterRuns.EmptyListAllZero | audio/qcom/hal/audio_hw.c:2332-2409 | after any run that ends with an empty list the router is as at power-up |
| RouterRuns.EnabledExactlyWhenHeld | audio/qcom/hal/audio_hw.c:748-885 | a device is enabled exactly when a use case holds it or a combo device it is part of |
| BackendAgreement.AgreesExactly | audio/qcom/hal/audio_hw.c:1088-1134 | after a re-route to d another eligible use case agrees with d if and only if it did before or the split rule does not keep it apart |
| BackendAgreement.MovesToTheNewDeviceOrStays | audio/qcom/hal/audio_hw.c:1088-1134 | a re-route never puts a use case on a third device |
| BackendAgreement.SwitchAgreesExactly | audio/qcom/hal/audio_hw.c:1136-1228 | a completed playback switch leaves all codec and USB use cases in pairwise agreement if and only if it routes nobody, or the split rule keeps none apart, or the switched use case is no such use case and none of them ends on its device |
| BackendAgreement.JoinsExactly | audio/qcom/hal/audio_hw.c:1088-1228 | a use case ends on the new device if and only if it is there already or the re-route moves it and derives that device |
| BackendAgreement.SwitchAgrees | audio/qcom/hal/audio_hw.c:1136-1228 | with masks pairwise equal or disjoint, every completed switch brings the switched use case into agreement with all others and preserves agreement of all other pairs |
| BackendAgreement.OverlapBreaksAgreement | audio/qcom/hal/audio_hw.c:1099-1123 | overlapping masks break it: two use cases on different devices of one backend after a completed switch |
| AudioDevice.AudioDevice.EnableSndDevice | audio/qcom/hal/audio_hw.c:748-822 | the counts array and the device paths applied, recursion into parts included, and when the call reports success |
| AudioDevice.AudioDevice.DisableSndDevice | audio/qcom/hal/audio_hw.c:824-885 | the counts array and the device paths reset, recursion into parts included, and when the call reports success |
| AudioDevice.AudioDevice.GetUsecase | audio/qcom/hal/audio_hw.c:1483-1496 | the first use case of the id, or none |
| AudioDevice.AudioDevice.EnableAudioRoute | audio/qcom/hal/audio_hw.c:651-710 | the path of the use case on its device is applied |
| AudioDevice.AudioDevice.DisableAudioRoute | audio/qcom/hal/audio_hw.c:712-746 | the path of the use case on its device is reset |
| AudioDevice.AudioDevice.FreeDevices | audio/qcom/hal/audio_hw.c:1793-1802 | the route is closed once for each of the two devices held, and each is released |
| AudioDevice.AudioDevice.EnableOutput | audio/qcom/hal/audio_hw.c:1816-1823 | the in-place output part equals the output part of the switch |
| AudioDevice.AudioDevice.EnableInput | audio/qcom/hal/audio_hw.c:1825-1828 | the in-place input part equals the input part of the switch |
| AudioDevice.AudioDevice.CheckAndRoutePlayback | audio/qcom/hal/audio_hw.c:1136-1228 | the passes over the list that close routes, release, re-enable and open routes amount to one re-route by the playback plan |
| AudioDevice.AudioDevice.CheckAndRouteCapture | audio/qcom/hal/audio_hw.c:1230-1299 | the passes over the list amount to one re-route by the capture plan |
| AudioDevice.AudioDevice.SwitchDevices | audio/qcom/hal/audio_hw.c:1793-1837 | the in-place switch of one use case equals the router's switch |
| AudioDevice.AudioDevice.SelectDevices | audio/qcom/hal/audio_hw.c:1608-1867 | the in-place selection, recursion included, equals the router's selection |
| AudioDevice.AudioDevice.StopStream | audio/qcom/hal/audio_hw.c:2332-2409 | the in-place stop, USB re-route included, equals the router's stop |
| AudioDevice.AudioDevice.StartStream | audio/qcom/hal/audio_hw.c:2446-2658 | the in-place start, A2DP fallback included, equals the router's start |
| RouteHistory.HistoryIsBracketedExactly | audio/qcom/hal/audio_hw.c:651-885 | over every run of starts, re-routes and stops from power-up, the calls to the mixer-route engine close only what they opened if and only if every router call is clean; then the paths of the enabled devices and of the routed use cases are open, and no others if every selection named a device |
| RouteHistory.SwitchHistory | audio/qcom/hal/audio_hw.c:1793-1840 | a switch keeps the history in step if the path of its use case is open as often as the switch closes it, and so is the path of everybody it moves; otherwise it closes a path that is not open |
| RouteHistory.SelectHistory | audio/qcom/hal/audio_hw.c:1608-1867 | a selection, early returns and the nested one included, keeps it in step if its switches are clean, and otherwise closes a path that is not open |
| RouteHistory.StopHistory | audio/qcom/hal/audio_hw.c:2332-2409 | a stop keeps it in step if the path of its use case is open and the re-route and re-selections behind it are clean, and otherwise closes a path that is not open |
| RouteHistory.StartHistory | audio/qcom/hal/audio_hw.c:2446-2658 | a start keeps it in step if its selections and, when the stream does not open, the stop are clean, and otherwise closes a path that is not open |
| RouteHistory.FreedBreaks | audio/qcom/hal/audio_hw.c:1793-1802 | letting go of more devices than the path of the use case is open, as a re-selected call with both devices does, closes a path that is not open |
| RouteHistory.RouteBreaks | audio/qcom/hal/audio_hw.c:1175-1190 | a re-route that moves a use case whose path is not open closes a path that is not open |
| RouteHistory.CleanIsGuarded | audio/qcom/hal/audio_hw.c:1793-1840 | while exactly the routed paths are open, a switch is clean if and only if its use case is no call that holds an input device and it moves nobody without a device |
| RouteBalance.OpenedExactly | audio/qcom/hal/audio_hw.c:651-746 | the path of a routed use case is open; while exactly the routed paths are open, once, and that of an unrouted one is not |
| RouteHistory.OnlyForceMovesTheUnrouted | audio/qcom/hal/audio_hw.c:1175-1190 | a playback re-route moves only routed use cases if and only if it is not forced or all the others are routed |
| RouteBalance.RouteMirrors | audio/qcom/hal/audio_hw.c:1136-1299 | a re-route of use cases whose paths are open closes and opens in step: afterwards their new routes are open, and nothing else if nothing else was |
| RouteBalance.FreedMirrors | audio/qcom/hal/audio_hw.c:1793-1802 | a use case whose path is open as often as it lets go of devices closes exactly that |
| RouteBalance.EnableOn | audio/qcom/hal/audio_hw.c:748-822 | enabling a device applies exactly the paths of the whole devices it turns on |
| RouteBalance.DisableOn | audio/qcom/hal/audio_hw.c:824-885 | disabling a device resets exactly the paths of the whole devices it turns off |
| MixerAfterRun.MixerFollowsRouter | audio/audioroute_probe/audio_route.c:849-953 | after any clean run of the router every supported mixer control is settled, its count is the number of enabled devices and routed use cases whose paths hold it plus the paths left open by selections that named no device (none if all named one), and without any it is at its saved values |
| MixerAfterRun.SilenceRestoresTheMixer | audio/audioroute_probe/audio_route.c:849-953 | when the last use case of a clean run has stopped, a supported mixer control is unused, and back at its initial values, if and only if no path holding it was left open by a selection that named no device |
| MixerAfterRun.EventsAreBracketed | audio/audioroute_probe/audio_route.c:188-198 | calls bracketed by name make a run bracketed by path, names the table does not have included |
| MixerAfterRun.OpenIsBalance | audio/audioroute_probe/audio_route.c:188-198 | the open applications of a path are the open calls of its name |
| OffloadWorker.NeverClosedUnderTheWorker | audio/qcom/hal/audio_hw.c:2850-2858 | in every interleaving, no step closes a compress handle while the worker is inside a compress call |
| OffloadWorker.WorkerHandleStaysOpen | audio/qcom/hal/audio_hw.c:2134-2164 | the handle the worker reads without the lock is, during the whole call, the one it entered with, and open |
| OffloadWorker.OneHandle | audio/qcom/hal/audio_hw.c:2549-2558 | at most one handle is open at any time and none is lost |
| OffloadWorker.FirstInFirstOut | audio/qcom/hal/audio_hw.c:2061-2183 | sent commands are freed commands, then the one in the call, then the queue, in order: first in first out, none freed twice, none lost |
| OffloadWorker.LeftoversFreedAtExit | audio/qcom/hal/audio_hw.c:2174-2180 | the step that ends the worker leaves every command ever sent freed |
| OffloadWorker.StandbyCloses | audio/qcom/hal/audio_hw.c:2809-2867 | standby lets go of the device lock only with the handle closed and the worker out of its call |
| OffloadWorker.LocksKept | audio/qcom/hal/audio_hw.c:2809-2867 | every step keeps both locks held by exactly the thread whose position says so |
| OffloadWorker.HandlesKept | audio/qcom/hal/audio_hw.c:2061-2205 | every step keeps: blocked exactly while the worker is in a call, and an open handle means playing or a standby that holds the device lock |
| OffloadWorker.DeadlockExactly | audio/qcom/hal/audio_hw.c:2061-3548 | in every reachable state with at least one caller: no thread can step, or none without a spurious wake-up, if and only if some writer or routing call holds the stream lock and wants the device lock of a closer that waits for the offload thread |
| OffloadWorker.DeadlockBegins | audio/qcom/hal/audio_hw.c:2061-3548 | a step leads there if and only if it is a routing call, or a write that finds standby set, that comes while a closer waits for the offload thread |
| OffloadWorker.WakeupsKept | audio/qcom/hal/audio_hw.c:2076-2181 | every step keeps: only waiting callers are signalled, and while the worker is out of its call some caller is not left asleep |
| OffloadWorker.LeftBehindExactly | audio/qcom/hal/audio_hw.c:2165-2166 | a return from a compress call leaves a waiting caller unsignalled if and only if two were waiting unsignalled |
| OffloadWorker.StaysAsleep | audio/qcom/hal/audio_hw.c:2081-2083 | a caller left behind stays so until a later signal picks it or it wakes spuriously |
| OffloadWorker.LeftBehindIsReachable | audio/qcom/hal/audio_hw.c:2081-2181 | standby can be left behind with the device lock while the worker sleeps with nothing to do |
| OffloadWorker.OrderKept | audio/qcom/hal/audio_hw.c:2809-2867 | every step keeps: a closer that wants the device lock found the stream playing, and while a handle is being closed standby is set unless a writer has just cleared it |
| OffloadWorker.StuckStopsEverything | audio/qcom/hal/audio_hw.c:3001-3010 | while a writer or routing call that holds the stream lock wants the device lock of a closer that waits for the offload thread, nobody can ever step again |
| OffloadWorker.StuckIsReachable | audio/qcom/hal/audio_hw.c:3001-3548 | that state is reachable by a write and by a routing call |
| OutWrite.Mean | audio/qcom/hal/audio_hw.c:3630 | the mixed sample is the floor of the mean and fits 16 bits |
| OutWrite.Downmix | audio/qcom/hal/audio_hw.c:3621-3633 | although source and destination are one buffer, every sample is mixed from the original pair, and the rest is untouched |
| OutWrite.HapticBuffer | audio/qcom/hal/audio_hw.c:3675-3692 | the haptic buffer is kept exactly while it is large enough |
| OutWrite.Split | audio/qcom/hal/audio_hw.c:3694-3711 | although the audio part is compacted in place, both parts hold exactly the original bytes of their channels, and what lies behind is untouched |
| OutWrite.InterleaveOfParts | audio/qcom/hal/audio_hw.c:3704-3711 | interleaving the two parts again gives the original buffer |
| OutWrite.BytesIsProduct | audio/qcom/hal/audio_hw.c:3677-3679 | the sizes used above are frame count times frame size |
| HwcFences.PresentConserves | dualscreen/hwcomposer/hwc2_fujisan.cpp:1428-1481 | in every outcome the acquire fence is closed exactly once, kernel fences are closed or retained, the retire fence and only that is handed over exactly when it is wanted and the frame went out, and what is owned is exactly what is still referenced |
| HwcFences.SubmitWideAccounts | dualscreen/hwcomposer/hwc2_fujisan.cpp:554-684 | no outcome of a WIDE submit loses or doubly closes a descriptor; a superseded drain fence is closed once |
| HwcFences.SubmitSingleAccounts | dualscreen/hwcomposer/hwc2_fujisan.cpp:690-808 | no outcome of a SINGLE submit loses or doubly closes a descriptor |
| HwcFences.DrainAccounts | dualscreen/hwcomposer/hwc2_fujisan.cpp:367-391 | a drain succeeds exactly when the route is inactive or the wait succeeds; then it closes the drain fence and the framebuffer and nothing else, otherwise it changes nothing |
| HwcFences.CloseWideAccounts | dualscreen/hwcomposer/hwc2_fujisan.cpp:348-363 | closing the framebuffer releases exactly the drain fence and the framebuffer |
| HwcFences.TargetConserves | dualscreen/hwcomposer/hwc2_fujisan.cpp:1503-1527 | the incoming fence is stored and the replaced one closed, except that a failed drain, and only that, leaks the incoming fence |
| HwcFences.StepAccounts | dualscreen/hwcomposer/hwc2_fujisan.cpp:1428-1527 | every entry point keeps the descriptors accounted for, and the route active exactly while there is a drain fence |
| HwcFences.CloseReleasesAll | dualscreen/hwcomposer/hwc2_fujisan.cpp:2064-2085 | closing the device closes every owned descriptor once, except leaks |
| HwcRoute.SingleCommitsAreSafe | dualscreen/hwcomposer/hwc2_fujisan.cpp:1446-1480 | over every run with timeline-ordered fences in which the last WIDE submit before each SINGLE commit could copy its fence, each SINGLE commit is issued after every earlier WIDE submit that returned true has completed; the route is active exactly while there is a drain fence |
| HwcRoute.SafeWhenNoCopyFails | dualscreen/hwcomposer/hwc2_fujisan.cpp:1446-1480 | over every run in which no fence copy fails, every SINGLE commit is issued after every earlier WIDE submit that returned true has completed |
| HwcRoute.SingleCommitsAreSafeExactly | dualscreen/hwcomposer/hwc2_fujisan.cpp:1446-1480 | over every run, whatever fails: all SINGLE commits are safe if and only if, each time one is issued, the kept fence or the timeline covers every WIDE submit that returned true |
| HwcRoute.KeptCopiesCover | dualscreen/hwcomposer/hwc2_fujisan.cpp:658-671 | if before each SINGLE commit the last WIDE submit that returned true retained a copy, every one of them is covered, whether or not earlier copies failed |
| HwcRoute.StepRoute | dualscreen/hwcomposer/hwc2_fujisan.cpp:348-1527 | what every call does to the protocol: coverage changes only by a WIDE submit that returned true, to covered exactly when it retained a copy, or by the timeline; a SINGLE commit is safe exactly when completions were covered before the call; descriptors stay accounted for |
| HwcRoute.WideRoute | dualscreen/hwcomposer/hwc2_fujisan.cpp:658-671 | after a WIDE submit that returned true, whatever was covered before, later drains cover everything if and only if its fence could be copied |
| HwcRoute.DrainRoute | dualscreen/hwcomposer/hwc2_fujisan.cpp:367-391 | a successful drain brings the timeline past everything the kept fence covers |
| HwcRoute.SingleRoute | dualscreen/hwcomposer/hwc2_fujisan.cpp:690-808 | a SINGLE submit on a drained route leaves coverage as it was, and keeps the trace safe if and only if the timeline is past every WIDE submit that returned true |
| HwcRoute.SingleTrace | dualscreen/hwcomposer/hwc2_fujisan.cpp:690-808 | a SINGLE commit keeps a trace safe if and only if the timeline is past the last WIDE submit that returned true |
| HwcRoute.PresentRoute | dualscreen/hwcomposer/hwc2_fujisan.cpp:1428-1481 | a present that issues a SINGLE commit keeps the trace safe if and only if completions were covered before the call; it makes them covered or not only by a WIDE submit that returned true |
| HwcRoute.LostFenceIsUnsafe | dualscreen/hwcomposer/hwc2_fujisan.cpp:659-661 | without a copy, a run in which every call succeeds issues a SINGLE commit before the WIDE submit has completed |
| HwcRoute.DescriptorsAreConserved | dualscreen/hwcomposer/hwc2_fujisan.cpp:348-391 | over every run, whatever fails, descriptors are accounted for, and closing the device leaves only leaks |
| HwcDevice.Device.DrainWideRoute | dualscreen/hwcomposer/hwc2_fujisan.cpp:367-391 | the field updates and closes of a drain are those proved above |
| HwcDevice.Device.SubmitWide | dualscreen/hwcomposer/hwc2_fujisan.cpp:554-684 | the field updates and closes of a WIDE submit are those proved above, and what retire fence is reported |
| HwcDevice.Device.SubmitSingle | dualscreen/hwcomposer/hwc2_fujisan.cpp:690-808 | the field updates and closes of a SINGLE submit are those proved above, and what retire fence is reported |
| HwcDevice.Device.PresentDisplay | dualscreen/hwcomposer/hwc2_fujisan.cpp:1428-1481 | the field updates and closes of a present are those proved above, and a retire fence is reported exactly when it is wanted and the frame went out |
| HwcDevice.Device.SetClientTarget | dualscreen/hwcomposer/hwc2_fujisan.cpp:1503-1527 | the field updates and closes of a new target are those proved above |
| HwcDevice.Device.SetActiveConfig | dualscreen/hwcomposer/hwc2_fujisan.cpp:1483-1501 | the drain of a configuration change is the one proved above |
| HwcDevice.Device.Shutdown | dualscreen/hwcomposer/hwc2_fujisan.cpp:2064-2085 | the closes of HwcClose are those proved above |
| HwcPower.PowerIsShared | dualscreen/hwcomposer/hwc2_fujisan.cpp:1785-1851 | over every run whose commands succeed, a powered endpoint has a powered panel, and with both off the panel is off or a thread is pending |
| HwcPower.PowerFromStart | dualscreen/hwcomposer/hwc2_fujisan.cpp:1785-1851 | the same from the state the device starts in |
| HwcPower.PanelServesExactly | dualscreen/hwcomposer/hwc2_fujisan.cpp:1817-1851 | a step leaves a powered endpoint without panel exactly when it is an ON command that fails while the panel is off |
| HwcPower.OffIsPendingExactly | dualscreen/hwcomposer/hwc2_fujisan.cpp:1785-1815 | a step leaves the panel on with nothing pending exactly when a needed thread is not created or an OFF command fails |
| HwcPower.OffOnlyAfterQuietWindow | dualscreen/hwcomposer/hwc2_fujisan.cpp:1788-1800 | the panel is commanded off only if both endpoints were off during the whole time from snapshot to wake-up, unless calls in between moved the 64-bit generation exactly round |
| HwcPower.WindowGeneration | dualscreen/hwcomposer/hwc2_fujisan.cpp:1806-1833 | every power call moves the generation on, modulo 2^64 |
| HwcPower.GraceEnds | dualscreen/hwcomposer/hwc2_fujisan.cpp:1785-1803 | a pending off happens within three steps of the thread if no call comes in between |
| HwcPower.PowerState.ScheduleSharedPowerOff | dualscreen/hwcomposer/hwc2_fujisan.cpp:1805-1815 | at most one thread is started, and none is recorded when its creation fails |
| HwcPower.PowerState.SetPowerMode | dualscreen/hwcomposer/hwc2_fujisan.cpp:1817-1851 | the fields after a power call are those of the step proved above |
| HwcPower.PowerState.WakeAndDecide | dualscreen/hwcomposer/hwc2_fujisan.cpp:1789-1802 | the fields after a wake-up are those of the step proved above |
| Fdt.FdtOffsets | releasetools/make_recovery_kernel.py:28-46 | although it skips four bytes after a rejected magic, the scanner finds exactly what a byte-by-byte scan finds |
| Fdt.MagicDoesNotOverlap | releasetools/make_recovery_kernel.py:31-46 | no magic starts inside another one |
| Fdt.FindMagic | releasetools/make_recovery_kernel.py:33 | the first occurrence at or after the cursor |
| Fdt.ScanIsSound | releasetools/make_recovery_kernel.py:36-45 | reported intervals are in bounds, increasing, disjoint, and each is a valid image |
| Fdt.ScanIsComplete | releasetools/make_recovery_kernel.py:28-46 | every valid header is reported or lies inside a reported interval |
| Fdt.RootMsmId | releasetools/make_recovery_kernel.py:49-86 | the token loop computes the walk the theorems speak of |
| FdtImage.WalkItems | releasetools/make_recovery_kernel.py:56-86 | for every subtree, the walk below the root comes out one level up with nothing returned; at the root it returns the first qcom,msm-id |
| FdtImage.RootIdOfImage | releasetools/make_recovery_kernel.py:49-86 | on an image of any device tree: exactly the root's first qcom,msm-id value whatever descendants hold, and missing exactly when the root has none |
| FdtImage.BytesReadBack | releasetools/make_recovery_kernel.py:57-75 | a serialized structure block (section 5.4 of the Devicetree Specification) is read back word by word as itself |
| RecoveryKernel.MakeRecoveryKernel | releasetools/make_recovery_kernel.py:89-111 | the script's loop assembles prefix and replacements, or reports the first failure |
| RecoveryKernel.ScanOfAppended | releasetools/make_recovery_kernel.py:28-46 | in a chain of appended images the scanner finds exactly those images |
| RecoveryKernel.KernelIsPreservedAndTreesReplaced | releasetools/make_recovery_kernel.py:89-111 | for any kernel without a valid header in it and any appended trees with known ids, the output is the kernel unchanged followed by exactly the reference trees in order |
| RecoveryKernel.SerializedIsImage | releasetools/make_recovery_kernel.py:15-46 | every well-formed tree with a strings block has such an image (sections 5.2 to 5.5 of the Devicetree Specification) |
| ParcelFormat.AlignmentCoversUnlessItWraps | radio-compat/parcel_compat.cpp:70 | the padded length covers the data if and only if the alignment sum does not wrap |
| ParcelFormat.WriteItemsAppends | radio-compat/parcel_compat.cpp:206-249 | writes at the end append exactly the wire form of their items |
| ParcelFormat.WrittenItemsReadBack | radio-compat/parcel_compat.cpp:206-249 | any sequence of int32 and string16 writes into an empty parcel is read back, knowing only the kinds |
| ParcelFormat.WireIsUnique | radio-compat/parcel_compat.cpp:206-249 | two sequences of the same kinds that leave the same bytes are the same |
| ParcelStore.LegacyParcel.Grow | radio-compat/parcel_compat.cpp:78-85 | the growth loop terminates with the smallest doubling that covers the write, or the exact end where doubling would pass SIZE_MAX: less than twice what is needed, or the first 64 bytes |
| ParcelStore.LegacyParcel.Reserve | radio-compat/parcel_compat.cpp:76-92 | room up to the end with the bytes kept, or failure exactly when allocation is needed and fails |
| ParcelStore.LegacyParcel.ReserveAndWrite | radio-compat/parcel_compat.cpp:68-105 | result, bytes, position and capacity exactly: success if and only if the padded end fits a size_t and the buffer, or the buffer can be reallocated; failure changes nothing |
| ParcelStore.Store.Find | radio-compat/parcel_compat.cpp:42-50 | the owner's parcel, or the owner is not in the map |
| ParcelStore.Store.FindOrCreate | radio-compat/parcel_compat.cpp:52-66 | a known owner keeps its parcel, a new one gets an empty one, and owners stay unique |
| ParcelStore.Store.Destroy | radio-compat/parcel_compat.cpp:124-148 | destruction removes the owner's parcel and no other |
| ParcelStore.Store.SetDataPosition | radio-compat/parcel_compat.cpp:176-191 | the position moves only within the bytes written so far |
| ParcelStore.Store.Write | radio-compat/parcel_compat.cpp:193-204 | result and the whole map exactly: the owner's content is overwritten by the padded bytes if and only if the owner is known or can be created and the write fits; every other owner untouched |
| ParcelStore.Store.WriteInt32 | radio-compat/parcel_compat.cpp:206-217 | result and the whole map exactly: the four little-endian bytes, without padding, written under the same condition |
| ParcelStore.Store.WriteString16 | radio-compat/parcel_compat.cpp:219-249 | result and the whole map exactly: length word and terminated units, or what each failure leaves behind |
| ParcelStore.DoubledIsTight | radio-compat/parcel_compat.cpp:78-85 | the doubling loop ends below twice what is needed, or where it began |
| ParcelStore.StringWritesItsChunks | radio-compat/parcel_compat.cpp:219-249 | a string write that goes through writes exactly length word and terminated units at the position; one that fails has written nothing or the length word |
| ParcelStore.GrantedItems | radio-compat/parcel_compat.cpp:193-249 | granted its allocations, any sequence of items goes through while its wire form fits a size_t, and appends exactly that form |
| ParcelStore.StoredItemsReadBack | radio-compat/parcel_compat.cpp:193-249 | items written in sequence into an empty parcel all go through while their wire form fits a size_t, and are read back from its bytes knowing only their kinds |
| ParcelStore.Store.WriteItems | radio-compat/parcel_compat.cpp:193-249 | a client's sequence of int32 and string16 writes through the store: result and whole map exactly, up to the first that fails; a new owner's items are read back from the bytes the store then holds |
| ParcelStore.Store.WriteItem | radio-compat/parcel_compat.cpp:206-249 | one item of such a sequence |
| ParcelStore.MapOfAt | radio-compat/parcel_compat.cpp:42-50 | the list means a map: an owner's entry is the one entry it has in the list |
| ParcelStore.MapOfUpdate | radio-compat/parcel_compat.cpp:68-105 | changing one entry changes one key |
| ParcelStore.MapOfRemove | radio-compat/parcel_compat.cpp:136-147 | unlinking one entry removes one key |
| Utf.DecodeUtf8 | radio-compat/ril_compat.c:9-45 | the scanning loop decodes one sequence and never looks past the NUL |
| Utf.StrDup8To16 | radio-compat/ril_compat.c:47-84 | for every NUL-terminated input: termination, an allocation of the counted length plus one never overrun, the written units then zeros |
| Utf.WriteUnits | radio-compat/ril_compat.c:65-79 | the second pass stays inside the allocation and writes exactly the sanitized units |
| Utf.WriteUnit | radio-compat/ril_compat.c:69-78 | one code point becomes its UTF-16 units, surrogates and values past U+10FFFF a replacement |
| Utf.WrittenAgainstCounted | radio-compat/ril_compat.c:57-79 | written units are at most the counted ones, and exactly as many if and only if no decoded value exceeds U+10FFFF |
| Utf.LengthOvercounts | radio-compat/ril_compat.c:57-82 | an input whose reported length is two for one written unit |
| Utf.OutputHasNoUnpairedSurrogate | radio-compat/ril_compat.c:69-78 | whatever the bytes, the output is well-formed UTF-16 (section 2.1 of RFC 2781) of the sanitized code points |
| Utf.ConvertsWellFormedText | radio-compat/ril_compat.c:9-84 | on the UTF-8 encoding (section 3 of RFC 3629) of any non-zero scalar values: exactly their UTF-16 encoding and unit count |
| Utf.DecodeUtf8Encoded | radio-compat/ril_compat.c:9-45 | decoding inverts encoding for each scalar value |
| Ar3kPs.Fgets | bluetooth/libbt-vendor/src/hw_ar3k.c:582 | one call takes a line, or 999 characters of a longer one |
| Ar3kPs.FillPairs | bluetooth/libbt-vendor/src/hw_ar3k.c:637-642 | the pairwise loop reads bytes as specified or runs over the line or the entry |
| Ar3kPs.AthParsePs | bluetooth/libbt-vendor/src/hw_ar3k.c:569-665 | the line loop fills the list with exactly the finished entries, or fails, on every text |
| Ar3kPsRoundTrip.ReadsBackExactlyEvenEntries | bluetooth/libbt-vendor/src/hw_ar3k.c:438-665 | for printed entries of lengths 1 to 500 between arbitrary comment lines: exactly those ids, lengths and bytes come back if and only if there are fewer than 50 and all lengths are even; otherwise no list comes back |
| Ar3kPsRoundTrip.PrintedLinesFit | bluetooth/libbt-vendor/src/hw_ar3k.c:582-590 | every printed file meets the premises: lines that fit and are no comments |
| Ar3kPsRoundTrip.CommentsAreSkipped | bluetooth/libbt-vendor/src/hw_ar3k.c:586-588 | comment lines change nothing anywhere |
| Ar3kPsRoundTrip.ParsesByLines | bluetooth/libbt-vendor/src/hw_ar3k.c:582-584 | reading the stream is reading its lines |
| Ar3kPsRoundTrip.PairsRead | bluetooth/libbt-vendor/src/hw_ar3k.c:533-549 | a printed line of an even number of bytes gives exactly those bytes; an odd one overruns a full entry |
| Ar3kPsRoundTrip.DataLinesRead | bluetooth/libbt-vendor/src/hw_ar3k.c:625-662 | all data lines of an entry finish it with exactly its bytes, or overrun when their number is odd |
| Ar3kPsRoundTrip.EntryRead | bluetooth/libbt-vendor/src/hw_ar3k.c:590-662 | one printed entry is added, refused as the fiftieth, or overruns |
| Ar3kPsRoundTrip.ReadsHex | bluetooth/libbt-vendor/src/hw_ar3k.c:510-529 | a printed number is read back as its value |
| Ar3kPatch.DownloadSends | bluetooth/libbt-vendor/src/hw_ar3k.c:911-968 | success means: address commands, then ceil(n / 244) segments of the decoded text, then the enabling command |
| Ar3kPatch.PatchSent | bluetooth/libbt-vendor/src/hw_ar3k.c:935-967 | the patch goes through if and only if the text holds n bytes and every command is accepted, and then the segments are the decoded text |
| Ar3kPatch.PayloadsAreTheData | bluetooth/libbt-vendor/src/hw_ar3k.c:935-962 | the payloads joined are the patch |
| Ar3kPatch.SegmentAt | bluetooth/libbt-vendor/src/hw_ar3k.c:935-958 | segment k carries bytes 244 k to 244 k + 244 under number k |
| Ar3kPatch.HeadersTell | bluetooth/libbt-vendor/src/hw_ar3k.c:248-261 | headers decode to the length, and to the number if and only if it fits 16 bits |
| Ar3kPatch.DecodedSplits | bluetooth/libbt-vendor/src/hw_ar3k.c:946-951 | decoding segment by segment is decoding at once |
| Ar3kPatch.FindCountSends | bluetooth/libbt-vendor/src/hw_ar3k.c:920-932 | before the byte count only address commands are sent |
| Ar3kPatch.AddressLosesItsLastDigit | bluetooth/libbt-vendor/src/hw_ar3k.c:873-925 | the four address bytes sent are the address written, little-endian, if and only if its last two digits are zero |
| Ar3kPatch.Controller.ReadCount | bluetooth/libbt-vendor/src/hw_ar3k.c:920-933 | the first loop finds the byte count and sends the address commands |
| Ar3kPatch.Controller.ReadSegment | bluetooth/libbt-vendor/src/hw_ar3k.c:946-951 | the byte loop decodes one segment or finds the text too short |
| Ar3kPatch.Controller.PsPatchDownload | bluetooth/libbt-vendor/src/hw_ar3k.c:911-968 | the whole call sends what the theorems speak of |
| HciEvent.ReadHciEvent | bluetooth/libbt-vendor/src/hci_uart.c:468-512 | success returns exactly the stream's event however reads are cut, consuming the skipped bytes plus the count; failure means a failed read or a stream that ends too soon; sizes below three still take the three header bytes |
| HciEvent.ReadPacketType | bluetooth/libbt-vendor/src/hci_uart.c:480-488 | the first loop stops just past the first 0x04 of the stream, or fails with a failed read or a stream without one |
| HciEvent.ReadUpTo | bluetooth/libbt-vendor/src/hci_uart.c:490-510 | the filling loops are independent of short reads |
| HciEvent.EventShape | bluetooth/libbt-vendor/src/hci_uart.c:480-511 | the event is the first 0x04, code, length, and the parameters that fit |
| HciEvent.EventIgnoresWhatFollows | bluetooth/libbt-vendor/src/hci_uart.c:499-511 | bytes behind an event never change it |

## Left out

- HciEvent.ReadHciEvent: a size of one or two is modelled, but the buffer must have room for the three header bytes the code then writes.
- ParcelStore.LegacyParcel.ReserveAndWrite: a source longer than SIZE_MAX - 3 whose length passes the first test is outside its precondition, because its alignment sum wraps and the copy leaves the buffer; ParcelFormat.AlignmentCoversUnlessItWraps states that bound. Longer sources that the first test rejects are covered.
- ParcelStore.Store.Write: the same sources are outside its precondition.
- RouterRuns.RunConserves: every start of a device succeeds and ids of live use cases are unique; SoundRouting.EnableConserves gives the exact condition for one enable.
- MixerRoute.RunInvariant: runs keep every count below 2^32, and forced resets are not part of a run; MixerRoute.CountWraps and MixerRoute.ForcedResetRestores tell what happens there.
- Platform queries of the audio HAL are abstract: splits are one level deep and name real devices; backend comparison is symmetric and fails on no device, and need not be transitive.
- Voice calls, HFP, A2DP restore and when a USB service interval changes: their effects on a selection, start or stop are answers of the surroundings.
- RouteHistory.HistoryIsBracketedExactly: as in RouterRuns.RunConserves every start of a device succeeds, and mixer paths of different use cases and of devices have different names.
- MixerAfterRun.MixerFollowsRouter: counts stay below 2^32, and the engine serves this router alone; echo reference, effect and amplifier paths, speaker protection and HDMI de-routing make further calls.
- The use-case list is a sequence of records in place of linked nodes, identified by their ids.
- The offload thread: real time, the fairness lock, effect and volume callbacks, and liveness; freedom from deadlock is characterized, starvation is not; calls that take only the stream lock for a moment (pause, resume, volume, metadata) have no step of their own.
- Test mode of the haptic split and buffer allocation failure.
- Kernel calls, sysfs, sockets and properties are answers of the surroundings; each descriptor the kernel hands out has a number that is free at that moment, be it one closed earlier in the same call.
- Layer fences and all other composer calls that forward to the wrapped composer.
- Entry points of the composer are single steps, so races inside one are not modelled; the power-off thread takes two steps per turn.
- Expat, numeric text in the mixer file and control names: the engine starts from parsed elements.
- A persistent-storage or patch text is a character sequence; bytes read past the end of a line or of memory the program never wrote are reported as an overrun, not modelled.
- Preambles other than those printed, decimal and binary formats are modelled by the reader but have no printer.
- realloc is an allocation and a copy; calls into the parcel store are sequential, and calls from other libraries, which are forwarded, are not modelled.
- Firmware version checks, sending the finished entries, the board address file and the command transport.
- Command-line handling and file access of the recovery script.
