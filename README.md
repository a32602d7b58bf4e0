# AstraUnity lifecycle and frame bookkeeping, modelled in Dafny

The project models the two pieces of this Unity front end over the Orbbec Astra depth-camera SDK that make sequential decisions of their own.

- **`AstraUnityContext`** is the SDK lifecycle (module `Context`, file `context.dfy`). It has two flags, `_initialized` and `_initializing`. It calls the SDK's `Context.Initialize`/`Terminate` and the background updater's `Start`/`Stop`/`Wait(-1)`, and it raises three events: `Initializing`, `Terminating` and `PermissionRequestCompleted`.
  - The model is a class with those flags and a ghost trace of the calls it makes. A subscriber that runs appears in the trace as an entry; an unsubscribed event adds nothing.
  - The `Initializing` subscriber may call `RequestUsbDeviceAccessFromAndroid`, which calls `Initialize` again. The model keeps this re-entrant path: `Initialize`, `RaiseInitializing` and `RequestUsbDeviceAccessFromAndroid` are mutually recursive methods, and the proofs show that the nested `Initialize` makes no call.
  - `Valid()` is the class invariant, kept by every method. The two flags never hold together. SDK inits minus SDK terminates is 1 exactly while the context is initializing or initialized. Updater starts minus stops is 1 exactly while it is initialized.
- **`AstraController`** is the per-frame bookkeeping (module `Controller`, file `controller.dfy`). It covers:
  - choosing an image mode;
  - opening the stream set and five readers, and tearing them down again;
  - firing a new-frame event only when a reader's frame index changes;
  - switching streams on and off from UI toggles;
  - reading frames only when the background update is complete, and asking for the next update only when none is pending;
  - clearing the debug text on the on→off edge of its toggle.

  SDK calls, UnityEvent invocations and UI writes go to a ghost trace of `Effect`s. The updater's answers, the frames the readers return and the toggle states are method parameters.

The controller also records which of the five stream references (`_depthStream`, ...) it holds. The source never clears them, not even in `UninitializeStreams`. The controller's `Valid()` states that readers are open only inside an open stream set, and that once `_areStreamsInitialized` is set all five references are held. That second part is what makes `UpdateStreamStartStop`'s dereferences safe when `CheckForNewFrames` calls it.

The five `CheckXReader` methods of the controller are one method, `CheckReader(stream, frame)`. The five per-stream fields (`_isXOn`, `_lastXFrameIndex`) are one `PerStream<T>` record. The body reader is the only stream that fires a second event, the body mask.

Because the proofs are about the traces, each method's `ensures` sets its trace equal to the old trace plus a pure function of the old state. The properties are lemmas about those functions:

- `RunBalanced`, over any run of lifecycle requests;
- `FiredIndicesNeverRepeat`, over any run of frame reads;
- `SelectedModeIsFirstMatchOrDefault`, `StartStopEffectsMatchFlags`, `CycleRequestsUpdateLast`, `UninitializeTwiceDisposesOnce`.

`_frameCount` is a C# `int`, so `++` wraps. It is modelled as the newtype `int32`, with an explicit wrap in `Increment`.

The background updater `AstraBackgroundUpdater` is not modelled. It appears only through its observable inputs (`WaitForUpdate` results, `IsUpdateAsyncComplete`, `IsUpdateRequested`) and through trace entries (`Start`, `Stop`, `Wait`, `UpdateAsync`).

## Model

| member | source | states |
|---|---|---|
| `Context.AstraUnityContext.constructor` | Assets/AstraUnity/Scripts/AstraUnityContext.cs:14-15 | a new context is neither initialized nor initializing, has made no call, and satisfies the balance invariant |
| `Context.AstraUnityContext.Initialize` | Assets/AstraUnity/Scripts/AstraUnityContext.cs:50-75 | keeps the balance invariant. When already initialized or initializing it changes no flag and adds nothing to the trace. Otherwise the trace gains exactly the SDK init, the `Initializing` phase and the updater start, and it ends initialized and not initializing |
| `Context.AstraUnityContext.RaiseInitializing` | Assets/AstraUnity/Scripts/AstraUnityContext.cs:155-159 | with no subscriber nothing happens. A subscriber is recorded, and if it requests USB access the re-entrant request runs. Either way the context stays initializing and the balance holds |
| `Context.AstraUnityContext.RequestUsbDeviceAccessFromAndroid` | Assets/AstraUnity/Scripts/AstraUnityContext.cs:104-127 | calls `Initialize` (with its full effect), then waits indefinitely for the updater, then raises `PermissionRequestCompleted(true)`. It leaves the context initialized, or still initializing when called from inside initialization |
| `Context.AstraUnityContext.RaisePermissionRequestCompleted` | Assets/AstraUnity/Scripts/AstraUnityContext.cs:129-134 | the subscriber, if any, receives the granted flag; with no subscriber the trace is unchanged |
| `Context.AstraUnityContext.Terminate` | Assets/AstraUnity/Scripts/AstraUnityContext.cs:77-90 | a no-op unless initialized. Otherwise it runs the `Terminating` subscriber, then the updater stop, then the SDK terminate. It ends not initialized and keeps the balance invariant |
| `Context.AstraUnityContext.RaiseTerminating` | Assets/AstraUnity/Scripts/AstraUnityContext.cs:161-165 | the subscriber, if any, runs; with no subscriber the trace is unchanged |
| `Context.AstraUnityContext.SetSubscribers` | Assets/AstraUnity/Scripts/AstraUnityContext.cs:35-39 | subscribing to or unsubscribing from the events (`+=`/`-=`) changes only the subscriber set: no flag, no call, and the balance invariant is kept |
| `Context.InitializeWhenBusyIsSilent` | Assets/AstraUnity/Scripts/AstraUnityContext.cs:52-61 | `Initialize` on an initialized or initializing context emits nothing |
| `Context.InitializeFromIdle` | Assets/AstraUnity/Scripts/AstraUnityContext.cs:63-74 | from idle, `Initialize` starts with the SDK init and ends with the updater start. Each occurs exactly once, even when the `Initializing` subscriber re-enters through a USB request, and nothing is torn down. With a plain subscriber the trace is exactly init, `Initializing`, start; with none it is init, start |
| `Context.InitializingTraceCounts` | Assets/AstraUnity/Scripts/AstraUnityContext.cs:104-127 | the `Initializing` phase, including a re-entrant USB request, makes no SDK init/terminate and no updater start/stop call |
| `Context.TerminateFromInitialized` | Assets/AstraUnity/Scripts/AstraUnityContext.cs:77-90 | `Terminate` when not initialized emits nothing. When initialized, it ends with the updater stop followed by the SDK terminate, each exactly once, preceded by the `Terminating` subscriber exactly when there is one, and it starts nothing |
| `Context.RunBalanced` | Assets/AstraUnity/Scripts/AstraUnityContext.cs:50-90 | over any sequence of `Initialize`/`Terminate` requests, SDK inits minus terminates, and updater starts minus stops, change by exactly the change in `_initialized` |
| `Controller.FirstMatchFrom` | Assets/AstraUnity/Scripts/AstraController.cs:149-158 | an index it returns is in range, at or after the start, and points at a matching mode |
| `Controller.FirstMatchFromIsFirst` | Assets/AstraUnity/Scripts/AstraController.cs:149-158 | no mode between the start and the returned index matches; when nothing is returned, no mode from the start on matches |
| `Controller.SelectedModeIsFirstMatchOrDefault` | Assets/AstraUnity/Scripts/AstraController.cs:164-186 | if some mode matches the target width, height and fps, the selection is the first matching mode; otherwise it is `modes[0]` |
| `Controller.SelectMode` | Assets/AstraUnity/Scripts/AstraController.cs:136-158 | the `foreach ... break` loop returns exactly the selected mode (first match, else the first mode) |
| `Controller.AstraController.constructor` | Assets/AstraUnity/Scripts/AstraController.cs:46-70 | streams off, every last frame index -1, frame count 0, debug text off, nothing open, empty trace |
| `Controller.AstraController.OpenStreams` | Assets/AstraUnity/Scripts/AstraController.cs:124-194 | the `try` block up to the exception: the stream set is open iff it was already or opening succeeded, and the readers likewise. The stream references held grow as `ObtainedStreams` says. The trace gains the wait, then the effects of every step that completed |
| `Controller.AstraController.GetStreamsAndSetModes` | Assets/AstraUnity/Scripts/AstraController.cs:134-194 | once the readers exist: the depth, then the color reference is obtained with its selected mode set, then the last three references, stopping at the step that throws |
| `Controller.ObtainedStreamsGrow` | Assets/AstraUnity/Scripts/AstraController.cs:134-194 | stream references are only ever gained. A successful initialisation holds all five. A failure at the open or the reader creation gains none. A failure at the depth mode gains the depth reference only |
| `Controller.AstraController.InitializeStreams` | Assets/AstraUnity/Scripts/AstraController.cs:120-203 | on success: open stream set and readers, streams initialized, trace = wait, open, five reader creations, then the selected depth and color modes set. On an exception at a given step: the effects up to that step, then a full teardown; nothing is open and `_areStreamsInitialized` is unchanged. Either way the references obtained before the exception stay held |
| `Controller.InitializeEffectsSetSelectedModes` | Assets/AstraUnity/Scripts/AstraController.cs:126-188 | a successful initialisation sets exactly the modes the search selects for depth and color, after the stream set is opened. A failure to open emits only the wait, and a failure at any step up to and including the depth mode (open, reader creation, depth `SetMode`) sets no mode |
| `Controller.AstraController.UninitializeStreams` | Assets/AstraUnity/Scripts/AstraController.cs:211-235 | afterwards readers and stream set are closed. The trace gains the wait, then the five reader disposals if readers were open, then the stream-set disposal if it was open |
| `Controller.UninitializeTwiceDisposesOnce` | Assets/AstraUnity/Scripts/AstraController.cs:216-234 | with nothing open, teardown disposes nothing. Each reader is disposed iff readers were open, and the stream set iff it was open |
| `Controller.AstraController.CheckReader` | Assets/AstraUnity/Scripts/AstraController.cs:237-356 | that stream's last index becomes the frame's index when a frame was read; the other streams are untouched; the trace gains exactly the frame events for a new index |
| `Controller.FrameEventsFireOnChangeOnly` | Assets/AstraUnity/Scripts/AstraController.cs:285-308 | events fire iff a non-null frame was read whose index differs from the last one. A new body frame fires the body-frame event and then the body-mask event; other streams fire at most one. The same frame fed again fires nothing |
| `Controller.FiredIndicesNeverRepeat` | Assets/AstraUnity/Scripts/AstraController.cs:250-255 | over any run of reads one reader fires at most once per read. No index fires twice in a row, and the first index fired differs from the index last seen |
| `Controller.AstraController.CheckReaders` | Assets/AstraUnity/Scripts/AstraController.cs:421-425 | checking the five readers in order advances each stream's last index and emits the five streams' events in order depth, color, body, masked color, colorized body |
| `Controller.AllFrameEventsRepeatIsSilent` | Assets/AstraUnity/Scripts/AstraController.cs:421-425 | a second round of checks with the same frames fires no event |
| `Controller.ToggleStates` | Assets/AstraUnity/Scripts/AstraController.cs:498-502 | each stream's flag is on iff its toggle is missing or on |
| `Controller.AstraController.UpdateStreamStartStop` | Assets/AstraUnity/Scripts/AstraController.cs:495-548 | with all five stream references held: the `_isXOn` flags become the toggle states, and the trace gains one start or stop per stream, in order, matching the flags |
| `Controller.StartStopEffectsMatchFlags` | Assets/AstraUnity/Scripts/AstraController.cs:504-547 | the reconfiguration makes five calls: each stream is started iff its flag is on and stopped iff it is off, and no update is requested |
| `Controller.Increment` | Assets/AstraUnity/Scripts/AstraController.cs:427 | `_frameCount++` is congruent to x+1 modulo 2^32 and equals x+1 below the maximum (C# unchecked wrap-around) |
| `Controller.AstraController.CheckForNewFrames` | Assets/AstraUnity/Scripts/AstraController.cs:414-438 | frame count and last indices advance iff the wait succeeded and the update is complete, and are otherwise unchanged. Stream flags are reconfigured iff no update was requested. The trace is wait, frame events, start/stop calls, `UpdateAsync`. The invariant `Valid()` is kept |
| `Controller.CycleRequestsUpdateIffNonePending` | Assets/AstraUnity/Scripts/AstraController.cs:432-437 | a cycle issues `UpdateAsync` iff no update is already requested |
| `Controller.CycleRequestsUpdateLast` | Assets/AstraUnity/Scripts/AstraController.cs:432-437 | when it asks, `UpdateAsync` is the cycle's last step, right after the five start/stop calls of the reconfiguration |
| `Controller.CycleFiresOnlyAfterRead` | Assets/AstraUnity/Scripts/AstraController.cs:416-430 | unless the wait succeeded and the update is complete, a cycle fires no frame or body-mask event |
| `Controller.AstraController.Start` | Assets/AstraUnity/Scripts/AstraController.cs:93-103 | clears the time text iff there is one. `debugTextEnabled` takes the toggle's state when there is a toggle, with no on→off clearing, and is otherwise unchanged |
| `Controller.AstraController.StopStreamIfHeld` | Assets/AstraUnity/Scripts/AstraController.cs:604-607 | one `if (_xStream != null) _xStream.Stop()`: a stop iff the reference is held, and nothing otherwise |
| `Controller.AstraController.OnDestroy` | Assets/AstraUnity/Scripts/AstraController.cs:598-629 | the controller's part of `OnDestroy`. It waits for the updater, then stops each stream whose reference is held, in order, then tears down. Afterwards nothing is open, and the trace is exactly those effects |
| `Controller.DestroyStopsHeldStreams` | Assets/AstraUnity/Scripts/AstraController.cs:598-629 | `OnDestroy` stops a stream iff it holds its reference, starts none, disposes the readers iff they were open and the stream set iff it was open |
| `Controller.AstraController.UpdateDebugText` | Assets/AstraUnity/Scripts/AstraController.cs:569-580 | with no toggle nothing changes. Otherwise `debugTextEnabled` becomes the toggle state, and the time text is cleared exactly when it goes from on to off |

## Left out

- `AstraBackgroundUpdater` is not part of this model: its worker thread, lock and request/complete signalling are concurrency. Its answers to `Wait`, `IsUpdateAsyncComplete` and `IsUpdateRequested` are parameters. `Start`, `Stop`, `Wait` and `UpdateAsync` are trace entries.
- `TimerHistory`, `BackgroundUpdaterTimings` and the debug-text formatting (AstraController.cs:582-595) are left out: float milliseconds and string formatting.
- Native Astra calls (`StreamSet.Open`, `CreateReader`, `GetStream`, `SetMode`, `TryOpenFrame`, `Start`/`Stop`, `Dispose`, `Context.Initialize`/`Terminate`) are trace entries or inputs. An `AstraException` is the `throwsAt` input of `InitializeStreams`.
- Android interop (`EnsureJavaActivity`, `openAllDevices`) and the compile-time platform split are left out. The target width, height and fps are parameters; both platforms' constants are declared (`DesktopDepthTarget`, `AndroidDepthTarget`, ...). `ControllerScenario` initializes with the desktop targets and shows what the Android targets would select from the same modes.
- `PrintBody`/`PrintDepth` (debug logging with float index arithmetic) are left out. So is `UpdateUntilDelegate`: it returns `true` at once and the rest of its body is unreachable.
- Unity wiring is left out as a whole. `Awake`, `OnAstraInitializing`, `OnAstraTerminating` and `OnApplicationQuit` only subscribe, delegate and call the modelled operations. `Start` and the stream stops of `OnDestroy` are modelled as the controller methods `Start` and `OnDestroy`. The end of `OnDestroy` unsubscribes and calls `Terminate`; those steps are the context's `SetSubscribers` and `Terminate`, but the controller model holds no context object, so that sequence is not one Dafny method. The rest of `Update()` only sequences `InitializeStreams`, `CheckForNewFrames` and the debug-toggle block, which are modelled one by one.
- No exception path is modelled in the context. `Initialize` has no `try`/`finally` (AstraUnityContext.cs:63-74). So if `Context.Initialize()`, the `Initializing` handler or `_backgroundUpdater.Start()` throws, `_initializing` stays true for good, and every later `Initialize` returns silently. In the same way, a throw from `Stop` or `Terminate` inside `Terminate` leaves `_initialized` true. The model assumes these calls return.
- A throw at a mode step is taken to come from its `SetMode`, so that step's `GetStream` has succeeded. A throw among the last three `GetStream` calls is taken to come from the first of them.
- Also left out: the finalizer `~AstraUnityContext`, the lazy `Nested` singleton, and the `UpdateAsync`/`WaitForUpdate` pass-throughs (AstraUnityContext.cs:92-102). The controller records the pass-throughs as effects.
- Event subscribers are abstracted to "present or not". An `Initializing` subscriber either asks for USB access or does nothing else the context can observe. Multicast lists and handlers that call `Terminate` are not modelled.
- The five reader references are one flag, `readersOpen`: the source always assigns them together and clears them together. A failure part-way through the five `CreateReader` calls is treated as failing before any of them.
- `Controller.SelectMode`: requires a non-empty mode list. The source reads `modes[0]` unguarded, and the `IndexOutOfRangeException` an empty list would raise is not an `AstraException`, so it is not handled there.
- `Controller.AstraController.CheckReader`: requires the readers to be open, because the source dereferences them unguarded. The same goes for the readers in `CheckForNewFrames` once the wait gate passes, and for the stream references in `UpdateStreamStartStop`. The excluded `CheckForNewFrames` state is reachable in the source. `_areStreamsInitialized` is never reset, neither in the `catch` nor in `UninitializeStreams`. So after a `Terminating` teardown, or after a failed re-initialisation, `Update()` still calls `CheckForNewFrames`. Once the wait gate passes, that dereferences a null `_readerDepth`. The model does not capture that `NullReferenceException`.
- `Controller.AstraController.UpdateDebugText`: does not model the `NullReferenceException` of a debug toggle without a `TimeText`.
