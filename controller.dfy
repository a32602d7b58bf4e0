/**
 * The per-frame bookkeeping of `AstraController`: choosing an image mode,
 * opening and closing the stream set and its readers, de-duplicating new
 * frames by frame index, switching streams on and off from UI toggles,
 * gating frame reads on the background updater, and the debug-text toggle.
 * Native SDK calls, UnityEvent invocations and UI writes are recorded in a
 * ghost trace; the updater's answers, the frames the readers return and the
 * toggle states are parameters.
 */
module Controller {
  import opened Wrappers

  // ---------------------------------------------------------------------
  // Streams and per-stream state

  datatype Stream = Depth | Color | Body | MaskedColor | ColorizedBody

  /** The order in which the controller visits its five streams. */
  const StreamOrder: seq<Stream> := [Depth, Color, Body, MaskedColor, ColorizedBody]

  /** One value per stream, like the controller's five `_xFoo` fields. */
  datatype PerStream<T> = PerStream(depth: T, color: T, body: T, maskedColor: T, colorizedBody: T)
  {
    function Get(s: Stream): (r: T)
    {
      match s
      case Depth => depth
      case Color => color
      case Body => body
      case MaskedColor => maskedColor
      case ColorizedBody => colorizedBody
    }

    function Set(s: Stream, v: T): (r: PerStream<T>)
      ensures r.Get(s) == v
      ensures forall t :: t != s ==> r.Get(t) == Get(t)
      {
      match s
      case Depth => this.(depth := v)
      case Color => this.(color := v)
      case Body => this.(body := v)
      case MaskedColor => this.(maskedColor := v)
      case ColorizedBody => this.(colorizedBody := v)
    }
  }

  function Uniform<T>(v: T): (r: PerStream<T>)
    ensures forall s :: r.Get(s) == v
  {
    PerStream(v, v, v, v, v)
  }

  /** C#'s 32-bit `int`. */
  newtype int32 = x: int | -0x8000_0000 <= x < 0x8000_0000

  /** `x++` on a C# `int` in an unchecked context: wraps at the top. */
  function Increment(x: int32): (r: int32)
    ensures (r as int - x as int - 1) % 0x1_0000_0000 == 0
    ensures x < 0x7fff_ffff ==> r as int == x as int + 1
  {
    if x == 0x7fff_ffff then -0x8000_0000 else x + 1
  }

  // ---------------------------------------------------------------------
  // Effects

  /** How long `WaitForUpdate` may block. */
  datatype Timeout = Indefinitely | Milliseconds(ms: nat)

  datatype Effect =
    | WaitForUpdate(timeout: Timeout)
    | OpenStreamSet
    | CreateReader(reader: Stream)
    | SetMode(modeStream: Stream, mode: ImageMode)
    | StartStream(started: Stream)
    | StopStream(stopped: Stream)
    | DisposeReader(disposed: Stream)
    | DisposeStreamSet
    | UpdateAsync
    | NewFrame(frameStream: Stream, frameIndex: int)   // New<X>FrameEvent.Invoke
    | NewBodyMask(maskIndex: int)                      // NewBodyMaskEvent.Invoke
    | ClearTimeText

  // ---------------------------------------------------------------------
  // Mode selection

  datatype ImageMode = ImageMode(width: int, height: int, framesPerSecond: int, pixelFormat: int)

  datatype ModeTarget = ModeTarget(width: int, height: int, framesPerSecond: int)

  /** The targets compiled in for desktop builds and for Android builds. */
  const DesktopDepthTarget := ModeTarget(320, 240, 30)
  const DesktopColorTarget := ModeTarget(640, 480, 30)
  const AndroidDepthTarget := ModeTarget(160, 120, 30)
  const AndroidColorTarget := ModeTarget(320, 240, 30)

  predicate Matches(m: ImageMode, t: ModeTarget)
  {
    m.width == t.width && m.height == t.height && m.framesPerSecond == t.framesPerSecond
  }

  /** Index of the first mode at or after `i` that matches `t`. */
  function FirstMatchFrom(modes: seq<ImageMode>, t: ModeTarget, i: nat): (r: Option<nat>)
    requires i <= |modes|
    ensures r.Some? ==> i <= r.value < |modes| && Matches(modes[r.value], t)
    decreases |modes| - i
  {
    if i == |modes| then None
    else if Matches(modes[i], t) then Some(i)
    else FirstMatchFrom(modes, t, i + 1)
  }

  lemma {:induction false} FirstMatchFromIsFirst(modes: seq<ImageMode>, t: ModeTarget, i: nat)
    requires i <= |modes|
    ensures match FirstMatchFrom(modes, t, i)
            case Some(k) => forall j :: i <= j < k ==> !Matches(modes[j], t)
            case None => forall j :: i <= j < |modes| ==> !Matches(modes[j], t)
    decreases |modes| - i
  {
    if i < |modes| && !Matches(modes[i], t) {
      FirstMatchFromIsFirst(modes, t, i + 1);
    }
  }

  /** The mode `InitializeStreams` sets: the first match, else the first mode. */
  function SelectedMode(modes: seq<ImageMode>, t: ModeTarget): (r: ImageMode)
    requires |modes| > 0
  {
    match FirstMatchFrom(modes, t, 0)
    case Some(k) => modes[k]
    case None => modes[0]
  }

  lemma SelectedModeIsFirstMatchOrDefault(modes: seq<ImageMode>, t: ModeTarget)
    requires |modes| > 0
    ensures (exists i :: 0 <= i < |modes| && Matches(modes[i], t)) ==>
      exists k :: 0 <= k < |modes| && SelectedMode(modes, t) == modes[k] && Matches(modes[k], t)
                  && forall j :: 0 <= j < k ==> !Matches(modes[j], t)
    ensures (forall i :: 0 <= i < |modes| ==> !Matches(modes[i], t)) ==>
      SelectedMode(modes, t) == modes[0]
  {
    FirstMatchFromIsFirst(modes, t, 0);
  }

  /** The `foreach ... break` search over `AvailableModes`. */
  method SelectMode(modes: seq<ImageMode>, target: ModeTarget) returns (selected: ImageMode)
    requires |modes| > 0
    ensures selected == SelectedMode(modes, target)
  {
    selected := modes[0];
    var i := 0;
    while i < |modes|
      invariant 0 <= i <= |modes|
      invariant FirstMatchFrom(modes, target, i) == FirstMatchFrom(modes, target, 0)
      invariant selected == modes[0]
    {
      if Matches(modes[i], target) {
        selected := modes[i];
        return;
      }
      i := i + 1;
    }
  }

  // ---------------------------------------------------------------------
  // New-frame de-duplication

  /** What `TryOpenFrame` and `GetFrame` hand back for one reader. */
  datatype FrameRead =
    | NoFrame            // TryOpenFrame returned false
    | NullFrame          // a frame was opened but GetFrame gave null
    | Frame(index: int)  // a frame with this FrameIndex

  /** A reader's frame is new when its index differs from the last one seen. */
  predicate IsNewFrame(last: int, read: FrameRead)
  {
    read.Frame? && read.index != last
  }

  /** `_lastXFrameIndex` after a check. */
  function NextIndex(last: int, read: FrameRead): (r: int)
    ensures r == last || IsNewFrame(last, read)
    ensures read.Frame? ==> r == read.index
  {
    if IsNewFrame(last, read) then read.index else last
  }

  /** The events one check fires: a body frame also fires its body mask. */
  function FrameEvents(s: Stream, last: int, read: FrameRead): (r: seq<Effect>)
  {
    if !IsNewFrame(last, read) then []
    else [NewFrame(s, read.index)] + (if s == Body then [NewBodyMask(read.index)] else [])
  }

  lemma FrameEventsFireOnChangeOnly(s: Stream, last: int, read: FrameRead)
    ensures FrameEvents(s, last, read) != [] <==> read.Frame? && read.index != last
    ensures FrameEvents(s, last, read) != [] ==> FrameEvents(s, last, read)[0] == NewFrame(s, read.index)
    ensures s == Body && IsNewFrame(last, read) ==>
      FrameEvents(s, last, read) == [NewFrame(Body, read.index), NewBodyMask(read.index)]
    ensures s != Body ==> |FrameEvents(s, last, read)| <= 1
    ensures FrameEvents(s, NextIndex(last, read), read) == []
  {
  }

  /** The indices a reader fires for, over successive checks. */
  function FiredIndices(last: int, frames: seq<FrameRead>): (r: seq<int>)
    decreases |frames|
  {
    if frames == [] then []
    else (if IsNewFrame(last, frames[0]) then [frames[0].index] else [])
         + FiredIndices(NextIndex(last, frames[0]), frames[1..])
  }

  /**
   * Over any run of checks on one reader, no index fires twice in a row and
   * the first one fired differs from the index last seen; at most one event
   * per check.
   */
  lemma {:induction false} FiredIndicesNeverRepeat(last: int, frames: seq<FrameRead>)
    ensures var f := FiredIndices(last, frames);
      && |f| <= |frames|
      && (|f| > 0 ==> f[0] != last)
      && forall i :: 0 <= i < |f| - 1 ==> f[i] != f[i + 1]
    decreases |frames|
  {
    if frames != [] {
      var next := NextIndex(last, frames[0]);
      FiredIndicesNeverRepeat(next, frames[1..]);
      var rest := FiredIndices(next, frames[1..]);
      if IsNewFrame(last, frames[0]) {
        var f := [frames[0].index] + rest;
        assert FiredIndices(last, frames) == f;
        forall i | 0 <= i < |f| - 1 ensures f[i] != f[i + 1] {
          if i > 0 {
            assert f[i] == rest[i - 1] && f[i + 1] == rest[i];
          }
        }
      } else {
        assert next == last;
        assert FiredIndices(last, frames) == rest;
      }
    }
  }

  /** Every reader's index after checking all five. */
  function AdvanceAll(last: PerStream<int>, frames: PerStream<FrameRead>): (r: PerStream<int>)
    ensures forall s :: r.Get(s) == NextIndex(last.Get(s), frames.Get(s))
  {
    PerStream(
      NextIndex(last.depth, frames.depth),
      NextIndex(last.color, frames.color),
      NextIndex(last.body, frames.body),
      NextIndex(last.maskedColor, frames.maskedColor),
      NextIndex(last.colorizedBody, frames.colorizedBody))
  }

  /** The events fired while checking the five readers in `StreamOrder`. */
  function AllFrameEvents(last: PerStream<int>, frames: PerStream<FrameRead>): (r: seq<Effect>)
  {
    FrameEvents(Depth, last.depth, frames.depth)
    + FrameEvents(Color, last.color, frames.color)
    + FrameEvents(Body, last.body, frames.body)
    + FrameEvents(MaskedColor, last.maskedColor, frames.maskedColor)
    + FrameEvents(ColorizedBody, last.colorizedBody, frames.colorizedBody)
  }

  /** A second round with the very same frames fires nothing. */
  lemma AllFrameEventsRepeatIsSilent(last: PerStream<int>, frames: PerStream<FrameRead>)
    ensures AllFrameEvents(AdvanceAll(last, frames), frames) == []
  {

  }

  /** Checking the five readers one after the other advances each of them. */
  lemma CheckedAllIsAdvanceAll(last: PerStream<int>, frames: PerStream<FrameRead>)
    ensures last.Set(Depth, NextIndex(last.depth, frames.depth))
                .Set(Color, NextIndex(last.color, frames.color))
                .Set(Body, NextIndex(last.body, frames.body))
                .Set(MaskedColor, NextIndex(last.maskedColor, frames.maskedColor))
                .Set(ColorizedBody, NextIndex(last.colorizedBody, frames.colorizedBody))
            == AdvanceAll(last, frames)
  {
  }

  // ---------------------------------------------------------------------
  // Stream on/off

  /** A missing toggle counts as on. */
  function ToggleOn(toggle: Option<bool>): (on: bool)
    ensures on <==> toggle != Some(false)
  {
    match toggle
    case None => true
    case Some(isOn) => isOn
  }

  function ToggleStates(toggles: PerStream<Option<bool>>): (r: PerStream<bool>)
    ensures forall s :: r.Get(s) == ToggleOn(toggles.Get(s))
  {
    PerStream(
      ToggleOn(toggles.depth),
      ToggleOn(toggles.color),
      ToggleOn(toggles.body),
      ToggleOn(toggles.maskedColor),
      ToggleOn(toggles.colorizedBody))
  }

  function Switch(s: Stream, on: bool): (r: Effect)
  {
    if on then StartStream(s) else StopStream(s)
  }

  /** The start/stop calls for the five streams, in `StreamOrder`. */
  function StartStopEffects(on: PerStream<bool>): (r: seq<Effect>)
  {
    [Switch(Depth, on.depth), Switch(Color, on.color), Switch(Body, on.body),
     Switch(MaskedColor, on.maskedColor), Switch(ColorizedBody, on.colorizedBody)]
  }

  /** Each stream gets exactly one call, a start when on and a stop when off. */
  lemma StartStopEffectsMatchFlags(on: PerStream<bool>)
    ensures |StartStopEffects(on)| == |StreamOrder|
    ensures forall s :: StartStream(s) in StartStopEffects(on) <==> on.Get(s)
    ensures forall s :: StopStream(s) in StartStopEffects(on) <==> !on.Get(s)
    ensures UpdateAsync !in StartStopEffects(on)
  {

  }

  function StreamIndex(s: Stream): (i: nat)
    ensures i < |StreamOrder| && StreamOrder[i] == s
  {
    match s
    case Depth => 0
    case Color => 1
    case Body => 2
    case MaskedColor => 3
    case ColorizedBody => 4
  }

  // ---------------------------------------------------------------------
  // One call of CheckForNewFrames

  /** Frames are read only when the wait succeeded and the update is complete. */
  predicate ReadsFrames(waitResult: bool, updateComplete: bool)
  {
    waitResult && updateComplete
  }

  /** Everything `CheckForNewFrames` emits. */
  function CycleEffects(last: PerStream<int>, waitResult: bool, updateComplete: bool,
                        updateRequested: bool, frames: PerStream<FrameRead>,
                        toggles: PerStream<Option<bool>>): (r: seq<Effect>)
  {
    [WaitForUpdate(Milliseconds(5))]
    + (if ReadsFrames(waitResult, updateComplete) then AllFrameEvents(last, frames) else [])
    + (if !updateRequested then StartStopEffects(ToggleStates(toggles)) + [UpdateAsync] else [])
  }

  /** A cycle asks for an update iff none is pending. */
  lemma CycleRequestsUpdateIffNonePending(last: PerStream<int>, waitResult: bool, updateComplete: bool,
                                          updateRequested: bool, frames: PerStream<FrameRead>,
                                          toggles: PerStream<Option<bool>>)
    ensures UpdateAsync in CycleEffects(last, waitResult, updateComplete, updateRequested, frames, toggles)
            <==> !updateRequested
  {
    var fr := if ReadsFrames(waitResult, updateComplete) then AllFrameEvents(last, frames) else [];
    var rq := if !updateRequested then StartStopEffects(ToggleStates(toggles)) + [UpdateAsync] else [];
    assert CycleEffects(last, waitResult, updateComplete, updateRequested, frames, toggles)
           == [WaitForUpdate(Milliseconds(5))] + fr + rq;
    AllFrameEventsAreEvents(last, frames);
    StartStopEffectsMatchFlags(ToggleStates(toggles));
  }

  /** When it asks, the request is the cycle's last step, right after the five start/stop calls. */
  lemma CycleRequestsUpdateLast(last: PerStream<int>, waitResult: bool, updateComplete: bool,
                                frames: PerStream<FrameRead>, toggles: PerStream<Option<bool>>)
    ensures var e := CycleEffects(last, waitResult, updateComplete, false, frames, toggles);
      && e[|e| - 1] == UpdateAsync
      && e[|e| - 6..|e| - 1] == StartStopEffects(ToggleStates(toggles))
  {
    var pre := [WaitForUpdate(Milliseconds(5))]
      + (if ReadsFrames(waitResult, updateComplete) then AllFrameEvents(last, frames) else []);
    var ss := StartStopEffects(ToggleStates(toggles));
    assert CycleEffects(last, waitResult, updateComplete, false, frames, toggles) == pre + ss + [UpdateAsync];
    EndsWith(pre, ss, UpdateAsync);
  }

  /** Unless the wait succeeded and the update is complete, no frame event fires. */
  lemma CycleFiresOnlyAfterRead(last: PerStream<int>, waitResult: bool, updateComplete: bool,
                                updateRequested: bool, frames: PerStream<FrameRead>,
                                toggles: PerStream<Option<bool>>)
    requires !ReadsFrames(waitResult, updateComplete)
    ensures forall x :: x in CycleEffects(last, waitResult, updateComplete, updateRequested, frames, toggles)
                        ==> !x.NewFrame? && !x.NewBodyMask?
  {
    var rq := if !updateRequested then StartStopEffects(ToggleStates(toggles)) + [UpdateAsync] else [];
    assert CycleEffects(last, waitResult, updateComplete, updateRequested, frames, toggles)
           == [WaitForUpdate(Milliseconds(5))] + rq;
  }

  lemma EndsWith(pre: seq<Effect>, ss: seq<Effect>, x: Effect)
    requires |ss| == 5
    ensures var e := pre + ss + [x]; e[|e| - 1] == x && e[|e| - 6..|e| - 1] == ss
  {
    var e := pre + ss + [x];
    assert e[|e| - 6..|e| - 1] == e[|pre|..|pre| + 5];
  }

  /** Reading frames emits only frame and body-mask events. */
  lemma AllFrameEventsAreEvents(last: PerStream<int>, frames: PerStream<FrameRead>)
    ensures forall x :: x in AllFrameEvents(last, frames) ==> x.NewFrame? || x.NewBodyMask?
  {

  }

  // ---------------------------------------------------------------------
  // Teardown and stream initialisation

  /** What `UninitializeStreams` emits, given what is open. */
  function UninitializeEffects(readersOpen: bool, streamSetOpen: bool): (r: seq<Effect>)
  {
    [WaitForUpdate(Indefinitely)]
    + (if readersOpen
       then [DisposeReader(Depth), DisposeReader(Color), DisposeReader(Body),
             DisposeReader(MaskedColor), DisposeReader(ColorizedBody)]
       else [])
    + (if streamSetOpen then [DisposeStreamSet] else [])
  }

  /** Tearing down what is already torn down disposes nothing. */
  lemma UninitializeTwiceDisposesOnce(readersOpen: bool, streamSetOpen: bool)
    ensures forall x :: x in UninitializeEffects(false, false) ==> !x.DisposeReader? && !x.DisposeStreamSet?
    ensures forall s :: DisposeReader(s) in UninitializeEffects(readersOpen, streamSetOpen) <==> readersOpen
    ensures DisposeStreamSet in UninitializeEffects(readersOpen, streamSetOpen) <==> streamSetOpen
  {
    var e := UninitializeEffects(readersOpen, streamSetOpen);
    if readersOpen {
      forall s ensures DisposeReader(s) in e {
        assert e[1 + StreamIndex(s)] == DisposeReader(s);
      }
    }
  }

  /** The SDK step of `InitializeStreams` that may throw an `AstraException`. */
  datatype InitStep = AtOpen | AtCreateReaders | AtDepthMode | AtColorMode | AtOtherStreams

  function StepRank(s: InitStep): (r: nat)
  {
    match s
    case AtOpen => 0
    case AtCreateReaders => 1
    case AtDepthMode => 2
    case AtColorMode => 3
    case AtOtherStreams => 4
  }

  /** Step `s` ran to completion when nothing threw at or before it. */
  predicate Completed(throwsAt: Option<InitStep>, s: InitStep)
  {
    throwsAt.None? || StepRank(throwsAt.value) > StepRank(s)
  }

  /** What `InitializeStreams` emits before the exception, if any. */
  function InitializeEffects(depthModes: seq<ImageMode>, colorModes: seq<ImageMode>,
                             depthTarget: ModeTarget, colorTarget: ModeTarget,
                             throwsAt: Option<InitStep>): (r: seq<Effect>)
    requires |depthModes| > 0 && |colorModes| > 0
  {
    [WaitForUpdate(Indefinitely)]
    + (if Completed(throwsAt, AtOpen) then [OpenStreamSet] else [])
    + (if Completed(throwsAt, AtCreateReaders)
       then [CreateReader(Depth), CreateReader(Color), CreateReader(Body),
             CreateReader(MaskedColor), CreateReader(ColorizedBody)]
       else [])
    + ModeEffects(depthModes, colorModes, depthTarget, colorTarget, throwsAt)
  }

  /** The depth and color `SetMode` calls of `InitializeStreams` that run. */
  function ModeEffects(depthModes: seq<ImageMode>, colorModes: seq<ImageMode>,
                       depthTarget: ModeTarget, colorTarget: ModeTarget,
                       throwsAt: Option<InitStep>): (r: seq<Effect>)
    requires |depthModes| > 0 && |colorModes| > 0
  {
    (if Completed(throwsAt, AtDepthMode) then [SetMode(Depth, SelectedMode(depthModes, depthTarget))] else [])
    + (if Completed(throwsAt, AtColorMode) then [SetMode(Color, SelectedMode(colorModes, colorTarget))] else [])
  }

  /**
   * A successful initialisation sets the depth and color modes the search
   * selects, after opening and creating all five readers; a failed one sets
   * nothing after the failing step.
   */
  lemma InitializeEffectsSetSelectedModes(depthModes: seq<ImageMode>, colorModes: seq<ImageMode>,
                                          depthTarget: ModeTarget, colorTarget: ModeTarget)
    requires |depthModes| > 0 && |colorModes| > 0
    ensures var e := InitializeEffects(depthModes, colorModes, depthTarget, colorTarget, None);
      && |e| == 9
      && e[1] == OpenStreamSet
      && e[7] == SetMode(Depth, SelectedMode(depthModes, depthTarget))
      && e[8] == SetMode(Color, SelectedMode(colorModes, colorTarget))
    ensures forall x :: x in InitializeEffects(depthModes, colorModes, depthTarget, colorTarget, Some(AtOpen))
                        ==> x == WaitForUpdate(Indefinitely)
    ensures forall st :: StepRank(st) <= StepRank(AtDepthMode) ==>
              forall x :: x in InitializeEffects(depthModes, colorModes, depthTarget, colorTarget, Some(st))
                          ==> !x.SetMode?
  {
  }

  /**
   * The stream references `InitializeStreams` holds afterwards. Each mode step
   * is taken to throw at its `SetMode`, so the `GetStream` before it has
   * succeeded; a throw among the last three `GetStream` calls is taken to come
   * from the first. The source never clears these references, so one obtained
   * earlier stays set, through teardowns too.
   */
  function ObtainedStreams(had: PerStream<bool>, throwsAt: Option<InitStep>): (r: PerStream<bool>)
  {
    PerStream(had.depth || Completed(throwsAt, AtCreateReaders),
              had.color || Completed(throwsAt, AtDepthMode),
              had.body || Completed(throwsAt, AtOtherStreams),
              had.maskedColor || Completed(throwsAt, AtOtherStreams),
              had.colorizedBody || Completed(throwsAt, AtOtherStreams))
  }

  /**
   * References are only ever gained; a successful initialisation holds all
   * five, and one that fails before the readers exist gains none.
   */
  lemma ObtainedStreamsGrow(had: PerStream<bool>, throwsAt: Option<InitStep>)
    ensures forall s :: had.Get(s) ==> ObtainedStreams(had, throwsAt).Get(s)
    ensures throwsAt.None? ==> ObtainedStreams(had, throwsAt) == Uniform(true)
    ensures throwsAt == Some(AtOpen) || throwsAt == Some(AtCreateReaders) ==>
              ObtainedStreams(had, throwsAt) == had
    ensures throwsAt == Some(AtDepthMode) ==> ObtainedStreams(had, throwsAt) == had.(depth := true)
  {
    forall s | had.Get(s) ensures ObtainedStreams(had, throwsAt).Get(s) {
      match s
      case Depth =>
      case Color =>
      case Body =>
      case MaskedColor =>
      case ColorizedBody =>
    }
  }

  /** `if (_xStream != null) _xStream.Stop();` */
  function StopIfHeld(held: PerStream<bool>, s: Stream): (r: seq<Effect>)
  {
    if held.Get(s) then [StopStream(s)] else []
  }

  /** The `Stop()` calls of `OnDestroy`: one per stream reference held, in `StreamOrder`. */
  function DestroyStops(held: PerStream<bool>): (r: seq<Effect>)
  {
    StopIfHeld(held, Depth) + StopIfHeld(held, Color) + StopIfHeld(held, Body)
    + StopIfHeld(held, MaskedColor) + StopIfHeld(held, ColorizedBody)
  }

  /** Everything `OnDestroy` emits before it unsubscribes and terminates the context. */
  function DestroyEffects(held: PerStream<bool>, readersOpen: bool, streamSetOpen: bool): (r: seq<Effect>)
  {
    [WaitForUpdate(Indefinitely)] + DestroyStops(held) + UninitializeEffects(readersOpen, streamSetOpen)
  }

  /**
   * `OnDestroy` stops exactly the streams it holds a reference to, starts
   * none, and disposes exactly what is open.
   */
  lemma DestroyStopsHeldStreams(held: PerStream<bool>, readersOpen: bool, streamSetOpen: bool)
    ensures forall s :: StopStream(s) in DestroyEffects(held, readersOpen, streamSetOpen) <==> held.Get(s)
    ensures forall s :: StartStream(s) !in DestroyEffects(held, readersOpen, streamSetOpen)
    ensures forall s :: DisposeReader(s) in DestroyEffects(held, readersOpen, streamSetOpen) <==> readersOpen
    ensures DisposeStreamSet in DestroyEffects(held, readersOpen, streamSetOpen) <==> streamSetOpen
  {
    var stops := DestroyStops(held);
    var down := UninitializeEffects(readersOpen, streamSetOpen);
    assert DestroyEffects(held, readersOpen, streamSetOpen) == [WaitForUpdate(Indefinitely)] + stops + down;
    assert forall x :: x in down ==> !x.StopStream? && !x.StartStream?;
    DestroyStopsAreHeld(held);
    UninitializeTwiceDisposesOnce(readersOpen, streamSetOpen);
  }

  lemma DestroyStopsAreHeld(held: PerStream<bool>)
    ensures forall x :: x in DestroyStops(held) <==> x.StopStream? && held.Get(x.stopped)
  {
    forall x ensures x in DestroyStops(held) <==> x.StopStream? && held.Get(x.stopped) {
      StopIfHeldHolds(held, Depth, x);
      StopIfHeldHolds(held, Color, x);
      StopIfHeldHolds(held, Body, x);
      StopIfHeldHolds(held, MaskedColor, x);
      StopIfHeldHolds(held, ColorizedBody, x);
    }
  }

  lemma StopIfHeldHolds(held: PerStream<bool>, s: Stream, x: Effect)
    ensures x in StopIfHeld(held, s) <==> held.Get(s) && x == StopStream(s)
  {
  }

  // ---------------------------------------------------------------------

  class AstraController {
    var streamSetOpen: bool
    var readersOpen: bool
    var areStreamsInitialized: bool
    var streamObtained: PerStream<bool>
    var isOn: PerStream<bool>
    var lastFrameIndex: PerStream<int>
    var frameCount: int32
    var debugTextEnabled: bool
    ghost var trace: seq<Effect>

    /**
     * Readers are only ever open inside an open stream set, and once the
     * streams are initialized the controller holds all five stream references,
     * which is what lets `UpdateStreamStartStop` dereference them.
     */
    ghost predicate Valid()
      reads this
    {
      && (readersOpen ==> streamSetOpen)
      && (areStreamsInitialized ==> streamObtained == Uniform(true))
    }

    constructor ()
      ensures Valid()
      ensures !streamSetOpen && !readersOpen && !areStreamsInitialized && streamObtained == Uniform(false)
      ensures isOn == Uniform(false) && lastFrameIndex == Uniform(-1)
      ensures frameCount == 0 && !debugTextEnabled && trace == []
    {
      streamSetOpen, readersOpen, areStreamsInitialized := false, false, false;
      streamObtained := Uniform(false);
      isOn := Uniform(false);
      lastFrameIndex := Uniform(-1);
      frameCount := 0;
      debugTextEnabled := false;
      trace := [];
    }

    method UninitializeStreams()
      requires Valid()
      modifies this`readersOpen, this`streamSetOpen, this`trace
      ensures Valid() && !readersOpen && !streamSetOpen
      ensures trace == old(trace) + UninitializeEffects(old(readersOpen), old(streamSetOpen))
    {
      trace := trace + [WaitForUpdate(Indefinitely)];
      if readersOpen {
        trace := trace + [DisposeReader(Depth), DisposeReader(Color), DisposeReader(Body),
                          DisposeReader(MaskedColor), DisposeReader(ColorizedBody)];
        readersOpen := false;
      }
      if streamSetOpen {
        trace := trace + [DisposeStreamSet];
        streamSetOpen := false;
      }
    }

    /**
     * The `try` block of `InitializeStreams` up to the exception, if any:
     * opens the stream set and the readers and sets the depth and color modes.
     */
    method OpenStreams(depthModes: seq<ImageMode>, colorModes: seq<ImageMode>,
                       depthTarget: ModeTarget, colorTarget: ModeTarget,
                       throwsAt: Option<InitStep>)
      requires Valid()
      requires |depthModes| > 0 && |colorModes| > 0
      modifies this`readersOpen, this`streamSetOpen, this`streamObtained, this`trace
      ensures Valid()
      ensures streamSetOpen == (old(streamSetOpen) || Completed(throwsAt, AtOpen))
      ensures streamObtained == ObtainedStreams(old(streamObtained), throwsAt)
      ensures readersOpen == (old(readersOpen) || Completed(throwsAt, AtCreateReaders))
      ensures trace == old(trace) + InitializeEffects(depthModes, colorModes, depthTarget, colorTarget, throwsAt)
    {
      ghost var effects := InitializeEffects(depthModes, colorModes, depthTarget, colorTarget, throwsAt);
      ObtainedStreamsGrow(streamObtained, throwsAt);
      trace := trace + [WaitForUpdate(Indefinitely)];
      if throwsAt == Some(AtOpen) {
        assert trace == old(trace) + effects;
        return;
      }
      streamSetOpen := true;
      trace := trace + [OpenStreamSet];
      if throwsAt == Some(AtCreateReaders) {
        assert trace == old(trace) + effects;
        return;
      }
      readersOpen := true;
      trace := trace + [CreateReader(Depth), CreateReader(Color), CreateReader(Body),
                        CreateReader(MaskedColor), CreateReader(ColorizedBody)];
      GetStreamsAndSetModes(depthModes, colorModes, depthTarget, colorTarget, throwsAt);
      assert trace == old(trace) + effects;
    }

    /**
     * The rest of the `try` block once the readers exist: each stream's
     * `GetStream`, with the depth and color mode searches and `SetMode`s.
     */
    method GetStreamsAndSetModes(depthModes: seq<ImageMode>, colorModes: seq<ImageMode>,
                                 depthTarget: ModeTarget, colorTarget: ModeTarget,
                                 throwsAt: Option<InitStep>)
      requires |depthModes| > 0 && |colorModes| > 0
      requires Completed(throwsAt, AtCreateReaders)
      modifies this`streamObtained, this`trace
      ensures streamObtained == ObtainedStreams(old(streamObtained), throwsAt)
      ensures trace == old(trace) + ModeEffects(depthModes, colorModes, depthTarget, colorTarget, throwsAt)
    {
      streamObtained := streamObtained.(depth := true);
      if throwsAt == Some(AtDepthMode) {
        return;
      }
      var depthMode := SelectMode(depthModes, depthTarget);
      trace := trace + [SetMode(Depth, depthMode)];
      streamObtained := streamObtained.(color := true);
      if throwsAt == Some(AtColorMode) {
        return;
      }
      var colorMode := SelectMode(colorModes, colorTarget);
      trace := trace + [SetMode(Color, colorMode)];
      if throwsAt.None? {
        streamObtained := Uniform(true);
      }
    }

    /**
     * Opens the stream set and readers and sets the depth and color modes; an
     * `AstraException` thrown at step `throwsAt` tears down instead and leaves
     * `_areStreamsInitialized` as it was.
     */
    method InitializeStreams(depthModes: seq<ImageMode>, colorModes: seq<ImageMode>,
                             depthTarget: ModeTarget, colorTarget: ModeTarget,
                             throwsAt: Option<InitStep>)
      requires Valid()
      requires |depthModes| > 0 && |colorModes| > 0
      modifies this`readersOpen, this`streamSetOpen, this`areStreamsInitialized, this`streamObtained, this`trace
      ensures Valid()
      ensures streamObtained == ObtainedStreams(old(streamObtained), throwsAt)
      ensures throwsAt.None? ==>
        && streamSetOpen && readersOpen && areStreamsInitialized
        && trace == old(trace) + InitializeEffects(depthModes, colorModes, depthTarget, colorTarget, None)
      ensures throwsAt.Some? ==>
        && !streamSetOpen && !readersOpen && areStreamsInitialized == old(areStreamsInitialized)
        && trace == old(trace) + InitializeEffects(depthModes, colorModes, depthTarget, colorTarget, throwsAt)
                    + UninitializeEffects(old(readersOpen) || Completed(throwsAt, AtCreateReaders),
                                          old(streamSetOpen) || Completed(throwsAt, AtOpen))
    {
      OpenStreams(depthModes, colorModes, depthTarget, colorTarget, throwsAt);
      ObtainedStreamsGrow(old(streamObtained), throwsAt);
      if throwsAt.Some? {
        // catch (AstraException)
        UninitializeStreams();
      } else {
        areStreamsInitialized := true;
      }
    }

    /** One `CheckXReader()`; the readers must exist, as the source dereferences them. */
    method CheckReader(s: Stream, read: FrameRead)
      requires readersOpen
      modifies this`lastFrameIndex, this`trace
      ensures lastFrameIndex == old(lastFrameIndex).Set(s, NextIndex(old(lastFrameIndex).Get(s), read))
      ensures trace == old(trace) + FrameEvents(s, old(lastFrameIndex).Get(s), read)
    {
      if read.Frame? {
        if lastFrameIndex.Get(s) != read.index {
          lastFrameIndex := lastFrameIndex.Set(s, read.index);
          trace := trace + [NewFrame(s, read.index)];
          if s == Body {
            trace := trace + [NewBodyMask(read.index)];
          }
        } else {
          assert lastFrameIndex.Set(s, read.index) == lastFrameIndex by {
            SetSame(lastFrameIndex, s);
          }
        }
      } else {
        SetSame(lastFrameIndex, s);
      }
    }

    static lemma AppendThree(t0: seq<Effect>, t1: seq<Effect>, t2: seq<Effect>, t3: seq<Effect>,
                             a: seq<Effect>, b: seq<Effect>, c: seq<Effect>)
      requires t1 == t0 + a && t2 == t1 + b && t3 == t2 + c
      ensures t3 == t0 + (a + b + c)
    {
    }

    static lemma AppendChain(t0: seq<Effect>, t1: seq<Effect>, t2: seq<Effect>, t3: seq<Effect>,
                             t4: seq<Effect>, t5: seq<Effect>, a: seq<Effect>, b: seq<Effect>,
                             c: seq<Effect>, d: seq<Effect>, e: seq<Effect>)
      requires t1 == t0 + a && t2 == t1 + b && t3 == t2 + c && t4 == t3 + d && t5 == t4 + e
      ensures t5 == t0 + (a + b + c + d + e)
    {
    }

    static lemma SetSame<T>(p: PerStream<T>, s: Stream)
      ensures p.Set(s, p.Get(s)) == p
    {
    }

    /** The five `CheckXReader()` calls of a cycle, in `StreamOrder`. */
    method CheckReaders(frames: PerStream<FrameRead>)
      requires readersOpen
      modifies this`lastFrameIndex, this`trace
      ensures lastFrameIndex == AdvanceAll(old(lastFrameIndex), frames)
      ensures trace == old(trace) + AllFrameEvents(old(lastFrameIndex), frames)
    {
      ghost var last, t0 := lastFrameIndex, trace;
      CheckReader(Depth, frames.depth);
      ghost var t1 := trace;
      CheckReader(Color, frames.color);
      ghost var t2 := trace;
      CheckReader(Body, frames.body);
      ghost var t3 := trace;
      CheckReader(MaskedColor, frames.maskedColor);
      ghost var t4 := trace;
      CheckReader(ColorizedBody, frames.colorizedBody);
      AppendChain(t0, t1, t2, t3, t4, trace, FrameEvents(Depth, last.depth, frames.depth),
        FrameEvents(Color, last.color, frames.color), FrameEvents(Body, last.body, frames.body),
        FrameEvents(MaskedColor, last.maskedColor, frames.maskedColor),
        FrameEvents(ColorizedBody, last.colorizedBody, frames.colorizedBody));
      CheckedAllIsAdvanceAll(last, frames);
    }

    /** Needs all five stream references, as the source dereferences them unguarded. */
    method UpdateStreamStartStop(toggles: PerStream<Option<bool>>)
      requires streamObtained == Uniform(true)
      modifies this`isOn, this`trace
      ensures isOn == ToggleStates(toggles)
      ensures trace == old(trace) + StartStopEffects(isOn)
    {
      isOn := ToggleStates(toggles);
      trace := trace + [Switch(Depth, isOn.depth)];
      trace := trace + [Switch(Color, isOn.color)];
      trace := trace + [Switch(Body, isOn.body)];
      trace := trace + [Switch(MaskedColor, isOn.maskedColor)];
      trace := trace + [Switch(ColorizedBody, isOn.colorizedBody)];
    }

    method CheckForNewFrames(waitResult: bool, updateComplete: bool, updateRequested: bool,
                             frames: PerStream<FrameRead>, toggles: PerStream<Option<bool>>)
      requires Valid()
      requires ReadsFrames(waitResult, updateComplete) ==> readersOpen
      requires !updateRequested ==> areStreamsInitialized
      modifies this`lastFrameIndex, this`frameCount, this`isOn, this`trace
      ensures Valid()
      ensures frameCount == if ReadsFrames(waitResult, updateComplete)
                            then Increment(old(frameCount)) else old(frameCount)
      ensures lastFrameIndex == if ReadsFrames(waitResult, updateComplete)
                                then AdvanceAll(old(lastFrameIndex), frames) else old(lastFrameIndex)
      ensures isOn == if !updateRequested then ToggleStates(toggles) else old(isOn)
      ensures trace == old(trace) + CycleEffects(old(lastFrameIndex), waitResult, updateComplete,
                                                 updateRequested, frames, toggles)
    {
      ghost var last, t0 := lastFrameIndex, trace;
      ghost var waited := [WaitForUpdate(Milliseconds(5))];
      ghost var read := if ReadsFrames(waitResult, updateComplete) then AllFrameEvents(last, frames) else [];
      ghost var requested := if !updateRequested then StartStopEffects(ToggleStates(toggles)) + [UpdateAsync] else [];
      trace := trace + [WaitForUpdate(Milliseconds(5))];
      ghost var t1 := trace;
      if waitResult && updateComplete {
        CheckReaders(frames);
        frameCount := Increment(frameCount);
      }
      ghost var t2 := trace;
      if !updateRequested {
        UpdateStreamStartStop(toggles);
        trace := trace + [UpdateAsync];
      }
      AppendThree(t0, t1, t2, trace, waited, read, requested);
    }

    /**
     * `Start()`: clears the time text when there is one, and takes the debug
     * toggle's state as it stands, without the on-to-off clearing of `Update()`.
     */
    method Start(hasTimeText: bool, toggle: Option<bool>)
      modifies this`debugTextEnabled, this`trace
      ensures debugTextEnabled == if toggle.Some? then toggle.value else old(debugTextEnabled)
      ensures trace == old(trace) + (if hasTimeText then [ClearTimeText] else [])
    {
      if hasTimeText {
        trace := trace + [ClearTimeText];
      }
      if toggle.Some? {
        debugTextEnabled := toggle.value;
      }
    }

    method StopStreamIfHeld(s: Stream)
      modifies this`trace
      ensures trace == old(trace) + StopIfHeld(streamObtained, s)
    {
      if streamObtained.Get(s) {
        trace := trace + [StopStream(s)];
      }
    }

    /**
     * The controller's part of `OnDestroy()`: waits for the updater, stops
     * every stream it holds a reference to, then tears down. Unsubscribing
     * and terminating the context are the context's own operations.
     */
    method OnDestroy()
      requires Valid()
      modifies this`readersOpen, this`streamSetOpen, this`trace
      ensures Valid() && !readersOpen && !streamSetOpen
      ensures trace == old(trace) + DestroyEffects(streamObtained, old(readersOpen), old(streamSetOpen))
    {
      ghost var t0 := trace;
      trace := trace + [WaitForUpdate(Indefinitely)];
      ghost var t1 := trace;
      StopStreamIfHeld(Depth);
      ghost var s1 := trace;
      StopStreamIfHeld(Color);
      ghost var s2 := trace;
      StopStreamIfHeld(Body);
      ghost var s3 := trace;
      StopStreamIfHeld(MaskedColor);
      ghost var s4 := trace;
      StopStreamIfHeld(ColorizedBody);
      ghost var t2 := trace;
      AppendChain(t1, s1, s2, s3, s4, t2, StopIfHeld(streamObtained, Depth),
        StopIfHeld(streamObtained, Color), StopIfHeld(streamObtained, Body),
        StopIfHeld(streamObtained, MaskedColor), StopIfHeld(streamObtained, ColorizedBody));
      ghost var down := UninitializeEffects(readersOpen, streamSetOpen);
      UninitializeStreams();
      AppendThree(t0, t1, t2, trace, [WaitForUpdate(Indefinitely)], DestroyStops(streamObtained), down);
    }

    /** The `ToggleDebugText` block of `Update()`. */
    method UpdateDebugText(toggle: Option<bool>)
      modifies this`debugTextEnabled, this`trace
      ensures toggle.None? ==> debugTextEnabled == old(debugTextEnabled) && trace == old(trace)
      ensures toggle.Some? ==> debugTextEnabled == toggle.value
      ensures toggle.Some? ==>
        trace == old(trace) + (if old(debugTextEnabled) && !toggle.value then [ClearTimeText] else [])
    {
      if toggle.Some? {
        var newDebugTextEnabled := toggle.value;
        if debugTextEnabled && !newDebugTextEnabled {
          trace := trace + [ClearTimeText];
        }
        debugTextEnabled := newDebugTextEnabled;
      }
    }
  }

  // ---------------------------------------------------------------------

  /**
   * A desktop build: the sensor offers the desktop depth mode second and no
   * exact color match, so the search picks the depth match and the first
   * color mode. An Android build would pick the other depth mode.
   */
  method ControllerScenario()
  {
    var depthModes := [ImageMode(640, 480, 30, 0), ImageMode(320, 240, 30, 0), ImageMode(160, 120, 30, 0)];
    var colorModes := [ImageMode(1280, 720, 30, 1), ImageMode(640, 480, 15, 1)];
    var c := new AstraController();
    c.InitializeStreams(depthModes, colorModes, DesktopDepthTarget, DesktopColorTarget, None);
    assert c.areStreamsInitialized && c.readersOpen && c.streamObtained == Uniform(true);
    assert SelectedMode(depthModes, DesktopDepthTarget) == depthModes[1];
    assert SelectedMode(colorModes, DesktopColorTarget) == colorModes[0];
    assert c.trace[7..] == [SetMode(Depth, depthModes[1]), SetMode(Color, colorModes[0])];
    assert SelectedMode(depthModes, AndroidDepthTarget) == depthModes[2];
    assert SelectedMode(colorModes, AndroidColorTarget) == colorModes[0];
    c.OnDestroy();
    assert !c.readersOpen && !c.streamSetOpen;
  }
}
