/**
 * The lifecycle of the Astra SDK as driven by `AstraUnityContext`:
 * two flags (`_initialized`, `_initializing`), the SDK's own init/terminate,
 * the background updater's start/stop/wait, and the three events the
 * context raises. Calls into the SDK, the updater and event subscribers are
 * recorded in a ghost trace instead of being performed.
 */
module Context {

  /** One externally visible step taken by the context. */
  datatype Call =
    | ContextInitialize                        // Astra `Context.Initialize()`
    | ContextTerminate                         // Astra `Context.Terminate()`
    | UpdaterStart                             // `_backgroundUpdater.Start()`
    | UpdaterStop                              // `_backgroundUpdater.Stop()`
    | UpdaterWaitIndefinitely                  // `_backgroundUpdater.Wait(-1)`
    | InitializingHandled                      // the `Initializing` subscriber ran
    | TerminatingHandled                       // the `Terminating` subscriber ran
    | PermissionRequestCompletedHandled(granted: bool)

  /**
   * Who listens to `Initializing`. A subscriber may itself ask for USB device
   * access (the controller does so on Android), which re-enters `Initialize`.
   */
  datatype InitializingSubscriber =
    | NoInitializingSubscriber
    | InitializingSubscriber(requestsUsbAccess: bool)

  /** The subscription state of the three events. */
  datatype Subscribers = Subscribers(
    initializing: InitializingSubscriber,
    terminating: bool,
    permissionRequestCompleted: bool)

  /** Number of occurrences of `c` in `s`. */
  function Count(s: seq<Call>, c: Call): (r: nat)
  {
    if s == [] then 0 else (if s[0] == c then 1 else 0) + Count(s[1..], c)
  }

  lemma {:induction false} CountAppend(a: seq<Call>, b: seq<Call>, c: Call)
    ensures Count(a + b, c) == Count(a, c) + Count(b, c)
  {
    if a == [] {
      assert a + b == b;
    } else {
      assert (a + b)[1..] == a[1..] + b;
      CountAppend(a[1..], b, c);
    }
  }

  /** A one-call trace counts that call once and nothing else. */
  lemma CountSingleton(x: Call, c: Call)
    ensures Count([x], c) == if x == c then 1 else 0
  {
    assert [x][1..] == [];
  }

  /** Appending one call moves only that call's count, by one. */
  lemma CountSnoc(s: seq<Call>, x: Call)
    ensures forall c :: Count(s + [x], c) == Count(s, c) + (if x == c then 1 else 0)
  {
    forall c ensures Count(s + [x], c) == Count(s, c) + (if x == c then 1 else 0) {
      CountAppend(s, [x], c);
    }
  }

  // ---------------------------------------------------------------------
  // What each operation emits, as functions of the state it starts from.

  /** `RaisePermissionRequestCompleted(granted)`: the subscriber, if any. */
  function PermissionTrace(subs: Subscribers, granted: bool): (r: seq<Call>)
  {
    if subs.permissionRequestCompleted then [PermissionRequestCompletedHandled(granted)] else []
  }

  /** What `RequestUsbDeviceAccessFromAndroid` does after its `Initialize()`. */
  function RequestUsbTail(subs: Subscribers): (r: seq<Call>)
  {
    [UpdaterWaitIndefinitely] + PermissionTrace(subs, true)
  }

  /**
   * `RaiseInitializing()` during initialization. A subscriber asking for USB
   * access re-enters `Initialize`, which contributes nothing because
   * `_initializing` is set; the rest of the request follows.
   */
  function InitializingTrace(subs: Subscribers): (r: seq<Call>)
  {
    match subs.initializing
    case NoInitializingSubscriber => []
    case InitializingSubscriber(usb) =>
      [InitializingHandled] + (if usb then RequestUsbTail(subs) else [])
  }

  /** `Initialize()` from the given flags. */
  function InitializeTrace(initialized: bool, initializing: bool, subs: Subscribers): (r: seq<Call>)
  {
    if initialized || initializing then []
    else [ContextInitialize] + InitializingTrace(subs) + [UpdaterStart]
  }

  /** `Terminate()` from the given flag. */
  function TerminateTrace(initialized: bool, subs: Subscribers): (r: seq<Call>)
  {
    if !initialized then []
    else (if subs.terminating then [TerminatingHandled] else []) + [UpdaterStop, ContextTerminate]
  }

  // ---------------------------------------------------------------------
  // Properties of those traces.

  /** Initializing an initialized or initializing context makes no call at all. */
  lemma InitializeWhenBusyIsSilent(initialized: bool, initializing: bool, subs: Subscribers)
    requires initialized || initializing
    ensures InitializeTrace(initialized, initializing, subs) == []
  {
  }

  /**
   * From the idle state, `Initialize` initializes the SDK exactly once (even if
   * the `Initializing` subscriber re-enters through a USB access request),
   * starts the updater exactly once, opens with the SDK init and closes with
   * the updater start, and tears nothing down.
   */
  lemma InitializeFromIdle(subs: Subscribers)
    ensures var t := InitializeTrace(false, false, subs);
      && |t| >= 2 && t[0] == ContextInitialize && t[|t| - 1] == UpdaterStart
      && Count(t, ContextInitialize) == 1 && Count(t, UpdaterStart) == 1
      && Count(t, ContextTerminate) == 0 && Count(t, UpdaterStop) == 0
      && (subs.initializing == InitializingSubscriber(false) ==>
            t == [ContextInitialize, InitializingHandled, UpdaterStart])
      && (subs.initializing == NoInitializingSubscriber ==>
            t == [ContextInitialize, UpdaterStart])
  {
    var mid := InitializingTrace(subs);
    var t := InitializeTrace(false, false, subs);
    assert t == [ContextInitialize] + mid + [UpdaterStart];
    InitializingTraceCounts(subs);
    CountAppend([ContextInitialize] + mid, [UpdaterStart], ContextInitialize);
    CountAppend([ContextInitialize], mid, ContextInitialize);
    CountAppend([ContextInitialize] + mid, [UpdaterStart], UpdaterStart);
    CountAppend([ContextInitialize], mid, UpdaterStart);
    CountAppend([ContextInitialize] + mid, [UpdaterStart], ContextTerminate);
    CountAppend([ContextInitialize], mid, ContextTerminate);
    CountAppend([ContextInitialize] + mid, [UpdaterStart], UpdaterStop);
    CountAppend([ContextInitialize], mid, UpdaterStop);
  }

  /** The `Initializing` phase issues no SDK or updater start/stop call. */
  lemma InitializingTraceCounts(subs: Subscribers)
    ensures var t := InitializingTrace(subs);
      && Count(t, ContextInitialize) == 0 && Count(t, ContextTerminate) == 0
      && Count(t, UpdaterStart) == 0 && Count(t, UpdaterStop) == 0
  {
    var p := PermissionTrace(subs, true);
    if subs.permissionRequestCompleted {
      CountSingleton(PermissionRequestCompletedHandled(true), ContextInitialize);
      CountSingleton(PermissionRequestCompletedHandled(true), ContextTerminate);
      CountSingleton(PermissionRequestCompletedHandled(true), UpdaterStart);
      CountSingleton(PermissionRequestCompletedHandled(true), UpdaterStop);
    }
    var tail := RequestUsbTail(subs);
    CountAppend([UpdaterWaitIndefinitely], p, ContextInitialize);
    CountAppend([UpdaterWaitIndefinitely], p, ContextTerminate);
    CountAppend([UpdaterWaitIndefinitely], p, UpdaterStart);
    CountAppend([UpdaterWaitIndefinitely], p, UpdaterStop);
    CountAppend([InitializingHandled], tail, ContextInitialize);
    CountAppend([InitializingHandled], tail, ContextTerminate);
    CountAppend([InitializingHandled], tail, UpdaterStart);
    CountAppend([InitializingHandled], tail, UpdaterStop);
  }

  /**
   * `Terminate` on an initialized context stops the updater and then the SDK,
   * each exactly once, after the `Terminating` subscriber (if any) and
   * starts nothing; on an uninitialized one it does nothing.
   */
  lemma TerminateFromInitialized(subs: Subscribers)
    ensures TerminateTrace(false, subs) == []
    ensures var t := TerminateTrace(true, subs);
      && |t| >= 2 && t[|t| - 2] == UpdaterStop && t[|t| - 1] == ContextTerminate
      && (subs.terminating <==> t[0] == TerminatingHandled)
      && Count(t, ContextTerminate) == 1 && Count(t, UpdaterStop) == 1
      && Count(t, ContextInitialize) == 0 && Count(t, UpdaterStart) == 0
  {
    var head := if subs.terminating then [TerminatingHandled] else [];
    CountAppend(head, [UpdaterStop, ContextTerminate], ContextTerminate);
    CountAppend(head, [UpdaterStop, ContextTerminate], UpdaterStop);
    CountAppend(head, [UpdaterStop, ContextTerminate], ContextInitialize);
    CountAppend(head, [UpdaterStop, ContextTerminate], UpdaterStart);
  }

  /** A public lifecycle request made between others (never re-entrantly). */
  datatype LifecycleOp = InitializeOp | TerminateOp

  /** The `_initialized` flag after a run of requests. */
  function RunState(initialized: bool, ops: seq<LifecycleOp>): (r: bool)
    decreases |ops|
  {
    if ops == [] then initialized
    else RunState(if ops[0] == InitializeOp then true else false, ops[1..])
  }

  /** Everything a run of requests emits. */
  function RunTrace(initialized: bool, subs: Subscribers, ops: seq<LifecycleOp>): (r: seq<Call>)
    decreases |ops|
  {
    if ops == [] then []
    else if ops[0] == InitializeOp then
      InitializeTrace(initialized, false, subs) + RunTrace(true, subs, ops[1..])
    else
      TerminateTrace(initialized, subs) + RunTrace(false, subs, ops[1..])
  }

  /**
   * Over any run of `Initialize`/`Terminate` requests the SDK and the updater
   * stay balanced: inits minus terminates, and starts minus stops, change by
   * exactly the change of the `_initialized` flag.
   */
  lemma {:induction false} RunBalanced(initialized: bool, subs: Subscribers, ops: seq<LifecycleOp>)
    ensures var t := RunTrace(initialized, subs, ops);
      var before := if initialized then 1 else 0;
      var after := if RunState(initialized, ops) then 1 else 0;
      && Count(t, ContextInitialize) + before == Count(t, ContextTerminate) + after
      && Count(t, UpdaterStart) + before == Count(t, UpdaterStop) + after
    decreases |ops|
  {
    if ops != [] {
      var step, next :=
        if ops[0] == InitializeOp then InitializeTrace(initialized, false, subs)
        else TerminateTrace(initialized, subs),
        ops[0] == InitializeOp;
      RunBalanced(next, subs, ops[1..]);
      var rest := RunTrace(next, subs, ops[1..]);
      InitializeFromIdle(subs);
      TerminateFromInitialized(subs);
      CountAppend(step, rest, ContextInitialize);
      CountAppend(step, rest, ContextTerminate);
      CountAppend(step, rest, UpdaterStart);
      CountAppend(step, rest, UpdaterStop);
    }
  }

  // ---------------------------------------------------------------------

  class AstraUnityContext {
    var initialized: bool
    var initializing: bool
    var subscribers: Subscribers
    ghost var trace: seq<Call>

    /**
     * The flags never both hold, and the calls made so far are balanced:
     * the SDK is initialized once more than terminated exactly while the
     * context is initializing or initialized, and the updater is started
     * once more than stopped exactly while it is initialized.
     */
    ghost predicate Valid()
      reads this
    {
      && !(initialized && initializing)
      && Count(trace, ContextInitialize)
         == Count(trace, ContextTerminate) + (if initialized || initializing then 1 else 0)
      && Count(trace, UpdaterStart)
         == Count(trace, UpdaterStop) + (if initialized then 1 else 0)
    }

    constructor (subscribers: Subscribers)
      ensures Valid() && !initialized && !initializing
      ensures this.subscribers == subscribers && trace == []
    {
      initialized := false;
      initializing := false;
      this.subscribers := subscribers;
      trace := [];
    }

    /**
     * Subscribing to or unsubscribing from the three events (`+=`/`-=`):
     * no flag changes and no call is made.
     */
    method SetSubscribers(subs: Subscribers)
      requires Valid()
      modifies this`subscribers
      ensures Valid() && subscribers == subs
    {
      subscribers := subs;
    }

    method Initialize()
      requires Valid()
      modifies this`initialized, this`initializing, this`trace
      decreases if initialized || initializing then 0 else 1, 1
      ensures Valid()
      ensures trace == old(trace) + InitializeTrace(old(initialized), old(initializing), subscribers)
      ensures if old(initialized || initializing)
              then initialized == old(initialized) && initializing == old(initializing)
              else initialized && !initializing
    {
      if initialized {
        return;
      }
      if initializing {
        return;
      }
      initializing := true;
      ghost var t0 := trace;
      CountSnoc(trace, ContextInitialize);
      trace := trace + [ContextInitialize];
      ghost var t1 := trace;
      RaiseInitializing();
      ghost var t2 := trace;
      CountSnoc(trace, UpdaterStart);
      trace := trace + [UpdaterStart];
      Bracketed(t0, t1, t2, trace, ContextInitialize, InitializingTrace(subscribers), UpdaterStart);
      initialized := true;
      initializing := false;
    }

    static lemma Bracketed(t0: seq<Call>, t1: seq<Call>, t2: seq<Call>, t3: seq<Call>,
                           a: Call, mid: seq<Call>, b: Call)
      requires t1 == t0 + [a] && t2 == t1 + mid && t3 == t2 + [b]
      ensures t3 == t0 + ([a] + mid + [b])
    {
    }

    method RaiseInitializing()
      requires Valid() && initializing && !initialized
      modifies this`initialized, this`initializing, this`trace
      decreases 0, 3
      ensures Valid() && initializing && !initialized
      ensures trace == old(trace) + InitializingTrace(subscribers)
    {
      match subscribers.initializing
      case NoInitializingSubscriber =>
      case InitializingSubscriber(requestsUsb) =>
        CountSnoc(trace, InitializingHandled);
        trace := trace + [InitializingHandled];
        if requestsUsb {
          RequestUsbDeviceAccessFromAndroid();
        }
    }

    /** The non-Android path: make sure the SDK is up, wait for the updater, report success. */
    method RequestUsbDeviceAccessFromAndroid()
      requires Valid()
      modifies this`initialized, this`initializing, this`trace
      decreases if initialized || initializing then 0 else 1, 2
      ensures Valid() && (initialized || initializing)
      ensures trace == old(trace) + InitializeTrace(old(initialized), old(initializing), subscribers)
                       + RequestUsbTail(subscribers)
      ensures if old(initialized || initializing)
              then initialized == old(initialized) && initializing == old(initializing)
              else initialized && !initializing
    {
      Initialize();
      CountSnoc(trace, UpdaterWaitIndefinitely);
      trace := trace + [UpdaterWaitIndefinitely];
      RaisePermissionRequestCompleted(true);
    }

    method RaisePermissionRequestCompleted(granted: bool)
      requires Valid()
      modifies this`trace
      ensures Valid()
      ensures trace == old(trace) + PermissionTrace(subscribers, granted)
    {
      if subscribers.permissionRequestCompleted {
        CountSnoc(trace, PermissionRequestCompletedHandled(granted));
        trace := trace + [PermissionRequestCompletedHandled(granted)];
      }
    }

    method Terminate()
      requires Valid()
      modifies this`initialized, this`trace
      ensures Valid() && !initialized && initializing == old(initializing)
      ensures trace == old(trace) + TerminateTrace(old(initialized), subscribers)
    {
      if !initialized {
        return;
      }
      RaiseTerminating();
      CountSnoc(trace, UpdaterStop);
      trace := trace + [UpdaterStop];
      CountSnoc(trace, ContextTerminate);
      trace := trace + [ContextTerminate];
      initialized := false;
    }

    method RaiseTerminating()
      requires Valid()
      modifies this`trace
      ensures Valid()
      ensures trace == old(trace) + (if subscribers.terminating then [TerminatingHandled] else [])
    {
      if subscribers.terminating {
        CountSnoc(trace, TerminatingHandled);
        trace := trace + [TerminatingHandled];
      }
    }
  }

  /**
   * A controller-like client: subscribe to `Initializing` with a handler that
   * asks for USB access, initialize twice, terminate, initialize again.
   */
  method LifecycleScenario()
  {
    var subs := Subscribers(InitializingSubscriber(true), true, true);
    var c := new AstraUnityContext(subs);
    c.Initialize();
    assert c.trace == [ContextInitialize, InitializingHandled, UpdaterWaitIndefinitely,
                       PermissionRequestCompletedHandled(true), UpdaterStart];
    c.Initialize();
    assert |c.trace| == 5;
    c.Terminate();
    assert c.trace[5..] == [TerminatingHandled, UpdaterStop, ContextTerminate];
    c.Terminate();
    c.Initialize();
    assert c.initialized && c.trace[8] == ContextInitialize;
    // Unsubscribing first, as a controller does before terminating, leaves
    // only the teardown itself.
    c.SetSubscribers(Subscribers(NoInitializingSubscriber, false, false));
    c.Terminate();
    assert c.trace[13..] == [UpdaterStop, ContextTerminate];
  }
}
