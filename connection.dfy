/**
  The lifecycle of one named SSH connection (lib/connection.ts).

  The source is an async object: every `await` splits a method into segments that run
  atomically on the event loop. Each segment is one step here. The pure part of the module
  (`Snapshot`, the `...Step` functions, `Next` and `Run`) is the specification; the class
  `Connection` holds the same fields and its methods are proved to perform exactly those steps.
  Timers are not waited for: a step that would start `delay(ms)` returns `Some(ms)`.
 */
module Connection {
  import opened Wrappers

  /** The lines `broadcast` sends to the terminal from the connect and exit steps. */
  const ConnectingMessage := "Connecting."
  const ConnectedMessage := "Connected."
  const ClosedMessage := "Connection closed."

  /** Milliseconds of backoff per counted failure, after an error and after the process closes. */
  const ErrorBackoffUnit: nat := 4000
  const CloseBackoffUnit: nat := 1000

  /**
    The observable state of a connection.
    `spawned` counts the `ssh` processes started (`this.proc` is defined once it is positive),
    `pendingExits` those whose exit continuation has not run yet, `kills` the calls of
    `proc.kill()`, and `log` the broadcast lines in order.
   */
  datatype Snapshot = Snapshot(
    active: bool,
    connecting: bool,
    destroyed: bool,
    errorCount: nat,
    spawned: nat,
    pendingExits: nat,
    kills: nat,
    log: seq<string>)

  /** The state right after the constructor. */
  const Initial := Snapshot(false, false, false, 0, 0, 0, 0, [])

  /**
    How a call of `destroy()` ends: it returns at once when already destroyed, kills the current
    process, or, when no process was ever spawned, rejects because `this.proc` is undefined.
   */
  datatype DestroyOutcome = AlreadyDestroyed | Killed | NoProcess

  /** The synchronous first segment of `connect()`, up to the await on the pre-connect hook. */
  function ConnectStep(s: Snapshot): (r: (Snapshot, bool))
    ensures r.1 ==> r.0.connecting
    ensures r.0.active == s.active && r.0.destroyed == s.destroyed
    ensures r.0.errorCount == s.errorCount && r.0.spawned == s.spawned && r.0.kills == s.kills
  {
    if s.connecting || s.destroyed then (s, false)
    else (s.(connecting := true, log := s.log + [ConnectingMessage]), true)
  }

  /** `activate()`: marks the connection active and runs the first segment of `connect()`. */
  function ActivateStep(s: Snapshot): (r: Snapshot)
    ensures !s.destroyed ==> r.active
    ensures r.destroyed == s.destroyed && r.errorCount == s.errorCount
    ensures r.spawned == s.spawned && r.kills == s.kills
  {
    if s.active || s.destroyed then s
    else ConnectStep(s.(active := true)).0
  }

  /** The segment of `connect()` after the hook: spawn `ssh`, then report being connected. */
  function SpawnStep(s: Snapshot): (r: Snapshot)
    requires s.connecting
    ensures r.spawned == s.spawned + 1 && r.pendingExits == s.pendingExits + 1
    ensures r.active && !r.connecting
    ensures r.destroyed == s.destroyed && r.errorCount == s.errorCount && r.kills == s.kills
  {
    s.(connecting := false, active := true, spawned := s.spawned + 1,
       pendingExits := s.pendingExits + 1, log := s.log + [ConnectedMessage])
  }

  /** `destroy()`: it has no await, so the whole body is one step. */
  function DestroyStep(s: Snapshot): (r: (Snapshot, DestroyOutcome))
    ensures r.0.destroyed
    ensures r.1 == NoProcess ==> r.0.spawned == 0
    ensures r.0.active == s.active && r.0.connecting == s.connecting
    ensures r.0.errorCount == s.errorCount && r.0.spawned == s.spawned && r.0.log == s.log
  {
    if s.destroyed then (s, AlreadyDestroyed)
    else if s.spawned == 0 then (s.(destroyed := true), NoProcess)
    else (s.(destroyed := true, kills := s.kills + 1), Killed)
  }

  /**
    `onError`: count the error, destroy, and start the backoff timer (None when the awaited
    destroy rejects, which ends the handler before its timer and its trailing `connect()`).
   */
  function ErrorStep(s: Snapshot): (r: (Snapshot, Option<nat>))
    ensures r.0.destroyed && r.0.errorCount == s.errorCount + 1
    ensures r.1.Some? ==> r.1.value == r.0.errorCount * ErrorBackoffUnit
    ensures r.0.active == s.active && r.0.connecting == s.connecting && r.0.spawned == s.spawned
  {
    var counted := s.(errorCount := s.errorCount + 1);
    var destroyed := DestroyStep(counted);
    (destroyed.0,
     if destroyed.1 == NoProcess then None else Some(destroyed.0.errorCount * ErrorBackoffUnit))
  }

  /**
    The continuation that runs when a spawned process ends (whether it failed or not): count it,
    mark inactive, report it, and start the reconnect timer unless the connection is destroyed.
   */
  function ExitStep(s: Snapshot): (r: (Snapshot, Option<nat>))
    requires s.pendingExits > 0
    ensures !r.0.active && r.0.errorCount == s.errorCount + 1
    ensures r.0.destroyed == s.destroyed && r.0.connecting == s.connecting
    ensures r.0.spawned == s.spawned && r.0.kills == s.kills
    ensures r.1.Some? ==> r.1.value == r.0.errorCount * CloseBackoffUnit
  {
    var t := s.(errorCount := s.errorCount + 1, active := false,
                pendingExits := s.pendingExits - 1, log := s.log + [ClosedMessage]);
    (t, if t.destroyed then None else Some(t.errorCount * CloseBackoffUnit))
  }

  /**
    What the event loop can deliver to a connection. `ReconnectDue` is a backoff timer firing,
    whose continuation is a call of `connect()`; `HookFinished` resumes a connect attempt;
    `ProcessExited` is the exit continuation of a spawned process.
   */
  datatype Event =
    | ActivateCalled
    | DestroyCalled
    | ErrorEmitted
    | ReconnectDue
    | HookFinished
    | ProcessExited

  /**
    One step. A continuation that does not exist in the given state (no connect awaiting its
    hook, no process left to exit) leaves the state as it is. Every event may arrive at any
    time, so the properties proved over `Run` hold for every schedule the source allows.
   */
  function Next(s: Snapshot, e: Event): (r: Snapshot)
    ensures s.destroyed ==> r.destroyed
    ensures s.errorCount <= r.errorCount <= s.errorCount + 1
    ensures s.spawned <= r.spawned <= s.spawned + 1
  {
    match e
    case ActivateCalled => ActivateStep(s)
    case DestroyCalled => DestroyStep(s).0
    case ErrorEmitted => ErrorStep(s).0
    case ReconnectDue => ConnectStep(s).0
    case HookFinished => if s.connecting then SpawnStep(s) else s
    case ProcessExited => if s.pendingExits > 0 then ExitStep(s).0 else s
  }

  /** The state after the given events, in order. */
  function Run(s: Snapshot, es: seq<Event>): (r: Snapshot)
    ensures s.errorCount <= r.errorCount <= s.errorCount + |es|
    ensures s.spawned <= r.spawned <= s.spawned + |es|
    decreases |es|
  {
    if es == [] then s else Run(Next(s, es[0]), es[1..])
  }

  /** The number of times `e` occurs in `es`. */
  function Occurrences(es: seq<Event>, e: Event): nat
  {
    if es == [] then 0 else (if es[0] == e then 1 else 0) + Occurrences(es[1..], e)
  }

  // ---------------------------------------------------------------------------------------
  // Properties of single steps
  // ---------------------------------------------------------------------------------------

  /** `activate()` is a no-op on an active or destroyed connection; otherwise it makes the
      connection active and a connect attempt starts exactly when none is in progress. */
  lemma ActivateGuard(s: Snapshot)
    ensures s.active || s.destroyed ==> ActivateStep(s) == s
    ensures !s.active && !s.destroyed ==>
      ActivateStep(s).active && ActivateStep(s).connecting &&
      (ActivateStep(s).log == s.log + [ConnectingMessage] <==> !s.connecting)
  {
  }

  /** `connect()` does nothing while an attempt is in progress or after destroy, so two
      attempts never overlap; otherwise it starts one and changes nothing else. */
  lemma ConnectGuard(s: Snapshot)
    ensures ConnectStep(s).1 <==> !s.connecting && !s.destroyed
    ensures !ConnectStep(s).1 ==> ConnectStep(s).0 == s
    ensures ConnectStep(s).1 ==>
      ConnectStep(s).0.connecting && ConnectStep(s).0.spawned == s.spawned &&
      ConnectStep(s).0.destroyed == s.destroyed && ConnectStep(s).0.errorCount == s.errorCount
  {
  }

  /** `destroy()` always leaves the connection destroyed; a second call changes nothing and
      kills nothing. */
  lemma DestroyIdempotent(s: Snapshot)
    ensures DestroyStep(s).0.destroyed
    ensures DestroyStep(DestroyStep(s).0) == (DestroyStep(s).0, AlreadyDestroyed)
    ensures DestroyStep(s).1 == Killed <==> !s.destroyed && s.spawned > 0
    ensures DestroyStep(s).0.kills == s.kills + (if DestroyStep(s).1 == Killed then 1 else 0)
  {
  }

  /** The error backoff uses the count after its increment; it is absent only when the destroy
      inside the handler rejects, which happens when no process was ever spawned. */
  lemma ErrorBackoff(s: Snapshot)
    ensures ErrorStep(s).0.destroyed
    ensures ErrorStep(s).0.errorCount == s.errorCount + 1
    ensures ErrorStep(s).1 ==
      if !s.destroyed && s.spawned == 0 then None else Some((s.errorCount + 1) * 4000)
  {
  }

  /** After `onError` its trailing `connect()` is a no-op. */
  lemma ErrorThenReconnectIsNoop(s: Snapshot)
    ensures ConnectStep(ErrorStep(s).0) == (ErrorStep(s).0, false)
  {
  }

  /** On process exit the connection becomes inactive, the count grows by one, and a reconnect
      after `errorCount * 1000` ms is scheduled if and only if it is not destroyed. */
  lemma ExitBackoff(s: Snapshot)
    requires s.pendingExits > 0
    ensures !ExitStep(s).0.active
    ensures ExitStep(s).0.destroyed == s.destroyed
    ensures ExitStep(s).0.errorCount == s.errorCount + 1
    ensures ExitStep(s).1.Some? <==> !s.destroyed
    ensures ExitStep(s).1.Some? ==> ExitStep(s).1.value == (s.errorCount + 1) * 1000
  {
  }

  /** Every step adds exactly one to `errorCount` for an error or a process exit, and
      nothing for any other event. */
  lemma StepErrorCount(s: Snapshot, e: Event)
    ensures Next(s, e).errorCount ==
      s.errorCount + (if e == ErrorEmitted || (e == ProcessExited && s.pendingExits > 0) then 1 else 0)
  {
  }

  /** No step clears `destroyed`, and once it is set no step spawns a process unless a connect
      was already waiting for its hook; no step kills twice. */
  lemma StepFacts(s: Snapshot, e: Event)
    ensures s.destroyed ==> Next(s, e).destroyed
    ensures s.destroyed ==>
      Next(s, e).spawned + (if Next(s, e).connecting then 1 else 0) <=
      s.spawned + (if s.connecting then 1 else 0)
    ensures Next(s, e).spawned >= s.spawned
    ensures Next(s, e).kills <= s.kills + (if s.destroyed then 0 else 1)
    ensures !Next(s, e).destroyed ==> Next(s, e).kills == s.kills
    ensures s.destroyed ==> Next(s, e).kills == s.kills
  {
  }

  // ---------------------------------------------------------------------------------------
  // Properties of every sequence of steps
  // ---------------------------------------------------------------------------------------

  /** `destroyed` is terminal: no sequence of events clears it. */
  lemma {:induction false} DestroyedIsTerminal(s: Snapshot, es: seq<Event>)
    requires s.destroyed
    ensures Run(s, es).destroyed
    decreases |es|
  {
    if es != [] {
      StepFacts(s, es[0]);
      DestroyedIsTerminal(Next(s, es[0]), es[1..]);
    }
  }

  /** `errorCount` never decreases: it grows by at least the number of errors and at most the
      number of errors and process exits. */
  lemma {:induction false} ErrorCountBounds(s: Snapshot, es: seq<Event>)
    ensures s.errorCount + Occurrences(es, ErrorEmitted) <= Run(s, es).errorCount
    ensures Run(s, es).errorCount <=
      s.errorCount + Occurrences(es, ErrorEmitted) + Occurrences(es, ProcessExited)
    decreases |es|
  {
    if es != [] {
      StepErrorCount(s, es[0]);
      ErrorCountBounds(Next(s, es[0]), es[1..]);
    }
  }

  /** Whatever happens, a process is killed at most once, and never after destroy. */
  lemma {:induction false} AtMostOneKill(s: Snapshot, es: seq<Event>)
    ensures Run(s, es).kills <= s.kills + (if s.destroyed then 0 else 1)
    decreases |es|
  {
    if es != [] {
      var t := Next(s, es[0]);
      StepFacts(s, es[0]);
      AtMostOneKill(t, es[1..]);
      if s.destroyed {
        DestroyedIsTerminal(t, es[1..]);
      }
    }
  }

  /** After destroy, at most one more process is spawned: the one whose connect attempt was
      already waiting for its hook (no step after the hook checks `destroyed`). When no attempt
      was in progress, none is ever started again. */
  lemma {:induction false} SpawnsAfterDestroy(s: Snapshot, es: seq<Event>)
    requires s.destroyed
    ensures s.spawned <= Run(s, es).spawned
    ensures Run(s, es).spawned + (if Run(s, es).connecting then 1 else 0) <=
            s.spawned + (if s.connecting then 1 else 0)
    decreases |es|
  {
    if es != [] {
      StepFacts(s, es[0]);
      SpawnsAfterDestroy(Next(s, es[0]), es[1..]);
    }
  }

  /** A `destroy()` that arrives while the pre-connect hook runs does not stop the spawn that
      follows the hook, and the process spawned then is never killed: `destroy()` has already
      returned early (here by rejecting, since no process existed yet) and every later call
      returns at once. */
  lemma {:induction false} DestroyDuringHookLeavesProcessRunning(es: seq<Event>)
    ensures var t := Run(Initial, [ActivateCalled, DestroyCalled, HookFinished]);
      t.destroyed && t.spawned == 1 && t.pendingExits == 1 && t.active &&
      Run(t, es).kills == 0
  {
    var t := Run(Initial, [ActivateCalled, DestroyCalled, HookFinished]);
    var a := Next(Initial, ActivateCalled);
    var d := Next(a, DestroyCalled);
    var h := Next(d, HookFinished);
    assert Run(Initial, [ActivateCalled, DestroyCalled, HookFinished]) == Run(a, [DestroyCalled, HookFinished]);
    assert Run(a, [DestroyCalled, HookFinished]) == Run(d, [HookFinished]);
    assert Run(d, [HookFinished]) == Run(h, []);
    assert t == h;
    AtMostOneKill(t, es);
  }

  /** A backoff timer's `connect()` does not check `active`: when `activate()` runs while the
      reconnect timer after an exit waits, and its attempt spawns first, the timer then starts
      another attempt, and two processes run at once for one connection. */
  lemma ReconnectAfterActivateRunsTwoProcesses()
    ensures var t := Run(Initial, [ActivateCalled, HookFinished, ProcessExited, ActivateCalled,
                                   HookFinished, ReconnectDue, HookFinished]);
      t.pendingExits == 2 && t.spawned == 3 && !t.destroyed && t.kills == 0
  {
    var s1 := Next(Initial, ActivateCalled);
    var s2 := Next(s1, HookFinished);
    var s3 := Next(s2, ProcessExited);
    var s4 := Next(s3, ActivateCalled);
    var s5 := Next(s4, HookFinished);
    var s6 := Next(s5, ReconnectDue);
    var s7 := Next(s6, HookFinished);
    assert Run(s7, []) == s7;
    assert Run(s6, [HookFinished]) == s7;
    assert Run(s5, [ReconnectDue, HookFinished]) == s7;
    assert Run(s4, [HookFinished, ReconnectDue, HookFinished]) == s7;
    assert Run(s3, [ActivateCalled, HookFinished, ReconnectDue, HookFinished]) == s7;
    assert Run(s2, [ProcessExited, ActivateCalled, HookFinished, ReconnectDue, HookFinished]) == s7;
    assert Run(s1, [HookFinished, ProcessExited, ActivateCalled, HookFinished, ReconnectDue,
                    HookFinished]) == s7;
  }

  /** An error stops the connection for good: it is destroyed from then on, its trailing
      `connect()` does nothing, no new connect attempt ever begins, and at most the attempt
      already waiting for its hook still spawns a process. */
  lemma ErrorStopsConnection(s: Snapshot, es: seq<Event>)
    ensures Run(ErrorStep(s).0, es).destroyed
    ensures ConnectStep(ErrorStep(s).0) == (ErrorStep(s).0, false)
    ensures Run(ErrorStep(s).0, es).spawned <= s.spawned + (if s.connecting then 1 else 0)
    ensures !s.connecting ==>
      !Run(ErrorStep(s).0, es).connecting && Run(ErrorStep(s).0, es).spawned == s.spawned
  {
    var t := ErrorStep(s).0;
    assert t.connecting == s.connecting && t.spawned == s.spawned;
    DestroyedIsTerminal(t, es);
    SpawnsAfterDestroy(t, es);
  }

  // ---------------------------------------------------------------------------------------
  // The object
  // ---------------------------------------------------------------------------------------

  class Connection {
    const name: string
    var active: bool
    var connecting: bool
    var destroyed: bool
    var errorCount: nat
    var spawned: nat
    var pendingExits: nat
    var kills: nat
    var log: seq<string>

    /** The fields of this object as a value. */
    function State(): Snapshot
      reads this
    {
      Snapshot(active, connecting, destroyed, errorCount, spawned, pendingExits, kills, log)
    }

    constructor (name: string)
      ensures this.name == name && State() == Initial
    {
      this.name := name;
      active, connecting, destroyed := false, false, false;
      errorCount, spawned, pendingExits, kills := 0, 0, 0, 0;
      log := [];
    }

    /** `activate()` */
    method Activate()
      modifies this
      ensures State() == ActivateStep(old(State()))
      ensures old(active || destroyed) ==> unchanged(this)
    {
      if active || destroyed {
        return;
      }
      active := true;
      var _ := Connect();
    }

    /** The first segment of `connect()`; also what each backoff timer runs when it fires. */
    method Connect() returns (started: bool)
      modifies this
      ensures (State(), started) == ConnectStep(old(State()))
      ensures !started ==> unchanged(this)
    {
      if connecting || destroyed {
        return false;
      }
      connecting := true;
      log := log + [ConnectingMessage];
      started := true;
    }

    /** The segment of `connect()` after the pre-connect hook has finished. */
    method FinishConnect()
      requires connecting
      modifies this
      ensures State() == SpawnStep(old(State()))
    {
      spawned := spawned + 1;
      pendingExits := pendingExits + 1;
      connecting := false;
      active := true;
      log := log + [ConnectedMessage];
    }

    /** `destroy()` */
    method Destroy() returns (outcome: DestroyOutcome)
      modifies this
      ensures (State(), outcome) == DestroyStep(old(State()))
      ensures destroyed
      ensures old(destroyed) ==> unchanged(this)
    {
      if destroyed {
        return AlreadyDestroyed;
      }
      destroyed := true;
      if spawned == 0 {
        return NoProcess;
      }
      kills := kills + 1;
      outcome := Killed;
    }

    /** `onError`, up to its backoff timer; the timer's continuation is `Connect`. */
    method OnError() returns (retryDelay: Option<nat>)
      modifies this
      ensures (State(), retryDelay) == ErrorStep(old(State()))
      ensures destroyed && errorCount == old(errorCount) + 1
    {
      errorCount := errorCount + 1;
      var outcome := Destroy();
      if outcome == NoProcess {
        return None;
      }
      retryDelay := Some(errorCount * ErrorBackoffUnit);
    }

    /** The exit continuation of a spawned process, up to its backoff timer. */
    method OnProcessExit() returns (retryDelay: Option<nat>)
      requires pendingExits > 0
      modifies this
      ensures (State(), retryDelay) == ExitStep(old(State()))
      ensures !active && destroyed == old(destroyed)
      ensures retryDelay.Some? <==> !destroyed
    {
      errorCount := errorCount + 1;
      active := false;
      pendingExits := pendingExits - 1;
      log := log + [ClosedMessage];
      if destroyed {
        return None;
      }
      retryDelay := Some(errorCount * CloseBackoffUnit);
    }
  }
}
