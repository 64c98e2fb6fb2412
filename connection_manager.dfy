/**
 * The connection supervisor: a three-state machine (disconnected, connecting,
 * connected) with an attempt counter, a reconnect switch and the session
 * handle. Timers and awaits are abstract events: an attempt is identified by a
 * tag; while its `await`s are outstanding the tag is in flight, once its
 * session exists (stored whatever the state is by then) the tag is in
 * `created`, and while its 30 s timeout is armed the tag is armed. A scheduled
 * retry timer is counted in `pendingRetries` and its delay is logged in
 * `retryDelays`.
 */
module ConnectionManager {
  import opened Qrwc

  datatype ConnectionEvent = Connecting | Connected | Disconnected

  /** A component filter: a list of allowed component ids, or a caller-supplied predicate. */
  datatype ControlFilter = AllowList(ids: seq<string>) | FilterFunction(accept: ComponentState -> bool)

  datatype ConnectionOptions = ConnectionOptions(
    coreIp: string,
    redundantCoreIp: Option<string>,
    secure: Option<bool>,
    poleInterval: Option<int>,
    controlFilter: Option<ControlFilter>)

  /** The options handed to the transport's `start`. */
  datatype StartOptions = StartOptions(pollingInterval: int, componentFilter: Option<ComponentState -> bool>)

  /** Delay, in milliseconds, after which an attempt that has not completed is abandoned. */
  const ConnectTimeoutMs: nat := 30000

  /** The supervisor's fields as one value. */
  datatype Supervisor = Supervisor(
    state: ConnectionEvent,
    attempts: nat,
    allowReconnect: bool,
    qrwc: Option<Session>,
    inFlight: set<nat>,
    created: set<nat>,
    armed: set<nat>,
    pendingRetries: nat,
    retryDelays: seq<nat>,
    nextTag: nat,
    dialled: seq<string>,
    closed: seq<Session>)

  function Initial(): Supervisor {
    Supervisor(Disconnected, 0, true, None, {}, {}, {}, 0, [], 0, [], [])
  }

  // ---------------------------------------------------------------------------
  // Pure parts: host choice, retry delay, start options

  /** The redundant core is dialled when it is configured (a non-empty string) and the attempt count is even and above 1. */
  predicate UsesRedundantCore(opts: ConnectionOptions, attempts: nat) {
    opts.redundantCoreIp.Some? && opts.redundantCoreIp.value != "" && attempts > 1 && attempts % 2 == 0
  }

  function TargetHost(opts: ConnectionOptions, attempts: nat): string {
    if UsesRedundantCore(opts, attempts) then opts.redundantCoreIp.value else opts.coreIp
  }

  /** Milliseconds before the next connection attempt. */
  function RetryDelay(attempts: nat): nat {
    if attempts > 5 then 15000 else 1000
  }

  function StartOptionsFor(opts: ConnectionOptions): StartOptions {
    var interval := opts.poleInterval.GetOr(35);
    match opts.controlFilter
    case None => StartOptions(interval, None)
    case Some(AllowList(ids)) => StartOptions(interval, Some((c: ComponentState) => c.ID in ids))
    case Some(FilterFunction(f)) => StartOptions(interval, Some(f))
  }

  /** The first two attempts and every odd-numbered one dial the primary core. */
  lemma PrimaryHostWhenOddOrEarly(opts: ConnectionOptions, attempts: nat)
    requires attempts <= 1 || attempts % 2 == 1
    ensures TargetHost(opts, attempts) == opts.coreIp
  {
  }

  /** Without a configured redundant core the primary is always dialled. */
  lemma PrimaryHostWithoutRedundant(opts: ConnectionOptions, attempts: nat)
    requires opts.redundantCoreIp.None? || opts.redundantCoreIp.value == ""
    ensures TargetHost(opts, attempts) == opts.coreIp
  {
  }

  /** With a redundant core, attempts 2, 3, 4, ... alternate redundant, primary, redundant, ... */
  lemma HostsAlternate(opts: ConnectionOptions, attempts: nat)
    requires opts.redundantCoreIp.Some? && opts.redundantCoreIp.value != ""
    requires attempts >= 2
    ensures TargetHost(opts, attempts) == if attempts % 2 == 0 then opts.redundantCoreIp.value else opts.coreIp
    ensures TargetHost(opts, attempts + 1) == if attempts % 2 == 0 then opts.coreIp else opts.redundantCoreIp.value
  {
  }

  /** The delay takes exactly two values, switches once after the fifth attempt and never shrinks. */
  lemma RetryDelayTwoLevels(a: nat, b: nat)
    ensures RetryDelay(a) == 1000 || RetryDelay(a) == 15000
    ensures RetryDelay(a) == 15000 <==> a > 5
    ensures a <= b ==> RetryDelay(a) <= RetryDelay(b)
  {
  }

  /**
   * The polling interval defaults to 35 only when none is given (a given 0 is
   * kept); a filter is passed iff one is configured, and a list of ids accepts
   * exactly the components whose ID it contains.
   */
  lemma StartOptionsMeaning(opts: ConnectionOptions)
    ensures opts.poleInterval.None? ==> StartOptionsFor(opts).pollingInterval == 35
    ensures opts.poleInterval.Some? ==> StartOptionsFor(opts).pollingInterval == opts.poleInterval.value
    ensures StartOptionsFor(opts).componentFilter.Some? <==> opts.controlFilter.Some?
    ensures opts.controlFilter.Some? && opts.controlFilter.value.AllowList? ==>
      forall c: ComponentState :: StartOptionsFor(opts).componentFilter.value(c) <==> c.ID in opts.controlFilter.value.ids
    ensures opts.controlFilter.Some? && opts.controlFilter.value.FilterFunction? ==>
      forall c: ComponentState :: StartOptionsFor(opts).componentFilter.value(c) == opts.controlFilter.value.accept(c)
  {
  }

  // ---------------------------------------------------------------------------
  // The state machine, one function per entry point and per event

  /** connectToQrwc: refused unless disconnected; otherwise a new attempt is armed and dialled. */
  function AfterConnect(s: Supervisor, opts: ConnectionOptions): Supervisor {
    if s.state != Disconnected then s
    else
      var t := s.nextTag;
      s.(state := Connecting, inFlight := s.inFlight + {t}, armed := s.armed + {t}, nextTag := t + 1,
         dialled := s.dialled + [TargetHost(opts, s.attempts)])
  }

  /** handleDisconnect: closes and drops the session and schedules a retry unless reconnecting was switched off. */
  function AfterDisconnect(s: Supervisor): Supervisor {
    if s.state == Disconnected then s
    else
      var down := s.(state := Disconnected, qrwc := None,
                     closed := s.closed + if s.qrwc.Some? then [s.qrwc.value] else []);
      if !s.allowReconnect then down
      else down.(pendingRetries := s.pendingRetries + 1, retryDelays := s.retryDelays + [RetryDelay(s.attempts)])
  }

  /** killConnection */
  function AfterKill(s: Supervisor): Supervisor {
    AfterDisconnect(s.(allowReconnect := false))
  }

  /** Attempt `t`'s session was created: it is stored as the current one, in whatever state the supervisor is. */
  function AfterCreated(s: Supervisor, t: nat, g: Session): Supervisor {
    if t !in s.inFlight || t in s.created then s
    else s.(qrwc := Some(g), created := s.created + {t})
  }

  /**
   * Attempt `t`'s start completed: the disconnect listener is attached to the
   * current session, the timeout cleared, the counter reset and the state set
   * to connected. When a disconnect has dropped the session in the meantime,
   * attaching the listener throws and the attempt fails instead.
   */
  function AfterSuccess(s: Supervisor, t: nat): Supervisor {
    if t !in s.created then s
    else if s.qrwc.None? then AfterFailure(s, t)
    else s.(inFlight := s.inFlight - {t}, created := s.created - {t}, armed := s.armed - {t}, attempts := 0, state := Connected)
  }

  /** Attempt `t` threw: its timeout is cleared, the counter bumped and the disconnect handled. */
  function AfterFailure(s: Supervisor, t: nat): Supervisor {
    if t !in s.inFlight then s
    else AfterDisconnect(s.(inFlight := s.inFlight - {t}, created := s.created - {t}, armed := s.armed - {t}, attempts := s.attempts + 1))
  }

  /** Attempt `t`'s 30 s timeout fired: the counter is bumped and the disconnect handled; the attempt itself goes on. */
  function AfterTimeout(s: Supervisor, t: nat): Supervisor {
    if t !in s.armed then s
    else AfterDisconnect(s.(armed := s.armed - {t}, attempts := s.attempts + 1))
  }

  /** A retry timer fired: connectToQrwc is called again. */
  function AfterRetry(s: Supervisor, opts: ConnectionOptions): Supervisor {
    if s.pendingRetries == 0 then s
    else AfterConnect(s.(pendingRetries := s.pendingRetries - 1), opts)
  }

  datatype Event =
    | Created(tag: nat, session: Session)
    | Succeeds(tag: nat)
    | Fails(tag: nat)
    | TimesOut(tag: nat)
    | TransportDrops
    | RetryFires
    | Kill

  function Step(s: Supervisor, opts: ConnectionOptions, e: Event): Supervisor {
    match e
    case Created(t, g) => AfterCreated(s, t, g)
    case Succeeds(t) => AfterSuccess(s, t)
    case Fails(t) => AfterFailure(s, t)
    case TimesOut(t) => AfterTimeout(s, t)
    case TransportDrops => AfterDisconnect(s)
    case RetryFires => AfterRetry(s, opts)
    case Kill => AfterKill(s)
  }

  function Run(s: Supervisor, opts: ConnectionOptions, events: seq<Event>): Supervisor
    decreases |events|
  {
    if events == [] then s else Run(Step(s, opts, events[0]), opts, events[1..])
  }

  /**
   * The supervisor's invariant: a connected supervisor holds a session, a
   * connecting supervisor has an attempt in flight, only in-flight attempts
   * are created or have an armed timeout, and every tag was issued by a dial.
   * A session may also be held while connecting or disconnected (see
   * SessionLeaksAfterTimeout).
   */
  predicate Valid(s: Supervisor) {
    && (s.state == Connected ==> s.qrwc.Some?)
    && (s.state == Connecting ==> s.inFlight != {})
    && s.armed <= s.inFlight
    && s.created <= s.inFlight
    && (forall t :: t in s.inFlight ==> t < s.nextTag)
    && |s.dialled| == s.nextTag
  }

  // ---------------------------------------------------------------------------
  // Properties of the entry points

  lemma InitialIsValid()
    ensures Valid(Initial())
  {
  }

  /** The connect guard: no effect unless disconnected; otherwise one new attempt, dialled at the host the counter selects. */
  lemma ConnectGuard(s: Supervisor, opts: ConnectionOptions)
    ensures s.state != Disconnected ==> AfterConnect(s, opts) == s
    ensures s.state == Disconnected ==>
      var s' := AfterConnect(s, opts);
      && s'.state == Connecting
      && s'.attempts == s.attempts
      && s'.dialled == s.dialled + [TargetHost(opts, s.attempts)]
      && s.nextTag in s'.inFlight && s.nextTag in s'.armed
      && s'.retryDelays == s.retryDelays
    ensures Valid(s) ==> s.nextTag !in s.inFlight && Valid(AfterConnect(s, opts))
  {
  }

  /**
   * handleDisconnect does nothing when already disconnected; otherwise it
   * ends disconnected without a session, closing the one it held, and
   * schedules one retry, with the delay the counter selects, exactly when
   * reconnecting is allowed. Calling it twice is calling it once.
   */
  lemma DisconnectHandling(s: Supervisor)
    ensures s.state == Disconnected ==> AfterDisconnect(s) == s
    ensures AfterDisconnect(s).state == Disconnected
    ensures s.state != Disconnected ==> AfterDisconnect(s).qrwc.None?
    ensures AfterDisconnect(AfterDisconnect(s)) == AfterDisconnect(s)
    ensures s.state != Disconnected ==>
      var s' := AfterDisconnect(s);
      && (s'.retryDelays == if s.allowReconnect then s.retryDelays + [RetryDelay(s.attempts)] else s.retryDelays)
      && (s'.pendingRetries == if s.allowReconnect then s.pendingRetries + 1 else s.pendingRetries)
      && (s.qrwc.Some? ==> s'.closed == s.closed + [s.qrwc.value])
      && s'.attempts == s.attempts && s'.allowReconnect == s.allowReconnect
    ensures Valid(s) ==> Valid(AfterDisconnect(s))
  {
  }

  /** A kill ends disconnected, switches reconnecting off and schedules no retry. */
  lemma KillSchedulesNothing(s: Supervisor)
    ensures var s' := AfterKill(s);
      && s'.state == Disconnected && !s'.allowReconnect
      && s'.retryDelays == s.retryDelays && s'.pendingRetries == s.pendingRetries
    ensures s.state != Disconnected ==> AfterKill(s).qrwc.None?
    ensures Valid(s) ==> Valid(AfterKill(s))
  {
  }

  /** A created session becomes the current one in any state; nothing else but the attempt's phase changes. */
  lemma CreatedStores(s: Supervisor, t: nat, g: Session)
    requires t in s.inFlight && t !in s.created
    ensures var s' := AfterCreated(s, t, g);
      && s'.qrwc == Some(g) && s'.state == s.state && t in s'.created
      && s'.closed == s.closed && s'.attempts == s.attempts && s'.inFlight == s.inFlight
    ensures Valid(s) ==> Valid(AfterCreated(s, t, g))
  {
  }

  /**
   * A completed start resets the counter and connects with the session held
   * at that moment, which may be a later attempt's; when no session is held
   * it is a failure of the attempt.
   */
  lemma SuccessResets(s: Supervisor, t: nat)
    requires t in s.created
    ensures s.qrwc.Some? ==> var s' := AfterSuccess(s, t);
      && s'.attempts == 0 && s'.state == Connected && s'.qrwc == s.qrwc
      && t !in s'.armed && t !in s'.inFlight && t !in s'.created
    ensures s.qrwc.None? ==> AfterSuccess(s, t) == AfterFailure(s, t)
    ensures Valid(s) ==> Valid(AfterSuccess(s, t))
  {
    if s.qrwc.None? && Valid(s) {
      FailureAndTimeoutCountOnce(s, t);
    }
  }

  /** A failed attempt and a fired timeout each bump the counter by exactly one and leave the supervisor disconnected. */
  lemma FailureAndTimeoutCountOnce(s: Supervisor, t: nat)
    ensures t in s.inFlight ==>
      AfterFailure(s, t).attempts == s.attempts + 1 && AfterFailure(s, t).state == Disconnected
    ensures t in s.armed ==>
      AfterTimeout(s, t).attempts == s.attempts + 1 && AfterTimeout(s, t).state == Disconnected
    ensures t in s.inFlight && s.state != Disconnected && s.allowReconnect ==>
      AfterFailure(s, t).retryDelays == s.retryDelays + [RetryDelay(s.attempts + 1)]
    ensures Valid(s) ==> Valid(AfterFailure(s, t)) && Valid(AfterTimeout(s, t))
  {
  }

  lemma StepKeepsValid(s: Supervisor, opts: ConnectionOptions, e: Event)
    requires Valid(s)
    ensures Valid(Step(s, opts, e))
  {
    match e {
      case Created(t, g) => if t in s.inFlight && t !in s.created { CreatedStores(s, t, g); }
      case Succeeds(t) => if t in s.created { SuccessResets(s, t); }
      case Fails(t) => FailureAndTimeoutCountOnce(s, t);
      case TimesOut(t) => FailureAndTimeoutCountOnce(s, t);
      case TransportDrops => DisconnectHandling(s);
      case RetryFires => ConnectGuard(s.(pendingRetries := if s.pendingRetries == 0 then 0 else s.pendingRetries - 1), opts);
      case Kill => KillSchedulesNothing(s);
    }
  }

  lemma {:induction false} RunKeepsValid(s: Supervisor, opts: ConnectionOptions, events: seq<Event>)
    requires Valid(s)
    ensures Valid(Run(s, opts, events))
    decreases |events|
  {
    if events != [] {
      StepKeepsValid(s, opts, events[0]);
      RunKeepsValid(Step(s, opts, events[0]), opts, events[1..]);
    }
  }

  /** Running two event sequences one after the other is running their concatenation. */
  lemma {:induction false} RunAppend(s: Supervisor, opts: ConnectionOptions, a: seq<Event>, b: seq<Event>)
    ensures Run(s, opts, a + b) == Run(Run(s, opts, a), opts, b)
    decreases |a|
  {
    if a == [] {
      assert a + b == b;
    } else {
      assert (a + b)[0] == a[0];
      assert (a + b)[1..] == a[1..] + b;
      RunAppend(Step(s, opts, a[0]), opts, a[1..], b);
    }
  }

  /**
   * The kill switch is permanent: once reconnecting is off, no event turns it
   * back on and no retry is ever scheduled again, whatever happens next.
   */
  lemma {:induction false} KillIsPermanent(s: Supervisor, opts: ConnectionOptions, events: seq<Event>)
    requires !s.allowReconnect
    ensures !Run(s, opts, events).allowReconnect
    ensures Run(s, opts, events).retryDelays == s.retryDelays
    ensures Run(s, opts, events).pendingRetries <= s.pendingRetries
    decreases |events|
  {
    if events != [] {
      var s1 := Step(s, opts, events[0]);
      assert !s1.allowReconnect && s1.retryDelays == s.retryDelays && s1.pendingRetries <= s.pendingRetries;
      KillIsPermanent(s1, opts, events[1..]);
    }
  }

  /**
   * After a kill with no retry pending and no attempt outstanding, the
   * supervisor never changes again.
   */
  lemma {:induction false} KilledAndQuietStaysPut(s: Supervisor, opts: ConnectionOptions, events: seq<Event>)
    requires Valid(s)
    requires !s.allowReconnect && s.state == Disconnected && s.pendingRetries == 0 && s.inFlight == {}
    ensures Run(s, opts, events) == s
    decreases |events|
  {
    if events != [] {
      assert s.armed == {};
      assert Step(s, opts, events[0]) == s;
      KilledAndQuietStaysPut(s, opts, events[1..]);
    }
  }

  // ---------------------------------------------------------------------------
  // Interleavings the code allows

  /** An attempt whose awaits complete after a kill still connects: nothing re-checks the state. */
  lemma LateSuccessAfterKill(opts: ConnectionOptions, g: Session)
    ensures var s := AfterConnect(Initial(), opts);
      var s' := Run(s, opts, [Kill, Created(0, g), Succeeds(0)]);
      s'.state == Connected && s'.qrwc == Some(g) && !s'.allowReconnect
  {
    var s := AfterConnect(Initial(), opts);
    var k := AfterKill(s);
    assert 0 in k.inFlight && 0 !in k.created;
    var c := AfterCreated(k, 0, g);
    assert c.qrwc == Some(g) && 0 in c.created;
    var evs := [Kill, Created(0, g), Succeeds(0)];
    assert Run(c, opts, evs[2..]) == AfterSuccess(c, 0);
    assert Run(k, opts, evs[1..]) == Run(c, opts, evs[2..]) by {
      assert evs[1..][1..] == evs[2..];
    }
  }

  /**
   * A session created after its attempt timed out is stored although the
   * supervisor is already disconnected; when the attempt then fails, the
   * disconnect handler returns early, so the session is never closed and
   * stays held while disconnected.
   */
  lemma SessionLeaksAfterTimeout(opts: ConnectionOptions, g: Session)
    ensures var s' := Run(AfterConnect(Initial(), opts), opts, [TimesOut(0), Created(0, g), Fails(0)]);
      s'.state == Disconnected && s'.qrwc == Some(g) && g !in s'.closed
  {
    var s := AfterConnect(Initial(), opts);
    var s1 := AfterTimeout(s, 0);
    assert s1.state == Disconnected && 0 in s1.inFlight && 0 !in s1.created && s1.closed == [];
    var s2 := AfterCreated(s1, 0, g);
    var s3 := AfterFailure(s2, 0);
    assert s3.qrwc == Some(g) && s3.closed == [] && s3.state == Disconnected;
    var evs := [TimesOut(0), Created(0, g), Fails(0)];
    assert Run(s2, opts, evs[2..]) == s3;
    assert Run(s1, opts, evs[1..]) == Run(s2, opts, evs[2..]) by {
      assert evs[1..][1..] == evs[2..];
    }
  }

  /** A timeout followed by the same attempt's failure bumps the counter twice. */
  lemma TimeoutThenFailureCountsTwice(opts: ConnectionOptions)
    ensures var s := AfterConnect(Initial(), opts);
      Run(s, opts, [TimesOut(0), Fails(0)]).attempts == 2
  {
    var s := AfterConnect(Initial(), opts);
    var s1 := AfterTimeout(s, 0);
    assert s1.attempts == 1 && 0 in s1.inFlight;
    assert Run(s, opts, [TimesOut(0), Fails(0)]) == Run(s1, opts, [Fails(0)]);
  }

  /** A retry scheduled before a kill is not cancelled by it and dials again. */
  lemma PendingRetryOutlivesKill(opts: ConnectionOptions)
    ensures var s := AfterConnect(Initial(), opts);
      Run(s, opts, [Fails(0), Kill, RetryFires]).state == Connecting
  {
    var s := AfterConnect(Initial(), opts);
    var s1 := AfterFailure(s, 0);
    assert s1.pendingRetries == 1;
    var s2 := AfterKill(s1);
    assert s2 == s1.(allowReconnect := false);
    assert Run(s, opts, [Fails(0), Kill, RetryFires]) == Run(s2, opts, [RetryFires]);
  }

  /**
   * A connecting attempt that throws, followed by the retry it schedules:
   * the counter goes up once, the delay for the raised count is recorded and the next
   * host is dialled under a fresh tag.
   */
  lemma FailThenRetry(s: Supervisor, opts: ConnectionOptions, t: nat)
    requires s.state == Connecting && t in s.inFlight && s.allowReconnect && s.pendingRetries == 0
    ensures var s' := Run(s, opts, [Fails(t), RetryFires]);
      && s'.state == Connecting && s'.allowReconnect && s'.pendingRetries == 0
      && s'.attempts == s.attempts + 1
      && s'.retryDelays == s.retryDelays + [RetryDelay(s.attempts + 1)]
      && s'.dialled == s.dialled + [TargetHost(opts, s.attempts + 1)]
      && s'.inFlight == s.inFlight - {t} + {s.nextTag}
      && s'.nextTag == s.nextTag + 1
  {
    var s1 := AfterFailure(s, t);
    assert s1.state == Disconnected && s1.pendingRetries == 1 && s1.attempts == s.attempts + 1;
    var s2 := AfterRetry(s1, opts);
    assert s2 == AfterConnect(s1.(pendingRetries := 0), opts);
    assert Run(s1, opts, [RetryFires]) == Run(s2, opts, []);
    assert Run(s, opts, [Fails(t), RetryFires]) == Run(s1, opts, [RetryFires]);
  }

  /** With a redundant core, two failed attempts dial primary, primary, then the redundant core, after 1 s each. */
  lemma ThreeFailedAttempts(opts: ConnectionOptions)
    requires opts.redundantCoreIp == Some("backup") && opts.coreIp != "backup"
    ensures var s := Run(AfterConnect(Initial(), opts), opts, [Fails(0), RetryFires, Fails(1), RetryFires]);
      s.dialled == [opts.coreIp, opts.coreIp, "backup"] && s.retryDelays == [1000, 1000] && s.attempts == 2
  {
    var s0 := AfterConnect(Initial(), opts);
    var first, second := [Fails(0), RetryFires], [Fails(1), RetryFires];
    FailThenRetry(s0, opts, 0);
    var s2 := Run(s0, opts, first);
    FailThenRetry(s2, opts, 1);
    RunAppend(s0, opts, first, second);
    assert first + second == [Fails(0), RetryFires, Fails(1), RetryFires];
  }

  // ---------------------------------------------------------------------------
  // The supervisor object

  class ConnectionManager {
    const options: ConnectionOptions
    var connectionState: ConnectionEvent
    var connectionAttempts: nat
    /** Cleared by a kill; nothing sets it again. */
    var allowReconnect: bool
    var qrwc: Option<Session>
    /** Tags of attempts whose awaits have not completed. */
    var inFlight: set<nat>
    /** Tags of in-flight attempts whose session has been created. */
    var created: set<nat>
    /** Tags of attempts whose connection timeout is still armed. */
    var armedTimeouts: set<nat>
    /** Retry timers scheduled and not yet fired (none is ever cancelled). */
    var pendingRetries: nat
    /** The delay of every retry timer scheduled, in order. */
    var retryDelays: seq<nat>
    var nextTag: nat
    /** The host dialled by every attempt, in order. */
    var dialled: seq<string>
    /** The sessions closed by the disconnect handler, in order. */
    var closed: seq<Session>

    function Model(): Supervisor
      reads this
    {
      Supervisor(connectionState, connectionAttempts, allowReconnect, qrwc, inFlight, created, armedTimeouts,
                 pendingRetries, retryDelays, nextTag, dialled, closed)
    }

    /** Starts disconnected and immediately makes the first attempt. */
    constructor (options: ConnectionOptions)
      ensures this.options == options
      ensures Model() == AfterConnect(Initial(), options)
      ensures Valid(Model())
    {
      this.options := options;
      connectionState := Disconnected;
      connectionAttempts := 0;
      allowReconnect := true;
      qrwc := None;
      inFlight := {};
      created := {};
      armedTimeouts := {};
      pendingRetries := 0;
      retryDelays := [];
      nextTag := 0;
      dialled := [];
      closed := [];
      new;
      ConnectToQrwc();
    }

    method ConnectToQrwc()
      modifies this
      ensures Model() == AfterConnect(old(Model()), options)
    {
      if connectionState != Disconnected {
        return;
      }
      var tag := nextTag;
      nextTag := nextTag + 1;
      armedTimeouts := armedTimeouts + {tag};
      inFlight := inFlight + {tag};
      connectionState := Connecting;
      var coreIp := options.coreIp;
      if options.redundantCoreIp.Some? && options.redundantCoreIp.value != "" &&
         connectionAttempts > 1 && connectionAttempts % 2 == 0 {
        coreIp := options.redundantCoreIp.value;
      }
      dialled := dialled + [coreIp];
    }

    method HandleDisconnect()
      modifies this
      ensures Model() == AfterDisconnect(old(Model()))
    {
      if connectionState == Disconnected {
        return;
      }
      if qrwc.Some? {
        closed := closed + [qrwc.value];
      }
      connectionState := Disconnected;
      qrwc := None;
      if !allowReconnect {
        return;
      }
      pendingRetries := pendingRetries + 1;
      retryDelays := retryDelays + [if connectionAttempts > 5 then 15000 else 1000];
    }

    method KillConnection()
      modifies this
      ensures Model() == AfterKill(old(Model()))
    {
      allowReconnect := false;
      HandleDisconnect();
    }

    /** `this.qrwc = await createQrwcInstance(...)` completed for attempt `tag`. */
    method SessionCreated(tag: nat, session: Session)
      modifies this
      ensures Model() == AfterCreated(old(Model()), tag, session)
    {
      if tag !in inFlight || tag in created {
        return;
      }
      created := created + {tag};
      qrwc := Some(session);
    }

    /** `await this.startAndSubscribe()` completed for attempt `tag`. */
    method ConnectSucceeded(tag: nat)
      modifies this
      ensures Model() == AfterSuccess(old(Model()), tag)
    {
      if tag !in created {
        return;
      }
      if qrwc.None? {
        ConnectFailed(tag);
        return;
      }
      inFlight := inFlight - {tag};
      created := created - {tag};
      armedTimeouts := armedTimeouts - {tag};
      connectionAttempts := 0;
      connectionState := Connected;
    }

    /** Attempt `tag` threw (session creation or start failed). */
    method ConnectFailed(tag: nat)
      modifies this
      ensures Model() == AfterFailure(old(Model()), tag)
    {
      if tag !in inFlight {
        return;
      }
      inFlight := inFlight - {tag};
      created := created - {tag};
      armedTimeouts := armedTimeouts - {tag};
      connectionAttempts := connectionAttempts + 1;
      HandleDisconnect();
    }

    /** The connection timeout armed by attempt `tag` fired. */
    method ConnectTimedOut(tag: nat)
      modifies this
      ensures Model() == AfterTimeout(old(Model()), tag)
    {
      if tag !in armedTimeouts {
        return;
      }
      armedTimeouts := armedTimeouts - {tag};
      connectionAttempts := connectionAttempts + 1;
      HandleDisconnect();
    }

    /** The transport reported that its socket closed. */
    method TransportDisconnected()
      modifies this
      ensures Model() == AfterDisconnect(old(Model()))
    {
      HandleDisconnect();
    }

    method RetryFired()
      modifies this
      ensures Model() == AfterRetry(old(Model()), options)
    {
      if pendingRetries == 0 {
        return;
      }
      pendingRetries := pendingRetries - 1;
      ConnectToQrwc();
    }
  }
}
