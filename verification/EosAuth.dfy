/**
  The login state machine of src/eos/eos.cpp: device id, login, P2P notification, retries, refresh
  and shutdown, driven by the process thread and by SDK callbacks.  The blocks the source runs under
  sdkMutex are atomic here; the SDK itself is an environment.
 */
module EosAuth {
  import opened Bytes
  import Reassembly = EosReassembly
  import Transport = EosTransport

  // An in6_addr as the 128-bit number its bytes spell.
  type AddressNumber = nat

  // A product user id, with what EOS_ProductUserToAddress makes of it (it may fail).
  datatype User = User(id: nat, address: Option<AddressNumber>)

  datatype AuthState =
    | IDLE
    | NEED_DEVICE_ID
    | CREATING_DEVICE_ID
    | NEED_LOGIN
    | LOGGING_IN
    | NEED_NOTIFICATION
    | READY

  const INVALID_NOTIFICATIONID := 0

  // Where the process thread is: not started (or joined), before EOS_SetupLocked, in its loop.
  datatype Phase = Stopped | Starting | Looping

  datatype State = State(
    phase: Phase,
    running: bool,
    ready: bool,
    initialized: bool,
    p2p: bool,                       // platform, connect and p2p are handles
    localUser: Option<User>,
    localAddress: Option<AddressNumber>,   // None for the cleared address
    localEndpointPort: uint16,
    authState: AuthState,
    nextAuthAttempt: real,
    retryCount: uint32,
    authExpirationNotification: nat,
    loginStatusNotification: nat,
    connectionNotification: nat,
    // The environment's side: SDK requests begun and not yet completed.
    deviceIdRequests: nat,
    loginRequests: nat)

  const IDLE_STATE := State(Stopped, false, false, false, false, None, None, 0, IDLE, 0.0, 0, INVALID_NOTIFICATIONID,
                            INVALID_NOTIFICATIONID, INVALID_NOTIFICATIONID, 0, 0)

  // What the SDK and the system answer to each step of EOS_SetupLocked
  datatype SetupAnswers = SetupAnswers(
    initialize: bool, clientSecret: bool, platform: bool, interfaces: bool, relayControl: bool,
    authExpiration: nat, loginStatus: nat)

  datatype Completion = StillPending | Success | DuplicateNotAllowed | Failed

  datatype Event =
    | Start(port: uint16)                                      // EOS_Init
    | Setup(answers: SetupAnswers, now: real)                  // EOS_SetupLocked
    | Process(now: real, notification: nat)                    // EOS_ProcessAuthenticationLocked
    | DeviceIdComplete(result: Completion, now: real)
    | LoginComplete(result: Completion, user: Option<User>, now: real)
    | AuthExpiration(user: Option<User>, now: real)
    | LoginStatusChanged(loggedIn: bool, user: Option<User>, now: real)
    | TransportInvalidAuth(now: real)                          // a send or receive reported it
    | Stop                                                     // EOS_ShutdownNetworking
    | Finish                                                   // the loop's end: EOS_ShutdownLocked

  // 1 << min(retryCount, 4), capped at 30
  function RetryDelay(retryCount: uint32): nat {
    Min(30, Pow2(Min(retryCount, 4)))
  }

  lemma RetryDelayDoubles(retryCount: uint32)
    ensures 1 <= RetryDelay(retryCount) <= 16 && RetryDelay(0) == 1
    ensures retryCount < 0xFFFF_FFFF ==> RetryDelay(retryCount + 1) == Min(16, 2 * RetryDelay(retryCount))
  {
    assert Pow2(1) == 2;
    assert Pow2(2) == 4;
    assert Pow2(3) == 8;
    assert Pow2(4) == 16;
  }

  function ScheduleRetry(s: State, state: AuthState, now: real): State {
    s.(retryCount := (s.retryCount as int + 1) % 0x1_0000_0000, authState := state,
       nextAuthAttempt := now + RetryDelay(s.retryCount) as real)
  }

  function RequestLogin(s: State, authenticationInvalid: bool, now: real): State {
    var s := if authenticationInvalid then s.(ready := false) else s;
    if s.authState == LOGGING_IN then s else s.(authState := NEED_LOGIN, nextAuthAttempt := now)
  }

  function FinishAuthentication(s: State): State {
    s.(authState := READY, ready := true)
  }

  predicate SameUser(current: Option<User>, refreshed: User) {
    current.Some? && current.value.address.Some? && refreshed.address.Some?
    && current.value.address == refreshed.address
  }

  function ProcessAuthentication(s: State, now: real, notification: nat): State {
    if now < s.nextAuthAttempt then s
    else match s.authState
      case NEED_DEVICE_ID => s.(authState := CREATING_DEVICE_ID, deviceIdRequests := s.deviceIdRequests + 1)
      case NEED_LOGIN => s.(authState := LOGGING_IN, loginRequests := s.loginRequests + 1)
      case NEED_NOTIFICATION =>
        if s.p2p && s.localUser.Some? && notification != INVALID_NOTIFICATIONID then
          FinishAuthentication(s.(connectionNotification := notification))
        else
          ScheduleRetry(s.(connectionNotification := if s.p2p && s.localUser.Some? then INVALID_NOTIFICATIONID
                                                     else s.connectionNotification), NEED_NOTIFICATION, now)
      case _ => s
  }

  function OnDeviceIdComplete(s: State, result: Completion, now: real): State {
    if !s.running || result == StillPending then s
    else if result == Success || result == DuplicateNotAllowed then
      s.(retryCount := 0, authState := NEED_LOGIN, nextAuthAttempt := now)
    else ScheduleRetry(s, NEED_DEVICE_ID, now)
  }

  // The port an endpoint gets when none is configured: the last two bytes of its address.
  function UpdateLocalEndpoint(s: State, user: User): State {
    if user.address.None? then s
    else
      var address := user.address.value;
      s.(localAddress := user.address,
         localEndpointPort := if s.localEndpointPort == 0 then address % 0x1_0000 else s.localEndpointPort)
  }

  // A login by somebody else drops the connection notification and every queued packet.
  function OnLoginComplete(s: State, result: Completion, user: Option<User>, now: real): State {
    if !s.running || result == StillPending then s
    else if result != Success || user == None then ScheduleRetry(s, NEED_LOGIN, now)
    else
      var t := UpdateLocalEndpoint(s.(localUser := user, retryCount := 0), user.value);
      if SameUser(s.localUser, user.value) && s.connectionNotification != INVALID_NOTIFICATIONID then
        FinishAuthentication(t)
      else
        t.(connectionNotification := INVALID_NOTIFICATIONID, authState := NEED_NOTIFICATION, nextAuthAttempt := now)
  }

  function Shutdown(s: State): State {
    s.(connectionNotification := INVALID_NOTIFICATIONID, authExpirationNotification := INVALID_NOTIFICATIONID,
       loginStatusNotification := INVALID_NOTIFICATIONID, localUser := None, authState := IDLE, p2p := false,
       ready := false, initialized := false, localAddress := None, deviceIdRequests := 0, loginRequests := 0)
  }

  function OnAuthExpiration(s: State, user: Option<User>, now: real): State {
    if !s.running || user != s.localUser then s else RequestLogin(s, false, now)
  }

  function OnLoginStatusChanged(s: State, loggedIn: bool, user: Option<User>, now: real): State {
    if !s.running || loggedIn || user != s.localUser then s else RequestLogin(s, true, now)
  }

  function OnStop(s: State): State {
    s.(initialized := false, ready := false, running := false)
  }

  predicate SetupSucceeds(a: SetupAnswers) {
    a.initialize && a.clientSecret && a.platform && a.interfaces && a.relayControl
    && a.authExpiration != INVALID_NOTIFICATIONID && a.loginStatus != INVALID_NOTIFICATIONID
  }

  // A failure of EOS_Initialize returns before there is anything to shut down.
  function AfterSetup(s: State, a: SetupAnswers, now: real): State {
    if !a.initialize then s
    else if !SetupSucceeds(a) then Shutdown(s)
    else s.(p2p := true, authExpirationNotification := a.authExpiration, loginStatusNotification := a.loginStatus,
            retryCount := 0, authState := NEED_DEVICE_ID, nextAuthAttempt := now, initialized := true)
  }

  // What the SDK and the threads can do next: callbacks come from EOS_Platform_Tick in the loop,
  // carry a user id, and complete a request that was begun.  Releasing the platform cancels them.
  ghost predicate Allowed(s: State, e: Event) {
    match e
    case Start(_) => s.phase == Stopped && !s.initialized
    case Setup(_, _) => s.phase == Starting
    case Process(_, _) => s.phase == Looping
    case DeviceIdComplete(_, _) => s.phase == Looping && s.deviceIdRequests > 0
    case LoginComplete(_, _, _) => s.phase == Looping && s.loginRequests > 0
    case AuthExpiration(user, _) => s.phase == Looping && user.Some?
    case LoginStatusChanged(_, user, _) => s.phase == Looping && user.Some?
    case TransportInvalidAuth(_) => s.phase == Looping && s.localUser.Some?
    case Stop => true
    case Finish => s.phase == Looping && !s.running
  }

  function Step(s: State, e: Event): State {
    match e
    case Start(port) => s.(phase := Starting, running := true, localEndpointPort := port)
    case Setup(answers, now) =>
      if SetupSucceeds(answers) then AfterSetup(s, answers, now).(phase := Looping)
      else AfterSetup(s, answers, now).(phase := Stopped, running := false)
    case Process(now, notification) => ProcessAuthentication(s, now, notification)
    case DeviceIdComplete(result, now) =>
      var t := OnDeviceIdComplete(s, result, now);
      if result == StillPending then t else t.(deviceIdRequests := Max(0, s.deviceIdRequests - 1))
    case LoginComplete(result, user, now) =>
      var t := OnLoginComplete(s, result, user, now);
      if result == StillPending then t else t.(loginRequests := Max(0, s.loginRequests - 1))
    case AuthExpiration(user, now) => OnAuthExpiration(s, user, now)
    case LoginStatusChanged(loggedIn, user, now) => OnLoginStatusChanged(s, loggedIn, user, now)
    case TransportInvalidAuth(now) => RequestLogin(s, true, now)
    case Stop => OnStop(s)
    case Finish => Shutdown(s).(phase := Stopped)
  }

  // The states a run may pass through, last one first.
  ghost predicate IsRun(events: seq<Event>, s: State)
    decreases |events|
  {
    if events == [] then s == IDLE_STATE
    else
      var last := |events| - 1;
      exists before: State ::
        IsRun(events[..last], before) && Allowed(before, events[last]) && s == Step(before, events[last])
  }

  ghost predicate Inv(s: State) {
    && s.deviceIdRequests + s.loginRequests <= 1
    && (s.deviceIdRequests == 1 ==> s.authState == CREATING_DEVICE_ID)
    && (s.loginRequests == 1 ==> s.authState == LOGGING_IN)
    && (s.running ==> (s.authState == CREATING_DEVICE_ID ==> s.deviceIdRequests == 1)
                      && (s.authState == LOGGING_IN ==> s.loginRequests == 1))
    && (s.ready ==> s.localUser.Some?)
    && (s.authState == READY ==> s.connectionNotification != INVALID_NOTIFICATIONID && s.localUser.Some?)
    && (s.running && s.authState == READY ==> s.ready)
    && (s.authState == NEED_NOTIFICATION ==>
          s.localUser.Some? && s.connectionNotification == INVALID_NOTIFICATIONID)
    && (s.authState == NEED_DEVICE_ID || s.authState == CREATING_DEVICE_ID ==> s.localUser == None)
    && (s.phase == Looping <==> s.authState != IDLE)
    && (s.phase != Looping ==>
          s.localUser == None && s.localAddress == None && s.connectionNotification == INVALID_NOTIFICATIONID
          && s.deviceIdRequests == s.loginRequests == 0 && !s.ready)
    && (s.phase == Looping <==> s.p2p)
    && (s.p2p <==> s.authExpirationNotification != INVALID_NOTIFICATIONID)
    && (s.p2p <==> s.loginStatusNotification != INVALID_NOTIFICATIONID)
    && (s.localUser == None ==> s.connectionNotification == INVALID_NOTIFICATIONID)
  }

  lemma LookKeepsInv(s: State, e: Event)
    requires Inv(s) && Allowed(s, e) && e.Process?
    ensures Inv(Step(s, e))
  {
    hide RetryDelay;
  }

  lemma CompletionKeepsInv(s: State, e: Event)
    requires Inv(s) && Allowed(s, e) && (e.DeviceIdComplete? || e.LoginComplete?)
    ensures Inv(Step(s, e))
  {
    hide RetryDelay, SameUser;
  }

  lemma OthersKeepInv(s: State, e: Event)
    requires Inv(s) && Allowed(s, e) && !e.Process? && !e.DeviceIdComplete? && !e.LoginComplete?
    ensures Inv(Step(s, e))
  {
  }

  lemma StepKeepsInv(s: State, e: Event)
    requires Inv(s) && Allowed(s, e)
    ensures Inv(Step(s, e))
  {
    hide Inv, Allowed, Step;
    if e.Process? {
      LookKeepsInv(s, e);
    } else if e.DeviceIdComplete? || e.LoginComplete? {
      CompletionKeepsInv(s, e);
    } else {
      OthersKeepInv(s, e);
    }
  }

  // Over every run: at most one SDK request is outstanding, and while running it is there exactly in
  // the state that waits for it; `ready` implies a local user; READY implies a registered connection
  // notification.
  lemma {:induction false} EveryRunKeepsInv(events: seq<Event>, s: State)
    requires IsRun(events, s)
    ensures Inv(s)
    decreases |events|
  {
    if events != [] {
      var last := |events| - 1;
      var before :| IsRun(events[..last], before) && Allowed(before, events[last]) && s == Step(before, events[last]);
      EveryRunKeepsInv(events[..last], before);
      StepKeepsInv(before, events[last]);
    }
  }

  // Once set up, a running machine is never stuck: it is READY, or waits for the one request it has
  // begun, or its next look at the clock past nextAuthAttempt begins a request, registers the
  // notification or plans a retry.
  lemma NeverStuck(events: seq<Event>, s: State, now: real, notification: nat)
    requires IsRun(events, s) && s.running && s.phase == Looping && now >= s.nextAuthAttempt
    ensures || s.authState == READY
            || s.deviceIdRequests + s.loginRequests == 1
            || (var t := Step(s, Process(now, notification));
                || t.deviceIdRequests + t.loginRequests == 1
                || t.authState == READY
                || (t.authState == NEED_NOTIFICATION && now + 1.0 <= t.nextAuthAttempt <= now + 16.0))
  {
    hide IsRun, RetryDelay;
    EveryRunKeepsInv(events, s);
    RetryDelayDoubles(s.retryCount);
  }

  // Failures

  ghost predicate IsFailure(s: State, e: Event) {
    match e
    case DeviceIdComplete(result, _) => s.running && result == Failed
    case LoginComplete(result, user, _) =>
      s.running && result != StillPending && (result != Success || user == None)
    case Process(now, notification) =>
      now >= s.nextAuthAttempt && s.authState == NEED_NOTIFICATION && notification == INVALID_NOTIFICATIONID
    case _ => false
  }

  function EventTime(e: Event): real {
    match e
    case DeviceIdComplete(_, now) => now
    case LoginComplete(_, _, now) => now
    case Process(now, _) => now
    case _ => 0.0
  }

  ghost function RetryState(e: Event): AuthState {
    match e
    case DeviceIdComplete(_, _) => NEED_DEVICE_ID
    case LoginComplete(_, _, _) => NEED_LOGIN
    case _ => NEED_NOTIFICATION
  }

  // What a failure does: the operation is planned again after the delay.
  ghost predicate Planned(s: State, t: State, state: AuthState, now: real) {
    t.authState == state && t.nextAuthAttempt == now + RetryDelay(s.retryCount) as real
    && t.retryCount == (s.retryCount as int + 1) % 0x1_0000_0000
    && t.deviceIdRequests == t.loginRequests == 0
  }

  lemma DeviceIdFailurePlans(s: State, e: Event)
    requires Inv(s) && Allowed(s, e) && IsFailure(s, e) && e.DeviceIdComplete?
    ensures Planned(s, Step(s, e), NEED_DEVICE_ID, e.now)
  {
    hide RetryDelay;
  }

  lemma LoginFailurePlans(s: State, e: Event)
    requires Inv(s) && Allowed(s, e) && IsFailure(s, e) && e.LoginComplete?
    ensures Planned(s, Step(s, e), NEED_LOGIN, e.now)
  {
    hide RetryDelay;
  }

  lemma NotificationFailurePlans(s: State, e: Event)
    requires Inv(s) && Allowed(s, e) && IsFailure(s, e) && e.Process?
    ensures Planned(s, Step(s, e), NEED_NOTIFICATION, e.now)
  {
    hide RetryDelay;
  }

  // A failed operation is planned again 2^k seconds later, k being the failures before it, up to 16
  // seconds; the wait never shrinks until something succeeds.
  lemma FailureBacksOff(events: seq<Event>, s: State, e: Event)
    requires IsRun(events, s) && Allowed(s, e) && IsFailure(s, e)
    ensures var t := Step(s, e);
            && t.authState == RetryState(e)
            && t.nextAuthAttempt == EventTime(e) + RetryDelay(s.retryCount) as real
            && 1 <= RetryDelay(s.retryCount) <= 16
            && t.deviceIdRequests == t.loginRequests == 0
            && (t.retryCount != 0 ==>
                  t.retryCount == s.retryCount + 1
                  && RetryDelay(t.retryCount) == Min(16, 2 * RetryDelay(s.retryCount)))
  {
    hide IsRun, Inv, Allowed, Step, RetryDelay, IsFailure;
    EveryRunKeepsInv(events, s);
    RetryDelayDoubles(s.retryCount);
    FailureKinds(s, e);
    if e.DeviceIdComplete? {
      DeviceIdFailurePlans(s, e);
    } else if e.LoginComplete? {
      LoginFailurePlans(s, e);
    } else {
      NotificationFailurePlans(s, e);
    }
  }

  lemma FailureKinds(s: State, e: Event)
    requires IsFailure(s, e)
    ensures e.DeviceIdComplete? || e.LoginComplete? || e.Process?
  {
  }

  lemma LoginBeginsNothing(s: State, result: Completion, user: Option<User>, now: real)
    ensures var t := OnLoginComplete(s, result, user, now);
            t.deviceIdRequests == s.deviceIdRequests && t.loginRequests == s.loginRequests
  {
    hide RetryDelay, SameUser;
  }

  lemma OthersBeginNothing(s: State, e: Event)
    requires Allowed(s, e) && !e.Process?
    ensures Step(s, e).deviceIdRequests <= s.deviceIdRequests && Step(s, e).loginRequests <= s.loginRequests
  {
    hide RetryDelay, OnLoginComplete;
    if e.LoginComplete? {
      LoginBeginsNothing(s, e.result, e.user, e.now);
    }
  }

  // No request is begun before its time.
  lemma NoEarlyRequest(s: State, e: Event)
    requires Allowed(s, e)
    requires Step(s, e).deviceIdRequests > s.deviceIdRequests || Step(s, e).loginRequests > s.loginRequests
    ensures e.Process? && e.now >= s.nextAuthAttempt
            && (s.authState == NEED_DEVICE_ID || s.authState == NEED_LOGIN)
  {
    if !e.Process? {
      hide Step, Allowed;
      OthersBeginNothing(s, e);
    }
    hide RetryDelay;
  }

  // `ready` alone does not imply a live notification.  From a state where it does, exactly one step breaks
  // that: a refresh, while ready, that logs in a user whose address differs (or cannot be had).
  lemma ReadyLosesNotification(events: seq<Event>, s: State, e: Event)
    requires IsRun(events, s) && Allowed(s, e)
    requires s.ready ==> s.connectionNotification != INVALID_NOTIFICATIONID
    ensures var t := Step(s, e);
            t.ready && t.connectionNotification == INVALID_NOTIFICATIONID <==>
              e.LoginComplete? && s.running && s.ready && e.result == Success && e.user.Some?
              && !SameUser(s.localUser, e.user.value)
  {
    hide IsRun, Inv, Allowed, Step, SameUser;
    EveryRunKeepsInv(events, s);
    if e.LoginComplete? {
      LoginOnReady(s, e);
    } else {
      OthersKeepNotification(s, e);
    }
  }

  lemma LoginOnReady(s: State, e: Event)
    requires Inv(s) && Allowed(s, e) && e.LoginComplete?
    requires s.ready ==> s.connectionNotification != INVALID_NOTIFICATIONID
    ensures var t := Step(s, e);
            t.ready && t.connectionNotification == INVALID_NOTIFICATIONID <==>
              s.running && s.ready && e.result == Success && e.user.Some? && !SameUser(s.localUser, e.user.value)
  {
    hide RetryDelay, SameUser;
  }

  lemma OthersKeepNotification(s: State, e: Event)
    requires Inv(s) && Allowed(s, e) && !e.LoginComplete?
    requires s.ready ==> s.connectionNotification != INVALID_NOTIFICATIONID
    ensures var t := Step(s, e); t.ready ==> t.connectionNotification != INVALID_NOTIFICATIONID
  {
    hide RetryDelay, OnLoginComplete;
  }

  // When `ready` changes

  // The connection notification is registered, or the user that is logged in logs in again.
  predicate MakesReady(s: State, e: Event) {
    match e
    case Process(now, notification) =>
      now >= s.nextAuthAttempt && s.authState == NEED_NOTIFICATION && notification != INVALID_NOTIFICATIONID
    case LoginComplete(result, user, _) =>
      s.running && result == Success && user.Some? && s.connectionNotification != INVALID_NOTIFICATIONID
      && s.localUser.Some? && s.localUser.value.address.Some? && s.localUser.value.address == user.value.address
    case _ => false
  }

  // The SDK has refused the authentication or logged the local user out, or the transport is stopped.
  predicate EndsReady(s: State, e: Event) {
    match e
    case TransportInvalidAuth(_) => true
    case LoginStatusChanged(loggedIn, user, _) => s.running && !loggedIn && user == s.localUser
    case Stop => true
    case Finish => true
    case Setup(answers, _) => !SetupSucceeds(answers)
    case _ => false
  }

  // Over every run `ready` rises with the one and falls with the other, and stays through everything else: through
  // an expiry of the authentication, in particular, which a new login answers.
  lemma ReadyEdges(events: seq<Event>, s: State, e: Event)
    requires IsRun(events, s) && Allowed(s, e)
    ensures Step(s, e).ready <==> MakesReady(s, e) || (s.ready && !EndsReady(s, e))
  {
    EveryRunKeepsInv(events, s);
    hide IsRun, RetryDelay;
    if e.LoginComplete? {
      LoginReady(s, e);
    } else {
      hide OnLoginComplete;
    }
  }

  lemma LoginReady(s: State, e: Event)
    requires Inv(s) && Allowed(s, e) && e.LoginComplete?
    ensures Step(s, e).ready <==> MakesReady(s, e) || s.ready
  {
    hide RetryDelay;
  }

  // What leads to a login: a refused or expired authentication, a logout of the local user, a device id.
  predicate AsksForLogin(s: State, e: Event) {
    match e
    case TransportInvalidAuth(_) => true
    case AuthExpiration(user, _) => s.running && user == s.localUser
    case LoginStatusChanged(loggedIn, user, _) => s.running && !loggedIn && user == s.localUser
    case DeviceIdComplete(result, _) => s.running && (result == Success || result == DuplicateNotAllowed)
    case _ => false
  }

  // It is begun by the next look at the clock, unless one is under way.
  lemma LoginFollows(s: State, e: Event, now: real, notification: nat)
    requires Allowed(s, e) && AsksForLogin(s, e) && now >= e.now
    ensures var t := Step(s, e);
            (t.authState == LOGGING_IN && t == s.(ready := t.ready)) ||
            (t.authState == NEED_LOGIN && var u := Step(t, Process(now, notification));
                                          u.authState == LOGGING_IN && u.loginRequests == t.loginRequests + 1)
  {
    hide RetryDelay, OnLoginComplete;
  }

  // The login succeeds.
  predicate LogsIn(s: State, e: Event) {
    e.LoginComplete? && s.running && e.result == Success && e.user.Some?
  }

  // The transport is taken down.
  predicate TakesDown(e: Event) {
    e.Finish? || (e.Setup? && e.answers.initialize && !SetupSucceeds(e.answers))
  }

  // Who is logged in, and where: the user of the last successful login, with its address if that could be had, until
  // the transport is taken down; the port is the configured one, or of the first such address its last two bytes.
  lemma UserEdges(s: State, e: Event)
    ensures var t := Step(s, e);
            && t.localUser == (if LogsIn(s, e) then e.user else if TakesDown(e) then None else s.localUser)
            && t.localAddress == (if LogsIn(s, e) && e.user.value.address.Some? then e.user.value.address
                                  else if TakesDown(e) then None else s.localAddress)
            && t.localEndpointPort ==
               (if e.Start? then e.port
                else if LogsIn(s, e) && e.user.value.address.Some? && s.localEndpointPort == 0
                then e.user.value.address.value % 65536 else s.localEndpointPort)
  {
    hide RetryDelay;
    if e.LoginComplete? {
      LoginUser(s, e);
    } else {
      hide OnLoginComplete;
    }
  }

  lemma LoginUser(s: State, e: Event)
    requires e.LoginComplete?
    ensures var t := Step(s, e);
            && t.localUser == (if LogsIn(s, e) then e.user else s.localUser)
            && t.localAddress == (if LogsIn(s, e) && e.user.value.address.Some? then e.user.value.address
                                  else s.localAddress)
            && t.localEndpointPort ==
               (if LogsIn(s, e) && e.user.value.address.Some? && s.localEndpointPort == 0
                then e.user.value.address.value % 65536 else s.localEndpointPort)
  {
    hide RetryDelay;
  }

  // A send is let through from a set-up that succeeded until the transport is stopped or taken down.
  lemma InitializedEdges(s: State, e: Event)
    ensures Step(s, e).initialized <==>
              || (e.Setup? && SetupSucceeds(e.answers))
              || (s.initialized && !e.Stop? && !TakesDown(e))
  {
    hide RetryDelay;
    if e.LoginComplete? {
      LoginKeepsInitialized(s, e);
    } else {
      hide OnLoginComplete;
    }
  }

  lemma LoginKeepsInitialized(s: State, e: Event)
    requires e.LoginComplete?
    ensures Step(s, e).initialized == s.initialized
    ensures LogsIn(s, e) ==> Step(s, e).retryCount == 0
  {
    hide RetryDelay;
  }

  // Any success ends the backing off.
  lemma SuccessResetsRetries(s: State, e: Event)
    requires LogsIn(s, e) || (e.DeviceIdComplete? && s.running && e.result in [Success, DuplicateNotAllowed])
    ensures Step(s, e).retryCount == 0 && RetryDelay(Step(s, e).retryCount) == 1
  {
    if e.LoginComplete? {
      LoginKeepsInitialized(s, e);
    } else {
      hide OnLoginComplete;
    }
  }

  // After a set-up the next look at the clock asks for a device id; after the login of another user it registers
  // the notification, and the machine is ready.
  lemma SetupFollows(s: State, answers: SetupAnswers, now: real, later: real, notification: nat)
    requires SetupSucceeds(answers) && later >= now
    ensures var t := Step(s, Setup(answers, now));
            var u := Step(t, Process(later, notification));
            && t.initialized && t.p2p && t.retryCount == 0 && t.phase == Looping
            && u.authState == CREATING_DEVICE_ID && u.deviceIdRequests == t.deviceIdRequests + 1
  {
    hide RetryDelay;
  }

  // A set-up that fails leaves nothing behind, and can be tried again.
  lemma SetupFails(s: State, answers: SetupAnswers, now: real, port: uint16)
    requires Inv(s) && Allowed(s, Setup(answers, now)) && !SetupSucceeds(answers) && !s.initialized
    ensures var t := Step(s, Setup(answers, now));
            && !t.running && !t.ready && !t.initialized && !t.p2p && t.localUser == None
            && Allowed(t, Start(port)) && Allowed(Step(t, Start(port)), Setup(answers, now))
  {
  }

  lemma NotificationFollows(s: State, e: Event, later: real, notification: nat)
    requires Inv(s) && Allowed(s, e) && LogsIn(s, e) && later >= e.now
    requires !SameUser(s.localUser, e.user.value) && notification != INVALID_NOTIFICATIONID
    ensures var t := Step(s, e);
            var u := Step(t, Process(later, notification));
            && t.connectionNotification == INVALID_NOTIFICATIONID && t.retryCount == 0
            && u.authState == READY && u.ready && u.connectionNotification == notification
  {
    hide RetryDelay;
  }

  const ANSWERS := SetupAnswers(true, true, true, true, true, 1, 1)

  lemma LoggingIn() returns (events: seq<Event>, s: State)
    ensures IsRun(events, s)
    ensures s == State(Looping, true, false, true, true, None, None, 1, LOGGING_IN, 1.0, 0, 1, 1,
                       INVALID_NOTIFICATIONID, 0, 1)
  {
    hide IsRun;
    events, s := NoEvents();
    events, s := OneMore(events, s, Start(1));
    events, s := OneMore(events, s, Setup(ANSWERS, 0.0));
    events, s := OneMore(events, s, Process(0.0, 0));
    events, s := OneMore(events, s, DeviceIdComplete(Success, 1.0));
    events, s := OneMore(events, s, Process(1.0, 0));
  }

  lemma Refreshing(user: User, notification: nat) returns (events: seq<Event>, s: State)
    requires notification != INVALID_NOTIFICATIONID
    ensures IsRun(events, s)
    ensures s == State(Looping, true, true, true, true, Some(user), user.address, 1, LOGGING_IN, 3.0, 0, 1, 1,
                       notification, 0, 1)
  {
    hide IsRun;
    events, s := LoggingIn();
    events, s := OneMore(events, s, LoginComplete(Success, Some(user), 2.0));
    events, s := OneMore(events, s, Process(2.0, notification));
    assert s.authState == READY;
    events, s := OneMore(events, s, AuthExpiration(Some(user), 3.0));
    events, s := OneMore(events, s, Process(3.0, 0));
  }

  // It happens for any two users who are not seen to be the same, one whose address cannot be had included.
  lemma ReadyWithoutNotification(first: User, second: User)
    requires !SameUser(Some(first), second)
    ensures exists events, s ::
              IsRun(events, s) && s.ready && s.connectionNotification == INVALID_NOTIFICATIONID
              && s.localUser == Some(second)
  {
    hide IsRun;
    var events, s := Refreshing(first, 7);
    events, s := OneMore(events, s, LoginComplete(Success, Some(second), 4.0));
  }

  lemma NoEvents() returns (events: seq<Event>, s: State)
    ensures s == IDLE_STATE && IsRun(events, s)
  {
    events, s := [], IDLE_STATE;
  }

  lemma OneMore(events: seq<Event>, s: State, e: Event) returns (events': seq<Event>, s': State)
    requires IsRun(events, s) && Allowed(s, e)
    ensures s' == Step(s, e) && IsRun(events', s')
  {
    events', s' := events + [e], Step(s, e);
    assert events'[..|events| + 1 - 1] == events;
  }

  // What set-up has made by the time it fails is forgotten.
  lemma ShutdownForgets(s: State, t: State)
    requires t == s.(p2p := t.p2p, authExpirationNotification := t.authExpirationNotification,
                     loginStatusNotification := t.loginStatusNotification)
    ensures Shutdown(t) == Shutdown(s)
  {
  }

  // The EosState fields as the object the callbacks and the sender update; `packets` is its other half.
  class EosState {
    const packets: Transport.Packets

    var running: bool
    var ready: bool
    var initialized: bool
    var p2p: bool
    var localUser: Option<User>
    var localAddress: Option<AddressNumber>
    var localEndpointPort: uint16
    var authState: AuthState
    var nextAuthAttempt: real
    var retryCount: uint32
    var authExpirationNotification: nat
    var loginStatusNotification: nat
    var connectionRequestNotification: nat
    var nextPacketId: uint32
    var lastSendError: Transport.SendResult

    ghost var phase: Phase
    ghost var deviceIdRequests: nat
    ghost var loginRequests: nat

    ghost function Model(): State
      reads this
    {
      State(phase, running, ready, initialized, p2p, localUser, localAddress, localEndpointPort, authState,
            nextAuthAttempt, retryCount, authExpirationNotification, loginStatusNotification,
            connectionRequestNotification, deviceIdRequests, loginRequests)
    }

    constructor ()
      ensures Model() == IDLE_STATE && nextPacketId == 1 && lastSendError == Transport.Success
      ensures fresh(packets) && packets.Valid() && packets.Model() == Reassembly.INITIAL
    {
      packets := new Transport.Packets();
      running, ready, initialized, p2p, localUser, authState := false, false, false, false, None, IDLE;
      localAddress, localEndpointPort, nextAuthAttempt, retryCount := None, 0, 0.0, 0;
      authExpirationNotification, loginStatusNotification := INVALID_NOTIFICATIONID, INVALID_NOTIFICATIONID;
      connectionRequestNotification := INVALID_NOTIFICATIONID;
      nextPacketId, lastSendError := 1, Transport.Success;
      phase, deviceIdRequests, loginRequests := Stopped, 0, 0;
    }

    method RequestLoginLocked(authenticationInvalid: bool, now: real)
      modifies this`ready, this`authState, this`nextAuthAttempt
      ensures Model() == RequestLogin(old(Model()), authenticationInvalid, now)
    {
      if authenticationInvalid {
        ready := false;
      }
      if authState == LOGGING_IN {
        return;
      }
      authState := NEED_LOGIN;
      nextAuthAttempt := now;
    }

    method ScheduleRetryLocked(state: AuthState, now: real)
      modifies this`retryCount, this`authState, this`nextAuthAttempt
      ensures Model() == ScheduleRetry(old(Model()), state, now)
    {
      var exponent := Min(retryCount, 4);
      var delaySeconds := Min(30, Pow2(exponent));
      retryCount := (retryCount as int + 1) % 0x1_0000_0000;
      authState := state;
      nextAuthAttempt := now + delaySeconds as real;
    }

    method FinishAuthenticationLocked()
      modifies this`authState, this`ready
      ensures Model() == FinishAuthentication(old(Model()))
    {
      authState := READY;
      ready := true;
    }

    method RemoveConnectionNotificationLocked()
      modifies this`connectionRequestNotification
      ensures Model() == old(Model()).(connectionNotification := INVALID_NOTIFICATIONID)
    {
      connectionRequestNotification := INVALID_NOTIFICATIONID;
    }

    // `notification` is what EOS_P2P_AddNotifyPeerConnectionRequest would return.
    method AddConnectionNotificationLocked(notification: nat) returns (added: bool)
      modifies this`connectionRequestNotification
      ensures added <==> p2p && localUser.Some? && notification != INVALID_NOTIFICATIONID
      ensures connectionRequestNotification ==
              if p2p && localUser.Some? then notification else old(connectionRequestNotification)
    {
      if !p2p || localUser.None? {
        return false;
      }
      RemoveConnectionNotificationLocked();
      connectionRequestNotification := notification;
      return connectionRequestNotification != INVALID_NOTIFICATIONID;
    }

    method ProcessAuthenticationLocked(now: real, notification: nat)
      modifies this`authState, this`nextAuthAttempt, this`retryCount, this`ready, this`connectionRequestNotification,
               this`deviceIdRequests, this`loginRequests
      ensures Model() == ProcessAuthentication(old(Model()), now, notification)
    {
      hide RetryDelay;
      if now < nextAuthAttempt {
        return;
      }
      match authState {
        case NEED_DEVICE_ID =>
          authState := CREATING_DEVICE_ID;
          deviceIdRequests := deviceIdRequests + 1;
        case NEED_LOGIN =>
          authState := LOGGING_IN;
          loginRequests := loginRequests + 1;
        case NEED_NOTIFICATION =>
          var added := AddConnectionNotificationLocked(notification);
          if added {
            FinishAuthenticationLocked();
          } else {
            ScheduleRetryLocked(NEED_NOTIFICATION, now);
          }
        case _ =>
      }
    }

    method CreateDeviceIdComplete(result: Completion, now: real)
      modifies this`authState, this`nextAuthAttempt, this`retryCount
      ensures Model() == OnDeviceIdComplete(old(Model()), result, now)
    {
      hide RetryDelay;
      if !running || result == StillPending {
        return;
      }
      if result == Success || result == DuplicateNotAllowed {
        retryCount := 0;
        authState := NEED_LOGIN;
        nextAuthAttempt := now;
        return;
      }
      ScheduleRetryLocked(NEED_DEVICE_ID, now);
    }

    method UpdateLocalEndpointLocked(user: User)
      modifies this`localAddress, this`localEndpointPort
      ensures Model() == UpdateLocalEndpoint(old(Model()), user)
    {
      if user.address.None? {
        return;
      }
      var address := user.address.value;
      if localEndpointPort == 0 {
        localEndpointPort := address % 0x1_0000;
      }
      localAddress := Some(address);
    }

    method LoginCompleted(result: Completion, user: Option<User>, now: real)
      requires packets.Valid()
      modifies this`localUser, this`retryCount, this`localAddress, this`localEndpointPort,
               this`connectionRequestNotification, this`authState, this`nextAuthAttempt, this`ready, packets
      ensures Model() == OnLoginComplete(old(Model()), result, user, now)
      ensures packets.Valid()
      ensures packets.Model() ==
              if old(running) && result == Success && user.Some?
                 && !(SameUser(old(localUser), user.value)
                     && old(connectionRequestNotification) != INVALID_NOTIFICATIONID)
              then Reassembly.INITIAL else old(packets.Model())
    {
      hide RetryDelay;
      if !running || result == StillPending {
        return;
      }
      if result != Success || user.None? {
        ScheduleRetryLocked(NEED_LOGIN, now);
        return;
      }
      LoggedIn(user.value, now);
    }

    method TakeUser(user: User)
      modifies this`localUser, this`retryCount, this`localAddress, this`localEndpointPort
      ensures Model() == UpdateLocalEndpoint(old(Model()).(localUser := Some(user), retryCount := 0), user)
    {
      hide UpdateLocalEndpoint;
      localUser := Some(user);
      retryCount := 0;
      UpdateLocalEndpointLocked(user);
    }

    // A successful login
    method LoggedIn(user: User, now: real)
      requires packets.Valid() && running
      modifies this`localUser, this`retryCount, this`localAddress, this`localEndpointPort,
               this`connectionRequestNotification, this`authState, this`nextAuthAttempt, this`ready, packets
      ensures Model() == OnLoginComplete(old(Model()), Success, Some(user), now)
      ensures packets.Valid()
      ensures packets.Model() ==
              if !(SameUser(old(localUser), user) && old(connectionRequestNotification) != INVALID_NOTIFICATIONID)
              then Reassembly.INITIAL else old(packets.Model())
    {
      var sameUser := localUser.Some? && localUser.value.address.Some? && user.address.Some?
                      && localUser.value.address == user.address;
      assert sameUser == SameUser(localUser, user);
      hide UpdateLocalEndpoint, SameUser;
      TakeUser(user);
      if sameUser && connectionRequestNotification != INVALID_NOTIFICATIONID {
        FinishAuthenticationLocked();
        return;
      }
      NeedNotification(now);
    }

    method NeedNotification(now: real)
      modifies this`connectionRequestNotification, this`authState, this`nextAuthAttempt, packets
      ensures Model() == old(Model()).(connectionNotification := INVALID_NOTIFICATIONID, authState := NEED_NOTIFICATION,
                                       nextAuthAttempt := now)
      ensures packets.Valid() && packets.Model() == Reassembly.INITIAL
    {
      RemoveConnectionNotificationLocked();
      packets.ResetPacketQueue();
      authState := NEED_NOTIFICATION;
      nextAuthAttempt := now;
    }

    method AuthExpired(user: Option<User>, now: real)
      modifies this`ready, this`authState, this`nextAuthAttempt
      ensures Model() == OnAuthExpiration(old(Model()), user, now)
    {
      hide RequestLogin;
      if !running || user != localUser {
        return;
      }
      RequestLoginLocked(false, now);
    }

    method LoginStatusChange(loggedIn: bool, user: Option<User>, now: real)
      modifies this`ready, this`authState, this`nextAuthAttempt
      ensures Model() == OnLoginStatusChanged(old(Model()), loggedIn, user, now)
    {
      hide RequestLogin;
      if !running || loggedIn || user != localUser {
        return;
      }
      RequestLoginLocked(true, now);
    }

    method RemoveAuthNotificationsLocked()
      modifies this`authExpirationNotification, this`loginStatusNotification
      ensures Model() == old(Model()).(authExpirationNotification := INVALID_NOTIFICATIONID,
                                       loginStatusNotification := INVALID_NOTIFICATIONID)
    {
      authExpirationNotification := INVALID_NOTIFICATIONID;
      loginStatusNotification := INVALID_NOTIFICATIONID;
    }

    method ReleasePlatform()
      modifies this`p2p, this`deviceIdRequests, this`loginRequests
      ensures Model() == old(Model()).(p2p := false, deviceIdRequests := 0, loginRequests := 0)
    {
      p2p := false;
      deviceIdRequests, loginRequests := 0, 0;
    }

    method ForgetUser()
      modifies this`localUser, this`authState, this`ready, this`initialized, this`localAddress
      ensures Model() == old(Model()).(localUser := None, authState := IDLE, ready := false, initialized := false,
                                       localAddress := None)
    {
      localUser := None;
      authState := IDLE;
      ready := false;
      initialized := false;
      localAddress := None;
    }

    method ShutdownLocked()
      modifies this`connectionRequestNotification, this`authExpirationNotification, this`loginStatusNotification,
               this`localUser, this`authState, this`p2p, this`deviceIdRequests, this`loginRequests, this`ready,
               this`initialized, this`localAddress, packets
      ensures Model() == Shutdown(old(Model()))
      ensures packets.Valid() && packets.Model() == Reassembly.INITIAL
    {
      RemoveConnectionNotificationLocked();
      RemoveAuthNotificationsLocked();
      ReleasePlatform();
      ForgetUser();
      assert Model() == Shutdown(old(Model()));
      hide Shutdown;
      packets.ResetPacketQueue();
    }

    method AddAuthNotificationsLocked(answers: SetupAnswers) returns (added: bool)
      modifies this`authExpirationNotification, this`loginStatusNotification
      ensures added <==>
                answers.authExpiration != INVALID_NOTIFICATIONID && answers.loginStatus != INVALID_NOTIFICATIONID
      ensures added ==>
                authExpirationNotification == answers.authExpiration && loginStatusNotification == answers.loginStatus
    {
      authExpirationNotification := answers.authExpiration;
      if authExpirationNotification == INVALID_NOTIFICATIONID {
        return false;
      }
      loginStatusNotification := answers.loginStatus;
      if loginStatusNotification == INVALID_NOTIFICATIONID {
        authExpirationNotification := INVALID_NOTIFICATIONID;
        return false;
      }
      return true;
    }

    // `firstPacketId` is the clock in microseconds, mixed with the process id.
    method SetupLocked(answers: SetupAnswers, now: real, firstPacketId: uint32) returns (ok: bool)
      requires packets.Valid()
      modifies this, packets
      ensures ok == SetupSucceeds(answers) && Model() == AfterSetup(old(Model()), answers, now)
      ensures nextPacketId == (if ok then firstPacketId else old(nextPacketId)) && lastSendError == old(lastSendError)
      ensures packets.Valid()
      ensures packets.Model() == if ok || !answers.initialize then old(packets.Model()) else Reassembly.INITIAL
    {
      hide Shutdown;
      ghost var before := Model();
      if !answers.initialize {
        return false;
      }
      if !answers.clientSecret || !answers.platform || !answers.interfaces {
        ShutdownLocked();
        return false;
      }
      ok := AddNotificationsLocked(answers);
      if !ok {
        ShutdownForgets(before, Model());
        ShutdownLocked();
        return false;
      }
      FinishSetup(now, firstPacketId);
    }

    // With the interfaces at hand: relay control, then the two notifications
    method AddNotificationsLocked(answers: SetupAnswers) returns (added: bool)
      modifies this`p2p, this`authExpirationNotification, this`loginStatusNotification
      ensures p2p && added == (answers.relayControl && answers.authExpiration != INVALID_NOTIFICATIONID
                               && answers.loginStatus != INVALID_NOTIFICATIONID)
      ensures added ==>
                authExpirationNotification == answers.authExpiration && loginStatusNotification == answers.loginStatus
    {
      p2p := true;
      if !answers.relayControl {
        return false;
      }
      added := AddAuthNotificationsLocked(answers);
    }

    method FinishSetup(now: real, firstPacketId: uint32)
      modifies this`nextPacketId, this`retryCount, this`authState, this`nextAuthAttempt, this`initialized
      ensures nextPacketId == firstPacketId
      ensures Model() == old(Model()).(retryCount := 0, authState := NEED_DEVICE_ID, nextAuthAttempt := now,
                                       initialized := true)
    {
      nextPacketId := firstPacketId;
      retryCount := 0;
      authState := NEED_DEVICE_ID;
      nextAuthAttempt := now;
      initialized := true;
    }

    method ShutdownNetworking()
      modifies this`initialized, this`ready, this`running
      ensures Model() == OnStop(old(Model()))
    {
      initialized := false;
      ready := false;
      running := false;
    }
  }
}
