/** The VPN controller (src/controller.cpp) joined to its daemon link
    (src/localsocketcontroller.cpp), as a state machine. Every slot, timer
    expiry, completed account check and daemon message is one event; `Step`
    gives its effect. Clocks, the network, the server and device models are
    inputs carried by the event. */
module Controller {
  import opened Common

  type Key = string

  datatype State = Initializing | Off | Connecting | Confirming | On | OnPartial
                 | Disconnecting | SilentSwitching | Switching
  datatype Reason = ReasonNone | ReasonSwitching | ReasonConfirming
  datatype Principal = Null | ExtensionUser | ClientUser
  datatype NextStep = NoStep | Quit | Update | Disconnect
  datatype Selection = Randomize | DoNotRandomize
  datatype DaemonState = Unknown | DaemonInitializing | Ready

  datatype HopType = SingleHop | MultiHopEntry | MultiHopExit
  datatype Hop = Hop(hopType: HopType, key: Key, port53: bool)

  datatype ServerData = ServerData(location: int, multihop: bool, entryKey: Key, exitKey: Key)

  /** An account request whose reply is still awaited. */
  datatype Check = Check(selection: Selection, initiator: Principal)

  /** What leaves the controller: messages to the daemon, signals, and the
      failure of a Q_ASSERT at a source line. */
  datatype Output =
    | SentActivate(hop: Hop)
    | SentDeactivate
    | StartTelemetry
    | EndTelemetry
    | RetryCleared
    | AutoReactivation
    | ServerUnavailable
    | CaptivePortalBlocked
    | ReadyToQuit
    | ReadyToUpdate
    | ResetRequested
    | AssertFailed(line: nat)

  /** Answers of the surroundings at the time of an event. */
  datatype Env = Env(
    exitPick: Option<Key>, exitKnown: bool,
    entryPick: Option<Key>, entryKnown: bool,
    device: bool, multihopFeature: bool, multihopSupported: bool, alwaysPort53: bool,
    checkConnectivity: bool, reachable: bool, now: int)

  datatype Ctl = Ctl(
    state: State,
    initiator: Principal,
    queue: seq<Hop>,
    retry: nat,
    nextStep: NextStep,
    switching: bool,          // isSwitchingServer
    handshake: bool,          // m_handshakeTimer runs
    clock: bool,              // m_timer runs
    since: Option<int>,       // m_connectedTimeInUTC
    portal: bool,
    server: ServerData,
    nextServer: ServerData,
    nextSelection: Selection,
    pending: seq<Check>,
    daemon: DaemonState,
    daemonTimer: bool,        // m_initializingTimer runs
    backoff: nat,             // m_initializingInterval
    out: Trace)

  datatype Event =
    | Activate(data: ServerData, who: Principal, selection: Selection, env: Env)
    | Deactivate(who: Principal, env: Env)
    | AccountReply(index: nat, failed: bool, appReady: bool, env: Env)
    | HandshakeExpired(env: Env)
    | ClockTick
    | Switch(data: ServerData, env: Env)
    | SilentSwitch(coolDown: bool, exitServers: nat, env: Env)
    | QuitRequest(env: Env)
    | UpdateRequest(env: Env)
    | PortalPresent
    | PortalGone
    | Initialize(data: ServerData)
    | BackendFailed(env: Env)
    | DaemonStatus(wellFormed: bool, connected: bool, date: Option<int>, env: Env)
    | DaemonConnected(key: Key, env: Env)
    | DaemonDisconnected(env: Env)
    | SocketError(env: Env)
    | DaemonTimerExpired

  predicate FromDaemon(e: Event) {
    e.Initialize? || e.BackendFailed? || e.DaemonStatus? || e.DaemonConnected?
    || e.DaemonDisconnected? || e.SocketError? || e.DaemonTimerExpired?
  }

  const CONNECTION_MAX_RETRY := 9
  const RETRY_INITIAL_MSEC := 500
  const RETRY_MAXIMUM_MSEC := 16000

  // ------------------------------------------------------------------
  // Traces
  // ------------------------------------------------------------------

  /** The record of a run: automatic re-activations since the retry counter was
      last cleared, messages sent to the daemon, session starts reported, lines
      whose assert failed, and the remaining signals. */
  datatype Trace = Trace(reactivations: nat, messages: seq<Output>, starts: nat,
                         failed: set<nat>, signals: seq<Output>)

  const EMPTY_TRACE := Trace(0, [], 0, {}, [])

  function Record(t: Trace, o: Output): Trace {
    match o
    case SentActivate(_) => t.(messages := t.messages + [o])
    case SentDeactivate => t.(messages := t.messages + [o])
    case StartTelemetry => t.(starts := t.starts + 1)
    case RetryCleared => t.(reactivations := 0)
    case AutoReactivation => t.(reactivations := t.reactivations + 1)
    case AssertFailed(line) => t.(failed := t.failed + {line})
    case _ => t.(signals := t.signals + [o])
  }

  function Emit(c: Ctl, o: Output): Ctl {
    c.(out := Record(c.out, o))
  }

  // ------------------------------------------------------------------
  // Private helpers of the controller
  // ------------------------------------------------------------------

  function StateToReason(s: State): Reason {
    if s.Switching? || s.SilentSwitching? then ReasonSwitching
    else if s.Confirming? then ReasonConfirming
    else ReasonNone
  }

  function ClearConnectedTime(c: Ctl): Ctl {
    c.(since := if c.switching then c.since else None, clock := false)
  }

  function ResetConnectedTime(c: Ctl, now: int): Ctl {
    c.(since := if c.switching then c.since else Some(now), clock := true)
  }

  function ClearRetryCounter(c: Ctl): Ctl {
    Emit(c.(retry := 0), RetryCleared)
  }

  /** Takes the pending step; true when it ends the controller's work. */
  function ProcessNextStep(c: Ctl): (Ctl, bool) {
    var c1 := c.(nextStep := NoStep);
    match c.nextStep
    case Quit => (Emit(c1, ReadyToQuit), true)
    case Update => (Emit(c1, ReadyToUpdate), true)
    case _ => (c1, false)
  }

  predicate HasFinalStep(n: NextStep) {
    n.Quit? || n.Disconnect? || n.Update?
  }

  /** Server::weightChooser, or the recorded server when the policy asks for it. */
  function ChooseServer(selection: Selection, key: Key, pick: Option<Key>, known: bool): Option<Key> {
    if selection.DoNotRandomize? && key != "" then (if known then Some(key) else None) else pick
  }

  function ActivateNext(c: Ctl, env: Env): Ctl
    requires c.queue != []
  {
    if !env.device then Emit(c, ResetRequested)
    else
      var c1 := Emit(c.(handshake := true), SentActivate(c.queue[0]));
      if c1.initiator.ExtensionUser? || c1.state.SilentSwitching? then c1
      else c1.(state := Confirming)
  }

  function Launch(c: Ctl, queue: seq<Hop>, env: Env): Ctl
    requires queue != []
  {
    var server := c.server.(entryKey := queue[0].key, exitKey := queue[|queue| - 1].key);
    ActivateNext(c.(queue := queue, server := server), env)
  }

  /** The hops an activation would use, if servers are available for them. */
  function PlanHops(c: Ctl, forceDns: bool, selection: Selection, env: Env): Option<seq<Hop>> {
    var exit := ChooseServer(selection, c.server.exitKey, env.exitPick, env.exitKnown);
    var entry := ChooseServer(selection, c.server.entryKey, env.entryPick, env.entryKnown);
    var dns := forceDns || env.alwaysPort53;
    if exit.None? then None
    else if !env.multihopFeature || !c.server.multihop then Some([Hop(SingleHop, exit.value, dns)])
    else if entry.None? then None
    else if env.multihopSupported then
      Some([Hop(MultiHopEntry, entry.value, dns), Hop(MultiHopExit, exit.value, false)])
    else Some([Hop(SingleHop, exit.value, false)])
  }

  function ActivateInternal(c: Ctl, forceDns: bool, selection: Selection, initiator: Principal,
                            env: Env): Ctl {
    var c1 := ClearConnectedTime(c.(initiator := initiator)).(handshake := false, queue := []);
    var exit := ChooseServer(selection, c.server.exitKey, env.exitPick, env.exitKnown);
    if exit.None? then Emit(c1, ServerUnavailable)
    else if !env.device then c1.(nextStep := Disconnect)
    else match PlanHops(c1, forceDns, selection, env)
      case None => Emit(c1, ServerUnavailable)
      case Some(hops) =>
        assert hops != [];
        Launch(c1, hops, env)
  }

  // ------------------------------------------------------------------
  // Slots
  // ------------------------------------------------------------------

  function DoActivate(c: Ctl, data: ServerData, initiator: Principal, selection: Selection,
                      env: Env): (Ctl, bool) {
    if !c.state.Off? && !c.state.OnPartial? && !c.state.Switching? && !c.state.SilentSwitching?
    then (c, false)
    else
      var c1 := c.(switching := c.state.Switching? || c.state.SilentSwitching?, server := data);
      if c.state.Off? then RequestCheck(c1, selection, initiator, env)
      else (StartActivation(c1, selection, initiator, env), true)
  }

  /** activate() from StateOff: ask for an account check first. */
  function RequestCheck(c: Ctl, selection: Selection, initiator: Principal, env: Env): (Ctl, bool) {
    if c.portal then (Emit(c, CaptivePortalBlocked).(portal := false), true)
    else if env.checkConnectivity && !env.reachable then (c, false)
    else (c.(pending := c.pending + [Check(selection, initiator)]), true)
  }

  /** The common tail of activate() and of both account-reply handlers. */
  function StartActivation(c: Ctl, selection: Selection, initiator: Principal, env: Env): Ctl {
    var c1 := if initiator.ExtensionUser? then c else c.(state := Connecting);
    ActivateInternal(ClearRetryCounter(c1), false, selection, initiator, env)
  }

  function OnAccountReply(c: Ctl, index: nat, failed: bool, appReady: bool, env: Env): Ctl
    requires index < |c.pending|
  {
    var check := c.pending[index];
    var c1 := c.(pending := c.pending[..index] + c.pending[index + 1..]);
    if failed && !appReady then c1
    else StartActivation(c1, check.selection, check.initiator, env)
  }

  function Rank(p: Principal): nat {
    match p case Null => 0 case ExtensionUser => 1 case ClientUser => 2
  }

  /** What deactivate() and disconnected() both clear first. */
  function TearDown(c: Ctl): Ctl {
    ClearRetryCounter(ClearConnectedTime(c.(handshake := false, queue := [])))
  }

  function PrepareDeactivate(c: Ctl): Ctl {
    var c1 := if c.portal then Emit(c, CaptivePortalBlocked).(portal := false) else c;
    TearDown(if c1.state.Switching? || c1.state.SilentSwitching? then c1
             else c1.(state := Disconnecting))
  }

  function DoDeactivate(c: Ctl, who: Principal, env: Env): (Ctl, bool) {
    if Rank(c.initiator) > Rank(who) then (c, false)
    else if c.state.Initializing? || c.state.Off? || c.state.Disconnecting? then (c, false)
    else
      var c1 := PrepareDeactivate(c);
      (DaemonDeactivate(c1, StateToReason(c1.state), env), true)
  }

  /** LocalSocketController::deactivate; it may report back synchronously. */
  function DaemonDeactivate(c: Ctl, reason: Reason, env: Env): Ctl {
    if !c.daemon.Ready? || reason.ReasonSwitching? then OnDisconnected(c, env)
    else Emit(c, SentDeactivate)
  }

  function OnDisconnected(c: Ctl, env: Env): Ctl {
    var c1 := TearDown(c);
    var (c2, final) := ProcessNextStep(c1);
    if final then c2.(state := Off) else Resume(c2, c1.nextStep, env)
  }

  /** disconnected() with no final step: the second half of a switch, or the end
      of the session. */
  function Resume(c: Ctl, step: NextStep, env: Env): Ctl {
    if step.NoStep? && c.state.SilentSwitching? then
      DoActivate(c, c.nextServer, c.initiator, c.nextSelection, env).0
    else if step.NoStep? && c.state.Switching? then
      DoActivate(c, c.nextServer, ClientUser, c.nextSelection, env).0
    else
      var c1 := if c.state.Confirming? then c else Emit(c, EndTelemetry);
      c1.(initiator := Null, state := Off)
  }

  /** connected() once no further hop is waiting. */
  function Established(c: Ctl, now: int): Ctl {
    var c1 := ClearRetryCounter(c.(queue := [], handshake := false));
    var c2 := c1.(switching := c1.switching || c1.state.On? || c1.state.OnPartial?,
                  state := if c1.initiator.ExtensionUser? then OnPartial else On);
    var c3 := ResetConnectedTime(c2, now);
    if c3.switching then c3 else Emit(c3, StartTelemetry)
  }

  function OnConnected(c: Ctl, key: Key, env: Env): Ctl {
    if c.queue == [] && c.server.exitKey != key then c
    else if c.queue != [] && c.queue[0].key != key then c
    else if |c.queue| > 1 then ActivateNext(c.(queue := c.queue[1..]), env)
    else
      var c1 := Established(c, env.now);
      if HasFinalStep(c1.nextStep) then DoDeactivate(c1, ClientUser, env).0 else c1
  }

  /** handshakeTimeout: the single-shot timer has just stopped. */
  function OnHandshakeTimeout(c: Ctl, env: Env): Ctl {
    var c0 := c.(handshake := false);
    if c0.queue == [] then Emit(c0, AssertFailed(286))
    else if HasFinalStep(c0.nextStep) then DoDeactivate(c0, ClientUser, env).0
    else
      var c1 := c0.(retry := c0.retry + 1);
      if c1.queue[|c1.queue| - 1].hopType.MultiHopEntry? then Emit(c1, AssertFailed(303))
      else Retry(c1, env)
  }

  /** The attempt that the retry counter has reached: on port 53 first, then
      without, and giving up at the ninth. */
  function Retry(c: Ctl, env: Env): Ctl {
    if c.retry == 1 then
      ActivateInternal(Emit(c, AutoReactivation), true, Randomize, c.initiator, env)
    else if c.retry < CONNECTION_MAX_RETRY then
      ActivateInternal(Emit(c, AutoReactivation), false, Randomize, c.initiator, env)
    else Emit(c, ServerUnavailable)
  }

  /** The part both kinds of switch share, after their guards. */
  function StartSwitch(c: Ctl, data: ServerData, selection: Selection, state: State, env: Env): Ctl {
    var c1 := c.(switching := true, nextServer := data, nextSelection := selection);
    var c2 := ClearRetryCounter(ClearConnectedTime(c1));
    DoDeactivate(c2.(state := state), ClientUser, env).0
  }

  function SwitchServers(c: Ctl, data: ServerData, env: Env): (Ctl, bool) {
    if c.state.Off? then (c, false)
    else (StartSwitch(c, data, Randomize, Switching, env), true)
  }

  function SilentSwitchServers(c: Ctl, coolDown: bool, exitServers: nat, env: Env): (Ctl, bool) {
    if !c.state.On? then (c, false)
    else if coolDown && exitServers <= 1 then (c, false)
    else
      var selection := if coolDown then Randomize else DoNotRandomize;
      (StartSwitch(c, c.server, selection, SilentSwitching, env), true)
  }

  function DoQuit(c: Ctl, env: Env): Ctl {
    var c1 := c.(nextStep := Quit);
    if c.state.Initializing? || c.state.Off? then Emit(c1, ReadyToQuit)
    else if c.state.Confirming? || c.state.Disconnecting? then c1
    else DoDeactivate(c1, ClientUser, env).0
  }

  function DoUpdateRequired(c: Ctl, env: Env): Ctl {
    if c.state.Off? then Emit(c, ReadyToUpdate)
    else
      var c1 := c.(nextStep := Update);
      if c.state.On? || c.state.OnPartial? then DoDeactivate(c1, ClientUser, env).0 else c1
  }

  function ImplInitialized(c: Ctl, status: bool, connected: bool, date: Option<int>, now: int): Ctl {
    if !status then c.(state := Off)
    else
      var (c1, final) := ProcessNextStep(c);
      if final then c1.(state := Off)
      else if connected then
        c1.(state := On, since := if date.Some? then date else Some(now), clock := true)
      else c1.(state := Off)
  }

  // ------------------------------------------------------------------
  // Daemon link
  // ------------------------------------------------------------------

  function InitializeInternal(c: Ctl): Ctl {
    var interval :=
      if !c.daemon.DaemonInitializing? then RETRY_INITIAL_MSEC
      else if c.backoff < RETRY_MAXIMUM_MSEC then 2 * c.backoff
      else c.backoff;
    c.(daemon := DaemonInitializing, backoff := interval)
  }

  /** n reconnection attempts in a row. */
  function Attempts(c: Ctl, n: nat): Ctl {
    if n == 0 then c else InitializeInternal(Attempts(c, n - 1))
  }

  function Doubled(n: nat): nat {
    if n == 0 then RETRY_INITIAL_MSEC else 2 * Doubled(n - 1)
  }

  /** The retry interval doubles from 0.5 s with each failed attempt and stays
      at 16 s from the sixth on. */
  lemma {:induction false} BackoffDoubles(c: Ctl, n: nat)
    requires !c.daemon.DaemonInitializing?
    ensures Attempts(c, n + 1).daemon.DaemonInitializing?
    ensures Attempts(c, n + 1).backoff == (if n <= 5 then Doubled(n) else RETRY_MAXIMUM_MSEC)
  {
    assert Doubled(1) == 1000;
    assert Doubled(3) == 4000;
    assert Doubled(5) == 16000;
    if n == 0 {
      assert Attempts(c, 1) == InitializeInternal(Attempts(c, 0));
    } else {
      BackoffDoubles(c, n - 1);
      assert Doubled(n) == 2 * Doubled(n - 1);
      if n <= 5 {
        DoubledBelow(n - 1);
      }
    }
  }

  lemma {:induction false} DoubledBelow(n: nat)
    requires n <= 4
    ensures Doubled(n) < RETRY_MAXIMUM_MSEC
  {
    assert Doubled(4) == 8000;
    if n < 4 {
      assert Doubled(2) == 2000 && Doubled(3) == 4000 && Doubled(1) == 1000;
    }
  }

  function OnStatus(c: Ctl, wellFormed: bool, connected: bool, date: Option<int>, env: Env): Ctl {
    if !c.daemon.DaemonInitializing? then c
    else if !wellFormed || (connected && date.None?) then c.(daemon := Ready)
    else ImplInitialized(c.(daemon := Ready), true, connected, date, env.now)
  }

  function OnSocketError(c: Ctl, env: Env): Ctl {
    (if c.daemon.DaemonInitializing? then c else OnDisconnected(c, env)).(daemonTimer := true)
  }

  function Step(c: Ctl, e: Event): Ctl {
    match e
    case Activate(data, who, selection, env) => DoActivate(c, data, who, selection, env).0
    case Deactivate(who, env) => DoDeactivate(c, who, env).0
    case AccountReply(index, failed, appReady, env) =>
      if index < |c.pending| then OnAccountReply(c, index, failed, appReady, env) else c
    case HandshakeExpired(env) => if c.handshake then OnHandshakeTimeout(c, env) else c
    case ClockTick =>
      if c.clock && !c.state.On? && !c.state.OnPartial? then Emit(c, AssertFailed(231)) else c
    case Switch(data, env) => SwitchServers(c, data, env).0
    case SilentSwitch(coolDown, exitServers, env) =>
      SilentSwitchServers(c, coolDown, exitServers, env).0
    case QuitRequest(env) => DoQuit(c, env)
    case UpdateRequest(env) => DoUpdateRequired(c, env)
    case PortalPresent => c.(portal := true)
    case PortalGone => c.(portal := false)
    case Initialize(data) =>
      InitializeInternal(c.(state := Initializing, server := data, nextServer := data,
                            daemon := Unknown, daemonTimer := false))
    case BackendFailed(env) => ImplInitialized(c, false, false, None, env.now)
    case DaemonStatus(wellFormed, connected, date, env) =>
      OnStatus(c, wellFormed, connected, date, env)
    case DaemonConnected(key, env) => if c.daemon.Ready? then OnConnected(c, key, env) else c
    case DaemonDisconnected(env) =>
      if c.daemon.Ready? then OnDisconnected(c.(daemonTimer := false), env) else c
    case SocketError(env) => OnSocketError(c, env)
    case DaemonTimerExpired =>
      if c.daemonTimer then InitializeInternal(c.(daemonTimer := false)) else c
  }

  function Run(c: Ctl, events: seq<Event>): Ctl
    decreases |events|
  {
    if events == [] then c else Run(Step(c, events[0]), events[1..])
  }

  /** A freshly constructed controller; isSwitchingServer has no initialiser. */
  ghost predicate Initial(c: Ctl) {
    && c.state.Initializing? && c.initiator.Null? && c.queue == [] && c.retry == 0
    && c.nextStep.NoStep? && !c.handshake && !c.clock && c.since.None? && !c.portal
    && c.pending == [] && c.daemon.Unknown? && !c.daemonTimer
    && c.backoff == RETRY_INITIAL_MSEC && c.out == EMPTY_TRACE
  }

  // ------------------------------------------------------------------
  // What every run keeps
  // ------------------------------------------------------------------

  ghost predicate Shape(queue: seq<Hop>) {
    || (|queue| == 1 && !queue[0].hopType.MultiHopEntry?)
    || (|queue| == 2 && queue[0].hopType.MultiHopEntry? && queue[1].hopType.MultiHopExit?)
  }

  ghost predicate LateExit(queue: seq<Hop>) {
    |queue| == 1 && queue[0].hopType.MultiHopExit?
  }

  /** The activation queue, the retry counter and the handshake timer. */
  ghost predicate TimerInv(c: Ctl) {
    && (c.queue == [] || Shape(c.queue))
    && (c.handshake ==> c.queue != [] && (c.retry <= 8 || (c.retry == 9 && LateExit(c.queue))))
    && c.retry <= 10
    && (c.retry == 10 ==> LateExit(c.queue))
    && c.out.reactivations == (if c.retry <= 8 then c.retry else 8)
  }

  ghost predicate PartialInv(c: Ctl) {
    c.state.OnPartial? ==> c.initiator.ExtensionUser?
  }

  ghost predicate Inv(c: Ctl) {
    && TimerInv(c)
    && PartialInv(c)
    && 286 !in c.out.failed
    && 303 !in c.out.failed
  }

  /** The invariants only read these fields. */
  lemma SameCore(c: Ctl, d: Ctl)
    requires Inv(c) && PartialInv(d)
    requires d.queue == c.queue && d.retry == c.retry && d.handshake == c.handshake
    requires d.out.reactivations == c.out.reactivations && d.out.failed == c.out.failed
    ensures Inv(d)
  {
  }

  lemma ActivateNextKeeps(c: Ctl, env: Env)
    requires Inv(c) && c.queue != [] && (c.retry <= 8 || (c.retry == 9 && LateExit(c.queue)))
    ensures Inv(ActivateNext(c, env))
  {
    if env.device {
      if c.initiator.ExtensionUser? || c.state.SilentSwitching? {
      } else {
      }
    } else {
    }
  }

  lemma PlanHopsShape(c: Ctl, forceDns: bool, selection: Selection, env: Env)
    requires PlanHops(c, forceDns, selection, env).Some?
    ensures Shape(PlanHops(c, forceDns, selection, env).value)
  {
  }

  // -- which servers an activation may use, whoever plans it

  /** The key is the server wanted for a role: the recorded one, if the policy
      keeps it and there is one; otherwise the weighted pick. */
  ghost predicate Wanted(selection: Selection, recorded: Key, pick: Option<Key>, known: bool, key: Key) {
    && (selection == DoNotRandomize && recorded != "" ==> known && key == recorded)
    && (selection == Randomize || recorded == "" ==> pick == Some(key))
  }

  /** There is such a server. */
  predicate CanServe(selection: Selection, recorded: Key, pick: Option<Key>, known: bool) {
    if selection == Randomize || recorded == "" then pick.Some? else known
  }

  lemma ChoiceIsWanted(selection: Selection, recorded: Key, pick: Option<Key>, known: bool, key: Key)
    ensures ChooseServer(selection, recorded, pick, known) == Some(key)
       <==> Wanted(selection, recorded, pick, known, key)
    ensures ChooseServer(selection, recorded, pick, known).Some? <==> CanServe(selection, recorded, pick, known)
  {
  }

  ghost predicate WantedExit(server: ServerData, selection: Selection, env: Env, key: Key) {
    Wanted(selection, server.exitKey, env.exitPick, env.exitKnown, key)
  }

  ghost predicate WantedEntry(server: ServerData, selection: Selection, env: Env, key: Key) {
    Wanted(selection, server.entryKey, env.entryPick, env.entryKnown, key)
  }

  /** The hops lead to a location: one hop to the wanted exit server; for a
      multihop location an entry hop before it, where the platform has two, and
      else the one hop, with an entry server at hand. Port 53, forced or always
      on, is for the single hop of a single-hop location and for the entry hop. */
  ghost predicate LeadsTo(server: ServerData, forceDns: bool, selection: Selection, env: Env, hops: seq<Hop>) {
    var port53 := forceDns || env.alwaysPort53;
    if !(env.multihopFeature && server.multihop) then
      |hops| == 1 && hops[0].hopType == SingleHop && hops[0].port53 == port53
      && WantedExit(server, selection, env, hops[0].key)
    else if env.multihopSupported then
      |hops| == 2 && hops[0].hopType == MultiHopEntry && hops[0].port53 == port53
      && WantedEntry(server, selection, env, hops[0].key)
      && hops[1].hopType == MultiHopExit && !hops[1].port53 && WantedExit(server, selection, env, hops[1].key)
    else
      |hops| == 1 && hops[0].hopType == SingleHop && !hops[0].port53
      && WantedExit(server, selection, env, hops[0].key)
      && CanServe(selection, server.entryKey, env.entryPick, env.entryKnown)
  }

  /** The plan of an activation, if any, are the hops that lead to its location. */
  lemma PlanLeads(c: Ctl, forceDns: bool, selection: Selection, env: Env, hops: seq<Hop>)
    ensures PlanHops(c, forceDns, selection, env) == Some(hops) <==> LeadsTo(c.server, forceDns, selection, env, hops)
  {
    hide ChooseServer, Wanted, CanServe;
    var plan := PlanHops(c, forceDns, selection, env);
    if hops != [] {
      var last := hops[|hops| - 1];
      ChoiceIsWanted(selection, c.server.exitKey, env.exitPick, env.exitKnown, last.key);
      ChoiceIsWanted(selection, c.server.entryKey, env.entryPick, env.entryKnown, hops[0].key);
      assert hops[0] == Hop(hops[0].hopType, hops[0].key, hops[0].port53);
      assert last == Hop(last.hopType, last.key, last.port53);
      assert |hops| == 1 ==> hops == [hops[0]];
      assert |hops| == 2 ==> hops == [hops[0], last];
    }
  }

  /** The messages from before to after: one activate, for the first hop to the
      location, if something allows it and hops lead there; else none. */
  ghost predicate SendsFirst(before: seq<Output>, after: seq<Output>, allowed: bool, server: ServerData,
                             forceDns: bool, selection: Selection, env: Env)
  {
    || (allowed && exists hops ::
        LeadsTo(server, forceDns, selection, env, hops) && hops != [] && after == before + [SentActivate(hops[0])])
    || ((!allowed || forall hops :: !LeadsTo(server, forceDns, selection, env, hops)) && after == before)
  }

  lemma SendsFirstOf(c: Ctl, before: seq<Output>, after: seq<Output>, allowed: bool, forceDns: bool,
                     selection: Selection, env: Env)
    requires var plan := PlanHops(c, forceDns, selection, env);
      && (plan.Some? ==> plan.value != [])
      && after == before + (if allowed && plan.Some? then [SentActivate(plan.value[0])] else [])
    ensures SendsFirst(before, after, allowed, c.server, forceDns, selection, env)
  {
    hide PlanHops, LeadsTo;
    var plan := PlanHops(c, forceDns, selection, env);
    if plan.Some? {
      PlanLeads(c, forceDns, selection, env, plan.value);
    } else {
      forall hops ensures !LeadsTo(c.server, forceDns, selection, env, hops) {
        PlanLeads(c, forceDns, selection, env, hops);
      }
    }
  }

  lemma ActivateInternalKeeps(c: Ctl, forceDns: bool, selection: Selection, initiator: Principal,
                              env: Env)
    requires Inv(c) && c.retry <= 8
    requires c.state.OnPartial? ==> initiator.ExtensionUser?
    ensures Inv(ActivateInternal(c, forceDns, selection, initiator, env))
  {
    var c1 := ClearConnectedTime(c.(initiator := initiator)).(handshake := false, queue := []);
    assert Inv(c1);
    var exit := ChooseServer(selection, c.server.exitKey, env.exitPick, env.exitKnown);
    var plan := PlanHops(c1, forceDns, selection, env);
    if exit.None? {
    } else if !env.device {
    } else if plan.None? {
    } else {
      var q := plan.value;
      PlanHopsShape(c1, forceDns, selection, env);
      var c2 := c1.(queue := q, server := c1.server.(entryKey := q[0].key, exitKey := q[|q| - 1].key));
      assert Inv(c2);
      ActivateNextKeeps(c2, env);
    }
  }

  lemma StartActivationKeeps(c: Ctl, selection: Selection, initiator: Principal, env: Env)
    requires Inv(c)
    ensures Inv(StartActivation(c, selection, initiator, env))
  {
    var c1 := if initiator.ExtensionUser? then c else c.(state := Connecting);
    var c2 := ClearRetryCounter(c1.(queue := [], handshake := false));
    ActivateInternalKeeps(c2, false, selection, initiator, env);
    assert ActivateInternal(c2, false, selection, initiator, env)
        == ActivateInternal(ClearRetryCounter(c1), false, selection, initiator, env);
  }

  lemma DoActivateKeeps(c: Ctl, data: ServerData, initiator: Principal, selection: Selection, env: Env)
    requires Inv(c)
    ensures Inv(DoActivate(c, data, initiator, selection, env).0)
  {
    var c1 := c.(switching := c.state.Switching? || c.state.SilentSwitching?, server := data);
    if c.state.Off? {
      if c.portal {
      } else if env.checkConnectivity && !env.reachable {
      } else {
      }
    } else if c.state.OnPartial? || c.state.Switching? || c.state.SilentSwitching? {
      StartActivationKeeps(c1, selection, initiator, env);
    }
  }

  lemma TearDownKeeps(c: Ctl)
    requires PartialInv(c) && 286 !in c.out.failed && 303 !in c.out.failed
    ensures Inv(TearDown(c))
  {
  }

  lemma ProcessNextStepFrame(c: Ctl)
    ensures var (d, final) := ProcessNextStep(c);
      && d == c.(nextStep := NoStep, out := d.out) && d.out == c.out.(signals := d.out.signals)
      && final == (c.nextStep.Quit? || c.nextStep.Update?)
  {
    match c.nextStep {
      case Quit =>
      case Update =>
      case Disconnect =>
      case NoStep =>
    }
  }

  lemma ProcessNextStepKeeps(c: Ctl)
    requires Inv(c)
    ensures Inv(ProcessNextStep(c).0)
  {
    hide Inv, ProcessNextStep;
    InvParts(c);
    ProcessNextStepFrame(c);
    SameCore(c, ProcessNextStep(c).0);
  }

  lemma OnDisconnectedKeeps(c: Ctl, env: Env)
    requires Inv(c)
    ensures Inv(OnDisconnected(c, env))
  {
    hide Resume, TearDown, ProcessNextStep, Inv;
    InvParts(c);
    TearDownKeeps(c);
    var c1 := TearDown(c);
    ProcessNextStepKeeps(c1);
    var (c2, final) := ProcessNextStep(c1);
    if final {
      SameCore(c2, c2.(state := Off));
    } else {
      ResumeKeeps(c2, c1.nextStep, env);
    }
  }

  lemma ResumeKeeps(c: Ctl, step: NextStep, env: Env)
    requires Inv(c)
    ensures Inv(Resume(c, step, env))
  {
    hide DoActivate, Inv;
    if step.NoStep? && c.state.SilentSwitching? {
      DoActivateKeeps(c, c.nextServer, c.initiator, c.nextSelection, env);
    } else if step.NoStep? && c.state.Switching? {
      DoActivateKeeps(c, c.nextServer, ClientUser, c.nextSelection, env);
    } else if c.state.Confirming? {
      SameCore(c, c.(initiator := Null, state := Off));
    } else {
      SameCore(c, Emit(c, EndTelemetry).(initiator := Null, state := Off));
    }
  }

  lemma InvParts(c: Ctl)
    requires Inv(c)
    ensures PartialInv(c) && 286 !in c.out.failed && 303 !in c.out.failed
  {
  }

  lemma PrepareDeactivateKeeps(c: Ctl)
    requires PartialInv(c) && 286 !in c.out.failed && 303 !in c.out.failed
    ensures Inv(PrepareDeactivate(c))
  {
    var c1 := if c.portal then Emit(c, CaptivePortalBlocked).(portal := false) else c;
    if c1.state.Switching? || c1.state.SilentSwitching? {
      TearDownKeeps(c1);
    } else {
      TearDownKeeps(c1.(state := Disconnecting));
    }
  }

  /** Whatever the queue and the timer held, an accepted deactivation ends in
      a state with all invariants. */
  lemma DoDeactivateKeeps(c: Ctl, who: Principal, env: Env)
    requires PartialInv(c) && 286 !in c.out.failed && 303 !in c.out.failed
    requires Inv(c) || DoDeactivate(c, who, env).1
    ensures Inv(DoDeactivate(c, who, env).0)
  {
    hide OnDisconnected, PrepareDeactivate;
    if DoDeactivate(c, who, env).1 {
      PrepareDeactivateKeeps(c);
      var c1 := PrepareDeactivate(c);
      if !c1.daemon.Ready? || StateToReason(c1.state).ReasonSwitching? {
        OnDisconnectedKeeps(c1, env);
      } else {
      }
    }
  }

  lemma EstablishedKeeps(c: Ctl, now: int)
    requires Inv(c)
    ensures Inv(Established(c, now))
  {
  }

  lemma OnConnectedKeeps(c: Ctl, key: Key, env: Env)
    requires Inv(c)
    ensures Inv(OnConnected(c, key, env))
  {
    hide DoDeactivate, Established, ActivateNext;
    if c.queue == [] && c.server.exitKey != key {
    } else if c.queue != [] && c.queue[0].key != key {
    } else if |c.queue| > 1 {
      var c1 := c.(queue := c.queue[1..]);
      assert LateExit(c1.queue) && Inv(c1);
      ActivateNextKeeps(c1, env);
    } else {
      EstablishedKeeps(c, env.now);
      DoDeactivateKeeps(Established(c, env.now), ClientUser, env);
    }
  }

  lemma OnHandshakeTimeoutKeeps(c: Ctl, env: Env)
    requires Inv(c) && c.handshake
    ensures Inv(OnHandshakeTimeout(c, env))
  {
    hide DoDeactivate, ActivateInternal;
    var c0 := c.(handshake := false);
    assert Inv(c0);
    if HasFinalStep(c0.nextStep) {
      DoDeactivateKeeps(c0, ClientUser, env);
    } else if c0.retry < 8 {
      RetryKeeps(c0);
      var c1 := Emit(c0.(retry := c0.retry + 1), AutoReactivation);
      ActivateInternalKeeps(c1, c1.retry == 1, Randomize, c1.initiator, env);
    } else {
      GiveUpKeeps(c);
    }
  }

  lemma RetryKeeps(c: Ctl)
    requires Inv(c) && c.retry < 8
    ensures Inv(Emit(c.(retry := c.retry + 1), AutoReactivation))
  {
  }

  /** Giving up leaves the queue waiting for a late handshake, timer stopped. */
  lemma GiveUpKeeps(c: Ctl)
    requires Inv(c) && c.handshake && c.retry >= 8
    ensures Inv(Emit(c.(handshake := false, retry := c.retry + 1), ServerUnavailable))
  {
  }

  lemma StartSwitchKeeps(c: Ctl, data: ServerData, selection: Selection, state: State, env: Env)
    requires Inv(c) && (state.Switching? || state.SilentSwitching?)
    ensures Inv(StartSwitch(c, data, selection, state, env))
  {
    hide DaemonDeactivate, PrepareDeactivate;
    var c1 := c.(switching := true, nextServer := data, nextSelection := selection);
    var c2 := ClearRetryCounter(ClearConnectedTime(c1)).(state := state);
    DoDeactivateKeeps(c2, ClientUser, env);
  }

  lemma ImplInitializedKeeps(c: Ctl, status: bool, connected: bool, date: Option<int>, now: int)
    requires Inv(c)
    ensures Inv(ImplInitialized(c, status, connected, date, now))
  {
    hide ProcessNextStep, Inv;
    ProcessNextStepKeeps(c);
    var c1 := ProcessNextStep(c).0;
    if !status {
      SameCore(c, c.(state := Off));
    } else if connected && !ProcessNextStep(c).1 {
      SameCore(c1, c1.(state := On, since := if date.Some? then date else Some(now), clock := true));
    } else {
      SameCore(c1, c1.(state := Off));
    }
  }

  lemma DaemonStepKeeps(c: Ctl, e: Event)
    requires Inv(c)
    requires FromDaemon(e)
    ensures Inv(Step(c, e))
  {
    hide Inv, OnDisconnected, OnConnected, ImplInitialized;
    InvParts(c);
    match e {
      case Initialize(data) => SameCore(c, Step(c, e));
      case BackendFailed(env) => ImplInitializedKeeps(c, false, false, None, env.now);
      case DaemonStatus(wellFormed, connected, date, env) =>
        var c1 := c.(daemon := Ready);
        SameCore(c, c1);
        ImplInitializedKeeps(c1, true, connected, date, env.now);
      case DaemonConnected(key, env) => OnConnectedKeeps(c, key, env);
      case DaemonDisconnected(env) =>
        var c1 := c.(daemonTimer := false);
        SameCore(c, c1);
        OnDisconnectedKeeps(c1, env);
      case SocketError(env) =>
        OnDisconnectedKeeps(c, env);
        var c1 := OnDisconnected(c, env);
        InvParts(c1);
        SameCore(c1, c1.(daemonTimer := true));
        SameCore(c, c.(daemonTimer := true));
      case DaemonTimerExpired => SameCore(c, Step(c, e));
    }
  }

  lemma ActivationStepKeeps(c: Ctl, e: Event)
    requires Inv(c)
    requires e.Activate? || e.AccountReply? || e.Switch? || e.SilentSwitch?
    ensures Inv(Step(c, e))
  {
    hide Inv, DoActivate, StartActivation, StartSwitch;
    InvParts(c);
    match e {
      case Activate(data, who, selection, env) => DoActivateKeeps(c, data, who, selection, env);
      case AccountReply(index, failed, appReady, env) =>
        if index < |c.pending| {
          var c1 := c.(pending := c.pending[..index] + c.pending[index + 1..]);
          SameCore(c, c1);
          StartActivationKeeps(c1, c.pending[index].selection, c.pending[index].initiator, env);
        }
      case Switch(data, env) => StartSwitchKeeps(c, data, Randomize, Switching, env);
      case SilentSwitch(coolDown, exitServers, env) =>
        var selection := if coolDown then Randomize else DoNotRandomize;
        StartSwitchKeeps(c, c.server, selection, SilentSwitching, env);
    }
  }

  lemma DoQuitKeeps(c: Ctl, env: Env)
    requires Inv(c)
    ensures Inv(DoQuit(c, env))
  {
    hide Inv, DoDeactivate;
    InvParts(c);
    var c1 := c.(nextStep := Quit);
    SameCore(c, c1);
    SameCore(c, Emit(c1, ReadyToQuit));
    InvParts(c1);
    DoDeactivateKeeps(c1, ClientUser, env);
  }

  lemma DoUpdateRequiredKeeps(c: Ctl, env: Env)
    requires Inv(c)
    ensures Inv(DoUpdateRequired(c, env))
  {
    hide Inv, DoDeactivate;
    InvParts(c);
    var c1 := c.(nextStep := Update);
    SameCore(c, c1);
    SameCore(c, Emit(c, ReadyToUpdate));
    InvParts(c1);
    DoDeactivateKeeps(c1, ClientUser, env);
  }

  lemma UserStepKeeps(c: Ctl, e: Event)
    requires Inv(c)
    requires e.Deactivate? || e.QuitRequest? || e.UpdateRequest? || e.PortalPresent? || e.PortalGone?
    ensures Inv(Step(c, e))
  {
    hide Inv, DoDeactivate, DoQuit, DoUpdateRequired;
    InvParts(c);
    match e {
      case Deactivate(who, env) => DoDeactivateKeeps(c, who, env);
      case QuitRequest(env) => DoQuitKeeps(c, env);
      case UpdateRequest(env) => DoUpdateRequiredKeeps(c, env);
      case PortalPresent => SameCore(c, c.(portal := true));
      case PortalGone => SameCore(c, c.(portal := false));
    }
  }

  /** Every event keeps the invariants. */
  lemma StepKeeps(c: Ctl, e: Event)
    requires Inv(c)
    ensures Inv(Step(c, e))
  {
    if FromDaemon(e) {
      DaemonStepKeeps(c, e);
    } else if e.HandshakeExpired? {
      hide OnHandshakeTimeout;
      if c.handshake {
        OnHandshakeTimeoutKeeps(c, e.env);
      }
    } else if e.Activate? || e.AccountReply? || e.Switch? || e.SilentSwitch? {
      hide DoActivate, OnAccountReply, StartSwitch;
      ActivationStepKeeps(c, e);
    } else if !e.ClockTick? {
      UserStepKeeps(c, e);
    }
  }

  lemma InitialHasInv(c: Ctl)
    requires Initial(c)
    ensures Inv(c)
  {
  }

  lemma {:induction false} RunKeeps(c: Ctl, events: seq<Event>)
    requires Inv(c)
    ensures Inv(Run(c, events))
    decreases |events|
  {
    hide Inv, Step;
    if events != [] {
      StepKeeps(c, events[0]);
      RunKeeps(Step(c, events[0]), events[1..]);
    }
  }

  // ------------------------------------------------------------------
  // Main results over runs
  // ------------------------------------------------------------------

  /** In every run, a running handshake timer means a pending hop with retries
      left (or a late exit hop), at most eight automatic re-activations happen
      between two clears of the counter, and handshakeTimeout's asserts hold. */
  lemma HandshakeTimerSafe(c0: Ctl, events: seq<Event>)
    requires Initial(c0)
    ensures var c := Run(c0, events);
      && (c.handshake ==> Shape(c.queue))
      && (c.handshake ==> c.retry <= 8 || (c.retry == 9 && LateExit(c.queue)))
      && c.out.reactivations <= 8
      && c.out.failed !! {286, 303}
  {
    InitialHasInv(c0);
    RunKeeps(c0, events);
  }

  /** In every run, StateOnPartial is only ever held for the extension. */
  lemma OnPartialIsExtension(c0: Ctl, events: seq<Event>)
    requires Initial(c0)
    ensures Run(c0, events).state.OnPartial? ==> Run(c0, events).initiator.ExtensionUser?
  {
    InitialHasInv(c0);
    RunKeeps(c0, events);
  }

  // ------------------------------------------------------------------
  // Switching servers
  // ------------------------------------------------------------------

  lemma ActivateNextMessages(c: Ctl, env: Env)
    requires c.queue != []
    ensures ActivateNext(c, env).out.messages
         == c.out.messages + (if env.device then [SentActivate(c.queue[0])] else [])
  {
    if env.device {
      if c.initiator.ExtensionUser? || c.state.SilentSwitching? {
      } else {
      }
    } else {
    }
  }

  lemma PlanNeedsExit(c: Ctl, forceDns: bool, selection: Selection, env: Env)
    ensures var plan := PlanHops(c, forceDns, selection, env);
      && (plan.Some? ==>
          ChooseServer(selection, c.server.exitKey, env.exitPick, env.exitKnown).Some? && plan.value != [])
  {
  }

  /** The messages an activation adds: the first hop's, or none. */
  lemma ActivateInternalMessages(c: Ctl, forceDns: bool, selection: Selection, initiator: Principal, env: Env)
    ensures var plan := PlanHops(c, forceDns, selection, env);
      (plan.Some? ==> plan.value != []) &&
      ActivateInternal(c, forceDns, selection, initiator, env).out.messages
      == c.out.messages +
         (if env.device && plan.Some? then [SentActivate(plan.value[0])] else [])
  {
    hide ActivateNext, PlanHops;
    var c1 := ClearConnectedTime(c.(initiator := initiator)).(handshake := false, queue := []);
    SamePlan(c, c1, forceDns, selection, env);
    PlanNeedsExit(c, forceDns, selection, env);
    var exit := ChooseServer(selection, c.server.exitKey, env.exitPick, env.exitKnown);
    var plan := PlanHops(c1, forceDns, selection, env);
    if exit.Some? && env.device && plan.Some? {
      var q := plan.value;
      var c2 := c1.(queue := q, server := c1.server.(entryKey := q[0].key, exitKey := q[|q| - 1].key));
      ActivateNextMessages(c2, env);
    } else if exit.None? {
    } else if !env.device {
    } else {
    }
  }

  /** The re-entrant chain deactivate, disconnected, activate of a switch. */
  lemma SwitchChain(c: Ctl, data: ServerData, selection: Selection, state: State, env: Env)
    requires state.Switching? || state.SilentSwitching?
    ensures var plan := PlanHops(c.(server := data), false, selection, env);
      StartSwitch(c, data, selection, state, env).out.messages
      == c.out.messages +
         (if c.nextStep.NoStep? && env.device && plan.Some? then [SentActivate(plan.value[0])] else [])
  {
    hide OnDisconnected, PlanHops, PrepareDeactivate;
    var c1 := c.(switching := true, nextServer := data, nextSelection := selection);
    var c2 := ClearRetryCounter(ClearConnectedTime(c1)).(state := state);
    var c3 := PrepareDeactivate(c2);
    SwitchTearDown(c2);
    assert StartSwitch(c, data, selection, state, env) == OnDisconnected(c3, env);
    DisconnectedSwitch(c3, env);
    SamePlan(c.(server := data), c3.(server := data), false, selection, env);
  }

  /** The second half of a switch sends the first hop of the next server. */
  lemma DisconnectedSwitch(c: Ctl, env: Env)
    requires c.state.Switching? || c.state.SilentSwitching?
    ensures var plan := PlanHops(c.(server := c.nextServer), false, c.nextSelection, env);
      OnDisconnected(c, env).out.messages == c.out.messages +
        (if c.nextStep.NoStep? && env.device && plan.Some? then [SentActivate(plan.value[0])] else [])
  {
    hide Resume, PlanHops, TearDown, ProcessNextStep;
    var c1 := TearDown(c);
    TearDownFrame(c);
    ProcessNextStepFrame(c1);
    var c2 := ProcessNextStep(c1).0;
    ResumeSwitch(c2, c1.nextStep, env);
    SamePlan(c2.(server := c2.nextServer), c.(server := c.nextServer), false, c.nextSelection, env);
  }

  lemma TearDownFrame(c: Ctl)
    ensures var d := TearDown(c);
      && d.out.messages == c.out.messages && d.state == c.state && d.nextStep == c.nextStep
      && d.nextServer == c.nextServer && d.nextSelection == c.nextSelection
  {
  }

  lemma ResumeSwitch(c: Ctl, step: NextStep, env: Env)
    requires c.state.Switching? || c.state.SilentSwitching?
    ensures var plan := PlanHops(c.(server := c.nextServer), false, c.nextSelection, env);
      Resume(c, step, env).out.messages == c.out.messages +
        (if step.NoStep? && env.device && plan.Some? then [SentActivate(plan.value[0])] else [])
  {
    hide DoActivate, PlanHops;
    ActivateFromSwitch(c, if c.state.SilentSwitching? then c.initiator else ClientUser, env);
  }

  lemma SwitchTearDown(c: Ctl)
    requires c.state.Switching? || c.state.SilentSwitching?
    ensures var d := PrepareDeactivate(c);
      && d.out.messages == c.out.messages && d.state == c.state && d.nextStep == c.nextStep
      && d.nextServer == c.nextServer && d.nextSelection == c.nextSelection
      && d.initiator == c.initiator
  {
    if c.portal {
    } else {
    }
  }

  lemma SamePlan(c: Ctl, d: Ctl, forceDns: bool, selection: Selection, env: Env)
    requires c.server == d.server
    ensures PlanHops(c, forceDns, selection, env) == PlanHops(d, forceDns, selection, env)
  {
  }

  lemma ActivateFromSwitch(c: Ctl, who: Principal, env: Env)
    requires c.state.Switching? || c.state.SilentSwitching?
    ensures var plan := PlanHops(c.(server := c.nextServer), false, c.nextSelection, env);
      DoActivate(c, c.nextServer, who, c.nextSelection, env).0.out.messages
      == c.out.messages + (if env.device && plan.Some? then [SentActivate(plan.value[0])] else [])
  {
    hide ActivateInternal, PlanHops;
    var c1 := c.(switching := true, server := c.nextServer);
    var c2 := ClearRetryCounter(if who.ExtensionUser? then c1 else c1.(state := Connecting));
    ActivateInternalMessages(c2, false, c.nextSelection, who, env);
    SamePlan(c2, c.(server := c.nextServer), false, c.nextSelection, env);
  }

  /** A switch never sends "deactivate"; it sends one "activate", for the first
      hop to the new location, which is the weighted pick, exactly when it is
      accepted, no other step is pending and servers and a device are available. */
  lemma SwitchSendsOneActivate(c: Ctl, data: ServerData, env: Env)
    ensures var (c', accepted) := SwitchServers(c, data, env);
      && accepted == !c.state.Off?
      && SendsFirst(c.out.messages, c'.out.messages, accepted && c.nextStep.NoStep? && env.device,
                    data, false, Randomize, env)
  {
    hide StartSwitch, PlanHops, SendsFirst;
    var (d, accepted) := SwitchServers(c, data, env);
    SwitchChain(c, data, Randomize, Switching, env);
    PlanNeedsExit(c.(server := data), false, Randomize, env);
    SendsFirstOf(c.(server := data), c.out.messages, d.out.messages,
                 accepted && c.nextStep.NoStep? && env.device, false, Randomize, env);
  }

  /** A silent switch likewise, for the current location: with a cool-down to the
      weighted pick, without one to the recorded servers. */
  lemma SilentSwitchSendsOneActivate(c: Ctl, coolDown: bool, exitServers: nat, env: Env)
    ensures var (c', accepted) := SilentSwitchServers(c, coolDown, exitServers, env);
      && accepted == (c.state.On? && !(coolDown && exitServers <= 1))
      && SendsFirst(c.out.messages, c'.out.messages, accepted && c.nextStep.NoStep? && env.device,
                    c.server, false, if coolDown then Randomize else DoNotRandomize, env)
  {
    hide StartSwitch, PlanHops, SendsFirst;
    var selection := if coolDown then Randomize else DoNotRandomize;
    var (d, accepted) := SilentSwitchServers(c, coolDown, exitServers, env);
    SwitchChain(c, c.server, selection, SilentSwitching, env);
    assert c.(server := c.server) == c;
    PlanNeedsExit(c, false, selection, env);
    SendsFirstOf(c, c.out.messages, d.out.messages,
                 accepted && c.nextStep.NoStep? && env.device, false, selection, env);
  }

  /** A retry after a handshake timeout sends the weighted pick, on port 53 the
      first time; the ninth attempt sends nothing. */
  lemma RetrySendsPick(c: Ctl, env: Env)
    requires Inv(c) && c.handshake && !HasFinalStep(c.nextStep)
    ensures var d := OnHandshakeTimeout(c, env);
      SendsFirst(c.out.messages, d.out.messages, c.retry < 8 && env.device, c.server, c.retry == 0, Randomize, env)
  {
    hide SendsFirst, Retry, DoDeactivate;
    RetrySends(c.(handshake := false, retry := c.retry + 1), env);
  }

  lemma RetrySends(c: Ctl, env: Env)
    requires c.retry > 0
    ensures SendsFirst(c.out.messages, Retry(c, env).out.messages, c.retry < 9 && env.device,
                       c.server, c.retry == 1, Randomize, env)
  {
    hide PlanHops, SendsFirst, ActivateInternal;
    var c1 := Emit(c, AutoReactivation);
    PlanNeedsExit(c1, c.retry == 1, Randomize, env);
    ActivateInternalMessages(c1, c.retry == 1, Randomize, c.initiator, env);
    SendsFirstOf(c1, c.out.messages, Retry(c, env).out.messages, c.retry < 9 && env.device,
                 c.retry == 1, Randomize, env);
  }

  /** What an activation leaves when hops lead to its location: they are queued
      and their ends recorded. */
  lemma ActivationRecords(c: Ctl, forceDns: bool, selection: Selection, who: Principal, env: Env, hops: seq<Hop>)
    requires env.device && LeadsTo(c.server, forceDns, selection, env, hops)
    ensures var d := ActivateInternal(c, forceDns, selection, who, env);
      && hops != [] && d.queue == hops && d.handshake && d.initiator == who
      && d.server == c.server.(entryKey := hops[0].key, exitKey := hops[|hops| - 1].key)
      && d.state == (if who.ExtensionUser? || c.state.SilentSwitching? then c.state else Confirming)
  {
    hide PlanHops, ChooseServer, LeadsTo;
    PlanLeads(c, forceDns, selection, env, hops);
    PlanHopsShape(c, forceDns, selection, env);
    PlanNeedsExit(c, forceDns, selection, env);
    var c1 := ClearConnectedTime(c.(initiator := who)).(handshake := false, queue := []);
    SamePlan(c, c1, forceDns, selection, env);
    assert ActivateInternal(c, forceDns, selection, who, env) == Launch(c1, hops, env);
  }

  /** And when it cannot start: without a server it says so; without a device it
      leaves a disconnect as the next step. */
  lemma ActivationFails(c: Ctl, forceDns: bool, selection: Selection, who: Principal, env: Env)
    requires !env.device || forall hops :: !LeadsTo(c.server, forceDns, selection, env, hops)
    ensures var d := ActivateInternal(c, forceDns, selection, who, env);
      && d.queue == [] && !d.handshake && !d.clock && d.out.messages == c.out.messages
      && if CanServe(selection, c.server.exitKey, env.exitPick, env.exitKnown) && !env.device
         then d.nextStep == Disconnect && d.out.signals == c.out.signals
         else d.nextStep == c.nextStep && d.out.signals == c.out.signals + [ServerUnavailable]
  {
    hide PlanHops, ChooseServer, LeadsTo;
    ChoiceIsWanted(selection, c.server.exitKey, env.exitPick, env.exitKnown, "");
    var c1 := ClearConnectedTime(c.(initiator := who)).(handshake := false, queue := []);
    var plan := PlanHops(c1, forceDns, selection, env);
    if plan.Some? {
      PlanLeads(c1, forceDns, selection, env, plan.value);
    }
  }

  // ------------------------------------------------------------------
  // The connected-since time across switches
  // ------------------------------------------------------------------

  /** d still is in the session that c was in. */
  ghost predicate SameSession(c: Ctl, d: Ctl) {
    d.switching && d.since == c.since && d.out.starts == c.out.starts
  }

  /** The events that may end a session: an activate accepted while off or
      partly on, and a backend that initialises as connected. */
  predicate EndsSession(c: Ctl, e: Event) {
    || (e.Activate? && (c.state.Off? || c.state.OnPartial?))
    || (e.DaemonStatus? && c.daemon.DaemonInitializing? && e.connected)
  }

  lemma ActivateInternalSession(c: Ctl, forceDns: bool, selection: Selection, initiator: Principal,
                                env: Env)
    requires c.switching
    ensures SameSession(c, ActivateInternal(c, forceDns, selection, initiator, env))
  {
    hide PlanHops;
    var exit := ChooseServer(selection, c.server.exitKey, env.exitPick, env.exitKnown);
    var c1 := ClearConnectedTime(c.(initiator := initiator)).(handshake := false, queue := []);
    var plan := PlanHops(c1, forceDns, selection, env);
    if exit.None? {
    } else if !env.device {
    } else if plan.None? {
    } else {
      var q := plan.value;
      assert q != [] by { PlanHopsShape(c1, forceDns, selection, env); }
      var c2 := c1.(queue := q, server := c1.server.(entryKey := q[0].key, exitKey := q[|q| - 1].key));
      ActivateNextSession(c2, env);
    }
  }

  lemma ActivateNextSession(c: Ctl, env: Env)
    requires c.switching && c.queue != []
    ensures SameSession(c, ActivateNext(c, env))
  {
    if env.device {
      if c.initiator.ExtensionUser? || c.state.SilentSwitching? {
      } else {
      }
    } else {
    }
  }

  lemma StartActivationSession(c: Ctl, selection: Selection, initiator: Principal, env: Env)
    requires c.switching
    ensures SameSession(c, StartActivation(c, selection, initiator, env))
  {
    hide ActivateInternal;
    var c1 := if initiator.ExtensionUser? then c else c.(state := Connecting);
    ActivateInternalSession(ClearRetryCounter(c1), false, selection, initiator, env);
  }

  lemma OnDisconnectedSession(c: Ctl, env: Env)
    requires c.switching
    ensures SameSession(c, OnDisconnected(c, env))
  {
    hide StartActivation, ProcessNextStep;
    var c1 := TearDown(c);
    ProcessNextStepFrame(c1);
    var c2 := ProcessNextStep(c1).0;
    if c1.nextStep.NoStep? && (c2.state.Switching? || c2.state.SilentSwitching?) {
      var who := if c2.state.SilentSwitching? then c2.initiator else ClientUser;
      StartActivationSession(c2.(server := c2.nextServer), c2.nextSelection, who, env);
    } else if ProcessNextStep(c1).1 {
    } else if c2.state.Confirming? {
    } else {
    }
  }

  lemma DoDeactivateSession(c: Ctl, who: Principal, env: Env)
    requires c.switching
    ensures SameSession(c, DoDeactivate(c, who, env).0)
  {
    hide OnDisconnected, PrepareDeactivate;
    PrepareSession(c);
    var c1 := PrepareDeactivate(c);
    OnDisconnectedSession(c1, env);
    if DoDeactivate(c, who, env).1 {
      if !c1.daemon.Ready? || StateToReason(c1.state).ReasonSwitching? {
      } else {
      }
    }
  }

  lemma PrepareSession(c: Ctl)
    requires c.switching
    ensures SameSession(c, PrepareDeactivate(c))
  {
    if c.portal {
    } else {
    }
  }

  lemma OnConnectedSession(c: Ctl, key: Key, env: Env)
    requires c.switching
    ensures SameSession(c, OnConnected(c, key, env))
  {
    hide DoDeactivate, ActivateNext;
    if c.queue == [] && c.server.exitKey != key {
    } else if c.queue != [] && c.queue[0].key != key {
    } else if |c.queue| > 1 {
      ActivateNextSession(c.(queue := c.queue[1..]), env);
    } else {
      DoDeactivateSession(Established(c, env.now), ClientUser, env);
    }
  }

  lemma OnHandshakeTimeoutSession(c: Ctl, env: Env)
    requires c.switching
    ensures SameSession(c, OnHandshakeTimeout(c, env))
  {
    hide DoDeactivate, Retry;
    var c0 := c.(handshake := false);
    var c1 := c0.(retry := c0.retry + 1);
    DoDeactivateSession(c0, ClientUser, env);
    RetrySession(c1, env);
  }

  lemma RetrySession(c: Ctl, env: Env)
    requires c.switching
    ensures SameSession(c, Retry(c, env))
  {
    hide ActivateInternal;
    ActivateInternalSession(Emit(c, AutoReactivation), c.retry == 1, Randomize, c.initiator, env);
  }

  /** A switch itself starts such a stretch, whatever the flag was before. */
  lemma StartSwitchSession(c: Ctl, data: ServerData, selection: Selection, state: State, env: Env)
    ensures SameSession(c, StartSwitch(c, data, selection, state, env))
  {
    hide DoDeactivate;
    var c1 := c.(switching := true, nextServer := data, nextSelection := selection);
    DoDeactivateSession(ClearRetryCounter(ClearConnectedTime(c1)).(state := state), ClientUser, env);
  }

  lemma DoActivateSession(c: Ctl, data: ServerData, who: Principal, selection: Selection, env: Env)
    requires c.switching && !c.state.Off? && !c.state.OnPartial?
    ensures SameSession(c, DoActivate(c, data, who, selection, env).0)
  {
    hide StartActivation;
    if c.state.Switching? || c.state.SilentSwitching? {
      StartActivationSession(c.(switching := true, server := data), selection, who, env);
    }
  }

  lemma DaemonStepSession(c: Ctl, e: Event)
    requires c.switching && !EndsSession(c, e)
    requires FromDaemon(e)
    ensures SameSession(c, Step(c, e))
  {
    hide OnDisconnected, OnConnected, ProcessNextStep;
    match e {
      case DaemonStatus(wellFormed, connected, date, env) =>
        ProcessNextStepFrame(c.(daemon := Ready));
      case DaemonConnected(key, env) => OnConnectedSession(c, key, env);
      case DaemonDisconnected(env) => OnDisconnectedSession(c.(daemonTimer := false), env);
      case SocketError(env) => OnDisconnectedSession(c, env);
      case _ =>
    }
  }

  lemma UserStepSession(c: Ctl, e: Event)
    requires c.switching && !EndsSession(c, e)
    requires !FromDaemon(e) && !e.HandshakeExpired? && !e.ClockTick?
    ensures SameSession(c, Step(c, e))
  {
    hide DoActivate, DoDeactivate, StartActivation, StartSwitch;
    match e {
      case Activate(data, who, selection, env) => DoActivateSession(c, data, who, selection, env);
      case Deactivate(who, env) => DoDeactivateSession(c, who, env);
      case AccountReply(index, failed, appReady, env) =>
        if index < |c.pending| {
          var c1 := c.(pending := c.pending[..index] + c.pending[index + 1..]);
          StartActivationSession(c1, c.pending[index].selection, c.pending[index].initiator, env);
        }
      case Switch(data, env) => StartSwitchSession(c, data, Randomize, Switching, env);
      case SilentSwitch(coolDown, exitServers, env) =>
        var selection := if coolDown then Randomize else DoNotRandomize;
        StartSwitchSession(c, c.server, selection, SilentSwitching, env);
      case QuitRequest(env) => DoDeactivateSession(c.(nextStep := Quit), ClientUser, env);
      case UpdateRequest(env) => DoDeactivateSession(c.(nextStep := Update), ClientUser, env);
      case PortalPresent =>
      case PortalGone =>
    }
  }

  lemma StepSession(c: Ctl, e: Event)
    requires c.switching && !EndsSession(c, e)
    ensures SameSession(c, Step(c, e))
  {
    if FromDaemon(e) {
      DaemonStepSession(c, e);
    } else if e.HandshakeExpired? {
      hide OnHandshakeTimeout;
      OnHandshakeTimeoutSession(c, e.env);
    } else if !e.ClockTick? {
      UserStepSession(c, e);
    }
  }

  /** No event of the run ends the session. */
  ghost predicate KeepsSession(c: Ctl, events: seq<Event>)
    decreases |events|
  {
    events == [] || (!EndsSession(c, events[0]) && KeepsSession(Step(c, events[0]), events[1..]))
  }

  /** Once a switch has set isSwitchingServer, the connected-since time stands
      still and no session start is reported, however the run goes on, until
      an event that ends the session. */
  lemma {:induction false} SessionSurvivesSwitches(c: Ctl, events: seq<Event>)
    requires c.switching && KeepsSession(c, events)
    ensures SameSession(c, Run(c, events))
    decreases |events|
  {
    hide Step;
    if events != [] {
      StepSession(c, events[0]);
      SessionSurvivesSwitches(Step(c, events[0]), events[1..]);
    }
  }

  // ------------------------------------------------------------------
  // The assert of timerTimeout (line 231)
  // ------------------------------------------------------------------

  /** What timerTimeout asserts whenever the one-second clock fires. */
  ghost predicate ClockRight(c: Ctl) {
    c.clock ==> c.state.On? || c.state.OnPartial?
  }

  /** The event leaves the clock running in another state: the backend
      (re)initialises as anything but connected, or a handshake that is not the
      last starts the next hop of an activation by the client. */
  predicate BreaksClock(c: Ctl, e: Event) {
    c.clock &&
    match e
    case Initialize(_) => true
    case BackendFailed(_) => true
    case DaemonStatus(wellFormed, connected, date, _) =>
      c.daemon.DaemonInitializing? && wellFormed && !(connected && date.None?)
      && (!connected || c.nextStep.Quit? || c.nextStep.Update?)
    case DaemonConnected(key, env) =>
      c.daemon.Ready? && |c.queue| > 1 && c.queue[0].key == key && env.device && !c.initiator.ExtensionUser?
    case _ => false
  }

  lemma ActivationStopsClock(c: Ctl, forceDns: bool, selection: Selection, initiator: Principal, env: Env)
    ensures !ActivateInternal(c, forceDns, selection, initiator, env).clock
  {
    hide PlanHops, ChooseServer, ActivateNext;
    var c1 := ClearConnectedTime(c.(initiator := initiator)).(handshake := false, queue := []);
    var plan := PlanHops(c1, forceDns, selection, env);
    if env.device && plan.Some? {
      PlanHopsShape(c1, forceDns, selection, env);
      var q := plan.value;
      ActivateNextFrame(c1.(queue := q, server := c1.server.(entryKey := q[0].key, exitKey := q[|q| - 1].key)), env);
    }
  }

  /** What sending a hop leaves alone. */
  lemma ActivateNextFrame(c: Ctl, env: Env)
    requires c.queue != []
    ensures var d := ActivateNext(c, env);
      && d.clock == c.clock && d.nextStep == c.nextStep
      && (d.out.signals == c.out.signals || d.out.signals == c.out.signals + [ResetRequested])
  {
    if !env.device {
    } else if c.initiator.ExtensionUser? || c.state.SilentSwitching? {
    } else {
    }
  }

  lemma DisconnectedStopsClock(c: Ctl, env: Env)
    ensures !OnDisconnected(c, env).clock
  {
    hide ActivateInternal, ProcessNextStep;
    ProcessNextStepFrame(TearDown(c));
    var c1 := ProcessNextStep(TearDown(c)).0;
    var c2 := c1.(switching := c1.state.Switching? || c1.state.SilentSwitching?, server := c1.nextServer);
    var who := if c1.state.SilentSwitching? then c1.initiator else ClientUser;
    var c3 := ClearRetryCounter(if who.ExtensionUser? then c2 else c2.(state := Connecting));
    ActivationStopsClock(c3, false, c1.nextSelection, who, env);
    if c1.state.SilentSwitching? {
    } else if c1.state.Switching? {
    } else {
    }
  }

  lemma DeactivateStopsClock(c: Ctl, who: Principal, env: Env)
    requires DoDeactivate(c, who, env).1
    ensures !DoDeactivate(c, who, env).0.clock
  {
    hide OnDisconnected;
    DisconnectedStopsClock(PrepareDeactivate(c), env);
  }

  lemma ConnectedClock(c: Ctl, key: Key, env: Env)
    requires ClockRight(c) && c.daemon.Ready?
    ensures ClockRight(OnConnected(c, key, env)) <==> !BreaksClock(c, DaemonConnected(key, env))
  {
    hide DoDeactivate, Established, ActivateNext;
    if c.queue == [] && c.server.exitKey != key {
    } else if c.queue != [] && c.queue[0].key != key {
    } else if |c.queue| > 1 {
      NextHopClock(c.(queue := c.queue[1..]), env);
    } else {
      var c1 := Established(c, env.now);
      assert c1.clock && (c1.state.On? || c1.state.OnPartial?) by { EstablishedClock(c, env.now); }
      if HasFinalStep(c1.nextStep) {
        assert DoDeactivate(c1, ClientUser, env).1 by { EstablishedCanStop(c, env); }
        DeactivateStopsClock(c1, ClientUser, env);
      }
    }
  }

  lemma NextHopClock(c: Ctl, env: Env)
    requires c.queue != [] && ClockRight(c)
    ensures ClockRight(ActivateNext(c, env)) <==> !(c.clock && env.device && !c.initiator.ExtensionUser?)
  {
  }

  lemma EstablishedClock(c: Ctl, now: int)
    ensures var d := Established(c, now); d.clock && (d.state.On? || d.state.OnPartial?)
  {
  }

  lemma EstablishedCanStop(c: Ctl, env: Env)
    ensures DoDeactivate(Established(c, env.now), ClientUser, env).1
  {
    hide DaemonDeactivate, PrepareDeactivate;
  }

  lemma TimeoutClock(c: Ctl, env: Env)
    requires ClockRight(c)
    ensures ClockRight(OnHandshakeTimeout(c, env))
  {
    hide DoDeactivate, Retry;
    var c0 := c.(handshake := false);
    var c1 := c0.(retry := c0.retry + 1);
    DeactivateClock(c0, ClientUser, env);
    RetryClock(c1, env);
  }

  lemma RetryClock(c: Ctl, env: Env)
    requires ClockRight(c)
    ensures ClockRight(Retry(c, env))
  {
    hide ActivateInternal;
    ActivationStopsClock(Emit(c, AutoReactivation), c.retry == 1, Randomize, c.initiator, env);
  }

  lemma DeactivateClock(c: Ctl, who: Principal, env: Env)
    requires ClockRight(c)
    ensures ClockRight(DoDeactivate(c, who, env).0)
  {
    hide DaemonDeactivate, PrepareDeactivate;
    if DoDeactivate(c, who, env).1 {
      DeactivateStopsClock(c, who, env);
    }
  }

  lemma StartActivationClock(c: Ctl, selection: Selection, who: Principal, env: Env)
    ensures !StartActivation(c, selection, who, env).clock
  {
    hide ActivateInternal;
    var c1 := if who.ExtensionUser? then c else c.(state := Connecting);
    ActivationStopsClock(ClearRetryCounter(c1), false, selection, who, env);
  }

  lemma StartSwitchClock(c: Ctl, data: ServerData, selection: Selection, state: State, env: Env)
    ensures !StartSwitch(c, data, selection, state, env).clock
  {
    hide DoDeactivate;
    var c1 := c.(switching := true, nextServer := data, nextSelection := selection);
    var c2 := ClearRetryCounter(ClearConnectedTime(c1)).(state := state);
    if DoDeactivate(c2, ClientUser, env).1 {
      DeactivateStopsClock(c2, ClientUser, env);
    } else {
      RefusedIsIdle(c2, ClientUser, env);
    }
  }

  lemma RefusedIsIdle(c: Ctl, who: Principal, env: Env)
    requires !DoDeactivate(c, who, env).1
    ensures DoDeactivate(c, who, env).0 == c
  {
    hide DaemonDeactivate, PrepareDeactivate;
  }

  lemma UserStepClock(c: Ctl, e: Event)
    requires ClockRight(c) && !FromDaemon(e) && !e.HandshakeExpired?
    ensures ClockRight(Step(c, e))
  {
    hide DoDeactivate, StartActivation, StartSwitch;
    match e {
      case Activate(data, who, selection, env) =>
        var c1 := c.(switching := c.state.Switching? || c.state.SilentSwitching?, server := data);
        StartActivationClock(c1, selection, who, env);
        if c.state.Off? {
        } else {
        }
      case Deactivate(who, env) => DeactivateClock(c, who, env);
      case AccountReply(index, failed, appReady, env) =>
        if index < |c.pending| {
          var c1 := c.(pending := c.pending[..index] + c.pending[index + 1..]);
          StartActivationClock(c1, c.pending[index].selection, c.pending[index].initiator, env);
        }
      case Switch(data, env) => StartSwitchClock(c, data, Randomize, Switching, env);
      case SilentSwitch(coolDown, exitServers, env) =>
        var selection := if coolDown then Randomize else DoNotRandomize;
        StartSwitchClock(c, c.server, selection, SilentSwitching, env);
      case QuitRequest(env) => DeactivateClock(c.(nextStep := Quit), ClientUser, env);
      case UpdateRequest(env) => DeactivateClock(c.(nextStep := Update), ClientUser, env);
      case _ =>
    }
  }

  lemma StatusClock(c: Ctl, wellFormed: bool, connected: bool, date: Option<int>, env: Env)
    requires ClockRight(c)
    ensures ClockRight(OnStatus(c, wellFormed, connected, date, env))
       <==> !BreaksClock(c, DaemonStatus(wellFormed, connected, date, env))
  {
    hide ProcessNextStep;
    ProcessNextStepFrame(c.(daemon := Ready));
    if !c.daemon.DaemonInitializing? {
    } else if !wellFormed || (connected && date.None?) {
    } else {
    }
  }

  lemma DaemonStepClock(c: Ctl, e: Event)
    requires ClockRight(c) && FromDaemon(e)
    ensures ClockRight(Step(c, e)) <==> !BreaksClock(c, e)
  {
    hide OnDisconnected, OnConnected, OnStatus;
    match e {
      case DaemonStatus(wellFormed, connected, date, env) =>
        StatusClock(c, wellFormed, connected, date, env);
      case DaemonConnected(key, env) =>
        if c.daemon.Ready? {
          ConnectedClock(c, key, env);
        }
      case DaemonDisconnected(env) => DisconnectedStopsClock(c.(daemonTimer := false), env);
      case SocketError(env) => DisconnectedStopsClock(c, env);
      case _ =>
    }
  }

  /** The exact step: the assert stays right if and only if the event is none of
      those. */
  lemma StepClock(c: Ctl, e: Event)
    requires ClockRight(c)
    ensures ClockRight(Step(c, e)) <==> !BreaksClock(c, e)
  {
    if FromDaemon(e) {
      DaemonStepClock(c, e);
    } else if e.HandshakeExpired? {
      hide OnHandshakeTimeout;
      TimeoutClock(c, e.env);
    } else {
      UserStepClock(c, e);
    }
  }

  /** No event of the run breaks the clock. */
  ghost predicate KeepsClock(c: Ctl, events: seq<Event>)
    decreases |events|
  {
    events == [] || (!BreaksClock(c, events[0]) && KeepsClock(Step(c, events[0]), events[1..]))
  }

  /** Over every run: the assert of timerTimeout holds at every point, should the
      timer fire there, if and only if no event of the run breaks the clock. */
  lemma {:induction false} ClockAssertIff(c: Ctl, events: seq<Event>)
    requires ClockRight(c)
    ensures KeepsClock(c, events) <==> forall k :: 0 <= k <= |events| ==> ClockRight(Run(c, events[..k]))
    decreases |events|
  {
    hide Step, ClockRight, BreaksClock;
    assert events[..0] == [] && Run(c, []) == c;
    if events != [] {
      var c1, rest := Step(c, events[0]), events[1..];
      StepClock(c, events[0]);
      forall k: nat | k <= |rest| ensures Run(c, events[..k + 1]) == Run(c1, rest[..k]) {
        assert events[..k + 1][1..] == rest[..k];
      }
      assert rest[..0] == [] && Run(c1, rest[..0]) == c1;
      if ClockRight(c1) {
        ClockAssertIff(c1, rest);
        if KeepsClock(c1, rest) {
          forall k | 0 <= k <= |events| ensures ClockRight(Run(c, events[..k])) {
            if k > 0 {
              assert ClockRight(Run(c1, rest[..k - 1]));
              assert Run(c, events[..(k - 1) + 1]) == Run(c1, rest[..k - 1]);
            }
          }
        } else {
          var k :| 0 <= k <= |rest| && !ClockRight(Run(c1, rest[..k]));
          assert !ClockRight(Run(c, events[..k + 1]));
        }
      } else {
        assert !ClockRight(Run(c, events[..0 + 1]));
      }
    }
  }

  /** The timer firing fails the assert exactly where ClockRight does not hold. */
  lemma TickFails(c: Ctl)
    ensures 231 in Step(c, ClockTick).out.failed <==> 231 in c.out.failed || !ClockRight(c)
  {
  }

  lemma {:induction false} RunAppend(c: Ctl, before: seq<Event>, after: seq<Event>)
    ensures Run(c, before + after) == Run(Run(c, before), after)
    decreases |before|
  {
    hide Step;
    if before == [] {
      assert before + after == after;
    } else {
      assert (before + after)[1..] == before[1..] + after;
      RunAppend(Step(c, before[0]), before[1..], after);
    }
  }

  lemma RunOne(c: Ctl, e: Event)
    ensures Run(c, [e]) == Step(c, e)
  {
    hide Step;
    assert Run(Step(c, e), []) == Step(c, e);
    assert [e][1..] == [];
  }

  const SAMPLE := ServerData(0, false, "", "")
  const SAMPLE_ENV := Env(Some("exit"), true, None, false, true, true, true, false, false, true, 0)

  /** A daemon that starts up idle and then loses a status reply. */
  lemma LostStatusReply(c: Ctl)
    requires Initial(c)
    ensures var d := Step(Step(Step(c, Initialize(SAMPLE)),
                               DaemonStatus(true, false, None, SAMPLE_ENV)), SocketError(SAMPLE_ENV));
      d.state.Off? && d.daemon.Ready? && d.daemonTimer && d.pending == [] && !d.portal
      && d.nextStep.NoStep?
  {
    var c1 := Step(c, Initialize(SAMPLE));
    assert c1.daemon.DaemonInitializing? && c1.nextStep.NoStep? && c1.pending == [] && !c1.portal;
    var c2 := Step(c1, DaemonStatus(true, false, None, SAMPLE_ENV));
    assert c2.state.Off? && c2.daemon.Ready? && c2.nextStep.NoStep? && c2.pending == [] && !c2.portal;
  }

  /** Meanwhile the client asks for a connection and gets it. */
  lemma ConnectsMeanwhile(c: Ctl)
    requires c.state.Off? && c.daemon.Ready? && c.daemonTimer && c.pending == [] && !c.portal
    requires c.nextStep.NoStep?
    ensures var d := Step(Step(Step(c, Activate(SAMPLE, ClientUser, Randomize, SAMPLE_ENV)),
                               AccountReply(0, false, true, SAMPLE_ENV)),
                          DaemonConnected("exit", SAMPLE_ENV));
      d.state.On? && d.clock && d.daemon.Ready? && d.daemonTimer && d.nextStep.NoStep?
  {
    hide DoActivate, OnAccountReply;
    RequestedMeanwhile(c);
  }

  lemma RequestedMeanwhile(c: Ctl)
    requires c.state.Off? && c.daemon.Ready? && c.daemonTimer && c.pending == [] && !c.portal
    requires c.nextStep.NoStep?
    ensures var d := Step(Step(c, Activate(SAMPLE, ClientUser, Randomize, SAMPLE_ENV)),
                          AccountReply(0, false, true, SAMPLE_ENV));
      && d.queue == [Hop(SingleHop, "exit", false)] && d.initiator.ClientUser?
      && d.daemon.Ready? && d.daemonTimer && d.nextStep.NoStep?
  {
    var c1 := Step(c, Activate(SAMPLE, ClientUser, Randomize, SAMPLE_ENV));
    assert c1.pending == [Check(Randomize, ClientUser)] && c1.server == SAMPLE;
  }

  /** The reconnected daemon reports itself as not connected. */
  lemma ReportsOff(c: Ctl)
    requires c.state.On? && c.clock && c.daemon.Ready? && c.daemonTimer && c.nextStep.NoStep?
    ensures 231 in Step(Step(Step(c, DaemonTimerExpired),
                             DaemonStatus(true, false, None, SAMPLE_ENV)), ClockTick).out.failed
  {
    var c1 := Step(c, DaemonTimerExpired);
    assert c1.daemon.DaemonInitializing? && c1.clock && c1.nextStep.NoStep?;
    var c2 := Step(c1, DaemonStatus(true, false, None, SAMPLE_ENV));
    assert c2.state.Off? && c2.clock;
  }

  /** Without that condition the assert can fail, from any initial state: a
      connection comes up in the half second between a lost status reply and
      the new connection to the daemon. */
  lemma ClockAssertCanFail(c: Ctl)
    requires Initial(c)
    ensures exists events :: 231 in Run(c, events).out.failed
  {
    hide Step;
    var es := [Initialize(SAMPLE), DaemonStatus(true, false, None, SAMPLE_ENV), SocketError(SAMPLE_ENV),
               Activate(SAMPLE, ClientUser, Randomize, SAMPLE_ENV),
               AccountReply(0, false, true, SAMPLE_ENV), DaemonConnected("exit", SAMPLE_ENV),
               DaemonTimerExpired, DaemonStatus(true, false, None, SAMPLE_ENV), ClockTick];
    LostStatusReply(c);
    var c3 := Step(Step(Step(c, es[0]), es[1]), es[2]);
    ConnectsMeanwhile(c3);
    var c6 := Step(Step(Step(c3, es[3]), es[4]), es[5]);
    ReportsOff(c6);
    RunThree(c, es[0], es[1], es[2]);
    RunThree(c3, es[3], es[4], es[5]);
    RunThree(c6, es[6], es[7], es[8]);
    assert es[..3] == [es[0], es[1], es[2]];
    assert es[3..6] == [es[3], es[4], es[5]] && es[6..] == [es[6], es[7], es[8]];
    RunAppend(c, es[..3], es[3..]);
    RunAppend(c3, es[3..6], es[6..]);
    assert es == es[..3] + es[3..] && es[3..] == es[3..6] + es[6..];
    assert 231 in Run(c, es).out.failed;
  }

  lemma RunTwo(c: Ctl, e0: Event, e1: Event)
    ensures Run(c, [e0, e1]) == Step(Step(c, e0), e1)
  {
    hide Step;
    RunAppend(c, [e0], [e1]);
    RunOne(c, e0);
    RunOne(Step(c, e0), e1);
    assert [e0, e1] == [e0] + [e1];
  }

  lemma RunThree(c: Ctl, e0: Event, e1: Event, e2: Event)
    ensures Run(c, [e0, e1, e2]) == Step(Step(Step(c, e0), e1), e2)
  {
    hide Step;
    RunAppend(c, [e0], [e1, e2]);
    RunAppend(Step(c, e0), [e1], [e2]);
    RunOne(c, e0);
    RunOne(Step(c, e0), e1);
    RunOne(Step(Step(c, e0), e1), e2);
    assert [e0, e1, e2] == [e0] + [e1, e2] && [e1, e2] == [e1] + [e2];
  }

  // ------------------------------------------------------------------
  // A whole activation
  // ------------------------------------------------------------------

  /** The daemon reports a handshake with each hop in turn. */
  function Handshakes(hops: seq<Hop>, env: Env): seq<Event> {
    seq(|hops|, i requires 0 <= i < |hops| => DaemonConnected(hops[i].key, env))
  }

  function Activations(hops: seq<Hop>): seq<Output> {
    seq(|hops|, i requires 0 <= i < |hops| => SentActivate(hops[i]))
  }

  /** c waits for the first of these hops, for a session that is not a switch. */
  ghost predicate Awaits(c: Ctl, hops: seq<Hop>, who: Principal) {
    && hops != [] && c.queue == hops && c.handshake && !c.switching && c.daemon.Ready?
    && c.nextStep.NoStep? && c.initiator == who && !c.state.On? && !c.state.OnPartial?
  }

  /** The last hop answered: the session is on, for this principal, since now. */
  ghost predicate Connected(c: Ctl, who: Principal, now: int) {
    && c.state == (if who.ExtensionUser? then OnPartial else On) && c.initiator == who
    && c.queue == [] && !c.handshake && c.retry == 0 && c.clock && c.since == Some(now)
  }

  /** An accepted account check sends exactly the first planned hop. */
  lemma CheckedActivation(c: Ctl, selection: Selection, who: Principal, hops: seq<Hop>, env: Env)
    requires c.state.Off? && !c.switching && c.daemon.Ready? && c.nextStep.NoStep? && env.device
    requires PlanHops(c, false, selection, env) == Some(hops)
    ensures var d := StartActivation(c, selection, who, env);
      && Awaits(d, hops, who) && d.out.starts == c.out.starts
      && d.out.messages == c.out.messages + [SentActivate(hops[0])]
  {
    hide PlanHops, ChooseServer, ActivateNext;
    var c1 := ClearRetryCounter(if who.ExtensionUser? then c else c.(state := Connecting));
    var c2 := ClearConnectedTime(c1.(initiator := who)).(handshake := false, queue := []);
    SamePlan(c, c2, false, selection, env);
    PlanNeedsExit(c, false, selection, env);
    var c3 := c2.(queue := hops, server := c2.server.(entryKey := hops[0].key, exitKey := hops[|hops| - 1].key));
    assert StartActivation(c, selection, who, env) == ActivateNext(c3, env);
    NextHopSent(c3, who, env);
  }

  lemma NextHopSent(c: Ctl, who: Principal, env: Env)
    requires Awaits(c.(handshake := true), c.queue, who) && env.device
    ensures var d := ActivateNext(c, env);
      && Awaits(d, c.queue, who) && d.out.starts == c.out.starts
      && d.out.messages == c.out.messages + [SentActivate(c.queue[0])]
  {
  }

  /** The handshakes of all the hops, in order, turn the session on and send
      the remaining hops, each once. */
  lemma {:induction false} HandshakesConnect(c: Ctl, hops: seq<Hop>, who: Principal, env: Env)
    requires Awaits(c, hops, who) && env.device
    ensures var d := Run(c, Handshakes(hops, env));
      && Connected(d, who, env.now) && d.out.starts == c.out.starts + 1
      && d.out.messages == c.out.messages + Activations(hops[1..])
    decreases |hops|
  {
    hide Step, ActivateNext, Established, Connected;
    var events := Handshakes(hops, env);
    var c1 := Step(c, events[0]);
    assert events[1..] == Handshakes(hops[1..], env);
    FirstHandshake(c, hops, who, env);
    if |hops| == 1 {
      assert Handshakes(hops[1..], env) == [] && Run(c1, []) == c1;
      LastHandshake(c, who, env);
      assert Activations(hops[1..]) == [];
    } else {
      NextHopSent(c.(queue := hops[1..]), who, env);
      HandshakesConnect(c1, hops[1..], who, env);
      assert Activations(hops[1..]) == [SentActivate(hops[1])] + Activations(hops[1..][1..]);
    }
  }

  /** The awaited handshake goes on to the next hop, or establishes the session. */
  lemma FirstHandshake(c: Ctl, hops: seq<Hop>, who: Principal, env: Env)
    requires Awaits(c, hops, who)
    ensures Step(c, DaemonConnected(hops[0].key, env)) ==
      if |hops| == 1 then Established(c, env.now) else ActivateNext(c.(queue := hops[1..]), env)
  {
    hide ActivateNext, Established, DoDeactivate;
    if |hops| == 1 {
      LastHandshake(c, who, env);
    }
  }

  lemma LastHandshake(c: Ctl, who: Principal, env: Env)
    requires Awaits(c, c.queue, who) && |c.queue| == 1
    ensures var d := Established(c, env.now);
      && Connected(d, who, env.now) && d.out.starts == c.out.starts + 1
      && d.out.messages == c.out.messages && d.nextStep.NoStep?
  {
  }

  /** A whole activation from off: the request, its account check, and the
      handshakes of the hops to the location leave the controller on (partly on for the
      extension), with the hops sent to the daemon once each and in order, and
      one session start reported. */
  lemma ActivationRun(c: Ctl, data: ServerData, who: Principal, selection: Selection, failed: bool,
                      appReady: bool, hops: seq<Hop>, env: Env)
    requires c.state.Off? && !c.portal && c.daemon.Ready? && c.nextStep.NoStep?
    requires env.device && (env.checkConnectivity ==> env.reachable) && (failed ==> appReady)
    requires LeadsTo(data, false, selection, env, hops)
    ensures var d := Run(c, [Activate(data, who, selection, env),
                             AccountReply(|c.pending|, failed, appReady, env)] + Handshakes(hops, env));
      && Connected(d, who, env.now) && d.out.starts == c.out.starts + 1
      && d.out.messages == c.out.messages + Activations(hops)
  {
    hide PlanHops, StartActivation, Run, LeadsTo, DoActivate, OnAccountReply;
    var e0, e1 := Activate(data, who, selection, env), AccountReply(|c.pending|, failed, appReady, env);
    var c1 := c.(switching := false, server := data);
    RequestWaits(c, data, who, selection, env);
    ReplyContinues(c1, Check(selection, who), failed, appReady, env);
    RunTwo(c, e0, e1);
    hide Step;
    PlanLeads(c1, false, selection, env, hops);
    CheckedActivation(c1, selection, who, hops, env);
    HandshakesConnect(StartActivation(c1, selection, who, env), hops, who, env);
    RunAppend(c, [e0, e1], Handshakes(hops, env));
    assert Activations(hops) == [SentActivate(hops[0])] + Activations(hops[1..]);
  }

  /** The request waits for its account check. */
  lemma RequestWaits(c: Ctl, data: ServerData, who: Principal, selection: Selection, env: Env)
    requires c.state.Off? && !c.portal && (env.checkConnectivity ==> env.reachable)
    ensures DoActivate(c, data, who, selection, env).0
         == c.(switching := false, server := data, pending := c.pending + [Check(selection, who)])
  {
    hide StartActivation;
  }

  /** The reply to the last request goes on with it. */
  lemma ReplyContinues(c: Ctl, check: Check, failed: bool, appReady: bool, env: Env)
    requires failed ==> appReady
    ensures OnAccountReply(c.(pending := c.pending + [check]), |c.pending|, failed, appReady, env)
         == StartActivation(c, check.selection, check.initiator, env)
  {
    hide StartActivation;
    var waiting := c.pending + [check];
    assert waiting[..|c.pending|] + waiting[|c.pending| + 1..] == c.pending;
  }

  // ------------------------------------------------------------------
  // A requested quit
  // ------------------------------------------------------------------

  /** From c to d the controller went idle and reported that it may quit. */
  ghost predicate Left(c: Ctl, d: Ctl) {
    && (d.state.Off? || d.state.Initializing?) && |d.out.signals| > |c.out.signals|
    && d.out.signals[|d.out.signals| - 1].ReadyToQuit?
  }

  /** An activation with an exit server but no device records a disconnect as
      the next step. */
  predicate DropsStep(selection: Selection, key: Key, env: Env) {
    !env.device && CanServe(selection, key, env.exitPick, env.exitKnown)
  }

  /** The events that replace a pending quit by another step. */
  predicate LosesQuit(c: Ctl, e: Event) {
    match e
    case UpdateRequest(_) => !c.state.Off?
    case Activate(data, _, selection, env) =>
      (c.state.OnPartial? || c.state.Switching? || c.state.SilentSwitching?)
      && DropsStep(selection, data.exitKey, env)
    case AccountReply(index, failed, appReady, env) =>
      index < |c.pending| && (!failed || appReady)
      && DropsStep(c.pending[index].selection, c.server.exitKey, env)
    case _ => false
  }

  /** deactivate() is accepted and the link answers it at once. */
  predicate StopsAtOnce(c: Ctl, who: Principal) {
    && Rank(c.initiator) <= Rank(who)
    && !c.state.Initializing? && !c.state.Off? && !c.state.Disconnecting?
    && (!c.daemon.Ready? || c.state.Switching? || c.state.SilentSwitching?)
  }

  /** The events that report a pending quit. */
  predicate ReportsQuit(c: Ctl, e: Event) {
    match e
    case Deactivate(who, _) => StopsAtOnce(c, who)
    case HandshakeExpired(_) => c.handshake && c.queue != [] && StopsAtOnce(c, ClientUser)
    case Switch(_, _) => !c.state.Off?
    case SilentSwitch(coolDown, exitServers, _) => c.state.On? && !(coolDown && exitServers <= 1)
    case QuitRequest(_) =>
      c.state.Initializing? || c.state.Off? || (!c.state.Confirming? && StopsAtOnce(c, ClientUser))
    case DaemonStatus(wellFormed, connected, date, _) =>
      c.daemon.DaemonInitializing? && wellFormed && !(connected && date.None?)
    case DaemonDisconnected(_) => c.daemon.Ready?
    case SocketError(_) => !c.daemon.DaemonInitializing?
    case _ => false
  }

  lemma DisconnectedQuits(c: Ctl, env: Env)
    requires c.nextStep.Quit?
    ensures Left(c, OnDisconnected(c, env))
  {
    hide DoActivate;
    assert ProcessNextStep(TearDown(c)).1;
  }

  lemma PrepareQuit(c: Ctl)
    ensures var d := PrepareDeactivate(c);
      && d.nextStep == c.nextStep && d.daemon == c.daemon && d.out.messages == c.out.messages
      && (d.out.signals == c.out.signals || d.out.signals == c.out.signals + [CaptivePortalBlocked])
      && StateToReason(d.state).ReasonSwitching? == (c.state.Switching? || c.state.SilentSwitching?)
  {
  }

  lemma DeactivateQuits(c: Ctl, who: Principal, env: Env)
    requires c.nextStep.Quit?
    ensures var d := DoDeactivate(c, who, env).0;
      && (Left(c, d) <==> StopsAtOnce(c, who))
      && (!Left(c, d) ==> d.nextStep.Quit? && d.daemon == c.daemon)
  {
    hide OnDisconnected, PrepareDeactivate, StateToReason;
    PrepareQuit(c);
    DisconnectedQuits(PrepareDeactivate(c), env);
  }

  /** An update replaces the quit and is reported in its place. */
  lemma UpdateQuits(c: Ctl, env: Env)
    requires c.nextStep.Update?
    ensures var d := DoDeactivate(c, ClientUser, env).0; !d.nextStep.Quit? && !Left(c, d)
  {
    hide OnDisconnected, PrepareDeactivate;
    PrepareQuit(c);
    DisconnectedUpdates(PrepareDeactivate(c), env);
  }

  /** updateRequired() stays pending or is reported. */
  lemma UpdateAsked(c: Ctl, env: Env)
    ensures var d := DoUpdateRequired(c, env);
      d.nextStep.Update? || (|d.out.signals| > |c.out.signals| && d.out.signals[|d.out.signals| - 1].ReadyToUpdate?)
  {
    hide OnDisconnected, PrepareDeactivate;
    var c1 := c.(nextStep := Update);
    PrepareQuit(c1);
    DisconnectedUpdates(PrepareDeactivate(c1), env);
  }

  lemma DisconnectedUpdates(c: Ctl, env: Env)
    requires c.nextStep.Update?
    ensures var d := OnDisconnected(c, env);
      !d.nextStep.Quit? && d.out.signals == c.out.signals + [ReadyToUpdate]
  {
    hide DoActivate;
    assert ProcessNextStep(TearDown(c)).1;
  }

  lemma ActivationQuits(c: Ctl, selection: Selection, who: Principal, env: Env)
    requires c.nextStep.Quit?
    ensures var d := StartActivation(c, selection, who, env);
      && (d.nextStep.Quit? <==> !DropsStep(selection, c.server.exitKey, env))
      && !Left(c, d)
  {
    hide ActivateInternal;
    var c1 := ClearRetryCounter(if who.ExtensionUser? then c else c.(state := Connecting));
    InternalQuits(c1, selection, who, env);
  }

  lemma InternalQuits(c: Ctl, selection: Selection, who: Principal, env: Env)
    requires c.nextStep.Quit?
    ensures var d := ActivateInternal(c, false, selection, who, env);
      && (d.nextStep.Quit? <==> !DropsStep(selection, c.server.exitKey, env))
      && !Left(c, d)
  {
    hide PlanHops, ChooseServer, ActivateNext, CanServe;
    ChoiceIsWanted(selection, c.server.exitKey, env.exitPick, env.exitKnown, "");
    var c1 := ClearConnectedTime(c.(initiator := who)).(handshake := false, queue := []);
    var plan := PlanHops(c1, false, selection, env);
    if env.device && plan.Some? {
      PlanHopsShape(c1, false, selection, env);
      var q := plan.value;
      ActivateNextFrame(c1.(queue := q, server := c1.server.(entryKey := q[0].key, exitKey := q[|q| - 1].key)), env);
    }
  }

  lemma ConnectedQuits(c: Ctl, key: Key, env: Env)
    requires c.nextStep.Quit? && c.daemon.Ready?
    ensures var d := OnConnected(c, key, env); d.nextStep.Quit? && !Left(c, d)
  {
    hide DoDeactivate, Established;
    if c.queue == [] && c.server.exitKey != key {
    } else if c.queue != [] && c.queue[0].key != key {
    } else if |c.queue| > 1 {
    } else {
      EstablishedQuits(c, env.now);
      DeactivateQuits(Established(c, env.now), ClientUser, env);
    }
  }

  lemma EstablishedQuits(c: Ctl, now: int)
    ensures var d := Established(c, now);
      && d.out.signals == c.out.signals && d.nextStep == c.nextStep && d.daemon == c.daemon
      && !d.state.Switching? && !d.state.SilentSwitching?
  {
  }

  lemma TimeoutQuits(c: Ctl, env: Env)
    requires c.nextStep.Quit? && c.handshake
    ensures var d := OnHandshakeTimeout(c, env);
      && (Left(c, d) <==> ReportsQuit(c, HandshakeExpired(env)))
      && (!Left(c, d) ==> d.nextStep.Quit?)
  {
    hide DoDeactivate, ActivateInternal;
    DeactivateQuits(c.(handshake := false), ClientUser, env);
  }

  lemma SwitchQuits(c: Ctl, data: ServerData, selection: Selection, state: State, env: Env)
    requires c.nextStep.Quit? && (state.Switching? || state.SilentSwitching?)
    ensures Left(c, StartSwitch(c, data, selection, state, env))
  {
    hide DoDeactivate;
    var c1 := c.(switching := true, nextServer := data, nextSelection := selection);
    var c2 := ClearRetryCounter(ClearConnectedTime(c1)).(state := state);
    assert c2.out.signals == c.out.signals && c2.nextStep.Quit?;
    DeactivateQuits(c2, ClientUser, env);
  }

  /** What becomes of a pending quit in one step. */
  ghost predicate QuitStep(c: Ctl, e: Event, d: Ctl) {
    && (Left(c, d) <==> ReportsQuit(c, e))
    && (d.nextStep.Quit? || Left(c, d) <==> !LosesQuit(c, e))
  }

  lemma StatusQuits(c: Ctl, wellFormed: bool, connected: bool, date: Option<int>, env: Env)
    requires c.nextStep.Quit?
    ensures QuitStep(c, DaemonStatus(wellFormed, connected, date, env), OnStatus(c, wellFormed, connected, date, env))
  {
    assert ProcessNextStep(c.(daemon := Ready)).1;
  }

  lemma SocketErrorQuits(c: Ctl, env: Env)
    requires c.nextStep.Quit?
    ensures QuitStep(c, SocketError(env), OnSocketError(c, env))
  {
    hide OnDisconnected;
    DisconnectedQuits(c, env);
  }

  lemma DaemonStepQuits(c: Ctl, e: Event)
    requires c.nextStep.Quit? && FromDaemon(e)
    ensures QuitStep(c, e, Step(c, e))
  {
    hide OnDisconnected, OnConnected, OnStatus, OnSocketError;
    match e {
      case DaemonConnected(key, env) =>
        if c.daemon.Ready? {
          ConnectedQuits(c, key, env);
        }
      case DaemonDisconnected(env) => DisconnectedQuits(c.(daemonTimer := false), env);
      case SocketError(env) => SocketErrorQuits(c, env);
      case DaemonStatus(wellFormed, connected, date, env) => StatusQuits(c, wellFormed, connected, date, env);
      case _ =>
    }
  }

  lemma ActivateQuits(c: Ctl, data: ServerData, who: Principal, selection: Selection, env: Env)
    requires c.nextStep.Quit?
    ensures QuitStep(c, Activate(data, who, selection, env), DoActivate(c, data, who, selection, env).0)
  {
    hide StartActivation, DropsStep;
    var c1 := c.(switching := c.state.Switching? || c.state.SilentSwitching?, server := data);
    ActivationQuits(c1, selection, who, env);
    if c.state.Off? {
    } else {
    }
  }

  lemma AccountReplyQuits(c: Ctl, index: nat, failed: bool, appReady: bool, env: Env)
    requires c.nextStep.Quit? && index < |c.pending|
    ensures QuitStep(c, AccountReply(index, failed, appReady, env), OnAccountReply(c, index, failed, appReady, env))
  {
    hide StartActivation, DropsStep;
    var c1 := c.(pending := c.pending[..index] + c.pending[index + 1..]);
    ActivationQuits(c1, c.pending[index].selection, c.pending[index].initiator, env);
  }

  lemma QuitRequestQuits(c: Ctl, env: Env)
    requires c.nextStep.Quit?
    ensures QuitStep(c, QuitRequest(env), DoQuit(c, env))
  {
    hide DoDeactivate;
    DeactivateQuits(c, ClientUser, env);
  }

  lemma UpdateRequestQuits(c: Ctl, env: Env)
    requires c.nextStep.Quit?
    ensures QuitStep(c, UpdateRequest(env), DoUpdateRequired(c, env))
  {
    hide DoDeactivate;
    UpdateQuits(c.(nextStep := Update), env);
  }

  lemma UserStepQuits(c: Ctl, e: Event)
    requires c.nextStep.Quit? && !FromDaemon(e) && !e.HandshakeExpired?
    ensures QuitStep(c, e, Step(c, e))
  {
    hide DoDeactivate, StartSwitch, DoActivate, OnAccountReply, DoQuit, DoUpdateRequired;
    match e {
      case Activate(data, who, selection, env) => ActivateQuits(c, data, who, selection, env);
      case Deactivate(who, env) => DeactivateQuits(c, who, env);
      case AccountReply(index, failed, appReady, env) =>
        if index < |c.pending| {
          AccountReplyQuits(c, index, failed, appReady, env);
        }
      case Switch(data, env) => SwitchQuits(c, data, Randomize, Switching, env);
      case SilentSwitch(coolDown, exitServers, env) =>
        var selection := if coolDown then Randomize else DoNotRandomize;
        SwitchQuits(c, c.server, selection, SilentSwitching, env);
      case QuitRequest(env) => QuitRequestQuits(c, env);
      case UpdateRequest(env) => UpdateRequestQuits(c, env);
      case _ =>
    }
  }

  /** A pending quit is reported exactly by the events that do, and is gone
      without a report exactly after those that put another step in its place. */
  lemma StepQuits(c: Ctl, e: Event)
    requires c.nextStep.Quit?
    ensures Left(c, Step(c, e)) <==> ReportsQuit(c, e)
    ensures Step(c, e).nextStep.Quit? || Left(c, Step(c, e)) <==> !LosesQuit(c, e)
  {
    if FromDaemon(e) {
      DaemonStepQuits(c, e);
    } else if e.HandshakeExpired? {
      hide OnHandshakeTimeout;
      if c.handshake {
        TimeoutQuits(c, e.env);
      }
    } else {
      UserStepQuits(c, e);
    }
  }

  /** No event of the run, up to the report, replaces the pending quit. */
  ghost predicate KeepsQuit(c: Ctl, events: seq<Event>)
    decreases |events|
  {
    events == [] || ReportsQuit(c, events[0])
    || (!LosesQuit(c, events[0]) && KeepsQuit(Step(c, events[0]), events[1..]))
  }

  /** Some event of the run reports a pending quit. */
  ghost predicate MeetsReport(c: Ctl, events: seq<Event>)
    decreases |events|
  {
    events != [] && (ReportsQuit(c, events[0]) || MeetsReport(Step(c, events[0]), events[1..]))
  }

  /** Over every such run a requested quit is reported if one of these events
      comes, and is still pending, unreported, if none does. */
  lemma {:induction false} QuitHonoured(c: Ctl, events: seq<Event>)
    requires c.nextStep.Quit? && KeepsQuit(c, events)
    ensures MeetsReport(c, events) <==>
      exists k :: 0 <= k < |events| && Left(Run(c, events[..k]), Run(c, events[..k + 1]))
    ensures !MeetsReport(c, events) ==> Run(c, events).nextStep.Quit?
    decreases |events|
  {
    hide Step, LosesQuit, Left, ReportsQuit;
    if events != [] {
      var c1, rest := Step(c, events[0]), events[1..];
      StepQuits(c, events[0]);
      assert Run(c, events[..0]) == c;
      assert Run(c, events[..0 + 1]) == c1 by { RunPrefix(c, events, 0); }
      if ReportsQuit(c, events[0]) {
        assert Left(Run(c, events[..0]), Run(c, events[..0 + 1]));
      } else {
        QuitHonoured(c1, rest);
        LaterReport(c, events);
      }
    }
  }

  /** If the first event does not report, the reports are those of the rest. */
  lemma LaterReport(c: Ctl, events: seq<Event>)
    requires events != [] && !Left(c, Step(c, events[0]))
    ensures (exists k :: 0 <= k < |events| && Left(Run(c, events[..k]), Run(c, events[..k + 1])))
       <==> exists k :: 0 <= k < |events[1..]| &&
              Left(Run(Step(c, events[0]), events[1..][..k]), Run(Step(c, events[0]), events[1..][..k + 1]))
  {
    hide Step, Left;
    var c1, rest := Step(c, events[0]), events[1..];
    forall k: nat | k < |events| ensures Run(c, events[..k + 1]) == Run(c1, rest[..k]) {
      RunPrefix(c, events, k);
    }
    if k :| 0 <= k < |events| && Left(Run(c, events[..k]), Run(c, events[..k + 1])) {
      assert Run(c, events[..0]) == c && Run(c1, rest[..0]) == c1;
      assert k > 0;
      assert Run(c, events[..(k - 1) + 1]) == Run(c1, rest[..k - 1]);
      assert Left(Run(c1, rest[..k - 1]), Run(c1, rest[..(k - 1) + 1]));
    }
    if k :| 0 <= k < |rest| && Left(Run(c1, rest[..k]), Run(c1, rest[..k + 1])) {
      assert Left(Run(c, events[..k + 1]), Run(c, events[..(k + 1) + 1]));
    }
  }

  /** quit() with the daemon at hand: it is reported at once or when the daemon
      reports the disconnect, which a controller that is on has asked for. */
  lemma QuitCompletes(c: Ctl, env: Env, later: Env)
    requires c.daemon.Ready?
    ensures var d := Step(c, QuitRequest(env)); Left(c, d) || Left(d, Step(d, DaemonDisconnected(later)))
    ensures c.state.On? || c.state.OnPartial? || c.state.Connecting? ==>
      Step(c, QuitRequest(env)).out.messages == c.out.messages + [SentDeactivate]
  {
    hide OnDisconnected, DoQuit, Left;
    QuitKeeps(c, env);
    QuitAsks(c, env);
    var d := DoQuit(c, env);
    if d.nextStep.Quit? && d.daemon.Ready? {
      DisconnectedQuits(d.(daemonTimer := false), later);
      SameSignals(d, d.(daemonTimer := false), OnDisconnected(d.(daemonTimer := false), later));
    }
  }

  lemma QuitAsks(c: Ctl, env: Env)
    requires c.daemon.Ready?
    ensures c.state.On? || c.state.OnPartial? || c.state.Connecting? ==>
      DoQuit(c, env).out.messages == c.out.messages + [SentDeactivate]
  {
    hide OnDisconnected, PrepareDeactivate, StateToReason;
    PrepareQuit(c.(nextStep := Quit));
  }

  lemma QuitKeeps(c: Ctl, env: Env)
    ensures var d := DoQuit(c, env); Left(c, d) || (d.nextStep.Quit? && d.daemon == c.daemon)
  {
    hide DoDeactivate;
    DeactivateQuits(c.(nextStep := Quit), ClientUser, env);
  }

  lemma SameSignals(c: Ctl, c': Ctl, d: Ctl)
    requires c.out.signals == c'.out.signals
    ensures Left(c, d) <==> Left(c', d)
  {
  }

  lemma RunPrefix(c: Ctl, events: seq<Event>, k: nat)
    requires k < |events|
    ensures Run(c, events[..k + 1]) == Run(Step(c, events[0]), events[1..][..k])
  {
    hide Step;
    assert events[..k + 1][1..] == events[1..][..k];
  }
}
