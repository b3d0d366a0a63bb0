/** The controller as the object it is: fields updated in place by slots that
    call each other, deactivate() re-entering disconnected() and activate().
    `View` collects the fields, and each slot is proved to do what module
    Controller says. The event loop ties every state the object can reach to a
    run, so what is proved over all runs holds of it. */
module ControllerObject {
  import opened Common
  import opened Controller

  class VpnController {
    // Controller
    var state: State
    var initiator: Principal
    var activationQueue: seq<Hop>
    var connectionRetry: nat
    var nextStep: NextStep
    var isSwitchingServer: bool
    var handshakeTimer: bool
    var timer: bool
    var connectedTime: Option<int>
    var portalDetected: bool
    var serverData: ServerData
    var nextServerData: ServerData
    var nextSelection: Selection
    var requests: seq<Check>
    // LocalSocketController
    var daemonState: DaemonState
    var initializingTimer: bool
    var initializingInterval: nat
    /** All that left the object. */
    var trace: Trace

    ghost function View(): Ctl
      reads this
    {
      Ctl(state, initiator, activationQueue, connectionRetry, nextStep, isSwitchingServer, handshakeTimer,
          timer, connectedTime, portalDetected, serverData, nextServerData, nextSelection, requests,
          daemonState, initializingTimer, initializingInterval, trace)
    }

    /** isSwitchingServer is whatever the memory held. */
    constructor (garbage: bool, data: ServerData)
      ensures Initial(View()) && isSwitchingServer == garbage
    {
      state, initiator, activationQueue, connectionRetry, nextStep := Initializing, Null, [], 0, NoStep;
      isSwitchingServer, handshakeTimer, timer, connectedTime, portalDetected := garbage, false, false, None, false;
      serverData, nextServerData, nextSelection, requests := data, data, Randomize, [];
      daemonState, initializingTimer, initializingInterval := Unknown, false, RETRY_INITIAL_MSEC;
      trace := EMPTY_TRACE;
    }

    method SendOut(o: Output)
      modifies this`trace
      ensures View() == Emit(old(View()), o)
    {
      trace := Record(trace, o);
    }

    method ClearConnectedTime()
      modifies this`connectedTime, this`timer
      ensures View() == Controller.ClearConnectedTime(old(View()))
    {
      if !isSwitchingServer {
        connectedTime := None;
      }
      timer := false;
    }

    method ResetConnectedTime(now: int)
      modifies this`connectedTime, this`timer
      ensures View() == Controller.ResetConnectedTime(old(View()), now)
    {
      if !isSwitchingServer {
        connectedTime := Some(now);
      }
      timer := true;
    }

    method ClearRetryCounter()
      modifies this`connectionRetry, this`trace
      ensures View() == Controller.ClearRetryCounter(old(View()))
    {
      connectionRetry := 0;
      SendOut(RetryCleared);
    }

    /** activateNext() */
    method NextHop(env: Env)
      requires activationQueue != []
      modifies this`state, this`handshakeTimer, this`trace
      ensures View() == ActivateNext(old(View()), env)
    {
      if !env.device {
        SendOut(ResetRequested);
        return;
      }
      handshakeTimer := true;
      SendOut(SentActivate(activationQueue[0]));
      if initiator == ExtensionUser {
        return;
      }
      if state != SilentSwitching {
        state := Confirming;
      }
    }

    /** The queue of an activation, built as activateInternal() builds it: an
        entry hop if the platform has two of them, then the exit hop. Without a
        server for one of them the queue stays empty: no hops lead there. */
    method BuildQueue(forceDns: bool, selection: Selection, exit: Key, env: Env) returns (ok: bool)
      requires activationQueue == []
      requires ChooseServer(selection, serverData.exitKey, env.exitPick, env.exitKnown) == Some(exit)
      modifies this`activationQueue
      ensures if ok then LeadsTo(serverData, forceDns, selection, env, activationQueue) && activationQueue != []
              else activationQueue == [] && forall hops :: !LeadsTo(serverData, forceDns, selection, env, hops)
    {
      hide ChooseServer, Wanted, CanServe;
      ChoiceIsWanted(selection, serverData.exitKey, env.exitPick, env.exitKnown, exit);
      var dns := forceDns;
      if env.alwaysPort53 {
        dns := true;
      }
      var exitConfig := Hop(SingleHop, exit, false);
      if !env.multihopFeature || !serverData.multihop {
        if dns {
          exitConfig := exitConfig.(port53 := true);
        }
      } else {
        var entry := ChooseServer(selection, serverData.entryKey, env.entryPick, env.entryKnown);
        if entry.None? {
          ChoiceIsWanted(selection, serverData.entryKey, env.entryPick, env.entryKnown, "");
          NoEntryNoHops(serverData, forceDns, selection, env);
          return false;
        }
        ChoiceIsWanted(selection, serverData.entryKey, env.entryPick, env.entryKnown, entry.value);
        if env.multihopSupported {
          exitConfig := exitConfig.(hopType := MultiHopExit);
          var entryConfig := Hop(MultiHopEntry, entry.value, false);
          if dns {
            entryConfig := entryConfig.(port53 := true);
          }
          activationQueue := activationQueue + [entryConfig];
        }
      }
      activationQueue := activationQueue + [exitConfig];
      return true;
    }

    method ResetActivation(who: Principal)
      modifies this
      ensures View() == Controller.ClearConnectedTime(old(View()).(initiator := who)).(handshake := false, queue := [])
    {
      initiator := who;
      ClearConnectedTime();
      handshakeTimer := false;
      activationQueue := [];
    }

    /** Notes the keys of the queue's ends and starts with its first hop. */
    method Launch(env: Env)
      requires activationQueue != []
      modifies this
      ensures View() == Controller.Launch(old(View()), old(activationQueue), env)
    {
      serverData := serverData.(entryKey := activationQueue[0].key);
      serverData := serverData.(exitKey := activationQueue[|activationQueue| - 1].key);
      NextHop(env);
    }

    /** activateInternal() once an exit server and the device are at hand. */
    method PlanAndLaunch(forceDns: bool, selection: Selection, exit: Key, env: Env)
      requires activationQueue == []
      requires ChooseServer(selection, serverData.exitKey, env.exitPick, env.exitKnown) == Some(exit)
      modifies this
      ensures View() == Planned(old(View()), forceDns, selection, env)
    {
      hide Controller.Launch, ChooseServer, LeadsTo, Planned;
      ghost var c := View();
      assert c.server == serverData && c.queue == [];
      var ok := BuildQueue(forceDns, selection, exit, env);
      ghost var queue := activationQueue;
      QueueIsPlan(c, forceDns, selection, env, queue, ok);
      assert View() == c.(queue := queue);
      hide View;
      if ok {
        Launch(env);
      } else {
        SendOut(ServerUnavailable);
      }
    }

    /** activateInternal() */
    method ActivateInternal(forceDns: bool, selection: Selection, who: Principal, env: Env)
      modifies this
      ensures View() == Controller.ActivateInternal(old(View()), forceDns, selection, who, env)
    {
      hide Planned, ChooseServer, PlanHops, Controller.ClearConnectedTime, Controller.ActivateInternal;
      ghost var c := View();
      InternalPlans(c, forceDns, selection, who, env);
      ResetActivation(who);
      ghost var c1 := View();
      assert c1.server == c.server && c1.queue == [] by { ClearTimeFrame(c.(initiator := who)); }
      var exit := ChooseServer(selection, serverData.exitKey, env.exitPick, env.exitKnown);
      if exit.None? {
        SendOut(ServerUnavailable);
        return;
      }
      if !env.device {
        nextStep := Disconnect;
        return;
      }
      PlanAndLaunch(forceDns, selection, exit.value, env);
    }

    method StartActivation(selection: Selection, who: Principal, env: Env)
      modifies this
      ensures View() == Controller.StartActivation(old(View()), selection, who, env)
    {
      hide Controller.ActivateInternal;
      if who != ExtensionUser {
        state := Connecting;
      }
      ClearRetryCounter();
      ActivateInternal(false, selection, who, env);
    }

    method RequestCheck(selection: Selection, who: Principal, env: Env) returns (accepted: bool)
      modifies this`portalDetected, this`requests, this`trace
      ensures (View(), accepted) == Controller.RequestCheck(old(View()), selection, who, env)
    {
      if portalDetected {
        WarnOfPortal();
        return true;
      }
      if env.checkConnectivity && !env.reachable {
        return false;
      }
      requests := requests + [Check(selection, who)];
      return true;
    }

    method SetTarget(data: ServerData)
      modifies this`isSwitchingServer, this`serverData
      ensures var c := old(View());
        View() == c.(switching := c.state.Switching? || c.state.SilentSwitching?, server := data)
    {
      isSwitchingServer := state == Switching || state == SilentSwitching;
      serverData := data;
    }

    /** activate() */
    method Activate(data: ServerData, who: Principal, selection: Selection, env: Env) returns (accepted: bool)
      modifies this
      ensures (View(), accepted) == DoActivate(old(View()), data, who, selection, env)
    {
      hide Controller.StartActivation, Controller.RequestCheck;
      if state != Off && state != OnPartial && state != Switching && state != SilentSwitching {
        return false;
      }
      SetTarget(data);
      if state == Off {
        accepted := RequestCheck(selection, who, env);
        return;
      }
      StartActivation(selection, who, env);
      return true;
    }

    /** Both handlers of the account request. */
    method AccountReply(index: nat, failed: bool, appReady: bool, env: Env)
      requires index < |requests|
      modifies this
      ensures View() == OnAccountReply(old(View()), index, failed, appReady, env)
    {
      hide Controller.StartActivation;
      var check := requests[index];
      requests := requests[..index] + requests[index + 1..];
      if failed && !appReady {
        return;
      }
      StartActivation(check.selection, check.initiator, env);
    }

    method TearDown()
      modifies this
      ensures View() == Controller.TearDown(old(View()))
    {
      handshakeTimer := false;
      activationQueue := [];
      ClearConnectedTime();
      ClearRetryCounter();
    }

    method ProcessNextStep() returns (final: bool)
      modifies this`nextStep, this`trace
      ensures (View(), final) == Controller.ProcessNextStep(old(View()))
    {
      var step := nextStep;
      nextStep := NoStep;
      if step == Quit {
        SendOut(ReadyToQuit);
        return true;
      }
      if step == Update {
        SendOut(ReadyToUpdate);
        return true;
      }
      return false;
    }

    /** disconnected() */
    method Disconnected(env: Env)
      modifies this
      ensures View() == OnDisconnected(old(View()), env)
    {
      hide Controller.Resume, Controller.TearDown, Controller.ProcessNextStep;
      TearDown();
      var step := nextStep;
      var final := ProcessNextStep();
      if final {
        state := Off;
      } else {
        Resume(step, env);
      }
    }

    /** disconnected() with no final step. */
    method Resume(step: NextStep, env: Env)
      modifies this
      ensures View() == Controller.Resume(old(View()), step, env)
    {
      hide DoActivate;
      if step == NoStep && (state == SilentSwitching || state == Switching) {
        var target := if state == SilentSwitching then initiator else ClientUser;
        var _ := Activate(nextServerData, target, nextSelection, env);
        return;
      }
      if state != Confirming {
        SendOut(EndTelemetry);
      }
      initiator := Null;
      state := Off;
    }

    method StopWaiting()
      requires state != Initializing && state != Off && state != Disconnecting
      modifies this
      ensures View() == PrepareDeactivate(old(View()))
    {
      hide Controller.TearDown;
      WarnOfPortal();
      if state == On || state == OnPartial || state == Confirming || state == Connecting {
        SetState(Disconnecting);
      }
      TearDown();
    }

    method WarnOfPortal()
      modifies this`portalDetected, this`trace
      ensures var c := old(View());
        View() == if c.portal then Emit(c, CaptivePortalBlocked).(portal := false) else c
    {
      if portalDetected {
        SendOut(CaptivePortalBlocked);
        portalDetected := false;
      }
    }

    /** LocalSocketController::deactivate, which calls back disconnected() when it
        has nothing to ask the daemon. */
    method LinkDeactivate(reason: Reason, env: Env)
      modifies this
      ensures View() == DaemonDeactivate(old(View()), reason, env)
    {
      hide OnDisconnected;
      if daemonState != Ready || reason == ReasonSwitching {
        Disconnected(env);
      } else {
        SendOut(SentDeactivate);
      }
    }

    /** deactivate() */
    method Deactivate(who: Principal, env: Env) returns (accepted: bool)
      modifies this
      ensures (View(), accepted) == DoDeactivate(old(View()), who, env)
    {
      hide DaemonDeactivate, PrepareDeactivate;
      if Rank(initiator) > Rank(who) {
        return false;
      }
      if state != On && state != OnPartial && state != Switching && state != SilentSwitching
         && state != Confirming && state != Connecting {
        return false;
      }
      StopWaiting();
      LinkDeactivate(StateToReason(state), env);
      return true;
    }

    method HopsDone()
      modifies this
      ensures View() == Controller.ClearRetryCounter(old(View()).(queue := [], handshake := false))
    {
      activationQueue := [];
      handshakeTimer := false;
      ClearRetryCounter();
    }

    method TurnOn()
      modifies this`isSwitchingServer, this`state
      ensures var c := old(View());
        View() == c.(switching := c.switching || c.state.On? || c.state.OnPartial?,
                     state := if c.initiator.ExtensionUser? then OnPartial else On)
    {
      if state == On || state == OnPartial {
        isSwitchingServer := true;
      }
      state := if initiator == ExtensionUser then OnPartial else On;
    }

    method ReportStart()
      modifies this`trace
      ensures View() == if old(View()).switching then old(View()) else Emit(old(View()), StartTelemetry)
    {
      if !isSwitchingServer {
        SendOut(StartTelemetry);
      }
    }

    method SessionUp(now: int)
      modifies this
      ensures View() == Established(old(View()), now)
    {
      hide View, Controller.ClearRetryCounter, Controller.ResetConnectedTime;
      HopsDone();
      TurnOn();
      ResetConnectedTime(now);
      ReportStart();
    }

    /** connected() */
    method Connected(key: Key, env: Env)
      modifies this
      ensures View() == OnConnected(old(View()), key, env)
    {
      hide DoDeactivate, ActivateNext, Established, Inv;
      ghost var c := View();
      if activationQueue == [] {
        if serverData.exitKey != key {
          return;
        }
      } else if activationQueue[0].key != key {
        return;
      } else {
        activationQueue := activationQueue[1..];
        if activationQueue != [] {
          NextHop(env);
          return;
        }
      }
      SessionUp(env.now);
      assert View() == Established(c, env.now) by { EstablishedClearsQueue(c, env.now); }
      if nextStep == Quit || nextStep == Disconnect || nextStep == Update {
        var _ := Deactivate(ClientUser, env);
      }
    }

    /** handshakeTimeout(): the invariant discharges both of its asserts; a retry
        goes to the servers picked now, on port 53 the first time. */
    method HandshakeTimeout(env: Env)
      requires handshakeTimer && Inv(View())
      modifies this
      ensures View() == OnHandshakeTimeout(old(View()), env)
      ensures !HasFinalStep(old(nextStep)) ==>
        SendsFirst(old(trace.messages), trace.messages, old(connectionRetry) < 8 && env.device,
                   old(serverData), old(connectionRetry) == 0, Randomize, env)
    {
      hide OnHandshakeTimeout, SendsFirst, Inv, HasFinalStep;
      RetryMeans(View(), env);
      RetryOrStop(env);
    }

    method RetryOrStop(env: Env)
      requires handshakeTimer && Inv(View())
      modifies this
      ensures View() == OnHandshakeTimeout(old(View()), env)
    {
      hide DoDeactivate, Retry;
      assert activationQueue != [];
      assert activationQueue[|activationQueue| - 1].hopType != MultiHopEntry;
      hide Inv;
      handshakeTimer := false;
      if nextStep == Quit || nextStep == Disconnect || nextStep == Update {
        var _ := Deactivate(ClientUser, env);
        return;
      }
      connectionRetry := connectionRetry + 1;
      TryAgain(env);
    }

    /** The part of handshakeTimeout() after its checks. */
    method TryAgain(env: Env)
      modifies this
      ensures View() == Retry(old(View()), env)
    {
      hide Controller.ActivateInternal;
      if connectionRetry == 1 {
        SendOut(AutoReactivation);
        ActivateInternal(true, Randomize, initiator, env);
        return;
      } else if connectionRetry < CONNECTION_MAX_RETRY {
        SendOut(AutoReactivation);
        ActivateInternal(false, Randomize, initiator, env);
        return;
      }
      SendOut(ServerUnavailable);
    }

    /** switchServers() */
    method SwitchServers(data: ServerData, env: Env) returns (accepted: bool)
      modifies this
      ensures (View(), accepted) == Controller.SwitchServers(old(View()), data, env)
    {
      hide StartSwitch;
      if state == Off {
        return false;
      }
      BeginSwitch(data, Randomize, Switching, env);
      return true;
    }

    method Aim(data: ServerData, selection: Selection)
      modifies this`isSwitchingServer, this`nextServerData, this`nextSelection
      ensures View() == old(View()).(switching := true, nextServer := data, nextSelection := selection)
    {
      isSwitchingServer := true;
      nextServerData := data;
      nextSelection := selection;
    }

    method SetState(s: State)
      modifies this`state
      ensures View() == old(View()).(state := s)
    {
      state := s;
    }

    /** What both kinds of switch do after their guards. */
    method BeginSwitch(data: ServerData, selection: Selection, target: State, env: Env)
      modifies this
      ensures View() == StartSwitch(old(View()), data, selection, target, env)
    {
      hide View, DoDeactivate, Controller.ClearRetryCounter, Controller.ClearConnectedTime;
      Aim(data, selection);
      ClearConnectedTime();
      ClearRetryCounter();
      SetState(target);
      var _ := Deactivate(ClientUser, env);
    }

    /** silentSwitchServers() */
    method SilentSwitchServers(coolDown: bool, exitServers: nat, env: Env) returns (accepted: bool)
      modifies this
      ensures (View(), accepted) == Controller.SilentSwitchServers(old(View()), coolDown, exitServers, env)
    {
      hide StartSwitch;
      if state != On {
        return false;
      }
      if coolDown && exitServers <= 1 {
        return false;
      }
      var selection := if coolDown then Randomize else DoNotRandomize;
      BeginSwitch(serverData, selection, SilentSwitching, env);
      return true;
    }

    /** quit() */
    method QuitController(env: Env)
      modifies this
      ensures View() == DoQuit(old(View()), env)
    {
      hide DoDeactivate, Inv, Left;
      nextStep := Quit;
      if state == Initializing || state == Off {
        SendOut(ReadyToQuit);
        return;
      }
      if state == On || state == OnPartial || state == Switching || state == SilentSwitching
         || state == Connecting {
        var _ := Deactivate(ClientUser, env);
      }
    }

    /** updateRequired() */
    method UpdateRequired(env: Env)
      modifies this
      ensures View() == DoUpdateRequired(old(View()), env)
    {
      hide DoDeactivate, Inv;
      if state == Off {
        SendOut(ReadyToUpdate);
        return;
      }
      nextStep := Update;
      if state == On || state == OnPartial {
        var _ := Deactivate(ClientUser, env);
      }
    }

    /** implInitialized() */
    method ImplInitialized(status: bool, connected: bool, date: Option<int>, now: int)
      modifies this`state, this`connectedTime, this`timer, this`nextStep, this`trace
      ensures View() == Controller.ImplInitialized(old(View()), status, connected, date, now)
    {
      hide Inv;
      if !status {
        state := Off;
        return;
      }
      var final := ProcessNextStep();
      if final {
        state := Off;
        return;
      }
      state := if connected then On else Off;
      if connected {
        connectedTime := if date.Some? then date else Some(now);
        timer := true;
      }
    }

    method InitializeInternal()
      modifies this`daemonState, this`initializingInterval
      ensures View() == Controller.InitializeInternal(old(View()))
    {
      if daemonState != DaemonInitializing {
        initializingInterval := RETRY_INITIAL_MSEC;
      } else if initializingInterval < RETRY_MAXIMUM_MSEC {
        initializingInterval := 2 * initializingInterval;
      }
      daemonState := DaemonInitializing;
    }

    /** The events of the link: parseCommand(), errorOccurred() and the reconnect
        timer. */
    method DispatchLink(e: Event)
      requires FromDaemon(e)
      modifies this
      ensures View() == Step(old(View()), e)
    {
      hide Controller.ImplInitialized, Controller.InitializeInternal, OnConnected, OnDisconnected, OnStatus, OnSocketError;
      match e {
        case Initialize(data) =>
          Start(data);
          InitializeInternal();
        case BackendFailed(env) => ImplInitialized(false, false, None, env.now);
        case DaemonStatus(wellFormed, connected, date, env) => StatusCommand(wellFormed, connected, date, env);
        case DaemonConnected(key, env) =>
          if daemonState == Ready {
            Connected(key, env);
          }
        case DaemonDisconnected(env) => DisconnectedCommand(env);
        case SocketError(env) => ErrorOccurred(env);
        case DaemonTimerExpired => RetryTimer();
      }
    }

    /** initialize() of both objects. */
    method Start(data: ServerData)
      modifies this
      ensures View() == old(View()).(state := Initializing, server := data, nextServer := data,
                                     daemon := Unknown, daemonTimer := false)
    {
      state := Initializing;
      serverData, nextServerData := data, data;
      daemonState, initializingTimer := Unknown, false;
    }

    method RetryTimer()
      modifies this`initializingTimer, this`daemonState, this`initializingInterval
      ensures View() == Step(old(View()), DaemonTimerExpired)
    {
      hide Controller.InitializeInternal;
      if initializingTimer {
        initializingTimer := false;
        InitializeInternal();
      }
    }

    method DisconnectedCommand(env: Env)
      modifies this
      ensures View() == Step(old(View()), DaemonDisconnected(env))
    {
      hide OnDisconnected;
      if daemonState == Ready {
        initializingTimer := false;
        Disconnected(env);
      }
    }

    method StatusCommand(wellFormed: bool, connected: bool, date: Option<int>, env: Env)
      modifies this
      ensures View() == OnStatus(old(View()), wellFormed, connected, date, env)
    {
      hide Controller.ImplInitialized;
      if daemonState == DaemonInitializing {
        daemonState := Ready;
        if wellFormed && !(connected && date.None?) {
          ImplInitialized(true, connected, date, env.now);
        }
      }
    }

    method ErrorOccurred(env: Env)
      modifies this
      ensures View() == OnSocketError(old(View()), env)
    {
      hide OnDisconnected;
      if daemonState != DaemonInitializing {
        Disconnected(env);
      }
      initializingTimer := true;
    }
  }

  // ------------------------------------------------------------------
  // What events mean to their senders
  // ------------------------------------------------------------------

  /** activateInternal() once an exit server and the device are at hand. */
  ghost function Planned(c: Ctl, forceDns: bool, selection: Selection, env: Env): Ctl {
    match PlanHops(c, forceDns, selection, env)
    case None => Emit(c, ServerUnavailable)
    case Some(hops) => if hops != [] then Controller.Launch(c, hops, env) else c
  }

  lemma InternalPlans(c: Ctl, forceDns: bool, selection: Selection, who: Principal, env: Env)
    ensures var c1 := Controller.ClearConnectedTime(c.(initiator := who)).(handshake := false, queue := []);
      Controller.ActivateInternal(c, forceDns, selection, who, env) ==
        if ChooseServer(selection, c.server.exitKey, env.exitPick, env.exitKnown).None? then Emit(c1, ServerUnavailable)
        else if !env.device then c1.(nextStep := Disconnect)
        else Planned(c1, forceDns, selection, env)
  {
    hide PlanHops, ChooseServer, Controller.Launch, Controller.ClearConnectedTime;
    ClearTimeFrame(c.(initiator := who));
    var c1 := Controller.ClearConnectedTime(c.(initiator := who)).(handshake := false, queue := []);
    PlanNeedsExit(c1, forceDns, selection, env);
  }

  lemma NoEntryNoHops(server: ServerData, forceDns: bool, selection: Selection, env: Env)
    requires env.multihopFeature && server.multihop
    requires !CanServe(selection, server.entryKey, env.entryPick, env.entryKnown)
    ensures forall hops :: !LeadsTo(server, forceDns, selection, env, hops)
  {
  }

  lemma ClearTimeFrame(c: Ctl)
    ensures Controller.ClearConnectedTime(c).server == c.server
  {
  }

  lemma QueueIsPlan(c: Ctl, forceDns: bool, selection: Selection, env: Env, queue: seq<Hop>, ok: bool)
    requires if ok then LeadsTo(c.server, forceDns, selection, env, queue)
             else forall hops :: !LeadsTo(c.server, forceDns, selection, env, hops)
    requires c.queue == [] && (if ok then queue != [] else queue == [])
    ensures Planned(c, forceDns, selection, env) ==
      if ok then Controller.Launch(c.(queue := queue), queue, env) else Emit(c.(queue := queue), ServerUnavailable)
  {
    hide PlanHops, LeadsTo;
    if ok {
      LaunchQueue(c, queue, env);
    }
    var plan := PlanHops(c, forceDns, selection, env);
    PlanLeads(c, forceDns, selection, env, if plan.Some? then plan.value else queue);
    PlanLeads(c, forceDns, selection, env, queue);
  }

  lemma LaunchQueue(c: Ctl, queue: seq<Hop>, env: Env)
    requires queue != []
    ensures Controller.Launch(c.(queue := queue), queue, env) == Controller.Launch(c, queue, env)
  {
  }

  lemma EstablishedClearsQueue(c: Ctl, now: int)
    ensures Established(c.(queue := []), now) == Established(c, now)
  {
  }

  lemma DisconnectedMeans(c: Ctl, env: Env)
    ensures var d := OnDisconnected(c, env); !d.clock && (c.nextStep.Quit? ==> Left(c, d))
  {
    hide OnDisconnected, Left;
    DisconnectedStopsClock(c, env);
    if c.nextStep.Quit? {
      DisconnectedQuits(c, env);
    }
  }

  lemma StopMeans(c: Ctl, who: Principal, env: Env)
    ensures var d := DoDeactivate(c, who, env).0;
      if Rank(c.initiator) > Rank(who) || c.state in {Initializing, Off, Disconnecting} then d == c else !d.clock
  {
    hide PrepareDeactivate, DaemonDeactivate;
    if DoDeactivate(c, who, env).1 {
      DeactivateStopsClock(c, who, env);
    }
  }

  lemma SwitchMeans(c: Ctl, data: ServerData, env: Env)
    ensures var (d, accepted) := Controller.SwitchServers(c, data, env);
      && SendsFirst(c.out.messages, d.out.messages, !c.state.Off? && c.nextStep.NoStep? && env.device,
                    data, false, Randomize, env)
      && d.since == c.since && d.out.starts == c.out.starts
  {
    hide StartSwitch, SendsFirst;
    SwitchSendsOneActivate(c, data, env);
    StartSwitchSession(c, data, Randomize, Switching, env);
  }

  lemma SilentSwitchMeans(c: Ctl, coolDown: bool, exitServers: nat, env: Env)
    ensures var (d, accepted) := Controller.SilentSwitchServers(c, coolDown, exitServers, env);
      && SendsFirst(c.out.messages, d.out.messages,
                    c.state.On? && !(coolDown && exitServers <= 1) && c.nextStep.NoStep? && env.device,
                    c.server, false, if coolDown then Randomize else DoNotRandomize, env)
      && d.since == c.since && d.out.starts == c.out.starts
  {
    hide StartSwitch, SendsFirst;
    var selection := if coolDown then Randomize else DoNotRandomize;
    SilentSwitchSendsOneActivate(c, coolDown, exitServers, env);
    StartSwitchSession(c, c.server, selection, SilentSwitching, env);
  }

  lemma RetryMeans(c: Ctl, env: Env)
    requires Inv(c) && c.handshake
    ensures !HasFinalStep(c.nextStep) ==>
      SendsFirst(c.out.messages, OnHandshakeTimeout(c, env).out.messages, c.retry < 8 && env.device,
                 c.server, c.retry == 0, Randomize, env)
  {
    hide Inv, OnHandshakeTimeout, SendsFirst;
    if !HasFinalStep(c.nextStep) {
      RetrySendsPick(c, env);
    }
  }

  lemma QuitMeans(c: Ctl, env: Env)
    ensures var d := DoQuit(c, env); Left(c, d) || d.nextStep.Quit?
  {
    hide DoQuit, Left;
    QuitKeeps(c, env);
  }

  // ------------------------------------------------------------------
  // The event loop
  // ------------------------------------------------------------------

  /** What callers may rely on in every state the object reaches. */
  ghost predicate Safe(c: Ctl) {
    && (c.handshake ==> Shape(c.queue) && (c.retry <= 8 || (c.retry == 9 && LateExit(c.queue))))
    && c.out.reactivations <= 8 && c.out.failed !! {286, 303}
    && (c.state.OnPartial? ==> c.initiator.ExtensionUser?)
  }

  /** Delivers events one at a time; history lists them. */
  class EventLoop {
    const controller: VpnController
    ghost const origin: Ctl
    ghost var history: seq<Event>

    /** The object is where the run of its history leads. */
    ghost predicate Valid()
      reads this, controller
    {
      Initial(origin) && controller.View() == Run(origin, history)
    }

    constructor (garbage: bool, data: ServerData)
      ensures Valid() && fresh(controller) && history == [] && Safe(controller.View())
    {
      var c := new VpnController(garbage, data);
      controller := c;
      origin := c.View();
      history := [];
    }

    /** One turn of the loop: the object takes the step of the run and is safe. */
    method Dispatch(e: Event)
      requires Valid()
      modifies this`history, controller
      ensures Valid() && history == old(history) + [e]
      ensures controller.View() == Step(old(controller.View()), e) && Safe(controller.View())
    {
      hide Step, Run, Inv, Initial, Safe;
      ghost var c := controller.View();
      assert Inv(c) by { InitialHasInv(origin); RunKeeps(origin, history); }
      Deliver(e);
      history := history + [e];
      RunAppend(origin, old(history), [e]);
      RunOne(c, e);
      SafeRun(origin, history);
    }

    /** Switching the location sends one activate, for the first hop to the server
        picked there, or nothing, and never a deactivate; the connected-since time
        stays. */
    method SwitchTo(data: ServerData, env: Env)
      requires Valid()
      modifies this`history, controller
      ensures Valid()
      ensures SendsFirst(old(controller.trace.messages), controller.trace.messages,
        old(controller.state) != Off && old(controller.nextStep) == NoStep && env.device,
        data, false, Randomize, env)
      ensures controller.connectedTime == old(controller.connectedTime)
      ensures controller.trace.starts == old(controller.trace.starts)
    {
      ghost var c := controller.View();
      Dispatch(Switch(data, env));
      hide StartSwitch, SendsFirst;
      SwitchMeans(c, data, env);
    }

    /** Switching silently: the same for the current location, from StateOn; without
        a cool-down to the recorded servers. */
    method SwitchSilently(coolDown: bool, exitServers: nat, env: Env)
      requires Valid()
      modifies this`history, controller
      ensures Valid()
      ensures SendsFirst(old(controller.trace.messages), controller.trace.messages,
        old(controller.state) == On && !(coolDown && exitServers <= 1) && old(controller.nextStep) == NoStep && env.device,
        old(controller.serverData), false, if coolDown then Randomize else DoNotRandomize, env)
      ensures controller.connectedTime == old(controller.connectedTime)
      ensures controller.trace.starts == old(controller.trace.starts)
    {
      ghost var c := controller.View();
      Dispatch(SilentSwitch(coolDown, exitServers, env));
      hide StartSwitch, SendsFirst;
      SilentSwitchMeans(c, coolDown, exitServers, env);
    }

    /** Asking for an activation while off sends nothing: it asks for an account
        check, or warns of a captive portal. */
    method RequestActivation(data: ServerData, who: Principal, selection: Selection, env: Env)
      requires Valid() && controller.state == Off
      modifies this`history, controller
      ensures Valid() && controller.state == Off && controller.trace.messages == old(controller.trace.messages)
      ensures |controller.requests| == |old(controller.requests)| +
        if !old(controller.portalDetected) && (env.checkConnectivity ==> env.reachable) then 1 else 0
    {
      Dispatch(Activate(data, who, selection, env));
    }

    /** A request to stop that is accepted stops the clock at once; one by a lower
        principal than the initiator, or while idle, changes nothing. */
    method RequestDeactivation(who: Principal, env: Env)
      requires Valid()
      modifies this`history, controller
      ensures Valid()
      ensures if Rank(old(controller.initiator)) > Rank(who)
                 || old(controller.state) in {Initializing, Off, Disconnecting}
              then controller.View() == old(controller.View())
              else !controller.timer
    {
      ghost var c := controller.View();
      Dispatch(Event.Deactivate(who, env));
      hide PrepareDeactivate, DaemonDeactivate;
      StopMeans(c, who, env);
    }

    /** A request to quit is reported at once or pending. */
    method RequestQuit(env: Env)
      requires Valid()
      modifies this`history, controller
      ensures Valid()
      ensures Left(old(controller.View()), controller.View()) || controller.nextStep == Quit
    {
      ghost var c := controller.View();
      Dispatch(QuitRequest(env));
      hide DoQuit, Left;
      QuitMeans(c, env);
    }

    /** While a quit is pending, the daemon's disconnect reports it. */
    method DaemonDisconnects(env: Env)
      requires Valid()
      modifies this`history, controller
      ensures Valid()
      ensures old(controller.daemonState) == Ready ==> !controller.timer
      ensures old(controller.daemonState) == Ready && old(controller.nextStep) == Quit ==>
        Left(old(controller.View()), controller.View())
    {
      ghost var c := controller.View();
      Dispatch(DaemonDisconnected(env));
      hide OnDisconnected, Left;
      DisconnectedMeans(c.(daemonTimer := false), env);
      SameSignals(c, c.(daemonTimer := false), controller.View());
    }

    method Deliver(e: Event)
      requires Inv(controller.View())
      modifies controller
      ensures controller.View() == Step(old(controller.View()), e)
    {
      hide DoDeactivate, DoActivate, OnAccountReply, OnHandshakeTimeout, SwitchServers,
           SilentSwitchServers, DoQuit, DoUpdateRequired, Inv,
           ImplInitialized, InitializeInternal, OnConnected, OnDisconnected, OnStatus, OnSocketError;
      if FromDaemon(e) {
        controller.DispatchLink(e);
        return;
      }
      match e {
        case Activate(data, who, selection, env) =>
          var _ := controller.Activate(data, who, selection, env);
        case Deactivate(who, env) =>
          var _ := controller.Deactivate(who, env);
        case AccountReply(index, failed, appReady, env) =>
          if index < |controller.requests| {
            controller.AccountReply(index, failed, appReady, env);
          }
        case HandshakeExpired(env) =>
          if controller.handshakeTimer {
            controller.HandshakeTimeout(env);
          }
        case ClockTick =>
          if controller.timer && controller.state != On && controller.state != OnPartial {
            controller.SendOut(AssertFailed(231));
          }
        case Switch(data, env) =>
          var _ := controller.SwitchServers(data, env);
        case SilentSwitch(coolDown, exitServers, env) =>
          var _ := controller.SilentSwitchServers(coolDown, exitServers, env);
        case QuitRequest(env) => controller.QuitController(env);
        case UpdateRequest(env) => controller.UpdateRequired(env);
        case PortalPresent => controller.portalDetected := true;
        case PortalGone => controller.portalDetected := false;
      }
    }
  }

  lemma SafeRun(c: Ctl, events: seq<Event>)
    requires Initial(c)
    ensures Safe(Run(c, events))
  {
    hide Run;
    HandshakeTimerSafe(c, events);
    OnPartialIsExtension(c, events);
  }
}
