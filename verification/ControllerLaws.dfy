/** Smaller laws of the controller and its daemon link: what ends and what
    survives a session, which calls are refused, how the link recovers. */
module ControllerLaws {
  import opened Common
  import opened Controller

  // ------------------------------------------------------------------
  // Sessions
  // ------------------------------------------------------------------

  /** A daemon that is found connected hands over the time it has been so. */
  lemma DaemonDateKept(c: Ctl, date: int, env: Env)
    requires c.daemon.DaemonInitializing? && !c.nextStep.Quit? && !c.nextStep.Update?
    ensures var d := Step(c, DaemonStatus(true, true, Some(date), env));
      && d.state == On && d.since == Some(date) && d.clock && d.daemon == Ready
      && d.out.messages == c.out.messages && d.out.starts == c.out.starts
  {
  }

  /** A backend that initialises without a date counts from now. */
  lemma NoDateCountsFromNow(c: Ctl, now: int)
    requires !c.nextStep.Quit? && !c.nextStep.Update?
    ensures ImplInitialized(c, true, true, None, now).since == Some(now)
    ensures ImplInitialized(c, true, false, None, now).state == Off
    ensures ImplInitialized(c, true, false, None, now).since == c.since
  {
  }

  /** disconnected() continues a switch. */
  predicate Continues(c: Ctl) {
    c.nextStep == NoStep && (c.state == Switching || c.state == SilentSwitching)
  }

  /** The end of a session is reported exactly when a disconnect is neither the
      middle of a switch nor the end of a quit or an update, except while the
      connection was still being confirmed. */
  lemma SessionEndReported(c: Ctl, env: Env)
    requires !Continues(c)
    ensures var d := OnDisconnected(c, env);
      && d.state == Off && d.nextStep == NoStep
      && d.out.signals == c.out.signals +
         (match c.nextStep
          case Quit => [ReadyToQuit]
          case Update => [ReadyToUpdate]
          case _ => if c.state == Confirming then [] else [EndTelemetry])
      && (c.nextStep == NoStep || c.nextStep == Disconnect ==> d.initiator == Null)
  {
    hide Resume, TearDown, ProcessNextStep;
    var c1 := TearDown(c);
    TornDown(c);
    Processed(c1);
    ResumeEnds(ProcessNextStep(c1).0, c1.nextStep, env);
  }

  lemma TornDown(c: Ctl)
    ensures var d := TearDown(c);
      && d.state == c.state && d.nextStep == c.nextStep && d.out.signals == c.out.signals
      && d.switching == c.switching && d.queue == [] && !d.handshake && !d.clock && d.retry == 0
      && d.since == (if c.switching then c.since else None)
  {
  }

  lemma Processed(c: Ctl)
    ensures var (d, final) := ProcessNextStep(c);
      && final == (c.nextStep == Quit || c.nextStep == Update)
      && d == c.(nextStep := NoStep, out := d.out)
      && d.out.signals == c.out.signals +
         (match c.nextStep case Quit => [ReadyToQuit] case Update => [ReadyToUpdate] case _ => [])
  {
  }

  lemma ResumeEnds(c: Ctl, step: NextStep, env: Env)
    requires !(step == NoStep && (c.state == Switching || c.state == SilentSwitching))
    ensures var d := Resume(c, step, env);
      && d == c.(initiator := Null, state := Off, out := d.out)
      && d.out.signals == c.out.signals + (if c.state == Confirming then [] else [EndTelemetry])
  {
    if c.state.Confirming? {
    } else {
    }
  }

  /** In the middle of a switch it never is. */
  lemma SwitchEndsNothing(c: Ctl, env: Env)
    requires Continues(c)
    ensures var d := OnDisconnected(c, env);
      d.out.signals == c.out.signals || d.out.signals == c.out.signals + [ServerUnavailable]
      || d.out.signals == c.out.signals + [ResetRequested]
  {
    hide StartActivation;
    var c1 := ProcessNextStep(TearDown(c)).0;
    assert c1.state == c.state && c1.out.signals == c.out.signals;
    var who := if c.state.SilentSwitching? then c1.initiator else ClientUser;
    ActivationSignals(c1.(switching := true, server := c1.nextServer), c1.nextSelection, who, env);
  }

  lemma ActivationSignals(c: Ctl, selection: Selection, who: Principal, env: Env)
    ensures var d := StartActivation(c, selection, who, env);
      d.out.signals == c.out.signals || d.out.signals == c.out.signals + [ServerUnavailable]
      || d.out.signals == c.out.signals + [ResetRequested]
  {
    hide ActivateInternal;
    var c1 := ClearRetryCounter(if who.ExtensionUser? then c else c.(state := Connecting));
    InternalSignals(c1, selection, who, env);
  }

  lemma InternalSignals(c: Ctl, selection: Selection, who: Principal, env: Env)
    ensures var d := ActivateInternal(c, false, selection, who, env);
      d.out.signals == c.out.signals || d.out.signals == c.out.signals + [ServerUnavailable]
      || d.out.signals == c.out.signals + [ResetRequested]
  {
    hide PlanHops, ChooseServer, ActivateNext;
    var c1 := ClearConnectedTime(c.(initiator := who)).(handshake := false, queue := []);
    var plan := PlanHops(c1, false, selection, env);
    if env.device && plan.Some? {
      PlanHopsShape(c1, false, selection, env);
      var q := plan.value;
      ActivateNextFrame(c1.(queue := q, server := c1.server.(entryKey := q[0].key, exitKey := q[|q| - 1].key)), env);
    }
  }

  /** Outside a switch a disconnect forgets the session: no hop, no timer, no
      retries, no time. */
  lemma DisconnectForgets(c: Ctl, env: Env)
    requires !Continues(c)
    ensures var d := OnDisconnected(c, env);
      && d.queue == [] && !d.handshake && !d.clock && d.retry == 0
      && d.since == (if c.switching then c.since else None)
  {
    hide Resume, TearDown, ProcessNextStep;
    var c1 := TearDown(c);
    TornDown(c);
    Processed(c1);
    ResumeEnds(ProcessNextStep(c1).0, c1.nextStep, env);
  }

  /** A silent switch keeps the initiator; an ordinary one makes it the client,
      since the extension cannot switch. */
  lemma SwitchInitiator(c: Ctl, env: Env, hops: seq<Hop>)
    requires Continues(c) && env.device && LeadsTo(c.nextServer, false, c.nextSelection, env, hops)
    ensures var d := OnDisconnected(c, env);
      && d.initiator == (if c.state == SilentSwitching then c.initiator else ClientUser)
      && d.switching && d.queue == hops && d.handshake
      && d.state == (if d.initiator == ExtensionUser then c.state else Confirming)
  {
    hide TearDown, ProcessNextStep, StartActivation, LeadsTo;
    TornDown(c);
    var c1 := ProcessNextStep(TearDown(c)).0;
    Processed(TearDown(c));
    NextFrame(c);
    var who := if c.state.SilentSwitching? then c1.initiator else ClientUser;
    ActivationStarts(c1.(switching := true, server := c1.nextServer), c1.nextSelection, who, env, hops);
  }

  lemma NextFrame(c: Ctl)
    ensures var d := TearDown(c);
      d.nextServer == c.nextServer && d.nextSelection == c.nextSelection && d.initiator == c.initiator
  {
  }

  /** An activation by the client is being confirmed once its first hop is sent;
      one by the extension keeps the state. The retries start afresh. */
  lemma ActivationStarts(c: Ctl, selection: Selection, who: Principal, env: Env, hops: seq<Hop>)
    requires env.device && LeadsTo(c.server, false, selection, env, hops)
    ensures var d := StartActivation(c, selection, who, env);
      && d.initiator == who && d.queue == hops && d.handshake && d.switching == c.switching
      && d.state == (if who == ExtensionUser then c.state else Confirming)
      && d.retry == 0 && d.out.reactivations == 0
  {
    hide ActivateInternal, LeadsTo;
    var c1 := ClearRetryCounter(if who.ExtensionUser? then c else c.(state := Connecting));
    ActivationRecords(c1, false, selection, who, env, hops);
    InternalFrame(c1, selection, who, env, hops);
  }

  lemma InternalFrame(c: Ctl, selection: Selection, who: Principal, env: Env, hops: seq<Hop>)
    requires env.device && LeadsTo(c.server, false, selection, env, hops)
    ensures var d := ActivateInternal(c, false, selection, who, env);
      d.switching == c.switching && d.retry == c.retry && d.out.reactivations == c.out.reactivations
  {
    hide PlanHops, ChooseServer, LeadsTo;
    PlanLeads(c, false, selection, env, hops);
    PlanHopsShape(c, false, selection, env);
    PlanNeedsExit(c, false, selection, env);
    var c1 := ClearConnectedTime(c.(initiator := who)).(handshake := false, queue := []);
    SamePlan(c, c1, false, selection, env);
    assert ActivateInternal(c, false, selection, who, env) == Launch(c1, hops, env);
  }

  /** A further hop without a device asks for a reset and sends nothing. */
  lemma NextHopWithoutDevice(c: Ctl, env: Env)
    requires c.daemon == Ready && |c.queue| > 1 && !env.device
    ensures var d := Step(c, DaemonConnected(c.queue[0].key, env));
      && d.queue == c.queue[1..] && d.out.messages == c.out.messages
      && d.out.signals == c.out.signals + [ResetRequested] && d.state == c.state
  {
  }

  /** The ninth attempt reports the location as unavailable and waits. */
  lemma GivesUp(c: Ctl, env: Env)
    requires Inv(c) && c.handshake && !HasFinalStep(c.nextStep) && c.retry >= 8
    ensures var d := Step(c, HandshakeExpired(env));
      && !d.handshake && d.queue == c.queue && d.state == c.state
      && d.out.messages == c.out.messages && d.out.signals == c.out.signals + [ServerUnavailable]
  {
    hide DoDeactivate;
  }

  /** A required update stops a running session through the daemon. */
  lemma UpdateStops(c: Ctl, env: Env)
    requires (c.state == On || c.state == OnPartial) && c.daemon == Ready
    ensures var d := Step(c, UpdateRequest(env));
      d.nextStep == Update && d.state == Disconnecting && d.out.messages == c.out.messages + [SentDeactivate]
  {
    hide OnDisconnected, PrepareDeactivate;
    var c1 := c.(nextStep := Update);
    PrepareQuit(c1);
    StoppingIsDisconnecting(c1);
  }

  // ------------------------------------------------------------------
  // Calls that are refused or ignored
  // ------------------------------------------------------------------

  /** The extension cannot stop what the client started; the client can stop
      either. */
  lemma ExtensionCannotStop(c: Ctl, env: Env)
    ensures c.initiator == ClientUser ==> Step(c, Deactivate(ExtensionUser, env)) == c
    ensures c.initiator != Null ==> Step(c, Deactivate(Null, env)) == c
    ensures c.initiator == ExtensionUser && c.state == OnPartial && c.daemon == Ready ==>
      Step(c, Deactivate(ExtensionUser, env)).out.messages == c.out.messages + [SentDeactivate]
    ensures c.state == On && c.daemon == Ready ==>
      Step(c, Deactivate(ClientUser, env)).out.messages == c.out.messages + [SentDeactivate]
  {
    hide OnDisconnected, PrepareDeactivate;
    PrepareQuit(c);
    StoppingIsDisconnecting(c);
  }

  lemma StoppingIsDisconnecting(c: Ctl)
    ensures c.state in {On, OnPartial, Confirming, Connecting} ==> PrepareDeactivate(c).state == Disconnecting
    ensures PrepareDeactivate(c).daemon == c.daemon && !PrepareDeactivate(c).handshake
  {
  }

  /** activate() is accepted in four states only. */
  lemma ActivateRefused(c: Ctl, data: ServerData, who: Principal, selection: Selection, env: Env)
    requires c.state !in {Off, OnPartial, Switching, SilentSwitching}
    ensures Step(c, Activate(data, who, selection, env)) == c
  {
  }

  /** And so is one from off while the network is known to be unreachable, unless a
      captive portal is to be reported. */
  lemma ActivateAccepted(c: Ctl, data: ServerData, who: Principal, selection: Selection, env: Env)
    ensures DoActivate(c, data, who, selection, env).1 <==>
      c.state in {Off, OnPartial, Switching, SilentSwitching}
      && (c.state == Off ==> c.portal || !env.checkConnectivity || env.reachable)
  {
    hide StartActivation;
  }

  /** Stopping with a captive portal present warns of it, once. */
  lemma StopWarnsOfPortal(c: Ctl)
    ensures var d := PrepareDeactivate(c);
      !d.portal && d.out.signals == c.out.signals + (if c.portal then [CaptivePortalBlocked] else [])
  {
  }

  /** Off with a captive portal: the warning is given once, and nothing starts. */
  lemma PortalBlocks(c: Ctl, data: ServerData, who: Principal, selection: Selection, env: Env)
    requires c.state == Off && c.portal
    ensures var d := Step(c, Activate(data, who, selection, env));
      && !d.portal && d.pending == c.pending && d.state == Off && d.out.messages == c.out.messages
      && d.out.signals == c.out.signals + [CaptivePortalBlocked]
  {
  }

  /** An account check that failed after the app left its main state is only
      forgotten. */
  lemma FailedCheckForgotten(c: Ctl, index: nat, env: Env)
    requires index < |c.pending|
    ensures Step(c, AccountReply(index, true, false, env))
         == c.(pending := c.pending[..index] + c.pending[index + 1..])
  {
  }

  /** A handshake with a server that nothing waits for changes nothing. */
  lemma UnexpectedHandshake(c: Ctl, key: Key, env: Env)
    requires if c.queue == [] then c.server.exitKey != key else c.queue[0].key != key
    ensures Step(c, DaemonConnected(key, env)) == c
  {
  }

  /** One with the exit server, with nothing pending, is a connection made from
      outside: the controller is on. */
  lemma OutsideConnection(c: Ctl, env: Env)
    requires c.daemon == Ready && c.queue == [] && c.nextStep == NoStep
    ensures var d := Step(c, DaemonConnected(c.server.exitKey, env));
      && d.state == (if c.initiator == ExtensionUser then OnPartial else On)
      && d.clock && d.retry == 0 && d.out.messages == c.out.messages
      && (c.state == On || c.state == OnPartial ==> d.since == c.since && d.out.starts == c.out.starts)
  {
    hide DoDeactivate;
  }

  /** A connection that comes up with a step pending is taken down again. */
  lemma PendingStepStops(c: Ctl, key: Key, env: Env)
    requires c.daemon == Ready && c.nextStep != NoStep && |c.queue| <= 1
    requires key == if c.queue == [] then c.server.exitKey else c.queue[0].key
    ensures var d := Step(c, DaemonConnected(key, env));
      d.nextStep == c.nextStep && d.state == Disconnecting && d.out.messages == c.out.messages + [SentDeactivate]
  {
    hide OnConnected, DoDeactivate;
    LastHop(c, key, env);
    var c1 := Established(c, env.now);
    EstablishedOn(c, env.now);
    hide Established;
    StopAsksDaemon(c1, env);
  }

  lemma LastHop(c: Ctl, key: Key, env: Env)
    requires |c.queue| <= 1 && key == if c.queue == [] then c.server.exitKey else c.queue[0].key
    ensures var c1 := Established(c, env.now);
      OnConnected(c, key, env) == if HasFinalStep(c1.nextStep) then DoDeactivate(c1, ClientUser, env).0 else c1
  {
    hide Established, DoDeactivate;
  }

  lemma StopAsksDaemon(c: Ctl, env: Env)
    requires c.state in {On, OnPartial, Confirming, Connecting} && c.daemon == Ready
    ensures var d := DoDeactivate(c, ClientUser, env).0;
      && d.nextStep == c.nextStep && d.state == Disconnecting && !d.handshake
      && d.out.messages == c.out.messages + [SentDeactivate]
  {
    hide OnDisconnected, PrepareDeactivate;
    PrepareQuit(c);
    StoppingIsDisconnecting(c);
  }

  lemma EstablishedOn(c: Ctl, now: int)
    ensures var d := Established(c, now);
      && (d.state == On || d.state == OnPartial) && d.nextStep == c.nextStep && d.daemon == c.daemon
      && d.out.messages == c.out.messages && Rank(d.initiator) <= Rank(ClientUser)
  {
  }

  /** So is a connection attempt that times out. */
  lemma PendingStepEndsAttempt(c: Ctl, env: Env)
    requires Inv(c) && c.handshake && c.nextStep != NoStep
    requires c.daemon == Ready && (c.state == Confirming || c.state == Connecting)
    ensures var d := Step(c, HandshakeExpired(env));
      && d.nextStep == c.nextStep && d.state == Disconnecting && !d.handshake
      && d.out.messages == c.out.messages + [SentDeactivate]
  {
    hide DoDeactivate, Retry;
    StopAsksDaemon(c.(handshake := false), env);
  }

  // ------------------------------------------------------------------
  // The daemon link
  // ------------------------------------------------------------------

  /** Reports of the daemon count only once the link is ready, and status replies
      only until then. */
  lemma LinkIgnores(c: Ctl, key: Key, wellFormed: bool, connected: bool, date: Option<int>, env: Env)
    ensures c.daemon != Ready ==> Step(c, DaemonConnected(key, env)) == c && Step(c, DaemonDisconnected(env)) == c
    ensures c.daemon != DaemonInitializing ==> Step(c, DaemonStatus(wellFormed, connected, date, env)) == c
  {
  }

  /** Timers that do not run do not fire. */
  lemma IdleTimers(c: Ctl, env: Env)
    ensures !c.handshake ==> Step(c, HandshakeExpired(env)) == c
    ensures !c.clock ==> Step(c, ClockTick) == c
    ensures !c.daemonTimer ==> Step(c, DaemonTimerExpired) == c
  {
  }

  /** initialize() forgets what the link knew and takes the location twice, for
      now and for the next switch. */
  lemma InitializeStarts(c: Ctl, data: ServerData)
    ensures var d := Step(c, Initialize(data));
      && d.state == Initializing && d.server == data && d.nextServer == data
      && d.daemon == DaemonInitializing && !d.daemonTimer && d.backoff == 500
  {
  }

  /** After a socket error the reconnection timer runs, and when it fires the
      link starts over; a status reply then makes it ready again. */
  lemma LinkRecovers(c: Ctl, env: Env, later: Env, connected: bool, date: Option<int>)
    ensures var c1 := Step(c, SocketError(env)); var c2 := Step(c1, DaemonTimerExpired);
      && c1.daemonTimer && !c2.daemonTimer && c2.daemon == DaemonInitializing
      && Step(c2, DaemonStatus(true, connected, date, later)).daemon == Ready
  {
    hide OnDisconnected, ImplInitialized;
    var c2 := Step(Step(c, SocketError(env)), DaemonTimerExpired);
    InitializedKeepsLink(c2.(daemon := Ready), connected, date, later.now);
  }

  lemma InitializedKeepsLink(c: Ctl, connected: bool, date: Option<int>, now: int)
    ensures ImplInitialized(c, true, connected, date, now).daemon == c.daemon
  {
  }
}
