/** In what order a latency round pings its servers, when it pings one again, and
    how far it has come (src/serverlatency.cpp). */
module ServerLatencyOrder {
  import opened ServerLatency

  // ------------------------------------------------------------------
  // First pings, in order
  // ------------------------------------------------------------------

  /** The servers of a log, in the order of their first pings. */
  function FirstTries(log: seq<Sent>): seq<Key> {
    if log == [] then []
    else
      var before, key := FirstTries(log[..|log| - 1]), log[|log| - 1].key;
      if key in before then before else before + [key]
  }

  lemma FirstTriesSnoc(log: seq<Sent>, m: Sent)
    ensures FirstTries(log + [m]) == FirstTries(log) + if m.key in FirstTries(log) then [] else [m.key]
  {
    assert (log + [m])[..|log|] == log;
  }

  /** How many servers of the plan have left the queue. */
  function Tried(p: Prober): int {
    |p.plan| - |p.queue|
  }

  /** The queue is what remains of the plan, which is sorted by distance; the
      servers tried are, in order, those before it. */
  ghost predicate Ordered(p: Prober) {
    && p.round == KeysOf(p.plan) && Nearest(p.plan) && |p.queue| <= |p.plan|
    && (!p.active ==> p.queue == [] && p.replies == [])
    && (p.active ==> p.queue == p.plan[Tried(p)..])
    && (p.active && Distinct(p.round) ==> FirstTries(p.log) == p.round[..Tried(p)])
    && (Distinct(p.round) ==> FirstTries(p.log) <= p.round)
    && (forall i :: 0 <= i < |p.replies| ==> p.replies[i].key in FirstTries(p.log))
  }

  lemma ExpireFirstOrdered(p: Prober, now: nat)
    requires Ordered(p) && p.active && p.replies != []
    ensures Ordered(ExpireFirst(p, now)) && ExpireFirst(p, now).active
  {
    RetriedReplies(p, now);
    hide FirstTries, Nearest, KeysOf, Distinct, Transmit;
  }

  /** A retry adds no server to those tried. */
  lemma RetriedReplies(p: Prober, now: nat)
    requires p.replies != [] && forall i :: 0 <= i < |p.replies| ==> p.replies[i].key in FirstTries(p.log)
    ensures var d := ExpireFirst(p, now);
      && FirstTries(d.log) == FirstTries(p.log)
      && (forall i :: 0 <= i < |d.replies| ==> d.replies[i].key in FirstTries(d.log))
      && d.queue == p.queue && d.plan == p.plan && d.round == p.round && d.active == p.active
  {
    var r := p.replies[0];
    FirstTriesSnoc(p.log, Sent(r.key, p.sequence));
    assert FirstTries(p.log) + [] == FirstTries(p.log);
    hide FirstTries;
  }

  lemma {:induction false} ExpireOrdered(p: Prober, now: nat)
    requires Ordered(p) && p.active
    ensures Ordered(Expire(p, now)) && Expire(p, now).active
    decreases ExpiredCount(p.replies, now)
  {
    hide Ordered, ExpireFirst;
    if p.replies != [] && Expired(p.replies[0], now) {
      ExpireFirstOrdered(p, now);
      ExpireFirstProgress(p, now);
      ExpireOrdered(ExpireFirst(p, now), now);
    }
  }

  /** Of distinct servers, the next one has not been tried. */
  lemma NextIsNew(round: seq<Key>, n: nat)
    requires Distinct(round) && n < |round|
    ensures round[n] !in round[..n] && round[..n] + [round[n]] == round[..n + 1]
  {
  }

  lemma SentReplies(p: Prober, now: nat)
    requires p.queue != [] && forall i :: 0 <= i < |p.replies| ==> p.replies[i].key in FirstTries(p.log)
    ensures var d := SendNext(p, now);
      && (forall i :: 0 <= i < |d.replies| ==> d.replies[i].key in FirstTries(d.log))
      && FirstTries(d.log) == FirstTries(p.log) +
         if p.queue[0].key in FirstTries(p.log) then [] else [p.queue[0].key]
  {
    FirstTriesSnoc(p.log, Sent(p.queue[0].key, p.sequence));
    hide FirstTries;
  }

  /** The next server is the first of what remains. */
  lemma SendNextOrdered(p: Prober, now: nat)
    requires Ordered(p) && p.active && p.queue != []
    ensures Ordered(SendNext(p, now)) && SendNext(p, now).active
  {
    var n, d := Tried(p), SendNext(p, now);
    SentReplies(p, now);
    assert p.queue[0] == p.plan[n] && d.queue == p.plan[n + 1..];
    assert p.round[n] == p.plan[n].key;
    if Distinct(p.round) {
      NextIsNew(p.round, n);
    }
    hide FirstTries, Nearest, KeysOf, Distinct;
  }

  lemma {:induction false} FillOrdered(p: Prober, now: nat)
    requires Ordered(p) && p.active
    ensures Ordered(Fill(p, now)) && Fill(p, now).active
    decreases |p.queue|
  {
    hide Ordered, SendNext;
    if |p.replies| < MAX_PARALLEL && p.queue != [] {
      SendNextShorter(p, now);
      SendNextOrdered(p, now);
      FillOrdered(SendNext(p, now), now);
    }
  }

  lemma SendNextShorter(p: Prober, now: nat)
    requires p.queue != []
    ensures |SendNext(p, now).queue| < |p.queue|
  {
  }

  lemma StopOrdered(p: Prober)
    requires Ordered(p)
    ensures Ordered(Stop(p))
  {
  }

  lemma MaybeSendPingsOrdered(p: Prober, now: nat)
    requires Ordered(p)
    ensures Ordered(MaybeSendPings(p, now))
  {
    hide Expire, Fill;
    if p.active {
      ExpireOrdered(p, now);
      FillOrdered(Expire(p, now), now);
      var q := Fill(Expire(p, now), now);
      StopOrdered(q);
      hide FirstTries, Nearest, KeysOf, Distinct;
    }
  }

  lemma RecvPingOrdered(p: Prober, sequence: nat, received: nat, now: nat)
    requires Ordered(p)
    ensures Ordered(RecvPing(p, sequence, received, now))
  {
    hide MaybeSendPings, FirstTries, Nearest, KeysOf, Distinct, Erase;
    var i := FindSequence(p.replies, sequence);
    if i < |p.replies| {
      var msec := received - p.replies[i].timestamp;
      var p1 := if msec <= UINT_MAX then SetLatency(p, p.replies[i].key, msec) else p;
      EraseOrdered(p1, i);
      MaybeSendPingsOrdered(Erase(p1, i), now);
    }
  }

  lemma EraseOrdered(p: Prober, i: nat)
    requires Ordered(p) && i < |p.replies|
    ensures Ordered(Erase(p, i))
  {
    hide FirstTries, Nearest, KeysOf, Distinct;
    var d := Erase(p, i);
    forall j | 0 <= j < |d.replies| ensures d.replies[j].key in FirstTries(d.log) {
      assert d.replies[j] == p.replies[if j < i then j else j + 1];
    }
  }

  lemma StartOrdered(p: Prober, supported: bool, vpnOff: bool, cities: seq<City>, now: nat)
    requires Ordered(p)
    ensures Ordered(DoStart(p, supported, vpnOff, cities, now))
  {
    hide MaybeSendPings, BuildQueue, KeysOf;
    if supported && vpnOff && !p.active {
      var queue := BuildQueue(p.queue, cities);
      BuildQueueCorrect(p.queue, cities, Everyone);
      MaybeSendPingsOrdered(
        p.(active := true, sequence := 0, wantRefresh := false, queue := queue, total := |queue|,
           round := KeysOf(queue), plan := queue, log := [], done := []), now);
    }
  }

  lemma StepOrdered(p: Prober, e: Event)
    requires Ordered(p)
    ensures Ordered(Step(p, e))
  {
    hide MaybeSendPings, RecvPing, DoStart, FirstTries, Nearest, KeysOf, Distinct;
    match e
    case Start(supported, vpnOff, cities, now) => StartOrdered(p, supported, vpnOff, cities, now);
    case Tick(now) => MaybeSendPingsOrdered(p, now);
    case Receive(sequence, received, now) => RecvPingOrdered(p, sequence, received, now);
    case VpnActive(_) => StopOrdered(p);
    case Clear(_) =>
  }

  lemma {:induction false} RunOrdered(p: Prober, events: seq<Event>)
    requires Ordered(p)
    ensures Ordered(Run(p, events))
    decreases |events|
  {
    hide Step, Ordered;
    if events != [] {
      StepOrdered(p, events[0]);
      RunOrdered(Step(p, events[0]), events[1..]);
    }
  }

  /** In every run, for distinct servers: those tried in the round, in the order
      of their first pings, followed by those still queued, are the round; after
      the round those tried are a first part of it. No server gets its first ping
      while a strictly nearer one is queued. */
  lemma NearestFirst(events: seq<Event>)
    ensures var p := Run(IDLE, events); p.round == KeysOf(p.plan) && (Distinct(p.round) ==>
      && (p.active ==> FirstTries(p.log) + KeysOf(p.queue) == p.round)
      && FirstTries(p.log) <= p.round
      && (p.active ==> forall i, j :: 0 <= i < |p.plan| && p.plan[i].key in FirstTries(p.log) && 0 <= j < |p.queue| ==>
          p.plan[i].distance <= p.queue[j].distance))
  {
    hide Run;
    assert Ordered(IDLE) by { IdleOrdered(); }
    RunOrdered(IDLE, events);
    var p := Run(IDLE, events);
    if p.active && Distinct(p.round) {
      TriedThenQueued(p);
    }
  }

  lemma IdleOrdered()
    ensures Ordered(IDLE)
  {
    assert KeysOf([]) == [];
  }

  lemma TriedThenQueued(p: Prober)
    requires Ordered(p) && p.active && Distinct(p.round)
    ensures FirstTries(p.log) + KeysOf(p.queue) == p.round
    ensures forall i, j :: 0 <= i < |p.plan| && p.plan[i].key in FirstTries(p.log) && 0 <= j < |p.queue| ==>
      p.plan[i].distance <= p.queue[j].distance
  {
    hide FirstTries, Nearest, Distinct, KeysOf;
    KeysOfRest(p.plan, Tried(p));
    assert p.round[..Tried(p)] + p.round[Tried(p)..] == p.round;
    forall i, j | 0 <= i < |p.plan| && p.plan[i].key in FirstTries(p.log) && 0 <= j < |p.queue|
      ensures p.plan[i].distance <= p.queue[j].distance
    {
      NearerTried(p, i, j);
    }
  }

  lemma KeysOfRest(q: seq<PingRecord>, n: nat)
    requires n <= |q|
    ensures KeysOf(q[n..]) == KeysOf(q)[n..]
  {
  }

  lemma NearerTried(p: Prober, i: nat, j: nat)
    requires Ordered(p) && p.active && Distinct(p.round)
    requires i < |p.plan| && p.plan[i].key in FirstTries(p.log) && j < |p.queue|
    ensures p.plan[i].distance <= p.queue[j].distance
  {
    var n := Tried(p);
    assert p.round[i] == p.plan[i].key;
    hide FirstTries, Nearest, Distinct, KeysOf;
    PositionKnown(p.round, n, i);
    assert p.queue[j] == p.plan[n + j];
    Sorted(p.plan, i, n + j);
  }

  /** Of distinct servers, one among the first n stands there. */
  lemma PositionKnown(round: seq<Key>, n: nat, i: nat)
    requires Distinct(round) && n <= |round| && i < |round| && round[i] in round[..n]
    ensures i < n
  {
    var k :| 0 <= k < n && round[..n][k] == round[i];
    assert round[k] == round[i];
  }

  lemma Sorted(q: seq<PingRecord>, i: nat, j: nat)
    requires Nearest(q) && i <= j < |q|
    ensures q[i].distance <= q[j].distance
  {
  }

  /** Every record of the queue carries the distance of a city that lists its
      server. */
  lemma {:induction false} QueueDistances(q: seq<PingRecord>, cities: seq<City>, r: PingRecord)
    requires r in BuildQueue(q, cities)
    ensures r in q || exists c :: c in cities && r.key in c.servers && r.distance == c.distance
    decreases |cities|
  {
    hide InsertServers;
    if cities != [] {
      var city := cities[0];
      var q1 := InsertServers(q, InsertAt(q, city.distance), city.distance, city.servers);
      QueueDistances(q1, cities[1..], r);
      if r in q1 {
        InsertedDistances(q, InsertAt(q, city.distance), city.distance, city.servers, r);
        assert city in cities;
      }
    }
  }

  lemma {:induction false} InsertedDistances(q: seq<PingRecord>, i: nat, distance: real, servers: seq<Key>,
                                             r: PingRecord)
    requires i <= |q| && r in InsertServers(q, i, distance, servers)
    ensures r in q || (r.key in servers && r.distance == distance)
    decreases |servers|
  {
    if servers != [] {
      var q1 := q[..i] + [PingRecord(servers[0], 0, 0, distance, 0)] + q[i..];
      InsertedDistances(q1, i, distance, servers[1..], r);
    }
  }

  // ------------------------------------------------------------------
  // Pings that are still in time
  // ------------------------------------------------------------------

  /** A ping sent less than five seconds ago stays outstanding: it is neither
      retried nor given up. */
  lemma InTimeStays(p: Prober, now: nat, r: PingRecord)
    requires p.active && r in p.replies && now < r.timestamp + 5000
    ensures MaybeSendPings(p, now).active && r in MaybeSendPings(p, now).replies
  {
    hide Expire, Fill;
    ExpireLeaves(p, now, r);
    FillLeaves(Expire(p, now), now, r);
  }

  lemma {:induction false} ExpireLeaves(p: Prober, now: nat, r: PingRecord)
    requires r in p.replies && now < r.timestamp + 5000
    ensures r in Expire(p, now).replies && Expire(p, now).active == p.active
    decreases ExpiredCount(p.replies, now)
  {
    if p.replies != [] && Expired(p.replies[0], now) {
      ExpireFirstProgress(p, now);
      StillThere(p, now, r);
      ExpireLeaves(ExpireFirst(p, now), now, r);
    }
  }

  lemma StillThere(p: Prober, now: nat, r: PingRecord)
    requires p.replies != [] && r in p.replies && r != p.replies[0]
    ensures r in ExpireFirst(p, now).replies
  {
    var i :| 0 <= i < |p.replies| && p.replies[i] == r;
    assert ExpireFirst(p, now).replies[i - 1] == r;
  }

  lemma {:induction false} FillLeaves(p: Prober, now: nat, r: PingRecord)
    requires r in p.replies
    ensures r in Fill(p, now).replies && Fill(p, now).active == p.active
    decreases |p.queue|
  {
    if |p.replies| < MAX_PARALLEL && p.queue != [] {
      FillLeaves(SendNext(p, now), now, r);
    }
  }

  // ------------------------------------------------------------------
  // Progress and the guards of start()
  // ------------------------------------------------------------------

  /** progress() is the share of the round's servers that are finished. */
  lemma ProgressIsShare(p: Prober, now: nat)
    requires Inv(p, now)
    ensures p.active && p.round != [] ==> Progress(p) == |p.done| as real / |p.round| as real
    ensures !p.active ==> Progress(p) == 1.0
  {
    if p.active && p.round != [] {
      hide Weight;
      assert Placed(p, Everyone);
      EveryoneCounts(p.queue, RecordHit(Everyone));
      EveryoneCounts(p.replies, RecordHit(Everyone));
      EveryoneCounts(p.done, DoneHit(Everyone));
      EveryoneCounts(p.round, KeyHit(Everyone));
      Share(|p.replies| + |p.queue|, |p.done|, |p.round|);
    }
  }

  lemma Share(left: nat, done: nat, all: nat)
    requires left + done == all && all > 0
    ensures 1.0 - left as real / all as real == done as real / all as real
  {
    Quotients(left as real, done as real, all as real);
  }

  lemma Quotients(x: real, y: real, a: real)
    requires a > 0.0 && x + y == a
    ensures x / a + y / a == 1.0
  {
    assert (x / a + y / a) * a == x + y;
  }

  /** start() where it starts nothing: without the feature it forgets the
      latencies; while the VPN is up it asks for a refresh; during a round it does
      nothing. */
  lemma StartGuards(p: Prober, supported: bool, vpnOff: bool, cities: seq<City>, now: nat)
    requires !supported || !vpnOff || p.active
    ensures var d := DoStart(p, supported, vpnOff, cities, now);
      && d.log == p.log && d.active == p.active && d.queue == p.queue && d.replies == p.replies
      && (!supported ==> d.latency == map[] && d.sum == 0 && d.wantRefresh == p.wantRefresh)
      && (supported ==> d.latency == p.latency && (d.wantRefresh <==> p.wantRefresh || !vpnOff))
  {
  }

  /** stop(), when the VPN is no longer off: the round is over, its servers
      unfinished; latencies and a wish to refresh stay. */
  lemma StopEndsRound(p: Prober, now: nat)
    ensures Step(p, VpnActive(now)) == p.(active := false, queue := [], replies := [], total := 0)
    ensures Progress(Step(p, VpnActive(now))) == 1.0
  {
  }

  /** clear() forgets the latencies and nothing else. */
  lemma ClearForgets(p: Prober, now: nat)
    ensures var d := Step(p, Clear(now));
      d.latency == map[] && d.sum == 0 && AvgLatency(d) == 0 && d == p.(latency := map[], sum := 0)
  {
  }
}
