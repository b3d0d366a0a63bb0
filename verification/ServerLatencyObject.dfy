/** The latency prober as the object it is: fields updated in place by the loops
    of src/serverlatency.cpp, each method tied to module ServerLatency. */
module ServerLatencyObject {
  import opened ServerLatency
  import opened ServerLatencyOrder

  /** What a reply may change: the latency of the server whose outstanding ping
      it answers, now done; nothing if there is none. */
  ghost predicate Answers(p: Prober, seqno: nat, received: nat, d: Prober) {
    var i := FindSequence(p.replies, seqno);
    if i == |p.replies| then d == p
    else
      var r, msec := p.replies[i], received - p.replies[i].timestamp;
      && d.latency == (if msec <= 0xFFFF_FFFF then p.latency[r.key := msec] else p.latency)
      && p.done + [Finished(r.key, r.retries + 1, true)] <= d.done
  }

  lemma ReceiveMeans(p: Prober, seqno: nat, received: nat, now: nat)
    ensures Answers(p, seqno, received, RecvPing(p, seqno, received, now))
    ensures Inv(p, received) && received <= now ==> Inv(RecvPing(p, seqno, received, now), now)
  {
    hide RecvPing, Inv;
    RecvPingRecords(p, seqno, received, now, FindSequence(p.replies, seqno));
    if Inv(p, received) && received <= now {
      RecvPingKeeps(p, seqno, received, now);
    }
  }

  lemma MaybeSendMeans(p: Prober, now: nat)
    ensures var d := MaybeSendPings(p, now);
      && (Ordered(p) ==> Ordered(d))
      && (Inv(p, now) ==> Inv(d, now) && (d.active ==> Fresh(d.replies, now) && now < d.deadline <= now + 5000))
  {
    hide MaybeSendPings, Inv, Fresh, Ordered;
    if Ordered(p) {
      MaybeSendPingsOrdered(p, now);
    }
    if Inv(p, now) {
      MaybeSendPingsKeeps(p, now);
    }
  }

  class LatencyProber {
    var active: bool
    var sendQueue: seq<PingRecord>
    var replyList: seq<PingRecord>
    var sendTotal: nat
    var sequence: nat
    var deadline: nat
    var wantRefresh: bool
    var latency: map<Key, int>
    var sumLatency: int

    /** The history of the current round. */
    ghost var round: seq<Key>
    ghost var plan: seq<PingRecord>
    ghost var log: seq<Sent>
    ghost var done: seq<Finished>

    ghost function View(): Prober
      reads this
    {
      Prober(active, sendQueue, replyList, sendTotal, sequence, deadline, wantRefresh, latency, sumLatency,
             round, plan, log, done)
    }

    constructor ()
      ensures View() == IDLE && Inv(View(), 0)
    {
      active, sendQueue, replyList, sendTotal, sequence := false, [], [], 0, 0;
      deadline, wantRefresh, latency, sumLatency := 0, false, map[], 0;
      round, plan, log, done := [], [], [], [];
      new;
      InitialInv();
    }

    method SendPing(r: PingRecord, now: nat, retries: nat)
      modifies this`replyList, this`sequence, this`log
      ensures View() == Transmit(old(View()), r, now, retries)
    {
      var record := r.(sequence := sequence, timestamp := now, retries := retries);
      log := log + [Sent(r.key, sequence)];
      sequence := (sequence + 1) % 0x1_0000;
      replyList := replyList + [record];
    }

    /** The first loop of maybeSendPings(): retry or give up what timed out. */
    method RetryExpired(now: nat)
      modifies this`replyList, this`sequence, this`log, this`done
      ensures View() == Expire(old(View()), now)
    {
      hide Transmit;
      while replyList != []
        invariant Expire(View(), now) == Expire(old(View()), now)
        decreases ExpiredCount(replyList, now)
      {
        var record := replyList[0];
        if record.timestamp + TIMEOUT_MSEC > now {
          break;
        }
        ghost var before := View();
        ExpireFirstProgress(before, now);
        if record.retries < MAX_RETRIES {
          SendPing(record, now, record.retries + 1);
          TransmitAppends(before, record, now, record.retries + 1);
        } else {
          done := done + [Finished(record.key, record.retries + 1, false)];
        }
        replyList := replyList[1..];
        assert View() == ExpireFirst(before, now);
      }
    }

    /** The second loop: new pings while there is room. */
    method SendQueued(now: nat)
      modifies this`sendQueue, this`replyList, this`sequence, this`log
      ensures View() == Fill(old(View()), now)
    {
      hide Transmit;
      while |replyList| < MAX_PARALLEL
        invariant Fill(View(), now) == Fill(old(View()), now)
        decreases |sendQueue|
      {
        if sendQueue == [] {
          break;
        }
        ghost var before := View();
        var record := sendQueue[0];
        TransmitAppends(before, record, now, 0);
        SendPing(record, now, 0);
        sendQueue := sendQueue[1..];
        assert View() == SendNext(before, now);
      }
    }

    /** maybeSendPings(): the two loops, then stop or rearm the timer. A round
        keeps its invariant, its queue what remains of the plan, nearest first;
        while it goes on no outstanding ping has timed out. */
    method MaybeSend(now: nat)
      modifies this
      ensures View() == MaybeSendPings(old(View()), now)
      ensures Inv(old(View()), now) ==>
        Inv(View(), now) && (active ==> Fresh(replyList, now) && now < deadline <= now + 5000)
      ensures Ordered(old(View())) ==> Ordered(View())
    {
      hide Expire, Fill, Inv, Fresh, Ordered;
      MaybeSendMeans(View(), now);
      if !active {
        return;
      }
      RetryExpired(now);
      SendQueued(now);
      StopOrRearm();
    }

    method StopOrRearm()
      modifies this`active, this`sendQueue, this`replyList, this`sendTotal, this`deadline
      ensures var p := old(View());
        View() == if p.replies == [] then Stop(p) else p.(deadline := p.replies[0].timestamp + TIMEOUT_MSEC)
    {
      if replyList == [] {
        sendQueue, replyList, sendTotal := [], [], 0;
        active := false;
      } else {
        deadline := replyList[0].timestamp + TIMEOUT_MSEC;
      }
    }

    lemma TransmitAppends(p: Prober, r: PingRecord, now: nat, retries: nat)
      ensures var d := Transmit(p, r, now, retries);
        d.replies != [] && d.queue == p.queue && d.done == p.done
    {
    }

    /** The search loop of recvPing(). */
    method Find(seqno: nat) returns (i: nat)
      ensures i == FindSequence(replyList, seqno)
    {
      i := 0;
      while i < |replyList| && replyList[i].sequence != seqno
        invariant i <= |replyList|
        invariant FindSequence(replyList, seqno) == i + FindSequence(replyList[i..], seqno)
      {
        assert replyList[i..][1..] == replyList[i + 1..];
        i := i + 1;
      }
    }

    method RecordLatency(key: Key, msec: int)
      modifies this`latency, this`sumLatency
      ensures View() == SetLatency(old(View()), key, msec)
    {
      var previous := if key in latency then latency[key] else 0;
      sumLatency := sumLatency - previous;
      sumLatency := sumLatency + msec;
      latency := latency[key := msec];
    }

    /** recvPing(): an answer to an outstanding ping sets the latency of its
        server, and of no other, to the time since that ping; any other changes
        nothing. */
    method Receive(seqno: nat, received: nat, now: nat)
      modifies this
      ensures View() == RecvPing(old(View()), seqno, received, now)
      ensures Answers(old(View()), seqno, received, View())
      ensures Inv(old(View()), received) && received <= now ==> Inv(View(), now)
    {
      hide SetLatency, Inv, Answers;
      ghost var p := View();
      ReceiveMeans(p, seqno, received, now);
      hide MaybeSendPings;
      var i := Find(seqno);
      if i < |replyList| {
        var r := replyList[i];
        var msec := received - r.timestamp;
        SetLatencyFrame(p, r.key, msec);
        if msec <= UINT_MAX {
          RecordLatency(r.key, msec);
        }
        replyList := replyList[..i] + replyList[i + 1..];
        done := done + [Finished(r.key, r.retries + 1, true)];
        MaybeSend(now);
      }
    }

    /** start(): a round that is accepted sets out to ping each server as often
        as the cities list it. */
    method StartRound(supported: bool, vpnOff: bool, cities: seq<City>, now: nat)
      modifies this
      ensures View() == DoStart(old(View()), supported, vpnOff, cities, now)
      ensures Inv(old(View()), now) ==> Inv(View(), now)
      ensures Inv(old(View()), now) && supported && vpnOff && !old(active) ==>
        forall who :: Weight(round, KeyHit(who)) == CityWeight(cities, who)
    {
      hide BuildQueue, Inv, Weight, CityWeight;
      ghost var p := View();
      StartMeans(p, supported, vpnOff, cities, now);
      hide MaybeSendPings;
      if !supported {
        latency, sumLatency := map[], 0;
        return;
      }
      if !vpnOff {
        wantRefresh := true;
        return;
      }
      if active {
        return;
      }
      NewRound(cities);
      MaybeSend(now);
    }

    method NewRound(cities: seq<City>)
      modifies this
      ensures var p, queue := old(View()), BuildQueue(old(sendQueue), cities);
        View() == p.(active := true, sequence := 0, wantRefresh := false, queue := queue, total := |queue|,
                     round := KeysOf(queue), plan := queue, log := [], done := [])
    {
      hide BuildQueue, KeysOf;
      var queue := QueueCities(sendQueue, cities);
      Rewind();
      sendQueue, sendTotal, round, plan := queue, |queue|, KeysOf(queue), queue;
    }

    method Rewind()
      modifies this`active, this`sequence, this`wantRefresh, this`log, this`done
      ensures View() == old(View()).(active := true, sequence := 0, wantRefresh := false, log := [], done := [])
    {
      sequence, wantRefresh, active := 0, false, true;
      log, done := [], [];
    }
  }

  lemma MaybeSendRound(p: Prober, now: nat)
    ensures MaybeSendPings(p, now).round == p.round
  {
    hide Expire, Fill;
    ExpireFrame(p, now);
    FillFrame(Expire(p, now), now);
  }

  lemma StartMeans(p: Prober, supported: bool, vpnOff: bool, cities: seq<City>, now: nat)
    ensures var d := DoStart(p, supported, vpnOff, cities, now); Inv(p, now) ==>
      && Inv(d, now)
      && (supported && vpnOff && !p.active ==>
          forall who :: Weight(d.round, KeyHit(who)) == CityWeight(cities, who))
  {
    hide Weight, BuildQueue, CityWeight, MaybeSendPings, Inv;
    if Inv(p, now) {
      StartKeeps(p, supported, vpnOff, cities, now);
      if supported && vpnOff && !p.active {
        var queue := BuildQueue(p.queue, cities);
        MaybeSendRound(p.(active := true, sequence := 0, wantRefresh := false, queue := queue, total := |queue|,
                          round := KeysOf(queue), plan := queue, log := [], done := []), now);
        assert p.queue == [] by { IdleQueue(p, now); }
        forall who ensures Weight(KeysOf(queue), KeyHit(who)) == CityWeight(cities, who) {
          BuildQueueCorrect(p.queue, cities, who);
          KeysWeight(queue, who);
          WeightNone(p.queue, RecordHit(who));
        }
      }
    }
  }

  lemma IdleQueue(p: Prober, now: nat)
    requires Inv(p, now) && !p.active
    ensures p.queue == []
  {
  }

  /** The nested loops of start() that order the servers by distance. */
  method QueueCities(queue: seq<PingRecord>, cities: seq<City>) returns (q: seq<PingRecord>)
    ensures q == BuildQueue(queue, cities)
  {
    q := queue;
    for c := 0 to |cities|
      invariant BuildQueue(q, cities[c..]) == BuildQueue(queue, cities)
    {
      var city := cities[c];
      assert cities[c..][0] == city && cities[c..][1..] == cities[c + 1..];
      var i := 0;
      while i < |q| && q[i].distance < city.distance
        invariant i <= |q| && InsertAt(q, city.distance) == i + InsertAt(q[i..], city.distance)
      {
        assert q[i..][1..] == q[i + 1..];
        i := i + 1;
      }
      ghost var q0 := q;
      for s := 0 to |city.servers|
        invariant i <= |q|
        invariant InsertServers(q, i, city.distance, city.servers[s..])
               == InsertServers(q0, i, city.distance, city.servers)
      {
        assert city.servers[s..][1..] == city.servers[s + 1..];
        q := q[..i] + [PingRecord(city.servers[s], 0, 0, city.distance, 0)] + q[i..];
      }
    }
  }
}
