/** The server latency prober (src/serverlatency.cpp): pings every server,
    nearest first, at most eight at a time, each at most three times. Times are
    the values of the millisecond clock, passed in by the event. */
module ServerLatency {
  import opened Common

  type Key = string

  const MAX_PARALLEL := 8
  const MAX_RETRIES := 2
  const TIMEOUT_MSEC := 5000
  const UINT_MAX := 0xFFFF_FFFF

  datatype PingRecord = PingRecord(key: Key, timestamp: nat, sequence: nat, distance: real, retries: nat)
  datatype Sent = Sent(key: Key, sequence: nat)
  /** A server the round is through with: how many pings it got, and whether it
      answered. */
  datatype Finished = Finished(key: Key, pings: nat, answered: bool)
  datatype City = City(distance: real, servers: seq<Key>)

  /** The prober and, for the current round, the servers it set out to ping,
      the queue it started with, the pings sent and the servers that answered or were given up. */
  datatype Prober = Prober(
    active: bool,             // m_pingSender != nullptr
    queue: seq<PingRecord>,
    replies: seq<PingRecord>,
    total: nat,
    sequence: nat,            // quint16
    deadline: nat,            // when m_pingTimeout fires, while active
    wantRefresh: bool,
    latency: map<Key, int>,
    sum: int,
    round: seq<Key>,
    plan: seq<PingRecord>,
    log: seq<Sent>,
    done: seq<Finished>)

  datatype Event =
    | Start(supported: bool, vpnOff: bool, cities: seq<City>, now: nat)
    | Tick(now: nat)
    | Receive(sequence: nat, received: nat, now: nat)
    | VpnActive(now: nat)
    | Clear(now: nat)

  const IDLE := Prober(false, [], [], 0, 0, 0, false, map[], 0, [], [], [], [])

  // ------------------------------------------------------------------
  // Steps
  // ------------------------------------------------------------------

  predicate Expired(r: PingRecord, now: nat) {
    r.timestamp + TIMEOUT_MSEC <= now
  }

  /** Sends a ping for r and appends it to the reply list. */
  function Transmit(p: Prober, r: PingRecord, now: nat, retries: nat): Prober {
    p.(replies := p.replies + [r.(sequence := p.sequence, timestamp := now, retries := retries)],
       sequence := (p.sequence + 1) % 0x1_0000,
       log := p.log + [Sent(r.key, p.sequence)])
  }

  function DropFirst(p: Prober): Prober
    requires p.replies != []
  {
    p.(replies := p.replies[1..])
  }

  /** One round of the timeout loop. */
  function ExpireFirst(p: Prober, now: nat): Prober
    requires p.replies != []
  {
    var r := p.replies[0];
    if r.retries < MAX_RETRIES then DropFirst(Transmit(p, r, now, r.retries + 1))
    else DropFirst(p).(done := p.done + [Finished(r.key, r.retries + 1, false)])
  }

  function ExpiredCount(rs: seq<PingRecord>, now: nat): nat {
    if rs == [] then 0
    else ExpiredCount(rs[..|rs| - 1], now) + (if Expired(rs[|rs| - 1], now) then 1 else 0)
  }

  function Expire(p: Prober, now: nat): Prober
    decreases ExpiredCount(p.replies, now)
  {
    if p.replies == [] || !Expired(p.replies[0], now) then p
    else
      ExpireFirstProgress(p, now);
      Expire(ExpireFirst(p, now), now)
  }

  function SendNext(p: Prober, now: nat): Prober
    requires p.queue != []
  {
    Transmit(p, p.queue[0], now, 0).(queue := p.queue[1..])
  }

  function Fill(p: Prober, now: nat): Prober
    decreases |p.queue|
  {
    if |p.replies| >= MAX_PARALLEL || p.queue == [] then p else Fill(SendNext(p, now), now)
  }

  function Stop(p: Prober): Prober {
    p.(active := false, queue := [], replies := [], total := 0)
  }

  function MaybeSendPings(p: Prober, now: nat): Prober {
    if !p.active then p
    else
      var p1 := Fill(Expire(p, now), now);
      if p1.replies == [] then Stop(p1)
      else p1.(deadline := p1.replies[0].timestamp + TIMEOUT_MSEC)
  }

  function FindSequence(rs: seq<PingRecord>, sequence: nat): (i: nat)
    ensures i <= |rs|
    ensures i < |rs| ==> rs[i].sequence == sequence
    ensures forall j :: 0 <= j < i ==> rs[j].sequence != sequence
  {
    if rs == [] || rs[0].sequence == sequence then 0 else 1 + FindSequence(rs[1..], sequence)
  }

  function SetLatency(p: Prober, key: Key, msec: int): Prober {
    var previous := if key in p.latency then p.latency[key] else 0;
    p.(sum := p.sum - previous + msec, latency := p.latency[key := msec])
  }

  function Erase(p: Prober, i: nat): Prober
    requires i < |p.replies|
  {
    var r := p.replies[i];
    p.(replies := p.replies[..i] + p.replies[i + 1..], done := p.done + [Finished(r.key, r.retries + 1, true)])
  }

  /** recvPing() reads the clock for the latency and again to go on sending. */
  function RecvPing(p: Prober, sequence: nat, received: nat, now: nat): Prober {
    var i := FindSequence(p.replies, sequence);
    if i == |p.replies| then p
    else
      var msec := received - p.replies[i].timestamp;
      var p1 := if msec <= UINT_MAX then SetLatency(p, p.replies[i].key, msec) else p;
      MaybeSendPings(Erase(p1, i), now)
  }

  // -- start(): building the queue

  function InsertAt(q: seq<PingRecord>, distance: real): (i: nat)
    ensures i <= |q|
    ensures forall j :: 0 <= j < i ==> q[j].distance < distance
    ensures i < |q| ==> q[i].distance >= distance
  {
    if q == [] || q[0].distance >= distance then 0 else 1 + InsertAt(q[1..], distance)
  }

  /** Each server is inserted at the iterator, in front of the one before. */
  function InsertServers(q: seq<PingRecord>, i: nat, distance: real, servers: seq<Key>): seq<PingRecord>
    requires i <= |q|
    decreases |servers|
  {
    if servers == [] then q
    else InsertServers(q[..i] + [PingRecord(servers[0], 0, 0, distance, 0)] + q[i..], i, distance, servers[1..])
  }

  function BuildQueue(q: seq<PingRecord>, cities: seq<City>): seq<PingRecord>
    decreases |cities|
  {
    if cities == [] then q
    else BuildQueue(InsertServers(q, InsertAt(q, cities[0].distance), cities[0].distance, cities[0].servers),
                    cities[1..])
  }

  function KeysOf(rs: seq<PingRecord>): (ks: seq<Key>)
    ensures |ks| == |rs| && forall i :: 0 <= i < |rs| ==> ks[i] == rs[i].key
  {
    seq(|rs|, i requires 0 <= i < |rs| => rs[i].key)
  }

  function DoStart(p: Prober, supported: bool, vpnOff: bool, cities: seq<City>, now: nat): Prober {
    if !supported then p.(latency := map[], sum := 0)
    else if !vpnOff then p.(wantRefresh := true)
    else if p.active then p
    else
      var queue := BuildQueue(p.queue, cities);
      MaybeSendPings(
        p.(active := true, sequence := 0, wantRefresh := false, queue := queue, total := |queue|,
           round := KeysOf(queue), plan := queue, log := [], done := []), now)
  }

  function Step(p: Prober, e: Event): Prober {
    match e
    case Start(supported, vpnOff, cities, now) => DoStart(p, supported, vpnOff, cities, now)
    case Tick(now) => MaybeSendPings(p, now)
    case Receive(sequence, received, now) => RecvPing(p, sequence, received, now)
    case VpnActive(_) => Stop(p)
    case Clear(_) => p.(latency := map[], sum := 0)
  }

  function Run(p: Prober, events: seq<Event>): Prober
    decreases |events|
  {
    if events == [] then p else Run(Step(p, events[0]), events[1..])
  }

  /** The first clock reading of an event. */
  function Begins(e: Event): nat {
    if e.Receive? then e.received else e.now
  }

  /** The clock never runs backwards, from time t on. */
  ghost predicate Monotone(t: nat, events: seq<Event>)
    decreases |events|
  {
    events == [] || (t <= Begins(events[0]) <= events[0].now && Monotone(events[0].now, events[1..]))
  }

  /** progress() */
  function Progress(p: Prober): real {
    if !p.active || p.total == 0 then 1.0
    else 1.0 - (|p.replies| + |p.queue|) as real / p.total as real
  }

  // ------------------------------------------------------------------
  // Termination of the timeout loop
  // ------------------------------------------------------------------

  lemma {:induction false} ExpiredCountAppend(a: seq<PingRecord>, b: seq<PingRecord>, now: nat)
    ensures ExpiredCount(a + b, now) == ExpiredCount(a, now) + ExpiredCount(b, now)
  {
    if b == [] {
      assert a + b == a;
    } else {
      assert (a + b)[..|a + b| - 1] == a + b[..|b| - 1];
      ExpiredCountAppend(a, b[..|b| - 1], now);
    }
  }

  /** A retry carries the current time, so each round leaves one expired
      record less. */
  lemma ExpireFirstProgress(p: Prober, now: nat)
    requires p.replies != [] && Expired(p.replies[0], now)
    ensures ExpiredCount(ExpireFirst(p, now).replies, now) == ExpiredCount(p.replies, now) - 1
  {
    var r, rest := p.replies[0], p.replies[1..];
    assert p.replies == [r] + rest;
    ExpiredCountAppend([r], rest, now);
    assert [r][..0] == [];
    if r.retries < MAX_RETRIES {
      var retry := r.(sequence := p.sequence, timestamp := now, retries := r.retries + 1);
      assert ExpireFirst(p, now).replies == rest + [retry];
      ExpiredCountAppend(rest, [retry], now);
      assert [retry][..0] == [];
    }
  }

  // ------------------------------------------------------------------
  // Accounting: for one server, or for all of them
  // ------------------------------------------------------------------

  datatype Who = Everyone | Only(key: Key)

  predicate Hit(who: Who, key: Key) {
    who.Everyone? || who.key == key
  }

  function Weight<T>(s: seq<T>, w: T -> int): int {
    if s == [] then 0 else Weight(s[..|s| - 1], w) + w(s[|s| - 1])
  }

  function KeyHit(who: Who): Key -> int {
    (k: Key) => if Hit(who, k) then 1 else 0
  }

  function SentHit(who: Who): Sent -> int {
    (m: Sent) => if Hit(who, m.key) then 1 else 0
  }

  function RecordHit(who: Who): PingRecord -> int {
    (r: PingRecord) => if Hit(who, r.key) then 1 else 0
  }

  function DoneHit(who: Who): Finished -> int {
    (f: Finished) => if Hit(who, f.key) then 1 else 0
  }

  /** Pings sent for an outstanding record, the first one included. */
  function Sends(who: Who): PingRecord -> int {
    (r: PingRecord) => if Hit(who, r.key) then r.retries + 1 else 0
  }

  function Pings(who: Who): Finished -> int {
    (f: Finished) => if Hit(who, f.key) then f.pings else 0
  }

  lemma {:induction false} WeightAppend<T>(a: seq<T>, b: seq<T>, w: T -> int)
    ensures Weight(a + b, w) == Weight(a, w) + Weight(b, w)
  {
    if b == [] {
      assert a + b == a;
    } else {
      assert (a + b)[..|a + b| - 1] == a + b[..|b| - 1];
      WeightAppend(a, b[..|b| - 1], w);
    }
  }

  lemma WeightOne<T>(x: T, w: T -> int)
    ensures Weight([x], w) == w(x)
  {
    assert [x][..0] == [];
  }

  lemma WeightSplit<T>(s: seq<T>, i: nat, w: T -> int)
    requires i < |s|
    ensures Weight(s, w) == Weight(s[..i] + s[i + 1..], w) + w(s[i])
  {
    hide Weight;
    assert s == s[..i] + [s[i]] + s[i + 1..];
    WeightAppend(s[..i] + [s[i]], s[i + 1..], w);
    WeightAppend(s[..i], [s[i]], w);
    WeightAppend(s[..i], s[i + 1..], w);
    WeightOne(s[i], w);
  }

  lemma WeightHead<T>(s: seq<T>, w: T -> int)
    requires s != []
    ensures Weight(s, w) == w(s[0]) + Weight(s[1..], w)
  {
    hide Weight;
    assert s == [s[0]] + s[1..];
    WeightAppend([s[0]], s[1..], w);
    WeightOne(s[0], w);
  }

  /** Each server of the round is queued, outstanding or done. */
  ghost predicate Placed(p: Prober, who: Who) {
    Weight(p.queue, RecordHit(who)) + Weight(p.replies, RecordHit(who)) + Weight(p.done, DoneHit(who))
    == Weight(p.round, KeyHit(who))
  }

  /** Every ping sent belongs to an outstanding or a finished server. */
  ghost predicate Counted(p: Prober, who: Who) {
    Weight(p.log, SentHit(who)) == Weight(p.replies, Sends(who)) + Weight(p.done, Pings(who))
  }

  /** A server is given up after exactly three pings, and answers after one to three. */
  predicate Fair(f: Finished) {
    1 <= f.pings <= 3 && (f.answered || f.pings == 3)
  }

  ghost predicate Accounts(p: Prober) {
    (forall who :: Placed(p, who) && Counted(p, who)) && (forall f :: f in p.done ==> Fair(f))
  }

  /** The reply list: bounded, sorted by send time, not from the future. */
  ghost predicate Timely(rs: seq<PingRecord>, now: nat) {
    && |rs| <= MAX_PARALLEL
    && (forall i, j :: 0 <= i < j < |rs| ==> rs[i].timestamp <= rs[j].timestamp)
    && (forall i :: 0 <= i < |rs| ==> rs[i].timestamp <= now && rs[i].retries <= MAX_RETRIES)
  }

  /** The k-th ping of a round carries sequence number k mod 2^16. */
  ghost predicate Numbered(p: Prober) {
    && p.sequence == |p.log| % 0x1_0000
    && (forall k :: 0 <= k < |p.log| ==> p.log[k].sequence == k % 0x1_0000)
    && (forall r :: r in p.replies ==> Sent(r.key, r.sequence) in p.log)
  }

  ghost predicate InRound(p: Prober, now: nat) {
    p.active && p.total == |p.round| && Accounts(p) && Timely(p.replies, now) && Numbered(p)
  }

  lemma TransmitAccounts(p: Prober, r: PingRecord, now: nat, retries: nat, who: Who)
    ensures var d := Transmit(p, r, now, retries); var hit := KeyHit(who)(r.key);
      && Weight(d.log, SentHit(who)) == Weight(p.log, SentHit(who)) + hit
      && Weight(d.replies, RecordHit(who)) == Weight(p.replies, RecordHit(who)) + hit
      && Weight(d.replies, Sends(who)) == Weight(p.replies, Sends(who)) + hit * (retries + 1)
  {
    var d := Transmit(p, r, now, retries);
    var sent := r.(sequence := p.sequence, timestamp := now, retries := retries);
    WeightAppend(p.log, [Sent(r.key, p.sequence)], SentHit(who));
    WeightAppend(p.replies, [sent], RecordHit(who));
    WeightAppend(p.replies, [sent], Sends(who));
    WeightOne(Sent(r.key, p.sequence), SentHit(who));
    WeightOne(sent, RecordHit(who));
    WeightOne(sent, Sends(who));
  }

  lemma DropFirstAccounts(p: Prober, who: Who)
    requires p.replies != []
    ensures var d := DropFirst(p); var r := p.replies[0];
      && Weight(p.replies, RecordHit(who)) == Weight(d.replies, RecordHit(who)) + RecordHit(who)(r)
      && Weight(p.replies, Sends(who)) == Weight(d.replies, Sends(who)) + Sends(who)(r)
  {
    hide Weight;
    WeightHead(p.replies, RecordHit(who));
    WeightHead(p.replies, Sends(who));
  }

  lemma FinishAccounts(done: seq<Finished>, f: Finished, who: Who)
    ensures Weight(done + [f], DoneHit(who)) == Weight(done, DoneHit(who)) + DoneHit(who)(f)
    ensures Weight(done + [f], Pings(who)) == Weight(done, Pings(who)) + Pings(who)(f)
  {
    hide Weight;
    WeightAppend(done, [f], DoneHit(who));
    WeightAppend(done, [f], Pings(who));
    WeightOne(f, DoneHit(who));
    WeightOne(f, Pings(who));
  }

  lemma ExpireFirstAccounts(p: Prober, now: nat)
    requires Accounts(p) && p.replies != [] && p.replies[0].retries <= MAX_RETRIES
    ensures Accounts(ExpireFirst(p, now))
  {
    hide Weight;
    var r, d := p.replies[0], ExpireFirst(p, now);
    forall who ensures Placed(d, who) && Counted(d, who) {
      assert Placed(p, who) && Counted(p, who);
      if r.retries < MAX_RETRIES {
        var t := Transmit(p, r, now, r.retries + 1);
        TransmitAccounts(p, r, now, r.retries + 1, who);
        assert t.replies[0] == r;
        DropFirstAccounts(t, who);
        hide Transmit;
      } else {
        DropFirstAccounts(p, who);
        FinishAccounts(p.done, Finished(r.key, r.retries + 1, false), who);
      }
    }
  }

  lemma SendNextAccounts(p: Prober, now: nat)
    requires Accounts(p) && p.queue != []
    ensures Accounts(SendNext(p, now))
  {
    hide Weight;
    var r, d := p.queue[0], SendNext(p, now);
    forall who ensures Placed(d, who) && Counted(d, who) {
      assert Placed(p, who) && Counted(p, who);
      TransmitAccounts(p, r, now, 0, who);
      WeightHead(p.queue, RecordHit(who));
    }
  }

  lemma EraseAccounts(p: Prober, i: nat)
    requires Accounts(p) && i < |p.replies| && p.replies[i].retries <= MAX_RETRIES
    ensures Accounts(Erase(p, i))
  {
    hide Weight;
    var r, d := p.replies[i], Erase(p, i);
    forall who ensures Placed(d, who) && Counted(d, who) {
      assert Placed(p, who) && Counted(p, who);
      WeightSplit(p.replies, i, RecordHit(who));
      WeightSplit(p.replies, i, Sends(who));
      FinishAccounts(p.done, Finished(r.key, r.retries + 1, true), who);
    }
  }

  // ------------------------------------------------------------------
  // What every step keeps
  // ------------------------------------------------------------------

  lemma TransmitNumbered(p: Prober, r: PingRecord, now: nat, retries: nat)
    requires Numbered(p)
    ensures Numbered(Transmit(p, r, now, retries))
  {
    var d := Transmit(p, r, now, retries);
    CounterStep(|p.log|);
    assert d.log[|p.log|] == Sent(r.key, p.sequence);
    forall x | x in p.replies ensures Sent(x.key, x.sequence) in d.log {
      assert Sent(x.key, x.sequence) in p.log;
    }
  }

  lemma ExpireFirstKeeps(p: Prober, now: nat)
    requires InRound(p, now) && p.replies != []
    ensures InRound(ExpireFirst(p, now), now)
  {
    hide Accounts;
    ExpireFirstAccounts(p, now);
    var r := p.replies[0];
    if r.retries < MAX_RETRIES {
      TransmitNumbered(p, r, now, r.retries + 1);
    }
  }

  lemma SendNextKeeps(p: Prober, now: nat)
    requires InRound(p, now) && p.queue != [] && |p.replies| < MAX_PARALLEL
    ensures InRound(SendNext(p, now), now)
  {
    hide Accounts;
    SendNextAccounts(p, now);
    TransmitNumbered(p, p.queue[0], now, 0);
  }

  /** No outstanding ping has timed out. */
  ghost predicate Fresh(rs: seq<PingRecord>, now: nat) {
    forall i :: 0 <= i < |rs| ==> now < rs[i].timestamp + 5000
  }

  lemma {:induction false} ExpireKeeps(p: Prober, now: nat)
    requires InRound(p, now)
    ensures var d := Expire(p, now);
      && InRound(d, now) && Fresh(d.replies, now)
      && d.queue == p.queue && |d.replies| <= |p.replies| && d.round == p.round
      && d.latency == p.latency && d.sum == p.sum
    decreases ExpiredCount(p.replies, now)
  {
    hide Accounts, Numbered;
    if p.replies != [] && Expired(p.replies[0], now) {
      ExpireFirstKeeps(p, now);
      ExpireFirstProgress(p, now);
      ExpireKeeps(ExpireFirst(p, now), now);
    }
  }

  lemma {:induction false} FillKeeps(p: Prober, now: nat)
    requires InRound(p, now) && Fresh(p.replies, now)
    ensures var d := Fill(p, now);
      && InRound(d, now) && Fresh(d.replies, now)
      && |d.replies| + |d.queue| == |p.replies| + |p.queue| && d.round == p.round
      && d.latency == p.latency && d.sum == p.sum
      && (d.queue == [] || |d.replies| == MAX_PARALLEL)
    decreases |p.queue|
  {
    hide Accounts, Numbered;
    if |p.replies| < MAX_PARALLEL && p.queue != [] {
      SendNextKeeps(p, now);
      FillKeeps(SendNext(p, now), now);
    }
  }

  ghost function SumOf(m: map<Key, int>): int {
    if m == map[] then 0 else var k :| k in m; m[k] + SumOf(m - {k})
  }

  /** At most three pings a server, also after the round; all numbered. */
  ghost predicate Spent(p: Prober) {
    && (forall who :: Weight(p.log, SentHit(who)) <= 3 * Weight(p.round, KeyHit(who)))
    && (forall k :: 0 <= k < |p.log| ==> p.log[k].sequence == k % 0x1_0000)
  }

  ghost predicate Inv(p: Prober, now: nat) {
    && (p.active ==> InRound(p, now))
    && (!p.active ==> p.queue == [] && p.replies == [] && p.total == 0)
    && Spent(p)
    && SumOf(p.latency) == p.sum
    && NonNegative(p.latency)
  }

  ghost predicate NonNegative(m: map<Key, int>) {
    forall k :: k in m ==> 0 <= m[k]
  }

  lemma {:induction false} SendsBound(rs: seq<PingRecord>, who: Who)
    requires forall i :: 0 <= i < |rs| ==> rs[i].retries <= MAX_RETRIES
    ensures Weight(rs, Sends(who)) <= 3 * Weight(rs, RecordHit(who))
  {
    if rs != [] {
      SendsBound(rs[..|rs| - 1], who);
    }
  }

  lemma {:induction false} PingsBound(done: seq<Finished>, who: Who)
    requires forall f :: f in done ==> Fair(f)
    ensures Weight(done, Pings(who)) <= 3 * Weight(done, DoneHit(who))
  {
    if done != [] {
      assert done[|done| - 1] in done;
      PingsBound(done[..|done| - 1], who);
    }
  }

  lemma {:induction false} HitsNonNegative(rs: seq<PingRecord>, who: Who)
    ensures Weight(rs, RecordHit(who)) >= 0
  {
    if rs != [] {
      HitsNonNegative(rs[..|rs| - 1], who);
    }
  }

  lemma InRoundSpent(p: Prober, now: nat)
    requires InRound(p, now)
    ensures Spent(p)
  {
    forall who ensures Weight(p.log, SentHit(who)) <= 3 * Weight(p.round, KeyHit(who)) {
      assert Placed(p, who) && Counted(p, who);
      SendsBound(p.replies, who);
      PingsBound(p.done, who);
      HitsNonNegative(p.queue, who);
    }
  }

  /** The heart of a round: after maybeSendPings the prober has stopped exactly
      when nothing is queued or outstanding; otherwise no outstanding ping has
      timed out and the timer is set within the next five seconds. */
  lemma MaybeSendPingsKeeps(p: Prober, now: nat)
    requires Inv(p, now)
    ensures var d := MaybeSendPings(p, now);
      && Inv(d, now)
      && (p.active ==> var q := Fill(Expire(p, now), now);
          && (!d.active <==> |q.replies| + |q.queue| == 0)
          && |q.replies| + |q.queue| <= |p.replies| + |p.queue|
          && q.round == p.round && d.round == p.round
          && (d.active ==> |d.replies| + |d.queue| == |q.replies| + |q.queue|))
      && (d.active ==> d.queue == [] || |d.replies| == 8)
      && (d.active ==> Fresh(d.replies, now) && d.replies != [] && now < d.deadline <= now + 5000)
  {
    hide Accounts, Numbered, Expire, Fill, Spent;
    if p.active {
      ExpireKeeps(p, now);
      FillKeeps(Expire(p, now), now);
      var q := Fill(Expire(p, now), now);
      InRoundSpent(q, now);
      StopSpent(q);
      if q.replies != [] {
        var d := q.(deadline := q.replies[0].timestamp + TIMEOUT_MSEC);
        DeadlineIrrelevant(q, d, now);
      }
    }
  }

  /** A round that ends by itself has finished every server of it; each server
      that stayed silent got exactly three pings, and no other ping was sent. */
  lemma RoundEnds(p: Prober, now: nat)
    requires Inv(p, now) && p.active && !MaybeSendPings(p, now).active
    ensures var d := MaybeSendPings(p, now);
      && (forall f :: f in d.done ==> Fair(f))
      && (forall who :: Weight(d.done, DoneHit(who)) == Weight(d.round, KeyHit(who)))
      && (forall who :: Weight(d.log, SentHit(who)) == Weight(d.done, Pings(who)))
  {
    hide Weight, Expire, Fill, Numbered;
    ExpireKeeps(p, now);
    FillKeeps(Expire(p, now), now);
    var q := Fill(Expire(p, now), now);
    assert q.queue == [] && q.replies == [];
    forall who
      ensures Weight(q.done, DoneHit(who)) == Weight(q.round, KeyHit(who))
      ensures Weight(q.log, SentHit(who)) == Weight(q.done, Pings(who))
    {
      assert Placed(q, who) && Counted(q, who);
      WeightNone(q.queue, RecordHit(who));
      WeightNone(q.replies, RecordHit(who));
      WeightNone(q.replies, Sends(who));
    }
  }

  lemma StopSpent(p: Prober)
    requires Spent(p)
    ensures Spent(Stop(p))
  {
  }

  lemma DeadlineIrrelevant(p: Prober, d: Prober, now: nat)
    requires InRound(p, now) && d == p.(deadline := d.deadline)
    ensures InRound(d, now) && Spent(d)
  {
    InRoundSpent(p, now);
    forall who ensures Placed(d, who) && Counted(d, who) {
      assert Placed(p, who) && Counted(p, who);
    }
  }

  // -- latencies

  lemma {:induction false} SumRemove(m: map<Key, int>, k: Key)
    requires k in m
    ensures SumOf(m) == m[k] + SumOf(m - {k})
    decreases |m|
  {
    var j :| j in m && SumOf(m) == m[j] + SumOf(m - {j});
    if j != k {
      SumRemove(m - {j}, k);
      SumRemove(m - {k}, j);
      assert m - {j} - {k} == m - {k} - {j};
    }
  }

  lemma SumSet(m: map<Key, int>, k: Key, v: int)
    ensures SumOf(m[k := v]) == SumOf(m) - (if k in m then m[k] else 0) + v
  {
    SumRemove(m[k := v], k);
    if k in m {
      SumRemove(m, k);
      assert m[k := v] - {k} == m - {k};
    } else {
      assert m[k := v] - {k} == m;
    }
  }

  lemma SetLatencyKeeps(p: Prober, key: Key, msec: int, now: nat)
    requires Inv(p, now) && msec >= 0
    ensures Inv(SetLatency(p, key, msec), now)
  {
    SumSet(p.latency, key, msec);
    var d := SetLatency(p, key, msec);
    if p.active {
      forall who ensures Placed(d, who) && Counted(d, who) {
        assert Placed(p, who) && Counted(p, who);
      }
    }
  }

  lemma EraseKeeps(p: Prober, i: nat, now: nat)
    requires Inv(p, now) && i < |p.replies|
    ensures Inv(Erase(p, i), now)
  {
    hide Accounts;
    EraseAccounts(p, i);
    var d := Erase(p, i);
    forall r | r in d.replies ensures r in p.replies {
    }
  }

  /** No outstanding ping was sent in the future. */
  lemma RepliesPast(p: Prober, now: nat, i: nat)
    requires Inv(p, now) && i < |p.replies|
    ensures p.replies[i].timestamp <= now
  {
    hide Accounts, Numbered, Spent;
  }

  lemma RecvPingKeeps(p: Prober, sequence: nat, received: nat, now: nat)
    requires Inv(p, received) && received <= now
    ensures Inv(RecvPing(p, sequence, received, now), now)
  {
    hide MaybeSendPings, SetLatency, Inv;
    LaterKeeps(p, received, now);
    var i := FindSequence(p.replies, sequence);
    if i < |p.replies| {
      var msec := received - p.replies[i].timestamp;
      RepliesPast(p, received, i);
      SetLatencyKeeps(p, p.replies[i].key, msec, now);
      SetLatencyFrame(p, p.replies[i].key, msec);
      var p1 := if msec <= UINT_MAX then SetLatency(p, p.replies[i].key, msec) else p;
      EraseKeeps(p1, i, now);
      MaybeSendPingsKeeps(Erase(p1, i), now);
    }
  }

  lemma {:induction false} ExpireFrame(p: Prober, now: nat)
    ensures var d := Expire(p, now); p.done <= d.done && p.log <= d.log && d.latency == p.latency && d.round == p.round
    decreases ExpiredCount(p.replies, now)
  {
    if p.replies == [] || !Expired(p.replies[0], now) {
    } else {
      ExpireFirstProgress(p, now);
      ExpireFrame(ExpireFirst(p, now), now);
    }
  }

  lemma {:induction false} FillFrame(p: Prober, now: nat)
    ensures var d := Fill(p, now); p.done <= d.done && p.log <= d.log && d.latency == p.latency && d.round == p.round
    decreases |p.queue|
  {
    if |p.replies| >= MAX_PARALLEL || p.queue == [] {
    } else {
      FillFrame(SendNext(p, now), now);
    }
  }

  /** Sending touches no latency and only extends the history. */
  lemma MaybeSendPingsFrame(p: Prober, now: nat)
    ensures var d := MaybeSendPings(p, now); p.done <= d.done && p.log <= d.log && d.latency == p.latency && d.round == p.round
  {
    hide Expire, Fill;
    ExpireFrame(p, now);
    FillFrame(Expire(p, now), now);
  }

  /** A reply to an outstanding ping finishes its server as answered and sets
      its latency, and no other, to the time since that ping was sent, unless it
      does not fit 32 bits; any other reply changes nothing. */
  lemma RecvPingRecords(p: Prober, sequence: nat, received: nat, now: nat, i: nat)
    requires i <= |p.replies| && forall j :: 0 <= j < i ==> p.replies[j].sequence != sequence
    requires i < |p.replies| ==> p.replies[i].sequence == sequence
    ensures var d := RecvPing(p, sequence, received, now);
      if i == |p.replies| then d == p
      else
        var r, msec := p.replies[i], received - p.replies[i].timestamp;
        && d.latency == (if msec <= 0xFFFF_FFFF then p.latency[r.key := msec] else p.latency)
        && p.done + [Finished(r.key, r.retries + 1, true)] <= d.done
  {
    hide MaybeSendPings;
    assert FindSequence(p.replies, sequence) == i;
    if i < |p.replies| {
      var r, msec := p.replies[i], received - p.replies[i].timestamp;
      var p1 := if msec <= UINT_MAX then SetLatency(p, r.key, msec) else p;
      MaybeSendPingsFrame(Erase(p1, i), now);
    }
  }

  lemma SetLatencyFrame(p: Prober, key: Key, msec: int)
    ensures SetLatency(p, key, msec).replies == p.replies
  {
  }

  lemma LaterKeeps(p: Prober, t: nat, now: nat)
    requires Inv(p, t) && t <= now
    ensures Inv(p, now)
  {
  }

  // -- start()

  ghost predicate Nearest(q: seq<PingRecord>) {
    forall i, j :: 0 <= i < j < |q| ==> q[i].distance <= q[j].distance
  }

  /** Inserting a city's servers keeps the queue sorted by distance. */
  lemma {:induction false} InsertServersSorted(q: seq<PingRecord>, i: nat, distance: real, servers: seq<Key>)
    requires i <= |q| && Nearest(q)
    requires forall j :: 0 <= j < i ==> q[j].distance < distance
    requires forall j :: i <= j < |q| ==> distance <= q[j].distance
    ensures Nearest(InsertServers(q, i, distance, servers))
    decreases |servers|
  {
    if servers != [] {
      var r := PingRecord(servers[0], 0, 0, distance, 0);
      InsertServersSorted(q[..i] + [r] + q[i..], i, distance, servers[1..]);
    }
  }

  lemma {:induction false} InsertServersWeight(q: seq<PingRecord>, i: nat, distance: real,
                                               servers: seq<Key>, who: Who)
    requires i <= |q|
    ensures Weight(InsertServers(q, i, distance, servers), RecordHit(who))
         == Weight(q, RecordHit(who)) + Weight(servers, KeyHit(who))
    decreases |servers|
  {
    hide Weight;
    if servers == [] {
      assert Weight(servers, KeyHit(who)) == 0 by { WeightNone(servers, KeyHit(who)); }
    } else {
      var r := PingRecord(servers[0], 0, 0, distance, 0);
      var q1 := q[..i] + [r] + q[i..];
      InsertServersWeight(q1, i, distance, servers[1..], who);
      assert q1[i] == r && q1[..i] + q1[i + 1..] == q;
      WeightSplit(q1, i, RecordHit(who));
      WeightHead(servers, KeyHit(who));
    }
  }

  lemma WeightNone<T>(s: seq<T>, w: T -> int)
    requires s == []
    ensures Weight(s, w) == 0
  {
  }

  function CityWeight(cities: seq<City>, who: Who): int {
    if cities == [] then 0 else Weight(cities[0].servers, KeyHit(who)) + CityWeight(cities[1..], who)
  }

  /** The queue holds every server of every city as often as it is listed,
      nearest city first. */
  lemma {:induction false} BuildQueueCorrect(q: seq<PingRecord>, cities: seq<City>, who: Who)
    requires Nearest(q)
    ensures Nearest(BuildQueue(q, cities))
    ensures Weight(BuildQueue(q, cities), RecordHit(who))
         == Weight(q, RecordHit(who)) + CityWeight(cities, who)
    decreases |cities|
  {
    hide Weight;
    if cities != [] {
      var c := cities[0];
      var i := InsertAt(q, c.distance);
      InsertServersSorted(q, i, c.distance, c.servers);
      InsertServersWeight(q, i, c.distance, c.servers, who);
      BuildQueueCorrect(InsertServers(q, i, c.distance, c.servers), cities[1..], who);
    }
  }

  lemma {:induction false} KeysWeight(rs: seq<PingRecord>, who: Who)
    ensures Weight(KeysOf(rs), KeyHit(who)) == Weight(rs, RecordHit(who))
  {
    if rs != [] {
      KeysWeight(rs[..|rs| - 1], who);
      assert KeysOf(rs)[..|rs| - 1] == KeysOf(rs[..|rs| - 1]);
    }
  }

  lemma StartKeeps(p: Prober, supported: bool, vpnOff: bool, cities: seq<City>, now: nat)
    requires Inv(p, now)
    ensures Inv(DoStart(p, supported, vpnOff, cities, now), now)
  {
    hide MaybeSendPings, BuildQueue, Weight;
    if !supported {
      OtherFieldsKeep(p, p.(latency := map[], sum := 0), now);
    } else if !vpnOff {
      OtherFieldsKeep(p, p.(wantRefresh := true), now);
    } else if !p.active {
      var queue := BuildQueue(p.queue, cities);
      var d := p.(active := true, sequence := 0, wantRefresh := false, queue := queue, total := |queue|,
                  round := KeysOf(queue), plan := queue, log := [], done := []);
      forall who ensures Placed(d, who) && Counted(d, who) {
        KeysWeight(queue, who);
        WeightNone(d.done, DoneHit(who));
        WeightNone(d.done, Pings(who));
        WeightNone(d.log, SentHit(who));
        WeightNone(d.replies, RecordHit(who));
        WeightNone(d.replies, Sends(who));
      }
      assert InRound(d, now);
      InRoundSpent(d, now);
      MaybeSendPingsKeeps(d, now);
    }
  }

  lemma OtherFieldsKeep(p: Prober, d: Prober, now: nat)
    requires Inv(p, now) && SumOf(d.latency) == d.sum && NonNegative(d.latency)
    requires d == p.(latency := d.latency, sum := d.sum, wantRefresh := d.wantRefresh)
    ensures Inv(d, now)
  {
    if p.active {
      forall who ensures Placed(d, who) && Counted(d, who) {
        assert Placed(p, who) && Counted(p, who);
      }
    }
  }

  lemma StepKeeps(p: Prober, e: Event, t: nat)
    requires Inv(p, t) && t <= Begins(e) <= e.now
    ensures Inv(Step(p, e), e.now)
  {
    hide MaybeSendPings, RecvPing, DoStart;
    LaterKeeps(p, t, Begins(e));
    match e
    case Start(supported, vpnOff, cities, now) => StartKeeps(p, supported, vpnOff, cities, now);
    case Tick(now) => MaybeSendPingsKeeps(p, now);
    case Receive(sequence, received, now) => RecvPingKeeps(p, sequence, received, now);
    case VpnActive(now) => StopSpent(p);
    case Clear(now) => OtherFieldsKeep(p, p.(latency := map[], sum := 0), now);
  }

  function EndTime(t: nat, events: seq<Event>): nat {
    if events == [] then t else events[|events| - 1].now
  }

  lemma {:induction false} RunKeeps(p: Prober, events: seq<Event>, t: nat)
    requires Inv(p, t) && Monotone(t, events)
    ensures Inv(Run(p, events), EndTime(t, events))
    decreases |events|
  {
    hide Step, Inv;
    if events != [] {
      StepKeeps(p, events[0], t);
      RunKeeps(Step(p, events[0]), events[1..], events[0].now);
    }
  }

  // ------------------------------------------------------------------
  // Main results
  // ------------------------------------------------------------------

  ghost predicate Distinct(ks: seq<Key>) {
    forall i, j :: 0 <= i < j < |ks| ==> ks[i] != ks[j]
  }

  lemma {:induction false} DistinctWeight(ks: seq<Key>, k: Key)
    requires Distinct(ks)
    ensures Weight(ks, KeyHit(Only(k))) == if k in ks then 1 else 0
  {
    if ks != [] {
      var n := |ks| - 1;
      DistinctWeight(ks[..n], k);
      assert ks == ks[..n] + [ks[n]];
    }
  }

  lemma {:induction false} EveryoneCounts<T>(s: seq<T>, w: T -> int)
    requires forall x: T :: w(x) == 1
    ensures Weight(s, w) == |s|
  {
    if s != [] {
      EveryoneCounts(s[..|s| - 1], w);
    }
  }

  /** Where the prober keeps server k: how often it is queued, outstanding and done. */
  function PlacesOf(p: Prober, k: Key): int {
    Weight(p.queue, RecordHit(Only(k))) + Weight(p.replies, RecordHit(Only(k)))
    + Weight(p.done, DoneHit(Only(k)))
  }

  lemma InitialInv()
    ensures Inv(IDLE, 0)
  {
  }

  /** In every run with a monotone clock: at most eight pings are outstanding,
      sorted by send time; with distinct servers each server of a round is in
      exactly one place and is pinged at most three times; no server is given up
      before its third ping; a round makes at most three pings per server in all. */
  lemma RoundSafe(events: seq<Event>)
    requires Monotone(0, events)
    ensures var p := Run(IDLE, events);
      && |p.replies| <= 8
      && (forall i, j :: 0 <= i < j < |p.replies| ==> p.replies[i].timestamp <= p.replies[j].timestamp)
      && (p.active && Distinct(p.round) ==>
          forall k :: PlacesOf(p, k) == if k in p.round then 1 else 0)
      && (Distinct(p.round) ==> forall k :: Weight(p.log, SentHit(Only(k))) <= 3)
      && (p.active ==> forall f :: f in p.done ==> 1 <= f.pings <= 3 && (f.answered || f.pings == 3))
      && |p.log| <= 3 * |p.round|
      && SumOf(p.latency) == p.sum
  {
    hide Run, Weight;
    InitialInv();
    RunKeeps(IDLE, events, 0);
    var p := Run(IDLE, events);
    assert Inv(p, EndTime(0, events));
    if Distinct(p.round) {
      forall k
        ensures Weight(p.log, SentHit(Only(k))) <= 3
        ensures p.active ==> PlacesOf(p, k) == if k in p.round then 1 else 0
      {
        DistinctWeight(p.round, k);
        assert p.active ==> Placed(p, Only(k));
      }
    }
    EveryoneCounts(p.log, SentHit(Everyone));
    EveryoneCounts(p.round, KeyHit(Everyone));
  }

  /** Sequence numbers do not repeat in a round of up to 21845 servers. */
  lemma SequencesDistinct(events: seq<Event>, i: nat, j: nat)
    requires Monotone(0, events)
    requires 3 * |Run(IDLE, events).round| <= 0x1_0000
    requires i < j < |Run(IDLE, events).log|
    ensures Run(IDLE, events).log[i].sequence != Run(IDLE, events).log[j].sequence
  {
    hide Run;
    InitialInv();
    RunKeeps(IDLE, events, 0);
    RoundSafe(events);
    assert Spent(Run(IDLE, events));
  }

  /** Within a round progress() never falls. */
  lemma ProgressNeverFalls(p: Prober, e: Event, t: nat)
    requires Inv(p, t) && t <= Begins(e) <= e.now && p.active
    ensures Progress(Step(p, e)) >= Progress(p)
  {
    hide MaybeSendPings, Inv;
    LaterKeeps(p, t, e.now);
    match e
    case Tick(now) =>
      MaybeSendPingsProgress(p, p, now);
    case Receive(sequence, received, now) =>
      var i := FindSequence(p.replies, sequence);
      if i < |p.replies| {
        var msec := received - p.replies[i].timestamp;
        LaterKeeps(p, t, received);
        RepliesPast(p, received, i);
        SetLatencyKeeps(p, p.replies[i].key, msec, now);
        var p1 := if msec <= UINT_MAX then SetLatency(p, p.replies[i].key, msec) else p;
        EraseKeeps(p1, i, now);
        MaybeSendPingsProgress(p, Erase(p1, i), now);
      }
    case _ =>
  }

  lemma MaybeSendPingsProgress(p: Prober, q: Prober, now: nat)
    requires Inv(q, now) && p.active && q.active && p.total == q.total
    requires |q.replies| + |q.queue| <= |p.replies| + |p.queue|
    ensures Progress(MaybeSendPings(q, now)) >= Progress(p)
  {
    hide MaybeSendPings, Accounts, Numbered, Spent, Expire, Fill;
    MaybeSendPingsKeeps(q, now);
    var d := MaybeSendPings(q, now);
    assert d.active ==> d.total == q.total by { assert d.active ==> InRound(d, now); }
    if d.active && p.total > 0 {
      Fraction(|d.replies| + |d.queue|, |p.replies| + |p.queue|, p.total);
    } else if p.total > 0 {
      Fraction(0, |p.replies| + |p.queue|, p.total);
    }
  }

  lemma Fraction(a: nat, b: nat, n: nat)
    requires a <= b && n > 0
    ensures a as real / n as real <= b as real / n as real
  {
  }

  // ------------------------------------------------------------------
  // Average
  // ------------------------------------------------------------------

  /** Integer division as C++ does it, towards zero. */
  function Quotient(a: int, b: int): int
    requires b > 0
  {
    if a >= 0 then a / b else -((-a) / b)
  }

  /** avgLatency(): the mean, rounded up; 0 without data. */
  function AvgLatency(p: Prober): int {
    if p.latency == map[] then 0 else Quotient(p.sum + |p.latency| - 1, |p.latency|)
  }

  lemma {:induction false} SumBounds(m: map<Key, int>, lo: int, hi: int)
    requires forall k :: k in m ==> lo <= m[k] <= hi
    ensures lo * |m| <= SumOf(m) <= hi * |m|
    decreases |m|
  {
    if m != map[] {
      var k :| k in m && SumOf(m) == m[k] + SumOf(m - {k});
      SumBounds(m - {k}, lo, hi);
      assert |m - {k}| == |m| - 1;
      hide SumOf;
      MulStep(lo, |m|);
      MulStep(hi, |m|);
    }
  }

  lemma MulStep(a: int, n: nat)
    requires n > 0
    ensures a * n == a * (n - 1) + a
  {
  }

  lemma CeilingBounds(sum: int, n: nat, lo: int, hi: int)
    requires n > 0 && lo * n <= sum <= hi * n
    ensures var avg := (sum + n - 1) / n;
      n * (avg - 1) < sum <= n * avg && lo <= avg <= hi
  {
    var avg := (sum + n - 1) / n;
    DivBounds(sum + n - 1, n);
    assert n * (avg - 1) == n * avg - n;
    if avg < lo {
      MulMonotone(n, avg, lo - 1);
    }
    if hi < avg {
      MulMonotone(n, hi + 1, avg);
    }
  }

  /** avgLatency() is the least integer not below the mean of the recorded
      latencies, and lies between the smallest and the largest of them. */
  lemma AvgLatencyIsMean(p: Prober, now: nat, lo: int, hi: int)
    requires Inv(p, now) && p.latency != map[]
    requires forall k :: k in p.latency ==> lo <= p.latency[k] <= hi
    ensures |p.latency| * (AvgLatency(p) - 1) < SumOf(p.latency) <= |p.latency| * AvgLatency(p)
    ensures lo <= AvgLatency(p) <= hi
  {
    hide SumOf, Spent, InRound;
    var top := if hi < 0 then 0 else hi;
    SumBounds(p.latency, lo, hi);
    SumBounds(p.latency, 0, top);
    assert |p.latency| > 0;
    CeilingBounds(p.sum, |p.latency|, lo, hi);
  }
}
