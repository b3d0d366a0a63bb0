/** Ping statistics (src/pinghelper.cpp): a ring of 32 send records indexed by
    a 16-bit sequence number that wraps around. */
module PingHelper {
  import opened Common
  import opened Bits

  const WINDOW := 32
  const UINT_MAX := 0xFFFF_FFFF
  const PING_TIMEOUT_MSEC := 1000

  datatype PingSendData = PingSendData(timestamp: int, latency: int, sequence: Word16)

  const UNUSED := PingSendData(-1, -1, 0)

  /** The number of the last of n pings that used slot i, for i < n. */
  function LastIn(n: nat, i: nat): (k: nat)
    requires i < WINDOW && i < n
    ensures k < n && n - WINDOW <= k && k % WINDOW == i
  {
    n - 1 - (n - 1 - i) % WINDOW
  }

  /** s is the sequence number of one of the last 32 of n pings. */
  ghost predicate Recent(n: nat, s: Word16) {
    exists k: nat :: k < n && n <= k + 32 && k % 0x1_0000 == s
  }

  /** Slot s % 32 holds sequence number s exactly when s is recent: 32 divides
      2^16, so wrapping does not move a number to another slot. */
  lemma SlotMatches(n: nat, s: Word16)
    requires n >= 1
    ensures var i := s % WINDOW;
      (if i < n then LastIn(n, i) % 0x1_0000 == s else s == 0) <==> Recent(n, s)
  {
    var i := s % WINDOW;
    if i < n {
      var k := LastIn(n, i);
      if k % 0x1_0000 == s {
        assert Recent(n, s);
      }
      if Recent(n, s) {
        var j: nat :| j < n && n <= j + WINDOW && j % 0x1_0000 == s;
        SameSlot(j, s);
        SlotUnique(n, j, k);
      }
    } else if Recent(n, s) {
      var j: nat :| j < n && n <= j + WINDOW && j % 0x1_0000 == s;
      SameSlot(j, s);
    }
  }

  lemma SameSlot(j: nat, s: Word16)
    requires j % 0x1_0000 == s
    ensures j % WINDOW == s % WINDOW && s <= j
  {
    assert j == 0x1_0000 * (j / 0x1_0000) + s;
    assert 0x1_0000 * (j / 0x1_0000) == WINDOW * (2048 * (j / 0x1_0000));
    ModShift(2048 * (j / 0x1_0000), s);
  }

  lemma ModShift(q: nat, s: nat)
    ensures (WINDOW * q + s) % WINDOW == s % WINDOW
  {
  }

  /** Only one ping of a window of 32 uses a given slot. */
  lemma SlotUnique(n: nat, j: nat, k: nat)
    requires j < n <= j + WINDOW && k < n <= k + WINDOW && j % WINDOW == k % WINDOW
    ensures j == k
  {
    assert j == WINDOW * (j / WINDOW) + j % WINDOW;
    assert k == WINDOW * (k / WINDOW) + k % WINDOW;
  }

  // ------------------------------------------------------------------
  // Statistics over the ring
  // ------------------------------------------------------------------

  function Received(d: seq<PingSendData>): nat {
    if d == [] then 0 else Received(d[..|d| - 1]) + (if d[|d| - 1].latency < 0 then 0 else 1)
  }

  function TotalLatency(d: seq<PingSendData>): int {
    if d == [] then 0
    else TotalLatency(d[..|d| - 1]) + (if d[|d| - 1].latency < 0 then 0 else d[|d| - 1].latency)
  }

  predicate Lost(r: PingSendData, now: int) {
    r.latency < 0 && 0 < r.timestamp < now - PING_TIMEOUT_MSEC
  }

  function LostCount(d: seq<PingSendData>, now: int): nat {
    if d == [] then 0 else LostCount(d[..|d| - 1], now) + (if Lost(d[|d| - 1], now) then 1 else 0)
  }

  // -- what is counted

  ghost function Answered(d: seq<PingSendData>): set<nat> {
    set i: nat | i < |d| && d[i].latency >= 0
  }

  /** Sent, more than a second ago, and not answered. */
  ghost function Overdue(d: seq<PingSendData>, now: int): set<nat> {
    set i: nat | i < |d| && d[i].latency < 0 && d[i].timestamp > 0 && now - d[i].timestamp > 1000
  }

  lemma {:induction false} ReceivedCounts(d: seq<PingSendData>)
    ensures Received(d) == |Answered(d)|
  {
    if d != [] {
      var n := |d| - 1;
      ReceivedCounts(d[..n]);
      assert Answered(d) == Answered(d[..n]) + (if d[n].latency >= 0 then {n as nat} else {});
    }
  }

  /** A ping counts as lost only once it has been out for more than a second. */
  lemma {:induction false} LostCounts(d: seq<PingSendData>, now: int)
    ensures LostCount(d, now) == |Overdue(d, now)|
  {
    if d != [] {
      var n := |d| - 1;
      LostCounts(d[..n], now);
      assert Overdue(d, now) == Overdue(d[..n], now) + (if Lost(d[n], now) then {n as nat} else {});
    }
  }

  /** What a record adds to the total. */
  function Counted(r: PingSendData): int {
    if r.latency >= 0 then r.latency else 0
  }

  lemma {:induction false} TotalUpdate(d: seq<PingSendData>, i: nat, r: PingSendData)
    requires i < |d|
    ensures TotalLatency(d[i := r]) == TotalLatency(d) - Counted(d[i]) + Counted(r)
  {
    var n := |d| - 1;
    if i < n {
      assert d[i := r][..n] == d[..n][i := r];
      TotalUpdate(d[..n], i, r);
    } else {
      assert d[i := r][..n] == d[..n];
    }
  }

  lemma {:induction false} NothingAnswered(d: seq<PingSendData>)
    requires forall i :: 0 <= i < |d| ==> d[i].latency < 0
    ensures TotalLatency(d) == 0
  {
    if d != [] {
      NothingAnswered(d[..|d| - 1]);
    }
  }

  lemma {:induction false} CountBounds(d: seq<PingSendData>, now: int)
    ensures Received(d) + LostCount(d, now) <= |d|
  {
    if d != [] {
      CountBounds(d[..|d| - 1], now);
    }
  }

  lemma {:induction false} LatencyBounds(d: seq<PingSendData>, lo: nat, hi: nat)
    requires forall i :: 0 <= i < |d| && d[i].latency >= 0 ==> lo <= d[i].latency <= hi
    ensures lo * Received(d) <= TotalLatency(d) <= hi * Received(d)
  {
    if d != [] {
      var front, last := d[..|d| - 1], d[|d| - 1];
      LatencyBounds(front, lo, hi);
      assert lo * (Received(front) + 1) == lo * Received(front) + lo;
      assert hi * (Received(front) + 1) == hi * Received(front) + hi;
    }
  }

  /** The mean, rounded to the nearest integer. */
  lemma NearestMean(total: int, n: nat, lo: nat, hi: nat)
    requires n > 0 && lo * n <= total <= hi * n
    ensures var r := (total + n / 2) / n;
      -(n as int) <= 2 * (n * r - total) <= n && lo <= r <= hi
  {
    var r := (total + n / 2) / n;
    DivBounds(total + n / 2, n);
    Between(n, r, total, lo, hi);
  }

  /** A value within half of n of the total over n keeps the bounds. */
  lemma Between(n: nat, r: int, total: int, lo: nat, hi: nat)
    requires n > 0 && lo * n <= total <= hi * n
    requires n * r <= total + n / 2 < n * r + n
    ensures lo <= r <= hi
  {
    if r < lo {
      MulMonotone(n, r + 1, lo);
    }
    if hi < r {
      MulMonotone(n, hi + 1, r);
    }
  }

  /** mean is the mean of the recorded latencies to the nearest integer; it lies
      between any bounds on them. */
  ghost predicate IsNearestMean(d: seq<PingSendData>, mean: int) {
    && -(|Answered(d)| as int) <= 2 * (|Answered(d)| * mean - TotalLatency(d)) <= |Answered(d)|
    && (forall lo: nat :: AtLeast(d, lo) ==> lo <= mean)
    && (forall hi: nat :: AtMost(d, hi) ==> mean <= hi)
  }

  ghost predicate AtLeast(d: seq<PingSendData>, lo: nat) {
    forall i :: 0 <= i < |d| && d[i].latency >= 0 ==> lo <= d[i].latency
  }

  ghost predicate AtMost(d: seq<PingSendData>, hi: nat) {
    forall i :: 0 <= i < |d| && d[i].latency >= 0 ==> d[i].latency <= hi
  }

  lemma {:induction false} GreatestLatency(d: seq<PingSendData>) returns (hi: nat)
    ensures AtMost(d, hi)
  {
    if d == [] {
      hi := 0;
    } else {
      hi := GreatestLatency(d[..|d| - 1]);
      if d[|d| - 1].latency > hi {
        hi := d[|d| - 1].latency;
      }
    }
  }

  lemma RoundedMean(d: seq<PingSendData>)
    requires Received(d) > 0
    ensures IsNearestMean(d, (TotalLatency(d) + Received(d) / 2) / Received(d))
  {
    hide Received, TotalLatency;
    ReceivedCounts(d);
    var n, total := Received(d), TotalLatency(d);
    var mean := (total + n / 2) / n;
    var top := GreatestLatency(d);
    forall lo: nat | AtLeast(d, lo) ensures lo <= mean {
      var both := if lo <= top then top else lo;
      LatencyBounds(d, lo, both);
      NearestMean(total, n, lo, both);
    }
    forall hi: nat | AtMost(d, hi) ensures mean <= hi {
      LatencyBounds(d, 0, hi);
      NearestMean(total, n, 0, hi);
    }
    LatencyBounds(d, 0, top);
    NearestMean(total, n, 0, top);
  }

  // ------------------------------------------------------------------
  // The helper object
  // ------------------------------------------------------------------

  class Helper {
    var ring: array<PingSendData>
    var sequence: Word16
    /** Pings sent since start(). */
    ghost var sent: nat

    ghost predicate Valid()
      reads this, ring
    {
      && ring.Length == WINDOW
      && sequence == sent % 0x1_0000
      && (forall i :: 0 <= i < WINDOW ==>
          if i < sent then ring[i].sequence == LastIn(sent, i) % 0x1_0000 else ring[i].sequence == 0)
    }

    constructor ()
      ensures Valid() && fresh(ring) && sent == 0
    {
      ring := new PingSendData[WINDOW](_ => UNUSED);
      sequence, sent := 0, 0;
    }

    /** The part of start() that resets the statistics. */
    method Start()
      requires ring.Length == WINDOW
      modifies this`sequence, this`sent, ring
      ensures Valid() && sent == 0 && forall i :: 0 <= i < WINDOW ==> ring[i] == UNUSED
    {
      sequence, sent := 0, 0;
      for i := 0 to WINDOW
        invariant sequence == 0 && sent == 0
        invariant forall j :: 0 <= j < i ==> ring[j] == UNUSED
      {
        ring[i] := UNUSED;
      }
    }

    method NextPing(now: int)
      requires Valid()
      modifies this`sequence, this`sent, ring
      ensures Valid() && sent == old(sent) + 1
      ensures ring[old(sequence) % WINDOW] == PingSendData(now, -1, old(sequence))
      ensures forall i :: 0 <= i < WINDOW && i != old(sequence) % WINDOW ==> ring[i] == old(ring[i])
    {
      var index := sequence % WINDOW;
      SameSlot(sent, sequence);
      ring[index] := PingSendData(now, -1, sequence);
      sequence := (sequence + 1) % 0x1_0000;
      sent := sent + 1;
      CounterStep(sent - 1);
      forall i | 0 <= i < WINDOW
        ensures if i < sent then ring[i].sequence == LastIn(sent, i) % 0x1_0000 else ring[i].sequence == 0
      {
        SlotAfter(sent - 1, i);
      }
    }

    /** A reply is recorded exactly when it answers one of the last 32 pings;
        before the first ping sequence number 0 would match the unused ring. */
    method PingReceived(seqno: Word16, now: int) returns (recorded: bool)
      requires Valid()
      modifies ring
      ensures Valid()
      ensures sent >= 1 ==> (recorded <==> Recent(sent, seqno))
      ensures sent == 0 ==> (recorded <==> seqno == 0)
      ensures forall i :: 0 <= i < WINDOW ==>
        ring[i] == (if recorded && i == seqno % WINDOW
                    then old(ring[i]).(latency := now - old(ring[i]).timestamp) else old(ring[i]))
    {
      var index := seqno % WINDOW;
      if sent >= 1 {
        SlotMatches(sent, seqno);
      }
      recorded := ring[index].sequence == seqno;
      if recorded {
        ring[index] := ring[index].(latency := now - ring[index].timestamp);
      }
    }

    /** latency(): 0 without replies, else the recorded latencies' mean to the
        nearest integer, cast to uint. */
    method Latency() returns (r: nat)
      requires ring.Length == WINDOW
      ensures Answered(ring[..]) == {} ==> r == 0
      ensures Answered(ring[..]) != {} ==> exists mean :: IsNearestMean(ring[..], mean) && r == mean % 0x1_0000_0000
    {
      var count, total := 0, 0;
      for i := 0 to WINDOW
        invariant count == Received(ring[..i]) && total == TotalLatency(ring[..i])
      {
        assert ring[..i + 1][..i] == ring[..i];
        if ring[i].latency < 0 {
          continue;
        }
        count := count + 1;
        total := total + ring[i].latency;
      }
      assert ring[..WINDOW] == ring[..];
      ReceivedCounts(ring[..]);
      hide Received, TotalLatency;
      if count <= 0 {
        return 0;
      }
      total := total + count / 2;
      RoundedMean(ring[..]);
      r := total / count % 0x1_0000_0000;
    }

    /** maximum(): the greatest recorded latency below the largest uint. */
    method Maximum() returns (r: nat)
      requires ring.Length == WINDOW
      ensures forall i :: 0 <= i < 32 && ring[i].latency < 0xFFFF_FFFF ==> ring[i].latency <= r
      ensures r == 0 || exists i :: 0 <= i < 32 && ring[i].latency == r < 0xFFFF_FFFF
    {
      r := 0;
      for i := 0 to WINDOW
        invariant forall j :: 0 <= j < i && ring[j].latency < UINT_MAX ==> ring[j].latency <= r
        invariant r == 0 || exists j :: 0 <= j < i && ring[j].latency == r < UINT_MAX
      {
        if ring[i].latency < 0 {
          continue;
        }
        if ring[i].latency > r && ring[i].latency < UINT_MAX {
          r := ring[i].latency;
        }
      }
    }

    /** loss(): the fraction of the window that was sent over a second ago and
        not answered. */
    method Loss(now: int) returns (r: real)
      requires ring.Length == WINDOW
      ensures r == |Overdue(ring[..], now)| as real / 32.0
      ensures 0.0 <= r <= 1.0
    {
      var sendCount, recvCount := 0, 0;
      for i := 0 to WINDOW
        invariant recvCount == Received(ring[..i])
        invariant sendCount == recvCount + LostCount(ring[..i], now)
      {
        assert ring[..i + 1][..i] == ring[..i];
        if ring[i].latency >= 0 {
          recvCount := recvCount + 1;
          sendCount := sendCount + 1;
        } else if ring[i].timestamp > 0 && ring[i].timestamp < now - PING_TIMEOUT_MSEC {
          sendCount := sendCount + 1;
        }
      }
      assert ring[..WINDOW] == ring[..];
      CountBounds(ring[..], now);
      LostCounts(ring[..], now);
      if sendCount <= 0 {
        return 0.0;
      }
      r := (sendCount - recvCount) as real / WINDOW as real;
    }
  }

  /** One more ping moves only its own slot. */
  lemma SlotAfter(n: nat, i: nat)
    requires i < WINDOW
    ensures i == n % WINDOW ==> i < n + 1 && LastIn(n + 1, i) == n
    ensures i != n % WINDOW && i < n ==> LastIn(n + 1, i) == LastIn(n, i)
    ensures i != n % WINDOW && i >= n ==> i >= n + 1
  {
    if i < n {
      var k := LastIn(n + 1, i);
      if i == n % WINDOW {
        SlotUnique(n + 1, k, n);
      } else {
        assert k != n;
        assert n <= k + WINDOW;
        SlotUnique(n, k, LastIn(n, i));
      }
    }
  }
}
