/** CIDR arithmetic (src/ipaddress.cpp). An IPv4 address is a 32-bit word, an
    IPv6 address sixteen bytes; one specification covers both: the sequence of
    address bits, most significant first. A prefix denotes the addresses that
    agree with it on its first `length` bits. */
module IpAddress {
  import opened Common
  import opened Bits

  datatype HostAddress = V4(raw: Word32) | V6(bytes: seq<Byte>)
  type Host = a: HostAddress | a.V6? ==> |a.bytes| == 16 witness V4(0)

  datatype Prefix = Prefix(address: Host, length: nat)
  type IPAddress = p: Prefix | p.length <= Width(p.address) witness Prefix(V4(0), 0)

  predicate SameProtocol(a: Host, b: Host) {
    a.V4? == b.V4?
  }

  function Width(a: Host): nat {
    if a.V4? then 32 else 128
  }

  // ------------------------------------------------------------------
  // Specification: bits and the set a prefix denotes
  // ------------------------------------------------------------------

  /** Address bit i, counted from the most significant one. */
  predicate Bit(a: Host, i: nat)
    requires i < Width(a)
  {
    match a
    case V4(raw) => BitAt(raw, 31 - i)
    case V6(bytes) => BitAt(bytes[i / 8], 7 - i % 8)
  }

  ghost predicate AgreeOn(a: Host, b: Host, n: nat)
    requires SameProtocol(a, b) && n <= Width(a)
  {
    forall i :: 0 <= i < n ==> (Bit(a, i) <==> Bit(b, i))
  }

  /** x is one of the addresses that p denotes. */
  ghost predicate InPrefix(p: IPAddress, x: Host) {
    SameProtocol(p.address, x) && AgreeOn(p.address, x, p.length)
  }

  /** All host bits are zero. */
  ghost predicate Canonical(p: IPAddress) {
    forall i :: p.length <= i < Width(p.address) ==> !Bit(p.address, i)
  }

  ghost predicate Covered(ps: seq<IPAddress>, x: Host) {
    exists k :: 0 <= k < |ps| && InPrefix(ps[k], x)
  }

  ghost predicate Disjoint(p: IPAddress, q: IPAddress) {
    forall x: Host :: InPrefix(p, x) ==> !InPrefix(q, x)
  }

  ghost predicate PairwiseDisjoint(ps: seq<IPAddress>) {
    forall j, k :: 0 <= j < k < |ps| ==> Disjoint(ps[j], ps[k])
  }

  ghost predicate AllCanonical(ps: seq<IPAddress>) {
    forall k :: 0 <= k < |ps| ==> Canonical(ps[k])
  }

  /** The address as one big-endian number. */
  function Value(a: Host): nat {
    if a.V4? then a.raw else BigEndian(a.bytes)
  }

  function BigEndian(bs: seq<Byte>): nat {
    if bs == [] then 0 else 0x100 * BigEndian(bs[..|bs| - 1]) + bs[|bs| - 1]
  }

  // ------------------------------------------------------------------
  // Operations that compute a value
  // ------------------------------------------------------------------

  predicate Contains(p: IPAddress, address: Host) {
    if !SameProtocol(p.address, address) then false
    else if p.length == 0 then true
    else match p.address
      case V6(a) =>
        var b := address.bytes;
        var bytes := p.length / 8;
        if bytes > 0 && a[..bytes] != b[..bytes] then false
        else if p.length % 8 != 0 then Shr(Xor(a[bytes], b[bytes]), 8 - p.length % 8) == 0
        else true
      case V4(a) =>
        var diff := Xor(a, address.raw);
        (if p.length < 32 then Shr(diff, 32 - p.length) else diff) == 0
  }

  predicate Overlaps(p: IPAddress, q: IPAddress) {
    if p.length < q.length then Contains(p, q.address) else Contains(q, p.address)
  }

  predicate SubnetOf(p: IPAddress, q: IPAddress) {
    if !SameProtocol(q.address, p.address) then false
    else if p.length < q.length then false
    else Contains(q, p.address)
  }

  /** Sets address bit n, as the two or-assignments of the source do. */
  function SetBit(a: Host, n: nat): (r: Host)
    requires n < Width(a)
    ensures SameProtocol(a, r)
  {
    match a
    case V4(raw) =>
      OrInWord(raw, n);
      V4(Or(raw, Shr(0x8000_0000, n)))
    case V6(bytes) =>
      OrInByte(bytes[n / 8], n % 8);
      V6(bytes[n / 8 := Or(bytes[n / 8], Shr(0x80, n % 8))])
  }

  function Subnets(p: IPAddress): (r: seq<IPAddress>)
    ensures |r| == (if p.length < Width(p.address) then 2 else 1)
  {
    if p.length >= Width(p.address) then [p]
    else [Prefix(p.address, p.length + 1), Prefix(SetBit(p.address, p.length), p.length + 1)]
  }

  // ------------------------------------------------------------------
  // The byte and shift code refines the bit specification
  // ------------------------------------------------------------------

  lemma OrInWord(raw: Word32, n: nat)
    requires n < 32
    ensures Shr(0x8000_0000, n) == Pow2(31 - n)
    ensures Or(raw, Shr(0x8000_0000, n)) < 0x1_0000_0000
  {
    WordWidth();
    ShrPow2(31, n);
    Pow2Monotone(31 - n, 31);
    BitwiseBound(raw, Pow2(31 - n), 32);
  }

  lemma OrInByte(b: Byte, n: nat)
    requires n < 8
    ensures Shr(0x80, n) == Pow2(7 - n)
    ensures Or(b, Shr(0x80, n)) < 0x100
  {
    ByteWidth();
    ShrPow2(7, n);
    Pow2Monotone(7 - n, 7);
    BitwiseBound(b, Pow2(7 - n), 8);
  }

  lemma {:induction false} Pow2Monotone(m: nat, n: nat)
    requires m <= n
    ensures Pow2(m) <= Pow2(n)
  {
    if m < n {
      Pow2Monotone(m, n - 1);
    }
  }

  lemma SetBitBits(a: Host, n: nat, i: nat)
    requires n < Width(a) && i < Width(a)
    ensures Bit(SetBit(a, n), i) <==> Bit(a, i) || i == n
  {
    match a
    case V4(raw) =>
      OrInWord(raw, n);
      OrBit(raw, Pow2(31 - n), 31 - i);
      Pow2Bit(31 - n, 31 - i);
    case V6(bytes) =>
      OrInByte(bytes[n / 8], n % 8);
      OrBit(bytes[n / 8], Pow2(7 - n % 8), 7 - i % 8);
      Pow2Bit(7 - n % 8, 7 - i % 8);
  }

  /** Two words agree on their bits from position j up exactly when the
      exclusive or, shifted right by j, is zero. */
  lemma ShiftedXor(x: nat, y: nat, j: nat, w: nat)
    requires x < Pow2(w) && y < Pow2(w) && j <= w
    ensures Shr(Xor(x, y), j) == 0 <==> forall k :: j <= k < w ==> (BitAt(x, k) <==> BitAt(y, k))
  {
    BitwiseBound(x, y, w);
    ShrZero(Xor(x, y), j, w);
    forall k | j <= k < w
      ensures BitAt(Xor(x, y), k) <==> BitAt(x, k) != BitAt(y, k)
    {
      XorBit(x, y, k);
    }
  }

  lemma EqualByBits(x: nat, y: nat, w: nat)
    requires x < Pow2(w) && y < Pow2(w)
    requires forall k :: 0 <= k < w ==> (BitAt(x, k) <==> BitAt(y, k))
    ensures x == y
  {
    BitsMonotone(x, y, w);
    BitsMonotone(y, x, w);
  }

  /** Hosts of one protocol that agree on every bit are equal. */
  lemma HostByBits(a: Host, b: Host)
    requires SameProtocol(a, b) && AgreeOn(a, b, Width(a))
    ensures a == b
  {
    match a
    case V4(x) =>
      WordWidth();
      forall k | 0 <= k < 32 ensures BitAt(x, k) <==> BitAt(b.raw, k) {
        assert Bit(a, 31 - k) <==> Bit(b, 31 - k);
      }
      EqualByBits(x, b.raw, 32);
    case V6(x) =>
      ByteWidth();
      forall j | 0 <= j < 16 ensures x[j] == b.bytes[j] {
        AgreeOnByte(a, b, 128, j, 0);
        EqualByBits(x[j], b.bytes[j], 8);
      }
  }

  lemma ContainsV4(p: IPAddress, x: Host)
    requires p.address.V4? && x.V4? && 0 < p.length
    ensures Contains(p, x) <==> InPrefix(p, x)
  {
    WordWidth();
    var j := 32 - p.length;
    ShiftedXor(p.address.raw, x.raw, j, 32);
    if InPrefix(p, x) {
      forall k | j <= k < 32 ensures BitAt(p.address.raw, k) <==> BitAt(x.raw, k) {
        assert Bit(p.address, 31 - k) <==> Bit(x, 31 - k);
      }
    }
  }

  /** Agreement on n bits, read off byte j from its bit `lo` up. */
  lemma AgreeOnByte(a: Host, b: Host, n: nat, j: nat, lo: nat)
    requires a.V6? && b.V6? && n <= 128 && AgreeOn(a, b, n)
    requires lo <= 8 && j < 16 && 8 * j + 8 - lo <= n
    ensures forall k :: lo <= k < 8 ==> (BitAt(a.bytes[j], k) <==> BitAt(b.bytes[j], k))
  {
    forall k | lo <= k < 8 ensures BitAt(a.bytes[j], k) <==> BitAt(b.bytes[j], k) {
      var i := 8 * j + 7 - k;
      assert i / 8 == j && 7 - i % 8 == k;
      assert Bit(a, i) <==> Bit(b, i);
    }
  }

  lemma InPrefixContainsV6(p: IPAddress, x: Host)
    requires p.address.V6? && 0 < p.length && InPrefix(p, x)
    ensures Contains(p, x)
  {
    ByteWidth();
    var a, b, n, low := p.address.bytes, x.bytes, p.length / 8, 8 - p.length % 8;
    forall j | 0 <= j < n ensures a[j] == b[j] {
      AgreeOnByte(p.address, x, p.length, j, 0);
      EqualByBits(a[j], b[j], 8);
    }
    assert a[..n] == b[..n];
    if p.length % 8 != 0 {
      AgreeOnByte(p.address, x, p.length, n, low);
      ShiftedXor(a[n], b[n], low, 8);
    }
  }

  /** Whole equal bytes and an agreeing last part give agreement on n bits. */
  lemma AgreeFromBytes(a: Host, b: Host, n: nat)
    requires a.V6? && b.V6? && n <= 128
    requires forall j :: 0 <= j < n / 8 ==> a.bytes[j] == b.bytes[j]
    requires n % 8 != 0 ==>
      forall k :: 8 - n % 8 <= k < 8 ==> (BitAt(a.bytes[n / 8], k) <==> BitAt(b.bytes[n / 8], k))
    ensures AgreeOn(a, b, n)
  {
    forall i | 0 <= i < n ensures Bit(a, i) <==> Bit(b, i) {
      if i / 8 == n / 8 {
        assert 8 - n % 8 <= 7 - i % 8;
      }
    }
  }

  lemma ContainsInPrefixV6(p: IPAddress, x: Host)
    requires p.address.V6? && x.V6? && 0 < p.length && Contains(p, x)
    ensures InPrefix(p, x)
  {
    ByteWidth();
    var a, b, n := p.address.bytes, x.bytes, p.length / 8;
    if p.length % 8 != 0 {
      ShiftedXor(a[n], b[n], 8 - p.length % 8, 8);
    }
    forall j | 0 <= j < n ensures a[j] == b[j] {
      assert a[j] == a[..n][j] && b[j] == b[..n][j];
    }
    AgreeFromBytes(p.address, x, p.length);
  }

  /** contains decides membership, for IPv4 shifts and IPv6 bytes alike. */
  lemma ContainsDecidesMembership(p: IPAddress, x: Host)
    ensures Contains(p, x) <==> InPrefix(p, x)
  {
    if SameProtocol(p.address, x) && p.length > 0 {
      if x.V4? {
        ContainsV4(p, x);
      } else {
        if Contains(p, x) {
          ContainsInPrefixV6(p, x);
        }
        if InPrefix(p, x) {
          InPrefixContainsV6(p, x);
        }
      }
    }
  }

  /** overlaps decides intersection. */
  lemma OverlapsDecidesIntersection(p: IPAddress, q: IPAddress)
    ensures Overlaps(p, q) <==> !Disjoint(p, q)
  {
    ContainsDecidesMembership(p, q.address);
    ContainsDecidesMembership(q, p.address);
    if Overlaps(p, q) {
      var w := if p.length < q.length then q.address else p.address;
      assert InPrefix(p, w) && InPrefix(q, w);
    }
    if !Disjoint(p, q) {
      var x: Host :| InPrefix(p, x) && InPrefix(q, x);
      var short, long := if p.length < q.length then p else q, if p.length < q.length then q else p;
      forall i | 0 <= i < short.length ensures Bit(short.address, i) <==> Bit(long.address, i) {
        assert Bit(short.address, i) <==> Bit(x, i);
        assert Bit(long.address, i) <==> Bit(x, i);
      }
    }
  }

  lemma XorInWidth(x: nat, n: nat, w: nat)
    requires x < Pow2(w) && n < w
    ensures Xor(x, Pow2(n)) < Pow2(w)
  {
    Pow2Monotone(n, w - 1);
    BitwiseBound(x, Pow2(n), w);
  }

  /** The address that differs from a in bit n alone. */
  ghost function Flip(a: Host, n: nat): (r: Host)
    requires n < Width(a)
    ensures SameProtocol(a, r)
  {
    match a
    case V4(raw) =>
      WordWidth();
      XorInWidth(raw, 31 - n, 32);
      V4(Xor(raw, Pow2(31 - n)))
    case V6(bytes) =>
      ByteWidth();
      XorInWidth(bytes[n / 8], 7 - n % 8, 8);
      V6(bytes[n / 8 := Xor(bytes[n / 8], Pow2(7 - n % 8))])
  }

  lemma FlipBits(a: Host, n: nat, i: nat)
    requires n < Width(a) && i < Width(a)
    ensures Bit(Flip(a, n), i) <==> (Bit(a, i) != (i == n))
  {
    match a
    case V4(raw) =>
      XorBit(raw, Pow2(31 - n), 31 - i);
      Pow2Bit(31 - n, 31 - i);
    case V6(bytes) =>
      XorBit(bytes[n / 8], Pow2(7 - n % 8), 7 - i % 8);
      Pow2Bit(7 - n % 8, 7 - i % 8);
  }

  /** subnetOf decides inclusion. */
  lemma SubnetOfDecidesInclusion(p: IPAddress, q: IPAddress)
    ensures SubnetOf(p, q) <==> forall x: Host :: InPrefix(p, x) ==> InPrefix(q, x)
  {
    ContainsDecidesMembership(q, p.address);
    assert InPrefix(p, p.address);
    if SubnetOf(p, q) {
      forall x: Host | InPrefix(p, x) ensures InPrefix(q, x) {
        forall i | 0 <= i < q.length ensures Bit(q.address, i) <==> Bit(x, i) {
          assert Bit(p.address, i) <==> Bit(x, i);
          assert Bit(q.address, i) <==> Bit(p.address, i);
        }
      }
    } else if SameProtocol(p.address, q.address) && p.length < q.length {
      // An address inside p that disagrees with q on bit p.length.
      var y := Flip(p.address, p.length);
      forall i | 0 <= i <= p.length ensures Bit(y, i) <==> (Bit(p.address, i) != (i == p.length)) {
        FlipBits(p.address, p.length, i);
      }
      assert InPrefix(p, y);
      assert Bit(y, p.length) != Bit(p.address, p.length);
      var x := if Bit(q.address, p.length) == Bit(p.address, p.length) then y else p.address;
      assert InPrefix(p, x) && !InPrefix(q, x);
    }
  }

  // ------------------------------------------------------------------
  // Splitting
  // ------------------------------------------------------------------

  ghost predicate Partition(p: IPAddress, l: IPAddress, r: IPAddress) {
    && Disjoint(l, r)
    && forall x: Host :: InPrefix(p, x) <==> InPrefix(l, x) || InPrefix(r, x)
  }

  /** The two halves are the addresses with the next bit clear and set. */
  lemma HalfMembership(p: IPAddress, x: Host)
    requires p.length < Width(p.address)
    ensures var sn := Subnets(p);
      && (InPrefix(sn[0], x) <==>
          InPrefix(p, x) && (Bit(x, p.length) <==> Bit(p.address, p.length)))
      && (InPrefix(sn[1], x) <==> InPrefix(p, x) && Bit(x, p.length))
  {
    if SameProtocol(p.address, x) {
      var hi := SetBit(p.address, p.length);
      forall i | 0 <= i <= p.length
        ensures Bit(hi, i) <==> Bit(p.address, i) || i == p.length
      {
        SetBitBits(p.address, p.length, i);
      }
      var sn := Subnets(p);
      if InPrefix(sn[0], x) || InPrefix(sn[1], x) {
        assert InPrefix(p, x);
      }
    }
  }

  /** subnets() partitions a splittable prefix exactly when the bit it splits
      on is still zero; for a canonical prefix it always is. */
  lemma SubnetsPartitionIff(p: IPAddress)
    requires p.length < Width(p.address)
    ensures Partition(p, Subnets(p)[0], Subnets(p)[1]) <==> !Bit(p.address, p.length)
    ensures Canonical(p) ==> Canonical(Subnets(p)[0]) && Canonical(Subnets(p)[1])
  {
    var sn := Subnets(p);
    forall x: Host
      ensures InPrefix(sn[0], x) <==>
              InPrefix(p, x) && (Bit(x, p.length) <==> Bit(p.address, p.length))
      ensures InPrefix(sn[1], x) <==> InPrefix(p, x) && Bit(x, p.length)
    {
      HalfMembership(p, x);
    }
    if Bit(p.address, p.length) {
      assert InPrefix(sn[0], p.address) && InPrefix(sn[1], p.address);
    }
    if Canonical(p) {
      forall i | p.length + 1 <= i < Width(p.address)
        ensures !Bit(sn[1].address, i) && !Bit(sn[0].address, i)
      {
        SetBitBits(p.address, p.length, i);
      }
    }
  }

  /** Canonical prefixes of one length that meet are equal. */
  lemma CanonicalUnique(p: IPAddress, q: IPAddress)
    requires Canonical(p) && Canonical(q) && p.length == q.length && InPrefix(p, q.address)
    ensures p == q
  {
    forall i | 0 <= i < Width(p.address)
      ensures Bit(p.address, i) <==> Bit(q.address, i)
    {
    }
    HostByBits(p.address, q.address);
  }

  // ------------------------------------------------------------------
  // Exclusion
  // ------------------------------------------------------------------

  /** What excluding `ip` from `p` must leave: one prefix of each length from
      p.length + 1 to ip.length, disjoint from each other, from ip and together
      covering the rest of p. */
  ghost predicate ExcludesOne(p: IPAddress, ip: IPAddress, r: seq<IPAddress>) {
    && |r| == ip.length - p.length
    && (forall k :: 0 <= k < |r| ==> r[k].length == p.length + 1 + k)
    && PairwiseDisjoint(r)
    && (forall x: Host :: Covered(r, x) <==> InPrefix(p, x) && !InPrefix(ip, x))
  }

  /** One step of the splitting loop, on the list built so far. */
  lemma AppendHalf(p: IPAddress, cur: IPAddress, r: seq<IPAddress>, off: IPAddress, on: IPAddress)
    requires |r| == cur.length - p.length && off.length == cur.length + 1
    requires ExcludesOne(p, cur, r)
    requires p.length <= cur.length && forall x: Host :: InPrefix(cur, x) ==> InPrefix(p, x)
    requires Disjoint(off, on) && off.length == on.length
    requires forall x: Host :: InPrefix(cur, x) <==> InPrefix(off, x) || InPrefix(on, x)
    ensures ExcludesOne(p, on, r + [off])
  {
    var r' := r + [off];
    forall j, k | 0 <= j < k < |r'| ensures Disjoint(r'[j], r'[k]) {
      if k == |r| {
        forall x: Host | InPrefix(r[j], x) ensures !InPrefix(off, x) {
          assert Covered(r, x);
        }
      }
    }
    forall x: Host
      ensures Covered(r', x) <==> InPrefix(p, x) && !InPrefix(on, x)
    {
      CoveredAppend(r, [off], x);
      CoveredOne(off, x);
      assert Covered(r, x) <==> InPrefix(p, x) && !InPrefix(cur, x);
    }
  }

  lemma CoveredAppend(a: seq<IPAddress>, b: seq<IPAddress>, x: Host)
    ensures Covered(a + b, x) <==> Covered(a, x) || Covered(b, x)
  {
    var c := a + b;
    if Covered(a, x) {
      var k :| 0 <= k < |a| && InPrefix(a[k], x);
      assert InPrefix(c[k], x);
    }
    if Covered(b, x) {
      var k :| 0 <= k < |b| && InPrefix(b[k], x);
      assert InPrefix(c[|a| + k], x);
    }
    if Covered(c, x) {
      var k :| 0 <= k < |c| && InPrefix(c[k], x);
      if k < |a| {
        assert InPrefix(a[k], x);
      } else {
        assert InPrefix(b[k - |a|], x);
      }
    }
  }

  // -- excludeAddresses(const IPAddress&), for prefixes with any host bits

  ghost predicate StrictlyInside(p: IPAddress, ip: IPAddress) {
    p.length < ip.length && InPrefix(p, ip.address)
  }

  /** No bit of p's address is set from its length up to bit n. */
  ghost predicate ClearUpTo(p: IPAddress, n: nat)
    requires n <= Width(p.address)
  {
    forall i :: p.length <= i < n ==> !Bit(p.address, i)
  }

  /** Halving p can arrive at ip: between the two lengths p has no bit that ip
      lacks, and beyond they agree. */
  ghost predicate Reaches(p: IPAddress, ip: IPAddress) {
    && StrictlyInside(p, ip)
    && (forall i :: p.length <= i < ip.length && Bit(p.address, i) ==> Bit(ip.address, i))
    && (forall i :: ip.length <= i < Width(p.address) ==> (Bit(p.address, i) <==> Bit(ip.address, i)))
  }

  /** For a canonical prefix: exactly the canonical prefixes inside it. */
  lemma CanonicalReaches(p: IPAddress, ip: IPAddress)
    requires Canonical(p) && StrictlyInside(p, ip)
    ensures Reaches(p, ip) <==> Canonical(ip)
  {
  }

  /** cur is a prefix that halving p towards ip arrives at. */
  ghost predicate Towards(p: IPAddress, cur: IPAddress, ip: IPAddress) {
    && StrictlyInside(p, ip) && p.length <= cur.length <= ip.length && InPrefix(cur, ip.address)
    && (forall i :: cur.length <= i < Width(p.address) ==> (Bit(cur.address, i) <==> Bit(p.address, i)))
    && (forall i :: p.length <= i < cur.length && Bit(p.address, i) ==> Bit(ip.address, i))
  }

  /** Which half the loop goes on with. */
  lemma Turn(cur: IPAddress, ip: IPAddress)
    requires cur.length < Width(cur.address)
    ensures var sn := Subnets(cur);
      && (SubnetOf(ip, sn[0]) <==>
          StrictlyInside(cur, ip) && (Bit(ip.address, cur.length) <==> Bit(cur.address, cur.length)))
      && (SubnetOf(ip, sn[1]) <==> StrictlyInside(cur, ip) && Bit(ip.address, cur.length))
  {
    HalfMembership(cur, ip.address);
    ContainsDecidesMembership(Subnets(cur)[0], ip.address);
    ContainsDecidesMembership(Subnets(cur)[1], ip.address);
  }

  /** The half that holds ip is again on the way; before ip itself there is
      always something left to halve. */
  lemma TurnKeeps(p: IPAddress, cur: IPAddress, ip: IPAddress, k: nat)
    requires cur.length < Width(cur.address) && k < 2 && Towards(p, cur, ip)
    requires SubnetOf(ip, Subnets(cur)[k]) && (k == 1 ==> !SubnetOf(ip, Subnets(cur)[0]))
    ensures Towards(p, Subnets(cur)[k], ip) && Subnets(cur)[k].length == cur.length + 1
    ensures Subnets(cur)[k] != ip ==> Subnets(cur)[k].length < Width(cur.address)
  {
    Turn(cur, ip);
    HalfMembership(cur, ip.address);
    var on := Subnets(cur)[k];
    forall i | cur.length <= i < Width(cur.address)
      ensures Bit(on.address, i) <==> Bit(cur.address, i) || (k == 1 && i == cur.length)
    {
      SetBitBits(cur.address, cur.length, i);
    }
    if on.length == Width(cur.address) {
      HostByBits(on.address, ip.address);
    }
  }

  /** A turn that finds ip in neither half: ip cannot be reached. */
  lemma DeadEnd(p: IPAddress, cur: IPAddress, ip: IPAddress)
    requires cur.length < Width(cur.address) && Towards(p, cur, ip) && cur != ip
    requires !SubnetOf(ip, Subnets(cur)[0]) && !SubnetOf(ip, Subnets(cur)[1])
    ensures !Reaches(p, ip)
  {
    Turn(cur, ip);
    if Reaches(p, ip) && cur.length == ip.length {
      forall i | 0 <= i < Width(cur.address) ensures Bit(cur.address, i) <==> Bit(ip.address, i) {
      }
      HostByBits(cur.address, ip.address);
    }
  }

  /** A half that equals ip: ip is reached. */
  lemma Arrived(p: IPAddress, cur: IPAddress, ip: IPAddress, k: nat)
    requires cur.length < Width(cur.address) && k < 2 && Subnets(cur)[k] == ip
    ensures StrictlyInside(cur, ip)
    ensures Towards(p, cur, ip) ==> Reaches(p, ip)
  {
    HalfMembership(cur, ip.address);
    forall i | 0 <= i < Width(cur.address)
      ensures Bit(ip.address, i) <==> Bit(cur.address, i) || (k == 1 && i == cur.length)
    {
      SetBitBits(cur.address, cur.length, i);
    }
  }

  /** s is a part of p that keeps p's bits from its own length on. */
  ghost predicate From(p: IPAddress, s: IPAddress) {
    && SameProtocol(p.address, s.address) && p.length <= s.length
    && AgreeOn(p.address, s.address, p.length)
    && (forall i :: s.length <= i < Width(p.address) ==> (Bit(p.address, i) <==> Bit(s.address, i)))
  }

  ghost predicate AllFrom(p: IPAddress, r: seq<IPAddress>) {
    forall k :: 0 <= k < |r| ==> From(p, r[k])
  }

  lemma CanonicalFrom(p: IPAddress, s: IPAddress)
    requires From(p, s) && Canonical(p)
    ensures Canonical(s)
  {
  }

  lemma CanonicalParts(p: IPAddress, r: seq<IPAddress>)
    requires AllFrom(p, r)
    ensures Canonical(p) ==> AllCanonical(r)
  {
    hide From;
    if Canonical(p) {
      forall k | 0 <= k < |r| ensures Canonical(r[k]) {
        CanonicalFrom(p, r[k]);
      }
    }
  }

  /** Both halves of a prefix on the way are parts of p. */
  lemma HalfFrom(p: IPAddress, cur: IPAddress, ip: IPAddress, k: nat)
    requires cur.length < Width(cur.address) && k < 2 && Towards(p, cur, ip)
    ensures From(p, Subnets(cur)[k])
  {
    var half := Subnets(cur)[k];
    forall i | 0 <= i < Width(cur.address)
      ensures i != cur.length ==> (Bit(half.address, i) <==> Bit(cur.address, i))
    {
      SetBitBits(cur.address, cur.length, i);
    }
    forall i | 0 <= i < p.length ensures Bit(p.address, i) <==> Bit(half.address, i) {
      assert Bit(p.address, i) <==> Bit(ip.address, i);
      assert Bit(cur.address, i) <==> Bit(ip.address, i);
    }
  }

  /** The list built so far on the way to cur: as it must be while the bits of p
      passed are clear, and holding ip's own address after that. */
  ghost predicate SoFar(p: IPAddress, cur: IPAddress, ip: IPAddress, r: seq<IPAddress>)
    requires cur.length <= Width(p.address)
  {
    && (ClearUpTo(p, cur.length) ==> ExcludesOne(p, cur, r))
    && (!ClearUpTo(p, cur.length) ==> Covered(r, ip.address))
    && AllFrom(p, r)
  }

  lemma SoFarKeeps(p: IPAddress, cur: IPAddress, ip: IPAddress, r: seq<IPAddress>, k: nat)
    requires cur.length < Width(cur.address) && k < 2 && Towards(p, cur, ip) && SoFar(p, cur, ip, r)
    requires SubnetOf(ip, Subnets(cur)[k]) && (k == 1 ==> !SubnetOf(ip, Subnets(cur)[0]))
    ensures SoFar(p, Subnets(cur)[k], ip, r + [Subnets(cur)[1 - k]])
  {
    Turn(cur, ip);
    SubnetsPartitionIff(cur);
    var on, off := Subnets(cur)[k], Subnets(cur)[1 - k];
    CoveredAppend(r, [off], ip.address);
    CoveredOne(off, ip.address);
    HalfFrom(p, cur, ip, 1 - k);
    if ClearUpTo(p, on.length) {
      assert !Bit(p.address, cur.length);
      assert ClearUpTo(p, cur.length);
      InsideTowards(p, cur, ip);
      AppendHalf(p, cur, r, off, on);
    } else if ClearUpTo(p, cur.length) {
      assert Bit(p.address, cur.length);
      HalfMembership(cur, ip.address);
    }
  }

  lemma InsideTowards(p: IPAddress, cur: IPAddress, ip: IPAddress)
    requires Towards(p, cur, ip)
    ensures forall x: Host :: InPrefix(cur, x) ==> InPrefix(p, x)
  {
    forall x: Host | InPrefix(cur, x) ensures InPrefix(p, x) {
      forall i | 0 <= i < p.length ensures Bit(p.address, i) <==> Bit(x, i) {
        assert Bit(p.address, i) <==> Bit(ip.address, i);
        assert Bit(cur.address, i) <==> Bit(ip.address, i);
      }
    }
  }

  /** excludeAddresses(const IPAddress&). It gives no result where an assert of
      the source fails, exactly when halving p cannot arrive at ip. (With asserts
      off, the loop would stand still, or read past the single subnet of a
      full-length p.) A result is right exactly when p has no host bit set before
      ip's length; otherwise it still holds an address of ip. */
  method ExcludeOne(p: IPAddress, ip: IPAddress) returns (r: Option<seq<IPAddress>>)
    ensures r.Some? <==> Reaches(p, ip)
    ensures r.Some? ==> if ClearUpTo(p, ip.length) then ExcludesOne(p, ip, r.value) else Covered(r.value, ip.address)
    ensures r.Some? ==> AllFrom(p, r.value) && (Canonical(p) ==> AllCanonical(r.value))
  {
    hide SubnetOf, Subnets, SoFar, Reaches, From;
    var sn := Subnets(p);
    if |sn| < 2 {
      assert !Reaches(p, ip) by { NothingToHalve(p, ip); }
      return None;
    }
    var result := [];
    ghost var cur := p;
    SoFarStarts(p, ip);
    while sn[0] != ip && sn[1] != ip
      invariant cur.length < Width(cur.address) && sn == Subnets(cur) && |sn| == 2
      invariant if StrictlyInside(p, ip) then Towards(p, cur, ip) && cur != ip && SoFar(p, cur, ip, result)
                else cur == p
      decreases Width(p.address) - cur.length
    {
      Turn(cur, ip);
      if SubnetOf(ip, sn[0]) {
        TurnKeeps(p, cur, ip, 0);
        SoFarKeeps(p, cur, ip, result, 0);
        result := result + [sn[1]];
        cur := sn[0];
        sn := Subnets(sn[0]);
      } else if SubnetOf(ip, sn[1]) {
        TurnKeeps(p, cur, ip, 1);
        SoFarKeeps(p, cur, ip, result, 1);
        result := result + [sn[0]];
        cur := sn[1];
        sn := Subnets(sn[1]);
      } else {
        if StrictlyInside(p, ip) {
          DeadEnd(p, cur, ip);
        } else {
          OnlyInside(p, ip);
        }
        return None;
      }
    }
    if sn[0] == ip {
      LastTurn(p, cur, ip, result, 0);
      result := result + [sn[1]];
    } else {
      LastTurn(p, cur, ip, result, 1);
      result := result + [sn[0]];
    }
    CanonicalParts(p, result);
    return Some(result);
  }

  lemma NothingToHalve(p: IPAddress, ip: IPAddress)
    requires |Subnets(p)| < 2
    ensures !Reaches(p, ip)
  {
  }

  lemma OnlyInside(p: IPAddress, ip: IPAddress)
    requires !StrictlyInside(p, ip)
    ensures !Reaches(p, ip)
  {
  }

  lemma SoFarStarts(p: IPAddress, ip: IPAddress)
    requires p.length < Width(p.address)
    ensures StrictlyInside(p, ip) ==> Towards(p, p, ip) && p != ip && SoFar(p, p, ip, [])
  {
  }

  lemma LastTurn(p: IPAddress, cur: IPAddress, ip: IPAddress, r: seq<IPAddress>, k: nat)
    requires cur.length < Width(cur.address) && k < 2 && Subnets(cur)[k] == ip
    requires k == 1 ==> Subnets(cur)[0] != ip
    requires if StrictlyInside(p, ip) then Towards(p, cur, ip) && SoFar(p, cur, ip, r) else cur == p
    ensures Reaches(p, ip)
    ensures var r' := r + [Subnets(cur)[1 - k]];
      && (if ClearUpTo(p, ip.length) then ExcludesOne(p, ip, r') else Covered(r', ip.address))
      && AllFrom(p, r')
  {
    Arrived(p, cur, ip, k);
    Turn(cur, ip);
    HalfMembership(cur, ip.address);
    if k == 1 && SubnetOf(ip, Subnets(cur)[0]) {
      SameHalves(cur, ip);
    }
    SoFarKeeps(p, cur, ip, r, k);
  }

  /** If the bit to split on is already set, both halves are one prefix. */
  lemma SameHalves(cur: IPAddress, ip: IPAddress)
    requires cur.length < Width(cur.address) && Bit(cur.address, cur.length)
    ensures Subnets(cur)[0] == Subnets(cur)[1]
  {
    var hi := SetBit(cur.address, cur.length);
    forall i | 0 <= i < Width(cur.address) ensures Bit(hi, i) <==> Bit(cur.address, i) {
      SetBitBits(cur.address, cur.length, i);
    }
    HostByBits(hi, cur.address);
  }

  lemma DisjointAppend(a: seq<IPAddress>, b: seq<IPAddress>)
    requires PairwiseDisjoint(a) && PairwiseDisjoint(b)
    requires forall x: Host :: Covered(a, x) ==> !Covered(b, x)
    ensures PairwiseDisjoint(a + b)
  {
    var c := a + b;
    forall j, k | 0 <= j < k < |c| ensures Disjoint(c[j], c[k]) {
      if j < |a| <= k {
        forall x: Host | InPrefix(c[j], x) ensures !InPrefix(c[k], x) {
          assert InPrefix(b[k - |a|], x) ==> Covered(b, x);
          assert InPrefix(a[j], x);
        }
      } else if k < |a| {
        assert Disjoint(a[j], a[k]);
      } else {
        assert Disjoint(b[j - |a|], b[k - |a|]);
      }
    }
  }

  lemma CoveredOne(p: IPAddress, x: Host)
    ensures Covered([p], x) <==> InPrefix(p, x)
  {
    if InPrefix(p, x) {
      assert InPrefix([p][0], x);
    }
  }

  /** The prefixes that replace ip when `exclude` is taken out of it. */
  ghost predicate LeavesOf(ip: IPAddress, exclude: IPAddress, piece: seq<IPAddress>) {
    && PairwiseDisjoint(piece)
    && forall x: Host :: Covered(piece, x) <==> InPrefix(ip, x) && !InPrefix(exclude, x)
  }

  /** If e lies in p and is not p itself, halving p arrives at it. */
  ghost predicate Fits(p: IPAddress, e: IPAddress) {
    p.length <= e.length && InPrefix(p, e.address) && e != p ==> Reaches(p, e)
  }

  /** If e lies strictly inside p, no bit of p is set between their lengths. */
  ghost predicate Clear(p: IPAddress, e: IPAddress) {
    StrictlyInside(p, e) ==> ClearUpTo(p, e.length)
  }

  /** The parts of p inherit both. */
  lemma PartsInherit(p: IPAddress, s: IPAddress, e: IPAddress)
    requires From(p, s)
    ensures Fits(p, e) ==> Fits(s, e)
    ensures Clear(p, e) ==> Clear(s, e)
  {
    if s.length <= e.length && InPrefix(s, e.address) && e != s {
      assert InPrefix(p, e.address) by {
        forall i | 0 <= i < p.length ensures Bit(p.address, i) <==> Bit(e.address, i) {
          assert Bit(s.address, i) <==> Bit(e.address, i);
        }
      }
      if e == p || (Reaches(p, e) && s.length == e.length) {
        forall i | 0 <= i < Width(p.address) ensures Bit(s.address, i) <==> Bit(e.address, i) {
        }
        HostByBits(s.address, e.address);
      }
    }
  }

  lemma CanonicalFits(p: IPAddress, e: IPAddress)
    requires Canonical(p)
    ensures Clear(p, e) && (Canonical(e) ==> Fits(p, e))
  {
    if StrictlyInside(p, e) {
      CanonicalReaches(p, e);
    } else if Canonical(e) && p.length == e.length && InPrefix(p, e.address) {
      CanonicalUnique(p, e);
    }
  }

  /** The three branches of the inner loop body. There is no result, where an
      assert fails, exactly if `exclude` does not fit; a result is right exactly
      if ip is clear up to `exclude`. */
  method ExcludeFrom(ip: IPAddress, exclude: IPAddress) returns (piece: Option<seq<IPAddress>>)
    ensures piece.Some? <==> Fits(ip, exclude)
    ensures piece.Some? ==> (LeavesOf(ip, exclude, piece.value) <==> Clear(ip, exclude))
    ensures piece.Some? ==> AllFrom(ip, piece.value) && (Canonical(ip) ==> AllCanonical(piece.value))
  {
    OverlapsDecidesIntersection(ip, exclude);
    SubnetOfDecidesInclusion(ip, exclude);
    ContainsDecidesMembership(ip, exclude.address);
    ContainsDecidesMembership(exclude, ip.address);
    if !Overlaps(ip, exclude) {
      piece := Some([ip]);
      forall x: Host ensures Covered([ip], x) <==> InPrefix(ip, x) {
        CoveredOne(ip, x);
      }
    } else if SubnetOf(exclude, ip) && exclude != ip {
      hide Reaches, From;
      piece := ExcludeOne(ip, exclude);
      if piece.Some? && !Clear(ip, exclude) {
        assert InPrefix(exclude, exclude.address);
      }
      assert piece.Some? ==> StrictlyInside(ip, exclude) by { ReachesInside(ip, exclude); }
    } else {
      piece := Some([]);
    }
  }

  lemma ReachesInside(p: IPAddress, ip: IPAddress)
    ensures Reaches(p, ip) ==> StrictlyInside(p, ip)
  {
  }

  ghost predicate PartOf(source: seq<IPAddress>, s: IPAddress) {
    exists j :: 0 <= j < |source| && From(source[j], s)
  }

  /** Every prefix of results is a part of a prefix of source. */
  ghost predicate Derived(source: seq<IPAddress>, results: seq<IPAddress>) {
    forall k :: 0 <= k < |results| ==> PartOf(source, results[k])
  }

  lemma DerivedParts(source: seq<IPAddress>, results: seq<IPAddress>, k: nat, done: seq<IPAddress>,
                     piece: seq<IPAddress>)
    requires Derived(source, results) && k < |results| && Derived(source, done) && AllFrom(results[k], piece)
    ensures Derived(source, done + piece)
  {
    assert PartOf(source, results[k]);
    var j :| 0 <= j < |source| && From(source[j], results[k]);
    forall i | 0 <= i < |piece| ensures PartOf(source, piece[i]) {
      FromFrom(source[j], results[k], piece[i]);
    }
  }

  lemma FromFrom(p: IPAddress, s: IPAddress, t: IPAddress)
    requires From(p, s) && From(s, t)
    ensures From(p, t)
  {
  }

  ghost predicate AllFit(source: seq<IPAddress>, excludes: seq<IPAddress>) {
    forall j, k :: 0 <= j < |source| && 0 <= k < |excludes| ==> Fits(source[j], excludes[k])
  }

  ghost predicate AllClear(source: seq<IPAddress>, excludes: seq<IPAddress>) {
    forall j, k :: 0 <= j < |source| && 0 <= k < |excludes| ==> Clear(source[j], excludes[k])
  }

  lemma DerivedInherit(source: seq<IPAddress>, excludes: seq<IPAddress>, results: seq<IPAddress>, k: nat, e: nat)
    requires Derived(source, results) && k < |results| && e < |excludes|
    ensures AllFit(source, excludes) ==> Fits(results[k], excludes[e])
    ensures AllClear(source, excludes) ==> Clear(results[k], excludes[e])
  {
    hide Fits, Clear, From;
    assert PartOf(source, results[k]);
    var j :| 0 <= j < |source| && From(source[j], results[k]);
    PartsInherit(source[j], results[k], excludes[e]);
  }

  /** excludeAddresses(sourceList, excludeList), for prefixes with any host bits:
      there is a result if every exclusion fits every source it lies in; a result
      covers exactly the addresses of some source prefix and of no excluded one,
      and keeps disjointness, if every source is clear up to the exclusions
      inside it. Canonical lists always give a result, which is right and
      canonical. */
  method ExcludeAddresses(source: seq<IPAddress>, excludes: seq<IPAddress>)
      returns (r: Option<seq<IPAddress>>)
    ensures AllFit(source, excludes) ==> r.Some?
    ensures r.Some? && AllClear(source, excludes) ==> Remains(source, excludes, r.value)
    ensures r.Some? ==> Derived(source, r.value)
    ensures AllCanonical(source) && AllCanonical(excludes) ==> r.Some?
    ensures AllCanonical(source) && r.Some? ==> AllCanonical(r.value) && Remains(source, excludes, r.value)
  {
    hide AllCanonical, Canonical, AllFit, AllClear, Derived, Remains, LeavesOf, Fits, Clear, AllFrom;
    if AllCanonical(source) {
      CanonicalLists(source, excludes);
    }
    var results := source;
    NothingExcluded(source);
    for e := 0 to |excludes|
      invariant Derived(source, results)
      invariant AllClear(source, excludes) ==> Remains(source, excludes[..e], results)
    {
      var exclude := excludes[e];
      var newResults := [];
      NothingDone(source, exclude);
      assert results[..0] == [];
      for k := 0 to |results|
        invariant Derived(source, newResults)
        invariant AllClear(source, excludes) ==> Remains(results[..k], [exclude], newResults)
      {
        DerivedInherit(source, excludes, results, k, e);
        var piece := ExcludeFrom(results[k], exclude);
        if piece.None? {
          return None;
        }
        DerivedParts(source, results, k, newResults, piece.value);
        if AllClear(source, excludes) {
          ExcludeStep(results, k, exclude, newResults, piece.value);
        }
        newResults := newResults + piece.value;
      }
      assert results[..|results|] == results;
      if AllClear(source, excludes) {
        RemainsChain(source, excludes[..e], exclude, results, newResults);
        assert excludes[..e + 1] == excludes[..e] + [exclude];
      }
      results := newResults;
    }
    assert excludes[..|excludes|] == excludes;
    if AllCanonical(source) {
      CanonicalDerived(source, results);
    }
    return Some(results);
  }

  lemma NothingExcluded(source: seq<IPAddress>)
    ensures Derived(source, source) && Remains(source, [], source)
  {
    forall k | 0 <= k < |source| ensures PartOf(source, source[k]) {
      assert From(source[k], source[k]);
    }
  }

  lemma NothingDone(source: seq<IPAddress>, exclude: IPAddress)
    ensures Derived(source, []) && Remains([], [exclude], [])
  {
  }

  lemma CanonicalLists(source: seq<IPAddress>, excludes: seq<IPAddress>)
    requires AllCanonical(source)
    ensures AllClear(source, excludes) && (AllCanonical(excludes) ==> AllFit(source, excludes))
  {
    forall j, k | 0 <= j < |source| && 0 <= k < |excludes|
      ensures Clear(source[j], excludes[k]) && (Canonical(excludes[k]) ==> Fits(source[j], excludes[k]))
    {
      CanonicalFits(source[j], excludes[k]);
    }
  }

  lemma CanonicalDerived(source: seq<IPAddress>, results: seq<IPAddress>)
    requires AllCanonical(source) && Derived(source, results)
    ensures AllCanonical(results)
  {
    forall k | 0 <= k < |results| ensures Canonical(results[k]) {
      assert PartOf(source, results[k]);
      var j :| 0 <= j < |source| && From(source[j], results[k]);
      CanonicalFrom(source[j], results[k]);
    }
  }

  /** results is what taking `excludes` out of `source` must leave. */
  ghost predicate Remains(source: seq<IPAddress>, excludes: seq<IPAddress>, results: seq<IPAddress>) {
    && (forall x: Host :: Covered(results, x) <==> Covered(source, x) && !Covered(excludes, x))
    && (PairwiseDisjoint(source) ==> PairwiseDisjoint(results))
  }

  lemma RemainsChain(source: seq<IPAddress>, excludes: seq<IPAddress>, exclude: IPAddress,
                     mid: seq<IPAddress>, results: seq<IPAddress>)
    requires Remains(source, excludes, mid) && Remains(mid, [exclude], results)
    ensures Remains(source, excludes + [exclude], results)
  {
    forall x: Host
      ensures Covered(excludes + [exclude], x) <==> Covered(excludes, x) || Covered([exclude], x)
    {
      CoveredAppend(excludes, [exclude], x);
    }
  }

  lemma ExcludeStep(results: seq<IPAddress>, k: nat, exclude: IPAddress,
                    done: seq<IPAddress>, piece: seq<IPAddress>)
    requires k < |results| && Remains(results[..k], [exclude], done) && LeavesOf(results[k], exclude, piece)
    ensures Remains(results[..k + 1], [exclude], done + piece)
  {
    var before := results[..k];
    assert results[..k + 1] == before + [results[k]];
    forall x: Host
      ensures Covered(done + piece, x) <==> Covered(results[..k + 1], x) && !Covered([exclude], x)
    {
      CoveredAppend(before, [results[k]], x);
      CoveredOne(results[k], x);
      CoveredOne(exclude, x);
      CoveredAppend(done, piece, x);
    }
    if PairwiseDisjoint(results[..k + 1]) {
      assert PairwiseDisjoint(before) by {
        forall i, j | 0 <= i < j < k ensures Disjoint(before[i], before[j]) {
          assert Disjoint(results[..k + 1][i], results[..k + 1][j]);
        }
      }
      forall x: Host | Covered(done, x) ensures !Covered(piece, x) {
        var j :| 0 <= j < k && InPrefix(before[j], x);
        assert Disjoint(results[..k + 1][j], results[..k + 1][k]);
      }
      DisjointAppend(done, piece);
    }
  }

  // ------------------------------------------------------------------
  // Masks and the broadcast address
  // ------------------------------------------------------------------

  ghost predicate IsNetmask(p: IPAddress, m: Host) {
    SameProtocol(p.address, m) && forall i :: 0 <= i < Width(m) ==> (Bit(m, i) <==> i < p.length)
  }

  ghost predicate IsHostmask(p: IPAddress, m: Host) {
    SameProtocol(p.address, m) && forall i :: 0 <= i < Width(m) ==> (Bit(m, i) <==> p.length <= i)
  }

  method Memset(a: array<Byte>, from: nat, to: nat, value: Byte)
    requires from <= to <= a.Length
    modifies a
    ensures forall j :: 0 <= j < a.Length ==> a[j] == if from <= j < to then value else old(a[j])
  {
    for j := from to to
      invariant forall i :: 0 <= i < a.Length ==> a[i] == if from <= i < j then value else old(a[i])
    {
      a[j] := value;
    }
  }

  /** On a w-bit value, ones >> n clears exactly the n highest bits and
      ones ^ (ones >> n) keeps exactly those. */
  lemma Masks(w: nat, n: nat)
    requires n <= w
    ensures Shr(Ones(w), n) < Pow2(w) && Xor(Ones(w), Shr(Ones(w), n)) < Pow2(w)
    ensures forall k :: 0 <= k < w ==> (BitAt(Shr(Ones(w), n), k) <==> k < w - n)
    ensures forall k :: 0 <= k < w ==> (BitAt(Xor(Ones(w), Shr(Ones(w), n)), k) <==> w - n <= k)
  {
    ShrOnes(w, n);
    Pow2Monotone(w - n, w);
    BitwiseBound(Ones(w), Ones(w - n), w);
    forall k | 0 <= k < w
      ensures BitAt(Shr(Ones(w), n), k) <==> k < w - n
      ensures BitAt(Xor(Ones(w), Shr(Ones(w), n)), k) <==> w - n <= k
    {
      OnesBit(w - n, k);
      OnesBit(w, k);
      XorBit(Ones(w), Ones(w - n), k);
    }
  }

  lemma PlainBits(w: nat)
    ensures forall k :: 0 <= k < w ==> BitAt(Ones(w), k) && !BitAt(0, k)
  {
    forall k | 0 <= k < w ensures BitAt(Ones(w), k) && !BitAt(0, k) {
      OnesBit(w, k);
      ZeroBit(k);
    }
  }

  /** Sixteen bytes, all `high` before byte n / 8 and all `low` after it, whose
      byte n / 8 (if n is not a multiple of 8) changes over at bit n. */
  ghost predicate ChangesAt(bytes: seq<Byte>, n: nat, high: bool)
    requires |bytes| == 16
  {
    && (forall j, k :: 0 <= j < n / 8 && j < 16 && 0 <= k < 8 ==> BitAt(bytes[j], k) == high)
    && (forall j, k :: (n + 7) / 8 <= j < 16 && 0 <= k < 8 ==> BitAt(bytes[j], k) != high)
    && (n % 8 != 0 && n < 128 ==>
        forall k :: 0 <= k < 8 ==> BitAt(bytes[n / 8], k) == (high == (8 - n % 8 <= k)))
  }

  lemma ChangesAtBits(bytes: seq<Byte>, n: nat, high: bool)
    requires |bytes| == 16 && n <= 128 && ChangesAt(bytes, n, high)
    ensures forall i :: 0 <= i < 128 ==> Bit(V6(bytes), i) == (high == (i < n))
  {
    forall i | 0 <= i < 128 ensures Bit(V6(bytes), i) == (high == (i < n)) {
      var j, k := i / 8, 7 - i % 8;
      assert Bit(V6(bytes), i) == BitAt(bytes[j], k);
      if j < n / 8 {
        assert i < n;
      } else if j == n / 8 && n % 8 != 0 {
        assert i < n <==> 8 - n % 8 <= k;
      } else {
        assert (n + 7) / 8 <= j && n <= i;
      }
    }
  }

  method Netmask(p: IPAddress) returns (m: Host)
    ensures IsNetmask(p, m)
  {
    if p.address.V6? {
      var raw := new Byte[16](_ => 0);
      Memset(raw, 0, p.length / 8, 0xFF);
      Masks(8, p.length % 8);
      PlainBits(8);
      ByteWidth();
      if p.length % 8 != 0 {
        raw[p.length / 8] := Xor(0xFF, Shr(0xFF, p.length % 8));
      }
      ChangesAtBits(raw[..], p.length, true);
      m := V6(raw[..]);
    } else {
      Masks(32, p.length);
      PlainBits(32);
      WordWidth();
      var raw := 0xFFFF_FFFF;
      if p.length < 32 {
        raw := Xor(raw, Shr(0xFFFF_FFFF, p.length));
      }
      m := V4(raw);
    }
  }

  method Hostmask(p: IPAddress) returns (m: Host)
    ensures IsHostmask(p, m)
  {
    if p.address.V6? {
      var raw := new Byte[16](_ => 0);
      var offset := (p.length + 7) / 8;
      Memset(raw, offset, 16, 0xFF);
      Masks(8, p.length % 8);
      PlainBits(8);
      ByteWidth();
      if p.length % 8 != 0 {
        raw[p.length / 8] := Shr(0xFF, p.length % 8);
      }
      ChangesAtBits(raw[..], p.length, false);
      m := V6(raw[..]);
    } else {
      Masks(32, p.length);
      PlainBits(32);
      WordWidth();
      m := if p.length < 32 then V4(Shr(0xFFFF_FFFF, p.length)) else V4(0);
    }
  }

  lemma ComplementaryBits(x: nat, y: nat, w: nat)
    requires x < Pow2(w) && y < Pow2(w)
    requires forall k :: 0 <= k < w ==> BitAt(x, k) != BitAt(y, k)
    ensures Xor(x, y) == Ones(w)
  {
    BitwiseBound(x, y, w);
    forall k | 0 <= k < w ensures BitAt(Xor(x, y), k) && BitAt(Ones(w), k) {
      XorBit(x, y, k);
      OnesBit(w, k);
    }
    EqualByBits(Xor(x, y), Ones(w), w);
  }

  /** netmask ^ hostmask is all ones. */
  lemma MasksAreComplements(p: IPAddress, net: Host, host: Host)
    requires IsNetmask(p, net) && IsHostmask(p, host)
    ensures p.address.V4? ==> Xor(net.raw, host.raw) == 0xFFFF_FFFF
    ensures p.address.V6? ==>
      forall j :: 0 <= j < 16 ==> Xor(net.bytes[j], host.bytes[j]) == 0xFF
  {
    if p.address.V4? {
      WordWidth();
      forall k | 0 <= k < 32 ensures BitAt(net.raw, k) != BitAt(host.raw, k) {
        assert Bit(net, 31 - k) != Bit(host, 31 - k);
      }
      ComplementaryBits(net.raw, host.raw, 32);
    } else {
      ByteWidth();
      forall j | 0 <= j < 16 ensures Xor(net.bytes[j], host.bytes[j]) == 0xFF {
        forall k | 0 <= k < 8 ensures BitAt(net.bytes[j], k) != BitAt(host.bytes[j], k) {
          var i := 8 * j + 7 - k;
          assert i / 8 == j && 7 - i % 8 == k && Bit(net, i) != Bit(host, i);
        }
        ComplementaryBits(net.bytes[j], host.bytes[j], 8);
      }
    }
  }

  lemma {:induction false} BigEndianMonotone(a: seq<Byte>, b: seq<Byte>)
    requires |a| == |b| && forall j :: 0 <= j < |a| ==> a[j] <= b[j]
    ensures BigEndian(a) <= BigEndian(b)
  {
    if a != [] {
      BigEndianMonotone(a[..|a| - 1], b[..|b| - 1]);
    }
  }

  /** An address whose bits include those of x is at least x. */
  lemma BitsOrder(x: Host, b: Host)
    requires SameProtocol(x, b)
    requires forall i :: 0 <= i < Width(x) && Bit(x, i) ==> Bit(b, i)
    ensures Value(x) <= Value(b)
  {
    if x.V4? {
      WordWidth();
      forall k | 0 <= k < 32 && BitAt(x.raw, k) ensures BitAt(b.raw, k) {
        assert Bit(x, 31 - k);
      }
      BitsMonotone(x.raw, b.raw, 32);
    } else {
      ByteWidth();
      forall j | 0 <= j < 16 ensures x.bytes[j] <= b.bytes[j] {
        forall k | 0 <= k < 8 && BitAt(x.bytes[j], k) ensures BitAt(b.bytes[j], k) {
          var i := 8 * j + 7 - k;
          assert i / 8 == j && 7 - i % 8 == k && Bit(x, i);
        }
        BitsMonotone(x.bytes[j], b.bytes[j], 8);
      }
      BigEndianMonotone(x.bytes, b.bytes);
    }
  }

  /** b agrees with p.address on the prefix and is all ones after it. */
  ghost predicate IsBroadcast(p: IPAddress, b: Host) {
    SameProtocol(p.address, b) &&
    forall i :: 0 <= i < Width(b) ==> (Bit(b, i) <==> Bit(p.address, i) || p.length <= i)
  }

  /** x | (ones >> n) sets exactly the w - n lowest bits of x. */
  lemma OrLowBits(x: nat, w: nat, n: nat)
    requires x < Pow2(w) && n <= w
    ensures Or(x, Shr(Ones(w), n)) < Pow2(w)
    ensures forall k :: 0 <= k < w ==> (BitAt(Or(x, Shr(Ones(w), n)), k) <==> BitAt(x, k) || k < w - n)
  {
    Masks(w, n);
    BitwiseBound(x, Shr(Ones(w), n), w);
    forall k | 0 <= k < w
      ensures BitAt(Or(x, Shr(Ones(w), n)), k) <==> BitAt(x, k) || k < w - n
    {
      OrBit(x, Shr(Ones(w), n), k);
    }
  }

  lemma BroadcastBytes(p: IPAddress, bytes: seq<Byte>)
    requires p.address.V6? && |bytes| == 16
    requires forall j :: 0 <= j < p.length / 8 ==> bytes[j] == p.address.bytes[j]
    requires forall j :: (p.length + 7) / 8 <= j < 16 ==> bytes[j] == 0xFF
    requires p.length % 8 != 0 ==> forall k :: 0 <= k < 8 ==>
      (BitAt(bytes[p.length / 8], k) <==>
       BitAt(p.address.bytes[p.length / 8], k) || k < 8 - p.length % 8)
    ensures IsBroadcast(p, V6(bytes))
  {
    ByteWidth();
    PlainBits(8);
    var b := V6(bytes);
    forall i | 0 <= i < 128 ensures Bit(b, i) <==> Bit(p.address, i) || p.length <= i {
      var j, k := i / 8, 7 - i % 8;
      assert Bit(b, i) == BitAt(bytes[j], k);
      assert Bit(p.address, i) == BitAt(p.address.bytes[j], k);
      if j < p.length / 8 {
        assert bytes[j] == p.address.bytes[j];
      } else if j == p.length / 8 && p.length % 8 != 0 {
        assert p.length <= i <==> k < 8 - p.length % 8;
      } else {
        assert bytes[j] == 0xFF;
      }
    }
  }

  /** broadcastAddress() is the greatest address of the prefix. */
  method BroadcastAddress(p: IPAddress) returns (b: Host)
    ensures InPrefix(p, b)
    ensures forall x: Host :: InPrefix(p, x) ==> Value(x) <= Value(b)
  {
    if p.address.V6? {
      var raw := new Byte[16](j requires 0 <= j < 16 => p.address.bytes[j]);
      var offset := (p.length + 7) / 8;
      Memset(raw, offset, 16, 0xFF);
      if p.length % 8 != 0 {
        ByteWidth();
        OrLowBits(raw[p.length / 8], 8, p.length % 8);
        raw[p.length / 8] := Or(raw[p.length / 8], Shr(0xFF, p.length % 8));
      }
      BroadcastBytes(p, raw[..]);
      b := V6(raw[..]);
    } else {
      var raw := p.address.raw;
      if p.length < 32 {
        WordWidth();
        OrLowBits(raw, 32, p.length);
        raw := Or(raw, Shr(0xFFFF_FFFF, p.length));
      }
      b := V4(raw);
    }
    BroadcastIsGreatest(p, b);
  }

  lemma BroadcastIsGreatest(p: IPAddress, b: Host)
    requires IsBroadcast(p, b)
    ensures InPrefix(p, b)
    ensures forall x: Host :: InPrefix(p, x) ==> Value(x) <= Value(b)
  {
    forall x: Host | InPrefix(p, x) ensures Value(x) <= Value(b) {
      BitsOrder(x, b);
    }
  }
}
