/** The Linux firewall (linux/netfilter/netfilter.go). Rules are programs over
    one register, kept as data in prioritised chains. A small interpreter gives
    them the meaning nftables does; the results say which packets the whole
    rule set lets through. */
module Netfilter {
  import opened Bits

  type Bytes = seq<Byte>

  const CTMARK_EXCLUDED: Word32 := 0x9e4c
  const ARPHRD_LOOPBACK: Word16 := 772
  const ETH_P_IP: Word16 := 0x0800
  const NFPROTO_IPV4: Byte := 2
  const IPPROTO_UDP: Byte := 17
  const IFNAMSIZ := 16
  const CGROUP_PATH_MAX := 512

  // ------------------------------------------------------------------
  // Programs
  // ------------------------------------------------------------------

  datatype MetaKey = Mark | IifType | OifType | IifName | OifName | Protocol | NfProto | L4Proto

  /** Every expression of the rule set uses register 1. */
  datatype Expr =
    | MetaLoad(key: MetaKey)
    | MetaSetMark
    | CmpEq(data: Bytes)
    | CmpNeq(data: Bytes)
    | Payload(offset: nat, len: nat)
    | Lookup
    | CtLoadMark
    | CtSetMark
    | Immediate(data: Bytes)
    | Match(name: string, rev: nat, info: Bytes)
    | Masq
    | Accept

  type Rule = seq<Expr>

  datatype Hook = Prerouting | Input | Output | Postrouting
  datatype Chain = Chain(hook: Hook, priority: int, drop: bool, rules: seq<Rule>)

  /** The global mozvpn_ctx together with the kernel state it manages. */
  datatype Ctx = Ctx(
    cgroupMark: Chain, cgroupNat: Chain, conntrack: Chain, preroute: Chain, input: Chain, output: Chain,
    addrset: set<Bytes>, fwmark: Word32)

  // ------------------------------------------------------------------
  // Packets and the interpreter
  // ------------------------------------------------------------------

  /** ctmark is the mark of the packet's connection, masq whether its source
      address gets rewritten; cgroups are the paths of the sending socket's
      cgroup and of its ancestors. */
  datatype Packet = Packet(
    mark: Word32, ctmark: Word32, masq: bool, iifType: Word16, oifType: Word16, iifName: Bytes, oifName: Bytes,
    protocol: Word16, nfproto: Byte, l4proto: Byte, header: Bytes, cgroups: set<Bytes>)

  function Native32(x: Word32): Bytes {
    [x % 0x100, x / 0x100 % 0x100, x / 0x1_0000 % 0x100, x / 0x100_0000 % 0x100]
  }

  function Native16(x: Word16): Bytes {
    [x % 0x100, x / 0x100]
  }

  function Big16(x: Word16): Bytes {
    [x / 0x100, x % 0x100]
  }

  function Zeros(n: nat): Bytes {
    seq(n, _ => 0)
  }

  /** copy() into a zeroed buffer of n bytes. */
  function Padded(b: Bytes, n: nat): (r: Bytes)
    ensures |r| == n
  {
    if |b| >= n then b[..n] else b + Zeros(n - |b|)
  }

  /** nftIfname, and what the kernel loads for an interface name. */
  function Ifname(name: Bytes): Bytes {
    Padded(name + [0], IFNAMSIZ)
  }

  function Load(key: MetaKey, p: Packet): Bytes {
    match key
    case Mark => Native32(p.mark)
    case IifType => Native16(p.iifType)
    case OifType => Native16(p.oifType)
    case IifName => Ifname(p.iifName)
    case OifName => Ifname(p.oifName)
    case Protocol => Big16(p.protocol)
    case NfProto => [p.nfproto]
    case L4Proto => [p.l4proto]
  }

  function Word(b: Bytes): Word32 {
    if |b| != 4 then 0
    else (b[0] as int) + 0x100 * (b[1] as int) + 0x1_0000 * (b[2] as int) + 0x100_0000 * (b[3] as int)
  }

  /** Text up to the first NUL. */
  function CString(b: Bytes): Bytes {
    if b == [] || b[0] == 0 then [] else [b[0]] + CString(b[1..])
  }

  /** The path inside an xt_cgroup_info_v2: after the flags, of which has_path must
      be set and the inversions clear. */
  function PathOf(info: Bytes): Bytes {
    if |info| < 4 || info[0] == 0 || info[2] != 0 then [] else CString(info[4..])
  }

  /** Next goes on with the rule, Break leaves it, Accepted ends the chain. */
  datatype Outcome = Next(reg: Bytes, p: Packet) | Break(p: Packet) | Accepted(p: Packet)

  function Exec(e: Expr, reg: Bytes, p: Packet, addrs: set<Bytes>): Outcome {
    match e
    case MetaLoad(key) => Next(Load(key, p), p)
    case MetaSetMark => Next(reg, p.(mark := Word(reg)))
    case CmpEq(data) => if reg == data then Next(reg, p) else Break(p)
    case CmpNeq(data) => if reg != data then Next(reg, p) else Break(p)
    case Payload(offset, len) =>
      if offset + len <= |p.header| then Next(p.header[offset..offset + len], p) else Break(p)
    case Lookup => if reg in addrs then Next(reg, p) else Break(p)
    case CtLoadMark => Next(Native32(p.ctmark), p)
    case CtSetMark => Next(reg, p.(ctmark := Word(reg)))
    case Immediate(data) => Next(data, p)
    case Match(_, _, info) => if PathOf(info) in p.cgroups then Next(reg, p) else Break(p)
    case Masq => Accepted(p.(masq := true))
    case Accept => Accepted(p)
  }

  function RunRule(rule: Rule, reg: Bytes, p: Packet, addrs: set<Bytes>): Outcome
    decreases |rule|
  {
    if rule == [] then Next(reg, p)
    else match Exec(rule[0], reg, p, addrs)
      case Next(reg', p') => RunRule(rule[1..], reg', p', addrs)
      case other => other
  }

  /** Each rule starts afresh; the first Accept ends the chain. */
  function RunRules(rules: seq<Rule>, drop: bool, p: Packet, addrs: set<Bytes>): (bool, Packet)
    decreases |rules|
  {
    if rules == [] then (!drop, p)
    else match RunRule(rules[0], [], p, addrs)
      case Accepted(p') => (true, p')
      case other => RunRules(rules[1..], drop, other.p, addrs)
  }

  function RunChain(c: Chain, p: Packet, addrs: set<Bytes>): (bool, Packet) {
    RunRules(c.rules, c.drop, p, addrs)
  }

  function Insert(c: Chain, cs: seq<Chain>): seq<Chain> {
    if cs == [] || c.priority < cs[0].priority then [c] + cs else [cs[0]] + Insert(c, cs[1..])
  }

  /** The chains of a hook in ascending priority. */
  function Hooked(cs: seq<Chain>, hook: Hook): seq<Chain> {
    if cs == [] then [] else Put(cs[|cs| - 1], hook, Hooked(cs[..|cs| - 1], hook))
  }

  function Put(c: Chain, hook: Hook, cs: seq<Chain>): seq<Chain> {
    if c.hook == hook then Insert(c, cs) else cs
  }

  function RunChains(cs: seq<Chain>, p: Packet, addrs: set<Bytes>): (bool, Packet)
    decreases |cs|
  {
    if cs == [] then (true, p)
    else
      var (ok, p') := RunChain(cs[0], p, addrs);
      if ok then RunChains(cs[1..], p', addrs) else (false, p')
  }

  function Chains(x: Ctx): seq<Chain> {
    [x.cgroupMark, x.cgroupNat, x.conntrack, x.preroute, x.input, x.output]
  }

  /** What a netfilter hook does to a packet. */
  function RunHook(x: Ctx, hook: Hook, p: Packet): (bool, Packet) {
    RunChains(Hooked(Chains(x), hook), p, x.addrset)
  }

  // ------------------------------------------------------------------
  // The operations of netfilter.go
  // ------------------------------------------------------------------

  /** Priorities: raw -300, conntrack -200, mangle -150, filter 0, source NAT 100. */
  function CreateTables(): Ctx {
    Ctx(Chain(Output, -300, false, []), Chain(Postrouting, 100, false, []),
        Chain(Output, -200 + 1, false, []), Chain(Prerouting, -150, false, []),
        Chain(Input, 0, true, []), Chain(Output, 0, true, []), {}, 0)
  }

  function AddRule(c: Chain, r: Rule): Chain {
    c.(rules := c.rules + [r])
  }

  function MetaIs(key: MetaKey, data: Bytes): Rule {
    [MetaLoad(key), CmpEq(data)]
  }

  function CtMarkRule(m: Word32): Rule {
    MetaIs(Mark, Native32(m)) + [Immediate(Native32(CTMARK_EXCLUDED)), CtSetMark]
  }

  function MarkServerRule(m: Word32): Rule {
    MetaIs(NfProto, [NFPROTO_IPV4]) + MetaIs(L4Proto, [IPPROTO_UDP]) + [Payload(12, 4), Lookup]
    + [Immediate(Native32(m)), MetaSetMark]
  }

  function MarkReplyRule(m: Word32): Rule {
    [CtLoadMark, CmpEq(Native32(CTMARK_EXCLUDED))] + [Immediate(Native32(m)), MetaSetMark]
  }

  /** nftApplyFwMark; a zero mark panics in the source. */
  function ApplyFwMark(x: Ctx, m: Word32): Ctx
    requires m != 0
  {
    x.(fwmark := m,
       conntrack := AddRule(x.conntrack, CtMarkRule(m)),
       preroute := AddRule(AddRule(x.preroute, MarkServerRule(m)), MarkReplyRule(m)))
  }

  function AcceptMeta(key: MetaKey, data: Bytes): Rule {
    MetaIs(key, data) + [Accept]
  }

  /** Packets from or to a VPN server; offset selects the address. */
  function AcceptServer(offset: nat): Rule {
    MetaIs(Protocol, Big16(ETH_P_IP)) + MetaIs(L4Proto, [IPPROTO_UDP]) + [Payload(offset, 4), Lookup]
    + [Accept]
  }

  function Filter(typeKey: MetaKey, nameKey: MetaKey, offset: nat, ifname: Bytes, m: Word32): seq<Rule> {
    [AcceptMeta(typeKey, Native16(ARPHRD_LOOPBACK)), AcceptMeta(nameKey, Ifname(ifname)),
     AcceptServer(offset), AcceptMeta(Mark, Native32(m))]
  }

  function RestrictTraffic(x: Ctx, ifname: Bytes): Ctx {
    x.(input := x.input.(rules := x.input.rules + Filter(IifType, IifName, 12, ifname, x.fwmark)),
       output := x.output.(rules := x.output.rules + Filter(OifType, OifName, 16, ifname, x.fwmark)))
  }

  function Clip(cgroup: Bytes): Bytes {
    if |cgroup| >= CGROUP_PATH_MAX then cgroup[..CGROUP_PATH_MAX - 1] else cgroup
  }

  /** nftXtCgroupMatch: has_path, three zero flags, the path, kernel padding. */
  function CgroupInfo(cgroup: Bytes): Bytes {
    [1, 0, 0, 0] + Padded(Clip(cgroup) + [0], CGROUP_PATH_MAX) + Zeros(12)
  }

  function CgroupMatch(cgroup: Bytes): Expr {
    Match("cgroup", 2, CgroupInfo(cgroup))
  }

  function MarkCgroupRule(cgroup: Bytes, m: Word32): Rule {
    [CgroupMatch(cgroup)] + MetaIs(Mark, Native32(0))
    + [MetaLoad(OifType), CmpNeq(Native16(ARPHRD_LOOPBACK))] + [Immediate(Native32(m)), MetaSetMark]
  }

  function MasqueradeRule(cgroup: Bytes, m: Word32): Rule {
    [CgroupMatch(cgroup)] + MetaIs(Mark, Native32(m)) + [Masq]
  }

  /** NetfilterMarkCgroupV2: refused without a firewall mark. */
  function MarkCgroup(x: Ctx, cgroup: Bytes): Ctx {
    if x.fwmark == 0 then x
    else x.(cgroupMark := AddRule(x.cgroupMark, MarkCgroupRule(cgroup, x.fwmark)),
            cgroupNat := AddRule(x.cgroupNat, MasqueradeRule(cgroup, x.fwmark)))
  }

  /** The rules that nftDelCgroup2xt leaves. */
  function WithoutMatch(rules: seq<Rule>, e: Expr): seq<Rule> {
    if rules == [] then []
    else WithoutMatch(rules[..|rules| - 1], e) +
         (if |rules[|rules| - 1]| > 0 && rules[|rules| - 1][0] == e then [] else [rules[|rules| - 1]])
  }

  function ResetCgroup(x: Ctx, cgroup: Bytes): Ctx {
    var e := CgroupMatch(cgroup);
    x.(cgroupMark := x.cgroupMark.(rules := WithoutMatch(x.cgroupMark.rules, e)),
       cgroupNat := x.cgroupNat.(rules := WithoutMatch(x.cgroupNat.rules, e)))
  }

  datatype Op =
    | MarkInbound(addr: Bytes)
    | ClearInbound(addr: Bytes)
    | MarkCgroupV2(cgroup: Bytes)
    | ResetCgroupV2(cgroup: Bytes)

  function Apply(x: Ctx, op: Op): Ctx {
    match op
    case MarkInbound(addr) => x.(addrset := x.addrset + {addr})
    case ClearInbound(addr) => x.(addrset := x.addrset - {addr})
    case MarkCgroupV2(cgroup) => MarkCgroup(x, cgroup)
    case ResetCgroupV2(cgroup) => ResetCgroup(x, cgroup)
  }

  function ApplyAll(x: Ctx, ops: seq<Op>): Ctx {
    if ops == [] then x else Apply(ApplyAll(x, ops[..|ops| - 1]), ops[|ops| - 1])
  }

  /** The firewall after LinuxFirewall::up and a history of later calls. */
  function Firewall(m: Word32, ifname: Bytes, ops: seq<Op>): Ctx
    requires m != 0
  {
    ApplyAll(RestrictTraffic(ApplyFwMark(CreateTables(), m), ifname), ops)
  }

  // ------------------------------------------------------------------
  // Specification: what a history of calls means
  // ------------------------------------------------------------------

  /** The server addresses now in the set. */
  function Servers(ops: seq<Op>): set<Bytes> {
    if ops == [] then {}
    else match ops[|ops| - 1]
      case MarkInbound(addr) => Servers(ops[..|ops| - 1]) + {addr}
      case ClearInbound(addr) => Servers(ops[..|ops| - 1]) - {addr}
      case _ => Servers(ops[..|ops| - 1])
  }

  /** A match holds the first 511 bytes of a path. */
  function First511(path: Bytes): (r: Bytes)
    ensures r <= path && (|path| <= 511 ==> r == path) && (|path| > 511 ==> |r| == 511)
  {
    if |path| <= 511 then path else path[..511]
  }

  /** The cgroup paths now excluded from the VPN. */
  function Excluded(ops: seq<Op>): set<Bytes> {
    if ops == [] then {}
    else match ops[|ops| - 1]
      case MarkCgroupV2(cgroup) => Excluded(ops[..|ops| - 1]) + {First511(cgroup)}
      case ResetCgroupV2(cgroup) => Excluded(ops[..|ops| - 1]) - {First511(cgroup)}
      case _ => Excluded(ops[..|ops| - 1])
  }

  /** Paths are C strings. */
  ghost predicate NulFree(b: Bytes) {
    forall i :: 0 <= i < |b| ==> b[i] != 0
  }

  ghost predicate ProperPaths(ops: seq<Op>) {
    forall i :: 0 <= i < |ops| ==>
      (ops[i].MarkCgroupV2? || ops[i].ResetCgroupV2? ==> NulFree(ops[i].cgroup))
  }

  ghost predicate FromExcluded(p: Packet, ops: seq<Op>) {
    exists path :: path in Excluded(ops) && path in p.cgroups
  }

  ghost predicate AddressIn(p: Packet, offset: nat, servers: set<Bytes>) {
    |p.header| >= offset + 4 && p.header[offset..offset + 4] in servers
  }

  // ------------------------------------------------------------------
  // Encodings lose nothing
  // ------------------------------------------------------------------

  lemma WordNative(x: Word32)
    ensures Word(Native32(x)) == x
  {
    var x1, x2, x3 := x / 0x100, x / 0x1_0000, x / 0x100_0000;
    assert x == x % 0x100 + 0x100 * x1;
    assert x1 / 0x100 == x2 && x1 == x1 % 0x100 + 0x100 * x2;
    assert x2 / 0x100 == x3 && x2 == x2 % 0x100 + 0x100 * x3;
    assert x3 < 0x100;
  }

  lemma Native32Injective(x: Word32, y: Word32)
    ensures Native32(x) == Native32(y) <==> x == y
  {
    hide Native32, Word;
    WordNative(x);
    WordNative(y);
  }

  lemma Encodings16(x: Word16, y: Word16)
    ensures Native16(x) == Native16(y) <==> x == y
    ensures Big16(x) == Big16(y) <==> x == y
  {
    if Native16(x) == Native16(y) {
      assert Native16(x)[0] == Native16(y)[0] && Native16(x)[1] == Native16(y)[1];
    }
    if Big16(x) == Big16(y) {
      assert Big16(x)[0] == Big16(y)[0] && Big16(x)[1] == Big16(y)[1];
    }
  }

  lemma {:induction false} CStringPadded(b: Bytes, rest: Bytes)
    requires NulFree(b)
    ensures CString(b + [0] + rest) == b
  {
    if b == [] {
      assert (b + [0] + rest)[0] == 0;
    } else {
      assert (b + [0] + rest)[1..] == b[1..] + [0] + rest;
      CStringPadded(b[1..], rest);
    }
  }

  /** The match info carries exactly the clipped path. */
  lemma PathOfInfo(cgroup: Bytes)
    requires NulFree(cgroup)
    ensures PathOf(CgroupInfo(cgroup)) == First511(cgroup)
  {
    var c := Clip(cgroup);
    var rest := Zeros(CGROUP_PATH_MAX - |c| - 1) + Zeros(12);
    assert CgroupInfo(cgroup)[4..] == c + [0] + rest;
    CStringPadded(c, rest);
  }

  lemma SameInfo(c: Bytes, d: Bytes)
    requires NulFree(c) && NulFree(d)
    ensures CgroupMatch(c) == CgroupMatch(d) <==> First511(c) == First511(d)
  {
    hide CString;
    PathOfInfo(c);
    PathOfInfo(d);
    if First511(c) == First511(d) {
      assert Clip(c) == Clip(d);
    }
  }

  /** Interface names of up to 15 bytes compare as names. */
  lemma IfnameInjective(a: Bytes, b: Bytes)
    requires NulFree(a) && NulFree(b) && |a| < 16 && |b| < 16
    ensures Ifname(a) == Ifname(b) <==> a == b
  {
    assert Ifname(a) == a + [0] + Zeros(IFNAMSIZ - |a| - 1);
    assert Ifname(b) == b + [0] + Zeros(IFNAMSIZ - |b| - 1);
    CStringPadded(a, Zeros(IFNAMSIZ - |a| - 1));
    CStringPadded(b, Zeros(IFNAMSIZ - |b| - 1));
  }

  // ------------------------------------------------------------------
  // What each program does
  // ------------------------------------------------------------------

  lemma {:induction false} RunRuleAppend(a: Rule, b: Rule, reg: Bytes, p: Packet, addrs: set<Bytes>)
    ensures RunRule(a + b, reg, p, addrs) ==
      match RunRule(a, reg, p, addrs)
      case Next(reg', p') => RunRule(b, reg', p', addrs)
      case other => other
    decreases |a|
  {
    hide Exec;
    if a == [] {
      assert a + b == b;
    } else {
      assert (a + b)[1..] == a[1..] + b;
      match Exec(a[0], reg, p, addrs)
      case Next(reg', p') => RunRuleAppend(a[1..], b, reg', p', addrs);
      case _ =>
    }
  }

  lemma RunOne(e: Expr, reg: Bytes, p: Packet, addrs: set<Bytes>)
    ensures RunRule([e], reg, p, addrs) == Exec(e, reg, p, addrs)
  {
    hide Exec;
    assert [e][1..] == [];
    match Exec(e, reg, p, addrs)
    case Next(reg', p') => assert RunRule([], reg', p', addrs) == Next(reg', p');
    case _ =>
  }

  lemma RunTwo(e: Expr, f: Expr, reg: Bytes, p: Packet, addrs: set<Bytes>)
    ensures RunRule([e, f], reg, p, addrs) ==
      match Exec(e, reg, p, addrs)
      case Next(reg', p') => Exec(f, reg', p', addrs)
      case other => other
  {
    hide Exec, RunRule;
    assert [e, f] == [e] + [f];
    RunRuleAppend([e], [f], reg, p, addrs);
    RunOne(e, reg, p, addrs);
    match Exec(e, reg, p, addrs)
    case Next(reg', p') => RunOne(f, reg', p', addrs);
    case _ =>
  }

  lemma MetaIsRun(key: MetaKey, data: Bytes, reg: Bytes, p: Packet, addrs: set<Bytes>)
    ensures RunRule(MetaIs(key, data), reg, p, addrs)
         == if Load(key, p) == data then Next(data, p) else Break(p)
  {
    hide RunRule, Load;
    RunTwo(MetaLoad(key), CmpEq(data), reg, p, addrs);
  }

  lemma AddressRun(offset: nat, reg: Bytes, p: Packet, addrs: set<Bytes>)
    ensures RunRule([Payload(offset, 4), Lookup], reg, p, addrs)
         == if AddressIn(p, offset, addrs) then Next(p.header[offset..offset + 4], p) else Break(p)
  {
    hide RunRule;
    RunTwo(Payload(offset, 4), Lookup, reg, p, addrs);
  }

  lemma SetMarkRun(m: Word32, reg: Bytes, p: Packet, addrs: set<Bytes>)
    ensures RunRule([Immediate(Native32(m)), MetaSetMark], reg, p, addrs)
         == Next(Native32(m), p.(mark := m))
  {
    hide RunRule, Word, Native32;
    RunTwo(Immediate(Native32(m)), MetaSetMark, reg, p, addrs);
    WordNative(m);
  }

  lemma AcceptMetaRun(key: MetaKey, data: Bytes, p: Packet, addrs: set<Bytes>)
    ensures RunRule(AcceptMeta(key, data), [], p, addrs)
         == if Load(key, p) == data then Accepted(p) else Break(p)
  {
    hide RunRule, Load, MetaIs;
    RunRuleAppend(MetaIs(key, data), [Accept], [], p, addrs);
    MetaIsRun(key, data, [], p, addrs);
    RunOne(Accept, data, p, addrs);
  }

  lemma AcceptServerRun(offset: nat, p: Packet, addrs: set<Bytes>)
    ensures RunRule(AcceptServer(offset), [], p, addrs)
         == if p.protocol == ETH_P_IP && p.l4proto == IPPROTO_UDP && AddressIn(p, offset, addrs)
            then Accepted(p) else Break(p)
  {
    hide RunRule, MetaIs, Big16;
    var a, b, c := MetaIs(Protocol, Big16(ETH_P_IP)), MetaIs(L4Proto, [IPPROTO_UDP]), [Payload(offset, 4), Lookup];
    Encodings16(p.protocol, ETH_P_IP);
    MetaIsRun(Protocol, Big16(ETH_P_IP), [], p, addrs);
    MetaIsRun(L4Proto, [IPPROTO_UDP], Big16(ETH_P_IP), p, addrs);
    AddressRun(offset, [IPPROTO_UDP], p, addrs);
    RunRuleAppend(a, b, [], p, addrs);
    RunRuleAppend(a + b, c, [], p, addrs);
    RunRuleAppend(a + b + c, [Accept], [], p, addrs);
    if AddressIn(p, offset, addrs) {
      RunOne(Accept, p.header[offset..offset + 4], p, addrs);
    }
  }

  /** The four rules of nftRestrictTraffic for one direction. */
  lemma FilterRun(typeKey: MetaKey, nameKey: MetaKey, offset: nat, ifname: Bytes, m: Word32,
                  p: Packet, addrs: set<Bytes>)
    ensures RunRules(Filter(typeKey, nameKey, offset, ifname, m), true, p, addrs) ==
      (Load(typeKey, p) == Native16(ARPHRD_LOOPBACK) || Load(nameKey, p) == Ifname(ifname)
       || (p.protocol == ETH_P_IP && p.l4proto == IPPROTO_UDP && AddressIn(p, offset, addrs))
       || p.mark == m, p)
  {
    hide RunRule, Load, Native16, Ifname, Native32, AcceptMeta, AcceptServer;
    var rs := Filter(typeKey, nameKey, offset, ifname, m);
    AcceptMetaRun(typeKey, Native16(ARPHRD_LOOPBACK), p, addrs);
    AcceptMetaRun(nameKey, Ifname(ifname), p, addrs);
    AcceptServerRun(offset, p, addrs);
    AcceptMetaRun(Mark, Native32(m), p, addrs);
    assert Load(Mark, p) == Native32(m) <==> p.mark == m by { LoadMark(p, m); }
    assert rs[1..] == [rs[1], rs[2], rs[3]] && rs[1..][1..] == [rs[2], rs[3]];
    assert [rs[2], rs[3]][1..] == [rs[3]] && [rs[3]][1..] == [];
    assert RunRules([], true, p, addrs) == (false, p);
    assert RunRules([rs[3]], true, p, addrs) == (p.mark == m, p);
    assert RunRules([rs[2], rs[3]], true, p, addrs).1 == p;
  }

  lemma LoadMark(p: Packet, m: Word32)
    ensures Load(Mark, p) == Native32(m) <==> p.mark == m
  {
    hide Native32;
    Native32Injective(p.mark, m);
  }

  lemma CtMarkRun(m: Word32, p: Packet, addrs: set<Bytes>)
    ensures RunRules([CtMarkRule(m)], false, p, addrs)
         == (true, if p.mark == m then p.(ctmark := CTMARK_EXCLUDED) else p)
  {
    hide RunRule, MetaIs, Native32, Word;
    var act := [Immediate(Native32(CTMARK_EXCLUDED)), CtSetMark];
    RunRuleAppend(MetaIs(Mark, Native32(m)), act, [], p, addrs);
    MetaIsRun(Mark, Native32(m), [], p, addrs);
    LoadMark(p, m);
    RunTwo(Immediate(Native32(CTMARK_EXCLUDED)), CtSetMark, Native32(m), p, addrs);
    WordNative(CTMARK_EXCLUDED);
    SingleRule(CtMarkRule(m), p, addrs);
  }

  lemma SingleRule(r: Rule, p: Packet, addrs: set<Bytes>)
    ensures RunRules([r], false, p, addrs) == (true, RunRule(r, [], p, addrs).p)
  {
    hide RunRule;
    assert [r][1..] == [];
    var o := RunRule(r, [], p, addrs);
    assert RunRules([], false, o.p, addrs) == (true, o.p);
  }

  ghost predicate ServerPacket(p: Packet, addrs: set<Bytes>) {
    p.nfproto == NFPROTO_IPV4 && p.l4proto == IPPROTO_UDP && AddressIn(p, 12, addrs)
  }

  lemma MarkServerRun(m: Word32, p: Packet, addrs: set<Bytes>)
    ensures RunRule(MarkServerRule(m), [], p, addrs)
         == if ServerPacket(p, addrs) then Next(Native32(m), p.(mark := m)) else Break(p)
  {
    hide RunRule, MetaIs, Native32;
    var a, b, c := MetaIs(NfProto, [NFPROTO_IPV4]), MetaIs(L4Proto, [IPPROTO_UDP]), [Payload(12, 4), Lookup];
    MetaIsRun(NfProto, [NFPROTO_IPV4], [], p, addrs);
    MetaIsRun(L4Proto, [IPPROTO_UDP], [NFPROTO_IPV4], p, addrs);
    AddressRun(12, [IPPROTO_UDP], p, addrs);
    RunRuleAppend(a, b, [], p, addrs);
    RunRuleAppend(a + b, c, [], p, addrs);
    RunRuleAppend(a + b + c, [Immediate(Native32(m)), MetaSetMark], [], p, addrs);
    if ServerPacket(p, addrs) {
      SetMarkRun(m, p.header[12..16], p, addrs);
    }
  }

  lemma MarkReplyRun(m: Word32, p: Packet, addrs: set<Bytes>)
    ensures RunRule(MarkReplyRule(m), [], p, addrs)
         == if p.ctmark == CTMARK_EXCLUDED then Next(Native32(m), p.(mark := m)) else Break(p)
  {
    hide RunRule, Native32;
    var a := [CtLoadMark, CmpEq(Native32(CTMARK_EXCLUDED))];
    RunTwo(CtLoadMark, CmpEq(Native32(CTMARK_EXCLUDED)), [], p, addrs);
    Native32Injective(p.ctmark, CTMARK_EXCLUDED);
    RunRuleAppend(a, [Immediate(Native32(m)), MetaSetMark], [], p, addrs);
    SetMarkRun(m, Native32(CTMARK_EXCLUDED), p, addrs);
  }

  lemma PrerouteRun(m: Word32, p: Packet, addrs: set<Bytes>)
    ensures RunRules([MarkServerRule(m), MarkReplyRule(m)], false, p, addrs) ==
      (true, if ServerPacket(p, addrs) || p.ctmark == CTMARK_EXCLUDED then p.(mark := m) else p)
  {
    hide RunRule, Native32, MarkServerRule, MarkReplyRule;
    MarkServerRun(m, p, addrs);
    MarkReplyRun(m, p, addrs);
    MarkReplyRun(m, p.(mark := m), addrs);
    assert [MarkServerRule(m), MarkReplyRule(m)][1..] == [MarkReplyRule(m)];
    SingleRule(MarkReplyRule(m), p, addrs);
    SingleRule(MarkReplyRule(m), p.(mark := m), addrs);
  }

  /** A cgroup rule marks an unmarked packet of the cgroup that is not for loopback. */
  lemma MarkCgroupRun(c: Bytes, m: Word32, p: Packet, addrs: set<Bytes>)
    ensures RunRule(MarkCgroupRule(c, m), [], p, addrs).p ==
      (if PathOf(CgroupInfo(c)) in p.cgroups && p.mark == 0 && p.oifType != ARPHRD_LOOPBACK
       then p.(mark := m) else p)
    ensures !RunRule(MarkCgroupRule(c, m), [], p, addrs).Accepted?
  {
    hide RunRule, MetaIs, Native32, Native16, CgroupInfo, PathOf;
    var a, b := [CgroupMatch(c)], MetaIs(Mark, Native32(0));
    var l, act := [MetaLoad(OifType), CmpNeq(Native16(ARPHRD_LOOPBACK))], [Immediate(Native32(m)), MetaSetMark];
    RunOne(CgroupMatch(c), [], p, addrs);
    RunRuleAppend(a, b, [], p, addrs);
    MetaIsRun(Mark, Native32(0), [], p, addrs);
    LoadMark(p, 0);
    RunRuleAppend(a + b, l, [], p, addrs);
    RunTwo(MetaLoad(OifType), CmpNeq(Native16(ARPHRD_LOOPBACK)), Native32(0), p, addrs);
    Encodings16(p.oifType, ARPHRD_LOOPBACK);
    RunRuleAppend(a + b + l, act, [], p, addrs);
    SetMarkRun(m, Native16(p.oifType), p, addrs);
  }

  function MarkRules(cs: seq<Bytes>, m: Word32): seq<Rule> {
    seq(|cs|, i requires 0 <= i < |cs| => MarkCgroupRule(cs[i], m))
  }

  ghost predicate SomeMatch(cs: seq<Bytes>, p: Packet) {
    exists i :: 0 <= i < |cs| && PathOf(CgroupInfo(cs[i])) in p.cgroups
  }

  /** The whole cgroup chain, however many rules it has. */
  lemma {:induction false} MarkRulesRun(cs: seq<Bytes>, m: Word32, p: Packet, addrs: set<Bytes>)
    requires m != 0
    ensures RunRules(MarkRules(cs, m), false, p, addrs) ==
      (true, if p.mark == 0 && p.oifType != ARPHRD_LOOPBACK && SomeMatch(cs, p) then p.(mark := m) else p)
    decreases |cs|
  {
    hide RunRule, MarkCgroupRule, PathOf, CgroupInfo;
    if cs != [] {
      var p' := RunRule(MarkCgroupRule(cs[0], m), [], p, addrs).p;
      MarkCgroupRun(cs[0], m, p, addrs);
      assert MarkRules(cs, m)[1..] == MarkRules(cs[1..], m);
      MarkRulesRun(cs[1..], m, p', addrs);
      assert SomeMatch(cs, p) <==> PathOf(CgroupInfo(cs[0])) in p.cgroups || SomeMatch(cs[1..], p) by {
        if SomeMatch(cs[1..], p) {
          var i :| 0 <= i < |cs[1..]| && PathOf(CgroupInfo(cs[1..][i])) in p.cgroups;
          assert PathOf(CgroupInfo(cs[i + 1])) in p.cgroups;
        }
        if SomeMatch(cs, p) {
          var i :| 0 <= i < |cs| && PathOf(CgroupInfo(cs[i])) in p.cgroups;
          if i > 0 {
            assert PathOf(CgroupInfo(cs[1..][i - 1])) in p.cgroups;
          }
        }
      }
    }
  }

  // ------------------------------------------------------------------
  // What a history of calls leaves in the chains
  // ------------------------------------------------------------------

  function Keep(cs: seq<Bytes>, c: Bytes): seq<Bytes> {
    if cs == [] then []
    else Keep(cs[..|cs| - 1], c) + (if CgroupMatch(cs[|cs| - 1]) == CgroupMatch(c) then [] else [cs[|cs| - 1]])
  }

  /** The cgroups whose rules are still there, in order, repeats included. */
  function Marks(ops: seq<Op>): seq<Bytes> {
    if ops == [] then []
    else match ops[|ops| - 1]
      case MarkCgroupV2(c) => Marks(ops[..|ops| - 1]) + [c]
      case ResetCgroupV2(c) => Keep(Marks(ops[..|ops| - 1]), c)
      case _ => Marks(ops[..|ops| - 1])
  }

  function NatRules(cs: seq<Bytes>, m: Word32): seq<Rule> {
    seq(|cs|, i requires 0 <= i < |cs| => MasqueradeRule(cs[i], m))
  }

  lemma {:induction false} KeepRules(cs: seq<Bytes>, c: Bytes, m: Word32)
    ensures WithoutMatch(MarkRules(cs, m), CgroupMatch(c)) == MarkRules(Keep(cs, c), m)
    ensures WithoutMatch(NatRules(cs, m), CgroupMatch(c)) == NatRules(Keep(cs, c), m)
  {
    hide CgroupMatch;
    if cs != [] {
      var front, last := cs[..|cs| - 1], cs[|cs| - 1];
      KeepRules(front, c, m);
      assert MarkRules(cs, m)[..|cs| - 1] == MarkRules(front, m);
      assert NatRules(cs, m)[..|cs| - 1] == NatRules(front, m);
      assert MarkCgroupRule(last, m)[0] == CgroupMatch(last);
      assert MasqueradeRule(last, m)[0] == CgroupMatch(last);
    }
  }

  /** nftDelCgroup2xt's unchecked cast: every rule it visits starts with a match. */
  lemma DeletedRulesStartWithMatch(cs: seq<Bytes>, m: Word32, i: nat)
    requires i < |cs|
    ensures |MarkRules(cs, m)[i]| > 0 && MarkRules(cs, m)[i][0].Match?
    ensures |NatRules(cs, m)[i]| > 0 && NatRules(cs, m)[i][0].Match?
  {
  }

  /** Only the cgroup chains and the address set change after start-up. */
  lemma {:induction false} HistoryChains(x: Ctx, ops: seq<Op>)
    requires x.fwmark != 0 && x.cgroupMark.rules == [] && x.cgroupNat.rules == [] && x.addrset == {}
    ensures ApplyAll(x, ops) ==
      x.(cgroupMark := x.cgroupMark.(rules := MarkRules(Marks(ops), x.fwmark)),
         cgroupNat := x.cgroupNat.(rules := NatRules(Marks(ops), x.fwmark)),
         addrset := Servers(ops))
  {
    hide MarkCgroupRule, MasqueradeRule, CgroupMatch;
    if ops != [] {
      var before, op := ops[..|ops| - 1], ops[|ops| - 1];
      HistoryChains(x, before);
      match op
      case MarkCgroupV2(c) =>
        assert MarkRules(Marks(ops), x.fwmark)
            == MarkRules(Marks(before), x.fwmark) + [MarkCgroupRule(c, x.fwmark)];
        assert NatRules(Marks(ops), x.fwmark)
            == NatRules(Marks(before), x.fwmark) + [MasqueradeRule(c, x.fwmark)];
      case ResetCgroupV2(c) => KeepRules(Marks(before), c, x.fwmark);
      case _ =>
    }
  }

  lemma {:induction false} KeepPaths(cs: seq<Bytes>, c: Bytes, d: Bytes)
    ensures d in Keep(cs, c) <==> d in cs && CgroupMatch(d) != CgroupMatch(c)
  {
    hide CgroupMatch;
    if cs != [] {
      KeepPaths(cs[..|cs| - 1], c, d);
      assert cs == cs[..|cs| - 1] + [cs[|cs| - 1]];
    }
  }

  lemma ProperPrefix(ops: seq<Op>)
    requires ProperPaths(ops) && ops != []
    ensures ProperPaths(ops[..|ops| - 1])
  {
  }

  /** The rules stand for the set of excluded paths: every rule's path is in it ... */
  lemma {:induction false} MarksSound(ops: seq<Op>, c: Bytes)
    requires ProperPaths(ops) && c in Marks(ops)
    ensures NulFree(c) && First511(c) in Excluded(ops)
  {
    hide CgroupMatch, First511, NulFree;
    var before, op := ops[..|ops| - 1], ops[|ops| - 1];
    ProperPrefix(ops);
    match op
    case MarkCgroupV2(d) =>
      if c != d {
        MarksSound(before, c);
      }
    case ResetCgroupV2(d) =>
      KeepPaths(Marks(before), d, c);
      MarksSound(before, c);
      SameInfo(c, d);
    case _ => MarksSound(before, c);
  }

  /** ... and every path in it has a rule. */
  lemma {:induction false} MarksComplete(ops: seq<Op>, path: Bytes) returns (c: Bytes)
    requires ProperPaths(ops) && path in Excluded(ops)
    ensures c in Marks(ops) && First511(c) == path
  {
    hide CgroupMatch, First511, NulFree;
    var before, op := ops[..|ops| - 1], ops[|ops| - 1];
    ProperPrefix(ops);
    match op
    case MarkCgroupV2(d) =>
      if path == First511(d) {
        c := d;
      } else {
        c := MarksComplete(before, path);
      }
    case ResetCgroupV2(d) =>
      c := MarksComplete(before, path);
      MarksSound(before, c);
      SameInfo(c, d);
      KeepPaths(Marks(before), d, c);
    case _ => c := MarksComplete(before, path);
  }

  lemma MatchIsExcluded(ops: seq<Op>, p: Packet)
    requires ProperPaths(ops)
    ensures SomeMatch(Marks(ops), p) <==> FromExcluded(p, ops)
  {
    hide CgroupInfo, PathOf, First511, Marks, Excluded;
    var cs := Marks(ops);
    if SomeMatch(cs, p) {
      var i :| 0 <= i < |cs| && PathOf(CgroupInfo(cs[i])) in p.cgroups;
      MarksSound(ops, cs[i]);
      PathOfInfo(cs[i]);
    }
    if FromExcluded(p, ops) {
      var path :| path in Excluded(ops) && path in p.cgroups;
      var c := MarksComplete(ops, path);
      MarksSound(ops, c);
      PathOfInfo(c);
      var i :| 0 <= i < |cs| && cs[i] == c;
    }
  }

  // ------------------------------------------------------------------
  // Main results
  // ------------------------------------------------------------------

  lemma HookedSnoc(cs: seq<Chain>, c: Chain, hook: Hook)
    ensures Hooked(cs + [c], hook) == Put(c, hook, Hooked(cs, hook))
  {
    assert (cs + [c])[..|cs|] == cs;
  }

  lemma HookedSix(x: Ctx, h: Hook)
    ensures Hooked(Chains(x), h) ==
      Put(x.output, h, Put(x.input, h, Put(x.preroute, h,
        Put(x.conntrack, h, Put(x.cgroupNat, h, Put(x.cgroupMark, h, []))))))
  {
    hide Put;
    HookedSnoc([], x.cgroupMark, h);
    HookedSnoc([x.cgroupMark], x.cgroupNat, h);
    HookedSnoc([x.cgroupMark, x.cgroupNat], x.conntrack, h);
    HookedSnoc([x.cgroupMark, x.cgroupNat, x.conntrack], x.preroute, h);
    HookedSnoc([x.cgroupMark, x.cgroupNat, x.conntrack, x.preroute], x.input, h);
    HookedSnoc([x.cgroupMark, x.cgroupNat, x.conntrack, x.preroute, x.input], x.output, h);
    assert Hooked([], h) == [];
    assert [] + [x.cgroupMark] == [x.cgroupMark];
    assert [x.cgroupMark] + [x.cgroupNat] == [x.cgroupMark, x.cgroupNat];
    assert [x.cgroupMark, x.cgroupNat] + [x.conntrack] == [x.cgroupMark, x.cgroupNat, x.conntrack];
    assert [x.cgroupMark, x.cgroupNat, x.conntrack] + [x.preroute]
        == [x.cgroupMark, x.cgroupNat, x.conntrack, x.preroute];
    assert [x.cgroupMark, x.cgroupNat, x.conntrack, x.preroute] + [x.input]
        == [x.cgroupMark, x.cgroupNat, x.conntrack, x.preroute, x.input];
    assert [x.cgroupMark, x.cgroupNat, x.conntrack, x.preroute, x.input] + [x.output] == Chains(x);
  }

  lemma InsertLast(c: Chain, cs: seq<Chain>, last: Chain)
    requires |cs| <= 1 && (forall i :: 0 <= i < |cs| ==> cs[i].priority <= c.priority)
    requires last.priority <= c.priority
    ensures Insert(c, cs + [last]) == cs + [last, c]
  {
    assert [last][1..] == [] && Insert(c, []) == [c];
    assert Insert(c, [last]) == [last] + [c];
    if cs != [] {
      assert (cs + [last])[1..] == [last];
    } else {
      assert cs + [last] == [last];
    }
  }

  /** Hook order follows from the priorities given in NetfilterCreateTables. */
  lemma HookOrder(x: Ctx)
    requires x.cgroupMark.hook == Output && x.cgroupMark.priority == -300
    requires x.cgroupNat.hook == Postrouting && x.preroute.hook == Prerouting && x.input.hook == Input
    requires x.conntrack.hook == Output && x.conntrack.priority == -199
    requires x.output.hook == Output && x.output.priority == 0
    ensures Hooked(Chains(x), Output) == [x.cgroupMark, x.conntrack, x.output]
    ensures Hooked(Chains(x), Prerouting) == [x.preroute]
    ensures Hooked(Chains(x), Input) == [x.input]
  {
    hide Hooked, Chains;
    HookedSix(x, Output);
    HookedSix(x, Prerouting);
    HookedSix(x, Input);
    InsertLast(x.conntrack, [], x.cgroupMark);
    InsertLast(x.output, [x.cgroupMark], x.conntrack);
    assert [] + [x.cgroupMark] == [x.cgroupMark] && [] + [x.cgroupMark, x.conntrack] == [x.cgroupMark, x.conntrack];
    assert [x.cgroupMark] + [x.conntrack] == [x.cgroupMark, x.conntrack];
    assert [x.cgroupMark] + [x.conntrack, x.output] == [x.cgroupMark, x.conntrack, x.output];
  }

  /** The state every history leads to. */
  lemma FirewallState(m: Word32, ifname: Bytes, ops: seq<Op>)
    requires m != 0
    ensures var x := Firewall(m, ifname, ops);
      && x.cgroupMark == Chain(Output, -300, false, MarkRules(Marks(ops), m))
      && x.cgroupNat == Chain(Postrouting, 100, false, NatRules(Marks(ops), m))
      && x.conntrack == Chain(Output, -199, false, [CtMarkRule(m)])
      && x.preroute == Chain(Prerouting, -150, false, [MarkServerRule(m), MarkReplyRule(m)])
      && x.input == Chain(Input, 0, true, Filter(IifType, IifName, 12, ifname, m))
      && x.output == Chain(Output, 0, true, Filter(OifType, OifName, 16, ifname, m))
      && x.addrset == Servers(ops)
  {
    hide CtMarkRule, MarkServerRule, MarkReplyRule, Filter;
    var x := RestrictTraffic(ApplyFwMark(CreateTables(), m), ifname);
    HistoryChains(x, ops);
    assert [] + Filter(IifType, IifName, 12, ifname, m) == Filter(IifType, IifName, 12, ifname, m);
    assert [] + Filter(OifType, OifName, 16, ifname, m) == Filter(OifType, OifName, 16, ifname, m);
  }

  lemma ThreeChains(a: Chain, b: Chain, c: Chain, p: Packet, addrs: set<Bytes>)
    requires RunChain(a, p, addrs).0
    requires RunChain(b, RunChain(a, p, addrs).1, addrs).0
    ensures RunChains([a, b, c], p, addrs) == RunChain(c, RunChain(b, RunChain(a, p, addrs).1, addrs).1, addrs)
  {
    hide RunChain;
    assert [a, b, c][1..] == [b, c] && [b, c][1..] == [c] && [c][1..] == [];
    var q := RunChain(b, RunChain(a, p, addrs).1, addrs).1;
    assert RunChains([], RunChain(c, q, addrs).1, addrs) == (true, RunChain(c, q, addrs).1);
    assert RunChains([c], q, addrs) == RunChain(c, q, addrs);
    assert RunChains([b, c], RunChain(a, p, addrs).1, addrs) == RunChains([c], q, addrs);
  }

  /** A packet to one of the VPN servers. */
  ghost predicate ToServer(p: Packet, ops: seq<Op>) {
    p.protocol == ETH_P_IP && p.l4proto == IPPROTO_UDP && AddressIn(p, 16, Servers(ops))
  }

  /** The mark a packet leaves with. */
  ghost function OutMark(p: Packet, m: Word32, ops: seq<Op>): Word32 {
    if p.mark == 0 && p.oifType != ARPHRD_LOOPBACK && FromExcluded(p, ops) then m else p.mark
  }

  /** Output filter chain alone: loopback, the tunnel, a VPN server, or the mark. */
  lemma OutputChainAccepts(m: Word32, ifname: Bytes, ops: seq<Op>, p: Packet)
    requires m != 0
    ensures var x := Firewall(m, ifname, ops);
      RunChain(x.output, p, x.addrset) ==
      (p.oifType == ARPHRD_LOOPBACK || Ifname(p.oifName) == Ifname(ifname) || ToServer(p, ops) || p.mark == m, p)
  {
    hide Firewall, Filter, Native16, Ifname, RunRules;
    FirewallState(m, ifname, ops);
    FilterRun(OifType, OifName, 16, ifname, m, p, Servers(ops));
    Encodings16(p.oifType, ARPHRD_LOOPBACK);
  }

  /** Everything a packet sent from this host goes through: it is accepted iff
      it is for loopback, the tunnel or a VPN server, carries the firewall mark,
      or comes unmarked from an excluded cgroup; and its connection is tagged
      as excluded iff it leaves with the mark. */
  lemma OutputHookAccepts(m: Word32, ifname: Bytes, ops: seq<Op>, p: Packet)
    requires m != 0 && ProperPaths(ops)
    ensures var (ok, q) := RunHook(Firewall(m, ifname, ops), Output, p);
      && (ok <==> p.oifType == ARPHRD_LOOPBACK || Ifname(p.oifName) == Ifname(ifname)
                  || ToServer(p, ops) || p.mark == m || (p.mark == 0 && FromExcluded(p, ops)))
      && q.mark == OutMark(p, m, ops)
      && q.ctmark == (if q.mark == m then CTMARK_EXCLUDED else p.ctmark)
  {
    hide Firewall, Filter, Native16, Ifname, RunRules, MarkRules, CtMarkRule, Hooked, Chains, Marks,
         SomeMatch, FromExcluded, AddressIn;
    var x := Firewall(m, ifname, ops);
    FirewallState(m, ifname, ops);
    HookOrder(x);
    MarkRulesRun(Marks(ops), m, p, x.addrset);
    MatchIsExcluded(ops, p);
    var p1 := RunChain(x.cgroupMark, p, x.addrset).1;
    assert p1 == p.(mark := OutMark(p, m, ops));
    CtMarkRun(m, p1, x.addrset);
    var p2 := RunChain(x.conntrack, p1, x.addrset).1;
    ThreeChains(x.cgroupMark, x.conntrack, x.output, p, x.addrset);
    OutputChainAccepts(m, ifname, ops, p2);
    OnlyMarksDiffer(p, p2, ops);
  }

  /** From the call on that excludes a cgroup, named by up to 511 bytes, its
      unmarked packets get out, loopback apart; whatever was called before. */
  lemma ExcludedGetsOut(m: Word32, ifname: Bytes, ops: seq<Op>, cgroup: Bytes, p: Packet)
    requires m != 0 && ProperPaths(ops) && NulFree(cgroup) && |cgroup| <= 511
    requires p.mark == 0 && cgroup in p.cgroups
    ensures RunHook(Firewall(m, ifname, ops + [MarkCgroupV2(cgroup)]), Output, p).0
  {
    hide Firewall, RunHook, Ifname, ToServer;
    var after := ops + [MarkCgroupV2(cgroup)];
    assert after[..|ops|] == ops;
    assert cgroup in Excluded(after);
    OutputHookAccepts(m, ifname, after, p);
  }

  /** Excluding one cgroup lets no other out: without other calls an unmarked
      packet that is not for loopback or the tunnel gets out only if it comes from
      that cgroup. */
  lemma OnlyExcludedGetsOut(m: Word32, ifname: Bytes, cgroup: Bytes, p: Packet)
    requires m != 0 && NulFree(cgroup) && |cgroup| <= 511
    requires p.mark == 0 && p.oifType != 772 && Ifname(p.oifName) != Ifname(ifname)
    ensures RunHook(Firewall(m, ifname, [MarkCgroupV2(cgroup)]), Output, p).0 <==> cgroup in p.cgroups
  {
    hide Firewall, RunHook, Ifname, Excluded, Servers;
    var ops := [MarkCgroupV2(cgroup)];
    OneExclusion(cgroup);
    OutputHookAccepts(m, ifname, ops, p);
  }

  lemma OneExclusion(cgroup: Bytes)
    requires |cgroup| <= 511
    ensures Excluded([MarkCgroupV2(cgroup)]) == {cgroup} && Servers([MarkCgroupV2(cgroup)]) == {}
  {
    var op := MarkCgroupV2(cgroup);
    var ops := [op];
    assert |ops| == 1 && ops[|ops| - 1] == op && ops[..|ops| - 1] == [];
    assert Excluded([]) == {} && Servers([]) == {};
    assert Excluded(ops) == Excluded([]) + {cgroup};
    assert Servers(ops) == Servers([]);
  }

  /** And after the exclusion is reset it does not either. */
  lemma ResetEndsExclusion(m: Word32, ifname: Bytes, ops: seq<Op>, cgroup: Bytes, p: Packet)
    requires m != 0 && ProperPaths(ops) && NulFree(cgroup) && |cgroup| <= 511
    requires p.mark == 0 && p.oifType != 772 && Ifname(p.oifName) != Ifname(ifname)
    requires p.cgroups == {cgroup} && !ToServer(p, ops)
    ensures !RunHook(Firewall(m, ifname, ops + [ResetCgroupV2(cgroup)]), Output, p).0
  {
    hide Firewall, RunHook, Ifname;
    var after := ops + [ResetCgroupV2(cgroup)];
    assert after[..|ops|] == ops;
    assert cgroup !in Excluded(after) && Servers(after) == Servers(ops);
    OutputHookAccepts(m, ifname, after, p);
  }

  lemma OnlyMarksDiffer(p: Packet, q: Packet, ops: seq<Op>)
    requires q == p.(mark := q.mark, ctmark := q.ctmark)
    ensures ToServer(p, ops) <==> ToServer(q, ops)
  {
  }

  lemma OneChain(c: Chain, p: Packet, addrs: set<Bytes>)
    ensures RunChains([c], p, addrs) == RunChain(c, p, addrs)
  {
    hide RunChain;
    assert [c][1..] == [];
    var q := RunChain(c, p, addrs).1;
    assert RunChains([], q, addrs) == (true, q);
  }

  ghost predicate FromServer(p: Packet, ops: seq<Op>) {
    (p.protocol == ETH_P_IP || p.nfproto == NFPROTO_IPV4) && p.l4proto == IPPROTO_UDP
    && AddressIn(p, 12, Servers(ops))
  }

  /** Everything a packet for this host goes through: it is accepted iff it
      comes from loopback, the tunnel or a VPN server, carries the mark, or
      belongs to an excluded connection. */
  lemma InputHooksAccept(m: Word32, ifname: Bytes, ops: seq<Op>, p: Packet)
    requires m != 0
    ensures var x := Firewall(m, ifname, ops);
      var (ok1, q) := RunHook(x, Prerouting, p);
      ok1 && (RunHook(x, Input, q).0 <==>
        p.iifType == ARPHRD_LOOPBACK || Ifname(p.iifName) == Ifname(ifname) || FromServer(p, ops)
        || p.mark == m || p.ctmark == CTMARK_EXCLUDED)
  {
    hide Firewall, Filter, Native16, Ifname, RunRules, MarkServerRule, MarkReplyRule, Hooked, Chains,
         MarkRules, AddressIn;
    var x := Firewall(m, ifname, ops);
    FirewallState(m, ifname, ops);
    HookOrder(x);
    PrerouteRun(m, p, x.addrset);
    OneChain(x.preroute, p, x.addrset);
    var q := RunHook(x, Prerouting, p).1;
    OneChain(x.input, q, x.addrset);
    FilterRun(IifType, IifName, 12, ifname, m, q, Servers(ops));
    Encodings16(q.iifType, ARPHRD_LOOPBACK);
    SameHeader(p, q, 12, Servers(ops));
  }

  lemma SameHeader(p: Packet, q: Packet, offset: nat, servers: set<Bytes>)
    requires q == p.(mark := q.mark)
    ensures AddressIn(p, offset, servers) <==> AddressIn(q, offset, servers)
  {
  }

  /** Split tunnelling works end to end: an unmarked packet from an excluded
      cgroup gets out, and every packet of its connection gets back in, whatever
      calls follow, the end of the exclusion included. */
  lemma ExcludedConnectionWorks(m: Word32, ifname: Bytes, ops: seq<Op>, later: seq<Op>, p: Packet, reply: Packet)
    requires m != 0 && ProperPaths(ops)
    requires p.mark == 0 && p.oifType != ARPHRD_LOOPBACK && FromExcluded(p, ops)
    requires reply.ctmark == RunHook(Firewall(m, ifname, ops), Output, p).1.ctmark
    ensures RunHook(Firewall(m, ifname, ops), Output, p).0
    ensures var x := Firewall(m, ifname, ops + later);
      RunHook(x, Input, RunHook(x, Prerouting, reply).1).0
  {
    hide Firewall, RunHook, Ifname;
    OutputHookAccepts(m, ifname, ops, p);
    InputHooksAccept(m, ifname, ops + later, reply);
  }

  lemma MasqueradeRun(c: Bytes, m: Word32, p: Packet, addrs: set<Bytes>)
    ensures RunRule(MasqueradeRule(c, m), [], p, addrs) ==
      (if PathOf(CgroupInfo(c)) in p.cgroups && p.mark == m then Accepted(p.(masq := true)) else Break(p))
  {
    hide RunRule, MetaIs, Native32, CgroupInfo, PathOf;
    var a, b := [CgroupMatch(c)], MetaIs(Mark, Native32(m));
    RunOne(CgroupMatch(c), [], p, addrs);
    RunRuleAppend(a, b, [], p, addrs);
    MetaIsRun(Mark, Native32(m), [], p, addrs);
    LoadMark(p, m);
    RunRuleAppend(a + b, [Masq], [], p, addrs);
    RunOne(Masq, Native32(m), p, addrs);
  }

  lemma {:induction false} NatRulesRun(cs: seq<Bytes>, m: Word32, p: Packet, addrs: set<Bytes>)
    ensures RunRules(NatRules(cs, m), false, p, addrs) ==
      (true, if p.mark == m && SomeMatch(cs, p) then p.(masq := true) else p)
    decreases |cs|
  {
    hide RunRule, MasqueradeRule, PathOf, CgroupInfo;
    if cs != [] {
      MasqueradeRun(cs[0], m, p, addrs);
      assert NatRules(cs, m)[1..] == NatRules(cs[1..], m);
      NatRulesRun(cs[1..], m, p, addrs);
      assert PathOf(CgroupInfo(cs[0])) in p.cgroups ==> SomeMatch(cs, p);
      if SomeMatch(cs[1..], p) {
        var i :| 0 <= i < |cs[1..]| && PathOf(CgroupInfo(cs[1..][i])) in p.cgroups;
        assert PathOf(CgroupInfo(cs[i + 1])) in p.cgroups;
      }
      if SomeMatch(cs, p) && PathOf(CgroupInfo(cs[0])) !in p.cgroups {
        var i :| 0 <= i < |cs| && PathOf(CgroupInfo(cs[i])) in p.cgroups;
        assert PathOf(CgroupInfo(cs[1..][i - 1])) in p.cgroups;
      }
    }
  }

  /** On the way out a packet is masqueraded iff it carries the mark and comes
      from an excluded cgroup. */
  lemma PostroutingMasquerades(m: Word32, ifname: Bytes, ops: seq<Op>, p: Packet)
    requires m != 0 && ProperPaths(ops)
    ensures RunHook(Firewall(m, ifname, ops), Postrouting, p) ==
      (true, if p.mark == m && FromExcluded(p, ops) then p.(masq := true) else p)
  {
    hide Firewall, RunRules, NatRules, Hooked, Chains, Marks, SomeMatch, FromExcluded, Insert;
    var x := Firewall(m, ifname, ops);
    FirewallState(m, ifname, ops);
    HookedSix(x, Postrouting);
    assert Insert(x.cgroupNat, []) == [x.cgroupNat] by { InsertOnly(x.cgroupNat); }
    NatRulesRun(Marks(ops), m, p, x.addrset);
    MatchIsExcluded(ops, p);
    OneChain(x.cgroupNat, p, x.addrset);
  }

  lemma InsertOnly(c: Chain)
    ensures Insert(c, []) == [c]
  {
  }

  // ------------------------------------------------------------------
  // The context object
  // ------------------------------------------------------------------

  /** The packets that may leave after this history of calls. */
  ghost predicate MayLeave(m: Word32, ifname: Bytes, ops: seq<Op>, p: Packet) {
    p.oifType == ARPHRD_LOOPBACK || Ifname(p.oifName) == Ifname(ifname)
    || ToServer(p, ops) || p.mark == m || (p.mark == 0 && FromExcluded(p, ops))
  }

  /** The packets that may enter after this history of calls. */
  ghost predicate MayEnter(m: Word32, ifname: Bytes, ops: seq<Op>, p: Packet) {
    p.iifType == ARPHRD_LOOPBACK || Ifname(p.iifName) == Ifname(ifname) || FromServer(p, ops)
    || p.mark == m || p.ctmark == CTMARK_EXCLUDED
  }

  /** x lets exactly these packets leave and enter. */
  ghost predicate Enforces(x: Ctx, m: Word32, ifname: Bytes, ops: seq<Op>) {
    forall p: Packet ::
      && (RunHook(x, Output, p).0 <==> MayLeave(m, ifname, ops, p))
      && (RunHook(x, Input, RunHook(x, Prerouting, p).1).0 <==> MayEnter(m, ifname, ops, p))
  }

  lemma FirewallEnforces(m: Word32, ifname: Bytes, ops: seq<Op>)
    requires m != 0 && ProperPaths(ops)
    ensures Enforces(Firewall(m, ifname, ops), m, ifname, ops)
  {
    hide Firewall, RunHook, Ifname, FromExcluded, ToServer, FromServer;
    forall p: Packet
      ensures RunHook(Firewall(m, ifname, ops), Output, p).0 <==> MayLeave(m, ifname, ops, p)
      ensures RunHook(Firewall(m, ifname, ops), Input, RunHook(Firewall(m, ifname, ops), Prerouting, p).1).0
         <==> MayEnter(m, ifname, ops, p)
    {
      OutputHookAccepts(m, ifname, ops, p);
      InputHooksAccept(m, ifname, ops, p);
    }
  }

  lemma OneMoreCall(m: Word32, ifname: Bytes, ops: seq<Op>, op: Op)
    requires m != 0
    ensures Firewall(m, ifname, ops + [op]) == Apply(Firewall(m, ifname, ops), op)
  {
    assert (ops + [op])[..|ops|] == ops;
  }

  class NftContext {
    var cgroupMark: Chain
    var cgroupNat: Chain
    var conntrack: Chain
    var preroute: Chain
    var input: Chain
    var output: Chain
    var addrset: set<Bytes>
    var fwmark: Word32

    /** The interface given to Restrict, and the calls made since. */
    ghost var tunnel: Bytes
    ghost var calls: seq<Op>

    ghost function View(): Ctx
      reads this
    {
      Ctx(cgroupMark, cgroupNat, conntrack, preroute, input, output, addrset, fwmark)
    }

    /** The tables are created and marked, and no more. */
    ghost predicate Marked()
      reads this
    {
      fwmark != 0 && View() == ApplyFwMark(CreateTables(), fwmark)
    }

    /** The set-up is complete. */
    ghost predicate Up()
      reads this
    {
      fwmark != 0 && ProperPaths(calls) && View() == Firewall(fwmark, tunnel, calls)
    }

    constructor ()
      ensures View() == CreateTables()
    {
      cgroupMark, cgroupNat := Chain(Output, -300, false, []), Chain(Postrouting, 100, false, []);
      conntrack, preroute := Chain(Output, -200 + 1, false, []), Chain(Prerouting, -150, false, []);
      input, output := Chain(Input, 0, true, []), Chain(Output, 0, true, []);
      addrset, fwmark := {}, 0;
    }

    /** NetfilterApplyFwMark; a zero mark panics. */
    method Mark(m: Word32)
      requires m != 0
      modifies this
      ensures View() == ApplyFwMark(old(View()), m)
      ensures old(View()) == CreateTables() ==> Marked()
    {
      fwmark := m;
      var rule := [MetaLoad(MetaKey.Mark), CmpEq(Native32(fwmark))];
      rule := rule + [Immediate(Native32(CTMARK_EXCLUDED)), CtSetMark];
      conntrack := conntrack.(rules := conntrack.rules + [rule]);

      rule := [MetaLoad(NfProto), CmpEq([NFPROTO_IPV4])];
      rule := rule + [MetaLoad(L4Proto), CmpEq([IPPROTO_UDP])];
      rule := rule + [Payload(12, 4), Lookup];
      rule := rule + [Immediate(Native32(fwmark)), MetaSetMark];
      assert rule == MarkServerRule(m);
      preroute := preroute.(rules := preroute.rules + [rule]);

      rule := [CtLoadMark, CmpEq(Native32(CTMARK_EXCLUDED))];
      rule := rule + [Immediate(Native32(fwmark)), MetaSetMark];
      preroute := preroute.(rules := preroute.rules + [rule]);
    }

    /** Accepts, in one direction, loopback, the interface, the VPN servers and
        marked packets. */
    method AddFilter(chain: Chain, typeKey: MetaKey, nameKey: MetaKey, offset: nat, ifname: Bytes)
        returns (r: Chain)
      ensures r == chain.(rules := chain.rules + Filter(typeKey, nameKey, offset, ifname, fwmark))
    {
      var loopback := [MetaLoad(typeKey), CmpEq(Native16(ARPHRD_LOOPBACK)), Accept];
      var byName := [MetaLoad(nameKey), CmpEq(Ifname(ifname)), Accept];
      var server := [MetaLoad(Protocol), CmpEq(Big16(ETH_P_IP))];
      server := server + [MetaLoad(L4Proto), CmpEq([IPPROTO_UDP])];
      server := server + [Payload(offset, 4), Lookup];
      server := server + [Accept];
      var marked := [MetaLoad(MetaKey.Mark), CmpEq(Native32(fwmark)), Accept];
      assert loopback == AcceptMeta(typeKey, Native16(ARPHRD_LOOPBACK));
      assert byName == AcceptMeta(nameKey, Ifname(ifname));
      assert server == AcceptServer(offset);
      assert marked == AcceptMeta(MetaKey.Mark, Native32(fwmark));
      var rules := chain.rules + [loopback];
      rules := rules + [byName];
      rules := rules + [server];
      rules := rules + [marked];
      r := chain.(rules := rules);
    }

    /** NetfilterRestrictTraffic: from here on the hooks let exactly the
        permitted packets through. */
    method Restrict(ifname: Bytes)
      modifies this
      ensures View() == RestrictTraffic(old(View()), ifname) && tunnel == ifname && calls == []
      ensures old(Marked()) ==> Up() && Enforces(View(), fwmark, ifname, [])
    {
      input := AddFilter(input, IifType, IifName, 12, ifname);
      output := AddFilter(output, OifType, OifName, 16, ifname);
      tunnel, calls := ifname, [];
      hide Filter, Enforces;
      if old(Marked()) {
        FirewallEnforces(fwmark, ifname, []);
      }
    }

    /** nftMarkCgroup2xt */
    method MarkPath(cgroup: Bytes)
      requires fwmark != 0
      modifies this`cgroupMark, this`cgroupNat
      ensures View() == MarkCgroup(old(View()), cgroup)
    {
      hide CgroupMatch;
      var xtmatch := CgroupMatch(cgroup);
      var rule := [xtmatch];
      rule := rule + [MetaLoad(MetaKey.Mark), CmpEq(Native32(0))];
      rule := rule + [MetaLoad(OifType), CmpNeq(Native16(ARPHRD_LOOPBACK))];
      rule := rule + [Immediate(Native32(fwmark)), MetaSetMark];
      cgroupMark := cgroupMark.(rules := cgroupMark.rules + [rule]);

      rule := [xtmatch];
      rule := rule + [MetaLoad(MetaKey.Mark), CmpEq(Native32(fwmark))];
      rule := rule + [Masq];
      cgroupNat := cgroupNat.(rules := cgroupNat.rules + [rule]);
    }

    /** The four calls made while the tunnel is up. After each the hooks let
        exactly the packets through that the whole history permits. */
    method Call(op: Op)
      modifies this
      ensures View() == Apply(old(View()), op) && tunnel == old(tunnel) && calls == old(calls) + [op]
      ensures old(Up()) && ProperPaths([op]) ==> Up() && Enforces(View(), fwmark, tunnel, calls)
    {
      hide CgroupMatch, MarkCgroup, Enforces, Firewall;
      match op {
        case MarkInbound(addr) => addrset := addrset + {addr};
        case ClearInbound(addr) => addrset := addrset - {addr};
        case MarkCgroupV2(cgroup) =>
          if fwmark != 0 {
            MarkPath(cgroup);
          } else {
            assert MarkCgroup(View(), cgroup) == View() by { Unmarked(View(), cgroup); }
          }
        case ResetCgroupV2(cgroup) =>
          var xtmatch := CgroupMatch(cgroup);
          var rules := DelCgroup(cgroupMark.rules, xtmatch);
          cgroupMark := cgroupMark.(rules := rules);
          rules := DelCgroup(cgroupNat.rules, xtmatch);
          cgroupNat := cgroupNat.(rules := rules);
      }
      calls := calls + [op];
      assert View() == Apply(old(View()), op);
      hide Apply;
      if old(Up()) && ProperPaths([op]) {
        assert op == [op][0];
        OneMoreCall(fwmark, tunnel, old(calls), op);
        FirewallEnforces(fwmark, tunnel, calls);
      }
    }

    lemma Unmarked(x: Ctx, cgroup: Bytes)
      requires x.fwmark == 0
      ensures MarkCgroup(x, cgroup) == x
    {
    }
  }

  /** The loop of nftDelCgroup2xt. */
  method DelCgroup(rules: seq<Rule>, e: Expr) returns (left: seq<Rule>)
    ensures left == WithoutMatch(rules, e)
  {
    left := [];
    for i := 0 to |rules|
      invariant left == WithoutMatch(rules[..i], e)
    {
      assert rules[..i + 1][..i] == rules[..i];
      if |rules[i]| == 0 || rules[i][0] != e {
        left := left + [rules[i]];
      }
    }
    assert rules[..|rules|] == rules;
  }
}
