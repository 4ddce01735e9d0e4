/** What the rules of `GuestNetwork` do to every packet that enters by the tap. */
module GuestPolicy {
  import opened Common
  import opened PacketFilter
  import opened GuestNetwork

  // ----- The path of a packet -----

  /** Only the first packet of a connection sees the nat table; a redirection is to the tap's own address. */
  function AfterNat(nat_: Table, host: Ip, p: Packet, depth: nat): Packet
    requires "PREROUTING" in nat_
  {
    if !p.tracking.New? then p
    else
      var v := Evaluate(nat_, nat_["PREROUTING"], p, depth);
      if v.Redirected? then p.(dst := host, dport := v.port) else p
  }

  /** Local delivery goes through INPUT, anything else would be forwarded and goes through FORWARD. */
  function Route(local: set<Ip>, p: Packet): string {
    if p.dst in local then "INPUT" else "FORWARD"
  }

  function Filtered(filter: Table, local: set<Ip>, p: Packet, depth: nat): Verdict
    requires "INPUT" in filter && "FORWARD" in filter
  {
    Evaluate(filter, filter[Route(local, p)], p, depth)
  }

  // ----- The policy -----

  predicate Tracked(p: Packet) {
    p.tracking.Established? || p.tracking.Related?
  }

  predicate Allowed(host: Ip, ports: seq<nat>, p: Packet) {
    || Tracked(p)
    || (p.dst == host && p.protocol.Tcp? && (p.dport in ports || p.dport == 53))
    || (p.dst == host && p.protocol.Udp? && p.dport == 53)
  }

  lemma {:induction false} PortsPolicy(t: Table, host: Ip, ports: seq<nat>, p: Packet, depth: nat)
    ensures Evaluate(t, AcceptPorts(host, ports), p, depth)
         == if p.dst == host && p.protocol.Tcp? && p.dport in ports then Accepted else Undecided
    decreases ports
  {
    if ports != [] {
      var before, last := ports[..|ports| - 1], ports[|ports| - 1];
      PortsPolicy(t, host, before, p, depth);
      EvaluateConcat(t, AcceptPorts(host, before), [AcceptPort(Tcp, host, last)], p, depth);
      EvaluateOne(t, AcceptPort(Tcp, host, last), p, depth);
      assert ports == before + [last];
    }
  }

  lemma EvaluateOne(t: Table, r: Rule, p: Packet, depth: nat)
    requires !r.target.Jump?
    ensures Evaluate(t, [r], p, depth) ==
            if !r.Matches(p) then Undecided
            else match r.target
                 case Accept => Accepted
                 case Drop => Dropped
                 case Redirect(port) => Redirected(port)
  {
    assert [r][1..] == [];
  }

  /** The dedicated chain decides on every packet, and accepts exactly the allowed ones. */
  lemma ChainPolicy(t: Table, host: Ip, ports: seq<nat>, p: Packet, depth: nat)
    ensures Evaluate(t, DedicatedChain(host, ports), p, depth) == if Allowed(host, ports, p) then Accepted else Dropped
  {
    var udp, tcp := AcceptPort(Udp, host, DNS), AcceptPort(Tcp, host, DNS);
    var open := [TRACKED] + AcceptPorts(host, ports);
    EvaluateConcat(t, [TRACKED], AcceptPorts(host, ports), p, depth);
    EvaluateConcat(t, open, [udp], p, depth);
    EvaluateConcat(t, open + [udp], [tcp], p, depth);
    EvaluateConcat(t, open + [udp] + [tcp], [DROP_ALL], p, depth);
    EvaluateOne(t, TRACKED, p, depth);
    PortsPolicy(t, host, ports, p, depth);
    EvaluateOne(t, udp, p, depth);
    EvaluateOne(t, tcp, p, depth);
    EvaluateOne(t, DROP_ALL, p, depth);
  }

  // ----- Over the tables of before -----

  /** iptables does not let a rule jump to a built-in chain. */
  predicate NoJumpTo(t: Table, chains: set<string>) {
    forall c | c in t :: Avoids(t[c], chains)
  }

  function Touched(at: Place): set<string> {
    {at.chain, at.hookIn, at.blockIn}
  }

  lemma Unaffected(before: Table, at: Place, own: Own, chain: string, p: Packet, depth: nat)
    requires Clean(before, at) && NoJumpTo(before, {at.hookIn, at.blockIn}) && chain in before
    ensures Evaluate(With(before, at, own), before[chain], p, depth) == Evaluate(before, before[chain], p, depth)
  {
    forall c | c in before ensures Avoids(before[c], Touched(at)) {
      assert !JumpsTo(before[c], at.chain);
      assert Avoids(before[c], {at.hookIn, at.blockIn});
    }
    EvaluateFrame(before, With(before, at, own), Touched(at), before[chain], p, depth);
  }

  /** A packet the tables of before leave undecided meets the rules of the tap. */
  lemma HookedVerdict(before: Table, at: Place, own: Own, p: Packet, depth: nat)
    requires Clean(before, at) && NoJumpTo(before, {at.hookIn, at.blockIn})
    requires own.rules.Some? && own.hooked && (at.hookIn == at.blockIn ==> !own.blocked)
    requires depth > 0 && at.hook.Matches(p) && Evaluate(before, before[at.hookIn], p, depth) == Undecided
    ensures var t := With(before, at, own);
            at.hookIn in t && Evaluate(t, t[at.hookIn], p, depth) == Evaluate(t, own.rules.value, p, depth - 1)
  {
    var t := With(before, at, own);
    assert t[at.hookIn] == before[at.hookIn] + [at.hook] by {
      assert before[at.hookIn] + [at.hook] + [] == before[at.hookIn] + [at.hook];
    }
    Unaffected(before, at, own, at.hookIn, p, depth);
    EvaluateConcat(t, before[at.hookIn], [at.hook], p, depth);
    assert [at.hook][1..] == [];
    assert t[at.chain] == own.rules.value;
  }

  lemma BlockedVerdict(before: Table, at: Place, own: Own, p: Packet, depth: nat)
    requires Clean(before, at) && NoJumpTo(before, {at.hookIn, at.blockIn}) && at.hookIn != at.blockIn
    requires own.blocked && at.block.Matches(p) && at.block.target.Drop?
    requires Evaluate(before, before[at.blockIn], p, depth) == Undecided
    ensures var t := With(before, at, own);
            at.blockIn in t && Evaluate(t, t[at.blockIn], p, depth) == Dropped
  {
    var t := With(before, at, own);
    assert t[at.blockIn] == before[at.blockIn] + [at.block];
    Unaffected(before, at, own, at.blockIn, p, depth);
    EvaluateConcat(t, before[at.blockIn], [at.block], p, depth);
    EvaluateOne(t, at.block, p, depth);
  }

  /** What does not come from the tap is none of its business: every chain of before decides as before. */
  lemma OthersAreUnaffected(before: Table, at: Place, own: Own, chain: string, p: Packet, depth: nat)
    requires Clean(before, at) && NoJumpTo(before, {at.hookIn, at.blockIn}) && chain in before
    requires !at.hook.Matches(p) && !at.block.Matches(p)
    ensures var t := With(before, at, own);
            chain in t && Evaluate(t, t[chain], p, depth) == Evaluate(before, before[chain], p, depth)
  {
    var t := With(before, at, own);
    Unaffected(before, at, own, chain, p, depth);
    var hooks, blocks := If(own.hooked && chain == at.hookIn, at.hook), If(own.blocked && chain == at.blockIn, at.block);
    assert t[chain] == before[chain] + (hooks + blocks);
    EvaluateConcat(t, before[chain], hooks + blocks, p, depth);
    EvaluateConcat(t, hooks, blocks, p, depth);
  }

  // ----- Main results -----

  /** The table of a tap that is set up. */
  predicate SetUp(filter: Table, before: Table, tap: string, rules: seq<Rule>) {
    && Clean(before, FilterPlace(tap)) && NoJumpTo(before, {"INPUT", "FORWARD"})
    && filter == With(before, FilterPlace(tap), Own(Some(rules), true, true))
  }

  /** The tables of before say nothing about this packet. */
  predicate LeftOpen(before: Table, local: set<Ip>, p: Packet, depth: nat) {
    "INPUT" in before && "FORWARD" in before && Filtered(before, local, p, depth) == Undecided
  }

  /** Once set up, a packet from the tap is accepted exactly when it is local and allowed; nothing is forwarded. */
  lemma FilterPolicy(filter: Table, before: Table, tap: string, host: Ip, ports: seq<nat>, local: set<Ip>, p: Packet, depth: nat)
    requires SetUp(filter, before, tap, DedicatedChain(host, ports))
    requires depth > 0 && p.iface == tap && LeftOpen(before, local, p, depth)
    ensures "INPUT" in filter && "FORWARD" in filter
    ensures Filtered(filter, local, p, depth)
         == if p.dst in local && Allowed(host, ports, p) then Accepted else Dropped
  {
    var own := Own(Some(DedicatedChain(host, ports)), true, true);
    if p.dst in local {
      HookedVerdict(before, FilterPlace(tap), own, p, depth);
      ChainPolicy(filter, host, ports, p, depth - 1);
    } else {
      BlockedVerdict(before, FilterPlace(tap), own, p, depth);
    }
  }

  /** After a lockdown nothing from the tap passes, connections already open included. */
  lemma LockdownDropsEverything(filter: Table, before: Table, tap: string, rules: seq<Rule>, local: set<Ip>, p: Packet, depth: nat)
    requires SetUp(filter, before, tap, [DROP_ALL] + rules)
    requires depth > 0 && p.iface == tap && LeftOpen(before, local, p, depth)
    ensures "INPUT" in filter && "FORWARD" in filter
    ensures Filtered(filter, local, p, depth) == Dropped
  {
    var own := Own(Some([DROP_ALL] + rules), true, true);
    if p.dst in local {
      HookedVerdict(before, FilterPlace(tap), own, p, depth);
      EvaluateConcat(filter, [DROP_ALL], rules, p, depth - 1);
      EvaluateOne(filter, DROP_ALL, p, depth - 1);
    } else {
      BlockedVerdict(before, FilterPlace(tap), own, p, depth);
    }
  }

  predicate NatSetUp(nat_: Table, before: Table, tap: string, httpPort: nat, tlsPort: nat) {
    && Clean(before, NatPlace(tap)) && NoJumpTo(before, {"PREROUTING"})
    && nat_ == With(before, NatPlace(tap), Own(Some(NatChain(httpPort, tlsPort)), true, false))
  }

  /** Where a new connection of the guest ends up. */
  function Redirection(httpPort: nat, tlsPort: nat, p: Packet): Verdict {
    if p.protocol.Tcp? && p.dport == 80 then Redirected(httpPort)
    else if p.protocol.Tcp? && p.dport == 443 then Redirected(tlsPort)
    else if !p.protocol.OtherProtocol? && p.dport == 53 then Redirected(53)
    else Undecided
  }

  lemma NatChainPolicy(t: Table, httpPort: nat, tlsPort: nat, p: Packet, depth: nat)
    ensures Evaluate(t, NatChain(httpPort, tlsPort), p, depth) == Redirection(httpPort, tlsPort, p)
  {
    var a, b := RedirectPort(Tcp, 80, httpPort), RedirectPort(Tcp, 443, tlsPort);
    var c, d := RedirectPort(Udp, DNS, DNS), RedirectPort(Tcp, DNS, DNS);
    EvaluateConcat(t, [a], [b], p, depth);
    EvaluateConcat(t, [a] + [b], [c], p, depth);
    EvaluateConcat(t, [a] + [b] + [c], [d], p, depth);
    EvaluateOne(t, a, p, depth);
    EvaluateOne(t, b, p, depth);
    EvaluateOne(t, c, p, depth);
    EvaluateOne(t, d, p, depth);
  }

  lemma NatPolicy(nat_: Table, before: Table, tap: string, host: Ip, httpPort: nat, tlsPort: nat, p: Packet, depth: nat)
    requires NatSetUp(nat_, before, tap, httpPort, tlsPort)
    requires depth > 0 && p.iface == tap && Evaluate(before, before["PREROUTING"], p, depth) == Undecided
    ensures "PREROUTING" in nat_
    ensures AfterNat(nat_, host, p, depth) ==
            var v := Redirection(httpPort, tlsPort, p);
            if p.tracking.New? && v.Redirected? then p.(dst := host, dport := v.port) else p
  {
    HookedVerdict(before, NatPlace(tap), Own(Some(NatChain(httpPort, tlsPort)), true, false), p, depth);
    NatChainPolicy(nat_, httpPort, tlsPort, p, depth - 1);
  }

  /** What a guest may reach, said of the packet it sends. */
  predicate GatewayAllows(host: Ip, ports: seq<nat>, local: set<Ip>, p: Packet) {
    if p.tracking.New? then
      || (p.protocol.Tcp? && (p.dport == 80 || p.dport == 443 || p.dport == 53))
      || (p.protocol.Udp? && p.dport == 53)
      || (p.protocol.Tcp? && p.dst == host && p.dport in ports)
    else p.dst in local && Allowed(host, ports, p)
  }

  /**
    * The transparent gateway: web and DNS traffic is accepted whatever its destination, everything
    * else only towards the ports of `net-proxy`; the rest is dropped, never forwarded.
    */
  lemma GatewayPolicy(filter: Table, nat_: Table, before: Table, natBefore: Table, tap: string, host: Ip,
                      ports: seq<nat>, httpPort: nat, tlsPort: nat, local: set<Ip>, p: Packet, depth: nat)
    requires httpPort in ports && tlsPort in ports && host in local
    requires SetUp(filter, before, tap, DedicatedChain(host, ports)) && NatSetUp(nat_, natBefore, tap, httpPort, tlsPort)
    requires depth > 0 && p.iface == tap && Evaluate(natBefore, natBefore["PREROUTING"], p, depth) == Undecided
    requires "PREROUTING" in nat_ && LeftOpen(before, local, AfterNat(nat_, host, p, depth), depth)
    ensures "INPUT" in filter && "FORWARD" in filter
    ensures Filtered(filter, local, AfterNat(nat_, host, p, depth), depth)
         == if GatewayAllows(host, ports, local, p) then Accepted else Dropped
  {
    NatPolicy(nat_, natBefore, tap, host, httpPort, tlsPort, p, depth);
    FilterPolicy(filter, before, tap, host, ports, local, AfterNat(nat_, host, p, depth), depth);
  }

  // ----- From the commands to the packets -----

  /** The ports that a gateway is enabled with. */
  datatype Gateway = Gateway(netProxyPort: nat, httpPort: nat, tlsPort: nat, metadataPort: Option<nat>) {
    predicate Opens(port: nat) {
      port == netProxyPort || port == httpPort || port == tlsPort || metadataPort == Some(port)
    }

    /** Where a packet of the guest arrives: a new connection for the web or for DNS is taken to the host. */
    function Arrival(host: Ip, p: Packet): Packet {
      if !p.tracking.New? then p
      else if p.protocol.Tcp? && p.dport == 80 then p.(dst := host, dport := httpPort)
      else if p.protocol.Tcp? && p.dport == 443 then p.(dst := host, dport := tlsPort)
      else if (p.protocol.Tcp? || p.protocol.Udp?) && p.dport == 53 then p.(dst := host)
      else p
    }

    /** What a guest may reach, said of the packet it sends. */
    predicate Lets(host: Ip, local: set<Ip>, p: Packet) {
      if p.tracking.New? then
        || (p.protocol.Tcp? && (p.dport == 80 || p.dport == 443 || p.dport == 53 || (p.dst == host && Opens(p.dport))))
        || (p.protocol.Udp? && p.dport == 53)
      else
        p.dst in local &&
        (|| p.tracking.Established? || p.tracking.Related?
         || (p.dst == host && p.protocol.Tcp? && (Opens(p.dport) || p.dport == 53))
         || (p.dst == host && p.protocol.Udp? && p.dport == 53))
    }
  }

  lemma GatewayOpens(g: Gateway, port: nat)
    ensures port in GatewayPorts(g.netProxyPort, g.httpPort, g.tlsPort, g.metadataPort) <==> g.Opens(port)
  {
    var ports := GatewayPorts(g.netProxyPort, g.httpPort, g.tlsPort, g.metadataPort);
    assert ports[0] == g.netProxyPort && ports[1] == g.httpPort && ports[2] == g.tlsPort;
    assert g.metadataPort.Some? ==> ports[3] == g.metadataPort.value;
  }

  /** The gateway policy for one packet, over tables that leave it open. */
  predicate GatewayHolds(filter: Table, nat_: Table, before: Table, natBefore: Table, tap: string, host: Ip,
                         g: Gateway, local: set<Ip>, p: Packet, depth: nat)
  {
    && "PREROUTING" in nat_ && "PREROUTING" in natBefore && "INPUT" in filter && "FORWARD" in filter
    && (depth > 0 && p.iface == tap && Evaluate(natBefore, natBefore["PREROUTING"], p, depth) == Undecided ==>
          && AfterNat(nat_, host, p, depth) == g.Arrival(host, p)
          && (host in local && LeftOpen(before, local, g.Arrival(host, p), depth) ==>
                Filtered(filter, local, g.Arrival(host, p), depth) == if g.Lets(host, local, p) then Accepted else Dropped))
  }

  /** A packet from elsewhere is redirected and filtered as it was before. */
  predicate ElsewhereHolds(filter: Table, nat_: Table, before: Table, natBefore: Table, tap: string, host: Ip,
                           local: set<Ip>, p: Packet, depth: nat)
  {
    && "PREROUTING" in nat_ && "PREROUTING" in natBefore
    && "INPUT" in filter && "FORWARD" in filter && "INPUT" in before && "FORWARD" in before
    && (p.iface != tap ==>
          && AfterNat(nat_, host, p, depth) == AfterNat(natBefore, host, p, depth)
          && Filtered(filter, local, p, depth) == Filtered(before, local, p, depth))
  }

  /** Whatever a tap has in the tables, and however much of it, packets from elsewhere are treated as before. */
  lemma ElsewhereIsUntouched(before: Table, natBefore: Table, tap: string, own: Own, natOwn: Own, host: Ip,
                             local: set<Ip>, p: Packet, depth: nat)
    requires Clean(before, FilterPlace(tap)) && NoJumpTo(before, {"INPUT", "FORWARD"})
    requires Clean(natBefore, NatPlace(tap)) && NoJumpTo(natBefore, {"PREROUTING"})
    ensures ElsewhereHolds(With(before, FilterPlace(tap), own), With(natBefore, NatPlace(tap), natOwn), before, natBefore,
                           tap, host, local, p, depth)
  {
    if p.iface != tap {
      OthersAreUnaffected(before, FilterPlace(tap), own, Route(local, p), p, depth);
      OthersAreUnaffected(natBefore, NatPlace(tap), natOwn, "PREROUTING", p, depth);
    }
  }

  /** Once the gateway is enabled, the policy holds of every packet. */
  method SetUpGateway(net: NetworkSetup, netProxyPort: nat, httpPort: nat, tlsPort: nat, metadataPort: Option<nat>)
    returns (ok: bool)
    requires net.Valid()
    requires NoJumpTo(net.filterBefore, {"INPUT", "FORWARD"}) && NoJumpTo(net.natBefore, {"PREROUTING"})
    modifies net`filter, net`own, net`nat_, net`natOwn
    ensures net.Valid()
    ensures ok ==>
              forall local: set<Ip>, p: Packet, depth: nat ::
                GatewayHolds(net.filter, net.nat_, net.filterBefore, net.natBefore, net.tap, net.hostIp,
                             Gateway(netProxyPort, httpPort, tlsPort, metadataPort), local, p, depth)
    ensures forall local: set<Ip>, p: Packet, depth: nat ::
              ElsewhereHolds(net.filter, net.nat_, net.filterBefore, net.natBefore, net.tap, net.hostIp, local, p, depth)
  {
    ok := net.EnableTransparentGateway(netProxyPort, httpPort, tlsPort, metadataPort);
    forall local: set<Ip>, p: Packet, depth: nat
      ensures ElsewhereHolds(net.filter, net.nat_, net.filterBefore, net.natBefore, net.tap, net.hostIp, local, p, depth)
    {
      ElsewhereIsUntouched(net.filterBefore, net.natBefore, net.tap, net.own, net.natOwn, net.hostIp, local, p, depth);
    }
    if ok {
      ghost var g := Gateway(netProxyPort, httpPort, tlsPort, metadataPort);
      forall local: set<Ip>, p: Packet, depth: nat
        ensures GatewayHolds(net.filter, net.nat_, net.filterBefore, net.natBefore, net.tap, net.hostIp, g, local, p, depth)
      {
        HoldsOfPacket(net.filter, net.nat_, net.filterBefore, net.natBefore, net.tap, net.hostIp, g, local, p, depth);
      }
    }
  }

  lemma HoldsOfPacket(filter: Table, nat_: Table, before: Table, natBefore: Table, tap: string, host: Ip,
                      g: Gateway, local: set<Ip>, p: Packet, depth: nat)
    requires SetUp(filter, before, tap, DedicatedChain(host, GatewayPorts(g.netProxyPort, g.httpPort, g.tlsPort, g.metadataPort)))
    requires NatSetUp(nat_, natBefore, tap, g.httpPort, g.tlsPort)
    ensures GatewayHolds(filter, nat_, before, natBefore, tap, host, g, local, p, depth)
  {
    var ports := GatewayPorts(g.netProxyPort, g.httpPort, g.tlsPort, g.metadataPort);
    if depth > 0 && p.iface == tap && Evaluate(natBefore, natBefore["PREROUTING"], p, depth) == Undecided {
      NatPolicy(nat_, natBefore, tap, host, g.httpPort, g.tlsPort, p, depth);
      if host in local && LeftOpen(before, local, g.Arrival(host, p), depth) {
        GatewayOpens(g, g.httpPort);
        GatewayOpens(g, g.tlsPort);
        GatewayOpens(g, p.dport);
        GatewayPolicy(filter, nat_, before, natBefore, tap, host, ports, g.httpPort, g.tlsPort, local, p, depth);
      }
    }
  }

  /** The policy without redirection, for one packet. */
  predicate ProxyHolds(filter: Table, before: Table, tap: string, host: Ip, port: nat, local: set<Ip>, p: Packet, depth: nat) {
    && "INPUT" in filter && "FORWARD" in filter
    && (depth > 0 && p.iface == tap && LeftOpen(before, local, p, depth) ==>
          Filtered(filter, local, p, depth) ==
          if p.dst in local &&
             (|| p.tracking.Established? || p.tracking.Related?
              || (p.dst == host && p.protocol.Tcp? && (p.dport == port || p.dport == 53))
              || (p.dst == host && p.protocol.Udp? && p.dport == 53))
          then Accepted else Dropped)
  }

  /** Restricted to the proxy, a guest reaches its port and DNS on the host, and nothing else. */
  method SetUpProxy(net: NetworkSetup, port: nat) returns (ok: bool)
    requires net.Valid() && NoJumpTo(net.filterBefore, {"INPUT", "FORWARD"})
    modifies net`filter, net`own
    ensures net.Valid()
    ensures ok ==>
              forall local: set<Ip>, p: Packet, depth: nat ::
                ProxyHolds(net.filter, net.filterBefore, net.tap, net.hostIp, port, local, p, depth)
  {
    ok := net.RestrictToNetProxy(port);
    if ok {
      forall local: set<Ip>, p: Packet, depth: nat
        ensures ProxyHolds(net.filter, net.filterBefore, net.tap, net.hostIp, port, local, p, depth)
      {
        if depth > 0 && p.iface == net.tap && LeftOpen(net.filterBefore, local, p, depth) {
          FilterPolicy(net.filter, net.filterBefore, net.tap, net.hostIp, [port], local, p, depth);
        }
      }
    }
  }

  /** A packet from the tap that the tables of before leave open is dropped. */
  predicate DropsPacket(filter: Table, before: Table, tap: string, local: set<Ip>, p: Packet, depth: nat) {
    && "INPUT" in filter && "FORWARD" in filter
    && (depth > 0 && p.iface == tap && LeftOpen(before, local, p, depth) ==> Filtered(filter, local, p, depth) == Dropped)
  }

  /** From the commands to the packets: after any number of lockdowns, one at least, every packet is dropped. */
  method LockDown(net: NetworkSetup, times: nat) returns (ok: bool)
    requires net.Valid() && net.own.rules.Some? && net.own.hooked && net.own.blocked && times > 0
    requires NoJumpTo(net.filterBefore, {"INPUT", "FORWARD"})
    modifies net`filter, net`own
    ensures net.Valid()
    ensures ok ==>
              forall local: set<Ip>, p: Packet, depth: nat ::
                DropsPacket(net.filter, net.filterBefore, net.tap, local, p, depth)
  {
    for i := 0 to times
      invariant net.Valid() && net.own.rules.Some? && net.own.hooked && net.own.blocked
      invariant i > 0 ==> net.own.rules.value != [] && net.own.rules.value[0] == DROP_ALL
    {
      ok := net.LockdownEgress();
      if !ok {
        return;
      }
    }
    ok := true;
    ghost var rules := net.own.rules.value[1..];
    assert net.own.rules.value == [DROP_ALL] + rules;
    forall local: set<Ip>, p: Packet, depth: nat
      ensures DropsPacket(net.filter, net.filterBefore, net.tap, local, p, depth)
    {
      DropsOfPacket(net.filter, net.filterBefore, net.tap, rules, local, p, depth);
    }
  }

  lemma DropsOfPacket(filter: Table, before: Table, tap: string, rules: seq<Rule>, local: set<Ip>, p: Packet, depth: nat)
    requires SetUp(filter, before, tap, [DROP_ALL] + rules)
    ensures DropsPacket(filter, before, tap, local, p, depth)
  {
    if depth > 0 && p.iface == tap && LeftOpen(before, local, p, depth) {
      LockdownDropsEverything(filter, before, tap, rules, local, p, depth);
    }
  }
}
