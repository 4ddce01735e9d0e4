/** The packet filter around one microVM (crates/firecracker/src/network.rs). */
module GuestNetwork {
  import opened Common
  import opened PacketFilter

  const DNS: nat := 53

  // ----- The rules -----

  const ANY := Rule(None, None, None, None, false, Accept)

  function ChainName(tap: string): string {
    "atelier-vm-" + tap
  }

  function NatChainName(tap: string): string {
    "atelier-vm-nat-" + tap
  }

  const TRACKED := ANY.(onlyTracked := true)
  const DROP_ALL := ANY.(target := Drop)

  function AcceptPort(protocol: Protocol, host: Ip, port: nat): Rule {
    ANY.(protocol := Some(protocol), dst := Some(host), dport := Some(port))
  }

  function AcceptPorts(host: Ip, ports: seq<nat>): seq<Rule> {
    if ports == [] then [] else AcceptPorts(host, ports[..|ports| - 1]) + [AcceptPort(Tcp, host, ports[|ports| - 1])]
  }

  function DedicatedChain(host: Ip, ports: seq<nat>): seq<Rule> {
    [TRACKED] + AcceptPorts(host, ports) + [AcceptPort(Udp, host, DNS)] + [AcceptPort(Tcp, host, DNS)] + [DROP_ALL]
  }

  function RedirectPort(protocol: Protocol, port: nat, to: nat): Rule {
    ANY.(protocol := Some(protocol), dport := Some(port), target := Redirect(to))
  }

  function NatChain(httpPort: nat, tlsPort: nat): seq<Rule> {
    [RedirectPort(Tcp, 80, httpPort)] + [RedirectPort(Tcp, 443, tlsPort)] +
    [RedirectPort(Udp, DNS, DNS)] + [RedirectPort(Tcp, DNS, DNS)]
  }

  function GatewayPorts(netProxyPort: nat, httpPort: nat, tlsPort: nat, metadataPort: Option<nat>): seq<nat> {
    [netProxyPort, httpPort, tlsPort] + if metadataPort.Some? then [metadataPort.value] else []
  }

  function FromTap(tap: string, target: Target): Rule {
    ANY.(iface := Some(tap), target := target)
  }

  lemma {:induction false} AcceptPortsPrefix(host: Ip, ports: seq<nat>, i: nat)
    requires i <= |ports|
    ensures AcceptPorts(host, ports[..i]) <= AcceptPorts(host, ports)
    decreases |ports|
  {
    if i < |ports| {
      AcceptPortsPrefix(host, ports[..|ports| - 1], i);
      assert ports[..|ports| - 1][..i] == ports[..i];
    } else {
      assert ports[..i] == ports;
    }
  }

  lemma NextPort(host: Ip, ports: seq<nat>, i: nat)
    requires i < |ports|
    ensures [TRACKED] + AcceptPorts(host, ports[..i + 1])
         == [TRACKED] + AcceptPorts(host, ports[..i]) + [AcceptPort(Tcp, host, ports[i])]
    ensures [TRACKED] + AcceptPorts(host, ports[..i + 1]) <= DedicatedChain(host, ports)
  {
    AcceptPortsPrefix(host, ports, i + 1);
    assert ports[..i + 1][..i] == ports[..i];
  }

  // ----- What a tap leaves in a table -----

  /** Where the rules of a tap go: its own chain, the rule that leads there, the rule that forbids transit. */
  datatype Place = Place(chain: string, hookIn: string, hook: Rule, blockIn: string, block: Rule)

  function FilterPlace(tap: string): Place {
    Place(ChainName(tap), "INPUT", FromTap(tap, Jump(ChainName(tap))), "FORWARD", FromTap(tap, Drop))
  }

  /** The nat table never gets the second rule. */
  function NatPlace(tap: string): Place {
    Place(NatChainName(tap), "PREROUTING", FromTap(tap, Jump(NatChainName(tap))), "PREROUTING", FromTap(tap, Drop))
  }

  /** How much of it is there. */
  datatype Own = Own(rules: Option<seq<Rule>>, hooked: bool, blocked: bool)

  const NOTHING := Own(None, false, false)

  /** Nothing in `t` is about this place. */
  predicate Clean(t: Table, at: Place) {
    && at.chain !in t && at.hookIn in t && at.blockIn in t
    && at.hook !in t[at.hookIn] && at.block !in t[at.blockIn]
    && !Referenced(t, at.chain)
    && at.hook.target == Jump(at.chain) && at.hook != at.block && !at.block.target.Jump?
  }

  predicate NoJumps(rules: seq<Rule>) {
    forall r | r in rules :: !r.target.Jump?
  }

  predicate OwnOk(own: Own) {
    && (own.rules.Some? ==> NoJumps(own.rules.value))
    && (own.rules.None? ==> !own.hooked && !own.blocked)
  }

  function If(b: bool, r: Rule): seq<Rule> {
    if b then [r] else []
  }

  /** The table `before` with what the tap has put in it. */
  function With(before: Table, at: Place, own: Own): Table
    requires Clean(before, at)
  {
    var t := before[at.hookIn := before[at.hookIn] + If(own.hooked, at.hook)];
    var u := t[at.blockIn := t[at.blockIn] + If(own.blocked, at.block)];
    if own.rules.Some? then u[at.chain := own.rules.value] else u
  }

  lemma WithNothing(before: Table, at: Place)
    requires Clean(before, at)
    ensures With(before, at, NOTHING) == before
  {
    assert before[at.hookIn] + [] == before[at.hookIn];
    assert before[at.blockIn] + [] == before[at.blockIn];
    assert before[at.hookIn := before[at.hookIn]] == before;
    assert before[at.blockIn := before[at.blockIn]] == before;
  }

  /** What `c` makes of `own`, on any table. */
  predicate Does(before: Table, at: Place, own: Own, c: Command, after: Option<Own>)
    requires Clean(before, at)
  {
    match Apply(With(before, at, own), c)
    case None => after.None?
    case Some(t) => after.Some? && t == With(before, at, after.value)
  }

  lemma NewChainDoes(before: Table, at: Place, own: Own)
    requires Clean(before, at)
    ensures Does(before, at, own, NewChain(at.chain),
                 if own.rules.Some? then None else Some(own.(rules := Some([]))))
  {
  }

  lemma AppendDoes(before: Table, at: Place, own: Own, r: Rule)
    requires Clean(before, at) && own.rules.Some? && !r.target.Jump?
    ensures Does(before, at, own, Append(at.chain, r), Some(own.(rules := Some(own.rules.value + [r]))))
  {
  }

  lemma InsertDoes(before: Table, at: Place, own: Own, r: Rule)
    requires Clean(before, at) && !r.target.Jump?
    ensures Does(before, at, own, Insert(at.chain, r),
                 if own.rules.None? then None else Some(own.(rules := Some([r] + own.rules.value))))
  {
  }

  lemma HookDoes(before: Table, at: Place, own: Own)
    requires Clean(before, at) && own.rules.Some? && !own.hooked && !own.blocked
    ensures Does(before, at, own, Append(at.hookIn, at.hook), Some(own.(hooked := true)))
  {
    assert before[at.hookIn] + [] == before[at.hookIn] && before[at.blockIn] + [] == before[at.blockIn];
    assert before[at.hookIn] + [at.hook] + [] == before[at.hookIn] + [at.hook];
    assert before[at.hookIn := before[at.hookIn]] == before;
  }

  lemma BlockDoes(before: Table, at: Place, own: Own)
    requires Clean(before, at) && !own.blocked
    ensures Does(before, at, own, Append(at.blockIn, at.block), Some(own.(blocked := true)))
  {
    var t := before[at.hookIn := before[at.hookIn] + If(own.hooked, at.hook)];
    assert t[at.blockIn] + [] == t[at.blockIn];
  }

  lemma {:induction false} RemoveLast(rules: seq<Rule>, r: Rule)
    requires r !in rules
    ensures RemoveFirst(rules + [r], r) == rules
  {
    if rules == [] {
      assert [] + [r] == [r];
    } else {
      assert (rules + [r])[1..] == rules[1..] + [r];
      RemoveLast(rules[1..], r);
    }
  }

  lemma UnhookDoes(before: Table, at: Place, own: Own)
    requires Clean(before, at) && (at.hookIn == at.blockIn ==> !own.blocked)
    ensures Does(before, at, own, Delete(at.hookIn, at.hook), if own.hooked then Some(own.(hooked := false)) else None)
  {
    RemoveLast(before[at.hookIn], at.hook);
    assert before[at.hookIn] + [] == before[at.hookIn];
    assert before[at.hookIn] + [at.hook] + [] == before[at.hookIn] + [at.hook];
  }

  lemma UnblockDoes(before: Table, at: Place, own: Own)
    requires Clean(before, at) && !own.hooked
    ensures Does(before, at, own, Delete(at.blockIn, at.block), if own.blocked then Some(own.(blocked := false)) else None)
  {
    RemoveLast(before[at.blockIn], at.block);
    assert before[at.hookIn] + [] == before[at.hookIn];
    assert before[at.blockIn] + [] == before[at.blockIn];
  }

  lemma FlushDoes(before: Table, at: Place, own: Own)
    requires Clean(before, at)
    ensures Does(before, at, own, Flush(at.chain), if own.rules.Some? then Some(own.(rules := Some([]))) else None)
  {
  }

  lemma DeleteChainDoes(before: Table, at: Place, own: Own)
    requires Clean(before, at) && !own.hooked && (own.rules.Some? ==> own.rules.value == [])
    ensures Does(before, at, own, DeleteChain(at.chain), if own.rules.Some? then Some(own.(rules := None)) else None)
  {
    var t := With(before, at, own);
    forall c | c in t ensures !JumpsTo(t[c], at.chain) {
      if c in before {
        assert !JumpsTo(before[c], at.chain);
      }
    }
    if own.rules.Some? {
      assert t - {at.chain} == With(before, at, own.(rules := None));
    }
  }

  // ----- Setting up, locking down, tearing down -----

  /** No chain of `t` is, or leads to, that of this tap, and no rule is about the tap. */
  predicate Unmentioned(t: Table, tap: string, chain: string) {
    chain !in t && forall c | c in t :: forall r | r in t[c] :: r.iface != Some(tap) && r.target != Jump(chain)
  }

  lemma UnmentionedIsClean(filter: Table, nat_: Table, tap: string)
    requires "INPUT" in filter && "FORWARD" in filter && "PREROUTING" in nat_
    requires Unmentioned(filter, tap, ChainName(tap)) && Unmentioned(nat_, tap, NatChainName(tap))
    ensures Clean(filter, FilterPlace(tap)) && Clean(nat_, NatPlace(tap))
  {
  }

  /** The first rules of a chain; only a whole chain is hooked, and only a hooked one goes with the block. */
  predicate PartOf(own: Own, chain: seq<Rule>) {
    && own.rules.Some? && own.rules.value <= chain
    && (own.hooked ==> own.rules.value == chain) && (own.blocked ==> own.hooked)
  }

  class NetworkSetup {
    const tap: string
    const hostIp: Ip
    var filter: Table
    var nat_: Table

    // The tables before this tap, and what it has put in them.
    ghost const filterBefore: Table
    ghost const natBefore: Table
    ghost var own: Own
    ghost var natOwn: Own

    ghost predicate Valid()
      reads this
    {
      && Clean(filterBefore, FilterPlace(tap)) && Clean(natBefore, NatPlace(tap))
      && filter == With(filterBefore, FilterPlace(tap), own) && nat_ == With(natBefore, NatPlace(tap), natOwn)
      && OwnOk(own) && OwnOk(natOwn) && !natOwn.blocked
    }

    constructor (tap: string, hostIp: Ip, filter: Table, nat_: Table)
      requires "INPUT" in filter && "FORWARD" in filter && "PREROUTING" in nat_
      requires Unmentioned(filter, tap, ChainName(tap)) && Unmentioned(nat_, tap, NatChainName(tap))
      ensures Valid() && this.filter == filterBefore == filter && this.nat_ == natBefore == nat_
      ensures this.tap == tap && this.hostIp == hostIp && own == NOTHING && natOwn == NOTHING
    {
      UnmentionedIsClean(filter, nat_, tap);
      WithNothing(filter, FilterPlace(tap));
      WithNothing(nat_, NatPlace(tap));
      this.tap, this.hostIp, this.filter, this.nat_ := tap, hostIp, filter, nat_;
      filterBefore, natBefore, own, natOwn := filter, nat_, NOTHING, NOTHING;
    }

    /** One iptables command on the filter table; it may also fail for reasons of its own. */
    method Iptables(c: Command, ghost after: Option<Own>) returns (ok: bool)
      requires Valid() && Does(filterBefore, FilterPlace(tap), own, c, after) && (after.Some? ==> OwnOk(after.value))
      modifies this`filter, this`own
      ensures Valid()
      ensures if ok then after.Some? && own == after.value else own == old(own)
    {
      var result := Apply(filter, c);
      ok := *;
      ok := ok && result.Some?;
      if ok {
        filter, own := result.value, after.value;
      }
    }

    method IptablesNat(c: Command, ghost after: Option<Own>) returns (ok: bool)
      requires Valid() && Does(natBefore, NatPlace(tap), natOwn, c, after)
      requires after.Some? ==> OwnOk(after.value) && !after.value.blocked
      modifies this`nat_, this`natOwn
      ensures Valid()
      ensures if ok then after.Some? && natOwn == after.value else natOwn == old(natOwn)
    {
      var result := Apply(nat_, c);
      ok := *;
      ok := ok && result.Some?;
      if ok {
        nat_, natOwn := result.value, after.value;
      }
    }

    /** Appends the next rule of `chain`. */
    method AppendOwn(r: Rule, ghost chain: seq<Rule>) returns (ok: bool)
      requires Valid() && PartOf(own, chain) && !own.hooked && own.rules.value + [r] <= chain && !r.target.Jump?
      modifies this`filter, this`own
      ensures Valid() && PartOf(own, chain) && !own.hooked
      ensures own.rules == if ok then Some(old(own).rules.value + [r]) else old(own).rules
    {
      AppendDoes(filterBefore, FilterPlace(tap), own, r);
      ok := Iptables(Append(ChainName(tap), r), Some(own.(rules := Some(own.rules.value + [r]))));
    }

    /** The rules for the ports. */
    method AppendPorts(ports: seq<nat>) returns (ok: bool)
      requires Valid() && own == Own(Some([TRACKED]), false, false)
      modifies this`filter, this`own
      ensures Valid() && PartOf(own, DedicatedChain(hostIp, ports)) && !own.hooked
      ensures ok ==> own.rules == Some([TRACKED] + AcceptPorts(hostIp, ports))
    {
      ghost var chain := DedicatedChain(hostIp, ports);
      assert [TRACKED] == [TRACKED] + AcceptPorts(hostIp, ports[..0]);
      for i := 0 to |ports|
        invariant Valid() && PartOf(own, chain) && !own.hooked
        invariant own.rules == Some([TRACKED] + AcceptPorts(hostIp, ports[..i]))
      {
        NextPort(hostIp, ports, i);
        ok := AppendOwn(AcceptPort(Tcp, hostIp, ports[i]), chain);
        if !ok {
          return;
        }
      }
      assert ports[..|ports|] == ports;
      ok := true;
    }

    /** The rest of the chain: DNS, and nothing else. */
    method AppendLast(ports: seq<nat>) returns (ok: bool)
      requires Valid() && PartOf(own, DedicatedChain(hostIp, ports)) && !own.hooked
      requires own.rules == Some([TRACKED] + AcceptPorts(hostIp, ports))
      modifies this`filter, this`own
      ensures Valid() && PartOf(own, DedicatedChain(hostIp, ports)) && !own.hooked
      ensures ok ==> own.rules == Some(DedicatedChain(hostIp, ports))
    {
      ghost var chain := DedicatedChain(hostIp, ports);
      ok := AppendOwn(AcceptPort(Udp, hostIp, DNS), chain);
      if !ok {
        return;
      }
      ok := AppendOwn(AcceptPort(Tcp, hostIp, DNS), chain);
      if !ok {
        return;
      }
      ok := AppendOwn(DROP_ALL, chain);
    }

    /** On failure the chain has its first rules, and is hooked only once it is whole. */
    method SetupDedicatedChain(ports: seq<nat>) returns (ok: bool)
      requires Valid()
      modifies this`filter, this`own
      ensures Valid()
      ensures ok ==> old(own).rules.None? && own == Own(Some(DedicatedChain(hostIp, ports)), true, true)
      ensures !ok ==> own == old(own) || PartOf(own, DedicatedChain(hostIp, ports))
    {
      ghost var chain := DedicatedChain(hostIp, ports);
      NewChainDoes(filterBefore, FilterPlace(tap), own);
      ok := Iptables(NewChain(ChainName(tap)), if own.rules.Some? then None else Some(own.(rules := Some([]))));
      if !ok {
        return;
      }
      assert [] + [TRACKED] == [TRACKED] <= chain;
      ok := AppendOwn(TRACKED, chain);
      if !ok {
        return;
      }
      ok := AppendPorts(ports);
      if !ok {
        return;
      }
      ok := AppendLast(ports);
      if !ok {
        return;
      }
      HookDoes(filterBefore, FilterPlace(tap), own);
      ok := Iptables(Append("INPUT", FromTap(tap, Jump(ChainName(tap)))), Some(own.(hooked := true)));
      if !ok {
        return;
      }
      BlockDoes(filterBefore, FilterPlace(tap), own);
      ok := Iptables(Append("FORWARD", FromTap(tap, Drop)), Some(own.(blocked := true)));
    }

    method RestrictToNetProxy(netProxyPort: nat) returns (ok: bool)
      requires Valid()
      modifies this`filter, this`own
      ensures Valid()
      ensures ok ==> own == Own(Some(DedicatedChain(hostIp, [netProxyPort])), true, true)
    {
      ok := SetupDedicatedChain([netProxyPort]);
    }

    method AppendNat(r: Rule) returns (ok: bool)
      requires Valid() && natOwn.rules.Some? && !r.target.Jump?
      modifies this`nat_, this`natOwn
      ensures Valid() && natOwn == if ok then old(natOwn).(rules := Some(old(natOwn).rules.value + [r])) else old(natOwn)
    {
      AppendDoes(natBefore, NatPlace(tap), natOwn, r);
      ok := IptablesNat(Append(NatChainName(tap), r), Some(natOwn.(rules := Some(natOwn.rules.value + [r]))));
    }

    method EnableTransparentGateway(netProxyPort: nat, httpPort: nat, tlsPort: nat, metadataPort: Option<nat>)
      returns (ok: bool)
      requires Valid()
      modifies this`filter, this`own, this`nat_, this`natOwn
      ensures Valid()
      ensures ok ==>
                && own == Own(Some(DedicatedChain(hostIp, GatewayPorts(netProxyPort, httpPort, tlsPort, metadataPort))), true, true)
                && natOwn == Own(Some(NatChain(httpPort, tlsPort)), true, false)
    {
      var ports := [netProxyPort, httpPort, tlsPort];
      if metadataPort.Some? {
        ports := ports + [metadataPort.value];
      }
      assert ports == GatewayPorts(netProxyPort, httpPort, tlsPort, metadataPort);
      ok := SetupDedicatedChain(ports);
      if !ok {
        return;
      }
      ok := SetupNatChain(httpPort, tlsPort);
    }

    method SetupNatChain(httpPort: nat, tlsPort: nat) returns (ok: bool)
      requires Valid()
      modifies this`nat_, this`natOwn
      ensures Valid()
      ensures ok ==> natOwn == Own(Some(NatChain(httpPort, tlsPort)), true, false)
    {
      NewChainDoes(natBefore, NatPlace(tap), natOwn);
      ok := IptablesNat(NewChain(NatChainName(tap)), if natOwn.rules.Some? then None else Some(natOwn.(rules := Some([]))));
      if !ok {
        return;
      }
      ok := AppendNat(RedirectPort(Tcp, 80, httpPort));
      if !ok {
        return;
      }
      ok := AppendNat(RedirectPort(Tcp, 443, tlsPort));
      if !ok {
        return;
      }
      assert [] + [RedirectPort(Tcp, 80, httpPort)] == [RedirectPort(Tcp, 80, httpPort)];
      ok := AppendNat(RedirectPort(Udp, DNS, DNS));
      if !ok {
        return;
      }
      ok := AppendNat(RedirectPort(Tcp, DNS, DNS));
      if !ok {
        return;
      }
      HookDoes(natBefore, NatPlace(tap), natOwn);
      ok := IptablesNat(Append("PREROUTING", FromTap(tap, Jump(NatChainName(tap)))), Some(natOwn.(hooked := true)));
    }

    method LockdownEgress() returns (ok: bool)
      requires Valid()
      modifies this`filter, this`own
      ensures Valid()
      ensures ok ==> old(own).rules.Some? && own == old(own).(rules := Some([DROP_ALL] + old(own).rules.value))
      ensures !ok ==> own == old(own)
    {
      InsertDoes(filterBefore, FilterPlace(tap), own, DROP_ALL);
      ok := Iptables(Insert(ChainName(tap), DROP_ALL),
                     if own.rules.None? then None else Some(own.(rules := Some([DROP_ALL] + own.rules.value))));
    }

    /** A command of the teardown: refused when there is nothing to undo, and that is ignored. */
    method Try(c: Command, ghost after: Option<Own>)
      requires Valid() && Does(filterBefore, FilterPlace(tap), own, c, after) && (after.Some? ==> OwnOk(after.value))
      modifies this`filter, this`own
      ensures Valid() && own == if after.Some? then after.value else old(own)
    {
      var result := Apply(filter, c);
      if result.Some? {
        filter, own := result.value, after.value;
      }
    }

    method TryNat(c: Command, ghost after: Option<Own>)
      requires Valid() && Does(natBefore, NatPlace(tap), natOwn, c, after)
      requires after.Some? ==> OwnOk(after.value) && !after.value.blocked
      modifies this`nat_, this`natOwn
      ensures Valid() && natOwn == if after.Some? then after.value else old(natOwn)
    {
      var result := Apply(nat_, c);
      if result.Some? {
        nat_, natOwn := result.value, after.value;
      }
    }

    /** Whatever was set up, in whole or in part, locked down or not, the tables are again those of before. */
    method Teardown()
      requires Valid()
      modifies this
      ensures Valid() && filter == filterBefore && nat_ == natBefore
      ensures own == NOTHING && natOwn == NOTHING
    {
      TeardownFilter();
      TeardownNat();
      WithNothing(filterBefore, FilterPlace(tap));
      WithNothing(natBefore, NatPlace(tap));
    }

    method TeardownFilter()
      requires Valid()
      modifies this`filter, this`own
      ensures Valid() && own == NOTHING
    {
      UnhookDoes(filterBefore, FilterPlace(tap), own);
      Try(Delete("INPUT", FromTap(tap, Jump(ChainName(tap)))), if own.hooked then Some(own.(hooked := false)) else None);
      UnblockDoes(filterBefore, FilterPlace(tap), own);
      Try(Delete("FORWARD", FromTap(tap, Drop)), if own.blocked then Some(own.(blocked := false)) else None);
      FlushDoes(filterBefore, FilterPlace(tap), own);
      Try(Flush(ChainName(tap)), if own.rules.Some? then Some(own.(rules := Some([]))) else None);
      DeleteChainDoes(filterBefore, FilterPlace(tap), own);
      Try(DeleteChain(ChainName(tap)), if own.rules.Some? then Some(own.(rules := None)) else None);
    }

    method TeardownNat()
      requires Valid()
      modifies this`nat_, this`natOwn
      ensures Valid() && natOwn == NOTHING
    {
      UnhookDoes(natBefore, NatPlace(tap), natOwn);
      TryNat(Delete("PREROUTING", FromTap(tap, Jump(NatChainName(tap)))),
             if natOwn.hooked then Some(natOwn.(hooked := false)) else None);
      FlushDoes(natBefore, NatPlace(tap), natOwn);
      TryNat(Flush(NatChainName(tap)), if natOwn.rules.Some? then Some(natOwn.(rules := Some([]))) else None);
      DeleteChainDoes(natBefore, NatPlace(tap), natOwn);
      TryNat(DeleteChain(NatChainName(tap)), if natOwn.rules.Some? then Some(natOwn.(rules := None)) else None);
    }
  }
}
