/** iptables: tables of first-match chains, the commands that change them, and what they do to a packet. */
module PacketFilter {
  import opened Common

  datatype Protocol = Tcp | Udp | OtherProtocol
  datatype Tracking = New | Established | Related | Untracked

  type Ip = nat

  /** A packet as it enters; for a tracked connection, as conntrack has already rewritten it. */
  datatype Packet = Packet(iface: string, protocol: Protocol, dst: Ip, dport: nat, tracking: Tracking)

  /** An absent field matches anything. */
  datatype Rule = Rule(iface: Option<string>, protocol: Option<Protocol>, dst: Option<Ip>, dport: Option<nat>,
                       onlyTracked: bool, target: Target)
  {
    predicate Matches(p: Packet) {
      && (iface.Some? ==> p.iface == iface.value)
      && (protocol.Some? ==> p.protocol == protocol.value)
      && (dst.Some? ==> p.dst == dst.value)
      && (dport.Some? ==> p.dport == dport.value)
      && (onlyTracked ==> p.tracking.Established? || p.tracking.Related?)
    }
  }

  datatype Target = Accept | Drop | Redirect(port: nat) | Jump(chain: string)

  type Table = map<string, seq<Rule>>

  datatype Verdict = Accepted | Dropped | Redirected(port: nat) | Undecided

  /** First match wins; a chain that decides nothing returns to the one that jumped to it. */
  function Evaluate(t: Table, rules: seq<Rule>, p: Packet, depth: nat): Verdict
    decreases depth, |rules|
  {
    if rules == [] then Undecided
    else if !rules[0].Matches(p) then Evaluate(t, rules[1..], p, depth)
    else
      match rules[0].target
      case Accept => Accepted
      case Drop => Dropped
      case Redirect(port) => Redirected(port)
      case Jump(chain) =>
        if depth == 0 || chain !in t then Dropped
        else
          var v := Evaluate(t, t[chain], p, depth - 1);
          if v.Undecided? then Evaluate(t, rules[1..], p, depth) else v
  }

  // ----- Commands -----

  datatype Command =
    | NewChain(chain: string)                   // -N
    | Append(chain: string, rule: Rule)         // -A
    | Insert(chain: string, rule: Rule)         // -I chain 1
    | Delete(chain: string, rule: Rule)         // -D
    | Flush(chain: string)                      // -F
    | DeleteChain(chain: string)                // -X

  function RemoveFirst(rules: seq<Rule>, r: Rule): seq<Rule> {
    if rules == [] then [] else if rules[0] == r then rules[1..] else [rules[0]] + RemoveFirst(rules[1..], r)
  }

  predicate JumpsTo(rules: seq<Rule>, chain: string) {
    exists r | r in rules :: r.target == Jump(chain)
  }

  predicate Referenced(t: Table, chain: string) {
    exists c | c in t :: JumpsTo(t[c], chain)
  }

  /** The table after a command, or nothing when iptables refuses it. */
  function Apply(t: Table, c: Command): Option<Table> {
    match c
    case NewChain(chain) => if chain in t then None else Some(t[chain := []])
    case Append(chain, r) =>
      if chain !in t || (r.target.Jump? && r.target.chain !in t) then None else Some(t[chain := t[chain] + [r]])
    case Insert(chain, r) =>
      if chain !in t || (r.target.Jump? && r.target.chain !in t) then None else Some(t[chain := [r] + t[chain]])
    case Delete(chain, r) =>
      if chain !in t || r !in t[chain] then None else Some(t[chain := RemoveFirst(t[chain], r)])
    case Flush(chain) => if chain !in t then None else Some(t[chain := []])
    case DeleteChain(chain) =>
      if chain !in t || t[chain] != [] || Referenced(t, chain) then None else Some(t - {chain})
  }

  // ----- Evaluation -----

  lemma {:induction false} EvaluateConcat(t: Table, a: seq<Rule>, b: seq<Rule>, p: Packet, depth: nat)
    ensures Evaluate(t, a + b, p, depth) ==
            (var v := Evaluate(t, a, p, depth); if v.Undecided? then Evaluate(t, b, p, depth) else v)
    decreases a
  {
    if a == [] {
      assert a + b == b;
    } else {
      assert (a + b)[1..] == a[1..] + b;
      EvaluateConcat(t, a[1..], b, p, depth);
    }
  }

  /** Rules that never jump to a chain in `touched`. */
  predicate Avoids(rules: seq<Rule>, touched: set<string>) {
    forall r | r in rules && r.target.Jump? :: r.target.chain !in touched
  }

  /** Chains that nothing jumps to may be added or changed without changing any verdict. */
  lemma {:induction false} EvaluateFrame(t: Table, u: Table, touched: set<string>, rules: seq<Rule>, p: Packet, depth: nat)
    requires forall c | c !in touched :: (c in t <==> c in u) && (c in t ==> t[c] == u[c])
    requires forall c | c in t :: Avoids(t[c], touched)
    requires Avoids(rules, touched)
    ensures Evaluate(t, rules, p, depth) == Evaluate(u, rules, p, depth)
    decreases depth, |rules|
  {
    if rules != [] {
      EvaluateFrame(t, u, touched, rules[1..], p, depth);
      if rules[0].Matches(p) && rules[0].target.Jump? && depth > 0 {
        var chain := rules[0].target.chain;
        assert rules[0] in rules;
        if chain in t {
          EvaluateFrame(t, u, touched, t[chain], p, depth - 1);
        }
      }
    }
  }
}
