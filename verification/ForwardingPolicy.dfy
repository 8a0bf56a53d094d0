/**
 The forwarding policy: first match wins. Whether an address text lies in a CIDR
 network is a parameter.
 */
module ForwardingPolicy {
  import opened Prelude
  import opened Auth
  import opened ControlChannel

  datatype Action = Allow | Deny

  /** A network is named by its text. */
  datatype TargetPattern =
    | Any
    | Host(pattern: string)
    | Cidr(network: string)
    | PortRange(pattern: string, lo: nat, hi: nat)
    | AlknetPrefix

  datatype TransportKind =
    | Tcp
    | Tls(serverName: Option<string>)
    | Iroh(endpointId: string)
    | WebTransport(serverName: Option<string>)

  datatype Rule =
    Rule(target: TargetPattern, action: Action, principals: seq<string>, transports: seq<TransportKind>)

  datatype Policy = Policy(default: Action, rules: seq<Rule>)

  datatype Request = Request(target: string, port: nat, identity: Identity, transport: TransportKind)

  type Contains = (string, string) -> bool

  /** The position of the first star, if there is one. */
  function FindStar(s: string): (pos: Option<nat>)
    ensures pos.None? <==> '*' !in s
    ensures pos.Some? ==> pos.value < |s| && s[pos.value] == '*' && '*' !in s[..pos.value]
  {
    if s == [] then None
    else if s[0] == '*' then Some(0)
    else
      match FindStar(s[1..])
      case None => None
      case Some(i) =>
        assert s[..i + 1] == [s[0]] + s[1..][..i];
        Some(i + 1)
  }

  predicate StartsWith(s: string, prefix: string) {
    prefix <= s
  }

  predicate EndsWith(s: string, suffix: string) {
    |suffix| <= |s| && s[|s| - |suffix|..] == suffix
  }

  predicate MatchHostPattern(pattern: string, target: string) {
    || pattern == target
    || match FindStar(pattern)
       case None => false
       case Some(pos) =>
         var prefix, suffix := pattern[..pos], pattern[pos + 1..];
         && StartsWith(target, prefix)
         && EndsWith(target, suffix)
         && |target| >= |prefix| + |suffix|
  }

  predicate MatchesTarget(contains: Contains, p: TargetPattern, target: string, port: nat) {
    match p
    case Any => true
    case Host(pattern) => MatchHostPattern(pattern, target)
    case Cidr(network) => contains(network, target)
    case PortRange(pattern, lo, hi) => MatchHostPattern(pattern, target) && lo <= port < hi
    case AlknetPrefix => Reserved(target)
  }

  predicate MatchesPrincipal(rule: Rule, identity: Identity) {
    rule.principals == [] ||
    exists p :: p in rule.principals && (p == identity.id || p in identity.scopes)
  }

  predicate MatchesTransport(rule: Rule, transport: TransportKind) {
    rule.transports == [] || transport in rule.transports
  }

  predicate Matches(contains: Contains, rule: Rule, r: Request) {
    && MatchesTarget(contains, rule.target, r.target, r.port)
    && MatchesPrincipal(rule, r.identity)
    && MatchesTransport(rule, r.transport)
  }

  /** The scan of `check`: the action of the first rule that matches, else the default. */
  function Decide(contains: Contains, rules: seq<Rule>, default: Action, r: Request): Action {
    if rules == [] then default
    else if Matches(contains, rules[0], r) then rules[0].action
    else Decide(contains, rules[1..], default, r)
  }

  predicate Check(contains: Contains, policy: Policy, r: Request) {
    Decide(contains, policy.rules, policy.default, r).Allow?
  }

  /** The loop of `check`. */
  method CheckRequest(contains: Contains, policy: Policy, r: Request) returns (ok: bool)
    ensures ok == Check(contains, policy, r)
  {
    for i := 0 to |policy.rules|
      invariant Decide(contains, policy.rules, policy.default, r) ==
                Decide(contains, policy.rules[i..], policy.default, r)
    {
      var rule := policy.rules[i];
      assert policy.rules[i..][0] == rule && policy.rules[i..][1..] == policy.rules[i + 1..];
      if Matches(contains, rule, r) {
        return rule.action == Allow;
      }
    }
    return policy.default == Allow;
  }

  // ---- What a pattern means ----

  /** `target` is `u`, then anything, then `v`. */
  ghost predicate Wildcard(u: string, v: string, target: string) {
    exists m: string :: target == u + m + v
  }

  /**
   A pattern matches itself, and with a star also what its two sides enclose;
   only the first star is special, any later one stands for itself.
   */
  lemma HostPatternMeaning(pattern: string, target: string)
    ensures MatchHostPattern(pattern, target) <==>
            || pattern == target
            || exists u: string, v: string ::
                 pattern == u + "*" + v && '*' !in u && Wildcard(u, v, target)
  {
    if MatchHostPattern(pattern, target) && pattern != target {
      var u, v := MatchSplits(pattern, target);
    }
    forall u: string, v: string | pattern == u + "*" + v && '*' !in u && Wildcard(u, v, target)
      ensures MatchHostPattern(pattern, target)
    {
      WildcardMatches(u, v, target);
    }
  }

  lemma MatchSplits(pattern: string, target: string) returns (u: string, v: string)
    requires MatchHostPattern(pattern, target) && pattern != target
    ensures pattern == u + "*" + v && '*' !in u && Wildcard(u, v, target)
  {
    var pos := FindStar(pattern).value;
    u, v := pattern[..pos], pattern[pos + 1..];
    Enclosed(u, v, target);
  }

  lemma Enclosed(u: string, v: string, target: string)
    requires StartsWith(target, u) && EndsWith(target, v) && |target| >= |u| + |v|
    ensures Wildcard(u, v, target)
  {
    var m := target[|u|..|target| - |v|];
    assert target == u + m + v;
  }

  lemma WildcardMatches(u: string, v: string, target: string)
    requires '*' !in u && Wildcard(u, v, target)
    ensures MatchHostPattern(u + "*" + v, target)
  {
    FirstStar(u, v);
    var pattern := u + "*" + v;
    assert pattern[..|u|] == u && pattern[|u| + 1..] == v;
    var m :| target == u + m + v;
  }

  lemma {:induction false} FirstStar(u: string, v: string)
    requires '*' !in u
    ensures FindStar(u + "*" + v) == Some(|u|)
    decreases |u|
  {
    if u != [] {
      assert u[0] in u;
      assert forall ch :: ch in u[1..] ==> ch in u;
      assert (u + "*" + v)[1..] == u[1..] + "*" + v;
      FirstStar(u[1..], v);
    }
  }

  /** What the pattern is for: itself, or what the two sides of its first star enclose. */
  ghost predicate HostCovers(pattern: string, target: string) {
    || pattern == target
    || exists u: string, v: string :: pattern == u + "*" + v && '*' !in u && Wildcard(u, v, target)
  }

  ghost predicate TargetCovers(contains: Contains, p: TargetPattern, target: string, port: nat) {
    match p
    case Any => true
    case Host(pattern) => HostCovers(pattern, target)
    case Cidr(network) => contains(network, target)
    case PortRange(pattern, lo, hi) => HostCovers(pattern, target) && lo <= port && port < hi
    case AlknetPrefix => exists rest: string :: target == "alknet-" + rest
  }

  /** The rule is about this request: its target, one of its principals if it names any, its transport likewise. */
  ghost predicate Covers(contains: Contains, rule: Rule, r: Request) {
    && TargetCovers(contains, rule.target, r.target, r.port)
    && (|rule.principals| > 0 ==>
          exists i :: 0 <= i < |rule.principals| &&
            (rule.principals[i] == r.identity.id ||
             exists j :: 0 <= j < |r.identity.scopes| && r.identity.scopes[j] == rule.principals[i]))
    && (|rule.transports| > 0 ==> exists i :: 0 <= i < |rule.transports| && rule.transports[i] == r.transport)
  }

  lemma MatchesTargetIff(contains: Contains, p: TargetPattern, target: string, port: nat)
    ensures MatchesTarget(contains, p, target, port) <==> TargetCovers(contains, p, target, port)
  {
    match p {
      case Host(pattern) => HostPatternMeaning(pattern, target);
      case PortRange(pattern, _, _) => HostPatternMeaning(pattern, target);
      case AlknetPrefix =>
        if Reserved(target) {
          assert target == "alknet-" + target[7..];
        }
      case _ =>
    }
  }

  lemma MatchesIff(contains: Contains, rule: Rule, r: Request)
    ensures Matches(contains, rule, r) <==> Covers(contains, rule, r)
  {
    MatchesTargetIff(contains, rule.target, r.target, r.port);
    if p :| p in rule.principals && (p == r.identity.id || p in r.identity.scopes) {
      var i :| 0 <= i < |rule.principals| && rule.principals[i] == p;
    }
    if i :| 0 <= i < |rule.principals| &&
            (rule.principals[i] == r.identity.id ||
             exists j :: 0 <= j < |r.identity.scopes| && r.identity.scopes[j] == rule.principals[i]) {
      assert rule.principals[i] in rule.principals;
    }
  }

  // ---- First match wins ----

  /** The first rule about the request, or their number when there is none. */
  function FirstMatch(contains: Contains, rules: seq<Rule>, r: Request): (k: nat)
    ensures k <= |rules|
    ensures forall i :: 0 <= i < k ==> !Matches(contains, rules[i], r)
    ensures k < |rules| ==> Matches(contains, rules[k], r)
  {
    if rules == [] || Matches(contains, rules[0], r) then 0 else 1 + FirstMatch(contains, rules[1..], r)
  }

  /**
   What a policy allows, from its text alone: a request is allowed precisely
   when the first rule that covers it allows, or none covers it and the default
   allows.
   */
  lemma PolicyMeaning(contains: Contains, policy: Policy, r: Request)
    ensures Check(contains, policy, r) <==>
            || (exists i :: 0 <= i < |policy.rules| && policy.rules[i].action == Allow &&
                  Covers(contains, policy.rules[i], r) &&
                  forall j :: 0 <= j < i ==> !Covers(contains, policy.rules[j], r))
            || (policy.default == Allow &&
                forall j :: 0 <= j < |policy.rules| ==> !Covers(contains, policy.rules[j], r))
  {
    var k := FirstMatch(contains, policy.rules, r);
    LeastMatchDecides(contains, policy.rules, policy.default, r, k);
    forall j | 0 <= j < |policy.rules|
      ensures Matches(contains, policy.rules[j], r) <==> Covers(contains, policy.rules[j], r)
    {
      MatchesIff(contains, policy.rules[j], r);
    }
  }

  /** The decision is that of the least-index matching rule, and the default's when none matches. */
  lemma {:induction false} LeastMatchDecides(contains: Contains, rules: seq<Rule>, default: Action, r: Request, i: nat)
    requires i <= |rules|
    requires forall j :: 0 <= j < i ==> !Matches(contains, rules[j], r)
    requires i < |rules| ==> Matches(contains, rules[i], r)
    ensures Decide(contains, rules, default, r) == if i < |rules| then rules[i].action else default
    decreases i
  {
    if i > 0 {
      LeastMatchDecides(contains, rules[1..], default, r, i - 1);
    }
  }

  lemma {:induction false} DecideAppend(
    contains: Contains, front: seq<Rule>, back: seq<Rule>, default: Action, r: Request)
    ensures Decide(contains, front + back, default, r) ==
            Decide(contains, front, Decide(contains, back, default, r), r)
    decreases |front|
  {
    if front == [] {
      assert front + back == back;
    } else {
      assert (front + back)[1..] == front[1..] + back;
      DecideAppend(contains, front[1..], back, default, r);
    }
  }

  /** An earlier match makes everything behind it irrelevant. */
  lemma {:induction false} MatchedInFront(contains: Contains, front: seq<Rule>, d: Action, d': Action, r: Request, i: nat)
    requires i < |front| && Matches(contains, front[i], r)
    ensures Decide(contains, front, d, r) == Decide(contains, front, d', r)
    decreases |front|
  {
    if !Matches(contains, front[0], r) {
      MatchedInFront(contains, front[1..], d, d', r, i - 1);
    }
  }

  /**
   A rule matters to a request precisely when no earlier rule matches, the rule
   does, and what follows would have decided otherwise.
   */
  lemma RuleMattersIff(contains: Contains, front: seq<Rule>, rule: Rule, back: seq<Rule>, default: Action, r: Request)
    ensures Check(contains, Policy(default, front + [rule] + back), r) !=
            Check(contains, Policy(default, front + back), r) <==>
            && (forall i :: 0 <= i < |front| ==> !Matches(contains, front[i], r))
            && Matches(contains, rule, r)
            && (rule.action == Allow) != Check(contains, Policy(default, back), r)
  {
    var d := Decide(contains, back, default, r);
    DecideAppend(contains, front + [rule], back, default, r);
    DecideAppend(contains, front, [rule], d, r);
    DecideAppend(contains, front, back, default, r);
    if i :| 0 <= i < |front| && Matches(contains, front[i], r) {
      MatchedInFront(contains, front, Decide(contains, [rule], d, r), d, r, i);
    } else {
      LeastMatchDecides(contains, front, Decide(contains, [rule], d, r), r, |front|);
      LeastMatchDecides(contains, front, d, r, |front|);
    }
  }

  /** Every request the rule matches is already matched by a rule in front of it. */
  ghost predicate Shadowed(contains: Contains, front: seq<Rule>, rule: Rule) {
    forall r: Request :: Matches(contains, rule, r) ==> exists i :: 0 <= i < |front| && Matches(contains, front[i], r)
  }

  /** Deleting a rule whose requests are all matched earlier changes no decision. */
  lemma ShadowedRuleIsDead(contains: Contains, front: seq<Rule>, rule: Rule, back: seq<Rule>, default: Action)
    requires Shadowed(contains, front, rule)
    ensures forall r: Request :: Check(contains, Policy(default, front + [rule] + back), r) ==
                                 Check(contains, Policy(default, front + back), r)
  {
    forall r: Request
      ensures Check(contains, Policy(default, front + [rule] + back), r) ==
              Check(contains, Policy(default, front + back), r)
    {
      RuleMattersIff(contains, front, rule, back, default, r);
    }
  }

  /** Neighbouring rules may change places when they agree, or when no request matches both. */
  lemma SwapNeighbours(contains: Contains, front: seq<Rule>, a: Rule, b: Rule, back: seq<Rule>, default: Action, r: Request)
    requires a.action == b.action || !(Matches(contains, a, r) && Matches(contains, b, r))
    ensures Check(contains, Policy(default, front + [a, b] + back), r) ==
            Check(contains, Policy(default, front + [b, a] + back), r)
  {
    var d := Decide(contains, back, default, r);
    DecideAppend(contains, front + [a, b], back, default, r);
    DecideAppend(contains, front + [b, a], back, default, r);
    DecideAppend(contains, front, [a, b], d, r);
    DecideAppend(contains, front, [b, a], d, r);
    DecideTwo(contains, a, b, d, r);
    DecideTwo(contains, b, a, d, r);
  }

  lemma DecideTwo(contains: Contains, a: Rule, b: Rule, default: Action, r: Request)
    ensures Decide(contains, [a, b], default, r) ==
            if Matches(contains, a, r) then a.action else if Matches(contains, b, r) then b.action else default
  {
    assert [a, b][1..] == [b];
    assert Decide(contains, [b], default, r) == if Matches(contains, b, r) then b.action else default;
  }
}
