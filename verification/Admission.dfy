/**
 Connection admission: per-IP counting behind a mutex that `check` and
 `on_connect` take separately, with handlers dropped from other tasks.
 */
module Admission {
  import opened Prelude

  /** An IP address, by its text. */
  type Ip = string

  function CountOf(active: map<Ip, nat>, ip: Ip): nat {
    if ip in active then active[ip] else 0
  }

  predicate Admits(max: nat, active: map<Ip, nat>, ip: Ip) {
    max == 0 || CountOf(active, ip) < max
  }

  function OnConnect(active: map<Ip, nat>, ip: Ip): map<Ip, nat> {
    active[ip := CountOf(active, ip) + 1]
  }

  function OnDisconnect(active: map<Ip, nat>, ip: Ip): map<Ip, nat> {
    if ip !in active then active
    else if active[ip] > 1 then active[ip := active[ip] - 1]
    else active - {ip}
  }

  class ConnectionRateLimiter {
    const maxPerIp: nat
    var active: map<Ip, nat>

    constructor (maxPerIp: nat)
      ensures this.maxPerIp == maxPerIp && active == map[]
    {
      this.maxPerIp := maxPerIp;
      this.active := map[];
    }

    method Check(ip: Ip) returns (ok: bool)
      ensures ok == Admits(maxPerIp, active, ip)
    {
      if maxPerIp == 0 {
        return true;
      }
      var count := if ip in active then active[ip] else 0;
      return count < maxPerIp;
    }

    method Connect(ip: Ip)
      modifies this
      ensures active == OnConnect(old(active), ip)
    {
      if ip !in active {
        active := active[ip := 0];
      }
      active := active[ip := active[ip] + 1];
    }

    method Disconnect(ip: Ip)
      modifies this
      ensures active == OnDisconnect(old(active), ip)
    {
      if ip in active {
        if active[ip] > 1 {
          active := active[ip := active[ip] - 1];
        } else {
          active := active - {ip};
        }
      }
    }
  }

  /** A handler on its own: its constructor and its drop, with nothing in between them. */
  class ServerHandler {
    const limiter: ConnectionRateLimiter
    const remoteIp: Option<Ip>
    const connectionAllowed: bool

    constructor (limiter: ConnectionRateLimiter, remoteIp: Option<Ip>)
      modifies limiter
      ensures this.limiter == limiter && this.remoteIp == remoteIp
      ensures connectionAllowed <==> remoteIp.Some? ==> Admits(limiter.maxPerIp, old(limiter.active), remoteIp.value)
      ensures limiter.active == if remoteIp.Some? && connectionAllowed
                                then OnConnect(old(limiter.active), remoteIp.value) else old(limiter.active)
    {
      var allowed := true;
      if remoteIp.Some? {
        allowed := limiter.Check(remoteIp.value);
        if allowed {
          limiter.Connect(remoteIp.value);
        }
      }
      this.limiter := limiter;
      this.remoteIp := remoteIp;
      this.connectionAllowed := allowed;
    }

    method Drop()
      modifies limiter
      ensures limiter.active == if remoteIp.Some? && connectionAllowed
                                then OnDisconnect(old(limiter.active), remoteIp.value) else old(limiter.active)
    {
      if remoteIp.Some? && connectionAllowed {
        limiter.Disconnect(remoteIp.value);
      }
    }
  }

  /** Undisturbed, a drop undoes its constructor exactly, provided the map holds no zeros. */
  lemma DropUndoesConnect(active: map<Ip, nat>, ip: Ip)
    requires forall i :: i in active ==> active[i] > 0
    ensures OnDisconnect(OnConnect(active, ip), ip) == active
  {
  }

  // ---- Interleaved handlers ----

  /** `Checked` has passed the check and not yet counted itself; `Live` is fully constructed. */
  datatype Stage = Checked(ip: Ip) | Live(remote: Option<Ip>, allowed: bool)

  datatype World = World(active: map<Ip, nat>, handlers: map<nat, Stage>)

  const START: World := World(map[], map[])

  datatype Step = Begin(id: nat, remote: Option<Ip>) | Count(id: nat) | Drop(id: nat)

  /** A step on a handler that is not at that point does nothing. */
  function Next(max: nat, w: World, step: Step): World {
    match step
    case Begin(id, remote) =>
      if id in w.handlers then w
      else if remote.None? then w.(handlers := w.handlers[id := Live(None, true)])
      else if Admits(max, w.active, remote.value) then w.(handlers := w.handlers[id := Checked(remote.value)])
      else w.(handlers := w.handlers[id := Live(remote, false)])
    case Count(id) =>
      if id in w.handlers && w.handlers[id].Checked? then
        var ip := w.handlers[id].ip;
        World(OnConnect(w.active, ip), w.handlers[id := Live(Some(ip), true)])
      else w
    case Drop(id) =>
      if id in w.handlers && w.handlers[id].Live? then
        var h := w.handlers[id];
        World(if h.remote.Some? && h.allowed then OnDisconnect(w.active, h.remote.value) else w.active,
              w.handlers - {id})
      else w
  }

  function Run(max: nat, w: World, steps: seq<Step>): World
    decreases |steps|
  {
    if steps == [] then w else Run(max, Next(max, w, steps[0]), steps[1..])
  }

  function At(handlers: map<nat, Stage>, stage: Stage): set<nat> {
    set id | id in handlers && handlers[id] == stage
  }

  /** Admitted handlers of the address that exist and have counted themselves. */
  function LiveCount(w: World, ip: Ip): nat {
    |At(w.handlers, Live(Some(ip), true))|
  }

  /** Constructors of the address between their check and their count. */
  function InFlight(w: World, ip: Ip): nat {
    |At(w.handlers, Checked(ip))|
  }

  lemma AtUpdate(handlers: map<nat, Stage>, id: nat, stage: Stage, other: Stage)
    ensures At(handlers[id := stage], other) ==
            if stage == other then At(handlers, other) + {id} else At(handlers, other) - {id}
    ensures At(handlers - {id}, other) == At(handlers, other) - {id}
    ensures id in At(handlers, other) <==> id in handlers && handlers[id] == other
  {
  }

  lemma BeginCounts(max: nat, w: World, id: nat, remote: Option<Ip>, ip: Ip)
    ensures var w' := Next(max, w, Begin(id, remote));
            && LiveCount(w', ip) == LiveCount(w, ip)
            && InFlight(w', ip) ==
               InFlight(w, ip) + if id !in w.handlers && remote == Some(ip) && Admits(max, w.active, ip) then 1 else 0
  {
    var w' := Next(max, w, Begin(id, remote));
    if id !in w.handlers {
      var stage := w'.handlers[id];
      assert w'.handlers == w.handlers[id := stage];
      assert stage == Checked(ip) <==> remote == Some(ip) && Admits(max, w.active, ip);
      AtUpdate(w.handlers, id, stage, Live(Some(ip), true));
      AtUpdate(w.handlers, id, stage, Checked(ip));
    }
  }

  lemma CountCounts(max: nat, w: World, id: nat, ip: Ip)
    ensures var w' := Next(max, w, Count(id));
            var mine := id in w.handlers && w.handlers[id] == Checked(ip);
            && LiveCount(w', ip) == LiveCount(w, ip) + (if mine then 1 else 0)
            && InFlight(w', ip) == InFlight(w, ip) - (if mine then 1 else 0)
  {
    if id in w.handlers && w.handlers[id].Checked? {
      AtUpdate(w.handlers, id, Live(Some(w.handlers[id].ip), true), Live(Some(ip), true));
      AtUpdate(w.handlers, id, Live(Some(w.handlers[id].ip), true), Checked(ip));
    }
  }

  lemma DropCounts(max: nat, w: World, id: nat, ip: Ip)
    ensures var w' := Next(max, w, Drop(id));
            var mine := id in w.handlers && w.handlers[id] == Live(Some(ip), true);
            && LiveCount(w', ip) == LiveCount(w, ip) - (if mine then 1 else 0)
            && InFlight(w', ip) == InFlight(w, ip)
  {
    AtUpdate(w.handlers, id, Live(None, true), Live(Some(ip), true));
    AtUpdate(w.handlers, id, Live(None, true), Checked(ip));
  }

  /** What one step does to the two numbers of an address. */
  lemma StepCounts(max: nat, w: World, step: Step, ip: Ip)
    ensures var w' := Next(max, w, step);
            && (step.Count? || LiveCount(w', ip) <= LiveCount(w, ip))
            && (LiveCount(w', ip) + InFlight(w', ip) <= LiveCount(w, ip) + InFlight(w, ip) ||
                (Admits(max, w.active, ip) && LiveCount(w', ip) == LiveCount(w, ip)))
  {
    match step {
      case Begin(id, remote) => BeginCounts(max, w, id, remote, ip);
      case Count(id) => CountCounts(max, w, id, ip);
      case Drop(id) => DropCounts(max, w, id, ip);
    }
  }

  // ---- The map is exact ----

  ghost predicate Exact(w: World) {
    forall ip: Ip :: (ip in w.active <==> LiveCount(w, ip) > 0) && CountOf(w.active, ip) == LiveCount(w, ip)
  }

  lemma NextKeepsExact(max: nat, w: World, step: Step)
    requires Exact(w)
    ensures Exact(Next(max, w, step))
  {
    var w' := Next(max, w, step);
    forall ip: Ip
      ensures (ip in w'.active <==> LiveCount(w', ip) > 0) && CountOf(w'.active, ip) == LiveCount(w', ip)
    {
      match step {
        case Begin(id, remote) => BeginCounts(max, w, id, remote, ip);
        case Count(id) => CountCounts(max, w, id, ip);
        case Drop(id) => DropCounts(max, w, id, ip);
      }
      assert (ip in w.active <==> LiveCount(w, ip) > 0) && CountOf(w.active, ip) == LiveCount(w, ip);
    }
  }

  /**
   Under any interleaving of constructors and drops, the map holds for every
   address exactly the number of its live admitted handlers, and never a zero.
   */
  lemma {:induction false} RunKeepsExact(max: nat, w: World, steps: seq<Step>)
    requires Exact(w)
    ensures Exact(Run(max, w, steps))
    decreases |steps|
  {
    if steps != [] {
      NextKeepsExact(max, w, steps[0]);
      RunKeepsExact(max, Next(max, w, steps[0]), steps[1..]);
    }
  }

  lemma StartIsExact()
    ensures Exact(START)
  {
    forall ip: Ip
      ensures LiveCount(START, ip) == 0
    {
      assert At(START.handlers, Live(Some(ip), true)) == {};
    }
  }

  // ---- No limit ----

  predicate NoneRefused(w: World) {
    forall id :: id in w.handlers && w.handlers[id].Live? ==> w.handlers[id].allowed
  }

  /** A limit of zero is none: in no run is any connection ever refused. */
  lemma {:induction false} ZeroIsUnlimited(max: nat, w: World, steps: seq<Step>)
    requires max == 0 && NoneRefused(w)
    ensures NoneRefused(Run(max, w, steps))
    decreases |steps|
  {
    if steps != [] {
      var w' := Next(max, w, steps[0]);
      assert NoneRefused(w');
      ZeroIsUnlimited(max, w', steps[1..]);
    }
  }

  /** And a positive limit refuses a new connection precisely when the address has reached it. */
  lemma RefusedIffFull(max: nat, steps: seq<Step>, id: nat, ip: Ip)
    requires max > 0 && id !in Run(max, START, steps).handlers
    ensures var w := Run(max, START, steps);
            Next(max, w, Begin(id, Some(ip))).handlers[id] == Live(Some(ip), false) <==> LiveCount(w, ip) >= max
  {
    StartIsExact();
    RunKeepsExact(max, START, steps);
    var w := Run(max, START, steps);
    assert CountOf(w.active, ip) == LiveCount(w, ip);
  }

  // ---- How far the limit can be overshot ----

  /** At no point of the run are more than `k` constructors of the address in flight. */
  predicate InFlightAtMost(max: nat, w: World, steps: seq<Step>, ip: Ip, k: nat)
    decreases |steps|
  {
    && InFlight(w, ip) <= k
    && (steps == [] || InFlightAtMost(max, Next(max, w, steps[0]), steps[1..], ip, k))
  }

  lemma {:induction false} OvershootBounded(max: nat, w: World, steps: seq<Step>, ip: Ip, k: nat)
    requires max > 0 && Exact(w) && InFlightAtMost(max, w, steps, ip, k)
    requires LiveCount(w, ip) + InFlight(w, ip) <= max + k - 1
    ensures var w' := Run(max, w, steps);
            LiveCount(w', ip) + InFlight(w', ip) <= max + k - 1
    decreases |steps|
  {
    if steps != [] {
      StepCounts(max, w, steps[0], ip);
      assert CountOf(w.active, ip) == LiveCount(w, ip);
      NextKeepsExact(max, w, steps[0]);
      OvershootBounded(max, Next(max, w, steps[0]), steps[1..], ip, k);
    }
  }

  /** With at most `k` constructors in flight at once the count never exceeds `max + k - 1`; with one, `max`. */
  lemma CountNeverExceeds(max: nat, steps: seq<Step>, ip: Ip, k: nat)
    requires max > 0 && InFlightAtMost(max, START, steps, ip, k)
    ensures CountOf(Run(max, START, steps).active, ip) <= max + k - 1
  {
    StartIsExact();
    assert At(START.handlers, Checked(ip)) == {} && At(START.handlers, Live(Some(ip), true)) == {};
    OvershootBounded(max, START, steps, ip, k);
    RunKeepsExact(max, START, steps);
    var w' := Run(max, START, steps);
    assert CountOf(w'.active, ip) == LiveCount(w', ip);
  }

  /** A single accept loop: no constructor begins while another is between its check and its count. */
  predicate OneAtATime(max: nat, w: World, steps: seq<Step>)
    decreases |steps|
  {
    steps == [] ||
    (&& (steps[0].Begin? ==> forall id :: id in w.handlers ==> w.handlers[id].Live?)
     && OneAtATime(max, Next(max, w, steps[0]), steps[1..]))
  }

  predicate AtMostOneChecked(w: World) {
    forall id, id' :: id in w.handlers && id' in w.handlers && w.handlers[id].Checked? && w.handlers[id'].Checked? ==>
      id == id'
  }

  lemma {:induction false} OneAtATimeInFlight(max: nat, w: World, steps: seq<Step>, ip: Ip)
    requires AtMostOneChecked(w) && OneAtATime(max, w, steps)
    ensures InFlightAtMost(max, w, steps, ip, 1)
    decreases |steps|
  {
    var ids := At(w.handlers, Checked(ip));
    if id :| id in ids {
      assert ids == {id};
    }
    if steps != [] {
      OneAtATimeInFlight(max, Next(max, w, steps[0]), steps[1..], ip);
    }
  }

  /** The server's accept loop therefore never lets an address exceed its limit, drops interleaved anyhow. */
  lemma AcceptLoopKeepsLimit(max: nat, steps: seq<Step>, ip: Ip)
    requires max > 0 && OneAtATime(max, START, steps)
    ensures CountOf(Run(max, START, steps).active, ip) <= max
  {
    OneAtATimeInFlight(max, START, steps, ip);
    CountNeverExceeds(max, steps, ip, 1);
  }

  // ---- And the bound is reached ----

  function Range(lo: nat, n: nat): (ids: set<nat>)
    ensures |ids| == n
    ensures forall id :: id in ids <==> lo <= id < lo + n
  {
    if n == 0 then {} else Range(lo, n - 1) + {lo + n - 1}
  }

  function StageAt(ip: Ip, live: nat, id: nat): Stage {
    if id < live then Live(Some(ip), true) else Checked(ip)
  }

  /** The handlers below `live` have counted themselves, the next `flying` are between check and count. */
  ghost predicate Built(w: World, ip: Ip, live: nat, flying: nat) {
    && CountOf(w.active, ip) == live
    && (forall id: nat :: id in w.handlers <==> id < live + flying)
    && (forall id: nat :: id in w.handlers ==> w.handlers[id] == StageAt(ip, live, id))
  }

  lemma BuiltInFlight(w: World, ip: Ip, live: nat, flying: nat)
    requires Built(w, ip, live, flying)
    ensures InFlight(w, ip) == flying
  {
    assert At(w.handlers, Checked(ip)) == Range(live, flying);
  }

  lemma BeginOne(max: nat, w: World, ip: Ip, live: nat, flying: nat)
    requires Built(w, ip, live, flying) && live < max
    ensures Built(Next(max, w, Begin(live + flying, Some(ip))), ip, live, flying + 1)
  {
  }

  lemma CountOne(max: nat, w: World, ip: Ip, live: nat, flying: nat)
    requires Built(w, ip, live, flying) && flying > 0
    ensures Built(Next(max, w, Count(live)), ip, live + 1, flying - 1)
  {
    assert live in w.handlers;
  }

  lemma RunFirst(max: nat, w: World, step: Step, rest: seq<Step>, ip: Ip, k: nat)
    requires InFlight(w, ip) <= k && InFlightAtMost(max, Next(max, w, step), rest, ip, k)
    ensures Run(max, w, [step] + rest) == Run(max, Next(max, w, step), rest)
    ensures InFlightAtMost(max, w, [step] + rest, ip, k)
  {
    assert ([step] + rest)[1..] == rest;
  }

  /** More constructors begin, up to `upTo`, none having counted itself. */
  lemma {:induction false} BeginMany(max: nat, w: World, ip: Ip, live: nat, flying: nat, upTo: nat, k: nat)
    returns (steps: seq<Step>)
    requires Built(w, ip, live, flying) && live < max && flying <= upTo <= k
    ensures Built(Run(max, w, steps), ip, live, upTo)
    ensures InFlightAtMost(max, w, steps, ip, k)
    decreases upTo - flying
  {
    BuiltInFlight(w, ip, live, flying);
    if flying == upTo {
      return [];
    }
    var step := Begin(live + flying, Some(ip));
    var w' := Next(max, w, step);
    BeginOne(max, w, ip, live, flying);
    var rest := BeginMany(max, w', ip, live, flying + 1, upTo, k);
    RunFirst(max, w, step, rest, ip, k);
    steps := [step] + rest;
    assert Run(max, w, steps) == Run(max, w', rest);
  }

  lemma {:induction false} CountMany(max: nat, w: World, ip: Ip, live: nat, flying: nat, k: nat)
    returns (steps: seq<Step>)
    requires Built(w, ip, live, flying) && flying <= k
    ensures Built(Run(max, w, steps), ip, live + flying, 0)
    ensures InFlightAtMost(max, w, steps, ip, k)
    decreases flying
  {
    BuiltInFlight(w, ip, live, flying);
    if flying == 0 {
      return [];
    }
    var step := Count(live);
    var w' := Next(max, w, step);
    CountOne(max, w, ip, live, flying);
    var rest := CountMany(max, w', ip, live + 1, flying - 1, k);
    RunFirst(max, w, step, rest, ip, k);
    steps := [step] + rest;
    assert Run(max, w, steps) == Run(max, w', rest);
  }

  lemma {:induction false} RunInTwo(max: nat, w: World, a: seq<Step>, b: seq<Step>, ip: Ip, k: nat)
    requires InFlightAtMost(max, w, a, ip, k) && InFlightAtMost(max, Run(max, w, a), b, ip, k)
    ensures Run(max, w, a + b) == Run(max, Run(max, w, a), b)
    ensures InFlightAtMost(max, w, a + b, ip, k)
    decreases |a|
  {
    if a == [] {
      assert a + b == b;
    } else {
      assert (a + b)[1..] == a[1..] + b;
      RunInTwo(max, Next(max, w, a[0]), a[1..], b, ip, k);
    }
  }

  /** `n` constructors begin together and then count themselves. */
  lemma AdmitTogether(max: nat, w: World, ip: Ip, live: nat, n: nat, k: nat) returns (steps: seq<Step>)
    requires Built(w, ip, live, 0) && live < max && n <= k
    ensures Built(Run(max, w, steps), ip, live + n, 0)
    ensures InFlightAtMost(max, w, steps, ip, k)
  {
    var begin := BeginMany(max, w, ip, live, 0, n, k);
    var count := CountMany(max, Run(max, w, begin), ip, live, n, k);
    RunInTwo(max, w, begin, count, ip, k);
    steps := begin + count;
  }

  /** One constructor after another, up to `target` handlers. */
  lemma {:induction false} AdmitInTurn(max: nat, ip: Ip, target: nat, k: nat) returns (steps: seq<Step>)
    requires target <= max && k > 0
    ensures Built(Run(max, START, steps), ip, target, 0)
    ensures InFlightAtMost(max, START, steps, ip, k)
    decreases target
  {
    if target == 0 {
      BuiltInFlight(START, ip, 0, 0);
      return [];
    }
    var before := AdmitInTurn(max, ip, target - 1, k);
    var one := AdmitTogether(max, Run(max, START, before), ip, target - 1, 1, k);
    RunInTwo(max, START, before, one, ip, k);
    steps := before + one;
  }

  /** The bound is exact: for every limit and every `k` some run with at most `k` in flight reaches it. */
  lemma OvershootReached(max: nat, ip: Ip, k: nat) returns (steps: seq<Step>)
    requires max > 0 && k > 0
    ensures InFlightAtMost(max, START, steps, ip, k)
    ensures CountOf(Run(max, START, steps).active, ip) == max + k - 1
  {
    var before := AdmitInTurn(max, ip, max - 1, k);
    var together := AdmitTogether(max, Run(max, START, before), ip, max - 1, k, k);
    RunInTwo(max, START, before, together, ip, k);
    steps := before + together;
  }
}
