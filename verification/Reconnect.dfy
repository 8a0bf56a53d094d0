/**
 Reconnection with exponential backoff: the loop of `ChannelManager`, which
 counts an attempt before it is made, and the monitor of `ClientSession`, which
 counts it once it has failed. And the remote forwards re-requested afterwards.
 */
module Reconnect {
  import opened Prelude

  /** Seconds to wait, by number of attempts so far. */
  function Backoff(attempt: nat): nat {
    match attempt
    case 0 => 1
    case 1 => 2
    case 2 => 4
    case 3 => 8
    case 4 => 16
    case _ => 30
  }

  /** Counters have 32 bits and wrap around. */
  function Increment(attempts: nat): nat {
    (attempts + 1) % TWO_32
  }

  // ---- The two loops, driven by the outcome of each attempt ----

  /** The reconnect monitor of `ClientSession::run`. */
  method ClientSessionWaits(outcomes: seq<bool>) returns (waits: seq<nat>)
    ensures waits == Schedule(0, outcomes)
  {
    waits := [];
    var attempts := 0;
    for i := 0 to |outcomes|
      invariant Schedule(0, outcomes) == waits + Schedule(attempts, outcomes[i..])
    {
      assert outcomes[i..][0] == outcomes[i] && outcomes[i..][1..] == outcomes[i + 1..];
      ghost var before, attempts0 := waits, attempts;
      var backoff := Backoff(attempts);
      waits := waits + [backoff];
      if outcomes[i] {
        attempts := 0;
      } else {
        attempts := Increment(attempts);
      }
      ScheduleStep(attempts0, outcomes[i..]);
      assert before + ([backoff] + Schedule(attempts, outcomes[i + 1..])) ==
             waits + Schedule(attempts, outcomes[i + 1..]);
    }
    assert outcomes[|outcomes|..] == [];
  }

  /** The common schedule, as a fold over the outcomes. */
  function Schedule(attempts: nat, outcomes: seq<bool>): (waits: seq<nat>)
    ensures |waits| == |outcomes|
    decreases |outcomes|
  {
    if outcomes == [] then []
    else [Backoff(attempts)] + Schedule(if outcomes[0] then 0 else Increment(attempts), outcomes[1..])
  }

  lemma ScheduleStep(attempts: nat, outcomes: seq<bool>)
    requires outcomes != []
    ensures Schedule(attempts, outcomes) ==
            [Backoff(attempts)] + Schedule(if outcomes[0] then 0 else Increment(attempts), outcomes[1..])
  {
  }

  // ---- What the schedule is ----

  /** The length of the run of failures at the end. */
  function TrailingFailures(outcomes: seq<bool>): (n: nat)
    ensures n <= |outcomes|
    decreases |outcomes|
  {
    if outcomes == [] || outcomes[|outcomes| - 1] then 0 else 1 + TrailingFailures(outcomes[..|outcomes| - 1])
  }

  function Pow2(n: nat): nat {
    if n == 0 then 1 else 2 * Pow2(n - 1)
  }

  /** The documented backoff: doubling from one second, capped at thirty. */
  function Capped(n: nat): nat {
    if Pow2(n) < 30 then Pow2(n) else 30
  }

  lemma {:induction false} Pow2AtLeast(n: nat)
    requires n >= 5
    ensures Pow2(n) >= 32
  {
    if n == 5 {
      assert Pow2(0) == 1 && Pow2(1) == 2 && Pow2(2) == 4 && Pow2(3) == 8 && Pow2(4) == 16;
    } else {
      Pow2AtLeast(n - 1);
    }
  }

  lemma BackoffIsCapped(n: nat)
    ensures Backoff(n) == Capped(n)
  {
    if n >= 5 {
      Pow2AtLeast(n);
    } else {
      assert Pow2(0) == 1 && Pow2(1) == 2 && Pow2(2) == 4 && Pow2(3) == 8 && Pow2(4) == 16;
    }
  }

  /** The counter after `n` failures in a row. */
  function Wrapped(attempts: nat, n: nat): nat {
    (attempts + n) % TWO_32
  }

  /** The counter before outcome i, from the failures just before it. */
  lemma {:induction false} ScheduleAt(attempts: nat, outcomes: seq<bool>, i: nat)
    requires i < |outcomes| && attempts < TWO_32
    ensures var n := TrailingFailures(outcomes[..i]);
            Schedule(attempts, outcomes)[i] == Backoff(Wrapped(if n == i then attempts else 0, n))
    decreases |outcomes|
  {
    if i == 0 {
      assert outcomes[..0] == [];
    } else {
      var tail := outcomes[1..];
      ScheduleAt(if outcomes[0] then 0 else Increment(attempts), tail, i - 1);
      assert outcomes[..i] == [outcomes[0]] + tail[..i - 1];
      TrailingCons(outcomes[0], tail[..i - 1]);
      WrapOnce(attempts, TrailingFailures(tail[..i - 1]));
    }
  }

  lemma {:induction false} TrailingCons(first: bool, rest: seq<bool>)
    ensures TrailingFailures([first] + rest) ==
            TrailingFailures(rest) + if TrailingFailures(rest) == |rest| && !first then 1 else 0
    decreases |rest|
  {
    var all := [first] + rest;
    if rest == [] {
      assert all[..|all| - 1] == [];
    } else {
      assert all[|all| - 1] == rest[|rest| - 1];
      assert all[..|all| - 1] == [first] + rest[..|rest| - 1];
      TrailingCons(first, rest[..|rest| - 1]);
    }
  }

  lemma WrapOnce(attempts: nat, n: nat)
    ensures Wrapped(Increment(attempts), n) == Wrapped(attempts, n + 1)
  {
  }

  lemma WrappedBackoff(n: nat)
    ensures Backoff(Wrapped(0, n)) == Capped(n) <==> n < 5 || n % TWO_32 >= 5
    ensures n < TWO_32 ==> Wrapped(0, n) == n
  {
    BackoffIsCapped(n);
    if n >= 5 {
      Pow2AtLeast(n);
    }
  }

  /**
   For every outcome sequence both loops wait the documented time after `n`
   consecutive failures, precisely when the 32-bit counter has not wrapped to
   a small number: always for `n` below 2^32.
   */
  lemma WaitIsCappedIff(outcomes: seq<bool>, i: nat)
    requires i < |outcomes|
    ensures var n := TrailingFailures(outcomes[..i]);
            && (Schedule(0, outcomes)[i] == Capped(n) <==> n < 5 || n % TWO_32 >= 5)
            && (n < TWO_32 ==> Schedule(0, outcomes)[i] == Capped(n))
  {
    var n := TrailingFailures(outcomes[..i]);
    ScheduleAt(0, outcomes, i);
    WrappedBackoff(n);
    BackoffIsCapped(n);
  }

  // ---- Remote forwards ----

  datatype ForwardRequest = ForwardRequest(addr: string, port: nat)

  /** An operation and whether the session granted it. */
  datatype ForwardOp = Request(fwd: ForwardRequest, ok: bool) | Cancel(fwd: ForwardRequest, ok: bool)

  function Forwards(active: set<ForwardRequest>, op: ForwardOp): set<ForwardRequest> {
    match op
    case Request(fwd, ok) => if ok then active + {fwd} else active
    case Cancel(fwd, ok) => if ok then active - {fwd} else active
  }

  function AllForwards(ops: seq<ForwardOp>): set<ForwardRequest>
    decreases |ops|
  {
    if ops == [] then {} else Forwards(AllForwards(ops[..|ops| - 1]), ops[|ops| - 1])
  }

  class ChannelManager {
    var forwards: set<ForwardRequest>
    var reconnectAttempts: nat

    constructor ()
      ensures forwards == {} && reconnectAttempts == 0
    {
      forwards := {};
      reconnectAttempts := 0;
    }

    /** `granted` is the server's answer. */
    method RequestTcpipForward(addr: string, port: nat, granted: bool) returns (ok: bool)
      modifies this`forwards
      ensures ok == granted && forwards == Forwards(old(forwards), Request(ForwardRequest(addr, port), granted))
    {
      if !granted {
        return false;
      }
      forwards := forwards + {ForwardRequest(addr, port)};
      return true;
    }

    method CancelTcpipForward(addr: string, port: nat, granted: bool) returns (ok: bool)
      modifies this`forwards
      ensures ok == granted && forwards == Forwards(old(forwards), Cancel(ForwardRequest(addr, port), granted))
    {
      if !granted {
        return false;
      }
      forwards := forwards - {ForwardRequest(addr, port)};
      return true;
    }

    /** One attempt: `established` is whether a new session came about. */
    method Reconnect(established: bool) returns (wait: nat, requested: seq<ForwardRequest>)
      modifies this`reconnectAttempts
      ensures wait == Backoff(old(reconnectAttempts))
      ensures reconnectAttempts == if established then 0 else Increment(old(reconnectAttempts))
      ensures |requested| == if established then |forwards| else 0
      ensures forall f :: f in requested <==> established && f in forwards
    {
      var attemptNum := reconnectAttempts;
      wait := Backoff(attemptNum);
      reconnectAttempts := Increment(reconnectAttempts);
      requested := [];
      if established {
        reconnectAttempts := 0;
        requested := ReRegisterForwards();
      }
    }

    /** Attempt after attempt, as the monitor makes them while the session is down. */
    method ReconnectRepeatedly(outcomes: seq<bool>) returns (waits: seq<nat>)
      modifies this`reconnectAttempts
      ensures waits == Schedule(old(reconnectAttempts), outcomes)
    {
      waits := [];
      for i := 0 to |outcomes|
        invariant Schedule(old(reconnectAttempts), outcomes) == waits + Schedule(reconnectAttempts, outcomes[i..])
      {
        assert outcomes[i..][0] == outcomes[i] && outcomes[i..][1..] == outcomes[i + 1..];
        ghost var before := waits;
        ScheduleStep(reconnectAttempts, outcomes[i..]);
        var wait, _ := Reconnect(outcomes[i]);
        waits := waits + [wait];
        assert before + ([wait] + Schedule(reconnectAttempts, outcomes[i + 1..])) ==
               waits + Schedule(reconnectAttempts, outcomes[i + 1..]);
      }
      assert outcomes[|outcomes|..] == [];
    }

    /** Asks the new session for every forward once, in no particular order; refusals change nothing. */
    method ReRegisterForwards() returns (requested: seq<ForwardRequest>)
      ensures |requested| == |forwards| && forall f :: f in requested <==> f in forwards
    {
      requested := [];
      var left := forwards;
      while left != {}
        invariant left <= forwards && |requested| + |left| == |forwards|
        invariant forall f :: f in requested <==> f in forwards - left
        decreases left
      {
        var fwd :| fwd in left;
        requested := requested + [fwd];
        left := left - {fwd};
      }
    }
  }

  /**
   After any operations the forwards kept, and so re-requested after a
   reconnect, are exactly those with a granted request that no granted cancel
   has followed.
   */
  lemma {:induction false} ForwardKeptIff(ops: seq<ForwardOp>, fwd: ForwardRequest)
    ensures fwd in AllForwards(ops) <==>
            exists i :: 0 <= i < |ops| && ops[i] == Request(fwd, true) &&
                        forall j :: i < j < |ops| ==> ops[j] != Cancel(fwd, true)
    decreases |ops|
  {
    if ops != [] {
      var front, last := ops[..|ops| - 1], ops[|ops| - 1];
      ForwardKeptIff(front, fwd);
      if fwd in AllForwards(front) && last != Cancel(fwd, true) {
        var i :| 0 <= i < |front| && front[i] == Request(fwd, true) &&
                 forall j :: i < j < |front| ==> front[j] != Cancel(fwd, true);
        assert ops[i] == Request(fwd, true);
        assert forall j :: i < j < |ops| ==> ops[j] == (if j < |front| then front[j] else last);
      } else if last == Request(fwd, true) {
        assert ops[|ops| - 1] == Request(fwd, true);
      }
      if i :| 0 <= i < |ops| && ops[i] == Request(fwd, true) &&
              forall j :: i < j < |ops| ==> ops[j] != Cancel(fwd, true) {
        if i < |front| {
          assert front[i] == Request(fwd, true);
          assert forall j :: i < j < |front| ==> front[j] == ops[j];
          assert ops[|ops| - 1] != Cancel(fwd, true);
        }
      }
    }
  }
}
