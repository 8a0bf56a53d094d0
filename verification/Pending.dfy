/**
 The table of pending calls and subscriptions. A waiter stands for the sending
 half of one channel; dropping it tells its receiver that nothing more comes.
 */
module Pending {
  import opened Prelude
  import opened Frame

  type Waiter = nat

  type Answer = Result<Json, CallError>

  datatype Entry = Call(tx: Waiter, deadline: nat) | Subscribe(tx: Waiter, until: Option<nat>)

  type Table = map<string, Entry>

  predicate Overdue(e: Entry, now: nat) {
    match e
    case Call(_, deadline) => deadline <= now
    case Subscribe(_, until) => until.Some? && until.value <= now
  }

  function OverdueIds(t: Table, now: nat): set<string> {
    set id | id in t && Overdue(t[id], now)
  }

  // ---- What each operation does to the table ----

  function Put(t: Table, id: string, e: Entry): Table {
    t[id := e]
  }

  function Without(t: Table, ids: set<string>): Table {
    t - ids
  }

  /** The waiter that a resolve answers: only a call's. */
  function Answered(t: Table, id: string): Option<Waiter> {
    if id in t && t[id].Call? then Some(t[id].tx) else None
  }

  /** The waiter that a push reaches: only a subscription's whose channel has room. */
  function Reached(t: Table, id: string, room: bool): Option<Waiter> {
    if id in t && t[id].Subscribe? && room then Some(t[id].tx) else None
  }

  class PendingRequestMap {
    var pending: Table

    constructor ()
      ensures pending == map[]
    {
      pending := map[];
    }

    /** An entry already there under this id is dropped. */
    method InsertCall(id: string, tx: Waiter, deadline: nat)
      modifies this
      ensures pending == Put(old(pending), id, Call(tx, deadline))
    {
      pending := pending[id := Call(tx, deadline)];
    }

    method InsertSubscribe(id: string, tx: Waiter, until: Option<nat>)
      modifies this
      ensures pending == Put(old(pending), id, Subscribe(tx, until))
    {
      pending := pending[id := Subscribe(tx, until)];
    }

    /** Removes the entry whatever it is; `sent` is the waiter that got the answer. */
    method ResolveCall(id: string) returns (ok: bool, sent: Option<Waiter>)
      modifies this
      ensures pending == Without(old(pending), {id})
      ensures sent == Answered(old(pending), id) && (ok <==> sent.Some?)
    {
      ok, sent := false, None;
      if id in pending {
        var entry := pending[id];
        pending := pending - {id};
        if entry.Call? {
          ok, sent := true, Some(entry.tx);
        }
      }
    }

    /** `room` is whether the channel takes the value. */
    method PushSubscribe(id: string, room: bool) returns (ok: bool, sent: Option<Waiter>)
      ensures sent == Reached(pending, id, room) && (ok <==> sent.Some?)
    {
      if id in pending && pending[id].Subscribe? && room {
        return true, Some(pending[id].tx);
      }
      return false, None;
    }

    /** `complete_subscribe` and `abort` both remove whatever is there. */
    method Remove(id: string) returns (ok: bool)
      modifies this
      ensures ok <==> id in old(pending)
      ensures pending == Without(old(pending), {id})
    {
      ok := id in pending;
      pending := pending - {id};
    }

    /** Removes exactly the overdue entries and returns how many they were. */
    method SweepExpired(now: nat) returns (count: nat)
      modifies this
      ensures pending == Without(old(pending), OverdueIds(old(pending), now))
      ensures count == |old(pending)| - |pending|
    {
      ghost var t0 := pending;
      var expired := OverdueIds(pending, now);
      count := |expired|;
      ghost var done := {};
      while expired != {}
        invariant done + expired == OverdueIds(t0, now) && done !! expired
        invariant pending == t0 - done
        decreases expired
      {
        var id :| id in expired;
        pending := pending - {id};
        expired := expired - {id};
        done := done + {id};
      }
      RemoveSize(t0, OverdueIds(t0, now));
    }
  }

  lemma RemoveSize(t: Table, ids: set<string>)
    requires ids <= t.Keys
    ensures |t - ids| == |t| - |ids|
  {
    assert (t - ids).Keys == t.Keys - ids;
    assert t.Keys == (t.Keys - ids) + ids;
  }

  // ---- Whole runs ----

  /** Waiters are numbered as they are registered. */
  datatype World = World(
    pending: Table,
    registered: nat,
    answers: map<Waiter, Answer>,
    dropped: set<Waiter>,
    delivered: seq<(Waiter, Answer)>)

  const START: World := World(map[], 0, map[], {}, [])

  datatype Step =
    | AddCall(id: string, deadline: nat)
    | AddSubscribe(id: string, until: Option<nat>)
    | Resolve(id: string, value: Answer)
    | Push(id: string, value: Answer, room: bool)
    | Discard(id: string)          // complete_subscribe or abort
    | Sweep(now: nat)

  /** The waiters of these entries. */
  function Waiting(t: Table, ids: set<string>): set<Waiter> {
    set id | id in ids && id in t :: t[id].tx
  }

  function Forget(w: World, ids: set<string>): World {
    w.(pending := Without(w.pending, ids), dropped := w.dropped + Waiting(w.pending, ids))
  }

  /** A new waiter under an unused id. */
  function Register(w: World, id: string, e: Entry): World {
    w.(pending := Put(w.pending, id, e), registered := w.registered + 1)
  }

  /** An entry already there under this id loses its waiter. */
  function Add(w: World, id: string, e: Entry): World {
    Register(Forget(w, {id}), id, e)
  }

  function Settle(w: World, id: string, tx: Waiter, value: Answer): World {
    w.(pending := Without(w.pending, {id}), answers := w.answers[tx := value])
  }

  function Next(w: World, step: Step): World {
    match step
    case AddCall(id, deadline) => Add(w, id, Call(w.registered, deadline))
    case AddSubscribe(id, until) => Add(w, id, Subscribe(w.registered, until))
    case Resolve(id, value) =>
      var tx := Answered(w.pending, id);
      if tx.None? then Forget(w, {id}) else Settle(w, id, tx.value, value)
    case Push(id, value, room) =>
      var tx := Reached(w.pending, id, room);
      if tx.None? then w else w.(delivered := w.delivered + [(tx.value, value)])
    case Discard(id) => Forget(w, {id})
    case Sweep(now) => Forget(w, OverdueIds(w.pending, now))
  }

  function Run(w: World, steps: seq<Step>): World
    decreases |steps|
  {
    if steps == [] then w else Run(Next(w, steps[0]), steps[1..])
  }

  predicate Distinct(t: Table) {
    forall id, id' :: id in t && id' in t && id != id' ==> t[id].tx != t[id'].tx
  }

  /** The waiter is pending under some id. */
  ghost predicate IsPending(t: Table, tx: Waiter) {
    exists id :: id in t && t[id].tx == tx
  }

  /** No waiter is in two places: pending under one id only, answered, dropped. */
  predicate Separate(w: World) {
    && Distinct(w.pending)
    && (forall id :: id in w.pending ==>
          var tx := w.pending[id].tx; tx < w.registered && tx !in w.answers && tx !in w.dropped)
    && w.answers.Keys !! w.dropped
    && (forall tx :: tx in w.answers ==> tx < w.registered)
    && (forall tx :: tx in w.dropped ==> tx < w.registered)
  }

  /** No registered waiter is lost. */
  ghost predicate Covered(w: World) {
    forall tx: Waiter :: tx < w.registered ==> tx in w.answers || tx in w.dropped || IsPending(w.pending, tx)
  }

  predicate Conserved(w: World) {
    |w.pending| + |w.answers| + |w.dropped| == w.registered
  }

  /** Every registered waiter is in exactly one place. */
  ghost predicate Partitioned(w: World) {
    Separate(w) && Covered(w) && Conserved(w)
  }

  lemma {:induction false} WaitingSize(t: Table, ids: set<string>)
    requires Distinct(t) && ids <= t.Keys
    ensures |Waiting(t, ids)| == |ids|
    decreases ids
  {
    if ids == {} {
      assert Waiting(t, ids) == {};
    } else {
      var id :| id in ids;
      WaitingSize(t, ids - {id});
      assert Waiting(t, ids) == Waiting(t, ids - {id}) + {t[id].tx};
    }
  }

  lemma ForgetSeparate(w: World, ids: set<string>)
    requires Separate(w)
    ensures Separate(Forget(w, ids))
  {
  }

  lemma ForgetCovered(w: World, ids: set<string>)
    requires Covered(w)
    ensures Covered(Forget(w, ids))
  {
    var w' := Forget(w, ids);
    forall tx: Waiter | tx < w'.registered && tx !in w'.answers && tx !in w'.dropped
      ensures IsPending(w'.pending, tx)
    {
      var id :| id in w.pending && w.pending[id].tx == tx;
      assert id in w'.pending;
    }
  }

  lemma ForgetConserved(w: World, ids: set<string>)
    requires Separate(w) && Conserved(w)
    ensures Conserved(Forget(w, ids))
  {
    var gone := ids * w.pending.Keys;
    assert Waiting(w.pending, ids) == Waiting(w.pending, gone);
    assert w.pending - ids == w.pending - gone;
    WaitingSize(w.pending, gone);
    RemoveSize(w.pending, gone);
    assert Waiting(w.pending, gone) !! w.dropped;
  }

  lemma ForgetPartitioned(w: World, ids: set<string>)
    requires Partitioned(w)
    ensures Partitioned(Forget(w, ids))
  {
    ForgetSeparate(w, ids);
    ForgetCovered(w, ids);
    ForgetConserved(w, ids);
  }

  lemma RegisterSeparate(w: World, id: string, e: Entry)
    requires Separate(w) && id !in w.pending && e.tx == w.registered
    ensures Separate(Register(w, id, e))
  {
  }

  lemma RegisterCovered(w: World, id: string, e: Entry)
    requires Covered(w) && id !in w.pending && e.tx == w.registered
    ensures Covered(Register(w, id, e))
  {
    var w' := Register(w, id, e);
    forall tx: Waiter | tx < w'.registered && tx !in w'.answers && tx !in w'.dropped
      ensures IsPending(w'.pending, tx)
    {
      if tx == e.tx {
        assert w'.pending[id].tx == tx;
      } else {
        var id0 :| id0 in w.pending && w.pending[id0].tx == tx;
        assert id0 in w'.pending && w'.pending[id0].tx == tx;
      }
    }
  }

  lemma AddPartitioned(w: World, id: string, e: Entry)
    requires Partitioned(w) && e.tx == w.registered
    ensures Partitioned(Add(w, id, e))
  {
    var w1 := Forget(w, {id});
    ForgetPartitioned(w, {id});
    RegisterSeparate(w1, id, e);
    RegisterCovered(w1, id, e);
  }

  lemma SettleSeparate(w: World, id: string, value: Answer)
    requires Separate(w) && id in w.pending
    ensures Separate(Settle(w, id, w.pending[id].tx, value))
  {
  }

  lemma SettleCovered(w: World, id: string, value: Answer)
    requires Covered(w) && id in w.pending
    ensures Covered(Settle(w, id, w.pending[id].tx, value))
  {
    var w' := Settle(w, id, w.pending[id].tx, value);
    forall tx: Waiter | tx < w'.registered && tx !in w'.answers && tx !in w'.dropped
      ensures IsPending(w'.pending, tx)
    {
      var id0 :| id0 in w.pending && w.pending[id0].tx == tx;
      assert id0 in w'.pending;
    }
  }

  lemma SettlePartitioned(w: World, id: string, value: Answer)
    requires Partitioned(w) && id in w.pending
    ensures Partitioned(Settle(w, id, w.pending[id].tx, value))
  {
    SettleSeparate(w, id, value);
    SettleCovered(w, id, value);
    RemoveSize(w.pending, {id});
  }

  /** Deliveries are not part of the account. */
  lemma PushPartitioned(w: World, id: string, value: Answer, room: bool)
    requires Partitioned(w)
    ensures Partitioned(Next(w, Push(id, value, room)))
  {
    var w' := Next(w, Push(id, value, room));
    assert w' == w.(delivered := w'.delivered);
    assert Separate(w');
    assert Covered(w');
  }

  lemma ResolvePartitioned(w: World, id: string, value: Answer)
    requires Partitioned(w)
    ensures Partitioned(Next(w, Resolve(id, value)))
  {
    var w' := Next(w, Resolve(id, value));
    if Answered(w.pending, id).Some? {
      SettlePartitioned(w, id, value);
      assert w' == Settle(w, id, w.pending[id].tx, value);
    } else {
      ForgetPartitioned(w, {id});
      assert w' == Forget(w, {id});
    }
  }

  lemma AddCallPartitioned(w: World, id: string, deadline: nat)
    requires Partitioned(w)
    ensures Partitioned(Next(w, AddCall(id, deadline)))
  {
    AddPartitioned(w, id, Call(w.registered, deadline));
    assert Next(w, AddCall(id, deadline)) == Add(w, id, Call(w.registered, deadline));
  }

  lemma AddSubscribePartitioned(w: World, id: string, until: Option<nat>)
    requires Partitioned(w)
    ensures Partitioned(Next(w, AddSubscribe(id, until)))
  {
    AddPartitioned(w, id, Subscribe(w.registered, until));
    assert Next(w, AddSubscribe(id, until)) == Add(w, id, Subscribe(w.registered, until));
  }

  lemma RemovalForgets(w: World, id: string, now: nat)
    ensures Next(w, Discard(id)) == Forget(w, {id})
    ensures Next(w, Sweep(now)) == Forget(w, OverdueIds(w.pending, now))
  {
  }

  lemma DiscardPartitioned(w: World, id: string)
    requires Partitioned(w)
    ensures Partitioned(Next(w, Discard(id)))
  {
    RemovalForgets(w, id, 0);
    ForgetPartitioned(w, {id});
  }

  lemma SweepPartitioned(w: World, now: nat)
    requires Partitioned(w)
    ensures Partitioned(Next(w, Sweep(now)))
  {
    RemovalForgets(w, "", now);
    ForgetPartitioned(w, OverdueIds(w.pending, now));
  }

  lemma NextPartitioned(w: World, step: Step)
    requires Partitioned(w)
    ensures Partitioned(Next(w, step))
  {
    match step {
      case AddCall(id, deadline) => AddCallPartitioned(w, id, deadline);
      case AddSubscribe(id, until) => AddSubscribePartitioned(w, id, until);
      case Resolve(id, value) => ResolvePartitioned(w, id, value);
      case Push(id, value, room) => PushPartitioned(w, id, value, room);
      case Discard(id) => DiscardPartitioned(w, id);
      case Sweep(now) => SweepPartitioned(w, now);
    }
  }

  /** In every run each registered waiter is in exactly one of pending, answered or dropped. */
  lemma {:induction false} RunPartitioned(w: World, steps: seq<Step>)
    requires Partitioned(w)
    ensures Partitioned(Run(w, steps))
    decreases |steps|
  {
    if steps != [] {
      NextPartitioned(w, steps[0]);
      RunPartitioned(Next(w, steps[0]), steps[1..]);
    }
  }

  /** Everything sent to one waiter, in order. */
  function DeliveredTo(delivered: seq<(Waiter, Answer)>, tx: Waiter): seq<Answer> {
    if delivered == [] then []
    else (if delivered[0].0 == tx then [delivered[0].1] else []) + DeliveredTo(delivered[1..], tx)
  }

  lemma {:induction false} DeliverOne(delivered: seq<(Waiter, Answer)>, to: Waiter, value: Answer, tx: Waiter)
    ensures DeliveredTo(delivered + [(to, value)], tx) ==
            DeliveredTo(delivered, tx) + if to == tx then [value] else []
    decreases |delivered|
  {
    if delivered == [] {
      assert delivered + [(to, value)] == [(to, value)];
      assert [(to, value)][1..] == [];
    } else {
      assert (delivered + [(to, value)])[1..] == delivered[1..] + [(to, value)];
      DeliverOne(delivered[1..], to, value, tx);
    }
  }

  /**
   Nothing happens to a waiter once it is answered or dropped: its answer, if
   any, stays the one it got, and no more reaches it, whoever uses its id.
   */
  lemma {:induction false} SettledIsFinal(w: World, steps: seq<Step>, tx: Waiter)
    requires Partitioned(w) && (tx in w.answers || tx in w.dropped)
    ensures var w' := Run(w, steps);
            && (tx in w'.answers <==> tx in w.answers) && (tx in w'.dropped <==> tx in w.dropped)
            && (tx in w.answers ==> w'.answers[tx] == w.answers[tx])
            && DeliveredTo(w'.delivered, tx) == DeliveredTo(w.delivered, tx)
    decreases |steps|
  {
    if steps != [] {
      var w1 := Next(w, steps[0]);
      NextPartitioned(w, steps[0]);
      SettledStep(w, steps[0], tx);
      SettledIsFinal(w1, steps[1..], tx);
    }
  }

  lemma SettledStep(w: World, step: Step, tx: Waiter)
    requires Separate(w) && (tx in w.answers || tx in w.dropped)
    ensures var w' := Next(w, step);
            && (tx in w'.answers <==> tx in w.answers) && (tx in w'.dropped <==> tx in w.dropped)
            && (tx in w.answers ==> w'.answers[tx] == w.answers[tx])
            && DeliveredTo(w'.delivered, tx) == DeliveredTo(w.delivered, tx)
  {
    if step.Push? && step.id in w.pending {
      DeliverOne(w.delivered, w.pending[step.id].tx, step.value, tx);
    }
  }

  /**
   A pending call leaves the table in exactly one of two ways: answered with
   the value of the resolve that found it, or dropped by a removal, a sweep at
   or after its deadline, or another entry taking its id. Nothing is ever pushed
   to it.
   */
  lemma CallLeavesOnce(w: World, step: Step, id: string)
    requires Separate(w) && id in w.pending && w.pending[id].Call?
    ensures var tx := w.pending[id].tx;
            var w' := Next(w, step);
            && (tx in w'.answers <==> step.Resolve? && step.id == id)
            && (tx in w'.answers ==> w'.answers[tx] == step.value)
            && (tx in w'.dropped <==>
                  || (step.Discard? && step.id == id)
                  || ((step.AddCall? || step.AddSubscribe?) && step.id == id)
                  || (step.Sweep? && w.pending[id].deadline <= step.now))
            && DeliveredTo(w'.delivered, tx) == DeliveredTo(w.delivered, tx)
            && (tx !in w'.answers && tx !in w'.dropped ==> id in w'.pending && w'.pending[id] == w.pending[id])
  {
    var tx := w.pending[id].tx;
    if step.Sweep? {
      WaitingIff(w.pending, OverdueIds(w.pending, step.now), id);
    } else {
      WaitingIff(w.pending, {step.id}, id);
    }
    if step.Push? && step.id in w.pending {
      DeliverOne(w.delivered, w.pending[step.id].tx, step.value, tx);
    }
  }

  lemma WaitingIff(t: Table, ids: set<string>, id: string)
    requires Distinct(t) && id in t
    ensures t[id].tx in Waiting(t, ids) <==> id in ids
  {
  }

  /**
   A pending subscription survives, and receives exactly what is pushed to its
   id, until something removes it; resolving it as a call also removes it.
   */
  lemma SubscriptionStep(w: World, step: Step, id: string)
    requires Separate(w) && id in w.pending && w.pending[id].Subscribe?
    ensures var tx := w.pending[id].tx;
            var w' := Next(w, step);
            && tx !in w'.answers
            && DeliveredTo(w'.delivered, tx) ==
               DeliveredTo(w.delivered, tx) + (if step.Push? && step.id == id && step.room then [step.value] else [])
            && (tx in w'.dropped <==>
                  || ((step.Discard? || step.Resolve? || step.AddCall? || step.AddSubscribe?) && step.id == id)
                  || (step.Sweep? && w.pending[id].until.Some? && w.pending[id].until.value <= step.now))
            && (tx !in w'.dropped ==> id in w'.pending && w'.pending[id] == w.pending[id])
  {
    var tx := w.pending[id].tx;
    if step.Sweep? {
      WaitingIff(w.pending, OverdueIds(w.pending, step.now), id);
    } else {
      WaitingIff(w.pending, {step.id}, id);
    }
    if step.Push? && step.id in w.pending {
      DeliverOne(w.delivered, w.pending[step.id].tx, step.value, tx);
    }
  }

  // ---- Lifetimes ----

  /** A new entry is a call or a subscription as asked, under a new waiter; the other entries are as before. */
  lemma AddedEntry(w: World, id: string, deadline: nat, until: Option<nat>)
    ensures var w' := Next(w, AddCall(id, deadline));
            && w'.pending.Keys == w.pending.Keys + {id} && w'.pending[id] == Call(w.registered, deadline)
            && w'.registered == w.registered + 1
            && forall other :: other in w.pending && other != id ==> w'.pending[other] == w.pending[other]
    ensures var w' := Next(w, AddSubscribe(id, until));
            && w'.pending.Keys == w.pending.Keys + {id} && w'.pending[id] == Subscribe(w.registered, until)
            && w'.registered == w.registered + 1
            && forall other :: other in w.pending && other != id ==> w'.pending[other] == w.pending[other]
  {
  }

  /** The steps leave the entry under this id alone, pushes aside: no removal, no replacement, no sweep at its deadline. */
  predicate Spares(steps: seq<Step>, id: string, deadline: Option<nat>) {
    forall i :: 0 <= i < |steps| ==>
      match steps[i]
      case Push(_, _, _) => true
      case Sweep(now) => deadline.None? || now < deadline.value
      case AddCall(other, _) => other != id
      case AddSubscribe(other, _) => other != id
      case Resolve(other, _) => other != id
      case Discard(other) => other != id
  }

  function DeadlineOf(e: Entry): Option<nat> {
    match e case Call(_, deadline) => Some(deadline) case Subscribe(_, until) => until
  }

  lemma SparedStep(w: World, step: Step, id: string)
    requires id in w.pending && Spares([step], id, DeadlineOf(w.pending[id]))
    ensures var w' := Next(w, step); id in w'.pending && w'.pending[id] == w.pending[id]
  {
    assert [step][0] == step;
  }

  lemma {:induction false} SparedEntryStays(w: World, steps: seq<Step>, id: string)
    requires id in w.pending && Spares(steps, id, DeadlineOf(w.pending[id]))
    ensures var w' := Run(w, steps); id in w'.pending && w'.pending[id] == w.pending[id]
    decreases |steps|
  {
    if steps != [] {
      SparesSplit(steps, id, DeadlineOf(w.pending[id]));
      SparedStep(w, steps[0], id);
      SparedEntryStays(Next(w, steps[0]), steps[1..], id);
    }
  }

  /** A call is answered with the value of the first resolve of its id, if nothing took it before. */
  lemma CallIsAnswered(w: World, id: string, deadline: nat, steps: seq<Step>, value: Answer)
    requires Spares(steps, id, Some(deadline))
    ensures var w' := Next(Run(Next(w, AddCall(id, deadline)), steps), Resolve(id, value));
            w.registered in w'.answers && w'.answers[w.registered] == value && id !in w'.pending
  {
    var w1 := Next(w, AddCall(id, deadline));
    SparedEntryStays(w1, steps, id);
  }

  /** What the step pushes to this id, if its channel has room. */
  function Pushed(step: Step, id: string): seq<Answer> {
    if step.Push? && step.id == id && step.room then [step.value] else []
  }

  function PushedTo(steps: seq<Step>, id: string): seq<Answer> {
    if steps == [] then [] else Pushed(steps[0], id) + PushedTo(steps[1..], id)
  }

  lemma NextSeparate(w: World, step: Step)
    requires Separate(w)
    ensures Separate(Next(w, step))
  {
    match step {
      case AddCall(id, deadline) =>
        ForgetSeparate(w, {id});
        RegisterSeparate(Forget(w, {id}), id, Call(w.registered, deadline));
      case AddSubscribe(id, until) =>
        ForgetSeparate(w, {id});
        RegisterSeparate(Forget(w, {id}), id, Subscribe(w.registered, until));
      case Resolve(id, value) =>
        if Answered(w.pending, id).Some? {
          SettleSeparate(w, id, value);
        } else {
          ForgetSeparate(w, {id});
        }
      case Push(_, _, _) =>
      case Discard(id) => ForgetSeparate(w, {id});
      case Sweep(now) => ForgetSeparate(w, OverdueIds(w.pending, now));
    }
  }

  /** The waiter is subscribed under this id, with this deadline. */
  predicate Subscribed(w: World, id: string, tx: Waiter, until: Option<nat>) {
    Separate(w) && id in w.pending && w.pending[id] == Subscribe(tx, until)
  }

  lemma SubscribedStep(w: World, step: Step, id: string, tx: Waiter, until: Option<nat>)
    requires Subscribed(w, id, tx, until) && Spares([step], id, until)
    ensures Subscribed(Next(w, step), id, tx, until)
    ensures DeliveredTo(Next(w, step).delivered, tx) ==
            DeliveredTo(w.delivered, tx) + Pushed(step, id)
  {
    SubscriptionStep(w, step, id);
    SparedStep(w, step, id);
    NextSeparate(w, step);
  }

  lemma SparesSplit(steps: seq<Step>, id: string, deadline: Option<nat>)
    requires steps != [] && Spares(steps, id, deadline)
    ensures Spares([steps[0]], id, deadline) && Spares(steps[1..], id, deadline)
  {
  }

  /** While nothing removes it, a subscription receives exactly what is pushed to its id, in order. */
  lemma {:induction false} SubscriptionReceives(
    w: World, steps: seq<Step>, id: string, tx: Waiter, until: Option<nat>)
    requires Subscribed(w, id, tx, until) && Spares(steps, id, until)
    ensures DeliveredTo(Run(w, steps).delivered, tx) == DeliveredTo(w.delivered, tx) + PushedTo(steps, id)
    decreases |steps|
  {
    if steps == [] {
      assert DeliveredTo(w.delivered, tx) + [] == DeliveredTo(w.delivered, tx);
    } else {
      SparesSplit(steps, id, until);
      SubscribedStep(w, steps[0], id, tx, until);
      SubscriptionReceives(Next(w, steps[0]), steps[1..], id, tx, until);
      Assoc(DeliveredTo(w.delivered, tx), Pushed(steps[0], id), PushedTo(steps[1..], id));
    }
  }
}
