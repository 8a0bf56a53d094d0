/**
 The key cache: a map of derived keys plus an access order, with lazy expiry and
 least-recently-used eviction. Instants are numbers the caller supplies.
 */
module KeyCache {
  import opened Prelude

  datatype KeyType = Ed25519 | Aes256Gcm | Secp256k1

  datatype CachedKey =
    CachedKey(derivedAt: nat, keyType: KeyType, privateKey: seq<byte>, publicKey: seq<byte>)

  datatype CacheConfig = CacheConfig(ttl: nat, maxEntries: nat)

  datatype CacheState = CacheState(entries: map<string, CachedKey>, order: seq<string>)

  const EMPTY: CacheState := CacheState(map[], [])

  /** `duration_since` saturates at zero. */
  predicate Expired(cfg: CacheConfig, k: CachedKey, now: nat) {
    (if now < k.derivedAt then 0 else now - k.derivedAt) > cfg.ttl
  }

  /** `maxEntries == 0` still leaves room for the entry being inserted. */
  function Capacity(cfg: CacheConfig): nat {
    if cfg.maxEntries == 0 then 1 else cfg.maxEntries
  }

  function Elems(order: seq<string>): set<string> {
    set p | p in order
  }

  predicate NoDuplicates(order: seq<string>) {
    forall i, j :: 0 <= i < j < |order| ==> order[i] != order[j]
  }

  predicate Valid(cfg: CacheConfig, s: CacheState) {
    && NoDuplicates(s.order)
    && Elems(s.order) == s.entries.Keys
    && |s.order| <= Capacity(cfg)
  }

  /** `Vec::retain` keeping what is not dropped. */
  function Retain(order: seq<string>, dropped: set<string>): seq<string> {
    if order == [] then []
    else (if order[0] in dropped then [] else [order[0]]) + Retain(order[1..], dropped)
  }

  function Remove(s: CacheState, dropped: set<string>): CacheState {
    CacheState(s.entries - dropped, Retain(s.order, dropped))
  }

  function Get(cfg: CacheConfig, s: CacheState, path: string, now: nat): (Option<CachedKey>, CacheState) {
    if path !in s.entries then (None, s)
    else if Expired(cfg, s.entries[path], now) then (None, Remove(s, {path}))
    else (Some(s.entries[path]), s.(order := Retain(s.order, {path}) + [path]))
  }

  function EvictLru(s: CacheState): CacheState {
    if s.order == [] then s else Remove(s, {s.order[0]})
  }

  /** An entry of the same path is replaced; otherwise a full cache gives up its first entry. */
  function MakeRoom(cfg: CacheConfig, s: CacheState, path: string): CacheState {
    if path in s.entries then Remove(s, {path})
    else if |s.entries| >= cfg.maxEntries then EvictLru(s)
    else s
  }

  function Insert(cfg: CacheConfig, s: CacheState, path: string, key: CachedKey): CacheState {
    var s' := MakeRoom(cfg, s, path);
    CacheState(s'.entries[path := key], s'.order + [path])
  }

  function ExpiredPaths(cfg: CacheConfig, s: CacheState, now: nat): set<string> {
    set p | p in s.entries && Expired(cfg, s.entries[p], now)
  }

  function EvictExpired(cfg: CacheConfig, s: CacheState, now: nat): CacheState {
    Remove(s, ExpiredPaths(cfg, s, now))
  }

  class KeyCache {
    const config: CacheConfig
    var entries: map<string, CachedKey>
    var order: seq<string>

    constructor (config: CacheConfig)
      ensures this.config == config && State() == EMPTY
    {
      this.config := config;
      this.entries := map[];
      this.order := [];
    }

    function State(): CacheState
      reads this
    {
      CacheState(entries, order)
    }

    method Lookup(path: string, now: nat) returns (key: Option<CachedKey>)
      modifies this
      ensures (key, State()) == Get(config, old(State()), path, now)
    {
      if path in entries {
        if Expired(config, entries[path], now) {
          RemoveEntry(path);
          return None;
        }
        order := Retain(order, {path});
        order := order + [path];
        return Some(entries[path]);
      }
      return None;
    }

    method Store(path: string, key: CachedKey)
      modifies this
      ensures State() == Insert(config, old(State()), path, key)
    {
      if path in entries {
        RemoveEntry(path);
      } else if |entries| >= config.maxEntries {
        if order != [] {
          RemoveEntry(order[0]);
        }
      }
      entries := entries[path := key];
      order := order + [path];
    }

    /** Goes through the expired paths in no particular order. */
    method DropExpired(now: nat)
      modifies this
      ensures State() == EvictExpired(config, old(State()), now)
    {
      ghost var s0 := State();
      var expired := set p | p in entries && Expired(config, entries[p], now);
      ghost var done := {};
      RetainNothing(order);
      while expired != {}
        invariant done + expired == ExpiredPaths(config, s0, now)
        invariant State() == Remove(s0, done)
        decreases expired
      {
        var path :| path in expired;
        RetainTwice(s0.order, done, {path});
        RemoveEntry(path);
        expired := expired - {path};
        done := done + {path};
      }
    }

    method Clear()
      modifies this
      ensures State() == EMPTY
    {
      entries := map[];
      order := [];
    }

    method RemoveEntry(path: string)
      modifies this
      ensures State() == Remove(old(State()), {path})
    {
      entries := entries - {path};
      order := Retain(order, {path});
    }
  }

  /** A lookup succeeds precisely on a stored key no older than the time to live, and gives that key. */
  lemma HitIffFresh(cfg: CacheConfig, s: CacheState, path: string, now: nat)
    ensures var hit := Get(cfg, s, path, now).0;
            && (hit.Some? <==> path in s.entries && now <= s.entries[path].derivedAt + cfg.ttl)
            && (hit.Some? ==> hit.value == s.entries[path])
  {
  }

  /** What has just been stored is found until it expires. */
  lemma StoredIsFound(cfg: CacheConfig, s: CacheState, path: string, key: CachedKey, now: nat)
    ensures Get(cfg, Insert(cfg, s, path, key), path, now).0 ==
            if now <= key.derivedAt + cfg.ttl then Some(key) else None
  {
  }

  /** A lookup removes the entry it finds expired and no other; a hit changes no entry. */
  lemma LookupRemovesExpired(cfg: CacheConfig, s: CacheState, path: string, now: nat)
    ensures Get(cfg, s, path, now).1.entries ==
            if path in s.entries && now > s.entries[path].derivedAt + cfg.ttl then s.entries - {path} else s.entries
  {
  }

  /** The sweep keeps exactly the unexpired entries, as they were and in their order. */
  lemma SweepKeepsFresh(cfg: CacheConfig, s: CacheState, now: nat)
    requires Valid(cfg, s)
    ensures var s' := EvictExpired(cfg, s, now);
            && (forall p :: p in s'.entries <==> p in s.entries && now <= s.entries[p].derivedAt + cfg.ttl)
            && (forall p :: p in s'.entries ==> s'.entries[p] == s.entries[p])
            && Elems(s'.order) == s'.entries.Keys
  {
    RetainElems(s.order, ExpiredPaths(cfg, s, now));
  }

  // ---- What retaining does ----

  lemma RetainNothing(order: seq<string>)
    ensures Retain(order, {}) == order
  {
  }

  lemma {:induction false} RetainAppend(a: seq<string>, b: seq<string>, dropped: set<string>)
    ensures Retain(a + b, dropped) == Retain(a, dropped) + Retain(b, dropped)
    decreases |a|
  {
    if a == [] {
      assert a + b == b;
    } else {
      assert (a + b)[1..] == a[1..] + b;
      RetainAppend(a[1..], b, dropped);
    }
  }

  lemma {:induction false} RetainTwice(order: seq<string>, d: set<string>, d': set<string>)
    ensures Retain(Retain(order, d), d') == Retain(order, d + d')
    decreases |order|
  {
    if order != [] {
      RetainTwice(order[1..], d, d');
      RetainAppend(if order[0] in d then [] else [order[0]], Retain(order[1..], d), d');
    }
  }

  lemma {:induction false} RetainElems(order: seq<string>, dropped: set<string>)
    ensures Elems(Retain(order, dropped)) == Elems(order) - dropped
    ensures |Retain(order, dropped)| <= |order|
    ensures NoDuplicates(order) ==> NoDuplicates(Retain(order, dropped))
    decreases |order|
  {
    if order != [] {
      RetainElems(order[1..], dropped);
      var rest := Retain(order[1..], dropped);
      assert order == [order[0]] + order[1..];
      ElemsCons(order[0], order[1..]);
      ElemsCons(order[0], rest);
      if order[0] in dropped {
        assert Retain(order, dropped) == rest;
      } else {
        assert Retain(order, dropped) == [order[0]] + rest;
      }
    }
  }

  lemma ElemsCons(first: string, rest: seq<string>)
    ensures Elems([first] + rest) == {first} + Elems(rest)
    ensures NoDuplicates([first] + rest) <==> first !in Elems(rest) && NoDuplicates(rest)
  {
    var order := [first] + rest;
    assert forall i :: 0 <= i < |rest| ==> rest[i] == order[i + 1];
    assert order[0] == first;
  }

  lemma {:induction false} RetainAbsent(order: seq<string>, dropped: set<string>)
    requires Elems(order) !! dropped
    ensures Retain(order, dropped) == order
    decreases |order|
  {
    if order != [] {
      assert order[0] in Elems(order);
      assert Elems(order[1..]) <= Elems(order);
      RetainAbsent(order[1..], dropped);
    }
  }

  lemma {:induction false} DistinctCount(order: seq<string>)
    requires NoDuplicates(order)
    ensures |Elems(order)| == |order|
    decreases |order|
  {
    if order != [] {
      DistinctCount(order[1..]);
      assert Elems(order) == {order[0]} + Elems(order[1..]);
      assert order[0] !in order[1..];
    }
  }

  // ---- Runs ----

  datatype CacheOp =
    | GetOp(path: string, now: nat)
    | InsertOp(path: string, key: CachedKey)
    | EvictOp(now: nat)
    | ClearOp

  function Apply(cfg: CacheConfig, s: CacheState, op: CacheOp): CacheState {
    match op
    case GetOp(path, now) => Get(cfg, s, path, now).1
    case InsertOp(path, key) => Insert(cfg, s, path, key)
    case EvictOp(now) => EvictExpired(cfg, s, now)
    case ClearOp => EMPTY
  }

  function RunCache(cfg: CacheConfig, s: CacheState, ops: seq<CacheOp>): CacheState
    decreases |ops|
  {
    if ops == [] then s else RunCache(cfg, Apply(cfg, s, ops[0]), ops[1..])
  }

  /** The path an operation uses: one it inserts or finds. */
  function Use(cfg: CacheConfig, s: CacheState, op: CacheOp): seq<string> {
    match op
    case GetOp(path, now) => if Get(cfg, s, path, now).0.Some? then [path] else []
    case InsertOp(path, _) => [path]
    case _ => []
  }

  /** All uses of a run, in order. */
  function Uses(cfg: CacheConfig, s: CacheState, ops: seq<CacheOp>): seq<string>
    decreases |ops|
  {
    if ops == [] then [] else Use(cfg, s, ops[0]) + Uses(cfg, Apply(cfg, s, ops[0]), ops[1..])
  }

  lemma RemoveValid(cfg: CacheConfig, s: CacheState, dropped: set<string>)
    requires Valid(cfg, s)
    ensures Valid(cfg, Remove(s, dropped))
  {
    RetainElems(s.order, dropped);
  }

  lemma AppendValid(order: seq<string>, path: string)
    requires NoDuplicates(order) && path !in order
    ensures NoDuplicates(order + [path])
    ensures Elems(order + [path]) == Elems(order) + {path}
  {
  }

  lemma MoveToBackKeeps(order: seq<string>, path: string)
    requires NoDuplicates(order) && path in order
    ensures var order' := Retain(order, {path}) + [path];
            NoDuplicates(order') && Elems(order') == Elems(order) && |order'| == |order|
  {
    RetainElems(order, {path});
    AppendValid(Retain(order, {path}), path);
    DistinctCount(order);
    DistinctCount(Retain(order, {path}) + [path]);
  }

  lemma RemoveOne(order: seq<string>, path: string)
    requires NoDuplicates(order) && path in order
    ensures |Retain(order, {path})| < |order|
  {
    RetainElems(order, {path});
    DistinctCount(order);
    DistinctCount(Retain(order, {path}));
    assert path in Elems(order);
  }

  lemma MakeRoomValid(cfg: CacheConfig, s: CacheState, path: string)
    requires Valid(cfg, s)
    ensures var s' := MakeRoom(cfg, s, path);
            Valid(cfg, s') && path !in s'.entries && |s'.order| < Capacity(cfg)
  {
    DistinctCount(s.order);
    if path in s.entries {
      assert path in Elems(s.order);
      RemoveValid(cfg, s, {path});
      RemoveOne(s.order, path);
    } else if |s.entries| >= cfg.maxEntries && s.order != [] {
      RemoveValid(cfg, s, {s.order[0]});
      RemoveOne(s.order, s.order[0]);
    }
  }

  lemma InsertValid(cfg: CacheConfig, s: CacheState, path: string, key: CachedKey)
    requires Valid(cfg, s)
    ensures Valid(cfg, Insert(cfg, s, path, key))
  {
    MakeRoomValid(cfg, s, path);
    var s' := MakeRoom(cfg, s, path);
    assert path !in Elems(s'.order);
    AppendValid(s'.order, path);
  }

  lemma ApplyValid(cfg: CacheConfig, s: CacheState, op: CacheOp)
    requires Valid(cfg, s)
    ensures Valid(cfg, Apply(cfg, s, op))
  {
    match op {
      case GetOp(path, now) =>
        if path in s.entries {
          RemoveValid(cfg, s, {path});
          MoveToBackKeeps(s.order, path);
        }
      case InsertOp(path, key) => InsertValid(cfg, s, path, key);
      case EvictOp(now) => RemoveValid(cfg, s, ExpiredPaths(cfg, s, now));
      case ClearOp =>
    }
  }

  /** In every run the order lists exactly the keys of the map, once each, and never more than the capacity. */
  lemma {:induction false} RunValid(cfg: CacheConfig, s: CacheState, ops: seq<CacheOp>)
    requires Valid(cfg, s)
    ensures Valid(cfg, RunCache(cfg, s, ops))
    decreases |ops|
  {
    if ops != [] {
      ApplyValid(cfg, s, ops[0]);
      RunValid(cfg, Apply(cfg, s, ops[0]), ops[1..]);
    }
  }

  // ---- The order is the recency order ----

  /** The distinct paths of a history by their last use, oldest first. */
  function Recent(uses: seq<string>): seq<string>
    decreases |uses|
  {
    if uses == [] then [] else
      var last := uses[|uses| - 1];
      Retain(Recent(uses[..|uses| - 1]), {last}) + [last]
  }

  /** The order is the history's recency order with the paths no longer cached left out. */
  ghost predicate OrderedByRecency(uses: seq<string>, s: CacheState) {
    exists gone: set<string> :: gone !! s.entries.Keys && s.order == Retain(Recent(uses), gone)
  }

  lemma RecencyAfterUse(uses: seq<string>, order: seq<string>, gone: set<string>, path: string)
    requires order == Retain(Recent(uses), gone)
    ensures Retain(order, {path}) + [path] == Retain(Recent(uses + [path]), gone - {path})
  {
    var recent := Recent(uses);
    assert (uses + [path])[..|uses|] == uses;
    RetainAppend(Retain(recent, {path}), [path], gone - {path});
    RetainTwice(recent, {path}, gone - {path});
    RetainTwice(recent, gone, {path});
    assert {path} + (gone - {path}) == gone + {path};
  }

  lemma RecencyAfterRemove(uses: seq<string>, s: CacheState, dropped: set<string>)
    requires OrderedByRecency(uses, s)
    ensures OrderedByRecency(uses, Remove(s, dropped))
  {
    var gone :| gone !! s.entries.Keys && s.order == Retain(Recent(uses), gone);
    RetainTwice(Recent(uses), gone, dropped);
    assert (gone + dropped) !! Remove(s, dropped).entries.Keys;
  }

  lemma RecencyAfterInsert(cfg: CacheConfig, uses: seq<string>, s: CacheState, path: string, key: CachedKey)
    requires Valid(cfg, s) && OrderedByRecency(uses, s)
    ensures OrderedByRecency(uses + [path], Insert(cfg, s, path, key))
  {
    var s' := MakeRoom(cfg, s, path);
    MakeRoomValid(cfg, s, path);
    if path in s.entries {
      RecencyAfterRemove(uses, s, {path});
    } else if s.order != [] {
      RecencyAfterRemove(uses, s, {s.order[0]});
    }
    var gone :| gone !! s'.entries.Keys && s'.order == Retain(Recent(uses), gone);
    assert path !in Elems(s'.order);
    RetainAbsent(s'.order, {path});
    RecencyAfterUse(uses, s'.order, gone, path);
    assert (gone - {path}) !! Insert(cfg, s, path, key).entries.Keys;
  }

  lemma RecencyAfterHit(cfg: CacheConfig, uses: seq<string>, s: CacheState, path: string, now: nat)
    requires OrderedByRecency(uses, s) && Get(cfg, s, path, now).0.Some?
    ensures OrderedByRecency(uses + [path], Get(cfg, s, path, now).1)
  {
    var gone :| gone !! s.entries.Keys && s.order == Retain(Recent(uses), gone);
    RecencyAfterUse(uses, s.order, gone, path);
    assert (gone - {path}) !! s.entries.Keys;
  }

  lemma RecencyStep(cfg: CacheConfig, uses: seq<string>, s: CacheState, op: CacheOp)
    requires Valid(cfg, s) && OrderedByRecency(uses, s)
    ensures OrderedByRecency(uses + Use(cfg, s, op), Apply(cfg, s, op))
  {
    assert uses + [] == uses;
    match op {
      case GetOp(path, now) =>
        if Get(cfg, s, path, now).0.Some? {
          RecencyAfterHit(cfg, uses, s, path, now);
        } else if path in s.entries {
          RecencyAfterRemove(uses, s, {path});
        }
      case InsertOp(path, key) => RecencyAfterInsert(cfg, uses, s, path, key);
      case EvictOp(now) => RecencyAfterRemove(uses, s, ExpiredPaths(cfg, s, now));
      case ClearOp => ClearedOrder(uses);
    }
  }

  lemma UsesFirst(cfg: CacheConfig, uses: seq<string>, s: CacheState, ops: seq<CacheOp>)
    requires ops != []
    ensures uses + Uses(cfg, s, ops) ==
            (uses + Use(cfg, s, ops[0])) + Uses(cfg, Apply(cfg, s, ops[0]), ops[1..])
  {
  }

  /** In every run the access order is the order of last use. */
  lemma {:induction false} RunOrderedByRecency(cfg: CacheConfig, uses: seq<string>, s: CacheState, ops: seq<CacheOp>)
    requires Valid(cfg, s) && OrderedByRecency(uses, s)
    ensures OrderedByRecency(uses + Uses(cfg, s, ops), RunCache(cfg, s, ops))
    decreases |ops|
  {
    if ops == [] {
      assert uses + [] == uses;
    } else {
      var used, s' := Use(cfg, s, ops[0]), Apply(cfg, s, ops[0]);
      RecencyStep(cfg, uses, s, ops[0]);
      ApplyValid(cfg, s, ops[0]);
      RunOrderedByRecency(cfg, uses + used, s', ops[1..]);
      UsesFirst(cfg, uses, s, ops);
    }
  }

  lemma ElemsEmpty(order: seq<string>)
    ensures Elems(order) == {} <==> order == []
  {
    if order != [] {
      assert order[0] in Elems(order);
    }
  }

  lemma ClearedOrder(uses: seq<string>)
    ensures OrderedByRecency(uses, EMPTY)
  {
    var gone := Elems(Recent(uses));
    RetainElems(Recent(uses), gone);
    ElemsEmpty(Retain(Recent(uses), gone));
    assert gone !! EMPTY.entries.Keys && EMPTY.order == Retain(Recent(uses), gone);
  }

  // ---- How long an entry survives ----

  /** The paths behind `p` in the order: those used after it and still cached. */
  function Behind(order: seq<string>, p: string): set<string> {
    if order == [] then {} else if order[0] == p then Elems(order[1..]) else Behind(order[1..], p)
  }

  lemma {:induction false} BehindRetain(order: seq<string>, p: string, dropped: set<string>)
    requires p !in dropped
    ensures Behind(Retain(order, dropped), p) == Behind(order, p) - dropped
    decreases |order|
  {
    if order != [] {
      if order[0] == p {
        assert Retain(order, dropped)[1..] == Retain(order[1..], dropped);
        RetainElems(order[1..], dropped);
      } else {
        BehindRetain(order[1..], p, dropped);
        if order[0] !in dropped {
          assert Retain(order, dropped)[1..] == Retain(order[1..], dropped);
        } else {
          assert Retain(order, dropped) == Retain(order[1..], dropped);
        }
      }
    }
  }

  lemma {:induction false} BehindAppend(order: seq<string>, p: string, q: string)
    requires p in order
    ensures Behind(order + [q], p) == Behind(order, p) + {q}
    decreases |order|
  {
    assert (order + [q])[1..] == order[1..] + [q];
    if order[0] == p {
      assert Elems(order[1..] + [q]) == Elems(order[1..]) + {q};
    } else {
      BehindAppend(order[1..], p, q);
    }
  }

  lemma {:induction false} BehindSize(order: seq<string>, p: string)
    requires NoDuplicates(order) && p in order
    ensures p !in Behind(order, p) && Behind(order, p) <= Elems(order)
    ensures |Behind(order, p)| < |order|
    decreases |order|
  {
    if order[0] == p {
      DistinctCount(order[1..]);
    } else {
      BehindSize(order[1..], p);
    }
  }

  /** Nothing is cleared, `p` is not used, and no clock reading finds `p`'s key expired. */
  predicate Undisturbed(cfg: CacheConfig, ops: seq<CacheOp>, p: string, key: CachedKey) {
    forall i :: 0 <= i < |ops| ==>
      match ops[i]
      case GetOp(path, now) => path != p && !Expired(cfg, key, now)
      case InsertOp(path, _) => path != p
      case EvictOp(now) => !Expired(cfg, key, now)
      case ClearOp => false
  }

  lemma CardinalSubset(a: set<string>, b: set<string>)
    requires a <= b
    ensures |a| <= |b|
  {
    assert b == a + (b - a);
  }

  /** Only an insertion that finds the cache full of paths used after `p` can remove `p`. */
  lemma MakeRoomKeeps(cfg: CacheConfig, s: CacheState, q: string, p: string)
    requires Valid(cfg, s) && p in s.entries && q != p
    requires |Behind(s.order, p) + {q}| < Capacity(cfg)
    ensures var s' := MakeRoom(cfg, s, q); p in s'.entries && s'.entries[p] == s.entries[p]
  {
    if q !in s.entries && |s.entries| >= cfg.maxEntries {
      VictimIsAnother(cfg, s, q, p);
    }
  }

  lemma VictimIsAnother(cfg: CacheConfig, s: CacheState, q: string, p: string)
    requires Valid(cfg, s) && p in s.entries && q !in s.entries && |s.entries| >= cfg.maxEntries
    requires |Behind(s.order, p) + {q}| < Capacity(cfg)
    ensures s.order != [] && s.order[0] != p
  {
    assert p in Elems(s.order) && q !in Elems(s.order);
    DistinctCount(s.order);
    DistinctCount(s.order[1..]);
    assert Elems(s.order[1..]) <= Elems(s.order);
  }

  lemma {:induction false} FrontNotBehind(order: seq<string>, p: string)
    requires NoDuplicates(order) && order != []
    ensures order[0] !in Behind(order, p)
    decreases |order|
  {
    if order[0] != p {
      BehindWithin(order[1..], p);
    }
  }

  lemma {:induction false} BehindWithin(order: seq<string>, p: string)
    ensures Behind(order, p) <= Elems(order)
    decreases |order|
  {
    if order != [] && order[0] != p {
      BehindWithin(order[1..], p);
    }
  }

  lemma InsertKeeps(cfg: CacheConfig, s: CacheState, q: string, key: CachedKey, p: string)
    requires Valid(cfg, s) && p in s.entries && q != p
    requires |Behind(s.order, p) + {q}| < Capacity(cfg)
    ensures var s' := Insert(cfg, s, q, key);
            && p in s'.entries && s'.entries[p] == s.entries[p]
            && Behind(s'.order, p) == Behind(s.order, p) + {q}
  {
    MakeRoomKeeps(cfg, s, q, p);
    InsertTracks(cfg, s, q, key, p);
  }

  lemma HitKeeps(cfg: CacheConfig, s: CacheState, q: string, now: nat, p: string)
    requires Valid(cfg, s) && p in s.entries && q != p && Get(cfg, s, q, now).0.Some?
    ensures Behind(Get(cfg, s, q, now).1.order, p) == Behind(s.order, p) + {q}
  {
    BehindRetain(s.order, p, {q});
    RetainElems(s.order, {q});
    assert p in Elems(Retain(s.order, {q}));
    BehindAppend(Retain(s.order, {q}), p, q);
  }

  lemma StepKeeps(cfg: CacheConfig, s: CacheState, op: CacheOp, p: string, since: set<string>)
    requires Valid(cfg, s) && p in s.entries && Undisturbed(cfg, [op], p, s.entries[p])
    requires Behind(s.order, p) <= since && |since + Elems(Use(cfg, s, op))| < Capacity(cfg)
    ensures var s' := Apply(cfg, s, op);
            && p in s'.entries && s'.entries[p] == s.entries[p]
            && Behind(s'.order, p) <= since + Elems(Use(cfg, s, op))
  {
    assert Undisturbed(cfg, [op], p, s.entries[p]) && [op][0] == op;
    match op {
      case GetOp(q, now) =>
        if Get(cfg, s, q, now).0.Some? {
          HitKeeps(cfg, s, q, now, p);
        } else if q in s.entries {
          BehindRetain(s.order, p, {q});
        }
      case InsertOp(q, key) =>
        assert Elems([q]) == {q};
        CardinalSubset(Behind(s.order, p) + {q}, since + {q});
        InsertKeeps(cfg, s, q, key, p);
      case EvictOp(now) => BehindRetain(s.order, p, ExpiredPaths(cfg, s, now));
    }
  }

  lemma ElemsOfUses(cfg: CacheConfig, s: CacheState, ops: seq<CacheOp>)
    requires ops != []
    ensures Elems(Uses(cfg, s, ops)) ==
            Elems(Use(cfg, s, ops[0])) + Elems(Uses(cfg, Apply(cfg, s, ops[0]), ops[1..]))
  {
  }

  lemma {:induction false} SurvivesFrom(
    cfg: CacheConfig, s: CacheState, ops: seq<CacheOp>, p: string, since: set<string>)
    requires Valid(cfg, s) && p in s.entries && Undisturbed(cfg, ops, p, s.entries[p])
    requires Behind(s.order, p) <= since && |since + Elems(Uses(cfg, s, ops))| < Capacity(cfg)
    ensures var s' := RunCache(cfg, s, ops); p in s'.entries && s'.entries[p] == s.entries[p]
    decreases |ops|
  {
    if ops != [] {
      var op, s' := ops[0], Apply(cfg, s, ops[0]);
      var used, later := Use(cfg, s, op), Uses(cfg, s', ops[1..]);
      ElemsOfUses(cfg, s, ops);
      assert (since + Elems(used)) + Elems(later) == since + Elems(Uses(cfg, s, ops));
      CardinalSubset(since + Elems(used), since + Elems(Uses(cfg, s, ops)));
      StepKeeps(cfg, s, op, p, since);
      ApplyValid(cfg, s, op);
      SurvivesFrom(cfg, s', ops[1..], p, since + Elems(used));
    }
  }

  /** No operation of the run meets an expired entry. */
  predicate NothingExpires(cfg: CacheConfig, s: CacheState, ops: seq<CacheOp>)
    decreases |ops|
  {
    ops == [] ||
    (&& (ops[0].GetOp? && ops[0].path in s.entries ==> !Expired(cfg, s.entries[ops[0].path], ops[0].now))
     && (ops[0].EvictOp? ==> ExpiredPaths(cfg, s, ops[0].now) == {})
     && NothingExpires(cfg, Apply(cfg, s, ops[0]), ops[1..]))
  }

  lemma StepTracks(cfg: CacheConfig, s: CacheState, op: CacheOp, p: string)
    requires Valid(cfg, s) && p in s.entries && Undisturbed(cfg, [op], p, s.entries[p])
    requires NothingExpires(cfg, s, [op])
    ensures var s' := Apply(cfg, s, op);
            p in s'.entries ==>
              s'.entries[p] == s.entries[p] && Behind(s'.order, p) == Behind(s.order, p) + Elems(Use(cfg, s, op))
  {
    assert [op][0] == op;
    match op {
      case GetOp(q, now) => LookupTracks(cfg, s, q, now, p);
      case InsertOp(q, key) =>
        assert Elems([q]) == {q};
        if p in Insert(cfg, s, q, key).entries {
          InsertTracks(cfg, s, q, key, p);
          InsertOnlyReplaces(cfg, s, q, key, p);
        }
      case EvictOp(now) =>
        RetainNothing(s.order);
        assert Elems([]) == {};
    }
  }

  lemma LookupTracks(cfg: CacheConfig, s: CacheState, q: string, now: nat, p: string)
    requires Valid(cfg, s) && p in s.entries && q != p
    requires q in s.entries ==> !Expired(cfg, s.entries[q], now)
    ensures var s' := Apply(cfg, s, GetOp(q, now));
            s'.entries == s.entries &&
            Behind(s'.order, p) == Behind(s.order, p) + Elems(Use(cfg, s, GetOp(q, now)))
  {
    assert Elems([q]) == {q} && Elems([]) == {};
    if q in s.entries {
      HitKeeps(cfg, s, q, now, p);
    }
  }

  lemma InsertOnlyReplaces(cfg: CacheConfig, s: CacheState, q: string, key: CachedKey, p: string)
    requires q != p && p in Insert(cfg, s, q, key).entries
    ensures p in s.entries && Insert(cfg, s, q, key).entries[p] == s.entries[p]
  {
  }

  lemma InsertTracks(cfg: CacheConfig, s: CacheState, q: string, key: CachedKey, p: string)
    requires Valid(cfg, s) && p in s.entries && q != p
    requires p in Insert(cfg, s, q, key).entries
    ensures Behind(Insert(cfg, s, q, key).order, p) == Behind(s.order, p) + {q}
  {
    var s' := MakeRoom(cfg, s, q);
    MakeRoomValid(cfg, s, q);
    assert p in Elems(s'.order);
    BehindAppend(s'.order, p, q);
    if q in s.entries {
      BehindRetain(s.order, p, {q});
    } else if |s.entries| >= cfg.maxEntries && s.order != [] {
      FrontNotBehind(s.order, p);
      BehindRetain(s.order, p, {s.order[0]});
    }
  }

  lemma UndisturbedSplit(cfg: CacheConfig, ops: seq<CacheOp>, p: string, key: CachedKey)
    requires ops != [] && Undisturbed(cfg, ops, p, key)
    ensures Undisturbed(cfg, [ops[0]], p, key) && Undisturbed(cfg, ops[1..], p, key)
  {
  }

  lemma NeverComesBack(cfg: CacheConfig, s: CacheState, op: CacheOp, p: string)
    requires p !in s.entries && (op.InsertOp? ==> op.path != p)
    ensures p !in Apply(cfg, s, op).entries
  {
  }

  /** While `p` stays cached, exactly the paths used since stand behind it; once gone it stays gone. */
  lemma {:induction false} RunTracks(cfg: CacheConfig, s: CacheState, ops: seq<CacheOp>, p: string, key: CachedKey)
    requires Valid(cfg, s) && Undisturbed(cfg, ops, p, key) && NothingExpires(cfg, s, ops)
    requires p in s.entries ==> s.entries[p] == key
    ensures var s' := RunCache(cfg, s, ops);
            p in s'.entries ==> p in s.entries && Behind(s'.order, p) == Behind(s.order, p) + Elems(Uses(cfg, s, ops))
    decreases |ops|
  {
    if ops != [] {
      var op, s' := ops[0], Apply(cfg, s, ops[0]);
      UndisturbedSplit(cfg, ops, p, key);
      if p in s.entries {
        StepTracks(cfg, s, op, p);
      } else {
        NeverComesBack(cfg, s, op, p);
      }
      ApplyValid(cfg, s, op);
      RunTracks(cfg, s', ops[1..], p, key);
      ElemsOfUses(cfg, s, ops);
    }
  }

  /**
   The LRU guarantee, under expiries of other entries: an unexpired entry is
   lost only after at least `Capacity` distinct other paths were inserted or
   hit since its own last use.
   */
  lemma EvictedOnlyAfterCapacityOthers(cfg: CacheConfig, s: CacheState, ops: seq<CacheOp>, p: string)
    requires Valid(cfg, s) && s.order != [] && s.order[|s.order| - 1] == p
    requires Undisturbed(cfg, ops, p, s.entries[p])
    ensures var s' := RunCache(cfg, s, ops);
            || |Elems(Uses(cfg, s, ops))| >= Capacity(cfg)
            || (p in s'.entries && s'.entries[p] == s.entries[p])
  {
    assert p in Elems(s.order);
    NothingBehindLast(s.order);
    if |Elems(Uses(cfg, s, ops))| < Capacity(cfg) {
      assert {} + Elems(Uses(cfg, s, ops)) == Elems(Uses(cfg, s, ops));
      SurvivesFrom(cfg, s, ops, p, {});
    }
  }

  /**
   Exactly so when nothing expires meanwhile: the entry is still there if and
   only if fewer than `Capacity` distinct other paths were used since.
   */
  lemma CachedIffFewerThanCapacityOthers(cfg: CacheConfig, s: CacheState, ops: seq<CacheOp>, p: string)
    requires Valid(cfg, s) && s.order != [] && s.order[|s.order| - 1] == p
    requires Undisturbed(cfg, ops, p, s.entries[p]) && NothingExpires(cfg, s, ops)
    ensures p in RunCache(cfg, s, ops).entries <==> |Elems(Uses(cfg, s, ops))| < Capacity(cfg)
  {
    assert p in Elems(s.order);
    NothingBehindLast(s.order);
    EvictedOnlyAfterCapacityOthers(cfg, s, ops, p);
    RunTracks(cfg, s, ops, p, s.entries[p]);
    var s' := RunCache(cfg, s, ops);
    RunValid(cfg, s, ops);
    if p in s'.entries {
      assert p in Elems(s'.order);
      BehindSize(s'.order, p);
    }
  }

  lemma {:induction false} NothingBehindLast(order: seq<string>)
    requires NoDuplicates(order) && order != []
    ensures Behind(order, order[|order| - 1]) == {}
    decreases |order|
  {
    if |order| > 1 {
      NothingBehindLast(order[1..]);
    }
  }
}
