/**
 The secret service: an unlock/lock state machine over the key cache. Each
 operation holds the lock throughout, so operations are atomic. The
 cryptography, the random numbers and the clock are parameters.
 */
module SecretService {
  import opened Prelude
  import opened Derivation
  import opened KeyCache
  import opened Text

  const ENCRYPTION: string := "m/74'/2'/0'/0'"

  /**
   `normalize` validates a mnemonic phrase; `toSeed` stretches phrase and
   passphrase; `seal` and `open` are AES-256-GCM; `ethereum` is the build
   feature without which secp256k1 keys are unsupported.
   */
  datatype Crypto = Crypto(
    normalize: string -> Option<string>,
    toSeed: (string, string) -> seq<byte>,
    hd: Hd,
    secp: Secp,
    ethereum: bool,
    seal: (seq<byte>, seq<byte>, string) -> Option<seq<byte>>,
    open: (seq<byte>, seq<byte>, seq<byte>) -> Option<string>)
  {
    /** Ed25519 public keys have 32 bytes, compressed secp256k1 ones 33. */
    ghost predicate KeySizes() {
      && (forall x :: |hd.keys(x).privateKey| == 32 && |hd.keys(x).publicKey| == 32)
      && (forall x :: |secp.keys(x).privateKey| == 32 && |secp.keys(x).publicKey| == 33)
    }

    ghost predicate OpensWhatItSealed() {
      forall key, iv, text :: seal(key, iv, text).Some? ==> open(key, iv, seal(key, iv, text).value) == Some(text)
    }
  }

  datatype Error =
    | ServiceLocked
    | AlreadyUnlocked
    | BadMnemonic
    | DerivationFailed(error: DerivationError)
    | EncryptionFailed
    | UnsupportedKeyType

  datatype DerivedKey = DerivedKey(keyType: KeyType, keys: KeyPair)

  datatype EncryptedData = EncryptedData(keyVersion: nat, iv: seq<byte>, data: seq<byte>)

  datatype EncryptionKey = EncryptionKey(bytes: seq<byte>, version: nat)

  datatype Service = Service(
    mnemonic: Option<string>, seed: Option<seq<byte>>, unlocked: bool, cache: CacheState)

  const LOCKED: Service := Service(None, None, false, EMPTY)

  /** The two clock readings of one operation: at the lookup, and when a new key is stored. */
  datatype Clock = Clock(now: nat, stored: nat)

  /** Derivation straight from the seed, without a cache. Only secp256k1 uses the other curve. */
  function Direct(c: Crypto, kind: KeyType, seed: seq<byte>, path: string): Result<KeyPair, Error> {
    match (if kind.Secp256k1? then DeriveSecpPath(c.secp, seed, path) else DerivePath(c.hd, seed, path))
    case Ok(x) => Ok(if kind.Secp256k1? then c.secp.keys(x) else c.hd.keys(x))
    case Err(e) => Err(DerivationFailed(e))
  }

  function Unlock(c: Crypto, s: Service, phrase: string, passphrase: Option<string>): (Result<(), Error>, Service) {
    if s.unlocked then (Err(AlreadyUnlocked), s) else
      match c.normalize(phrase)
      case None => (Err(BadMnemonic), s)
      case Some(m) =>
        var seed := c.toSeed(m, if passphrase.Some? then passphrase.value else "");
        (Ok(()), s.(mnemonic := Some(m), seed := Some(seed), unlocked := true))
  }

  /** `generated` is the random phrase, or nothing for an unsupported word count. */
  function UnlockNew(c: Crypto, s: Service, generated: Option<string>): (Result<string, Error>, Service) {
    if s.unlocked then (Err(AlreadyUnlocked), s)
    else if generated.None? then (Err(BadMnemonic), s)
    else
      var m := generated.value;
      (Ok(m), s.(mnemonic := Some(m), seed := Some(c.toSeed(m, "")), unlocked := true))
  }

  /** The body shared by the derive operations: cached entry if any, else derive and store. */
  function Fetch(c: Crypto, cfg: CacheConfig, s: Service, kind: KeyType, path: string, t: Clock)
    : (Result<DerivedKey, Error>, Service)
  {
    if !s.unlocked then (Err(ServiceLocked), s) else
      var (hit, cache) := Get(cfg, s.cache, path, t.now);
      if hit.Some? then
        (Ok(DerivedKey(hit.value.keyType, KeyPair(hit.value.privateKey, hit.value.publicKey))), s.(cache := cache))
      else if s.seed.None? then (Err(ServiceLocked), s.(cache := cache))
      else
        match Direct(c, kind, s.seed.value, path)
        case Err(e) => (Err(e), s.(cache := cache))
        case Ok(keys) =>
          var entry := CachedKey(t.stored, kind, keys.privateKey, keys.publicKey);
          (Ok(DerivedKey(kind, keys)), s.(cache := Insert(cfg, cache, path, entry)))
  }

  function DeriveEthereum(c: Crypto, cfg: CacheConfig, s: Service, path: string, t: Clock)
    : (Result<DerivedKey, Error>, Service)
  {
    if c.ethereum then Fetch(c, cfg, s, Secp256k1, path, t) else (Err(UnsupportedKeyType), s)
  }

  /** The key's version is recorded beside the ciphertext. */
  function Seal(c: Crypto, key: EncryptionKey, iv: seq<byte>, text: string): Result<EncryptedData, Error> {
    match c.seal(key.bytes, iv, text)
    case None => Err(EncryptionFailed)
    case Some(data) => Ok(EncryptedData(key.version, iv, data))
  }

  function Open(c: Crypto, key: EncryptionKey, blob: EncryptedData): Result<string, Error> {
    match c.open(key.bytes, blob.iv, blob.data)
    case None => Err(EncryptionFailed)
    case Some(text) => Ok(text)
  }

  function Encrypt(c: Crypto, cfg: CacheConfig, s: Service, text: string, version: nat, iv: seq<byte>, t: Clock)
    : (Result<EncryptedData, Error>, Service)
  {
    var (r, s') := Fetch(c, cfg, s, Aes256Gcm, ENCRYPTION, t);
    match r
    case Err(e) => (Err(e), s')
    case Ok(key) => (Seal(c, EncryptionKey(key.keys.privateKey, version), iv, text), s')
  }

  function Decrypt(c: Crypto, cfg: CacheConfig, s: Service, blob: EncryptedData, t: Clock)
    : (Result<string, Error>, Service)
  {
    var (r, s') := Fetch(c, cfg, s, Aes256Gcm, ENCRYPTION, t);
    match r
    case Err(e) => (Err(e), s')
    case Ok(key) => (Open(c, EncryptionKey(key.keys.privateKey, blob.keyVersion), blob), s')
  }

  class SecretServiceHandle {
    const crypto: Crypto
    const cache: KeyCache
    var mnemonic: Option<string>
    var seed: Option<seq<byte>>
    var unlocked: bool

    constructor (crypto: Crypto, config: CacheConfig)
      ensures this.crypto == crypto && cache.config == config && fresh(cache) && State() == LOCKED
    {
      this.crypto := crypto;
      this.cache := new KeyCache(config);
      this.mnemonic := None;
      this.seed := None;
      this.unlocked := false;
    }

    function State(): Service
      reads this, cache
    {
      Service(mnemonic, seed, unlocked, cache.State())
    }

    method UnlockWith(phrase: string, passphrase: Option<string>) returns (r: Result<(), Error>)
      modifies this
      ensures (r, State()) == Unlock(crypto, old(State()), phrase, passphrase)
    {
      if unlocked {
        return Err(AlreadyUnlocked);
      }
      var m := crypto.normalize(phrase);
      if m.None? {
        return Err(BadMnemonic);
      }
      seed := Some(crypto.toSeed(m.value, if passphrase.Some? then passphrase.value else ""));
      mnemonic := m;
      unlocked := true;
      return Ok(());
    }

    method UnlockGenerated(generated: Option<string>) returns (r: Result<string, Error>)
      modifies this
      ensures (r, State()) == UnlockNew(crypto, old(State()), generated)
    {
      if unlocked {
        return Err(AlreadyUnlocked);
      }
      if generated.None? {
        return Err(BadMnemonic);
      }
      seed := Some(crypto.toSeed(generated.value, ""));
      mnemonic := generated;
      unlocked := true;
      return Ok(generated.value);
    }

    method Lock()
      modifies this, cache
      ensures State() == LOCKED
    {
      cache.Clear();
      seed := None;
      mnemonic := None;
      unlocked := false;
    }

    method FetchKey(kind: KeyType, path: string, t: Clock) returns (r: Result<DerivedKey, Error>)
      modifies this, cache
      ensures (r, State()) == Fetch(crypto, cache.config, old(State()), kind, path, t)
    {
      if !unlocked {
        return Err(ServiceLocked);
      }
      var hit := cache.Lookup(path, t.now);
      if hit.Some? {
        return Ok(DerivedKey(hit.value.keyType, KeyPair(hit.value.privateKey, hit.value.publicKey)));
      }
      if seed.None? {
        return Err(ServiceLocked);
      }
      var derived := Direct(crypto, kind, seed.value, path);
      if derived.Err? {
        return Err(derived.error);
      }
      var keys := derived.value;
      cache.Store(path, CachedKey(t.stored, kind, keys.privateKey, keys.publicKey));
      return Ok(DerivedKey(kind, keys));
    }

    method DeriveEd25519(path: string, t: Clock) returns (r: Result<DerivedKey, Error>)
      modifies this, cache
      ensures (r, State()) == Fetch(crypto, cache.config, old(State()), Ed25519, path, t)
    {
      r := FetchKey(Ed25519, path, t);
    }

    method DeriveEncryptionKey(path: string, t: Clock) returns (r: Result<DerivedKey, Error>)
      modifies this, cache
      ensures (r, State()) == Fetch(crypto, cache.config, old(State()), Aes256Gcm, path, t)
    {
      r := FetchKey(Aes256Gcm, path, t);
    }

    method DeriveEthereumKey(path: string, t: Clock) returns (r: Result<DerivedKey, Error>)
      modifies this, cache
      ensures (r, State()) == DeriveEthereum(crypto, cache.config, old(State()), path, t)
    {
      if !crypto.ethereum {
        return Err(UnsupportedKeyType);
      }
      r := FetchKey(Secp256k1, path, t);
    }

    /** Uncached: the first `length` bytes of the private key. */
    method DerivePassword(path: string, length: nat) returns (r: Result<seq<byte>, Error>)
      ensures !unlocked || seed.None? ==> r == Err(ServiceLocked)
      ensures unlocked && seed.Some? ==>
                match Direct(crypto, Ed25519, seed.value, path)
                case Err(e) => r == Err(e)
                case Ok(keys) => r.Ok? && r.value <= keys.privateKey &&
                                 |r.value| == if length < |keys.privateKey| then length else |keys.privateKey|
    {
      if !unlocked || seed.None? {
        return Err(ServiceLocked);
      }
      var derived := Direct(crypto, Ed25519, seed.value, path);
      if derived.Err? {
        return Err(derived.error);
      }
      var key := derived.value.privateKey;
      return Ok(key[..if length < |key| then length else |key|]);
    }

    method EncryptText(text: string, version: nat, iv: seq<byte>, t: Clock) returns (r: Result<EncryptedData, Error>)
      modifies this, cache
      ensures (r, State()) == Encrypt(crypto, cache.config, old(State()), text, version, iv, t)
    {
      var key := FetchKey(Aes256Gcm, ENCRYPTION, t);
      if key.Err? {
        return Err(key.error);
      }
      return Seal(crypto, EncryptionKey(key.value.keys.privateKey, version), iv, text);
    }

    method DecryptText(blob: EncryptedData, t: Clock) returns (r: Result<string, Error>)
      modifies this, cache
      ensures (r, State()) == Decrypt(crypto, cache.config, old(State()), blob, t)
    {
      var key := FetchKey(Aes256Gcm, ENCRYPTION, t);
      if key.Err? {
        return Err(key.error);
      }
      return Open(crypto, EncryptionKey(key.value.keys.privateKey, blob.keyVersion), blob);
    }
  }

  // ---- Every run ----

  datatype Op =
    | DoUnlock(phrase: string, passphrase: Option<string>)
    | DoUnlockNew(generated: Option<string>)
    | DoLock
    | DoEd25519(path: string, t: Clock)
    | DoEncryptionKey(path: string, t: Clock)
    | DoEthereum(path: string, t: Clock)
    | DoEncrypt(text: string, version: nat, iv: seq<byte>, t: Clock)
    | DoDecrypt(blob: EncryptedData, t: Clock)

  /** A service and the paths asked of `derive_ethereum_key` since it was last unlocked. */
  datatype Tracked = Tracked(s: Service, ethereumPaths: set<string>)

  function Perform(c: Crypto, cfg: CacheConfig, g: Tracked, op: Op): Tracked {
    match op
    case DoUnlock(phrase, passphrase) =>
      var (r, s) := Unlock(c, g.s, phrase, passphrase);
      Tracked(s, if r.Ok? then {} else g.ethereumPaths)
    case DoUnlockNew(generated) =>
      var (r, s) := UnlockNew(c, g.s, generated);
      Tracked(s, if r.Ok? then {} else g.ethereumPaths)
    case DoLock => Tracked(LOCKED, g.ethereumPaths)
    case DoEd25519(path, t) => g.(s := Fetch(c, cfg, g.s, Ed25519, path, t).1)
    case DoEncryptionKey(path, t) => g.(s := Fetch(c, cfg, g.s, Aes256Gcm, path, t).1)
    case DoEthereum(path, t) =>
      Tracked(DeriveEthereum(c, cfg, g.s, path, t).1, g.ethereumPaths + {path})
    case DoEncrypt(text, version, iv, t) => g.(s := Encrypt(c, cfg, g.s, text, version, iv, t).1)
    case DoDecrypt(blob, t) => g.(s := Decrypt(c, cfg, g.s, blob, t).1)
  }

  function RunService(c: Crypto, cfg: CacheConfig, g: Tracked, ops: seq<Op>): Tracked
    decreases |ops|
  {
    if ops == [] then g else RunService(c, cfg, Perform(c, cfg, g, ops[0]), ops[1..])
  }

  /** The entry is what its label's curve derives from this seed. */
  predicate DerivedFrom(c: Crypto, seed: seq<byte>, path: string, entry: CachedKey) {
    Direct(c, entry.keyType, seed, path) == Ok(KeyPair(entry.privateKey, entry.publicKey))
  }

  /** Every cached key is derived from the seed, and secp256k1 ones only sit on paths asked for as such. */
  ghost predicate EntriesOk(c: Crypto, seed: seq<byte>, ethereumPaths: set<string>, s: CacheState) {
    forall path :: path in s.entries ==>
      && DerivedFrom(c, seed, path, s.entries[path])
      && (s.entries[path].keyType.Secp256k1? ==> path in ethereumPaths)
  }

  ghost predicate Inv(c: Crypto, cfg: CacheConfig, g: Tracked) {
    && (!g.s.unlocked ==> g.s == LOCKED)
    && (g.s.unlocked ==> g.s.seed.Some? && g.s.mnemonic.Some?)
    && Valid(cfg, g.s.cache)
    && (g.s.seed.Some? ==> EntriesOk(c, g.s.seed.value, g.ethereumPaths, g.s.cache))
  }

  lemma GetOnlyRemoves(cfg: CacheConfig, s: CacheState, path: string, now: nat)
    requires Valid(cfg, s)
    ensures var (hit, s') := Get(cfg, s, path, now);
            && Valid(cfg, s') && s'.entries.Keys <= s.entries.Keys
            && (forall p :: p in s'.entries ==> s'.entries[p] == s.entries[p])
            && (hit.Some? ==> path in s.entries && hit.value == s.entries[path])
  {
    ApplyValid(cfg, s, GetOp(path, now));
  }

  lemma InsertOnlyAdds(cfg: CacheConfig, s: CacheState, path: string, key: CachedKey)
    requires Valid(cfg, s)
    ensures var s' := Insert(cfg, s, path, key);
            && Valid(cfg, s') && path in s'.entries && s'.entries[path] == key
            && forall p :: p in s'.entries && p != path ==> p in s.entries && s'.entries[p] == s.entries[p]
  {
    InsertValid(cfg, s, path, key);
  }

  lemma FetchKeepsInv(c: Crypto, cfg: CacheConfig, g: Tracked, kind: KeyType, path: string, t: Clock)
    requires Inv(c, cfg, g) && (kind.Secp256k1? ==> path in g.ethereumPaths)
    ensures Inv(c, cfg, g.(s := Fetch(c, cfg, g.s, kind, path, t).1))
  {
    if g.s.unlocked {
      var seed := g.s.seed.value;
      var (hit, cache) := Get(cfg, g.s.cache, path, t.now);
      GetOnlyRemoves(cfg, g.s.cache, path, t.now);
      assert EntriesOk(c, seed, g.ethereumPaths, cache);
      var direct := Direct(c, kind, seed, path);
      if hit.None? && direct.Ok? {
        StoreKeeps(c, cfg, seed, g.ethereumPaths, cache, kind, path, direct.value, t.stored);
      }
    }
  }

  lemma StoreKeeps(
    c: Crypto, cfg: CacheConfig, seed: seq<byte>, ethereumPaths: set<string>, s: CacheState,
    kind: KeyType, path: string, keys: KeyPair, stored: nat)
    requires Valid(cfg, s) && EntriesOk(c, seed, ethereumPaths, s)
    requires Direct(c, kind, seed, path) == Ok(keys) && (kind.Secp256k1? ==> path in ethereumPaths)
    ensures var s' := Insert(cfg, s, path, CachedKey(stored, kind, keys.privateKey, keys.publicKey));
            Valid(cfg, s') && EntriesOk(c, seed, ethereumPaths, s')
  {
    var entry := CachedKey(stored, kind, keys.privateKey, keys.publicKey);
    InsertOnlyAdds(cfg, s, path, entry);
    assert DerivedFrom(c, seed, path, entry);
  }

  lemma PerformKeepsInv(c: Crypto, cfg: CacheConfig, g: Tracked, op: Op)
    requires Inv(c, cfg, g)
    ensures Inv(c, cfg, Perform(c, cfg, g, op))
  {
    var g' := Perform(c, cfg, g, op);
    match op {
      case DoUnlock(_, _) => UnlockKeepsInv(c, cfg, g, op);
      case DoUnlockNew(_) => UnlockKeepsInv(c, cfg, g, op);
      case DoLock =>
        assert Valid(cfg, EMPTY);
      case DoEthereum(path, t) => EthereumKeepsInv(c, cfg, g, path, t);
      case DoEd25519(path, t) =>
        FetchKeepsInv(c, cfg, g, Ed25519, path, t);
        assert g' == g.(s := Fetch(c, cfg, g.s, Ed25519, path, t).1);
      case DoEncryptionKey(path, t) =>
        FetchKeepsInv(c, cfg, g, Aes256Gcm, path, t);
        assert g' == g.(s := Fetch(c, cfg, g.s, Aes256Gcm, path, t).1);
      case DoEncrypt(_, _, _, t) =>
        FetchKeepsInv(c, cfg, g, Aes256Gcm, ENCRYPTION, t);
        assert g' == g.(s := Fetch(c, cfg, g.s, Aes256Gcm, ENCRYPTION, t).1);
      case DoDecrypt(_, t) =>
        FetchKeepsInv(c, cfg, g, Aes256Gcm, ENCRYPTION, t);
        assert g' == g.(s := Fetch(c, cfg, g.s, Aes256Gcm, ENCRYPTION, t).1);
    }
  }

  lemma UnlockKeepsInv(c: Crypto, cfg: CacheConfig, g: Tracked, op: Op)
    requires Inv(c, cfg, g) && (op.DoUnlock? || op.DoUnlockNew?)
    ensures Inv(c, cfg, Perform(c, cfg, g, op))
  {
    if !g.s.unlocked {
      assert g.s.cache.entries == map[];
    } else {
      assert Perform(c, cfg, g, op) == g;
    }
  }

  lemma EthereumKeepsInv(c: Crypto, cfg: CacheConfig, g: Tracked, path: string, t: Clock)
    requires Inv(c, cfg, g)
    ensures Inv(c, cfg, Perform(c, cfg, g, DoEthereum(path, t)))
  {
    var more := g.(ethereumPaths := g.ethereumPaths + {path});
    assert Inv(c, cfg, more);
    FetchKeepsInv(c, cfg, more, Secp256k1, path, t);
    var g' := Perform(c, cfg, g, DoEthereum(path, t));
    assert g' == if c.ethereum then more.(s := Fetch(c, cfg, g.s, Secp256k1, path, t).1) else more;
  }

  /**
   In every run a locked service has no seed, no mnemonic and an empty cache,
   and every cached key was derived from the seed now held.
   */
  lemma {:induction false} RunKeepsInv(c: Crypto, cfg: CacheConfig, g: Tracked, ops: seq<Op>)
    requires Inv(c, cfg, g)
    ensures Inv(c, cfg, RunService(c, cfg, g, ops))
    decreases |ops|
  {
    if ops != [] {
      PerformKeepsInv(c, cfg, g, ops[0]);
      RunKeepsInv(c, cfg, Perform(c, cfg, g, ops[0]), ops[1..]);
    }
  }

  function KeysOf(r: Result<DerivedKey, Error>): Result<KeyPair, Error> {
    match r
    case Ok(key) => Ok(key.keys)
    case Err(e) => Err(e)
  }

  /** The cache would answer with an entry of the other curve. */
  predicate WrongCurveHit(cfg: CacheConfig, s: Service, kind: KeyType, path: string, now: nat) {
    && path in s.cache.entries
    && !Expired(cfg, s.cache.entries[path], now)
    && s.cache.entries[path].keyType.Secp256k1? != kind.Secp256k1?
  }

  /** A cached answer is the direct derivation precisely when the cache does not hold the path for the other curve. */
  lemma AnswerIsDirectIff(c: Crypto, cfg: CacheConfig, g: Tracked, kind: KeyType, path: string, t: Clock)
    requires c.KeySizes() && Inv(c, cfg, g) && g.s.unlocked
    ensures KeysOf(Fetch(c, cfg, g.s, kind, path, t).0) == Direct(c, kind, g.s.seed.value, path) <==>
            !WrongCurveHit(cfg, g.s, kind, path, t.now)
  {
    if path in g.s.cache.entries {
      var entry := g.s.cache.entries[path];
      assert DerivedFrom(c, g.s.seed.value, path, entry);
      PublicKeySize(c, entry.keyType, g.s.seed.value, path);
      PublicKeySize(c, kind, g.s.seed.value, path);
    }
  }

  lemma PublicKeySize(c: Crypto, kind: KeyType, seed: seq<byte>, path: string)
    requires c.KeySizes()
    ensures Direct(c, kind, seed, path).Ok? ==>
              |Direct(c, kind, seed, path).value.publicKey| == if kind.Secp256k1? then 33 else 32
  {
  }

  /**
   After any run from a new service: locked, every derivation is refused;
   unlocked, Ed25519 and encryption keys equal direct derivation from the
   current seed on every path not asked of `derive_ethereum_key` since the
   last unlock.
   */
  lemma CachedAnswersAreDirect(c: Crypto, cfg: CacheConfig, ops: seq<Op>, kind: KeyType, path: string, t: Clock)
    requires !kind.Secp256k1?
    ensures var g := RunService(c, cfg, Tracked(LOCKED, {}), ops);
            var r := Fetch(c, cfg, g.s, kind, path, t).0;
            if !g.s.unlocked then
              g.s == LOCKED && r == Err(ServiceLocked)
            else
              g.s.seed.Some? && (path !in g.ethereumPaths ==> KeysOf(r) == Direct(c, kind, g.s.seed.value, path))
  {
    var g := RunService(c, cfg, Tracked(LOCKED, {}), ops);
    RunKeepsInv(c, cfg, Tracked(LOCKED, {}), ops);
    if g.s.unlocked && path in g.s.cache.entries {
      assert DerivedFrom(c, g.s.seed.value, path, g.s.cache.entries[path]);
    }
  }

  /**
   The label is the inserting call's: whatever is asked for next on the same
   path, before the entry expires, gets the very same key and label back.
   */
  lemma RepeatGetsFirstAnswer(
    c: Crypto, cfg: CacheConfig, g: Tracked, first: KeyType, then': KeyType, path: string, t: Clock, t': Clock)
    requires Inv(c, cfg, g)
    ensures var (r, s') := Fetch(c, cfg, g.s, first, path, t);
            r.Ok? && !Expired(cfg, s'.cache.entries[path], t'.now) ==>
              Fetch(c, cfg, s', then', path, t').0 == r
  {
    var (hit, cache) := Get(cfg, g.s.cache, path, t.now);
    GetOnlyRemoves(cfg, g.s.cache, path, t.now);
  }

  /** So a path shared with `derive_ethereum_key` answers an Ed25519 request with a secp256k1 key. */
  lemma SharedPathAnswersWrongCurve(c: Crypto, cfg: CacheConfig, g: Tracked, path: string, t: Clock)
    requires c.KeySizes() && c.ethereum && Inv(c, cfg, g) && g.s.unlocked && path !in g.s.cache.entries
    requires Direct(c, Secp256k1, g.s.seed.value, path).Ok?
    ensures var s' := DeriveEthereum(c, cfg, g.s, path, t).1;
            var r := Fetch(c, cfg, s', Ed25519, path, Clock(t.stored, t.stored)).0;
            && r.Ok? && r.value.keyType == Secp256k1
            && KeysOf(r) != Direct(c, Ed25519, g.s.seed.value, path)
  {
    var g' := Perform(c, cfg, g, DoEthereum(path, t));
    PerformKeepsInv(c, cfg, g, DoEthereum(path, t));
    AnswerIsDirectIff(c, cfg, g', Ed25519, path, Clock(t.stored, t.stored));
  }

  /** The phrase handed out by `unlock_new` restores the very same service; no passphrase is the empty one. */
  lemma PhraseRestoresService(c: Crypto, phrase: string)
    requires c.normalize(phrase) == Some(phrase)
    ensures var (r, s) := UnlockNew(c, LOCKED, Some(phrase));
            && r == Ok(phrase)
            && Unlock(c, LOCKED, phrase, None) == (Ok(()), s)
            && Unlock(c, LOCKED, phrase, Some("")) == (Ok(()), s)
            && Unlock(c, s, phrase, None) == (Err(AlreadyUnlocked), s)
  {
  }

  /** Whenever it is locked, in whatever run, the service holds no secret at all. */
  lemma LockedHoldsNothing(c: Crypto, cfg: CacheConfig, ops: seq<Op>)
    ensures var s := RunService(c, cfg, Tracked(LOCKED, {}), ops).s;
            !s.unlocked ==> s.mnemonic == None && s.seed == None && s.cache.entries == map[] && s.cache.order == []
  {
    RunKeepsInv(c, cfg, Tracked(LOCKED, {}), ops);
  }

  /** What unlocking answers: refused when unlocked already, then a phrase that does not validate, else success. */
  lemma UnlockAnswers(c: Crypto, s: Service, phrase: string, passphrase: Option<string>, generated: Option<string>)
    ensures var r := Unlock(c, s, phrase, passphrase).0;
            && (r == Err(AlreadyUnlocked) <==> s.unlocked)
            && (r == Err(BadMnemonic) <==> !s.unlocked && c.normalize(phrase).None?)
            && (r.Ok? <==> !s.unlocked && c.normalize(phrase).Some?)
    ensures var r := UnlockNew(c, s, generated).0;
            && (r == Err(AlreadyUnlocked) <==> s.unlocked)
            && (r == Err(BadMnemonic) <==> !s.unlocked && generated.None?)
            && (r.Ok? <==> !s.unlocked && generated.Some?) && (r.Ok? ==> r.value == generated.value)
    ensures Unlock(c, s, phrase, passphrase).0.Err? ==> Unlock(c, s, phrase, passphrase).1 == s
    ensures UnlockNew(c, s, generated).0.Err? ==> UnlockNew(c, s, generated).1 == s
  {
  }

  // ---- Which keys these are ----

  /**
   Direct derivation for every seed and path: the path's indices lead from the
   seed's master key from child to child on the label's curve; errors are
   exactly a path that does not parse and a secp256k1 step that fails.
   */
  lemma DirectMeaning(c: Crypto, kind: KeyType, seed: seq<byte>, path: string)
    ensures Direct(c, kind, seed, path) ==
            match ParsePath(path)
            case None => Err(DerivationFailed(InvalidPath))
            case Some(indices) =>
              if !kind.Secp256k1? then Ok(c.hd.keys(HdKey(c.hd, seed, indices)))
              else
                match SecpKey(c.secp, seed, indices)
                case None => Err(DerivationFailed(Secp256k1Error))
                case Some(x) => Ok(c.secp.keys(x))
  {
    DerivationMeaning(c.hd, c.secp, seed, path);
  }

  /** In particular every list of indices is reached by the path that spells it. */
  lemma DirectOnIndices(c: Crypto, seed: seq<byte>, indices: seq<u32>)
    ensures Direct(c, Ed25519, seed, RenderPath(indices)) == Ok(c.hd.keys(HdKey(c.hd, seed, indices)))
    ensures Direct(c, Aes256Gcm, seed, RenderPath(indices)) == Ok(c.hd.keys(HdKey(c.hd, seed, indices)))
    ensures Direct(c, Secp256k1, seed, RenderPath(indices)) ==
            match SecpKey(c.secp, seed, indices)
            case None => Err(DerivationFailed(Secp256k1Error))
            case Some(x) => Ok(c.secp.keys(x))
  {
    ParseRenderedPath(indices);
    DirectMeaning(c, Ed25519, seed, RenderPath(indices));
    DirectMeaning(c, Aes256Gcm, seed, RenderPath(indices));
    DirectMeaning(c, Secp256k1, seed, RenderPath(indices));
  }

  datatype Secret = Secret(mnemonic: string, seed: seq<byte>)

  /** The secret held after one operation, if any: only locking and unlocking matter. */
  function HeldAfter(c: Crypto, held: Option<Secret>, op: Op): Option<Secret> {
    match op
    case DoLock => None
    case DoUnlock(phrase, passphrase) =>
      if held.Some? || c.normalize(phrase).None? then held
      else
        var m := c.normalize(phrase).value;
        Some(Secret(m, c.toSeed(m, if passphrase.Some? then passphrase.value else "")))
    case DoUnlockNew(generated) =>
      if held.Some? || generated.None? then held else Some(Secret(generated.value, c.toSeed(generated.value, "")))
    case _ => held
  }

  /** The service's state as such a secret. */
  function SecretOf(s: Service): Option<Secret> {
    if s.unlocked && s.mnemonic.Some? && s.seed.Some? then Some(Secret(s.mnemonic.value, s.seed.value)) else None
  }

  function Held(c: Crypto, held: Option<Secret>, ops: seq<Op>): Option<Secret>
    decreases |ops|
  {
    if ops == [] then held else Held(c, HeldAfter(c, held, ops[0]), ops[1..])
  }

  lemma FetchKeepsSecret(c: Crypto, cfg: CacheConfig, s: Service, kind: KeyType, path: string, t: Clock)
    ensures SecretOf(Fetch(c, cfg, s, kind, path, t).1) == SecretOf(s)
  {
  }

  lemma SeedStep(c: Crypto, cfg: CacheConfig, g: Tracked, op: Op)
    requires Inv(c, cfg, g)
    ensures SecretOf(Perform(c, cfg, g, op).s) == HeldAfter(c, SecretOf(g.s), op)
  {
    match op {
      case DoEd25519(path, t) => FetchKeepsSecret(c, cfg, g.s, Ed25519, path, t);
      case DoEncryptionKey(path, t) => FetchKeepsSecret(c, cfg, g.s, Aes256Gcm, path, t);
      case DoEthereum(path, t) => FetchKeepsSecret(c, cfg, g.s, Secp256k1, path, t);
      case DoEncrypt(_, _, _, t) => FetchKeepsSecret(c, cfg, g.s, Aes256Gcm, ENCRYPTION, t);
      case DoDecrypt(_, t) => FetchKeepsSecret(c, cfg, g.s, Aes256Gcm, ENCRYPTION, t);
      case _ =>
    }
  }

  /**
   In every run the service holds exactly the phrase of the last successful
   unlock and the seed stretched from it and its passphrase, until it is locked.
   */
  lemma {:induction false} SeedIsFromUnlock(c: Crypto, cfg: CacheConfig, g: Tracked, ops: seq<Op>)
    requires Inv(c, cfg, g)
    ensures var s := RunService(c, cfg, g, ops).s;
            SecretOf(s) == Held(c, SecretOf(g.s), ops) && (s.unlocked <==> SecretOf(s).Some?)
    decreases |ops|
  {
    if ops != [] {
      SeedStep(c, cfg, g, ops[0]);
      PerformKeepsInv(c, cfg, g, ops[0]);
      SeedIsFromUnlock(c, cfg, Perform(c, cfg, g, ops[0]), ops[1..]);
    }
  }

  /**
   So after any run, on a path not shared with `derive_ethereum_key`, Ed25519 and
   encryption keys are the children along the path of the master key of the last
   unlock's phrase and passphrase, whatever else happened.
   */
  lemma KeysFollowUnlock(c: Crypto, cfg: CacheConfig, ops: seq<Op>, kind: KeyType, path: string, t: Clock)
    requires !kind.Secp256k1?
    ensures var g := RunService(c, cfg, Tracked(LOCKED, {}), ops);
            var r := KeysOf(Fetch(c, cfg, g.s, kind, path, t).0);
            match Held(c, None, ops)
            case None => r == Err(ServiceLocked)
            case Some(secret) =>
              path !in g.ethereumPaths ==>
                r == match ParsePath(path)
                     case None => Err(DerivationFailed(InvalidPath))
                     case Some(indices) => Ok(c.hd.keys(HdKey(c.hd, secret.seed, indices)))
  {
    SeedIsFromUnlock(c, cfg, Tracked(LOCKED, {}), ops);
    CachedAnswersAreDirect(c, cfg, ops, kind, path, t);
    if Held(c, None, ops).Some? {
      DirectMeaning(c, kind, Held(c, None, ops).value.seed, path);
    }
  }

  /** A key bears the label of the call, unless the cache holds the path, unexpired, under another. */
  lemma LabelMeaning(c: Crypto, cfg: CacheConfig, s: Service, kind: KeyType, path: string, t: Clock)
    ensures var r := Fetch(c, cfg, s, kind, path, t).0;
            r.Ok? ==>
              r.value.keyType ==
              if path in s.cache.entries && !Expired(cfg, s.cache.entries[path], t.now)
              then s.cache.entries[path].keyType else kind
  {
  }

  /** Without the build feature secp256k1 keys are refused, locked or not, and nothing changes. */
  lemma EthereumNeedsFeature(c: Crypto, cfg: CacheConfig, s: Service, path: string, t: Clock)
    ensures DeriveEthereum(c, cfg, s, path, t) == (Err(UnsupportedKeyType), s) <==> !c.ethereum
  {
  }

  // ---- Encryption ----

  const ENCRYPTION_INDICES: seq<u32> := [TWO_31 + 74, TWO_31 + 2, TWO_31, TWO_31]

  lemma EncryptionPathText()
    ensures ENCRYPTION == RenderPath(ENCRYPTION_INDICES)
  {
    var three: seq<u32> := [TWO_31 + 74, TWO_31 + 2, TWO_31];
    var two: seq<u32> := [TWO_31 + 74, TWO_31 + 2];
    var one: seq<u32> := [TWO_31 + 74];
    assert ENCRYPTION_INDICES[..3] == three && three[..2] == two && two[..1] == one && one[..0] == [];
    assert Show(7) == "7" && Show(74) == "74" && Show(2) == "2" && Show(0) == "0";
    assert RenderPath(one) == "m/74'";
    assert RenderPath(two) == "m/74'/2'";
    assert RenderPath(three) == "m/74'/2'/0'";
  }

  /** The encryption path has four hardened components: 74, 2, 0 and 0. */
  lemma EncryptionPath()
    ensures ParsePath(ENCRYPTION) == Some(ENCRYPTION_INDICES)
  {
    ParseRenderedPath(ENCRYPTION_INDICES);
    EncryptionPathText();
  }

  /** Whose key sits on the encryption path: the encryption key's own, unless a secp256k1 key is cached there. */
  function CurveUsed(cfg: CacheConfig, s: Service, now: nat): KeyType {
    if WrongCurveHit(cfg, s, Aes256Gcm, ENCRYPTION, now) then Secp256k1 else Aes256Gcm
  }

  /** What sealing with this key, if it can be derived at all, comes to. */
  function SealedWith(c: Crypto, keys: Result<KeyPair, Error>, version: nat, iv: seq<byte>, text: string)
    : Result<EncryptedData, Error>
  {
    if keys.Err? then Err(keys.error)
    else if c.seal(keys.value.privateKey, iv, text).None? then Err(EncryptionFailed)
    else Ok(EncryptedData(version, iv, c.seal(keys.value.privateKey, iv, text).value))
  }

  function OpenedWith(c: Crypto, keys: Result<KeyPair, Error>, blob: EncryptedData): Result<string, Error> {
    if keys.Err? then Err(keys.error)
    else if c.open(keys.value.privateKey, blob.iv, blob.data).None? then Err(EncryptionFailed)
    else Ok(c.open(keys.value.privateKey, blob.iv, blob.data).value)
  }

  lemma FetchUsesCurve(c: Crypto, cfg: CacheConfig, g: Tracked, t: Clock)
    requires Inv(c, cfg, g) && g.s.unlocked
    ensures KeysOf(Fetch(c, cfg, g.s, Aes256Gcm, ENCRYPTION, t).0) ==
            Direct(c, CurveUsed(cfg, g.s, t.now), g.s.seed.value, ENCRYPTION)
  {
    if ENCRYPTION in g.s.cache.entries {
      assert DerivedFrom(c, g.s.seed.value, ENCRYPTION, g.s.cache.entries[ENCRYPTION]);
    }
  }

  /**
   In every reachable unlocked state `encrypt` seals and `decrypt` opens with
   the private key derived directly from the seed at the encryption path, by
   the curve that `CurveUsed` names: the intended one unless the path was asked
   of `derive_ethereum_key`.
   */
  lemma EncryptionKeyUsed(
    c: Crypto, cfg: CacheConfig, g: Tracked, text: string, version: nat, iv: seq<byte>, blob: EncryptedData, t: Clock)
    requires Inv(c, cfg, g) && g.s.unlocked
    ensures var keys := Direct(c, CurveUsed(cfg, g.s, t.now), g.s.seed.value, ENCRYPTION);
            && Encrypt(c, cfg, g.s, text, version, iv, t).0 == SealedWith(c, keys, version, iv, text)
            && Decrypt(c, cfg, g.s, blob, t).0 == OpenedWith(c, keys, blob)
    ensures ENCRYPTION !in g.ethereumPaths ==> CurveUsed(cfg, g.s, t.now) == Aes256Gcm
  {
    FetchUsesCurve(c, cfg, g, t);
  }

  /** After any run from a new service: refused while locked, else with the directly derived encryption key. */
  lemma EncryptsWithDirectKey(
    c: Crypto, cfg: CacheConfig, ops: seq<Op>, text: string, version: nat, iv: seq<byte>, blob: EncryptedData, t: Clock)
    ensures var g := RunService(c, cfg, Tracked(LOCKED, {}), ops);
            var sealed := Encrypt(c, cfg, g.s, text, version, iv, t).0;
            var unsealed := Decrypt(c, cfg, g.s, blob, t).0;
            if !g.s.unlocked then
              sealed == Err(ServiceLocked) && unsealed == Err(ServiceLocked)
            else
              && g.s.seed.Some?
              && (ENCRYPTION !in g.ethereumPaths ==>
                    var keys := Direct(c, Aes256Gcm, g.s.seed.value, ENCRYPTION);
                    sealed == SealedWith(c, keys, version, iv, text) && unsealed == OpenedWith(c, keys, blob))
  {
    var g := RunService(c, cfg, Tracked(LOCKED, {}), ops);
    RunKeepsInv(c, cfg, Tracked(LOCKED, {}), ops);
    if g.s.unlocked {
      EncryptionKeyUsed(c, cfg, g, text, version, iv, blob, t);
    }
  }

  /**
   What was encrypted in one reachable state decrypts in any later one with the
   same seed, after locking and unlocking and whatever the cache held, as long
   as both use the same curve; they do if the encryption path is never asked of
   `derive_ethereum_key`.
   */
  lemma DecryptsAcrossRuns(
    c: Crypto, cfg: CacheConfig, before: seq<Op>, after: seq<Op>,
    text: string, version: nat, iv: seq<byte>, t: Clock, t': Clock)
    requires c.OpensWhatItSealed()
    ensures var g := RunService(c, cfg, Tracked(LOCKED, {}), before);
            var (sealed, s) := Encrypt(c, cfg, g.s, text, version, iv, t);
            var g' := RunService(c, cfg, g.(s := s), after);
            sealed.Ok? && g'.s.unlocked && g'.s.seed == g.s.seed ==>
              && (CurveUsed(cfg, g.s, t.now) == CurveUsed(cfg, g'.s, t'.now) ==>
                    Decrypt(c, cfg, g'.s, sealed.value, t').0 == Ok(text))
              && (ENCRYPTION !in g.ethereumPaths && ENCRYPTION !in g'.ethereumPaths ==>
                    Decrypt(c, cfg, g'.s, sealed.value, t').0 == Ok(text))
  {
    var g := RunService(c, cfg, Tracked(LOCKED, {}), before);
    RunKeepsInv(c, cfg, Tracked(LOCKED, {}), before);
    var (sealed, s) := Encrypt(c, cfg, g.s, text, version, iv, t);
    if sealed.Ok? {
      FetchKeepsInv(c, cfg, g, Aes256Gcm, ENCRYPTION, t);
      var g' := RunService(c, cfg, g.(s := s), after);
      RunKeepsInv(c, cfg, g.(s := s), after);
      EncryptionKeyUsed(c, cfg, g, text, version, iv, sealed.value, t);
      if g'.s.unlocked {
        EncryptionKeyUsed(c, cfg, g', text, version, iv, sealed.value, t');
      }
    }
  }

  /** The version is a label: it comes back as given, and neither sealing nor opening depends on it. */
  lemma KeyVersionIsOnlyRecorded(
    c: Crypto, cfg: CacheConfig, s: Service, key: EncryptionKey, blob: EncryptedData,
    text: string, iv: seq<byte>, v: nat, v': nat, t: Clock)
    ensures Open(c, key.(version := v), blob) == Open(c, key, blob)
    ensures Decrypt(c, cfg, s, blob.(keyVersion := v), t) == Decrypt(c, cfg, s, blob, t)
    ensures var (a, b) := (Encrypt(c, cfg, s, text, v, iv, t), Encrypt(c, cfg, s, text, v', iv, t));
            && a.1 == b.1 && (a.0.Ok? <==> b.0.Ok?)
            && (a.0.Ok? ==> a.0.value.keyVersion == v && b.0.value == a.0.value.(keyVersion := v'))
  {
  }
}
