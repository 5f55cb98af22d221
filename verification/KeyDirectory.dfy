/**
 * The key files on disk and the cached directory over them (crates/core/src/envelope.rs).
 * `KeyFiles` gives every operation as a function of the files alone, with no cache;
 * `AgeCipherDirectory` is the cached object and is proved to answer as those functions do.
 */
module KeyFiles {
  import opened Wrappers
  import opened KmsContexts

  /** Identity of a generated age key; the supply `next` never repeats one. */
  type Key = nat

  datatype Slot = Legacy(user: string) | Versioned(keyId: string, version: nat)

  datatype KeyFile = Identity(key: Key) | Malformed

  /** Contents of `<key_id>/active`. */
  datatype ActiveFile = Version(n: nat) | Garbled

  datatype Disk = Disk(files: map<Slot, KeyFile>, active: map<string, ActiveFile>, next: Key)

  datatype VersionedKey = VersionedKey(keyId: string, version: nat, key: Key)

  function GenerateIfMissing(d: Disk, slot: Slot): Disk {
    if slot in d.files then d else d.(files := d.files[slot := Identity(d.next)], next := d.next + 1)
  }

  function Load(d: Disk, slot: Slot): Result<Key, EnvelopeError> {
    if slot !in d.files then Err(Io)
    else match d.files[slot] case Identity(k) => Ok(k) case Malformed => Err(KeyParse)
  }

  function ForUser(d: Disk, user: string): (Disk, Result<Key, EnvelopeError>) {
    if !ValidUserId(user) then (d, Err(BadUserId))
    else
      var d1 := GenerateIfMissing(d, Legacy(user));
      (d1, Load(d1, Legacy(user)))
  }

  function ActiveVersion(d: Disk, keyId: string): Result<nat, EnvelopeError> {
    if !ValidKeyId(keyId) then Err(BadKeyId)
    else if keyId !in d.active then Ok(1)
    else match d.active[keyId] case Version(n) => (if n == 0 then Err(KeyParse) else Ok(n)) case Garbled => Err(KeyParse)
  }

  function WriteActiveIfMissing(d: Disk, keyId: string, version: nat): Disk {
    if keyId in d.active then d else d.(active := d.active[keyId := Version(version)])
  }

  function VersionedCipher(d: Disk, keyId: string, version: nat, create: bool): (Disk, Result<Key, EnvelopeError>) {
    if !ValidKeyId(keyId) then (d, Err(BadKeyId))
    else if version == 0 then (d, Err(KeyParse))
    else
      var slot := Versioned(keyId, version);
      var d1 := if create then WriteActiveIfMissing(GenerateIfMissing(d, slot), keyId, version) else d;
      (d1, Load(d1, slot))
  }

  function ForContext(d: Disk, ctx: Context): (Disk, Result<VersionedKey, EnvelopeError>) {
    var id := ScopedKeyId(ctx);
    if id.Err? then (d, Err(id.error)) else
    var v := ActiveVersion(d, id.value);
    if v.Err? then (d, Err(v.error)) else
    var (d1, k) := VersionedCipher(d, id.value, v.value, true);
    (d1, if k.Err? then Err(k.error) else Ok(VersionedKey(id.value, v.value, k.value)))
  }

  function ActiveKeyMeta(d: Disk, ctx: Context): Result<(string, nat), EnvelopeError> {
    var id := ScopedKeyId(ctx);
    if id.Err? then Err(id.error) else
    var v := ActiveVersion(d, id.value);
    if v.Err? then Err(v.error) else Ok((id.value, v.value))
  }

  function ForKeyId(d: Disk, keyId: string, version: nat): (Disk, Result<Key, EnvelopeError>) {
    VersionedCipher(d, keyId, version, false)
  }

  function ForgetUser(d: Disk, user: string): (Disk, Result<(), EnvelopeError>) {
    if !ValidUserId(user) then (d, Err(BadUserId)) else (d.(files := d.files - {Legacy(user)}), Ok(()))
  }

  // ----- What lookups may do to the files -----

  /** Every key on disk was generated by this supply, and no two files hold the same key. */
  ghost predicate WellKeyed(d: Disk) {
    && (forall s | s in d.files && d.files[s].Identity? :: d.files[s].key < d.next)
    && (forall s, t | s in d.files && t in d.files && d.files[s].Identity? && d.files[s] == d.files[t] :: s == t)
  }

  /** `e` holds every file of `d` unchanged, and its new keys are fresh. */
  ghost predicate Grows(d: Disk, e: Disk) {
    && d.next <= e.next
    && (forall s | s in d.files :: s in e.files && e.files[s] == d.files[s])
    && (forall s | s in e.files && s !in d.files :: e.files[s].Identity? && d.next <= e.files[s].key)
  }

  /** `e` grows `d`, and no active version moved. */
  ghost predicate Extends(d: Disk, e: Disk) {
    && Grows(d, e)
    && (forall k :: ActiveVersion(e, k) == ActiveVersion(d, k))
  }

  lemma ExtendsTransitive(a: Disk, b: Disk, c: Disk)
    requires Extends(a, b) && Extends(b, c)
    ensures Extends(a, c)
  {
  }

  lemma GenerateExtends(d: Disk, slot: Slot)
    ensures Extends(d, GenerateIfMissing(d, slot))
    ensures WellKeyed(d) ==> WellKeyed(GenerateIfMissing(d, slot))
  {
  }

  lemma WriteActiveExtends(d: Disk, keyId: string, version: nat)
    requires ActiveVersion(d, keyId) == Ok(version)
    ensures Extends(d, WriteActiveIfMissing(d, keyId, version))
    ensures WellKeyed(d) ==> WellKeyed(WriteActiveIfMissing(d, keyId, version))
  {
  }

  /** No lookup loses a file or changes an active version, and every key it makes is fresh. */
  lemma LookupsExtend(d: Disk, user: string, ctx: Context)
    ensures Extends(d, ForUser(d, user).0)
    ensures Extends(d, ForContext(d, ctx).0)
    ensures WellKeyed(d) ==> WellKeyed(ForUser(d, user).0) && WellKeyed(ForContext(d, ctx).0)
  {
    GenerateExtends(d, Legacy(user));
    var meta := ActiveKeyMeta(d, ctx);
    if meta.Ok? {
      var slot := Versioned(meta.value.0, meta.value.1);
      var e := GenerateIfMissing(d, slot);
      GenerateExtends(d, slot);
      WriteActiveExtends(e, meta.value.0, meta.value.1);
      ExtendsTransitive(d, e, WriteActiveIfMissing(e, meta.value.0, meta.value.1));
    }
  }

  /** The only file a context lookup can add is the active version of that context's key. */
  lemma ForContextCreatesOnlyActive(d: Disk, ctx: Context, s: Slot)
    requires s in ForContext(d, ctx).0.files && s !in d.files
    ensures ActiveKeyMeta(d, ctx).Ok? && s == Versioned(ActiveKeyMeta(d, ctx).value.0, ActiveKeyMeta(d, ctx).value.1)
  {
  }

  /** One step of a directory's life: the three lookups, an operator's rotation, an erasure. */
  datatype DirOp =
    | LookupUser(user: string)
    | LookupContext(ctx: Context)
    | LookupKey(keyId: string, version: nat)
    | SetActive(key: string, file: ActiveFile)
    | Forget(who: string)

  function Apply(d: Disk, op: DirOp): Disk {
    match op
    case LookupUser(u) => ForUser(d, u).0
    case LookupContext(c) => ForContext(d, c).0
    case LookupKey(k, v) => ForKeyId(d, k, v).0
    case SetActive(k, f) => d.(active := d.active[k := f])
    case Forget(u) => ForgetUser(d, u).0
  }

  function Run(d: Disk, ops: seq<DirOp>): Disk
    decreases |ops|
  {
    if ops == [] then d else Run(Apply(d, ops[0]), ops[1..])
  }

  lemma {:induction false} RunAppends(d: Disk, ops: seq<DirOp>, more: seq<DirOp>, op: DirOp)
    ensures Run(d, ops + more) == Run(Run(d, ops), more) && Run(d, [op]) == Apply(d, op)
    decreases |ops|
  {
    assert Run(d, [op]) == Run(Apply(d, op), [op][1..]);
    if ops == [] {
      assert ops + more == more;
    } else {
      assert (ops + more)[1..] == ops[1..] + more;
      RunAppends(Apply(d, ops[0]), ops[1..], more, op);
    }
  }

  /** Without an active file the first version is active, and the first lookup writes both files down. */
  lemma FirstVersionIsOne(d: Disk, ctx: Context)
    requires ScopedKeyId(ctx).Ok? && ValidKeyId(ScopedKeyId(ctx).value) && ScopedKeyId(ctx).value !in d.active
    requires Versioned(ScopedKeyId(ctx).value, 1) !in d.files
    ensures var (e, k) := ForContext(d, ctx); var id := ScopedKeyId(ctx).value;
            && k == Ok(VersionedKey(id, 1, d.next)) && id in e.active && e.active[id] == Version(1)
            && Versioned(id, 1) in e.files && e.files[Versioned(id, 1)] == Identity(d.next)
  {
  }

  /** A rotation takes effect: the next lookup uses the version it names, until the next rotation; zero or garbled text stops lookups. */
  lemma RotationTakesEffect(d: Disk, ctx: Context, file: ActiveFile)
    requires ScopedKeyId(ctx).Ok? && ValidKeyId(ScopedKeyId(ctx).value)
    requires forall n: nat :: Versioned(ScopedKeyId(ctx).value, n) in d.files ==> d.files[Versioned(ScopedKeyId(ctx).value, n)].Identity?
    ensures var k := ForContext(Apply(d, SetActive(ScopedKeyId(ctx).value, file)), ctx).1;
            && (k.Ok? <==> file.Version? && file.n > 0)
            && (k.Ok? ==> k.value.keyId == ScopedKeyId(ctx).value && k.value.version == file.n)
  {
  }

  /** Versioned key files survive every run, and keys stay pairwise distinct. */
  lemma {:induction false} RunKeepsVersionedKeys(d: Disk, ops: seq<DirOp>)
    ensures forall k, v | Versioned(k, v) in d.files ::
              Versioned(k, v) in Run(d, ops).files && Run(d, ops).files[Versioned(k, v)] == d.files[Versioned(k, v)]
    ensures WellKeyed(d) ==> WellKeyed(Run(d, ops))
    decreases |ops|
  {
    if ops != [] {
      var e := Apply(d, ops[0]);
      match ops[0] {
        case LookupUser(u) => LookupsExtend(d, u, Context(SystemSecret, None, None, None));
        case LookupContext(c) => LookupsExtend(d, "", c);
        case _ =>
      }
      assert forall k, v | Versioned(k, v) in d.files ::
          Versioned(k, v) in e.files && e.files[Versioned(k, v)] == d.files[Versioned(k, v)];
      RunKeepsVersionedKeys(e, ops[1..]);
    }
  }
}

module KeyDirectory {
  import opened Wrappers
  import opened Text
  import opened KmsContexts
  import opened KeyFiles

  function LegacyTag(user: string): string {
    "legacy:" + user
  }

  function VersionTag(keyId: string, version: nat): string {
    "v2:" + (keyId + ":v" + Decimal(version))
  }

  lemma LegacyTagInjective(a: string, b: string)
    requires LegacyTag(a) == LegacyTag(b)
    ensures a == b
  {
    assert LegacyTag(a)[7..] == a && LegacyTag(b)[7..] == b;
  }

  lemma TagsDisjoint(user: string, keyId: string, version: nat)
    ensures LegacyTag(user) != VersionTag(keyId, version)
  {
    assert LegacyTag(user)[0] == 'l' && VersionTag(keyId, version)[0] == 'v';
  }

  /**
   * The cache is consulted before the key id is validated, so the tag of an arbitrary string must
   * not collide with the tag of a validated id: one colon-free side is enough.
   */
  lemma VersionTagInjective(a: string, m: nat, b: string, n: nat)
    requires ':' !in a
    requires VersionTag(a, m) == VersionTag(b, n)
    ensures a == b && m == n
  {
    var x, y := a + ":v" + Decimal(m), b + ":v" + Decimal(n);
    assert VersionTag(a, m)[3..] == x && VersionTag(b, n)[3..] == y;
    DecimalIsDigits(m);
    forall i | 0 <= i < |x| && i != |a|
      ensures x[i] != ':'
    {
      if i < |a| {
        assert x[i] in a;
      } else if i >= |a| + 2 {
        assert x[i] in Decimal(m);
      }
    }
    assert y[|b|] == ':';
    assert |a| == |b|;
    assert a == x[..|a|] && b == y[..|b|];
    assert Decimal(m) == x[|a| + 2..] && Decimal(n) == y[|b| + 2..];
    DecimalInjective(m, n);
  }

  /** Same keys and same active versions; only whether a default `active` file exists may differ. */
  ghost predicate SameMeaning(d: Disk, e: Disk) {
    d.files == e.files && d.next == e.next && forall k :: ActiveVersion(d, k) == ActiveVersion(e, k)
  }

  class AgeCipherDirectory {
    var disk: Disk
    var cache: map<string, Key>

    /** Whatever the cache holds is what loading the file now would give. */
    ghost predicate Valid()
      reads this
    {
      && (forall u :: LegacyTag(u) in cache ==>
            ValidUserId(u) && Load(disk, Legacy(u)) == Ok(cache[LegacyTag(u)]))
      && (forall k, v :: VersionTag(k, v) in cache ==>
            ValidKeyId(k) && v > 0 && Load(disk, Versioned(k, v)) == Ok(cache[VersionTag(k, v)]))
    }

    constructor (disk: Disk)
      ensures Valid() && this.disk == disk && cache == map[]
    {
      this.disk := disk;
      cache := map[];
    }

    method ForUser(user: string) returns (r: Result<Key, EnvelopeError>)
      requires Valid()
      modifies this
      ensures Valid()
      ensures (disk, r) == KeyFiles.ForUser(old(disk), user)
    {
      if !ValidUserId(user) {
        return Err(BadUserId);
      }
      var tag := LegacyTag(user);
      if tag in cache {
        return Ok(cache[tag]);
      }
      disk := GenerateIfMissing(disk, Legacy(user));
      r := Load(disk, Legacy(user));
      if r.Ok? {
        CacheLegacy(user, r.value);
      }
    }

    /** Records a freshly loaded legacy key. */
    method CacheLegacy(user: string, key: Key)
      requires Valid() && ValidUserId(user) && Load(disk, Legacy(user)) == Ok(key)
      modifies this`cache
      ensures Valid() && cache == old(cache)[LegacyTag(user) := key]
    {
      cache := cache[LegacyTag(user) := key];
      forall u | LegacyTag(u) == LegacyTag(user)
        ensures u == user
      {
        LegacyTagInjective(u, user);
      }
      forall k, v
        ensures LegacyTag(user) != VersionTag(k, v)
      {
        TagsDisjoint(user, k, v);
      }
    }

    /** Records a freshly loaded versioned key. */
    method CacheVersioned(keyId: string, version: nat, key: Key)
      requires Valid() && ValidKeyId(keyId) && version > 0 && Load(disk, Versioned(keyId, version)) == Ok(key)
      modifies this`cache
      ensures Valid() && cache == old(cache)[VersionTag(keyId, version) := key]
    {
      cache := cache[VersionTag(keyId, version) := key];
      PartsSuffice(keyId);
      forall k, v | VersionTag(k, v) == VersionTag(keyId, version)
        ensures k == keyId && v == version
      {
        VersionTagInjective(keyId, version, k, v);
      }
      forall u
        ensures LegacyTag(u) != VersionTag(keyId, version)
      {
        TagsDisjoint(u, keyId, version);
      }
    }

    /** With `create`, the one caller passes the version that is active now. */
    method VersionedCipher(keyId: string, version: nat, create: bool) returns (r: Result<Key, EnvelopeError>)
      requires Valid()
      requires create ==> ActiveVersion(disk, keyId) == Ok(version)
      modifies this
      ensures Valid()
      ensures r == KeyFiles.VersionedCipher(old(disk), keyId, version, create).1
      ensures SameMeaning(disk, KeyFiles.VersionedCipher(old(disk), keyId, version, create).0)
      ensures !create ==> disk == old(disk)
    {
      var tag := VersionTag(keyId, version);
      if tag in cache {
        return Ok(cache[tag]);
      }
      if !ValidKeyId(keyId) {
        return Err(BadKeyId);
      }
      if version == 0 {
        return Err(KeyParse);
      }
      if create {
        disk := GenerateIfMissing(disk, Versioned(keyId, version));
        disk := WriteActiveIfMissing(disk, keyId, version);
      }
      r := Load(disk, Versioned(keyId, version));
      if r.Ok? {
        CacheVersioned(keyId, version, r.value);
      }
    }

    method ForContext(ctx: Context) returns (r: Result<VersionedKey, EnvelopeError>)
      requires Valid()
      modifies this
      ensures Valid()
      ensures r == KeyFiles.ForContext(old(disk), ctx).1
      ensures SameMeaning(disk, KeyFiles.ForContext(old(disk), ctx).0)
    {
      var id := ScopedKeyId(ctx);
      if id.Err? {
        return Err(id.error);
      }
      var v := ActiveVersion(disk, id.value);
      if v.Err? {
        return Err(v.error);
      }
      var k := VersionedCipher(id.value, v.value, true);
      r := if k.Err? then Err(k.error) else Ok(VersionedKey(id.value, v.value, k.value));
    }

    /** A concrete key version is only ever read: no file appears, no active version moves. */
    method ForKeyId(keyId: string, version: nat) returns (r: Result<Key, EnvelopeError>)
      requires Valid()
      modifies this
      ensures Valid()
      ensures disk == old(disk) && r == KeyFiles.ForKeyId(old(disk), keyId, version).1
    {
      r := VersionedCipher(keyId, version, false);
    }

    method ForgetUser(user: string) returns (r: Result<(), EnvelopeError>)
      requires Valid()
      modifies this
      ensures Valid()
      ensures (disk, r) == KeyFiles.ForgetUser(old(disk), user)
    {
      if !ValidUserId(user) {
        return Err(BadUserId);
      }
      cache := cache - {LegacyTag(user)};
      disk := disk.(files := disk.files - {Legacy(user)});
      r := Ok(());
    }
  }
}
