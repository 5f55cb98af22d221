/** Names of system secrets and the contexts they seal under (crates/core/src/secrets.rs). */
module SystemSecretNames {
  import opened Wrappers
  import opened Text
  import opened KmsContexts

  const PREFIX := "instance."
  const SUFFIX := ".configure"

  /** The instance id inside `instance.<id>.configure`, if the name has that shape and the id is not empty. */
  function ConfigureInstance(name: string): Option<string> {
    if !StartsWith(name, PREFIX) then None else
    var rest := name[|PREFIX|..];
    if !EndsWith(rest, SUFFIX) then None else
    var id := rest[..|rest| - |SUFFIX|];
    if id == "" then None else Some(id)
  }

  function SystemSecretContext(name: string): Context {
    match ConfigureInstance(name)
    case Some(id) => Context(SystemConfigure, None, Some(id), Some(name))
    case None => Context(SystemSecret, None, None, Some(name))
  }

  function ConfigureSecretName(instance: string): string {
    PREFIX + instance + SUFFIX
  }

  /** The configure scope is used for exactly the names built for a non-empty instance id. */
  lemma ConfigureScopeExactly(name: string)
    ensures SystemSecretContext(name).scope.SystemConfigure? <==>
            exists id :: id != "" && name == ConfigureSecretName(id)
    ensures SystemSecretContext(name).scope.SystemConfigure? ==>
            name == ConfigureSecretName(SystemSecretContext(name).instance.value)
  {
    var got := ConfigureInstance(name);
    if got.Some? {
      assert name[|PREFIX|..] == got.value + SUFFIX;
      assert name == PREFIX + (got.value + SUFFIX) == ConfigureSecretName(got.value);
    }
    forall id | id != "" && name == ConfigureSecretName(id)
      ensures got == Some(id)
    {
      assert name == PREFIX + (id + SUFFIX);
      assert name[|PREFIX|..] == id + SUFFIX;
    }
  }
}

/**
 * The two secret services (crates/core/src/secrets.rs). They have one shape: a store of sealed
 * values under names, a seal on every write, and a rewrap on any read that asks for one.
 */
module Secrets {
  import opened Wrappers
  import opened KmsContexts
  import opened KeyFiles
  import opened Envelope
  import opened SystemSecretNames

  datatype SecretName = UserName(user: string, name: string) | SystemName(system: string)

  datatype SecretsError = StoreFailure | EnvelopeFailure(error: EnvelopeError)

  function ContextFor(k: SecretName): Context {
    match k
    case UserName(user, name) => Context(UserSecret, Some(user), None, Some(name))
    case SystemName(name) => SystemSecretContext(name)
  }

  /** No two names share a context, so a sealed value copied to another row never opens there. */
  lemma ContextsAreDistinct(a: SecretName, b: SecretName)
    requires ContextFor(a) == ContextFor(b)
    ensures a == b
  {
  }

  ghost predicate Sound(d: Disk, store: map<SecretName, Stored>) {
    WellKeyed(d) && forall k <- store :: KeysKnown(d, store[k])
  }

  /** The plaintexts a store holds: every name whose value opens under its own context. */
  ghost function Plaintexts(d: Disk, store: map<SecretName, Stored>): map<SecretName, Term> {
    map k | k in store && Opens(d, ContextFor(k), store[k]).Some? :: Opens(d, ContextFor(k), store[k]).value
  }

  lemma PlaintextsLater(d: Disk, e: Disk, store: map<SecretName, Stored>)
    requires Sound(d, store) && Extends(d, e) && WellKeyed(e)
    ensures Sound(e, store) && Plaintexts(e, store) == Plaintexts(d, store)
  {
    forall k | k in store
      ensures Opens(e, ContextFor(k), store[k]) == Opens(d, ContextFor(k), store[k])
    {
      OpenAgrees(d, e, ContextFor(k), store[k]);
    }
  }

  /** Storing a freshly sealed value changes that name's plaintext and no other. */
  lemma PlaintextsAfterSeal(d: Disk, store: map<SecretName, Stored>, k: SecretName, value: Term)
    requires Sound(d, store) && Seal(d, ContextFor(k), value).1.Ok?
    ensures var (e, s) := Seal(d, ContextFor(k), value);
            && Sound(e, store[k := s.value])
            && Plaintexts(e, store[k := s.value]) == Plaintexts(d, store)[k := value]
            && Current(e, ContextFor(k), s.value)
  {
    hide ContextFor, OpenV2;
    var (e, s) := Seal(d, ContextFor(k), value);
    SealExtends(d, ContextFor(k), value);
    SealedOpensLater(d, ContextFor(k), value, []);
    SealedShape(d, ContextFor(k), value);
    PlaintextsLater(d, e, store);
    SealedIsActive(d, ContextFor(k), value);
  }

  ghost predicate OnlyAt(store: map<SecretName, Stored>, next: map<SecretName, Stored>, k: SecretName) {
    forall j | j != k :: (j in store <==> j in next) && (j in store ==> store[j] == next[j])
  }

  class SecretsService {
    var disk: Disk
    var store: map<SecretName, Stored>

    ghost predicate Valid()
      reads this
    {
      Sound(disk, store)
    }

    ghost function View(): map<SecretName, Term>
      reads this
    {
      Plaintexts(disk, store)
    }

    /** The write both services share: seal under the name's context, then store. */
    method SealAndStore(k: SecretName, value: Term) returns (r: Result<(), SecretsError>)
      requires Valid()
      modifies this
      ensures Valid()
      ensures View() == if r.Ok? then old(View())[k := value] else old(View())
      ensures store.Keys == if r.Ok? then old(store).Keys + {k} else old(store).Keys
      ensures r.Ok? ==> Current(disk, ContextFor(k), store[k])
      ensures OnlyAt(old(store), store, k)
      ensures r.Err? && r.error.EnvelopeFailure? ==> !SealOk(old(disk), ContextFor(k))
      ensures r.Ok? ==> SealOk(old(disk), ContextFor(k))
    {
      hide Plaintexts, ContextFor, ForContext, Current;
      var (d1, sealed) := Seal(disk, ContextFor(k), value);
      SealExtends(disk, ContextFor(k), value);
      PlaintextsLater(disk, d1, store);
      if sealed.Ok? {
        PlaintextsAfterSeal(disk, store, k, value);
      }
      disk := d1;
      if sealed.Err? {
        return Err(EnvelopeFailure(sealed.error));
      }
      var failed := *;
      if failed {
        return Err(StoreFailure);
      }
      store := store[k := sealed.value];
      r := Ok(());
    }

    method Put(k: SecretName, value: Term) returns (r: Result<(), SecretsError>)
      requires Valid()
      modifies this
      ensures Valid()
      ensures View() == if r.Ok? then old(View())[k := value] else old(View())
      ensures r.Ok? ==> k in store && Current(disk, ContextFor(k), store[k])
      ensures OnlyAt(old(store), store, k)
    {
      r := SealAndStore(k, value);
    }

    /**
     * Reading never changes what any name reads as. A read that would have to rewrap fails when the
     * rewrap does, even though the plaintext was in hand.
     */
    method Get(k: SecretName) returns (r: Result<Option<Term>, SecretsError>)
      requires Valid()
      modifies this
      ensures Valid()
      ensures View() == old(View()) && store.Keys == old(store).Keys
      ensures r.Ok? ==> r.value == (if k in old(View()) then Some(old(View())[k]) else None)
      // A row that is read ends as an envelope under its active key, and is rewritten only if it was not one.
      ensures r.Ok? && r.value.Some? ==> Current(disk, ContextFor(k), store[k])
      ensures OnlyAt(old(store), store, k)
      ensures k in old(store) && Current(old(disk), ContextFor(k), old(store)[k]) ==> store == old(store)
      ensures r.Err? && r.error.EnvelopeFailure? ==>
                k in old(store) && (k !in old(View()) || !SealOk(old(disk), ContextFor(k)))
    {
      hide ContextFor, ForContext, OpenV2, ForUser;
      if k !in store {
        return Ok(None);
      }
      var ctx := ContextFor(k);
      var (d1, o) := Open(disk, ctx, store[k]);
      OpenExtends(disk, ctx, store[k]);
      PlaintextsLater(disk, d1, store);
      OpenAgrees(disk, d1, ctx, store[k]);
      SealAgrees(disk, d1, ctx);
      if o.Ok? {
        RewrapAskedIff(disk, ctx, store[k]);
        RewrapAskedIff(d1, ctx, store[k]);
      }
      disk := d1;
      if o.Err? {
        return Err(EnvelopeFailure(o.error));
      }
      if o.value.needsRewrap {
        var w := SealAndStore(k, o.value.plaintext);
        if w.Err? {
          return Err(w.error);
        }
      }
      r := Ok(Some(o.value.plaintext));
    }

    method Delete(k: SecretName) returns (r: Result<(), SecretsError>)
      requires Valid()
      modifies this
      ensures Valid()
      ensures View() == if r.Ok? then old(View()) - {k} else old(View())
    {
      var failed := *;
      if failed {
        return Err(StoreFailure);
      }
      store := store - {k};
      r := Ok(());
    }
  }
}
