/**
 * Context-bound envelopes over the key directory (crates/core/src/envelope.rs).
 * Ciphertexts are symbolic: a blob sealed under a key opens under that key and under no other, and
 * JSON and Base64 (section 4 of RFC 4648) are term constructors, so they invert by construction.
 */
module Envelope {
  import opened Wrappers
  import opened KmsContexts
  import opened KeyFiles

  /** A byte string, one character per byte. */
  type Bytes = string

  /**
   * What a key can seal: bytes, a stored column taken verbatim, a bound payload as JSON, or a bound
   * payload whose secret is not Base64.
   */
  datatype Term =
    | Bytes(bytes: Bytes)
    | Verbatim(column: Stored)
    | Bound(context: Context, secret: Term)
    | BadBase64(claimed: Context)

  /** An age ciphertext, or bytes no key opens. */
  datatype Blob = Sealed(key: Key, term: Term) | Junk(armored: bool, bytes: Bytes)

  datatype KmsEnvelope = KmsEnvelope(
    version: nat, algorithm: string, context: Context, keyId: string, keyVersion: nat, ciphertext: Blob)

  /** A stored column: text that parses as an envelope, or anything else. */
  datatype Stored = Json(env: KmsEnvelope) | Other(blob: Blob)

  datatype Opened = Opened(plaintext: Term, keyId: string, keyVersion: nat, legacy: bool, needsRewrap: bool)

  const KMS_V2_ALG := "local-age-x25519"

  predicate IsV2(s: Stored) {
    s.Json? && s.env.version == 2
  }

  /** Carries the age armour header; every age ciphertext does. */
  predicate Armored(s: Stored) {
    s.Other? && (s.blob.Sealed? || s.blob.armored)
  }

  function Decrypt(key: Key, blob: Blob): Result<Term, EnvelopeError> {
    if blob.Sealed? && blob.key == key then Ok(blob.term) else Err(Corrupt)
  }

  function Seal(d: Disk, ctx: Context, plaintext: Term): (Disk, Result<Stored, EnvelopeError>) {
    var (d1, active) := ForContext(d, ctx);
    if active.Err? then (d1, Err(active.error)) else
    (d1, Ok(Json(KmsEnvelope(2, KMS_V2_ALG, ctx, active.value.keyId, active.value.version,
                             Sealed(active.value.key, Bound(ctx, plaintext))))))
  }

  function OpenV2(d: Disk, ctx: Context, env: KmsEnvelope): Result<Opened, EnvelopeError> {
    if env.algorithm != KMS_V2_ALG then Err(BadEnvelope)
    else if env.context != ctx then Err(ContextMismatch) else
    var key := ForKeyId(d, env.keyId, env.keyVersion).1;
    if key.Err? then Err(key.error) else
    var payload := Decrypt(key.value, env.ciphertext);
    if payload.Err? then Err(payload.error) else
    match payload.value
    case Bytes(_) | Verbatim(_) => Err(BadEnvelope)
    case BadBase64(c) => if c != ctx then Err(ContextMismatch) else Err(BadEnvelope)
    case Bound(c, secret) =>
      if c != ctx then Err(ContextMismatch) else
      var active := ActiveKeyMeta(d, ctx);
      if active.Err? then Err(active.error) else
      Ok(Opened(secret, env.keyId, env.keyVersion, false, active.value != (env.keyId, env.keyVersion)))
  }

  function Open(d: Disk, ctx: Context, stored: Stored): (Disk, Result<Opened, EnvelopeError>) {
    if IsV2(stored) then (d, OpenV2(d, ctx, stored.env)) else
    var user := LegacyKeyUser(ctx);
    var (d1, key) := ForUser(d, user);
    if key.Err? then (d1, Err(key.error)) else
    var plain := if stored.Json? then Err(Corrupt) else Decrypt(key.value, stored.blob);
    if plain.Err? then (d1, Err(plain.error)) else
    (d1, Ok(Opened(plain.value, "legacy/" + user, 1, true, true)))
  }

  /** The plaintext a row opens to, if it opens. */
  function Opens(d: Disk, ctx: Context, stored: Stored): Option<Term> {
    var r := Open(d, ctx, stored).1;
    if r.Ok? then Some(r.value.plaintext) else None
  }

  /** The plaintext the key files give access to, whatever version is active. */
  function Recovers(d: Disk, ctx: Context, stored: Stored): Option<Term> {
    if !IsV2(stored) then Opens(d, ctx, stored) else
    var env := stored.env;
    var key := ForKeyId(d, env.keyId, env.keyVersion).1;
    if env.algorithm == KMS_V2_ALG && env.context == ctx && key.Ok? then
      var payload := Decrypt(key.value, env.ciphertext);
      if payload.Ok? && payload.value.Bound? && payload.value.context == ctx then Some(payload.value.secret) else None
    else None
  }

  /** A version-2 row that is recoverable opens exactly when its active version is readable. */
  lemma OpensIffRecovers(d: Disk, ctx: Context, s: Stored)
    ensures Opens(d, ctx, s).Some? <==> Recovers(d, ctx, s).Some? && (IsV2(s) ==> ActiveKeyMeta(d, ctx).Ok?)
    ensures Opens(d, ctx, s).Some? ==> Opens(d, ctx, s) == Recovers(d, ctx, s)
  {
  }

  lemma RecoversLater(d: Disk, e: Disk, ctx: Context, s: Stored)
    requires Grows(d, e) && KeysKnown(d, s)
    ensures Recovers(d, ctx, s) == Recovers(e, ctx, s) && KeysKnown(e, s)
  {
  }

  /** A version-2 envelope under the key that is active for its context. */
  predicate Current(d: Disk, ctx: Context, stored: Stored) {
    IsV2(stored) && ActiveKeyMeta(d, ctx) == Ok((stored.env.keyId, stored.env.keyVersion))
  }

  /** A rewrap is asked for exactly when the row is not a version-2 envelope under the active key. */
  lemma RewrapAskedIff(d: Disk, ctx: Context, s: Stored)
    requires Open(d, ctx, s).1.Ok?
    ensures var o := Open(d, ctx, s).1.value;
            && (o.needsRewrap <==> !Current(d, ctx, s)) && (o.legacy <==> !IsV2(s))
            && (IsV2(s) ==> o.keyId == s.env.keyId && o.keyVersion == s.env.keyVersion)
  {
  }

  /** A column from before envelopes opens exactly under the key file of the user it belongs to. */
  lemma LegacyOpensIff(d: Disk, ctx: Context, blob: Blob, term: Term)
    requires WellKeyed(d) && KeysKnown(d, Other(blob))
    ensures Opens(d, ctx, Other(blob)) == Some(term) <==>
            var slot := Legacy(LegacyKeyUser(ctx));
            ValidUserId(slot.user) && slot in d.files && d.files[slot].Identity? && blob == Sealed(d.files[slot].key, term)
  {
  }

  predicate SealOk(d: Disk, ctx: Context) {
    ForContext(d, ctx).1.Ok?
  }

  /** Every key used in a stored value has already been generated. */
  predicate KeysKnown(d: Disk, s: Stored) {
    var blob := if s.Json? then s.env.ciphertext else s.blob;
    blob.Sealed? ==> blob.key < d.next
  }

  /** Sealing succeeds in every context whose owner requirement is met, once its active key is readable. */
  lemma SealSucceeds(d: Disk, ctx: Context)
    ensures SealOk(d, ctx) <==>
            && ActiveKeyMeta(d, ctx).Ok?
            && var slot := Versioned(ActiveKeyMeta(d, ctx).value.0, ActiveKeyMeta(d, ctx).value.1);
               (slot in d.files ==> d.files[slot].Identity?)
  {
    ScopedKeyIdExists(ctx);
  }

  /**
   * In any directory state reached later by lookups, rotations and erasures, a sealed value opens
   * under its own context to exactly what was sealed, and asks for a rewrap exactly when the active
   * version has moved; it fails only if the active version has become unreadable.
   */
  lemma SealedOpensLater(d: Disk, ctx: Context, plaintext: Term, ops: seq<DirOp>)
    requires Seal(d, ctx, plaintext).1.Ok?
    ensures var (d1, sealed) := Seal(d, ctx, plaintext);
            var d2, env := Run(d1, ops), sealed.value.env;
            Open(d2, ctx, sealed.value) ==
            (d2, match ActiveVersion(d2, env.keyId)
                 case Err(e) => Err(e)
                 case Ok(v) => Ok(Opened(plaintext, env.keyId, env.keyVersion, false, v != env.keyVersion)))
  {
    var (d1, sealed) := Seal(d, ctx, plaintext);
    var env := sealed.value.env;
    ScopedKeyIdExists(ctx);
    assert Versioned(env.keyId, env.keyVersion) in d1.files;
    RunKeepsVersionedKeys(d1, ops);
  }

  /** What sealing leaves behind: a bound ciphertext under a key that is now on disk. */
  lemma SealedShape(d: Disk, ctx: Context, plaintext: Term)
    requires Seal(d, ctx, plaintext).1.Ok?
    ensures var (d1, s) := Seal(d, ctx, plaintext);
            && IsV2(s.value)
            && s.value.env.context == ctx
            && s.value.env.ciphertext.Sealed?
            && s.value.env.ciphertext.term == Bound(ctx, plaintext)
            && var slot := Versioned(s.value.env.keyId, s.value.env.keyVersion);
               slot in d1.files && d1.files[slot] == Identity(s.value.env.ciphertext.key)
  {
    ScopedKeyIdExists(ctx);
  }

  /** A key that belongs to a version file is no user's legacy key. */
  lemma VersionedBlobIsNotLegacy(d: Disk, slot: Slot, blob: Blob, ctx: Context)
    requires WellKeyed(d) && slot.Versioned? && slot in d.files
    requires blob.Sealed? && d.files[slot] == Identity(blob.key)
    ensures Open(d, ctx, Other(blob)).1.Err?
  {
    var user := LegacyKeyUser(ctx);
    GenerateExtends(d, Legacy(user));
    var e := GenerateIfMissing(d, Legacy(user));
    assert slot in e.files && e.files[slot] == d.files[slot];
  }

  /**
   * A ciphertext sealed in one context never yields plaintext anywhere else: not under another
   * context, not under another context's metadata, and not as a bare legacy column.
   */
  lemma SplicedNeverOpens(d: Disk, ctx: Context, plaintext: Term, ops: seq<DirOp>, other: Context, forged: KmsEnvelope)
    requires WellKeyed(d)
    requires Seal(d, ctx, plaintext).1.Ok?
    requires forged.ciphertext == Seal(d, ctx, plaintext).1.value.env.ciphertext
    ensures var d2 := Run(Seal(d, ctx, plaintext).0, ops);
            && (other != ctx ==> Open(d2, other, Seal(d, ctx, plaintext).1.value).1.Err?)
            && (forged.context != ctx || other != ctx ==> Open(d2, other, Json(forged)).1.Err?)
            && Open(d2, other, Other(forged.ciphertext)).1.Err?
  {
    var (d1, sealed) := Seal(d, ctx, plaintext);
    SealedShape(d, ctx, plaintext);
    SealExtends(d, ctx, plaintext);
    RunKeepsVersionedKeys(d1, ops);
    var slot := Versioned(sealed.value.env.keyId, sealed.value.env.keyVersion);
    VersionedBlobIsNotLegacy(Run(d1, ops), slot, forged.ciphertext, other);
  }

  /** A value just sealed opens at once and asks for no rewrap. */
  lemma SealedIsActive(d: Disk, ctx: Context, plaintext: Term)
    requires Seal(d, ctx, plaintext).1.Ok?
    ensures var (e, s) := Seal(d, ctx, plaintext);
            && Open(e, ctx, s.value).1.Ok?
            && Open(e, ctx, s.value).1.value.plaintext == plaintext
            && !Open(e, ctx, s.value).1.value.needsRewrap
            && !Open(e, ctx, s.value).1.value.legacy
  {
    SealedOpensLater(d, ctx, plaintext, []);
    LookupsExtend(d, "", ctx);
  }

  lemma SealedIsCurrent(d: Disk, ctx: Context, plaintext: Term)
    requires Seal(d, ctx, plaintext).1.Ok?
    ensures Current(Seal(d, ctx, plaintext).0, ctx, Seal(d, ctx, plaintext).1.value)
  {
    SealedIsActive(d, ctx, plaintext);
    SealedShape(d, ctx, plaintext);
    RewrapAskedIff(Seal(d, ctx, plaintext).0, ctx, Seal(d, ctx, plaintext).1.value);
  }

  /** Rewrapping keeps the plaintext and clears the request for another rewrap. */
  lemma RewrapClearsFlag(d: Disk, ctx: Context, s: Stored)
    requires Open(d, ctx, s).1.Ok?
    requires Seal(Open(d, ctx, s).0, ctx, Open(d, ctx, s).1.value.plaintext).1.Ok?
    ensures var (d1, got) := Open(d, ctx, s);
            var (d2, next) := Seal(d1, ctx, got.value.plaintext);
            Open(d2, ctx, next.value).1.Ok? &&
            var again := Open(d2, ctx, next.value).1.value;
            again.plaintext == got.value.plaintext && !again.needsRewrap && !again.legacy
  {
    SealedIsActive(Open(d, ctx, s).0, ctx, Open(d, ctx, s).1.value.plaintext);
  }

  /** More files cannot change what an existing row opens to, nor whether it opens. */
  lemma OpenAgrees(d: Disk, e: Disk, ctx: Context, s: Stored)
    requires Extends(d, e) && KeysKnown(d, s)
    ensures Open(d, ctx, s).1.Ok? <==> Open(e, ctx, s).1.Ok?
    ensures Open(d, ctx, s).1.Ok? ==> Open(d, ctx, s).1 == Open(e, ctx, s).1
  {
  }

  lemma SealAgrees(d: Disk, e: Disk, ctx: Context)
    requires Extends(d, e)
    ensures SealOk(d, ctx) == SealOk(e, ctx)
  {
    SealSucceeds(d, ctx);
    SealSucceeds(e, ctx);
  }

  lemma OpenExtends(d: Disk, ctx: Context, s: Stored)
    ensures Extends(d, Open(d, ctx, s).0)
    ensures WellKeyed(d) ==> WellKeyed(Open(d, ctx, s).0)
  {
    LookupsExtend(d, LegacyKeyUser(ctx), ctx);
  }

  lemma SealExtends(d: Disk, ctx: Context, plaintext: Term)
    ensures Extends(d, Seal(d, ctx, plaintext).0)
    ensures WellKeyed(d) ==> WellKeyed(Seal(d, ctx, plaintext).0)
    ensures WellKeyed(d) && Seal(d, ctx, plaintext).1.Ok? ==>
              KeysKnown(Seal(d, ctx, plaintext).0, Seal(d, ctx, plaintext).1.value)
  {
    LookupsExtend(d, "", ctx);
    ScopedKeyIdExists(ctx);
  }

  /**
   * `forget_user` is documented to make a user's ciphertexts unrecoverable. It does so exactly for
   * the rows that are not version-2 envelopes: those still open as before.
   */
  lemma ForgetUserErasesOnlyLegacy(d: Disk, ctx: Context, s: Stored)
    requires WellKeyed(d) && KeysKnown(d, s)
    requires Open(d, ctx, s).1.Ok?
    ensures var e := ForgetUser(d, LegacyKeyUser(ctx)).0;
            && (IsV2(s) ==> Open(e, ctx, s).1 == Open(d, ctx, s).1)
            && (!IsV2(s) ==> Open(e, ctx, s).1.Err?)
  {
  }

  /** Erasing a user reaches exactly the unversioned rows of that user; those of the system go with the system's key. */
  lemma ForgetUserHitsOwner(d: Disk, ctx: Context, s: Stored, user: string)
    requires WellKeyed(d) && KeysKnown(d, s) && ValidUserId(user) && Open(d, ctx, s).1.Ok?
    ensures var hit := if SystemScope(ctx.scope) || ctx.owner.None? then user == "system" else ctx.owner == Some(user);
            var e := ForgetUser(d, user).0;
            Open(e, ctx, s).1.Err? <==> hit && !IsV2(s)
  {
  }
}
