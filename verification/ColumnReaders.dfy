/** The sealed columns of the database, and what the service behind each hands out for a stored value. */
module Columns {
  import opened Wrappers
  import opened KmsContexts
  import opened KeyFiles
  import opened Envelope
  import Secrets
  import StateFiles

  /** One sealed column, with the key columns of its row. */
  datatype Column =
    | SystemSecretCol(name: string)
    | UserSecretCol(user: string, name: string)
    | ApiKeyCol(user: string, id: string)
    | EmailCol(user: string)
    | BearerCol(owner: string, instance: string)
    | ProxyTokenCol(instance: string, provider: string)
    | StateFileCol(owner: string, instance: string, namespace: string, path: string)
    | ArtefactCol(owner: string, instance: string, chat: string, artefact: string)
    | WebhookCol(owner: string, instance: string, webhook: string)
    | ToolInputCol(owner: string, instance: string, toolUse: string)
    | ToolResultCol(owner: string, instance: string, toolUse: string)

  datatype Cell = Cell(column: Column, stored: Stored)

  datatype Answer = Nothing | Value(term: Term) | Failed

  /** The owner column of the instances table. */
  type Owners = map<string, string>

  predicate IsEmpty(s: Stored) {
    s == Other(Junk(false, ""))
  }

  /** Carries neither the armour header nor a version-2 envelope. */
  predicate Unsealed(s: Stored) {
    !Armored(s) && !IsV2(s)
  }

  function AsTerm(s: Stored): Term {
    if s.Other? && s.blob.Junk? && !s.blob.armored then Bytes(s.blob.bytes) else Verbatim(s)
  }

  function Opening(d: Disk, ctx: Context, s: Stored, otherwise: Answer): Answer {
    var got := Opens(d, ctx, s);
    if got.Some? then Value(got.value) else otherwise
  }

  // ----- Contexts as the services build them -----

  function ApiKeyContext(user: string, id: string): Context {
    Context(UserApiKey, Some(user), None, Some(id))
  }

  function EmailContext(user: string): Context {
    Context(UserProfile, Some(user), None, Some("email"))
  }

  function BearerContext(instance: string, owner: string): Context {
    Context(RuntimeToken, Some(owner), Some(instance), Some("instance_bearer"))
  }

  /** An empty owner counts as none. */
  function TokenContext(instance: string, owner: Option<string>, provider: string): Context {
    Context(RuntimeToken, if owner == Some("") then None else owner, Some(instance), Some("proxy_token:" + provider))
  }

  function ArtefactContext(owner: string, instance: string, chat: string, artefact: string): Context {
    Context(Artefact, Some(owner), Some(instance), Some(chat + ":" + artefact))
  }

  function WebhookContext(owner: string, instance: string, webhook: string): Context {
    Context(WebhookDelivery, Some(owner), Some(instance), Some(webhook))
  }

  function ToolCallContext(owner: string, instance: string, name: string): Context {
    Context(LlmToolCall, Some(owner), Some(instance), Some(name))
  }

  // ----- Reads -----

  function OwnerOf(owners: Owners, instance: string): Option<string> {
    if instance in owners then Some(owners[instance]) else None
  }

  /** Under the owner's context, and on a mismatch of an owned instance under the context without one. */
  function OpenToken(owners: Owners, d: Disk, instance: string, provider: string, s: Stored): Answer {
    var owner := OwnerOf(owners, instance);
    var first := Open(d, TokenContext(instance, owner, provider), s).1;
    if first.Ok? then Value(first.value.plaintext)
    else if owner.Some? && first.error == ContextMismatch then Opening(d, TokenContext(instance, None, provider), s, Failed)
    else Failed
  }

  function ReadStateFile(d: Disk, owner: string, f: StateFiles.File, s: Stored): Answer {
    match StateFiles.ReadBody(f, d, StateFiles.Row(owner, 0, Some(s), false)).1
    case Ok(Some(term)) => Value(term)
    case Ok(None) => Nothing
    case Err(_) => Failed
  }

  function Read(owners: Owners, d: Disk, c: Cell): Answer {
    match c.column
    case SystemSecretCol(name) => Opening(d, Secrets.ContextFor(Secrets.SystemName(name)), c.stored, Failed)
    case UserSecretCol(user, name) => Opening(d, Secrets.ContextFor(Secrets.UserName(user, name)), c.stored, Failed)
    case ApiKeyCol(user, id) => Opening(d, ApiKeyContext(user, id), c.stored, Nothing)
    case EmailCol(user) => Opening(d, EmailContext(user), c.stored, Nothing)
    case BearerCol(owner, instance) => Opening(d, BearerContext(instance, owner), c.stored, Failed)
    case ProxyTokenCol(instance, provider) => OpenToken(owners, d, instance, provider, c.stored)
    case StateFileCol(owner, instance, namespace, path) =>
      ReadStateFile(d, owner, StateFiles.File(instance, namespace, path), c.stored)
    case ArtefactCol(owner, instance, chat, artefact) =>
      if IsEmpty(c.stored) then Value(Bytes("")) else if Unsealed(c.stored) then Nothing
      else Opening(d, ArtefactContext(owner, instance, chat, artefact), c.stored, Nothing)
    case WebhookCol(owner, instance, webhook) =>
      if Unsealed(c.stored) then Value(AsTerm(c.stored))
      else Opening(d, WebhookContext(owner, instance, webhook), c.stored, Nothing)
    case ToolInputCol(owner, instance, use) => Opening(d, ToolCallContext(owner, instance, "input:" + use), c.stored, Failed)
    case ToolResultCol(owner, instance, use) => Opening(d, ToolCallContext(owner, instance, "result:" + use), c.stored, Failed)
  }

  /** The context a service seals a new value under. */
  function SealsUnder(owners: Owners, c: Column): Context {
    match c
    case SystemSecretCol(name) => Secrets.ContextFor(Secrets.SystemName(name))
    case UserSecretCol(user, name) => Secrets.ContextFor(Secrets.UserName(user, name))
    case ApiKeyCol(user, id) => ApiKeyContext(user, id)
    case EmailCol(user) => EmailContext(user)
    case BearerCol(owner, instance) => BearerContext(instance, owner)
    case ProxyTokenCol(instance, provider) => TokenContext(instance, OwnerOf(owners, instance), provider)
    case StateFileCol(owner, instance, namespace, path) => StateFiles.ContextOf(StateFiles.File(instance, namespace, path), owner)
    case ArtefactCol(owner, instance, chat, artefact) => ArtefactContext(owner, instance, chat, artefact)
    case WebhookCol(owner, instance, webhook) => WebhookContext(owner, instance, webhook)
    case ToolInputCol(owner, instance, use) => ToolCallContext(owner, instance, "input:" + use)
    case ToolResultCol(owner, instance, use) => ToolCallContext(owner, instance, "result:" + use)
  }

  /** Every service reads back what it sealed. */
  lemma SealedReads(owners: Owners, d: Disk, c: Column, term: Term)
    requires Seal(d, SealsUnder(owners, c), term).1.Ok?
    ensures var (e, s) := Seal(d, SealsUnder(owners, c), term);
            Read(owners, e, Cell(c, s.value)) == Value(term)
  {
    hide Seal, Open, Armored;
    SealedIsActive(d, SealsUnder(owners, c), term);
    SealedShape(d, SealsUnder(owners, c), term);
  }

  /** And what was sealed under the one key its user had before key ids existed. */
  lemma LegacyReads(owners: Owners, d: Disk, c: Column, term: Term)
    requires WellKeyed(d)
    requires var slot := Legacy(LegacyKeyUser(SealsUnder(owners, c)));
             ValidUserId(slot.user) && slot in d.files && d.files[slot].Identity?
    ensures var key := d.files[Legacy(LegacyKeyUser(SealsUnder(owners, c)))].key;
            Read(owners, d, Cell(c, Other(Sealed(key, term)))) == Value(term)
  {
    hide Seal, Open, LegacyKeyUser, Secrets.ContextFor;
    var ctx := SealsUnder(owners, c);
    var blob := Sealed(d.files[Legacy(LegacyKeyUser(ctx))].key, term);
    LegacyOpensIff(d, ctx, blob, term);
  }

  /** A webhook body from before sealing is handed out as it is, an empty artefact as empty, other unsealed bodies not at all. */
  lemma UnsealedReads(owners: Owners, d: Disk, c: Cell)
    requires Unsealed(c.stored)
    ensures match c.column
            case WebhookCol(_, _, _) =>
              Read(owners, d, c).Value? && forall bytes | c.stored == Other(Junk(false, bytes)) :: Read(owners, d, c) == Value(Bytes(bytes))
            case ArtefactCol(_, _, _, _) => Read(owners, d, c) == if c.stored == Other(Junk(false, "")) then Value(Bytes("")) else Nothing
            case StateFileCol(_, _, _, _) => Read(owners, d, c) == Nothing
            case _ => !Read(owners, d, c).Value?
  {
    hide ForUser, ForKeyId, ActiveKeyMeta;
  }

  /** More keys change nothing that is read. */
  lemma ReadLater(owners: Owners, d: Disk, e: Disk, c: Cell)
    requires Extends(d, e) && KeysKnown(d, c.stored)
    ensures Read(owners, e, c) == Read(owners, d, c)
  {
    hide Open, Extends, KeysKnown, Armored, IsV2, Seal;
    forall ctx ensures Opens(e, ctx, c.stored) == Opens(d, ctx, c.stored) {
      OpenAgrees(d, e, ctx, c.stored);
    }
    if c.column.ProxyTokenCol? {
      var ctx := TokenContext(c.column.instance, OwnerOf(owners, c.column.instance), c.column.provider);
      OpenAgrees(d, e, ctx, c.stored);
      MismatchAgrees(d, e, ctx, c.stored);
    } else if c.column.StateFileCol? {
      var f := StateFiles.File(c.column.instance, c.column.namespace, c.column.path);
      OpenAgrees(d, e, StateFiles.ContextOf(f, c.column.owner), c.stored);
    }
  }

  lemma MismatchAgrees(d: Disk, e: Disk, ctx: Context, s: Stored)
    requires Extends(d, e) && KeysKnown(d, s)
    ensures Open(d, ctx, s).1 == Err(ContextMismatch) <==> Open(e, ctx, s).1 == Err(ContextMismatch)
  {
  }
}
