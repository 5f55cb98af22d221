/**
 * What saving the edit form of an MCP server does to its stored record
 * (crates/core/src/instance/mcp_reconcile.rs, crates/core/src/instance.rs).
 */
module McpEdit {
  import opened Wrappers
  import Catalog

  datatype Auth =
    | NoAuth
    | Bearer(token: string)
    | Oauth(scopes: seq<string>, clientId: Option<string>, clientSecret: Option<string>,
            authorizationUrl: Option<string>, tokenUrl: Option<string>, registrationUrl: Option<string>)

  /** `transport` is the headers and the runtime, `tools` the cached tool list with its last error. */
  datatype Entry = Entry(
    url: string, auth: Auth, transport: string, catalog: Option<string>, vscode: bool,
    tokens: Option<string>, tools: string, selected: Option<seq<string>>)

  /** The submitted form. */
  datatype Spec = Spec(url: string, auth: Auth, selected: Option<seq<string>>)

  predicate ShapeMatches(a: Auth, b: Auth) {
    match (a, b)
    case (NoAuth, NoAuth) => true
    case (Bearer(_), Bearer(_)) => true
    case (Oauth(_, _, _, _, _, _), Oauth(_, _, _, _, _, _)) =>
      a.scopes == b.scopes && a.authorizationUrl == b.authorizationUrl && a.tokenUrl == b.tokenUrl
    case _ => false
  }

  /** A keep token in the form gives way to the secret that is stored, if there is one. */
  function KeepSecrets(previous: Auth, auth: Auth): Auth {
    match (previous, auth)
    case (Bearer(stored), Bearer(token)) => if token == Catalog.KEEP_TOKEN then Bearer(stored) else auth
    case (Oauth(_, _, Some(stored), _, _, _), Oauth(_, _, Some(secret), _, _, _)) =>
      if secret == Catalog.KEEP_TOKEN then auth.(clientSecret := Some(stored)) else auth
    case _ => auth
  }

  function Blank(spec: Spec): Entry {
    Entry(spec.url, spec.auth, "", None, false, None, "", spec.selected)
  }

  /** The record after the form is saved over `stored`. */
  function Edited(stored: Option<Entry>, spec: Spec): Entry {
    var entry := if stored.Some? then stored.value else Blank(spec);
    var auth := if ShapeMatches(entry.auth, spec.auth) then KeepSecrets(entry.auth, spec.auth) else spec.auth;
    entry.(url := spec.url, auth := auth, transport := "", catalog := None, vscode := false, selected := spec.selected,
           tokens := if ShapeMatches(entry.auth, auth) then entry.tokens else None)
  }

  function SecretOf(auth: Auth): Option<string> {
    match auth
    case NoAuth => None
    case Bearer(token) => Some(token)
    case Oauth(_, _, secret, _, _, _) => secret
  }

  /** What the form shows for a stored record: a secret is never read back. */
  function Masked(auth: Auth): Auth {
    match auth
    case NoAuth => auth
    case Bearer(_) => Bearer(Catalog.KEEP_TOKEN)
    case Oauth(_, _, secret, _, _, _) => if secret.Some? then auth.(clientSecret := Some(Catalog.KEEP_TOKEN)) else auth
  }

  /** Saving what the form shows, with any other url or tool selection, loses no credential. */
  lemma FormKeepsCredentials(entry: Entry, url: string, selected: Option<seq<string>>)
    ensures var next := Edited(Some(entry), Spec(url, Masked(entry.auth), selected));
            next.auth == entry.auth && next.tokens == entry.tokens && next.tools == entry.tools
    ensures SecretOf(Masked(entry.auth)).Some? ==> SecretOf(Masked(entry.auth)) == Some(Catalog.KEEP_TOKEN)
  {
    if entry.auth.Oauth? && entry.auth.clientSecret.Some? {
      assert entry.auth.clientSecret == Some(entry.auth.clientSecret.value);
    }
  }

  /** Saving makes any record a plain server at the given url, with what it had of tokens and tools, or nothing. */
  lemma EditedIsPlain(stored: Option<Entry>, spec: Spec)
    ensures var next := Edited(stored, spec);
            && next.url == spec.url && next.selected == spec.selected
            && next.transport == "" && next.catalog == None && !next.vscode
            && next.tools == (if stored.Some? then stored.value.tools else "")
            && (stored.None? ==> next.tokens == None && next.auth == spec.auth)
            && (stored.Some? && !ShapeMatches(stored.value.auth, spec.auth) ==> next.tokens == None && next.auth == spec.auth)
  {
  }

  /** The keep token itself is stored exactly when it is sent and no other secret of that shape is there to keep. */
  lemma KeepTokenStoredIff(stored: Option<Entry>, spec: Spec)
    ensures SecretOf(Edited(stored, spec).auth) == Some(Catalog.KEEP_TOKEN) <==>
            SecretOf(spec.auth) == Some(Catalog.KEEP_TOKEN) && !CanKeep(stored, spec.auth)
  {
    if spec.auth.Oauth? && spec.auth.clientSecret.Some? {
      assert spec.auth.clientSecret == Some(spec.auth.clientSecret.value);
    }
  }

  /** The first save of a server has nothing to keep. */
  lemma FirstSaveStoresKeepToken(url: string, selected: Option<seq<string>>)
    ensures Edited(None, Spec(url, Bearer(Catalog.KEEP_TOKEN), selected)).auth == Bearer(Catalog.KEEP_TOKEN)
  {
  }

  predicate CanKeep(stored: Option<Entry>, auth: Auth) {
    && stored.Some? && ShapeMatches(stored.value.auth, auth)
    && SecretOf(stored.value.auth).Some? && SecretOf(stored.value.auth) != Some(Catalog.KEEP_TOKEN)
  }

  /** Saving the same form twice is saving it once. */
  lemma EditIsIdempotent(stored: Option<Entry>, spec: Spec)
    ensures Edited(Some(Edited(stored, spec)), spec) == Edited(stored, spec)
  {
    var once := Edited(stored, spec);
    EditedShape(stored, spec);
    ShapeIsEquivalence(once.auth, spec.auth, spec.auth);
  }

  lemma ShapeIsEquivalence(a: Auth, b: Auth, c: Auth)
    ensures ShapeMatches(a, a) && (ShapeMatches(a, b) ==> ShapeMatches(b, a))
    ensures ShapeMatches(a, b) && ShapeMatches(b, c) ==> ShapeMatches(a, c)
  {
  }

  lemma EditedShape(stored: Option<Entry>, spec: Spec)
    ensures ShapeMatches(spec.auth, Edited(stored, spec).auth)
  {
  }

  // ----- Any number of saves -----

  function EditedAll(entry: Entry, specs: seq<Spec>): Entry {
    if specs == [] then entry else Edited(Some(EditedAll(entry, specs[..|specs| - 1])), specs[|specs| - 1])
  }

  /** Tokens survive any saves exactly when none of them changes the shape of the authentication. */
  lemma {:induction false} TokensSurviveIff(entry: Entry, specs: seq<Spec>)
    requires entry.tokens.Some?
    ensures EditedAll(entry, specs).tokens == (if forall spec <- specs :: ShapeMatches(entry.auth, spec.auth) then entry.tokens else None)
    ensures (forall spec <- specs :: ShapeMatches(entry.auth, spec.auth)) ==> ShapeMatches(entry.auth, EditedAll(entry, specs).auth)
  {
    if specs == [] {
      ShapeIsEquivalence(entry.auth, entry.auth, entry.auth);
    } else {
      var front, last := specs[..|specs| - 1], specs[|specs| - 1];
      TokensSurviveIff(entry, front);
      var mid := EditedAll(entry, front);
      EditedTokens(mid, last);
      EditedShape(Some(mid), last);
      assert specs == front + [last];
      ShapeIsEquivalence(entry.auth, mid.auth, last.auth);
      ShapeIsEquivalence(mid.auth, entry.auth, last.auth);
      ShapeIsEquivalence(entry.auth, last.auth, Edited(Some(mid), last).auth);
    }
  }

  lemma EditedTokens(entry: Entry, spec: Spec)
    ensures Edited(Some(entry), spec).tokens == if ShapeMatches(entry.auth, spec.auth) then entry.tokens else None
  {
  }

  /** A stored secret survives any saves that keep the shape and send the keep token. */
  lemma {:induction false} SecretSurvives(entry: Entry, specs: seq<Spec>)
    requires SecretOf(entry.auth).Some?
    requires forall spec <- specs :: ShapeMatches(entry.auth, spec.auth) && SecretOf(spec.auth) == Some(Catalog.KEEP_TOKEN)
    ensures SecretOf(EditedAll(entry, specs).auth) == SecretOf(entry.auth)
    ensures ShapeMatches(entry.auth, EditedAll(entry, specs).auth)
  {
    if specs == [] {
      ShapeIsEquivalence(entry.auth, entry.auth, entry.auth);
    } else {
      var front, last := specs[..|specs| - 1], specs[|specs| - 1];
      assert forall spec <- front :: spec in specs;
      SecretSurvives(entry, front);
      var mid := EditedAll(entry, front);
      assert last in specs;
      ShapeIsEquivalence(entry.auth, mid.auth, mid.auth);
      ShapeIsEquivalence(mid.auth, entry.auth, last.auth);
      EditedShape(Some(mid), last);
      ShapeIsEquivalence(entry.auth, last.auth, Edited(Some(mid), last).auth);
      KeptSecret(mid, last);
    }
  }

  lemma KeptSecret(entry: Entry, spec: Spec)
    requires ShapeMatches(entry.auth, spec.auth) && SecretOf(entry.auth).Some? && SecretOf(spec.auth) == Some(Catalog.KEEP_TOKEN)
    ensures SecretOf(Edited(Some(entry), spec).auth) == SecretOf(entry.auth)
  {
    if spec.auth.Oauth? {
      assert spec.auth.clientSecret == Some(spec.auth.clientSecret.value);
    }
  }
}
