/** Row contexts and the key ids they are routed to (crates/core/src/envelope.rs). */
module KmsContexts {
  import opened Wrappers
  import opened Text

  datatype Scope =
    | SystemSecret | SystemConfigure | UserSecret | UserApiKey | UserProfile | RuntimeToken
    | StateFile | Artefact | WebhookDelivery | LlmToolCall | AgentSecret

  datatype Context = Context(scope: Scope, owner: Option<string>, instance: Option<string>, name: Option<string>)

  datatype EnvelopeError =
    | BadUserId | BadKeyId | KeyParse | Io | Corrupt | ContextMismatch | BadEnvelope

  const SYSTEM_KEY_ID := "system"

  predicate IsHex(c: char) {
    '0' <= c <= '9' || 'a' <= c <= 'f' || 'A' <= c <= 'F'
  }

  predicate ValidUserId(id: string) {
    id == SYSTEM_KEY_ID || (|id| == 32 && forall c <- id :: IsHex(c))
  }

  predicate KeyIdChar(c: char) {
    '0' <= c <= '9' || 'a' <= c <= 'z' || 'A' <= c <= 'Z' || c == '-' || c == '_'
  }

  predicate HasDoubleSlash(s: string) {
    exists i | 0 <= i < |s| - 1 :: s[i] == '/' && s[i + 1] == '/'
  }

  predicate ValidKeyId(id: string) {
    && id != ""
    && id[0] != '/'
    && !HasDoubleSlash(id)
    && forall part <- Split(id, '/') :: CleanPart(part)
  }

  predicate CleanPart(part: string) {
    part != "" && forall c <- part :: KeyIdChar(c)
  }

  /** The user whose single legacy key sealed a row before key ids existed. */
  function LegacyKeyUser(ctx: Context): string {
    match ctx.scope
    case SystemSecret | SystemConfigure | RuntimeToken => SYSTEM_KEY_ID
    case _ => if ctx.owner.Some? then ctx.owner.value else SYSTEM_KEY_ID
  }

  function RequiredOwner(ctx: Context): Result<string, EnvelopeError> {
    if ctx.owner.Some? && ValidUserId(ctx.owner.value) then Ok(ctx.owner.value) else Err(BadUserId)
  }

  predicate SystemScope(s: Scope) {
    s.SystemSecret? || s.SystemConfigure? || s.RuntimeToken?
  }

  predicate ForMcp(ctx: Context) {
    ctx.name.Some? && StartsWith(ctx.name.value, "mcp.")
  }

  /** Last path segment of a context's key id. */
  function Segment(ctx: Context): string {
    match ctx.scope
    case SystemSecret => "provider"
    case SystemConfigure => "configure"
    case RuntimeToken => "runtime_tokens"
    case UserApiKey => "api_keys"
    case UserProfile => "profile"
    case StateFile => "state"
    case Artefact => "artefact"
    case WebhookDelivery => "webhook_delivery"
    case LlmToolCall => "tool_calls"
    case AgentSecret => "agent_secret"
    case UserSecret => if ForMcp(ctx) then "mcp" else "secrets"
  }

  function ScopedKeyId(ctx: Context): Result<string, EnvelopeError> {
    if SystemScope(ctx.scope) then
      Checked("system" + "/" + Segment(ctx))
    else
      var owner := RequiredOwner(ctx);
      if owner.Err? then Err(owner.error) else Checked("users" + "/" + (owner.value + "/" + Segment(ctx)))
  }

  function Checked(id: string): Result<string, EnvelopeError> {
    if ValidKeyId(id) then Ok(id) else Err(BadKeyId)
  }

  /** The checks on leading and doubled slashes follow from the check on the parts. */
  lemma {:induction false} PartsSuffice(s: string)
    requires forall part <- Split(s, '/') :: CleanPart(part)
    ensures ValidKeyId(s) && ':' !in s
  {
    var parts := Split(s, '/');
    assert CleanPart(parts[0]);
    if |s| == 1 {
      assert s == [s[0]];
      SplitAtom(s, '/');
    } else if |s| > 1 {
      var rest := Split(s[1..], '/');
      assert s == [s[0]] + s[1..];
      assert s[0] == parts[0][0] && KeyIdChar(s[0]);
      if s[1] == '/' {
        var rest2 := Split(s[2..], '/');
        assert s[1..][1..] == s[2..];
        assert rest == [""] + rest2 && parts[0] == [s[0]] + "" == [s[0]] && parts[1..] == rest2;
        PartsSuffice(s[2..]);
        assert s == [s[0], '/'] + s[2..];
      } else {
        assert rest[0] != "" && rest[0] == parts[0][1..] && rest[1..] == parts[1..];
        assert forall p <- rest :: p == rest[0] || p in rest[1..];
        PartsSuffice(s[1..]);
      }
    }
  }

  lemma AtomIsKeyId(part: string)
    requires CleanPart(part)
    ensures ValidKeyId(part)
  {
    SplitAtom(part, '/');
    PartsSuffice(part);
  }

  lemma PrefixedKeyId(part: string, id: string)
    requires CleanPart(part) && ValidKeyId(id)
    ensures ValidKeyId(part + "/" + id)
  {
    SplitCons(part, id, '/');
    PartsSuffice(part + "/" + id);
  }

  lemma SystemSegmentIsClean(ctx: Context)
    requires SystemScope(ctx.scope) || ctx.scope.UserSecret? || ctx.scope.UserApiKey?
    ensures CleanPart(Segment(ctx))
  {
  }

  lemma UserSegmentIsClean(ctx: Context)
    requires !SystemScope(ctx.scope) && !ctx.scope.UserSecret? && !ctx.scope.UserApiKey?
    ensures CleanPart(Segment(ctx))
  {
  }

  lemma SegmentIsKeyId(ctx: Context)
    ensures ValidKeyId(Segment(ctx))
  {
    if SystemScope(ctx.scope) || ctx.scope.UserSecret? || ctx.scope.UserApiKey? {
      SystemSegmentIsClean(ctx);
    } else {
      UserSegmentIsClean(ctx);
    }
    AtomIsKeyId(Segment(ctx));
  }

  /** A user id is `system` or thirty-two hexadecimal digits, and so no path. */
  lemma UserIds(id: string, more: string)
    requires |id| == 32 && forall c <- id :: c in "0123456789abcdef"
    ensures ValidUserId(id) && (more != "" ==> !ValidUserId(id + more)) && ValidUserId("system")
    ensures forall any | ValidUserId(any) :: CleanPart(any)
  {
    assert more != "" ==> |id + more| > 32;
  }

  /** For any context the key id exists exactly when the scope's owner requirement is met. */
  lemma ScopedKeyIdExists(ctx: Context)
    ensures ScopedKeyId(ctx).Ok? <==> SystemScope(ctx.scope) || (ctx.owner.Some? && ValidUserId(ctx.owner.value))
    ensures ScopedKeyId(ctx).Ok? ==> ValidKeyId(ScopedKeyId(ctx).value)
  {
    SegmentIsKeyId(ctx);
    if SystemScope(ctx.scope) {
      PrefixedKeyId("system", Segment(ctx));
    } else if RequiredOwner(ctx).Ok? {
      PrefixedKeyId(ctx.owner.value, Segment(ctx));
      PrefixedKeyId("users", ctx.owner.value + "/" + Segment(ctx));
    }
  }

  /**
   * Two contexts share a key id exactly when they have the same scope and, in a user scope, the same
   * owner, except that MCP secrets have a key of their own.
   */
  lemma SharedKeyId(a: Context, b: Context)
    requires ScopedKeyId(a).Ok? && ScopedKeyId(b).Ok?
    ensures ScopedKeyId(a) == ScopedKeyId(b) <==>
            && a.scope == b.scope && (SystemScope(a.scope) || a.owner == b.owner)
            && (a.scope.UserSecret? ==> ForMcp(a) == ForMcp(b))
  {
    var x := if SystemScope(a.scope) then Segment(a) else a.owner.value + "/" + Segment(a);
    var y := if SystemScope(b.scope) then Segment(b) else b.owner.value + "/" + Segment(b);
    var p := if SystemScope(a.scope) then "system" else "users";
    var q := if SystemScope(b.scope) then "system" else "users";
    if ScopedKeyId(a) == ScopedKeyId(b) {
      HeadIsDetermined(p, q, x, y, '/');
      if !SystemScope(a.scope) {
        HeadIsDetermined(a.owner.value, b.owner.value, Segment(a), Segment(b), '/');
      }
    }
  }
}
