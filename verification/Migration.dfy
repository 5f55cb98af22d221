/**
 * The local KMS migration (crates/core/src/kms_local.rs): every sealed column of every table is
 * opened and, unless this is a dry run, rewrapped under its active key when it needs to be.
 */
module Migration {
  import opened Wrappers
  import opened KmsContexts
  import opened KeyFiles
  import opened Envelope
  import opened Columns
  import SystemSecretNames
  import Secrets
  import StateFiles

  datatype StoreError = MalformedRow | StoreIo

  /** The context the migration opens and seals a column under. */
  function ContextOf(c: Column): Context {
    match c
    case SystemSecretCol(name) => SystemSecretNames.SystemSecretContext(name)
    case UserSecretCol(user, name) => Context(UserSecret, Some(user), None, Some(name))
    case ApiKeyCol(user, id) => Context(UserApiKey, Some(user), None, Some(id))
    case EmailCol(user) => Context(UserProfile, Some(user), None, Some("email"))
    case BearerCol(owner, inst) => Context(RuntimeToken, Some(owner), Some(inst), Some("instance_bearer"))
    case ProxyTokenCol(inst, provider) => Context(RuntimeToken, None, Some(inst), Some("proxy_token:" + provider))
    case StateFileCol(owner, inst, ns, path) => Context(StateFile, Some(owner), Some(inst), Some(ns + ":" + path))
    case ArtefactCol(owner, inst, chat, art) => Context(Artefact, Some(owner), Some(inst), Some(chat + ":" + art))
    case WebhookCol(owner, inst, hook) => Context(WebhookDelivery, Some(owner), Some(inst), Some(hook))
    case ToolInputCol(owner, inst, use) => Context(LlmToolCall, Some(owner), Some(inst), Some("input:" + use))
    case ToolResultCol(owner, inst, use) => Context(LlmToolCall, Some(owner), Some(inst), Some("result:" + use))
  }

  function TableOf(c: Column): string {
    match c
    case SystemSecretCol(_) => "system_secrets"
    case UserSecretCol(_, _) => "user_secrets"
    case ApiKeyCol(_, _) => "user_api_keys"
    case EmailCol(_) => "users.email_ciphertext"
    case BearerCol(_, _) => "instances.bearer_token"
    case ProxyTokenCol(_, _) => "proxy_tokens.token"
    case StateFileCol(_, _, _, _) => "instance_state_files.body_ciphertext"
    case ArtefactCol(_, _, _, _) => "artefact_cache.body_ciphertext"
    case WebhookCol(_, _, _) => "webhook_deliveries.body"
    case ToolInputCol(_, _, _) => "llm_tool_call.input_sealed"
    case ToolResultCol(_, _, _) => "llm_tool_call.result_sealed"
  }

  /** Only webhook bodies were ever stored unsealed. */
  predicate AllowsPlaintext(c: Column) {
    c.WebhookCol?
  }

  predicate SkipsEmpty(c: Column) {
    c.StateFileCol? || c.ArtefactCol? || c.WebhookCol?
  }

  /** What the migration takes a value to mean: the opened plaintext, or an unsealed webhook body as it is. */
  function ReadsAs(d: Disk, c: Cell): Option<Term> {
    if AllowsPlaintext(c.column) && Unsealed(c.stored) then Some(AsTerm(c.stored))
    else Opens(d, ContextOf(c.column), c.stored)
  }

  datatype ValueMigration = ValueMigration(
    newValue: Option<Stored>, alreadyV2: bool, legacy: bool, needsRewrap: bool, keyId: string, keyVersion: nat)

  const UNTOUCHED := ValueMigration(None, false, false, false, "", 0)

  /** The opening half of `migrate_value`, with the fallback for unsealed legacy rows. */
  function OpenForMigration(d: Disk, ctx: Context, s: Stored, allowPlaintext: bool): (Disk, Result<Opened, StoreError>) {
    var (d1, r) := Open(d, ctx, s);
    if r.Ok? then (d1, Ok(r.value))
    else if allowPlaintext && Unsealed(s) then (d1, Ok(Opened(AsTerm(s), "legacy/plaintext", 0, true, true)))
    else (d1, Err(MalformedRow))
  }

  function MigrateValue(d: Disk, ctx: Context, s: Stored, dryRun: bool, allowPlaintext: bool)
    : (Disk, Result<ValueMigration, StoreError>)
  {
    if IsEmpty(s) then (d, Ok(UNTOUCHED)) else
    var (d1, o) := OpenForMigration(d, ctx, s, allowPlaintext);
    if o.Err? then (d1, Err(o.error)) else
    var summary := ValueMigration(None, !o.value.needsRewrap && !o.value.legacy, o.value.legacy, o.value.needsRewrap,
                                  o.value.keyId, o.value.keyVersion);
    if o.value.needsRewrap && !dryRun then
      var (d2, next) := Seal(d1, ctx, o.value.plaintext);
      (d2, if next.Err? then Err(StoreIo) else Ok(summary.(newValue := Some(next.value))))
    else (d1, Ok(summary))
  }

  // ----- Counting -----

  datatype Counts = Counts(scanned: nat, alreadyV2: nat, legacy: nat, migrated: nat, skippedEmpty: nat)

  const ZERO := Counts(0, 0, 0, 0, 0)

  type CountsByScope = map<(string, Scope), Counts>

  function KeyOf(c: Column): (string, Scope) {
    (TableOf(c), ContextOf(c).scope)
  }

  function EntryOrDefault(m: CountsByScope, k: (string, Scope)): Counts {
    if k in m then m[k] else ZERO
  }

  function RecordCounts(m: CountsByScope, c: Column, v: ValueMigration): CountsByScope {
    var n := EntryOrDefault(m, KeyOf(c));
    m[KeyOf(c) := n.(scanned := n.scanned + 1,
                     alreadyV2 := n.alreadyV2 + if v.alreadyV2 then 1 else 0,
                     legacy := n.legacy + if v.legacy then 1 else 0,
                     migrated := n.migrated + if v.needsRewrap then 1 else 0)]
  }

  function RecordEmpty(m: CountsByScope, c: Column): CountsByScope {
    var n := EntryOrDefault(m, KeyOf(c));
    m[KeyOf(c) := n.(scanned := n.scanned + 1, skippedEmpty := n.skippedEmpty + 1)]
  }

  /** Rows reported as migrated, over all tables and scopes. */
  ghost function TotalMigrated(m: CountsByScope): nat
    decreases |m|
  {
    if m == map[] then 0 else
    var k :| k in m;
    m[k].migrated + TotalMigrated(m - {k})
  }

  lemma {:induction false} TotalIsOrderFree(m: CountsByScope, k: (string, Scope))
    requires k in m
    ensures TotalMigrated(m) == m[k].migrated + TotalMigrated(m - {k})
    decreases |m|
  {
    var j :| j in m && TotalMigrated(m) == m[j].migrated + TotalMigrated(m - {j});
    if j != k {
      TotalIsOrderFree(m - {j}, k);
      TotalIsOrderFree(m - {k}, j);
      assert m - {j} - {k} == m - {k} - {j};
    }
  }

  lemma TotalAfterUpdate(m: CountsByScope, k: (string, Scope), n: Counts)
    ensures TotalMigrated(m[k := n]) == TotalMigrated(m) - EntryOrDefault(m, k).migrated + n.migrated
  {
    TotalIsOrderFree(m[k := n], k);
    assert m[k := n] - {k} == m - {k};
    if k in m {
      TotalIsOrderFree(m, k);
    } else {
      assert m - {k} == m;
    }
  }

  // ----- A run that meets no store failure -----

  datatype AuditEvent = Rewrapped(context: Context, keyId: string, keyVersion: nat)

  /** State after the first rows: keys, rows as they now are, counts, audit rows written. */
  datatype Progress = Progress(disk: Disk, done: seq<Cell>, counts: CountsByScope, audits: seq<AuditEvent>)

  function Step(p: Progress, c: Cell, dryRun: bool): Result<Progress, StoreError> {
    if SkipsEmpty(c.column) && IsEmpty(c.stored) then
      Ok(p.(done := p.done + [c], counts := RecordEmpty(p.counts, c.column)))
    else
      var (d1, m) := MigrateValue(p.disk, ContextOf(c.column), c.stored, dryRun, AllowsPlaintext(c.column));
      if m.Err? then Err(m.error) else Ok(Advance(p, c, d1, m.value))
  }

  /** Counts the row, and writes it back with an audit row if it was rewrapped. */
  function Advance(p: Progress, c: Cell, d: Disk, v: ValueMigration): Progress {
    var counts := RecordCounts(p.counts, c.column, v);
    match v.newValue
    case None => Progress(d, p.done + [c], counts, p.audits)
    case Some(s) => Progress(d, p.done + [c.(stored := s)], counts,
                             p.audits + [Rewrapped(ContextOf(c.column), v.keyId, v.keyVersion)])
  }

  function After(d: Disk, cells: seq<Cell>, n: nat, dryRun: bool): Result<Progress, StoreError>
    requires n <= |cells|
  {
    if n == 0 then Ok(Progress(d, [], map[], [])) else
    var p := After(d, cells, n - 1, dryRun);
    if p.Err? then p else Step(p.value, cells[n - 1], dryRun)
  }

  ghost predicate Sound(d: Disk, cells: seq<Cell>) {
    WellKeyed(d) && forall c <- cells :: KeysKnown(d, c.stored)
  }

  /** Holds something that is not a version-2 envelope under its active key. */
  predicate Due(d: Disk, c: Cell) {
    !IsEmpty(c.stored) && !Current(d, ContextOf(c.column), c.stored)
  }

  predicate Readable(d: Disk, c: Cell) {
    IsEmpty(c.stored) || OpenForMigration(d, ContextOf(c.column), c.stored, AllowsPlaintext(c.column)).1.Ok?
  }

  lemma OpenForMigrationAgrees(d: Disk, e: Disk, c: Cell)
    requires Extends(d, e) && KeysKnown(d, c.stored)
    ensures OpenForMigration(d, ContextOf(c.column), c.stored, AllowsPlaintext(c.column)).1 ==
            OpenForMigration(e, ContextOf(c.column), c.stored, AllowsPlaintext(c.column)).1
  {
    OpenAgrees(d, e, ContextOf(c.column), c.stored);
  }

  /** What opening a value for migration reports about it. */
  lemma OpenedIs(d: Disk, c: Cell)
    requires !IsEmpty(c.stored) && Readable(d, c)
    ensures var o := OpenForMigration(d, ContextOf(c.column), c.stored, AllowsPlaintext(c.column)).1.value;
            && (o.needsRewrap <==> Due(d, c)) && (o.legacy <==> !IsV2(c.stored))
            && EventFor(c) == Rewrapped(ContextOf(c.column), o.keyId, o.keyVersion)
  {
    if Open(d, ContextOf(c.column), c.stored).1.Ok? {
      RewrapAskedIff(d, ContextOf(c.column), c.stored);
    }
  }

  /** The audit row of a rewrap names the key the value was sealed under before. */
  function EventFor(c: Cell): AuditEvent {
    var ctx := ContextOf(c.column);
    if IsV2(c.stored) then Rewrapped(ctx, c.stored.env.keyId, c.stored.env.keyVersion)
    else if Armored(c.stored) then Rewrapped(ctx, "legacy/" + LegacyKeyUser(ctx), 1)
    else Rewrapped(ctx, "legacy/plaintext", 0)
  }

  /** The value opened for migration is the value readers see. */
  lemma OpenForMigrationReads(d: Disk, c: Cell)
    requires !IsEmpty(c.stored)
    ensures var o := OpenForMigration(d, ContextOf(c.column), c.stored, AllowsPlaintext(c.column)).1;
            ReadsAs(d, c) == if o.Ok? then Some(o.value.plaintext) else None
  {
  }

  /** `c` has become `c'`: same column, keys all generated, and every reader still gets the same value. */
  ghost predicate Moved(d: Disk, c: Cell, c': Cell) {
    && c'.column == c.column
    && KeysKnown(d, c'.stored)
    && IsEmpty(c'.stored) == IsEmpty(c.stored)
    && ReadsAs(d, c') == ReadsAs(d, c)
    && (c' == c || (IsV2(c'.stored) && ReadsAs(d, c).Some?))
  }

  /** A rewrapped value reads as the old one did and needs no second rewrap. */
  lemma RewrappedCell(d: Disk, c: Cell, plaintext: Term)
    requires WellKeyed(d) && Seal(d, ContextOf(c.column), plaintext).1.Ok?
    ensures var (e, s) := Seal(d, ContextOf(c.column), plaintext);
            var c' := c.(stored := s.value);
            KeysKnown(e, c'.stored) && !IsEmpty(c'.stored) && ReadsAs(e, c') == Some(plaintext) && !Due(e, c')
  {
    var ctx := ContextOf(c.column);
    SealedShape(d, ctx, plaintext);
    SealedOpensLater(d, ctx, plaintext, []);
    SealExtends(d, ctx, plaintext);
  }

  /** What migrating one value does, judged against the keys `d` with which the run began. */
  lemma ValueEffect(d: Disk, e: Disk, c: Cell, dryRun: bool)
    requires WellKeyed(e) && Extends(d, e) && KeysKnown(d, c.stored) && !IsEmpty(c.stored)
    ensures var (e', m) := MigrateValue(e, ContextOf(c.column), c.stored, dryRun, AllowsPlaintext(c.column));
            && WellKeyed(e') && Extends(e, e')
            && (m.Ok? <==> Readable(d, c) && (Due(d, c) && !dryRun ==> SealOk(d, ContextOf(c.column))))
            && (m.Ok? ==>
                  && m.value.(newValue := None) ==
                     MigrateValue(d, ContextOf(c.column), c.stored, true, AllowsPlaintext(c.column)).1.value
                  && m.value.needsRewrap == Due(d, c)
                  && Rewrapped(ContextOf(c.column), m.value.keyId, m.value.keyVersion) == EventFor(c)
                  && (m.value.newValue.Some? <==> Due(d, c) && !dryRun)
                  && (m.value.newValue.Some? ==>
                        && Moved(e', c, c.(stored := m.value.newValue.value))
                        && !Due(e', c.(stored := m.value.newValue.value))))
  {
    var ctx := ContextOf(c.column);
    OpenForMigrationAgrees(d, e, c);
    if Readable(d, c) {
      OpenedIs(d, c);
    }
    var (e1, o) := OpenForMigration(e, ctx, c.stored, AllowsPlaintext(c.column));
    OpenExtends(e, ctx, c.stored);
    ExtendsTransitive(d, e, e1);
    SealAgrees(d, e1, ctx);
    if o.Ok? && o.value.needsRewrap && !dryRun {
      var pt := o.value.plaintext;
      SealExtends(e1, ctx, pt);
      var e2 := Seal(e1, ctx, pt).0;
      ExtendsTransitive(e, e1, e2);
      ExtendsTransitive(d, e, e2);
      OpenForMigrationAgrees(d, e2, c);
      OpenForMigrationReads(e2, c);
      if Seal(e1, ctx, pt).1.Ok? {
        RewrappedCell(e1, c, pt);
      }
    }
  }

  /** How a row changes the counts, as a function of the keys with which the run began. */
  function Tally(m: CountsByScope, d: Disk, c: Cell): CountsByScope {
    if SkipsEmpty(c.column) && IsEmpty(c.stored) then RecordEmpty(m, c.column) else
    var v := MigrateValue(d, ContextOf(c.column), c.stored, true, AllowsPlaintext(c.column)).1;
    if v.Err? then m else RecordCounts(m, c.column, v.value)
  }

  lemma TallyTotal(m: CountsByScope, d: Disk, c: Cell)
    requires Readable(d, c)
    ensures TotalMigrated(Tally(m, d, c)) == TotalMigrated(m) + (if Due(d, c) then 1 else 0)
  {
    if !IsEmpty(c.stored) {
      OpenedIs(d, c);
    }
    var k := KeyOf(c.column);
    TotalAfterUpdate(m, k, Tally(m, d, c)[k]);
  }

  /** What a step from `p` over row `c` leaves: more keys, the row moved, counts and audit rows kept in step. */
  ghost predicate Stepped(d: Disk, p: Progress, c: Cell, dryRun: bool, q: Progress) {
    && WellKeyed(q.disk) && Extends(p.disk, q.disk)
    && |q.done| == |p.done| + 1 && q.done[..|p.done|] == p.done
    && Moved(q.disk, c, q.done[|p.done|])
    && (dryRun || !Due(d, c) ==> q.done[|p.done|] == c && q.audits == p.audits)
    && (!dryRun && Due(d, c) ==> q.audits == p.audits + [EventFor(c)])
    && (!dryRun ==> !Due(q.disk, q.done[|p.done|]))
    && q.counts == Tally(p.counts, d, c)
  }

  lemma AdvanceEffect(d: Disk, p: Progress, c: Cell, dryRun: bool, e: Disk, v: ValueMigration)
    requires WellKeyed(e) && Extends(p.disk, e) && KeysKnown(e, c.stored)
    requires RecordCounts(p.counts, c.column, v) == Tally(p.counts, d, c)
    requires v.newValue.Some? <==> Due(d, c) && !dryRun
    requires v.newValue.Some? ==> Rewrapped(ContextOf(c.column), v.keyId, v.keyVersion) == EventFor(c)
    requires v.newValue.Some? ==>
      Moved(e, c, c.(stored := v.newValue.value)) && !Due(e, c.(stored := v.newValue.value))
    requires Due(e, c) == Due(d, c)
    ensures Stepped(d, p, c, dryRun, Advance(p, c, e, v))
  {
  }

  /**
   * One row: the step succeeds exactly when the row can be read and, if it must be rewrapped for
   * real, sealed; and what it counts depends only on the keys as they were when the run began.
   */
  lemma StepEffect(d: Disk, p: Progress, c: Cell, dryRun: bool)
    requires WellKeyed(p.disk) && Extends(d, p.disk) && KeysKnown(d, c.stored)
    ensures Step(p, c, dryRun).Ok? <==>
            Readable(d, c) && (Due(d, c) && !dryRun ==> SealOk(d, ContextOf(c.column)))
    ensures Step(p, c, dryRun).Ok? ==> Stepped(d, p, c, dryRun, Step(p, c, dryRun).value)
  {
    hide EventFor, Seal, OpenForMigration, ReadsAs, ContextOf;
    if !IsEmpty(c.stored) {
      ValueEffect(d, p.disk, c, dryRun);
      var (q, m) := MigrateValue(p.disk, ContextOf(c.column), c.stored, dryRun, AllowsPlaintext(c.column));
      ExtendsTransitive(d, p.disk, q);
      OpenForMigrationAgrees(d, q, c);
      if m.Ok? {
        assert RecordCounts(p.counts, c.column, m.value) == RecordCounts(p.counts, c.column, m.value.(newValue := None));
        AdvanceEffect(d, p, c, dryRun, q, m.value);
      }
    } else if !SkipsEmpty(c.column) {
      AdvanceEffect(d, p, c, dryRun, p.disk, UNTOUCHED);
    }
  }

  /** What every reader gets does not change as keys are added. */
  lemma ReadsLater(d: Disk, e: Disk, c: Cell)
    requires Extends(d, e) && KeysKnown(d, c.stored)
    ensures ReadsAs(d, c) == ReadsAs(e, c) && KeysKnown(e, c.stored) && Due(d, c) == Due(e, c)
  {
    OpenAgrees(d, e, ContextOf(c.column), c.stored);
    OpenForMigrationAgrees(d, e, c);
  }

  lemma MovedLater(d: Disk, e: Disk, f: Disk, c: Cell, moved: Cell)
    requires Extends(d, e) && Extends(e, f) && KeysKnown(d, c.stored) && Moved(e, c, moved)
    ensures Moved(f, c, moved) && Due(f, moved) == Due(e, moved)
  {
    hide Extends, ReadsAs, Due;
    ReadsLater(d, e, c);
    ReadsLater(e, f, c);
    ReadsLater(e, f, moved);
  }

  function TallyAll(d: Disk, cells: seq<Cell>, n: nat): CountsByScope
    requires n <= |cells|
  {
    if n == 0 then map[] else Tally(TallyAll(d, cells, n - 1), d, cells[n - 1])
  }

  /** The audit rows of the first rows: one for each that is due, in order. */
  function Trail(d: Disk, cells: seq<Cell>, n: nat): seq<AuditEvent>
    requires n <= |cells|
  {
    if n == 0 then [] else Trail(d, cells, n - 1) + if Due(d, cells[n - 1]) then [EventFor(cells[n - 1])] else []
  }

  function Number(cells: seq<Cell>, n: nat, p: Cell -> bool): nat
    requires n <= |cells|
  {
    if n == 0 then 0 else Number(cells, n - 1, p) + if p(cells[n - 1]) then 1 else 0
  }

  lemma {:induction false} TrailLength(d: Disk, cells: seq<Cell>, n: nat)
    requires n <= |cells|
    ensures |Trail(d, cells, n)| == Number(cells, n, (c: Cell) => Due(d, c))
  {
    if n > 0 {
      TrailLength(d, cells, n - 1);
    }
  }

  /** What the run reports for one table and scope. */
  function Report(d: Disk, cells: seq<Cell>, n: nat, key: (string, Scope)): Counts
    requires n <= |cells|
  {
    Counts(Number(cells, n, (c: Cell) => KeyOf(c.column) == key),
           Number(cells, n, (c: Cell) => KeyOf(c.column) == key && !IsEmpty(c.stored) && !Due(d, c)),
           Number(cells, n, (c: Cell) => KeyOf(c.column) == key && !IsEmpty(c.stored) && !IsV2(c.stored)),
           Number(cells, n, (c: Cell) => KeyOf(c.column) == key && Due(d, c)),
           Number(cells, n, (c: Cell) => KeyOf(c.column) == key && IsEmpty(c.stored) && SkipsEmpty(c.column)))
  }

  lemma {:induction false} CountsAre(d: Disk, cells: seq<Cell>, n: nat, key: (string, Scope))
    requires n <= |cells| && forall i | 0 <= i < n :: Readable(d, cells[i])
    ensures EntryOrDefault(TallyAll(d, cells, n), key) == Report(d, cells, n, key)
  {
    hide OpenForMigration, KeyOf, ActiveKeyMeta;
    if n > 0 {
      CountsAre(d, cells, n - 1, key);
      if !IsEmpty(cells[n - 1].stored) {
        OpenedIs(d, cells[n - 1]);
      }
    }
  }

  lemma {:induction false} TotalIsDue(d: Disk, cells: seq<Cell>, n: nat)
    requires n <= |cells| && forall i | 0 <= i < n :: Readable(d, cells[i])
    ensures TotalMigrated(TallyAll(d, cells, n)) == Number(cells, n, (c: Cell) => Due(d, c))
  {
    if n > 0 {
      TotalIsDue(d, cells, n - 1);
      TallyTotal(TallyAll(d, cells, n - 1), d, cells[n - 1]);
    }
  }

  predicate CanStep(d: Disk, c: Cell, dryRun: bool) {
    Readable(d, c) && (Due(d, c) && !dryRun ==> SealOk(d, ContextOf(c.column)))
  }

  ghost predicate Progressed(d: Disk, cells: seq<Cell>, n: nat, dryRun: bool, p: Progress)
    requires n <= |cells|
  {
    && WellKeyed(p.disk) && Extends(d, p.disk)
    && |p.done| == n
    && (forall i | 0 <= i < n :: Moved(p.disk, cells[i], p.done[i]))
    && (dryRun ==> p.done == cells[..n] && p.audits == [])
    && (!dryRun ==> p.audits == Trail(d, cells, n))
    && (!dryRun ==> forall i | 0 <= i < n :: !Due(p.disk, p.done[i]))
    && p.counts == TallyAll(d, cells, n)
  }

  lemma StepProgresses(d: Disk, cells: seq<Cell>, n: nat, dryRun: bool, p: Progress, q: Progress)
    requires n < |cells| && Sound(d, cells)
    requires Progressed(d, cells, n, dryRun, p) && Stepped(d, p, cells[n], dryRun, q) && Readable(d, cells[n])
    ensures Progressed(d, cells, n + 1, dryRun, q)
  {
    hide Extends, WellKeyed, KeysKnown, Moved, Due, Readable, Tally, EventFor;
    ExtendsTransitive(d, p.disk, q.disk);
    forall i | 0 <= i < n
      ensures Moved(q.disk, cells[i], q.done[i]) && Due(q.disk, q.done[i]) == Due(p.disk, p.done[i])
    {
      assert q.done[i] == q.done[..n][i] == p.done[i];
      MovedLater(d, p.disk, q.disk, cells[i], p.done[i]);
    }
  }

  /** A run over the first rows succeeds exactly when each of them can be stepped over, and then progresses. */
  lemma {:induction false} AfterEffect(d: Disk, cells: seq<Cell>, n: nat, dryRun: bool)
    requires n <= |cells| && Sound(d, cells)
    ensures After(d, cells, n, dryRun).Ok? <==> forall i | 0 <= i < n :: CanStep(d, cells[i], dryRun)
    ensures After(d, cells, n, dryRun).Ok? ==> Progressed(d, cells, n, dryRun, After(d, cells, n, dryRun).value)
  {
    hide Step, Readable, Due, SealOk, Stepped, Moved, Tally;
    if n > 0 {
      AfterEffect(d, cells, n - 1, dryRun);
      var p := After(d, cells, n - 1, dryRun);
      assert cells[n - 1] in cells;
      if p.Ok? {
        StepEffect(d, p.value, cells[n - 1], dryRun);
        if Step(p.value, cells[n - 1], dryRun).Ok? {
          StepProgresses(d, cells, n - 1, dryRun, p.value, Step(p.value, cells[n - 1], dryRun).value);
        }
      }
    }
  }

  /**
   * A dry run changes no row, writes no audit row and reports the counts of the real run. The real
   * run completes exactly when the dry run does and every row to be rewrapped has a usable active key;
   * a dry run does not notice a row whose owner id cannot own a key.
   */
  lemma DryRunPredicts(d: Disk, cells: seq<Cell>)
    requires Sound(d, cells)
    ensures var dry, wet := After(d, cells, |cells|, true), After(d, cells, |cells|, false);
            && (dry.Ok? ==> dry.value.done == cells && dry.value.audits == [])
            && (dry.Ok? && wet.Ok? ==> dry.value.counts == wet.value.counts)
            && (wet.Ok? <==> dry.Ok? && forall c <- cells | Due(d, c) :: SealOk(d, ContextOf(c.column)))
  {
    AfterEffect(d, cells, |cells|, true);
    AfterEffect(d, cells, |cells|, false);
    assert cells == cells[..|cells|];
    assert forall c <- cells :: exists i | 0 <= i < |cells| :: cells[i] == c;
  }

  /** The dry run's blind spot: an unsealed webhook body under an owner id no key can belong to. */
  lemma DryRunBlindSpot(d: Disk)
    requires WellKeyed(d)
    ensures var cells := [Cell(WebhookCol("legacy", "i", "h"), Other(Junk(false, "{}")))];
            && Sound(d, cells)
            && After(d, cells, 1, true).Ok? && After(d, cells, 1, false).Err?
  {
    hide After;
    var c := Cell(WebhookCol("legacy", "i", "h"), Other(Junk(false, "{}")));
    AfterEffect(d, [c], 1, true);
    AfterEffect(d, [c], 1, false);
    UnsealedWebhook(d, c);
    assert [c][0] == c && !ValidUserId("legacy");
  }

  /** An unsealed webhook body is always readable and always due a rewrap, which needs a valid owner. */
  lemma UnsealedWebhook(d: Disk, c: Cell)
    requires c.column.WebhookCol? && !IsEmpty(c.stored) && !IsV2(c.stored) && !Armored(c.stored)
    ensures CanStep(d, c, true) && Due(d, c)
    ensures CanStep(d, c, false) ==> ValidUserId(c.column.owner)
  {
    ScopedKeyIdExists(ContextOf(c.column));
  }

  lemma {:induction false} NothingToTally(d: Disk, cells: seq<Cell>, n: nat)
    requires n <= |cells|
    requires forall i | 0 <= i < n :: Readable(d, cells[i]) && !Due(d, cells[i])
    ensures TotalMigrated(TallyAll(d, cells, n)) == 0
  {
    if n > 0 {
      NothingToTally(d, cells, n - 1);
      TallyTotal(TallyAll(d, cells, n - 1), d, cells[n - 1]);
    }
  }

  // ----- The readers -----

  /** The migration works under the contexts the services read with. */
  lemma ContextsAreTheReaders(c: Column)
    ensures match c
            case SystemSecretCol(name) => ContextOf(c) == Secrets.ContextFor(Secrets.SystemName(name))
            case UserSecretCol(user, name) => ContextOf(c) == Secrets.ContextFor(Secrets.UserName(user, name))
            case ApiKeyCol(user, id) => ContextOf(c) == ApiKeyContext(user, id)
            case EmailCol(user) => ContextOf(c) == EmailContext(user)
            case BearerCol(owner, inst) => ContextOf(c) == BearerContext(inst, owner)
            case ProxyTokenCol(inst, provider) => ContextOf(c) == TokenContext(inst, None, provider)
            case StateFileCol(owner, inst, ns, path) => ContextOf(c) == StateFiles.ContextOf(StateFiles.File(inst, ns, path), owner)
            case ArtefactCol(owner, inst, chat, art) => ContextOf(c) == ArtefactContext(owner, inst, chat, art)
            case WebhookCol(owner, inst, hook) => ContextOf(c) == WebhookContext(owner, inst, hook)
            case ToolInputCol(owner, inst, use) => ContextOf(c) == ToolCallContext(owner, inst, "input:" + use)
            case ToolResultCol(owner, inst, use) => ContextOf(c) == ToolCallContext(owner, inst, "result:" + use)
  {
  }

  /** `x` goes on where `a` ends with a colon, and `b` starts with the rest of `x`. */
  predicate CutEarlier(a: string, b: string, x: string, y: string) {
    |a| < |x| && a + ":" <= x && b == x[|a| + 1..] + ":" + y
  }

  /** One text cut at two of its colons. */
  predicate CutTwice(a: string, b: string, x: string, y: string) {
    CutEarlier(a, b, x, y) || CutEarlier(x, y, a, b)
  }

  lemma CutEarlierJoins(a: string, b: string, x: string, y: string)
    requires |a| < |x|
    ensures a + ":" + b == x + ":" + y <==> CutEarlier(a, b, x, y)
  {
    var s, t := a + ":" + b, x + ":" + y;
    assert t[..|a| + 1] == x[..|a| + 1] && t[|a| + 1..] == x[|a| + 1..] + ":" + y;
    assert s[..|a| + 1] == a + ":" && s[|a| + 1..] == b;
    assert t == t[..|a| + 1] + t[|a| + 1..];
  }

  lemma SameCut(a: string, b: string, x: string, y: string)
    requires |a| == |x|
    ensures a + ":" + b == x + ":" + y <==> a == x && b == y
  {
    var s, t := a + ":" + b, x + ":" + y;
    assert s[..|a|] == a && s[|a| + 1..] == b && t[..|x|] == x && t[|x| + 1..] == y;
  }

  lemma CutTwiceIff(a: string, b: string, x: string, y: string)
    ensures a + ":" + b == x + ":" + y && (a, b) != (x, y) <==> CutTwice(a, b, x, y)
  {
    if |a| < |x| {
      CutEarlierJoins(a, b, x, y);
    } else if |x| < |a| {
      CutEarlierJoins(x, y, a, b);
    } else {
      SameCut(a, b, x, y);
    }
  }

  /** Two columns whose names come from one text, cut at two of its colons. */
  predicate Ambiguous(a: Column, b: Column) {
    match (a, b)
    case (StateFileCol(o, i, n, p), StateFileCol(o2, i2, n2, p2)) => o == o2 && i == i2 && CutTwice(n, p, n2, p2)
    case (ArtefactCol(o, i, c, t), ArtefactCol(o2, i2, c2, t2)) => o == o2 && i == i2 && CutTwice(c, t, c2, t2)
    case _ => false
  }

  /** Two columns share a context only that way; never where namespaces and chat ids hold no colon. */
  lemma SharedContextIff(a: Column, b: Column)
    ensures ContextOf(a) == ContextOf(b) && a != b <==> Ambiguous(a, b)
  {
    hide ContextOf, Ambiguous;
    if TwoPart(a) && TwoPart(b) {
      TwoPartContexts(a, b);
    } else if Prefixed(a) && Prefixed(b) {
      PrefixedContexts(a, b);
    } else {
      OtherContexts(a, b);
    }
  }

  /** Two state-file rows with one context, were a namespace to hold a colon. */
  lemma ColonsShareContext(owner: string, instance: string)
    ensures ContextOf(StateFileCol(owner, instance, "a:b", "c")) == ContextOf(StateFileCol(owner, instance, "a", "b:c"))
  {
    assert "a:b" + ":" + "c" == "a" + ":" + "b:c";
  }

  /** The namespaces and chat ids the services accept hold no colon, so their rows never share a context. */
  lemma ContextsAreApart(a: Column, b: Column)
    requires a.StateFileCol? ==> ':' !in a.namespace
    requires b.StateFileCol? ==> ':' !in b.namespace
    requires a.ArtefactCol? ==> ':' !in a.chat
    requires b.ArtefactCol? ==> ':' !in b.chat
    ensures ContextOf(a) == ContextOf(b) <==> a == b
  {
    hide ContextOf, CutTwice;
    SharedContextIff(a, b);
    match (a, b)
    case (StateFileCol(_, _, n, p), StateFileCol(_, _, n2, p2)) => NoColonNoCut(n, p, n2, p2);
    case (ArtefactCol(_, _, c, t), ArtefactCol(_, _, c2, t2)) => NoColonNoCut(c, t, c2, t2);
    case _ =>
  }

  lemma NoColonNoCut(a: string, b: string, x: string, y: string)
    requires ':' !in a && ':' !in x
    ensures !CutTwice(a, b, x, y)
  {
    PrefixHoldsColon(a, x);
    PrefixHoldsColon(x, a);
  }

  lemma PrefixHoldsColon(a: string, x: string)
    ensures a + ":" <= x ==> ':' in x
  {
    assert (a + ":")[|a|] == ':';
  }

  predicate TwoPart(c: Column) {
    c.StateFileCol? || c.ArtefactCol?
  }

  predicate Prefixed(c: Column) {
    c.ProxyTokenCol? || c.ToolInputCol? || c.ToolResultCol?
  }

  lemma TwoPartContexts(a: Column, b: Column)
    requires TwoPart(a) && TwoPart(b)
    ensures ContextOf(a) == ContextOf(b) && a != b <==> Ambiguous(a, b)
  {
    hide CutTwice;
    match (a, b)
    case (StateFileCol(_, _, n, p), StateFileCol(_, _, n2, p2)) => CutTwiceIff(n, p, n2, p2);
    case (ArtefactCol(_, _, c, t), ArtefactCol(_, _, c2, t2)) => CutTwiceIff(c, t, c2, t2);
    case _ =>
  }

  lemma PrefixedContexts(a: Column, b: Column)
    requires Prefixed(a) && Prefixed(b)
    ensures ContextOf(a) == ContextOf(b) && a != b <==> Ambiguous(a, b)
  {
    match (a, b)
    case (ProxyTokenCol(_, p), ProxyTokenCol(_, p2)) => SamePrefix("proxy_token:", p, p2);
    case (ToolInputCol(_, _, u), ToolInputCol(_, _, u2)) => SamePrefix("input:", u, u2);
    case (ToolResultCol(_, _, u), ToolResultCol(_, _, u2)) => SamePrefix("result:", u, u2);
    case (ToolInputCol(_, _, u), ToolResultCol(_, _, u2)) => assert ("input:" + u)[0] != ("result:" + u2)[0];
    case (ToolResultCol(_, _, u), ToolInputCol(_, _, u2)) => assert ("result:" + u)[0] != ("input:" + u2)[0];
    case _ =>
  }

  lemma SamePrefix(prefix: string, a: string, b: string)
    ensures prefix + a == prefix + b <==> a == b
  {
    assert (prefix + a)[|prefix|..] == a && (prefix + b)[|prefix|..] == b;
  }

  lemma OtherContexts(a: Column, b: Column)
    requires !(TwoPart(a) && TwoPart(b)) && !(Prefixed(a) && Prefixed(b))
    ensures ContextOf(a) == ContextOf(b) && a != b <==> Ambiguous(a, b)
  {
    SystemNamesSystem(a);
    SystemNamesSystem(b);
    hide SystemSecretNames.SystemSecretContext;
  }

  lemma SystemNamesSystem(c: Column)
    ensures c.SystemSecretCol? ==>
              ContextOf(c).name == Some(c.name) && (ContextOf(c).scope.SystemSecret? || ContextOf(c).scope.SystemConfigure?)
  {
  }

  /** The migration seals as the services do, except a proxy token of an instance with an owner. */
  lemma SealsAsReadersIff(owners: Owners, c: Column)
    ensures ContextOf(c) == SealsUnder(owners, c) <==>
            !(c.ProxyTokenCol? && c.instance in owners && owners[c.instance] != "")
  {
    hide SystemSecretNames.SystemSecretContext;
  }

  /**
   * The migration opens proxy tokens without their owner. A row whose service reads a value from it is
   * one the migration cannot open exactly when it is a token envelope that names an owner.
   */
  lemma MigrationMissesIff(owners: Owners, d: Disk, c: Cell)
    requires Read(owners, d, c).Value?
    ensures !Readable(d, c) <==> c.column.ProxyTokenCol? && IsV2(c.stored) && c.stored.env.context.owner.Some?
  {
    hide ForKeyId, ForUser, ActiveKeyMeta, ContextOf, Seal;
    ContextsAreTheReaders(c.column);
  }

  /** A token the token store sealed for an owned instance reads there, and stops the migration, dry or not. */
  lemma IssuedTokenStopsMigration(d: Disk, owner: string, instance: string, provider: string, token: Term, dryRun: bool)
    requires WellKeyed(d) && owner != "" && Seal(d, TokenContext(instance, Some(owner), provider), token).1.Ok?
    ensures var (e, s) := Seal(d, TokenContext(instance, Some(owner), provider), token);
            var c := Cell(ProxyTokenCol(instance, provider), s.value);
            && Sound(e, [c]) && Read(map[instance := owner], e, c) == Value(token)
            && After(e, [c], 1, dryRun).Err?
  {
    hide After, Seal;
    var ctx := TokenContext(instance, Some(owner), provider);
    var (e, s) := Seal(d, ctx, token);
    var c := Cell(ProxyTokenCol(instance, provider), s.value);
    SealedShape(d, ctx, token);
    SealExtends(d, ctx, token);
    SealedIsActive(d, ctx, token);
    MigrationMissesIff(map[instance := owner], e, c);
    AfterEffect(e, [c], 1, dryRun);
    assert [c][0] == c;
  }

  lemma TokenReads(owners: Owners, d: Disk, c: Cell)
    requires c.column.ProxyTokenCol? && ReadsAs(d, c).Some?
    ensures Read(owners, d, c) == Value(ReadsAs(d, c).value)
  {
  }

  lemma MovedReads(owners: Owners, d: Disk, c: Cell, moved: Cell)
    requires Moved(d, c, moved)
    ensures Read(owners, d, moved) == Read(owners, d, c)
  {
    hide Open, OpenToken, KeysKnown, ContextOf, Seal, Armored, IsV2;
    ContextsAreTheReaders(c.column);
    if moved != c {
      UnsealedNeverOpens(d, ContextOf(c.column), c.stored);
      if c.column.ProxyTokenCol? {
        TokenReads(owners, d, c);
        TokenReads(owners, d, moved);
      }
    }
  }

  lemma UnsealedNeverOpens(d: Disk, ctx: Context, s: Stored)
    ensures Unsealed(s) ==> Opens(d, ctx, s).None?
  {
  }

  function SecretOf(c: Column): Option<Secrets.SecretName> {
    match c
    case SystemSecretCol(name) => Some(Secrets.SystemName(name))
    case UserSecretCol(user, name) => Some(Secrets.UserName(user, name))
    case _ => None
  }

  /** The rows of the two secret tables as the secret services hold them. */
  function SecretRows(cells: seq<Cell>): map<Secrets.SecretName, Stored> {
    if cells == [] then map[] else
    var last := cells[|cells| - 1];
    var rows, name := SecretRows(cells[..|cells| - 1]), SecretOf(last.column);
    if name.Some? then rows[name.value := last.stored] else rows
  }

  /** Every service reads what it read before: each row by itself, and the secret services all their names. */
  ghost predicate ReadersAgree(d0: Disk, cells0: seq<Cell>, d: Disk, cells: seq<Cell>) {
    && |cells| == |cells0|
    && (forall owners, i | 0 <= i < |cells| :: Read(owners, d, cells[i]) == Read(owners, d0, cells0[i]))
    && Secrets.Plaintexts(d, SecretRows(cells)) == Secrets.Plaintexts(d0, SecretRows(cells0))
  }

  lemma {:induction false} SecretsAgree(d0: Disk, cells0: seq<Cell>, d: Disk, cells: seq<Cell>)
    requires |cells| == |cells0|
    requires forall i | 0 <= i < |cells| ::
               cells[i].column == cells0[i].column && ReadsAs(d, cells[i]) == ReadsAs(d0, cells0[i])
    ensures SecretRows(cells).Keys == SecretRows(cells0).Keys
    ensures forall k | k in SecretRows(cells) ::
              Opens(d, Secrets.ContextFor(k), SecretRows(cells)[k]) == Opens(d0, Secrets.ContextFor(k), SecretRows(cells0)[k])
    decreases |cells|
  {
    hide Opens, ContextOf, Secrets.ContextFor;
    if cells != [] {
      var n := |cells| - 1;
      SecretsAgree(d0, cells0[..n], d, cells[..n]);
      ContextsAreTheReaders(cells[n].column);
    }
  }

  /** After a complete run no row needs a rewrap, and a second run, dry or not, finds nothing to do. */
  lemma SecondRunIsIdle(d: Disk, cells: seq<Cell>, dryRun: bool)
    requires Sound(d, cells) && After(d, cells, |cells|, false).Ok?
    ensures var p := After(d, cells, |cells|, false).value;
            var again := After(p.disk, p.done, |p.done|, dryRun);
            && |p.done| == |cells|
            && (forall c <- p.done :: !Due(p.disk, c))
            && again.Ok? && again.value.done == p.done && again.value.audits == []
            && TotalMigrated(again.value.counts) == 0
  {
    AfterEffect(d, cells, |cells|, false);
    var p := After(d, cells, |cells|, false).value;
    forall i | 0 <= i < |cells|
      ensures CanStep(p.disk, p.done[i], dryRun)
    {
      ReadsLater(d, p.disk, cells[i]);
      if !IsEmpty(cells[i].stored) {
        assert CanStep(d, cells[i], false);
        OpenForMigrationReads(d, cells[i]);
        OpenForMigrationReads(p.disk, p.done[i]);
      }
    }
    AfterEffect(p.disk, p.done, |cells|, dryRun);
    NothingToTally(p.disk, p.done, |cells|);
    DoneUnchanged(p.disk, p.done, |cells|, dryRun);
    assert p.done == p.done[..|cells|];
  }

  /** What a complete run reports and leaves, told from the rows before it. */
  lemma CompleteRun(d: Disk, cells: seq<Cell>, dryRun: bool)
    requires Sound(d, cells) && After(d, cells, |cells|, dryRun).Ok?
    ensures var p := After(d, cells, |cells|, dryRun).value;
            && TotalMigrated(p.counts) == Number(cells, |cells|, (c: Cell) => Due(d, c))
            && (forall key :: EntryOrDefault(p.counts, key) == Report(d, cells, |cells|, key))
            && (!dryRun ==> p.audits == Trail(d, cells, |cells|) && forall c <- p.done :: !Due(p.disk, c))
  {
    hide After, Moved, Due, Report, Number, Readable, SealOk, EntryOrDefault;
    AfterEffect(d, cells, |cells|, dryRun);
    assert forall i | 0 <= i < |cells| :: CanStep(d, cells[i], dryRun);
    TotalIsDue(d, cells, |cells|);
    forall key ensures EntryOrDefault(TallyAll(d, cells, |cells|), key) == Report(d, cells, |cells|, key) {
      CountsAre(d, cells, |cells|, key);
    }
  }

  lemma {:induction false} DoneUnchanged(d: Disk, cells: seq<Cell>, n: nat, dryRun: bool)
    requires n <= |cells| && Sound(d, cells)
    requires forall i | 0 <= i < n :: CanStep(d, cells[i], dryRun) && !Due(d, cells[i])
    ensures After(d, cells, n, dryRun).Ok?
    ensures After(d, cells, n, dryRun).value.done == cells[..n] && After(d, cells, n, dryRun).value.audits == []
  {
    hide Step, Readable, Due, SealOk, Moved, Tally;
    if n > 0 {
      DoneUnchanged(d, cells, n - 1, dryRun);
      AfterEffect(d, cells, n - 1, dryRun);
      assert cells[n - 1] in cells;
      StepEffect(d, After(d, cells, n - 1, dryRun).value, cells[n - 1], dryRun);
      assert cells[..n] == cells[..n - 1] + [cells[n - 1]];
      var p, q := After(d, cells, n - 1, dryRun).value, After(d, cells, n, dryRun).value;
      assert q.done == q.done[..n - 1] + [q.done[n - 1]];
    }
  }

  // ----- The migration as it runs, with any store call failing -----

  /** Nothing is lost: the keys have only grown and every row has at most been moved. */
  ghost predicate Intact(d0: Disk, cells0: seq<Cell>, d: Disk, cells: seq<Cell>) {
    && WellKeyed(d) && Extends(d0, d)
    && |cells| == |cells0|
    && forall i | 0 <= i < |cells| :: Moved(d, cells0[i], cells[i])
  }

  lemma IntactReads(d0: Disk, cells0: seq<Cell>, d: Disk, cells: seq<Cell>)
    requires Sound(d0, cells0) && Intact(d0, cells0, d, cells)
    ensures Sound(d, cells) && ReadersAgree(d0, cells0, d, cells)
    ensures forall i | 0 <= i < |cells| :: cells[i].column == cells0[i].column
  {
    hide Extends, ReadsAs, Read, Moved, SecretRows, Secrets.ContextFor;
    forall i | 0 <= i < |cells|
      ensures cells[i].column == cells0[i].column && KeysKnown(d, cells[i].stored)
      ensures ReadsAs(d, cells[i]) == ReadsAs(d0, cells0[i])
      ensures forall owners :: Read(owners, d, cells[i]) == Read(owners, d0, cells0[i])
    {
      assert cells0[i] in cells0;
      MovedKeeps(d, cells0[i], cells[i]);
      ReadsLater(d0, d, cells0[i]);
      forall owners ensures Read(owners, d, cells[i]) == Read(owners, d0, cells0[i]) {
        MovedReads(owners, d, cells0[i], cells[i]);
        ReadLater(owners, d0, d, cells0[i]);
      }
    }
    SecretsAgree(d0, cells0, d, cells);
  }

  lemma MovedKeeps(d: Disk, c: Cell, moved: Cell)
    requires Moved(d, c, moved)
    ensures moved.column == c.column && KeysKnown(d, moved.stored) && ReadsAs(d, moved) == ReadsAs(d, c)
  {
  }

  lemma IntactStart(d: Disk, cells: seq<Cell>)
    requires Sound(d, cells)
    ensures Intact(d, cells, d, cells)
  {
    forall i | 0 <= i < |cells|
      ensures Moved(d, cells[i], cells[i])
    {
      assert cells[i] in cells;
    }
  }

  lemma IntactLater(d0: Disk, cells0: seq<Cell>, d: Disk, e: Disk, cells: seq<Cell>)
    requires Sound(d0, cells0) && Intact(d0, cells0, d, cells) && Extends(d, e) && WellKeyed(e)
    ensures Intact(d0, cells0, e, cells)
  {
    ExtendsTransitive(d0, d, e);
    forall i | 0 <= i < |cells|
      ensures Moved(e, cells0[i], cells[i])
    {
      MovedLater(d0, d, e, cells0[i], cells[i]);
    }
  }

  class Database {
    var disk: Disk
    var cells: seq<Cell>
    var audits: seq<AuditEvent>

    /** One row; each `failed` is a store call that may fail and end the run there. */
    method MigrateRow(i: nat, dryRun: bool, counts: CountsByScope, ghost d0: Disk, ghost p: Progress)
      returns (r: Result<CountsByScope, StoreError>)
      requires i < |cells| && p.disk == disk && p.counts == counts
      requires WellKeyed(disk) && Extends(d0, disk) && KeysKnown(d0, cells[i].stored)
      modifies this
      ensures RowChanged(Progress(old(disk), old(cells), map[], []), i, Progress(disk, cells, map[], []))
      ensures dryRun ==> cells == old(cells) && audits == old(audits)
      ensures r.Err? ==> audits == old(audits)
      ensures r.Ok? ==> Step(p, old(cells)[i], dryRun).Ok? &&
                        var q := Step(p, old(cells)[i], dryRun).value;
                        && disk == q.disk && r.value == q.counts
                        && q.done == p.done + [cells[i]]
                        && p.audits <= q.audits && audits == old(audits) + q.audits[|p.audits|..]
    {
      hide OpenForMigration, Seal, ContextOf, TableOf, Readable, Due, ReadsAs, RecordCounts, RecordEmpty, SealOk;
      var c := cells[i];
      var failed := *;
      if failed {
        return Err(StoreIo);
      }
      if SkipsEmpty(c.column) && IsEmpty(c.stored) {
        return Ok(RecordEmpty(counts, c.column));
      }
      var ctx := ContextOf(c.column);
      var (d1, m) := MigrateValue(disk, ctx, c.stored, dryRun, AllowsPlaintext(c.column));
      if !IsEmpty(c.stored) {
        ValueEffect(d0, disk, c, dryRun);
      }
      disk := d1;
      if m.Err? {
        return Err(m.error);
      }
      if m.value.newValue.Some? {
        failed := *;
        if failed {
          return Err(StoreIo);
        }
        cells := cells[i := c.(stored := m.value.newValue.value)];
        failed := *;
        if failed {
          return Err(StoreIo);
        }
        audits := audits + [Rewrapped(ctx, m.value.keyId, m.value.keyVersion)];
      }
      r := Ok(RecordCounts(counts, c.column, m.value));
    }

    /** Every row, in table order. */
    method MigrateSqlite(dryRun: bool) returns (r: Result<CountsByScope, StoreError>)
      requires Sound(disk, cells)
      modifies this
      // However the run ends, every row still reads as it did, and the run can be repeated.
      ensures Sound(disk, cells) && |cells| == |old(cells)|
      ensures ReadersAgree(old(disk), old(cells), disk, cells)
      ensures forall i | 0 <= i < |cells| :: cells[i].column == old(cells)[i].column
      ensures dryRun ==> cells == old(cells) && audits == old(audits)
      // A completed run is the failure-free run.
      ensures r.Ok? ==> CompletedWith(old(disk), old(cells), old(audits), dryRun, disk, cells, audits, r.value)
      ensures r.Ok? ==> TotalMigrated(r.value) == Number(old(cells), |old(cells)|, (c: Cell) => Due(old(disk), c))
      ensures r.Ok? ==> forall key :: EntryOrDefault(r.value, key) == Report(old(disk), old(cells), |old(cells)|, key)
      // Then every row that holds anything is an envelope under its active key, and each that was not has its audit row.
      ensures r.Ok? && !dryRun ==> forall c <- cells :: IsEmpty(c.stored) || Current(disk, ContextOf(c.column), c.stored)
      ensures r.Ok? && !dryRun ==> audits == old(audits) + Trail(old(disk), old(cells), |old(cells)|)
      // An aborted run is a failure-free run up to some row, plus at most that row rewrapped but not audited.
      ensures r.Err? ==> exists n: nat :: StoppedAt(old(disk), old(cells), old(audits), dryRun, n, cells, audits)
    {
      hide Running, Intact, Sound, StoppedAt, CompletedWith, Step, Moved, ReadersAgree, Report, Number, Trail, Current;
      ghost var d0, cells0, audits0 := disk, cells, audits;
      var counts: CountsByScope := map[];
      var i := 0;
      RunStarts(disk, cells, audits, dryRun);
      while i < |cells|
        invariant 0 <= i <= |cells| == |cells0|
        invariant Running(d0, cells0, audits0, dryRun, i, Progress(disk, cells, counts, audits))
      {
        ghost var was := Progress(disk, cells, counts, audits);
        RunReady(d0, cells0, audits0, dryRun, i, was);
        var step := MigrateRow(i, dryRun, counts, d0, After(d0, cells0, i, dryRun).value);
        if step.Err? {
          RunStops(d0, cells0, audits0, dryRun, i, was, Progress(disk, cells, counts, audits));
          return Err(step.error);
        }
        RunSteps(d0, cells0, audits0, dryRun, i, was, Progress(disk, cells, step.value, audits));
        counts := step.value;
        i := i + 1;
      }
      RunEnds(d0, cells0, audits0, dryRun, Progress(disk, cells, counts, audits));
      r := Ok(counts);
    }
  }

  /** State of a run that has handled the first `i` rows; `now` holds all rows and all audit rows. */
  ghost predicate Running(d0: Disk, cells0: seq<Cell>, audits0: seq<AuditEvent>, dryRun: bool, i: nat, now: Progress) {
    && i <= |cells0|
    && Sound(d0, cells0)
    && Intact(d0, cells0, now.disk, now.done)
    && audits0 <= now.audits
    && After(d0, cells0, i, dryRun) == Ok(Progress(now.disk, now.done[..i], now.counts, now.audits[|audits0|..]))
    && (forall j | i <= j < |cells0| :: now.done[j] == cells0[j])
    && (dryRun ==> now.done == cells0 && now.audits == audits0)
  }

  lemma RunStarts(d: Disk, cells: seq<Cell>, audits: seq<AuditEvent>, dryRun: bool)
    requires Sound(d, cells)
    ensures Running(d, cells, audits, dryRun, 0, Progress(d, cells, map[], audits))
  {
    IntactStart(d, cells);
    assert cells[..0] == [] && audits[|audits|..] == [];
  }

  lemma RunReady(d0: Disk, cells0: seq<Cell>, audits0: seq<AuditEvent>, dryRun: bool, i: nat, now: Progress)
    requires i < |cells0| && Running(d0, cells0, audits0, dryRun, i, now)
    ensures |now.done| == |cells0| && now.done[i] == cells0[i]
    ensures WellKeyed(now.disk) && Extends(d0, now.disk) && KeysKnown(d0, now.done[i].stored)
    ensures After(d0, cells0, i, dryRun).Ok? &&
            var p := After(d0, cells0, i, dryRun).value; p.disk == now.disk && p.counts == now.counts
  {
    assert cells0[i] in cells0;
  }

  /** What one row may do to the keys and the rows, whether or not it fails part way. */
  ghost predicate RowChanged(was: Progress, i: nat, now: Progress) {
    && i < |was.done| == |now.done|
    && WellKeyed(now.disk) && Extends(was.disk, now.disk)
    && now.done == was.done[i := now.done[i]]
    && Moved(now.disk, was.done[i], now.done[i])
  }

  lemma RowKeepsIntact(d0: Disk, cells0: seq<Cell>, was: Progress, i: nat, now: Progress)
    requires Sound(d0, cells0) && Intact(d0, cells0, was.disk, was.done) && RowChanged(was, i, now)
    requires was.done[i] == cells0[i]
    ensures Intact(d0, cells0, now.disk, now.done)
  {
    IntactLater(d0, cells0, was.disk, now.disk, was.done);
  }

  lemma RunSteps(d0: Disk, cells0: seq<Cell>, audits0: seq<AuditEvent>, dryRun: bool, i: nat, was: Progress, now: Progress)
    requires i < |cells0| && Running(d0, cells0, audits0, dryRun, i, was) && RowChanged(was, i, now)
    requires dryRun ==> now.done == was.done && now.audits == was.audits
    requires var p := After(d0, cells0, i, dryRun).value;
             Step(p, was.done[i], dryRun).Ok? &&
             var q := Step(p, was.done[i], dryRun).value;
             && now.disk == q.disk && now.counts == q.counts
             && q.done == p.done + [now.done[i]]
             && p.audits <= q.audits && now.audits == was.audits + q.audits[|p.audits|..]
    ensures Running(d0, cells0, audits0, dryRun, i + 1, now)
  {
    hide Step, Moved;
    RowKeepsIntact(d0, cells0, was, i, now);
    var p := After(d0, cells0, i, dryRun).value;
    var q := Step(p, was.done[i], dryRun).value;
    assert After(d0, cells0, i + 1, dryRun) == Ok(q);
    assert now.done[..i + 1] == was.done[..i] + [now.done[i]];
    assert now.audits[|audits0|..] == was.audits[|audits0|..] + q.audits[|p.audits|..] == q.audits;
  }

  lemma RunStops(d0: Disk, cells0: seq<Cell>, audits0: seq<AuditEvent>, dryRun: bool, i: nat, was: Progress, now: Progress)
    requires i < |cells0| && Running(d0, cells0, audits0, dryRun, i, was) && RowChanged(was, i, now)
    requires now.audits == was.audits && (dryRun ==> now.done == was.done)
    ensures Sound(now.disk, now.done) && |now.done| == |cells0| && ReadersAgree(d0, cells0, now.disk, now.done)
    ensures forall j | 0 <= j < |cells0| :: now.done[j].column == cells0[j].column
    ensures dryRun ==> now.done == cells0 && now.audits == audits0
    ensures StoppedAt(d0, cells0, audits0, dryRun, i, now.done, now.audits)
  {
    hide Step, Moved, ReadersAgree;
    RowKeepsIntact(d0, cells0, was, i, now);
    IntactReads(d0, cells0, now.disk, now.done);
    assert now.done[..i] == was.done[..i];
  }

  lemma RunEnds(d0: Disk, cells0: seq<Cell>, audits0: seq<AuditEvent>, dryRun: bool, now: Progress)
    requires Running(d0, cells0, audits0, dryRun, |cells0|, now)
    ensures Sound(now.disk, now.done) && |now.done| == |cells0| && ReadersAgree(d0, cells0, now.disk, now.done)
    ensures forall j | 0 <= j < |cells0| :: now.done[j].column == cells0[j].column
    ensures dryRun ==> now.done == cells0 && now.audits == audits0
    ensures CompletedWith(d0, cells0, audits0, dryRun, now.disk, now.done, now.audits, now.counts)
    ensures TotalMigrated(now.counts) == Number(cells0, |cells0|, (c: Cell) => Due(d0, c))
    ensures forall key :: EntryOrDefault(now.counts, key) == Report(d0, cells0, |cells0|, key)
    ensures !dryRun ==> forall c <- now.done :: !Due(now.disk, c)
    ensures !dryRun ==> now.audits == audits0 + Trail(d0, cells0, |cells0|)
  {
    hide After, Moved, ReadersAgree, Due, Report, Number, Extends, WellKeyed, EntryOrDefault;
    IntactReads(d0, cells0, now.disk, now.done);
    CompleteRun(d0, cells0, dryRun);
    assert now.done[..|cells0|] == now.done;
  }

  ghost predicate CompletedWith(d0: Disk, cells0: seq<Cell>, audits0: seq<AuditEvent>, dryRun: bool,
                                d: Disk, cells: seq<Cell>, audits: seq<AuditEvent>, counts: CountsByScope)
  {
    && audits0 <= audits
    && After(d0, cells0, |cells0|, dryRun) == Ok(Progress(d, cells, counts, audits[|audits0|..]))
  }

  ghost predicate StoppedAt(d0: Disk, cells0: seq<Cell>, audits0: seq<AuditEvent>, dryRun: bool, n: nat,
                            cells: seq<Cell>, audits: seq<AuditEvent>)
  {
    && n <= |cells0| == |cells|
    && After(d0, cells0, n, dryRun).Ok?
    && audits == audits0 + After(d0, cells0, n, dryRun).value.audits
    && cells[..n] == After(d0, cells0, n, dryRun).value.done
    && forall j | n < j < |cells| :: cells[j] == cells0[j]
  }
}
