/** The bounded retry shared by configure pushes and file restores (crates/core/src/instance.rs). */
module Retry {
  const ATTEMPTS: nat := 12
  const FIRST_DELAY: nat := 500
  const MAX_DELAY: nat := 8000

  datatype Reply = Accepted | Transient | Fatal

  function Doubled(delay: nat): nat {
    if 2 * delay < MAX_DELAY then 2 * delay else MAX_DELAY
  }

  /** The delay after the `n`th failure, counting from zero. */
  function Delay(n: nat): nat {
    if n == 0 then FIRST_DELAY else Doubled(Delay(n - 1))
  }

  /** Milliseconds slept by `n` failed attempts. */
  function Slept(n: nat): nat {
    if n == 0 then 0 else Slept(n - 1) + Delay(n - 1)
  }

  /** All twelve attempts sleep for 71.5 seconds. */
  lemma {:induction false} Budget(n: nat)
    ensures 4 <= n ==> Delay(n) == MAX_DELAY && Slept(n) == 7500 + 8000 * (n - 4)
    ensures n <= ATTEMPTS ==> Slept(n) <= 71500
  {
    if n == 4 {
      assert Delay(2) == 2000 && Slept(2) == 1500;
    } else if n > 4 {
      Budget(n - 1);
    } else {
      assert Slept(1) == 500 && Delay(1) == 1000;
    }
  }

  /** `n` is the number of attempts made against these replies. */
  ghost predicate StopsAfter(replies: nat -> Reply, n: nat) {
    && 0 < n <= ATTEMPTS
    && (forall i | 0 <= i < n - 1 :: replies(i) == Transient)
    && (n == ATTEMPTS || replies(n - 1) != Transient)
  }

  /** Succeeds exactly when the first answer that is not a transient failure comes in time and is a success. */
  method PushWithRetry(replies: nat -> Reply) returns (ok: bool, attempts: nat, slept: nat)
    ensures StopsAfter(replies, attempts)
    ensures ok <==> replies(attempts - 1) == Accepted
    ensures slept == Slept(if replies(attempts - 1) == Transient then attempts else attempts - 1) <= 71500
  {
    ok, slept := false, 0;
    var delay := FIRST_DELAY;
    attempts := 0;
    while attempts < ATTEMPTS
      invariant attempts <= ATTEMPTS
      invariant forall i | 0 <= i < attempts :: replies(i) == Transient
      invariant slept == Slept(attempts) && delay == Delay(attempts)
    {
      var reply := replies(attempts);
      Budget(attempts);
      attempts := attempts + 1;
      if reply == Accepted {
        ok := true;
        return;
      }
      if reply == Fatal {
        return;
      }
      slept := slept + delay;
      delay := Doubled(delay);
    }
    Budget(attempts);
  }
}

/** Replaying an instance's file mirror into a sandbox (crates/core/src/instance.rs). */
module Replay {
  import opened Wrappers
  import opened KmsContexts
  import opened KeyFiles
  import opened Envelope
  import opened StatePaths
  import StateFiles
  import Retry

  /** A file as the sandbox sees it: spellings with the same components name the same one. */
  type FileId = (string, seq<Component>)
  type Files = map<FileId, Term>

  datatype MirrorRow = MirrorRow(namespace: string, path: string, row: StateFiles.Row) {
    function Key(): FileId { (namespace, Components(path)) }
  }

  datatype Outcome = Erase | Restore(body: Term) | Skip | Unreadable {
    predicate Effective() { Erase? || Restore? }
  }

  /** What one listed row amounts to: the file, what becomes of it, and whether the caller owns the row. */
  datatype Item = Item(key: FileId, outcome: Outcome, owned: bool)

  datatype ReplayError = OwnerMismatch(at: nat) | BodyUnreadable(at: nat) | TransportFailed(at: nat) | NoReconfigurer

  predicate EmptyTranscript(r: MirrorRow, body: Term) {
    body.Bytes? && IsZeroByteTranscript(r.namespace, r.path, body.bytes)
  }

  function Plaintext(instance: string, d: Disk, r: MirrorRow): Result<Option<Term>, EnvelopeError> {
    StateFiles.ReadBody(StateFiles.File(instance, r.namespace, r.path), d, r.row).1
  }

  /** What a mirror row means for the file it names. */
  function OutcomeOf(instance: string, d: Disk, r: MirrorRow): Outcome {
    if !DurablePath(r.namespace, r.path) then Skip
    else if r.row.deleted then Erase
    else if r.row.body.None? then Unreadable else
    var plain := Plaintext(instance, d, r);
    if plain.Err? || plain.value.None? then Unreadable
    else if EmptyTranscript(r, plain.value.value) then Skip
    else Restore(plain.value.value)
  }

  predicate RowKnown(d: Disk, r: MirrorRow) {
    r.row.body.Some? ==> KeysKnown(d, r.row.body.value)
  }

  predicate AllKnown(d: Disk, rows: seq<MirrorRow>) {
    forall r <- rows :: RowKnown(d, r)
  }

  function ItemOf(owner: string, instance: string, d: Disk, r: MirrorRow): Item {
    Item(r.Key(), OutcomeOf(instance, d, r), r.row.owner == owner)
  }

  function Items(owner: string, instance: string, d: Disk, rows: seq<MirrorRow>): seq<Item> {
    seq(|rows|, i requires 0 <= i < |rows| => ItemOf(owner, instance, d, rows[i]))
  }

  /** What an item must satisfy for the replay to get past it. */
  predicate Passes(item: Item, lenient: bool) {
    item.owned && (lenient || item.outcome != Unreadable)
  }

  predicate AllPass(items: seq<Item>, lenient: bool) {
    forall item <- items :: Passes(item, lenient)
  }

  // ----- The effect of a list of items -----

  function Put(files: Files, key: FileId, o: Outcome): Files {
    match o
    case Erase => files - {key}
    case Restore(body) => files[key := body]
    case _ => files
  }

  /** The items applied in order. */
  function Fold(files: Files, items: seq<Item>): Files {
    if items == [] then files else
    var last := items[|items| - 1];
    Put(Fold(files, items[..|items| - 1]), last.key, last.outcome)
  }

  function At(files: Files, key: FileId): Option<Term> {
    if key in files then Some(files[key]) else None
  }

  function Target(o: Outcome): Option<Term> {
    if o.Restore? then Some(o.body) else None
  }

  function EffectiveCount(items: seq<Item>): nat {
    if items == [] then 0 else
    EffectiveCount(items[..|items| - 1]) + (if items[|items| - 1].outcome.Effective() then 1 else 0)
  }

  /** `after` is `before` overlaid with the items: every file an item decides is as it says, every other is untouched. */
  ghost predicate Overlaid(before: Files, after: Files, items: seq<Item>) {
    forall key :: OverlaidAt(before, after, items, key)
  }

  ghost predicate OverlaidAt(before: Files, after: Files, items: seq<Item>, key: FileId) {
    && (forall item <- items | item.key == key && item.outcome.Effective() :: At(after, key) == Target(item.outcome))
    && ((forall item <- items | item.key == key :: !item.outcome.Effective()) ==> At(after, key) == At(before, key))
  }

  /** Items that decide the same file decide it the same way. */
  predicate AliasesAgree(items: seq<Item>) {
    forall a, b | a in items && b in items && a.key == b.key && a.outcome.Effective() && b.outcome.Effective() ::
      Target(a.outcome) == Target(b.outcome)
  }

  /** The last item that decides a file, if any. */
  function LastOn(items: seq<Item>, key: FileId): Option<Item> {
    if items == [] then None else
    var last := items[|items| - 1];
    if last.key == key && last.outcome.Effective() then Some(last) else LastOn(items[..|items| - 1], key)
  }

  /** The item at `i` decides the file and none after it does. */
  predicate LastAt(items: seq<Item>, key: FileId, i: nat) {
    && i < |items| && items[i].key == key && items[i].outcome.Effective()
    && forall j | i < j < |items| :: items[j].key == key ==> !items[j].outcome.Effective()
  }

  lemma {:induction false} LastOnIs(items: seq<Item>, key: FileId)
    ensures var last := LastOn(items, key);
            if last.Some? then last.value in items && last.value.key == key && last.value.outcome.Effective()
            else forall item <- items | item.key == key :: !item.outcome.Effective()
  {
    if items != [] {
      LastOnIs(items[..|items| - 1], key);
      assert items == items[..|items| - 1] + [items[|items| - 1]];
    }
  }

  lemma {:induction false} LastAtIsLast(items: seq<Item>, key: FileId, i: nat)
    requires LastAt(items, key, i)
    ensures LastOn(items, key) == Some(items[i])
  {
    if i < |items| - 1 {
      LastAtIsLast(items[..|items| - 1], key, i);
    }
  }

  /** The last item on a file decides it. */
  lemma {:induction false} FoldAt(before: Files, items: seq<Item>, key: FileId)
    ensures At(Fold(before, items), key) ==
            match LastOn(items, key) case Some(last) => Target(last.outcome) case None => At(before, key)
  {
    if items != [] {
      FoldAt(before, items[..|items| - 1], key);
    }
  }

  lemma SameFiles(one: Files, two: Files)
    requires forall key :: At(one, key) == At(two, key)
    ensures one == two
  {
    assert forall key | key in one :: At(two, key) == Some(one[key]);
    assert forall key | key in two :: At(one, key) == Some(two[key]);
  }

  /**
   * Rows are unique by the text of their path, not by the file it names. The replay is an overlay of
   * all its rows exactly when rows that spell the same file agree on it.
   */
  lemma FoldIsOverlayIff(before: Files, items: seq<Item>)
    ensures Overlaid(before, Fold(before, items), items) <==> AliasesAgree(items)
  {
    hide Fold, LastOn;
    var after := Fold(before, items);
    forall key ensures AliasesAgree(items) ==> OverlaidAt(before, after, items, key) {
      LastOnIs(items, key);
      FoldAt(before, items, key);
    }
    forall a, b | Overlaid(before, after, items) && a in items && b in items && a.key == b.key && a.outcome.Effective() && b.outcome.Effective()
      ensures Target(a.outcome) == Target(b.outcome)
    {
      assert OverlaidAt(before, after, items, a.key);
    }
  }

  lemma OverlayDetermines(before: Files, one: Files, two: Files, items: seq<Item>, others: seq<Item>, key: FileId)
    requires forall item :: item in items <==> item in others
    requires Overlaid(before, one, items) && Overlaid(before, two, others)
    ensures At(one, key) == At(two, key)
  {
    assert OverlaidAt(before, one, items, key) && OverlaidAt(before, two, others, key);
    if item :| item in items && item.key == key && item.outcome.Effective() {
      assert item in others;
    }
  }

  /** Where aliases agree, order and repetition of the rows do not matter. */
  lemma OrderDoesNotMatter(before: Files, items: seq<Item>, others: seq<Item>)
    requires AliasesAgree(items) && forall item :: item in items <==> item in others
    ensures Fold(before, items) == Fold(before, others)
  {
    hide Fold;
    FoldIsOverlayIff(before, items);
    FoldIsOverlayIff(before, others);
    assert AliasesAgree(others);
    forall key ensures At(Fold(before, items), key) == At(Fold(before, others), key) {
      OverlayDetermines(before, Fold(before, items), Fold(before, others), items, others, key);
    }
    SameFiles(Fold(before, items), Fold(before, others));
  }

  /** Two rows that spell one file differently and disagree: the one listed last wins. */
  lemma AliasesDisagree(before: Files, namespace: string, a: string, b: string, one: Term, two: Term)
    requires a != "" && DurablePath(namespace, a + "/" + b) && Utf8Length(a + "/" + b) < 2048 && one != two
    ensures var key, alias := (namespace, Components(a + "/" + b)), (namespace, Components(a + "/" + ("/" + b)));
            var x, y := Item(key, Restore(one), true), Item(alias, Restore(two), true);
            key == alias && At(Fold(before, [x, y]), key) == Some(two) && At(Fold(before, [y, x]), key) == Some(one)
  {
    DurableHasAliases(namespace, a, b);
    var key := (namespace, Components(a + "/" + b));
    hide DurablePath, Components;
    var x, y := Item(key, Restore(one), true), Item(key, Restore(two), true);
    assert [x, y][..1] == [x] && [y, x][..1] == [y];
  }

  /** Replaying what was already replayed changes nothing. */
  lemma ReplayIsIdempotent(before: Files, items: seq<Item>)
    ensures Fold(Fold(before, items), items) == Fold(before, items)
  {
    hide Fold;
    var once := Fold(before, items);
    forall key ensures At(Fold(once, items), key) == At(once, key) {
      FoldAt(before, items, key);
      FoldAt(once, items, key);
    }
    SameFiles(Fold(once, items), once);
  }

  /** Lookups made while replaying do not change what any row means. */
  lemma OutcomeAgrees(instance: string, d: Disk, e: Disk, r: MirrorRow)
    requires Extends(d, e) && RowKnown(d, r)
    ensures OutcomeOf(instance, d, r) == OutcomeOf(instance, e, r)
  {
    hide Open, Extends, KeysKnown, DurablePath, Seal, EmptyTranscript, IsV2, Armored;
    if r.row.body.Some? {
      var ctx := StateFiles.ContextOf(StateFiles.File(instance, r.namespace, r.path), r.row.owner);
      OpenAgrees(d, e, ctx, r.row.body.value);
    }
  }

  lemma ReadExtends(instance: string, d: Disk, r: MirrorRow)
    requires WellKeyed(d)
    ensures var e := StateFiles.ReadBody(StateFiles.File(instance, r.namespace, r.path), d, r.row).0;
            Extends(d, e) && WellKeyed(e)
  {
    hide Open, Seal, WellKeyed, Extends, IsV2, Armored;
    if r.row.body.Some? {
      var ctx := StateFiles.ContextOf(StateFiles.File(instance, r.namespace, r.path), r.row.owner);
      var (d1, got) := Open(d, ctx, r.row.body.value);
      OpenExtends(d, ctx, r.row.body.value);
      ExtendsSelf(d);
      if got.Ok? {
        SealExtends(d1, ctx, got.value.plaintext);
        ExtendsTransitive(d, d1, Seal(d1, ctx, got.value.plaintext).0);
      }
    } else {
      ExtendsSelf(d);
    }
  }

  lemma ExtendsSelf(d: Disk)
    ensures Extends(d, d)
  {
  }

  lemma {:induction false} SomethingEffective(items: seq<Item>)
    ensures EffectiveCount(items) > 0 <==> exists item <- items :: item.outcome.Effective()
  {
    if items != [] {
      var init := items[..|items| - 1];
      SomethingEffective(init);
      assert items == init + [items[|items| - 1]];
    }
  }

  // ----- What a replay restores, told from the writes of each file -----

  function FileOf(instance: string, r: MirrorRow): StateFiles.File {
    StateFiles.File(instance, r.namespace, r.path)
  }

  /** The row is what the last write of `log` left. */
  ghost predicate Written(instance: string, d: Disk, r: MirrorRow, log: seq<StateFiles.Write>) {
    log != [] && StateFiles.RowIs(FileOf(instance, r), d, Some(r.row), log)
  }

  ghost predicate Histories(instance: string, d: Disk, rows: seq<MirrorRow>, logs: seq<seq<StateFiles.Write>>) {
    |logs| == |rows| && forall i | 0 <= i < |rows| :: Written(instance, d, rows[i], logs[i])
  }

  function Last(log: seq<StateFiles.Write>): StateFiles.Write
    requires log != []
  {
    log[|log| - 1]
  }

  /** The body opens under the row's own context. */
  predicate BodyOpens(instance: string, d: Disk, r: MirrorRow) {
    r.row.body.Some? && Opens(d, StateFiles.ContextOf(FileOf(instance, r), r.row.owner), r.row.body.value).Some?
  }

  /** A version-2 body whose active key version cannot be read is out of reach. */
  predicate Legible(instance: string, d: Disk, r: MirrorRow) {
    r.row.body.Some? && IsV2(r.row.body.value) ==> ActiveKeyMeta(d, StateFiles.ContextOf(FileOf(instance, r), r.row.owner)).Ok?
  }

  /** A durable file whose last write was a deletion, or a body that can be read and is no empty transcript. */
  predicate Settles(instance: string, d: Disk, r: MirrorRow, last: StateFiles.Write) {
    && DurablePath(r.namespace, r.path)
    && (last.Put? ==> Legible(instance, d, r) && !IsZeroByteTranscript(r.namespace, r.path, last.body))
  }

  predicate SettlesAt(instance: string, d: Disk, rows: seq<MirrorRow>, logs: seq<seq<StateFiles.Write>>, i: nat) {
    i < |rows| && i < |logs| && logs[i] != [] && Settles(instance, d, rows[i], Last(logs[i]))
  }

  /** What the last write leaves of a file. */
  function Content(last: StateFiles.Write): Option<Term> {
    match last case Delete(_) => None case Put(_, body) => Some(Bytes(body))
  }

  /** A file is as the last write of the last row that settles it left it, and as before if no row settles it. */
  ghost predicate Told(instance: string, d: Disk, rows: seq<MirrorRow>, logs: seq<seq<StateFiles.Write>>, before: Files, after: Files) {
    forall key :: ToldAt(instance, d, rows, logs, before, after, key)
  }

  ghost predicate ToldAt(instance: string, d: Disk, rows: seq<MirrorRow>, logs: seq<seq<StateFiles.Write>>,
                         before: Files, after: Files, key: FileId)
  {
    && (forall i: nat | DecidesAt(instance, d, rows, logs, i, key) :: At(after, key) == Content(Last(logs[i])))
    && ((forall i: nat | SettlesAt(instance, d, rows, logs, i) :: rows[i].Key() != key) ==> At(after, key) == At(before, key))
  }

  /** The row settles the file and no later one does. */
  predicate DecidesAt(instance: string, d: Disk, rows: seq<MirrorRow>, logs: seq<seq<StateFiles.Write>>, i: nat, key: FileId) {
    && SettlesAt(instance, d, rows, logs, i) && rows[i].Key() == key
    && forall j | i < j < |rows| :: rows[j].Key() == key ==> !SettlesAt(instance, d, rows, logs, j)
  }

  /** How many rows settle their file. */
  function SettledCount(instance: string, d: Disk, rows: seq<MirrorRow>, logs: seq<seq<StateFiles.Write>>, n: nat): nat {
    if n == 0 then 0 else SettledCount(instance, d, rows, logs, n - 1) + if SettlesAt(instance, d, rows, logs, n - 1) then 1 else 0
  }

  /** A row stops a strict replay exactly when it is a durable live one whose body does not open. */
  lemma UnreadableIff(instance: string, d: Disk, r: MirrorRow)
    ensures OutcomeOf(instance, d, r) == Unreadable <==>
            DurablePath(r.namespace, r.path) && !r.row.deleted && !BodyOpens(instance, d, r)
  {
    hide DurablePath, EmptyTranscript, Open, Seal;
    if r.row.body.Some? {
      var ctx := StateFiles.ContextOf(FileOf(instance, r), r.row.owner);
      OpensIffRecovers(d, ctx, r.row.body.value);
      if Opens(d, ctx, r.row.body.value).Some? {
        StateFiles.RecoverableIsSealed(d, ctx, r.row.body.value);
      }
    }
  }

  /** What a row amounts to, told from the writes of its file. */
  lemma OutcomeTold(instance: string, d: Disk, r: MirrorRow, log: seq<StateFiles.Write>)
    requires Written(instance, d, r, log)
    ensures var o := OutcomeOf(instance, d, r);
            && (o.Effective() <==> Settles(instance, d, r, Last(log)))
            && (o.Effective() ==> Target(o) == Content(Last(log)))
  {
    hide DurablePath, StateFiles.ReadBody, StateFiles.Holds, ActiveKeyMeta, IsV2, IsZeroByteTranscript;
    StateFiles.RowReads(FileOf(instance, r), d, r.row, log);
  }

  lemma FoldTold(owner: string, instance: string, d: Disk, rows: seq<MirrorRow>, logs: seq<seq<StateFiles.Write>>, before: Files)
    requires Histories(instance, d, rows, logs)
    ensures Told(instance, d, rows, logs, before, Fold(before, Items(owner, instance, d, rows)))
    ensures EffectiveCount(Items(owner, instance, d, rows)) == SettledCount(instance, d, rows, logs, |rows|)
  {
    hide OutcomeOf, Settles, StateFiles.RowIs, Fold, LastOn, MirrorRow.Key;
    var items := Items(owner, instance, d, rows);
    forall i | 0 <= i < |rows|
      ensures items[i].key == rows[i].Key()
      ensures items[i].outcome.Effective() <==> SettlesAt(instance, d, rows, logs, i)
      ensures items[i].outcome.Effective() ==> Target(items[i].outcome) == Content(Last(logs[i]))
    {
      OutcomeTold(instance, d, rows[i], logs[i]);
    }
    forall key ensures ToldAt(instance, d, rows, logs, before, Fold(before, items), key) {
      FoldAt(before, items, key);
      LastOnIs(items, key);
      forall i: nat | DecidesAt(instance, d, rows, logs, i, key) ensures LastOn(items, key) == Some(items[i]) {
        LastAtIsLast(items, key, i);
      }
    }
    CountTold(owner, instance, d, rows, logs, |rows|);
    assert items[..|rows|] == items;
  }

  /** Where rows that settle one file agree, every file a row settles is as its own last write left it. */
  lemma EachFileAsWritten(instance: string, d: Disk, rows: seq<MirrorRow>, logs: seq<seq<StateFiles.Write>>, before: Files, after: Files, i: nat)
    requires Told(instance, d, rows, logs, before, after) && SettlesAt(instance, d, rows, logs, i)
    requires forall j: nat | SettlesAt(instance, d, rows, logs, j) && rows[j].Key() == rows[i].Key() ::
               Content(Last(logs[j])) == Content(Last(logs[i]))
    ensures At(after, rows[i].Key()) == Content(Last(logs[i]))
    decreases |rows| - i
  {
    hide Settles, MirrorRow.Key;
    if j :| i < j < |rows| && rows[j].Key() == rows[i].Key() && SettlesAt(instance, d, rows, logs, j) {
      EachFileAsWritten(instance, d, rows, logs, before, after, j);
    } else {
      assert ToldAt(instance, d, rows, logs, before, after, rows[i].Key());
      assert DecidesAt(instance, d, rows, logs, i, rows[i].Key());
    }
  }

  lemma {:induction false} CountTold(owner: string, instance: string, d: Disk, rows: seq<MirrorRow>, logs: seq<seq<StateFiles.Write>>, n: nat)
    requires n <= |rows| && Histories(instance, d, rows, logs)
    ensures EffectiveCount(Items(owner, instance, d, rows)[..n]) == SettledCount(instance, d, rows, logs, n)
  {
    hide OutcomeOf, Settles, StateFiles.RowIs;
    if n > 0 {
      CountTold(owner, instance, d, rows, logs, n - 1);
      OutcomeTold(instance, d, rows[n - 1], logs[n - 1]);
      var items := Items(owner, instance, d, rows);
      assert items[..n][..n - 1] == items[..n - 1];
    }
  }

  /** Durable, live and with a body that does not open. */
  predicate Blocked(instance: string, d: Disk, r: MirrorRow) {
    DurablePath(r.namespace, r.path) && !r.row.deleted && !BodyOpens(instance, d, r)
  }

  predicate NoneBlocked(instance: string, d: Disk, rows: seq<MirrorRow>) {
    forall r <- rows :: !Blocked(instance, d, r)
  }

  predicate AllOwned(owner: string, rows: seq<MirrorRow>) {
    forall r <- rows :: r.row.owner == owner
  }

  /** A replay gets past every row exactly when the caller owns them all and, in a strict run, none is blocked. */
  lemma PassTold(owner: string, instance: string, d: Disk, rows: seq<MirrorRow>, lenient: bool)
    ensures AllPass(Items(owner, instance, d, rows), lenient) <==>
            AllOwned(owner, rows) && (lenient || NoneBlocked(instance, d, rows))
  {
    hide OutcomeOf, Blocked;
    var items := Items(owner, instance, d, rows);
    forall i | 0 <= i < |rows|
      ensures Passes(items[i], lenient) <==> rows[i].row.owner == owner && (lenient || !Blocked(instance, d, rows[i]))
    {
      BlockedIff(instance, d, rows[i]);
    }
    assert forall i | 0 <= i < |rows| :: items[i] in items && rows[i] in rows;
  }

  lemma BlockedIff(instance: string, d: Disk, r: MirrorRow)
    ensures OutcomeOf(instance, d, r) == Unreadable <==> Blocked(instance, d, r)
  {
    hide OutcomeOf, BodyOpens, DurablePath;
    UnreadableIff(instance, d, r);
  }

  lemma StopTold(owner: string, instance: string, d: Disk, rows: seq<MirrorRow>, before: Files, after: Files, lenient: bool, error: ReplayError)
    requires !error.NoReconfigurer? && Stopped(Items(owner, instance, d, rows), before, after, lenient, error)
    ensures error.at < |rows|
    ensures error.OwnerMismatch? ==> rows[error.at].row.owner != owner
    ensures error.BodyUnreadable? ==> !lenient && Blocked(instance, d, rows[error.at])
  {
    hide OutcomeOf, Blocked, Fold;
    BlockedIff(instance, d, rows[error.at]);
  }

  /** The orchestrator's key directory and the target sandbox's files. */
  class Replayer {
    var disk: Disk
    var files: Files

    constructor (disk: Disk, files: Files)
      ensures this.disk == disk && this.files == files
    {
      this.disk, this.files := disk, files;
    }

    /** Posts one file until it is accepted; a failed attempt may still have been applied. */
    method RestoreWithRetry(key: FileId, o: Outcome) returns (ok: bool)
      modifies this`files
      ensures ok ==> files == Put(old(files), key, o)
      ensures !ok ==> files == old(files) || files == Put(old(files), key, o)
    {
      var attempt := 0;
      while attempt < Retry.ATTEMPTS
        invariant files == old(files) || files == Put(old(files), key, o)
      {
        var applied, accepted := *, *;
        if applied || accepted {
          files := Put(files, key, o);
          assert files == Put(old(files), key, o);
        }
        if accepted {
          return true;
        }
        attempt := attempt + 1;
      }
      return false;
    }

    method ReadForReplay(instance: string, r: MirrorRow) returns (body: Result<Option<Term>, EnvelopeError>)
      requires WellKeyed(disk)
      modifies this`disk
      ensures WellKeyed(disk) && Extends(old(disk), disk)
      ensures body == Plaintext(instance, old(disk), r)
    {
      ReadExtends(instance, disk, r);
      var (d, read, _) := StateFiles.ReadBody(StateFiles.File(instance, r.namespace, r.path), disk, r.row);
      disk := d;
      return read;
    }

    /** Whether a replay has anything to do; reads rows only until it knows. */
    method HasDurableMirroredStateFiles(instance: string, rows: seq<MirrorRow>) returns (b: bool)
      requires WellKeyed(disk) && AllKnown(disk, rows)
      modifies this`disk
      ensures WellKeyed(disk) && Extends(old(disk), disk)
      ensures forall owner :: b <==> EffectiveCount(Items(owner, instance, old(disk), rows)) > 0
      ensures forall logs | Histories(instance, old(disk), rows, logs) ::
                b <==> exists i: nat :: SettlesAt(instance, old(disk), rows, logs, i)
    {
      hide Extends, WellKeyed, Plaintext, DurablePath, EmptyTranscript, EffectiveCount, Items, Settles, Histories;
      forall logs | Histories(instance, disk, rows, logs)
        ensures (exists r <- rows :: OutcomeOf(instance, disk, r).Effective()) <==> exists i: nat :: SettlesAt(instance, disk, rows, logs, i)
      {
        SomeRowSettles(instance, disk, rows, logs);
      }
      ExtendsSelf(disk);
      forall owner {
        SomeRowEffective(owner, instance, disk, rows);
      }
      for i := 0 to |rows|
        invariant WellKeyed(disk) && Extends(old(disk), disk)
        invariant forall r <- rows[..i] :: !OutcomeOf(instance, old(disk), r).Effective()
      {
        var r := rows[i];
        OutcomeAgrees(instance, old(disk), disk, r);
        assert rows[..i + 1] == rows[..i] + [r];
        if !DurablePath(r.namespace, r.path) {
          continue;
        }
        if r.row.deleted {
          return true;
        }
        if r.row.body.None? {
          continue;
        }
        ghost var e := disk;
        var body := ReadForReplay(instance, r);
        ExtendsTransitive(old(disk), e, disk);
        if body.Ok? && body.value.Some? && !EmptyTranscript(r, body.value.value) {
          return true;
        }
      }
      assert rows[..|rows|] == rows;
      return false;
    }

    /**
     * Success means exactly the rows' items applied in order, counted, and that every one of them
     * passed: the owner matched and, in a strict run, the durable live row was readable. Each error
     * names the first row that caused it, with all rows before it applied and none after it.
     */
    method ReplayStateFiles(owner: string, instance: string, rows: seq<MirrorRow>, lenient: bool, reconfigurer: bool)
      returns (r: Result<nat, ReplayError>)
      requires WellKeyed(disk) && AllKnown(disk, rows)
      modifies this
      ensures WellKeyed(disk) && Extends(old(disk), disk)
      ensures r == Err(NoReconfigurer) <==> rows != [] && !reconfigurer
      ensures r == Err(NoReconfigurer) ==> files == old(files)
      ensures r.Ok? ==> Replayed(Items(owner, instance, old(disk), rows), old(files), files, lenient, r.value)
      ensures r.Err? && !r.error.NoReconfigurer? ==>
                Stopped(Items(owner, instance, old(disk), rows), old(files), files, lenient, r.error)
      // The same, told from the rows and from the writes of each file.
      ensures r.Ok? ==> AllOwned(owner, rows) && (lenient || NoneBlocked(instance, old(disk), rows))
      ensures r.Err? && !r.error.NoReconfigurer? ==> r.error.at < |rows|
      ensures r.Err? && r.error.OwnerMismatch? ==> rows[r.error.at].row.owner != owner
      ensures r.Err? && r.error.BodyUnreadable? ==> !lenient && Blocked(instance, old(disk), rows[r.error.at])
      ensures r.Ok? ==> forall logs | Histories(instance, old(disk), rows, logs) ::
                Told(instance, old(disk), rows, logs, old(files), files) && r.value == SettledCount(instance, old(disk), rows, logs, |rows|)
    {
      r := ReplayRows(owner, instance, rows, lenient, reconfigurer);
      hide Extends, WellKeyed, Items, Fold, EffectiveCount, AllPass, Told, Histories, Blocked, SettledCount;
      PassTold(owner, instance, old(disk), rows, lenient);
      if r.Err? && !r.error.NoReconfigurer? {
        StopTold(owner, instance, old(disk), rows, old(files), files, lenient, r.error);
      }
      forall logs | Histories(instance, old(disk), rows, logs)
        ensures Told(instance, old(disk), rows, logs, old(files), Fold(old(files), Items(owner, instance, old(disk), rows)))
        ensures EffectiveCount(Items(owner, instance, old(disk), rows)) == SettledCount(instance, old(disk), rows, logs, |rows|)
      {
        FoldTold(owner, instance, old(disk), rows, logs, old(files));
      }
    }

    /** The loop over the rows. */
    method ReplayRows(owner: string, instance: string, rows: seq<MirrorRow>, lenient: bool, reconfigurer: bool)
      returns (r: Result<nat, ReplayError>)
      requires WellKeyed(disk) && AllKnown(disk, rows)
      modifies this
      ensures WellKeyed(disk) && Extends(old(disk), disk)
      ensures r == Err(NoReconfigurer) <==> rows != [] && !reconfigurer
      ensures r == Err(NoReconfigurer) ==> files == old(files)
      ensures r.Ok? ==> Replayed(Items(owner, instance, old(disk), rows), old(files), files, lenient, r.value)
      ensures r.Err? && !r.error.NoReconfigurer? ==>
                Stopped(Items(owner, instance, old(disk), rows), old(files), files, lenient, r.error)
    {
      hide Extends, WellKeyed, Plaintext, DurablePath, EmptyTranscript, Items, Fold, EffectiveCount, AllPass;
      ExtendsSelf(disk);
      NothingReplayed(files, lenient);
      ghost var items := Items(owner, instance, disk, rows);
      ItemsAt(owner, instance, disk, rows);
      if rows == [] {
        assert items == [];
        return Ok(0);
      }
      if !reconfigurer {
        return Err(NoReconfigurer);
      }
      var replayed := 0;
      assert items[..0] == [];
      for i := 0 to |rows|
        invariant WellKeyed(disk) && Extends(old(disk), disk)
        invariant Replayed(items[..i], old(files), files, lenient, replayed)
      {
        var row := rows[i];
        OutcomeAgrees(instance, old(disk), disk, row);
        ReplayedStep(items, i, old(files), files, lenient, replayed);
        if row.row.owner != owner {
          return Err(OwnerMismatch(i));
        }
        if !DurablePath(row.namespace, row.path) {
          continue;
        }
        var todo := Erase;
        if !row.row.deleted {
          if row.row.body.None? {
            if lenient {
              continue;
            }
            return Err(BodyUnreadable(i));
          }
          ghost var e := disk;
          var body := ReadForReplay(instance, row);
          ExtendsTransitive(old(disk), e, disk);
          if body.Err? || body.value.None? {
            if lenient {
              continue;
            }
            return Err(BodyUnreadable(i));
          }
          if EmptyTranscript(row, body.value.value) {
            continue;
          }
          todo := Restore(body.value.value);
        }
        assert todo == items[i].outcome;
        var ok := RestoreWithRetry(row.Key(), todo);
        if !ok {
          return Err(TransportFailed(i));
        }
        replayed := replayed + 1;
      }
      assert items[..|rows|] == items;
      return Ok(replayed);
    }
  }

  lemma SomeRowSettles(instance: string, d: Disk, rows: seq<MirrorRow>, logs: seq<seq<StateFiles.Write>>)
    requires Histories(instance, d, rows, logs)
    ensures (exists r <- rows :: OutcomeOf(instance, d, r).Effective()) <==> exists i: nat :: SettlesAt(instance, d, rows, logs, i)
  {
    hide OutcomeOf, Settles, StateFiles.RowIs;
    forall i | 0 <= i < |rows| ensures OutcomeOf(instance, d, rows[i]).Effective() <==> SettlesAt(instance, d, rows, logs, i) {
      OutcomeTold(instance, d, rows[i], logs[i]);
    }
    assert forall i | 0 <= i < |rows| :: rows[i] in rows;
  }

  lemma ItemsAt(owner: string, instance: string, d: Disk, rows: seq<MirrorRow>)
    ensures |Items(owner, instance, d, rows)| == |rows|
    ensures forall i | 0 <= i < |rows| :: Items(owner, instance, d, rows)[i] == ItemOf(owner, instance, d, rows[i])
  {
  }

  lemma NothingReplayed(files: Files, lenient: bool)
    ensures Replayed([], files, files, lenient, 0)
  {
  }

  lemma ReplayedStep(items: seq<Item>, i: nat, before: Files, files: Files, lenient: bool, count: nat)
    requires i < |items| && Replayed(items[..i], before, files, lenient, count)
    ensures Fold(before, items[..i + 1]) == Put(files, items[i].key, items[i].outcome)
    ensures Passes(items[i], lenient) ==>
              Replayed(items[..i + 1], before, Put(files, items[i].key, items[i].outcome), lenient,
                       count + if items[i].outcome.Effective() then 1 else 0)
  {
    assert items[..i + 1] == items[..i] + [items[i]] && items[..i + 1][..i] == items[..i];
  }

  lemma SomeRowEffective(owner: string, instance: string, d: Disk, rows: seq<MirrorRow>)
    ensures EffectiveCount(Items(owner, instance, d, rows)) > 0 <==> exists r <- rows :: OutcomeOf(instance, d, r).Effective()
  {
    hide OutcomeOf, EffectiveCount;
    var items := Items(owner, instance, d, rows);
    SomethingEffective(items);
    forall r | r in rows ensures ItemOf(owner, instance, d, r) in items {
      var i :| 0 <= i < |rows| && rows[i] == r;
      assert items[i] == ItemOf(owner, instance, d, r);
    }
    assert forall i | 0 <= i < |items| :: items[i].outcome == OutcomeOf(instance, d, rows[i]) && rows[i] in rows;
  }

  /** A replay that succeeded: every item passed and was applied in order. */
  ghost predicate Replayed(items: seq<Item>, before: Files, after: Files, lenient: bool, count: nat) {
    AllPass(items, lenient) && after == Fold(before, items) && count == EffectiveCount(items)
  }

  ghost predicate Stopped(items: seq<Item>, before: Files, after: Files, lenient: bool, error: ReplayError)
    requires !error.NoReconfigurer?
  {
    var k := error.at;
    && k < |items| && AllPass(items[..k], lenient)
    && (error.OwnerMismatch? ==> !items[k].owned)
    && (error.BodyUnreadable? ==> items[k].owned && !lenient && items[k].outcome == Unreadable)
    && (error.TransportFailed? ==> Passes(items[k], lenient) && items[k].outcome.Effective())
    && (after == Fold(before, items[..k]) || (error.TransportFailed? && after == Fold(before, items[..k + 1])))
  }
}
