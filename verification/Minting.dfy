/**
 * Double-checked minting under a registered lock, for one user or one instance:
 * `resolve_plaintext` (crates/core/src/openrouter.rs) and `ensure_secret`
 * (crates/core/src/dyson_reconfig.rs). Each action is one store, lock or upstream call.
 */
module Minting {
  import opened Wrappers

  type Key = nat
  type Lock = nat
  type Caller = nat

  /** Where a caller stands; the phases that carry a lock and follow `Waiting` hold it. */
  datatype Pc =
    | FastId | FastSecret | Enter
    | Waiting(lock: Lock) | HeldId(lock: Lock) | HeldSecret(lock: Lock) | Minting(lock: Lock)
    | Putting(lock: Lock, key: Key) | Recording(lock: Lock, key: Key)
    | Done(key: Key) | Failed

  /**
   * `idKnown` is the key-id column and `secret` the sealed plaintext. `ensure_secret` has no id:
   * there `recordsId` is false and `idKnown` always true. `mints`, `failedPersists` and `recorded`
   * are history: upstream mints, mints whose persisting failed, and whether one was persisted.
   */
  datatype State = State(
    recordsId: bool, idKnown: bool, secret: Option<Key>,
    registry: Option<Lock>, holders: map<Lock, Caller>, callers: map<Caller, Pc>,
    nextKey: Key, nextLock: Lock, mints: nat, failedPersists: nat, recorded: bool)

  datatype Action = Call(who: Caller) | Step(caller: Caller, ok: bool) | DropLock | DeleteSecret

  predicate Holding(pc: Pc) {
    pc.HeldId? || pc.HeldSecret? || pc.Minting? || pc.Putting? || pc.Recording?
  }

  predicate InFlight(pc: Pc) {
    pc.Putting? || pc.Recording?
  }

  /** Where a caller's next call takes it; `ok` is whether that call succeeds. */
  function NextPc(s: State, pc: Pc, ok: bool): Pc {
    match pc
    case FastId => if !ok then Failed else if s.idKnown then FastSecret else Enter
    case FastSecret => if !ok then Failed else if s.secret.Some? then Done(s.secret.value) else Enter
    case Enter => Waiting(if s.registry.Some? then s.registry.value else s.nextLock)
    case Waiting(lock) => if lock in s.holders then pc else HeldId(lock)
    case HeldId(lock) => if !ok then Failed else if s.idKnown then HeldSecret(lock) else Minting(lock)
    case HeldSecret(lock) => if !ok then Failed else if s.secret.Some? then Done(s.secret.value) else Minting(lock)
    case Minting(lock) => if !ok then Failed else Putting(lock, s.nextKey)
    case Putting(lock, key) => if !ok then Failed else if s.recordsId then Recording(lock, key) else Done(key)
    case Recording(_, key) => if !ok then Failed else Done(key)
    case Done(_) | Failed => pc
  }

  /** What the call does to the registry, the store and the history. */
  function Effect(s: State, pc: Pc, ok: bool): State {
    match pc
    case Enter => if s.registry.Some? then s else s.(registry := Some(s.nextLock), nextLock := s.nextLock + 1)
    case Minting(_) => if ok then s.(nextKey := s.nextKey + 1, mints := s.mints + 1) else s
    case Putting(_, key) =>
      if ok then s.(secret := Some(key), recorded := s.recorded || !s.recordsId)
      else s.(failedPersists := s.failedPersists + 1)
    case Recording(_, _) =>
      if ok then s.(idKnown := true, recorded := true) else s.(failedPersists := s.failedPersists + 1)
    case _ => s
  }

  /** A caller moves, taking its lock as it starts to hold it and giving it up as it finishes. */
  function Move(s: State, c: Caller, pc: Pc, next: Pc): State {
    s.(callers := s.callers[c := next],
       holders := if Holding(pc) && !Holding(next) then s.holders - {pc.lock}
                  else if !Holding(pc) && Holding(next) then s.holders[next.lock := c]
                  else s.holders)
  }

  function StepCaller(s: State, c: Caller, ok: bool): State
    requires c in s.callers
  {
    var pc := s.callers[c];
    Move(Effect(s, pc, ok), c, pc, NextPc(s, pc, ok))
  }

  function Next(s: State, a: Action): State {
    match a
    case Call(c) => if c in s.callers then s else s.(callers := s.callers[c := FastId])
    case Step(c, ok) => if c in s.callers then StepCaller(s, c, ok) else s
    case DropLock => s.(registry := None)
    case DeleteSecret => s.(secret := None)
  }

  function After(s: State, actions: seq<Action>): State
    decreases |actions|
  {
    if actions == [] then s else After(Next(s, actions[0]), actions[1..])
  }

  // ----- What holds while nobody forgets the secret -----

  predicate Complete(s: State) {
    s.idKnown && s.secret.Some?
  }

  /** Nobody is calling yet; the store may hold anything. */
  predicate Initial(s: State) {
    && s.callers == map[] && s.holders == map[] && s.registry.None?
    && s.mints == 0 && s.failedPersists == 0 && !s.recorded
    && (!s.recordsId ==> s.idKnown)
  }

  ghost predicate CallerOk(s: State, c: Caller, pc: Pc) {
    && (pc.Waiting? || Holding(pc) ==> s.registry == Some(pc.lock))
    && (Holding(pc) ==> pc.lock in s.holders && s.holders[pc.lock] == c)
    && (pc.FastSecret? || pc.HeldSecret? ==> s.idKnown)
    && (pc.Minting? || pc.Putting? ==> !Complete(s))
    && (pc.Recording? ==> s.secret == Some(pc.key) && !s.recorded && s.recordsId)
    && (pc.Done? ==> s.idKnown && s.secret == Some(pc.key))
  }

  /** A lock that is taken is held by the caller it names. */
  ghost predicate HoldersOk(s: State) {
    forall l | l in s.holders ::
      s.holders[l] in s.callers && Holding(s.callers[s.holders[l]]) && s.callers[s.holders[l]].lock == l
  }

  ghost predicate SomeInFlight(s: State) {
    exists c :: c in s.callers && InFlight(s.callers[c])
  }

  /** Every mint failed to persist, is being persisted by the one lock holder, or is the recorded one. */
  ghost predicate Accounted(s: State) {
    s.mints == s.failedPersists + (if s.recorded then 1 else 0) + (if SomeInFlight(s) then 1 else 0)
  }

  ghost predicate Inv(s: State, startedComplete: bool) {
    && (forall c | c in s.callers :: CallerOk(s, c, s.callers[c]))
    && HoldersOk(s)
    && (!s.recordsId ==> s.idKnown)
    && (s.recorded ==> Complete(s))
    && (Complete(s) ==> startedComplete || s.mints > 0)
    && (startedComplete ==> Complete(s) && s.mints == 0)
    && Accounted(s)
  }

  /** Two callers never hold the lock at once. */
  lemma OneHolder(s: State, started: bool, c: Caller, d: Caller)
    requires Inv(s, started) && c in s.callers && d in s.callers
    requires Holding(s.callers[c]) && Holding(s.callers[d])
    ensures c == d
  {
    assert CallerOk(s, c, s.callers[c]) && CallerOk(s, d, s.callers[d]);
  }

  /** Nobody else holds the lock when this caller does, so nobody else's standing changes. */
  lemma OthersStand(s: State, started: bool, c: Caller, ok: bool, d: Caller)
    requires Inv(s, started) && c in s.callers && d in s.callers && c != d
    ensures CallerOk(StepCaller(s, c, ok), d, s.callers[d])
  {
    assert CallerOk(s, c, s.callers[c]) && CallerOk(s, d, s.callers[d]);
    if Holding(s.callers[c]) && Holding(s.callers[d]) {
      OneHolder(s, started, c, d);
    }
    hide Accounted, Inv;
  }

  lemma SelfStands(s: State, c: Caller, ok: bool)
    requires c in s.callers && CallerOk(s, c, s.callers[c])
    requires (!s.recordsId ==> s.idKnown) && (s.recorded ==> Complete(s))
    ensures CallerOk(StepCaller(s, c, ok), c, NextPc(s, s.callers[c], ok))
  {
    if Holding(s.callers[c]) {
    }
  }

  lemma HoldersStand(s: State, c: Caller, pc: Pc, next: Pc)
    requires c in s.callers && pc == s.callers[c] && HoldersOk(s)
    requires Holding(pc) && Holding(next) ==> next.lock == pc.lock
    requires !Holding(pc) && Holding(next) ==> next.lock !in s.holders
    ensures HoldersOk(Move(s, c, pc, next))
  {
  }

  /** Nobody else is persisting a mint while this caller holds the lock. */
  lemma InFlightIsMine(s: State, started: bool, c: Caller)
    requires Inv(s, started) && c in s.callers && Holding(s.callers[c])
    ensures SomeInFlight(s) <==> InFlight(s.callers[c])
    ensures forall next: Pc :: SomeInFlight(Move(s, c, s.callers[c], next)) <==> InFlight(next)
  {
    forall d | d in s.callers && InFlight(s.callers[d]) ensures d == c {
      OneHolder(s, started, c, d);
    }
    forall next: Pc ensures SomeInFlight(Move(s, c, s.callers[c], next)) <==> InFlight(next) {
      assert c in Move(s, c, s.callers[c], next).callers;
    }
  }

  lemma SameInFlight(s: State, t: State, c: Caller)
    requires c in s.callers && c in t.callers && t.callers == s.callers[c := t.callers[c]]
    requires !InFlight(s.callers[c]) && !InFlight(t.callers[c])
    ensures SomeInFlight(s) <==> SomeInFlight(t)
  {
    if d :| d in s.callers && InFlight(s.callers[d]) {
      assert d in t.callers && InFlight(t.callers[d]);
    }
  }

  /** Mints not yet settled change exactly as this caller starts or stops persisting one. */
  lemma Unsettled(s: State, pc: Pc, ok: bool)
    requires pc.Putting? || pc.Recording? ==> !s.recorded
    requires pc.Recording? ==> s.recordsId
    ensures var t := Effect(s, pc, ok);
            t.mints - t.failedPersists - (if t.recorded then 1 else 0) - (if InFlight(NextPc(s, pc, ok)) then 1 else 0)
            == s.mints - s.failedPersists - (if s.recorded then 1 else 0) - (if InFlight(pc) then 1 else 0)
  {
  }

  lemma AccountStands(s: State, started: bool, c: Caller, ok: bool)
    requires Inv(s, started) && c in s.callers
    ensures Accounted(StepCaller(s, c, ok))
  {
    hide NextPc, Effect, Inv, SomeInFlight;
    var t := StepCaller(s, c, ok);
    var pc, next := s.callers[c], NextPc(s, s.callers[c], ok);
    CallerOf(s, started, c);
    Unsettled(s, pc, ok);
    OnlyHoldersPersist(s, pc, ok);
    if Holding(pc) {
      InFlightIsMine(s, started, c);
      SameCallers(Move(s, c, pc, next), t);
    } else {
      SameInFlight(s, t, c);
    }
  }

  lemma CallerOf(s: State, started: bool, c: Caller)
    requires Inv(s, started) && c in s.callers
    ensures CallerOk(s, c, s.callers[c]) && Accounted(s) && (s.recorded ==> Complete(s))
  {
  }

  lemma SameCallers(s: State, t: State)
    requires s.callers == t.callers
    ensures SomeInFlight(s) <==> SomeInFlight(t)
  {
  }

  lemma OnlyHoldersPersist(s: State, pc: Pc, ok: bool)
    ensures Effect(s, pc, ok).callers == s.callers
    ensures !Holding(pc) ==> !InFlight(NextPc(s, pc, ok))
  {
  }

  lemma StepKeepsInv(s: State, started: bool, a: Action)
    requires Inv(s, started) && !a.DropLock? && !a.DeleteSecret?
    ensures Inv(Next(s, a), started)
  {
    hide Accounted, StepCaller, CallerOk, HoldersOk;
    var t := Next(s, a);
    if a.Call? {
      CallKeepsInv(s, started, a.who);
    } else if a.caller in s.callers {
      SelfStands(s, a.caller, a.ok);
      HoldersStep(s, a.caller, a.ok);
      AccountStands(s, started, a.caller, a.ok);
      CellsStand(s, started, a.caller, a.ok);
      forall d | d in t.callers ensures CallerOk(t, d, t.callers[d]) {
        if d != a.caller {
          OthersStand(s, started, a.caller, a.ok, d);
        }
      }
    }
  }

  lemma HoldersStep(s: State, c: Caller, ok: bool)
    requires c in s.callers && HoldersOk(s)
    ensures HoldersOk(StepCaller(s, c, ok))
  {
    hide NextPc, Effect;
    LocksStand(s, s.callers[c], ok);
    var e := Effect(s, s.callers[c], ok);
    HoldersStand(e, c, s.callers[c], NextPc(s, s.callers[c], ok));
  }

  /** A caller takes only a free lock, and keeps the one it holds. */
  lemma LocksStand(s: State, pc: Pc, ok: bool)
    ensures Effect(s, pc, ok).callers == s.callers && Effect(s, pc, ok).holders == s.holders
    ensures Holding(pc) && Holding(NextPc(s, pc, ok)) ==> NextPc(s, pc, ok).lock == pc.lock
    ensures !Holding(pc) && Holding(NextPc(s, pc, ok)) ==> NextPc(s, pc, ok).lock !in s.holders
  {
  }

  lemma CellsStand(s: State, started: bool, c: Caller, ok: bool)
    requires Inv(s, started) && c in s.callers
    ensures var t := StepCaller(s, c, ok);
            && (!t.recordsId ==> t.idKnown) && (t.recorded ==> Complete(t))
            && (Complete(t) ==> started || t.mints > 0)
            && (started ==> Complete(t) && t.mints == 0)
            && t.callers == s.callers[c := NextPc(s, s.callers[c], ok)]
  {
    hide HoldersOk;
    assert CallerOk(s, c, s.callers[c]);
    if InFlight(s.callers[c]) {
      assert SomeInFlight(s);
    }
  }

  lemma CallKeepsInv(s: State, started: bool, c: Caller)
    requires Inv(s, started)
    ensures Inv(Next(s, Call(c)), started)
  {
    var t := Next(s, Call(c));
    assert forall d | d in s.callers :: CallerOk(s, d, s.callers[d]) && CallerOk(t, d, s.callers[d]);
    assert SomeInFlight(s) <==> SomeInFlight(t) by {
      assert forall d | d in s.callers && InFlight(s.callers[d]) :: d in t.callers && InFlight(t.callers[d]);
    }
  }

  lemma {:induction false} RunKeepsInv(s: State, started: bool, actions: seq<Action>)
    requires Inv(s, started) && forall a <- actions :: !a.DropLock? && !a.DeleteSecret?
    ensures Inv(After(s, actions), started)
    decreases |actions|
  {
    hide Inv, Next;
    if actions != [] {
      StepKeepsInv(s, started, actions[0]);
      RunKeepsInv(Next(s, actions[0]), started, actions[1..]);
    }
  }

  lemma InitialInv(s: State)
    requires Initial(s)
    ensures Inv(s, Complete(s))
  {
  }

  /**
   * For any number of concurrent callers and any failures: upstream mints number at most one plus
   * the mints whose persisting failed, all successful callers return the key that is stored, and a
   * store that lacked one was minted for. With no failed persist that is exactly one mint.
   */
  lemma MintsAndAnswers(s: State, actions: seq<Action>)
    requires Initial(s) && forall a <- actions :: !a.DropLock? && !a.DeleteSecret?
    ensures var t := After(s, actions);
            && t.mints <= 1 + t.failedPersists
            && (Complete(s) ==> t.mints == 0)
            && (forall c, d | c in t.callers && d in t.callers && t.callers[c].Done? && t.callers[d].Done? ::
                  t.callers[c] == t.callers[d])
            && (forall c | c in t.callers && t.callers[c].Done? ::
                  t.secret == Some(t.callers[c].key) && (Complete(s) || t.mints >= 1))
  {
    hide Next;
    InitialInv(s);
    RunKeepsInv(s, Complete(s), actions);
    var t := After(s, actions);
    forall c | c in t.callers ensures CallerOk(t, c, t.callers[c]) {
    }
    if c :| c in t.callers && InFlight(t.callers[c]) {
      assert CallerOk(t, c, t.callers[c]);
    }
  }

  // ----- Forgetting -----

  lemma {:induction false} AfterAppend(s: State, a: seq<Action>, b: seq<Action>)
    ensures After(s, a + b) == After(After(s, a), b)
    decreases |a|
  {
    if a == [] {
      assert a + b == b;
    } else {
      assert (a + b)[1..] == a[1..] + b;
      AfterAppend(Next(s, a[0]), a[1..], b);
    }
  }

  function Steps(c: Caller, n: nat): seq<Action> {
    if n == 0 then [] else [Step(c, true)] + Steps(c, n - 1)
  }

  lemma StepsUnfold(s: State, c: Caller, n: nat)
    requires n > 0
    ensures After(s, Steps(c, n)) == After(Next(s, Step(c, true)), Steps(c, n - 1))
  {
    assert Steps(c, n)[1..] == Steps(c, n - 1);
  }

  lemma ReachesWaiting(s: State, c: Caller)
    requires c in s.callers && s.callers[c] == FastId && s.idKnown && s.secret.None? && s.registry.None?
    ensures After(s, Steps(c, 7)) ==
            After(s.(callers := s.callers[c := Waiting(s.nextLock)], registry := Some(s.nextLock), nextLock := s.nextLock + 1),
                  Steps(c, 4))
  {
    hide After, Steps;
    var s1 := s.(callers := s.callers[c := FastSecret]);
    var s2 := s.(callers := s.callers[c := Enter]);
    StepsUnfold(s, c, 7);
    assert Next(s, Step(c, true)) == s1;
    StepsUnfold(s1, c, 6);
    assert Next(s1, Step(c, true)) == s2;
    StepsUnfold(s2, c, 5);
    assert s2.callers[c := Waiting(s.nextLock)] == s.callers[c := Waiting(s.nextLock)];
  }

  lemma WaitingReachesMinting(s: State, c: Caller, lock: Lock)
    requires c in s.callers && s.callers[c] == Waiting(lock) && s.idKnown && s.secret.None? && lock !in s.holders
    ensures After(s, Steps(c, 4)) ==
            After(s.(callers := s.callers[c := Minting(lock)], holders := s.holders[lock := c]), Steps(c, 1))
  {
    hide After, Steps;
    var s4 := s.(callers := s.callers[c := HeldId(lock)], holders := s.holders[lock := c]);
    var s5 := s4.(callers := s.callers[c := HeldSecret(lock)]);
    var s6 := s4.(callers := s.callers[c := Minting(lock)]);
    StepsUnfold(s, c, 4);
    assert Next(s, Step(c, true)) == s4;
    StepsUnfold(s4, c, 3);
    assert Next(s4, Step(c, true)) == s5;
    StepsUnfold(s5, c, 2);
    assert Next(s5, Step(c, true)) == s6;
  }

  lemma WaitingReachesPutting(s: State, c: Caller, lock: Lock)
    requires c in s.callers && s.callers[c] == Waiting(lock) && s.idKnown && s.secret.None? && lock !in s.holders
    ensures After(s, Steps(c, 4)) ==
            s.(callers := s.callers[c := Putting(lock, s.nextKey)], holders := s.holders[lock := c],
               nextKey := s.nextKey + 1, mints := s.mints + 1)
  {
    hide After, Steps;
    WaitingReachesMinting(s, c, lock);
    var s6 := s.(callers := s.callers[c := Minting(lock)], holders := s.holders[lock := c]);
    StepsUnfold(s6, c, 1);
    NoSteps(Next(s6, Step(c, true)), c);
    assert s6.callers[c := Putting(lock, s.nextKey)] == s.callers[c := Putting(lock, s.nextKey)];
  }

  /** A lone caller with no secret and no lock registered gets as far as persisting a fresh key. */
  lemma ReachesPutting(s: State, c: Caller)
    requires c in s.callers && s.callers[c] == FastId && s.idKnown && s.secret.None? && s.registry.None? && s.nextLock !in s.holders
    ensures After(s, Steps(c, 7)) ==
            s.(callers := s.callers[c := Putting(s.nextLock, s.nextKey)], registry := Some(s.nextLock),
               holders := s.holders[s.nextLock := c], nextLock := s.nextLock + 1, nextKey := s.nextKey + 1, mints := s.mints + 1)
  {
    hide After, Steps;
    ReachesWaiting(s, c);
    var s3 := s.(callers := s.callers[c := Waiting(s.nextLock)], registry := Some(s.nextLock), nextLock := s.nextLock + 1);
    WaitingReachesPutting(s3, c, s.nextLock);
    assert s3.callers[c := Putting(s.nextLock, s.nextKey)] == s.callers[c := Putting(s.nextLock, s.nextKey)];
  }

  lemma NoSteps(s: State, c: Caller)
    ensures After(s, Steps(c, 0)) == s
  {
  }

  ghost predicate Disagree(s: State) {
    exists c, d :: c in s.callers && d in s.callers && s.callers[c].Done? && s.callers[d].Done? && s.callers[c] != s.callers[d]
  }

  function Forgetful(): seq<Action> {
    [Call(0)] + (Steps(0, 7) + ([DropLock, Call(1)] + (Steps(1, 7) + [Step(1, true), Step(0, true)])))
  }

  /** Two callers about to persist different keys both succeed. */
  lemma BothFinish(s: State)
    requires 0 in s.callers && 1 in s.callers && s.callers[0].Putting? && s.callers[1].Putting? && !s.recordsId
    requires s.callers[0].key != s.callers[1].key
    ensures Disagree(After(s, [Step(1, true), Step(0, true)]))
  {
    var a, b := Step(1, true), Step(0, true);
    var s1 := Next(s, a);
    var s2 := Next(s1, b);
    assert [a, b][1..] == [b] && [b][1..] == [];
    assert After(s, [a, b]) == After(s1, [b]) == After(s2, []) == s2;
    assert s2.callers[0] == Done(s.callers[0].key) && s2.callers[1] == Done(s.callers[1].key);
  }

  /** Forgetting drops the lock entry, so two callers can then hold two locks and return two keys. */
  lemma ForgettingSplitsCallers(s: State)
    requires Initial(s) && !s.recordsId && s.secret.None?
    ensures Disagree(After(s, Forgetful()))
  {
    hide Steps, Disagree;
    var finish := [Step(1, true), Step(0, true)];
    var s1 := Next(s, Call(0));
    AfterAppend(s, [Call(0)], Steps(0, 7) + ([DropLock, Call(1)] + (Steps(1, 7) + finish)));
    AfterAppend(s1, Steps(0, 7), [DropLock, Call(1)] + (Steps(1, 7) + finish));
    ReachesPutting(s1, 0);
    var s2 := After(s1, Steps(0, 7));
    AfterAppend(s2, [DropLock, Call(1)], Steps(1, 7) + finish);
    var s3 := Next(Next(s2, DropLock), Call(1));
    assert [DropLock, Call(1)][1..] == [Call(1)];
    AfterAppend(s3, Steps(1, 7), finish);
    ReachesPutting(s3, 1);
    BothFinish(After(s3, Steps(1, 7)));
  }

  // ----- Answers when the secret may be forgotten at any point -----

  /** A put lands after some caller was answered. */
  ghost predicate LatePut(s: State, a: Action) {
    && a.Step? && a.ok && a.caller in s.callers && s.callers[a.caller].Putting?
    && exists d :: d in s.callers && s.callers[d].Done?
  }

  ghost predicate NeverLatePut(s: State, actions: seq<Action>)
    decreases |actions|
  {
    actions == [] || (!LatePut(s, actions[0]) && NeverLatePut(Next(s, actions[0]), actions[1..]))
  }

  /** At every point of the run all answered callers hold one key. */
  ghost predicate AlwaysAgree(s: State, actions: seq<Action>)
    decreases |actions|
  {
    !Disagree(s) && (actions == [] || AlwaysAgree(Next(s, actions[0]), actions[1..]))
  }

  /** A key is older than the supply; a pending one is not stored, and a stored one is every answer. */
  predicate KeyOk(s: State, pc: Pc) {
    && !pc.Recording?
    && (pc.Putting? ==> pc.key < s.nextKey && s.secret != Some(pc.key))
    && (pc.Done? ==> pc.key < s.nextKey && (s.secret.Some? ==> s.secret.value == pc.key))
  }

  /** Pending keys are distinct, answers agree, and no pending key was answered. */
  predicate PairOk(a: Pc, b: Pc) {
    && (a.Putting? && b.Putting? ==> a.key != b.key)
    && (a.Putting? && b.Done? ==> a.key != b.key)
    && (a.Done? && b.Putting? ==> a.key != b.key)
    && (a.Done? && b.Done? ==> a.key == b.key)
  }

  ghost predicate KeysOk(s: State) {
    && !s.recordsId && s.idKnown && (s.secret.Some? ==> s.secret.value < s.nextKey)
    && (forall c | c in s.callers :: KeyOk(s, s.callers[c]))
    && (forall c, d | c in s.callers && d in s.callers && c != d :: PairOk(s.callers[c], s.callers[d]))
  }

  lemma StepKeyOk(s: State, c: Caller, ok: bool, d: Caller)
    requires KeysOk(s) && c in s.callers && d in s.callers && !LatePut(s, Step(c, ok))
    ensures KeyOk(StepCaller(s, c, ok), StepCaller(s, c, ok).callers[d])
  {
    assert KeyOk(s, s.callers[c]) && KeyOk(s, s.callers[d]);
    if d != c {
      assert PairOk(s.callers[c], s.callers[d]);
    }
  }

  lemma StepPairOk(s: State, c: Caller, ok: bool, d: Caller)
    requires KeysOk(s) && c in s.callers && d in s.callers && d != c && !LatePut(s, Step(c, ok))
    ensures PairOk(NextPc(s, s.callers[c], ok), s.callers[d]) && PairOk(s.callers[d], NextPc(s, s.callers[c], ok))
  {
    assert KeyOk(s, s.callers[c]) && KeyOk(s, s.callers[d]);
    assert PairOk(s.callers[c], s.callers[d]) && PairOk(s.callers[d], s.callers[c]);
  }

  lemma NextKeysOk(s: State, a: Action)
    requires KeysOk(s) && !LatePut(s, a)
    ensures KeysOk(Next(s, a))
  {
    hide KeyOk, PairOk, NextPc, LatePut;
    if a.Step? && a.caller in s.callers {
      var t := StepCaller(s, a.caller, a.ok);
      StepStoreOk(s, a.caller, a.ok);
      forall d | d in t.callers ensures KeyOk(t, t.callers[d]) {
        StepKeyOk(s, a.caller, a.ok, d);
      }
      forall d | d in s.callers && d != a.caller
        ensures PairOk(t.callers[a.caller], t.callers[d]) && PairOk(t.callers[d], t.callers[a.caller])
      {
        StepPairOk(s, a.caller, a.ok, d);
      }
    } else {
      OtherActionKeysOk(s, a);
    }
  }

  lemma StepStoreOk(s: State, c: Caller, ok: bool)
    requires KeysOk(s) && c in s.callers
    ensures var t := StepCaller(s, c, ok);
            !t.recordsId && t.idKnown && (t.secret.Some? ==> t.secret.value < t.nextKey)
  {
    assert KeyOk(s, s.callers[c]);
  }

  lemma OtherActionKeysOk(s: State, a: Action)
    requires KeysOk(s) && !(a.Step? && a.caller in s.callers)
    ensures KeysOk(Next(s, a))
  {
  }

  lemma AnswersAgree(s: State)
    requires KeysOk(s)
    ensures !Disagree(s)
  {
    forall c, d | c in s.callers && d in s.callers && s.callers[c].Done? && s.callers[d].Done?
      ensures s.callers[c] == s.callers[d]
    {
      assert c == d || PairOk(s.callers[c], s.callers[d]);
    }
  }

  /** The late put answers with a key nobody else was given. */
  lemma LatePutSplits(s: State, a: Action)
    requires KeysOk(s) && LatePut(s, a)
    ensures Disagree(Next(s, a))
  {
    var d :| d in s.callers && s.callers[d].Done?;
    assert PairOk(s.callers[a.caller], s.callers[d]);
    var t := Next(s, a);
    assert t.callers[a.caller] == Done(s.callers[a.caller].key) && t.callers[d] == s.callers[d];
  }

  lemma {:induction false} AgreeFrom(s: State, actions: seq<Action>)
    requires KeysOk(s)
    ensures AlwaysAgree(s, actions) <==> NeverLatePut(s, actions)
    decreases |actions|
  {
    hide KeysOk, Disagree, LatePut, Next;
    AnswersAgree(s);
    if actions != [] {
      if LatePut(s, actions[0]) {
        LatePutSplits(s, actions[0]);
        assert !AlwaysAgree(Next(s, actions[0]), actions[1..]);
      } else {
        NextKeysOk(s, actions[0]);
        AgreeFrom(Next(s, actions[0]), actions[1..]);
      }
    }
  }

  /**
   * Every caller ever answered is given the same secret, whatever is forgotten and when, if and only
   * if no put lands once some caller has been answered.
   */
  lemma AnswersAgreeIff(s: State, actions: seq<Action>)
    requires Initial(s) && !s.recordsId && (s.secret.Some? ==> s.secret.value < s.nextKey)
    ensures AlwaysAgree(s, actions) <==> NeverLatePut(s, actions)
  {
    AgreeFrom(s, actions);
  }

  // ----- A caller alone -----

  /** A failed store or upstream call answers nobody and ends its caller. */
  lemma FailedCallEndsCaller(s: State, c: Caller)
    requires c in s.callers && !s.callers[c].Enter? && !s.callers[c].Waiting? && !s.callers[c].Done?
    ensures Next(s, Step(c, false)).callers[c] == Failed
    ensures var t := Next(s, Step(c, false)); t.secret == s.secret && t.idKnown == s.idKnown && t.mints == s.mints
  {
  }

  /** Nobody holds the lock that is registered, or the one to be registered next. */
  predicate LockFree(s: State) {
    if s.registry.Some? then s.registry.value !in s.holders else s.nextLock !in s.holders
  }

  lemma {:induction false} DoneStays(s: State, c: Caller, n: nat)
    requires c in s.callers && s.callers[c].Done?
    ensures After(s, Steps(c, n)) == s
  {
    hide Steps;
    if n > 0 {
      StepsUnfold(s, c, n);
      assert Next(s, Step(c, true)) == s by {
        assert s.callers[c := s.callers[c]] == s.callers;
      }
      DoneStays(s, c, n - 1);
    } else {
      NoSteps(s, c);
    }
  }

  /** What a caller alone is given: the stored key if there is one, otherwise a key minted, stored and recorded for it. */
  ghost predicate Answered(s: State, t: State, c: Caller) {
    && c in t.callers && t.callers[c].Done? && t.idKnown && t.secret == Some(t.callers[c].key)
    && (Complete(s) ==> t.secret == s.secret && t.mints == s.mints)
    && (!Complete(s) ==> t.callers[c].key == s.nextKey && t.mints == s.mints + 1 && t.recorded)
  }

  lemma FinishesFromMinting(s: State, c: Caller, n: nat, was: State)
    requires c in s.callers && s.callers[c].Minting? && n >= 3 && (!s.recordsId ==> s.idKnown)
    requires !Complete(was) && s.nextKey == was.nextKey && s.mints == was.mints
    ensures Answered(was, After(s, Steps(c, n)), c)
  {
    hide Steps, After;
    var s1 := Next(s, Step(c, true));
    var s2 := Next(s1, Step(c, true));
    StepsUnfold(s, c, n);
    StepsUnfold(s1, c, n - 1);
    if s.recordsId {
      StepsUnfold(s2, c, n - 2);
      DoneStays(Next(s2, Step(c, true)), c, n - 3);
    } else {
      DoneStays(s2, c, n - 2);
    }
  }

  lemma FinishesFromEnter(s: State, c: Caller, n: nat, was: State)
    requires c in s.callers && s.callers[c].Enter? && n >= 7 && (!s.recordsId ==> s.idKnown) && LockFree(s)
    requires !Complete(s) && !Complete(was) && s.nextKey == was.nextKey && s.mints == was.mints
    ensures Answered(was, After(s, Steps(c, n)), c)
  {
    hide Steps, After, Answered;
    var s1 := Next(s, Step(c, true));
    var s2 := Next(s1, Step(c, true));
    var s3 := Next(s2, Step(c, true));
    StepsUnfold(s, c, n);
    StepsUnfold(s1, c, n - 1);
    StepsUnfold(s2, c, n - 2);
    if s.idKnown {
      StepsUnfold(s3, c, n - 3);
      FinishesFromMinting(Next(s3, Step(c, true)), c, n - 4, was);
    } else {
      FinishesFromMinting(s3, c, n - 3, was);
    }
  }

  /** With the lock free and every call succeeding, a caller is answered within nine steps. */
  lemma LoneCallerIsAnswered(s: State, c: Caller)
    requires c in s.callers && s.callers[c] == FastId && LockFree(s) && (!s.recordsId ==> s.idKnown)
    ensures Answered(s, After(s, Steps(c, 9)), c)
  {
    hide Steps, After, Answered;
    var s1 := Next(s, Step(c, true));
    StepsUnfold(s, c, 9);
    if s.idKnown {
      var s2 := Next(s1, Step(c, true));
      StepsUnfold(s1, c, 8);
      if s.secret.Some? {
        DoneStays(s2, c, 7);
        AnsweredAtOnce(s, s2, c);
      } else {
        FinishesFromEnter(s2, c, 7, s);
      }
    } else {
      FinishesFromEnter(s1, c, 8, s);
    }
  }

  lemma AnsweredAtOnce(s: State, t: State, c: Caller)
    requires c in t.callers && s.secret.Some? && t.callers[c] == Done(s.secret.value)
    requires Complete(s) && t.idKnown && t.secret == s.secret && t.mints == s.mints
    ensures Answered(s, t, c)
  {
  }
}
