/** Waiting for a sandbox to go idle before rotating it (crates/core/src/instance.rs). */
module IdleGate {
  const POLL_INTERVAL: nat := 30000
  const MAX_WAIT: nat := 300000

  /** One round: the sandbox is busy, a turn slipped in before the latch, the latch is ours, or a call failed. */
  datatype Reply = Busy | SlippedIn | Latched | CallFailed

  datatype Gate = Quiesced | Ungated | TimedOut

  predicate KeepsWaiting(r: Reply) {
    r == Busy || r == SlippedIn
  }

  /** How a wait ends that is at round `i` after `elapsed` milliseconds. */
  function GateFrom(replies: nat -> Reply, took: nat -> nat, i: nat, elapsed: nat): Gate
    decreases if elapsed < MAX_WAIT + POLL_INTERVAL then MAX_WAIT + POLL_INTERVAL - elapsed else 0
  {
    match replies(i)
    case Latched => Quiesced
    case CallFailed => Ungated
    case Busy | SlippedIn =>
      if elapsed + took(i) >= MAX_WAIT then TimedOut
      else GateFrom(replies, took, i + 1, elapsed + took(i) + POLL_INTERVAL)
  }

  function GateOf(replies: nat -> Reply, took: nat -> nat): Gate {
    GateFrom(replies, took, 0, 0)
  }

  /**
   * Milliseconds; `took(i)` is how long round `i` takes. The wait ends within eleven rounds, the
   * timeout is reached only when no round took the latch, and never before the whole wait is over.
   */
  method WaitForIdle(replies: nat -> Reply, took: nat -> nat) returns (gate: Gate, rounds: nat, elapsed: nat)
    ensures gate == GateOf(replies, took)
    ensures 0 < rounds <= 11
    ensures forall i | 0 <= i < rounds - 1 :: KeepsWaiting(replies(i))
    ensures gate == Quiesced <==> replies(rounds - 1) == Latched
    ensures gate == Ungated <==> replies(rounds - 1) == CallFailed
    ensures gate == TimedOut ==> elapsed >= MAX_WAIT && forall i | 0 <= i < rounds :: KeepsWaiting(replies(i))
    ensures gate == TimedOut && (forall i :: took(i) == 0) ==> rounds == 11
  {
    rounds, elapsed := 0, 0;
    while true
      invariant rounds <= 10 && POLL_INTERVAL * rounds <= elapsed
      invariant rounds > 0 ==> elapsed < MAX_WAIT + POLL_INTERVAL
      invariant (forall i :: took(i) == 0) ==> elapsed == POLL_INTERVAL * rounds
      invariant forall i | 0 <= i < rounds :: KeepsWaiting(replies(i))
      invariant GateOf(replies, took) == GateFrom(replies, took, rounds, elapsed)
      decreases 11 - rounds
    {
      var reply := replies(rounds);
      elapsed := elapsed + took(rounds);
      rounds := rounds + 1;
      match reply {
        case Latched => return Quiesced, rounds, elapsed;
        case CallFailed => return Ungated, rounds, elapsed;
        case Busy | SlippedIn =>
      }
      if elapsed >= MAX_WAIT {
        return TimedOut, rounds, elapsed;
      }
      elapsed := elapsed + POLL_INTERVAL;
    }
  }

  /** The gate calls that took effect on a sandbox, in order. */
  datatype Call = Quiesce(sandbox: nat) | Unquiesce(sandbox: nat)

  /** A sandbox is left latched when the last call to it was a quiesce. */
  predicate LeftLatched(calls: seq<Call>, s: nat) {
    if calls == [] then false else
    var last := calls[|calls| - 1];
    if last.sandbox == s then last.Quiesce? else LeftLatched(calls[..|calls| - 1], s)
  }
}

/**
 * One instance under a sequence of whole operations: create, restore, the four in-place swaps and
 * the runtime sweep (crates/core/src/instance.rs), with a configured reconfigurer. Every backend
 * call may fail; a push that is not acknowledged may still have been applied.
 */
module InstanceService {
  import opened Wrappers
  import opened SwapProtocol
  import opened KeyFiles
  import Replay
  import Retry
  import IdleGate

  /** How a swap ended: nothing done, the call that failed before the row was repointed, after it, or success. */
  datatype Exit =
    | Refused | NotIdle | TokenError | NotCreated | BindFailed | ReplayFailed | CommitFailed | AfterSwap | Done

  /** The failures after which a rotation owes its quiesced sandbox an unquiesce. */
  predicate OwesResume(exit: Exit) {
    exit == NotCreated || exit == BindFailed || exit == ReplayFailed || exit == CommitFailed
  }

  predicate Repointed(exit: Exit) {
    exit == AfterSwap || exit == Done
  }

  /** What ends a run that fails where it stands. */
  function ExitOf(r: Run): Exit {
    match r.phase
    case Planned => NotCreated
    case Unbound => BindFailed
    case Preconfigured | Replaying => ReplayFailed
    case Bound => if r.mirror then ReplayFailed else CommitFailed
    case Configured => CommitFailed
    case _ => AfterSwap
  }

  ghost predicate OthersEnded(w: World, g: Generation) {
    forall h | h in w.runs && h != g :: w.runs[h].phase == Ended
  }

  ghost predicate AllEnded(w: World) {
    forall h | h in w.runs :: w.runs[h].phase == Ended
  }

  lemma IdleWindow(w: World)
    requires AllEnded(w)
    ensures WindowOk(w) <==> LiveIsConfigured(w)
  {
  }

  /** Everything but the runs, the files, what was sent and what was accepted is as before. */
  predicate SameRow(w: World, v: World) {
    && v.row == w.row && v.names == w.names && v.gens == w.gens
    && w.nextSandbox <= v.nextSandbox && w.nextGeneration <= v.nextGeneration
  }

  /** The phase an acknowledged push leads to. */
  function Acknowledged(r: Run): Phase {
    if r.phase == Bound then Preconfigured else if r.phase == Committed then Confirmed else Configured
  }

  predicate ExpectsPush(r: Run) {
    && r.target.Some?
    && ((r.phase == Bound && r.mirror && r.kind != Rotate) || r.phase == Committed || (r.phase == Replaying && Replayed(r)))
  }

  /**
   * One swap: the world it began in, the generation it minted, the files its sandbox boots with and
   * what the mirror's rows amounted to when it began.
   */
  datatype Swap = Swap(was: World, g: Generation, kind: Kind, mirror: bool, image: Replay.Files, items: seq<Replay.Item>)

  /** What the new sandbox holds at the cutover. */
  function Expected(p: Swap): Replay.Files {
    if p.mirror then Replay.Fold(p.image, p.items) else p.image
  }

  /** Every step keeps these. */
  ghost predicate Kept(w: World) {
    Base(w) && WindowOk(w) && FilesOk(w)
  }

  /** The swap is the only one under way and has not repointed the row. */
  ghost predicate Swapping(p: Swap, w: World) {
    && Kept(w) && SameRow(p.was, w) && OthersEnded(w, p.g) && p.was.row.Some?
    && p.g in w.runs && p.g == p.was.nextGeneration
    && w.runs[p.g].kind == p.kind && w.runs[p.g].mirror == p.mirror && w.runs[p.g].source == p.was.row.value.sandbox
    && (w.runs[p.g].target.Some? ==> w.runs[p.g].target.value == p.was.nextSandbox && w.runs[p.g].image == p.image)
    && (w.runs[p.g].listing.Some? ==> w.runs[p.g].listing == Some(p.items))
    && w.doomed == p.was.doomed
    && w.runs[p.g].phase in {Planned, Unbound, Bound, Preconfigured, Replaying, Configured}
  }

  ghost predicate SwappingAt(p: Swap, w: World, phase: Phase) {
    && Swapping(p, w)
    && w.runs[p.g].phase == phase && (phase == Planned <==> w.nextSandbox == p.was.nextSandbox)
    && (phase != Planned ==> w.runs[p.g].target.Some?)
  }

  /** A run that would end with `exit` if its next call failed. */
  ghost predicate Failing(p: Swap, w: World, exit: Exit) {
    Swapping(p, w) && ExitOf(w.runs[p.g]) == exit
  }

  /** The row took on the next sandbox and the next generation, and nothing else. */
  predicate Appended(was: World, w: World) {
    w.names == was.names + [was.nextSandbox] && w.gens == was.gens + [was.nextGeneration]
  }

  /** The effect of a swap, told from the row before and after it. */
  ghost predicate SwapEffect(p: Swap, w: World, exit: Exit) {
    match exit
    // A sandbox that was created but not bound is left behind, and so is one a recreate could not commit.
    case Refused | NotIdle | TokenError | NotCreated | BindFailed =>
      w.row == p.was.row && w.names == p.was.names && w.gens == p.was.gens && w.doomed == p.was.doomed
    case ReplayFailed | CommitFailed =>
      && w.row == p.was.row && w.names == p.was.names && w.gens == p.was.gens
      && w.doomed == if exit == CommitFailed && p.kind == Recreate then p.was.doomed else p.was.doomed + {p.was.nextSandbox}
    case AfterSwap =>
      && w.row == Some(Row(Some(p.was.nextSandbox), p.was.nextGeneration, Configuring)) && Appended(p.was, w)
      && w.doomed == p.was.doomed && (p.mirror ==> RowConfigured(w)) && Carried(p, w)
    case Done =>
      && w.row == Some(Row(Some(p.was.nextSandbox), p.was.nextGeneration, Live)) && RowConfigured(w) && Appended(p.was, w)
      && w.doomed == p.was.doomed + SetOf(NamedBy(p.was)) && Carried(p, w)
  }

  /** The new sandbox holds its image with the whole mirror replayed over it, and every row was admitted. */
  ghost predicate Carried(p: Swap, w: World) {
    && FilesOf(w, p.was.nextSandbox) == Expected(p)
    && (p.mirror ==> forall item <- p.items :: Admitted(p.kind, item))
  }

  /** As `Swapping`, after the run has repointed the row. */
  ghost predicate Swapped(p: Swap, w: World) {
    && Kept(w) && OthersEnded(w, p.g) && p.was.row.Some?
    && p.g in w.runs && p.g == p.was.nextGeneration
    && w.runs[p.g].mirror == p.mirror && w.runs[p.g].source == p.was.row.value.sandbox && w.runs[p.g].target == Some(p.was.nextSandbox)
    && w.row == Some(Row(Some(p.was.nextSandbox), p.g, Configuring)) && Appended(p.was, w)
    && w.doomed == p.was.doomed && Carried(p, w)
    && (w.runs[p.g].phase == Confirmed ==> RowConfigured(w))
  }

  /** Before its listing a new sandbox holds its image, and after the last row the whole replay. */
  lemma ImageHeld(p: Swap, w: World)
    requires Swapping(p, w) && w.runs[p.g].target.Some? && (w.runs[p.g].phase == Bound || w.runs[p.g].phase == Preconfigured)
    ensures FilesOf(w, p.was.nextSandbox) == p.image
  {
    hide HistoryOk, RunsOk, WindowOk, Replay.Fold;
    RunOf(w, p.g);
    assert RunFilesOk(w, w.runs[p.g]);
  }

  lemma AllHeld(p: Swap, w: World)
    requires SwappingAt(p, w, Replaying) && Replayed(w.runs[p.g])
    ensures FilesOf(w, p.was.nextSandbox) == Replay.Fold(p.image, p.items)
  {
    hide Base, WindowOk, Replay.Fold;
    assert RunFilesOk(w, w.runs[p.g]);
    assert p.items[..|p.items|] == p.items;
  }

  lemma CarriedStays(p: Swap, w: World, v: World)
    requires Carried(p, w) && v.files == w.files
    ensures Carried(p, v)
  {
  }

  /** A run about to commit has replayed everything it listed. */
  lemma ReadyIsCarried(p: Swap, w: World)
    requires SwappingAt(p, w, if p.mirror then Configured else Bound)
    ensures Carried(p, w)
  {
    hide HistoryOk, RunsOk, WindowOk, Replay.Fold, Distinct;
    RunOf(w, p.g);
    assert RunFilesOk(w, w.runs[p.g]);
    if p.mirror {
      assert p.items[..|p.items|] == p.items;
    }
  }

  lemma CommitSwaps(p: Swap, w: World)
    requires SwappingAt(p, w, if p.mirror then Configured else Bound) && Carried(p, w)
    ensures Guard(w, Commit(p.g))
    ensures Kept(Next(w, Commit(p.g))) ==> Swapped(p, Next(w, Commit(p.g)))
    ensures Next(w, Commit(p.g)).runs[p.g].phase == if p.mirror then Confirmed else Committed
  {
    hide HistoryOk, WindowOk, RunsOk, Replayed, Distinct, FilesOk, Expected;
    RunOf(w, p.g);
  }

  class Service {
    const owner: string
    const instance: string
    var w: World
    /** The key directory, and the instance's mirror rows as the store lists them. */
    var disk: Disk
    var rows: seq<Replay.MirrorRow>
    /** Gate calls that took effect. */
    var calls: seq<IdleGate.Call>

    ghost predicate Valid()
      reads this
    {
      Base(w) && LiveIsConfigured(w) && AllEnded(w) && FilesOk(w) && Keyed()
    }

    ghost predicate Keyed()
      reads this
    {
      WellKeyed(disk) && Replay.AllKnown(disk, rows)
    }

    constructor (owner: string, instance: string, disk: Disk, rows: seq<Replay.MirrorRow>)
      requires WellKeyed(disk) && Replay.AllKnown(disk, rows)
      ensures Valid() && this.owner == owner && this.instance == instance && this.disk == disk && this.rows == rows
      ensures Unused(w) && calls == [] && forall s: Sandbox :: !IdleGate.LeftLatched(calls, s)
    {
      this.owner, this.instance, this.disk, this.rows := owner, instance, disk, rows;
      w := World(None, map[], {}, {}, {}, map[], [], [], 0, 0);
      calls := [];
    }

    /** The mirror rows change between operations, as the instance's files are ingested. */
    method Mirror(rows: seq<Replay.MirrorRow>)
      requires Valid() && Replay.AllKnown(disk, rows)
      modifies this`rows
      ensures Valid() && this.rows == rows
    {
      this.rows := rows;
    }

    method Step(a: Action)
      requires Kept(w) && Guard(w, a)
      modifies this`w
      ensures w == Next(old(w), a) && Kept(w)
    {
      StepKeepsBase(w, a);
      StepKeepsWindow(w, a);
      StepKeepsFiles(w, a);
      w := Next(w, a);
    }

    /** Up to twelve attempts, fewer when a failure is final; the row and every other run are left alone. */
    method PushWithRetry(g: Generation) returns (ok: bool)
      requires Kept(w) && g in w.runs && ExpectsPush(w.runs[g])
      modifies this`w
      ensures Kept(w) && SameRow(old(w), w) && w.doomed == old(w).doomed && w.files == old(w).files
      ensures w.nextSandbox == old(w).nextSandbox && old(w).accepted <= w.accepted
      ensures var r := old(w).runs[g];
              w.runs == old(w).runs[g := r.(phase := if ok then Acknowledged(r) else r.phase)]
    {
      hide Kept;
      var attempt := 0;
      assert old(w).runs == old(w).runs[g := old(w).runs[g].(phase := old(w).runs[g].phase)];
      while attempt < Retry.ATTEMPTS
        invariant Kept(w) && SameRow(old(w), w) && w.doomed == old(w).doomed && w.files == old(w).files
        invariant w.nextSandbox == old(w).nextSandbox && old(w).accepted <= w.accepted
        invariant w.runs == old(w).runs
      {
        var reply: Retry.Reply, applied := *, *;
        Step(Push(g, applied, reply == Retry.Accepted));
        if reply == Retry.Accepted {
          return true;
        }
        if reply == Retry.Fatal {
          return false;
        }
        attempt := attempt + 1;
      }
      return false;
    }

    /** Reads the row and mints a generation. */
    method Plan(kind: Kind, mirror: bool, image: Replay.Files, items: seq<Replay.Item>) returns (ghost p: Swap, g: Generation)
      requires Valid() && CanBegin(w, kind, mirror)
      modifies this`w
      ensures g == old(w).nextGeneration && p == Swap(old(w), g, kind, mirror, image, items)
      ensures SwappingAt(p, w, Planned) && Failing(p, w, NotCreated)
    {
      hide Base, WindowOk, FilesOk;
      g := w.nextGeneration;
      p := Swap(w, g, kind, mirror, image, items);
      IdleWindow(w);
      Step(Begin(kind, mirror));
    }

    method Provision(ghost p: Swap, g: Generation, image: Replay.Files)
      requires SwappingAt(p, w, Planned) && p.g == g && p.image == image
      modifies this`w
      ensures SwappingAt(p, w, Unbound) && Failing(p, w, BindFailed)
    {
      hide Kept;
      Step(CreateSandbox(g, image));
    }

    method BindTokens(ghost p: Swap, g: Generation)
      requires SwappingAt(p, w, Unbound) && p.g == g
      modifies this`w
      ensures SwappingAt(p, w, Bound) && Failing(p, w, if p.mirror then ReplayFailed else CommitFailed)
    {
      hide Kept;
      Step(Bind(g));
    }

    method List(ghost p: Swap, g: Generation, items: seq<Replay.Item>)
      requires p.mirror && p.g == g && p.items == items
      requires SwappingAt(p, w, if p.kind == Rotate then Bound else Preconfigured)
      modifies this`w
      ensures SwappingAt(p, w, Replaying) && w.runs[g].listing == Some(items) && w.runs[g].restored == 0
    {
      hide Kept;
      Step(ListRows(g, items));
    }

    /** Counts off the first `done` rows, all of which passed. */
    method Restore(ghost p: Swap, g: Generation, done: nat)
      requires SwappingAt(p, w, Replaying) && p.g == g && done <= |p.items| && Replay.AllPass(p.items[..done], Lenient(p.kind))
      requires w.runs[g].listing == Some(p.items) && w.runs[g].restored == 0
      modifies this`w
      ensures SwappingAt(p, w, Replaying) && w.runs[g].listing == Some(p.items) && w.runs[g].restored == done
    {
      hide Kept, Replay.Put;
      for k := 0 to done
        invariant SwappingAt(p, w, Replaying) && w.runs[g].listing == Some(p.items) && w.runs[g].restored == k
      {
        assert p.items[..done][k] == p.items[k];
        Step(RestoreRow(g, true, true));
      }
    }

    /** Lists the mirror and replays its rows into the new sandbox, leniently in every swap but a recreate. */
    method ReplayRows(ghost p: Swap, g: Generation, kind: Kind, target: Sandbox, items: seq<Replay.Item>)
      returns (ok: bool, why: Option<Replay.ReplayError>)
      requires p.mirror && p.g == g && p.kind == kind && p.items == items && p.was.nextSandbox == target
      requires SwappingAt(p, w, if kind == Rotate then Bound else Preconfigured)
      requires Keyed() && items == Replay.Items(owner, instance, disk, rows)
      modifies this`w, this`disk
      ensures SwappingAt(p, w, Replaying) && (ok ==> Replayed(w.runs[g]))
      ensures Keyed()
      ensures (ok <==> why.None?) && Explains(why, owner, instance, old(disk), rows, kind)
    {
      hide Kept, Replay.Items, Replay.Fold, WellKeyed, Extends, RunFilesOk, Replay.Told, Replay.Histories, Replay.Blocked, Replay.NoneBlocked;
      ImageHeld(p, w);
      var replayer := new Replay.Replayer(disk, FilesOf(w, target));
      List(p, g, items);
      var r := replayer.ReplayStateFiles(owner, instance, rows, Lenient(kind), true);
      KnownLater(disk, replayer.disk, rows);
      disk := replayer.disk;
      Replay.ItemsAt(owner, instance, old(disk), rows);
      assert items[..|items|] == items;
      Restore(p, g, if r.Ok? then |rows| else r.error.at);
      if r.Ok? {
        AllHeld(p, w);
        assert FilesOf(w, target) == replayer.files;
      }
      return r.Ok?, if r.Ok? then None else Some(r.error);
    }

    method Preconfigure(ghost p: Swap, g: Generation) returns (ok: bool)
      requires SwappingAt(p, w, Bound) && p.mirror && p.kind != Rotate && p.g == g
      modifies this`w
      ensures SwappingAt(p, w, if ok then Preconfigured else Bound)
    {
      hide Kept;
      ok := PushWithRetry(g);
    }

    method FinalConfigure(ghost p: Swap, g: Generation) returns (ok: bool)
      requires SwappingAt(p, w, Replaying) && Replayed(w.runs[p.g]) && p.g == g
      modifies this`w
      ensures SwappingAt(p, w, if ok then Configured else Replaying)
    {
      hide Kept;
      ok := PushWithRetry(g);
    }

    /** The replay of every listed row between a configure without credentials and one with them. */
    method ReplayAndConfigure(ghost p: Swap, g: Generation, kind: Kind, target: Sandbox, items: seq<Replay.Item>)
      returns (ok: bool, why: Option<Replay.ReplayError>)
      requires p.mirror && p.g == g && p.kind == kind && p.items == items && p.was.nextSandbox == target
      requires SwappingAt(p, w, Bound) && Keyed() && items == Replay.Items(owner, instance, disk, rows)
      modifies this`w, this`disk
      ensures Failing(p, w, if ok then CommitFailed else ReplayFailed) && Keyed()
      ensures ok ==> SwappingAt(p, w, Configured) && Carried(p, w)
      ensures (ok ==> why.None?) && Explains(why, owner, instance, old(disk), rows, kind)
    {
      hide Kept, Replayed, Carried, Replay.Items, WellKeyed, Replay.Blocked;
      why := None;
      if kind != Rotate {
        ok := Preconfigure(p, g);
        if !ok {
          return;
        }
      }
      var listingFailed := *;
      if listingFailed {
        return false, None;
      }
      ok, why := ReplayRows(p, g, kind, target, items);
      if ok {
        ok := FinalConfigure(p, g);
        if ok {
          ReadyIsCarried(p, w);
        }
      }
    }

    /** Ends a run before it has created anything. */
    method Drop(ghost p: Swap, g: Generation)
      requires SwappingAt(p, w, Planned) && p.g == g && Keyed()
      modifies this`w
      ensures Valid() && SwapEffect(p, w, NotIdle) && SwapEffect(p, w, TokenError)
    {
      hide Base, WindowOk, FilesOk, WellKeyed;
      Step(Fail(g));
      IdleWindow(w);
    }

    /** Ends a run that has not repointed the row, and cleans up after it where the source does. */
    method Abort(ghost p: Swap, g: Generation, ghost exit: Exit)
      requires Failing(p, w, exit) && p.g == g && Keyed()
      modifies this`w
      ensures Valid() && SwapEffect(p, w, exit)
    {
      hide Base, WindowOk, FilesOk, WellKeyed;
      BoundRuns(w, g);
      Step(Fail(g));
      if w.runs[g].phase == Discarding {
        Step(Discard(g));
      }
      IdleWindow(w);
    }

    /** Ends a run that has repointed the row but not marked it live. */
    method GiveUp(ghost p: Swap, g: Generation)
      requires Swapped(p, w) && p.g == g && Keyed()
      requires InWindow(w.runs[g]) && (p.mirror ==> w.runs[g].phase == Confirmed)
      modifies this`w
      ensures Valid() && SwapEffect(p, w, AfterSwap)
    {
      hide Base, WindowOk, FilesOk, WellKeyed, Expected;
      Step(Fail(g));
      IdleWindow(w);
    }

    /** Whether the mirror is authoritative: always in a reset, when configured in a recreate, when it holds anything otherwise. */
    method DecideMirror(kind: Kind, stateFiles: bool) returns (mirror: bool)
      requires Valid()
      modifies this`disk
      ensures Valid() && Extends(old(disk), disk)
      ensures mirror == UsesMirror(kind, stateFiles, Replay.Items(owner, instance, old(disk), rows))
    {
      hide Base, WellKeyed, Extends, Replay.Items;
      Replay.ExtendsSelf(disk);
      var hasRows := false;
      if stateFiles && (kind == Rotate || kind == RestoreSnapshot) {
        var replayer := new Replay.Replayer(disk, map[]);
        hasRows := replayer.HasDurableMirroredStateFiles(instance, rows);
        KnownLater(disk, replayer.disk, rows);
        disk := replayer.disk;
      }
      return kind == Reset || (stateFiles && (kind == Recreate || hasRows));
    }

    /**
     * One in-place swap. `image` is what the new sandbox boots with; `replies` and `took` are the idle
     * polls of a rotation. Success moves the row to a fresh sandbox and generation, configured and
     * Live, holding its image with the mirror replayed over it; a recreate then found every durable
     * live row readable. A failure leaves the row as it was or, once repointed, Configuring. The new
     * sandbox is destroyed exactly after a failed replay, or a failed commit but a recreate's. A
     * rotation that quiesced its sandbox resumes it on every failure before the swap but a token error.
     */
    method InPlaceSwap(kind: Kind, stateFiles: bool, image: Replay.Files, replies: nat -> IdleGate.Reply, took: nat -> nat)
      returns (exit: Exit, quiesced: bool, why: Option<Replay.ReplayError>)
      requires Valid()
      modifies this`w, this`disk, this`calls
      ensures Valid()
      ensures var items := Replay.Items(owner, instance, old(disk), rows);
              var mirror := UsesMirror(kind, stateFiles, items);
              SwapEffect(Swap(old(w), old(w).nextGeneration, kind, mirror, image, items), w, exit)
      ensures exit != Refused ==> old(w).row.Some? && old(w).row.value.status != Destroyed && (kind != RestoreSnapshot ==> NamedBy(old(w)).Some?)
      // What the new sandbox holds, and what stopped the replay.
      ensures Repointed(exit) ==> CarriedOver(kind, stateFiles, owner, instance, old(disk), rows, image, FilesOf(w, old(w).nextSandbox))
      ensures (why.Some? ==> exit == ReplayFailed) && Explains(why, owner, instance, old(disk), rows, kind)
      // The latch: taken exactly when the idle wait of a rotation ends with it, and given back on every exit that owes it.
      ensures exit == NotIdle <==> kind == Rotate && exit != Refused && IdleGate.GateOf(replies, took) == IdleGate.TimedOut
      ensures quiesced <==> kind == Rotate && exit != Refused && IdleGate.GateOf(replies, took) == IdleGate.Quiesced
      ensures quiesced ==> NamedBy(old(w)).Some?
      ensures calls == old(calls) + GateCalls(NamedBy(old(w)), quiesced, exit)
      ensures LatchesAfter(old(calls), calls, NamedBy(old(w)), quiesced, exit)
    {
      hide Base, WindowOk, SwappingAt, Failing, SwapEffect, AllEnded, LiveIsConfigured, FilesOk, WellKeyed, Extends, Replay.Items, IdleGate.GateOf, UsesMirror, CarriedOver, Explains, Replay.AllKnown, LatchesAfter;
      quiesced, why := false, None;
      NothingToExplain(owner, instance, disk, rows, kind);
      var items := Replay.Items(owner, instance, disk, rows);
      var mirror := DecideMirror(kind, stateFiles);
      ItemsAgree(owner, instance, old(disk), disk, rows);
      var rejected := *;
      if rejected || !CanBegin(w, kind, mirror) {
        NothingSwapped(Swap(w, w.nextGeneration, kind, mirror, image, items), w);
        LatchesTold(calls, NamedBy(w), false, Refused);
        return Refused, quiesced, None;
      }
      var source, target := NamedBy(w), w.nextSandbox;
      ghost var before := disk;
      var p, g := Plan(kind, mirror, image, items);
      if kind == Rotate {
        var gate, _, _ := IdleGate.WaitForIdle(replies, took);
        if gate == IdleGate.TimedOut {
          Drop(p, g);
          LatchesTold(calls, source, false, NotIdle);
          return NotIdle, quiesced, None;
        }
        if gate == IdleGate.Quiesced {
          quiesced := true;
          calls := calls + [IdleGate.Quiesce(source.value)];
        }
      }
      exit, why := Proceed(p, g, kind, stateFiles, mirror, image, target, items, source, quiesced);
      SwapTold(p, w, exit, owner, instance, old(disk), rows, stateFiles);
      ExplainedBefore(why, owner, instance, old(disk), before, rows, kind);
      LatchesTold(old(calls), source, quiesced, exit);
    }

    /** From the idle gate on. */
    method Proceed(ghost p: Swap, g: Generation, kind: Kind, stateFiles: bool, mirror: bool, image: Replay.Files,
                   target: Sandbox, items: seq<Replay.Item>, source: Option<Sandbox>, quiesced: bool)
      returns (exit: Exit, why: Option<Replay.ReplayError>)
      requires p.g == g && p.kind == kind && p.mirror == mirror && p.image == image && p.items == items && p.was.nextSandbox == target
      requires SwappingAt(p, w, Planned) && Failing(p, w, NotCreated) && Keyed()
      requires items == Replay.Items(owner, instance, disk, rows) && (quiesced ==> source.Some?)
      modifies this`w, this`disk, this`calls
      ensures Valid() && SwapEffect(p, w, exit) && exit != Refused && exit != NotIdle
      ensures calls == old(calls) + if quiesced && OwesResume(exit) then [IdleGate.Unquiesce(source.value)] else []
      ensures quiesced && OwesResume(exit) ==> !IdleGate.LeftLatched(calls, source.value)
      ensures (why.Some? ==> exit == ReplayFailed) && Explains(why, owner, instance, old(disk), rows, kind)
    {
      hide SwappingAt, Failing, SwapEffect, Replay.Items, Replay.AllKnown, WellKeyed, Base, AllEnded, LiveIsConfigured, FilesOk, Carried, Replay.Blocked;
      why := None;
      var listingFailed, snapshotFailed, tokensFailed, createFailed := *, *, *, *;
      if (kind == Rotate || kind == RestoreSnapshot) && stateFiles && listingFailed {
        Resume(source, quiesced);
        Abort(p, g, NotCreated);
        return NotCreated, why;
      }
      if kind == Rotate && snapshotFailed {
        Resume(source, quiesced);
        Abort(p, g, NotCreated);
        return NotCreated, why;
      }
      if tokensFailed {
        Drop(p, g);
        return TokenError, why;
      }
      if createFailed {
        Resume(source, quiesced);
        Abort(p, g, NotCreated);
        return NotCreated, why;
      }
      Provision(p, g, image);
      var bindFailed := *;
      if bindFailed {
        Resume(source, quiesced);
        Abort(p, g, BindFailed);
        return BindFailed, why;
      }
      BindTokens(p, g);
      if mirror {
        var ok;
        ok, why := ReplayAndConfigure(p, g, kind, target, items);
        if !ok {
          Resume(source, quiesced);
          Abort(p, g, ReplayFailed);
          return ReplayFailed, why;
        }
      }
      var commitFailed := *;
      if commitFailed {
        Resume(source, quiesced);
        Abort(p, g, CommitFailed);
        return CommitFailed, why;
      }
      exit := Cutover(p, g, mirror);
    }

    /** Tells a sandbox that was quiesced to take turns again. */
    method Resume(source: Option<Sandbox>, quiesced: bool)
      requires quiesced ==> source.Some?
      modifies this`calls
      ensures calls == old(calls) + if quiesced then [IdleGate.Unquiesce(source.value)] else []
      ensures quiesced ==> !IdleGate.LeftLatched(calls, source.value)
    {
      if quiesced {
        calls := calls + [IdleGate.Unquiesce(source.value)];
      }
    }

    method CommitRow(ghost p: Swap, g: Generation)
      requires SwappingAt(p, w, if p.mirror then Configured else Bound) && p.g == g
      modifies this`w
      ensures Swapped(p, w) && w.runs[g].phase == if p.mirror then Confirmed else Committed
    {
      hide Kept, Carried;
      ReadyIsCarried(p, w);
      CommitSwaps(p, w);
      Step(Commit(g));
    }

    method PushAfterSwap(ghost p: Swap, g: Generation) returns (ok: bool)
      requires Swapped(p, w) && !p.mirror && w.runs[p.g].phase == Committed && p.g == g
      modifies this`w
      ensures Swapped(p, w) && w.runs[g].phase == if ok then Confirmed else Committed
    {
      hide Base, WindowOk, FilesOk, Expected;
      ok := PushWithRetry(g);
      ConfirmedIsConfigured(w, g);
    }

    /** Marks the row live and lets the old sandbox go. */
    method Finish(ghost p: Swap, g: Generation)
      requires Swapped(p, w) && w.runs[p.g].phase == Confirmed && p.g == g && Keyed()
      modifies this`w
      ensures Valid() && SwapEffect(p, w, Done)
    {
      hide Base, WindowOk, FilesOk, WellKeyed, Carried;
      ghost var v := w;
      Step(MarkLive(g));
      SourceIsNotTarget(w, g);
      Step(DestroyOld(g));
      CarriedStays(p, v, w);
      IdleWindow(w);
    }

    /** From the commit on. */
    method Cutover(ghost p: Swap, g: Generation, mirror: bool) returns (exit: Exit)
      requires SwappingAt(p, w, if p.mirror then Configured else Bound) && p.g == g && p.mirror == mirror && Keyed()
      modifies this`w
      ensures Repointed(exit)
      ensures Valid() && SwapEffect(p, w, exit)
    {
      hide Base, WindowOk, FilesOk, SwapEffect, Swapping, AllEnded, LiveIsConfigured, WellKeyed, Carried;
      CommitRow(p, g);
      if !mirror {
        var ok := PushAfterSwap(p, g);
        if !ok {
          GiveUp(p, g);
          return AfterSwap;
        }
      }
      var statusFailed := *;
      if statusFailed {
        GiveUp(p, g);
        return AfterSwap;
      }
      Finish(p, g);
      return Done;
    }

    // ----- Operations on the row itself, with no swap under way -----

    method SetStatus(status: Status)
      requires Valid() && w.row.Some? && (status == Live ==> RowConfigured(w))
      modifies this`w
      ensures Valid() && w == old(w).(row := Some(old(w).row.value.(status := status)))
    {
      hide RunOk, HistoryOk, WellKeyed;
      StatusKeepsBase(w, status);
      EndedFiles(w.(row := Some(w.row.value.(status := status))), w);
      w := w.(row := Some(w.row.value.(status := status)));
    }

    method DestroySandbox(s: Sandbox)
      requires Valid() && s < w.nextSandbox
      modifies this`w
      ensures Valid() && w == old(w).(doomed := old(w).doomed + {s})
    {
      hide WellKeyed, FilesOk;
      EndedRunsStand(w, w.(doomed := w.doomed + {s}));
      w := w.(doomed := w.doomed + {s});
    }

    /** Configures the sandbox the row names for the row's generation, in at most twelve attempts. */
    method PushToRow() returns (ok: bool)
      requires Valid() && NamedBy(w).Some?
      modifies this`w
      ensures Valid() && w == old(w).(sent := w.sent, accepted := w.accepted)
      ensures ok ==> RowConfigured(w)
      ensures old(w).sent <= w.sent <= old(w).sent + {NamedBy(w).value}
      ensures old(w).accepted <= w.accepted <= old(w).accepted + {(NamedBy(w).value, w.row.value.generation)}
    {
      hide WellKeyed, FilesOk;
      var s, g := w.row.value.sandbox.value, w.row.value.generation;
      var attempt := 0;
      while attempt < Retry.ATTEMPTS
        invariant Valid() && w == old(w).(sent := w.sent, accepted := w.accepted)
        invariant old(w).sent <= w.sent <= old(w).sent + {s} && old(w).accepted <= w.accepted <= old(w).accepted + {(s, g)}
      {
        var reply: Retry.Reply, applied := *, *;
        var v := w.(sent := w.sent + {s},
                    accepted := if applied || reply == Retry.Accepted then w.accepted + {(s, g)} else w.accepted);
        EndedRunsStand(w, v);
        w := v;
        if reply == Retry.Accepted {
          return true;
        }
        if reply == Retry.Fatal {
          return false;
        }
        attempt := attempt + 1;
      }
      return false;
    }

    /** Replays the mirror, leniently, into the sandbox the row names. */
    method ReplayToRow() returns (ok: bool)
      requires Valid() && NamedBy(w).Some?
      modifies this`w, this`disk
      ensures Valid() && Extends(old(disk), disk) && w == old(w).(files := w.files)
      ensures var items, s := Replay.Items(owner, instance, old(disk), rows), NamedBy(w).value;
              ok ==> Replay.AllPass(items, true) && FilesOf(w, s) == Replay.Fold(FilesOf(old(w), s), items)
    {
      hide Base, WellKeyed, Extends, Replay.Items, Replay.Fold;
      var s := w.row.value.sandbox.value;
      var replayer := new Replay.Replayer(disk, FilesOf(w, s));
      var r := replayer.ReplayStateFiles(owner, instance, rows, true, true);
      KnownLater(disk, replayer.disk, rows);
      disk := replayer.disk;
      var v := w.(files := w.files[s := replayer.files]);
      FilesKeepBase(w, v.files);
      EndedFiles(v, w);
      w := v;
      return r.Ok?;
    }

    /**
     * The runtime sweep over this row: pushes to a Live row, and finishes a Configuring one, with a
     * replay first if the mirror holds anything; a Configuring row it cannot finish is given up.
     */
    method Sweep(stateFiles: bool) returns (ok: bool)
      requires Valid()
      modifies this`w, this`disk
      ensures Valid() && w.names == old(w).names && w.gens == old(w).gens
      ensures w.row.Some? <==> old(w).row.Some?
      ensures w.row.Some? ==> w.row.value.sandbox == old(w).row.value.sandbox && w.row.value.generation == old(w).row.value.generation
      ensures w.row.Some? && old(w).row.value.status != Configuring ==>
                w.row == old(w).row && w.doomed == old(w).doomed && w.files == old(w).files
      ensures ok ==> RowConfigured(w) && w.doomed == old(w).doomed
      ensures ok && old(w).row.value.status == Configuring ==>
                Refilled(old(w), w, stateFiles, Replay.Items(owner, instance, old(disk), rows))
      ensures ok && old(w).row.value.status == Configuring && stateFiles ==>
                var s := NamedBy(old(w)).value;
                ToldByWrites(instance, old(disk), rows, FilesOf(old(w), s), FilesOf(w, s))
      ensures w.doomed <= old(w).doomed + SetOf(NamedBy(old(w)))
    {
      hide Base, WellKeyed, Extends, FilesOk, Replay.Items, Replay.Fold, UsesMirror, ToldByWrites;
      ok := false;
      if NamedBy(w).None? || (w.row.value.status != Live && w.row.value.status != Configuring) {
        return;
      }
      var s, configuring := w.row.value.sandbox.value, w.row.value.status == Configuring;
      var tokensFailed, listingFailed, preconfigureFailed := *, *, *;
      if tokensFailed {
        return;
      }
      var ready := !(stateFiles && listingFailed);
      if ready && configuring {
        var mirror := DecideMirror(Rotate, stateFiles);
        ItemsAgree(owner, instance, old(disk), disk, rows);
        if mirror {
          ready := false;
          if !preconfigureFailed {
            ready := ReplayToRow();
          }
        }
      }
      if ready {
        ok := PushToRow();
      }
      var statusFailed := *;
      if configuring && ok {
        RefillTold(old(w), w, stateFiles, owner, instance, old(disk), rows);
        if !statusFailed {
          SetStatus(Live);
        }
      } else if configuring {
        NamedIsKnown(w);
        DestroySandbox(s);
        if !statusFailed {
          SetStatus(Destroyed);
        }
      }
    }

    /** Inserts the row of a new instance, with its first generation and no sandbox. */
    method InsertRow()
      requires Valid() && w.row.None?
      modifies this`w
      ensures Valid() && w.row == Some(Row(None, old(w).nextGeneration, Cold))
      ensures w == old(w).(row := w.row, gens := [old(w).nextGeneration], nextGeneration := old(w).nextGeneration + 1)
    {
      hide WellKeyed;
      w := w.(row := Some(Row(None, w.nextGeneration, Cold)), gens := [w.nextGeneration], nextGeneration := w.nextGeneration + 1);
    }

    /** A sandbox whose environment carries the row's credentials; it is not yet named by the row. */
    method CreateForRow(image: Replay.Files) returns (s: Sandbox)
      requires Valid() && w.row.Some?
      modifies this`w
      ensures Valid() && s == old(w).nextSandbox
      ensures w == old(w).(sent := old(w).sent + {s}, files := old(w).files[s := image], nextSandbox := s + 1)
    {
      hide WellKeyed, FilesOk;
      s := w.nextSandbox;
      var v := w.(sent := w.sent + {s}, files := w.files[s := image], nextSandbox := s + 1);
      EndedRunsStand(w, v);
      w := v;
    }

    method NameSandbox(s: Sandbox)
      requires Valid() && w.row.Some? && w.row.value.sandbox.None? && w.row.value.status == Cold && w.runs == map[]
      requires s < w.nextSandbox
      modifies this`w
      ensures Valid() && w == old(w).(row := Some(old(w).row.value.(sandbox := Some(s))), names := [s])
    {
      hide WellKeyed;
      w := w.(row := Some(w.row.value.(sandbox := Some(s))), names := [s]);
    }

    /**
     * Create, or restore a snapshot into, a new instance. Success leaves it Live, configured and
     * settled. A failed create may destroy the sandbox it made, which its row then names as Destroyed
     * or, when that status could not be written, as Configuring; a failed restore destroys nothing.
     */
    method CreateInstance(fromSnapshot: bool, image: Replay.Files) returns (ok: bool)
      requires Valid() && w.row.None?
      modifies this`w
      ensures Valid() && w.nextGeneration <= old(w).nextGeneration + 1
      ensures ok ==> w.row == Some(Row(Some(old(w).nextSandbox), old(w).nextGeneration, Live)) && RowConfigured(w)
      ensures ok ==> FilesOf(w, old(w).nextSandbox) == image
      ensures ok && Unused(old(w)) ==> Settled(w)
      ensures ok || fromSnapshot ==> w.doomed == old(w).doomed
      ensures !ok && w.row.Some? ==> w.row.value.status != Live
      ensures w.doomed <= old(w).doomed + {old(w).nextSandbox}
      ensures w.doomed != old(w).doomed ==> !ok && !fromSnapshot && w.row.Some?
      ensures w.doomed != old(w).doomed ==> NamedBy(w) == Some(old(w).nextSandbox) && w.row.value.status in {Destroyed, Configuring}
    {
      hide Base, AllEnded, FilesOk, WellKeyed;
      var insertFailed, tokensFailed, createFailed, bindFailed := *, *, *, *;
      if insertFailed {
        return false;
      }
      NoRuns(w);
      InsertRow();
      if tokensFailed {
        return false;
      }
      if createFailed {
        var statusFailed := *;
        if !statusFailed {
          SetStatus(Destroyed);
        }
        return false;
      }
      var s := CreateForRow(image);
      if bindFailed {
        return false;
      }
      var nameFailed, statusFailed := *, *;
      if nameFailed {
        return false;
      }
      NameSandbox(s);
      if statusFailed {
        return false;
      }
      SetStatus(Configuring);
      ok := PushToRow();
      var liveFailed := *;
      if ok {
        if liveFailed {
          return false;
        }
        SetStatus(Live);
      } else if !fromSnapshot {
        DestroySandbox(s);
        if !liveFailed {
          SetStatus(Destroyed);
        }
      }
    }
  }

  /** A row stopped the replay: it is not the caller's, or this is a recreate and the durable live row does not open. */
  predicate Explains(why: Option<Replay.ReplayError>, owner: string, instance: string, d: Disk, rows: seq<Replay.MirrorRow>, kind: Kind) {
    why.Some? ==>
      match why.value
      case OwnerMismatch(k) => k < |rows| && rows[k].row.owner != owner
      case BodyUnreadable(k) => kind == Recreate && k < |rows| && Replay.Blocked(instance, d, rows[k])
      case _ => true
  }

  lemma NothingToExplain(owner: string, instance: string, d: Disk, rows: seq<Replay.MirrorRow>, kind: Kind)
    ensures Explains(None, owner, instance, d, rows, kind)
  {
  }

  /** Keys added since do not change which rows open. */
  lemma ExplainedBefore(why: Option<Replay.ReplayError>, owner: string, instance: string, d: Disk, e: Disk, rows: seq<Replay.MirrorRow>, kind: Kind)
    requires Extends(d, e) && Replay.AllKnown(d, rows) && Explains(why, owner, instance, e, rows, kind)
    ensures Explains(why, owner, instance, d, rows, kind)
  {
    hide Extends, Replay.OutcomeOf, Replay.Blocked, Replay.RowKnown;
    if why.Some? && why.value.BodyUnreadable? {
      var row := rows[why.value.at];
      assert Replay.RowKnown(d, row);
      Replay.OutcomeAgrees(instance, d, e, row);
      Replay.BlockedIff(instance, d, row);
      Replay.BlockedIff(instance, e, row);
    }
  }

  /**
   * With a mirror the files are told from the writes of each, over what the image held; without one
   * they are the image's. A recreate with a mirror found every durable live row readable, and it and a
   * reset found every row the caller's.
   */
  ghost predicate CarriedOver(kind: Kind, stateFiles: bool, owner: string, instance: string, d: Disk, rows: seq<Replay.MirrorRow>,
                              image: Replay.Files, files: Replay.Files)
  {
    && (kind == Reset || stateFiles ==> ToldByWrites(instance, d, rows, image, files))
    && (kind != Reset && !stateFiles ==> files == image)
    && (kind == Recreate && stateFiles ==> Replay.NoneBlocked(instance, d, rows))
    && (kind == Reset || (kind == Recreate && stateFiles) ==> Replay.AllOwned(owner, rows))
  }

  ghost predicate ToldByWrites(instance: string, d: Disk, rows: seq<Replay.MirrorRow>, before: Replay.Files, after: Replay.Files) {
    forall logs | Replay.Histories(instance, d, rows, logs) :: Replay.Told(instance, d, rows, logs, before, after)
  }

  lemma SwapTold(p: Swap, w: World, exit: Exit, owner: string, instance: string, d: Disk, rows: seq<Replay.MirrorRow>, stateFiles: bool)
    requires SwapEffect(p, w, exit)
    requires p.items == Replay.Items(owner, instance, d, rows) && p.mirror == UsesMirror(p.kind, stateFiles, p.items)
    ensures Repointed(exit) ==> CarriedOver(p.kind, stateFiles, owner, instance, d, rows, p.image, FilesOf(w, p.was.nextSandbox))
  {
    hide Replay.Items, ToldByWrites, Replay.NoneBlocked, Replay.Fold, Replay.EffectiveCount;
    IneffectiveFold(p.image, p.items);
    FoldToldByWrites(owner, instance, d, rows, p.image);
    Replay.PassTold(owner, instance, d, rows, true);
    Replay.PassTold(owner, instance, d, rows, false);
  }

  lemma FoldToldByWrites(owner: string, instance: string, d: Disk, rows: seq<Replay.MirrorRow>, before: Replay.Files)
    ensures ToldByWrites(instance, d, rows, before, Replay.Fold(before, Replay.Items(owner, instance, d, rows)))
  {
    hide Replay.Items, Replay.Told, Replay.Histories, Replay.Fold;
    forall logs | Replay.Histories(instance, d, rows, logs)
      ensures Replay.Told(instance, d, rows, logs, before, Replay.Fold(before, Replay.Items(owner, instance, d, rows)))
    {
      Replay.FoldTold(owner, instance, d, rows, logs, before);
    }
  }

  lemma RefillTold(was: World, w: World, stateFiles: bool, owner: string, instance: string, d: Disk, rows: seq<Replay.MirrorRow>)
    requires Refilled(was, w, stateFiles, Replay.Items(owner, instance, d, rows))
    ensures var s := NamedBy(was).value;
            stateFiles ==> ToldByWrites(instance, d, rows, FilesOf(was, s), FilesOf(w, s))
  {
    hide Replay.Items, ToldByWrites, Replay.Fold, Replay.EffectiveCount;
    var s := NamedBy(was).value;
    IneffectiveFold(FilesOf(was, s), Replay.Items(owner, instance, d, rows));
    FoldToldByWrites(owner, instance, d, rows, FilesOf(was, s));
  }

  lemma {:induction false} IneffectiveFold(files: Replay.Files, items: seq<Replay.Item>)
    ensures Replay.EffectiveCount(items) == 0 ==> Replay.Fold(files, items) == files
  {
    if items != [] {
      IneffectiveFold(files, items[..|items| - 1]);
    }
  }

  /** The gate calls a swap makes on its source. */
  function GateCalls(source: Option<Sandbox>, quiesced: bool, exit: Exit): seq<IdleGate.Call>
    requires quiesced ==> source.Some?
  {
    if !quiesced then [] else
    [IdleGate.Quiesce(source.value)] + if OwesResume(exit) then [IdleGate.Unquiesce(source.value)] else []
  }

  /** Gate calls on one sandbox leave every other's latch as it was. */
  lemma LatchesTold(calls: seq<IdleGate.Call>, source: Option<Sandbox>, quiesced: bool, exit: Exit)
    requires quiesced ==> source.Some? && exit != Refused && exit != NotIdle
    ensures LatchesAfter(calls, calls + GateCalls(source, quiesced, exit), source, quiesced, exit)
  {
    OtherLatchesStand(calls, GateCalls(source, quiesced, exit), source);
  }

  /** A source that was quiesced is left latched exactly after the swap or a token error, and no other latch changes. */
  ghost predicate LatchesAfter(was: seq<IdleGate.Call>, calls: seq<IdleGate.Call>, source: Option<Sandbox>, quiesced: bool, exit: Exit) {
    && (quiesced ==> source.Some? && (IdleGate.LeftLatched(calls, source.value) <==> Repointed(exit) || exit == TokenError))
    && forall s: Sandbox | Some(s) != source || !quiesced :: IdleGate.LeftLatched(calls, s) == IdleGate.LeftLatched(was, s)
  }

  lemma {:induction false} OtherLatchesStand(calls: seq<IdleGate.Call>, more: seq<IdleGate.Call>, source: Option<Sandbox>)
    requires forall call <- more :: Some(call.sandbox) == source
    ensures forall s: Sandbox | Some(s) != source || more == [] :: IdleGate.LeftLatched(calls + more, s) == IdleGate.LeftLatched(calls, s)
    decreases |more|
  {
    if more == [] {
      assert calls + more == calls;
    } else {
      var n := |more| - 1;
      OtherLatchesStand(calls, more[..n], source);
      assert (calls + more)[..|calls + more| - 1] == calls + more[..n] && more[n] in more;
    }
  }

  /** No instance yet, and nothing done for one. */
  predicate Unused(w: World) {
    w.row.None? && w.runs == map[] && w.doomed == {} && w.sent == {} && w.accepted == {} && w.names == [] && w.gens == []
  }

  /** A swept Configuring row holds the mirror over what its sandbox held, if the mirror holds anything. */
  predicate Refilled(was: World, w: World, stateFiles: bool, items: seq<Replay.Item>) {
    && NamedBy(was).Some?
    && var s := NamedBy(was).value;
       FilesOf(w, s) == if UsesMirror(Rotate, stateFiles, items) then Replay.Fold(FilesOf(was, s), items) else FilesOf(was, s)
  }

  /** The mirror is authoritative always in a reset, when configured in a recreate, and when it restores anything otherwise. */
  predicate UsesMirror(kind: Kind, stateFiles: bool, items: seq<Replay.Item>) {
    match kind
    case Reset => true
    case Recreate => stateFiles
    case Rotate | RestoreSnapshot => stateFiles && Replay.EffectiveCount(items) > 0
  }

  lemma KnownLater(d: Disk, e: Disk, rows: seq<Replay.MirrorRow>)
    requires Extends(d, e) && Replay.AllKnown(d, rows)
    ensures Replay.AllKnown(e, rows)
  {
    forall r | r in rows ensures Replay.RowKnown(e, r) {
      assert Replay.RowKnown(d, r);
    }
  }

  lemma ItemsAgree(owner: string, instance: string, d: Disk, e: Disk, rows: seq<Replay.MirrorRow>)
    requires Extends(d, e) && Replay.AllKnown(d, rows)
    ensures Replay.Items(owner, instance, d, rows) == Replay.Items(owner, instance, e, rows)
  {
    hide Extends, Replay.OutcomeOf, Replay.RowKnown;
    forall i | 0 <= i < |rows| ensures Replay.OutcomeOf(instance, d, rows[i]) == Replay.OutcomeOf(instance, e, rows[i]) {
      assert Replay.RowKnown(d, rows[i]);
      Replay.OutcomeAgrees(instance, d, e, rows[i]);
    }
  }

  /** With no swap under way nothing is owed about any sandbox's files. */
  lemma EndedFiles(v: World, w: World)
    requires AllEnded(w) && FilesOk(w) && v.runs == w.runs
    ensures FilesOk(v)
  {
    forall g | g in v.runs ensures RunFilesOk(v, v.runs[g]) {
      assert RunFilesOk(w, w.runs[g]);
    }
  }

  /** Runs that have ended do not mind what else is doomed, held, or sent to and accepted by the row's sandbox. */
  lemma EndedRunsStand(w: World, v: World)
    requires Base(w) && AllEnded(w) && FilesOk(w)
    requires v == w.(doomed := v.doomed, sent := v.sent, accepted := v.accepted, files := v.files, nextSandbox := v.nextSandbox)
    requires w.nextSandbox <= v.nextSandbox && w.accepted <= v.accepted
    requires forall s <- v.doomed :: s < v.nextSandbox
    requires forall s <- v.sent :: s in w.sent || (w.nextSandbox <= s < v.nextSandbox) || Some(s) == NamedBy(w)
    requires forall p <- v.accepted :: p in w.accepted || Some(p.0) == NamedBy(w)
    ensures Base(v) && AllEnded(v) && FilesOk(v)
  {
    NamedIsKnown(w);
    EndedFiles(v, w);
    forall h | h in w.runs ensures RunOk(v, h, w.runs[h]) {
      EndedRunStands(w, v, h);
    }
    hide RunOk, Distinct, FilesOk;
  }

  lemma EndedRunStands(w: World, v: World, h: Generation)
    requires Base(w) && h in w.runs && w.runs[h].phase == Ended
    requires v == w.(doomed := v.doomed, sent := v.sent, accepted := v.accepted, files := v.files, nextSandbox := v.nextSandbox)
    requires w.nextSandbox <= v.nextSandbox
    requires forall s <- v.sent :: s in w.sent || (w.nextSandbox <= s < v.nextSandbox) || Some(s) == NamedBy(w)
    ensures RunOk(v, h, w.runs[h])
  {
    RunOf(w, h);
    NamedIsKnown(w);
    hide RunsOk, Distinct;
  }

  lemma NamedIsKnown(w: World)
    requires Base(w)
    ensures NamedBy(w).Some? ==> NamedBy(w).value in w.names && NamedBy(w).value < w.nextSandbox
  {
    hide RunsOk;
  }

  lemma NoRuns(w: World)
    requires Base(w) && w.row.None?
    ensures w.runs == map[]
  {
  }

  function NamedBy(w: World): Option<Sandbox> {
    if w.row.Some? then w.row.value.sandbox else None
  }

  function SetOf(s: Option<Sandbox>): set<Sandbox> {
    if s.Some? then {s.value} else {}
  }

  lemma NothingSwapped(p: Swap, w: World)
    requires p.was == w
    ensures SwapEffect(p, w, Refused)
  {
  }

  /** A run before its commit has bound its target to something the row does not name. */
  lemma BoundRuns(w: World, g: Generation)
    requires Base(w) && g in w.runs
    ensures w.runs[g].phase != Planned && w.runs[g].phase != Ended ==> w.runs[g].target.Some?
    ensures w.runs[g].phase == Configured ==> w.runs[g].mirror
  {
    RunOf(w, g);
  }

  lemma ConfirmedIsConfigured(w: World, g: Generation)
    requires Base(w) && g in w.runs && w.row.Some? && w.row.value.sandbox == w.runs[g].target && w.row.value.generation == g
    ensures w.runs[g].phase == Confirmed ==> RowConfigured(w)
  {
    RunOf(w, g);
  }

  lemma SourceIsNotTarget(w: World, g: Generation)
    requires Base(w) && g in w.runs && w.runs[g].phase == Retiring && w.row.Some? && w.row.value.sandbox == w.runs[g].target
    ensures w.runs[g].source != w.runs[g].target
  {
    RunOf(w, g);
    if w.runs[g].source.Some? {
      NotRetired(w, w.runs[g].source.value);
    }
  }
}
