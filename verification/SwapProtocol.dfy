/**
 * Moving one instance row from an old sandbox to a new one: rotate, restore-snapshot, recreate and
 * reset (crates/core/src/instance.rs), any number of them at once, with any backend call failing.
 * Each action is one call to the sandbox backend, the sandbox itself or the row store.
 */
module SwapProtocol {
  import opened Wrappers
  import Replay

  type Sandbox = nat
  type Generation = nat

  datatype Status = Cold | Configuring | Live | Destroyed

  datatype Row = Row(sandbox: Option<Sandbox>, generation: Generation, status: Status)

  datatype Kind = Rotate | RestoreSnapshot | Recreate | Reset

  /**
   * Where a run stands. `Committed` has repointed the row but has no accepted configure yet,
   * `Confirmed` has both; `Discarding` owes a destroy of its own new sandbox, `Retiring` of the old one.
   */
  datatype Phase =
    | Planned | Unbound | Bound | Preconfigured | Replaying | Configured
    | Committed | Confirmed | Retiring | Discarding | Ended

  /**
   * A swap in progress. `source` is what it read from the row, `target` the sandbox it created,
   * `image` the files that sandbox booted with, `listing` the mirror rows it replays and `restored`
   * how many of them are done.
   */
  datatype Run = Run(
    kind: Kind, mirror: bool, source: Option<Sandbox>, target: Option<Sandbox>,
    image: Replay.Files, listing: Option<seq<Replay.Item>>, restored: nat, phase: Phase)

  /**
   * `runs` is keyed by the state generation each run minted. `doomed` holds every sandbox sent to
   * `destroy_sandbox`, `sent` every sandbox sent state-sync credentials, and `accepted` every
   * (sandbox, generation) whose configure with credentials was applied. `files` is what each sandbox
   * holds. `names` and `gens` are the sandboxes and generations the row has held, in order.
   */
  datatype World = World(
    row: Option<Row>, runs: map<Generation, Run>,
    doomed: set<Sandbox>, sent: set<Sandbox>, accepted: set<(Sandbox, Generation)>,
    files: map<Sandbox, Replay.Files>, names: seq<Sandbox>, gens: seq<Generation>, nextSandbox: Sandbox, nextGeneration: Generation)

  datatype Action =
    | Begin(kind: Kind, mirror: bool)
    | CreateSandbox(run: Generation, image: Replay.Files)
    | Bind(run: Generation)
    | Push(run: Generation, applied: bool, acknowledged: bool)
    | ListRows(run: Generation, listing: seq<Replay.Item>)
    | RestoreRow(run: Generation, applied: bool, acknowledged: bool)
    | Commit(run: Generation)
    | MarkLive(run: Generation)
    | DestroyOld(run: Generation)
    | Fail(run: Generation)
    | Discard(run: Generation)
    | Work(sandbox: Sandbox, files: Replay.Files)

  // ----- Steps -----

  /** Reset always replays the mirror, and all but restore-snapshot need a sandbox to replace. */
  predicate CanBegin(w: World, kind: Kind, mirror: bool) {
    && w.row.Some? && w.row.value.status != Destroyed
    && (kind == Reset ==> mirror)
    && (kind != RestoreSnapshot ==> w.row.value.sandbox.Some?)
  }

  /** Ready to repoint the row. */
  predicate CanCommit(r: Run) {
    if r.mirror then r.phase == Configured else r.phase == Bound
  }

  /** The replay loop has finished over the whole listing. */
  predicate Replayed(r: Run) {
    r.listing.Some? && r.restored == |r.listing.value|
  }

  /** Only a recreate insists that every durable live row is readable. */
  predicate Lenient(kind: Kind) {
    kind != Recreate
  }

  function FilesOf(w: World, s: Sandbox): Replay.Files {
    if s in w.files then w.files[s] else map[]
  }

  /** The listed row a run would restore next, if the replay gets past it. */
  predicate CanRestore(r: Run) {
    && r.phase == Replaying && r.target.Some? && r.listing.Some? && r.restored < |r.listing.value|
    && Replay.Passes(r.listing.value[r.restored], Lenient(r.kind))
  }

  function Posted(w: World, r: Run): map<Sandbox, Replay.Files>
    requires CanRestore(r)
  {
    var item, s := r.listing.value[r.restored], r.target.value;
    w.files[s := Replay.Put(FilesOf(w, s), item.key, item.outcome)]
  }

  /** One row is posted; it may be applied without the answer arriving. */
  function Restored(w: World, g: Generation, applied: bool, acknowledged: bool): World
    requires g in w.runs && CanRestore(w.runs[g])
  {
    var r := w.runs[g];
    var w1 := if applied || acknowledged then w.(files := Posted(w, r)) else w;
    if acknowledged then Update(w1, g, r.(restored := r.restored + 1)) else w1
  }

  function Update(w: World, g: Generation, r: Run): World {
    w.(runs := w.runs[g := r])
  }

  function Advance(w: World, g: Generation, phase: Phase): World
    requires g in w.runs
  {
    Update(w, g, w.runs[g].(phase := phase))
  }

  /** A configure push: without credentials before the replay, with them after it or after the commit. */
  function Pushed(w: World, g: Generation, applied: bool, acknowledged: bool): World
    requires g in w.runs && w.runs[g].target.Some?
  {
    var r := w.runs[g];
    var sandbox := r.target.value;
    if r.phase == Bound && r.mirror && r.kind != Rotate then
      if acknowledged then Advance(w, g, Preconfigured) else w
    else if (r.phase == Replaying && Replayed(r)) || r.phase == Committed then
      var w1 := w.(sent := w.sent + {sandbox},
                   accepted := if applied || acknowledged then w.accepted + {(sandbox, g)} else w.accepted);
      if acknowledged then Advance(w1, g, if r.phase == Committed then Confirmed else Configured) else w1
    else w
  }

  /** How a run ends when its next call fails; a failed bind and a failed recreate commit leak the sandbox. */
  function AfterFailure(r: Run): Phase {
    match r.phase
    case Planned | Unbound | Committed | Confirmed => Ended
    case Bound | Configured => if CanCommit(r) && r.kind == Recreate then Ended else Discarding
    case Preconfigured | Replaying => Discarding
    case Retiring | Discarding | Ended => r.phase
  }

  function Next(w: World, a: Action): World {
    if a.Begin? then
      if !CanBegin(w, a.kind, a.mirror) then w else
      w.(runs := w.runs[w.nextGeneration := Run(a.kind, a.mirror, w.row.value.sandbox, None, map[], None, 0, Planned)],
         nextGeneration := w.nextGeneration + 1)
    else if a.Work? then
      // Only a sandbox the row has named serves its user.
      if a.sandbox in w.names then w.(files := w.files[a.sandbox := a.files]) else w
    else if a.run !in w.runs then w else
    var r := w.runs[a.run];
    match a
    case CreateSandbox(g, image) =>
      if r.phase != Planned then w else
      w.(runs := w.runs[g := r.(target := Some(w.nextSandbox), image := image, phase := Unbound)],
         sent := if r.mirror then w.sent else w.sent + {w.nextSandbox},
         files := w.files[w.nextSandbox := image],
         nextSandbox := w.nextSandbox + 1)
    case Bind(g) => if r.phase != Unbound then w else Advance(w, g, Bound)
    case Push(g, applied, acknowledged) => if r.target.None? then w else Pushed(w, g, applied, acknowledged)
    case ListRows(g, listing) =>
      if r.mirror && r.phase == (if r.kind == Rotate then Bound else Preconfigured)
      then Update(w, g, r.(listing := Some(listing), restored := 0, phase := Replaying)) else w
    case RestoreRow(g, applied, acknowledged) =>
      if CanRestore(r) then Restored(w, g, applied, acknowledged) else w
    case Commit(g) =>
      if !CanCommit(r) || r.target.None? || w.row.None? then w else
      Advance(w.(row := Some(Row(r.target, g, Configuring)), names := w.names + [r.target.value], gens := w.gens + [g]),
              g, if r.mirror then Confirmed else Committed)
    case MarkLive(g) =>
      if r.phase != Confirmed || w.row.None? then w else Advance(w.(row := Some(w.row.value.(status := Live))), g, Retiring)
    case DestroyOld(g) =>
      if r.phase != Retiring then w else
      Advance(w.(doomed := if r.source.Some? && r.source != r.target then w.doomed + {r.source.value} else w.doomed), g, Ended)
    case Fail(g) => Advance(w, g, AfterFailure(r))
    case Discard(g) =>
      if r.phase != Discarding || r.target.None? then w else Advance(w.(doomed := w.doomed + {r.target.value}), g, Ended)
  }

  /** A step of a run already begun. */
  predicate OfRun(a: Action) {
    !a.Begin? && !a.Work?
  }

  // ----- What every reachable world satisfies -----

  predicate Distinct(s: seq<nat>) {
    forall i, j | 0 <= i < j < |s| :: s[i] != s[j]
  }

  /** The row's last names; its ids all come from the two supplies. */
  predicate HistoryOk(w: World) {
    && Distinct(w.names) && Distinct(w.gens)
    && (forall s <- w.names :: s < w.nextSandbox)
    && (forall g <- w.gens :: g < w.nextGeneration)
    && (forall s <- w.doomed :: s < w.nextSandbox)
    && (forall s <- w.sent :: s < w.nextSandbox)
    && (forall p <- w.accepted :: p.0 < w.nextSandbox)
    && (w.row.None? ==> w.names == [] && w.gens == [] && w.runs == map[])
    && (w.row.Some? ==> w.gens != [] && w.row.value.generation == w.gens[|w.gens| - 1])
    && (w.row.Some? ==> w.row.value.sandbox == (if w.names == [] then None else Some(w.names[|w.names| - 1])))
  }

  /** Sandboxes the row has moved away from. */
  function Retired(w: World): seq<Sandbox> {
    if w.names == [] then [] else w.names[..|w.names| - 1]
  }

  predicate InWindow(r: Run) {
    r.phase == Committed || r.phase == Confirmed
  }

  predicate BeforeCommit(r: Run) {
    !InWindow(r) && r.phase != Retiring && r.phase != Ended
  }

  ghost predicate RunOk(w: World, g: Generation, r: Run) {
    && g < w.nextGeneration
    && (r.target.Some? ==> r.target.value < w.nextSandbox)
    && (r.kind == Reset ==> r.mirror)
    && (r.phase == Planned ==> r.target.None?)
    && (r.phase != Planned && r.phase != Ended ==> r.target.Some?)
    && (r.phase == Preconfigured || r.phase == Replaying || r.phase == Configured ==> r.mirror)
    && (r.phase == Planned || r.phase == Unbound || r.phase == Bound || r.phase == Preconfigured ==> r.listing.None?)
    && (r.listing.Some? ==> r.restored <= |r.listing.value|)
    && (r.phase == Replaying ==> r.listing.Some?)
    && (r.source.Some? ==> r.source.value in w.names)
    && (BeforeCommit(r) ==> g !in w.gens && (r.target.Some? ==> r.target.value !in w.names))
    && (BeforeCommit(r) && r.phase != Discarding && r.target.Some? ==> r.target.value !in w.doomed)
    && (InWindow(r) || r.phase == Retiring ==> g in w.gens && r.target.value in w.names)
    && (InWindow(r) || r.phase == Retiring ==> (r.source.Some? ==> r.source.value in Retired(w)))
    && (r.phase == Configured || r.phase == Confirmed || r.phase == Retiring ==> (r.target.value, g) in w.accepted)
    && (r.phase == Configured || (r.mirror && (InWindow(r) || r.phase == Retiring)) ==> Replayed(r))
    && (r.mirror && r.target.Some? && (r.target.value in w.sent || r.target.value in w.names) ==> Replayed(r))
    && (!r.mirror && (r.phase == Unbound || r.phase == Bound) ==> forall h :: (r.target.value, h) !in w.accepted)
  }

  ghost predicate RunsOk(w: World) {
    && (forall g | g in w.runs :: RunOk(w, g, w.runs[g]))
    && (forall g, h | g in w.runs && h in w.runs && g != h && w.runs[g].target.Some? :: w.runs[g].target != w.runs[h].target)
  }

  ghost predicate Base(w: World) {
    HistoryOk(w) && RunsOk(w)
  }

  predicate NamesNoDoomed(w: World) {
    w.row.Some? && w.row.value.sandbox.Some? ==> w.row.value.sandbox.value !in w.doomed
  }

  lemma NotRetired(w: World, s: Sandbox)
    requires HistoryOk(w) && s in Retired(w)
    ensures s != w.names[|w.names| - 1]
  {
  }

  /** Nothing `r` relies on was taken away, and nothing was added that it must not meet. */
  lemma RunOkLater(w: World, v: World, g: Generation, r: Run)
    requires RunOk(w, g, r)
    requires w.nextGeneration <= v.nextGeneration && w.nextSandbox <= v.nextSandbox
    requires w.names == v.names && w.gens == v.gens && w.accepted <= v.accepted
    requires BeforeCommit(r) && r.target.Some? ==> (r.target.value in v.doomed ==> r.target.value in w.doomed)
    requires r.target.Some? ==> (r.target.value in v.sent ==> r.target.value in w.sent)
    requires r.target.Some? ==> forall h | (r.target.value, h) in v.accepted :: (r.target.value, h) in w.accepted
    ensures RunOk(v, g, r)
  {
  }

  /** Moving one run to a state it may be in disturbs nobody else. */
  lemma UpdateKeepsBase(w: World, g: Generation, r: Run)
    requires Base(w) && g in w.runs && r.target == w.runs[g].target && RunOk(w, g, r)
    ensures Base(Update(w, g, r))
  {
    hide BeforeCommit, InWindow, Replayed;
    var v := Update(w, g, r);
    forall h | h in v.runs ensures RunOk(v, h, v.runs[h]) {
      assert RunOk(w, h, v.runs[h]);
    }
  }

  /** What run `g` may add to the world while its own phase stands still. */
  ghost predicate Adds(w: World, v: World, g: Generation) {
    && g in w.runs && v == w.(doomed := v.doomed, sent := v.sent, accepted := v.accepted)
    && w.accepted <= v.accepted
    && (forall s | s in v.doomed && s !in w.doomed :: s in w.names || Some(s) == w.runs[g].target)
    && (forall s | s in v.sent && s !in w.sent :: Some(s) == w.runs[g].target)
    && (forall p | p in v.accepted && p !in w.accepted :: Some(p.0) == w.runs[g].target)
  }

  lemma AddsKeepsRuns(w: World, v: World, g: Generation)
    requires RunsOk(w) && Adds(w, v, g) && RunOk(v, g, w.runs[g])
    ensures RunsOk(v)
  {
    forall h | h in v.runs && h != g ensures RunOk(v, h, v.runs[h]) {
      assert RunOk(w, h, w.runs[h]);
      RunOkLater(w, v, h, w.runs[h]);
    }
  }

  lemma AddsKeepsBase(w: World, v: World, g: Generation)
    requires Base(w) && Adds(w, v, g) && RunOk(v, g, w.runs[g])
    ensures Base(v)
  {
    AddsKeepsRuns(w, v, g);
    assert RunOk(w, g, w.runs[g]);
    hide RunOk, RunsOk;
  }

  lemma RunOf(w: World, g: Generation)
    requires Base(w) && g in w.runs
    ensures RunOk(w, g, w.runs[g])
  {
  }

  lemma BeginKeepsOthers(w: World, kind: Kind, mirror: bool)
    requires Base(w)
    ensures forall h | h in w.runs :: RunOk(Next(w, Begin(kind, mirror)), h, w.runs[h]) && h < w.nextGeneration
  {
    hide Replayed, Distinct, RunsOk;
    forall h | h in w.runs ensures RunOk(Next(w, Begin(kind, mirror)), h, w.runs[h]) && h < w.nextGeneration {
      RunOf(w, h);
      RunOkLater(w, Next(w, Begin(kind, mirror)), h, w.runs[h]);
    }
  }

  lemma BeginKeepsOwn(w: World, kind: Kind, mirror: bool)
    requires Base(w) && CanBegin(w, kind, mirror)
    ensures var v := Next(w, Begin(kind, mirror)); RunOk(v, w.nextGeneration, v.runs[w.nextGeneration])
  {
    hide Replayed, Distinct, RunsOk;
  }

  lemma BeginKeepsBase(w: World, kind: Kind, mirror: bool)
    requires Base(w)
    ensures Base(Next(w, Begin(kind, mirror)))
  {
    hide RunOk, Distinct;
    if CanBegin(w, kind, mirror) {
      BeginKeepsOthers(w, kind, mirror);
      BeginKeepsOwn(w, kind, mirror);
    }
  }

  lemma CreateKeepsOthers(w: World, g: Generation, image: Replay.Files)
    requires Base(w) && g in w.runs
    ensures var v := Next(w, CreateSandbox(g, image)); forall h | h in v.runs && h != g :: RunOk(v, h, v.runs[h])
  {
    hide HistoryOk, Replayed;
    var v := Next(w, CreateSandbox(g, image));
    forall h | h in v.runs && h != g ensures RunOk(v, h, v.runs[h]) {
      RunOf(w, h);
      RunOkLater(w, v, h, w.runs[h]);
    }
  }

  lemma CreateKeepsOwn(w: World, g: Generation, image: Replay.Files)
    requires Base(w) && g in w.runs
    ensures RunOk(Next(w, CreateSandbox(g, image)), g, Next(w, CreateSandbox(g, image)).runs[g])
  {
    hide RunsOk, Distinct;
    RunOf(w, g);
  }

  lemma CreateKeepsBase(w: World, g: Generation, image: Replay.Files)
    requires Base(w)
    ensures Base(Next(w, CreateSandbox(g, image)))
  {
    if g in w.runs && w.runs[g].phase == Planned {
      RunOf(w, g);
      CreateKeepsOwn(w, g, image);
      CreateKeepsOthers(w, g, image);
      TargetsKnown(w);
    }
    hide RunOk, Distinct;
  }

  lemma TargetsKnown(w: World)
    requires Base(w)
    ensures forall g | g in w.runs :: w.runs[g].target != Some(w.nextSandbox)
  {
    forall g | g in w.runs ensures w.runs[g].target != Some(w.nextSandbox) {
      RunOf(w, g);
    }
  }

  lemma PushKeepsBase(w: World, g: Generation, applied: bool, acknowledged: bool)
    requires Base(w)
    ensures Base(Next(w, Push(g, applied, acknowledged)))
  {
    hide Base, Pushed;
    if g in w.runs && w.runs[g].target.Some? {
      PushedKeepsBase(w, g, applied, acknowledged);
    }
  }

  lemma PushedKeepsBase(w: World, g: Generation, applied: bool, acknowledged: bool)
    requires Base(w) && g in w.runs && w.runs[g].target.Some?
    ensures Base(Pushed(w, g, applied, acknowledged))
  {
    hide Base;
    RunOf(w, g);
    var r, s := w.runs[g], w.runs[g].target.value;
    if r.phase == Committed || (r.phase == Replaying && Replayed(r)) {
      var v := w.(sent := w.sent + {s}, accepted := if applied || acknowledged then w.accepted + {(s, g)} else w.accepted);
      AddsKeepsBase(w, v, g);
      if acknowledged {
        UpdateKeepsBase(v, g, v.runs[g].(phase := if r.phase == Committed then Confirmed else Configured));
      }
    } else if r.phase == Bound && r.mirror && r.kind != Rotate && acknowledged {
      UpdateKeepsBase(w, g, w.runs[g].(phase := Preconfigured));
    }
  }

  lemma CommitKeepsHistory(w: World, g: Generation)
    requires Base(w)
    ensures HistoryOk(Next(w, Commit(g)))
  {
    hide RunsOk;
    if g in w.runs {
      RunOf(w, g);
    }
  }

  lemma CommitKeepsOthers(w: World, g: Generation, h: Generation)
    requires Base(w) && g in w.runs && h in w.runs && g != h
    ensures RunOk(Next(w, Commit(g)), h, w.runs[h])
  {
    hide HistoryOk, Replayed;
    RunOf(w, h);
    RunOf(w, g);
    if w.runs[g].target.Some? {
      TargetsDiffer(w, g, h);
    }
    hide RunsOk;
  }

  lemma CommitKeepsOwn(w: World, g: Generation)
    requires Base(w) && g in w.runs
    ensures RunOk(Next(w, Commit(g)), g, Next(w, Commit(g)).runs[g])
  {
    hide RunsOk, HistoryOk;
    RunOf(w, g);
  }

  lemma CommitKeepsBase(w: World, g: Generation)
    requires Base(w)
    ensures Base(Next(w, Commit(g)))
  {
    hide HistoryOk, RunOk;
    CommitKeepsHistory(w, g);
    var v := Next(w, Commit(g));
    forall h | h in v.runs ensures RunOk(v, h, v.runs[h]) {
      if g in w.runs && g != h {
        CommitKeepsOthers(w, g, h);
      } else if g == h {
        CommitKeepsOwn(w, g);
      }
    }
  }

  lemma DestroyOldKeepsBase(w: World, g: Generation)
    requires Base(w)
    ensures Base(Next(w, DestroyOld(g)))
  {
    hide Base;
    if g in w.runs && w.runs[g].phase == Retiring {
      var r := w.runs[g];
      RunOf(w, g);
      var v := w.(doomed := if r.source.Some? && r.source != r.target then w.doomed + {r.source.value} else w.doomed);
      AddsKeepsBase(w, v, g);
      UpdateKeepsBase(v, g, v.runs[g].(phase := Ended));
    }
  }

  lemma DiscardKeepsBase(w: World, g: Generation)
    requires Base(w)
    ensures Base(Next(w, Discard(g)))
  {
    hide Base;
    if g in w.runs && w.runs[g].phase == Discarding && w.runs[g].target.Some? {
      var v := w.(doomed := w.doomed + {w.runs[g].target.value});
      RunOf(w, g);
      AddsKeepsBase(w, v, g);
      UpdateKeepsBase(v, g, v.runs[g].(phase := Ended));
    }
  }

  /** Writing a status touches nothing else. */
  lemma StatusKeepsBase(w: World, status: Status)
    requires Base(w) && w.row.Some?
    ensures Base(w.(row := Some(w.row.value.(status := status))))
  {
    hide BeforeCommit, InWindow;
    var v := w.(row := Some(w.row.value.(status := status)));
    forall h | h in v.runs ensures RunOk(v, h, v.runs[h]) {
      assert RunOk(w, h, w.runs[h]);
    }
  }

  lemma MarkLiveKeepsBase(w: World, g: Generation)
    requires Base(w)
    ensures Base(Next(w, MarkLive(g)))
  {
    hide Base;
    if g in w.runs && w.runs[g].phase == Confirmed && w.row.Some? {
      StatusKeepsBase(w, Live);
      var v := w.(row := Some(w.row.value.(status := Live)));
      RunOf(v, g);
      UpdateKeepsBase(v, g, v.runs[g].(phase := Retiring));
    }
  }

  predicate Quiet(a: Action) {
    a.Bind? || a.ListRows? || a.Fail?
  }

  /** A run that fails goes to a phase it may be in. */
  lemma FailPhaseOk(w: World, g: Generation, r: Run)
    requires RunOk(w, g, r)
    ensures RunOk(w, g, r.(phase := AfterFailure(r)))
  {
  }

  /** The state a step without side effects leads to is one the run may be in. */
  lemma QuietPhaseOk(w: World, a: Action)
    requires Quiet(a) && a.run in w.runs && RunOk(w, a.run, w.runs[a.run])
    ensures RunOk(w, a.run, Next(w, a).runs[a.run])
    ensures Next(w, a) == Update(w, a.run, Next(w, a).runs[a.run]) && Next(w, a).runs[a.run].target == w.runs[a.run].target
  {
    hide AfterFailure;
    assert Update(w, a.run, w.runs[a.run]) == w;
    FailPhaseOk(w, a.run, w.runs[a.run]);
  }

  /** What the sandboxes hold is no part of the row's story. */
  lemma FilesKeepBase(w: World, files: map<Sandbox, Replay.Files>)
    requires Base(w)
    ensures Base(w.(files := files))
  {
    hide BeforeCommit, InWindow, Replayed, Distinct;
    forall h | h in w.runs ensures RunOk(w.(files := files), h, w.runs[h]) {
      RunOf(w, h);
    }
  }

  lemma RestoreKeepsBase(w: World, g: Generation, applied: bool, acknowledged: bool)
    requires Base(w)
    ensures Base(Next(w, RestoreRow(g, applied, acknowledged)))
  {
    hide Base, RunOk, CanRestore, Posted;
    if g in w.runs && CanRestore(w.runs[g]) {
      var r := w.runs[g];
      var w1 := if applied || acknowledged then w.(files := Posted(w, r)) else w;
      FilesKeepBase(w, Posted(w, r));
      RunOf(w1, g);
      if acknowledged {
        RestoredRunOk(w1, g, r);
        UpdateKeepsBase(w1, g, r.(restored := r.restored + 1));
      }
    }
  }

  lemma RestoredRunOk(w: World, g: Generation, r: Run)
    requires RunOk(w, g, r) && CanRestore(r)
    ensures RunOk(w, g, r.(restored := r.restored + 1))
  {
  }

  lemma QuietStepKeepsBase(w: World, a: Action)
    requires Base(w) && Quiet(a)
    ensures Base(Next(w, a))
  {
    hide Base, RunOk;
    if a.run in w.runs {
      RunOf(w, a.run);
      QuietPhaseOk(w, a);
      UpdateKeepsBase(w, a.run, Next(w, a).runs[a.run]);
    }
  }

  lemma StepKeepsBase(w: World, a: Action)
    requires Base(w)
    ensures Base(Next(w, a))
  {
    hide Base;
    match a
    case Begin(kind, mirror) => BeginKeepsBase(w, kind, mirror);
    case CreateSandbox(g, image) => CreateKeepsBase(w, g, image);
    case Push(g, applied, acknowledged) => PushKeepsBase(w, g, applied, acknowledged);
    case Commit(g) => CommitKeepsBase(w, g);
    case DestroyOld(g) => DestroyOldKeepsBase(w, g);
    case Discard(g) => DiscardKeepsBase(w, g);
    case MarkLive(g) => MarkLiveKeepsBase(w, g);
    case RestoreRow(g, applied, acknowledged) => RestoreKeepsBase(w, g, applied, acknowledged);
    case Work(s, files) => FilesKeepBase(w, w.files[s := files]);
    case _ => QuietStepKeepsBase(w, a);
  }

  lemma StepNamesNoDoomed(w: World, a: Action)
    requires Base(w) && NamesNoDoomed(w)
    ensures NamesNoDoomed(Next(w, a))
  {
    hide RunsOk, Distinct, Replayed;
    if OfRun(a) && a.run in w.runs {
      RunOf(w, a.run);
      if a.DestroyOld? && w.runs[a.run].phase == Retiring && w.runs[a.run].source.Some? {
        NotRetired(w, w.runs[a.run].source.value);
      }
    }
  }

  /** An instance that was created and has never been swapped. */
  predicate Settled(w: World) {
    && w.row.Some? && w.row.value.sandbox.Some? && w.row.value.status != Destroyed
    && w.runs == map[] && w.doomed == {} && w.names == [w.row.value.sandbox.value] && w.gens == [w.row.value.generation]
    && w.row.value.sandbox.value < w.nextSandbox && w.row.value.generation < w.nextGeneration
    && w.sent == {w.row.value.sandbox.value} && w.accepted == {(w.row.value.sandbox.value, w.row.value.generation)}
  }

  /** Every run below may start there. */
  lemma SettledIsSafe(w: World)
    requires Settled(w)
    ensures Base(w) && NamesNoDoomed(w) && WindowOk(w) && FilesOk(w)
  {
  }

  function After(w: World, actions: seq<Action>): World
    decreases |actions|
  {
    if actions == [] then w else After(Next(w, actions[0]), actions[1..])
  }

  /**
   * Whatever runs interleave and whatever fails, the row never names a sandbox anyone has sent to
   * `destroy_sandbox`, and no sandbox or generation is ever named twice.
   */
  lemma {:induction false} RowNeverNamesADoomedSandbox(w: World, actions: seq<Action>)
    requires Base(w) && NamesNoDoomed(w)
    ensures Base(After(w, actions)) && NamesNoDoomed(After(w, actions))
    decreases |actions|
  {
    hide Base, Next, NamesNoDoomed;
    if actions != [] {
      StepKeepsBase(w, actions[0]);
      StepNamesNoDoomed(w, actions[0]);
      RowNeverNamesADoomedSandbox(Next(w, actions[0]), actions[1..]);
    }
  }

  /** A step dooms only the sandbox its run created and never committed, or the one its run replaced. */
  lemma DestroysOnlyItsOwn(w: World, a: Action, s: Sandbox)
    requires Base(w) && s in Next(w, a).doomed && s !in w.doomed
    ensures OfRun(a) && a.run in w.runs
    ensures var r := w.runs[a.run];
            || (a.Discard? && r.target == Some(s) && s !in w.names)
            || (a.DestroyOld? && r.source == Some(s) && r.phase == Retiring && s in Retired(w) && a.run in w.gens)
  {
    hide Base, Retired, Replayed;
    RunOf(w, a.run);
  }

  // ----- What the new sandbox holds -----

  /** A target not yet named holds its image and the rows restored so far, or one row more that was not acknowledged. */
  ghost predicate RunFilesOk(w: World, r: Run) {
    && (r.listing.Some? ==> r.restored <= |r.listing.value| && Replay.AllPass(r.listing.value[..r.restored], Lenient(r.kind)))
    && (r.target.Some? && BeforeCommit(r) ==> Holds(r, FilesOf(w, r.target.value)))
  }

  ghost predicate Holds(r: Run, files: Replay.Files)
    requires r.listing.Some? ==> r.restored <= |r.listing.value|
  {
    if r.listing.None? then files == r.image else
    || files == Replay.Fold(r.image, r.listing.value[..r.restored])
    || (r.restored < |r.listing.value| && files == Replay.Fold(r.image, r.listing.value[..r.restored + 1]))
  }

  ghost predicate FilesOk(w: World) {
    forall g | g in w.runs :: RunFilesOk(w, w.runs[g])
  }

  /** Posting a row once more, or for the first time, leaves it applied once. */
  lemma PostedOnce(image: Replay.Files, listing: seq<Replay.Item>, k: nat, files: Replay.Files)
    requires k < |listing| && (files == Replay.Fold(image, listing[..k]) || files == Replay.Fold(image, listing[..k + 1]))
    ensures Replay.Put(files, listing[k].key, listing[k].outcome) == Replay.Fold(image, listing[..k + 1])
  {
    assert listing[..k + 1][..k] == listing[..k];
    PutTwice(Replay.Fold(image, listing[..k]), listing[k]);
  }

  lemma PutTwice(files: Replay.Files, item: Replay.Item)
    ensures var once := Replay.Put(files, item.key, item.outcome); Replay.Put(once, item.key, item.outcome) == once
  {
  }

  lemma RestoreKeepsOwnFiles(w: World, g: Generation, applied: bool, acknowledged: bool)
    requires g in w.runs && CanRestore(w.runs[g]) && RunFilesOk(w, w.runs[g])
    ensures var v := Restored(w, g, applied, acknowledged); RunFilesOk(v, v.runs[g])
  {
    hide Replay.Fold, Replay.Put, Replay.Passes;
    var r := w.runs[g];
    PostedOnce(r.image, r.listing.value, r.restored, FilesOf(w, r.target.value));
    assert r.listing.value[..r.restored + 1] == r.listing.value[..r.restored] + [r.listing.value[r.restored]];
  }

  /** What the files of a run depend on. */
  lemma RunFacts(w: World, g: Generation)
    requires Base(w) && g in w.runs
    ensures var r := w.runs[g];
            && g < w.nextGeneration
            && (r.target.Some? ==> r.target.value < w.nextSandbox && (BeforeCommit(r) ==> r.target.value !in w.names))
            && (r.phase == Planned ==> r.target.None?)
            && (r.phase == Planned || r.phase == Unbound || r.phase == Bound || r.phase == Preconfigured ==> r.listing.None?)
  {
    hide HistoryOk;
    RunOf(w, g);
  }

  /** A run other than the one that steps keeps its target's files. */
  lemma OthersKeepFiles(w: World, a: Action, h: Generation)
    requires Base(w) && h in w.runs && RunFilesOk(w, w.runs[h]) && (OfRun(a) ==> a.run != h)
    ensures h in Next(w, a).runs && Next(w, a).runs[h] == w.runs[h] && RunFilesOk(Next(w, a), w.runs[h])
  {
    hide Base, Replay.Fold, Replay.Put, Replay.Passes, Replayed, AfterFailure, Pushed, CanBegin, CanCommit, Replay.AllPass;
    RunFacts(w, h);
    if a.Push? && a.run in w.runs && w.runs[a.run].target.Some? {
      PushKeepsFiles(w, a.run, a.applied, a.acknowledged);
    }
    if OfRun(a) && a.run in w.runs && w.runs[a.run].target.Some? {
      TargetsDiffer(w, a.run, h);
    }
  }

  lemma PushKeepsFiles(w: World, g: Generation, applied: bool, acknowledged: bool)
    requires g in w.runs && w.runs[g].target.Some?
    ensures var v := Pushed(w, g, applied, acknowledged);
            v.files == w.files && g in v.runs && v.runs == w.runs[g := w.runs[g].(phase := v.runs[g].phase)]
    ensures BeforeCommit(Pushed(w, g, applied, acknowledged).runs[g]) ==> BeforeCommit(w.runs[g])
  {
    assert w.runs == w.runs[g := w.runs[g]];
  }

  lemma OwnStepKeepsFiles(w: World, a: Action)
    requires Base(w) && OfRun(a) && a.run in w.runs && RunFilesOk(w, w.runs[a.run])
    ensures RunFilesOk(Next(w, a), Next(w, a).runs[a.run])
  {
    hide Base, Replay.Fold, Replay.Put, Replay.Passes, Replayed, Restored, Pushed, CanCommit, Replay.AllPass;
    RunFacts(w, a.run);
    if a.RestoreRow? && CanRestore(w.runs[a.run]) {
      RestoreKeepsOwnFiles(w, a.run, a.applied, a.acknowledged);
    }
    if a.Push? && w.runs[a.run].target.Some? {
      PushKeepsFiles(w, a.run, a.applied, a.acknowledged);
    }
    if a.ListRows? {
      NothingFolded(w.runs[a.run].image, a.listing, Lenient(w.runs[a.run].kind));
    }
  }

  lemma NothingFolded(image: Replay.Files, listing: seq<Replay.Item>, lenient: bool)
    ensures Replay.Fold(image, listing[..0]) == image && Replay.AllPass(listing[..0], lenient)
  {
  }

  lemma StepKeepsFiles(w: World, a: Action)
    requires Base(w) && FilesOk(w)
    ensures FilesOk(Next(w, a))
  {
    hide Base, RunFilesOk;
    var v := Next(w, a);
    forall h | h in v.runs ensures RunFilesOk(v, v.runs[h]) {
      if h in w.runs {
        if OfRun(a) && a.run == h {
          OwnStepKeepsFiles(w, a);
        } else {
          OthersKeepFiles(w, a, h);
        }
      } else {
        BegunHasNoFiles(v, v.runs[h]);
      }
    }
  }

  lemma BegunHasNoFiles(w: World, r: Run)
    requires r.target.None? && r.listing.None?
    ensures RunFilesOk(w, r)
  {
  }

  lemma {:induction false} EveryRunKeepsFiles(w: World, actions: seq<Action>)
    requires Base(w) && FilesOk(w)
    ensures Base(After(w, actions)) && FilesOk(After(w, actions))
    decreases |actions|
  {
    hide Base, FilesOk, Next;
    if actions != [] {
      StepKeepsBase(w, actions[0]);
      StepKeepsFiles(w, actions[0]);
      EveryRunKeepsFiles(Next(w, actions[0]), actions[1..]);
    }
  }

  /** The row belongs to the caller and, in a recreate, can be read. */
  predicate Admitted(kind: Kind, item: Replay.Item) {
    item.owned && (kind == Recreate ==> item.outcome != Replay.Unreadable)
  }

  /** The sandbox holds exactly its image overlaid in order with every listed row, and every row was admitted. */
  ghost predicate FullyReplayed(w: World, r: Run) {
    && r.target.Some? && r.listing.Some? && (forall item <- r.listing.value :: Admitted(r.kind, item))
    && FilesOf(w, r.target.value) == Replay.Fold(r.image, r.listing.value)
  }

  function Posts(g: Generation, n: nat): seq<Action> {
    if n == 0 then [] else [RestoreRow(g, true, true)] + Posts(g, n - 1)
  }

  /**
   * Posting every remaining row finishes the replay exactly when all of them are admitted: an
   * unreadable row stops a recreate and no other swap.
   */
  lemma {:induction false} ReplayCompletesIff(w: World, g: Generation)
    requires g in w.runs && w.runs[g].phase == Replaying && w.runs[g].target.Some? && w.runs[g].listing.Some?
    requires w.runs[g].restored <= |w.runs[g].listing.value|
    ensures var r := w.runs[g];
            var v := After(w, Posts(g, |r.listing.value| - r.restored));
            && g in v.runs && v.runs[g] == r.(restored := v.runs[g].restored)
            && (Replayed(v.runs[g]) <==> forall item <- r.listing.value[r.restored..] :: Admitted(r.kind, item))
    decreases |w.runs[g].listing.value| - w.runs[g].restored
  {
    hide Replay.Put;
    var r := w.runs[g];
    var listing, k := r.listing.value, r.restored;
    if k < |listing| {
      var a, rest := RestoreRow(g, true, true), Posts(g, |listing| - k - 1);
      assert listing[k..] == [listing[k]] + listing[k + 1..];
      assert ([a] + rest)[1..] == rest;
      var v := Next(w, a);
      if Admitted(r.kind, listing[k]) {
        assert v.runs[g] == r.(restored := k + 1);
        ReplayCompletesIff(v, g);
      } else {
        StuckPosts(w, g, |listing| - k);
      }
    }
  }

  lemma {:induction false} StuckPosts(w: World, g: Generation, n: nat)
    requires g in w.runs && !CanRestore(w.runs[g])
    ensures After(w, Posts(g, n)) == w
  {
    if n > 0 {
      assert Posts(g, n)[1..] == Posts(g, n - 1);
      StuckPosts(w, g, n - 1);
    }
  }

  /**
   * In every interleaving a mirror-backed run sends its sandbox credentials, and repoints the row to
   * it, only once that sandbox holds the whole replay; a recreate only if every row was readable.
   */
  lemma MirrorBeforeCredentials(w: World, actions: seq<Action>, g: Generation)
    requires Base(w) && FilesOk(w)
    ensures var v := After(w, actions);
            g in v.runs && v.runs[g].mirror && v.runs[g].target.Some? ==>
              && (v.runs[g].target.value in v.sent && BeforeCommit(v.runs[g]) ==> FullyReplayed(v, v.runs[g]))
              && (v.runs[g].target.value in v.sent ==> Replayed(v.runs[g]))
              && (Next(v, Commit(g)).row != v.row ==>
                    FullyReplayed(Next(v, Commit(g)), v.runs[g]) && (v.runs[g].target.value, g) in v.accepted)
  {
    EveryRunKeepsFiles(w, actions);
    var v := After(w, actions);
    if g in v.runs && v.runs[g].mirror && v.runs[g].target.Some? {
      CredentialsNeedReplay(v, g);
    }
  }

  lemma CredentialsNeedReplay(w: World, g: Generation)
    requires Base(w) && FilesOk(w) && g in w.runs && w.runs[g].mirror && w.runs[g].target.Some?
    ensures w.runs[g].target.value in w.sent && BeforeCommit(w.runs[g]) ==> FullyReplayed(w, w.runs[g])
    ensures w.runs[g].target.value in w.sent ==> Replayed(w.runs[g])
    ensures Next(w, Commit(g)).row != w.row ==>
              FullyReplayed(Next(w, Commit(g)), w.runs[g]) && (w.runs[g].target.value, g) in w.accepted
  {
    hide Replay.Fold, HistoryOk, RunsOk;
    RunOf(w, g);
    var r := w.runs[g];
    assert RunFilesOk(w, r);
    if r.listing.Some? {
      assert r.listing.value[..|r.listing.value|] == r.listing.value;
    }
  }

  // ----- Live means configured -----

  /** The sandbox the row names has accepted a configure for the row's generation. */
  predicate RowConfigured(w: World) {
    && w.row.Some? && w.row.value.sandbox.Some?
    && (w.row.value.sandbox.value, w.row.value.generation) in w.accepted
  }

  predicate LiveIsConfigured(w: World) {
    w.row.Some? && w.row.value.status == Live ==> RowConfigured(w)
  }

  /** While the row is not configured, only the run that repointed it is between commit and live. */
  ghost predicate WindowOk(w: World) {
    && LiveIsConfigured(w)
    && (w.row.Some? && !RowConfigured(w) ==>
          forall g | g in w.runs && InWindow(w.runs[g]) ::
            w.runs[g].phase == Committed && w.runs[g].target == w.row.value.sandbox && g == w.row.value.generation)
  }

  /** A run without a mirror does not commit while another run is between its commit and its live mark. */
  predicate Guard(w: World, a: Action) {
    a.Commit? && a.run in w.runs && !w.runs[a.run].mirror && CanCommit(w.runs[a.run]) ==>
      forall h | h in w.runs && h != a.run :: !InWindow(w.runs[h])
  }

  ghost predicate Guarded(w: World, actions: seq<Action>)
    decreases |actions|
  {
    actions == [] || (Guard(w, actions[0]) && Guarded(Next(w, actions[0]), actions[1..]))
  }

  lemma StepKeepsWindow(w: World, a: Action)
    requires Base(w) && WindowOk(w) && Guard(w, a)
    ensures WindowOk(Next(w, a))
  {
    hide Base, Replayed, BeforeCommit, AfterFailure;
    if OfRun(a) && a.run in w.runs {
      RunOf(w, a.run);
      FailLeavesWindow(w.runs[a.run]);
    }
  }

  lemma FailLeavesWindow(r: Run)
    ensures !InWindow(r.(phase := AfterFailure(r)))
  {
  }

  /** In every guarded interleaving a Live row names a sandbox configured for the row's own generation. */
  lemma {:induction false} LiveMeansConfigured(w: World, actions: seq<Action>)
    requires Base(w) && WindowOk(w) && Guarded(w, actions)
    ensures Base(After(w, actions)) && WindowOk(After(w, actions))
    decreases |actions|
  {
    hide Base, Next, WindowOk, Guard;
    if actions != [] {
      StepKeepsBase(w, actions[0]);
      StepKeepsWindow(w, actions[0]);
      LiveMeansConfigured(Next(w, actions[0]), actions[1..]);
    }
  }

  function Overtaking(w: World, g: Generation, h: Generation): World {
    Next(Next(Next(w, Push(h, true, true)), Commit(g)), MarkLive(h))
  }

  lemma OvertakingBreaksLive(w: World, g: Generation, h: Generation)
    requires Base(w) && w.row.Some? && g in w.runs && h in w.runs && g != h
    requires InWindow(w.runs[h]) && !w.runs[g].mirror && CanCommit(w.runs[g])
    ensures var t := Overtaking(w, g, h); t.row.Some? && t.row.value.status == Live && !LiveIsConfigured(t)
  {
    hide HistoryOk, Replayed, BeforeCommit, RunsOk;
    RunOf(w, g);
    RunOf(w, h);
    TargetsDiffer(w, g, h);
    var w1 := Next(w, Push(h, true, true));
    assert w1.runs[h].phase == Confirmed && w1.runs[g] == w.runs[g];
    assert (w.runs[g].target.value, g) !in w1.accepted;
  }

  lemma TargetsDiffer(w: World, g: Generation, h: Generation)
    requires Base(w) && g in w.runs && h in w.runs && g != h && w.runs[g].target.Some?
    ensures w.runs[g].target != w.runs[h].target
  {
  }

  /** The guard is exact: every commit that breaks it can be continued to a Live row that is not configured. */
  lemma UnguardedCommitBreaksLive(w: World, g: Generation)
    requires Base(w) && w.row.Some? && !Guard(w, Commit(g))
    ensures exists h :: var t := After(w, [Push(h, true, true), Commit(g), MarkLive(h)]);
                        t.row.Some? && t.row.value.status == Live && !LiveIsConfigured(t)
  {
    hide Base, Next, LiveIsConfigured;
    var h :| h in w.runs && h != g && InWindow(w.runs[h]);
    OvertakingBreaksLive(w, g, h);
    var a, b, c := Push(h, true, true), Commit(g), MarkLive(h);
    assert [a, b, c][1..] == [b, c] && [b, c][1..] == [c] && [c][1..] == [];
    assert After(w, [a, b, c]) == After(Next(w, a), [b, c]) == After(Next(Next(w, a), b), [c]);
    assert After(Next(Next(w, a), b), [c]) == Overtaking(w, g, h);
  }

  /** A live mark by a run whose sandbox the row no longer names, on a row that nobody has configured. */
  predicate Stray(w: World, a: Action) {
    && a.MarkLive? && a.run in w.runs && w.runs[a.run].phase == Confirmed && w.row.Some?
    && (w.row.value.sandbox, w.row.value.generation) != (w.runs[a.run].target, a.run) && !RowConfigured(w)
  }

  ghost predicate NeverStray(w: World, actions: seq<Action>)
    decreases |actions|
  {
    actions == [] || (!Stray(w, actions[0]) && NeverStray(Next(w, actions[0]), actions[1..]))
  }

  ghost predicate AlwaysLiveConfigured(w: World, actions: seq<Action>)
    decreases |actions|
  {
    LiveIsConfigured(w) && (actions == [] || AlwaysLiveConfigured(Next(w, actions[0]), actions[1..]))
  }

  lemma StrayBreaksLive(w: World, a: Action)
    requires Base(w) && LiveIsConfigured(w)
    ensures LiveIsConfigured(Next(w, a)) <==> !Stray(w, a)
  {
    hide HistoryOk, RunsOk, Replayed, BeforeCommit, AfterFailure, Restored;
    if OfRun(a) && a.run in w.runs {
      RunOf(w, a.run);
      if a.RestoreRow? && CanRestore(w.runs[a.run]) {
        RestoreKeepsRow(w, a.run, a.applied, a.acknowledged);
      }
    }
  }

  lemma RestoreKeepsRow(w: World, g: Generation, applied: bool, acknowledged: bool)
    requires g in w.runs && CanRestore(w.runs[g])
    ensures var v := Restored(w, g, applied, acknowledged); v.row == w.row && v.accepted == w.accepted
  {
  }

  /** Over any interleaving, a Live row is configured at every point exactly when no live mark was a stray. */
  lemma {:induction false} LiveConfiguredExactly(w: World, actions: seq<Action>)
    requires Base(w) && LiveIsConfigured(w)
    ensures AlwaysLiveConfigured(w, actions) <==> NeverStray(w, actions)
    decreases |actions|
  {
    hide Base, Next, LiveIsConfigured, Stray;
    if actions != [] {
      var v := Next(w, actions[0]);
      StepKeepsBase(w, actions[0]);
      StrayBreaksLive(w, actions[0]);
      if LiveIsConfigured(v) {
        LiveConfiguredExactly(v, actions[1..]);
      } else {
        assert !AlwaysLiveConfigured(v, actions[1..]);
      }
    }
  }

  // ----- The unguarded commit is reachable -----

  /** Two recreates without a mirror, the first of which has just committed. */
  function Racing(g: Generation, h: Generation, image: Replay.Files): seq<Action> {
    [ Begin(Recreate, false), Begin(Recreate, false), CreateSandbox(g, image), CreateSandbox(h, image), Bind(g), Bind(h), Commit(g) ]
  }

  lemma AfterUnfold(w: World, a: Action, rest: seq<Action>)
    ensures After(w, [a] + rest) == After(Next(w, a), rest)
  {
    assert ([a] + rest)[1..] == rest;
  }

  predicate PlainAt(w: World, g: Generation, phase: Phase) {
    g in w.runs && w.runs[g].phase == phase && !w.runs[g].mirror
  }

  lemma BothBegin(w: World)
    requires w.row.Some? && w.row.value.sandbox.Some? && w.row.value.status != Destroyed
    ensures var v := Next(Next(w, Begin(Recreate, false)), Begin(Recreate, false));
            && PlainAt(v, w.nextGeneration, Planned) && PlainAt(v, w.nextGeneration + 1, Planned) && v.row == w.row
  {
  }

  lemma BothBind(w: World, g: Generation, h: Generation, image: Replay.Files)
    requires PlainAt(w, g, Planned) && PlainAt(w, h, Planned) && g != h
    ensures var v := Next(Next(w, CreateSandbox(g, image)), CreateSandbox(h, image));
            PlainAt(v, g, Unbound) && PlainAt(v, h, Unbound) && v.runs[g].target.Some? && v.row == w.row
  {
  }

  lemma FirstCommits(w: World, g: Generation, h: Generation)
    requires PlainAt(w, g, Unbound) && PlainAt(w, h, Unbound) && g != h && w.runs[g].target.Some? && w.row.Some?
    ensures var v := Next(Next(Next(w, Bind(g)), Bind(h)), Commit(g));
            v.row.Some? && g in v.runs && InWindow(v.runs[g]) && PlainAt(v, h, Bound)
  {
    var w1 := Next(Next(w, Bind(g)), Bind(h));
    assert PlainAt(w1, g, Bound) && PlainAt(w1, h, Bound) && w1.runs[g].target.Some?;
  }

  /** From any settled instance two recreates reach a commit that breaks the guard. */
  lemma RacingReachesUnguarded(w: World, image: Replay.Files)
    requires Settled(w)
    ensures var g, h := w.nextGeneration, w.nextGeneration + 1;
            var v := After(w, Racing(g, h, image));
            !Guard(v, Commit(h)) && v.row.Some?
  {
    hide After, Next;
    var g, h := w.nextGeneration, w.nextGeneration + 1;
    BothBegin(w);
    var w2 := Next(Next(w, Begin(Recreate, false)), Begin(Recreate, false));
    BothBind(w2, g, h, image);
    FirstCommits(Next(Next(w2, CreateSandbox(g, image)), CreateSandbox(h, image)), g, h);
    RacingUnfolds(w, image);
  }

  lemma {:induction false} AfterAppend(w: World, a: seq<Action>, b: seq<Action>)
    ensures After(w, a + b) == After(After(w, a), b)
    decreases |a|
  {
    hide Next;
    if a == [] {
      assert a + b == b;
    } else {
      assert (a + b)[1..] == a[1..] + b;
      AfterAppend(Next(w, a[0]), a[1..], b);
    }
  }

  /** So from any settled instance some run ends with a Live row whose sandbox was never configured for it. */
  lemma LiveUnconfiguredIsReachable(w: World)
    requires Settled(w)
    ensures exists actions :: !LiveIsConfigured(After(w, actions))
  {
    hide After, Next, LiveIsConfigured, Settled, Base, NamesNoDoomed, WindowOk, FilesOk, Guard, Racing;
    var g, h := w.nextGeneration, w.nextGeneration + 1;
    var first := Racing(g, h, map[]);
    SettledIsSafe(w);
    RacingReachesUnguarded(w, map[]);
    RowNeverNamesADoomedSandbox(w, first);
    var v := After(w, first);
    UnguardedCommitBreaksLive(v, h);
    var k :| !LiveIsConfigured(After(v, [Push(k, true, true), Commit(h), MarkLive(k)]));
    AfterAppend(w, first, [Push(k, true, true), Commit(h), MarkLive(k)]);
  }

  lemma RacingUnfolds(w: World, image: Replay.Files)
    ensures var g, h := w.nextGeneration, w.nextGeneration + 1;
            var w2 := Next(Next(w, Begin(Recreate, false)), Begin(Recreate, false));
            var w4 := Next(Next(w2, CreateSandbox(g, image)), CreateSandbox(h, image));
            After(w, Racing(g, h, image)) == Next(Next(Next(w4, Bind(g)), Bind(h)), Commit(g))
  {
    hide Next, After;
    var g, h := w.nextGeneration, w.nextGeneration + 1;
    var b := Begin(Recreate, false);
    var r := Racing(g, h, image);
    assert r == [b] + r[1..] && r[1..] == [b] + r[2..] && r[2..] == [r[2]] + r[3..] && r[3..] == [r[3]] + r[4..];
    assert r[4..] == [r[4]] + r[5..] && r[5..] == [r[5]] + r[6..] && r[6..] == [r[6]] + [];
    AfterUnfold(w, b, r[1..]);
    var w1 := Next(w, b);
    AfterUnfold(w1, b, r[2..]);
    var w2 := Next(w1, b);
    AfterUnfold(w2, r[2], r[3..]);
    AfterUnfold(Next(w2, r[2]), r[3], r[4..]);
    var w4 := Next(Next(w2, r[2]), r[3]);
    AfterUnfold(w4, r[4], r[5..]);
    AfterUnfold(Next(w4, r[4]), r[5], r[6..]);
    var w6 := Next(Next(w4, r[4]), r[5]);
    AfterUnfold(w6, r[6], []);
    NothingLeft(Next(w6, r[6]));
  }

  lemma NothingLeft(w: World)
    ensures After(w, []) == w
  {
  }
}
