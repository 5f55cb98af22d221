/** The cache of OAuth flows in progress (crates/core/src/mcp_servers.rs). */
module OAuthFlow {
  import opened Wrappers

  datatype Flow = Flow(payload: string, expiresAt: int)

  datatype Op = Insert(state: string, flow: Flow, now: int) | Take(state: string, now: int)

  /** What a map that is never pruned holds for `state`: the last insert, unless it was taken since. */
  function Unconsumed(history: seq<Op>, state: string): Option<Flow> {
    if history == [] then None else
    var op := history[|history| - 1];
    if op.state != state then Unconsumed(history[..|history| - 1], state)
    else if op.Insert? then Some(op.flow) else None
  }

  /** Times of the operations since that insert. */
  function Since(history: seq<Op>, state: string): seq<int> {
    if history == [] then [] else
    var op := history[|history| - 1];
    if op.state == state then [] else Since(history[..|history| - 1], state) + [op.now]
  }

  /** Some clock reading since the insert has reached the expiry. */
  ghost predicate SeenExpired(history: seq<Op>, state: string) {
    Unconsumed(history, state).Some? && exists t <- Since(history, state) :: t >= Unconsumed(history, state).value.expiresAt
  }

  ghost predicate Held(history: seq<Op>, state: string) {
    Unconsumed(history, state).Some? && !SeenExpired(history, state)
  }

  ghost predicate Survives(history: seq<Op>, state: string, now: int) {
    Held(history, state) && now < Unconsumed(history, state).value.expiresAt
  }

  // ----- The cache, and the map it stands for -----

  function Pruned(inner: map<string, Flow>, now: int): map<string, Flow> {
    map s | s in inner && inner[s].expiresAt > now :: inner[s]
  }

  function Found(inner: map<string, Flow>, state: string): Option<Flow> {
    if state in inner then Some(inner[state]) else None
  }

  /** What the cache holds after some operations: each one prunes first. */
  function CacheAfter(history: seq<Op>): map<string, Flow> {
    if history == [] then map[] else
    var op := history[|history| - 1];
    var inner := Pruned(CacheAfter(history[..|history| - 1]), op.now);
    if op.Insert? then inner[op.state := op.flow] else inner - {op.state}
  }

  /** What a map that is never pruned holds. */
  function PlainAfter(history: seq<Op>): map<string, Flow> {
    if history == [] then map[] else
    var op, inner := history[|history| - 1], PlainAfter(history[..|history| - 1]);
    if op.Insert? then inner[op.state := op.flow] else inner - {op.state}
  }

  /** The cache's answers to the takes of a run, in order; an insert answers nothing. */
  function Answers(history: seq<Op>): seq<Option<Flow>> {
    if history == [] then [] else
    var init, op := history[..|history| - 1], history[|history| - 1];
    Answers(init) + [if op.Take? then Found(Pruned(CacheAfter(init), op.now), op.state) else None]
  }

  /** The answers of the map that is never pruned, which looks at the expiry when asked. */
  function PlainAnswers(history: seq<Op>): seq<Option<Flow>> {
    if history == [] then [] else
    var init, op := history[..|history| - 1], history[|history| - 1];
    PlainAnswers(init) + [if op.Take? then Found(Pruned(PlainAfter(init), op.now), op.state) else None]
  }

  lemma {:induction false} CacheHolds(history: seq<Op>, state: string)
    ensures Found(CacheAfter(history), state) == if Held(history, state) then Unconsumed(history, state) else None
  {
    if history != [] {
      var init, op := history[..|history| - 1], history[|history| - 1];
      assert history == init + [op];
      CacheHolds(init, state);
      HeldAfter(init, op, state);
      Appended(init, op);
    }
  }

  lemma {:induction false} PlainHolds(history: seq<Op>, state: string)
    ensures Found(PlainAfter(history), state) == Unconsumed(history, state)
  {
    if history != [] {
      PlainHolds(history[..|history| - 1], state);
    }
  }

  class OAuthFlowCache {
    var inner: map<string, Flow>
    ghost var history: seq<Op>

    ghost predicate Valid()
      reads this
    {
      inner == CacheAfter(history)
    }

    constructor ()
      ensures Valid() && history == []
    {
      inner, history := map[], [];
    }

    method Insert(state: string, flow: Flow, now: int)
      requires Valid()
      modifies this
      ensures Valid() && history == old(history) + [Op.Insert(state, flow, now)]
      ensures Answers(history) == old(Answers(history)) + [None]
    {
      inner := Pruned(inner, now);
      inner := inner[state := flow];
      history := history + [Op.Insert(state, flow, now)];
      assert history[..|history| - 1] == old(history);
    }

    /** Returns the last insert that was not taken, exactly when no operation since then saw it expired. */
    method Take(state: string, now: int) returns (r: Option<Flow>)
      requires Valid()
      modifies this
      ensures Valid() && history == old(history) + [Op.Take(state, now)]
      ensures Answers(history) == old(Answers(history)) + [r]
      ensures r == if Survives(old(history), state, now) then Unconsumed(old(history), state) else None
    {
      inner := Pruned(inner, now);
      r := Found(inner, state);
      inner := inner - {state};
      history := history + [Op.Take(state, now)];
      assert history[..|history| - 1] == old(history);
      CacheHolds(old(history), state);
    }
  }

  lemma Appended(history: seq<Op>, op: Op)
    ensures forall s :: Unconsumed(history + [op], s) ==
              if op.state != s then Unconsumed(history, s) else if op.Insert? then Some(op.flow) else None
    ensures forall s :: Since(history + [op], s) == if op.state == s then [] else Since(history, s) + [op.now]
    ensures forall s :: Held(history + [op], s) <==> if op.state == s then op.Insert? else Survives(history, s, op.now)
  {
    assert (history + [op])[..|history|] == history;
    forall s ensures Held(history + [op], s) <==> if op.state == s then op.Insert? else Survives(history, s, op.now) {
      HeldAfter(history, op, s);
    }
  }

  lemma HeldAfter(history: seq<Op>, op: Op, s: string)
    ensures Held(history + [op], s) <==> if op.state == s then op.Insert? else Survives(history, s, op.now)
  {
    assert (history + [op])[..|history|] == history;
    if op.state != s {
      var before, after := Since(history, s), Since(history + [op], s);
      assert after == before + [op.now];
      assert Unconsumed(history + [op], s) == Unconsumed(history, s);
      assert forall t :: t in after <==> t in before || t == op.now;
      assert op.now in Since(history + [op], s);
    }
  }

  predicate NonDecreasing(history: seq<Op>, now: int) {
    (forall i, j | 0 <= i < j < |history| :: history[i].now <= history[j].now) && forall op <- history :: op.now <= now
  }

  /** With a clock that never goes back, pruning is not observable: only the time of the take matters. */
  lemma {:induction false} PruningIsInvisible(history: seq<Op>, state: string, now: int)
    requires NonDecreasing(history, now)
    ensures Survives(history, state, now) <==>
            Unconsumed(history, state).Some? && now < Unconsumed(history, state).value.expiresAt
  {
    SinceIsPast(history, state, now);
  }

  lemma {:induction false} SinceIsPast(history: seq<Op>, state: string, now: int)
    requires forall op <- history :: op.now <= now
    ensures forall t <- Since(history, state) :: t <= now
  {
    if history != [] {
      SinceIsPast(history[..|history| - 1], state, now);
    }
  }

  /** This take loses a flow that is valid now, because some operation since its insert read a later clock. */
  ghost predicate Loses(history: seq<Op>, op: Op) {
    && op.Take? && Unconsumed(history, op.state).Some? && op.now < Unconsumed(history, op.state).value.expiresAt
    && SeenExpired(history, op.state)
  }

  ghost predicate NeverLoses(history: seq<Op>) {
    forall i | 0 <= i < |history| :: !Loses(history[..i], history[i])
  }

  lemma AnswersAlike(init: seq<Op>, op: Op)
    requires op.Take?
    ensures Found(Pruned(CacheAfter(init), op.now), op.state) == Found(Pruned(PlainAfter(init), op.now), op.state) <==> !Loses(init, op)
  {
    CacheHolds(init, op.state);
    PlainHolds(init, op.state);
    hide CacheAfter, PlainAfter, Unconsumed, SeenExpired;
  }

  /** Over any run and any clock, the cache answers every take as the map that is never pruned, exactly when no take loses a flow. */
  lemma {:induction false} AnswersAsUnprunedIff(history: seq<Op>)
    ensures |Answers(history)| == |PlainAnswers(history)| == |history|
    ensures Answers(history) == PlainAnswers(history) <==> NeverLoses(history)
  {
    if history != [] {
      var init, op := history[..|history| - 1], history[|history| - 1];
      AnswersAsUnprunedIff(init);
      if op.Take? {
        AnswersAlike(init, op);
      }
      var a, b := Answers(history), PlainAnswers(history);
      assert a[..|init|] == Answers(init) && b[..|init|] == PlainAnswers(init);
      assert a == b <==> Answers(init) == PlainAnswers(init) && a[|init|] == b[|init|];
      assert forall i | 0 <= i < |init| :: history[..i] == init[..i] && history[i] == init[i];
      assert history[..|init|] == init && history[|init|] == op;
      LosesSnoc(history);
    }
  }

  lemma LosesSnoc(history: seq<Op>)
    requires history != []
    ensures NeverLoses(history) <==> NeverLoses(history[..|history| - 1]) && !Loses(history[..|history| - 1], history[|history| - 1])
  {
    hide Loses;
    var init := history[..|history| - 1];
    assert forall i | 0 <= i < |init| :: history[..i] == init[..i] && history[i] == init[i];
    assert history[..|init|] == init;
  }

  /** With a clock that never goes back the cache cannot be told from the map that is never pruned. */
  lemma SteadyClockAnswersAlike(history: seq<Op>)
    requires forall i, j | 0 <= i < j < |history| :: history[i].now <= history[j].now
    ensures Answers(history) == PlainAnswers(history)
  {
    AnswersAsUnprunedIff(history);
    forall i | 0 <= i < |history| ensures !Loses(history[..i], history[i]) {
      PruningIsInvisible(history[..i], history[i].state, history[i].now);
    }
  }

  /** A clock that goes back can lose a flow that has not expired: the two answers differ. */
  lemma BackwardClockLosesFlow(state: string, other: string, flow: Flow)
    requires other != state
    ensures var history := [Insert(state, flow, flow.expiresAt - 2), Take(other, flow.expiresAt), Take(state, flow.expiresAt - 1)];
            Answers(history) != PlainAnswers(history)
  {
    hide Answers, PlainAnswers;
    var first, second, third := Insert(state, flow, flow.expiresAt - 2), Take(other, flow.expiresAt), Take(state, flow.expiresAt - 1);
    var history := [first, second, third];
    Appended([], first);
    Appended([first], second);
    assert [] + [first] == [first] && [first] + [second] == [first, second] == history[..2];
    assert flow.expiresAt in Since([first, second], state);
    assert Loses(history[..2], history[2]);
    AnswersAsUnprunedIff(history);
  }

  /** After a take the same state yields nothing until it is inserted again. */
  lemma {:induction false} TakenAtMostOnce(history: seq<Op>, state: string, now: int, later: seq<Op>)
    requires forall op <- later :: !(op.Insert? && op.state == state)
    ensures Unconsumed(history + [Take(state, now)] + later, state).None?
    decreases |later|
  {
    var all := history + [Take(state, now)] + later;
    if later == [] {
      assert all == history + [Take(state, now)];
      Appended(history, Take(state, now));
    } else {
      var init := later[..|later| - 1];
      TakenAtMostOnce(history, state, now, init);
      assert all[..|all| - 1] == history + [Take(state, now)] + init && all[|all| - 1] == later[|later| - 1];
    }
  }
}
