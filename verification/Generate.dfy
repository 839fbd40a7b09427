/** `SequenceModel.generate`: the layered loops with their pruning buffer, and the report they end in. */
module Generate {
  import opened Ranking
  import opened Rollout
  import opened Wrappers

  datatype Forecast<R> = Forecast(risk: Option<real>, outcomes: seq<(R, real)>, other: real, unknown: real)
  datatype Prediction<A, R> = Prediction(forecast: Forecast<R>, candidates: seq<Final<A, R>>, expansions: nat)
  datatype Error = InvalidRequest | MassMismatch | RiskInconsistent
  datatype Result<+T> = Ok(value: T) | Err(error: Error)

  const HORIZONS: set<nat> := {1, 2, 4, 8}

  // ------------------------------------------------------------------ the report

  /** Add mass to the entry for r, a new entry going last. */
  function Credit<R(==)>(table: seq<(R, real)>, r: R, mass: real): seq<(R, real)> {
    if table == [] then [(r, mass)]
    else if table[0].0 == r then [(r, table[0].1 + mass)] + table[1..]
    else [table[0]] + Credit(table[1..], r, mass)
  }

  function Group<A, R(==)>(finished: seq<Final<A, R>>): seq<(R, real)> {
    if finished == [] then []
    else
      var n := |finished| - 1;
      Credit(Group(finished[..n]), finished[n].value.0, finished[n].mass)
  }

  function Min(a: real, b: real): real { if a <= b then a else b }
  function Max(a: real, b: real): real { if a >= b then a else b }

  function Clamped<R>(table: seq<(R, real)>): seq<(R, real)> {
    if table == [] then [] else [(table[0].0, Min(1.0, table[0].1))] + Clamped(table[1..])
  }

  function TableSum<R>(table: seq<(R, real)>): real {
    if table == [] then 0.0 else table[0].1 + TableSum(table[1..])
  }

  function SinkSum<R>(sink: R -> bool, table: seq<(R, real)>): real {
    if table == [] then 0.0 else (if sink(table[0].0) then table[0].1 else 0.0) + SinkSum(sink, table[1..])
  }

  /** A risk is reported only when nothing was left out; the record refuses a mass that is
      not 1 and a risk outside what the outcomes allow. */
  function Conclude<A, R(==)>(sink: R -> bool, table: seq<(R, real)>, finished: seq<Final<A, R>>, unknown: real,
      other: real, used: nat): Result<Prediction<A, R>> {
    var outcomes := Clamped(table);
    var arrived := SinkSum(sink, outcomes);
    var risk := if unknown + other < 0.000000000001 then Some(Min(1.0, arrived)) else None;
    var o, k := Min(1.0, Max(0.0, other)), Min(1.0, Max(0.0, unknown));
    var mass := TableSum(outcomes) + o + k;
    if !(-0.000000001 <= mass - 1.0 <= 0.000000001) then Err(MassMismatch)
    else if risk.Some? && !(arrived - 0.000000001 <= risk.value <= arrived + o + k + 0.000000001)
      then Err(RiskInconsistent)
    else Ok(Prediction(Forecast(risk, outcomes, o, k), finished, used))
  }

  lemma ConcludeKeeps<A, R>(sink: R -> bool, table: seq<(R, real)>, finished: seq<Final<A, R>>, unknown: real,
      other: real, used: nat)
    ensures var r := Conclude(sink, table, finished, unknown, other, used);
      r.Ok? ==> r.value.candidates == finished && r.value.expansions == used
  {
  }

  function Report<A, R(==)>(sink: R -> bool, finished: seq<Final<A, R>>, unknown: real, other: real,
      used: nat): Result<Prediction<A, R>> {
    Conclude(sink, Group(finished), finished, unknown, other, used)
  }

  /** What a request yields: the simple rollout, reported. */
  function Predict<S, P, A, R(==), K>(w: World<S, P, A, R, K>, s: S, p: P, horizon: nat,
      k: nat): Result<Prediction<A, R>> {
    if horizon !in HORIZONS || !(1 <= k <= MAX_BEAM) then Err(InvalidRequest)
    else
      var t := w.Run(k, horizon, s, p);
      Report(w.sink, t.finished, t.unknown, t.other, t.used)
  }

  // ------------------------------------------------------------------- the loops

  /** The buffer c the loops work on stands for b, which holds everything the layer has grown. */
  ghost predicate Stands<S, P, A, R, K>(w: World<S, P, A, R, K>, k: nat, b: Buffer<S, P, A, R>, c: Buffer<S, P, A, R>) {
    && Best(w.le, k, c.grown) == Best(w.le, k, b.grown)
    && MassOf(c.grown) + c.other == MassOf(b.grown) + b.other
    && c.finished == b.finished && c.unknown == b.unknown && c.used == b.used
  }

  lemma PushOne<S, P, A, R>(b: Buffer<S, P, A, R>, done: seq<Event<S, P, A, R>>, e: Event<S, P, A, R>)
    ensures PushAll(b, done + [e]) == Push(PushAll(b, done), e)
    ensures RecordAll(b, done + [e]) == Record(RecordAll(b, done), e)
  {
    assert (done + [e])[..|done|] == done;
  }

  lemma StandsAfterGrow<S, P, A(!new), R, K>(w: World<S, P, A, R, K>, k: nat, b: Buffer<S, P, A, R>,
      c: Buffer<S, P, A, R>, row: Row<S, P, A>)
    requires TotalOrder(w.le) && b.used < MAX_EXPANSIONS && Stands(w, k, b, c)
    ensures Stands(w, k, Push(b, Grow(row)), c.(grown := c.grown + [row], used := c.used + 1))
  {
    BestCongruence(w.le, k, c.grown, b.grown, row);
    SumAppend(ByMass(), c.grown, [row]);
    SumAppend(ByMass(), b.grown, [row]);
  }

  lemma StandsAfterPrune<S, P, A(!new), R, K>(w: World<S, P, A, R, K>, k: nat, b: Buffer<S, P, A, R>,
      c: Buffer<S, P, A, R>)
    requires TotalOrder(w.le) && Stands(w, k, b, c)
    ensures Stands(w, k, b, c.(grown := Best(w.le, k, c.grown), other := c.other + MassOf(Dropped(w.le, k, c.grown))))
  {
    SumSplit(ByMass(), w.le, k, c.grown);
    BestOfBest(w.le, k, c.grown);
  }

  /** One token of one row. */
  method Follow<S, P, A(==, !new), R, K(==)>(w: World<S, P, A, R, K>, k: nat, row: Row<S, P, A>,
      choice: (Token<A>, real),
      c0: Buffer<S, P, A, R>, ghost b: Buffer<S, P, A, R>)
    returns (c: Buffer<S, P, A, R>)
    requires TotalOrder(w.le) && Stands(w, k, b, c0)
    requires |c0.grown| <= 2 * k && c0.used <= MAX_EXPANSIONS
    ensures Stands(w, k, Push(b, w.EventOf(row, choice)), c)
    ensures |c.grown| <= 2 * k && c.used <= MAX_EXPANSIONS
  {
    hide Best, Dropped, MassOf;
    c := c0;
    ghost var e := w.EventOf(row, choice);
    var (action, joint) := (choice.0, row.mass * choice.1);
    if c.used >= MAX_EXPANSIONS {
      assert e.Mass() == joint;
      assert Push(b, e) == b.(other := b.other + joint);
      c := c.(other := c.other + joint);
      return;
    }
    if action.Act? {
      match w.advance(row.value.0, row.value.1, action.action) {
        case None =>
          assert e == Lost(joint, row.actions, Some(action));
          c := c.(used := c.used + 1, unknown := c.unknown + joint);
        case Some((following, paths)) =>
          var grown := Item(joint, row.actions + [action.action], (following, paths));
          assert e == Grow(grown);
          StandsAfterGrow(w, k, b, c, grown);
          c := c.(used := c.used + 1, grown := c.grown + [grown]);
          if |c.grown| > 2 * k {
            StandsAfterPrune(w, k, Push(b, e), c);
            c := c.(other := c.other + MassOf(Dropped(w.le, k, c.grown)), grown := Best(w.le, k, c.grown));
          }
      }
    } else if action == Unknown {
      assert e == Lost(joint, row.actions, Some(Unknown));
      c := c.(used := c.used + 1, unknown := c.unknown + joint);
    } else {
      match w.routes(row.value.1) {
        case None =>
          assert e == Lost(joint, row.actions, Some(End));
          c := c.(used := c.used + 1, unknown := c.unknown + joint);
        case Some(routes) =>
          assert e == Finish(Item(joint, row.actions, (routes, true)));
          c := c.(used := c.used + 1, finished := c.finished + [Item(joint, row.actions, (routes, true))]);
      }
    }
  }

  /** Every token of one row; tokens of no mass are skipped. */
  method ExpandRow<S, P, A(==, !new), R, K(==)>(w: World<S, P, A, R, K>, k: nat, row: Row<S, P, A>,
      c0: Buffer<S, P, A, R>, ghost b0: Buffer<S, P, A, R>, ghost before: seq<Event<S, P, A, R>>)
    returns (c: Buffer<S, P, A, R>)
    requires TotalOrder(w.le) && Stands(w, k, PushAll(b0, before), c0)
    requires |c0.grown| <= 2 * k && c0.used <= MAX_EXPANSIONS
    ensures Stands(w, k, PushAll(b0, before + w.RowEvents(row, w.Choices(row.value.0))), c)
    ensures |c.grown| <= 2 * k && c.used <= MAX_EXPANSIONS
  {
    hide Stands, Push, PushAll, World.EventOf;
    c := c0;
    var choices := w.Choices(row.value.0);
    assert before + w.RowEvents(row, choices[..0]) == before;
    for j := 0 to |choices|
      invariant |c.grown| <= 2 * k && c.used <= MAX_EXPANSIONS
      invariant Stands(w, k, PushAll(b0, before + w.RowEvents(row, choices[..j])), c)
    {
      assert choices[..j + 1][..j] == choices[..j];
      ghost var done := before + w.RowEvents(row, choices[..j]);
      if row.mass * choices[j].1 != 0.0 {
        assert before + w.RowEvents(row, choices[..j + 1]) == done + [w.EventOf(row, choices[j])];
        PushOne(b0, done, w.EventOf(row, choices[j]));
        c := Follow(w, k, row, choices[j], c, PushAll(b0, done));
      } else {
        assert before + w.RowEvents(row, choices[..j + 1]) == done;
      }
    }
    assert choices[..|choices|] == choices;
  }

  lemma LayerBegins<S, P, A, R, K>(w: World<S, P, A, R, K>, k: nat, t: Tally<S, P, A, R>)
    ensures Stands(w, k, PushAll(Open(t), w.LayerEvents(t.active[..0])), Open(t))
  {
  }

  lemma LayerNext<S, P, A, R, K>(w: World<S, P, A, R, K>, active: seq<Row<S, P, A>>, i: nat)
    requires i < |active|
    ensures w.LayerEvents(active[..i + 1])
      == w.LayerEvents(active[..i]) + w.RowEvents(active[i], w.Choices(active[i].value.0))
  {
    hide World.RowEvents, World.Choices;
    assert active[..i + 1][..i] == active[..i];
  }

  lemma HorizonNext<S, P, A, R, K>(w: World<S, P, A, R, K>, active: seq<Row<S, P, A>>, i: nat)
    requires i < |active|
    ensures w.HorizonEvents(active[..i + 1])
      == w.HorizonEvents(active[..i]) + [w.Arrive(active[i].mass, active[i].value.1, active[i].actions, None)]
  {
    hide World.Arrive;
    assert active[..i + 1][..i] == active[..i];
  }

  lemma HorizonBegins<S, P, A, R, K>(w: World<S, P, A, R, K>, t: Tally<S, P, A, R>)
    ensures RecordAll(Open(t), w.HorizonEvents(t.active[..0])) == Open(t)
  {
  }

  /** Every row of a layer, before the horizon. */
  method ExpandLayer<S, P, A(==, !new), R, K(==)>(w: World<S, P, A, R, K>, k: nat, t: Tally<S, P, A, R>)
    returns (c: Buffer<S, P, A, R>)
    requires TotalOrder(w.le) && t.used <= MAX_EXPANSIONS
    ensures Stands(w, k, PushAll(Open(t), w.LayerEvents(t.active)), c)
    ensures |c.grown| <= 2 * k && c.used <= MAX_EXPANSIONS
  {
    hide Stands, PushAll, World.RowEvents, World.LayerEvents, World.Choices, TotalOrder;
    c := Open(t);
    LayerBegins(w, k, t);
    for i := 0 to |t.active|
      invariant |c.grown| <= 2 * k && c.used <= MAX_EXPANSIONS
      invariant Stands(w, k, PushAll(Open(t), w.LayerEvents(t.active[..i])), c)
    {
      LayerNext(w, t.active, i);
      c := ExpandRow(w, k, t.active[i], c, Open(t), w.LayerEvents(t.active[..i]));
    }
    assert t.active[..|t.active|] == t.active;
  }

  /** Every row of the last layer is read off as it stands. */
  method ReadLayer<S, P, A(==, !new), R, K(==)>(w: World<S, P, A, R, K>, t: Tally<S, P, A, R>)
    returns (c: Buffer<S, P, A, R>)
    ensures c == RecordAll(Open(t), w.HorizonEvents(t.active)) && c.used == t.used
  {
    hide RecordAll, World.HorizonEvents;
    c := Open(t);
    HorizonBegins(w, t);
    for i := 0 to |t.active|
      invariant c == RecordAll(Open(t), w.HorizonEvents(t.active[..i])) && c.used == t.used
    {
      var row := t.active[i];
      HorizonNext(w, t.active, i);
      PushOne(Open(t), w.HorizonEvents(t.active[..i]), w.Arrive(row.mass, row.value.1, row.actions, None));
      match w.routes(row.value.1) {
        case None => c := c.(unknown := c.unknown + row.mass);
        case Some(routes) => c := c.(finished := c.finished + [Item(row.mass, row.actions, (routes, false))]);
      }
    }
    assert t.active[..|t.active|] == t.active;
  }

  /** The end of a layer: the frontier and the finished list are cut to the beam. */
  method EndLayer<S, P, A(==, !new), R, K(==)>(w: World<S, P, A, R, K>, k: nat, c: Buffer<S, P, A, R>,
      ghost b: Buffer<S, P, A, R>)
    returns (t: Tally<S, P, A, R>)
    requires TotalOrder(w.le) && Stands(w, k, b, c)
    ensures t == w.Prune(k, b) && t.used == c.used && |t.active| <= k && |t.finished| <= k
  {
    hide Dropped, Sum, Best;
    SumSplit(ByMass(), w.le, k, c.grown);
    SumSplit(ByMass(), w.le, k, b.grown);
    var other := c.other + MassOf(Dropped(w.le, k, c.grown));
    t := Tally(Best(w.le, k, c.grown), Best(w.le, k, c.finished), c.unknown,
               other + MassOf(Dropped(w.le, k, c.finished)), c.used);
  }

  /** The layers before the horizon. */
  method ExpandLayers<S, P, A(==, !new), R, K(==)>(w: World<S, P, A, R, K>, k: nat, horizon: nat, s: S, p: P)
    returns (t: Tally<S, P, A, R>)
    requires TotalOrder(w.le)
    ensures t == w.Rounds(k, horizon, Start(s, p)) && t.used <= MAX_EXPANSIONS
  {
    hide World.Prune, PushAll, World.LayerEvents, Stands;
    t := Tally([Item(1.0, [], (s, p))], [], 0.0, 0.0, 0);
    for depth := 0 to horizon
      invariant t == w.Rounds(k, depth, Start(s, p)) && t.used <= MAX_EXPANSIONS
    {
      var c := ExpandLayer(w, k, t);
      t := EndLayer(w, k, c, PushAll(Open(t), w.LayerEvents(t.active)));
    }
  }

  method Tabulate<A, R(==)>(finished: seq<Final<A, R>>) returns (table: seq<(R, real)>)
    ensures table == Group(finished)
  {
    table := [];
    for i := 0 to |finished|
      invariant table == Group(finished[..i])
    {
      assert finished[..i + 1][..i] == finished[..i];
      table := Credit(table, finished[i].value.0, finished[i].mass);
    }
    assert finished[..|finished|] == finished;
  }

  /** The loops keep a buffer of at most 2k rows while a layer is generated and prune it when it
      overflows; the result is still that of collecting each whole layer and keeping its best k. */
  method Generate<S, P, A(==, !new), R(==), K(==)>(w: World<S, P, A, R, K>, s: S, p: P, horizon: nat, k: nat)
    returns (r: Result<Prediction<A, R>>)
    requires TotalOrder(w.le)
    ensures r == Predict(w, s, p, horizon, k)
    ensures r.Ok? ==> r.value.expansions <= MAX_EXPANSIONS && |r.value.candidates| <= k <= MAX_BEAM
  {
    if horizon !in HORIZONS || !(1 <= k <= MAX_BEAM) {
      return Err(InvalidRequest);
    }
    hide World.Prune, RecordAll, World.HorizonEvents, World.Rounds, Conclude, Group;
    var t := ExpandLayers(w, k, horizon, s, p);
    var c := ReadLayer(w, t);
    t := EndLayer(w, k, c, c);
    var table := Tabulate(t.finished);
    r := Conclude(w.sink, table, t.finished, t.unknown, t.other, t.used);
    ConcludeKeeps(w.sink, table, t.finished, t.unknown, t.other, t.used);
  }
}
