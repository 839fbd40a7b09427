/** The one-shot holdout ledger: a table of sealed datasets, each opened at most once, and the
    evaluation that may read a test partition only after reserving it. */
module Holdout {
  import opened Wrappers

  type Sha = string

  const MAX_HOLDOUTS: nat := 1000
  const REASONS: set<string> := {"tuning_after_open", "contaminated", "abandoned"}

  predicate Hex(s: string, n: nat) {
    |s| == n && forall c | c in s :: c in "0123456789abcdef"
  }

  predicate IsSha(s: string) { Hex(s, 64) }

  predicate IsRun(s: string) { Hex(s, 32) }

  datatype State = Sealed | Opened | Retired

  datatype Reservation = Reservation(run: string, plan: Sha, model: Sha, evaluator: Sha)

  datatype Holdout = Holdout(manifest: Sha, split: Sha, state: State, reservation: Option<Reservation>,
      report: Option<Sha>)

  type Rows = map<Sha, Holdout>

  datatype Error =
    | InvalidDigest | InvalidRunId | Capacity | AlreadyRegistered | NotSealed | SealMismatch | AlreadyConsumed
    | RunIdReused | CompletionMismatch | InvalidReason | RetirementMismatch | Unavailable

  datatype Call =
    | Seal(dataset: Sha, manifest: Sha, split: Sha)
    | Reserve(dataset: Sha, manifest: Sha, split: Sha, reservation: Reservation)
    | Finish(dataset: Sha, run: string, report: Sha)
    | Retire(dataset: Sha, reason: string)

  predicate RunUsed(rows: Rows, run: string) {
    exists d | d in rows :: rows[d].reservation.Some? && rows[d].reservation.value.run == run
  }

  /** The first objection to a call, in the order the ledger checks. */
  function Objection(rows: Rows, c: Call): Option<Error> {
    match c
    case Seal(d, m, s) =>
      if !IsSha(d) || !IsSha(m) || !IsSha(s) then Some(InvalidDigest)
      else if |rows| >= MAX_HOLDOUTS then Some(Capacity)
      else if d in rows then Some(AlreadyRegistered)
      else None
    case Reserve(d, m, s, r) =>
      if !IsSha(d) || !IsSha(m) || !IsSha(s) || !IsSha(r.plan) || !IsSha(r.model) || !IsSha(r.evaluator)
        then Some(InvalidDigest)
      else if !IsRun(r.run) then Some(InvalidRunId)
      else if d !in rows then Some(NotSealed)
      else if rows[d].manifest != m || rows[d].split != s then Some(SealMismatch)
      else if rows[d].state != Sealed then Some(AlreadyConsumed)
      else if RunUsed(rows, r.run) then Some(RunIdReused)
      else None
    case Finish(d, run, report) =>
      if !IsSha(d) || !IsSha(report) then Some(InvalidDigest)
      else if !IsRun(run) then Some(InvalidRunId)
      else if d in rows && rows[d].state == Opened && rows[d].report.None?
              && rows[d].reservation.Some? && rows[d].reservation.value.run == run then None
      else Some(CompletionMismatch)
    case Retire(d, reason) =>
      if !IsSha(d) then Some(InvalidDigest)
      else if reason !in REASONS then Some(InvalidReason)
      else if d in rows && rows[d].state != Retired then None
      else Some(RetirementMismatch)
  }

  function Apply(rows: Rows, c: Call): Rows
    requires Objection(rows, c).None?
  {
    match c
    case Seal(d, m, s) => rows[d := Holdout(m, s, Sealed, None, None)]
    case Reserve(d, _, _, r) => rows[d := rows[d].(state := Opened, reservation := Some(r))]
    case Finish(d, _, report) => rows[d := rows[d].(report := Some(report))]
    case Retire(d, _) => rows[d := rows[d].(state := Retired)]
  }

  /** A call as a transaction: on an objection, or when the commit fails, everything is rolled back. */
  function Next(rows: Rows, c: Call, commits: bool): Rows {
    if commits && Objection(rows, c).None? then Apply(rows, c) else rows
  }

  function Answer(rows: Rows, c: Call, commits: bool): Option<Error> {
    match Objection(rows, c)
    case Some(e) => Some(e)
    case None => if commits then None else Some(Unavailable)
  }

  class HoldoutLedger {
    var rows: Rows

    constructor ()
      ensures rows == map[]
    {
      rows := map[];
    }

    method Seal(dataset: Sha, manifest: Sha, split: Sha, commits: bool) returns (e: Option<Error>)
      modifies this
      ensures rows == Next(old(rows), Call.Seal(dataset, manifest, split), commits)
      ensures e == Answer(old(rows), Call.Seal(dataset, manifest, split), commits)
    {
      if !IsSha(dataset) || !IsSha(manifest) || !IsSha(split) { return Some(InvalidDigest); }
      var saved := rows;
      if |rows| >= MAX_HOLDOUTS { return Some(Capacity); }
      if dataset in rows { return Some(AlreadyRegistered); }
      rows := rows[dataset := Holdout(manifest, split, Sealed, None, None)];
      if !commits {
        rows := saved;
        return Some(Unavailable);
      }
      return None;
    }

    /** `answers`: the status read after the commit succeeds. A reservation whose status read fails
        has still been made. */
    method Reserve(dataset: Sha, manifest: Sha, split: Sha, reservation: Reservation, commits: bool, answers: bool)
      returns (e: Option<Error>)
      modifies this
      ensures rows == Next(old(rows), Call.Reserve(dataset, manifest, split, reservation), commits)
      ensures e == match Answer(old(rows), Call.Reserve(dataset, manifest, split, reservation), commits)
                   case Some(error) => Some(error)
                   case None => if answers then None else Some(Unavailable)
    {
      if !IsSha(dataset) || !IsSha(manifest) || !IsSha(split)
         || !IsSha(reservation.plan) || !IsSha(reservation.model)
           || !IsSha(reservation.evaluator) { return Some(InvalidDigest); }
      if !IsRun(reservation.run) { return Some(InvalidRunId); }
      var saved := rows;
      if dataset !in rows { return Some(NotSealed); }
      var row := rows[dataset];
      if row.manifest != manifest || row.split != split { return Some(SealMismatch); }
      if row.state != Sealed { return Some(AlreadyConsumed); }
      if RunUsed(rows, reservation.run) { return Some(RunIdReused); }
      rows := rows[dataset := row.(state := Opened, reservation := Some(reservation))];
      if !commits {
        rows := saved;
        return Some(Unavailable);
      }
      return if answers then None else Some(Unavailable);
    }

    /** The update touches at most one row; touching none rolls back. */
    method Finish(dataset: Sha, run: string, report: Sha, commits: bool) returns (e: Option<Error>)
      modifies this
      ensures rows == Next(old(rows), Call.Finish(dataset, run, report), commits)
      ensures e == Answer(old(rows), Call.Finish(dataset, run, report), commits)
    {
      if !IsSha(dataset) || !IsSha(report) { return Some(InvalidDigest); }
      if !IsRun(run) { return Some(InvalidRunId); }
      var saved := rows;
      var rowcount := 0;
      if dataset in rows && rows[dataset].reservation.Some? && rows[dataset].reservation.value.run == run
         && rows[dataset].state == Opened && rows[dataset].report.None? {
        rows := rows[dataset := rows[dataset].(report := Some(report))];
        rowcount := 1;
      }
      if rowcount != 1 {
        rows := saved;
        return Some(CompletionMismatch);
      }
      if !commits {
        rows := saved;
        return Some(Unavailable);
      }
      return None;
    }

    method Retire(dataset: Sha, reason: string, commits: bool) returns (e: Option<Error>)
      modifies this
      ensures rows == Next(old(rows), Call.Retire(dataset, reason), commits)
      ensures e == Answer(old(rows), Call.Retire(dataset, reason), commits)
    {
      if !IsSha(dataset) { return Some(InvalidDigest); }
      if reason !in REASONS { return Some(InvalidReason); }
      var saved := rows;
      var rowcount := 0;
      if dataset in rows && rows[dataset].state != Retired {
        rows := rows[dataset := rows[dataset].(state := Retired)];
        rowcount := 1;
      }
      if rowcount != 1 {
        rows := saved;
        return Some(RetirementMismatch);
      }
      if !commits {
        rows := saved;
        return Some(Unavailable);
      }
      return None;
    }
  }

  // Runs of the ledger.

  ghost predicate Inv(rows: Rows) {
    && |rows| <= MAX_HOLDOUTS
    && (forall d | d in rows :: rows[d].state == Sealed ==> rows[d].reservation.None?)
    && (forall d | d in rows :: rows[d].state == Opened ==> rows[d].reservation.Some?)
    && (forall d | d in rows :: rows[d].report.Some? ==> rows[d].reservation.Some?)
    && DistinctRuns(rows)
  }

  ghost predicate DistinctRuns(rows: Rows) {
    forall a, b | a in rows && b in rows && rows[a].reservation.Some? && rows[b].reservation.Some?
      && rows[a].reservation.value.run == rows[b].reservation.value.run :: a == b
  }

  /** What can become of one row: seals stay, states only advance, a reservation and a report are
      never replaced, and a report comes only to an opened row. */
  predicate Ages(a: Holdout, b: Holdout) {
    && b.manifest == a.manifest && b.split == a.split
    && (a.state == Opened ==> b.state != Sealed) && (a.state == Retired ==> b.state == Retired)
    && (a.reservation.Some? ==> b.reservation == a.reservation)
    && (a.state != Sealed ==> b.reservation == a.reservation)
    && (a.report.Some? ==> b.report == a.report)
    && (a.state == Retired ==> b.report == a.report)
  }

  ghost predicate Evolves(before: Rows, after: Rows) {
    forall d | d in before :: d in after && Ages(before[d], after[d])
  }

  /** One row replaced by an older version of itself. */
  lemma AgedKeeps(rows: Rows, d: Sha, row: Holdout)
    requires Inv(rows) && d in rows && Ages(rows[d], row)
    requires row.state == Sealed ==> row.reservation.None?
    requires row.state == Opened ==> row.reservation.Some?
    requires row.report.Some? ==> row.reservation.Some?
    requires row.reservation != rows[d].reservation ==>
      row.reservation.Some? && !RunUsed(rows, row.reservation.value.run)
    ensures Inv(rows[d := row]) && Evolves(rows, rows[d := row])
  {
    hide DistinctRuns, RunUsed;
    var after := rows[d := row];
    assert after.Keys == rows.Keys && |after| == |after.Keys|;
    if row.reservation != rows[d].reservation {
      FreshRun(rows, d, row);
    } else {
      SameRun(rows, d, row);
    }
  }

  lemma FreshRun(rows: Rows, d: Sha, row: Holdout)
    requires DistinctRuns(rows) && d in rows && row.reservation.Some? && !RunUsed(rows, row.reservation.value.run)
    ensures DistinctRuns(rows[d := row])
  {
    assert forall x | x in rows && rows[x].reservation.Some? ::
      rows[x].reservation.value.run != row.reservation.value.run;
  }

  lemma SameRun(rows: Rows, d: Sha, row: Holdout)
    requires DistinctRuns(rows) && d in rows && row.reservation == rows[d].reservation
    ensures DistinctRuns(rows[d := row])
  {
    var after := rows[d := row];
    assert forall x | x in after :: after[x].reservation == rows[x].reservation;
  }

  lemma SealKeeps(rows: Rows, d: Sha, m: Sha, s: Sha)
    requires Inv(rows) && d !in rows && |rows| < MAX_HOLDOUTS
    ensures Inv(rows[d := Holdout(m, s, Sealed, None, None)])
      && Evolves(rows, rows[d := Holdout(m, s, Sealed, None, None)])
  {
    hide Inv, Evolves;
    SealInv(rows, d, m, s);
    SealEvolves(rows, d, m, s);
  }

  lemma SealInv(rows: Rows, d: Sha, m: Sha, s: Sha)
    requires Inv(rows) && d !in rows && |rows| < MAX_HOLDOUTS
    ensures Inv(rows[d := Holdout(m, s, Sealed, None, None)])
  {
    hide DistinctRuns;
    var after := rows[d := Holdout(m, s, Sealed, None, None)];
    assert after.Keys == rows.Keys + {d} && |after| == |after.Keys|;
    SealDistinct(rows, d, m, s);
  }

  lemma SealDistinct(rows: Rows, d: Sha, m: Sha, s: Sha)
    requires DistinctRuns(rows) && d !in rows
    ensures DistinctRuns(rows[d := Holdout(m, s, Sealed, None, None)])
  {
  }

  lemma SealEvolves(rows: Rows, d: Sha, m: Sha, s: Sha)
    requires d !in rows
    ensures Evolves(rows, rows[d := Holdout(m, s, Sealed, None, None)])
  {
  }

  lemma NextKeeps(rows: Rows, c: Call, commits: bool)
    requires Inv(rows)
    ensures Inv(Next(rows, c, commits)) && Evolves(rows, Next(rows, c, commits))
  {
    hide IsSha, IsRun, RunUsed;
    if commits && Objection(rows, c).None? {
      hide Inv, Evolves;
      match c
      case Seal(d, m, s) => SealKeeps(rows, d, m, s);
      case Reserve(d, _, _, r) =>
        SealedIsFree(rows, d);
        AgedKeeps(rows, d, rows[d].(state := Opened, reservation := Some(r)));
      case Finish(d, _, report) => AgedKeeps(rows, d, rows[d].(report := Some(report)));
      case Retire(d, _) =>
        ReportsHaveRuns(rows, d);
        AgedKeeps(rows, d, rows[d].(state := Retired));
    }
  }

  lemma SealedIsFree(rows: Rows, d: Sha)
    requires Inv(rows) && d in rows && rows[d].state == Sealed
    ensures rows[d].reservation.None? && rows[d].report.None?
  {
  }

  lemma ReportsHaveRuns(rows: Rows, d: Sha)
    requires Inv(rows) && d in rows
    ensures rows[d].report.Some? ==> rows[d].reservation.Some?
  {
  }

  datatype Attempt = Attempt(call: Call, commits: bool)

  function Run(rows: Rows, calls: seq<Attempt>): Rows {
    if calls == [] then rows
    else Next(Run(rows, calls[..|calls| - 1]), calls[|calls| - 1].call, calls[|calls| - 1].commits)
  }

  /** Every run keeps the invariant and only ages rows, failed and rolled-back calls included. */
  lemma {:induction false} RunEvolves(rows: Rows, calls: seq<Attempt>)
    requires Inv(rows)
    ensures Inv(Run(rows, calls)) && Evolves(rows, Run(rows, calls))
    decreases |calls|
  {
    if calls != [] {
      var before := Run(rows, calls[..|calls| - 1]);
      RunEvolves(rows, calls[..|calls| - 1]);
      NextKeeps(before, calls[|calls| - 1].call, calls[|calls| - 1].commits);
    }
  }

  lemma {:induction false} RunSplits(rows: Rows, a: seq<Attempt>, b: seq<Attempt>)
    ensures Run(rows, a + b) == Run(Run(rows, a), b)
    decreases |b|
  {
    if b == [] {
      assert a + b == a;
    } else {
      assert (a + b)[..|a + b| - 1] == a + b[..|b| - 1];
      RunSplits(rows, a, b[..|b| - 1]);
    }
  }

  predicate Succeeds(rows: Rows, calls: seq<Attempt>, i: nat)
    requires i < |calls|
  {
    calls[i].commits && Objection(Run(rows, calls[..i]), calls[i].call).None?
  }

  lemma LaterState(calls: seq<Attempt>, i: nat, j: nat)
    requires i < j <= |calls| && Succeeds(map[], calls, i)
    ensures Inv(Run(map[], calls[..i])) && Inv(Run(map[], calls[..j]))
    ensures Evolves(Apply(Run(map[], calls[..i]), calls[i].call), Run(map[], calls[..j]))
  {
    hide Objection, Apply, Evolves, Inv;
    assert Inv(map[]) by { EmptyInv(); }
    RunEvolves(map[], calls[..i]);
    RunOne(calls, i);
    NextKeeps(Run(map[], calls[..i]), calls[i].call, true);
    assert calls[..j] == calls[..i + 1] + calls[i + 1..j];
    RunSplits(map[], calls[..i + 1], calls[i + 1..j]);
    RunEvolves(Run(map[], calls[..i + 1]), calls[i + 1..j]);
    RunEvolves(map[], calls[..j]);
  }

  lemma EmptyInv()
    ensures Inv(map[])
  {
  }

  lemma RunOne(calls: seq<Attempt>, i: nat)
    requires i < |calls| && Succeeds(map[], calls, i)
    ensures Run(map[], calls[..i + 1]) == Next(Run(map[], calls[..i]), calls[i].call, true)
    ensures Run(map[], calls[..i + 1]) == Apply(Run(map[], calls[..i]), calls[i].call)
  {
    hide Objection, Apply;
    assert calls[..i + 1][..i] == calls[..i];
  }

  /** In every run from an empty ledger no dataset is reserved twice and no run id is used twice. */
  lemma ReservedOnce(calls: seq<Attempt>, i: nat, j: nat)
    requires i < j < |calls| && Succeeds(map[], calls, i) && Succeeds(map[], calls, j)
    requires calls[i].call.Reserve? && calls[j].call.Reserve?
    ensures calls[i].call.dataset != calls[j].call.dataset
    ensures calls[i].call.reservation.run != calls[j].call.reservation.run
  {
    hide Hex;
    LaterState(calls, i, j);
    var d := calls[i].call.dataset;
    assert Apply(Run(map[], calls[..i]), calls[i].call)[d].reservation == Some(calls[i].call.reservation);
    assert Run(map[], calls[..j])[d].reservation == Some(calls[i].call.reservation);
  }

  /** A report is set at most once for a dataset, and only by the run that reserved it. */
  lemma ReportedOnce(calls: seq<Attempt>, i: nat, j: nat)
    requires i < j < |calls| && Succeeds(map[], calls, i) && Succeeds(map[], calls, j)
    requires calls[j].call.Finish?
    ensures calls[i].call.Finish? ==> calls[i].call.dataset != calls[j].call.dataset
    ensures calls[i].call.Reserve? && calls[i].call.dataset == calls[j].call.dataset
      ==> calls[i].call.reservation.run == calls[j].call.run
  {
    hide Hex;
    LaterState(calls, i, j);
    var d := calls[i].call.dataset;
    assert d in Apply(Run(map[], calls[..i]), calls[i].call);
  }

  /** After a successful retirement every further call on the dataset fails. */
  lemma RetiredForGood(calls: seq<Attempt>, i: nat, j: nat)
    requires i < j < |calls| && Succeeds(map[], calls, i) && calls[i].call.Retire?
    requires calls[j].call.dataset == calls[i].call.dataset
    ensures !Succeeds(map[], calls, j)
  {
    hide Hex;
    LaterState(calls, i, j);
    var d := calls[i].call.dataset;
    assert Apply(Run(map[], calls[..i]), calls[i].call)[d].state == Retired;
    assert Run(map[], calls[..j])[d].state == Retired;
  }

  // Evaluations. Any number run at once, interleaved with each other and with any ledger calls.

  datatype Phase = Idle | Reserved | HasRead | Finished | Failed

  /** One call of the evaluation: the partition it is after, and how far it got. */
  datatype Evaluation = Evaluation(dataset: Sha, reservation: Reservation, phase: Phase, read: bool)

  datatype World = World(rows: Rows, evaluations: map<nat, Evaluation>)

  /** One atomic step. Begin enters the evaluation with the plan checked; the run id is new to it.
      Open is the reservation, with the seal of its manifest; Read opens the test partition; Close
      is the final report; any step may instead give up, and anyone may call the ledger. */
  datatype Step =
    | Begin(id: nat, dataset: Sha, reservation: Reservation)
    | Open(id: nat, manifest: Sha, split: Sha, commits: bool, answers: bool)
    | Read(id: nat)
    | Close(id: nat, report: Sha, commits: bool)
    | GiveUp(id: nat)
    | Other(call: Call, commits: bool)

  function Do(w: World, s: Step): World {
    match s
    case Begin(id, d, r) =>
      if id in w.evaluations then w else w.(evaluations := w.evaluations[id := Evaluation(d, r, Idle, false)])
    case Open(id, m, sp, commits, answers) =>
      if id !in w.evaluations || w.evaluations[id].phase != Idle then w
      else
        var e := w.evaluations[id];
        var c := Reserve(e.dataset, m, sp, e.reservation);
        var granted := Answer(w.rows, c, commits).None? && answers;
        World(Next(w.rows, c, commits), w.evaluations[id := e.(phase := if granted then Reserved else Failed)])
    case Read(id) =>
      if id !in w.evaluations || w.evaluations[id].phase != Reserved then w
      else w.(evaluations := w.evaluations[id := w.evaluations[id].(phase := HasRead, read := true)])
    case Close(id, report, commits) =>
      if id !in w.evaluations || w.evaluations[id].phase != HasRead then w
      else
        var e := w.evaluations[id];
        var c := Call.Finish(e.dataset, e.reservation.run, report);
        var done := Answer(w.rows, c, commits).None?;
        World(Next(w.rows, c, commits), w.evaluations[id := e.(phase := if done then Finished else Failed)])
    case GiveUp(id) =>
      if id !in w.evaluations then w
      else w.(evaluations := w.evaluations[id := w.evaluations[id].(phase := Failed)])
    case Other(c, commits) => w.(rows := Next(w.rows, c, commits))
  }

  function After(w: World, steps: seq<Step>): World {
    if steps == [] then w else Do(After(w, steps[..|steps| - 1]), steps[|steps| - 1])
  }

  /** An evaluation past its reservation is the one that consumed its dataset. */
  ghost predicate Consumed(rows: Rows, e: Evaluation) {
    e.dataset in rows && rows[e.dataset].state != Sealed && rows[e.dataset].reservation == Some(e.reservation)
  }

  ghost predicate Holds(e: Evaluation) { e.phase == Reserved || e.phase == HasRead || e.phase == Finished || e.read }

  ghost predicate Exclusive(w: World) {
    && Inv(w.rows)
    && (forall id | id in w.evaluations && Holds(w.evaluations[id]) :: Consumed(w.rows, w.evaluations[id]))
    && (forall a, b | a in w.evaluations && b in w.evaluations && a != b && Holds(w.evaluations[a])
      && Holds(w.evaluations[b])
          :: w.evaluations[a].dataset != w.evaluations[b].dataset)
    && (forall id | id in w.evaluations && w.evaluations[id].phase == Idle :: !w.evaluations[id].read)
  }

  lemma ConsumedStays(before: Rows, after: Rows, e: Evaluation)
    requires Consumed(before, e) && Evolves(before, after)
    ensures Consumed(after, e)
  {
  }

  /** The ledger moved on and nothing else did. */
  lemma LedgerStep(w: World, c: Call, commits: bool)
    requires Exclusive(w)
    ensures Exclusive(w.(rows := Next(w.rows, c, commits)))
  {
    hide Next, Inv, Evolves, Consumed;
    NextKeeps(w.rows, c, commits);
    forall id | id in w.evaluations && Holds(w.evaluations[id])
      ensures Consumed(Next(w.rows, c, commits), w.evaluations[id]) {
      ConsumedStays(w.rows, Next(w.rows, c, commits), w.evaluations[id]);
    }
  }

  /** A granted reservation: its dataset was sealed, so no other evaluation holds it. */
  lemma OpenStep(w: World, s: Step)
    requires Exclusive(w) && s.Open?
    ensures Exclusive(Do(w, s))
  {
    hide IsSha, IsRun, RunUsed, Inv, Evolves;
    if s.id in w.evaluations && w.evaluations[s.id].phase == Idle {
      var e := w.evaluations[s.id];
      var c := Reserve(e.dataset, s.manifest, s.split, e.reservation);
      LedgerStep(w, c, s.commits);
    }
  }

  lemma ExclusiveStep(w: World, s: Step)
    requires Exclusive(w)
    ensures Exclusive(Do(w, s))
  {
    hide Next, Objection, Inv;
    match s
    case Open(_, _, _, _, _) => OpenStep(w, s);
    case Close(id, report, commits) =>
      if id in w.evaluations && w.evaluations[id].phase == HasRead {
        LedgerStep(w, Call.Finish(w.evaluations[id].dataset, w.evaluations[id].reservation.run, report), commits);
      }
    case Other(c, commits) => LedgerStep(w, c, commits);
    case _ =>
  }

  /** However evaluations, failures and other ledger calls interleave, no two evaluations ever both
      read the test partition of one dataset. */
  lemma {:induction false} ReadOnce(steps: seq<Step>)
    ensures var w := After(World(map[], map[]), steps);
      && Exclusive(w)
      && forall a, b | a in w.evaluations && b in w.evaluations && a != b && w.evaluations[a].read
        && w.evaluations[b].read ::
           w.evaluations[a].dataset != w.evaluations[b].dataset
    decreases |steps|
  {
    if steps != [] {
      ReadOnce(steps[..|steps| - 1]);
      ExclusiveStep(After(World(map[], map[]), steps[..|steps| - 1]), steps[|steps| - 1]);
    }
  }
}
