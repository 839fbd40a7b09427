/** When a ledger call takes effect, told by the calls that took effect before it. */
module HoldoutHistory {
  import opened Holdout
  import opened Wrappers

  /** Some call of a kind took effect among the first i. */
  ghost predicate Earlier(calls: seq<Attempt>, i: nat, kind: Call -> bool)
    requires i <= |calls|
  {
    exists j | 0 <= j < i :: kind(calls[j].call) && Succeeds(map[], calls, j)
  }

  /** What a call of a kind, and nothing else, brings about for good. */
  ghost predicate LeftBy(told: Rows -> bool, kind: Call -> bool) {
    forall rows, c, commits | Inv(rows) ::
      told(Next(rows, c, commits)) <==> told(rows) || (kind(c) && commits && Objection(rows, c).None?)
  }

  /** The rows tell whether such a call took effect. */
  lemma {:induction false} RowsTell(calls: seq<Attempt>, i: nat, told: Rows -> bool, kind: Call -> bool)
    requires i <= |calls| && !told(map[]) && LeftBy(told, kind)
    ensures told(Run(map[], calls[..i])) <==> Earlier(calls, i, kind)
  {
    hide Next, Objection, Inv, LeftBy;
    if i == 0 {
      assert calls[..0] == [];
    } else {
      hide Run, Earlier, Succeeds;
      RowsTell(calls, i - 1, told, kind);
      OneMore(calls, i - 1, kind);
      Tells(Run(map[], calls[..i - 1]), calls[i - 1].call, calls[i - 1].commits, told, kind);
    }
  }

  lemma Tells(rows: Rows, c: Call, commits: bool, told: Rows -> bool, kind: Call -> bool)
    requires LeftBy(told, kind) && Inv(rows)
    ensures told(Next(rows, c, commits)) <==> told(rows) || (kind(c) && commits && Objection(rows, c).None?)
  {
    hide Next, Objection, Inv;
  }

  lemma OneMore(calls: seq<Attempt>, i: nat, kind: Call -> bool)
    requires i < |calls|
    ensures var rows, c := Run(map[], calls[..i]), calls[i];
      && Run(map[], calls[..i + 1]) == Next(rows, c.call, c.commits) && Inv(rows)
      && (Earlier(calls, i + 1, kind)
          <==> Earlier(calls, i, kind) || (kind(c.call) && c.commits && Objection(rows, c.call).None?))
  {
    hide Inv, Next, Objection;
    assert calls[..i + 1][..i] == calls[..i];
    EmptyInv();
    RunEvolves(map[], calls[..i]);
  }

  // ------------------------------------------------------------ what each kind of call leaves

  function Seals(d: Sha, m: Sha, s: Sha): Call -> bool { (c: Call) => c == Seal(d, m, s) }
  function SealsAny(d: Sha): Call -> bool { (c: Call) => c.Seal? && c.dataset == d }
  function Consumes(d: Sha): Call -> bool { (c: Call) => (c.Reserve? || c.Retire?) && c.dataset == d }
  function Uses(run: string): Call -> bool { (c: Call) => c.Reserve? && c.reservation.run == run }
  function Reserves(d: Sha, run: string): Call -> bool {
    (c: Call) => c.Reserve? && c.dataset == d && c.reservation.run == run
  }
  function Finishes(d: Sha): Call -> bool { (c: Call) => c.Finish? && c.dataset == d }
  function Retires(d: Sha): Call -> bool { (c: Call) => c.Retire? && c.dataset == d }

  function Known(d: Sha): Rows -> bool { (rows: Rows) => d in rows }
  function SealedAs(d: Sha, m: Sha, s: Sha): Rows -> bool {
    (rows: Rows) => d in rows && rows[d].manifest == m && rows[d].split == s
  }
  function Consumed(d: Sha): Rows -> bool { (rows: Rows) => d in rows && rows[d].state != Sealed }
  function Used(run: string): Rows -> bool { (rows: Rows) => RunUsed(rows, run) }
  function ReservedBy(d: Sha, run: string): Rows -> bool {
    (rows: Rows) => d in rows && rows[d].reservation.Some? && rows[d].reservation.value.run == run
  }
  function Reported(d: Sha): Rows -> bool { (rows: Rows) => d in rows && rows[d].report.Some? }
  function IsRetired(d: Sha): Rows -> bool { (rows: Rows) => d in rows && rows[d].state == Retired }

  lemma SealsLeave(d: Sha, m: Sha, s: Sha)
    ensures LeftBy(Known(d), SealsAny(d)) && LeftBy(SealedAs(d, m, s), Seals(d, m, s))
  {
    hide IsSha, IsRun, RunUsed, Inv;
  }

  lemma ConsumesLeave(d: Sha)
    ensures LeftBy(Consumed(d), Consumes(d)) && LeftBy(IsRetired(d), Retires(d))
  {
    hide IsSha, IsRun, RunUsed, Inv;
  }

  /** A reservation never replaces another. */
  lemma ReservesLeave(d: Sha, run: string)
    ensures LeftBy(ReservedBy(d, run), Reserves(d, run))
  {
    hide IsSha, IsRun, RunUsed, DistinctRuns;
  }

  lemma FinishesLeave(d: Sha)
    ensures LeftBy(Reported(d), Finishes(d))
  {
    hide IsSha, IsRun, RunUsed, Inv;
  }

  lemma UsesLeave(run: string)
    ensures LeftBy(Used(run), Uses(run))
  {
    hide Inv, Next, Objection;
    forall rows, c, commits | Inv(rows)
      ensures Used(run)(Next(rows, c, commits))
        <==> Used(run)(rows) || (Uses(run)(c) && commits && Objection(rows, c).None?) {
      UsedNext(rows, c, commits, run);
    }
  }

  lemma UsedNext(rows: Rows, c: Call, commits: bool, run: string)
    requires Inv(rows)
    ensures RunUsed(Next(rows, c, commits), run)
      <==> RunUsed(rows, run) || (Uses(run)(c) && commits && Objection(rows, c).None?)
  {
    hide IsSha, IsRun;
    if commits && Objection(rows, c).None? {
      var d := c.dataset;
      match c
      case Reserve(_, _, _, r) =>
        SealedIsFree(rows, d);
        OneRowUsed(rows, d, rows[d].(state := Opened, reservation := Some(r)), run);
      case Seal(_, m, s) => SameUsed(rows, d, Holdout(m, s, Sealed, None, None), run);
      case Finish(_, _, report) => SameUsed(rows, d, rows[d].(report := Some(report)), run);
      case Retire(_, _) => SameUsed(rows, d, rows[d].(state := Retired), run);
    }
  }

  lemma SameUsed(rows: Rows, d: Sha, row: Holdout, run: string)
    requires if d in rows then row.reservation == rows[d].reservation else row.reservation.None?
    ensures RunUsed(rows[d := row], run) <==> RunUsed(rows, run)
  {
    var after := rows[d := row];
    if x :| x in rows && rows[x].reservation.Some? && rows[x].reservation.value.run == run {
      assert x in after && after[x].reservation == rows[x].reservation;
    }
  }

  lemma OneRowUsed(rows: Rows, d: Sha, row: Holdout, run: string)
    requires d in rows && rows[d].reservation.None? && row.reservation.Some?
    ensures RunUsed(rows[d := row], run) <==> RunUsed(rows, run) || row.reservation.value.run == run
  {
    var after := rows[d := row];
    if x :| x in rows && rows[x].reservation.Some? && rows[x].reservation.value.run == run {
      assert x in after && after[x] == rows[x];
    }
    assert d in after && after[d] == row;
  }

  // ------------------------------------------------------------ when a call takes effect

  /** The digests and the run id of a call have the form the ledger asks for. */
  predicate WellFormed(c: Call) {
    match c
    case Seal(d, m, s) => IsSha(d) && IsSha(m) && IsSha(s)
    case Reserve(d, m, s, r) =>
      IsSha(d) && IsSha(m) && IsSha(s) && IsSha(r.plan) && IsSha(r.model) && IsSha(r.evaluator) && IsRun(r.run)
    case Finish(d, run, report) => IsSha(d) && IsSha(report) && IsRun(run)
    case Retire(d, reason) => IsSha(d) && reason in REASONS
  }

  /** What must have happened, and not have happened, before a call. */
  ghost predicate Due(calls: seq<Attempt>, i: nat, c: Call)
    requires i <= |calls|
  {
    match c
    case Seal(d, _, _) => !Earlier(calls, i, SealsAny(d)) && |Run(map[], calls[..i])| < MAX_HOLDOUTS
    case Reserve(d, m, s, r) =>
      Earlier(calls, i, Seals(d, m, s)) && !Earlier(calls, i, Consumes(d)) && !Earlier(calls, i, Uses(r.run))
    case Finish(d, run, _) =>
      Earlier(calls, i, Reserves(d, run)) && !Earlier(calls, i, Finishes(d)) && !Earlier(calls, i, Retires(d))
    case Retire(d, _) => Earlier(calls, i, SealsAny(d)) && !Earlier(calls, i, Retires(d))
  }

  /** In every run from an empty ledger a call that commits takes effect exactly when it is well formed and
      due: a dataset is sealed once, while there is room; reserved once, as it was sealed, unless retired,
      and by a run that has reserved nothing; finished once, by the run that reserved it, unless retired;
      and retired once. */
  lemma EffectExactlyWhen(calls: seq<Attempt>, i: nat)
    requires i < |calls| && calls[i].commits
    ensures Succeeds(map[], calls, i) <==> WellFormed(calls[i].call) && Due(calls, i, calls[i].call)
  {
    hide IsSha, IsRun, RunUsed, Run, Earlier, LeftBy;
    var c := calls[i].call;
    match c
    case Seal(d, m, s) =>
      SealsLeave(d, m, s);
      RowsTell(calls, i, Known(d), SealsAny(d));
    case Reserve(d, m, s, r) =>
      SealsLeave(d, m, s);
      RowsTell(calls, i, SealedAs(d, m, s), Seals(d, m, s));
      ConsumesLeave(d);
      RowsTell(calls, i, Consumed(d), Consumes(d));
      UsesLeave(r.run);
      assert !RunUsed(map[], r.run) by { NothingUsed(r.run); }
      RowsTell(calls, i, Used(r.run), Uses(r.run));
    case Finish(d, run, _) =>
      ReservesLeave(d, run);
      RowsTell(calls, i, ReservedBy(d, run), Reserves(d, run));
      FinishesLeave(d);
      RowsTell(calls, i, Reported(d), Finishes(d));
      ConsumesLeave(d);
      RowsTell(calls, i, IsRetired(d), Retires(d));
      ReservedIsOpened(calls, i, d);
    case Retire(d, _) =>
      SealsLeave(d, "", "");
      RowsTell(calls, i, Known(d), SealsAny(d));
      ConsumesLeave(d);
      RowsTell(calls, i, IsRetired(d), Retires(d));
  }

  lemma NothingUsed(run: string)
    ensures !RunUsed(map[], run)
  {
  }

  lemma ReservedIsOpened(calls: seq<Attempt>, i: nat, d: Sha)
    requires i < |calls|
    ensures var rows := Run(map[], calls[..i]);
      d in rows && rows[d].reservation.Some? && rows[d].state != Retired ==> rows[d].state == Opened
  {
    hide Run;
    EmptyInv();
    RunEvolves(map[], calls[..i]);
  }
}
