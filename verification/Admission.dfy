/** What the authority grants: who may work without a lease and why, what a client's undisturbed call
    ends in, and what a reviewed request brings about. */
module Admission {
  import opened Authority
  import opened Wrappers

  // ------------------------------------------------------------- without a lease

  /** A client without a lease saw no record, or one that was not active when it was current. */
  ghost predicate BypassedRightly(s: System, c: Id) {
    ClientAt(s, c).Bypassed? && ClientAt(s, c).first.Some? ==>
      ClientAt(s, c).first.value.phase != Active && ClientAt(s, c).first.value in s.published
  }

  lemma StepBypasses(s: System, step: Step, c: Id)
    requires Inv(s) && BypassedRightly(s, c)
    ensures BypassedRightly(Do(s, step), c)
  {
    hide Inv, Decide;
    var t := Do(s, step);
    RecordIsPublished(s);
    Extends(s, step);
    if step == ClientRead(c) {
    } else if ClientStep(step) && step.c == c {
      assert !ClientAt(t, c).Bypassed? || ClientAt(t, c) == ClientAt(s, c);
    } else {
      OthersStay(s, step, c);
    }
  }

  lemma RecordIsPublished(s: System)
    requires Inv(s)
    ensures s.record.Some? ==> s.record.value in s.published
  {
    hide Locks, Knows, Linear;
  }

  lemma Extends(s: System, step: Step)
    ensures s.published <= Do(s, step).published
    ensures forall r :: r in s.published ==> r in Do(s, step).published
  {
    hide Decide;
  }

  lemma OthersStay(s: System, step: Step, c: Id)
    requires !(ClientStep(step) && step.c == c)
    ensures ClientAt(Do(s, step), c) == ClientAt(s, c)
  {
    hide Decide;
  }

  /** Whatever has happened, whoever works without a lease has read that there is no record, or a
      published record that is not active: an active record is never bypassed. */
  lemma {:induction false} BypassIsNeverActive(steps: seq<Step>, c: Id)
    ensures BypassedRightly(Run(INITIAL, steps), c)
  {
    hide Do, BypassedRightly, Inv;
    if steps == [] {
      NobodyAtFirst(c);
    } else {
      var before := steps[..|steps| - 1];
      BypassIsNeverActive(before, c);
      Safety(before);
      StepBypasses(Run(INITIAL, before), steps[|steps| - 1], c);
    }
  }

  lemma NobodyAtFirst(c: Id)
    ensures BypassedRightly(INITIAL, c)
  {
  }

  // ------------------------------------------------------------ an undisturbed client

  function Visit(c: Id): seq<Step> { [ClientRead(c), ClientLock(c), ClientReread(c)] }

  /** Only client c and the shared lease have changed. */
  ghost predicate OnlyClient(s: System, t: System, c: Id) {
    && t.record == s.record && t.published == s.published && t.leaseFile == s.leaseFile && t.used == s.used
    && t.elected == s.elected && t.exclusive == s.exclusive && t.admins == s.admins
    && t.shared - {c} == s.shared - {c}
    && forall d: Id :: d != c ==> ClientAt(t, d) == ClientAt(s, d)
  }

  lemma VisitRuns(s: System, c: Id)
    ensures Run(s, Visit(c)) == Do(Do(Do(s, ClientRead(c)), ClientLock(c)), ClientReread(c))
  {
    hide Do;
    var v := Visit(c);
    RunsOn(s, v[..2], v[2]);
    RunsOn(s, v[..1], v[1]);
    RunsOn(s, v[..0], v[0]);
    assert v == v[..2] + [v[2]] && v[..2] == v[..1] + [v[1]] && v[..1] == v[..0] + [v[0]];
  }

  /** A client that is left alone while it asks: an active record and a free lease admit it, with the
      shared lease and exactly the current record; an administrator's lease sends it away; no record,
      or one that is not active, lets it go on without a lease. */
  lemma ClientOutcome(s: System, c: Id)
    requires Inv(s) && ClientAt(s, c).Away?
    ensures var t := Run(s, Visit(c));
      && OnlyClient(s, t, c)
      && (s.record.Some? && s.record.value.phase == Active && s.exclusive.None? ==>
            Admitted(t, c) && c in t.shared && ClientAt(t, c) == Inside(s.record.value))
      && (s.record.Some? && s.record.value.phase == Active && s.exclusive.Some? ==>
            ClientAt(t, c).Away? && c !in t.shared)
      && (s.record.None? || s.record.value.phase != Active ==>
            ClientAt(t, c) == Bypassed(s.record) && c !in t.shared)
  {
    hide Inv, Run;
    VisitRuns(s, c);
    AwayHoldsNothing(s, c);
    LeaseFileStands(s);
    var t1 := Do(s, ClientRead(c));
    var t2 := Do(t1, ClientLock(c));
    var t3 := Do(t2, ClientReread(c));
    assert t3.shared - {c} == s.shared - {c};
  }

  lemma AwayHoldsNothing(s: System, c: Id)
    requires Inv(s) && ClientAt(s, c).Away?
    ensures c !in s.shared
  {
    SharedIsHeld(s, c);
  }

  lemma LeaseFileStands(s: System)
    requires Inv(s)
    ensures s.record.Some? ==> s.leaseFile
  {
  }

  // ---------------------------------------------------------- what operations do

  /** A publication carries an operation of its own, or completes the deactivation it replaces. */
  lemma OperationsAreNew(steps: seq<Step>, a: Id)
    requires Publishes(Run(INITIAL, steps), AdminPublish(a))
    ensures var s := Run(INITIAL, steps); var next := Next(s, a);
      s.record.Some? && s.record.value.operation == next.operation ==>
        next == s.record.value.(phase := Inactive) && s.record.value.phase == Deactivating
  {
    hide Locks, Linear;
    Safety(steps);
    var s := Run(INITIAL, steps);
    CurrentDecodes(s);
    assert Knows(s, AdminAt(s, a));
  }

  /** The operation a record already carries out, or has carried out, for the request. */
  predicate Repeats(current: Option<Record>, q: Request) {
    current.Some? && current.value.operation == q.operation && q.action != Enroll
  }

  /** What is decided of a request, case by case. A repeated request is answered with the record it led
      to once that is settled; a deactivation still under way goes on if it names its generation; the same
      operation is refused for another action; and any other request must name the current generation. */
  lemma DecidedExactlyWhen(current: Option<Record>, q: Request)
    requires current.Some? ==> Decodes(current.value)
    ensures var v := Decide(current, q); var same := Repeats(current, q) && current.value.action == q.action;
      && (v == Fail(EnrollmentRequired) <==> current.None? && q.action != Enroll)
      && (v == Fail(AlreadyEnrolled) <==> current.Some? && q.action == Enroll)
      && (v == Fail(OperationConflict) <==> Repeats(current, q) && current.value.action != q.action)
      && (v.Lookup? <==> same && current.value.phase != Deactivating) && (v.Lookup? ==> Some(v.found) == current)
      && (v == Proceed <==>
            && Key(current) == q.expected && (current.None? <==> q.action == Enroll)
            && (Repeats(current, q) ==> same && current.value.phase == Deactivating))
  {
  }

  lemma {:induction false} RunKeeps(s: System, steps: seq<Step>)
    requires Inv(s)
    ensures Inv(Run(s, steps))
  {
    hide Inv, Do;
    if steps != [] {
      RunKeeps(s, steps[..|steps| - 1]);
      StepInv(Run(s, steps[..|steps| - 1]), steps[|steps| - 1]);
    }
  }

  /** A request repeated after an undisturbed call that found no lease held changes nothing, whoever repeats it;
      and if the call took effect, the repetition is answered with the record it left -- except that an
      enrolment is told there is one -- whatever generation it expects. */
  lemma RepeatChangesNothing(s: System, a: Id, b: Id, q: Request, g: Generation, h: Generation,
      expected: Option<Generation>)
    requires Inv(s) && s.elected.None? && s.exclusive.None? && AdminAt(s, a).Idle? && g !in s.used && s.shared == {}
    ensures var t := Run(s, Call(a, q, g)); var again := q.(expected := expected);
      && (t.record != s.record ==>
            && t.record.Some? && t.record.value.operation == q.operation && t.record.value.action == q.action
            && Decide(t.record, again) == if q.action == Enroll then Fail(AlreadyEnrolled) else Lookup(t.record.value))
      && (AdminAt(t, b).Idle? && h !in t.used && (expected == q.expected || t.record != s.record) ==>
            Ended(t, Run(t, Call(b, again, h)), b, t.record))
  {
    hide Inv, Run, Call;
    var t := Run(s, Call(a, q, g));
    CallOutcome(s, a, q, g);
    RunKeeps(s, Call(a, q, g));
    CurrentDecodes(s);
    CurrentDecodes(t);
    if AdminAt(t, b).Idle? && h !in t.used {
      CallOutcome(t, b, q.(expected := expected), h);
    }
    FreshIsNew(s, g);
  }

  lemma FreshIsNew(s: System, g: Generation)
    requires Inv(s) && g !in s.used
    ensures s.record.Some? ==> s.record.value.generation != g
  {
    hide Locks, Knows, Linear;
  }

  /** What may be reviewed: an enrolment where nothing is enrolled, a deactivation of an active record,
      a reactivation of an inactive one, and the end of a deactivation under way. */
  lemma Reviewable(current: Option<Record>, action: ReviewAction, issued: Operation)
    ensures ReviewOf(current, action, issued).Reviewed? <==>
      match action
      case DoEnroll => current.None?
      case DoDeactivate => current.Some? && current.value.phase == Active
      case DoReactivate => current.Some? && current.value.phase == Inactive
      case Finish => current.Some? && current.value.phase == Deactivating
  {
  }

  /** What a reviewed request leaves when it is applied undisturbed: with no lease held, an enrolled
      or reactivated record is active, a deactivated or finished one inactive; a held lease leaves an
      announced deactivation, and otherwise the record as it was. */
  ghost function Reviewed(current: Option<Record>, action: ReviewAction, issued: Operation, g: Generation,
      busy: bool): Option<Record>
    requires ReviewOf(current, action, issued).Reviewed?
  {
    match action
    case DoEnroll => if busy then None else Some(Record(g, Active, issued, Enroll))
    case DoReactivate => if busy then current else Some(Record(g, Active, issued, Reactivate))
    case DoDeactivate => Some(Record(g, if busy then Deactivating else Inactive, issued, Deactivate))
    case Finish => if busy then current else Some(current.value.(phase := Inactive))
  }

  lemma ReviewedOutcome(s: System, a: Id, action: ReviewAction, issued: Operation, g: Generation)
    requires Inv(s) && s.elected.None? && s.exclusive.None? && AdminAt(s, a).Idle? && g !in s.used
    requires s.record.Some? ==> s.record.value.operation != issued
    requires ReviewOf(s.record, action, issued).Reviewed?
    ensures var q := ReviewOf(s.record, action, issued).request;
      Ended(s, Run(s, Call(a, q, g)), a, Reviewed(s.record, action, issued, g, s.shared != {}))
  {
    hide Inv, Run, Call;
    CallOutcome(s, a, ReviewOf(s.record, action, issued).request, g);
    CurrentDecodes(s);
  }

  // ---------------------------------------------------------- leaving and draining

  /** A client that leaves gives up its lease, and a crashed administrator its locks; nothing else changes. */
  lemma GivesUp(s: System, c: Id, a: Id)
    requires Inv(s)
    ensures var t := Do(s, ClientLeave(c));
      OnlyClient(s, t, c) && ClientAt(t, c).Away? && c !in t.shared
    ensures var t := Do(s, AdminCrash(a));
      && AdminAt(t, a).Idle? && (forall b: Id :: b != a ==> AdminAt(t, b) == AdminAt(s, b))
      && (s.elected == Some(a) ==> t.elected.None?) && (s.elected != Some(a) ==> t.elected == s.elected)
      && (s.exclusive == Some(a) ==> t.exclusive.None?) && (s.exclusive != Some(a) ==> t.exclusive == s.exclusive)
      && t.record == s.record && t.published == s.published && t.leaseFile == s.leaseFile && t.used == s.used
      && t.shared == s.shared && t.clients == s.clients
  {
    hide Inv;
  }

  function Leaves(cs: seq<Id>): seq<Step> { seq(|cs|, i requires 0 <= i < |cs| => ClientLeave(cs[i])) }

  lemma {:induction false} AllLeave(s: System, cs: seq<Id>)
    requires Inv(s)
    ensures var t := Run(s, Leaves(cs));
      && Inv(t) && t.shared == s.shared - (set c | c in cs)
      && t.record == s.record && t.elected == s.elected && t.exclusive == s.exclusive && t.admins == s.admins
      && t.used == s.used
    decreases |cs|
  {
    hide Inv, Do;
    if cs == [] {
      assert Leaves(cs) == [];
      assert s.shared == s.shared - (set c | c in cs);
    } else {
      var n := |cs| - 1;
      AllLeave(s, cs[..n]);
      assert Leaves(cs)[..n] == Leaves(cs[..n]) && Leaves(cs)[n] == ClientLeave(cs[n]);
      var t := Run(s, Leaves(cs[..n]));
      GivesUp(t, cs[n], 0);
      StepInv(t, ClientLeave(cs[n]));
      assert Run(s, Leaves(cs)) == Do(t, ClientLeave(cs[n]));
      assert cs == cs[..n] + [cs[n]];
      assert (set c | c in cs) == (set c | c in cs[..n]) + {cs[n]};
      assert Do(t, ClientLeave(cs[n])).shared == t.shared - {cs[n]};
    }
  }

  /** A deactivation that could not drain is finished by asking again once everyone who held a lease has
      left: the announced record becomes inactive. */
  lemma DrainFinishes(s: System, cs: seq<Id>, a: Id, g: Generation)
    requires Inv(s) && s.record.Some? && s.record.value.phase == Deactivating
    requires s.elected.None? && s.exclusive.None? && AdminAt(s, a).Idle? && g !in s.used
    requires forall c | c in s.shared :: c in cs
    ensures var r := s.record.value;
      var t := Run(Run(s, Leaves(cs)), Call(a, Request(Some(r.generation), r.operation, Deactivate), g));
      t.record == Some(Record(r.generation, Inactive, r.operation, Deactivate)) && t.shared == {}
      && t.elected.None? && t.exclusive.None?
  {
    hide Inv, Run, Call, Leaves;
    var r := s.record.value;
    AllLeave(s, cs);
    CurrentDecodes(s);
    CallOutcome(Run(s, Leaves(cs)), a, Request(Some(r.generation), r.operation, Deactivate), g);
  }
}
