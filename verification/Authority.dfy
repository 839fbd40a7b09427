/** Project lifecycle authority: clients take shared leases and re-read the record under the lock,
    administrators publish under an exclusive admin lock and drain with an exclusive lease. Every
    read, lock, unlock, publication and crash is one step; any number of clients and
    administrators interleave. */
module Authority {
  import opened Wrappers

  datatype Phase = Active | Deactivating | Inactive
  datatype Action = Enroll | Deactivate | Reactivate

  type Id = nat
  type Generation = nat
  type Operation = nat

  datatype Record = Record(generation: Generation, phase: Phase, operation: Operation, action: Action)

  /** The decoder's agreement between a record's action and its phase. */
  predicate Decodes(r: Record) {
    r.action == Deactivate <==> r.phase != Active
  }

  /** An administrator's request; `expected` is None for "absent". */
  datatype Request = Request(expected: Option<Generation>, operation: Operation, action: Action)

  function Key(r: Option<Record>): Option<Generation> {
    match r
    case None => None
    case Some(x) => Some(x.generation)
  }

  // ------------------------------------------------------------- one transition

  datatype Failure = EnrollmentRequired | AlreadyEnrolled | OperationConflict | GenerationConflict
  datatype Verdict = Fail(why: Failure) | Lookup(found: Record) | Proceed

  /** What a transition decides from the record it reads under the admin lock. */
  function Decide(current: Option<Record>, q: Request): Verdict {
    if current.None? && q.action != Enroll then Fail(EnrollmentRequired)
    else if current.Some? && q.action == Enroll then Fail(AlreadyEnrolled)
    else if current.Some? && current.value.operation == q.operation && current.value.action != q.action
      then Fail(OperationConflict)
    else if current.Some? && current.value.operation == q.operation
         && ((q.action == Deactivate && current.value.phase == Inactive)
           || (q.action == Reactivate && current.value.phase == Active))
      then Lookup(current.value)
    else if Key(current) != q.expected then Fail(GenerationConflict)
    else if current.Some? && current.value.operation == q.operation && q.action != Deactivate
      then Fail(OperationConflict)
    else Proceed
  }

  // ------------------------------------------------------------------ the system

  /** Where a client is. `Bypassed` clients saw no record or a record that was not active and
      hold no lease; `Inside` clients hold one, with what they re-read under it. */
  datatype Client = Away | Wanting | Locked | Inside(seen: Record) | Bypassed(first: Option<Record>)

  /** Where an administrator is. From `Elected` on the admin lock is held; `Ready`, `Drained` and
      `Unlocking` also hold the exclusive lease. `own` marks an announcement made by this call. */
  datatype Admin =
    | Idle
    | Asked(q: Request)
    | Elected(q: Request)
    | Checked(q: Request, current: Option<Record>)
    | Activating(q: Request, current: Option<Record>, result: Record)
    | Ready(q: Request, current: Option<Record>, result: Record)
    | Announcing(q: Request, current: Option<Record>, result: Record)
    | Draining(q: Request, announced: Record, own: bool)
    | Drained(q: Request, announced: Record, own: bool)
    | Unlocking(q: Request)
    | Leaving(q: Request)

  /** `used` are the generations ever drawn, `published` every record ever published, in order. */
  datatype System = System(
    record: Option<Record>, leaseFile: bool,
    elected: Option<Id>, exclusive: Option<Id>, shared: set<Id>,
    clients: map<Id, Client>, admins: map<Id, Admin>,
    used: set<Generation>, published: seq<Record>)

  const INITIAL := System(None, false, None, None, {}, map[], map[], {}, [])

  function ClientAt(s: System, c: Id): Client {
    if c in s.clients then s.clients[c] else Away
  }

  function AdminAt(s: System, a: Id): Admin {
    if a in s.admins then s.admins[a] else Idle
  }

  datatype Step =
    | ClientRead(c: Id)
    | ClientLock(c: Id)
    | ClientReread(c: Id)
    | ClientLeave(c: Id)
    | AdminAsk(a: Id, q: Request)
    | AdminElect(a: Id)
    | AdminRead(a: Id)
    | AdminOpen(a: Id, issued: Generation)
    | AdminLease(a: Id)
    | AdminPublish(a: Id)
    | AdminUnlock(a: Id)
    | AdminCrash(a: Id)

  function WithClient(s: System, c: Id, p: Client): System {
    s.(clients := s.clients[c := p])
  }

  function WithAdmin(s: System, a: Id, p: Admin): System {
    s.(admins := s.admins[a := p])
  }

  function Publish(s: System, r: Record): System {
    s.(record := Some(r), published := s.published + [r])
  }

  /** Giving up every lock an administrator may hold. */
  function Release(s: System, a: Id): System {
    s.(elected := if s.elected == Some(a) then None else s.elected,
       exclusive := if s.exclusive == Some(a) then None else s.exclusive)
  }

  /** After the lease file exists: the administrator draws a generation where one is needed. */
  function Opened(s: System, a: Id, q: Request, current: Option<Record>, g: Generation): System {
    if q.action != Deactivate then
      if current.Some? && current.value.phase == Deactivating then WithAdmin(s, a, Leaving(q))
      else WithAdmin(s.(used := s.used + {g}), a, Activating(q, current, Record(g, Active, q.operation, q.action)))
    else if current.None? || current.value.phase != Deactivating then
      WithAdmin(s.(used := s.used + {g}), a, Announcing(q, current, Record(g, Deactivating, q.operation, Deactivate)))
    else if current.value.operation != q.operation then WithAdmin(s, a, Leaving(q))
    else WithAdmin(s, a, Draining(q, current.value, false))
  }

  /** The effect of one step; a step that is not enabled changes nothing. Locks never wait: a
      client or administrator that finds a lock taken gives up. */
  function Do(s: System, step: Step): System {
    match step
    case ClientRead(c) =>
      if ClientAt(s, c) != Away then s
      else if s.record.None? || s.record.value.phase != Active then WithClient(s, c, Bypassed(s.record))
      else WithClient(s, c, Wanting)
    case ClientLock(c) =>
      if ClientAt(s, c) != Wanting then s
      else if !s.leaseFile || s.exclusive.Some? then WithClient(s, c, Away)
      else WithClient(s.(shared := s.shared + {c}), c, Locked)
    case ClientReread(c) =>
      if ClientAt(s, c) != Locked then s
      else if s.record.None? then WithClient(s.(shared := s.shared - {c}), c, Away)
      else WithClient(s, c, Inside(s.record.value))
    case ClientLeave(c) =>
      WithClient(s.(shared := s.shared - {c}), c, Away)
    case AdminAsk(a, q) =>
      if AdminAt(s, a) != Idle then s else WithAdmin(s, a, Asked(q))
    case AdminElect(a) =>
      if !AdminAt(s, a).Asked? then s
      else if s.elected.Some? then WithAdmin(s, a, Idle)
      else WithAdmin(s.(elected := Some(a)), a, Elected(AdminAt(s, a).q))
    case AdminRead(a) =>
      if !AdminAt(s, a).Elected? then s
      else
        var q := AdminAt(s, a).q;
        if Decide(s.record, q) == Proceed then WithAdmin(s, a, Checked(q, s.record)) else WithAdmin(s, a, Leaving(q))
    case AdminOpen(a, g) =>
      if !AdminAt(s, a).Checked? || g in s.used then s
      else Opened(s.(leaseFile := true), a, AdminAt(s, a).q, AdminAt(s, a).current, g)
    case AdminLease(a) =>
      var free := s.exclusive.None? && s.shared == {};
      (match AdminAt(s, a)
       case Activating(q, current, result) =>
         if free then WithAdmin(s.(exclusive := Some(a)), a, Ready(q, current, result)) else WithAdmin(s, a, Leaving(q))
       case Draining(q, announced, own) =>
         if free then WithAdmin(s.(exclusive := Some(a)), a, Drained(q, announced, own))
           else WithAdmin(s, a, Leaving(q))
       case _ => s)
    case AdminPublish(a) =>
      (match AdminAt(s, a)
       case Ready(q, _, result) => WithAdmin(Publish(s, result), a, Unlocking(q))
       case Announcing(q, _, result) => WithAdmin(Publish(s, result), a, Draining(q, result, true))
       case Drained(q, announced, _) =>
         WithAdmin(Publish(s, Record(announced.generation, Inactive, q.operation, Deactivate)), a, Unlocking(q))
       case _ => s)
    case AdminUnlock(a) =>
      (match AdminAt(s, a)
       case Unlocking(q) => WithAdmin(s.(exclusive := if s.exclusive == Some(a) then None else s.exclusive), a,
         Leaving(q))
       case Leaving(_) => WithAdmin(Release(s, a), a, Idle)
       case _ => s)
    case AdminCrash(a) => WithAdmin(Release(s, a), a, Idle)
  }

  function Run(s: System, steps: seq<Step>): System {
    if steps == [] then s else Do(Run(s, steps[..|steps| - 1]), steps[|steps| - 1])
  }

  // -------------------------------------------------------------------- invariant

  predicate HoldsLease(p: Client) { p.Locked? || p.Inside? }

  predicate HoldsAdmin(p: Admin) { !p.Idle? && !p.Asked? }

  predicate HoldsExclusive(p: Admin) { p.Ready? || p.Drained? || p.Unlocking? }

  /** A client that may work: it holds the lease and re-read an active record. */
  predicate Admitted(s: System, c: Id) {
    ClientAt(s, c).Inside? && ClientAt(s, c).seen.phase == Active
  }

  /** The locks are what the kernel says they are. */
  ghost predicate Locks(s: System) {
    && (forall c: Id :: c in s.shared <==> HoldsLease(ClientAt(s, c)))
    && (forall a: Id :: s.elected == Some(a) <==> HoldsAdmin(AdminAt(s, a)))
    && (forall a: Id :: s.exclusive == Some(a) <==> HoldsExclusive(AdminAt(s, a)))
    && (s.exclusive.Some? ==> s.shared == {})
  }

  /** What an elected administrator knows is still true, and what it drew is unpublished. */
  ghost predicate Knows(s: System, p: Admin) {
    && (p.Activating? || p.Ready? || p.Announcing? || p.Draining? || p.Drained? ==> s.leaseFile)
    && (p.Checked? ==> p.current == s.record && Decide(s.record, p.q) == Proceed)
    && ((p.Activating? || p.Ready?) ==>
          && p.current == s.record && Decide(s.record, p.q) == Proceed
          && p.q.action != Deactivate && p.result.phase == Active && p.result.action == p.q.action
          && p.result.operation == p.q.operation
          && !(s.record.Some? && s.record.value.phase == Deactivating)
          && p.result.generation in s.used && Unpublished(s, p.result.generation))
    && (p.Announcing? ==>
          && p.current == s.record && Decide(s.record, p.q) == Proceed
          && p.q.action == Deactivate && p.result.phase == Deactivating && p.result.action == Deactivate
          && p.result.operation == p.q.operation
          && s.record.Some? && s.record.value.phase != Deactivating
          && p.result.generation in s.used && Unpublished(s, p.result.generation))
    && ((p.Draining? || p.Drained?) ==>
          && s.record == Some(p.announced) && p.announced.phase == Deactivating
          && p.q.action == Deactivate && p.announced.operation == p.q.operation
          && (p.own || Decide(s.record, p.q) == Proceed))
  }

  ghost predicate Unpublished(s: System, g: Generation) {
    forall i :: 0 <= i < |s.published| ==> s.published[i].generation != g
  }

  /** Publications form one line: it starts with an enrolment, every record decodes, and each one
      carries a generation never seen before -- except that a deactivation is completed by the
      same generation, next. */
  ghost predicate Linear(p: seq<Record>) {
    Links(p) && OneGeneration(p)
  }

  ghost predicate Links(p: seq<Record>) {
    && (forall i :: 0 <= i < |p| ==> Decodes(p[i]) && (p[i].action == Enroll <==> i == 0))
    && (forall i :: 0 < i < |p| ==> (p[i].generation == p[i - 1].generation <==> p[i].phase == Inactive))
    && (forall i :: 0 < i < |p| && p[i].phase == Inactive ==> p[i - 1] == p[i].(phase := Deactivating))
    && (forall i :: 0 < i < |p| && p[i].phase == Active ==> p[i - 1].phase != Deactivating)
    && (forall i :: 0 < i < |p| && p[i].phase == Deactivating ==> p[i - 1].phase != Deactivating)
    && (|p| > 0 ==> p[0].phase == Active)
  }

  /** A generation is published once, or twice in a row. */
  ghost predicate OneGeneration(p: seq<Record>) {
    forall i, j :: 0 <= i < j < |p| && p[i].generation == p[j].generation ==> j == i + 1
  }

  ghost predicate Inv(s: System) {
    && Locks(s)
    && (forall a: Id :: Knows(s, AdminAt(s, a)))
    && History(s)
    && (s.record.Some? ==> s.leaseFile)
    && AdmittedCurrent(s)
  }

  /** Admitted clients see the present: none while inactive, and while active exactly the
      current record. */
  ghost predicate AdmittedCurrent(s: System) {
    forall c: Id :: Admitted(s, c) ==>
      && s.record.Some? && s.record.value.phase != Inactive
      && (s.record.value.phase == Active ==> ClientAt(s, c).seen == s.record.value)
  }

  ghost predicate History(s: System) {
    && Linear(s.published)
    && (forall i :: 0 <= i < |s.published| ==> s.published[i].generation in s.used)
    && s.record == (if s.published == [] then None else Some(s.published[|s.published| - 1]))
  }

  lemma InitialInv()
    ensures Inv(INITIAL)
  {
  }

  /** One client moved, and the shared lease with it. */
  lemma ClientMoved(s: System, t: System, c: Id)
    requires Locks(s)
    requires t.clients.Keys == s.clients.Keys + {c} && forall d: Id :: d in s.clients && d != c ==>
      t.clients[d] == s.clients[d]
    requires t.admins == s.admins && t.elected == s.elected && t.exclusive == s.exclusive
    requires t.shared == if HoldsLease(t.clients[c]) then s.shared + {c} else s.shared - {c}
    requires HoldsLease(t.clients[c]) ==> c in s.shared || s.exclusive.None?
    ensures Locks(t) && forall d: Id :: d != c ==> ClientAt(t, d) == ClientAt(s, d)
  {
    assert forall d: Id :: d != c ==> ClientAt(t, d) == ClientAt(s, d);
    assert forall a: Id :: AdminAt(t, a) == AdminAt(s, a);
  }

  /** One administrator moved, and its locks with it. */
  lemma AdminMoved(s: System, t: System, a: Id)
    requires Locks(s)
    requires t.admins.Keys == s.admins.Keys + {a} && forall b: Id :: b in s.admins && b != a ==>
      t.admins[b] == s.admins[b]
    requires t.clients == s.clients && t.shared == s.shared
    requires if HoldsAdmin(t.admins[a]) then t.elected == Some(a) && (s.elected.None? || s.elected == Some(a))
             else t.elected == if s.elected == Some(a) then None else s.elected
    requires if HoldsExclusive(t.admins[a]) then t.exclusive == Some(a)
      && (s.exclusive == Some(a) || (s.exclusive.None? && s.shared == {}))
             else t.exclusive == if s.exclusive == Some(a) then None else s.exclusive
    ensures Locks(t) && forall b: Id :: b != a ==> AdminAt(t, b) == AdminAt(s, b)
  {
    assert forall b: Id :: b != a ==> AdminAt(t, b) == AdminAt(s, b);
    assert forall c: Id :: ClientAt(t, c) == ClientAt(s, c);
    assert AdminAt(t, a) == t.admins[a];
  }

  predicate ClientStep(step: Step) {
    step.ClientRead? || step.ClientLock? || step.ClientReread? || step.ClientLeave?
  }

  lemma ClientLocks(s: System, step: Step)
    requires Locks(s) && ClientStep(step)
    ensures Locks(Do(s, step)) && forall d: Id :: d != step.c ==> ClientAt(Do(s, step), d) == ClientAt(s, d)
  {
    hide Locks;
    assert step.c in s.shared <==> HoldsLease(ClientAt(s, step.c)) by { SharedIsHeld(s, step.c); }
    if Do(s, step) != s {
      ClientMoved(s, Do(s, step), step.c);
    }
  }

  lemma SharedIsHeld(s: System, c: Id)
    requires Locks(s)
    ensures c in s.shared <==> HoldsLease(ClientAt(s, c))
  {
  }

  lemma LocksHeld(s: System, a: Id)
    requires Locks(s)
    ensures s.elected == Some(a) <==> HoldsAdmin(AdminAt(s, a))
    ensures s.exclusive == Some(a) <==> HoldsExclusive(AdminAt(s, a))
  {
  }

  lemma AdminLocks(s: System, step: Step)
    requires Locks(s) && !ClientStep(step)
    ensures Locks(Do(s, step)) && forall b: Id :: b != step.a ==> AdminAt(Do(s, step), b) == AdminAt(s, b)
  {
    hide Locks, Decide;
    LocksHeld(s, step.a);
    if step.AdminOpen? {
      OpenLocks(s, step);
    } else if step.AdminLease? || step.AdminPublish? {
      LeaseLocks(s, step);
    } else if Do(s, step) != s {
      AdminMoved(s, Do(s, step), step.a);
    }
  }

  lemma OpenLocks(s: System, step: Step)
    requires Locks(s) && step.AdminOpen?
    ensures Locks(Do(s, step)) && forall b: Id :: b != step.a ==> AdminAt(Do(s, step), b) == AdminAt(s, b)
  {
    hide Locks;
    LocksHeld(s, step.a);
    if Do(s, step) != s {
      AdminMoved(s, Do(s, step), step.a);
    }
  }

  lemma LeaseLocks(s: System, step: Step)
    requires Locks(s) && (step.AdminLease? || step.AdminPublish?)
    ensures Locks(Do(s, step)) && forall b: Id :: b != step.a ==> AdminAt(Do(s, step), b) == AdminAt(s, b)
  {
    hide Locks;
    LocksHeld(s, step.a);
    if Do(s, step) != s {
      AdminMoved(s, Do(s, step), step.a);
    }
  }

  lemma ClientStepInv(s: System, step: Step)
    requires Inv(s) && ClientStep(step)
    ensures Inv(Do(s, step))
  {
    hide Linear;
    var t := Do(s, step);
    ClientLocks(s, step);
    assert forall a: Id :: AdminAt(t, a) == AdminAt(s, a);
    forall a: Id ensures Knows(t, AdminAt(t, a)) {
      assert Knows(s, AdminAt(s, a));
    }
    forall c: Id | Admitted(t, c) && c != step.c ensures Admitted(s, c) {
    }
  }

  predicate Publishes(s: System, step: Step) {
    step.AdminPublish? && (AdminAt(s, step.a).Ready? || AdminAt(s, step.a).Announcing? || AdminAt(s, step.a).Drained?)
  }

  /** A step that publishes nothing leaves what administrators know true. */
  lemma QuietKnows(s: System, step: Step)
    requires Inv(s) && !ClientStep(step) && !Publishes(s, step)
    ensures forall a: Id :: Knows(Do(s, step), AdminAt(Do(s, step), a))
  {
    hide Inv, Knows, Locks;
    var t := Do(s, step);
    InvLocks(s);
    AdminLocks(s, step);
    QuietGrows(s, step);
    forall a: Id ensures Knows(t, AdminAt(t, a)) {
      InvKnows(s, a);
      if a == step.a {
        OwnKnows(s, step);
      } else {
        KnowsStays(s, t, AdminAt(s, a));
      }
    }
  }

  lemma InvLocks(s: System)
    requires Inv(s)
    ensures Locks(s)
  {
  }

  lemma InvKnows(s: System, a: Id)
    requires Inv(s)
    ensures Knows(s, AdminAt(s, a)) && History(s)
  {
  }

  lemma QuietGrows(s: System, step: Step)
    requires !ClientStep(step) && !Publishes(s, step)
    ensures var t := Do(s, step);
      t.record == s.record && t.published == s.published && (s.leaseFile ==> t.leaseFile) && s.used <= t.used
  {
    hide Decide;
  }

  lemma KnowsStays(s: System, t: System, p: Admin)
    requires Knows(s, p) && t.record == s.record && t.published == s.published && (s.leaseFile ==> t.leaseFile)
      && s.used <= t.used
    ensures Knows(t, p)
  {
  }

  lemma OwnKnows(s: System, step: Step)
    requires !ClientStep(step) && !Publishes(s, step) && Knows(s, AdminAt(s, step.a)) && History(s)
    ensures Knows(Do(s, step), AdminAt(Do(s, step), step.a))
  {
    hide Linear;
  }

  lemma QuietInv(s: System, step: Step)
    requires Inv(s) && !ClientStep(step) && !Publishes(s, step)
    ensures Inv(Do(s, step))
  {
    hide Linear, Decide, Locks, Knows;
    var t := Do(s, step);
    AdminLocks(s, step);
    QuietKnows(s, step);
    assert forall c: Id :: ClientAt(t, c) == ClientAt(s, c);
  }

  lemma OnlyElectedPublishes(s: System, a: Id, b: Id)
    requires Locks(s) && HoldsAdmin(AdminAt(s, a)) && a != b
    ensures AdminAt(s, b).Idle? || AdminAt(s, b).Asked?
  {
  }

  /** The record an administrator is about to publish. */
  function Next(s: System, a: Id): Record
    requires Publishes(s, AdminPublish(a))
  {
    match AdminAt(s, a)
    case Ready(_, _, result) => result
    case Announcing(_, _, result) => result
    case Drained(q, announced, _) => Record(announced.generation, Inactive, q.operation, Deactivate)
  }

  lemma HistoryGrows(s: System, a: Id)
    requires Inv(s) && Publishes(s, AdminPublish(a))
    ensures History(Do(s, AdminPublish(a)))
    ensures Do(s, AdminPublish(a)).published == s.published + [Next(s, a)]
  {
    hide Inv, Linear;
    InvKnows(s, a);
    var p, r := s.published, Next(s, a);
    if p != [] {
      LastDecodes(p);
    }
    LinearOn(p, r);
  }

  /** What may follow a line of publications: the enrolment first, then a record of an unpublished
      generation, or the completion of the deactivation that ends it. */
  lemma LinearOn(p: seq<Record>, r: Record)
    requires Linear(p) && Decodes(r) && (r.action == Enroll <==> p == [])
    requires p == [] ==> r.phase == Active
    requires p != [] ==>
      var last := p[|p| - 1];
      || (last.phase == Deactivating && r == last.(phase := Inactive))
      || (last.phase != Deactivating && r.phase != Inactive && forall i :: 0 <= i < |p| ==>
        p[i].generation != r.generation)
    ensures Linear(p + [r])
  {
    hide Links, OneGeneration;
    LinksOn(p, r);
    OneGenerationOn(p, r);
  }

  lemma LinksOn(p: seq<Record>, r: Record)
    requires Links(p) && Decodes(r) && (r.action == Enroll <==> p == [])
    requires p == [] ==> r.phase == Active
    requires p != [] ==>
      var last := p[|p| - 1];
      || (last.phase == Deactivating && r == last.(phase := Inactive))
      || (last.phase != Deactivating && r.phase != Inactive && r.generation != last.generation)
    ensures Links(p + [r])
  {
  }

  lemma OneGenerationOn(p: seq<Record>, r: Record)
    requires Linear(p)
    requires p != [] ==>
      var last := p[|p| - 1];
      || (last.phase == Deactivating && r.generation == last.generation)
      || (forall i :: 0 <= i < |p| ==> p[i].generation != r.generation)
    ensures OneGeneration(p + [r])
  {
    if p != [] && p[|p| - 1].phase == Deactivating && r.generation == p[|p| - 1].generation {
      LastIsAlone(p);
    }
  }

  lemma LastIsAlone(p: seq<Record>)
    requires Linear(p) && p != [] && p[|p| - 1].phase == Deactivating
    ensures forall i :: 0 <= i < |p| - 1 ==> p[i].generation != p[|p| - 1].generation
  {
    var n := |p| - 1;
    assert n > 0 ==> p[n].generation != p[n - 1].generation;
  }

  lemma LastDecodes(p: seq<Record>)
    requires Linear(p) && p != []
    ensures Decodes(p[|p| - 1])
  {
  }

  lemma PublishInv(s: System, a: Id)
    requires Inv(s) && Publishes(s, AdminPublish(a))
    ensures Inv(Do(s, AdminPublish(a)))
  {
    hide Linear, Decide;
    var t := Do(s, AdminPublish(a));
    AdminLocks(s, AdminPublish(a));
    HistoryGrows(s, a);
    assert Knows(s, AdminAt(s, a));
    LocksHeld(s, a);
    forall b: Id ensures Knows(t, AdminAt(t, b)) {
      if b != a {
        OnlyElectedPublishes(s, a, b);
      }
    }
    assert forall c: Id :: ClientAt(t, c) == ClientAt(s, c);
    if !AdminAt(s, a).Announcing? {
      forall c: Id ensures !Admitted(s, c) { SharedIsHeld(s, c); }
    }
  }

  lemma StepInv(s: System, step: Step)
    requires Inv(s)
    ensures Inv(Do(s, step))
  {
    if ClientStep(step) {
      ClientStepInv(s, step);
    } else if Publishes(s, step) {
      PublishInv(s, step.a);
    } else {
      QuietInv(s, step);
    }
  }

  /** Every reachable state, under every interleaving and with crashes anywhere. */
  lemma {:induction false} Safety(steps: seq<Step>)
    ensures Inv(Run(INITIAL, steps))
  {
    hide Inv;
    if steps == [] {
      InitialInv();
    } else {
      Safety(steps[..|steps| - 1]);
      StepInv(Run(INITIAL, steps[..|steps| - 1]), steps[|steps| - 1]);
    }
  }

  // ------------------------------------------------------------------ main claims

  /** Whatever has happened: while the record is inactive nobody is admitted, and while it is
      active everyone admitted observed exactly the current record and holds the lease for it. */
  lemma DrainSafety(steps: seq<Step>, c: Id)
    ensures var s := Run(INITIAL, steps);
      Admitted(s, c) ==>
        && c in s.shared && s.exclusive.None?
        && s.record.Some? && s.record.value.phase != Inactive
        && (s.record.value.phase == Active ==> ClientAt(s, c).seen == s.record.value)
  {
    Safety(steps);
    SharedIsHeld(Run(INITIAL, steps), c);
  }

  lemma StepAdmits(s: System, step: Step, c: Id)
    requires Admitted(Do(s, step), c) && !Admitted(s, c)
    ensures step == ClientReread(c) && s.record.Some? && s.record.value.phase == Active
  {
    hide Decide;
    if step != ClientReread(c) {
      SameOrLess(s, step, c);
    }
  }

  lemma SameOrLess(s: System, step: Step, c: Id)
    requires step != ClientReread(c)
    ensures Admitted(Do(s, step), c) ==> Admitted(s, c)
  {
    hide Decide;
    assert ClientStep(step) && c != step.c ==> ClientAt(Do(s, step), c) == ClientAt(s, c);
  }

  lemma OneMore(steps: seq<Step>, step: Step)
    ensures Run(INITIAL, steps + [step]) == Do(Run(INITIAL, steps), step)
  {
    assert (steps + [step])[..|steps|] == steps;
  }

  /** Once the record is not active, nobody new is admitted by any step. */
  lemma AdmittedOnlyShrinks(steps: seq<Step>, step: Step, c: Id)
    requires var s := Run(INITIAL, steps); s.record.Some? && s.record.value.phase != Active
    requires Admitted(Run(INITIAL, steps + [step]), c)
    ensures Admitted(Run(INITIAL, steps), c)
  {
    hide Run, Do;
    OneMore(steps, step);
    if !Admitted(Run(INITIAL, steps), c) {
      StepAdmits(Run(INITIAL, steps), step, c);
    }
  }

  lemma OnlyPublicationWrites(s: System, step: Step)
    requires !Publishes(s, step)
    ensures Do(s, step).record == s.record && Do(s, step).published == s.published
  {
    hide Decide;
  }

  /** The record is the end of one line of publications that only ever grows: it never becomes
      absent again, every record in it decodes, and no generation is left in two ways. */
  lemma OneLineOfHistory(steps: seq<Step>, step: Step)
    ensures var s, t := Run(INITIAL, steps), Run(INITIAL, steps + [step]);
      && s.published <= t.published && |t.published| <= |s.published| + 1
      && (s.record.Some? ==> t.record.Some?)
      && t.record == (if t.published == [] then None else Some(t.published[|t.published| - 1]))
      && (t.record != s.record ==> |t.published| == |s.published| + 1)
      && (forall i :: 0 <= i < |t.published| ==> Decodes(t.published[i]))
      && LeftOnce(t.published)
  {
    hide Run, Do, Locks, Knows, Linear, LeftOnce;
    OneMore(steps, step);
    Safety(steps);
    Safety(steps + [step]);
    var s := Run(INITIAL, steps);
    LineLeavesOnce(Run(INITIAL, steps + [step]).published);
    if Publishes(s, step) {
      HistoryGrows(s, step.a);
    } else {
      OnlyPublicationWrites(s, step);
    }
  }

  /** Publication i is followed by another generation. */
  ghost predicate LeavesAt(p: seq<Record>, i: int) {
    0 <= i < |p| - 1 && p[i + 1].generation != p[i].generation
  }

  /** No generation has two successors. */
  ghost predicate LeftOnce(p: seq<Record>) {
    forall i, j :: LeavesAt(p, i) && LeavesAt(p, j) && p[i].generation == p[j].generation ==> i == j
  }

  lemma LineLeavesOnce(p: seq<Record>)
    requires Linear(p)
    ensures LeftOnce(p) && forall i :: 0 <= i < |p| ==> Decodes(p[i])
  {
  }

  /** A publication acts on the generation its request expects, or completes the announcement the
      same call just made. */
  lemma ActsOnExpected(steps: seq<Step>, a: Id)
    requires Publishes(Run(INITIAL, steps), AdminPublish(a))
    ensures var s := Run(INITIAL, steps); var p := AdminAt(s, a); var next := Next(s, a);
      && s.elected == Some(a)
      && next.operation == p.q.operation && next.action == p.q.action
      && (Key(s.record) == p.q.expected
          || (p.Drained? && p.own && s.record == Some(p.announced) && next == p.announced.(phase := Inactive)))
      && (next.phase == Active || next.phase == Inactive ==> s.shared == {})
  {
    Safety(steps);
    var s := Run(INITIAL, steps);
    assert Knows(s, AdminAt(s, a));
    LocksHeld(s, a);
  }

  // ---------------------------------------------------------------- reviewed requests

  datatype ReviewAction = DoEnroll | DoDeactivate | DoReactivate | Finish
  datatype Review = Reviewed(request: Request) | NotReviewable

  /** The request an administrator confirms after seeing a record; `issued` is a new operation. */
  function ReviewOf(current: Option<Record>, action: ReviewAction, issued: Operation): Review {
    if action == DoEnroll && current.Some? then NotReviewable
    else if action != DoEnroll && current.None? then NotReviewable
    else if action == Finish && current.value.phase != Deactivating then NotReviewable
    else if action == DoReactivate && current.value.phase != Inactive then NotReviewable
    else if action == DoDeactivate && current.value.phase != Active then NotReviewable
    else
      Reviewed(Request(Key(current), if action == Finish then current.value.operation else issued,
        match action case DoEnroll => Enroll case DoReactivate => Reactivate case _ => Deactivate))
  }

  /** However much later it is applied, a reviewed request acts only if the record is exactly the
      one that was reviewed; otherwise it fails, or returns a completed result of its own operation
      and publishes nothing. */
  lemma ActsOnReviewed(before: seq<Step>, after: seq<Step>, action: ReviewAction, issued: Operation)
    requires ReviewOf(Run(INITIAL, before).record, action, issued).Reviewed?
    ensures var seen, now := Run(INITIAL, before).record, Run(INITIAL, before + after).record;
      var q := ReviewOf(seen, action, issued).request;
      && (Decide(now, q) == Proceed ==> now == seen)
      && (Decide(now, q).Lookup? ==>
            now == Some(Decide(now, q).found) && now.value.operation == q.operation && now.value.action == q.action)
  {
    hide Run;
    var s, t := Run(INITIAL, before), Run(INITIAL, before + after);
    Safety(before);
    Safety(before + after);
    HistoryExtends(before, after);
    var q := ReviewOf(s.record, action, issued).request;
    SameReview(s, t, action, issued);
  }

  lemma SameReview(s: System, t: System, action: ReviewAction, issued: Operation)
    requires History(s) && History(t) && s.published <= t.published && ReviewOf(s.record, action, issued).Reviewed?
    ensures var q := ReviewOf(s.record, action, issued).request; Decide(t.record, q) == Proceed ==> t.record == s.record
  {
    var q := ReviewOf(s.record, action, issued).request;
    if Decide(t.record, q) == Proceed && s.record.Some? {
      var i, j := |s.published| - 1, |t.published| - 1;
      assert t.published[i] == s.published[i];
      assert t.published[i].generation == t.published[j].generation;
    }
  }

  lemma {:induction false} HistoryExtends(before: seq<Step>, after: seq<Step>)
    ensures Run(INITIAL, before).published <= Run(INITIAL, before + after).published
  {
    if after == [] {
      assert before + after == before;
    } else {
      var init := after[..|after| - 1];
      HistoryExtends(before, init);
      assert before + after == (before + init) + [after[|after| - 1]];
      OneLineOfHistory(before + init, after[|after| - 1]);
    }
  }

  // ------------------------------------------------------------- an undisturbed call

  /** What one call leaves behind when nobody else moves: `busy` when a lease is being held. */
  function Outcome(current: Option<Record>, q: Request, g: Generation, busy: bool): Option<Record> {
    if Decide(current, q) != Proceed then current
    else if q.action != Deactivate then
      if busy || (current.Some? && current.value.phase == Deactivating) then current
      else Some(Record(g, Active, q.operation, q.action))
    else if current.None? then None
    else if current.value.phase == Deactivating then
      if busy || current.value.operation != q.operation then current else Some(current.value.(phase := Inactive))
    else Some(Record(g, if busy then Deactivating else Inactive, q.operation, Deactivate))
  }

  /** All of a call's steps in order; those its branch does not need change nothing. */
  function Call(a: Id, q: Request, g: Generation): seq<Step> {
    [AdminAsk(a, q), AdminElect(a), AdminRead(a), AdminOpen(a, g), AdminPublish(a), AdminLease(a), AdminPublish(a),
      AdminUnlock(a), AdminUnlock(a)]
  }

  function Prepared(s: System, a: Id, q: Request): System {
    Do(Do(Do(s, AdminAsk(a, q)), AdminElect(a)), AdminRead(a))
  }

  function Concluded(s: System, a: Id): System {
    Do(Do(Do(Do(Do(s, AdminPublish(a)), AdminLease(a)), AdminPublish(a)), AdminUnlock(a)), AdminUnlock(a))
  }

  lemma CallRuns(s: System, a: Id, q: Request, g: Generation)
    ensures Run(s, Call(a, q, g)) == Concluded(Do(Prepared(s, a, q), AdminOpen(a, g)), a)
  {
    hide Do;
    var c := Call(a, q, g);
    RunsOn(s, c[..8], c[8]);
    RunsOn(s, c[..7], c[7]);
    RunsOn(s, c[..6], c[6]);
    RunsOn(s, c[..5], c[5]);
    RunsOn(s, c[..4], c[4]);
    RunsOn(s, c[..3], c[3]);
    RunsOn(s, c[..2], c[2]);
    RunsOn(s, c[..1], c[1]);
    RunsOn(s, c[..0], c[0]);
    assert c == c[..8] + [c[8]] && c[..8] == c[..7] + [c[7]] && c[..7] == c[..6] + [c[6]];
    assert c[..6] == c[..5] + [c[5]] && c[..5] == c[..4] + [c[4]] && c[..4] == c[..3] + [c[3]];
    assert c[..3] == c[..2] + [c[2]] && c[..2] == c[..1] + [c[1]] && c[..1] == c[..0] + [c[0]];
  }

  lemma RunsOn(s: System, steps: seq<Step>, step: Step)
    ensures Run(s, steps + [step]) == Do(Run(s, steps), step)
  {
    assert (steps + [step])[..|steps|] == steps;
  }

  /** Nothing moved but administrator a, who now holds the admin lock at p. */
  ghost predicate At(s: System, t: System, a: Id, p: Admin) {
    && AdminAt(t, a) == p && t.record == s.record && t.elected == Some(a) && t.exclusive.None?
    && t.shared == s.shared && t.clients == s.clients
  }

  /** The call is over: the record is r and no lock is left behind. */
  ghost predicate Ended(s: System, t: System, a: Id, r: Option<Record>) {
    && AdminAt(t, a).Idle? && t.record == r && t.elected.None? && t.exclusive.None?
    && t.shared == s.shared && t.clients == s.clients
  }

  lemma PreparedAt(s: System, a: Id, q: Request)
    requires s.elected.None? && s.exclusive.None? && AdminAt(s, a).Idle?
    ensures var t := Prepared(s, a, q);
      At(s, t, a, if Decide(s.record, q) == Proceed then Checked(q, s.record) else Leaving(q)) && t.used == s.used
  {
    hide Decide;
  }

  lemma LeavingEnds(s: System, t: System, a: Id, q: Request)
    requires At(s, t, a, Leaving(q))
    ensures Ended(s, Concluded(t, a), a, s.record)
  {
    assert Do(t, AdminPublish(a)) == t && Do(t, AdminLease(a)) == t;
    LeaveEnds(s, t, a, q);
  }

  /** The last three steps once the administrator is leaving. */
  lemma LeaveEnds(s: System, t: System, a: Id, q: Request)
    requires AdminAt(t, a) == Leaving(q) && t.elected == Some(a) && t.exclusive.None? && t.shared == s.shared
      && t.clients == s.clients
    ensures Ended(s, Do(Do(Do(t, AdminPublish(a)), AdminUnlock(a)), AdminUnlock(a)), a, t.record)
  {
    assert Do(t, AdminPublish(a)) == t;
    var u := Do(t, AdminUnlock(a));
    assert AdminAt(u, a) == Idle && Do(u, AdminUnlock(a)) == u;
  }

  /** The last two steps once the administrator has published under the exclusive lease. */
  lemma UnlockEnds(s: System, t: System, a: Id, q: Request)
    requires AdminAt(t, a) == Unlocking(q) && t.elected == Some(a) && t.exclusive == Some(a) && t.shared == s.shared
      && t.clients == s.clients
    ensures Ended(s, Do(Do(t, AdminUnlock(a)), AdminUnlock(a)), a, t.record)
  {
    var u := Do(t, AdminUnlock(a));
    assert AdminAt(u, a) == Leaving(q);
  }

  lemma ActivatingEnds(s: System, t: System, a: Id, q: Request, current: Option<Record>, r: Record)
    requires At(s, t, a, Activating(q, current, r))
    ensures Ended(s, Concluded(t, a), a, if s.shared == {} then Some(r) else s.record)
  {
    assert Do(t, AdminPublish(a)) == t;
    var u := Do(t, AdminLease(a));
    if s.shared != {} {
      LeaveEnds(s, u, a, q);
    } else {
      UnlockEnds(s, Do(u, AdminPublish(a)), a, q);
    }
  }

  lemma AnnouncingEnds(s: System, t: System, a: Id, q: Request, current: Option<Record>, r: Record)
    requires At(s, t, a, Announcing(q, current, r))
    ensures Ended(s, Concluded(t, a), a,
      Some(if s.shared == {} then Record(r.generation, Inactive, q.operation, Deactivate) else r))
  {
    var u := Do(t, AdminPublish(a));
    DrainEnds(s, u, a, q, r, true);
  }

  /** From a drain to the end of the call. */
  lemma DrainEnds(s: System, t: System, a: Id, q: Request, r: Record, own: bool)
    requires AdminAt(t, a) == Draining(q, r, own) && t.elected == Some(a) && t.exclusive.None? && t.shared == s.shared
      && t.clients == s.clients
    ensures Ended(s, Do(Do(Do(Do(t, AdminLease(a)), AdminPublish(a)), AdminUnlock(a)), AdminUnlock(a)), a,
                  if s.shared == {} then Some(Record(r.generation, Inactive, q.operation, Deactivate)) else t.record)
  {
    var v := Do(t, AdminLease(a));
    if s.shared != {} {
      LeaveEnds(s, v, a, q);
    } else {
      UnlockEnds(s, Do(v, AdminPublish(a)), a, q);
    }
  }

  lemma DrainingEnds(s: System, t: System, a: Id, q: Request, r: Record)
    requires At(s, t, a, Draining(q, r, false))
    ensures Ended(s, Concluded(t, a), a, if s.shared == {}
      then Some(Record(r.generation, Inactive, q.operation, Deactivate)) else s.record)
  {
    assert Do(t, AdminPublish(a)) == t;
    DrainEnds(s, t, a, q, r, false);
  }

  /** An undisturbed call has exactly the outcome its request asks for and leaves no lock behind. */
  lemma CallOutcome(s: System, a: Id, q: Request, g: Generation)
    requires Inv(s) && s.elected.None? && s.exclusive.None? && AdminAt(s, a).Idle? && g !in s.used
    ensures Ended(s, Run(s, Call(a, q, g)), a, Outcome(s.record, q, g, s.shared != {}))
  {
    hide Do, Concluded, Prepared, Inv, Run, Call;
    CallRuns(s, a, q, g);
    PreparedAt(s, a, q);
    CurrentDecodes(s);
    var t := Prepared(s, a, q);
    var u := Do(t, AdminOpen(a, g));
    OpenedAt(s, t, a, q, g);
    match AdminAt(u, a)
    case Leaving(_) => LeavingEnds(s, u, a, q);
    case Activating(_, current, r) => ActivatingEnds(s, u, a, q, current, r);
    case Announcing(_, current, r) => AnnouncingEnds(s, u, a, q, current, r);
    case Draining(_, r, _) => DrainingEnds(s, u, a, q, r);
  }

  lemma OpenedAt(s: System, t: System, a: Id, q: Request, g: Generation)
    requires At(s, t, a, if Decide(s.record, q) == Proceed then Checked(q, s.record) else Leaving(q))
    requires g !in t.used
    ensures var u := Do(t, AdminOpen(a, g)); var p := AdminAt(u, a);
      && At(s, u, a, p)
      && p == (if Decide(s.record, q) != Proceed then Leaving(q)
               else if q.action != Deactivate then
                 if s.record.Some? && s.record.value.phase == Deactivating then Leaving(q)
                 else Activating(q, s.record, Record(g, Active, q.operation, q.action))
               else if s.record.value.phase != Deactivating
                 then Announcing(q, s.record, Record(g, Deactivating, q.operation, Deactivate))
               else if s.record.value.operation != q.operation then Leaving(q)
               else Draining(q, s.record.value, false))
  {
  }

  lemma CurrentDecodes(s: System)
    requires Inv(s)
    ensures s.record.Some? ==> Decodes(s.record.value)
  {
  }
}
