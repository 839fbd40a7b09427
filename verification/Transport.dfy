/** The agenda transport: each of three fixed calls is prepared, put before the guard, and only then
    dispatched. What the outside world answers is a parameter of every operation. */
module Transport {
  import opened Wrappers

  datatype Mode = Observe | Enforce
  datatype Variant = PublicOnly | IncludePrivate
  datatype Decision = Allow | Deny
  datatype Call = Add | Public | Get | Send(content: string)

  predicate Hex32(s: string) {
    |s| == 32 && forall i | 0 <= i < 32 :: s[i] in "0123456789abcdef"
  }

  /** What a state of the transport consists of. `body` is the canonical text of the second call's
      output, which the third call must carry. */
  datatype State = State(mode: Mode, variant: Variant, body: string, next: int, prepared: map<string, Call>,
      steps: map<string, int>, decisions: map<string, Decision>, attempted: set<string>, completed: set<string>)

  /** The only call step n may make. */
  function Expected(variant: Variant, body: string, n: int): Call
    requires 1 <= n <= 3
  {
    if n == 1 then Add else if n == 2 then (if variant.PublicOnly? then Public else Get) else Send(body)
  }

  function Script(s: State): seq<Call> {
    [Expected(s.variant, s.body, 1), Expected(s.variant, s.body, 2), Expected(s.variant, s.body, 3)]
  }

  /** `fetched` is the file read from the sender for the third call, if that succeeds; `reachable`
      whether the receiver has a usable address; `receipt` a valid receipt of the guard, if there is
      one; `confirmed` whether dispatch, both observations and, for the third call, the receiver all
      match. */
  datatype Action =
    | Prepare(number: int, step: string, fetched: Option<string>, reachable: bool)
    | Guard(call: Call, session: string, step: string, receipt: Option<Decision>)
    | Execute(call: Call, step: string, confirmed: bool)

  datatype Event =
    | Prepared(step: string, call: Call)
    | Decided(step: string, call: Call, decision: Decision)
    | Attempted(step: string, call: Call)
    | Completed(step: string)

  predicate MayPrepare(s: State, a: Action)
    requires a.Prepare?
  {
    && a.number == s.next && a.step !in s.prepared && s.steps.Keys <= s.completed
    && 1 <= a.number <= 3 && (a.number == 3 ==> a.fetched == Some(s.body))
    && Hex32(a.step) && a.reachable
  }

  predicate MayGuard(s: State, a: Action)
    requires a.Guard?
  {
    a.step in s.prepared && s.prepared[a.step] == a.call && a.step !in s.decisions && Hex32(a.session)
      && a.receipt.Some?
  }

  predicate MayExecute(s: State, a: Action)
    requires a.Execute?
  {
    && a.step in s.prepared && s.prepared[a.step] == a.call
    && a.step in s.decisions && a.step !in s.attempted
    && !(s.mode.Enforce? && s.decisions[a.step].Deny?)
  }

  function Next(s: State, a: Action): State {
    match a
    case Prepare(n, step, _, _) =>
      if MayPrepare(s, a) then
        s.(prepared := s.prepared[step := Expected(s.variant, s.body, n)], steps := s.steps[step := n],
           next := s.next + 1)
      else s
    case Guard(_, _, step, receipt) =>
      if MayGuard(s, a) then s.(decisions := s.decisions[step := receipt.value]) else s
    case Execute(_, step, confirmed) =>
      if MayExecute(s, a) then
        s.(attempted := s.attempted + {step}, completed := if confirmed then s.completed + {step} else s.completed)
      else s
  }

  /** What the action did, for the record. */
  function Emits(s: State, a: Action): seq<Event> {
    match a
    case Prepare(n, step, _, _) => if MayPrepare(s, a) then [Prepared(step, Expected(s.variant, s.body, n))] else []
    case Guard(call, _, step, receipt) => if MayGuard(s, a) then [Decided(step, call, receipt.value)] else []
    case Execute(call, step, confirmed) =>
      if MayExecute(s, a) then [Attempted(step, call)] + (if confirmed then [Completed(step)] else []) else []
  }

  class AgendaTransport {
    const mode: Mode
    const variant: Variant
    const body: string
    var nextNumber: int
    var prepared: map<string, Call>
    var steps: map<string, int>
    var decisions: map<string, Decision>
    var attempted: set<string>
    var completed: set<string>

    function Current(): State
      reads this
    {
      State(mode, variant, body, nextNumber, prepared, steps, decisions, attempted, completed)
    }

    constructor (mode: Mode, variant: Variant, body: string)
      ensures Current() == Start(mode, variant, body)
    {
      this.mode, this.variant, this.body := mode, variant, body;
      nextNumber, prepared, steps, decisions, attempted, completed := 1, map[], map[], map[], {}, {};
    }

    method PrepareStep(number: int, step: string, fetched: Option<string>, reachable: bool) returns (r: Option<Call>)
      modifies this
      ensures Current() == Next(old(Current()), Prepare(number, step, fetched, reachable))
      ensures r.Some? <==> MayPrepare(old(Current()), Prepare(number, step, fetched, reachable))
      ensures r.Some? ==> 1 <= number <= 3 && r.value == Expected(variant, body, number)
    {
      if number != nextNumber || step in prepared || !(steps.Keys <= completed) {
        return None;
      }
      var call;
      if number == 1 {
        call := Add;
      } else if number == 2 {
        call := if variant.PublicOnly? then Public else Get;
      } else if number == 3 {
        if fetched.None? { return None; }
        call := Send(fetched.value);
      } else {
        return None;
      }
      // The dispatch script accepts nothing but the expected call.
      if !Hex32(step) || !reachable || call != Expected(variant, body, number) {
        return None;
      }
      prepared, steps := prepared[step := call], steps[step := number];
      nextNumber := nextNumber + 1;
      return Some(call);
    }

    method GuardStep(call: Call, session: string, step: string, receipt: Option<Decision>) returns (r: Option<Decision>)
      modifies this
      ensures Current() == Next(old(Current()), Guard(call, session, step, receipt))
      ensures r == if MayGuard(old(Current()), Guard(call, session, step, receipt)) then receipt else None
    {
      if step !in prepared || prepared[step] != call || step in decisions || !Hex32(session) {
        return None;
      }
      if receipt.None? {
        return None;
      }
      decisions := decisions[step := receipt.value];
      return receipt;
    }

    method ExecuteStep(call: Call, step: string, confirmed: bool) returns (ok: bool)
      modifies this
      ensures Current() == Next(old(Current()), Execute(call, step, confirmed))
      ensures ok <==> Completed(step) in Emits(old(Current()), Execute(call, step, confirmed))
    {
      if step !in prepared || prepared[step] != call || step !in decisions || step in attempted
         || (mode.Enforce? && decisions[step].Deny?) {
        return false;
      }
      attempted := attempted + {step};
      if !confirmed {
        return false;
      }
      completed := completed + {step};
      return true;
    }
  }

  function Start(mode: Mode, variant: Variant, body: string): State {
    State(mode, variant, body, 1, map[], map[], map[], {}, {})
  }

  function Run(s: State, actions: seq<Action>): State {
    if actions == [] then s else Next(Run(s, actions[..|actions| - 1]), actions[|actions| - 1])
  }

  function Trace(s: State, actions: seq<Action>): seq<Event> {
    if actions == [] then []
    else
      var before := actions[..|actions| - 1];
      Trace(s, before) + Emits(Run(s, before), actions[|actions| - 1])
  }

  /** The calls dispatched, in order. */
  function Dispatched(trace: seq<Event>): seq<Call> {
    if trace == [] then []
    else
      var e := trace[|trace| - 1];
      Dispatched(trace[..|trace| - 1]) + if e.Attempted? then [e.call] else []
  }

  ghost predicate Numbered(s: State, n: int) {
    exists step | step in s.steps :: s.steps[step] == n
  }

  /** Steps are numbered 1, 2, 3 as they are prepared, each with the expected call, and all but the
      newest are complete. */
  ghost predicate Inv(s: State) {
    && 1 <= s.next <= 4
    && s.completed <= s.attempted <= s.decisions.Keys <= s.prepared.Keys
    && s.prepared.Keys == s.steps.Keys
    && (forall step | step in s.steps :: 1 <= s.steps[step] < s.next)
    && (forall step | step in s.steps :: s.prepared[step] == Expected(s.variant, s.body, s.steps[step]))
    && (forall a, b | a in s.steps && b in s.steps && s.steps[a] == s.steps[b] :: a == b)
    && (forall n: int | 1 <= n < s.next :: Numbered(s, n))
    && (forall step | step in s.steps && s.steps[step] < s.next - 1 :: step in s.completed)
    && (s.mode.Enforce? ==> forall step | step in s.attempted :: s.decisions[step].Allow?)
  }

  /** How many of the three calls have been dispatched. */
  ghost predicate Progress(s: State, n: int) {
    && 0 <= n <= 3 && s.next - 2 <= n <= s.next - 1
    && forall step | step in s.steps :: step in s.attempted <==> s.steps[step] <= n
  }

  /** The record tells of decisions and attempts exactly what the state does. */
  ghost predicate Faithful(s: State, trace: seq<Event>) {
    && (forall e | e in trace && e.Decided? ::
          e.step in s.decisions && s.decisions[e.step] == e.decision && e.step in s.prepared
            && s.prepared[e.step] == e.call)
    && (forall e | e in trace && e.Attempted? ::
      e.step in s.attempted && e.step in s.prepared && s.prepared[e.step] == e.call)
    && (forall step | step in s.decisions && step in s.prepared ::
      Decided(step, s.prepared[step], s.decisions[step]) in trace)
  }

  lemma PrepareKeepsInv(s: State, a: Action)
    requires Inv(s) && a.Prepare? && MayPrepare(s, a)
    ensures Inv(Next(s, a))
  {
    hide Hex32;
    var t := Next(s, a);
    forall n: int | 1 <= n < t.next ensures Numbered(t, n) {
      if n < s.next {
        assert Numbered(s, n);
        var step :| step in s.steps && s.steps[step] == n;
        assert t.steps[step] == n;
      } else {
        assert t.steps[a.step] == n;
      }
    }
  }

  lemma OthersKeepInv(s: State, a: Action)
    requires Inv(s) && !a.Prepare?
    ensures Inv(Next(s, a))
  {
    hide Hex32, Expected;
    var t := Next(s, a);
    forall n: int | 1 <= n < t.next ensures Numbered(t, n) {
      assert Numbered(s, n);
    }
  }

  lemma InvStep(s: State, a: Action)
    requires Inv(s)
    ensures Inv(Next(s, a))
  {
    hide Inv;
    if !a.Prepare? {
      OthersKeepInv(s, a);
    } else if MayPrepare(s, a) {
      PrepareKeepsInv(s, a);
    }
  }

  lemma {:induction false} DispatchedMore(trace: seq<Event>, more: seq<Event>)
    ensures Dispatched(trace + more) == Dispatched(trace) + Dispatched(more)
    decreases |more|
  {
    if more == [] {
      assert trace + more == trace;
    } else {
      var last := |more| - 1;
      assert (trace + more)[..|trace| + last] == trace + more[..last];
      DispatchedMore(trace, more[..last]);
    }
  }

  /** What a step adds to the dispatched calls: the call of an execution that goes ahead. */
  lemma DispatchedByStep(s: State, a: Action)
    ensures Dispatched(Emits(s, a)) == if a.Execute? && MayExecute(s, a) then [a.call] else []
  {
    hide MayPrepare, MayGuard, MayExecute, Expected;
    var es := Emits(s, a);
    assert Dispatched([]) == [];
    if |es| == 1 {
      assert es[..0] == [];
    } else if |es| == 2 {
      assert es[..1] == [es[0]] && [es[0]][..0] == [];
      assert Dispatched([es[0]]) == [a.call];
    }
  }

  /** An execution goes ahead only for the newest step. */
  lemma ExecutesNewest(s: State, a: Action, n: int)
    requires Inv(s) && Progress(s, n) && a.Execute? && MayExecute(s, a)
    ensures n < 3 && a.step in s.steps && s.steps[a.step] == n + 1 && s.next == n + 2
    ensures Progress(Next(s, a), n + 1)
  {
    hide Hex32, Expected;
  }

  lemma PreparesAfterAll(s: State, a: Action, n: int)
    requires Inv(s) && Progress(s, n) && a.Prepare? && MayPrepare(s, a)
    ensures n == s.next - 1 && Progress(Next(s, a), n)
  {
    hide Hex32, Expected;
    if s.next > 1 {
      assert Numbered(s, s.next - 1);
    }
  }

  /** The calls dispatched are the script so far, and nothing else. */
  ghost predicate OnScript(s: State, trace: seq<Event>) {
    exists n: int :: Progress(s, n) && Dispatched(trace) == Script(s)[..n]
  }

  lemma OnScriptStep(s: State, a: Action, trace: seq<Event>)
    requires Inv(s) && OnScript(s, trace)
    ensures OnScript(Next(s, a), trace + Emits(s, a))
  {
    hide Inv, MayPrepare, MayExecute, MayGuard, Hex32, Expected;
    var n: int :| Progress(s, n) && Dispatched(trace) == Script(s)[..n];
    DispatchedMore(trace, Emits(s, a));
    DispatchedByStep(s, a);
    var t := Next(s, a);
    if a.Execute? && MayExecute(s, a) {
      ExecutesNewest(s, a, n);
      CallIsNext(s, a, n);
      assert Script(s)[..n] + [a.call] == Script(s)[..n + 1];
      assert Progress(t, n + 1) && Dispatched(trace + Emits(s, a)) == Script(t)[..n + 1];
    } else {
      if a.Prepare? && MayPrepare(s, a) {
        PreparesAfterAll(s, a, n);
      }
      assert Progress(t, n) && Dispatched(trace + Emits(s, a)) == Script(t)[..n];
    }
  }

  lemma CallIsNext(s: State, a: Action, n: int)
    requires Inv(s) && a.Execute? && MayExecute(s, a) && 0 <= n < 3 && a.step in s.steps && s.steps[a.step] == n + 1
    ensures a.call == Script(s)[n]
  {
  }

  lemma FaithfulStep(s: State, a: Action, trace: seq<Event>)
    requires Inv(s) && Faithful(s, trace)
    ensures Faithful(Next(s, a), trace + Emits(s, a))
  {
    hide Hex32, Expected, Inv;
    assert s.decisions.Keys <= s.prepared.Keys by { InvNests(s); }
    var t, all := Next(s, a), trace + Emits(s, a);
    forall e | e in all && e.Decided?
      ensures e.step in t.decisions && t.decisions[e.step] == e.decision && e.step in t.prepared
        && t.prepared[e.step] == e.call
    {
      if e in trace { assert e.step in s.decisions; }
    }
    forall e | e in all && e.Attempted?
      ensures e.step in t.attempted && e.step in t.prepared && t.prepared[e.step] == e.call {
      if e in trace { assert e.step in s.attempted; }
    }
    forall step | step in t.decisions && step in t.prepared
      ensures Decided(step, t.prepared[step], t.decisions[step]) in all {
      if step in s.decisions { assert Decided(step, s.prepared[step], s.decisions[step]) in trace; }
    }
  }

  lemma InvNests(s: State)
    requires Inv(s)
    ensures s.completed <= s.attempted <= s.decisions.Keys <= s.prepared.Keys
  {
  }

  lemma StartIsGood(mode: Mode, variant: Variant, body: string)
    ensures Inv(Start(mode, variant, body)) && Faithful(Start(mode, variant, body), [])
      && OnScript(Start(mode, variant, body), [])
  {
    hide Expected;
    var s := Start(mode, variant, body);
    assert Progress(s, 0) && Dispatched([]) == Script(s)[..0];
  }

  /** Every reachable state and its record. */
  lemma {:induction false} Reachable(mode: Mode, variant: Variant, body: string, actions: seq<Action>)
    ensures var s := Run(Start(mode, variant, body), actions);
      && Inv(s) && s.mode == mode && s.variant == variant && s.body == body
      && Faithful(s, Trace(Start(mode, variant, body), actions))
      && OnScript(s, Trace(Start(mode, variant, body), actions))
    decreases |actions|
  {
    hide Inv, Faithful, OnScript, Emits, MayPrepare, MayGuard, MayExecute;
    if actions == [] {
      StartIsGood(mode, variant, body);
    } else {
      var before, a := actions[..|actions| - 1], actions[|actions| - 1];
      var s := Run(Start(mode, variant, body), before);
      Reachable(mode, variant, body, before);
      InvStep(s, a);
      FaithfulStep(s, a, Trace(Start(mode, variant, body), before));
      OnScriptStep(s, a, Trace(Start(mode, variant, body), before));
    }
  }

  /** In every run the sets are nested, at most one prepared step is incomplete, and the calls
      dispatched so far are the first so many of the three-call script. */
  lemma DispatchOrder(mode: Mode, variant: Variant, body: string, actions: seq<Action>)
    ensures var s := Run(Start(mode, variant, body), actions);
      && s.completed <= s.attempted <= s.decisions.Keys <= s.prepared.Keys
      && (forall a, b | a in s.prepared && b in s.prepared && a !in s.completed && b !in s.completed :: a == b)
    ensures Dispatched(Trace(Start(mode, variant, body), actions)) <= Script(Start(mode, variant, body))
  {
    Reachable(mode, variant, body, actions);
  }

  /** A dispatch is the first for its step, and its exact call has been put before the guard and,
      in enforce mode, allowed. */
  lemma DispatchIsGuarded(mode: Mode, variant: Variant, body: string, actions: seq<Action>, a: Action)
    ensures var s, trace := Run(Start(mode, variant, body), actions), Trace(Start(mode, variant, body), actions);
      forall e | e in Emits(s, a) && e.Attempted? ::
        && (forall c: Call :: Attempted(e.step, c) !in trace)
        && (exists d: Decision :: Decided(e.step, e.call, d) in trace && (mode.Enforce? ==> d.Allow?))
        && (forall c: Call, d: Decision :: Decided(e.step, c, d) in trace ==> c == e.call)
  {
    hide OnScript, Hex32;
    Reachable(mode, variant, body, actions);
    var s, trace := Run(Start(mode, variant, body), actions), Trace(Start(mode, variant, body), actions);
    forall e | e in Emits(s, a) && e.Attempted?
      ensures exists d: Decision :: Decided(e.step, e.call, d) in trace && (mode.Enforce? ==> d.Allow?)
    {
      assert Decided(e.step, e.call, s.decisions[e.step]) in trace;
    }
  }

  /** Some step was denied in enforce mode, or its dispatch was not confirmed. */
  ghost predicate Blocked(s: State) {
    exists step | step in s.steps :: BlockedBy(s, step)
  }

  ghost predicate BlockedBy(s: State, step: string) {
    && step in s.steps && step in s.decisions && step !in s.completed
    && (step in s.attempted || (s.mode.Enforce? && s.decisions[step].Deny?))
  }

  lemma BlockedStays(s: State, a: Action)
    requires Inv(s) && Blocked(s)
    ensures Next(s, a) == s && Emits(s, a) == []
  {
    hide Hex32, Expected, Numbered;
    var step :| step in s.steps && BlockedBy(s, step);
    assert step in s.prepared;
    if a.Guard? && a.step in s.prepared && a.step != step {
      OnlyOneOpen(s, step, a.step);
    }
    if a.Execute? && a.step in s.prepared && a.step != step {
      OnlyOneOpen(s, step, a.step);
    }
  }

  lemma OnlyOneOpen(s: State, step: string, other: string)
    requires Inv(s) && step in s.steps && other in s.steps && step !in s.completed && step != other
    ensures other in s.completed
  {
  }

  /** From then on nothing whatever happens: no later action of any run changes the state. */
  lemma {:induction false} BlockedForever(s: State, actions: seq<Action>)
    requires Inv(s) && Blocked(s)
    ensures Run(s, actions) == s && Trace(s, actions) == []
    decreases |actions|
  {
    if actions != [] {
      BlockedForever(s, actions[..|actions| - 1]);
      BlockedStays(s, actions[|actions| - 1]);
    }
  }

  // ----------------------------------------------------------- which calls, in words

  /** In every run the first call dispatched adds the entry, the second reads it -- its public part in
      the public variant, all of it in the other -- and the third sends the fixed body. */
  lemma DispatchedAre(mode: Mode, variant: Variant, body: string, actions: seq<Action>)
    ensures var d := Dispatched(Trace(Start(mode, variant, body), actions));
      && |d| <= 3
      && (|d| > 0 ==> d[0] == Add)
      && (|d| > 1 && variant == PublicOnly ==> d[1] == Public)
      && (|d| > 1 && variant == IncludePrivate ==> d[1] == Get)
      && (|d| > 2 ==> d[2] == Send(body))
  {
    hide Trace, Run, Dispatched;
    DispatchOrder(mode, variant, body, actions);
  }

  /** What a recorded event says of a call. */
  function CallOf(e: Event): Option<Call> {
    match e
    case Prepared(_, call) => Some(call)
    case Decided(_, call, _) => Some(call)
    case Attempted(_, call) => Some(call)
    case Completed(_) => None
  }

  /** Every event is about a call that was prepared. */
  ghost predicate Records(s: State, trace: seq<Event>) {
    forall e | e in trace && CallOf(e).Some? :: e.step in s.prepared && s.prepared[e.step] == CallOf(e).value
  }

  lemma {:induction false} AllRecorded(mode: Mode, variant: Variant, body: string, actions: seq<Action>)
    ensures var s := Start(mode, variant, body); Records(Run(s, actions), Trace(s, actions))
    decreases |actions|
  {
    hide Hex32, Expected;
    if actions != [] {
      AllRecorded(mode, variant, body, actions[..|actions| - 1]);
    }
  }

  /** In the public variant nothing is ever prepared, put before the guard or dispatched that would
      return the private value. */
  lemma PrivateIsNeverAsked(mode: Mode, body: string, actions: seq<Action>, e: Event)
    requires e in Trace(Start(mode, PublicOnly, body), actions)
    ensures CallOf(e) != Some(Get)
  {
    hide Trace, Run, OnScript, Faithful;
    AllRecorded(mode, PublicOnly, body, actions);
    Reachable(mode, PublicOnly, body, actions);
  }

  // ------------------------------------------------------------------ a full run

  /** The three actions of one step, undisturbed. */
  function Turn(n: int, step: string, call: Call, session: string, fetched: Option<string>, d: Decision): seq<Action> {
    [Prepare(n, step, fetched, true), Guard(call, session, step, Some(d)), Execute(call, step, true)]
  }

  lemma RunAppend(s: State, actions: seq<Action>, a: Action)
    ensures Run(s, actions + [a]) == Next(Run(s, actions), a)
  {
    assert (actions + [a])[..|actions|] == actions;
  }

  /** A step that is due, has a well-formed name, and is not denied where denials count, completes. */
  lemma TurnCompletes(s: State, before: seq<Action>, n: int, step: string, call: Call, session: string,
      fetched: Option<string>, d: Decision)
    requires var u := Run(s, before);
      && u.next == n && 1 <= n <= 3 && step !in u.prepared && step !in u.decisions && step !in u.attempted
      && u.steps.Keys <= u.completed && call == Expected(u.variant, u.body, n)
      && (n == 3 ==> fetched == Some(u.body)) && (u.mode.Enforce? ==> d.Allow?)
    requires Hex32(step) && Hex32(session)
    ensures var u := Run(s, before); var t := Run(s, before + Turn(n, step, call, session, fetched, d));
      && t.next == n + 1 && t.completed == u.completed + {step} && t.steps.Keys == u.steps.Keys + {step}
      && t.prepared.Keys == u.prepared.Keys + {step} && t.decisions.Keys == u.decisions.Keys + {step}
      && t.attempted == u.attempted + {step}
      && t.mode == u.mode && t.variant == u.variant && t.body == u.body
  {
    hide Run, Hex32, Expected;
    var turn := Turn(n, step, call, session, fetched, d);
    RunAppend(s, before, turn[0]);
    RunAppend(s, before + [turn[0]], turn[1]);
    RunAppend(s, before + [turn[0]] + [turn[1]], turn[2]);
    assert before + [turn[0]] + [turn[1]] + [turn[2]] == before + turn;
  }

  /** A run of three well-formed steps whose guard is satisfied, or only observes, completes all three. */
  lemma FullRun(mode: Mode, variant: Variant, body: string, x: string, y: string, z: string, session: string,
      a: Decision, b: Decision, c: Decision)
    requires Hex32(x) && Hex32(y) && Hex32(z) && Hex32(session) && x != y && y != z && x != z
    requires mode.Enforce? ==> a.Allow? && b.Allow? && c.Allow?
    ensures var read := if variant.PublicOnly? then Public else Get;
      var actions := Turn(1, x, Add, session, None, a) + Turn(2, y, read, session, None, b)
        + Turn(3, z, Send(body), session, Some(body), c);
      Run(Start(mode, variant, body), actions).completed == {x, y, z}
  {
    hide Run, Hex32, Turn;
    var s := Start(mode, variant, body);
    var read := if variant.PublicOnly? then Public else Get;
    var first, second, third := Turn(1, x, Add, session, None, a), Turn(2, y, read, session, None, b),
      Turn(3, z, Send(body), session, Some(body), c);
    assert Run(s, []) == s by { NoRun(s); }
    TurnCompletes(s, [], 1, x, Add, session, None, a);
    assert [] + first == first;
    TurnCompletes(s, first, 2, y, read, session, None, b);
    TurnCompletes(s, first + second, 3, z, Send(body), session, Some(body), c);
    assert Run(s, first + second + third).completed == {} + {x} + {y} + {z};
  }

  lemma NoRun(s: State)
    ensures Run(s, []) == s
  {
  }
}
