/** The prefix a runtime structure is turned into: every recorded read or copy makes a new object
    derived from the current object of its source path. */
module Lineage {
  import opened Wrappers

  datatype Operation = Read | Copy | Unsupported

  /** An empty string stands for a missing or empty path. */
  datatype Row = Row(operation: Operation, source: string, target: string)

  datatype Structure = Structure(schema: int, protectedPaths: seq<string>, rows: seq<Row>)

  /** Object ids: lexical paths, and digests of output numbers, which are no paths. */
  datatype Id = Path(path: string) | Output(number: nat)

  datatype Kind = Source | File | Bytes

  datatype Object = Object(id: Id, kind: Kind, observedAt: nat)

  datatype Step = Step(sequence: nat, operation: Operation, inputs: seq<Id>, outputs: seq<Id>)

  datatype Prefix = Prefix(last: nat, steps: seq<Step>, objects: seq<Object>, protectedSources: seq<string>)

  const MAX_ROWS: nat := 90
  const MAX_STEPS: nat := 100
  const MAX_OBJECTS: nat := 256

  predicate Distinct<T(==)>(xs: seq<T>) {
    forall i, j | 0 <= i < j < |xs| :: xs[i] != xs[j]
  }

  predicate DistinctIds(objects: seq<Object>) {
    forall i, j | 0 <= i < j < |objects| :: objects[i].id != objects[j].id
  }

  /** The id belongs to an object first observed before the bound. */
  predicate Seen(objects: seq<Object>, id: Id, bound: nat) {
    exists o | o in objects :: o.id == id && o.observedAt < bound
  }

  predicate Introduced(objects: seq<Object>, id: Id, at: nat) {
    exists o | o in objects :: o.id == id && o.observedAt == at
  }

  predicate IsSource(objects: seq<Object>, id: Id) {
    exists o | o in objects :: o.id == id && o.kind == Source
  }

  predicate IsOutput(steps: seq<Step>, id: Id) {
    exists step | step in steps :: id in step.outputs
  }

  /** What the constructor of a prefix demands: numbered steps, unique ids, protected sources that
      are source objects, inputs visible strictly before their step, outputs introduced by exactly
      one step, and no other object observed after the start. */
  predicate Valid(p: Prefix) {
    && p.last <= MAX_STEPS && |p.objects| <= MAX_OBJECTS
    && |p.steps| == p.last && (forall k | 0 <= k < |p.steps| :: p.steps[k].sequence == k + 1)
    && DistinctIds(p.objects)
    && (forall o | o in p.objects :: o.observedAt <= p.last)
    && Distinct(p.protectedSources)
    && (forall q | q in p.protectedSources :: IsSource(p.objects, Path(q)))
    && (forall k, x | 0 <= k < |p.steps| && x in p.steps[k].inputs :: Seen(p.objects, x, k + 1))
    && (forall k, x | 0 <= k < |p.steps| && x in p.steps[k].outputs :: Introduced(p.objects, x, k + 1))
    && (forall k, l, x | 0 <= k < l < |p.steps| && x in p.steps[k].outputs :: x !in p.steps[l].outputs)
    && (forall o | o in p.objects && o.observedAt > 0 :: IsOutput(p.steps, o.id))
  }

  /** The state of the builder. */
  datatype Build = Build(objects: seq<Object>, steps: seq<Step>, current: map<string, Id>)

  function Initial(protectedPaths: seq<string>): Build {
    Build(seq(|protectedPaths|, i requires 0 <= i < |protectedPaths| => Object(Path(protectedPaths[i]), Source, 0)),
          [], map p | p in protectedPaths :: Path(p))
  }

  /** A path without an object gets one of its own. */
  function Register(b: Build, path: string): Build {
    if path in b.current then b
    else b.(objects := b.objects + [Object(Path(path), File, 0)], current := b.current[path := Path(path)])
  }

  function Append(b: Build, row: Row): Build
    requires row.source in b.current
  {
    var n := |b.steps| + 1;
    Build(b.objects + [Object(Output(n), if row.operation.Copy? then File else Bytes, n)],
          b.steps + [Step(n, row.operation, [b.current[row.source]], [Output(n)])],
          if row.operation.Copy? then b.current[row.target := Output(n)] else b.current)
  }

  function Built(protectedPaths: seq<string>, rows: seq<Row>): Build
    decreases |rows|
  {
    if rows == [] then Initial(protectedPaths)
    else Append(Register(Built(protectedPaths, rows[..|rows| - 1]), rows[|rows| - 1].source), rows[|rows| - 1])
  }

  predicate Usable(row: Row) {
    row.operation != Unsupported && row.source != "" && (row.operation.Copy? ==> row.target != "")
  }

  /** The paths that are protected or have been read or written. */
  function Known(protectedPaths: seq<string>, rows: seq<Row>): set<string>
    decreases |rows|
  {
    if rows == [] then set p | p in protectedPaths
    else
      var row := rows[|rows| - 1];
      Known(protectedPaths, rows[..|rows| - 1]) + {row.source} + if row.operation.Copy? then {row.target} else {}
  }

  /** The paths read or copied before anything is known of them: each becomes a file object. */
  function FirstUses(protectedPaths: seq<string>, rows: seq<Row>): seq<string>
    decreases |rows|
  {
    if rows == [] then []
    else
      var before, path := rows[..|rows| - 1], rows[|rows| - 1].source;
      FirstUses(protectedPaths, before) + if path in Known(protectedPaths, before) then [] else [path]
  }

  /** Exactly the structures a prefix is built from. */
  predicate Supported(s: Structure, identifier: string -> bool) {
    var uses := FirstUses(s.protectedPaths, s.rows);
    && s.schema == 1 && |s.rows| <= MAX_ROWS
    && (forall k | 0 <= k < |s.rows| :: Usable(s.rows[k]))
    && Distinct(s.protectedPaths)
    && (forall p | p in s.protectedPaths + uses :: identifier(p))
    && |s.protectedPaths| + |uses| + |s.rows| <= MAX_OBJECTS
  }

  function Whole(s: Structure): Prefix {
    var b := Built(s.protectedPaths, s.rows);
    Prefix(|b.steps|, b.steps, b.objects, s.protectedPaths)
  }

  /** Every object is a protected path, a first use or the output of a row, in that many. */
  lemma {:induction false} BuiltShape(ps: seq<string>, rows: seq<Row>)
    ensures var b := Built(ps, rows);
      && b.current.Keys == Known(ps, rows) && |b.steps| == |rows|
      && |b.objects| == |ps| + |FirstUses(ps, rows)| + |rows|
    decreases |rows|
  {
    if rows != [] {
      BuiltShape(ps, rows[..|rows| - 1]);
    }
  }

  /** A row's output is named by a number, not by a path. */
  lemma AppendHolds(a: Build, row: Row)
    requires row.source in a.current
    ensures forall x: string ::
      (exists o | o in Append(a, row).objects :: o.id == Path(x)) <==> (exists o | o in a.objects :: o.id == Path(x))
  {
    var b := Append(a, row);
    forall x: string, o | o in b.objects && o.id == Path(x) ensures o in a.objects {
    }
    assert forall o | o in a.objects :: o in b.objects;
  }

  lemma {:induction false} BuiltPaths(ps: seq<string>, rows: seq<Row>)
    ensures forall x: string :: x in ps + FirstUses(ps, rows) <==>
      exists o | o in Built(ps, rows).objects :: o.id == Path(x)
    decreases |rows|
  {
    var b := Built(ps, rows);
    if rows == [] {
      forall x: string | x in ps ensures exists o | o in b.objects :: o.id == Path(x) {
        var i :| 0 <= i < |ps| && ps[i] == x;
        assert b.objects[i].id == Path(x);
      }
    } else {
      var before, row := rows[..|rows| - 1], rows[|rows| - 1];
      BuiltPaths(ps, before);
      BuiltShape(ps, before);
      var a := Register(Built(ps, before), row.source);
      AppendHolds(a, row);
      if row.source !in Known(ps, before) {
        assert a.objects[|a.objects| - 1] in a.objects;
      }
    }
  }

  /** How objects hang together after n rows. */
  ghost predicate GoodObjects(ps: seq<string>, objects: seq<Object>, known: set<string>, n: nat) {
    && (forall q | q in ps :: Object(Path(q), Source, 0) in objects)
    && (forall o | o in objects ::
          if o.id.Path? then o.observedAt == 0 && o.id.path in known else 1 <= o.observedAt == o.id.number <= n)
    && (forall k | 1 <= k <= n :: Introduced(objects, Output(k), k))
  }

  ghost predicate GoodSteps(b: Build) {
    && (forall k | 0 <= k < |b.steps| ::
          b.steps[k].sequence == k + 1 && |b.steps[k].inputs| == 1 && b.steps[k].outputs == [Output(k + 1)])
    && (forall k | 0 <= k < |b.steps| :: Seen(b.objects, b.steps[k].inputs[0], k + 1))
    && (forall p | p in b.current :: Seen(b.objects, b.current[p], |b.steps| + 1))
  }

  lemma MoreIsSeen(objects: seq<Object>, o: Object)
    ensures forall x: Id, bound: nat :: Seen(objects, x, bound) ==>
      Seen(objects + [o], x, bound) && Seen(objects + [o], x, bound + 1)
    ensures forall x: Id, at: nat :: Introduced(objects, x, at) ==> Introduced(objects + [o], x, at)
    ensures Seen(objects + [o], o.id, o.observedAt + 1) && Introduced(objects + [o], o.id, o.observedAt)
  {
    assert o in objects + [o];
  }

  lemma RegisterIsGood(ps: seq<string>, b: Build, path: string)
    requires GoodObjects(ps, b.objects, b.current.Keys, |b.steps|) && GoodSteps(b)
      && (Distinct(ps) ==> DistinctIds(b.objects))
    ensures var c := Register(b, path);
      GoodObjects(ps, c.objects, c.current.Keys, |c.steps|) && GoodSteps(c) && (Distinct(ps) ==> DistinctIds(c.objects))
  {
    if path !in b.current {
      hide Seen, Introduced;
      MoreIsSeen(b.objects, Object(Path(path), File, 0));
      var c := Register(b, path);
      assert Seen(c.objects, Path(path), 1);
      SeenLater(c.objects, Path(path), 1, |c.steps| + 1);
    }
  }

  lemma SeenLater(objects: seq<Object>, id: Id, early: nat, late: nat)
    requires Seen(objects, id, early) && early <= late
    ensures Seen(objects, id, late)
  {
  }

  lemma AppendIsGood(ps: seq<string>, b: Build, row: Row)
    requires GoodObjects(ps, b.objects, b.current.Keys, |b.steps|) && GoodSteps(b)
      && (Distinct(ps) ==> DistinctIds(b.objects))
    requires row.source in b.current
    ensures var c := Append(b, row);
      GoodObjects(ps, c.objects, c.current.Keys, |c.steps|) && GoodSteps(c) && (Distinct(ps) ==> DistinctIds(c.objects))
  {
    hide Seen, Introduced;
    var n := |b.steps| + 1;
    MoreIsSeen(b.objects, Object(Output(n), if row.operation.Copy? then File else Bytes, n));
    assert Seen(b.objects, b.current[row.source], n);
  }

  lemma {:induction false} BuiltIsGood(ps: seq<string>, rows: seq<Row>)
    ensures var b := Built(ps, rows);
      && GoodObjects(ps, b.objects, b.current.Keys, |b.steps|) && GoodSteps(b)
      && (Distinct(ps) ==> DistinctIds(b.objects))
    decreases |rows|
  {
    if rows == [] {
      var b := Initial(ps);
      forall q | q in ps ensures Object(Path(q), Source, 0) in b.objects {
        var i :| 0 <= i < |ps| && ps[i] == q;
        assert b.objects[i] == Object(Path(q), Source, 0);
      }
    } else {
      hide Register, Append, GoodObjects, GoodSteps, DistinctIds;
      var before, row := rows[..|rows| - 1], rows[|rows| - 1];
      BuiltIsGood(ps, before);
      RegisterIsGood(ps, Built(ps, before), row.source);
      AppendIsGood(ps, Register(Built(ps, before), row.source), row);
    }
  }

  /** Within the limits, the constructor accepts what the builder makes exactly when no path is
      protected twice: ids are unique, inputs exist strictly before their step and every later
      object is the output of one step. */
  lemma WholeIsValid(s: Structure)
    requires |s.rows| <= MAX_ROWS
    ensures Valid(Whole(s)) <==> Distinct(s.protectedPaths) && |Built(s.protectedPaths, s.rows).objects| <= MAX_OBJECTS
  {
    BuiltShape(s.protectedPaths, s.rows);
    BuiltIsGood(s.protectedPaths, s.rows);
    GoodIsValid(s.protectedPaths, Built(s.protectedPaths, s.rows));
  }

  lemma GoodIsValid(ps: seq<string>, b: Build)
    requires GoodObjects(ps, b.objects, b.current.Keys, |b.steps|) && GoodSteps(b) && |b.steps| <= MAX_STEPS
    requires Distinct(ps) ==> DistinctIds(b.objects)
    ensures Valid(Prefix(|b.steps|, b.steps, b.objects, ps)) <==> Distinct(ps) && |b.objects| <= MAX_OBJECTS
  {
    hide Seen, Introduced;
    forall q | q in ps ensures IsSource(b.objects, Path(q)) {
      assert Object(Path(q), Source, 0) in b.objects;
    }
    forall o | o in b.objects && o.observedAt > 0 ensures IsOutput(b.steps, o.id) {
      assert b.steps[o.observedAt - 1] in b.steps;
      assert b.steps[o.observedAt - 1].outputs == [o.id];
    }
  }

  predicate AllIdentifiers(objects: seq<Object>, identifier: string -> bool) {
    forall o | o in objects :: o.id.Path? ==> identifier(o.id.path)
  }

  lemma SupportedExactly(s: Structure, identifier: string -> bool)
    ensures Supported(s, identifier) <==>
      && s.schema == 1 && |s.rows| <= MAX_ROWS
      && (forall k | 0 <= k < |s.rows| :: Usable(s.rows[k]))
      && AllIdentifiers(Built(s.protectedPaths, s.rows).objects, identifier)
      && Valid(Whole(s))
  {
    hide Valid, Usable;
    var ps, uses, b := s.protectedPaths, FirstUses(s.protectedPaths, s.rows), Built(s.protectedPaths, s.rows);
    BuiltShape(ps, s.rows);
    BuiltPaths(ps, s.rows);
    if |s.rows| <= MAX_ROWS {
      WholeIsValid(s);
    }
    if AllIdentifiers(b.objects, identifier) {
      forall p | p in ps + uses ensures identifier(p) {
        var o :| o in b.objects && o.id == Path(p);
      }
    }
    if forall p | p in ps + uses :: identifier(p) {
      forall o | o in b.objects && o.id.Path? ensures identifier(o.id.path) {
        assert o.id.path in ps + uses;
      }
    }
  }

  lemma BuiltFirst(ps: seq<string>, rows: seq<Row>)
    ensures Built(ps, rows[..0]) == Initial(ps) && Initial(ps).steps == []
  {
  }

  lemma BuiltNext(ps: seq<string>, rows: seq<Row>, index: nat)
    requires index < |rows|
    ensures Built(ps, rows[..index + 1]) == Append(Register(Built(ps, rows[..index]), rows[index].source), rows[index])
    ensures |Built(ps, rows[..index + 1]).steps| == |Built(ps, rows[..index]).steps| + 1
  {
    assert rows[..index + 1][..index] == rows[..index];
  }

  /** The loop of the builder, then the checks of the constructors. */
  method PrefixFromStructure(s: Structure, identifier: string -> bool) returns (r: Option<Prefix>)
    ensures r.Some? <==> Supported(s, identifier)
    ensures r.Some? ==> r.value == Whole(s)
  {
    hide Valid, Supported, Built, Initial, AllIdentifiers;
    SupportedExactly(s, identifier);
    BuiltFirst(s.protectedPaths, s.rows);
    if s.schema != 1 || |s.rows| > MAX_ROWS {
      return None;
    }
    var b := Initial(s.protectedPaths);
    var index := 0;
    while index < |s.rows|
      invariant index <= |s.rows|
      invariant b == Built(s.protectedPaths, s.rows[..index]) && |b.steps| == index
      invariant forall k | 0 <= k < index :: Usable(s.rows[k])
    {
      var row := s.rows[index];
      if row.operation == Unsupported || row.source == "" {
        return None;
      }
      var objects, current := b.objects, b.current;
      if row.source !in current {
        objects := objects + [Object(Path(row.source), File, 0)];
        current := current[row.source := Path(row.source)];
      }
      if row.operation.Copy? && row.target == "" {
        return None;
      }
      var output := Output(index + 1);
      objects := objects + [Object(output, if row.operation.Copy? then File else Bytes, index + 1)];
      var steps := b.steps + [Step(index + 1, row.operation, [current[row.source]], [output])];
      if row.operation.Copy? {
        current := current[row.target := output];
      }
      BuiltNext(s.protectedPaths, s.rows, index);
      b := Build(objects, steps, current);
      index := index + 1;
    }
    assert s.rows[..index] == s.rows;
    if !AllIdentifiers(b.objects, identifier) {
      return None;
    }
    var p := Prefix(|b.steps|, b.steps, b.objects, s.protectedPaths);
    if !Valid(p) {
      return None;
    }
    return Some(p);
  }

  /** What kind of object an id stands for: the protected paths are the sources, other paths plain files,
      the output of a copy a file and of a read bytes. Paths are there from the start, an output from
      its row on. */
  ghost predicate IsOfKind(ps: seq<string>, rows: seq<Row>, o: Object) {
    match o.id
    case Path(x) => o.observedAt == 0 && o.kind == if x in ps then Source else File
    case Output(n) =>
      1 <= n <= |rows| && o.observedAt == n && o.kind == if rows[n - 1].operation.Copy? then File else Bytes
  }

  /** Row k makes step k + 1: its own operation, from one object to the output of that number. */
  ghost predicate IsStepOf(rows: seq<Row>, k: nat, step: Step)
    requires k < |rows|
  {
    step.sequence == k + 1 && step.operation == rows[k].operation && |step.inputs| == 1
      && step.outputs == [Output(k + 1)]
  }

  /** Every object is of the kind its path or row makes it, and every step is its row's. */
  lemma {:induction false} BuiltKinds(ps: seq<string>, rows: seq<Row>)
    ensures var b := Built(ps, rows);
      && (forall o | o in b.objects :: IsOfKind(ps, rows, o))
      && |b.steps| == |rows| && (forall k | 0 <= k < |rows| :: IsStepOf(rows, k, b.steps[k]))
      && (forall p | p in ps :: p in b.current)
    decreases |rows|
  {
    if rows != [] {
      var before, row := rows[..|rows| - 1], rows[|rows| - 1];
      BuiltKinds(ps, before);
      var b := Built(ps, before);
      forall o | o in b.objects ensures IsOfKind(ps, rows, o) {
        assert IsOfKind(ps, before, o);
      }
      forall k | 0 <= k < |before| ensures IsStepOf(rows, k, b.steps[k]) {
        assert IsStepOf(before, k, b.steps[k]);
      }
    }
  }

  // Where contents come from.

  /** Plain path-copy semantics: for each path written so far, the path whose content it holds. */
  function Origins(rows: seq<Row>): map<string, string> {
    if rows == [] then map[]
    else
      var before, row := Origins(rows[..|rows| - 1]), rows[|rows| - 1];
      if row.operation.Copy? then before[row.target := OriginOf(before, row.source)] else before
  }

  /** A path nothing was copied to holds its own content. */
  function OriginOf(origins: map<string, string>, path: string): string {
    if path in origins then origins[path] else path
  }

  /** Some step made y from x. */
  ghost predicate Derives(steps: seq<Step>, x: Id, y: Id) {
    exists step | step in steps :: x in step.inputs && y in step.outputs
  }

  ghost predicate Derivation(steps: seq<Step>, p: seq<Id>) {
    p != [] && forall k | 0 <= k < |p| - 1 :: Derives(steps, p[k], p[k + 1])
  }

  /** y was made from x in any number of steps. */
  ghost predicate Flows(steps: seq<Step>, x: Id, y: Id) {
    exists p: seq<Id> :: Derivation(steps, p) && p[0] == x && p[|p| - 1] == y
  }

  /** The object holds the content of the path q, and of no other. */
  ghost predicate HoldsOnly(steps: seq<Step>, id: Id, q: string) {
    forall r: string :: Flows(steps, Path(r), id) <==> r == q
  }

  /** A step whose output nothing has used or made yet. */
  ghost predicate IsNew(steps: seq<Step>, input: Id, output: Id) {
    && input != output
    && forall step | step in steps :: output !in step.inputs && output !in step.outputs
  }

  lemma DerivesEarlier(steps: seq<Step>, added: Step, input: Id, output: Id, x: Id, y: Id)
    requires added.inputs == [input] && added.outputs == [output] && IsNew(steps, input, output)
    ensures Derives(steps + [added], x, y) <==> Derives(steps, x, y) || (x == input && y == output)
    ensures Derives(steps + [added], x, y) ==> x != output && (y == output ==> x == input)
  {
    assert added in steps + [added];
  }

  lemma FlowsStillTo(steps: seq<Step>, added: Step, x: Id, y: Id)
    requires Flows(steps, x, y)
    ensures Flows(steps + [added], x, y)
  {
    var p: seq<Id> :| Derivation(steps, p) && p[0] == x && p[|p| - 1] == y;
    forall k | 0 <= k < |p| - 1 ensures Derives(steps + [added], p[k], p[k + 1]) {
      assert Derives(steps, p[k], p[k + 1]);
      var step :| step in steps && p[k] in step.inputs && p[k + 1] in step.outputs;
      assert step in steps + [added];
    }
    assert Derivation(steps + [added], p);
  }

  /** Objects made before are unaffected. */
  lemma FlowsToOld(steps: seq<Step>, added: Step, input: Id, output: Id, x: Id, y: Id)
    requires added.inputs == [input] && added.outputs == [output] && IsNew(steps, input, output)
    requires Flows(steps + [added], x, y) && y != output
    ensures Flows(steps, x, y)
  {
    var p: seq<Id> :| Derivation(steps + [added], p) && p[0] == x && p[|p| - 1] == y;
    forall k | 0 <= k < |p| - 1 ensures Derives(steps, p[k], p[k + 1]) {
      assert Derives(steps + [added], p[k], p[k + 1]);
      DerivesEarlier(steps, added, input, output, p[k], p[k + 1]);
      if k + 1 < |p| - 1 {
        assert Derives(steps + [added], p[k + 1], p[k + 2]);
        DerivesEarlier(steps, added, input, output, p[k + 1], p[k + 2]);
      }
    }
    assert Derivation(steps, p);
  }

  /** The new object holds what its input held. */
  lemma FlowsToNew(steps: seq<Step>, added: Step, input: Id, output: Id, x: Id)
    requires added.inputs == [input] && added.outputs == [output] && IsNew(steps, input, output) && x != output
    ensures Flows(steps + [added], x, output) <==> Flows(steps, x, input)
  {
    var all := steps + [added];
    if Flows(all, x, output) {
      var p: seq<Id> :| Derivation(all, p) && p[0] == x && p[|p| - 1] == output;
      var k := |p| - 2;
      assert Derives(all, p[k], p[k + 1]);
      DerivesEarlier(steps, added, input, output, p[k], p[k + 1]);
      var q := p[..k + 1];
      assert forall i | 0 <= i < |q| - 1 :: Derives(all, q[i], q[i + 1]) <== Derives(all, p[i], p[i + 1]);
      assert Derivation(all, q);
      FlowsToOld(steps, added, input, output, x, input);
    }
    if Flows(steps, x, input) {
      FlowsStillTo(steps, added, x, input);
      var p: seq<Id> :| Derivation(all, p) && p[0] == x && p[|p| - 1] == input;
      var q := p + [output];
      DerivesEarlier(steps, added, input, output, input, output);
      forall i | 0 <= i < |q| - 1 ensures Derives(all, q[i], q[i + 1]) {
        assert q[i] == p[i];
        if i < |p| - 1 { assert Derives(all, p[i], p[i + 1]); }
      }
      assert Derivation(all, q);
    }
  }

  lemma LastIsDerived(steps: seq<Step>, p: seq<Id>, y: Id)
    requires Derivation(steps, p) && p[|p| - 1] == y
    ensures p == [y] || exists x: Id :: Derives(steps, x, y)
  {
    if |p| > 1 {
      assert Derives(steps, p[|p| - 2], p[|p| - 2 + 1]);
    }
  }

  lemma OnlyOutputsAreDerived(b: Build)
    requires GoodSteps(b)
    ensures forall x: Id, y: Id :: Derives(b.steps, x, y) ==> y.Output?
  {
    forall x: Id, y: Id | Derives(b.steps, x, y) ensures y.Output? {
      var step :| step in b.steps && x in step.inputs && y in step.outputs;
      var i :| 0 <= i < |b.steps| && b.steps[i] == step;
      assert y == Output(i + 1);
    }
  }

  /** Nothing is ever made into a path. */
  lemma PathHoldsItself(b: Build, path: string)
    requires GoodSteps(b)
    ensures HoldsOnly(b.steps, Path(path), path)
  {
    forall r: string ensures Flows(b.steps, Path(r), Path(path)) <==> r == path {
      if Flows(b.steps, Path(r), Path(path)) {
        var p: seq<Id> :| Derivation(b.steps, p) && p[0] == Path(r) && p[|p| - 1] == Path(path);
        LastIsDerived(b.steps, p, Path(path));
        OnlyOutputsAreDerived(b);
      }
      if r == path {
        assert Derivation(b.steps, [Path(path)]);
      }
    }
  }

  /** The next output is new: inputs and outputs so far have lower numbers. */
  lemma NextIsNew(ps: seq<string>, b: Build, input: Id)
    requires GoodObjects(ps, b.objects, b.current.Keys, |b.steps|) && GoodSteps(b)
      && Seen(b.objects, input, |b.steps| + 1)
    ensures IsNew(b.steps, input, Output(|b.steps| + 1))
  {
    hide Introduced;
    var next := Output(|b.steps| + 1);
    assert !Seen(b.objects, next, |b.steps| + 1);
    forall step | step in b.steps ensures next !in step.inputs && next !in step.outputs {
      var k :| 0 <= k < |b.steps| && b.steps[k] == step;
      assert Seen(b.objects, step.inputs[0], k + 1);
      SeenLater(b.objects, step.inputs[0], k + 1, |b.steps| + 1);
      assert step.inputs == [step.inputs[0]];
    }
  }

  /** Each current object holds exactly the content path-copy semantics gives its path. */
  ghost predicate Simulates(b: Build, origins: map<string, string>) {
    && origins.Keys <= b.current.Keys
    && forall p | p in b.current :: HoldsOnly(b.steps, b.current[p], OriginOf(origins, p))
  }

  lemma RegisterSimulates(b: Build, origins: map<string, string>, path: string)
    requires GoodSteps(b) && Simulates(b, origins)
    ensures Simulates(Register(b, path), origins)
  {
    hide HoldsOnly, GoodSteps;
    if path !in b.current {
      PathHoldsItself(b, path);
    }
  }

  lemma AppendSimulates(ps: seq<string>, b: Build, origins: map<string, string>, row: Row)
    requires GoodObjects(ps, b.objects, b.current.Keys, |b.steps|) && GoodSteps(b) && Simulates(b, origins)
    requires row.source in b.current
    ensures var c := Append(b, row);
      && HoldsOnly(c.steps, Output(|c.steps|), OriginOf(origins, row.source))
      && Simulates(c, if row.operation.Copy? then origins[row.target := OriginOf(origins, row.source)] else origins)
  {
    hide Flows, GoodObjects;
    var c := Append(b, row);
    var n := |b.steps| + 1;
    var input, output, added := b.current[row.source], Output(n), c.steps[n - 1];
    assert Seen(b.objects, input, n);
    NextIsNew(ps, b, input);
    forall r: string ensures Flows(c.steps, Path(r), output) <==> r == OriginOf(origins, row.source) {
      FlowsToNew(b.steps, added, input, output, Path(r));
    }
    forall p | p in b.current ensures HoldsOnly(c.steps, b.current[p], OriginOf(origins, p)) {
      assert Seen(b.objects, b.current[p], n);
      CurrentIsOld(ps, b, p);
      forall r: string ensures Flows(c.steps, Path(r), b.current[p]) <==> r == OriginOf(origins, p) {
        if Flows(c.steps, Path(r), b.current[p]) {
          FlowsToOld(b.steps, added, input, output, Path(r), b.current[p]);
        }
        if Flows(b.steps, Path(r), b.current[p]) {
          FlowsStillTo(b.steps, added, Path(r), b.current[p]);
        }
      }
    }
  }

  lemma CurrentIsOld(ps: seq<string>, b: Build, p: string)
    requires GoodObjects(ps, b.objects, b.current.Keys, |b.steps|) && p in b.current
      && Seen(b.objects, b.current[p], |b.steps| + 1)
    ensures b.current[p] != Output(|b.steps| + 1)
  {
  }

  /** The builder simulates path-copy semantics: after any rows, the content of path q flows into
      the current object of a path exactly when that path holds q's content. */
  lemma {:induction false} BuiltSimulates(ps: seq<string>, rows: seq<Row>)
    ensures Simulates(Built(ps, rows), Origins(rows))
    decreases |rows|
  {
    BuiltIsGood(ps, []);
    if rows == [] {
      forall p | p in Initial(ps).current ensures HoldsOnly([], Path(p), p) {
        PathHoldsItself(Initial(ps), p);
      }
    } else {
      hide Append, Register, GoodObjects, GoodSteps, Simulates, DistinctIds, HoldsOnly;
      var before, row := rows[..|rows| - 1], rows[|rows| - 1];
      var b := Built(ps, before);
      BuiltSimulates(ps, before);
      BuiltIsGood(ps, before);
      RegisterSimulates(b, Origins(before), row.source);
      RegisterIsGood(ps, b, row.source);
      AppendSimulates(ps, Register(b, row.source), Origins(before), row);
    }
  }

  /** So protected content is in an object exactly when the semantics says so. */
  lemma ProtectedContent(ps: seq<string>, rows: seq<Row>, path: string, q: string)
    requires path in Built(ps, rows).current
    ensures Flows(Built(ps, rows).steps, Path(q), Built(ps, rows).current[path]) <==> OriginOf(Origins(rows), path) == q
  {
    BuiltSimulates(ps, rows);
  }

  /** The output of a row, read or copy, holds what its source held when the row ran; later rows
      do not change that. */
  lemma {:induction false} OutputContent(ps: seq<string>, rows: seq<Row>, k: nat)
    requires k < |rows|
    ensures HoldsOnly(Built(ps, rows).steps, Output(k + 1), OriginOf(Origins(rows[..k]), rows[k].source))
    decreases |rows|
  {
    hide Append, GoodObjects, GoodSteps, Simulates, DistinctIds, Seen;
    var last := |rows| - 1;
    var before, row := rows[..last], rows[last];
    var b := Built(ps, before);
    BuiltShape(ps, before);
    BuiltIsGood(ps, before);
    RegisterIsGood(ps, b, row.source);
    if k == last {
      BuiltSimulates(ps, before);
      RegisterSimulates(b, Origins(before), row.source);
      AppendSimulates(ps, Register(b, row.source), Origins(before), row);
      BuiltShape(ps, rows);
    } else {
      OutputContent(ps, before, k);
      assert before[..k] == rows[..k] && before[k] == rows[k];
      OutputStays(ps, Register(b, row.source), row, k, OriginOf(Origins(rows[..k]), rows[k].source));
    }
  }

  lemma OutputStays(ps: seq<string>, b: Build, row: Row, k: nat, q: string)
    requires GoodObjects(ps, b.objects, b.current.Keys, |b.steps|) && GoodSteps(b) && row.source in b.current
    requires k < |b.steps| && HoldsOnly(b.steps, Output(k + 1), q)
    ensures HoldsOnly(Append(b, row).steps, Output(k + 1), q)
  {
    hide Flows, GoodObjects;
    var n := |b.steps| + 1;
    var input, output, added := b.current[row.source], Output(n), Append(b, row).steps[n - 1];
    assert Seen(b.objects, input, n);
    NextIsNew(ps, b, input);
    forall r: string ensures Flows(b.steps + [added], Path(r), Output(k + 1)) <==> r == q {
      if Flows(b.steps + [added], Path(r), Output(k + 1)) {
        FlowsToOld(b.steps, added, input, output, Path(r), Output(k + 1));
      }
      if Flows(b.steps, Path(r), Output(k + 1)) {
        FlowsStillTo(b.steps, added, Path(r), Output(k + 1));
      }
    }
  }
}
