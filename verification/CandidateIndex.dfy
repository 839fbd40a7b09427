/** The incremental index of recorded calls, and the selection of earlier calls for a new one. */
module CandidateIndex {
  import opened Wrappers

  type Node = nat
  type Term = nat
  type Scope = nat
  type RowId = nat

  const RECENT: nat := 5
  const RETRIEVED: nat := 8

  /** A recorded call. Its terms are those the extractor finds in it, whatever else it holds. */
  datatype Call = Call(node: Node, event: nat, completed: bool, input: nat, output: nat, terms: set<Term>)

  /** The digest of the three values, taken as injective. */
  datatype Fingerprint = Fingerprint(input: nat, output: nat, terms: set<Term>)

  function Print(c: Call): Fingerprint { Fingerprint(c.input, c.output, c.terms) }

  datatype Document = Document(id: RowId, fingerprint: Fingerprint, position: nat)

  datatype Key = Key(scope: Scope, node: Node)

  datatype Row = Row(terms: set<Term>, scope: Scope, node: Node, position: nat)

  /** Both tables; `last` is the greatest row id given out. */
  datatype Tables = Tables(documents: map<Key, Document>, search: map<RowId, Row>, last: RowId)
  {
    /** Every document has its own search row, with the terms it was fingerprinted with, and there
        are no other search rows. */
    ghost predicate Consistent() {
      && (forall k | k in documents :: documents[k].id <= last && documents[k].id in search)
      && (forall k | k in documents ::
        search[documents[k].id] == Row(documents[k].fingerprint.terms, k.scope, k.node, documents[k].position))
      && (forall j, k | j in documents && k in documents && documents[j].id == documents[k].id :: j == k)
      && (forall r | r in search ::
        Key(search[r].scope, search[r].node) in documents && documents[Key(search[r].scope, search[r].node)].id == r)
    }
  }

  /** What the update makes of one call. */
  function Indexed(t: Tables, scope: Scope, position: nat, c: Call): Tables {
    if !c.completed then t
    else
      var key := Key(scope, c.node);
      var id := if key in t.documents then t.documents[key].id else t.last + 1;
      Tables(t.documents[key := Document(id, Print(c), position)],
             t.search[id := Row(c.terms, scope, c.node, position)],
             if key in t.documents then t.last else t.last + 1)
  }

  function AllIndexed(t: Tables, scope: Scope, calls: seq<Call>): Tables {
    if calls == [] then t
    else Indexed(AllIndexed(t, scope, calls[..|calls| - 1]), scope, |calls| - 1, calls[|calls| - 1])
  }

  /** In how many completed calls the term occurs. */
  function Frequency(calls: seq<Call>, t: Term): nat {
    if calls == [] then 0
    else
      var c := calls[|calls| - 1];
      Frequency(calls[..|calls| - 1], t) + if c.completed && t in c.terms then 1 else 0
  }

  lemma IndexedKeeps(t: Tables, scope: Scope, position: nat, c: Call)
    requires t.Consistent()
    ensures Indexed(t, scope, position, c).Consistent()
  {
    if c.completed {
      var key := Key(scope, c.node);
      var id := if key in t.documents then t.documents[key].id else t.last + 1;
      var w := Indexed(t, scope, position, c);
      NoOtherHasId(t, key, id);
      forall k | k in w.documents
        ensures w.documents[k].id <= w.last && w.documents[k].id in w.search
        ensures w.search[w.documents[k].id]
          == Row(w.documents[k].fingerprint.terms, k.scope, k.node, w.documents[k].position)
      {
        if k != key { assert k in t.documents; }
      }
      forall r | r in w.search
        ensures Key(w.search[r].scope, w.search[r].node) in w.documents
          && w.documents[Key(w.search[r].scope, w.search[r].node)].id == r
      {
        if r != id { assert r in t.search; }
      }
      forall j, k | j in w.documents && k in w.documents && w.documents[j].id == w.documents[k].id ensures j == k {
        if j != key && k != key { assert t.documents[j].id == t.documents[k].id; }
      }
    }
  }

  lemma NoOtherHasId(t: Tables, key: Key, id: RowId)
    requires t.Consistent() && id == if key in t.documents then t.documents[key].id else t.last + 1
    ensures forall k | k in t.documents && k != key :: t.documents[k].id != id
    ensures id in t.search ==> key in t.documents && Key(t.search[id].scope, t.search[id].node) == key
  {
  }

  lemma {:induction false} AllIndexedKeeps(t: Tables, scope: Scope, calls: seq<Call>)
    requires t.Consistent()
    ensures AllIndexed(t, scope, calls).Consistent()
    decreases |calls|
  {
    if calls != [] {
      AllIndexedKeeps(t, scope, calls[..|calls| - 1]);
      IndexedKeeps(AllIndexed(t, scope, calls[..|calls| - 1]), scope, |calls| - 1, calls[|calls| - 1]);
    }
  }

  /** A position no later completed call of the same node overrides. */
  predicate Current(calls: seq<Call>, i: nat)
    requires i < |calls|
  {
    calls[i].completed && forall j | i < j < |calls| :: calls[j].completed ==> calls[j].node != calls[i].node
  }

  /** The search row of every current call holds its terms and its position. */
  ghost predicate Refined(t: Tables, scope: Scope, calls: seq<Call>) {
    && t.Consistent()
    && forall i | 0 <= i < |calls| && Current(calls, i) ::
      RowOf(t, scope, calls[i].node) == Some(Row(calls[i].terms, scope, calls[i].node, i))
  }

  /** The search row a node is found by. */
  function RowOf(t: Tables, scope: Scope, node: Node): Option<Row> {
    if Key(scope, node) in t.documents && t.documents[Key(scope, node)].id in t.search
    then Some(t.search[t.documents[Key(scope, node)].id]) else None
  }

  predicate Mentions(calls: seq<Call>, n: Node) {
    exists c | c in calls :: c.completed && c.node == n
  }

  /** From any consistent index the update makes every current call's row right. */
  lemma {:induction false} UpdateRefines(t: Tables, scope: Scope, calls: seq<Call>)
    requires t.Consistent()
    ensures Refined(AllIndexed(t, scope, calls), scope, calls)
    decreases |calls|
  {
    hide Tables.Consistent, Indexed, RowOf;
    AllIndexedKeeps(t, scope, calls);
    if calls != [] {
      var last := |calls| - 1;
      var before := AllIndexed(t, scope, calls[..last]);
      AllIndexedKeeps(t, scope, calls[..last]);
      UpdateRefines(t, scope, calls[..last]);
      RowsAfter(before, scope, last, calls[last]);
      forall i | 0 <= i < |calls| && Current(calls, i)
        ensures RowOf(AllIndexed(t, scope, calls), scope, calls[i].node)
          == Some(Row(calls[i].terms, scope, calls[i].node, i))
      {
        if i < last {
          assert Current(calls[..last], i);
        }
      }
    }
  }

  /** It leaves the rows of everything else -- other scopes, nodes no longer among the calls -- as
      they were. */
  lemma {:induction false} OthersUntouched(t: Tables, scope: Scope, calls: seq<Call>, s: Scope, n: Node)
    requires t.Consistent() && (s != scope || !Mentions(calls, n))
    ensures RowOf(AllIndexed(t, scope, calls), s, n) == RowOf(t, s, n)
    decreases |calls|
  {
    hide Tables.Consistent, Indexed, RowOf;
    if calls != [] {
      var last := |calls| - 1;
      assert calls[last] in calls;
      AllIndexedKeeps(t, scope, calls[..last]);
      OthersUntouched(t, scope, calls[..last], s, n);
      RowsAfter(AllIndexed(t, scope, calls[..last]), scope, last, calls[last]);
    }
  }

  lemma RowsAfter(t: Tables, scope: Scope, position: nat, c: Call)
    requires t.Consistent()
    ensures c.completed ==>
      RowOf(Indexed(t, scope, position, c), scope, c.node) == Some(Row(c.terms, scope, c.node, position))
    ensures forall s: Scope, n: Node ::
      (!c.completed || s != scope || n != c.node ==> RowOf(Indexed(t, scope, position, c), s, n) == RowOf(t, s, n))
  {
    if c.completed {
      var key := Key(scope, c.node);
      NoOtherHasId(t, key, if key in t.documents then t.documents[key].id else t.last + 1);
    }
  }

  function At(counts: map<Term, nat>, t: Term): nat { if t in counts then counts[t] else 0 }

  function Tallied(counts: map<Term, nat>, terms: set<Term>): map<Term, nat> {
    map t | t in counts.Keys + terms :: At(counts, t) + if t in terms then 1 else 0
  }

  datatype Reason = Recent | ObservedValue | ResourceGeneration | LexicalRetrieval

  type Reasons = map<Node, seq<Reason>>

  /** What selection looks at in the new call: its terms, the recorded source of each payload part,
      and the events that produced the resources it uses. */
  datatype NewCall = NewCall(terms: set<Term>, payload: seq<Option<Node>>, origins: set<nat>)

  datatype Selection = Selection(previous: seq<Call>, reasons: Reasons, priorCount: nat, selectedCount: nat,
      exhaustive: bool)

  predicate Holds(calls: seq<Call>, n: Node) {
    exists c | c in calls :: c.node == n
  }

  /** A dictionary by node, in the order of first insertion. */
  function Put(prior: seq<Call>, c: Call): seq<Call> {
    if prior == [] then [c]
    else if prior[0].node == c.node then [c] + prior[1..]
    else [prior[0]] + Put(prior[1..], c)
  }

  function PutAll(calls: seq<Call>): seq<Call> {
    if calls == [] then []
    else
      var before, c := PutAll(calls[..|calls| - 1]), calls[|calls| - 1];
      if c.completed then Put(before, c) else before
  }

  /** The call is the latest completed one of its node. */
  predicate Latest(calls: seq<Call>, c: Call) {
    exists i | 0 <= i < |calls| :: Current(calls, i) && calls[i] == c
  }

  lemma CurrentStep(before: seq<Call>, last: Call, i: nat)
    requires i < |before|
    ensures Current(before + [last], i) <==> Current(before, i) && !(last.completed && before[i].node == last.node)
  {
    var calls := before + [last];
    assert calls[|before|] == last;
    if Current(calls, i) {
      assert forall j | i < j < |before| :: calls[j] == before[j];
    }
  }

  lemma LatestStep(before: seq<Call>, last: Call, c: Call)
    ensures Latest(before + [last], c) <==>
      (last.completed && c == last) || (Latest(before, c) && !(last.completed && c.node == last.node))
  {
    var calls := before + [last];
    assert Current(calls, |before|) == last.completed;
    hide Current;
    if Latest(calls, c) {
      var i: nat :| i < |calls| && Current(calls, i) && calls[i] == c;
      if i < |before| { CurrentStep(before, last, i); }
    }
    if last.completed && c == last {
      assert calls[|before|] == c;
    }
    if Latest(before, c) && !(last.completed && c.node == last.node) {
      var i: nat :| i < |before| && Current(before, i) && before[i] == c;
      CurrentStep(before, last, i);
      assert calls[i] == c;
    }
  }

  /** The dictionary holds, for each node with a completed call, the latest one. */
  lemma {:induction false} PutAllIsLatest(calls: seq<Call>)
    ensures forall i, j | 0 <= i < j < |PutAll(calls)| :: PutAll(calls)[i].node != PutAll(calls)[j].node
    ensures forall c: Call :: c in PutAll(calls) <==> Latest(calls, c)
    decreases |calls|
  {
    hide Latest, Put;
    if calls == [] {
      NoneIsLatest();
    } else {
      var last := |calls| - 1;
      PutAllIsLatest(calls[..last]);
      PutIs(PutAll(calls[..last]), calls[last]);
      forall c: Call ensures c in PutAll(calls) <==> Latest(calls, c) {
        LatestStep(calls[..last], calls[last], c);
        assert calls[..last] + [calls[last]] == calls;
      }
    }
  }

  lemma NoneIsLatest()
    ensures forall c: Call :: !Latest([], c)
  {
  }

  lemma {:induction false} PutIs(prior: seq<Call>, c: Call)
    requires forall i, j | 0 <= i < j < |prior| :: prior[i].node != prior[j].node
    ensures var p := Put(prior, c);
      && (forall i, j | 0 <= i < j < |p| :: p[i].node != p[j].node)
      && (forall d :: d in p <==> d == c || (d in prior && d.node != c.node))
    decreases |prior|
  {
    if prior != [] {
      assert prior == [prior[0]] + prior[1..];
      if prior[0].node != c.node {
        PutIs(prior[1..], c);
        var rest := Put(prior[1..], c);
        forall j | 0 <= j < |rest| ensures rest[j].node != prior[0].node {
          assert rest[j] in rest;
        }
      }
    }
  }

  /** When every node is called once, it is simply the completed calls in their order. */
  lemma {:induction false} PutAllInOrder(calls: seq<Call>)
    requires forall i, j | 0 <= i < j < |calls| :: calls[i].node != calls[j].node
    ensures PutAll(calls) == Completed(calls)
    decreases |calls|
  {
    if calls != [] {
      var last := |calls| - 1;
      PutAllInOrder(calls[..last]);
      PutAllIsLatest(calls[..last]);
      PutsNewLast(PutAll(calls[..last]), calls[last]);
    }
  }

  lemma {:induction false} PutsNewLast(prior: seq<Call>, c: Call)
    ensures (forall d | d in prior :: d.node != c.node) ==> Put(prior, c) == prior + [c]
    decreases |prior|
  {
    if prior != [] {
      assert prior[0] in prior;
      PutsNewLast(prior[1..], c);
    }
  }

  function Completed(calls: seq<Call>): seq<Call> {
    if calls == [] then []
    else Completed(calls[..|calls| - 1]) + if calls[|calls| - 1].completed then [calls[|calls| - 1]] else []
  }

  /** The completed calls before the index. */
  function Prior(calls: seq<Call>, index: nat): seq<Call> {
    PutAll(if index <= |calls| then calls[..index] else calls)
  }

  /** Position i comes before the index and completed, and no later one before the index gave its node again. */
  ghost predicate LastBefore(calls: seq<Call>, index: nat, i: nat)
    requires i < |calls|
  {
    && i < index && calls[i].completed
    && forall j | i < j < |calls| && j < index && calls[j].completed :: calls[j].node != calls[i].node
  }

  /** The earlier calls are those completed before the index, each node in its latest call before it. */
  lemma PriorAre(calls: seq<Call>, index: nat, c: Call)
    ensures c in Prior(calls, index) <==> exists i | 0 <= i < |calls| :: calls[i] == c && LastBefore(calls, index, i)
  {
    hide PutAll;
    var before := if index <= |calls| then calls[..index] else calls;
    PutAllIsLatest(before);
    if Latest(before, c) {
      var i :| 0 <= i < |before| && Current(before, i) && before[i] == c;
      assert forall j | i < j < |calls| && j < index :: calls[j] == before[j];
      assert calls[i] == c && LastBefore(calls, index, i);
    }
    if i :| 0 <= i < |calls| && calls[i] == c && LastBefore(calls, index, i) {
      assert before[i] == c;
      assert forall j | i < j < |before| :: before[j] == calls[j];
      assert Current(before, i);
    }
  }

  /** A node that is no earlier call is ignored. */
  function Add(reasons: Reasons, prior: seq<Call>, n: Node, why: Reason): Reasons {
    if !Holds(prior, n) then reasons
    else reasons[n := (if n in reasons then reasons[n] else []) + [why]]
  }

  /** One reason for each of some nodes, in their order. */
  function AddEach(reasons: Reasons, prior: seq<Call>, nodes: seq<Node>, why: Reason): Reasons {
    if nodes == [] then reasons
    else Add(AddEach(reasons, prior, nodes[..|nodes| - 1], why), prior, nodes[|nodes| - 1], why)
  }

  /** The reasons listed for a node. */
  function Listed(reasons: Reasons, n: Node): seq<Reason> { if n in reasons then reasons[n] else [] }

  /** A reason once for every time the node is named. */
  function Each(nodes: seq<Node>, n: Node, why: Reason): seq<Reason> {
    if nodes == [] then []
    else Each(nodes[..|nodes| - 1], n, why) + if nodes[|nodes| - 1] == n then [why] else []
  }

  lemma AddLists(reasons: Reasons, prior: seq<Call>, m: Node, n: Node, why: Reason)
    ensures Listed(Add(reasons, prior, m, why), n)
         == Listed(reasons, n) + if Holds(prior, n) && m == n then [why] else []
  {
    hide Holds;
  }

  lemma {:induction false} AddEachLists(reasons: Reasons, prior: seq<Call>, nodes: seq<Node>, n: Node, why: Reason)
    ensures Listed(AddEach(reasons, prior, nodes, why), n)
         == Listed(reasons, n) + if Holds(prior, n) then Each(nodes, n, why) else []
    decreases |nodes|
  {
    hide Holds, Add, Listed;
    if nodes != [] {
      var k := |nodes| - 1;
      AddEachLists(reasons, prior, nodes[..k], n, why);
      AddLists(AddEach(reasons, prior, nodes[..k], why), prior, nodes[k], n, why);
    }
  }

  function NodesOf(calls: seq<Call>): seq<Node> { seq(|calls|, i requires 0 <= i < |calls| => calls[i].node) }

  /** The sources a payload names. */
  function Sources(payload: seq<Option<Node>>): seq<Node> {
    if payload == [] then []
    else
      var k := |payload| - 1;
      Sources(payload[..k]) + if payload[k].Some? then [payload[k].value] else []
  }

  /** The calls that produced one of some resources. */
  function Producers(calls: seq<Call>, origins: set<nat>): seq<Node> {
    if calls == [] then []
    else
      var k := |calls| - 1;
      Producers(calls[..k], origins) + if calls[k].event in origins then [calls[k].node] else []
  }

  /** The calls some rows stand for. */
  function RowNodes(search: map<RowId, Row>, rows: seq<RowId>): seq<Node>
    requires forall row | row in rows :: row in search
  {
    seq(|rows|, i requires 0 <= i < |rows| => search[rows[i]].node)
  }

  lemma NodesMore(calls: seq<Call>, from: nat, i: nat)
    requires from <= i < |calls|
    ensures NodesOf(calls[from..i + 1]) == NodesOf(calls[from..i]) + [calls[i].node]
  {
  }

  lemma AddNone(reasons: Reasons, prior: seq<Call>, why: Reason)
    ensures AddEach(reasons, prior, [], why) == reasons && NodesOf([]) == []
  {
  }

  lemma AddMore(reasons: Reasons, prior: seq<Call>, nodes: seq<Node>, n: Node, why: Reason)
    ensures AddEach(reasons, prior, nodes + [n], why) == Add(AddEach(reasons, prior, nodes, why), prior, n, why)
  {
    assert (nodes + [n])[..|nodes|] == nodes;
  }

  function Latter(prior: seq<Call>): seq<Call> { if |prior| > RECENT then prior[|prior| - RECENT..] else prior }

  predicate Gave(reasons: Reasons, n: Node, why: Reason) { n in reasons && why in reasons[n] }

  ghost predicate Grounded(reasons: Reasons, prior: seq<Call>) {
    forall n | n in reasons :: Holds(prior, n) && reasons[n] != []
  }

  /** The calls with a reason, in call order. */
  function Chosen(prior: seq<Call>, nodes: set<Node>): seq<Call> {
    if prior == [] then []
    else (if prior[0].node in nodes then [prior[0]] else []) + Chosen(prior[1..], nodes)
  }

  predicate Originates(calls: seq<Call>, origins: set<nat>, n: Node) {
    exists c | c in calls :: c.node == n && c.event in origins
  }

  predicate Retrieved(search: map<RowId, Row>, rows: seq<RowId>, n: Node) {
    exists row | row in rows :: row in search && search[row].node == n
  }

  /** What the search statement guarantees of the rows it returns. */
  ghost predicate Answers(search: map<RowId, Row>, scope: Scope, index: nat, query: set<Term>, rows: seq<RowId>) {
    forall row | row in rows ::
      row in search && search[row].scope == scope && search[row].position < index && search[row].terms * query != {}
  }

  /** The grounds on which an earlier call is selected. */
  ghost predicate Grounds(t: Tables, prior: seq<Call>, call: NewCall, rows: seq<RowId>, n: Node, why: Reason) {
    match why
    case Recent => Holds(Latter(prior), n)
    case ObservedValue => Some(n) in call.payload
    case ResourceGeneration => Originates(prior, call.origins, n)
    case LexicalRetrieval => Retrieved(t.search, rows, n)
  }

  lemma NothingGiven()
    ensures forall n: Node, why: Reason :: !Gave(map[], n, why)
    ensures forall n: Node :: !Holds([], n)
    ensures forall n: Node, origins: set<nat> :: !Originates([], origins, n)
    ensures forall n: Node, search: map<RowId, Row> :: !Retrieved(search, [], n)
  {
  }

  lemma AddGives(reasons: Reasons, prior: seq<Call>, n: Node, why: Reason)
    requires Grounded(reasons, prior)
    ensures Grounded(Add(reasons, prior, n, why), prior)
    ensures forall m: Node, w: Reason ::
      Gave(Add(reasons, prior, n, why), m, w) <==> Gave(reasons, m, w) || (m == n && w == why && Holds(prior, n))
  {
  }

  lemma GroundedGives(reasons: Reasons, prior: seq<Call>)
    requires Grounded(reasons, prior)
    ensures forall n | n in reasons :: exists why: Reason :: Gave(reasons, n, why)
    ensures forall n: Node, why: Reason :: Gave(reasons, n, why) ==> Holds(prior, n)
  {
    forall n | n in reasons ensures exists why: Reason :: Gave(reasons, n, why) {
      assert Gave(reasons, n, reasons[n][0]);
    }
  }

  /** What the index is for: a call found by its terms really shares one of them, because the row
      it was found by holds its current terms and position. */
  lemma FoundCallsShareATerm(t: Tables, scope: Scope, calls: seq<Call>, index: nat, query: set<Term>,
      rows: seq<RowId>, i: nat)
    requires Refined(t, scope, calls) && Answers(t.search, scope, index, query, rows)
    requires i < |calls| && Current(calls, i) && Retrieved(t.search, rows, calls[i].node)
    ensures i < index && calls[i].terms * query != {}
  {
    var row :| row in rows && row in t.search && t.search[row].node == calls[i].node;
    assert t.documents[Key(t.search[row].scope, t.search[row].node)].id == row;
    assert RowOf(t, scope, calls[i].node) == Some(t.search[row]);
  }

  lemma HoldsMore(prior: seq<Call>, from: nat, i: nat)
    requires from <= i < |prior|
    ensures forall n: Node :: Holds(prior[from..i + 1], n) <==> Holds(prior[from..i], n) || n == prior[i].node
    ensures Holds(prior, prior[i].node)
  {
    assert prior[from..i + 1] == prior[from..i] + [prior[i]];
    forall n: Node | Holds(prior[from..i], n) || n == prior[i].node ensures Holds(prior[from..i + 1], n) {
      if Holds(prior[from..i], n) {
        var c :| c in prior[from..i] && c.node == n;
        assert c in prior[from..i + 1];
      } else {
        assert prior[i] in prior[from..i + 1];
      }
    }
    assert prior[i] in prior;
  }

  lemma OriginatesMore(prior: seq<Call>, i: nat, origins: set<nat>)
    requires i < |prior|
    ensures forall n: Node :: Originates(prior[..i + 1], origins, n) <==>
      Originates(prior[..i], origins, n) || (n == prior[i].node && prior[i].event in origins)
    ensures Holds(prior, prior[i].node)
  {
    assert prior[..i + 1] == prior[..i] + [prior[i]];
    assert prior[i] in prior && prior[i] in prior[..i + 1];
    forall n: Node | Originates(prior[..i], origins, n) ensures Originates(prior[..i + 1], origins, n) {
      var c :| c in prior[..i] && c.node == n && c.event in origins;
      assert c in prior[..i + 1];
    }
  }

  lemma RetrievedMore(search: map<RowId, Row>, rows: seq<RowId>, i: nat)
    requires i < |rows| && rows[i] in search
    ensures forall n: Node :: Retrieved(search, rows[..i + 1], n) <==>
      Retrieved(search, rows[..i], n) || n == search[rows[i]].node
  {
    assert rows[..i + 1] == rows[..i] + [rows[i]];
    assert rows[i] in rows[..i + 1];
    forall n: Node | Retrieved(search, rows[..i], n) ensures Retrieved(search, rows[..i + 1], n) {
      var row :| row in rows[..i] && row in search && search[row].node == n;
      assert row in rows[..i + 1];
    }
  }

  /** Nothing was dropped exactly when as many calls were chosen as there are. */
  lemma {:induction false} ChosenSize(prior: seq<Call>, nodes: set<Node>)
    ensures |Chosen(prior, nodes)| <= |prior|
    ensures |Chosen(prior, nodes)| == |prior| <==> Chosen(prior, nodes) == prior
    ensures Chosen(prior, nodes) == prior <==> forall c | c in prior :: c.node in nodes
    ensures forall c :: c in Chosen(prior, nodes) <==> c in prior && c.node in nodes
    decreases |prior|
  {
    if prior != [] {
      assert prior == [prior[0]] + prior[1..];
      ChosenSize(prior[1..], nodes);
    }
  }

  /** The statements run for one completed call: no write at all when neither terms nor position
      changed, a change of position in both tables, or an upsert and a replaced search row. */
  function Write(t: Tables, scope: Scope, position: nat, c: Call): (w: Tables)
    requires t.Consistent() && c.completed
    ensures w == Indexed(t, scope, position, c)
  {
    var key := Key(scope, c.node);
    if key in t.documents && t.documents[key].fingerprint == Print(c) then
      var d := t.documents[key];
      if d.position == position then
        assert t.documents[key := Document(d.id, Print(c), position)] == t.documents;
        assert t.search[d.id := Row(c.terms, scope, c.node, position)] == t.search;
        t
      else
        t.(documents := t.documents[key := d.(position := position)],
           search := t.search[d.id := t.search[d.id].(position := position)])
    else
      var id := if key in t.documents then t.documents[key].id else t.last + 1;
      var documents := t.documents[key := Document(id, Print(c), position)];
      var deleted := t.search - {id};
      var search := deleted[id := Row(c.terms, scope, c.node, position)];
      assert search == t.search[id := Row(c.terms, scope, c.node, position)];
      Tables(documents, search, if key in t.documents then t.last else t.last + 1)
  }

  /** Four rounds of reasons, one after the other. */
  lemma AllListed(prior: seq<Call>, recent: seq<Node>, observed: seq<Node>, made: seq<Node>, found: seq<Node>)
    ensures var first := AddEach(map[], prior, recent, Recent);
      var second := AddEach(first, prior, observed, ObservedValue);
      var third := AddEach(second, prior, made, ResourceGeneration);
      forall n | Holds(prior, n) :: Listed(AddEach(third, prior, found, LexicalRetrieval), n)
        == Each(recent, n, Recent) + Each(observed, n, ObservedValue) + Each(made, n, ResourceGeneration)
         + Each(found, n, LexicalRetrieval)
  {
    hide Holds, Each, AddEach;
    var first := AddEach(map[], prior, recent, Recent);
    var second := AddEach(first, prior, observed, ObservedValue);
    var third := AddEach(second, prior, made, ResourceGeneration);
    forall n | Holds(prior, n) ensures Listed(AddEach(third, prior, found, LexicalRetrieval), n)
      == Each(recent, n, Recent) + Each(observed, n, ObservedValue) + Each(made, n, ResourceGeneration)
       + Each(found, n, LexicalRetrieval) {
      AddEachLists(map[], prior, recent, n, Recent);
      AddEachLists(first, prior, observed, n, ObservedValue);
      AddEachLists(second, prior, made, n, ResourceGeneration);
      AddEachLists(third, prior, found, n, LexicalRetrieval);
    }
  }

  method AddRecent(prior: seq<Call>) returns (reasons: Reasons)
    ensures Grounded(reasons, prior)
    ensures forall n: Node, why: Reason :: Gave(reasons, n, why) <==>
      why == Recent && Holds(Latter(prior), n)
    ensures reasons == AddEach(map[], prior, NodesOf(Latter(prior)), Recent)
  {
    hide Add, Gave, Holds, AddEach, NodesOf;
    reasons := map[];
    NothingGiven();
    AddNone(map[], prior, Recent);
    var i := if |prior| > RECENT then |prior| - RECENT else 0;
    ghost var first := i;
    assert prior[first..first] == [];
    while i < |prior|
      invariant first <= i <= |prior| && Grounded(reasons, prior)
      invariant forall n: Node, why: Reason :: Gave(reasons, n, why) <==> why == Recent && Holds(prior[first..i], n)
      invariant reasons == AddEach(map[], prior, NodesOf(prior[first..i]), Recent)
    {
      HoldsMore(prior, first, i);
      NodesMore(prior, first, i);
      AddMore(map[], prior, NodesOf(prior[first..i]), prior[i].node, Recent);
      AddGives(reasons, prior, prior[i].node, Recent);
      reasons := Add(reasons, prior, prior[i].node, Recent);
      i := i + 1;
    }
    assert prior[first..i] == Latter(prior);
  }

  method AddObserved(prior: seq<Call>, payload: seq<Option<Node>>, given: Reasons)
    returns (reasons: Reasons, known: bool)
    requires Grounded(given, prior)
    ensures known <==> forall p | p in payload :: p.Some? ==> Holds(prior, p.value)
    ensures known ==> Grounded(reasons, prior)
    ensures known ==> forall n: Node, why: Reason :: Gave(reasons, n, why) <==>
      Gave(given, n, why) || (why == ObservedValue && Some(n) in payload)
    ensures known ==> reasons == AddEach(given, prior, Sources(payload), ObservedValue)
  {
    hide Add, Gave, Holds, AddEach;
    reasons := given;
    AddNone(given, prior, ObservedValue);
    var i := 0;
    while i < |payload|
      invariant i <= |payload| && Grounded(reasons, prior)
      invariant forall p | p in payload[..i] :: p.Some? ==> Holds(prior, p.value)
      invariant forall n: Node, why: Reason :: Gave(reasons, n, why) <==>
        Gave(given, n, why) || (why == ObservedValue && Some(n) in payload[..i])
      invariant reasons == AddEach(given, prior, Sources(payload[..i]), ObservedValue)
    {
      var part := payload[i];
      assert payload[..i + 1] == payload[..i] + [part];
      assert payload[..i + 1][..i] == payload[..i];
      assert Sources(payload[..i]) + [] == Sources(payload[..i]);
      if part.Some? {
        if !Holds(prior, part.value) {
          return reasons, false;
        }
        AddGives(reasons, prior, part.value, ObservedValue);
        AddMore(given, prior, Sources(payload[..i]), part.value, ObservedValue);
        reasons := Add(reasons, prior, part.value, ObservedValue);
      }
      i := i + 1;
    }
    assert payload[..i] == payload;
    known := true;
  }

  method AddOrigins(prior: seq<Call>, origins: set<nat>, given: Reasons) returns (reasons: Reasons)
    requires Grounded(given, prior)
    ensures Grounded(reasons, prior)
    ensures forall n: Node, why: Reason :: Gave(reasons, n, why) <==>
      Gave(given, n, why) || (why == ResourceGeneration && Originates(prior, origins, n))
    ensures reasons == AddEach(given, prior, Producers(prior, origins), ResourceGeneration)
  {
    hide Add, Gave, Holds, Originates, AddEach;
    reasons := given;
    AddNone(given, prior, ResourceGeneration);
    NothingGiven();
    assert prior[..0] == [];
    var i := 0;
    while i < |prior|
      invariant i <= |prior| && Grounded(reasons, prior)
      invariant forall n: Node, why: Reason :: Gave(reasons, n, why) <==>
        Gave(given, n, why) || (why == ResourceGeneration && Originates(prior[..i], origins, n))
      invariant reasons == AddEach(given, prior, Producers(prior[..i], origins), ResourceGeneration)
    {
      OriginatesMore(prior, i, origins);
      assert prior[..i + 1][..i] == prior[..i];
      assert Producers(prior[..i], origins) + [] == Producers(prior[..i], origins);
      if prior[i].event in origins {
        AddMore(given, prior, Producers(prior[..i], origins), prior[i].node, ResourceGeneration);
        AddGives(reasons, prior, prior[i].node, ResourceGeneration);
        reasons := Add(reasons, prior, prior[i].node, ResourceGeneration);
      }
      i := i + 1;
    }
    assert prior[..i] == prior;
  }

  method AddRetrieved(prior: seq<Call>, search: map<RowId, Row>, rows: seq<RowId>, given: Reasons)
    returns (reasons: Reasons)
    requires Grounded(given, prior) && forall row | row in rows :: row in search
    ensures Grounded(reasons, prior)
    ensures forall n: Node, why: Reason :: Gave(reasons, n, why) <==>
      Gave(given, n, why) || (why == LexicalRetrieval && Holds(prior, n) && Retrieved(search, rows, n))
    ensures reasons == AddEach(given, prior, RowNodes(search, rows), LexicalRetrieval)
  {
    hide Add, Gave, Holds, Retrieved, AddEach;
    reasons := given;
    AddNone(given, prior, LexicalRetrieval);
    assert RowNodes(search, rows[..0]) == [];
    NothingGiven();
    assert rows[..0] == [];
    var i := 0;
    while i < |rows|
      invariant i <= |rows| && Grounded(reasons, prior)
      invariant forall n: Node, why: Reason :: Gave(reasons, n, why) <==>
        Gave(given, n, why) || (why == LexicalRetrieval && Holds(prior, n) && Retrieved(search, rows[..i], n))
      invariant reasons == AddEach(given, prior, RowNodes(search, rows[..i]), LexicalRetrieval)
    {
      RetrievedMore(search, rows, i);
      assert RowNodes(search, rows[..i + 1]) == RowNodes(search, rows[..i]) + [search[rows[i]].node];
      AddMore(given, prior, RowNodes(search, rows[..i]), search[rows[i]].node, LexicalRetrieval);
      AddGives(reasons, prior, search[rows[i]].node, LexicalRetrieval);
      reasons := Add(reasons, prior, search[rows[i]].node, LexicalRetrieval);
      i := i + 1;
    }
    assert rows[..i] == rows;
  }

  /** The shared connection. */
  class Connection {
    var tables: Tables

    constructor (tables: Tables)
      ensures this.tables == tables
    {
      this.tables := tables;
    }
  }

  class Index {
    const scope: Scope
    const calls: seq<Call>
    var frequency: map<Term, nat>

    /** A count that is absent is zero. */
    function Count(t: Term): nat
      reads this
    {
      At(frequency, t)
    }

    /** The incremental update, in one transaction: unchanged documents are left alone, moved ones
        get their new position, and the others are written anew under their old id if they had one. */
    constructor (conn: Connection, scope: Scope, calls: seq<Call>)
      requires conn.tables.Consistent()
      modifies conn
      ensures this.scope == scope && this.calls == calls
      ensures conn.tables == AllIndexed(old(conn.tables), scope, calls)
      ensures forall t: Term :: Count(t) == Frequency(calls, t)
    {
      this.scope, this.calls := scope, calls;
      frequency := map[];
      new;
      var i := 0;
      while i < |calls|
        invariant i <= |calls| && this.scope == scope && this.calls == calls
        invariant conn.tables == AllIndexed(old(conn.tables), scope, calls[..i]) && conn.tables.Consistent()
        invariant forall t: Term :: At(frequency, t) == Frequency(calls[..i], t)
      {
        hide Tables.Consistent, Indexed, Write;
        var c := calls[i];
        assert calls[..i + 1][..i] == calls[..i];
        IndexedKeeps(conn.tables, scope, i, c);
        if c.completed {
          frequency := Tallied(frequency, c.terms);
          conn.tables := Write(conn.tables, scope, i, c);
        }
        i := i + 1;
      }
      assert calls[..i] == calls;
    }

    /** Earlier calls for a new one. `query` are the terms searched for and `rows` the ranked answer
        of the search: at most eight rows of this scope before the index that share one. A payload
        part whose recorded source is no earlier call is an error. */
    method Select(conn: Connection, index: nat, call: NewCall, query: set<Term>, rows: seq<RowId>)
      returns (r: Option<Selection>)
      requires query <= call.terms && forall t | t in query :: Count(t) > 0
      requires |rows| <= RETRIEVED && Answers(conn.tables.search, scope, index, query, rows)
      ensures r.None? <==> exists p | p in call.payload :: p.Some? && !Holds(Prior(calls, index), p.value)
      ensures r.Some? ==>
        var prior := Prior(calls, index);
        && r.value.previous == Chosen(prior, r.value.reasons.Keys)
        && r.value.priorCount == |prior| && r.value.selectedCount == |r.value.previous|
        && (r.value.exhaustive <==> r.value.previous == prior)
        && (forall n: Node, why: Reason :: Gave(r.value.reasons, n, why) <==>
              Holds(prior, n) && Grounds(conn.tables, prior, call, rows, n, why))
        && (forall n | n in r.value.reasons :: exists why: Reason :: Gave(r.value.reasons, n, why))
        && (forall n | Holds(prior, n) :: Listed(r.value.reasons, n)
              == Each(NodesOf(Latter(prior)), n, Recent) + Each(Sources(call.payload), n, ObservedValue)
               + Each(Producers(prior, call.origins), n, ResourceGeneration)
               + Each(RowNodes(conn.tables.search, rows), n, LexicalRetrieval))
    {
      hide Gave, Holds, Tables.Consistent, Chosen, Retrieved, Originates, Prior, Add, AddEach, Listed, Each;
      var prior := Prior(calls, index);
      var reasons := AddRecent(prior);
      var known;
      reasons, known := AddObserved(prior, call.payload, reasons);
      if !known {
        return None;
      }
      reasons := AddOrigins(prior, call.origins, reasons);
      reasons := AddRetrieved(prior, conn.tables.search, rows, reasons);
      GroundedGives(reasons, prior);
      AllListed(prior, NodesOf(Latter(prior)), Sources(call.payload), Producers(prior, call.origins),
        RowNodes(conn.tables.search, rows));
      var previous := Chosen(prior, reasons.Keys);
      ChosenSize(prior, reasons.Keys);
      r := Some(Selection(previous, reasons, |prior|, |previous|, |previous| == |prior|));
    }
  }
}
