# Verification model

This project models the algorithms and protocols of the repository in Dafny and proves what they
promise, for all inputs, runs and interleavings. `dafny verify dfyconfig.toml` checks all of it.

## What is modelled

**The bounded beam forecast** (`research/flow_forecast/model.py`, `ablations.py`). `Ranking` is the
order and the pruning, `Rollout` the rollout as a function beside the exact, unpruned recursion it
approximates. `Bracketing` proves conservation and that the exact arrival probability lies between what
was enumerated and that plus everything lost; `Beam` that the beam really keeps the best; `Generate`
is the method with its nested loops, early pruning and expansion cap, proved equal to the rollout;
`Guarantees` draws the conclusions for a whole request. `Sharpness` gives the exact condition on the
learned table under which the bracket holds, `Stray` an accepted model for which it fails, `Answers`
which requests are answered. `Remainder` says what is reported as unknown and what as other, beside a
plain recursion for the probability of an unresolved future; `Candidates` that every candidate carries
the product of its own probabilities and that each outcome brackets the exact probability of its own
routes. `Fit` learns a model and `Learned` says, in plain sums over the observations, which tokens it
gives which probabilities. `Routes` handles predicted paths, `Ablation` the ablated forecasts and
`Attribution` which candidates they take out. Probabilities are reals. The token operations are
parameters: a total `context`, an `advance` that may fail, and `routes` that may refuse. Whatever an
unresolved future is worth is a parameter too, so the bracket holds for every possible answer.

**The closed computation language** (`computation_contract.py`, `mbpp_contract.py`). `Syntax` is the
fragment, `Machine` a big-step semantics in which values, heap and all primitive operations are
parameters; only evaluation order, control flow and name resolution are fixed. Generator expressions
follow Python in scope: every target is local to the expression and hides outer names in all clauses
but the first iterable. They are run where they are made. `Checker` and `SingleFunction` are the two
checkers, `Scoping` what both imply about names, `Growth` and `Soundness` the inductions over runs,
`Exactness` the converse, `ClosedComputation` the conclusions. `Definite` enumerates the paths of a
program and proves that the checker accepts exactly what binds every name before it is read on each of
them; `FlatPass` proves the single-function checker equal to one pass over the nodes in any order.

**The authority protocol** (`authority_state.py`, `authority_admin.py`). `Authority` is a state machine
in which every read, lock, unlock, publication and crash is one step, with any number of clients and
administrators. Locks never wait, as in the source. A client counts as admitted when it holds the
lease and re-read an active record, the test made at `tooluseproxy/app.py:302-304`. `Admission` says who
may work without a lease, what an undisturbed client, a reviewed request and a repeated request end in,
and what is decided of every request.

**Graph algorithms.** `Layering` is the depth, lane and box computation of the provenance drawing,
`Traversal` the bounded walk over provenance revisions, `BreadthFirst` the picture it draws told without
the walk.

**Stateful components.** `Lineage` builds a prefix from recorded reads and copies, `CandidateIndex` keeps
and queries the incremental index, `Transport` prepares, guards and dispatches three fixed calls,
`Holdout` is the one-shot ledger with the evaluations that use it, `HoldoutHistory` when each of its calls
takes effect, told by the calls before it.

**Formats and arithmetic.** `BlobStream`, `Checksums`, `Planning` and `Comparison`.

## Where the code promises less than its descriptions

- The forecast's constructor tolerates context totals within 1e-9 of 1, so mass is conserved exactly when
  the contexts are normalised (`Bracketing.Conservation`). The bracket around the exact probability
  holds in every environment exactly when no context totals more than 1 or no context offers two
  actions (`Sharpness.BracketExactlyWhen`); `Stray.BracketEscaped` is an accepted model for which it
  fails, and `Guarantees.RiskIsClose` bounds the damage. Learned models are normalised.
- A model the constructor accepts may still have its answers refused for their mass
  (`Answers.DriftingRefused`); `Answers.AnsweredWhenNear` says how close to 1 its totals must be.
- `generate` reports a risk when less than 1e-12 is unaccounted for, an ablation when it is at most 1e-12.
- The computation checker takes an outer name as visible in later clauses of a generator expression
  even when a target of that expression hides it: `y = source; result = any(y for x in source for y in y)`
  is accepted and reads an unbound name. `ClosedComputation.UnboundExactlyWhenHidden` gives the exact
  condition for programs that consume every generator expression where it is made; one that is only
  stored may hide a read that never happens (`ClosedComputation.StoredGenerator`).
- An empty directory writes a checksum file with one empty line, which the reader refuses
  (`Checksums.ReadsBackExactlyClean`).
- A structure that protects one path twice gets two objects with one id, which the prefix constructor
  refuses (`Lineage.WholeIsValid`).
- A traversal whose closure has exactly as many nodes as the limit may be called truncated although
  nothing is missing (`Traversal.FalseAlarm`): exactly when, in the order the links are listed, one
  whose source is drawn after its target was recorded behind the first that names the last node
  (`Traversal.FullAtLimit`, `Traversal.TruncatedExactlyWhen`).

## Model

| member | source | states |
|---|---|---|
| Ranking.SumSplit | research/flow_forecast/model.py:186-192 | Pruning to the best k splits any mass-like sum exactly between what is kept and what is dropped. |
| Ranking.PruneThenAdd | research/flow_forecast/model.py:179-183 | Pruning early and then adding a row keeps the same best k as adding without pruning. |
| Ranking.BestOfBest | research/flow_forecast/model.py:186-188 | Pruning twice is pruning once. |
| Ranking.BestIsBest | research/flow_forecast/model.py:186-188 | Over distinct action sequences every kept row is strictly ahead of every dropped one: it has the larger mass, or the same and the action sequence that is smaller at the first difference or a proper prefix. |
| Ranking.DistinctPermuted | research/flow_forecast/model.py:181-188 | Sorting does not create repeated action sequences. |
| Bracketing.RunConserves | research/flow_forecast/model.py:138-192 | With every context summing to exactly 1, candidates, unknown and other sum to exactly 1 at the end of every run. |
| Bracketing.RoundMass | research/flow_forecast/model.py:146-192 | At every layer, active, finished, unknown and other together change only by what the expanded contexts sum to; the cap and both prunings lose nothing. |
| Bracketing.CloseConserves | research/flow_forecast/model.py:149-157 | Reading the rows off at the horizon moves all remaining mass into candidates or unknown. |
| Bracketing.Conservation | research/flow_forecast/model.py:138-202 | Mass is conserved on all runs if and only if every context the model can meet sums to exactly 1. |
| Bracketing.ExactBounds | research/flow_forecast/model.py:146-186 | The exact arrival probability of n more operations lies between 0 and the n-th power of the largest context total. |
| Bracketing.RoundBrackets | research/flow_forecast/model.py:146-192 | One layer of expansion, cap and pruning keeps the exact value between what was enumerated and that plus everything lost. |
| Bracketing.ArrivalBracketed | research/flow_forecast/model.py:138-200 | For every model, horizon, beam and worth of the unresolved futures, the exact unpruned arrival probability is at least the enumerated arrival and at most that plus unknown plus other, other being stretched only by how far contexts exceed 1. |
| Generate.Follow | research/flow_forecast/model.py:159-185 | One choice: the pruned buffer goes on standing for the unpruned one; the frontier stays within twice the beam and expansions within the cap. |
| Generate.ExpandRow | research/flow_forecast/model.py:158-185 | All choices of one row, in order. |
| Generate.ExpandLayer | research/flow_forecast/model.py:147-185 | All rows of one layer, in order, without exceeding the cap or twice the beam. |
| Generate.ReadLayer | research/flow_forecast/model.py:149-157 | At the horizon rows are read off without spending the budget. |
| Generate.EndLayer | research/flow_forecast/model.py:186-192 | The prunings after a layer: at most a beam of rows and of candidates remain, and they are the best of everything the layer produced. |
| Generate.ExpandLayers | research/flow_forecast/model.py:146-192 | The nested loops compute exactly the layered rollout without intermediate pruning. |
| Generate.Tabulate | research/flow_forecast/model.py:193-196 | Candidates are grouped by routes in one pass. |
| Generate.Generate | research/flow_forecast/model.py:138-202 | The whole request, its horizon and beam rejections included, equals the specification, whose report Remainder and Candidates pin down part by part; expansions never exceed 8192 and candidates never exceed the beam. |
| Beam.LayerClashFree | research/flow_forecast/model.py:110-117 | Distinct actions per context make all sequences emitted in a layer pairwise distinct. |
| Beam.EverFinishedDistinct | research/flow_forecast/model.py:146-192 | Through every run the frontier and everything ever finished carry pairwise distinct action sequences. |
| Beam.FinishedIsBestEver | research/flow_forecast/model.py:189-192 | Pruning the finished candidates after every layer leaves the best k of everything ever finished. |
| Beam.FrontierIsTheBest | research/flow_forecast/model.py:179-188 | The frontier after a layer is exactly the best k of every row generated at that depth, larger masses first and on equal masses smaller action sequences. |
| Beam.CandidatesAreTheBest | research/flow_forecast/model.py:186-192 | The candidates returned are exactly the best k of all candidates ever finished; everything dropped is strictly behind, by mass or on equal masses by a larger action sequence. |
| Guarantees.GroupSums | research/flow_forecast/model.py:193-197 | Grouping by routes keeps the total and the sink mass and leaves one entry per set of routes. |
| Guarantees.ClampedSums | research/flow_forecast/model.py:196-200 | Clamping each outcome to 1 changes nothing while the total is at most 1, and otherwise removes no more than the excess. |
| Guarantees.RunGrowth | research/flow_forecast/model.py:138-192 | When contexts total at most g, the accounted mass stays below g to the power of the horizon. |
| Guarantees.RiskIsExact | research/flow_forecast/model.py:193-202 | When no context totals more than 1: refused only for too little mass, and never when all total exactly 1; an answer brackets the exact risk, and a risk is reported exactly when less than 1e-12 is unaccounted for and is then exact to within that. |
| Guarantees.RiskIsClose | research/flow_forecast/model.py:105-202 | For every model the constructor accepts: never refused for an inconsistent risk, total within 1e-9 of 1 when answered, and a reported risk within 1.1e-8 of the exact one. |
| Sharpness.NarrowBracket | research/flow_forecast/model.py:146-202 | When no context offers two actions the frontier is one row, the cap is never met, only finished candidates are dropped, and the plain bracket holds whatever the totals. |
| Sharpness.BracketHolds | research/flow_forecast/model.py:138-202 | For every environment, beam and horizon the exact probability is bracketed when no context totals more than 1 or none offers two actions. |
| Sharpness.BracketFails | research/flow_forecast/model.py:118-119 | A context with two actions and one totalling more than 1 always give an environment in which more arrives than was accounted for. |
| Sharpness.BracketExactlyWhen | research/flow_forecast/model.py:105-119 | For one accepted table the bracket holds in every environment, for every beam and horizon, if and only if no context totals more than 1 or no context offers two actions. |
| Answers.AnsweredWhenNear | research/flow_forecast/model.py:118-202 | When every total lies within d of 1 and (1 + d)^8 - 1 is at most 1e-9, exactly the requests for 1, 2, 4 or 8 operations with a beam of 1 to 64 are answered; every other is refused as invalid. |
| Answers.DriftingRefused | research/flow_forecast/model.py:118-202 | An accepted model, one context totalling 1 + 1e-9, whose two-operation answer is refused for its mass at every beam although nothing is pruned. |
| Remainder.UnseenIsUnknown | research/flow_forecast/model.py:158-168 | A request whose start context was never learned is answered with unknown 1, other 0, no outcomes and no risk, at every valid horizon and beam. |
| Remainder.UnknownIsUnresolved | research/flow_forecast/model.py:138-192 | Unknown never exceeds the exact probability of an unresolved future: an unknown token, a failed operation or refused routes, by a recursion without beam or cap. |
| Remainder.UnresolvedIsAccounted | research/flow_forecast/model.py:138-192 | That probability is at most unknown plus other, other being stretched only by how far contexts exceed 1. |
| Remainder.RemainderIsExact | research/flow_forecast/model.py:161-202 | On every answer: when nothing is pruned and the cap is not met, other is 0 and unknown is exactly the probability of an unresolved future; in general it is at most that. |
| Candidates.CandidatesAreCourses | research/flow_forecast/model.py:149-192 | Every candidate of an answer carries exactly the product of the probabilities of its operations, and of ending if it ended before the horizon, and the routes of the paths those operations leave. |
| Candidates.OutcomesAreTheirOwn | research/flow_forecast/model.py:193-200 | For any routes, their reported outcome is at most the exact probability of ending with just those routes, and that is at most the outcome plus unknown plus other. |
| Stray.BracketEscaped | research/flow_forecast/model.py:118-119 | An accepted model, not normalised, whose exact arrival probability exceeds arrived plus unknown plus other. |
| Fit.CountBranch | research/flow_forecast/model.py:219-238 | The steps of one branch are counted up to the first unknown one, then the termination; refused exactly when contexts exceed the limit. |
| Fit.DistributeAll | research/flow_forecast/model.py:239-250 | Every counted context gets its distribution, or learning is refused because one has too many actions. |
| Fit.Fit | research/flow_forecast/model.py:205-253 | The loops compute the specification of learning, refusals included, whose value Learned.LearnedExactly and Learned.RefusedExactlyWhen describe without it. |
| Fit.DistributionIsOne | research/flow_forecast/model.py:243-250 | Each learned context has distinct actions with probabilities in (0, 1] that sum to exactly 1. |
| Fit.FittedIsNormalised | research/flow_forecast/model.py:105-119 | Whatever is learned passes the constructor's checks of the transitions and is normalised, so the exact claims apply to it. |
| Fit.RootsAreBalanced | research/flow_forecast/model.py:213-250 | Scaling all branch weights of one root by a positive factor leaves the learned model unchanged. |
| Learned.LearnedExactly | research/flow_forecast/model.py:211-250 | A context is learned exactly when it was observed, a token in it exactly when observed there, and its probability is the mean, over the roots observed there, of the part of the root's weight there that went to the token. |
| Learned.RefusedExactlyWhen | research/flow_forecast/model.py:209-248 | Learning is refused exactly without a fixed training branch, with more than 4096 contexts, or with more than 128 tokens in one. |
| Learned.BranchIsObserved | research/flow_forecast/model.py:219-236 | A branch is observed step by step, each step in the context of the state before it, up to and with the first unknown one, and then, if there was none, by how it ended. |
| Learned.SelectedAre | research/flow_forecast/model.py:205-210 | Exactly the training branches drawn from the fixed distribution are learned from. |
| Routes.Extend | research/flow_forecast/model.py:75-84 | Paths are extended link by link from the paths before the action, with the limit of 1024. |
| Routes.ExtendedAre | research/flow_forecast/model.py:75-84 | After an operation an object has the paths it had and, for every link to it, each path its left end had before, one step longer with the operation's offset, the link's relation and the reached kind; no other. |
| Routes.ReportedIsFaithful | research/flow_forecast/model.py:60-67 | The found paths are the nonempty ones of any object; the reported routes are at most sixteen of them, none continues another, every found one is covered, and they reach a sink exactly when a found one does. |
| Routes.RiskCountsFoundPaths | research/flow_forecast/model.py:60-67 | Over object paths, a reported risk is to within 1e-12 the exact probability that some path found within the horizon reaches a sink, although only maximal paths are reported. |
| Ablation.Resolve | research/flow_forecast/ablations.py:37-47 | Replaying one candidate decides whether the removed information was needed on the way. |
| Ablation.Predict | research/flow_forecast/ablations.py:34-61 | The loop over candidates computes the ablated forecast. |
| Ablation.CandidatesReplay | research/flow_forecast/ablations.py:37-47 | Every candidate of a run can be replayed from its prefix. |
| Ablation.AblationKeepsBracket | research/flow_forecast/ablations.py:34-61 | An ablation of an answer is answered, moves mass only from outcomes to unknown, keeps the total and the exact risk inside its wider bracket, and a risk that remains is exact to 1e-12. |
| Attribution.TakesOutWhatLacks | research/flow_forecast/ablations.py:37-55 | Unknown grows by the mass of exactly those candidates with a linked action, or an action ambiguous in the state it is taken in, on their way; every outcome keeps the mass of the others with its routes. |
| Authority.StepInv | tooluseproxy/authority_state.py:222-294 | Every read, lock, unlock, publication and crash keeps the invariant tying locks, knowledge, history and admissions together. |
| Authority.Safety | tooluseproxy/authority_state.py:222-294 | The invariant holds in every reachable state of any number of clients and administrators. |
| Authority.DrainSafety | tooluseproxy/authority_state.py:222-294 | While the record is inactive nobody is admitted; while it is active everyone admitted holds the lease and observed exactly the current record. That an undisturbed client is admitted is Admission.ClientOutcome. |
| Authority.AdmittedOnlyShrinks | tooluseproxy/authority_state.py:279-294 | Once the record is not active no step admits anyone new. |
| Authority.OneLineOfHistory | tooluseproxy/authority_state.py:239-294 | A record once enrolled never becomes absent, publications only append, every published record passes the decoder's action and phase check, and no generation has two successors. |
| Authority.HistoryExtends | tooluseproxy/authority_state.py:184-204 | Over any further run the line of publications is only extended. |
| Authority.ActsOnExpected | tooluseproxy/authority_state.py:250-291 | A publication acts on the generation its request expects, or completes the announcement of the same call; activation and completion find no lease held. |
| Authority.ActsOnReviewed | tooluseproxy/authority_admin.py:76-115 | A reviewed request, applied however much later, acts only on exactly the record reviewed or looks up a completed result of its own operation. |
| Authority.CallOutcome | tooluseproxy/authority_state.py:239-294 | An undisturbed call ends with exactly the record its branch promises and leaves no lock behind. |
| Admission.BypassIsNeverActive | tooluseproxy/authority_state.py:222-231 | In every reachable state a client working without a lease has read no record, or a published one that was not active. |
| Admission.ClientOutcome | tooluseproxy/authority_state.py:222-237 | An undisturbed client ends admitted, in the shared lease and with exactly the current record, when it is active and no administrator holds the lease; without a lease otherwise. |
| Admission.OperationsAreNew | tooluseproxy/authority_state.py:258-291 | A publication carries another operation than the record it replaces, or completes that record's deactivation. |
| Admission.DecidedExactlyWhen | tooluseproxy/authority_state.py:250-270 | For every record that decodes, each verdict on a request with its exact condition; a second conflict test in the source never decides anything. |
| Admission.RepeatChangesNothing | tooluseproxy/authority_state.py:260-267 | A request repeated by anyone after its undisturbed call changes nothing, and once it took effect is answered with the record it left. |
| Admission.GivesUp | tooluseproxy/authority_state.py:205-220 | A client that leaves gives up exactly its lease, a crashed administrator exactly its locks. |
| Admission.DrainFinishes | tooluseproxy/authority_state.py:282-294 | A deactivation that could not drain becomes inactive when it is asked for again once everyone who held a lease has left. |
| Admission.Reviewable | tooluseproxy/authority_admin.py:84-93 | Which actions can be reviewed in which phase, and no others. |
| Admission.ReviewedOutcome | tooluseproxy/authority_admin.py:76-115 | What an undisturbed reviewed request leaves for each action, with and without a lease held. |
| Limits.WithinLimits | research/flow_forecast/computation_contract.py:137-143 | The worklist passes exactly the trees of at most 2048 nodes, none deeper than 32. |
| Checker.Targets | research/flow_forecast/computation_contract.py:101-104 | The targets of an assignment are checked left to right, each seeing the names before it. |
| Checker.Statements | research/flow_forecast/computation_contract.py:96-129 | The loop over statements computes the verdict and the definite names that Definite.AcceptedExactlyWhen and Definite.DefiniteIs describe by paths: nothing from loop bodies, the intersection from branches. |
| Checker.ValidateProgram | research/flow_forecast/computation_contract.py:132-145 | Accepted exactly when within the limits, in the language, and `result` is definite from `source` alone, as Definite.ValidExactlyWhen spells out by paths. |
| Checker.BlockIsClosed | research/flow_forecast/computation_contract.py:22-129 | Accepted code reads only bound names or calls builtins, and binds no builtin, `source` or wrapper name. |
| Definite.DefiniteIs | research/flow_forecast/computation_contract.py:96-129 | A name is counted as bound after a block exactly when it was before or every path through the block binds it, one branch of each conditional taken and loops passed over. |
| Definite.AcceptedExactlyWhen | research/flow_forecast/computation_contract.py:35-129 | A block is accepted exactly when its syntax is permitted and on every path through or into it each name read was bound before. |
| Definite.ValidExactlyWhen | research/flow_forecast/computation_contract.py:132-145 | A program is accepted exactly when that holds from `source` alone and every path through it binds `result`. |
| Soundness.ExecSound | research/flow_forecast/computation_contract.py:35-129 | Closed statements run identically in two ambient environments that agree on the builtins, and never hit an unbound name when no read is hidden. |
| Growth.ExecGrows | research/flow_forecast/computation_contract.py:96-129 | Running statements only adds or overwrites names they store, and a normal finish has bound everything counted as definite, through zero-iteration loops, break, continue and branches. |
| Exactness.BlockGoes | research/flow_forecast/computation_contract.py:85-93 | With generator expressions run where they are made, a script drives closed code into its first reachable hidden read, or past all of it when there is none. |
| ClosedComputation.AmbientIndependence | research/flow_forecast/computation_contract.py:14-16 | Every run of an accepted program has the same outcome, failures included, in any two environments that agree on the five builtins. |
| ClosedComputation.NeverUnbound | research/flow_forecast/computation_contract.py:35-129 | An accepted program without a hidden read never reads an unbound name, on any machine. |
| ClosedComputation.FinishedRun | research/flow_forecast/computation_contract.py:96-145 | A finished run finished normally, has bound `result`, left `source` alone and bound no builtin or wrapper name. |
| ClosedComputation.UnboundExactlyWhenHidden | research/flow_forecast/computation_contract.py:85-93 | Among accepted programs that consume every generator expression where it is made, those that never read an unbound name are exactly those without a reachable hidden read. |
| ClosedComputation.ShadowedTarget | research/flow_forecast/computation_contract.py:85-93 | A concrete program is accepted and still reads an unbound name. |
| ClosedComputation.StoredGenerator | research/flow_forecast/computation_contract.py:85-93 | A program that only stores a generator expression is accepted and has a hidden read, while what making it runs, its first iterable, never meets an unbound name: why the exact condition asks for consumption. |
| SingleFunction.Inspect | research/flow_forecast/mbpp_contract.py:24-90 | Reports exactly the admissible functions, with the builtins they call. |
| SingleFunction.ArgumentsAreTheOnlyInputs | research/flow_forecast/mbpp_contract.py:51-83 | A call of an admitted function depends on its arguments and the reported builtins only, failures included. |
| FlatPass.BlockPasses | research/flow_forecast/mbpp_contract.py:44-83 | Recursion over the syntax admits a block exactly when every node of it, in any order, passes a rule of its own; it reports what the nodes call and counts as bound what they assign. |
| FlatPass.InspectedNodeByNode | research/flow_forecast/mbpp_contract.py:36-83 | The verdict and report on a function told node by node. |
| Layering.AssignDepths | docs/exhibition/graph.js:65-66 | Relaxing in place and stopping at the first unchanged pass equals making as many passes as there are nodes. |
| Layering.DepthIsLongestChain | docs/exhibition/graph.js:65-66 | Without a cycle the depth of every node is the length of the longest chain that ends in it. |
| Layering.CapNeverBlocks | docs/exhibition/graph.js:66 | Without a cycle the depth cap never stops an edge, since no chain has more nodes than the graph. |
| Layering.ArrowsPointDown | docs/exhibition/graph.js:66 | Every arrow points strictly down if and only if the edges have no cycle. |
| Layering.DepthsAreBounded | docs/exhibition/graph.js:66 | Cyclic or not, depths stay below the number of nodes and each is the length of a real chain. |
| Layering.Place | docs/exhibition/graph.js:67 | Each node gets the next free lane of its depth. |
| Layering.Canvas | docs/exhibition/graph.js:68 | Width and height are the least that cover every lane and depth, from 320 by 180. |
| Layering.BoxesAreApart | docs/exhibition/graph.js:67-72 | Boxes of different nodes never overlap. |
| Layering.BoxesFit | docs/exhibition/graph.js:67-72 | A box lies within a canvas of that size. |
| Layering.Draw | docs/exhibition/graph.js:64-72 | Every node has a box at its depth, no two overlap, and all fit the canvas. |
| Traversal.Follow | tooluseproxy/graph_view.py:81-88 | The links of one revision are all recorded, or cut exactly when they exceed the edge limit; of those recorded, the parents not yet seen are queued in order; the row limit never cuts first. |
| Traversal.GraphSnapshot | tooluseproxy/graph_view.py:47-90 | The loop computes the walk; returned nodes are distinct, within the limit and reachable; edges join returned nodes; an untruncated picture is exactly the ancestor closure with all its links; and the truncated flag is fully determined. |
| Traversal.FullAtLimit | tooluseproxy/graph_view.py:49-90 | A closure with exactly as many revisions as the limit is drawn in full, and is called truncated if and only if a link to a later node is recorded after the first link that names the last node. |
| Traversal.TruncatedExactlyWhen | tooluseproxy/graph_view.py:49-90 | For every table and limit the picture is called complete if and only if start lies in a parent-closed list with all rows and at most 400 links that is smaller than the limit, or as large with nothing queued behind the last node. |
| Traversal.FalseAlarm | tooluseproxy/graph_view.py:49-90 | Three revisions, the last reached twice, limit three: drawn completely and called truncated. |
| Traversal.AllLinksAre | tooluseproxy/graph_view.py:81-88 | The links of a list of nodes are exactly the pairs the table holds for them. |
| BreadthFirst.SnapIsBreadthFirst | tooluseproxy/graph_view.py:49-90 | For every table and limit, rows missing and links cut or not: revisions queue in the order of the recorded links that first name them, the queue is taken up to the limit, those with a row are drawn where they first appear with the first 400 of their links among them, and the picture is truncated exactly when something waits, lacks a row or was cut. |
| Lineage.PrefixFromStructure | research/flow_forecast/runtime_worker.py:18-52 | A prefix is built exactly for the supported structures: schema, at most 90 usable rows, no path protected twice, identifiers, at most 256 objects. |
| Lineage.WholeIsValid | legacy/v0.1/hook_monitor/evaluation/flow_forecast/prefix.py:94-134 | The prefix constructor accepts what the loop built exactly when no path is protected twice and the objects fit: unique ids, inputs visible strictly before their step, every later object the output of one step. |
| Lineage.BuiltShape | research/flow_forecast/runtime_worker.py:27-48 | One object per protected path, per first use and per row. |
| Lineage.BuiltKinds | research/flow_forecast/runtime_worker.py:27-48 | Objects of protected paths are sources, first uses files, and the output of row i is a file when it copies and bytes when it reads, first seen at i; step i takes the current object of its source and gives its output. |
| Lineage.BuiltSimulates | research/flow_forecast/runtime_worker.py:27-48 | For every path the content of q, and of no other path, flows into its current object exactly when path-copy semantics says the path holds q's content. |
| Lineage.ProtectedContent | research/flow_forecast/runtime_worker.py:27-48 | The same for one protected path and one current object, both directions. |
| Lineage.OutputContent | research/flow_forecast/runtime_worker.py:40-46 | The output of every row holds what its source held when the row ran, whatever follows. |
| CandidateIndex.Index.constructor | research/provenance_candidates.py:46-79 | The update loop brings both tables to the specified state and counts every term of completed calls. |
| CandidateIndex.Write | research/provenance_candidates.py:65-79 | Skipping, moving or rewriting a document all end in the same tables as always rewriting it. |
| CandidateIndex.UpdateRefines | research/provenance_candidates.py:58-79 | From any consistent index every completed call's search row ends with its current terms and position. |
| CandidateIndex.OthersUntouched | research/provenance_candidates.py:58-79 | Rows of other scopes and of nodes no longer called stay as they were. |
| CandidateIndex.PutAllIsLatest | research/provenance_candidates.py:82 | The earlier calls are, per node, the latest completed one. |
| CandidateIndex.PutAllInOrder | research/provenance_candidates.py:82 | When every node is called once they are the completed calls in call order. |
| CandidateIndex.PriorAre | research/provenance_candidates.py:82 | A call is an earlier one exactly when it completed before the index and no later completed call before the index gave its node again. |
| CandidateIndex.AddRecent | research/provenance_candidates.py:89-90 | Exactly the last five earlier calls are recent. |
| CandidateIndex.AddObserved | research/provenance_candidates.py:91-96 | Every payload source is selected, or one of them is no earlier call. |
| CandidateIndex.AddOrigins | research/provenance_candidates.py:97-100 | Exactly the earlier calls that produced a used resource are selected for it. |
| CandidateIndex.Index.Select | research/provenance_candidates.py:81-116 | Selected calls are earlier completed ones in call order, each for exactly the reasons that apply, listed once for every time they apply and in the order recent, observed, produced, found; it fails exactly on a missing payload source; `exhaustive` holds exactly when nothing was dropped. |
| CandidateIndex.ChosenSize | research/provenance_candidates.py:111-115 | As many calls as there are were chosen exactly when all of them were. |
| CandidateIndex.FoundCallsShareATerm | research/provenance_candidates.py:101-110 | A call found by its terms precedes the index and really shares a term with the query. |
| Transport.AgendaTransport.PrepareStep | research/flow_forecast/agenda_transport.py:86-107 | Prepares exactly the expected call of the next step once every earlier step is complete, and otherwise changes nothing. |
| Transport.AgendaTransport.GuardStep | research/flow_forecast/agenda_transport.py:109-124 | Records one decision for exactly the prepared call, or changes nothing. |
| Transport.AgendaTransport.ExecuteStep | research/flow_forecast/agenda_transport.py:126-159 | Marks the step attempted before dispatch and complete only when everything matched; refuses unguarded, repeated and, in enforce mode, denied steps. |
| Transport.DispatchOrder | research/flow_forecast/agenda_transport.py:86-159 | In every run completed, attempted, decided and prepared are nested, at most one prepared step is incomplete, and the dispatched calls are a prefix of the fixed three-call script (told in words by DispatchedAre). |
| Transport.DispatchedAre | research/flow_forecast/agenda_transport.py:48-52 | In every run the first dispatched call is the addition, the second reads the public part in the public variant and everything in the other, the third sends the fixed body. |
| Transport.PrivateIsNeverAsked | research/flow_forecast/agenda_transport.py:90-94 | In the public variant no call that returns the private value is ever prepared, decided or dispatched. |
| Transport.FullRun | research/flow_forecast/agenda_transport.py:86-159 | Three well-formed steps, allowed or only observed, are all completed in both variants. |
| Transport.DispatchIsGuarded | research/flow_forecast/agenda_transport.py:109-130 | A dispatch is the first for its step and its exact call was decided before, allowed in enforce mode, and no other call was ever decided for that step. |
| Transport.BlockedForever | research/flow_forecast/agenda_transport.py:86-130 | After a denied step in enforce mode or an unconfirmed dispatch no later action changes anything. |
| Holdout.HoldoutLedger.Seal | research/flow_forecast/holdout.py:102-111 | Adds a sealed row, or rolls back with the first objection. |
| Holdout.HoldoutLedger.Reserve | research/flow_forecast/holdout.py:113-132 | Opens a sealed row for a new run, or rolls back; a failed status read after the commit does not undo it. |
| Holdout.HoldoutLedger.Finish | research/flow_forecast/holdout.py:134-144 | Sets the report of the opened row of that run if it has none, or rolls back. |
| Holdout.HoldoutLedger.Retire | research/flow_forecast/holdout.py:146-155 | Retires a row not yet retired, or rolls back. |
| Holdout.RunEvolves | research/flow_forecast/holdout.py:81-155 | Over every sequence of calls, failed and rolled-back ones included, rows stay at most 1000, run ids unique, states only advance and reservations and reports are never replaced. |
| Holdout.ReservedOnce | research/flow_forecast/holdout.py:113-131 | No dataset is reserved twice and no run id reserves twice. |
| Holdout.ReportedOnce | research/flow_forecast/holdout.py:134-144 | A dataset gets one report at most, from the run that reserved it. |
| Holdout.RetiredForGood | research/flow_forecast/holdout.py:146-155 | After retirement every call on the dataset fails. |
| HoldoutHistory.EffectExactlyWhen | research/flow_forecast/holdout.py:102-155 | In every run a committed call takes effect exactly when it is well formed and due by the calls before it: sealed once, reserved once as sealed and not retired by an unused run, finished once by that run and not retired, retired once. |
| Holdout.ReadOnce | research/flow_forecast/compare_holdout.py:51-58 | However evaluations, failures and ledger calls interleave, no two evaluations both read the test partition of one dataset. |
| BlobStream.ReadBlobs | scripts/audit_public_source.py:230-262 | The loop over the payload equals taking one framed blob after another and requiring nothing left over. |
| BlobStream.ReadsExactlyFramed | scripts/audit_public_source.py:243-262 | A read succeeds with certain blobs if and only if the stream is a header line, those contents and a newline for each request, with nothing else. |
| BlobStream.FramedReadsBack | scripts/audit_public_source.py:243-262 | Any contents, newlines and header-like text included, are recovered exactly. |
| BlobStream.RoundTrip | scripts/audit_public_source.py:230-262 | The stream git writes for any blobs reads back as those blobs. |
| Checksums.ReadChecksums | scripts/build_release_candidate.py:671-691 | Accepts exactly ASCII text whose lines are well formed, of distinct names in order, and returns them. |
| Checksums.ReadsBackExactlyClean | scripts/build_release_candidate.py:658-691 | Reading what was written returns the same entries if and only if there is a file and no name contains a line separator or is refused as a file name. |
| Planning.MakePlan | research/flow_forecast/collection_plan.py:11-49 | Planned exactly when one root with its controls fits; batches hold as many roots as both limits allow and each stratum uses the fewest batches covering it. |
| Planning.CapacityIsExact | research/flow_forecast/collection_plan.py:22-24 | The computed capacity is exactly the number of attempts that fit both limits. |
| Planning.EveryBatchFits | research/flow_forecast/collection_plan.py:25-38 | Every batch with its controls, the partial last one included, fits both limits. |
| Comparison.Match | research/flow_forecast/comparison.py:43-56 | Matched rows are grouped by root; every one is paired or missing a score, unless two describe different cases. |
| Comparison.PairedImprovement | research/flow_forecast/comparison.py:34-65 | Paired plus omitted rows are all ids of either side; each root difference is a weighted mean between -1 and 1; the coverage lies between 0 and 1; refused exactly on duplicates, size or mismatched cases. |
| Comparison.SwapNegates | research/flow_forecast/comparison.py:34-65 | Exchanging the two sides of a comparison is refused alike, keeps counts and coverage, and negates every root difference. |
| Comparison.CloserIsPositive | research/flow_forecast/comparison.py:43-58 | A root all of whose scored rows are strictly closer to the truth on the candidate's side, or have the larger edge F1 there, has a positive difference. |
| Comparison.DifferenceIsMean | research/flow_forecast/comparison.py:43-58 | Every root difference is the weighted mean improvement of exactly its matched rows with both scores. |

## Left out

- Generate.Generate: the types of the request, the digests and versions in the record, the checks that routes refer to visible objects within the horizon, and the sorted presentation order of outcomes; floating-point rounding.
- Guarantees.RiskIsExact: floats are reals, so 1e-12 is not compared against rounding error.
- Fit.Fit: the budget callback, the order in which contexts are presented, and the training digest.
- Fit.FittedIsNormalised: the constructor's limits of 10000 training roots and of 16384 characters per context key are not part of Accepted; a larger training set is refused there.
- Ablation.Predict: the one-operation variant, which only relabels a forecast of horizon 1.
- Routes.Extend: paths are sets; the sorted tuples that present them, and the initial paths taken from observed lineage, are not modelled.
- ClosedComputation.AmbientIndependence: primitive operations do not look at the ambient environment themselves; that is the assumption of unmodified builtins the source states.
- ClosedComputation.UnboundExactlyWhenHidden: says nothing about generator expressions that are not consumed where they are made, such as stored ones; the machine runs them at once, Python later or never.
- Exactness.BlockGoes: runs generator expressions where they are made, which is not what Python does with stored ones.
- Checker.ValidateProgram: parsing, the byte limit and the report; the shape of the tree and the statements are two inputs.
- SingleFunction.Inspect: parsing; the pass over the collected nodes with its parent map is written as recursion over the syntax, a bare return is a return of None, and the reported list of methods is not modelled.
- Authority.Safety: files, permissions, crashes inside the atomic replacement, and identifiers; a new generation is one never drawn before.
- Authority.ActsOnReviewed: confirmation text, deadline and the identity of directories, which can only refuse.
- Layering.Draw: everything drawn besides boxes; the rest of the page.
- Traversal.GraphSnapshot: the queries that find the start and the fields of a node other than its revision.
- Lineage.PrefixFromStructure: digests of output numbers are taken to differ from each other and from every path; the remaining fields of the prefix are constants.
- CandidateIndex.Index.Select: the choice of the at most 64 rarest terms and the ranking of the search are parameters; of the search only what its statement guarantees is used. The extraction of terms is abstract.
- Transport.AgendaTransport.ExecuteStep: containers, networks, receipts and observations are one answer each; guard receipts themselves are not kept.
- Holdout.HoldoutLedger.Reserve: timestamps and the database file; a commit succeeds or fails as a whole.
- Holdout.ReadOnce: the computation of the plan and of the report.
- BlobStream.ReadBlobs: running git; blobs are returned together instead of one by one.
- Checksums.ReadChecksums: hashing, and the sorting of directory entries, which come in name order.
- Comparison.PairedImprovement: the confidence interval; the ids come as the sequence that sorting returns.
- The message, ticket and reference-function transports, collectors, importers and evidence readers repeat the agenda versions.
- Servers, plan providers, probes, build scripts and the browser code besides the drawing are not part of this model.
