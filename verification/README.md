# Netlist locking and the SAT attack: a verified model

This project models a repository that locks gate-level netlists with key gates and
attacks the locked netlists with an oracle and a SAT solver, and proves what the two
sides rely on.

**The attack.** A netlist (`Netlist`) is compiled to clauses (`GateClauses`,
`CktCompiler`), doubled into a comparator circuit (`DoubleCkt`), and the stored clauses
(`ClauseLists`) are partially evaluated with fresh variables for every observed
input/output pair (`Rewriting`, `Recording`). `AttackState` says what the two solvers
know after any number of pairs; `Attack`, `KeyEnumeration` and `FixedKeys` are the loop,
the enumeration of further keys and the backbone query on top of it. SAT solving itself
is an oracle with a contract (`SatSolver`). The main results: recording a pair is an exact
projection to the keys; the loop ends within two to the number of key bits rounds; and
when no distinguishing input exists, every key still accepted is correct.

**The three-valued attack.** `Ternary` and `TernaryClauses` are the two-bit encodings,
`SplitGates` cuts wide gates, `TernaryMiter` and `TvSolver` are the attack on one or two
key bits. `CegSolver` and `CegCircuit` are the loop for exists/forall queries.

**Changing netlists.** `GateAlgebra`, `ConstProp` and `KeyRewrite` fix key bits and clean
up, with the pass over buffers in `BufferPass`. `TopoSort` and `DependMaps` sort a netlist
and find what depends on what; `Slice` cuts out what some outputs depend on. `Splice` and
`Locking` say what it means that a key gate behind a node locks a circuit, and that locks
compose; `Encoder` inserts and removes keys with backtracking, `KeyGates` and
`KeyEncoders` insert xor, and/or and multiplexer gates, with the cycle search of
`CycleCheck`. `Defense` is the stand-alone tool with its own netlist.

**Inside the SAT solver.** `PackedRows`, `Echelon`, `Gauss`: elimination of xor clauses,
with restart. `Vivify`: shortening clauses. `ClauseStacks`, `ClauseAlloc`,
`Consolidation`: the clause memory and its compaction. `VarHeap`: the indexed heap.
`MatrixFinder`, `CubeSimplify`, `Delist`: the division of xor clauses into matrices, cube
minimisation, and the deletable list.

## What was found

- A circuit output wired straight to a key input is replaced by a constant when a pair is
  recorded, so that key bit is never constrained. Recording is exact if and only if no
  output is a key input (`Recording.RecordsExactlyIff`, `Recording.KeyOutputUnseen`); the
  attack's theorems require that.
- `PackedRow::popcnt_is_one(from)` for the last bit of the last word reads the words of
  the variable-set row behind it and always answers no, so a pivot alone in that bit is
  not propagated (`PackedRows.PopcntIsOne`). Conflicts are still found exactly.
- The public `Heap::heapProperty()` starts at index 1 and so looks at the left half and
  its edge to the root only (`VarHeap.CheckFromRoot`). All operations do keep the whole
  order.
- The assertion in `consolidate` that another list is left never fails, given the
  eighteen-bit size field of clauses (`Consolidation.Suffices`).
- The assertion in the exists/forall loop that no clause is emptied can fail: when the
  output buffers an input of the second block, every counterexample empties a clause
  (`CegSolver.BufferAborts`). It can fail if and only if some clause consists of literals
  of the second block and the negated output only and there is a candidate
  (`CegSolver.AbortsIff`), and the answer then is no (`CegSolver.EmptiedLoses`).
- `rewrite_buffers` can meet its assertion on fanout lists, because gates are visited in
  file order (`BufferPass.OutOfOrderFails`). A pass fails if and only if it comes to a gate
  to be replaced that by then stands in for two nodes with a common reader, or for a node
  that lists a reader twice; what stands in for what follows from the wires and the order
  before the pass (`KeyRewrite.KeyCkt.RewriteBuffers`, `BufferPass.TrackStep`). A whole
  cleanup fails if and only if one of its rounds does; when no gate comes before one of
  its fanins, none does (`KeyRewrite.KeyCkt.Cleanup`).
- A slice also gets every other output of the original that the chosen ones depend on,
  though its comment says only the chosen ones (`Slice.BuildSlice`).
- `invert` has no complement for a multiplexer and fails there, and the random polarity of
  `recursiveEncode` can ask for one (`Encoder.EncCkt.RecursiveEncode`).
- `denseInsert` throws dice for the kind of gate and then always takes xor.

## Preconditions taken from the source

Circuits are acyclic and well formed; locked circuit and oracle have the same inputs and
outputs, at least one output, and a correct key exists; the circuit inputs are in node
order (as the input parser makes them), which the doubled circuit's input list relies on;
and no gate of the locked circuit carries the mark of gates added by doubling. Constant
propagation has no multiplexer case and removes one fanin occurrence, so it is stated for
circuits without multiplexers, with distinct fanins and two or more inputs on and/or-type
gates. Splitting asserts that there are no multiplexers, and the three-valued clauses need
two or more inputs on and-, nor- and xor-type gates; wide gates are split there. Circuits
compiled to two-valued clauses, the oracle among them, have xor and xnor gates of two
inputs, as the clause providers demand. A node is locked once per run of the
probability-based encoders, since the output flag of a locked node stays set. Binary and
ternary clauses and cached implications do not repeat a variable. In `Defense` nodes have
distinct names, and are identified by number.

## Model

| member | source | states |
|---|---|---|
| SatSolver.Solver.Solve | satattack/source/src/SATInterface.h:96-104 | the specified solving oracle: true exactly if the clauses added so far have a model with all assumptions, and then one is kept |
| GateClauses.MonotoneProvider | satattack/source/src/sat.h:34-159 | the clauses of and, or, nand, nor hold exactly if the output variable has the value of the gate function of its inputs, whatever their number |
| GateClauses.XorProvider | satattack/source/src/sat.h:160-220 | the same for two-input xor and xnor |
| GateClauses.MuxProvider | satattack/source/src/sat.h:222-259 | the same for the multiplexer |
| GateClauses.AddClauses | satattack/source/src/sat.h:28-259 | one provider per function: for the fanin counts the providers accept, the added clauses encode exactly that function |
| Netlist.ValuationUnique | satattack/source/src/sim.cpp:27-58 | in an acyclic circuit two valuations with the same inputs and keys are equal |
| Netlist.EvalExists | satattack/source/src/sim.cpp:27-58 | for all inputs and keys an acyclic circuit has exactly one valuation, however the nodes are ordered |
| CktCompiler.InitSolver | satattack/source/src/ckt.cpp:699-726 | the clauses added to a solver hold exactly at the valuations of the circuit; the literal of node i is variable i + 1 |
| CktCompiler.InitSolverAndList | satattack/source/src/ckt.cpp:933-970 | the same for solver and clause list at once, the list leaving out the gates that doubling added |
| CktCompiler.CompiledExactlyOneModel | satattack/source/src/ckt.cpp:699-726 | per choice of input and key bits the compiled clauses have exactly one model over the node variables, and it is the evaluation |
| Simulator.CktEval.Eval | satattack/source/src/sim.cpp:27-66 | the oracle simulation, done by solving under assumptions, returns the outputs of the circuit on the given inputs with its own keys at 0 |
| ClauseLists.ClauseList.AddClause | satattack/source/src/ClauseList.cpp:43-81 | the flat store then holds one clause more at its end, and the watch lists still list exactly the occurrences |
| ClauseLists.ClauseList.AddRewrittenClauses | satattack/source/src/ClauseList.cpp:113-248 | both overloads: the target solver gets exactly the stored clauses, renamed and partially evaluated, with one fresh variable for each variable met that is free and not flagged, and no others; the no-empty-clause assertion fails exactly if some clause is falsified |
| ClauseLists.RewriteClauses | satattack/source/src/ClauseList.cpp:113-177 | the loop over all clauses refines the recursive rewriting function, and reports how many it added |
| Rewriting.ExactProjection | satattack/source/src/ClauseList.cpp:113-177 | a model of the old variables extends to the fresh ones exactly if the flagged variables extend to a model of the original clauses that respects the fixed values |
| Rewriting.NothingFixedLeft | satattack/source/src/ClauseList.cpp:133-172 | no fixed variable is left in what is added: only fresh variables and flagged ones that are free |
| Rewriting.NoneFalsified | satattack/source/src/ClauseList.cpp:150-177 | if the fixed values occur in some model of the clauses, no clause becomes empty |
| DoubleCkt.BuildDouble | satattack/source/src/dbl.cpp:21-156 | the loops build a well-formed circuit with shared inputs, two copies of the keys and gates, one xor per output and one or over them |
| DoubleCkt.DoubleMeaning | satattack/source/src/dbl.cpp:21-156 | its valuations are exactly the pairs of valuations of the original that share the inputs, with the comparators set accordingly |
| DoubleCkt.DoubleCombine | satattack/source/src/dbl.cpp:21-89 | any two valuations with the same inputs are the two halves of one, whose comparator output is true exactly if some output differs |
| DoubleCkt.DoubleAcyclic | satattack/source/src/dbl.cpp:21-139 | doubling an acyclic circuit gives an acyclic circuit |
| DoubleCkt.DoubleCompilable | satattack/source/src/dbl.cpp:21-139 | if every gate of the circuit has a clause provider, so has every gate of the double |
| Recording.SurvivingKeys | satattack/source/src/solver.cpp:144-206 | a key assignment extends to the fresh variables of the clauses recorded for a pair exactly if the circuit under that key gives the recorded outputs on the recorded inputs |
| Recording.RecordPair | satattack/source/src/solver.cpp:193-206 | recording a realisable pair never meets an empty clause and restricts the solver by exactly that pair, for key A and, renamed, for key B |
| Recording.RecordsExactlyIff | satattack/source/src/solver.cpp:173-188 | recording constrains keys exactly for all pairs if and only if no output is wired straight to a key input |
| Recording.KeyOutputUnseen | satattack/source/src/solver.cpp:173-188 | a circuit with an output that is a key input: a wrong key survives every recorded pair |
| AttackState.CandInitially | satattack/source/src/solver.cpp:44-115 | before any pair the models of the candidate solver give all keys |
| AttackState.CexInitially | satattack/source/src/solver.cpp:44-115 | before any pair the models of the counterexample solver are the valuations of the doubled circuit |
| AttackState.CandRecords | satattack/source/src/solver.cpp:193-206 | after recording, the keys of the candidate solver are exactly those consistent with all pairs and not blocked |
| AttackState.CexRecords | satattack/source/src/solver.cpp:193-206 | after recording, key B of the counterexample solver ranges over exactly the consistent keys while key A stays free |
| AttackState.CandBlocks | satattack/source/src/solver.cpp:442-454 | a blocking clause takes exactly one key from the candidates |
| AttackState.QuerySatisfied | satattack/source/src/solver.cpp:216-250 | a model of the counterexample query shows an input on which two consistent keys disagree |
| AttackState.QueryRefuted | satattack/source/src/solver.cpp:227-237 | no model means that every consistent key agrees with the candidate on every input |
| AttackState.Progress | satattack/source/src/solver.cpp:271-325 | recording the oracle on a distinguishing input keeps every correct key and strictly shrinks the set of consistent keys |
| AttackState.NoDistinguisherSettles | satattack/source/src/solver.cpp:271-276 | if the candidate agrees with all consistent keys and some correct key is consistent, every consistent key is correct |
| Attack.SatAttack.constructor | satattack/source/src/solver.cpp:14-115 | both solvers, the literal maps, flags and the renaming start in the state the loop needs |
| Attack.SatAttack.RecordInputValues | satattack/source/src/solver.cpp:144-206 | appends the pair of the current input and the oracle outputs, and both solvers know exactly the longer list |
| Attack.SatAttack.GetDistinguishingInput | satattack/source/src/solver.cpp:210-251 | true with an input on which two consistent keys differ; false only when every consistent key is correct; the assertion that a candidate exists holds |
| Attack.SatAttack.AttackLoop | satattack/source/src/solver.cpp:270-325 | at most two to the number of key bits iterations; it stops unsettled exactly at the first iteration at which the decision or the time limit is exceeded, and otherwise ends settled; the number of pairs recorded is told |
| Attack.SatAttack.SolveV0 | satattack/source/src/solver.cpp:253-332 | the whole attack: when it reports success, no limit was exceeded, every key still accepted is correct and the extracted key, taken from a different later model, is a correct one; it gives up exactly when a limit is exceeded, and then the keys are those passed in |
| Attack.SatAttack.VerifySolutionSim | satattack/source/src/solver.cpp:462-511 | -1 exactly when no consistent key is left unblocked; otherwise the number of inputs on which the key tried for that input, some consistent unblocked key, differs from the oracle, and the first key tried is extracted; with no inputs no key is |
| Attack.SatAttack.BlockKey | satattack/source/src/solver.cpp:442-454 | exactly the given key is blocked from now on |
| Attack.SatAttack.GetNewKey | satattack/source/src/solver.cpp:456-460 | succeeds exactly if a correct key is not blocked yet, and extracts such a key |
| KeyEnumeration.FindKeys | satattack/source/src/sld.cpp:332-341 | the reported keys are correct and pairwise distinct, and when fewer than asked for are reported, they are all the correct keys |
| FixedKeys.FindFixedKeys | satattack/source/src/solver.cpp:1013-1089 | bit i is reported with value b exactly if every key consistent with the recorded pairs has b there |
| Ternary.ShadowApply | satattack/source/src/ternarysat.h:194-700 | the value bits of a three-valued gate are an ordinary evaluation of its function |
| Ternary.KnownApply | satattack/source/src/ternarysat.h:194-700 | if the X flag of a gate is false its value bit is the function value under every completion of the X inputs |
| Ternary.KnownExactly | satattack/source/src/ternarysat.h:194-720 | for every function the output is X exactly if some two completions of the X inputs give the function different values, so a controlling known input makes it known |
| Ternary.ShadowsAreValuation | satattack/source/src/ternarysat.h:194-700 | in a three-valued valuation of any circuit the value bits form an ordinary valuation |
| Ternary.KnownIsSound | satattack/source/src/ternarysat.h:194-700 | over any acyclic circuit a node whose X flag is false has its value bit under every completion of the X inputs |
| TernaryClauses.AddBuf | satattack/source/src/ternarysat.h:195-210 | the clauses for a three-valued buf hold exactly if flag and value bit of the output are those of the function, which is known exactly when it must be (Ternary.KnownExactly) |
| TernaryClauses.AddNot | satattack/source/src/ternarysat.h:213-228 | the clauses for a three-valued not hold exactly if flag and value bit of the output are those of the function, which is known exactly when it must be (Ternary.KnownExactly) |
| TernaryClauses.AddAnd | satattack/source/src/ternarysat.h:231-303 | the clauses for a three-valued and hold exactly if flag and value bit of the output are those of the function, which is known exactly when it must be (Ternary.KnownExactly) |
| TernaryClauses.AddNand | satattack/source/src/ternarysat.h:306-378 | the clauses for a three-valued nand hold exactly if flag and value bit of the output are those of the function, which is known exactly when it must be (Ternary.KnownExactly) |
| TernaryClauses.AddOr | satattack/source/src/ternarysat.h:381-453 | the clauses for a three-valued or hold exactly if flag and value bit of the output are those of the function, which is known exactly when it must be (Ternary.KnownExactly) |
| TernaryClauses.AddNor | satattack/source/src/ternarysat.h:456-528 | the clauses for a three-valued nor hold exactly if flag and value bit of the output are those of the function, which is known exactly when it must be (Ternary.KnownExactly) |
| TernaryClauses.AddXor | satattack/source/src/ternarysat.h:531-589 | the clauses for a three-valued xor hold exactly if flag and value bit of the output are those of the function, which is known exactly when it must be (Ternary.KnownExactly) |
| TernaryClauses.AddXnor | satattack/source/src/ternarysat.h:592-651 | the clauses for a three-valued xnor hold exactly if flag and value bit of the output are those of the function, which is known exactly when it must be (Ternary.KnownExactly) |
| TernaryClauses.AddMux | satattack/source/src/ternarysat.h:653-720 | the clauses for a three-valued mux hold exactly if flag and value bit of the output are those of the function, which is known exactly when it must be (Ternary.KnownExactly) |
| TernaryClauses.InitTernarySolver | satattack/source/src/ckt.cpp:798-825 | the models of the three-valued clauses are exactly the three-valued valuations of the circuit |
| SplitGates.SplitCkt.SplitBase | satattack/source/src/ckt.cpp:1206-1257 | one and, or or xor gate is cut in two: a two-input gate over the gates of its first and of its second half of inputs, or the input itself where a half is one input; every valuation of the old circuit extends uniquely to the new one |
| SplitGates.SplitCkt.SplitGate | satattack/source/src/ckt.cpp:1206-1257 | the gate ends with at most two inputs, an inverting one behind an inverter, a one-input or as a buffer; all other gates stay |
| SplitGates.SplitCkt.SplitGates | satattack/source/src/ckt.cpp:1196-1204 | ends although the list grows; every gate has at most two inputs, every original node keeps its three-valued value, the circuit stays acyclic, and the exact number of new gates is known |
| TernaryMiter.TDoubleMeaning | satattack/source/src/dbl.cpp:21-156 | three-valued valuations of the doubled circuit are pairs of those of the original with the comparators set accordingly |
| TernaryMiter.MiterKnownTrue | satattack/source/src/tvsolver.cpp:200-214 | the comparator is known to be true exactly if some output is known on both sides and differs |
| TernaryMiter.PinnedSideMatches | satattack/source/src/tvsolver.cpp:134-193 | a side whose known key bits agree with a key never contradicts the outputs of that key |
| TernaryMiter.NotBothMatch | satattack/source/src/tvsolver.cpp:230-232 | when the sides surely differ, not both match the oracle |
| TvSolver.TvSolver.InitAssumps | satattack/source/src/tvsolver.cpp:66-84 | the assumptions hold exactly if the one key bit is 0 on side A and 1 on side B and all other key bits are X |
| TvSolver.TvSolver.InitAssumpsGroup | satattack/source/src/tvsolver.cpp:86-110 | the same for a group of key bits with two values |
| TvSolver.TvSolver.ExtractInputs | satattack/source/src/tvsolver.cpp:112-132 | the input is the value bits of the circuit inputs in the model |
| TvSolver.TvSolver.CompareOutputs | satattack/source/src/tvsolver.cpp:134-193 | each side is judged correct exactly if no known output of it contradicts the oracle |
| TvSolver.TvSolver.Probe | satattack/source/src/tvsolver.cpp:210-232 | satisfiable exactly if some valuation isolates the keys; then never both sides are correct, and the side that has the value of a correct key is |
| TvSolver.TvSolver.SolveSingleKeys | satattack/source/src/tvsolver.cpp:195-242 | when a correct key exists the assertion that exactly one side matches holds, and it fails only on an isolating input where the oracle agrees with neither side; a bit is recorded exactly for the isolatable key inputs, it is the bit of the side the oracle agrees with, and it is that bit of every correct key |
| TvSolver.TvSolver.IsolateKeys | satattack/source/src/tvsolver.cpp:417-468 | if the values can be isolated, the value of each side is recorded exactly if the answer of the oracle on the isolating input found contradicts the side, and no correct key has such a value; at least one is recorded exactly if the values can be isolated |
| TvSolver.TvSolver.SolveDoubleKeys | satattack/source/src/tvsolver.cpp:470-487 | all recorded exclusions are right; for each isolatable pair of values some isolating input was tried and every value it refutes is recorded, at least one of the two |
| CegSolver.CegSolver.FindCandidate | satattack/source/src/CEGSolver.cpp:38-61 | a candidate first block allowed by all refutations so far, or none exists that wins |
| CegSolver.CegSolver.RecordCounterexample | satattack/source/src/CEGSolver.cpp:90-101 | the refuting second block excludes the current candidate; where the assertion fails, the answer is no and the query has a bare clause |
| CegSolver.CegSolver.Solve | satattack/source/src/CEGSolver.cpp:63-104 | true exactly if some first block makes the output true for all second blocks, with such a block as the solution; no only when no first block is left to try; the assertion fails exactly at a refuting model that empties a clause, none recorded before did, and then the answer is no; iterations and added clauses are counted exactly, and started afresh there are at most two to the number of first-block variables iterations and one more |
| CegSolver.EmptiedLoses | satattack/source/src/CEGSolver.cpp:90-101 | if partial evaluation empties a clause, no first block wins |
| CegSolver.EmptiedIff | satattack/source/src/CEGSolver.cpp:90-101 | some second block empties a clause if and only if some clause has only literals of the second block and the negated output, and is no tautology |
| CegSolver.AbortsIff | satattack/source/src/CEGSolver.cpp:90-101 | some run of the first round meets the failing assertion if and only if there is such a clause and a first block that can make the output true |
| CegSolver.BufferAborts | satattack/source/src/CEGSolver.cpp:90-101 | an input on which it fails: the output buffers an input of the second block, and every counterexample empties a clause |
| CegCircuit.CircuitIsFunctional | satattack/source/src/CEGSolver.cpp:63-104 | the clauses of a circuit with a side condition on the first block give exactly one play per pair of blocks |
| CegCircuit.AnswerAboutCircuit | satattack/source/src/CEGSolver.cpp:63-104 | for such queries the answer says whether some first block makes the node true under all second blocks |
| PackedRows.PopcntIsOne | satattack/source/cmsat-2.9.9/cmsat/PackedRow.h:118-129 | exactly when the rest of the row is zero and the bit is not the very last one of the last word; for that bit the words of the second row are read and the answer is no |
| PackedRows.ReducedSolves | satattack/source/cmsat-2.9.9/cmsat/Gaussian.cpp:250-292 | a row with the assigned columns taken out has the same solutions among the completions of the assignment |
| Echelon.SwapCore | satattack/source/cmsat-2.9.9/cmsat/Gaussian.cpp:506-525 | swapping rows below the stair keeps solutions, the link of each matrix row to its variable-set row, and the echelon shape so far |
| Echelon.XorCore | satattack/source/cmsat-2.9.9/cmsat/Gaussian.cpp:534-549 | so does adding the pivot row to a row below it |
| Echelon.BackSubstitute | satattack/source/cmsat-2.9.9/cmsat/Gaussian.cpp:688-714 | every echelon system without contradictory zero rows has a solution that completes the assignment |
| Echelon.InconsistentIff | satattack/source/cmsat-2.9.9/cmsat/Gaussian.cpp:688-714 | the system is inconsistent with the assignment exactly if some zero row has a true right-hand side |
| Echelon.SingleForces | satattack/source/cmsat-2.9.9/cmsat/Gaussian.cpp:843-892 | a row with one column left forces that variable |
| Gauss.Gaussian.UpdateMatrixCol | satattack/source/cmsat-2.9.9/cmsat/Gaussian.cpp:250-292 | takes one assigned column out of every row and marks exactly the rows that had it |
| Gauss.Gaussian.UpdateMatrixByColAll | satattack/source/cmsat-2.9.9/cmsat/Gaussian.cpp:294-341 | after it every assigned column is out, every row is its variable-set row reduced by the assignment, and the leftmost change is known |
| Gauss.Gaussian.UpdateLastOneInCol | satattack/source/cmsat-2.9.9/cmsat/Gaussian.cpp:343-347 | the row limits per column are valid for any matrix |
| Gauss.Gaussian.EliminateColumn | satattack/source/cmsat-2.9.9/cmsat/Gaussian.cpp:504-558 | one column: a pivot is found exactly if there is a one below the stair, and none is left below it |
| Gauss.Gaussian.Eliminate | satattack/source/cmsat-2.9.9/cmsat/Gaussian.cpp:436-594 | from a fresh matrix or restarted at the leftmost changed column: same solutions, echelon form, zero rows from the returned index on, and exactly the single-variable pivot rows marked from where it started, but for the last bit |
| Gauss.Gaussian.HandlePropAndConfl | satattack/source/cmsat-2.9.9/cmsat/Gaussian.cpp:688-735 | a conflict exactly if the system is inconsistent with the assignment; otherwise the zero rows are dropped without loss |
| Gauss.Gaussian.Run | satattack/source/cmsat-2.9.9/cmsat/Gaussian.cpp:349-434 | one round: conflict exactly if the rows contradict the assignment; every implied value holds in all completions; solutions are kept; on every call exactly the rows with a single variable left are reported, but for one in the last bit and for rows kept from before that had no variable set now; which rows are kept is told from the columns that got values |
| ConstProp.Netw.PropagateFanouts | satattack/source/src/node.cpp:260-303 | a gate fixed to a value passes it on to all its fanouts; no fanout reads it afterwards |
| ConstProp.Netw.ConstPropagate | satattack/source/src/node.cpp:233-305 | one input of known value is taken out of a gate, which becomes what is left of it; no node of its rank or less changes otherwise; valuations that have the value still satisfy all gates, and what became constant has the recorded value in all of them |
| ConstProp.Netw.PropagateInput | satattack/source/src/ckt.cpp:1783-1793 | fixing an input this way leaves exactly the valuations with that bit |
| ConstProp.InitFanouts | satattack/source/src/ckt.cpp:603-615 | fanout lists without repetition that mirror the fanins |
| KeyRewrite.KeyCkt.RemoveDeadKeys | satattack/source/src/ckt.cpp:1848-1862 | exactly the keys nobody reads leave the lists |
| KeyRewrite.KeyCkt.RemoveDeadGates | satattack/source/src/ckt.cpp:1864-1876 | exactly the gates that no one reads and that are no outputs leave the lists |
| KeyRewrite.KeyCkt.RewriteBuffers | satattack/source/src/ckt.cpp:1708-1747 | bypassing buffers and double inverters keeps all gates satisfied, and no listed buffer is read afterwards; with every gate listed once and true fanout lists, the assertion holds if and only if no replaced gate has a reader that reads two of the nodes it stands in for, told from the wires, fanout lists and gate order before the pass; with gates in order it always holds |
| KeyRewrite.KeyCkt.RewriteFanouts | satattack/source/src/ckt.cpp:1731-1744 | one bypass: the assertion holds exactly if every listed fanout reads the gate and is listed once; then all of them read the replacement, and no one the gate |
| BufferPass.TrackStep | satattack/source/src/ckt.cpp:1708-1747 | one visit of the pass fails exactly at a clash that is told from the wires before the pass, and otherwise every fanin and fanout list is what following the original wires says |
| BufferPass.StandInStep | satattack/source/src/ckt.cpp:1708-1747 | visiting a gate changes what is read in place of a node only where that gate was read, namely to its replacement |
| BufferPass.FirstPassStep | satattack/source/src/ckt.cpp:1708-1747 | with gates in order and lists as freshly made, the first pass never fails and passes no bypassed gate that is still read |
| BufferPass.LaterPassStep | satattack/source/src/ckt.cpp:1708-1747 | once no bypassable gate is read, further passes change nothing |
| BufferPass.OutOfOrderFails | satattack/source/src/ckt.cpp:1708-1747 | an input on which the assertion fails: a buffer of a buffer that is visited first, with a gate that reads both |
| KeyRewrite.KeyCkt.Cleanup | satattack/source/src/ckt.cpp:1795-1810 | the loop ends with what its rounds make of the netlist; exactly the keys nobody reads and the gates nobody reads that are no outputs are gone from the lists, and no constant gate and no read buffer is left; with every gate listed once and true fanout lists, the fanout assertion holds throughout if and only if no round has a clash, told round by round from the netlist before the loop; with gates in order it never fails and no read double inverter is left either |
| KeyRewrite.LiveAgree | satattack/source/src/ckt.cpp:1795-1810 | what is left determines itself: values of the gates in use follow from the inputs in use |
| KeyRewrite.KeyCkt.RewriteKeys | satattack/source/src/ckt.cpp:1749-1759 | unless propagation fixes an output, which is told exactly, the run completes if and only if no round of the cleanup has a clash, told from the netlist after propagation, and always with gates in order; then the outputs of the cleaned circuit are those of the original with the key bits substituted, for all inputs and remaining keys, the fixed keys are gone, and the lists have lost exactly the keys and gates nobody reads |
| KeyRewrite.StaysIfRead | satattack/source/src/ckt.cpp:1848-1876 | of the keys exactly those somebody reads are left in the lists, of the gates also the outputs |
| KeyRewrite.DeleteFromList | satattack/source/src/ckt.cpp:1878-1889 | the in-place compaction keeps exactly the others, in order |
| Splice.SpliceGate | satattack/source/src/node.cpp:51-71 | behind a splice every old gate holds exactly if it held before |
| Locking.SpliceLocks | satattack/source/src/ckt.cpp:1336-1387 | a key gate that gives back its node under a key bit makes the circuit, with that bit, behave exactly like the original |
| Locking.LocksTrans | satattack/source/src/toc13enc.cpp:84-106 | locks compose: key bits are appended and behaviours are neither lost nor gained |
| Encoder.EncCkt.AddKey | satattack/source/src/encoder.cpp:24-60 | the in-place edit gives the circuit with the key gate spliced in, all lists included; an inversion is asked for only where there is a complementary function |
| Encoder.EncCkt.RemoveKey | satattack/source/src/encoder.cpp:62-86 | removing right after adding restores arrays with their order, fanins, fanouts, functions and outputs |
| Encoder.RemoveUndoesAdd | satattack/source/src/encoder.cpp:24-86 | removal inverts insertion on every circuit where insertion is possible |
| Encoder.AddedLocks | satattack/source/src/encoder.cpp:24-60 | with key bit 0 the circuit behaves as before |
| Encoder.EncCkt.RecursiveEncode | satattack/source/src/encoder.cpp:186-235 | giving up leaves the netlist as it was, and at every eligible node an insertion was turned down or led nowhere; success means the wanted number of accepted insertions, each at the first node in turn that was not passed over, records that undo them all, and the original behaviour under the all-zero key; it stops for want of a complement only where a multiplexer comes next after accepted insertions |
| CycleCheck.CycleSearch.HasCycleMarks | satattack/source/src/ckt.cpp:2022-2037 | the three-colour search reports a cycle exactly if there is one, that is exactly if the gates cannot be ordered |
| CycleCheck.CycleSearch.CycleCheck | satattack/source/src/ckt.cpp:2039-2055 | one visit: a report means a cycle; otherwise the node and all below it are finished |
| CycleCheck.CycleNotOrderable | satattack/source/src/ckt.cpp:2022-2055 | a cycle rules out an order |
| CycleCheck.FinishedOrders | satattack/source/src/ckt.cpp:2022-2055 | the finishing order of a search without report is an order of the gates |
| KeyGates.LockCkt.CreateKeyInput | satattack/source/src/ckt.cpp:1278-1284 | a fresh key input at the end of all lists |
| KeyGates.LockCkt.RewriteFanoutsWith | satattack/source/src/node.cpp:51-59 | all fanouts of the node read the replacement, in both directions of the lists |
| KeyGates.LockCkt.Insert2InpKeyGate | satattack/source/src/ckt.cpp:1294-1311 | the in-place edit is the splice of an and or or gate |
| KeyGates.LockCkt.InsertKeyGate | satattack/source/src/ckt.cpp:1336-1387 | the in-place edit is the splice of an xor or xnor gate with the inversion the key bit asks for: of the gate function, or by an inverter behind an input |
| KeyGates.LockCkt.InsertMuxKeyGate | satattack/source/src/ckt.cpp:1313-1334 | the in-place edit is the splice of a multiplexer whose other input is open |
| KeyGates.LockCkt.GetBestOther | satattack/source/src/toc13enc.cpp:175-205 | of the nodes that close no cycle, the first with the greatest metric if that is positive; none only if no candidate has a positive one |
| KeyGates.MetricIsDiffering | satattack/source/src/toc13enc.cpp:197 | the metric is the probability that two independent bits with these probabilities differ |
| KeyGates.LockCkt.LockWithMux | satattack/source/src/toc13enc.cpp:141-158 | one round of the multiplexer encoder puts in a best other input that closes no cycle, keeps the circuit valid and acyclic and locks it with the key bit; it fails only if no candidate has a positive metric |
| KeyGates.AndOrLocks | satattack/source/src/ckt.cpp:1294-1311 | and with key bit 1, or with key bit 0: valid, acyclic, original behaviour |
| KeyGates.XorLocks | satattack/source/src/ckt.cpp:1376-1386 | xor or xnor with any key bit and the matching inversion: valid, acyclic, original behaviour |
| KeyGates.XorInvLocks | satattack/source/src/ckt.cpp:1355-1375 | the same where the node is an input and an inverter gate is needed |
| KeyGates.MuxLocks | satattack/source/src/ckt.cpp:1313-1334 | a multiplexer locks whatever its other input, if no cycle is closed |
| KeyEncoders.Toc13Enc.EncodeXors | satattack/source/src/toc13enc.cpp:234-246 | after any list of insertions the circuit is that of the insertions one after the other, valid and acyclic, with exactly the original behaviour under the recorded key values, and the key gates are xor or xnor as drawn |
| KeyEncoders.Toc13Enc.EncodeAndOrs | satattack/source/src/toc13enc.cpp:84-106 | the same for and/or gates; with the wrong key bit each gate changes its node exactly when the node has the more probable of its values |
| KeyEncoders.NoneCorruptsMore | satattack/source/src/toc13enc.cpp:89-101 | no other choice of gate and key bit corrupts the node with a greater probability |
| KeyEncoders.Toc13Enc.EncodeMuxes | satattack/source/src/toc13enc.cpp:137-162 | the same for multiplexers if every one finds another input; otherwise the round at which none could be chosen is told |
| KeyEncoders.EncodeStep | satattack/source/src/toc13enc.cpp:234-242 | one more key gate keeps the whole state of a run: validity, acyclicity, behaviour, and the targets still to come |
| ClauseStacks.CombineBits | satattack/source/cmsat-2.9.9/cmsat/ClauseAllocator.cpp:205-208 | packing stack number and position into one word and unpacking them are inverse |
| ClauseStacks.NoOverlap | satattack/source/cmsat-2.9.9/cmsat/ClauseAllocator.h:106-130 | no two clauses of a valid allocator overlap |
| ClauseAlloc.ClauseAllocator.FindStack | satattack/source/cmsat-2.9.9/cmsat/ClauseAllocator.cpp:121-170 | the first stack with room or a new one; it fails exactly if there are sixteen and none has room |
| ClauseAlloc.ClauseAllocator.ClauseNew | satattack/source/cmsat-2.9.9/cmsat/ClauseAllocator.cpp:74-82 | the clause stands at the returned place in a block of its own, every other clause is unchanged, and the words taken, those alive and the estimate grow by the words of the clause |
| ClauseAlloc.ClauseAllocator.GetOffset | satattack/source/cmsat-2.9.9/cmsat/ClauseAllocator.cpp:195-233 | looking up the offset of a pointer gives the pointer back, and the offset fits thirty bits |
| ClauseAlloc.ClauseAllocator.ClauseFree | satattack/source/cmsat-2.9.9/cmsat/ClauseAllocator.cpp:248-259 | only the freed mark changes; the words alive drop by the whole block, the estimate by the words the clause needs now |
| ClauseAlloc.ClauseAllocator.Shrink | satattack/source/cmsat-2.9.9/cmsat/Clause.h:128-134 | a clause that loses literals stays valid in its block |
| ClauseAlloc.ClauseAllocator.NewMaxSizes | satattack/source/cmsat-2.9.9/cmsat/ClauseAllocator.cpp:309-346 | sizes that cover the need with its margin; each list covers what those before leave, as far as one can, and is not less than half of the one before; it fails exactly if the need exceeds sixteen full lists |
| ClauseAlloc.ClauseAllocator.CollectClauses | satattack/source/cmsat-2.9.9/cmsat/ClauseAllocator.cpp:361-373 | exactly the clauses that are not freed, in order; the freed ones get the mark of no new place |
| ClauseAlloc.ClauseAllocator.PutClausesIntoDatastruct | satattack/source/cmsat-2.9.9/cmsat/ClauseAllocator.cpp:430-442 | the short clauses and the others, each once |
| ClauseAlloc.ClauseAllocator.CopyClauses | satattack/source/cmsat-2.9.9/cmsat/ClauseAllocator.cpp:377-402 | every clause is copied unchanged to an own block of the new lists, with a forwarding entry at its old place; the assertion that another list exists holds |
| ClauseAlloc.ClauseAllocator.Consolidate | satattack/source/cmsat-2.9.9/cmsat/ClauseAllocator.cpp:269-428 | nothing is done exactly if it is not forced, there are few stacks and more than seven tenths of the words taken are alive or lost in clauses freed after shrinking; failure exactly if sixteen lists are too few; otherwise exactly the clauses alive are moved, unchanged and without overlap, every held pointer and offset is translated, and the estimate is exact again |
| Consolidation.StepMoves | satattack/source/cmsat-2.9.9/cmsat/ClauseAllocator.cpp:393-401 | one copy touches no clause still to move and no clause already moved |
| Consolidation.Suffices | satattack/source/cmsat-2.9.9/cmsat/ClauseAllocator.cpp:389-392 | when a clause does not fit the current list there is another one, because the margin outweighs all that may be wasted |
| Consolidation.EstimateExact | satattack/source/cmsat-2.9.9/cmsat/ClauseAllocator.cpp:235-259 | the sum of the estimates exceeds the words of the clauses alive by exactly what clauses had lost to shrinking before they were freed |
| Consolidation.UnshrunkAlive | satattack/source/cmsat-2.9.9/cmsat/ClauseAllocator.cpp:279-299 | as long as no clause is shrunk, the test of consolidate is whether more than seven tenths of the words taken are alive and there are fewer than ten stacks |
| Vivify.Vivifier.MakeNonLearntBin | satattack/source/cmsat-2.9.9/cmsat/ClauseVivifier.cpp:339-346 | both halves of the binary clause lose the learnt flag, nothing else changes, and the two lists stay mirror images |
| Vivify.Vivifier.VisitWatch | satattack/source/cmsat-2.9.9/cmsat/ClauseVivifier.cpp:252-289 | one watch entry: a removed literal is resolved away against the clause as it is by then, and none the entry can remove is left; the clause counts as subsumed exactly if the watched clause is part of it, a ternary one only for long learnt clauses, and a problem clause then holds a binary clause of the problem |
| Vivify.Vivifier.ScanClause | satattack/source/cmsat-2.9.9/cmsat/ClauseVivifier.cpp:233-299 | what is left of the clause is implied by the problem, whatever literals went; it is subsumed exactly if some entry hits it, no entry can remove one of the literals left, and the time counted is that of the literals, watch lists and cached implications gone through |
| Vivify.HitIsPart | satattack/source/cmsat-2.9.9/cmsat/ClauseVivifier.cpp:254-284 | an entry hits a clause exactly if the clause it stands for is part of it, a ternary one only if the clause is learnt and long |
| Vivify.SpentIsResolved | satattack/source/cmsat-2.9.9/cmsat/ClauseVivifier.cpp:264-289 | an entry has nothing left to take away exactly if its clause resolves none of the literals left away |
| Vivify.DetachedTakes | satattack/source/cmsat-2.9.9/cmsat/Solver.cpp:787-801 | detaching a ternary clause takes one entry from the list of each of its literals and nothing else |
| Vivify.LongWatched | satattack/source/cmsat-2.9.9/cmsat/Solver.cpp:734-738 | a ternary clause added anew gets an entry in the list of each of its literals and nothing else |
| Vivify.Vivifier.AddClauseInt | satattack/source/cmsat-2.9.9/cmsat/Solver.cpp:516-569 | adding the shortened clause as a fact, binary, ternary or long clause means adding just that clause, with exactly the new watch entries |
| Vivify.Vivifier.VivifyOne | satattack/source/cmsat-2.9.9/cmsat/ClauseVivifier.cpp:233-321 | dropping or replacing one clause keeps the models of the problem exactly; which literals stay follows from the entries and cached implications gone through in order; the clause is dropped, kept as it is, or what is left of it is added anew |
| Vivify.Vivifier.VivifyClauses2 | satattack/source/cmsat-2.9.9/cmsat/ClauseVivifier.cpp:200-337 | the whole pass keeps the models of the problem exactly and keeps learnt clauses implied; every problem clause leaves a part of itself or is settled by a binary clause of the problem, a fact or being a tautology; every clause left is a part of an old one; it ends early exactly after a visit that began beyond the time limit or ended in a contradiction, the clauses not visited stay as they are, and none of the others contains or can be shortened by a binary clause there was at the start or a cached implication |
| Vivify.NeverCutShort | satattack/source/cmsat-2.9.9/cmsat/ClauseVivifier.cpp:206-232 | a time limit not below what clauses, watch lists and cache at the start add up to is never exceeded |
| Vivify.DropByBin | satattack/source/cmsat-2.9.9/cmsat/ClauseVivifier.cpp:285-298 | self-subsumption by a binary clause or cached implication is sound while the resolving literal is still there |
| Vivify.DropByTri | satattack/source/cmsat-2.9.9/cmsat/ClauseVivifier.cpp:264-272 | self-subsumption by a ternary clause is sound while both other literals are still there |
| Vivify.DropClause | satattack/source/cmsat-2.9.9/cmsat/ClauseVivifier.cpp:309-310 | a problem clause subsumed by a binary clause of the problem may go |
| VarHeap.Heap.PercolateUp | satattack/source/cmsat-2.9.9/cmsat/Heap.h:46-56 | the element rises to where its parent is not after it; with its children in order the heap is in order |
| VarHeap.Heap.PercolateDown | satattack/source/cmsat-2.9.9/cmsat/Heap.h:59-71 | the element sinks until the heap is in order from the given place on |
| VarHeap.Heap.Decrease | satattack/source/cmsat-2.9.9/cmsat/Heap.h:108-108 | repairs the heap after an element moved forward |
| VarHeap.Heap.Increase | satattack/source/cmsat-2.9.9/cmsat/Heap.h:111-111 | repairs the heap after an element moved back |
| VarHeap.Heap.Insert | satattack/source/cmsat-2.9.9/cmsat/Heap.h:114-122 | one element more, in order from the root, the index list still inverse |
| VarHeap.Heap.RemoveMin | satattack/source/cmsat-2.9.9/cmsat/Heap.h:125-134 | returns and removes an element that no other is before |
| VarHeap.Heap.Clear | satattack/source/cmsat-2.9.9/cmsat/Heap.h:137-146 | afterwards nothing is in the heap |
| VarHeap.Heap.Update | satattack/source/cmsat-2.9.9/cmsat/Heap.h:149-158 | inserts the element or repairs the heap after any change of its place |
| VarHeap.Heap.Filter | satattack/source/cmsat-2.9.9/cmsat/Heap.h:163-178 | keeps exactly the accepted elements and is in order again |
| VarHeap.KeyChanged | satattack/source/cmsat-2.9.9/cmsat/Heap.h:108-111 | changing the key of one element leaves the heap in the state the repairs expect |
| VarHeap.RootLeast | satattack/source/cmsat-2.9.9/cmsat/Heap.h:125-134 | the root is a minimum |
| VarHeap.CheckIsExact | satattack/source/cmsat-2.9.9/cmsat/Heap.h:74-76 | the recursive check finds exactly the disorder in its subtree |
| VarHeap.CheckFromRoot | satattack/source/cmsat-2.9.9/cmsat/Heap.h:182-183 | from index 0 the check means order; the public check starts at 1 and accepts a heap that is out of order on the right |
| TopoSort.SortedCkt.TopoSort | satattack/source/src/ckt.cpp:991-1019 | the loop ends on every acyclic circuit; afterwards both lists are rearrangements with fanins first, and the levels are those of the recursive definition |
| TopoSort.LevelIsLongestPath | satattack/source/src/ckt.cpp:991-1011 | from fresh levels the level of a node is the length of the longest path of fanins from it |
| TopoSort.SettledIsOrdered | satattack/source/src/ckt.cpp:997-1011 | levels at which the loop stops are an order of the gates, so it could not end on a cycle |
| DependMaps.InitKeymap | satattack/source/src/ckt.cpp:1021-1044 | the bit of a node and a key is set exactly if a path of fanins leads from the node to the key |
| DependMaps.InitOutputmap | satattack/source/src/ckt.cpp:1046-1066 | the bit of a node and an output is set exactly if a path of fanins leads from the output to the node |
| DependMaps.SortedKeymap | satattack/source/src/encoder.cpp:203-205 | sorting and then mapping gives that key map, whatever order the nodes were in |
| DependMaps.TopoSorted | satattack/source/src/ckt.cpp:1013-1019 | the sorted node list is one along which the maps can be filled in |
| DependMaps.KeymapSound | satattack/source/src/ckt.cpp:1021-1044 | two valuations that differ in one key bit agree on every node whose row lacks that key |
| DependMaps.Unaffected | satattack/source/src/ckt.cpp:1021-1044 | a change at a node reaches only the nodes that depend on it |
| Slice.ComputeFaninRecursive | satattack/source/src/ckt.cpp:1613-1625 | flags exactly what the node depends on in addition to what was flagged |
| Slice.BuildSlice | satattack/source/src/ckt.cpp:87-182 | the slice has exactly the nodes the chosen outputs depend on, connected as before, with inputs, keys and outputs in the original order |
| Slice.SliceDown | satattack/source/src/ckt.cpp:87-182 | every valuation of the original restricts to one of the slice |
| Slice.SliceUp | satattack/source/src/ckt.cpp:87-182 | every valuation of the slice extends to one of the original, with any values at the inputs left out |
| Defense.OutIsApply | defense.cpp:83-117 | counting ones agrees with the gate functions, so the order of fanins does not matter |
| Defense.BnNtk.InsertGate | defense.cpp:83-117 | moving the fanouts one occurrence at a time keeps fanins and fanouts mirror images with multiplicity and the netlist acyclic |
| Defense.BnNtk.AddPI | defense.cpp:72-80 | a free node at the end |
| Defense.InsertedAcyclic | defense.cpp:83-117 | a gate behind a node closes no cycle |
| Defense.RoundPreserves | defense.cpp:83-117 | under the right key bit every earlier node keeps its value on every input, and no value is lost |
| Defense.BnNtk.DenseInsert | defense.cpp:133-158 | the whole run keeps the lists, acyclicity and all earlier values under the all-zero key; the netlist is that of the insertions one after the other; before each round but the first the quota was at least 3, and the quota left is told exactly |
| Defense.BnNtk.TreeEncryption | defense.cpp:196-251 | the whole run keeps the lists, acyclicity and all earlier values under the keys of the gates the dice chose; the netlist is that of the insertions one after the other; before each round but the first the quota was at least 6, and an and or or gate takes 1 from it, an xor or xnor gate 3 |
| CubeSimplify.AllSatCkt.Simplify | satattack/source/src/allsatckt.cpp:197-241 | both versions: the remaining cube implies the output, is part of the one before, and no literal of it can be left out |
| CubeSimplify.AllSatCkt.InitCubeAndClause | satattack/source/src/allsatckt.cpp:243-251 | the clause excludes exactly the cube |
| CubeSimplify.PrimeIsMinimal | satattack/source/src/allsatckt.cpp:197-241 | no proper part of a prime cube, in any order, implies the output |
| MatrixFinder.Finder.FindMatrixes | satattack/source/cmsat-2.9.9/cmsat/MatrixFinder.cpp:103-133 | the table and the lists by class describe one division of the variables of the xor clauses, with numbers from 0 on |
| MatrixFinder.Finder.AddClause | satattack/source/cmsat-2.9.9/cmsat/MatrixFinder.cpp:105-130 | a clause that touches one class only joins it and takes no number; any other makes a new class, with the next number, of all the classes it touches |
| MatrixFinder.ClassesAreComponents | satattack/source/cmsat-2.9.9/cmsat/MatrixFinder.cpp:103-133 | two variables have the same class exactly if a chain of clauses connects them |
| MatrixFinder.Finder.SetMatrixes | satattack/source/cmsat-2.9.9/cmsat/MatrixFinder.cpp:157-184 | two clauses go to one matrix exactly if their variables are connected |
| Delist.DeList.Start | satattack/source/src/delist.cpp:42-51 | the first index that is not deleted |
| Delist.DeList.Next | satattack/source/src/delist.cpp:53-62 | the next index that is not deleted, also after deletions in the middle of the walk; shortened links stay right |
| Delist.DeList.Incr | satattack/source/src/delist.cpp:64-71 | the plain iterator goes to the same index |
| Delist.DeList.Walk | satattack/source/src/delist.cpp:42-81 | a whole walk with deletions on the way: both iterators visit the same indices, namely each that is not deleted when it is reached, and end together |

## Left out

- SAT solver internals: solving is an oracle that satisfies its contract by exhaustive search; clause simplification by the solver, freezing of variables, decision counts and time are not modelled (limits are parameters).
- Random choices (test vectors, key bits, kinds of gate, dice, nodes to lock) are parameters or left open; the loops over them are modelled.
- addKnownKeys, the attack by slices (solver.cpp:527-1011) and the approximate attack: the early exit of the latter promises no correct key and is taken as switched off.
- Command lines, files, parsing, printing, signals, timers, forking and threads; the linear programs of optenc.cpp; BDD cube search in allsatckt.cpp.
- Names: keys and nodes are addressed by position or number; key maps go from position to bit.
- CEGSolver: the number of clauses is the number added; a solver that simplifies its clauses away may report fewer.
- Gauss: saving and restoring matrices on backtracking, building conflict clauses, enqueueing, the choice of the column order and 16-bit widths; columns beyond the last variable count as assigned 0.
- KeyRewrite.KeyCkt.RewriteKeys: the model stops where propagation fixes an output, and where the assertion of rewrite_buffers fails; its exact condition starts from the circuit after propagation. Sorting and the sanity check after the loop are not called in this model.
- Upstream gates that become dead only because a fanout list was not updated may stay, as in the source.
- Encoder.EncCkt.RecursiveEncode: the test for bad insertions is a parameter; recursiveEncodeEx, randomInsertion, dumping and the limit on keys are left out, as are index and level fields.
- KeyGates: the third input of a fresh multiplexer is absent instead of a null pointer, and probabilities are given numbers.
- Choosing which nodes to lock by sorting metrics: the targets are a list without repetition.
- Clean-up after encoding is modelled by KeyRewrite only.
- TvSolver.TvSolver.SolveDoubleKeys: the pairs of keys to try (identify_keypairs) are given.
- Vivify.Vivifier.AddClauseInt: propagation of a new fact is not carried out, so facts that follow from it are not derived; sorting literals, glue, activities, literal counters and watches of long clauses are left out, and the assertion that a ternary watch is found is not claimed.
- ClauseAlloc.ClauseAllocator.Consolidate: one record per stack stands for the five parallel arrays; the ratio of words in use is compared in whole numbers instead of floating point; the reason array is treated like any other holder of offsets; freed memory is not reused.
- VarHeap: copying heaps.
- Defense: doublePIkey and notbuf2xor, which do not maintain the fanouts of keys; the sorting of nodes by degree (the order is given); names and the file format.
- ckt.cpp: k-cuts, observability, probabilities and equivalence checking; names in slices.
- FailedLitSearcher, the first pass of the clause vivifier, CSet and ldrparse.
