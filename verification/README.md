# Verified models of the formal tool chain and the stateful checkers

This project models the parts of the repository whose correctness other people rely on without seeing it:
the stages that take the core from a netlist to a proved property, the bit-manipulation and CRC units of the
ALU, and the checkers and state machines that run for a long time.

The formal tool chain, in the order a design passes through it:

1. `MuxNetlist`, `MuxTree`, `MuxTreeProofs`, `MuxTreePass`, `MuxTreeLoop`, `MuxTreeDeletion`, `MuxTreeTrails`,
   `MuxTreeTame`, `MuxTreeWorker`, `MuxTreeShared`, `MuxTreeShapes`, `MuxTreeLimits`: the multiplexer-tree
   optimiser. A netlist is a list of `$mux`/`$pmux` cells over bits; its meaning is the unique consistent valuation.
   `MuxTree` is the recursive evaluation as functions on values, `MuxTreeWorker` the same walk over mutable counters.
   One run changes no bit that anything outside the data ports reads if the module is eligible; the do-while loop of
   runs changes none if the module it starts from is tame, a condition on the netlist that every run keeps. A run
   deletes exactly the ports its evaluation did not enable, and enables only ports to which a trail of compatible
   selections leads. The last three modules say where the optimiser goes wrong, with necessary and sufficient
   conditions for the classes of modules they name.
2. `AigDesign`, `AigGraph`, `AigerBits`, `AigerLayout`, `AigerWriter`, `AigerMeaning`, `AigerMonitors`,
   `AigerRuns`, `AigerSections`, `AigerBinary`, `AigerBytes`: the AIGER writer. The memoised translation ends and
   succeeds exactly on bits with a finite, driven cone; the graph it writes has the same runs as the design, with
   and without zero initialisation; bad, constraint, justice and fairness outputs, at their places in the file, mean
   what the cells say, the last two over infinite runs; the gate section is what the format asks for and reads back.
3. `AigSelect`, `DesignProofs`, `AigSearch`, `BitVec`, `Strategy`, `StrategyNames`, `StrategyBuild`: selecting
   properties step by step and why that is sound, from the verdicts on the written graph to the assertions of the
   design; the `why` and `coi` searches, the sortedness check, and how the conductor builds and covers proof
   strategies.

The hardware and its checkers:

4. `Words`, `AluBitCount`, `AluButterfly`, `AluZbe`, `AluCrc`, `AluCrcConstants`: the prefix counter, the
   butterfly networks over two cycles and the two-cycle CRC, at any width that is a power of two and then at 32
   bits.
5. `CsrModel`, `PmpLocks`, `CsrRegisters`, `CsrAccesses`: the register model with its lock masks; what an access does
   to every bit, and that locks are permanent.
6. `MemCheck`, `MemVerdicts`, `MemRuns`: the check of simulator memory accesses against the design's, over runs.
7. `FreeList`: the free list of address slots.

`Flatten` holds facts about concatenating lists, `Options` a value that may be missing.

## Findings

Where the code does not keep a promise in every case, the code is modelled as it is and the condition under which
it does is proved.

- The optimiser numbers the controls of a cell by distinct bit, but looks the number up as a port number. A run on a
  module of one cell is right for every assignment if and only if the numbers are aligned with the ports
  (`MuxTreeLimits.OwnControlsExact`). All constants share one number, so the module of a cell with `S = [0, 0, w]`
  has an output that the run changes (`MuxTreeLimits.ConstantControlsBreak`).
- A multiplexer whose outputs feed two ports of one other multiplexer counts as used once. Known bits substituted
  for the first port then also reach the second. Where the user's outputs are read outside and the shared cell
  passes the control of one port on, any two assignments that select the two ports and that data show a bit read
  outside the data ports that the run changes (`MuxTreeShared.SharedBreaks`). For every shape of module two
  multiplexers deep whose controls are different undriven wires, the run is right for all data if and only if no
  multiplexer that is not a root feeds two ports (`MuxTreeShapes.SingleUseExact`).
- Both conditions can hold of a module and fail after the first round, because a multiplexer stops being a root when
  its other user is removed; then the second round changes what is read outside
  (`MuxTreeLimits.EligibleIsNotKept`). They hold in every round if no cell without tapped outputs leads to two ports
  of one other cell, directly or through untapped outputs of cells between, and a cell with several controls has
  different ones that no multiplexer drives (`MuxTreeTame.TameRound`, `MuxTreeTame.RoundsPreserve`).
- The completeness check of prove mode compares property names without their step. It is enough exactly when no
  assertion name is used in two steps (`AigSelect.NamesSuffice`, `AigSelect.NamesMayNotSuffice`). With proofs
  run step by step their verdicts are not looked at (`AigSelect.ProveMode`).
- Skipped assertions of earlier steps are still assumed. Skipping is harmless for every design if and only if no
  skipped assertion is in a step below one that is not skipped (`AigSelect.SkipExact`); otherwise there is a design
  on which every proof is safe and an assertion that is not skipped fails (`AigSelect.SkippingHides`).
- An address register stays locked by the lock bit of its region even when locking bypass is on, and by a
  following region in top-of-range mode even when that region is not locked (`PmpLocks.AddrStays`,
  `PmpLocks.AddrWritable`).
- A free slot returned in the cycle that grants the last free one is lost (`FreeLists.DropsExactly`).

## Model

| member | source | states |
|---|---|---|
| `MuxNetlist.ConsistentExists` | dv/formal/yosys_formal/opt_muxtree.cc:512-517 | an acyclic netlist has a consistent valuation for every choice of its undriven bits |
| `MuxNetlist.ConsistentUnique` | dv/formal/yosys_formal/opt_muxtree.cc:512-517 | and only one on the driven bits: the meaning of a module is well defined |
| `MuxTree.RerunShrinks` | dv/formal/yosys_formal/opt_muxtree.cc:205-221 | evaluating a waiting root makes no root impure, and makes another one pure or leaves fewer waiting: the rerun loop ends |
| `MuxTreeProofs.CoverMux` | dv/formal/yosys_formal/opt_muxtree.cc:421-474 | the walk enables the selected port of every multiplexer on the selected path it meets, or meets one already being visited, for any knowledge that holds |
| `MuxTreeProofs.FinalCovered` | dv/formal/yosys_formal/opt_muxtree.cc:205-221 | after all roots and reruns every root has the path it selects enabled, under every assignment |
| `MuxTreeProofs.ReachedEnabled` | dv/formal/yosys_formal/opt_muxtree.cc:319-373 | every multiplexer reached from outside along selected ports has its selected port enabled, cell-level cycles included |
| `MuxTreeProofs.ReplaceBitHolds` | dv/formal/yosys_formal/opt_muxtree.cc:375-419 | replacing a data bit by what is known of it keeps its value whenever the knowledge holds and own controls are aligned |
| `MuxTreeProofs.HoldsMux` | dv/formal/yosys_formal/opt_muxtree.cc:421-474 | evaluating a multiplexer keeps the values of all data bits on selected paths |
| `MuxTreeProofs.FinalHolds` | dv/formal/yosys_formal/opt_muxtree.cc:205-221 | so does the whole evaluation |
| `MuxTreePass.RunPreserves` | dv/formal/yosys_formal/opt_muxtree.cc:66-283 | one run keeps the value of every bit read outside the data ports of multiplexers, for every assignment with at most one active control per cell |
| `MuxTreeLoop.TrimmedUnique` | dv/formal/yosys_formal/opt_muxtree.cc:223-283 | after removing ports and cells every bit still has one driver |
| `MuxTreeTrails.RootsExact` | dv/formal/yosys_formal/opt_muxtree.cc:181-195 | the roots are the cells with an output bit read by a control or outside, or by the data ports of two cells; the first kind is pure from the start |
| `MuxTreeTrails.EnabledHasTrail` | dv/formal/yosys_formal/opt_muxtree.cc:319-373 | a port is enabled only if a trail leads to it: from a root, each cell feeding the port followed before it, past at most three more roots, and every port the one selected, or a possible one, given the controls taken active and inactive on the way |
| `MuxTreeTrails.PureReason` | dv/formal/yosys_formal/opt_muxtree.cc:342-347 | a root that is not read outside becomes pure only behind three other roots |
| `MuxTreeDeletion.RemovedExact` | dv/formal/yosys_formal/opt_muxtree.cc:223-246 | a completed run counts exactly the ports that are not enabled |
| `MuxTreeDeletion.RunLeaves` | dv/formal/yosys_formal/opt_muxtree.cc:223-283 | each cell with two enabled ports or more is left with exactly these, in order, the last as default; one with a single enabled port is a connection from it, one with none drives nothing; nothing else is left |
| `MuxTreeDeletion.GivenUpKeeps` | dv/formal/yosys_formal/opt_muxtree.cc:205-221 | a run that spends its budget counts nothing and keeps every cell with all its ports, known bits replaced |
| `MuxTreeDeletion.RootCosts` | dv/formal/yosys_formal/opt_muxtree.cc:421-425 | every evaluation of a root spends budget |
| `MuxTreeTrails.NothingRemoved` | dv/formal/yosys_formal/opt_muxtree.cc:508-520 | a run counts nothing if and only if it gave up or every port is enabled |
| `MuxTreeLoop.CanonicalSound` | dv/formal/yosys_formal/opt_muxtree.cc:248-251 | resolving the connections a run made keeps every value |
| `MuxTreeTame.TameEligible` | dv/formal/yosys_formal/opt_muxtree.cc:181-195 | a tame module is one a run is right on |
| `MuxTreeTame.TreesNeverRejoin` | dv/formal/yosys_formal/opt_muxtree.cc:181-195 | a module whose untapped outputs feed one data port for each cell, as in mux trees, never rejoins, whatever cycles its cells form |
| `MuxTreeTame.PathsKept` | dv/formal/yosys_formal/opt_muxtree.cc:223-283 | deleting ports and connecting through makes no new path: one from a cell to a port in the new module was one in the old |
| `MuxTreeTame.TameRound` | dv/formal/yosys_formal/opt_muxtree.cc:223-283 | a round, with its substitutions, deletions and connections resolved, keeps a module tame: no cell without tapped outputs leads to two ports of one cell |
| `MuxTreeTame.RoundsPreserve` | dv/formal/yosys_formal/opt_muxtree.cc:508-520 | from a tame module any number of rounds keeps what is read outside, and that no cell has two active controls |
| `MuxTreeLoop.RoundShrinks` | dv/formal/yosys_formal/opt_muxtree.cc:508-520 | every port counted as removed is gone after the round |
| `MuxTreeWorker.Worker.ReplaceKnownBits` | dv/formal/yosys_formal/opt_muxtree.cc:375-419 | the in-place substitution computes ReplaceKnown and touches one port only |
| `MuxTreeWorker.Worker.EvalMuxPort` | dv/formal/yosys_formal/opt_muxtree.cc:319-373 | one port: the new state is that of EvalPort and the counters and the visited set are as before |
| `MuxTreeWorker.Worker.EvalMux` | dv/formal/yosys_formal/opt_muxtree.cc:421-474 | one multiplexer: likewise, on every path that completes |
| `MuxTreeWorker.Worker.EvalRoots` | dv/formal/yosys_formal/opt_muxtree.cc:205-221 | all roots and reruns, with the abort counter: the state is FinalState |
| `MuxTreeWorker.Worker.DeleteDeadPorts` | dv/formal/yosys_formal/opt_muxtree.cc:223-283 | the number removed is that of the ports not enabled, and what is left of each cell is its enabled ports: a cell with them, a connection from the only one, or nothing |
| `MuxTreeWorker.RunModule` | dv/formal/yosys_formal/opt_muxtree.cc:512-517 | one round on one module |
| `MuxTreeWorker.Execute` | dv/formal/yosys_formal/opt_muxtree.cc:508-520 | the do-while loop ends with a round in which, unless it gave up, every port was enabled and so has a trail; from a tame module it returns one that reads the same outside for every assignment with at most one active control per cell |
| `MuxTreeShared.FixFinal` | dv/formal/yosys_formal/opt_muxtree.cc:319-373 | a control that the data of a fed cell reads is a constant once the evaluation completes |
| `MuxTreeShared.FrameFinal` | dv/formal/yosys_formal/opt_muxtree.cc:375-419 | substitution leaves wires that are no controls alone and treats equal bits of a port alike |
| `MuxTreeShared.SharedBreaks` | dv/formal/yosys_formal/opt_muxtree.cc:181-195 | where a cell that is not a root feeds two ports of a cell whose outputs are read outside, and passes the control of the first on, any two assignments that select the ports and that data show a bit read outside the data ports that the run changes |
| `MuxTreeShapes.ShallowCompletes` | dv/formal/yosys_formal/opt_muxtree.cc:205-221 | a module in which every fed cell is a leaf or read outside is evaluated completely within its cost |
| `MuxTreeShapes.SingleUseExact` | dv/formal/yosys_formal/opt_muxtree.cc:181-195 | for every shape two multiplexers deep with independent controls, the run is right for all data if and only if a cell that is not a root feeds one port |
| `MuxTreeLimits.OwnControlsExact` | dv/formal/yosys_formal/opt_muxtree.cc:381-397 | a run on a module of one cell is right for every assignment if and only if the numbers of its controls are aligned with the ports |
| `MuxTreeLimits.ConstantControlsBreak` | dv/formal/yosys_formal/opt_muxtree.cc:381-385 | two constant controls before the third make the run change the output of the module |
| `MuxTreeLimits.EligibleIsNotKept` | dv/formal/yosys_formal/opt_muxtree.cc:508-520 | an eligible module whose second round changes what is read outside |
| `AigDesign.LoopUngrounded` | dv/formal/yosys_formal/write_aiger.cc:96-110 | a stack that closes on itself runs around a combinational loop: none of its bits has a finite cone |
| `AigDesign.LongTrailCloses` | dv/formal/yosys_formal/write_aiger.cc:96-110 | a stack longer than the number of bits that can wait has met its next bit before, so a check that late finds the loop |
| `AigerBits.SoundGrounded` | dv/formal/yosys_formal/write_aiger.cc:88-141 | every bit in the memo has a finite, fully driven cone |
| `AigerWriting.AigerWriter.MkGate` | dv/formal/yosys_formal/write_aiger.cc:81-86 | gates are numbered contiguously after inputs and latches, the larger input first, both below the output |
| `AigerWriting.AigerWriter.CheckStack` | dv/formal/yosys_formal/write_aiger.cc:96-110 | fails only on a bit already on the stack |
| `AigerWriting.AigerWriter.BitToAig` | dv/formal/yosys_formal/write_aiger.cc:88-141 | ends, restores the stack, only extends memo and gates; fails only on bits without a finite, driven cone |
| `AigerWriting.AigerWriter.Translate` | dv/formal/yosys_formal/write_aiger.cc:88-141 | from an empty stack it succeeds if and only if the bit has a finite, fully driven cone |
| `AigerWriting.AigerWriter.NumberInitInputs` | dv/formal/yosys_formal/write_aiger.cc:388-396 | one extra input for each uninitialised flip-flop, in order |
| `AigerWriting.AigerWriter.NumberLatches` | dv/formal/yosys_formal/write_aiger.cc:404-412 | latches in order with their reset values |
| `AigerWriting.AigerWriter.ZeroInit` | dv/formal/yosys_formal/write_aiger.cc:430-446 | every flip-flop gets its inverted latch or its multiplexer of three gates |
| `AigerWriting.AigerWriter.CompileLatches` | dv/formal/yosys_formal/write_aiger.cc:448-455 | next literals of all latches, inverted where the latch is |
| `AigerWriting.AigerWriter.WriteBad` | dv/formal/yosys_formal/write_aiger.cc:477-482 | one bad output: not A and EN |
| `AigerWriting.AigerWriter.WriteConstraint` | dv/formal/yosys_formal/write_aiger.cc:489-494 | one constraint output: EN implies A |
| `AigerWriting.AigerWriter.WriteLive` | dv/formal/yosys_formal/write_aiger.cc:496-518 | one liveness circuit with its two latches and its justice output |
| `AigerWriting.AigerWriter.WriteFair` | dv/formal/yosys_formal/write_aiger.cc:520-534 | one fairness circuit with its latch and output |
| `AigerWriting.AigerWriter.Compile` | dv/formal/yosys_formal/write_aiger.cc:376-535 | the whole translation succeeds if and only if everything needed has a finite, driven cone, and then the graph is the translation of the design |
| `AigGraph.GateValue` | dv/formal/yosys_formal/write_aiger.cc:585-586 | one pass over ordered gates gives every gate the conjunction of its inputs |
| `AigerMeaning.MuxValue` | dv/formal/yosys_formal/write_aiger.cc:439-444 | the zero-initialisation multiplexer is the init input in the first cycle and the latch afterwards |
| `AigerMeaning.LocalEquation` | dv/formal/yosys_formal/write_aiger.cc:88-141 | whatever inputs and latches are, the graph satisfies the equation of every translated bit |
| `AigerMeaning.GraphRunsAreDesignRuns` | dv/formal/yosys_formal/write_aiger.cc:379-455 | every run of the graph, read through the literals, is a run of the design |
| `AigerMeaning.Follows` | dv/formal/yosys_formal/write_aiger.cc:88-141 | along the constructed run every literal has the value of its bit in every cycle |
| `AigerRuns.DesignRunsAreGraphRuns` | dv/formal/yosys_formal/write_aiger.cc:379-535 | every run of the design, with any choice of the liveness inputs, is a run of the graph |
| `AigerRuns.BadIsViolation` | dv/formal/yosys_formal/write_aiger.cc:477-494 | a counterexample of the file is one of the design: constraints and bad output hold exactly when the assumptions hold up to then and the assertion fails |
| `AigerRuns.ViolationIsBad` | dv/formal/yosys_formal/write_aiger.cc:477-494 | every violation of the design is found in the file |
| `AigerMonitors.JusticeStarves` | dv/formal/yosys_formal/write_aiger.cc:496-518 | if the justice literal holds infinitely often, some enabled cycle is never followed by A, in that cycle or later |
| `AigerMonitors.StarvedJustice` | dv/formal/yosys_formal/write_aiger.cc:496-518 | picking such a cycle makes the justice literal hold infinitely often |
| `AigerMonitors.FairExact` | dv/formal/yosys_formal/write_aiger.cc:520-534 | the fairness literal holds infinitely often if and only if every enabled cycle is followed by A |
| `AigerRuns.RecursIffFair` | dv/formal/yosys_formal/write_aiger.cc:520-534 | the same for the output in the file and the cells of the design |
| `AigerRuns.JusticeIsStarvation` | dv/formal/yosys_formal/write_aiger.cc:489-534 | a witness for a justice property under constraints and fairness is a run of the design that keeps assumptions and fairness and starves the property |
| `AigerRuns.StarvationIsJustice` | dv/formal/yosys_formal/write_aiger.cc:489-534 | and every such run is found |
| `AigerSections.SizesExact` | dv/formal/yosys_formal/write_aiger.cc:379-535 | how many inputs, latches and outputs the file has |
| `AigerSections.ResetExact` | dv/formal/yosys_formal/write_aiger.cc:404-412 | the reset of every latch: its initial value, 2 for none, 0 for those the writer adds |
| `AigerSections.InputExact` | dv/formal/yosys_formal/write_aiger.cc:379-386 | input k of the file is input k of the design |
| `AigerSections.OutputExact` | dv/formal/yosys_formal/write_aiger.cc:466-470 | output k of the design is output k of the file |
| `AigerSections.BadExact` | dv/formal/yosys_formal/write_aiger.cc:477-482 | after them bad bit k: assertion k is enabled and does not hold |
| `AigerSections.ConstraintExact` | dv/formal/yosys_formal/write_aiger.cc:489-494 | after them constraint k: assumption k holds where it is enabled |
| `AigerSections.CounterexampleExact` | dv/formal/yosys_formal/write_aiger.cc:477-494 | by position in the file: bad bit k holds with all constraints kept up to then exactly where the design violates assertion k with all assumptions kept |
| `AigerSections.JusticeExact` | dv/formal/yosys_formal/write_aiger.cc:496-518 | after them justice bit k: if it recurs, an enabled cycle of liveness property k is never followed |
| `AigerSections.FairnessExact` | dv/formal/yosys_formal/write_aiger.cc:520-534 | last fairness bit k: it recurs if and only if no enabled cycle of fairness property k is left waiting |
| `AigerBinary.VarintRoundTrip` | dv/formal/yosys_formal/write_aiger.cc:37-47 | a written number reads back and leaves the rest |
| `AigerBinary.AigerEncode` | dv/formal/yosys_formal/write_aiger.cc:37-47 | the loop appends the seven-bit groups of the number |
| `AigerBytes.VarintDigit` | dv/formal/yosys_formal/write_aiger.cc:37-47 | byte i of a number is digit i to the base 128, with the top bit set unless it is the last |
| `AigerBytes.VarintShortest` | dv/formal/yosys_formal/write_aiger.cc:37-47 | no byte is wasted |
| `AigerBinary.WriteGates` | dv/formal/yosys_formal/write_aiger.cc:611-619 | the section is the differences of ordered gates, none negative |
| `AigerBinary.GatesRoundTrip` | dv/formal/yosys_formal/write_aiger.cc:611-619 | the gate section reads back as the gates |
| `AigerBinary.ReadGatesOrdered` | dv/formal/yosys_formal/write_aiger.cc:611-619 | any section that reads at all describes ordered gates |
| `AigerBytes.GateBytesExact` | dv/formal/yosys_formal/write_aiger.cc:611-619 | gate i is written as 2(base+i+1) less its larger input and the difference of its inputs, a literal being twice its variable plus one when inverted; the section is the gates one after the other |
| `AigSelect.AigFile.Select` | dv/formal/aig-manip/src/main.rs:131-164 | the bads left are those of the properties of the step that are asked for, in order, covers negated; the constraints gain the negated assertions of earlier steps, in order, and nothing where no assumptions are wanted |
| `AigSelect.KeptExact` | dv/formal/aig-manip/src/main.rs:140-156 | what is kept, by index: the step, the name among those asked for or none asked for, and inverted for a cover |
| `AigSelect.AssumedExact` | dv/formal/aig-manip/src/main.rs:157-160 | what is assumed, by index: inverted assertions of earlier steps, none with no_assumes |
| `AigSelect.AssumptionsHold` | dv/formal/aig-manip/src/main.rs:157-160 | while the assertions of earlier steps have held, so have the constraints of the selected model |
| `AigSelect.StepHolds` | dv/formal/conductor.py:346-350 | with every assertion that is not skipped proved in its step, each holds for as long as the constraints and the skipped assertions of earlier steps do |
| `AigSelect.StepwiseSound` | dv/formal/conductor.py:346-350 | with nothing skipped, safe verdicts for all steps prove every assertion |
| `AigSelect.NamesSuffice` | dv/formal/conductor.py:646-655 | comparing names is enough when no name is used in two steps |
| `AigSelect.NamesMayNotSuffice` | dv/formal/conductor.py:646-655 | and not otherwise: proofs that pass the comparison and leave an assertion unproved |
| `AigSelect.FailureHides` | dv/formal/aig-manip/src/main.rs:157-160 | once an earlier assertion fails at the start, every later proof is safe on that trace |
| `AigSelect.SkippingHides` | dv/formal/aig-manip/src/main.rs:157-160 | a skipped assertion below one that is not skipped: a design on every run of which all proofs are safe and the latter fails |
| `AigSelect.SkipExact` | dv/formal/conductor.py:771-772 | skipping is harmless for every design if and only if no skipped assertion is in a step below one that is not skipped |
| `AigSelect.ProveMode` | dv/formal/conductor.py:627-674 | prove mode exits well exactly when the name comparison passes and, unless run by step, every stored proof of a step from the start on has exit code 20 |
| `AigSelect.FlattenExact` | dv/formal/conductor.py:629-644 | the proofs run are those stored for the steps from the start on |
| `AigSelect.FlattenOrder` | dv/formal/conductor.py:629-644 | and they are run in the order of the steps |
| `AigSelect.ProveModeSound` | dv/formal/conductor.py:627-674 | a complete run with checked verdicts proves every assertion that is not skipped, as long as the skipped ones of earlier steps hold |
| `DesignProofs.DesignProved` | dv/formal/conductor.py:346-350 | with a safe verdict on the written graph for a proof of every assertion that is not skipped, no run of the design that keeps its assumptions violates one before a skipped one of an earlier step |
| `DesignProofs.FlowProves` | dv/formal/conductor.py:627-674 | from the compiled design to a prove mode that exits well: no run of the design that keeps its assumptions violates an assertion that is not skipped |
| `BitVectors.BitVec.Set` | dv/formal/aig-manip/src/bitvec.rs:28-35 | changes one bit of the unpacked contents |
| `BitVectors.BitVec.Push` | dv/formal/aig-manip/src/bitvec.rs:37-44 | appends one bit; bits beyond the length stay clear |
| `BitVectors.BitVec.Get` | dv/formal/aig-manip/src/bitvec.rs:46-52 | reads the unpacked contents |
| `BitVectors.FromIter` | dv/formal/aig-manip/src/bitvec.rs:59-67 | collects the bits it is given |
| `AigSearch.CheckAig` | dv/formal/aig-manip/src/main.rs:414-433 | accepts exactly the files whose gates read declared nodes and earlier gates |
| `AigSearch.CheckedExact` | dv/formal/aig-manip/src/main.rs:414-433 | when inputs and latches are not gates, it accepts exactly the topologically sorted files that read declared nodes and gates only |
| `AigSearch.DeclaredGatePasses` | dv/formal/aig-manip/src/main.rs:414-433 | without that it may accept a file that is not sorted: a gate declared as an input may read itself |
| `AigSearch.PassUnique` | dv/formal/aig-manip/src/main.rs:413-433 | in a sorted graph one pass in order is the only consistent valuation with the given leaves |
| `AigSearch.Why` | dv/formal/aig-manip/src/main.rs:331-389 | reaches exactly the nodes its rule asks for; in a simulated step it finds exactly the named nodes at the ends of paths that go from a queried gate through any input and on through unnamed gates along literals that have the value of the gate |
| `AigSearch.ReachedExact` | dv/formal/aig-manip/src/main.rs:331-389 | a node is reached if and only if such a path leads to it, for why queries and, with any literal, for the cone of influence |
| `AigSearch.WhySufficient` | dv/formal/aig-manip/src/main.rs:331-389 | any consistent valuation that agrees on the named nodes found and the leaves reached gives the queried bits their simulated values |
| `AigSearch.Coi` | dv/formal/aig-manip/src/main.rs:266-294 | reaches exactly the cone down to named nodes, with edges remembered by polarity, and finds the named nodes at the ends of paths through unnamed gates |
| `AigSearch.CoiDetermines` | dv/formal/aig-manip/src/main.rs:266-294 | what it finds, with the leaves reached, determines the queried bits in every valuation |
| `Strategy.ChunksEmpty` | dv/formal/conductor.py:497-500 | only the empty name has no chunks |
| `StrategyNames.PiecesExact` | dv/formal/conductor.py:497-500 | a name is cut at every underscore, which is dropped, and before every capital that does not follow one; the pieces are what lies between the cuts |
| `StrategyNames.ChunksExact` | dv/formal/conductor.py:497-500 | the chunks are the pieces, without what precedes the first cut if that is empty |
| `Strategy.GroupProps` | dv/formal/conductor.py:502-517 | the grouping loops build the tree of Group |
| `Strategy.GroupPermutes` | dv/formal/conductor.py:502-517 | the tree holds every name as often as the list |
| `StrategyNames.GroupExact` | dv/formal/conductor.py:502-517 | the tree of a list has a leaf for each property whose chunks end, in order, and for each first chunk of the others one subtree: the tree of all those that go on after it, in order, without that chunk |
| `StrategyNames.SharedExact` | dv/formal/conductor.py:502-517 | two properties share a subtree if and only if both go on after the same first chunk |
| `Strategy.SplitByPrefixes` | dv/formal/conductor.py:496-520 | fails only on an empty name, and otherwise the tree is that of the chunked names and its leaves are a permutation of them |
| `StrategyBuild.BuildStrategyRec` | dv/formal/conductor.py:393-479 | the recursion ends and builds the strategy of Build for any outcome of the races |
| `StrategyBuild.WholeFirst` | dv/formal/conductor.py:444-479 | when the whole list is proved first the strategy is that one block, however the tree is nested, and the failures are those recorded by then |
| `StrategyBuild.PartsFirst` | dv/formal/conductor.py:453-475 | otherwise it is the strategies of the parts, one after the other |
| `StrategyBuild.PartsExact` | dv/formal/conductor.py:453-475 | the parts: leaves alone when there are only leaves, else each subtree, and all leaves together |
| `StrategyBuild.AloneExact` | dv/formal/conductor.py:422-439 | a property that is alone is a block, refuted, or recorded as a failure, by its verdict |
| `StrategyBuild.BuildAccounts` | dv/formal/conductor.py:393-479 | every leaf is covered, refuted or recorded as a failure; names are covered or refuted, and recorded, no more often than they are leaves |
| `StrategyBuild.BlocksDisjoint` | dv/formal/conductor.py:393-479 | with distinct names the blocks of a strategy are disjoint |
| `StrategyBuild.BuildProves` | dv/formal/conductor.py:393-479 | every block was proved, with the engine it names; failures and refuted names were explored alone with that result |
| `StrategyBuild.ConstructStrategy` | dv/formal/conductor.py:676-698 | names no stored block covers are the ones built for, each alone in hard mode; afterwards every name is covered, a failure or refuted; fails only when splitting an empty name |
| `AluBitCount.CountPrefix` | rtl/ibex_alu.sv:507-546 | after the in-place stages entry i is the number of ones among bits 0 to i, at any power-of-two width |
| `AluBitCount.PopCount` | rtl/ibex_alu.sv:435-546 | the last entry is the number of ones |
| `AluBitCount.CountTrailing` | rtl/ibex_alu.sv:435-546 | with the smeared mask it is the number of trailing zeros, the width for zero |
| `AluBitCount.CountLeading` | rtl/ibex_alu.sv:435-546 | and after reversal of leading zeros |
| `AluButterfly.SlotPartner` | rtl/ibex_alu.sv:1050-1137 | one stage driven by the left-rotate-and-complement masks moves every set position's bit between its slots |
| `AluButterfly.RoutedStep` | rtl/ibex_alu.sv:1139-1187 | the butterfly keeps every bit on its way |
| `AluButterfly.PackedStep` | rtl/ibex_alu.sv:1139-1187 | so does the inverse network, and nothing else is set |
| `AluButterfly.ExtractDeposit` | rtl/ibex_alu.sv:1050-1187 | compressing a decompressed value gives back its low popcount(mask) bits |
| `AluButterfly.DepositExtract` | rtl/ibex_alu.sv:1050-1187 | decompressing a compressed value gives back its masked bits |
| `AluButterfly.DepositLoop` | rtl/ibex_alu.sv:1050-1187 | the bit-by-bit loop of the Bitmanip draft, section Bit Compress/Decompress, is Deposit |
| `AluButterfly.ExtractLoop` | rtl/ibex_alu.sv:1050-1187 | likewise for Extract |
| `AluZbe.LoadedIsCount` | rtl/ibex_alu.sv:1066-1118 | the truncated counts saved between the cycles are the counts modulo the segment width wherever a stage reads them |
| `AluZbe.Decompress` | rtl/ibex_alu.sv:1139-1187 | the second cycle computes bit deposit for every operand and mask |
| `AluZbe.Compress` | rtl/ibex_alu.sv:1139-1187 | the second cycle computes bit extract |
| `AluZbe.Zbe32` | rtl/ibex_alu.sv:1050-1187 | both instructions at 32 bits |
| `AluCrc.TreeIsSum` | rtl/ibex_alu.sv:883-984 | the exclusive-or tree computes the sum of its rows, bit by bit |
| `AluCrc.QuotientIsProduct` | rtl/ibex_alu.sv:883-984 | the quotient bits of the serial division are the carry-less product with the Barrett constant |
| `AluCrc.TwoCyclesSerial` | rtl/ibex_alu.sv:1242-1253 | for a full word the two cycles equal the bit-serial CRC |
| `AluCrc.SerialXor` | rtl/ibex_alu.sv:1242-1253 | the serial CRC is linear |
| `AluCrc.CrcCorrect` | rtl/ibex_alu.sv:1242-1253 | for every operand and length, any polynomial and width |
| `AluCrcConstants.Crc32Constants` | rtl/ibex_alu.sv:883-984 | the constant of CRC-32 is right |
| `AluCrcConstants.Crc32cConstants` | rtl/ibex_alu.sv:883-984 | the constant of CRC-32C is right |
| `AluCrcConstants.CrcInstructionCorrect` | rtl/ibex_alu.sv:1242-1253 | the six CRC instructions equal the bit-serial CRC of the Bitmanip draft, section CRC Instructions, with the reversed polynomials 0xedb88320 and 0x82f63b78 |
| `CsrModel.BuildMap` | dv/cs_registers/model/register_model.cc:9-98 | all 114 registers: kind and address, and mask and reset value of the fixed-mask ones |
| `CsrModel.AddressesDiffer` | dv/cs_registers/model/register_model.cc:9-98 | no two registers share an address |
| `PmpLocks.AddrLockMeaning` | dv/cs_registers/model/base_register.cc:206-234 | an address is locked exactly by its region's lock bit or a following top-of-range region |
| `PmpLocks.SeccfgStep` | dv/cs_registers/model/base_register.cc:96-132 | MML and MMWP only ever get set, and with a lock present the bypass cannot be turned on |
| `PmpLocks.CfgStays` | dv/cs_registers/model/base_register.cc:134-204 | no access by any register changes a locked configuration byte |
| `PmpLocks.AddrStays` | dv/cs_registers/model/base_register.cc:206-234 | or a locked address |
| `PmpLocks.AddrWritable` | dv/cs_registers/model/base_register.cc:206-234 | an address that is not locked takes any value, bypass or not |
| `PmpLocks.CfgWritable` | dv/cs_registers/model/base_register.cc:134-204 | a configuration byte that is not locked takes any value that is not reserved |
| `PmpLocks.InvRun` | dv/cs_registers/model/base_register.cc:154-204 | bits 5 and 6 stay zero and no byte has write without read permission while MML is clear, over any run |
| `PmpLocks.LocksArePermanent` | dv/cs_registers/model/base_register.cc:14-234 | over any run from reset a locked region keeps its configuration and address, the address it starts from, and the bypass off |
| `PmpLocks.ModesAreSticky` | dv/cs_registers/model/base_register.cc:113-132 | the mode bits stay set over any run |
| `CsrAccesses.PlainExact` | dv/cs_registers/model/base_register.cc:14-34 | bit by bit, at a plain register: a write stores the operand, a set adds its ones, a clear removes them, a read changes nothing |
| `CsrAccesses.WarlExact` | dv/cs_registers/model/base_register.cc:14-34 | the same outside a fixed mask; the bits inside stay |
| `CsrAccesses.SeccfgExact` | dv/cs_registers/model/base_register.cc:96-132 | each bit of mseccfg after an access: modes that are set stay, the bypass stays off under a lock, the bits above stay, the others as at a plain register |
| `CsrAccesses.RawExact` | dv/cs_registers/model/base_register.cc:134-152 | a configuration byte with its lock bit set keeps its bits unless the bypass is on; any other takes them as a plain register |
| `CsrAccesses.CfgExact` | dv/cs_registers/model/base_register.cc:154-204 | then bits 5 and 6 are cleared, and write permission without read permission while MML is clear |
| `CsrAccesses.AddrExact` | dv/cs_registers/model/base_register.cc:206-234 | an address bit stays under the lock bit of its region or a following top-of-range region, and otherwise is taken as at a plain register |
| `CsrAccesses.OthersStay` | dv/cs_registers/model/register_model.cc:106-123 | an access changes no register at another address |
| `CsrAccesses.ReadsChangeNothing` | dv/cs_registers/model/register_model.cc:106-123 | a read changes no register |
| `CsrAccesses.StopsExact` | dv/cs_registers/model/register_model.cc:106-123 | the test stops exactly when the register at the address, cycle counters apart, showed something else, or there is none and no error was signalled |
| `CsrAccesses.RegionsExact` | dv/cs_registers/model/register_model.cc:14-34 | which configuration and address registers exist |
| `CsrAccesses.InhibitExact` | dv/cs_registers/model/register_model.cc:35-42 | which bits of the counter inhibit register are fixed |
| `CsrAccesses.CountersExact` | dv/cs_registers/model/register_model.cc:43-98 | address, mask and reset of every event selector and counter |
| `CsrRegisters.GetLockMask` | dv/cs_registers/model/base_register.cc:84-253 | the mask by kind of register, with the searches of the map as loops |
| `CsrRegisters.TakeAccess` | dv/cs_registers/model/base_register.cc:14-82 | one register takes an access; what it read and its new value |
| `CsrRegisters.RegisterModel.NewTransaction` | dv/cs_registers/model/register_model.cc:106-123 | all registers see the access in turn; when the test is stopped |
| `MemCheck.WordsCompareBytes` | dv/cosim/spike_cosim.cc:969-996 | comparing masked words compares byte by byte |
| `MemCheck.SpikeCosim.CheckMemAccess` | dv/cosim/spike_cosim.cc:857-1053 | the verdict, the error noted and what stays pending |
| `MemVerdicts.CheckPasses` | dv/cosim/spike_cosim.cc:857-1053 | a check passes exactly for the access the front is waiting for: same word and kind, fitting lanes not seen before, every byte equal unless it is a failing load, and the second half there where an error cut a crossing access short |
| `MemVerdicts.CheckAnswers` | dv/cosim/spike_cosim.cc:1000-1053 | a check that passes answers with a bus error if and only if the front access saw one, and drops that access when it is complete, with its second half after an error |
| `MemVerdicts.CheckReports` | dv/cosim/spike_cosim.cc:857-1053 | a check that fails reports the first thing that is wrong |
| `MemVerdicts.CheckKeeps` | dv/cosim/spike_cosim.cc:857-1053 | and takes nothing off the queue |
| `MemCheck.SpikeCosim.NotifyDsideAccess` | dv/cosim/spike_cosim.cc:767-773 | appends an access with nothing seen |
| `MemCheck.SpikeCosim.MisalignedPmpFixup` | dv/cosim/spike_cosim.cc:651-686 | drops the second half of a failed misaligned access, or notes an error |
| `MemVerdicts.FixupExact` | dv/cosim/spike_cosim.cc:651-686 | exactly when the front is a second half whose first half saw an error it is dropped, or reported if it fails the protection check |
| `MemRuns.RunInv` | dv/cosim/spike_cosim.cc:857-1053 | over runs without failures only the front access has been seen in part, and then not all of it |
| `MemRuns.ChecksAreSound` | dv/cosim/spike_cosim.cc:857-1053 | every byte of an access that finished without an error was checked against exactly one simulator access of the same kind and word and had its value |
| `MemRuns.NothingLost` | dv/cosim/spike_cosim.cc:857-1053 | finished and pending accesses are the notified ones in order, and the simulator accesses matched to them the checked ones in order |
| `FreeLists.FreeList.Cycle` | rtl/ibex_addr_regfile.sv:149-180 | one clock cycle: grants come off the front of the ring, frees go on the end unless dropped; tail is head plus count |
| `FreeLists.RunKeeps` | rtl/ibex_addr_regfile.sv:149-180 | over any run in which clients free what they hold, every managed slot is free, held or dropped, and only one of these |
| `FreeLists.FirstInFirstOut` | rtl/ibex_addr_regfile.sv:149-180 | first in, first out: the slots granted over a run, then the ring, are the slots of reset in order and then the returned ones in order |
| `FreeLists.GrantsAreSafe` | rtl/ibex_addr_regfile.sv:149-180 | a granted slot is not held and has not been dropped; the ring lacks exactly what is |
| `FreeLists.DropsExactly` | rtl/ibex_addr_regfile.sv:171-178 | a free is dropped if and only if the last free slot is granted in the same cycle |

## Left out

- The multiplexer optimiser works on one module; the repository runs it on every selected module of a design.
- Signals are bits after `SigMap` has been applied. Which bit of a net of aliases represents it is a choice of
  Yosys; the model resolves the connections a run makes by substitution, in any consistent way.
- Cells and connections are visited in list order where the source iterates over hash pools.
- Undefined constants: controls read them as zero and data as an arbitrary fixed value; rounds are proved for
  the value zero.
- MuxTreePass.RunPreserves: requires that a multiplexer that is not a root feeds one port and that own controls
  are aligned. Both are proved necessary, the first for modules two multiplexers deep, the second for modules of
  one cell; deeper modules have the failing family of MuxTreeShared.SharedBreaks.
- MuxTreeTame.RoundsPreserve: requires a tame module, which is sufficient and not shown necessary for the loop, and
  that undefined constants are zero.
- The logging and the `-I`, `-O`, `-B`, `-L` dummy pins, symbol tables, maps and the ASCII form of the AIGER
  writer; the sorting of cells into the writer's tables, which `AigDesign.Design` holds.
- AigerWriting.AigerWriter.Compile: a literal is a variable with a sign; `AigGraph.Code` gives the number the
  file holds. Integer overflow of variable numbers is not modelled.
- AigerBinary.AigerEncode: bytes are numbers below 256, and the argument is not limited to 31 bits.
- Model checkers and asyncio: a verdict is a hypothesis about traces, and a race is a choice of which branch
  is done first. Failures recorded by parallel branches are listed in program order, and which of a cancelled
  branch's failures were recorded by then is arbitrary.
- Parsing of property names, JSON, witness and map files; a property is a step, whether it is a cover, and a
  name.
- AigSearch.Why: the path kept with every node for display is not modelled, nor is the list of printed lines.
- AigSelect.AigFile.Select: the assertions about justice and fairness sections being empty and about the number
  of names are preconditions.
- The single-cycle operations of the ALU, the operand multiplexers in front of the units and the handshake that
  sequences the two cycles.
- AluCrcConstants.CrcInstructionCorrect: the two cycles are composed as functions; the register between them holds the
  first result.
- CsrRegisters.TakeAccess: subclasses are kinds of one class, as there is one field to override behaviour on.
  Printing is left out.
- MemRuns.Drop: dropping the front of an empty queue is undefined in the source and does nothing here.
- Interrupt, debug and instruction-side checks of the co-simulation, and what the simulator itself does.
- FreeLists.FreeList.Cycle: the ring size is taken to be a power of two, as it is by default, so that pointers
  wrap where the ring ends. The banks of the address register file are not modelled.
- The banked data memory, the formatted printer of the benchmark port, the branch predictor, the bundle cache,
  the clock lowering pass and the timer helpers: not part of this model.
