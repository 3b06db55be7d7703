# SPDZ-2 verification model

Dafny models of the algorithmic cores of SPDZ-2, with proofs that each computes what it is for. The
project checks with `dafny verify dfyconfig.toml`. Nothing of the original program is executed.

**BMR garbling.** One program of register instructions is run in four phases (`BMR/Register.cpp`):
the trusted party draws keys and masks, every party evaluates its pseudo-random function, the
trusted party garbles, and the parties evaluate. `Garbling` describes one step of each phase on
values, `Registers`, `Parties` and `Execution` are the objects with their fields and buffers.
`Simulation` relates the registers of all phases to the plain values of the wires, `Protocol` lifts
this to whole programs, and `Execution.RunProtocol` runs the whole protocol on the objects. Keys are
any group in which every key is its own inverse, with a signal bit that is linear (`Keys`); the
pseudo-random function, the drawn keys, the masks and the differences are arbitrary, except that
the differences have signal bit one. `Tables` reads truth tables from numbers, and `Overwriting` shows
what becomes of a gate that overwrites one of its operands.

**Compiler back end.** `Dependencies` builds the dependency graph and the depths of a block,
`DeadCode` removes unused instructions, `Merging` merges the openings of one depth, `BackEnd`
computes the preorder, sorts, and puts the passes together as `Optimize`. A block means what it does
to registers, memory and channels, where an opening sends its values in one instruction and
receives them in a later one (`Blocks`, `Queues`); `Schedule` proves that instructions may be
exchanged when neither touches what the other writes. `Levels` and `Gaps` find out when the
merging fails, `Stores` when the order of memory writes is kept. `Allocation` is the register
allocation that follows.

**Number-theoretic transforms.** The five power-of-two transforms of `FHE/FFT.cpp` and the
Bluestein transform for other lengths, over any commutative ring with the roots they need
(`Rings`, `FFT`, `FFTIter`, `Fourier`, `Bluestein`), the change between coefficients and values that
`FHE/Ring_Element.cpp` makes with them for a power of two (`RingElements`), and all of this over the
integers modulo a prime (`PrimeField`).

**Permutation and sorting networks.** Waksman networks, their configuration by cycle following, and
Batcher's odd-even merge sort (`Swaps`, `Waksman`, `Sorting`).

**Matching.** Gale-Shapley matching as `Compiler/gs.py` runs it, with a stack of single men
(`StableMatching`).

**Comparison.** Remainders and quotients by powers of two, comparison with zero and rounding of
secret integers modulo a prime, as `Compiler/comparison.py` computes them, for every choice of the
random masks (`Bits`, `Comparison`).

**Opening sums.** `TreeSum` of `Auth/MAC_Check.h`: the messages of every party from its loops
(`TreeSum`), and the network of all parties in any interleaving (`TreeNetwork`).

Where the code does not do what it is for:

- The merging pass fails when dead-code elimination empties a level below an opening that is left:
  `compute_preorder` then looks up the stop of a merged opening that is not there.
  `Gaps.FailingHasGap` is such a block, `Gaps.GapIsEmptied` the exact condition.
- A gate whose destination is one of its operands decrypts its row with parts of the row itself, since
  the row has taken the place of the labels. It opens its plain value in every valid setup exactly if
  the destination is none of the operands; otherwise, for all bits, every gate and every mask, there
  is a setup in which the protocol stops with an exception. `Overwriting.OverwritingIsPlain`,
  `Overwriting.OverwritingFails`.
- The constructor that reads a truth table from a number shifts the wrong way and finds the last entry
  only, so that it is right exactly if no other entry is set: for the conjunction, but not for the
  exclusive or of the builds without `FREE_XOR`. `Tables.TableRead`, `Tables.TablesIssued`.
- `TruncRoundNearest` by one bit calls `Mod2` without sign: for a negative integer it is right exactly if
  the random mask covers the integer; `Comparison.TruncRoundNearest`, `Comparison.SomeUncovered`.
- A repeated write to an element of a longer vector may go unnoticed. A write is refused exactly if a
  later instruction wrote the whole vector, or completed it with the same element;
  `Allocation.WritesNoticed`, and `Allocation.VectorsUnnoticed` for a block that gets through.
- A vector may exceed the register limit, which is tested before its size is added; it does exactly
  if no free run fits and fewer registers are left than it has elements. `Allocation.LimitExceeded`,
  `Allocation.VectorExceeds`.
- The dependency graph keeps two writes of a memory cell in order exactly if the cell is read between
  them; `Stores.WritesOrdered`. What two writes leave depends on their order; `Stores.PairMayCross`.
- Opening sums with `max_broadcast` one end for a single party only: with more, every party but the
  base player waits for a message of its own. `TreeSum.OneReceiver`, against `TreeSum.EveryOpening`.

## Model

| member | source | states |
|---|---|---|
| `Protocol.ExecuteIsPlain` | BMR/Register.cpp:200-512 | for every well-formed program, any number of parties, and any keys, masks, pseudo-random function and differences with signal bit one, all four phases succeed and read every buffer to its end, every wire ends with its plain value masked and the matching keys, and every party outputs what plain evaluation outputs |
| `Execution.RunProtocol` | BMR/Register.cpp:451-836 | the protocol run on the register, trusted-party and party objects, instruction by instruction, gives every party the outputs of plain evaluation |
| `Protocol.ResultOpens` | BMR/common.h:36 | after any program, one more instruction and its output open the value of the instruction at every party: of a truth table the last entry for two true operands, the third for a true left one only, the second for a true right one only, the first for none; with a one at the end only, the conjunction |
| `Tables.TableRead` | BMR/common.h:30-34 | the table that is read from a number is the one that its digits mean exactly if the first three digits are even |
| `Tables.TablesIssued` | GC/Secret.h:26-34 | the number of the conjunction gives the conjunction, that of the exclusive or the constant false |
| `Protocol.RunRandomOk` | BMR/Register.cpp:688-792 | the first phase never fails on a well-formed program, and its buffers only grow |
| `Protocol.RunPRFOk` | BMR/Register.cpp:451-512 | the second phase never fails and reads exactly the key stream that the first phase sent to that party |
| `Protocol.RunGarbleOk` | BMR/Register.cpp:310-449 | the third phase never fails and reads the stored wires and every party's tuples to the end |
| `Protocol.RunEvalOk` | BMR/Register.cpp:200-308 | the last phase never fails, reads circuit, wires and masks to the end, and keeps every external value equal to the plain value under the mask |
| `Simulation.EvalGateOk` | BMR/Register.cpp:215-308 | the row that the external values select, with all parties' outputs taken off, is the key of the masked gate value, and its signal bit is that value |
| `Simulation.PeelRow` | BMR/Register.cpp:215-308 | subtracting the outputs under the external keys undoes the sum that garbling put on the row |
| `Simulation.EvalXorOk` | BMR/Register.cpp:826-836 | exclusive or of external values and of entries is right for the exclusive or of the wires, without a table |
| `Simulation.PRFStepOk` | BMR/Register.cpp:451-512 | a step of the second phase reads what the trusted party sent in that step and keeps the party's own keys equal to the trusted party's |
| `Simulation.GarbleStepOk` | BMR/Register.cpp:310-449 | a step of the third phase that is no gate reads what the first phase stored in that step and keeps all masks |
| `Simulation.GarbleRelatedStep` | BMR/Register.cpp:310-449 | any step of the third phase, given what the first two phases produced in that step, reads exactly this; a gate adds its four rows, with the masks and keys of the first phase and the outputs that the parties sent |
| `Simulation.EvalInputOk` | BMR/Register.cpp:624-669 | after the owner broadcasts its masked bit and all parties their labels, every party has the wire's external value and the entries of all parties |
| `Simulation.EvalRelatedStep` | BMR/Register.cpp:200-308 | one instruction keeps the relation between the registers of the last phase at all parties and the plain values |
| `Overwriting.OverwritingIsPlain` | BMR/Register.cpp:215-308 | for all wires, public bits and gates: every valid setup over blocks opens the plain value of the gate exactly if its destination is none of its operands |
| `Overwriting.OverwritingFails` | BMR/Register.cpp:215-308 | for every gate that overwrites one or both operands, all bits and masks, there is a valid setup of one party in which the protocol stops with an exception |
| `Registers.Register.Garble` | BMR/Register.cpp:319-449 | the loops over parties and columns fill the four rows with the sums of the outputs and the key of the masked value, and consume one gate's tuples of every party |
| `Registers.Register.Eval` | BMR/Register.cpp:215-308 | the loops leave the selected row without the outputs, and the external value is the signal of the own entry; where the register is its own operand, the outputs are those under the row as decrypted so far |
| `Registers.ComputePRFOutputs` | BMR/GarbledGate.cpp:40-71 | every slot of the output tuples gets the function value of its wire, value, extension and index |
| `Registers.Register.Randomize` | BMR/Register.cpp:688-698 | fresh zero-keys have signal bit zero, and one-keys differ by the differences |
| `Registers.Register.EvalXOR` | BMR/Register.cpp:826-836 | the register takes the exclusive or of both operands, also when it is one of them |
| `Parties.TrustedProgramParty.StoreWire` | BMR/TrustedParty.cpp:451-459 | appends the mask, all zero-keys and all one-keys |
| `Parties.TrustedProgramParty.LoadWire` | BMR/TrustedParty.cpp:461-469 | takes back what StoreWire appended and leaves the rest of the buffer |
| `Parties.TrustedProgramParty.AddKeys` | BMR/TrustedParty.h:142-146 | every party's stream gets its own two keys |
| `Parties.TrustedProgramParty.AddAllKeys` | BMR/TrustedParty.h:148-153 | every party's stream gets the keys of all parties for one value |
| `Parties.TrustedProgramParty.RandomInstruction` | BMR/Register.cpp:688-792 | the objects take the step of the first phase |
| `Parties.TrustedProgramParty.GarbleInstruction` | BMR/Register.cpp:310-449 | the objects take the step of the third phase |
| `Parties.ProgramParty.ReceiveKeys` | BMR/Party.cpp:876-886 | the register gets the party's two keys from the stream |
| `Parties.ProgramParty.ReceiveAllKeys` | BMR/Party.cpp:888-893 | the register gets all parties' keys for one value |
| `Parties.ProgramParty.PRFInstruction` | BMR/Register.cpp:451-512 | the objects take the step of the second phase |
| `Parties.ProgramParty.EvalInstruction` | BMR/Register.cpp:200-308 | the objects take the step of the last phase for every instruction without communication, also for a gate on its own destination |
| `Parties.ProgramParty.EvalInputMasked` | BMR/Register.cpp:624-648 | the owner masks and sends its bit, the others take the one received; all set their own label |
| `Parties.ProgramParty.EvalInputLabels` | BMR/Register.cpp:649-669 | the labels of all parties become the entry and the keys of the external value |
| `BackEnd.Optimize` | Compiler/program.py:523-566 | the pipeline succeeds exactly if no level below a surviving opening is empty, in particular if nothing may be eliminated, or with one field and no limit; the block then holds every live instruction once, merged by level and field, has one start for every level and field, in which an opening stands for openings of its own field and a stop for stops of one field, and for every machine, which opens each field by its own operation, and every store gives the same registers, memory, channels and opened values |
| `Gaps.GapIsEmptied` | Compiler/allocator.py:302-311 | a level is missing exactly if all its openings were eliminated while a deeper one is left |
| `Gaps.FailingHasGap` | Compiler/allocator.py:302-311 | a valid block of two openings in different fields on which the pass fails |
| `Gaps.OneFieldNoGaps` | Compiler/allocator.py:549-573 | with one field and no limit on parallel openings no level is ever missing |
| `BackEnd.ComputePreorder` | Compiler/allocator.py:263-319 | fails exactly if a level is missing; otherwise lists only nodes, among them every one without predecessors, save flexible ones deeper than all openings |
| `BackEnd.LongestPathsMerge` | Compiler/allocator.py:348-421 | merges, computes the preorder, sorts and emits; the new block is a regrouping of the instructions that are left |
| `BackEnd.RegroupedComputes` | Compiler/allocator.py:348-421 | every block that regroups the surviving instructions in a good order computes what the program computes |
| `BackEnd.RoundsCounted` | Compiler/allocator.py:363-396 | the number of starts in the new block is the number of pairs of level and field that have an opening |
| `Graph.TopologicalSort` | Compiler/graph.py:108-157 | reports a cycle only if the graph has one; otherwise lists exactly the given nodes and all that follows from them, every node once and before all its successors |
| `Graph.Explore` | Compiler/graph.py:120-156 | the search with an explicit stack lists what follows from a root behind all its successors, or meets a cycle |
| `Graph.RankedIsAcyclic` | Compiler/allocator.py:381-396 | a graph whose edges raise a rank has no cycle; the rank is depth, then start or stop and field |
| `Graph.SparseDiGraph.MergeNodes` | Compiler/allocator.py:627-637 | the merged node takes over exactly the edges of the other, without an edge to itself |
| `Graph.SparseDiGraph.RemoveNode` | Compiler/graph.py:64-78 | removes exactly the edges at the node, from both directions of the adjacency |
| `Dependencies.Merger.DependencyGraph` | Compiler/allocator.py:423-625 | edges run forward and are dependencies, every dependency is an edge or a path, starts and stops are paired first in first out, and depths are those of the specification |
| `Dependencies.Merger.OpenDepth` | Compiler/allocator.py:549-573 | an opening goes to the first deeper level that is not reserved for the other field and has room |
| `Levels.AllLevelsUsed` | Compiler/allocator.py:549-573 | every level up to the depth of any instruction has an opening |
| `Levels.LevelLimited` | Compiler/allocator.py:549-564 | with a limit, an opening goes to a level on which fewer values than the limit have been opened before it, and every lower one from the first free one on has at least as many |
| `Levels.LimitKept` | Compiler/allocator.py:555-564 | openings of single values never exceed the limit on a level |
| `Levels.OpensFirst` | Compiler/allocator.py:549-566 | without a limit an opening goes to the first level above what it depends on that no earlier opening of the other field is on |
| `Levels.FieldsApart` | Compiler/allocator.py:549-554 | so that without a limit no level has openings of both fields |
| `Levels.LimitMixes` | Compiler/allocator.py:555-564 | three openings that with a limit share a level although one is in the other field |
| `Levels.ChainFits` | Compiler/allocator.py:466-471 | no instruction is on a lower level than some chain of dependencies to it has openings, whatever the fields and the limit |
| `Levels.ChainReaches` | Compiler/allocator.py:549-573 | with one field and no limit every level is the number of openings of such a chain, so that there are no more rounds than dependencies force |
| `Levels.DepthsRise` | Compiler/allocator.py:466-471 | no instruction is on a lower level than what it depends on |
| `Levels.OpeningsDeep` | Compiler/allocator.py:549-573 | an opening is on a strictly higher level than all it depends on |
| `DeadCode.EliminateDeadCode` | Compiler/allocator.py:639-660 | what is left is exactly what is live, a stop is left with its start, and the graph loses the rest |
| `DeadCode.LeftIsLive` | Compiler/allocator.py:639-660 | the backward scan keeps an instruction exactly if its results may not be dropped or are used by one that is kept |
| `DeadCode.LeftComputes` | Compiler/allocator.py:639-660 | without the removed instructions everything but the removed results is the same |
| `Merging.Merging.DoMerge` | Compiler/allocator.py:164-215 | all openings of a list become one, with the arguments of all in order, and the graph keeps its paths |
| `Merging.Merging.AllRounds` | Compiler/allocator.py:365-396 | all surviving openings of one level and field are merged, starts and stops of successive rounds are chained in the same order, and every edge still raises the rank |
| `Reordering.ExpandInTurn` | Compiler/allocator.py:381-396 | in every topological order of the merged graph the oldest opening is stopped first |
| `Reordering.JoinedIsGroup` | Compiler/allocator.py:164-215 | a merged opening does what its parts do one after the other |
| `Reordering.EmitIsExpand` | Compiler/allocator.py:414-416 | running the emitted block is running the groups in order |
| `Queues.RunIsExec` | Compiler/allocator.py:348-421 | matching starts and stops by a queue gives the values that each pair hands on |
| `Schedule.OrderIrrelevant` | Compiler/graph.py:108-157 | two orders of the same steps that agree on every two dependent ones give the same store |
| `Blocks.IndependentOrDepends` | Compiler/allocator.py:466-623 | two instructions that do not depend on each other touch nothing that the other writes |
| `Allocation.AllocateBlock` | Compiler/allocator.py:17-93 | on a block that writes each register once and before it is read, every instruction reads the same values from the allocated registers as from the virtual ones, for every meaning of the instructions and every start; on scalars the registers used are as many as some instruction needs at once, and it gives up exactly if those exceed the limit |
| `Allocation.StraightlineAllocator.Process` | Compiler/allocator.py:67-93 | the scan over one of several blocks: no instruction overwrites a register that matters after it or that it reads; a write is refused exactly if the register has been marked |
| `Allocation.VectorsTogether` | Compiler/allocator.py:43-47 | the elements of a vector are in neighbouring registers, in order |
| `Allocation.StraightlineAllocator.AllocReg` | Compiler/allocator.py:27-49 | reuses a free run of the same type and size if there is one, else takes new registers while fewer than the limit are in use |
| `Allocation.StraightlineAllocator.DeallocReg` | Compiler/allocator.py:51-65 | a vector's run is free once all its elements have been written, or at once by a vector instruction |
| `Allocation.AllocatedRuns` | Compiler/allocator.py:67-93 | any allocation that keeps what matters apart computes the same |
| `Allocation.PressureNeeded` | Compiler/allocator.py:27-49 | no such allocation uses fewer registers of a type than the most that an instruction needs at once |
| `Allocation.ScalarsNoticed` | Compiler/allocator.py:70-75 | for scalars a write is refused exactly if a later instruction writes the same register |
| `Allocation.VectorsUnnoticed` | Compiler/allocator.py:51-65 | a block that writes an element of a vector of two twice, and never the other, passes |
| `Allocation.WritesNoticed` | Compiler/allocator.py:51-75 | a write is refused exactly if a later instruction covered the register by writing its whole vector, or by writing it when all other elements of the vector had been named, or if a later block did |
| `Allocation.DefinedExactly` | Compiler/allocator.py:51-65 | the registers that count as written before an instruction are those |
| `Stores.WritesOrdered` | Compiler/allocator.py:479-489 | in a graph that has edges and paths for all dependencies but those between writes, one write of a cell reaches another exactly if the cell is read between them |
| `Stores.PairMayCross` | Compiler/allocator.py:479-489 | two writes of a cell without a read have no edge, and on every machine the two orders leave different values |
| `FFT.NaiveFFT` | FHE/FFT.cpp:10-23 | entry i is the value of the input polynomial at theta^i |
| `FFT.FFT` | FHE/FFT.cpp:26-52 | the same, for a power-of-two length and a root whose half power is minus one |
| `FFTIter.FFT_Iter` | FHE/FFT.cpp:59-102 | the same, in place by bit reversal and butterflies |
| `FFTIter.FFT_Iter2` | FHE/FFT.cpp:111-157 | entry i is the value at the odd power root^(2i+1) |
| `FFT.FFT2` | FHE/FFT.cpp:165-190 | the same, recursively |
| `FFTIter.BitReverse` | FHE/FFT.cpp:62-76 | every entry moves to the position with its bits reversed |
| `FFT.PrimitiveRootHalfTurn` | FHE/FFT.cpp:57-59 | without zero divisors, the half power of a root of exact order n is minus one, so that the transforms apply |
| `FFT.Power` | Math/modp.cpp:180-192 | square and multiply gives the power |
| `Bluestein.FFT_Data.Init` | FHE/FFT_Data.cpp:28-98 | succeeds exactly if m is a power of two or 2m divides p - 1; the sign of twop tells whether its absolute value divides p - 1; both roots are there, inverse to each other, the first the one that was found; with positive twop all tables of both directions hold what BFFT needs, and with twop zero iphi is the inverse of m/2 |
| `Bluestein.ConvolutionLength` | FHE/FFT_Data.cpp:37 | the power of two above 2m and up to 4m |
| `RingElements.RingElement.ChangeRep` | FHE/Ring_Element.cpp:261-290 | for a power of two: from coefficients to the values at the odd powers of the root, and from values to the coefficients that have these values |
| `RingElements.ValuesDetermine` | FHE/Ring_Element.cpp:261-290 | coefficients with the same values are the same |
| `RingElements.ThereAndBack` | FHE/Ring_Element.cpp:261-290 | from coefficients to values and back changes nothing |
| `Bluestein.BFFT` | FHE/FFT.cpp:194-219 | fails exactly if twop is not positive; forward, entry i is the value at root^(2i); backward, m times entry i is the value at root^(-2i) |
| `Bluestein.BluesteinEntry` | FHE/FFT.cpp:202-215 | the weighted entry i + m - 1 of the convolution is the value at root^(2i), with no wrap-around |
| `Bluestein.RoundTrip` | FHE/FFT.cpp:194-219 | backward after forward gives the input back |
| `Fourier.EvalCyclic` | FHE/FFT.cpp:207-210 | evaluation at an n-th root of unity turns cyclic convolution into products |
| `Fourier.TransformInverse` | FHE/FFT.cpp:207-212 | the transform at the inverse root undoes the transform at the root up to the factor length, entry by entry; the pointwise product between the two calls is EvalCyclic's, weights and slice are BluesteinEntry's |
| `PrimeField.ZpIsField` | FHE/FFT.h:38-60 | the integers modulo an odd prime satisfy all laws that the transforms are proved from |
| `PrimeField.TransformThereAndBack` | FHE/FFT_Data.cpp:28-98 | over a prime field, set-up and both transforms succeed exactly if m is no power of two and both 2m and the convolution length divide p - 1; then backward after forward is the identity |
| `PrimeField.PowerThereAndBack` | FHE/Ring_Element.cpp:261-290 | over a prime field and for a power of two, set-up and change to values and back succeed and compose to the identity |
| `Waksman.ConfigureWaksman` | Compiler/permutation.py:153-212 | terminates for every permutation of a power-of-two length and gives a configuration of the right shape that sends wire i to perm[i] |
| `Waksman.FollowCycles` | Compiler/permutation.py:163-187 | following the cycles ends, sets every switch so that the wires of every pair enter and leave by different halves, and gives every half the wires that it is to connect |
| `Waksman.HalfIsPermutation` | Compiler/permutation.py:163-187 | what each half is to connect is a permutation again |
| `Waksman.NetworkRoutes` | Compiler/permutation.py:153-212 | a network that is set level by level in this way leads input i to output perm[i] |
| `Waksman.RunWaksman` | Compiler/permutation.py:214-236 | every item ends where the configuration leads its wire |
| `Waksman.ReverseUndoes` | Compiler/permutation.py:214-236 | for any configuration, the network run in reverse leads every wire back |
| `Waksman.Permute` | Compiler/permutation.py:153-236 | configuring and running puts the item i at position perm[i] |
| `Waksman.Restore` | Compiler/permutation.py:214-236 | running in reverse puts all items back |
| `Swaps.SwapBit` | Compiler/permutation.py:39-51 | a conditional swap by a bit exchanges both values exactly if the bit is one |
| `Sorting.CondSwapSorts` | Compiler/permutation.py:53-59 | a conditional swap by a comparator orders the two items |
| `Sorting.ZippedSorts` | Compiler/permutation.py:61-76 | merging the even and the odd entries and one pass of comparisons merges two sorted halves |
| `Sorting.OddEvenMerge` | Compiler/permutation.py:61-76 | works in place for exactly the power-of-two lengths, keeps the items, and sorts them if both halves were sorted |
| `Sorting.OddEvenMergeSort` | Compiler/permutation.py:78-89 | sorts in place for exactly the power-of-two lengths |
| `StableMatching.Matchmaker.Match` | Compiler/gs.py:196-237 | with as many women as men and complete preferences, ends after at most N * N proposals, in which every man has asked exactly the women down to his wife on his list; wives and husbands are inverse, nobody is left over, the matching is stable, and no stable matching gives any man a wife he prefers |
| `StableMatching.Matchmaker.Propose` | Compiler/gs.py:175-194 | dumping, engaging and putting back come to one round: the woman keeps whom she likes better, the other is single |
| `StableMatching.RoundRunning` | Compiler/gs.py:151-194 | a round keeps that marriages are mutual, that exactly the single men are on the stack, and that every woman once asked has a husband at least as good as all who asked |
| `StableMatching.NotExhausted` | Compiler/gs.py:222-232 | a single man always has a woman left on his list |
| `StableMatching.RoundOpen` | Compiler/gs.py:175-194 | nobody is turned down by a woman that some stable matching gives him |
| `TreeSum.EveryOpening` | Auth/MAC_Check.h:258-344 | on the network in which every party performs the messages that its run yields, for any number of parties, any base player, any openings at once and at least two receivers, and in every interleaving: some party can act until all have finished, no run is longer than all messages, and then every party has the sum of all values and every message has been received |
| `TreeSum.OneReceiver` | Auth/MAC_Check.h:291-333 | with one receiver, in no interleaving does any party but the base player finish |
| `TreeSum.Run` | Auth/MAC_Check.h:258-333 | the loops of start and finish yield, for any base player and at least one receiver, exactly the acts of the party in the two trees, by the names of the parties |
| `TreeSum.FewerIs` | Auth/MAC_Check.h:267 | after a level as many parties are left as are needed to take opening_sum values each, and no more |
| `TreeSum.AddsAtMost` | Auth/MAC_Check.h:216-235 | on every level a party adds at most opening_sum values |
| `TreeSum.AllAtOnce` | Auth/MAC_Check.h:258-289 | if opening_sum is at least the number of the other parties, the base player adds all their values on one level |
| `TreeSum.SendsAtMost` | Auth/MAC_Check.h:291-320 | a party hands the sum to at most max_broadcast parties, the base player to one fewer |
| `TreeSum.SumTree` | Auth/MAC_Check.h:263-289 | the levels of the sum form a tree: every party but the base player sends once, to a party that adds its value |
| `TreeSum.CastTree` | Auth/MAC_Check.h:291-333 | the broadcasts form a tree: every party but the base player gets the sum once |
| `TreeNetwork.EveryRun` | Auth/MAC_Check.h:216-344 | the same for any two trees whose parents come first |
| `TreeNetwork.StepSound` | Auth/MAC_Check.h:216-344 | every act keeps that the values and the messages under way are those that the counts of acts say |
| `Sorting.Sort` | Compiler/permutation.py:108-114 | sorts a list of any positive length; the padding goes last and is cut off |
| `Sorting.ComparatorsOrder` | Compiler/permutation.py:24-37 | the comparators are total orders on what they compare |
| `Sorting.ComparatorsMean` | Compiler/permutation.py:24-37 | these orders are those of the integers: of the values, of the first values, or of the bits |
| `Sorting.SortedAscends` | Compiler/permutation.py:24-37 | a list is sorted by a comparator exactly if its values, or the first values of its lists, ascend |
| `Comparison.Mod2` | Compiler/comparison.py:508-542 | for every mask the lowest bit of an integer in range; of a negative one without sign, the bit exactly if the mask covers it, else its complement |
| `Comparison.Mod2m` | Compiler/comparison.py:141-182 | for every mask, and with both comparisons, the remainder modulo 2^m below the bit length; from there on the integer itself |
| `Comparison.Trunc` | Compiler/comparison.py:83-105 | for every mask the quotient by 2^m rounded down, also of negative integers, below the bit length; from there on zero |
| `Comparison.TruncBeyond` | Compiler/comparison.py:141-151 | that zero is the quotient exactly of integers that are not negative |
| `Comparison.LTZ` | Compiler/comparison.py:73-81 | one for negative integers, else zero, for every mask |
| `Comparison.TruncRoundNearest` | Compiler/comparison.py:107-139 | for every mask the quotient by 2^m rounded to the nearest; by one bit, for negative integers, exactly if the mask covers them |
| `Comparison.SomeUncovered` | Compiler/comparison.py:117-120 | no negative integer is covered by every mask |
| `Comparison.BitLTC1` | Compiler/comparison.py:214-284 | the parity of the selected steps of the prefix products tells whether a is below b, for every preprocessing |
| `Comparison.SelectedDecides` | Compiler/comparison.py:268-281 | the highest place that differs decides that parity, and the sum stays in range |
| `Comparison.PreMulCWithInverses` | Compiler/comparison.py:399-426 | the opened values telescope: every prefix product modulo p, for all random invertible numbers |
| `Comparison.PreMulCWithoutInverses` | Compiler/comparison.py:428-466 | the same from random pairs with invertible products |
| `Comparison.ClearBits` | Compiler/comparison.py:352-361 | subtracting the lowest bit and halving modulo p gives the bits |
| `Bits.LessThan` | Compiler/comparison.py:342-364 | the last carry of a - b tells whether a is below b |
| `Bits.CarryOut` | Compiler/comparison.py:318-340 | the last carry of the sum of two bit lists and a carry |
| `Bits.CarryOutAux` | Compiler/comparison.py:303-315 | the tree of carries gives what the carry ripples to, whatever the registers hold that are not computed |

## Left out

- BMR: the source's build options are the default ones (`FREE_XOR`, `KEY_SIGNAL`, no prime field); the other builds, SPDZ wires and memory, `inputb`, and the check of keys against masks are not modelled. `PRF_chunk` of the source is limited in the number of parties, the model is not.
- Protocol.ExecuteIsPlain: asks that a gate does not write a register it reads; `Overwriting.OverwritingIsPlain` shows that this is needed. The register allocation never produces such a gate, since it keeps results apart from operands.
- Messages between parties are handed over between the phases in one piece; threads, sockets and the order of arrival are not modelled.
- BackEnd.Optimize: asks that between two writes of one memory address there is a read of it (`WritesSeparated`), because `handle_mem_access` (Compiler/allocator.py:479-489) adds no edge between two writes; `Stores.WritesOrdered` shows that the read is what keeps them in order.
- Levels.FieldsApart: speaks of blocks without a limit on parallel openings. With one the field of the level that has room is not looked at (`Levels.LimitMixes`); the merging keeps the fields apart all the same.
- Stops of openings carry no field of their own, and the values of both fields wait in one queue.
- Register-valued memory addresses, `preserve_mem_order`, weights and real depths, the continuous preorder, the merging of inputs, and opened vectors are not modelled. The latest depths that `compute_max_depths` finds are an arbitrary list, since only the preorder depends on them.
- Allocation.AllocateBlock: counts registers for scalars only; with vectors the limit itself does not hold (`Allocation.LimitExceeded`). Scopes (`used_from_scope`, `alloc_loop`) are not modelled beyond the registers that later blocks read.
- Bluestein.FFT_Data.Init: the tables of a negative `twop`, which no transform reads, are not built; for a power of two BFFT fails, as in the source. The root searches of `Math/Subroutines.cpp` are parameters constrained by what they look for, which for a power of two leaves out the moduli for which the search does not end.
- RingElements.RingElement.ChangeRep: for lengths that are no power of two the change of representation, with its reduction modulo the cyclotomic polynomial, is not modelled; nor is ring arithmetic.
- Sorting.Sort: requires a non-empty list, because `odd_even_merge_sort` recurses without end on an empty one.
- Waksman.Permute: asks that all items are single values or all are lists of one length, as the swaps do. `iter_waksman` and `shuffle` are not modelled.
- StableMatching.Matchmaker.Match: fewer women than men, incomplete lists, and the benchmark with a fixed number of rounds are not modelled; the oblivious arrays are maps.
- TreeSum.EveryOpening: asks for at least two receivers of a broadcast or a single party; `TreeSum.OneReceiver` shows that this is needed. Overlapping openings are not modelled.
- The heap and Dijkstra's algorithm, tree ORAM, floating point, bit-vector arithmetic and MAC checking are not part of this model.
