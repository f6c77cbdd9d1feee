# Verification of the prevail verifier's core

This project models the parts of prevail (an eBPF verifier) whose correctness is hardest to see from
the code, and proves what they are for:

- **The order and the fixpoint engine.** A worklist turns a control-flow graph into a weak topological
  order (Bourdoncle, "Efficient chaotic iteration strategies with widenings", 1993). An interleaved
  iterator walks it, widening and narrowing at the head of every cycle. The main result is end to end:
  from any graph and any sound abstract domain, `Analyzer.Analyze` either returns a table that covers
  every concrete run, of any length, with every assertion holding in every reached state, or records an
  error at a label, where an assertion does not pass for a value that the transformers and operators of
  the domain make of the entry value along the graph.
- **Termination checking.** Counters are inserted after the heads of the outermost cycles. The order of
  the graph with counters is the order of the graph without them, each counter right after its head
  (`CountedWto.CountedOrderIsBuilt`), so an accepted program without nested cycles stops within a number
  of steps known from sizes (`Termination.AnalyzeBounded`). With a nested cycle this fails.
  `LoopCuts.CountersCutIffFlat` gives the exact condition on orders; for every order that is not flat,
  a program whose steps follow a walk through the counted graph meets all loop bounds and has runs of
  every length (`Nontermination.NestedCyclesEscape`); and one program of instructions, on a graph whose
  order the builder makes, is accepted by the analysis although it has runs of every length
  (`EndlessProgram.AcceptsEndlessProgram`).
- **The linker.** Local calls between programs of an ELF file are resolved by appending linked bodies
  and patching relative offsets. All programs are linked exactly if the call graph is acyclic, every
  target exists and every offset fits 32 bits; when a load survives missing targets is stated exactly as
  well. Every call then leads to the linked body of the program that its relocation names
  (`LinkSemantics.LinkAll`), and the linked program has the same runs as the programs calling each other
  by name.
- **Stack cells.** An index of overlapping cells, and loads that rebuild a value from the bytes of
  constant cells under either byte order. Rebuilt values agree with byte memory, and stores keep that
  agreement exactly if the index's search misses no constant (`StackStore.StoreKeepsIff`). The search is
  complete exactly if nothing obstructs it. One search can leave behind what obstructs the next, and a
  load between two stores can leave a stale constant that later loads take
  (`StackStore.LoadSpoilsStore`).
- **Smaller parts**: splitting a section into programs, the bit set of numeric stack bytes, linear
  constraints, and finite-width readings of numbers.

`dafny verify dfyconfig.toml` checks everything.

## How it is put together

| files | what they hold |
|---|---|
| `ControlFlow`, `WtoTree` | labels, graphs, paths; orders as trees of components, stored back to front |
| `WtoSteps` | one step of the builder's worklist as a function on its state |
| `WtoInvariant`, `WtoFrames`, `WtoScan`, `WtoPush`, `WtoStart`, `WtoDrop`, `WtoPlace`, `WtoSingle`, `WtoLoop`, `WtoContinue`, `WtoProof`, `WtoNest`, `WtoRun` | the invariant of the worklist, read as a stack of frames, and its preservation by each task |
| `WtoTheorem` | Definition 1 of the paper by positions, and its agreement with the component-wise form |
| `Wto`, `Nesting` | the builder as a class, the nesting of a label and its cache |
| `Domain`, `Coverage`, `Derivation`, `Engine`, `Phases`, `Analyze` | domain laws, coverage of runs, which values an analysis can come to, the iterator as a class, what its two phases make of values, a whole analysis |
| `LoopCuts`, `Counters`, `Termination` | which loops counters meet, their insertion, bounded runs |
| `CountedData`, `CountedRun`, `CountedPush`, `CountedVisit`, `CountedStart`, `CountedHead`, `CountedWto` | the builder on a graph with counters follows the builder on the graph without them, task by task |
| `Nontermination`, `NestedLoop`, `EndlessProgram` | unbounded runs for every order that is not flat; one graph with its order, built step by step; a program on it |
| `Intervals`, `EbpfDomain`, `EbpfPrecision` | a concrete domain of the eBPF domain's shape that satisfies all laws, and what it does not lose |
| `LinkModel`, `LinkGraph`, `Linker`, `LinkSemantics`, `Splitter` | linking one program, what linking all amounts to, the linker, what it preserves; splitting sections |
| `Cells`, `StackBytes`, `StackStore`, `Bitset` | the cell index, loads, stores, numeric bytes and their text |
| `Linear`, `Numbers`, `Remainders`, `MachineIntegers`, `Options` | linear constraints, finite widths, small helpers |

The iterator is proved sound by following concrete runs step by step: a set of labels is *closed* if
whatever enters it covered by the table stays covered inside. This needs neither monotone transformers
nor a post-fixpoint after narrowing, and it does not ask the graph to be reducible. The widening law is
only that a widening that was needed lowers a rank; the cut to constants may lose states
(`EbpfDomains.CutCoversIffWithin`), and neither termination nor soundness rests on it.

None of the main assumptions is empty. `WeakOrder.BuildWto` makes a valid order of every graph,
`EbpfDomains.InstanceIsSound` gives a sound domain, and `WtoRun.InitialInv` a first state of the
worklist. Linking that succeeds for all programs establishes `LinkGraph.Solved` and, with it, most of
what `LinkSemantics` starts from; three further assumptions are its own: that programs have names of
their own, that relocations of a program agree on target and section, and that they sit on call instructions
(`LinkSemantics.LinkableIsLoad`).

## Where code and expectation differ

- Loop counters guard outermost cycles only, so termination checking does not bound nested loops. The
  exact condition on orders is `LoopCuts.Flat`; `EndlessProgram.AcceptsEndlessProgram` is an accepted
  program that does not stop. Its graph is an outer loop around an inner one, with an assumption on the
  way back from the inner loop that the analysis finds never met.
- Searching the cell index for a constant place leaves an empty group at that place if there was none,
  and an empty group stops later searches. The exact condition for a complete search is
  `Cells.Unobstructed`. Loads do the same, so they can make a later store miss a constant: after eight
  bytes have been stored at 0, four loaded from 4, and one stored at 6, the constant of the first store is
  still there, and a load of eight bytes from 0 takes it (`StackStore.LoadSpoilsStore`).
- A program whose linking is given up because a target is missing stays marked as being linked, and so
  does every program on the way to it. If the error is ignored because the program belongs to another
  section, recursion is reported when linking comes to one of those programs again, be it through a call
  or because its own turn comes. The exact condition for a load to go through is `LinkGraph.Completes`:
  besides acyclicity and fitting offsets, whatever lacks a target lies outside the desired section, names
  an existing section, and is called by no program whose linking gets to that call.
  `Linker.OrphanIsReportedAsRecursion` is an input without recursion that is reported as recursive.
- The linker tells programs apart by function name alone, and within a program targets by name alone.
  Where two programs of different sections share a name, a program is patched by the relocations of its
  namesake (`LinkSemantics.NamesakeIsPatched`), and a call of one leads to the other
  (`LinkSemantics.SecondTargetIsLost`). Where names are unique and relocations agree, a program heeds
  exactly its own relocations and every call leads where it should (`LinkSemantics.EveryCallIsLinked`).
- Bottom is not below every value: the order looks at the stack bytes first, and bottom takes all of them
  for pointers. It is below exactly the values that do so too (`EbpfPrecision.BottomBelowIff`). For values
  that have a state the order is exact.
- The widening that cuts to constants covers what came before exactly if that lies within the limits
  (`EbpfDomains.CutCoversIffWithin`). A register beyond 32 bits does not
  (`EbpfDomains.CutMayBreakTheChain`).
- A numeric byte that stands alone is printed in a form that the reader of constraints does not accept.
  Reading the text back succeeds exactly if there is no such byte (`Bitset.TextRoundTrip`).
- The iterator moves its value into the table and reads it again in the next pass
  (`src/fwd_analyzer.cpp:257`); the model keeps the value, which is what the loop means to do.

## Model

| member | source | states |
|---|---|---|
| WeakOrder.BuildWto | src/cfg/wto.cpp:290 | For every graph: each label reachable from the entry occurs exactly once, every cycle starts with its head, every edge goes forward in the order or to the head of a cycle around its source, every cycle is strongly connected, the entry comes first; and the order is the one that the worklist's tasks make of the graph |
| WeakOrder.BuiltIsUnique | src/cfg/wto.cpp:205-218 | The tasks make only one order of a graph |
| WeakOrder.WtoBuilder.constructor | src/cfg/wto.cpp:193-203 | The first state: all numbers zero, one task for the entry |
| WeakOrder.WtoBuilder.PushSuccessors | src/cfg/wto.cpp:102-119 | The new state of a push_successors task, as the step function that the invariant is proved about |
| WeakOrder.WtoBuilder.Scan | src/cfg/wto.cpp:124-136 | The smallest number that the successors lead to and whether one of them leads back |
| WeakOrder.WtoBuilder.PopCycle | src/cfg/wto.cpp:143-151 | Pops down to the vertex, never past the bottom, and forgets the numbers of everything above it |
| WeakOrder.WtoBuilder.StartVisit | src/cfg/wto.cpp:121-176 | The new state of a start_visit task in all three cases |
| WeakOrder.WtoBuilder.ContinueVisit | src/cfg/wto.cpp:178-191 | The new state of a continue_visit task: head added last, cycle placed in its partition |
| WeakOrder.WtoBuilder.Run | src/cfg/wto.cpp:205-217 | The worklist ends, leaves a valid order, and numbers never exceed n * (n + 1) for n labels |
| WtoRun.Next | src/cfg/wto.cpp:206-217 | Every task keeps the invariant of the worklist, the place of the entry and the nesting tables |
| WtoPush.PushKeeps | src/cfg/wto.cpp:102-119 | A push_successors task keeps the invariant, whether the label is new or not |
| WtoProof.StartKeeps | src/cfg/wto.cpp:121-176 | A start_visit task keeps the invariant when the vertex belongs to an open cycle, stands alone or heads a cycle |
| WtoProof.ContinueKeeps | src/cfg/wto.cpp:178-191 | A continue_visit task keeps the invariant and closes one cycle |
| WtoProof.PoppedIsVertex | src/cfg/wto.cpp:141-144 | Without a loop the popped element is the visited vertex |
| WtoSingle.NothingAbove | src/cfg/wto.cpp:141-175 | Without a loop nothing lies above the vertex on the depth-first stack |
| WtoLoop.HeadCloses | src/cfg/wto.cpp:132-145 | A loop that the scan finds is a real one: a path within the popped labels leads from the head back to it |
| WtoRun.TaskProgress | src/cfg/wto.cpp:102-176 | Every task lowers the measure of unfinished labels, unnumbered labels and tasks, although numbers are reset inside cycles |
| WtoRun.TaskBudget | src/cfg/wto.cpp:108 | Numbers stay within a bound that grows with every finished label |
| WtoRun.InitialInv | src/cfg/wto.cpp:193-203 | The first state satisfies the invariant |
| WtoSteps.PendingReversed | src/cfg/wto.cpp:112-118 | Successors are pushed last to first, however many there are, so that the first is visited first |
| WtoRun.FinalOrder | src/cfg/wto.cpp:205-218 | When no task is left the invariant is the order's correctness |
| WtoTheorem.OrderedIsWto | src/cfg/wto.hpp:59-61 | The component-wise form implies Definition 1 of the paper by positions |
| WtoTheorem.WtoIffOrdered | src/cfg/wto.hpp:59-61 | Both forms say the same |
| Nesting.CollectHeads | src/cfg/wto.cpp:292-298 | Following the tables yields the heads around a label as the tree has them, innermost first |
| Nesting.NestingCache.Nesting | src/cfg/wto.cpp:302-309 | The answer does not depend on what was asked before |
| Nesting.EnclosingIsExact | src/cfg/wto.cpp:268-298 | A head is listed exactly if its cycle strictly encloses the label |
| Nesting.Greater | src/cfg/wto.cpp:35-51 | The loop decides whether one nesting extends another inwards |
| Nesting.DeeperMeans | src/cfg/wto.cpp:35-51 | One nesting is deeper than another exactly if it is the other with at least one more head in front |
| Nesting.DeeperIsStrictOrder | src/cfg/wto.cpp:35-51 | The comparison is irreflexive and transitive |
| Nesting.MembersCompareDeeper | src/cfg/wto.cpp:35-51 | Members of a cycle other than its head always compare deeper than the head |
| FixpointEngine.IsComponentMember | src/cfg/wto.cpp:19-33 | True exactly for the labels of a component, at any depth |
| FixpointEngine.MembersAreNotOuter | src/fwd_analyzer.cpp:208-214 | The value a cycle starts from takes no post from its members other than the head |
| FixpointEngine.FixpointIterator.constructor | src/fwd_analyzer.cpp:95-100 | The first table: all bottom but the entry's pre |
| FixpointEngine.FixpointIterator.CheckAssertions | src/fwd_analyzer.cpp:71-77 | True exactly if every assertion passes |
| FixpointEngine.FixpointIterator.TransformToPost | src/fwd_analyzer.cpp:65-82 | The whole new entry in every case; if nothing failed, all states of the pre satisfy their assertions and step into the post; if an assertion does not pass, the value for which it does not is the pre, and it is kept |
| FixpointEngine.FixpointIterator.JoinAllPrevs | src/fwd_analyzer.cpp:84-93 | The join of the parents' posts, which covers all of them; the entry's own pre for the entry |
| FixpointEngine.FixpointIterator.VisitVertex | src/fwd_analyzer.cpp:175-188 | The new table, and that the label is closed |
| FixpointEngine.FixpointIterator.FirstInvariant | src/fwd_analyzer.cpp:208-214 | The join of the posts of parents that do not lie deeper than the head |
| FixpointEngine.FixpointIterator.Pass | src/fwd_analyzer.cpp:240-248 | After one pass the instruction at the head has been applied, the body is closed and the head's parents are collected |
| FixpointEngine.FixpointIterator.Ascend | src/fwd_analyzer.cpp:217-236 | The ascending phase ends, its values are those of join, cut widening and widening in turn until the value that one pass collects is below the one it started from, and all runs at the head lie in that value |
| FixpointEngine.FixpointIterator.Descend | src/fwd_analyzer.cpp:238-259 | The descending phase ends, its values are those of meet and narrowing in turn until the value is below what the last pass collected or the limit is reached, and the whole cycle is closed |
| FixpointEngine.FixpointIterator.VisitCycle | src/fwd_analyzer.cpp:190-260 | A cycle that is visited without failure is closed; labels outside it are untouched; the head's final pre comes from the outer parents' posts by both phases, and is below what the parents now contribute unless the limit was reached |
| FixpointEngine.ExtrapolateDrops | src/fwd_analyzer.cpp:157-165 | From the third pass on every extrapolation lowers the rank |
| FixpointEngine.RefineCovers | src/fwd_analyzer.cpp:167-173 | What lies in both values lies in the refined one |
| Phases.FirstPassJoins | src/fwd_analyzer.cpp:157-165 | For a domain whose joins are least: after the first pass the value is below whatever is above the value before and the collected one |
| Phases.SecondPassCuts | src/fwd_analyzer.cpp:157-165 | After the second pass no state lies beyond the constant limits |
| Phases.OtherPassesGrow | src/fwd_analyzer.cpp:157-165 | Every other pass keeps the states that were there and adds those it collected |
| Phases.RefinedWithin | src/fwd_analyzer.cpp:167-173 | The descending phase adds no state, and leaves none that its first pass did not collect |
| Phases.OuterParentsAre | src/fwd_analyzer.cpp:208-214 | The parents whose posts a cycle starts from are those that do not lie deeper than its head |
| Phases.JoinIsLeast | src/fwd_analyzer.cpp:84-93 | For a domain whose joins are least, what a label collects is below every value above bottom and all joined posts |
| FixpointEngine.NoBackEdge | src/fwd_analyzer.cpp:274-276 | No edge leads from a component to one visited before it in the same partition |
| Coverage.AscendingEnds | src/fwd_analyzer.cpp:228-233 | When a new value is below the old one, all runs at the head lie in the new one, by induction on their length |
| Coverage.DescendingPass | src/fwd_analyzer.cpp:238-248 | A pass from a covering value collects a covering value, without monotone transformers |
| Coverage.CycleClosed | src/fwd_analyzer.cpp:217-259 | A covered head and a closed body make a closed cycle |
| Coverage.ClosedUnion | src/fwd_analyzer.cpp:274-276 | Regions visited in order make a closed region |
| Analyzer.InitializeCounters | src/fwd_analyzer.cpp:265-272 | The counters of the outermost heads are reset in order, so the entry value covers all states with the counters of the outermost heads set to zero |
| Analyzer.CheckLoopBound | src/fwd_analyzer.cpp:102-113 | Fails exactly if the bound does not follow from the stored pre |
| Analyzer.FindTerminationErrors | src/fwd_analyzer.cpp:114-123 | Fails exactly if some label's bound does not follow; invariants are untouched |
| Analyzer.VisitAll | src/fwd_analyzer.cpp:274-276 | All components visited without failure make a closed region; visiting starts at the entry |
| Analyzer.Analyze | src/fwd_analyzer.cpp:261-285 | Failure is recorded exactly if the table holds an error; every label with an error has an assertion that does not pass for the value kept there, which can be derived from the entry value along the graph; without failure every run from the entry invariant is covered at every label and violates no assertion, loop bounds included if they are checked |
| Derivation.NothingFails | src/fwd_analyzer.cpp:65-82 | Where an inductive family of values passes all its assertions no derivable value fails, so the analysis cannot record an error |
| EbpfDomains.InstanceIsSound | src/crab/ebpf_domain.cpp:50-167 | A domain of this shape over intervals and stack bytes satisfies every law the engine needs, for all programs of a small instruction set |
| EbpfDomains.JoinSound | src/crab/ebpf_domain.cpp:64-86 | The join covers both sides, shortcuts for bottom included |
| EbpfDomains.MeetSound | src/crab/ebpf_domain.cpp:122-128 | The meet covers the common part, also where it turns to bottom |
| EbpfDomains.NarrowSound | src/crab/ebpf_domain.cpp:167 | Narrowing covers the common part |
| EbpfPrecision.JoinIsLeast | src/crab/ebpf_domain.cpp:64-86 | The join is below every common upper bound |
| EbpfPrecision.HullOf | src/crab/ebpf_domain.cpp:64-86 | In numbers: the join of two bounded intervals runs from the lesser of the lower bounds to the greater of the upper ones |
| EbpfPrecision.LeqIsInclusion | src/crab/ebpf_domain.cpp:50-62 | One value that has a state is below another exactly if it has no state that the other lacks |
| EbpfPrecision.BottomBelowIff | src/crab/ebpf_domain.cpp:50-55 | Bottom is below a value exactly if that takes every stack byte for a pointer |
| EbpfPrecision.WidenKeepsStable | src/crab/ebpf_domain.cpp:158-160 | A widening that is not cut keeps exactly the bounds that the second value respects and the bytes numeric in both |
| EbpfPrecision.NarrowKeepsFinite | src/crab/ebpf_domain.cpp:167 | Narrowing refines bounds that are not finite and no others |
| EbpfPrecision.RefinementKeepsFinite | src/fwd_analyzer.cpp:167-173 | From the second refinement on, finite bounds stay |
| EbpfPrecision.InstanceIsPrecise | src/crab/ebpf_domain.cpp:50-167 | The instance has least joins, exact meets, narrowings within their first argument, and cuts within the limits |
| EbpfPrecision.CheckIsExact | src/crab/ebpf_checker.cpp:172-178 | A check passes exactly if the assertion holds in every state of a value that has one |
| EbpfPrecision.TransformIsExact | src/crab/ebpf_transformer.cpp:1332-1342 | Every state of a transformed value comes from a step of a state before, up to what intervals and stack bytes cannot say |
| EbpfDomains.WidenDrops | src/crab/ebpf_domain.cpp:158-165 | For all values, whatever variables they mention: a widening that was needed gives up a bound or a numeric byte, or leaves bottom |
| EbpfDomains.CutMayBreakTheChain | src/crab/ebpf_domain.cpp:158-165 | With the limits that the domain computes for single variables, a widening cut to them loses a state that came before: a register at 2^31 |
| EbpfDomains.CutIsMeet | src/crab/ebpf_domain.cpp:158-165 | The cut keeps exactly those states of the uncut widening that lie within the limits |
| EbpfDomains.CutCoversIffWithin | src/crab/ebpf_domain.cpp:130-165 | A cut widening covers both sides exactly if both lie within the limits |
| EbpfDomains.InstanceCountsLoops | src/crab/ebpf_transformer.cpp:1332-1342 | Increments count loops and nothing else changes a counter |
| EbpfDomains.InstanceRunsStop | src/fwd_analyzer.cpp:261-285 | Accepted programs of these instructions without nested cycles, whose heads are followed by their counters, stop within a number of steps known from sizes |
| Counters.CfgBuilder.InsertAfter | src/ir/cfg_builder.cpp:27-43 | The new label takes over exactly the edges that left the old one, in their order if none is listed twice; refused exactly if it exists |
| Counters.InsertCounters | src/ir/cfg_builder.cpp:300-306 | The counted graph, children in their order if none is listed twice, or refusal exactly if a counter label is taken |
| Counters.CounterLabelsDiffer | src/cfg/label.hpp:34-39 | Counter labels of labels of one kind differ if the labels do, stack frames included |
| Counters.PlainIsInsertable | src/ir/cfg_builder.cpp:300-306 | In a graph without special labels counters can be inserted after any labels |
| CountedWto.TaskAlong | src/cfg/wto.cpp:102-191 | Each task of the builder on the graph without counters is matched by one, two or three tasks on the graph with them, taken from the matching state: numbers keep their order, a counter is numbered right after its head, and partitions differ only by counters |
| CountedWto.BuiltFollows | src/cfg/wto.cpp:205-218 | For any set of labels that lead somewhere, the order built after counters have been inserted is the order built before, each counter right after its label, at every depth |
| CountedWto.CountedOrderIsBuilt | src/ir/cfg_builder.cpp:298-306 | Counting the outermost heads leaves the order as it was but for the counters, so that the second order has the same outermost heads |
| LoopCuts.CountersCutIffFlat | src/cfg/wto.hpp:144-150 | Paths without a counted head are bounded exactly if no cycle is nested |
| LoopCuts.AllHeadsCut | src/cfg/wto.hpp:144-150 | The heads of all cycles, at every depth, would always do |
| LoopCuts.NestedLoopAvoids | src/cfg/wto.hpp:144-150 | With a nested cycle there are paths of any length without a counted head |
| Termination.RunsAreBounded | src/crab/ebpf_checker.cpp:172-178 | Counted heads that cut every loop bound every run of an accepted program by the counter limit, the heads and the labels |
| Termination.AcceptedRunsStop | src/fwd_analyzer.cpp:261-285 | An accepted program without nested cycles whose heads are followed by their counters has no run longer than heads * (limit + 1) * (labels + 2) + labels + 1 |
| Termination.SizeLimitInNumbers | src/crab/ebpf_checker.cpp:172-178 | That number is heads * 100001 * (labels + 2) + labels + 1 |
| Termination.CountersInPlaceClimb | src/ir/cfg_builder.cpp:300-306 | If every cut is followed by its counter, positions strictly increase between counters |
| Termination.InsertedCountersClimb | src/ir/cfg_builder.cpp:300-306 | So they do after counters have been inserted |
| Termination.RoomFromZero | src/crab/ebpf_transformer.cpp:1332-1334 | With counters that start at zero the bound depends on sizes only |
| Termination.BuildProgram | src/ir/cfg_builder.cpp:290-311 | The program built from a graph: counted after the outermost heads of the order that is built, every label with its assertions; refused exactly if a counter label of that order is taken |
| Termination.AnalyzeBounded | src/fwd_analyzer.cpp:261-285 | From a graph to the verdict: refused exactly if a counter label of the order that is built is taken; otherwise the program is the counted one, it fails exactly if its table holds an error, each with its cause, and if it is accepted and its order is flat it stops within a limit known from its first state, and within one known from the numbers of heads and labels alone when no label lists a child twice |
| Termination.AllHeadsCounted | src/cfg/wto.hpp:144-150 | Had all heads been counted, every accepted program, however nested, would stop within the limit known from its first state |
| Nontermination.NestedCyclesEscape | src/cfg/wto.hpp:144-150 | For every order that is not flat, a walk through the counted graph gives a program that meets all loop bounds and has runs of every length, and for which no value whatever fails a check, so that the analysis cannot record an error |
| NestedLoop.NestedOrder | src/cfg/wto.cpp:205-218 | The order that the worklist makes of a graph with an inner loop in an outer one: not flat, and only the outer head is counted |
| EndlessProgram.AcceptsEndlessProgram | src/fwd_analyzer.cpp:261-285 | The whole analysis over intervals, with termination checking on, accepts a program of instructions on the counted graph; all assertions hold in all runs, and there are runs of every length |
| LinkModel.Find | src/elf_loader.cpp:168-176 | The first program of the section with the name, with none before it matching; none exactly if there is none |
| LinkModel.AssembledPlaced | src/elf_loader.cpp:843-877 | Appended bodies sit where the offsets say, after the program's own instructions, each once, and add up to the length |
| LinkModel.SitePatched | src/elf_loader.cpp:873-876 | Site plus one plus the patched immediate is the start of the body of the named target |
| LinkModel.OwnInstructions | src/elf_loader.cpp:843-877 | Instructions keep everything but the immediates of their call sites |
| LinkModel.AppendedAreCallees | src/elf_loader.cpp:849-872 | The appended programs are exactly the direct callees |
| Linker.ProgramReader.AppendSubprograms | src/elf_loader.cpp:833-881 | Success links the program and everything it calls and leaves programs being visited alone; each failure has its cause in the input; a missing target leaves exactly programs that are doomed by it on the visiting list |
| Linker.ProgramReader.LinkPrograms | src/elf_loader.cpp:1086-1091 | Loading fails exactly if the input does not meet `Completes`; all programs are linked exactly if the call graph is acyclic, all targets exist and all immediates fit; some are left unlinked exactly if it completes with a target missing; every program that lacks no target holds its linked body |
| LinkGraph.LinkedLength | src/elf_loader.cpp:860-866 | A linked program is as long as its own instructions and the linked bodies of its distinct direct callees |
| LinkGraph.FinishedMore | src/elf_loader.cpp:878-880 | A program finished after all it calls has its linked body, and each is finished once |
| LinkGraph.FinishedIsAcyclic | src/elf_loader.cpp:838-840 | If all programs finish, no chain of calls returns to its start |
| LinkGraph.CompletesIfPresent | src/elf_loader.cpp:1086-1091 | Where no target is missing, a load goes through exactly if all programs can be linked |
| LinkGraph.LinkableIsSolved | src/elf_loader.cpp:833-881 | What can be linked has bodies that are made of each other |
| Linker.OrphanIsReportedAsRecursion | src/elf_loader.cpp:838-841 | An input without recursion, neither of whose programs is wanted, for which loading stops with a report of recursion |
| LinkSemantics.LinkableIsLoad | src/elf_loader.cpp:833-881 | What the theorems about runs start from, beyond what linking establishes: unique names, relocations that agree on target and section, relocations on calls |
| LinkSemantics.SiteLeadsToCopy | src/elf_loader.cpp:873-876 | At any depth of copies, the call at the instruction of a relocation leads to a copy of the linked body of the program that the relocation names, by section and name |
| LinkSemantics.EveryCallIsLinked | src/elf_loader.cpp:843-877 | For every relocation: the program it names exists, and its call in the linked program leads to a copy of that program's linked body |
| LinkSemantics.LinkAll | src/elf_loader.cpp:1086-1091 | Linking all programs: if that succeeds, names are unique, relocations agree and are of calls, then every call of every linked program leads to the linked program that its relocation names, with an immediate that fits 32 bits |
| LinkSemantics.PresentIff | src/elf_loader.cpp:854-871 | No target of a program is missing exactly if every relocation of it names a program that there is |
| LinkSemantics.DesiredIsComplete | src/elf_loader.cpp:1086-1091 | If a load goes through, every relocation of a program of the desired section names a program that there is |
| LinkSemantics.CallsIff | src/elf_loader.cpp:844-856 | A program calls another exactly if a relocation of it names the other |
| LinkSemantics.FitIffImmediates | src/elf_loader.cpp:873-876 | The offsets fit exactly if the immediates of all calls of the linked programs do |
| LinkSemantics.NamesakeIsPatched | src/elf_loader.cpp:845-846 | Two programs of one name: linking the second changes an instruction that no relocation is of |
| LinkSemantics.SecondTargetIsLost | src/elf_loader.cpp:849-850 | A program that calls two programs of one name: only the first is appended, and both calls lead to it |
| LinkSemantics.StepForward | src/elf_loader.cpp:833-881 | Each step by name is a step of the linked program |
| LinkSemantics.StepBackward | src/elf_loader.cpp:833-881 | Each step of the linked program is a step by name while the running frame is inside its program |
| LinkSemantics.LinkingKeepsRuns | src/elf_loader.cpp:818-832 | Every run by name is a run of the linked program |
| LinkSemantics.LinkingAddsNoRuns | src/elf_loader.cpp:818-832 | Every run of the linked program is one by name, up to where a frame leaves its program |
| Splitter.ProgramNameAndSize | src/elf_loader.cpp:133-155 | The program reaches to the next function symbol or the end, and bears the name of the last function symbol at its start, the section's if there is none |
| Splitter.LastSymbolNames | src/elf_loader.cpp:143-149 | A named function symbol of the section that no later one replaces gives its name to the program at its place |
| Splitter.StartsAtSymbols | src/elf_loader.cpp:1050-1066 | Programs start at the beginning of the section and at its named function symbols inside it, and nowhere else |
| Splitter.FitsInNumbers | src/elf_loader.cpp:83-86 | What fits: a start and a size below 2^32, and a size that is a multiple of 8 |
| Splitter.Split | src/elf_loader.cpp:1050-1066 | Programs tile the section, start at its beginning and exactly at its function symbols, and bear their names; refused exactly if some program starts beyond 32 bits, is longer than 32 bits can say, or is not a whole number of instructions |
| Splitter.OnePieceEach | src/elf_loader.cpp:994-1005 | Every offset of a section belongs to exactly one program |
| Splitter.OrderDoesNotMatter | src/elf_loader.cpp:139-153 | Boundaries do not depend on the order of symbols |
| Cells.OffsetMap.Touch | src/crab/array_domain.cpp:286 | Looking up an offset creates an empty group there |
| Cells.OffsetMap.RemoveCell | src/crab/array_domain.cpp:246-249 | The cell goes, its group stays |
| Cells.OffsetMap.MakeCell | src/crab/array_domain.cpp:294-305 | The cell is there afterwards, and nothing else changes |
| Cells.OffsetMap.GetOverlapCells | src/crab/array_domain.cpp:308-400 | Exactly the other overlapping cells that the search can see, none twice; the cells are unchanged but a group at the place remains; refused exactly if the search comes to an overlapping cell beyond 31 bits |
| Cells.CompleteIffUnobstructed | src/crab/array_domain.cpp:337-379 | The search misses nothing exactly if, below, no group that reaches in lies before one that does not, and, inside, no empty group lies before one with cells |
| Cells.RegularIsUnobstructed | src/crab/array_domain.cpp:332-336 | An index without empty groups whose groups reach further and further never obstructs |
| Cells.SearchSpoilsSearch | src/crab/array_domain.cpp:396-398 | A search that was complete is not any more after another search |
| Cells.OffsetMap.GetOverlapCellsSymbolic | src/crab/array_domain.cpp:252-281 | All cells of the groups whose largest cell may overlap, none twice; refused exactly if some group lies beyond 31 bits |
| Cells.LargestDecides | src/crab/array_domain.cpp:256-274 | Testing the largest cell decides whether any cell of the group may overlap |
| Cells.OverlapIsCommonByte | src/crab/array_domain.cpp:141-148 | A cell overlaps a constant place exactly if they have a byte in common |
| Cells.SuspectedIsReached | src/crab/array_domain.cpp:511-514 | A write of unknown place removes a cell exactly if a cell at the same offset covers a byte between some index and that index plus some size; for bounded intervals, between the least index and the largest index plus the largest size |
| Cells.OffsetMap.KillAndFind | src/crab/array_domain.cpp:496-531 | Which cells are removed, which stay, whether the place is known, and exactly when the code refuses |
| Cells.OffsetMap.Store | src/crab/array_domain.cpp:763-783 | For types, whose cells are not split: after a write of unknown place no cell covers a byte it may have touched; after one of known place, if unobstructed, only the cell of that place does; refused exactly as removing is |
| Cells.SurvivorsUntouched | src/crab/array_domain.cpp:511-514 | No survivor covers a byte between any index and index plus size |
| Cells.RefusedInNumbers | src/crab/array_domain.cpp:101-104 | When a write is refused, in numbers: offsets beyond 31 bits, sizes beyond 32, and groups with cells beyond 31 bits that the search comes to |
| StackBytes.GetByte | src/crab/array_domain.cpp:618-627 | A byte is known exactly if some aligned cell around it is constant, it is the byte in memory, and the cast fails exactly if the widest such constant does not fit 64 bits |
| StackBytes.SuppliedIsKnown | src/crab/array_domain.cpp:618-627 | A byte is known exactly if an aligned constant cell of one, two, four or eight bytes covers it |
| StackBytes.CopyBytes | src/crab/array_domain.cpp:612-634 | All bytes are copied exactly if all are known, and they are those in memory; the cast fails exactly if a constant that does not fit 64 bits comes before any byte that is missing |
| StackBytes.Load | src/crab/array_domain.cpp:601-686 | Which of the four outcomes occurs, for any constant offset, negative or not, failed casts included; a rebuilt number is what the bytes in memory mean under the byte order, zero-extended, or signed for signed loads of eight bytes |
| StackBytes.LoadRebuilds | src/crab/array_domain.cpp:601-668 | A load of one, two, four or eight bytes without a cell of its own yields a number exactly if such cells supply every byte, where constants fit 64 bits |
| StackBytes.LoadThrows | src/crab/array_domain.cpp:570 | It throws if the widest constant around its first byte does not fit 64 bits |
| StackBytes.LoadOutside | src/crab/array_domain.cpp:605 | It throws if the offset does not fit a signed 64-bit integer |
| StackBytes.KeysWrap | src/crab/array_domain.cpp:605-606 | Negative offsets have the largest keys, and addresses wrap around |
| StackBytes.ValueByteIsMemory | src/crab/array_domain.cpp:563-599 | The byte taken from a constant cell is the byte in memory, for either byte order |
| StackBytes.StoredByteIs | src/crab/array_domain.cpp:575-599 | Each byte of a stored number counts multiples of a power of 256, from below or from above |
| StackBytes.StoreThenRead | src/crab/array_domain.cpp:635-668 | Reading stored bytes gives the number modulo its width |
| StackBytes.ReadThenStore | src/crab/array_domain.cpp:635-668 | Storing what was read gives the bytes back |
| StackBytes.StoredMeaning | src/crab/array_domain.cpp:659-667 | A stored number in range is what a load of the same width means |
| StackStore.SplitNumberVar | src/crab/array_domain.cpp:453-494 | The index afterwards holds exactly the cells before and what is left, on either side of the place, of the numeric constant cells of eight bytes that the search reports; a cell that is no such part keeps its constant, and so does a part that had a cell; a new part of an aligned cell is constant if it is as wide as a load, and agrees with memory if the constants did. It goes through only if place and reported cells fit 32 bits, and then does if all cells start within 32 bits and all constants fit 64 |
| StackStore.StoreNumber | src/crab/array_domain.cpp:740-761 | Storing a constant: the index holds exactly the place, the cells before and the parts but for what the search reports; the place has the constant, what is reported has none, everything else is as splitting leaves it; if the search misses no constant, the constants agree with the memory that holds the stored bytes. It goes through under the conditions of splitting |
| StackStore.RestStaysCovered | src/crab/array_domain.cpp:471-490 | Of a numeric constant cell of eight bytes that a store cuts, every byte outside the place stays in a cell that holds that whole side and none of the place; if the cell is aligned and the side as wide as a load, that cell is constant |
| StackStore.StoreKeepsIff | src/crab/array_domain.cpp:740-761 | After every store at a place the constants agree with memory exactly if the search for the place misses no constant that loads use; if it misses one, there is a number after whose store no outcome agrees |
| StackStore.LoadSpoilsStore | src/crab/array_domain.cpp:601-686 | A run of the modelled code on an empty index: store, load, store, load. The last load takes a constant that contradicts memory |
| StackStore.LoadHidesCell | src/crab/array_domain.cpp:286 | The group that the load leaves behind is what hides the constant: without it the second store would miss nothing |
| StackStore.UnobstructedMissesNothing | src/crab/array_domain.cpp:337-379 | Where nothing obstructs the search no constant is missed |
| Bitset.BitsetDomain.Reset | src/crab/bitset_domain.hpp:103-111 | Exactly the bytes of the range on the stack become numeric |
| Bitset.BitsetDomain.Havoc | src/crab/bitset_domain.hpp:113-121 | Exactly the bytes of the range on the stack become unknown |
| Bitset.BitsetDomain.Uniformity | src/crab/bitset_domain.hpp:75-88 | Both answers, exactly |
| Bitset.BitsetDomain.AllNumWidth | src/crab/bitset_domain.hpp:92-101 | The longest numeric run from an offset |
| Bitset.BitsetDomain.AllNum | src/crab/bitset_domain.hpp:127-142 | True exactly if the part of the range on the stack is numeric |
| Bitset.BitsetDomain.ToRanges | src/crab/bitset_domain.cpp:37-65 | The maximal numeric runs, in order, apart, and together all numeric bytes |
| Bitset.RunsMeetOrAgree | src/crab/bitset_domain.cpp:46-62 | There is only one list of maximal runs |
| Bitset.RoundTrip | src/crab/ebpf_domain.cpp:366-370 | Recording the listed runs on a fresh bit set rebuilds the original |
| Bitset.ToSet | src/crab/bitset_domain.cpp:37-65 | The text of the maximal runs, apart and in order, which cover exactly the numeric bytes: a single byte in one form, a longer run in the other |
| Bitset.FromSet | src/ir/parse.cpp:399-403 | Reading succeeds exactly if every text is in the form for longer runs |
| Bitset.TextRoundTrip | src/crab/ebpf_domain.cpp:366-370 | Reading back what was printed succeeds exactly if no numeric byte stands alone, and then rebuilds the bytes |
| Bitset.FirstByteAlone | src/ir/parse.cpp:52 | A stack of which only the first byte is a number is printed in the form that is not read |
| Bitset.BitsetDomain.MinAllNumSize | src/crab/array_domain.cpp:551-560 | The largest number of bytes that are numeric from every offset of the interval |
| Linear.Plus | src/arith/linear_expression.hpp:99-105 | The sum for every valuation, without zero coefficients |
| Linear.Subtract | src/arith/linear_expression.hpp:129-135 | The difference for every valuation, without zero coefficients |
| Linear.ScaledValue | src/arith/linear_expression.hpp:75-81 | The product for every valuation, without zero coefficients |
| Linear.NegatedIsComplement | src/arith/linear_constraint.hpp:60-70 | Negation is the exact complement over the integers |
| Linear.AnswersAreRight | src/arith/linear_constraint.hpp:35-56 | Tautology and contradiction answers are never wrong |
| Linear.OrderAnswersAreComplete | src/arith/linear_constraint.hpp:35-56 | For order constraints in normal form the answers miss nothing |
| Numbers.ZeroExtendIsUnique | src/arith/num_big.hpp:132-185 | The only congruent number in the unsigned range |
| Numbers.SignExtendIsUnique | src/arith/num_big.hpp:118-162 | The only congruent number in the signed range |
| Numbers.ExtensionsAbsorb | src/arith/num_big.hpp:117-185 | Either extension absorbs the other |
| Numbers.ExtensionCommutes | src/arith/num_big.hpp:117-185 | Wrapped sums and products may use any representatives |
| Numbers.FillOnesIsLeast | src/arith/num_big.hpp:309-314 | The least number of the form 2^k - 1 at or above |
| Numbers.FillOnesBoundsOr | src/arith/num_big.hpp:309-314 | It bounds the bitwise or of any two numbers up to it |

## Left out

- Transformers and checks instruction by instruction: they enter as laws of the domain (`AbstractDomain.Sound`); a small instruction set stands for them in `EbpfDomains`.
- EbpfDomains.InstanceIsSound: the numeric domain's own representation (difference-bound matrices, finite domains, type sets) and the transformer and checker code are not modelled; intervals and nine instructions stand for them.
- EbpfDomains.CutMayBreakTheChain: the constant limits that relate two variables (an offset and a region's or packet's size, a counter and a register) cannot be said in intervals and are not modelled.
- In-place forms of the domain's operators (`|=` and its move variants) are modelled as functions on values, with the same cases; aliasing of moved values is not captured.
- The set of labels that a graph lists for a node is a sequence in some fixed order; the model does not sort labels, and no result depends on the order. That nothing is listed twice, as in a set, is asked for only where the order of the counted graph is compared with the original (`Counters.DistinctChildren`).
- Cycles are identified by their head instead of by shared pointers; the tables of containing and enclosing cycles map labels to such heads.
- The iteration counters of both phases do not wrap around: the ascending one is not shown to stay below 2^32, the descending one is bounded by its limit.
- Depth-first numbers are unbounded with a separate infinity; they are shown to stay within n * (n + 1) for n labels.
- The value at exit, the largest loop count and all printing but that of numeric bytes: read off the table after the analysis.
- Nontermination.NestedCyclesEscape: the program is given by its steps and its checks; a program of instructions is given for one graph only, in `EndlessProgram`.
- Reading ELF files, BTF, CO-RE relocations, maps and global variables: they depend on libraries and platform callbacks that are not part of this model.
- Line information that the linker copies along with instructions: it follows the same offsets.
- Linker.ProgramReader.LinkPrograms: the removal of programs outside the desired section is not modelled, and the programs' bodies after a thrown error are left open, since loading stops there.
- Cells.OffsetMap.KillAndFind: removed cells are returned instead of being forgotten in a numeric domain; `StackStore.StoreNumber` forgets their constants.
- Cells.OffsetMap.Store: the numeric bytes that a store of a type records besides are those of `Bitset.BitsetDomain`; stores of numbers, which split cells first, are `StackStore.StoreNumber`.
- StackBytes.Load: asks for at most eight bytes, the size of its buffer; the host is taken to be little-endian.
- StackStore.StoreNumber: one constant per cell stands for its signed and unsigned values, the stored value is a constant of at most eight bytes, and a place that is not constant, for which nothing is split, is left to `Cells.OffsetMap.KillAndFind`.
- Loads of types.
- Bitset.BitsetDomain.AllNum: asks for bounds that are in order once clamped to the stack, as the code asserts.
- Addition and subtraction of a single variable or constant: special cases of `Linear.Plus` and `Linear.Subtract`.
