# Verified models of GCC middle-end algorithms

This project models six algorithms of the compiler and proves what they are for.  The theorems are about every flow
graph, bitmap, type, expression or sequence of calls that the code accepts from its callers; where a statement needs more
of its input, "Left out" names the member and the condition.

* **Basic block reordering** (`gcc/bb-reorder.c`): traces are built in rounds over two priority heaps, loops in them
  are rotated, blocks may be copied, and all traces are threaded through `aux` into one layout.  The class
  `Reordering.Reorder` carries the links, marks, heaps and tables; `Connection` joins the traces; `Unfolding` shows that
  copying blocks changes no run of the function; `Pass` puts it together.
* **Sparse bitmaps** (`gcc/bitmap.c`, `gcc/bitmap.h`): doubly linked elements on the heap, the roving cursor, the list of
  free lists, all set operations in place and with a destination, comparisons, and the three iterators.  Each bitmap
  mirrors a canonical sequence of chunks that denotes a set of numbers.
* **Branch target registers** (`gcc/bt-load.c`): gen and kill sets, reaching definitions, definition/use webs over linked
  objects, live ranges as single-entry regions of the dominator tree, and the migration of definitions up that tree.
* **Shortened comparisons and case labels** (`gcc/c-common.c`, with `get_narrower` from `gcc/tree.c`).
* **Alias sets** and **address conflicts** (`gcc/alias.c`).

Modules: `Cfg`, `Unfolding`, `Traces`, `Selection`, `Growth`, `Rotation`, `Layout`, `Reordering`, `CopyPlans`, `Threading`,
`Connection`, `Pass` for block reordering; `Chunks`, `Elements`, `Bitmaps`, `Merging`, `SetAlgebra`, `IntoAlgebra`, `Compare`, `BitScan`, `Scan`,
`Iterators`, `Conservation` for bitmaps; `BtrFlow`, `BtrWebs`, `BtrUses`, `LiveRanges`, `Dominators`, `Migration`,
`WebRecords`, `Migrate`, `RecordExamples` for branch target registers; `IntTypes`, `Shorten`, `Chains`, `ShortenValues`,
`ShortenExact`, `CaseLabels` for the front end; `AliasSets`, `TypeAliases`, `Memrefs` for aliases; `Options` is shared.
`dafny verify dfyconfig.toml` checks everything.

## Where the code does not do what it says

* `shorten_compare`: an operand that is sign-extended and then zero-extended to the type of the comparison is treated as
  if sign-extended throughout.  `ShortenExact.MixedExample` is a wrong answer, `ShortenExact.Exactness` the exact
  condition for all operands.
* `memrefs_conflict_p`: dividing sizes and offset by the factor of two products rounds.  `Memrefs.UnitsExample` is a wrong
  answer, `Memrefs.DenialExact` the exact condition for each pair of addresses, `Memrefs.UnitsExact` for all distances.
* The three-operand bitmap operations compare a chunk number of the cursor's element that they may have overwritten
  (`gcc/bitmap.c:159` after `:609`), so the cursor may be left on a freed element.  `Compare.CursorCanDangle` is an example,
  `SetAlgebra.CursorKept` the exact condition.  The list itself is always right.
* `check_case_bounds`: of an empty range (low > high) an end may stay out of bounds; `CaseLabels.BoundsKept` says exactly
  when, and `CaseLabels.EmptyRangeExample` is an example.
* `record_alias_subset`: the descendants are those of the graph only if sets are recorded bottom-up;
  `AliasSets.TopDownExample` shows a wrong order, `AliasSets.ExactAfter` and `AliasSets.RunExact` give the exact condition for
  each call and for a run.
* `combine_btr_defs` relinks the uses of the merged web before it clears the web's register, so the search for edge
  blocks (`gcc/bt-load.c:818-831`) follows the first of them into the other web's old list.  The model does the same.
  `RecordExamples.FollowedExample` has a web that loses its register; `WebRecords.ClearSame` and
  `WebRecords.MergeExact` give the exact conditions.  A web that has no other use of its register after its own is never
  affected.
* `move_btr_def` may place a definition in a block in which another web with the same register ends.  That web does not
  learn of it, and clearing it later takes the register of the first one out of the record: `RecordExamples.HeadExample`,
  with the exact condition in `WebRecords.PlaceExact`.  With `flag_btr_bb_exclusive` it cannot happen, and the whole
  migration keeps every web recorded (`Migrate.Migrator.MigrateBtrDefs`).
* `link_btr_uses` passes over blockages and takes the registers clobbered by ordinary calls also for sibling calls, unlike
  the computation of gen sets.  `BtrUses.BlockageExample` is a definition linked to a use that it does not flow to,
  `BtrUses.LinkedIffAgrees` the exact condition.
* `connect_traces` may keep the block found for an earlier candidate when it chooses another one for copying
  (`gcc/bb-reorder.c:1042-1095`): `CopyPlans.StaleExample`, with the exact condition in `CopyPlans.PlanExact`.  The layout
  is acyclic and complete all the same.  `trace->length` does not count the header copy of a rotated loop.
* `bb_to_key` adds a hundredfold of the highest frequency of an edge that invites a block to the block's own frequency, so a
  much more frequent block may come before one with a higher such edge: `Selection.InvitationExample`, with the exact
  condition in `Selection.GreaterInvitation`.
* The comments on `push_to_next_round_p` and `find_traces` promise an extra last round for cold blocks only; there are
  `N_ROUNDS - 1` rounds, and the code does not look at the section: `Selection.ColdExample`, `Selection.WaitsOnce`.
* `better_edge_p` may call each of two edges better than the other (`Selection.BetterBothWays`), so the order of edges
  matters; `Selection.ClearWinner` says when it does not.
* `rotate_loop` replaces its best exit by one with a higher frequency or a higher count, so the choice depends on the
  order of scanning (`Rotation.ChoiceDependsOnOrder`); `Rotation.ChooseLoopEnd` says when it is the best in both.
* A comment promises that `migrate_btr_def` returns nonzero if the cost fell below the bound; the code also does so when it
  ran out of dominators.

## Model

| member | source | states |
|---|---|---|
| Pass.ReorderBasicBlocks | gcc/bb-reorder.c:1891-1941 | For every well-formed flow graph: the final `aux` chain starts with the first trace, is acyclic, holds every block reachable before or after and every copy exactly once, changes section at most once when partitioning, and the function has exactly the runs it had before, copies standing for their originals |
| Unfolding.UnfoldsCopy | gcc/bb-reorder.c:757-803 | Copying a block and redirecting one edge to the copy keeps the graph an unfolding of the original one: edges come from edges between originals, and every copy leads wherever its original led |
| Unfolding.SameRuns | gcc/bb-reorder.c:757-803 | An unfolded graph and the original have the same runs from ENTRY, in both directions |
| Unfolding.WalkUnfolds | gcc/bb-reorder.c:757-803 | Every run of the original graph is still there after any number of copies |
| Reordering.Reorder.FindTraces | gcc/bb-reorder.c:223-286 | The rounds follow one another with the thresholds of the tables, from a heap of the entry blocks, each a run of seeds until none waits; when all are over both heaps are empty, every block reachable from ENTRY is visited, and every visited block lies in exactly one trace at one place |
| Reordering.Reorder.FindTraces1Round | gcc/bb-reorder.c:427-750 | A round is a run of seeds, each the waiting block with the least key, until none waits; it keeps the frontier invariant (every non-EXIT successor of a finished block is visited or in exactly one heap) and all earlier traces, leaves the current heap empty, and empties both in the last round |
| Reordering.Reorder.NextSeed | gcc/bb-reorder.c:438-475 | The waiting block with the least key is postponed exactly if push_to_next_round_p says so, and otherwise a trace is built from it; the first shrinks the heap, the second the unvisited set |
| Reordering.Reorder.BuildTrace | gcc/bb-reorder.c:470-743 | From the seed on, each next block is the one selected, or the block it skips over, until none is selected or the selected one is in the trace; the chain is that path, or the path with its loop rotated or its header copied; one chain is added, the frontier is closed again, and only blocks that push_to_next_round_p delays enter the next round |
| Reordering.Reorder.MarkBbVisited | gcc/bb-reorder.c:407-417 | Marking a block takes it out of whichever heap held it and of no other, keeping heap membership unique |
| Reordering.Reorder.ExtractMin | gcc/bb-reorder.c:444-446 | The seed has the smallest stored key; while nothing has been copied and frequencies are in their range, no waiting block would start a trace sooner in the sense of Sooner |
| Selection.KeysOrder | gcc/bb-reorder.c:808-838 | For frequencies in their range keys order blocks exactly so: unwanted (cold or never executed) blocks last; blocks invited by an edge of positive frequency from a trace end or closing a cycle before the others; those by a hundredfold of the highest such frequency and their own; the others by their own |
| Selection.GreaterInvitation | gcc/bb-reorder.c:830-838 | Of two invited blocks one with the greater highest edge frequency comes first if and only if the other is not more frequent by a hundredfold of the difference or more; on ties the more frequent one |
| Selection.InvitationExample | gcc/bb-reorder.c:830-838 | A concrete graph in which the block with the lower highest edge frequency comes first |
| Selection.WaitsOnce | gcc/bb-reorder.c:199-217 | A block waits exactly while it is not hot enough and another round follows; with thresholds that do not rise, once taken up it would never wait again |
| Selection.ThresholdsFall | gcc/bb-reorder.c:107-111 | The thresholds of the rounds fall |
| Selection.ColdExample | gcc/bb-reorder.c:191-217 | A cold block that does not wait for the last round |
| Cfg.EdgeFrequencyRounds | gcc/bb-reorder.c:830-833 | The frequency of an edge is that of its source times its probability, rounded to the nearest |
| Reordering.Reorder.PushSuccessors | gcc/bb-reorder.c:553-615 | Exactly the unvisited successors other than the chosen one enter the heaps; only blocks that push_to_next_round_p delays enter the next round's |
| Reordering.Reorder.Spread | gcc/bb-reorder.c:494-615 | Choosing a successor and pushing the others leaves nothing forgotten except, possibly, the target of the chosen edge |
| Reordering.Reorder.Extend | gcc/bb-reorder.c:662-709 | The next block of the trace is the chosen target or, in the A-B-C reselection, the skipped block B that leads to it; then only C may be out of the heaps, and B leads to it |
| Selection.SelectSuccessor | gcc/bb-reorder.c:494-551 | The edge selected is the leader of the comparison in order (the first suitable edge until another takes its place), unless its target is cheaper to copy than to jump to; no later suitable edge is better; no edge is selected only if none is suitable or the leader has such a target |
| Selection.ClearWinner | gcc/bb-reorder.c:494-551 | An edge that every other suitable one falls short of by more than a tenth of its probability is the one selected, or refused because its target is better copied |
| Selection.AfterCall | gcc/bb-reorder.c:514-527 | After a call the last edge that falls through leads |
| Selection.BetterMeans | gcc/bb-reorder.c:848-891 | An edge is better if it is more probable by more than a tenth; if neither is much more or less probable, if its target is less frequent by more than a tenth or, about as frequent, follows anyway; or if it avoids crossing |
| Selection.ClearlyBetter | gcc/bb-reorder.c:856-870 | More than a tenth decides, one way only, whatever the targets are |
| Selection.BetterBothWays | gcc/bb-reorder.c:856-883 | Two edges each better than the other |
| Selection.Reselect | gcc/bb-reorder.c:664-704 | The A-B-C reselection is made if and only if some edge skips ahead in the required way |
| Reordering.Reorder.RecountKeys | gcc/bb-reorder.c:717-743 | The keys of the waiting successors of a trace end are brought up to date, the keys of all other blocks stay |
| Reordering.Reorder.CloseLoop | gcc/bb-reorder.c:617-661 | Of a closed loop: rotation, a copy of the header at the end, or nothing, exactly as the frequencies, the size of the header and the start of the function decide; in each case the finished trace is an ordered chain and the frontier stays closed |
| Reordering.LoopKinds | gcc/bb-reorder.c:617-661 | A loop is rotated if more than four fifths of the times that its header is entered come over the closing edge, and otherwise its header may be copied |
| Reordering.Reorder.RotateLoop | gcc/bb-reorder.c:291-403 | The trace becomes prefix followed by a cyclic shift of the loop that ends at the chosen exit (or keeps its end if there is none); a header copy stands between them exactly if an exit was found and the block before the loop only leads to a small header with a conditional jump |
| Rotation.ChooseLoopEnd | gcc/bb-reorder.c:296-362 | An exit to a free block or trace start is chosen before any other; no exit of the same class scanned after the chosen one has a higher frequency or count; the chosen one is highest in both if and only if some exit is, and always if frequency and count order the exits alike |
| Rotation.ChoiceDependsOnOrder | gcc/bb-reorder.c:318-358 | Two exits, one more frequent and one with a higher count: whichever is scanned later is chosen |
| Rotation.RotatedSpec | gcc/bb-reorder.c:364-402 | Rotation keeps the prefix, permutes the rest and ends at the chosen block |
| Rotation.RotatedLinked | gcc/bb-reorder.c:364-402 | The two link changes make the rotated sequence a linked acyclic list again with the right first block |
| Reordering.Reorder.Relink | gcc/bb-reorder.c:364-402 | The links and `trace->first` after rotation, written out |
| Reordering.Reorder.CopyHeader | gcc/bb-reorder.c:382-393 | The header copy is inserted right after the last prefix block exactly if the block before the loop only leads to a small header with a conditional jump; otherwise nothing changes |
| Reordering.Reorder.CopyBb | gcc/bb-reorder.c:757-803 | The copy is a new block that goes where the original goes, linked right after the given block; nothing else is relinked, and the graph stays an unfolding of the original |
| Reordering.Reorder.CopyIntoChain | gcc/bb-reorder.c:757-803 | Copying into a finished trace puts the copy at one place of its chain and leaves the other chains alone |
| Traces.WalkVisited | gcc/bb-reorder.c:427-750 | With both heaps empty every walk from ENTRY stays in visited blocks |
| Traces.FrontierOriginal | gcc/bb-reorder.c:427-750 | What is closed in the graph with copies is closed in the original graph |
| Connection.ConnectTraces | gcc/bb-reorder.c:896-1152 | The layout is threaded by turns from the start place, each seeded by the first free trace of its section and carried out as TurnOk says; every trace that can be placed is connected exactly once into one linked acyclic chain from the first block of trace 0, all copies included; with partitioning the chain is one section followed by the other |
| Connection.FindPredecessors | gcc/bb-reorder.c:954-993 | Each trace put in front is one that a best edge to the front comes from, and in the end none is left or the front is trace 0; each is connected once and none is shared with what was connected |
| Connection.FindSuccessors | gcc/bb-reorder.c:999-1137 | The layout goes on step by step, each step the trace of a best edge or a copy that is called for, and stops only when no edge leads on and no copy is called for, or after a copy with no trace to follow; with partitioning only blocks of the current section are added |
| Threading.LayoutFollowsBest | gcc/bb-reorder.c:999-1037 | In the final layout, whenever an edge fell through from the block just laid out to the start of a trace free then, the next block is the target of one that no other such edge beats |
| Threading.NextIsBest | gcc/bb-reorder.c:999-1037 | The same for one step of the search |
| Threading.NothingLeft | gcc/bb-reorder.c:999-1137 | Where the search ends no edge leads on, unless the last block is a copy after which no trace was to follow |
| Threading.CopiedExactly | gcc/bb-reorder.c:1096-1137 | A copy is made exactly if nothing can be appended, sections are not kept apart, and the block of the plan may be copied |
| Connection.BestPredecessor | gcc/bb-reorder.c:958-978 | The edge chosen is at least as probable as all others from ends of free traces, the longer trace on ties |
| Connection.BestSuccessor | gcc/bb-reorder.c:1002-1024 | The edge chosen is at least as probable as all others to starts of free traces, the longer trace on ties |
| Connection.CopyOnto | gcc/bb-reorder.c:1122-1123 | A copy that joins two traces lands at the end of the layout and stays known to be laid out once |
| CopyPlans.PlanCopy | gcc/bb-reorder.c:1040-1095 | The candidate for copying is the first most probable acceptable one, and the block found is that of the last candidate accepted for what its target leads to |
| CopyPlans.PlanExact | gcc/bb-reorder.c:1040-1095 | The block found belongs to the chosen candidate, and its target leads there, if and only if the candidate is not a one-block trace accepted after another candidate had found a block |
| CopyPlans.StaleExample | gcc/bb-reorder.c:1042-1125 | A concrete graph: block 3 may be copied and is copied after block 5, and the trace of block 2 follows the copy although block 3 does not lead to it |
| CopyPlans.StaleTables | gcc/bb-reorder.c:1042-1125 | In that graph the tables are those of four traces, with every block in one of them |
| CopyPlans.StaleReached | gcc/bb-reorder.c:1042-1125 | In that graph two walks from the entry reach every block |
| Connection.TwoPasses | gcc/bb-reorder.c:918-924 | A second pass is made exactly if some trace lies in another section than the first |
| Layout.Join | gcc/bb-reorder.c:979-996 | Joining two linked parts that share no trace gives a linked part with the blocks of both |
| Pass.VerifyHotColdBlockGrouping | gcc/bb-reorder.c:1856-1885 | The check reports an error exactly if the chain changes section more than once |
| Elements.Obstack.Allocate | gcc/bitmap.c:98-143 | An element comes from the list of free lists if there is one, and leaves it; otherwise it is new: never one that a bitmap owns |
| Elements.Obstack.Free | gcc/bitmap.c:49-65 | A freed element is exactly once in the list of free lists |
| Elements.Obstack.FreeList | gcc/bitmap.h:54-60 | A whole list becomes one inner free list by touching its first element only; no node is lost or shared |
| Conservation.Step | gcc/bitmap.c:49-183 | Over all bitmaps of one obstack: after every operation on one of them, each element ever created is in exactly one list or once free, and none is lost |
| Bitmaps.Bitmap.ElementFree | gcc/bitmap.c:70-94 | The element leaves the list and joins the free list, the cursor moves to a neighbour, nothing is lost |
| Bitmaps.Bitmap.EltClearFrom | gcc/bitmap.c:147-183 | The suffix goes to the free list in one step; exactly when the cursor stays and when it moves, and when it is still in the list |
| Bitmaps.Bitmap.Clear | gcc/bitmap.c:187-192 | The list is empty, all elements are on the free list |
| Bitmaps.Bitmap.ElementLink | gcc/bitmap.c:296-347 | From any cursor position the element lands at its sorted place, and the cursor points at it |
| Bitmaps.Bitmap.EltInsertAfter | gcc/bitmap.c:353-378 | A new element lands right after the given one |
| Bitmaps.Bitmap.Nearest | gcc/bitmap.c:421-455 | From any cursor position the search ends at the chunk or next to its place |
| Bitmaps.Bitmap.FindBit | gcc/bitmap.c:421-463 | The element of the bit's chunk is returned exactly if there is one; the set does not change and the cursor stays in the list |
| Bitmaps.Bitmap.SetBit | gcc/bitmap.c:486-503 | The members are the old ones and the bit, the list stays canonical, the cursor valid |
| Bitmaps.Bitmap.ClearBit | gcc/bitmap.c:467-482 | The members are the old ones without the bit; no element with all bits zero stays; every element is still owned once |
| Bitmaps.Bitmap.BitP | gcc/bitmap.c:507-522 | The test agrees with membership and keeps list and cursor valid |
| BitScan.FirstSetBit | gcc/bitmap.c:527-573 | The result is the least member |
| Chunks.MergeMember | gcc/bitmap.c:578-1099 | The chunk-wise merge denotes the set operation applied to the members, for all four operations |
| Chunks.MergeCanonical | gcc/bitmap.c:578-1099 | Merging two canonical lists gives a canonical one: sorted, without zero chunks |
| Chunks.CanonicalUnique | gcc/bitmap.c:1105-1124 | A set has only one canonical list |
| SetAlgebra.Copy | gcc/bitmap.c:382-414 | The destination becomes an equal list over its own elements |
| SetAlgebra.And | gcc/bitmap.c:578-630 | dst is the intersection whatever it held and whatever its cursor; all elements stay owned; the cursor survives exactly if CursorKept holds, always if dst was empty or both sources are the same |
| SetAlgebra.AndCompl | gcc/bitmap.c:681-743 | The same for the difference |
| SetAlgebra.Ior | gcc/bitmap.c:801-900 | The same for the union; the result is true exactly if dst changed |
| SetAlgebra.Xor | gcc/bitmap.c:969-1040 | The same for the symmetric difference |
| SetAlgebra.CursorFate | gcc/bitmap.c:147-183 | When a walk is complete, CursorKept says exactly whether freeing the rest leaves the cursor in the list |
| Compare.IorKeepsCursor | gcc/bitmap.c:801-900 | If the union contains what dst held, the cursor always survives |
| Compare.CursorCanDangle | gcc/bitmap.c:609-626 | Concrete lists for which bitmap_and leaves the cursor on a freed element |
| IntoAlgebra.AndInto | gcc/bitmap.c:634-677 | In place, a becomes the intersection; list, cursor and ownership stay valid |
| IntoAlgebra.AndComplInto | gcc/bitmap.c:747-797 | In place, a becomes the difference; the result is true exactly if a changed |
| IntoAlgebra.IorInto | gcc/bitmap.c:904-965 | In place, a becomes the union; the result is true exactly if a changed |
| IntoAlgebra.XorInto | gcc/bitmap.c:1044-1099 | In place, a becomes the symmetric difference |
| Compare.EqualP | gcc/bitmap.c:1105-1124 | True exactly if both have the same members |
| Compare.IntersectP | gcc/bitmap.c:1127-1151 | True exactly if there is a common member |
| Compare.IntersectComplP | gcc/bitmap.c:1155-1178 | True exactly if some member of the first is not in the second |
| Scan.FromStart | gcc/bitmap.h:195-348 | Bits ahead of a freshly started position are exactly the qualifying ones from the start bit on, given the `start_bit += !bits` adjustment |
| Scan.LeaveWord | gcc/bitmap.h:365-405 | Rounding up from an exhausted word leads to the first bit of the next and skips no member |
| Iterators.BitmapIterator.InitAnd | gcc/bitmap.h:237-300 | The iterator yields what both bitmaps have from the start bit on |
| Iterators.BitmapIterator.InitCompl | gcc/bitmap.h:305-348 | The iterator yields what the first bitmap has and the second has not, from the start bit on |
| Iterators.BitmapIterator.StepAnd | gcc/bitmap.h:411-475 | A step stops at the least common bit ahead, or there is none |
| Iterators.BitmapIterator.StepCompl | gcc/bitmap.h:478-526 | A step stops at the least remaining bit ahead, or there is none |
| Iterators.VisitSet | gcc/bitmap.h:195-232 | Each bit of the set at or above the start is visited once, in ascending order, and the loop ends |
| Iterators.VisitAnd | gcc/bitmap.h:411-475 | Each common bit at or above the start is visited once, in ascending order |
| Iterators.VisitAndCompl | gcc/bitmap.h:478-526 | Each bit of the first but not the second at or above the start is visited once, in ascending order |
| BtrWebs.ComputeBlock | gcc/bt-load.c:448-612 | A block generates exactly the definitions whose register nothing later in it writes, and the written registers are exactly those some instruction writes |
| BtrWebs.ComputeKill | gcc/bt-load.c:615-631 | A block kills exactly the definitions, its own included, of the registers it writes |
| BtrFlow.ComputeOut | gcc/bt-load.c:635-663 | Terminates at a solution of the equations; a definition is in bb_out[i] exactly if some walk carries it from a block that generates it, past no killing block, to i |
| BtrFlow.SolutionReaches | gcc/bt-load.c:635-663 | Every solution contains all that reaches |
| BtrFlow.LeastSolution | gcc/bt-load.c:635-663 | What is computed is the least solution |
| BtrWebs.ComputeReaching | gcc/bt-load.c:779-802 | From instructions to sets: the definitions at the end of a block are exactly those that flow there |
| BtrWebs.LinkBtrUses | gcc/bt-load.c:665-776 | After linking, all users are linked and the object lists mirror the webs |
| BtrWebs.LinkStep | gcc/bt-load.c:700-770 | Linking one more definition keeps the lists and flags right although a user reached twice has its link overwritten |
| BtrWebs.ExactWebs | gcc/bt-load.c:665-776 | For a definition left without has_ambiguous_use, the list holds exactly the users it reaches, each once, and nothing else reaches them; the flag is set exactly if some user it reaches is not simple or has several definitions |
| BtrUses.LinkedIffAgrees | gcc/bt-load.c:665-776 | The definitions linked to a use are those that flow to it if and only if, from the last definition in the block or its start, a blockage, call or sibling call that writes the register comes exactly when a call with a call-used register does |
| BtrUses.ExactFlow | gcc/bt-load.c:665-776 | If they agree at all uses, the list of an unambiguous definition holds exactly the uses it flows to, and nothing else flows there |
| BtrUses.PlainAgrees | gcc/bt-load.c:665-776 | Without a blockage or sibling call before a use in its block, both notions of writing agree there |
| BtrUses.PlainExact | gcc/bt-load.c:665-776 | Where no use has one before it, the list of an unambiguous definition holds exactly the uses it flows to |
| BtrUses.BlockageExample | gcc/bt-load.c:687-772 | A definition linked to a use across a blockage, although it does not flow there |
| BtrUses.OnlyDefDominates | gcc/bt-load.c:895-899 | If every walk to a use brings a definition and only one does, its block dominates the use |
| BtrUses.BuildBtrDefUseWebs | gcc/bt-load.c:779-809 | Dataflow and linking together: for every use, the definitions linked are those that flow to it if and only if for each of its registers what writes it on the way and what link_btr_uses takes to write it agree |
| LiveRanges.AugmentLiveRange | gcc/bt-load.c:900-981 | The range is again entered only at its head, which dominates it, so ENTRY is never in it; it grew by exactly the blocks from which a walk outside the old range leads to the new block or into the old head; exactly the registers live there are added |
| LiveRanges.PredDominated | gcc/bt-load.c:960-976 | A predecessor of a properly dominated block is dominated too, and is not ENTRY |
| Migrate.BtrDefLiveRange | gcc/bt-load.c:1012-1053 | A new live range is exactly the definition's block and the blocks from which a use can be reached without passing it; the register set misses nothing live over it, invents nothing, and leaves out the definition's own register exactly if nothing else may use it |
| Migrate.ExtendOver | gcc/bt-load.c:1025-1030 | Growing over all uses gives exactly the blocks from which a use can be reached outside the old range |
| Migrate.ChooseBtr | gcc/bt-load.c:983-1003 | The first allowed register in allocation order that is not used; -1 exactly if all are |
| Migrate.Migrator.ClearBtr | gcc/bt-load.c:840-860 | The register disappears exactly from the blocks of the range that are not at an edge shared with another range |
| Migrate.Migrator.AddBtr | gcc/bt-load.c:868-887 | The register is live exactly over the range in addition |
| Migrate.Migrator.Merge | gcc/bt-load.c:1105-1130 | The uses of the merged web join the other one; the definitions stay in order; the register is cleared by the list that is found after the uses have been relinked |
| WebRecords.ClearSame | gcc/bt-load.c:817-860 | Clearing by the relinked list gives the same sets as by the web's own list if and only if both agree about the blocks where the register is recorded |
| WebRecords.MergeExact | gcc/bt-load.c:1105-1130 | After a merge all other webs stay recorded over their ranges if and only if the relinked list sits in every block where one of them meets the merged web |
| RecordExamples.FollowedExample | gcc/bt-load.c:1106-1126 | A concrete graph and three webs in order: merging the second into the first takes the register of the third out of the record; clearing by its own list would not |
| WebRecords.PlaceExact | gcc/bt-load.c:1176-1180 | After a placement all webs are recorded and meet at edges only if and only if the new block is an edge of every other web that uses the register there; always if blocks are exclusive |
| RecordExamples.HeadExample | gcc/bt-load.c:840-860 | A concrete graph and two webs in order, blocks that may be shared: one moves to a block where the other ends, and clearing that other one by its own list loses the register of the moved one |
| Migrate.Migrator.CombineOne | gcc/bt-load.c:1070-1137 | A dominated web of the group is merged (its uses move, its register is cleared, the first register free over both ranges is taken), or no register is free over both ranges; other members leave everything as it is |
| Migrate.Migrator.CombineBtrDefs | gcc/bt-load.c:1059-1139 | Every member of the group has its turn in order, each as CombineOne; the uses of the group, the record of live registers, and a register free over the range are kept; if no web shares its register after its uses, all other webs stay recorded |
| Migrate.GroupMerged | gcc/bt-load.c:1064-1135 | Every web of the group that may be merged at its turn has no uses afterwards, unless no register was free over both ranges at that turn |
| Migrate.Migrator.MoveBtrDef | gcc/bt-load.c:1148-1180 | The old register is cleared, the definition sits in its new block, its group has been combined, and its register, free over the whole new range once its own and the merged webs' registers were cleared, is recorded over it; if blocks are not shared and no web shares its register after its uses, all webs stay recorded and meet at edges only |
| Migrate.Migrator.TryBlock | gcc/bt-load.c:1336-1375 | A block is either moved to, with the first register free over the grown range and the group combined, or every allowed register is recorded as live over the grown range and nothing has changed |
| Migrate.Migrator.MigrateBtrDef | gcc/bt-load.c:1272-1385 | A definition moves only to a block that properly dominates its old one and is entered less often (or as often if a use was too near); it stops only when cheaper than the bound, when no dominator is worth trying, or when no register is free; it is queued again exactly if it moved and did not give up |
| Migrate.Migrator.MigrateBtrDefs | gcc/bt-load.c:1427-1443 | Ends with an empty queue after a run of turns that each take the dearest definition; all live ranges stay single-entry regions covering their uses, costs never rise, no group loses a use, and (blocks not shared, no register shared after uses) every web stays recorded as live over its range and meets others with its register at edges only |
| Migrate.RunMoves | gcc/bt-load.c:1427-1443 | Every move in a run goes to its block with the first free register and combines the group as in GroupMerged |
| Migrate.NearMeans | gcc/bt-load.c:1318-1329 | A use is too near exactly if it follows the definition in its block and even from the top of the block the latency would not have passed |
| Migrate.WeightDrops | gcc/bt-load.c:1427-1443 | The sum over the queue of dominator depth plus one strictly decreases in every turn |
| Migrate.MergeKeeps | gcc/bt-load.c:1105-1130 | Merging two webs of a group conserves the uses of every group and keeps regions, dominance and costs |
| Migrate.MovedMerging | gcc/bt-load.c:1170-1175 | After the move the definition still dominates its uses, its range is a region, and all live registers are recorded |
| Migration.UsesServed | gcc/bt-load.c:1427-1443 | After any migration every use is served by a definition of its group that dominates it |
| Migration.AugmentCovers | gcc/bt-load.c:900-981 | Growing a range keeps the record of live registers complete |
| Dominators.Antisymmetric | gcc/bt-load.c:1333-1335 | Among reachable blocks dominance is antisymmetric |
| Dominators.FewerDominators | gcc/bt-load.c:1333-1335 | A proper dominator has fewer dominators, so climbing ends |
| IntTypes.GetNarrower | gcc/tree.c:5396-5445 | The loop strips exactly the conversions its specification strips |
| IntTypes.NarrowExtends | gcc/tree.c:5383-5445 | Extending the stripped operand in the reported way gives the operand back |
| Shorten.ShortenCompare | gcc/c-common.c:1942-2265 | The outcome is well formed and, unless an operand was sign-extended and then zero-extended, has the truth value of the original comparison for all values |
| Shorten.ShortenedRight | gcc/c-common.c:1942-2265 | For all precisions, signednesses, codes and values: a constant or rewritten comparison has the truth value of the original, unless an operand was sign-extended and then zero-extended below the result type |
| Shorten.OrderedComputes | gcc/c-common.c:1990-2265 | For any operands: exactly what the rewritten comparison computes |
| Shorten.FixedRight | gcc/c-common.c:2003-2120 | A constant answer from the range of the narrow type is right, and otherwise the constant fits the narrow type |
| Shorten.ConstantExact | gcc/c-common.c:2035-2175 | A comparison of a narrower operand with a constant becomes a constant exactly if all values of its type compare alike; where a sign-extended operand is compared as unsigned, only equality does |
| Shorten.OrderedWidth | gcc/c-common.c:2003-2240 | What is left to compare is narrower than the nominal type exactly if the operands are narrowed; otherwise only an unsigned value against 0 is decided |
| Chains.ChainValue | gcc/tree.c:5396-5445 | Whatever conversions are chained on a variable, the value is the signed value of its low bits that are left, lifted to the precision in which they were last taken to be unsigned |
| ShortenExact.Exactness | gcc/c-common.c:1942-2265 | For all operands, codes and types: the outcome is right for all values of the variables if and only if ExactFor holds, a condition on types, constants and the bits that conversions leave |
| ShortenExact.VarsFail | gcc/c-common.c:2183-2215 | Two operands that are not constants, on the same variable or on two: wherever the condition fails there are values for which narrowing changes the comparison |
| ShortenExact.TruncatedExample | gcc/c-common.c:1942-2265 | A truncated operand that meets the condition although it is extended in both ways |
| ShortenExact.MixedExample | gcc/c-common.c:1956-1965 | A concrete comparison declared always false that is true |
| CaseLabels.BoundsExact | gcc/c-common.c:1492-1547 | A label with low <= high keeps exactly its values inside the bounds and is dropped exactly if there are none |
| CaseLabels.BoundsEmptyRange | gcc/c-common.c:1492-1547 | What happens to an empty range |
| CaseLabels.EmptyRangeExample | gcc/c-common.c:1492-1547 | A concrete empty range kept out of bounds at both ends |
| CaseLabels.BoundsKept | gcc/c-common.c:1492-1547 | Exactly when the result lies within the bounds |
| CaseLabels.CaseCompareOrders | gcc/c-common.c:3582-3600 | The comparison is a total order with the default label first |
| CaseLabels.NeighboursSuffice | gcc/c-common.c:3678-3716 | A label that misses its two neighbours misses all stored labels |
| CaseLabels.OneLabel | gcc/c-common.c:3611-3747 | No value is covered by two stored labels |
| CaseLabels.Switch.FindOverlap | gcc/c-common.c:3675-3716 | The two-neighbour search finds a label exactly if a full scan would |
| CaseLabels.Switch.AddCaseLabel | gcc/c-common.c:3611-3747 | A label is stored exactly if it is valid and overlaps none, and the stored labels stay disjoint |
| AliasSets.ReachAdd | gcc/alias.c:666-712 | Reachability after one more edge |
| AliasSets.ExactAfter | gcc/alias.c:666-712 | Recording keeps the entries equal to reachability if and only if every other set above the superset is up to date |
| AliasSets.Table.RecordAliasSubset | gcc/alias.c:666-712 | The superset gains the subset and all below it, nothing else changes; exact entries stay exact if and only if the order of calls was right for this one |
| AliasSets.Table.ConflictP | gcc/alias.c:306-337 | With exact entries: true exactly if a set is 0, both are equal, one reaches the other, or one reaches 0 |
| AliasSets.RunExact | gcc/alias.c:666-712 | Over a run of calls the entries are exact throughout if and only if every call comes in time |
| AliasSets.BottomUpExact | gcc/alias.c:666-712 | If no call extends a set that an earlier call put below another, the entries are exactly reachability |
| AliasSets.RecordAll | gcc/alias.c:666-712 | The table after a run of calls, and that it is exact for a run from the bottom up |
| AliasSets.TopDownExample | gcc/alias.c:666-712 | Two calls in the wrong order after which a set that can be reached is missing |
| TypeAliases.Aliases.GetAliasSet | gcc/alias.c:596-632 | Building sets type by type follows the order that keeps entries exact |
| TypeAliases.Aliases.RecordComponentAliases | gcc/alias.c:720-762 | Exactly the sets of the components are recorded below the set of the type: addressable fields, elements of arrays that may be aliased, parts of complex numbers |
| TypeAliases.PartsAre | gcc/alias.c:720-762 | The parts listed are exactly these components |
| TypeAliases.ReachIsContainment | gcc/alias.c:720-762 | The sets below the set of a type are exactly those of its components, however deep |
| TypeAliases.TypesConflict | gcc/alias.c:306-337 | Two types conflict exactly if they are the same, one is inside the other through fields and elements, or one has a component that is a character or a function |
| TypeAliases.ContainsIsInside | gcc/alias.c:720-762 | The set of a type is below that of another one exactly if the first type is inside the second |
| Memrefs.RtxEqualSound | gcc/alias.c:1230-1285 | Expressions reported equal have the same value |
| Memrefs.ConflictSound | gcc/alias.c:1685-1869 | A no is right for every register valuation, if every factor divided out divides sizes and offset |
| Memrefs.NoConflictNoSharedByte | gcc/alias.c:1685-1869 | A no means both sizes are known and no byte belongs to both references |
| Memrefs.SumsDivide | gcc/alias.c:1685-1869 | Without two products the divisibility condition is not needed |
| Memrefs.DenialExact | gcc/alias.c:1685-1869 | For any two addresses: a no is given only if their distance depends on no register, and it is right if and only if the references are apart at that distance |
| Memrefs.NotFixed | gcc/alias.c:1685-1869 | Addresses whose distance depends on a register may always conflict |
| Memrefs.SumsExact | gcc/alias.c:1685-1869 | Without two products the answer is yes exactly if the distance is not fixed or the references are not apart at it |
| Memrefs.SlotsExact | gcc/alias.c:1719-1793 | Slots at constant offsets from one base, a slot and the base itself, and constant addresses conflict exactly if they share a byte |
| Memrefs.UnitsExact | gcc/alias.c:1780-1793 | Dividing by m is right for all distances if and only if m divides both sizes and the offset |
| Memrefs.ScaledExact | gcc/alias.c:1770-1792 | On addresses m * r and m * (r + k) with a whole unit of both sizes left: no answer denies an overlap if and only if m divides both sizes and the offset |
| Memrefs.ScaledNegative | gcc/alias.c:1770-1792 | For a negative factor the answer is always that there may be a conflict |
| Memrefs.UnitsExample | gcc/alias.c:1780-1793 | A concrete overlap that is denied: 12 bytes at 8r and at 8(r + 1) |
| Memrefs.UnknownSize | gcc/alias.c:1685-1793 | An unknown size always conflicts |

## Left out

Block reordering:
- The test that a function has more than one block, dumps, the insertion of labels and jumps, and section notes.
- Instruction-level facts (sizes, whether a block may be copied, ends in a call, is hot) and profile data are inputs.
- The field `in_trace`, which nothing reads, and the assertion that no edge is fake.
- The order of a block's edges is that of one global edge list; edges out of ENTRY lead to different blocks.
- Priority heaps are maps; among equal keys any block may come first.
- Pass.ReorderBasicBlocks: with partitioning every block has to be hot or cold, which the partitioning pass ensures; blocks in neither section are not placed by the code.

Bitmaps:
- Storage kept by the garbage collector is one more obstack; the free list of heads and releasing an obstack.
- Numbers do not wrap at 2^32; words are sequences of 64 booleans, two to an element; counting trailing zeros is the binary search fallback of `bitmap_first_set_bit`.
- The set iterator is the and-complement iterator without a second bitmap.
- SetAlgebra.And: takes the position of the cursor as a ghost argument, which only the statement about the cursor uses.
- `bitmap_ior_and_compl` and its in-place form, which compose operations proved here; printing.

Branch target registers:
- Clobbers found by note_stores, the flags for other uses in a block, and the number of reaching definitions.
- The order in which the definitions that reach a user are linked is arbitrary.
- In the migration a definition is a record in an array rather than an object, uses are sequences, and `members` lists each group; the initial live sets, dominator information (`DomsOk`) and block frequencies are inputs; all blocks are reachable, since the control flow graph is cleaned up first.
- Migrate.Migrator.MigrateBtrDefs: that a definition which may be moved dominates its uses is required; the code asserts only that one of the two dominates the other, but names as a precondition of growing a range that its head dominates it; BtrUses.OnlyDefDominates shows that it holds whenever every walk to the use brings a definition.
- Latency and the number of instructions before a definition are functions of the definition; emitting and deleting instructions, register notes and replacing registers in instructions.
- The worklist of live ranges is a sequence without a capacity.

Front end:
- Shorten.ShortenCompare: real operands, diagnostics, the wrapping of discarded side effects, and the part of get_narrower about bit-fields; constants are folded integers.
- The search tree of case labels is a map with a predecessor and a successor search; the results of check_case_value and convert_and_check are inputs.

Aliases:
- Memrefs.ConflictSound: addresses are sums and products of registers and constants; symbols, ANDs, VALUEs, LO_SUM, auto-increment and loop invariants, which rest on rules of the language; a product by zero is excluded, since the code divides by it; wide integers do not overflow.
- Declarations, restrict pointers and the language hook except for character types; base classes are components like fields.
