# Verified models of the prefetch controller and the gem5 tools around it

This project models, in Dafny, the parts of the repository with the most state,
branching and arithmetic, and proves what they are for:

- **The pipeline viewer** (`PipeOrder`, `PipeBuffer`, `PipeWindow`,
  `PipeTimeline`). A bounded queue sorts an out-of-order trace while it is being
  read, a window of ticks or sequence numbers is cut out early, and each
  instruction is drawn as rows of cells. The streaming viewer prints exactly what
  "sort the whole trace, then filter" would, and every row shows each stage in its
  own cell.
- **The prefetch controller** (`Bandit`, `BanditRuns`, `BanditRates`,
  `BanditLimits`, `PrefetchTracker`, `PrefetchBlocks`, `QTableFile`) and the queue
  it inherits (`PrefetchQueue`, `PrefetchRuns`, `PrefetchOrder`): the epoch step of
  the contextual bandit over whole runs, what its values do for every learning
  rate, the attribution of prefetches to children, the saved value table, and
  priority and age in the queue over whole runs.
- **The checkpoint upgrader** (`CptUpgrader`, `CptDowngrade`, `CptRegistry`): a
  scheduler that works in rounds over a set of tags, the exact condition for its
  success with and without downgraders, and the loader of its registry.
- **The port binder** (`PortBinder`, `PortOrder`): a greedy pass whose final count
  forces a perfect matching, and the exact condition for a list to be bindable in
  some order.
- **The checkpoint aggregator** (`CptNames`, `CptAggregator`): concatenation,
  relocation and renaming, as in a linker.
- **Trace codecs** (`ProtoLib`, `InstDepTrace`): varints, framing, and a printer
  and parser for dependency traces.
- **Smaller state machines** (`CopyrightYears`, `SimDrivers`, `CacheTree`,
  `LogRoll`, `RangeSweep`).

`Arith`, `Bits`, `Text` and `Finite` hold the arithmetic, bit and string
operations and the facts on finite sets and graphs that the models rely on.

Code that updates state is modelled by classes and methods with loops. Each is
proved equal to a specification function, and the laws are proved of that
function for all inputs or all runs. Files are byte or line sequences, the
simulator and the random generator are parameters, doubles are reals, and 64-bit
counter differences wrap explicitly.

## Where code and documentation differ

The model follows the code. In each case a lemma gives the exact condition or a
concrete input.

- `addToQueue` takes the packet at the back for the one of lowest priority, which
  presumes a queue ordered by priority. It inserts in front of the packet its
  search stops at, which breaks that order exactly when the new priority lies
  strictly between two that are queued behind the front and no packet behind the
  front has it (`PrefetchQueue.InsertSortedIff`, `PrefetchQueue.MisplacedExample`).
  Over all runs the queue stays ordered exactly when at most two priorities are
  offered or it holds at most three packets (`PrefetchOrder.AlwaysSortedIff`).
- Its eviction takes the front of the last run of equal priorities for the oldest
  of them. Two things put a newer packet there: insertion, which does not go behind
  all packets of the same priority when the back is lower and one behind the front
  is equal (`PrefetchQueue.BehindEqualsIff`, `PrefetchQueue.NewerEvicted`), and
  `alreadyInQueue`, which raises an older packet to the priority of a newer one
  (`PrefetchOrder.YoungerEvicted`). With the queue filter on, every eviction of
  every run removes the oldest packet of the lowest priority exactly when no more
  than one priority is offered; with it off, also in a queue of at most three
  packets (`PrefetchOrder.AlwaysOldestIff`).
- `alreadyInQueue` is documented to update the priority of the request it finds.
  Its iterator is one step too far, so the next packet is the one updated
  (`PrefetchQueue.PriorityUpdatedIff`, `PrefetchQueue.NextRaised`).
- The manual freezes the controller with learning and exploration rate 0. The
  values freeze, but the exploration rate is 0.01 after one epoch
  (`BanditRuns.FreezeStillExplores`).
- Of the 45 encoded states only 21 can occur, and the reward of the first epoch
  goes to a state that is never visited (`BanditRuns.EncodeInStates`,
  `BanditRuns.FirstRewardIsLost`).
- The learning rate is not checked. Over all runs of a new controller the values
  stay in the range of the rewards exactly for rates from 0 to 1, or to 4/3 if it
  has only a cache or only a CPU (`BanditLimits.RangeKeptIff`), and have a common
  bound exactly for rates from 0 up to but not including 2
  (`BanditLimits.CommonBoundIff`). Both lemmas also cover a controller with neither.
- A child's useful prefetches can exceed those it issued, since an issue by another
  child moves the credit (`PrefetchTracker.UsefulWithoutIssue`). They stay within
  them in every run exactly when no other child issues one of its addresses
  (`PrefetchTracker.WithinIssuedIff`).
- The table of prefetches is described as keyed by block address; the keys are the
  addresses as given. An issue at 64 and a hit at 72 share a block, and the hit is
  not credited (`PrefetchBlocks.Hit72`). The counters are those of a table keyed by
  block exactly when no two addresses in use share a block
  (`PrefetchBlocks.BlockKeysIff`).
- A comment in `bind_ports` expects a sorted scan to bind every list. It makes two
  of three links of a list that another order binds (`PortOrder.SortedFails`). A
  list can be bound in some order exactly when every port is on one link, indices
  run from 0 without gaps and no links wait for each other in a cycle
  (`PortOrder.OrderableIff`); crossing links are such a cycle
  (`PortBinder.CrossingFails`).
- The header of the upgrader says that depending on a tag with a downgrader waits
  for the tag to be gone. `ready` waits for it to be there
  (`CptDowngrade.DowngradeCounterexample`, `CptDowngrade.EarlyDowngradeBlocks`). A
  migration succeeds exactly when the needed upgraders have no cycle and every such
  dependence finds its tag present and not due for removal earlier
  (`CptDowngrade.MigratesIff`); the header's order is kept for sure exactly when no
  tag that is applied has such a dependence (`CptDowngrade.HeaderOrderIff`).
- The caller of `scriptCheckpoints` announces that checkpoint instructions are
  ignored. The inner loop does not update the variable that the outer loop tests,
  so they can end the run (`SimDrivers.IgnoredIff`).
- The guard on `repeatSwitch` compares `maxtick` with the frequency only; slices
  stay within `maxtick` exactly when the first one does (`SimDrivers.SlicesFitIff`).
- Copyright ranges are read back only within four-digit years
  (`CopyrightYears.YearsRoundTrip`), and 32-bit varints only below 2^32
  (`ProtoLib.DecodeEncode`).

## Model

| member | source | states |
|---|---|---|
| PipeOrder.SortSorts | util/o3-pipeview.py:242 | the queue sort yields a sorted permutation |
| PipeOrder.SortIsStable | util/o3-pipeview.py:242 | instructions with equal sequence numbers keep their arrival order |
| PipeOrder.SortIsUnique | util/o3-pipeview.py:242 | any sorted sequence that keeps the order within each sequence number is the result of the sort |
| PipeOrder.KeepSort | util/o3-pipeview.py:231-277 | filtering commutes with the stable sort |
| PipeOrder.LargerInSorted | util/o3-pipeview.py:231-277 | at most k elements exceed a number exactly when the element with k behind it does not |
| PipeBuffer.OutputConserves | util/o3-pipeview.py:212-277 | every arrival leaves the queue exactly once, in every run |
| PipeBuffer.RunInStep | util/o3-pipeview.py:212-277 | while arrivals are in time, what has left is the front of the sorted prefix at the last drain |
| PipeBuffer.LateArrivalShows | util/o3-pipeview.py:212-277 | one arrival smaller than something already popped leaves the output unsorted for good |
| PipeBuffer.OutputSortedIff | util/o3-pipeview.py:212-277 | the output is the stable sort of the trace exactly when no arrival has more than the lower threshold of larger instructions before the last drain |
| PipeBuffer.DisplacedInTime | util/o3-pipeview.py:45-50 | the documented bound on disorder implies that condition |
| PipeBuffer.StreamingEqualsSorting | util/o3-pipeview.py:212-277 | under the documented bound streaming equals sorting everything, for any two thresholds |
| PipeWindow.FreshBlocks | util/o3-pipeview.py:154-207 | whole blocks overwrite the reused record, so nothing of earlier lines shows in any instruction |
| PipeWindow.Origin | util/o3-pipeview.py:154-207 | every instruction carries the number and tick of a fetch line that was read |
| PipeWindow.Seek | util/o3-pipeview.py:94-126 | the search stops at the first line that satisfies the condition, or at the end |
| PipeWindow.SkippedNotShown | util/o3-pipeview.py:94-126 | nothing in the skipped lines belongs to the window |
| PipeWindow.BehindNotShown | util/o3-pipeview.py:154-207 | with bounded regress nothing behind the line that ends the reading belongs to the window |
| PipeWindow.TraceSplits | util/o3-pipeview.py:94-207 | the whole trace is a skipped part, the arrivals and a part behind, and the outer two are filtered away |
| PipeWindow.WindowKeepsInstructions | util/o3-pipeview.py:94-207 | skipping and stopping early give the same filtered instructions as the complete trace, for every window |
| PipeWindow.ViewerIsSortThenFilter | util/o3-pipeview.py:69-277 | the viewer refines "sort the whole trace by sequence number, then filter", with both documented bounds |
| PipeWindow.Viewer.constructor | util/o3-pipeview.py:69-93 | the viewer starts with nothing queued and nothing printed |
| PipeWindow.Viewer.PrintInsts | util/o3-pipeview.py:231-277 | sorts, pops down to the lower limit and prints what the filters admit |
| PipeWindow.Viewer.QueueInst | util/o3-pipeview.py:212-227 | appends, and drains to the lower threshold past the upper one |
| PipeWindow.Viewer.SkipLines | util/o3-pipeview.py:94-126 | the position reached is the first fetch line of the window |
| PipeWindow.Viewer.ReadRegion | util/o3-pipeview.py:154-207 | the queue holds the run over the instructions of the region |
| PipeWindow.Viewer.ProcessTrace | util/o3-pipeview.py:69-207 | the output is that of the specification, for every trace |
| PipeTimeline.DrawRow | util/o3-pipeview.py:388-416 | the loop over events with its moving position draws the specified row |
| PipeTimeline.CollectEvents | util/o3-pipeview.py:374-386 | the events collected are those of the row |
| PipeTimeline.PrintInst | util/o3-pipeview.py:281-431 | one text for every row, each as specified; fails on a single row without an event |
| PipeTimeline.NothingIff | util/o3-pipeview.py:390 | that is the case exactly when all ticks are 0 |
| PipeTimeline.MaxTick | util/o3-pipeview.py:340-352 | the last event is the largest stage tick |
| PipeTimeline.SortEventsOrders | util/o3-pipeview.py:387 | events are drawn in order of offset, none lost |
| PipeTimeline.RowWidthIff | util/o3-pipeview.py:337-416 | a row is never too narrow and is exactly the width if and only if no two visible stages share a cell |
| PipeTimeline.RowShows | util/o3-pipeview.py:337-416 | without overlaps each visible stage stands in its column and every other cell is a dot |
| PipeTimeline.SingleRow | util/o3-pipeview.py:354-359 | there is one compact row exactly when the last event is less than a width behind the fetch |
| PipeTimeline.ExactlyOneRow | util/o3-pipeview.py:369-386 | every stage that happened falls in exactly one of the rows |
| PipeTimeline.ColumnOfCycle | util/o3-pipeview.py:380-408 | a tick on a cycle boundary is drawn at its cycle number modulo the width |
| PipeTimeline.ColumnsDiffer | util/o3-pipeview.py:380-408 | aligned ticks within one width share a column only when equal |
| PipeTimeline.TimelineExact | util/o3-pipeview.py:337-416 | an instruction as the simulator writes it is drawn without overlap, in rows of exactly the width |
| CptUpgrader.Work | util/cpt_upgrader.py:257 | only registered migrations are needed |
| CptUpgrader.ApplyRound | util/cpt_upgrader.py:265-267 | in any order of a round the same tags result, each applied once |
| CptUpgrader.Migrate | util/cpt_upgrader.py:257-269 | the loop ends; the log lists the rounds in order; every needed tag is applied once and after its dependences, or the rest is reported as stuck |
| CptUpgrader.RunEnds | util/cpt_upgrader.py:257-269 | success means that all migrations were applied |
| CptUpgrader.MigratedTags | util/cpt_upgrader.py:257-269 | success leaves the old tags plus all upgrades minus all downgrades, unknown tags included |
| CptUpgrader.MigrateTwice | util/cpt_upgrader.py:257-273 | migrating the result again finds nothing to do |
| CptUpgrader.CycleSticks | util/cpt_upgrader.py:258-263 | a cycle among the needed upgraders makes the loop give up |
| CptUpgrader.TagsRoundTrip | util/cpt_upgrader.py:237-275 | tags written and read back are the same set exactly when each is a word |
| CptUpgrader.SecondRunIdle | util/cpt_upgrader.py:237-275 | a second run on the written file has an empty work set |
| CptDowngrade.HeightIsLongest | util/cpt_upgrader.py:257-269 | without a cycle the height of a needed tag is the length of its longest chain of needed upgraders |
| CptDowngrade.AbsentDowngradeBlocks | util/cpt_upgrader.py:144-148 | a needed tag that depends on an absent tag without an upgrader blocks for ever |
| CptDowngrade.SuccessWaits | util/cpt_upgrader.py:257-269 | in a run that succeeds every round takes one height, and no downgrader comes before the tags that depend on it |
| CptDowngrade.WaitsSucceeds | util/cpt_upgrader.py:257-269 | without a cycle, and with downgraders that wait, the run succeeds |
| CptDowngrade.MigratesIff | util/cpt_upgrader.py:144-269 | for every registry, success exactly when the needed upgraders have no cycle and each dependence on another tag finds it present and its downgrader not due earlier |
| CptDowngrade.StuckIffCycle | util/cpt_upgrader.py:144-269 | the case of dependences on upgraders: the script aborts exactly when the needed tags contain a cycle |
| CptDowngrade.StillThere | util/cpt_upgrader.py:258-269 | a tag is applied only in a round at whose start the downgraded tags it depends on are there |
| CptDowngrade.RoundsCover | util/cpt_upgrader.py:257-269 | a run that succeeds applies exactly the needed tags |
| CptDowngrade.HeaderOrderIff | util/cpt_upgrader.py:56-61 | downgraders come first in every order of the rounds exactly when no applied tag depends on a downgraded one |
| CptDowngrade.HeaderKeptIff | util/cpt_upgrader.py:56-61 | for successful runs: exactly when no needed tag does |
| CptDowngrade.DowngradeCounterexample | util/cpt_upgrader.py:56-61 | the smallest registry on which the header is wrong |
| CptDowngrade.EarlyDowngradeBlocks | util/cpt_upgrader.py:56-61 | a registry in which a tag that is present blocks, being removed too early |
| CptRegistry.Loader.LinkLegacy | util/cpt_upgrader.py:171-175 | every version from 3 on in an unbroken chain depends on just its predecessor; fails when version 3 lacks one |
| CptRegistry.Loader.TurnRound | util/cpt_upgrader.py:179-186 | a forward dependence becomes a dependence of the named tag |
| CptRegistry.Loader.AuditOne | util/cpt_upgrader.py:187-192 | the audit passes exactly when all dependences are registered |
| CptRegistry.Loader.ResolveOne | util/cpt_upgrader.py:178-192 | one step of the loop, interleaving both |
| CptRegistry.Loader.LoadAll | util/cpt_upgrader.py:165-192 | in any order of the dictionary, loading succeeds exactly for loadable registries and yields the same dependences |
| CptRegistry.LoadedMigrates | util/cpt_upgrader.py:165-269 | in a loaded registry of upgraders a migration adds all missing tags exactly when they contain no cycle |
| PortBinder.BindPorts | configs/example/read_config.py:349-395 | the loop makes the specified connections and raises exactly when fewer than half were made |
| PortBinder.MadeInOrder | configs/example/read_config.py:380-390 | every binding is at the next index of both ports |
| PortBinder.BoundIff | configs/example/read_config.py:380-390 | a port's bound indices are those below its counter |
| PortBinder.OneUser | configs/example/read_config.py:380-390 | no port is bound twice |
| PortBinder.FullCount | configs/example/read_config.py:392-395 | the final count forces one direction of every link |
| PortBinder.BindSound | configs/example/read_config.py:349-395 | whenever binding does not raise, whatever the scan order, one direction of each link was made and indices are used in order |
| PortBinder.StillFits | configs/example/read_config.py:380-390 | what is next in line stays next in line or is made when more links are made |
| PortBinder.GreedyAhead | configs/example/read_config.py:380-390 | the pass has made every link of any other choice of positions at every point |
| PortBinder.BindComplete | configs/example/read_config.py:349-395 | binding succeeds exactly when some choice of positions in the scan works |
| PortBinder.CrossingFails | configs/example/read_config.py:370-379 | two crossing links between the same ports fail in every scan order |
| PortOrder.BoundIsContiguous | configs/example/read_config.py:349-395 | in a list that is bound the indices of every port run from 0 without gaps |
| PortOrder.BoundIsAcyclic | configs/example/read_config.py:349-395 | in a list that is bound no links wait for each other in a cycle |
| PortOrder.SomeFits | configs/example/read_config.py:380-390 | otherwise some link that is left is next in line at both ends |
| PortOrder.OrderableIff | configs/example/read_config.py:349-395 | some order of the scan binds the list exactly when it is a matching with indices from 0 without gaps and without such a cycle |
| PortOrder.SortedFails | configs/example/read_config.py:370-379 | a sorted list that another order binds and sorting does not |
| CptNames.TagUndone | util/checkpoint_aggregator.py:68-69 | the tag and the old name can be read off the new name |
| CptNames.PaddedDiffer | util/checkpoint_aggregator.py:60-69 | zero-padded numbers have equal width and differ |
| CptNames.RenameInjective | util/checkpoint_aggregator.py:60-69 | equal new names come from the same section of the same checkpoint |
| CptAggregator.ReadPages | util/checkpoint_aggregator.py:107-114 | the page loop appends the image up to the page count |
| CptAggregator.Pad | util/checkpoint_aggregator.py:123-131 | whole pages of '0' are added until the memory size is covered, and no more |
| CptAggregator.Relocate | util/checkpoint_aggregator.py:73-81 | physical addresses move by the offset, everything else is copied |
| CptAggregator.MaxTick | util/checkpoint_aggregator.py:86-89 | the merged tick is the largest |
| CptAggregator.MergeSections | util/checkpoint_aggregator.py:67-95 | the sections a checkpoint contributes are appended in order |
| CptAggregator.Aggregate | util/checkpoint_aggregator.py:44-151 | page count, image, padding, tick and sections of the merge, and when it fails |
| CptAggregator.OffsetIff | util/checkpoint_aggregator.py:99-114 | images fill the pages in front of a checkpoint exactly when each has all its pages |
| CptAggregator.ByteRelocated | util/checkpoint_aggregator.py:62-114 | the byte at the relocated address is the byte at the original one, as long as the images in front are full |
| CptAggregator.RegionsDisjoint | util/checkpoint_aggregator.py:62-114 | addresses of different checkpoints stay apart |
| CptAggregator.PaddedSize | util/checkpoint_aggregator.py:119-131 | the image has as many bytes as the page count says exactly when all images are full |
| CptAggregator.RenamesInjective | util/checkpoint_aggregator.py:67-95 | renamed and copied sections never meet |
| CptAggregator.SectionNames | util/checkpoint_aggregator.py:62-98 | all sections collected so far have distinct names and come from some checkpoint |
| CptAggregator.MergedNamesDistinct | util/checkpoint_aggregator.py:61-145 | no two sections of the merged file share a name |
| CptAggregator.AddressFollowsByte | util/checkpoint_aggregator.py:61-145 | every address of a CPU section is in the merged file in its renamed section and finds its byte in the merged image |
| ProtoLib.Reader.constructor | util/protolib.py:75-97 | reading starts at the first byte |
| ProtoLib.Reader.Read | util/protolib.py:131-144 | a read consumes what it returns |
| ProtoLib.Reader.DecodeVarint32 | util/protolib.py:100-128 | the shifting loop decodes as specified and consumes just the varint |
| ProtoLib.Reader.DecodeMessage | util/protolib.py:131-144 | one message, or nothing at the end, on a zero size or on a bad size |
| ProtoLib.Reader.DecodeAll | util/protolib.py:131-144 | all messages up to the first failure |
| ProtoLib.EncodeVarint32 | util/protolib.py:147-159 | the loop over seven-bit groups writes the varint |
| ProtoLib.EncodeMessage | util/protolib.py:162-168 | a message is written behind its size |
| ProtoLib.VarintMeaning | util/protolib.py:147-159 | the bytes are a canonical base 128 number of that value |
| ProtoLib.VarintUnique | util/protolib.py:147-159 | every canonical byte string is the encoding of its value |
| ProtoLib.VarintPrefixFree | util/protolib.py:147-159 | no encoding is a proper prefix of another |
| ProtoLib.ScanVarint | util/protolib.py:100-128 | decoding any encoding adds up its value, or fails above 70 bits |
| ProtoLib.DecodeEncode | util/protolib.py:100-159 | a value comes back, consuming its own bytes, exactly when it is below 2^32 |
| ProtoLib.FirstOfFrame | util/protolib.py:131-168 | a framed message is read whole, an empty one as none |
| ProtoLib.StreamRoundTrip | util/protolib.py:131-168 | reading a written stream yields the messages before the first empty one |
| InstDepTrace.WriteDeps | util/decode_inst_dep_trace.py:200-213 | the loop over dependences prints the list |
| InstDepTrace.PrintFields | util/decode_inst_dep_trace.py:164-198 | the fields in order, optional ones only if present |
| InstDepTrace.PrintRecord | util/decode_inst_dep_trace.py:164-215 | the statements for the fields print the line |
| InstDepTrace.PrintTrace | util/decode_inst_dep_trace.py:164-215 | one line per record, and the counts of records with dependences |
| InstDepTrace.ParseTrace | util/encode_inst_dep_trace.py:157-208 | the parsing loop yields the records of all lines, or stops at a bad one |
| InstDepTrace.DepsRoundTrip | util/encode_inst_dep_trace.py:193-206 | dependency lists of any length come back |
| InstDepTrace.LineRoundTrip | util/encode_inst_dep_trace.py:157-208 | a printed record parses back, defaults filled in, exactly when shaped as its type demands |
| InstDepTrace.TraceRoundTrip | util/encode_inst_dep_trace.py:157-208 | a printed trace parses back exactly when all records are well shaped |
| CopyrightYears.DateStr | util/find_copyrights.py:195-220 | the ranges printed are increasing, do not touch and cover the years exactly; empty input fails |
| CopyrightYears.AddRange | util/find_copyrights.py:115-132 | a range adds all its years |
| CopyrightYears.ProcessDates | util/find_copyrights.py:115-132 | the loops collect the years of all pieces |
| CopyrightYears.PieceExact | util/find_copyrights.py:112-132 | a printed range is read whole when readable, loses its last year otherwise, and never adds a year |
| CopyrightYears.ReadLoses | util/find_copyrights.py:112-132 | one unreadable range loses a year of the whole |
| CopyrightYears.YearsRoundTrip | util/find_copyrights.py:112-220 | years come back exactly when every longer range lies within four-digit years |
| CopyrightYears.FourDigitYears | util/find_copyrights.py:112-220 | sets of four-digit years always come back |
| CopyrightYears.ReadableIff | util/find_copyrights.py:112-132 | all ranges are readable exactly when neighbouring years have four digits |
| CopyrightYears.PrintAndRead | util/find_copyrights.py:115-220 | printing a set of years and reading the text gives the set back exactly when neighbouring years have four digits |
| CopyrightYears.RangesMaximal | util/find_copyrights.py:195-220 | the years next to a printed range are not in the set |
| Bandit.Resize | src/mem/cache/prefetch/ml_prefetch_controller.cc:282-305 | a row is padded with zeros, never cut |
| Bandit.Best | src/mem/cache/prefetch/ml_prefetch_controller.cc:282-305 | the first index with the largest value |
| Bandit.Controller.constructor | src/mem/cache/prefetch/ml_prefetch_controller.cc:44-105 | initial state; an invalid initial action becomes 0 |
| Bandit.Controller.SelectAction | src/mem/cache/prefetch/ml_prefetch_controller.cc:282-305 | a random action below the exploration rate, else the best one by the loop |
| Bandit.Controller.Observe | src/mem/cache/prefetch/ml_prefetch_controller.cc:313-376 | counters, smoothed miss rate and IPC after an epoch, and the deltas |
| Bandit.Controller.UpdateValue | src/mem/cache/prefetch/ml_prefetch_controller.cc:407-414 | only the value of the last action in the last state moves |
| Bandit.Controller.Switch | src/mem/cache/prefetch/ml_prefetch_controller.cc:419-467 | next action, use counters and decay of exploration |
| Bandit.Controller.EndEpoch | src/mem/cache/prefetch/ml_prefetch_controller.cc:307-472 | the whole epoch is one step of the learner |
| BanditRuns.EncodeInStates | src/mem/cache/prefetch/ml_prefetch_controller.cc:251-278 | only 21 of the 45 states are ever encoded |
| BanditRuns.KeysReachable | src/mem/cache/prefetch/ml_prefetch_controller.cc:307-472 | in every run the table holds only these states and the initial one |
| BanditRuns.TableSize | src/mem/cache/prefetch/ml_prefetch_controller.cc:307-472 | the table never exceeds 22 rows |
| BanditRuns.AccuracyInUnit | src/mem/cache/prefetch/ml_prefetch_controller.cc:368-372 | the accuracy lies between 0 and 1 |
| BanditRuns.RewardBounds | src/mem/cache/prefetch/ml_prefetch_controller.cc:390-400 | the reward lies between -1 and 1, less the penalty of the action |
| BanditRuns.Between | src/mem/cache/prefetch/ml_prefetch_controller.cc:411-414 | an update moves a value towards the reward and not past it |
| BanditRuns.StepBounded | src/mem/cache/prefetch/ml_prefetch_controller.cc:404-472 | an epoch keeps every value of every row bounded |
| BanditRuns.ValuesBounded | src/mem/cache/prefetch/ml_prefetch_controller.cc:307-472 | in every run all values stay between -1 less the penalty and 1 |
| BanditRuns.ActionValid | src/mem/cache/prefetch/ml_prefetch_controller.cc:282-305 | the controller always runs a child or is off, as chosen, and exploits the first best value |
| BanditRuns.ExploreRate | src/mem/cache/prefetch/ml_prefetch_controller.cc:440 | closed form of the exploration rate after any number of epochs |
| BanditRuns.FreezeStillExplores | README.md:81-85 | with the documented freeze every action can still be chosen from the second epoch on |
| BanditRuns.FrozenValues | README.md:81-85 | with learning rate 0 no value ever changes |
| BanditRuns.OtherRowsStay | src/mem/cache/prefetch/ml_prefetch_controller.cc:404-467 | an epoch touches the rows of two states only |
| BanditRuns.FirstRewardIsLost | src/mem/cache/prefetch/ml_prefetch_controller.cc:307-472 | the first reward goes to a row that no later epoch reads or writes |
| BanditRates.StepValue | src/mem/cache/prefetch/ml_prefetch_controller.cc:404-414 | an epoch changes one value, that of the last action in the last state |
| BanditRates.StayingValue | src/mem/cache/prefetch/ml_prefetch_controller.cc:307-472 | while state, action and reward stay the same, the distance of the value to the reward shrinks or grows by one factor |
| BanditRates.ConvergesIff | src/mem/cache/prefetch/ml_prefetch_controller.cc:307-472 | it shrinks exactly for learning rates between 0 and 2 |
| BanditRates.RunWithin | src/mem/cache/prefetch/ml_prefetch_controller.cc:307-472 | for rates from 0 to below 2 all values of all runs are within one bound |
| BanditRates.StateReached | src/mem/cache/prefetch/ml_prefetch_controller.cc:251-278 | each of the 21 states is reached by a run of two epochs with no more misses than accesses |
| BanditLimits.SwingGrows | src/mem/cache/prefetch/ml_prefetch_controller.cc:411-414 | for rates outside of 0 to 2, pairs of opposite rewards take a value a fixed amount further each time |
| BanditLimits.SwingPasses | src/mem/cache/prefetch/ml_prefetch_controller.cc:411-414 | for rates between 4/3 and 2 some number of such pairs takes it beyond 1 |
| BanditLimits.PulsesRun | src/mem/cache/prefetch/ml_prefetch_controller.cc:307-472 | with a CPU, pulses of IPC are such pairs: the value after n of them |
| BanditLimits.WavesRun | src/mem/cache/prefetch/ml_prefetch_controller.cc:307-472 | with a cache, waves of the miss rate are such pairs: the value after n of them |
| BanditLimits.BlindRun | src/mem/cache/prefetch/ml_prefetch_controller.cc:307-472 | without cache and CPU every value stays as near to its penalty as at the start, for rates up to 2 |
| BanditLimits.PokesRun | src/mem/cache/prefetch/ml_prefetch_controller.cc:307-472 | without them the distance of a chosen action's value to its penalty is a power of 1 less the rate |
| BanditLimits.HalfRun | src/mem/cache/prefetch/ml_prefetch_controller.cc:307-472 | with one of the two every value stays within 1 of its penalty, for rates up to 4/3 |
| BanditLimits.CollapseValue | src/mem/cache/prefetch/ml_prefetch_controller.cc:307-472 | with both, two epochs that give a value of minus the rate |
| BanditLimits.CommonBoundIff | src/mem/cache/prefetch/ml_prefetch_controller.cc:307-472 | a common bound over all runs exists exactly for rates from 0 to below 2; with neither cache nor CPU also for 2, and always without children |
| BanditLimits.RangeKeptIff | src/mem/cache/prefetch/ml_prefetch_controller.cc:307-472 | values stay in the range of the rewards over all runs exactly for rates from 0 to 1 with both, to 4/3 with one and to 2 with neither, where no children mean any rate |
| PrefetchTracker.ChildTable.constructor | src/mem/cache/prefetch/ml_prefetch_controller.cc:44-105 | an empty table and zero counters |
| PrefetchTracker.ChildTable.TrackIssuedForChild | src/mem/cache/prefetch/ml_prefetch_controller.cc:494-532 | table and counters after an issue |
| PrefetchTracker.ChildTable.TrackUsefulForAddr | src/mem/cache/prefetch/ml_prefetch_controller.cc:534-553 | table and counters after a hit |
| PrefetchTracker.ChildTable.CalculatePrefetch | src/mem/cache/prefetch/ml_prefetch_controller.cc:216-247 | all children are consulted, just the active one's candidates are issued and tracked |
| PrefetchTracker.ApplyBalanced | src/mem/cache/prefetch/ml_prefetch_controller.cc:494-553 | one operation keeps the account of a child balanced |
| PrefetchTracker.RunBalanced | src/mem/cache/prefetch/ml_prefetch_controller.cc:494-553 | in every run a child's prefetches are useful, outstanding, taken over or thrown away, and the table stays within its limit |
| PrefetchTracker.UsefulBound | src/mem/cache/prefetch/ml_prefetch_controller.cc:494-553 | useful prefetches never exceed issued and redundant ones |
| PrefetchTracker.UsefulWithoutIssue | src/mem/cache/prefetch/ml_prefetch_controller.cc:494-553 | they can exceed the issued ones alone |
| PrefetchTracker.NothingGained | src/mem/cache/prefetch/ml_prefetch_controller.cc:494-553 | a child whose addresses no other child issues never takes over an entry, in any run |
| PrefetchTracker.CreditMoves | src/mem/cache/prefetch/ml_prefetch_controller.cc:494-553 | one shared address is enough for a useful prefetch without an issue |
| PrefetchTracker.WithinIssuedIff | src/mem/cache/prefetch/ml_prefetch_controller.cc:494-553 | useful prefetches stay within the issued ones in every run over given pairs of child and address exactly when no other child shares an address |
| PrefetchBlocks.RunMirrors | src/mem/cache/prefetch/ml_prefetch_controller.cc:494-553 | over addresses in different blocks every run mirrors the run of a table keyed by block |
| PrefetchBlocks.HitInBlockLost | src/mem/cache/prefetch/ml_prefetch_controller.cc:534-553 | a hit elsewhere in the block of a prefetch is not credited |
| PrefetchBlocks.Hit72 | src/mem/cache/prefetch/ml_prefetch_controller.cc:534-553 | an issue at 64 and a hit at 72 |
| PrefetchBlocks.BlockKeysIff | src/mem/cache/prefetch/ml_prefetch_controller.hh:111-113 | the counters are those of a table keyed by block, in all runs over some addresses, exactly when no two of them share a block |
| PrefetchBlocks.AlignedIsOnePerBlock | src/mem/cache/prefetch/ml_prefetch_controller.hh:111-113 | block-aligned addresses are such |
| PrefetchBlocks.HitCredited | src/mem/cache/prefetch/ml_prefetch_controller.cc:534-553 | after every run a hit counts exactly when its address is a key, which agrees with the description for one address per block |
| QTableFile.Store.SaveQTable | src/mem/cache/prefetch/ml_prefetch_controller.cc:567-603 | the bytes written for a table |
| QTableFile.Store.ReadRows | src/mem/cache/prefetch/ml_prefetch_controller.cc:652-679 | the reading loop fills the table or empties it |
| QTableFile.Store.LoadQTable | src/mem/cache/prefetch/ml_prefetch_controller.cc:605-684 | table after loading: replaced, kept or emptied |
| QTableFile.SaveLoad | src/mem/cache/prefetch/ml_prefetch_controller.cc:567-684 | a saved file loads to its entries and is consumed to the last byte |
| QTableFile.TableSurvives | src/mem/cache/prefetch/ml_prefetch_controller.cc:567-684 | saving and loading gives the table back |
| QTableFile.OtherChildren | src/mem/cache/prefetch/ml_prefetch_controller.cc:605-684 | a file for other children leaves the table alone |
| QTableFile.LoadStable | src/mem/cache/prefetch/ml_prefetch_controller.cc:605-684 | bytes behind a loadable file change nothing |
| QTableFile.CutFile | src/mem/cache/prefetch/ml_prefetch_controller.cc:605-684 | no proper prefix of a saved file loads; one that ends in front of the rows keeps the table in memory, a longer one empties it |
| QTableFile.SignatureInjective | src/mem/cache/prefetch/ml_prefetch_controller.cc:557-565 | different child lists have different signatures when names are free of the separator |
| PrefetchQueue.Victim | src/mem/cache/prefetch/queued.cc:486-534 | the front of the run of equal priorities at the back |
| PrefetchQueue.Stop | src/mem/cache/prefetch/queued.cc:486-534 | where the backward search ends |
| PrefetchQueue.Evict | src/mem/cache/prefetch/queued.cc:486-534 | the loop removes that victim |
| PrefetchQueue.InsertByPriority | src/mem/cache/prefetch/queued.cc:486-534 | the loop inserts at that place |
| PrefetchQueue.AddToQueue | src/mem/cache/prefetch/queued.cc:486-534 | eviction, insertion, and when the source panics |
| PrefetchQueue.AlreadyInQueue | src/mem/cache/prefetch/queued.cc:341-374 | what is found and the list afterwards |
| PrefetchQueue.InsertSortedIff | src/mem/cache/prefetch/queued.cc:486-534 | insertion keeps the order by priority exactly unless the new priority lies strictly between two behind the front and is not among them |
| PrefetchQueue.MisplacedExample | src/mem/cache/prefetch/queued.cc:486-534 | priorities 9, 8, 5 and a new 7 |
| PrefetchQueue.BehindEqualsIff | src/mem/cache/prefetch/queued.cc:486-534 | a new packet goes behind all packets of its priority exactly unless the back is lower and one behind the front is equal |
| PrefetchQueue.NewerEvicted | src/mem/cache/prefetch/queued.cc:498-512 | a queue in which the newer of two equal packets is evicted as the oldest |
| PrefetchQueue.BubblePermutes | src/mem/cache/prefetch/queued.cc:341-374 | moving a packet forward permutes the list |
| PrefetchQueue.PriorityUpdatedIff | src/mem/cache/prefetch/queued.hh:244-251 | the packets are the old ones with the one behind the found one raised; the found request ends up with at least the asked priority exactly when it had that before |
| PrefetchQueue.NextRaised | src/mem/cache/prefetch/queued.cc:341-374 | asking for address 1 raises address 2 |
| PrefetchQueue.UniformIsFifo | src/mem/cache/prefetch/queued.cc:486-534 | with one priority the list is a bounded first-in first-out queue |
| PrefetchQueue.EnqueuedIsTail | src/mem/cache/prefetch/queued.cc:486-534 | a queue that is only added to holds the latest packets |
| PrefetchRuns.RunKeeps | src/mem/cache/prefetch/queued.cc:172-264 | in every run of offers, issues and squashes the size is respected, and with the filter on no address is queued twice |
| PrefetchRuns.FilterIff | src/mem/cache/prefetch/queued.cc:388-398 | no run queues an address twice exactly when the filter is on |
| PrefetchOrder.SearchedSorts | src/mem/cache/prefetch/queued.cc:341-374 | the search for a packet keeps an ordered list ordered |
| PrefetchOrder.RunSorted | src/mem/cache/prefetch/queued.cc:172-264 | with at most two priorities or three places every run keeps the order by priority |
| PrefetchOrder.AlwaysSortedIff | src/mem/cache/prefetch/queued.cc:486-534 | the list is ordered in every run over given priorities exactly then |
| PrefetchOrder.RunByAge | src/mem/cache/prefetch/queued.cc:172-264 | with one priority, or without filter and with three places, every run keeps the order by age within a priority |
| PrefetchOrder.FillEvicts | src/mem/cache/prefetch/queued.cc:498-512 | two packets of one priority in the wrong order of age lead to an eviction of the younger, for every queue size |
| PrefetchOrder.RepeatRun | src/mem/cache/prefetch/queued.cc:341-374 | with the filter on, a repeated request makes such a pair |
| PrefetchOrder.OvertakingRun | src/mem/cache/prefetch/queued.cc:486-534 | an insertion makes such a pair, filter or not |
| PrefetchOrder.AlwaysOldestIff | src/mem/cache/prefetch/queued.cc:498-512 | every eviction of every run over given priorities removes the oldest packet of the lowest priority exactly when there is at most one priority, or no filter and at most three places |
| PrefetchOrder.YoungerEvicted | src/mem/cache/prefetch/queued.cc:341-534 | a run of four offers that evicts the younger of two equal packets |
| SimDrivers.SwapPairs | configs/common/Simulation.py:464-467 | each pair is turned round |
| SimDrivers.RepeatSwitch | configs/common/Simulation.py:453-471 | the calls made for every sequence of simulator exits |
| SimDrivers.SwitchFromActive | configs/common/Simulation.py:453-471 | every switch is away from the CPUs that are running |
| SimDrivers.SlicesFitIff | configs/common/Simulation.py:453-471 | no slice passes maxtick exactly when the first one does not |
| SimDrivers.SwitchCount | configs/common/Simulation.py:453-471 | at most as many switches as periods fit |
| SimDrivers.RunTo | configs/common/Simulation.py:252-256 | checkpoint exits are passed over on the way to a tick |
| SimDrivers.ScriptCheckpoints | configs/common/Simulation.py:246-283 | the ticks at which checkpoints are written, for every sequence of exits |
| SimDrivers.CheckpointTicks | configs/common/Simulation.py:246-283 | checkpoints are a period apart without gaps, all but the first within maxtick, and no more than asked for but one |
| SimDrivers.IgnoredIff | configs/common/Simulation.py:265-281 | checkpoint instructions are ignored exactly in runs where no completed period was interrupted before another |
| CacheTree.NumTesters | configs/example/memtest.py:150-161 | the loops compute the weighted sum |
| CacheTree.FormulaIsTree | configs/example/memtest.py:150-161 | the closed form equals the count by the structure of the tree |
| CacheTree.MakePrototypes | configs/example/memtest.py:236-260 | one prototype per level, each scaled by the sharing of the levels above it |
| CacheTree.NewSub | configs/example/memtest.py:285-300 | taking the next index of a level keeps all names distinct |
| CacheTree.Builder.constructor | configs/example/memtest.py:279-283 | all indices start at 0 |
| CacheTree.Builder.AddSub | configs/example/memtest.py:285-300 | a subsystem gets the next index of its level |
| CacheTree.Builder.MakeSubtrees | configs/example/memtest.py:285-347 | a subtree below each cache |
| CacheTree.Builder.MakeCacheLevel | configs/example/memtest.py:285-347 | the recursion builds the testers of its subtree with distinct names and never fails |
| CacheTree.Builder.Build | configs/example/memtest.py:351 | the whole tree has as many testers as the formula says |
| LogRoll.Overwrite | util/logroll.py:89-90 | overwriting the oldest line keeps the last lines in order |
| LogRoll.Roll | util/logroll.py:63-94 | whenever a line is waited for and at the end, the dump is the last lines read, in order |
| RangeSweep.TestIsExact | configs/dram/lat_mem_rd.py:157-158 | the bit test holds exactly for powers of two |
| RangeSweep.SizeStep | configs/dram/lat_mem_rd.py:170-174 | the next size is a step further, and the step doubles exactly at powers of two |
| RangeSweep.Ranges | configs/dram/lat_mem_rd.py:166-174 | the loop ends and lists 4, 5, 6, 7 times growing powers of two up to the first that reaches the maximum |
| RangeSweep.SweepEnds | configs/dram/lat_mem_rd.py:161-174 | a power of two is hit exactly, any other maximum is passed by less than a quarter |

## Left out

- File, gzip and ConfigParser input and output, command lines, subprocesses and terminal colours: files are byte or line sequences and colours are empty.
- Serialization of protobuf messages: message bodies are opaque bytes, and the dependency trace model starts from the decoded records.
- The simulator behind `m5.simulate`: any sequence of exits is allowed; the final partial slice of `scriptCheckpoints` writes no checkpoint and is not recorded.
- Signals that arrive inside a loop body of `logroll.py`; the model shows the dump at every wait for a line.
- The conversion of numeric checkpoint versions, two scripts with the same tag, and the bodies of the single upgraders.
- `gather_port_connections` and the parsing of port names; the binder starts from the list that names every link in both directions.
- How Python 3 compares `PortConnection` objects, which define only `__cmp__`: the sorted order is the one that `__cmp__` states, and other results hold for every scan order.
- Underscores in numbers, which `int` accepts, and the range checks of unsigned protobuf fields.
- Rounding of doubles in the controller; values are reals, and saved values are their 64-bit patterns.
- `regStats`, the CSV log and probe registration of the controller.
- Translation across pages, throttling by accuracy, latency and tag lookup in `queued.cc`: a queue operation is an offer, an issue or a squash.
- Ports and buses in the cache tree; `memcheck.py` builds the same tree with the count written inline.
- Dates printed by pattern: only the year text of `find_copyrights.py` is modelled, not the search for copyright blocks.
- RunKeeps: asks for a queue size of at least 2, because the source panics on a full queue of size 0 or 1, as AddToQueue states.
- FilterIff: asks for the same queue size, for the same reason.
- AlwaysSortedIff: asks for the same queue size, for the same reason.
- AlwaysOldestIff: asks for the same queue size, for the same reason.
- StateReached: is about controllers that see a cache and a CPU; without these counters fewer states occur.
- ViewerIsSortThenFilter: covers traces made of whole instruction blocks, as `src/cpu/o3/dyn_inst.cc` writes them.
- The remaining C++ of gem5, its wiring scripts, lookup tables and code generators, which would add only easy members.
