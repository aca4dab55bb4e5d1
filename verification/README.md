# Verification of the GPU-sharing scheduler simulator

A Dafny model of the parts of the simulator that decide correctness: who holds which GPU, which
GPU is chosen, how fragmented a node is, when pods end, and which pods stand for a workload.

The files follow the program's structure, one module each.

- `Seals`: how a predicate is carried from state to state without being unfolded.
- `Bags`, `Sorting`, `IndexSort`, `HeapOrder`: sums and sorted sequences determined by their bag, a
  sort, the stable index sort over a node's GPU list, and the library heap's sifting steps.
- `Decimal`: numerals, "-"-joined device ids and ","-terminated keys, with their readers.
- `Resource`, `NodeKey`: taking a pod's demand from a node and giving it back, and the canonical memo
  key of a node.
- `Frag`, `FragMeaning`: the fragmentation measures, and what their buckets mean in terms of `Sub`.
- `FragMemo`, `BellmanWalks`: the memo that two kinds of results share, the recursion cut off by
  probability, and what its value means over sequences of draws.
- `Allocators`: the cache's allocator, Reserve's allocators and the one inside `Sub`.
- `DeviceCache`, `Ledger`, `GpuRuns`, `GpuShare`: the device cache as classes, the accounting it
  stands for, whole runs of the plugin as a state machine, and the plugin over cache and annotation.
- `SimTime`, `ArrivalRun`: simulated time with its heap of running pods, and the arrival loop.
- `SpecLists`, `PredictWindow`, `TypicalPods`, `TypicalShares`, `Skyline`: lists of counted specs, the
  sliding window of arrivals, the typical pods, what they tell of a workload, and its skyline.
- `VictimQueue`, `Deschedule`, `Evictions`: the victim queue, the descheduling loop and what its whole
  runs come to.
- `Packing`: the packing score.

Code that changes things step by step is a class or a method with loops, proved against a function or
predicate whose properties are then proved as lemmas. Floats are `real`; Go's integers are `int`, as
every quantity is bounded far below 64 bits by the validity of nodes and pods. The sigmoid of the
fragmentation-aware score and the square root of the predictor are parameters. A valid pod has GPU count and milli both
zero or both positive and at most 1000 milli per GPU; a valid node has one entry of 0..1000 per GPU.
A lemma named `...Means` or `...Is...` opens each sealed predicate.

What the code does that its documentation does not say:

- `Unreserve` is documented to undo `Reserve`, but the scheduler hands it the pod without the devices
  that Reserve chose, and then nothing is freed (`Ledger.RemoveUndoesAddIff`). Deleting the pod afterwards
  frees nothing either, because the server has no node for it: its devices stay charged in every later
  state of the run (`GpuRuns.UnreservedLeaks`, `GpuRuns.LeakIsForever`).
- The memo key says which GPUs of a node are idle exactly when fewer than 8 of them are
  (`NodeKey.KeyTellsApartIff`). With 8 or more, and pods of any weight, there is another node with the same
  key and other fragments, and the memo answers with those of whichever was asked about first
  (`FragMemo.MemoMisleadsIff`, `FragMemo.Simulator.NodeGpuFragAmount`). Among nodes of at most 8 idle GPUs
  the key is unambiguous (`NodeKey.KeyIdentifies`).
- The descheduling loop for several pods never updates a node's resources, so it evicts at most one pod
  from each node, whatever the budget (`Evictions.OnePodPerNode`), even where a second eviction would
  remove more fragmentation (`Evictions.TwoHalvesOneLeaves`).
- The pod that is recorded for simulated time is the one without devices, so over whole arrival runs the
  end time of every device stays 0 (`ArrivalRun.Simulator.DevicesSeemFree`).
- `genTopK` indexes past the distinct specs exactly when the water mark is above 1 and the small window
  is larger than their number (`PredictWindow.PanicsIff`).
- `GetTypicalPods` would not end for a popularity threshold above 100 (`TypicalPods.NeverEnough`), and an
  empty workload gives an empty list, which is no distribution.
- The skyline measure can call a node wholly fragmented although a pod fits, when pods of equal CPU and
  milli differ in their number of GPUs (`Skyline.PairHidesWhole`, exact condition in `Skyline.SkylineRightIff`).
- The packing score's free-node tier is documented as capped at 33, but the cap is the GPU count
  (`Packing.FreeTierCap`).

## Model

| member | source | states |
|---|---|---|
| GpuRuns.ReserveAfterFilter | pkg/simulator/plugin/open_gpu_share.go:259-353 | once the cache's allocator has let a pod through, each of Reserve's allocators (best, worst, random, exclusive, fragmentation-aware) gives a non-empty list of different devices with room, and none panics |
| GpuRuns.StepKeepsGood | pkg/simulator/plugin/open_gpu_share.go:83-224 | every Filter-then-Reserve, Unreserve and deletion step, the deletion of a pod that was unreserved included, keeps the books and never fails |
| GpuRuns.RunsStayGood | pkg/simulator/plugin/open_gpu_share.go:83-224 | over every run, in every state, no Reserve after a successful Filter has failed |
| GpuRuns.RunsKeepTheBooks | pkg/type/open-gpu-share/cache/deviceinfo.go:39-60 | over every run a device is charged exactly the sum over the pods placed on its node of milli times how often the pod names the device, and that stays within 0..1000 |
| GpuRuns.RunsPlaceWell | pkg/simulator/plugin/open_gpu_share.go:83-127 | over every run a placed pod is on a node of a type it accepts, on as many different devices of it as it asks for |
| GpuRuns.AnnotationReadsBack | pkg/type/open-gpu-share/utils/pod.go:173-186 | the device list that Reserve writes on a pod parses back to the chosen devices |
| GpuRuns.UnreservedLeaks | pkg/simulator/plugin/open_gpu_share.go:165-224 | a pod that is reserved, unreserved and then deleted leaves the cache as Reserve did, with its milli on each device it was given |
| GpuRuns.LeakIsForever | pkg/simulator/plugin/open_gpu_share.go:165-224 | in every later state of every run each of those devices is still charged at least that |
| Ledger.ChargeIsPlaced | pkg/type/open-gpu-share/cache/deviceinfo.go:39-60 | the charge of a device's own pod map equals the sum over all pods placed on the node |
| Ledger.ChargeOnlyRunning | pkg/type/open-gpu-share/cache/deviceinfo.go:39-60 | pods that have ended, or whose list cannot be read, are charged nothing |
| Ledger.LoadsAddUp | pkg/type/open-gpu-share/cache/deviceinfo.go:39-60 | over all devices a running pod is charged its milli once for each entry of its list, repeated ones too |
| Ledger.PlaceKeepsBooks | pkg/type/open-gpu-share/cache/gpunodeinfo.go:111-129 | entering a pod on devices with room keeps every device's charge within a whole GPU and leaves other nodes alone |
| Ledger.RemoveKeepsBooks | pkg/type/open-gpu-share/cache/gpunodeinfo.go:93-108 | removing a placed pod keeps the books |
| Ledger.RemoveUndoesAddIff | pkg/simulator/plugin/open_gpu_share.go:216-224 | removing undoes adding exactly when the removed pod names every device the added one was entered on; Unreserve is documented to undo Reserve, but a pod without its devices frees nothing |
| Ledger.RemoveUnannotated | pkg/simulator/plugin/open_gpu_share.go:216-224 | a pod without a device annotation is taken off no device |
| ArrivalRun.Simulator.ReleaseEnded | pkg/simulator/simulator.go:421-427 | right after the release at t each device is charged exactly what the pods ever placed that end after t take: no ended pod holds capacity |
| ArrivalRun.Simulator.DeletePodByName | pkg/simulator/simulator.go:337-360 | deleting an ended pod keeps the server, the heap of traces, the placements and the cache in agreement |
| ArrivalRun.Simulator.OnDelete | pkg/simulator/plugin/open_gpu_share.go:60-72 | the delete handler takes exactly the deleted pod off the books |
| ArrivalRun.Simulator.Arrive | pkg/simulator/simulator.go:418-431 | one arrival releases what has ended and then places the pod where it was tried, or leaves everything as it was |
| ArrivalRun.Simulator.SchedulePods | pkg/simulator/simulator.go:384-465 | over the whole workload: right after each release every device is charged exactly what the pods placed so far that end later take, between releases the arriving pod is placed where it was tried exactly when Filter passes there and nothing else changes, and exactly the pods that found no place are reported as failed, in order |
| ArrivalRun.OnlyLiveLeft | pkg/simulator/simulator.go:421-427 | once every trace left on the heap ends later, the pods still placed are exactly those ever placed that end later |
| ArrivalRun.ChargeIsLive | pkg/simulator/simulator.go:421-427 | when the placed pods are those that end later, each device's charge is the sum over them |
| ArrivalRun.AgreeTakeOff | pkg/simulator/simulator.go:337-360 | taking an ended pod off the server and its trace off the heap keeps the two in agreement and removes exactly that pod from the placements |
| ArrivalRun.AgreePutOn | pkg/simulator/plugin/sim_time.go:41-47 | placing a new pod and recording its trace keeps the server, the heap and the placements in agreement |
| ArrivalRun.Simulator.DevicesSeemFree | pkg/simulator/plugin/sim_time.go:41-47 | over whole arrival runs no recorded pod names a device, so the end time of every device stays 0 |
| ArrivalRun.Simulator.constructor | pkg/type/fakeTime.go:38-47 | a new simulator has nothing placed, at time 0, with objects of its own, so a whole workload can be run on it |
| GpuShare.GpuSharePlugin.GetGpuMilliLeftListOnNode | pkg/utils/utils.go:1157-1178 | in every valid state the list read from the node annotation is the cache's idle list |
| GpuShare.GpuSharePlugin.Filter | pkg/simulator/plugin/open_gpu_share.go:83-127 | CPU pods pass; otherwise the node needs GPUs of an accepted type and the cache must be able to allocate |
| GpuShare.GpuSharePlugin.Reserve | pkg/simulator/plugin/open_gpu_share.go:187-213 | status and new state in every case: no GPU request, unknown node, panic, no device, entered; the node annotation again records what the devices are charged |
| GpuShare.GpuSharePlugin.Unreserve | pkg/simulator/plugin/open_gpu_share.go:216-224 | takes the pod off by its own list; without a device list the cache is unchanged |
| GpuShare.GpuSharePlugin.Undo | pkg/simulator/plugin/open_gpu_share.go:216-224 | Unreserve of the pod as the scheduler holds it keeps cache and annotation at a state of the run |
| GpuShare.GpuSharePlugin.RemovePod | pkg/simulator/plugin/open_gpu_share.go:165-183 | takes the pod off the node in the cache and writes the annotation back |
| GpuShare.GpuSharePlugin.UpdateNode | pkg/simulator/plugin/open_gpu_share.go:129-145 | the annotation of the node becomes its devices' charges, and no other node's changes; an unknown node is an error and changes nothing |
| GpuShare.GpuSharePlugin.Enter | pkg/simulator/plugin/open_gpu_share.go:147-163 | cache first, annotation second; a pod whose node name is not set is entered but reported as an error, and an unknown node is an error that changes nothing |
| GpuShare.GpuSharePlugin.Schedule | pkg/simulator/plugin/open_gpu_share.go:83-213 | one Filter-then-Reserve attempt is one step of a run and places the pod exactly when Filter passes |
| GpuShare.GpuSharePlugin.Release | pkg/simulator/plugin/open_gpu_share.go:60-72 | deleting a placed pod takes exactly that pod off cache and annotation, or nothing when its binding was undone |
| GpuShare.ReleaseIsStep | pkg/simulator/plugin/open_gpu_share.go:60-72 | the deletion of a placed pod is a step of a run |
| GpuShare.ReleasedFitsAgain | pkg/type/open-gpu-share/cache/gpunodeinfo.go:146-164 | a pod that has been released would fit its own devices again |
| GpuShare.UnreserveIsStep | pkg/simulator/plugin/open_gpu_share.go:216-224 | Unreserve of a pod without devices is a step of a run |
| GpuShare.ChooseDevices | pkg/simulator/plugin/open_gpu_share.go:259-291 | pre-assigned devices are kept if they exist and have room; several shares panic; else the configured allocator chooses, the fragmentation-aware one a device that leaves least fragmentation |
| GpuShare.FilterAnswerPasses | pkg/simulator/plugin/open_gpu_share.go:83-127 | for a pod without devices Filter's answer is the one the runs assume |
| GpuShare.ReserveIsStep | pkg/simulator/plugin/open_gpu_share.go:187-213 | what Reserve does after a Filter that passed is a step of a run and always succeeds |
| GpuShare.SchedulerCache.GetGpuNodeInfo | pkg/type/open-gpu-share/cache/cache.go:120-135 | finds the node, builds it with empty devices the first time, or returns nothing for an unknown one; what the cluster's devices hold does not change |
| GpuShare.SchedulerCache.AddOrUpdatePod | pkg/type/open-gpu-share/cache/cache.go:88-103 | enters the pod on the devices it names on that node only, and remembers it when it named one |
| GpuShare.SchedulerCache.RemovePod | pkg/type/open-gpu-share/cache/cache.go:107-117 | takes the pod off the devices it names on that node only, and forgets it even when the node is unknown |
| GpuShare.SchedulerCache.OneNodeChanged | pkg/type/open-gpu-share/cache/cache.go:88-117 | devices of different nodes are different objects, so changing one node's shows on no other |
| DeviceCache.DeviceInfo.AddPod | pkg/type/open-gpu-share/cache/deviceinfo.go:62-68 | the device holds the pod under its id |
| DeviceCache.DeviceInfo.RemovePod | pkg/type/open-gpu-share/cache/deviceinfo.go:70-76 | the device no longer holds the pod |
| DeviceCache.DeviceInfo.GetUsedGpuMilli | pkg/type/open-gpu-share/cache/deviceinfo.go:39-60 | the nested loops compute the charge: milli times multiplicity over running pods whose list parses |
| DeviceCache.GpuNodeInfo.constructor | pkg/type/open-gpu-share/cache/gpunodeinfo.go:29-50 | a new node has one empty device for each index |
| DeviceCache.GpuNodeInfo.AddOrUpdatePod | pkg/type/open-gpu-share/cache/gpunodeinfo.go:111-129 | the pod is entered on every existing device its list names; reports whether there was one |
| DeviceCache.GpuNodeInfo.RemovePod | pkg/type/open-gpu-share/cache/gpunodeinfo.go:93-108 | the pod leaves every device its own list names, and only those |
| DeviceCache.GpuNodeInfo.GetUsedGpus | pkg/type/open-gpu-share/cache/gpunodeinfo.go:224-231 | each device's charge |
| DeviceCache.GpuNodeInfo.GetIdleGpus | pkg/type/open-gpu-share/cache/gpunodeinfo.go:203-211 | a whole GPU minus the charge, for each device |
| DeviceCache.GpuNodeInfo.AllocateGpuId | pkg/type/open-gpu-share/cache/gpunodeinfo.go:132-200 | the answer in every case: no request, no device, pre-assigned ids that fit or do not, ids that do not parse, one GPU, several |
| Allocators.GreedyComplete | pkg/type/open-gpu-share/cache/gpunodeinfo.go:178-197 | the two-pointer greedy finds a placement exactly when some assignment of the shares respects every device's idle milli, that is when the sum of floor(idle/req) reaches the request, and what it returns never overfills a device |
| Allocators.FillOnIdle | pkg/type/open-gpu-share/cache/gpunodeinfo.go:178-197 | the two-pointer loop, which lowers a copy of the idle milli, ends and computes the greedy fill |
| Allocators.TightestOnIdle | pkg/type/open-gpu-share/cache/gpunodeinfo.go:165-177 | the scan for one GPU finds the tightest device that fits, the lowest index among ties |
| Allocators.AllocateOnIdle | pkg/type/open-gpu-share/cache/gpunodeinfo.go:165-199 | the joined device ids of that choice, and whether one was found |
| Allocators.LeaderIsFirstFit | pkg/type/open-gpu-share/cache/gpunodeinfo.go:165-177 | the scan's candidate is the first device of the stable ascending order that fits |
| Allocators.AllocateExclusiveGpuId | pkg/type/resource.go:366-387 | takes the first wholly free devices, and panics exactly when there are too few |
| Allocators.AllocateGpuIdBasedOnBestFit | pkg/simulator/plugin/open_gpu_share.go:293-312 | the tightest device for a share, wholly free devices otherwise |
| Allocators.AllocateGpuIdBasedOnWorstFit | pkg/simulator/plugin/open_gpu_share.go:314-333 | the first device of the stable descending order, if it has room |
| Allocators.WorstFitIsRoomiest | pkg/simulator/plugin/open_gpu_share.go:314-333 | the device that worst fit takes is the roomiest with room, the lowest index among ties, and there is none exactly when none has room |
| Allocators.AllocateGpuIdBasedOnRandomFit | pkg/simulator/plugin/open_gpu_share.go:335-353 | some device with room, if one fits |
| Allocators.CalculateGpuShareFragExtendScore | pkg/simulator/plugin/fgd_score.go:67-94 | the first device with room of the best score, each scored on a copy of the node; for an increasing sigmoid it leaves strictly less fragmentation than every device with room before it, and no device leaves less by a point of the score |
| Allocators.LessFragNotOutscored | pkg/simulator/plugin/fgd_score.go:67-82 | for an increasing sigmoid, the device that leaves less fragmentation once the share is taken from it is not outscored |
| Allocators.GainScale | pkg/simulator/plugin/fgd_score.go:77 | the scale of the score: with the identity for a sigmoid it counts the fragmentation removed in tens of milli |
| Allocators.GainRange | pkg/simulator/plugin/fgd_score.go:77 | a sigmoid between 0 and 1 scores between 0 and 100 |
| Allocators.AllocatorsAgree | pkg/type/open-gpu-share/cache/gpunodeinfo.go:165-197 | on every valid node and every valid GPU pod that fits, the cache and the best-fit or exclusive allocator choose the tightest devices, their text reads back as these, and what Sub leaves is the node's list lowered on exactly these |
| Allocators.AllocateThreeWays | pkg/type/open-gpu-share/cache/gpunodeinfo.go:165-197 | run side by side, the three serve the same pods; the devices that the cache's text names are the tightest, are those of Reserve's text, and are those that Sub lowers |
| Allocators.AllocatorsRefuse | pkg/type/open-gpu-share/cache/gpunodeinfo.go:165-197 | when the pod does not fit, the cache and Sub both refuse it |
| Resource.Sub | pkg/type/resource.go:437-463 | the loop computes the packing on the stable ascending order, and leaves the original value alone |
| Resource.SubSucceeds | pkg/type/resource.go:437-463 | Sub serves a valid pod exactly when CPU and enough GPUs with room are left |
| Resource.SubTakesTightest | pkg/type/resource.go:437-463 | a successful Sub lowers exactly GpuNumber different GPUs by MilliGpu each, the tightest that fit; CPU and total GPU drop by exactly the request |
| Resource.Add | pkg/type/resource.go:465-495 | the loop checks and raises id by id, with every error case |
| Resource.AddIdsAccepts | pkg/type/resource.go:480-495 | Add takes an id list exactly when every id is a device and no device, counting repeats, passes a whole GPU; then each rises by its share |
| Resource.AddSucceeds | pkg/type/resource.go:465-495 | Add serves a pod exactly when its CPU fits the capacity and every named device has room; CPU and devices rise by just that |
| Resource.AddUndoesSub | pkg/type/resource.go:437-495 | adding the pod back with the ids Sub used restores the node exactly |
| IndexSort.SortedMilliGpuLeftIndexList | pkg/type/resource.go:162-180 | the stable index sort |
| IndexSort.StableOrderUnique | pkg/type/resource.go:162-180 | there is only one stable order: every device once, by milli left, ties by index |
| Decimal.GpuIdStrToIntList | pkg/type/open-gpu-share/utils/pod.go:173-186 | the parser returns the ids read before the first bad part, and whether there was one |
| Decimal.IdsRoundTrip | pkg/type/open-gpu-share/utils/pod.go:173-186 | parsing what the allocators print gives the ids back |
| NodeKey.Flatten | pkg/type/resource.go:182-198 | the memo key: CPU, sorted and zero-padded GPU list, type, remark |
| NodeKey.KeyIdentifies | pkg/type/resource.go:182-198 | for nodes of at most 8 idle GPUs two keys are equal exactly when CPU, type, remark and the bag of GPUs that are not fully used are |
| NodeKey.KeyTellsApartIff | pkg/type/resource.go:182-198 | against every other valid node the key says which GPUs are idle exactly when fewer than 8 are |
| NodeKey.KeyConfusesNineGpus | pkg/type/resource.go:182-198 | an example beyond that: free nodes of 8 and of 9 GPUs share a key |
| NodeKey.SubRespectsKey | pkg/type/resource.go:437-463 | Sub takes nodes that share a key to nodes that share a key |
| Frag.IsNodeAccessibleToPodByType | pkg/utils/utils.go:955-994 | no type wanted, or the node's type in the list, or a list of empty entries |
| Frag.AccessibleIffListed | pkg/utils/utils.go:955-994 | a pod that lists types runs on the nodes of these types and on no others |
| Frag.CanNodeHostPodOnGpuMemory | pkg/utils/frag.go:775-786 | enough GPUs with room, at least one |
| Frag.SubServesSatisfied | pkg/utils/frag.go:788-814 | on a node it may use a GPU pod is Q3Satisfied exactly when Sub succeeds |
| FragMeaning.FragTypeIff | pkg/utils/frag.go:788-814 | each of the seven types told by access and Sub: satisfied when the node may be used and Sub succeeds; lacking CPU when Sub would succeed with the CPU asked for; lacking GPU when it would not, with or without CPU for the pod; no access; and for pods without GPU whether Sub succeeds |
| Frag.GetGpuMilliLeftTotal | pkg/utils/frag.go:349-354 | the sum of the GPU list |
| Frag.GetGpuFragMilliByNodeResAndPodRes | pkg/utils/frag.go:330-338 | the milli left on GPUs too small for the pod |
| Frag.AddToBucket | pkg/utils/frag.go:87-97 | adds a non-negative amount to one bucket and changes no other |
| Frag.NodeGpuShareFragAmount | pkg/utils/frag.go:148-168 | the in-place loop computes the seven buckets |
| FragMeaning.AmountsMean | pkg/utils/frag.go:148-168 | each bucket is the sum, over the pods that fall into it by that account, of share times idle milli; of a satisfied pod the milli on GPUs too small for it is lack of GPU |
| Frag.FragConserved | pkg/utils/frag.go:148-168 | the buckets sum to the weight times the idle milli; the sum without Q3 lies between 0 and that, and equals the direct score |
| Frag.FragAmountSumExceptQ3 | pkg/utils/frag.go:739-746 | the sum of the buckets without Q3 |
| Frag.NodeGpuShareFragAmountScoreBasedOnPredict6 | pkg/utils/predict.go:202-229 | the single-accumulator score |
| Frag.NodeGpuFragRatio | pkg/utils/frag.go:124-140 | the in-place loop computes the ratio of each bucket |
| FragMeaning.RatiosMean | pkg/utils/frag.go:124-140 | each ratio is the share of the pods that fall into the bucket |
| Frag.RatioConserved | pkg/utils/frag.go:124-140 | the ratios share out the whole weight of the pods; what is not in Q3 is the weight of the pods that the node cannot serve |
| Frag.SameKeySameData | pkg/type/resource.go:182-198 | nodes that a key cannot tell apart have the same buckets and ratios |
| FragMemo.Simulator.SetTypicalPods | pkg/simulator/analysis.go:246-254 | new typical pods empty the memo |
| FragMemo.Simulator.NodeGpuFragAmount | pkg/simulator/analysis.go:189-210 | in every state reachable since the memo was emptied, while only nodes of at most 8 idle GPUs were asked about, the answer is the fresh measure, and with fewer than 8 it is that whatever was asked; an entry of the other kind is never found, and Bellman values stay exact |
| FragMemo.MemoMisleadsIff | pkg/simulator/analysis.go:189-210 | some other node with the same key has other fragments exactly when 8 GPUs or more are idle and some pod has weight |
| FragMemo.SubShrinks | pkg/utils/frag.go:436-446 | each successful Sub strictly lowers CPU left plus GPU left, which is why the recursion ends |
| FragMemo.UncutBounds | pkg/utils/frag.go:408-460 | the recursion without memo and cut-off lies between 0 and the idle milli |
| FragMemo.UncutSameKey | pkg/utils/frag.go:408-460 | nodes that share a key have the same value |
| BellmanWalks.UncutIsExpected | pkg/utils/frag.go:408-460 | the plain recursion is the sum over all complete sequences of draws of their probability times the idle milli where they end: the first refused pod, or a node on which next to nothing drawn would be served |
| BellmanWalks.WalksEndSurely | pkg/utils/frag.go:408-460 | for shares that sum to 1 the probabilities of the complete sequences sum to 1, so the value is an expectation |
| BellmanWalks.WalksAreAll | pkg/utils/frag.go:435-449 | the sequences summed over are all that are short enough, each once |
| BellmanWalks.NeverCutIff | pkg/utils/frag.go:426-429 | the cut-off is never reached exactly when wherever the recursion gets at least one milli is expected or nothing is idle |
| FragMemo.Simulator.NodeGpuFragBellman | pkg/utils/frag.go:408-460 | the memoised, cut-off recursion ends; its value lies between 0 and the plain recursion from any valid memo, and equals it where the cut-off is never reached |
| FragMemo.Simulator.BellmanMean | pkg/utils/frag.go:435-449 | the loop over the typical pods keeps that bound |
| SimTime.FakeTime.RecordPod | pkg/type/fakeTime.go:74-99 | the new trace joins the heap, the counters, the end times and its node's list |
| SimTime.FakeTime.ReleasePodBeforeTime | pkg/type/fakeTime.go:183-198 | returns exactly the live traces that end by t, in non-decreasing end order; what is left is a valid heap of those that end later |
| SimTime.FakeTime.GpuUtilsAfterAll | pkg/type/fakeTime.go:224-230 | always the GPUs in use by any pod ever recorded, summed over time, so no release changes it |
| SimTime.WorkIsUtilisation | pkg/type/fakeTime.go:224-230 | the utilisation is the number of GPUs in use, by milli times count of the pods between start and end, summed over all instants |
| SimTime.FakeTime.GetPodNum | pkg/type/fakeTime.go:232-234 | running is the heap's size, completed the number released, and together they are the number recorded |
| SimTime.FakeTime.SetPodTraceOnNode | pkg/type/fakeTime.go:116-127 | the list becomes the new trace and those that end after now, sorted; other nodes keep theirs |
| SimTime.FakeTime.SetEndTime | pkg/type/fakeTime.go:135-142 | a later end replaces the one stored, a missing one counting as 0 |
| SimTime.FakeTime.GetEndTime | pkg/type/fakeTime.go:129-133 | the latest end of any pod ever recorded on the device |
| SimTime.FakeTime.GetLastPodTraceTime | pkg/type/fakeTime.go:107-114 | while a pod of the node is still to end, the latest end of any pod ever recorded there |
| SimTime.FakeTime.HeapPush | pkg/type/fakeTime.go:268-270 | pushing keeps the heap and adds one trace |
| SimTime.FakeTime.HeapPop | pkg/type/fakeTime.go:260-266 | popping takes a trace that ends no later than any other and keeps the heap |
| SimTime.DeviceEndIsLatest | pkg/type/fakeTime.go:135-142 | the recorded end of a device is that of some pod that uses it and no other ends later |
| SimTime.LatestEndIsLatest | pkg/type/fakeTime.go:74-99 | the latest end is that of some recorded pod and no other ends later |
| SimTime.EndKeyInjective | pkg/type/fakeTime.go:135-142 | different devices never share an end-time key |
| SimTime.WorkPermutes | pkg/type/fakeTime.go:224-230 | the utilisation of a set of pods does not depend on heap order |
| SimTime.LastIsLatest | pkg/type/fakeTime.go:116-127 | dropping traces that have ended never drops the latest one while any is live |
| PredictWindow.PredictPod.Add | pkg/type/predict.go:154-180 | the window stays the last arrivals with exact counts and time sums; the kept specs change only when due; when indexing past the records panics |
| PredictWindow.PredictPod.Push | pkg/type/predict.go:154-171 | one arrival in, the oldest out when the window is full |
| PredictWindow.TimeIsRunTime | pkg/type/predict.go:154-171 | the time sums add up the run times, under a square root each |
| PredictWindow.PredictPod.IsReady | pkg/type/predict.go:42-46 | ready exactly from the first full small window on, and then the kept specs are those of the window at the last choice, a distribution for a mark of at most 1 |
| PredictWindow.PredictPod.GetNearList | pkg/type/predict.go:244-250 | the last arrivals of a small window, or a panic before there are enough |
| PredictWindow.GenTopK | pkg/type/predict.go:187-214 | sorts, keeps and normalises; the result tells the window; indexes past the distinct specs exactly when the mark is above 1 and the limit above their number |
| PredictWindow.TopTellsWindow | pkg/type/predict.go:187-214 | the kept specs hold at least the water share of the arrivals in the window unless the limit is reached, fewer specs never hold as much, no other spec is more frequent, and each weighs its share of the arrivals kept |
| PredictWindow.KeepTop | pkg/type/predict.go:196-204 | the loop stops at the first prefix that reaches the mark, or at the limit |
| PredictWindow.PanicsIff | pkg/type/predict.go:198-204 | the loop runs past the records exactly when the mark is above 1 and there are fewer specs than the limit |
| PredictWindow.TopIsDistribution | pkg/type/predict.go:187-214 | with a mark of at most 1 the kept weights are positive and sum to 1 |
| PredictWindow.TopIsFewest | pkg/type/predict.go:198-204 | no smaller set of specs reaches the mark |
| PredictWindow.AllCounted | pkg/type/predict.go:188-194 | the counts, zero entries included, add up to the window's length |
| PredictWindow.ChoiceMoves | pkg/type/predict.go:172-178 | the kept specs are chosen anew exactly when the last full small or big window says so |
| PredictWindow.ChoiceRecent | pkg/type/predict.go:172-178 | so they are less than a small window old before the first big one is full, and less than a big and a small one afterwards |
| SpecLists.CollectEntries | pkg/type/predict.go:188-194 | one record for each counted spec with its number, whatever the map's order, and their sum |
| Deschedule.DescheduleClusterOnFragMultiPod | pkg/simulator/deschedule.go:121-178 | the loop ends; it evicts at most the budget, no pod twice, every turn takes a largest record and chooses among the pods earlier turns left, and it stops short only with an empty queue |
| Deschedule.EvictOne | pkg/simulator/deschedule.go:145-172 | one turn: the largest record is taken, its node's best victim evicted, the new record pushed |
| Deschedule.FindVictimPodOnNodeFragAware | pkg/simulator/deschedule_utils.go:73-106 | the first pod of the largest positive whole-milli gain, pods that cannot be considered skipped |
| Deschedule.EvictionLowers | pkg/simulator/deschedule_utils.go:91-97 | an eviction lowers the node's record by at least one milli, and no other pod's leaving would leave it a milli lower |
| Deschedule.NothingToGain | pkg/simulator/deschedule_utils.go:91-97 | a turn without a victim had no pod whose leaving lowers the record by a milli |
| Deschedule.BuildQueue | pkg/simulator/deschedule.go:124-136 | the queue starts as a heap with one record for every node |
| Deschedule.RemovePodFromPodSliceByPod | pkg/utils/utils.go:1201-1209 | the pods other than the given one, in order |
| Deschedule.PodKeyIdentifies | pkg/utils/utils.go:51-57 | two pods have the same key exactly when namespace and name agree, as namespaces hold no "/" |
| Evictions.OnePodPerNode | pkg/simulator/deschedule.go:145-172 | over every run each node loses at most one pod, no more pods are evicted than there are nodes, and every record in the queue is the fragmentation of its node without its victims |
| Evictions.SecondGainsNothing | pkg/simulator/deschedule_utils.go:79-97 | against the record of a node without its victim no other pod of the node gains anything |
| Evictions.TwoHalvesOneLeaves | pkg/simulator/deschedule.go:156-171 | two pods on a node of which one is evicted and the other seems to gain nothing, though without both the node has no fragmentation left |
| VictimQueue.PriorityQueue.Swap | pkg/simulator/deschedule_utils.go:126-130 | swaps two items, which then know their new positions |
| VictimQueue.PriorityQueue.Push | pkg/simulator/deschedule_utils.go:132-138 | appends and restores the heap; every item knows its position |
| VictimQueue.PriorityQueue.Pop | pkg/simulator/deschedule_utils.go:140-148 | takes the last item off and marks it with position -1 |
| VictimQueue.PriorityQueue.PopLargest | pkg/simulator/deschedule.go:151 | takes an item of the largest priority and leaves a heap whose items know their positions |
| VictimQueue.PriorityQueue.Init | pkg/simulator/deschedule.go:136 | builds the heap from any order of items |
| TypicalPods.TargetPodOrder | pkg/type/resource.go:33-52 | Less is a strict total order: of two different target pods exactly one is less |
| TypicalPods.TargetPodTransitive | pkg/type/resource.go:33-52 | the order is transitive |
| TypicalPods.SortTargetPodInDecreasingCount | pkg/utils/frag.go:764-773 | one entry for each counted spec, most frequent first |
| TypicalPods.SortedEntriesUnique | pkg/utils/frag.go:764-773 | the counting map determines that list, so neither map iteration nor the sort can show |
| TypicalPods.CountPods | pkg/utils/frag.go:539-582 | each spec that counts has the weight of its pods, and the total is the sum |
| TypicalPods.NormaliseTop | pkg/utils/frag.go:598-615 | the nested loops end and take whole steps of specs until the expected weight is reached |
| TypicalPods.GetTypicalPods | pkg/utils/frag.go:527-636 | the result is what the counts of the workload come to: sorted, cut after whole steps of specs, normalised; nothing when nothing counts |
| TypicalPods.TypicalUnique | pkg/utils/frag.go:527-636 | the workload and the configuration determine the result and its order |
| TypicalPods.TypicalIsDistribution | pkg/utils/frag.go:620-635 | when something counts the result is a distribution summing to 1 over different specs, in descending order; otherwise it is empty |
| TypicalPods.KeptReaches | pkg/utils/frag.go:591-615 | the kept specs cover at least the threshold share of the weight, and without the last step of them they do not |
| TypicalPods.NeverEnough | pkg/utils/frag.go:600-615 | with a threshold above 100 no number of specs is enough, so the loop would not end |
| TypicalPods.TypicalPodsConserve | pkg/simulator/analysis.go:246-254 | against typical pods the buckets share out exactly the idle milli of a node |
| TypicalShares.TypicalTellWorkload | pkg/utils/frag.go:527-636 | each share is that of the spec's pods, by weight, among the pods covered; at least the threshold is covered, but not without the last step of specs; specs come in order of weight and none left out weighs more |
| TypicalShares.WeightCountsPods | pkg/utils/frag.go:539-582 | a spec weighs its number of pods, more for whole GPUs when these carry a weight, nothing for pods without GPU unless these are involved |
| Packing.GetPackingScore | pkg/simulator/plugin/gpu_packing_score.go:71-117 | the score of each case, and the error exactly when the pod does not fit on a node that is not wholly free |
| Packing.TakeGpus | pkg/simulator/plugin/gpu_packing_score.go:81-97 | the greedy takes the first GPUs that fit in rank order and counts the wholly free ones |
| Packing.PackingIsTight | pkg/simulator/plugin/gpu_packing_score.go:81-97 | no choice of different GPUs with room uses fewer wholly free ones |
| Packing.FewestFree | pkg/simulator/plugin/gpu_packing_score.go:81-97 | any prefix of the rank order takes as few wholly free GPUs as any choice of as many GPUs with room |
| Packing.TiersDoNotCross | pkg/simulator/plugin/gpu_packing_score.go:71-117 | shared only at least 50, breaking into free GPUs 33 to 49, a wholly free node at most 33: in every case, exactly unless the node is wholly free with more than 33 GPUs |
| Packing.FewerFreeScoresHigher | pkg/simulator/plugin/gpu_packing_score.go:98-104 | fewer broken free GPUs score higher, up to 17 |
| Packing.LessIdleScoresHigher | pkg/simulator/plugin/gpu_packing_score.go:105-117 | less idle on the shared GPUs scores no lower, and a point higher for each ten percent, down to 50 |
| Packing.RatioIsIdle | pkg/simulator/plugin/gpu_packing_score.go:105-117 | the ratio is the idle milli of the chosen GPUs in tens |
| Packing.FreeNodeScores | pkg/simulator/plugin/gpu_packing_score.go:74-79 | of wholly free nodes the smaller scores higher up to 16 GPUs and the larger from 17 on |
| Packing.FreeTierCap | pkg/simulator/plugin/gpu_packing_score.go:74-79 | the tier documented as capped at 33 exceeds it exactly with more than 33 GPUs |
| Skyline.GetSkylinePods | pkg/utils/frag.go:710-737 | a strictly CPU-increasing, GPU-decreasing chain of workload pods, each the first of its kind, that undercuts every pod |
| Skyline.NodeGpuFragBasedOnSkyline | pkg/utils/frag.go:246-254 | 0 when some skyline pod fits, else all idle milli |
| Skyline.SkylineRightForOneGpu | pkg/utils/frag.go:246-254 | when no pod asks for more than one GPU, some skyline pod fits exactly when some workload pod does |
| Skyline.SkylineRightIff | pkg/utils/frag.go:246-254 | some skyline pod fits exactly when some workload pod does, on every node, if and only if each pod has a skyline pod below it that needs no more GPUs |
| Skyline.UncoveredIsMisjudged | pkg/utils/frag.go:246-254 | a pod without such a skyline pod is misjudged on the node that just fits it |
| Skyline.PairHidesWhole | pkg/utils/frag.go:710-737 | a workload of two pods on which the skyline misjudges a node |

## Left out

- AllocateGpuIdBasedOnRandomFit: states that the device has room, not its probability, because the random source is a free choice of the model.
- NodeGpuFragBellman: equality with the plain recursion is stated only where the probability cut-off is never reached, because a value cut off under one probability is stored and reused under another; the upper bound holds always. Both are for nodes of at most 8 idle GPUs, as beyond that a value can be found that was stored for another node.
- GpuRuns.RunsKeepTheBooks: pods arrive without devices of their own and under new ids, asking for one share or for whole GPUs. Given ids that name a device twice pass a test that looks at each id alone, and a known id entered again with other devices stays on its first ones, so neither keeps the sums.
- ArrivalRun.Simulator.SchedulePods: pods leave by running to their end. A deletion event, or a bind that fails, would leave a trace on the heap for a pod that is gone; a pod marked unscheduled only joins the failed ones. The node is an input, chosen by the other plugins. The predictor's part of the loop is proved on its own in `PredictWindow`.
- DescheduleClusterOnFragMultiPod: the deletion and rescheduling of the victims is not part of the loop's model; typical pods must be non-empty, as the sum over no buckets panics, and nodes have at most 8 GPUs, so that the memo is exact.
- Slices are values: the sharing of stored bucket data between memo and callers, and Copy as such, are not modelled.
- Kubernetes clients, informers, polling, binding, JSON and YAML, the command line, logging and reports; creating and deleting a pod are atomic steps.
- Locks and goroutines: every method is atomic.
- Floating-point rounding and 64-bit overflow.
- The second branch of `Add` (pkg/type/resource.go:497-511): it is entered for an empty id list of the requested length, and a pod that asks for no GPU has returned before.
- GPU-sharing nodes that report no GPU milli, Reset of a device, the CpuLacked and GpuLacked flags, AddGpuIds.
- GetPM and its variants, the time-weighted top specs, GetTypicalPodsByTime, Predict2 to 5 and 7, 8, and the TT and PP measures: nothing proved here rests on them, and GetPM's mixture of weights is no distribution.
- The random, dot-product, clustering and simon scores, cosine similarity, and the two other descheduling policies: nothing proved here rests on them.
- ThroughputAfterAll, GpuUtils at the current time, AddPod, EndPod and the other methods of simulated time marked for deletion.
