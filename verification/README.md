# Verified model of a VM scheduler

The scheduler runs batch jobs on cloud VMs. A planner packs the queued jobs onto the idle capacity of
active VMs and onto new slots; a PostgreSQL store commits plans under optimistic locking while users,
agents, the allocator and the failure detector keep changing the same rows. This project models the
planner (capacities, job orderings, allocation strategies, slot selection with merging, both
assigners), the store's transactions and the interleaving of all components as a state machine, and
proves what holds of every plan and of every run.

The main results:

- **When a plan conserves capacity.** What the queue requires is what the plan takes from VMs and slots
  together. `Plan.ConservedIffQueueFits` gives the condition on the input: with a complete catalogue and
  VMs of its sizes, if and only if every queued job fits some size. `Plan.OversizedNotConserved` is the
  input on which it fails, because an oversized job gets the largest size and the subtraction stops at
  zero; `Plan.MissedNotConserved` shows that a complete catalogue is needed.
- **When the binary search is right.** Catalogue and best-fit search order capacities by a partial order.
  `Search.FindsFirstExactly` says on which sorted ranges the search always finds the first fit, and
  `Search.FindsSomeExactly` on which ranges it always finds some fit, both as conditions on the range.
- **The packing planner does what its parts say, on all inputs** (`Assigner.Assign`): a sound plan, sizes
  from the catalogue, no two slots that could still be merged, each job sent where the configured order and
  strategy send it among the VMs as the earlier jobs left them, the others packed as a recursive reference
  function packs them, and with first fit no new slot for a job that a VM could still take.
  `Assigner.PlanDetermined`: up to the order of equal elements in its sorts the plan is unique, although the
  program picks slots by an unordered multimap.
- **When no VM is overcommitted, over every run.** `Overcommit.LedgersExactly`: the accounts of all VMs are
  in order in all states if and only if every committed plan conserves capacity and every final report
  finds room for what it releases. `PackedRuns.PackedLedgersExactly` turns this into a condition on tasks
  and reports for the packing planner. `Witnesses.OversizedTask` and `Witnesses.ReportedTwice` are runs that
  break it. On safe runs `Overcommit.NoOvercommit` and `Overcommit.TerminationSafety` follow, and
  `Witnesses.GivenUpInUse` shows the latter failing on an unsafe run. Runs of the simple planner are always
  safe (`SimpleRuns.SimpleRunsSafe`).
- **Why rows are as they are.** `Lifecycles` says for every status of a job or VM exactly which steps give it,
  and what every step does to every other column. Over runs: a job is shown completed, failed or cancelled if
  and only if a report, a loss or a cancellation found it unfinished (`TaskStatuses.ShownBecause`), it points
  at the VM of the last plan that assigned it (`Lifecycles.VmOfLastPlan`), and when it is done its resources
  are released (`Lifecycles.DoneReleased`).
- **Plans do not interfere** (`Histories.NoStaleCommit`, `Histories.CommitSpacing`), **work is bounded**
  (`Budgets.AssignmentBound`, `Budgets.AttemptBound`), **final is final** (`Histories.FinalFrozen`,
  `TaskStatuses.CompletedForever`).
- **The store's methods, statement by statement and row by row, have the effects of the state machine's
  transactions** (`TaskStorage.PgTaskStorage`). `Workers.Schedule` says exactly when an undisturbed
  scheduling round commits, and then it empties the queue.

## Reading order

`Capacity`, `Search`, `Ordering` hold the vocabulary. `Plan` says what a sound plan is. `Allocation`,
`SlotSelection`, `Assigner`, `Instances` are the planner. `Store` gives the tables and the effect of each
transaction, `Protocol` the steps and runs, `Histories`, `Budgets`, `Lifecycles`, `Overcommit`, `PackedRuns`,
`SimpleRuns`, `Witnesses`, `TaskStatuses` the properties of runs. `TaskStorage` and `Workers` are the classes and loops
that carry the transactions out.
`Base64` stands alone; its decoder is the strict one that section 3.5 of RFC 4648 allows, which rejects pad bits
that are not zero.

Three conventions run through the model. The solver handles sums of capacities best by component, so they
are stated with `IsSum`, `Within` and `Covers` and not as equations. A run keeps three counters that the
tables do not have: which jobs were released, how many plans assigned a job, how often a VM went into
allocation; `Budgets.HistoryCounts` proves that the last two count what the run did. Ghost results such as
the history returned by `Assigner.Assign` record how a result came about: the offers one after the other,
from the given VMs on, and the order in which the other jobs were packed.

Where code and documentation disagree the model follows the code. The state diagram
(`docs/uml-diagrams/job_state.puml`) leads from cancelling to cancelled; the code has cancelling among the
final statuses and never leaves it, which `Histories.FinalFrozen` states. The comment on the best-fit
allocator calls its order non-linear; `Allocation.BestFitFirstExactly` and `Allocation.BestFitCanMiss` say when
the search is right and when it misses.

## Model

| member | source | states |
|---|---|---|
| `Search.HalvingLoop` | libs/scheduler/impl/vm_slot_selector.cpp:71-77 | The loop of the search computes the recursive halving that the lemmas speak about. |
| `Search.LowerBound` | libs/scheduler/impl/vm_slot_selector.cpp:71-77 | The search stops at a boundary on any range: at an accepted element or the end, never just after an accepted one; the element in the middle decides whether it stops at or before it. |
| `Search.ProbesMiddle` | libs/scheduler/impl/job_allocator.cpp:150-157 | On every part of any range the element at the middle position decides which half holds the result, and the search goes on in that half. |
| `Search.HalvingBoundary` | libs/scheduler/impl/job_allocator.cpp:150-157 | The boundary property needs no partition of the range by the predicate. |
| `Search.HalvingIsLeast` | libs/scheduler/impl/vm_slot_selector.cpp:71-77 | On a partitioned range an element is accepted exactly when the result is not after it, so the result is the first accepted one. |
| `Search.FindsFirstExactly` | libs/scheduler/impl/job_allocator.cpp:150-157 | On a sorted range the search finds the first element that holds the requirement, for every requirement, if and only if at each probe the elements before it fit into it (elements equal to a probe already passed are exempt). |
| `Search.FindsSomeExactly` | libs/scheduler/impl/vm_slot_selector.cpp:71-82 | On any range the search finds something whenever something holds the requirement, if and only if every element fits into one of the probes on the way to the end. |
| `Search.CaughtExactly` | libs/scheduler/impl/vm_slot_selector.cpp:71-82 | For one requirement: the search succeeds exactly when one of these probes holds it. |
| `Search.SortedChainPivots` | libs/scheduler/impl/vm_slot_selector.cpp:10-11 | A lexicographically sorted chain of capacities meets the first condition. |
| `Search.PivotsWithoutChain` | libs/scheduler/impl/vm_slot_selector.cpp:10-11 | A sorted range that is no chain and on which the search never misses. |
| `Plan.PlaceableExactly` | libs/scheduler/impl/vm_slot_selector.cpp:69-83 | The chosen size holds the job exactly when the search does not run off the end, and always when the largest size holds it; the size before the chosen one does not hold the job. |
| `Plan.FallbackIsGreatest` | libs/scheduler/impl/vm_slot_selector.cpp:79-81 | For a job without a search result the size is one that no size of a sorted catalogue exceeds. |
| `Plan.MinFitFirstExactly` | libs/scheduler/impl/vm_slot_selector.cpp:69-83 | In a sorted catalogue the search finds the first size that holds the job, for every job, if and only if the catalogue has pivots. |
| `Plan.PlaceableIffFitting` | libs/scheduler/impl/vm_slot_selector.cpp:69-83 | Every job that fits some size is placeable, if and only if the catalogue is complete. |
| `Plan.MinFitIsLeast` | libs/scheduler/impl/vm_slot_selector.cpp:69-83 | On a sorted chain of sizes, which is complete, the chosen size is the least that holds the job. |
| `Plan.MinFitCanMiss` | libs/scheduler/impl/vm_slot_selector.cpp:69-83 | A sorted catalogue that is not a chain, and a job it could hold, for which the search ends without a size. |
| `Plan.FittingIsPlaceable` | libs/scheduler/impl/vm_slot_selector.cpp:69-83 | In a complete catalogue a job is placeable exactly when some size holds it. |
| `Plan.GivenUpExactly` | libs/scheduler/impl/job_allocator.cpp:183-192 | A sound plan gives up a VM exactly when it was read fully idle and all jobs put on it require nothing. |
| `Plan.ConservedExactly` | libs/scheduler/tests/test_utils.cpp:78-106 | For every sound plan: the sum of all requirements equals the sum of what VMs lose and new slots have in use, exactly when every new slot holds what was put on it. |
| `Plan.PlanConserves` | libs/scheduler/tests/test_utils.cpp:78-106 | With placeable jobs every sound plan conserves capacity. |
| `Plan.ConservedIffFitting` | libs/scheduler/impl/vm_slot_selector.cpp:41-50 | For the packing planner and a complete catalogue: conservation holds if and only if every job that gets a new slot fits some size. |
| `Plan.ConservedIffQueueFits` | libs/scheduler/impl/vm_slot_selector.cpp:41-50 | The same as a condition on the input, when the VMs' idle capacities fit sizes of the catalogue: if and only if every queued job fits some size. |
| `Plan.MissedNotConserved` | libs/scheduler/impl/vm_slot_selector.cpp:69-83 | For a job of a size that the search misses no plan of the packing planner conserves capacity, although the job fits. |
| `Plan.OversizedNotConserved` | libs/scheduler/impl/vm_slot_selector.cpp:79-81 | One job of (2, 2) and the size (1, 1): no plan of the packing planner conserves capacity. |
| `Plan.NewSlotsBounded` | libs/scheduler/impl/vm_slot_selector.cpp:54-66 | New slots never outnumber the jobs that go into new slots. |
| `Ordering.InsertSorted` | libs/scheduler/impl/job_allocator.cpp:165-167 | Insertion into an ordered container keeps the order, moves nothing else and puts the element just behind all that are not greater. |
| `Ordering.Sort` | libs/scheduler/impl/ordered_jobs.cpp:12-28 | A sorted permutation by the lexicographic order, ascending or descending. |
| `Ordering.SortedMeans` | libs/scheduler/impl/ordered_jobs.cpp:12-28 | Descending means that no element is less than a later one, ascending that no element is less than an earlier one. |
| `Capacity.LessIsLexicographic` | libs/common/include/slot.h:12 | The order compares cpu first and ram second, and is total; a capacity that fits into a different one is less. |
| `Ordering.OrderJobs` | libs/scheduler/impl/ordered_jobs.cpp:5-42 | Each ordering yields a permutation of the queue: unchanged, or no requirement less than an earlier one, or none less than a later one. |
| `Ordering.PermutedJobs` | libs/scheduler/impl/ordered_jobs.cpp:5-29 | Reordering a queue of distinct jobs keeps ids distinct and every id's requirement. |
| `Allocation.ChosenFits` | libs/scheduler/impl/job_allocator.cpp:7-17 | Whatever VM any of the three strategies chooses holds the job; first fit gives up only when no VM does. |
| `Allocation.WorstFitGreatest` | libs/scheduler/impl/job_allocator.cpp:97-115 | Worst fit chooses a VM of lexicographically greatest idle capacity, and gives up exactly when the last VM does not hold the job. |
| `Allocation.BestFitGivesUp` | libs/scheduler/impl/job_allocator.cpp:148-161 | Best fit gives up exactly when no VM it probes on the way to the end holds the job; the VM of greatest idle capacity is one of them. |
| `Allocation.BestFitFirstExactly` | libs/scheduler/impl/job_allocator.cpp:148-161 | Best fit takes the first VM that holds the job, for every job, if and only if the idle capacities have pivots. |
| `Allocation.BestFitLeast` | libs/scheduler/impl/job_allocator.cpp:148-161 | With pivots no VM that holds the job has lexicographically less idle capacity than the chosen one; on a chain none has less in any component. |
| `Allocation.BestFitCanMiss` | libs/scheduler/impl/job_allocator.cpp:150-161 | Idle capacities that are no chain, where best fit gives up although a VM holds the job. |
| `Allocation.JobAllocator.constructor` | libs/scheduler/impl/job_allocator.cpp:88-95 | The allocator holds exactly the given VMs, ordered by idle capacity for best and worst fit, and nothing is updated. |
| `Allocation.JobAllocator.Allocate` | libs/scheduler/impl/job_allocator.cpp:97-115 | The VM at the strategy's position, if any, loses exactly the requirement and is marked updated; all other VMs, their order for first fit, the order by idle capacity otherwise, and on failure everything, stay. |
| `Allocation.JobAllocator.Choose` | libs/scheduler/impl/job_allocator.cpp:148-161 | The scan, the search and the look at the last VM compute the strategy's position; `Search.ProbesMiddle` says which one the search finds on any list. |
| `Allocation.JobAllocator.GetVmsWithUpdatedCapacities` | libs/scheduler/impl/job_allocator.cpp:172-181 | Exactly the VMs that received a job, with their present idle capacity. |
| `Allocation.JobAllocator.GetIdleVms` | libs/scheduler/impl/job_allocator.cpp:183-192 | Exactly the VMs whose idle capacity is their total. |
| `Allocation.EraseAndInsert` | libs/scheduler/impl/job_allocator.cpp:162-167 | Moving a VM to its new place keeps the container ordered and replaces only that VM. |
| `SlotSelection.BestOpenSlot` | libs/scheduler/impl/vm_slot_selector.cpp:29-36 | The scan finds the first slot of least idle capacity among those that hold the job, or there is none. |
| `SlotSelection.TakeSlot` | libs/scheduler/impl/vm_slot_selector.cpp:99-102 | Some slot of the size leaves the list and the multimap together; all other slots, jobs and sizes stay. |
| `SlotSelection.JoinKeepsLedger` | libs/scheduler/impl/vm_slot_selector.cpp:104-112 | Joining two slots of one size keeps the account of total, idle capacity and jobs, also when capacity was lost. |
| `SlotSelection.MergedOneUp` | libs/scheduler/impl/vm_slot_selector.cpp:85-117 | Replacing two slots by a doubled one moves the only size that may be crowded one step up. |
| `SlotSelection.JoinTwo` | libs/scheduler/impl/vm_slot_selector.cpp:99-115 | One merge: the slot of the job being placed absorbs exactly one other of its size, with its idle capacity and jobs, and doubles; accounts are kept. |
| `SlotSelection.Merge` | libs/scheduler/impl/vm_slot_selector.cpp:85-117 | The slots that disappear are exactly those the last slot absorbed, one of each size it had on its way up, and it holds their idle capacity and jobs; the slots that stay keep their order; no size stays crowded; slots and sizes are those of the merge by the book and of a binary carry, whichever match the multimap returns. |
| `SlotSelection.PlaceJob` | libs/scheduler/impl/vm_slot_selector.cpp:29-51 | A job goes into the best open slot and nothing else changes; only if none holds it, a slot of the searched size is opened and merged as `SlotSelection.Merge` says; list and multimap agree, every size is merged, and the slots are those of the placement by the book. |
| `SlotSelection.PackJobs` | libs/scheduler/impl/vm_slot_selector.cpp:28-52 | The loop with its list, iterators and multimap refines a recursive function that packs the jobs by the book; its open slots hold each job once with every account in order. |
| `SlotSelection.MergedApart` | libs/scheduler/impl/vm_slot_selector.cpp:91-98 | Two open slots have the same size only if the doubled size is not in the catalogue. |
| `SlotSelection.NumberSlots` | libs/scheduler/impl/vm_slot_selector.cpp:54-66 | Slots are numbered in list order and a job is assigned a number exactly when it is in that slot. |
| `SlotSelection.NumberedLoad` | libs/scheduler/impl/vm_slot_selector.cpp:58-64 | The requirements assigned to a number sum up to those of the slot's job list. |
| `SlotSelection.Select` | libs/scheduler/impl/vm_slot_selector.cpp:14-67 | Every job is in one new slot; each slot's total is its idle capacity plus its load unless a job on it is not placeable; nothing is left to merge; the slots, in list order, are those of packing the jobs so that no requirement is less than a later one. |
| `SlotSelection.GreatestFirst` | libs/scheduler/impl/vm_slot_selector.cpp:17-22 | Packing goes from the greatest requirement to the least. |
| `SlotSelection.SelectionDetermined` | libs/scheduler/impl/vm_slot_selector.cpp:14-67 | Two selections with the same sorted queue give the same slots and assignments, whichever slots the multimap found. |
| `Assigner.OfferJobs` | libs/scheduler/impl/complex_vm_assigner.cpp:18-27 | The jobs are offered in order, starting with the allocator's VMs, each to the position the strategy chooses among the VMs as the earlier jobs left them; what is placed is where they were sent; VMs lose exactly that; with first fit, jobs left over fit no VM even at the end. |
| `Assigner.PlaceOnVms` | libs/scheduler/impl/complex_vm_assigner.cpp:18-37 | The same starting with the given VMs, together with the updated capacities and the VMs to give up as the last offer leaves them. |
| `Assigner.PlannedSound` | libs/scheduler/impl/complex_vm_assigner.cpp:29-38 | The two partial plans merge into one sound plan. |
| `Assigner.Assign` | libs/scheduler/impl/complex_vm_assigner.cpp:16-39 | The plan is sound for every queue, VM list, ordering and strategy; sizes are in the catalogue, cannot be merged further and are at most one per job; first fit is maximal; the plan is exactly what offering in the configured order by the strategy, from the given VMs, and packing the rest produce. |
| `Assigner.OfferingDetermined` | libs/scheduler/impl/job_allocator.cpp:148-170 | From the same container the same jobs in the same order give the same offering, ties included: a charged VM goes behind its equals. |
| `Assigner.PlanDetermined` | libs/scheduler/impl/complex_vm_assigner.cpp:16-39 | Two plans with the same container, queue order and packing order assign the same jobs to the same VMs and slots and give up the same VMs. |
| `Assigner.ReceiverGivenUp` | libs/scheduler/impl/complex_vm_assigner.cpp:33-38 | A job that requires nothing and a fully idle VM: every first-fit plan puts the job there and gives the VM up. |
| `Assigner.AssignSimple` | libs/scheduler/impl/simple_vm_assigner.cpp:5-35 | One new VM of the job's own size per job, numbered in queue order; the plan is sound and conserves capacity whatever the catalogue and the jobs' sizes. |
| `Instances.TypeForIsLeast` | libs/aws/allocator/impl/cloud_client.cpp:52-71 | A slot of a size that some type has gets a type of exactly that size; otherwise a least type not below the slot, or the largest. |
| `Instances.InstanceTypeForSlot` | libs/aws/allocator/impl/cloud_client.cpp:52-71 | The search over the types computes that type. |
| `Instances.RowsGetTheirSize` | libs/aws/allocator/impl/cloud_client.cpp:281-288 | When the planner is offered the types' capacities, every VM of every run of the packing planner is allocated as an instance of exactly its size. |
| `Histories.StepEvolves` | libs/db/impl/pg_task_storage.cpp:777-816 | No transaction removes a row, changes a requirement, a task or a size, lowers a restart count or touches a final job. |
| `Histories.RunEvolves` | libs/db/impl/pg_task_storage.cpp:109-193 | The same between any two states of a run, and a task gets no jobs after its creation. |
| `Histories.RelevantIsLatest` | libs/db/impl/pg_task_storage.cpp:346-367 | The plan with the one greatest update time is the plan of greatest id. |
| `Histories.PlansStep` | libs/db/impl/pg_task_storage.cpp:195-222 | Every step keeps plan rows ordered in time by id, an interval apart. |
| `Histories.PlanSpacing` | libs/db/impl/pg_task_storage.cpp:435-453 | In every state of every run a plan starts at least the interval after every earlier plan's last update. |
| `Histories.StampedSince` | libs/db/impl/pg_task_storage.cpp:369-383 | A commit stamps its plan's row with the commit's time, for the rest of the run. |
| `Histories.StartAfterCommit` | libs/db/impl/pg_task_storage.cpp:435-453 | In every run no scheduling starts before the interval after any earlier commit is over. |
| `Histories.CommitSpacing` | libs/db/impl/pg_task_storage.cpp:287-344 | Any two commits of a run are at least the interval apart, in the order of their plans. |
| `Witnesses.StartsAtOnce` | libs/db/impl/pg_task_storage.cpp:435-453 | A run after whose commit scheduling may start exactly from the end of the interval on, and not before. |
| `Histories.NoStaleCommit` | libs/db/impl/pg_task_storage.cpp:298-304 | Once a newer plan record exists, no older plan ever commits. |
| `Histories.FinalFrozen` | libs/state/impl/task.cpp:43-53 | A job in a final status keeps its whole row for the rest of the run; a cancelling job never becomes cancelled. |
| `Lifecycles.JobTurnsExactly` | libs/db/impl/pg_task_storage.cpp:777-816 | For every step, job and status: a job gets a status exactly by the steps that are to give it, from cancellation by its former status to the restart or failure of a job that loses its VM. |
| `Lifecycles.JobColumns` | libs/db/impl/pg_task_storage.cpp:560-605 | A job's task and requirement never change, its restarts count exactly its returns to the queue, and its VM is written by plans alone. |
| `Lifecycles.NewJobRow` | libs/db/impl/pg_task_storage.cpp:133-172 | Jobs come in with tasks only: queued, on no VM, not restarted. |
| `Lifecycles.FinalExactly` | libs/db/impl/pg_task_storage.cpp:1290-1310 | In every run a job has a final status if and only if an earlier step gave it: the first accepted final report, cancellation or last loss of its VM decides. |
| `Lifecycles.DoneReleased` | libs/db/impl/pg_task_storage.cpp:799-808 | In every run the resources of every completed, cancelled or failed job have been released. |
| `Lifecycles.VmOfLastPlan` | libs/db/impl/pg_task_storage.cpp:569-593 | In every run a job points at the VM that the last committed plan assigning it chose, through restarts and cancellations, and at none before. |
| `Lifecycles.VmTurnsExactly` | libs/db/impl/pg_task_storage.cpp:979-1023 | For every step, VM and status: a VM gets a status exactly by the steps that are to give it. |
| `Lifecycles.VmColumns` | libs/db/impl/pg_task_storage.cpp:884-912 | A VM's size never changes and its restarts count exactly its returns to wait for allocation. |
| `Lifecycles.NewVmRow` | libs/db/impl/pg_task_storage.cpp:528-558 | VMs come with plans only: one for a slot of the plan, with its capacities, waiting for allocation. |
| `Lifecycles.IdleExactly` | libs/db/impl/pg_task_storage.cpp:20-38 | What every step does to a VM's idle capacity: a plan takes its load from what it read, cancellations and final reports give back what their jobs require up to the total, nothing else changes it. |
| `Lifecycles.ActiveExactly` | libs/state/impl/vm.cpp:43-52 | A VM that plans may use stays so exactly until a step gives it up; a new VM is one from the start. |
| `Lifecycles.ActiveUntilGivenUp` | libs/state/impl/vm.cpp:43-52 | The same between any two states of a run. |
| `Lifecycles.JobsSeen` | libs/db/impl/pg_task_storage.cpp:607-634 | A schedule call sees exactly the queued jobs, with their requirements. |
| `Lifecycles.VmsSeen` | libs/db/impl/pg_task_storage.cpp:636-669 | A schedule call sees exactly the VMs in the four active statuses, with the capacities of their rows. |
| `Lifecycles.SentToActive` | libs/db/impl/pg_task_storage.cpp:249-285 | After every commit of a run each job it assigned is on a VM that plans may use, or requires nothing and its VM is given up by the same plan. |
| `Budgets.SaneAt` | libs/db/impl/pg_task_storage.cpp:287-344 | The invariant of budgets, capacities, row references and what running schedule calls have read holds in every state of every run. |
| `Budgets.HistoryCounts` | libs/db/impl/pg_task_storage.cpp:560-605 | The counters of a run count its committed assignments of each job and its allocation attempts of each VM. |
| `Budgets.AssignmentBound` | libs/db/impl/pg_task_storage.cpp:927-975 | Committed plans of a run assign a job at most once more than it was restarted, so at most limit + 1 times. |
| `Budgets.AttemptBound` | libs/db/impl/pg_task_storage.cpp:884-912 | A run takes a VM into allocation at most once more than it was restarted, so at most limit + 1 times. |
| `Budgets.IdleWithinTotal` | libs/db/impl/pg_task_storage.cpp:20-38 | Whatever is reported or cancelled, no VM ever has more idle capacity than its total. |
| `Overcommit.ReleaseLedger` | libs/db/impl/pg_task_storage.cpp:20-38 | Releasing jobs that still hold capacity keeps idle capacity plus held requirements within the total. |
| `Overcommit.CommitExactly` | libs/db/impl/pg_task_storage.cpp:287-344 | A commit keeps the accounts of all VMs if and only if its plan conserves capacity, although releases, restarts and cancellations may have come after the plan's read. |
| `Overcommit.ReportExactly` | libs/db/impl/pg_task_storage.cpp:1254-1320 | Any report keeps all accounts if and only if it is not a final one that is accepted for a released job on a VM without room to release it once more. |
| `Overcommit.LedgerStep` | libs/db/impl/pg_task_storage.cpp:777-816 | Every step of every component keeps the accounts of all VMs if and only if it is safe: cancellations, restarts, allocation and termination always are. |
| `Overcommit.LedgersAt` | libs/db/impl/pg_task_storage.cpp:224-247 | The accounts of all VMs, and of the capacities the latest schedule call read, hold in every state of every safe run. |
| `Overcommit.LedgersExactly` | libs/db/impl/pg_task_storage.cpp:287-344 | For every run: all accounts are in order in all states if and only if all steps are safe. |
| `Overcommit.NoOvercommit` | libs/db/impl/pg_task_storage.cpp:287-344 | In every state of every safe run each VM's total covers its idle capacity and all unfinished jobs assigned to it. |
| `PackedRuns.SizesAt` | libs/db/impl/pg_task_storage.cpp:528-558 | Every VM a run of the packing planner ever has is of a size the catalogue offers. |
| `PackedRuns.NewLedgerFits` | libs/db/impl/pg_task_storage.cpp:528-558 | With a complete catalogue a new VM starts within its total if and only if the jobs the plan puts on it fit some size. |
| `PackedRuns.SafeIffQueueFits` | libs/db/impl/pg_task_storage.cpp:287-344 | With a complete catalogue and VMs of its sizes, a plan of the packing planner is safe to commit if and only if every job of the queue it was computed from fits some size. |
| `PackedRuns.JobFromTask` | libs/db/impl/pg_task_storage.cpp:133-172 | Every job of every state came in with a task and keeps its requirement. |
| `PackedRuns.PackedLedgersExactly` | libs/db/impl/pg_task_storage.cpp:109-193 | For every run of the packing planner with a complete catalogue: all accounts are in order in all states if and only if every task that gets planned fits some size and every final report finds room. |
| `PackedRuns.PlaceableTasksSafe` | libs/db/impl/pg_task_storage.cpp:109-193 | Whatever planner and catalogue: with placeable tasks and final reports that find room a run is safe. |
| `SimpleRuns.OnePerJobSimple` | libs/scheduler/impl/simple_vm_assigner.cpp:5-35 | The simple planner's plans put each job alone on a new VM of its own size. |
| `SimpleRuns.AloneStep` | libs/db/impl/pg_task_storage.cpp:560-605 | With such plans every step keeps that each VM has at most one job, of its own size, and nothing idle until that job is released. |
| `SimpleRuns.SimpleRunsSafe` | libs/scheduler/impl/simple_vm_assigner.cpp:5-35 | Runs of the simple planner never overcommit a VM, whatever is submitted, reported and cancelled and in whatever order. |
| `Overcommit.FinalReportExactly` | libs/db/impl/pg_task_storage.cpp:1254-1320 | A final report keeps all accounts if and only if the job was not released before or its VM has room to release it once more. |
| `Witnesses.ReportedTwice` | libs/db/impl/pg_task_storage.cpp:1254-1320 | A run from the empty store, with any catalogue that offers (2, 2) and a plan of the packing planner, in which a job reported complete twice leaves its VM overcommitted. |
| `Witnesses.TwoJobsByTheBook` | libs/scheduler/impl/vm_slot_selector.cpp:28-52 | When (2, 2) is the one size offered, the plan of that run is the one the packing planner makes. |
| `Witnesses.GivenUpInUse` | libs/db/impl/pg_task_storage.cpp:473-497 | The run goes on: the next plan of the packing planner gives up that VM while a job of (1, 1) is scheduled on it. |
| `Witnesses.OversizedTask` | libs/db/impl/pg_task_storage.cpp:528-558 | A run in which a task of (2, 2) is planned with the size (1, 1), as the packing planner does, and its VM is overcommitted. |
| `Overcommit.TerminationSafety` | libs/db/impl/pg_task_storage.cpp:473-497 | In every safe run, before and after a commit, an unfinished job that points at a VM the plan gives up requires nothing; the VM waits for termination. |
| `TaskStatuses.CompletedExactly` | libs/server/impl/public_api_service.cpp:81-102 | A task is shown completed exactly when all its jobs are in the final set. |
| `TaskStatuses.TaskStatusExactly` | libs/server/impl/public_api_service.cpp:81-102 | A task is shown running exactly when a job of it runs, and queued exactly when none runs and one is queued or scheduled. |
| `TaskStatuses.ShownBecause` | libs/server/impl/helpers.cpp:27-44 | In every run a job is shown completed, failed or cancelled if and only if the report, loss or cancellation that is to cause this found it unfinished. |
| `TaskStatuses.CompletedForever` | libs/server/impl/public_api_service.cpp:81-102 | A task shown completed is shown completed in every later state of every run. |
| `TaskStorage.PgTaskStorage.constructor` | libs/db/impl/pg_task_storage.cpp:455-471 | An empty store, its serial columns ahead of all rows. |
| `TaskStorage.PgTaskStorage.LastUpdate` | libs/db/impl/pg_task_storage.cpp:435-453 | The greatest update time of a plan, zero when there is none. |
| `TaskStorage.PgTaskStorage.StartScheduling` | libs/db/impl/pg_task_storage.cpp:195-222 | A plan row with a greater id is inserted exactly when the lock is free and the interval is over; otherwise nothing changes. |
| `TaskStorage.PgTaskStorage.GetQueuedJobs` | libs/db/impl/pg_task_storage.cpp:607-634 | Exactly the queued jobs with their requirements, each once. |
| `TaskStorage.PgTaskStorage.GetActiveVms` | libs/db/impl/pg_task_storage.cpp:636-669 | Exactly the VMs in an active status with both capacities, each once. |
| `TaskStorage.PgTaskStorage.IsSchedulingRelevant` | libs/db/impl/pg_task_storage.cpp:346-367 | True exactly when this plan alone carries the greatest update time; an error exactly when no plan alone does, as with a tie or an empty table. |
| `TaskStorage.PgTaskStorage.CheckConflicts` | libs/db/impl/pg_task_storage.cpp:249-285 | Succeeds exactly when no planned job is final and no charged VM has left the active statuses. |
| `TaskStorage.PgTaskStorage.AllocateNewVms` | libs/db/impl/pg_task_storage.cpp:528-558 | One fresh row per slot, the two directions of the slot-row relation inverse to each other, and no old row changed. |
| `TaskStorage.PgTaskStorage.UpdateVmCapacities` | libs/db/impl/pg_task_storage.cpp:499-526 | The pass over the rows gives exactly the listed VMs their planned idle capacity. |
| `TaskStorage.PgTaskStorage.AssignmentPairs` | libs/db/impl/pg_task_storage.cpp:569-582 | The joined table pairs every assigned job with its VM or with the row its slot got. |
| `TaskStorage.PgTaskStorage.ApplyJobVmAssignments` | libs/db/impl/pg_task_storage.cpp:560-605 | Joining that table with the jobs has the effect of the state machine's commit on the jobs. |
| `TaskStorage.PgTaskStorage.ApplyVmChanges` | libs/db/impl/pg_task_storage.cpp:311-324 | The statements on VMs, in their order, have the effect that the state machine's commit has on the VM table. |
| `TaskStorage.PgTaskStorage.CommitPlanChange` | libs/db/impl/pg_task_storage.cpp:287-344 | Commits exactly when the plan is relevant and free of conflicts, with the state machine's effect and the plan's row stamped with the time; otherwise nothing changes, and each of the three errors occurs exactly for its cause: a conflict, another relevant plan, or none. |
| `TaskStorage.PgTaskStorage.ReleaseVmResources` | libs/db/impl/pg_task_storage.cpp:20-38 | Each VM gets back the sum over its released jobs, capped at its total; other VMs stay. |
| `TaskStorage.PgTaskStorage.MarkCancelled` | libs/db/impl/pg_task_storage.cpp:779-805 | The pass cancels queued rows, marks other unfinished ones as cancelling, and returns exactly the rows that became cancelled. |
| `TaskStorage.PgTaskStorage.CancelJobs` | libs/db/impl/pg_task_storage.cpp:777-816 | Queued jobs become cancelled and are released, other unfinished jobs become cancelling. |
| `TaskStorage.PgTaskStorage.UpdateJobState` | libs/db/impl/pg_task_storage.cpp:1254-1320 | A report writes exactly the reported status, into an unfinished row only, changes no other job, releases on every final status, and fails exactly when the job is not on that VM. |
| `TaskStorage.PgTaskStorage.GetVmsToAllocate` | libs/db/impl/pg_task_storage.cpp:683-715 | Takes waiting VMs only, at most the limit, and all of them when fewer are taken. |
| `TaskStorage.PgTaskStorage.GetVmsToTerminate` | libs/db/impl/pg_task_storage.cpp:717-747 | The same for VMs that wait for termination. |
| `TaskStorage.PgTaskStorage.SaveVmAllocationResult` | libs/db/impl/pg_task_storage.cpp:829-849 | The row with that id, if there is one, becomes allocated and no other row changes. |
| `TaskStorage.PgTaskStorage.SetVmStatus` | libs/db/impl/pg_task_storage.cpp:749-775 | The pass over the rows gives exactly the listed VMs the status, whatever ids are listed. |
| `TaskStorage.PgTaskStorage.RestartAllocatingVms` | libs/db/impl/pg_task_storage.cpp:884-912 | The pass sends exactly the VMs in allocation with restarts left back to wait, one restart more. |
| `TaskStorage.PgTaskStorage.MarkTerminated` | libs/db/impl/pg_task_storage.cpp:986-1005 | The pass gives up exactly the VMs in the initial status without restarts left, and returns them. |
| `TaskStorage.RestartInSequence` | libs/db/impl/pg_task_storage.cpp:933-970 | The two statements of a restart in sequence restart or fail each job once, if and only if no job waits in the queue at its last restart with the queue as initial status: only then the second would catch a row of the first. |
| `TaskStorage.PgTaskStorage.RestartJobs` | libs/db/impl/pg_task_storage.cpp:927-975 | The two passes, the second over what the first left, have the effect of one restart of each job. |
| `TaskStorage.PgTaskStorage.TerminateVms` | libs/db/impl/pg_task_storage.cpp:979-1023 | The update of the VMs, and the two of their scheduled jobs when any VM was hit, have the effect of the state machine's step. |
| `TaskStorage.PgTaskStorage.TerminateInactive` | libs/db/impl/pg_task_storage.cpp:1067-1111 | The same for VMs with silent agents and their running jobs. |
| `TaskStorage.PgTaskStorage.RollbackUnallocatedVms` | libs/db/impl/pg_task_storage.cpp:1044-1065 | Of the listed VMs in allocation those with restarts left wait again and exactly the others are given up, with their scheduled jobs restarted; no VM is restarted by the first transaction and given up by the second. |
| `Workers.RestartClears` | libs/db/impl/pg_task_storage.cpp:927-975 | No job stays scheduled, or running, on the given VMs; each is queued with one restart more within the limit, or failed at the limit; no other row changes. |
| `Workers.Allocate` | libs/allocator/impl/allocator.cpp:14-51 | Every fetched VM ends allocated, waiting again within its restarts, or given up, and no job stays scheduled on one given up; all other VMs stay. |
| `Workers.Terminate` | libs/allocator/impl/allocator.cpp:53-93 | Every fetched VM ends terminated or waits for termination again; all other rows stay. |
| `Workers.RunAssigner` | libs/scheduler/impl/scheduler.cpp:60-65 | Whichever assigner is configured, its plan is sound for the state it was given. |
| `Workers.StartedIsRelevant` | libs/db/impl/pg_task_storage.cpp:435-471 | A plan row just inserted is the relevant one if and only if the clock has moved since the last update of every other plan, as it has after a positive interval. |
| `Workers.StartedNotRelevant` | libs/db/impl/pg_task_storage.cpp:346-357 | Without an interval and with a plan updated at the time of the start, a round may start and its plan is not the relevant one. |
| `Workers.PlanAndCommit` | libs/scheduler/impl/scheduler.cpp:52-74 | Undisturbed, a round commits exactly when its plan is relevant, and the tables then carry a sound plan of that state. |
| `Workers.Schedule` | libs/scheduler/impl/scheduler.cpp:33-75 | Undisturbed, a round commits if and only if the lock is free, it may start and the clock has moved since the last update of every plan; with a positive interval whenever it may start. A round that commits leaves no job queued; one that does not changes no job and no VM. |
| `Base64.SymbolCodes` | libs/common/impl/base64.cpp:7-12 | The alphabet by character codes. |
| `Base64.QuadNumber` | libs/common/impl/base64.cpp:20-27 | Four symbols stand for the same 24-bit number as the three bytes, first byte highest. |
| `Base64.TailNumber` | libs/common/impl/base64.cpp:28-39 | A padded group stands for its bytes followed by zero bits, with one padding character for each missing byte. |
| `Base64.RoundTrip` | libs/common/impl/base64.cpp:5-42 | The decoder returns every byte string from its encoding. |
| `Base64.EncodeDecoded` | libs/common/impl/base64.cpp:5-42 | Whatever decodes is the encoding of what it decodes to, so encoding is one to one onto the strings that decode. |
| `Base64.EncodedLength` | libs/common/impl/base64.cpp:14-16 | The encoding of n bytes has 4 * ((n + 2) / 3) characters. |
| `Base64.Base64Encode` | libs/common/impl/base64.cpp:14-41 | The buffer loop fills the buffer exactly and its result decodes to the data, for two bytes or more. |
| `Base64.LoopStaysInside` | libs/common/impl/base64.cpp:20-27 | The unsigned loop bound keeps all reads inside the data exactly from two bytes on. |

## Left out

- Base64.Base64Encode: asks for two bytes at least, because the loop bound `in_len - 2` wraps around below that; `Base64.LoopStaysInside` is the exact statement and the encoded user data is always longer.
- Overcommit.NoOvercommit: holds on safe runs only, because without that it is false; `Overcommit.LedgersExactly` shows that the accounts behind it are in order exactly when all steps are safe. A final report is unsafe when its job was released before, by an earlier final report or by a cancellation after a restart, and the VM has no room to spare.
- Plan.ConservedIffQueueFits: asks for a complete catalogue and for VMs whose idle capacity fits some size; `Plan.MissedNotConserved` and, for runs, `PackedRuns.SizesAt` say why.
- Instances.InstanceTypeForSlot: asks for a non-empty list of types, and says what it finds when the list is sorted, as the program sorts it when it loads the types.
- Integer widths: capacities are natural numbers; the casts to `int` in `libs/common/include/slot.h` agree for counts below 2^31, which the 32-bit columns of the database guarantee.
- Times are integers; the comparison of update times as doubles in seconds is not rounded.
- Isolation inside a transaction: every storage method is one atomic step, except that the two reads of the current state are separate steps; row locks and deadlocks are not modelled.
- Time conditions of the failure detector and of timeouts are arbitrary sets of rows, so the results hold for all of them.
- `std::sort` is any sorted permutation, list iterators are node numbers, the unordered multimap is a set of pairs whose `find` may return any match, `std::lower_bound` is the halving loop of the common library implementations.
- The restart statement lacks a space before its `WHERE`; it is read as the statement it is meant to be.
- Failures of storage calls inside the allocator's loops, and exceptions of the database driver.
- The next-fit strategy, whose loops do not advance their iterator.
- Leader election through ZooKeeper and the lock table, which only logs and records lock numbers.
- Untracked cloud VMs, the cloud client's requests, the Go agent, gRPC, JSON, logs and configuration.
- The order of VM statuses: reports of the allocator may meet a VM that was given up meanwhile, and no order is claimed.
- That a VM given up by the failure detector has no job pointing at it: only jobs in the status it restarts are moved.
